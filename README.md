# Task leasing and navigation engine of an image-annotation tool

The tool hands image pairs, which it calls tasks, to annotators one at a time. It is backed by MongoDB, and the model covers these parts:

- **Task store and lock table.** This is `AnnotationStore`, from `database/annotation_repository.py`.
  - A user leases a pending task by taking an exclusive lock on it. The lock lives `lock_timeout` seconds (default 300).
  - While the lease is held the task is `annotating`.
  - The holder can complete the task, which makes it `annotated` and drops the lock. The holder can also cancel, which sends it back to `pending`.
  - A sweep deletes the locks that have expired and resets the tasks they guarded.
  - The store is seeded from a corpus of image pairs by an idempotent upsert, and counts tasks per status.
- **Navigation history.** This is `HistoryStore`, from `database/user_history_repository.py`.
  - Each user has a list of task snapshots and a cursor.
  - Reclaimed tasks are purged from every history.
- **Database facade.** This is `DatabaseFacade`, from `database/__init__.py`. It runs the sweep, and then the history purge, before the two reads that serve a user. Every other call is forwarded as it is.
- **Annotator's controller.** This is `AnnotationInterface`, from `core/annotation_interface.py`. It covers "next" (replay the history or lease a new task), "previous", cancel and save.
- **Review listing.** This is `ReviewInterface`, from `core/review_interface.py`. It covers the paged listing, with its status filter and role-based visibility, and the review page's direct update.
- **User registry.** This is `UserStore`, from `database/user_repository.py`.

Shared records are in `Records` (the task fields and statuses of `model.py`). `Ordering` holds the two orders the queries read:

- Ascending id order. This is the order of the pending scan's `sort("_id", 1)`. It is also the natural order of the task collection, which is only appended to, with growing ids; the review listing reads that order.
- A collection's stored order. The lock collection is inserted into and deleted from, so its order is kept as a sequence of its ids. An unsorted query such as the sweep's `find` reads a `Filter` of that sequence.

`Scenarios` replays short worked examples against the contracts.

Every repository call is one atomic, sequential step:

- The clock is an integer `now` passed in by the caller. A lock taken at `now` expires at `now + lockTimeout`, and it counts as expired once `expiresAt < now`.
- Task ids are natural numbers handed out in increasing order, standing for ObjectIds. Ascending id order is therefore insertion order.
- User ids are strings, and the empty string means "not logged in".
- The lock collection is a map from task id to lock. That is what the unique index on `doc_id` guarantees: at most one lock per task.
- Next to the map, `lockOrder` lists the stored lock documents in insertion order. An insert appends, a delete removes the id, and the others keep their order. The sweep reads the expired ids in that order and purges the histories one id at a time in the same order. The order matters for the cursors (`Scenarios.SweepFollowsStoredOrder`).

Each repository is a class whose collections are `map`/`seq` fields. Its methods are specified by what they do to those fields, stated through pure functions (`Assign`, `Reset`, `Edit`, `LockedEdit`, `LiveLocks`, `ResetExpired`, `SeedAll`, `PurgeAll`, `Matching`, …). The lemmas about those functions carry the guarantees.

The sweep keeps an invariant, status/lock coupling: every annotating task holds a lock held by its assignee. It is preserved by the following:

- the sweep;
- seeding;
- leasing;
- cancelling;
- every update that does not set `annotating`.

Three behaviours of the code are easy to miss. The model follows the code in each:

- **History purge.** A removed entry that lies before the cursor leaves the cursor's value unchanged, even when it then points past the end. History [a, b, c] with the cursor on c, and b expiring, gives [a, c] with the cursor still 2 (`HistoryStore.PurgeExampleCursorPastEnd`).
- **"previous".** It stores `cursor - 1` even below -1. A later "next" then reads a negative index the Python way, counting from the end (`AnnotationInterface.PyIndex`, `Scenarios.CursorBelowZeroReplaysLastEntry`).
- **`update_with_lock`.** It checks who holds the lock but not whether the lock has expired.

## Model

| member | source | states |
|---|---|---|
| Records.StatusNameInjective | model.py:26 | The three status spellings are distinct, so a status filter on the spelled name selects exactly one status. |
| Ordering.LeastExists | database/annotation_repository.py:160 | Every non-empty set of ids has a least element, which is the first document of the ascending scan. |
| Ordering.Least | database/annotation_repository.py:160 | The chosen element is the least of the set. |
| Ordering.LeastIs | database/annotation_repository.py:160 | The least element is unique. |
| Ordering.AscendingListsSet | database/annotation_repository.py:419-423 | The task collection's natural order (ascending ids, since it is only appended to with growing ids) lists every stored id exactly once, nothing else, in strictly increasing order. |
| Ordering.AscendingMembers | database/annotation_repository.py:419-423 | The natural-order listing has as many entries as there are stored ids, and exactly those ids. |
| Ordering.AscendingIncreasing | database/annotation_repository.py:419-423 | The natural-order listing of the task collection is strictly increasing. |
| Ordering.SortedIds | database/annotation_repository.py:419-423 | The loop that repeatedly takes the least remaining id produces the natural-order listing the review query reads. |
| Ordering.Filter | database/annotation_repository.py:391-392 | An unsorted `find` reads, in the stored order, exactly the stored ids it matches, and no more entries than are stored. |
| Ordering.FilterDistinct | database/annotation_repository.py:391-392 | A `find` over a collection that stores each id once reads each id at most once. |
| Ordering.FilterKeepsAll | database/annotation_repository.py:116-119 | A delete that matches none of the stored ids leaves the stored order as it was. |
| Ordering.FilterNothing | database/annotation_repository.py:391-392 | A query that matches no id reads nothing. |
| Ordering.FilterTwice | database/annotation_repository.py:397 | Deleting one set of ids and then another leaves the order that deleting both at once leaves. |
| Ordering.DistinctCount | database/annotation_repository.py:413 | A listing without repeated ids has exactly as many entries as ids, so the sweep's count is the number of ids it read. |
| AnnotationStore.Acquirable | database/annotation_repository.py:82-98 | A lock can be taken when none is stored (the insert succeeds), or when the stored one expired strictly before `now`. |
| AnnotationStore.Holds | database/annotation_repository.py:116-119 | The caller holds a lock when one is stored for the task under the caller's id, whatever its expiry. |
| AnnotationStore.LockExcludesUntilExpiry | database/annotation_repository.py:82-98 | A stored lock can be taken over exactly when its expiry lies strictly before `now`. |
| AnnotationStore.ExpiredIds | database/annotation_repository.py:391 | The ids of the locks whose expiry lies strictly before `now`. |
| AnnotationStore.LiveLocks | database/annotation_repository.py:397 | Deleting the expired locks keeps exactly the locks not expired at `now`, unchanged. |
| AnnotationStore.NothingExpired | database/annotation_repository.py:394-395 | When nothing has expired, the lock table and the tasks are left as they are. |
| AnnotationStore.LeasableIds | database/annotation_repository.py:160-166 | The pending tasks the scan can lease at `now`: those whose lock is absent or expired. |
| AnnotationStore.SweptLocksAreLive | database/annotation_repository.py:387-417 | After a sweep nothing is expired, a second sweep changes nothing, and a pending task is leasable exactly when it has no lock. |
| AnnotationStore.Assign | database/annotation_repository.py:169-179 | The lease update: annotating, assigned to the caller at `now`. |
| AnnotationStore.Reset | database/annotation_repository.py:331-341 | The cancel update: pending, unassigned, timestamped `now`. |
| AnnotationStore.AssignChangesPending | database/annotation_repository.py:169-190 | Leasing a pending task always changes its record, so the scan's "no effect, release and continue" branch is never taken here. |
| AnnotationStore.Edit | database/annotation_repository.py:271-279 | The unconditioned update: the given fields and a new timestamp, every other field kept. |
| AnnotationStore.LockedEdit | database/annotation_repository.py:226-241 | The lock-checked update: as the unconditioned one, plus the editor, with the assignment cleared for `annotated`. |
| AnnotationStore.LockedEditCompletes | database/annotation_repository.py:226-241 | A lock-checked update to `annotated` leaves the task annotated and unassigned, with the caller as last editor. |
| AnnotationStore.ResetExpired | database/annotation_repository.py:400-410 | The sweep's bulk update keeps the same set of tasks. |
| AnnotationStore.ResetExpiredTouchesOnlyAnnotating | database/annotation_repository.py:397-410 | A task changes exactly when its lock expired and it was annotating; such a task becomes pending and unassigned, and every other task (an annotated one included) keeps its record. |
| AnnotationStore.Coupled | database/annotation_repository.py:166-179 | Status/lock coupling: every annotating task has a lock held by its assignee, as leasing sets it up. |
| AnnotationStore.SweepKeepsCoupling | database/annotation_repository.py:397-410 | The sweep preserves status/lock coupling. |
| AnnotationStore.Listed | database/annotation_repository.py:83 | The stored order of the lock collection lists every stored lock once and nothing else. |
| AnnotationStore.ExpiredInOrder | database/annotation_repository.py:391-392 | The ids the sweep's unsorted `find` returns: the expired locks, in stored order. |
| AnnotationStore.ExpiredInOrderLists | database/annotation_repository.py:391-397 | From a listed lock collection the sweep reads every expired id exactly once and nothing else. Its count is the number of expired locks, the list is empty exactly when nothing expired, and after the delete the remaining locks stay listed in their old order. |
| AnnotationStore.RemoveListed | database/annotation_repository.py:116-119 | Deleting one lock document keeps the others listed, in their order. |
| AnnotationStore.FilterListed | database/annotation_repository.py:397 | Deleting any set of lock documents keeps the rest listed, in their order. |
| AnnotationStore.AppendListed | database/annotation_repository.py:83 | A lock document inserted for a task without a lock goes last, and the collection stays listed. |
| AnnotationStore.SeedMetadata | database/annotation_repository.py:22-26 | The stored metadata has a method and an image name, and its method name is the one the upsert query uses. |
| AnnotationStore.SeedRecord | database/annotation_repository.py:27-45 | The inserted record answers its own upsert query. |
| AnnotationStore.InsertedStoresKey | database/annotation_repository.py:41-51 | After the insert, a stored record answers the pair's upsert query. |
| AnnotationStore.ExtendsKeepsCoupling | database/annotation_repository.py:27-39 | Adding records that are pending and unassigned keeps the coupling. |
| AnnotationStore.KeyPresentKept | database/annotation_repository.py:47-51 | A key stays stored when records are only added. |
| AnnotationStore.UpsertStep | database/annotation_repository.py:47-56 | One upsert: nothing changes when a record answers the query; otherwise the record goes in under the next id and the verdict is "inserted". |
| AnnotationStore.UpsertStepExtends | database/annotation_repository.py:41-56 | One upsert inserts exactly when the key is absent. It keeps every stored record, adds only a fresh pending record under a fresh id, grows the store by the number inserted, and leaves the key stored. |
| AnnotationStore.SeedAll | database/annotation_repository.py:17-58 | Inserted plus skipped never exceeds the number of pairs. |
| AnnotationStore.SeedAllExtends | database/annotation_repository.py:21-56 | Seeding keeps every stored record as it was, adds only fresh pending unassigned records, and grows the store by exactly the number inserted. |
| AnnotationStore.SeedAllCounts | database/annotation_repository.py:21-58 | Inserted plus skipped equals the number of pairs exactly when the run completes. Otherwise the next pair lacks the tag key, and every pair handled had it. |
| AnnotationStore.SeedAllStoresKeys | database/annotation_repository.py:41-51 | After seeding, the key of every pair handled is stored. |
| AnnotationStore.SeedAllAlreadyStored | database/annotation_repository.py:47-56 | Seeding pairs whose keys are all stored inserts nothing and leaves the store and the id counter alone. |
| AnnotationStore.SeedAllKeepsCoupling | database/annotation_repository.py:17-58 | Seeding preserves the coupling. |
| AnnotationStore.SeedAllRerun | database/annotation_repository.py:17-58 | Re-running a completed seeding with the same pairs inserts 0, skips every pair and changes nothing. |
| AnnotationStore.WithStatusAdd | database/annotation_repository.py:362-378 | Counting one more task adds one to the count of its own status only. |
| AnnotationStore.SweepKeepsKeys | database/annotation_repository.py:400-410 | The sweep's bulk update keeps every record under its own id, below the next id. |
| AnnotationStore.AnnotationRepository.constructor | database/annotation_repository.py:11-15 | A new repository is empty and coupled, with the given lock timeout (default 300). |
| AnnotationStore.AnnotationRepository.AcquireLock | database/annotation_repository.py:60-102 | Succeeds exactly when no lock is stored or the stored one has expired. On success the lock is the caller's, for `now + lockTimeout`, and its document goes last in the stored order: an expired one is deleted first (line 92), then the new one inserted. On failure the table and its order are unchanged. |
| AnnotationStore.AnnotationRepository.ReleaseLock | database/annotation_repository.py:104-130 | Deletes the lock exactly when the caller holds it, and the others keep their stored order. Otherwise it returns false and changes nothing. |
| AnnotationStore.AnnotationRepository.GetById | database/annotation_repository.py:132-146 | Returns the stored record, carrying the requested id, or None when there is none. |
| AnnotationStore.AnnotationRepository.GetNextPending | database/annotation_repository.py:148-197 | Leases the least pending task whose lock can be taken: that task becomes annotating for the caller, the lock becomes the caller's and goes last in the stored order. It returns None and changes nothing when no task is leasable, and it keeps the coupling. |
| AnnotationStore.AnnotationRepository.UpdateWithLock | database/annotation_repository.py:199-262 | Refuses without change unless the caller holds the lock; expiry is not checked. Otherwise it applies the update; success means the record changed. On a successful completion it clears the assignment, records the editor and releases the lock, which leaves the stored order. |
| AnnotationStore.AnnotationRepository.UpdateById | database/annotation_repository.py:264-296 | Applies the given fields and a timestamp to the task if it exists, with no lock check; success means the record changed. |
| AnnotationStore.AnnotationRepository.ReleaseLockAndReset | database/annotation_repository.py:314-355 | Without the lock: false and nothing changes. With it: the lock is deleted (the others keep their order) and then the task is reset to pending and unassigned; success means the reset changed the record. |
| AnnotationStore.AnnotationRepository.ExpiredLockIds | database/annotation_repository.py:391-392 | Reports the ids of the expired locks in the lock collection's stored order, each exactly once, and no other id. |
| AnnotationStore.AnnotationRepository.CleanupExpiredLocks | database/annotation_repository.py:387-417 | Deletes exactly the expired locks, the others keeping their stored order, and resets only those expired tasks still annotating. It returns the count and the expired ids in stored order, each once; (0, []) with no change when none expired. It keeps the coupling. |
| AnnotationStore.AnnotationRepository.UpsertSeed | database/annotation_repository.py:41-56 | One upsert: the store and id counter after it are the pure upsert step, and the verdict is "inserted". |
| AnnotationStore.AnnotationRepository.InitializeAnnotations | database/annotation_repository.py:17-58 | The loop produces exactly the seeding `SeedAll` describes: store, counter, inserted, skipped and completion. It keeps the coupling. |
| AnnotationStore.AnnotationRepository.GetStatistics | database/annotation_repository.py:357-385 | Returns the number of tasks per status, and as total their sum, which is the number of tasks. |
| HistoryStore.Keep | database/user_history_repository.py:153 | The filtered history is never longer than the original. |
| HistoryStore.KeepMembers | database/user_history_repository.py:153 | Filtering removes exactly the entries with an expired id and keeps every other one. |
| HistoryStore.KeepConcat | database/user_history_repository.py:153 | Filtering distributes over concatenation, so the remaining entries keep their order. |
| HistoryStore.KeepNothingToRemove | database/user_history_repository.py:153 | A history holding none of the ids is left unchanged. |
| HistoryStore.KeepTwice | database/user_history_repository.py:141-153 | Filtering by one id after another equals filtering once by both. |
| HistoryStore.PurgeEntry | database/user_history_repository.py:152-163 | One user and one expired id: the entries with the id removed; the cursor moves back (clamped to the new length, or -1 when none remain) only when it sat on such an entry. |
| HistoryStore.PurgeOnEntryCursorInRange | database/user_history_repository.py:156-163 | When the cursor sat on the removed entry, the new cursor lies in [-1, new length) and below the old one. |
| HistoryStore.PurgeBeforeCursorShiftsEntry | database/user_history_repository.py:156-163 | When a removed entry lies before the cursor, the cursor keeps its value while the entry it pointed at moves to a smaller index. |
| HistoryStore.KeepShrinks | database/user_history_repository.py:153 | Removing an id that occurs makes the history strictly shorter. |
| HistoryStore.PurgeExampleCursorPastEnd | database/user_history_repository.py:156-163 | With history [a, b, c], the cursor on c and b expired, the cursor stays 2, one past the end of [a, c]. |
| HistoryStore.PurgeUsers | database/user_history_repository.py:143-175 | One pass of the purge keeps the set of users. |
| HistoryStore.PurgeAll | database/user_history_repository.py:141-175 | The whole purge keeps the set of users. |
| HistoryStore.PurgeAllKeepsTheRest | database/user_history_repository.py:141-175 | After the purge each user's history is exactly its entries with an id that did not expire, in their original order. |
| HistoryStore.PurgeAllLeavesOthers | database/user_history_repository.py:141-153 | A user whose history holds none of the expired ids is untouched, cursor included. |
| HistoryStore.UserHistoryRepository.constructor | database/user_history_repository.py:8-9 | A new store holds no history. |
| HistoryStore.UserHistoryRepository.GetHistory | database/user_history_repository.py:55-75 | Returns the stored entries, or [] for a user without history. |
| HistoryStore.UserHistoryRepository.GetCurrentIndex | database/user_history_repository.py:77-96 | Returns the stored cursor, or -1 for a user without history. |
| HistoryStore.UserHistoryRepository.AddTask | database/user_history_repository.py:11-53 | Appends the task and puts the cursor on it. A first-time user gets [task] with cursor 0. |
| HistoryStore.UserHistoryRepository.UpdateCurrentIndex | database/user_history_repository.py:98-124 | Stores the index as given, with no bounds check. It succeeds exactly for a user with a history and creates nothing otherwise. |
| HistoryStore.UserHistoryRepository.UpdateHistory | database/user_history_repository.py:126-136 | Replaces the entries, creating the document when missing, and leaves the cursor as it was. |
| HistoryStore.UserHistoryRepository.CleanupUserHistoriesForExpiredTasks | database/user_history_repository.py:138-179 | The nested loop leaves exactly the histories of the pure purge. |
| HistoryStore.UserHistoryRepository.PurgeId | database/user_history_repository.py:143-175 | One id's pass rewrites exactly the histories that hold it. |
| UserStore.FirstMatch | database/user_repository.py:18 | Finds the first document matching the key, or None exactly when no document matches. |
| UserStore.FirstMatchAppend | database/user_repository.py:36 | A document appended when nothing matched the key is the one found. |
| UserStore.UserRepository.constructor | database/user_repository.py:7-8 | A new registry is empty. |
| UserStore.UserRepository.RegisterUser | database/user_repository.py:14-49 | Refuses a name already taken, without inserting. Otherwise it inserts an active user with the fresh id and no login, finds it by name and by id afterwards, and keeps names unique. |
| UserStore.UserRepository.LoginUser | database/user_repository.py:51-77 | Returns None for an unknown or inactive user, changing nothing. Otherwise it records the login time on that document and returns its id and name. |
| UserStore.UserRepository.GetUserById | database/user_repository.py:79-96 | Returns None exactly when no document has the id, and otherwise the fields of the first document in collection order that has it, as `find_one` does. |
| DatabaseFacade.SweepStore | database/__init__.py:38-41 | The sweep on the whole store: expired locks deleted with the rest keeping their order, expired annotating tasks reset, and the histories purged of the expired ids in the lock collection's stored order. |
| DatabaseFacade.SweepStoreIdempotent | database/__init__.py:38-41 | A second sweep at the same instant changes nothing, the stored lock order included. |
| DatabaseFacade.Database.constructor | database/__init__.py:9-33 | The three stores start empty; the lock table permits at most one lock per task. |
| DatabaseFacade.Database.SweptOrder | database/annotation_repository.py:397 | The stored lock order the sweep leaves: the live locks, in their old order. |
| DatabaseFacade.Database.Purged | database/__init__.py:39-41 | The histories purged of the expired ids, in the order the sweep reports them. |
| DatabaseFacade.Database.Initialize | database/__init__.py:35-36 | Seeding with the repository's contract. |
| DatabaseFacade.Database.CleanupExpiredLocks | database/__init__.py:38-41 | Sweeps, and purges the histories of exactly the reclaimed ids, one at a time in the lock collection's stored order; the live locks keep their order. Nothing changes when none expired. |
| DatabaseFacade.Database.GetAnnotationById | database/__init__.py:43-45 | Sweeps (the purge in stored lock order) before looking the task up. |
| DatabaseFacade.Database.GetNextPendingAnnotation | database/__init__.py:47-49 | Sweeps, then leases the least pending task that has no lock; its lock goes last in the stored order. With no result, every pending task is locked. |
| DatabaseFacade.Database.ReleaseAnnotationLock | database/__init__.py:51-52 | Cancels a lease with no sweep. |
| DatabaseFacade.Database.UpdateAnnotationById | database/__init__.py:54-55 | The unconditioned update with no sweep. |
| DatabaseFacade.Database.UpdateAnnotationWithLock | database/__init__.py:60-64 | The lock-checked update with no sweep; the status defaults to annotated and the arguments pass through unchanged. |
| DatabaseFacade.Database.GetAnnotationStatistics | database/__init__.py:66-67 | The per-status counts. |
| DatabaseFacade.Database.RegisterUser | database/__init__.py:85-86 | Registration with the registry's contract. |
| DatabaseFacade.Database.LoginUser | database/__init__.py:88-89 | Login with the registry's contract. |
| DatabaseFacade.Database.GetUserById | database/__init__.py:91-92 | Lookup by user id with the registry's contract: None when no document has the id, otherwise the first matching document's fields. |
| DatabaseFacade.Database.AddTaskToUserHistory | database/__init__.py:95-96 | Appends to the history with the cursor on the new entry. |
| DatabaseFacade.Database.GetUserTaskHistory | database/__init__.py:98-99 | The stored entries, or []. |
| DatabaseFacade.Database.GetUserCurrentHistoryIndex | database/__init__.py:101-102 | The stored cursor, or -1. |
| DatabaseFacade.Database.UpdateUserCurrentHistoryIndex | database/__init__.py:104-105 | The raw cursor write. |
| DatabaseFacade.Database.UpdateHistory | database/__init__.py:107-108 | Replaces the entries and keeps the cursor. |
| AnnotationInterface.ViewOf | core/annotation_interface.py:53-55 | The view of a lookup: the stored record, or the "task missing" notice. |
| AnnotationInterface.PyIndex | core/annotation_interface.py:87 | Python indexing: defined exactly for -n <= i < n, and a negative index counts from the end. |
| AnnotationInterface.WithCursor | core/annotation_interface.py:86 | The raw cursor write for a user with a history; other users and stores are left alone. |
| AnnotationInterface.Replays | core/annotation_interface.py:84 | "next" replays exactly when the history is not empty and the cursor is before its last entry. |
| AnnotationInterface.Replayed | core/annotation_interface.py:84-88 | The replay: cursor + 1 is written first; an index Python cannot use fails after the write, and a usable one shows that entry after the sweep. |
| AnnotationInterface.Leased | core/annotation_interface.py:90-95 | The lease after the sweep: the least leasable task, assigned to the user, its lock last in the stored order, appended to the history with the cursor on it; or "no more tasks" with only the sweep done. |
| AnnotationInterface.AnnotationBusinessLogic.constructor | core/annotation_interface.py:8-10 | The controller wraps a well-formed, coupled database. |
| AnnotationInterface.AnnotationBusinessLogic.LoadTaskById | core/annotation_interface.py:49-76 | Refuses without a user and without change. Otherwise it sweeps and shows the record, or says it is missing. |
| AnnotationInterface.AnnotationBusinessLogic.LoadNextTask | core/annotation_interface.py:78-116 | Refuses without a user and without change. While the cursor is before the last entry, it advances the cursor by one and shows that entry, leasing nothing. Otherwise it leases the least leasable task after a sweep, appends it to the history with the cursor on it, or reports "no more tasks" with only the sweep done. |
| AnnotationInterface.AnnotationBusinessLogic.ReplayNext | core/annotation_interface.py:84-88 | The cursor is written first; an index Python cannot use fails after the write, and a valid one shows that entry after a sweep. |
| AnnotationInterface.AnnotationBusinessLogic.LeaseNext | core/annotation_interface.py:90-114 | After the sweep, the least leasable task is leased and appended to the history; with none, the history is unchanged. |
| AnnotationInterface.AnnotationBusinessLogic.LoadPreviousTask | core/annotation_interface.py:118-135 | Refuses without a user. An empty history gives "no history" with the cursor unchanged. Otherwise it stores cursor - 1 with no lower clamp, gives the "first task" notice below 0, and shows the entry after a sweep. |
| AnnotationInterface.AnnotationBusinessLogic.CancelCurrentTask | core/annotation_interface.py:142-164 | Refuses without ids. A failed release leaves everything unchanged. A successful one removes the entry under the cursor if it is the cancelled task and sets the cursor to max(-1, c - 1); otherwise the history is untouched. |
| AnnotationInterface.AnnotationBusinessLogic.DropCancelledEntry | core/annotation_interface.py:150-160 | Removes the entry under the cursor when it is the cancelled task and sets the cursor to max(-1, c - 1); otherwise the history is untouched. |
| AnnotationInterface.AnnotationBusinessLogic.SaveAnnotations | core/annotation_interface.py:166-184 | Refuses without ids. After the sweep: a missing task is reported; a pending task is refused with no write; an annotated task gets the unconditioned update; an annotating task gets the lock-checked completion. |
| AnnotationInterface.AnnotationBusinessLogic.UpdateTaskInDb | core/annotation_interface.py:186-193 | Refuses an empty id, otherwise applies the unconditioned update to annotated and reports whether the record changed. |
| ReviewInterface.BuildQuery | core/review_interface.py:17-26 | The query of the listing: the status filter unless "all", and for non-admins the caller's id, or a query matching nothing without one. |
| ReviewInterface.VisibilityRules | core/review_interface.py:17-26 | "all" imposes no status constraint and any other filter must equal the status. Admins see every task, other roles only the tasks they last updated, and nothing at all without a user id. |
| ReviewInterface.Selects | core/review_interface.py:27-28 | A document answers the query when its status and last editor match the fields the query sets. |
| ReviewInterface.Matching | core/review_interface.py:27-28 | The result of a query is no longer than the collection. |
| ReviewInterface.MatchingMembers | core/review_interface.py:27-28 | The result holds exactly the selected documents. |
| ReviewInterface.MatchingSnoc | core/review_interface.py:27-28 | One more document extends the result by it exactly when it is selected. |
| ReviewInterface.Offset | core/review_interface.py:16 | The skip (page - 1) * page_size. |
| ReviewInterface.OffsetSign | core/review_interface.py:16 | The offset (page - 1) * page_size is negative exactly for pages before the first. |
| ReviewInterface.TotalPages | core/review_interface.py:45 | The page count max(1, ceil(total / page_size)). |
| ReviewInterface.TotalPagesIsCeiling | core/review_interface.py:45 | The page count is at least 1 (exactly 1 with no results), and it is the least count of pages that holds every result. |
| ReviewInterface.EveryResultOnSomePage | core/review_interface.py:16-45 | Every result lies on one page within the page count, at the offsets that page shows. |
| ReviewInterface.PageOf | database/annotation_repository.py:419-420 | Skip-then-limit returns at most `limit` results, the ones from position `skip` on, and no others. |
| ReviewInterface.EditorName | core/review_interface.py:32-36 | "Unknown" without an editor id; any other name is the name of a user with that id. |
| ReviewInterface.EditorNameLookup | core/review_interface.py:32-36 | For a non-empty editor id, the name is that of the first registered user with the id, and "Unknown" exactly when nobody has it. |
| ReviewInterface.RowOf | core/review_interface.py:37-44 | The six columns of a row: id, method, image name ("N/A" when absent), status, editor name, update time. |
| ReviewInterface.InIdOrder | core/review_interface.py:27 | The collection in natural order has one entry per stored task. |
| ReviewInterface.InIdOrderLists | core/review_interface.py:27 | The natural order lists the records by strictly ascending id, each entry being the record stored under its id, and every stored record appears. |
| ReviewInterface.Select | core/review_interface.py:27 | The query loop yields exactly the selected tasks, in order. |
| ReviewInterface.ReviewBusinessLogic.constructor | core/review_interface.py:10-12 | The controller wraps a well-formed, coupled database. |
| ReviewInterface.ReviewBusinessLogic.LoadTaskList | core/review_interface.py:14-46 | Raises for a page before the first. Otherwise it returns one row per task of the requested page of the visible results, the page count of all visible results, and the page asked for. |
| ReviewInterface.ReviewBusinessLogic.Find | core/review_interface.py:27 | The selected tasks in the collection's natural order. |
| ReviewInterface.ReviewBusinessLogic.TableRows | core/review_interface.py:30-44 | One six-column row per shown task, in order, with the editor's name looked up. |
| ReviewInterface.ReviewBusinessLogic.UpdateTaskInDb | core/review_interface.py:72-85 | Rejects an empty id, otherwise applies the unconditioned update to annotated and reports whether the record changed. |
| Scenarios.SeededRepo | database/annotation_repository.py:17-58 | Seeding one pair into a fresh store gives one pending task under id 0 and no locks. |
| Scenarios.LeasedByA | database/annotation_repository.py:148-197 | A lease of that task by "A" at time 0 holds a lock that expires at 300. |
| Scenarios.LeaseStandsAtExpiry | database/annotation_repository.py:391-397 | At the expiry instant itself the sweep changes nothing. |
| Scenarios.ExpiredLeaseIsReclaimed | database/annotation_repository.py:387-417 | One instant later the task goes back to pending, the lock is gone, and only the holder's history loses its entry. |
| Scenarios.ReclaimedHistories | database/user_history_repository.py:141-175 | The holder's history becomes empty with cursor -1; another user's history is untouched. |
| Scenarios.SweepFollowsStoredOrder | database/__init__.py:38-41 | With A's history [t2, t1, t3], the cursor on t1, and the locks of t2 and t1 stored in that order, the reclaim leaves [t3] with the cursor at 1, so "next" leases. Stored the other way round it would leave the cursor at -1, and "next" would replay t3. |
| Scenarios.PurgeTwoThenOne | database/user_history_repository.py:141-163 | Purging t2 and then t1 from [t2, t1, t3] with the cursor at 1 leaves [t3] with the cursor at 1. |
| Scenarios.PurgeOneThenTwo | database/user_history_repository.py:141-163 | Purging t1 and then t2 from the same history leaves [t3] with the cursor at -1. |
| Scenarios.CursorBelowZeroReplaysLastEntry | core/annotation_interface.py:84-88 | Applied to history [a, b] with the cursor at -2, the replay step of "next" moves the cursor to -1 and shows b, the last entry. |

## Left out

- Natural order is modelled as insertion order, for the task collection and for the lock collection. MongoDB does not promise it, but an unsorted `find` on a single collection returns it in practice.
- Concurrency is not modelled: every repository call is one atomic step. Re-acquiring an expired lock deletes it and then inserts it again (database/annotation_repository.py:89-93). That is a non-atomic check-then-act, and another process could win between the two steps. A sequential model cannot show that race.
- `datetime.now()` and `timedelta` are replaced by the integer parameter `now`, with integer addition. A call that reads the clock several times reads one value here.
- MongoDB plumbing is left out:
  - the connection;
  - index creation, beyond the one-lock-per-task map it guarantees;
  - `find_with_pagination`, `find_all` and `count` as wrappers: the listing is modelled over the task map in natural order;
  - `aggregate`, which is replaced by a count per status.
- Exceptions are left out. Malformed ObjectId strings cannot occur, because ids are numbers. Store failures, and the exception-to-False/None conversions, are not modelled either. Logging and printing are left out.
- Statuses outside the three of `model.py` are not modelled. That includes the "reviewed" in `update_with_lock`'s release test (database/annotation_repository.py:253), which no caller passes.
- `modified_count > 0` is modelled as "the new record differs from the old one". Because a pending task always changes when it is leased, the scan's release-and-continue branch can never be taken in this model (`AnnotationStore.AssignChangesPending`).
- The following broken paths are left out:
  - `update_user_edited_text` uses an attribute that does not exist (database/annotation_repository.py:300);
  - `export_annotations_to_json` calls a missing method (database/__init__.py:73);
  - `load_task_for_review` indexes a dict by position (core/review_interface.py:52).
- `import_from_json` is left out because it is file I/O and ISO date parsing.
- These stay out because they are UI, images or services:
  - the image and status-line parts of the controllers (a view is the task record or the notice shown);
  - `login_user`, `register_user`, `get_user_display_info`, `get_tag` and `generate_text_with_llm` of the controllers;
  - the LLM service and the image utilities;
  - the Gradio interfaces.
- User-id generation (`secrets.token_urlsafe`) is random. It becomes the `freshId` parameter of `RegisterUser`.
- `ReviewInterface.ReviewBusinessLogic.LoadTaskList` requires `pageSize >= 1`. The page size comes from the interface's fixed choices, and the source divides by it.
- A page before the first gives a negative skip, which the driver rejects with an exception. The model reports that as `NegativeSkip`.
- Status/lock coupling holds in one direction only. The unconditioned update can mark a leased task annotated and leave its lock in place until it expires. After that, `release_lock_and_reset` by the holder resets that annotated task to pending. The model follows this code.
