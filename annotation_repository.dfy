/** The task store and the lock table (database/annotation_repository.py):
    exclusive, expiring locks per task document, the pending-task scan that
    leases a task, the lock-checked and the unconditioned updates, the expiry
    sweep, corpus seeding and per-status counts. */
module AnnotationStore {
  import opened Records
  import opened Ordering

  // ---------------------------------------------------------------------
  // The lock table as a value

  /** A lock on `docId` can be taken at `now`: none is stored, or the stored
      one expired strictly before `now`. */
  predicate Acquirable(locks: map<TaskId, Lock>, docId: TaskId, now: Time)
  {
    docId !in locks || locks[docId].expiresAt < now
  }

  /** `userId` holds the lock on `docId`. Expiry is not looked at: this is the
      ownership test of `_release_lock` and `update_with_lock`. */
  predicate Holds(locks: map<TaskId, Lock>, docId: TaskId, userId: UserId)
  {
    docId in locks && locks[docId].userId == userId
  }

  /** A lock taken at `at` keeps every other caller out until `at + timeout`,
      and lets one in at any instant after that. */
  lemma {:induction false} LockExcludesUntilExpiry(locks: map<TaskId, Lock>, docId: TaskId, l: Lock, now: Time)
    requires docId in locks && locks[docId] == l
    ensures Acquirable(locks, docId, now) <==> l.expiresAt < now
  {
  }

  function ExpiredIds(locks: map<TaskId, Lock>, now: Time): set<TaskId>
  {
    set k | k in locks && locks[k].expiresAt < now
  }

  /** The lock table after `delete_many({"expires_at": {"$lt": now}})`. */
  function LiveLocks(locks: map<TaskId, Lock>, now: Time): (r: map<TaskId, Lock>)
    ensures r.Keys == locks.Keys - ExpiredIds(locks, now)
    ensures forall k :: k in r ==> r[k] == locks[k] && now <= r[k].expiresAt
  {
    map k | k in locks && !(locks[k].expiresAt < now) :: locks[k]
  }

  /** A sweep that finds nothing expired changes nothing. */
  lemma NothingExpired(tasks: map<TaskId, Task>, locks: map<TaskId, Lock>, now: Time)
    requires ExpiredIds(locks, now) == {}
    ensures LiveLocks(locks, now) == locks
    ensures ResetExpired(tasks, {}, now) == tasks
  {
    forall k | k in locks
      ensures !(locks[k].expiresAt < now)
    {
      assert k !in ExpiredIds(locks, now);
    }
  }

  /** Pending tasks whose lock can be taken at `now`: the candidates of the
      pending scan that it does not skip. */
  function LeasableIds(tasks: map<TaskId, Task>, locks: map<TaskId, Lock>, now: Time): set<TaskId>
  {
    set k | k in tasks && tasks[k].status == Pending && Acquirable(locks, k, now)
  }

  /** After the sweep no stored lock has expired: a second sweep at the same
      instant finds nothing, and a pending task can be leased exactly when it
      has no lock at all. */
  lemma SweptLocksAreLive(tasks: map<TaskId, Task>, locks: map<TaskId, Lock>, now: Time)
    ensures ExpiredIds(LiveLocks(locks, now), now) == {}
    ensures LiveLocks(LiveLocks(locks, now), now) == LiveLocks(locks, now)
    ensures forall k :: k in tasks ==>
      (k in LeasableIds(tasks, LiveLocks(locks, now), now) <==> tasks[k].status == Pending && k !in LiveLocks(locks, now))
  {
  }

  // ---------------------------------------------------------------------
  // Task record updates (the `$set` documents of the source)

  /** The update that leases a task. */
  function Assign(t: Task, userId: UserId, now: Time): Task
  {
    t.(status := Annotating, assignedUser := Some(userId), assignedAt := Some(now), updatedAt := Some(now))
  }

  /** The update that hands a task back to the pending pool. */
  function Reset(t: Task, now: Time): Task
  {
    t.(status := Pending, assignedUser := None, assignedAt := None, updatedAt := Some(now))
  }

  /** Leasing a pending task always changes its record, so in a sequential
      store the update of the scan never reports zero modified documents. */
  lemma AssignChangesPending(t: Task, userId: UserId, now: Time)
    requires t.status == Pending
    ensures Assign(t, userId, now) != t
  {
  }

  /** The update of `update_by_id`: the given fields and a new timestamp. */
  function Edit(t: Task, annotations: Option<Scores>, text: Option<string>, status: Option<Status>, now: Time): Task
  {
    t.(updatedAt := Some(now),
       annotations := if annotations.Some? then annotations.value else t.annotations,
       userEditedText := if text.Some? then text.value else t.userEditedText,
       status := if status.Some? then status.value else t.status)
  }

  /** The update of `update_with_lock`: as `Edit`, plus the editor, and the
      assignment cleared when the new status is `annotated`. */
  function LockedEdit(t: Task, userId: UserId, annotations: Option<Scores>, text: Option<string>,
                      status: Option<Status>, now: Time): Task
  {
    var e := Edit(t, annotations, text, status, now).(lastUpdatedBy := Some(userId));
    if status == Some(Annotated) then e.(assignedUser := None, assignedAt := None) else e
  }

  /** Completing a task through the lock-checked update leaves it annotated,
      unassigned, and records the editor. */
  lemma LockedEditCompletes(t: Task, userId: UserId, annotations: Option<Scores>, text: Option<string>, now: Time)
    ensures var r := LockedEdit(t, userId, annotations, text, Some(Annotated), now);
      r.status == Annotated && r.assignedUser == None && r.assignedAt == None && r.lastUpdatedBy == Some(userId)
      && r.id == t.id
  {
  }

  /** The task table after the sweep's `update_many`: among the reclaimed ids,
      only tasks still annotating are reset. */
  function ResetExpired(tasks: map<TaskId, Task>, ids: set<TaskId>, now: Time): (r: map<TaskId, Task>)
    ensures r.Keys == tasks.Keys
  {
    map k | k in tasks :: if k in ids && tasks[k].status == Annotating then Reset(tasks[k], now) else tasks[k]
  }

  /** What the sweep does to one task: an annotating task whose lock expired
      goes back to pending and unassigned; every other task, among them an
      already annotated one whose lock expired, keeps its record. */
  lemma {:induction false} ResetExpiredTouchesOnlyAnnotating(tasks: map<TaskId, Task>, locks: map<TaskId, Lock>, now: Time, k: TaskId)
    requires k in tasks
    ensures var r := ResetExpired(tasks, ExpiredIds(locks, now), now);
      k in r &&
      (r[k] != tasks[k] <==> k in locks && locks[k].expiresAt < now && tasks[k].status == Annotating) &&
      (r[k] != tasks[k] ==> r[k].status == Pending && r[k].assignedUser == None && r[k].assignedAt == None)
  {
    var r := ResetExpired(tasks, ExpiredIds(locks, now), now);
    if k in ExpiredIds(locks, now) && tasks[k].status == Annotating {
      assert r[k] == Reset(tasks[k], now);
      assert r[k].status != tasks[k].status;
    }
  }

  /** Status/lock coupling: every annotating task holds a lock, held by the
      user it is assigned to. (The converse does not hold in this code: the
      unconditioned update can mark a leased task annotated and leave its
      lock in place until it expires.) */
  ghost predicate Coupled(tasks: map<TaskId, Task>, locks: map<TaskId, Lock>)
  {
    forall k :: k in tasks && tasks[k].status == Annotating ==>
      k in locks && tasks[k].assignedUser == Some(locks[k].userId)
  }

  /** The sweep keeps the coupling: an annotating task whose lock it deletes
      is the one it resets. */
  lemma {:induction false} SweepKeepsCoupling(tasks: map<TaskId, Task>, locks: map<TaskId, Lock>, now: Time)
    requires Coupled(tasks, locks)
    ensures Coupled(ResetExpired(tasks, ExpiredIds(locks, now), now), LiveLocks(locks, now))
  {
    var ids := ExpiredIds(locks, now);
    var r := ResetExpired(tasks, ids, now);
    var l := LiveLocks(locks, now);
    forall k | k in r && r[k].status == Annotating
      ensures k in l && r[k].assignedUser == Some(l[k].userId)
    {
      assert k in tasks;
      assert r[k] == tasks[k];
    }
  }

  /** `order` is the stored order of the lock collection: the id of every
      lock once, and nothing else. Inserting a lock document puts it last,
      deleting one takes it out. */
  ghost predicate Listed(order: seq<TaskId>, locks: map<TaskId, Lock>)
  {
    Distinct(order) && forall k :: k in order <==> k in locks
  }

  /** The ids the sweep's unsorted `find` reads: the expired locks, in the
      order the lock collection stores them. */
  function ExpiredInOrder(order: seq<TaskId>, locks: map<TaskId, Lock>, now: Time): seq<TaskId>
  {
    Filter(order, ExpiredIds(locks, now))
  }

  /** Read from a listed lock collection, the sweep's ids are the expired
      locks, each once; and the locks the sweep keeps stay listed, in their
      old order. */
  lemma ExpiredInOrderLists(order: seq<TaskId>, locks: map<TaskId, Lock>, now: Time)
    requires Listed(order, locks)
    ensures var r := ExpiredInOrder(order, locks, now);
      Distinct(r) && (forall k :: k in r <==> k in ExpiredIds(locks, now)) &&
      |r| == |ExpiredIds(locks, now)| && (r == [] <==> ExpiredIds(locks, now) == {})
    ensures Listed(Filter(order, LiveLocks(locks, now).Keys), LiveLocks(locks, now))
  {
    var r := ExpiredInOrder(order, locks, now);
    FilterDistinct(order, ExpiredIds(locks, now));
    assert Elements(r) == ExpiredIds(locks, now);
    DistinctCount(r);
    FilterListed(order, locks, LiveLocks(locks, now));
  }

  /** Deleting one lock document keeps the others listed, in their order. */
  lemma RemoveListed(order: seq<TaskId>, locks: map<TaskId, Lock>, docId: TaskId)
    requires Listed(order, locks)
    ensures Listed(Filter(order, locks.Keys - {docId}), locks - {docId})
  {
    FilterDistinct(order, locks.Keys - {docId});
  }

  /** Deleting lock documents keeps the others listed, in their order. */
  lemma FilterListed(order: seq<TaskId>, locks: map<TaskId, Lock>, kept: map<TaskId, Lock>)
    requires Listed(order, locks) && kept.Keys <= locks.Keys
    ensures Listed(Filter(order, kept.Keys), kept)
  {
    FilterDistinct(order, kept.Keys);
  }

  /** A lock document inserted into a listed collection goes last. */
  lemma AppendListed(order: seq<TaskId>, locks: map<TaskId, Lock>, docId: TaskId, l: Lock)
    requires Listed(order, locks) && docId !in locks
    ensures Listed(order + [docId], locks[docId := l])
  {
    assert docId !in order;
  }

  // ---------------------------------------------------------------------
  // Seeding

  /** One entry of the corpus handed to `initialize_annotations`. */
  datatype Pair = Pair(lqImagePath: string, hqImagePath: string, methodName: string,
                       imageName: string, metaData: map<string, string>)

  /** The stored metadata: method and image name, overridden by the pair's own
      metadata where the two share a key. */
  function SeedMetadata(p: Pair): (m: map<string, string>)
    ensures "method_name" in m && "image_name" in m
    ensures m["method_name"] == KeyMethod(p)
  {
    map["method_name" := p.methodName, "image_name" := p.imageName] + p.metaData
  }

  /** The method name the upsert query uses: the pair's own metadata wins. */
  function KeyMethod(p: Pair): string
  {
    if "method_name" in p.metaData then p.metaData["method_name"] else p.methodName
  }

  /** `t` answers the upsert query of pair `p`: same image paths, same method name. */
  predicate SameKey(t: Task, p: Pair)
  {
    t.lqImagePath == p.lqImagePath && t.hqImagePath == p.hqImagePath &&
    "method_name" in t.metadata && t.metadata["method_name"] == KeyMethod(p)
  }

  predicate KeyPresent(tasks: map<TaskId, Task>, p: Pair)
  {
    exists k :: k in tasks && SameKey(tasks[k], p)
  }

  /** The record that seeding inserts for a pair. */
  function SeedRecord(id: TaskId, p: Pair, tag: string): (t: Task)
    ensures SameKey(t, p)
  {
    Task(id, p.lqImagePath, p.hqImagePath, tag, SeedMetadata(p), map[], "", Pending, None, None, None, None)
  }

  /** A record as seeding creates it: pending, unassigned, never edited. */
  predicate Untouched(t: Task)
  {
    t.status == Pending && t.assignedUser == None && t.assignedAt == None &&
    t.updatedAt == None && t.lastUpdatedBy == None && t.annotations == map[] && t.userEditedText == ""
  }

  /** `after` keeps every record of `before` as it was, and every record it
      adds is fresh from seeding. */
  predicate Extends(before: map<TaskId, Task>, after: map<TaskId, Task>)
  {
    (forall k :: k in before ==> k in after && after[k] == before[k]) &&
    (forall k :: k in after && k !in before ==> Untouched(after[k]))
  }

  lemma ExtendsTransitive(a: map<TaskId, Task>, b: map<TaskId, Task>, c: map<TaskId, Task>)
    requires Extends(a, b) && Extends(b, c)
    ensures Extends(a, c)
  {
  }

  /** Records fresh from seeding are pending, so adding them keeps the coupling. */
  lemma ExtendsKeepsCoupling(before: map<TaskId, Task>, after: map<TaskId, Task>, locks: map<TaskId, Lock>)
    requires Extends(before, after) && Coupled(before, locks)
    ensures Coupled(after, locks)
  {
  }

  /** A stored key stays stored when records are only added. */
  lemma KeyPresentKept(before: map<TaskId, Task>, after: map<TaskId, Task>, p: Pair)
    requires Extends(before, after)
    requires KeyPresent(before, p)
    ensures KeyPresent(after, p)
  {
    var w :| w in before && SameKey(before[w], p);
    assert after[w] == before[w];
  }

  /** Every record is stored under its own id, and every id lies below the
      next id to be handed out. */
  ghost predicate WellKeyed(tasks: map<TaskId, Task>, nextId: nat)
  {
    forall k :: k in tasks ==> tasks[k].id == k && k < nextId
  }

  /** The store after inserting the record of `p` under `nextId`. */
  function Inserted(tasks: map<TaskId, Task>, nextId: nat, p: Pair, tag: string): map<TaskId, Task>
  {
    tasks[nextId := SeedRecord(nextId, p, tag)]
  }

  lemma InsertedKeeps(tasks: map<TaskId, Task>, nextId: nat, p: Pair, tag: string)
    requires WellKeyed(tasks, nextId)
    ensures WellKeyed(Inserted(tasks, nextId, p, tag), nextId + 1) && Extends(tasks, Inserted(tasks, nextId, p, tag))
  {
    var next := Inserted(tasks, nextId, p, tag);
    var record := SeedRecord(nextId, p, tag);
    assert next == tasks[nextId := record];
    assert Untouched(record) && record.id == nextId;
  }

  lemma InsertedSize(tasks: map<TaskId, Task>, nextId: nat, p: Pair, tag: string)
    requires nextId !in tasks
    ensures |Inserted(tasks, nextId, p, tag)| == |tasks| + 1
  {
    var next := Inserted(tasks, nextId, p, tag);
    assert next.Keys == tasks.Keys + {nextId};
  }

  lemma InsertedStoresKey(tasks: map<TaskId, Task>, nextId: nat, p: Pair, tag: string)
    ensures KeyPresent(Inserted(tasks, nextId, p, tag), p)
  {
    var next := Inserted(tasks, nextId, p, tag);
    assert next[nextId] == SeedRecord(nextId, p, tag);
    assert SameKey(next[nextId], p);
  }

  /** The store, the id counter and the upsert's verdict after one upsert. */
  datatype Upsert = Upsert(tasks: map<TaskId, Task>, nextId: nat, inserted: bool)

  /** One `update_one(query, {"$setOnInsert": doc}, upsert=True)`: when a
      record answers the query nothing changes; otherwise the record is
      inserted under the next id. */
  function UpsertStep(tasks: map<TaskId, Task>, nextId: nat, p: Pair, tag: string): Upsert
  {
    if KeyPresent(tasks, p) then Upsert(tasks, nextId, false)
    else Upsert(Inserted(tasks, nextId, p, tag), nextId + 1, true)
  }

  /** An upsert inserts exactly when the key is not stored, keeps every stored
      record, adds only a fresh one under a fresh id, and leaves the key stored. */
  lemma UpsertStepExtends(tasks: map<TaskId, Task>, nextId: nat, p: Pair, tag: string)
    requires WellKeyed(tasks, nextId)
    ensures var u := UpsertStep(tasks, nextId, p, tag);
      (u.inserted <==> !KeyPresent(tasks, p)) &&
      WellKeyed(u.tasks, u.nextId) && Extends(tasks, u.tasks) && KeyPresent(u.tasks, p) &&
      |u.tasks| == |tasks| + (if u.inserted then 1 else 0)
  {
    if !KeyPresent(tasks, p) {
      assert nextId !in tasks;
      InsertedKeeps(tasks, nextId, p, tag);
      InsertedSize(tasks, nextId, p, tag);
      InsertedStoresKey(tasks, nextId, p, tag);
    }
  }

  /** What seeding a list of pairs produces: the new store and id counter,
      how many pairs were inserted and skipped, and whether the list was
      finished (a pair lacking the tag key ends it early). */
  datatype Seeding = Seeding(tasks: map<TaskId, Task>, nextId: nat, inserted: nat, skipped: nat, complete: bool)

  /** The loop of `initialize_annotations`: one upsert per pair, in order,
      until a pair lacks the tag key. */
  function SeedAll(tasks: map<TaskId, Task>, nextId: nat, pairs: seq<Pair>, tagName: string): (r: Seeding)
    ensures r.inserted + r.skipped <= |pairs|
    decreases |pairs|
  {
    if pairs == [] then Seeding(tasks, nextId, 0, 0, true)
    else if tagName !in pairs[0].metaData then Seeding(tasks, nextId, 0, 0, false)
    else
      var u := UpsertStep(tasks, nextId, pairs[0], pairs[0].metaData[tagName]);
      var r := SeedAll(u.tasks, u.nextId, pairs[1..], tagName);
      if u.inserted then r.(inserted := r.inserted + 1) else r.(skipped := r.skipped + 1)
  }

  /** One step of `SeedAll`, unfolded: the pair at the head is either the
      one whose tag is missing, or it is upserted and the rest follows. */
  lemma SeedAllUnfold(tasks: map<TaskId, Task>, nextId: nat, ps: seq<Pair>, tagName: string)
    requires ps != []
    ensures tagName !in ps[0].metaData ==> SeedAll(tasks, nextId, ps, tagName) == Seeding(tasks, nextId, 0, 0, false)
    ensures tagName in ps[0].metaData ==>
      var u := UpsertStep(tasks, nextId, ps[0], ps[0].metaData[tagName]);
      var r := SeedAll(u.tasks, u.nextId, ps[1..], tagName);
      SeedAll(tasks, nextId, ps, tagName) == if u.inserted then r.(inserted := r.inserted + 1) else r.(skipped := r.skipped + 1)
  {
  }

  /** Seeding only adds fresh records under fresh ids, one per inserted pair,
      and keeps every stored record as it was. */
  lemma {:induction false} SeedAllExtends(tasks: map<TaskId, Task>, nextId: nat, pairs: seq<Pair>, tagName: string)
    requires WellKeyed(tasks, nextId)
    ensures var r := SeedAll(tasks, nextId, pairs, tagName);
      WellKeyed(r.tasks, r.nextId) && Extends(tasks, r.tasks) && |r.tasks| == |tasks| + r.inserted
    decreases |pairs|
  {
    if pairs != [] && tagName in pairs[0].metaData {
      var u := UpsertStep(tasks, nextId, pairs[0], pairs[0].metaData[tagName]);
      var rest := SeedAll(u.tasks, u.nextId, pairs[1..], tagName);
      UpsertStepExtends(tasks, nextId, pairs[0], pairs[0].metaData[tagName]);
      SeedAllExtends(u.tasks, u.nextId, pairs[1..], tagName);
      ExtendsTransitive(tasks, u.tasks, rest.tasks);
    }
  }

  /** Every pair is either inserted or skipped until one lacking the tag key
      stops the run; the run is complete exactly when no pair is left over. */
  lemma {:induction false} SeedAllCounts(tasks: map<TaskId, Task>, nextId: nat, pairs: seq<Pair>, tagName: string)
    ensures var r := SeedAll(tasks, nextId, pairs, tagName);
      (r.complete <==> r.inserted + r.skipped == |pairs|) &&
      (!r.complete ==> tagName !in pairs[r.inserted + r.skipped].metaData) &&
      forall i :: 0 <= i < r.inserted + r.skipped ==> tagName in pairs[i].metaData
    decreases |pairs|
  {
    if pairs != [] && tagName in pairs[0].metaData {
      var u := UpsertStep(tasks, nextId, pairs[0], pairs[0].metaData[tagName]);
      var rest := SeedAll(u.tasks, u.nextId, pairs[1..], tagName);
      SeedAllUnfold(tasks, nextId, pairs, tagName);
      SeedAllCounts(u.tasks, u.nextId, pairs[1..], tagName);
      var r := SeedAll(tasks, nextId, pairs, tagName);
      assert r.inserted + r.skipped == rest.inserted + rest.skipped + 1 && r.complete == rest.complete;
      assert forall i :: 0 < i < |pairs| ==> pairs[1..][i - 1] == pairs[i];
    }
  }

  /** After seeding, the key of every pair handled is stored. */
  lemma {:induction false} SeedAllStoresKeys(tasks: map<TaskId, Task>, nextId: nat, pairs: seq<Pair>, tagName: string)
    requires WellKeyed(tasks, nextId)
    ensures var r := SeedAll(tasks, nextId, pairs, tagName);
      forall i :: 0 <= i < r.inserted + r.skipped ==> KeyPresent(r.tasks, pairs[i])
    decreases |pairs|
  {
    if pairs != [] && tagName in pairs[0].metaData {
      var u := UpsertStep(tasks, nextId, pairs[0], pairs[0].metaData[tagName]);
      var rest := SeedAll(u.tasks, u.nextId, pairs[1..], tagName);
      SeedAllStoresHead(tasks, nextId, pairs, tagName);
      UpsertStepExtends(tasks, nextId, pairs[0], pairs[0].metaData[tagName]);
      SeedAllStoresKeys(u.tasks, u.nextId, pairs[1..], tagName);
      var r := SeedAll(tasks, nextId, pairs, tagName);
      forall i | 0 < i < r.inserted + r.skipped
        ensures KeyPresent(r.tasks, pairs[i])
      {
        assert pairs[i] == pairs[1..][i - 1];
      }
    }
  }

  /** The first pair of a seeding that goes past it has its key stored at
      the end, and the rest of the run is the seeding of the other pairs. */
  lemma SeedAllStoresHead(tasks: map<TaskId, Task>, nextId: nat, pairs: seq<Pair>, tagName: string)
    requires WellKeyed(tasks, nextId)
    requires pairs != [] && tagName in pairs[0].metaData
    ensures var u := UpsertStep(tasks, nextId, pairs[0], pairs[0].metaData[tagName]);
      var rest := SeedAll(u.tasks, u.nextId, pairs[1..], tagName);
      var r := SeedAll(tasks, nextId, pairs, tagName);
      KeyPresent(r.tasks, pairs[0]) && r.tasks == rest.tasks && r.inserted + r.skipped == rest.inserted + rest.skipped + 1
  {
    var u := UpsertStep(tasks, nextId, pairs[0], pairs[0].metaData[tagName]);
    var rest := SeedAll(u.tasks, u.nextId, pairs[1..], tagName);
    SeedAllUnfold(tasks, nextId, pairs, tagName);
    UpsertStepExtends(tasks, nextId, pairs[0], pairs[0].metaData[tagName]);
    SeedAllExtends(u.tasks, u.nextId, pairs[1..], tagName);
    KeyPresentKept(u.tasks, rest.tasks, pairs[0]);
  }

  /** Seeding pairs whose keys are all stored inserts nothing and changes nothing. */
  lemma {:induction false} SeedAllAlreadyStored(tasks: map<TaskId, Task>, nextId: nat, pairs: seq<Pair>, tagName: string)
    requires forall i :: 0 <= i < |pairs| ==> KeyPresent(tasks, pairs[i])
    ensures var r := SeedAll(tasks, nextId, pairs, tagName);
      r.inserted == 0 && r.tasks == tasks && r.nextId == nextId
    decreases |pairs|
  {
    if pairs != [] && tagName in pairs[0].metaData {
      assert forall i :: 0 <= i < |pairs| - 1 ==> pairs[1..][i] == pairs[i + 1];
      SeedAllAlreadyStored(tasks, nextId, pairs[1..], tagName);
    }
  }

  /** Seeding adds only pending records, so it keeps the lease coupling. */
  lemma SeedAllKeepsCoupling(tasks: map<TaskId, Task>, nextId: nat, pairs: seq<Pair>, tagName: string,
                             locks: map<TaskId, Lock>)
    requires WellKeyed(tasks, nextId) && Coupled(tasks, locks)
    ensures Coupled(SeedAll(tasks, nextId, pairs, tagName).tasks, locks)
  {
    SeedAllExtends(tasks, nextId, pairs, tagName);
    ExtendsKeepsCoupling(tasks, SeedAll(tasks, nextId, pairs, tagName).tasks, locks);
  }

  /** Seeding is idempotent: re-running a completed seeding of the same pairs
      skips every pair and leaves the store as it is. */
  lemma SeedAllRerun(tasks: map<TaskId, Task>, nextId: nat, pairs: seq<Pair>, tagName: string)
    requires WellKeyed(tasks, nextId)
    requires SeedAll(tasks, nextId, pairs, tagName).complete
    ensures var r := SeedAll(tasks, nextId, pairs, tagName);
      SeedAll(r.tasks, r.nextId, pairs, tagName) == Seeding(r.tasks, r.nextId, 0, |pairs|, true)
  {
    var r := SeedAll(tasks, nextId, pairs, tagName);
    SeedAllCounts(tasks, nextId, pairs, tagName);
    SeedAllStoresKeys(tasks, nextId, pairs, tagName);
    SeedAllAlreadyStored(r.tasks, r.nextId, pairs, tagName);
    SeedAllCounts(r.tasks, r.nextId, pairs, tagName);
  }

  // ---------------------------------------------------------------------
  // Statistics

  datatype Statistics = Statistics(pending: nat, annotating: nat, annotated: nat, total: nat)

  function WithStatus(tasks: map<TaskId, Task>, ks: set<TaskId>, s: Status): set<TaskId>
  {
    set k | k in ks && k in tasks && tasks[k].status == s
  }

  /** Counting one more task adds one to the count of its own status only. */
  lemma WithStatusAdd(tasks: map<TaskId, Task>, done: set<TaskId>, k: TaskId, s: Status)
    requires k in tasks && k !in done
    ensures |WithStatus(tasks, done + {k}, s)| == |WithStatus(tasks, done, s)| + if tasks[k].status == s then 1 else 0
  {
    if tasks[k].status == s {
      assert WithStatus(tasks, done + {k}, s) == WithStatus(tasks, done, s) + {k};
    } else {
      assert WithStatus(tasks, done + {k}, s) == WithStatus(tasks, done, s);
    }
  }

  /** The sweep keeps every record under its own id. */
  lemma SweepKeepsKeys(tasks: map<TaskId, Task>, nextId: nat, ids: set<TaskId>, now: Time)
    requires WellKeyed(tasks, nextId)
    ensures WellKeyed(ResetExpired(tasks, ids, now), nextId)
  {
  }

  // ---------------------------------------------------------------------
  // The repository

  class AnnotationRepository {
    /** The task collection, keyed by document id. */
    var tasks: map<TaskId, Task>
    /** The lock collection, keyed by `doc_id`: a map holds at most one lock
        per task, which is what the unique index on `doc_id` guarantees. */
    var locks: map<TaskId, Lock>
    /** The order in which the lock collection stores its documents. */
    var lockOrder: seq<TaskId>
    /** The next id the store hands out; ids only grow. */
    var nextId: TaskId
    /** Seconds a lock lives. */
    const lockTimeout: nat

    ghost predicate Valid()
      reads this
    {
      WellKeyed(tasks, nextId) && Listed(lockOrder, locks)
    }

    ghost predicate LeaseCoupled()
      reads this
    {
      Coupled(tasks, locks)
    }

    constructor (lockTimeout: nat := 300)
      ensures Valid() && LeaseCoupled()
      ensures tasks == map[] && locks == map[] && lockOrder == [] && nextId == 0 && this.lockTimeout == lockTimeout
    {
      tasks := map[];
      locks := map[];
      lockOrder := [];
      nextId := 0;
      this.lockTimeout := lockTimeout;
    }

    /** `_acquire_lock`: insert a lock; when one is already stored, replace
        it (delete, then insert) only if it has expired. The new lock document
        is stored after all the others. */
    method AcquireLock(docId: TaskId, userId: UserId, now: Time) returns (acquired: bool)
      requires Valid()
      modifies this`locks, this`lockOrder
      ensures Valid()
      ensures acquired <==> Acquirable(old(locks), docId, now)
      ensures acquired ==>
        locks == old(locks)[docId := Lock(userId, now, now + lockTimeout)] &&
        lockOrder == Filter(old(lockOrder), old(locks).Keys - {docId}) + [docId]
      ensures !acquired ==> locks == old(locks) && lockOrder == old(lockOrder)
    {
      var lockDoc := Lock(userId, now, now + lockTimeout);
      if docId !in locks {
        FilterKeepsAll(lockOrder, locks.Keys - {docId});
        AppendListed(lockOrder, locks, docId, lockDoc);
        locks := locks[docId := lockDoc];
        lockOrder := lockOrder + [docId];
        return true;
      }
      // the insert hit the unique index: look at the lock that is there
      if locks[docId].expiresAt < now {
        // delete the expired lock document, then insert the new one after the others
        var kept := Filter(lockOrder, locks.Keys - {docId});
        RemoveListed(lockOrder, locks, docId);
        AppendListed(kept, locks - {docId}, docId, lockDoc);
        locks, lockOrder := (locks - {docId})[docId := lockDoc], kept + [docId];
        return true;
      }
      return false;
    }

    /** `_release_lock`: delete the lock only when `userId` holds it; the
        other lock documents keep their order. */
    method ReleaseLock(docId: TaskId, userId: UserId) returns (released: bool)
      requires Valid()
      modifies this`locks, this`lockOrder
      ensures Valid()
      ensures released <==> Holds(old(locks), docId, userId)
      ensures locks == if released then old(locks) - {docId} else old(locks)
      ensures lockOrder == if released then Filter(old(lockOrder), locks.Keys) else old(lockOrder)
    {
      released := docId in locks && locks[docId].userId == userId;
      if released {
        FilterListed(lockOrder, locks, locks - {docId});
        locks := locks - {docId};
        lockOrder := Filter(lockOrder, locks.Keys);
      } else {
        FilterKeepsAll(lockOrder, locks.Keys);
      }
    }

    /** `get_by_id`: the stored record, which carries the id asked for. */
    function GetById(docId: TaskId): (r: Option<Task>)
      requires Valid()
      reads this
      ensures r.Some? <==> docId in tasks
      ensures r.Some? ==> r.value == tasks[docId] && r.value.id == docId
    {
      if docId in tasks then Some(tasks[docId]) else None
    }

    /** Pending tasks whose lock can be taken at `now`. */
    function Leasable(now: Time): set<TaskId>
      reads this
    {
      LeasableIds(tasks, locks, now)
    }

    /** `get_next_pending`: walk the pending tasks in ascending id order, take
        the first whose lock can be acquired and mark it annotating for the
        caller. The task leased is the least leasable one; when there is none,
        nothing changes. */
    method GetNextPending(userId: UserId, now: Time) returns (r: Option<Task>)
      requires Valid()
      modifies this`tasks, this`locks, this`lockOrder
      ensures Valid()
      ensures r.None? ==>
        old(Leasable(now)) == {} && tasks == old(tasks) && locks == old(locks) && lockOrder == old(lockOrder)
      ensures r.Some? ==>
        IsLeast(r.value.id, old(Leasable(now))) &&
        r.value == Assign(old(tasks)[r.value.id], userId, now) &&
        tasks == old(tasks)[r.value.id := r.value] &&
        locks == old(locks)[r.value.id := Lock(userId, now, now + lockTimeout)] &&
        lockOrder == Filter(old(lockOrder), old(locks).Keys - {r.value.id}) + [r.value.id]
      ensures old(LeaseCoupled()) ==> LeaseCoupled()
    {
      var candidates := set k | k in tasks && tasks[k].status == Pending;
      ghost var pending := candidates;
      while candidates != {}
        invariant candidates <= pending
        invariant tasks == old(tasks) && locks == old(locks) && lockOrder == old(lockOrder)
        invariant pending == set k | k in tasks && tasks[k].status == Pending
        invariant forall k :: k in pending && k !in candidates ==>
          !Acquirable(locks, k, now) && forall c :: c in candidates ==> k < c
        decreases candidates
      {
        LeastExists(candidates);
        var docId :| IsLeast(docId, candidates);
        candidates := candidates - {docId};
        var acquired := AcquireLock(docId, userId, now);
        if acquired {
          var doc := tasks[docId];
          var updated := Assign(doc, userId, now);
          var modified := updated != doc;
          tasks := tasks[docId := updated];
          if !modified {
            // The source gives the lock back here and tries the next task.
            // The record was pending, so the update always changes it
            // (AssignChangesPending) and this branch cannot be taken.
            assert false;
          }
          return Some(updated);
        }
      }
      return None;
    }

    /** `update_with_lock`: refuse unless the caller holds the lock (expired or
        not); otherwise apply the update and, when the task was completed,
        release the caller's lock. */
    method UpdateWithLock(docId: TaskId, userId: UserId, annotations: Option<Scores>, userEditedText: Option<string>,
                          status: Option<Status>, now: Time) returns (success: bool)
      requires Valid()
      modifies this`tasks, this`locks, this`lockOrder
      ensures Valid()
      ensures !Holds(old(locks), docId, userId) ==>
        !success && tasks == old(tasks) && locks == old(locks) && lockOrder == old(lockOrder)
      ensures docId !in old(tasks) ==>
        !success && tasks == old(tasks) && locks == old(locks) && lockOrder == old(lockOrder)
      ensures lockOrder ==
        if success && status == Some(Annotated) then Filter(old(lockOrder), locks.Keys) else old(lockOrder)
      ensures Holds(old(locks), docId, userId) && docId in old(tasks) ==>
        var edited := LockedEdit(old(tasks)[docId], userId, annotations, userEditedText, status, now);
        tasks == old(tasks)[docId := edited] &&
        (success <==> edited != old(tasks)[docId]) &&
        locks == (if success && status == Some(Annotated) then old(locks) - {docId} else old(locks))
      ensures success && status == Some(Annotated) ==>
        docId in tasks && tasks[docId].status == Annotated && tasks[docId].assignedUser == None &&
        tasks[docId].assignedAt == None && tasks[docId].lastUpdatedBy == Some(userId) && docId !in locks
      ensures old(LeaseCoupled()) && status != Some(Annotating) ==> LeaseCoupled()
    {
      if !(docId in locks && locks[docId].userId == userId) {
        return false;
      }
      if docId !in tasks {
        return false;
      }
      var doc := tasks[docId];
      var edited := LockedEdit(doc, userId, annotations, userEditedText, status, now);
      success := edited != doc;
      tasks := tasks[docId := edited];
      if success && status == Some(Annotated) {
        var _ := ReleaseLock(docId, userId);
      }
    }

    /** `update_by_id`: the unconditioned update; locks are not looked at. */
    method UpdateById(docId: TaskId, annotations: Option<Scores>, userEditedText: Option<string>,
                      status: Option<Status>, now: Time) returns (success: bool)
      requires Valid()
      modifies this`tasks
      ensures Valid()
      ensures success <==> docId in old(tasks) && Edit(old(tasks)[docId], annotations, userEditedText, status, now) != old(tasks)[docId]
      ensures tasks == if docId in old(tasks)
                       then old(tasks)[docId := Edit(old(tasks)[docId], annotations, userEditedText, status, now)]
                       else old(tasks)
      ensures old(LeaseCoupled()) && status != Some(Annotating) ==> LeaseCoupled()
    {
      if docId !in tasks {
        return false;
      }
      var doc := tasks[docId];
      var edited := Edit(doc, annotations, userEditedText, status, now);
      success := edited != doc;
      tasks := tasks[docId := edited];
    }

    /** `release_lock_and_reset`: the ownership-checked release, and only once
        it succeeded, the task goes back to pending and unassigned. */
    method ReleaseLockAndReset(docId: TaskId, userId: UserId, now: Time) returns (success: bool)
      requires Valid()
      modifies this`tasks, this`locks, this`lockOrder
      ensures Valid()
      ensures !Holds(old(locks), docId, userId) ==>
        !success && tasks == old(tasks) && locks == old(locks) && lockOrder == old(lockOrder)
      ensures Holds(old(locks), docId, userId) ==>
        locks == old(locks) - {docId} && lockOrder == Filter(old(lockOrder), locks.Keys) &&
        tasks == (if docId in old(tasks) then old(tasks)[docId := Reset(old(tasks)[docId], now)] else old(tasks)) &&
        (success <==> docId in old(tasks) && Reset(old(tasks)[docId], now) != old(tasks)[docId])
      ensures success ==>
        docId in tasks && tasks[docId].status == Pending && tasks[docId].assignedUser == None && tasks[docId].assignedAt == None
      ensures old(LeaseCoupled()) ==> LeaseCoupled()
    {
      var released := ReleaseLock(docId, userId);
      if !released {
        return false;
      }
      if docId !in tasks {
        return false;
      }
      var doc := tasks[docId];
      var reset := Reset(doc, now);
      success := reset != doc;
      tasks := tasks[docId := reset];
    }

    /** The `find` of the sweep, read in the lock collection's stored order:
        the ids of the locks that expired before `now`, each once. */
    method ExpiredLockIds(now: Time) returns (ids: seq<TaskId>)
      requires Valid()
      ensures ids == ExpiredInOrder(lockOrder, locks, now)
      ensures Distinct(ids) && forall k :: k in ids <==> k in locks && locks[k].expiresAt < now
    {
      ids := Filter(lockOrder, set k | k in locks && locks[k].expiresAt < now);
      ExpiredInOrderLists(lockOrder, locks, now);
    }

    /** `cleanup_expired_locks`: delete exactly the expired locks, reset the
        expired tasks that are still annotating, and report the expired ids;
        (0, []) and no change when nothing expired. */
    method CleanupExpiredLocks(now: Time) returns (count: nat, expiredIds: seq<TaskId>)
      requires Valid()
      modifies this`tasks, this`locks, this`lockOrder
      ensures Valid()
      ensures expiredIds == ExpiredInOrder(old(lockOrder), old(locks), now)
      ensures Distinct(expiredIds) && forall k :: k in expiredIds <==> k in ExpiredIds(old(locks), now)
      ensures count == |expiredIds| == |ExpiredIds(old(locks), now)|
      ensures count == 0 <==> ExpiredIds(old(locks), now) == {}
      ensures locks == LiveLocks(old(locks), now)
      ensures lockOrder == Filter(old(lockOrder), locks.Keys)
      ensures count == 0 ==> tasks == old(tasks) && locks == old(locks) && lockOrder == old(lockOrder)
      ensures tasks == ResetExpired(old(tasks), ExpiredIds(old(locks), now), now)
      ensures old(LeaseCoupled()) ==> LeaseCoupled()
    {
      var expired := set k | k in locks && locks[k].expiresAt < now;
      assert expired == ExpiredIds(locks, now);
      expiredIds := ExpiredLockIds(now);
      ExpiredInOrderLists(lockOrder, locks, now);
      if expiredIds == [] {
        NothingExpired(tasks, locks, now);
        FilterKeepsAll(lockOrder, locks.Keys);
        return 0, expiredIds;
      }
      if LeaseCoupled() {
        SweepKeepsCoupling(tasks, locks, now);
      }
      SweepKeepsKeys(tasks, nextId, expired, now);
      locks := LiveLocks(locks, now);
      lockOrder := Filter(lockOrder, locks.Keys);
      tasks := ResetExpired(tasks, expired, now);
      count := |expiredIds|;
    }

    /** One upsert of `initialize_annotations`: insert the seed record for
        `pair` unless a record with its key is stored, in which case nothing
        changes. */
    method UpsertSeed(pair: Pair, tag: string) returns (wasInserted: bool)
      requires Valid()
      modifies this`tasks, this`nextId
      ensures Valid()
      ensures Upsert(tasks, nextId, wasInserted) == UpsertStep(old(tasks), old(nextId), pair, tag)
      ensures old(LeaseCoupled()) ==> LeaseCoupled()
    {
      if KeyPresent(tasks, pair) {
        return false;
      }
      var next := Inserted(tasks, nextId, pair, tag);
      InsertedKeeps(tasks, nextId, pair, tag);
      if LeaseCoupled() {
        ExtendsKeepsCoupling(tasks, next, locks);
      }
      tasks, nextId := next, nextId + 1;
      return true;
    }

    /** `initialize_annotations`: upsert one record per pair, keyed by the two
        image paths and the method name. A pair whose key is already stored is
        skipped and its record left as it was; a pair without the tag key
        raises, which stops the loop after the pairs before it. */
    method InitializeAnnotations(pairs: seq<Pair>, tagName: string) returns (inserted: nat, skipped: nat, complete: bool)
      requires Valid()
      modifies this`tasks, this`nextId
      ensures Valid()
      ensures Seeding(tasks, nextId, inserted, skipped, complete) == SeedAll(old(tasks), old(nextId), pairs, tagName)
      ensures old(LeaseCoupled()) ==> LeaseCoupled()
    {
      inserted, skipped, complete := 0, 0, true;
      var i := 0;
      while i < |pairs|
        invariant i <= |pairs| && Valid()
        invariant var r := SeedAll(tasks, nextId, pairs[i..], tagName);
          SeedAll(old(tasks), old(nextId), pairs, tagName) == r.(inserted := r.inserted + inserted, skipped := r.skipped + skipped)
      {
        var pair := pairs[i];
        assert pairs[i..][0] == pair && pairs[i..][1..] == pairs[i + 1..];
        SeedAllUnfold(tasks, nextId, pairs[i..], tagName);
        if tagName !in pair.metaData {
          complete := false;
          break;
        }
        var wasInserted := UpsertSeed(pair, pair.metaData[tagName]);
        if wasInserted {
          inserted := inserted + 1;
        } else {
          skipped := skipped + 1;
        }
        i := i + 1;
      }
      if complete {
        assert pairs[i..] == [];
      }
      if old(LeaseCoupled()) {
        SeedAllKeepsCoupling(old(tasks), old(nextId), pairs, tagName, locks);
      }
    }

    /** `get_statistics`: the number of tasks in each status, and their sum. */
    method GetStatistics() returns (stats: Statistics)
      ensures stats.pending == |WithStatus(tasks, tasks.Keys, Pending)|
      ensures stats.annotating == |WithStatus(tasks, tasks.Keys, Annotating)|
      ensures stats.annotated == |WithStatus(tasks, tasks.Keys, Annotated)|
      ensures stats.total == stats.pending + stats.annotating + stats.annotated == |tasks|
    {
      var pending, annotating, annotated := 0, 0, 0;
      var rest := tasks.Keys;
      ghost var done: set<TaskId> := {};
      while rest != {}
        invariant rest + done == tasks.Keys && rest !! done
        invariant pending == |WithStatus(tasks, done, Pending)|
        invariant annotating == |WithStatus(tasks, done, Annotating)|
        invariant annotated == |WithStatus(tasks, done, Annotated)|
        invariant pending + annotating + annotated == |done|
        decreases rest
      {
        var k :| k in rest;
        WithStatusAdd(tasks, done, k, Pending);
        WithStatusAdd(tasks, done, k, Annotating);
        WithStatusAdd(tasks, done, k, Annotated);
        match tasks[k].status {
          case Pending => pending := pending + 1;
          case Annotating => annotating := annotating + 1;
          case Annotated => annotated := annotated + 1;
        }
        rest := rest - {k};
        done := done + {k};
      }
      assert done == tasks.Keys;
      stats := Statistics(pending, annotating, annotated, pending + annotating + annotated);
    }
  }
}
