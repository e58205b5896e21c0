/** The database facade (database/__init__.py): one task store, one user
    registry and one history store. The facade runs the expiry sweep before
    the two reads that serve a user, purges the users' histories of the tasks
    the sweep reclaimed, and otherwise forwards each call unchanged. */
module DatabaseFacade {
  import opened Records
  import opened Ordering
  import opened AnnotationStore
  import opened HistoryStore
  import opened UserStore

  /** Everything the navigation engine reads and writes, as one value. */
  datatype Store = Store(tasks: map<TaskId, Task>, locks: map<TaskId, Lock>, lockOrder: seq<TaskId>,
                         histories: map<UserId, History>)

  /** `_cleanup_expired_locks` on a whole store: expired locks deleted (the
      others keep their stored order), the expired tasks still annotating
      reset, the histories purged of the expired ids one at a time, in the
      order the lock collection stores them. */
  function SweepStore(s: Store, now: Time): Store
  {
    var live := LiveLocks(s.locks, now);
    Store(ResetExpired(s.tasks, ExpiredIds(s.locks, now), now), live, Filter(s.lockOrder, live.Keys),
          PurgeAll(s.histories, ExpiredInOrder(s.lockOrder, s.locks, now)))
  }

  /** A second sweep at the same instant finds nothing expired and changes
      nothing, the stored lock order included. */
  lemma SweepStoreIdempotent(s: Store, now: Time)
    ensures SweepStore(SweepStore(s, now), now) == SweepStore(s, now)
  {
    var s1 := SweepStore(s, now);
    SweptLocksAreLive(s.tasks, s.locks, now);
    FilterNothing(s1.lockOrder);
    var keys := LiveLocks(s.locks, now).Keys;
    FilterTwice(s.lockOrder, keys, keys);
    assert keys * keys == keys;
    assert ResetExpired(s1.tasks, {}, now) == s1.tasks;
  }

  class Database {
    const annotations: AnnotationRepository
    const user: UserRepository
    const userHistory: UserHistoryRepository

    ghost predicate Valid()
      reads this, annotations
    {
      annotations.Valid()
    }

    /** The lock table is created with a unique index on `doc_id`; in this
        model that is the map from task id to its single lock. */
    constructor (lockTimeout: nat := 300)
      ensures Valid() && annotations.LeaseCoupled()
      ensures fresh(annotations) && fresh(user) && fresh(userHistory)
      ensures annotations.tasks == map[] && annotations.locks == map[] && annotations.lockOrder == []
      ensures annotations.nextId == 0
      ensures annotations.lockTimeout == lockTimeout
      ensures user.users == [] && userHistory.histories == map[]
    {
      annotations := new AnnotationRepository(lockTimeout);
      user := new UserRepository();
      userHistory := new UserHistoryRepository();
    }

    ghost function Contents(): Store
      reads this, annotations, userHistory
    {
      Store(annotations.tasks, annotations.locks, annotations.lockOrder, userHistory.histories)
    }

    /** The tasks as the sweep at `now` leaves them. */
    function SweptTasks(now: Time): map<TaskId, Task>
      reads this, annotations
    {
      ResetExpired(annotations.tasks, ExpiredIds(annotations.locks, now), now)
    }

    /** The locks as the sweep at `now` leaves them. */
    function SweptLocks(now: Time): map<TaskId, Lock>
      reads this, annotations
    {
      LiveLocks(annotations.locks, now)
    }

    /** The lock order as the sweep at `now` leaves it. */
    function SweptOrder(now: Time): seq<TaskId>
      reads this, annotations
    {
      Filter(annotations.lockOrder, SweptLocks(now).Keys)
    }

    /** Histories `hs` purged of the tasks whose locks expired before `now`,
        in the order the sweep reports them. */
    function Purged(hs: map<UserId, History>, now: Time): map<UserId, History>
      reads this, annotations
    {
      PurgeAll(hs, ExpiredInOrder(annotations.lockOrder, annotations.locks, now))
    }

    /** `initialize`: seed the task store. */
    method Initialize(pairs: seq<Pair>, tagName: string) returns (inserted: nat, skipped: nat, complete: bool)
      requires Valid()
      modifies annotations`tasks, annotations`nextId
      ensures Valid()
      ensures Seeding(annotations.tasks, annotations.nextId, inserted, skipped, complete) ==
        SeedAll(old(annotations.tasks), old(annotations.nextId), pairs, tagName)
      ensures old(annotations.LeaseCoupled()) ==> annotations.LeaseCoupled()
    {
      inserted, skipped, complete := annotations.InitializeAnnotations(pairs, tagName);
    }

    /** `_cleanup_expired_locks`: sweep, and only when the sweep reclaimed
        something, purge exactly the reclaimed ids from the histories. */
    method CleanupExpiredLocks(now: Time)
      requires Valid()
      modifies annotations`tasks, annotations`locks, annotations`lockOrder, userHistory`histories
      ensures Valid()
      ensures annotations.tasks == old(SweptTasks(now))
      ensures annotations.locks == old(SweptLocks(now)) && annotations.lockOrder == old(SweptOrder(now))
      ensures userHistory.histories == old(Purged(userHistory.histories, now))
      ensures ExpiredIds(old(annotations.locks), now) == {} ==>
        annotations.tasks == old(annotations.tasks) && annotations.locks == old(annotations.locks) &&
        annotations.lockOrder == old(annotations.lockOrder) && userHistory.histories == old(userHistory.histories)
      ensures ExpiredIds(annotations.locks, now) == {}
      ensures Contents() == SweepStore(old(Contents()), now)
      ensures old(annotations.LeaseCoupled()) ==> annotations.LeaseCoupled()
    {
      SweptLocksAreLive(annotations.tasks, annotations.locks, now);
      var count, expiredIds := annotations.CleanupExpiredLocks(now);
      if count > 0 {
        userHistory.CleanupUserHistoriesForExpiredTasks(expiredIds);
      }
    }

    /** `get_annotation_by_id`: sweep, then look the task up. */
    method GetAnnotationById(docId: TaskId, now: Time) returns (r: Option<Task>)
      requires Valid()
      modifies annotations`tasks, annotations`locks, annotations`lockOrder, userHistory`histories
      ensures Valid()
      ensures annotations.tasks == old(SweptTasks(now)) && annotations.locks == old(SweptLocks(now))
      ensures annotations.lockOrder == old(SweptOrder(now))
      ensures userHistory.histories == old(Purged(userHistory.histories, now))
      ensures Contents() == SweepStore(old(Contents()), now)
      ensures r.Some? <==> docId in annotations.tasks
      ensures r.Some? ==> r.value == annotations.tasks[docId] && r.value.id == docId
      ensures old(annotations.LeaseCoupled()) ==> annotations.LeaseCoupled()
    {
      CleanupExpiredLocks(now);
      r := annotations.GetById(docId);
    }

    /** `get_next_pending_annotation`: sweep, then lease the least pending
        task that has no lock (after the sweep every stored lock is live). */
    method GetNextPendingAnnotation(userId: UserId, now: Time) returns (r: Option<Task>)
      requires Valid()
      modifies annotations`tasks, annotations`locks, annotations`lockOrder, userHistory`histories
      ensures Valid()
      ensures userHistory.histories == old(Purged(userHistory.histories, now))
      ensures r.None? ==>
        annotations.tasks == old(SweptTasks(now)) && annotations.locks == old(SweptLocks(now)) &&
        annotations.lockOrder == old(SweptOrder(now)) &&
        forall k :: k in annotations.tasks && annotations.tasks[k].status == Pending ==> k in annotations.locks
      ensures r.Some? ==>
        IsLeast(r.value.id, old(LeasableIds(SweptTasks(now), SweptLocks(now), now))) &&
        r.value.id in old(SweptTasks(now)) && old(SweptTasks(now))[r.value.id].status == Pending &&
        r.value.id !in old(SweptLocks(now)) &&
        r.value == Assign(old(SweptTasks(now))[r.value.id], userId, now) &&
        annotations.tasks == old(SweptTasks(now))[r.value.id := r.value] &&
        annotations.locks == old(SweptLocks(now))[r.value.id := Lock(userId, now, now + annotations.lockTimeout)] &&
        annotations.lockOrder == old(SweptOrder(now)) + [r.value.id]
      ensures old(annotations.LeaseCoupled()) ==> annotations.LeaseCoupled()
    {
      CleanupExpiredLocks(now);
      SweptLocksAreLive(old(SweptTasks(now)), old(annotations.locks), now);
      ghost var order := annotations.lockOrder;
      r := annotations.GetNextPending(userId, now);
      if r.Some? {
        FilterKeepsAll(order, old(SweptLocks(now)).Keys - {r.value.id});
      }
    }

    /** `release_annotation_lock`: cancel a lease; no sweep. */
    method ReleaseAnnotationLock(docId: TaskId, userId: UserId, now: Time) returns (success: bool)
      requires Valid()
      modifies annotations`tasks, annotations`locks, annotations`lockOrder
      ensures Valid()
      ensures !Holds(old(annotations.locks), docId, userId) ==>
        !success && annotations.tasks == old(annotations.tasks) && annotations.locks == old(annotations.locks) &&
        annotations.lockOrder == old(annotations.lockOrder)
      ensures Holds(old(annotations.locks), docId, userId) ==>
        annotations.locks == old(annotations.locks) - {docId} &&
        annotations.lockOrder == Filter(old(annotations.lockOrder), annotations.locks.Keys) &&
        annotations.tasks == (if docId in old(annotations.tasks)
                              then old(annotations.tasks)[docId := Reset(old(annotations.tasks)[docId], now)]
                              else old(annotations.tasks)) &&
        (success <==> docId in old(annotations.tasks) && Reset(old(annotations.tasks)[docId], now) != old(annotations.tasks)[docId])
      ensures old(annotations.LeaseCoupled()) ==> annotations.LeaseCoupled()
    {
      success := annotations.ReleaseLockAndReset(docId, userId, now);
    }

    /** `update_annotation_by_id`: the unconditioned update; no sweep. */
    method UpdateAnnotationById(docId: TaskId, scores: Scores, userEditedText: string, status: Status, now: Time)
      returns (success: bool)
      requires Valid()
      modifies annotations`tasks
      ensures Valid()
      ensures success <==> (docId in old(annotations.tasks) &&
        Edit(old(annotations.tasks)[docId], Some(scores), Some(userEditedText), Some(status), now) != old(annotations.tasks)[docId])
      ensures annotations.tasks ==
        if docId in old(annotations.tasks)
        then old(annotations.tasks)[docId := Edit(old(annotations.tasks)[docId], Some(scores), Some(userEditedText), Some(status), now)]
        else old(annotations.tasks)
      ensures old(annotations.LeaseCoupled()) && status != Annotating ==> annotations.LeaseCoupled()
    {
      success := annotations.UpdateById(docId, Some(scores), Some(userEditedText), Some(status), now);
    }

    /** `update_annotation_with_lock`: the lock-checked update, status
        `annotated` unless told otherwise; no sweep. */
    method UpdateAnnotationWithLock(docId: TaskId, userId: UserId, scores: Scores, now: Time,
                                    userEditedText: string := "", status: Status := Annotated)
      returns (success: bool)
      requires Valid()
      modifies annotations`tasks, annotations`locks, annotations`lockOrder
      ensures Valid()
      ensures !Holds(old(annotations.locks), docId, userId) || docId !in old(annotations.tasks) ==>
        !success && annotations.tasks == old(annotations.tasks) && annotations.locks == old(annotations.locks) &&
        annotations.lockOrder == old(annotations.lockOrder)
      ensures annotations.lockOrder ==
        if success && status == Annotated then Filter(old(annotations.lockOrder), annotations.locks.Keys)
        else old(annotations.lockOrder)
      ensures Holds(old(annotations.locks), docId, userId) && docId in old(annotations.tasks) ==>
        var edited := LockedEdit(old(annotations.tasks)[docId], userId, Some(scores), Some(userEditedText), Some(status), now);
        annotations.tasks == old(annotations.tasks)[docId := edited] &&
        (success <==> edited != old(annotations.tasks)[docId]) &&
        annotations.locks == (if success && status == Annotated then old(annotations.locks) - {docId} else old(annotations.locks))
      ensures old(annotations.LeaseCoupled()) && status != Annotating ==> annotations.LeaseCoupled()
    {
      success := annotations.UpdateWithLock(docId, userId, Some(scores), Some(userEditedText), Some(status), now);
    }

    /** `get_annotation_statistics`. */
    method GetAnnotationStatistics() returns (stats: Statistics)
      ensures stats.pending == |WithStatus(annotations.tasks, annotations.tasks.Keys, Pending)|
      ensures stats.annotating == |WithStatus(annotations.tasks, annotations.tasks.Keys, Annotating)|
      ensures stats.annotated == |WithStatus(annotations.tasks, annotations.tasks.Keys, Annotated)|
      ensures stats.total == stats.pending + stats.annotating + stats.annotated == |annotations.tasks|
    {
      stats := annotations.GetStatistics();
    }

    /** `register_user`. */
    method RegisterUser(username: string, freshId: UserId, now: Time) returns (r: RegisterResult)
      modifies user`users
      ensures FirstMatch(old(user.users), ByName(username)).Some? ==> r == DuplicateName && user.users == old(user.users)
      ensures FirstMatch(old(user.users), ByName(username)).None? ==>
        r == Registered(User(freshId, username, now, None)) &&
        user.users == old(user.users) + [UserDoc(freshId, username, now, None, true)]
      ensures UniqueNames(old(user.users)) ==> UniqueNames(user.users)
    {
      r := user.RegisterUser(username, freshId, now);
    }

    /** `login_user`. */
    method LoginUser(username: string, now: Time) returns (r: Option<User>)
      modifies user`users
      ensures FirstMatch(old(user.users), ByName(username)).None? ==> r == None && user.users == old(user.users)
      ensures FirstMatch(old(user.users), ByName(username)).Some? ==>
        var i := FirstMatch(old(user.users), ByName(username)).value;
        if !old(user.users)[i].isActive then r == None && user.users == old(user.users)
        else user.users == old(user.users)[i := old(user.users)[i].(lastLogin := Some(now))] &&
             r == Some(User(old(user.users)[i].userId, username, old(user.users)[i].createdAt, Some(now)))
      ensures UniqueNames(old(user.users)) ==> UniqueNames(user.users)
    {
      r := user.LoginUser(username, now);
    }

    /** `get_user_by_id`. */
    function GetUserById(userId: UserId): (r: Option<User>)
      reads this, user
      ensures r.None? <==> forall j :: 0 <= j < |user.users| ==> user.users[j].userId != userId
      ensures r.Some? ==> exists j :: 0 <= j < |user.users| && user.users[j].userId == userId && r.value == AsUser(user.users[j])
                                 && forall k :: 0 <= k < j ==> user.users[k].userId != userId
    {
      user.GetUserById(userId)
    }

    /** `add_task_to_user_history`. */
    method AddTaskToUserHistory(userId: UserId, task: Task) returns (ok: bool)
      modifies userHistory`histories
      ensures ok
      ensures userHistory.histories ==
        old(userHistory.histories)[userId := History(old(userHistory.GetHistory(userId)) + [task], |old(userHistory.GetHistory(userId))|)]
    {
      ok := userHistory.AddTask(userId, task);
    }

    /** `get_user_task_history`. */
    function GetUserTaskHistory(userId: UserId): (r: seq<Task>)
      reads this, userHistory
      ensures userId !in userHistory.histories ==> r == []
      ensures userId in userHistory.histories ==> r == userHistory.histories[userId].tasks
    {
      userHistory.GetHistory(userId)
    }

    /** `get_user_current_history_index`. */
    function GetUserCurrentHistoryIndex(userId: UserId): (r: int)
      reads this, userHistory
      ensures userId !in userHistory.histories ==> r == -1
      ensures userId in userHistory.histories ==> r == userHistory.histories[userId].currentIndex
    {
      userHistory.GetCurrentIndex(userId)
    }

    /** `update_user_current_history_index`. */
    method UpdateUserCurrentHistoryIndex(userId: UserId, index: int) returns (ok: bool)
      modifies userHistory`histories
      ensures ok <==> userId in old(userHistory.histories)
      ensures userHistory.histories ==
        if ok then old(userHistory.histories)[userId := old(userHistory.histories)[userId].(currentIndex := index)]
        else old(userHistory.histories)
    {
      ok := userHistory.UpdateCurrentIndex(userId, index);
    }

    /** `update_history`. */
    method UpdateHistory(userId: UserId, tasks: seq<Task>) returns (ok: bool)
      modifies userHistory`histories
      ensures userHistory.histories == old(userHistory.histories)[userId := History(tasks, old(userHistory.GetCurrentIndex(userId)))]
      ensures ok <==> userId !in old(userHistory.histories) || old(userHistory.histories)[userId].tasks != tasks
    {
      ok := userHistory.UpdateHistory(userId, tasks);
    }
  }
}
