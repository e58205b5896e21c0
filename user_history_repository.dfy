/** Per-user navigation history (database/user_history_repository.py): the
    sequence of task snapshots a user has visited and a cursor into it, and the
    purge that removes expired tasks from every user's history. */
module HistoryStore {
  import opened Records

  /** One user's history document. A document created by `update_history`
      has no `current_index` field; it reads as -1, which is how it is stored
      here. */
  datatype History = History(tasks: seq<Task>, currentIndex: int)

  function Min(a: int, b: int): int
  {
    if a <= b then a else b
  }

  predicate ContainsId(tasks: seq<Task>, id: TaskId)
  {
    exists i :: 0 <= i < |tasks| && tasks[i].id == id
  }

  /** The entries whose id is not in `ids`, in their original order. */
  function Keep(tasks: seq<Task>, ids: set<TaskId>): (r: seq<Task>)
    ensures |r| <= |tasks|
  {
    if tasks == [] then []
    else (if tasks[0].id in ids then [] else [tasks[0]]) + Keep(tasks[1..], ids)
  }

  /** `Keep` removes exactly the entries with an id in `ids` and nothing else. */
  lemma {:induction false} KeepMembers(tasks: seq<Task>, ids: set<TaskId>)
    ensures forall t :: t in Keep(tasks, ids) <==> t in tasks && t.id !in ids
    ensures forall id :: id in ids ==> !ContainsId(Keep(tasks, ids), id)
    decreases |tasks|
  {
    if tasks != [] {
      KeepMembers(tasks[1..], ids);
      assert tasks == [tasks[0]] + tasks[1..];
      forall id | id in ids
        ensures !ContainsId(Keep(tasks, ids), id)
      {
        var r := Keep(tasks, ids);
        forall i | 0 <= i < |r|
          ensures r[i].id != id
        {
          assert r[i] in r;
        }
      }
    }
  }

  /** `Keep` distributes over concatenation, so it keeps the remaining
      entries in their order. */
  lemma {:induction false} KeepConcat(a: seq<Task>, b: seq<Task>, ids: set<TaskId>)
    ensures Keep(a + b, ids) == Keep(a, ids) + Keep(b, ids)
    decreases |a|
  {
    if a != [] {
      KeepConcat(a[1..], b, ids);
      assert (a + b)[0] == a[0];
      assert (a + b)[1..] == a[1..] + b;
    } else {
      assert a + b == b;
    }
  }

  /** A history without any of `ids` is left as it is. */
  lemma {:induction false} KeepNothingToRemove(tasks: seq<Task>, ids: set<TaskId>)
    requires forall i :: 0 <= i < |tasks| ==> tasks[i].id !in ids
    ensures Keep(tasks, ids) == tasks
    decreases |tasks|
  {
    if tasks != [] {
      KeepNothingToRemove(tasks[1..], ids);
    }
  }

  /** Filtering twice is filtering once by both id sets. */
  lemma {:induction false} KeepTwice(tasks: seq<Task>, a: set<TaskId>, b: set<TaskId>)
    ensures Keep(Keep(tasks, a), b) == Keep(tasks, a + b)
    decreases |tasks|
  {
    if tasks != [] {
      KeepTwice(tasks[1..], a, b);
      var head := if tasks[0].id in a then [] else [tasks[0]];
      KeepConcat(head, Keep(tasks[1..], a), b);
    }
  }

  /** The cursor sits on an entry with id `id`. */
  predicate OnEntry(h: History, id: TaskId)
  {
    0 <= h.currentIndex < |h.tasks| && h.tasks[h.currentIndex].id == id
  }

  /** What the cleanup writes for one user and one expired id: the entries
      with that id removed, and the cursor moved back only when it sat on one
      of them. */
  function PurgeEntry(h: History, id: TaskId): History
  {
    var newTasks := Keep(h.tasks, {id});
    var newIndex :=
      if OnEntry(h, id) then (if newTasks != [] then Min(h.currentIndex - 1, |newTasks| - 1) else -1)
      else h.currentIndex;
    History(newTasks, newIndex)
  }

  /** When the cursor sat on the removed entry, the new cursor is in
      [-1, length): the previous position, clamped to the shorter history. */
  lemma PurgeOnEntryCursorInRange(h: History, id: TaskId)
    requires OnEntry(h, id)
    ensures var r := PurgeEntry(h, id);
      -1 <= r.currentIndex < |r.tasks| && r.currentIndex <= h.currentIndex - 1
  {
  }

  /** When the cursor sat elsewhere it keeps its value, even though the
      entries removed before it shift the entry it pointed at to a smaller
      index: the cursor no longer points at that entry. */
  lemma {:induction false} PurgeBeforeCursorShiftsEntry(h: History, id: TaskId)
    requires 0 <= h.currentIndex < |h.tasks| && h.tasks[h.currentIndex].id != id
    requires ContainsId(h.tasks[..h.currentIndex], id)
    ensures var r := PurgeEntry(h, id);
      var c := h.currentIndex;
      var moved := |Keep(h.tasks[..c], {id})|;
      r.currentIndex == c && moved < c && moved < |r.tasks| && r.tasks[moved] == h.tasks[c]
  {
    var c := h.currentIndex;
    var before := h.tasks[..c];
    var after := h.tasks[c + 1..];
    assert h.tasks == before + [h.tasks[c]] + after;
    KeepConcat(before + [h.tasks[c]], after, {id});
    KeepConcat(before, [h.tasks[c]], {id});
    assert Keep([h.tasks[c]], {id}) == [h.tasks[c]];
    KeepShrinks(before, id);
  }

  /** Removing an id that occurs makes the sequence strictly shorter. */
  lemma {:induction false} KeepShrinks(tasks: seq<Task>, id: TaskId)
    requires ContainsId(tasks, id)
    ensures |Keep(tasks, {id})| < |tasks|
    decreases |tasks|
  {
    if tasks[0].id != id {
      var i :| 0 <= i < |tasks| && tasks[i].id == id;
      assert tasks[1..][i - 1].id == id;
      KeepShrinks(tasks[1..], id);
    }
  }

  /** A removed entry before the cursor leaves the cursor's value alone, even
      when it then points past the end: history [a, b, c] with the cursor on
      c, b expires, and the cursor stays 2, one past the end of [a, c]. */
  lemma PurgeExampleCursorPastEnd(a: Task, b: Task, c: Task)
    requires a.id != b.id && c.id != b.id
    ensures PurgeEntry(History([a, b, c], 2), b.id) == History([a, c], 2)
  {
    assert Keep([c], {b.id}) == [c];
    assert Keep([b, c], {b.id}) == [c];
    assert Keep([a, b, c], {b.id}) == [a, c];
  }

  /** One pass of the outer loop: every history that contains `id` is purged. */
  function PurgeUsers(hs: map<UserId, History>, id: TaskId): (r: map<UserId, History>)
    ensures r.Keys == hs.Keys
  {
    map u | u in hs :: if ContainsId(hs[u].tasks, id) then PurgeEntry(hs[u], id) else hs[u]
  }

  /** The whole cleanup: the ids are handled one after the other. */
  function PurgeAll(hs: map<UserId, History>, ids: seq<TaskId>): (r: map<UserId, History>)
    ensures r.Keys == hs.Keys
    decreases |ids|
  {
    if ids == [] then hs else PurgeAll(PurgeUsers(hs, ids[0]), ids[1..])
  }

  /** After the cleanup every user's history consists of the entries whose
      id did not expire, in their original order. */
  lemma {:induction false} PurgeAllKeepsTheRest(hs: map<UserId, History>, ids: seq<TaskId>, u: UserId)
    requires u in hs
    ensures u in PurgeAll(hs, ids) && PurgeAll(hs, ids)[u].tasks == Keep(hs[u].tasks, IdSet(ids))
    decreases |ids|
  {
    if ids == [] {
      assert IdSet(ids) == {};
      KeepNothingToRemove(hs[u].tasks, {});
    } else {
      var h1 := PurgeUsers(hs, ids[0]);
      var later := IdSet(ids[1..]);
      PurgeAllKeepsTheRest(h1, ids[1..], u);
      if !ContainsId(hs[u].tasks, ids[0]) {
        KeepNothingToRemove(hs[u].tasks, {ids[0]});
      }
      assert h1[u].tasks == Keep(hs[u].tasks, {ids[0]});
      KeepTwice(hs[u].tasks, {ids[0]}, later);
      IdSetCons(ids);
      assert PurgeAll(hs, ids) == PurgeAll(h1, ids[1..]);
    }
  }

  /** The ids of a sequence, as a set. */
  function IdSet(ids: seq<TaskId>): (r: set<TaskId>)
    ensures forall x :: x in r <==> x in ids
  {
    set x | x in ids
  }

  lemma IdSetCons(ids: seq<TaskId>)
    requires ids != []
    ensures IdSet(ids) == {ids[0]} + IdSet(ids[1..])
  {
    assert ids == [ids[0]] + ids[1..];
  }

  /** A user whose history holds none of the expired ids is not touched,
      cursor included. */
  lemma {:induction false} PurgeAllLeavesOthers(hs: map<UserId, History>, ids: seq<TaskId>, u: UserId)
    requires u in hs
    requires forall i :: 0 <= i < |hs[u].tasks| ==> hs[u].tasks[i].id !in ids
    ensures PurgeAll(hs, ids)[u] == hs[u]
    decreases |ids|
  {
    if ids != [] {
      var h1 := PurgeUsers(hs, ids[0]);
      assert !ContainsId(hs[u].tasks, ids[0]);
      assert h1[u] == hs[u];
      PurgeAllLeavesOthers(h1, ids[1..], u);
    }
  }

  /** The tasks of `u`'s history, [] when there is none. */
  function TasksOf(hs: map<UserId, History>, u: UserId): seq<Task>
  {
    if u in hs then hs[u].tasks else []
  }

  /** The cursor of `u`'s history, -1 when there is none. */
  function CursorOf(hs: map<UserId, History>, u: UserId): int
  {
    if u in hs then hs[u].currentIndex else -1
  }

  class UserHistoryRepository {
    /** The history collection, keyed by user id. */
    var histories: map<UserId, History>

    constructor ()
      ensures histories == map[]
    {
      histories := map[];
    }

    /** `get_history`: the stored tasks, or [] for a user without history. */
    function GetHistory(userId: UserId): (r: seq<Task>)
      reads this
      ensures userId !in histories ==> r == []
      ensures userId in histories ==> r == histories[userId].tasks
    {
      TasksOf(histories, userId)
    }

    /** `get_current_index`: the stored cursor, or -1 for a user without history. */
    function GetCurrentIndex(userId: UserId): (r: int)
      reads this
      ensures userId !in histories ==> r == -1
      ensures userId in histories ==> r == histories[userId].currentIndex
    {
      CursorOf(histories, userId)
    }

    /** `add_task`: append the task and point the cursor at it; a first-time
        user gets a history of just that task with cursor 0. */
    method AddTask(userId: UserId, task: Task) returns (ok: bool)
      modifies this`histories
      ensures ok
      ensures histories == old(histories)[userId := History(old(GetHistory(userId)) + [task], |old(GetHistory(userId))|)]
      ensures userId !in old(histories) ==> histories[userId] == History([task], 0)
      ensures GetHistory(userId) == old(GetHistory(userId)) + [task]
      ensures GetCurrentIndex(userId) == |GetHistory(userId)| - 1
    {
      if userId in histories {
        var doc := histories[userId];
        var tasks := doc.tasks + [task];
        assert doc.tasks == GetHistory(userId);
        histories := histories[userId := History(tasks, |tasks| - 1)];
      } else {
        assert GetHistory(userId) == [];
        assert [] + [task] == [task];
        histories := histories[userId := History([task], 0)];
      }
      return true;
    }

    /** `update_current_index`: store the index as given, with no bounds
        check; for a user without history nothing is created. */
    method UpdateCurrentIndex(userId: UserId, index: int) returns (ok: bool)
      modifies this`histories
      ensures ok <==> userId in old(histories)
      ensures histories == if ok then old(histories)[userId := old(histories)[userId].(currentIndex := index)] else old(histories)
    {
      if userId !in histories {
        return false;
      }
      histories := histories[userId := histories[userId].(currentIndex := index)];
      return true;
    }

    /** `update_history`: replace the task list, creating the document when
        it is missing; the cursor is not touched. */
    method UpdateHistory(userId: UserId, tasks: seq<Task>) returns (ok: bool)
      modifies this`histories
      ensures histories == old(histories)[userId := History(tasks, old(GetCurrentIndex(userId)))]
      ensures ok <==> userId !in old(histories) || old(histories)[userId].tasks != tasks
    {
      if userId in histories {
        ok := histories[userId].tasks != tasks;
        histories := histories[userId := histories[userId].(tasks := tasks)];
      } else {
        histories := histories[userId := History(tasks, -1)];
        ok := true;
      }
    }

    /** `cleanup_user_histories_for_expired_tasks`: for each expired id in
        turn, purge it from every history that holds it. */
    method CleanupUserHistoriesForExpiredTasks(expiredDocIds: seq<TaskId>)
      modifies this`histories
      ensures histories == PurgeAll(old(histories), expiredDocIds)
    {
      var i := 0;
      while i < |expiredDocIds|
        invariant 0 <= i <= |expiredDocIds|
        invariant PurgeAll(histories, expiredDocIds[i..]) == PurgeAll(old(histories), expiredDocIds)
      {
        PurgeId(expiredDocIds[i]);
        assert expiredDocIds[i..][1..] == expiredDocIds[i + 1..];
        i := i + 1;
      }
    }

    /** One pass of the cleanup: find the histories holding `docId`, then
        rewrite each of them without it. */
    method PurgeId(docId: TaskId)
      modifies this`histories
      ensures histories == PurgeUsers(old(histories), docId)
    {
      var users := set u | u in histories && ContainsId(histories[u].tasks, docId);
      while users != {}
        invariant users <= old(histories).Keys
        invariant histories.Keys == old(histories).Keys
        invariant forall u :: u in old(histories) ==>
          histories[u] == if u in users then old(histories)[u] else PurgeUsers(old(histories), docId)[u]
        decreases users
      {
        var u :| u in users;
        histories := histories[u := PurgeEntry(histories[u], docId)];
        users := users - {u};
      }
      assert histories == PurgeUsers(old(histories), docId);
    }
  }
}
