/** The worked scenarios of the lease engine, replayed as client code against
    the model: each assertion is a consequence of the contracts above. */
module Scenarios {
  import opened Records
  import opened Ordering
  import opened AnnotationStore
  import opened HistoryStore
  import opened DatabaseFacade
  import opened AnnotationInterface

  /** A corpus entry whose key differs from every other name's. */
  function Seed(name: string): Pair
  {
    Pair("lq/" + name, "hq/" + name, "bsrgan", name + ".png", map["tag" := "x4"])
  }

  /** A fresh repository holding one seeded task, pending. */
  method SeededRepo() returns (repo: AnnotationRepository)
    ensures fresh(repo) && repo.Valid() && repo.LeaseCoupled() && repo.lockTimeout == 300
    ensures repo.tasks.Keys == {0} && repo.tasks[0].status == Pending && repo.locks == map[]
  {
    repo := new AnnotationRepository();
    assert !KeyPresent(repo.tasks, Seed("a"));
    var inserted := repo.UpsertSeed(Seed("a"), "x4");
    assert repo.tasks == map[0 := SeedRecord(0, Seed("a"), "x4")];
  }

  /** A fresh repository with one seeded task, leased by "A" at time 0. */
  method LeasedByA() returns (repo: AnnotationRepository)
    ensures fresh(repo) && repo.Valid() && repo.LeaseCoupled()
    ensures repo.tasks.Keys == {0} && repo.tasks[0].status == Annotating
    ensures repo.locks == map[0 := Lock("A", 0, 300)]
  {
    repo := SeededRepo();
    assert LeasableIds(repo.tasks, repo.locks, 0) == {0};
    var leased := repo.GetNextPending("A", 0);
    assert leased.Some? && leased.value.id == 0;
    assert repo.locks[0] == Lock("A", 0, 300);
    assert repo.locks.Keys == {0};
    assert repo.tasks[0] == leased.value;
  }

  /** Someone other than the holder can neither cancel nor save the task,
      and the lease stays with its holder. */
  method NonHolderRefusedScenario()
  {
    var repo := LeasedByA();
    var cancelledByB := repo.ReleaseLockAndReset(0, "B", 5);
    assert !cancelledByB && repo.tasks[0].status == Annotating;
    var savedByB := repo.UpdateWithLock(0, "B", Some(map["quality" := 4]), Some("ok"), Some(Annotated), 10);
    assert !savedByB && Holds(repo.locks, 0, "A");
  }

  /** The holder completes the task once, which frees it; a second
      completion finds no lock and fails. */
  method CompletionScenario()
  {
    var repo := LeasedByA();
    var scores := map["quality" := 4];
    var savedByA := repo.UpdateWithLock(0, "A", Some(scores), Some("ok"), Some(Annotated), 11);
    assert savedByA;
    assert repo.tasks[0].status == Annotated && repo.tasks[0].lastUpdatedBy == Some("A");
    assert repo.locks == map[];
    var savedAgain := repo.UpdateWithLock(0, "A", Some(scores), Some("ok"), Some(Annotated), 12);
    assert !savedAgain;
  }

  /** The store of the expiry scenarios: "A" leased task 0 at time 0 with the
      default timeout, and "B" has task 1 in its history. */
  function LeasedStore(t: Task, u: Task): Store
  {
    Store(map[0 := t], map[0 := Lock("A", 0, 300)], [0], map["A" := History([t], 0), "B" := History([u], 0)])
  }

  /** At the expiry instant itself the lease still stands: the sweep changes nothing. */
  lemma LeaseStandsAtExpiry(t: Task, u: Task)
    ensures SweepStore(LeasedStore(t, u), 300) == LeasedStore(t, u)
  {
    var s := LeasedStore(t, u);
    assert ExpiredIds(s.locks, 300) == {};
    assert ExpiredInOrder(s.lockOrder, s.locks, 300) == [];
    assert LiveLocks(s.locks, 300) == s.locks;
    assert Filter(s.lockOrder, s.locks.Keys) == [0];
    assert ResetExpired(s.tasks, {}, 300) == s.tasks;
  }

  /** One instant later the lease is reclaimed: the task goes back to pending,
      the lock is gone, and the holder's history loses the entry (the cursor,
      which sat on it, falls to -1) while another user's history is left alone. */
  lemma ExpiredLeaseIsReclaimed(t: Task, u: Task)
    requires t.id == 0 && t.status == Annotating && u.id == 1
    ensures SweepStore(LeasedStore(t, u), 301) ==
      Store(map[0 := Reset(t, 301)], map[], [], map["A" := History([], -1), "B" := History([u], 0)])
  {
    var s := LeasedStore(t, u);
    assert ExpiredIds(s.locks, 301) == {0};
    assert LiveLocks(s.locks, 301) == map[];
    assert Filter(s.lockOrder, {}) == [];
    assert ResetExpired(s.tasks, {0}, 301) == map[0 := Reset(t, 301)];
    assert ExpiredInOrder(s.lockOrder, s.locks, 301) == [0];
    ReclaimedHistories(t, u);
  }

  /** The history half of the reclaim: only the holder's history held task 0. */
  lemma ReclaimedHistories(t: Task, u: Task)
    requires t.id == 0 && u.id == 1
    ensures PurgeAll(LeasedStore(t, u).histories, [0]) == map["A" := History([], -1), "B" := History([u], 0)]
  {
    var hs := LeasedStore(t, u).histories;
    assert Keep([t], {0}) == [];
    assert Keep([u], {0}) == [u];
    assert ContainsId([t], 0) by { assert [t][0].id == 0; }
    assert !ContainsId([u], 0);
    assert PurgeEntry(hs["A"], 0) == History([], -1);
    assert PurgeAll(hs, [0]) == PurgeAll(PurgeUsers(hs, 0), []);
  }

  /** The store of the purge-order scenario: "A" visited tasks 2, 1 and 3 and
      went back to task 1; the locks of tasks 1 and 2, both taken at time 0,
      are stored in the order `order`. */
  function TwoLeaseStore(t1: Task, t2: Task, t3: Task, order: seq<TaskId>): Store
  {
    Store(map[], map[1 := Lock("A", 0, 300), 2 := Lock("B", 0, 300)], order,
          map["A" := History([t2, t1, t3], 1)])
  }

  /** The purge follows the lock collection's stored order, and the order
      shows in the cursor. With the locks stored as (2, 1), the reclaim leaves
      "A" at [t3] with the cursor past its end, so "next" leases a new task;
      stored as (1, 2), it would leave the cursor at -1, and "next" replays t3. */
  lemma SweepFollowsStoredOrder(t1: Task, t2: Task, t3: Task)
    requires t1.id == 1 && t2.id == 2 && t3.id == 3
    ensures SweepStore(TwoLeaseStore(t1, t2, t3, [2, 1]), 301).histories == map["A" := History([t3], 1)]
    ensures !Replays(SweepStore(TwoLeaseStore(t1, t2, t3, [2, 1]), 301), "A")
    ensures SweepStore(TwoLeaseStore(t1, t2, t3, [1, 2]), 301).histories == map["A" := History([t3], -1)]
    ensures Replays(SweepStore(TwoLeaseStore(t1, t2, t3, [1, 2]), 301), "A")
  {
    var locks := TwoLeaseStore(t1, t2, t3, []).locks;
    assert ExpiredIds(locks, 301) == {1, 2};
    assert ExpiredInOrder([2, 1], locks, 301) == [2, 1];
    assert ExpiredInOrder([1, 2], locks, 301) == [1, 2];
    PurgeTwoThenOne(t1, t2, t3);
    PurgeOneThenTwo(t1, t2, t3);
  }

  /** The history half, 2 first: the cursor is not on task 2 and keeps its
      value, and then it is not on task 1 either. */
  lemma PurgeTwoThenOne(t1: Task, t2: Task, t3: Task)
    requires t1.id == 1 && t2.id == 2 && t3.id == 3
    ensures PurgeAll(map["A" := History([t2, t1, t3], 1)], [2, 1]) == map["A" := History([t3], 1)]
  {
    var m := map["A" := History([t2, t1, t3], 1)];
    assert [2, 1][1..] == [1] && [1][1..] == [];
    PurgeTwoOfThree(t1, t2, t3);
    var m1 := PurgeUsers(m, 2);
    assert m1.Keys == {"A"} && m1["A"] == History([t1, t3], 1);
    assert m1 == map["A" := History([t1, t3], 1)];
    PurgeFirstOfTwo(t1, t3, 1);
    var m2 := PurgeUsers(m1, 1);
    assert m2.Keys == {"A"} && m2["A"] == History([t3], 1);
    assert PurgeAll(m, [2, 1]) == PurgeAll(m1, [1]) == PurgeAll(m2, []);
  }

  /** The history half, 1 first: the cursor is on task 1 and moves back, onto
      task 2, which is removed next, so it moves back again. */
  lemma PurgeOneThenTwo(t1: Task, t2: Task, t3: Task)
    requires t1.id == 1 && t2.id == 2 && t3.id == 3
    ensures PurgeAll(map["A" := History([t2, t1, t3], 1)], [1, 2]) == map["A" := History([t3], -1)]
  {
    var m := map["A" := History([t2, t1, t3], 1)];
    assert [1, 2][1..] == [2] && [2][1..] == [];
    PurgeOneOfThree(t1, t2, t3);
    var m1 := PurgeUsers(m, 1);
    assert m1.Keys == {"A"} && m1["A"] == History([t2, t3], 0);
    assert m1 == map["A" := History([t2, t3], 0)];
    PurgeFirstOfTwo(t2, t3, 0);
    var m2 := PurgeUsers(m1, 2);
    assert m2.Keys == {"A"} && m2["A"] == History([t3], -1);
    assert PurgeAll(m, [1, 2]) == PurgeAll(m1, [2]) == PurgeAll(m2, []);
  }

  lemma PurgeTwoOfThree(t1: Task, t2: Task, t3: Task)
    requires t1.id == 1 && t2.id == 2 && t3.id == 3
    ensures ContainsId([t2, t1, t3], 2) && PurgeEntry(History([t2, t1, t3], 1), 2) == History([t1, t3], 1)
  {
    var ts := [t2, t1, t3];
    assert ts[0].id == 2;
    assert ts[1..] == [t1, t3] && [t1, t3][1..] == [t3] && [t3][1..] == [];
    assert Keep([t3], {2}) == [t3];
    assert Keep([t1, t3], {2}) == [t1, t3];
    assert Keep(ts, {2}) == [t1, t3];
  }

  lemma PurgeOneOfThree(t1: Task, t2: Task, t3: Task)
    requires t1.id == 1 && t2.id == 2 && t3.id == 3
    ensures ContainsId([t2, t1, t3], 1) && PurgeEntry(History([t2, t1, t3], 1), 1) == History([t2, t3], 0)
  {
    var ts := [t2, t1, t3];
    assert ts[1].id == 1;
    assert ts[1..] == [t1, t3] && [t1, t3][1..] == [t3] && [t3][1..] == [];
    assert Keep([t3], {1}) == [t3];
    assert Keep([t1, t3], {1}) == [t3];
    assert Keep(ts, {1}) == [t2] + Keep([t1, t3], {1});
  }

  /** Removing the first of two entries, with the cursor at `c` (0 or 1). */
  lemma PurgeFirstOfTwo(a: Task, b: Task, c: int)
    requires a.id != b.id && (c == 0 || c == 1)
    ensures ContainsId([a, b], a.id)
    ensures PurgeEntry(History([a, b], c), a.id) == History([b], if c == 0 then -1 else 1)
  {
    assert [a, b][0].id == a.id;
    assert [a, b][1..] == [b] && [b][1..] == [];
    assert Keep([a, b], {a.id}) == [b];
  }

  /** `load_previous_task` writes the cursor before checking it, so two
      "previous" clicks from the first entry leave the stored cursor at -2.
      The next "next" replays: it moves the cursor to -1, which Python reads
      as the last entry of the history, and shows that task. */
  lemma CursorBelowZeroReplaysLastEntry(a: Task, b: Task, now: Time, v: View, s': Store)
    requires a.id == 0 && b.id == 1
    requires Replayed(Store(map[1 := b], map[], [], map["A" := History([a, b], -2)]), "A", now, v, s')
    ensures Replays(Store(map[1 := b], map[], [], map["A" := History([a, b], -2)]), "A")
    ensures v == Shown(b) && s'.histories["A"] == History([a, b], -1)
  {
    var s := Store(map[1 := b], map[], [], map["A" := History([a, b], -2)]);
    assert PyIndex(2, -1) == Some(1);
    assert ExpiredIds(s.locks, now) == {};
    assert ExpiredInOrder(s.lockOrder, s.locks, now) == [];
    assert [a, b][1] == b;
  }
}
