/** The annotator's controller (core/annotation_interface.py): moving through
    the user's history, leasing new tasks, cancelling a lease and saving an
    annotation. Only the task-state logic is modelled; what the screen shows
    is reduced to the task record or the notice displayed instead. */
module AnnotationInterface {
  import opened Records
  import opened Ordering
  import opened AnnotationStore
  import opened HistoryStore
  import opened DatabaseFacade

  /** The status line shown with an empty task view. */
  datatype Notice =
    | NotLoggedIn      // "请先登录"
    | TaskMissing      // "任务不存在"
    | NoMoreTasks      // "没有更多待标注的任务"
    | NoHistory        // "没有历史任务"
    | AtFirstTask      // "已经是第一张任务"
    | LoadFailed       // "加载任务失败: …"
    | PreviousFailed   // "加载上一张任务失败: …"

  /** What a load operation puts on screen: a task, or an empty view with a notice. */
  datatype View = Shown(task: Task) | Blank(notice: Notice)

  datatype CancelReply =
    | IdsMissing              // "用户或任务ID缺失"
    | CancelRefused           // "取消失败：可能无权限或任务未被分配"
    | Cancelled(id: TaskId)   // "任务 … 已取消并从历史中移除"

  datatype SaveReply =
    | NotReady                       // "未登录或无当前任务"
    | NotFound(id: TaskId)           // "任务 … 不存在"
    | StatusRefused(status: Status)  // "任务状态 '…' 不允许保存"
    | Saved                          // "标注已保存！"
    | SaveFailed                     // "保存失败！"

  datatype UpdateReply =
    | EmptyTaskId             // "任务ID不能为空"
    | Updated(id: TaskId)     // "任务 … 更新成功！"
    | Unchanged(id: TaskId)   // "任务 … 未找到或无变化"

  /** The view `load_task_by_id` builds from the store's record. */
  function ViewOf(tasks: map<TaskId, Task>, id: TaskId): View
  {
    if id in tasks then Shown(tasks[id]) else Blank(TaskMissing)
  }

  /** Python's `s[i]` on a sequence of length `n`: defined for -n <= i < n,
      a negative index counting from the end; anything else raises IndexError. */
  function PyIndex(n: nat, i: int): (r: Option<nat>)
    ensures r.Some? <==> -(n as int) <= i < n
    ensures r.Some? && 0 <= i ==> r.value == i
    ensures r.Some? && i < 0 ==> r.value == n + i
  {
    if 0 <= i < n then Some(i) else if -(n as int) <= i < 0 then Some(n + i) else None
  }

  /** The store with `u`'s cursor overwritten, as `update_user_current_history_index` does. */
  function WithCursor(s: Store, u: UserId, c: int): Store
  {
    if u in s.histories then s.(histories := s.histories[u := s.histories[u].(currentIndex := c)]) else s
  }

  /** "Next" replays the history while the cursor is before its last entry. */
  ghost predicate Replays(s: Store, u: UserId)
  {
    var h := TasksOf(s.histories, u);
    |h| > 0 && CursorOf(s.histories, u) < |h| - 1
  }

  /** The replay step: the cursor is written first, then the entry under it
      (read with Python's indexing) is looked up after a sweep; an index
      that is out of range fails after the write. */
  ghost predicate Replayed(s: Store, u: UserId, now: Time, v: View, s': Store)
  {
    var h := TasksOf(s.histories, u);
    var c := CursorOf(s.histories, u);
    var moved := WithCursor(s, u, c + 1);
    if PyIndex(|h|, c + 1).None? then v == Blank(LoadFailed) && s' == moved
    else s' == SweepStore(moved, now) && v == ViewOf(s'.tasks, h[PyIndex(|h|, c + 1).value].id)
  }

  /** The lease step: after a sweep, the least leasable task is leased to `u`
      and appended to `u`'s history with the cursor on it; when none is
      leasable nothing but the sweep happens. */
  ghost predicate Leased(s: Store, u: UserId, now: Time, lockTimeout: nat, v: View, s': Store)
  {
    var swept := SweepStore(s, now);
    if v.Blank? then
      v == Blank(NoMoreTasks) && s' == swept && LeasableIds(swept.tasks, swept.locks, now) == {}
    else
      var id := v.task.id;
      var h := TasksOf(swept.histories, u);
      IsLeast(id, LeasableIds(swept.tasks, swept.locks, now)) &&
      v.task == Assign(swept.tasks[id], u, now) &&
      s' == Store(swept.tasks[id := v.task], swept.locks[id := Lock(u, now, now + lockTimeout)],
                  swept.lockOrder + [id], swept.histories[u := History(h + [v.task], |h|)])
  }

  class AnnotationBusinessLogic {
    const db: Database

    /** The store is well formed and every annotating task is locked by its assignee. */
    ghost predicate Valid()
      reads this, db, db.annotations
    {
      db.Valid() && db.annotations.LeaseCoupled()
    }

    constructor (db: Database)
      requires db.Valid() && db.annotations.LeaseCoupled()
      ensures this.db == db && Valid()
    {
      this.db := db;
    }

    /** `load_task_by_id`: sweep, then show the record (or say it is missing). */
    method LoadTaskById(taskId: TaskId, userId: UserId, now: Time) returns (v: View)
      requires Valid()
      modifies db.annotations`tasks, db.annotations`locks, db.annotations`lockOrder, db.userHistory`histories
      ensures Valid()
      ensures userId == "" ==> v == Blank(NotLoggedIn) && db.Contents() == old(db.Contents())
      ensures userId != "" ==> db.Contents() == SweepStore(old(db.Contents()), now) && v == ViewOf(db.Contents().tasks, taskId)
    {
      if userId == "" {
        return Blank(NotLoggedIn);
      }
      var task := db.GetAnnotationById(taskId, now);
      if task.None? {
        return Blank(TaskMissing);
      }
      v := Shown(task.value);
    }

    /** `load_next_task`: while the cursor is before the last history entry,
        advance it by one and show that entry again; otherwise lease a new
        task and append it to the history. */
    method LoadNextTask(userId: UserId, now: Time) returns (v: View)
      requires Valid()
      modifies db.annotations`tasks, db.annotations`locks, db.annotations`lockOrder, db.userHistory`histories
      ensures Valid()
      ensures userId == "" ==> v == Blank(NotLoggedIn) && db.Contents() == old(db.Contents())
      ensures userId != "" ==>
        if Replays(old(db.Contents()), userId) then Replayed(old(db.Contents()), userId, now, v, db.Contents())
        else Leased(old(db.Contents()), userId, now, db.annotations.lockTimeout, v, db.Contents())
    {
      if userId == "" {
        return Blank(NotLoggedIn);
      }
      var history := db.GetUserTaskHistory(userId);
      var currentIndex := db.GetUserCurrentHistoryIndex(userId);
      if |history| > 0 && currentIndex < |history| - 1 {
        v := ReplayNext(userId, now);
      } else {
        v := LeaseNext(userId, now);
      }
    }

    /** The replay branch of `load_next_task`. */
    method ReplayNext(userId: UserId, now: Time) returns (v: View)
      requires Valid() && userId != "" && Replays(db.Contents(), userId)
      modifies db.annotations`tasks, db.annotations`locks, db.annotations`lockOrder, db.userHistory`histories
      ensures Valid()
      ensures Replayed(old(db.Contents()), userId, now, v, db.Contents())
    {
      var history := db.GetUserTaskHistory(userId);
      var currentIndex := db.GetUserCurrentHistoryIndex(userId);
      var newIndex := currentIndex + 1;
      var _ := db.UpdateUserCurrentHistoryIndex(userId, newIndex);
      var pos := PyIndex(|history|, newIndex);
      if pos.None? {
        return Blank(LoadFailed);
      }
      v := LoadTaskById(history[pos.value].id, userId, now);
    }

    /** The lease branch of `load_next_task`. */
    method LeaseNext(userId: UserId, now: Time) returns (v: View)
      requires Valid()
      modifies db.annotations`tasks, db.annotations`locks, db.annotations`lockOrder, db.userHistory`histories
      ensures Valid()
      ensures Leased(old(db.Contents()), userId, now, db.annotations.lockTimeout, v, db.Contents())
    {
      var task := db.GetNextPendingAnnotation(userId, now);
      if task.None? {
        return Blank(NoMoreTasks);
      }
      var _ := db.AddTaskToUserHistory(userId, task.value);
      v := Shown(task.value);
    }

    /** `load_previous_task`: store `cursor - 1` (no lower bound), then show
        that entry when the new cursor is not negative. */
    method LoadPreviousTask(userId: UserId, now: Time) returns (v: View)
      requires Valid()
      modifies db.annotations`tasks, db.annotations`locks, db.annotations`lockOrder, db.userHistory`histories
      ensures Valid()
      ensures userId == "" ==> v == Blank(NotLoggedIn) && db.Contents() == old(db.Contents())
      ensures userId != "" ==>
        var s := old(db.Contents());
        var h := TasksOf(s.histories, userId);
        var c := CursorOf(s.histories, userId);
        if h == [] then v == Blank(NoHistory) && db.Contents() == s
        else
          var moved := WithCursor(s, userId, c - 1);
          if c - 1 < 0 then v == Blank(AtFirstTask) && db.Contents() == moved
          else if c - 1 >= |h| then v == Blank(PreviousFailed) && db.Contents() == moved
          else db.Contents() == SweepStore(moved, now) && v == ViewOf(db.Contents().tasks, h[c - 1].id)
    {
      if userId == "" {
        return Blank(NotLoggedIn);
      }
      var history := db.GetUserTaskHistory(userId);
      if history == [] {
        return Blank(NoHistory);
      }
      var currentIndex := db.GetUserCurrentHistoryIndex(userId);
      var newIndex := currentIndex - 1;
      var _ := db.UpdateUserCurrentHistoryIndex(userId, newIndex);
      if newIndex < 0 {
        return Blank(AtFirstTask);
      }
      if newIndex >= |history| {
        return Blank(PreviousFailed);
      }
      v := LoadTaskById(history[newIndex].id, userId, now);
    }

    /** `cancel_current_task`: release the caller's lease and reset the task;
        only when that succeeded, drop the history entry under the cursor if it
        is the cancelled task, and move the cursor back by one. */
    method CancelCurrentTask(userId: UserId, taskId: Option<TaskId>, now: Time) returns (r: CancelReply)
      requires Valid()
      modifies db.annotations`tasks, db.annotations`locks, db.annotations`lockOrder, db.userHistory`histories
      ensures Valid()
      ensures userId == "" || taskId.None? ==> r == IdsMissing && db.Contents() == old(db.Contents())
      ensures userId != "" && taskId.Some? ==>
        var s := old(db.Contents());
        var id := taskId.value;
        var h := TasksOf(s.histories, userId);
        var c := CursorOf(s.histories, userId);
        (!Holds(s.locks, id, userId) ==> r == CancelRefused && db.Contents() == s) &&
        (Holds(s.locks, id, userId) ==>
          db.Contents().locks == s.locks - {id} &&
          db.Contents().lockOrder == Filter(s.lockOrder, db.Contents().locks.Keys) &&
          db.Contents().tasks == (if id in s.tasks then s.tasks[id := Reset(s.tasks[id], now)] else s.tasks) &&
          (r == Cancelled(id) <==> id in s.tasks && Reset(s.tasks[id], now) != s.tasks[id]) &&
          (r != Cancelled(id) ==> r == CancelRefused && db.Contents().histories == s.histories) &&
          (r == Cancelled(id) ==>
            db.Contents().histories ==
              if OnEntry(History(h, c), id) then s.histories[userId := History(h[..c] + h[c + 1..], c - 1)]
              else s.histories))
    {
      if userId == "" || taskId.None? {
        return IdsMissing;
      }
      var id := taskId.value;
      var success := db.ReleaseAnnotationLock(id, userId, now);
      if !success {
        return CancelRefused;
      }
      DropCancelledEntry(userId, id);
      r := Cancelled(id);
    }

    /** The history half of `cancel_current_task`: when the entry under the
        cursor is the cancelled task, remove it and move the cursor back by
        one (never below -1); otherwise leave the history alone. */
    method DropCancelledEntry(userId: UserId, id: TaskId)
      modifies db.userHistory`histories
      ensures var hs := old(db.userHistory.histories);
        var h := TasksOf(hs, userId);
        var c := CursorOf(hs, userId);
        db.userHistory.histories ==
          if OnEntry(History(h, c), id) then hs[userId := History(h[..c] + h[c + 1..], c - 1)] else hs
    {
      var history := db.GetUserTaskHistory(userId);
      var currentIndex := db.GetUserCurrentHistoryIndex(userId);
      if |history| > 0 && 0 <= currentIndex < |history| {
        var currentTask := history[currentIndex];
        if currentTask.id == id {
          var updatedHistory := history[..currentIndex] + history[currentIndex + 1..];
          var _ := db.UpdateHistory(userId, updatedHistory);
          var newIndex := if currentIndex - 1 < -1 then -1 else currentIndex - 1;
          var _ := db.UpdateUserCurrentHistoryIndex(userId, newIndex);
        }
      }
    }

    /** `save_annotations`: sweep and look the task up, then write according
        to its status: an annotated task is overwritten without a lock check,
        an annotating one through the lock-checked completion, and a pending
        one is refused. */
    method SaveAnnotations(userId: UserId, taskId: Option<TaskId>, scores: Scores, userText: string, now: Time)
      returns (r: SaveReply)
      requires Valid()
      modifies db.annotations`tasks, db.annotations`locks, db.annotations`lockOrder, db.userHistory`histories
      ensures Valid()
      ensures userId == "" || taskId.None? ==> r == NotReady && db.Contents() == old(db.Contents())
      ensures userId != "" && taskId.Some? ==>
        var swept := SweepStore(old(db.Contents()), now);
        var id := taskId.value;
        if id !in swept.tasks then r == NotFound(id) && db.Contents() == swept
        else
          var t := swept.tasks[id];
          match t.status
          case Pending => r == StatusRefused(Pending) && db.Contents() == swept
          case Annotated =>
            var e := Edit(t, Some(scores), Some(userText), Some(Annotated), now);
            db.Contents() == swept.(tasks := swept.tasks[id := e]) && (r == Saved <==> e != t) && (r == Saved || r == SaveFailed)
          case Annotating =>
            (r == Saved || r == SaveFailed) &&
            if !Holds(swept.locks, id, userId) then r == SaveFailed && db.Contents() == swept
            else
              var e := LockedEdit(t, userId, Some(scores), Some(userText), Some(Annotated), now);
              var l := if r == Saved then swept.locks - {id} else swept.locks;
              (r == Saved <==> e != t) &&
              db.Contents() ==
                swept.(tasks := swept.tasks[id := e], locks := l,
                       lockOrder := if r == Saved then Filter(swept.lockOrder, l.Keys) else swept.lockOrder)
    {
      if userId == "" || taskId.None? {
        return NotReady;
      }
      var id := taskId.value;
      var task := db.GetAnnotationById(id, now);
      if task.None? {
        return NotFound(id);
      }
      var success;
      match task.value.status {
        case Annotated =>
          success := db.UpdateAnnotationById(id, scores, userText, Annotated, now);
        case Annotating =>
          success := db.UpdateAnnotationWithLock(id, userId, scores, now, userText, Annotated);
        case Pending =>
          return StatusRefused(Pending);
      }
      r := if success then Saved else SaveFailed;
    }

    /** `update_task_in_db`: the unconditioned update to `annotated`; no sweep,
        no lock check. */
    method UpdateTaskInDb(taskId: Option<TaskId>, scores: Scores, userText: string, now: Time) returns (r: UpdateReply)
      requires Valid()
      modifies db.annotations`tasks
      ensures Valid()
      ensures taskId.None? ==> r == EmptyTaskId && db.annotations.tasks == old(db.annotations.tasks)
      ensures taskId.Some? ==>
        var id := taskId.value;
        var s := old(db.annotations.tasks);
        (id !in s ==> r == Unchanged(id) && db.annotations.tasks == s) &&
        (id in s ==>
          var e := Edit(s[id], Some(scores), Some(userText), Some(Annotated), now);
          db.annotations.tasks == s[id := e] && (r == Updated(id) <==> e != s[id]) && (r == Updated(id) || r == Unchanged(id)))
    {
      if taskId.None? {
        return EmptyTaskId;
      }
      var id := taskId.value;
      var success := db.UpdateAnnotationById(id, scores, userText, Annotated, now);
      r := if success then Updated(id) else Unchanged(id);
    }
  }
}
