/** The reviewer's controller (core/review_interface.py): the paged task
    listing with its status filter and role-based visibility, and the
    reviewer's direct update. */
module ReviewInterface {
  import opened Records
  import opened Ordering
  import opened AnnotationStore
  import opened UserStore
  import opened DatabaseFacade

  // ---------------------------------------------------------------------
  // The query

  /** The listing's filter: an optional status, an optional editor, or the
      clause `{"_id": {"$exists": false}}` that matches nothing. */
  datatype Query = Query(status: Option<string>, lastUpdatedBy: Option<UserId>, matchNothing: bool)

  predicate IsAdmin(role: string)
  {
    role == "admin" || role == "super_admin"
  }

  /** The query `load_task_list` builds. */
  function BuildQuery(filterStatus: string, role: string, userId: UserId): Query
  {
    var status := if filterStatus == "all" then None else Some(filterStatus);
    if IsAdmin(role) then Query(status, None, false)
    else if userId != "" then Query(status, Some(userId), false)
    else Query(status, None, true)
  }

  predicate Selects(q: Query, t: Task)
  {
    !q.matchNothing &&
    (q.status.None? || StatusName(t.status) == q.status.value) &&
    (q.lastUpdatedBy.None? || t.lastUpdatedBy == Some(q.lastUpdatedBy.value))
  }

  /** Who sees what: "all" imposes no status constraint and any other filter
      must equal the status; admins see every task, other roles only the
      tasks they last updated, and nothing at all without a user id. */
  lemma VisibilityRules(filterStatus: string, role: string, userId: UserId, t: Task)
    ensures Selects(BuildQuery(filterStatus, role, userId), t) <==>
      (filterStatus == "all" || StatusName(t.status) == filterStatus) &&
      (IsAdmin(role) || (userId != "" && t.lastUpdatedBy == Some(userId)))
  {
  }

  /** The tasks of `docs` the query selects, in their order. */
  function Matching(docs: seq<Task>, q: Query): (r: seq<Task>)
    ensures |r| <= |docs|
    decreases |docs|
  {
    if docs == [] then []
    else (if Selects(q, docs[0]) then [docs[0]] else []) + Matching(docs[1..], q)
  }

  /** The result holds exactly the selected documents. */
  lemma {:induction false} MatchingMembers(docs: seq<Task>, q: Query)
    ensures forall t :: t in Matching(docs, q) <==> t in docs && Selects(q, t)
    decreases |docs|
  {
    if docs != [] {
      MatchingMembers(docs[1..], q);
      assert docs == [docs[0]] + docs[1..];
    }
  }

  /** Filtering one more document extends the result by it exactly when it
      is selected. */
  lemma {:induction false} MatchingSnoc(docs: seq<Task>, t: Task, q: Query)
    ensures Matching(docs + [t], q) == Matching(docs, q) + (if Selects(q, t) then [t] else [])
    decreases |docs|
  {
    if docs == [] {
      assert [] + [t] == [t];
      assert Matching([t], q) == (if Selects(q, t) then [t] else []) + Matching([], q);
    } else {
      assert (docs + [t])[0] == docs[0];
      assert (docs + [t])[1..] == docs[1..] + [t];
      MatchingSnoc(docs[1..], t, q);
    }
  }

  // ---------------------------------------------------------------------
  // Paging

  /** `skip = (page - 1) * page_size`. */
  function Offset(page: int, pageSize: nat): int
  {
    (page - 1) * pageSize
  }

  /** The offset is negative exactly for the pages before the first. */
  lemma OffsetSign(page: int, pageSize: nat)
    requires pageSize >= 1
    ensures Offset(page, pageSize) < 0 <==> page < 1
  {
    if page >= 1 {
      MulMonotone(0, page - 1, pageSize);
    } else {
      var m: nat := 1 - page;
      MulMonotone(1, m, pageSize);
      assert Offset(page, pageSize) == -(m * pageSize);
    }
  }

  /** `max(1, (total + page_size - 1) // page_size)`; the operands are not
      negative, so Python's floor division and Dafny's coincide. */
  function TotalPages(total: nat, pageSize: nat): (r: nat)
    requires pageSize >= 1
  {
    var q := (total + pageSize - 1) / pageSize;
    if q < 1 then 1 else q
  }

  /** The page count is at least one, and is the least number of pages that
      holds every result: with `r` pages of `pageSize` rows, the results all
      fit, and with `r - 1` they do not (unless there are none). */
  lemma {:induction false} TotalPagesIsCeiling(total: nat, pageSize: nat)
    requires pageSize >= 1
    ensures TotalPages(total, pageSize) >= 1
    ensures total <= TotalPages(total, pageSize) * pageSize
    ensures total > 0 ==> (TotalPages(total, pageSize) - 1) * pageSize < total
    ensures total == 0 ==> TotalPages(total, pageSize) == 1
  {
    var q := (total + pageSize - 1) / pageSize;
    var m := (total + pageSize - 1) % pageSize;
    assert total + pageSize - 1 == q * pageSize + m && 0 <= m < pageSize;
    if total == 0 {
      assert q == 0;
    } else {
      assert q >= 1;
      assert q * pageSize <= total + pageSize - 1;
      assert (q - 1) * pageSize == q * pageSize - pageSize;
    }
  }

  /** Every result lands on a page that the page count includes. */
  lemma {:induction false} EveryResultOnSomePage(total: nat, pageSize: nat, i: nat)
    requires pageSize >= 1 && i < total
    ensures 1 <= i / pageSize + 1 <= TotalPages(total, pageSize)
    ensures Offset(i / pageSize + 1, pageSize) <= i < Offset(i / pageSize + 1, pageSize) + pageSize
  {
    TotalPagesIsCeiling(total, pageSize);
    var p := i / pageSize;
    assert p * pageSize <= i;
    var tp := TotalPages(total, pageSize);
    if p + 1 > tp {
      assert tp * pageSize <= p * pageSize by {
        MulMonotone(tp, p, pageSize);
      }
      assert false;
    }
  }

  lemma MulMonotone(a: nat, b: nat, c: nat)
    requires a <= b
    ensures a * c <= b * c
  {
  }

  /** `.skip(skip).limit(limit)` on a result sequence. */
  function PageOf(xs: seq<Task>, skip: nat, limit: nat): (r: seq<Task>)
    ensures |r| <= limit
    ensures skip + |r| <= |xs| || r == []
    ensures forall j :: 0 <= j < |r| ==> r[j] == xs[skip + j]
    ensures |r| == if skip >= |xs| then 0 else if skip + limit <= |xs| then limit else |xs| - skip
  {
    if skip >= |xs| then [] else xs[skip..if skip + limit <= |xs| then skip + limit else |xs|]
  }

  // ---------------------------------------------------------------------
  // Rows

  /** One row of the table: id, method, image, status, editor's name, and
      the update time (rendered as `str(...)`, so "None" when unset). */
  datatype Row = Row(id: TaskId, methodName: string, imageName: string, status: string,
                     userName: string, updatedAt: Option<Time>)

  function MetaOr(m: map<string, string>, key: string): string
  {
    if key in m then m[key] else "N/A"
  }

  /** The editor's name: looked up only for a non-empty editor id, "Unknown"
      when there is none or nobody has that id. */
  function EditorName(users: seq<UserDoc>, lastUpdatedBy: Option<UserId>): (r: string)
    ensures lastUpdatedBy.None? || lastUpdatedBy == Some("") ==> r == "Unknown"
    ensures lastUpdatedBy.Some? && lastUpdatedBy.value != "" && r != "Unknown" ==>
      exists j :: 0 <= j < |users| && users[j].userId == lastUpdatedBy.value && users[j].username == r
  {
    if lastUpdatedBy.None? || lastUpdatedBy.value == "" then "Unknown"
    else match FirstMatch(users, ByUserId(lastUpdatedBy.value))
      case None => "Unknown"
      case Some(i) => users[i].username
  }

  /** For a non-empty editor id the name is that of the earliest registered
      user with the id, and "Unknown" when nobody has it. */
  lemma EditorNameLookup(users: seq<UserDoc>, editor: UserId)
    requires editor != ""
    ensures (forall j :: 0 <= j < |users| ==> users[j].userId != editor) ==> EditorName(users, Some(editor)) == "Unknown"
    ensures (exists j :: 0 <= j < |users| && users[j].userId == editor) ==>
      exists j :: 0 <= j < |users| && users[j].userId == editor && users[j].username == EditorName(users, Some(editor)) &&
        forall k :: 0 <= k < j ==> users[k].userId != editor
  {
  }

  function RowOf(t: Task, users: seq<UserDoc>): Row
  {
    Row(t.id, MetaOr(t.metadata, "method_name"), MetaOr(t.metadata, "image_name"), StatusName(t.status),
        EditorName(users, t.lastUpdatedBy), t.updatedAt)
  }

  /** What `load_task_list` returns, or the error the driver raises for a
      negative skip. */
  datatype Listing = Page(rows: seq<Row>, totalPages: nat, page: int) | NegativeSkip

  /** The task collection in its natural order: insertion order, which is
      ascending id order. */
  ghost function InIdOrder(tasks: map<TaskId, Task>): (r: seq<Task>)
    ensures |r| == |tasks|
  {
    AscendingListsSet(tasks.Keys);
    TasksAt(tasks, Ascending(tasks.Keys))
  }

  /** The natural order lists the records by ascending id, and every stored
      record appears in it. */
  lemma InIdOrderLists(tasks: map<TaskId, Task>)
    ensures var r := InIdOrder(tasks); var ids := Ascending(tasks.Keys);
      |ids| == |r| && (forall i :: 0 <= i < |r| ==> ids[i] in tasks && r[i] == tasks[ids[i]]) &&
      (forall i, j :: 0 <= i < j < |ids| ==> ids[i] < ids[j]) &&
      forall k :: k in tasks ==> exists i :: 0 <= i < |r| && r[i] == tasks[k]
  {
    var ids := Ascending(tasks.Keys);
    AscendingListsSet(tasks.Keys);
    var r := InIdOrder(tasks);
    forall k | k in tasks
      ensures exists i :: 0 <= i < |r| && r[i] == tasks[k]
    {
      var i :| 0 <= i < |ids| && ids[i] == k;
      assert r[i] == tasks[k];
    }
  }

  /** The records stored under `ids`, in that order. */
  function TasksAt(tasks: map<TaskId, Task>, ids: seq<TaskId>): (r: seq<Task>)
    requires forall i :: 0 <= i < |ids| ==> ids[i] in tasks
    ensures |r| == |ids| && forall i :: 0 <= i < |ids| ==> r[i] == tasks[ids[i]]
  {
    seq(|ids|, i requires 0 <= i < |ids| => tasks[ids[i]])
  }

  /** The query run over the records stored under `ids`, in that order. */
  method Select(tasks: map<TaskId, Task>, ids: seq<TaskId>, query: Query) returns (matched: seq<Task>)
    requires forall i :: 0 <= i < |ids| ==> ids[i] in tasks
    ensures matched == Matching(TasksAt(tasks, ids), query)
  {
    ghost var docs := TasksAt(tasks, ids);
    matched := [];
    var i := 0;
    while i < |ids|
      invariant 0 <= i <= |ids|
      invariant matched == Matching(docs[..i], query)
    {
      var doc := tasks[ids[i]];
      assert docs[..i + 1] == docs[..i] + [doc];
      MatchingSnoc(docs[..i], doc, query);
      if Selects(query, doc) {
        matched := matched + [doc];
      }
      i := i + 1;
    }
    assert docs[..|ids|] == docs;
  }

  class ReviewBusinessLogic {
    const db: Database

    ghost predicate Valid()
      reads this, db, db.annotations
    {
      db.Valid() && db.annotations.LeaseCoupled()
    }

    constructor (db: Database)
      requires db.Valid() && db.annotations.LeaseCoupled()
      ensures this.db == db && Valid()
    {
      this.db := db;
    }

    /** The results `load_task_list` pages through. */
    ghost function Results(filterStatus: string, role: string, userId: UserId): seq<Task>
      reads this, db, db.annotations
    {
      Matching(InIdOrder(db.annotations.tasks), BuildQuery(filterStatus, role, userId))
    }

    /** `load_task_list`: one row per task of the requested page, the page
        count, and the page echoed back. */
    method LoadTaskList(page: int, pageSize: nat, filterStatus: string, role: string := "admin", userId: UserId := "")
      returns (r: Listing)
      requires pageSize >= 1
      ensures page < 1 <==> r == NegativeSkip
      ensures page >= 1 ==>
        var results := Results(filterStatus, role, userId);
        var shown := PageOf(results, Offset(page, pageSize), pageSize);
        r.Page? && r.page == page &&
        r.totalPages == TotalPages(|results|, pageSize) &&
        |r.rows| == |shown| &&
        forall j :: 0 <= j < |shown| ==> r.rows[j] == RowOf(shown[j], db.user.users)
    {
      var skip := (page - 1) * pageSize;
      OffsetSign(page, pageSize);
      if skip < 0 {
        return NegativeSkip;
      }
      var matched := Find(BuildQuery(filterStatus, role, userId));
      assert matched == Results(filterStatus, role, userId);
      var shown := PageOf(matched, skip, pageSize);
      var rows := TableRows(shown);
      r := Page(rows, TotalPages(|matched|, pageSize), page);
    }

    /** `find(query)`: the selected tasks in the collection's natural order. */
    method Find(query: Query) returns (matched: seq<Task>)
      ensures matched == Matching(InIdOrder(db.annotations.tasks), query)
    {
      var tasks := db.annotations.tasks;
      var ids := SortedIds(tasks.Keys);
      AscendingListsSet(tasks.Keys);
      matched := Select(tasks, ids, query);
    }

    /** The `table_data` loop: one row per shown task, the editor's name
        looked up in the user registry. */
    method TableRows(shown: seq<Task>) returns (rows: seq<Row>)
      ensures |rows| == |shown|
      ensures forall k :: 0 <= k < |shown| ==> rows[k] == RowOf(shown[k], db.user.users)
    {
      rows := [];
      var j := 0;
      while j < |shown|
        invariant 0 <= j <= |shown|
        invariant |rows| == j
        invariant forall k :: 0 <= k < j ==> rows[k] == RowOf(shown[k], db.user.users)
      {
        var doc := shown[j];
        var userName := "Unknown";
        if doc.lastUpdatedBy.Some? && doc.lastUpdatedBy.value != "" {
          var user := db.GetUserById(doc.lastUpdatedBy.value);
          userName := if user.Some? then user.value.username else "Unknown";
        }
        rows := rows + [Row(doc.id, MetaOr(doc.metadata, "method_name"), MetaOr(doc.metadata, "image_name"),
                            StatusName(doc.status), userName, doc.updatedAt)];
        j := j + 1;
      }
    }

    /** `update_task_in_db`: reject an empty id, otherwise the unconditioned
        update to `annotated`. */
    method UpdateTaskInDb(taskId: Option<TaskId>, scores: Scores, userText: string, now: Time) returns (ok: Option<bool>)
      requires Valid()
      modifies db.annotations`tasks
      ensures Valid()
      ensures taskId.None? ==> ok.None? && db.annotations.tasks == old(db.annotations.tasks)
      ensures taskId.Some? ==>
        var id := taskId.value;
        var s := old(db.annotations.tasks);
        (id !in s ==> ok == Some(false) && db.annotations.tasks == s) &&
        (id in s ==>
          var e := Edit(s[id], Some(scores), Some(userText), Some(Annotated), now);
          db.annotations.tasks == s[id := e] && ok == Some(e != s[id]))
    {
      if taskId.None? {
        return None;
      }
      var success := db.UpdateAnnotationById(taskId.value, scores, userText, Annotated, now);
      ok := Some(success);
    }
  }
}
