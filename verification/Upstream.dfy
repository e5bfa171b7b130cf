/** Every task a failing task depends on, and which of them broke first. */
module Upstream {
  import opened Domain
  import opened Listing

  /** The serialised DAG: each task with the tasks directly downstream of it. */
  type Downstream = map<Name, seq<Name>>

  datatype TaskState = Success | FailedTask | UpstreamFailed | Skipped | Removed | Other

  /** One task instance row; mapped tasks have several rows with the same task. */
  datatype Row = Row(task: Name, state: TaskState, endDate: Option<int>)

  predicate Edge(g: Downstream, parent: Name, child: Name) {
    parent in g && child in g[parent]
  }

  /** A walk along downstream edges of at least one edge. */
  ghost predicate Walk(g: Downstream, path: seq<Name>) {
    |path| >= 2 && forall i :: 0 <= i < |path| - 1 ==> Edge(g, path[i], path[i + 1])
  }

  ghost predicate Reaches(g: Downstream, from: Name, to: Name) {
    exists path :: Walk(g, path) && path[0] == from && path[|path| - 1] == to
  }

  function ParentsOf(parents: map<Name, set<Name>>, child: Name): set<Name> {
    if child in parents then parents[child] else {}
  }

  ghost predicate Inverts(parents: map<Name, set<Name>>, g: Downstream) {
    forall p, c :: p in ParentsOf(parents, c) <==> Edge(g, p, c)
  }

  /** Inverts the stored edges, parent by parent and child by child. */
  method InvertEdges(g: Downstream) returns (parents: map<Name, set<Name>>)
    ensures Inverts(parents, g)
  {
    parents := map[];
    var tasks := AnyOrder(g.Keys);
    for k := 0 to |tasks|
      invariant forall p, c :: p in ParentsOf(parents, c) <==> Edge(g, p, c) && p in tasks[..k]
    {
      var parent := tasks[k];
      assert tasks[..k + 1] == tasks[..k] + [parent];
      var before := parents;
      for i := 0 to |g[parent]|
        invariant forall p, c :: p in ParentsOf(parents, c) <==>
                    p in ParentsOf(before, c) || (p == parent && c in g[parent][..i])
      {
        var child := g[parent][i];
        assert g[parent][..i + 1] == g[parent][..i] + [child];
        parents := parents[child := ParentsOf(parents, child) + {parent}];
      }
      assert g[parent][..|g[parent]|] == g[parent];
    }
    assert tasks[..|tasks|] == tasks;
  }

  lemma EdgeReaches(g: Downstream, from: Name, to: Name)
    requires Edge(g, from, to)
    ensures Reaches(g, from, to)
  {
    assert Walk(g, [from, to]);
  }

  lemma EdgeExtends(g: Downstream, from: Name, mid: Name, to: Name)
    requires Edge(g, from, mid) && Reaches(g, mid, to)
    ensures Reaches(g, from, to)
  {
    var path :| Walk(g, path) && path[0] == mid && path[|path| - 1] == to;
    var longer := [from] + path;
    forall i | 0 <= i < |longer| - 1 ensures Edge(g, longer[i], longer[i + 1]) {
      assert i > 0 ==> longer[i] == path[i - 1] && longer[i + 1] == path[i];
    }
    assert Walk(g, longer) && longer[0] == from && longer[|longer| - 1] == to;
  }

  /** A set that holds the target's parents and is closed under parents holds every ancestor. */
  lemma {:induction false} ClosedHoldsAncestors(g: Downstream, seen: set<Name>, path: seq<Name>)
    requires Walk(g, path)
    requires forall p :: Edge(g, p, path[|path| - 1]) ==> p in seen
    requires forall p, c :: c in seen && Edge(g, p, c) ==> p in seen
    ensures path[0] in seen
    decreases |path|
  {
    if |path| == 2 {
      assert Edge(g, path[0], path[1]);
    } else {
      ClosedHoldsAncestors(g, seen, path[1..]);
      assert Edge(g, path[0], path[1]);
    }
  }

  /** The worklist. It stops on any edge map, cyclic or not, with exactly the tasks that lead to the
      given one by a walk of at least one edge. */
  method UpstreamOf(g: Downstream, task: Name) returns (seen: set<Name>)
    ensures forall x :: x in seen <==> Reaches(g, x, task)
  {
    var parents := InvertEdges(g);
    seen := {};
    var frontier := AnyOrder(ParentsOf(parents, task));
    forall x | x in frontier ensures Reaches(g, x, task) && x in g.Keys {
      EdgeReaches(g, x, task);
    }
    while frontier != []
      invariant seen <= g.Keys
      invariant forall x :: x in frontier ==> Reaches(g, x, task) && x in g.Keys
      invariant forall x :: x in seen ==> Reaches(g, x, task)
      invariant forall p :: Edge(g, p, task) ==> p in seen || p in frontier
      invariant forall p, c :: c in seen && Edge(g, p, c) ==> p in seen || p in frontier
      decreases g.Keys - seen, |frontier|
    {
      var current := frontier[|frontier| - 1];
      var rest := frontier[..|frontier| - 1];
      assert frontier == rest + [current];
      if current in seen {
        frontier := rest;
        continue;
      }
      seen := seen + {current};
      var more := AnyOrder(ParentsOf(parents, current));
      forall x | x in more ensures Reaches(g, x, task) && x in g.Keys {
        EdgeExtends(g, x, current, task);
      }
      frontier := rest + more;
    }
    forall x | Reaches(g, x, task) ensures x in seen {
      var path :| Walk(g, path) && path[0] == x && path[|path| - 1] == task;
      ClosedHoldsAncestors(g, seen, path);
    }
  }

  // ---------- Which upstream task broke first ----------

  /** One row per upstream task, the last one read winning. */
  function LastRows(rows: seq<Row>, upstream: set<Name>): map<Name, Row> {
    if rows == [] then map[]
    else
      var last, before := rows[|rows| - 1], LastRows(rows[..|rows| - 1], upstream);
      if last.task in upstream then before[last.task := last] else before
  }

  /** `r` is the last row of its task. */
  predicate IsLastRow(rows: seq<Row>, r: Row) {
    exists i :: 0 <= i < |rows| && rows[i] == r && forall j :: i < j < |rows| ==> rows[j].task != r.task
  }

  lemma StillLast(front: seq<Row>, last: Row, r: Row)
    requires IsLastRow(front, r) && r.task != last.task
    ensures IsLastRow(front + [last], r)
  {
    var i :| 0 <= i < |front| && front[i] == r && forall j :: i < j < |front| ==> front[j].task != r.task;
    assert (front + [last])[i] == r;
  }

  lemma NewestIsLast(front: seq<Row>, last: Row)
    ensures IsLastRow(front + [last], last)
  {
    assert (front + [last])[|front|] == last;
  }

  lemma {:induction false} LastRowsAreLast(rows: seq<Row>, upstream: set<Name>)
    ensures var m := LastRows(rows, upstream);
      && (forall t :: t in m <==> t in upstream && exists i :: 0 <= i < |rows| && rows[i].task == t)
      && (forall t :: t in m ==> m[t].task == t && IsLastRow(rows, m[t]))
  {
    if rows != [] {
      hide IsLastRow;
      var n := |rows| - 1;
      var before, m := LastRows(rows[..n], upstream), LastRows(rows, upstream);
      LastRowsAreLast(rows[..n], upstream);
      assert rows == rows[..n] + [rows[n]];
      NewestIsLast(rows[..n], rows[n]);
      forall t | t in m ensures m[t].task == t && IsLastRow(rows, m[t]) {
        if t != rows[n].task {
          StillLast(rows[..n], rows[n], m[t]);
        }
      }
      forall t | t in upstream && exists i :: 0 <= i < |rows| && rows[i].task == t ensures t in m {
        var i :| 0 <= i < |rows| && rows[i].task == t;
        assert i < n ==> rows[..n][i].task == t;
      }
    }
  }

  function InOrder(states: map<Name, Row>, names: seq<Name>): seq<Row>
    requires forall i :: 0 <= i < |names| ==> names[i] in states
  {
    seq(|names|, i requires 0 <= i < |names| => states[names[i]])
  }

  /** The rows in state failed, in the same order. */
  function Genuine(list: seq<Row>): seq<Row> {
    if list == [] then []
    else (if list[0].state == FailedTask then [list[0]] else []) + Genuine(list[1..])
  }

  function Dated(list: seq<Row>): seq<Row> {
    if list == [] then []
    else (if list[0].endDate.Some? then [list[0]] else []) + Dated(list[1..])
  }

  /** The row that ended first, the earliest in the list on a tie. */
  function EndedFirst(list: seq<Row>): (first: Row)
    requires list != [] && forall r :: r in list ==> r.endDate.Some?
    ensures first in list
  {
    assert list[0] in list;
    if |list| == 1 then list[0]
    else
      var rest := EndedFirst(list[1..]);
      if list[0].endDate.value <= rest.endDate.value then list[0] else rest
  }

  lemma {:induction false} DatedAreDated(list: seq<Row>)
    ensures forall r :: r in Dated(list) <==> r in list && r.endDate.Some?
  {
    if list != [] {
      DatedAreDated(list[1..]);
    }
  }

  lemma {:induction false} GenuineAreFailed(list: seq<Row>)
    ensures forall r :: r in Genuine(list) <==> r in list && r.state == FailedTask
  {
    if list != [] {
      GenuineAreFailed(list[1..]);
    }
  }

  function EarliestGenuineFailure(list: seq<Row>): Option<Name> {
    var genuine := Genuine(list);
    if genuine == [] then None
    else
      var dated := Dated(genuine);
      DatedAreDated(genuine);
      if dated == [] then Some(genuine[0].task) else Some(EndedFirst(dated).task)
  }

  predicate Ascending(list: seq<Row>) {
    forall i, j :: 0 <= i < j < |list| ==> list[i].task < list[j].task
  }

  lemma FrontStaysAscending(r: Row, list: seq<Row>)
    requires Ascending(list) && forall x :: x in list ==> r.task < x.task
    ensures Ascending([r] + list)
  {}

  lemma TailAscends(list: seq<Row>)
    requires list != [] && Ascending(list)
    ensures Ascending(list[1..]) && forall x :: x in list[1..] ==> list[0].task < x.task
  {}

  lemma {:induction false} FiltersStayAscending(list: seq<Row>)
    requires Ascending(list)
    ensures Ascending(Genuine(list)) && Ascending(Dated(list))
  {
    if list != [] {
      var rest := list[1..];
      TailAscends(list);
      FiltersStayAscending(rest);
      GenuineAreFailed(rest);
      DatedAreDated(rest);
      hide Ascending;
      FrontStaysAscending(list[0], Genuine(rest));
      FrontStaysAscending(list[0], Dated(rest));
      assert [] + Genuine(rest) == Genuine(rest) && [] + Dated(rest) == Dated(rest);
    }
  }

  /** No row of an ascending list comes before the one that ended first. */
  predicate First(r: Row, list: seq<Row>) {
    && r in list && r.endDate.Some?
    && (forall x :: x in list ==>
          && x.endDate.Some?
          && (r.endDate.value < x.endDate.value || (r.endDate.value == x.endDate.value && r.task <= x.task)))
  }

  lemma AloneIsFirst(r: Row)
    requires r.endDate.Some?
    ensures First(r, [r])
  {}

  lemma FrontOrRest(front: Row, r: Row, rest: seq<Row>)
    requires First(r, rest) && front.endDate.Some? && forall x :: x in rest ==> front.task < x.task
    ensures First(if front.endDate.value <= r.endDate.value then front else r, [front] + rest)
  {}

  lemma {:induction false} EndedFirstIsFirst(list: seq<Row>)
    requires list != [] && Ascending(list) && forall r :: r in list ==> r.endDate.Some?
    ensures First(EndedFirst(list), list)
  {
    hide First, Ascending;
    if |list| == 1 {
      AloneIsFirst(list[0]);
      assert list == [list[0]];
    } else {
      assert list == [list[0]] + list[1..];
      TailAscends(list);
      EndedFirstIsFirst(list[1..]);
      FrontOrRest(list[0], EndedFirst(list[1..]), list[1..]);
    }
  }

  /** `r` explains the failure: a failed row that ended no later than any dated failed row, with ties
      and undated rows settled by task order. */
  predicate Explains(r: Row, list: seq<Row>) {
    && r in list && r.state == FailedTask
    && (forall x :: x in list && x.state == FailedTask && x.endDate.Some? ==>
          && r.endDate.Some?
          && (r.endDate.value < x.endDate.value || (r.endDate.value == x.endDate.value && r.task <= x.task)))
    && (r.endDate.None? ==> forall x :: x in list && x.state == FailedTask ==> r.task <= x.task)
  }

  lemma NoneGenuine(list: seq<Row>)
    ensures Genuine(list) == [] <==> forall x :: x in list ==> x.state != FailedTask
  {
    GenuineAreFailed(list);
    hide Genuine;
    if Genuine(list) != [] {
      assert Genuine(list)[0] in Genuine(list);
    }
  }

  lemma DatedExplains(r: Row, list: seq<Row>)
    requires First(r, Dated(Genuine(list)))
    ensures Explains(r, list)
  {
    GenuineAreFailed(list);
    DatedAreDated(Genuine(list));
    hide Genuine, Dated;
  }

  lemma UndatedExplains(list: seq<Row>)
    requires Ascending(list) && Genuine(list) != [] && Dated(Genuine(list)) == []
    ensures Explains(Genuine(list)[0], list)
  {
    var genuine := Genuine(list);
    GenuineAreFailed(list);
    DatedAreDated(genuine);
    FiltersStayAscending(list);
    hide Genuine, Dated;
    assert genuine[0] in genuine;
    forall x | x in genuine ensures genuine[0].task <= x.task {
      var i :| 0 <= i < |genuine| && genuine[i] == x;
    }
  }

  lemma RootFailureExplains(list: seq<Row>)
    requires Ascending(list)
    ensures EarliestGenuineFailure(list).None? <==> forall x :: x in list ==> x.state != FailedTask
    ensures EarliestGenuineFailure(list).Some? ==>
              exists r :: Explains(r, list) && r.task == EarliestGenuineFailure(list).value
  {
    var dated := Dated(Genuine(list));
    NoneGenuine(list);
    if dated != [] {
      FiltersStayAscending(list);
      FiltersStayAscending(Genuine(list));
      DatedAreDated(Genuine(list));
      hide Genuine, Dated, EndedFirst, Ascending, Explains, First;
      EndedFirstIsFirst(dated);
      DatedExplains(EndedFirst(dated), list);
    } else if Genuine(list) != [] {
      hide Dated, Ascending, Explains;
      UndatedExplains(list);
    }
  }

  predicate Unsuccessful(state: TaskState) {
    state == FailedTask || state == UpstreamFailed || state == Skipped || state == Removed
  }

  /** The last rows of the upstream tasks, in task order. */
  function Report(rows: seq<Row>, upstream: set<Name>): seq<Row> {
    SortedListsTheSet(LastRows(rows, upstream).Keys);
    var names := Sorted(LastRows(rows, upstream).Keys);
    assert forall i :: 0 <= i < |names| ==> names[i] in names;
    InOrder(LastRows(rows, upstream), names)
  }

  lemma ReportIsComplete(rows: seq<Row>, upstream: set<Name>)
    ensures var list := Report(rows, upstream);
      && Ascending(list)
      && (forall r :: r in list ==> r.task in upstream && IsLastRow(rows, r))
      && (forall i :: 0 <= i < |rows| && rows[i].task in upstream ==>
            exists r :: r in list && r.task == rows[i].task)
  {
    hide IsLastRow, LastRows;
    var m, list := LastRows(rows, upstream), Report(rows, upstream);
    var names := Sorted(m.Keys);
    LastRowsAreLast(rows, upstream);
    SortedListsTheSet(m.Keys);
    forall k | 0 <= k < |list|
      ensures list[k].task == names[k] && list[k].task in upstream && IsLastRow(rows, list[k])
    {
      assert names[k] in names;
    }
    forall i | 0 <= i < |rows| && rows[i].task in upstream
      ensures exists r :: r in list && r.task == rows[i].task
    {
      assert rows[i].task in names;
      var k :| 0 <= k < |names| && names[k] == rows[i].task;
      assert list[k] in list;
    }
  }

  /** The row at `i` is the last one of its task. */
  predicate LastAt(rows: seq<Row>, i: nat)
    requires i < |rows|
  {
    forall j :: i < j < |rows| ==> rows[j].task != rows[i].task
  }

  /** Some upstream task failed by its last row. */
  ghost predicate FailedLast(rows: seq<Row>, upstream: set<Name>) {
    exists i :: 0 <= i < |rows| && rows[i].task in upstream && rows[i].state == FailedTask && LastAt(rows, i)
  }

  lemma OneLastRow(rows: seq<Row>, r: Row, i: nat)
    requires IsLastRow(rows, r) && i < |rows| && rows[i].task == r.task && LastAt(rows, i)
    ensures rows[i] == r
  {}

  /** A root failure is found if and only if some upstream task's last row failed; a failed row followed
      by another row of its task does not count. */
  lemma RootFoundExactlyWhen(rows: seq<Row>, upstream: set<Name>)
    ensures EarliestGenuineFailure(Report(rows, upstream)).Some? <==> FailedLast(rows, upstream)
  {
    hide EarliestGenuineFailure, Report, IsLastRow;
    var list := Report(rows, upstream);
    ReportIsComplete(rows, upstream);
    RootFailureExplains(list);
    if FailedLast(rows, upstream) {
      var i :| 0 <= i < |rows| && rows[i].task in upstream && rows[i].state == FailedTask && LastAt(rows, i);
      var r :| r in list && r.task == rows[i].task;
      OneLastRow(rows, r, i);
    }
    if r :| r in list && r.state == FailedTask {
      LastRowHasAPlace(rows, r);
    }
  }

  lemma LastRowHasAPlace(rows: seq<Row>, r: Row)
    requires IsLastRow(rows, r)
    ensures exists i :: 0 <= i < |rows| && rows[i] == r && LastAt(rows, i)
  {
    var i :| 0 <= i < |rows| && rows[i] == r && forall j :: i < j < |rows| ==> rows[j].task != r.task;
    assert LastAt(rows, i);
  }

  /** The tasks that did not succeed, in report order. */
  function NotSucceeded(list: seq<Row>): seq<Name> {
    if list == [] then []
    else (if Unsuccessful(list[0].state) then [list[0].task] else []) + NotSucceeded(list[1..])
  }

  lemma {:induction false} NotSucceededAre(list: seq<Row>)
    requires Ascending(list)
    ensures forall t :: t in NotSucceeded(list) <==> exists r :: r in list && r.task == t && Unsuccessful(r.state)
    ensures forall i, j :: 0 <= i < j < |NotSucceeded(list)| ==> NotSucceeded(list)[i] < NotSucceeded(list)[j]
  {
    if list != [] {
      var rest := NotSucceeded(list[1..]);
      TailAscends(list);
      hide Ascending;
      NotSucceededAre(list[1..]);
      assert list == [list[0]] + list[1..];
      forall k | 0 <= k < |rest| ensures list[0].task < rest[k] {
        assert rest[k] in rest;
      }
    }
  }

  /** The tool's report: upstream tasks in order with their last row, and the one that broke first. */
  method Execute(g: Downstream, task: Name, rows: seq<Row>)
    returns (upstream: seq<Row>, failed: seq<Name>, rootFailure: Option<Name>, allSucceeded: bool)
    ensures Ascending(upstream)
    ensures forall r :: r in upstream ==> Reaches(g, r.task, task) && IsLastRow(rows, r)
    ensures forall i :: 0 <= i < |rows| && Reaches(g, rows[i].task, task) ==>
              exists r :: r in upstream && r.task == rows[i].task
    ensures rootFailure.None? <==> forall r :: r in upstream ==> r.state != FailedTask
    ensures rootFailure.Some? ==> exists r :: Explains(r, upstream) && r.task == rootFailure.value
    ensures forall t :: t in failed <==> exists r :: r in upstream && r.task == t && Unsuccessful(r.state)
    ensures forall i, j :: 0 <= i < j < |failed| ==> failed[i] < failed[j]
    ensures forall r :: r in upstream ==> (r.task !in failed <==> r.state == Success || r.state == Other)
    ensures allSucceeded <==> forall r :: r in upstream ==> r.state == Success || r.state == Other
  {
    hide Reaches, IsLastRow, Explains, EarliestGenuineFailure, LastRows;
    var ids := UpstreamOf(g, task);
    ReportIsComplete(rows, ids);
    upstream := Report(rows, ids);
    RootFailureExplains(upstream);
    rootFailure := EarliestGenuineFailure(upstream);
    NotSucceededAre(upstream);
    OneRowPerTask(upstream);
    failed := NotSucceeded(upstream);
    allSucceeded := failed == [];
    NoneFailed(upstream, failed);
  }

  lemma OneRowPerTask(list: seq<Row>)
    requires Ascending(list)
    ensures forall r, x :: r in list && x in list && r.task == x.task ==> r == x
  {
    forall r, x | r in list && x in list && r.task == x.task ensures r == x {
      var i :| 0 <= i < |list| && list[i] == r;
      var j :| 0 <= j < |list| && list[j] == x;
    }
  }

  lemma NoneFailed(list: seq<Row>, failed: seq<Name>)
    requires forall t :: t in failed <==> exists r :: r in list && r.task == t && Unsuccessful(r.state)
    ensures failed == [] <==> forall r :: r in list ==> !Unsuccessful(r.state)
  {
    if failed != [] {
      assert failed[0] in failed;
      var r :| r in list && r.task == failed[0] && Unsuccessful(r.state);
    }
    if r :| r in list && Unsuccessful(r.state) {
      assert r.task in failed;
    }
  }

  /** A mapped upstream task whose failed instance is not its last row is not reported at all. */
  lemma AMappedFailureCanBeHidden()
    ensures var rows := [Row(1, FailedTask, Some(5)), Row(1, Success, Some(6))];
      EarliestGenuineFailure(Report(rows, {1})).None?
  {
    var rows := [Row(1, FailedTask, Some(5)), Row(1, Success, Some(6))];
    RootFoundExactlyWhen(rows, {1});
    hide EarliestGenuineFailure, Report;
    assert rows[1].task == rows[0].task && rows[1].state != FailedTask;
  }
}
