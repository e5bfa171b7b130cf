/** Workers racing on get_or_create: find, insert-or-conflict and re-find interleaved freely, with the
    database's unique constraint and row locks as the only arbiter. */
module IncidentRace {
  import opened Storage

  /** Where one call stands. `seen` is the delivery count it read; `holds` is written but uncommitted. */
  datatype Progress =
    | Fresh
    | Absent
    | Seen(seen: nat)
    | Conflicted
    | Inserted
    | Counted(count: nat)
    | Done(created: bool)
    | Aborted
    | Unexplained

  datatype Call = Call(incident: Identity, progress: Progress)

  /** A row's key is minted by the call that inserts it, so the call's own index stands for it. */
  datatype Row = Row(key: nat, incident: Identity, deliveryCount: nat)

  /** The committed rows, and every call in flight or finished. */
  datatype Table = Table(rows: seq<Row>, calls: seq<Call>)

  datatype Action =
    | Find(call: nat)
    | Insert(call: nat)
    | Refind(call: nat)
    | Flush(call: nat)
    | Commit(call: nat)
    | Abort(call: nat)

  /** The index of the committed row of an incident, or the number of rows when there is none. */
  function RowOf(rows: seq<Row>, id: Identity): (i: nat)
    ensures i <= |rows|
    ensures i < |rows| ==> rows[i].incident == id
    ensures i == |rows| <==> forall j :: 0 <= j < |rows| ==> rows[j].incident != id
  {
    if rows == [] then 0
    else if rows[0].incident == id then 0
    else 1 + RowOf(rows[1..], id)
  }

  function Found(t: Table, id: Identity): Progress {
    var i := RowOf(t.rows, id);
    if i < |t.rows| then Seen(t.rows[i].deliveryCount) else Absent
  }

  /** Another transaction holds the incident's row, or its pending insert. */
  predicate Locked(t: Table, id: Identity) {
    exists i :: 0 <= i < |t.calls| && t.calls[i].incident == id
      && (t.calls[i].progress.Inserted? || t.calls[i].progress.Counted?)
  }

  function Put(t: Table, i: nat, progress: Progress): Table
    requires i < |t.calls|
  {
    t.(calls := t.calls[i := t.calls[i].(progress := progress)])
  }

  function Recount(rows: seq<Row>, k: nat, count: nat): seq<Row>
    requires k < |rows|
  {
    rows[k := rows[k].(deliveryCount := count)]
  }

  /** One step of one call; a step that is not due, or has to wait for a lock, changes nothing. */
  function Apply(t: Table, a: Action): Table {
    var i := a.call;
    if i >= |t.calls| then t
    else
      var id, progress := t.calls[i].incident, t.calls[i].progress;
      match a
      case Find(_) => if progress == Fresh then Put(t, i, Found(t, id)) else t
      case Insert(_) =>
        if progress != Absent || Locked(t, id) then t
        else Put(t, i, if RowOf(t.rows, id) < |t.rows| then Conflicted else Inserted)
      case Refind(_) =>
        if progress != Conflicted then t
        else Put(t, i, if Found(t, id) == Absent then Unexplained else Found(t, id))
      case Flush(_) =>
        if !progress.Seen? || Locked(t, id) then t else Put(t, i, Counted(progress.seen + 1))
      case Commit(_) =>
        if progress.Inserted? then Put(t.(rows := t.rows + [Row(i, id, 1)]), i, Done(true))
        else if progress.Counted? && RowOf(t.rows, id) < |t.rows| then
          Put(t.(rows := Recount(t.rows, RowOf(t.rows, id), progress.count)), i, Done(false))
        else t
      case Abort(_) => if progress.Done? then t else Put(t, i, Aborted)
  }

  function RunActions(t: Table, actions: seq<Action>): Table
    decreases |actions|
  {
    if actions == [] then t else RunActions(Apply(t, actions[0]), actions[1..])
  }

  /** Any number of calls for any incidents, none of them begun. */
  function Start(ids: seq<Identity>): Table {
    Table([], seq(|ids|, i requires 0 <= i < |ids| => Call(ids[i], Fresh)))
  }

  /** How many calls for an incident have committed. */
  function Committed(calls: seq<Call>, id: Identity): nat {
    if calls == [] then 0
    else
      var last := calls[|calls| - 1];
      Committed(calls[..|calls| - 1], id)
      + if last.incident == id && last.progress.Done? then 1 else 0
  }

  predicate HasRow(t: Table, id: Identity) { RowOf(t.rows, id) < |t.rows| }

  predicate Holding(c: Call) { c.progress.Inserted? || c.progress.Counted? }

  predicate CallFits(t: Table, i: nat)
    requires i < |t.calls|
  {
    match t.calls[i].progress
    case Inserted => !HasRow(t, t.calls[i].incident)
    case Fresh => true
    case Absent => true
    case Aborted => true
    case Unexplained => false
    case _ => HasRow(t, t.calls[i].incident)
  }

  /** Rows have distinct incidents, and each was inserted by a call that committed as its creator. */
  ghost predicate RowsFit(t: Table) {
    && (forall i, j :: 0 <= i < j < |t.rows| ==> t.rows[i].incident != t.rows[j].incident)
    && (forall k :: 0 <= k < |t.rows| ==>
          t.rows[k].key < |t.calls| && t.calls[t.rows[k].key] == Call(t.rows[k].incident, Done(true)))
  }

  /** Creators have distinct incidents, and so do the calls holding a lock. */
  ghost predicate CallsApart(calls: seq<Call>) {
    && (forall i, j :: 0 <= i < j < |calls| && calls[i].progress == Done(true) && calls[j].progress == Done(true) ==>
          calls[i].incident != calls[j].incident)
    && (forall i, j :: 0 <= i < j < |calls| && Holding(calls[i]) && Holding(calls[j]) ==>
          calls[i].incident != calls[j].incident)
  }

  ghost predicate OneRowEach(t: Table) {
    RowsFit(t) && CallsApart(t.calls) && forall i :: 0 <= i < |t.calls| ==> CallFits(t, i)
  }

  lemma StartIsOneRowEach(ids: seq<Identity>)
    ensures OneRowEach(Start(ids))
  {}

  /** Growing the rows, or changing their counts, loses no row. */
  lemma RowsStay(t: Table, t': Table, id: Identity)
    requires |t.rows| <= |t'.rows|
    requires forall k :: 0 <= k < |t.rows| ==> t'.rows[k].incident == t.rows[k].incident
    ensures HasRow(t, id) ==> HasRow(t', id)
    ensures HasRow(t', id) ==> HasRow(t, id) || t'.rows[RowOf(t'.rows, id)] in t'.rows[|t.rows|..]
  {}

  /** A call moving on without touching rows. */
  lemma PuttingKeeps(t: Table, i: nat, progress: Progress)
    requires OneRowEach(t) && i < |t.calls| && !t.calls[i].progress.Done? && !progress.Done?
    requires CallFits(Put(t, i, progress), i)
    requires progress.Inserted? || progress.Counted? ==> !Locked(t, t.calls[i].incident)
    ensures OneRowEach(Put(t, i, progress))
  {
    hide RowOf;
    var t' := Put(t, i, progress);
    forall j | 0 <= j < |t'.calls| ensures CallFits(t', j) {
      assert j != i ==> CallFits(t, j);
    }
  }

  /** An incident whose insert is pending has no committed creator. */
  lemma NotYetCreated(t: Table, i: nat, j: nat)
    requires OneRowEach(t) && i < |t.calls| && j < |t.calls|
    requires t.calls[i].progress.Inserted? && t.calls[j].progress == Done(true)
    ensures t.calls[j].incident != t.calls[i].incident
  {
    hide RowOf, RowsFit, CallsApart;
    assert CallFits(t, i) && CallFits(t, j);
  }

  lemma CreatingKeepsCalls(t: Table, i: nat, j: nat)
    requires OneRowEach(t) && i < |t.calls| && t.calls[i].progress.Inserted? && j < |t.calls|
    ensures CallFits(Apply(t, Commit(i)), j)
  {
    hide RowOf, RowsFit;
    var t' := Apply(t, Commit(i));
    assert CallFits(t, i) && CallFits(t, j);
    RowsStay(t, t', t.calls[j].incident);
    assert t'.rows[|t.rows|].incident == t.calls[i].incident;
  }

  lemma CreatingKeeps(t: Table, i: nat)
    requires OneRowEach(t) && i < |t.calls| && t.calls[i].progress.Inserted?
    ensures OneRowEach(Apply(t, Commit(i)))
  {
    var t' := Apply(t, Commit(i));
    forall j | 0 <= j < |t'.calls| ensures CallFits(t', j) {
      CreatingKeepsCalls(t, i, j);
    }
    assert CallFits(t, i);
    hide RowOf, CallFits;
    forall j | 0 <= j < |t.calls| && t.calls[j].progress == Done(true)
      ensures t.calls[j].incident != t.calls[i].incident
    {
      NotYetCreated(t, i, j);
    }
  }

  lemma CountingKeeps(t: Table, i: nat)
    requires OneRowEach(t) && i < |t.calls| && t.calls[i].progress.Counted?
    ensures OneRowEach(Apply(t, Commit(i)))
  {
    hide RowOf;
    var t' := Apply(t, Commit(i));
    assert CallFits(t, i);
    forall j | 0 <= j < |t'.calls| ensures CallFits(t', j) {
      assert CallFits(t, j);
      RowsStay(t, t', t'.calls[j].incident);
    }
  }

  lemma StepKeepsOneRowEach(t: Table, a: Action)
    requires OneRowEach(t)
    ensures OneRowEach(Apply(t, a))
  {
    hide RowOf;
    var i := a.call;
    if i < |t.calls| {
      assert CallFits(t, i);
      if a.Commit? && t.calls[i].progress.Inserted? {
        CreatingKeeps(t, i);
      } else if a.Commit? && t.calls[i].progress.Counted? {
        CountingKeeps(t, i);
      } else if Apply(t, a) != t {
        PuttingKeeps(t, i, Apply(t, a).calls[i].progress);
      }
    }
  }

  lemma {:induction false} RunKeepsOneRowEach(t: Table, actions: seq<Action>)
    requires OneRowEach(t)
    ensures OneRowEach(RunActions(t, actions))
    decreases |actions|
  {
    if actions != [] {
      StepKeepsOneRowEach(t, actions[0]);
      RunKeepsOneRowEach(Apply(t, actions[0]), actions[1..]);
    }
  }

  /** In every interleaving there is one row per incident; whichever calls committed, exactly one of
      them created it; and an insert that conflicted always finds the row it lost to. */
  lemma RacingCallsMakeOneIncident(ids: seq<Identity>, actions: seq<Action>)
    ensures var t := RunActions(Start(ids), actions);
      && (forall i, j :: 0 <= i < j < |t.rows| ==> t.rows[i].incident != t.rows[j].incident)
      && (forall i :: 0 <= i < |t.calls| ==> t.calls[i].progress != Unexplained)
      && (forall i :: 0 <= i < |t.calls| && t.calls[i].progress.Done? ==>
            var id := t.calls[i].incident;
            && HasRow(t, id)
            && (exists c :: 0 <= c < |t.calls| && t.calls[c] == Call(id, Done(true)))
            && (forall c, d :: 0 <= c < d < |t.calls| && t.calls[c] == Call(id, Done(true)) ==>
                  t.calls[d] != Call(id, Done(true))))
  {
    hide RowOf;
    StartIsOneRowEach(ids);
    RunKeepsOneRowEach(Start(ids), actions);
    var t := RunActions(Start(ids), actions);
    forall i | 0 <= i < |t.calls| && t.calls[i].progress.Done?
      ensures HasRow(t, t.calls[i].incident)
      ensures exists c :: 0 <= c < |t.calls| && t.calls[c] == Call(t.calls[i].incident, Done(true))
    {
      assert CallFits(t, i);
      var row := t.rows[RowOf(t.rows, t.calls[i].incident)];
      assert t.calls[row.key] == Call(t.calls[i].incident, Done(true));
    }
    forall i | 0 <= i < |t.calls| ensures t.calls[i].progress != Unexplained {
      assert CallFits(t, i);
    }
  }

  // ---------- Delivery counts ----------

  lemma {:induction false} CommittedAfterUpdate(calls: seq<Call>, i: nat, c: Call, id: Identity)
    requires i < |calls| && !calls[i].progress.Done?
    ensures Committed(calls[i := c], id)
         == Committed(calls, id) + if c.incident == id && c.progress.Done? then 1 else 0
  {
    var n := |calls| - 1;
    if i == n {
      assert calls[i := c][..n] == calls[..n];
    } else {
      assert calls[i := c][..n] == calls[..n][i := c];
      CommittedAfterUpdate(calls[..n], i, c, id);
    }
  }

  lemma {:induction false} NoneCommitted(calls: seq<Call>, id: Identity)
    requires forall i :: 0 <= i < |calls| && calls[i].incident == id ==> !calls[i].progress.Done?
    ensures Committed(calls, id) == 0
  {
    if calls != [] {
      NoneCommitted(calls[..|calls| - 1], id);
    }
  }

  /** No count runs ahead of the calls that committed. */
  ghost predicate CountsBounded(t: Table) {
    && (forall k :: 0 <= k < |t.rows| ==>
          1 <= t.rows[k].deliveryCount <= Committed(t.calls, t.rows[k].incident))
    && (forall i :: 0 <= i < |t.calls| ==> CountFits(t.calls, i))
  }

  predicate CountFits(calls: seq<Call>, i: nat)
    requires i < |calls|
  {
    var n := Committed(calls, calls[i].incident);
    match calls[i].progress
    case Seen(seen) => 1 <= seen <= n
    case Counted(count) => 1 <= count <= n + 1
    case _ => true
  }

  /** A step adds to the committed calls of one incident at most, and only by committing. */
  lemma CommittedMoves(t: Table, a: Action, id: Identity)
    requires a.call < |t.calls| && Apply(t, a) != t
    ensures var c := Apply(t, a).calls[a.call];
      Committed(Apply(t, a).calls, id)
        == Committed(t.calls, id) + if c.incident == id && c.progress.Done? then 1 else 0
  {
    CommittedAfterUpdate(t.calls, a.call, Apply(t, a).calls[a.call], id);
  }

  lemma RowsStayBounded(t: Table, a: Action, k: nat)
    requires OneRowEach(t) && CountsBounded(t) && a.call < |t.calls| && k < |Apply(t, a).rows|
    ensures var row := Apply(t, a).rows[k];
      1 <= row.deliveryCount <= Committed(Apply(t, a).calls, row.incident)
  {
    hide RowOf, Committed;
    if Apply(t, a) != t {
      assert CallFits(t, a.call) && CountFits(t.calls, a.call);
      CommittedMoves(t, a, Apply(t, a).rows[k].incident);
    }
  }

  lemma CallsStayBounded(t: Table, a: Action, j: nat)
    requires OneRowEach(t) && CountsBounded(t) && a.call < |t.calls| && j < |t.calls|
    ensures CountFits(Apply(t, a).calls, j)
  {
    hide RowOf, Committed;
    assert CountFits(t.calls, j);
    if Apply(t, a) != t {
      CommittedMoves(t, a, t.calls[j].incident);
    }
  }

  lemma StepKeepsBounds(t: Table, a: Action)
    requires OneRowEach(t) && CountsBounded(t)
    ensures CountsBounded(Apply(t, a))
  {
    if a.call < |t.calls| {
      forall k | 0 <= k < |Apply(t, a).rows|
        ensures 1 <= Apply(t, a).rows[k].deliveryCount <= Committed(Apply(t, a).calls, Apply(t, a).rows[k].incident)
      {
        RowsStayBounded(t, a, k);
      }
      forall j | 0 <= j < |t.calls| ensures CountFits(Apply(t, a).calls, j) {
        CallsStayBounded(t, a, j);
      }
    }
  }

  lemma {:induction false} RunKeepsBounds(t: Table, actions: seq<Action>)
    requires OneRowEach(t) && CountsBounded(t)
    ensures CountsBounded(RunActions(t, actions))
    decreases |actions|
  {
    if actions != [] {
      StepKeepsBounds(t, actions[0]);
      StepKeepsOneRowEach(t, actions[0]);
      RunKeepsBounds(Apply(t, actions[0]), actions[1..]);
    }
  }

  /** However calls interleave, a delivery count is never more than the deliveries that committed. */
  lemma DeliveryCountNeverOverstates(ids: seq<Identity>, actions: seq<Action>, k: nat)
    requires k < |RunActions(Start(ids), actions).rows|
    ensures var t := RunActions(Start(ids), actions);
      1 <= t.rows[k].deliveryCount <= Committed(t.calls, t.rows[k].incident)
  {
    StartIsOneRowEach(ids);
    RunKeepsBounds(Start(ids), actions);
  }

  /** The calls that have read an incident's count when another call for it commits. */
  function Overtaken(t: Table, a: Action, id: Identity): set<nat> {
    if a.Commit? && a.call < |t.calls| && t.calls[a.call].incident == id && Holding(t.calls[a.call])
    then set j: nat | j < |t.calls| && t.calls[j].incident == id && t.calls[j].progress.Seen?
    else {}
  }

  /** A commit writes back an overtaken read. */
  predicate WritesStale(t: Table, a: Action, stale: set<nat>) {
    a.Commit? && a.call in stale && a.call < |t.calls| && t.calls[a.call].progress.Counted?
  }

  /** No redelivery of an incident commits although another call for it committed between its read and
      its write; `stale` are the calls already overtaken that way. */
  predicate NoneOvertaken(t: Table, actions: seq<Action>, id: Identity, stale: set<nat>)
    decreases |actions|
  {
    actions == [] ||
    var a := actions[0];
    && !WritesStale(t, a, stale)
    && NoneOvertaken(Apply(t, a), actions[1..], id, stale + Overtaken(t, a, id))
  }

  /** A call for the incident has read its count before exactly the commits that made it stale. */
  predicate ReadFits(calls: seq<Call>, j: nat, id: Identity, stale: set<nat>)
    requires j < |calls|
  {
    var n := Committed(calls, id);
    if calls[j].incident != id then j !in stale
    else match calls[j].progress
      case Seen(seen) => seen <= n && (j in stale <==> seen < n)
      case Counted(count) => count <= n + 1 && (j in stale <==> count <= n)
      case Done(_) => true
      case Aborted => true
      case _ => j !in stale
  }

  ghost predicate CountIs(t: Table, id: Identity, n: nat) {
    forall k :: 0 <= k < |t.rows| && t.rows[k].incident == id ==> t.rows[k].deliveryCount == n
  }

  /** Nothing has been lost so far. */
  ghost predicate Exact(t: Table, id: Identity, stale: set<nat>) {
    && CountIs(t, id, Committed(t.calls, id))
    && forall j :: 0 <= j < |t.calls| ==> ReadFits(t.calls, j, id, stale)
  }

  predicate ReadBehind(calls: seq<Call>, j: nat, id: Identity)
    requires j < |calls|
  {
    var n := Committed(calls, id);
    calls[j].incident == id ==>
      && (calls[j].progress.Seen? ==> calls[j].progress.seen < n)
      && (calls[j].progress.Counted? ==> calls[j].progress.count <= n)
  }

  /** A count is lost: the row, and every read of it, is behind the calls that committed. */
  ghost predicate Behind(t: Table, id: Identity) {
    && HasRow(t, id)
    && (forall k :: 0 <= k < |t.rows| && t.rows[k].incident == id ==>
          t.rows[k].deliveryCount < Committed(t.calls, id))
    && forall j :: 0 <= j < |t.calls| ==> ReadBehind(t.calls, j, id)
  }

  lemma NoRowNoneCommitted(t: Table, id: Identity)
    requires OneRowEach(t) && !HasRow(t, id)
    ensures Committed(t.calls, id) == 0
  {
    hide RowOf;
    forall j | 0 <= j < |t.calls| && t.calls[j].incident == id ensures !t.calls[j].progress.Done? {
      assert CallFits(t, j);
    }
    NoneCommitted(t.calls, id);
  }

  lemma RowStaysExact(t: Table, a: Action, id: Identity, stale: set<nat>)
    requires OneRowEach(t) && Exact(t, id, stale) && a.call < |t.calls| && !WritesStale(t, a, stale)
    ensures CountIs(Apply(t, a), id, Committed(Apply(t, a).calls, id))
  {
    hide RowOf, Committed, CallsApart;
    var i := a.call;
    if Apply(t, a) != t {
      assert CallFits(t, i) && ReadFits(t.calls, i, id, stale);
      CommittedMoves(t, a, id);
      if a.Commit? && t.calls[i].progress.Inserted? && t.calls[i].incident == id {
        NoRowNoneCommitted(t, id);
      }
    }
  }

  lemma ReadStaysFitting(t: Table, a: Action, id: Identity, stale: set<nat>, j: nat)
    requires OneRowEach(t) && Exact(t, id, stale) && a.call < |t.calls| && j < |t.calls|
    requires !WritesStale(t, a, stale)
    ensures ReadFits(Apply(t, a).calls, j, id, stale + Overtaken(t, a, id))
  {
    hide RowOf, Committed, RowsFit;
    assert ReadFits(t.calls, j, id, stale) && CallFits(t, j);
    if Apply(t, a) != t {
      assert CallFits(t, a.call);
      CommittedMoves(t, a, id);
    }
  }

  lemma StepStaysExact(t: Table, a: Action, id: Identity, stale: set<nat>)
    requires OneRowEach(t) && Exact(t, id, stale) && !WritesStale(t, a, stale)
    ensures Exact(Apply(t, a), id, stale + Overtaken(t, a, id))
  {
    if a.call < |t.calls| {
      RowStaysExact(t, a, id, stale);
      forall j | 0 <= j < |t.calls| ensures ReadFits(Apply(t, a).calls, j, id, stale + Overtaken(t, a, id)) {
        ReadStaysFitting(t, a, id, stale, j);
      }
    } else {
      assert stale + Overtaken(t, a, id) == stale;
    }
  }

  /** Writing back an overtaken read loses a count. */
  lemma StaleWriteFallsBehind(t: Table, a: Action, id: Identity, stale: set<nat>)
    requires OneRowEach(t) && Exact(t, id, stale) && WritesStale(t, a, stale)
    ensures Behind(Apply(t, a), id)
  {
    hide RowOf, Committed;
    var i, t' := a.call, Apply(t, a);
    assert CallFits(t, i) && ReadFits(t.calls, i, id, stale);
    CommittedMoves(t, a, id);
    RowsStay(t, t', id);
    forall j | 0 <= j < |t'.calls| ensures ReadBehind(t'.calls, j, id) {
      assert ReadFits(t.calls, j, id, stale) && CallFits(t, j);
    }
  }

  lemma StepStaysBehind(t: Table, a: Action, id: Identity)
    requires OneRowEach(t) && Behind(t, id)
    ensures Behind(Apply(t, a), id)
  {
    hide RowOf, Committed, RowsFit, CallsApart;
    var i, t' := a.call, Apply(t, a);
    if i < |t.calls| && t' != t {
      assert CallFits(t, i) && ReadBehind(t.calls, i, id);
      CommittedMoves(t, a, id);
      RowsStay(t, t', id);
      forall j | 0 <= j < |t'.calls| ensures ReadBehind(t'.calls, j, id) {
        assert ReadBehind(t.calls, j, id);
      }
    }
  }

  lemma {:induction false} RunStaysBehind(t: Table, actions: seq<Action>, id: Identity)
    requires OneRowEach(t) && Behind(t, id)
    ensures OneRowEach(RunActions(t, actions)) && Behind(RunActions(t, actions), id)
    decreases |actions|
  {
    if actions != [] {
      StepStaysBehind(t, actions[0], id);
      StepKeepsOneRowEach(t, actions[0]);
      RunStaysBehind(Apply(t, actions[0]), actions[1..], id);
    }
  }

  lemma {:induction false} RunIsExactUnlessOvertaken(t: Table, actions: seq<Action>, id: Identity, stale: set<nat>)
    requires OneRowEach(t) && Exact(t, id, stale)
    ensures var t' := RunActions(t, actions);
      if NoneOvertaken(t, actions, id, stale) then CountIs(t', id, Committed(t'.calls, id)) else Behind(t', id)
    decreases |actions|
  {
    if actions != [] {
      hide Exact, Behind, CountIs, OneRowEach, Overtaken, Apply;
      var a := actions[0];
      StepKeepsOneRowEach(t, a);
      if WritesStale(t, a, stale) {
        StaleWriteFallsBehind(t, a, id, stale);
        RunStaysBehind(Apply(t, a), actions[1..], id);
      } else {
        StepStaysExact(t, a, id, stale);
        RunIsExactUnlessOvertaken(Apply(t, a), actions[1..], id, stale + Overtaken(t, a, id));
      }
    }
  }

  /** However calls interleave, a delivery count is the number of committed deliveries if and only if no
      redelivery committed after another call for the incident did between its read and its write. */
  lemma DeliveryCountIsExactUnlessOvertaken(ids: seq<Identity>, actions: seq<Action>, k: nat)
    requires k < |RunActions(Start(ids), actions).rows|
    ensures var t := RunActions(Start(ids), actions);
      var id := t.rows[k].incident;
      t.rows[k].deliveryCount == Committed(t.calls, id) <==> NoneOvertaken(Start(ids), actions, id, {})
  {
    var id := RunActions(Start(ids), actions).rows[k].incident;
    StartIsOneRowEach(ids);
    NoneCommitted(Start(ids).calls, id);
    RunIsExactUnlessOvertaken(Start(ids), actions, id, {});
  }

  /** Every step of a call for the incident is taken while no other call for it is in flight; calls for
      other incidents may be. */
  predicate Serial(t: Table, actions: seq<Action>, id: Identity)
    decreases |actions|
  {
    actions == [] || (Alone(t, actions[0].call, id) && Serial(Apply(t, actions[0]), actions[1..], id))
  }

  predicate Idle(c: Call) { c.progress.Fresh? || c.progress.Done? || c.progress.Aborted? }

  predicate Alone(t: Table, i: nat, id: Identity) {
    i < |t.calls| && t.calls[i].incident == id ==>
      forall j :: 0 <= j < |t.calls| && j != i && t.calls[j].incident == id ==> Idle(t.calls[j])
  }

  lemma {:induction false} SerialCallsAreNotOvertaken(t: Table, actions: seq<Action>, id: Identity)
    requires Serial(t, actions, id)
    ensures NoneOvertaken(t, actions, id, {})
    decreases |actions|
  {
    if actions != [] {
      var seen := Overtaken(t, actions[0], id);
      assert seen == {} && {} + seen == {};
      SerialCallsAreNotOvertaken(Apply(t, actions[0]), actions[1..], id);
    }
  }

  /** With the calls for one incident run one after another, its delivery count is exactly the number
      of calls that committed, whatever goes on for other incidents. */
  lemma SerialDeliveryCountIsExact(ids: seq<Identity>, actions: seq<Action>, k: nat)
    requires k < |RunActions(Start(ids), actions).rows|
    requires Serial(Start(ids), actions, RunActions(Start(ids), actions).rows[k].incident)
    ensures var t := RunActions(Start(ids), actions);
      t.rows[k].deliveryCount == Committed(t.calls, t.rows[k].incident)
  {
    var id := RunActions(Start(ids), actions).rows[k].incident;
    SerialCallsAreNotOvertaken(Start(ids), actions, id);
    hide NoneOvertaken;
    DeliveryCountIsExactUnlessOvertaken(ids, actions, k);
  }

  /** Overlapping redeliveries do lose a count: three calls commit and the row says two. */
  lemma OverlappingRedeliveriesLoseACount(id: Identity)
    ensures var actions := [Find(0), Insert(0), Commit(0), Find(1), Find(2), Flush(1), Commit(1), Flush(2), Commit(2)];
      var t := RunActions(Start([id, id, id]), actions);
      t.rows == [Row(0, id, 2)] && Committed(t.calls, id) == 3
  {
    hide Apply, RunActions, Committed;
    var actions := [Find(0), Insert(0), Commit(0), Find(1), Find(2), Flush(1), Commit(1), Flush(2), Commit(2)];
    var t0 := Opens(id);
    var t3 := BothRead(id);
    var t6 := BothWrite(id);
    var later := [Find(1), Find(2), Flush(1)] + [Commit(1), Flush(2), Commit(2)];
    ActionsAppend(t0, [Find(0), Insert(0), Commit(0)], later);
    ActionsAppend(t3, [Find(1), Find(2), Flush(1)], [Commit(1), Flush(2), Commit(2)]);
    assert actions == [Find(0), Insert(0), Commit(0)] + later;
    ThreeCommitted(id);
  }

  /** The first call opens the incident and commits. */
  lemma Opens(id: Identity) returns (t: Table)
    ensures t == Start([id, id, id])
    ensures RunActions(t, [Find(0), Insert(0), Commit(0)])
         == Table([Row(0, id, 1)], [Call(id, Done(true)), Call(id, Fresh), Call(id, Fresh)])
  {
    t := Start([id, id, id]);
    var t1 := Apply(t, Find(0));
    assert t1 == Table([], [Call(id, Absent), Call(id, Fresh), Call(id, Fresh)]);
    var t2 := Apply(t1, Insert(0));
    assert t2 == Table([], [Call(id, Inserted), Call(id, Fresh), Call(id, Fresh)]);
    var t3 := Apply(t2, Commit(0));
    assert t3 == Table([Row(0, id, 1)], [Call(id, Done(true)), Call(id, Fresh), Call(id, Fresh)]);
    var t' := ThreeActions(t, Find(0), Insert(0), Commit(0));
  }

  /** Two redeliveries read the same count before either writes. */
  lemma BothRead(id: Identity) returns (t: Table)
    ensures t == Table([Row(0, id, 1)], [Call(id, Done(true)), Call(id, Fresh), Call(id, Fresh)])
    ensures RunActions(t, [Find(1), Find(2), Flush(1)])
         == Table([Row(0, id, 1)], [Call(id, Done(true)), Call(id, Counted(2)), Call(id, Seen(1))])
  {
    t := Table([Row(0, id, 1)], [Call(id, Done(true)), Call(id, Fresh), Call(id, Fresh)]);
    var t1 := Apply(t, Find(1));
    assert t1 == Table([Row(0, id, 1)], [Call(id, Done(true)), Call(id, Seen(1)), Call(id, Fresh)]);
    var t2 := Apply(t1, Find(2));
    assert t2 == Table([Row(0, id, 1)], [Call(id, Done(true)), Call(id, Seen(1)), Call(id, Seen(1))]);
    var t3 := Apply(t2, Flush(1));
    assert t3 == Table([Row(0, id, 1)], [Call(id, Done(true)), Call(id, Counted(2)), Call(id, Seen(1))]);
    var t' := ThreeActions(t, Find(1), Find(2), Flush(1));
  }

  /** The second write puts back the value the first one wrote. */
  lemma BothWrite(id: Identity) returns (t: Table)
    ensures t == Table([Row(0, id, 1)], [Call(id, Done(true)), Call(id, Counted(2)), Call(id, Seen(1))])
    ensures RunActions(t, [Commit(1), Flush(2), Commit(2)])
         == Table([Row(0, id, 2)], [Call(id, Done(true)), Call(id, Done(false)), Call(id, Done(false))])
  {
    t := Table([Row(0, id, 1)], [Call(id, Done(true)), Call(id, Counted(2)), Call(id, Seen(1))]);
    var t1 := Apply(t, Commit(1));
    assert t1 == Table([Row(0, id, 2)], [Call(id, Done(true)), Call(id, Done(false)), Call(id, Seen(1))]);
    var t2 := Apply(t1, Flush(2));
    assert t2 == Table([Row(0, id, 2)], [Call(id, Done(true)), Call(id, Done(false)), Call(id, Counted(2))]);
    var t3 := Apply(t2, Commit(2));
    assert t3 == Table([Row(0, id, 2)], [Call(id, Done(true)), Call(id, Done(false)), Call(id, Done(false))]);
    var t' := ThreeActions(t, Commit(1), Flush(2), Commit(2));
  }

  lemma ThreeCommitted(id: Identity)
    ensures Committed([Call(id, Done(true)), Call(id, Done(false)), Call(id, Done(false))], id) == 3
  {
    var one, two := [Call(id, Done(true))], [Call(id, Done(true)), Call(id, Done(false))];
    var three := [Call(id, Done(true)), Call(id, Done(false)), Call(id, Done(false))];
    assert one[..0] == [] && two[..1] == one && three[..2] == two;
    assert Committed(one, id) == 1;
    assert Committed(two, id) == 2;
    assert Committed(three, id) == Committed(three[..2], id) + 1;
  }

  lemma ThreeActions(t: Table, a: Action, b: Action, c: Action) returns (t': Table)
    ensures t' == Apply(Apply(Apply(t, a), b), c) == RunActions(t, [a, b, c])
  {
    hide Apply;
    t' := Apply(Apply(Apply(t, a), b), c);
    assert [a, b, c][1..] == [b, c] && [b, c][1..] == [c] && [c][1..] == [];
    assert RunActions(Apply(Apply(t, a), b), [c]) == t';
    assert RunActions(Apply(t, a), [b, c]) == t';
  }

  lemma {:induction false} ActionsAppend(t: Table, actions: seq<Action>, more: seq<Action>)
    ensures RunActions(t, actions + more) == RunActions(RunActions(t, actions), more)
    decreases |actions|
  {
    if actions == [] {
      assert actions + more == more;
    } else {
      assert (actions + more)[0] == actions[0] && (actions + more)[1..] == actions[1..] + more;
      ActionsAppend(Apply(t, actions[0]), actions[1..], more);
    }
  }
}
