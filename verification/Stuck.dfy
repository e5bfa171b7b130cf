/** Incidents that never reach a terminal status: when that is certain, and that it can happen to all. */
module Stuck {
  import opened Domain
  import opened States
  import opened Storage
  import opened Delivery
  import opened Driving
  import opened Losses
  import opened ExactlyOnce

  /** Every record that carries the failure is below its committed offset. */
  ghost predicate CommittedOver(setup: Setup, w: World, id: Identity)
    requires Shaped(setup, w)
  {
    forall q, j :: 0 <= q < |setup.log| && 0 <= j < |setup.log[q]| && setup.log[q][j] == FailureOf(id) ==>
      j < w.committed[q]
  }

  /** No run from here brings the incident to a terminal status. */
  ghost predicate NeverFinishes(setup: Setup, w: World, id: Identity)
    requires Shaped(setup, w)
  {
    forall more: seq<Action> :: !Finished(RunActions(setup, w, more), id)
  }

  /** The same row, or still none. */
  predicate SameRow(w: World, w': World, id: Identity) {
    && (id in w.tables.incidents <==> id in w'.tables.incidents)
    && (id in w.tables.incidents ==> w'.tables.incidents[id] == w.tables.incidents[id])
  }

  lemma OffsetsStay(setup: Setup, w: World, a: Action, id: Identity)
    requires Shaped(setup, w) && CommittedOver(setup, w, id)
    ensures CommittedOver(setup, Apply(setup, w, a), id)
  {
    forall q, j | 0 <= q < |setup.log| && 0 <= j < |setup.log[q]| && setup.log[q][j] == FailureOf(id)
      ensures j < Apply(setup, w, a).committed[q]
    {
      OneStep(setup, w, a, q);
    }
  }

  lemma NobodyHolds(setup: Setup, w: World, p: nat, id: Identity)
    requires Shaped(setup, w) && CommittedOver(setup, w, id) && p < |setup.log| && InHandler(w.workers[p].phase)
    ensures Held(setup, w, p) != id
  {}

  /** Once its records are all committed over, an incident's row is never touched again. */
  lemma RowStays(setup: Setup, w: World, a: Action, id: Identity)
    requires Shaped(setup, w) && CommittedOver(setup, w, id)
    ensures SameRow(w, Apply(setup, w, a), id)
  {
    if a.worker < |setup.log| && InHandler(w.workers[a.worker].phase) {
      NobodyHolds(setup, w, a.worker, id);
    }
  }

  lemma {:induction false} RowStaysForGood(setup: Setup, w: World, more: seq<Action>, id: Identity)
    requires Shaped(setup, w) && CommittedOver(setup, w, id)
    ensures SameRow(w, RunActions(setup, w, more), id)
    decreases |more|
  {
    if more != [] {
      OffsetsStay(setup, w, more[0], id);
      RowStays(setup, w, more[0], id);
      hide Apply, CommittedOver;
      RowStaysForGood(setup, Apply(setup, w, more[0]), more[1..], id);
    }
  }

  lemma CanStillFinish(setup: Setup, w: World, id: Identity, q: nat, j: nat) returns (more: seq<Action>)
    requires Shaped(setup, w) && q < |setup.log| && j < |setup.log[q]|
    requires setup.log[q][j] == FailureOf(id) && w.committed[q] <= j
    ensures Finished(RunActions(setup, w, more), id)
  {
    hide Apply, RunActions;
    more := StartOver(setup, w, q, j);
    var w1 := RunActions(setup, w, more);
    if !Finished(w1, id) {
      var rest := SaveIt(setup, w1, q, id, Broke());
      ActionsAppend(setup, w, more, rest);
      more := more + rest;
    }
  }

  /** In any world, an incident will never reach a terminal status if and only if it has not and every
      record that carries its failure is below its committed offset; then its row stays as it is. */
  lemma NeverFinishesExactlyWhen(setup: Setup, w: World, id: Identity)
    requires Shaped(setup, w)
    ensures NeverFinishes(setup, w, id) <==> !Finished(w, id) && CommittedOver(setup, w, id)
    ensures NeverFinishes(setup, w, id) ==> forall more: seq<Action> :: SameRow(w, RunActions(setup, w, more), id)
  {
    NothingMore(setup, w);
    hide RunActions, CommittedOver;
    if CommittedOver(setup, w, id) {
      forall more: seq<Action> ensures SameRow(w, RunActions(setup, w, more), id) {
        RowStaysForGood(setup, w, more, id);
      }
      assert !Finished(w, id) ==> NeverFinishes(setup, w, id);
    } else {
      var q, j := NotCommittedOver(setup, w, id);
      var more := CanStillFinish(setup, w, id, q, j);
    }
  }

  lemma NotCommittedOver(setup: Setup, w: World, id: Identity) returns (q: nat, j: nat)
    requires Shaped(setup, w) && !CommittedOver(setup, w, id)
    ensures q < |setup.log| && j < |setup.log[q]| && setup.log[q][j] == FailureOf(id) && w.committed[q] <= j
  {
    q, j :| 0 <= q < |setup.log| && 0 <= j < |setup.log[q]| && setup.log[q][j] == FailureOf(id) && w.committed[q] <= j;
  }

  /** What is known of the records of such an incident: each was parked, or had its write refused. */
  lemma UnfinishedRecordsWereParkedOrRefused(setup: Setup, actions: seq<Action>, p: nat, o: nat)
    requires Keyed(setup) && p < |setup.log| && o < |setup.log[p]| && setup.log[p][o].FailureOf?
    ensures var w, id := RunActions(setup, Start(setup), actions), setup.log[p][o].incident;
      o < w.committed[p] && !Finished(w, id) ==> (p, o) in w.parked || (p, o) in w.refused
  {
    RunStaysOnce(setup, Start(setup), actions);
    NothingIsLost(setup, actions);
  }

  // ---------- It can happen to every incident ----------

  /** Whatever has been opened is being investigated. */
  ghost predicate AllInvestigating(w: World) {
    forall id :: id in w.tables.incidents ==> w.tables.incidents[id].status == Investigating
  }

  /** Worker `p` has moved on and nothing has finished; incidents may have been opened. */
  ghost predicate Trod(w: World, w': World, p: nat, phase: Phase)
    requires p < |w.workers|
  {
    && w'.workers == w.workers[p := w.workers[p].(phase := phase)] && w'.committed == w.committed
    && w.tables.incidents.Keys <= w'.tables.incidents.Keys && AllInvestigating(w')
  }

  lemma OpensIt(setup: Setup, w: World, p: nat)
    requires Shaped(setup, w) && p < |setup.log| && w.workers[p].phase.Handling? && AllInvestigating(w)
    ensures var w' := Apply(setup, w, Open(p));
      && w'.workers == w.workers[p := w.workers[p].(phase := Opened(w.workers[p].phase.attempt))]
      && w'.committed == w.committed
      && w'.tables.incidents.Keys == w.tables.incidents.Keys + {Held(setup, w, p)}
      && forall id :: id in w'.tables.incidents && id != Held(setup, w, p) ==>
           w'.tables.incidents[id].status == Investigating
  {}

  lemma BeginsIt(setup: Setup, w: World, p: nat)
    requires Shaped(setup, w) && p < |setup.log| && w.workers[p].phase.Opened?
    requires forall id :: id in w.tables.incidents && id != Held(setup, w, p) ==>
               w.tables.incidents[id].status == Investigating
    ensures var w' := Apply(setup, w, Begin(p));
      && w'.workers[p].phase.Running? && w'.workers[p].phase.attempt == w.workers[p].phase.attempt
      && w'.workers == w.workers[p := w.workers[p].(phase := w'.workers[p].phase)]
      && w'.committed == w.committed
      && w'.tables.incidents.Keys == w.tables.incidents.Keys && AllInvestigating(w')
  {}

  /** One more handler run that gets as far as the graph and raises there. */
  lemma RaisesOnceMore(setup: Setup, w: World, p: nat)
    requires Shaped(setup, w) && p < |setup.log| && w.workers[p].phase.Handling? && AllInvestigating(w)
    ensures var w', a := RunActions(setup, w, [Open(p), Begin(p), Raise(p, false)]), w.workers[p].phase.attempt;
      && Trod(w, w', p, if a >= setup.maxAttempts then Parking else Handling(a + 1))
      && Held(setup, w, p) in w'.tables.incidents
  {
    hide RunActions;
    var w1 := Apply(setup, w, Open(p));
    OpensIt(setup, w, p);
    assert Held(setup, w1, p) == Held(setup, w, p);
    var w2 := Apply(setup, w1, Begin(p));
    BeginsIt(setup, w1, p);
    RaisesIt(setup, w2, p);
    ThreeMore(setup, w, Open(p), Begin(p), Raise(p, false));
    hide Apply, AllInvestigating;
  }

  lemma RaisesIt(setup: Setup, w: World, p: nat)
    requires Shaped(setup, w) && p < |setup.log| && w.workers[p].phase.Running?
    ensures var a := w.workers[p].phase.attempt;
      Apply(setup, w, Raise(p, false)) == Move(w, p, if a >= setup.maxAttempts then Parking else Handling(a + 1))
  {}

  lemma {:induction false} RaisesToTheLast(setup: Setup, w: World, p: nat) returns (more: seq<Action>)
    requires Shaped(setup, w) && p < |setup.log| && w.workers[p].phase.Handling? && AllInvestigating(w)
    ensures Trod(w, RunActions(setup, w, more), p, Parking)
    ensures Held(setup, w, p) in RunActions(setup, w, more).tables.incidents
    decreases setup.maxAttempts - w.workers[p].phase.attempt
  {
    hide Apply, RunActions, AllInvestigating;
    more := [Open(p), Begin(p), Raise(p, false)];
    RaisesOnceMore(setup, w, p);
    if w.workers[p].phase.attempt < setup.maxAttempts {
      var w1 := RunActions(setup, w, more);
      var rest := RaisesToTheLast(setup, w1, p);
      ActionsAppend(setup, w, more, rest);
      more := more + rest;
    }
  }

  /** Partition `p` has been gone through up to `o`, and every incident met there is open. */
  ghost predicate GoneThrough(setup: Setup, w: World, p: nat, o: nat)
    requires Shaped(setup, w) && p < |setup.log| && o <= |setup.log[p]|
  {
    && w.workers[p] == Worker(o, Ready) && w.committed[p] == o && AllInvestigating(w)
    && forall i :: 0 <= i < o && setup.log[p][i].FailureOf? ==> setup.log[p][i].incident in w.tables.incidents
  }

  /** The other partitions are as they were, and no incident has gone. */
  predicate OthersStay(w: World, w': World, p: nat) {
    && |w'.workers| == |w.workers| && |w'.committed| == |w.committed|
    && (forall q :: 0 <= q < |w.workers| && q != p ==> w'.workers[q] == w.workers[q])
    && (forall q :: 0 <= q < |w.committed| && q != p ==> w'.committed[q] == w.committed[q])
    && w.tables.incidents.Keys <= w'.tables.incidents.Keys
  }

  lemma EscapesOnce(setup: Setup, w: World, p: nat, o: nat) returns (more: seq<Action>)
    requires Shaped(setup, w) && p < |setup.log| && o < |setup.log[p]| && GoneThrough(setup, w, p, o)
    ensures GoneThrough(setup, RunActions(setup, w, more), p, o + 1) && OthersStay(w, RunActions(setup, w, more), p)
  {
    hide Apply;
    var w1 := Apply(setup, w, Deliver(p));
    TakesUpNext(setup, w, p);
    var raises := [];
    if setup.log[p][o].FailureOf? {
      raises := RaisesToTheLast(setup, w1, p);
    }
    var w2 := RunActions(setup, w1, raises);
    hide RunActions;
    ParkAndCommit(setup, w2, p);
    ActionsAppend(setup, w1, raises, [Park(p, true), Commit(p)]);
    OneMore(setup, w, Deliver(p), raises + [Park(p, true), Commit(p)]);
    more := [Deliver(p)] + (raises + [Park(p, true), Commit(p)]);
  }

  lemma {:induction false} EscapesThrough(setup: Setup, w: World, p: nat, o: nat) returns (more: seq<Action>)
    requires Shaped(setup, w) && p < |setup.log| && o <= |setup.log[p]| && GoneThrough(setup, w, p, o)
    ensures GoneThrough(setup, RunActions(setup, w, more), p, |setup.log[p]|)
    ensures OthersStay(w, RunActions(setup, w, more), p)
    decreases |setup.log[p]| - o
  {
    if o == |setup.log[p]| {
      more := [];
    } else {
      hide Apply, RunActions, GoneThrough;
      var first := EscapesOnce(setup, w, p, o);
      var rest := EscapesThrough(setup, RunActions(setup, w, first), p, o + 1);
      ActionsAppend(setup, w, first, rest);
      more := first + rest;
    }
  }

  /** The first `n` partitions have been gone through to the end, and the others not begun. */
  ghost predicate Drained(setup: Setup, w: World, n: nat)
    requires Shaped(setup, w) && n <= |setup.log|
  {
    && AllInvestigating(w)
    && (forall p :: 0 <= p < n ==> GoneThrough(setup, w, p, |setup.log[p]|))
    && (forall p :: n <= p < |setup.log| ==> GoneThrough(setup, w, p, 0))
  }

  lemma DrainOneMore(setup: Setup, w: World, n: nat) returns (more: seq<Action>)
    requires Shaped(setup, w) && n < |setup.log| && Drained(setup, w, n)
    ensures Drained(setup, RunActions(setup, w, more), n + 1)
  {
    hide RunActions, Apply;
    more := EscapesThrough(setup, w, n, 0);
    var w' := RunActions(setup, w, more);
    forall p | 0 <= p < |setup.log| && p != n
      ensures GoneThrough(setup, w', p, if p < n then |setup.log[p]| else 0)
    {
      assert GoneThrough(setup, w, p, if p < n then |setup.log[p]| else 0);
    }
  }

  lemma {:induction false} DrainAll(setup: Setup, w: World, n: nat) returns (more: seq<Action>)
    requires Shaped(setup, w) && n <= |setup.log| && Drained(setup, w, n)
    ensures Drained(setup, RunActions(setup, w, more), |setup.log|)
    decreases |setup.log| - n
  {
    if n == |setup.log| {
      more := [];
    } else {
      hide RunActions, Apply, Drained;
      var first := DrainOneMore(setup, w, n);
      var rest := DrainAll(setup, RunActions(setup, w, first), n + 1);
      ActionsAppend(setup, w, first, rest);
      more := first + rest;
    }
  }

  /** Whatever the log and however many attempts are allowed, errors the graph does not catch can leave
      every incident being investigated for ever, with its records parked and committed past. */
  lemma EscapedErrorsLeaveThemInvestigating(setup: Setup) returns (actions: seq<Action>)
    ensures var w := RunActions(setup, Start(setup), actions);
      forall p, o :: 0 <= p < |setup.log| && 0 <= o < |setup.log[p]| && setup.log[p][o].FailureOf? ==>
        var id := setup.log[p][o].incident;
        && o < w.committed[p] && NeverFinishes(setup, w, id)
        && id in w.tables.incidents && w.tables.incidents[id].status == Investigating
  {
    actions := DrainAll(setup, Start(setup), 0);
    hide RunActions;
    var w := RunActions(setup, Start(setup), actions);
    forall p, o | 0 <= p < |setup.log| && 0 <= o < |setup.log[p]| && setup.log[p][o].FailureOf?
      ensures var id := setup.log[p][o].incident;
        && o < w.committed[p] && NeverFinishes(setup, w, id)
        && id in w.tables.incidents && w.tables.incidents[id].status == Investigating
    {
      var id := setup.log[p][o].incident;
      assert GoneThrough(setup, w, p, |setup.log[p]|);
      NeverFinishesExactlyWhen(setup, w, id);
    }
  }
}
