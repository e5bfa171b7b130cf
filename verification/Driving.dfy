/** Runs made to order: how a worker gets to a record, past one, or through one. */
module Driving {
  import opened Domain
  import opened States
  import opened Storage
  import opened Delivery

  /** What is saved when the machinery around the graph gives up before its first step. */
  function Broke(): State {
    HaltedState(InitialState(Failure("dag", "task", "run", 1, None), BudgetSettings(5, 20, 9000, 5000)))
  }

  /** The handler raises until no attempt is left. */
  lemma {:induction false} RaiseOut(setup: Setup, w: World, p: nat) returns (more: seq<Action>)
    requires Shaped(setup, w) && p < |setup.log| && w.workers[p].phase.Handling?
    ensures RunActions(setup, w, more) == Move(w, p, Parking)
    decreases setup.maxAttempts - w.workers[p].phase.attempt
  {
    var w1 := Apply(setup, w, Raise(p, false));
    if w.workers[p].phase.attempt >= setup.maxAttempts {
      more := [Raise(p, false)] + [];
      assert w1 == Move(w, p, Parking);
      OneMore(setup, w, Raise(p, false), []);
    } else {
      assert w1 == Move(w, p, Handling(w.workers[p].phase.attempt + 1));
      assert Move(w1, p, Parking) == Move(w, p, Parking);
      hide Apply, RunActions;
      var rest := RaiseOut(setup, w1, p);
      more := [Raise(p, false)] + rest;
      OneMore(setup, w, Raise(p, false), rest);
    }
  }

  /** The worker's record parked and committed past. */
  function Skipped(w: World, p: nat): World
    requires p < |w.workers| && p < |w.committed|
  {
    var at := w.workers[p].position;
    w.(parked := w.parked + {(p, at)}, committed := w.committed[p := at + 1],
       workers := w.workers[p := Worker(at + 1, Ready)])
  }

  lemma ParkAndCommit(setup: Setup, w: World, p: nat)
    requires Shaped(setup, w) && p < |setup.log| && w.workers[p].phase.Parking?
    ensures RunActions(setup, w, [Park(p, true), Commit(p)]) == Skipped(w, p)
  {
    hide RunActions;
    TwoMore(setup, w, Park(p, true), Commit(p));
  }

  lemma TakesUpNext(setup: Setup, w: World, p: nat)
    requires Shaped(setup, w) && p < |setup.log|
    requires w.workers[p].phase.Ready? && w.workers[p].position < |setup.log[p]|
    ensures Apply(setup, w, Deliver(p))
         == Move(w, p, if setup.log[p][w.workers[p].position].Unparseable? then Parking else Handling(1))
  {}

  /** A worker ready at its next record can park it and go on, touching nothing else. */
  lemma SkipOne(setup: Setup, w: World, p: nat) returns (more: seq<Action>)
    requires Shaped(setup, w) && p < |setup.log|
    requires w.workers[p].phase.Ready? && w.workers[p].position < |setup.log[p]|
    ensures RunActions(setup, w, more) == Skipped(w, p)
  {
    hide Apply;
    var w1 := Apply(setup, w, Deliver(p));
    TakesUpNext(setup, w, p);
    var raises := [];
    if setup.log[p][w.workers[p].position].FailureOf? {
      raises := RaiseOut(setup, w1, p);
    }
    var w2 := Move(w, p, Parking);
    assert RunActions(setup, w1, raises) == w2;
    assert Skipped(w2, p) == Skipped(w, p);
    hide RunActions;
    ParkAndCommit(setup, w2, p);
    ActionsAppend(setup, w1, raises, [Park(p, true), Commit(p)]);
    OneMore(setup, w, Deliver(p), raises + [Park(p, true), Commit(p)]);
    more := [Deliver(p)] + (raises + [Park(p, true), Commit(p)]);
  }

  /** Nothing but the worker's own place has changed. */
  predicate Went(w: World, w': World, p: nat, o: nat)
    requires p < |w.workers|
  {
    && w'.workers == w.workers[p := Worker(o, Ready)] && w'.tables == w.tables && w'.saves == w.saves
  }

  /** A ready worker can go on to any later record of its partition. */
  lemma {:induction false} GoTo(setup: Setup, w: World, p: nat, o: nat) returns (more: seq<Action>)
    requires Shaped(setup, w) && p < |setup.log| && o < |setup.log[p]|
    requires w.workers[p].phase.Ready? && w.workers[p].position <= o
    ensures Went(w, RunActions(setup, w, more), p, o)
    decreases o - w.workers[p].position
  {
    if w.workers[p].position == o {
      more := [];
    } else {
      hide Apply, RunActions;
      var first := SkipOne(setup, w, p);
      var rest := GoTo(setup, RunActions(setup, w, first), p, o);
      ActionsAppend(setup, w, first, rest);
      more := first + rest;
    }
  }

  /** A worker that crashes and starts over can get to any record it has not committed past. */
  lemma StartOver(setup: Setup, w: World, p: nat, o: nat) returns (more: seq<Action>)
    requires Shaped(setup, w) && p < |setup.log| && o < |setup.log[p]| && w.committed[p] <= o
    ensures Went(w, RunActions(setup, w, more), p, o)
  {
    var w1 := Apply(setup, w, Crash(p));
    assert w1 == w.(workers := w.workers[p := Worker(w.committed[p], Ready)]);
    hide Apply, RunActions;
    var rest := GoTo(setup, w1, p, o);
    OneMore(setup, w, Crash(p), rest);
    more := [Crash(p)] + rest;
  }

  /** Handling a record with nothing going wrong leaves its incident saved and in a terminal status. */
  lemma SaveIt(setup: Setup, w: World, q: nat, id: Identity, state: State) returns (more: seq<Action>)
    requires Shaped(setup, w) && q < |setup.log| && w.workers[q].phase.Ready? && !Finished(w, id)
    requires w.workers[q].position < |setup.log[q]| && setup.log[q][w.workers[q].position] == FailureOf(id)
    ensures WasSaved(RunActions(setup, w, more), id) && Finished(RunActions(setup, w, more), id)
  {
    more := [Deliver(q)] + [Open(q), Begin(q), Persist(q, state)];
    var w1 := Apply(setup, w, Deliver(q));
    OneMore(setup, w, Deliver(q), [Open(q), Begin(q), Persist(q, state)]);
    ThreeMore(setup, w1, Open(q), Begin(q), Persist(q, state));
    hide RunActions;
    var w3 := Apply(setup, Apply(setup, w1, Open(q)), Begin(q));
    assert w3.workers[q].phase.Running? && Held(setup, w3, q) == id;
    PersistFinishes(setup, w3, q, state);
  }

  lemma PersistFinishes(setup: Setup, w: World, q: nat, state: State)
    requires Shaped(setup, w) && q < |setup.log| && w.workers[q].phase.Running?
    ensures var w', id := Apply(setup, w, Persist(q, state)), Held(setup, w, q);
      WasSaved(w', id) && Finished(w', id)
  {
    var w' := Apply(setup, w, Persist(q, state));
    assert w'.saves[|w.saves|].incident == Held(setup, w, q);
  }
}
