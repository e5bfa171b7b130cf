/** When a record is really lost. A refused dead-letter write leaves its record unsettled with the worker
    already past it; what the worker does first after that, crash or commit, decides. */
module Losses {
  import opened Domain
  import opened States
  import opened Storage
  import opened Delivery
  import opened Driving

  /** The step really moves the worker's committed offset. */
  predicate Commits(setup: Setup, w: World, a: Action, p: nat)
    requires Shaped(setup, w) && p < |setup.log|
  {
    a == Commit(p) && w.workers[p].phase.Done?
  }

  /** The worker crashes, and has committed nothing before that. */
  predicate CrashesFirst(setup: Setup, w: World, actions: seq<Action>, p: nat)
    requires Shaped(setup, w) && p < |setup.log|
    decreases |actions|
  {
    actions != [] && !Commits(setup, w, actions[0], p)
    && (actions[0] == Crash(p) || CrashesFirst(setup, Apply(setup, w, actions[0]), actions[1..], p))
  }

  /** The worker commits, and has not crashed before that. */
  predicate CommitsFirst(setup: Setup, w: World, actions: seq<Action>, p: nat)
    requires Shaped(setup, w) && p < |setup.log|
    decreases |actions|
  {
    actions != [] && actions[0] != Crash(p)
    && (Commits(setup, w, actions[0], p) || CommitsFirst(setup, Apply(setup, w, actions[0]), actions[1..], p))
  }

  /** At some moment of the run the worker stands at the record, or before it. */
  predicate ComesBack(setup: Setup, w: World, actions: seq<Action>, p: nat, o: nat)
    requires Shaped(setup, w) && p < |setup.log|
    decreases |actions|
  {
    w.workers[p].position <= o
    || (actions != [] && ComesBack(setup, Apply(setup, w, actions[0]), actions[1..], p, o))
  }

  /** This step is the refused dead-letter write of a record that nothing has settled yet. */
  predicate Refuses(setup: Setup, w: World, a: Action, p: nat, o: nat)
    requires Shaped(setup, w) && p < |setup.log| && o < |setup.log[p]|
  {
    a == Park(p, false) && w.workers[p] == Worker(o, Parking) && !Settled(setup, w, p, o)
  }

  /** Somewhere in the run the record's write is refused, and its worker then commits before it
      crashes. */
  predicate PassedOver(setup: Setup, w: World, actions: seq<Action>, p: nat, o: nat)
    requires Shaped(setup, w) && p < |setup.log| && o < |setup.log[p]|
    decreases |actions|
  {
    actions != [] &&
    var w' := Apply(setup, w, actions[0]);
    || (Refuses(setup, w, actions[0], p, o) && CommitsFirst(setup, w', actions[1..], p))
    || PassedOver(setup, w', actions[1..], p, o)
  }

  /** How one step moves one worker's offsets: only a commit moves the committed one, only a crash goes
      back, and only a commit or a refused write goes on. */
  lemma OneStep(setup: Setup, w: World, a: Action, p: nat)
    requires Shaped(setup, w) && p < |setup.log|
    ensures var w', at := Apply(setup, w, a), w.workers[p].position;
      && w'.committed[p] == (if Commits(setup, w, a, p) then at + 1 else w.committed[p])
      && (a == Crash(p) ==> w'.workers[p].position == w.committed[p])
      && (Commits(setup, w, a, p) ==> w'.workers[p].position == at + 1)
      && (a != Crash(p) && !Commits(setup, w, a, p) ==>
            || w'.workers[p].position == at
            || (w'.workers[p].position == at + 1 && a == Park(p, false) && w.workers[p].phase.Parking?))
      && w.parked <= w'.parked && w.saves <= w'.saves
  {}

  lemma NothingMore(setup: Setup, w: World)
    requires Shaped(setup, w)
    ensures RunActions(setup, w, []) == w
  {}

  lemma {:induction false} NothingIsForgotten(setup: Setup, w: World, actions: seq<Action>)
    requires Shaped(setup, w)
    ensures w.parked <= RunActions(setup, w, actions).parked && w.saves <= RunActions(setup, w, actions).saves
    decreases |actions|
  {
    if actions != [] {
      hide Apply;
      NothingIsForgotten(setup, Apply(setup, w, actions[0]), actions[1..]);
      StepForgetsNothing(setup, w, actions[0]);
    }
  }

  lemma StepForgetsNothing(setup: Setup, w: World, a: Action)
    requires Shaped(setup, w)
    ensures w.parked <= Apply(setup, w, a).parked && w.saves <= Apply(setup, w, a).saves
  {}

  // ---------- Read again, or never ----------

  /** Once a worker has committed past a record it never stands at it again. */
  lemma {:induction false} CommittedNeverComesBack(setup: Setup, w: World, actions: seq<Action>, p: nat, o: nat)
    requires Shaped(setup, w) && p < |setup.log| && o < w.committed[p]
    ensures !ComesBack(setup, w, actions, p, o)
    ensures o < RunActions(setup, w, actions).committed[p]
    decreases |actions|
  {
    if actions != [] {
      OneStep(setup, w, actions[0], p);
      hide Apply;
      CommittedNeverComesBack(setup, Apply(setup, w, actions[0]), actions[1..], p, o);
    }
  }

  /** A record the worker has left without committing past it is due again if and only if the worker
      crashes before its next commit. */
  lemma {:induction false} DueAgainExactlyWhen(setup: Setup, w: World, actions: seq<Action>, p: nat, o: nat)
    requires Shaped(setup, w) && p < |setup.log| && w.committed[p] <= o < w.workers[p].position
    ensures ComesBack(setup, w, actions, p, o) <==> CrashesFirst(setup, w, actions, p)
    ensures CommitsFirst(setup, w, actions, p) ==> o < RunActions(setup, w, actions).committed[p]
    decreases |actions|
  {
    if actions != [] {
      var a, rest := actions[0], actions[1..];
      var w' := Apply(setup, w, a);
      OneStep(setup, w, a, p);
      hide Apply;
      if Commits(setup, w, a, p) {
        CommittedNeverComesBack(setup, w', rest, p, o);
      } else if a != Crash(p) {
        DueAgainExactlyWhen(setup, w', rest, p, o);
      }
    }
  }

  /** At some step of the run the record is delivered to its worker. */
  predicate Delivers(setup: Setup, w: World, actions: seq<Action>, p: nat, o: nat)
    requires Shaped(setup, w) && p < |setup.log|
    decreases |actions|
  {
    actions != [] &&
    ((actions[0] == Deliver(p) && w.workers[p] == Worker(o, Ready))
     || Delivers(setup, Apply(setup, w, actions[0]), actions[1..], p, o))
  }

  /** A worker gets past a record it has yet to take up only by having it delivered. */
  lemma {:induction false} NotPassedUnread(setup: Setup, w: World, actions: seq<Action>, p: nat, o: nat)
    requires Shaped(setup, w) && p < |setup.log|
    requires w.workers[p].position < o || w.workers[p] == Worker(o, Ready)
    requires o < RunActions(setup, w, actions).workers[p].position
    ensures Delivers(setup, w, actions, p, o)
    decreases |actions|
  {
    if !(actions[0] == Deliver(p) && w.workers[p] == Worker(o, Ready)) {
      NextIsUntaken(setup, w, actions[0], p, o);
      hide Apply;
      NotPassedUnread(setup, Apply(setup, w, actions[0]), actions[1..], p, o);
    }
  }

  lemma NextIsUntaken(setup: Setup, w: World, a: Action, p: nat, o: nat)
    requires Shaped(setup, w) && p < |setup.log|
    requires w.workers[p].position < o || w.workers[p] == Worker(o, Ready)
    requires !(a == Deliver(p) && w.workers[p] == Worker(o, Ready))
    ensures var worker := Apply(setup, w, a).workers[p]; worker.position < o || worker == Worker(o, Ready)
  {}

  /** Whatever is delivered is where the worker stands. */
  lemma {:induction false} DeliveredIsReached(setup: Setup, w: World, actions: seq<Action>, p: nat, o: nat)
    requires Shaped(setup, w) && p < |setup.log| && Delivers(setup, w, actions, p, o)
    ensures ComesBack(setup, w, actions, p, o)
    decreases |actions|
  {
    if !(actions[0] == Deliver(p) && w.workers[p] == Worker(o, Ready)) {
      DeliveredIsReached(setup, Apply(setup, w, actions[0]), actions[1..], p, o);
    }
  }

  lemma {:induction false} ReadBeforePassedAgain(setup: Setup, w: World, actions: seq<Action>, p: nat, o: nat)
    requires Shaped(setup, w) && p < |setup.log| && w.committed[p] <= o < w.workers[p].position
    requires CrashesFirst(setup, w, actions, p) && o < RunActions(setup, w, actions).workers[p].position
    ensures Delivers(setup, w, actions, p, o)
    decreases |actions|
  {
    var a, w' := actions[0], Apply(setup, w, actions[0]);
    OneStep(setup, w, a, p);
    if a == Crash(p) {
      assert w'.workers[p] == Worker(w.committed[p], Ready);
      hide Apply;
      NotPassedUnread(setup, w', actions[1..], p, o);
    } else {
      hide Apply;
      ReadBeforePassedAgain(setup, w', actions[1..], p, o);
    }
  }

  /** After that crash the worker cannot get past the record again without reading it; without the crash
      it is never read. So of the runs that end past the record, those read it that crash first. */
  lemma ReadAgainExactlyWhen(setup: Setup, w: World, actions: seq<Action>, p: nat, o: nat)
    requires Shaped(setup, w) && p < |setup.log| && w.committed[p] <= o < w.workers[p].position
    ensures Delivers(setup, w, actions, p, o) ==> CrashesFirst(setup, w, actions, p)
    ensures o < RunActions(setup, w, actions).workers[p].position ==>
              (Delivers(setup, w, actions, p, o) <==> CrashesFirst(setup, w, actions, p))
  {
    hide RunActions, Delivers, CrashesFirst, ComesBack;
    DueAgainExactlyWhen(setup, w, actions, p, o);
    if Delivers(setup, w, actions, p, o) {
      DeliveredIsReached(setup, w, actions, p, o);
    }
    if CrashesFirst(setup, w, actions, p) && o < RunActions(setup, w, actions).workers[p].position {
      ReadBeforePassedAgain(setup, w, actions, p, o);
    }
  }

  // ---------- The run that loses a record ----------

  /** The record at `(q, j)` is the one at `(p, o)`, or carries the same failure. */
  predicate Carries(setup: Setup, q: nat, j: nat, p: nat, o: nat)
    requires p < |setup.log| && o < |setup.log[p]| && q < |setup.log| && j < |setup.log[q]|
  {
    (q == p && j == o) || (setup.log[p][o].FailureOf? && setup.log[q][j] == setup.log[p][o])
  }

  /** No other record carries the failure; a record that cannot be read is always the only one. */
  ghost predicate Single(setup: Setup, p: nat, o: nat)
    requires p < |setup.log| && o < |setup.log[p]|
  {
    forall q, j :: 0 <= q < |setup.log| && 0 <= j < |setup.log[q]| && Carries(setup, q, j, p, o) ==> q == p && j == o
  }

  predicate SavedAt(setup: Setup, w: World, p: nat, o: nat)
    requires p < |setup.log| && o < |setup.log[p]|
  {
    setup.log[p][o].FailureOf? && WasSaved(w, setup.log[p][o].incident)
  }

  /** A failure is saved by a worker that stands at a record carrying it. */
  lemma WhoSaves(setup: Setup, w: World, a: Action, p: nat, o: nat)
    requires Shaped(setup, w) && p < |setup.log| && o < |setup.log[p]|
    requires SavedAt(setup, Apply(setup, w, a), p, o) && !SavedAt(setup, w, p, o)
    ensures a.worker < |setup.log| && w.workers[a.worker].position < |setup.log[a.worker]|
    ensures Carries(setup, a.worker, w.workers[a.worker].position, p, o)
  {}

  /** A step taken while the worker is past the record makes no dead-letter copy of it, and saves its
      failure only through another record that carries it. */
  lemma PassingSettlesNothing(setup: Setup, w: World, a: Action, p: nat, o: nat)
    requires Shaped(setup, w) && p < |setup.log| && o < |setup.log[p]| && o < w.workers[p].position
    ensures (p, o) in Apply(setup, w, a).parked <==> (p, o) in w.parked
    ensures Single(setup, p, o) && SavedAt(setup, Apply(setup, w, a), p, o) ==> SavedAt(setup, w, p, o)
  {
    var w' := Apply(setup, w, a);
    if Single(setup, p, o) && SavedAt(setup, w', p, o) && !SavedAt(setup, w, p, o) {
      WhoSaves(setup, w, a, p, o);
    }
  }

  lemma {:induction false} LeftAloneIsUnsettled(setup: Setup, w: World, actions: seq<Action>, p: nat, o: nat)
    requires Shaped(setup, w) && p < |setup.log| && o < |setup.log[p]|
    requires !Settled(setup, w, p, o) && !ComesBack(setup, w, actions, p, o)
    ensures var w' := RunActions(setup, w, actions);
      (p, o) !in w'.parked && (Single(setup, p, o) ==> !Settled(setup, w', p, o))
    decreases |actions|
  {
    hide Single;
    LeftAloneIsUnparked(setup, w, actions, p, o);
    if actions != [] && Single(setup, p, o) {
      PassingSettlesNothing(setup, w, actions[0], p, o);
      hide Apply;
      LeftAloneIsUnsettled(setup, Apply(setup, w, actions[0]), actions[1..], p, o);
    }
  }

  lemma {:induction false} LeftAloneIsUnparked(setup: Setup, w: World, actions: seq<Action>, p: nat, o: nat)
    requires Shaped(setup, w) && p < |setup.log| && o < |setup.log[p]|
    requires (p, o) !in w.parked && !ComesBack(setup, w, actions, p, o)
    ensures (p, o) !in RunActions(setup, w, actions).parked
    decreases |actions|
  {
    if actions != [] {
      PassingSettlesNothing(setup, w, actions[0], p, o);
      hide Apply;
      LeftAloneIsUnparked(setup, Apply(setup, w, actions[0]), actions[1..], p, o);
    }
  }

  lemma {:induction false} OneOrTheOther(setup: Setup, w: World, actions: seq<Action>, p: nat)
    requires Shaped(setup, w) && p < |setup.log| && CommitsFirst(setup, w, actions, p)
    ensures !CrashesFirst(setup, w, actions, p)
    decreases |actions|
  {
    if !Commits(setup, w, actions[0], p) {
      OneOrTheOther(setup, Apply(setup, w, actions[0]), actions[1..], p);
    }
  }

  lemma RefusalMovesOn(setup: Setup, w: World, a: Action, p: nat, o: nat)
    requires Shaped(setup, w) && p < |setup.log| && o < |setup.log[p]| && Refuses(setup, w, a, p, o)
    ensures var w' := Apply(setup, w, a);
      w'.workers[p] == Worker(o + 1, Ready) && w'.committed == w.committed && !Settled(setup, w', p, o)
  {}

  /** A refused record whose worker commits next is past its committed offset without a dead-letter copy,
      and unless another record carries its failure, unsettled. */
  lemma RefusedThenCommitted(setup: Setup, w: World, actions: seq<Action>, p: nat, o: nat)
    requires Shaped(setup, w) && p < |setup.log| && o < |setup.log[p]| && actions != []
    requires Refuses(setup, w, actions[0], p, o)
    requires CommitsFirst(setup, Apply(setup, w, actions[0]), actions[1..], p)
    ensures var w' := RunActions(setup, w, actions);
      && o < w'.committed[p] && (p, o) !in w'.parked && (Single(setup, p, o) ==> !Settled(setup, w', p, o))
  {
    hide Apply;
    var w1 := Apply(setup, w, actions[0]);
    RefusalMovesOn(setup, w, actions[0], p, o);
    OneOrTheOther(setup, w1, actions[1..], p);
    DueAgainExactlyWhen(setup, w1, actions[1..], p, o);
    LeftAloneIsUnsettled(setup, w1, actions[1..], p, o);
  }

  lemma {:induction false} PassedOverIsUnsettled(setup: Setup, w: World, actions: seq<Action>, p: nat, o: nat)
    requires Shaped(setup, w) && p < |setup.log| && o < |setup.log[p]|
    requires PassedOver(setup, w, actions, p, o)
    ensures var w' := RunActions(setup, w, actions);
      && o < w'.committed[p] && (p, o) !in w'.parked && (Single(setup, p, o) ==> !Settled(setup, w', p, o))
    decreases |actions|
  {
    hide Apply, Single, Settled, CommitsFirst, Refuses;
    var w1 := Apply(setup, w, actions[0]);
    if Refuses(setup, w, actions[0], p, o) && CommitsFirst(setup, w1, actions[1..], p) {
      RefusedThenCommitted(setup, w, actions, p, o);
    } else {
      PassedOverIsUnsettled(setup, w1, actions[1..], p, o);
    }
  }

  /** Where a record stands when a run goes on from `w`: passed over already, past it and about to be
      committed over, or still to be passed over. */
  predicate Doomed(setup: Setup, w: World, actions: seq<Action>, p: nat, o: nat)
    requires Shaped(setup, w) && p < |setup.log| && o < |setup.log[p]|
  {
    || o < w.committed[p]
    || (o < w.workers[p].position && CommitsFirst(setup, w, actions, p))
    || PassedOver(setup, w, actions, p, o)
  }

  lemma DoomedStep(setup: Setup, w: World, actions: seq<Action>, p: nat, o: nat)
    requires Shaped(setup, w) && Accounted(setup, w) && p < |setup.log| && o < |setup.log[p]|
    requires actions != [] && !Settled(setup, Apply(setup, w, actions[0]), p, o)
    requires Doomed(setup, Apply(setup, w, actions[0]), actions[1..], p, o)
    ensures Doomed(setup, w, actions, p, o)
  {
    var a, w' := actions[0], Apply(setup, w, actions[0]);
    OneStep(setup, w, a, p);
    assert !Settled(setup, w, p, o) by {
      if Settled(setup, w, p, o) {
        SettledStays(setup, w, w', p, o);
      }
    }
    hide Apply;
  }

  lemma {:induction false} UnsettledWasDoomed(setup: Setup, w: World, actions: seq<Action>, p: nat, o: nat)
    requires Shaped(setup, w) && Accounted(setup, w) && p < |setup.log| && o < |setup.log[p]|
    requires !Settled(setup, RunActions(setup, w, actions), p, o) && o < RunActions(setup, w, actions).committed[p]
    ensures Doomed(setup, w, actions, p, o)
    decreases |actions|
  {
    if actions != [] {
      hide Apply, Accounted, Doomed, Settled;
      var w' := Apply(setup, w, actions[0]);
      StepStaysAccounted(setup, w, actions[0]);
      UnsettledWasDoomed(setup, w', actions[1..], p, o);
      NothingIsForgotten(setup, w', actions[1..]);
      UnsettledBefore(setup, w', RunActions(setup, w', actions[1..]), p, o);
      DoomedStep(setup, w, actions, p, o);
    } else {
      hide PassedOver, CommitsFirst;
    }
  }

  lemma UnsettledBefore(setup: Setup, w: World, w': World, p: nat, o: nat)
    requires p < |setup.log| && o < |setup.log[p]| && w.parked <= w'.parked && w.saves <= w'.saves
    requires !Settled(setup, w', p, o)
    ensures !Settled(setup, w, p, o)
  {
    if Settled(setup, w, p, o) {
      SettledStays(setup, w, w', p, o);
    }
  }

  /** A record below its committed offset is unsettled if and only if somewhere in the run its write was
      refused, its worker committed before it crashed, and no other record's investigation of the same
      failure was saved. Where no other record carries the failure, the last part goes without saying. */
  lemma LostExactlyWhen(setup: Setup, actions: seq<Action>, p: nat, o: nat)
    requires p < |setup.log| && o < |setup.log[p]|
    ensures var w := RunActions(setup, Start(setup), actions);
      var lost := o < w.committed[p] && !Settled(setup, w, p, o);
      var passed := PassedOver(setup, Start(setup), actions, p, o);
      && (lost <==> passed && !SavedAt(setup, w, p, o))
      && (Single(setup, p, o) ==> (lost <==> passed))
  {
    hide RunActions, PassedOver, Single, Accounted, CommitsFirst;
    var start, w := Start(setup), RunActions(setup, Start(setup), actions);
    AccountedAtStart(setup);
    if PassedOver(setup, start, actions, p, o) {
      PassedOverIsUnsettled(setup, start, actions, p, o);
    }
    if o < w.committed[p] && !Settled(setup, w, p, o) {
      UnsettledWasDoomed(setup, start, actions, p, o);
    }
  }

  // ---------- Lost for good ----------

  /** No run from here settles the record. */
  ghost predicate LostForGood(setup: Setup, w: World, p: nat, o: nat)
    requires Shaped(setup, w) && p < |setup.log| && o < |setup.log[p]|
  {
    forall more: seq<Action> :: !Settled(setup, RunActions(setup, w, more), p, o)
  }

  /** Every record that carries the failure is below its committed offset. */
  ghost predicate AllCommittedOver(setup: Setup, w: World, p: nat, o: nat)
    requires Shaped(setup, w) && p < |setup.log| && o < |setup.log[p]|
  {
    forall q, j :: 0 <= q < |setup.log| && 0 <= j < |setup.log[q]| && Carries(setup, q, j, p, o) ==> j < w.committed[q]
  }

  lemma CommittedOverStays(setup: Setup, w: World, a: Action, p: nat, o: nat)
    requires Shaped(setup, w) && p < |setup.log| && o < |setup.log[p]|
    requires AllCommittedOver(setup, w, p, o) && !Settled(setup, w, p, o)
    ensures AllCommittedOver(setup, Apply(setup, w, a), p, o) && !Settled(setup, Apply(setup, w, a), p, o)
  {
    var w' := Apply(setup, w, a);
    assert Carries(setup, p, o, p, o);
    forall q, j | 0 <= q < |setup.log| && 0 <= j < |setup.log[q]| && Carries(setup, q, j, p, o)
      ensures j < w'.committed[q]
    {
      OneStep(setup, w, a, q);
    }
    if SavedAt(setup, w', p, o) {
      WhoSaves(setup, w, a, p, o);
    }
  }

  lemma {:induction false} CommittedOverIsLost(setup: Setup, w: World, more: seq<Action>, p: nat, o: nat)
    requires Shaped(setup, w) && p < |setup.log| && o < |setup.log[p]|
    requires AllCommittedOver(setup, w, p, o) && !Settled(setup, w, p, o)
    ensures !Settled(setup, RunActions(setup, w, more), p, o)
    decreases |more|
  {
    if more != [] {
      CommittedOverStays(setup, w, more[0], p, o);
      hide Apply, AllCommittedOver, Settled;
      CommittedOverIsLost(setup, Apply(setup, w, more[0]), more[1..], p, o);
    }
  }

  /** As long as some record of the failure is not committed over, some run settles it. */
  lemma CanStillBeSettled(setup: Setup, w: World, p: nat, o: nat, q: nat, j: nat) returns (more: seq<Action>)
    requires Shaped(setup, w) && Accounted(setup, w)
    requires p < |setup.log| && o < |setup.log[p]| && q < |setup.log| && j < |setup.log[q]|
    requires Carries(setup, q, j, p, o) && w.committed[q] <= j
    ensures Settled(setup, RunActions(setup, w, more), p, o)
  {
    hide Apply, RunActions;
    var there := StartOver(setup, w, q, j);
    var w1 := RunActions(setup, w, there);
    var last := [];
    if q == p && j == o {
      last := SkipOne(setup, w1, q);
    } else if !Finished(w1, setup.log[p][o].incident) {
      last := SaveIt(setup, w1, q, setup.log[p][o].incident, Broke());
    } else {
      RunStaysAccounted(setup, w, there);
      NothingMore(setup, w1);
    }
    more := there + last;
    ActionsAppend(setup, w, there, last);
  }

  /** In every reachable world, a record is lost for good if and only if it is unsettled and every record
      that carries its failure is below its committed offset. */
  lemma LostForGoodExactlyWhen(setup: Setup, actions: seq<Action>, p: nat, o: nat)
    requires p < |setup.log| && o < |setup.log[p]|
    ensures var w := RunActions(setup, Start(setup), actions);
      LostForGood(setup, w, p, o) <==> !Settled(setup, w, p, o) && AllCommittedOver(setup, w, p, o)
  {
    var w := RunActions(setup, Start(setup), actions);
    AccountedAtStart(setup);
    RunStaysAccounted(setup, Start(setup), actions);
    assert RunActions(setup, w, []) == w;
    hide RunActions, Settled, Accounted;
    if !Settled(setup, w, p, o) && AllCommittedOver(setup, w, p, o) {
      forall more: seq<Action> ensures !Settled(setup, RunActions(setup, w, more), p, o) {
        CommittedOverIsLost(setup, w, more, p, o);
      }
    } else if !AllCommittedOver(setup, w, p, o) {
      var q, j :| 0 <= q < |setup.log| && 0 <= j < |setup.log[q]| && Carries(setup, q, j, p, o) && j >= w.committed[q];
      var more := CanStillBeSettled(setup, w, p, o, q, j);
    }
  }

  /** So a record whose failure no other record carries is lost for good if and only if its write was
      refused and its worker then committed before it crashed. */
  lemma TheNextCommitLosesIt(setup: Setup, actions: seq<Action>, p: nat, o: nat)
    requires p < |setup.log| && o < |setup.log[p]| && Single(setup, p, o)
    ensures LostForGood(setup, RunActions(setup, Start(setup), actions), p, o)
      <==> PassedOver(setup, Start(setup), actions, p, o)
  {
    hide RunActions, PassedOver, Settled, LostForGood;
    var w := RunActions(setup, Start(setup), actions);
    LostExactlyWhen(setup, actions, p, o);
    LostForGoodExactlyWhen(setup, actions, p, o);
    assert Carries(setup, p, o, p, o);
    assert AllCommittedOver(setup, w, p, o) <==> o < w.committed[p];
  }
}
