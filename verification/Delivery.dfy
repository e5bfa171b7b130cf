/** At-least-once delivery as a state machine: workers, one per partition, that may crash between any
    two steps and restart from the committed offset. */
module Delivery {
  import opened Domain
  import opened States
  import opened Storage

  /** A record is either unreadable or carries one task failure. */
  datatype Payload = Unparseable | FailureOf(incident: Identity)

  datatype Setup = Setup(log: seq<seq<Payload>>, maxAttempts: nat)

  /** Where a worker stands with the record at its position. `attempt` counts handler runs within
      this delivery and `run` is the investigation's own attempt number. */
  datatype Phase =
    | Ready
    | Handling(attempt: nat)
    | Opened(attempt: nat)
    | Running(attempt: nat, run: nat)
    | Persisted(attempt: nat, run: nat, state: State)
    | Parking
    | Done

  datatype Worker = Worker(position: nat, phase: Phase)

  datatype Announcement = Announcement(incident: Identity, run: nat, diagnosis: Diagnosis)

  datatype Save = Save(incident: Identity, run: nat)

  /** A record's place: its partition and offset. */
  type Place = (nat, nat)

  /** `saves` and `refused` are history: the save transactions that committed, and the records whose
      dead-letter write failed. */
  datatype World = World(
    tables: Tables,
    committed: seq<nat>,
    workers: seq<Worker>,
    parked: set<Place>,
    announced: seq<Announcement>,
    saves: seq<Save>,
    refused: set<Place>)

  datatype Action =
    | Deliver(worker: nat)
    | Open(worker: nat)
    | Begin(worker: nat)
    | Persist(worker: nat, state: State)
    | Announce(worker: nat, accepted: bool)
    | Raise(worker: nat, rejected: bool)
    | Park(worker: nat, accepted: bool)
    | Commit(worker: nat)
    | Crash(worker: nat)

  function Start(setup: Setup): World {
    var n := |setup.log|;
    World(EMPTY, seq(n, _ => 0), seq(n, _ => Worker(0, Ready)), {}, [], [], {})
  }

  predicate InHandler(phase: Phase) {
    phase.Handling? || phase.Opened? || phase.Running? || phase.Persisted?
  }

  /** One worker per partition, each at a record of its own partition whenever it is busy. */
  predicate Shaped(setup: Setup, w: World) {
    && |w.committed| == |w.workers| == |setup.log|
    && forall p :: 0 <= p < |setup.log| ==>
         && w.workers[p].position <= |setup.log[p]|
         && w.committed[p] <= w.workers[p].position
         && (w.workers[p].phase != Ready ==> w.workers[p].position < |setup.log[p]|)
         && (InHandler(w.workers[p].phase) ==> setup.log[p][w.workers[p].position].FailureOf?)
         && (w.workers[p].phase.Opened? || w.workers[p].phase.Running? ==>
               setup.log[p][w.workers[p].position].incident in w.tables.incidents)
  }

  function Move(w: World, p: nat, phase: Phase): World
    requires p < |w.workers|
  {
    w.(workers := w.workers[p := w.workers[p].(phase := phase)])
  }

  /** The failure the worker holds while it is in the handler. */
  function Held(setup: Setup, w: World, p: nat): Identity
    requires Shaped(setup, w) && p < |setup.log| && InHandler(w.workers[p].phase)
  {
    setup.log[p][w.workers[p].position].incident
  }

  /** The first transaction of the handler: record the delivery, and stop if already diagnosed. */
  function OpenIncident(setup: Setup, w: World, p: nat): World
    requires Shaped(setup, w) && p < |setup.log| && w.workers[p].phase.Handling?
  {
    var id := Held(setup, w, p);
    var done := id in w.tables.incidents && Terminal(w.tables.incidents[id].status);
    Move(w.(tables := Recorded(w.tables, id)), p,
         if done then Done else Opened(w.workers[p].phase.attempt))
  }

  /** The second transaction: mark the incident as being investigated and take an attempt number. */
  function BeginInvestigation(setup: Setup, w: World, p: nat): World
    requires Shaped(setup, w) && p < |setup.log| && w.workers[p].phase.Opened?
  {
    var id := Held(setup, w, p);
    Move(w.(tables := SetStatus(w.tables, id, Investigating)), p,
         Running(w.workers[p].phase.attempt, NextAttempt(w.tables, id)))
  }

  /** The third transaction: everything the investigation produced, and the final status, at once. */
  function PersistInvestigation(setup: Setup, w: World, p: nat, state: State): World
    requires Shaped(setup, w) && p < |setup.log| && w.workers[p].phase.Running?
  {
    var id, phase := Held(setup, w, p), w.workers[p].phase;
    var saved := SetStatus(Saved(w.tables, id, state, phase.run), id, StatusFor(state));
    Move(w.(tables := saved, saves := w.saves + [Save(id, phase.run)]), p,
         Persisted(phase.attempt, phase.run, state))
  }

  /** What an announcement adds: nothing without a diagnosis, or when the broker refuses it. */
  function Sent(accepted: bool, id: Identity, run: nat, state: State): seq<Announcement> {
    if accepted && state.diagnosis.Some? then [Announcement(id, run, state.diagnosis.value)] else []
  }

  /** A diagnosis the broker accepts is announced; a refused announcement is only logged. */
  function AnnounceDiagnosis(setup: Setup, w: World, p: nat, accepted: bool): World
    requires Shaped(setup, w) && p < |setup.log| && w.workers[p].phase.Persisted?
  {
    var phase := w.workers[p].phase;
    var sent := Sent(accepted, Held(setup, w, p), phase.run, phase.state);
    Move(w.(announced := w.announced + sent), p, Done)
  }

  /** Anything the handler raises is retried up to the limit; a rejected event is parked at once. */
  function HandlerRaises(setup: Setup, w: World, p: nat, rejected: bool): World
    requires Shaped(setup, w) && p < |setup.log| && InHandler(w.workers[p].phase)
  {
    var attempt := w.workers[p].phase.attempt;
    Move(w, p, if rejected || attempt >= setup.maxAttempts then Parking else Handling(attempt + 1))
  }

  /** A refused dead-letter write leaves the offset alone, but the loop goes on to the next record. */
  function ParkRecord(setup: Setup, w: World, p: nat, accepted: bool): World
    requires Shaped(setup, w) && p < |setup.log| && w.workers[p].phase.Parking?
  {
    var at := w.workers[p].position;
    if accepted then Move(w.(parked := w.parked + {(p, at)}), p, Done)
    else w.(refused := w.refused + {(p, at)}, workers := w.workers[p := Worker(at + 1, Ready)])
  }

  /** An announcement the broker accepts is exactly the persisted diagnosis under its own attempt; a refused
      one, or a state without a diagnosis, announces nothing. */
  lemma AnAnnouncementIsTheDiagnosis(setup: Setup, w: World, p: nat, accepted: bool)
    requires Shaped(setup, w) && p < |setup.log| && w.workers[p].phase.Persisted?
    ensures var w', phase := Apply(setup, w, Announce(p, accepted)), w.workers[p].phase;
      && w'.workers[p].phase == Done && w'.tables == w.tables && w'.saves == w.saves
      && (accepted && phase.state.diagnosis.Some? ==>
            w'.announced == w.announced + [Announcement(Held(setup, w, p), phase.run, phase.state.diagnosis.value)])
      && (!accepted || phase.state.diagnosis.None? ==> w'.announced == w.announced)
  {}

  /** One step of one worker; an action that does not fit its phase changes nothing. */
  function Apply(setup: Setup, w: World, a: Action): (w': World)
    requires Shaped(setup, w)
    ensures Shaped(setup, w')
  {
    var p := a.worker;
    if p >= |setup.log| then w
    else
      var phase, at := w.workers[p].phase, w.workers[p].position;
      match a
      case Deliver(_) =>
        if phase.Ready? && at < |setup.log[p]|
        then Move(w, p, if setup.log[p][at].Unparseable? then Parking else Handling(1)) else w
      case Open(_) => if phase.Handling? then OpenIncident(setup, w, p) else w
      case Begin(_) => if phase.Opened? then BeginInvestigation(setup, w, p) else w
      case Persist(_, state) => if phase.Running? then PersistInvestigation(setup, w, p, state) else w
      case Announce(_, accepted) => if phase.Persisted? then AnnounceDiagnosis(setup, w, p, accepted) else w
      case Raise(_, rejected) => if InHandler(phase) then HandlerRaises(setup, w, p, rejected) else w
      case Park(_, accepted) => if phase.Parking? then ParkRecord(setup, w, p, accepted) else w
      case Commit(_) =>
        if phase.Done?
        then w.(committed := w.committed[p := at + 1], workers := w.workers[p := Worker(at + 1, Ready)])
        else w
      case Crash(_) => w.(workers := w.workers[p := Worker(w.committed[p], Ready)])
  }

  function RunActions(setup: Setup, w: World, actions: seq<Action>): (w': World)
    requires Shaped(setup, w)
    ensures Shaped(setup, w')
    decreases |actions|
  {
    if actions == [] then w else RunActions(setup, Apply(setup, w, actions[0]), actions[1..])
  }

  lemma {:induction false} ActionsAppend(setup: Setup, w: World, actions: seq<Action>, more: seq<Action>)
    requires Shaped(setup, w)
    ensures RunActions(setup, w, actions + more) == RunActions(setup, RunActions(setup, w, actions), more)
    decreases |actions|
  {
    if actions == [] {
      assert actions + more == more;
    } else {
      assert (actions + more)[0] == actions[0] && (actions + more)[1..] == actions[1..] + more;
      ActionsAppend(setup, Apply(setup, w, actions[0]), actions[1..], more);
    }
  }

  // ---------- Delivery without loss ----------

  predicate WasSaved(w: World, id: Identity) {
    exists i :: 0 <= i < |w.saves| && w.saves[i].incident == id
  }

  /** The incident has reached a terminal status. */
  predicate Finished(w: World, id: Identity) {
    id in w.tables.incidents && Terminal(w.tables.incidents[id].status)
  }

  /** The record is accounted for: its investigation was saved, or a dead-letter copy exists. */
  predicate Settled(setup: Setup, w: World, p: nat, offset: nat)
    requires p < |setup.log| && offset < |setup.log[p]|
  {
    || (p, offset) in w.parked
    || (setup.log[p][offset].FailureOf? && WasSaved(w, setup.log[p][offset].incident))
  }

  ghost predicate Accounted(setup: Setup, w: World)
    requires Shaped(setup, w)
  {
    && (forall id :: id in w.tables.incidents && Terminal(w.tables.incidents[id].status) ==> WasSaved(w, id))
    && (forall p, o :: 0 <= p < |setup.log| && 0 <= o < w.committed[p] ==>
          Settled(setup, w, p, o) || (p, o) in w.refused)
    && (forall p, o :: 0 <= p < |setup.log| && w.committed[p] <= o < w.workers[p].position ==>
          (p, o) in w.refused)
    && (forall p :: 0 <= p < |setup.log| ==>
          && (w.workers[p].phase.Done? ==> Settled(setup, w, p, w.workers[p].position))
          && (w.workers[p].phase.Persisted? ==> WasSaved(w, Held(setup, w, p))))
  }

  lemma SettledStays(setup: Setup, w: World, w': World, p: nat, o: nat)
    requires p < |setup.log| && o < |setup.log[p]| && Settled(setup, w, p, o)
    requires w.parked <= w'.parked && w.saves <= w'.saves
    ensures Settled(setup, w', p, o)
  {}

  lemma AccountedAtStart(setup: Setup)
    ensures Accounted(setup, Start(setup))
  {}

  /** Steps that touch neither rows nor places only move one worker within its record. */
  lemma MovingStaysAccounted(setup: Setup, w: World, w': World, p: nat)
    requires Shaped(setup, w) && Accounted(setup, w) && Shaped(setup, w') && p < |setup.log|
    requires w.parked <= w'.parked && w.saves <= w'.saves && w.refused <= w'.refused
    requires w'.committed == w.committed
    requires |w'.workers| == |w.workers| && forall q :: 0 <= q < |w.workers| && q != p ==> w'.workers[q] == w.workers[q]
    requires w'.workers[p].position == w.workers[p].position
    requires forall id :: id in w'.tables.incidents && Terminal(w'.tables.incidents[id].status) ==> WasSaved(w', id)
    requires w'.workers[p].phase.Done? ==> Settled(setup, w', p, w.workers[p].position)
    requires w'.workers[p].phase.Persisted? ==> WasSaved(w', Held(setup, w', p))
    ensures Accounted(setup, w')
  {}

  lemma SavedStays(w: World, w': World, id: Identity)
    requires w.saves <= w'.saves && WasSaved(w, id)
    ensures WasSaved(w', id)
  {}

  lemma HandlerStaysAccounted(setup: Setup, w: World, a: Action)
    requires Shaped(setup, w) && Accounted(setup, w) && a.worker < |setup.log|
    requires a.Open? || a.Begin? || a.Persist? || a.Announce? || a.Raise? || a.Deliver?
    ensures Accounted(setup, Apply(setup, w, a))
  {
    var p, w' := a.worker, Apply(setup, w, a);
    if a.Persist? && w.workers[p].phase.Running? {
      var id := Held(setup, w, p);
      assert w'.saves[|w.saves|].incident == id;
      forall j | j in w'.tables.incidents && Terminal(w'.tables.incidents[j].status) ensures WasSaved(w', j) {
        if j != id {
          SavedStays(w, w', j);
        }
      }
      MovingStaysAccounted(setup, w, w', p);
    } else {
      assert w'.saves == w.saves;
      MovingStaysAccounted(setup, w, w', p);
    }
  }

  /** A dead-letter write settles its record or leaves it among the refused. */
  lemma ParkingStaysAccounted(setup: Setup, w: World, p: nat, accepted: bool)
    requires Shaped(setup, w) && Accounted(setup, w) && p < |setup.log|
    ensures Accounted(setup, Apply(setup, w, Park(p, accepted)))
  {
    var w' := Apply(setup, w, Park(p, accepted));
    assert w'.saves == w.saves && w'.tables == w.tables && w.parked <= w'.parked;
    forall q, o | 0 <= q < |setup.log| && 0 <= o < |setup.log[q]| && Settled(setup, w, q, o)
      ensures Settled(setup, w', q, o)
    {
      SettledStays(setup, w, w', q, o);
    }
  }

  /** Offsets and positions alone decide nothing about which records are settled. */
  lemma PlacesStayAccounted(setup: Setup, w: World, a: Action)
    requires Shaped(setup, w) && Accounted(setup, w) && a.worker < |setup.log|
    requires a.Commit? || a.Crash?
    ensures Accounted(setup, Apply(setup, w, a))
  {
    var w' := Apply(setup, w, a);
    assert w'.saves == w.saves && w'.tables == w.tables && w'.parked == w.parked && w'.refused == w.refused;
    forall q, o | 0 <= q < |setup.log| && 0 <= o < |setup.log[q]|
      ensures Settled(setup, w', q, o) <==> Settled(setup, w, q, o)
    {}
  }

  lemma StepStaysAccounted(setup: Setup, w: World, a: Action)
    requires Shaped(setup, w) && Accounted(setup, w)
    ensures Accounted(setup, Apply(setup, w, a))
  {
    if a.worker < |setup.log| {
      if a.Park? {
        ParkingStaysAccounted(setup, w, a.worker, a.accepted);
      } else if a.Commit? || a.Crash? {
        PlacesStayAccounted(setup, w, a);
      } else {
        HandlerStaysAccounted(setup, w, a);
      }
    }
  }

  lemma {:induction false} RunStaysAccounted(setup: Setup, w: World, actions: seq<Action>)
    requires Shaped(setup, w) && Accounted(setup, w)
    ensures Accounted(setup, RunActions(setup, w, actions))
    decreases |actions|
  {
    if actions != [] {
      StepStaysAccounted(setup, w, actions[0]);
      RunStaysAccounted(setup, Apply(setup, w, actions[0]), actions[1..]);
    }
  }

  /** In every run with crashes anywhere, each record below the committed offset is saved or parked,
      unless its own dead-letter write was refused. */
  lemma NothingIsLost(setup: Setup, actions: seq<Action>)
    ensures var w := RunActions(setup, Start(setup), actions);
      && (forall p :: 0 <= p < |setup.log| ==> w.committed[p] <= |setup.log[p]|)
      && (forall p, o :: 0 <= p < |setup.log| && 0 <= o < w.committed[p] ==>
            Settled(setup, w, p, o) || (p, o) in w.refused)
  {
    hide RunActions;
    AccountedAtStart(setup);
    RunStaysAccounted(setup, Start(setup), actions);
  }

  /** A worker only commits past a record that is settled. */
  lemma CommittingIsSettled(setup: Setup, actions: seq<Action>, p: nat)
    requires p < |setup.log| && RunActions(setup, Start(setup), actions).workers[p].phase.Done?
    ensures var w := RunActions(setup, Start(setup), actions);
            Settled(setup, Apply(setup, w, Commit(p)), p, w.workers[p].position)
  {
    hide RunActions;
    AccountedAtStart(setup);
    RunStaysAccounted(setup, Start(setup), actions);
    var w := RunActions(setup, Start(setup), actions);
    SettledStays(setup, w, Apply(setup, w, Commit(p)), p, w.workers[p].position);
  }

  lemma OneMore(setup: Setup, w: World, a: Action, rest: seq<Action>)
    requires Shaped(setup, w)
    ensures RunActions(setup, w, [a] + rest) == RunActions(setup, Apply(setup, w, a), rest)
  {}

  /** The world of a single worker that has stored nothing. */
  function Lone(committed: nat, worker: Worker, parked: set<Place>, refused: set<Place>): World {
    World(EMPTY, [committed], [worker], parked, [], [], refused)
  }

  /** An unreadable record whose write is refused is passed over. */
  lemma RefusedStep(setup: Setup)
    requires setup.log == [[Unparseable, Unparseable]]
    ensures RunActions(setup, Start(setup), [Deliver(0), Park(0, false)]) == Lone(0, Worker(1, Ready), {}, {(0, 0)})
  {
    hide RunActions;
    assert Start(setup) == Lone(0, Worker(0, Ready), {}, {});
    var w1 := Lone(0, Worker(0, Parking), {}, {});
    assert Apply(setup, Start(setup), Deliver(0)) == w1;
    assert Apply(setup, w1, Park(0, false)) == Lone(0, Worker(1, Ready), {}, {(0, 0)});
    TwoMore(setup, Start(setup), Deliver(0), Park(0, false));
  }

  /** The next record, parked and committed, moves the offset beyond both. */
  lemma AcceptedStep(setup: Setup)
    requires setup.log == [[Unparseable, Unparseable]]
    ensures Shaped(setup, Lone(0, Worker(1, Ready), {}, {(0, 0)}))
    ensures RunActions(setup, Lone(0, Worker(1, Ready), {}, {(0, 0)}), [Deliver(0), Park(0, true), Commit(0)])
         == Lone(2, Worker(2, Ready), {(0, 1)}, {(0, 0)})
  {
    hide RunActions;
    var w0, w1 := Lone(0, Worker(1, Ready), {}, {(0, 0)}), Lone(0, Worker(1, Parking), {}, {(0, 0)});
    var w2 := Lone(0, Worker(1, Done), {(0, 1)}, {(0, 0)});
    assert Apply(setup, w0, Deliver(0)) == w1;
    assert Apply(setup, w1, Park(0, true)) == w2;
    assert Apply(setup, w2, Commit(0)) == Lone(2, Worker(2, Ready), {(0, 1)}, {(0, 0)});
    ThreeMore(setup, w0, Deliver(0), Park(0, true), Commit(0));
  }

  lemma TwoMore(setup: Setup, w: World, a: Action, b: Action)
    requires Shaped(setup, w)
    ensures RunActions(setup, w, [a, b]) == Apply(setup, Apply(setup, w, a), b)
  {
    hide Apply;
    OneMore(setup, w, a, [b]);
    OneMore(setup, Apply(setup, w, a), b, []);
    assert [a] + [b] == [a, b] && [b] + [] == [b];
  }

  lemma ThreeMore(setup: Setup, w: World, a: Action, b: Action, c: Action)
    requires Shaped(setup, w)
    ensures RunActions(setup, w, [a, b, c]) == Apply(setup, Apply(setup, Apply(setup, w, a), b), c)
  {
    hide Apply;
    OneMore(setup, w, a, [b, c]);
    TwoMore(setup, Apply(setup, w, a), b, c);
    assert [a] + [b, c] == [a, b, c];
  }

  /** The exception is real: a refused write, then a later commit, passes over an unrecorded record. */
  lemma ARefusedParkCanLose()
    ensures var setup := Setup([[Unparseable, Unparseable]], 1);
      var w := RunActions(setup, Start(setup), [Deliver(0), Park(0, false), Deliver(0), Park(0, true), Commit(0)]);
      w.committed[0] == 2 && !Settled(setup, w, 0, 0)
  {
    hide RunActions, Apply;
    var setup := Setup([[Unparseable, Unparseable]], 1);
    RefusedStep(setup);
    AcceptedStep(setup);
    ActionsAppend(setup, Start(setup), [Deliver(0), Park(0, false)], [Deliver(0), Park(0, true), Commit(0)]);
    assert [Deliver(0), Park(0, false)] + [Deliver(0), Park(0, true), Commit(0)]
        == [Deliver(0), Park(0, false), Deliver(0), Park(0, true), Commit(0)];
  }
}
