/** Exactly-once effect over at-least-once delivery: how often an incident is investigated and
    announced, however often its failure is delivered and whoever crashes. */
module ExactlyOnce {
  import opened Domain
  import opened States
  import opened Storage
  import opened Delivery
  import opened Driving

  /** The producer's partition key sends every record of one failure to the same partition. */
  ghost predicate Keyed(setup: Setup) {
    forall p, q, i, j |
      && 0 <= p < |setup.log| && 0 <= q < |setup.log| && 0 <= i < |setup.log[p]| && 0 <= j < |setup.log[q]|
      && setup.log[p][i].FailureOf? && setup.log[p][i] == setup.log[q][j] :: p == q
  }

  predicate Stored(w: World, id: Identity, run: nat, diagnosis: Diagnosis) {
    DiagnosisRow(id, run, diagnosis) in w.tables.diagnoses
  }

  /** Whatever is announced, or is about to be, is already in the database under the same attempt. */
  ghost predicate Backed(setup: Setup, w: World)
    requires Shaped(setup, w)
  {
    && (forall a :: a in w.announced ==> Stored(w, a.incident, a.run, a.diagnosis))
    && (forall p | 0 <= p < |setup.log| && w.workers[p].phase.Persisted? ::
          var phase := w.workers[p].phase;
          phase.state.diagnosis.Some? ==>
            Stored(w, Held(setup, w, p), phase.run, phase.state.diagnosis.value))
  }

  lemma PersistingStaysBacked(setup: Setup, w: World, p: nat, state: State)
    requires Shaped(setup, w) && Backed(setup, w) && p < |setup.log| && w.workers[p].phase.Running?
    ensures Backed(setup, Apply(setup, w, Persist(p, state)))
  {}

  lemma StepStaysBacked(setup: Setup, w: World, a: Action)
    requires Shaped(setup, w) && Backed(setup, w)
    ensures Backed(setup, Apply(setup, w, a))
  {
    if a.Persist? && a.worker < |setup.log| && w.workers[a.worker].phase.Running? {
      PersistingStaysBacked(setup, w, a.worker, a.state);
    } else {
      assert Apply(setup, w, a).tables.diagnoses == w.tables.diagnoses;
    }
  }

  lemma {:induction false} RunStaysBacked(setup: Setup, w: World, actions: seq<Action>)
    requires Shaped(setup, w) && Backed(setup, w)
    ensures Backed(setup, RunActions(setup, w, actions))
    decreases |actions|
  {
    if actions != [] {
      StepStaysBacked(setup, w, actions[0]);
      RunStaysBacked(setup, Apply(setup, w, actions[0]), actions[1..]);
    }
  }

  /** An announcement never runs ahead of the database. */
  lemma AnnouncementsAreStored(setup: Setup, actions: seq<Action>, a: Announcement)
    requires a in RunActions(setup, Start(setup), actions).announced
    ensures DiagnosisRow(a.incident, a.run, a.diagnosis)
              in RunActions(setup, Start(setup), actions).tables.diagnoses
  {
    RunStaysBacked(setup, Start(setup), actions);
  }

  // ---------- At most one investigation ----------

  predicate WasAnnounced(w: World, id: Identity) {
    exists i :: 0 <= i < |w.announced| && w.announced[i].incident == id
  }

  /** One save and one announcement at most per incident; a finished incident is a saved one. */
  ghost predicate OnceInTables(w: World) {
    && (forall id :: WasSaved(w, id) <==> Finished(w, id))
    && (forall i, j :: 0 <= i < j < |w.saves| ==> w.saves[i].incident != w.saves[j].incident)
    && (forall i, j :: 0 <= i < j < |w.announced| ==> w.announced[i].incident != w.announced[j].incident)
    && (forall i :: 0 <= i < |w.announced| ==> WasSaved(w, w.announced[i].incident))
    && (forall i :: 0 <= i < |w.saves| ==> w.saves[i].run == 1)
    && (forall row :: row in w.tables.diagnoses ==> WasSaved(w, row.incident))
  }

  /** A worker still investigating holds an unsaved incident; one that saved has yet to announce. */
  predicate OnceAt(setup: Setup, w: World, p: nat)
    requires Shaped(setup, w) && p < |setup.log|
  {
    var phase := w.workers[p].phase;
    && (phase.Opened? || phase.Running? ==> !WasSaved(w, Held(setup, w, p)))
    && (phase.Running? ==> phase.run == 1)
    && (phase.Persisted? ==> WasSaved(w, Held(setup, w, p)) && !WasAnnounced(w, Held(setup, w, p)))
  }

  ghost predicate Once(setup: Setup, w: World)
    requires Shaped(setup, w)
  {
    OnceInTables(w) && forall p :: 0 <= p < |setup.log| ==> OnceAt(setup, w, p)
  }

  lemma {:induction false} NoRowsNoAttempt(rows: seq<DiagnosisRow>, id: Identity)
    requires forall row :: row in rows ==> row.incident != id
    ensures MaxAttempt(rows, id) == 0
  {
    if rows != [] {
      assert rows[|rows| - 1] in rows;
      NoRowsNoAttempt(rows[..|rows| - 1], id);
    }
  }

  /** A step that changes no row of the history and starts nothing keeps the counts. */
  lemma QuietStaysOnce(setup: Setup, w: World, a: Action)
    requires Shaped(setup, w) && Once(setup, w)
    requires a.Deliver? || a.Raise? || a.Park? || a.Commit? || a.Crash?
    ensures Once(setup, Apply(setup, w, a))
  {
    var w' := Apply(setup, w, a);
    assert w'.tables == w.tables && w'.saves == w.saves && w'.announced == w.announced;
    forall id ensures WasSaved(w', id) <==> Finished(w', id) {
      assert WasSaved(w, id) <==> Finished(w, id);
    }
    forall p | 0 <= p < |setup.log| ensures OnceAt(setup, w', p) {
      assert OnceAt(setup, w, p);
    }
  }

  lemma OpeningStaysOnce(setup: Setup, w: World, a: Action)
    requires Shaped(setup, w) && Once(setup, w) && (a.Open? || a.Begin?)
    ensures Once(setup, Apply(setup, w, a))
  {
    var w' := Apply(setup, w, a);
    assert w'.saves == w.saves && w'.announced == w.announced && w'.tables.diagnoses == w.tables.diagnoses;
    if a.worker < |setup.log| && a.Begin? && w.workers[a.worker].phase.Opened? {
      assert OnceAt(setup, w, a.worker);
      NoRowsNoAttempt(w.tables.diagnoses, Held(setup, w, a.worker));
    }
    forall id ensures WasSaved(w', id) <==> Finished(w', id) {
      assert WasSaved(w, id) <==> Finished(w, id);
    }
    forall p | 0 <= p < |setup.log| ensures OnceAt(setup, w', p) {
      assert OnceAt(setup, w, p);
    }
  }

  lemma SavedAfter(w: World, w': World, id: Identity, run: nat)
    requires w'.saves == w.saves + [Save(id, run)]
    ensures forall j :: WasSaved(w', j) <==> WasSaved(w, j) || j == id
  {
    forall j ensures WasSaved(w', j) <==> WasSaved(w, j) || j == id {
      if WasSaved(w, j) {
        SavedStays(w, w', j);
      }
      if j == id {
        assert w'.saves[|w.saves|].incident == id;
      }
    }
  }

  lemma PersistingStaysOnce(setup: Setup, w: World, p: nat, state: State)
    requires Shaped(setup, w) && Once(setup, w) && Keyed(setup)
    requires p < |setup.log| && w.workers[p].phase.Running?
    ensures Once(setup, Apply(setup, w, Persist(p, state)))
  {
    var id, w' := Held(setup, w, p), Apply(setup, w, Persist(p, state));
    assert OnceAt(setup, w, p);
    SavedAfter(w, w', id, w.workers[p].phase.run);
    assert forall j :: Finished(w', j) <==> Finished(w, j) || j == id;
    assert forall i :: 0 <= i < |w.saves| ==> w.saves[i].incident != id;
    assert !WasAnnounced(w, id);
    assert w'.announced == w.announced;
    forall q | 0 <= q < |setup.log| ensures OnceAt(setup, w', q) {
      assert OnceAt(setup, w, q);
    }
  }

  lemma AnnouncingStaysOnce(setup: Setup, w: World, p: nat, accepted: bool)
    requires Shaped(setup, w) && Once(setup, w) && Keyed(setup)
    requires p < |setup.log| && w.workers[p].phase.Persisted?
    ensures Once(setup, Apply(setup, w, Announce(p, accepted)))
  {
    var id, w' := Held(setup, w, p), Apply(setup, w, Announce(p, accepted));
    assert OnceAt(setup, w, p);
    assert w'.saves == w.saves && w'.tables == w.tables;
    assert forall j :: WasSaved(w', j) <==> WasSaved(w, j);
    forall q | 0 <= q < |setup.log| ensures OnceAt(setup, w', q) {
      assert OnceAt(setup, w, q);
      if q != p && w.workers[q].phase.Persisted? {
        assert Held(setup, w, q) != id;
        assert !WasAnnounced(w', Held(setup, w, q));
      }
    }
  }

  lemma StepStaysOnce(setup: Setup, w: World, a: Action)
    requires Shaped(setup, w) && Once(setup, w) && Keyed(setup)
    ensures Once(setup, Apply(setup, w, a))
  {
    if a.Open? || a.Begin? {
      OpeningStaysOnce(setup, w, a);
    } else if a.Persist? && a.worker < |setup.log| && w.workers[a.worker].phase.Running? {
      PersistingStaysOnce(setup, w, a.worker, a.state);
    } else if a.Announce? && a.worker < |setup.log| && w.workers[a.worker].phase.Persisted? {
      AnnouncingStaysOnce(setup, w, a.worker, a.accepted);
    } else if !a.Persist? && !a.Announce? {
      QuietStaysOnce(setup, w, a);
    }
  }

  lemma {:induction false} RunStaysOnce(setup: Setup, w: World, actions: seq<Action>)
    requires Shaped(setup, w) && Once(setup, w) && Keyed(setup)
    ensures Once(setup, RunActions(setup, w, actions))
    decreases |actions|
  {
    if actions != [] {
      StepStaysOnce(setup, w, actions[0]);
      RunStaysOnce(setup, Apply(setup, w, actions[0]), actions[1..]);
    }
  }

  /** However often a failure is redelivered and wherever workers crash, its incident is saved and
      announced at most once, always as attempt one, and never announced without being saved. */
  lemma InvestigatedAtMostOnce(setup: Setup, actions: seq<Action>)
    requires Keyed(setup)
    ensures var w := RunActions(setup, Start(setup), actions);
      && (forall i, j :: 0 <= i < j < |w.saves| ==> w.saves[i].incident != w.saves[j].incident)
      && (forall i :: 0 <= i < |w.saves| ==> w.saves[i].run == 1)
      && (forall i, j :: 0 <= i < j < |w.announced| ==> w.announced[i].incident != w.announced[j].incident)
      && (forall i :: 0 <= i < |w.announced| ==> WasSaved(w, w.announced[i].incident))
      && (forall id :: WasSaved(w, id) <==> Finished(w, id))
  {
    RunStaysOnce(setup, Start(setup), actions);
  }

  /** A worker takes up an unfinished, never diagnosed failure and starts attempt one. */
  lemma TakesUp(setup: Setup, w: World, p: nat, o: nat, id: Identity)
    requires Shaped(setup, w) && p < |setup.log| && o < |setup.log[p]| && setup.log[p][o] == FailureOf(id)
    requires w.workers[p] == Worker(o, Ready) && w.tables.diagnoses == [] && !Finished(w, id)
    ensures var w' := RunActions(setup, w, [Deliver(p), Open(p), Begin(p)]);
      && w'.workers == w.workers[p := Worker(o, Running(1, 1))]
      && w'.tables.diagnoses == [] && !Finished(w', id) && w'.saves == w.saves
  {
    hide RunActions;
    var w1 := Apply(setup, w, Deliver(p));
    assert w1 == Move(w, p, Handling(1));
    var w2 := Apply(setup, w1, Open(p));
    assert w2.workers == w.workers[p := Worker(o, Opened(1))] && w2.tables.diagnoses == [];
    ThreeMore(setup, w, Deliver(p), Open(p), Begin(p));
  }

  lemma Saves(setup: Setup, w: World, p: nat, state: State)
    requires Shaped(setup, w) && p < |setup.log| && w.workers[p].phase.Running?
    ensures var w' := RunActions(setup, w, [Persist(p, state)]);
      && w'.saves == w.saves + [Save(Held(setup, w, p), w.workers[p].phase.run)]
      && forall q :: 0 <= q < |w.workers| && q != p ==> w'.workers[q] == w.workers[q]
  {}

  /** Two workers that both stand at the same failure, not yet saved, can both save an investigation. */
  lemma BothSave(setup: Setup, w: World, p: nat, i: nat, q: nat, j: nat, id: Identity, state: State)
    returns (more: seq<Action>)
    requires Shaped(setup, w) && p != q && p < |setup.log| && q < |setup.log|
    requires i < |setup.log[p]| && j < |setup.log[q]| && setup.log[p][i] == setup.log[q][j] == FailureOf(id)
    requires w.workers[p] == Worker(i, Ready) && w.workers[q] == Worker(j, Ready)
    requires w.tables.diagnoses == [] && !Finished(w, id) && w.saves == []
    ensures RunActions(setup, w, more).saves == [Save(id, 1), Save(id, 1)]
  {
    hide Apply, RunActions;
    var t0, t1 := [Deliver(p), Open(p), Begin(p)], [Deliver(q), Open(q), Begin(q)];
    TakesUp(setup, w, p, i, id);
    var w1 := RunActions(setup, w, t0);
    TakesUp(setup, w1, q, j, id);
    var w2 := RunActions(setup, w1, t1);
    Saves(setup, w2, p, state);
    Saves(setup, RunActions(setup, w2, [Persist(p, state)]), q, state);
    ActionsAppend(setup, w, t0, t1);
    ActionsAppend(setup, w, t0 + t1, [Persist(p, state)]);
    ActionsAppend(setup, w, t0 + t1 + [Persist(p, state)], [Persist(q, state)]);
    more := t0 + t1 + [Persist(p, state)] + [Persist(q, state)];
  }

  /** Wherever one failure is on two partitions, some run saves two investigations of it as attempt one. */
  lemma UnkeyedFailuresAreSavedTwice(setup: Setup, p: nat, i: nat, q: nat, j: nat, id: Identity, state: State)
    returns (actions: seq<Action>)
    requires p < |setup.log| && q < |setup.log| && i < |setup.log[p]| && j < |setup.log[q]|
    requires p != q && setup.log[p][i] == setup.log[q][j] == FailureOf(id)
    ensures RunActions(setup, Start(setup), actions).saves == [Save(id, 1), Save(id, 1)]
  {
    hide Apply, RunActions;
    var first := GoTo(setup, Start(setup), p, i);
    var w1 := RunActions(setup, Start(setup), first);
    var second := GoTo(setup, w1, q, j);
    var rest := BothSave(setup, RunActions(setup, w1, second), p, i, q, j, id, state);
    ActionsAppend(setup, Start(setup), first, second);
    ActionsAppend(setup, Start(setup), first + second, rest);
    actions := first + second + rest;
  }

  ghost predicate SavedOnceEach(w: World) {
    forall i, j :: 0 <= i < j < |w.saves| ==> w.saves[i].incident != w.saves[j].incident
  }

  /** No run saves an incident twice if and only if each failure is on one partition. */
  lemma AtMostOnceExactlyWhenKeyed(setup: Setup)
    ensures (forall actions: seq<Action> :: SavedOnceEach(RunActions(setup, Start(setup), actions))) <==> Keyed(setup)
  {
    hide RunActions;
    if Keyed(setup) {
      forall actions: seq<Action> ensures SavedOnceEach(RunActions(setup, Start(setup), actions)) {
        InvestigatedAtMostOnce(setup, actions);
      }
    } else {
      var p, q, i, j :| && 0 <= p < |setup.log| && 0 <= q < |setup.log|
        && 0 <= i < |setup.log[p]| && 0 <= j < |setup.log[q]|
        && setup.log[p][i].FailureOf? && setup.log[p][i] == setup.log[q][j] && p != q;
      var actions := UnkeyedFailuresAreSavedTwice(setup, p, i, q, j, setup.log[p][i].incident, Broke());
      var saves := RunActions(setup, Start(setup), actions).saves;
      assert saves[0].incident == saves[1].incident;
    }
  }

  // ---------- Deliveries are counted ----------

  /** The number of times the first transaction of the handler committed for an incident. */
  function Opens(setup: Setup, w: World, actions: seq<Action>, id: Identity): nat
    requires Shaped(setup, w)
    decreases |actions|
  {
    if actions == [] then 0
    else
      var a := actions[0];
      (if a.Open? && a.worker < |setup.log| && w.workers[a.worker].phase.Handling? && Held(setup, w, a.worker) == id
       then 1 else 0) + Opens(setup, Apply(setup, w, a), actions[1..], id)
  }

  function CountOf(w: World, id: Identity): nat {
    if id in w.tables.incidents then w.tables.incidents[id].deliveryCount else 0
  }

  lemma StepCounts(setup: Setup, w: World, a: Action, id: Identity)
    requires Shaped(setup, w)
    ensures CountOf(Apply(setup, w, a), id) == CountOf(w, id) + Opens(setup, w, [a], id)
  {
    assert [a][1..] == [];
  }

  /** Where each handler's transactions run one at a time, an incident's delivery count is exactly the
      number of deliveries of it that were recorded: nothing else that happens to it touches the count. */
  lemma {:induction false} DeliveriesAreCounted(setup: Setup, w: World, actions: seq<Action>, id: Identity)
    requires Shaped(setup, w)
    ensures CountOf(RunActions(setup, w, actions), id) == CountOf(w, id) + Opens(setup, w, actions, id)
    decreases |actions|
  {
    if actions != [] {
      StepCounts(setup, w, actions[0], id);
      assert [actions[0]][1..] == [];
      hide Apply;
      DeliveriesAreCounted(setup, Apply(setup, w, actions[0]), actions[1..], id);
    }
  }
}
