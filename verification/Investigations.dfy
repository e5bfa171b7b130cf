/** From the graph to the database: what a finished run is stored as. */
module Investigations {
  import opened Domain
  import opened States
  import opened Nodes
  import opened Graph
  import opened GraphExits
  import opened GraphTheorems
  import opened GraphSteps
  import opened Storage
  import opened Replays

  /** What one investigation can hand to storage: a run that ended, or the halt recorded in its place
      when the machinery around the nodes gave up. */
  ghost predicate Produced(env: Env, s: State) {
    || (exists failure, c :: Reachable(env, failure, c) && c.at == End && c.state == s)
    || (exists failure :: s == HaltedState(InitialState(failure, env.budgets)))
  }

  predicate SomeStepFailed(s: State) { exists i :: 0 <= i < |s.steps| && s.steps[i].failed }

  lemma OnlyTheLastTwoCanFail(env: Env, s: State)
    requires Finished(env, s)
    ensures var n := |s.steps|; SomeStepFailed(s) <==> s.steps[n - 2].failed || s.steps[n - 1].failed
  {}

  /** An incident ends as broken exactly when some node failed, as diagnosed exactly when the run was
      concluded with a named cause, and otherwise as not decided. */
  lemma StatusTellsHowTheRunWent(env: Env, failure: Failure, c: Config)
    requires Reachable(env, failure, c) && c.at == End
    ensures |c.state.steps| >= 2
    ensures var s := c.state;
      && (StatusFor(s) == Broken <==> SomeStepFailed(s))
      && (StatusFor(s) == Diagnosed <==>
            && s.steps[|s.steps| - 1].node == Conclude && !s.steps[|s.steps| - 1].failed
            && s.diagnosis.Some? && s.diagnosis.value.category != Unknown)
      && Terminal(StatusFor(s))
  {
    hide Reachable;
    ReachableIsInvariant(env, failure, c);
    OnlyTheLastTwoCanFail(env, c.state);
  }

  /** A conclusion the model wrote makes the incident diagnosed if and only if it names a cause, and the
      diagnosis stored names that one. */
  lemma TheWrittenCauseDecidesTheStatus(env: Env, failure: Failure, c: Config, reply: Reply)
    requires Reachable(env, failure, c) && c.at == At(Conclude) && reply.answer.Written?
    ensures var s := Next(env, c, reply).state;
      && s.diagnosis.Some? && s.diagnosis.value.category == reply.answer.category
      && s.diagnosis.value.haltReason == Concluded
      && StatusFor(s) == if reply.answer.category != Unknown then Diagnosed else NotDecided
  {
    AConclusionNamesTheWrittenCause(env, c, reply);
  }

  /** Whatever the outer net records in place of a run leaves the incident failed, with no step, and with
      a diagnosis that names no cause and claims no confidence. */
  lemma TheOuterNetLeavesItFailed(env: Env, failure: Failure)
    ensures var s := HaltedState(InitialState(failure, env.budgets));
      && StatusFor(s) == Broken && s.haltReason == Some(InvestigationError) && s.steps == []
      && s.evidence == [] && s.hypotheses == []
      && s.diagnosis.Some? && !s.diagnosis.value.IsConclusive()
      && s.diagnosis.value.category == Unknown && s.diagnosis.value.confidence == 0
      && s.diagnosis.value.haltReason == InvestigationError
  {}

  lemma ProducedIsNumbered(env: Env, s: State)
    requires Produced(env, s)
    ensures Numbered(s)
  {
    if failure, c :| Reachable(env, failure, c) && c.at == End && c.state == s {
      hide Reachable;
      TraceAndHypothesesAreKept(env, failure, c);
    }
  }

  /** Investigations really produced, each under settings and tools of its own, and saved one after the
      other, leave an incident's steps numbered
      1..n in save order, with attempts that never go back. */
  lemma ReplaysKeepOneTrace(saves: seq<Investigation>, id: Identity)
    requires forall v :: v in saves ==> exists env :: Produced(env, v.state)
    ensures InOrder(StepsOf(After(saves).steps, id), NextAttempt(After(saves), id))
  {
    forall v | v in saves ensures Numbered(v.state) {
      var env :| Produced(env, v.state);
      ProducedIsNumbered(env, v.state);
    }
    SequencesContinue(saves, id);
  }

  /** A replay shares an attempt number with the one before it exactly when that one's `conclude`
      step failed: nothing else leaves an investigation without a diagnosis. */
  lemma OnlyAFailedConclusionLeavesNoDiagnosis(env: Env, failure: Failure, c: Config)
    requires Reachable(env, failure, c) && c.at == End
    ensures |c.state.steps| >= 2
    ensures var last := c.state.steps[|c.state.steps| - 1];
            c.state.diagnosis.None? <==> last.node == Conclude && last.failed
  {
    hide Reachable;
    ReachableIsInvariant(env, failure, c);
  }

  /** A recognised failure on which triage takes the shortcut and the call to write it up then fails. */
  function Unwritten(category: Category): seq<Reply> {
    var none := ToolReply(None, true);
    [Reply(Classified(category, false), none), Reply(Failed, none)]
  }

  /** Under any budgets and tools some real run ends without a diagnosis. */
  lemma ARunCanEndWithoutDiagnosis(env: Env, failure: Failure)
    requires failure.signature.Some? && failure.signature.value.strength == 10000
    ensures var replies := Unwritten(failure.signature.value.category);
      var c := RunFrom(env, Init(env, failure), replies);
      && Admits(env, Init(env, failure), replies)
      && Reachable(env, failure, c) && c.at == End && c.state.diagnosis.None? && c.state.failure == failure
  {
    var replies := Unwritten(failure.signature.value.category);
    var c1 := Next(env, Init(env, failure), replies[0]);
    assert c1.at == At(Conclude);
    var c2 := Next(env, c1, replies[1]);
    assert replies[1..] == [replies[1]] && replies[1..][1..] == [];
    assert RunFrom(env, c1, replies[1..]) == c2;
    assert Admits(env, c1, replies[1..]);
  }

  /** The failure is the one the incident was opened for. */
  predicate IsOf(failure: Failure, id: Identity) {
    && failure.dagId == id.dagId && failure.taskId == id.taskId
    && failure.runId == id.runId && failure.tryNumber == id.tryNumber
  }

  /** So two investigations of any fully recognised failure, both of which can happen, share attempt one
      of its incident. */
  lemma RealReplaysCanShareAnAttempt(env: Env, id: Identity, failure: Failure) returns (saves: seq<Investigation>)
    requires IsOf(failure, id) && failure.signature.Some? && failure.signature.value.strength == 10000
    ensures |saves| == 2
    ensures forall v :: v in saves ==> v.incident == id && v.state.failure == failure && Produced(env, v.state)
    ensures Attempts(saves, id) == [1, 1]
  {
    hide RunFrom, Admits, Reachable, Unwritten, Attempts;
    ARunCanEndWithoutDiagnosis(env, failure);
    var state := RunFrom(env, Init(env, failure), Unwritten(failure.signature.value.category)).state;
    assert Produced(env, state);
    AttemptsCanBeShared(id, state);
    saves := [Investigation(id, state), Investigation(id, state)];
  }
}
