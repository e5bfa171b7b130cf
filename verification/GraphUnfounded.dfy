/** A confirmation is only the model's word: what a conclusion reached from a test can rest on. */
module GraphUnfounded {
  import opened Domain
  import opened Toolbox
  import opened States
  import opened Confidence
  import opened Routing
  import opened Nodes
  import opened Graph
  import opened GraphBudgets
  import opened GraphExits
  import opened GraphTrace
  import opened GraphTheorems

  /** A failure the event schema lets through. */
  predicate Delivered(failure: Failure) {
    failure.dagId != "" && failure.taskId != "" && failure.runId != "" && failure.tryNumber >= 1
  }

  /** The run concluded from a hypothesis test, and no tool call in it ever succeeded. */
  ghost predicate Unfounded(env: Env, failure: Failure, c: Config) {
    var n := |c.state.steps|;
    && Delivered(failure) && Reachable(env, failure, c) && c.at == End && n >= 2
    && c.state.steps[n - 1].node == Conclude && c.state.steps[n - 2].node == TestHypothesis
    && c.state.diagnosis.Some? && SuccessfulTools(c.state.evidence) == {}
  }

  const FAILS := ToolReply(None, false)

  const RECOGNISED := Failure("dag", "task", "run", 1, Some(Signature(SchemaDrift, 10000)))

  const FORMED := Hypothesis(0, Some("t"), map[], 0, Untested)

  /** The model plans nothing, proposes one hypothesis, and confirms it although its test failed. */
  function Credulous(): seq<Reply> {
    [Reply(Classified(Unknown, true), FAILS), Reply(Plan([]), FAILS), Reply(Proposed([Proposal(0, "t")]), FAILS),
     Reply(Judged(Confirmed), FAILS), Reply(Written(SchemaDrift), FAILS)]
  }

  lemma GoesToGather(env: Env)
    requires env.budgets.maxIterations >= 2
    ensures var c := Next(env, Init(env, RECOGNISED), Credulous()[0]);
      && c.at == At(GatherEvidence) && c.state.hypotheses == [] && c.state.evidence == []
      && c.state.iteration == 0 && c.state.maxIterations >= 2 && c.state.ToolCallsRemaining() > 0
      && c.state.failure == RECOGNISED && c.state.haltReason.None?
  {}

  lemma GathersNothing(env: Env, c: Config)
    requires c.at == At(GatherEvidence) && c.state.hypotheses == [] && c.state.evidence == []
    requires c.state.iteration == 0 && c.state.maxIterations >= 2 && c.state.ToolCallsRemaining() > 0
    requires c.state.failure == RECOGNISED && c.state.haltReason.None?
    ensures var c' := Next(env, c, Credulous()[1]);
      && c'.at == At(FormHypothesis) && c'.state.hypotheses == [] && c'.state.evidence == []
      && c'.state.ToolCallsRemaining() > 0 && c'.state.failure == RECOGNISED && c'.state.haltReason.None?
  {}

  lemma FormsOne(env: Env, c: Config)
    requires c.at == At(FormHypothesis) && c.state.hypotheses == [] && c.state.evidence == []
    requires c.state.ToolCallsRemaining() > 0 && c.state.failure == RECOGNISED && c.state.haltReason.None?
    ensures Fresh(c, Credulous()[2]) && AtTheTest(Next(env, c, Credulous()[2]))
  {
    assert ToHypotheses(c.state, Credulous()[2].answer.proposals) == [FORMED];
  }

  /** The one hypothesis is about to be tested, and nothing has been gathered. */
  predicate AtTheTest(c: Config) {
    && c.at == At(TestHypothesis) && c.state.current == Some(FORMED) && c.state.hypotheses == [FORMED]
    && c.state.evidence == [] && c.state.failure == RECOGNISED && c.state.haltReason.None?
    && c.state.ToolCallsRemaining() > 0
  }

  lemma ReachesTheTest(env: Env) returns (c: Config)
    requires env.budgets.maxIterations >= 2
    ensures c == RunFrom(env, Init(env, RECOGNISED), Credulous()[..3])
    ensures Admits(env, Init(env, RECOGNISED), Credulous()[..3]) && AtTheTest(c)
  {
    hide Next, Init, RunFrom, Admits, AtTheTest;
    var r, c0 := Credulous(), Init(env, RECOGNISED);
    var c1 := Next(env, c0, r[0]);
    var c2 := Next(env, c1, r[1]);
    c := Next(env, c2, r[2]);
    GoesToGather(env);
    GathersNothing(env, c1);
    FormsOne(env, c2);
    assert r[..3] == [r[0]] + ([r[1]] + [r[2]]);
    RunAppends(env, c0, [r[0]], [r[1]] + [r[2]]);
    RunAppends(env, c1, [r[1]], [r[2]]);
    OneReply(env, c0, r[0]);
    OneReply(env, c1, r[1]);
    OneReply(env, c2, r[2]);
  }

  lemma OneReply(env: Env, c: Config, r: Reply)
    ensures RunFrom(env, c, [r]) == Next(env, c, r)
    ensures Admits(env, c, [r]) <==> Fresh(c, r)
  {
    assert [r][1..] == [];
  }

  /** A confirmation with nothing behind it scores 0.65 when the failure is fully recognised. */
  lemma BelievesTheTest(env: Env, c: Config)
    requires env.budgets.minConclude <= 6500 && AtTheTest(c)
    ensures Believed(Next(env, c, Credulous()[3]))
  {
    var s' := Next(env, c, Credulous()[3]).state;
    assert s'.current == Some(FORMED.(outcome := Confirmed)) && s'.hypotheses == [FORMED.(outcome := Confirmed)];
    assert |s'.evidence| == 1 && !s'.evidence[0].succeeded;
    assert SuccessfulTools(s'.evidence) == {};
    NoneWithOutcome(s'.hypotheses, Refuted);
    ConfidenceNeverLeavesRange(s');
  }

  /** The hypothesis is confirmed, and no call has succeeded. */
  predicate Believed(c: Config) {
    && c.at == At(Conclude) && SuccessfulTools(c.state.evidence) == {}
    && |c.state.steps| >= 1 && c.state.steps[|c.state.steps| - 1].node == TestHypothesis
  }

  lemma WritesItUp(env: Env, c: Config)
    requires Believed(c)
    ensures var c' := Next(env, c, Credulous()[4]);
      && c'.at == End && SuccessfulTools(c'.state.evidence) == {} && c'.state.diagnosis.Some?
      && |c'.state.steps| >= 2 && c'.state.steps[|c'.state.steps| - 2].node == TestHypothesis
      && c'.state.steps[|c'.state.steps| - 1].node == Conclude
  {}

  lemma AnUnfoundedRun(env: Env) returns (c: Config)
    requires env.budgets.maxIterations >= 2 && env.budgets.minConclude <= 6500
    ensures Unfounded(env, RECOGNISED, c)
  {
    hide Next, Init, RunFrom, Admits, AtTheTest, Believed, Fresh, SuccessfulTools;
    var r, c0 := Credulous(), Init(env, RECOGNISED);
    var c3 := ReachesTheTest(env);
    var c4 := Next(env, c3, r[3]);
    c := Next(env, c4, r[4]);
    BelievesTheTest(env, c3);
    WritesItUp(env, c4);
    AlwaysFresh(c3, r[3]);
    AlwaysFresh(c4, r[4]);
    OneReply(env, c3, r[3]);
    OneReply(env, c4, r[4]);
    RunAppends(env, c3, [r[3]], [r[4]]);
    RunAppends(env, c0, r[..3], [r[3]] + [r[4]]);
    assert RunFrom(env, c0, r[..3] + ([r[3]] + [r[4]])) == c;
  }

  lemma AlwaysFresh(c: Config, r: Reply)
    requires !r.answer.Proposed?
    ensures Fresh(c, r)
  {}

  /** Leaving the loop from a test takes five executions at least. */
  lemma ATestComesFourth(env: Env, failure: Failure, c: Config)
    requires Reachable(env, failure, c) && |c.state.steps| >= 2
    requires c.state.steps[|c.state.steps| - 2].node == TestHypothesis
    ensures |c.state.steps| >= 5
  {
    hide Reachable;
    TraceAndHypothesesAreKept(env, failure, c);
    var steps, n := c.state.steps, |c.state.steps|;
    assert n > 2 && At(TestHypothesis) in Edges(steps[n - 3].node);
    assert n > 3 && At(FormHypothesis) in Edges(steps[n - 4].node);
    assert n > 4;
  }

  lemma UnfoundedNeeds(env: Env, failure: Failure, c: Config)
    requires Unfounded(env, failure, c)
    ensures env.budgets.maxIterations >= 2 && env.budgets.minConclude <= 6500
  {
    hide Reachable;
    ATestComesFourth(env, failure, c);
    assert env.budgets.maxIterations >= 2 by {
      ReachableIsInvariant(env, failure, c);
    }
    ConfidenceByExit(env, failure, c);
    ConfidenceNeverLeavesRange(c.state);
  }

  /** A run can conclude from a test although no tool call ever succeeded, its own test included, if and
      only if there are two iterations and the bar is at most 0.65. */
  lemma UnfoundedExactlyWhen(env: Env)
    ensures (exists failure, c :: Unfounded(env, failure, c))
      <==> env.budgets.maxIterations >= 2 && env.budgets.minConclude <= 6500
  {
    hide Unfounded;
    if failure, c :| Unfounded(env, failure, c) {
      UnfoundedNeeds(env, failure, c);
    }
    if env.budgets.maxIterations >= 2 && env.budgets.minConclude <= 6500 {
      var c := AnUnfoundedRun(env);
    }
  }
}
