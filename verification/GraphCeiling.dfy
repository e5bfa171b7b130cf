/** How high a conclusion on exhausted evidence can score: when the ceiling of 0.76 is reached. */
module GraphCeiling {
  import opened Domain
  import opened Toolbox
  import opened States
  import opened Confidence
  import opened Routing
  import opened Nodes
  import opened Graph
  import opened GraphBudgets
  import opened GraphExits
  import opened GraphTrace
  import opened GraphTheorems
  import opened GraphUnfounded
  import opened Listing

  /** The run concluded because a round found nothing new, and scored as high as that can. */
  ghost predicate AtCeiling(env: Env, failure: Failure, c: Config) {
    var n := |c.state.steps|;
    && Delivered(failure) && Reachable(env, failure, c) && c.at == End && n >= 2
    && c.state.steps[n - 1].node == Conclude && c.state.steps[n - 2].node == GatherEvidence
    && c.state.diagnosis.Some? && c.state.diagnosis.value.confidence == 7600
  }

  // ---------- What it takes ----------

  lemma {:induction false} ToolsNeedEvidence(evidence: seq<Evidence>)
    ensures |SuccessfulTools(evidence)| <= |evidence|
  {
    if evidence != [] {
      var last, front := evidence[|evidence| - 1], evidence[..|evidence| - 1];
      ToolsNeedEvidence(front);
      assert evidence == front + [last];
      if last.succeeded && last.tool !in SuccessfulTools(front) {
        NewTool(front, last);
      } else {
        assert SuccessfulTools(evidence) == SuccessfulTools(front);
      }
    }
  }

  lemma NewTool(evidence: seq<Evidence>, e: Evidence)
    requires e.succeeded
    ensures SuccessfulTools(evidence + [e]) == SuccessfulTools(evidence) + {e.tool}
  {
    forall t ensures t in SuccessfulTools(evidence + [e]) <==> t in SuccessfulTools(evidence) + {e.tool} {
      if t in SuccessfulTools(evidence) {
        var k :| k in evidence && k.succeeded && k.tool == t;
        assert k in evidence + [e];
      }
      if t == e.tool {
        assert e in evidence + [e];
      }
    }
  }

  lemma {:induction false} SmallerSet<T>(a: set<T>, b: set<T>)
    requires a <= b
    ensures |a| <= |b|
  {
    if a != {} {
      var x := Pick(a);
      SmallerSet(a - {x}, b - {x});
    }
  }

  lemma CeilingNeeds(env: Env, failure: Failure, c: Config)
    requires AtCeiling(env, failure, c)
    ensures env.budgets.maxIterations >= 3 && env.budgets.maxToolCalls >= 5 && |env.tools.Keys| >= 4
  {
    hide Reachable;
    ReachableIsInvariant(env, failure, c);
    ConfidenceNeverLeavesRange(c.state);
    var tools := SuccessfulTools(c.state.evidence);
    assert |tools| >= 4;
    ToolsNeedEvidence(c.state.evidence);
    assert tools <= env.tools.Keys;
    SmallerSet(tools, env.tools.Keys);
  }

  // ---------- A run that reaches it ----------

  const ANSWERS := ToolReply(None, true)

  function Thorough(a: string, b: string, c: string, d: NonEmpty): seq<Reply> {
    [Reply(Classified(Unknown, true), ANSWERS),
     Reply(Plan([PlannedCall(a, ANSWERS), PlannedCall(b, ANSWERS), PlannedCall(c, ANSWERS)]), ANSWERS),
     Reply(Proposed([Proposal(0, d)]), ANSWERS),
     Reply(Judged(Inconclusive), ANSWERS),
     Reply(Plan([]), ANSWERS),
     Reply(Written(SchemaDrift), ANSWERS)]
  }

  predicate Enough(env: Env, a: string, b: string, c: string, d: NonEmpty) {
    && env.budgets.maxIterations >= 3 && env.budgets.maxToolCalls >= 5
    && a != b && a != c && a != d && b != c && b != d && c != d
    && a in env.tools && b in env.tools && c in env.tools && d in env.tools
  }

  /** What stays the same along the run, with the counters so far. */
  predicate Along(env: Env, s: State, iteration: nat, calls: nat) {
    && s.failure == RECOGNISED && s.haltReason.None? && s.iteration == iteration && s.toolCallsMade == calls
    && s.maxIterations == env.budgets.maxIterations && s.maxToolCalls == env.budgets.maxToolCalls
  }

  /** These tools, each once, and all of them answered. */
  predicate Answer3(evidence: seq<Evidence>, a: string, b: string, c: string) {
    && |evidence| == 3 && evidence[0].tool == a && evidence[1].tool == b && evidence[2].tool == c
    && evidence[0].succeeded && evidence[1].succeeded && evidence[2].succeeded
  }

  function Asks(d: NonEmpty): Hypothesis { Hypothesis(0, Some(d), map[], 0, Untested) }

  lemma Step1(env: Env, a: string, b: string, c: string, d: NonEmpty)
    requires Enough(env, a, b, c, d)
    ensures var c' := Next(env, Init(env, RECOGNISED), Thorough(a, b, c, d)[0]);
      c'.at == At(GatherEvidence) && Along(env, c'.state, 0, 0)
      && c'.state.evidence == [] && c'.state.hypotheses == []
  {}

  lemma CollectsAll(tools: Catalogue, context: Args, a: string, b: string, c: string)
    requires a != b && a != c && b != c && a in tools && b in tools && c in tools
    ensures var calls := [PlannedCall(a, ANSWERS), PlannedCall(b, ANSWERS), PlannedCall(c, ANSWERS)];
      Answer3(Collect(tools, context, {}, calls), a, b, c)
  {
    var ca, cb, cc := PlannedCall(a, ANSWERS), PlannedCall(b, ANSWERS), PlannedCall(c, ANSWERS);
    var qa, qb, qc := QuestionOf(tools, context, ca), QuestionOf(tools, context, cb), QuestionOf(tools, context, cc);
    assert [ca, cb, cc][1..] == [cb, cc] && [cb, cc][1..] == [cc] && [cc][1..] == [];
    assert Collect(tools, context, {} + {qa} + {qb}, [cc]) == [Answered(tools, context, cc)];
    assert Collect(tools, context, {} + {qa}, [cb, cc])
        == [Answered(tools, context, cb)] + [Answered(tools, context, cc)];
  }

  lemma Step2(env: Env, at: Config, a: string, b: string, c: string, d: NonEmpty)
    requires Enough(env, a, b, c, d) && at.at == At(GatherEvidence) && Along(env, at.state, 0, 0)
    requires at.state.evidence == [] && at.state.hypotheses == []
    ensures var c' := Next(env, at, Thorough(a, b, c, d)[1]);
      c'.at == At(FormHypothesis) && Along(env, c'.state, 1, 3)
      && Answer3(c'.state.evidence, a, b, c) && c'.state.hypotheses == []
  {
    var calls := Thorough(a, b, c, d)[1].answer.calls;
    CollectsAll(env.tools, at.state.ToolContext(), a, b, c);
    assert calls[..Min(Allowed(at.state), |calls|)] == calls;
    assert QuestionsIn(at.state.evidence) == {};
    hide Collect;
  }

  lemma Step3(env: Env, at: Config, a: string, b: string, c: string, d: NonEmpty)
    requires at.at == At(FormHypothesis) && Along(env, at.state, 1, 3) && at.state.hypotheses == []
    ensures Fresh(at, Thorough(a, b, c, d)[2])
    ensures var c' := Next(env, at, Thorough(a, b, c, d)[2]);
      c'.at == At(TestHypothesis) && Along(env, c'.state, 1, 3) && c'.state.evidence == at.state.evidence
      && c'.state.hypotheses == [Asks(d)] && c'.state.current == Some(Asks(d))
  {
    assert ToHypotheses(at.state, Thorough(a, b, c, d)[2].answer.proposals) == [Asks(d)];
  }

  lemma FourAnswered(before: seq<Evidence>, e: Evidence, a: string, b: string, c: string)
    requires Answer3(before, a, b, c) && e.succeeded
    ensures SuccessfulTools(before + [e]) == {a, b, c, e.tool}
  {
    assert before == [] + [before[0]] + [before[1]] + [before[2]];
    NewTool([], before[0]);
    NewTool([] + [before[0]], before[1]);
    NewTool([] + [before[0]] + [before[1]], before[2]);
    NewTool(before, e);
    assert SuccessfulTools([]) == {};
  }

  lemma Step4(env: Env, at: Config, a: string, b: string, c: string, d: NonEmpty)
    requires Enough(env, a, b, c, d) && at.at == At(TestHypothesis) && Along(env, at.state, 1, 3)
    requires at.state.hypotheses == [Asks(d)] && at.state.current == Some(Asks(d))
    requires Answer3(at.state.evidence, a, b, c)
    ensures var c', h := Next(env, at, Thorough(a, b, c, d)[3]), Asks(d).(outcome := Inconclusive);
      c'.at == At(GatherEvidence) && Along(env, c'.state, 1, 4)
      && SuccessfulTools(c'.state.evidence) == {a, b, c, d}
      && c'.state.hypotheses == [h] && c'.state.current == Some(h)
  {
    var s' := Next(env, at, Thorough(a, b, c, d)[3]).state;
    assert |s'.evidence| == 4;
    var before, e := at.state.evidence, s'.evidence[3];
    hide SuccessfulTools, Answer3;
    assert s'.evidence == before + [e] && e.tool == d && e.succeeded;
    FourAnswered(before, e, a, b, c);
    assert s'.hypotheses == [Asks(d).(outcome := Inconclusive)];
  }

  lemma Step5(env: Env, at: Config, a: string, b: string, c: string, d: NonEmpty)
    requires Enough(env, a, b, c, d) && at.at == At(GatherEvidence) && Along(env, at.state, 1, 4)
    requires at.state.hypotheses == [Asks(d).(outcome := Inconclusive)]
    ensures var c' := Next(env, at, Thorough(a, b, c, d)[4]);
      c'.at == At(Conclude) && Along(env, c'.state, 2, 4) && c'.state.evidence == at.state.evidence
      && c'.state.hypotheses == at.state.hypotheses && c'.state.current == at.state.current
      && c'.state.steps == at.state.steps + [StepRecord(GatherEvidence, |at.state.steps| + 1, false)]
  {}

  lemma Step6(env: Env, at: Config, a: string, b: string, c: string, d: NonEmpty)
    requires Enough(env, a, b, c, d) && at.at == At(Conclude) && Along(env, at.state, 2, 4)
    requires at.state.hypotheses == [Asks(d).(outcome := Inconclusive)]
    requires at.state.current == Some(Asks(d).(outcome := Inconclusive))
    requires SuccessfulTools(at.state.evidence) == {a, b, c, d}
    ensures var c' := Next(env, at, Thorough(a, b, c, d)[5]);
      c'.at == End && c'.state.steps == at.state.steps + [StepRecord(Conclude, |at.state.steps| + 1, false)]
      && c'.state.diagnosis.Some? && c'.state.diagnosis.value.confidence == 7600
  {
    ConfidenceNeverLeavesRange(at.state);
    NoneWithOutcome(at.state.hypotheses, Refuted);
  }

  lemma StartIsReachable(env: Env, failure: Failure)
    ensures Reachable(env, failure, Init(env, failure))
  {
    var none: seq<Reply> := [];
    assert Admits(env, Init(env, failure), none) && RunFrom(env, Init(env, failure), none) == Init(env, failure);
  }

  lemma ReachesOn(env: Env, failure: Failure, at: Config, r: Reply)
    requires Reachable(env, failure, at) && Fresh(at, r)
    ensures Reachable(env, failure, Next(env, at, r))
  {
    var c0 := Init(env, failure);
    var replies :| Admits(env, c0, replies) && RunFrom(env, c0, replies) == at;
    hide Next, Init, Fresh;
    OneReply(env, at, r);
    RunAppends(env, c0, replies, [r]);
    assert Admits(env, c0, replies + [r]) && RunFrom(env, c0, replies + [r]) == Next(env, at, r);
  }

  lemma AThoroughRun(env: Env, a: string, b: string, c: string, d: NonEmpty) returns (last: Config)
    requires Enough(env, a, b, c, d)
    ensures AtCeiling(env, RECOGNISED, last)
  {
    hide Next, Init, Reachable, SuccessfulTools, Answer3, Fresh, Along;
    var r, c0 := Thorough(a, b, c, d), Init(env, RECOGNISED);
    StartIsReachable(env, RECOGNISED);
    var c1 := Next(env, c0, r[0]);
    Step1(env, a, b, c, d);
    AlwaysFresh(c0, r[0]);
    ReachesOn(env, RECOGNISED, c0, r[0]);
    var c2 := Next(env, c1, r[1]);
    Step2(env, c1, a, b, c, d);
    AlwaysFresh(c1, r[1]);
    ReachesOn(env, RECOGNISED, c1, r[1]);
    var c3 := Next(env, c2, r[2]);
    Step3(env, c2, a, b, c, d);
    ReachesOn(env, RECOGNISED, c2, r[2]);
    var c4 := Next(env, c3, r[3]);
    Step4(env, c3, a, b, c, d);
    AlwaysFresh(c3, r[3]);
    ReachesOn(env, RECOGNISED, c3, r[3]);
    var c5 := Next(env, c4, r[4]);
    Step5(env, c4, a, b, c, d);
    AlwaysFresh(c4, r[4]);
    ReachesOn(env, RECOGNISED, c4, r[4]);
    last := Next(env, c5, r[5]);
    Step6(env, c5, a, b, c, d);
    AlwaysFresh(c5, r[5]);
    ReachesOn(env, RECOGNISED, c5, r[5]);
  }

  lemma FourTools(tools: set<string>) returns (a: string, b: string, c: string, d: NonEmpty)
    requires |tools| >= 4
    ensures a in tools && b in tools && c in tools && d in tools
    ensures a != b && a != c && a != d && b != c && b != d && c != d
  {
    SmallerSet(tools - (tools - {""}), {""});
    assert tools == (tools - {""}) + (tools - (tools - {""}));
    var first := Pick(tools - {""});
    d := first;
    a := Pick(tools - {d});
    b := Pick(tools - {d} - {a});
    c := Pick(tools - {d} - {a} - {b});
  }

  /** The exhausted-evidence exit can score 0.76 if and only if there are three iterations, five tool
      calls and four tools: four to answer, one call to spare, and a round that finds nothing. */
  lemma CeilingExactlyWhen(env: Env)
    ensures (exists failure, c :: AtCeiling(env, failure, c))
      <==> env.budgets.maxIterations >= 3 && env.budgets.maxToolCalls >= 5 && |env.tools.Keys| >= 4
  {
    hide AtCeiling;
    if failure, c :| AtCeiling(env, failure, c) {
      CeilingNeeds(env, failure, c);
    }
    if env.budgets.maxIterations >= 3 && env.budgets.maxToolCalls >= 5 && |env.tools.Keys| >= 4 {
      var a, b, c, d := FourTools(env.tools.Keys);
      var last := AThoroughRun(env, a, b, c, d);
    }
  }
}
