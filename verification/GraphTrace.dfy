/** What the trace and the evidence list say: the path taken, which hypothesis each test belonged to,
    and which questions were asked. */
module GraphTrace {
  import opened Domain
  import opened Toolbox
  import opened States
  import opened Routing
  import opened Nodes
  import opened Graph
  import opened GraphBudgets

  function Tests(steps: seq<StepRecord>): nat {
    if steps == [] then 0
    else Tests(steps[..|steps| - 1]) + if steps[|steps| - 1].node == TestHypothesis then 1 else 0
  }

  /** Steps are numbered from one and their nodes follow declared edges up to where the run stands. */
  predicate Path(c: Config) {
    var steps := c.state.steps;
    && (forall i :: 0 <= i < |steps| ==> steps[i].sequence == i + 1)
    && (forall i :: 0 < i < |steps| ==> At(steps[i].node) in Edges(steps[i - 1].node))
    && (if steps == [] then c.at == At(Triage)
        else steps[0].node == Triage && c.at in Edges(steps[|steps| - 1].node))
  }

  /** A verdict call that failed after its test had run. */
  predicate TestLost(steps: seq<StepRecord>) {
    exists i :: 0 <= i < |steps| && steps[i].node == TestHypothesis && steps[i].failed
  }

  /** True tool runs exceed the counter by one exactly when a test's verdict was lost. */
  predicate ToolRunsCounted(c: Config) {
    && c.toolRuns == c.state.toolCallsMade + (if TestLost(c.state.steps) then 1 else 0)
    && c.toolRuns <= c.state.maxToolCalls
  }

  predicate TestedIn(origins: seq<Origin>, evidence: seq<Evidence>, h: Hypothesis)
    requires |origins| == |evidence|
  {
    exists j :: 0 <= j < |origins| && TestAt(origins, evidence, j, h)
  }

  predicate TestAt(origins: seq<Origin>, evidence: seq<Evidence>, j: nat, h: Hypothesis)
    requires j < |origins| == |evidence|
  {
    origins[j] == FromTest(h.id) && h.testTool == Some(evidence[j].tool)
  }

  /** Every judged hypothesis had its own test run, and none is tested twice. */
  ghost predicate TestsMatch(hs: seq<Hypothesis>, origins: seq<Origin>, evidence: seq<Evidence>) {
    && |origins| == |evidence|
    && (forall h :: h in hs && h.outcome != Untested ==> TestedIn(origins, evidence, h))
    && (forall j :: 0 <= j < |origins| && origins[j].FromTest? ==>
          exists h :: h in hs && h.id == origins[j].hypothesis)
    && (forall i, j :: 0 <= i < j < |origins| && origins[i].FromTest? ==> origins[i] != origins[j])
  }

  ghost predicate JudgedWereTested(c: Config) {
    && TestsMatch(c.state.hypotheses, c.origins, c.state.evidence)
    && (c.at == At(TestHypothesis) && c.state.current.Some? ==>
          FromTest(c.state.current.value.id) !in c.origins)
    && |c.state.RefutedHypotheses()| <= Tests(c.state.steps)
  }

  /** Evidence that repeats an earlier question was added by a test, never by a gather round. */
  ghost predicate NoRepeatedQuestions(c: Config) {
    && |c.origins| == |c.state.evidence|
    && forall i, j :: 0 <= i < j < |c.origins| && c.origins[j].FromGather? ==>
         Asked(c.state.evidence[i]) != Asked(c.state.evidence[j])
  }

  lemma UpdateAddsAtMostOne(hs: seq<Hypothesis>, i: nat, h: Hypothesis, o: Outcome)
    requires i < |hs|
    ensures |WithOutcome(hs[i := h], o)| <= |WithOutcome(hs, o)| + 1
  {
    assert hs == hs[..i] + [hs[i]] + hs[i + 1..];
    assert hs[i := h] == hs[..i] + [h] + hs[i + 1..];
    WithOutcomeAppends(hs[..i] + [hs[i]], hs[i + 1..], o);
    WithOutcomeAppends(hs[..i] + [h], hs[i + 1..], o);
    WithOutcomeAppends(hs[..i], [hs[i]], o);
    WithOutcomeAppends(hs[..i], [h], o);
  }

  lemma PathKeeps(env: Env, c: Config, reply: Reply)
    requires Path(c)
    ensures Path(Next(env, c, reply))
  {}

  lemma ToolRunsKeep(env: Env, c: Config, reply: Reply)
    requires Books(env, c) && Flow(env, c) && ToolRunsCounted(c)
    ensures ToolRunsCounted(Next(env, c, reply))
  {
    var c' := Next(env, c, reply);
    if c.at != End {
      var added := c'.state.steps[|c.state.steps|];
      assert c'.state.steps == c.state.steps + [added];
      assert TestLost(c'.state.steps) <==> TestLost(c.state.steps) || (added.node == TestHypothesis && added.failed) by {
        if TestLost(c.state.steps) {
          var i :| 0 <= i < |c.state.steps| && c.state.steps[i].node == TestHypothesis && c.state.steps[i].failed;
          assert c'.state.steps[i] == c.state.steps[i];
        }
      }
      if c.at == At(GatherEvidence) && reply.answer.Plan? {
        var s, calls := c.state, reply.answer.calls;
        CollectAsksEachNewQuestionOnce(
          env.tools, s.ToolContext(), QuestionsIn(s.evidence), calls[..Min(Allowed(s), |calls|)]);
      }
    }
  }

  lemma QuestionsKeep(env: Env, c: Config, reply: Reply)
    requires NoRepeatedQuestions(c)
    ensures NoRepeatedQuestions(Next(env, c, reply))
  {
    if c.at == At(GatherEvidence) && reply.answer.Plan? {
      var s, calls := c.state, reply.answer.calls;
      CollectAsksEachNewQuestionOnce(
        env.tools, s.ToolContext(), QuestionsIn(s.evidence), calls[..Min(Allowed(s), |calls|)]);
      assert forall e :: e in s.evidence ==> Asked(e) in QuestionsIn(s.evidence);
    }
  }

  /** A call to a tool that does not exist is recorded as a failure. */
  ghost predicate UnknownToolsFail(env: Env, c: Config) {
    forall e :: e in c.state.evidence && e.tool !in env.tools ==> !e.succeeded
  }

  lemma {:induction false} UnknownCallsFail(
    tools: Catalogue, context: Args, already: set<Question>, calls: seq<PlannedCall>)
    ensures forall e :: e in Collect(tools, context, already, calls) && e.tool !in tools ==> !e.succeeded
    decreases |calls|
  {
    if calls != [] {
      UnknownCallsFail(tools, context, already, calls[1..]);
      UnknownCallsFail(tools, context, already + {QuestionOf(tools, context, calls[0])}, calls[1..]);
    }
  }

  lemma UnknownToolsKeep(env: Env, c: Config, reply: Reply)
    requires UnknownToolsFail(env, c)
    ensures UnknownToolsFail(env, Next(env, c, reply))
  {
    if c.at == At(GatherEvidence) && reply.answer.Plan? {
      var s, calls := c.state, reply.answer.calls;
      UnknownCallsFail(
        env.tools, s.ToolContext(), QuestionsIn(s.evidence), calls[..Min(Allowed(s), |calls|)]);
    }
  }

  lemma TestedInGrows(
    origins: seq<Origin>, evidence: seq<Evidence>, moreOrigins: seq<Origin>, more: seq<Evidence>,
    h: Hypothesis)
    requires |origins| == |evidence| && |moreOrigins| == |more| && TestedIn(origins, evidence, h)
    ensures TestedIn(origins + moreOrigins, evidence + more, h)
  {
    var j :| 0 <= j < |origins| && TestAt(origins, evidence, j, h);
    assert TestAt(origins + moreOrigins, evidence + more, j, h);
  }

  /** Gathering more evidence and listing more untested hypotheses keep the match. */
  lemma GatheringKeepsTestsMatched(
    hs: seq<Hypothesis>, origins: seq<Origin>, evidence: seq<Evidence>,
    proposed: seq<Hypothesis>, moreOrigins: seq<Origin>, more: seq<Evidence>)
    requires TestsMatch(hs, origins, evidence) && |moreOrigins| == |more|
    requires forall h :: h in proposed ==> h.outcome == Untested
    requires forall o :: o in moreOrigins ==> o == FromGather
    ensures TestsMatch(hs + proposed, origins + moreOrigins, evidence + more)
  {
    assert forall k :: |origins| <= k < |origins + moreOrigins| ==> (origins + moreOrigins)[k] in moreOrigins;
    forall h | h in hs + proposed && h.outcome != Untested
      ensures TestedIn(origins + moreOrigins, evidence + more, h)
    {
      TestedInGrows(origins, evidence, moreOrigins, more, h);
    }
    forall j | 0 <= j < |origins + moreOrigins| && (origins + moreOrigins)[j].FromTest?
      ensures exists h :: h in hs + proposed && h.id == (origins + moreOrigins)[j].hypothesis
    {
      assert j < |origins|;
      var h :| h in hs && h.id == origins[j].hypothesis;
      assert h in hs + proposed;
    }
  }

  /** Running one untested hypothesis's own test, then judging it, keeps the match. */
  lemma TestingKeepsTestsMatched(
    hs: seq<Hypothesis>, origins: seq<Origin>, evidence: seq<Evidence>, tested: Hypothesis, e: Evidence)
    requires TestsMatch(hs, origins, evidence)
    requires tested.rank < |hs| && hs[tested.rank].id == tested.id
    requires FromTest(tested.id) !in origins && tested.testTool == Some(e.tool)
    ensures TestsMatch(hs[tested.rank := tested], origins + [FromTest(tested.id)], evidence + [e])
  {
    var hs', origins', evidence' := hs[tested.rank := tested], origins + [FromTest(tested.id)], evidence + [e];
    assert TestAt(origins', evidence', |origins|, tested);
    forall h | h in hs' && h.outcome != Untested ensures TestedIn(origins', evidence', h) {
      if h != tested {
        assert h in hs;
        TestedInGrows(origins, evidence, [FromTest(tested.id)], [e], h);
      }
    }
    forall j | 0 <= j < |origins'| && origins'[j].FromTest?
      ensures exists h :: h in hs' && h.id == origins'[j].hypothesis
    {
      if j < |origins| {
        var h :| h in hs && h.id == origins[j].hypothesis;
        var i :| 0 <= i < |hs| && hs[i] == h;
        assert hs'[i] in hs' && hs'[i].id == h.id;
      } else {
        assert hs'[tested.rank] in hs';
      }
    }
  }

  /** What one test execution does when its verdict arrives. */
  lemma TestStep(env: Env, c: Config, reply: Reply) returns (e: Evidence)
    requires Books(env, c) && Flow(env, c) && c.at == At(TestHypothesis) && reply.answer.Judged?
    ensures var tested, c' := c.state.current.value.(outcome := reply.answer.outcome), Next(env, c, reply);
      && c'.state.hypotheses == c.state.hypotheses[tested.rank := tested]
      && c'.state.evidence == c.state.evidence + [e]
      && c'.origins == c.origins + [FromTest(tested.id)]
      && tested.testTool == Some(e.tool)
      && c'.state.steps == c.state.steps + [StepRecord(TestHypothesis, c.state.NextSequence(), false)]
  {
    var h := c.state.current.value;
    ReplacedKeepsTheList(c.state.hypotheses, h.(outcome := reply.answer.outcome));
    e := TestEvidence(env.tools, c.state, reply.test)[0];
  }

  lemma JudgedKeepAtTest(env: Env, c: Config, reply: Reply)
    requires Books(env, c) && Flow(env, c) && JudgedWereTested(c)
    requires c.at == At(TestHypothesis) && reply.answer.Judged?
    ensures JudgedWereTested(Next(env, c, reply))
  {
    var e := TestStep(env, c, reply);
    var tested := c.state.current.value.(outcome := reply.answer.outcome);
    TestingKeepsTestsMatched(c.state.hypotheses, c.origins, c.state.evidence, tested, e);
    UpdateAddsAtMostOne(c.state.hypotheses, tested.rank, tested, Refuted);
    var steps := Next(env, c, reply).state.steps;
    assert steps[..|steps| - 1] == c.state.steps;
  }

  /** What an execution without a verdict does: it may gather evidence or list new hypotheses. */
  ghost predicate Extends(c: Config, c': Config, proposed: seq<Hypothesis>, more: seq<Evidence>) {
    && c'.state.hypotheses == c.state.hypotheses + proposed
    && c'.state.evidence == c.state.evidence + more
    && c'.origins == c.origins + seq(|more|, _ => FromGather)
    && (forall h :: h in proposed ==> h.outcome == Untested && h !in c.state.hypotheses)
    && (c'.at == At(TestHypothesis) ==>
          && c'.state.current.Some? && c'.state.current.value in proposed
          && forall h :: h in c.state.hypotheses ==> h.id != c'.state.current.value.id)
    && |c'.state.steps| == |c.state.steps| + 1 && c'.state.steps[..|c.state.steps|] == c.state.steps
  }

  lemma FormStep(env: Env, c: Config, reply: Reply)
    requires Books(env, c) && c.at == At(FormHypothesis) && reply.answer.Proposed? && Fresh(c, reply)
    ensures Extends(c, Next(env, c, reply), ToHypotheses(c.state, reply.answer.proposals), [])
  {
    ProposedExtendTheList(c.state, reply.answer.proposals);
  }

  lemma GatherStep(env: Env, c: Config, reply: Reply)
    requires c.at == At(GatherEvidence) && reply.answer.Plan?
    ensures Extends(c, Next(env, c, reply), [], Gathered(env.tools, c.state, reply.answer.calls))
  {}

  lemma PlainStep(env: Env, c: Config, reply: Reply)
    requires c.at != End
    requires c.at == At(FormHypothesis) ==> !reply.answer.Proposed?
    requires c.at == At(GatherEvidence) ==> !reply.answer.Plan?
    requires c.at == At(TestHypothesis) ==> !reply.answer.Judged? && c.state.current.Some?
    ensures Extends(c, Next(env, c, reply), [], [])
  {}

  lemma OtherStep(env: Env, c: Config, reply: Reply)
    returns (proposed: seq<Hypothesis>, more: seq<Evidence>)
    requires Books(env, c) && Flow(env, c) && c.at != End && Fresh(c, reply)
    requires !(c.at == At(TestHypothesis) && reply.answer.Judged?)
    ensures Extends(c, Next(env, c, reply), proposed, more)
  {
    hide Extends;
    proposed, more := [], [];
    if c.at == At(FormHypothesis) && reply.answer.Proposed? {
      proposed := ToHypotheses(c.state, reply.answer.proposals);
      FormStep(env, c, reply);
    } else if c.at == At(GatherEvidence) && reply.answer.Plan? {
      more := Gathered(env.tools, c.state, reply.answer.calls);
      GatherStep(env, c, reply);
    } else {
      PlainStep(env, c, reply);
    }
  }

  lemma ANewIdIsUntested(hs: seq<Hypothesis>, origins: seq<Origin>, evidence: seq<Evidence>, id: HypothesisId)
    requires TestsMatch(hs, origins, evidence) && forall h :: h in hs ==> h.id != id
    ensures FromTest(id) !in origins
  {}

  lemma JudgedKeepElsewhere(env: Env, c: Config, reply: Reply)
    requires Books(env, c) && Flow(env, c) && JudgedWereTested(c) && c.at != End && Fresh(c, reply)
    requires !(c.at == At(TestHypothesis) && reply.answer.Judged?)
    ensures JudgedWereTested(Next(env, c, reply))
  {
    hide Next, Books, Flow, Fresh, TestsMatch;
    var c' := Next(env, c, reply);
    var proposed, more := OtherStep(env, c, reply);
    GatheringKeepsTestsMatched(
      c.state.hypotheses, c.origins, c.state.evidence, proposed, seq(|more|, _ => FromGather), more);
    WithOutcomeAppends(c.state.hypotheses, proposed, Refuted);
    NoneWithOutcome(proposed, Refuted);
    if c'.at == At(TestHypothesis) {
      ANewIdIsUntested(c.state.hypotheses, c.origins, c.state.evidence, c'.state.current.value.id);
      assert forall o :: o in c'.origins && o.FromTest? ==> o in c.origins;
    }
  }

  lemma JudgedKeep(env: Env, c: Config, reply: Reply)
    requires Books(env, c) && Flow(env, c) && JudgedWereTested(c) && Fresh(c, reply)
    ensures JudgedWereTested(Next(env, c, reply))
  {
    if c.at == At(TestHypothesis) && reply.answer.Judged? {
      JudgedKeepAtTest(env, c, reply);
    } else if c.at != End {
      JudgedKeepElsewhere(env, c, reply);
    }
  }
}
