/** The bound on run length is exact: for every pair of budgets some run attains it. */
module GraphLongestRun {
  import opened Domain
  import opened Toolbox
  import opened States
  import opened Confidence
  import opened Routing
  import opened Nodes
  import opened Graph
  import opened GraphBudgets

  const NO_CHOICE := ToolReply(None, true)

  /** A tool name longer than any used in the rounds before. */
  function NewTool(k: nat): string { seq(k + 1, _ => 'x') }

  function TriageReply(): Reply { Reply(Classified(Unknown, true), NO_CHOICE) }

  /** The first round asks nothing; each later one asks exactly one new question. */
  function GatherReply(k: nat): Reply {
    Reply(Plan(if k == 0 then [] else [PlannedCall(NewTool(k), NO_CHOICE)]), NO_CHOICE)
  }

  function FormReply(k: nat): Reply { Reply(Proposed([Proposal(k, "t")]), NO_CHOICE) }

  function TestReply(): Reply { Reply(Judged(Refuted), NO_CHOICE) }

  function Round(k: nat): seq<Reply> { [GatherReply(k), FormReply(k), TestReply()] }

  /** Triage, then `k` rounds in which every hypothesis is refuted. */
  function Rounds(k: nat): seq<Reply> {
    if k == 0 then [TriageReply()] else Rounds(k - 1) + Round(k - 1)
  }

  /** Where the adversary stands after `k` back edges, having spent as few calls as it can. */
  ghost predicate Frugal(c: Config, k: nat) {
    && c.at == At(GatherEvidence) && c.backEdges == k
    && c.state.toolCallsMade == (if k == 0 then 0 else 2 * k - 1)
    && |c.state.hypotheses| == k
    && (forall h :: h in c.state.hypotheses ==> h.id < k)
    && (forall e :: e in c.state.evidence ==> |e.tool| <= Max(k, 1))
  }

  lemma NewToolIsANewQuestion(tools: Catalogue, context: Args, evidence: seq<Evidence>, k: nat)
    requires forall e :: e in evidence ==> |e.tool| <= k
    ensures var call := PlannedCall(NewTool(k), NO_CHOICE);
      && Collect(tools, context, QuestionsIn(evidence), [call]) == [Answered(tools, context, call)]
      && |Answered(tools, context, call).tool| == k + 1
  {}

  /** A frugal round asks its one new question, or nothing at all in the first round. */
  lemma FrugalGather(env: Env, s: State, k: nat)
    requires forall e :: e in s.evidence ==> |e.tool| <= Max(k, 1)
    requires s.ToolCallsRemaining() > 0
    ensures GatherReply(k).answer.Plan?
    ensures var got := Gathered(env.tools, s, GatherReply(k).answer.calls);
      |got| == (if k == 0 then 0 else 1) && forall e :: e in got ==> |e.tool| == k + 1
  {
    if k > 0 {
      NewToolIsANewQuestion(env.tools, s.ToolContext(), s.evidence, k);
      assert GatherReply(k).answer.calls[..1] == [PlannedCall(NewTool(k), NO_CHOICE)];
    }
  }

  lemma GatherOnce(env: Env, c: Config, k: nat)
    requires Books(env, c) && Flow(env, c) && Frugal(c, k)
    ensures var c' := Next(env, c, GatherReply(k));
      && Books(env, c') && Flow(env, c')
      && c'.state.toolCallsMade == 2 * k && |c'.state.steps| == |c.state.steps| + 1
      && c'.state.hypotheses == c.state.hypotheses && c'.backEdges == k
      && (forall e :: e in c'.state.evidence ==> |e.tool| <= k + 1)
      && (2 * k < env.budgets.maxToolCalls && k + 1 < env.budgets.maxIterations ==>
            c'.at == At(FormHypothesis))
      && (2 * k == env.budgets.maxToolCalls || k + 1 == env.budgets.maxIterations ==>
            c'.at == At(Escalate))
  {
    hide Gathered, GatherReply;
    FrugalGather(env, c.state, k);
    StepKeeps(env, c, GatherReply(k));
  }

  lemma FormOnce(env: Env, c: Config, k: nat)
    requires Books(env, c) && Flow(env, c) && c.at == At(FormHypothesis) && |c.state.hypotheses| == k
    requires forall h :: h in c.state.hypotheses ==> h.id < k
    ensures Fresh(c, FormReply(k))
    ensures var c' := Next(env, c, FormReply(k));
      && Books(env, c') && Flow(env, c')
      && c'.at == At(TestHypothesis) && c'.backEdges == c.backEdges
      && c'.state.current == Some(Hypothesis(k, Some("t"), map[], k, Untested))
      && c'.state.hypotheses == c.state.hypotheses + [Hypothesis(k, Some("t"), map[], k, Untested)]
      && c'.state.evidence == c.state.evidence && c'.state.toolCallsMade == c.state.toolCallsMade
      && |c'.state.steps| == |c.state.steps| + 1
  {
    var ps := FormReply(k).answer.proposals;
    assert ToHypotheses(c.state, ps) == [Hypothesis(k, Some("t"), map[], k, Untested)];
    StepKeeps(env, c, FormReply(k));
  }

  lemma TestOnce(env: Env, c: Config, k: nat)
    requires Books(env, c) && Flow(env, c) && c.at == At(TestHypothesis) && |c.state.hypotheses| == k + 1
    requires c.state.current == Some(Hypothesis(k, Some("t"), map[], k, Untested))
    requires forall h :: h in c.state.hypotheses ==> h.id < k + 1
    requires forall e :: e in c.state.evidence ==> |e.tool| <= k + 1
    ensures var c' := Next(env, c, TestReply());
      && Books(env, c') && Flow(env, c')
      && c'.state.toolCallsMade == c.state.toolCallsMade + 1
      && |c'.state.steps| == |c.state.steps| + 1
      && |c'.state.hypotheses| == k + 1
      && (forall h :: h in c'.state.hypotheses ==> h.id < k + 1)
      && (forall e :: e in c'.state.evidence ==> |e.tool| <= k + 1)
      && (c'.state.toolCallsMade < env.budgets.maxToolCalls ==>
            c'.at == At(GatherEvidence) && c'.backEdges == c.backEdges + 1)
      && (c'.state.toolCallsMade == env.budgets.maxToolCalls ==>
            c'.at == At(Escalate) && c'.backEdges == c.backEdges)
  {
    var tested := c.state.current.value.(outcome := Refuted);
    ReplacedKeepsTheList(c.state.hypotheses, tested);
    StepKeeps(env, c, TestReply());
  }

  /** One full round: three executions that add two calls and one refuted hypothesis. */
  lemma RoundOnce(env: Env, c: Config, k: nat)
    requires Books(env, c) && Flow(env, c) && Frugal(c, k)
    requires 2 * k < env.budgets.maxToolCalls && k + 1 < env.budgets.maxIterations
    ensures Admits(env, c, Round(k))
    ensures var c' := RunFrom(env, c, Round(k));
      && Books(env, c') && Flow(env, c')
      && c'.state.toolCallsMade == 2 * k + 1 && |c'.state.steps| == |c.state.steps| + 3
      && (2 * k + 1 < env.budgets.maxToolCalls ==> Frugal(c', k + 1))
      && (2 * k + 1 == env.budgets.maxToolCalls ==> c'.at == At(Escalate) && c'.backEdges == k)
  {
    hide Next, RunFrom, Admits, Books, Flow, GatherReply, FormReply, TestReply;
    var c1 := Next(env, c, GatherReply(k));
    GatherOnce(env, c, k);
    var c2 := Next(env, c1, FormReply(k));
    FormOnce(env, c1, k);
    TestOnce(env, c2, k);
    RunOfThree(env, c, GatherReply(k), FormReply(k), TestReply());
  }

  lemma RunOfOne(env: Env, c: Config, r: Reply)
    ensures RunFrom(env, c, [r]) == Next(env, c, r)
    ensures Admits(env, c, [r]) <==> Fresh(c, r)
  {}

  lemma RunOfThree(env: Env, c: Config, r1: Reply, r2: Reply, r3: Reply)
    ensures RunFrom(env, c, [r1, r2, r3]) == Next(env, Next(env, Next(env, c, r1), r2), r3)
    ensures Admits(env, c, [r1, r2, r3])
      <==> Fresh(c, r1) && Fresh(Next(env, c, r1), r2) && Fresh(Next(env, Next(env, c, r1), r2), r3)
  {
    hide Next;
    var c1 := Next(env, c, r1);
    assert [r1, r2, r3] == [r1] + [r2, r3] && [r2, r3] == [r2] + [r3];
    RunAppends(env, c, [r1], [r2, r3]);
    RunAppends(env, c1, [r2], [r3]);
    RunOfOne(env, c, r1);
    RunOfOne(env, c1, r2);
    RunOfOne(env, Next(env, c1, r2), r3);
  }

  /** `k` rounds are an admissible run that leaves the adversary frugal. */
  ghost predicate FrugalAfter(env: Env, failure: Failure, k: nat) {
    var c := RunFrom(env, Init(env, failure), Rounds(k));
    Admits(env, Init(env, failure), Rounds(k)) && Books(env, c) && Flow(env, c) && Frugal(c, k)
  }

  lemma AfterTriage(env: Env, failure: Failure)
    ensures FrugalAfter(env, failure, 0)
  {
    RunOfOne(env, Init(env, failure), TriageReply());
    StartKeeps(env, failure);
    StepKeeps(env, Init(env, failure), TriageReply());
  }

  lemma AfterOneMore(env: Env, failure: Failure, k: nat)
    requires k + 1 < env.budgets.maxIterations && 2 * (k + 1) <= env.budgets.maxToolCalls
    requires FrugalAfter(env, failure, k)
    ensures FrugalAfter(env, failure, k + 1)
  {
    hide RunFrom, Admits, Books, Flow, Frugal, Round;
    RoundOnce(env, RunFrom(env, Init(env, failure), Rounds(k)), k);
    RunAppends(env, Init(env, failure), Rounds(k), Round(k));
  }

  lemma {:induction false} AfterRounds(env: Env, failure: Failure, k: nat)
    requires k < env.budgets.maxIterations && 2 * k <= env.budgets.maxToolCalls
    ensures FrugalAfter(env, failure, k)
  {
    hide *;
    if k == 0 {
      AfterTriage(env, failure);
    } else {
      AfterRounds(env, failure, k - 1);
      AfterOneMore(env, failure, k - 1);
    }
  }

  /** The round in which a budget gives out reaches `escalate` as late as it can. */
  lemma LastRoundEscalates(env: Env, c: Config, k: nat)
    requires Books(env, c) && Flow(env, c) && Frugal(c, k)
    requires k == Min(env.budgets.maxIterations - 1, env.budgets.maxToolCalls / 2)
    ensures var n, t := env.budgets.maxIterations, env.budgets.maxToolCalls;
      var last := if k + 1 < n && 2 * k < t then Round(k) else [GatherReply(k)];
      && Admits(env, c, last) && RunFrom(env, c, last).at == At(Escalate)
      && RunFrom(env, c, last).backEdges == k
      && |RunFrom(env, c, last).state.steps| + 1 == MaxSteps(n, t)
  {
    if k + 1 < env.budgets.maxIterations && 2 * k < env.budgets.maxToolCalls {
      RoundOnce(env, c, k);
    } else {
      GatherOnce(env, c, k);
      RunOfOne(env, c, GatherReply(k));
    }
  }

  /** Some run is exactly as long as the bound allows, and takes as many back edges as it may, for all
      budgets, tools and failures. */
  lemma TheBoundIsAttained(env: Env, failure: Failure) returns (replies: seq<Reply>)
    ensures Admits(env, Init(env, failure), replies)
    ensures var c := RunFrom(env, Init(env, failure), replies);
      && c.at == End
      && |c.state.steps| == MaxSteps(env.budgets.maxIterations, env.budgets.maxToolCalls)
      && c.backEdges == Min(env.budgets.maxIterations - 1, env.budgets.maxToolCalls / 2)
  {
    hide Rounds, Round, Books, RunFrom, Admits;
    var n, t := env.budgets.maxIterations, env.budgets.maxToolCalls;
    var k := Min(n - 1, t / 2);
    var start := Init(env, failure);
    AfterRounds(env, failure, k);
    var c := RunFrom(env, start, Rounds(k));
    var last: seq<Reply> := if k + 1 < n && 2 * k < t then Round(k) else [GatherReply(k)];
    LastRoundEscalates(env, c, k);
    RunAppends(env, start, Rounds(k), last);
    var atEscalate := RunFrom(env, c, last);
    RunOfOne(env, atEscalate, TestReply());
    RunAppends(env, start, Rounds(k) + last, [TestReply()]);
    replies := Rounds(k) + last + [TestReply()];
  }
}
