/** Budgets over whole runs: how far the loop can go, and the exact longest run. */
module GraphBudgets {
  import opened Domain
  import opened Toolbox
  import opened States
  import opened Confidence
  import opened Routing
  import opened Nodes
  import opened Graph

  /** The longest run two budgets allow, in node executions. */
  function MaxSteps(iterations: nat, toolCalls: nat): nat {
    if iterations <= toolCalls / 2 + 1 then 3 * iterations
    else if toolCalls % 2 == 0 then 3 * (toolCalls / 2) + 3
    else 3 * (toolCalls / 2) + 5
  }

  /** Ranks follow list positions and identifiers are distinct. */
  ghost predicate Listed(hs: seq<Hypothesis>) {
    && (forall i :: 0 <= i < |hs| ==> hs[i].rank == i)
    && (forall i, j :: 0 <= i < j < |hs| ==> hs[i].id != hs[j].id)
  }

  /** The current hypothesis, when there is one, is the identical entry in the list. */
  predicate CurrentListed(s: State) {
    s.current.Some? ==>
      s.current.value.rank < |s.hypotheses| && s.hypotheses[s.current.value.rank] == s.current.value
  }

  ghost predicate Books(env: Env, c: Config) {
    && c.state.maxIterations == env.budgets.maxIterations
    && c.state.maxToolCalls == env.budgets.maxToolCalls
    && |c.state.evidence| == c.state.toolCallsMade == |c.origins| <= c.state.maxToolCalls
    && Listed(c.state.hypotheses)
    && CurrentListed(c.state)
  }

  predicate Running(s: State) {
    s.haltReason.None? && s.diagnosis.None? && forall i :: 0 <= i < |s.steps| ==> !s.steps[i].failed
  }

  /** A test can be run: there is a fresh hypothesis, it names a tool, and a call is left for it. */
  predicate Testable(s: State) {
    && s.current.Some? && s.current.value.outcome == Untested
    && s.current.value.testTool.Some? && s.current.value.testTool.value != ""
    && s.current.value.testArguments == map[]
    && s.toolCallsMade < s.maxToolCalls
  }

  /** How counters and position move together; `k` back edges have been taken. */
  predicate Flow(env: Env, c: Config) {
    var s, k := c.state, c.backEdges;
    var n, t := env.budgets.maxIterations, env.budgets.maxToolCalls;
    && k < n && 2 * k <= t
    && (c.at != At(TestHypothesis) && c.at != End && c.at != At(Escalate) ==> c.toolRuns == s.toolCallsMade)
    && match c.at
       case At(Triage) => c.backEdges == 0 && s == InitialState(s.failure, env.budgets) && c.toolRuns == 0
       case At(GatherEvidence) =>
         && Running(s) && |s.steps| == 3 * k + 1 && s.iteration == k && s.toolCallsMade < t
         && (k == 0 ==> s.hypotheses == [] && s.evidence == [] && s.current.None?)
         && (k > 0 ==> s.hypotheses != [] && s.toolCallsMade >= 2 * k - 1
                       && s.current.Some? && s.current.value.outcome != Confirmed)
       case At(FormHypothesis) =>
         && Running(s) && |s.steps| == 3 * k + 2 && s.iteration == k + 1 < n
         && 2 * k <= s.toolCallsMade < t
       case At(TestHypothesis) =>
         && Running(s) && |s.steps| == 3 * k + 3 && s.iteration == k + 1 < n
         && 2 * k <= s.toolCallsMade < t && Testable(s) && c.toolRuns == s.toolCallsMade
       case At(Conclude) => |s.steps| < MaxSteps(n, t) && Running(s)
       case At(Escalate) => |s.steps| < MaxSteps(n, t)
       case End => |s.steps| <= MaxSteps(n, t)
  }

  lemma ReplacedKeepsTheList(hs: seq<Hypothesis>, tested: Hypothesis)
    requires Listed(hs)
    requires tested.rank < |hs| && hs[tested.rank].id == tested.id
    ensures Replaced(hs, tested) == hs[tested.rank := tested]
    ensures Listed(Replaced(hs, tested))
  {}

  lemma ProposedExtendTheList(s: State, proposals: seq<Proposal>)
    requires Listed(s.hypotheses)
    requires forall i, j :: 0 <= i < j < |proposals| ==> proposals[i].id != proposals[j].id
    requires forall i, h :: 0 <= i < |proposals| && h in s.hypotheses ==> proposals[i].id != h.id
    ensures Listed(s.hypotheses + ToHypotheses(s, proposals))
    ensures var ps := ToHypotheses(s, proposals);
            ps != [] ==> Leading(ps) == ps[0] == ToHypothesis(proposals[0], |s.hypotheses|)
  {
    var ps := ToHypotheses(s, proposals);
    if ps != [] {
      LeadingIsFirst(ps);
    }
  }

  lemma StartKeeps(env: Env, failure: Failure)
    ensures Books(env, Init(env, failure)) && Flow(env, Init(env, failure))
  {}

  lemma TriageKeeps(env: Env, c: Config, reply: Reply)
    requires Books(env, c) && Flow(env, c) && c.at == At(Triage)
    ensures Books(env, Next(env, c, reply)) && Flow(env, Next(env, c, reply))
  {}

  lemma GatherKeeps(env: Env, c: Config, reply: Reply)
    requires Books(env, c) && Flow(env, c) && c.at == At(GatherEvidence)
    ensures Books(env, Next(env, c, reply)) && Flow(env, Next(env, c, reply))
  {
    if reply.answer.Plan? {
      var s, calls := c.state, reply.answer.calls;
      CollectAsksEachNewQuestionOnce(
        env.tools, s.ToolContext(), QuestionsIn(s.evidence), calls[..Min(Allowed(s), |calls|)]);
    }
  }

  lemma FormKeeps(env: Env, c: Config, reply: Reply)
    requires Books(env, c) && Flow(env, c) && c.at == At(FormHypothesis) && Fresh(c, reply)
    ensures Books(env, Next(env, c, reply)) && Flow(env, Next(env, c, reply))
  {
    if reply.answer.Proposed? {
      ProposedExtendTheList(c.state, reply.answer.proposals);
    }
  }

  lemma JudgedTestKeeps(env: Env, c: Config, reply: Reply)
    requires Books(env, c) && Flow(env, c) && c.at == At(TestHypothesis) && reply.answer.Judged?
    ensures Books(env, Next(env, c, reply)) && Flow(env, Next(env, c, reply))
  {
    ReplacedKeepsTheList(c.state.hypotheses, c.state.current.value.(outcome := reply.answer.outcome));
  }

  lemma LostTestKeeps(env: Env, c: Config, reply: Reply)
    requires Books(env, c) && Flow(env, c) && c.at == At(TestHypothesis) && !reply.answer.Judged?
    ensures Books(env, Next(env, c, reply)) && Flow(env, Next(env, c, reply))
  {}

  lemma ExitKeeps(env: Env, c: Config, reply: Reply)
    requires Books(env, c) && Flow(env, c) && (c.at == At(Conclude) || c.at == At(Escalate) || c.at == End)
    ensures Books(env, Next(env, c, reply)) && Flow(env, Next(env, c, reply))
  {}

  lemma StepKeeps(env: Env, c: Config, reply: Reply)
    requires Books(env, c) && Flow(env, c) && Fresh(c, reply)
    ensures Books(env, Next(env, c, reply)) && Flow(env, Next(env, c, reply))
  {
    match c.at
    case At(Triage) => TriageKeeps(env, c, reply);
    case At(GatherEvidence) => GatherKeeps(env, c, reply);
    case At(FormHypothesis) => FormKeeps(env, c, reply);
    case At(TestHypothesis) =>
      if reply.answer.Judged? {
        JudgedTestKeeps(env, c, reply);
      } else {
        LostTestKeeps(env, c, reply);
      }
    case _ => ExitKeeps(env, c, reply);
  }
}
