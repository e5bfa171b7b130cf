/** What holds of every run of the investigation graph, whatever the model and the tools answer. */
module GraphTheorems {
  import opened Domain
  import opened Toolbox
  import opened States
  import opened Confidence
  import opened Routing
  import opened Nodes
  import opened Graph
  import opened GraphBudgets
  import opened GraphTrace
  import opened GraphExits

  ghost predicate Invariant(env: Env, c: Config) {
    && Books(env, c) && Flow(env, c)
    && Path(c) && ToolRunsCounted(c) && JudgedWereTested(c) && NoRepeatedQuestions(c)
    && Exits(env, c) && UnknownToolsFail(env, c)
  }

  lemma StartIsInvariant(env: Env, failure: Failure)
    ensures Invariant(env, Init(env, failure))
  {}

  lemma StepIsInvariant(env: Env, c: Config, reply: Reply)
    requires Invariant(env, c) && Fresh(c, reply)
    ensures Invariant(env, Next(env, c, reply))
  {
    StepKeeps(env, c, reply);
    PathKeeps(env, c, reply);
    ToolRunsKeep(env, c, reply);
    JudgedKeep(env, c, reply);
    QuestionsKeep(env, c, reply);
    ExitsKeep(env, c, reply);
    UnknownToolsKeep(env, c, reply);
  }

  lemma {:induction false} RunIsInvariant(env: Env, c: Config, replies: seq<Reply>)
    requires Invariant(env, c) && Admits(env, c, replies)
    ensures Invariant(env, RunFrom(env, c, replies))
    decreases |replies|
  {
    if replies != [] {
      StepIsInvariant(env, c, replies[0]);
      RunIsInvariant(env, Next(env, c, replies[0]), replies[1..]);
    }
  }

  lemma ReachableIsInvariant(env: Env, failure: Failure, c: Config)
    requires Reachable(env, failure, c)
    ensures Invariant(env, c)
  {
    var replies :| Admits(env, Init(env, failure), replies) && RunFrom(env, Init(env, failure), replies) == c;
    StartIsInvariant(env, failure);
    RunIsInvariant(env, Init(env, failure), replies);
  }

  // ---------- Termination ----------

  lemma {:induction false} EveryStepIsRecorded(env: Env, c: Config, replies: seq<Reply>)
    ensures var c' := RunFrom(env, c, replies);
            c'.at != End ==> |c'.state.steps| == |c.state.steps| + |replies|
    decreases |replies|
  {
    if replies != [] {
      EveryStepIsRecorded(env, Next(env, c, replies[0]), replies[1..]);
      if c.at == End {
        EndStays(env, c, replies);
      }
    }
  }

  lemma {:induction false} EndStays(env: Env, c: Config, replies: seq<Reply>)
    requires c.at == End
    ensures RunFrom(env, c, replies) == c
    decreases |replies|
  {
    if replies != [] {
      EndStays(env, c, replies[1..]);
    }
  }

  lemma UnfinishedIsShort(env: Env, c: Config)
    requires Flow(env, c) && c.at != End
    ensures |c.state.steps| < MaxSteps(env.budgets.maxIterations, env.budgets.maxToolCalls)
  {}

  /** Any run ends within the bound, whatever is answered, and takes few back edges. */
  lemma EveryRunEnds(env: Env, failure: Failure, replies: seq<Reply>)
    requires Admits(env, Init(env, failure), replies)
    ensures var c := RunFrom(env, Init(env, failure), replies);
      var n, t := env.budgets.maxIterations, env.budgets.maxToolCalls;
      && |c.state.steps| <= MaxSteps(n, t) <= 3 * n
      && (|replies| >= MaxSteps(n, t) ==> c.at == End)
      && c.backEdges <= Min(n - 1, t / 2)
  {
    StartIsInvariant(env, failure);
    RunIsInvariant(env, Init(env, failure), replies);
    EveryStepIsRecorded(env, Init(env, failure), replies);
    var c := RunFrom(env, Init(env, failure), replies);
    if c.at != End {
      UnfinishedIsShort(env, c);
    }
  }

  /** Running the graph to its end against a strategy that may look at everything so far. */
  method RunGraph(env: Env, failure: Failure, strategy: Config -> Reply)
    returns (final: Config, ghost replies: seq<Reply>)
    requires forall c :: Fresh(c, strategy(c))
    ensures final.at == End && Finished(env, final.state)
    ensures Admits(env, Init(env, failure), replies)
    ensures final == RunFrom(env, Init(env, failure), replies)
  {
    final, replies := Init(env, failure), [];
    StartIsInvariant(env, failure);
    while final.at != End
      invariant Admits(env, Init(env, failure), replies)
      invariant final == RunFrom(env, Init(env, failure), replies)
      invariant Invariant(env, final)
      decreases MaxSteps(env.budgets.maxIterations, env.budgets.maxToolCalls) - |final.state.steps|,
                final.at != End
    {
      var reply := strategy(final);
      UnfinishedIsShort(env, final);
      StepIsInvariant(env, final, reply);
      RunAppends(env, Init(env, failure), replies, [reply]);
      final, replies := Next(env, final, reply), replies + [reply];
    }
  }

  // ---------- The trace, the tests and the questions ----------

  lemma TraceAndHypothesesAreKept(env: Env, failure: Failure, c: Config)
    requires Reachable(env, failure, c)
    ensures forall i :: 0 <= i < |c.state.steps| ==> c.state.steps[i].sequence == i + 1
    ensures forall i :: 0 < i < |c.state.steps| ==>
              At(c.state.steps[i].node) in Edges(c.state.steps[i - 1].node)
    ensures forall i :: 0 <= i < |c.state.hypotheses| ==> c.state.hypotheses[i].rank == i
    ensures c.state.current.Some? ==>
              && c.state.current.value.rank < |c.state.hypotheses|
              && c.state.hypotheses[c.state.current.value.rank] == c.state.current.value
    ensures |c.state.RefutedHypotheses()| <= Tests(c.state.steps)
    ensures if c.state.steps == [] then c.at == At(Triage)
            else c.state.steps[0].node == Triage && c.at in Edges(c.state.steps[|c.state.steps| - 1].node)
    ensures forall i, j :: 0 <= i < j < |c.origins| && c.origins[i].FromTest? ==> c.origins[i] != c.origins[j]
  {
    hide Reachable;
    ReachableIsInvariant(env, failure, c);
  }

  /** A hypothesis that carries a verdict had its own test called, exactly once. Nothing makes the tool it
      names exist, and one that does not is recorded as a failed call. */
  lemma EveryJudgedHypothesisWasTested(env: Env, failure: Failure, c: Config, h: Hypothesis)
    requires Reachable(env, failure, c) && h in c.state.hypotheses && h.outcome != Untested
    ensures |c.origins| == |c.state.evidence|
    ensures exists j :: (0 <= j < |c.origins|
              && c.origins[j] == FromTest(h.id) && h.testTool == Some(c.state.evidence[j].tool)
              && (c.state.evidence[j].tool !in env.tools ==> !c.state.evidence[j].succeeded)
              && forall i :: 0 <= i < |c.origins| && i != j ==> c.origins[i] != FromTest(h.id))
  {
    hide Reachable;
    ReachableIsInvariant(env, failure, c);
    assert TestedIn(c.origins, c.state.evidence, h);
    var j :| 0 <= j < |c.origins| && TestAt(c.origins, c.state.evidence, j, h);
    assert forall i :: 0 <= i < |c.origins| && i != j ==> c.origins[i] != c.origins[j];
  }

  /** The three fallbacks of the test node, for no hypothesis, no test and no budget, never run in
      the graph: its own tool is always called, and an arriving verdict is kept with that evidence. */
  lemma TestFallbacksAreUnreachable(env: Env, failure: Failure, c: Config, reply: Reply)
    requires Reachable(env, failure, c) && c.at == At(TestHypothesis)
    ensures c.state.current.Some? && c.state.current.value.outcome == Untested
    ensures var h, run := c.state.current.value, TestEvidence(env.tools, c.state, reply.test);
      && |run| == 1 && h.testTool == Some(run[0].tool) && h.rank < |c.state.hypotheses|
      && (reply.answer.Judged? ==>
            var s' := Next(env, c, reply).state;
            && s'.evidence == c.state.evidence + run
            && s'.hypotheses == c.state.hypotheses[h.rank := h.(outcome := reply.answer.outcome)])
  {
    hide Reachable;
    ReachableIsInvariant(env, failure, c);
    if reply.answer.Judged? {
      ReplacedKeepsTheList(c.state.hypotheses, c.state.current.value.(outcome := reply.answer.outcome));
    }
  }

  /** The tool budget holds for the true number of runs, and the counter misses at most one. */
  lemma ToolBudgetIsNeverOverrun(env: Env, failure: Failure, c: Config)
    requires Reachable(env, failure, c)
    ensures |c.state.evidence| == c.state.toolCallsMade <= c.toolRuns <= env.budgets.maxToolCalls
    ensures c.toolRuns <= c.state.toolCallsMade + 1
    ensures c.toolRuns == c.state.toolCallsMade + 1 <==>
              exists i :: 0 <= i < |c.state.steps|
                && c.state.steps[i].node == TestHypothesis && c.state.steps[i].failed
  {
    hide Reachable;
    ReachableIsInvariant(env, failure, c);
  }

  lemma GatherNeverRepeatsAQuestion(env: Env, failure: Failure, c: Config, i: nat, j: nat)
    requires Reachable(env, failure, c) && i < j < |c.state.evidence|
    requires Asked(c.state.evidence[i]) == Asked(c.state.evidence[j])
    ensures |c.origins| == |c.state.evidence| && c.origins[j].FromTest?
  {
    hide Reachable;
    ReachableIsInvariant(env, failure, c);
  }

  /** A planned round takes the first few calls the cap and the budget allow, runs each question that
      is new exactly once, skips the others without paying for them, and counts one iteration. */
  lemma AGatherRoundAsksWhatIsNew(env: Env, failure: Failure, c: Config, reply: Reply)
    requires Reachable(env, failure, c) && c.at == At(GatherEvidence) && reply.answer.Plan?
    ensures var s, s', calls := c.state, Next(env, c, reply).state, reply.answer.calls;
      var allowed := Min(Min(4, s.ToolCallsRemaining()), |calls|);
      && s.evidence <= s'.evidence
      && |s'.evidence| <= |s.evidence| + allowed
      && (forall j :: |s.evidence| <= j < |s'.evidence| ==>
            Asked(s'.evidence[j]) !in QuestionsIn(s'.evidence[..j]))
      && (forall k :: 0 <= k < allowed ==>
            QuestionOf(env.tools, s.ToolContext(), calls[k]) in QuestionsIn(s'.evidence))
      && s'.iteration == s.iteration + 1
      && (s'.evidenceExhausted <==> s'.evidence == s.evidence)
  {
    hide Reachable;
    ReachableIsInvariant(env, failure, c);
    var s, calls := c.state, reply.answer.calls;
    var taken := calls[..Min(Allowed(s), |calls|)];
    var got := Collect(env.tools, s.ToolContext(), QuestionsIn(s.evidence), taken);
    CollectAsksEachNewQuestionOnce(env.tools, s.ToolContext(), QuestionsIn(s.evidence), taken);
    NewQuestionsAreNew(s.evidence, got);
    assert forall k :: 0 <= k < |taken| ==> taken[k] in taken;
  }

  /** Proposals join the list in the model's order, at most three of them, and the first is the one
      that is tested next. */
  lemma TheFirstProposalIsTestedNext(env: Env, failure: Failure, c: Config, reply: Reply)
    requires Reachable(env, failure, c) && c.at == At(FormHypothesis) && reply.answer.Proposed?
    requires Fresh(c, reply)
    ensures var hs, hs', ps := c.state.hypotheses, Next(env, c, reply).state.hypotheses, reply.answer.proposals;
      && hs <= hs' && |hs'| == |hs| + Min(3, |ps|)
      && (forall i :: |hs| <= i < |hs'| ==>
            hs'[i].id == ps[i - |hs|].id && hs'[i].testTool == Some(ps[i - |hs|].testTool))
      && Next(env, c, reply).state.current == (if ps == [] then None else Some(hs'[|hs|]))
  {
    hide Reachable;
    ReachableIsInvariant(env, failure, c);
    ProposedExtendTheList(c.state, reply.answer.proposals);
  }

  // ---------- How a run ends ----------

  /** From every reachable point in the loop, whatever the reply, each way out is taken exactly when
      its condition holds of the step just made; otherwise the run goes on along the cycle. */
  lemma TheLoopIsLeftExactlyWhen(env: Env, failure: Failure, c: Config, reply: Reply)
    requires Reachable(env, failure, c) && InLoop(c)
    ensures var c' := Next(env, c, reply);
      |c'.state.steps| >= 1 &&
      var last := c'.state.steps[|c'.state.steps| - 1];
      && At(last.node) == c.at
      && (c'.at == At(Escalate) <==> LeftToEscalate(env, last, c'.state))
      && (c'.at == At(Conclude) <==> LeftToConclude(env, last, c'.state))
      && (InLoop(c') ==> c'.at == match last.node
            case Triage => At(GatherEvidence)
            case GatherEvidence => At(FormHypothesis)
            case FormHypothesis => At(TestHypothesis)
            case _ => At(GatherEvidence))
  {
    hide Reachable;
    ReachableIsInvariant(env, failure, c);
    LeftExactlyWhen(env, c, reply);
  }

  /** The recorded escalation reason tells which edge was taken, and why. */
  lemma EscalationReasonTellsTheEdge(env: Env, failure: Failure, c: Config)
    requires Reachable(env, failure, c) && c.at == End
    ensures var s, n := c.state, |c.state.steps|;
      n >= 2 && (s.steps[n - 1].node == Escalate ==>
        var left, reason := s.steps[n - 2], s.haltReason;
        && s.diagnosis.Some? && Some(s.diagnosis.value.haltReason) == reason
        && s.diagnosis.value.category == Unknown && s.diagnosis.value.confidence == ComputeConfidence(s)
        && !s.diagnosis.value.IsConclusive()
        && reason != Some(Concluded)
        && (reason == Some(InvestigationError) <==> left.failed)
        && (reason == Some(NoHypothesisFormed) <==> left.node == FormHypothesis && !left.failed)
        && (reason == Some(IterationBudgetExhausted) <==>
              left.node == GatherEvidence && !left.failed && s.IterationsRemaining() == 0)
        && (reason == Some(ConfidenceTooLow) <==>
              left.node == TestHypothesis && !left.failed && ConfirmedIn(s)
              && ComputeConfidence(s) < env.budgets.minConclude && s.ToolCallsRemaining() > 0)
        && (reason == Some(ToolCallBudgetExhausted) <==>
              !left.failed && s.ToolCallsRemaining() == 0
              && ((left.node == GatherEvidence && s.IterationsRemaining() > 0) || left.node == TestHypothesis))
        && (left.node == Triage ==> reason == Some(InvestigationError)))
  {
    hide Reachable;
    ReachableIsInvariant(env, failure, c);
  }

  /** Which scores each way of concluding can produce; a failed write leaves no diagnosis at all. */
  lemma ConfidenceByExit(env: Env, failure: Failure, c: Config)
    requires Reachable(env, failure, c) && c.at == End
    ensures var s, n := c.state, |c.state.steps|;
      n >= 2 && (s.steps[n - 1].node == Conclude ==>
        var left := s.steps[n - 2];
        && (s.diagnosis.None? <==> s.steps[n - 1].failed)
        && (s.diagnosis.Some? ==>
              var score := s.diagnosis.value.confidence;
              && s.haltReason == Some(Concluded) && score == ComputeConfidence(s)
              && (left.node == Triage ==>
                    && s.failure.signature.Some?
                    && score == 1500 + s.failure.signature.value.strength / 5 <= 3500)
              && (left.node == GatherEvidence ==> score <= 7600)
              && (left.node == TestHypothesis ==> score >= env.budgets.minConclude && ConfirmedIn(s))
              && (score > 7600 ==> ConfirmedIn(s))))
  {
    hide Reachable;
    ReachableIsInvariant(env, failure, c);
    ConfidenceNeverLeavesRange(c.state);
    assert WithOutcome([], Refuted) == [];
    assert SuccessfulTools([]) == {};
  }
}
