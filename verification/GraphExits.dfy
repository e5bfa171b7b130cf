/** How a run leaves the loop: the edge taken, the reason recorded and the score attached. */
module GraphExits {
  import opened Domain
  import opened States
  import opened Confidence
  import opened Routing
  import opened Nodes
  import opened Graph
  import opened GraphBudgets
  import opened GraphTrace

  /** The reason an escalation from a given last step has to carry. */
  function ExpectedReason(last: StepRecord, s: State): HaltReason {
    if last.failed then InvestigationError
    else match last.node
      case FormHypothesis => NoHypothesisFormed
      case TestHypothesis => if s.ToolCallsRemaining() == 0 then ToolCallBudgetExhausted else ConfidenceTooLow
      case _ => if s.IterationsRemaining() == 0 then IterationBudgetExhausted else ToolCallBudgetExhausted
  }

  predicate ConfirmedIn(s: State) { s.current.Some? && s.current.value.outcome == Confirmed }

  /** What holds when the loop is left towards `escalate` after the step `last`. */
  predicate LeftToEscalate(env: Env, last: StepRecord, s: State) {
    last.failed || match last.node
      case Triage => false
      case GatherEvidence => s.BudgetExhausted()
      case FormHypothesis => s.current.None? && !s.BudgetExhausted()
      case TestHypothesis =>
        && s.IterationsRemaining() > 0
        && (ConfirmedIn(s) ==> ComputeConfidence(s) < env.budgets.minConclude)
        && (!ConfirmedIn(s) ==> s.ToolCallsRemaining() == 0)
      case _ => false
  }

  /** What holds when the loop is left towards `conclude` after the step `last`. */
  predicate LeftToConclude(env: Env, last: StepRecord, s: State) {
    !last.failed && match last.node
      case Triage =>
        && s.failure.signature.Some? && s.triage.Some?
        && s.failure.signature.value.strength >= env.budgets.triageShortcut
        && s.triage.value.category == s.failure.signature.value.category
        && !s.triage.value.needsInvestigation
        && s.evidence == [] && s.hypotheses == [] && s.current.None?
      case GatherEvidence =>
        && s.evidenceExhausted && !s.BudgetExhausted() && s.iteration >= 2
        && s.current.Some? && s.current.value.outcome != Confirmed
      case TestHypothesis => ConfirmedIn(s) && ComputeConfidence(s) >= env.budgets.minConclude
      case _ => false
  }

  /** A finished run: its last step, the step it left the loop from, and its result agree. */
  predicate Finished(env: Env, s: State) {
    var n := |s.steps|;
    && n >= 2
    && (forall i :: 0 <= i < n - 2 ==> !s.steps[i].failed)
    && var left, last := s.steps[n - 2], s.steps[n - 1];
    && (last.node == Escalate || last.node == Conclude)
    && (last.node == Escalate ==>
          && !last.failed && LeftToEscalate(env, left, s)
          && s.haltReason == Some(ExpectedReason(left, s))
          && s.diagnosis == Some(Diagnosis(Unknown, ComputeConfidence(s), ExpectedReason(left, s))))
    && (last.node == Conclude ==> LeftToConclude(env, left, s))
    && (last.node == Conclude && !last.failed ==>
          && s.haltReason == Some(Concluded) && s.diagnosis.Some?
          && s.diagnosis.value.confidence == ComputeConfidence(s)
          && s.diagnosis.value.haltReason == Concluded)
    && (last.node == Conclude && last.failed ==>
          s.haltReason == Some(InvestigationError) && s.diagnosis.None?)
  }

  predicate Exits(env: Env, c: Config) {
    var s, n := c.state, |c.state.steps|;
    match c.at
    case At(Conclude) => n >= 1 && LeftToConclude(env, s.steps[n - 1], s)
    case At(Escalate) =>
      && n >= 1 && LeftToEscalate(env, s.steps[n - 1], s)
      && (forall i :: 0 <= i < n - 1 ==> !s.steps[i].failed)
      && HaltReasonForRoute(s) == ExpectedReason(s.steps[n - 1], s)
    case End => Finished(env, s)
    case _ => true
  }

  predicate InLoop(c: Config) { c.at != At(Conclude) && c.at != At(Escalate) && c.at != End }

  /** A step inside the loop leaves it by an edge exactly when that edge's condition holds. */
  lemma LeftExactlyWhen(env: Env, c: Config, reply: Reply)
    requires Books(env, c) && Flow(env, c) && InLoop(c)
    ensures var c' := Next(env, c, reply);
      var last := c'.state.steps[|c'.state.steps| - 1];
      && (c'.at == At(Escalate) <==> LeftToEscalate(env, last, c'.state))
      && (c'.at == At(Conclude) <==> LeftToConclude(env, last, c'.state))
  {}

  lemma LeavingKeeps(env: Env, c: Config, reply: Reply)
    requires Books(env, c) && Flow(env, c) && InLoop(c)
    ensures Exits(env, Next(env, c, reply))
  {
    LeftExactlyWhen(env, c, reply);
  }

  lemma ConcludingKeeps(env: Env, c: Config, reply: Reply)
    requires Flow(env, c) && Exits(env, c) && c.at == At(Conclude)
    ensures Exits(env, Next(env, c, reply))
  {
    var s, s' := c.state, Next(env, c, reply).state;
    assert s'.steps[..|s.steps|] == s.steps;
    assert ComputeConfidence(s') == ComputeConfidence(s);
    assert s'.steps[|s'.steps| - 2] == s.steps[|s.steps| - 1];
  }

  lemma EscalatingKeeps(env: Env, c: Config, reply: Reply)
    requires Exits(env, c) && c.at == At(Escalate)
    ensures Exits(env, Next(env, c, reply))
  {}

  lemma ExitsKeep(env: Env, c: Config, reply: Reply)
    requires Books(env, c) && Flow(env, c) && Exits(env, c)
    ensures Exits(env, Next(env, c, reply))
  {
    if c.at == At(Conclude) {
      ConcludingKeeps(env, c, reply);
    } else if c.at == At(Escalate) {
      EscalatingKeeps(env, c, reply);
    } else if c.at != End {
      LeavingKeeps(env, c, reply);
    }
  }
}
