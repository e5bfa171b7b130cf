/** The conditional edges: pure functions of the state and the budgets. */
module Routing {
  import opened Domain
  import opened States
  import opened Confidence

  predicate Halted(s: State) { s.haltReason.Some? && s.haltReason.value != Concluded }

  function AfterTriage(s: State, budgets: BudgetSettings): NodeName {
    if Halted(s) then Escalate
    else if s.triage.Some? && !s.triage.value.needsInvestigation
            && s.triage.value.confidence >= budgets.triageShortcut then Conclude
    else if s.BudgetExhausted() then Escalate
    else GatherEvidence
  }

  function AfterGatherEvidence(s: State): NodeName {
    if Halted(s) || s.BudgetExhausted() then Escalate
    else if s.evidenceExhausted && s.hypotheses != [] then Conclude
    else FormHypothesis
  }

  function AfterFormHypothesis(s: State): NodeName {
    if Halted(s) then Escalate
    else if s.current.None? then Escalate
    else TestHypothesis
  }

  function AfterTestHypothesis(s: State, budgets: BudgetSettings): NodeName {
    if Halted(s) then Escalate
    else if s.current.Some? && s.current.value.outcome == Confirmed then
      if ComputeConfidence(s) >= budgets.minConclude then Conclude else Escalate
    else if s.BudgetExhausted() then Escalate
    else GatherEvidence
  }

  function HaltReasonForRoute(s: State): HaltReason {
    if s.haltReason.Some? && s.haltReason.value != Concluded then s.haltReason.value
    else if s.ExhaustionReason().Some? then s.ExhaustionReason().value
    else if s.current.None? then NoHypothesisFormed
    else ConfidenceTooLow
  }
}
