/** The state carried through an investigation, with its budget and hypothesis views. */
module States {
  import opened Domain
  import opened Toolbox

  datatype TriageResult = TriageResult(category: Category, confidence: int, needsInvestigation: bool)

  /** One node execution; `failed` records that the node ended in a halt. */
  datatype StepRecord = StepRecord(node: NodeName, sequence: nat, failed: bool)

  function WithOutcome(hs: seq<Hypothesis>, outcome: Outcome): seq<Hypothesis> {
    if hs == [] then []
    else (if hs[0].outcome == outcome then [hs[0]] else []) + WithOutcome(hs[1..], outcome)
  }

  datatype State = State(
    failure: Failure,
    triage: Option<TriageResult>,
    evidence: seq<Evidence>,
    hypotheses: seq<Hypothesis>,
    current: Option<Hypothesis>,
    iteration: nat,
    maxIterations: nat,
    toolCallsMade: nat,
    maxToolCalls: nat,
    evidenceExhausted: bool,
    diagnosis: Option<Diagnosis>,
    haltReason: Option<HaltReason>,
    steps: seq<StepRecord>)
  {
    function IterationsRemaining(): nat { Max(0, maxIterations - iteration) }

    function ToolCallsRemaining(): nat { Max(0, maxToolCalls - toolCallsMade) }

    predicate BudgetExhausted() { IterationsRemaining() == 0 || ToolCallsRemaining() == 0 }

    function ExhaustionReason(): Option<HaltReason> {
      if IterationsRemaining() == 0 then Some(IterationBudgetExhausted)
      else if ToolCallsRemaining() == 0 then Some(ToolCallBudgetExhausted)
      else None
    }

    function RefutedHypotheses(): seq<Hypothesis> { WithOutcome(hypotheses, Refuted) }

    function ToolContext(): Args {
      map["dag_id" := Text(failure.dagId), "task_id" := Text(failure.taskId),
          "run_id" := Text(failure.runId), "try_number" := Number(failure.tryNumber)]
    }

    function NextSequence(): nat { |steps| + 1 }
  }

  function InitialState(failure: Failure, budgets: Budgets): State {
    State(failure, None, [], [], None, 0, budgets.maxIterations, 0, budgets.maxToolCalls, false,
          None, None, [])
  }

  lemma {:induction false} WithOutcomeAppends(a: seq<Hypothesis>, b: seq<Hypothesis>, o: Outcome)
    ensures WithOutcome(a + b, o) == WithOutcome(a, o) + WithOutcome(b, o)
  {
    if a == [] {
      assert a + b == b;
    } else {
      assert (a + b)[0] == a[0] && (a + b)[1..] == a[1..] + b;
      WithOutcomeAppends(a[1..], b, o);
    }
  }

  lemma {:induction false} NoneWithOutcome(hs: seq<Hypothesis>, o: Outcome)
    requires forall h :: h in hs ==> h.outcome != o
    ensures WithOutcome(hs, o) == []
  {
    if hs != [] {
      NoneWithOutcome(hs[1..], o);
    }
  }
}
