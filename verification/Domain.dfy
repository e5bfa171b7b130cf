/** The vocabulary of an investigation: outcomes, halt reasons, hypotheses, diagnoses and budgets.
    Confidence and thresholds are counted in ten-thousandths, so every weight times every
    signature strength is a whole number. */
module Domain {

  datatype Option<+T> = None | Some(value: T)

  datatype Category =
    | SchemaDrift
    | DataQualityRegression
    | UpstreamDependencyFailure
    | MissingUpstreamData
    | TransientInfrastructure
    | QueryDefect
    | TypeMismatch
    | ResourceExhaustion
    | ConfigurationError
    | Unknown

  datatype HaltReason =
    | Concluded
    | IterationBudgetExhausted
    | ToolCallBudgetExhausted
    | ConfidenceTooLow
    | NoHypothesisFormed
    | InvestigationError

  datatype Outcome = Untested | Confirmed | Refuted | Inconclusive

  datatype NodeName =
    | Triage
    | GatherEvidence
    | FormHypothesis
    | TestHypothesis
    | Conclude
    | Escalate

  /** A JSON value a tool argument may hold. Only null and the empty string are special. */
  datatype Json = Null | Text(text: string) | Number(number: int)

  type Args = map<string, Json>

  /** How decisive a known failure pattern is; every pattern in the table is a multiple of 0.05. */
  type Strength = n: int | 0 <= n <= 10000 && n % 10 == 0

  datatype Signature = Signature(category: Category, strength: Strength)

  /** A task failure, with the known pattern its exception matches, if any. */
  datatype Failure = Failure(
    dagId: string, taskId: string, runId: string, tryNumber: int, signature: Option<Signature>)

  datatype Evidence = Evidence(tool: string, input: Args, succeeded: bool)

  type HypothesisId = nat

  datatype Hypothesis = Hypothesis(
    id: HypothesisId, testTool: Option<string>, testArguments: Args, rank: nat, outcome: Outcome)

  datatype Diagnosis = Diagnosis(category: Category, confidence: int, haltReason: HaltReason) {
    predicate IsConclusive() {
      haltReason == Concluded && category != Unknown
    }
  }

  datatype BudgetSettings = BudgetSettings(
    maxIterations: nat, maxToolCalls: nat, triageShortcut: int, minConclude: int)

  /** The bounds and the validator the settings are loaded under. */
  type Budgets = b: BudgetSettings |
    && 1 <= b.maxIterations <= 50
    && 1 <= b.maxToolCalls <= 200
    && 0 <= b.minConclude <= b.triageShortcut <= 10000
    witness BudgetSettings(5, 20, 9000, 5000)

  function Min(a: int, b: int): int { if a <= b then a else b }

  function Max(a: int, b: int): int { if a >= b then a else b }
}
