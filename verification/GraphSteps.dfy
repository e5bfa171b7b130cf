/** What one node execution does to the state, said of the fields themselves and of the reply, without the
    words the nodes are written in. */
module GraphSteps {
  import opened Domain
  import opened Toolbox
  import opened States
  import opened Confidence
  import opened Nodes
  import opened Graph
  import opened GraphBudgets
  import opened GraphTheorems

  // ---------- Arguments and evidence ----------

  /** The arguments a call runs with: a declared argument that names the incident is the incident's own,
      any other declared one is what the model chose, if it chose anything, and nothing else is there. An
      unknown tool gets nothing. */
  ghost predicate RightInput(tools: Catalogue, failure: Failure, name: string, choice: Option<Args>, input: Args) {
    if name !in tools then input == map[]
    else
      && (forall k :: k in input ==> k in tools[name])
      && ("dag_id" in tools[name] ==> "dag_id" in input && input["dag_id"] == Text(failure.dagId))
      && ("task_id" in tools[name] ==> "task_id" in input && input["task_id"] == Text(failure.taskId))
      && ("run_id" in tools[name] ==> "run_id" in input && input["run_id"] == Text(failure.runId))
      && ("try_number" in tools[name] ==> "try_number" in input && input["try_number"] == Number(failure.tryNumber))
      && forall k :: k in tools[name] && k != "dag_id" && k != "task_id" && k != "run_id" && k != "try_number" ==>
           && (k in input <==> choice.Some? && k in choice.value && choice.value[k] != Null && choice.value[k] != Text(""))
           && (k in input ==> input[k] == choice.value[k])
  }

  /** One piece of evidence is what calling a tool with a given reply records. */
  ghost predicate Records(tools: Catalogue, failure: Failure, name: string, reply: ToolReply, e: Evidence) {
    && e.tool == name && RightInput(tools, failure, name, reply.choice, e.input)
    && (e.succeeded <==> name in tools && reply.ok)
  }

  lemma InputIsRight(tools: Catalogue, s: State, name: string, choice: Option<Args>)
    ensures RightInput(tools, s.failure, name, choice,
                       ArgumentsFor(tools, name, Resolve(tools, name, s.ToolContext(), choice), s.ToolContext()))
  {
    var context := s.ToolContext();
    FactsOfTheFailure(s);
    if name in tools {
      ChoosesTheRest(tools, name, context, choice);
      hide Resolve;
      KnownFactsFill(tools[name], Resolve(tools, name, context, choice), context);
      FillsRightly(tools, s.failure, name, choice, context, Resolve(tools, name, context, choice));
    }
  }

  /** The facts the incident supplies. */
  predicate Facts(failure: Failure, context: Args) {
    && context.Keys == {"dag_id", "task_id", "run_id", "try_number"}
    && context["dag_id"] == Text(failure.dagId) && context["task_id"] == Text(failure.taskId)
    && context["run_id"] == Text(failure.runId) && context["try_number"] == Number(failure.tryNumber)
  }

  lemma FactsOfTheFailure(s: State)
    ensures Facts(s.failure, s.ToolContext())
  {}

  predicate Chosen(tools: Catalogue, name: string, context: Args, choice: Option<Args>, chosen: Args)
    requires name in tools
  {
    && (forall k :: k in chosen ==>
          choice.Some? && k in choice.value && k in tools[name] && k !in context && choice.value[k] != Null
          && chosen[k] == choice.value[k])
    && (choice.Some? ==> forall k :: k in choice.value && k in tools[name] && k !in context && choice.value[k] != Null ==>
          k in chosen)
  }

  /** With nothing chosen for what the incident supplies, both sources end up side by side. */
  predicate Fills(declared: set<string>, chosen: Args, context: Args, r: Args) {
    && (forall k :: k in r ==> (k in context && k in declared) || (k in chosen && !Blank(chosen[k])))
    && (forall k :: k in context && k in declared ==> k in r && r[k] == context[k])
    && (forall k :: k in chosen && !Blank(chosen[k]) ==> k in r && r[k] == chosen[k])
  }

  lemma KnownFactsFill(declared: set<string>, chosen: Args, context: Args)
    requires "dag_id" in context && forall k :: k in chosen ==> k !in context
    ensures Fills(declared, chosen, context, WithContext(declared, chosen, context))
  {}

  lemma FillsRightly(
    tools: Catalogue, failure: Failure, name: string, choice: Option<Args>, context: Args, chosen: Args)
    requires name in tools && Facts(failure, context) && Chosen(tools, name, context, choice, chosen)
    requires Fills(tools[name], chosen, context, WithContext(tools[name], chosen, context))
    ensures RightInput(tools, failure, name, choice, ArgumentsFor(tools, name, chosen, context))
  {
    hide WithContext;
    assert "dag_id" in context && "task_id" in context && "run_id" in context && "try_number" in context;
    assert forall k :: k in context ==> k == "dag_id" || k == "task_id" || k == "run_id" || k == "try_number";
  }

  lemma ChoosesTheRest(tools: Catalogue, name: string, context: Args, choice: Option<Args>)
    requires name in tools
    ensures Chosen(tools, name, context, choice, Resolve(tools, name, context, choice))
  {}

  lemma RightInputIsUnique(tools: Catalogue, failure: Failure, name: string, choice: Option<Args>, a: Args, b: Args)
    requires RightInput(tools, failure, name, choice, a) && RightInput(tools, failure, name, choice, b)
    ensures a == b
  {
    if name in tools {
      forall k ensures k in a <==> k in b {}
      forall k | k in a ensures a[k] == b[k] {}
      assert a == b;
    }
  }

  // ---------- The six nodes ----------

  /** The step every execution leaves behind. */
  function Stepped(s: State, node: NodeName, failed: bool): seq<StepRecord> {
    s.steps + [StepRecord(node, |s.steps| + 1, failed)]
  }

  /** The reply is one the node can use; `escalate` asks nothing. */
  predicate Usable(node: NodeName, answer: Answer) {
    match node
    case Triage => answer.Classified?
    case GatherEvidence => answer.Plan?
    case FormHypothesis => answer.Proposed?
    case TestHypothesis => answer.Judged?
    case Conclude => answer.Written?
    case Escalate => true
  }

  /** A failed call halts the run and changes nothing else, whatever the node had done before it. */
  lemma AFailedCallOnlyHalts(env: Env, failure: Failure, c: Config, reply: Reply)
    requires Reachable(env, failure, c) && c.at.At? && !Usable(c.at.node, reply.answer)
    ensures Next(env, c, reply).state
         == c.state.(haltReason := Some(InvestigationError), steps := Stepped(c.state, c.at.node, true))
    ensures Next(env, c, reply).at == if c.at == At(Conclude) then End else At(Escalate)
  {
    hide Reachable;
    ReachableIsInvariant(env, failure, c);
  }

  /** Triage records the model's category, distrusts it unless it is the recognised one, and scores it by
      the strength of the pattern: in full when they agree, by half when not, and nothing without one. */
  lemma TriageRecordsTheAnswer(env: Env, c: Config, reply: Reply)
    requires c.at == At(Triage) && reply.answer.Classified?
    ensures var s, s' := c.state, Next(env, c, reply).state;
      && s'.triage.Some?
      && s' == s.(triage := s'.triage, steps := Stepped(s, Triage, false))
      && var t, answered, known := s'.triage.value, reply.answer.category, s.failure.signature;
         && t.category == answered
         && (t.needsInvestigation <==>
               reply.answer.needsInvestigation || known.None? || known.value.category != answered)
         && (known.None? ==> t.confidence == 0)
         && (known.Some? && known.value.category == answered ==> t.confidence == known.value.strength)
         && (known.Some? && known.value.category != answered ==> 2 * t.confidence == known.value.strength)
  {
    var known := c.state.failure.signature;
    TriageScores(known, known.Some? && reply.answer.category == known.value.category);
    hide TriageConfidence;
  }

  lemma TriageScores(signature: Option<Signature>, agrees: bool)
    ensures var score := TriageConfidence(signature, agrees);
      && (signature.None? ==> score == 0)
      && (signature.Some? && agrees ==> score == signature.value.strength)
      && (signature.Some? && !agrees ==> 2 * score == signature.value.strength)
  {}

  /** Each item a round adds is what the first of its calls to put that question recorded, and each call
      it took is answered by some item, from this round or before. */
  lemma AGatherRoundRecordsItsCalls(env: Env, failure: Failure, c: Config, reply: Reply)
    requires Reachable(env, failure, c) && c.at == At(GatherEvidence) && reply.answer.Plan?
    ensures var s, s', calls := c.state, Next(env, c, reply).state, reply.answer.calls;
      var allowed := Min(Min(4, s.ToolCallsRemaining()), |calls|);
      && s.evidence <= s'.evidence
      && s' == s.(evidence := s'.evidence, toolCallsMade := |s'.evidence|, iteration := s.iteration + 1,
                  evidenceExhausted := s'.evidence == s.evidence, steps := Stepped(s, GatherEvidence, false))
      && (forall j :: |s.evidence| <= j < |s'.evidence| ==>
            RecordsFirst(env.tools, failure, calls[..allowed], s'.evidence[j]))
      && (forall k :: 0 <= k < allowed ==> AskedIn(env.tools, failure, calls[k], s'.evidence))
  {
    hide Reachable, Next, Collect, Invariant, RecordsFirst, AskedIn;
    FailureStays(env, failure, c);
    ToolBudgetIsNeverOverrun(env, failure, c);
    var s, calls := c.state, reply.answer.calls;
    var taken := calls[..Min(Min(4, s.ToolCallsRemaining()), |calls|)];
    GatherLeaves(env, c, reply);
    GatheredRecords(env.tools, s, taken);
  }

  /** The calls a round takes, and what they add. */
  function Gained(tools: Catalogue, s: State, taken: seq<PlannedCall>): seq<Evidence> {
    Collect(tools, s.ToolContext(), QuestionsIn(s.evidence), taken)
  }

  lemma GatherLeaves(env: Env, c: Config, reply: Reply)
    requires c.at == At(GatherEvidence) && reply.answer.Plan? && |c.state.evidence| == c.state.toolCallsMade
    ensures var s, calls := c.state, reply.answer.calls;
      var got := Gained(env.tools, s, calls[..Min(Min(4, s.ToolCallsRemaining()), |calls|)]);
      Next(env, c, reply).state
        == s.(evidence := s.evidence + got, toolCallsMade := |s.evidence| + |got|, iteration := s.iteration + 1,
              evidenceExhausted := got == [], steps := Stepped(s, GatherEvidence, false))
  {
    hide Collect;
  }

  lemma GatheredRecords(tools: Catalogue, s: State, taken: seq<PlannedCall>)
    ensures var got := Gained(tools, s, taken);
      && (forall j :: 0 <= j < |got| ==> RecordsFirst(tools, s.failure, taken, got[j]))
      && (forall k :: 0 <= k < |taken| ==> AskedIn(tools, s.failure, taken[k], s.evidence + got))
  {
    var got := Gained(tools, s, taken);
    CollectAsksEachNewQuestionOnce(tools, s.ToolContext(), QuestionsIn(s.evidence), taken);
    CollectedItemsAnswerTheirCalls(tools, s.ToolContext(), QuestionsIn(s.evidence), taken);
    NewQuestionsAreNew(s.evidence, got);
    hide Collect, RecordsFirst, AskedIn, AnswersFirst, QuestionOf, QuestionsIn;
    forall j | 0 <= j < |got| ensures RecordsFirst(tools, s.failure, taken, got[j]) {
      FirstAnswerIsRecorded(tools, s, taken, got[j]);
    }
    forall k | 0 <= k < |taken| ensures AskedIn(tools, s.failure, taken[k], s.evidence + got) {
      assert taken[k] in taken;
      QuestionIsAsked(tools, s, taken[k], s.evidence + got);
    }
  }

  /** `e` records the call at some place, and no call before that one puts the same question. */
  ghost predicate RecordsFirst(tools: Catalogue, failure: Failure, calls: seq<PlannedCall>, e: Evidence) {
    exists i :: 0 <= i < |calls| && Records(tools, failure, calls[i].tool, calls[i].reply, e)
      && forall h :: 0 <= h < i ==> !Puts(tools, failure, calls[h], e)
  }

  /** The call puts the question that `e` records. */
  ghost predicate Puts(tools: Catalogue, failure: Failure, call: PlannedCall, e: Evidence) {
    call.tool == e.tool && RightInput(tools, failure, call.tool, call.reply.choice, e.input)
  }

  ghost predicate AskedIn(tools: Catalogue, failure: Failure, call: PlannedCall, evidence: seq<Evidence>) {
    exists j :: 0 <= j < |evidence| && Puts(tools, failure, call, evidence[j])
  }

  lemma PutsIsItsQuestion(tools: Catalogue, s: State, call: PlannedCall, e: Evidence)
    ensures Puts(tools, s.failure, call, e) <==> QuestionOf(tools, s.ToolContext(), call) == Asked(e)
  {
    InputIsRight(tools, s, call.tool, call.reply.choice);
    hide RightInput, ArgumentsFor, Resolve;
    var right := QuestionOf(tools, s.ToolContext(), call).1;
    if Puts(tools, s.failure, call, e) {
      RightInputIsUnique(tools, s.failure, call.tool, call.reply.choice, right, e.input);
    }
  }

  lemma FirstAnswerIsRecorded(tools: Catalogue, s: State, calls: seq<PlannedCall>, e: Evidence)
    requires AnswersFirst(tools, s.ToolContext(), QuestionsIn(s.evidence), calls, e)
    ensures RecordsFirst(tools, s.failure, calls, e)
  {
    var context := s.ToolContext();
    var i :| 0 <= i < |calls| && FirstAsking(tools, context, calls, i) && Answers(tools, context, calls[i], e)
      && QuestionOf(tools, context, calls[i]) !in QuestionsIn(s.evidence);
    AnswerIsRecorded(tools, s, calls[i], e);
    hide RightInput, Answers, Puts, QuestionOf;
    forall h | 0 <= h < i ensures !Puts(tools, s.failure, calls[h], e) {
      PutsIsItsQuestion(tools, s, calls[h], e);
    }
  }

  lemma AnswerIsRecorded(tools: Catalogue, s: State, call: PlannedCall, e: Evidence)
    requires Answers(tools, s.ToolContext(), call, e)
    ensures Records(tools, s.failure, call.tool, call.reply, e)
  {
    InputIsRight(tools, s, call.tool, call.reply.choice);
    hide RightInput, Resolve, ArgumentsFor;
  }

  lemma QuestionIsAsked(tools: Catalogue, s: State, call: PlannedCall, evidence: seq<Evidence>)
    requires QuestionOf(tools, s.ToolContext(), call) in QuestionsIn(evidence)
    ensures AskedIn(tools, s.failure, call, evidence)
  {
    hide Puts, QuestionOf;
    var e :| e in evidence && Asked(e) == QuestionOf(tools, s.ToolContext(), call);
    var j :| 0 <= j < |evidence| && evidence[j] == e;
    PutsIsItsQuestion(tools, s, call, e);
  }

  /** A run is about one failure throughout. */
  lemma FailureStays(env: Env, failure: Failure, c: Config)
    requires Reachable(env, failure, c)
    ensures c.state.failure == failure
  {
    var replies :| Admits(env, Init(env, failure), replies) && RunFrom(env, Init(env, failure), replies) == c;
    RunKeepsTheFailure(env, Init(env, failure), replies);
  }

  lemma {:induction false} RunKeepsTheFailure(env: Env, c: Config, replies: seq<Reply>)
    ensures RunFrom(env, c, replies).state.failure == c.state.failure
    decreases |replies|
  {
    if replies != [] {
      RunKeepsTheFailure(env, Next(env, c, replies[0]), replies[1..]);
    }
  }

  /** Forming lists at most three proposals, untested and ranked after the rest, and makes the first of
      them current. */
  lemma FormingListsTheProposals(env: Env, c: Config, reply: Reply)
    requires c.at == At(FormHypothesis) && reply.answer.Proposed?
    ensures var s, s', ps := c.state, Next(env, c, reply).state, reply.answer.proposals;
      && s' == s.(hypotheses := s'.hypotheses, current := s'.current, steps := Stepped(s, FormHypothesis, false))
      && s.hypotheses <= s'.hypotheses && |s'.hypotheses| == |s.hypotheses| + Min(3, |ps|)
      && (forall i :: |s.hypotheses| <= i < |s'.hypotheses| ==>
            s'.hypotheses[i] == Hypothesis(ps[i - |s.hypotheses|].id, Some(ps[i - |s.hypotheses|].testTool), map[], i, Untested))
      && (ps == [] ==> s'.current.None?)
      && (ps != [] ==> s'.current == Some(s'.hypotheses[|s.hypotheses|]))
  {
    var proposed := ToHypotheses(c.state, reply.answer.proposals);
    if proposed != [] {
      LeadingIsFirst(proposed);
    }
  }

  /** A test calls the hypothesis's own tool, records what it answered, and gives the current hypothesis,
      there and in the list, the verdict of the model. */
  lemma ATestRecordsItsCallAndVerdict(env: Env, failure: Failure, c: Config, reply: Reply)
    requires Reachable(env, failure, c) && c.at == At(TestHypothesis) && reply.answer.Judged?
    ensures c.state.current.Some? && c.state.current.value.testTool.Some?
    ensures var s, s', h := c.state, Next(env, c, reply).state, c.state.current.value;
      h.rank < |s.hypotheses| && |s'.evidence| == |s.evidence| + 1 &&
      var e, judged := s'.evidence[|s.evidence|], h.(outcome := reply.answer.outcome);
      && Records(env.tools, failure, h.testTool.value, reply.test, e)
      && s' == s.(evidence := s.evidence + [e], toolCallsMade := s.toolCallsMade + 1, current := Some(judged),
                  hypotheses := s.hypotheses[h.rank := judged], steps := Stepped(s, TestHypothesis, false))
  {
    hide Reachable;
    FailureStays(env, failure, c);
    ReachableIsInvariant(env, failure, c);
    TestFallbacksAreUnreachable(env, failure, c, reply);
    var s, h := c.state, c.state.current.value;
    InputIsRight(env.tools, s, h.testTool.value, reply.test.choice);
    hide RightInput, ArgumentsFor, Resolve, Invariant;
    ReplacedKeepsTheList(s.hypotheses, h.(outcome := reply.answer.outcome));
  }

  /** A conclusion names the cause the model wrote, with the score of the state it was written on. */
  lemma AConclusionNamesTheWrittenCause(env: Env, c: Config, reply: Reply)
    requires c.at == At(Conclude) && reply.answer.Written?
    ensures var s, s' := c.state, Next(env, c, reply).state;
      && s'.diagnosis.Some? && s'.diagnosis.value.category == reply.answer.category
      && s'.diagnosis.value.confidence == ComputeConfidence(s) && s'.diagnosis.value.haltReason == Concluded
      && s' == s.(diagnosis := s'.diagnosis, haltReason := Some(Concluded), steps := Stepped(s, Conclude, false))
  {}

  /** An escalation names no cause, and its reason and score are those of the state it leaves. */
  lemma AnEscalationNamesNoCause(env: Env, c: Config, reply: Reply)
    requires c.at == At(Escalate)
    ensures var s, s' := c.state, Next(env, c, reply).state;
      && s'.diagnosis.Some? && s'.diagnosis.value.category == Unknown
      && s'.diagnosis.value.confidence == ComputeConfidence(s)
      && s'.haltReason == Some(s'.diagnosis.value.haltReason)
      && s' == s.(diagnosis := s'.diagnosis, haltReason := s'.haltReason, steps := Stepped(s, Escalate, false))
  {}
}
