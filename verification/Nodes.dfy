/** The six nodes. The model and the tools are adversaries: each reply is arbitrary, and a reply of
    the wrong shape is a failed call. */
module Nodes {
  import opened Domain
  import opened Toolbox
  import opened States
  import opened Confidence
  import opened Routing

  const MAX_CALLS_PER_ITERATION := 4
  const MAX_HYPOTHESES := 3

  /** How one tool call is answered: the arguments the model chose, if it could, and the result. */
  datatype ToolReply = ToolReply(choice: Option<Args>, ok: bool)

  datatype PlannedCall = PlannedCall(tool: string, reply: ToolReply)

  type NonEmpty = s: string | s != "" witness "t"

  datatype Proposal = Proposal(id: HypothesisId, testTool: NonEmpty)

  datatype Answer =
    | Classified(category: Category, needsInvestigation: bool)
    | Plan(calls: seq<PlannedCall>)
    | Proposed(proposals: seq<Proposal>)
    | Judged(outcome: Outcome)
    | Written(category: Category)
    | Failed

  /** Everything the outside world decides during one node execution. */
  datatype Reply = Reply(answer: Answer, test: ToolReply)

  /** A node's own work either changes fields or raises. */
  datatype NodeUpdate = Updated(state: State) | Raised

  function TriageRun(s: State, answer: Answer): NodeUpdate {
    if !answer.Classified? then Raised
    else
      var signature := s.failure.signature;
      var agrees := signature.Some? && answer.category == signature.value.category;
      Updated(s.(triage := Some(TriageResult(
        answer.category, TriageConfidence(signature, agrees), answer.needsInvestigation || !agrees))))
  }

  function QuestionOf(tools: Catalogue, context: Args, call: PlannedCall): Question {
    (call.tool,
     ArgumentsFor(tools, call.tool, Resolve(tools, call.tool, context, call.reply.choice), context))
  }

  function Answered(tools: Catalogue, context: Args, call: PlannedCall): Evidence {
    RunTool(tools, call.tool, Resolve(tools, call.tool, context, call.reply.choice), context,
            call.reply.ok)
  }

  /** The evidence a round gathers: every call whose question has not been asked before. */
  function Collect(
    tools: Catalogue, context: Args, already: set<Question>, calls: seq<PlannedCall>): seq<Evidence>
    decreases |calls|
  {
    if calls == [] then []
    else
      var question := QuestionOf(tools, context, calls[0]);
      if question in already then Collect(tools, context, already, calls[1..])
      else [Answered(tools, context, calls[0])]
           + Collect(tools, context, already + {question}, calls[1..])
  }

  function QuestionsIn(evidence: seq<Evidence>): set<Question> {
    set e | e in evidence :: Asked(e)
  }

  /** A round asks each new question exactly once and leaves none of its calls unanswered. */
  lemma {:induction false} CollectAsksEachNewQuestionOnce(
    tools: Catalogue, context: Args, already: set<Question>, calls: seq<PlannedCall>)
    ensures var got := Collect(tools, context, already, calls);
      && |got| <= |calls|
      && (forall i, j :: 0 <= i < j < |got| ==> Asked(got[i]) != Asked(got[j]))
      && (forall i :: 0 <= i < |got| ==> Asked(got[i]) !in already)
      && (forall c :: c in calls ==>
            QuestionOf(tools, context, c) in already || QuestionOf(tools, context, c) in QuestionsIn(got))
    decreases |calls|
  {
    if calls != [] {
      var question := QuestionOf(tools, context, calls[0]);
      var got := Collect(tools, context, already, calls);
      if question in already {
        CollectAsksEachNewQuestionOnce(tools, context, already, calls[1..]);
      } else {
        CollectAsksEachNewQuestionOnce(tools, context, already + {question}, calls[1..]);
        var rest := Collect(tools, context, already + {question}, calls[1..]);
        assert got[0] in got && Asked(got[0]) == question;
        assert forall e :: e in rest ==> e in got;
        forall i, j | 0 <= i < j < |got| ensures Asked(got[i]) != Asked(got[j]) {
          assert got[j] == rest[j - 1];
          if i > 0 { assert got[i] == rest[i - 1]; }
        }
      }
      assert forall c :: c in calls ==> c == calls[0] || c in calls[1..];
    }
  }

  /** Answers to new questions, put after the known ones, each ask something not asked before. */
  lemma NewQuestionsAreNew(known: seq<Evidence>, got: seq<Evidence>)
    requires forall i, j :: 0 <= i < j < |got| ==> Asked(got[i]) != Asked(got[j])
    requires forall i :: 0 <= i < |got| ==> Asked(got[i]) !in QuestionsIn(known)
    ensures forall j :: |known| <= j < |known + got| ==> Asked((known + got)[j]) !in QuestionsIn((known + got)[..j])
    ensures QuestionsIn(known + got) == QuestionsIn(known) + QuestionsIn(got)
  {}

  /** The call at `i` is the first of the calls to ask its question. */
  predicate FirstAsking(tools: Catalogue, context: Args, calls: seq<PlannedCall>, i: nat)
    requires i < |calls|
  {
    forall h :: 0 <= h < i ==> QuestionOf(tools, context, calls[h]) != QuestionOf(tools, context, calls[i])
  }

  /** `e` is what the call recorded: its tool, its arguments, and whether a tool of that name answered. */
  predicate Answers(tools: Catalogue, context: Args, call: PlannedCall, e: Evidence) {
    && e.tool == call.tool && Asked(e) == QuestionOf(tools, context, call)
    && (e.succeeded <==> call.tool in tools && call.reply.ok)
  }

  /** A collected item answers the first call that asks its question. */
  ghost predicate AnswersFirst(
    tools: Catalogue, context: Args, already: set<Question>, calls: seq<PlannedCall>, e: Evidence)
  {
    exists i :: 0 <= i < |calls| && FirstAsking(tools, context, calls, i) && Answers(tools, context, calls[i], e)
      && QuestionOf(tools, context, calls[i]) !in already
  }

  lemma {:induction false} CollectedItemsAnswerTheirCalls(
    tools: Catalogue, context: Args, already: set<Question>, calls: seq<PlannedCall>)
    ensures forall e :: e in Collect(tools, context, already, calls) ==> AnswersFirst(tools, context, already, calls, e)
    decreases |calls|
  {
    if calls != [] {
      var question := QuestionOf(tools, context, calls[0]);
      var known := already + {question};
      CollectedItemsAnswerTheirCalls(tools, context, known, calls[1..]);
      if question in already {
        assert known == already;
      }
      forall e | e in Collect(tools, context, already, calls) ensures AnswersFirst(tools, context, already, calls, e) {
        if question !in already && e == Answered(tools, context, calls[0]) {
          assert Answers(tools, context, calls[0], e);
          assert FirstAsking(tools, context, calls, 0);
        } else {
          LaterAnswers(tools, context, already, calls, e);
        }
      }
    }
  }

  lemma LaterAnswers(
    tools: Catalogue, context: Args, already: set<Question>, calls: seq<PlannedCall>, e: Evidence)
    requires calls != []
    requires AnswersFirst(tools, context, already + {QuestionOf(tools, context, calls[0])}, calls[1..], e)
    ensures AnswersFirst(tools, context, already, calls, e)
  {
    var known, rest := already + {QuestionOf(tools, context, calls[0])}, calls[1..];
    var i :| 0 <= i < |rest| && FirstAsking(tools, context, rest, i) && Answers(tools, context, rest[i], e)
      && QuestionOf(tools, context, rest[i]) !in known;
    hide QuestionOf, Answers;
    assert rest[i] == calls[i + 1];
    forall h | 0 <= h < i + 1 ensures QuestionOf(tools, context, calls[h]) != QuestionOf(tools, context, calls[i + 1]) {
      assert h > 0 ==> calls[h] == rest[h - 1];
    }
    assert FirstAsking(tools, context, calls, i + 1);
  }

  /** Collected items come in the order of the calls they answer. */
  lemma {:induction false} CollectedInOrder(
    tools: Catalogue, context: Args, already: set<Question>, calls: seq<PlannedCall>, a: nat, b: nat, i: nat, k: nat)
    requires a < b < |Collect(tools, context, already, calls)| && i < |calls| && k < |calls|
    requires FirstAsking(tools, context, calls, i) && FirstAsking(tools, context, calls, k)
    requires Asked(Collect(tools, context, already, calls)[a]) == QuestionOf(tools, context, calls[i])
    requires Asked(Collect(tools, context, already, calls)[b]) == QuestionOf(tools, context, calls[k])
    ensures i < k
    decreases |calls|
  {
    var question, rest := QuestionOf(tools, context, calls[0]), calls[1..];
    CollectAsksEachNewQuestionOnce(tools, context, already, calls);
    CollectFront(tools, context, already, calls);
    AnsweredAsks(tools, context, calls[0]);
    hide QuestionOf, Answered, Collect, FirstAsking;
    var got := Collect(tools, context, already, calls);
    assert Asked(got[a]) !in already && Asked(got[b]) !in already && Asked(got[0]) !in already;
    assert Asked(got[a]) != Asked(got[b]) && (question !in already ==> Asked(got[0]) != Asked(got[b]));
    if i > 0 {
      FirstOfTheRest(tools, context, calls, i);
    }
    if k > 0 {
      FirstOfTheRest(tools, context, calls, k);
    }
    if question in already {
      CollectedInOrder(tools, context, already, rest, a, b, i - 1, k - 1);
    } else if k > 0 && i > 0 {
      CollectedInOrder(tools, context, already + {question}, rest, a - 1, b - 1, i - 1, k - 1);
    }
  }

  lemma FirstOfTheRest(tools: Catalogue, context: Args, calls: seq<PlannedCall>, i: nat)
    requires 0 < i < |calls| && FirstAsking(tools, context, calls, i)
    ensures FirstAsking(tools, context, calls[1..], i - 1)
    ensures QuestionOf(tools, context, calls[0]) != QuestionOf(tools, context, calls[i])
  {
    hide QuestionOf;
    var rest := calls[1..];
    assert forall h :: 0 <= h < |rest| ==> rest[h] == calls[h + 1];
  }

  lemma CollectFront(tools: Catalogue, context: Args, already: set<Question>, calls: seq<PlannedCall>)
    requires calls != []
    ensures var question := QuestionOf(tools, context, calls[0]);
      Collect(tools, context, already, calls) ==
        if question in already then Collect(tools, context, already, calls[1..])
        else [Answered(tools, context, calls[0])] + Collect(tools, context, already + {question}, calls[1..])
  {}

  lemma AnsweredAsks(tools: Catalogue, context: Args, call: PlannedCall)
    ensures Asked(Answered(tools, context, call)) == QuestionOf(tools, context, call)
  {}

  /** The tool loop of a gather round, which grows the set of known questions as it goes. */
  method GatherCalls(tools: Catalogue, context: Args, known: seq<Evidence>, calls: seq<PlannedCall>)
    returns (gathered: seq<Evidence>, repeated: nat)
    ensures gathered == Collect(tools, context, QuestionsIn(known), calls)
    ensures repeated + |gathered| == |calls|
    ensures forall e :: e in gathered ==> AnswersFirst(tools, context, QuestionsIn(known), calls, e)
  {
    CollectedItemsAnswerTheirCalls(tools, context, QuestionsIn(known), calls);
    hide AnswersFirst, Collect, Resolve, ArgumentsFor, RunTool;
    var already := QuestionsIn(known);
    gathered, repeated := [], 0;
    for i := 0 to |calls|
      invariant gathered + Collect(tools, context, already, calls[i..])
             == Collect(tools, context, QuestionsIn(known), calls)
      invariant repeated + |gathered| == i
    {
      var arguments := Resolve(tools, calls[i].tool, context, calls[i].reply.choice);
      var final := ArgumentsFor(tools, calls[i].tool, arguments, context);
      var question := (calls[i].tool, final);
      assert calls[i..][0] == calls[i] && calls[i..][1..] == calls[i + 1..];
      CollectFront(tools, context, already, calls[i..]);
      if question in already {
        repeated := repeated + 1;
        continue;
      }
      already := already + {question};
      var item := RunTool(tools, calls[i].tool, arguments, context, calls[i].reply.ok);
      gathered := gathered + [item];
    }
    NothingToCollect(tools, context, already);
  }

  lemma NothingToCollect(tools: Catalogue, context: Args, already: set<Question>)
    ensures Collect(tools, context, already, []) == []
  {}

  function Allowed(s: State): nat { Min(MAX_CALLS_PER_ITERATION, s.ToolCallsRemaining()) }

  function Gathered(tools: Catalogue, s: State, calls: seq<PlannedCall>): seq<Evidence> {
    Collect(tools, s.ToolContext(), QuestionsIn(s.evidence), calls[..Min(Allowed(s), |calls|)])
  }

  function GatherRun(tools: Catalogue, s: State, answer: Answer): NodeUpdate {
    if !answer.Plan? then Raised
    else
      var gathered := Gathered(tools, s, answer.calls);
      Updated(s.(evidence := s.evidence + gathered,
                 toolCallsMade := s.toolCallsMade + |gathered|,
                 iteration := s.iteration + 1,
                 evidenceExhausted := gathered == []))
  }

  function ToHypothesis(p: Proposal, rank: nat): Hypothesis {
    Hypothesis(p.id, Some(p.testTool), map[], rank, Untested)
  }

  function Accepted(proposals: seq<Proposal>): seq<Proposal> {
    proposals[..Min(MAX_HYPOTHESES, |proposals|)]
  }

  function ToHypotheses(s: State, proposals: seq<Proposal>): seq<Hypothesis> {
    var batch := Accepted(proposals);
    seq(|batch|, i requires 0 <= i < |batch| => ToHypothesis(batch[i], |s.hypotheses| + i))
  }

  /** The lowest-ranked hypothesis, the earliest one on a tie. */
  function Leading(hs: seq<Hypothesis>): Hypothesis
    requires hs != []
  {
    if |hs| == 1 then hs[0]
    else
      var rest := Leading(hs[1..]);
      if hs[0].rank <= rest.rank then hs[0] else rest
  }

  /** Ranks continue the list, so the leading proposal is always the first one the model made. */
  lemma {:induction false} LeadingIsFirst(hs: seq<Hypothesis>)
    requires hs != []
    requires forall i, j :: 0 <= i < j < |hs| ==> hs[i].rank < hs[j].rank
    ensures Leading(hs) == hs[0]
  {
    if |hs| > 1 {
      LeadingIsFirst(hs[1..]);
    }
  }

  function FormRun(s: State, answer: Answer): NodeUpdate {
    if !answer.Proposed? then Raised
    else
      var proposed := ToHypotheses(s, answer.proposals);
      Updated(s.(hypotheses := s.hypotheses + proposed,
                 current := if proposed == [] then None else Some(Leading(proposed))))
  }

  /** What running the current hypothesis's own test adds: at most one piece of evidence. */
  function TestEvidence(tools: Catalogue, s: State, test: ToolReply): seq<Evidence> {
    if s.current.None? then []
    else
      var h := s.current.value;
      if h.testTool.Some? && h.testTool.value != "" && s.ToolCallsRemaining() > 0 then
        var arguments := if h.testArguments != map[] then h.testArguments
                         else Resolve(tools, h.testTool.value, s.ToolContext(), test.choice);
        [RunTool(tools, h.testTool.value, arguments, s.ToolContext(), test.ok)]
      else []
  }

  function Replaced(hs: seq<Hypothesis>, tested: Hypothesis): seq<Hypothesis> {
    seq(|hs|, i requires 0 <= i < |hs| => if hs[i].id == tested.id then tested else hs[i])
  }

  /** The test runs first; only then is the model asked, and that call may fail. */
  function TestRun(tools: Catalogue, s: State, reply: Reply): NodeUpdate {
    if s.current.None? then Updated(s)
    else if !reply.answer.Judged? then Raised
    else
      var evidence := TestEvidence(tools, s, reply.test);
      var tested := s.current.value.(outcome := reply.answer.outcome);
      Updated(s.(current := Some(tested),
                 hypotheses := Replaced(s.hypotheses, tested),
                 evidence := s.evidence + evidence,
                 toolCallsMade := s.toolCallsMade + |evidence|))
  }

  function ConcludeRun(s: State, answer: Answer): NodeUpdate {
    if !answer.Written? then Raised
    else Updated(s.(diagnosis := Some(Diagnosis(answer.category, ComputeConfidence(s), Concluded)),
                    haltReason := Some(Concluded)))
  }

  function EscalateRun(s: State): NodeUpdate {
    var reason := HaltReasonForRoute(s);
    Updated(s.(diagnosis := Some(Diagnosis(Unknown, ComputeConfidence(s), reason)),
               haltReason := Some(reason)))
  }

  function NodeRun(tools: Catalogue, node: NodeName, s: State, reply: Reply): NodeUpdate {
    match node
    case Triage => TriageRun(s, reply.answer)
    case GatherEvidence => GatherRun(tools, s, reply.answer)
    case FormHypothesis => FormRun(s, reply.answer)
    case TestHypothesis => TestRun(tools, s, reply)
    case Conclude => ConcludeRun(s, reply.answer)
    case Escalate => EscalateRun(s)
  }

  /** What every node has in common: a raise becomes a halt, and a step is always recorded. */
  function Execute(tools: Catalogue, node: NodeName, s: State, reply: Reply): State {
    var update := NodeRun(tools, node, s, reply);
    var after := if update.Raised? then s.(haltReason := Some(InvestigationError)) else update.state;
    after.(steps := s.steps + [StepRecord(node, s.NextSequence(), update.Raised?)])
  }
}
