# A verified model of dag-doctor

dag-doctor consumes task failures from a Kafka topic, opens an incident for each one, runs an
investigation graph driven by a language model and a set of tools, stores what happened and
announces the diagnosis. This project models the parts of it whose correctness spans many steps,
and proves what they promise.

**The investigation graph** (`Domain`, `Toolbox`, `States`, `Confidence`, `Routing`, `Nodes`,
`Graph`). Six nodes and their conditional edges form a state machine. Every model answer and every
tool result is an arbitrary value or a failure, so each theorem holds against any model and any
tools. `GraphBudgets`, `GraphTrace` and `GraphExits` hold the invariants, `GraphSteps` says what each node leaves
in every field, `GraphTheorems` what follows
for every run, `GraphLongestRun` builds a run that attains the bound, `GraphUnfounded` says when a
conclusion can rest on no successful call, and `GraphCeiling` when the score of an exhausted run is reached. Confidence and thresholds
are whole ten-thousandths. Three history variables record what the code does not keep: which node
added each piece of evidence, the true number of tool runs, and the back edges taken.

**Delivery and storage** (`Storage`, `Replays`, `Investigations`, `Delivery`, `Driving`, `Losses`,
`ExactlyOnce`, `Stuck`, `Consumer`, `IncidentRace`). `Delivery` is the protocol as atomic steps with a crash possible between
any two; a crashed worker restarts from its committed offset. `Losses` decides exactly which records are lost
and `Stuck` which incidents stay unfinished; `Driving` builds the runs that show it. `Consumer` is the loop as the code
runs it, on an object with mutable fields, and every change it makes is a step of that machine, so
the machine's theorems hold of it. `Storage` holds the tables and a session that changes them in
place, `Replays` what repeated saves leave behind, `Investigations` ties finished runs of the graph to
what is stored, and `IncidentRace` interleaves any number of concurrent get-or-create calls.

**Three algorithms** (`Listing`, `Upstream`, `SchemaDrift`, `Paging`): the worklist over a possibly
cyclic graph, the schema diff with its greedy rename pairing and write-once baselines, and keyset
paging over a store that changes between pages.

## Results that go against the expectation

The code is modelled as it is. For each promise it does not keep there is an example and, where the
promise holds only under a condition, the exact condition.

- A run can be shorter than three executions per iteration allow when tool calls run out first.
  `GraphBudgets.MaxSteps` is the exact bound for every pair of budgets.
- A refused dead-letter write keeps its offset uncommitted, but the loop goes on and the next commit
  passes over it (`Delivery.ARefusedParkCanLose`). The record is due again if and only if its worker
  crashes before its next commit, and cannot then be passed without being read
  (`Losses.DueAgainExactlyWhen`, `Losses.ReadAgainExactlyWhen`); a record below its committed offset is
  unsettled if and only if its write was refused, its worker committed first, and no other record saved
  its failure (`Losses.LostExactlyWhen`); and without such another record it is then lost for good, and
  only then (`Losses.TheNextCommitLosesIt`).
- Overlapping redeliveries lose a delivery count (`IncidentRace.OverlappingRedeliveriesLoseACount`). The
  count is exact if and only if no redelivery commits after another call for the same incident did
  between its read and its write (`IncidentRace.DeliveryCountIsExactUnlessOvertaken`).
- An investigation saved without a diagnosis gives its attempt number away again. The next number is
  new if and only if the last save stored a diagnosis (`Replays.NextAttemptIsFreshExactlyWhen`), which
  fails exactly when a `conclude` step failed (`Investigations.OnlyAFailedConclusionLeavesNoDiagnosis`),
  and such runs exist under any budgets (`Investigations.RealReplaysCanShareAnAttempt`).
- The outer net of the investigator is there so that an incident never stays under investigation
  (src/dag_doctor/worker/investigator.py:151-156), but it catches the project's own errors only. In any world
  an incident will never reach a terminal status if and only if it has not and every record of its
  failure is below its committed offset (`Stuck.NeverFinishesExactlyWhen`); a delivery leaves it
  unfinished if and only if it was and no handler run got as far as saving
  (`Consumer.FailureConsumer.HandleWithRetries`); and whatever the log, escaping errors can leave every
  incident investigating for ever (`Stuck.EscapedErrorsLeaveThemInvestigating`).
- A test tool is described as constrained to one that exists
  (src/dag_doctor/graph/nodes/form_hypothesis.py:31-35), but any non-empty name is accepted, and a verdict
  may go against a failed test. A run can conclude from a test with no successful call at all if and only
  if there are two iterations and the bar is at most 0.65 (`GraphUnfounded.UnfoundedExactlyWhen`).
- A supplied argument is meant to win over the incident's own, so that the model can point a tool at another
  task (src/dag_doctor/graph/toolbox.py:120-123). Inside the graph it never can: the model is asked only for
  what the incident does not supply (`GraphSteps.InputIsRight`).
- No run saves an incident twice if and only if all records of one failure share a partition, which the
  producer's key provides (`ExactlyOnce.AtMostOnceExactlyWhenKeyed`; `ExactlyOnce.UnkeyedFailuresAreSavedTwice`
  builds the run for any other log).
- Task instance rows are folded by task, the last row winning. A root failure is found if and only if
  some upstream task's last row failed (`Upstream.RootFoundExactlyWhen`), so a failed instance of a mapped
  task can be hidden (`Upstream.AMappedFailureCanBeHidden`).
- `ChangedColumn` is described as a type or nullability change (src/dag_doctor/tools/schema_inspect.py:125-126),
  but only types are compared (`SchemaDrift.NullabilityIsNotDrift`). The code is followed.

One disagreement is about a drawing rather than a result: the state diagram in docs/graph-design.md:7-18
has no edge from `gather_evidence` to `conclude`; the code has one (src/dag_doctor/graph/routing.py:80-81), and
the model follows it.

## Model

| member | source | states |
|---|---|---|
| GraphTheorems.EveryRunEnds | src/dag_doctor/graph/routing.py:60-128 | Whatever the model and tools answer, a run takes at most MaxSteps node executions, never more than three per iteration, is finished after that many replies, and takes the back edge at most min(iterations - 1, tool calls div 2) times |
| GraphLongestRun.TheBoundIsAttained | src/dag_doctor/graph/routing.py:60-128 | For every pair of budgets, catalogue and failure some run has exactly MaxSteps executions and exactly the largest number of back edges: both bounds are tight |
| GraphTheorems.RunGraph | src/dag_doctor/graph/builder.py:66-109 | Following the declared edges against any adaptive strategy terminates in a finished run, which is the machine's run on the replies given |
| GraphTheorems.TheLoopIsLeftExactlyWhen | src/dag_doctor/graph/routing.py:31-128 | From every reachable point, each of escalate and conclude is entered if and only if its stated condition on the step just made holds, and otherwise the run goes on along the cycle; includes the two-sided triage shortcut guard |
| GraphTheorems.EscalationReasonTellsTheEdge | src/dag_doctor/graph/routing.py:131-147 | For every escalated run, each recorded reason occurs if and only if a certain edge was taken under a certain condition; the reason is never concluded, triage escalates only after an error, and the diagnosis is never conclusive |
| GraphTheorems.ConfidenceByExit | src/dag_doctor/graph/confidence.py:184-220 | A triage shortcut scores exactly 0.15 plus 0.20 times the strength, the exhausted-evidence exit at most 0.76, an exit from a test at least the bar, any concluded score above 0.76 rests on a confirmed hypothesis, and a failed conclude leaves no diagnosis |
| GraphUnfounded.UnfoundedExactlyWhen | src/dag_doctor/graph/nodes/test_hypothesis.py:56-98 | Some run concludes from a test with no successful tool call at all if and only if at least two iterations are allowed and the conclusion bar is at most 0.65 |
| GraphCeiling.CeilingExactlyWhen | src/dag_doctor/graph/confidence.py:184-220 | Some run concluded on exhausted evidence scores 0.76 if and only if three iterations, five tool calls and four tools are available |
| Confidence.ConfidenceNeverLeavesRange | src/dag_doctor/graph/confidence.py:184-220 | The sum before clamping is always within 0 and 1, is at most 0.76 without a confirmed hypothesis, and is 1 only with a signature, a confirmation, four answering tools and nothing refuted |
| Confidence.ANewToolAdds | src/dag_doctor/graph/confidence.py:174-181 | A successful tool not heard from before adds exactly 0.0875 until four have answered, then nothing |
| Confidence.AnythingElseAddsNothing | src/dag_doctor/graph/confidence.py:174-181 | A failed call, or another answer of a tool heard from before, leaves the score as it was |
| Confidence.ARefutationCosts | src/dag_doctor/graph/confidence.py:184-220 | The first three refuted hypotheses cost 0.05 each and later ones nothing |
| Confidence.NoOtherHypothesisCosts | src/dag_doctor/graph/confidence.py:184-220 | A hypothesis listed with any other outcome leaves the score as it was |
| Confidence.AVerdictIsWorth | src/dag_doctor/graph/confidence.py:184-220 | Confirming is worth 0.30 over a refutation, inconclusive a fifth of that, and an untested or absent hypothesis nothing |
| GraphTheorems.EveryJudgedHypothesisWasTested | src/dag_doctor/graph/nodes/test_hypothesis.py:47-98 | In every reachable state a hypothesis with a verdict had its own test called exactly once, with the evidence of that call recorded, and recorded as failed when the tool does not exist |
| GraphTheorems.TestFallbacksAreUnreachable | src/dag_doctor/graph/nodes/test_hypothesis.py:49-70 | Inside the graph the test node always has an untested current hypothesis with a test and a call left for it, so its three fallbacks never run; its verdict replaces exactly that entry of the list |
| GraphTheorems.ToolBudgetIsNeverOverrun | src/dag_doctor/graph/nodes/gather_evidence.py:67-116 | True tool runs stay within the budget, the counter equals the evidence count, and runs exceed the counter, by one, if and only if a test's verdict call failed |
| GraphTheorems.GatherNeverRepeatsAQuestion | src/dag_doctor/graph/nodes/gather_evidence.py:90-110 | Over a whole run, evidence that repeats an earlier tool and arguments was added by a hypothesis test, never by a gather round |
| GraphTheorems.AGatherRoundAsksWhatIsNew | src/dag_doctor/graph/nodes/gather_evidence.py:67-136 | A round answers every question among the first calls the cap of four and the budget allow, runs only those not asked before, counts one iteration, and marks the evidence exhausted exactly when nothing was added; what each answer records is GraphSteps.AGatherRoundRecordsItsCalls |
| GraphSteps.AGatherRoundRecordsItsCalls | src/dag_doctor/graph/nodes/gather_evidence.py:90-136 | Each item a round adds names the tool, holds the arguments and carries the success of the first of its calls to put that question; every call taken is answered by some item; and every other field stays as it was |
| GraphSteps.InputIsRight | src/dag_doctor/graph/arguments.py:42-112 | The arguments a call ends up with: a declared identifier of the incident is always the failure's own, any other declared argument is what the model chose unless that is null or empty, nothing undeclared is there, and an unknown tool gets nothing |
| GraphSteps.ATestRecordsItsCallAndVerdict | src/dag_doctor/graph/nodes/test_hypothesis.py:56-98 | A test adds one item, for the hypothesis's own tool with the right arguments and the success of that call, gives the current hypothesis and its entry the model's verdict, and changes nothing else |
| GraphSteps.TriageRecordsTheAnswer | src/dag_doctor/graph/nodes/triage.py:42-91 | Triage records the model's category, asks for an investigation unless the model does not and agrees with a recognised pattern, and scores the pattern's strength in full, by half or not at all |
| GraphSteps.FormingListsTheProposals | src/dag_doctor/graph/nodes/form_hypothesis.py:64-104 | Forming appends at most three proposals, untested, with their own tools and the next ranks, makes the first of them current, and changes nothing else |
| GraphSteps.AConclusionNamesTheWrittenCause | src/dag_doctor/graph/nodes/conclude.py:53-114 | The diagnosis names the category the model wrote, with the score of the state it was written on, and nothing else changes but the halt reason and the trace |
| GraphSteps.AnEscalationNamesNoCause | src/dag_doctor/graph/nodes/escalate.py:33-58 | The diagnosis of an escalation is unknown, with the computed score and the reason also recorded on the state |
| GraphSteps.AFailedCallOnlyHalts | src/dag_doctor/graph/nodes/base.py:58-104 | A node whose model call fails leaves every field as it was but the halt reason and one failed step, even after a test had been called, and goes to escalate, or ends the run when it was concluding |
| Nodes.CollectAsksEachNewQuestionOnce | src/dag_doctor/graph/nodes/gather_evidence.py:95-110 | The de-duplicating loop leaves no call unanswered, repeats nothing known and nothing within the round |
| Nodes.GatherCalls | src/dag_doctor/graph/nodes/gather_evidence.py:90-110 | The loop that grows the set of known questions gathers exactly one item per new question, with the tool, arguments and success of the first call to put it, and gathered plus repeated calls are all the calls |
| Nodes.CollectedInOrder | src/dag_doctor/graph/nodes/gather_evidence.py:95-110 | Items come in the order of the calls they answer |
| GraphTheorems.TheFirstProposalIsTestedNext | src/dag_doctor/graph/nodes/form_hypothesis.py:64-104 | At most three proposals join the list, in the model's order with ranks continuing it, and the first of them becomes the current hypothesis |
| Nodes.LeadingIsFirst | src/dag_doctor/graph/nodes/form_hypothesis.py:64-104 | The lowest-ranked proposal is the first one, because ranks continue the list |
| GraphTheorems.TraceAndHypothesesAreKept | src/dag_doctor/graph/nodes/base.py:58-104 | Steps are numbered 1..n, start at triage and form a path of the declared edges up to where the run stands; hypothesis i has rank i; the current hypothesis is the identical entry of the list; no hypothesis is tested twice, whatever its verdict; refutations never outnumber tests |
| GraphTrace.TestingKeepsTestsMatched | src/dag_doctor/graph/nodes/test_hypothesis.py:56-98 | Judging one untested hypothesis after its own test keeps every verdict backed by a run and none tested twice |
| Toolbox.CheckedQuestionIsRecorded | src/dag_doctor/graph/toolbox.py:52-106 | The arguments checked for repetition are the arguments the evidence records, and an unknown tool is recorded as failed |
| Toolbox.ContextFillingIsIdempotent | src/dag_doctor/graph/toolbox.py:92-139 | Filling in known facts twice changes nothing, supplied values win, and exactly the declared and supplied arguments are present |
| Investigations.StatusTellsHowTheRunWent | src/dag_doctor/worker/investigator.py:183-200 | Over every finished run, an incident ends failed if and only if some node failed, diagnosed if and only if conclude succeeded with a named cause, and always in a terminal status; which cause that is, is Investigations.TheWrittenCauseDecidesTheStatus |
| Investigations.TheWrittenCauseDecidesTheStatus | src/dag_doctor/worker/investigator.py:183-200 | From every reachable conclude step, the diagnosis stored names the cause the model wrote, and the incident is diagnosed if and only if that is not unknown |
| Investigations.TheOuterNetLeavesItFailed | src/dag_doctor/worker/investigator.py:203-218 | What is recorded when the machinery around the graph gives up leaves the incident failed, with an inconclusive diagnosis at confidence zero and no steps |
| Investigations.OnlyAFailedConclusionLeavesNoDiagnosis | src/dag_doctor/graph/nodes/conclude.py:53-114 | A finished run has no diagnosis if and only if its conclude step failed |
| Investigations.ARunCanEndWithoutDiagnosis | src/dag_doctor/graph/nodes/conclude.py:53-114 | Under any budgets and tools, a fully recognised failure whose write-up call fails is a reachable finished run without a diagnosis |
| Investigations.RealReplaysCanShareAnAttempt | src/dag_doctor/db/repositories.py:170-186 | Under any budgets and tools, and for any fully recognised failure, two investigations of it that the graph can produce carry the same attempt number of its own incident |
| Investigations.ReplaysKeepOneTrace | src/dag_doctor/db/repositories.py:188-277 | Saving any series of investigations the graph or its outer net can produce, each under settings and tools of its own, numbers an incident's steps 1..n in save order, with attempts that never go back |
| Storage.Session.GetOrCreate | src/dag_doctor/db/repositories.py:39-98 | The call finds and counts a redelivery, inserts a new incident, or loses the insert to whatever row other workers have committed in between and counts a redelivery of that row; it says whether it created the row and changes nothing else |
| Storage.ADeliveryIsCountedOnce | src/dag_doctor/db/repositories.py:136-151 | Recording a redelivery adds one to the row's count and keeps its status and everything else; a new failure opens with a count of one |
| Storage.Session.Save | src/dag_doctor/db/repositories.py:188-277 | Each of steps, evidence and hypotheses grows by exactly the investigation's own, in order, each row with its incident, attempt and item, steps continuing the incident's highest sequence; the diagnosis is added if there is one; nothing else changes |
| Replays.SaveInTurn | src/dag_doctor/worker/investigator.py:129-149 | Saving investigations through one session, each under the next attempt number, leaves exactly the tables the replay results are about |
| Replays.SequencesContinue | src/dag_doctor/db/repositories.py:355-364 | Over any serial sequence of saves of any incidents, one incident's step sequences are 1..n in save order and its attempts never decrease |
| Replays.DiagnosesAreNumbered | src/dag_doctor/db/repositories.py:170-186 | Stored diagnoses of an incident carry attempts 1..m in save order |
| Replays.LatestDiagnosisIsTheLastSaved | src/dag_doctor/db/repositories.py:338-353 | The latest diagnosis is the last one saved, and no two share an attempt |
| Replays.NextAttemptIsFreshExactlyWhen | src/dag_doctor/db/repositories.py:170-186 | The next attempt number was never handed out before if and only if the incident has no save or its last save stored a diagnosis |
| Replays.AttemptsCanBeShared | src/dag_doctor/db/repositories.py:170-186 | An incident's first two saves, of a state without a diagnosis, both carry attempt one |
| Delivery.NothingIsLost | src/dag_doctor/messaging/consumer.py:200-309 | In every run, with crashes anywhere, each record below a committed offset has an incident whose save committed or a dead-letter copy, unless its own dead-letter write was refused; the exact condition is Losses.LostExactlyWhen |
| Delivery.ARefusedParkCanLose | src/dag_doctor/messaging/consumer.py:194-197 | A two-record run in which a refused write and a later commit pass over a record recorded nowhere |
| Delivery.CommittingIsSettled | src/dag_doctor/messaging/consumer.py:301-309 | In every run, a worker about to commit past a record leaves it saved or parked |
| Delivery.AnAnnouncementIsTheDiagnosis | src/dag_doctor/worker/investigator.py:168-180 | An announcement the broker accepts is exactly the persisted diagnosis under its own attempt; a refused one, or a state without a diagnosis, announces nothing |
| Losses.ReadAgainExactlyWhen | src/dag_doctor/messaging/consumer.py:194-217 | From any world in which a worker is past a record it has not committed over, every run that ends past the record delivers it again if and only if the worker crashes before its next commit, and no run delivers it without that crash |
| Losses.DueAgainExactlyWhen | src/dag_doctor/messaging/consumer.py:194-217 | From such a world, the worker comes to stand at or before the record if and only if it crashes before its next commit; a commit first puts the record below the offset for good |
| Losses.LostExactlyWhen | src/dag_doctor/messaging/consumer.py:194-309 | In every run, a record is below its committed offset and unsettled if and only if its write was refused while unsettled, its worker committed before crashing, and its failure was not saved through another record; without the last clause where no other record carries the failure |
| Losses.LostForGoodExactlyWhen | src/dag_doctor/messaging/consumer.py:194-309 | In every reachable world, no further run settles a record if and only if it is unsettled and every record carrying its failure is below its committed offset; otherwise a run that settles it is constructed |
| Losses.TheNextCommitLosesIt | src/dag_doctor/messaging/consumer.py:194-309 | A record whose failure no other record carries is lost for good if and only if its write was refused while unsettled and its worker committed before it crashed |
| ExactlyOnce.InvestigatedAtMostOnce | src/dag_doctor/worker/investigator.py:99-149 | However often a failure is redelivered and whoever crashes, its incident is saved at most once, as attempt one, announced at most once and only if saved; an incident is terminal if and only if saved |
| ExactlyOnce.AnnouncementsAreStored | src/dag_doctor/worker/investigator.py:139-180 | Every announced diagnosis already has its row, with the same attempt and content, with or without keyed partitions |
| ExactlyOnce.UnkeyedFailuresAreSavedTwice | src/dag_doctor/messaging/schemas.py:57-64 | In every setup with one failure on two partitions, a constructed run saves exactly two investigations, both of it and both as attempt one |
| ExactlyOnce.AtMostOnceExactlyWhenKeyed | src/dag_doctor/messaging/schemas.py:57-64 | For every setup, no run saves any incident twice if and only if all records of each failure are on one partition |
| ExactlyOnce.DeliveriesAreCounted | src/dag_doctor/db/repositories.py:136-151 | Over any run of the delivery machine, an incident's count is exactly the number of recorded deliveries of it: no status change, save, crash or retry touches it |
| Stuck.NeverFinishesExactlyWhen | src/dag_doctor/worker/investigator.py:115-149 | In any world of any setup, no further run brings an incident to a terminal status if and only if it is not in one and every record of its failure is below its committed offset, and its row is then never changed again; otherwise a run that finishes it is constructed |
| Stuck.EscapedErrorsLeaveThemInvestigating | src/dag_doctor/worker/investigator.py:151-166 | For every setup, whatever its logs and attempts, some run of errors the graph does not catch leaves every incident investigating, its records committed over, with no further run finishing any of them |
| Stuck.UnfinishedRecordsWereParkedOrRefused | src/dag_doctor/messaging/consumer.py:219-299 | In every run with keyed partitions, a record below its committed offset whose incident is not terminal was parked or had its write refused |
| Consumer.FailureConsumer.Handle | src/dag_doctor/worker/investigator.py:99-180 | The handler skips a terminal incident, otherwise saves exactly what the investigation produced, once, under the next attempt and with the status it calls for, whenever the run gets that far; it announces its diagnosis under that attempt exactly when it completes, has one and the broker accepts it, and nothing when it raises at any stage or the incident was already done |
| Consumer.FailureConsumer.HandleWithRetries | src/dag_doctor/messaging/consumer.py:219-273 | Every run before the last one made raised without being rejected, there are at most the configured number, the first success commits without parking, a record is parked only after a rejection or the last attempt, and the incident is terminal afterwards if and only if it was before or some run made got as far as saving |
| Consumer.FailureConsumer.Process | src/dag_doctor/messaging/consumer.py:200-217 | The offset moves by exactly one, and only when the record is settled; otherwise the record is among the refused |
| Consumer.FailureConsumer.ParkRecord | src/dag_doctor/messaging/consumer.py:275-299 | An accepted write parks this record and allows the commit; a refused one changes no offset |
| Consumer.FailureConsumer.Run | src/dag_doctor/messaging/consumer.py:180-198 | A consumer that was not started raises and changes nothing; otherwise the loop consumes in order and stops right after the record during which a stop was asked for, never within one; with no refused write every consumed record is committed |
| IncidentRace.RacingCallsMakeOneIncident | src/dag_doctor/db/repositories.py:39-98 | In every interleaving there is one row per identity, exactly one committed call created it, and the branch for an unexplained conflict is never reached |
| IncidentRace.DeliveryCountNeverOverstates | src/dag_doctor/db/repositories.py:136-151 | In every interleaving a delivery count is between one and the number of committed calls |
| IncidentRace.DeliveryCountIsExactUnlessOvertaken | src/dag_doctor/db/repositories.py:136-151 | In every interleaving a delivery count equals the committed calls if and only if no redelivery committed after another call for that incident did between its read and its write |
| IncidentRace.SerialDeliveryCountIsExact | src/dag_doctor/db/repositories.py:136-151 | With the calls for one incident run one after another, its delivery count equals its committed calls, whatever is in flight for other incidents |
| IncidentRace.OverlappingRedeliveriesLoseACount | src/dag_doctor/db/repositories.py:136-151 | Two overlapping redeliveries leave a count of two after three committed calls |
| Upstream.UpstreamOf | src/dag_doctor/tools/airflow_metadata.py:285-315 | On any edge map, cyclic or not, the worklist terminates with exactly the tasks that have a walk of at least one downstream edge to the given task |
| Upstream.InvertEdges | src/dag_doctor/tools/airflow_metadata.py:302-306 | The inverted map holds a parent for a child if and only if the edge was stored |
| Upstream.Execute | src/dag_doctor/tools/airflow_metadata.py:246-283 | The report holds the last row of every upstream task that has one, in task order; the failed list names exactly those that ended in neither success nor another live state, in order; the root failure is a failed one that no dated failed one precedes, and is absent if and only if none failed |
| Upstream.RootFailureExplains | src/dag_doctor/tools/airflow_metadata.py:365-377 | The chosen root is failed, ends no later than any dated failed task, and ties and undated failures are settled by task order |
| Upstream.RootFoundExactlyWhen | src/dag_doctor/tools/airflow_metadata.py:262-283 | Over any rows, a root failure is found if and only if some upstream task failed by its last row |
| Upstream.AMappedFailureCanBeHidden | src/dag_doctor/tools/airflow_metadata.py:262-271 | The report over a failed instance followed by a successful one of the same task has no root failure |
| SchemaDrift.RenamesAreAMaximumPairing | src/dag_doctor/tools/schema_inspect.py:367-387 | The renames pair distinct removed with distinct added columns of equal type, no such pairing is larger, and their number is the sum over types of the smaller count |
| SchemaDrift.LikelyRenames | src/dag_doctor/tools/schema_inspect.py:367-387 | The loop that uses up available columns computes the greedy pairing |
| SchemaDrift.PairedUsesEveryKind | src/dag_doctor/tools/schema_inspect.py:367-387 | The types paired are the multiset intersection of removed and added types |
| SchemaDrift.DriftExactlyWhenTypesDiffer | src/dag_doctor/tools/schema_inspect.py:336-364 | Drift is reported if and only if the two name-to-type maps differ |
| SchemaDrift.DiffNamesEveryDifference | src/dag_doctor/tools/schema_inspect.py:336-364 | Added, removed and changed each list exactly the columns that came, went or changed type |
| SchemaDrift.TheDiffDescribes | src/dag_doctor/tools/schema_inspect.py:336-364 | For any two column lists, a name is added, removed or changed if and only if the columns say so, the last column of a name giving its type; lists are in name order; renames go from gone columns to new ones of the same type |
| SchemaDrift.TheDiffPairsAsManyAsPossible | src/dag_doctor/tools/schema_inspect.py:367-387 | No pairing of gone with new columns of one type is larger than the renames in the diff |
| SchemaDrift.TheDiffPairsInOrder | src/dag_doctor/tools/schema_inspect.py:367-387 | Renames go to the first new column of the type not yet taken, and leave out no earlier gone column of the type |
| SchemaDrift.NullabilityIsNotDrift | src/dag_doctor/tools/schema_inspect.py:345-349 | Column lists that differ in nullability alone show no drift |
| SchemaDrift.ABaselineIsNeverLost | src/dag_doctor/tools/schema_inspect.py:209-241 | Over any sequence of comparisons with any moments, no snapshot is altered, a table with one gets no more, and a table without gets at most one |
| SchemaDrift.DriftKeepsBeingReported | src/dag_doctor/tools/schema_inspect.py:209-268 | After any such sequence an unbounded comparison still diffs against the same baseline, and reports drift if and only if the types differ from it |
| SchemaDrift.AComparisonUsesTheMostRecent | src/dag_doctor/tools/schema_inspect.py:209-259 | After any comparisons and recordings, of this table too, a comparison describes what became of the columns of the most recently captured snapshot in time and changes nothing; with none in time it says so, or records the first baseline |
| SchemaDrift.ARecordingBecomesTheBaseline | src/dag_doctor/tools/schema_inspect.py:277-301 | A baseline recorded explicitly after all others of its table is the one every later unbounded comparison diffs against |
| SchemaDrift.SnapshotStore.CompareSchema | src/dag_doctor/tools/schema_inspect.py:209-241 | Whenever some snapshot is in time, the diff says of the columns themselves what was added, removed, retyped and suspected renamed since the most recent one; otherwise it says the baseline is too recent, or writes one if and only if the table had none; nothing else is written |
| Paging.PagingRefinesTheList | src/dag_doctor/api/v1/routes/incidents.py:62-84 | Over a fixed store, pages of any size followed to the end are exactly the filtered rows, newest first and the larger id first on a tie |
| Paging.NoRowAppearsTwice | src/dag_doctor/api/v1/routes/incidents.py:62-84 | However the store changes between pages, the keys read are strictly descending, so no row is read twice |
| Paging.ReadingIsExactlyOnce | src/dag_doctor/api/v1/routes/incidents.py:62-84 | However the store changes, a row present and matching throughout is read exactly once |
| Paging.PageIsTheFront | src/dag_doctor/api/v1/routes/incidents.py:73-84 | A page is the front of what is left after the cursor, and carries a next cursor if and only if more is left |
| Paging.AdjacentWindowsJoin | src/dag_doctor/api/v1/routes/incidents.py:159-178 | Because since is inclusive and until exclusive, two windows that meet at an instant page through the joined window with nothing missed or repeated |
| Paging.AnIncidentIsListedExactlyWhen | src/dag_doctor/api/v1/routes/incidents.py:159-178 | Which incidents are read under each combination of the filters, field by field |
| Paging.ADiagnosisIsListedExactlyWhen | src/dag_doctor/api/v1/routes/diagnoses.py:100-124 | Which diagnoses are read under each combination of the filters, a verdict either way counting as reviewed |
| Paging.ReviewedSplitsTheList | src/dag_doctor/api/v1/routes/diagnoses.py:100-124 | Every diagnosis a filter matches is in exactly one of the reviewed and unreviewed lists |

## Left out

- LangGraph, its own step limit and the Postgres checkpointer: the executor is taken to follow the declared edges and to replace the fields a node returns.
- Prompts, model providers, Pydantic validation and structured output: each model call is a reply of the right shape or a failure.
- Nodes as objects: a node returns the fields it changes and the state is then replaced, so states are values; only the tool loop of the gather node is a loop over local variables.
- Regular expressions and log parsing: matching a failure against the known signatures is an optional category and strength given with the failure.
- Attribution of a diagnosis to a task, its evidence chain, unknowns and prose: they decide no route, budget, score or status.
- Argument fingerprints: two argument maps are equal when their JSON renderings are, so the map itself stands for the rendering.
- Identifiers: generated ids are taken to be fresh, and the order on (time, id) to be total.
- Cursor encoding: base64 and ISO formatting are taken to round-trip, and a malformed cursor is not modelled.
- Floating-point rounding: scores and thresholds are exact ten-thousandths, which every weight times every signature strength is; a threshold between two of them is rounded up.
- Group rebalancing and several workers on one partition: each partition has one worker, which may crash and restart.
- Delivery.NothingIsLost: excepts every record whose dead-letter write was refused; which of those are lost is Losses.LostExactlyWhen.
- ExactlyOnce.InvestigatedAtMostOnce: does not cover replays or one failure spread over partitions, because nothing in the code serialises those.
- Replays.SequencesContinue: covers serial saves only; two overlapping saves of one incident would compute the same offset and the step constraint would refuse one.
- Storage.Session.GetOrCreate: what other workers commit in between is given rather than computed; any interleaving of any number of calls is in IncidentRace.
- Two snapshots of one table at one instant: the unique constraint (src/dag_doctor/db/models.py:287) refuses the second, while the model adds it and goes on using the first.
- Upstream.Execute: the serialised DAG is an edge map already, so shape drift in its JSON and the error for a DAG with no serialised form are not modelled; names are integers, since only their order matters.
- Failures outside the graph's own error type that escape it: they reach the retry loop as a handler that raised, and are modelled there.
- Back-off delays, metrics, logging, the HTTP layer and its authentication, settings other than the budgets, the scorer and migrations: input and output or single-function facts.
