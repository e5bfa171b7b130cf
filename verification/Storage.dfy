/** The agent's own database: incidents, and investigations saved attempt by attempt. */
module Storage {
  import opened Domain
  import opened States

  /** The tuple that identifies a task failure. */
  datatype Identity = Identity(
    dagId: string, taskId: string, runId: string, tryNumber: nat, mapIndex: int)

  datatype Status = Received | Investigating | Diagnosed | NotDecided | Broken

  predicate Terminal(status: Status) {
    status == Diagnosed || status == NotDecided || status == Broken
  }

  datatype Incident = Incident(status: Status, deliveryCount: nat)

  datatype StepRow = StepRow(incident: Identity, attempt: nat, node: NodeName, sequence: nat)

  datatype EvidenceRow = EvidenceRow(incident: Identity, attempt: nat, evidence: Evidence)

  datatype HypothesisRow = HypothesisRow(incident: Identity, attempt: nat, hypothesis: Hypothesis)

  datatype DiagnosisRow = DiagnosisRow(incident: Identity, attempt: nat, diagnosis: Diagnosis)

  datatype Tables = Tables(
    incidents: map<Identity, Incident>,
    steps: seq<StepRow>,
    evidence: seq<EvidenceRow>,
    hypotheses: seq<HypothesisRow>,
    diagnoses: seq<DiagnosisRow>)

  const EMPTY := Tables(map[], [], [], [], [])

  /** The highest attempt recorded on an incident's diagnoses, or zero. */
  function MaxAttempt(rows: seq<DiagnosisRow>, id: Identity): nat {
    if rows == [] then 0
    else
      var last := rows[|rows| - 1];
      Max(MaxAttempt(rows[..|rows| - 1], id), if last.incident == id then last.attempt else 0)
  }

  /** The highest step sequence recorded for an incident, or zero. */
  function MaxSequence(rows: seq<StepRow>, id: Identity): nat {
    if rows == [] then 0
    else
      var last := rows[|rows| - 1];
      Max(MaxSequence(rows[..|rows| - 1], id), if last.incident == id then last.sequence else 0)
  }

  function NextAttempt(t: Tables, id: Identity): nat { MaxAttempt(t.diagnoses, id) + 1 }

  /** A diagnosis of the highest attempt. */
  function LatestDiagnosis(rows: seq<DiagnosisRow>, id: Identity): Option<DiagnosisRow> {
    if rows == [] then None
    else
      var last, rest := rows[|rows| - 1], LatestDiagnosis(rows[..|rows| - 1], id);
      if last.incident == id && (rest.None? || last.attempt > rest.value.attempt) then Some(last) else rest
  }

  function StepRows(id: Identity, attempt: nat, offset: nat, steps: seq<StepRecord>): seq<StepRow> {
    seq(|steps|, i requires 0 <= i < |steps| =>
      StepRow(id, attempt, steps[i].node, offset + steps[i].sequence))
  }

  function EvidenceRows(id: Identity, attempt: nat, items: seq<Evidence>): seq<EvidenceRow> {
    seq(|items|, i requires 0 <= i < |items| => EvidenceRow(id, attempt, items[i]))
  }

  function HypothesisRows(id: Identity, attempt: nat, items: seq<Hypothesis>): seq<HypothesisRow> {
    seq(|items|, i requires 0 <= i < |items| => HypothesisRow(id, attempt, items[i]))
  }

  /** Saving writes beside whatever is there, and continues the step numbering. */
  function Saved(t: Tables, id: Identity, s: State, attempt: nat): Tables {
    t.(steps := t.steps + StepRows(id, attempt, MaxSequence(t.steps, id), s.steps),
       evidence := t.evidence + EvidenceRows(id, attempt, s.evidence),
       hypotheses := t.hypotheses + HypothesisRows(id, attempt, s.hypotheses),
       diagnoses := t.diagnoses
         + if s.diagnosis.Some? then [DiagnosisRow(id, attempt, s.diagnosis.value)] else [])
  }

  /** The highest number recorded really is one of the incident's, and none is higher. */
  lemma {:induction false} HighestAttempt(rows: seq<DiagnosisRow>, id: Identity)
    ensures forall i :: 0 <= i < |rows| && rows[i].incident == id ==> rows[i].attempt <= MaxAttempt(rows, id)
    ensures MaxAttempt(rows, id) == 0
         || exists i :: 0 <= i < |rows| && rows[i].incident == id && rows[i].attempt == MaxAttempt(rows, id)
  {
    if rows != [] {
      var front := rows[..|rows| - 1];
      HighestAttempt(front, id);
      assert forall i :: 0 <= i < |front| ==> front[i] == rows[i];
    }
  }

  lemma {:induction false} HighestSequence(rows: seq<StepRow>, id: Identity)
    ensures forall i :: 0 <= i < |rows| && rows[i].incident == id ==> rows[i].sequence <= MaxSequence(rows, id)
    ensures MaxSequence(rows, id) == 0
         || exists i :: 0 <= i < |rows| && rows[i].incident == id && rows[i].sequence == MaxSequence(rows, id)
  {
    if rows != [] {
      var front := rows[..|rows| - 1];
      HighestSequence(front, id);
      assert forall i :: 0 <= i < |front| ==> front[i] == rows[i];
    }
  }

  /** After the old rows come one for each step, numbered on from the incident's highest. */
  predicate AddsSteps(before: seq<StepRow>, after: seq<StepRow>, id: Identity, items: seq<StepRecord>, attempt: nat) {
    && before <= after && |after| == |before| + |items|
    && forall i :: 0 <= i < |items| ==>
         && after[|before| + i].incident == id && after[|before| + i].attempt == attempt
         && after[|before| + i].node == items[i].node
         && after[|before| + i].sequence == MaxSequence(before, id) + items[i].sequence
  }

  predicate AddsEvidence(
    before: seq<EvidenceRow>, after: seq<EvidenceRow>, id: Identity, items: seq<Evidence>, attempt: nat)
  {
    && before <= after && |after| == |before| + |items|
    && forall i :: 0 <= i < |items| ==>
         && after[|before| + i].incident == id && after[|before| + i].attempt == attempt
         && after[|before| + i].evidence == items[i]
  }

  predicate AddsHypotheses(
    before: seq<HypothesisRow>, after: seq<HypothesisRow>, id: Identity, items: seq<Hypothesis>, attempt: nat)
  {
    && before <= after && |after| == |before| + |items|
    && forall i :: 0 <= i < |items| ==>
         && after[|before| + i].incident == id && after[|before| + i].attempt == attempt
         && after[|before| + i].hypothesis == items[i]
  }

  predicate AddsDiagnosis(
    before: seq<DiagnosisRow>, after: seq<DiagnosisRow>, id: Identity, item: Option<Diagnosis>, attempt: nat)
  {
    && (item.None? ==> after == before)
    && (item.Some? ==>
          && before <= after && |after| == |before| + 1
          && after[|before|].incident == id && after[|before|].attempt == attempt
          && after[|before|].diagnosis == item.value)
  }

  /** `after` holds what `before` did and, after it, one row for each step, piece of evidence and
      hypothesis of the investigation, in order, and its diagnosis if there is one. */
  predicate Adds(before: Tables, after: Tables, id: Identity, s: State, attempt: nat) {
    && after.incidents == before.incidents
    && AddsSteps(before.steps, after.steps, id, s.steps, attempt)
    && AddsEvidence(before.evidence, after.evidence, id, s.evidence, attempt)
    && AddsHypotheses(before.hypotheses, after.hypotheses, id, s.hypotheses, attempt)
    && AddsDiagnosis(before.diagnoses, after.diagnoses, id, s.diagnosis, attempt)
  }

  lemma SavingAddsItsRows(t: Tables, id: Identity, s: State, attempt: nat)
    ensures Adds(t, Saved(t, id, s, attempt), id, s, attempt)
  {}

  /** What is added does not depend on the incidents. */
  lemma AddsWhateverTheIncidents(
    before: Tables, after: Tables, incidents: map<Identity, Incident>, id: Identity, s: State, attempt: nat)
    requires Adds(before, after, id, s, attempt)
    ensures Adds(before.(incidents := incidents), after.(incidents := incidents), id, s, attempt)
  {
    hide AddsSteps, AddsEvidence, AddsHypotheses, AddsDiagnosis;
  }

  function StatusFor(s: State): Status {
    if s.diagnosis.None? || s.haltReason == Some(InvestigationError) then Broken
    else if s.diagnosis.value.IsConclusive() then Diagnosed else NotDecided
  }

  /** The graph-level halt: no steps, and an inconclusive diagnosis saying so. */
  function HaltedState(start: State): State {
    start.(haltReason := Some(InvestigationError),
           diagnosis := Some(Diagnosis(Unknown, 0, InvestigationError)))
  }

  function SetStatus(t: Tables, id: Identity, status: Status): Tables
    requires id in t.incidents
  {
    t.(incidents := t.incidents[id := t.incidents[id].(status := status)])
  }

  /** Recording a delivery opens the incident, or counts one more delivery of it. */
  function Recorded(t: Tables, id: Identity): Tables {
    if id in t.incidents then
      var known := t.incidents[id];
      t.(incidents := t.incidents[id := known.(deliveryCount := known.deliveryCount + 1)])
    else t.(incidents := t.incidents[id := Incident(Received, 1)])
  }

  /** A delivery opens an incident that is not there, and otherwise adds one to its count and leaves its
      status, and every other incident and row, as they are. */
  lemma ADeliveryIsCountedOnce(t: Tables, id: Identity)
    ensures var t' := Recorded(t, id);
      && t'.incidents.Keys == t.incidents.Keys + {id}
      && (id !in t.incidents ==> t'.incidents[id].status == Received && t'.incidents[id].deliveryCount == 1)
      && (id in t.incidents ==>
            && t'.incidents[id].status == t.incidents[id].status
            && t'.incidents[id].deliveryCount == t.incidents[id].deliveryCount + 1)
      && (forall other :: other in t.incidents && other != id ==> t'.incidents[other] == t.incidents[other])
      && t'.steps == t.steps && t'.evidence == t.evidence && t'.hypotheses == t.hypotheses
      && t'.diagnoses == t.diagnoses
  {}

  /** Other workers may have committed a row for an incident that was not there. */
  function Arrived(t: Tables, id: Identity, between: Option<Incident>): Tables {
    if id !in t.incidents && between.Some? then t.(incidents := t.incidents[id := between.value]) else t
  }

  /** One database session, whose rows are changed in place. */
  class Session {
    var incidents: map<Identity, Incident>
    var steps: seq<StepRow>
    var evidence: seq<EvidenceRow>
    var hypotheses: seq<HypothesisRow>
    var diagnoses: seq<DiagnosisRow>

    function Contents(): Tables
      reads this
    {
      Tables(incidents, steps, evidence, hypotheses, diagnoses)
    }

    constructor (t: Tables)
      ensures Contents() == t
    {
      incidents, steps, evidence := t.incidents, t.steps, t.evidence;
      hypotheses, diagnoses := t.hypotheses, t.diagnoses;
    }

    /** The unique constraint: inserting an incident that is there already is refused. */
    method Insert(id: Identity) returns (conflict: bool)
      modifies this`incidents
      ensures conflict == (id in old(incidents))
      ensures incidents == if conflict then old(incidents) else old(incidents)[id := Incident(Received, 1)]
    {
      conflict := id in incidents;
      if !conflict {
        incidents := incidents[id := Incident(Received, 1)];
      }
    }

    method RecordRedelivery(id: Identity)
      requires id in incidents
      modifies this`incidents
      ensures Contents() == Recorded(old(Contents()), id)
    {
      incidents := incidents[id := incidents[id].(deliveryCount := incidents[id].deliveryCount + 1)];
    }

    /** Whether this call created the incident; otherwise it noted a redelivery. `between` is the row that
        other workers have committed for it by the time of the insert, whatever they did to it. */
    method GetOrCreate(id: Identity, between: Option<Incident>) returns (incident: Incident, created: bool)
      modifies this`incidents
      ensures Contents() == Recorded(Arrived(old(Contents()), id, between), id)
      ensures id in incidents && incident == incidents[id]
      ensures created == (id !in old(incidents) && between.None?)
      ensures created ==> incident.status == Received && incident.deliveryCount == 1
      ensures !created ==> var found := if id in old(incidents) then old(incidents)[id] else between.value;
                incident.status == found.status && incident.deliveryCount == found.deliveryCount + 1
    {
      if id in incidents {
        RecordRedelivery(id);
        return incidents[id], false;
      }
      if between.Some? {
        incidents := incidents[id := between.value];
      }
      var conflict := Insert(id);
      if conflict {
        RecordRedelivery(id);
      }
      return incidents[id], !conflict;
    }

    /** Adds every row of an investigation, one at a time. */
    method Save(id: Identity, s: State, attempt: nat)
      modifies this
      ensures Contents() == Saved(old(Contents()), id, s, attempt)
      ensures Adds(old(Contents()), Contents(), id, s, attempt)
    {
      SavingAddsItsRows(Contents(), id, s, attempt);
      hide Adds;
      var offset := MaxSequence(steps, id);
      for i := 0 to |s.steps|
        invariant steps == old(steps) + StepRows(id, attempt, offset, s.steps[..i])
        invariant unchanged(this`incidents, this`evidence, this`hypotheses, this`diagnoses)
      {
        steps := steps + [StepRow(id, attempt, s.steps[i].node, offset + s.steps[i].sequence)];
      }
      for i := 0 to |s.evidence|
        invariant evidence == old(evidence) + EvidenceRows(id, attempt, s.evidence[..i])
        invariant unchanged(this`incidents, this`hypotheses, this`diagnoses)
        invariant steps == old(steps) + StepRows(id, attempt, offset, s.steps)
      {
        evidence := evidence + [EvidenceRow(id, attempt, s.evidence[i])];
      }
      for i := 0 to |s.hypotheses|
        invariant hypotheses == old(hypotheses) + HypothesisRows(id, attempt, s.hypotheses[..i])
        invariant unchanged(this`incidents, this`diagnoses)
        invariant steps == old(steps) + StepRows(id, attempt, offset, s.steps)
        invariant evidence == old(evidence) + EvidenceRows(id, attempt, s.evidence)
      {
        hypotheses := hypotheses + [HypothesisRow(id, attempt, s.hypotheses[i])];
      }
      if s.diagnosis.Some? {
        diagnoses := diagnoses + [DiagnosisRow(id, attempt, s.diagnosis.value)];
      }
    }
  }
}
