/** Confidence, computed from the shape of the investigation in ten-thousandths. */
module Confidence {
  import opened Domain
  import opened States

  const BASE_CONFIDENCE := 1500
  const MAX_SIGNATURE := 2000
  const MAX_HYPOTHESIS := 3000
  const MAX_EVIDENCE := 3500
  const EVIDENCE_SATURATION := 4
  const REFUTATION_PENALTY := 500
  const MAX_REFUTATION_PENALTY := 1500

  function SuccessfulTools(evidence: seq<Evidence>): set<string> {
    set e | e in evidence && e.succeeded :: e.tool
  }

  function SignatureTerm(signature: Option<Signature>): int {
    if signature.None? then 0 else MAX_SIGNATURE * signature.value.strength / 10000
  }

  function HypothesisTerm(current: Option<Hypothesis>): int {
    if current.None? then 0
    else match current.value.outcome
      case Confirmed => MAX_HYPOTHESIS
      case Inconclusive => MAX_HYPOTHESIS / 5
      case _ => 0
  }

  function EvidenceTerm(tools: nat): int {
    MAX_EVIDENCE * Min(tools, EVIDENCE_SATURATION) / EVIDENCE_SATURATION
  }

  function Penalty(refuted: nat): int {
    -Min(REFUTATION_PENALTY * refuted, MAX_REFUTATION_PENALTY)
  }

  /** The sum of the terms before it is clamped. */
  function Unclamped(s: State): int {
    BASE_CONFIDENCE + SignatureTerm(s.failure.signature) + HypothesisTerm(s.current)
    + EvidenceTerm(|SuccessfulTools(s.evidence)|) + Penalty(|s.RefutedHypotheses()|)
  }

  function ComputeConfidence(s: State): int {
    Min(Max(Unclamped(s), 0), 10000)
  }

  function TriageConfidence(signature: Option<Signature>, modelAgrees: bool): int {
    if signature.None? then 0
    else if !modelAgrees then signature.value.strength / 2
    else signature.value.strength
  }

  /** The clamp never fires, and only a confirmed hypothesis lifts a score above 0.76. */
  lemma ConfidenceNeverLeavesRange(s: State)
    ensures 0 <= Unclamped(s) <= 10000
    ensures ComputeConfidence(s) == Unclamped(s)
    ensures (s.current.None? || s.current.value.outcome != Confirmed) ==> ComputeConfidence(s) <= 7600
    ensures ComputeConfidence(s) == 10000
      ==> s.current.Some? && s.current.value.outcome == Confirmed && s.RefutedHypotheses() == []
          && s.failure.signature.Some? && |SuccessfulTools(s.evidence)| >= EVIDENCE_SATURATION
  {}

  /** The tools that answered are those with a successful piece of evidence. */
  lemma AnsweredTools(evidence: seq<Evidence>, t: string)
    ensures t in SuccessfulTools(evidence)
      <==> exists i :: 0 <= i < |evidence| && evidence[i].tool == t && evidence[i].succeeded
  {
    if t in SuccessfulTools(evidence) {
      var e :| e in evidence && e.succeeded && e.tool == t;
      var i :| 0 <= i < |evidence| && evidence[i] == e;
    }
  }

  /** A failed call, and another answer of a tool heard from before, add nothing. */
  lemma AnythingElseAddsNothing(s: State, e: Evidence)
    requires e.succeeded ==> exists i :: 0 <= i < |s.evidence| && s.evidence[i].tool == e.tool && s.evidence[i].succeeded
    ensures ComputeConfidence(s.(evidence := s.evidence + [e])) == ComputeConfidence(s)
  {
    var both, known := SuccessfulTools(s.evidence + [e]), SuccessfulTools(s.evidence);
    forall t ensures t in both <==> t in known {
      AnsweredTools(s.evidence, t);
      if t in known {
        var k :| k in s.evidence && k.succeeded && k.tool == t;
        assert k in s.evidence + [e];
      }
    }
    assert both == known;
  }

  /** What each piece is worth: a tool not heard from before adds 0.0875 until four have answered. */
  lemma ANewToolAdds(s: State, e: Evidence)
    requires e.succeeded && e.tool !in SuccessfulTools(s.evidence)
    ensures ComputeConfidence(s.(evidence := s.evidence + [e]))
         == ComputeConfidence(s) + if |SuccessfulTools(s.evidence)| < 4 then 875 else 0
  {
    var s' := s.(evidence := s.evidence + [e]);
    ConfidenceNeverLeavesRange(s);
    ConfidenceNeverLeavesRange(s');
    var both, known := SuccessfulTools(s'.evidence), SuccessfulTools(s.evidence);
    forall t ensures t in both <==> t in known + {e.tool} {
      if t in known {
        var k :| k in s.evidence && k.succeeded && k.tool == t;
        assert k in s'.evidence;
      }
      if t == e.tool {
        assert e in s'.evidence;
      }
    }
    assert both == known + {e.tool};
    EvidenceIsWorth(|known|);
    EvidenceIsWorth(|both|);
  }

  lemma EvidenceIsWorth(tools: nat)
    ensures EvidenceTerm(tools) == 875 * Min(tools, 4)
  {}

  /** The first three refuted hypotheses cost 0.05 each, and the fourth costs nothing more. */
  lemma ARefutationCosts(s: State, h: Hypothesis)
    requires h.outcome == Refuted
    ensures ComputeConfidence(s.(hypotheses := s.hypotheses + [h]))
         == ComputeConfidence(s) - if |s.RefutedHypotheses()| < 3 then 500 else 0
  {
    var s' := s.(hypotheses := s.hypotheses + [h]);
    ConfidenceNeverLeavesRange(s);
    ConfidenceNeverLeavesRange(s');
    WithOutcomeAppends(s.hypotheses, [h], Refuted);
  }

  /** A hypothesis listed with any other outcome costs nothing. */
  lemma NoOtherHypothesisCosts(s: State, h: Hypothesis)
    requires h.outcome != Refuted
    ensures ComputeConfidence(s.(hypotheses := s.hypotheses + [h])) == ComputeConfidence(s)
  {
    WithOutcomeAppends(s.hypotheses, [h], Refuted);
    assert s.RefutedHypotheses() + [] == s.RefutedHypotheses();
  }

  /** The verdict on the current hypothesis moves the score by 0.30, or by a fifth of that. */
  lemma AVerdictIsWorth(s: State, h: Hypothesis)
    ensures var score := (o: Outcome) => ComputeConfidence(s.(current := Some(h.(outcome := o))));
      && score(Confirmed) == score(Refuted) + 3000
      && score(Inconclusive) == score(Refuted) + 600
      && score(Untested) == score(Refuted) == ComputeConfidence(s.(current := None))
  {}
}
