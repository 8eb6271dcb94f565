/**
 What recording a decision and finalizing demand and leave behind, in terms of the review
 itself, and what that means for whole histories.
 */
module Judging {
  import opened Ordering
  import opened ReviewModel
  import opened VersionImpacts
  import opened RunLedger
  import opened ReviewActions
  import opened AuditKeeping
  import opened Replay
  import opened ReplayTheorem

  // -------------------------------------------------------------------- finalizing

  /** Every finding that is neither passed nor inapplicable has a decision, and no decision
      puts the matter off. */
  ghost predicate Closed(findings: seq<Finding>, decisions: seq<ReviewDecision>)
  {
    && (forall f :: f in findings && f.status != PASS && f.status != NOT_APPLICABLE ==>
          exists d :: d in decisions && d.findingId == f.findingId)
    && forall d :: d in decisions ==> d.decision != DEFER
  }

  lemma ClosedIff(r: Review)
    ensures Closed(r.core.findings, r.decisions) <==>
      !Undecided(r) && forall d :: d in r.decisions ==> d.decision != DEFER
  {
    forall f | f in r.core.findings
      ensures f.status != PASS && f.status != NOT_APPLICABLE <==> Actionable(f)
    {
      match f.status
      case PASS => case WARN => case BLOCK => case UNKNOWN => case NOT_APPLICABLE =>
    }
    assert forall id :: Decided(r.decisions, id) <==> exists d :: d in r.decisions && d.findingId == id;
  }

  lemma FinalizedIff(r: Review, details: EventDetails)
    requires r.run.status == HUMAN_REVIEW
    ensures Finalized(r, details).Ok? <==> Closed(r.core.findings, r.decisions)
  {
    ClosedIff(r);
    hide Undecided, Closed;
  }

  lemma ClosedMeans(findings: seq<Finding>, decisions: seq<ReviewDecision>)
    ensures Closed(findings, decisions) <==>
      && (forall f :: f in findings && (f.status == BLOCK || f.status == WARN || f.status == UNKNOWN) ==>
            exists d :: d in decisions && d.findingId == f.findingId)
      && (forall d :: d in decisions ==> d.decision != DEFER)
  {
    forall f: Finding ensures f.status == BLOCK || f.status == WARN || f.status == UNKNOWN <==>
      f.status != PASS && f.status != NOT_APPLICABLE
    {
      match f.status
      case PASS => case WARN => case BLOCK => case UNKNOWN => case NOT_APPLICABLE =>
    }
  }

  lemma FinalizeRoute(s: ReviewResult, eventId: Id, actor: Id, comment: Text, now: int)
    requires Audited(s)
    ensures Finalize(s, eventId, actor, comment, now).Ok? <==>
      s.review.run.status == HUMAN_REVIEW && Closed(s.review.core.findings, s.review.decisions)
  {
    hide Audited, Finalized, Closed;
    var details := FinalDetails(s.review, eventId, actor, comment, now);
    JudgementOk(s.review.run.status, Audited(s), Finalized(s.review, details));
    if s.review.run.status == HUMAN_REVIEW { FinalizedIff(s.review, details); }
  }

  /** Finalizing succeeds if and only if the review is open, every finding that blocks, warns
      or is unknown has some decision, and nothing is deferred. */
  lemma FinalizeIff(s: ReviewResult, eventId: Id, actor: Id, comment: Text, now: int)
    requires Audited(s)
    ensures Finalize(s, eventId, actor, comment, now).Ok? <==>
      && s.review.run.status == HUMAN_REVIEW
      && (forall f :: f in s.review.core.findings && (f.status == BLOCK || f.status == WARN || f.status == UNKNOWN) ==>
            exists d :: d in s.review.decisions && d.findingId == f.findingId)
      && (forall d :: d in s.review.decisions ==> d.decision != DEFER)
  {
    hide *;
    FinalizeRoute(s, eventId, actor, comment, now);
    ClosedMeans(s.review.core.findings, s.review.decisions);
  }

  lemma {:induction false} DecisionEvidence(decisions: seq<ReviewDecision>, x: Id)
    ensures x in EvidenceOfDecisions(decisions) <==> exists d :: d in decisions && x in d.evidenceIds
  {
    if decisions != [] {
      var front, last := decisions[..|decisions| - 1], decisions[|decisions| - 1];
      SnocParts(decisions);
      DecisionEvidence(front, x);
    }
  }

  /** Finalizing adds one event that cites the evidence of all decisions, closes the run and
      withdraws the demand for a review; nothing else changes. */
  lemma FinalizeMakes(s: ReviewResult, eventId: Id, actor: Id, comment: Text, now: int)
    requires Finalize(s, eventId, actor, comment, now).Ok?
    ensures var r, t := s.review, Finalize(s, eventId, actor, comment, now).value.review;
      && t == r.(run := t.run, report := t.report)
      && t.run == r.run.(status := FINALIZED, finishedAt := Some(now), stageEvents := t.run.stageEvents)
      && t.report == r.report.(reviewRequired := false)
      && |t.run.stageEvents| == |r.run.stageEvents| + 1 && r.run.stageEvents <= t.run.stageEvents
      && var e := t.run.stageEvents[|r.run.stageEvents|];
         && e.eventId == eventId && e.subjectType == ReviewRunSubject && e.subjectId == r.run.runId
         && e.fromStage == Some(HUMAN_REVIEW) && e.toStage == FINALIZED && e.action == FINALIZE_REVIEW
         && e.actor == actor && e.reason == comment && e.occurredAt == now
         && forall x :: x in e.evidenceIds <==> exists d :: d in r.decisions && x in d.evidenceIds
  {
    var details := FinalDetails(s.review, eventId, actor, comment, now);
    JudgementOk(s.review.run.status, Audited(s), Finalized(s.review, details));
    forall x
      ensures x in details.evidenceIds <==> exists d :: d in s.review.decisions && x in d.evidenceIds
    {
      DecisionEvidence(s.review.decisions, x);
    }
    hide Audited, Fingerprint, EvidenceOfDecisions;
  }

  // --------------------------------------------------------------------- decisions

  /** The evidence a decision cites: its own, or that of the finding when it names none. */
  function Cited(f: Finding, d: ReviewDecision): seq<Id>
  {
    if |d.evidenceIds| > 0 then d.evidenceIds else f.evidenceIds
  }

  function Citing(r: Review, f: Finding, d: ReviewDecision): ReviewDecision
  {
    d.(runId := r.run.runId, evidenceIds := Cited(f, d))
  }

  /** A decision is about a finding without a decision so far and cites stored evidence, some
      of it evidence of the finding. */
  ghost predicate Decidable(r: Review, f: Finding, d: ReviewDecision)
  {
    && f in r.core.findings && f.findingId == d.findingId
    && (forall x :: x in r.decisions ==> x.findingId != d.findingId)
    && (forall x :: x in Cited(f, d) ==> exists e :: e in r.evidence && e.evidenceId == x)
    && exists x :: x in Cited(f, d) && x in f.evidenceIds
  }

  lemma KnownIds(evidence: seq<Evidence>, ids: seq<Id>)
    ensures AllIn(ids, EvidenceIds(evidence)) <==>
      forall x :: x in ids ==> exists e :: e in evidence && e.evidenceId == x
  {
    forall x ensures x in EvidenceIds(evidence) <==> exists e :: e in evidence && e.evidenceId == x {
      IdKnown(evidence, x);
    }
  }

  lemma IdKnown(evidence: seq<Evidence>, x: Id)
    ensures x in EvidenceIds(evidence) <==> exists e :: e in evidence && e.evidenceId == x
  {
    if x in EvidenceIds(evidence) {
      var i :| 0 <= i < |evidence| && EvidenceIds(evidence)[i] == x;
      assert evidence[i] in evidence;
    }
    if e :| e in evidence && e.evidenceId == x {
      var i :| 0 <= i < |evidence| && evidence[i] == e;
      assert EvidenceIds(evidence)[i] == x;
    }
  }

  lemma OneFinding(r: Review, f: Finding, id: Id)
    requires Distinct(FindingIds(r.core.findings)) && f in r.core.findings && f.findingId == id
    ensures FindFinding(r.core.findings, id) == Some(f)
  {
    var g := FindFinding(r.core.findings, id).value;
    var i :| 0 <= i < |r.core.findings| && r.core.findings[i] == f;
    var j :| 0 <= j < |r.core.findings| && r.core.findings[j] == g;
    assert FindingIds(r.core.findings)[i] == FindingIds(r.core.findings)[j];
  }

  lemma DecisionAddedIff(r: Review, d: ReviewDecision)
    requires Distinct(FindingIds(r.core.findings))
    ensures DecisionAdded(r, d).Ok? <==> exists f :: Decidable(r, f, d)
    ensures DecisionAdded(r, d).Ok? ==> exists f ::
      Decidable(r, f, d) && DecisionAdded(r, d).value == WithDecision(r, Citing(r, f, d))
  {
    var found := FindFinding(r.core.findings, d.findingId);
    if found.Some? {
      KnownIds(r.evidence, Cited(found.value, d));
      assert Cited(found.value, d) == SelectedEvidence(found.value, d);
      if DecisionAdded(r, d).Ok? { assert Decidable(r, found.value, d); }
    }
    if f :| Decidable(r, f, d) {
      OneFinding(r, f, d.findingId);
    }
  }

  /** A decision is recorded if and only if the review is open and there is a finding it can
      decide. */
  lemma RecordDecisionIff(s: ReviewResult, d: ReviewDecision)
    requires Audited(s)
    ensures RecordDecision(s, d).Ok? <==>
      s.review.run.status == HUMAN_REVIEW && exists f :: Decidable(s.review, f, d)
  {
    JudgementOk(s.review.run.status, Audited(s), DecisionAdded(s.review, d));
    AuditedFindings(s);
    hide Audited, DecisionAdded, Decidable;
    DecisionAddedIff(s.review, d);
  }

  lemma AuditedFindings(s: ReviewResult)
    requires Audited(s)
    ensures Distinct(FindingIds(s.review.core.findings))
  {
  }

  /** It is appended with the evidence it cites; run and report list all decisions, and
      nothing else changes. */
  lemma RecordDecisionMakes(s: ReviewResult, d: ReviewDecision)
    requires RecordDecision(s, d).Ok?
    ensures var r, t := s.review, RecordDecision(s, d).value.review;
      && t == r.(decisions := t.decisions, run := t.run, report := t.report)
      && (exists f :: Decidable(r, f, d) && t.decisions == r.decisions + [Citing(r, f, d)])
      && t.run == r.run.(decisionIds := t.run.decisionIds)
      && t.report == r.report.(decisionIds := t.run.decisionIds)
      && |t.run.decisionIds| == |t.decisions|
      && forall i :: 0 <= i < |t.decisions| ==> t.run.decisionIds[i] == t.decisions[i].decisionId
  {
    JudgementOk(s.review.run.status, Audited(s), DecisionAdded(s.review, d));
    AuditedFindings(s);
    hide Audited, DecisionAdded, Decidable, Fingerprint;
    DecisionAddedIff(s.review, d);
  }

  // --------------------------------------------------------------- whole histories

  /** No history reaches a final review with a finding still open or a decision put off, and
      no finding is ever decided twice. */
  lemma NothingLeftOpen(s0: ReviewResult, env: Env, history: seq<Action>)
    requires Fresh(s0) && Regular(s0, history) && RunHistory(s0, env, history).Ok?
    ensures var r := RunHistory(s0, env, history).value.review;
      && (r.run.status == HUMAN_REVIEW || r.run.status == FINALIZED)
      && (r.run.status == FINALIZED ==>
            && (forall f :: f in r.core.findings && (f.status == BLOCK || f.status == WARN || f.status == UNKNOWN) ==>
                  exists d :: d in r.decisions && d.findingId == f.findingId)
            && forall d :: d in r.decisions ==> d.decision != DEFER)
      && (forall i, j :: 0 <= i < j < |r.decisions| ==> r.decisions[i].findingId != r.decisions[j].findingId)
  {
    hide *;
    HistoryReaches(s0, env, history);
    var r := RunHistory(s0, env, history).value.review;
    ReachedMeans(s0.review, r, Judged(history));
    ClosedMeans(r.core.findings, r.decisions);
  }

  lemma ReachedMeans(s0: Review, r: Review, judged: bool)
    requires Reached(s0, r, judged)
    ensures r.run.status == HUMAN_REVIEW || r.run.status == FINALIZED
    ensures r.run.status == FINALIZED ==> Closed(r.core.findings, r.decisions)
    ensures forall i, j :: 0 <= i < j < |r.decisions| ==> r.decisions[i].findingId != r.decisions[j].findingId
  {
    hide Consistent, Undecided, Closed;
    ClosedIff(r);
  }

  lemma {:induction false} DecisionsStay(s: ReviewResult, env: Env, history: seq<Action>)
    requires RunHistory(s, env, history).Ok?
    ensures s.review.decisions <= RunHistory(s, env, history).value.review.decisions
  {
    hide Apply;
    if history != [] {
      var n := |history| - 1;
      DecisionsStay(s, env, history[..n]);
      DecisionsStep(RunHistory(s, env, history[..n]).value, env, history[n]);
    }
  }

  lemma DecisionsStep(s: ReviewResult, env: Env, a: Action)
    requires Apply(s, env, a).Ok?
    ensures s.review.decisions <= Apply(s, env, a).value.review.decisions
  {
    hide AttachComparison, AttachRevision, RecordDecision, Finalize;
    match a
    case Compare(c, at) =>
      var added, bound := ComparisonAttached(s, env, c, at);
    case Revise(v) =>
      RevisionAttached(s, v);
    case Decide(d) =>
      RecordDecisionMakes(s, d);
    case Finish(eventId, actor, comment, at) =>
      FinalizeMakes(s, eventId, actor, comment, at);
  }

  /** Decisions cannot be taken back, so a review with a deferred decision is never finalized. */
  lemma DeferredForGood(s0: ReviewResult, env: Env, history: seq<Action>, d: ReviewDecision, more: seq<Action>)
    requires Fresh(s0) && Regular(s0, history + more) && RunHistory(s0, env, history).Ok?
    requires d in RunHistory(s0, env, history).value.review.decisions && d.decision == DEFER
    requires RunHistory(s0, env, history + more).Ok?
    ensures RunHistory(s0, env, history + more).value.review.run.status == HUMAN_REVIEW
  {
    hide Fresh, Regular, Apply;
    HistoryContinues(s0, env, history, more);
    DecisionsStay(RunHistory(s0, env, history).value, env, more);
    NothingLeftOpen(s0, env, history + more);
  }

  lemma {:induction false} HistoryContinues(s: ReviewResult, env: Env, history: seq<Action>, more: seq<Action>)
    requires RunHistory(s, env, history + more).Ok?
    ensures RunHistory(s, env, history).Ok?
    ensures RunHistory(s, env, history + more) == RunHistory(RunHistory(s, env, history).value, env, more)
  {
    hide Apply;
    if more == [] {
      assert history + more == history;
    } else {
      var front := more[..|more| - 1];
      assert (history + more)[..|history + more| - 1] == history + front;
      HistoryContinues(s, env, history, front);
    }
  }
}
