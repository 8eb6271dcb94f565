/**
 What every human action keeps: the audit holds after an action without being run
 again, and the gate after attaching a comparison rejects exactly the malformed ones.
 */
module AuditKeeping {
  import opened Ordering
  import opened ReviewModel
  import opened VersionImpacts
  import opened RunLedger
  import opened ReviewActions

  // ---------------------------------------------- extending a result with new parts

  /** r' is r with some evidence, comparisons, revisions, decisions and events added. */
  ghost predicate Extends(r: Review, r': Review)
  {
    && r'.core == r.core && r'.run.runId == r.run.runId
    && r.evidence <= r'.evidence && r.comparisons <= r'.comparisons && r.revisions <= r'.revisions
    && r.decisions <= r'.decisions && r.run.stageEvents <= r'.run.stageEvents
  }

  lemma EvidenceIdsGrow(r: Review, r': Review)
    requires r.evidence <= r'.evidence
    ensures EvidenceIds(r.evidence) <= EvidenceIds(r'.evidence)
  {
  }

  lemma AllInGrows(ids: seq<Id>, known: seq<Id>, more: seq<Id>)
    requires known <= more && AllIn(ids, known)
    ensures AllIn(ids, more)
  {
    assert forall x :: x in known ==> x in more by {
      assert forall i :: 0 <= i < |known| ==> known[i] == more[i];
    }
  }

  lemma PrefixMembers<T(!new)>(s: seq<T>, t: seq<T>)
    requires s <= t
    ensures forall x :: x in t <==> x in s || x in t[|s|..]
  {
    assert t == s + t[|s|..];
  }

  lemma ComparisonStays(core: Snapshot, runId: Id, evidence: seq<Evidence>, more: seq<Evidence>, c: Comparison)
    requires evidence <= more && ComparisonIntegrity(core, runId, evidence, c)
    ensures ComparisonIntegrity(core, runId, more, c)
  {
    PrefixMembers(evidence, more);
  }

  lemma DecisionStays(core: Snapshot, runId: Id, known: seq<Id>, more: seq<Id>, d: ReviewDecision)
    requires known <= more && DecisionAligned(core, runId, known, d)
    ensures DecisionAligned(core, runId, more, d)
  {
    AllInGrows(d.evidenceIds, known, more);
  }

  lemma ComparisonReferencesStay(c: Comparison, known: seq<Id>, more: seq<Id>)
    requires known <= more && ComparisonReferences(c, known)
    ensures ComparisonReferences(c, more)
  {
    AllInGrows(c.evidenceIds, known, more);
    forall ch | ch in c.changes ensures AllIn(ch.evidenceIds, more) {
      AllInGrows(ch.evidenceIds, known, more);
    }
  }

  lemma RevisionReferencesStay(v: RevisionSet, known: seq<Id>, more: seq<Id>)
    requires known <= more && RevisionReferences(v, known)
    ensures RevisionReferences(v, more)
  {
    forall ch | ch in v.changes ensures AllIn(ch.evidenceIds, more) {
      AllInGrows(ch.evidenceIds, known, more);
    }
  }

  lemma ReferencesStay(r: Review, known: seq<Id>, more: seq<Id>)
    requires known <= more && References(r, known)
    ensures References(r, more)
  {
    PrefixMembers(known, more);
    forall f | f in r.core.findings ensures AllIn(f.evidenceIds, more) {
      AllInGrows(f.evidenceIds, known, more);
    }
    forall e | e in r.run.stageEvents ensures AllIn(e.evidenceIds, more) {
      AllInGrows(e.evidenceIds, known, more);
    }
    forall c | c in r.comparisons ensures ComparisonReferences(c, more) {
      ComparisonReferencesStay(c, known, more);
    }
    forall v | v in r.revisions ensures RevisionReferences(v, more) {
      RevisionReferencesStay(v, known, more);
    }
  }

  /** What has to be checked about the added parts alone. */
  ghost predicate AddedPartsSound(r: Review, r': Review)
    requires Extends(r, r')
  {
    var known := EvidenceIds(r'.evidence);
    && (forall e :: e in r'.evidence[|r.evidence|..] ==> Provenance(r'.core, e))
    && (forall e :: e in r'.run.stageEvents[|r.run.stageEvents|..] ==> AllIn(e.evidenceIds, known))
    && (forall c :: c in r'.comparisons[|r.comparisons|..] ==>
          ComparisonIntegrity(r'.core, r'.run.runId, r'.evidence, c) && ComparisonReferences(c, known))
    && (forall v :: v in r'.revisions[|r.revisions|..] ==>
          RevisionIntegrity(r'.core, r'.run.runId, v) && RevisionReferences(v, known))
    && (forall d :: d in r'.decisions[|r.decisions|..] ==> DecisionAligned(r'.core, r'.run.runId, known, d))
  }

  /** The parts of the audit that look at a result as a whole. */
  ghost predicate WholeSound(r: Review)
  {
    && Distinct(EvidenceIds(r.evidence)) && Distinct(ComparisonIds(r.comparisons)) && Distinct(RevisionIds(r.revisions))
    && PostReviewAlignment(r)
    && LedgerValid(r.run, EvidenceIds(r.evidence))
    && Elements(r.run.decisionIds) == Elements(DecisionIds(r.decisions))
    && Elements(r.report.decisionIds) == Elements(DecisionIds(r.decisions))
    && ReportIntegrity(r)
  }

  lemma ReferencesExtend(r: Review, r': Review)
    requires Extends(r, r') && AddedPartsSound(r, r') && References(r, EvidenceIds(r.evidence))
    ensures References(r', EvidenceIds(r'.evidence))
  {
    EvidenceIdsGrow(r, r');
    ReferencesStay(r, EvidenceIds(r.evidence), EvidenceIds(r'.evidence));
    PrefixMembers(r.run.stageEvents, r'.run.stageEvents);
    PrefixMembers(r.comparisons, r'.comparisons);
    PrefixMembers(r.revisions, r'.revisions);
  }

  lemma ComparisonsExtend(r: Review, r': Review)
    requires Extends(r, r') && AddedPartsSound(r, r')
    requires forall c :: c in r.comparisons ==> ComparisonIntegrity(r.core, r.run.runId, r.evidence, c)
    ensures forall c :: c in r'.comparisons ==> ComparisonIntegrity(r'.core, r'.run.runId, r'.evidence, c)
  {
    PrefixMembers(r.comparisons, r'.comparisons);
    forall c | c in r.comparisons ensures ComparisonIntegrity(r'.core, r'.run.runId, r'.evidence, c) {
      ComparisonStays(r.core, r.run.runId, r.evidence, r'.evidence, c);
    }
  }

  lemma DecisionsExtend(r: Review, r': Review)
    requires Extends(r, r') && AddedPartsSound(r, r')
    requires forall d :: d in r.decisions ==> DecisionAligned(r.core, r.run.runId, EvidenceIds(r.evidence), d)
    ensures forall d :: d in r'.decisions ==> DecisionAligned(r'.core, r'.run.runId, EvidenceIds(r'.evidence), d)
  {
    EvidenceIdsGrow(r, r');
    PrefixMembers(r.decisions, r'.decisions);
    forall d | d in r.decisions ensures DecisionAligned(r'.core, r'.run.runId, EvidenceIds(r'.evidence), d) {
      DecisionStays(r.core, r.run.runId, EvidenceIds(r.evidence), EvidenceIds(r'.evidence), d);
    }
  }

  /** Nothing that was sound before has to be checked again. */
  lemma AuditExtends(r: Review, r': Review)
    requires Consistent(r) && Extends(r, r')
    requires AddedPartsSound(r, r') && WholeSound(r')
    ensures Consistent(r')
  {
    ReferencesExtend(r, r');
    ComparisonsExtend(r, r');
    DecisionsExtend(r, r');
    PrefixMembers(r.evidence, r'.evidence);
    PrefixMembers(r.revisions, r'.revisions);
  }


  // -------------------------------------------------------------------- decisions

  lemma WithDecisionConsistent(r: Review, d: ReviewDecision)
    requires Consistent(r)
    requires DecisionAligned(r.core, r.run.runId, EvidenceIds(r.evidence), d)
    ensures Consistent(WithDecision(r, d))
  {
    var r' := WithDecision(r, d);
    assert Extends(r, r') && AddedPartsSound(r, r');
    assert WholeSound(r') by {
      assert LedgerValid(r'.run, EvidenceIds(r'.evidence));
    }
    AuditExtends(r, r');
  }

  lemma DecisionAddedConsistent(r: Review, d: ReviewDecision)
    requires Consistent(r) && DecisionAdded(r, d).Ok?
    ensures Consistent(DecisionAdded(r, d).value)
  {
    hide Consistent;
    var finding := FindFinding(r.core.findings, d.findingId).value;
    var selected := SelectedEvidence(finding, d);
    var d' := d.(runId := r.run.runId, evidenceIds := selected);
    assert DecisionAligned(r.core, r.run.runId, EvidenceIds(r.evidence), d') by {
      assert exists x :: x in d'.evidenceIds && x in finding.evidenceIds;
    }
    WithDecisionConsistent(r, d');
  }

  /** Recording a decision keeps the audit, although its output is not re-audited. */
  lemma DecisionKeepsAudit(s: ReviewResult, d: ReviewDecision)
    requires RecordDecision(s, d).Ok?
    ensures Audited(RecordDecision(s, d).value)
  {
    JudgementOk(s.review.run.status, Audited(s), DecisionAdded(s.review, d));
    DecisionAddedConsistent(s.review, d);
  }

  // ----------------------------------------------------------------- finalization

  lemma {:induction false} DecisionEvidenceKnown(decisions: seq<ReviewDecision>, known: seq<Id>)
    requires forall d :: d in decisions ==> AllIn(d.evidenceIds, known)
    ensures AllIn(EvidenceOfDecisions(decisions), known)
  {
    if decisions != [] {
      SnocParts(decisions);
      DecisionEvidenceKnown(decisions[..|decisions| - 1], known);
    }
  }

  /** The clock does not go back and the event id is new. */
  ghost predicate CanRecordEvent(r: Review, eventId: Id, now: int)
  {
    && (forall e :: e in r.run.stageEvents ==> e.eventId != eventId)
    && (r.run.stageEvents != [] ==> r.run.stageEvents[|r.run.stageEvents| - 1].occurredAt <= now)
  }

  lemma FinalRunConsistent(r: Review, details: EventDetails)
    requires Consistent(r) && r.run.status == HUMAN_REVIEW
    requires CanRecordEvent(r, details.eventId, details.at) && AllIn(details.evidenceIds, EvidenceIds(r.evidence))
    ensures Advance(r.run, FINALIZED, details).Ok?
    ensures Consistent(WithFinalRun(r, Advance(r.run, FINALIZED, details).value))
  {
    LedgerGrows(r.run, FINALIZED, details, EvidenceIds(r.evidence));
    var r' := WithFinalRun(r, Advance(r.run, FINALIZED, details).value);
    assert Extends(r, r') && AddedPartsSound(r, r') && WholeSound(r');
    AuditExtends(r, r');
  }

  lemma FinalizedConsistent(r: Review, eventId: Id, actor: Id, comment: Text, now: int)
    requires Consistent(r) && r.run.status == HUMAN_REVIEW && CanRecordEvent(r, eventId, now)
    requires Finalized(r, FinalDetails(r, eventId, actor, comment, now)).Ok?
    ensures Consistent(Finalized(r, FinalDetails(r, eventId, actor, comment, now)).value)
  {
    DecisionEvidenceKnown(r.decisions, EvidenceIds(r.evidence));
    FinalRunConsistent(r, FinalDetails(r, eventId, actor, comment, now));
  }

  /** Finalizing keeps the audit. */
  lemma FinalizeKeepsAudit(s: ReviewResult, eventId: Id, actor: Id, comment: Text, now: int)
    requires Finalize(s, eventId, actor, comment, now).Ok?
    requires CanRecordEvent(s.review, eventId, now)
    ensures Audited(Finalize(s, eventId, actor, comment, now).value)
  {
    JudgementOk(s.review.run.status, Audited(s),
      Finalized(s.review, FinalDetails(s.review, eventId, actor, comment, now)));
    FinalizedConsistent(s.review, eventId, actor, comment, now);
  }

  // ---------------------------------------------------------------- revision sets

  lemma SequenceAppend(r: Review, r': Review, a: Attachment)
    requires PostReviewAlignment(r)
    requires r'.sequence == r.sequence + [a] && a !in r.sequence
    requires r'.run.comparisonIds == r'.report.comparisonIds == ComparisonIds(r'.comparisons)
    requires r'.run.revisionIds == r'.report.revisionIds == RevisionIds(r'.revisions)
    requires if a.ComparisonRef?
      then ComparisonIds(r'.comparisons) == ComparisonIds(r.comparisons) + [a.id] && r'.revisions == r.revisions
      else RevisionIds(r'.revisions) == RevisionIds(r.revisions) + [a.id] && r'.comparisons == r.comparisons
    ensures PostReviewAlignment(r')
  {
    DistinctSnoc(r.sequence, a);
  }

  lemma RevisionIdsAppend(revisions: seq<RevisionSet>, v: RevisionSet)
    ensures RevisionIds(revisions + [v]) == RevisionIds(revisions) + [v.revisionId]
  {
  }

  lemma ComparisonIdsAppend(comparisons: seq<Comparison>, c: Comparison)
    ensures ComparisonIds(comparisons + [c]) == ComparisonIds(comparisons) + [c.comparisonId]
  {
  }

  lemma WithRevisionConsistent(r: Review, v: RevisionSet)
    requires Consistent(r) && v.revisionId !in RevisionIds(r.revisions)
    requires RevisionIntegrity(r.core, r.run.runId, v) && RevisionReferences(v, EvidenceIds(r.evidence))
    ensures Consistent(WithRevision(r, v))
  {
    var r' := WithRevision(r, v);
    RevisionIdsAppend(r.revisions, v);
    SequenceAppend(r, r', RevisionRef(v.revisionId));
    DistinctSnoc(RevisionIds(r.revisions), v.revisionId);
    assert Extends(r, r') && AddedPartsSound(r, r') && WholeSound(r');
    AuditExtends(r, r');
  }

  lemma AttachedRevisionSound(r: Review, v: RevisionSet)
    requires Consistent(WithRevision(r, v))
    ensures RevisionIntegrity(r.core, r.run.runId, v) && RevisionReferences(v, EvidenceIds(r.evidence))
  {
    var r' := WithRevision(r, v);
    assert v in r'.revisions;
  }

  lemma RevisionConsistentIff(r: Review, v: RevisionSet)
    requires Consistent(r) && v.revisionId !in RevisionIds(r.revisions)
    ensures Consistent(WithRevision(r, v)) <==>
      RevisionIntegrity(r.core, r.run.runId, v) && RevisionReferences(v, EvidenceIds(r.evidence))
  {
    if RevisionIntegrity(r.core, r.run.runId, v) && RevisionReferences(v, EvidenceIds(r.evidence)) {
      WithRevisionConsistent(r, v);
    }
    if Consistent(WithRevision(r, v)) {
      AttachedRevisionSound(r, v);
    }
  }

  /** The second gate of attaching a revision set rejects exactly the sets that are not
      bound to findings, clauses and evidence of this result. */
  lemma RevisionGate(s: ReviewResult, v: RevisionSet)
    requires Audited(s) && v.runId == s.review.run.runId && s.fingerprint == Some(v.baseFingerprint)
    requires v.revisionId !in RevisionIds(s.review.revisions)
    ensures AttachRevision(s, v).Ok? <==>
      && RevisionIntegrity(s.review.core, s.review.run.runId, v)
      && RevisionReferences(v, EvidenceIds(s.review.evidence))
  {
    GatedOk(Audited(s), RevisionAdded(s.review, s.fingerprint, v));
    RevisionConsistentIff(s.review, v);
  }
}
