/**
 The replay theorem: decisions and the final event replayed on the rebuilt attachments,
 and the equality of fingerprints.
 */
module ReplayNormalForm {
  import opened Ordering
  import opened ReviewModel
  import opened VersionImpacts
  import opened RunLedger
  import opened ReviewActions
  import opened AuditKeeping
  import opened Replay
  import opened Reattaching
  import opened ReplayTheorem
  import opened ReplayEvidence

  // ---------------------------------------------------------- decisions, replayed

  /** t with the first decisions of s recorded again, under whatever decision ids. */
  ghost predicate Redecided(t: Review, u: Review, decisions: seq<ReviewDecision>)
  {
    && u.core == t.core && u.evidence == t.evidence && u.comparisons == t.comparisons
    && u.revisions == t.revisions && u.sequence == t.sequence
    && u.run.runId == t.run.runId && u.run.status == t.run.status && u.run.stageEvents == t.run.stageEvents
    && |u.decisions| == |decisions|
    && forall i :: 0 <= i < |decisions| ==> SameDecision(decisions[i], u.decisions[i])
  }

  predicate SameDecision(d: ReviewDecision, d': ReviewDecision)
  {
    d' == d.(decisionId := d'.decisionId)
  }

  lemma FindingUnique(findings: seq<Finding>, f: Finding)
    requires Distinct(FindingIds(findings)) && f in findings
    ensures FindFinding(findings, f.findingId) == Some(f)
  {
    var found := FindFinding(findings, f.findingId).value;
    var i :| 0 <= i < |findings| && findings[i] == f;
    var j :| 0 <= j < |findings| && findings[j] == found;
    assert FindingIds(findings)[i] == FindingIds(findings)[j];
  }

  /** An aligned decision on a finding not decided yet is accepted as it stands. */
  lemma AlignedAccepted(r: Review, d: ReviewDecision)
    requires Distinct(FindingIds(r.core.findings)) && !Decided(r.decisions, d.findingId)
    requires DecisionAligned(r.core, r.run.runId, EvidenceIds(r.evidence), d)
    ensures DecisionAdded(r, d) == Ok(WithDecision(r, d))
  {
    var f :| f in r.core.findings && f.findingId == d.findingId
      && exists x :: x in d.evidenceIds && x in f.evidenceIds;
    FindingUnique(r.core.findings, f);
    assert Intersects(d.evidenceIds, f.evidenceIds);
    assert d.(runId := r.run.runId, evidenceIds := d.evidenceIds) == d;
  }

  lemma NotDecidedBefore(u: seq<ReviewDecision>, all: seq<ReviewDecision>)
    requires |u| < |all| && DecidedOnce(all)
    requires forall i :: 0 <= i < |u| ==> SameDecision(all[i], u[i])
    ensures !Decided(u, all[|u|].findingId)
  {
    forall d | d in u ensures d.findingId != all[|u|].findingId {
      var i :| 0 <= i < |u| && u[i] == d;
      assert SameDecision(all[i], u[i]);
    }
  }

  lemma RedecideReview(t: Review, u: Review, decisions: seq<ReviewDecision>, d: ReviewDecision, id: Id)
    requires Distinct(FindingIds(t.core.findings)) && Redecided(t, u, decisions) && DecidedOnce(decisions + [d])
    requires DecisionAligned(t.core, t.run.runId, EvidenceIds(t.evidence), d)
    ensures DecisionAdded(u, d.(decisionId := id)) == Ok(WithDecision(u, d.(decisionId := id)))
    ensures Redecided(t, WithDecision(u, d.(decisionId := id)), decisions + [d])
  {
    assert forall i :: 0 <= i < |decisions| ==> (decisions + [d])[i] == decisions[i];
    NotDecidedBefore(u.decisions, decisions + [d]);
    AlignedAccepted(u, d.(decisionId := id));
  }

  lemma RedecideOne(t: Review, u: ReviewResult, decisions: seq<ReviewDecision>, d: ReviewDecision, id: Id)
    requires Audited(u) && Redecided(t, u.review, decisions) && u.review.run.status == HUMAN_REVIEW
    requires DecidedOnce(decisions + [d])
    requires DecisionAligned(t.core, t.run.runId, EvidenceIds(t.evidence), d)
    ensures RecordDecision(u, d.(decisionId := id)).Ok?
    ensures Audited(RecordDecision(u, d.(decisionId := id)).value)
    ensures Redecided(t, RecordDecision(u, d.(decisionId := id)).value.review, decisions + [d])
  {
    RedecideReview(t, u.review, decisions, d, id);
    JudgementOk(u.review.run.status, Audited(u), DecisionAdded(u.review, d.(decisionId := id)));
    DecisionKeepsAudit(u, d.(decisionId := id));
  }

  /** Decisions that can be replayed on t: one per finding, each aligned with it. */
  ghost predicate Replayable(t: Review, decisions: seq<ReviewDecision>)
  {
    && DecidedOnce(decisions)
    && forall d :: d in decisions ==> DecisionAligned(t.core, t.run.runId, EvidenceIds(t.evidence), d)
  }

  lemma ReplayableFront(t: Review, decisions: seq<ReviewDecision>)
    requires decisions != [] && Replayable(t, decisions)
    ensures Replayable(t, decisions[..|decisions| - 1])
    ensures decisions == decisions[..|decisions| - 1] + [decisions[|decisions| - 1]]
    ensures DecisionAligned(t.core, t.run.runId, EvidenceIds(t.evidence), decisions[|decisions| - 1])
  {
    SnocParts(decisions);
  }

  lemma NothingRedecided(t: Review)
    requires t.decisions == []
    ensures Redecided(t, t, [])
  {
  }

  lemma RedecidedStatus(t: Review, u: Review, decisions: seq<ReviewDecision>)
    requires Redecided(t, u, decisions)
    ensures u.run.status == t.run.status
  {
  }

  lemma ReplayableOnce(t: Review, decisions: seq<ReviewDecision>)
    requires Replayable(t, decisions)
    ensures DecidedOnce(decisions)
  {
  }

  lemma {:induction false} DecisionsReplayed(t: ReviewResult, decisions: seq<ReviewDecision>, freshIds: nat -> Id)
    requires Audited(t) && t.review.decisions == [] && t.review.run.status == HUMAN_REVIEW
    requires Replayable(t.review, decisions)
    ensures ReplayDecisions(t, decisions, freshIds).Ok?
    ensures Audited(ReplayDecisions(t, decisions, freshIds).value)
    ensures Redecided(t.review, ReplayDecisions(t, decisions, freshIds).value.review, decisions)
  {
    hide Audited, Redecided, Replayable, RecordDecision, DecisionAligned;
    if decisions == [] {
      NothingRedecided(t.review);
    } else {
      var n := |decisions| - 1;
      assert DecidedOnce(decisions) by { ReplayableOnce(t.review, decisions); }
      ReplayableFront(t.review, decisions);
      DecisionsReplayed(t, decisions[..n], freshIds);
      RedecidedStatus(t.review, ReplayDecisions(t, decisions[..n], freshIds).value.review, decisions[..n]);
      RedecideOne(t.review, ReplayDecisions(t, decisions[..n], freshIds).value, decisions[..n], decisions[n],
        freshIds(n));
    }
  }

  lemma SameContents(decisions: seq<ReviewDecision>, u: seq<ReviewDecision>)
    requires |u| == |decisions| && forall i :: 0 <= i < |decisions| ==> SameDecision(decisions[i], u[i])
    ensures Map(ContentOf, u) == Map(ContentOf, decisions)
  {
    forall i | 0 <= i < |u| ensures ContentOf(u[i]) == ContentOf(decisions[i]) {
      assert SameDecision(decisions[i], u[i]);
    }
  }

  // ------------------------------------------------------ the final event, replayed

  lemma SameVerdicts(decisions: seq<ReviewDecision>, u: seq<ReviewDecision>)
    requires |u| == |decisions| && forall i :: 0 <= i < |decisions| ==> SameDecision(decisions[i], u[i])
    ensures forall id :: Decided(decisions, id) ==> Decided(u, id)
    ensures (forall d :: d in decisions ==> d.decision != DEFER) ==> forall d :: d in u ==> d.decision != DEFER
  {
    forall id | Decided(decisions, id) ensures Decided(u, id) {
      var d :| d in decisions && d.findingId == id;
      var i :| 0 <= i < |decisions| && decisions[i] == d;
      assert SameDecision(decisions[i], u[i]) && u[i] in u;
    }
    forall d | d in u ensures exists x :: x in decisions && x.decision == d.decision {
      var i :| 0 <= i < |u| && u[i] == d;
      assert SameDecision(decisions[i], u[i]) && decisions[i] in decisions;
    }
  }

  lemma FinishRedone(s: Review, u: Review, details: EventDetails)
    requires u.core == s.core && u.run.status == HUMAN_REVIEW
    requires |u.decisions| == |s.decisions|
    requires forall i :: 0 <= i < |s.decisions| ==> SameDecision(s.decisions[i], u.decisions[i])
    requires !Undecided(s) && NothingDeferred(s)
    ensures Finalized(u, details) == Ok(WithFinalRun(u, Advance(u.run, FINALIZED, details).value))
  {
    SameVerdicts(s.decisions, u.decisions);
  }

  lemma FinalEventExists(run: ReviewRun, known: seq<Id>)
    requires LedgerValid(run, known) && run.status == FINALIZED
    ensures LastFinalEvent(run.stageEvents) == Some(run.stageEvents[|run.stageEvents| - 1])
  {
  }

  lemma FinishReplayed(s: Review, u: ReviewResult, eventId: Id, now: int)
    requires Consistent(s) && s.run.status == FINALIZED && !Undecided(s) && NothingDeferred(s)
    requires Audited(u) && u.review.core == s.core && u.review.run.status == HUMAN_REVIEW
    requires |u.review.decisions| == |s.decisions|
    requires forall i :: 0 <= i < |s.decisions| ==> SameDecision(s.decisions[i], u.review.decisions[i])
    requires CanRecordEvent(u.review, eventId, now)
    ensures var w := ReplayFinish(u, s.run, eventId, now);
      && w.Ok? && Audited(w.value)
      && w.value.review == u.review.(run := w.value.review.run, report := u.review.report.(reviewRequired := false))
      && w.value.review.run.status == FINALIZED && w.value.review.run.runId == u.review.run.runId
  {
    FinalEventExists(s.run, EvidenceIds(s.evidence));
    var e := s.run.stageEvents[|s.run.stageEvents| - 1];
    var details := FinalDetails(u.review, eventId, e.actor, e.reason, now);
    FinishRedone(s, u.review, details);
    JudgementOk(u.review.run.status, Audited(u), Finalized(u.review, details));
    FinalizeKeepsAudit(u, eventId, e.actor, e.reason, now);
  }

  // -------------------------------------------------------------------- the theorem

  lemma SameFingerprint(s: ReviewResult, w: ReviewResult)
    requires Audited(s) && Audited(w) && Alike(s.review, w.review)
    requires Map(ContentOf, w.review.decisions) == Map(ContentOf, s.review.decisions)
    requires w.review.run.status == s.review.run.status
    ensures w.fingerprint == s.fingerprint
  {
    SameContent(s.review, w.review);
  }

  lemma AlikeChain(s: Review, t: Review, u: Review)
    requires Alike(s, t)
    requires u.core == t.core && u.evidence == t.evidence && u.comparisons == t.comparisons
    requires u.revisions == t.revisions && u.sequence == t.sequence && u.run.runId == t.run.runId
    ensures Alike(s, u)
  {
  }

  /** Everything after the attachments succeeds and restores the fingerprint. */
  lemma JudgementsReplayed(s0: Review, t0: Review, s: ReviewResult, t: ReviewResult, judged: bool, supply: Supply)
    requires Audited(s) && Reached(s0, s.review, judged) && Rebuilt(t0, s.review, t)
    requires CanRecordEvent(t0, supply.eventId, supply.now)
    ensures var u := ReplayDecisions(t, s.review.decisions, supply.freshIds);
      && u.Ok?
      && var w := ReplayFinish(u.value, s.review.run, supply.eventId, supply.now);
      && w.Ok? && Audited(w.value) && w.value.fingerprint == s.fingerprint
  {
    SameIds(s.review.evidence, t.review.evidence);
    DecisionsReplayed(t, s.review.decisions, supply.freshIds);
    var u := ReplayDecisions(t, s.review.decisions, supply.freshIds).value;
    SameContents(s.review.decisions, u.review.decisions);
    AlikeChain(s.review, t.review, u.review);
    if s.review.run.status == FINALIZED {
      FinishReplayed(s.review, u, supply.eventId, supply.now);
      var w := ReplayFinish(u, s.review.run, supply.eventId, supply.now).value;
      AlikeChain(s.review, u.review, w.review);
      SameFingerprint(s, w);
    } else {
      SameFingerprint(s, u);
    }
  }

  /** Histories of pending comparisons replay exactly if revisions came first. */
  lemma PendingReplays(s0: ReviewResult, t0: ReviewResult, env: Env, history: seq<Action>, supply: Supply)
    requires NamingLaws(env.names)
    requires Fresh(s0) && Fresh(t0) && Alike(s0.review, t0.review)
    requires Regular(s0, history) && AllPending(env, history) && RunHistory(s0, env, history).Ok?
    requires CanRecordEvent(t0.review, supply.eventId, supply.now)
    ensures var stored := RunHistory(s0, env, history).value;
      var replayed := ReplayReview(t0, env, stored, supply);
      && (replayed.Ok? <==> RevisionsFirst(history))
      && (replayed.Ok? ==> Audited(replayed.value) && replayed.value.fingerprint == stored.fingerprint)
  {
    BaseRebuilt(s0, t0);
    AttachmentsReplayed(s0, t0, env, history, supply.now);
    HistoryReaches(s0, env, history);
    if RevisionsFirst(history) {
      var s := RunHistory(s0, env, history).value;
      var t := RedoneAttachments(t0, env, s.review, supply.now).value;
      JudgementsReplayed(s0.review, t0.review, s, t, Judged(history), supply);
    }
  }

  /** For every history of comparisons, revision sets, decisions and at most one final
      event: replaying it in normal form succeeds, with the same fingerprint, if and only if
      no revision set was attached after a decision or the final event and no change cited
      evidence when it was attached. */
  lemma ReplaySucceedsIff(s0: ReviewResult, t0: ReviewResult, env: Env, history: seq<Action>, supply: Supply)
    requires NamingLaws(env.names)
    requires Fresh(s0) && Fresh(t0) && Alike(s0.review, t0.review)
    requires Regular(s0, history) && RunHistory(s0, env, history).Ok?
    requires CanRecordEvent(t0.review, supply.eventId, supply.now)
    ensures var stored := RunHistory(s0, env, history).value;
      var replayed := ReplayReview(t0, env, stored, supply);
      && (replayed.Ok? <==> RevisionsFirst(history) && AllPending(env, history))
      && (replayed.Ok? ==> Audited(replayed.value) && replayed.value.fingerprint == stored.fingerprint)
  {
    hide RevisionsFirst, AllPending, Fresh, Alike, Regular, ReplayReview, RunHistory, CanRecordEvent;
    if ReplayReview(t0, env, RunHistory(s0, env, history).value, supply).Ok? {
      ReplayNeedsPending(s0, t0, env, history, supply);
    }
    if AllPending(env, history) {
      PendingReplays(s0, t0, env, history, supply);
    }
  }
}
