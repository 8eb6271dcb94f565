/**
 The four human actions on a review result: attaching a version comparison,
 attaching a revision set, recording a decision and finalizing.
 */
module ReviewActions {
  import opened Ordering
  import opened ReviewModel
  import opened VersionImpacts
  import opened RunLedger

  /** How identifiers are derived from identifiers.  join(c, x) is "{c}-{x}";
      isPending recognises the prefix "comparison-pending-". */
  datatype Naming = Naming(join: (Id, Id) -> Id, isPending: Id -> bool, pendingFor: Id -> Id)

  ghost predicate NamingLaws(names: Naming)
  {
    && (forall c, x, y :: names.join(c, x) == names.join(c, y) ==> x == y)
    && (forall x :: names.isPending(names.pendingFor(x)))
  }

  datatype Env = Env(judge: TextJudge, names: Naming)

  /** The change id that would collide with the summary of its comparison. */
  const SUMMARY: Id := 1

  const FINALIZE_REVIEW: Text := 0

  // ------------------------------------------------------------- binding a change

  function LocatedIn(clauses: seq<Clause>, documentId: Id, judge: TextJudge, text: string): seq<Id>
  {
    if clauses == [] then []
    else
      var rest := LocatedIn(clauses[..|clauses| - 1], documentId, judge, text);
      var last := clauses[|clauses| - 1];
      if last.documentId == documentId && judge.locates(last.text, text) then rest + [last.clauseId] else rest
  }

  function LocatedSide(core: Snapshot, judge: TextJudge, sha: Id, text: string): seq<Id>
  {
    var document := LastByHash(core.documents, sha);
    if document.None? then [] else LocatedIn(core.clauses, document.value.documentId, judge, text)
  }

  function Located(core: Snapshot, judge: TextJudge, c: Comparison, change: VersionChange): seq<Id>
  {
    LocatedSide(core, judge, c.baseSha256, change.baseText)
      + LocatedSide(core, judge, c.compareSha256, change.compareText)
  }

  function BoundClauseIds(core: Snapshot, judge: TextJudge, c: Comparison, change: VersionChange): seq<Id>
  {
    Dedup(Dedup(change.clauseIds) + Located(core, judge, c, change))
  }

  /** Binding is idempotent: rebinding a bound change finds nothing new. */
  lemma BindingIdempotent(core: Snapshot, judge: TextJudge, c: Comparison, change: VersionChange)
    ensures var bound := change.(clauseIds := BoundClauseIds(core, judge, c, change));
      BoundClauseIds(core, judge, c, bound) == bound.clauseIds
  {
    var located := Located(core, judge, c, change);
    var ids := BoundClauseIds(core, judge, c, change);
    DedupDistinct(Dedup(change.clauseIds) + located);
    DedupOfDistinct(ids);
    forall x | x in located ensures x in ids {
      assert x in Dedup(change.clauseIds) + located;
    }
    DedupAbsorbs(ids, located);
  }

  function Requested(names: Naming, ids: seq<Id>): seq<Id>
  {
    if ids == [] then []
    else
      var rest := Requested(names, ids[..|ids| - 1]);
      if names.isPending(ids[|ids| - 1]) then rest else rest + [ids[|ids| - 1]]
  }

  function ComparisonEvidence(core: Snapshot, id: Id, excerpt: string, now: int): Evidence
  {
    Evidence(id, COMPARISON, Some(core.packageId), None, None, None, map[], excerpt, now)
  }

  function ChangeExcerpt(change: VersionChange): string
  {
    change.baseText + "\n" + change.compareText
  }

  datatype Binding = Binding(changes: seq<VersionChange>, evidence: seq<Evidence>)

  function BindChange(r: Review, env: Env, c: Comparison, change: VersionChange, now: int): Outcome<Binding>
  {
    var clauseIds := BoundClauseIds(r.core, env.judge, c, change);
    var requested := Requested(env.names, change.evidenceIds);
    var id := env.names.join(c.comparisonId, change.changeId);
    if exists x :: x in clauseIds && x !in ClauseIds(r.core) then Err(UnknownClause)
    else if requested != [] then
      if exists x :: x in requested && x !in EvidenceIds(r.evidence) then Err(UnknownEvidence)
      else if exists e :: e in r.evidence && e.evidenceId in requested && e.evidenceType != COMPARISON then
        Err(NotComparisonEvidence)
      else Ok(Binding([change.(evidenceIds := Dedup(requested), clauseIds := clauseIds)], []))
    else if id in EvidenceIds(r.evidence) then Err(EvidenceIdTaken)
    else
      Ok(Binding([change.(evidenceIds := [id], clauseIds := clauseIds)],
                 [ComparisonEvidence(r.core, id, ChangeExcerpt(change), now)]))
  }

  type Binder = VersionChange -> Outcome<Binding>

  function BinderOf(r: Review, env: Env, c: Comparison, now: int): Binder
  {
    change => BindChange(r, env, c, change, now)
  }

  /** Changes are bound in order; the first failure is reported. */
  function BindChanges(bind: Binder, changes: seq<VersionChange>): Outcome<Binding>
  {
    if changes == [] then Ok(Binding([], []))
    else
      var front := BindChanges(bind, changes[..|changes| - 1]);
      if front.Err? then front
      else
        var last := bind(changes[|changes| - 1]);
        if last.Err? then last
        else Ok(Binding(front.value.changes + last.value.changes, front.value.evidence + last.value.evidence))
  }

  method BindAllChanges(bind: Binder, all: seq<VersionChange>) returns (result: Outcome<Binding>)
    ensures result == BindChanges(bind, all)
  {
    var changes: seq<VersionChange> := [];
    var evidence: seq<Evidence> := [];
    for n := 0 to |all|
      invariant BindChanges(bind, all[..n]) == Ok(Binding(changes, evidence))
    {
      assert all[..n + 1][..n] == all[..n];
      var bound := bind(all[n]);
      if bound.Err? {
        FailureSticks(bind, all, n + 1);
        return bound;
      }
      changes := changes + bound.value.changes;
      evidence := evidence + bound.value.evidence;
    }
    assert all[..|all|] == all;
    return Ok(Binding(changes, evidence));
  }

  lemma {:induction false} FailureSticks(bind: Binder, changes: seq<VersionChange>, n: nat)
    requires n <= |changes|
    requires BindChanges(bind, changes[..n]).Err?
    ensures BindChanges(bind, changes) == BindChanges(bind, changes[..n])
    decreases |changes| - n
  {
    if n < |changes| {
      assert changes[..n + 1][..n] == changes[..n];
      FailureSticks(bind, changes, n + 1);
    } else {
      assert changes[..n] == changes;
    }
  }

  // ------------------------------------------------------------------ the two gates

  /** An attachment is audited before and after. */
  function Gated(audited: bool, updated: Outcome<Review>): Outcome<ReviewResult>
  {
    if !audited then Err(NotAuditable)
    else if updated.Err? then Err(updated.error)
    else if Audited(Sealed(updated.value)) then Ok(Sealed(updated.value))
    else Err(RejectedByGate)
  }

  /** A judgement needs an open human review and is audited before, not after. */
  function Judgement(status: ReviewStatus, audited: bool, updated: Outcome<Review>): Outcome<ReviewResult>
  {
    if status != HUMAN_REVIEW then Err(WrongStatus)
    else if !audited then Err(NotAuditable)
    else if updated.Err? then Err(updated.error)
    else Ok(Sealed(updated.value))
  }

  /** Sealing makes the fingerprint check succeed, so only the other checks matter. */
  lemma SealedAudit(r: Review)
    ensures Audited(Sealed(r)) == Consistent(r)
  {
  }

  lemma GatedOk(audited: bool, updated: Outcome<Review>)
    ensures Gated(audited, updated).Ok? <==> audited && updated.Ok? && Consistent(updated.value)
    ensures Gated(audited, updated).Ok? ==> Gated(audited, updated).value == Sealed(updated.value)
  {
    if updated.Ok? { SealedAudit(updated.value); }
  }

  lemma JudgementOk(status: ReviewStatus, audited: bool, updated: Outcome<Review>)
    ensures Judgement(status, audited, updated).Ok? <==> status == HUMAN_REVIEW && audited && updated.Ok?
    ensures Judgement(status, audited, updated).Ok? ==>
              Judgement(status, audited, updated).value == Sealed(updated.value)
  {
  }

  // -------------------------------------------------------- attaching a comparison

  function SummaryId(env: Env, c: Comparison): Id { env.names.join(c.comparisonId, SUMMARY) }

  function NewEvidence(core: Snapshot, env: Env, c: Comparison, b: Binding, now: int): seq<Evidence>
  {
    [ComparisonEvidence(core, SummaryId(env, c), "", now)] + b.evidence
  }

  ghost function BoundComparison(core: Snapshot, env: Env, c: Comparison, changes: seq<VersionChange>): Comparison
  {
    var impacts := Impacts(core, env.judge, LinkingOf(core, env.judge), c, changes);
    c.(changes := changes,
       evidenceIds := Dedup([SummaryId(env, c)] + EvidenceOfChanges(changes)),
       impacts := impacts,
       retriggerRuleIds := Retrigger(core, impacts))
  }

  function WithComparison(r: Review, added: seq<Evidence>, c: Comparison): Review
  {
    var comparisons := r.comparisons + [c];
    r.(
      evidence := r.evidence + added,
      comparisons := comparisons,
      sequence := r.sequence + [ComparisonRef(c.comparisonId)],
      run := r.run.(comparisonIds := ComparisonIds(comparisons)),
      report := r.report.(comparisonIds := ComparisonIds(comparisons)))
  }

  /** The checks between the audit and the binding of the changes. */
  function AttachCheck(r: Review, env: Env, c: Comparison): Option<Error>
  {
    var base := FirstByHash(r.core.documents, c.baseSha256);
    var compare := FirstByHash(r.core.documents, c.compareSha256);
    if c.runId != r.run.runId then Some(ForeignRun)
    else if base.None? then Some(UnknownBaseDocument)
    else if c.baseFilename != base.value.filename then Some(FilenameMismatch)
    else if compare.Some? && c.compareFilename != compare.value.filename then Some(FilenameMismatch)
    else if c.comparisonId in ComparisonIds(r.comparisons) then Some(AlreadyAttached)
    else if !AllIn(c.findingIds, FindingIds(r.core.findings)) then Some(UnknownFinding)
    else if !Distinct(ChangeIds(c.changes)) then Some(DuplicateChange)
    else if SummaryId(env, c) in EvidenceIds(r.evidence) then Some(EvidenceIdTaken)
    else None
  }

  /** The updated review, before the second audit. */
  ghost function ComparisonAdded(r: Review, env: Env, c: Comparison, now: int): Outcome<Review>
  {
    var failed := AttachCheck(r, env, c);
    if failed.Some? then Err(failed.value)
    else
      var b := BindChanges(BinderOf(r, env, c, now), c.changes);
      if b.Err? then Err(b.error)
      else Ok(WithComparison(r, NewEvidence(r.core, env, c, b.value, now),
                             BoundComparison(r.core, env, c, b.value.changes)))
  }

  ghost function AttachComparison(s: ReviewResult, env: Env, c: Comparison, now: int): Outcome<ReviewResult>
  {
    Gated(Audited(s), ComparisonAdded(s.review, env, c, now))
  }

  method AttachVersionComparison(s: ReviewResult, env: Env, c: Comparison, now: int)
    returns (result: Outcome<ReviewResult>)
    ensures result == AttachComparison(s, env, c, now)
  {
    if !Audited(s) {
      return Err(NotAuditable);
    }
    var updated := AddComparison(s.review, env, c, now);
    if updated.Err? {
      return Err(updated.error);
    }
    if !Audited(Sealed(updated.value)) {
      return Err(RejectedByGate);
    }
    return Ok(Sealed(updated.value));
  }

  method AddComparison(r: Review, env: Env, c: Comparison, now: int) returns (result: Outcome<Review>)
    ensures result == ComparisonAdded(r, env, c, now)
  {
    var failed := AttachCheck(r, env, c);
    if failed.Some? {
      return Err(failed.value);
    }
    var b := BindAllChanges(BinderOf(r, env, c, now), c.changes);
    if b.Err? {
      return Err(b.error);
    }
    var impacts, retrigger :=
      BuildVersionImpacts(r.core, env.judge, LinkingOf(r.core, env.judge), c, b.value.changes);
    var bound := c.(changes := b.value.changes,
                    evidenceIds := Dedup([SummaryId(env, c)] + EvidenceOfChanges(b.value.changes)),
                    impacts := impacts, retriggerRuleIds := retrigger);
    return Ok(WithComparison(r, NewEvidence(r.core, env, c, b.value, now), bound));
  }

  // -------------------------------------------------------- attaching a revision set

  function WithRevision(r: Review, v: RevisionSet): Review
  {
    var revisions := r.revisions + [v];
    r.(
      revisions := revisions,
      sequence := r.sequence + [RevisionRef(v.revisionId)],
      run := r.run.(revisionIds := RevisionIds(revisions)),
      report := r.report.(revisionIds := RevisionIds(revisions)))
  }

  function RevisionAdded(r: Review, fingerprint: Option<Digest>, v: RevisionSet): Outcome<Review>
  {
    if v.runId != r.run.runId then Err(ForeignRun)
    else if fingerprint != Some(v.baseFingerprint) then Err(BaseFingerprintMismatch)
    else if v.revisionId in RevisionIds(r.revisions) then Err(AlreadyAttached)
    else Ok(WithRevision(r, v))
  }

  function AttachRevision(s: ReviewResult, v: RevisionSet): Outcome<ReviewResult>
  {
    Gated(Audited(s), RevisionAdded(s.review, s.fingerprint, v))
  }

  // --------------------------------------------------------------------- decisions

  function FindFinding(findings: seq<Finding>, id: Id): (f: Option<Finding>)
    ensures f.None? <==> forall x :: x in findings ==> x.findingId != id
    ensures f.Some? ==> f.value in findings && f.value.findingId == id
  {
    if findings == [] then None
    else if findings[0].findingId == id then Some(findings[0])
    else FindFinding(findings[1..], id)
  }

  predicate Decided(decisions: seq<ReviewDecision>, findingId: Id)
  {
    exists d :: d in decisions && d.findingId == findingId
  }

  function WithDecision(r: Review, d: ReviewDecision): Review
  {
    var decisions := r.decisions + [d];
    r.(
      decisions := decisions,
      run := r.run.(decisionIds := DecisionIds(decisions)),
      report := r.report.(decisionIds := DecisionIds(decisions)))
  }

  function SelectedEvidence(finding: Finding, d: ReviewDecision): seq<Id>
  {
    if d.evidenceIds != [] then d.evidenceIds else finding.evidenceIds
  }

  function DecisionAdded(r: Review, d: ReviewDecision): Outcome<Review>
  {
    var finding := FindFinding(r.core.findings, d.findingId);
    if finding.None? then Err(UnknownFinding)
    else if Decided(r.decisions, d.findingId) then Err(AlreadyDecided)
    else
      var selected := SelectedEvidence(finding.value, d);
      if selected == [] || !AllIn(selected, EvidenceIds(r.evidence)) then Err(UnknownEvidence)
      else if !Intersects(selected, finding.value.evidenceIds) then Err(UnknownEvidence)
      else Ok(WithDecision(r, d.(runId := r.run.runId, evidenceIds := selected)))
  }

  /** record_review_decision: `d` carries what the caller supplies; an empty evidence
      list stands for the evidence of the finding. */
  function RecordDecision(s: ReviewResult, d: ReviewDecision): Outcome<ReviewResult>
  {
    Judgement(s.review.run.status, Audited(s), DecisionAdded(s.review, d))
  }

  // ------------------------------------------------------------------ finalization

  predicate Actionable(f: Finding) { f.status == WARN || f.status == BLOCK || f.status == UNKNOWN }

  function EvidenceOfDecisions(decisions: seq<ReviewDecision>): seq<Id>
  {
    if decisions == [] then []
    else EvidenceOfDecisions(decisions[..|decisions| - 1]) + decisions[|decisions| - 1].evidenceIds
  }

  function WithFinalRun(r: Review, run: ReviewRun): Review
  {
    r.(run := run, report := r.report.(reviewRequired := false))
  }

  function FinalDetails(r: Review, eventId: Id, actor: Id, comment: Text, now: int): EventDetails
  {
    EventDetails(eventId, FINALIZE_REVIEW, actor, comment, EvidenceOfDecisions(r.decisions), now)
  }

  predicate Undecided(r: Review)
  {
    exists f :: f in r.core.findings && Actionable(f) && !Decided(r.decisions, f.findingId)
  }

  function Finalized(r: Review, details: EventDetails): Outcome<Review>
  {
    if Undecided(r) then Err(MissingDecision)
    else if exists d :: d in r.decisions && d.decision == DEFER then Err(Deferred)
    else
      var run := Advance(r.run, FINALIZED, details);
      if run.Err? then Err(run.error) else Ok(WithFinalRun(r, run.value))
  }

  function Finalize(s: ReviewResult, eventId: Id, actor: Id, comment: Text, now: int): Outcome<ReviewResult>
  {
    Judgement(s.review.run.status, Audited(s),
      Finalized(s.review, FinalDetails(s.review, eventId, actor, comment, now)))
  }
}
