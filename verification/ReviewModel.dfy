/**
 The review result, its canonical content, its fingerprint and its audit.

 Identifiers, file names and file hashes are `Id`s.  SHA-256 is symbolic: a digest is a
 term built from the hashed content, so it is collision free and nothing else is
 known about it.  The parts of a result that no human action touches are gathered
 in `Snapshot`; what the audit checks about the parts left out of this model is
 the flag `rest.sound` and the evidence ids they cite, `rest.references`.
 */
module ReviewModel {
  import opened Ordering

  /** Free text that is only stored and compared. */
  type Text = int

  datatype Outcome<+T> = Ok(value: T) | Err(error: Error)

  datatype Error =
    | NotAuditable | ForeignRun | UnknownBaseDocument | FilenameMismatch | AlreadyAttached
    | UnknownFinding | DuplicateChange | EvidenceIdTaken | UnknownClause | UnknownEvidence
    | NotComparisonEvidence | RejectedByGate | BaseFingerprintMismatch | WrongStatus
    | AlreadyDecided | MissingDecision | Deferred | UnknownAttachment | InvalidTransition
    | LedgerDiverged | FingerprintMismatch | MalformedChange

  datatype FindingStatus = PASS | WARN | BLOCK | UNKNOWN | NOT_APPLICABLE
  datatype DecisionType = ACCEPT | REJECT | WAIVE | DEFER
  datatype ReviewStatus =
    | RECEIVED | PARSED | QUALITY_GATED | INDEXED | EXTRACTED | RULE_CHECKED
    | SEMANTIC_REVIEWED | HUMAN_REVIEW | FINALIZED | FAILED
  datatype EvidenceType =
    | TEXT | TABLE_CELL | VISUAL_REGION | MISSING_ARTIFACT | COMPARISON | EXTERNAL_REFERENCE
  datatype ImpactLevel = INCREASED | DECREASED | UNCHANGED | UNCLEAR | REQUIRES_REVIEW
  datatype Precedence = BaseWins | CompareWins | Unresolved | NotRequired

  // ------------------------------------------------------ the reviewed snapshot

  datatype Document = Document(documentId: Id, filename: Id, sourceSha256: Id, pageCount: nat)
  datatype Checker = PaymentTerms | DeliveryTerms | AcceptanceTerms | BreachLiability | OtherChecker(name: Id)

  datatype Clause = Clause(clauseId: Id, documentId: Id, text: string)
  datatype Obligation = Obligation(obligationId: Id, clauseId: Id, summary: string)
  datatype Rule = Rule(ruleId: Id, checker: Option<Checker>, markers: seq<string>, obligationLabel: string)
  datatype Finding = Finding(findingId: Id, ruleId: Id, status: FindingStatus, evidenceIds: seq<Id>,
                             clauseIds: seq<Id>)
  /** A record that no human action touches, and one with its time of creation. */
  datatype Record = Record(id: Id, content: Text)
  datatype Dated = Dated(record: Record, createdAt: int)

  /** The other collections of a result: what parsing, retrieval, the evidence gate and fact
      extraction left behind. */
  datatype Archive = Archive(
    chunks: seq<Record>, traces: seq<Dated>, candidates: seq<Record>, assessments: seq<Record>,
    attachments: seq<Record>, facts: seq<Dated>, relations: seq<Record>, questions: seq<Record>, answers: seq<Record>)

  datatype Rest = Rest(sound: bool, references: set<Id>)

  datatype Snapshot = Snapshot(
    packageId: Id, documents: seq<Document>, precedence: seq<Id>, clauses: seq<Clause>,
    obligations: seq<Obligation>, rules: seq<Rule>, selectedRuleIds: Option<seq<Id>>,
    findings: seq<Finding>, archive: Archive, rest: Rest)

  datatype Evidence = Evidence(
    evidenceId: Id, evidenceType: EvidenceType, packageId: Option<Id>, documentId: Option<Id>,
    sourceSha256: Option<Id>, pageNumber: Option<nat>, sourceDocuments: map<Id, Id>,
    excerpt: string, capturedAt: int)

  // ------------------------------------------------------ human actions' records

  datatype ReviewDecision = ReviewDecision(
    decisionId: Id, runId: Id, findingId: Id, decision: DecisionType, actorId: Id, actorRole: Text,
    comment: Text, evidenceIds: seq<Id>, decidedAt: int)

  datatype VersionChange = VersionChange(
    changeId: Id, baseText: string, compareText: string, evidenceIds: seq<Id>, clauseIds: seq<Id>)

  datatype ImpactId = ImpactHash(comparisonId: Id, ruleKey: Id, evidenceIds: seq<Id>)

  datatype RiskLevels = RiskLevels(payment: ImpactLevel, liability: ImpactLevel,
                                   liabilityCap: ImpactLevel, deliveryAcceptance: ImpactLevel)

  datatype VersionImpact = VersionImpact(
    impactId: ImpactId, ruleId: Option<Id>, changeIds: seq<Id>, obligationIds: seq<Id>,
    changedObligations: seq<string>, risks: RiskLevels, precedence: Precedence, evidenceIds: seq<Id>)

  datatype Comparison = Comparison(
    comparisonId: Id, runId: Id, baseFilename: Id, compareFilename: Id, baseSha256: Id,
    compareSha256: Id, changes: seq<VersionChange>, evidenceIds: seq<Id>, findingIds: seq<Id>,
    impacts: seq<VersionImpact>, retriggerRuleIds: seq<Id>, createdAt: int)

  datatype RevisionChange = RevisionChange(
    changeId: Id, findingId: Id, clauseId: Option<Id>, proposal: string, evidenceIds: seq<Id>)

  datatype RevisionSet = RevisionSet(
    revisionId: Id, runId: Id, baseFingerprint: Digest, changes: seq<RevisionChange>,
    revisionFingerprint: Option<Id>, createdAt: int)

  datatype Attachment = ComparisonRef(id: Id) | RevisionRef(id: Id)

  // ------------------------------------------------------ run, report and result

  datatype SubjectType = ReviewRunSubject | AsyncTaskSubject

  datatype StageEvent = StageEvent(
    eventId: Id, subjectType: SubjectType, subjectId: Id, fromStage: Option<ReviewStatus>,
    toStage: ReviewStatus, action: Text, actor: Id, reason: Text, evidenceIds: seq<Id>,
    occurredAt: int)

  datatype ReviewRun = ReviewRun(
    runId: Id, status: ReviewStatus, stageEvents: seq<StageEvent>, finishedAt: Option<int>,
    findingIds: seq<Id>, decisionIds: seq<Id>, comparisonIds: seq<Id>, revisionIds: seq<Id>)

  datatype ReviewReport = ReviewReport(
    runId: Id, overallStatus: FindingStatus, findingCounts: map<FindingStatus, nat>,
    findingIds: seq<Id>, decisionIds: seq<Id>, comparisonIds: seq<Id>, revisionIds: seq<Id>,
    reviewRequired: bool)

  /** Everything in a review result except the fingerprint stored in its run. */
  datatype Review = Review(
    core: Snapshot, evidence: seq<Evidence>, decisions: seq<ReviewDecision>,
    comparisons: seq<Comparison>, revisions: seq<RevisionSet>, sequence: seq<Attachment>,
    run: ReviewRun, report: ReviewReport)

  datatype ReviewResult = ReviewResult(review: Review, fingerprint: Option<Digest>)

  // --------------------------------------------------------------- fingerprint

  datatype DecisionContent = DecisionContent(
    findingId: Id, decision: DecisionType, actorId: Id, actorRole: Text, comment: Text,
    evidenceIds: seq<Id>)

  /** The payload that is hashed: sorted collections, no wall-clock times, no
      run-instance identifiers. */
  datatype Canonical = Canonical(
    packageId: Id, documents: seq<Document>, precedence: seq<Id>, clauses: seq<Clause>,
    obligations: seq<Obligation>, rules: seq<Rule>, selectedRuleIds: Option<seq<Id>>,
    findings: seq<Finding>, archive: Archive, rest: Rest,
    evidence: seq<Evidence>, decisions: seq<DecisionContent>, comparisons: seq<Comparison>,
    revisions: seq<RevisionSet>, sequence: seq<Attachment>,
    status: ReviewStatus, runComparisonIds: seq<Id>, runRevisionIds: seq<Id>,
    overallStatus: FindingStatus, findingCounts: map<FindingStatus, nat>, reportFindingIds: seq<Id>,
    reportComparisonIds: seq<Id>, reportRevisionIds: seq<Id>, reviewRequired: bool)

  datatype Digest = Sha256(content: Canonical)

  function Timeless(e: Evidence): Evidence { e.(capturedAt := 0) }

  function TimelessComparison(c: Comparison): Comparison { c.(createdAt := 0) }

  function TimelessRevision(v: RevisionSet): RevisionSet { v.(createdAt := 0) }

  function ContentOf(d: ReviewDecision): DecisionContent
  {
    DecisionContent(d.findingId, d.decision, d.actorId, d.actorRole, d.comment, SortIds(d.evidenceIds))
  }

  // The identifiers the collections are sorted by.
  function DocumentKey(d: Document): Id { d.documentId }
  function ClauseKey(c: Clause): Id { c.clauseId }
  function ObligationKey(o: Obligation): Id { o.obligationId }
  function FindingKey(f: Finding): Id { f.findingId }
  function EvidenceKey(e: Evidence): Id { e.evidenceId }
  function DecisionKey(d: DecisionContent): Id { d.findingId }

  function RecordKey(x: Record): Id { x.id }

  function DatedKey(x: Dated): Id { x.record.id }

  function Undated(x: Dated): Dated { x.(createdAt := 0) }

  /** Every collection sorted by its ids, times of creation left out. */
  function CanonicalArchive(a: Archive): Archive
  {
    Archive(
      SortByKey(RecordKey, a.chunks), SortByKey(DatedKey, Map(Undated, a.traces)), SortByKey(RecordKey, a.candidates),
      SortByKey(RecordKey, a.assessments), SortByKey(RecordKey, a.attachments),
      SortByKey(DatedKey, Map(Undated, a.facts)), SortByKey(RecordKey, a.relations),
      SortByKey(RecordKey, a.questions), SortByKey(RecordKey, a.answers))
  }

  function CanonicalContent(r: Review): Canonical
  {
    Canonical(
      r.core.packageId,
      SortByKey(DocumentKey, r.core.documents),
      r.core.precedence,
      SortByKey(ClauseKey, r.core.clauses),
      SortByKey(ObligationKey, r.core.obligations),
      r.core.rules, r.core.selectedRuleIds,
      SortByKey(FindingKey, r.core.findings),
      CanonicalArchive(r.core.archive),
      r.core.rest,
      SortByKey(EvidenceKey, Map(Timeless, r.evidence)),
      SortByKey(DecisionKey, Map(ContentOf, r.decisions)),
      Map(TimelessComparison, r.comparisons),
      Map(TimelessRevision, r.revisions),
      r.sequence,
      r.run.status, r.run.comparisonIds, r.run.revisionIds,
      r.report.overallStatus, r.report.findingCounts, SortIds(r.report.findingIds),
      SortIds(r.report.comparisonIds), SortIds(r.report.revisionIds), r.report.reviewRequired)
  }

  function Fingerprint(r: Review): Digest { Sha256(CanonicalContent(r)) }

  /** Every action ends by storing the fingerprint of the result it produced. */
  function Sealed(r: Review): ReviewResult { ReviewResult(r, Some(Fingerprint(r))) }

  // ------------------------------------------------------------------- id views

  function EvidenceIds(evidence: seq<Evidence>): (ids: seq<Id>)
    ensures |ids| == |evidence|
    ensures forall i {:trigger ids[i]} :: 0 <= i < |evidence| ==> ids[i] == evidence[i].evidenceId
  {
    Map((e: Evidence) => e.evidenceId, evidence)
  }

  function ChangeIds(changes: seq<VersionChange>): (ids: seq<Id>)
    ensures |ids| == |changes|
    ensures forall i {:trigger ids[i]} :: 0 <= i < |changes| ==> ids[i] == changes[i].changeId
  {
    Map((c: VersionChange) => c.changeId, changes)
  }

  function ComparisonIds(comparisons: seq<Comparison>): (ids: seq<Id>)
    ensures |ids| == |comparisons|
    ensures forall i {:trigger ids[i]} :: 0 <= i < |comparisons| ==> ids[i] == comparisons[i].comparisonId
  {
    Map((c: Comparison) => c.comparisonId, comparisons)
  }

  function RevisionIds(revisions: seq<RevisionSet>): (ids: seq<Id>)
    ensures |ids| == |revisions|
    ensures forall i {:trigger ids[i]} :: 0 <= i < |revisions| ==> ids[i] == revisions[i].revisionId
  {
    Map((v: RevisionSet) => v.revisionId, revisions)
  }

  function FindingIds(findings: seq<Finding>): (ids: seq<Id>)
    ensures |ids| == |findings|
    ensures forall i {:trigger ids[i]} :: 0 <= i < |findings| ==> ids[i] == findings[i].findingId
  {
    Map((f: Finding) => f.findingId, findings)
  }

  function RuleIds(core: Snapshot): set<Id> { set r | r in core.rules :: r.ruleId }

  function ClauseIds(core: Snapshot): set<Id> { set c | c in core.clauses :: c.clauseId }

  /** The rules that take part in this run: the configured whitelist, or all. */
  function ActiveRuleIds(core: Snapshot): (active: set<Id>)
    ensures active <= RuleIds(core)
  {
    if core.selectedRuleIds.Some? && core.selectedRuleIds.value != [] then
      set id | id in core.selectedRuleIds.value && id in RuleIds(core)
    else RuleIds(core)
  }

  /** documents_by_hash: the last document with a given hash wins. */
  function LastByHash(documents: seq<Document>, sha: Id): (d: Option<Document>)
    ensures d.None? <==> forall x :: x in documents ==> x.sourceSha256 != sha
    ensures d.Some? ==> d.value in documents && d.value.sourceSha256 == sha
  {
    if documents == [] then None
    else if documents[|documents| - 1].sourceSha256 == sha then Some(documents[|documents| - 1])
    else LastByHash(documents[..|documents| - 1], sha)
  }

  /** next(document for document in documents if its hash matches). */
  function FirstByHash(documents: seq<Document>, sha: Id): (d: Option<Document>)
    ensures d.None? <==> forall x :: x in documents ==> x.sourceSha256 != sha
    ensures d.Some? ==> d.value in documents && d.value.sourceSha256 == sha
  {
    if documents == [] then None
    else if documents[0].sourceSha256 == sha then Some(documents[0])
    else FirstByHash(documents[1..], sha)
  }

  // ---------------------------------------------------------------------- audit

  predicate SnapshotIntegrity(core: Snapshot)
  {
    && core.rest.sound
    && Distinct(FindingIds(core.findings))
    && (forall f :: f in core.findings ==> f.ruleId in RuleIds(core))
    && (forall i, j :: 0 <= i < j < |core.obligations| ==>
          core.obligations[i].obligationId != core.obligations[j].obligationId)
    && (forall o :: o in core.obligations ==> o.clauseId in ClauseIds(core))
  }

  predicate DocumentMatches(core: Snapshot, e: Evidence)
  {
    e.documentId.Some? ==>
      && exists d ::
        && d in core.documents && d.documentId == e.documentId.value
        && e.sourceSha256 == Some(d.sourceSha256)
        && (e.pageNumber.Some? && d.pageCount != 0 ==> e.pageNumber.value <= d.pageCount)
  }

  predicate Provenance(core: Snapshot, e: Evidence)
  {
    && (e.packageId.Some? ==> e.packageId.value == core.packageId)
    && DocumentMatches(core, e)
    && (forall id :: id in e.sourceDocuments ==>
          exists d :: d in core.documents && d.documentId == id && d.sourceSha256 == e.sourceDocuments[id])
  }

  predicate AllIn(ids: seq<Id>, known: seq<Id>)
  {
    forall x :: x in ids ==> x in known
  }

  predicate ComparisonReferences(c: Comparison, known: seq<Id>)
  {
    AllIn(c.evidenceIds, known) && forall ch :: ch in c.changes ==> AllIn(ch.evidenceIds, known)
  }

  predicate RevisionReferences(v: RevisionSet, known: seq<Id>)
  {
    forall ch :: ch in v.changes ==> AllIn(ch.evidenceIds, known)
  }

  predicate References(r: Review, known: seq<Id>)
  {
    && (forall x :: x in r.core.rest.references ==> x in known)
    && (forall f :: f in r.core.findings ==> AllIn(f.evidenceIds, known))
    && (forall e :: e in r.run.stageEvents ==> AllIn(e.evidenceIds, known))
    && (forall c :: c in r.comparisons ==> ComparisonReferences(c, known))
    && (forall v :: v in r.revisions ==> RevisionReferences(v, known))
  }

  function ImpactRuleIds(impacts: seq<VersionImpact>): seq<Id>
  {
    if impacts == [] then []
    else
      var rest := ImpactRuleIds(impacts[..|impacts| - 1]);
      var last := impacts[|impacts| - 1];
      if last.ruleId.Some? then rest + [last.ruleId.value] else rest
  }

  predicate HasUnmapped(impacts: seq<VersionImpact>)
  {
    exists i :: i in impacts && i.ruleId.None?
  }

  /** The rules the audit expects to be retriggered for a list of impacts. */
  function ExpectedRetrigger(core: Snapshot, impacts: seq<VersionImpact>): set<Id>
  {
    Elements(ImpactRuleIds(impacts)) +
    (if HasUnmapped(impacts) then ActiveRuleIds(core) else {})
  }

  predicate SourcesMatch(core: Snapshot, c: Comparison)
  {
    var base := LastByHash(core.documents, c.baseSha256);
    var compare := LastByHash(core.documents, c.compareSha256);
    && base.Some? && c.baseFilename == base.value.filename
    && (compare.Some? ==> c.compareFilename == compare.value.filename)
  }

  predicate ImpactsCoverChanges(changes: seq<VersionChange>, impacts: seq<VersionImpact>)
  {
    && (forall i, id :: i in impacts && id in i.changeIds ==> id in ChangeIds(changes))
    && (forall id :: id in ChangeIds(changes) ==> exists i :: i in impacts && id in i.changeIds)
    && (changes == [] ==> impacts == [])
    && (forall i :: i in impacts ==> Distinct(i.changeIds))
  }

  /** Obligation id belongs to a clause that one of the named changes touches. */
  predicate Touched(core: Snapshot, changes: seq<VersionChange>, changeIds: seq<Id>, id: Id)
  {
    exists o, ch :: o in core.obligations && o.obligationId == id
      && ch in changes && ch.changeId in changeIds && o.clauseId in ch.clauseIds
  }

  predicate ObligationsTouched(core: Snapshot, changes: seq<VersionChange>, i: VersionImpact)
  {
    forall id :: id in i.obligationIds ==> Touched(core, changes, i.changeIds, id)
  }

  predicate ComparisonIntegrity(core: Snapshot, runId: Id, evidence: seq<Evidence>, c: Comparison)
  {
    && c.runId == runId
    && SourcesMatch(core, c)
    && AllIn(c.findingIds, FindingIds(core.findings))
    && c.evidenceIds != []
    && Distinct(ImpactRuleIds(c.impacts))
    && Elements(c.retriggerRuleIds) == ExpectedRetrigger(core, c.impacts)
    && Distinct(c.retriggerRuleIds)
    && (forall i, j :: 0 <= i < j < |c.impacts| ==> c.impacts[i].impactId != c.impacts[j].impactId)
    && (forall x :: x in ImpactRuleIds(c.impacts) ==> x in RuleIds(core))
    && ImpactsCoverChanges(c.changes, c.impacts)
    && (c.changes == [] ==> c.retriggerRuleIds == [])
    && (forall i :: i in c.impacts ==> i.evidenceIds != [] && AllIn(i.evidenceIds, c.evidenceIds))
    && (forall i :: i in c.impacts ==> ObligationsTouched(core, c.changes, i))
    && (forall id :: id in c.evidenceIds ==>
          exists e :: e in evidence && e.evidenceId == id && e.evidenceType == COMPARISON)
    && Distinct(ChangeIds(c.changes))
    && (forall ch :: ch in c.changes ==>
          && (ch.baseText != "" || ch.compareText != "")
          && AllIn(ch.evidenceIds, c.evidenceIds)
          && (forall x :: x in ch.clauseIds ==> x in ClauseIds(core)))
  }

  predicate RevisionIntegrity(core: Snapshot, runId: Id, v: RevisionSet)
  {
    && v.runId == runId
    && v.revisionFingerprint.Some?
    && (forall i, j :: 0 <= i < j < |v.changes| ==> v.changes[i].changeId != v.changes[j].changeId)
    && (forall ch :: ch in v.changes ==>
          && (ch.clauseId.Some? ==> ch.clauseId.value in ClauseIds(core))
          && (exists f :: f in core.findings && f.findingId == ch.findingId
                && exists x :: x in ch.evidenceIds && x in f.evidenceIds))
  }

  predicate PostReviewAlignment(r: Review)
  {
    var cs := ComparisonIds(r.comparisons);
    var vs := RevisionIds(r.revisions);
    && r.run.comparisonIds == cs && r.report.comparisonIds == cs
    && r.run.revisionIds == vs && r.report.revisionIds == vs
    && |r.sequence| == |cs| + |vs|
    && (forall x :: x in cs ==> ComparisonRef(x) in r.sequence)
    && (forall x :: x in vs ==> RevisionRef(x) in r.sequence)
    && (forall a :: a in r.sequence ==> if a.ComparisonRef? then a.id in cs else a.id in vs)
    && Distinct(r.sequence)
  }

  predicate Terminal(s: ReviewStatus) { s == FINALIZED || s == FAILED }

  predicate EventIdsUnique(es: seq<StageEvent>)
  {
    forall i, j :: 0 <= i < j < |es| ==> es[i].eventId != es[j].eventId
  }

  predicate EventsOwned(es: seq<StageEvent>, runId: Id, known: seq<Id>)
  {
    forall e :: e in es ==>
      e.subjectType == ReviewRunSubject && e.subjectId == runId && AllIn(e.evidenceIds, known)
  }

  /** Event e may follow event p in a ledger. */
  predicate Follows(p: StageEvent, e: StageEvent)
  {
    e.fromStage == Some(p.toStage) && p.occurredAt <= e.occurredAt
  }

  predicate EventsChained(es: seq<StageEvent>)
  {
    forall i :: 1 <= i < |es| ==> Follows(es[i - 1], es[i])
  }

  predicate LedgerValid(run: ReviewRun, known: seq<Id>)
  {
    var es := run.stageEvents;
    && es != []
    && EventIdsUnique(es)
    && EventsOwned(es, run.runId, known)
    && es[0].fromStage == None && es[0].toStage == RECEIVED
    && EventsChained(es)
    && es[|es| - 1].toStage == run.status
    && run.finishedAt == if Terminal(run.status) then Some(es[|es| - 1].occurredAt) else None
  }

  predicate DecisionAligned(core: Snapshot, runId: Id, known: seq<Id>, d: ReviewDecision)
  {
    && d.runId == runId
    && AllIn(d.evidenceIds, known)
    && exists f :: f in core.findings && f.findingId == d.findingId
         && exists x :: x in d.evidenceIds && x in f.evidenceIds
  }

  function DecisionIds(decisions: seq<ReviewDecision>): (ids: seq<Id>)
    ensures |ids| == |decisions|
    ensures forall i {:trigger ids[i]} :: 0 <= i < |decisions| ==> ids[i] == decisions[i].decisionId
  {
    Map((d: ReviewDecision) => d.decisionId, decisions)
  }

  predicate DecisionAlignment(r: Review)
  {
    && Elements(r.run.decisionIds) == Elements(DecisionIds(r.decisions))
    && Elements(r.report.decisionIds) == Elements(DecisionIds(r.decisions))
    && forall d :: d in r.decisions ==> DecisionAligned(r.core, r.run.runId, EvidenceIds(r.evidence), d)
  }

  function CountOf(findings: seq<Finding>): (m: map<FindingStatus, nat>)
  {
    if findings == [] then map[]
    else
      var rest := CountOf(findings[..|findings| - 1]);
      var s := findings[|findings| - 1].status;
      rest[s := (if s in rest then rest[s] else 0) + 1]
  }

  function OverallStatus(findings: seq<Finding>): FindingStatus
  {
    if exists f :: f in findings && f.status == BLOCK then BLOCK
    else if exists f :: f in findings && f.status == UNKNOWN then UNKNOWN
    else if exists f :: f in findings && f.status == WARN then WARN
    else if exists f :: f in findings && f.status == PASS then PASS
    else NOT_APPLICABLE
  }

  predicate ReportIntegrity(r: Review)
  {
    && r.report.runId == r.run.runId
    && r.report.findingCounts == CountOf(r.core.findings)
    && r.report.overallStatus == OverallStatus(r.core.findings)
    && r.report.reviewRequired == (r.run.status != FINALIZED)
    && r.report.findingIds == FindingIds(r.core.findings) == r.run.findingIds
  }

  /** Every audit check except the comparison of the stored fingerprint. */
  predicate Consistent(r: Review)
  {
    && SnapshotIntegrity(r.core)
    && Distinct(EvidenceIds(r.evidence))
    && (forall e :: e in r.evidence ==> Provenance(r.core, e))
    && References(r, EvidenceIds(r.evidence))
    && Distinct(ComparisonIds(r.comparisons))
    && (forall c :: c in r.comparisons ==> ComparisonIntegrity(r.core, r.run.runId, r.evidence, c))
    && Distinct(RevisionIds(r.revisions))
    && (forall v :: v in r.revisions ==> RevisionIntegrity(r.core, r.run.runId, v))
    && PostReviewAlignment(r)
    && LedgerValid(r.run, EvidenceIds(r.evidence))
    && DecisionAlignment(r)
    && ReportIntegrity(r)
  }

  /** audit_result(s).passed */
  predicate Audited(s: ReviewResult)
  {
    Consistent(s.review) && s.fingerprint == Some(Fingerprint(s.review))
  }
}
