/**
 A concrete audited review, two histories of it that cannot be replayed, and three
 comparisons that the second audit rejects.
 */
module FailingHistories {
  import opened Ordering
  import opened ReviewModel
  import opened VersionImpacts
  import opened RunLedger
  import opened ReviewActions
  import opened AuditKeeping
  import opened ComparisonGate
  import opened Replay
  import opened Reattaching
  import opened ReplayTheorem
  import opened ReplayNormalForm

  // ------------------------------------------------------------------ the base review

  const CONTRACT := Document(1, 11, 21, 1)

  /** The same bytes under another file name. */
  const COPY := Document(2, 12, 21, 1)

  const NOTHING := Archive([], [], [], [], [], [], [], [], [])

  function Core(documents: seq<Document>): Snapshot
  {
    Snapshot(9, documents, [], [], [], [Rule(31, None, [], "")], None, [Finding(41, 31, WARN, [51], [])], NOTHING,
             Rest(true, {}))
  }

  const EXCERPT := Evidence(51, TEXT, Some(9), Some(1), Some(21), None, map[], "", 0)

  function Details(eventId: Id): EventDetails { EventDetails(eventId, 0, 0, 0, [], 0) }

  const MOVES: seq<Move> := [
    Move(PARSED, Details(2)), Move(QUALITY_GATED, Details(3)), Move(INDEXED, Details(4)), Move(EXTRACTED, Details(5)),
    Move(RULE_CHECKED, Details(6)), Move(HUMAN_REVIEW, Details(7))]

  lemma RunReached(n: nat)
    requires n <= |MOVES|
    ensures var run := RunOf(61, Details(1), MOVES[..n]);
      && run.Ok? && run.value.status == (if n == 0 then RECEIVED else MOVES[n - 1].to)
      && run.value.runId == 61 && run.value.decisionIds == run.value.comparisonIds == run.value.revisionIds == []
  {
    if n > 0 {
      RunReached(n - 1);
      TakeStep(MOVES, n - 1);
    }
  }

  lemma MovesAreFresh()
    ensures FreshAndOrdered(Details(1), MOVES) && EvidenceKnown(Details(1), MOVES, [51])
  {
    assert forall i :: 0 <= i < |MOVES| ==> MOVES[i].details == Details(i + 2);
  }

  lemma EventsOfMoves()
    requires RunOf(61, Details(1), MOVES).Ok?
    ensures forall e :: e in RunOf(61, Details(1), MOVES).value.stageEvents ==> e.eventId <= 7 && e.occurredAt == 0
  {
    hide RunOf;
    EventsOfRun(61, Details(1), MOVES);
    assert forall i :: 0 <= i < |MOVES| ==> MOVES[i].details == Details(i + 2);
    var events := RunOf(61, Details(1), MOVES).value.stageEvents;
    forall e | e in events ensures e.eventId <= 7 && e.occurredAt == 0 {
      var i :| 0 <= i < |events| && events[i] == e;
      if i > 0 {
        var k := i - 1;
        assert events[k + 1].eventId == MOVES[k].details.eventId;
      }
    }
  }

  lemma WholeRun()
    ensures var run := RunOf(61, Details(1), MOVES);
      && run.Ok? && run.value.status == HUMAN_REVIEW
      && run.value.runId == 61 && run.value.decisionIds == run.value.comparisonIds == run.value.revisionIds == []
    ensures LedgerValid(RunOf(61, Details(1), MOVES).value, [51])
    ensures forall e :: e in RunOf(61, Details(1), MOVES).value.stageEvents ==> e.eventId <= 7 && e.occurredAt == 0
  {
    hide RunOf, LedgerValid, FreshAndOrdered, EvidenceKnown;
    RunReached(|MOVES|);
    TakeAll(MOVES);
    MovesAreFresh();
    EveryRunIsAuditable(61, Details(1), MOVES, [51]);
    EventsOfMoves();
  }

  function BaseRun(): ReviewRun
  {
    WholeRun();
    RunOf(61, Details(1), MOVES).value.(findingIds := [41])
  }

  function Base(documents: seq<Document>): ReviewResult
  {
    Sealed(Review(Core(documents), [EXCERPT], [], [], [], [], BaseRun(),
                  ReviewReport(61, WARN, map[WARN := 1], [41], [], [], [], true)))
  }

  lemma BaseLedger()
    ensures var run := BaseRun();
      && LedgerValid(run, [51]) && run.status == HUMAN_REVIEW && run.runId == 61 && run.findingIds == [41]
      && run.decisionIds == run.comparisonIds == run.revisionIds == []
      && forall e :: e in run.stageEvents ==> e.eventId <= 7 && e.occurredAt == 0
  {
    WholeRun();
  }

  lemma CoreIsSound(documents: seq<Document>)
    ensures SnapshotIntegrity(Core(documents))
    ensures CountOf(Core(documents).findings) == map[WARN := 1] && OverallStatus(Core(documents).findings) == WARN
    ensures FindingIds(Core(documents).findings) == [41]
  {
    var findings := Core(documents).findings;
    assert findings[..0] == [] && findings[0] in findings;
    assert Core(documents).rules[0] in Core(documents).rules;
    assert CountOf(findings[..0]) == map[];
  }

  lemma BaseReport(documents: seq<Document>)
    ensures ReportIntegrity(Base(documents).review)
  {
    BaseLedger();
    CoreIsSound(documents);
    hide LedgerValid, CountOf, OverallStatus, FindingIds, BaseRun;
  }

  lemma Assemble(r: Review)
    requires SnapshotIntegrity(r.core) && LedgerValid(r.run, [51]) && ReportIntegrity(r)
    requires r.evidence == [EXCERPT] && r.comparisons == [] && r.revisions == []
    requires EvidenceIds(r.evidence) == [51] && Provenance(r.core, EXCERPT) && References(r, [51])
    requires PostReviewAlignment(r) && DecisionAlignment(r)
    ensures Consistent(r)
  {
    hide LedgerValid, SnapshotIntegrity, ReportIntegrity, PostReviewAlignment, DecisionAlignment, References,
      Provenance;
  }

  /** The base review is audited and nothing has been done to it. */
  lemma BaseIsFresh(documents: seq<Document>)
    requires CONTRACT in documents
    ensures Fresh(Base(documents)) && EvidenceIds(Base(documents).review.evidence) == [51]
    ensures CanRecordEvent(Base(documents).review, 8, 0)
  {
    var r := Base(documents).review;
    BaseLedger();
    CoreIsSound(documents);
    BaseReport(documents);
    hide Consistent, Fingerprint, LedgerValid, SnapshotIntegrity, ReportIntegrity, PostReviewAlignment,
      DecisionAlignment, References, Provenance, BaseRun;
    NothingAttached(r);
    BaseReferences(r, documents);
    Assemble(r);
    SealedAudit(r);
  }

  lemma NothingAttached(r: Review)
    requires r.comparisons == [] && r.revisions == [] && r.sequence == [] && r.decisions == []
    requires r.run.decisionIds == r.run.comparisonIds == r.run.revisionIds == []
    requires r.report.decisionIds == r.report.comparisonIds == r.report.revisionIds == []
    ensures PostReviewAlignment(r) && DecisionAlignment(r)
  {
  }

  lemma BaseReferences(r: Review, documents: seq<Document>)
    requires CONTRACT in documents && r == Base(documents).review && LedgerValid(r.run, [51])
    ensures References(r, [51]) && Provenance(r.core, EXCERPT)
  {
    hide BaseRun;
    LedgerReferences(r.run, [51]);
    hide LedgerValid;
  }

  lemma LedgerReferences(run: ReviewRun, known: seq<Id>)
    requires LedgerValid(run, known)
    ensures forall e :: e in run.stageEvents ==> AllIn(e.evidenceIds, known)
  {
  }

  // ------------------------------------------------------------------- the environment

  function Join(c: Id, x: Id): Id { 1000 * c + x }

  predicate IsPending(x: Id) { x < 0 }

  function PendingFor(x: Id): Id { if x >= 0 then -1 - x else x }

  function Same(text: string): string { text }

  predicate Nowhere(clause: string, text: string) { false }

  function Unclear(before: string, after: string): ImpactLevel { UNCLEAR }

  const ENV := Env(TextJudge(Same, Nowhere, Unclear, Unclear, Unclear, Unclear), Naming(Join, IsPending, PendingFor))

  lemma NamesAreLawful()
    ensures NamingLaws(ENV.names)
  {
  }

  // ------------------------------------------------- a revision set after a decision

  const VERDICT := ReviewDecision(71, 61, 41, ACCEPT, 0, 0, 0, [51], 0)

  function Decided(): Review { WithDecision(Base([CONTRACT]).review, VERDICT) }

  /** A set for the finding, made from the review after the decision. */
  function LateSet(): RevisionSet
  {
    RevisionSet(81, 61, Fingerprint(Decided()), [RevisionChange(82, 41, None, "", [51])], Some(83), 0)
  }

  const SUPPLY := Supply((n: nat) => n, 8, 0)

  lemma DecisionRuns()
    ensures RecordDecision(Base([CONTRACT]), VERDICT) == Ok(Sealed(Decided())) && Audited(Sealed(Decided()))
  {
    var s := Base([CONTRACT]);
    BaseIsFresh([CONTRACT]);
    VerdictAdded(s.review);
    hide Consistent, Fingerprint, DecisionAdded;
    JudgementOk(s.review.run.status, Audited(s), DecisionAdded(s.review, VERDICT));
    DecisionKeepsAudit(s, VERDICT);
  }

  lemma VerdictAdded(r: Review)
    requires r == Base([CONTRACT]).review && EvidenceIds(r.evidence) == [51] && r.run.runId == 61
    ensures DecisionAdded(r, VERDICT) == Ok(Decided())
  {
    hide BaseRun, Fingerprint;
    assert r.core.findings[0] == Finding(41, 31, WARN, [51], []);
    assert [51][0] in [51];
  }

  lemma LateSetFits(r: Review)
    requires r.core == Core([CONTRACT]) && EvidenceIds(r.evidence) == [51]
    ensures RevisionIntegrity(r.core, 61, LateSet()) && RevisionReferences(LateSet(), EvidenceIds(r.evidence))
  {
    hide Fingerprint, Decided;
    var f, ch := r.core.findings[0], LateSet().changes[0];
    assert f in r.core.findings && f.evidenceIds[0] == 51 && ch.evidenceIds[0] == 51;
    assert 51 in f.evidenceIds && 51 in ch.evidenceIds && [51][0] == 51;
  }

  lemma DecidedShape()
    ensures var r, s := Decided(), Base([CONTRACT]).review;
      r.core == s.core && r.evidence == s.evidence && r.revisions == [] && r.run.runId == s.run.runId
  {
    hide BaseRun, Fingerprint;
  }

  lemma LateSetAttaches()
    ensures AttachRevision(Sealed(Decided()), LateSet()).Ok?
  {
    DecisionRuns();
    BaseIsFresh([CONTRACT]);
    BaseLedger();
    DecidedShape();
    LateSetFits(Decided());
    hide Audited, Fingerprint, RevisionIntegrity, RevisionReferences, BaseRun, Decided, AttachRevision, Fresh;
    RevisionGate(Sealed(Decided()), LateSet());
  }

  lemma TwoSteps(s: ReviewResult, a: Action, b: Action, t: ReviewResult)
    requires Apply(s, ENV, a) == Ok(t)
    ensures RunHistory(s, ENV, [a, b]) == Apply(t, ENV, b)
  {
    hide Apply;
    assert [a, b][..1] == [a] && [a][..0] == [];
    assert RunHistory(s, ENV, []) == Ok(s);
    assert RunHistory(s, ENV, [a]) == Ok(t);
  }

  lemma BaseTakes(history: seq<Action>)
    requires forall a :: a in history ==> !a.Finish?
    ensures var s := Base([CONTRACT]);
      && Fresh(s) && Regular(s, history) && Alike(s.review, s.review)
      && CanRecordEvent(s.review, SUPPLY.eventId, SUPPLY.now)
  {
    hide Base, Fresh, CanRecordEvent;
    BaseIsFresh([CONTRACT]);
  }

  lemma ReplayFails(history: seq<Action>)
    requires RunHistory(Base([CONTRACT]), ENV, history).Ok?
    requires forall a :: a in history ==> !a.Finish?
    requires !(RevisionsFirst(history) && AllPending(ENV, history))
    ensures Fresh(Base([CONTRACT])) && Regular(Base([CONTRACT]), history)
    ensures ReplayReview(Base([CONTRACT]), ENV, RunHistory(Base([CONTRACT]), ENV, history).value, SUPPLY).Err?
  {
    hide *;
    var s := Base([CONTRACT]);
    BaseTakes(history);
    NamesAreLawful();
    ReplaySucceedsIff(s, s, ENV, history, SUPPLY);
  }

  /** The first failing kind: every step succeeds, no change cites evidence, but the set comes
      after a decision, and the replay raises. */
  lemma RevisionAfterDecision()
    ensures var history := [Decide(VERDICT), Revise(LateSet())];
      && Fresh(Base([CONTRACT])) && Regular(Base([CONTRACT]), history) && AllPending(ENV, history)
      && RunHistory(Base([CONTRACT]), ENV, history).Ok?
      && ReplayReview(Base([CONTRACT]), ENV, RunHistory(Base([CONTRACT]), ENV, history).value, SUPPLY).Err?
  {
    hide Fingerprint, Consistent, ReplayReview, BaseRun, LateSet, Base;
    var history := [Decide(VERDICT), Revise(LateSet())];
    DecisionRuns();
    LateSetAttaches();
    TwoSteps(Base([CONTRACT]), history[0], history[1], Sealed(Decided()));
    assert Judges(history[0]) && history[1].Revise?;
    ReplayFails(history);
  }

  // --------------------------------------------------- comparisons of the contract

  /** Version 13 of the contract with one change. */
  function Compared(id: Id, ch: VersionChange): Comparison
  {
    Comparison(id, 61, 11, 13, 21, 23, [ch], [], [], [], [], 0)
  }

  const CHANGE := VersionChange(3, "a", "b", [-4], [])

  lemma NoClauses(r: Review, c: Comparison, ch: VersionChange)
    requires r.core.clauses == [] && ch.clauseIds == []
    ensures BoundClauseIds(r.core, ENV.judge, c, ch) == []
  {
  }

  lemma NotRequested(ch: VersionChange)
    requires |ch.evidenceIds| == 1
    ensures Requested(ENV.names, ch.evidenceIds) == if ch.evidenceIds[0] < 0 then [] else ch.evidenceIds
  {
    assert ch.evidenceIds[..0] == [];
    assert ch.evidenceIds == [ch.evidenceIds[0]];
  }

  /** The evidence of the one change, and what the comparison brings. */
  function OwnEvidence(c: Comparison, ch: VersionChange): seq<Evidence>
    requires |ch.evidenceIds| == 1
  {
    if ch.evidenceIds[0] >= 0 then []
    else [ComparisonEvidence(Core([CONTRACT]), Join(c.comparisonId, ch.changeId), ChangeExcerpt(ch), 0)]
  }

  function Brought(c: Comparison, ch: VersionChange): seq<Evidence>
    requires |ch.evidenceIds| == 1
  {
    [ComparisonEvidence(Core([CONTRACT]), Join(c.comparisonId, SUMMARY), "", 0)] + OwnEvidence(c, ch)
  }

  /** Its new evidence is fresh, or the evidence it cites is there and of the right kind. */
  predicate Supported(r: Review, c: Comparison, ch: VersionChange)
    requires |ch.evidenceIds| == 1
  {
    var x := ch.evidenceIds[0];
    if x < 0 then Join(c.comparisonId, ch.changeId) !in EvidenceIds(r.evidence)
    else x in EvidenceIds(r.evidence) && forall e :: e in r.evidence && e.evidenceId == x ==>
      e.evidenceType == COMPARISON
  }

  lemma OneChangeBound(r: Review, c: Comparison, ch: VersionChange)
    requires r.core.packageId == 9 && r.core.clauses == [] && ch.clauseIds == []
    requires |ch.evidenceIds| == 1 && Supported(r, c, ch)
    ensures BindChange(r, ENV, c, ch, 0).Ok? && BindChange(r, ENV, c, ch, 0).value.evidence == OwnEvidence(c, ch)
  {
    NoClauses(r, c, ch);
    NotRequested(ch);
    hide BoundClauseIds, Requested, ChangeExcerpt;
  }

  lemma BindOne(bind: Binder, ch: VersionChange)
    requires bind(ch).Ok?
    ensures BindChanges(bind, [ch]).Ok? && BindChanges(bind, [ch]).value.evidence == bind(ch).value.evidence
  {
    assert [ch][..0] == [] && BindChanges(bind, []) == Ok(Binding([], []));
  }

  /** A comparison with one change passes all checks before the second audit. */
  lemma OneChangeAdded(r: Review, c: Comparison, ch: VersionChange)
    requires r.core.packageId == 9 && r.core.clauses == [] && ch.clauseIds == [] && c.changes == [ch]
    requires AttachCheck(r, ENV, c).None? && |ch.evidenceIds| == 1 && Supported(r, c, ch)
    ensures ComparisonAdded(r, ENV, c, 0).Ok?
    ensures ComparisonAdded(r, ENV, c, 0).value.evidence == r.evidence + Brought(c, ch)
  {
    hide AttachCheck, BoundComparison, BindChange, BindChanges, OwnEvidence, Supported;
    OneChangeBound(r, c, ch);
    BindOne(BinderOf(r, ENV, c, 0), ch);
  }

  lemma Checked(r: Review, id: Id, ch: VersionChange)
    requires r.core.documents == [CONTRACT] || r.core.documents == [CONTRACT, COPY]
    requires r.run.runId == 61 && id !in ComparisonIds(r.comparisons) && Join(id, SUMMARY) !in EvidenceIds(r.evidence)
    ensures AttachCheck(r, ENV, Compared(id, ch)).None?
  {
    assert FirstByHash(r.core.documents, 21) == Some(CONTRACT);
    assert FirstByHash(r.core.documents, 23).None?;
  }

  lemma BaseShape(documents: seq<Document>)
    requires CONTRACT in documents
    ensures var r := Base(documents).review;
      && r.core == Core(documents) && r.core.documents == documents && r.core.packageId == 9 && r.core.clauses == []
      && r.evidence == [EXCERPT] && EvidenceIds(r.evidence) == [51] && r.run.runId == 61
      && r.comparisons == [] && ComparisonIds(r.comparisons) == []
    ensures Audited(Base(documents)) && Fresh(Base(documents))
  {
    BaseIsFresh(documents);
    BaseLedger();
    hide BaseRun, Fingerprint, Consistent;
  }

  lemma CoreShape(documents: seq<Document>)
    ensures var core := Core(documents); core.packageId == 9 && core.clauses == [] && core.documents == documents
  {
  }

  lemma JoinedIds()
    ensures Join(5, SUMMARY) == 5001 && Join(5, 3) == 5003 && Join(6, SUMMARY) == 6001
  {
  }

  lemma ComparedChecked(documents: seq<Document>, ch: VersionChange)
    requires documents == [CONTRACT] || documents == [CONTRACT, COPY]
    ensures AttachCheck(Base(documents).review, ENV, Compared(5, ch)).None?
  {
    hide *;
    assert CONTRACT in documents;
    BaseShape(documents);
    JoinedIds();
    Checked(Base(documents).review, 5, ch);
  }

  lemma ComparedShape(id: Id, ch: VersionChange)
    ensures var c := Compared(id, ch); c.comparisonId == id && c.changes == [ch]
  {
  }

  // ----------------------------------------------------- rejected by the second audit

  lemma PendingSupported(r: Review, ch: VersionChange)
    requires EvidenceIds(r.evidence) == [51] && |ch.evidenceIds| == 1 && ch.evidenceIds[0] < 0 && ch.changeId > 0
    ensures Supported(r, Compared(5, ch), ch)
  {
    hide EvidenceIds;
  }

  lemma Rejected(documents: seq<Document>, ch: VersionChange)
    requires documents == [CONTRACT] || documents == [CONTRACT, COPY]
    requires ch.clauseIds == [] && |ch.evidenceIds| == 1 && ch.evidenceIds[0] < 0 && ch.changeId > 0
    requires !WellFormed(Core(documents), ENV, Compared(5, ch))
    ensures AttachComparison(Base(documents), ENV, Compared(5, ch), 0) == Err(RejectedByGate)
  {
    hide *;
    var s, c := Base(documents), Compared(5, ch);
    assert CONTRACT in documents;
    BaseShape(documents);
    CoreShape(documents);
    ComparedShape(5, ch);
    ComparedChecked(documents, ch);
    PendingSupported(s.review, ch);
    NamesAreLawful();
    OneChangeAdded(s.review, c, ch);
    SecondAuditIff(s, ENV, c, 0);
  }

  /** A change without any text. */
  lemma TextlessChange()
    ensures AttachComparison(Base([CONTRACT]), ENV, Compared(5, VersionChange(3, "", "", [-4], [])), 0) ==
      Err(RejectedByGate)
  {
    var ch := VersionChange(3, "", "", [-4], []);
    assert Compared(5, ch).changes[0] == ch;
    assert !AllHaveText(Compared(5, ch).changes);
    Rejected([CONTRACT], ch);
  }

  /** A pending change with the id of the summary. */
  lemma ChangeCalledSummary()
    ensures AttachComparison(Base([CONTRACT]), ENV, Compared(5, VersionChange(SUMMARY, "a", "b", [-4], [])), 0) ==
      Err(RejectedByGate)
  {
    var ch := VersionChange(SUMMARY, "a", "b", [-4], []);
    NotRequested(ch);
    assert Compared(5, ch).changes[0] == ch && !Requests(ENV, ch);
    assert SummaryClash(ENV, Compared(5, ch));
    Rejected([CONTRACT], ch);
  }

  /** Two documents with the same bytes under different names: the first is checked before
      attaching, the last one by the audit. */
  lemma SharedBytes()
    ensures Fresh(Base([CONTRACT, COPY]))
    ensures AttachComparison(Base([CONTRACT, COPY]), ENV, Compared(5, CHANGE), 0) == Err(RejectedByGate)
  {
    BaseIsFresh([CONTRACT, COPY]);
    assert LastByHash([CONTRACT, COPY], 21) == Some(COPY);
    Rejected([CONTRACT, COPY], CHANGE);
  }

  // ------------------------------------------- a comparison that cites another's evidence

  const CITING := VersionChange(3, "a", "b", [5001], [])

  /** A well-formed comparison that passes the checks attaches. */
  lemma Attaches(s: ReviewResult, id: Id, ch: VersionChange) returns (t: ReviewResult)
    requires Audited(s) && s.review.core == Core([CONTRACT]) && ch.clauseIds == [] && |ch.evidenceIds| == 1
    requires s.review.core.packageId == 9 && s.review.core.clauses == []
    requires AttachCheck(s.review, ENV, Compared(id, ch)).None? && Supported(s.review, Compared(id, ch), ch)
    requires WellFormed(Core([CONTRACT]), ENV, Compared(id, ch))
    ensures AttachComparison(s, ENV, Compared(id, ch), 0) == Ok(t) && Audited(t)
    ensures t.review.core == s.review.core && t.review.run.runId == s.review.run.runId
    ensures ComparisonIds(t.review.comparisons) == ComparisonIds(s.review.comparisons) + [id]
    ensures t.review.evidence == s.review.evidence + Brought(Compared(id, ch), ch)
  {
    hide *;
    var c := Compared(id, ch);
    ComparedShape(id, ch);
    NamesAreLawful();
    OneChangeAdded(s.review, c, ch);
    SecondAuditIff(s, ENV, c, 0);
    t := AttachComparison(s, ENV, c, 0).value;
    var added, bound := ComparisonAttached(s, ENV, c, 0);
    WithShape(s.review, added, bound);
    AttachedAudited(s, c);
    SealedShape(ComparisonAdded(s.review, ENV, c, 0).value);
  }

  lemma WithShape(r: Review, added: seq<Evidence>, c: Comparison)
    ensures var w := WithComparison(r, added, c);
      && w.core == r.core && w.run.runId == r.run.runId && Sealed(w).review == w
      && ComparisonIds(w.comparisons) == ComparisonIds(r.comparisons) + [c.comparisonId]
  {
    hide Fingerprint;
  }

  lemma SealedShape(r: Review)
    ensures Sealed(r).review == r
  {
  }

  lemma BaseSupports(r: Review)
    requires EvidenceIds(r.evidence) == [51]
    ensures CHANGE.clauseIds == [] && |CHANGE.evidenceIds| == 1 && Supported(r, Compared(5, CHANGE), CHANGE)
  {
    hide EvidenceIds;
  }

  lemma FirstAttaches() returns (t: ReviewResult)
    ensures AttachComparison(Base([CONTRACT]), ENV, Compared(5, CHANGE), 0) == Ok(t) && Audited(t)
    ensures t.review.core == Core([CONTRACT]) && t.review.run.runId == 61 && ComparisonIds(t.review.comparisons) == [5]
    ensures t.review.evidence == [EXCERPT] + Brought(Compared(5, CHANGE), CHANGE)
  {
    hide *;
    BaseShape([CONTRACT]);
    BaseSupports(Base([CONTRACT]).review);
    ComparedChecked([CONTRACT], CHANGE);
    WellFormedChange(5, CHANGE);
    t := Attaches(Base([CONTRACT]), 5, CHANGE);
  }

  lemma AttachedAudited(s: ReviewResult, c: Comparison)
    requires AttachComparison(s, ENV, c, 0).Ok?
    ensures Audited(AttachComparison(s, ENV, c, 0).value)
  {
    GatedOk(Audited(s), ComparisonAdded(s.review, ENV, c, 0));
    hide ComparisonAdded, Consistent, Fingerprint;
    SealedAudit(ComparisonAdded(s.review, ENV, c, 0).value);
  }

  lemma WellFormedChange(id: Id, ch: VersionChange)
    requires ch == CHANGE || ch == CITING
    ensures WellFormed(Core([CONTRACT]), ENV, Compared(id, ch))
  {
    assert LastByHash([CONTRACT], 21) == Some(CONTRACT);
    assert LastByHash([CONTRACT], 23).None?;
  }

  lemma SecondAttaches(t: ReviewResult)
    requires Audited(t) && t.review.core == Core([CONTRACT]) && t.review.run.runId == 61
    requires ComparisonIds(t.review.comparisons) == [5]
    requires t.review.evidence == [EXCERPT] + Brought(Compared(5, CHANGE), CHANGE)
    ensures AttachComparison(t, ENV, Compared(6, CITING), 0).Ok?
  {
    hide *;
    CoreShape([CONTRACT]);
    CitedIsComparison(t.review);
    JoinedIds();
    Checked(t.review, 6, CITING);
    WellFormedChange(6, CITING);
    var u := Attaches(t, 6, CITING);
  }

  lemma CitedIsComparison(r: Review)
    requires r.evidence == [EXCERPT] + Brought(Compared(5, CHANGE), CHANGE)
    ensures EvidenceIds(r.evidence) == [51, 5001, 5003] && CITING.clauseIds == [] && |CITING.evidenceIds| == 1
    ensures Supported(r, Compared(6, CITING), CITING)
  {
    assert EvidenceIds(r.evidence)[1] == 5001;
    assert r.evidence[0] == EXCERPT;
  }

  /** The second failing kind: both comparisons attach, but a change of the second cites the
      evidence of the first, and the replay raises. */
  lemma CitingComparison()
    ensures var history := [Compare(Compared(5, CHANGE), 0), Compare(Compared(6, CITING), 0)];
      && Fresh(Base([CONTRACT])) && Regular(Base([CONTRACT]), history) && RevisionsFirst(history)
      && RunHistory(Base([CONTRACT]), ENV, history).Ok?
      && ReplayReview(Base([CONTRACT]), ENV, RunHistory(Base([CONTRACT]), ENV, history).value, SUPPLY).Err?
  {
    var a, b := Compare(Compared(5, CHANGE), 0), Compare(Compared(6, CITING), 0);
    var history := [a, b];
    assert RevisionsFirst(history) && b in history && forall x :: x in history ==> !x.Finish?;
    var s := Base([CONTRACT]);
    assert forall x :: Apply(x, ENV, a) == AttachComparison(x, ENV, a.c, 0);
    assert forall x :: Apply(x, ENV, b) == AttachComparison(x, ENV, b.c, 0);
    hide Apply, AttachComparison, Base, Compared, ReplayReview, RunHistory, Pending, Fresh, Regular, RevisionsFirst,
      Audited;
    var t := FirstAttaches();
    SecondAttaches(t);
    CitingIsNotPending();
    TwoSteps(s, a, b, t);
    ReplayFails(history);
  }

  lemma CitingIsNotPending()
    ensures !Pending(ENV, Compared(6, CITING))
  {
    NotRequested(CITING);
    assert Compared(6, CITING).changes[0] == CITING;
    assert CITING in Compared(6, CITING).changes && Requests(ENV, CITING);
  }
}
