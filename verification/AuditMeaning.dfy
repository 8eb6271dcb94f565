/** What a review that passes its audit is, said of its own records. */
module AuditMeaning {
  import opened Ordering
  import opened ReviewModel
  import opened ImpactMeaning

  // ------------------------------------------------------------------------ the report

  /** Some finding has this status. */
  predicate Has(findings: seq<Finding>, status: FindingStatus) { exists f :: f in findings && f.status == status }

  /** The overall status is the gravest of the findings: blocked before undecided before
      warned before passed; not applicable when there is none of these. */
  lemma OverallIs(findings: seq<Finding>)
    ensures OverallStatus(findings) == BLOCK <==> Has(findings, BLOCK)
    ensures OverallStatus(findings) == UNKNOWN <==> Has(findings, UNKNOWN) && !Has(findings, BLOCK)
    ensures OverallStatus(findings) == WARN <==>
      Has(findings, WARN) && !Has(findings, BLOCK) && !Has(findings, UNKNOWN)
    ensures OverallStatus(findings) == PASS <==>
      Has(findings, PASS) && !Has(findings, BLOCK) && !Has(findings, UNKNOWN) && !Has(findings, WARN)
    ensures OverallStatus(findings) == NOT_APPLICABLE <==>
      forall f :: f in findings ==> f.status == NOT_APPLICABLE
  {
    forall f | f in findings ensures Has(findings, f.status) { }
  }

  function StatusesOf(findings: seq<Finding>): (statuses: seq<FindingStatus>)
    ensures |statuses| == |findings| && forall i :: 0 <= i < |findings| ==> statuses[i] == findings[i].status
  {
    Map((f: Finding) => f.status, findings)
  }

  /** The report counts every status that occurs, as often as it occurs. */
  lemma {:induction false} CountsAre(findings: seq<Finding>)
    ensures forall status ::
      && (status in CountOf(findings) <==> status in StatusesOf(findings))
      && (status in CountOf(findings) ==> CountOf(findings)[status] == multiset(StatusesOf(findings))[status])
  {
    if findings != [] {
      var front, last := findings[..|findings| - 1], findings[|findings| - 1];
      CountsAre(front);
      assert StatusesOf(findings) == StatusesOf(front) + [last.status];
    }
  }

  /** What the audit demands of the report. */
  ghost predicate ReportSound(r: Review)
  {
    && r.report.runId == r.run.runId && (r.report.reviewRequired <==> r.run.status != FINALIZED)
    && r.report.overallStatus == OverallStatus(r.core.findings)
    && (forall status :: status in r.report.findingCounts <==> Has(r.core.findings, status))
    && (forall status :: status in r.report.findingCounts ==>
          r.report.findingCounts[status] == multiset(StatusesOf(r.core.findings))[status])
    && ListsFindings(r.report.findingIds, r.core.findings) && ListsFindings(r.run.findingIds, r.core.findings)
  }

  /** The ids of the findings, in order. */
  predicate ListsFindings(ids: seq<Id>, findings: seq<Finding>)
  {
    |ids| == |findings| && forall i :: 0 <= i < |ids| ==> ids[i] == findings[i].findingId
  }

  lemma SameCounts(m: map<FindingStatus, nat>, findings: seq<Finding>)
    ensures m == CountOf(findings) <==>
      && (forall status :: status in m <==> Has(findings, status))
      && (forall status :: status in m ==> m[status] == multiset(StatusesOf(findings))[status])
  {
    hide *;
    CountsAre(findings);
    forall status ensures status in StatusesOf(findings) <==> Has(findings, status) { HasIff(findings, status); }
    SameMap(m, CountOf(findings));
  }

  lemma HasIff(findings: seq<Finding>, status: FindingStatus)
    ensures status in StatusesOf(findings) <==> Has(findings, status)
  {
    hide StatusesOf;
    if f :| f in findings && f.status == status {
      var i :| 0 <= i < |findings| && findings[i] == f;
      assert StatusesOf(findings)[i] == status;
    }
  }

  lemma SameMap(a: map<FindingStatus, nat>, b: map<FindingStatus, nat>)
    ensures a == b <==> forall s :: (s in a <==> s in b) && (s in a && s in b ==> a[s] == b[s])
  {
  }

  lemma ListsIff(ids: seq<Id>, findings: seq<Finding>)
    ensures ids == FindingIds(findings) <==> ListsFindings(ids, findings)
  {
  }

  lemma ReportSoundIff(r: Review)
    ensures ReportIntegrity(r) <==> ReportSound(r)
  {
    SameCounts(r.report.findingCounts, r.core.findings);
    ListsIff(r.report.findingIds, r.core.findings);
    ListsIff(r.run.findingIds, r.core.findings);
    hide CountOf, OverallStatus, StatusesOf, Has, ListsFindings, FindingIds;
  }

  // ---------------------------------------------------------------- run and decisions

  /** Some piece of evidence of the review has this id. */
  ghost predicate Known(evidence: seq<Evidence>, x: Id)
  {
    exists e :: e in evidence && e.evidenceId == x
  }

  lemma KnownIff(evidence: seq<Evidence>, x: Id)
    ensures Known(evidence, x) <==> x in EvidenceIds(evidence)
  {
    if e :| e in evidence && e.evidenceId == x {
      var i :| 0 <= i < |evidence| && evidence[i] == e;
      assert EvidenceIds(evidence)[i] == x;
    }
  }

  ghost predicate AllKnown(evidence: seq<Evidence>, ids: seq<Id>)
  {
    forall x :: x in ids ==> Known(evidence, x)
  }

  lemma AllKnownIff(evidence: seq<Evidence>, ids: seq<Id>)
    ensures AllKnown(evidence, ids) <==> AllIn(ids, EvidenceIds(evidence))
  {
    hide Known;
    forall x ensures Known(evidence, x) <==> x in EvidenceIds(evidence) { KnownIff(evidence, x); }
  }

  /** The events of a run: their ids are unique, they are about this run, cite known evidence,
      start with its reception, continue each from where the one before ended and not earlier,
      and end in the status of the run; a final one gives the time the run finished. */
  ghost predicate LedgerSound(r: Review)
  {
    var es, run := r.run.stageEvents, r.run;
    && |es| >= 1
    && (forall i, j :: 0 <= i < |es| && 0 <= j < |es| && es[i].eventId == es[j].eventId ==> i == j)
    && (forall i :: 0 <= i < |es| ==>
          && es[i].subjectType == ReviewRunSubject && es[i].subjectId == run.runId
          && AllKnown(r.evidence, es[i].evidenceIds))
    && es[0].fromStage.None? && es[0].toStage == RECEIVED
    && (forall i, j :: 0 <= i && j == i + 1 < |es| ==> Continues(es[i], es[j]))
    && run.status == es[|es| - 1].toStage
    && (run.finishedAt.Some? <==> run.status == FINALIZED || run.status == FAILED)
    && (run.finishedAt.Some? ==> run.finishedAt.value == es[|es| - 1].occurredAt)
  }

  lemma OwnedIff(r: Review)
    ensures EventsOwned(r.run.stageEvents, r.run.runId, EvidenceIds(r.evidence)) <==>
      forall i :: 0 <= i < |r.run.stageEvents| ==>
        var e := r.run.stageEvents[i];
        e.subjectType == ReviewRunSubject && e.subjectId == r.run.runId && AllKnown(r.evidence, e.evidenceIds)
  {
    var es, known := r.run.stageEvents, EvidenceIds(r.evidence);
    hide AllKnown, AllIn, EvidenceIds;
    forall e | e in es ensures AllKnown(r.evidence, e.evidenceIds) <==> AllIn(e.evidenceIds, known) {
      AllKnownIff(r.evidence, e.evidenceIds);
    }
    forall i | 0 <= i < |es|
      ensures es[i] in es && (AllKnown(r.evidence, es[i].evidenceIds) <==> AllIn(es[i].evidenceIds, known))
    {
      AllKnownIff(r.evidence, es[i].evidenceIds);
    }
  }

  /** The second event continues the first. */
  predicate Continues(p: StageEvent, e: StageEvent)
  {
    e.fromStage.Some? && e.fromStage.value == p.toStage && e.occurredAt >= p.occurredAt
  }

  lemma ChainedIff(es: seq<StageEvent>)
    ensures EventsChained(es) <==> forall i, j :: 0 <= i && j == i + 1 < |es| ==> Continues(es[i], es[j])
  {
    forall p, e ensures Follows(p, e) <==> Continues(p, e) { }
    hide Follows, Continues;
    if EventsChained(es) {
      forall i, j | 0 <= i && j == i + 1 < |es| ensures Continues(es[i], es[j]) {
        assert Follows(es[j - 1], es[j]);
      }
    }
    if forall i, j :: 0 <= i && j == i + 1 < |es| ==> Continues(es[i], es[j]) {
      forall j | 1 <= j < |es| ensures Follows(es[j - 1], es[j]) {
        var i := j - 1;
        assert Continues(es[i], es[j]);
      }
    }
  }

  lemma LedgerSoundIff(r: Review)
    ensures LedgerValid(r.run, EvidenceIds(r.evidence)) <==> LedgerSound(r)
  {
    OwnedIff(r);
    ChainedIff(r.run.stageEvents);
    UniqueEventsIff(r.run.stageEvents);
    hide AllKnown, EventIdsUnique, EventsOwned, EventsChained, EvidenceIds, Continues;
  }

  lemma UniqueEventsIff(es: seq<StageEvent>)
    ensures EventIdsUnique(es) <==>
      forall i, j :: 0 <= i < |es| && 0 <= j < |es| && es[i].eventId == es[j].eventId ==> i == j
  {
  }

  /** A decision belongs to the run, cites known evidence, and shares some with its finding. */
  ghost predicate DecisionSound(r: Review, d: ReviewDecision)
  {
    && d.runId == r.run.runId && AllKnown(r.evidence, d.evidenceIds)
    && exists f, x ::
         f in r.core.findings && f.findingId == d.findingId && x in d.evidenceIds && x in f.evidenceIds
  }

  ghost predicate DecisionsSound(r: Review)
  {
    && (forall d :: d in r.decisions ==> DecisionSound(r, d))
    && (forall x :: x in r.run.decisionIds <==> HasDecision(r, x))
    && (forall x :: x in r.report.decisionIds <==> HasDecision(r, x))
  }

  ghost predicate HasDecision(r: Review, x: Id) { exists d :: d in r.decisions && d.decisionId == x }

  lemma DecisionSoundIff(r: Review, d: ReviewDecision)
    ensures DecisionAligned(r.core, r.run.runId, EvidenceIds(r.evidence), d) <==> DecisionSound(r, d)
  {
    AllKnownIff(r.evidence, d.evidenceIds);
    hide AllIn, AllKnown;
  }

  lemma HasDecisionIff(r: Review, x: Id)
    ensures x in DecisionIds(r.decisions) <==> HasDecision(r, x)
  {
    if d :| d in r.decisions && d.decisionId == x {
      var i :| 0 <= i < |r.decisions| && r.decisions[i] == d;
      assert DecisionIds(r.decisions)[i] == x;
    }
  }

  lemma DecisionsSoundIff(r: Review)
    ensures DecisionAlignment(r) <==> DecisionsSound(r)
  {
    hide DecisionAligned, DecisionSound, HasDecision, DecisionIds;
    forall d ensures DecisionAligned(r.core, r.run.runId, EvidenceIds(r.evidence), d) <==> DecisionSound(r, d) {
      DecisionSoundIff(r, d);
    }
    forall x ensures x in DecisionIds(r.decisions) <==> HasDecision(r, x) { HasDecisionIff(r, x); }
    SameElements(r.run.decisionIds, DecisionIds(r.decisions));
    SameElements(r.report.decisionIds, DecisionIds(r.decisions));
  }

  lemma SameElements(s: seq<Id>, t: seq<Id>)
    ensures Elements(s) == Elements(t) <==> forall x :: x in s <==> x in t
  {
    forall x ensures (x in s <==> x in Elements(s)) && (x in t <==> x in Elements(t)) { }
    hide Elements;
    if forall x :: x in s <==> x in t {
      forall x ensures x in Elements(s) <==> x in Elements(t) { }
    }
  }

  // ---------------------------------------------------------------- evidence and rules

  /** A piece of evidence is of this package, its document has its hash and enough pages, and
      its source documents have theirs. */
  ghost predicate EvidenceSound(core: Snapshot, e: Evidence)
  {
    && (e.packageId.None? || e.packageId.value == core.packageId)
    && (e.documentId.None? || exists d :: d in core.documents && OnDocument(d, e))
    && forall x :: x in e.sourceDocuments ==>
         exists d :: d in core.documents && d.documentId == x && e.sourceDocuments[x] == d.sourceSha256
  }

  predicate OnDocument(d: Document, e: Evidence)
  {
    && e.documentId.Some? && d.documentId == e.documentId.value
    && e.sourceSha256.Some? && e.sourceSha256.value == d.sourceSha256
    && (e.pageNumber.None? || d.pageCount == 0 || e.pageNumber.value <= d.pageCount)
  }

  lemma EvidenceSoundIff(core: Snapshot, e: Evidence)
    ensures Provenance(core, e) <==> EvidenceSound(core, e)
  {
    if e.documentId.Some? {
      forall d | d in core.documents && d.documentId == e.documentId.value
        && e.sourceSha256 == Some(d.sourceSha256)
        && (e.pageNumber.Some? && d.pageCount != 0 ==> e.pageNumber.value <= d.pageCount)
        ensures OnDocument(d, e)
      {
      }
    }
  }

  /** The reviewed part: findings and obligations have unique ids, every finding is about a
      known rule and every obligation of a known clause. */
  ghost predicate SnapshotSound(core: Snapshot)
  {
    && core.rest.sound
    && (forall i, j :: 0 <= i < j < |core.findings| ==> core.findings[i].findingId != core.findings[j].findingId)
    && (forall f :: f in core.findings ==> exists r :: r in core.rules && r.ruleId == f.ruleId)
    && (forall i, j :: 0 <= i < j < |core.obligations| ==>
          core.obligations[j].obligationId != core.obligations[i].obligationId)
    && (forall o :: o in core.obligations ==> exists c :: c in core.clauses && c.clauseId == o.clauseId)
  }

  lemma SnapshotSoundIff(core: Snapshot)
    ensures SnapshotIntegrity(core) <==> SnapshotSound(core)
  {
    forall i, j | 0 <= i < |core.findings| && 0 <= j < |core.findings|
      ensures FindingIds(core.findings)[i] == FindingIds(core.findings)[j] <==>
        core.findings[i].findingId == core.findings[j].findingId
    {
    }
  }

  // ----------------------------------------------------------------------- comparisons

  /** The rule takes part in the run: it is known, and selected unless nothing is. */
  ghost predicate TakesPart(core: Snapshot, x: Id)
  {
    && (exists r :: r in core.rules && r.ruleId == x)
    && (core.selectedRuleIds.None? || core.selectedRuleIds.value == [] || x in core.selectedRuleIds.value)
  }

  ghost predicate ImpactOn(c: Comparison, x: Id) { exists i :: i in c.impacts && i.ruleId == Some(x) }

  /** The base is named as the last document with its hash, which exists; so is the compared
      document when some document has its hash. */
  ghost predicate NamesDocuments(core: Snapshot, c: Comparison)
  {
    && (exists m: nat :: LastWith(core.documents, c.baseSha256, m) && core.documents[m].filename == c.baseFilename)
    && forall n: nat :: LastWith(core.documents, c.compareSha256, n) ==>
         core.documents[n].filename == c.compareFilename
  }

  /** The rules to check again are those of the impacts and, when an impact has no rule, all
      that take part, each once. */
  ghost predicate Retriggers(core: Snapshot, c: Comparison)
  {
    && (forall i, j :: 0 <= i < j < |c.retriggerRuleIds| ==> c.retriggerRuleIds[i] != c.retriggerRuleIds[j])
    && (forall x :: x in c.retriggerRuleIds <==>
          ImpactOn(c, x) || (TakesPart(core, x) && exists i :: i in c.impacts && i.ruleId == None))
  }

  /** An impact names its changes once, has evidence of the comparison, and only obligations
      whose clause one of its changes touches. */
  ghost predicate ImpactSound(core: Snapshot, c: Comparison, i: VersionImpact)
  {
    && (forall a, b :: 0 <= a < b < |i.changeIds| ==> i.changeIds[a] != i.changeIds[b])
    && (forall x :: x in i.changeIds ==> exists ch :: ch in c.changes && ch.changeId == x)
    && i.evidenceIds != [] && (forall x :: x in i.evidenceIds ==> x in c.evidenceIds)
    && (i.ruleId.Some? ==> exists r :: r in core.rules && r.ruleId == i.ruleId.value)
    && forall x :: x in i.obligationIds ==>
         exists o, ch :: o in core.obligations && o.obligationId == x && ch in c.changes
           && ch.changeId in i.changeIds && o.clauseId in ch.clauseIds
  }

  /** A change has text, evidence of the comparison and known clauses, and some impact. */
  ghost predicate ChangeSound(core: Snapshot, c: Comparison, ch: VersionChange)
  {
    && !(ch.baseText == "" && ch.compareText == "") && (forall x :: x in ch.evidenceIds ==> x in c.evidenceIds)
    && (forall x :: x in ch.clauseIds ==> exists clause :: clause in core.clauses && clause.clauseId == x)
    && exists i :: i in c.impacts && ch.changeId in i.changeIds
  }

  ghost predicate ComparisonSound(r: Review, c: Comparison)
  {
    && c.runId == r.run.runId && NamesDocuments(r.core, c) && Retriggers(r.core, c)
    && (forall x :: x in c.findingIds ==> exists f :: f in r.core.findings && f.findingId == x)
    && c.evidenceIds != []
    && (forall x :: x in c.evidenceIds ==>
          exists e :: e in r.evidence && e.evidenceId == x && e.evidenceType == COMPARISON)
    && (forall i, j :: 0 <= i < j < |c.impacts| ==>
          c.impacts[i].impactId != c.impacts[j].impactId
          && (c.impacts[i].ruleId.Some? ==> c.impacts[i].ruleId != c.impacts[j].ruleId))
    && (forall i :: i in c.impacts ==> ImpactSound(r.core, c, i))
    && (forall i, j :: 0 <= i < j < |c.changes| ==> c.changes[i].changeId != c.changes[j].changeId)
    && (forall ch :: ch in c.changes ==> ChangeSound(r.core, c, ch))
    && (c.changes == [] ==> c.impacts == [] && c.retriggerRuleIds == [])
  }

  lemma {:induction false} ImpactRulesAre(impacts: seq<VersionImpact>)
    ensures forall x :: x in ImpactRuleIds(impacts) <==> exists i :: i in impacts && i.ruleId == Some(x)
    ensures Distinct(ImpactRuleIds(impacts)) <==>
      forall i, j :: 0 <= i < j < |impacts| && impacts[i].ruleId.Some? ==> impacts[i].ruleId != impacts[j].ruleId
  {
    if impacts != [] {
      var n := |impacts| - 1;
      var front, last := impacts[..n], impacts[n];
      ImpactRulesAre(front);
      SnocParts(impacts);
      var before, all := ImpactRuleIds(front), ImpactRuleIds(impacts);
      assert forall x :: x in all <==> x in before || last.ruleId == Some(x);
      if last.ruleId.Some? {
        assert all == before + [last.ruleId.value];
        SnocDistinctIff(before, last.ruleId.value);
        assert last.ruleId.value in before <==> exists i :: 0 <= i < n && impacts[i].ruleId == last.ruleId by {
          if i :| 0 <= i < n && impacts[i].ruleId == last.ruleId { assert front[i] in front; }
        }
      }
    }
  }

  lemma SnocDistinctIff(s: seq<Id>, x: Id)
    ensures Distinct(s + [x]) <==> Distinct(s) && x !in s
  {
    if Distinct(s) && x !in s { DistinctSnoc(s, x); }
    if Distinct(s + [x]) {
      forall i, j | 0 <= i < j < |s| ensures s[i] != s[j] { assert (s + [x])[i] != (s + [x])[j]; }
      forall i | 0 <= i < |s| ensures s[i] != x { assert (s + [x])[i] != (s + [x])[|s|]; }
    }
  }

  lemma NamesDocumentsIff(core: Snapshot, c: Comparison)
    ensures SourcesMatch(core, c) <==> NamesDocuments(core, c)
  {
    forall m: nat | LastWith(core.documents, c.baseSha256, m)
      ensures LastByHash(core.documents, c.baseSha256) == Some(core.documents[m])
    {
      OneLast(core.documents, c.baseSha256, m);
    }
    forall m: nat | LastWith(core.documents, c.compareSha256, m)
      ensures LastByHash(core.documents, c.compareSha256) == Some(core.documents[m])
    {
      OneLast(core.documents, c.compareSha256, m);
    }
    if LastByHash(core.documents, c.baseSha256).Some? { var m := FoundLast(core.documents, c.baseSha256); }
    if LastByHash(core.documents, c.compareSha256).Some? { var m := FoundLast(core.documents, c.compareSha256); }
  }

  lemma TakesPartIff(core: Snapshot, x: Id)
    ensures x in ActiveRuleIds(core) <==> TakesPart(core, x)
  {
    assert x in RuleIds(core) <==> exists r :: r in core.rules && r.ruleId == x;
  }

  lemma RetriggersIff(core: Snapshot, c: Comparison)
    ensures Retriggers(core, c) <==>
      Distinct(c.retriggerRuleIds) && Elements(c.retriggerRuleIds) == ExpectedRetrigger(core, c.impacts)
  {
    ImpactRulesAre(c.impacts);
    var expected := ExpectedRetrigger(core, c.impacts);
    forall x ensures x in expected <==>
      ImpactOn(c, x) || (TakesPart(core, x) && exists i :: i in c.impacts && i.ruleId == None)
    {
      TakesPartIff(core, x);
    }
    hide ExpectedRetrigger, ImpactOn, TakesPart;
    forall x ensures x in c.retriggerRuleIds <==> x in Elements(c.retriggerRuleIds) { }
    hide Elements;
    if Retriggers(core, c) {
      forall x ensures x in Elements(c.retriggerRuleIds) <==> x in expected { }
    }
  }

  lemma ChangeIdsAre(changes: seq<VersionChange>)
    ensures forall x :: x in ChangeIds(changes) <==> exists ch :: ch in changes && ch.changeId == x
    ensures Distinct(ChangeIds(changes)) <==>
      forall i, j :: 0 <= i < j < |changes| ==> changes[i].changeId != changes[j].changeId
  {
    forall x ensures x in ChangeIds(changes) <==> exists ch :: ch in changes && ch.changeId == x {
      if ch :| ch in changes && ch.changeId == x {
        var i :| 0 <= i < |changes| && changes[i] == ch;
        assert ChangeIds(changes)[i] == x;
      }
    }
    if Distinct(ChangeIds(changes)) {
      forall i, j | 0 <= i < j < |changes| ensures changes[i].changeId != changes[j].changeId {
        assert ChangeIds(changes)[i] != ChangeIds(changes)[j];
      }
    }
  }

  lemma FindingIdsAre(findings: seq<Finding>)
    ensures forall x :: x in FindingIds(findings) <==> exists f :: f in findings && f.findingId == x
  {
    forall x ensures x in FindingIds(findings) <==> exists f :: f in findings && f.findingId == x {
      if f :| f in findings && f.findingId == x {
        var i :| 0 <= i < |findings| && findings[i] == f;
        assert FindingIds(findings)[i] == x;
      }
    }
  }

  /** The part of the audit that speaks of impacts and changes together. */
  ghost predicate PartsSound(core: Snapshot, c: Comparison)
  {
    && (forall i :: i in c.impacts ==> ImpactSound(core, c, i))
    && (forall ch :: ch in c.changes ==> ChangeSound(core, c, ch))
    && (c.changes == [] ==> c.impacts == [])
  }

  lemma ImpactSoundIff(core: Snapshot, c: Comparison, i: VersionImpact)
    ensures ImpactSound(core, c, i) <==>
      && Distinct(i.changeIds) && (forall x :: x in i.changeIds ==> x in ChangeIds(c.changes))
      && i.evidenceIds != [] && AllIn(i.evidenceIds, c.evidenceIds)
      && (i.ruleId.Some? ==> i.ruleId.value in RuleIds(core)) && ObligationsTouched(core, c.changes, i)
  {
    ChangeIdsAre(c.changes);
    hide ChangeIds;
    assert i.ruleId.Some? ==>
      (i.ruleId.value in RuleIds(core) <==> exists r :: r in core.rules && r.ruleId == i.ruleId.value);
  }

  lemma ChangeSoundIff(core: Snapshot, c: Comparison, ch: VersionChange)
    ensures ChangeSound(core, c, ch) <==>
      && (ch.baseText != "" || ch.compareText != "") && AllIn(ch.evidenceIds, c.evidenceIds)
      && (forall x :: x in ch.clauseIds ==> x in ClauseIds(core))
      && exists i :: i in c.impacts && ch.changeId in i.changeIds
  {
    assert forall x :: x in ClauseIds(core) <==> exists clause :: clause in core.clauses && clause.clauseId == x;
  }

  lemma PartsSoundIff(core: Snapshot, c: Comparison)
    ensures PartsSound(core, c) <==>
      && ImpactsCoverChanges(c.changes, c.impacts)
      && (forall x :: x in ImpactRuleIds(c.impacts) ==> x in RuleIds(core))
      && (forall i :: i in c.impacts ==> i.evidenceIds != [] && AllIn(i.evidenceIds, c.evidenceIds))
      && (forall i :: i in c.impacts ==> ObligationsTouched(core, c.changes, i))
      && (forall ch :: ch in c.changes ==>
            && (ch.baseText != "" || ch.compareText != "")
            && AllIn(ch.evidenceIds, c.evidenceIds)
            && (forall x :: x in ch.clauseIds ==> x in ClauseIds(core)))
  {
    ImpactsPart(core, c);
    ChangesPart(core, c);
    hide ChangeSound, ImpactSound, ImpactRuleIds, ChangeIds, RuleIds, ClauseIds, AllIn, ObligationsTouched, Distinct;
  }

  lemma ImpactsPart(core: Snapshot, c: Comparison)
    ensures (forall i :: i in c.impacts ==> ImpactSound(core, c, i)) <==>
      && (forall i, id :: i in c.impacts && id in i.changeIds ==> id in ChangeIds(c.changes))
      && (forall i :: i in c.impacts ==> Distinct(i.changeIds))
      && (forall x :: x in ImpactRuleIds(c.impacts) ==> x in RuleIds(core))
      && (forall i :: i in c.impacts ==> i.evidenceIds != [] && AllIn(i.evidenceIds, c.evidenceIds))
      && (forall i :: i in c.impacts ==> ObligationsTouched(core, c.changes, i))
  {
    hide *;
    ImpactRulesAre(c.impacts);
    forall i | i in c.impacts
      ensures ImpactSound(core, c, i) <==>
        && Distinct(i.changeIds) && (forall x :: x in i.changeIds ==> x in ChangeIds(c.changes))
        && i.evidenceIds != [] && AllIn(i.evidenceIds, c.evidenceIds)
        && (i.ruleId.Some? ==> i.ruleId.value in RuleIds(core)) && ObligationsTouched(core, c.changes, i)
      ensures i.ruleId.Some? ==> i.ruleId.value in ImpactRuleIds(c.impacts)
    {
      ImpactSoundIff(core, c, i);
      if i.ruleId.Some? {
        var x := i.ruleId.value;
        assert i.ruleId == Some(x);
      }
    }
    if forall i :: i in c.impacts ==> ImpactSound(core, c, i) {
      forall x | x in ImpactRuleIds(c.impacts) ensures x in RuleIds(core) {
        var i :| i in c.impacts && i.ruleId == Some(x);
        assert ImpactSound(core, c, i);
      }
    }
    if forall x :: x in ImpactRuleIds(c.impacts) ==> x in RuleIds(core) {
      forall i | i in c.impacts ensures i.ruleId.Some? ==> i.ruleId.value in RuleIds(core) { }
    }
  }

  lemma ChangesPart(core: Snapshot, c: Comparison)
    ensures (forall ch :: ch in c.changes ==> ChangeSound(core, c, ch)) <==>
      && (forall id :: id in ChangeIds(c.changes) ==> exists i :: i in c.impacts && id in i.changeIds)
      && (forall ch :: ch in c.changes ==>
            && (ch.baseText != "" || ch.compareText != "")
            && AllIn(ch.evidenceIds, c.evidenceIds)
            && (forall x :: x in ch.clauseIds ==> x in ClauseIds(core)))
  {
    hide *;
    ChangeIdsAre(c.changes);
    forall ch | ch in c.changes
      ensures ChangeSound(core, c, ch) <==>
        && (ch.baseText != "" || ch.compareText != "") && AllIn(ch.evidenceIds, c.evidenceIds)
        && (forall x :: x in ch.clauseIds ==> x in ClauseIds(core))
        && exists i :: i in c.impacts && ch.changeId in i.changeIds
      ensures ch.changeId in ChangeIds(c.changes)
    {
      ChangeSoundIff(core, c, ch);
    }
  }

  lemma ComparisonSoundIff(r: Review, c: Comparison)
    ensures ComparisonIntegrity(r.core, r.run.runId, r.evidence, c) <==> ComparisonSound(r, c)
  {
    hide SourcesMatch, NamesDocuments, Retriggers, ImpactsCoverChanges, ImpactSound, ChangeSound, ImpactRuleIds,
      ChangeIds, ExpectedRetrigger, ObligationsTouched, Elements, FindingIds;
    NamesDocumentsIff(r.core, c);
    RetriggersIff(r.core, c);
    PartsSoundIff(r.core, c);
    ImpactRulesAre(c.impacts);
    ChangeIdsAre(c.changes);
    FindingIdsAre(r.core.findings);
  }

  // ------------------------------------------------------- revision sets and attachments

  /** A revision set belongs to the run and has a fingerprint; its changes have unique ids and
      share evidence with their findings, and their clauses are known. */
  ghost predicate RevisionSound(r: Review, v: RevisionSet)
  {
    && v.runId == r.run.runId && v.revisionFingerprint != None
    && (forall i, j :: 0 <= i < j < |v.changes| ==> v.changes[j].changeId != v.changes[i].changeId)
    && (forall ch :: ch in v.changes && ch.clauseId.Some? ==>
          exists clause :: clause in r.core.clauses && clause.clauseId == ch.clauseId.value)
    && forall ch :: ch in v.changes ==>
         exists f, x ::
           f in r.core.findings && f.findingId == ch.findingId && x in ch.evidenceIds && x in f.evidenceIds
  }

  lemma RevisionSoundIff(r: Review, v: RevisionSet)
    ensures RevisionIntegrity(r.core, r.run.runId, v) <==> RevisionSound(r, v)
  {
    assert forall x :: x in ClauseIds(r.core) <==> exists clause :: clause in r.core.clauses && clause.clauseId == x;
    hide ClauseIds;
  }

  /** The ids of the comparisons, in order; so for the revision sets. */
  predicate ListsComparisons(ids: seq<Id>, comparisons: seq<Comparison>)
  {
    |ids| == |comparisons| && forall i :: 0 <= i < |ids| ==> ids[i] == comparisons[i].comparisonId
  }

  predicate ListsRevisions(ids: seq<Id>, revisions: seq<RevisionSet>)
  {
    |ids| == |revisions| && forall i :: 0 <= i < |ids| ==> ids[i] == revisions[i].revisionId
  }

  ghost predicate Attached(r: Review, a: Attachment)
  {
    match a
    case ComparisonRef(x) => exists c :: c in r.comparisons && c.comparisonId == x
    case RevisionRef(x) => exists v :: v in r.revisions && v.revisionId == x
  }

  /** Comparisons and revision sets have unique ids, run and report list them in order, and
      the sequence names each of them once and nothing else. */
  ghost predicate AttachmentsSound(r: Review)
  {
    && (forall i, j :: 0 <= i < j < |r.comparisons| ==> r.comparisons[i].comparisonId != r.comparisons[j].comparisonId)
    && (forall i, j :: 0 <= i < j < |r.revisions| ==> r.revisions[i].revisionId != r.revisions[j].revisionId)
    && ListsComparisons(r.run.comparisonIds, r.comparisons) && ListsComparisons(r.report.comparisonIds, r.comparisons)
    && ListsRevisions(r.run.revisionIds, r.revisions) && ListsRevisions(r.report.revisionIds, r.revisions)
    && (forall i, j :: 0 <= i < j < |r.sequence| ==> r.sequence[i] != r.sequence[j])
    && |r.sequence| == |r.comparisons| + |r.revisions|
    && forall a :: a in r.sequence <==> Attached(r, a)
  }

  lemma AttachedIff(r: Review, a: Attachment)
    ensures Attached(r, a) <==>
      if a.ComparisonRef? then a.id in ComparisonIds(r.comparisons) else a.id in RevisionIds(r.revisions)
  {
    if c :| c in r.comparisons && c.comparisonId == a.id {
      var i :| 0 <= i < |r.comparisons| && r.comparisons[i] == c;
      assert ComparisonIds(r.comparisons)[i] == a.id;
    }
    if v :| v in r.revisions && v.revisionId == a.id {
      var i :| 0 <= i < |r.revisions| && r.revisions[i] == v;
      assert RevisionIds(r.revisions)[i] == a.id;
    }
  }

  lemma UniqueIff(r: Review)
    ensures Distinct(ComparisonIds(r.comparisons)) <==>
      forall i, j :: 0 <= i < j < |r.comparisons| ==> r.comparisons[i].comparisonId != r.comparisons[j].comparisonId
    ensures Distinct(RevisionIds(r.revisions)) <==>
      forall i, j :: 0 <= i < j < |r.revisions| ==> r.revisions[i].revisionId != r.revisions[j].revisionId
    ensures Distinct(EvidenceIds(r.evidence)) <==>
      forall i, j :: 0 <= i < j < |r.evidence| ==> r.evidence[i].evidenceId != r.evidence[j].evidenceId
  {
    var cs, vs, es := ComparisonIds(r.comparisons), RevisionIds(r.revisions), EvidenceIds(r.evidence);
    forall i, j | 0 <= i < j < |cs| && Distinct(cs)
      ensures r.comparisons[i].comparisonId != r.comparisons[j].comparisonId
    {
      assert cs[i] != cs[j];
    }
    forall i, j | 0 <= i < j < |vs| && Distinct(vs) ensures r.revisions[i].revisionId != r.revisions[j].revisionId {
      assert vs[i] != vs[j];
    }
    forall i, j | 0 <= i < j < |es| && Distinct(es) ensures r.evidence[i].evidenceId != r.evidence[j].evidenceId {
      assert es[i] != es[j];
    }
  }

  lemma AttachmentsSoundIff(r: Review)
    ensures AttachmentsSound(r) <==>
      && Distinct(ComparisonIds(r.comparisons)) && Distinct(RevisionIds(r.revisions)) && PostReviewAlignment(r)
  {
    UniqueIff(r);
    hide Attached;
    forall a ensures Attached(r, a) <==>
      if a.ComparisonRef? then a.id in ComparisonIds(r.comparisons) else a.id in RevisionIds(r.revisions)
    {
      AttachedIff(r, a);
    }
    forall ids ensures ids == ComparisonIds(r.comparisons) <==> ListsComparisons(ids, r.comparisons) { }
    forall ids ensures ids == RevisionIds(r.revisions) <==> ListsRevisions(ids, r.revisions) { }
    hide ListsComparisons, ListsRevisions, ComparisonIds, RevisionIds;
    if AttachmentsSound(r) {
      forall x | x in ComparisonIds(r.comparisons) ensures ComparisonRef(x) in r.sequence {
        assert Attached(r, ComparisonRef(x));
      }
      forall x | x in RevisionIds(r.revisions) ensures RevisionRef(x) in r.sequence {
        assert Attached(r, RevisionRef(x));
      }
    }
  }

  // ------------------------------------------------------------------------- the audit

  /** Everything that cites evidence cites evidence of the review. */
  ghost predicate CitesKnown(r: Review)
  {
    && (forall x :: x in r.core.rest.references ==> Known(r.evidence, x))
    && (forall f :: f in r.core.findings ==> AllKnown(r.evidence, f.evidenceIds))
    && (forall e :: e in r.run.stageEvents ==> AllKnown(r.evidence, e.evidenceIds))
    && (forall c :: c in r.comparisons ==> AllKnown(r.evidence, c.evidenceIds))
    && (forall c, ch :: c in r.comparisons && ch in c.changes ==> AllKnown(r.evidence, ch.evidenceIds))
    && forall v, ch :: v in r.revisions && ch in v.changes ==> AllKnown(r.evidence, ch.evidenceIds)
  }

  lemma CitesKnownIff(r: Review)
    ensures References(r, EvidenceIds(r.evidence)) <==> CitesKnown(r)
  {
    hide Known, AllKnown, AllIn, EvidenceIds;
    forall x ensures Known(r.evidence, x) <==> x in EvidenceIds(r.evidence) { KnownIff(r.evidence, x); }
    forall ids ensures AllKnown(r.evidence, ids) <==> AllIn(ids, EvidenceIds(r.evidence)) {
      AllKnownIff(r.evidence, ids);
    }
    if CitesKnown(r) {
      forall c | c in r.comparisons ensures ComparisonReferences(c, EvidenceIds(r.evidence)) { }
      forall v | v in r.revisions ensures RevisionReferences(v, EvidenceIds(r.evidence)) { }
    }
  }

  /** The audit of a whole review, part by part. */
  ghost predicate Sound(r: Review)
  {
    && SnapshotSound(r.core)
    && (forall i, j :: 0 <= i < j < |r.evidence| ==> r.evidence[i].evidenceId != r.evidence[j].evidenceId)
    && (forall e :: e in r.evidence ==> EvidenceSound(r.core, e)) && CitesKnown(r)
    && (forall c :: c in r.comparisons ==> ComparisonSound(r, c))
    && (forall v :: v in r.revisions ==> RevisionSound(r, v)) && AttachmentsSound(r)
    && LedgerSound(r) && DecisionsSound(r) && ReportSound(r)
  }

  /** A result passes its audit if and only if all its parts are sound and the fingerprint it
      carries is that of its present content. */
  lemma AuditedIff(s: ReviewResult)
    ensures Audited(s) <==> Sound(s.review) && s.fingerprint.Some? && s.fingerprint.value == Fingerprint(s.review)
  {
    var r := s.review;
    hide *;
    SnapshotSoundIff(r.core);
    forall e ensures Provenance(r.core, e) <==> EvidenceSound(r.core, e) { EvidenceSoundIff(r.core, e); }
    forall c ensures ComparisonIntegrity(r.core, r.run.runId, r.evidence, c) <==> ComparisonSound(r, c) {
      ComparisonSoundIff(r, c);
    }
    forall v ensures RevisionIntegrity(r.core, r.run.runId, v) <==> RevisionSound(r, v) { RevisionSoundIff(r, v); }
    CitesKnownIff(r);
    UniqueIff(r);
    AttachmentsSoundIff(r);
    LedgerSoundIff(r);
    DecisionsSoundIff(r);
    ReportSoundIff(r);
    Parts(s);
  }

  lemma Parts(s: ReviewResult)
    requires SnapshotIntegrity(s.review.core) <==> SnapshotSound(s.review.core)
    requires forall e :: Provenance(s.review.core, e) <==> EvidenceSound(s.review.core, e)
    requires forall c :: ComparisonIntegrity(s.review.core, s.review.run.runId, s.review.evidence, c) <==>
      ComparisonSound(s.review, c)
    requires forall v :: RevisionIntegrity(s.review.core, s.review.run.runId, v) <==> RevisionSound(s.review, v)
    requires References(s.review, EvidenceIds(s.review.evidence)) <==> CitesKnown(s.review)
    requires AttachmentsSound(s.review) <==>
      && Distinct(ComparisonIds(s.review.comparisons)) && Distinct(RevisionIds(s.review.revisions))
      && PostReviewAlignment(s.review)
    requires LedgerValid(s.review.run, EvidenceIds(s.review.evidence)) <==> LedgerSound(s.review)
    requires DecisionAlignment(s.review) <==> DecisionsSound(s.review)
    requires ReportIntegrity(s.review) <==> ReportSound(s.review)
    ensures Audited(s) <==> Sound(s.review) && s.fingerprint.Some? && s.fingerprint.value == Fingerprint(s.review)
  {
    UniqueIff(s.review);
    hide SnapshotIntegrity, SnapshotSound, Provenance, EvidenceSound, ComparisonIntegrity, ComparisonSound,
      RevisionIntegrity, RevisionSound, References, CitesKnown, AttachmentsSound, PostReviewAlignment, LedgerValid,
      LedgerSound, DecisionAlignment, DecisionsSound, ReportIntegrity, ReportSound, Distinct, EvidenceIds, Fingerprint;
  }
}
