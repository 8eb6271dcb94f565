/**
 What the result fingerprint depends on: the content up to the order of the sorted
 collections, and neither wall-clock times nor run-instance identifiers.
 */
module Fingerprints {
  import opened Ordering
  import opened ReviewModel

  ghost predicate UniqueRecords(a: Archive)
  {
    && UniqueKeys(RecordKey, a.chunks) && UniqueKeys(DatedKey, Map(Undated, a.traces))
    && UniqueKeys(RecordKey, a.candidates) && UniqueKeys(RecordKey, a.assessments)
    && UniqueKeys(RecordKey, a.attachments) && UniqueKeys(DatedKey, Map(Undated, a.facts))
    && UniqueKeys(RecordKey, a.relations) && UniqueKeys(RecordKey, a.questions) && UniqueKeys(RecordKey, a.answers)
  }

  /** Equal up to the order of each collection and the times of creation. */
  ghost predicate SameArchive(a: Archive, b: Archive)
  {
    && multiset(a.chunks) == multiset(b.chunks)
    && multiset(Map(Undated, a.traces)) == multiset(Map(Undated, b.traces))
    && multiset(a.candidates) == multiset(b.candidates) && multiset(a.assessments) == multiset(b.assessments)
    && multiset(a.attachments) == multiset(b.attachments)
    && multiset(Map(Undated, a.facts)) == multiset(Map(Undated, b.facts))
    && multiset(a.relations) == multiset(b.relations) && multiset(a.questions) == multiset(b.questions)
    && multiset(a.answers) == multiset(b.answers)
  }

  lemma ArchiveIff(a: Archive, b: Archive)
    requires UniqueRecords(a)
    ensures CanonicalArchive(a) == CanonicalArchive(b) <==> SameArchive(a, b)
  {
    hide SortByKey, UniqueKeys;
    SortByKeyIff(RecordKey, a.chunks, b.chunks);
    SortByKeyIff(DatedKey, Map(Undated, a.traces), Map(Undated, b.traces));
    SortByKeyIff(RecordKey, a.candidates, b.candidates);
    SortByKeyIff(RecordKey, a.assessments, b.assessments);
    SortByKeyIff(RecordKey, a.attachments, b.attachments);
    SortByKeyIff(DatedKey, Map(Undated, a.facts), Map(Undated, b.facts));
    SortByKeyIff(RecordKey, a.relations, b.relations);
    SortByKeyIff(RecordKey, a.questions, b.questions);
    SortByKeyIff(RecordKey, a.answers, b.answers);
  }

  ghost predicate UniqueIds(r: Review)
  {
    && UniqueRecords(r.core.archive)
    && UniqueKeys(DocumentKey, r.core.documents) && UniqueKeys(ClauseKey, r.core.clauses)
    && UniqueKeys(ObligationKey, r.core.obligations) && UniqueKeys(FindingKey, r.core.findings)
    && UniqueKeys(EvidenceKey, Map(Timeless, r.evidence)) && UniqueKeys(DecisionKey, Map(ContentOf, r.decisions))
  }

  ghost predicate SameSnapshot(a: Snapshot, b: Snapshot)
  {
    && a.packageId == b.packageId && a.precedence == b.precedence && a.rules == b.rules
    && a.selectedRuleIds == b.selectedRuleIds && a.rest == b.rest && SameArchive(a.archive, b.archive)
    && multiset(a.documents) == multiset(b.documents) && multiset(a.clauses) == multiset(b.clauses)
    && multiset(a.obligations) == multiset(b.obligations) && multiset(a.findings) == multiset(b.findings)
  }

  ghost predicate SameReport(a: Review, b: Review)
  {
    && a.run.status == b.run.status
    && a.run.comparisonIds == b.run.comparisonIds && a.run.revisionIds == b.run.revisionIds
    && a.report.overallStatus == b.report.overallStatus && a.report.findingCounts == b.report.findingCounts
    && multiset(a.report.findingIds) == multiset(b.report.findingIds)
    && multiset(a.report.comparisonIds) == multiset(b.report.comparisonIds)
    && multiset(a.report.revisionIds) == multiset(b.report.revisionIds)
    && a.report.reviewRequired == b.report.reviewRequired
  }

  /** Equal up to permutations of the sorted collections; capture and creation times,
      decision ids and times, stage events and finish time do not occur. */
  ghost predicate SameReviewContent(a: Review, b: Review)
  {
    && SameSnapshot(a.core, b.core)
    && multiset(Map(Timeless, a.evidence)) == multiset(Map(Timeless, b.evidence))
    && multiset(Map(ContentOf, a.decisions)) == multiset(Map(ContentOf, b.decisions))
    && Map(TimelessComparison, a.comparisons) == Map(TimelessComparison, b.comparisons)
    && Map(TimelessRevision, a.revisions) == Map(TimelessRevision, b.revisions)
    && a.sequence == b.sequence
    && SameReport(a, b)
  }

  /** Equal fingerprints, equal content: both directions. */
  lemma FingerprintIff(a: Review, b: Review)
    requires UniqueIds(a)
    ensures Fingerprint(a) == Fingerprint(b) <==> SameReviewContent(a, b)
  {
    hide SortByKey, SortIds, UniqueKeys, UniqueRecords, SameArchive, CanonicalArchive;
    ArchiveIff(a.core.archive, b.core.archive);
    SortByKeyIff(DocumentKey, a.core.documents, b.core.documents);
    SortByKeyIff(ClauseKey, a.core.clauses, b.core.clauses);
    SortByKeyIff(ObligationKey, a.core.obligations, b.core.obligations);
    SortByKeyIff(FindingKey, a.core.findings, b.core.findings);
    SortByKeyIff(EvidenceKey, Map(Timeless, a.evidence), Map(Timeless, b.evidence));
    SortByKeyIff(DecisionKey, Map(ContentOf, a.decisions), Map(ContentOf, b.decisions));
    SortIdsIff(a.report.findingIds, b.report.findingIds);
    SortIdsIff(a.report.comparisonIds, b.report.comparisonIds);
    SortIdsIff(a.report.revisionIds, b.report.revisionIds);
  }

  /** The order in which a decision lists its evidence does not count either. */
  lemma DecisionContentIff(d: ReviewDecision, e: ReviewDecision)
    ensures ContentOf(d) == ContentOf(e) <==>
      && d.findingId == e.findingId && d.decision == e.decision && d.actorId == e.actorId
      && d.actorRole == e.actorRole && d.comment == e.comment && multiset(d.evidenceIds) == multiset(e.evidenceIds)
  {
    SortIdsIff(d.evidenceIds, e.evidenceIds);
  }
}
