/** What is in a revision set or a comparison that was built, finding by finding and
 difference by difference. */
module BuiltParts {
  import opened Collecting
  import opened Ordering
  import opened ReviewModel
  import opened ReviewActions
  import opened AuditKeeping
  import opened RevisionBuilding
  import ComparisonBuilding

  // --------------------------------------------------------------------- revision sets

  /** The finding names clause number k of the review, and no earlier one that it names is
      known. */
  ghost predicate FirstNamed(core: Snapshot, f: Finding, k: int)
  {
    && 0 <= k < |f.clauseIds| && (exists c :: c in core.clauses && c.clauseId == f.clauseIds[k])
    && forall j, c :: 0 <= j < k && c in core.clauses ==> c.clauseId != f.clauseIds[j]
  }

  ghost predicate CitesSome(b: Builder, c: Clause, f: Finding) { exists e :: e in f.evidenceIds && b.cites(c, e) }

  /** Clause number k is the first that cites evidence of the finding. */
  ghost predicate FirstCites(b: Builder, core: Snapshot, f: Finding, k: int)
  {
    && 0 <= k < |core.clauses| && CitesSome(b, core.clauses[k], f)
    && forall j :: 0 <= j < k ==> !CitesSome(b, core.clauses[j], f)
  }

  lemma {:induction false} NamedAt(core: Snapshot, ids: seq<Id>)
    ensures FirstKnown(ids, core).Some? ==>
      exists k :: 0 <= k < |ids| && FirstKnown(ids, core) == Some(ids[k])
        && ids[k] in ClauseIds(core) && forall j :: 0 <= j < k ==> ids[j] !in ClauseIds(core)
    ensures FirstKnown(ids, core).None? ==> forall j :: 0 <= j < |ids| ==> ids[j] !in ClauseIds(core)
  {
    if ids != [] && ids[0] !in ClauseIds(core) {
      NamedAt(core, ids[1..]);
      if FirstKnown(ids, core).Some? {
        var k :| 0 <= k < |ids[1..]| && FirstKnown(ids[1..], core) == Some(ids[1..][k])
          && ids[1..][k] in ClauseIds(core) && forall j :: 0 <= j < k ==> ids[1..][j] !in ClauseIds(core);
        assert ids[k + 1] == ids[1..][k];
        assert forall j :: 0 < j < k + 1 ==> ids[j] == ids[1..][j - 1];
      }
    }
  }

  lemma {:induction false} CitingAt(b: Builder, clauses: seq<Clause>, f: Finding)
    ensures FirstCiting(b, clauses, f).Some? ==>
      exists k :: 0 <= k < |clauses| && FirstCiting(b, clauses, f) == Some(clauses[k].clauseId)
        && CitesSome(b, clauses[k], f) && forall j :: 0 <= j < k ==> !CitesSome(b, clauses[j], f)
    ensures FirstCiting(b, clauses, f).None? ==> forall j :: 0 <= j < |clauses| ==> !CitesSome(b, clauses[j], f)
  {
    if clauses != [] && !CitesSome(b, clauses[0], f) {
      var rest := clauses[1..];
      CitingAt(b, rest, f);
      if FirstCiting(b, clauses, f).Some? {
        var k :| 0 <= k < |rest| && FirstCiting(b, rest, f) == Some(rest[k].clauseId)
          && CitesSome(b, rest[k], f) && forall j :: 0 <= j < k ==> !CitesSome(b, rest[j], f);
        assert clauses[k + 1] == rest[k];
        assert forall j :: 0 < j < k + 1 ==> clauses[j] == rest[j - 1];
      }
    }
  }

  /** A proposal is about the first known clause that its finding names; without one, about
      the first clause that cites evidence of it; and about none when there is neither. */
  lemma ClauseIs(b: Builder, core: Snapshot, f: Finding)
    ensures forall k :: FirstNamed(core, f, k) ==> ClauseFor(b, core, f) == Some(f.clauseIds[k])
    ensures (forall k :: !FirstNamed(core, f, k)) ==>
      forall k :: FirstCites(b, core, f, k) ==> ClauseFor(b, core, f) == Some(core.clauses[k].clauseId)
    ensures (forall k :: !FirstNamed(core, f, k)) && (forall k :: !FirstCites(b, core, f, k)) ==>
      ClauseFor(b, core, f) == None
  {
    hide FirstKnown, FirstCiting, CitesSome;
    NamedAt(core, f.clauseIds);
    CitingAt(b, core.clauses, f);
    forall x ensures x in ClauseIds(core) <==> exists c :: c in core.clauses && c.clauseId == x { }
    if FirstKnown(f.clauseIds, core).Some? {
      var k :| 0 <= k < |f.clauseIds| && FirstKnown(f.clauseIds, core) == Some(f.clauseIds[k])
        && f.clauseIds[k] in ClauseIds(core) && forall j :: 0 <= j < k ==> f.clauseIds[j] !in ClauseIds(core);
      assert FirstNamed(core, f, k);
      forall i | FirstNamed(core, f, i) ensures i == k { }
    } else {
      forall i ensures !FirstNamed(core, f, i) { }
      if FirstCiting(b, core.clauses, f).Some? {
        var k :| 0 <= k < |core.clauses| && FirstCiting(b, core.clauses, f) == Some(core.clauses[k].clauseId)
          && CitesSome(b, core.clauses[k], f) && forall j :: 0 <= j < k ==> !CitesSome(b, core.clauses[j], f);
        assert FirstCites(b, core, f, k);
        forall i | FirstCites(b, core, f, i) ensures i == k { }
      }
    }
  }

  /** The findings with one of the statuses, in order. */
  function Chosen(statuses: set<FindingStatus>, findings: seq<Finding>): seq<Finding>
  {
    Collect((f: Finding) => Kept(f.status in statuses, f), findings)
  }

  /** No finding with one of the statuses is without evidence. */
  predicate AllEvidenced(statuses: set<FindingStatus>, findings: seq<Finding>)
  {
    forall i :: 0 <= i < |findings| && findings[i].status in statuses ==> findings[i].evidenceIds != []
  }

  ghost predicate Proposes(b: Builder, core: Snapshot, f: Finding, ch: RevisionChange)
  {
    && ch.findingId == f.findingId && ch.changeId == b.changeName(f.findingId) && ch.proposal == b.proposal(f)
    && ch.clauseId == ClauseFor(b, core, f)
    && Distinct(ch.evidenceIds) && forall e :: e in ch.evidenceIds <==> e in f.evidenceIds
  }

  lemma {:induction false} ProposalsFor(b: Builder, core: Snapshot, statuses: set<FindingStatus>,
                                        findings: seq<Finding>)
    ensures var changes := ChangesFor(b, core, statuses, findings);
      && (changes.Ok? <==> AllEvidenced(statuses, findings))
      && (changes.Ok? ==> |changes.value| == |Chosen(statuses, findings)| && forall i :: 0 <= i < |changes.value| ==>
            Proposes(b, core, Chosen(statuses, findings)[i], changes.value[i]))
  {
    hide ClauseFor;
    if findings != [] {
      var front, f := findings[..|findings| - 1], findings[|findings| - 1];
      ProposalsFor(b, core, statuses, front);
      DedupDistinct(f.evidenceIds);
      var keep := (g: Finding) => Kept(g.status in statuses, g);
      assert Chosen(statuses, findings) == Collect(keep, front) + if f.status in statuses then [f] else [];
      assert Chosen(statuses, front) == Collect(keep, front);
    }
  }

  /** A revision set can be built if and only if the review passes its audit and every finding
      with one of the statuses has evidence; it then holds one proposal for each of these, in
      their order, on the fingerprint of the review. */
  lemma RevisionSetIs(b: Builder, s: ReviewResult, statuses: set<FindingStatus>, now: int)
    ensures var built := BuiltSet(b, s, statuses, now);
      && (built.Ok? <==> Audited(s) && AllEvidenced(statuses, s.review.core.findings))
      && (built.Ok? ==>
            && s.fingerprint == Some(built.value.baseFingerprint) && built.value.runId == s.review.run.runId
            && built.value.createdAt == now
            && built.value.revisionFingerprint.Some?
            && built.value.revisionId == b.revisionName(s.review.run.runId, built.value.revisionFingerprint.value)
            && built.value.revisionFingerprint.value == b.hash(built.value.baseFingerprint, built.value.changes))
      && (built.Ok? ==>
            && |built.value.changes| == |Chosen(statuses, s.review.core.findings)|
            && forall i :: 0 <= i < |built.value.changes| ==>
                 Proposes(b, s.review.core, Chosen(statuses, s.review.core.findings)[i], built.value.changes[i]))
  {
    hide ChangesFor, Proposes;
    ProposalsFor(b, s.review.core, statuses, s.review.core.findings);
  }

  // ----------------------------------------------------------------------- comparisons

  /** A comparison can be built if and only if every difference has an id and a known kind;
      it then has one change for each, in their order, on evidence still to be made, and
      nothing bound or concluded yet. */
  lemma ComparisonIs(names: Naming, identify: ComparisonBuilding.Identify, from: ComparisonBuilding.Sources,
                     differences: seq<ComparisonBuilding.Difference>, now: int)
    ensures var built := ComparisonBuilding.BuiltComparison(names, identify, from, differences, now);
      && (built.Ok? <==> forall i :: 0 <= i < |differences| ==>
            differences[i].changeId.Some? && differences[i].kindKnown)
      && (built.Ok? ==>
            && built.value.comparisonId == identify(from, differences) && built.value.runId == from.runId
            && built.value.baseFilename == from.baseFilename && built.value.compareFilename == from.compareFilename
            && built.value.baseSha256 == from.baseSha256 && built.value.compareSha256 == from.compareSha256
            && built.value.evidenceIds == [] && built.value.impacts == [] && built.value.retriggerRuleIds == []
            && built.value.createdAt == now && Distinct(built.value.findingIds)
            && (forall x :: x in built.value.findingIds <==> x in from.findingIds)
            && |built.value.changes| == |differences|
            && forall i :: 0 <= i < |differences| ==>
                 && differences[i].changeId.Some?
                 && built.value.changes[i].changeId == differences[i].changeId.value
                 && built.value.changes[i].baseText == differences[i].baseText
                 && built.value.changes[i].compareText == differences[i].compareText
                 && built.value.changes[i].evidenceIds == [names.pendingFor(differences[i].changeId.value)]
                 && built.value.changes[i].clauseIds == differences[i].clauseIds)
  {
    DedupDistinct(from.findingIds);
    if ComparisonBuilding.AllComplete(differences) {
      forall i | 0 <= i < |differences| ensures ComparisonBuilding.Complete(differences[i]) { }
    }
  }
}
