/**
 Attaching a version comparison to an audited result: the audit that follows can only
 fail for three reasons that are visible on the input.
 */
module ComparisonGate {
  import opened Ordering
  import opened ReviewModel
  import opened VersionImpacts
  import opened ReviewActions
  import opened AuditKeeping

  // ----------------------------------------------------------- what binding produces

  predicate Requests(env: Env, change: VersionChange)
  {
    Requested(env.names, change.evidenceIds) != []
  }

  function NewId(env: Env, c: Comparison, change: VersionChange): Id
  {
    env.names.join(c.comparisonId, change.changeId)
  }

  /** The result of binding one change, when it succeeds. */
  ghost predicate BoundAs(r: Review, env: Env, c: Comparison, change: VersionChange, b: Binding)
  {
    && |b.changes| == 1
    && b.changes[0] == change.(evidenceIds := b.changes[0].evidenceIds, clauseIds := b.changes[0].clauseIds)
    && b.changes[0].clauseIds == BoundClauseIds(r.core, env.judge, c, change)
    && (forall x :: x in b.changes[0].clauseIds ==> x in ClauseIds(r.core))
    && b.changes[0].evidenceIds != []
    && if Requests(env, change) then
         && b.evidence == []
         && forall x :: x in b.changes[0].evidenceIds ==> HasComparisonEvidence(r.evidence, x)
       else
         && b.changes[0].evidenceIds == [NewId(env, c, change)]
         && NewId(env, c, change) !in EvidenceIds(r.evidence)
         && |b.evidence| == 1
         && b.evidence[0] == ComparisonEvidence(r.core, NewId(env, c, change), b.evidence[0].excerpt,
                                                b.evidence[0].capturedAt)
  }

  predicate HasComparisonEvidence(evidence: seq<Evidence>, id: Id)
  {
    exists e :: e in evidence && e.evidenceId == id && e.evidenceType == COMPARISON
  }

  lemma BindingOne(r: Review, env: Env, c: Comparison, change: VersionChange, now: int)
    requires BindChange(r, env, c, change, now).Ok?
    ensures BoundAs(r, env, c, change, BindChange(r, env, c, change, now).value)
  {
    var requested := Requested(env.names, change.evidenceIds);
    if requested != [] {
      forall x | x in Dedup(requested) ensures HasComparisonEvidence(r.evidence, x) {
        var i :| 0 <= i < |r.evidence| && EvidenceIds(r.evidence)[i] == x;
        assert r.evidence[i] in r.evidence;
      }
    }
  }

  /** All changes of b are bound versions of `changes`, evidence in the same order. */
  ghost predicate AllBound(r: Review, env: Env, c: Comparison, changes: seq<VersionChange>, b: Binding)
  {
    && |b.changes| == |changes|
    && (forall i :: 0 <= i < |changes| ==> Bound(r, env, c, changes[i], b.changes[i], b.evidence))
    && (forall e :: e in b.evidence ==> exists ch :: ch in changes && IsNew(r, env, c, ch, e))
    && |b.evidence| <= |changes|
  }

  ghost predicate Bound(r: Review, env: Env, c: Comparison, change: VersionChange, bound: VersionChange,
                        added: seq<Evidence>)
  {
    && bound == change.(evidenceIds := bound.evidenceIds, clauseIds := bound.clauseIds)
    && bound.clauseIds == BoundClauseIds(r.core, env.judge, c, change)
    && (forall x :: x in bound.clauseIds ==> x in ClauseIds(r.core))
    && bound.evidenceIds != []
    && (forall x :: x in bound.evidenceIds ==> HasComparisonEvidence(r.evidence + added, x))
    && (!Requests(env, change) ==>
          bound.evidenceIds == [NewId(env, c, change)] && NewId(env, c, change) in EvidenceIds(added))
  }

  ghost predicate IsNew(r: Review, env: Env, c: Comparison, change: VersionChange, e: Evidence)
  {
    && !Requests(env, change)
    && e == ComparisonEvidence(r.core, NewId(env, c, change), e.excerpt, e.capturedAt)
    && e.evidenceId !in EvidenceIds(r.evidence)
  }

  lemma ComparisonEvidenceGrows(evidence: seq<Evidence>, more: seq<Evidence>, id: Id)
    requires HasComparisonEvidence(evidence, id)
    requires forall e :: e in evidence ==> e in more
    ensures HasComparisonEvidence(more, id)
  {
    var e :| e in evidence && e.evidenceId == id && e.evidenceType == COMPARISON;
    assert e in more;
  }

  lemma BoundGrows(r: Review, env: Env, c: Comparison, change: VersionChange, bound: VersionChange,
                   added: seq<Evidence>, more: seq<Evidence>)
    requires Bound(r, env, c, change, bound, added)
    ensures Bound(r, env, c, change, bound, added + more)
  {
    forall x | x in bound.evidenceIds ensures HasComparisonEvidence(r.evidence + (added + more), x) {
      ComparisonEvidenceGrows(r.evidence + added, r.evidence + (added + more), x);
    }
    MapAppend((e: Evidence) => e.evidenceId, added, more);
    assert EvidenceIds(added + more) == EvidenceIds(added) + EvidenceIds(more);
  }

  lemma BoundOne(r: Review, env: Env, c: Comparison, change: VersionChange, b: Binding, before: seq<Evidence>)
    requires BoundAs(r, env, c, change, b)
    ensures Bound(r, env, c, change, b.changes[0], before + b.evidence)
    ensures forall e :: e in b.evidence ==> IsNew(r, env, c, change, e)
  {
    var added := before + b.evidence;
    if Requests(env, change) {
      forall x | x in b.changes[0].evidenceIds ensures HasComparisonEvidence(r.evidence + added, x) {
        ComparisonEvidenceGrows(r.evidence, r.evidence + added, x);
      }
    } else {
      assert (r.evidence + added)[|r.evidence + before|] == b.evidence[0];
      assert b.evidence[0] in r.evidence + added;
      assert EvidenceIds(added)[|before|] == NewId(env, c, change);
    }
  }

  lemma {:induction false} BindingAll(r: Review, env: Env, c: Comparison, changes: seq<VersionChange>, now: int)
    requires BindChanges(BinderOf(r, env, c, now), changes).Ok?
    ensures AllBound(r, env, c, changes, BindChanges(BinderOf(r, env, c, now), changes).value)
  {
    if changes != [] {
      var bind := BinderOf(r, env, c, now);
      var front, change := changes[..|changes| - 1], changes[|changes| - 1];
      SnocParts(changes);
      BindingAll(r, env, c, front, now);
      BindingOne(r, env, c, change, now);
      var f, b := BindChanges(bind, front).value, bind(change).value;
      AllBoundSnoc(r, env, c, front, change, f, b);
    }
  }

  lemma AllBoundSnoc(r: Review, env: Env, c: Comparison, front: seq<VersionChange>, change: VersionChange,
                     f: Binding, b: Binding)
    requires AllBound(r, env, c, front, f) && BoundAs(r, env, c, change, b)
    ensures AllBound(r, env, c, front + [change], Binding(f.changes + b.changes, f.evidence + b.evidence))
  {
    var changes := front + [change];
    BoundOne(r, env, c, change, b, f.evidence);
    forall i | 0 <= i < |changes|
      ensures Bound(r, env, c, changes[i], (f.changes + b.changes)[i], f.evidence + b.evidence)
    {
      if i < |front| {
        BoundGrows(r, env, c, front[i], f.changes[i], f.evidence, b.evidence);
      }
    }
    forall e | e in f.evidence + b.evidence ensures exists ch :: ch in changes && IsNew(r, env, c, ch, e) {
      if e in f.evidence {
        var ch :| ch in front && IsNew(r, env, c, ch, e);
        assert ch in changes;
      } else {
        assert change in changes;
      }
    }
  }

  // ------------------------------------------------------------ the new evidence ids

  /** Some change without evidence of its own would take the id of the summary. */
  predicate SummaryClash(env: Env, c: Comparison)
  {
    exists ch :: ch in c.changes && ch.changeId == SUMMARY && !Requests(env, ch)
  }

  lemma {:induction false} NewIdsDistinct(r: Review, env: Env, c: Comparison, changes: seq<VersionChange>, now: int)
    requires NamingLaws(env.names)
    requires BindChanges(BinderOf(r, env, c, now), changes).Ok?
    requires Distinct(ChangeIds(changes))
    ensures Distinct(EvidenceIds(BindChanges(BinderOf(r, env, c, now), changes).value.evidence))
  {
    if changes != [] {
      var bind := BinderOf(r, env, c, now);
      var front, change := changes[..|changes| - 1], changes[|changes| - 1];
      FrontDistinct(changes);
      NewIdsDistinct(r, env, c, front, now);
      BindingAll(r, env, c, front, now);
      BindingOne(r, env, c, change, now);
      var f, b := BindChanges(bind, front).value, bind(change).value;
      if b.evidence != [] {
        assert b.evidence == [b.evidence[0]];
        AppendedIdIsNew(r, env, c, front, change, f, b.evidence[0].evidenceId);
        assert EvidenceIds(f.evidence + [b.evidence[0]]) == EvidenceIds(f.evidence) + [b.evidence[0].evidenceId];
        DistinctSnoc(EvidenceIds(f.evidence), b.evidence[0].evidenceId);
      } else {
        assert f.evidence + b.evidence == f.evidence;
      }
    }
  }

  lemma FrontDistinct(changes: seq<VersionChange>)
    requires changes != [] && Distinct(ChangeIds(changes))
    ensures Distinct(ChangeIds(changes[..|changes| - 1]))
    ensures forall ch :: ch in changes[..|changes| - 1] ==> ch.changeId != changes[|changes| - 1].changeId
  {
    var front, ids := changes[..|changes| - 1], ChangeIds(changes);
    assert ChangeIds(front) == ids[..|changes| - 1];
    forall ch | ch in front ensures ch.changeId != changes[|changes| - 1].changeId {
      var i :| 0 <= i < |front| && front[i] == ch;
      assert ids[i] != ids[|changes| - 1];
    }
  }

  lemma AppendedIdIsNew(r: Review, env: Env, c: Comparison, front: seq<VersionChange>, change: VersionChange,
                        f: Binding, id: Id)
    requires NamingLaws(env.names)
    requires AllBound(r, env, c, front, f) && id == NewId(env, c, change)
    requires forall ch :: ch in front ==> ch.changeId != change.changeId
    ensures id !in EvidenceIds(f.evidence)
  {
    forall i | 0 <= i < |f.evidence| ensures EvidenceIds(f.evidence)[i] != id {
      assert f.evidence[i] in f.evidence;
      var ch :| ch in front && IsNew(r, env, c, ch, f.evidence[i]);
    }
  }

  /** The new evidence ids are fresh and distinct exactly if no change clashes with the summary. */
  lemma NewEvidenceFresh(r: Review, env: Env, c: Comparison, now: int)
    requires NamingLaws(env.names)
    requires SummaryId(env, c) !in EvidenceIds(r.evidence) && Distinct(ChangeIds(c.changes))
    requires BindChanges(BinderOf(r, env, c, now), c.changes).Ok?
    requires Distinct(EvidenceIds(r.evidence))
    ensures var added := NewEvidence(r.core, env, c, BindChanges(BinderOf(r, env, c, now), c.changes).value, now);
      Distinct(EvidenceIds(r.evidence + added)) <==> !SummaryClash(env, c)
  {
    var b := BindChanges(BinderOf(r, env, c, now), c.changes).value;
    var summary := ComparisonEvidence(r.core, SummaryId(env, c), "", now);
    BindingAll(r, env, c, c.changes, now);
    NewIdsDistinct(r, env, c, c.changes, now);
    ClashIff(r, env, c, b);
    NewIdsFresh(r, env, c, b);
    EvidenceIdsConcat(r.evidence, summary, b.evidence);
    DistinctWithHead(EvidenceIds(r.evidence), SummaryId(env, c), EvidenceIds(b.evidence));
  }

  lemma EvidenceIdsConcat(a: seq<Evidence>, e: Evidence, b: seq<Evidence>)
    ensures EvidenceIds(a + ([e] + b)) == EvidenceIds(a) + ([e.evidenceId] + EvidenceIds(b))
  {
  }

  lemma DistinctWithHead(old_ids: seq<Id>, id: Id, new_ids: seq<Id>)
    requires Distinct(old_ids) && Distinct(new_ids) && id !in old_ids
    requires forall x :: x in new_ids ==> x !in old_ids
    ensures Distinct(old_ids + ([id] + new_ids)) <==> id !in new_ids
  {
    if id !in new_ids {
      DistinctSnoc(old_ids, id);
      forall x | x in old_ids + [id] ensures x !in new_ids {
      }
      DistinctConcat(old_ids + [id], new_ids);
      assert (old_ids + [id]) + new_ids == old_ids + ([id] + new_ids);
    } else {
      var i :| 0 <= i < |new_ids| && new_ids[i] == id;
      var all := old_ids + ([id] + new_ids);
      assert all[|old_ids|] == all[|old_ids| + 1 + i];
    }
  }

  lemma ClashIff(r: Review, env: Env, c: Comparison, b: Binding)
    requires NamingLaws(env.names) && AllBound(r, env, c, c.changes, b)
    ensures SummaryId(env, c) in EvidenceIds(b.evidence) <==> SummaryClash(env, c)
  {
    if SummaryId(env, c) in EvidenceIds(b.evidence) {
      var i :| 0 <= i < |b.evidence| && EvidenceIds(b.evidence)[i] == SummaryId(env, c);
      assert b.evidence[i] in b.evidence;
      var ch :| ch in c.changes && IsNew(r, env, c, ch, b.evidence[i]);
      assert ch.changeId == SUMMARY;
    }
    if SummaryClash(env, c) {
      var ch :| ch in c.changes && ch.changeId == SUMMARY && !Requests(env, ch);
      var i :| 0 <= i < |c.changes| && c.changes[i] == ch;
      assert Bound(r, env, c, c.changes[i], b.changes[i], b.evidence);
    }
  }

  lemma NewIdsFresh(r: Review, env: Env, c: Comparison, b: Binding)
    requires AllBound(r, env, c, c.changes, b)
    ensures forall id :: id in EvidenceIds(b.evidence) ==> id !in EvidenceIds(r.evidence)
  {
    forall id | id in EvidenceIds(b.evidence) ensures id !in EvidenceIds(r.evidence) {
      var i :| 0 <= i < |b.evidence| && EvidenceIds(b.evidence)[i] == id;
      assert b.evidence[i] in b.evidence;
    }
  }

  // ------------------------------------------------------------------ the second gate

  /** The three conditions a caller can check beforehand: the file names agree with the
      last document of each hash, every change has text, and no change without evidence
      of its own is called "summary". */
  predicate WellFormed(core: Snapshot, env: Env, c: Comparison)
  {
    && SourcesMatch(core, c)
    && AllHaveText(c.changes)
    && !SummaryClash(env, c)
  }

  lemma LinkingIsSound(core: Snapshot, judge: TextJudge, changes: seq<VersionChange>)
    requires SnapshotIntegrity(core)
    ensures LinkingSound(core, LinkingOf(core, judge), changes)
  {
    forall ch | ch in changes
      ensures LinkingOf(core, judge)(ch) != {}
      ensures forall k :: k in LinkingOf(core, judge)(ch) && k != UNMAPPED ==> k in RuleIds(core)
    {
      LinkingKnown(core, judge, ch);
    }
  }

  lemma BoundChangeIds(r: Review, env: Env, c: Comparison, b: Binding)
    requires AllBound(r, env, c, c.changes, b)
    ensures ChangeIds(b.changes) == ChangeIds(c.changes)
  {
    forall i | 0 <= i < |c.changes| ensures b.changes[i].changeId == c.changes[i].changeId {
      assert Bound(r, env, c, c.changes[i], b.changes[i], b.evidence);
    }
  }

  lemma EvidenceOfEach(changes: seq<VersionChange>, ch: VersionChange)
    requires ch in changes
    ensures forall x :: x in ch.evidenceIds ==> x in EvidenceOfChanges(changes)
  {
    forall x | x in ch.evidenceIds ensures x in EvidenceOfChanges(changes) {
      EvidenceOrigin(changes, x);
    }
  }

  ghost predicate ImpactsFit(core: Snapshot, c: Comparison)
  {
    && Distinct(ImpactRuleIds(c.impacts))
    && Elements(c.retriggerRuleIds) == ExpectedRetrigger(core, c.impacts)
    && Distinct(c.retriggerRuleIds)
    && (forall i, j :: 0 <= i < j < |c.impacts| ==> c.impacts[i].impactId != c.impacts[j].impactId)
    && (forall x :: x in ImpactRuleIds(c.impacts) ==> x in RuleIds(core))
    && ImpactsCoverChanges(c.changes, c.impacts)
    && (c.changes == [] ==> c.retriggerRuleIds == [])
    && (forall i :: i in c.impacts ==> i.evidenceIds != [] && AllIn(i.evidenceIds, c.evidenceIds))
    && (forall i :: i in c.impacts ==> ObligationsTouched(core, c.changes, i))
  }

  lemma BoundImpactsFit(core: Snapshot, env: Env, c: Comparison, changes: seq<VersionChange>)
    requires SnapshotIntegrity(core)
    requires forall ch :: ch in changes ==> ch.evidenceIds != []
    ensures ImpactsFit(core, BoundComparison(core, env, c, changes))
  {
    var linked := LinkingOf(core, env.judge);
    var bound := BoundComparison(core, env, c, changes);
    LinkingIsSound(core, env.judge, changes);
    ImpactsComplete(core, env.judge, linked, c, changes);
    ImpactsIdentified(core, env.judge, linked, c, changes);
    NoChangesNoImpacts(core, env.judge, linked, c, changes);
    forall i | i in bound.impacts ensures AllIn(i.evidenceIds, bound.evidenceIds) {
      forall x | x in i.evidenceIds ensures x in bound.evidenceIds {
        EvidenceOrigin(changes, x);
        assert x in [SummaryId(env, c)] + EvidenceOfChanges(changes);
      }
    }
  }

  ghost predicate ChangesFit(core: Snapshot, evidence: seq<Evidence>, c: Comparison)
  {
    && c.evidenceIds != []
    && (forall id :: id in c.evidenceIds ==> HasComparisonEvidence(evidence, id))
    && (forall ch :: ch in c.changes ==>
          AllIn(ch.evidenceIds, c.evidenceIds) && forall x :: x in ch.clauseIds ==> x in ClauseIds(core))
  }

  lemma BoundChangesFit(r: Review, env: Env, c: Comparison, b: Binding, now: int)
    requires AllBound(r, env, c, c.changes, b)
    ensures ChangesFit(r.core, r.evidence + NewEvidence(r.core, env, c, b, now),
      BoundComparison(r.core, env, c, b.changes))
    ensures forall ch :: ch in b.changes ==> ch.evidenceIds != []
  {
    var evidence := r.evidence + NewEvidence(r.core, env, c, b, now);
    var ids := [SummaryId(env, c)] + EvidenceOfChanges(b.changes);
    forall ch | ch in b.changes
      ensures ch.evidenceIds != [] && AllIn(ch.evidenceIds, Dedup(ids))
      ensures forall x :: x in ch.clauseIds ==> x in ClauseIds(r.core)
    {
      var i :| 0 <= i < |b.changes| && b.changes[i] == ch;
      assert Bound(r, env, c, c.changes[i], b.changes[i], b.evidence);
      EvidenceOfEach(b.changes, ch);
    }
    forall id | id in Dedup(ids) ensures HasComparisonEvidence(evidence, id) {
      if id == SummaryId(env, c) {
        assert evidence[|r.evidence|] in evidence;
      } else {
        EvidenceOrigin(b.changes, id);
        var ch :| ch in b.changes && id in ch.evidenceIds;
        var i :| 0 <= i < |b.changes| && b.changes[i] == ch;
        assert Bound(r, env, c, c.changes[i], b.changes[i], b.evidence);
        ComparisonEvidenceGrows(r.evidence + b.evidence, evidence, id);
      }
    }
  }

  lemma TextsKept(r: Review, env: Env, c: Comparison, b: Binding)
    requires AllBound(r, env, c, c.changes, b)
    ensures AllHaveText(b.changes) == AllHaveText(c.changes)
  {
    forall i | 0 <= i < |c.changes|
      ensures b.changes[i].baseText == c.changes[i].baseText && b.changes[i].compareText == c.changes[i].compareText
    {
      assert Bound(r, env, c, c.changes[i], b.changes[i], b.evidence);
    }
    forall i | 0 <= i < |c.changes| ensures b.changes[i] in b.changes && c.changes[i] in c.changes {
    }
  }

  lemma IntegrityParts(core: Snapshot, runId: Id, evidence: seq<Evidence>, c: Comparison)
    requires c.runId == runId && AllIn(c.findingIds, FindingIds(core.findings)) && Distinct(ChangeIds(c.changes))
    requires ImpactsFit(core, c) && ChangesFit(core, evidence, c)
    ensures ComparisonIntegrity(core, runId, evidence, c) <==>
      SourcesMatch(core, c) && AllHaveText(c.changes)
  {
    assert forall id :: HasComparisonEvidence(evidence, id) ==>
      exists e :: e in evidence && e.evidenceId == id && e.evidenceType == COMPARISON;
  }

  predicate AllHaveText(changes: seq<VersionChange>)
  {
    forall ch :: ch in changes ==> ch.baseText != "" || ch.compareText != ""
  }

  lemma BoundFits(r: Review, env: Env, c: Comparison, b: Binding, now: int)
    requires SnapshotIntegrity(r.core) && AllBound(r, env, c, c.changes, b)
    ensures var bound := BoundComparison(r.core, env, c, b.changes);
      && ImpactsFit(r.core, bound)
      && ChangesFit(r.core, r.evidence + NewEvidence(r.core, env, c, b, now), bound)
  {
    BoundChangesFit(r, env, c, b, now);
    BoundImpactsFit(r.core, env, c, b.changes);
  }

  lemma IntegrityOf(core: Snapshot, runId: Id, evidence: seq<Evidence>, c: Comparison, bound: Comparison)
    requires bound == c.(changes := bound.changes, evidenceIds := bound.evidenceIds, impacts := bound.impacts,
                         retriggerRuleIds := bound.retriggerRuleIds)
    requires c.runId == runId && AllIn(c.findingIds, FindingIds(core.findings)) && Distinct(ChangeIds(c.changes))
    requires ChangeIds(bound.changes) == ChangeIds(c.changes) && AllHaveText(bound.changes) == AllHaveText(c.changes)
    requires ImpactsFit(core, bound) && ChangesFit(core, evidence, bound)
    ensures ComparisonIntegrity(core, runId, evidence, bound) <==> SourcesMatch(core, c) && AllHaveText(c.changes)
  {
    IntegrityParts(core, runId, evidence, bound);
    assert SourcesMatch(core, bound) == SourcesMatch(core, c);
  }

  /** What binding establishes about the comparison and the evidence it adds. */
  ghost predicate AddedFacts(r: Review, env: Env, c: Comparison, added: seq<Evidence>, bound: Comparison)
  {
    && bound == c.(changes := bound.changes, evidenceIds := bound.evidenceIds, impacts := bound.impacts,
                   retriggerRuleIds := bound.retriggerRuleIds)
    && ChangeIds(bound.changes) == ChangeIds(c.changes)
    && AllHaveText(bound.changes) == AllHaveText(c.changes)
    && ImpactsFit(r.core, bound)
    && ChangesFit(r.core, r.evidence + added, bound)
    && (forall e :: e in added ==> Provenance(r.core, e))
    && (Distinct(EvidenceIds(r.evidence + added)) <==> !SummaryClash(env, c))
  }

  lemma BindingFacts(r: Review, env: Env, c: Comparison, b: Binding, now: int)
    requires SnapshotIntegrity(r.core) && AllBound(r, env, c, c.changes, b)
    requires Distinct(EvidenceIds(r.evidence + NewEvidence(r.core, env, c, b, now))) <==> !SummaryClash(env, c)
    ensures AddedFacts(r, env, c, NewEvidence(r.core, env, c, b, now), BoundComparison(r.core, env, c, b.changes))
  {
    BoundFits(r, env, c, b, now);
    BoundChangeIds(r, env, c, b);
    TextsKept(r, env, c, b);
    NewProvenance(r, env, c, b, now);
  }

  lemma BoundReferences(evidence: seq<Evidence>, core: Snapshot, c: Comparison)
    requires ChangesFit(core, evidence, c)
    ensures ComparisonReferences(c, EvidenceIds(evidence))
  {
    forall id | id in c.evidenceIds ensures id in EvidenceIds(evidence) {
      var e :| e in evidence && e.evidenceId == id && e.evidenceType == COMPARISON;
      var i :| 0 <= i < |evidence| && evidence[i] == e;
      assert EvidenceIds(evidence)[i] == id;
    }
  }

  lemma NewProvenance(r: Review, env: Env, c: Comparison, b: Binding, now: int)
    requires AllBound(r, env, c, c.changes, b)
    ensures forall e :: e in NewEvidence(r.core, env, c, b, now) ==> Provenance(r.core, e)
  {
    forall e | e in NewEvidence(r.core, env, c, b, now) ensures Provenance(r.core, e) {
      if e in b.evidence {
        var ch :| ch in c.changes && IsNew(r, env, c, ch, e);
      }
    }
  }

  lemma LedgerStays(run: ReviewRun, known: seq<Id>, more: seq<Id>)
    requires LedgerValid(run, known) && known <= more
    ensures LedgerValid(run, more)
  {
    forall e | e in run.stageEvents ensures AllIn(e.evidenceIds, more) {
      AllInGrows(e.evidenceIds, known, more);
    }
  }

  lemma WholeAfterComparison(r: Review, added: seq<Evidence>, c: Comparison)
    requires Consistent(r) && c.comparisonId !in ComparisonIds(r.comparisons)
    requires Distinct(EvidenceIds(r.evidence + added))
    ensures WholeSound(WithComparison(r, added, c))
  {
    var r' := WithComparison(r, added, c);
    EvidenceIdsGrow(r, r');
    LedgerStays(r.run, EvidenceIds(r.evidence), EvidenceIds(r'.evidence));
    LedgerIgnoresPointers(r.run, r'.run, EvidenceIds(r'.evidence));
    ComparisonIdsAppend(r.comparisons, c);
    SequenceAppend(r, r', ComparisonRef(c.comparisonId));
    DistinctSnoc(ComparisonIds(r.comparisons), c.comparisonId);
  }

  lemma LedgerIgnoresPointers(run: ReviewRun, run': ReviewRun, known: seq<Id>)
    requires LedgerValid(run, known)
    requires run' == run.(comparisonIds := run'.comparisonIds)
    ensures LedgerValid(run', known)
  {
  }

  lemma WithComparisonConsistent(r: Review, added: seq<Evidence>, c: Comparison)
    requires Consistent(r) && c.comparisonId !in ComparisonIds(r.comparisons)
    requires Distinct(EvidenceIds(r.evidence + added))
    requires forall e :: e in added ==> Provenance(r.core, e)
    requires ComparisonIntegrity(r.core, r.run.runId, r.evidence + added, c)
    requires ComparisonReferences(c, EvidenceIds(r.evidence + added))
    ensures Consistent(WithComparison(r, added, c))
  {
    var r' := WithComparison(r, added, c);
    assert r'.evidence[|r.evidence|..] == added;
    assert r'.comparisons[|r.comparisons|..] == [c];
    assert Extends(r, r') && AddedPartsSound(r, r');
    WholeAfterComparison(r, added, c);
    AuditExtends(r, r');
  }

  lemma ConsistentAfterComparison(r: Review, added: seq<Evidence>, c: Comparison)
    requires Consistent(WithComparison(r, added, c))
    ensures Distinct(EvidenceIds(r.evidence + added))
    ensures ComparisonIntegrity(r.core, r.run.runId, r.evidence + added, c)
  {
    var r' := WithComparison(r, added, c);
    assert r'.comparisons[|r.comparisons|] == c && c in r'.comparisons;
  }

  lemma ConsistentIff(r: Review, env: Env, c: Comparison, added: seq<Evidence>, bound: Comparison)
    requires Consistent(r) && AttachCheck(r, env, c).None?
    requires AddedFacts(r, env, c, added, bound)
    ensures Consistent(WithComparison(r, added, bound)) <==> WellFormed(r.core, env, c)
  {
    IntegrityOf(r.core, r.run.runId, r.evidence + added, c, bound);
    BoundReferences(r.evidence + added, r.core, bound);
    if WellFormed(r.core, env, c) {
      WithComparisonConsistent(r, added, bound);
    }
    if Consistent(WithComparison(r, added, bound)) {
      ConsistentAfterComparison(r, added, bound);
    }
  }

  lemma FactsOf(r: Review, env: Env, c: Comparison, now: int) returns (added: seq<Evidence>, bound: Comparison)
    requires NamingLaws(env.names) && SnapshotIntegrity(r.core) && Distinct(EvidenceIds(r.evidence))
    requires ComparisonAdded(r, env, c, now).Ok?
    ensures AttachCheck(r, env, c).None?
    ensures ComparisonAdded(r, env, c, now).value == WithComparison(r, added, bound)
    ensures AddedFacts(r, env, c, added, bound)
  {
    var b := BindChanges(BinderOf(r, env, c, now), c.changes).value;
    added, bound := NewEvidence(r.core, env, c, b, now), BoundComparison(r.core, env, c, b.changes);
    assert AddedFacts(r, env, c, added, bound) by {
      FactsOfBinding(r, env, c, b, now);
    }
  }

  lemma FactsOfBinding(r: Review, env: Env, c: Comparison, b: Binding, now: int)
    requires NamingLaws(env.names) && SnapshotIntegrity(r.core) && Distinct(EvidenceIds(r.evidence))
    requires AttachCheck(r, env, c).None?
    requires BindChanges(BinderOf(r, env, c, now), c.changes) == Ok(b)
    ensures AddedFacts(r, env, c, NewEvidence(r.core, env, c, b, now), BoundComparison(r.core, env, c, b.changes))
  {
    BindingAll(r, env, c, c.changes, now);
    NewEvidenceFresh(r, env, c, now);
    BindingFacts(r, env, c, b, now);
  }

  lemma AddedConsistentIff(r: Review, env: Env, c: Comparison, now: int)
    requires NamingLaws(env.names) && Consistent(r) && ComparisonAdded(r, env, c, now).Ok?
    ensures Consistent(ComparisonAdded(r, env, c, now).value) <==> WellFormed(r.core, env, c)
  {
    var added, bound := FactsOf(r, env, c, now);
    ConsistentIff(r, env, c, added, bound);
  }

  /** On an audited result, once a comparison has passed the first checks, the audit
      after attaching it passes if and only if the comparison is well formed. */
  lemma SecondAuditIff(s: ReviewResult, env: Env, c: Comparison, now: int)
    requires NamingLaws(env.names) && Audited(s)
    requires ComparisonAdded(s.review, env, c, now).Ok?
    ensures AttachComparison(s, env, c, now) ==
      if WellFormed(s.review.core, env, c) then Ok(Sealed(ComparisonAdded(s.review, env, c, now).value))
      else Err(RejectedByGate)
  {
    AddedConsistentIff(s.review, env, c, now);
    GatedOk(Audited(s), ComparisonAdded(s.review, env, c, now));
  }
}
