/**
 A comparison that was attached once can be stripped and attached again elsewhere: the
 binding, the impacts and the evidence come out the same.
 */
module Reattaching {
  import opened Ordering
  import opened ReviewModel
  import opened VersionImpacts
  import opened ReviewActions
  import opened AuditKeeping
  import opened ComparisonGate
  import opened Replay

  /** Two reviews with the same snapshot and attachments, whatever was decided. */
  ghost predicate Alike(s: Review, t: Review)
  {
    && t.core == s.core && t.run.runId == s.run.runId
    && Map(Timeless, t.evidence) == Map(Timeless, s.evidence)
    && t.comparisons == s.comparisons && t.revisions == s.revisions && t.sequence == s.sequence
  }

  lemma SameIds(a: seq<Evidence>, b: seq<Evidence>)
    requires Map(Timeless, a) == Map(Timeless, b)
    ensures EvidenceIds(a) == EvidenceIds(b)
  {
    forall i | 0 <= i < |a| ensures a[i].evidenceId == b[i].evidenceId {
      assert Map(Timeless, a)[i] == Map(Timeless, b)[i];
    }
  }

  /** Same identity as far as binding and impacts are concerned. */
  predicate SameSources(c: Comparison, c': Comparison)
  {
    c'.comparisonId == c.comparisonId && c'.baseSha256 == c.baseSha256 && c'.compareSha256 == c.compareSha256
  }

  function StrippedChange(names: Naming, ch: VersionChange): VersionChange
  {
    ch.(evidenceIds := [names.pendingFor(ch.changeId)])
  }

  lemma StrippedSnoc(names: Naming, changes: seq<VersionChange>, ch: VersionChange)
    ensures StrippedChanges(names, changes + [ch]) == StrippedChanges(names, changes) + [StrippedChange(names, ch)]
  {
    SnocParts(changes + [ch]);
    assert (changes + [ch])[..|changes|] == changes;
  }

  lemma StrippedAt(names: Naming, changes: seq<VersionChange>, i: nat)
    requires i < |changes|
    ensures StrippedChanges(names, changes)[i] == StrippedChange(names, changes[i])
  {
  }

  lemma PendingRequestsNothing(env: Env, ch: VersionChange)
    requires NamingLaws(env.names)
    ensures !Requests(env, StrippedChange(env.names, ch))
  {
    var ids := [env.names.pendingFor(ch.changeId)];
    assert ids[..|ids| - 1] == [];
    assert Requested(env.names, ids[..|ids| - 1]) == [];
    assert env.names.isPending(ids[|ids| - 1]);
  }

  lemma RebindOne(s: Review, t: Review, env: Env, c: Comparison, c': Comparison, ch: VersionChange,
                  now: int, now': int)
    requires NamingLaws(env.names) && Alike(s, t) && SameSources(c, c')
    requires !Requests(env, ch) && BindChange(s, env, c, ch, now).Ok?
    ensures var b := BindChange(s, env, c, ch, now).value;
      && |b.changes| == 1
      && BindChange(t, env, c', StrippedChange(env.names, b.changes[0]), now').Ok?
      && var b' := BindChange(t, env, c', StrippedChange(env.names, b.changes[0]), now').value;
      && b'.changes == b.changes && Map(Timeless, b'.evidence) == Map(Timeless, b.evidence)
  {
    BindingIdempotent(s.core, env.judge, c, ch);
    var bound := BindChange(s, env, c, ch, now).value.changes[0];
    PendingRequestsNothing(env, bound);
    SameIds(s.evidence, t.evidence);
    var again := StrippedChange(env.names, bound);
    assert BoundClauseIds(t.core, env.judge, c', again) == bound.clauseIds;
  }

  lemma {:induction false} RebindAll(s: Review, t: Review, env: Env, c: Comparison, c': Comparison,
                                     changes: seq<VersionChange>, now: int, now': int)
    requires NamingLaws(env.names) && Alike(s, t) && SameSources(c, c')
    requires forall ch :: ch in changes ==> !Requests(env, ch)
    requires BindChanges(BinderOf(s, env, c, now), changes).Ok?
    ensures var b := BindChanges(BinderOf(s, env, c, now), changes).value;
      var again := BindChanges(BinderOf(t, env, c', now'), StrippedChanges(env.names, b.changes));
      again.Ok? && again.value.changes == b.changes && Map(Timeless, again.value.evidence) == Map(Timeless, b.evidence)
  {
    if changes != [] {
      var front, ch := changes[..|changes| - 1], changes[|changes| - 1];
      SnocParts(changes);
      RebindAll(s, t, env, c, c', front, now, now');
      RebindOne(s, t, env, c, c', ch, now, now');
      var f, b := BindChanges(BinderOf(s, env, c, now), front).value, BindChange(s, env, c, ch, now).value;
      RebindSnoc(BinderOf(t, env, c', now'), env, f, b);
    }
  }

  lemma RebindSnoc(bind: Binder, env: Env, f: Binding, b: Binding)
    requires |b.changes| == 1
    requires var again := BindChanges(bind, StrippedChanges(env.names, f.changes));
      again.Ok? && again.value.changes == f.changes && Map(Timeless, again.value.evidence) == Map(Timeless, f.evidence)
    requires var again := bind(StrippedChange(env.names, b.changes[0]));
      again.Ok? && again.value.changes == b.changes && Map(Timeless, again.value.evidence) == Map(Timeless, b.evidence)
    ensures var again := BindChanges(bind, StrippedChanges(env.names, f.changes + b.changes));
      again.Ok? && again.value.changes == f.changes + b.changes
      && Map(Timeless, again.value.evidence) == Map(Timeless, f.evidence + b.evidence)
  {
    var x, stripped := StrippedChange(env.names, b.changes[0]), StrippedChanges(env.names, f.changes);
    assert b.changes == [b.changes[0]];
    StrippedSnoc(env.names, f.changes, b.changes[0]);
    DropSnoc(stripped, x);
    MapAppend(Timeless, f.evidence, b.evidence);
    MapAppend(Timeless, BindChanges(bind, stripped).value.evidence, bind(x).value.evidence);
  }

  // --------------------------------------------------------------------- impacts

  lemma SameImpact(core: Snapshot, judge: TextJudge, c: Comparison, c': Comparison, key: Id, d: Draft)
    requires SameSources(c, c')
    ensures ImpactOf(core, judge, c, key, d) == ImpactOf(core, judge, c', key, d)
  {
  }

  lemma {:induction false} SameImpactList(core: Snapshot, judge: TextJudge, linked: Linking, c: Comparison,
                                          c': Comparison, changes: seq<VersionChange>, keys: seq<Id>)
    requires SameSources(c, c')
    ensures ImpactList(core, judge, linked, c, changes, keys) == ImpactList(core, judge, linked, c', changes, keys)
  {
    if keys != [] {
      var k := keys[|keys| - 1];
      SameImpactList(core, judge, linked, c, c', changes, keys[..|keys| - 1]);
      SameImpact(core, judge, c, c', k, TableEntry(core, judge, linked, changes, k));
    }
  }

  lemma SameBound(core: Snapshot, env: Env, c: Comparison, changes: seq<VersionChange>)
    ensures var bound := BoundComparison(core, env, c, changes);
      BoundComparison(core, env, Stripped(env.names, bound), changes) == bound
  {
    var linked := LinkingOf(core, env.judge);
    var again := Stripped(env.names, BoundComparison(core, env, c, changes));
    SameImpactList(core, env.judge, linked, c, again, changes, SortedSet(LinkedKeys(linked, changes)));
  }

  // ------------------------------------------------------------------ the whole step

  lemma StrippedIds(names: Naming, changes: seq<VersionChange>)
    ensures ChangeIds(StrippedChanges(names, changes)) == ChangeIds(changes)
  {
    forall i | 0 <= i < |changes| ensures StrippedChanges(names, changes)[i].changeId == changes[i].changeId {
      StrippedAt(names, changes, i);
    }
  }

  lemma ReattachCheck(s: Review, t: Review, env: Env, c: Comparison, bound: Comparison)
    requires Alike(s, t) && AttachCheck(s, env, c).None?
    requires bound == c.(changes := bound.changes, evidenceIds := bound.evidenceIds, impacts := bound.impacts,
                         retriggerRuleIds := bound.retriggerRuleIds)
    requires ChangeIds(bound.changes) == ChangeIds(c.changes)
    ensures AttachCheck(t, env, Stripped(env.names, bound)).None?
  {
    SameIds(s.evidence, t.evidence);
    StrippedIds(env.names, bound.changes);
  }

  lemma AlikeAfter(s: Review, t: Review, added: seq<Evidence>, added': seq<Evidence>, c: Comparison)
    requires Alike(s, t) && Map(Timeless, added) == Map(Timeless, added')
    ensures Alike(WithComparison(s, added, c), WithComparison(t, added', c))
  {
    MapAppend(Timeless, s.evidence, added);
    MapAppend(Timeless, t.evidence, added');
  }

  lemma NewEvidenceAlike(core: Snapshot, env: Env, c: Comparison, c': Comparison, b: Binding, b': Binding,
                         now: int, now': int)
    requires c'.comparisonId == c.comparisonId && Map(Timeless, b.evidence) == Map(Timeless, b'.evidence)
    ensures Map(Timeless, NewEvidence(core, env, c, b, now)) == Map(Timeless, NewEvidence(core, env, c', b', now'))
  {
    MapAppend(Timeless, [ComparisonEvidence(core, SummaryId(env, c), "", now)], b.evidence);
    MapAppend(Timeless, [ComparisonEvidence(core, SummaryId(env, c'), "", now')], b'.evidence);
  }

  /** Adding a comparison touches evidence, comparisons, sequence and two pointers. */
  ghost predicate ComparisonFrame(t: Review, t': Review)
  {
    t' == t.(evidence := t'.evidence, comparisons := t'.comparisons, sequence := t'.sequence,
             run := t.run.(comparisonIds := t'.run.comparisonIds),
             report := t.report.(comparisonIds := t'.report.comparisonIds))
  }

  lemma RebindResult(s: Review, t: Review, env: Env, c: Comparison, b: Binding, now: int, now': int)
    returns (b': Binding)
    requires NamingLaws(env.names) && Alike(s, t) && Pending(env, c)
    requires BindChanges(BinderOf(s, env, c, now), c.changes) == Ok(b)
    ensures var c' := Stripped(env.names, BoundComparison(s.core, env, c, b.changes));
      BindChanges(BinderOf(t, env, c', now'), c'.changes) == Ok(b')
    ensures b'.changes == b.changes && Map(Timeless, b'.evidence) == Map(Timeless, b.evidence)
  {
    var c' := Stripped(env.names, BoundComparison(s.core, env, c, b.changes));
    RebindAll(s, t, env, c, c', c.changes, now, now');
    b' := BindChanges(BinderOf(t, env, c', now'), c'.changes).value;
  }

  /** Attaching to a review and re-attaching the stripped result to an alike review give
      alike reviews with the very same comparison. */
  lemma ReattachAdded(s: Review, t: Review, env: Env, c: Comparison, b: Binding, now: int, now': int)
    returns (t': Review)
    requires NamingLaws(env.names) && Alike(s, t) && Pending(env, c)
    requires AttachCheck(s, env, c).None?
    requires BindChanges(BinderOf(s, env, c, now), c.changes) == Ok(b)
    requires ChangeIds(b.changes) == ChangeIds(c.changes)
    ensures ComparisonAdded(t, env, Stripped(env.names, BoundComparison(s.core, env, c, b.changes)), now') == Ok(t')
    ensures var added := NewEvidence(s.core, env, c, b, now);
      Alike(WithComparison(s, added, BoundComparison(s.core, env, c, b.changes)), t')
    ensures ComparisonFrame(t, t')
  {
    var bound := BoundComparison(s.core, env, c, b.changes);
    var c' := Stripped(env.names, bound);
    ReattachCheck(s, t, env, c, bound);
    var b' := RebindResult(s, t, env, c, b, now, now');
    SameBound(s.core, env, c, b.changes);
    NewEvidenceAlike(s.core, env, c, c', b, b', now, now');
    AlikeAfter(s, t, NewEvidence(s.core, env, c, b, now), NewEvidence(t.core, env, c', b', now'), bound);
    t' := WithComparison(t, NewEvidence(t.core, env, c', b', now'), bound);
  }
}
