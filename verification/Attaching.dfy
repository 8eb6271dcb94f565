/**
 When a comparison or a revision set can be attached, and what attaching leaves behind, in
 terms of the review and the attachment themselves.
 */
module Attaching {
  import opened Ordering
  import opened ReviewModel
  import opened VersionImpacts
  import opened ReviewActions
  import opened AuditKeeping
  import opened ComparisonGate
  import opened Judging
  import opened ImpactMeaning

  // --------------------------------------------------------------- known identifiers

  predicate HasEvidence(r: Review, id: Id) { exists e :: e in r.evidence && e.evidenceId == id }

  predicate HasClause(core: Snapshot, id: Id) { exists k :: k in core.clauses && k.clauseId == id }

  predicate HasFinding(core: Snapshot, id: Id) { exists f :: f in core.findings && f.findingId == id }

  lemma EvidenceKnownIff(r: Review, id: Id)
    ensures id in EvidenceIds(r.evidence) <==> HasEvidence(r, id)
  {
    IdKnown(r.evidence, id);
  }

  lemma FindingKnownIff(core: Snapshot, id: Id)
    ensures id in FindingIds(core.findings) <==> HasFinding(core, id)
  {
    if id in FindingIds(core.findings) {
      var n :| 0 <= n < |core.findings| && FindingIds(core.findings)[n] == id;
      assert core.findings[n] in core.findings;
    }
    if f :| f in core.findings && f.findingId == id {
      var n :| 0 <= n < |core.findings| && core.findings[n] == f;
      assert FindingIds(core.findings)[n] == id;
    }
  }

  // ------------------------------------------------------------- binding one change

  /** The change cites evidence of its own: one of its evidence ids is not a placeholder. */
  predicate Cites(env: Env, ch: VersionChange)
  {
    exists x :: x in ch.evidenceIds && !env.names.isPending(x)
  }

  lemma {:induction false} RequestedAre(names: Naming, ids: seq<Id>, x: Id)
    ensures x in Requested(names, ids) <==> x in ids && !names.isPending(x)
  {
    if ids != [] {
      SnocParts(ids);
      RequestedAre(names, ids[..|ids| - 1], x);
    }
  }

  lemma CitesIff(env: Env, ch: VersionChange)
    ensures Requests(env, ch) <==> Cites(env, ch)
    ensures forall x :: x in Requested(env.names, ch.evidenceIds) <==> x in ch.evidenceIds && !env.names.isPending(x)
  {
    forall x ensures x in Requested(env.names, ch.evidenceIds) <==> x in ch.evidenceIds && !env.names.isPending(x) {
      RequestedAre(env.names, ch.evidenceIds, x);
    }
    var cited := Requested(env.names, ch.evidenceIds);
    if cited != [] {
      var x := cited[0];
      RequestedAre(env.names, ch.evidenceIds, x);
    }
    if Cites(env, ch) {
      var x :| x in ch.evidenceIds && !env.names.isPending(x);
      RequestedAre(env.names, ch.evidenceIds, x);
      assert x in cited;
    }
  }

  /** The text of one side is found in the clause, which belongs to the last document with
      the hash of that side. */
  ghost predicate FoundIn(core: Snapshot, judge: TextJudge, sha: Id, text: string, k: Clause)
  {
    && judge.locates(k.text, text)
    && exists n: nat :: LastWith(core.documents, sha, n) && core.documents[n].documentId == k.documentId
  }

  /** A change touches the clauses it names and those in which one of its sides is found. */
  ghost predicate Touches(core: Snapshot, judge: TextJudge, c: Comparison, ch: VersionChange, id: Id)
  {
    || id in ch.clauseIds
    || (exists k :: k in core.clauses && k.clauseId == id && FoundIn(core, judge, c.baseSha256, ch.baseText, k))
    || (exists k :: k in core.clauses && k.clauseId == id && FoundIn(core, judge, c.compareSha256, ch.compareText, k))
  }

  lemma {:induction false} LocatedAre(clauses: seq<Clause>, documentId: Id, judge: TextJudge, text: string, id: Id)
    ensures id in LocatedIn(clauses, documentId, judge, text) <==>
      exists k :: k in clauses && k.clauseId == id && k.documentId == documentId && judge.locates(k.text, text)
  {
    if clauses != [] {
      SnocParts(clauses);
      LocatedAre(clauses[..|clauses| - 1], documentId, judge, text, id);
    }
  }

  lemma NoLast(documents: seq<Document>, sha: Id)
    requires LastByHash(documents, sha).None?
    ensures forall n: nat :: !LastWith(documents, sha, n)
  {
    forall n: nat ensures !LastWith(documents, sha, n) {
      if n < |documents| { assert documents[n] in documents; }
    }
  }

  lemma SideIs(core: Snapshot, judge: TextJudge, sha: Id, text: string, id: Id)
    ensures id in LocatedSide(core, judge, sha, text) <==>
      exists k :: k in core.clauses && k.clauseId == id && FoundIn(core, judge, sha, text, k)
  {
    var document := LastByHash(core.documents, sha);
    if document.Some? {
      var n := FoundLast(core.documents, sha);
      LocatedAre(core.clauses, document.value.documentId, judge, text, id);
      forall k | k in core.clauses
        ensures FoundIn(core, judge, sha, text, k) <==>
          k.documentId == document.value.documentId && judge.locates(k.text, text)
      {
        if FoundIn(core, judge, sha, text, k) {
          var m: nat :| LastWith(core.documents, sha, m) && core.documents[m].documentId == k.documentId;
          OneLast(core.documents, sha, m);
        }
      }
    } else {
      NoLast(core.documents, sha);
    }
  }

  lemma BoundClausesAre(core: Snapshot, judge: TextJudge, c: Comparison, ch: VersionChange, id: Id)
    ensures id in BoundClauseIds(core, judge, c, ch) <==> Touches(core, judge, c, ch, id)
  {
    SideIs(core, judge, c.baseSha256, ch.baseText, id);
    SideIs(core, judge, c.compareSha256, ch.compareText, id);
    hide FoundIn, LocatedSide;
  }

  /** What a change must bring: clauses of the package and either evidence of comparisons or
      a free id for its own. */
  ghost predicate Bindable(r: Review, env: Env, c: Comparison, ch: VersionChange)
  {
    && (forall x :: x in ch.clauseIds ==> HasClause(r.core, x))
    && if Cites(env, ch) then
         forall x :: x in ch.evidenceIds && !env.names.isPending(x) ==>
           HasEvidence(r, x) && forall e :: e in r.evidence && e.evidenceId == x ==> e.evidenceType == COMPARISON
       else !HasEvidence(r, env.names.join(c.comparisonId, ch.changeId))
  }

  lemma KnownClausesIff(core: Snapshot, judge: TextJudge, c: Comparison, ch: VersionChange)
    ensures (forall x :: x in BoundClauseIds(core, judge, c, ch) ==> x in ClauseIds(core)) <==>
      forall x :: x in ch.clauseIds ==> HasClause(core, x)
  {
    forall x ensures x in BoundClauseIds(core, judge, c, ch) <==> Touches(core, judge, c, ch, x) {
      BoundClausesAre(core, judge, c, ch, x);
    }
    assert forall x :: x in ClauseIds(core) <==> HasClause(core, x);
    hide BoundClauseIds, FoundIn;
  }

  lemma BindableIff(r: Review, env: Env, c: Comparison, ch: VersionChange, now: int)
    ensures BindChange(r, env, c, ch, now).Ok? <==> Bindable(r, env, c, ch)
  {
    KnownClausesIff(r.core, env.judge, c, ch);
    CitesIff(env, ch);
    forall x ensures x in EvidenceIds(r.evidence) <==> HasEvidence(r, x) {
      EvidenceKnownIff(r, x);
    }
    hide BoundClauseIds, Requested, HasEvidence, HasClause, EvidenceIds, Cites, ClauseIds;
  }

  lemma {:induction false} AllBindable(bind: Binder, changes: seq<VersionChange>)
    ensures BindChanges(bind, changes).Ok? <==> forall ch :: ch in changes ==> bind(ch).Ok?
  {
    if changes != [] {
      SnocParts(changes);
      AllBindable(bind, changes[..|changes| - 1]);
    }
  }

  // --------------------------------------------------------- attaching a comparison

  /** Document n is the first one with this hash. */
  predicate FirstWith(documents: seq<Document>, sha: Id, n: nat)
  {
    && n < |documents| && documents[n].sourceSha256 == sha
    && forall m :: 0 <= m < n ==> documents[m].sourceSha256 != sha
  }

  lemma {:induction false} FoundFirst(documents: seq<Document>, sha: Id) returns (n: nat)
    requires FirstByHash(documents, sha).Some?
    ensures FirstWith(documents, sha, n) && documents[n] == FirstByHash(documents, sha).value
  {
    n := 0;
    if documents[0].sourceSha256 != sha {
      var m := FoundFirst(documents[1..], sha);
      n := m + 1;
    }
  }

  /** First and last document with this hash bear this name. */
  ghost predicate NamedAs(documents: seq<Document>, sha: Id, filename: Id)
  {
    && (forall n: nat :: FirstWith(documents, sha, n) ==> documents[n].filename == filename)
    && (forall n: nat :: LastWith(documents, sha, n) ==> documents[n].filename == filename)
  }

  lemma NamedAsIff(documents: seq<Document>, sha: Id, filename: Id)
    ensures var first, last := FirstByHash(documents, sha), LastByHash(documents, sha);
      && (first.None? <==> last.None?)
      && (NamedAs(documents, sha, filename) <==>
            (first.Some? ==> first.value.filename == filename == last.value.filename))
  {
    if FirstByHash(documents, sha).Some? {
      var m := FoundFirst(documents, sha);
      var n := FoundLast(documents, sha);
      assert forall k: nat :: FirstWith(documents, sha, k) ==> k == m;
      assert forall k: nat :: LastWith(documents, sha, k) ==> k == n;
    } else {
      forall k: nat ensures !FirstWith(documents, sha, k) && !LastWith(documents, sha, k) {
        if k < |documents| { assert documents[k] in documents; }
      }
    }
  }

  /** Run, documents, names and ids of the comparison fit the review. */
  ghost predicate Admissible(r: Review, env: Env, c: Comparison)
  {
    && c.runId == r.run.runId
    && (exists d :: d in r.core.documents && d.sourceSha256 == c.baseSha256)
    && NamedAs(r.core.documents, c.baseSha256, c.baseFilename)
    && NamedAs(r.core.documents, c.compareSha256, c.compareFilename)
    && (forall x :: x in r.comparisons ==> x.comparisonId != c.comparisonId)
    && (forall x :: x in c.findingIds ==> HasFinding(r.core, x))
    && (forall i, j :: 0 <= i < j < |c.changes| ==> c.changes[i].changeId != c.changes[j].changeId)
    && !HasEvidence(r, env.names.join(c.comparisonId, SUMMARY))
    && forall ch :: ch in c.changes ==>
         (|ch.baseText| > 0 || |ch.compareText| > 0) && (ch.changeId == SUMMARY ==> Cites(env, ch))
  }

  /** All that a comparison has to satisfy. */
  ghost predicate CanAttach(r: Review, env: Env, c: Comparison)
  {
    Admissible(r, env, c) && forall ch :: ch in c.changes ==> Bindable(r, env, c, ch)
  }

  /** What the checks before and after binding come to. */
  lemma ChecksIff(r: Review, env: Env, c: Comparison)
    ensures AttachCheck(r, env, c).None? && WellFormed(r.core, env, c) <==>
      && c.runId == r.run.runId
      && (exists d :: d in r.core.documents && d.sourceSha256 == c.baseSha256)
      && NamedAs(r.core.documents, c.baseSha256, c.baseFilename)
      && NamedAs(r.core.documents, c.compareSha256, c.compareFilename)
      && c.comparisonId !in ComparisonIds(r.comparisons)
      && AllIn(c.findingIds, FindingIds(r.core.findings))
      && Distinct(ChangeIds(c.changes))
      && SummaryId(env, c) !in EvidenceIds(r.evidence)
      && AllHaveText(c.changes) && !SummaryClash(env, c)
  {
    NamedAsIff(r.core.documents, c.baseSha256, c.baseFilename);
    NamedAsIff(r.core.documents, c.compareSha256, c.compareFilename);
    hide NamedAs, Distinct, AllIn, AllHaveText, SummaryClash, ComparisonIds, FindingIds, ChangeIds, EvidenceIds,
      SummaryId;
  }

  lemma FreshComparison(r: Review, id: Id)
    ensures id !in ComparisonIds(r.comparisons) <==> forall x :: x in r.comparisons ==> x.comparisonId != id
  {
    if id in ComparisonIds(r.comparisons) {
      var n :| 0 <= n < |r.comparisons| && ComparisonIds(r.comparisons)[n] == id;
      assert r.comparisons[n] in r.comparisons;
    } else {
      forall x | x in r.comparisons ensures x.comparisonId != id {
        var n :| 0 <= n < |r.comparisons| && r.comparisons[n] == x;
        assert ComparisonIds(r.comparisons)[n] == x.comparisonId;
      }
    }
  }

  lemma DistinctChanges(changes: seq<VersionChange>)
    ensures Distinct(ChangeIds(changes)) <==>
      forall i, j :: 0 <= i < j < |changes| ==> changes[i].changeId != changes[j].changeId
  {
    if Distinct(ChangeIds(changes)) {
      forall i, j | 0 <= i < j < |changes| ensures changes[i].changeId != changes[j].changeId {
        assert ChangeIds(changes)[i] != ChangeIds(changes)[j];
      }
    }
  }

  lemma ClashCites(env: Env, c: Comparison)
    ensures !SummaryClash(env, c) <==> forall ch :: ch in c.changes && ch.changeId == SUMMARY ==> Cites(env, ch)
  {
    forall ch ensures Requests(env, ch) <==> Cites(env, ch) {
      CitesIff(env, ch);
    }
    hide Requests, Cites;
  }

  lemma ChecksBefore(r: Review, env: Env, c: Comparison)
    ensures AttachCheck(r, env, c).None? && WellFormed(r.core, env, c) <==> Admissible(r, env, c)
  {
    ChecksIff(r, env, c);
    FreshComparison(r, c.comparisonId);
    DistinctChanges(c.changes);
    ClashCites(env, c);
    EvidenceKnownIff(r, SummaryId(env, c));
    forall x ensures x in FindingIds(r.core.findings) <==> HasFinding(r.core, x) { FindingKnownIff(r.core, x); }
    hide AttachCheck, WellFormed, NamedAs, HasEvidence, HasFinding, Cites, Distinct, SummaryClash, ComparisonIds,
      FindingIds, ChangeIds, EvidenceIds;
  }

  lemma CanAttachIff(r: Review, env: Env, c: Comparison, now: int)
    ensures CanAttach(r, env, c) <==> ComparisonAdded(r, env, c, now).Ok? && WellFormed(r.core, env, c)
  {
    hide AttachCheck, WellFormed, Bindable, NamedAs, HasEvidence, HasFinding, Cites, BindChange, BindChanges,
      BoundComparison, NewEvidence;
    ChecksBefore(r, env, c);
    AllBindable(BinderOf(r, env, c, now), c.changes);
    forall ch ensures BinderOf(r, env, c, now)(ch).Ok? <==> Bindable(r, env, c, ch) {
      BindableIff(r, env, c, ch, now);
    }
  }

  /** On an audited review a comparison attaches if and only if it satisfies all of that. */
  lemma AttachComparisonIff(s: ReviewResult, env: Env, c: Comparison, now: int)
    requires NamingLaws(env.names) && Audited(s)
    ensures AttachComparison(s, env, c, now).Ok? <==> CanAttach(s.review, env, c)
  {
    CanAttachIff(s.review, env, c, now);
    if ComparisonAdded(s.review, env, c, now).Ok? {
      SecondAuditIff(s, env, c, now);
    }
    hide CanAttach, ComparisonAdded, Audited, WellFormed;
  }

  // ------------------------------------------------------- what attaching leaves behind

  /** The change as it is stored: with the clauses it touches and the evidence it cites, or
      with an evidence id of its own. */
  ghost predicate StoredAs(r: Review, env: Env, c: Comparison, ch: VersionChange, bound: VersionChange)
  {
    && bound == ch.(evidenceIds := bound.evidenceIds, clauseIds := bound.clauseIds)
    && (forall x :: x in bound.clauseIds <==> Touches(r.core, env.judge, c, ch, x))
    && if Cites(env, ch) then forall x :: x in bound.evidenceIds <==> x in ch.evidenceIds && !env.names.isPending(x)
       else bound.evidenceIds == [env.names.join(c.comparisonId, ch.changeId)]
  }

  /** Evidence of a comparison, made at this time. */
  predicate MadeAt(core: Snapshot, e: Evidence, id: Id, now: int)
  {
    && e.evidenceId == id && e.evidenceType == COMPARISON && e.packageId == Some(core.packageId)
    && e.documentId == None && e.sourceSha256 == None && e.pageNumber == None && e.sourceDocuments == map[]
    && e.capturedAt == now
  }

  /** One change, stored with its evidence. */
  lemma StoredOne(r: Review, env: Env, c: Comparison, ch: VersionChange, now: int)
    requires BindChange(r, env, c, ch, now).Ok?
    ensures var b := BindChange(r, env, c, ch, now).value;
      && |b.changes| == 1 && StoredAs(r, env, c, ch, b.changes[0])
      && |b.evidence| == (if Cites(env, ch) then 0 else 1)
      && forall e :: e in b.evidence ==> MadeAt(r.core, e, env.names.join(c.comparisonId, ch.changeId), now)
  {
    CitesIff(env, ch);
    forall x ensures x in BoundClauseIds(r.core, env.judge, c, ch) <==> Touches(r.core, env.judge, c, ch, x) {
      BoundClausesAre(r.core, env.judge, c, ch, x);
    }
    hide BoundClauseIds, Requested, EvidenceIds, Cites, ClauseIds, Touches, ChangeExcerpt;
  }

  /** How many of the changes bring no evidence. */
  ghost function Uncited(env: Env, changes: seq<VersionChange>): nat
  {
    if changes == [] then 0
    else Uncited(env, changes[..|changes| - 1]) + if Cites(env, changes[|changes| - 1]) then 0 else 1
  }

  ghost predicate StoredAll(r: Review, env: Env, c: Comparison, changes: seq<VersionChange>, b: Binding, now: int)
  {
    && |b.changes| == |changes|
    && (forall i :: 0 <= i < |changes| ==> StoredAs(r, env, c, changes[i], b.changes[i]))
    && |b.evidence| == Uncited(env, changes)
    && forall e :: e in b.evidence ==> MadeForOne(r.core, env, c, changes, e, now)
  }

  /** The evidence of a change that brings none. */
  ghost predicate MadeForOne(core: Snapshot, env: Env, c: Comparison, changes: seq<VersionChange>, e: Evidence,
                             now: int)
  {
    exists ch :: ch in changes && !Cites(env, ch) && MadeAt(core, e, env.names.join(c.comparisonId, ch.changeId), now)
  }

  lemma {:induction false} StoredEach(r: Review, env: Env, c: Comparison, changes: seq<VersionChange>, now: int)
    requires BindChanges(BinderOf(r, env, c, now), changes).Ok?
    ensures StoredAll(r, env, c, changes, BindChanges(BinderOf(r, env, c, now), changes).value, now)
  {
    hide StoredAs, BindChange, MadeAt, Cites;
    if changes != [] {
      var front, ch := changes[..|changes| - 1], changes[|changes| - 1];
      SnocParts(changes);
      StoredEach(r, env, c, front, now);
      StoredOne(r, env, c, ch, now);
      var f, b := BindChanges(BinderOf(r, env, c, now), front).value, BindChange(r, env, c, ch, now).value;
      forall e | e in f.evidence + b.evidence ensures MadeForOne(r.core, env, c, changes, e, now) {
        if e in f.evidence {
          var x :| x in front && !Cites(env, x) && MadeAt(r.core, e, env.names.join(c.comparisonId, x.changeId), now);
          assert x in changes;
        } else {
          assert e in b.evidence && !Cites(env, ch) && ch in changes;
        }
      }
    }
  }

  /** There is one impact for every rule that some change concerns, each says what it should,
      and the rules to run again are those of the impacts, or all active ones when a change
      could not be mapped. */
  ghost predicate ImpactsSay(core: Snapshot, judge: TextJudge, c: Comparison, changes: seq<VersionChange>,
                             impacts: seq<VersionImpact>, retrigger: seq<Id>)
  {
    && (forall i :: i in impacts ==> Says(core, judge, c, changes, i.impactId.ruleKey, i))
    && (forall i, j :: 0 <= i < j < |impacts| ==> impacts[i].impactId.ruleKey < impacts[j].impactId.ruleKey)
    && (forall key :: Listed(impacts, key) <==> Concerned(core, judge, changes, key))
    && (forall x :: x in retrigger <==> RunsAgain(core, impacts, x))
  }

  predicate Listed(impacts: seq<VersionImpact>, key: Id) { exists i :: i in impacts && i.impactId.ruleKey == key }

  ghost predicate Concerned(core: Snapshot, judge: TextJudge, changes: seq<VersionChange>, key: Id)
  {
    exists ch :: ch in changes && Concerns(core, judge, ch, key)
  }

  /** The rule of an impact, or any active rule when some impact has none. */
  predicate RunsAgain(core: Snapshot, impacts: seq<VersionImpact>, x: Id)
  {
    || (exists i :: i in impacts && i.ruleId == Some(x))
    || ((exists i :: i in impacts && i.ruleId == None) && HasRule(core, x) && Active(core, x))
  }

  predicate HasRule(core: Snapshot, id: Id) { exists r :: r in core.rules && r.ruleId == id }

  lemma KeysConcern(core: Snapshot, judge: TextJudge, changes: seq<VersionChange>, key: Id)
    ensures key in LinkedKeys(LinkingOf(core, judge), changes) <==>
      Concerned(core, judge, changes, key)
  {
    forall ch | ch in changes ensures key in LinkingOf(core, judge)(ch) <==> Concerns(core, judge, ch, key) {
      ConcernsIff(core, judge, ch, key);
    }
    hide LinkedRules, Concerns;
  }

  lemma {:induction false} RuleIdsAre(impacts: seq<VersionImpact>, x: Id)
    ensures x in ImpactRuleIds(impacts) <==> exists i :: i in impacts && i.ruleId == Some(x)
  {
    if impacts != [] {
      SnocParts(impacts);
      RuleIdsAre(impacts[..|impacts| - 1], x);
    }
  }

  lemma RetriggerIs(core: Snapshot, impacts: seq<VersionImpact>, x: Id)
    ensures x in Retrigger(core, impacts) <==> RunsAgain(core, impacts, x)
  {
    RuleIdsAre(impacts, x);
    SortedSetMembers(ActiveRuleIds(core));
    if r :| r in core.rules && r.ruleId == x { ActiveIff(core, r); }
    hide SortedSet, ImpactRuleIds, Active;
  }

  lemma ImpactsAre(core: Snapshot, judge: TextJudge, c: Comparison, changes: seq<VersionChange>)
    ensures var impacts := Impacts(core, judge, LinkingOf(core, judge), c, changes);
      ImpactsSay(core, judge, c, changes, impacts, Retrigger(core, impacts))
  {
    hide *;
    var linked := LinkingOf(core, judge);
    var keys, impacts := SortedSet(LinkedKeys(linked, changes)), Impacts(core, judge, linked, c, changes);
    SortedSetMembers(LinkedKeys(linked, changes));
    SetAscends(LinkedKeys(linked, changes));
    ImpactsListed(core, judge, c, changes);
    forall key ensures Listed(impacts, key) <==> Concerned(core, judge, changes, key) {
      KeysConcern(core, judge, changes, key);
      KeyListed(impacts, keys, key);
    }
    forall x ensures x in Retrigger(core, impacts) <==> RunsAgain(core, impacts, x) {
      RetriggerIs(core, impacts, x);
    }
    Together(core, judge, c, changes, impacts, keys, Retrigger(core, impacts));
  }

  lemma Together(core: Snapshot, judge: TextJudge, c: Comparison, changes: seq<VersionChange>,
                 impacts: seq<VersionImpact>, keys: seq<Id>, retrigger: seq<Id>)
    requires |impacts| == |keys| && forall i, j :: 0 <= i < j < |keys| ==> keys[i] < keys[j]
    requires forall n :: 0 <= n < |keys| ==>
      impacts[n].impactId.ruleKey == keys[n] && Says(core, judge, c, changes, keys[n], impacts[n])
    requires forall key :: Listed(impacts, key) <==> Concerned(core, judge, changes, key)
    requires forall x :: x in retrigger <==> RunsAgain(core, impacts, x)
    ensures ImpactsSay(core, judge, c, changes, impacts, retrigger)
  {
    hide Says, Listed, Concerned, RunsAgain;
  }

  lemma ImpactsListed(core: Snapshot, judge: TextJudge, c: Comparison, changes: seq<VersionChange>)
    ensures var linked := LinkingOf(core, judge);
      var keys, impacts := SortedSet(LinkedKeys(linked, changes)), Impacts(core, judge, linked, c, changes);
      && |impacts| == |keys|
      && forall n :: 0 <= n < |keys| ==>
           impacts[n].impactId.ruleKey == keys[n] && Says(core, judge, c, changes, keys[n], impacts[n])
  {
    hide Says, LinkedKeys, SortedSet, Concerning, DraftOf, Risks, PrecedenceOf, Dedup, SortIds;
    var linked := LinkingOf(core, judge);
    var keys, impacts := SortedSet(LinkedKeys(linked, changes)), Impacts(core, judge, linked, c, changes);
    SortedSetMembers(LinkedKeys(linked, changes));
    forall n | 0 <= n < |keys|
      ensures impacts[n].impactId.ruleKey == keys[n] && Says(core, judge, c, changes, keys[n], impacts[n])
    {
      assert keys[n] in keys;
      ImpactSays(core, judge, c, changes, keys[n]);
    }
  }

  lemma KeyListed(impacts: seq<VersionImpact>, keys: seq<Id>, key: Id)
    requires |impacts| == |keys| && forall n :: 0 <= n < |keys| ==> impacts[n].impactId.ruleKey == keys[n]
    ensures Listed(impacts, key) <==> key in keys
  {
    if key in keys {
      var n :| 0 <= n < |keys| && keys[n] == key;
      assert impacts[n] in impacts;
    }
  }

  lemma SetAscends(s: set<Id>)
    ensures var keys := SortedSet(s); forall i, j :: 0 <= i < j < |keys| ==> keys[i] < keys[j]
  {
    SortedSetDistinct(s);
    SortSorted((x: Id, y: Id) => x <= y, Enumerate(s));
  }

  /** The stored comparison and the evidence added with it. */
  ghost predicate Brings(r: Review, env: Env, c: Comparison, now: int, bound: Comparison, added: seq<Evidence>)
  {
    && bound == c.(changes := bound.changes, evidenceIds := bound.evidenceIds, impacts := bound.impacts,
                   retriggerRuleIds := bound.retriggerRuleIds)
    && |bound.changes| == |c.changes|
    && (forall i :: 0 <= i < |c.changes| ==> StoredAs(r, env, c, c.changes[i], bound.changes[i]))
    && |added| == 1 + Uncited(env, c.changes)
    && MadeAt(r.core, added[0], env.names.join(c.comparisonId, SUMMARY), now)
    && (forall e :: e in added[1..] ==> MadeForOne(r.core, env, c, c.changes, e, now))
    && (forall x :: x in bound.evidenceIds <==>
          x == env.names.join(c.comparisonId, SUMMARY) || CitedBy(bound.changes, x))
    && ImpactsSay(r.core, env.judge, c, bound.changes, bound.impacts, bound.retriggerRuleIds)
  }

  lemma BoundBrings(r: Review, env: Env, c: Comparison, b: Binding, now: int)
    requires BindChanges(BinderOf(r, env, c, now), c.changes) == Ok(b)
    ensures Brings(r, env, c, now, BoundComparison(r.core, env, c, b.changes), NewEvidence(r.core, env, c, b, now))
  {
    hide *;
    StoredEach(r, env, c, c.changes, now);
    ImpactsAre(r.core, env.judge, c, b.changes);
    BoundFields(r.core, env, c, b.changes);
    AddedFields(r.core, env, c, b, now);
    BringsBoth(r, env, c, b, now, BoundComparison(r.core, env, c, b.changes), NewEvidence(r.core, env, c, b, now));
  }

  lemma BoundFields(core: Snapshot, env: Env, c: Comparison, changes: seq<VersionChange>)
    ensures var bound := BoundComparison(core, env, c, changes);
      && bound == c.(changes := changes, evidenceIds := bound.evidenceIds, impacts := bound.impacts,
                     retriggerRuleIds := bound.retriggerRuleIds)
      && bound.impacts == Impacts(core, env.judge, LinkingOf(core, env.judge), c, changes)
      && bound.retriggerRuleIds == Retrigger(core, bound.impacts)
      && forall x :: x in bound.evidenceIds <==> x == env.names.join(c.comparisonId, SUMMARY) || CitedBy(changes, x)
  {
    forall x ensures x in EvidenceOfChanges(changes) <==> CitedBy(changes, x) {
      EvidenceOrigin(changes, x);
    }
    hide Impacts, Retrigger, EvidenceOfChanges, CitedBy;
  }

  predicate CitedBy(changes: seq<VersionChange>, x: Id) { exists ch :: ch in changes && x in ch.evidenceIds }

  lemma AddedFields(core: Snapshot, env: Env, c: Comparison, b: Binding, now: int)
    ensures var added := NewEvidence(core, env, c, b, now);
      |added| > 0 && added[1..] == b.evidence && MadeAt(core, added[0], env.names.join(c.comparisonId, SUMMARY), now)
  {
  }

  lemma BringsBoth(r: Review, env: Env, c: Comparison, b: Binding, now: int, bound: Comparison, added: seq<Evidence>)
    requires StoredAll(r, env, c, c.changes, b, now)
    requires bound == c.(changes := b.changes, evidenceIds := bound.evidenceIds, impacts := bound.impacts,
                         retriggerRuleIds := bound.retriggerRuleIds)
    requires ImpactsSay(r.core, env.judge, c, b.changes, bound.impacts, bound.retriggerRuleIds)
    requires forall x :: x in bound.evidenceIds <==>
      x == env.names.join(c.comparisonId, SUMMARY) || CitedBy(b.changes, x)
    requires |added| > 0 && added[1..] == b.evidence
    requires MadeAt(r.core, added[0], env.names.join(c.comparisonId, SUMMARY), now)
    ensures Brings(r, env, c, now, bound, added)
  {
    hide StoredAs, MadeForOne, ImpactsSay, Uncited, MadeAt, CitedBy;
  }

  /** Attaching appends the comparison, its evidence and its place in the sequence; run and
      report list all comparisons, and nothing else changes. */
  lemma AttachComparisonMakes(s: ReviewResult, env: Env, c: Comparison, now: int)
    requires AttachComparison(s, env, c, now).Ok?
    ensures var r, t := s.review, AttachComparison(s, env, c, now).value.review;
      && t == r.(evidence := t.evidence, comparisons := t.comparisons,
                 sequence := r.sequence + [ComparisonRef(c.comparisonId)],
                 run := r.run.(comparisonIds := t.run.comparisonIds),
                 report := r.report.(comparisonIds := t.run.comparisonIds))
      && |t.comparisons| == |r.comparisons| + 1 && r.comparisons <= t.comparisons && r.evidence <= t.evidence
      && Brings(r, env, c, now, t.comparisons[|r.comparisons|], t.evidence[|r.evidence|..])
      && |t.run.comparisonIds| == |t.comparisons|
      && forall i :: 0 <= i < |t.comparisons| ==> t.run.comparisonIds[i] == t.comparisons[i].comparisonId
  {
    GatedOk(Audited(s), ComparisonAdded(s.review, env, c, now));
    var b := BindChanges(BinderOf(s.review, env, c, now), c.changes).value;
    BoundBrings(s.review, env, c, b, now);
    var added := NewEvidence(s.review.core, env, c, b, now);
    assert (s.review.evidence + added)[|s.review.evidence|..] == added;
    hide Audited, Consistent, Fingerprint, AttachCheck, BindChanges, BoundComparison, NewEvidence, Brings;
    assert AttachComparison(s, env, c, now).value.review ==
      WithComparison(s.review, added, BoundComparison(s.review.core, env, c, b.changes));
  }

  // ------------------------------------------------------- attaching a revision set

  /** Every change of the set is about a finding and cites evidence of it, all of it stored,
      and names no unknown clause. */
  ghost predicate CanRevise(s: ReviewResult, v: RevisionSet)
  {
    && v.runId == s.review.run.runId
    && s.fingerprint == Some(v.baseFingerprint)
    && (forall x :: x in s.review.revisions ==> x.revisionId != v.revisionId)
    && v.revisionFingerprint.Some?
    && (forall i, j :: 0 <= i < j < |v.changes| ==> v.changes[i].changeId != v.changes[j].changeId)
    && forall ch :: ch in v.changes ==> CanPropose(s.review, ch)
  }

  ghost predicate CanPropose(r: Review, ch: RevisionChange)
  {
    && (ch.clauseId.Some? ==> HasClause(r.core, ch.clauseId.value))
    && (forall x :: x in ch.evidenceIds ==> HasEvidence(r, x))
    && exists f :: f in r.core.findings && f.findingId == ch.findingId
         && exists x :: x in ch.evidenceIds && x in f.evidenceIds
  }

  lemma ProposalIff(r: Review, v: RevisionSet, ch: RevisionChange)
    requires ch in v.changes
    ensures CanPropose(r, ch) <==>
      && AllIn(ch.evidenceIds, EvidenceIds(r.evidence))
      && (ch.clauseId.Some? ==> ch.clauseId.value in ClauseIds(r.core))
      && exists f :: f in r.core.findings && f.findingId == ch.findingId
           && exists x :: x in ch.evidenceIds && x in f.evidenceIds
  {
    forall x ensures x in EvidenceIds(r.evidence) <==> HasEvidence(r, x) {
      EvidenceKnownIff(r, x);
    }
    assert forall x :: x in ClauseIds(r.core) <==> HasClause(r.core, x);
    hide EvidenceIds, ClauseIds, HasClause, HasEvidence;
  }

  lemma FreshRevision(r: Review, id: Id)
    ensures id !in RevisionIds(r.revisions) <==> forall x :: x in r.revisions ==> x.revisionId != id
  {
    if id in RevisionIds(r.revisions) {
      var n :| 0 <= n < |r.revisions| && RevisionIds(r.revisions)[n] == id;
      assert r.revisions[n] in r.revisions;
    } else {
      forall x | x in r.revisions ensures x.revisionId != id {
        var n :| 0 <= n < |r.revisions| && r.revisions[n] == x;
        assert RevisionIds(r.revisions)[n] == x.revisionId;
      }
    }
  }

  lemma RevisionFits(r: Review, v: RevisionSet)
    ensures RevisionIntegrity(r.core, r.run.runId, v) && RevisionReferences(v, EvidenceIds(r.evidence)) <==>
      && v.runId == r.run.runId && v.revisionFingerprint.Some?
      && (forall i, j :: 0 <= i < j < |v.changes| ==> v.changes[i].changeId != v.changes[j].changeId)
      && forall ch :: ch in v.changes ==> CanPropose(r, ch)
  {
    forall ch | ch in v.changes
      ensures CanPropose(r, ch) <==>
        && AllIn(ch.evidenceIds, EvidenceIds(r.evidence))
        && (ch.clauseId.Some? ==> ch.clauseId.value in ClauseIds(r.core))
        && exists f :: f in r.core.findings && f.findingId == ch.findingId
             && exists x :: x in ch.evidenceIds && x in f.evidenceIds
    {
      ProposalIff(r, v, ch);
    }
    hide CanPropose, EvidenceIds, ClauseIds, AllIn;
  }

  /** On an audited review a revision set attaches if and only if it satisfies all of that. */
  lemma AttachRevisionIff(s: ReviewResult, v: RevisionSet)
    requires Audited(s)
    ensures AttachRevision(s, v).Ok? <==> CanRevise(s, v)
  {
    hide Audited, Consistent, CanPropose, RevisionIds, RevisionIntegrity, RevisionReferences;
    FreshRevision(s.review, v.revisionId);
    RevisionFits(s.review, v);
    GatedOk(Audited(s), RevisionAdded(s.review, s.fingerprint, v));
    if RevisionAdded(s.review, s.fingerprint, v).Ok? { RevisionGate(s, v); }
  }

  /** The set is appended as it is. */
  lemma AttachRevisionMakes(s: ReviewResult, v: RevisionSet)
    requires AttachRevision(s, v).Ok?
    ensures var r, t := s.review, AttachRevision(s, v).value.review;
      && t == r.(revisions := r.revisions + [v], sequence := r.sequence + [RevisionRef(v.revisionId)],
                 run := r.run.(revisionIds := t.run.revisionIds),
                 report := r.report.(revisionIds := t.run.revisionIds))
      && |t.run.revisionIds| == |t.revisions|
      && forall i :: 0 <= i < |t.revisions| ==> t.run.revisionIds[i] == t.revisions[i].revisionId
  {
    GatedOk(Audited(s), RevisionAdded(s.review, s.fingerprint, v));
    hide Audited, Consistent, Fingerprint;
  }
}