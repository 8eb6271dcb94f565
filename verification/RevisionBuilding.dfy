/**
 Revision sets made from a review: one proposed change for every finding that needs a human,
 bound to the fingerprint of the review it was made from.
 */
module RevisionBuilding {
  import opened Ordering
  import opened ReviewModel
  import opened ReviewActions
  import opened AuditKeeping

  /** How ids are derived, whether a clause cites an evidence, and what a finding proposes.
      `hash` stands for the truncated digest of a list of changes and their base. */
  datatype Builder = Builder(
    changeName: Id -> Id, hash: (Digest, seq<RevisionChange>) -> Id, revisionName: (Id, Id) -> Id,
    cites: (Clause, Id) -> bool, proposal: Finding -> string)

  ghost predicate BuilderLaws(b: Builder)
  {
    && (forall x, y :: b.changeName(x) == b.changeName(y) ==> x == y)
    && (forall r, x, y :: b.revisionName(r, x) == b.revisionName(r, y) ==> x == y)
    && (forall d, e, xs, ys :: b.hash(d, xs) == b.hash(e, ys) ==> d == e)
  }

  // --------------------------------------------------------------- the clause of a finding

  function FirstKnown(ids: seq<Id>, core: Snapshot): (r: Option<Id>)
    ensures r.Some? ==> r.value in ClauseIds(core)
  {
    if ids == [] then None else if ids[0] in ClauseIds(core) then Some(ids[0]) else FirstKnown(ids[1..], core)
  }

  function FirstCiting(b: Builder, clauses: seq<Clause>, f: Finding): (r: Option<Id>)
    ensures r.Some? ==> exists c :: c in clauses && c.clauseId == r.value
  {
    if clauses == [] then None
    else if exists e :: e in f.evidenceIds && b.cites(clauses[0], e) then Some(clauses[0].clauseId)
    else FirstCiting(b, clauses[1..], f)
  }

  /** The first clause the finding names, else the first that cites evidence of it. */
  function ClauseFor(b: Builder, core: Snapshot, f: Finding): (r: Option<Id>)
    ensures r.Some? ==> r.value in ClauseIds(core)
  {
    var named := FirstKnown(f.clauseIds, core);
    if named.Some? then named else FirstCiting(b, core.clauses, f)
  }

  function ChangeFor(b: Builder, core: Snapshot, f: Finding): RevisionChange
  {
    RevisionChange(b.changeName(f.findingId), f.findingId, ClauseFor(b, core, f), b.proposal(f), Dedup(f.evidenceIds))
  }

  // ------------------------------------------------------------------------ building

  /** The changes for the findings with one of these statuses, or an error for a finding
      without evidence. */
  function ChangesFor(b: Builder, core: Snapshot, statuses: set<FindingStatus>, findings: seq<Finding>)
    : Outcome<seq<RevisionChange>>
  {
    if findings == [] then Ok([])
    else
      var before, f := ChangesFor(b, core, statuses, findings[..|findings| - 1]), findings[|findings| - 1];
      if before.Err? || f.status !in statuses then before
      else if f.evidenceIds == [] then Err(UnknownEvidence)
      else Ok(before.value + [ChangeFor(b, core, f)])
  }

  function SetOf(b: Builder, runId: Id, base: Digest, changes: seq<RevisionChange>, now: int): RevisionSet
  {
    var hash := b.hash(base, changes);
    RevisionSet(b.revisionName(runId, hash), runId, base, changes, Some(hash), now)
  }

  /** build_revision_set */
  function BuiltSet(b: Builder, s: ReviewResult, statuses: set<FindingStatus>, now: int): Outcome<RevisionSet>
  {
    if !Audited(s) then Err(NotAuditable)
    else
      var changes := ChangesFor(b, s.review.core, statuses, s.review.core.findings);
      if changes.Err? then Err(changes.error)
      else Ok(SetOf(b, s.review.run.runId, s.fingerprint.value, changes.value, now))
  }

  method BuildRevisionSet(b: Builder, s: ReviewResult, statuses: set<FindingStatus>, now: int)
    returns (result: Outcome<RevisionSet>)
    ensures result == BuiltSet(b, s, statuses, now)
  {
    if !Audited(s) { return Err(NotAuditable); }
    var changes := CollectChanges(b, s.review.core, statuses, s.review.core.findings);
    if changes.Err? { return Err(changes.error); }
    result := Ok(SetOf(b, s.review.run.runId, s.fingerprint.value, changes.value, now));
  }

  method CollectChanges(b: Builder, core: Snapshot, statuses: set<FindingStatus>, findings: seq<Finding>)
    returns (result: Outcome<seq<RevisionChange>>)
    ensures result == ChangesFor(b, core, statuses, findings)
  {
    hide ChangeFor;
    var changes: seq<RevisionChange> := [];
    for i := 0 to |findings|
      invariant ChangesFor(b, core, statuses, findings[..i]) == Ok(changes)
    {
      var f := findings[i];
      TakeStep(findings, i);
      if f.status !in statuses { continue; }
      if f.evidenceIds == [] {
        FailureStays(b, core, statuses, findings, i + 1);
        return Err(UnknownEvidence);
      }
      changes := changes + [ChangeFor(b, core, f)];
    }
    TakeAll(findings);
    result := Ok(changes);
  }

  lemma {:induction false} FailureStays(b: Builder, core: Snapshot, statuses: set<FindingStatus>,
                                        findings: seq<Finding>, n: nat)
    requires n <= |findings| && ChangesFor(b, core, statuses, findings[..n]).Err?
    ensures ChangesFor(b, core, statuses, findings) == ChangesFor(b, core, statuses, findings[..n])
    decreases |findings| - n
  {
    if n < |findings| {
      TakeStep(findings, n);
      FailureStays(b, core, statuses, findings, n + 1);
    } else {
      TakeAll(findings);
    }
  }

  // ---------------------------------------------------------------- what is built fits

  /** The change proposes something for a finding of the list. */
  predicate MadeFor(b: Builder, core: Snapshot, findings: seq<Finding>, ch: RevisionChange)
  {
    exists f :: f in findings && f.evidenceIds != [] && ch == ChangeFor(b, core, f)
  }

  lemma {:induction false} ChangesAreMade(b: Builder, core: Snapshot, statuses: set<FindingStatus>,
                                          findings: seq<Finding>)
    requires ChangesFor(b, core, statuses, findings).Ok?
    ensures forall ch :: ch in ChangesFor(b, core, statuses, findings).value ==> MadeFor(b, core, findings, ch)
  {
    if findings != [] {
      var front, f := findings[..|findings| - 1], findings[|findings| - 1];
      SnocParts(findings);
      ChangesAreMade(b, core, statuses, front);
      forall ch | ch in ChangesFor(b, core, statuses, findings).value ensures MadeFor(b, core, findings, ch) {
        if ch in ChangesFor(b, core, statuses, front).value {
          var g :| g in front && g.evidenceIds != [] && ch == ChangeFor(b, core, g);
          assert g in findings;
        } else {
          assert f in findings;
        }
      }
    }
  }

  /** The ids of the changes are those of distinct findings. */
  lemma {:induction false} ChangeIdsDistinct(b: Builder, core: Snapshot, statuses: set<FindingStatus>,
                                             findings: seq<Finding>)
    requires BuilderLaws(b) && Distinct(FindingIds(findings)) && ChangesFor(b, core, statuses, findings).Ok?
    ensures var changes := ChangesFor(b, core, statuses, findings).value;
      forall i, j :: 0 <= i < j < |changes| ==> changes[i].changeId != changes[j].changeId
  {
    if findings != [] {
      var n := |findings| - 1;
      var front, f := findings[..n], findings[n];
      FrontDistinct(findings);
      ChangeIdsDistinct(b, core, statuses, front);
      ChangesAreMade(b, core, statuses, front);
      var before := ChangesFor(b, core, statuses, front).value;
      forall i | 0 <= i < |before| ensures before[i].changeId != b.changeName(f.findingId) {
        assert before[i] in before;
        var g :| g in front && g.evidenceIds != [] && before[i] == ChangeFor(b, core, g);
        var k :| 0 <= k < n && findings[k] == g;
        assert FindingIds(findings)[k] != FindingIds(findings)[n];
      }
    }
  }

  lemma FrontDistinct(findings: seq<Finding>)
    requires findings != [] && Distinct(FindingIds(findings))
    ensures Distinct(FindingIds(findings[..|findings| - 1]))
  {
    var n := |findings| - 1;
    forall i, j | 0 <= i < j < n ensures FindingIds(findings[..n])[i] != FindingIds(findings[..n])[j] {
      assert FindingIds(findings)[i] != FindingIds(findings)[j];
    }
  }

  lemma ChangeFits(b: Builder, core: Snapshot, known: seq<Id>, ch: RevisionChange)
    requires MadeFor(b, core, core.findings, ch) && forall f :: f in core.findings ==> AllIn(f.evidenceIds, known)
    ensures ch.clauseId.Some? ==> ch.clauseId.value in ClauseIds(core)
    ensures AllIn(ch.evidenceIds, known)
    ensures OnFinding(core, ch)
  {
    var f :| f in core.findings && f.evidenceIds != [] && ch == ChangeFor(b, core, f);
    var x := f.evidenceIds[0];
    assert x in f.evidenceIds;
    assert forall y :: y in ch.evidenceIds <==> y in f.evidenceIds;
  }

  lemma SetIntegrity(core: Snapshot, runId: Id, known: seq<Id>, v: RevisionSet)
    requires v.runId == runId && v.revisionFingerprint.Some?
    requires forall i, j :: 0 <= i < j < |v.changes| ==> v.changes[i].changeId != v.changes[j].changeId
    requires forall ch :: ch in v.changes ==> AllIn(ch.evidenceIds, known)
    requires forall ch :: ch in v.changes ==> (ch.clauseId.Some? ==> ch.clauseId.value in ClauseIds(core))
    requires forall ch :: ch in v.changes ==> OnFinding(core, ch)
    ensures RevisionIntegrity(core, runId, v) && RevisionReferences(v, known)
  {
  }

  /** The change is about a finding and cites evidence of it. */
  predicate OnFinding(core: Snapshot, ch: RevisionChange)
  {
    exists f :: f in core.findings && f.findingId == ch.findingId
      && exists x :: x in ch.evidenceIds && x in f.evidenceIds
  }

  /** What is built is bound to findings, clauses and evidence of the review it is built from. */
  lemma BuiltFits(b: Builder, s: ReviewResult, statuses: set<FindingStatus>, now: int)
    requires BuilderLaws(b) && BuiltSet(b, s, statuses, now).Ok?
    ensures var v := BuiltSet(b, s, statuses, now).value;
      && v.runId == s.review.run.runId && s.fingerprint == Some(v.baseFingerprint)
      && RevisionIntegrity(s.review.core, s.review.run.runId, v)
      && RevisionReferences(v, EvidenceIds(s.review.evidence))
  {
    hide ChangesFor, ChangeFor, BuilderLaws, Consistent, Fingerprint, RevisionIntegrity, RevisionReferences, MadeFor,
      OnFinding, AllIn;
    var core, known := s.review.core, EvidenceIds(s.review.evidence);
    var v := BuiltSet(b, s, statuses, now).value;
    ConsistentFindings(s.review);
    ChangesAreMade(b, core, statuses, core.findings);
    ChangeIdsDistinct(b, core, statuses, core.findings);
    forall ch | ch in v.changes
      ensures AllIn(ch.evidenceIds, known) && (ch.clauseId.Some? ==> ch.clauseId.value in ClauseIds(core))
      ensures OnFinding(core, ch)
    {
      ChangeFits(b, core, known, ch);
    }
    SetIntegrity(core, s.review.run.runId, known, v);
  }

  lemma ConsistentFindings(r: Review)
    requires Consistent(r)
    ensures Distinct(FindingIds(r.core.findings))
    ensures forall f :: f in r.core.findings ==> AllIn(f.evidenceIds, EvidenceIds(r.evidence))
  {
  }

  /** So it attaches to that review if and only if its id is not taken there. */
  lemma BuiltAttachesIff(b: Builder, s: ReviewResult, statuses: set<FindingStatus>, now: int)
    requires BuilderLaws(b) && BuiltSet(b, s, statuses, now).Ok?
    ensures AttachRevision(s, BuiltSet(b, s, statuses, now).value).Ok? <==>
      BuiltSet(b, s, statuses, now).value.revisionId !in RevisionIds(s.review.revisions)
  {
    hide Consistent, RevisionIntegrity, RevisionReferences, ChangesFor, BuilderLaws, Fingerprint;
    var v := BuiltSet(b, s, statuses, now).value;
    BuiltFits(b, s, statuses, now);
    if v.revisionId !in RevisionIds(s.review.revisions) {
      RevisionGate(s, v);
    } else {
      GatedOk(Audited(s), RevisionAdded(s.review, s.fingerprint, v));
    }
  }

  // ------------------------------------------------------ a review never holds its own set

  /** How deep fingerprints are nested in the first n revision sets below a fingerprint. */
  function Nesting(d: Digest, n: nat): nat
    requires n <= |d.content.revisions|
    decreases d, n
  {
    if n == 0 then 0
    else
      var base := d.content.revisions[n - 1].baseFingerprint;
      Nesting(d, n - 1) + 1 + Nesting(base, |base.content.revisions|)
  }

  lemma {:induction false} NestedLess(d: Digest, n: nat, i: nat)
    requires i < n <= |d.content.revisions|
    ensures var base := d.content.revisions[i].baseFingerprint;
      Nesting(base, |base.content.revisions|) < Nesting(d, n)
  {
    if i < n - 1 { NestedLess(d, n - 1, i); }
  }

  /** No revision set of a review was made from that very review. */
  lemma NotItsOwnBase(r: Review, i: nat)
    requires i < |r.revisions|
    ensures r.revisions[i].baseFingerprint != Fingerprint(r)
  {
    var d := Fingerprint(r);
    assert d.content.revisions[i] == TimelessRevision(r.revisions[i]);
    NestedLess(d, |d.content.revisions|, i);
  }

  /** The set carries the id that building gives it. */
  predicate Named(b: Builder, v: RevisionSet)
  {
    v.revisionId == b.revisionName(v.runId, b.hash(v.baseFingerprint, v.changes))
  }

  lemma BuiltIsNamed(b: Builder, s: ReviewResult, statuses: set<FindingStatus>, now: int)
    requires BuiltSet(b, s, statuses, now).Ok?
    ensures Named(b, BuiltSet(b, s, statuses, now).value)
  {
  }

  lemma OwnRevisions(r: Review)
    requires Consistent(r)
    ensures forall v :: v in r.revisions ==> v.runId == r.run.runId
  {
  }

  /** Where all sets so far were built, what is built next always attaches. */
  lemma BuiltAlwaysAttaches(b: Builder, s: ReviewResult, statuses: set<FindingStatus>, now: int)
    requires BuilderLaws(b) && BuiltSet(b, s, statuses, now).Ok?
    requires forall v :: v in s.review.revisions ==> Named(b, v)
    ensures AttachRevision(s, BuiltSet(b, s, statuses, now).value).Ok?
  {
    hide Consistent, ChangesFor, Fingerprint;
    var r, v := s.review, BuiltSet(b, s, statuses, now).value;
    BuiltIsNamed(b, s, statuses, now);
    OwnRevisions(r);
    forall i | 0 <= i < |r.revisions| ensures RevisionIds(r.revisions)[i] != v.revisionId {
      NotItsOwnBase(r, i);
      assert r.revisions[i] in r.revisions;
    }
    BuiltAttachesIff(b, s, statuses, now);
  }
}
