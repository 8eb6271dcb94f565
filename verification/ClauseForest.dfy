/** What the built relations guarantee: parents form a forest, references resolve exactly
    when they can, and the audit accepts the list. */
module ClauseForest {
  import opened Collecting
  import opened Ordering
  import opened ClauseRelations

  predicate UniqueClauses(clauses: seq<Clause>)
  {
    forall i, j :: 0 <= i < |clauses| && 0 <= j < |clauses| && clauses[i].id == clauses[j].id ==> i == j
  }

  lemma SameClause(clauses: seq<Clause>, a: Clause, b: Clause)
    requires UniqueClauses(clauses) && a in clauses && b in clauses && a.id == b.id
    ensures a == b
  {
    var i :| 0 <= i < |clauses| && clauses[i] == a;
    var j :| 0 <= j < |clauses| && clauses[j] == b;
  }

  // -------------------------------------------------------------- where relations come from

  lemma BearersMembers(clauses: seq<Clause>, d: Id, n: Number)
    ensures forall c :: c in Bearers(clauses, d, n) <==> c in clauses && Bears(c, d, n)
  {
    CollectMembers((c: Clause) => Kept(Bears(c, d, n), c), clauses);
  }

  lemma {:induction false} CollectOnePlace<S(!new), T(!new)>(f: S -> Option<T>, s: seq<S>, i: nat)
    requires i < |s| && f(s[i]).Some? && forall k :: 0 <= k < |s| && k != i ==> f(s[k]).None?
    ensures Collect(f, s) == [f(s[i]).value]
  {
    var n := |s| - 1;
    if i == n {
      CollectNone(f, s[..n]);
    } else {
      CollectOnePlace(f, s[..n], i);
    }
  }

  lemma {:induction false} CollectNone<S(!new), T(!new)>(f: S -> Option<T>, s: seq<S>)
    requires forall k :: 0 <= k < |s| ==> f(s[k]).None?
    ensures Collect(f, s) == []
  {
    if s != [] { CollectNone(f, s[..|s| - 1]); }
  }

  /** Exactly one clause of the document bears the number, and it is p. */
  ghost predicate OnlyBearer(clauses: seq<Clause>, d: Id, n: Number, p: Clause)
  {
    p in clauses && Bears(p, d, n) && forall c :: c in clauses && Bears(c, d, n) ==> c == p
  }

  /** The one bearer in the list is the only clause that bears the number. */
  lemma OneBearerIff(clauses: seq<Clause>, d: Id, n: Number, p: Clause)
    requires UniqueClauses(clauses)
    ensures Bearers(clauses, d, n) == [p] <==> OnlyBearer(clauses, d, n, p)
  {
    BearersMembers(clauses, d, n);
    if Bearers(clauses, d, n) == [p] {
      assert p in Bearers(clauses, d, n);
    }
    if OnlyBearer(clauses, d, n, p) {
      var i :| 0 <= i < |clauses| && clauses[i] == p;
      var f := (c: Clause) => Kept(Bears(c, d, n), c);
      forall k | 0 <= k < |clauses| && k != i ensures f(clauses[k]).None? {
        assert clauses[k] in clauses;
      }
      CollectOnePlace(f, clauses, i);
    }
  }

  lemma ParentFacts(clauses: seq<Clause>, child: Clause, r: Relation) returns (p: Clause)
    requires UniqueClauses(clauses) && ParentRelation(clauses, child) == Some(r)
    ensures p.id != child.id && r.source == p.id && r.target == Some(child.id) && r.id == ParentId(p.id, child.id)
    ensures r.kind == ParentOf && r.toClause && r.resolved && r.evidenceIds == Dedup(p.evidenceIds + child.evidenceIds)
    ensures ParentNumber(child.heading).Some?
    ensures OnlyBearer(clauses, child.document, ParentNumber(child.heading).value, p)
  {
    var n := ParentNumber(child.heading).value;
    var parents := Bearers(clauses, child.document, n);
    p := parents[0];
    assert parents == [p];
    OneBearerIff(clauses, child.document, n, p);
  }

  lemma ParentsMembers(clauses: seq<Clause>)
    ensures forall r :: r in Parents(clauses) <==> exists c :: c in clauses && ParentRelation(clauses, c) == Some(r)
  {
    var f := (c: Clause) => ParentRelation(clauses, c);
    CollectMembers(f, clauses);
    assert Parents(clauses) == Collect((c: Clause) => ParentRelation(clauses, c), clauses);
    CollectSame(f, (c: Clause) => ParentRelation(clauses, c), clauses);
  }

  lemma {:induction false} CollectSame<S(!new), T(!new)>(f: S -> Option<T>, g: S -> Option<T>, s: seq<S>)
    requires forall x :: f(x) == g(x)
    ensures Collect(f, s) == Collect(g, s)
  {
    if s != [] { CollectSame(f, g, s[..|s| - 1]); }
  }

  lemma {:induction false} TermRelationsMembers(c: Clause, terms: seq<Id>)
    ensures forall r :: r in TermRelations(c, terms) <==> exists t :: t in terms && r == TermRelation(c, t)
  {
    if terms != [] {
      var front, last := terms[..|terms| - 1], terms[|terms| - 1];
      TermRelationsMembers(c, front);
      SnocParts(terms);
      assert last in terms && forall t :: t in front ==> t in terms;
    }
  }

  lemma {:induction false} DefinitionsMembers(clauses: seq<Clause>, n: nat, r: Relation)
    requires n <= |clauses|
    ensures r in Definitions(clauses, n) <==>
      exists i, t :: 0 <= i < n && t in clauses[i].terms && r == TermRelation(clauses[i], t)
  {
    hide TermRelation, SortedSet;
    if n > 0 {
      DefinitionsMembers(clauses, n - 1, r);
      var c := clauses[n - 1];
      SortedSetMembers(c.terms);
      TermRelationsMembers(c, SortedSet(c.terms));
      if i, t :| 0 <= i < n && t in clauses[i].terms && r == TermRelation(clauses[i], t) {
        if i == n - 1 { assert t in SortedSet(c.terms); }
      }
    }
  }

  /** The numbers that clause c refers to, apart from its own heading. */
  predicate Mentions(c: Clause, k: nat, n: Number)
    requires k <= |c.mentions|
  {
    exists i :: 0 <= i < k && c.mentions[i].number == n && !IsOwnHeading(c, c.mentions[i])
  }

  lemma {:induction false} ReferencesOfMembers(clauses: seq<Clause>, c: Clause, k: nat)
    requires k <= |c.mentions|
    ensures forall n :: n in ReferencesOf(clauses, c, k).1 <==> Mentions(c, k, n)
    ensures forall r :: r in ReferencesOf(clauses, c, k).0 <==>
      exists n :: Mentions(c, k, n) && ReferenceRelation(clauses, c, n) == Some(r)
  {
    if k > 0 {
      ReferencesOfMembers(clauses, c, k - 1);
      var m := c.mentions[k - 1];
      forall n ensures Mentions(c, k, n) <==> Mentions(c, k - 1, n) || (n == m.number && !IsOwnHeading(c, m)) {
        if i :| 0 <= i < k && c.mentions[i].number == n && !IsOwnHeading(c, c.mentions[i]) {
        }
      }
    }
  }

  lemma {:induction false} AllReferencesMembers(clauses: seq<Clause>, n: nat, r: Relation)
    requires n <= |clauses|
    ensures r in AllReferences(clauses, n) <==>
      exists i :: 0 <= i < n && r in ReferencesOf(clauses, clauses[i], |clauses[i].mentions|).0
  {
    hide ReferencesOf;
    if n > 0 { AllReferencesMembers(clauses, n - 1, r); }
  }

  /** Where a relation comes from. */
  ghost predicate IsParent(clauses: seq<Clause>, r: Relation)
  {
    exists c :: c in clauses && ParentRelation(clauses, c) == Some(r)
  }

  ghost predicate IsDefinition(clauses: seq<Clause>, r: Relation)
  {
    exists c, t :: c in clauses && t in c.terms && r == TermRelation(c, t)
  }

  ghost predicate IsReference(clauses: seq<Clause>, r: Relation)
  {
    exists c, n :: c in clauses && Mentions(c, |c.mentions|, n) && ReferenceRelation(clauses, c, n) == Some(r)
  }

  lemma ParentOrigin(clauses: seq<Clause>, r: Relation)
    ensures r in Parents(clauses) <==> IsParent(clauses, r)
  {
    ParentsMembers(clauses);
  }

  lemma DefinitionOrigin(clauses: seq<Clause>, r: Relation)
    ensures r in Definitions(clauses, |clauses|) <==> IsDefinition(clauses, r)
  {
    hide Definitions, TermRelation;
    DefinitionsMembers(clauses, |clauses|, r);
    if c, t :| c in clauses && t in c.terms && r == TermRelation(c, t) {
      var i :| 0 <= i < |clauses| && clauses[i] == c;
    }
  }

  lemma ReferenceOrigin(clauses: seq<Clause>, r: Relation)
    ensures r in AllReferences(clauses, |clauses|) <==> IsReference(clauses, r)
  {
    hide AllReferences, ReferencesOf, ReferenceRelation;
    AllReferencesMembers(clauses, |clauses|, r);
    forall i | 0 <= i < |clauses|
      ensures r in ReferencesOf(clauses, clauses[i], |clauses[i].mentions|).0 <==>
        exists n ::
          Mentions(clauses[i], |clauses[i].mentions|, n) && ReferenceRelation(clauses, clauses[i], n) == Some(r)
    {
      ReferencesOfMembers(clauses, clauses[i], |clauses[i].mentions|);
    }
    if c, n :| c in clauses && Mentions(c, |c.mentions|, n) && ReferenceRelation(clauses, c, n) == Some(r) {
      var i :| 0 <= i < |clauses| && clauses[i] == c;
    }
  }

  lemma RelationOrigin(clauses: seq<Clause>, r: Relation)
    ensures r in AllRelations(clauses) <==> IsParent(clauses, r) || IsDefinition(clauses, r) || IsReference(clauses, r)
  {
    hide Parents, Definitions, AllReferences, IsParent, IsDefinition, IsReference;
    ParentOrigin(clauses, r);
    DefinitionOrigin(clauses, r);
    ReferenceOrigin(clauses, r);
  }

  // --------------------------------------------------------------------- unique ids

  lemma {:induction false} FirstOfEachFrom(relations: seq<Relation>, r: Relation)
    requires r in FirstOfEach(relations)
    ensures r in relations
  {
    var front, last := relations[..|relations| - 1], relations[|relations| - 1];
    SnocParts(relations);
    if r in FirstOfEach(front) {
      FirstOfEachFrom(front, r);
      assert r in front + [last];
    }
  }

  lemma {:induction false} FirstOfEachHas(relations: seq<Relation>, r: Relation) returns (q: Relation)
    requires r in relations
    ensures q in FirstOfEach(relations) && q.id == r.id
  {
    var front, last := relations[..|relations| - 1], relations[|relations| - 1];
    SnocParts(relations);
    var kept := FirstOfEach(front);
    if r in front {
      q := FirstOfEachHas(front, r);
      assert q in kept + [last];
    } else if exists k :: k in kept && k.id == last.id {
      q :| q in kept && q.id == last.id;
    } else {
      q := last;
      assert q in kept + [last];
    }
  }

  ghost predicate UniqueIds(relations: seq<Relation>)
  {
    forall i, j :: 0 <= i < j < |relations| ==> relations[i].id != relations[j].id
  }

  lemma {:induction false} FirstOfEachUnique(relations: seq<Relation>)
    ensures UniqueIds(FirstOfEach(relations))
  {
    if relations != [] {
      var front, last := relations[..|relations| - 1], relations[|relations| - 1];
      FirstOfEachUnique(front);
      var kept := FirstOfEach(front);
      if forall r :: r in kept ==> r.id != last.id {
        UniqueSnoc(kept, last);
      }
    }
  }

  lemma UniqueSnoc(kept: seq<Relation>, last: Relation)
    requires UniqueIds(kept) && forall r :: r in kept ==> r.id != last.id
    ensures UniqueIds(kept + [last])
  {
  }

  /** With unique clause ids an id determines its relation, so nothing is dropped. */
  lemma SameIdSameRelation(clauses: seq<Clause>, a: Relation, b: Relation)
    requires UniqueClauses(clauses) && a.id == b.id
    requires IsParent(clauses, a) || IsDefinition(clauses, a) || IsReference(clauses, a)
    requires IsParent(clauses, b) || IsDefinition(clauses, b) || IsReference(clauses, b)
    ensures a == b
  {
    match a.id
    case ParentId(_, _) =>
      var c :| c in clauses && ParentRelation(clauses, c) == Some(a);
      var d :| d in clauses && ParentRelation(clauses, d) == Some(b);
      SameClause(clauses, c, d);
    case DefinesId(_, _) =>
      var c, t :| c in clauses && t in c.terms && a == TermRelation(c, t);
      var d, u :| d in clauses && u in d.terms && b == TermRelation(d, u);
      SameClause(clauses, c, d);
    case ReferenceId(_, _) =>
      var c, n :| c in clauses && Mentions(c, |c.mentions|, n) && ReferenceRelation(clauses, c, n) == Some(a);
      var d, m :| d in clauses && Mentions(d, |d.mentions|, m) && ReferenceRelation(clauses, d, m) == Some(b);
      SameClause(clauses, c, d);
  }

  /** The relations of a contract: what build_clause_relations returns. */
  ghost function Built(clauses: seq<Clause>): seq<Relation> { FirstOfEach(AllRelations(clauses)) }

  lemma BuiltMembers(clauses: seq<Clause>, r: Relation)
    requires UniqueClauses(clauses)
    ensures r in Built(clauses) <==> IsParent(clauses, r) || IsDefinition(clauses, r) || IsReference(clauses, r)
  {
    var all := AllRelations(clauses);
    RelationOrigin(clauses, r);
    hide AllRelations, FirstOfEach, IsParent, IsDefinition, IsReference;
    if r in FirstOfEach(all) { FirstOfEachFrom(all, r); }
    if r in all {
      var q := FirstOfEachHas(all, r);
      FirstOfEachFrom(all, q);
      RelationOrigin(clauses, q);
      SameIdSameRelation(clauses, q, r);
    }
  }

  // ------------------------------------------------------------------------- the forest

  /** The number of components of a clause number. */
  function Depth(c: Clause): nat
  {
    if c.heading.Some? && c.heading.value.number.Dotted? then |c.heading.value.number.parts| else 0
  }

  /** An edge leads from a clause to one of the same document, one component deeper. */
  ghost predicate Descends(clauses: seq<Clause>, from: Id, to: Id)
  {
    exists p, c ::
      p in clauses && c in clauses && p.id == from && c.id == to && p.document == c.document && Depth(c) == Depth(p) + 1
  }

  lemma EdgeDescends(clauses: seq<Clause>, r: Relation)
    requires UniqueClauses(clauses) && IsParent(clauses, r)
    ensures r.target.Some? && Descends(clauses, r.source, r.target.value)
  {
    var c :| c in clauses && ParentRelation(clauses, c) == Some(r);
    var p := ParentFacts(clauses, c, r);
    assert Bears(p, c.document, ParentNumber(c.heading).value);
  }

  lemma ParentsByKind(clauses: seq<Clause>, r: Relation)
    requires UniqueClauses(clauses) && r in Built(clauses) && r.kind == ParentOf
    ensures IsParent(clauses, r)
  {
    BuiltMembers(clauses, r);
  }

  /** A clause has at most one parent. */
  lemma OneParent(clauses: seq<Clause>, a: Relation, b: Relation)
    requires UniqueClauses(clauses) && a in Built(clauses) && b in Built(clauses)
    requires a.kind == ParentOf && b.kind == ParentOf && a.target == b.target
    ensures a == b
  {
    hide Built;
    ParentsByKind(clauses, a);
    ParentsByKind(clauses, b);
    var c :| c in clauses && ParentRelation(clauses, c) == Some(a);
    var d :| d in clauses && ParentRelation(clauses, d) == Some(b);
    SameClause(clauses, c, d);
  }

  ghost predicate HasEdge(relations: seq<Relation>, from: Id, to: Id)
  {
    exists r :: r in relations && r.kind == ParentOf && r.source == from && r.target == Some(to)
  }

  ghost predicate IsPath(relations: seq<Relation>, path: seq<Id>)
  {
    forall i, j :: 0 <= i && j == i + 1 < |path| ==> HasEdge(relations, path[i], path[j])
  }

  /** Along parent edges the clause numbers get one component longer at every step, so no
      path returns to where it started. */
  lemma {:induction false} PathsDescend(clauses: seq<Clause>, path: seq<Id>) returns (a: Clause, b: Clause)
    requires UniqueClauses(clauses) && |path| >= 2 && IsPath(Built(clauses), path)
    ensures a in clauses && b in clauses && a.id == path[0] && b.id == path[|path| - 1]
    ensures Depth(b) == Depth(a) + |path| - 1
    decreases |path|
  {
    hide Built;
    var n := |path| - 1;
    assert HasEdge(Built(clauses), path[n - 1], path[n]);
    var r :| r in Built(clauses) && r.kind == ParentOf && r.source == path[n - 1] && r.target == Some(path[n]);
    ParentsByKind(clauses, r);
    EdgeDescends(clauses, r);
    var p, c :| p in clauses && c in clauses && p.id == path[n - 1] && c.id == path[n] && Depth(c) == Depth(p) + 1;
    b := c;
    if n == 1 {
      a := p;
    } else {
      var q;
      a, q := PathsDescend(clauses, path[..n]);
      SameClause(clauses, p, q);
    }
  }

  lemma NoCycles(clauses: seq<Clause>, path: seq<Id>)
    requires UniqueClauses(clauses) && |path| >= 2 && IsPath(Built(clauses), path)
    ensures path[0] != path[|path| - 1]
  {
    var a, b := PathsDescend(clauses, path);
    if path[0] == path[|path| - 1] { SameClause(clauses, a, b); }
  }

  // ---------------------------------------------------------------------- references

  /** A mentioned number is recorded, and it is resolved exactly when one clause of the
      document bears it; only a reference to the clause itself is left out. */
  lemma ReferencesResolveIff(clauses: seq<Clause>, c: Clause, n: Number)
    requires UniqueClauses(clauses) && c in clauses && Mentions(c, |c.mentions|, n)
    ensures (exists r :: r in Built(clauses) && r.id == ReferenceId(c.id, n)) <==>
      !OnlyBearer(clauses, c.document, n, c)
    ensures forall r :: r in Built(clauses) && r.id == ReferenceId(c.id, n) ==>
      (r.resolved <==> exists p :: OnlyBearer(clauses, c.document, n, p))
      && (forall p :: OnlyBearer(clauses, c.document, n, p) ==> r.target == Some(p.id) && p.id != c.id)
      && (!r.resolved ==> r.target == None)
  {
    hide Built;
    ReferenceFacts(clauses, c, n);
    var made := ReferenceRelation(clauses, c, n);
    if made.Some? {
      BuiltMembers(clauses, made.value);
      assert IsReference(clauses, made.value);
    }
    forall r | r in Built(clauses) && r.id == ReferenceId(c.id, n) ensures made == Some(r) {
      BuiltMembers(clauses, r);
      var d, m :| d in clauses && Mentions(d, |d.mentions|, m) && ReferenceRelation(clauses, d, m) == Some(r);
      SameClause(clauses, c, d);
    }
  }

  lemma ReferenceFacts(clauses: seq<Clause>, c: Clause, n: Number)
    requires UniqueClauses(clauses) && c in clauses
    ensures var made := ReferenceRelation(clauses, c, n);
      && (made.None? <==> OnlyBearer(clauses, c.document, n, c))
      && (made.Some? ==>
            && made.value.id == ReferenceId(c.id, n)
            && (made.value.resolved <==> exists p :: OnlyBearer(clauses, c.document, n, p))
            && (forall p :: OnlyBearer(clauses, c.document, n, p) ==> made.value.target == Some(p.id) && p.id != c.id)
            && (!made.value.resolved ==> made.value.target == None))
  {
    var bearers := Bearers(clauses, c.document, n);
    if |bearers| == 1 {
      var p := bearers[0];
      assert bearers == [p];
      OneBearerIff(clauses, c.document, n, p);
      if p.id == c.id { SameClause(clauses, p, c); }
      forall q | OnlyBearer(clauses, c.document, n, q) ensures q == p {
      }
    } else {
      forall p ensures !OnlyBearer(clauses, c.document, n, p) {
        OneBearerIff(clauses, c.document, n, p);
      }
    }
  }

  // ------------------------------------------------------------------------- the audit

  predicate SubsetOf(ids: seq<Id>, of: seq<Id>) { forall e :: e in ids ==> e in of }

  /** The audit of one relation. */
  ghost predicate AuditRelation(clauses: seq<Clause>, r: Relation)
  {
    exists s :: s in clauses && s.id == r.source &&
      if !r.toClause then
        r.kind == Defines && r.resolved && r.target == None && SubsetOf(r.evidenceIds, s.evidenceIds)
      else
        && r.kind != Defines
        && if r.resolved then
             r.target.Some? && exists t :: (t in clauses && t.id == r.target.value && t.id != s.id
               && t.document == s.document && SubsetOf(r.evidenceIds, s.evidenceIds + t.evidenceIds))
           else r.target == None && SubsetOf(r.evidenceIds, s.evidenceIds)
  }

  lemma ParentAudited(clauses: seq<Clause>, r: Relation)
    requires UniqueClauses(clauses) && IsParent(clauses, r)
    ensures AuditRelation(clauses, r)
  {
    var c :| c in clauses && ParentRelation(clauses, c) == Some(r);
    var p := ParentFacts(clauses, c, r);
    assert SubsetOf(r.evidenceIds, p.evidenceIds + c.evidenceIds);
  }

  lemma ReferenceAudited(clauses: seq<Clause>, r: Relation)
    requires UniqueClauses(clauses) && IsReference(clauses, r)
    ensures AuditRelation(clauses, r)
  {
    var c, n :| c in clauses && Mentions(c, |c.mentions|, n) && ReferenceRelation(clauses, c, n) == Some(r);
    ReferenceFacts(clauses, c, n);
    if r.resolved {
      var p :| OnlyBearer(clauses, c.document, n, p);
      assert p in clauses && SubsetOf(r.evidenceIds, c.evidenceIds + p.evidenceIds);
    }
  }

  lemma DefinitionAudited(clauses: seq<Clause>, r: Relation)
    requires IsDefinition(clauses, r)
    ensures AuditRelation(clauses, r)
  {
    var c, t :| c in clauses && t in c.terms && r == TermRelation(c, t);
  }

  /** Every built list passes the audit of relations: unique ids, and every relation
      between clauses of one document with evidence of its own clauses. */
  lemma RelationsPassAudit(clauses: seq<Clause>)
    requires UniqueClauses(clauses)
    ensures UniqueIds(Built(clauses))
    ensures forall r :: r in Built(clauses) ==> AuditRelation(clauses, r)
  {
    FirstOfEachUnique(AllRelations(clauses));
    hide UniqueIds;
    EachAudited(clauses);
  }

  lemma EachAudited(clauses: seq<Clause>)
    requires UniqueClauses(clauses)
    ensures forall r :: r in Built(clauses) ==> AuditRelation(clauses, r)
  {
    hide Built, IsParent, IsDefinition, IsReference, AuditRelation;
    forall r | r in Built(clauses) ensures AuditRelation(clauses, r) {
      BuiltMembers(clauses, r);
      if IsParent(clauses, r) { ParentAudited(clauses, r); }
      else if IsReference(clauses, r) { ReferenceAudited(clauses, r); }
      else { DefinitionAudited(clauses, r); }
    }
  }
}
