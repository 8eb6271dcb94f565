/** Which relations hold between the clauses of a contract, said of headings and mentions. */
module RelationMeaning {
  import opened Ordering
  import opened ClauseRelations
  import opened ClauseForest

  /** The clause is the only one of the document under this number. */
  ghost predicate Alone(clauses: seq<Clause>, d: Id, n: Number, p: Clause)
  {
    && p in clauses && p.document == d && p.heading.Some? && p.heading.value.number == n
    && forall c :: c in clauses && c.document == d && c.heading.Some? && c.heading.value.number == n ==> c == p
  }

  lemma AloneIff(clauses: seq<Clause>, d: Id, n: Number, p: Clause)
    ensures OnlyBearer(clauses, d, n, p) <==> Alone(clauses, d, n, p)
  {
  }

  /** The clause is written under a plain dotted number of at least two components. */
  predicate Nested(c: Clause)
  {
    c.heading.Some? && c.heading.value.plain && c.heading.value.number.Dotted? && |c.heading.value.number.parts| >= 2
  }

  /** p is another clause, the only one of c's document whose number is c's without its last
      component. */
  ghost predicate IsParentOf(clauses: seq<Clause>, p: Clause, c: Clause)
  {
    && c in clauses && Nested(c) && p.id != c.id
    && Alone(clauses, c.document,
         Dotted(c.heading.value.number.parts[..|c.heading.value.number.parts| - 1]), p)
  }

  predicate IsEdge(p: Clause, c: Clause, r: Relation)
  {
    r == Relation(ParentId(p.id, c.id), ParentOf, p.id, Some(c.id), true, true, Dedup(p.evidenceIds + c.evidenceIds))
  }

  /** The parent edges are exactly the pairs of a parent and its child, with the evidence of
      both. */
  lemma ParentIff(clauses: seq<Clause>, r: Relation)
    requires UniqueClauses(clauses)
    ensures r in Built(clauses) && r.kind == ParentOf <==>
      exists p, c :: IsParentOf(clauses, p, c) && IsEdge(p, c, r)
  {
    hide Built;
    BuiltMembers(clauses, r);
    if r in Built(clauses) && r.kind == ParentOf {
      var c :| c in clauses && ParentRelation(clauses, c) == Some(r);
      var p := ParentFacts(clauses, c, r);
      AloneIff(clauses, c.document, ParentNumber(c.heading).value, p);
      assert IsParentOf(clauses, p, c);
    }
    if p, c :| IsParentOf(clauses, p, c) && IsEdge(p, c, r) {
      var n := Dotted(c.heading.value.number.parts[..|c.heading.value.number.parts| - 1]);
      AloneIff(clauses, c.document, n, p);
      OneBearerIff(clauses, c.document, n, p);
      assert ParentRelation(clauses, c) == Some(r);
    }
  }

  predicate IsDefined(c: Clause, term: Id, r: Relation)
  {
    r == Relation(DefinesId(c.id, term), Defines, c.id, None, false, true, c.evidenceIds)
  }

  /** The definitions are exactly the terms of the clauses, with the evidence of the clause. */
  lemma DefinitionIff(clauses: seq<Clause>, r: Relation)
    requires UniqueClauses(clauses)
    ensures r in Built(clauses) && r.kind == Defines <==>
      exists c, t :: c in clauses && t in c.terms && IsDefined(c, t, r)
  {
    hide Built;
    BuiltMembers(clauses, r);
    if r in Built(clauses) && r.kind == Defines {
      var c, t :| c in clauses && t in c.terms && r == TermRelation(c, t);
    }
    if c, t :| c in clauses && t in c.terms && IsDefined(c, t, r) {
      assert r == TermRelation(c, t);
      assert IsDefinition(clauses, r);
    }
  }

  /** The clause mentions the number elsewhere than in its own heading. */
  ghost predicate Refers(c: Clause, n: Number)
  {
    exists i :: 0 <= i < |c.mentions| && c.mentions[i].number == n
      && (!c.mentions[i].atStart || c.heading.None? || c.heading.value.number != n)
  }

  /** Where a reference leads: to the only clause of the document under the number. */
  ghost predicate LeadsTo(clauses: seq<Clause>, c: Clause, n: Number, r: Relation)
  {
    if exists p :: Alone(clauses, c.document, n, p) then
      exists p :: Alone(clauses, c.document, n, p) && p.id != c.id
        && r == Relation(ReferenceId(c.id, n), References, c.id, Some(p.id), true, true, c.evidenceIds)
    else r == Relation(ReferenceId(c.id, n), References, c.id, None, true, false, c.evidenceIds)
  }

  /** The references are exactly the mentioned numbers, resolved when one clause of the
      document has the number and unresolved otherwise, apart from references of a clause to
      itself. */
  lemma ReferenceIff(clauses: seq<Clause>, r: Relation)
    requires UniqueClauses(clauses)
    ensures r in Built(clauses) && r.kind == References <==>
      exists c, n :: c in clauses && Refers(c, n) && LeadsTo(clauses, c, n, r)
  {
    hide Built, Refers, LeadsTo, Mentions, ReferenceRelation;
    BuiltMembers(clauses, r);
    forall c: Clause, n | c in clauses
      ensures Mentions(c, |c.mentions|, n) <==> Refers(c, n)
      ensures ReferenceRelation(clauses, c, n) == Some(r) <==> LeadsTo(clauses, c, n, r)
    {
      RefersIff(c, n);
      LeadsToIff(clauses, c, n, r);
    }
    assert r in Built(clauses) && r.kind == References <==> IsReference(clauses, r) by { KindOf(clauses, r); }
  }

  lemma KindOf(clauses: seq<Clause>, r: Relation)
    ensures IsReference(clauses, r) ==> r.kind == References
    ensures IsParent(clauses, r) ==> r.kind == ParentOf
    ensures IsDefinition(clauses, r) ==> r.kind == Defines
  {
  }

  lemma RefersIff(c: Clause, n: Number)
    ensures Mentions(c, |c.mentions|, n) <==> Refers(c, n)
  {
  }

  lemma LeadsToIff(clauses: seq<Clause>, c: Clause, n: Number, r: Relation)
    requires UniqueClauses(clauses) && c in clauses
    ensures ReferenceRelation(clauses, c, n) == Some(r) <==> LeadsTo(clauses, c, n, r)
  {
    ReferenceFacts(clauses, c, n);
    forall p ensures OnlyBearer(clauses, c.document, n, p) <==> Alone(clauses, c.document, n, p) {
      AloneIff(clauses, c.document, n, p);
    }
    hide OnlyBearer, Alone;
    if p :| Alone(clauses, c.document, n, p) {
      if ReferenceRelation(clauses, c, n).None? { assert Alone(clauses, c.document, n, c); }
    }
  }
}
