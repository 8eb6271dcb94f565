/**
 Relations between clauses: parents by dotted numbers, defined terms and cross-references.
 */
module ClauseRelations {
  import opened Collecting
  import opened Ordering

  /** A normalised clause number: dotted components, or any other text. */
  datatype Number = Dotted(parts: seq<Id>) | Word(text: Id)

  /** A clause number as written: its normal form and whether it is written as a plain
      dotted number. */
  datatype Heading = Heading(number: Number, plain: bool)

  /** A cross-reference found in a clause's text; atStart marks the position of the heading. */
  datatype Mention = Mention(number: Number, atStart: bool)

  datatype Clause = Clause(
    id: Id, document: Id, heading: Option<Heading>, terms: set<Id>, mentions: seq<Mention>, evidenceIds: seq<Id>)

  datatype RelationId =
    | ParentId(parent: Id, child: Id)
    | DefinesId(clause: Id, term: Id)
    | ReferenceId(source: Id, number: Number)

  datatype Kind = ParentOf | Defines | References

  datatype Relation = Relation(
    id: RelationId, kind: Kind, source: Id, target: Option<Id>, toClause: bool, resolved: bool, evidenceIds: seq<Id>)

  // ------------------------------------------------------------------ specifications

  predicate Bears(c: Clause, document: Id, number: Number)
  {
    c.document == document && c.heading.Some? && c.heading.value.number == number
  }

  /** The clauses of a document that bear a number, in order. */
  function Bearers(clauses: seq<Clause>, document: Id, number: Number): seq<Clause>
  {
    Collect((c: Clause) => Kept(Bears(c, document, number), c), clauses)
  }

  function ParentNumber(heading: Option<Heading>): Option<Number>
  {
    if heading.Some? && heading.value.plain && heading.value.number.Dotted? && |heading.value.number.parts| > 1 then
      Some(Dotted(heading.value.number.parts[..|heading.value.number.parts| - 1]))
    else None
  }

  /** The relation to the parent of a clause. */
  function ParentRelation(clauses: seq<Clause>, child: Clause): Option<Relation>
  {
    var number := ParentNumber(child.heading);
    if number.None? then None
    else
      var parents := Bearers(clauses, child.document, number.value);
      if |parents| != 1 || parents[0].id == child.id then None
      else
        var parent := parents[0];
        Some(Relation(ParentId(parent.id, child.id), ParentOf, parent.id, Some(child.id), true, true,
          Dedup(parent.evidenceIds + child.evidenceIds)))
  }

  function TermRelation(c: Clause, term: Id): Relation
  {
    Relation(DefinesId(c.id, term), Defines, c.id, None, false, true, c.evidenceIds)
  }

  /** The heading of a clause is not a reference to itself. */
  predicate IsOwnHeading(c: Clause, m: Mention)
  {
    m.atStart && c.heading.Some? && c.heading.value.number == m.number
  }

  /** The relation for a mentioned number; None for a reference to the clause itself. */
  function ReferenceRelation(clauses: seq<Clause>, c: Clause, number: Number): Option<Relation>
  {
    var bearers := Bearers(clauses, c.document, number);
    var target := if |bearers| == 1 then Some(bearers[0].id) else None;
    if target == Some(c.id) then None
    else Some(Relation(ReferenceId(c.id, number), References, c.id, target, true, target.Some?, c.evidenceIds))
  }

  /** The relations of the mentions below k, each number once. */
  function ReferencesOf(clauses: seq<Clause>, c: Clause, k: nat): (r: (seq<Relation>, set<Number>))
    requires k <= |c.mentions|
  {
    if k == 0 then ([], {})
    else
      var (relations, seen) := ReferencesOf(clauses, c, k - 1);
      var m := c.mentions[k - 1];
      if m.number in seen || IsOwnHeading(c, m) then (relations, seen)
      else
        var relation := ReferenceRelation(clauses, c, m.number);
        (if relation.Some? then relations + [relation.value] else relations, seen + {m.number})
  }

  // -------------------------------------------------------------------- the builders

  /** The first relation with every id. */
  function FirstOfEach(relations: seq<Relation>): seq<Relation>
  {
    if relations == [] then []
    else
      var front := FirstOfEach(relations[..|relations| - 1]);
      var last := relations[|relations| - 1];
      if exists r :: r in front && r.id == last.id then front else front + [last]
  }

  class RelationList {
    var relations: seq<Relation>
    var seenIds: set<RelationId>
    ghost var appended: seq<Relation>

    ghost predicate Valid()
      reads this
    {
      && relations == FirstOfEach(appended)
      && forall id :: id in seenIds <==> exists r :: r in relations && r.id == id
    }

    constructor ()
      ensures Valid() && appended == []
    {
      relations, seenIds, appended := [], {}, [];
    }

    /** _append_unique */
    method Append(relation: Relation)
      requires Valid()
      modifies this
      ensures Valid() && appended == old(appended) + [relation]
    {
      DropSnoc(appended, relation);
      appended := appended + [relation];
      if relation.id in seenIds { return; }
      seenIds := seenIds + {relation.id};
      relations := relations + [relation];
      assert relation in relations;
    }

    method BuildParents(clauses: seq<Clause>, index: map<(Id, Number), seq<Clause>>)
      requires Valid() && Indexes(index, clauses)
      modifies this
      ensures Valid() && appended == old(appended) + Parents(clauses)
    {
      ghost var f := (c: Clause) => ParentRelation(clauses, c);
      for i := 0 to |clauses|
        invariant Valid() && appended == old(appended) + Collect(f, clauses[..i])
      {
        var child := clauses[i];
        TakeStep(clauses, i);
        var number := ParentNumber(child.heading);
        if number.None? { continue; }
        var parents := Found(index, child.document, number.value);
        if |parents| != 1 || parents[0].id == child.id { continue; }
        var parent := parents[0];
        var relation := Relation(ParentId(parent.id, child.id), ParentOf, parent.id, Some(child.id), true, true,
          Dedup(parent.evidenceIds + child.evidenceIds));
        assert ParentRelation(clauses, child) == Some(relation);
        Append(relation);
      }
      TakeAll(clauses);
    }

    method AppendTerms(c: Clause)
      requires Valid()
      modifies this
      ensures Valid() && appended == old(appended) + TermRelations(c, SortedSet(c.terms))
    {
      hide SortedSet, TermRelation;
      var terms := SortSet(c.terms);
      for k := 0 to |terms|
        invariant Valid() && appended == old(appended) + TermRelations(c, terms[..k])
      {
        TermStep(c, terms, k);
        Append(TermRelation(c, terms[k]));
      }
      TakeAll(terms);
    }

    method BuildDefinitions(clauses: seq<Clause>)
      requires Valid()
      modifies this
      ensures Valid() && appended == old(appended) + Definitions(clauses, |clauses|)
    {
      hide SortedSet, TermRelations;
      for i := 0 to |clauses|
        invariant Valid() && appended == old(appended) + Definitions(clauses, i)
      {
        Joined(old(appended), Definitions(clauses, i), TermRelations(clauses[i], SortedSet(clauses[i].terms)));
        AppendTerms(clauses[i]);
      }
    }

    method AppendReferences(clauses: seq<Clause>, index: map<(Id, Number), seq<Clause>>, c: Clause)
      requires Valid() && Indexes(index, clauses)
      modifies this
      ensures Valid() && appended == old(appended) + ReferencesOf(clauses, c, |c.mentions|).0
    {
      hide Bearers;
      var seen: set<Number> := {};
      for k := 0 to |c.mentions|
        invariant Valid()
        invariant appended == old(appended) + ReferencesOf(clauses, c, k).0 && seen == ReferencesOf(clauses, c, k).1
      {
        var m := c.mentions[k];
        if m.number in seen || IsOwnHeading(c, m) { continue; }
        seen := seen + {m.number};
        var bearers := Found(index, c.document, m.number);
        var target := if |bearers| == 1 then Some(bearers[0].id) else None;
        if target == Some(c.id) { continue; }
        var relation := Relation(ReferenceId(c.id, m.number), References, c.id, target, true, target.Some?,
          c.evidenceIds);
        assert ReferenceRelation(clauses, c, m.number) == Some(relation);
        Joined(old(appended), ReferencesOf(clauses, c, k).0, [relation]);
        Append(relation);
      }
    }

    method BuildReferences(clauses: seq<Clause>, index: map<(Id, Number), seq<Clause>>)
      requires Valid() && Indexes(index, clauses)
      modifies this
      ensures Valid() && appended == old(appended) + AllReferences(clauses, |clauses|)
    {
      hide ReferencesOf;
      for i := 0 to |clauses|
        invariant Valid() && appended == old(appended) + AllReferences(clauses, i)
      {
        Joined(old(appended), AllReferences(clauses, i), ReferencesOf(clauses, clauses[i], |clauses[i].mentions|).0);
        AppendReferences(clauses, index, clauses[i]);
      }
    }
  }

  lemma Joined<T>(a: seq<T>, b: seq<T>, c: seq<T>)
    ensures a + (b + c) == a + b + c
  {
  }

  lemma TermStep(c: Clause, terms: seq<Id>, k: nat)
    requires k < |terms|
    ensures TermRelations(c, terms[..k + 1]) == TermRelations(c, terms[..k]) + [TermRelation(c, terms[k])]
  {
    TakeStep(terms, k);
    DropSnoc(terms[..k], terms[k]);
  }

  ghost function Parents(clauses: seq<Clause>): seq<Relation>
  {
    Collect((c: Clause) => ParentRelation(clauses, c), clauses)
  }

  function TermRelations(c: Clause, terms: seq<Id>): seq<Relation>
  {
    if terms == [] then [] else TermRelations(c, terms[..|terms| - 1]) + [TermRelation(c, terms[|terms| - 1])]
  }

  ghost function Definitions(clauses: seq<Clause>, n: nat): seq<Relation>
    requires n <= |clauses|
  {
    if n == 0 then [] else Definitions(clauses, n - 1) + TermRelations(clauses[n - 1], SortedSet(clauses[n - 1].terms))
  }

  function AllReferences(clauses: seq<Clause>, n: nat): seq<Relation>
    requires n <= |clauses|
  {
    if n == 0 then []
    else AllReferences(clauses, n - 1) + ReferencesOf(clauses, clauses[n - 1], |clauses[n - 1].mentions|).0
  }

  function Found(index: map<(Id, Number), seq<Clause>>, document: Id, number: Number): seq<Clause>
  {
    if (document, number) in index then index[(document, number)] else []
  }

  ghost predicate Indexes(index: map<(Id, Number), seq<Clause>>, clauses: seq<Clause>)
  {
    forall d, n :: Found(index, d, n) == Bearers(clauses, d, n)
  }

  lemma BearersStep(clauses: seq<Clause>, c: Clause, d: Id, n: Number)
    ensures Bearers(clauses + [c], d, n) == Bearers(clauses, d, n) + if Bears(c, d, n) then [c] else []
  {
    DropSnoc(clauses, c);
  }

  /** _clause_number_index */
  method IndexNumbers(clauses: seq<Clause>) returns (index: map<(Id, Number), seq<Clause>>)
    ensures Indexes(index, clauses)
  {
    index := map[];
    for i := 0 to |clauses|
      invariant forall d, n :: Found(index, d, n) == Bearers(clauses[..i], d, n)
    {
      var c := clauses[i];
      TakeStep(clauses, i);
      ghost var before, next := index, i + 1;
      if c.heading.Some? {
        var key := (c.document, c.heading.value.number);
        index := index[key := Found(index, key.0, key.1) + [c]];
      }
      forall d, n ensures Found(index, d, n) == Bearers(clauses[..next], d, n) {
        BearersStep(clauses[..i], c, d, n);
        assert Found(before, d, n) == Bearers(clauses[..i], d, n);
      }
    }
    TakeAll(clauses);
  }

  ghost function AllRelations(clauses: seq<Clause>): seq<Relation>
  {
    Parents(clauses) + Definitions(clauses, |clauses|) + AllReferences(clauses, |clauses|)
  }

  method BuildClauseRelations(clauses: seq<Clause>) returns (relations: seq<Relation>)
    ensures relations == FirstOfEach(AllRelations(clauses))
  {
    var list := new RelationList();
    var index := IndexNumbers(clauses);
    list.BuildParents(clauses, index);
    list.BuildDefinitions(clauses);
    list.BuildReferences(clauses, index);
    relations := list.relations;
    assert [] + Parents(clauses) == Parents(clauses);
  }
}
