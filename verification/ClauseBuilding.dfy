/**
 Clauses from chunks: the chunks of a document are sorted and grouped into clauses, each
 clause keeps its chunks and their evidence, and the clause is written back to the chunks.
 */
module ClauseBuilding {
  import opened Collecting
  import opened Ordering

  /** A chunk; `document` is missing for chunks of no contract document. */
  datatype Chunk = Chunk(
    id: Id, isContract: bool, document: Option<Id>, page: int, order: int, blank: bool,
    numbered: bool, heading: bool, table: bool, evidenceIds: seq<Id>, clauseIds: seq<ClauseId>)

  /** The stable id of a clause: its document and its chunks. */
  datatype ClauseId = ClauseId(document: Id, chunkIds: seq<Id>)

  datatype ClauseKind = TableClause | NumberedClause | UnnumberedClause

  datatype Clause = Clause(
    id: ClauseId, document: Id, kind: ClauseKind, order: nat, chunkIds: seq<Id>, evidenceIds: seq<Id>)

  datatype Evidence = Evidence(document: Id, tableCell: bool)

  // ---------------------------------------------------------------------- grouping

  predicate Starts(c: Chunk) { c.numbered || c.heading }

  /** A chunk that cannot continue the clause of the chunk before it. */
  predicate Breaks(group: seq<Chunk>, c: Chunk)
    requires group != []
  {
    Starts(c) || c.table || !group[0].numbered
  }

  /** The groups of a sorted document; every group is nonempty. */
  function Groups(chunks: seq<Chunk>): (groups: seq<seq<Chunk>>)
    ensures forall i :: 0 <= i < |groups| ==> groups[i] != []
    ensures chunks != [] ==> groups != []
  {
    if chunks == [] then []
    else
      var before, c := Groups(chunks[..|chunks| - 1]), chunks[|chunks| - 1];
      if before == [] then [[c]]
      else
        var last := before[|before| - 1];
        if Breaks(last, c) then before + [[c]] else before[..|before| - 1] + [last + [c]]
  }

  method GroupChunks(chunks: seq<Chunk>) returns (groups: seq<seq<Chunk>>)
    ensures groups == Groups(chunks)
  {
    groups := [];
    var current: seq<Chunk> := [];
    var currentIsNumbered := false;
    for i := 0 to |chunks|
      invariant i == 0 ==> current == [] && groups == []
      invariant i > 0 ==> current != [] && currentIsNumbered == current[0].numbered
      invariant i > 0 ==> Groups(chunks[..i]) == groups + [current]
    {
      var chunk := chunks[i];
      TakeStep(chunks, i);
      if current == [] {
        current := [chunk];
        currentIsNumbered := chunk.numbered;
      } else if Starts(chunk) || chunk.table || !currentIsNumbered {
        groups := groups + [current];
        current := [chunk];
        currentIsNumbered := chunk.numbered;
      } else {
        assert (groups + [current])[..|groups|] == groups;
        current := current + [chunk];
      }
    }
    TakeAll(chunks);
    if current != [] { groups := groups + [current]; }
  }

  /** Only the head of a clause may open one or be a table cell, and only a numbered
      clause is continued. */
  ghost predicate IsClause(group: seq<Chunk>)
  {
    && group != []
    && (forall i :: 0 < i < |group| ==> !Starts(group[i]) && !group[i].table)
    && (|group| > 1 ==> group[0].numbered)
  }

  /** Every clause ends only where the next chunk could not continue it. */
  ghost predicate IsGrouping(groups: seq<seq<Chunk>>)
  {
    && (forall i :: 0 <= i < |groups| ==> IsClause(groups[i]))
    && (forall i, j :: 0 <= i && j == i + 1 < |groups| ==> Breaks(groups[i], groups[j][0]))
  }

  lemma GroupingFront(groups: seq<seq<Chunk>>)
    requires IsGrouping(groups) && groups != []
    ensures IsGrouping(groups[..|groups| - 1])
  {
  }

  lemma GroupingLonger(groups: seq<seq<Chunk>>, c: Chunk)
    requires IsGrouping(groups) && groups != [] && !Breaks(groups[|groups| - 1], c)
    ensures IsGrouping(groups[..|groups| - 1] + [groups[|groups| - 1] + [c]])
  {
    var n := |groups| - 1;
    var last := groups[n];
    var longer := last + [c];
    assert IsClause(last);
    assert longer[0] == last[0];
    assert IsClause(longer);
  }

  lemma GroupingNew(groups: seq<seq<Chunk>>, c: Chunk)
    requires IsGrouping(groups) && (groups != [] ==> groups[|groups| - 1] != [] && Breaks(groups[|groups| - 1], c))
    ensures IsGrouping(groups + [[c]])
  {
    assert IsClause([c]);
  }

  lemma Associative<T>(a: seq<T>, b: seq<T>, c: seq<T>)
    ensures a + (b + c) == a + b + c
  {
  }

  lemma FlattenLonger(groups: seq<seq<Chunk>>, c: Chunk)
    requires groups != []
    ensures Flatten(groups[..|groups| - 1] + [groups[|groups| - 1] + [c]]) == Flatten(groups) + [c]
  {
    hide Flatten;
    var n := |groups| - 1;
    FlattenSnoc(groups[..n], groups[n]);
    FlattenSnoc(groups[..n], groups[n] + [c]);
    SnocParts(groups);
    Associative(Flatten(groups[..n]), groups[n], [c]);
  }

  /** The groups are a partition of the sorted chunks into maximal clauses. */
  lemma {:induction false} GroupsPartition(chunks: seq<Chunk>)
    ensures Flatten(Groups(chunks)) == chunks && IsGrouping(Groups(chunks))
  {
    if chunks != [] {
      var front, c := chunks[..|chunks| - 1], chunks[|chunks| - 1];
      GroupsPartition(front);
      var before := Groups(front);
      SnocParts(chunks);
      if before == [] || Breaks(before[|before| - 1], c) {
        FlattenSnoc(before, [c]);
        GroupingNew(before, c);
      } else {
        FlattenLonger(before, c);
        GroupingLonger(before, c);
      }
    }
  }

  lemma GroupsSnoc(chunks: seq<Chunk>, c: Chunk)
    ensures var before := Groups(chunks);
      Groups(chunks + [c]) ==
        if before == [] || Breaks(before[|before| - 1], c) then before + [[c]]
        else before[..|before| - 1] + [before[|before| - 1] + [c]]
  {
    DropSnoc(chunks, c);
  }

  /** There is only one such partition. */
  lemma {:induction false} GroupingIsUnique(groups: seq<seq<Chunk>>)
    requires IsGrouping(groups)
    ensures Groups(Flatten(groups)) == groups
    decreases |Flatten(groups)|
  {
    if groups != [] {
      var n := |groups| - 1;
      var front, last := groups[..n], groups[n];
      assert IsClause(last);
      var shorter, c := last[..|last| - 1], last[|last| - 1];
      SnocParts(groups);
      SnocParts(last);
      FlattenSnoc(front, last);
      if |last| == 1 {
        GroupingFront(groups);
        GroupingIsUnique(front);
        LastAlone(groups, c);
      } else {
        FlattenSnoc(front, shorter);
        Associative(Flatten(front), shorter, [c]);
        ShorterGrouping(groups);
        GroupingIsUnique(front + [shorter]);
        LastContinued(front, shorter, c, last);
      }
    }
  }

  lemma LastAlone(groups: seq<seq<Chunk>>, c: Chunk)
    requires IsGrouping(groups) && groups != [] && groups[|groups| - 1] == [c]
    requires Groups(Flatten(groups[..|groups| - 1])) == groups[..|groups| - 1]
    ensures Groups(Flatten(groups[..|groups| - 1]) + [c]) == groups
  {
    hide Groups, Flatten;
    var n := |groups| - 1;
    GroupsSnoc(Flatten(groups[..n]), c);
    SnocParts(groups);
    assert n > 0 ==> Breaks(groups[n - 1], groups[n][0]);
  }

  lemma LastContinued(front: seq<seq<Chunk>>, shorter: seq<Chunk>, c: Chunk, last: seq<Chunk>)
    requires IsClause(last) && last == shorter + [c] && shorter != []
    requires Groups(Flatten(front + [shorter])) == front + [shorter]
    ensures Groups(Flatten(front + [shorter]) + [c]) == front + [last]
  {
    hide Groups, Flatten;
    GroupsSnoc(Flatten(front + [shorter]), c);
    DropSnoc(front, shorter);
    assert last[|shorter|] == c && last[0] == shorter[0];
    assert !Breaks(shorter, c);
  }

  lemma ShorterGrouping(groups: seq<seq<Chunk>>)
    requires IsGrouping(groups) && groups != [] && |groups[|groups| - 1]| > 1
    ensures var n := |groups| - 1;
      IsGrouping(groups[..n] + [groups[n][..|groups[n]| - 1]])
  {
    var n := |groups| - 1;
    var last := groups[n];
    var shorter := last[..|last| - 1];
    assert IsClause(last);
    assert shorter[0] == last[0];
    assert IsClause(shorter);
    var r := groups[..n] + [shorter];
    forall i, j | 0 <= i && j == i + 1 < |r| ensures Breaks(r[i], r[j][0]) {
      assert Breaks(groups[i], groups[j][0]);
    }
  }

  // ------------------------------------------------------------------ one document

  predicate Eligible(c: Chunk) { c.isContract && c.document.Some? && !c.blank }

  predicate InDocument(d: Id, c: Chunk) { Eligible(c) && c.document == Some(d) }

  /** Page, then position on the page, then id. */
  predicate ChunkBefore(a: Chunk, b: Chunk)
  {
    a.page < b.page || (a.page == b.page && (a.order < b.order || (a.order == b.order && a.id <= b.id)))
  }

  function DocumentChunks(chunks: seq<Chunk>, d: Id): seq<Chunk>
  {
    Sort(ChunkBefore, Collect((c: Chunk) => Kept(InDocument(d, c), c), chunks))
  }

  function IdOf(c: Chunk): Id { c.id }

  function EvidenceIdsOf(c: Chunk): seq<Id> { c.evidenceIds }

  predicate Backed(evidence: map<Id, Evidence>, d: Id, e: Id) { e in evidence && evidence[e].document == d }

  predicate AllBacked(evidence: map<Id, Evidence>, d: Id, ids: seq<Id>)
  {
    forall e :: e in ids ==> Backed(evidence, d, e)
  }

  /** A clause, or nothing when a chunk's evidence is missing or of another document. */
  function ClauseFor(evidence: map<Id, Evidence>, d: Id, group: seq<Chunk>, order: nat): Option<Clause>
    requires group != []
  {
    var ids := Flatten(Map(EvidenceIdsOf, group));
    if !AllBacked(evidence, d, ids) then None
    else
      var chunkIds := Map(IdOf, group);
      var kind := if exists e :: e in ids && evidence[e].tableCell then TableClause
        else if group[0].numbered then NumberedClause else UnnumberedClause;
      Some(Clause(ClauseId(d, chunkIds), d, kind, order, chunkIds, Dedup(ids)))
  }

  function DocumentClauses(evidence: map<Id, Evidence>, d: Id, groups: seq<seq<Chunk>>, n: nat): Option<seq<Clause>>
    requires n <= |groups| && forall i :: 0 <= i < |groups| ==> groups[i] != []
  {
    if n == 0 then Some([])
    else
      var before := DocumentClauses(evidence, d, groups, n - 1);
      var clause := ClauseFor(evidence, d, groups[n - 1], n - 1);
      if before.Some? && clause.Some? then Some(before.value + [clause.value]) else None
  }

  function ClausesOf(evidence: map<Id, Evidence>, chunks: seq<Chunk>, d: Id): Option<seq<Clause>>
  {
    var groups := Groups(DocumentChunks(chunks, d));
    DocumentClauses(evidence, d, groups, |groups|)
  }

  function AllClauses(evidence: map<Id, Evidence>, chunks: seq<Chunk>, docs: seq<Id>): Option<seq<Clause>>
  {
    if docs == [] then Some([])
    else
      var before := AllClauses(evidence, chunks, docs[..|docs| - 1]);
      var last := ClausesOf(evidence, chunks, docs[|docs| - 1]);
      if before.Some? && last.Some? then Some(before.value + last.value) else None
  }

  function Documents(chunks: seq<Chunk>): set<Id> { set c | c in chunks && Eligible(c) :: c.document.value }

  ghost function BuildClauses(evidence: map<Id, Evidence>, chunks: seq<Chunk>): Option<seq<Clause>>
  {
    AllClauses(evidence, chunks, SortedSet(Documents(chunks)))
  }

  // --------------------------------------------------------------------- the loops

  method BindEvidence(evidence: map<Id, Evidence>, d: Id, group: seq<Chunk>, order: nat)
    returns (clause: Option<Clause>)
    requires group != []
    ensures clause == ClauseFor(evidence, d, group, order)
  {
    var chunkIds: seq<Id>, ids: seq<Id> := [], [];
    var table := false;
    ghost var cited: seq<Id> := [];
    for i := 0 to |group|
      invariant chunkIds == Map(IdOf, group[..i])
      invariant cited == Flatten(Map(EvidenceIdsOf, group[..i]))
      invariant AllBacked(evidence, d, cited) && ids == Dedup(cited)
      invariant table <==> exists e :: e in cited && evidence[e].tableCell
    {
      var chunk := group[i];
      CitedStep(group, i);
      var bad := false;
      ghost var before := cited;
      for k := 0 to |chunk.evidenceIds|
        invariant !bad && cited == before + chunk.evidenceIds[..k]
        invariant AllBacked(evidence, d, cited) && ids == Dedup(cited)
        invariant table <==> exists e :: e in cited && evidence[e].tableCell
      {
        var e := chunk.evidenceIds[k];
        if !(e in evidence && evidence[e].document == d) {
          Unbacked(evidence, d, group, i, e);
          return None;
        }
        TakeStep(chunk.evidenceIds, k);
        DedupStep(cited, e);
        CitedOne(evidence, d, cited, e);
        if e !in ids { ids := ids + [e]; }
        table := table || evidence[e].tableCell;
        Associative(before, chunk.evidenceIds[..k], [e]);
        cited := cited + [e];
      }
      TakeAll(chunk.evidenceIds);
      chunkIds := chunkIds + [chunk.id];
    }
    TakeAll(group);
    var kind := if table then TableClause else if group[0].numbered then NumberedClause else UnnumberedClause;
    clause := Some(Clause(ClauseId(d, chunkIds), d, kind, order, chunkIds, ids));
  }

  lemma CitedStep(group: seq<Chunk>, i: nat)
    requires i < |group|
    ensures Flatten(Map(EvidenceIdsOf, group[..i + 1])) ==
      Flatten(Map(EvidenceIdsOf, group[..i])) + group[i].evidenceIds
    ensures Map(IdOf, group[..i + 1]) == Map(IdOf, group[..i]) + [group[i].id]
  {
    TakeStep(group, i);
    FlattenSnoc(Map(EvidenceIdsOf, group[..i]), group[i].evidenceIds);
  }

  lemma CitedOne(evidence: map<Id, Evidence>, d: Id, cited: seq<Id>, e: Id)
    requires AllBacked(evidence, d, cited) && Backed(evidence, d, e)
    ensures AllBacked(evidence, d, cited + [e])
    ensures (exists x :: x in cited + [e] && evidence[x].tableCell) <==>
      (exists x :: x in cited && evidence[x].tableCell) || evidence[e].tableCell
  {
    assert e in cited + [e];
    if x :| x in cited && evidence[x].tableCell { assert x in cited + [e]; }
  }

  lemma CitedMembers(group: seq<Chunk>)
    ensures forall e :: e in Flatten(Map(EvidenceIdsOf, group)) <==>
      exists i :: 0 <= i < |group| && e in group[i].evidenceIds
  {
    hide *;
    var parts := Map(EvidenceIdsOf, group);
    FlattenMembers(parts);
    CitedParts(group, parts, Flatten(parts));
  }

  lemma CitedParts(group: seq<Chunk>, parts: seq<seq<Id>>, cited: seq<Id>)
    requires |parts| == |group| && forall i :: 0 <= i < |group| ==> parts[i] == EvidenceIdsOf(group[i])
    requires forall e :: e in cited <==> exists i :: 0 <= i < |parts| && e in parts[i]
    ensures forall e :: e in cited <==> exists i :: 0 <= i < |group| && e in group[i].evidenceIds
  {
    forall e ensures e in cited <==> exists i :: 0 <= i < |group| && e in group[i].evidenceIds {
      if i :| 0 <= i < |parts| && e in parts[i] { assert e in group[i].evidenceIds; }
      if i :| 0 <= i < |group| && e in group[i].evidenceIds { assert e in parts[i]; }
    }
  }

  lemma Unbacked(evidence: map<Id, Evidence>, d: Id, group: seq<Chunk>, i: nat, e: Id)
    requires i < |group| && e in group[i].evidenceIds && !Backed(evidence, d, e)
    ensures !AllBacked(evidence, d, Flatten(Map(EvidenceIdsOf, group)))
  {
    CitedMembers(group);
    assert e in Flatten(Map(EvidenceIdsOf, group));
  }

  method BuildDocument(evidence: map<Id, Evidence>, d: Id, groups: seq<seq<Chunk>>)
    returns (clauses: Option<seq<Clause>>)
    requires forall i :: 0 <= i < |groups| ==> groups[i] != []
    ensures clauses == DocumentClauses(evidence, d, groups, |groups|)
  {
    var done: seq<Clause> := [];
    for order := 0 to |groups|
      invariant DocumentClauses(evidence, d, groups, order) == Some(done)
    {
      var clause := BindEvidence(evidence, d, groups[order], order);
      if clause.None? {
        NoMoreClauses(evidence, d, groups, order);
        return None;
      }
      done := done + [clause.value];
    }
    clauses := Some(done);
  }

  lemma {:induction false} StaysNone(evidence: map<Id, Evidence>, d: Id, groups: seq<seq<Chunk>>, m: nat, n: nat)
    requires m <= n <= |groups| && forall i :: 0 <= i < |groups| ==> groups[i] != []
    requires DocumentClauses(evidence, d, groups, m).None?
    ensures DocumentClauses(evidence, d, groups, n).None?
  {
    hide ClauseFor;
    if m < n { StaysNone(evidence, d, groups, m, n - 1); }
  }

  lemma NoMoreClauses(evidence: map<Id, Evidence>, d: Id, groups: seq<seq<Chunk>>, order: nat)
    requires order < |groups| && forall i :: 0 <= i < |groups| ==> groups[i] != []
    requires ClauseFor(evidence, d, groups[order], order).None?
    ensures DocumentClauses(evidence, d, groups, |groups|).None?
  {
    StaysNone(evidence, d, groups, order + 1, |groups|);
  }

  /** build_contract_clauses: nothing at all when one clause cannot be bound. */
  method BuildContractClauses(evidence: map<Id, Evidence>, chunks: seq<Chunk>) returns (clauses: Option<seq<Clause>>)
    ensures clauses == BuildClauses(evidence, chunks)
  {
    hide Groups, Documents, SortedSet, DocumentChunks, DocumentClauses;
    var docs := SortSet(Documents(chunks));
    var done: seq<Clause> := [];
    for i := 0 to |docs|
      invariant AllClauses(evidence, chunks, docs[..i]) == Some(done)
    {
      var d := docs[i];
      TakeStep(docs, i);
      var groups := GroupChunks(DocumentChunks(chunks, d));
      var more := BuildDocument(evidence, d, groups);
      if more.None? {
        NoMoreDocuments(evidence, chunks, docs, i);
        return None;
      }
      done := done + more.value;
    }
    TakeAll(docs);
    clauses := Some(done);
  }

  lemma {:induction false} NoMoreDocuments(evidence: map<Id, Evidence>, chunks: seq<Chunk>, docs: seq<Id>, i: nat)
    requires i < |docs| && ClausesOf(evidence, chunks, docs[i]).None?
    ensures AllClauses(evidence, chunks, docs).None?
  {
    if i < |docs| - 1 { NoMoreDocuments(evidence, chunks, docs[..|docs| - 1], i); }
  }
}
