/** What the clauses and relations of a contract are, said of chunks and headings themselves. */
module ClauseContents {
  import opened Collecting
  import opened Ordering
  import opened ClauseBuilding
  import opened ClauseBinding

  // --------------------------------------------------------------------------- chunks

  /** A chunk of contract document d with text. */
  predicate Belongs(d: Id, c: Chunk) { c.isContract && c.document == Some(d) && !c.blank }

  ghost predicate InReadingOrder(s: seq<Chunk>)
  {
    forall i, j :: 0 <= i < j < |s| ==>
      || s[i].page < s[j].page
      || (s[i].page == s[j].page && s[i].order < s[j].order)
      || (s[i].page == s[j].page && s[i].order == s[j].order && s[i].id <= s[j].id)
  }

  /** The chunks of a document come by page, position and id, each as often as it was given. */
  lemma DocumentChunksAre(chunks: seq<Chunk>, d: Id)
    ensures InReadingOrder(DocumentChunks(chunks, d))
    ensures forall c :: multiset(DocumentChunks(chunks, d))[c] == if Belongs(d, c) then multiset(chunks)[c] else 0
  {
    var f := (c: Chunk) => Kept(InDocument(d, c), c);
    var picked := Collect(f, chunks);
    assert DocumentChunks(chunks, d) == Sort(ChunkBefore, picked);
    SortOrdered(ChunkBefore, picked);
    forall c ensures multiset(picked)[c] == if Belongs(d, c) then multiset(chunks)[c] else 0 {
      FilterCounts(f, chunks, c);
    }
  }

  /** A chunk starts a group when it has a number, is a heading or a table, or follows one of
      an unnumbered group; every other chunk continues the group before it. */
  lemma GroupsAre(chunks: seq<Chunk>)
    ensures Flatten(Groups(chunks)) == chunks
    ensures forall i :: 0 <= i < |Groups(chunks)| ==> Groups(chunks)[i] != []
    ensures forall i, k :: 0 <= i < |Groups(chunks)| && 0 < k < |Groups(chunks)[i]| ==>
      Groups(chunks)[i][0].numbered && Continues(Groups(chunks)[i][k])
    ensures forall i, j :: 0 <= i && j == i + 1 < |Groups(chunks)| ==>
      !Groups(chunks)[i][0].numbered || !Continues(Groups(chunks)[j][0])
  {
    GroupsPartition(chunks);
    hide Groups;
    forall i | 0 <= i < |Groups(chunks)| ensures IsClause(Groups(chunks)[i]) { }
    forall i, j | 0 <= i && j == i + 1 < |Groups(chunks)| ensures Breaks(Groups(chunks)[i], Groups(chunks)[j][0]) { }
  }

  predicate Continues(c: Chunk) { !c.numbered && !c.heading && !c.table }

  // -------------------------------------------------------------------------- clauses

  /** Some chunk of the group cites this piece of evidence. */
  ghost predicate CitedIn(group: seq<Chunk>, e: Id) { exists i :: 0 <= i < |group| && e in group[i].evidenceIds }

  /** A group becomes a clause if and only if all evidence of its chunks is known and of its
      document.  It is a table when some evidence is a table cell, and otherwise numbered
      when its first chunk is. */
  lemma ClauseIs(evidence: map<Id, Evidence>, d: Id, group: seq<Chunk>, order: nat)
    requires group != []
    ensures ClauseFor(evidence, d, group, order).Some? <==>
      forall e :: CitedIn(group, e) ==> e in evidence && evidence[e].document == d
    ensures ClauseFor(evidence, d, group, order).Some? ==>
      var clause := ClauseFor(evidence, d, group, order).value;
      && clause.document == d && clause.order == order && clause.id == ClauseId(d, clause.chunkIds)
      && |clause.chunkIds| == |group| && (forall i :: 0 <= i < |group| ==> clause.chunkIds[i] == group[i].id)
      && Distinct(clause.evidenceIds) && (forall e :: e in clause.evidenceIds <==> CitedIn(group, e))
      && (clause.kind == TableClause <==> exists e :: CitedIn(group, e) && e in evidence && evidence[e].tableCell)
      && (clause.kind == NumberedClause <==> clause.kind != TableClause && group[0].numbered)
  {
    CitedMembers(group);
    var ids := Flatten(Map(EvidenceIdsOf, group));
    assert forall e :: e in ids <==> CitedIn(group, e);
    DedupDistinct(ids);
    hide Flatten, CitedIn;
  }

  /** The clause is what the chunks of its document make of group number `order`. */
  ghost predicate Made(evidence: map<Id, Evidence>, chunks: seq<Chunk>, clause: Clause)
  {
    && clause.order < |Groups(DocumentChunks(chunks, clause.document))|
    && ClauseFor(evidence, clause.document, Groups(DocumentChunks(chunks, clause.document))[clause.order],
         clause.order) == Some(clause)
  }

  /** There is a clause number k of document d. */
  ghost predicate Numbered(clauses: seq<Clause>, d: Id, k: nat)
  {
    exists i :: 0 <= i < |clauses| && clauses[i].document == d && clauses[i].order == k
  }

  ghost predicate InDocumentOrder(clauses: seq<Clause>)
  {
    forall i, j :: 0 <= i < j < |clauses| ==>
      || clauses[i].document < clauses[j].document
      || (clauses[i].document == clauses[j].document && clauses[i].order < clauses[j].order)
  }

  lemma OneInOrder(evidence: map<Id, Evidence>, chunks: seq<Chunk>, d: Id)
    requires ClausesOf(evidence, chunks, d).Some?
    ensures var clauses := ClausesOf(evidence, chunks, d).value;
      forall i :: 0 <= i < |clauses| ==> clauses[i].document == d && clauses[i].order == i
  {
    var groups := Groups(DocumentChunks(chunks, d));
    DocumentClauseAt(evidence, d, groups, |groups|);
    hide Groups, DocumentChunks, ClauseFor;
    var clauses := ClausesOf(evidence, chunks, d).value;
    forall i | 0 <= i < |clauses| ensures clauses[i].document == d && clauses[i].order == i {
      assert ClauseFor(evidence, d, groups[i], i) == Some(clauses[i]);
      ClauseForFacts(evidence, d, groups[i], i);
    }
  }

  lemma {:induction false} AllInOrder(evidence: map<Id, Evidence>, chunks: seq<Chunk>, docs: seq<Id>)
    requires AllClauses(evidence, chunks, docs).Some?
    requires forall i, j :: 0 <= i < j < |docs| ==> docs[i] < docs[j]
    ensures InDocumentOrder(AllClauses(evidence, chunks, docs).value)
    ensures forall i :: 0 <= i < |AllClauses(evidence, chunks, docs).value| ==>
      AllClauses(evidence, chunks, docs).value[i].document in docs
  {
    hide ClausesOf;
    if docs != [] {
      var front, d := docs[..|docs| - 1], docs[|docs| - 1];
      AllInOrder(evidence, chunks, front);
      OneInOrder(evidence, chunks, d);
      assert forall x :: x in front ==> x in docs && x < d;
    }
  }

  /** The clauses of a contract come by document and number; each is made of its group, and
      every group of every document has its clause. */
  lemma ClausesAre(evidence: map<Id, Evidence>, chunks: seq<Chunk>)
    requires BuildClauses(evidence, chunks).Some?
    ensures var clauses := BuildClauses(evidence, chunks).value;
      && InDocumentOrder(clauses)
      && (forall i :: 0 <= i < |clauses| ==> Made(evidence, chunks, clauses[i]))
      && (forall d, k: nat :: k < |Groups(DocumentChunks(chunks, d))| ==> Numbered(clauses, d, k))
  {
    hide Groups, DocumentChunks, ClauseFor;
    var docs := SortedSet(Documents(chunks));
    SortedSetDistinct(Documents(chunks));
    SortedSetMembers(Documents(chunks));
    DocumentsRise(Documents(chunks));
    AllInOrder(evidence, chunks, docs);
    AllFromDocuments(evidence, chunks, docs);
    var clauses := BuildClauses(evidence, chunks).value;
    forall i | 0 <= i < |clauses| ensures Made(evidence, chunks, clauses[i]) {
      assert IsClauseOf(evidence, chunks, clauses[i].document, clauses[i]);
    }
    forall d, k: nat | k < |Groups(DocumentChunks(chunks, d))| ensures Numbered(clauses, d, k) {
      var group := Groups(DocumentChunks(chunks, d))[k];
      ChunkInGroup(chunks, d, k, group[0]);
      DocumentsListed(chunks, group[0]);
      assert HasClause(clauses, d, k);
    }
  }

  lemma DocumentsRise(s: set<Id>)
    ensures forall i, j :: 0 <= i < j < |SortedSet(s)| ==> SortedSet(s)[i] < SortedSet(s)[j]
  {
    SortedSetDistinct(s);
    SortSorted((x: Id, y: Id) => x <= y, Enumerate(s));
    assert SortedBy((x: Id, y: Id) => x <= y, SortedSet(s));
  }

  /** Binding writes to every chunk the one clause that lists it, or none. */
  lemma BoundChunks(clauses: seq<Clause>, table: map<Id, ClauseId>, chunks: seq<Chunk>)
    requires IndexOf(clauses, table)
    ensures var bound := Map((c: Chunk) => BindChunk(table, c), chunks);
      |bound| == |chunks| && forall k :: 0 <= k < |chunks| ==>
        && bound[k] == chunks[k].(clauseIds := bound[k].clauseIds)
        && (bound[k].clauseIds == [] <==> !exists i :: 0 <= i < |clauses| && chunks[k].id in clauses[i].chunkIds)
        && (bound[k].clauseIds != [] ==> |bound[k].clauseIds| == 1)
        && forall i :: 0 <= i < |clauses| && chunks[k].id in clauses[i].chunkIds ==>
             bound[k].clauseIds == [clauses[i].id]
  {
    forall k | 0 <= k < |chunks|
      ensures chunks[k].id in table <==> exists i :: 0 <= i < |clauses| && chunks[k].id in clauses[i].chunkIds
      ensures forall i :: 0 <= i < |clauses| && chunks[k].id in clauses[i].chunkIds ==>
        chunks[k].id in table && table[chunks[k].id] == clauses[i].id
    {
      var x := chunks[k].id;
      if x in table { assert Claims(clauses, |clauses|, x, table[x]); }
      forall i | 0 <= i < |clauses| && x in clauses[i].chunkIds ensures x in table && table[x] == clauses[i].id {
        assert Claims(clauses, |clauses|, x, clauses[i].id);
      }
    }
  }
}
