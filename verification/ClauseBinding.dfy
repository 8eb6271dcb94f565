/**
 What built clauses guarantee: every eligible chunk lies in exactly one of them, so writing
 clause ids back to the chunks cannot fail and agrees with the audit.
 */
module ClauseBinding {
  import opened Collecting
  import opened Ordering
  import opened ClauseBuilding

  // ------------------------------------------------------------- where clauses come from

  /** The clause is number `order` of document d. */
  ghost predicate IsClauseOf(evidence: map<Id, Evidence>, chunks: seq<Chunk>, d: Id, clause: Clause)
  {
    var groups := Groups(DocumentChunks(chunks, d));
    && clause.order < |groups|
    && ClauseFor(evidence, d, groups[clause.order], clause.order) == Some(clause)
  }

  lemma {:induction false} DocumentClauseAt(evidence: map<Id, Evidence>, d: Id, groups: seq<seq<Chunk>>, n: nat)
    requires n <= |groups| && forall i :: 0 <= i < |groups| ==> groups[i] != []
    requires DocumentClauses(evidence, d, groups, n).Some?
    ensures var clauses := DocumentClauses(evidence, d, groups, n).value;
      |clauses| == n && forall i :: 0 <= i < n ==> ClauseFor(evidence, d, groups[i], i) == Some(clauses[i])
  {
    hide ClauseFor;
    if n > 0 { DocumentClauseAt(evidence, d, groups, n - 1); }
  }

  lemma ClauseForSomeIff(evidence: map<Id, Evidence>, d: Id, group: seq<Chunk>, order: nat)
    requires group != []
    ensures ClauseFor(evidence, d, group, order).Some? <==> AllBacked(evidence, d, Flatten(Map(EvidenceIdsOf, group)))
  {
  }

  lemma {:induction false} DocumentSomeIff(evidence: map<Id, Evidence>, d: Id, groups: seq<seq<Chunk>>, n: nat)
    requires n <= |groups| && forall i :: 0 <= i < |groups| ==> groups[i] != []
    ensures DocumentClauses(evidence, d, groups, n).Some? <==>
      forall i :: 0 <= i < n ==> AllBacked(evidence, d, Flatten(Map(EvidenceIdsOf, groups[i])))
  {
    hide ClauseFor, AllBacked, Flatten;
    if n > 0 {
      DocumentSomeIff(evidence, d, groups, n - 1);
      ClauseForSomeIff(evidence, d, groups[n - 1], n - 1);
    }
  }

  ghost predicate FromDocuments(evidence: map<Id, Evidence>, chunks: seq<Chunk>, docs: seq<Id>, clauses: seq<Clause>)
  {
    && (forall i :: 0 <= i < |clauses| ==>
          clauses[i].document in docs && IsClauseOf(evidence, chunks, clauses[i].document, clauses[i]))
    && (forall i, j :: 0 <= i < j < |clauses| ==>
          clauses[i].document != clauses[j].document || clauses[i].order != clauses[j].order)
    && (forall d, k :: d in docs && 0 <= k < |Groups(DocumentChunks(chunks, d))| ==> HasClause(clauses, d, k))
  }

  predicate HasClause(clauses: seq<Clause>, d: Id, k: int)
  {
    exists i :: 0 <= i < |clauses| && clauses[i].document == d && clauses[i].order == k
  }

  lemma ClauseForFacts(evidence: map<Id, Evidence>, d: Id, group: seq<Chunk>, order: nat)
    requires group != [] && ClauseFor(evidence, d, group, order).Some?
    ensures ClauseFor(evidence, d, group, order).value.document == d
    ensures ClauseFor(evidence, d, group, order).value.order == order
  {
  }

  lemma OneDocument(evidence: map<Id, Evidence>, chunks: seq<Chunk>, d: Id, clauses: seq<Clause>)
    requires ClausesOf(evidence, chunks, d) == Some(clauses)
    ensures FromDocuments(evidence, chunks, [d], clauses)
  {
    var groups := Groups(DocumentChunks(chunks, d));
    DocumentClauseAt(evidence, d, groups, |groups|);
    hide Groups, DocumentChunks, ClauseFor;
    forall i | 0 <= i < |clauses|
      ensures clauses[i].document == d && clauses[i].order == i && IsClauseOf(evidence, chunks, d, clauses[i])
    {
      assert ClauseFor(evidence, d, groups[i], i) == Some(clauses[i]);
      ClauseForFacts(evidence, d, groups[i], i);
    }
    forall k | 0 <= k < |groups| ensures HasClause(clauses, d, k) {
      assert clauses[k].document == d && clauses[k].order == k;
    }
  }

  lemma MoreDocuments(evidence: map<Id, Evidence>, chunks: seq<Chunk>, docs: seq<Id>, d: Id, a: seq<Clause>,
                      b: seq<Clause>)
    requires FromDocuments(evidence, chunks, docs, a) && FromDocuments(evidence, chunks, [d], b) && d !in docs
    ensures FromDocuments(evidence, chunks, docs + [d], a + b)
  {
    hide Groups, DocumentChunks, IsClauseOf;
    var all := a + b;
    forall i, j | 0 <= i < j < |all| ensures all[i].document != all[j].document || all[i].order != all[j].order {
      if i < |a| <= j { assert all[j] == b[j - |a|]; }
    }
    forall e, k | e in docs + [d] && 0 <= k < |Groups(DocumentChunks(chunks, e))| ensures HasClause(all, e, k) {
      if e in docs {
        assert HasClause(a, e, k);
        var i :| 0 <= i < |a| && a[i].document == e && a[i].order == k;
        assert all[i] == a[i];
      } else {
        assert HasClause(b, e, k);
        var i :| 0 <= i < |b| && b[i].document == e && b[i].order == k;
        assert all[|a| + i] == b[i];
      }
    }
  }

  lemma {:induction false} AllFromDocuments(evidence: map<Id, Evidence>, chunks: seq<Chunk>, docs: seq<Id>)
    requires Distinct(docs) && AllClauses(evidence, chunks, docs).Some?
    ensures FromDocuments(evidence, chunks, docs, AllClauses(evidence, chunks, docs).value)
  {
    if docs != [] {
      var front, d := docs[..|docs| - 1], docs[|docs| - 1];
      hide ClausesOf, FromDocuments;
      AllFromDocuments(evidence, chunks, front);
      OneDocument(evidence, chunks, d, ClausesOf(evidence, chunks, d).value);
      SnocParts(docs);
      MoreDocuments(evidence, chunks, front, d, AllClauses(evidence, chunks, front).value,
        ClausesOf(evidence, chunks, d).value);
    } else {
      NoDocuments(evidence, chunks);
    }
  }

  lemma NoDocuments(evidence: map<Id, Evidence>, chunks: seq<Chunk>)
    ensures FromDocuments(evidence, chunks, [], [])
  {
  }

  // ---------------------------------------------------------------- chunks and clauses

  lemma DocumentChunksMembers(chunks: seq<Chunk>, d: Id)
    ensures forall c :: c in DocumentChunks(chunks, d) <==> c in chunks && InDocument(d, c)
  {
    var f := (c: Chunk) => Kept(InDocument(d, c), c);
    CollectMembers(f, chunks);
    var picked := Collect((c: Chunk) => Kept(InDocument(d, c), c), chunks);
    MultisetMembers(DocumentChunks(chunks, d), picked);
  }

  lemma DocumentChunksDistinct(chunks: seq<Chunk>, d: Id)
    requires Distinct(chunks)
    ensures Distinct(DocumentChunks(chunks, d))
  {
    var f := (c: Chunk) => Kept(InDocument(d, c), c);
    FilterDistinct(f, chunks);
    var picked := Collect(f, chunks);
    MultisetDistinct(picked, DocumentChunks(chunks, d));
  }

  /** Every chunk of a document lies in exactly one of its groups. */
  lemma GroupOfChunk(chunks: seq<Chunk>, d: Id, c: Chunk) returns (k: nat)
    requires c in chunks && InDocument(d, c)
    ensures k < |Groups(DocumentChunks(chunks, d))| && c in Groups(DocumentChunks(chunks, d))[k]
  {
    var sorted := DocumentChunks(chunks, d);
    DocumentChunksMembers(chunks, d);
    GroupsPartition(sorted);
    FlattenMembers(Groups(sorted));
    k :| 0 <= k < |Groups(sorted)| && c in Groups(sorted)[k];
  }

  lemma ChunkInGroup(chunks: seq<Chunk>, d: Id, k: nat, c: Chunk)
    requires k < |Groups(DocumentChunks(chunks, d))| && c in Groups(DocumentChunks(chunks, d))[k]
    ensures c in chunks && InDocument(d, c)
  {
    var sorted := DocumentChunks(chunks, d);
    DocumentChunksMembers(chunks, d);
    GroupsPartition(sorted);
    FlattenMembers(Groups(sorted));
    assert c in Flatten(Groups(sorted));
  }

  lemma OneGroup(chunks: seq<Chunk>, d: Id, i: nat, j: nat, c: Chunk)
    requires Distinct(chunks)
    requires i < |Groups(DocumentChunks(chunks, d))| && j < |Groups(DocumentChunks(chunks, d))|
    requires c in Groups(DocumentChunks(chunks, d))[i] && c in Groups(DocumentChunks(chunks, d))[j]
    ensures i == j
  {
    var sorted := DocumentChunks(chunks, d);
    DocumentChunksDistinct(chunks, d);
    GroupsPartition(sorted);
    PartsAreDisjoint(Groups(sorted), i, j, c);
  }

  lemma ClauseChunk(evidence: map<Id, Evidence>, chunks: seq<Chunk>, clause: Clause, x: Id) returns (c: Chunk)
    requires IsClauseOf(evidence, chunks, clause.document, clause) && x in clause.chunkIds
    ensures c in chunks && c.id == x && InDocument(clause.document, c)
    ensures clause.order < |Groups(DocumentChunks(chunks, clause.document))|
    ensures c in Groups(DocumentChunks(chunks, clause.document))[clause.order]
  {
    var group := Groups(DocumentChunks(chunks, clause.document))[clause.order];
    assert clause.chunkIds == Map(IdOf, group);
    var i :| 0 <= i < |group| && Map(IdOf, group)[i] == x;
    c := group[i];
    ChunkInGroup(chunks, clause.document, clause.order, c);
  }

  lemma GroupIdsInClause(evidence: map<Id, Evidence>, chunks: seq<Chunk>, clause: Clause, c: Chunk)
    requires IsClauseOf(evidence, chunks, clause.document, clause)
    requires c in Groups(DocumentChunks(chunks, clause.document))[clause.order]
    ensures c.id in clause.chunkIds
    ensures forall e :: e in c.evidenceIds ==> e in clause.evidenceIds && Backed(evidence, clause.document, e)
  {
    var group := Groups(DocumentChunks(chunks, clause.document))[clause.order];
    var i :| 0 <= i < |group| && group[i] == c;
    assert Map(IdOf, group)[i] == c.id;
    CitedMembers(group);
    forall e | e in c.evidenceIds ensures e in clause.evidenceIds && Backed(evidence, clause.document, e) {
      assert e in group[i].evidenceIds;
      assert e in Flatten(Map(EvidenceIdsOf, group));
    }
  }

  predicate UniqueChunks(chunks: seq<Chunk>)
  {
    Distinct(chunks) && forall i, j :: 0 <= i < |chunks| && 0 <= j < |chunks| && chunks[i].id == chunks[j].id ==> i == j
  }

  lemma SameId(chunks: seq<Chunk>, c: Chunk, d: Chunk)
    requires UniqueChunks(chunks) && c in chunks && d in chunks && c.id == d.id
    ensures c == d
  {
    var i :| 0 <= i < |chunks| && chunks[i] == c;
    var j :| 0 <= j < |chunks| && chunks[j] == d;
  }

  lemma DocumentsListed(chunks: seq<Chunk>, c: Chunk)
    requires c in chunks && Eligible(c)
    ensures c.document.value in SortedSet(Documents(chunks))
  {
    SortedSetMembers(Documents(chunks));
    assert c.document.value in Documents(chunks);
  }

  /** Every eligible chunk cites known evidence of its own document. */
  predicate EvidenceComplete(evidence: map<Id, Evidence>, chunks: seq<Chunk>)
  {
    forall c :: c in chunks && Eligible(c) ==> AllBacked(evidence, c.document.value, c.evidenceIds)
  }

  predicate AllBuilt(evidence: map<Id, Evidence>, chunks: seq<Chunk>, docs: seq<Id>)
  {
    forall d :: d in docs ==> ClausesOf(evidence, chunks, d).Some?
  }

  /** Building fails only for evidence that is missing or belongs to another document. */
  lemma BuildOkIff(evidence: map<Id, Evidence>, chunks: seq<Chunk>)
    ensures BuildClauses(evidence, chunks).Some? <==> EvidenceComplete(evidence, chunks)
  {
    hide AllBacked, ClausesOf, SortedSet, Documents, AllClauses;
    var docs := SortedSet(Documents(chunks));
    SortedSetMembers(Documents(chunks));
    AllSomeIff(evidence, chunks, docs);
    DocumentsSomeIff(evidence, chunks, docs);
  }

  lemma DocumentsSomeIff(evidence: map<Id, Evidence>, chunks: seq<Chunk>, docs: seq<Id>)
    requires forall d :: d in docs <==> d in Documents(chunks)
    ensures AllBuilt(evidence, chunks, docs) <==> EvidenceComplete(evidence, chunks)
  {
    hide AllBacked, ClausesOf;
    if AllBuilt(evidence, chunks, docs) {
      forall c: Chunk | c in chunks && Eligible(c) ensures AllBacked(evidence, c.document.value, c.evidenceIds) {
        assert c.document.value in Documents(chunks);
        ClausesOfSomeIff(evidence, chunks, c.document.value);
        assert InDocument(c.document.value, c);
      }
    }
    if EvidenceComplete(evidence, chunks) {
      forall d | d in docs ensures ClausesOf(evidence, chunks, d).Some? {
        ClausesOfSomeIff(evidence, chunks, d);
      }
    }
  }

  lemma {:induction false} AllSomeIff(evidence: map<Id, Evidence>, chunks: seq<Chunk>, docs: seq<Id>)
    ensures AllClauses(evidence, chunks, docs).Some? <==> AllBuilt(evidence, chunks, docs)
  {
    hide ClausesOf;
    if docs != [] {
      var front, last := docs[..|docs| - 1], docs[|docs| - 1];
      AllSomeIff(evidence, chunks, front);
      SnocParts(docs);
      assert last in docs && forall d :: d in front ==> d in docs;
    }
  }

  lemma ClausesOfSomeIff(evidence: map<Id, Evidence>, chunks: seq<Chunk>, d: Id)
    ensures ClausesOf(evidence, chunks, d).Some? <==>
      forall c :: c in chunks && InDocument(d, c) ==> AllBacked(evidence, d, c.evidenceIds)
  {
    var groups := Groups(DocumentChunks(chunks, d));
    DocumentSomeIff(evidence, d, groups, |groups|);
    if ClausesOf(evidence, chunks, d).Some? {
      forall c | c in chunks && InDocument(d, c) ensures AllBacked(evidence, d, c.evidenceIds) {
        var k := GroupOfChunk(chunks, d, c);
        CitedOfGroup(evidence, d, groups[k], c);
      }
    }
    if forall c :: c in chunks && InDocument(d, c) ==> AllBacked(evidence, d, c.evidenceIds) {
      forall k | 0 <= k < |groups| ensures AllBacked(evidence, d, Flatten(Map(EvidenceIdsOf, groups[k]))) {
        forall c: Chunk | c in groups[k] ensures AllBacked(evidence, d, c.evidenceIds) {
          ChunkInGroup(chunks, d, k, c);
        }
        GroupBacked(evidence, d, groups[k]);
      }
    }
  }

  lemma CitedOfGroup(evidence: map<Id, Evidence>, d: Id, group: seq<Chunk>, c: Chunk)
    requires AllBacked(evidence, d, Flatten(Map(EvidenceIdsOf, group))) && c in group
    ensures AllBacked(evidence, d, c.evidenceIds)
  {
    CitedMembers(group);
    var i :| 0 <= i < |group| && group[i] == c;
    forall e | e in c.evidenceIds ensures Backed(evidence, d, e) {
      assert e in group[i].evidenceIds;
      assert e in Flatten(Map(EvidenceIdsOf, group));
    }
  }

  lemma GroupBacked(evidence: map<Id, Evidence>, d: Id, group: seq<Chunk>)
    requires forall c :: c in group ==> AllBacked(evidence, d, c.evidenceIds)
    ensures AllBacked(evidence, d, Flatten(Map(EvidenceIdsOf, group)))
  {
    CitedMembers(group);
    forall e | e in Flatten(Map(EvidenceIdsOf, group)) ensures Backed(evidence, d, e) {
      var i :| 0 <= i < |group| && e in group[i].evidenceIds;
      assert group[i] in group;
    }
  }

  /** Two clauses that share a chunk are the same clause. */
  lemma ChunkInOneClause(evidence: map<Id, Evidence>, chunks: seq<Chunk>, a: Clause, b: Clause, x: Id)
    requires UniqueChunks(chunks)
    requires IsClauseOf(evidence, chunks, a.document, a) && IsClauseOf(evidence, chunks, b.document, b)
    requires x in a.chunkIds && x in b.chunkIds
    ensures a == b
  {
    var c := ClauseChunk(evidence, chunks, a, x);
    var d := ClauseChunk(evidence, chunks, b, x);
    hide IsClauseOf, Groups, DocumentChunks;
    SameId(chunks, c, d);
    OneGroup(chunks, a.document, a.order, b.order, c);
    SameClause(evidence, chunks, a, b);
  }

  lemma SameClause(evidence: map<Id, Evidence>, chunks: seq<Chunk>, a: Clause, b: Clause)
    requires IsClauseOf(evidence, chunks, a.document, a) && IsClauseOf(evidence, chunks, b.document, b)
    requires a.document == b.document && a.order == b.order
    ensures a == b
  {
  }

  /** The clauses cover the eligible chunks and nothing else, each exactly once, and have
      unique ids. */
  lemma EveryChunkInOneClause(evidence: map<Id, Evidence>, chunks: seq<Chunk>)
    requires UniqueChunks(chunks) && BuildClauses(evidence, chunks).Some?
    ensures Covers(chunks, BuildClauses(evidence, chunks).value)
    ensures OncePerChunk(BuildClauses(evidence, chunks).value)
    ensures UniqueClauseIds(BuildClauses(evidence, chunks).value)
  {
    var clauses := BuildClauses(evidence, chunks).value;
    var docs := SortedSet(Documents(chunks));
    SortedSetDistinct(Documents(chunks));
    AllFromDocuments(evidence, chunks, docs);
    hide *;
    ClausesCover(evidence, chunks, docs, clauses);
    ClausesOnce(evidence, chunks, docs, clauses);
    ClauseIdsUnique(evidence, chunks, docs, clauses);
  }

  /** The chunks in clauses are the eligible ones. */
  ghost predicate Covers(chunks: seq<Chunk>, clauses: seq<Clause>)
  {
    && (forall c: Chunk :: c in chunks && Eligible(c) ==> Claimed(clauses, c.id))
    && (forall x :: Claimed(clauses, x) ==> exists c: Chunk :: c in chunks && Eligible(c) && c.id == x)
  }

  predicate Claimed(clauses: seq<Clause>, x: Id) { exists i :: 0 <= i < |clauses| && x in clauses[i].chunkIds }

  ghost predicate OncePerChunk(clauses: seq<Clause>)
  {
    forall i, j, x ::
      0 <= i < |clauses| && 0 <= j < |clauses| && x in clauses[i].chunkIds && x in clauses[j].chunkIds ==> i == j
  }

  predicate UniqueClauseIds(clauses: seq<Clause>)
  {
    forall i, j :: 0 <= i < |clauses| && 0 <= j < |clauses| && clauses[i].id == clauses[j].id ==> i == j
  }

  lemma ClausesCover(evidence: map<Id, Evidence>, chunks: seq<Chunk>, docs: seq<Id>, clauses: seq<Clause>)
    requires FromDocuments(evidence, chunks, docs, clauses) && docs == SortedSet(Documents(chunks))
    ensures Covers(chunks, clauses)
  {
    hide IsClauseOf, SortedSet;
    forall c: Chunk | c in chunks && Eligible(c) ensures Claimed(clauses, c.id) {
      ChunkHasClause(evidence, chunks, docs, clauses, c);
    }
    forall x | Claimed(clauses, x) ensures exists c: Chunk :: c in chunks && Eligible(c) && c.id == x {
      var i :| 0 <= i < |clauses| && x in clauses[i].chunkIds;
      var c := ClauseChunk(evidence, chunks, clauses[i], x);
    }
  }

  lemma ClausesOnce(evidence: map<Id, Evidence>, chunks: seq<Chunk>, docs: seq<Id>, clauses: seq<Clause>)
    requires UniqueChunks(chunks) && FromDocuments(evidence, chunks, docs, clauses)
    ensures OncePerChunk(clauses)
  {
    hide IsClauseOf, UniqueChunks;
    forall i, j, x | 0 <= i < |clauses| && 0 <= j < |clauses| && x in clauses[i].chunkIds && x in clauses[j].chunkIds
      ensures i == j
    {
      ChunkInOneClause(evidence, chunks, clauses[i], clauses[j], x);
      DistinctPositions(evidence, chunks, docs, clauses, i, j);
    }
  }

  lemma DistinctPositions(evidence: map<Id, Evidence>, chunks: seq<Chunk>, docs: seq<Id>, clauses: seq<Clause>, i: nat,
                          j: nat)
    requires FromDocuments(evidence, chunks, docs, clauses) && i < |clauses| && j < |clauses|
    requires clauses[i] == clauses[j]
    ensures i == j
  {
    hide IsClauseOf;
  }

  lemma ClauseIdsUnique(evidence: map<Id, Evidence>, chunks: seq<Chunk>, docs: seq<Id>, clauses: seq<Clause>)
    requires UniqueChunks(chunks) && FromDocuments(evidence, chunks, docs, clauses)
    ensures UniqueClauseIds(clauses)
  {
    hide IsClauseOf, UniqueChunks;
    forall i, j | 0 <= i < |clauses| && 0 <= j < |clauses| && clauses[i].id == clauses[j].id ensures i == j {
      var x := SomeChunkId(evidence, chunks, clauses[i]);
      IdNamesChunks(evidence, chunks, clauses[i]);
      IdNamesChunks(evidence, chunks, clauses[j]);
      ChunkInOneClause(evidence, chunks, clauses[i], clauses[j], x);
      DistinctPositions(evidence, chunks, docs, clauses, i, j);
    }
  }

  lemma SomeChunkId(evidence: map<Id, Evidence>, chunks: seq<Chunk>, clause: Clause) returns (x: Id)
    requires IsClauseOf(evidence, chunks, clause.document, clause)
    ensures x in clause.chunkIds
  {
    var group := Groups(DocumentChunks(chunks, clause.document))[clause.order];
    x := Map(IdOf, group)[0];
  }

  lemma IdNamesChunks(evidence: map<Id, Evidence>, chunks: seq<Chunk>, clause: Clause)
    requires IsClauseOf(evidence, chunks, clause.document, clause)
    ensures clause.id == ClauseId(clause.document, clause.chunkIds)
  {
  }

  lemma ChunkHasClause(evidence: map<Id, Evidence>, chunks: seq<Chunk>, docs: seq<Id>, clauses: seq<Clause>, c: Chunk)
    requires FromDocuments(evidence, chunks, docs, clauses) && c in chunks && Eligible(c)
    requires docs == SortedSet(Documents(chunks))
    ensures exists i :: 0 <= i < |clauses| && c.id in clauses[i].chunkIds
  {
    hide IsClauseOf, Groups, DocumentChunks, SortedSet;
    var d := c.document.value;
    DocumentsListed(chunks, c);
    var k := GroupOfChunk(chunks, d, c);
    assert HasClause(clauses, d, k);
    var i :| 0 <= i < |clauses| && clauses[i].document == d && clauses[i].order == k;
    GroupIdsInClause(evidence, chunks, clauses[i], c);
  }

  // --------------------------------------------------------------------- writing back

  datatype Binding = Bound(table: map<Id, ClauseId>) | TwoClauses(chunkId: Id)

  predicate Claims(clauses: seq<Clause>, n: nat, x: Id, id: ClauseId)
    requires n <= |clauses|
  {
    exists i :: 0 <= i < n && x in clauses[i].chunkIds && clauses[i].id == id
  }

  /** Which clause each chunk belongs to; fails when a chunk is claimed by two. */
  method IndexChunks(clauses: seq<Clause>) returns (binding: Binding)
    ensures binding.Bound? ==>
      forall x, id :: (x in binding.table && binding.table[x] == id) <==> Claims(clauses, |clauses|, x, id)
    ensures binding.TwoClauses? ==> exists a, b :: (a != b
      && Claims(clauses, |clauses|, binding.chunkId, a) && Claims(clauses, |clauses|, binding.chunkId, b))
  {
    hide Claims, ClaimsPart;
    var table: map<Id, ClauseId> := map[];
    NoClaims(clauses);
    for i := 0 to |clauses|
      invariant forall x, id :: (x in table && table[x] == id) <==> Claims(clauses, i, x, id)
    {
      var clause := clauses[i];
      forall x, id ensures Claims(clauses, i, x, id) <==> ClaimsPart(clauses, i, 0, x, id) {
        PartStart(clauses, i, x, id);
      }
      for k := 0 to |clause.chunkIds|
        invariant forall x, id :: (x in table && table[x] == id) <==> ClaimsPart(clauses, i, k, x, id)
      {
        var x := clause.chunkIds[k];
        if x in table && table[x] != clause.id {
          assert ClaimsPart(clauses, i, k, x, table[x]);
          BothClaim(clauses, i, x, table[x], k);
          return TwoClauses(x);
        }
        ghost var next, grown := k + 1, table[x := clause.id];
        forall y, id ensures (y in grown && grown[y] == id) <==> ClaimsPart(clauses, i, next, y, id) {
          PartStep(clauses, i, k, y, id);
        }
        table := table[x := clause.id];
      }
      ghost var next := i + 1;
      forall x, id ensures (x in table && table[x] == id) <==> Claims(clauses, next, x, id) {
        ClaimStep(clauses, i, x, id);
      }
    }
    binding := Bound(table);
  }

  /** Claims by the clauses below i and the first k chunks of clause i. */
  predicate ClaimsPart(clauses: seq<Clause>, i: nat, k: nat, x: Id, id: ClauseId)
    requires i < |clauses| && k <= |clauses[i].chunkIds|
  {
    Claims(clauses, i, x, id) || (x in clauses[i].chunkIds[..k] && id == clauses[i].id)
  }

  lemma NoClaims(clauses: seq<Clause>)
    ensures forall x, id :: !Claims(clauses, 0, x, id)
  {
  }

  lemma PartStart(clauses: seq<Clause>, i: nat, x: Id, id: ClauseId)
    requires i < |clauses|
    ensures Claims(clauses, i, x, id) <==> ClaimsPart(clauses, i, 0, x, id)
  {
  }

  lemma PartStep(clauses: seq<Clause>, i: nat, k: nat, x: Id, id: ClauseId)
    requires i < |clauses| && k < |clauses[i].chunkIds|
    ensures ClaimsPart(clauses, i, k + 1, x, id) <==>
      ClaimsPart(clauses, i, k, x, id) || (x == clauses[i].chunkIds[k] && id == clauses[i].id)
  {
    TakeStep(clauses[i].chunkIds, k);
  }

  lemma ClaimStep(clauses: seq<Clause>, i: nat, x: Id, id: ClauseId)
    requires i < |clauses|
    ensures Claims(clauses, i + 1, x, id) <==> ClaimsPart(clauses, i, |clauses[i].chunkIds|, x, id)
  {
    TakeAll(clauses[i].chunkIds);
  }

  lemma BothClaim(clauses: seq<Clause>, i: nat, x: Id, other: ClauseId, k: nat)
    requires i < |clauses| && k < |clauses[i].chunkIds| && clauses[i].chunkIds[k] == x && other != clauses[i].id
    requires ClaimsPart(clauses, i, k, x, other)
    ensures Claims(clauses, |clauses|, x, other) && Claims(clauses, |clauses|, x, clauses[i].id)
  {
  }

  function BindChunk(table: map<Id, ClauseId>, c: Chunk): Chunk
  {
    c.(clauseIds := if c.id in table then [table[c.id]] else [])
  }

  /** bind_clause_ids_to_chunks */
  method BindClauses(chunks: seq<Chunk>, clauses: seq<Clause>) returns (bound: Option<seq<Chunk>>)
    ensures bound.None? ==>
      exists x, a, b :: a != b && Claims(clauses, |clauses|, x, a) && Claims(clauses, |clauses|, x, b)
    ensures bound.Some? ==>
      exists table :: IndexOf(clauses, table) && bound == Some(Map((c: Chunk) => BindChunk(table, c), chunks))
  {
    var binding := IndexChunks(clauses);
    if binding.TwoClauses? { return None; }
    var table := binding.table;
    assert IndexOf(clauses, table);
    bound := Some(Map((c: Chunk) => BindChunk(table, c), chunks));
  }

  ghost predicate IndexOf(clauses: seq<Clause>, table: map<Id, ClauseId>)
  {
    forall x, id :: (x in table && table[x] == id) <==> Claims(clauses, |clauses|, x, id)
  }

  // ------------------------------------------------------------------------ the audit

  predicate AuditClause(evidence: map<Id, Evidence>, chunks: seq<Chunk>, clause: Clause)
  {
    && (forall e :: e in clause.evidenceIds ==> e in evidence)
    && (forall x :: x in clause.chunkIds ==> exists c ::
          (c in chunks && c.id == x && c.document == Some(clause.document)
          && forall e :: e in c.evidenceIds ==> e in clause.evidenceIds))
  }

  /** The audit of clauses and of the clause ids of chunks. */
  ghost predicate AuditAccepts(evidence: map<Id, Evidence>, chunks: seq<Chunk>, clauses: seq<Clause>)
  {
    && UniqueClauseIds(clauses)
    && (forall i :: 0 <= i < |clauses| ==> AuditClause(evidence, chunks, clauses[i]))
    && (forall x, a, b :: Claims(clauses, |clauses|, x, a) && Claims(clauses, |clauses|, x, b) ==> a == b)
    && (forall c :: c in chunks && c.isContract ==>
          if Claimed(clauses, c.id) then exists id :: c.clauseIds == [id] && Claims(clauses, |clauses|, c.id, id)
          else c.clauseIds == [])
    && (forall c :: c in chunks && !c.isContract ==> c.clauseIds == [])
  }

  lemma OneClaim(clauses: seq<Clause>, x: Id, a: ClauseId, b: ClauseId)
    requires OncePerChunk(clauses) && Claims(clauses, |clauses|, x, a) && Claims(clauses, |clauses|, x, b)
    ensures a == b
  {
  }

  /** Binding the built clauses never fails, and the audit accepts the result. */
  lemma BindingPassesAudit(evidence: map<Id, Evidence>, chunks: seq<Chunk>, table: map<Id, ClauseId>)
    requires UniqueChunks(chunks) && BuildClauses(evidence, chunks).Some?
    ensures var clauses := BuildClauses(evidence, chunks).value;
      !exists x, a, b :: a != b && Claims(clauses, |clauses|, x, a) && Claims(clauses, |clauses|, x, b)
    ensures var clauses := BuildClauses(evidence, chunks).value;
      IndexOf(clauses, table) ==> AuditAccepts(evidence, Map((c: Chunk) => BindChunk(table, c), chunks), clauses)
  {
    var clauses := BuildClauses(evidence, chunks).value;
    EveryChunkInOneClause(evidence, chunks);
    var docs := SortedSet(Documents(chunks));
    SortedSetDistinct(Documents(chunks));
    AllFromDocuments(evidence, chunks, docs);
    hide *;
    forall x, a, b | Claims(clauses, |clauses|, x, a) && Claims(clauses, |clauses|, x, b) ensures a == b {
      OneClaim(clauses, x, a, b);
    }
    if IndexOf(clauses, table) {
      BoundAccepted(evidence, chunks, docs, clauses, table, Map((c: Chunk) => BindChunk(table, c), chunks));
    }
  }

  lemma BoundAccepted(evidence: map<Id, Evidence>, chunks: seq<Chunk>, docs: seq<Id>, clauses: seq<Clause>,
                      table: map<Id, ClauseId>, bound: seq<Chunk>)
    requires UniqueChunks(chunks) && FromDocuments(evidence, chunks, docs, clauses) && IndexOf(clauses, table)
    requires Covers(chunks, clauses) && OncePerChunk(clauses) && UniqueClauseIds(clauses)
    requires |bound| == |chunks| && forall i :: 0 <= i < |chunks| ==> bound[i] == BindChunk(table, chunks[i])
    ensures AuditAccepts(evidence, bound, clauses)
  {
    hide IsClauseOf, UniqueChunks, Covers, OncePerChunk, UniqueClauseIds, IndexOf;
    forall i | 0 <= i < |clauses| ensures AuditClause(evidence, bound, clauses[i]) {
      BoundClause(evidence, chunks, clauses[i], table, bound);
    }
    forall x, a, b | Claims(clauses, |clauses|, x, a) && Claims(clauses, |clauses|, x, b) ensures a == b {
      OneClaim(clauses, x, a, b);
    }
    forall c | c in bound
      ensures Claimed(clauses, c.id) ==> exists id :: c.clauseIds == [id] && Claims(clauses, |clauses|, c.id, id)
      ensures !Claimed(clauses, c.id) ==> c.clauseIds == []
      ensures !c.isContract ==> c.clauseIds == []
    {
      var i :| 0 <= i < |bound| && bound[i] == c;
      BoundChunk(chunks, clauses, table, chunks[i]);
    }
  }

  lemma BoundClause(evidence: map<Id, Evidence>, chunks: seq<Chunk>, clause: Clause, table: map<Id, ClauseId>,
                    bound: seq<Chunk>)
    requires IsClauseOf(evidence, chunks, clause.document, clause)
    requires |bound| == |chunks| && forall i :: 0 <= i < |chunks| ==> bound[i] == BindChunk(table, chunks[i])
    ensures AuditClause(evidence, bound, clause)
  {
    hide Groups, DocumentChunks;
    var group := Groups(DocumentChunks(chunks, clause.document))[clause.order];
    assert clause.evidenceIds == Dedup(Flatten(Map(EvidenceIdsOf, group)));
    forall x | x in clause.chunkIds
      ensures exists c :: (c in bound && c.id == x && c.document == Some(clause.document)
        && forall e :: e in c.evidenceIds ==> e in clause.evidenceIds)
    {
      var c := ClauseChunk(evidence, chunks, clause, x);
      GroupIdsInClause(evidence, chunks, clause, c);
      var i :| 0 <= i < |chunks| && chunks[i] == c;
      assert bound[i] in bound;
    }
  }

  lemma Indexed(clauses: seq<Clause>, table: map<Id, ClauseId>, x: Id)
    requires IndexOf(clauses, table)
    ensures x in table <==> Claimed(clauses, x)
  {
    if x in table { assert Claims(clauses, |clauses|, x, table[x]); }
    if i :| 0 <= i < |clauses| && x in clauses[i].chunkIds { assert Claims(clauses, |clauses|, x, clauses[i].id); }
  }

  lemma BoundChunk(chunks: seq<Chunk>, clauses: seq<Clause>, table: map<Id, ClauseId>, c: Chunk)
    requires UniqueChunks(chunks) && Covers(chunks, clauses) && IndexOf(clauses, table) && c in chunks
    ensures var b := BindChunk(table, c);
      && (Claimed(clauses, c.id) ==> exists id :: b.clauseIds == [id] && Claims(clauses, |clauses|, c.id, id))
      && (!Claimed(clauses, c.id) ==> b.clauseIds == [])
      && (!c.isContract ==> b.clauseIds == [])
  {
    Indexed(clauses, table, c.id);
    if Claimed(clauses, c.id) {
      assert Claims(clauses, |clauses|, c.id, table[c.id]);
      var e: Chunk :| e in chunks && Eligible(e) && e.id == c.id;
      SameId(chunks, c, e);
    }
  }
}
