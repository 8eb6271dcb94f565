/**
 Lexical retrieval: filter the corpus, gate and score the chunks, apply two thresholds,
 sort and truncate.  Scores are exact reals; what the text analysis finds in a chunk is
 an input.
 */
module Retrieval {
  import opened Collecting
  import opened Ordering

  datatype Chunk = Chunk(
    id: Id, isContract: bool, sourceName: Id, sourceHash: Id, sourceVersion: Id, documentKind: Id, documentId: Id,
    clauseIds: set<Id>, evidenceIds: set<Id>, ruleVersion: Id, ruleId: Id, counts: map<Id, nat>, length: nat)

  /** Every nonempty list is a whitelist. */
  datatype Filter = Filter(
    documentIds: set<Id>, clauseIds: set<Id>, sourceNames: set<Id>, sourceHashes: set<Id>, sourceVersions: set<Id>,
    kinds: set<bool>, documentKinds: set<Id>, ruleVersions: set<Id>, ruleIds: set<Id>, evidenceIds: set<Id>)

  predicate Allows(list: set<Id>, x: Id) { list == {} || x in list }

  predicate Matches(f: Filter, c: Chunk)
  {
    && Allows(f.sourceNames, c.sourceName) && Allows(f.sourceHashes, c.sourceHash)
    && Allows(f.sourceVersions, c.sourceVersion)
    && (f.kinds == {} || c.isContract in f.kinds)
    && (f.evidenceIds == {} || c.evidenceIds <= f.evidenceIds)
    && if c.isContract then
         && Allows(f.documentKinds, c.documentKind) && Allows(f.documentIds, c.documentId)
         && (f.clauseIds == {} || c.clauseIds * f.clauseIds != {})
       else
         Allows(f.ruleVersions, c.ruleVersion) && Allows(f.ruleIds, c.ruleId)
  }

  /** What the analysis of a chunk's text finds for the query. */
  datatype Reading = Reading(
    matched: seq<Id>, exact: nat, precise: bool, required: nat, numeric: nat, negation: nat, phrase: bool,
    exactPhrase: bool)

  datatype Query = Query(filter: Filter, read: Chunk -> Reading, requiresFacts: bool, locatesElements: bool)

  datatype Hit = Hit(id: Id, score: real, isContract: bool, guarded: bool)

  const K1 := 1.2
  const B := 0.75
  const REQUIRED_FACT_BOOST := 10.0
  const MIN_SCORE := 4.0
  const MIN_RATIO := 0.55

  // ------------------------------------------------------------ corpus statistics

  function LengthOf(c: Chunk): nat { c.length }

  function Mentions(term: Id): Chunk -> nat { (c: Chunk) => if term in c.counts then 1 else 0 }

  function Frequency(candidates: seq<Chunk>, term: Id): nat { Total(Mentions(term), candidates) }

  function Terms(candidates: seq<Chunk>): set<Id> { set c, t | c in candidates && t in c.counts :: t }

  /** In how many candidates each term occurs. */
  function Frequencies(candidates: seq<Chunk>): map<Id, nat>
  {
    map t | t in Terms(candidates) :: Frequency(candidates, t)
  }

  /** The inverse document frequency and the rounding of scores. */
  datatype Model = Model(idf: (nat, nat) -> real, round: real -> real)

  function Larger(a: real, b: real): real { if a >= b then a else b }

  function AverageLength(candidates: seq<Chunk>): real
  {
    if candidates == [] then 0.0 else Total(LengthOf, candidates) as real / |candidates| as real
  }

  // ---------------------------------------------------------------------- scoring

  function TermScore(m: Model, n: nat, average: real, frequency: map<Id, nat>, c: Chunk, term: Id): real
  {
    var f := if term in c.counts then c.counts[term] as real else 0.0;
    var norm := f + K1 * (1.0 - B + B * c.length as real / Larger(average, 1.0));
    m.idf(n, if term in frequency then frequency[term] else 0) * f * (K1 + 1.0) / Larger(norm, 0.000000000001)
  }

  function TermScores(m: Model, n: nat, average: real, frequency: map<Id, nat>, c: Chunk, terms: seq<Id>): real
  {
    if terms == [] then 0.0
    else
      var before := TermScores(m, n, average, frequency, c, terms[..|terms| - 1]);
      before + TermScore(m, n, average, frequency, c, terms[|terms| - 1])
  }

  function Boosts(r: Reading): real
  {
    (if r.phrase then 1.0 else 0.0) + r.exact as real + REQUIRED_FACT_BOOST * r.required as real
      + 0.5 * r.numeric as real + 0.5 * r.negation as real
  }

  /** The contract chunks that the thresholds leave alone. */
  predicate Guarded(c: Chunk, r: Reading) { c.isContract && (r.precise || r.exactPhrase) }

  predicate Anchored(q: Query, c: Chunk) { !c.isContract || !q.requiresFacts || q.read(c).required > 0 }

  predicate Relevant(q: Query, c: Chunk) { q.read(c).matched != [] || q.read(c).exact > 0 }

  /** The hit of a chunk, unless a gate or the absolute threshold drops it. */
  function HitOf(m: Model, q: Query, n: nat, average: real, frequency: map<Id, nat>, c: Chunk): Option<Hit>
  {
    var r := q.read(c);
    if !Anchored(q, c) || !Relevant(q, c) then None
    else
      var score := TermScores(m, n, average, frequency, c, r.matched) + Boosts(r);
      if c.isContract && !q.locatesElements && score < MIN_SCORE && !Guarded(c, r) then None
      else Some(Hit(c.id, m.round(score), c.isContract, Guarded(c, r)))
  }

  function Best(hits: seq<Hit>): real
  {
    if hits == [] then 0.0
    else
      var best := Best(hits[..|hits| - 1]);
      var last := hits[|hits| - 1];
      if last.isContract && (last.score > best || !HasContract(hits[..|hits| - 1])) then last.score else best
  }

  predicate HasContract(hits: seq<Hit>) { exists h :: h in hits && h.isContract }

  /** The relative threshold. */
  predicate Strong(best: real, h: Hit) { !h.isContract || h.guarded || h.score >= best * MIN_RATIO }

  function Survivors(q: Query, hits: seq<Hit>): seq<Hit>
  {
    var best := Best(hits);
    if best > 0.0 && !q.locatesElements then Collect((h: Hit) => Kept(Strong(best, h), h), hits) else hits
  }

  /** Higher scores first, ties in the order of ids. */
  predicate Before(a: Hit, b: Hit) { a.score > b.score || (a.score == b.score && a.id <= b.id) }

  function Truncate<T>(k: nat, s: seq<T>): (r: seq<T>)
  {
    if |s| <= k then s else s[..k]
  }

  function Candidates(q: Query, corpus: seq<Chunk>): seq<Chunk>
  {
    Collect((c: Chunk) => Kept(Matches(q.filter, c), c), corpus)
  }

  function Scored(m: Model, q: Query, candidates: seq<Chunk>): seq<Hit>
  {
    var n := |candidates|;
    var average := AverageLength(candidates);
    var frequency := Frequencies(candidates);
    Collect((c: Chunk) => HitOf(m, q, n, average, frequency, c), candidates)
  }

  function Ranked(m: Model, q: Query, corpus: seq<Chunk>): seq<Hit>
  {
    Sort(Before, Survivors(q, Scored(m, q, Candidates(q, corpus))))
  }

  function Retrieved(m: Model, q: Query, topK: nat, corpus: seq<Chunk>): seq<Hit>
  {
    Truncate(topK, Ranked(m, q, corpus))
  }

  // --------------------------------------------------- what a permutation leaves alone

  function ChunkId(c: Chunk): Id { c.id }

  function HitId(h: Hit): Id { h.id }

  lemma StatisticsPermuted(s: seq<Chunk>, t: seq<Chunk>)
    requires multiset(s) == multiset(t)
    ensures |s| == |t| && AverageLength(s) == AverageLength(t) && Frequencies(s) == Frequencies(t)
  {
    MultisetMembers(s, t);
    TotalPermuted(LengthOf, s, t);
    forall term ensures Frequency(s, term) == Frequency(t, term) {
      TotalPermuted(Mentions(term), s, t);
    }
  }

  lemma ScoredPermuted(m: Model, q: Query, s: seq<Chunk>, t: seq<Chunk>)
    requires multiset(s) == multiset(t)
    ensures multiset(Scored(m, q, s)) == multiset(Scored(m, q, t))
  {
    StatisticsPermuted(s, t);
    var n, average, frequency := |s|, AverageLength(s), Frequencies(s);
    CollectPermuted((c: Chunk) => HitOf(m, q, n, average, frequency, c), s, t);
  }

  lemma {:induction false} BestIsMaximum(hits: seq<Hit>)
    ensures forall h :: h in hits && h.isContract ==> h.score <= Best(hits)
    ensures if HasContract(hits) then exists h :: h in hits && h.isContract && h.score == Best(hits)
      else Best(hits) == 0.0
  {
    if hits != [] {
      var front, last := hits[..|hits| - 1], hits[|hits| - 1];
      BestIsMaximum(front);
      assert hits == front + [last];
      assert last in hits;
      if h :| h in front && h.isContract && h.score == Best(front) { assert h in hits; }
    }
  }

  lemma BestPermuted(s: seq<Hit>, t: seq<Hit>)
    requires multiset(s) == multiset(t)
    ensures Best(s) == Best(t)
  {
    MultisetMembers(s, t);
    BestIsMaximum(s);
    BestIsMaximum(t);
    if h :| h in s && h.isContract { assert h in t; }
  }

  lemma SurvivorsPermuted(q: Query, s: seq<Hit>, t: seq<Hit>)
    requires multiset(s) == multiset(t)
    ensures multiset(Survivors(q, s)) == multiset(Survivors(q, t))
  {
    BestPermuted(s, t);
    var best := Best(s);
    CollectPermuted((h: Hit) => Kept(Strong(best, h), h), s, t);
  }

  lemma SurvivorsMembers(q: Query, hits: seq<Hit>)
    ensures forall h :: h in Survivors(q, hits) <==>
      h in hits && (Best(hits) > 0.0 && !q.locatesElements ==> Strong(Best(hits), h))
  {
    var best := Best(hits);
    CollectMembers((h: Hit) => Kept(Strong(best, h), h), hits);
  }

  lemma CandidatesMembers(q: Query, corpus: seq<Chunk>)
    ensures forall c :: c in Candidates(q, corpus) <==> c in corpus && Matches(q.filter, c)
  {
    CollectMembers((c: Chunk) => Kept(Matches(q.filter, c), c), corpus);
  }

  /** The hit of chunk c, with the statistics of these candidates. */
  function HitIn(m: Model, q: Query, candidates: seq<Chunk>, c: Chunk): Option<Hit>
  {
    HitOf(m, q, |candidates|, AverageLength(candidates), Frequencies(candidates), c)
  }

  lemma ScoredMembers(m: Model, q: Query, candidates: seq<Chunk>)
    ensures forall h :: h in Scored(m, q, candidates) <==>
      exists c :: c in candidates && HitIn(m, q, candidates, c) == Some(h)
  {
    var n, average, frequency := |candidates|, AverageLength(candidates), Frequencies(candidates);
    var f := (c: Chunk) => HitOf(m, q, n, average, frequency, c);
    CollectMembers(f, candidates);
    assert forall c :: f(c) == HitIn(m, q, candidates, c);
  }

  lemma BeforeIsLinear(hits: seq<Hit>)
    requires forall a, b :: a in hits && b in hits && a.id == b.id ==> a == b
    ensures LinearOn(Before, hits)
  {
  }

  /** With unique chunk ids the hits that reach the sort are linearly ordered. */
  lemma HitsAreOrdered(m: Model, q: Query, corpus: seq<Chunk>)
    requires UniqueKeys(ChunkId, corpus)
    ensures LinearOn(Before, Survivors(q, Scored(m, q, Candidates(q, corpus))))
  {
    hide Scored, Survivors, Candidates, LinearOn;
    var candidates := Candidates(q, corpus);
    var hits := Scored(m, q, candidates);
    CandidatesMembers(q, corpus);
    SurvivorsMembers(q, hits);
    SameIdSameHit(m, q, candidates);
    assert forall a, b :: a in hits && b in hits && HitId(a) == HitId(b) ==> a == b;
    BeforeIsLinear(Survivors(q, hits));
  }

  lemma ScoredDistinct(m: Model, q: Query, candidates: seq<Chunk>)
    requires Distinct(candidates) && UniqueKeys(ChunkId, candidates)
    ensures Distinct(Scored(m, q, candidates))
  {
    var n, average, frequency := |candidates|, AverageLength(candidates), Frequencies(candidates);
    var f := (c: Chunk) => HitOf(m, q, n, average, frequency, c);
    forall x, y | x in candidates && y in candidates && x != y && f(x).Some? ensures f(x) != f(y) {
      assert ChunkId(x) != ChunkId(y);
    }
    CollectDistinct(f, candidates);
  }

  /** On a corpus without repeated ids no two hits share an id. */
  lemma HitsHaveUniqueIds(m: Model, q: Query, topK: nat, corpus: seq<Chunk>)
    requires Distinct(corpus) && UniqueKeys(ChunkId, corpus)
    ensures Distinct(Retrieved(m, q, topK, corpus)) && UniqueKeys(HitId, Retrieved(m, q, topK, corpus))
  {
    hide Scored, HitOf;
    var candidates := Candidates(q, corpus);
    var hits := Scored(m, q, candidates);
    var survivors := Survivors(q, hits);
    CandidatesMembers(q, corpus);
    FilterDistinct((c: Chunk) => Kept(Matches(q.filter, c), c), corpus);
    ScoredDistinct(m, q, candidates);
    var best := Best(hits);
    FilterDistinct((h: Hit) => Kept(Strong(best, h), h), hits);
    var all := Sort(Before, survivors);
    MultisetDistinct(survivors, all);
    MultisetMembers(all, survivors);
    SurvivorsMembers(q, hits);
    SameIdSameHit(m, q, candidates);
    forall h | h in Truncate(topK, all) ensures h in all && h in hits { }
  }

  lemma SameIdSameHit(m: Model, q: Query, candidates: seq<Chunk>)
    requires UniqueKeys(ChunkId, candidates)
    ensures UniqueKeys(HitId, Scored(m, q, candidates))
  {
    var hits := Scored(m, q, candidates);
    ScoredMembers(m, q, candidates);
    forall a, b | a in hits && b in hits && HitId(a) == HitId(b) ensures a == b {
      var c :| c in candidates && HitIn(m, q, candidates, c) == Some(a);
      var d :| d in candidates && HitIn(m, q, candidates, d) == Some(b);
      assert ChunkId(c) == ChunkId(d);
    }
  }

  /** Retrieval is a function of the set of chunks: hits, scores and ranks do not depend
      on the order of the corpus. */
  lemma RetrievalIsCanonical(m: Model, q: Query, topK: nat, s: seq<Chunk>, t: seq<Chunk>)
    requires UniqueKeys(ChunkId, s) && multiset(s) == multiset(t)
    ensures Retrieved(m, q, topK, s) == Retrieved(m, q, topK, t)
  {
    hide Scored, Survivors;
    CollectPermuted((c: Chunk) => Kept(Matches(q.filter, c), c), s, t);
    ScoredPermuted(m, q, Candidates(q, s), Candidates(q, t));
    SurvivorsPermuted(q, Scored(m, q, Candidates(q, s)), Scored(m, q, Candidates(q, t)));
    HitsAreOrdered(m, q, s);
    SortCanonical(Before, Survivors(q, Scored(m, q, Candidates(q, s))), Survivors(q, Scored(m, q, Candidates(q, t))));
  }

  // ------------------------------------------------------------- what a hit guarantees

  /** Every hit comes from a chunk that passes the filter and the gates, and it passed both
      thresholds or was exempt from them. */
  lemma HitsAreJustified(m: Model, q: Query, topK: nat, corpus: seq<Chunk>, h: Hit)
    requires h in Retrieved(m, q, topK, corpus)
    ensures exists c :: (c in corpus && c.id == h.id && Matches(q.filter, c) && Anchored(q, c) && Relevant(q, c)
      && HitIn(m, q, Candidates(q, corpus), c) == Some(h))
    ensures var best := Best(Scored(m, q, Candidates(q, corpus)));
      !h.isContract || h.guarded || q.locatesElements || best <= 0.0 || h.score >= best * MIN_RATIO
  {
    var candidates := Candidates(q, corpus);
    var hits := Scored(m, q, candidates);
    var survivors := Survivors(q, hits);
    assert h in Ranked(m, q, corpus);
    MultisetMembers(Sort(Before, survivors), survivors);
    SurvivorsMembers(q, hits);
    ScoredMembers(m, q, candidates);
    CandidatesMembers(q, corpus);
  }

  /** The relative threshold never removes the best contract hit. */
  lemma BestContractHitSurvives(q: Query, hits: seq<Hit>)
    requires HasContract(hits)
    ensures exists h :: h in Survivors(q, hits) && h.isContract && h.score == Best(hits)
  {
    BestIsMaximum(hits);
    SurvivorsMembers(q, hits);
    var h :| h in hits && h.isContract && h.score == Best(hits);
    assert Best(hits) > 0.0 ==> Strong(Best(hits), h);
  }

  lemma {:induction false} TruncateKeepsTop<T(!new)>(le: (T, T) -> bool, s: seq<T>, k: nat)
    requires LinearOn(le, s)
    ensures var r := Truncate(k, Sort(le, s));
      && |r| == (if |s| <= k then |s| else k)
      && SortedBy(le, r)
      && (forall x :: x in r ==> x in s)
      && (forall x, y :: x in r && y in s && y !in r ==> le(x, y))
  {
    var all := Sort(le, s);
    SortSorted(le, s);
    MultisetMembers(all, s);
    var r := Truncate(k, all);
    assert forall m :: 0 <= m < |r| ==> r[m] == all[m] && all[m] in r;
    forall x, y | x in r && y in s && y !in r ensures le(x, y) {
      var i :| 0 <= i < |r| && r[i] == x;
      var j :| 0 <= j < |all| && all[j] == y;
      assert i < |r| <= j;
    }
  }

  /** The hits are exactly the first topK of the total order, and when any contract hit is
      kept, so is a best one. */
  lemma TopHits(m: Model, q: Query, topK: nat, corpus: seq<Chunk>)
    requires UniqueKeys(ChunkId, corpus)
    ensures var pool := Survivors(q, Scored(m, q, Candidates(q, corpus)));
      var hits := Retrieved(m, q, topK, corpus);
      && |hits| == (if |pool| <= topK then |pool| else topK)
      && SortedBy(Before, hits)
      && (forall h :: h in hits ==> h in pool)
      && (forall h, other :: h in hits && other in pool && other !in hits ==> Before(h, other))
  {
    HitsAreOrdered(m, q, corpus);
    TruncateKeepsTop(Before, Survivors(q, Scored(m, q, Candidates(q, corpus))), topK);
  }

  lemma BestContractHitIsFirst(m: Model, q: Query, topK: nat, corpus: seq<Chunk>)
    requires UniqueKeys(ChunkId, corpus)
    requires HasContract(Retrieved(m, q, topK, corpus))
    ensures exists h :: (h in Retrieved(m, q, topK, corpus) && h.isContract
      && h.score == Best(Scored(m, q, Candidates(q, corpus))))
  {
    hide Scored, Survivors, Retrieved;
    var hits := Scored(m, q, Candidates(q, corpus));
    var kept := Retrieved(m, q, topK, corpus);
    TopHits(m, q, topK, corpus);
    SurvivorsMembers(q, hits);
    BestIsMaximum(hits);
    var some :| some in kept && some.isContract;
    assert HasContract(hits) by { assert some in hits; }
    BestContractHitSurvives(q, hits);
    var best :| best in Survivors(q, hits) && best.isContract && best.score == Best(hits);
    if best !in kept {
      assert Before(some, best);
      assert some.score == best.score;
    }
  }

  // ------------------------------------------------------------------- the loops

  method FilterCorpus(q: Query, corpus: seq<Chunk>) returns (candidates: seq<Chunk>)
    ensures candidates == Candidates(q, corpus)
  {
    candidates := [];
    ghost var f := (c: Chunk) => Kept(Matches(q.filter, c), c);
    for i := 0 to |corpus|
      invariant candidates == Collect(f, corpus[..i])
    {
      TakeStep(corpus, i);
      if Matches(q.filter, corpus[i]) { candidates := candidates + [corpus[i]]; }
    }
    TakeAll(corpus);
  }

  /** The sum over the matched terms, in order. */
  method ScoreTerms(m: Model, n: nat, average: real, frequency: map<Id, nat>, c: Chunk, terms: seq<Id>)
    returns (score: real)
    ensures score == TermScores(m, n, average, frequency, c, terms)
  {
    score := 0.0;
    for i := 0 to |terms|
      invariant score == TermScores(m, n, average, frequency, c, terms[..i])
    {
      TakeStep(terms, i);
      score := score + TermScore(m, n, average, frequency, c, terms[i]);
    }
    TakeAll(terms);
  }

  method ScoreChunk(m: Model, q: Query, n: nat, average: real, frequency: map<Id, nat>, c: Chunk)
    returns (hit: Option<Hit>)
    ensures hit == HitOf(m, q, n, average, frequency, c)
  {
    var r := q.read(c);
    if !Anchored(q, c) { return None; }
    if r.matched == [] && r.exact == 0 { return None; }
    var score := ScoreTerms(m, n, average, frequency, c, r.matched);
    if r.phrase { score := score + 1.0; }
    score := score + r.exact as real;
    score := score + REQUIRED_FACT_BOOST * r.required as real;
    score := score + 0.5 * r.numeric as real;
    score := score + 0.5 * r.negation as real;
    if c.isContract && !q.locatesElements && score < MIN_SCORE && !Guarded(c, r) { return None; }
    hit := Some(Hit(c.id, m.round(score), c.isContract, Guarded(c, r)));
  }

  method KeepStrong(best: real, hits: seq<Hit>) returns (kept: seq<Hit>)
    ensures kept == Collect((h: Hit) => Kept(Strong(best, h), h), hits)
  {
    kept := [];
    ghost var f := (h: Hit) => Kept(Strong(best, h), h);
    for i := 0 to |hits|
      invariant kept == Collect(f, hits[..i])
    {
      TakeStep(hits, i);
      if Strong(best, hits[i]) { kept := kept + [hits[i]]; }
    }
    TakeAll(hits);
  }

  method Retrieve(m: Model, q: Query, topK: nat, corpus: seq<Chunk>) returns (hits: seq<Hit>)
    requires topK > 0
    ensures hits == Retrieved(m, q, topK, corpus)
  {
    var candidates := FilterCorpus(q, corpus);
    var n, average, frequency := |candidates|, AverageLength(candidates), Frequencies(candidates);
    var scored: seq<Hit> := [];
    ghost var f := (c: Chunk) => HitOf(m, q, n, average, frequency, c);
    for i := 0 to |candidates|
      invariant scored == Collect(f, candidates[..i])
    {
      TakeStep(candidates, i);
      var hit := ScoreChunk(m, q, n, average, frequency, candidates[i]);
      if hit.Some? { scored := scored + [hit.value]; }
    }
    TakeAll(candidates);
    assert scored == Scored(m, q, candidates);
    var best := Best(scored);
    if best > 0.0 && !q.locatesElements { scored := KeepStrong(best, scored); }
    scored := Sort(Before, scored);
    hits := Truncate(topK, scored);
  }
}
