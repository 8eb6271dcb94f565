/** The second stage: a candidate pool from retrieval is scored again by evidence features. */
module Reranking {
  import opened Collecting
  import opened Ordering
  import opened Retrieval

  // ------------------------------------------------------------------- features

  /** Missing features stand for constraints that the query does not have. */
  datatype Features = Features(
    initialRank: real, exact: Option<real>, required: Option<real>, constraint: Option<real>, proximity: Option<real>)

  predicate Unit(x: real) { 0.0 <= x <= 1.0 }

  predicate UnitOrMissing(x: Option<real>) { x.Some? ==> Unit(x.value) }

  predicate InRange(f: Features)
  {
    && Unit(f.initialRank) && UnitOrMissing(f.exact) && UnitOrMissing(f.required)
    && UnitOrMissing(f.constraint) && UnitOrMissing(f.proximity)
  }

  /** Anchors in normal form, and how long each is; an empty anchor has length zero. */
  function Normalised(length: Id -> nat, anchors: seq<Id>): seq<Id>
  {
    Dedup(Collect((a: Id) => Kept(length(a) > 0, a), anchors))
  }

  function MatchedLength(length: Id -> nat, matched: set<Id>): Id -> nat
  {
    (a: Id) => if a in matched then length(a) else 0
  }

  function Weight(length: Id -> nat, anchors: seq<Id>, matched: set<Id>): nat
  {
    Total(MatchedLength(length, matched), anchors)
  }

  /** The share of the anchors that is matched, by length. */
  function Coverage(length: Id -> nat, anchors: seq<Id>, matched: set<Id>): Option<real>
  {
    var normal := Normalised(length, anchors);
    var total := Total(length, normal);
    if normal == [] || total == 0 then None else Some(Weight(length, normal, matched) as real / total as real)
  }

  function Mean(a: Option<real>, b: Option<real>): Option<real>
  {
    if a.Some? && b.Some? then Some((a.value + b.value) / 2.0) else if a.Some? then a else b
  }

  const WINDOW := 80.0

  /** The least gap between neighbours of a sorted list. */
  function ClosestGap(positions: seq<int>): int
    requires |positions| >= 2
  {
    var n := |positions|;
    var last := positions[n - 1] - positions[n - 2];
    if n == 2 then last
    else
      var before := ClosestGap(positions[..n - 1]);
      if last < before then last else before
  }

  function ProximityOf(gap: int): real { Larger(0.0, 1.0 - gap as real / WINDOW) }

  ghost function Proximity(positions: set<int>): Option<real>
  {
    var sorted := SortedSet(positions);
    if |sorted| < 2 then None else Some(ProximityOf(ClosestGap(sorted)))
  }

  method MeasureProximity(positions: set<int>) returns (proximity: Option<real>)
    ensures proximity == Proximity(positions)
  {
    var sorted := SortSet(positions);
    if |sorted| < 2 { return None; }
    var gap := sorted[1] - sorted[0];
    assert sorted[..2] == [sorted[0], sorted[1]];
    for i := 2 to |sorted|
      invariant gap == ClosestGap(sorted[..i])
    {
      TakeStep(sorted, i);
      if sorted[i] - sorted[i - 1] < gap { gap := sorted[i] - sorted[i - 1]; }
    }
    TakeAll(sorted);
    proximity := Some(ProximityOf(gap));
  }

  ghost predicate Increasing(s: seq<int>) { forall i, j :: 0 <= i < j < |s| ==> s[i] < s[j] }

  lemma {:induction false} GapIsLeast(s: seq<int>, i: nat, j: nat)
    requires |s| >= 2 && Increasing(s) && i < j < |s|
    ensures s[j] - s[i] >= ClosestGap(s)
  {
    var n := |s|;
    if n > 2 {
      if j < n - 1 {
        GapIsLeast(s[..n - 1], i, j);
      } else {
        assert s[i] <= s[n - 2];
      }
    }
  }

  lemma {:induction false} GapIsReached(s: seq<int>) returns (i: nat)
    requires |s| >= 2
    ensures i < |s| - 1 && s[i + 1] - s[i] == ClosestGap(s)
  {
    var n := |s|;
    if n > 2 && s[n - 1] - s[n - 2] >= ClosestGap(s[..n - 1]) {
      i := GapIsReached(s[..n - 1]);
    } else {
      i := n - 2;
    }
  }

  lemma SortedPositions(positions: set<int>)
    ensures Increasing(SortedSet(positions)) && (forall p :: p in SortedSet(positions) <==> p in positions)
  {
    SortedSetMembers(positions);
    SortedSetDistinct(positions);
    SortSorted((x: Id, y: Id) => x <= y, Enumerate(positions));
    assert forall i, j :: 0 <= i < j < |SortedSet(positions)| ==> SortedSet(positions)[i] <= SortedSet(positions)[j];
  }

  /** No two positions are closer than p and q. */
  ghost predicate Closest(positions: set<int>, p: int, q: int)
  {
    && p in positions && q in positions && p < q
    && forall x, y :: x in positions && y in positions && x < y ==> y - x >= q - p
  }

  lemma ClosestPair(positions: set<int>, s: seq<int>) returns (p: int, q: int)
    requires Increasing(s) && |s| >= 2 && forall x :: x in s <==> x in positions
    ensures Closest(positions, p, q) && q - p == ClosestGap(s)
  {
    var i := GapIsReached(s);
    p, q := s[i], s[i + 1];
    assert p in s && q in s && p < q;
    forall x, y | x in positions && y in positions && x < y ensures y - x >= q - p {
      var a :| 0 <= a < |s| && s[a] == x;
      var b :| 0 <= b < |s| && s[b] == y;
      assert a < b;
      GapIsLeast(s, a, b);
    }
  }

  /** Proximity is one minus the least distance of two anchor positions, within the
      window, and missing without two positions. */
  lemma ProximityIsLeastDistance(positions: set<int>)
    ensures Proximity(positions).None? ==> forall p, q :: p in positions && q in positions ==> p == q
    ensures Proximity(positions).Some? ==>
      exists p, q :: Closest(positions, p, q) && Proximity(positions) == Some(ProximityOf(q - p))
    ensures UnitOrMissing(Proximity(positions))
  {
    var s := SortedSet(positions);
    SortedPositions(positions);
    if |s| >= 2 {
      hide SortedSet;
      var p, q := ClosestPair(positions, s);
    } else {
      forall p, q | p in positions && q in positions ensures p == q {
        assert p in s && q in s;
      }
    }
  }

  // ----------------------------------------------------------------------- bounds

  lemma NormalisedMembers(length: Id -> nat, anchors: seq<Id>)
    ensures forall a :: a in Normalised(length, anchors) <==> a in anchors && length(a) > 0
  {
    var f := (a: Id) => Kept(length(a) > 0, a);
    CollectMembers(f, anchors);
  }

  lemma NormalPositive(length: Id -> nat, anchors: seq<Id>)
    ensures var normal := Normalised(length, anchors);
      if normal == [] then forall a :: a in anchors ==> length(a) == 0
      else Total(length, normal) > 0 && exists a :: a in anchors && length(a) > 0
  {
    var normal := Normalised(length, anchors);
    NormalisedMembers(length, anchors);
    forall a | a in anchors && length(a) > 0 ensures normal != [] { assert a in normal; }
    forall a | a in normal ensures a in anchors && length(a) > 0 { assert a in Normalised(length, anchors); }
    if normal != [] {
      TotalPositive(length, normal);
      var a := normal[0];
      assert a in normal;
      assert a in anchors && length(a) > 0;
    }
  }

  lemma AllMatchedIff(length: Id -> nat, anchors: seq<Id>, matched: set<Id>)
    ensures var normal := Normalised(length, anchors);
      && Weight(length, normal, matched) <= Total(length, normal)
      && (Weight(length, normal, matched) == Total(length, normal) <==>
          forall a :: a in anchors && length(a) > 0 ==> a in matched)
  {
    var normal := Normalised(length, anchors);
    NormalisedMembers(length, anchors);
    var f := MatchedLength(length, matched);
    assert forall a :: f(a) <= length(a);
    TotalBelow(f, length, normal);
    TotalEqualIff(f, length, normal);
    if forall x :: x in normal ==> f(x) == length(x) {
      forall a | a in anchors && length(a) > 0 ensures a in matched { assert a in normal && f(a) == length(a); }
    }
    if forall a :: a in anchors && length(a) > 0 ==> a in matched {
      forall a | a in normal ensures f(a) == length(a) { assert a in anchors && length(a) > 0; }
    }
  }

  /** Coverage lies between zero and one; it is one exactly when every anchor is matched
      and missing exactly when there is none. */
  lemma CoverageMeans(length: Id -> nat, anchors: seq<Id>, matched: set<Id>)
    ensures var c := Coverage(length, anchors, matched);
      && (c.None? <==> forall a :: a in anchors ==> length(a) == 0)
      && (c.Some? ==> Unit(c.value) && (c.value == 1.0 <==> forall a :: a in anchors && length(a) > 0 ==> a in matched))
  {
    hide Normalised, Weight, Total;
    NormalPositive(length, anchors);
    AllMatchedIff(length, anchors, matched);
    var normal := Normalised(length, anchors);
    if normal != [] { Ratio(Weight(length, normal, matched), Total(length, normal)); }
  }

  lemma Ratio(a: nat, b: nat)
    requires a <= b && b > 0
    ensures Unit(a as real / b as real) && (a as real / b as real == 1.0 <==> a == b)
  {
    Quotient(a as real, b as real);
    var x, d := a as real / b as real, b as real;
    assert x * d == a as real;
    if a == b {
      assert (x - 1.0) * d == 0.0 && (1.0 - x) * d == 0.0;
      Sign(x - 1.0, d);
      Sign(1.0 - x, d);
    }
  }

  lemma MeanInRange(a: Option<real>, b: Option<real>)
    requires UnitOrMissing(a) && UnitOrMissing(b)
    ensures UnitOrMissing(Mean(a, b))
  {
  }

  function InitialRank(rank: nat, count: nat): real
    requires 1 <= rank <= count
  {
    if count <= 1 then 1.0 else 1.0 - (rank - 1) as real / (count - 1) as real
  }

  lemma InitialRankInRange(rank: nat, count: nat)
    requires 1 <= rank <= count
    ensures Unit(InitialRank(rank, count))
  {
    if count > 1 { Ratio(rank - 1, count - 1); }
  }

  // ------------------------------------------------------------------ the new score

  function Part(weight: real, x: Option<real>): (real, real)
  {
    match x case Some(v) => (weight * v, weight) case None => (0.0, 0.0)
  }

  /** The weighted mean of the features that are present. */
  function WeightedMean(f: Features): real
  {
    var a, b, c, d := Part(0.25, f.exact), Part(0.30, f.required), Part(0.15, f.constraint), Part(0.10, f.proximity);
    (0.20 * f.initialRank + a.0 + b.0 + c.0 + d.0) / (0.20 + a.1 + b.1 + c.1 + d.1)
  }

  /** Rounding to six places keeps the order and leaves zero and one alone. */
  ghost predicate Rounds(round: real -> real)
  {
    round(0.0) == 0.0 && round(1.0) == 1.0 && forall x, y :: x <= y ==> round(x) <= round(y)
  }

  lemma PartInRange(weight: real, x: Option<real>)
    requires weight > 0.0 && UnitOrMissing(x)
    ensures 0.0 <= Part(weight, x).0 <= Part(weight, x).1
  {
    if x.Some? {
      Product(weight, x.value);
      Product(weight, 1.0 - x.value);
      assert weight * (1.0 - x.value) == weight - weight * x.value;
    }
  }

  lemma Quotient(a: real, b: real)
    requires 0.0 <= a <= b && b > 0.0
    ensures Unit(a / b)
  {
    var x := a / b;
    assert x * b == a;
    Sign(x, b);
    assert (1.0 - x) * b == b - a;
    Sign(1.0 - x, b);
  }

  lemma Product(a: real, b: real)
    requires a >= 0.0 && b >= 0.0
    ensures a * b >= 0.0
  {
  }

  lemma Sign(x: real, b: real)
    requires b > 0.0 && x * b >= 0.0
    ensures x >= 0.0
  {
    assert x < 0.0 ==> -x * b > 0.0;
  }

  lemma MeanScoreInRange(f: Features)
    requires InRange(f)
    ensures Unit(WeightedMean(f))
  {
    PartInRange(0.25, f.exact);
    PartInRange(0.30, f.required);
    PartInRange(0.15, f.constraint);
    PartInRange(0.10, f.proximity);
    var a, b, c, d := Part(0.25, f.exact), Part(0.30, f.required), Part(0.15, f.constraint), Part(0.10, f.proximity);
    Quotient(0.20 * f.initialRank + a.0 + b.0 + c.0 + d.0, 0.20 + a.1 + b.1 + c.1 + d.1);
  }

  // ------------------------------------------------------------ evidence of a chunk

  /** The query's anchors as written, and what the text search knows of them: the form they
      are compared in, its length, whether one of their variants occurs in a chunk, and where
      the variants of a form begin. */
  datatype Setting = Setting(
    exact: seq<Id>, required: seq<Id>, numeric: seq<Id>, negation: seq<Id>,
    compact: Id -> Id, length: Id -> nat, found: (Chunk, Id) -> bool, places: (Chunk, Id) -> set<nat>,
    round: real -> real)

  function MatchedForms(st: Setting, c: Chunk, anchors: seq<Id>): set<Id>
  {
    set a | a in anchors && st.found(c, a) :: st.compact(a)
  }

  function CoverageIn(st: Setting, c: Chunk, anchors: seq<Id>): Option<real>
  {
    Coverage(st.length, Map(st.compact, anchors), MatchedForms(st, c, anchors))
  }

  const MIN_NEAR_LENGTH := 2

  /** Very short exact anchors do not count as places of evidence. */
  function NearAnchors(st: Setting): seq<Id>
  {
    var long := Collect((a: Id) => Kept(st.length(st.compact(a)) >= MIN_NEAR_LENGTH, a), st.exact);
    Normalised(st.length, Map(st.compact, st.required + st.numeric + st.negation + long))
  }

  function Positions(st: Setting, c: Chunk): set<int>
  {
    set a, p: int | a in NearAnchors(st) && p in st.places(c, a) :: p
  }

  datatype Evidence = Evidence(exact: Option<real>, required: Option<real>, constraint: Option<real>,
                               proximity: Option<real>)

  /** What the query's anchors come to in a chunk. */
  ghost function EvidenceOf(st: Setting, c: Chunk): Evidence
  {
    Evidence(CoverageIn(st, c, st.exact), CoverageIn(st, c, st.required),
             Mean(CoverageIn(st, c, st.numeric), CoverageIn(st, c, st.negation)), Proximity(Positions(st, c)))
  }

  method MeasureEvidence(st: Setting, c: Chunk) returns (evidence: Evidence)
    ensures evidence == EvidenceOf(st, c)
  {
    var proximity := MeasureProximity(Positions(st, c));
    var constraint := Mean(CoverageIn(st, c, st.numeric), CoverageIn(st, c, st.negation));
    evidence := Evidence(CoverageIn(st, c, st.exact), CoverageIn(st, c, st.required), constraint, proximity);
  }

  /** Coverage is one exactly when of every anchor some spelling of the same form is found,
      and missing exactly when all forms are empty. */
  lemma CoverageInMeans(st: Setting, c: Chunk, anchors: seq<Id>)
    ensures var r := CoverageIn(st, c, anchors);
      && (r.None? <==> forall a :: a in anchors ==> st.length(st.compact(a)) == 0)
      && (r.Some? ==> Unit(r.value) && (r.value == 1.0 <==>
          forall a :: a in anchors && st.length(st.compact(a)) > 0 ==> st.compact(a) in MatchedForms(st, c, anchors)))
  {
    hide Coverage, MatchedForms;
    var forms := Map(st.compact, anchors);
    FormsOf(st.compact, anchors);
    CoverageMeans(st.length, forms, MatchedForms(st, c, anchors));
    var matched := MatchedForms(st, c, anchors);
    var blank: Id -> bool := (x: Id) => st.length(x) == 0;
    var hit: Id -> bool := (x: Id) => st.length(x) > 0 ==> x in matched;
    FormsShare(st.compact, anchors, blank);
    FormsShare(st.compact, anchors, hit);
    assert (forall x :: x in forms ==> st.length(x) == 0) <==> forall x :: x in forms ==> blank(x);
    assert (forall x :: x in forms && st.length(x) > 0 ==> x in matched) <==> forall x :: x in forms ==> hit(x);
  }

  lemma FormsShare(compact: Id -> Id, anchors: seq<Id>, p: Id -> bool)
    ensures (forall x :: x in Map(compact, anchors) ==> p(x)) <==> forall a :: a in anchors ==> p(compact(a))
  {
    FormsOf(compact, anchors);
    var forms := Map(compact, anchors);
    if forall a :: a in anchors ==> p(compact(a)) {
      forall x | x in forms ensures p(x) {
        var a :| a in anchors && compact(a) == x;
      }
    }
    if forall x :: x in forms ==> p(x) {
      forall a | a in anchors ensures p(compact(a)) {
        assert compact(a) in forms;
      }
    }
  }

  lemma FormsOf(compact: Id -> Id, anchors: seq<Id>)
    ensures forall x :: x in Map(compact, anchors) ==> exists a :: a in anchors && compact(a) == x
    ensures forall a :: a in anchors ==> compact(a) in Map(compact, anchors)
  {
    var forms := Map(compact, anchors);
    forall x | x in forms ensures exists a :: a in anchors && compact(a) == x {
      var i :| 0 <= i < |forms| && forms[i] == x;
      var a := anchors[i];
      assert a in anchors && compact(a) == x;
    }
    forall a | a in anchors ensures compact(a) in forms {
      var i :| 0 <= i < |anchors| && anchors[i] == a;
      assert forms[i] in forms;
    }
  }

  /** Every feature that a chunk has lies between zero and one. */
  lemma EvidenceInRange(st: Setting, c: Chunk)
    ensures var e := EvidenceOf(st, c);
      UnitOrMissing(e.exact) && UnitOrMissing(e.required) && UnitOrMissing(e.constraint) && UnitOrMissing(e.proximity)
  {
    hide CoverageIn, Positions, Proximity;
    CoverageInMeans(st, c, st.exact);
    CoverageInMeans(st, c, st.required);
    CoverageInMeans(st, c, st.numeric);
    CoverageInMeans(st, c, st.negation);
    MeanInRange(CoverageIn(st, c, st.numeric), CoverageIn(st, c, st.negation));
    ProximityIsLeastDistance(Positions(st, c));
  }

  // ------------------------------------------------------------------------ reranking

  datatype Rescored = Rescored(hit: Hit, score: real)

  function FeaturesOf(e: Evidence, rank: nat, count: nat): Features
    requires 1 <= rank <= count
  {
    Features(InitialRank(rank, count), e.exact, e.required, e.constraint, e.proximity)
  }

  /** Higher new scores first, then higher old scores, then the order of ids. */
  predicate Ahead(a: Rescored, b: Rescored)
  {
    a.score > b.score || (a.score == b.score && Before(a.hit, b.hit))
  }

  ghost function Rescore(st: Setting, chunks: map<Id, Chunk>, hit: Hit, rank: nat, count: nat): Rescored
    requires hit.id in chunks && 1 <= rank <= count
  {
    Rescored(hit, st.round(WeightedMean(FeaturesOf(EvidenceOf(st, chunks[hit.id]), rank, count))))
  }

  predicate AllKnown(chunks: map<Id, Chunk>, hits: seq<Hit>) { forall i :: 0 <= i < |hits| ==> hits[i].id in chunks }

  /** The hits of the pool with their new scores. */
  ghost function Rescorings(st: Setting, chunks: map<Id, Chunk>, hits: seq<Hit>): (r: seq<Rescored>)
    requires AllKnown(chunks, hits)
    ensures |r| == |hits| && forall i :: 0 <= i < |r| ==> r[i].hit == hits[i]
  {
    seq(|hits|, i requires 0 <= i < |hits| => Rescore(st, chunks, hits[i], i + 1, |hits|))
  }

  /** The reranked hits, or nothing when a hit has no chunk. */
  ghost function Reranked(st: Setting, chunks: map<Id, Chunk>, hits: seq<Hit>, topK: nat): Option<seq<Rescored>>
  {
    if AllKnown(chunks, hits) then Some(Truncate(topK, Sort(Ahead, Rescorings(st, chunks, hits)))) else None
  }

  method Rerank(st: Setting, chunks: map<Id, Chunk>, hits: seq<Hit>, topK: nat) returns (result: Option<seq<Rescored>>)
    requires topK > 0
    ensures result == Reranked(st, chunks, hits, topK)
  {
    hide EvidenceOf, WeightedMean;
    var scored: seq<Rescored> := [];
    for i := 0 to |hits|
      invariant forall k :: 0 <= k < i ==> hits[k].id in chunks
      invariant |scored| == i && forall k :: 0 <= k < i ==> scored[k] == Rescore(st, chunks, hits[k], k + 1, |hits|)
    {
      if hits[i].id !in chunks { return None; }
      var evidence := MeasureEvidence(st, chunks[hits[i].id]);
      scored := scored + [Rescored(hits[i], st.round(WeightedMean(FeaturesOf(evidence, i + 1, |hits|))))];
    }
    assert scored == Rescorings(st, chunks, hits);
    result := Some(Truncate(topK, Sort(Ahead, scored)));
  }

  lemma RescoreInRange(st: Setting, chunks: map<Id, Chunk>, hit: Hit, rank: nat, count: nat)
    requires Rounds(st.round) && hit.id in chunks && 1 <= rank <= count
    ensures Unit(Rescore(st, chunks, hit, rank, count).score)
  {
    hide EvidenceOf, WeightedMean, InitialRank;
    var e := EvidenceOf(st, chunks[hit.id]);
    EvidenceInRange(st, chunks[hit.id]);
    InitialRankInRange(rank, count);
    MeanScoreInRange(FeaturesOf(e, rank, count));
  }

  lemma AllInRange(st: Setting, chunks: map<Id, Chunk>, hits: seq<Hit>)
    requires Rounds(st.round) && AllKnown(chunks, hits)
    ensures forall r :: r in Rescorings(st, chunks, hits) ==> Unit(r.score)
  {
    hide Rescore;
    var all := Rescorings(st, chunks, hits);
    forall i | 0 <= i < |all| ensures Unit(all[i].score) {
      RescoreInRange(st, chunks, hits[i], i + 1, |hits|);
    }
  }

  lemma RescoringsOrdered(st: Setting, chunks: map<Id, Chunk>, hits: seq<Hit>)
    requires AllKnown(chunks, hits) && UniqueKeys(HitId, hits) && Distinct(hits)
    ensures LinearOn(Ahead, Rescorings(st, chunks, hits))
  {
    hide Rescorings, Rescore, WeightedMean;
    var all := Rescorings(st, chunks, hits);
    OneRescoringEach(hits, all);
    AheadIsLinear(all);
  }

  lemma OneRescoringEach(hits: seq<Hit>, all: seq<Rescored>)
    requires UniqueKeys(HitId, hits) && Distinct(hits)
    requires |all| == |hits| && forall i :: 0 <= i < |hits| ==> all[i].hit == hits[i]
    ensures forall a, b :: a in all && b in all && a.hit.id == b.hit.id ==> a == b
  {
    forall a, b | a in all && b in all && a.hit.id == b.hit.id ensures a == b {
      var i :| 0 <= i < |all| && all[i] == a;
      var j :| 0 <= j < |all| && all[j] == b;
      assert hits[i] in hits && hits[j] in hits && HitId(hits[i]) == HitId(hits[j]);
    }
  }

  lemma AheadIsLinear(all: seq<Rescored>)
    requires forall a, b :: a in all && b in all && a.hit.id == b.hit.id ==> a == b
    ensures LinearOn(Ahead, all)
  {
  }

  // ------------------------------------------------------------------- the candidate pool

  function PoolSize(topK: nat): nat
  {
    var wide := if 3 * topK < 50 then 3 * topK else 50;
    if topK >= wide then topK else wide
  }

  /** The pool always has room for the result and is bounded, and a larger result never
      gets a smaller pool. */
  lemma PoolSizeBounds(k: nat, j: nat)
    ensures k <= PoolSize(k) <= 3 * k && PoolSize(k) <= (if k > 50 then k else 50)
    ensures k <= j ==> PoolSize(k) <= PoolSize(j)
  {
  }

  // ------------------------------------------------------------------- both stages

  /** The chunks by id. */
  function Index(corpus: seq<Chunk>): map<Id, Chunk>
  {
    if corpus == [] then map[]
    else
      var last := corpus[|corpus| - 1];
      Index(corpus[..|corpus| - 1])[last.id := last]
  }

  lemma {:induction false} IndexMembers(corpus: seq<Chunk>)
    ensures forall k :: k in Index(corpus) ==> Index(corpus)[k] in corpus && Index(corpus)[k].id == k
    ensures forall c :: c in corpus ==> c.id in Index(corpus)
  {
    if corpus != [] {
      SnocParts(corpus);
      IndexMembers(corpus[..|corpus| - 1]);
    }
  }

  ghost predicate NoRepeatedIds(corpus: seq<Chunk>) { Distinct(corpus) && UniqueKeys(ChunkId, corpus) }

  lemma IndexCanonical(s: seq<Chunk>, t: seq<Chunk>)
    requires UniqueKeys(ChunkId, s) && multiset(s) == multiset(t)
    ensures Index(s) == Index(t)
  {
    MultisetMembers(s, t);
    IndexMembers(s);
    IndexMembers(t);
    forall k | k in Index(s) ensures k in Index(t) && Index(t)[k] == Index(s)[k] {
      assert ChunkId(Index(t)[k]) == ChunkId(Index(s)[k]);
    }
    forall k | k in Index(t) ensures k in Index(s) {
      assert Index(t)[k] in s;
    }
  }

  /** The hits of retrieval have chunks, and no two share one. */
  lemma HitsAreIndexed(m: Model, q: Query, topK: nat, corpus: seq<Chunk>)
    requires NoRepeatedIds(corpus)
    ensures var hits := Retrieved(m, q, topK, corpus);
      AllKnown(Index(corpus), hits) && UniqueKeys(HitId, hits) && Distinct(hits)
  {
    hide Index, Retrieved;
    var hits := Retrieved(m, q, topK, corpus);
    IndexMembers(corpus);
    HitsHaveUniqueIds(m, q, topK, corpus);
    forall i | 0 <= i < |hits| ensures hits[i].id in Index(corpus) {
      HitsAreJustified(m, q, topK, corpus, hits[i]);
    }
  }

  /** For every query on a corpus without repeated ids the two stages succeed and return
      exactly the first topK hits of the pool under its total order, each with a new score
      between zero and one; fewer only when retrieval has fewer. */
  lemma RerankedIsTop(m: Model, q: Query, st: Setting, topK: nat, corpus: seq<Chunk>)
    requires Rounds(st.round) && NoRepeatedIds(corpus)
    ensures var hits := Retrieved(m, q, PoolSize(topK), corpus);
      && AllKnown(Index(corpus), hits) && Reranked(st, Index(corpus), hits, topK).Some?
      && var all := Rescorings(st, Index(corpus), hits);
      var top := Reranked(st, Index(corpus), hits, topK).value;
      && |top| == (if |Ranked(m, q, corpus)| <= topK then |Ranked(m, q, corpus)| else topK)
      && SortedBy(Ahead, top)
      && (forall r :: r in top ==> r in all && Unit(r.score))
      && (forall r, other :: r in top && other in all && other !in top ==> Ahead(r, other))
  {
    hide Index, Rescorings, Ranked, Before;
    var hits := Retrieved(m, q, PoolSize(topK), corpus);
    HitsAreIndexed(m, q, PoolSize(topK), corpus);
    RescoringsOrdered(st, Index(corpus), hits);
    TruncateKeepsTop(Ahead, Rescorings(st, Index(corpus), hits), topK);
    AllInRange(st, Index(corpus), hits);
    PoolSizeBounds(topK, topK);
  }

  /** Retrieval followed by reranking is a function of the set of chunks. */
  lemma TwoStagesAreCanonical(m: Model, q: Query, st: Setting, topK: nat, s: seq<Chunk>, t: seq<Chunk>)
    requires UniqueKeys(ChunkId, s) && multiset(s) == multiset(t)
    ensures Reranked(st, Index(s), Retrieved(m, q, PoolSize(topK), s), topK) ==
      Reranked(st, Index(t), Retrieved(m, q, PoolSize(topK), t), topK)
  {
    hide *;
    RetrievalIsCanonical(m, q, PoolSize(topK), s, t);
    IndexCanonical(s, t);
  }
}
