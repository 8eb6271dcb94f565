/** Which chunks pass the filter, what a score is made of, and which hits survive, with the
    weights and thresholds written out. */
module Relevance {
  import opened Collecting
  import opened Ordering
  import opened Retrieval
  import opened Reranking

  // ---------------------------------------------------------------------- the filter

  /** A chunk passes when every nonempty list admits it: source and evidence for every chunk,
      documents and clauses for contract chunks, rules for the others. */
  lemma MatchesIff(f: Filter, c: Chunk)
    ensures Matches(f, c) <==>
      && (f.sourceNames != {} ==> c.sourceName in f.sourceNames)
      && (f.sourceHashes != {} ==> c.sourceHash in f.sourceHashes)
      && (f.sourceVersions != {} ==> c.sourceVersion in f.sourceVersions)
      && (f.kinds != {} ==> c.isContract in f.kinds)
      && (f.evidenceIds != {} ==> c.evidenceIds <= f.evidenceIds)
      && (c.isContract && f.documentKinds != {} ==> c.documentKind in f.documentKinds)
      && (c.isContract && f.documentIds != {} ==> c.documentId in f.documentIds)
      && (c.isContract && f.clauseIds != {} ==> exists x :: x in c.clauseIds && x in f.clauseIds)
      && (!c.isContract && f.ruleVersions != {} ==> c.ruleVersion in f.ruleVersions)
      && (!c.isContract && f.ruleIds != {} ==> c.ruleId in f.ruleIds)
  {
    Share(c.clauseIds, f.clauseIds);
  }

  lemma Share(a: set<Id>, b: set<Id>)
    ensures a * b != {} <==> exists x :: x in a && x in b
  {
    if a * b != {} {
      var x := PickOne(a * b);
      assert x in a && x in b;
    }
    if x :| x in a && x in b { assert x in a * b; }
  }

  // ------------------------------------------------------------------- the statistics

  /** The candidates that contain the term. */
  function Containing(candidates: seq<Chunk>, term: Id): set<nat>
  {
    set i: nat | i < |candidates| && term in candidates[i].counts
  }

  lemma {:induction false} FrequencyCounts(candidates: seq<Chunk>, term: Id)
    ensures Frequency(candidates, term) == |Containing(candidates, term)|
  {
    if candidates != [] {
      var n := |candidates| - 1;
      var front := candidates[..n];
      FrequencyCounts(front, term);
      if term in candidates[n].counts {
        assert Containing(candidates, term) == Containing(front, term) + {n};
      } else {
        assert Containing(candidates, term) == Containing(front, term);
      }
    }
  }

  lemma {:induction false} LengthsAdd(candidates: seq<Chunk>)
    ensures Total(LengthOf, candidates) == Total((c: Chunk) => c.length, candidates)
  {
    if candidates != [] { LengthsAdd(candidates[..|candidates| - 1]); }
  }

  lemma FrequencyFound(candidates: seq<Chunk>, term: Id)
    ensures (if term in Frequencies(candidates) then Frequencies(candidates)[term] else 0) ==
      |Containing(candidates, term)|
  {
    FrequencyCounts(candidates, term);
    if term !in Frequencies(candidates) {
      forall i: nat | i < |candidates| ensures term !in candidates[i].counts {
        assert candidates[i] in candidates;
      }
      assert Containing(candidates, term) == {};
    }
    hide Frequency;
  }

  /** Statistics of the candidates: how many contain a term, and their average length. */
  lemma StatisticsMean(candidates: seq<Chunk>, term: Id)
    ensures (if term in Frequencies(candidates) then Frequencies(candidates)[term] else 0) ==
      |Containing(candidates, term)|
    ensures AverageLength(candidates) * |candidates| as real == Total((c: Chunk) => c.length, candidates) as real
  {
    hide Frequencies, Containing;
    FrequencyFound(candidates, term);
    LengthsAdd(candidates);
    if candidates == [] { assert Total((c: Chunk) => c.length, candidates) == 0; }
  }

  // ---------------------------------------------------------------------- the scores

  /** A matched term adds its frequency in the chunk, dampened by the length of the chunk and
      weighted by its rarity. */
  lemma TermScoreMeans(m: Model, n: nat, average: real, frequency: map<Id, nat>, c: Chunk, term: Id)
    requires term in c.counts && c.counts[term] > 0
    ensures var f, ratio := c.counts[term] as real, c.length as real / (if average >= 1.0 then average else 1.0);
      TermScore(m, n, average, frequency, c, term) * (f + 1.2 * (0.25 + 0.75 * ratio)) ==
        m.idf(n, if term in frequency then frequency[term] else 0) * f * 2.2
  {
    var f, length := c.counts[term] as real, c.length as real;
    var a := if average >= 1.0 then average else 1.0;
    var ratio := length / a;
    assert B * length / a == 0.75 * ratio by { Divided(length, a); }
    var norm := f + 1.2 * (0.25 + 0.75 * ratio);
    assert ratio >= 0.0 by { Nonnegative(length, a); }
    assert norm >= 1.0;
    assert K1 * (1.0 - B + B * length / Larger(average, 1.0)) == 1.2 * (0.25 + 0.75 * ratio);
    var top := m.idf(n, if term in frequency then frequency[term] else 0) * f * (K1 + 1.0);
    assert TermScore(m, n, average, frequency, c, term) == top / norm;
  }

  lemma Divided(x: real, a: real)
    requires a > 0.0
    ensures B * x / a == 0.75 * (x / a)
  {
    var y := x / a;
    assert x == y * a;
    assert (B * x) / a == (0.75 * y * a) / a;
  }

  lemma Nonnegative(x: real, a: real)
    requires x >= 0.0 && a > 0.0
    ensures x / a >= 0.0
  {
  }

  /** Terms add up, and so do the boosts: one for the whole query and for each exact anchor,
      ten for each anchor of a required fact, a half for each number and negation. */
  lemma ScoreMeans(m: Model, n: nat, average: real, frequency: map<Id, nat>, c: Chunk, terms: seq<Id>, term: Id,
                   r: Reading)
    ensures TermScores(m, n, average, frequency, c, []) == 0.0
    ensures TermScores(m, n, average, frequency, c, terms + [term]) ==
      TermScores(m, n, average, frequency, c, terms) + TermScore(m, n, average, frequency, c, term)
    ensures Boosts(r) == (if r.phrase then 1.0 else 0.0) + r.exact as real + 10.0 * r.required as real
      + (r.numeric + r.negation) as real / 2.0
  {
    DropSnoc(terms, term);
    hide TermScore;
  }

  // ------------------------------------------------------------------ what survives

  /** The score of a chunk before rounding. */
  function ScoreIn(m: Model, q: Query, candidates: seq<Chunk>, c: Chunk): real
  {
    TermScores(m, |candidates|, AverageLength(candidates), Frequencies(candidates), c, q.read(c).matched)
      + Boosts(q.read(c))
  }

  /** Named so precisely that the thresholds do not apply. */
  predicate Exempt(q: Query, c: Chunk)
  {
    !c.isContract || q.locatesElements || q.read(c).precise || q.read(c).exactPhrase
  }

  /** A chunk is scored when it has a term or an exact anchor of the query, when a contract
      chunk has an anchor of the facts the query requires, and when its score reaches four or
      it is exempt. */
  predicate IsScored(m: Model, q: Query, candidates: seq<Chunk>, c: Chunk)
  {
    && (|q.read(c).matched| > 0 || q.read(c).exact > 0)
    && (c.isContract && q.requiresFacts ==> q.read(c).required > 0)
    && (ScoreIn(m, q, candidates, c) >= 4.0 || Exempt(q, c))
  }

  function ScoredAs(m: Model, q: Query, candidates: seq<Chunk>, c: Chunk): Hit
  {
    Hit(c.id, m.round(ScoreIn(m, q, candidates, c)), c.isContract,
        c.isContract && (q.read(c).precise || q.read(c).exactPhrase))
  }

  lemma HitIff(m: Model, q: Query, candidates: seq<Chunk>, c: Chunk)
    ensures HitIn(m, q, candidates, c) ==
      if IsScored(m, q, candidates, c) then Some(ScoredAs(m, q, candidates, c)) else None
  {
    hide TermScores, Boosts, AverageLength, Frequencies;
  }

  /** No scored contract chunk has a higher rounded score. */
  ghost predicate IsBest(m: Model, q: Query, candidates: seq<Chunk>, best: real)
  {
    && (forall c :: c in candidates && c.isContract && IsScored(m, q, candidates, c) ==>
          ScoredAs(m, q, candidates, c).score <= best)
    && (best != 0.0 ==>
          exists c :: c in candidates && c.isContract && IsScored(m, q, candidates, c)
            && ScoredAs(m, q, candidates, c).score == best)
  }

  /** Reaches 55 percent of a positive best score, or is exempt. */
  predicate Near(q: Query, c: Chunk, score: real, best: real)
  {
    best <= 0.0 || score >= best * 0.55 || Exempt(q, c)
  }

  lemma BestIs(m: Model, q: Query, candidates: seq<Chunk>)
    requires exists c :: c in candidates && c.isContract && IsScored(m, q, candidates, c)
    ensures IsBest(m, q, candidates, Best(Scored(m, q, candidates)))
  {
    var hits := Scored(m, q, candidates);
    ScoredMembers(m, q, candidates);
    BestIsMaximum(hits);
    forall c ensures HitIn(m, q, candidates, c) ==
      if IsScored(m, q, candidates, c) then Some(ScoredAs(m, q, candidates, c)) else None
    {
      HitIff(m, q, candidates, c);
    }
    hide HitIn, IsScored, ScoreIn, Scored, Best;
  }

  /** Exactly the scored candidates that are near the best are ranked. */
  lemma RankedIff(m: Model, q: Query, corpus: seq<Chunk>, h: Hit)
    ensures var candidates := Candidates(q, corpus);
      h in Ranked(m, q, corpus) <==>
        exists c :: c in corpus && Matches(q.filter, c) && IsScored(m, q, candidates, c)
          && h == ScoredAs(m, q, candidates, c) && Near(q, c, h.score, Best(Scored(m, q, candidates)))
  {
    var candidates := Candidates(q, corpus);
    var hits := Scored(m, q, candidates);
    MultisetMembers(Sort(Before, Survivors(q, hits)), Survivors(q, hits));
    SurvivorsMembers(q, hits);
    ScoredMembers(m, q, candidates);
    CandidatesMembers(q, corpus);
    forall c ensures HitIn(m, q, candidates, c) ==
      if IsScored(m, q, candidates, c) then Some(ScoredAs(m, q, candidates, c)) else None
    {
      HitIff(m, q, candidates, c);
    }
    hide HitIn, IsScored, ScoreIn, Scored, Best, Candidates, Matches, Survivors, Sort;
  }

  // --------------------------------------------------------------------- the second stage

  function Or(x: Option<real>, y: real): real { if x.Some? then x.value else y }

  function Present(x: Option<real>): real { if x.Some? then 1.0 else 0.0 }

  /** The new score is the mean of the features present, weighted 20 for the first rank, 25 for
      exact anchors, 30 for required facts, 15 for constraints and 10 for proximity. */
  lemma WeightsAre(f: Features)
    ensures WeightedMean(f) * (20.0 + 25.0 * Present(f.exact) + 30.0 * Present(f.required)
        + 15.0 * Present(f.constraint) + 10.0 * Present(f.proximity)) ==
      20.0 * f.initialRank + 25.0 * Or(f.exact, 0.0) + 30.0 * Or(f.required, 0.0)
        + 15.0 * Or(f.constraint, 0.0) + 10.0 * Or(f.proximity, 0.0)
  {
    var a, b, c, d := Part(0.25, f.exact), Part(0.30, f.required), Part(0.15, f.constraint), Part(0.10, f.proximity);
    var top := 0.20 * f.initialRank + a.0 + b.0 + c.0 + d.0;
    var below := 0.20 + a.1 + b.1 + c.1 + d.1;
    Whole(top, below);
    PartMeans(0.25, f.exact);
    PartMeans(0.30, f.required);
    PartMeans(0.15, f.constraint);
    PartMeans(0.10, f.proximity);
    Hundredfold(WeightedMean(f), below, top);
    hide Part;
  }

  lemma PartMeans(weight: real, x: Option<real>)
    ensures Part(weight, x).0 == weight * Or(x, 0.0) && Part(weight, x).1 == weight * Present(x)
  {
    match x
    case Some(v) =>
      assert Or(x, 0.0) == v && Present(x) == 1.0;
      assert weight * Present(x) == weight;
    case None =>
      assert Or(x, 0.0) == 0.0 && Present(x) == 0.0;
      assert weight * Present(x) == 0.0;
  }

  lemma Whole(a: real, b: real)
    requires b > 0.0
    ensures a / b * b == a
  {
  }

  lemma Hundredfold(x: real, b: real, a: real)
    requires x * b == a
    ensures x * (100.0 * b) == 100.0 * a
  {
  }

  /** The first hit of the pool has rank one, the last one zero, and ranks fall evenly. */
  lemma RanksFall(rank: nat, count: nat)
    requires 1 <= rank <= count
    ensures rank == 1 ==> InitialRank(rank, count) == 1.0
    ensures count > 1 ==> (1.0 - InitialRank(rank, count)) * (count - 1) as real == (rank - 1) as real
  {
    if count > 1 { Whole((rank - 1) as real, (count - 1) as real); }
  }

  /** Anchors eighty characters apart or more are not near each other. */
  lemma GapsMean(gap: nat)
    ensures ProximityOf(gap) == if gap < 80 then 1.0 - gap as real / 80.0 else 0.0
  {
  }

  /** Matched length over whole length of the distinct, nonempty anchors. */
  lemma CoverageIs(length: Id -> nat, anchors: seq<Id>, matched: set<Id>)
    requires Coverage(length, anchors, matched).Some?
    ensures var normal := Normalised(length, anchors);
      && Distinct(normal) && (forall a :: a in normal <==> a in anchors && length(a) > 0)
      && Coverage(length, anchors, matched).value * Total(length, normal) as real ==
           Total((a: Id) => if a in matched then length(a) else 0, normal) as real
  {
    hide Normalised, Total, Weight, Distinct;
    var normal := Normalised(length, anchors);
    NormalisedMembers(length, anchors);
    NormalisedDistinct(length, anchors);
    LengthMatched(length, matched, normal);
    Whole(Weight(length, normal, matched) as real, Total(length, normal) as real);
  }

  lemma NormalisedDistinct(length: Id -> nat, anchors: seq<Id>)
    ensures Distinct(Normalised(length, anchors))
  {
    DedupDistinct(Collect((a: Id) => Kept(length(a) > 0, a), anchors));
  }

  lemma {:induction false} LengthMatched(length: Id -> nat, matched: set<Id>, anchors: seq<Id>)
    ensures Weight(length, anchors, matched) == Total((a: Id) => if a in matched then length(a) else 0, anchors)
  {
    if anchors != [] { LengthMatched(length, matched, anchors[..|anchors| - 1]); }
  }

  /** The feature for constraints is the mean of numbers and negations, or the one there is. */
  lemma ConstraintIs(a: Option<real>, b: Option<real>)
    ensures Mean(a, b).Some? <==> a.Some? || b.Some?
    ensures Mean(a, b).Some? ==>
      Mean(a, b).value * (Present(a) + Present(b)) == Or(a, 0.0) + Or(b, 0.0)
  {
  }

  /** Anchors of facts, numbers and negations, and exact ones of at least two characters. */
  predicate LookedFor(st: Setting, a: Id)
  {
    a in st.required || a in st.numeric || a in st.negation || (a in st.exact && st.length(st.compact(a)) >= 2)
  }

  predicate Occurs(st: Setting, c: Chunk, a: Id, p: int)
  {
    p in st.places(c, st.compact(a)) && st.length(st.compact(a)) > 0
  }

  /** Exactly the places of these anchors count. */
  lemma PositionsAre(st: Setting, c: Chunk, p: int)
    ensures p in Positions(st, c) <==> exists a :: LookedFor(st, a) && Occurs(st, c, a, p)
  {
    var f := (a: Id) => Kept(st.length(st.compact(a)) >= MIN_NEAR_LENGTH, a);
    var all := st.required + st.numeric + st.negation + Collect(f, st.exact);
    LongAnchors(st);
    NormalisedMembers(st.length, Map(st.compact, all));
    FormsOf(st.compact, all);
    assert NearAnchors(st) == Normalised(st.length, Map(st.compact, all));
    assert forall a :: a in all <==> LookedFor(st, a);
    hide NearAnchors, LookedFor, Collect, Normalised;
    PlacesOf(st, c, all, p);
  }

  lemma LongAnchors(st: Setting)
    ensures forall a :: a in Collect((x: Id) => Kept(st.length(st.compact(x)) >= MIN_NEAR_LENGTH, x), st.exact) <==>
      a in st.exact && st.length(st.compact(a)) >= 2
  {
    var f := (a: Id) => Kept(st.length(st.compact(a)) >= MIN_NEAR_LENGTH, a);
    CollectMembers(f, st.exact);
  }

  lemma PlacesOf(st: Setting, c: Chunk, all: seq<Id>, p: int)
    requires forall x :: x in NearAnchors(st) <==> x in Map(st.compact, all) && st.length(x) > 0
    requires forall x :: x in Map(st.compact, all) ==> exists a :: a in all && st.compact(a) == x
    requires forall a :: a in all ==> st.compact(a) in Map(st.compact, all)
    ensures p in Positions(st, c) <==> exists a :: a in all && Occurs(st, c, a, p)
  {
    hide NearAnchors;
    if p in Positions(st, c) {
      var x :| x in NearAnchors(st) && p in st.places(c, x);
      var a :| a in all && st.compact(a) == x;
      assert Occurs(st, c, a, p);
    }
    if a :| a in all && Occurs(st, c, a, p) {
      var x := st.compact(a);
      assert x in Map(st.compact, all);
      assert x in NearAnchors(st) && p in st.places(c, x);
    }
  }

  /** Three times the result, at most fifty, and never less than the result. */
  lemma PoolIs(k: nat)
    ensures PoolSize(k) == if k >= 50 then k else if 3 * k >= 50 then 50 else 3 * k
  {
  }
}
