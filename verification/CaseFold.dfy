/** Searching case-folded text and reporting offsets of the original text. */
module CaseFold {
  import opened Ordering

  /** Characters; folding maps each to any number of characters. */
  type Char = int

  type Fold = Char -> seq<Char>

  function Folded(fold: Fold, text: seq<Char>): seq<Char>
  {
    if text == [] then [] else Folded(fold, text[..|text| - 1]) + fold(text[|text| - 1])
  }

  predicate OccursAt(haystack: seq<Char>, needle: seq<Char>, k: nat)
  {
    k + |needle| <= |haystack| && haystack[k..k + |needle|] == needle
  }

  ghost predicate Occurs(haystack: seq<Char>, needle: seq<Char>) { exists k: nat :: OccursAt(haystack, needle, k) }

  /** haystack.find(needle), searching from position k. */
  function FindFrom(haystack: seq<Char>, needle: seq<Char>, k: nat): (r: Option<nat>)
    ensures r.Some? ==> k <= r.value && OccursAt(haystack, needle, r.value)
    ensures r.Some? ==> forall m: nat :: k <= m < r.value ==> !OccursAt(haystack, needle, m)
    ensures r.None? ==> forall m: nat :: k <= m ==> !OccursAt(haystack, needle, m)
    decreases |haystack| - k
  {
    if OccursAt(haystack, needle, k) then Some(k)
    else if k < |haystack| then FindFrom(haystack, needle, k + 1)
    else None
  }

  /** How far the first n characters reach in the folded text. */
  function Offset(fold: Fold, text: seq<Char>, n: nat): nat
    requires n <= |text|
  {
    |Folded(fold, text[..n])|
  }

  /** The characters a to b - 1 produce exactly the folded positions from Offset(a) to
      Offset(b); the span covers positions s to e - 1. */
  predicate Covers(fold: Fold, text: seq<Char>, a: nat, b: nat, s: nat, e: nat)
  {
    a <= b <= |text| && Offset(fold, text, a) <= s && e <= Offset(fold, text, b)
  }

  /** The least span that covers the folded positions s to e - 1. */
  ghost predicate Tight(fold: Fold, text: seq<Char>, a: nat, b: nat, s: nat, e: nat)
  {
    && a < b && Covers(fold, text, a, b, s, e)
    && forall c: nat, d: nat :: Covers(fold, text, c, d, s, e) ==> c <= a && b <= d
  }

  lemma OffsetStep(fold: Fold, text: seq<Char>, n: nat)
    requires n < |text|
    ensures Offset(fold, text, n + 1) == Offset(fold, text, n) + |fold(text[n])|
  {
    TakeStep(text, n);
    DropSnoc(text[..n], text[n]);
  }

  lemma {:induction false} OffsetMonotone(fold: Fold, text: seq<Char>, m: nat, n: nat)
    requires m <= n <= |text|
    ensures Offset(fold, text, m) <= Offset(fold, text, n)
  {
    if m < n {
      OffsetMonotone(fold, text, m, n - 1);
      OffsetStep(fold, text, n - 1);
    }
  }

  lemma {:induction false} FoldedAppend(fold: Fold, a: seq<Char>, b: seq<Char>)
    ensures Folded(fold, a + b) == Folded(fold, a) + Folded(fold, b)
  {
    if b == [] {
      assert a + b == a;
    } else {
      var front, c := b[..|b| - 1], b[|b| - 1];
      FoldedAppend(fold, a, front);
      assert (a + b)[..|a + b| - 1] == a + front;
      assert Folded(fold, a) + (Folded(fold, front) + fold(c)) == Folded(fold, a) + Folded(fold, front) + fold(c);
    }
  }

  /** The folded text of characters a to b - 1 is the folded text between their offsets. */
  lemma FoldedSpan(fold: Fold, text: seq<Char>, a: nat, b: nat)
    requires a <= b <= |text|
    ensures Offset(fold, text, a) <= Offset(fold, text, b) <= |Folded(fold, text)|
    ensures Folded(fold, text[a..b]) == Folded(fold, text)[Offset(fold, text, a)..Offset(fold, text, b)]
  {
    hide Folded;
    assert text[..a] + text[a..b] == text[..b] && text[..b] + text[b..] == text;
    FoldedAppend(fold, text[..a], text[a..b]);
    FoldedAppend(fold, text[..b], text[b..]);
    MiddlePart(Folded(fold, text[..a]), Folded(fold, text[a..b]), Folded(fold, text[b..]));
  }

  lemma MiddlePart(a: seq<Char>, m: seq<Char>, b: seq<Char>)
    ensures (a + m + b)[|a|..|a + m|] == m
  {
  }

  /** Every folded position belongs to the character recorded for it. */
  ghost predicate Records(fold: Fold, text: seq<Char>, n: nat, indices: seq<nat>)
    requires n <= |text|
  {
    && |indices| == Offset(fold, text, n)
    && forall p :: 0 <= p < |indices| ==>
      indices[p] < n && Offset(fold, text, indices[p]) <= p < Offset(fold, text, indices[p] + 1)
  }

  method FoldText(fold: Fold, text: seq<Char>) returns (folded: seq<Char>, indices: seq<nat>)
    ensures folded == Folded(fold, text) && Records(fold, text, |text|, indices)
  {
    folded, indices := [], [];
    for i := 0 to |text|
      invariant folded == Folded(fold, text[..i]) && Records(fold, text, i, indices)
    {
      var part := fold(text[i]);
      OffsetStep(fold, text, i);
      TakeStep(text, i);
      DropSnoc(text[..i], text[i]);
      folded := folded + part;
      indices := indices + seq(|part|, _ => i);
    }
    TakeAll(text);
  }

  lemma SpanIsTight(fold: Fold, text: seq<Char>, indices: seq<nat>, s: nat, e: nat)
    requires Records(fold, text, |text|, indices) && s < e <= |indices|
    ensures indices[s] <= indices[e - 1] && Tight(fold, text, indices[s], indices[e - 1] + 1, s, e)
  {
    hide Folded, Offset;
    var a, b := indices[s], indices[e - 1] + 1;
    assert a < |text| && Offset(fold, text, a) <= s < Offset(fold, text, a + 1);
    assert b <= |text| && Offset(fold, text, b - 1) <= e - 1 < Offset(fold, text, b);
    if a >= b { OffsetMonotone(fold, text, b, a); }
    forall c: nat, d: nat | Covers(fold, text, c, d, s, e) ensures c <= a && b <= d {
      if c > a { OffsetMonotone(fold, text, a + 1, c); }
      if d < b { OffsetMonotone(fold, text, d, b - 1); }
    }
  }

  /** The characters of the needle stand one after the other from position k. */
  ghost predicate StandsAt(haystack: seq<Char>, needle: seq<Char>, k: nat)
  {
    k + |needle| <= |haystack| && forall i :: k <= i < k + |needle| ==> haystack[i] == needle[i - k]
  }

  lemma OccursIff(haystack: seq<Char>, needle: seq<Char>)
    ensures Occurs(haystack, needle) <==> exists k: nat :: StandsAt(haystack, needle, k)
  {
    forall k: nat ensures OccursAt(haystack, needle, k) <==> StandsAt(haystack, needle, k) {
      if k + |needle| <= |haystack| {
        var part := haystack[k..k + |needle|];
        if part == needle { assert forall i :: k <= i < k + |needle| ==> haystack[i] == part[i - k]; }
      }
    }
  }

  /** The least span starts with the character that produced the first folded position and
      ends with the one that produced the last. */
  lemma TightIff(fold: Fold, text: seq<Char>, a: nat, b: nat, s: nat, e: nat)
    requires s < e <= |Folded(fold, text)|
    ensures Tight(fold, text, a, b, s, e) <==>
      && a < b <= |text|
      && |Folded(fold, text[..a])| <= s < |Folded(fold, text[..a + 1])|
      && |Folded(fold, text[..b - 1])| < e <= |Folded(fold, text[..b])|
  {
    hide Folded;
    if a < b && Covers(fold, text, a, b, s, e) {
      if Offset(fold, text, a + 1) <= s {
        assert Covers(fold, text, a + 1, b, s, e);
        assert !Tight(fold, text, a, b, s, e);
      } else if e <= Offset(fold, text, b - 1) {
        assert Covers(fold, text, a, b - 1, s, e);
        assert !Tight(fold, text, a, b, s, e);
      } else {
        forall c: nat, d: nat | Covers(fold, text, c, d, s, e) ensures c <= a && b <= d {
          if c > a { OffsetMonotone(fold, text, a + 1, c); }
          if d < b { OffsetMonotone(fold, text, d, b - 1); }
        }
      }
    }
  }

  /** _casefold_span: the least span around the first occurrence of the folded query, or
      nothing exactly when the folded query is empty or does not occur. */
  method CasefoldSpan(fold: Fold, text: seq<Char>, query: seq<Char>) returns (span: Option<(nat, nat)>)
    ensures span.None? <==> Folded(fold, query) == [] || !Occurs(Folded(fold, text), Folded(fold, query))
    ensures span.Some? ==> exists s: nat ::
      && OccursAt(Folded(fold, text), Folded(fold, query), s)
      && Tight(fold, text, span.value.0, span.value.1, s, s + |Folded(fold, query)|)
    ensures span.Some? ==> span.value.0 < span.value.1 <= |text|
    ensures span.Some? ==> Occurs(Folded(fold, text[span.value.0..span.value.1]), Folded(fold, query))
  {
    hide Folded, FindFrom, Records, Tight, OccursAt;
    var folded, indices := FoldText(fold, text);
    var needle := Folded(fold, query);
    var start := FindFrom(folded, needle, 0);
    if start.None? || needle == [] { return None; }
    var s, e := start.value, start.value + |needle|;
    RecordedLength(fold, text, indices);
    Bounded(folded, needle, s);
    SpanIsTight(fold, text, indices, s, e);
    ghost var a, b := indices[s], indices[e - 1] + 1;
    TightCovers(fold, text, a, b, s, e);
    SpanContains(fold, text, needle, a, b, s);
    span := Some((indices[s], indices[e - 1] + 1));
  }

  lemma RecordedLength(fold: Fold, text: seq<Char>, indices: seq<nat>)
    requires Records(fold, text, |text|, indices)
    ensures |indices| == |Folded(fold, text)|
  {
    TakeAll(text);
  }

  lemma Bounded(haystack: seq<Char>, needle: seq<Char>, k: nat)
    requires OccursAt(haystack, needle, k)
    ensures k + |needle| <= |haystack|
  {
  }

  lemma TightCovers(fold: Fold, text: seq<Char>, a: nat, b: nat, s: nat, e: nat)
    requires Tight(fold, text, a, b, s, e)
    ensures a < b <= |text| && Covers(fold, text, a, b, s, e)
  {
  }

  lemma SpanContains(fold: Fold, text: seq<Char>, needle: seq<Char>, a: nat, b: nat, s: nat)
    requires OccursAt(Folded(fold, text), needle, s) && Covers(fold, text, a, b, s, s + |needle|)
    ensures Occurs(Folded(fold, text[a..b]), needle)
  {
    FoldedSpan(fold, text, a, b);
    var whole, part, o := Folded(fold, text), Folded(fold, text[a..b]), Offset(fold, text, a);
    assert part[s - o..s - o + |needle|] == whole[s..s + |needle|];
    assert OccursAt(part, needle, s - o);
  }

  lemma NothingFoldsAway(fold: Fold, query: seq<Char>)
    requires query != [] && forall c {:trigger fold(c)} :: |fold(c)| > 0
    ensures Folded(fold, query) != []
  {
    var last := query[|query| - 1];
    assert |fold(last)| > 0;
  }

  /** A search that tests for the folded query first and then asks for its span: when no
      character folds away, the span is always there, so a second guard never fires. */
  method FindSpan(fold: Fold, text: seq<Char>, query: seq<Char>) returns (span: Option<(nat, nat)>)
    requires query != [] && forall c {:trigger fold(c)} :: |fold(c)| > 0
    ensures span.Some? <==> Occurs(Folded(fold, text), Folded(fold, query))
    ensures span.Some? ==> span.value.0 < span.value.1 <= |text|
    ensures span.Some? ==> Occurs(Folded(fold, text[span.value.0..span.value.1]), Folded(fold, query))
  {
    NothingFoldsAway(fold, query);
    var found := FindFrom(Folded(fold, text), Folded(fold, query), 0);
    if found.None? { return None; }
    assert OccursAt(Folded(fold, text), Folded(fold, query), found.value);
    span := CasefoldSpan(fold, text, query);
    assert span.Some?;
  }
}
