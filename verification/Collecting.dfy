/** Filters, sums and concatenations of sequences, and what a permutation leaves alone. */
module Collecting {
  import opened Ordering

  /** [f(x) for x in s], without the elements for which there is none. */
  function Collect<S, T>(f: S -> Option<T>, s: seq<S>): seq<T>
  {
    if s == [] then []
    else Collect(f, s[..|s| - 1]) + match f(s[|s| - 1]) case Some(t) => [t] case None => []
  }

  function Kept<T>(keep: bool, x: T): Option<T> { if keep then Some(x) else None }

  function Total<T>(f: T -> nat, s: seq<T>): nat
  {
    if s == [] then 0 else Total(f, s[..|s| - 1]) + f(s[|s| - 1])
  }

  function Flatten<T>(parts: seq<seq<T>>): seq<T>
  {
    if parts == [] then [] else parts[0] + Flatten(parts[1..])
  }

  lemma RemoveLast<T>(s: seq<T>, t: seq<T>) returns (i: nat, rest: seq<T>)
    requires s != [] && multiset(s) == multiset(t)
    ensures i < |t| && t[i] == s[|s| - 1] && rest == t[..i] + t[i + 1..]
    ensures multiset(s[..|s| - 1]) == multiset(rest)
  {
    var x := s[|s| - 1];
    assert s == s[..|s| - 1] + [x];
    assert x in multiset(t);
    i :| 0 <= i < |t| && t[i] == x;
    rest := t[..i] + t[i + 1..];
    assert t == t[..i] + [x] + t[i + 1..];
    assert multiset(rest) == multiset(t) - multiset{x};
    assert multiset(s[..|s| - 1]) == multiset(s) - multiset{x};
  }

  lemma {:induction false} TotalAppend<T>(f: T -> nat, a: seq<T>, b: seq<T>)
    ensures Total(f, a + b) == Total(f, a) + Total(f, b)
  {
    if b == [] {
      assert a + b == a;
    } else {
      assert (a + b)[..|a + b| - 1] == a + b[..|b| - 1];
      TotalAppend(f, a, b[..|b| - 1]);
    }
  }

  lemma TotalOne<T>(f: T -> nat, x: T)
    ensures Total(f, [x]) == f(x)
  {
    assert [x][..0] == [];
  }

  lemma {:induction false} TotalPermuted<T>(f: T -> nat, s: seq<T>, t: seq<T>)
    requires multiset(s) == multiset(t)
    ensures Total(f, s) == Total(f, t)
  {
    if s == [] {
      assert |multiset(t)| == |t|;
      assert |multiset(s)| == 0;
    } else {
      var i, rest := RemoveLast(s, t);
      TotalPermuted(f, s[..|s| - 1], rest);
      assert t == t[..i] + [t[i]] + t[i + 1..];
      TotalAppend(f, t[..i] + [t[i]], t[i + 1..]);
      TotalAppend(f, t[..i], [t[i]]);
      TotalAppend(f, t[..i], t[i + 1..]);
      TotalOne(f, t[i]);
    }
  }

  lemma {:induction false} CollectAppend<S, T>(f: S -> Option<T>, a: seq<S>, b: seq<S>)
    ensures Collect(f, a + b) == Collect(f, a) + Collect(f, b)
  {
    if b == [] {
      assert a + b == a;
    } else {
      assert (a + b)[..|a + b| - 1] == a + b[..|b| - 1];
      CollectAppend(f, a, b[..|b| - 1]);
    }
  }

  /** Taking out one element takes out what it contributes. */
  lemma CollectWithout<S, T>(f: S -> Option<T>, t: seq<S>, i: nat)
    requires i < |t|
    ensures multiset(Collect(f, t)) == multiset(Collect(f, t[..i] + t[i + 1..])) + multiset(Collect(f, [t[i]]))
  {
    hide *;
    var a, b, x := t[..i], t[i + 1..], [t[i]];
    assert t == a + x + b;
    CollectAppend(f, a + x, b);
    CollectAppend(f, a, x);
    CollectAppend(f, a, b);
    MultisetMiddle(Collect(f, a), Collect(f, x), Collect(f, b));
  }

  lemma MultisetMiddle<T>(a: seq<T>, x: seq<T>, b: seq<T>)
    ensures multiset(a + x + b) == multiset(a + b) + multiset(x)
  {
  }

  lemma {:induction false} CollectPermuted<S, T>(f: S -> Option<T>, s: seq<S>, t: seq<S>)
    requires multiset(s) == multiset(t)
    ensures multiset(Collect(f, s)) == multiset(Collect(f, t))
  {
    if s == [] {
      assert |multiset(t)| == |t|;
      assert |multiset(s)| == 0;
    } else {
      var n := |s| - 1;
      var i, rest := RemoveLast(s, t);
      CollectPermuted(f, s[..n], rest);
      hide Collect;
      CollectWithout(f, t, i);
      CollectWithout(f, s, n);
      assert s[..n] + s[n + 1..] == s[..n];
    }
  }

  lemma {:induction false} CollectMembers<S(!new), T(!new)>(f: S -> Option<T>, s: seq<S>)
    ensures forall y :: y in Collect(f, s) <==> exists x :: x in s && f(x) == Some(y)
  {
    if s != [] {
      CollectMembers(f, s[..|s| - 1]);
      var last := s[|s| - 1];
      assert s == s[..|s| - 1] + [last];
    }
  }

  lemma {:induction false} TotalBelow<T>(f: T -> nat, g: T -> nat, s: seq<T>)
    requires forall x :: f(x) <= g(x)
    ensures Total(f, s) <= Total(g, s)
  {
    if s != [] { TotalBelow(f, g, s[..|s| - 1]); }
  }

  lemma {:induction false} TotalEqualIff<T(!new)>(f: T -> nat, g: T -> nat, s: seq<T>)
    requires forall x :: f(x) <= g(x)
    ensures Total(f, s) == Total(g, s) <==> forall x :: x in s ==> f(x) == g(x)
  {
    if s != [] {
      var front, last := s[..|s| - 1], s[|s| - 1];
      TotalEqualIff(f, g, front);
      TotalBelow(f, g, front);
      assert s == front + [last];
      assert last in s && forall x :: x in front ==> x in s;
    }
  }

  lemma {:induction false} TotalPositive<T(!new)>(f: T -> nat, s: seq<T>)
    requires s != [] && forall x :: x in s ==> f(x) > 0
    ensures Total(f, s) > 0
  {
    assert s[|s| - 1] in s;
  }

  lemma {:induction false} FlattenSnoc<T>(parts: seq<seq<T>>, last: seq<T>)
    ensures Flatten(parts + [last]) == Flatten(parts) + last
  {
    if parts == [] {
      assert [last][1..] == [];
      assert parts + [last] == [last];
      assert last + [] == last;
    } else {
      FlattenSnoc(parts[1..], last);
      assert (parts + [last])[1..] == parts[1..] + [last];
      assert parts[0] + (Flatten(parts[1..]) + last) == parts[0] + Flatten(parts[1..]) + last;
    }
  }

  lemma {:induction false} FlattenMembers<T(!new)>(parts: seq<seq<T>>)
    ensures forall x :: x in Flatten(parts) <==> exists i :: 0 <= i < |parts| && x in parts[i]
  {
    if parts != [] {
      var rest := parts[1..];
      FlattenMembers(rest);
      forall x ensures x in Flatten(parts) <==> exists i :: 0 <= i < |parts| && x in parts[i] {
        if x in Flatten(rest) {
          var i :| 0 <= i < |rest| && x in rest[i];
          assert x in parts[i + 1];
        }
        if i :| 0 <= i < |parts| && x in parts[i] {
          if i > 0 { assert x in rest[i - 1]; }
        }
      }
    }
  }

  /** In a concatenation without repetition no element lies in two parts. */
  lemma {:induction false} PartsAreDisjoint<T(!new)>(parts: seq<seq<T>>, i: nat, j: nat, x: T)
    requires Distinct(Flatten(parts)) && i < |parts| && j < |parts| && x in parts[i] && x in parts[j]
    ensures i == j
  {
    var tail, head, rest := parts[1..], parts[0], Flatten(parts[1..]);
    assert forall k :: 0 <= k < |tail| ==> tail[k] == parts[k + 1];
    assert (i > 0 ==> tail[i - 1] == parts[i]) && (j > 0 ==> tail[j - 1] == parts[j]);
    assert Flatten(parts) == head + rest;
    DistinctParts(head, rest);
    FlattenMembers(parts[1..]);
    if i > 0 && j > 0 {
      PartsAreDisjoint(parts[1..], i - 1, j - 1, x);
    }
  }

  lemma DistinctParts<T(!new)>(a: seq<T>, b: seq<T>)
    requires Distinct(a + b)
    ensures Distinct(a) && Distinct(b) && forall x :: x in a ==> x !in b
  {
    var s := a + b;
    forall i, j | 0 <= i < j < |a| ensures a[i] != a[j] { assert s[i] == a[i] && s[j] == a[j]; }
    forall i, j | 0 <= i < j < |b| ensures b[i] != b[j] { assert s[|a| + i] == b[i] && s[|a| + j] == b[j]; }
    forall x | x in a ensures x !in b {
      var i :| 0 <= i < |a| && a[i] == x;
      assert s[i] == x;
      assert forall j :: 0 <= j < |b| ==> s[|a| + j] == b[j];
    }
  }

  lemma MultisetDistinct<T(!new)>(s: seq<T>, t: seq<T>)
    requires multiset(s) == multiset(t) && Distinct(s)
    ensures Distinct(t)
  {
    forall i, j | 0 <= i < j < |t| ensures t[i] != t[j] {
      assert t == t[..j] + t[j..];
      assert t[i] in t[..j] && t[j] in t[j..];
      assert multiset(t) == multiset(t[..j]) + multiset(t[j..]);
      DistinctCounts(s, t[i]);
    }
  }

  lemma {:induction false} DistinctCounts<T(!new)>(s: seq<T>, x: T)
    requires Distinct(s)
    ensures multiset(s)[x] <= 1
  {
    if s != [] {
      var front, last := s[..|s| - 1], s[|s| - 1];
      assert s == front + [last];
      DistinctCounts(front, x);
      assert last !in front;
    }
  }

  /** What Collect finds for distinct elements is distinct when f tells them apart. */
  lemma {:induction false} CollectDistinct<S(!new), T(!new)>(f: S -> Option<T>, s: seq<S>)
    requires Distinct(s)
    requires forall x, y :: x in s && y in s && x != y && f(x).Some? ==> f(x) != f(y)
    ensures Distinct(Collect(f, s))
  {
    if s != [] {
      var front, last := s[..|s| - 1], s[|s| - 1];
      assert s == front + [last];
      assert last in s && last !in front && forall x :: x in front ==> x in s;
      CollectDistinct(f, front);
      CollectMembers(f, front);
      if f(last).Some? {
        assert f(last).value !in Collect(f, front);
        DistinctSnoc(Collect(f, front), f(last).value);
      }
    }
  }

  /** A filter keeps a list free of repetition. */
  lemma FilterDistinct<T(!new)>(f: T -> Option<T>, s: seq<T>)
    requires Distinct(s) && forall x :: f(x).Some? ==> f(x) == Some(x)
    ensures Distinct(Collect(f, s))
  {
    CollectDistinct(f, s);
  }

  // ------------------------------------------------------------- sorting and filtering

  /** Any two elements are comparable; elements of equal rank need not be equal. */
  ghost predicate IsPreorder<T(!new)>(le: (T, T) -> bool)
  {
    (forall x, y :: le(x, y) || le(y, x)) && forall x, y, z :: le(x, y) && le(y, z) ==> le(x, z)
  }

  lemma {:induction false} InsertOrdered<T(!new)>(le: (T, T) -> bool, x: T, s: seq<T>)
    requires IsPreorder(le) && SortedBy(le, s)
    ensures SortedBy(le, Insert(le, x, s))
  {
    var r := Insert(le, x, s);
    if s == [] || le(x, s[0]) {
      assert r == [x] + s;
      forall i, j | 0 <= i < j < |r| ensures le(r[i], r[j]) {
        if i == 0 && j > 1 { assert le(s[0], s[j - 1]); }
      }
    } else {
      var rest := Insert(le, x, s[1..]);
      InsertOrdered(le, x, s[1..]);
      assert r == [s[0]] + rest;
      forall j | 0 <= j < |rest| ensures le(s[0], rest[j]) {
        assert rest[j] in multiset(rest);
        if rest[j] != x {
          var k :| 0 <= k < |s[1..]| && s[1..][k] == rest[j];
        }
      }
    }
  }

  lemma {:induction false} SortOrdered<T(!new)>(le: (T, T) -> bool, s: seq<T>)
    requires IsPreorder(le)
    ensures SortedBy(le, Sort(le, s))
  {
    if s != [] {
      SortOrdered(le, s[1..]);
      InsertOrdered(le, s[0], Sort(le, s[1..]));
    }
  }

  /** A filter keeps each of its elements as often as it was there. */
  lemma {:induction false} FilterCounts<T(!new)>(f: T -> Option<T>, s: seq<T>, x: T)
    requires forall y :: f(y).Some? ==> f(y) == Some(y)
    ensures multiset(Collect(f, s))[x] == if f(x).Some? then multiset(s)[x] else 0
  {
    if s != [] {
      FilterCounts(f, s[..|s| - 1], x);
      assert s == s[..|s| - 1] + [s[|s| - 1]];
    }
  }

  /** A filter keeps a sorted list sorted. */
  lemma {:induction false} FilterOrdered<T(!new)>(le: (T, T) -> bool, f: T -> Option<T>, s: seq<T>)
    requires SortedBy(le, s) && forall y :: f(y).Some? ==> f(y) == Some(y)
    ensures SortedBy(le, Collect(f, s))
  {
    if s != [] {
      var front, last := s[..|s| - 1], s[|s| - 1];
      FilterOrdered(le, f, front);
      CollectMembers(f, front);
      var kept := Collect(f, front);
      forall i | 0 <= i < |kept| ensures le(kept[i], last) {
        assert kept[i] in kept;
        var k :| 0 <= k < |front| && front[k] == kept[i];
        assert s[k] == front[k];
      }
    }
  }
}
