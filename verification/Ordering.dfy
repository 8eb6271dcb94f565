/**
 Ordered collections shared by the other modules: the order on
 identifiers, a stable sort, first-occurrence deduplication and set-like views of
 sequences.
 */
module Ordering {

  datatype Option<+T> = None | Some(value: T)

  predicate Distinct<T(==)>(s: seq<T>)
  {
    forall i, j :: 0 <= i < j < |s| ==> s[i] != s[j]
  }

  function Elements<T>(s: seq<T>): set<T>
  {
    set x | x in s
  }

  /** An identifier.  Only equality and the order of identifiers matter, and a run
      mentions finitely many of them, so they are numbered in lexicographic order. */
  type Id = int

  // ------------------------------------------------------------------- sort

  /** The elements of s are linearly ordered by le. */
  ghost predicate LinearOn<T(!new)>(le: (T, T) -> bool, s: seq<T>)
  {
    && (forall x, y :: x in s && y in s ==> le(x, y) || le(y, x))
    && (forall x, y :: x in s && y in s && le(x, y) && le(y, x) ==> x == y)
    && (forall x, y, z :: x in s && y in s && z in s && le(x, y) && le(y, z) ==> le(x, z))
  }

  ghost predicate SortedBy<T>(le: (T, T) -> bool, s: seq<T>)
  {
    forall i, j :: 0 <= i < j < |s| ==> le(s[i], s[j])
  }

  function Insert<T>(le: (T, T) -> bool, x: T, s: seq<T>): (r: seq<T>)
    ensures multiset(r) == multiset{x} + multiset(s)
  {
    if s == [] || le(x, s[0]) then
      assert [x] + s == [x] + s;
      [x] + s
    else
      assert s == [s[0]] + s[1..];
      [s[0]] + Insert(le, x, s[1..])
  }

  /** Insertion from the right, hence stable: equal elements keep their order. */
  function Sort<T>(le: (T, T) -> bool, s: seq<T>): (r: seq<T>)
    ensures multiset(r) == multiset(s)
    ensures |r| == |s|
  {
    if s == [] then []
    else
      assert s == [s[0]] + s[1..];
      var r := Insert(le, s[0], Sort(le, s[1..]));
      assert |r| == |multiset(r)|;
      r
  }

  lemma MultisetMembers<T(!new)>(s: seq<T>, t: seq<T>)
    requires multiset(s) == multiset(t)
    ensures |s| == |t|
    ensures forall x :: x in s <==> x in t
  {
    assert |s| == |multiset(s)| && |t| == |multiset(t)|;
    forall x ensures x in s <==> x in t {
      assert x in s <==> x in multiset(s);
      assert x in t <==> x in multiset(t);
    }
  }

  lemma {:induction false} InsertSorted<T(!new)>(le: (T, T) -> bool, x: T, s: seq<T>)
    requires LinearOn(le, [x] + s)
    requires SortedBy(le, s)
    ensures SortedBy(le, Insert(le, x, s))
  {
    var all := [x] + s;
    assert forall i :: 0 <= i < |s| ==> s[i] in all;
    assert x in all;
    if s == [] {
    } else if le(x, s[0]) {
      var r := [x] + s;
      forall i, j | 0 <= i < j < |r| ensures le(r[i], r[j]) {
        if i == 0 { assert le(s[0], s[0]); assert le(s[0], r[j]); }
      }
    } else {
      assert forall y :: y in [x] + s[1..] ==> y in all;
      InsertSorted(le, x, s[1..]);
      var t := Insert(le, x, s[1..]);
      MultisetMembers(t, [x] + s[1..]);
      var r := [s[0]] + t;
      forall i, j | 0 <= i < j < |r| ensures le(r[i], r[j]) {
        if i == 0 {
          assert t[j - 1] in t;
          assert t[j - 1] == x || t[j - 1] in s[1..];
        }
      }
    }
  }

  lemma {:induction false} SortSorted<T(!new)>(le: (T, T) -> bool, s: seq<T>)
    requires LinearOn(le, s)
    ensures SortedBy(le, Sort(le, s))
  {
    if s != [] {
      assert forall y :: y in s[1..] ==> y in s;
      SortSorted(le, s[1..]);
      var t := Sort(le, s[1..]);
      MultisetMembers(t, s[1..]);
      assert forall y :: y in [s[0]] + t ==> y in s;
      InsertSorted(le, s[0], t);
    }
  }

  lemma SortedHeads<T(!new)>(le: (T, T) -> bool, s: seq<T>, t: seq<T>)
    requires s != [] && t != []
    requires forall x :: x in s <==> x in t
    requires LinearOn(le, s)
    requires SortedBy(le, s) && SortedBy(le, t)
    ensures s[0] == t[0]
  {
    assert s[0] in t && t[0] in s && s[0] in s;
    var k :| 0 <= k < |t| && t[k] == s[0];
    var m :| 0 <= m < |s| && s[m] == t[0];
    assert le(s[0], s[0]);
    assert le(t[0], s[0]) && le(s[0], t[0]);
  }

  lemma TailsShare<T>(s: seq<T>, t: seq<T>)
    requires s != [] && t != [] && s[0] == t[0] && multiset(s) == multiset(t)
    ensures s == [s[0]] + s[1..] && t == [t[0]] + t[1..] && multiset(s[1..]) == multiset(t[1..])
  {
    assert s == [s[0]] + s[1..] && t == [t[0]] + t[1..];
    assert multiset(s[1..]) == multiset(s) - multiset{s[0]};
    assert multiset(t[1..]) == multiset(t) - multiset{t[0]};
  }

  lemma TailOrdered<T(!new)>(le: (T, T) -> bool, s: seq<T>)
    requires s != []
    ensures LinearOn(le, s) ==> LinearOn(le, s[1..])
    ensures SortedBy(le, s) ==> SortedBy(le, s[1..])
  {
    assert forall x :: x in s[1..] ==> x in s;
  }

  lemma {:induction false} SortedUnique<T(!new)>(le: (T, T) -> bool, s: seq<T>, t: seq<T>)
    requires multiset(s) == multiset(t)
    requires LinearOn(le, s)
    requires SortedBy(le, s) && SortedBy(le, t)
    ensures s == t
  {
    hide LinearOn, SortedBy;
    MultisetMembers(s, t);
    if s != [] {
      assert s[0] in t;
      SortedHeads(le, s, t);
      TailsShare(s, t);
      TailOrdered(le, s);
      TailOrdered(le, t);
      SortedUnique(le, s[1..], t[1..]);
    }
  }

  /** Sorting forgets the order of its input. */
  lemma SortCanonical<T(!new)>(le: (T, T) -> bool, s: seq<T>, t: seq<T>)
    requires multiset(s) == multiset(t)
    requires LinearOn(le, s)
    ensures Sort(le, s) == Sort(le, t)
  {
    MultisetMembers(s, t);
    SortSorted(le, s);
    SortSorted(le, t);
    MultisetMembers(Sort(le, s), s);
    SortedUnique(le, Sort(le, s), Sort(le, t));
  }

  function SortIds(s: seq<Id>): (r: seq<Id>)
    ensures multiset(r) == multiset(s) && |r| == |s|
  {
    Sort((x: Id, y: Id) => x <= y, s)
  }

  lemma SortIdsCanonical(s: seq<Id>, t: seq<Id>)
    requires multiset(s) == multiset(t)
    ensures SortIds(s) == SortIds(t)
  {
    SortCanonical((x: Id, y: Id) => x <= y, s, t);
  }

  // ------------------------------------------------------- sets as sorted lists

  ghost function PickOne<T(!new)>(s: set<T>): (x: T)
    requires s != {}
    ensures x in s
  {
    var x :| x in s;
    x
  }

  lemma NonEmpty(s: set<Id>)
    requires s != {}
    ensures exists x :: x in s
  {
    var x := PickOne(s);
    assert x in s;
  }

  /** The elements of a set in some order. */
  ghost function Enumerate(s: set<Id>): (r: seq<Id>)
    ensures multiset(r) == multiset(s)
  {
    if s == {} then []
    else
      NonEmpty(s);
      var x :| x in s;
      var r := [x] + Enumerate(s - {x});
      assert multiset(r) == multiset{x} + multiset(s - {x});
      r
  }

  /** sorted(s) for a set of ids. */
  ghost function SortedSet(s: set<Id>): (r: seq<Id>)
    ensures multiset(r) == multiset(s)
  {
    SortIds(Enumerate(s))
  }

  lemma SortedSetMembers(s: set<Id>)
    ensures forall x :: x in SortedSet(s) <==> x in s
    ensures Elements(SortedSet(s)) == s
  {
    var r := SortedSet(s);
    forall x ensures x in r <==> x in s {
      assert x in r <==> x in multiset(r);
      assert x in multiset(s) <==> x in s;
    }
    ElementsAre(r, s);
  }

  lemma SortedSetDistinct(s: set<Id>)
    ensures Distinct(SortedSet(s))
  {
    var r := SortedSet(s);
    forall i, j | 0 <= i < j < |r| ensures r[i] != r[j] {
      assert r == r[..j] + r[j..];
      assert r[i] in r[..j] && r[j] in r[j..];
      assert multiset(r) == multiset(r[..j]) + multiset(r[j..]);
      assert multiset(r)[r[i]] <= 1;
    }
  }

  method SortSet(s: set<Id>) returns (r: seq<Id>)
    ensures r == SortedSet(s)
  {
    var rest := s;
    var q: seq<Id> := [];
    while rest != {}
      invariant rest <= s
      invariant multiset(q) + multiset(rest) == multiset(s)
      decreases rest
    {
      NonEmpty(rest);
      var x :| x in rest;
      assert multiset(rest) == multiset{x} + multiset(rest - {x});
      q := q + [x];
      rest := rest - {x};
    }
    r := SortIds(q);
    SortIdsCanonical(q, Enumerate(s));
  }

  // -------------------------------------------------------- sort by a key

  function SortByKey<T>(key: T -> Id, s: seq<T>): (r: seq<T>)
    ensures multiset(r) == multiset(s) && |r| == |s|
  {
    Sort((x, y) => key(x) <= key(y), s)
  }

  /** With unique keys the sorted list depends only on which elements there are. */
  lemma SortByKeyCanonical<T(!new)>(key: T -> Id, s: seq<T>, t: seq<T>)
    requires multiset(s) == multiset(t)
    requires forall x, y :: x in s && y in s && key(x) == key(y) ==> x == y
    ensures SortByKey(key, s) == SortByKey(key, t)
  {
    SortCanonical((x, y) => key(x) <= key(y), s, t);
  }

  lemma SnocParts<T>(s: seq<T>)
    requires s != []
    ensures s == s[..|s| - 1] + [s[|s| - 1]]
  {
  }

  lemma DistinctSnoc<T>(s: seq<T>, x: T)
    requires Distinct(s) && x !in s
    ensures Distinct(s + [x])
  {
  }

  lemma DistinctConcat<T>(s: seq<T>, t: seq<T>)
    requires Distinct(s) && Distinct(t)
    requires forall x :: x in s ==> x !in t
    ensures Distinct(s + t)
  {
    forall i, j | 0 <= i < j < |s + t| ensures (s + t)[i] != (s + t)[j] {
      if i < |s| <= j { assert (s + t)[i] in s && (s + t)[j] in t; }
    }
  }

  lemma TakeStep<T>(s: seq<T>, n: nat)
    requires n < |s|
    ensures s[..n + 1] == s[..n] + [s[n]]
    ensures s[..n + 1][..n] == s[..n]
  {
  }

  lemma DropSnoc<T>(s: seq<T>, x: T)
    ensures (s + [x])[..|s + [x]| - 1] == s && (s + [x])[|s + [x]| - 1] == x
  {
  }

  lemma TakeAll<T>(s: seq<T>)
    ensures s[..|s|] == s
  {
  }

  ghost predicate UniqueKeys<T(!new)>(key: T -> Id, s: seq<T>)
  {
    forall x, y :: x in s && y in s && key(x) == key(y) ==> x == y
  }

  /** Sorting by a unique key identifies exactly the permutations. */
  lemma SortByKeyIff<T(!new)>(key: T -> Id, s: seq<T>, t: seq<T>)
    requires UniqueKeys(key, s)
    ensures SortByKey(key, s) == SortByKey(key, t) <==> multiset(s) == multiset(t)
  {
    if multiset(s) == multiset(t) {
      SortByKeyCanonical(key, s, t);
    }
  }

  lemma SortIdsIff(s: seq<Id>, t: seq<Id>)
    ensures SortIds(s) == SortIds(t) <==> multiset(s) == multiset(t)
  {
    if multiset(s) == multiset(t) {
      SortIdsCanonical(s, t);
    }
  }

  lemma ElementsStep<T(!new)>(s: seq<T>, n: nat)
    requires n < |s|
    ensures Elements(s[..n + 1]) == Elements(s[..n]) + {s[n]}
  {
    assert s[..n + 1] == s[..n] + [s[n]];
  }

  lemma SomeElement<T(!new)>(s: seq<T>)
    ensures s != [] ==> exists x :: x in s
  {
    if s != [] { assert s[0] in s; }
  }

  lemma ElementsAre<T(!new)>(s: seq<T>, t: set<T>)
    requires forall x :: x in s <==> x in t
    ensures Elements(s) == t
  {
  }

  lemma DedupElements<T(!new)>(s: seq<T>, t: seq<T>)
    ensures Elements(Dedup(s + t)) == Elements(s) + Elements(t)
  {
  }

  function Lookup<V>(table: map<Id, V>, key: Id): Option<V>
  {
    if key in table then Some(table[key]) else None
  }

  /** for key in sorted(touched): table[key] = step(key, table.get(key)). */
  method UpdateKeys<V>(table: map<Id, V>, touched: set<Id>, step: (Id, Option<V>) -> V)
    returns (result: map<Id, V>)
    ensures result.Keys == table.Keys + touched
    ensures forall k :: k in result ==>
      result[k] == if k in touched then step(k, Lookup(table, k)) else table[k]
  {
    var keys := SortSet(touched);
    SortedSetDistinct(touched);
    SortedSetMembers(touched);
    result := UpdateEach(table, keys, step);
    ElementsAre(keys, touched);
  }

  method UpdateEach<V>(table: map<Id, V>, keys: seq<Id>, step: (Id, Option<V>) -> V)
    returns (result: map<Id, V>)
    requires Distinct(keys)
    ensures result.Keys == table.Keys + Elements(keys)
    ensures forall k :: k in result ==>
      result[k] == if k in Elements(keys) then step(k, Lookup(table, k)) else table[k]
  {
    result := table;
    ghost var finished: set<Id> := {};
    for m := 0 to |keys|
      invariant finished == Elements(keys[..m])
      invariant result.Keys == table.Keys + finished
      invariant forall k :: k in table && k !in finished ==> result[k] == table[k]
      invariant forall k :: k in finished ==> result[k] == step(k, Lookup(table, k))
    {
      var key := keys[m];
      assert key !in finished;
      result := result[key := step(key, Lookup(result, key))];
      finished := finished + {key};
      ElementsStep(keys, m);
    }
    assert keys[..|keys|] == keys;
  }

  // ---------------------------------------------------------- deduplication

  /** list(dict.fromkeys(s)): the first occurrence of every element, in order. */
  function Dedup<T(==, !new)>(s: seq<T>): (r: seq<T>)
    ensures forall x :: x in r <==> x in s
    ensures s != [] ==> r != []
  {
    if s == [] then []
    else
      var d := Dedup(s[..|s| - 1]);
      var x := s[|s| - 1];
      assert s == s[..|s| - 1] + [x];
      if x in d then d else d + [x]
  }

  lemma {:induction false} DedupDistinct<T(!new)>(s: seq<T>)
    ensures Distinct(Dedup(s))
  {
    if s != [] {
      DedupDistinct(s[..|s| - 1]);
    }
  }

  lemma {:induction false} DedupOfDistinct<T(!new)>(s: seq<T>)
    requires Distinct(s)
    ensures Dedup(s) == s
  {
    if s != [] {
      var p := s[..|s| - 1];
      DedupOfDistinct(p);
      assert s == p + [s[|s| - 1]];
    }
  }

  /** Appending elements that are all present already changes nothing. */
  lemma {:induction false} DedupAbsorbs<T(!new)>(s: seq<T>, t: seq<T>)
    requires forall x :: x in t ==> x in s
    ensures Dedup(s + t) == Dedup(s)
  {
    if t == [] {
      assert s + t == s;
    } else {
      var p := t[..|t| - 1];
      assert (s + t)[..|s + t| - 1] == s + p;
      DedupAbsorbs(s, p);
      assert t[|t| - 1] in t;
    }
  }

  lemma DedupStep<T(!new)>(s: seq<T>, x: T)
    ensures Dedup(s + [x]) == if x in s then Dedup(s) else Dedup(s) + [x]
  {
    assert (s + [x])[..|s|] == s;
  }

  lemma {:induction false} DedupPrefix<T(!new)>(s: seq<T>, n: nat)
    requires n <= |s|
    ensures Dedup(s[..n]) <= Dedup(s)
    decreases |s| - n
  {
    if n < |s| {
      DedupPrefix(s, n + 1);
      assert s[..n + 1] == s[..n] + [s[n]];
      DedupStep(s[..n], s[n]);
    } else {
      assert s[..n] == s;
    }
  }

  // ------------------------------------------------------------- completion orders

  function Indices(n: nat): (r: set<nat>)
    ensures forall i: nat {:trigger i in r} :: i in r <==> i < n
  {
    if n == 0 then {} else Indices(n - 1) + {n - 1}
  }

  /** Tasks 0 to n - 1 complete in this order. */
  predicate Schedules(order: seq<nat>, n: nat)
  {
    Distinct(order) && Elements(order) == Indices(n)
  }

  lemma ScheduledNext(order: seq<nat>, k: nat, n: nat)
    requires Schedules(order, n) && k < |order|
    ensures order[k] < n && order[k] !in Elements(order[..k])
    ensures Elements(order[..k + 1]) == Elements(order[..k]) + {order[k]}
  {
    assert order[k] in Elements(order);
    ElementsStep(order, k);
  }

  // ------------------------------------------------------------- small facts

  function Map<A, B>(f: A -> B, s: seq<A>): (r: seq<B>)
    ensures |r| == |s|
    ensures forall i {:trigger r[i]} :: 0 <= i < |s| ==> r[i] == f(s[i])
  {
    if s == [] then [] else Map(f, s[..|s| - 1]) + [f(s[|s| - 1])]
  }

  lemma MapAppend<A, B>(f: A -> B, s: seq<A>, t: seq<A>)
    ensures Map(f, s + t) == Map(f, s) + Map(f, t)
  {
  }
}
