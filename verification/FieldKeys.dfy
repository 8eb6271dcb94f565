/** Keys for new contract element fields, and writes to the field list. */
module FieldKeys {
  import opened Ordering
  import opened DecimalDigits

  // ---------------------------------------------------------------- counting up names

  ghost predicate Injective<K(!new)>(name: nat -> K)
  {
    forall i, j :: name(i) == name(j) ==> i == j
  }

  /** The names of the numbers from start to end - 1. */
  ghost function Names<K(!new)>(name: nat -> K, start: nat, end: nat): set<K>
    requires start <= end
    decreases end
  {
    if start == end then {} else Names(name, start, end - 1) + {name(end - 1)}
  }

  lemma {:induction false} NamesMembers<K(!new)>(name: nat -> K, start: nat, end: nat, x: K)
    requires start <= end
    ensures x in Names(name, start, end) <==> exists i: nat :: start <= i < end && name(i) == x
    decreases end
  {
    if start < end { NamesMembers(name, start, end - 1, x); }
  }

  lemma {:induction false} NamesCount<K(!new)>(name: nat -> K, start: nat, end: nat)
    requires start <= end && Injective(name)
    ensures |Names(name, start, end)| == end - start
    decreases end
  {
    if start < end {
      NamesCount(name, start, end - 1);
      NamesMembers(name, start, end - 1, name(end - 1));
    }
  }

  lemma SubsetCount<K>(a: set<K>, b: set<K>)
    requires a <= b
    ensures |a| <= |b|
  {
    assert b == a + (b - a);
  }

  lemma {:induction false} ElementsCount<K(!new)>(s: seq<K>)
    ensures |Elements(s)| <= |s|
  {
    if s != [] {
      ElementsCount(s[..|s| - 1]);
      ElementsStep(s, |s| - 1);
      TakeAll(s);
    } else {
      assert Elements(s) == {};
    }
  }

  /** Names that are all taken cannot be more than the keys in use. */
  lemma Pigeonhole<K(!new)>(name: nat -> K, start: nat, end: nat, existing: seq<K>)
    requires start <= end && Injective(name) && forall i: nat :: start <= i < end ==> name(i) in existing
    ensures end - start <= |existing|
  {
    NamesCount(name, start, end);
    forall x | x in Names(name, start, end) ensures x in Elements(existing) {
      NamesMembers(name, start, end, x);
    }
    SubsetCount(Names(name, start, end), Elements(existing));
    ElementsCount(existing);
  }

  /** The first unused name from start on; at most one step for each key in use. */
  method FirstUnused<K(==, !new)>(name: nat -> K, start: nat, existing: seq<K>) returns (n: nat)
    requires Injective(name)
    ensures start <= n <= start + |existing|
    ensures name(n) !in existing && forall i: nat :: start <= i < n ==> name(i) in existing
  {
    n := start;
    Pigeonhole(name, start, n, existing);
    while name(n) in existing
      invariant start <= n <= start + |existing|
      invariant forall i: nat :: start <= i < n ==> name(i) in existing
      decreases start + |existing| - n
    {
      Pigeonhole(name, start, n + 1, existing);
      n := n + 1;
    }
  }

  // ------------------------------------------------------------------------- the keys

  function Decimal(n: nat): string { Padded(n, Width(n)) }

  function Suffixed(stem: string): nat -> string { (n: nat) => stem + "_" + Decimal(n) }

  lemma SuffixesDiffer(stem: string)
    ensures Injective(Suffixed(stem))
  {
    hide Padded, Width;
    var name := Suffixed(stem);
    forall i, j | name(i) == name(j) ensures i == j {
      var k := |stem + "_"|;
      assert name(i)[k..] == Decimal(i) && name(j)[k..] == Decimal(j);
      PaddedNumber(i, Width(i));
      PaddedNumber(j, Width(j));
    }
  }

  function Prefix(s: string, n: nat): string { if |s| <= n then s else s[..n] }

  /** The key with this number is free and those with smaller ones from start on are not. */
  ghost predicate Lowest(stem: string, start: nat, existing: seq<string>, n: nat)
  {
    && start <= n <= start + |existing| && stem + "_" + Decimal(n) !in existing
    && forall i: nat :: start <= i < n ==> stem + "_" + Decimal(i) in existing
  }

  /** The stem with the lowest free number from start on. */
  ghost predicate Numbered(stem: string, start: nat, existing: seq<string>, key: string)
  {
    exists n: nat :: Lowest(stem, start, existing, n) && key == stem + "_" + Decimal(n)
  }

  /** What a generated key looks like: the slug, the slug's start with a number from 2 on,
      or a numbered field. */
  ghost predicate Derived(slug: string, existing: seq<string>, key: string)
  {
    if |slug| >= 2 then
      key == Prefix(slug, 40) || Numbered(Prefix(Prefix(slug, 40), 36), 2, existing, key)
    else
      Numbered("field", |existing| + 1, existing, key)
  }

  lemma FirstIsLowest(stem: string, start: nat, existing: seq<string>, n: nat)
    requires start <= n <= start + |existing| && Suffixed(stem)(n) !in existing
    requires forall i: nat :: start <= i < n ==> Suffixed(stem)(i) in existing
    ensures Numbered(stem, start, existing, Suffixed(stem)(n))
  {
    hide Decimal;
    forall i: nat | start <= i < n ensures stem + "_" + Decimal(i) in existing {
      assert Suffixed(stem)(i) in existing;
    }
    assert Lowest(stem, start, existing, n);
  }

  /** A generated key is the first forty characters of the slug when they are free, otherwise
      the first thirty-six with the lowest free number from 2 on; without a slug of two
      characters it is "field" with the lowest free number above the count of keys. */
  lemma KeyIs(slug: string, existing: seq<string>, key: string)
    requires key !in existing && Derived(slug, existing, key)
    requires |slug| >= 2 && Prefix(slug, 40) !in existing ==> key == Prefix(slug, 40)
    ensures |slug| >= 40 && slug[..40] !in existing ==> key == slug[..40]
    ensures 2 <= |slug| < 40 && slug !in existing ==> key == slug
    ensures |slug| >= 40 && slug[..40] in existing ==> Numbered(slug[..36], 2, existing, key)
    ensures 36 <= |slug| < 40 && slug in existing ==> Numbered(slug[..36], 2, existing, key)
    ensures 2 <= |slug| < 36 && slug in existing ==> Numbered(slug, 2, existing, key)
    ensures |slug| < 2 ==> Numbered("field", |existing| + 1, existing, key)
  {
    assert |slug| >= 40 ==> slug[..40][..36] == slug[..36] && (|slug| == 40 ==> slug[..40] == slug);
    assert |slug| == 36 ==> slug[..36] == slug;
  }

  /** The number in a key reads back from its digits. */
  lemma DecimalReads(n: nat)
    ensures AllDigits(Decimal(n)) && Number(Decimal(n)) == n
  {
    PaddedNumber(n, Width(n));
  }

  /** generate_element_field_key, from the slug of the label. */
  method GenerateKey(slug: string, existing: seq<string>) returns (key: string)
    ensures key !in existing && Derived(slug, existing, key)
    ensures |slug| >= 2 && Prefix(slug, 40) !in existing ==> key == Prefix(slug, 40)
  {
    if |slug| >= 2 {
      var candidate := Prefix(slug, 40);
      if candidate !in existing { return candidate; }
      var stem := Prefix(candidate, 36);
      SuffixesDiffer(stem);
      var suffix := FirstUnused(Suffixed(stem), 2, existing);
      FirstIsLowest(stem, 2, existing, suffix);
      return Suffixed(stem)(suffix);
    }
    SuffixesDiffer("field");
    var index := FirstUnused(Suffixed("field"), |existing| + 1, existing);
    FirstIsLowest("field", |existing| + 1, existing, index);
    key := Suffixed("field")(index);
  }

  // ----------------------------------------------------------------------- field writes

  /** A field of the catalog; a key may be missing in a loaded catalog. */
  datatype Field<K> = Field(key: Option<K>, definition: int)

  datatype Outcome<K> = Written(fields: seq<Field<K>>) | KeyTaken | NoSuchField

  function KeysOf<K>(fields: seq<Field<K>>): seq<K>
  {
    if fields == [] then []
    else
      var last := fields[|fields| - 1];
      KeysOf(fields[..|fields| - 1]) + if last.key.Some? then [last.key.value] else []
  }

  function Position<K(==)>(fields: seq<Field<K>>, key: K): (i: nat)
    ensures i <= |fields| && (i < |fields| ==> fields[i].key == Some(key))
    ensures forall k :: 0 <= k < i ==> fields[k].key != Some(key)
  {
    if fields == [] || fields[0].key == Some(key) then 0 else 1 + Position(fields[1..], key)
  }

  function Create<K(==)>(fields: seq<Field<K>>, key: K, definition: int): Outcome<K>
  {
    if key in KeysOf(fields) then KeyTaken else Written(fields + [Field(Some(key), definition)])
  }

  function Delete<K(==)>(fields: seq<Field<K>>, key: K): Outcome<K>
  {
    var i := Position(fields, key);
    if i == |fields| then NoSuchField else Written(fields[..i] + fields[i + 1..])
  }

  function Update<K(==)>(fields: seq<Field<K>>, key: K, definition: int): Outcome<K>
  {
    var i := Position(fields, key);
    if i == |fields| then NoSuchField else Written(fields[i := fields[i].(definition := definition)])
  }

  class Catalog<K(==, !new)> {
    var fields: seq<Field<K>>

    constructor (fields: seq<Field<K>>)
      ensures this.fields == fields
    {
      this.fields := fields;
    }

    method Append(key: K, definition: int) returns (ok: bool)
      modifies this
      ensures ok == Create(old(fields), key, definition).Written?
      ensures fields == if ok then Create(old(fields), key, definition).fields else old(fields)
    {
      ok := key !in KeysOf(fields);
      if ok { fields := fields + [Field(Some(key), definition)]; }
    }

    method Remove(key: K) returns (ok: bool)
      modifies this
      ensures ok == Delete(old(fields), key).Written?
      ensures fields == if ok then Delete(old(fields), key).fields else old(fields)
    {
      var index := 0;
      while index < |fields| && fields[index].key != Some(key)
        invariant index <= |fields| && forall k :: 0 <= k < index ==> fields[k].key != Some(key)
      {
        index := index + 1;
      }
      assert index == Position(fields, key);
      ok := index < |fields|;
      if ok { fields := fields[..index] + fields[index + 1..]; }
    }

    method Change(key: K, definition: int) returns (ok: bool)
      modifies this
      ensures ok == Update(old(fields), key, definition).Written?
      ensures fields == if ok then Update(old(fields), key, definition).fields else old(fields)
    {
      var index := Position(fields, key);
      ok := index < |fields|;
      if ok { fields := fields[index := fields[index].(definition := definition)]; }
    }
  }

  lemma {:induction false} KeysMembers<K(!new)>(fields: seq<Field<K>>, key: K)
    ensures key in KeysOf(fields) <==> exists i :: 0 <= i < |fields| && fields[i].key == Some(key)
  {
    if fields != [] { KeysMembers(fields[..|fields| - 1], key); }
  }

  lemma {:induction false} KeysAppend<K>(a: seq<Field<K>>, b: seq<Field<K>>)
    ensures KeysOf(a + b) == KeysOf(a) + KeysOf(b)
  {
    if b == [] {
      assert a + b == a;
    } else {
      KeysAppend(a, b[..|b| - 1]);
      assert (a + b)[..|a + b| - 1] == a + b[..|b| - 1];
    }
  }

  /** The first field with the key. */
  predicate FirstAt<K(==)>(fields: seq<Field<K>>, key: K, i: int)
  {
    0 <= i < |fields| && fields[i].key == Some(key) && forall k :: 0 <= k < i ==> fields[k].key != Some(key)
  }

  /** Creating fails for a key in use and appends otherwise; deleting takes out the first
      field with the key and changing replaces its definition; both fail without one. */
  lemma WritesMean<K(!new)>(fields: seq<Field<K>>, key: K, definition: int)
    ensures (exists i :: FirstAt(fields, key, i)) <==> exists k :: 0 <= k < |fields| && fields[k].key == Some(key)
    ensures (exists i :: FirstAt(fields, key, i)) ==>
      Create(fields, key, definition) == KeyTaken
    ensures (!exists i :: FirstAt(fields, key, i)) ==>
      && Create(fields, key, definition) == Written(fields + [Field(Some(key), definition)])
      && Delete(fields, key) == NoSuchField && Update(fields, key, definition) == NoSuchField
    ensures forall i :: FirstAt(fields, key, i) ==>
      && Delete(fields, key) == Written(fields[..i] + fields[i + 1..])
      && Update(fields, key, definition) == Written(fields[..i] + [Field(Some(key), definition)] + fields[i + 1..])
  {
    KeysMembers(fields, key);
    var at := Position(fields, key);
    if at < |fields| {
      assert FirstAt(fields, key, at);
      assert fields[at := fields[at].(definition := definition)] ==
        fields[..at] + [Field(Some(key), definition)] + fields[at + 1..];
    }
  }

  /** Creating succeeds exactly for an unused key and keeps the keys unique; deleting the
      key again restores the list. */
  lemma CreateThenDelete<K(!new)>(fields: seq<Field<K>>, key: K, definition: int)
    ensures Create(fields, key, definition).Written? <==> forall i :: 0 <= i < |fields| ==> fields[i].key != Some(key)
    ensures Create(fields, key, definition).Written? ==>
      Delete(Create(fields, key, definition).fields, key) == Written(fields)
    ensures Create(fields, key, definition).Written? && Distinct(KeysOf(fields)) ==>
      Distinct(KeysOf(Create(fields, key, definition).fields))
  {
    KeysMembers(fields, key);
    var made := fields + [Field(Some(key), definition)];
    if key !in KeysOf(fields) {
      var i := Position(made, key);
      assert made[|fields|].key == Some(key);
      assert i == |fields|;
      assert made[..i] + made[i + 1..] == fields;
      KeysAppend(fields, [Field(Some(key), definition)]);
      assert KeysOf([Field(Some(key), definition)]) == [key] by { assert [Field(Some(key), definition)][..0] == []; }
      if Distinct(KeysOf(fields)) { DistinctSnoc(KeysOf(fields), key); }
    }
  }

  /** Deleting and changing keep the keys unique; changing keeps them as they are. */
  lemma OtherWritesKeepKeys<K(!new)>(fields: seq<Field<K>>, key: K, definition: int)
    requires Distinct(KeysOf(fields))
    ensures Delete(fields, key).Written? ==>
      Distinct(KeysOf(Delete(fields, key).fields)) && key !in KeysOf(Delete(fields, key).fields)
    ensures Update(fields, key, definition).Written? ==>
      KeysOf(Update(fields, key, definition).fields) == KeysOf(fields)
  {
    var i := Position(fields, key);
    if i < |fields| {
      SplitKeys(fields, i, fields[i], key);
      SplitKeys(fields[i := fields[i].(definition := definition)], i, fields[i].(definition := definition), key);
      var a, b := KeysOf(fields[..i]), KeysOf(fields[i + 1..]);
      KeysAppend(fields[..i], fields[i + 1..]);
      assert fields[i := fields[i].(definition := definition)][..i] == fields[..i];
      assert fields[i := fields[i].(definition := definition)][i + 1..] == fields[i + 1..];
      DropMiddle(a, key, b);
    }
  }

  lemma SplitKeys<K(!new)>(fields: seq<Field<K>>, i: nat, f: Field<K>, key: K)
    requires i < |fields| && fields[i] == f && f.key == Some(key)
    ensures KeysOf(fields) == KeysOf(fields[..i]) + [key] + KeysOf(fields[i + 1..])
  {
    assert fields == fields[..i] + [f] + fields[i + 1..];
    KeysAppend(fields[..i] + [f], fields[i + 1..]);
    KeysAppend(fields[..i], [f]);
    assert KeysOf([f]) == [key] by { assert [f][..0] == []; }
  }

  lemma DropMiddle<K(!new)>(a: seq<K>, x: K, b: seq<K>)
    requires Distinct(a + [x] + b)
    ensures Distinct(a + b) && x !in a + b
  {
    var s := a + [x] + b;
    assert forall i :: 0 <= i < |a| ==> s[i] == a[i];
    assert forall i :: 0 <= i < |b| ==> s[|a| + 1 + i] == b[i];
    assert s[|a|] == x;
    DistinctConcat(a, b) by {
      forall y | y in a ensures y !in b {
        var i :| 0 <= i < |a| && a[i] == y;
        assert s[i] == y;
      }
    }
  }
}
