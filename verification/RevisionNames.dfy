/**
 Revision directory names: "r-" and a zero-padded nineteen-digit time stamp, or the
 older "revision-<digits>" form.
 */
module RevisionNames {
  import opened Ordering
  import opened DecimalDigits

  const LIMIT: nat := 10_000_000_000_000_000_000

  function Max(a: int, b: int): int { if a >= b then a else b }

  /** f"r-{n:019d}" */
  function RevisionName(n: nat): string { "r-" + Padded(n, Max(19, Width(n))) }

  const LEGACY: string := "revision-"

  /** _revision_timestamp */
  function Timestamp(name: string): Option<nat>
  {
    if |name| == 21 && name[..2] == "r-" && AllDigits(name[2..]) then Some(Number(name[2..]))
    else if |name| >= 9 && name[..9] == LEGACY then
      var j := DigitsEnd(name, 9);
      if j > 9 && (j == |name| || name[j] == '-') then Some(Number(name[9..j])) else None
    else None
  }

  lemma Power19()
    ensures Power10(19) == LIMIT
  {
    assert Power10(5) == 100_000;
    assert Power10(10) == 10_000_000_000;
    assert Power10(15) == 1_000_000_000_000_000;
  }

  /** A time stamp can be read back from the name it was given if and only if it has at
      most nineteen digits; longer ones leave a directory that no reader considers. */
  lemma NameRoundTrip(n: nat)
    ensures Timestamp(RevisionName(n)) == if n < LIMIT then Some(n) else None
  {
    Power19();
    var w := Max(19, Width(n));
    var name := RevisionName(n);
    assert name[2..] == Padded(n, w);
    assert name[0] == 'r' && name[1] == '-';
    if n < LIMIT {
      if Width(n) > 19 { PowerMonotone(19, Width(n) - 1); }
      PaddedNumber(n, 19);
    } else {
      if Width(n) <= 19 { PowerMonotone(Width(n), 19); }
      assert |name| > 21;
      assert LEGACY[1] == 'e';
      assert name[..9][1] == '-';
    }
  }

  /** Names of different time stamps differ, readable or not. */
  lemma NamesDiffer(m: nat, n: nat)
    requires m != n
    ensures RevisionName(m) != RevisionName(n)
  {
    NameNumber(m);
    NameNumber(n);
  }

  lemma NameNumber(n: nat)
    ensures AllDigits(RevisionName(n)[2..]) && Number(RevisionName(n)[2..]) == n
  {
    var w := Max(19, Width(n));
    PowerMonotone(Width(n), w);
    assert RevisionName(n)[2..] == Padded(n, w);
    PaddedNumber(n, w);
  }
}
