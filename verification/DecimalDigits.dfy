/** Decimal digit strings and powers of ten. */
module DecimalDigits {

  predicate IsDigit(c: char) { '0' <= c <= '9' }

  function DigitValue(c: char): nat
    requires IsDigit(c)
  {
    c as int - '0' as int
  }

  function DigitChar(d: nat): (c: char)
    requires d < 10
    ensures IsDigit(c) && DigitValue(c) == d
  {
    (d + '0' as int) as char
  }

  predicate AllDigits(s: string) { forall i :: 0 <= i < |s| ==> IsDigit(s[i]) }

  /** int(s) for a string of digits. */
  function Number(s: string): nat
    requires AllDigits(s)
  {
    if s == "" then 0 else 10 * Number(s[..|s| - 1]) + DigitValue(s[|s| - 1])
  }

  /** The last `width` digits of n. */
  function Padded(n: nat, width: nat): (s: string)
    ensures |s| == width && AllDigits(s)
  {
    if width == 0 then "" else Padded(n / 10, width - 1) + [DigitChar(n % 10)]
  }

  function Power10(k: nat): (p: nat)
    ensures p > 0
  {
    if k == 0 then 1 else 10 * Power10(k - 1)
  }

  lemma {:induction false} PaddedNumber(n: nat, width: nat)
    requires n < Power10(width)
    ensures Number(Padded(n, width)) == n
  {
    if width > 0 {
      PaddedNumber(n / 10, width - 1);
      var s := Padded(n, width);
      assert s[..|s| - 1] == Padded(n / 10, width - 1);
    }
  }

  /** The number of decimal digits of n. */
  function Width(n: nat): (w: nat)
    ensures w >= 1 && n < Power10(w) && (n >= 10 ==> Power10(w - 1) <= n)
  {
    if n < 10 then 1 else 1 + Width(n / 10)
  }

  /** The end of the run of digits that starts at position i. */
  function DigitsEnd(s: string, i: nat): (j: nat)
    requires i <= |s|
    ensures i <= j <= |s| && AllDigits(s[i..j]) && (j < |s| ==> !IsDigit(s[j]))
    decreases |s| - i
  {
    if i < |s| && IsDigit(s[i]) then
      var j := DigitsEnd(s, i + 1);
      assert s[i..j] == [s[i]] + s[i + 1..j];
      j
    else i
  }

  lemma {:induction false} PowerMonotone(a: nat, b: nat)
    requires a <= b
    ensures Power10(a) <= Power10(b)
  {
    if a < b { PowerMonotone(a, b - 1); }
  }

  /** divmod(n, u) */
  function DivMod(n: nat, u: nat): (r: (nat, nat))
    requires u > 0
    ensures n == r.0 * u + r.1 && r.1 < u
  {
    (n / u, n % u)
  }

  lemma QuotientBound(n: nat, u: nat, b: nat)
    requires u > 0 && n < b * u
    ensures DivMod(n, u).0 < b
  {
    var q := DivMod(n, u).0;
    assert q >= b ==> q * u >= b * u;
  }
}
