/** Arabic amounts: exact below the decimal library's precision, and when an amount in
    units of ten thousand is off by more than half a fen. */
module ArabicAmounts {
  import opened Ordering
  import opened DecimalDigits
  import opened Money
  import opened ChineseNumerals
  import opened MoneyRoundTrip

  // ------------------------------------------------------------------ the plain form

  lemma {:induction false} DigitsEndIs(s: string, i: nat, j: nat)
    requires i <= j <= |s| && AllDigits(s[i..j]) && (j < |s| ==> !IsDigit(s[j]))
    ensures DigitsEnd(s, i) == j
    decreases j - i
  {
    if i < j {
      assert s[i..j][0] == s[i];
      assert s[i..j] == [s[i]] + s[i + 1..j];
      DigitsEndIs(s, i + 1, j);
    }
  }

  lemma NumberSnoc(s: string, c: char)
    requires AllDigits(s) && IsDigit(c)
    ensures AllDigits(s + [c]) && Number(s + [c]) == 10 * Number(s) + DigitValue(c)
  {
    assert (s + [c])[..|s|] == s;
  }

  lemma TwoDigits(s: string, n: nat)
    requires AllDigits(s) && n < 100
    ensures AllDigits(s + Padded(n, 2)) && Number(s + Padded(n, 2)) == 100 * Number(s) + n
  {
    var tens, units := DigitChar(n / 10 % 10), DigitChar(n % 10);
    assert Padded(n / 10 / 10, 0) == "";
    assert Padded(n / 10, 1) == [tens];
    assert Padded(n, 2) == [tens] + [units];
    NumberSnoc(s, tens);
    NumberSnoc(s + [tens], units);
    assert s + [tens] + [units] == s + Padded(n, 2);
  }

  lemma ArabicMatches(amount: nat)
    ensures MatchArabic(ArabicText(amount)) == Some(Literal(amount, 2, false))
  {
    hide Padded, Width;
    var yuan, cents := Padded(amount / 100, Width(amount / 100)), Padded(amount % 100, 2);
    var text := ArabicText(amount);
    var j := |yuan|;
    assert text[..j] == yuan;
    assert text[0..j] == yuan;
    assert text[j] == '.';
    DigitsEndIs(text, 0, j);
    assert text[j + 1..j + 3] == cents;
    DigitsEndIs(text, j + 1, j + 3);
    assert text[j + 3..] == "";
    PaddedNumber(amount / 100, Width(amount / 100));
    TwoDigits(yuan, amount % 100);
  }

  lemma ArabicIsPlain(amount: nat)
    ensures Plain(ArabicText(amount)) && ArabicText(amount) != ""
  {
    var yuan, cents := Padded(amount / 100, Width(amount / 100)), Padded(amount % 100, 2);
    DigitsArePlain(yuan);
    DigitsArePlain(cents);
    PlainAppend(yuan, ".");
    PlainAppend(yuan + ".", cents);
  }

  lemma DigitsArePlain(text: string)
    requires AllDigits(text)
    ensures Plain(text)
  {
    forall i | 0 <= i < |text| ensures Plain([text[i]]) && IsDigit(text[i]) {
    }
  }

  lemma ArabicRoundTrip(amount: nat)
    requires amount < Power10(PRECISION)
    ensures Parse(ArabicText(amount)) == Amount(amount)
  {
    hide ArabicText, Padded, MatchArabic, Clean;
    ArabicIsPlain(amount);
    CleanPlain(ArabicText(amount));
    ArabicMatches(amount);
    CentPower();
  }

  lemma CentPower()
    ensures Power10(2) == 100
  {
  }

  /** The Chinese and the Arabic form of an amount below 10^16 yuan mean the same. */
  lemma FormsAgree(st: Style, mark: char, amount: nat)
    requires Means(Classify, st) && (mark == '元' || mark == '圆') && amount < 1_000_000_000_000_000_000
    ensures Parse(ChineseText(st, mark, amount)) == Parse(ArabicText(amount)) == Amount(amount)
  {
    hide *;
    PrecisionPower();
    ChineseRoundTrip(st, mark, amount);
    ArabicRoundTrip(amount);
  }

  // ------------------------------------------------------- units of ten thousand

  /** |a - b| <= s / 2 */
  predicate Near(a: int, b: int, s: int) { 2 * (a - b) <= s && 2 * (b - a) <= s }

  /** |fen - exact amount| <= 1/2, in units of 1 / denominator fen. */
  predicate WithinHalfFen(fen: nat, literal: Literal)
  {
    var s := Power10(literal.scale);
    Near(fen * s, 100 * literal.mantissa * if literal.wan then 10_000 else 1, s)
  }

  /** 100 n / s lies halfway between two whole numbers. */
  predicate IsTie(n: nat, s: nat)
    requires s > 0
  {
    (200 * n + s) % (2 * s) == 0
  }

  /** Rounding the product to the library's precision lifts it onto a half-fen tie. */
  predicate LiftedOntoTie(literal: Literal)
  {
    var product := literal.mantissa * 10_000;
    literal.wan && ContextRound(product) > product && IsTie(ContextRound(product), Power10(literal.scale))
  }

  lemma FloorBounds(n: nat, d: nat, f: nat)
    requires d > 0 && f == n / d
    ensures f * d <= n < f * d + d
    ensures n % d == n - f * d
  {
  }

  lemma HalfUpBounds(n: nat, s: nat, f: nat)
    requires s > 0 && f == RoundHalfUp(100 * n, s)
    ensures 2 * (f * s) <= 200 * n + s < 2 * (f * s) + 2 * s
    ensures IsTie(n, s) <==> 2 * (f * s) == 200 * n + s
  {
    FloorBounds(200 * n + s, 2 * s, f);
    assert f * (2 * s) == 2 * (f * s);
  }

  lemma HalfEvenBounds(n: nat, g: nat, t: nat)
    requires g > 0 && t == RoundHalfEven(n, g)
    ensures Near(t * g, n, g)
  {
    var q := n / g;
    FloorBounds(n, g, q);
    assert (q + 1) * g == q * g + g;
  }

  lemma {:induction false} PowerSum(a: nat, b: nat)
    ensures Power10(a + b) == Power10(a) * Power10(b)
  {
    if a > 0 {
      PowerSum(a - 1, b);
      assert Power10(a + b) == 10 * (Power10(a - 1) * Power10(b));
      assert 10 * (Power10(a - 1) * Power10(b)) == (10 * Power10(a - 1)) * Power10(b);
    }
  }

  lemma Scale(a: int, b: int, g: nat)
    requires a <= b
    ensures a * g <= b * g
  {
    assert (b - a) * g >= 0;
  }

  lemma Plus(a: int, b: int, g: int)
    ensures (a + b) * g == a * g + b * g
  {
  }

  /** Whole multiples of g that are less than g apart are the same. */
  lemma Cancel(a: int, b: int, g: nat)
    requires g > 0 && a * g < b * g + g
    ensures a <= b
  {
    if a > b {
      Scale(b + 1, a, g);
      Plus(b, 1, g);
    }
  }

  /** The kept product is a whole number of fen. */
  lemma CoarseCase(p: nat, g: nat, t: nat, f: nat)
    requires g > 0 && Near(t * g, p, g)
    requires f == RoundHalfUp(100 * (t * g), 100 * g)
    ensures Near(f * (100 * g), 100 * p, 100 * g) && !IsTie(t * g, 100 * g)
  {
    var s := 100 * g;
    HalfUpBounds(t * g, s, f);
    assert 100 * (t * g) == t * s;
    CoarseStep(t, s, f, 100 * (t * g));
  }

  lemma CoarseStep(t: nat, s: nat, f: nat, ts: nat)
    requires s > 0 && ts == t * s && 2 * (f * s) <= 2 * ts + s < 2 * (f * s) + 2 * s
    ensures f == t
  {
    Cancel(f, t, s);
    Cancel(t, f, s);
  }

  /** f is the nearest whole number to a multiple of g, and ties lie on multiples of g. */
  lemma FineCase(p: nat, g: nat, t: nat, q: nat, f: nat)
    requires g > 0 && q > 0 && Near(t * g, p, g)
    requires f == RoundHalfUp(100 * (t * g), 1000 * (g * q))
    ensures Near(f * (1000 * (g * q)), 100 * p, 1000 * (g * q)) <==> !(t * g > p && IsTie(t * g, 1000 * (g * q)))
  {
    hide RoundHalfUp, IsTie;
    var s := 1000 * (g * q);
    HalfUpBounds(t * g, s, f);
    var low := 10 * (f * q) - 5 * q;
    var high := low + 10 * q;
    Edges(f, g, q, low, high);
    FineStep(low, high, t, g, p);
  }

  lemma Edges(f: nat, g: nat, q: nat, low: int, high: int)
    requires low == 10 * (f * q) - 5 * q && high == low + 10 * q
    ensures 200 * (low * g) == 2 * (f * (1000 * (g * q))) - 1000 * (g * q)
    ensures high * g == low * g + 10 * (g * q)
  {
    assert (f * q) * g == f * (g * q);
    assert f * (1000 * (g * q)) == 1000 * (f * (g * q));
    assert low * g == 10 * ((f * q) * g) - 5 * (q * g);
  }

  lemma FineStep(low: int, high: int, t: int, g: nat, p: int)
    requires g > 0 && Near(t * g, p, g) && low * g <= t * g < high * g
    ensures low * g <= p <= high * g <==> !(t * g > p && t * g == low * g)
  {
    Plus(t, 1, g);
    Cancel(t + 1, high, g);
    Scale(t + 1, high, g);
    if t * g > low * g {
      Cancel(low + 1, t, g) by { Plus(low, 1, g); }
      Scale(low + 1, t, g);
      Plus(low, 1, g);
    }
  }

  /** The rounded product has 28 significant digits. */
  lemma KeptIsLarge(p: nat, d: nat, t: nat)
    requires d > 0 && Width(p) == PRECISION + d && t == RoundHalfEven(p, Power10(d))
    ensures t >= Power10(PRECISION - 1)
  {
    hide RoundHalfEven, Width, Power10;
    var g, v := Power10(d), Power10(PRECISION - 1);
    HalfEvenBounds(p, g, t);
    WideIsLarge(p, PRECISION + d);
    PowerSum(PRECISION - 1, d);
    Cancel(v, t, g);
  }

  lemma WideIsLarge(p: nat, w: nat)
    requires Width(p) == w && w > 1
    ensures Power10(w - 1) <= p
  {
  }

  lemma TooMany(t: nat, g: nat, s: nat, v: nat, f: nat)
    requires t >= v && s <= 10 * g && s > 0 && 2 * (f * s) <= 200 * (t * g) + s < 2 * (f * s) + 2 * s
    ensures f >= 10 * v
  {
    Scale(v, t, g);
    Scale(s, 10 * g, 10 * v);
    assert s * (10 * v) == (10 * v) * s;
    assert 10 * g * (10 * v) == 100 * (v * g);
    Cancel(10 * v, f, s);
  }

  lemma TenFold(k: nat)
    ensures Power10(k + 1) == 10 * Power10(k)
  {
  }

  /** A product that had to be rounded and still gives an amount has at least two digits
      of its scale left. */
  lemma ScaleIsLarge(p: nat, d: nat, k: nat, t: nat)
    requires d > 0 && Width(p) == PRECISION + d && t == RoundHalfEven(p, Power10(d))
    requires RoundHalfUp(100 * (t * Power10(d)), Power10(k)) < Power10(PRECISION)
    ensures k >= d + 2
  {
    hide RoundHalfEven, RoundHalfUp, IsTie, Width, Power10;
    var g, s := Power10(d), Power10(k);
    KeptIsLarge(p, d, t);
    var f := RoundHalfUp(100 * (t * g), s);
    HalfUpBounds(t * g, s, f);
    TenFold(PRECISION - 1);
    TenFold(d);
    if k < d + 2 {
      PowerMonotone(k, d + 1);
      TooMany(t, g, s, Power10(PRECISION - 1), f);
    }
  }

  lemma ScaleParts(d: nat, k: nat)
    requires k >= d + 2
    ensures if k == d + 2 then Power10(k) == 100 * Power10(d)
      else Power10(k) == 1000 * (Power10(d) * Power10(k - d - 3))
  {
    CentPower();
    PowerSum(2, d);
    if k > d + 2 {
      PowerSum(3, d + (k - d - 3));
      PowerSum(d, k - d - 3);
    }
  }

  /** An amount in Arabic digits is within half a fen of its exact value, unless rounding
      the product to 28 digits lifted it onto a tie: precisely then it is further off. */
  lemma HalfFenIff(literal: Literal, fen: nat)
    requires ArabicValue(literal) == Amount(fen)
    ensures WithinHalfFen(fen, literal) <==> !LiftedOntoTie(literal)
  {
    if literal.wan && Width(literal.mantissa * 10_000) > PRECISION {
      RoundedIff(literal.mantissa * 10_000, literal.scale, fen);
    } else {
      HalfUpBounds(if literal.wan then literal.mantissa * 10_000 else literal.mantissa, Power10(literal.scale), fen);
    }
  }

  lemma RoundedIff(p: nat, k: nat, fen: nat)
    requires Width(p) > PRECISION && Quantize(ContextRound(p), Power10(k)) == Amount(fen)
    ensures Near(fen * Power10(k), 100 * p, Power10(k)) <==>
      !(ContextRound(p) > p && IsTie(ContextRound(p), Power10(k)))
  {
    hide RoundHalfEven, RoundHalfUp, Near, IsTie, Width, Power10;
    var d := Width(p) - PRECISION;
    var g := Power10(d);
    var t := RoundHalfEven(p, g);
    HalfEvenBounds(p, g, t);
    ScaleIsLarge(p, d, k, t);
    ScaleParts(d, k);
    if k == d + 2 {
      CoarseCase(p, g, t, fen);
    } else {
      FineCase(p, g, t, Power10(k - d - 3), fen);
    }
  }

  /** Enough for every practical amount: at most 24 significant digits before scaling. */
  lemma ShortAmountsAreExact(literal: Literal, fen: nat)
    requires ArabicValue(literal) == Amount(fen) && literal.mantissa * 10_000 < Power10(PRECISION)
    ensures WithinHalfFen(fen, literal)
  {
    var p := literal.mantissa * 10_000;
    if Width(p) > PRECISION { PowerMonotone(PRECISION, Width(p) - 1); }
    HalfFenIff(literal, fen);
  }

  lemma {:induction false} WidthIs(n: nat, w: nat)
    requires w >= 1 && n < Power10(w) && Power10(w - 1) <= n
    ensures Width(n) == w
  {
    if Width(n) < w { PowerMonotone(Width(n), w - 1); }
    if Width(n) > w { PowerMonotone(w, Width(n) - 1); }
  }

  function Nines(k: nat): (s: string)
    ensures |s| == k && AllDigits(s)
  {
    if k == 0 then "" else Nines(k - 1) + ['9']
  }

  lemma NineMore(n: nat, x: nat, y: nat)
    requires n + 1 == x * y
    ensures 10 * n + 9 + 1 == x * (10 * y)
  {
  }

  lemma {:induction false} NinesAfter(a: string, k: nat)
    requires AllDigits(a)
    ensures AllDigits(a + Nines(k)) && Number(a + Nines(k)) + 1 == (Number(a) + 1) * Power10(k)
  {
    hide Number;
    if k == 0 {
      assert a + Nines(0) == a;
    } else {
      var front := a + Nines(k - 1);
      NinesAfter(a, k - 1);
      NumberSnoc(front, '9');
      assert front + ['9'] == a + Nines(k);
      NineMore(Number(front), Number(a) + 1, Power10(k - 1));
    }
  }

  lemma WanIsPlain(yuan: char, digits: string)
    requires IsDigit(yuan) && AllDigits(digits)
    ensures Plain([yuan] + "." + digits + "万")
  {
    DigitsArePlain([yuan]);
    DigitsArePlain(digits);
    PlainAppend([yuan], ".");
    PlainAppend([yuan] + ".", digits);
    PlainAppend([yuan] + "." + digits, "万");
  }

  lemma MatchedAt(text: string, j: nat, k: nat)
    requires 0 < j < k - 1 < |text| - 1 && AllDigits(text[..j]) && AllDigits(text[j + 1..k]) && text[j] == '.'
    requires text[k..] == "万"
    ensures MatchArabic(text) == Some(Literal(Number(text[..j] + text[j + 1..k]), k - j - 1, true))
  {
    hide Number;
    assert text[0..j] == text[..j];
    assert text[k] == text[k..][0];
    DigitsEndIs(text, 0, j);
    DigitsEndIs(text, j + 1, k);
  }

  lemma WanMatches(yuan: char, digits: string)
    requires IsDigit(yuan) && AllDigits(digits) && digits != ""
    ensures AllDigits([yuan] + digits)
    ensures MatchArabic([yuan] + "." + digits + "万") == Some(Literal(Number([yuan] + digits), |digits|, true))
  {
    hide Number, MatchArabic;
    var text := [yuan] + "." + digits + "万";
    var k := 2 + |digits|;
    assert text[..1] == [yuan] && text[2..k] == digits && text[k..] == "万";
    MatchedAt(text, 1, k);
  }

  /** A literal with one digit before the point, in units of ten thousand. */
  lemma DecimalWan(yuan: char, digits: string)
    requires IsDigit(yuan) && AllDigits(digits) && digits != ""
    ensures AllDigits([yuan] + digits)
    ensures Parse([yuan] + "." + digits + "万") == ArabicValue(Literal(Number([yuan] + digits), |digits|, true))
  {
    hide Clean, Number, ArabicValue, MatchArabic, Plain;
    WanIsPlain(yuan, digits);
    CleanPlain([yuan] + "." + digits + "万");
    WanMatches(yuan, digits);
  }

  /** 0.0000004 followed by twenty-eight nines, in units of ten thousand: a little less
      than half a fen, yet parsed as one fen. */
  lemma HalfFenMissed()
    ensures Parse("0.0000004" + Nines(28) + "万") == Amount(1)
    ensures AllDigits("00000004" + Nines(28))
    ensures !WithinHalfFen(1, Literal(Number("00000004" + Nines(28)), 35, true))
  {
    hide Parse, ArabicValue, WithinHalfFen, Number;
    var digits := "0000004" + Nines(28);
    assert "0.0000004" + Nines(28) + "万" == ['0'] + "." + digits + "万";
    assert "00000004" + Nines(28) == ['0'] + digits;
    DecimalWan('0', digits);
    FourAndNines();
    MissedLiteral();
  }

  lemma FourAndNines()
    ensures AllDigits("00000004" + Nines(28))
    ensures Number("00000004" + Nines(28)) == 49_999_999_999_999_999_999_999_999_999
  {
    LeadingZeros(7, "4");
    assert Zeros(7) == "0000000" by { assert Zeros(3) == "000"; assert Zeros(6) == "000000"; }
    assert Zeros(7) + "4" == "00000004";
    assert Number("4") == 4;
    NinesAfter("00000004", 28);
    PrecisionPower();
  }

  function Zeros(k: nat): (s: string)
    ensures |s| == k && AllDigits(s)
  {
    if k == 0 then "" else Zeros(k - 1) + ['0']
  }

  lemma {:induction false} LeadingZeros(k: nat, s: string)
    requires AllDigits(s)
    ensures Number(Zeros(k) + s) == Number(s)
  {
    if s == "" {
      assert Zeros(k) + s == Zeros(k);
      if k > 0 {
        LeadingZeros(k - 1, "");
        assert Zeros(k - 1) + "" == Zeros(k - 1);
        NumberSnoc(Zeros(k - 1), '0');
      }
    } else {
      var n := |s| - 1;
      LeadingZeros(k, s[..n]);
      NumberSnoc(Zeros(k) + s[..n], s[n]);
      assert Zeros(k) + s[..n] + [s[n]] == Zeros(k) + s;
    }
  }

  lemma MissedLiteral()
    ensures var literal := Literal(49_999_999_999_999_999_999_999_999_999, 35, true);
      ArabicValue(literal) == Amount(1) && !WithinHalfFen(1, literal)
  {
    var literal := Literal(49_999_999_999_999_999_999_999_999_999, 35, true);
    var p := literal.mantissa * 10_000;
    PrecisionPower();
    PowerSum(28, 4);
    PowerSum(28, 5);
    PowerSum(28, 7);
    assert Power10(4) == 10_000;
    assert Power10(5) == 100_000;
    assert Power10(7) == 10_000_000;
    WidthIs(p, 33);
    assert RoundHalfEven(p, 100_000) == 5_000_000_000_000_000_000_000_000_000;
    assert ContextRound(p) == 500_000_000_000_000_000_000_000_000_000_000;
  }

  // ---------------------------------------------------------------- compound units

  /** Any numeral glyphs in front of a yuan mark are worth what scanning adds up. */
  lemma GlyphsParse(yuan: string, mark: char)
    requires OnlyGlyphs(Classify, yuan) && yuan != "" && (mark == '元' || mark == '圆')
    requires 100 * Sum(Scan(Classify, START, yuan)) < Power10(PRECISION)
    ensures Parse(yuan + [mark]) == Amount(100 * Sum(Scan(Classify, START, yuan)))
  {
    hide Classify, Swap, Partition, Power10, Clean, MatchArabic, Scan, Sum;
    YuanFacts(yuan);
    PlainAppend(yuan, [mark]);
    CleanPlain(yuan + [mark]);
    NotArabic(yuan + [mark]);
    assert yuan + [mark] + "" == yuan + [mark];
    PartitionWritten(yuan, mark, "");
  }

  lemma CompoundScan(st: Style, x: nat)
    requires Means(Classify, st) && 0 < x < 10_000
    ensures var text := Places(st, x, 3, false, false) + [st.section(1)] + [st.section(2)];
      Sum(Scan(Classify, START, text)) == x * 10_000 + 100_000_000
  {
    hide Classify, Places;
    var front := Places(st, x, 3, false, false) + [st.section(1)];
    ScanSection(Classify, st, 0, x, 1, false, false);
    ScanAppend(Classify, START, front, [st.section(2)]);
    ScanOne(Classify, Scan(Classify, START, front), st.section(2));
    SectionPower(1);
  }

  lemma CompoundGlyphs(st: Style, x: nat)
    requires Means(Classify, st) && 0 < x < 10_000
    ensures OnlyGlyphs(Classify, Places(st, x, 3, false, false) + [st.section(1)] + [st.section(2)])
  {
    PlacePower(3);
    PlacesGlyphs(Classify, st, x, 3, false, false);
    hide Classify, Places;
    var front := Places(st, x, 3, false, false);
    assert OnlyGlyphs(Classify, [st.section(1)]) && OnlyGlyphs(Classify, [st.section(2)]);
    GlyphsAppend(Classify, front, [st.section(1)]);
    GlyphsAppend(Classify, front + [st.section(1)], [st.section(2)]);
  }

  /** Stacked section units, as in x wan yi, are parsed as a sum rather than a product. */
  lemma CompoundUnits(st: Style, x: nat, mark: char)
    requires Means(Classify, st) && 0 < x < 10_000 && (mark == '元' || mark == '圆')
    ensures var text := Places(st, x, 3, false, false) + [st.section(1)] + [st.section(2)] + [mark];
      Parse(text) == Amount(100 * (x * 10_000 + 100_000_000)) != Amount(100 * (x * 1_000_000_000_000))
  {
    hide Classify, Places, Parse, Scan;
    CompoundScan(st, x);
    CompoundGlyphs(st, x);
    PrecisionPower();
    GlyphsParse(Places(st, x, 3, false, false) + [st.section(1)] + [st.section(2)], mark);
  }
}
