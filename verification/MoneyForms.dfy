/** The characters and the literal forms of amounts: what each glyph means, the two usual
    styles, separators, and Arabic literals with and without a unit. */
module MoneyForms {
  import opened Ordering
  import opened DecimalDigits
  import opened Money
  import opened ChineseNumerals
  import opened MoneyRoundTrip
  import opened ArabicAmounts

  // ------------------------------------------------------------------------ the glyphs

  /** The characters of the digits 0 to 9, with their variants. */
  const DIGITS: seq<string> := ["零〇", "一壹", "二两贰貳", "三叁參", "四肆", "五伍", "六陆陸", "七柒", "八捌", "九玖"]

  /** Ten, hundred, thousand. */
  const SMALL_UNITS: seq<string> := ["十拾", "百佰", "千仟"]

  /** 10^4, 10^8, 10^12. */
  const SECTION_UNITS := "万亿兆"

  lemma DigitGlyphs(c: char, d: nat)
    requires d < 10
    ensures Classify(c) == Digit(d) <==> c in DIGITS[d]
  {
  }

  lemma SmallGlyphs(c: char, u: nat)
    ensures Classify(c) == Small(u) <==>
      (c in "十拾" && u == 10) || (c in "百佰" && u == 100) || (c in "千仟" && u == 1000)
  {
  }

  lemma SectionGlyphs(c: char, u: nat)
    ensures Classify(c) == Section(u) <==>
      (c == '万' && u == 10_000) || (c == '亿' && u == 100_000_000) || (c == '兆' && u == 1_000_000_000_000)
  {
  }

  /** Every other character is none of them. */
  lemma OtherCharacters(c: char)
    ensures Classify(c) == Other <==> c !in "零〇一壹二两贰貳三叁參四肆五伍六陆陸七柒八捌九玖十拾百佰千仟万亿兆"
    ensures forall d :: Classify(c) == Digit(d) ==> d < 10
  {
  }

  function GlyphAt(glyphs: string, i: nat): char { if i < |glyphs| then glyphs[i] else '零' }

  /** Everyday writing. */
  function PlainStyle(bareTen: bool): Style
  {
    Style((d: nat) => GlyphAt("零一二三四五六七八九", d), (k: nat) => GlyphAt("零十百千", k),
          (j: nat) => GlyphAt("零万亿兆", j), bareTen)
  }

  /** The forms that are hard to alter. */
  function FinancialStyle(bareTen: bool): Style
  {
    Style((d: nat) => GlyphAt("零壹贰叁肆伍陆柒捌玖", d), (k: nat) => GlyphAt("零拾佰仟", k),
          (j: nat) => GlyphAt("零万亿兆", j), bareTen)
  }

  lemma GlyphsMean(st: Style)
    requires forall d: nat :: d < 10 ==> st.digit(d) in DIGITS[d]
    requires st.small(1) in SMALL_UNITS[0] && st.small(2) in SMALL_UNITS[1] && st.small(3) in SMALL_UNITS[2]
    requires st.section(1) == SECTION_UNITS[0] && st.section(2) == SECTION_UNITS[1] && st.section(3) == SECTION_UNITS[2]
    ensures Means(Classify, st)
  {
    forall d: nat | d < 10 ensures Classify(st.digit(d)) == Digit(d) { DigitGlyphs(st.digit(d), d); }
    forall k: nat | 1 <= k <= 3 ensures Classify(st.small(k)) == Small(PlaceUnit(k)) {
      SmallGlyphs(st.small(k), PlaceUnit(k));
    }
    forall j: nat | 1 <= j <= 3 ensures Classify(st.section(j)) == Section(SectionUnit(j)) {
      SectionGlyphs(st.section(j), SectionUnit(j));
    }
    hide Classify;
  }

  lemma PlainMeans(bareTen: bool)
    ensures Means(Classify, PlainStyle(bareTen))
  {
    hide Classify, Means;
    GlyphsMean(PlainStyle(bareTen));
  }

  lemma FinancialMeans(bareTen: bool)
    ensures Means(Classify, FinancialStyle(bareTen))
  {
    hide Classify, Means;
    GlyphsMean(FinancialStyle(bareTen));
  }

  /** Every amount below 10^16 yuan in either style parses back, with or without the currency
      in front and the closing mark behind. */
  lemma StylesRoundTrip(financial: bool, bareTen: bool, mark: char, amount: nat)
    requires (mark == '元' || mark == '圆') && amount < 1_000_000_000_000_000_000
    ensures var text := ChineseText(if financial then FinancialStyle(bareTen) else PlainStyle(bareTen), mark, amount);
      && Parse(text) == Amount(amount)
      && Parse("人民币" + text) == Amount(amount)
      && Parse(text + "整") == Amount(amount)
      && Parse("人民币" + text + "整") == Amount(amount)
  {
    hide *;
    PlainMeans(bareTen);
    FinancialMeans(bareTen);
    ChineseRoundTrip(if financial then FinancialStyle(bareTen) else PlainStyle(bareTen), mark, amount);
  }

  // ------------------------------------------------------------------- reading numerals

  /** One more character: a digit replaces the digit before it; ten, hundred and thousand
      multiply it into the section; ten thousand and above multiply the section into the
      total.  A unit without a digit or section in front counts once. */
  lemma OneMoreGlyph(text: string, c: char)
    ensures var s, t := Scan(Classify, START, text), Scan(Classify, START, text + [c]);
      && (forall d: nat :: d < 10 && c in DIGITS[d] ==> t == Accumulators(s.total, s.section, d))
      && (forall u: nat :: Classify(c) == Small(u) ==>
            t == Accumulators(s.total, s.section + u * (if s.number > 0 then s.number else 1), 0))
      && (forall u: nat :: Classify(c) == Section(u) ==>
            t == Accumulators(s.total + u * (if s.section + s.number > 0 then s.section + s.number else 1), 0, 0))
  {
    hide Classify, Scan;
    ScanSnoc(text, c);
    forall d: nat | d < 10 ensures Classify(c) == Digit(d) <==> c in DIGITS[d] { DigitGlyphs(c, d); }
    StepIs(Scan(Classify, START, text), Classify(c));
  }

  lemma StepIs(s: Accumulators, g: Glyph)
    ensures var t := Step(s, g);
      && (forall d: nat :: g == Digit(d) ==> t == Accumulators(s.total, s.section, d))
      && (forall u: nat :: g == Small(u) ==>
            t == Accumulators(s.total, s.section + u * (if s.number > 0 then s.number else 1), 0))
      && (forall u: nat :: g == Section(u) ==>
            t == Accumulators(s.total + u * (if s.section + s.number > 0 then s.section + s.number else 1), 0, 0))
  {
  }

  lemma ScanSnoc(text: string, c: char)
    ensures Scan(Classify, START, text + [c]) == Step(Scan(Classify, START, text), Classify(c))
  {
    DropSnoc(text, c);
    hide Classify, Step;
  }

  // ------------------------------------------------------------------------- separators

  /** The text without blanks, commas and closing marks. */
  function Squeezed(text: string): string
  {
    if text == "" then ""
    else
      var n := |text| - 1;
      Squeezed(text[..n]) + if text[n] in " ,，整" then "" else [text[n]]
  }

  function Dropped(c: char, text: string): string
  {
    if text == "" then ""
    else
      var n := |text| - 1;
      Dropped(c, text[..n]) + if text[n] == c then "" else [text[n]]
  }

  lemma {:induction false} DroppedHead(c: char, text: string)
    requires text != ""
    ensures Dropped(c, text) == (if text[0] == c then "" else [text[0]]) + Dropped(c, text[1..])
  {
    if |text| > 1 {
      DroppedHead(c, text[..|text| - 1]);
      assert text[1..][..|text| - 2] == text[..|text| - 1][1..];
    } else {
      assert text[..0] == "" && text[1..] == "";
    }
  }

  lemma {:induction false} WithoutOne(text: string, c: char)
    ensures Without(text, [c]) == Dropped(c, text)
  {
    if text != "" {
      DroppedHead(c, text);
      assert text[..1] == [text[0]];
      WithoutOne(text[1..], c);
    }
  }

  lemma DroppedSnoc(c: char, text: string, x: char)
    ensures Dropped(c, text + [x]) == if x == c then Dropped(c, text) else Dropped(c, text) + [x]
  {
    DropSnoc(text, x);
  }

  lemma DroppedNothing()
    ensures forall c :: Dropped(c, "") == ""
  {
  }

  lemma {:induction false} SqueezedIs(text: string)
    ensures Squeezed(text) == Dropped('整', Dropped('，', Dropped(',', Dropped(' ', text))))
  {
    hide Dropped;
    if text == "" {
      DroppedNothing();
    } else {
      var front, x := text[..|text| - 1], text[|text| - 1];
      SqueezedIs(front);
      SnocParts(text);
      assert Squeezed(text) == if x in " ,，整" then Squeezed(front) else Squeezed(front) + [x];
      DroppedSnoc(' ', front, x);
      DroppedSnoc(',', Dropped(' ', front), x);
      DroppedSnoc('，', Dropped(',', Dropped(' ', front)), x);
      DroppedSnoc('整', Dropped('，', Dropped(',', Dropped(' ', front))), x);
    }
  }

  /** Cleaning removes exactly the separators from a text without the currency, and the
      currency in front. */
  lemma CleanIs(text: string)
    requires '人' !in text
    ensures Clean(text) == Squeezed(text) && Clean("人民币" + text) == Squeezed(text)
  {
    WithoutAbsent(text, "人民币");
    WithoutFirst("人民币", text);
    var a := Dropped(' ', text);
    var b := Dropped(',', a);
    WithoutOne(text, ' ');
    WithoutOne(a, ',');
    WithoutOne(b, '，');
    WithoutOne(Dropped('，', b), '整');
    SqueezedIs(text);
    hide Without, Dropped, Squeezed;
  }

  lemma {:induction false} SqueezedKeeps(text: string)
    ensures Plain(Squeezed(text)) || '人' in text
    ensures forall c :: c in Squeezed(text) ==> c in text
  {
    if text != "" {
      SnocParts(text);
      SqueezedKeeps(text[..|text| - 1]);
    }
  }

  /** Blanks, commas and closing marks anywhere, and the currency in front, make no difference. */
  lemma SeparatorsIgnored(text: string)
    requires '人' !in text
    ensures Parse(text) == Parse("人民币" + text) == Parse(Squeezed(text))
  {
    hide MatchArabic, ArabicValue, ParseChinese, Clean, Squeezed;
    CleanIs(text);
    SqueezedKeeps(text);
    CleanPlain(Squeezed(text));
  }

  // -------------------------------------------------------------------- Arabic literals

  lemma Distribute(x: int, p: int, y: int, d: int)
    ensures 10 * (x * p + y) + d == x * (10 * p) + (10 * y + d)
  {
  }

  lemma {:induction false} NumberAppend(a: string, b: string)
    requires AllDigits(a) && AllDigits(b)
    ensures AllDigits(a + b) && Number(a + b) == Number(a) * Power10(|b|) + Number(b)
  {
    hide Number, Power10;
    if b == "" {
      assert a + b == a;
      NoDigits();
    } else {
      var n := |b| - 1;
      var front, last := b[..n], b[n];
      NumberAppend(a, front);
      NumberSnoc(front, last);
      NumberSnoc(a + front, last);
      TenFold(n);
      Distribute(Number(a), Power10(n), Number(front), DigitValue(last));
      assert (a + front) + [last] == a + b && front + [last] == b;
    }
  }

  lemma NoDigits()
    ensures AllDigits("") && Number("") == 0 && Power10(0) == 1
  {
  }

  /** A number is the sum of its digits, each at its place. */
  lemma DigitsMean(c: char, text: string)
    requires c in "0123456789" && AllDigits(text)
    ensures IsDigit(c) && AllDigits([c] + text) && "0123456789"[DigitValue(c)] == c
    ensures Number([c] + text) == DigitValue(c) * Power10(|text|) + Number(text)
  {
    assert [c][..0] == "";
    assert Number([c]) == DigitValue(c);
    NumberAppend([c], text);
  }

  /** Digits, possibly a point and more digits, and the unit. */
  function LiteralText(yuan: string, cents: string, unit: string): string
  {
    yuan + (if cents == "" then "" else "." + cents) + unit
  }

  const UNITS: seq<string> := ["", "元", "万", "万元"]

  lemma LiteralMatches(yuan: string, cents: string, unit: string)
    requires AllDigits(yuan) && AllDigits(cents) && yuan != "" && unit in UNITS
    ensures AllDigits(yuan + cents)
    ensures MatchArabic(LiteralText(yuan, cents, unit)) ==
      Some(Literal(Number(yuan + cents), |cents|, unit == "万" || unit == "万元"))
  {
    hide *;
    AllAppend(yuan, cents);
    UnitIs(unit);
    if cents == "" {
      WholeParts(yuan, unit);
      assert yuan + cents == yuan;
      MatchedWhole(LiteralText(yuan, cents, unit), |yuan|, unit == "万" || unit == "万元");
    } else {
      PointParts(yuan, cents, unit);
      MatchedPoint(LiteralText(yuan, cents, unit), |yuan|, |yuan| + 1 + |cents|, unit == "万" || unit == "万元");
    }
  }

  lemma AllAppend(a: string, b: string)
    requires AllDigits(a) && AllDigits(b)
    ensures AllDigits(a + b)
  {
  }

  lemma WholeParts(yuan: string, unit: string)
    ensures var text, j := LiteralText(yuan, "", unit), |yuan|;
      && j <= |text| && text[0..j] == text[..j] == yuan && text[j..] == unit
      && (j < |text| ==> text[j] == unit[0])
  {
    assert LiteralText(yuan, "", unit) == yuan + unit;
  }

  lemma PointParts(yuan: string, cents: string, unit: string)
    requires cents != ""
    ensures var text, j, k := LiteralText(yuan, cents, unit), |yuan|, |yuan| + 1 + |cents|;
      && k <= |text| && text[0..j] == text[..j] == yuan && text[j] == '.' && text[j + 1..k] == cents
      && text[k..] == unit
      && (k < |text| ==> text[k] == unit[0])
  {
    assert LiteralText(yuan, cents, unit) == yuan + ("." + cents + unit);
  }

  lemma MatchedWhole(text: string, j: nat, wan: bool)
    requires 0 < j <= |text| && AllDigits(text[0..j]) && text[0..j] == text[..j] && ArabicSuffix(text[j..]) == Some(wan)
    requires j < |text| ==> !IsDigit(text[j]) && text[j] != '.'
    ensures MatchArabic(text) == Some(Literal(Number(text[..j]), 0, wan))
  {
    hide Number, ArabicSuffix;
    DigitsEndIs(text, 0, j);
  }

  lemma MatchedPoint(text: string, j: nat, k: nat, wan: bool)
    requires 0 < j < k - 1 && k <= |text| && AllDigits(text[0..j]) && text[0..j] == text[..j]
    requires text[j] == '.' && AllDigits(text[j + 1..k]) && ArabicSuffix(text[k..]) == Some(wan)
    requires k < |text| ==> !IsDigit(text[k])
    ensures AllDigits(text[..j] + text[j + 1..k])
    ensures MatchArabic(text) == Some(Literal(Number(text[..j] + text[j + 1..k]), k - j - 1, wan))
  {
    hide Number, ArabicSuffix;
    DigitsEndIs(text, 0, j);
    DigitsEndIs(text, j + 1, k);
  }

  lemma UnitIs(unit: string)
    requires unit in UNITS
    ensures ArabicSuffix(unit) == Some(unit == "万" || unit == "万元")
    ensures unit != "" ==> !IsDigit(unit[0]) && unit[0] != '.'
    ensures Plain(unit)
  {
  }

  /** Nothing else is an Arabic literal. */
  lemma OnlyLiterals(text: string) returns (yuan: string, cents: string, unit: string)
    requires MatchArabic(text).Some?
    ensures AllDigits(yuan) && AllDigits(cents) && yuan != "" && unit in UNITS && text == LiteralText(yuan, cents, unit)
  {
    hide Number;
    var j := DigitsEnd(text, 0);
    var k := if j < |text| && text[j] == '.' then DigitsEnd(text, j + 1) else j;
    var end := if k > j + 1 then k else j;
    assert text[0..j] == text[..j];
    yuan, cents, unit := text[..j], if end == j then "" else text[j + 1..k], text[end..];
    assert unit in UNITS by { UnitsAre(unit); }
    assert text == LiteralText(yuan, cents, unit);
  }

  lemma UnitsAre(unit: string)
    requires ArabicSuffix(unit).Some?
    ensures unit in UNITS
  {
    assert UNITS[0] == "" && UNITS[1] == "元" && UNITS[2] == "万" && UNITS[3] == "万元";
  }

  /** The amount of a literal: its exact value rounded to the nearest fen, halves upwards, as
      long as it has at most 28 digits before and after scaling. */
  lemma LiteralMeans(yuan: string, cents: string, unit: string)
    requires AllDigits(yuan) && AllDigits(cents) && yuan != "" && unit in UNITS
    ensures AllDigits(yuan + cents)
    ensures var n, s := Number(yuan + cents) * (if unit == "万" || unit == "万元" then 10_000 else 1), Power10(|cents|);
      n < 10_000_000_000_000_000_000_000_000_000 ==>
        match Parse(LiteralText(yuan, cents, unit))
        case Amount(fen) => fen < 10_000_000_000_000_000_000_000_000_000
          && 2 * (fen * s) <= 200 * n + s < 2 * (fen * s) + 2 * s
        case Raised => 200 * n + s >= 2 * (10_000_000_000_000_000_000_000_000_000 * s)
        case Nothing => false
  {
    hide Number, MatchArabic, Clean, Width, Power10;
    var text := LiteralText(yuan, cents, unit);
    LiteralIsPlain(yuan, cents, unit);
    CleanPlain(text);
    LiteralMatches(yuan, cents, unit);
    var literal := Literal(Number(yuan + cents), |cents|, unit == "万" || unit == "万元");
    LiteralValue(literal);
  }

  lemma LiteralIsPlain(yuan: string, cents: string, unit: string)
    requires AllDigits(yuan) && AllDigits(cents) && yuan != "" && unit in UNITS
    ensures Plain(LiteralText(yuan, cents, unit)) && LiteralText(yuan, cents, unit) != ""
  {
    DigitsArePlain(yuan);
    DigitsArePlain(cents);
    UnitIs(unit);
    PlainAppend(".", cents);
    PlainAppend(yuan, if cents == "" then "" else "." + cents);
    PlainAppend(yuan + (if cents == "" then "" else "." + cents), unit);
  }

  lemma LiteralValue(literal: Literal)
    ensures var n, s := literal.mantissa * (if literal.wan then 10_000 else 1), Power10(literal.scale);
      n < 10_000_000_000_000_000_000_000_000_000 ==>
        match ArabicValue(literal)
        case Amount(fen) => fen < 10_000_000_000_000_000_000_000_000_000
          && 2 * (fen * s) <= 200 * n + s < 2 * (fen * s) + 2 * s
        case Raised => 200 * n + s >= 2 * (10_000_000_000_000_000_000_000_000_000 * s)
        case Nothing => false
  {
    hide Power10, RoundHalfUp, Width;
    PrecisionPower();
    var n, s := literal.mantissa * (if literal.wan then 10_000 else 1), Power10(literal.scale);
    if n < Power10(PRECISION) {
      NotWide(n, PRECISION);
      var f := RoundHalfUp(100 * n, s);
      HalfUpBounds(n, s, f);
      if f >= Power10(PRECISION) { Scale(Power10(PRECISION), f, s); }
    }
  }

  lemma NotWide(n: nat, k: nat)
    requires n < Power10(k) && k > 0
    ensures Width(n) <= k
  {
    var w := Width(n);
    if w > k { PowerMonotone(k, w - 1); }
  }

  /** Amounts in whole yuan and in units of ten thousand are exact. */
  lemma WholeAmounts(digits: string)
    requires AllDigits(digits) && digits != "" && Number(digits) < 10_000_000_000_000_000_000_000
    ensures Parse(digits) == Parse(digits + "元") == Amount(100 * Number(digits))
    ensures Parse(digits + "万") == Parse(digits + "万元") == Amount(1_000_000 * Number(digits))
  {
    hide Parse, Number, Power10;
    assert digits + "" == digits;
    forall unit | unit in UNITS
      ensures Parse(digits + unit) == Amount(100 * Number(digits) * if unit == "万" || unit == "万元" then 10_000 else 1)
    {
      assert LiteralText(digits, "", unit) == digits + unit;
      LiteralMeans(digits, "", unit);
      NoDigits();
    }
    assert UNITS[0] == "" && UNITS[1] == "元" && UNITS[2] == "万" && UNITS[3] == "万元";
  }

  /** Rounding to the precision of the library gives the nearest number with 28 significant
      digits, and of two equally near ones the one with an even last digit. */
  lemma ContextRoundMeans(p: nat)
    requires Width(p) > 28
    ensures exists t: nat :: Keeps(p, ContextRound(p), t)
  {
    hide Width, Power10;
    var g := Power10(Width(p) - 28);
    var t := RoundHalfEven(p, g);
    HalfEvenBounds(p, g, t);
    if 2 * (t * g - p) == g || 2 * (p - t * g) == g { EvenTie(p, g, t); }
    assert Keeps(p, ContextRound(p), t);
  }

  /** All but the first 28 digits of p are rounded away; the kept digits t are the nearest, or
      even. */
  predicate Keeps(p: nat, rounded: nat, t: nat)
    requires Width(p) > 28
  {
    var g := Power10(Width(p) - 28);
    && rounded == t * g
    && 2 * (t * g - p) <= g && 2 * (p - t * g) <= g
    && (2 * (t * g - p) == g || 2 * (p - t * g) == g ==> t % 2 == 0)
  }

  lemma EvenTie(n: nat, g: nat, t: nat)
    requires g > 0 && t == RoundHalfEven(n, g) && (2 * (t * g - n) == g || 2 * (n - t * g) == g)
    ensures t % 2 == 0
  {
    var q, r := n / g, n % g;
    FloorBounds(n, g, q);
    assert (q + 1) * g == q * g + g;
    if t == q + 1 { assert 2 * r == g; }
  }

  // ------------------------------------------------------------------- Chinese amounts

  /** The digit in front of the first mark, when there is one. */
  lemma BeforeMeans(fraction: string, mark: char, d: nat)
    requires d < 10
    ensures (exists i :: MarkedAt(fraction, mark, i) && fraction[i - 1] in DIGITS[d]) ==> Before(fraction, mark) == d
    ensures Before(fraction, mark) == d > 0 ==> exists i :: MarkedAt(fraction, mark, i) && fraction[i - 1] in DIGITS[d]
  {
    hide Classify;
    if i :| MarkedAt(fraction, mark, i) && fraction[i - 1] in DIGITS[d] {
      FindIs(fraction, mark, i);
      DigitGlyphs(fraction[i - 1], d);
    }
    if Before(fraction, mark) == d > 0 {
      var i := Find(fraction, mark);
      assert MarkedAt(fraction, mark, i);
      DigitGlyphs(fraction[i - 1], d);
    }
  }

  predicate MarkedAt(text: string, mark: char, i: int)
  {
    0 < i < |text| && text[i] == mark && mark !in text[..i]
  }

  predicate DigitText(text: string) { forall i :: 0 <= i < |text| ==> exists d :: 0 <= d < 10 && text[i] in DIGITS[d] }

  lemma OneDigitGlyph(c: char, d: nat)
    requires d < 10 && c in DIGITS[d]
    ensures Classify(c) == Digit(d)
  {
    DigitGlyphs(c, d);
  }

  lemma {:induction false} LastDigitScanned(text: string, d: nat)
    requires text != "" && DigitText(text) && d < 10 && text[|text| - 1] in DIGITS[d]
    ensures Scan(Classify, START, text) == Accumulators(0, 0, d)
  {
    hide Classify, Scan;
    var front, c := text[..|text| - 1], text[|text| - 1];
    SnocParts(text);
    OneMoreGlyph(front, c);
    if front == "" {
      NothingScanned();
    } else {
      var e: nat :| e < 10 && front[|front| - 1] in DIGITS[e];
      LastDigitScanned(front, e);
    }
  }

  lemma NothingScanned()
    ensures Scan(Classify, START, "") == START
  {
  }

  /** Digits without units do not stand at places: each replaces the one before it, so only
      the last one counts.  One digit alone is what it says. */
  lemma OnlyTheLastDigit(text: string, d: nat, mark: char)
    requires text != "" && DigitText(text) && d < 10 && text[|text| - 1] in DIGITS[d] && (mark == '元' || mark == '圆')
    ensures Parse(text + [mark]) == Amount(100 * d)
  {
    hide Classify, Scan, Parse, Power10;
    LastDigitScanned(text, d);
    forall i | 0 <= i < |text| ensures !Classify(text[i]).Other? {
      var e: nat :| e < 10 && text[i] in DIGITS[e];
      OneDigitGlyph(text[i], e);
    }
    PrecisionPower();
    GlyphsParse(text, mark);
  }

  lemma DigitsOverwritten()
    ensures Parse("三元") == Amount(300) && Parse("一二三元") == Amount(300)
  {
    hide Parse;
    assert '一' in DIGITS[1] && '二' in DIGITS[2] && '三' in DIGITS[3];
    assert "三" + ['元'] == "三元" && "一二三" + ['元'] == "一二三元";
    OnlyTheLastDigit("三", 3, '元');
    OnlyTheLastDigit("一二三", 3, '元');
  }

  /** A character that is no numeral, in front of every yuan mark. */
  predicate Foreign(text: string, i: int)
  {
    && 0 <= i < |text| && Classify(text[i]).Other?
    && forall k :: 0 <= k <= i ==> text[k] != '元' && text[k] != '圆'
  }

  /** There is no amount exactly when nothing is left after cleaning, or a text that is no
      Arabic literal has a foreign character or is just a mark. */
  lemma NothingIff(text: string)
    ensures var cleaned := Clean(text);
      Parse(text) == Nothing <==>
        || cleaned == "" || cleaned == "元" || cleaned == "圆"
        || (MatchArabic(cleaned).None? && exists i :: Foreign(cleaned, i))
  {
    hide *;
    MarksAreNoLiterals();
    ParsedNothing(text);
    if Clean(text) != "" { PartsIff(Clean(text)); }
  }

  lemma ParsedNothing(text: string)
    ensures Parse(text) == Nothing <==>
      || Clean(text) == ""
      || (MatchArabic(Clean(text)).None? && !AllGlyphs(Partition(Swap(Clean(text), '圆', '元')).0))
  {
    hide Clean, MatchArabic, RoundHalfUp, ContextRound, Power10, Scan, AllGlyphs, Partition, Swap;
  }

  lemma MarksAreNoLiterals()
    ensures MatchArabic("元").None? && MatchArabic("圆").None?
  {
    hide MatchArabic;
    NotArabic("元");
    NotArabic("圆");
  }

  lemma PartsIff(text: string)
    requires text != ""
    ensures !AllGlyphs(Partition(Swap(text, '圆', '元')).0) <==>
      text == "元" || text == "圆" || exists i :: Foreign(text, i)
  {
    hide Classify, Swap;
    var s := Swap(text, '圆', '元');
    var at := Find(s, '元');
    SwapEach(text, '圆', '元');
    MarkIsOther();
    var part := Partition(s).0;
    if at == 0 && |s| == 1 {
      assert part == s && part[0] == '元' && text == [text[0]];
    } else {
      assert part == s[..at];
      forall i | 0 <= i < at ensures part[i] == text[i] && text[i] != '元' && text[i] != '圆' {
      }
      if !AllGlyphs(part) {
        var i :| 0 <= i < |part| && Classify(part[i]).Other?;
        assert Foreign(text, i);
      }
      if i :| Foreign(text, i) {
        assert i < at;
        assert Classify(part[i]).Other?;
      }
    }
  }

  lemma MarkIsOther()
    ensures Classify('元').Other?
  {
    hide Classify;
    OtherCharacters('元');
  }

  lemma {:induction false} SwapEach(text: string, a: char, b: char)
    ensures forall i :: 0 <= i < |text| ==> Swap(text, a, b)[i] == if text[i] == a then b else text[i]
  {
    if text != "" { SwapEach(text[1..], a, b); }
  }

  /** An amount in Chinese digits counts as many yuan as its numeral says and the digits before
      the marks of jiao and fen; it raises from 10^28 fen on, and only then. */
  lemma ChineseAmountIs(text: string)
    requires Clean(text) != "" && MatchArabic(Clean(text)).None?
    requires AllGlyphs(Partition(Swap(Clean(text), '圆', '元')).0)
    ensures var parts := Partition(Swap(Clean(text), '圆', '元'));
      var fen := 100 * Sum(Scan(Classify, START, parts.0)) + 10 * Before(parts.1, '角') + Before(parts.1, '分');
      Parse(text) == if fen < 10_000_000_000_000_000_000_000_000_000 then Amount(fen) else Raised
  {
    PrecisionPower();
  }
}
