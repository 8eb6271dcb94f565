/** Written amounts parse back exactly, in Chinese and in Arabic numerals. */
module MoneyRoundTrip {
  import opened Ordering
  import opened DecimalDigits
  import opened Money
  import opened ChineseNumerals

  // ------------------------------------------------------------- how amounts are written

  /** Jiao and fen, with a zero in front of a lone fen digit. */
  function FractionText(st: Style, jiao: nat, fen: nat): string
  {
    (if jiao > 0 then [st.digit(jiao), '角'] else if fen > 0 then [st.digit(0)] else "")
    + (if fen > 0 then [st.digit(fen), '分'] else "")
  }

  function ChineseText(st: Style, mark: char, amount: nat): string
  {
    Numeral(st, amount / 100) + [mark] + FractionText(st, amount / 10 % 10, amount % 10)
  }

  /** Yuan, a point and two digits. */
  function ArabicText(amount: nat): string
  {
    var yuan := amount / 100;
    Padded(yuan, Width(yuan)) + "." + Padded(amount % 100, 2)
  }

  // ------------------------------------------------------------------------- cleaning

  lemma {:induction false} WithoutAbsent(text: string, phrase: string)
    requires phrase != "" && phrase[0] !in text
    ensures Without(text, phrase) == text
  {
    if |text| >= |phrase| {
      assert text[..|phrase|][0] == text[0];
      WithoutAbsent(text[1..], phrase);
      assert text == [text[0]] + text[1..];
    }
  }

  lemma {:induction false} WithoutLast(text: string, c: char)
    requires c !in text
    ensures Without(text + [c], [c]) == text
  {
    var whole := text + [c];
    if text == "" {
      assert whole[..1] == [c];
      assert Without(whole[1..], [c]) == "";
    } else {
      assert whole[..1] == [text[0]];
      assert whole[1..] == text[1..] + [c];
      WithoutLast(text[1..], c);
      assert text == [text[0]] + text[1..];
    }
  }

  lemma WithoutFirst(phrase: string, text: string)
    requires phrase != ""
    ensures Without(phrase + text, phrase) == Without(text, phrase)
  {
    assert (phrase + text)[..|phrase|] == phrase;
    assert (phrase + text)[|phrase|..] == text;
  }

  /** No character of the text is removed by cleaning. */
  predicate Plain(text: string)
  {
    forall i :: 0 <= i < |text| ==>
      text[i] != '人' && text[i] != ' ' && text[i] != ',' && text[i] != '，' && text[i] != '整'
  }

  lemma CleanPlain(text: string)
    requires Plain(text)
    ensures Clean(text) == text
  {
    WithoutAbsent(text, "人民币");
    WithoutAbsent(text, " ");
    WithoutAbsent(text, ",");
    WithoutAbsent(text, "，");
    WithoutAbsent(text, "整");
  }

  /** The currency in front and the closing mark behind are dropped. */
  lemma CleanDecorated(text: string)
    requires Plain(text)
    ensures Clean("人民币" + text) == text
    ensures Clean(text + "整") == text
    ensures Clean("人民币" + text + "整") == text
  {
    WithoutFirst("人民币", text);
    CleanPlain(text);
    CleanClosed(text);
    WithoutFirst("人民币", text + "整");
    assert "人民币" + (text + "整") == "人民币" + text + "整";
  }

  lemma CleanClosed(text: string)
    requires Plain(text)
    ensures Without(text + "整", "人民币") == text + "整" && Clean(text + "整") == text
  {
    var whole := text + "整";
    WithoutAbsent(whole, "人民币");
    WithoutAbsent(whole, " ");
    WithoutAbsent(whole, ",");
    WithoutAbsent(whole, "，");
    WithoutLast(text, '整');
  }

  // -------------------------------------------------------------------- written glyphs

  ghost predicate OnlyGlyphs(classify: char -> Glyph, text: string)
  {
    forall i :: 0 <= i < |text| ==> !classify(text[i]).Other?
  }

  lemma GlyphsAppend(classify: char -> Glyph, a: string, b: string)
    requires OnlyGlyphs(classify, a) && OnlyGlyphs(classify, b)
    ensures OnlyGlyphs(classify, a + b)
  {
  }

  lemma PlaceGlyphs(classify: char -> Glyph, st: Style, d: nat, k: nat, first: bool, gap: bool)
    requires Means(classify, st) && 0 < d < 10 && k <= 3
    ensures OnlyGlyphs(classify, Filler(st, gap) + PlaceText(st, d, k, first))
  {
  }

  lemma {:induction false} PlacesGlyphs(classify: char -> Glyph, st: Style, v: nat, k: nat, printed: bool, gap: bool)
    requires Means(classify, st) && k <= 3 && v < 10 * Power10(k)
    ensures OnlyGlyphs(classify, Places(st, v, k, printed, gap))
    ensures v > 0 ==> Places(st, v, k, printed, gap) != ""
    decreases k
  {
    var p := DivMod(v, Power10(k));
    QuotientBound(v, Power10(k), 10);
    if p.0 > 0 {
      PlaceGlyphs(classify, st, p.0, k, !printed, gap);
    }
    if k > 0 { PlacesGlyphs(classify, st, p.1, k - 1, printed || p.0 > 0, printed && p.0 == 0); }
  }

  lemma FrontGlyphs(classify: char -> Glyph, st: Style, v: nat, j: nat, printed: bool, gap: bool, front: string)
    requires Means(classify, st) && j <= 3 && v < 10_000
    requires front == if v == 0 then "" else Places(st, v, 3, printed, gap) + SectionMark(st, j)
    ensures OnlyGlyphs(classify, front) && (v > 0 ==> front != "")
  {
    if v > 0 {
      PlacePower(3);
      PlacesGlyphs(classify, st, v, 3, printed, gap);
      GlyphsAppend(classify, Places(st, v, 3, printed, gap), SectionMark(st, j));
    }
  }

  lemma {:induction false} SectionsGlyphs(classify: char -> Glyph, st: Style, n: nat, j: nat, printed: bool, gap: bool)
    requires Means(classify, st) && j <= 3 && n < 10_000 * Power10(4 * j)
    ensures OnlyGlyphs(classify, Sections(st, n, j, printed, gap))
    ensures n > 0 ==> Sections(st, n, j, printed, gap) != ""
    decreases j
  {
    hide Sections, Places, SectionMark, Power10;
    var v, rest, front, back, printed', gap' := SectionParts(st, n, j, printed, gap);
    FrontGlyphs(classify, st, v, j, printed, gap, front);
    if j > 0 { SectionsGlyphs(classify, st, rest, j - 1, printed', gap'); }
  }

  lemma NumeralGlyphs(classify: char -> Glyph, st: Style, n: nat)
    requires Means(classify, st) && n < 10_000_000_000_000_000
    ensures OnlyGlyphs(classify, Numeral(st, n)) && Numeral(st, n) != ""
  {
    if n > 0 {
      SectionPower(3);
      SectionsGlyphs(classify, st, n, 3, false, false);
    }
  }

  /** No numeral glyph is a digit, a currency mark or a character that cleaning removes. */
  lemma GlyphIsPlain(c: char)
    requires !Classify(c).Other?
    ensures !IsDigit(c) && c != '元' && c != '圆' && c != '角' && c != '分'
    ensures Plain([c])
  {
  }

  // ----------------------------------------------------------------- the round trip

  lemma {:induction false} SwapAbsent(text: string, a: char, b: char)
    requires a !in text
    ensures Swap(text, a, b) == text
  {
    if text != "" { SwapAbsent(text[1..], a, b); }
  }

  lemma {:induction false} SwapAppend(x: string, y: string, a: char, b: char)
    ensures Swap(x + y, a, b) == Swap(x, a, b) + Swap(y, a, b)
  {
    if x == "" {
      assert x + y == y;
    } else {
      assert (x + y)[1..] == x[1..] + y;
      SwapAppend(x[1..], y, a, b);
    }
  }

  lemma {:induction false} FindAppend(x: string, c: char, y: string)
    requires c !in x
    ensures Find(x + [c] + y, c) == |x|
  {
    var whole := x + [c] + y;
    assert whole[|x|] == c;
    var i := Find(whole, c);
    assert forall k :: 0 <= k < |x| ==> whole[k] == x[k];
  }

  /** What is known of the three parts of a written amount. */
  predicate NoMarks(text: string)
  {
    forall i :: 0 <= i < |text| ==> text[i] != '元' && text[i] != '圆'
  }

  lemma PartitionWritten(yuan: string, mark: char, fraction: string)
    requires NoMarks(yuan) && NoMarks(fraction) && yuan != "" && (mark == '元' || mark == '圆')
    ensures Partition(Swap(yuan + [mark] + fraction, '圆', '元')) == (yuan, fraction)
  {
    SwapAppend(yuan + [mark], fraction, '圆', '元');
    SwapAppend(yuan, [mark], '圆', '元');
    SwapAbsent(yuan, '圆', '元');
    SwapAbsent(fraction, '圆', '元');
    assert Swap([mark], '圆', '元') == "元" by { assert [mark][1..] == ""; }
    var plain := yuan + ['元'] + fraction;
    FindAppend(yuan, '元', fraction);
    assert plain[..|yuan|] == yuan;
    assert plain[|yuan| + 1..] == fraction;
  }

  lemma YuanFacts(text: string)
    requires OnlyGlyphs(Classify, text)
    ensures AllGlyphs(text) && NoMarks(text) && Plain(text)
    ensures text != "" ==> !IsDigit(text[0])
  {
    forall i | 0 <= i < |text|
      ensures text[i] != '元' && text[i] != '圆' && !IsDigit(text[i]) && Plain([text[i]])
    {
      GlyphIsPlain(text[i]);
    }
    forall i | 0 <= i < |text|
      ensures text[i] != '人' && text[i] != ' ' && text[i] != ',' && text[i] != '，' && text[i] != '整'
    {
      assert Plain([text[i]]);
      assert [text[i]][0] == text[i];
    }
  }

  lemma FractionFacts(st: Style, jiao: nat, fen: nat)
    requires Means(Classify, st) && jiao < 10 && fen < 10
    ensures var text := FractionText(st, jiao, fen);
      NoMarks(text) && Plain(text) && Before(text, '角') == jiao && Before(text, '分') == fen
  {
    var text := FractionText(st, jiao, fen);
    forall d: nat | d < 10
      ensures Plain([st.digit(d)]) && NoMarks([st.digit(d)]) && st.digit(d) != '角' && st.digit(d) != '分'
    {
      assert !Classify(st.digit(d)).Other?;
      GlyphIsPlain(st.digit(d));
    }
    assert [st.digit(jiao)][0] == st.digit(jiao) && [st.digit(fen)][0] == st.digit(fen);
    assert [st.digit(0)][0] == st.digit(0);
    FractionMarks(st.digit(0), st.digit(jiao), st.digit(fen), jiao, fen, text);
  }

  lemma FindIs(text: string, c: char, i: nat)
    requires i < |text| && text[i] == c && c !in text[..i]
    ensures Find(text, c) == i
  {
    var k := Find(text, c);
    assert forall m :: 0 <= m < i ==> text[m] == text[..i][m];
  }

  lemma FractionMarks(zero: char, j: char, f: char, jiao: nat, fen: nat, text: string)
    requires Classify(zero) == Digit(0) && Classify(j) == Digit(jiao) && Classify(f) == Digit(fen)
    requires zero != '角' && zero != '分' && j != '角' && j != '分' && f != '角' && f != '分'
    requires text ==
      (if jiao > 0 then [j, '角'] else if fen > 0 then [zero] else "") + (if fen > 0 then [f, '分'] else "")
    ensures Before(text, '角') == jiao && Before(text, '分') == fen
  {
    hide Classify;
    if jiao > 0 && fen > 0 {
      assert text == [j, '角', f, '分'];
      FindIs(text, '角', 1);
      FindIs(text, '分', 3);
    } else if jiao > 0 {
      assert text == [j, '角'];
      FindIs(text, '角', 1);
    } else if fen > 0 {
      assert text == [zero, f, '分'];
      FindIs(text, '分', 2);
      assert Find(text, '角') == 3;
    } else {
      assert text == "";
    }
  }

  lemma PlainAppend(a: string, b: string)
    requires Plain(a) && Plain(b)
    ensures Plain(a + b)
  {
  }

  /** Every amount below 10^16 yuan, written in any style with any yuan mark, parses back
      to exactly that many fen; the currency in front and the closing mark are optional. */
  lemma ChineseRoundTrip(st: Style, mark: char, amount: nat)
    requires Means(Classify, st) && (mark == '元' || mark == '圆') && amount < 1_000_000_000_000_000_000
    ensures var text := ChineseText(st, mark, amount);
      && Parse(text) == Amount(amount)
      && Parse("人民币" + text) == Amount(amount)
      && Parse(text + "整") == Amount(amount)
      && Parse("人民币" + text + "整") == Amount(amount)
  {
    var text := ChineseText(st, mark, amount);
    WrittenIsPlain(st, mark, amount);
    CleanPlain(text);
    CleanDecorated(text);
    ChineseReads(st, mark, amount);
  }

  lemma WrittenIsPlain(st: Style, mark: char, amount: nat)
    requires Means(Classify, st) && (mark == '元' || mark == '圆') && amount < 1_000_000_000_000_000_000
    ensures var text := ChineseText(st, mark, amount);
      Plain(text) && text != "" && MatchArabic(text) == None
  {
    var yuan := Numeral(st, amount / 100);
    var fraction := FractionText(st, amount / 10 % 10, amount % 10);
    NumeralGlyphs(Classify, st, amount / 100);
    YuanFacts(yuan);
    FractionFacts(st, amount / 10 % 10, amount % 10);
    PlainAppend(yuan, [mark]);
    PlainAppend(yuan + [mark], fraction);
    NotArabic(yuan + [mark] + fraction);
  }

  lemma NotArabic(text: string)
    requires text != "" && !IsDigit(text[0])
    ensures MatchArabic(text) == None
  {
  }

  lemma ChineseReads(st: Style, mark: char, amount: nat)
    requires Means(Classify, st) && (mark == '元' || mark == '圆') && amount < 1_000_000_000_000_000_000
    ensures ParseChinese(ChineseText(st, mark, amount)) == Amount(amount)
  {
    hide Numeral, FractionText, Classify, Before, Swap, Partition, Power10;
    var yuan := Numeral(st, amount / 100);
    var fraction := FractionText(st, amount / 10 % 10, amount % 10);
    NumeralGlyphs(Classify, st, amount / 100);
    YuanFacts(yuan);
    FractionFacts(st, amount / 10 % 10, amount % 10);
    PartitionWritten(yuan, mark, fraction);
    NumeralReads(Classify, st, amount / 100);
    PrecisionPower();
    FenParts(amount);
  }

  lemma FenParts(amount: nat)
    ensures amount == 100 * (amount / 100) + 10 * (amount / 10 % 10) + amount % 10
  {
  }

  lemma PrecisionPower()
    ensures Power10(PRECISION) == 10_000_000_000_000_000_000_000_000_000
  {
    assert Power10(7) == 10_000_000;
    assert Power10(14) == 10_000_000 * Power10(7);
    assert Power10(21) == 10_000_000 * Power10(14);
    assert Power10(28) == 10_000_000 * Power10(21);
  }
}
