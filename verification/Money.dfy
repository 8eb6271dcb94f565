/**
 Amounts of money in Arabic or Chinese numerals, parsed to whole fen.
 */
module Money {
  import opened Ordering
  import opened DecimalDigits

  /** Raised stands for the decimal library's InvalidOperation, which the parser does not catch. */
  datatype Outcome = Amount(fen: nat) | Nothing | Raised

  // -------------------------------------------------------------- cleaning the text

  /** text.replace(phrase, "") */
  function Without(text: string, phrase: string): string
    requires phrase != ""
    decreases |text|
  {
    if |text| < |phrase| then text
    else if text[..|phrase|] == phrase then Without(text[|phrase|..], phrase)
    else [text[0]] + Without(text[1..], phrase)
  }

  /** text.replace(a, b) for single characters. */
  function Swap(text: string, a: char, b: char): (r: string)
    ensures |r| == |text|
  {
    if text == "" then "" else [if text[0] == a then b else text[0]] + Swap(text[1..], a, b)
  }

  function Clean(text: string): string
  {
    Without(Without(Without(Without(Without(text, "人民币"), " "), ","), "，"), "整")
  }

  /** The position of the first c, or |text|. */
  function Find(text: string, c: char): (i: nat)
    ensures i <= |text| && (i < |text| ==> text[i] == c)
    ensures forall k :: 0 <= k < i ==> text[k] != c
  {
    if text == "" || text[0] == c then 0 else 1 + Find(text[1..], c)
  }

  // ------------------------------------------------------------ decimal arithmetic

  const PRECISION: nat := 28

  function RoundHalfUp(n: nat, d: nat): nat
    requires d > 0
  {
    (2 * n + d) / (2 * d)
  }

  function RoundHalfEven(n: nat, d: nat): nat
    requires d > 0
  {
    var q := n / d;
    var r := n % d;
    if 2 * r > d || (2 * r == d && q % 2 == 1) then q + 1 else q
  }

  /** A product keeps 28 significant digits, rounding half to even. */
  function ContextRound(p: nat): nat
  {
    if Width(p) <= PRECISION then p
    else
      var g := Power10(Width(p) - PRECISION);
      RoundHalfEven(p, g) * g
  }

  /** quantize(0.01, ROUND_HALF_UP) of numerator / denominator yuan. */
  function Quantize(numerator: nat, denominator: nat): Outcome
    requires denominator > 0
  {
    var fen := RoundHalfUp(100 * numerator, denominator);
    if fen >= Power10(PRECISION) then Raised else Amount(fen)
  }

  /** A matched Arabic literal: mantissa / 10^scale, optionally in units of ten thousand. */
  datatype Literal = Literal(mantissa: nat, scale: nat, wan: bool)

  function ArabicSuffix(rest: string): Option<bool>
  {
    if rest == "" || rest == "元" then Some(false)
    else if rest == "万" || rest == "万元" then Some(true)
    else None
  }

  function MatchArabic(text: string): Option<Literal>
  {
    var j := DigitsEnd(text, 0);
    if j == 0 then None
    else
      var k := if j < |text| && text[j] == '.' then DigitsEnd(text, j + 1) else j;
      var end := if k > j + 1 then k else j;
      var suffix := ArabicSuffix(text[end..]);
      if suffix.None? then None
      else if end == j then
        assert text[0..j] == text[..j];
        Some(Literal(Number(text[..j]), 0, suffix.value))
      else
        assert text[0..j] == text[..j];
        Some(Literal(Number(text[..j] + text[j + 1..k]), k - j - 1, suffix.value))
  }

  function ArabicValue(literal: Literal): Outcome
  {
    Quantize(if literal.wan then ContextRound(literal.mantissa * 10_000) else literal.mantissa, Power10(literal.scale))
  }

  // ----------------------------------------------------------------- Chinese numerals

  datatype Glyph = Digit(value: nat) | Small(unit: nat) | Section(unit: nat) | Other

  function DigitGlyph(c: char): Glyph
  {
    if c == '零' || c == '〇' then Digit(0)
    else if c == '一' || c == '壹' then Digit(1)
    else if c == '二' || c == '两' || c == '贰' || c == '貳' then Digit(2)
    else if c == '三' || c == '叁' || c == '參' then Digit(3)
    else if c == '四' || c == '肆' then Digit(4)
    else if c == '五' || c == '伍' then Digit(5)
    else if c == '六' || c == '陆' || c == '陸' then Digit(6)
    else if c == '七' || c == '柒' then Digit(7)
    else if c == '八' || c == '捌' then Digit(8)
    else if c == '九' || c == '玖' then Digit(9)
    else Other
  }

  function Classify(c: char): Glyph
  {
    if c == '十' || c == '拾' then Small(10)
    else if c == '百' || c == '佰' then Small(100)
    else if c == '千' || c == '仟' then Small(1000)
    else if c == '万' then Section(10_000)
    else if c == '亿' then Section(100_000_000)
    else if c == '兆' then Section(1_000_000_000_000)
    else DigitGlyph(c)
  }

  datatype Accumulators = Accumulators(total: nat, section: nat, number: nat)

  function OrOne(n: nat): nat { if n == 0 then 1 else n }

  function Step(s: Accumulators, g: Glyph): Accumulators
  {
    match g
    case Digit(v) => s.(number := v)
    case Small(u) => s.(section := s.section + OrOne(s.number) * u, number := 0)
    case Section(u) => Accumulators(s.total + OrOne(s.section + s.number) * u, 0, 0)
    case Other => s
  }

  const START := Accumulators(0, 0, 0)

  /** The accumulators after reading a text from state s. */
  function Scan(classify: char -> Glyph, s: Accumulators, text: string): Accumulators
  {
    if text == "" then s else Step(Scan(classify, s, text[..|text| - 1]), classify(text[|text| - 1]))
  }

  function Sum(s: Accumulators): nat { s.total + s.section + s.number }

  /** The digit in front of the first mark, when there is one. */
  function Before(fraction: string, mark: char): nat
  {
    var i := Find(fraction, mark);
    if 0 < i < |fraction| && Classify(fraction[i - 1]).Digit? then Classify(fraction[i - 1]).value else 0
  }

  predicate AllGlyphs(text: string) { forall i :: 0 <= i < |text| ==> !Classify(text[i]).Other? }

  /** The part before the first yuan mark and the part after it. */
  function Partition(text: string): (string, string)
  {
    var at := Find(text, '元');
    var fraction := if at < |text| then text[at + 1..] else "";
    (if at == 0 && fraction == "" then text else text[..at], fraction)
  }

  function ChineseValue(yuan: nat, fraction: string): Outcome
  {
    var fen := 100 * yuan + 10 * Before(fraction, '角') + Before(fraction, '分');
    if fen >= Power10(PRECISION) then Raised else Amount(fen)
  }

  function ParseChinese(text: string): Outcome
  {
    var parts := Partition(Swap(text, '圆', '元'));
    if AllGlyphs(parts.0) then ChineseValue(Sum(Scan(Classify, START, parts.0)), parts.1) else Nothing
  }

  function Parse(text: string): Outcome
  {
    var cleaned := Clean(text);
    if cleaned == "" then Nothing
    else
      var literal := MatchArabic(cleaned);
      if literal.Some? then ArabicValue(literal.value) else ParseChinese(cleaned)
  }

  // ------------------------------------------------------------------ the loops

  /** The three-accumulator loop. */
  method ReadYuan(yuan: string) returns (result: Option<nat>)
    ensures result == if AllGlyphs(yuan) then Some(Sum(Scan(Classify, START, yuan))) else None
  {
    hide Classify;
    for i := 0 to |yuan|
      invariant AllGlyphs(yuan[..i])
    {
      if Classify(yuan[i]).Other? { return None; }
      TakeStep(yuan, i);
    }
    TakeAll(yuan);
    var total: nat, section: nat, number: nat := 0, 0, 0;
    for i := 0 to |yuan|
      invariant Accumulators(total, section, number) == Scan(Classify, START, yuan[..i])
    {
      TakeStep(yuan, i);
      match Classify(yuan[i])
      case Digit(v) =>
        number := v;
      case Small(unit) =>
        section := section + OrOne(number) * unit;
        number := 0;
      case Section(unit) =>
        section := section + number;
        total := total + OrOne(section) * unit;
        section := 0;
        number := 0;
      case Other =>
    }
    result := Some(total + section + number);
  }

  method ReadFraction(fraction: string) returns (fen: nat)
    ensures fen == 10 * Before(fraction, '角') + Before(fraction, '分')
  {
    fen := 0;
    var marks := "角分";
    var scales: seq<nat> := [10, 1];
    for i := 0 to |marks|
      invariant fen == (if i > 0 then 10 * Before(fraction, '角') else 0) + (if i > 1 then Before(fraction, '分') else 0)
    {
      var scale := scales[i];
      var index := Find(fraction, marks[i]);
      if 0 < index < |fraction| {
        var digit := Classify(fraction[index - 1]);
        if digit.Digit? { fen := fen + digit.value * scale; }
      }
    }
  }

  method ParseChineseValue(value: string) returns (result: Outcome)
    ensures result == ParseChinese(value)
  {
    var parts := Partition(Swap(value, '圆', '元'));
    var total := ReadYuan(parts.0);
    if total.None? { return Nothing; }
    var fen := ReadFraction(parts.1);
    result := if 100 * total.value + fen >= Power10(PRECISION) then Raised else Amount(100 * total.value + fen);
  }

  method ParseMoneyValue(value: string) returns (result: Outcome)
    ensures result == Parse(value)
  {
    var text := Clean(value);
    if text == "" { return Nothing; }
    var arabic := MatchArabic(text);
    if arabic.Some? {
      var amount := arabic.value.mantissa;
      if arabic.value.wan { amount := ContextRound(amount * 10_000); }
      return Quantize(amount, Power10(arabic.value.scale));
    }
    result := ParseChineseValue(text);
  }
}
