/** Canonical Chinese numerals below 10^16, and what the money loop reads back from them. */
module ChineseNumerals {
  import opened Ordering
  import opened DecimalDigits
  import opened Money

  /** A choice of glyphs: plain or financial, and whether a leading ten drops its digit. */
  datatype Style = Style(digit: nat -> char, small: nat -> char, section: nat -> char, bareTen: bool)

  function PlaceUnit(k: nat): nat { if k == 1 then 10 else if k == 2 then 100 else 1000 }

  function SectionUnit(j: nat): nat
  {
    if j == 1 then 10_000 else if j == 2 then 100_000_000 else 1_000_000_000_000
  }

  /** The glyphs of a style mean what they should. */
  ghost predicate Means(classify: char -> Glyph, st: Style)
  {
    && (forall d: nat :: d < 10 ==> classify(st.digit(d)) == Digit(d))
    && (forall k: nat :: 1 <= k <= 3 ==> classify(st.small(k)) == Small(PlaceUnit(k)))
    && (forall j: nat :: 1 <= j <= 3 ==> classify(st.section(j)) == Section(SectionUnit(j)))
  }

  function Filler(st: Style, gap: bool): string { if gap then [st.digit(0)] else "" }

  function PlaceMark(st: Style, k: nat): string { if k == 0 then "" else [st.small(k)] }

  /** One nonzero digit at place k. */
  function PlaceText(st: Style, d: nat, k: nat, first: bool): string
  {
    if st.bareTen && first && d == 1 && k == 1 then [st.small(1)] else [st.digit(d)] + PlaceMark(st, k)
  }

  /** The digits of v from place k down; a run of zeros between digits prints one zero. */
  function Places(st: Style, v: nat, k: nat, printed: bool, gap: bool): string
    decreases k
  {
    var (d, rest) := DivMod(v, Power10(k));
    if d == 0 then
      if k == 0 then "" else Places(st, rest, k - 1, printed, printed)
    else
      Filler(st, gap) + PlaceText(st, d, k, !printed) + if k == 0 then "" else Places(st, rest, k - 1, true, false)
  }

  function SectionMark(st: Style, j: nat): string { if j == 0 then "" else [st.section(j)] }

  /** The four-digit sections of n from section j down, each followed by its unit. */
  function Sections(st: Style, n: nat, j: nat, printed: bool, gap: bool): string
    decreases j
  {
    var (v, rest) := DivMod(n, Power10(4 * j));
    if v == 0 then
      if j == 0 then "" else Sections(st, rest, j - 1, printed, printed)
    else
      Places(st, v, 3, printed, gap) + SectionMark(st, j) +
      if j == 0 then "" else Sections(st, rest, j - 1, true, false)
  }

  function Numeral(st: Style, n: nat): string
  {
    if n == 0 then [st.digit(0)] else Sections(st, n, 3, false, false)
  }

  // -------------------------------------------------------------------- scanning

  lemma {:induction false} ScanAppend(classify: char -> Glyph, s: Accumulators, a: string, b: string)
    ensures Scan(classify, s, a + b) == Scan(classify, Scan(classify, s, a), b)
  {
    if b == "" {
      assert a + b == a;
    } else {
      var c := b[..|b| - 1];
      assert (a + b)[..|a + b| - 1] == a + c;
      ScanAppend(classify, s, a, c);
    }
  }

  lemma ScanOne(classify: char -> Glyph, s: Accumulators, c: char)
    ensures Scan(classify, s, [c]) == Step(s, classify(c))
  {
    assert [c][..0] == "";
    assert Scan(classify, s, "") == s;
  }

  lemma ScanFiller(classify: char -> Glyph, st: Style, s: Accumulators, gap: bool)
    requires Means(classify, st) && s.number == 0
    ensures Scan(classify, s, Filler(st, gap)) == s
  {
    if gap { ScanOne(classify, s, st.digit(0)); }
  }

  /** A digit with its place mark adds its value; at the units place it waits in number. */
  lemma ScanPlace(classify: char -> Glyph, st: Style, s: Accumulators, d: nat, k: nat, first: bool)
    requires Means(classify, st) && s.number == 0 && 0 < d < 10 && k <= 3
    ensures Scan(classify, s, PlaceText(st, d, k, first)) ==
      if k == 0 then s.(number := d) else s.(section := s.section + d * Power10(k))
  {
    PlacePower(k);
    if st.bareTen && first && d == 1 && k == 1 {
      ScanOne(classify, s, st.small(1));
    } else {
      ScanAppend(classify, s, [st.digit(d)], PlaceMark(st, k));
      ScanOne(classify, s, st.digit(d));
      if k > 0 { ScanOne(classify, s.(number := d), st.small(k)); }
    }
  }

  lemma PlacePower(k: nat)
    requires k <= 3
    ensures Power10(k) == if k == 0 then 1 else PlaceUnit(k)
  {
    assert Power10(1) == 10 && Power10(2) == 100 && Power10(3) == 1000;
  }

  lemma ScanFilledPlace(classify: char -> Glyph, st: Style, s: Accumulators, d: nat, k: nat, first: bool, gap: bool)
    requires Means(classify, st) && s.number == 0 && 0 < d < 10 && k <= 3
    ensures Scan(classify, s, Filler(st, gap) + PlaceText(st, d, k, first)) ==
      if k == 0 then s.(number := d) else s.(section := s.section + d * Power10(k))
  {
    ScanFiller(classify, st, s, gap);
    ScanPlace(classify, st, s, d, k, first);
    ScanAppend(classify, s, Filler(st, gap), PlaceText(st, d, k, first));
  }

  /** The state reached from s when a section worth v has been read. */
  predicate Adds(s: Accumulators, v: nat, r: Accumulators)
  {
    r.total == s.total && r.section + r.number == s.section + v
  }

  lemma AddsTogether(classify: char -> Glyph, s: Accumulators, v: nat, w: nat, front: string, back: string)
    requires Adds(s, v, Scan(classify, s, front))
    requires Scan(classify, s, front).number == 0
    requires Adds(Scan(classify, s, front), w, Scan(classify, Scan(classify, s, front), back))
    ensures Adds(s, v + w, Scan(classify, s, front + back))
  {
    ScanAppend(classify, s, front, back);
  }

  /** The text of v from place k down is a front worth w, then the text of the rest. */
  lemma FirstPlace(classify: char -> Glyph, st: Style, s: Accumulators, v: nat, k: nat, printed: bool, gap: bool)
    returns (w: nat, rest: nat, front: string, printed': bool, gap': bool)
    requires Means(classify, st) && s.number == 0 && k <= 3 && v < 10 * Power10(k)
    ensures v == w + rest && if k == 0 then rest == 0 else rest < 10 * Power10(k - 1)
    ensures Places(st, v, k, printed, gap) == front + if k == 0 then "" else Places(st, rest, k - 1, printed', gap')
    ensures Adds(s, w, Scan(classify, s, front))
    ensures k > 0 ==> Scan(classify, s, front).number == 0
  {
    var u := Power10(k);
    var p := DivMod(v, u);
    var d := p.0;
    QuotientBound(v, u, 10);
    w, rest := d * u, p.1;
    if d == 0 {
      front, printed', gap' := "", printed, printed;
    } else {
      front, printed', gap' := Filler(st, gap) + PlaceText(st, d, k, !printed), true, false;
      ScanFilledPlace(classify, st, s, d, k, !printed, gap);
    }
  }

  lemma {:induction false} ScanPlaces(classify: char -> Glyph, st: Style, s: Accumulators, v: nat, k: nat,
                                      printed: bool, gap: bool)
    requires Means(classify, st) && s.number == 0 && k <= 3 && v < 10 * Power10(k)
    ensures Adds(s, v, Scan(classify, s, Places(st, v, k, printed, gap)))
    decreases k
  {
    var w, rest, front, printed', gap' := FirstPlace(classify, st, s, v, k, printed, gap);
    if k > 0 {
      ScanPlaces(classify, st, Scan(classify, s, front), rest, k - 1, printed', gap');
      AddsTogether(classify, s, w, rest, front, Places(st, rest, k - 1, printed', gap'));
    } else {
      assert front + "" == front;
    }
  }

  lemma SectionPower(j: nat)
    requires j <= 3
    ensures Power10(4 * j) == if j == 0 then 1 else SectionUnit(j)
  {
    assert Power10(4) == 10_000;
    assert Power10(8) == 10_000 * Power10(4);
    assert Power10(12) == 10_000 * Power10(8);
  }

  lemma PowerStep(j: nat)
    requires j > 0
    ensures Power10(4 * j) == 10_000 * Power10(4 * (j - 1))
  {
    var p := Power10(4 * j - 4);
    assert Power10(4 * j - 3) == 10 * p;
    assert Power10(4 * j - 2) == 100 * p;
    assert Power10(4 * j - 1) == 1000 * p;
  }

  /** A section of value v > 0 and its mark add v times the unit of the section. */
  lemma ScanSection(classify: char -> Glyph, st: Style, total: nat, v: nat, j: nat, printed: bool, gap: bool)
    requires Means(classify, st) && j <= 3 && 0 < v < 10_000
    ensures var r := Scan(classify, Accumulators(total, 0, 0), Places(st, v, 3, printed, gap) + SectionMark(st, j));
      if j == 0 then Sum(r) == total + v else r == Accumulators(total + v * Power10(4 * j), 0, 0)
  {
    hide Places, Power10;
    PlacePower(3);
    SectionPower(j);
    var s := Accumulators(total, 0, 0);
    var text := Places(st, v, 3, printed, gap);
    ScanPlaces(classify, st, s, v, 3, printed, gap);
    ScanAppend(classify, s, text, SectionMark(st, j));
    var t := Scan(classify, s, text);
    if j > 0 { ScanOne(classify, t, st.section(j)); }
  }

  /** The text of n from section j down is a front for v sections of u, then a back. */
  lemma SectionParts(st: Style, n: nat, j: nat, printed: bool, gap: bool)
    returns (v: nat, rest: nat, front: string, back: string, printed': bool, gap': bool)
    requires n < 10_000 * Power10(4 * j)
    ensures n == v * Power10(4 * j) + rest && v < 10_000
    ensures if j == 0 then rest == 0 && back == ""
      else rest < 10_000 * Power10(4 * (j - 1)) && back == Sections(st, rest, j - 1, printed', gap')
    ensures front == if v == 0 then "" else Places(st, v, 3, printed, gap) + SectionMark(st, j)
    ensures Sections(st, n, j, printed, gap) == front + back
  {
    hide Places, SectionMark;
    var u := Power10(4 * j);
    if j > 0 { PowerStep(j); }
    var p := DivMod(n, u);
    QuotientBound(n, u, 10_000);
    v, rest := p.0, p.1;
    printed', gap' := printed || v > 0, printed && v == 0;
    front := if v == 0 then "" else Places(st, v, 3, printed, gap) + SectionMark(st, j);
    back := if j == 0 then "" else Sections(st, rest, j - 1, printed', gap');
  }

  lemma SumsTogether(classify: char -> Glyph, s: Accumulators, text: string, front: string, back: string, n: nat)
    requires text == front + back
    requires Sum(Scan(classify, Scan(classify, s, front), back)) == n
    ensures Sum(Scan(classify, s, text)) == n
  {
    ScanAppend(classify, s, front, back);
  }

  lemma {:induction false} ScanSections(classify: char -> Glyph, st: Style, total: nat, n: nat, j: nat, printed: bool,
                                        gap: bool)
    requires Means(classify, st) && j <= 3 && n < 10_000 * Power10(4 * j)
    ensures Sum(Scan(classify, Accumulators(total, 0, 0), Sections(st, n, j, printed, gap))) == total + n
    decreases j
  {
    hide *;
    var v, rest, front, back, printed', gap' := SectionParts(st, n, j, printed, gap);
    ScanFront(classify, st, total, v, j, printed, gap, front);
    if j > 0 {
      ScanSections(classify, st, total + v * Power10(4 * j), rest, j - 1, printed', gap');
      SumsTogether(classify, Accumulators(total, 0, 0), Sections(st, n, j, printed, gap), front, back, total + n);
    } else {
      assert front + "" == front;
      PowerZero();
    }
  }

  lemma PowerZero()
    ensures Power10(4 * 0) == 1
  {
  }

  lemma ScanFront(classify: char -> Glyph, st: Style, total: nat, v: nat, j: nat, printed: bool, gap: bool,
                  front: string)
    requires Means(classify, st) && j <= 3 && v < 10_000
    requires front == if v == 0 then "" else Places(st, v, 3, printed, gap) + SectionMark(st, j)
    ensures var r := Scan(classify, Accumulators(total, 0, 0), front);
      if j == 0 then Sum(r) == total + v else r == Accumulators(total + v * Power10(4 * j), 0, 0)
  {
    hide Places, SectionMark, Power10;
    if v > 0 { ScanSection(classify, st, total, v, j, printed, gap); }
  }

  /** Reading a canonical numeral gives back the number. */
  lemma NumeralReads(classify: char -> Glyph, st: Style, n: nat)
    requires Means(classify, st) && n < 10_000_000_000_000_000
    ensures Sum(Scan(classify, START, Numeral(st, n))) == n
  {
    if n == 0 {
      ScanOne(classify, START, st.digit(0));
    } else {
      SectionPower(3);
      ScanSections(classify, st, 0, n, 3, false, false);
    }
  }
}
