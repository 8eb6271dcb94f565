/**
 When each registered checker passes, warns or blocks, in terms of the facts, texts and
 references it sees.
 */
module CheckerVerdicts {
  import opened Collecting
  import opened Ordering
  import opened EvidenceGate
  import opened RuleCheckers

  // ----------------------------------------------------------------------- the facts

  predicate Has(scope: Scope, kind: Kind, f: Fact) { f in scope.facts && f.kind == kind }

  ghost predicate HasAny(scope: Scope, kind: Kind) { exists f :: Has(scope, kind, f) }

  ghost predicate HasNumber(scope: Scope, kind: Kind) { exists f :: Has(scope, kind, f) && f.value.Some? }

  /** Every fact of the kind is of sufficient or unknown confidence. */
  ghost predicate AllSure(scope: Scope, kind: Kind) { forall f :: Has(scope, kind, f) ==> Sure(f) }

  predicate Sure(f: Fact) { f.confidence == None || f.confidence.value >= 0.5 }

  ghost predicate NumbersSure(scope: Scope, kind: Kind)
  {
    forall f :: Has(scope, kind, f) && f.value.Some? ==> Sure(f)
  }

  predicate NumberAt(facts: seq<Fact>, kind: Kind, i: int)
  {
    0 <= i < |facts| && facts[i].kind == kind && facts[i].value.Some?
  }

  /** Fact i is the first of the kind that reads as a number. */
  predicate FirstIn(facts: seq<Fact>, kind: Kind, i: nat)
  {
    NumberAt(facts, kind, i) && forall k :: 0 <= k < i ==> !NumberAt(facts, kind, k)
  }

  /** There are numbers of the kind, and all of them are this one. */
  ghost predicate OneNumber(scope: Scope, kind: Kind, v: real)
  {
    && HasNumber(scope, kind)
    && forall f :: Has(scope, kind, f) && f.value.Some? ==> f.value.value == v
  }

  ghost predicate FirstSure(scope: Scope, kind: Kind)
  {
    forall i: nat :: FirstIn(scope.facts, kind, i) ==> Sure(scope.facts[i])
  }

  /** The sum of the numbers of the kind. */
  function TotalOf(facts: seq<Fact>, kind: Kind): real
  {
    if facts == [] then 0.0
    else
      var n := |facts| - 1;
      TotalOf(facts[..n], kind) + if facts[n].kind == kind && facts[n].value.Some? then facts[n].value.value else 0.0
  }

  /** The facts of the kind that read as numbers. */
  function NumbersOf(facts: seq<Fact>, kind: Kind): seq<Fact>
  {
    Numeric(Collect((f: Fact) => OfKind(kind, f), facts))
  }

  lemma CollectStep<S, T>(f: S -> Option<T>, s: seq<S>, last: S)
    ensures Collect(f, s + [last]) == match f(last) case Some(t) => Collect(f, s) + [t] case None => Collect(f, s)
  {
    DropSnoc(s, last);
  }

  lemma NumericStep(facts: seq<Fact>, last: Fact)
    ensures Numeric(facts + [last]) == if last.value.Some? then Numeric(facts) + [last] else Numeric(facts)
  {
    CollectStep((f: Fact) => Kept(f.value.Some?, f), facts, last);
    hide Collect;
  }

  lemma NumbersStep(facts: seq<Fact>, last: Fact, kind: Kind)
    ensures NumbersOf(facts + [last], kind) ==
      if last.kind == kind && last.value.Some? then NumbersOf(facts, kind) + [last] else NumbersOf(facts, kind)
  {
    CollectStep((f: Fact) => OfKind(kind, f), facts, last);
    NumericStep(Collect((f: Fact) => OfKind(kind, f), facts), last);
    hide Numeric, Collect;
  }

  lemma SumStep(facts: seq<Fact>, last: Fact)
    ensures Sum(facts + [last]) == Sum(facts) + match last.value case Some(v) => v case None => 0.0
  {
    DropSnoc(facts, last);
  }

  lemma {:induction false} SumIsTotal(facts: seq<Fact>, kind: Kind)
    ensures Sum(NumbersOf(facts, kind)) == TotalOf(facts, kind)
  {
    if facts != [] {
      var front, last := facts[..|facts| - 1], facts[|facts| - 1];
      SnocParts(facts);
      SumIsTotal(front, kind);
      NumbersStep(front, last, kind);
      SumStep(NumbersOf(front, kind), last);
      hide NumbersOf, Sum;
    }
  }

  lemma {:induction false} FirstFound(facts: seq<Fact>, kind: Kind)
    ensures NumbersOf(facts, kind) == [] ==> forall k :: !NumberAt(facts, kind, k)
    ensures NumbersOf(facts, kind) != [] ==> exists i: nat :: LeadsWith(facts, kind, i, NumbersOf(facts, kind)[0])
  {
    hide NumbersOf;
    if facts == [] {
      NothingThere(kind);
    } else {
      var n := |facts| - 1;
      var front, last := facts[..n], facts[n];
      SnocParts(facts);
      FirstFound(front, kind);
      NumbersStep(front, last, kind);
      SameNumbers(facts, kind);
      if NumbersOf(front, kind) == [] {
        var m: nat := n;
        if NumberAt(facts, kind, m) {
          assert FirstIn(facts, kind, m);
          assert NumbersOf(facts, kind)[0] == last;
          assert LeadsWith(facts, kind, m, NumbersOf(facts, kind)[0]);
        }
        forall k | NumbersOf(facts, kind) == [] ensures !NumberAt(facts, kind, k) {
          if k < n { assert !NumberAt(front, kind, k); }
        }
      } else {
        var i: nat :| LeadsWith(front, kind, i, NumbersOf(front, kind)[0]);
        assert LeadsWith(facts, kind, i, NumbersOf(facts, kind)[0]);
      }
    }
  }

  predicate LeadsWith(facts: seq<Fact>, kind: Kind, i: nat, f: Fact) { FirstIn(facts, kind, i) && facts[i] == f }

  lemma SameNumbers(facts: seq<Fact>, kind: Kind)
    requires facts != []
    ensures var n := |facts| - 1; forall k :: k < n ==> (NumberAt(facts[..n], kind, k) <==> NumberAt(facts, kind, k))
  {
  }

  lemma NothingThere(kind: Kind)
    ensures NumbersOf([], kind) == []
  {
  }

  lemma NumbersMembers(scope: Scope, kind: Kind)
    ensures forall f :: f in NumbersOf(scope.facts, kind) <==> Has(scope, kind, f) && f.value.Some?
    ensures NumbersOf(scope.facts, kind) != [] <==> HasNumber(scope, kind)
    ensures NumbersOf(scope.facts, kind) == Numeric(FactsOf(scope, kind))
  {
    FactsOfMembers(scope, kind);
    NumericMembers(FactsOf(scope, kind));
    var numbers := NumbersOf(scope.facts, kind);
    assert numbers == Numeric(FactsOf(scope, kind));
    SomeElement(numbers);
    hide Numeric, FactsOf, NumbersOf;
  }

  lemma SingleIs(scope: Scope, kind: Kind)
    ensures var single := SingleValue(FactsOf(scope, kind));
      && (single.None? ==> forall v :: !OneNumber(scope, kind, v))
      && (single.Some? ==> single.value.value.Some? && OneNumber(scope, kind, single.value.value.value))
      && (single.Some? ==> (Sure(single.value) <==> FirstSure(scope, kind)))
  {
    var numbers := NumbersOf(scope.facts, kind);
    NumbersMembers(scope, kind);
    FirstFound(scope.facts, kind);
    hide NumbersOf, FactsOf, Numeric;
    if numbers != [] {
      var i: nat :| LeadsWith(scope.facts, kind, i, numbers[0]);
      assert numbers[0] in numbers;
      forall v | OneNumber(scope, kind, v) ensures forall n :: 0 <= n < |numbers| ==> numbers[n].value == Some(v) {
        forall n | 0 <= n < |numbers| ensures numbers[n].value == Some(v) {
          assert numbers[n] in numbers;
        }
      }
      if forall n :: 0 <= n < |numbers| ==> numbers[n].value == numbers[0].value {
        forall f | Has(scope, kind, f) && f.value.Some? ensures f.value == numbers[0].value {
          assert f in numbers;
        }
      }
    }
  }

  // ------------------------------------------------------------------- what is reported

  /** What a checker's request comes to in the end. */
  function StatusOf(checker: Checker, scope: Scope): Status
    requires RunChecker(checker, scope).Some?
  {
    BaseResult(scope, RunChecker(checker, scope).value).status
  }

  /** Some fact is not sure. */
  ghost predicate Shaky(facts: seq<Fact>) { exists f :: f in facts && f.confidence.Some? && f.confidence.value < 0.5 }

  /** The result of a checker, whatever it asks for: it cites the rule, the package, its facts
      and what it found or made, each once; its confidence is the one asked for, or the least
      of its facts; a decision on a shaky fact is withdrawn. */
  lemma ResultIs(scope: Scope, r: Request)
    ensures var x := BaseResult(scope, r);
      && Distinct(x.evidenceIds)
      && (forall e :: e in x.evidenceIds <==>
            || e == scope.ruleEvidence || e == scope.packageEvidence || e in r.textual || e in r.made
            || exists f :: f in r.facts && e in f.evidenceIds)
      && |x.factIds| == |r.facts| && (forall i :: 0 <= i < |r.facts| ==> x.factIds[i] == r.facts[i].id)
      && (r.confidence.Some? ==> x.confidence == r.confidence)
      && (r.confidence.None? ==> LeastOf(r.facts, x.confidence))
    ensures var x := BaseResult(scope, r);
      if Shaky(r.facts) && (r.status == Pass || r.status == Warn || r.status == Block) then
        x.status == Undetermined && x.quality == Poor && !x.automatic
      else
        && x.status == r.status && x.quality == r.quality
        && (x.automatic <==>
              r.automatic == Some(true)
              || (r.automatic == None && (r.status == Pass || r.status == Warn || r.status == Block)))
  {
    ConfidenceIs(r.facts);
    CitedIs(scope, r);
    DedupDistinct(RuleCheckers.Cited(scope, r));
    hide RuleCheckers.Cited, Confidence, LeastOf;
    assert Shaky(r.facts) <==> LowConfidence(r.facts) by { ShakyIff(r.facts); }
  }

  /** The least confidence of facts that have one. */
  ghost predicate LeastOf(facts: seq<Fact>, c: Option<real>)
  {
    match c
    case None => forall f :: f in facts ==> f.confidence.None?
    case Some(least) =>
      && (exists f :: f in facts && f.confidence == Some(least))
      && forall f :: f in facts && f.confidence.Some? ==> least <= f.confidence.value
  }

  lemma ConfidenceIs(facts: seq<Fact>)
    ensures LeastOf(facts, Confidence(facts))
  {
    ConfidenceIsLeast(facts);
  }

  lemma ShakyIff(facts: seq<Fact>)
    ensures Shaky(facts) <==> LowConfidence(facts)
  {
    ConfidenceIsLeast(facts);
  }

  lemma CitedIs(scope: Scope, r: Request)
    ensures forall e :: e in RuleCheckers.Cited(scope, r) <==>
      || e == scope.ruleEvidence || e == scope.packageEvidence || e in r.textual || e in r.made
      || exists f :: f in r.facts && e in f.evidenceIds
  {
    var parts := Map(FactEvidence, r.facts);
    FlattenMembers(parts);
    forall e ensures e in Flatten(parts) <==> exists f :: f in r.facts && e in f.evidenceIds {
      if i :| 0 <= i < |parts| && e in parts[i] { assert r.facts[i] in r.facts; }
      if f :| f in r.facts && e in f.evidenceIds {
        var i :| 0 <= i < |r.facts| && r.facts[i] == f;
        assert e in parts[i];
      }
    }
    assert forall e :: e in [scope.ruleEvidence, scope.packageEvidence] <==>
      e == scope.ruleEvidence || e == scope.packageEvidence;
    hide Flatten;
  }

  lemma SureIsConfident(f: Fact)
    ensures Sure(f) <==> Confident(f)
  {
  }

  lemma HasAnyIff(scope: Scope, kind: Kind)
    ensures FactsOf(scope, kind) != [] <==> HasAny(scope, kind)
    ensures forall f :: f in FactsOf(scope, kind) <==> Has(scope, kind, f)
  {
    var facts := FactsOf(scope, kind);
    FactsOfMembers(scope, kind);
    if facts != [] { assert facts[0] in facts && Has(scope, kind, facts[0]); }
    if f :| Has(scope, kind, f) { assert f in facts; }
    hide FactsOf;
  }

  /** A comparison of facts passes or warns when all of them are sure, and is withdrawn when
      one is not. */
  lemma VerdictStatus(scope: Scope, r: Request)
    ensures BaseResult(scope, r).status ==
      if Decides(r.status) && exists f :: f in r.facts && !Sure(f) then Undetermined else r.status
  {
    ConfidenceIsLeast(r.facts);
  }

  /** Given amounts in figures and in words: one value each, and equal. */
  lemma AmountCaseIff(scope: Scope, v: real, w: real)
    ensures (OneNumber(scope, AmountNumeric, v) && OneNumber(scope, AmountUpper, w)
        && FirstSure(scope, AmountNumeric) && FirstSure(scope, AmountUpper)) ==>
      StatusOf(AmountCaseConsistency, scope) == if v == w then Pass else Warn
    ensures StatusOf(AmountCaseConsistency, scope) != Undetermined ==>
      && FirstSure(scope, AmountNumeric) && FirstSure(scope, AmountUpper)
      && (exists x :: OneNumber(scope, AmountNumeric, x)) && exists y :: OneNumber(scope, AmountUpper, y)
  {
    hide SingleValue, FactsOf, BaseResult, FirstSure;
    SingleIs(scope, AmountNumeric);
    SingleIs(scope, AmountUpper);
    VerdictStatus(scope, CheckAmountCase(scope));
    SameNumber(scope, AmountNumeric);
    SameNumber(scope, AmountUpper);
    hide OneNumber, Sure;
  }

  lemma SameNumber(scope: Scope, kind: Kind)
    ensures forall v, w :: OneNumber(scope, kind, v) && OneNumber(scope, kind, w) ==> v == w
  {
  }

  /** The details add up to their one total. */
  lemma DetailTotalIff(scope: Scope, v: real)
    ensures TotalChecked(scope, StatusOf(AmountDetailTotal, scope), DetailAmount, DetailTotal, v)
  {
    hide CheckSum, TotalChecked, BaseResult, StatusOf;
    TotalAs(scope, AmountDetailTotal, DetailAmount, DetailTotal, v);
  }

  /** The payments add up to the one contract amount. */
  lemma PaymentTotalIff(scope: Scope, v: real)
    ensures TotalChecked(scope, StatusOf(PaymentTotal, scope), PaymentAmount, AmountNumeric, v)
  {
    hide CheckSum, TotalChecked, BaseResult, StatusOf;
    TotalAs(scope, PaymentTotal, PaymentAmount, AmountNumeric, v);
  }

  /** The invoices add up to the one contract amount. */
  lemma InvoiceTotalIff(scope: Scope, v: real)
    ensures TotalChecked(scope, StatusOf(InvoiceTotal, scope), InvoiceAmount, AmountNumeric, v)
  {
    hide CheckSum, TotalChecked, BaseResult, StatusOf;
    TotalAs(scope, InvoiceTotal, InvoiceAmount, AmountNumeric, v);
  }

  lemma TotalAs(scope: Scope, checker: Checker, kind: Kind, totalKind: Kind, v: real)
    requires RunChecker(checker, scope) == Some(CheckSum(scope, kind, totalKind))
    ensures TotalChecked(scope, StatusOf(checker, scope), kind, totalKind, v)
  {
    hide CheckSum, TotalChecked, BaseResult;
    TotalIff(scope, kind, totalKind, v);
  }

  ghost predicate TotalChecked(scope: Scope, status: Status, kind: Kind, totalKind: Kind, v: real)
  {
    var ready := HasNumber(scope, kind) && NumbersSure(scope, kind) && FirstSure(scope, totalKind);
    && (ready && OneNumber(scope, totalKind, v) ==> status == if TotalOf(scope.facts, kind) == v then Pass else Warn)
    && (status != Undetermined ==> ready && exists x :: OneNumber(scope, totalKind, x))
  }

  lemma TotalIff(scope: Scope, kind: Kind, totalKind: Kind, v: real)
    ensures TotalChecked(scope, BaseResult(scope, CheckSum(scope, kind, totalKind)).status, kind, totalKind, v)
  {
    hide SingleValue, FactsOf, BaseResult, FirstSure, Numeric, NumbersOf, Sum, TotalOf;
    NumbersMembers(scope, kind);
    SumIsTotal(scope.facts, kind);
    SingleIs(scope, totalKind);
    VerdictStatus(scope, CheckSum(scope, kind, totalKind));
    SameNumber(scope, totalKind);
    hide OneNumber, Sure;
  }

  /** Rates that read as numbers must all be within a billionth of the expected one. */
  lemma TaxRateIff(scope: Scope)
    ensures StatusOf(TaxRateCheck, scope) ==
      if !HasAny(scope, TaxRate) || scope.expectedRate.None? || !AllSure(scope, TaxRate) then Undetermined
      else if forall f :: Has(scope, TaxRate, f) && f.value.Some? ==> Close(f.value.value, scope.expectedRate.value)
      then Pass else Warn
  {
    hide FactsOf, BaseResult;
    HasAnyIff(scope, TaxRate);
    VerdictStatus(scope, CheckTaxRate(scope));
    hide Sure;
  }

  predicate Close(x: real, y: real) { x - y < 0.000000001 && y - x < 0.000000001 }

  /** The ratios together must not exceed the whole by more than a millionth. */
  lemma PaymentRatioIff(scope: Scope)
    ensures StatusOf(PaymentRatioCheck, scope) ==
      if !HasNumber(scope, PaymentRatio) || !AllSure(scope, PaymentRatio) then Undetermined
      else if TotalOf(scope.facts, PaymentRatio) <= 1.000001 then Pass else Warn
  {
    hide FactsOf, BaseResult, Numeric, NumbersOf, Sum, TotalOf;
    HasAnyIff(scope, PaymentRatio);
    NumbersMembers(scope, PaymentRatio);
    SumIsTotal(scope.facts, PaymentRatio);
    VerdictStatus(scope, CheckRatio(scope, PaymentRatio));
    hide Sure;
  }

  /** Type and amount of the invoice only have to be there. */
  lemma InvoicePresentIff(scope: Scope)
    ensures StatusOf(InvoiceTypeCheck, scope) ==
      if HasAny(scope, InvoiceType) && AllSure(scope, InvoiceType) then Pass else Undetermined
    ensures StatusOf(InvoiceAmountCheck, scope) ==
      if HasAny(scope, InvoiceAmount) && AllSure(scope, InvoiceAmount) then Pass else Undetermined
  {
    hide FactsOf, BaseResult;
    HasAnyIff(scope, InvoiceType);
    HasAnyIff(scope, InvoiceAmount);
    VerdictStatus(scope, CheckPresent(scope, InvoiceType));
    VerdictStatus(scope, CheckPresent(scope, InvoiceAmount));
    hide Sure;
  }

  // ---------------------------------------------------------------------- texts

  /** Some accepted contract candidate with the phrase has this known evidence. */
  predicate Cites(scope: Scope, phrase: Phrase, e: Id)
  {
    scope.texts.known(e)
    && exists c :: c in scope.candidates && c.isContract && scope.texts.contains(c, phrase) && e in c.evidenceIds
  }

  ghost predicate Finds(scope: Scope, phrase: Phrase) { exists e :: Cites(scope, phrase, e) }

  lemma FindsIff(scope: Scope, phrase: Phrase)
    ensures TextMatches(scope, phrase) != [] <==> Finds(scope, phrase)
    ensures forall e :: e in TextMatches(scope, phrase) <==> Cites(scope, phrase, e)
  {
    TextMatchesAre(scope, phrase);
    var found := TextMatches(scope, phrase);
    if found != [] { assert found[0] in found && Cites(scope, phrase, found[0]); }
    if e :| Cites(scope, phrase, e) { assert e in found; }
    hide TextMatches;
  }

  /** A guarantee is never passed, only warned about. */
  lemma GuaranteeIff(scope: Scope)
    ensures StatusOf(GuaranteeRequirement, scope) == if Finds(scope, Guaranteed) then Warn else Undetermined
  {
    hide TextMatches, BaseResult;
    FindsIff(scope, Guaranteed);
    VerdictStatus(scope, CheckGuarantee(scope));
    hide Finds;
  }

  /** Amounts called taxed by an excerpt that does not call them untaxed are warned about;
      without any, amounts called untaxed pass. */
  lemma UntaxedIff(scope: Scope)
    ensures StatusOf(UntaxedAmount, scope) ==
      if CallsTaxed(scope) then Warn else if Finds(scope, Untaxed) then Pass else Undetermined
  {
    hide TextMatches, BaseResult, Finds, Cites, Collect, CallsTaxed;
    FindsIff(scope, Untaxed);
    TaxedIff(scope);
    VerdictStatus(scope, CheckUntaxed(scope));
  }

  /** Some evidence for taxed amounts whose excerpt does not say untaxed. */
  ghost predicate CallsTaxed(scope: Scope)
  {
    exists e :: Cites(scope, Taxed, e) && !scope.texts.excerptUntaxed(e)
  }

  lemma TaxedIff(scope: Scope)
    ensures Collect((e: Id) => Kept(!scope.texts.excerptUntaxed(e), e), TextMatches(scope, Taxed)) != [] <==>
      CallsTaxed(scope)
  {
    hide TextMatches, Cites;
    FindsIff(scope, Taxed);
    SaysTaxed(scope, TextMatches(scope, Taxed));
    var found := TextMatches(scope, Taxed);
    if CallsTaxed(scope) {
      var e :| Cites(scope, Taxed, e) && !scope.texts.excerptUntaxed(e);
      assert e in found;
    }
    if e :| e in found && !scope.texts.excerptUntaxed(e) { assert Cites(scope, Taxed, e); }
    hide Collect;
  }

  lemma {:induction false} SaysTaxed(scope: Scope, ids: seq<Id>)
    ensures Collect((e: Id) => Kept(!scope.texts.excerptUntaxed(e), e), ids) != [] <==>
      exists e :: e in ids && !scope.texts.excerptUntaxed(e)
  {
    if ids != [] {
      var front, last := ids[..|ids| - 1], ids[|ids| - 1];
      SnocParts(ids);
      SaysTaxed(scope, front);
      assert last in ids && forall e :: e in ids <==> e in front || e == last;
    }
  }

  /** The attachment checker speaks up exactly when a required attachment has no document, and
      leaves the matter open. */
  lemma AttachmentsIff(scope: Scope)
    ensures RunChecker(AttachmentCompleteness, scope).Some? <==>
      exists r :: r in scope.references && r.required && !r.matched
    ensures RunChecker(AttachmentCompleteness, scope).Some? ==>
      var request := RunChecker(AttachmentCompleteness, scope).value;
      && request.status == Undetermined && !BaseResult(scope, request).automatic
      && forall e :: e in request.made <==>
           exists r :: r in scope.references && r.required && !r.matched && r.missingId == e
  {
    var f := (r: Reference) => Kept(r.required && !r.matched, r.missingId);
    CollectMembers(f, scope.references);
    SomeElement(Collect(f, scope.references));
    hide Collect, Flatten;
  }

  // ---------------------------------------------------------------------- tax amounts

  /** The numbers that may be taxed: those given as the base, else the contract amount when
      some text calls it untaxed. */
  ghost predicate IsTaxed(scope: Scope, b: real)
  {
    if HasAny(scope, TaxBase) then OneNumber(scope, TaxBase, b)
    else Finds(scope, Untaxed) && OneNumber(scope, AmountNumeric, b)
  }

  ghost predicate TaxedSure(scope: Scope)
  {
    if HasAny(scope, TaxBase) then FirstSure(scope, TaxBase) else FirstSure(scope, AmountNumeric)
  }

  /** All parts of the calculation are there and sure. */
  ghost predicate TaxParts(scope: Scope, b: real, r: real)
  {
    && IsTaxed(scope, b) && OneNumber(scope, TaxRate, r) && HasNumber(scope, TaxAmount)
    && TaxedSure(scope) && FirstSure(scope, TaxRate) && NumbersSure(scope, TaxAmount)
  }

  /** The taxes together must equal base times rate, both rounded to the fen. */
  lemma TaxAmountIff(scope: Scope, b: real, r: real)
    ensures TaxParts(scope, b, r) ==>
      StatusOf(TaxAmountCheck, scope) == if ToFen(TotalOf(scope.facts, TaxAmount)) == ToFen(b * r) then Pass else Warn
    ensures StatusOf(TaxAmountCheck, scope) != Undetermined ==> exists x, y :: TaxParts(scope, x, y)
  {
    var base, rate := TaxedFact(scope), SingleValue(FactsOf(scope, TaxRate));
    TaxFacts(scope);
    SingleIs(scope, TaxRate);
    NumbersMembers(scope, TaxAmount);
    SameNumber(scope, TaxRate);
    SameTaxed(scope);
    TaxRequest(scope);
    VerdictStatus(scope, CheckTaxAmount(scope));
    hide SingleValue, FactsOf, BaseResult, FirstSure, Numeric, NumbersOf, TotalOf, ToFen, OneNumber, Sure, HasAny,
      IsTaxed, TaxedSure, TaxedFact, CheckTaxAmount;
    if base.Some? && rate.Some? && StatusOf(TaxAmountCheck, scope) != Undetermined {
      assert TaxParts(scope, base.value.value.value, rate.value.value.value);
    }
    if TaxParts(scope, b, r) {
      assert base.Some? && rate.Some? && base.value.value == Some(b) && rate.value.value == Some(r);
      TaxExpected(scope, b, r);
    }
  }

  lemma TaxExpected(scope: Scope, b: real, r: real)
    requires var base, rate := TaxedFact(scope), SingleValue(FactsOf(scope, TaxRate));
      base.Some? && rate.Some? && base.value.value == Some(b) && rate.value.value == Some(r)
    requires NumbersOf(scope.facts, TaxAmount) != []
    ensures CheckTaxAmount(scope).status ==
      if ToFen(TotalOf(scope.facts, TaxAmount)) == ToFen(b * r) then Pass else Warn
  {
    hide *;
    NumbersMembers(scope, TaxAmount);
    SumIsTotal(scope.facts, TaxAmount);
    ProductIs(TaxedFact(scope).value, SingleValue(FactsOf(scope, TaxRate)).value, b, r);
    TaxStatus(scope);
  }

  lemma ProductIs(x: Fact, y: Fact, b: real, r: real)
    requires x.value == Some(b) && y.value == Some(r)
    ensures Product(x, y) == b * r
  {
  }

  lemma TaxStatus(scope: Scope)
    ensures var base, rate := TaxedFact(scope), SingleValue(FactsOf(scope, TaxRate));
      var taxes := Numeric(FactsOf(scope, TaxAmount));
      base.Some? && rate.Some? && taxes != [] ==>
        CheckTaxAmount(scope).status ==
          if ToFen(Sum(taxes)) == ToFen(Product(base.value, rate.value)) then Pass else Warn
  {
    hide SingleValue, FactsOf, Numeric, Sum, TextMatches, ToFen, Product;
  }

  /** What the checker asks for. */
  lemma TaxRequest(scope: Scope)
    ensures var base, rate := TaxedFact(scope), SingleValue(FactsOf(scope, TaxRate));
      var taxes, r := NumbersOf(scope.facts, TaxAmount), CheckTaxAmount(scope);
      if base.None? || rate.None? || taxes == [] then r.status == Undetermined
      else
        Decides(r.status) && forall f :: f in r.facts <==> f == base.value || f == rate.value || f in taxes
  {
    NumbersMembers(scope, TaxAmount);
    hide SingleValue, FactsOf, Numeric, NumbersOf, Sum, TextMatches, ToFen;
  }

  /** The fact that is taxed. */
  function TaxedFact(scope: Scope): Option<Fact>
  {
    var given := FactsOf(scope, TaxBase);
    SingleValue(if given == [] && TextMatches(scope, Untaxed) != [] then FactsOf(scope, AmountNumeric) else given)
  }

  lemma TaxFacts(scope: Scope)
    ensures var base := TaxedFact(scope);
      && (base.None? ==> forall v :: !IsTaxed(scope, v))
      && (base.Some? ==> base.value.value.Some? && IsTaxed(scope, base.value.value.value))
      && (base.Some? ==> (Sure(base.value) <==> TaxedSure(scope)))
  {
    HasAnyIff(scope, TaxBase);
    FindsIff(scope, Untaxed);
    SingleIs(scope, TaxBase);
    SingleIs(scope, AmountNumeric);
    if FactsOf(scope, TaxBase) == [] { assert SingleValue([]) == None; }
    hide FactsOf, TextMatches, OneNumber, FirstSure, Sure, HasAny, Finds;
  }

  lemma SameTaxed(scope: Scope)
    ensures forall v, w :: IsTaxed(scope, v) && IsTaxed(scope, w) ==> v == w
  {
    SameNumber(scope, TaxBase);
    SameNumber(scope, AmountNumeric);
    hide OneNumber;
  }

  /** Whole fen, the nearest ones, and of two equally near the one further from zero. */
  lemma ToFenMeans(x: real)
    ensures exists n :: InFen(ToFen(x), n)
    ensures x >= 0.0 ==> ToFen(x) - 0.005 <= x < ToFen(x) + 0.005
    ensures x < 0.0 ==> ToFen(x) - 0.005 < x <= ToFen(x) + 0.005
  {
    var n := if x >= 0.0 then (x * 100.0 + 0.5).Floor else -(-x * 100.0 + 0.5).Floor;
    assert InFen(ToFen(x), n);
  }

  predicate InFen(x: real, n: int) { x == n as real / 100.0 }

  // ---------------------------------------------------------------------- terms

  /** What a missing term comes to: open until everything is parsed, then as the policy says. */
  function MissingStatus(scope: Scope): Status
  {
    if !scope.allParsed then Undetermined
    else if scope.policy == WarnIfMissing then Warn
    else if scope.policy == BlockIfMissing then Block
    else if scope.policy == IgnoreIfMissing then NotApplicable
    else Undetermined
  }

  /** A verdict on facts of the kind stands when all of them are sure. */
  ghost function Standing(scope: Scope, kind: Kind, status: Status): Status
  {
    if AllSure(scope, kind) then status else Undetermined
  }

  ghost predicate TermJudged(scope: Scope, term: Kind, blocked: set<Pattern>, needed: set<Pattern>, status: Status)
  {
    var facts := FactsOf(scope, term);
    status ==
      if !HasAny(scope, term) then MissingStatus(scope)
      else if exists p :: p in blocked && scope.texts.says(facts, p) then Standing(scope, term, Block)
      else if forall p :: p in needed ==> scope.texts.says(facts, p) then Standing(scope, term, Pass)
      else Standing(scope, term, Warn)
  }

  lemma JudgedIff(scope: Scope, term: Kind, blocked: seq<Pattern>, needed: seq<Pattern>, r: Request)
    requires r == Judged(scope, term, blocked, needed) && needed != []
    ensures TermJudged(scope, term, Elements(blocked), Elements(needed), BaseResult(scope, r).status)
  {
    HasAnyIff(scope, term);
    VerdictStatus(scope, r);
    hide FactsOf, BaseResult, Sure;
    if HasAny(scope, term) {
      assert r.facts == FactsOf(scope, term);
      assert AllSure(scope, term) <==> !exists f :: f in r.facts && !Sure(f);
    } else {
      MissingIs(scope, term);
    }
  }

  /** A missing term, by the policy of the rule: a fact without text and an incomplete parse
      are of poor quality, a term that is not there is not; only a decided policy is automatic. */
  lemma MissingMeans(scope: Scope, term: Kind, facts: seq<Fact>)
    ensures var r := CheckMissing(scope, term, facts);
      && r.textual == [] && r.facts == facts
      && (r.status == Undetermined <==>
            scope.policy == UnknownIfMissing || (facts == [] && !scope.allParsed))
      && (r.status == Warn <==> scope.policy == WarnIfMissing && (facts != [] || scope.allParsed))
      && (r.status == Block <==> scope.policy == BlockIfMissing && (facts != [] || scope.allParsed))
      && (r.quality == Sufficient <==> facts == [] && scope.allParsed)
      && (r.automatic == Some(true) <==> r.quality == Sufficient && scope.policy != UnknownIfMissing)
      && r.automatic.Some? && r.made == (if r.quality == Sufficient then [scope.texts.missing(term)] else [])
      && r.confidence == Some(if r.status == Undetermined || r.status == Block then 0.0 else 1.0)
  {
  }

  lemma MissingIs(scope: Scope, term: Kind)
    ensures BaseResult(scope, CheckMissing(scope, term, [])).status == MissingStatus(scope)
  {
    VerdictStatus(scope, CheckMissing(scope, term, []));
    hide BaseResult;
  }

  lemma JudgedAs(scope: Scope, checker: Checker, term: Kind, blocked: seq<Pattern>, needed: seq<Pattern>)
    requires needed != [] && RunChecker(checker, scope) == Some(Judged(scope, term, blocked, needed))
    ensures TermJudged(scope, term, Elements(blocked), Elements(needed), StatusOf(checker, scope))
  {
    hide TermJudged, Judged, BaseResult;
    JudgedIff(scope, term, blocked, needed, Judged(scope, term, blocked, needed));
  }

  /** Full prepayment blocks payment terms; a tie to the acceptance lets them pass. */
  lemma PaymentTermsIff(scope: Scope)
    ensures TermJudged(scope, PaymentTerm, {FullPrepayment}, {BoundToAcceptance}, StatusOf(PaymentTerms, scope))
  {
    JudgedAs(scope, PaymentTerms, PaymentTerm, [FullPrepayment], [BoundToAcceptance]);
    assert Elements([FullPrepayment]) == {FullPrepayment} && Elements([BoundToAcceptance]) == {BoundToAcceptance};
    hide TermJudged, StatusOf;
  }

  /** Deemed acceptance blocks acceptance terms; a standard and a method let them pass. */
  lemma AcceptanceTermsIff(scope: Scope)
    ensures TermJudged(scope, AcceptanceTerm, {DeemedAccepted}, {Standard, MethodOrDeadline},
      StatusOf(AcceptanceTerms, scope))
  {
    JudgedAs(scope, AcceptanceTerms, AcceptanceTerm, [DeemedAccepted], [Standard, MethodOrDeadline]);
    assert Elements([DeemedAccepted]) == {DeemedAccepted};
    assert Elements([Standard, MethodOrDeadline]) == {Standard, MethodOrDeadline};
    hide TermJudged, StatusOf;
  }

  /** Renewal terms pass when there is no automatic renewal and never block. */
  lemma RenewalTermsIff(scope: Scope)
    ensures TermJudged(scope, RenewalTerm, {}, {NoAutomaticRenewal}, StatusOf(RenewalTerms, scope))
  {
    JudgedAs(scope, RenewalTerms, RenewalTerm, [], [NoAutomaticRenewal]);
    assert Elements<Pattern>([]) == {} && Elements([NoAutomaticRenewal]) == {NoAutomaticRenewal};
    hide TermJudged, StatusOf;
  }

  /** Termination terms pass with a trigger and a notice or settlement and never block. */
  lemma TerminationTermsIff(scope: Scope)
    ensures TermJudged(scope, TerminationTerm, {}, {Trigger, NoticeOrSettlement}, StatusOf(TerminationTerms, scope))
  {
    JudgedAs(scope, TerminationTerms, TerminationTerm, [], [Trigger, NoticeOrSettlement]);
    assert Elements<Pattern>([]) == {} && Elements([Trigger, NoticeOrSettlement]) == {Trigger, NoticeOrSettlement};
    hide TermJudged, StatusOf;
  }

  /** Exemption blocks liability terms; liability and a measure let them pass. */
  lemma BreachTermsIff(scope: Scope)
    ensures TermJudged(scope, BreachTerm, {Exemption}, {Liability, Measure}, StatusOf(BreachTerms, scope))
  {
    JudgedAs(scope, BreachTerms, BreachTerm, [Exemption], [Liability, Measure]);
    assert Elements([Exemption]) == {Exemption} && Elements([Liability, Measure]) == {Liability, Measure};
    hide TermJudged, StatusOf;
  }

  /** A document that one of the facts of this kind names. */
  ghost predicate Names(scope: Scope, kind: Kind, d: Id) { exists f :: Has(scope, kind, f) && d in f.sources }

  /** Delivery needs a term and a date, from the same document when both name one, and passes
      when place or method is said too. */
  lemma DeliveryIff(scope: Scope)
    ensures StatusOf(DeliveryTerms, scope) ==
      if !HasAny(scope, DeliveryTerm) && !HasAny(scope, DeliveryDate) then MissingStatus(scope)
      else if !HasAny(scope, DeliveryTerm) then IncompleteStatus(scope, DeliveryDate)
      else if !HasAny(scope, DeliveryDate) then IncompleteStatus(scope, DeliveryTerm)
      else if (exists d :: Names(scope, DeliveryTerm, d)) && (exists d :: Names(scope, DeliveryDate, d))
        && !(exists d :: Names(scope, DeliveryTerm, d) && Names(scope, DeliveryDate, d)) then Undetermined
      else if !AllSure(scope, DeliveryTerm) || !AllSure(scope, DeliveryDate) then Undetermined
      else if scope.texts.says(FactsOf(scope, DeliveryTerm) + FactsOf(scope, DeliveryDate), PlaceOrMethod) then Pass
      else Warn
  {
    HasAnyIff(scope, DeliveryTerm);
    HasAnyIff(scope, DeliveryDate);
    MissingIs(scope, DeliveryTerm);
    SourcesAre(scope, DeliveryTerm);
    SourcesAre(scope, DeliveryDate);
    Apart(SourcesOf(FactsOf(scope, DeliveryTerm)), SourcesOf(FactsOf(scope, DeliveryDate)));
    VerdictStatus(scope, CheckDelivery(scope));
    hide FactsOf, BaseResult, Sure, SourcesOf, Names;
    var terms, dates := FactsOf(scope, DeliveryTerm), FactsOf(scope, DeliveryDate);
    assert terms == [] ==> terms + dates == dates;
    assert dates == [] ==> terms + dates == terms;
  }

  /** A term that is only partly there: as the policy says, if its facts are sure. */
  ghost function IncompleteStatus(scope: Scope, kind: Kind): Status
  {
    if scope.policy == WarnIfMissing then Standing(scope, kind, Warn)
    else if scope.policy == BlockIfMissing then Standing(scope, kind, Block)
    else if scope.policy == IgnoreIfMissing then NotApplicable
    else Undetermined
  }

  lemma SourcesAre(scope: Scope, kind: Kind)
    ensures forall d :: d in SourcesOf(FactsOf(scope, kind)) <==> Names(scope, kind, d)
  {
    HasAnyIff(scope, kind);
    hide FactsOf;
  }

  lemma Apart(a: set<Id>, b: set<Id>)
    ensures a != {} <==> exists x :: x in a
    ensures b != {} <==> exists x :: x in b
    ensures a * b == {} <==> !exists x :: x in a && x in b
  {
    if a != {} { NonEmpty(a); }
    if b != {} { NonEmpty(b); }
    if a * b != {} {
      var x := PickOne(a * b);
      assert x in a && x in b;
    }
    if x :| x in a && x in b { assert x in a * b; }
  }

  // -------------------------------------------------------------- across documents

  /** Facts of the kind are found in two different documents. */
  ghost predicate InTwo(scope: Scope, kind: Kind)
  {
    exists d, e :: d != e && FoundIn(scope, kind, d) && FoundIn(scope, kind, e)
  }

  ghost predicate FoundIn(scope: Scope, kind: Kind, d: Id) { exists f :: Has(scope, kind, f) && d in f.documents }

  /** What is compared: names, parties, amounts, tax rate and delivery date. */
  predicate IsCompared(kind: Kind)
  {
    kind in {ContractName, ProjectName, PartyA, PartyB, AmountNumeric, AmountUpper, Kind.TaxRate, DeliveryDate}
  }

  /** A fact of a document, of a kind that two documents have. */
  ghost predicate Comparably(scope: Scope, kind: Kind, f: Fact)
  {
    InTwo(scope, kind) && Has(scope, kind, f) && |f.documents| > 0
  }

  /** A fact that is compared with those of other documents. */
  ghost predicate Compares(scope: Scope, kind: Kind, f: Fact) { IsCompared(kind) && Comparably(scope, kind, f) }

  ghost predicate ComparesAny(scope: Scope) { exists k, f :: Compares(scope, k, f) }

  ghost predicate ComparesUnsure(scope: Scope) { exists k, f :: Compares(scope, k, f) && !Sure(f) }

  /** Two compared facts of one kind have different texts. */
  ghost predicate Conflict(scope: Scope)
  {
    exists k, f, g :: Compares(scope, k, f) && Compares(scope, k, g) && f.text != g.text
  }

  ghost predicate RequiredCompared(scope: Scope)
  {
    forall k :: k in scope.requiredKinds ==> IsCompared(k) && InTwo(scope, k)
  }

  /** At least two documents are needed, and every required kind must be compared.  Then two
      different texts of one kind are warned about, unless a compared fact is unsure. */
  lemma CrossDocumentIff(scope: Scope)
    ensures StatusOf(CrossDocument, scope) ==
      if scope.documents < 2 || !ComparesAny(scope) || !RequiredCompared(scope) || ComparesUnsure(scope)
      then Undetermined
      else if Conflict(scope) then Warn else Pass
  {
    var parts := Map((k: Kind) => Comparable(scope, k), COMPARED);
    hide ComparesAny, ComparesUnsure, Conflict, RequiredCompared, Sure, BaseResult, Comparable, Flatten, Conflicting;
    ComparedFacts(scope, parts, Flatten(parts));
    RequiredIff(scope);
    ConflictsAre(scope, parts);
    VerdictStatus(scope, CheckDocuments(scope));
    UnsureIff(scope, Flatten(parts));
  }

  lemma UnsureIff(scope: Scope, facts: seq<Fact>)
    requires forall f :: f in facts <==> exists k :: Compares(scope, k, f)
    ensures ComparesUnsure(scope) <==> exists f :: f in facts && !Sure(f)
  {
    hide Compares, Sure;
    if k, f :| Compares(scope, k, f) && !Sure(f) { assert f in facts; }
  }

  lemma RequiredIff(scope: Scope)
    ensures RequiredCompared(scope) <==>
      !exists k :: k in scope.requiredKinds && (k !in COMPARED || Comparable(scope, k) == [])
  {
    hide Comparable, InTwo, IsCompared;
    ComparedKinds(scope);
  }

  lemma ComparedKinds(scope: Scope)
    ensures forall k :: k in COMPARED <==> IsCompared(k)
    ensures forall k :: Comparable(scope, k) != [] <==> InTwo(scope, k)
  {
    forall k ensures Comparable(scope, k) != [] <==> InTwo(scope, k) {
      ComparableAre(scope, k);
      TwoHaveFacts(scope, k);
      ComparablyTwo(scope, k);
      var list := Comparable(scope, k);
      hide Comparable, InTwo, Comparably;
      if list != [] { assert list[0] in list; }
    }
  }

  lemma ComparablyTwo(scope: Scope, kind: Kind)
    ensures forall f :: Comparably(scope, kind, f) ==> InTwo(scope, kind)
  {
    hide InTwo;
  }

  lemma TwoHaveFacts(scope: Scope, kind: Kind)
    ensures InTwo(scope, kind) ==> exists f :: Comparably(scope, kind, f)
  {
    if InTwo(scope, kind) {
      var d, e :| d != e && FoundIn(scope, kind, d) && FoundIn(scope, kind, e);
      var f :| Has(scope, kind, f) && d in f.documents;
      assert Comparably(scope, kind, f);
    }
  }

  /** The facts that are compared for one kind. */
  lemma ComparableAre(scope: Scope, kind: Kind)
    ensures forall f :: f in Comparable(scope, kind) <==> Comparably(scope, kind, f)
  {
    var facts := FactsOf(scope, kind);
    var documents := Dedup(Flatten(Map(DocumentsOf, facts)));
    hide FactsOf, Dedup, Flatten, Distinct, InTwo, Has, FoundIn;
    HasAnyIff(scope, kind);
    DocumentsFound(scope, kind);
    PerDocument(facts, documents);
    assert |documents| >= 2 <==> InTwo(scope, kind);
    forall f ensures (exists d :: d in documents && f in facts && d in f.documents) <==>
      Has(scope, kind, f) && |f.documents| > 0
    {
      if Has(scope, kind, f) && |f.documents| > 0 {
        HasDocument(scope, kind, f);
        assert f.documents[0] in documents && f.documents[0] in f.documents;
      }
    }
  }

  lemma HasDocument(scope: Scope, kind: Kind, f: Fact)
    requires Has(scope, kind, f) && |f.documents| > 0
    ensures FoundIn(scope, kind, f.documents[0])
  {
    assert f.documents[0] in f.documents;
  }

  lemma DocumentsFound(scope: Scope, kind: Kind)
    ensures var documents := Dedup(Flatten(Map(DocumentsOf, FactsOf(scope, kind))));
      (forall d :: d in documents <==> FoundIn(scope, kind, d)) && (|documents| >= 2 <==> InTwo(scope, kind))
  {
    var facts := FactsOf(scope, kind);
    var all := Flatten(Map(DocumentsOf, facts));
    hide FactsOf, Dedup, Flatten, Distinct, Has;
    HasAnyIff(scope, kind);
    DocumentsAre(facts);
    DedupDistinct(all);
    assert forall d :: d in Dedup(all) <==> FoundIn(scope, kind, d);
    TwoIff(Dedup(all));
    hide FoundIn;
  }

  lemma TwoIff(s: seq<Id>)
    requires Distinct(s)
    ensures |s| >= 2 <==> exists d, e :: d != e && d in s && e in s
  {
    if |s| >= 2 { assert s[0] != s[1] && s[0] in s && s[1] in s; }
  }

  lemma DocumentsAre(facts: seq<Fact>)
    ensures forall d :: d in Flatten(Map(DocumentsOf, facts)) <==> exists f :: f in facts && d in f.documents
  {
    var parts := Map(DocumentsOf, facts);
    FlattenMembers(parts);
    forall d ensures d in Flatten(parts) <==> exists f :: f in facts && d in f.documents {
      if i :| 0 <= i < |parts| && d in parts[i] { assert facts[i] in facts; }
      if f :| f in facts && d in f.documents {
        var i :| 0 <= i < |facts| && facts[i] == f;
        assert d in parts[i];
      }
    }
  }

  lemma PerDocument(facts: seq<Fact>, documents: seq<Id>)
    ensures forall f :: f in Flatten(Map((d: Id) => InDocument(facts, d), documents)) <==>
      exists d :: d in documents && f in facts && d in f.documents
  {
    var parts := Map((d: Id) => InDocument(facts, d), documents);
    FlattenMembers(parts);
    forall d, f ensures f in InDocument(facts, d) <==> f in facts && d in f.documents {
      CollectMembers((x: Fact) => Kept(d in x.documents, x), facts);
    }
    forall f ensures f in Flatten(parts) <==> exists d :: d in documents && f in facts && d in f.documents {
      if i :| 0 <= i < |parts| && f in parts[i] { assert documents[i] in documents; }
      if d :| d in documents && f in facts && d in f.documents {
        var i :| 0 <= i < |documents| && documents[i] == d;
        assert f in parts[i];
      }
    }
  }

  lemma ComparedFacts(scope: Scope, parts: seq<seq<Fact>>, facts: seq<Fact>)
    requires parts == Map((k: Kind) => Comparable(scope, k), COMPARED) && facts == Flatten(parts)
    ensures forall f :: f in facts <==> exists k :: Compares(scope, k, f)
    ensures facts != [] <==> ComparesAny(scope)
  {
    hide Comparable, Comparably, Flatten, IsCompared, InTwo;
    FlattenMembers(parts);
    PartsAre(scope, parts);
    forall f ensures f in facts <==> exists k :: Compares(scope, k, f) {
      if i :| 0 <= i < |parts| && f in parts[i] { assert Compares(scope, COMPARED[i], f); }
      if k :| Compares(scope, k, f) {
        var i :| 0 <= i < |COMPARED| && COMPARED[i] == k;
        assert f in parts[i];
      }
    }
    if facts != [] {
      assert facts[0] in facts;
      var k :| Compares(scope, k, facts[0]);
    }
    if k, f :| Compares(scope, k, f) { assert f in facts; }
  }

  lemma PartsAre(scope: Scope, parts: seq<seq<Fact>>)
    requires parts == Map((k: Kind) => Comparable(scope, k), COMPARED)
    ensures |parts| == |COMPARED|
    ensures forall i, f :: 0 <= i < |parts| ==> (f in parts[i] <==> Comparably(scope, COMPARED[i], f))
    ensures forall k :: k in COMPARED <==> IsCompared(k)
  {
    hide Comparable, Comparably, InTwo;
    forall i, f | 0 <= i < |parts| ensures f in parts[i] <==> Comparably(scope, COMPARED[i], f) {
      ComparableAre(scope, COMPARED[i]);
    }
    ComparedKinds(scope);
    hide IsCompared;
  }

  lemma ConflictsAre(scope: Scope, parts: seq<seq<Fact>>)
    requires parts == Map((k: Kind) => Comparable(scope, k), COMPARED)
    ensures (exists p :: p in parts && Conflicting(p)) <==> Conflict(scope)
  {
    hide Comparable, Comparably, IsCompared, InTwo;
    PartsAre(scope, parts);
    if p :| p in parts && Conflicting(p) {
      var i :| 0 <= i < |parts| && parts[i] == p;
      var f, g :| f in p && g in p && f.text != g.text;
      assert COMPARED[i] in COMPARED;
      assert Compares(scope, COMPARED[i], f) && Compares(scope, COMPARED[i], g);
    }
    if k, f, g :| Compares(scope, k, f) && Compares(scope, k, g) && f.text != g.text {
      var i :| 0 <= i < |COMPARED| && COMPARED[i] == k;
      assert f in parts[i] && g in parts[i];
      assert Conflicting(parts[i]) && parts[i] in parts;
    }
  }

  // ------------------------------------------------------------------- what stays open

  /** An open request is of poor quality and not automatic, except for a term that is missing
      from a parsed package under a policy that leaves it open. */
  predicate OpenAsPoor(scope: Scope, r: Request)
  {
    r.status == Undetermined ==>
      && r.automatic == Some(false)
      && (r.quality == Poor || (r.facts == [] && scope.allParsed && scope.policy == UnknownIfMissing && |r.made| == 1))
  }

  lemma JudgedOpen(scope: Scope, term: Kind, blocked: seq<Pattern>, needed: seq<Pattern>)
    ensures OpenAsPoor(scope, Judged(scope, term, blocked, needed))
  {
    hide FactsOf;
  }

  /** Whatever a checker leaves open, it leaves to a person; only missing attachments are left
      open on evidence of sufficient quality too. */
  lemma OpenIsPoor(checker: Checker, scope: Scope)
    requires RunChecker(checker, scope).Some?
    ensures checker != AttachmentCompleteness ==> OpenAsPoor(scope, RunChecker(checker, scope).value)
    ensures checker == AttachmentCompleteness ==>
      var r := RunChecker(checker, scope).value;
      r.quality == Sufficient && r.automatic == None && r.confidence == Some(0.0) && r.facts == []
  {
    JudgedOpen(scope, PaymentTerm, [FullPrepayment], [BoundToAcceptance]);
    JudgedOpen(scope, AcceptanceTerm, [DeemedAccepted], [Standard, MethodOrDeadline]);
    JudgedOpen(scope, RenewalTerm, [], [NoAutomaticRenewal]);
    JudgedOpen(scope, TerminationTerm, [], [Trigger, NoticeOrSettlement]);
    JudgedOpen(scope, BreachTerm, [Exemption], [Liability, Measure]);
    hide Judged, FactsOf, SingleValue, Numeric, Sum, TextMatches;
  }
}
