/**
 The registered rule checkers: what each asks for, and the base result that withdraws
 verdicts drawn from facts of low confidence.  Pattern matches in texts are inputs.
 */
module RuleCheckers {
  import opened Collecting
  import opened Ordering
  import opened EvidenceGate

  datatype Status = Pass | Warn | Block | Undetermined | NotApplicable

  predicate Decides(s: Status) { s.Pass? || s.Warn? || s.Block? }

  datatype Quality = Sufficient | Poor

  datatype Kind =
    | AmountNumeric | AmountUpper | DetailAmount | DetailTotal | TaxRate | TaxBase | TaxAmount
    | PaymentRatio | PaymentAmount | InvoiceAmount | InvoiceType
    | PaymentTerm | DeliveryTerm | DeliveryDate | AcceptanceTerm | RenewalTerm | TerminationTerm | BreachTerm
    | ContractName | ProjectName | PartyA | PartyB | OtherKind(name: Id)

  /** An extracted fact; `value` is missing when it does not read as a number, `sources` are
      the documents it names and `documents` those it is found in. */
  datatype Fact = Fact(
    id: Id, kind: Kind, text: Id, value: Option<real>, confidence: Option<real>, evidenceIds: seq<Id>,
    candidateIds: set<Id>, sources: set<Id>, documents: seq<Id>)

  /** A reference to an attachment: whether it is required and some document matches it, and
      the evidence made up when it is missing. */
  datatype Reference = Reference(required: bool, matched: bool, evidenceIds: seq<Id>, candidateIds: set<Id>,
                                 missingId: Id)

  datatype Phrase = Untaxed | Taxed | Guaranteed

  datatype Pattern =
    | FullPrepayment | BoundToAcceptance | PlaceOrMethod | DeemedAccepted | Standard | MethodOrDeadline
    | NoAutomaticRenewal | Trigger | NoticeOrSettlement | Exemption | Liability | Measure

  datatype Policy = WarnIfMissing | BlockIfMissing | UnknownIfMissing | IgnoreIfMissing

  /** What is found in texts: phrases in candidates, the phrase for untaxed amounts in the
      excerpt of an evidence, patterns in the texts of facts, whether an evidence is known, and
      the evidence made up for a missing term. */
  datatype Texts = Texts(
    contains: (Candidate, Phrase) -> bool, excerptUntaxed: Id -> bool, says: (seq<Fact>, Pattern) -> bool,
    known: Id -> bool, missing: Kind -> Id)

  /** What a checker sees: the facts, references and candidates accepted for its rule. */
  datatype Scope = Scope(
    ruleEvidence: Id, packageEvidence: Id, facts: seq<Fact>, references: seq<Reference>, candidates: seq<Candidate>,
    documents: nat, allParsed: bool, policy: Policy, expectedRate: Option<real>, requiredKinds: set<Kind>, texts: Texts)

  /** What a checker asks for: facts used, text evidence found, evidence made up for missing parts. */
  datatype Request = Request(
    status: Status, facts: seq<Fact>, textual: seq<Id>, made: seq<Id>, confidence: Option<real>, quality: Quality,
    automatic: Option<bool>)

  datatype Result = Result(status: Status, evidenceIds: seq<Id>, confidence: Option<real>, factIds: seq<Id>,
                           quality: Quality, automatic: bool)

  // -------------------------------------------------------------------- the base result

  const THRESHOLD := 0.5

  /** The least known confidence. */
  function Confidence(facts: seq<Fact>): Option<real>
  {
    if facts == [] then None
    else
      var before, last := Confidence(facts[..|facts| - 1]), facts[|facts| - 1].confidence;
      if before.None? then last else if last.None? || before.value <= last.value then before else last
  }

  function FactEvidence(f: Fact): seq<Id> { f.evidenceIds }

  function FactId(f: Fact): Id { f.id }

  function Cited(scope: Scope, r: Request): seq<Id>
  {
    [scope.ruleEvidence, scope.packageEvidence] + Flatten(Map(FactEvidence, r.facts)) + r.textual + r.made
  }

  predicate LowConfidence(facts: seq<Fact>) { Confidence(facts).Some? && Confidence(facts).value < THRESHOLD }

  /** _base_result: a verdict drawn from facts of low confidence is withdrawn. */
  function BaseResult(scope: Scope, r: Request): Result
  {
    var cited := Dedup(Cited(scope, r));
    var confidence := if r.confidence.Some? then r.confidence else Confidence(r.facts);
    var ids := Map(FactId, r.facts);
    if LowConfidence(r.facts) && Decides(r.status) then Result(Undetermined, cited, confidence, ids, Poor, false)
    else
      Result(r.status, cited, confidence, ids, r.quality,
        if r.automatic.Some? then r.automatic.value else Decides(r.status))
  }

  method BuildResult(scope: Scope, r: Request) returns (result: Result)
    ensures result == BaseResult(scope, r)
  {
    var cited := Dedup(Cited(scope, r));
    var status, quality := r.status, r.quality;
    var automatic := if r.automatic.Some? then r.automatic.value else Decides(status);
    var known := Confidence(r.facts);
    if r.facts != [] && known.Some? && known.value < THRESHOLD && Decides(status) {
      status, quality, automatic := Undetermined, Poor, false;
    }
    result := Result(status, cited, if r.confidence.Some? then r.confidence else known, Map(FactId, r.facts), quality,
      automatic);
  }

  /** Where the textual evidence of a request may come from. */
  predicate FromCandidates(scope: Scope, e: Id)
  {
    exists c :: c in scope.candidates && e in c.evidenceIds
  }

  predicate FromReferences(scope: Scope, e: Id)
  {
    exists r :: r in scope.references && e in r.evidenceIds
  }

  ghost predicate MadeForTerm(scope: Scope, e: Id)
  {
    exists k :: scope.texts.missing(k) == e
  }

  predicate MadeForReference(scope: Scope, e: Id)
  {
    exists r :: r in scope.references && r.missingId == e
  }

  /** What every checker keeps to: facts and text of its scope, and neither a poor quality nor
      an open status for results that are automatic. */
  ghost predicate Disciplined(scope: Scope, r: Request)
  {
    && (forall f :: f in r.facts ==> f in scope.facts)
    && (forall e :: e in r.textual ==> FromCandidates(scope, e) || (r.status.Undetermined? && FromReferences(scope, e)))
    && (forall e :: e in r.made ==> MadeForTerm(scope, e) || (r.status.Undetermined? && MadeForReference(scope, e)))
    && (r.quality == Poor ==> r.automatic == Some(false))
    && (r.automatic == Some(true) ==> r.facts == [] && !r.status.Undetermined?)
  }

  lemma {:induction false} ConfidenceIsLeast(facts: seq<Fact>)
    ensures forall f :: f in facts && f.confidence.Some? ==>
      Confidence(facts).Some? && Confidence(facts).value <= f.confidence.value
    ensures Confidence(facts).Some? ==> exists f :: f in facts && f.confidence == Confidence(facts)
  {
    if facts != [] {
      var front, last := facts[..|facts| - 1], facts[|facts| - 1];
      ConfidenceIsLeast(front);
      SnocParts(facts);
      assert last in facts && forall f :: f in front ==> f in facts;
    }
  }

  predicate Confident(f: Fact) { f.confidence.Some? ==> f.confidence.value >= THRESHOLD }

  /** An automatic verdict has sufficient quality and rests on confident facts only. */
  lemma AutomaticIsConfident(scope: Scope, r: Request)
    requires Disciplined(scope, r) && BaseResult(scope, r).automatic
    ensures BaseResult(scope, r).quality == Sufficient && !BaseResult(scope, r).status.Undetermined?
    ensures forall f :: f in r.facts ==> Confident(f)
  {
    ConfidenceIsLeast(r.facts);
  }

  // ------------------------------------------------------------------------ checkers

  function OfKind(kind: Kind, f: Fact): Option<Fact> { Kept(f.kind == kind, f) }

  function FactsOf(scope: Scope, kind: Kind): seq<Fact> { Collect((f: Fact) => OfKind(kind, f), scope.facts) }

  /** The facts that read as numbers. */
  function Numeric(facts: seq<Fact>): seq<Fact> { Collect((f: Fact) => Kept(f.value.Some?, f), facts) }

  function Sum(facts: seq<Fact>): real
  {
    if facts == [] then 0.0
    else Sum(facts[..|facts| - 1]) + match facts[|facts| - 1].value case Some(v) => v case None => 0.0
  }

  /** The first numeric fact, when all numeric facts have the same value. */
  function SingleValue(facts: seq<Fact>): Option<Fact>
  {
    var numeric := Numeric(facts);
    if numeric != [] && forall i :: 0 <= i < |numeric| ==> numeric[i].value == numeric[0].value then Some(numeric[0])
    else None
  }

  function Unsure(facts: seq<Fact>): Request { Request(Undetermined, facts, [], [], Some(0.0), Poor, Some(false)) }

  function Verdict(pass: bool, facts: seq<Fact>): Request
  {
    Request(if pass then Pass else Warn, facts, [], [], None, Sufficient, None)
  }

  /** Two amounts, each given by one value, must be equal. */
  function CheckAmountCase(scope: Scope): Request
  {
    var numeric, upper := FactsOf(scope, AmountNumeric), FactsOf(scope, AmountUpper);
    var left, right := SingleValue(numeric), SingleValue(upper);
    if left.None? || right.None? then Unsure(numeric + upper)
    else Verdict(left.value.value == right.value.value, [left.value, right.value])
  }

  /** The amounts of one kind must add up to the one total. */
  function CheckSum(scope: Scope, kind: Kind, totalKind: Kind): Request
  {
    var amounts := Numeric(FactsOf(scope, kind));
    var total := SingleValue(FactsOf(scope, totalKind));
    if amounts == [] || total.None? then Unsure(FactsOf(scope, kind) + FactsOf(scope, totalKind))
    else Verdict(Some(Sum(amounts)) == total.value.value, amounts + [total.value])
  }

  const RATE_TOLERANCE := 0.000000001

  predicate RateFits(expected: real, f: Fact)
  {
    f.value.Some? ==> -RATE_TOLERANCE < f.value.value - expected < RATE_TOLERANCE
  }

  /** All tax rates that read as numbers must be the expected one. */
  function CheckTaxRate(scope: Scope): Request
  {
    var facts := FactsOf(scope, TaxRate);
    if facts == [] then Unsure([])
    else if scope.expectedRate.None? then Unsure(facts)
    else Verdict(forall f :: f in facts ==> RateFits(scope.expectedRate.value, f), facts)
  }

  /** Round half away from zero to two places. */
  function ToFen(x: real): real
  {
    if x >= 0.0 then (x * 100.0 + 0.5).Floor as real / 100.0 else -((-x * 100.0 + 0.5).Floor as real / 100.0)
  }

  /** The contract amount is the tax base only when some text calls it untaxed. */
  function CheckTaxAmount(scope: Scope): Request
  {
    var given := FactsOf(scope, TaxBase);
    var untaxed := if given == [] then TextMatches(scope, Untaxed) else [];
    var bases := if given == [] && untaxed != [] then FactsOf(scope, AmountNumeric) else given;
    var taxes, rates := FactsOf(scope, TaxAmount), FactsOf(scope, TaxRate);
    var base, tax, rate := SingleValue(bases), Numeric(taxes), SingleValue(rates);
    if base.None? || tax == [] || rate.None? then Unsure(bases + taxes + rates).(textual := untaxed)
    else
      var expected := ToFen(Product(base.value, rate.value));
      Verdict(ToFen(Sum(tax)) == expected, [base.value, rate.value] + tax).(textual := untaxed)
  }

  function Product(x: Fact, y: Fact): real { Value(x) * Value(y) }

  function Value(f: Fact): real { if f.value.Some? then f.value.value else 0.0 }

  /** Payment ratios must not exceed the whole. */
  function CheckRatio(scope: Scope, kind: Kind): Request
  {
    var facts := FactsOf(scope, kind);
    var ratios := Numeric(facts);
    if ratios == [] then Unsure([]) else Verdict(Sum(ratios) <= 1.000001, facts)
  }

  /** Facts of a kind are all that is asked for. */
  function CheckPresent(scope: Scope, kind: Kind): Request
  {
    var facts := FactsOf(scope, kind);
    if facts == [] then Unsure([]) else Verdict(true, facts)
  }

  function EvidenceOf(c: Candidate): seq<Id> { c.evidenceIds }

  /** The evidence of the contract candidates that a text search finds. */
  function Matches(candidates: seq<Candidate>, mentions: Candidate -> bool): seq<Id>
  {
    Dedup(Flatten(Map(EvidenceOf, Collect((c: Candidate) => Kept(c.isContract && mentions(c), c), candidates))))
  }

  function Mentioning(texts: Texts, phrase: Phrase): Candidate -> bool { (c: Candidate) => texts.contains(c, phrase) }

  /** _find_text_matches: only known evidence counts. */
  function TextMatches(scope: Scope, phrase: Phrase): seq<Id>
  {
    Collect((e: Id) => Kept(scope.texts.known(e), e), Matches(scope.candidates, Mentioning(scope.texts, phrase)))
  }

  function TextVerdict(status: Status, found: seq<Id>): Request
  {
    Request(status, [], found, [], Some(1.0), Sufficient, None)
  }

  function CheckGuarantee(scope: Scope): Request
  {
    var found := TextMatches(scope, Guaranteed);
    if found != [] then TextVerdict(Warn, found) else Unsure([])
  }

  function CheckUntaxed(scope: Scope): Request
  {
    var untaxed := TextMatches(scope, Untaxed);
    var taxed := Collect((e: Id) => Kept(!scope.texts.excerptUntaxed(e), e), TextMatches(scope, Taxed));
    if untaxed != [] && taxed == [] then TextVerdict(Pass, untaxed)
    else if taxed != [] then TextVerdict(Warn, taxed)
    else Unsure([])
  }

  function ReferenceEvidence(r: Reference): seq<Id> { r.evidenceIds }

  /** One finding for all missing attachments, or none. */
  function CheckAttachments(scope: Scope): Option<Request>
  {
    var missing := Collect((r: Reference) => Kept(r.required && !r.matched, r.missingId), scope.references);
    if missing == [] then None
    else
      var cited := Flatten(Map(ReferenceEvidence, scope.references));
      Some(Request(Undetermined, [], cited, missing, Some(0.0), Sufficient, None))
  }

  function PolicyStatus(p: Policy): Status
  {
    match p
    case WarnIfMissing => Warn
    case BlockIfMissing => Block
    case UnknownIfMissing => Undetermined
    case IgnoreIfMissing => NotApplicable
  }

  /** _missing_contract_term: incomplete facts, an incomplete parse, or a missing term. */
  function CheckMissing(scope: Scope, term: Kind, facts: seq<Fact>): Request
  {
    var status := PolicyStatus(scope.policy);
    var confidence := Some(if status.Undetermined? || status.Block? then 0.0 else 1.0);
    if facts != [] then Request(status, facts, [], [], confidence, Poor, Some(false))
    else if !scope.allParsed then Unsure([])
    else Request(status, [], [], [scope.texts.missing(term)], confidence, Sufficient, Some(!status.Undetermined?))
  }

  /** A term is judged by patterns in the text of its facts: some block it, some let it pass. */
  function Judged(scope: Scope, term: Kind, blocked: seq<Pattern>, needed: seq<Pattern>): Request
  {
    var facts := FactsOf(scope, term);
    if facts == [] then CheckMissing(scope, term, [])
    else if exists p :: p in blocked && scope.texts.says(facts, p) then TermVerdict(Block, facts)
    else if needed != [] && forall p :: p in needed ==> scope.texts.says(facts, p) then TermVerdict(Pass, facts)
    else TermVerdict(Warn, facts)
  }

  function TermVerdict(status: Status, facts: seq<Fact>): Request
  {
    Request(status, facts, [], [], None, Sufficient, None)
  }

  function SourcesOf(facts: seq<Fact>): set<Id> { set f, d | f in facts && d in f.sources :: d }

  function CheckDelivery(scope: Scope): Request
  {
    var terms, dates := FactsOf(scope, DeliveryTerm), FactsOf(scope, DeliveryDate);
    if terms == [] then CheckMissing(scope, DeliveryTerm, terms + dates)
    else if dates == [] then CheckMissing(scope, DeliveryDate, terms + dates)
    else if SourcesOf(terms) != {} && SourcesOf(dates) != {} && SourcesOf(terms) * SourcesOf(dates) == {}
    then Unsure(terms + dates)
    else TermVerdict(if scope.texts.says(terms + dates, PlaceOrMethod) then Pass else Warn, terms + dates)
  }

  const COMPARED: seq<Kind> := [ContractName, ProjectName, PartyA, PartyB, AmountNumeric, AmountUpper, TaxRate,
    DeliveryDate]

  function DocumentsOf(f: Fact): seq<Id> { f.documents }

  function InDocument(facts: seq<Fact>, d: Id): seq<Fact> { Collect((f: Fact) => Kept(d in f.documents, f), facts) }

  /** The facts of a kind, document by document, when two documents have some. */
  function Comparable(scope: Scope, kind: Kind): seq<Fact>
  {
    var facts := FactsOf(scope, kind);
    var documents := Dedup(Flatten(Map(DocumentsOf, facts)));
    if |documents| < 2 then [] else Flatten(Map((d: Id) => InDocument(facts, d), documents))
  }

  predicate Conflicting(facts: seq<Fact>) { exists f, g :: f in facts && g in facts && f.text != g.text }

  function CheckDocuments(scope: Scope): Request
  {
    if scope.documents < 2 then Unsure([])
    else
      var parts := Map((k: Kind) => Comparable(scope, k), COMPARED);
      var facts := Flatten(parts);
      if facts == [] || exists k :: k in scope.requiredKinds && (k !in COMPARED || Comparable(scope, k) == [])
      then Unsure(facts)
      else TermVerdict(if exists p :: p in parts && Conflicting(p) then Warn else Pass, facts)
  }

  // ------------------------------------------------------------------------ the registry

  datatype Checker =
    | AmountCaseConsistency | AmountDetailTotal | UntaxedAmount | TaxRateCheck | TaxAmountCheck | PaymentRatioCheck
    | GuaranteeRequirement | PaymentTotal | InvoiceTypeCheck | InvoiceAmountCheck | InvoiceTotal
    | AttachmentCompleteness | PaymentTerms | DeliveryTerms | AcceptanceTerms | RenewalTerms | TerminationTerms
    | BreachTerms | CrossDocument

  /** What a registered checker asks for; only the attachment checker may abstain. */
  function RunChecker(checker: Checker, scope: Scope): Option<Request>
  {
    match checker
    case AmountCaseConsistency => Some(CheckAmountCase(scope))
    case AmountDetailTotal => Some(CheckSum(scope, DetailAmount, DetailTotal))
    case UntaxedAmount => Some(CheckUntaxed(scope))
    case TaxRateCheck => Some(CheckTaxRate(scope))
    case TaxAmountCheck => Some(CheckTaxAmount(scope))
    case PaymentRatioCheck => Some(CheckRatio(scope, PaymentRatio))
    case GuaranteeRequirement => Some(CheckGuarantee(scope))
    case PaymentTotal => Some(CheckSum(scope, PaymentAmount, AmountNumeric))
    case InvoiceTypeCheck => Some(CheckPresent(scope, InvoiceType))
    case InvoiceAmountCheck => Some(CheckPresent(scope, InvoiceAmount))
    case InvoiceTotal => Some(CheckSum(scope, InvoiceAmount, AmountNumeric))
    case AttachmentCompleteness => CheckAttachments(scope)
    case PaymentTerms => Some(Judged(scope, PaymentTerm, [FullPrepayment], [BoundToAcceptance]))
    case DeliveryTerms => Some(CheckDelivery(scope))
    case AcceptanceTerms => Some(Judged(scope, AcceptanceTerm, [DeemedAccepted], [Standard, MethodOrDeadline]))
    case RenewalTerms => Some(Judged(scope, RenewalTerm, [], [NoAutomaticRenewal]))
    case TerminationTerms => Some(Judged(scope, TerminationTerm, [], [Trigger, NoticeOrSettlement]))
    case BreachTerms => Some(Judged(scope, BreachTerm, [Exemption], [Liability, Measure]))
    case CrossDocument => Some(CheckDocuments(scope))
  }

  // ---------------------------------------------------------------------- discipline

  lemma FactsOfMembers(scope: Scope, kind: Kind)
    ensures forall f :: f in FactsOf(scope, kind) <==> f in scope.facts && f.kind == kind
  {
    CollectMembers((f: Fact) => OfKind(kind, f), scope.facts);
  }

  lemma NumericMembers(facts: seq<Fact>)
    ensures forall f :: f in Numeric(facts) <==> f in facts && f.value.Some?
  {
    CollectMembers((f: Fact) => Kept(f.value.Some?, f), facts);
  }

  lemma SingleMember(facts: seq<Fact>)
    ensures SingleValue(facts).Some? ==> SingleValue(facts).value in facts && SingleValue(facts).value.value.Some?
  {
    NumericMembers(facts);
    if SingleValue(facts).Some? { assert Numeric(facts)[0] in Numeric(facts); }
  }

  lemma AmountCaseIsDisciplined(scope: Scope)
    ensures Disciplined(scope, CheckAmountCase(scope))
  {
    hide SingleValue, FactsOf;
    FactsOfMembers(scope, AmountNumeric);
    FactsOfMembers(scope, AmountUpper);
    SingleMember(FactsOf(scope, AmountNumeric));
    SingleMember(FactsOf(scope, AmountUpper));
  }

  lemma SumIsDisciplined(scope: Scope, kind: Kind, totalKind: Kind)
    ensures Disciplined(scope, CheckSum(scope, kind, totalKind))
  {
    hide SingleValue, FactsOf, Numeric, Sum;
    FactsOfMembers(scope, kind);
    FactsOfMembers(scope, totalKind);
    NumericMembers(FactsOf(scope, kind));
    SingleMember(FactsOf(scope, totalKind));
  }

  lemma PlainIsDisciplined(scope: Scope, kind: Kind)
    ensures Disciplined(scope, CheckPresent(scope, kind)) && Disciplined(scope, CheckRatio(scope, kind))
    ensures kind.TaxRate? ==> Disciplined(scope, CheckTaxRate(scope))
  {
    hide FactsOf, Numeric, Sum;
    FactsOfMembers(scope, kind);
  }

  lemma TaxAmountIsDisciplined(scope: Scope)
    ensures Disciplined(scope, CheckTaxAmount(scope))
  {
    hide SingleValue, FactsOf, Numeric, Sum, TextMatches, ToFen;
    FactsOfMembers(scope, TaxBase);
    FactsOfMembers(scope, AmountNumeric);
    FactsOfMembers(scope, TaxAmount);
    FactsOfMembers(scope, TaxRate);
    SingleMember(FactsOf(scope, TaxBase));
    SingleMember(FactsOf(scope, AmountNumeric));
    SingleMember(FactsOf(scope, TaxRate));
    NumericMembers(FactsOf(scope, TaxAmount));
    TextMatchesAre(scope, Untaxed);
  }

  /** A text search finds exactly the evidence of contract candidates with the text. */
  lemma MatchesAre(candidates: seq<Candidate>, mentions: Candidate -> bool)
    ensures forall e :: e in Matches(candidates, mentions) <==>
      exists c :: c in candidates && c.isContract && mentions(c) && e in c.evidenceIds
  {
    var picked := Collect((c: Candidate) => Kept(c.isContract && mentions(c), c), candidates);
    CollectMembers((c: Candidate) => Kept(c.isContract && mentions(c), c), candidates);
    var parts := Map(EvidenceOf, picked);
    FlattenMembers(parts);
    forall e ensures e in Matches(candidates, mentions) <==>
      exists c :: c in candidates && c.isContract && mentions(c) && e in c.evidenceIds
    {
      if i :| 0 <= i < |parts| && e in parts[i] {
        assert picked[i] in picked;
      }
      if c :| c in candidates && c.isContract && mentions(c) && e in c.evidenceIds {
        assert c in picked;
        var i :| 0 <= i < |picked| && picked[i] == c;
        assert e in parts[i];
      }
    }
  }

  /** The text evidence of a checker is exactly the known evidence of the accepted contract
      candidates whose text contains the phrase. */
  lemma TextMatchesAre(scope: Scope, phrase: Phrase)
    ensures forall e :: e in TextMatches(scope, phrase) <==>
      && scope.texts.known(e)
      && exists c :: c in scope.candidates && c.isContract && scope.texts.contains(c, phrase) && e in c.evidenceIds
  {
    hide Matches;
    var mentions := Mentioning(scope.texts, phrase);
    MatchesAre(scope.candidates, mentions);
    var f := (e: Id) => Kept(scope.texts.known(e), e);
    CollectMembers(f, Matches(scope.candidates, mentions));
    assert TextMatches(scope, phrase) == Collect(f, Matches(scope.candidates, mentions));
    assert forall e :: e in TextMatches(scope, phrase) <==>
      scope.texts.known(e) && e in Matches(scope.candidates, mentions);
    assert forall c :: mentions(c) == scope.texts.contains(c, phrase);
  }

  lemma TextIsDisciplined(scope: Scope)
    ensures Disciplined(scope, CheckGuarantee(scope)) && Disciplined(scope, CheckUntaxed(scope))
  {
    hide TextMatches;
    TextMatchesAre(scope, Guaranteed);
    TextMatchesAre(scope, Untaxed);
    TextMatchesAre(scope, Taxed);
    CollectMembers((e: Id) => Kept(!scope.texts.excerptUntaxed(e), e), TextMatches(scope, Taxed));
  }

  lemma AttachmentsAreDisciplined(scope: Scope)
    requires CheckAttachments(scope).Some?
    ensures Disciplined(scope, CheckAttachments(scope).value)
  {
    var f := (r: Reference) => Kept(r.required && !r.matched, r.missingId);
    CollectMembers(f, scope.references);
    var parts := Map(ReferenceEvidence, scope.references);
    FlattenMembers(parts);
    forall e | e in Flatten(parts) ensures FromReferences(scope, e) {
      var i :| 0 <= i < |parts| && e in parts[i];
      var r := scope.references[i];
      assert r in scope.references && e in r.evidenceIds;
    }
  }

  lemma MissingIsDisciplined(scope: Scope, term: Kind, facts: seq<Fact>)
    requires forall f :: f in facts ==> f in scope.facts
    ensures Disciplined(scope, CheckMissing(scope, term, facts))
  {
  }

  lemma JudgedIsDisciplined(scope: Scope, term: Kind, blocked: seq<Pattern>, needed: seq<Pattern>)
    ensures Disciplined(scope, Judged(scope, term, blocked, needed))
  {
    hide FactsOf, CheckMissing;
    FactsOfMembers(scope, term);
    MissingIsDisciplined(scope, term, []);
  }

  lemma DeliveryIsDisciplined(scope: Scope)
    ensures Disciplined(scope, CheckDelivery(scope))
  {
    hide FactsOf, CheckMissing, SourcesOf;
    FactsOfMembers(scope, DeliveryTerm);
    FactsOfMembers(scope, DeliveryDate);
    var facts := FactsOf(scope, DeliveryTerm) + FactsOf(scope, DeliveryDate);
    MissingIsDisciplined(scope, DeliveryTerm, facts);
    MissingIsDisciplined(scope, DeliveryDate, facts);
  }

  lemma ComparableMembers(scope: Scope, kind: Kind)
    ensures forall f :: f in Comparable(scope, kind) ==> f in scope.facts && f.kind == kind
  {
    var facts := FactsOf(scope, kind);
    FactsOfMembers(scope, kind);
    var documents := Dedup(Flatten(Map(DocumentsOf, facts)));
    var parts := Map((d: Id) => InDocument(facts, d), documents);
    FlattenMembers(parts);
    forall i, f | 0 <= i < |parts| && f in parts[i] ensures f in facts {
      CollectMembers((f: Fact) => Kept(documents[i] in f.documents, f), facts);
    }
  }

  lemma DocumentsAreDisciplined(scope: Scope)
    ensures Disciplined(scope, CheckDocuments(scope))
  {
    hide Comparable, Conflicting;
    var parts := Map((k: Kind) => Comparable(scope, k), COMPARED);
    FlattenMembers(parts);
    forall i, f | 0 <= i < |parts| && f in parts[i] ensures f in scope.facts {
      ComparableMembers(scope, COMPARED[i]);
    }
  }

  /** All registered checkers keep the discipline. */
  lemma CheckersAreDisciplined(checker: Checker, scope: Scope)
    ensures RunChecker(checker, scope).Some? ==> Disciplined(scope, RunChecker(checker, scope).value)
    ensures RunChecker(checker, scope).None? ==> checker.AttachmentCompleteness?
  {
    hide Disciplined, CheckAmountCase, CheckSum, CheckUntaxed, CheckTaxRate, CheckTaxAmount, CheckRatio, CheckGuarantee,
      CheckPresent, CheckAttachments, Judged, CheckDelivery, CheckDocuments;
    match checker
    case AmountCaseConsistency => AmountCaseIsDisciplined(scope);
    case AmountDetailTotal => SumIsDisciplined(scope, DetailAmount, DetailTotal);
    case UntaxedAmount => TextIsDisciplined(scope);
    case TaxRateCheck => PlainIsDisciplined(scope, TaxRate);
    case TaxAmountCheck => TaxAmountIsDisciplined(scope);
    case PaymentRatioCheck => PlainIsDisciplined(scope, PaymentRatio);
    case GuaranteeRequirement => TextIsDisciplined(scope);
    case PaymentTotal => SumIsDisciplined(scope, PaymentAmount, AmountNumeric);
    case InvoiceTypeCheck => PlainIsDisciplined(scope, InvoiceType);
    case InvoiceAmountCheck => PlainIsDisciplined(scope, InvoiceAmount);
    case InvoiceTotal => SumIsDisciplined(scope, InvoiceAmount, AmountNumeric);
    case AttachmentCompleteness => if CheckAttachments(scope).Some? { AttachmentsAreDisciplined(scope); }
    case PaymentTerms => JudgedIsDisciplined(scope, PaymentTerm, [FullPrepayment], [BoundToAcceptance]);
    case DeliveryTerms => DeliveryIsDisciplined(scope);
    case AcceptanceTerms => JudgedIsDisciplined(scope, AcceptanceTerm, [DeemedAccepted], [Standard, MethodOrDeadline]);
    case RenewalTerms => JudgedIsDisciplined(scope, RenewalTerm, [], [NoAutomaticRenewal]);
    case TerminationTerms => JudgedIsDisciplined(scope, TerminationTerm, [], [Trigger, NoticeOrSettlement]);
    case BreachTerms => JudgedIsDisciplined(scope, BreachTerm, [Exemption], [Liability, Measure]);
    case CrossDocument => DocumentsAreDisciplined(scope);
  }

  // ------------------------------------------------------------------- exact verdicts

  /** A total passes exactly when there are amounts, one total, they add up, and every fact
      used is confident. */
  lemma SumPassesIff(scope: Scope, kind: Kind, totalKind: Kind)
    ensures var amounts := Numeric(FactsOf(scope, kind));
      var contract := SingleValue(FactsOf(scope, totalKind));
      BaseResult(scope, CheckSum(scope, kind, totalKind)).status.Pass? <==>
        && amounts != [] && contract.Some? && contract.value.value == Some(Sum(amounts))
        && (forall f :: f in amounts ==> Confident(f)) && Confident(contract.value)
  {
    hide Numeric, FactsOf, SingleValue, BaseResult, Sum;
    var amounts := Numeric(FactsOf(scope, kind));
    var contract := SingleValue(FactsOf(scope, totalKind));
    if amounts != [] && contract.Some? {
      var used := amounts + [contract.value];
      VerdictPassesIff(scope, Some(Sum(amounts)) == contract.value.value, used);
      assert contract.value in used && forall f :: f in used <==> f in amounts || f == contract.value;
    } else {
      UnsureNeverPasses(scope, FactsOf(scope, kind) + FactsOf(scope, totalKind));
    }
  }

  lemma UnsureNeverPasses(scope: Scope, facts: seq<Fact>)
    ensures BaseResult(scope, Unsure(facts)).status == Undetermined
  {
  }

  /** A verdict passes exactly when its comparison holds and all facts used are confident. */
  lemma VerdictPassesIff(scope: Scope, pass: bool, used: seq<Fact>)
    ensures BaseResult(scope, Verdict(pass, used)).status.Pass? <==> pass && forall f :: f in used ==> Confident(f)
  {
    ConfidenceIsLeast(used);
  }

  /** A tax rate passes exactly when some is found, a number is expected, every rate that
      reads as a number is the expected one, and all facts found are confident. */
  lemma TaxRatePassesIff(scope: Scope)
    ensures var facts := FactsOf(scope, TaxRate);
      BaseResult(scope, CheckTaxRate(scope)).status.Pass? <==>
        && facts != [] && scope.expectedRate.Some?
        && forall f :: f in facts ==> Confident(f) && RateFits(scope.expectedRate.value, f)
  {
    hide FactsOf, BaseResult, RateFits;
    var facts := FactsOf(scope, TaxRate);
    UnsureNeverPasses(scope, facts);
    UnsureNeverPasses(scope, []);
    if facts != [] && scope.expectedRate.Some? {
      VerdictPassesIff(scope, forall f :: f in facts ==> RateFits(scope.expectedRate.value, f), facts);
    }
  }

  /** So a rate that does not read as a number passes whatever is expected. */
  lemma UnreadableRatePasses(scope: Scope, f: Fact)
    requires scope.facts == [f] && f.kind == TaxRate && f.value.None? && f.confidence == Some(1.0)
    requires scope.expectedRate.Some?
    ensures BaseResult(scope, CheckTaxRate(scope)).status == Pass && BaseResult(scope, CheckTaxRate(scope)).automatic
  {
    FactsOfMembers(scope, TaxRate);
    TaxRatePassesIff(scope);
    assert f in FactsOf(scope, TaxRate);
  }
}
