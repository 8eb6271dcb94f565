/**
 Three-valued applicability of rules: facts that are still missing give no verdict, and
 filling them in must not overturn a verdict already given.
 */
module Applicability {
  import opened Ordering

  datatype Party = Buyer | Seller | Both | UnknownParty

  datatype Kind =
    | MainContract | Annex | Quotation | Order | TechnicalAgreement | Acceptance
    | Invoice | IpEvidence | Amendment | OtherKind | UnknownKind

  /** Amounts of money are never negative. */
  type Amount = r: real | r >= 0.0 witness 0.0

  /** The facts a verdict depends on.  Jurisdictions are compared case-folded; an empty
      collection means that nothing is known yet. */
  datatype Context = Context(
    contractType: Option<Id>, party: Party, jurisdiction: Option<Id>, tags: set<Id>, amount: Option<Amount>,
    kinds: set<Kind>)

  datatype Condition = Condition(
    parties: set<Party>, jurisdictions: set<Id>, tags: set<Id>, low: Option<Amount>, high: Option<Amount>,
    kinds: set<Kind>, anyKinds: set<Kind>)

  datatype Verdict = Required | NotApplicable | ExpectedValue | Unspecified | Unknown

  datatype Exceptional = Exceptional(condition: Condition, result: Verdict)

  datatype Spec = Spec(verdict: Verdict, condition: Condition, exceptions: seq<Exceptional>)

  datatype Rule = Rule(appliesTo: set<Id>, applicability: map<Id, Spec>)

  // ------------------------------------------------------------------ one condition

  /** A truth value, or None while facts are missing. */
  type Answer = Option<bool>

  /** The next test is reached only when this one is passed. */
  function Then(first: Answer, next: Answer): Answer { if first == Some(true) then next else first }

  function PartyAnswer(cond: Condition, c: Context): Answer
  {
    if cond.parties == {} || c.party in cond.parties then Some(true)
    else if c.party == UnknownParty then None else Some(false)
  }

  function JurisdictionAnswer(cond: Condition, c: Context): Answer
  {
    if cond.jurisdictions == {} then Some(true)
    else if c.jurisdiction.None? then None else Some(c.jurisdiction.value in cond.jurisdictions)
  }

  function TagsAnswer(cond: Condition, c: Context): Answer
  {
    if cond.tags == {} then Some(true) else if c.tags == {} then None else Some(cond.tags <= c.tags)
  }

  function AmountAnswer(cond: Condition, c: Context): Answer
  {
    if cond.low.None? && cond.high.None? then Some(true)
    else if c.amount.None? then None
    else
      var below := cond.low.Some? && c.amount.value < cond.low.value;
      var above := cond.high.Some? && c.amount.value > cond.high.value;
      Some(!below && !above)
  }

  function KindsAnswer(cond: Condition, c: Context): Answer
  {
    if cond.kinds == {} then Some(true)
    else if c.kinds == {} || UnknownKind in c.kinds then None else Some(cond.kinds <= c.kinds)
  }

  function AnyKindAnswer(cond: Condition, c: Context): Answer
  {
    if cond.anyKinds == {} then Some(true)
    else if c.kinds == {} then None
    else if c.kinds * cond.anyKinds != {} then Some(true)
    else if UnknownKind in c.kinds then None else Some(false)
  }

  function Match(cond: Condition, c: Context): Answer
  {
    Then(PartyAnswer(cond, c), Then(JurisdictionAnswer(cond, c), Then(TagsAnswer(cond, c),
      Then(AmountAnswer(cond, c), Then(KindsAnswer(cond, c), AnyKindAnswer(cond, c))))))
  }

  // -------------------------------------------------------------- filling in facts

  /** c' says all that c says: missing facts may be filled in, and documents of unknown
      kind may have been recognised. */
  predicate Refines(c: Context, c': Context)
  {
    && (c.contractType.None? || c'.contractType == c.contractType)
    && (c.party == UnknownParty || c'.party == c.party)
    && (c.jurisdiction.None? || c'.jurisdiction == c.jurisdiction)
    && (c.tags == {} || c'.tags == c.tags)
    && (c.amount.None? || c'.amount == c.amount)
    && if c.kinds == {} then true
       else if UnknownKind in c.kinds then c'.kinds != {} && c.kinds - {UnknownKind} <= c'.kinds
       else c'.kinds == c.kinds
  }

  lemma RefinesTransitive(a: Context, b: Context, c: Context)
    requires Refines(a, b) && Refines(b, c)
    ensures Refines(a, c)
  {
  }

  predicate Settled(before: Answer, after: Answer) { before.Some? ==> after == before }

  /** No context meets a condition that requires a document of unknown kind. */
  predicate NeverTrue(cond: Condition)
  {
    UnknownKind in cond.kinds || (cond.kinds != {} && cond.anyKinds == {UnknownKind})
  }

  /** The conditions whose answers can never be overturned: those that do not list the
      unknown party or the unknown kind, except where listing it can make no difference. */
  predicate Stable(cond: Condition)
  {
    || NeverTrue(cond)
    || ( && (UnknownParty in cond.parties ==> {Buyer, Seller, Both} <= cond.parties)
         && (cond.kinds == {} && UnknownKind in cond.anyKinds ==> AllKinds() <= cond.anyKinds))
  }

  function AllKinds(): set<Kind>
  {
    {MainContract, Annex, Quotation, Order, TechnicalAgreement, Acceptance, Invoice, IpEvidence, Amendment, OtherKind,
      UnknownKind}
  }

  predicate ValidRange(cond: Condition)
  {
    cond.low.Some? && cond.high.Some? ==> cond.low.value <= cond.high.value
  }

  lemma FalseIsFinal(cond: Condition, c: Context, c': Context)
    requires Refines(c, c') && Match(cond, c) == Some(false)
    ensures Match(cond, c') == Some(false)
  {
    assert c.kinds != {} && UnknownKind !in c.kinds ==> c'.kinds == c.kinds;
  }

  lemma KindsCovered(k: Kind)
    ensures k in AllKinds()
  {
  }

  lemma AnyKindStays(cond: Condition, c: Context, c': Context)
    requires Refines(c, c') && AnyKindAnswer(cond, c) == Some(true)
    requires UnknownKind in cond.anyKinds && UnknownKind in c.kinds ==> AllKinds() <= cond.anyKinds
    ensures AnyKindAnswer(cond, c') == Some(true)
  {
    if cond.anyKinds != {} {
      var k :| k in c.kinds * cond.anyKinds;
      if k == UnknownKind {
        var k' :| k' in c'.kinds;
        KindsCovered(k');
        assert k' in c'.kinds * cond.anyKinds;
      } else {
        assert k in c'.kinds * cond.anyKinds;
      }
    }
  }

  lemma PartiesCovered(p: Party)
    ensures p in {Buyer, Seller, Both, UnknownParty}
  {
    match p case Buyer => case Seller => case Both => case UnknownParty =>
  }

  lemma NeverTrueMeans(cond: Condition, c: Context)
    requires NeverTrue(cond)
    ensures Match(cond, c) != Some(true)
  {
    assert UnknownKind !in c.kinds ==> c.kinds * {UnknownKind} == {};
  }

  lemma TrueIsFinal(cond: Condition, c: Context, c': Context)
    requires Stable(cond) && Refines(c, c') && Match(cond, c) == Some(true)
    ensures Match(cond, c') == Some(true)
  {
    if NeverTrue(cond) { NeverTrueMeans(cond, c); }
    AnyKindStays(cond, c, c');
    assert c.party == UnknownParty && cond.parties != {} ==> {Buyer, Seller, Both} <= cond.parties;
    PartiesCovered(c'.party);
  }

  /** A context that meets every test, apart from the ones under study. */
  ghost function Meeting(cond: Condition, party: Party, kinds: set<Kind>): (c: Context)
    requires ValidRange(cond)
    ensures c.party == party && c.kinds == kinds
    ensures JurisdictionAnswer(cond, c) == TagsAnswer(cond, c) == AmountAnswer(cond, c) == Some(true)
  {
    var j := if cond.jurisdictions == {} then None else Some(PickOne(cond.jurisdictions));
    var amount := if cond.low.Some? then cond.low.value else if cond.high.Some? then cond.high.value else 0.0;
    Context(None, party, j, cond.tags, Some(amount), kinds)
  }

  /** Document kinds that meet the condition. */
  ghost function MeetingKinds(cond: Condition): (kinds: set<Kind>)
    requires !NeverTrue(cond)
    ensures forall c: Context :: c.kinds == kinds ==> KindsAnswer(cond, c) == AnyKindAnswer(cond, c) == Some(true)
  {
    if cond.anyKinds == {} then cond.kinds
    else if cond.kinds == {} then {PickOne(cond.anyKinds)}
    else
      var named := cond.anyKinds - {UnknownKind};
      assert cond.anyKinds <= named + {UnknownKind};
      var k := PickOne(named);
      assert k in (cond.kinds + {k}) * cond.anyKinds;
      cond.kinds + {k}
  }

  /** An answer that filling in a fact overturns, for every condition that is not stable. */
  lemma Overturned(cond: Condition) returns (c: Context, c': Context)
    requires ValidRange(cond) && !Stable(cond)
    ensures Refines(c, c') && Match(cond, c) == Some(true) && Match(cond, c') == Some(false)
  {
    if UnknownParty in cond.parties && !({Buyer, Seller, Both} <= cond.parties) {
      c := Meeting(cond, UnknownParty, MeetingKinds(cond));
      var p :| p in {Buyer, Seller, Both} - cond.parties;
      c' := c.(party := p);
    } else {
      var party := if cond.parties == {} then Buyer else PickOne(cond.parties);
      c := Meeting(cond, party, {UnknownKind});
      var k :| k in AllKinds() - cond.anyKinds;
      c' := c.(kinds := {k});
      assert UnknownKind in c.kinds * cond.anyKinds;
      assert c'.kinds * cond.anyKinds == {};
    }
  }

  /** Answers survive every way of filling in facts exactly for the stable conditions. */
  lemma MonotoneIff(cond: Condition)
    requires ValidRange(cond)
    ensures Stable(cond) <==> forall c, c' :: Refines(c, c') ==> Settled(Match(cond, c), Match(cond, c'))
  {
    if Stable(cond) {
      forall c, c' | Refines(c, c') ensures Settled(Match(cond, c), Match(cond, c')) {
        if Match(cond, c) == Some(false) { FalseIsFinal(cond, c, c'); }
        if Match(cond, c) == Some(true) { TrueIsFinal(cond, c, c'); }
      }
    } else {
      var c, c' := Overturned(cond);
      assert !Settled(Match(cond, c), Match(cond, c'));
    }
  }

  // ------------------------------------------------------------------- whole rules

  /** The first exception that holds, or the number of exceptions. */
  function FirstHolding(exceptions: seq<Exceptional>, c: Context): (i: nat)
    ensures i <= |exceptions|
    ensures forall k :: 0 <= k < i ==> Match(exceptions[k].condition, c) != Some(true)
    ensures i < |exceptions| ==> Match(exceptions[i].condition, c) == Some(true)
  {
    if exceptions == [] || Match(exceptions[0].condition, c) == Some(true) then 0
    else 1 + FirstHolding(exceptions[1..], c)
  }

  predicate Undecided(spec: Spec, c: Context, k: nat)
    requires k < |spec.exceptions|
  {
    Match(spec.exceptions[k].condition, c) == None
  }

  /** The verdict, or None while it depends on missing facts. */
  function Decision(spec: Spec, c: Context): Option<Verdict>
  {
    var i := FirstHolding(spec.exceptions, c);
    if i < |spec.exceptions| then Some(spec.exceptions[i].result)
    else
      var base := Match(spec.condition, c);
      if base.None? then None
      else if !base.value then Some(NotApplicable)
      else if exists k :: 0 <= k < |spec.exceptions| && Undecided(spec, c, k) then None
      else Some(spec.verdict)
  }

  function Resolve(spec: Spec, c: Context): Verdict
  {
    match Decision(spec, c) case Some(v) => v case None => Unknown
  }

  /** The loop over exceptions, then the base condition. */
  method ResolveStructured(spec: Spec, c: Context) returns (verdict: Verdict)
    ensures verdict == Resolve(spec, c)
  {
    var uncertain := false;
    for k := 0 to |spec.exceptions|
      invariant forall m :: 0 <= m < k ==> Match(spec.exceptions[m].condition, c) != Some(true)
      invariant uncertain <==> exists m :: 0 <= m < k && Undecided(spec, c, m)
    {
      var answer := Match(spec.exceptions[k].condition, c);
      if answer == Some(true) {
        assert FirstHolding(spec.exceptions, c) == k;
        return spec.exceptions[k].result;
      }
      if answer == None {
        assert Undecided(spec, c, k);
        uncertain := true;
      }
    }
    assert FirstHolding(spec.exceptions, c) == |spec.exceptions|;
    var base := Match(spec.condition, c);
    if base == None { return Unknown; }
    if !base.value { return NotApplicable; }
    if uncertain { return Unknown; }
    verdict := spec.verdict;
  }

  /** An undecided exception that the decision at c passed over. */
  predicate Skipped(spec: Spec, c: Context, k: nat)
  {
    k < FirstHolding(spec.exceptions, c) && Undecided(spec, c, k)
  }

  ghost predicate AllStable(spec: Spec)
  {
    Stable(spec.condition) && forall k :: 0 <= k < |spec.exceptions| ==> Stable(spec.exceptions[k].condition)
  }

  /** The exception can come to hold when missing facts are filled in: no test fails. */
  predicate CanHold(cond: Condition, c: Context)
  {
    && PartyAnswer(cond, c) != Some(false) && JurisdictionAnswer(cond, c) != Some(false)
    && TagsAnswer(cond, c) != Some(false) && AmountAnswer(cond, c) != Some(false)
    && KindsAnswer(cond, c) != Some(false) && AnyKindAnswer(cond, c) != Some(false)
  }

  /** A verdict given with no undecided exception before it is final. */
  lemma SettledVerdictIsFinal(spec: Spec, c: Context, c': Context)
    requires AllStable(spec) && Refines(c, c') && Decision(spec, c).Some?
    requires forall k: nat :: !Skipped(spec, c, k)
    ensures Decision(spec, c') == Decision(spec, c)
  {
    SkippedStayFalse(spec, c, c');
  }

  /** More generally, verdicts are final when the exceptions passed over never hold. */
  lemma SkippedStayFalse(spec: Spec, c: Context, c': Context)
    requires AllStable(spec) && Refines(c, c') && Decision(spec, c).Some?
    requires forall k: nat :: Skipped(spec, c, k) ==> Match(spec.exceptions[k].condition, c') != Some(true)
    ensures Decision(spec, c') == Decision(spec, c)
  {
    var i := FirstHolding(spec.exceptions, c);
    forall k | 0 <= k < i ensures Match(spec.exceptions[k].condition, c') != Some(true) {
      if Undecided(spec, c, k) {
        assert Skipped(spec, c, k);
      } else {
        FalseIsFinal(spec.exceptions[k].condition, c, c');
      }
    }
    if i < |spec.exceptions| {
      TrueIsFinal(spec.exceptions[i].condition, c, c');
    } else if Match(spec.condition, c) == Some(false) {
      FalseIsFinal(spec.condition, c, c');
    } else {
      TrueIsFinal(spec.condition, c, c');
      forall k | 0 <= k < i ensures !Undecided(spec, c', k) {
        assert !Undecided(spec, c, k);
        FalseIsFinal(spec.exceptions[k].condition, c, c');
      }
    }
  }

  /** The condition does not list the unknown party or the unknown kind. */
  predicate NamesOnlyKnown(cond: Condition)
  {
    UnknownParty !in cond.parties && UnknownKind !in cond.kinds && UnknownKind !in cond.anyKinds
  }

  /** c with missing facts filled in so that cond holds, if it can. */
  ghost function Fill(cond: Condition, c: Context): Context
    requires ValidRange(cond)
  {
    var party := if c.party == UnknownParty && cond.parties != {} then PickOne(cond.parties) else c.party;
    var jurisdiction := if c.jurisdiction.None? && cond.jurisdictions != {} then Some(PickOne(cond.jurisdictions))
      else c.jurisdiction;
    var tags := if c.tags == {} then cond.tags else c.tags;
    var edge := if cond.low.Some? then cond.low.value else if cond.high.Some? then cond.high.value else 0.0;
    var amount := if c.amount.None? then Some(edge) else c.amount;
    var extra := cond.kinds + if cond.anyKinds == {} then {} else {PickOne(cond.anyKinds)};
    var kinds := if extra == {} then c.kinds
      else if c.kinds == {} then extra
      else if UnknownKind in c.kinds then c.kinds - {UnknownKind} + extra
      else c.kinds;
    Context(c.contractType, party, jurisdiction, tags, amount, kinds)
  }

  lemma FillRefines(cond: Condition, c: Context)
    requires ValidRange(cond)
    ensures Refines(c, Fill(cond, c))
  {
  }

  lemma FilledKinds(cond: Condition, c: Context)
    requires ValidRange(cond) && NamesOnlyKnown(cond) && CanHold(cond, c)
    ensures KindsAnswer(cond, Fill(cond, c)) == AnyKindAnswer(cond, Fill(cond, c)) == Some(true)
  {
    if cond.anyKinds != {} && (c.kinds == {} || UnknownKind in c.kinds) {
      assert PickOne(cond.anyKinds) in Fill(cond, c).kinds * cond.anyKinds;
    }
  }

  lemma FilledFacts(cond: Condition, c: Context)
    requires ValidRange(cond) && NamesOnlyKnown(cond) && CanHold(cond, c)
    ensures var f := Fill(cond, c);
      PartyAnswer(cond, f) == JurisdictionAnswer(cond, f) == TagsAnswer(cond, f) == AmountAnswer(cond, f) == Some(true)
  {
  }

  /** An exception can come to hold exactly when none of its tests already fails. */
  lemma CanHoldIff(cond: Condition, c: Context)
    requires ValidRange(cond) && NamesOnlyKnown(cond)
    ensures CanHold(cond, c) <==> exists c' :: Refines(c, c') && Match(cond, c') == Some(true)
  {
    if CanHold(cond, c) {
      FillRefines(cond, c);
      FilledFacts(cond, c);
      FilledKinds(cond, c);
      assert Match(cond, Fill(cond, c)) == Some(true);
    }
    forall c' | Refines(c, c') && Match(cond, c') == Some(true) ensures CanHold(cond, c) {
      StillPossible(cond, c, c');
    }
  }

  lemma StillPossible(cond: Condition, c: Context, c': Context)
    requires Refines(c, c') && Match(cond, c') == Some(true)
    ensures CanHold(cond, c)
  {
  }

  // ------------------------------------------------------ contract types and aliases

  /** The contract type, then its registered names. */
  function Candidates(aliases: Id -> seq<Id>, contractType: Id): seq<Id>
  {
    Dedup([contractType] + aliases(contractType))
  }

  function FindSpec(rule: Rule, candidates: seq<Id>): Option<Spec>
  {
    if candidates == [] then None
    else if candidates[0] in rule.applicability then Some(rule.applicability[candidates[0]])
    else FindSpec(rule, candidates[1..])
  }

  function ResolveRule(rule: Rule, aliases: Id -> seq<Id>, c: Context): Verdict
  {
    if c.contractType.None? then Unknown
    else
      var candidates := Candidates(aliases, c.contractType.value);
      var spec := FindSpec(rule, candidates);
      if spec.Some? then Resolve(spec.value, c)
      else if exists t :: t in candidates && t in rule.appliesTo then Required
      else Unknown
  }

  /** Filling in facts never turns a verdict of a rule into another one when nothing
      undecided was passed over. */
  lemma RuleVerdictIsFinal(rule: Rule, aliases: Id -> seq<Id>, c: Context, c': Context)
    requires Refines(c, c') && c.contractType.Some?
    requires var spec := FindSpec(rule, Candidates(aliases, c.contractType.value));
      spec.Some? ==>
        AllStable(spec.value) && Decision(spec.value, c).Some? && forall k: nat :: !Skipped(spec.value, c, k)
    ensures ResolveRule(rule, aliases, c') == ResolveRule(rule, aliases, c)
  {
    var spec := FindSpec(rule, Candidates(aliases, c.contractType.value));
    if spec.Some? { SettledVerdictIsFinal(spec.value, c, c'); }
  }
}
