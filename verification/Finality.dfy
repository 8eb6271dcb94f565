/**
 When a verdict of a rule is final: no way of filling in missing facts changes it.  An
 exception that was passed over while undecided is the only thing that can overturn it.
 */
module Finality {
  import opened Ordering
  import opened Applicability

  ghost predicate Final(spec: Spec, c: Context)
  {
    forall c' :: Refines(c, c') ==> Decision(spec, c') == Decision(spec, c)
  }

  /** Some way of filling in facts makes exception k the first one that holds. */
  ghost predicate CanOvertake(spec: Spec, c: Context, k: nat)
  {
    exists c' :: Refines(c, c') && FirstHolding(spec.exceptions, c') == k
  }

  /** The exact boundary: a verdict is final if and only if every earlier exception that
      can become the first one to hold gives the same verdict. */
  lemma FinalIff(spec: Spec, c: Context)
    requires AllStable(spec) && Decision(spec, c).Some?
    ensures Final(spec, c) <==>
      forall k: nat :: k < FirstHolding(spec.exceptions, c) && CanOvertake(spec, c, k) ==>
        Decision(spec, c) == Some(spec.exceptions[k].result)
  {
    var i := FirstHolding(spec.exceptions, c);
    if Final(spec, c) {
      forall k: nat | k < i && CanOvertake(spec, c, k) ensures Decision(spec, c) == Some(spec.exceptions[k].result) {
        var c' :| Refines(c, c') && FirstHolding(spec.exceptions, c') == k;
        assert Decision(spec, c') == Some(spec.exceptions[k].result);
      }
    }
    if forall k: nat :: k < i && CanOvertake(spec, c, k) ==> Decision(spec, c) == Some(spec.exceptions[k].result) {
      forall c' | Refines(c, c') ensures Decision(spec, c') == Decision(spec, c) {
        var j := FirstHolding(spec.exceptions, c');
        if j < i {
          assert CanOvertake(spec, c, j);
        } else {
          SkippedStayFalse(spec, c, c');
        }
      }
    }
  }

  /** A final verdict stays final. */
  lemma FinalStaysFinal(spec: Spec, c: Context, c': Context)
    requires Final(spec, c) && Refines(c, c')
    ensures Final(spec, c') && Decision(spec, c') == Decision(spec, c)
  {
    forall d | Refines(c', d) ensures Decision(spec, d) == Decision(spec, c') {
      RefinesTransitive(c, c', d);
    }
  }

  // ------------------------------------------------- what can be read off the exceptions

  /** Passed over while undecided, and no test of it fails yet. */
  predicate Skippable(spec: Spec, c: Context, k: nat)
  {
    Skipped(spec, c, k) && CanHold(spec.exceptions[k].condition, c)
  }

  ghost predicate WellFormed(spec: Spec)
  {
    && ValidRange(spec.condition) && NamesOnlyKnown(spec.condition)
    && forall k :: 0 <= k < |spec.exceptions| ==>
         ValidRange(spec.exceptions[k].condition) && NamesOnlyKnown(spec.exceptions[k].condition)
  }

  /** Only a passed-over exception that can still hold can overtake. */
  lemma HoldsLater(spec: Spec, c: Context, c': Context, j: nat)
    requires WellFormed(spec) && Refines(c, c') && j < FirstHolding(spec.exceptions, c)
    requires Match(spec.exceptions[j].condition, c') == Some(true)
    ensures Skippable(spec, c, j)
  {
    var cond := spec.exceptions[j].condition;
    if Match(cond, c) == Some(false) { FalseIsFinal(cond, c, c'); }
    CanHoldIff(cond, c);
  }

  /** When all passed-over exceptions that can still hold agree with the verdict, it is final. */
  lemma AgreementIsFinal(spec: Spec, c: Context)
    requires WellFormed(spec) && Decision(spec, c).Some?
    requires forall k: nat :: Skippable(spec, c, k) ==> Decision(spec, c) == Some(spec.exceptions[k].result)
    ensures Final(spec, c)
  {
    forall k: nat | k < FirstHolding(spec.exceptions, c) && CanOvertake(spec, c, k)
      ensures Decision(spec, c) == Some(spec.exceptions[k].result)
    {
      var c' :| Refines(c, c') && FirstHolding(spec.exceptions, c') == k;
      HoldsLater(spec, c, c', k);
    }
    FinalIff(spec, c);
  }

  /** When the first of them disagrees, the verdict is not final. */
  lemma DisagreementOverturns(spec: Spec, c: Context, k: nat) returns (c': Context)
    requires WellFormed(spec) && Decision(spec, c).Some? && Skippable(spec, c, k)
    requires forall j: nat :: j < k ==> !Skippable(spec, c, j)
    requires Decision(spec, c) != Some(spec.exceptions[k].result)
    ensures Refines(c, c') && Decision(spec, c') == Some(spec.exceptions[k].result) && !Final(spec, c)
  {
    CanHoldIff(spec.exceptions[k].condition, c);
    c' :| Refines(c, c') && Match(spec.exceptions[k].condition, c') == Some(true);
    var j := FirstHolding(spec.exceptions, c');
    HoldsLater(spec, c, c', j);
  }

  // ------------------------------------------------------------- finitely many cases

  /** All conditions of a rule. */
  function ConditionsOf(spec: Spec): set<Condition>
  {
    {spec.condition} + set e | e in spec.exceptions :: e.condition
  }

  /** The jurisdictions, tags and amounts that a rule mentions. */
  function NamedJurisdictions(spec: Spec): set<Id>
  {
    set cond, x | cond in ConditionsOf(spec) && x in cond.jurisdictions :: x
  }

  function NamedTags(spec: Spec): set<Id> { set cond, x | cond in ConditionsOf(spec) && x in cond.tags :: x }

  function Thresholds(spec: Spec): set<Amount>
  {
    (set cond | cond in ConditionsOf(spec) && cond.low.Some? :: cond.low.value)
      + set cond | cond in ConditionsOf(spec) && cond.high.Some? :: cond.high.value
  }

  lemma {:induction false} SomeBound(s: set<Id>) returns (bound: Id)
    ensures forall x :: x in s ==> x < bound
  {
    if s == {} {
      bound := 0;
    } else {
      var x := PickOne(s);
      var rest := SomeBound(s - {x});
      assert forall y :: y in s ==> y == x || y in s - {x};
      bound := if x < rest then rest else x + 1;
    }
  }

  lemma FreshExists(s: set<Id>)
    ensures exists x :: x !in s
  {
    var bound := SomeBound(s);
    assert bound !in s;
  }

  /** An identifier that a rule does not mention. */
  ghost function Fresh(s: set<Id>): (x: Id)
    ensures x !in s
  {
    FreshExists(s);
    var x :| x !in s;
    x
  }

  /** a and b lie on the same side of every threshold. */
  ghost predicate SameSide(ts: set<Amount>, a: Amount, b: Amount)
  {
    forall t :: t in ts ==> (a < t <==> b < t) && (a > t <==> b > t)
  }

  ghost function Greatest(s: set<Amount>): (r: Amount)
    requires s != {}
    ensures r in s && forall x :: x in s ==> x <= r
  {
    var x := PickOne(s);
    assert forall y :: y in s ==> y == x || y in s - {x};
    if s - {x} == {} then x
    else
      var r := Greatest(s - {x});
      if x <= r then r else x
  }

  ghost function Smallest(s: set<Amount>): (r: Amount)
    requires s != {}
    ensures r in s && forall x :: x in s ==> r <= x
  {
    var x := PickOne(s);
    assert forall y :: y in s ==> y == x || y in s - {x};
    if s - {x} == {} then x
    else
      var r := Smallest(s - {x});
      if r <= x then r else x
  }

  function Beyond(t: Amount): Amount { t + 1.0 }

  function Between(t: Amount, u: Amount): Amount { (t + u) / 2.0 }

  /** One amount from every stretch between thresholds. */
  function SampleAmounts(ts: set<Amount>): set<Amount>
  {
    {0.0} + ts + (set t | t in ts :: Beyond(t)) + set t, u | t in ts && u in ts :: Between(t, u)
  }

  lemma AmountSampled(ts: set<Amount>, a: Amount) returns (b: Amount)
    ensures b in SampleAmounts(ts) && SameSide(ts, a, b)
  {
    var below, above := set t | t in ts && t < a, set t | t in ts && t > a;
    if a in ts {
      b := a;
    } else if below == {} {
      b := 0.0;
      assert forall t :: t in ts ==> t !in below;
    } else if above == {} {
      var t := Greatest(below);
      b := Beyond(t);
      assert forall u :: u in ts ==> u !in above;
      assert forall u :: u in ts ==> u in below;
    } else {
      var t, u := Greatest(below), Smallest(above);
      b := Between(t, u);
      assert forall v :: v in ts ==> v in below || v in above;
    }
  }

  /** Every way of filling in c with values that the rule can tell apart. */
  ghost function Refinements(spec: Spec, c: Context): set<Context>
  {
    set p, j, t, a, k | p in {Buyer, Seller, Both, UnknownParty} && j in SampleJurisdictions(spec) + {c.jurisdiction}
      && t in SampleTags(spec) + {c.tags} && a in SampleOptions(spec) + {c.amount} && k in KindSets()
      && Refines(c, Context(c.contractType, p, j, t, a, k)) :: Context(c.contractType, p, j, t, a, k)
  }

  ghost function SampleJurisdictions(spec: Spec): set<Option<Id>>
  {
    {None} + set x | x in NamedJurisdictions(spec) + {Fresh(NamedJurisdictions(spec))} :: Some(x)
  }

  ghost function SampleTags(spec: Spec): set<set<Id>>
  {
    set t: set<Id> | t <= NamedTags(spec) + {Fresh(NamedTags(spec))}
  }

  ghost function SampleOptions(spec: Spec): set<Option<Amount>>
  {
    {None} + set a | a in SampleAmounts(Thresholds(spec)) :: Some(a)
  }

  ghost function KindSets(): set<set<Kind>> { set k: set<Kind> | k <= AllKinds() }

  /** The rule cannot tell the two contexts apart. */
  ghost predicate Alike(spec: Spec, c: Context, d: Context)
  {
    forall cond :: cond in ConditionsOf(spec) ==> Match(cond, c) == Match(cond, d)
  }

  lemma JurisdictionSampled(spec: Spec, c: Context, d: Context) returns (j: Option<Id>)
    requires Refines(c, d)
    ensures j in SampleJurisdictions(spec) + {c.jurisdiction} && (c.jurisdiction.None? || j == c.jurisdiction)
    ensures j.None? <==> d.jurisdiction.None?
    ensures forall cond :: cond in ConditionsOf(spec) && j.Some? ==>
      (j.value in cond.jurisdictions <==> d.jurisdiction.value in cond.jurisdictions)
  {
    var named := NamedJurisdictions(spec);
    if c.jurisdiction.Some? || d.jurisdiction.None? {
      j := d.jurisdiction;
    } else {
      var x := if d.jurisdiction.value in named then d.jurisdiction.value else Fresh(named);
      j := Some(x);
      assert x in named + {Fresh(named)};
      forall cond | cond in ConditionsOf(spec)
        ensures x in cond.jurisdictions <==> d.jurisdiction.value in cond.jurisdictions
      {
        assert forall y :: y in cond.jurisdictions ==> y in named;
      }
    }
  }

  lemma TagsSampled(spec: Spec, c: Context, d: Context) returns (t: set<Id>)
    requires Refines(c, d)
    ensures t in SampleTags(spec) + {c.tags} && (c.tags == {} || t == c.tags)
    ensures t == {} <==> d.tags == {}
    ensures forall cond :: cond in ConditionsOf(spec) ==> (cond.tags <= t <==> cond.tags <= d.tags)
  {
    var named := NamedTags(spec);
    if c.tags != {} || d.tags == {} {
      t := d.tags;
      assert d.tags == {} ==> t <= named + {Fresh(named)};
    } else {
      t := d.tags * named + {Fresh(named)};
      assert t <= named + {Fresh(named)};
      forall cond | cond in ConditionsOf(spec) ensures cond.tags <= t <==> cond.tags <= d.tags {
        assert forall y :: y in cond.tags ==> y in named;
      }
    }
  }

  lemma OptionSampled(spec: Spec, c: Context, d: Context) returns (a: Option<Amount>)
    requires Refines(c, d)
    ensures a in SampleOptions(spec) + {c.amount} && (c.amount.None? || a == c.amount)
    ensures a.None? <==> d.amount.None?
    ensures a.Some? ==> SameSide(Thresholds(spec), d.amount.value, a.value)
  {
    if c.amount.Some? || d.amount.None? {
      a := d.amount;
    } else {
      var b := AmountSampled(Thresholds(spec), d.amount.value);
      a := Some(b);
    }
  }

  /** Every way of filling in facts looks to the rule like one of finitely many. */
  lemma RefinementSampled(spec: Spec, c: Context, d: Context) returns (e: Context)
    requires Refines(c, d)
    ensures e in Refinements(spec, c) && Alike(spec, d, e)
  {
    var j := JurisdictionSampled(spec, c, d);
    var t := TagsSampled(spec, c, d);
    var a := OptionSampled(spec, c, d);
    forall k | k in d.kinds ensures k in AllKinds() { KindsCovered(k); }
    PartiesCovered(d.party);
    e := Context(c.contractType, d.party, j, t, a, d.kinds);
    assert e in Refinements(spec, c) by { SampleListed(spec, c, d.party, j, t, a, d.kinds); }
    forall cond | cond in ConditionsOf(spec) ensures Match(cond, d) == Match(cond, e) {
      AnswersAlike(spec, cond, d, e);
    }
  }

  lemma SampleListed(spec: Spec, c: Context, p: Party, j: Option<Id>, t: set<Id>, a: Option<Amount>, k: set<Kind>)
    requires p in {Buyer, Seller, Both, UnknownParty} && j in SampleJurisdictions(spec) + {c.jurisdiction}
    requires t in SampleTags(spec) + {c.tags} && a in SampleOptions(spec) + {c.amount} && k <= AllKinds()
    requires Refines(c, Context(c.contractType, p, j, t, a, k))
    ensures Context(c.contractType, p, j, t, a, k) in Refinements(spec, c)
  {
    hide SampleJurisdictions, SampleTags, SampleOptions, Refines, AllKinds;
    assert k in KindSets();
  }

  lemma AnswersAlike(spec: Spec, cond: Condition, d: Context, e: Context)
    requires cond in ConditionsOf(spec) && d.party == e.party && d.kinds == e.kinds
    requires e.jurisdiction.None? <==> d.jurisdiction.None?
    requires e.jurisdiction.Some? ==>
      (e.jurisdiction.value in cond.jurisdictions <==> d.jurisdiction.value in cond.jurisdictions)
    requires (e.tags == {} <==> d.tags == {}) && (cond.tags <= e.tags <==> cond.tags <= d.tags)
    requires e.amount.None? <==> d.amount.None?
    requires e.amount.Some? ==> SameSide(Thresholds(spec), d.amount.value, e.amount.value)
    ensures Match(cond, d) == Match(cond, e)
  {
    hide ConditionsOf;
    if cond.low.Some? { assert cond.low.value in Thresholds(spec); }
    if cond.high.Some? { assert cond.high.value in Thresholds(spec); }
    hide Thresholds;
    assert AmountAnswer(cond, d) == AmountAnswer(cond, e);
  }

  lemma {:induction false} AlikeHolding(spec: Spec, c: Context, d: Context, rest: seq<Exceptional>)
    requires Alike(spec, c, d) && forall e :: e in rest ==> e in spec.exceptions
    ensures FirstHolding(rest, c) == FirstHolding(rest, d)
  {
    hide Match;
    if rest != [] {
      assert rest[0] in spec.exceptions && rest[0].condition in ConditionsOf(spec);
      assert forall e :: e in rest[1..] ==> e in rest;
      AlikeHolding(spec, c, d, rest[1..]);
    }
  }

  lemma AlikeDecision(spec: Spec, c: Context, d: Context)
    requires Alike(spec, c, d)
    ensures Decision(spec, c) == Decision(spec, d)
    ensures FirstHolding(spec.exceptions, c) == FirstHolding(spec.exceptions, d)
  {
    hide Match;
    AlikeHolding(spec, c, d, spec.exceptions);
    assert spec.condition in ConditionsOf(spec);
    forall k: nat | k < |spec.exceptions| ensures Undecided(spec, c, k) <==> Undecided(spec, d, k) {
      assert spec.exceptions[k] in spec.exceptions && spec.exceptions[k].condition in ConditionsOf(spec);
    }
  }

  /** Whether an exception can overtake is decided by finitely many contexts. */
  lemma CanOvertakeIff(spec: Spec, c: Context, k: nat)
    ensures CanOvertake(spec, c, k) <==> exists e :: e in Refinements(spec, c) && FirstHolding(spec.exceptions, e) == k
  {
    if CanOvertake(spec, c, k) {
      var d :| Refines(c, d) && FirstHolding(spec.exceptions, d) == k;
      var e := RefinementSampled(spec, c, d);
      AlikeDecision(spec, d, e);
    }
    if e :| e in Refinements(spec, c) && FirstHolding(spec.exceptions, e) == k {
      assert Refines(c, e);
    }
  }

  /** So is finality, for every rule and context, whatever the conditions list. */
  lemma FinalIsDecidable(spec: Spec, c: Context)
    ensures Final(spec, c) <==> forall e :: e in Refinements(spec, c) ==> Decision(spec, e) == Decision(spec, c)
  {
    if forall e :: e in Refinements(spec, c) ==> Decision(spec, e) == Decision(spec, c) {
      forall d | Refines(c, d) ensures Decision(spec, d) == Decision(spec, c) {
        var e := RefinementSampled(spec, c, d);
        AlikeDecision(spec, d, e);
      }
    }
  }

  // ------------------------------------------------------ the two paths that skip

  function PartyIs(p: Party): Condition { Condition({p}, {}, {}, None, None, {}, {}) }

  function AmountAtLeast(low: Amount): Condition { Condition({}, {}, {}, Some(low), None, {}, {}) }

  const EMPTY := Context(None, UnknownParty, None, {}, None, {})

  /** A later exception that holds decides, although an earlier undecided one would have
      decided otherwise. */
  lemma SkipByLaterException()
    ensures var spec := Spec(Required, Condition({}, {}, {}, None, None, {}, {}),
        [Exceptional(PartyIs(Seller), NotApplicable), Exceptional(AmountAtLeast(1.0), Required)]);
      var c := EMPTY.(amount := Some(5.0));
      && Refines(c, c.(party := Seller))
      && Resolve(spec, c) == Required && Resolve(spec, c.(party := Seller)) == NotApplicable
  {
    var c := EMPTY.(amount := Some(5.0));
    assert Match(PartyIs(Seller), c) == None;
    assert Match(AmountAtLeast(1.0), c) == Some(true);
    assert Match(PartyIs(Seller), c.(party := Seller)) == Some(true);
  }

  /** A base condition that fails decides, although an undecided exception would have
      required the rule. */
  lemma SkipByFailingBase()
    ensures var spec := Spec(Required, AmountAtLeast(10.0), [Exceptional(PartyIs(Seller), Required)]);
      var c := EMPTY.(amount := Some(5.0));
      && Refines(c, c.(party := Seller))
      && Resolve(spec, c) == NotApplicable && Resolve(spec, c.(party := Seller)) == Required
  {
    var c := EMPTY.(amount := Some(5.0));
    assert Match(PartyIs(Seller), c) == None;
    assert Match(AmountAtLeast(10.0), c) == Some(false);
    assert Match(PartyIs(Seller), c.(party := Seller)) == Some(true);
  }

  function JurisdictionIs(j: Id): Condition { Condition({}, {j}, {}, None, None, {}, {}) }

  function SellerIn(j: Id): Condition { Condition({Seller}, {j}, {}, None, None, {}, {}) }

  /** Passed-over exceptions that disagree with each other: the first would require the rule,
      as the verdict does, but the second can hold without it. */
  lemma DisagreeingExceptions()
    ensures var spec := Spec(Required, PartyIs(Buyer), [Exceptional(JurisdictionIs(7), Required),
        Exceptional(PartyIs(Seller), NotApplicable), Exceptional(AmountAtLeast(1.0), Required)]);
      var c := EMPTY.(amount := Some(5.0));
      && Skippable(spec, c, 0) && Skippable(spec, c, 1)
      && Resolve(spec, c) == Required && Resolve(spec, c.(party := Seller)) == NotApplicable && !Final(spec, c)
  {
    var c := EMPTY.(amount := Some(5.0));
    var d := c.(party := Seller);
    var spec := Spec(Required, PartyIs(Buyer), [Exceptional(JurisdictionIs(7), Required),
        Exceptional(PartyIs(Seller), NotApplicable), Exceptional(AmountAtLeast(1.0), Required)]);
    assert Match(JurisdictionIs(7), c) == None && Match(PartyIs(Seller), c) == None;
    assert Match(AmountAtLeast(1.0), c) == Some(true);
    assert FirstHolding(spec.exceptions, c) == 2;
    assert Match(JurisdictionIs(7), d) == None && Match(PartyIs(Seller), d) == Some(true);
    assert FirstHolding(spec.exceptions, d) == 1;
    assert Refines(c, d);
  }

  /** Disagreement alone does not overturn: the second exception holds only when the first does. */
  lemma MaskedException()
    ensures var spec := Spec(Required, PartyIs(Buyer), [Exceptional(PartyIs(Seller), Required),
        Exceptional(SellerIn(7), NotApplicable), Exceptional(AmountAtLeast(1.0), Required)]);
      var c := EMPTY.(amount := Some(5.0));
      && Skippable(spec, c, 0) && Skippable(spec, c, 1) && Resolve(spec, c) == Required && Final(spec, c)
  {
    var c := EMPTY.(amount := Some(5.0));
    var spec := Spec(Required, PartyIs(Buyer), [Exceptional(PartyIs(Seller), Required),
        Exceptional(SellerIn(7), NotApplicable), Exceptional(AmountAtLeast(1.0), Required)]);
    assert Match(PartyIs(Seller), c) == None && Match(SellerIn(7), c) == None;
    assert Match(AmountAtLeast(1.0), c) == Some(true);
    assert FirstHolding(spec.exceptions, c) == 2;
    forall d | Refines(c, d) ensures Decision(spec, d) == Decision(spec, c) {
      assert d.amount == Some(5.0) && Match(AmountAtLeast(1.0), d) == Some(true);
      assert Match(SellerIn(7), d) == Some(true) ==> Match(PartyIs(Seller), d) == Some(true);
      assert spec.exceptions[0].condition == PartyIs(Seller) && spec.exceptions[1].condition == SellerIn(7);
      var i := FirstHolding(spec.exceptions, d);
      assert i <= 2 by { assert spec.exceptions[2].condition == AmountAtLeast(1.0); }
      assert i != 1;
    }
  }
}
