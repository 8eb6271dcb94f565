/**
 What a condition and a rule answer, in terms of the facts: which tests pass, fail or lack
 facts, and how exceptions and the base condition make up the verdict.
 */
module Verdicts {
  import opened Ordering
  import opened Applicability
  import opened Finality

  // ------------------------------------------------------------------- one condition

  /** Test i of a condition is met by what is known. */
  ghost predicate Passes(cond: Condition, c: Context, i: int)
  {
    match i
    case 0 => cond.parties == {} || c.party in cond.parties
    case 1 => cond.jurisdictions == {} || exists j :: j in cond.jurisdictions && c.jurisdiction == Some(j)
    case 2 => cond.tags == {} || (c.tags != {} && cond.tags <= c.tags)
    case 3 => (cond.low == None && cond.high == None) || exists a :: c.amount == Some(a) && Within(cond, a)
    case 4 => cond.kinds == {}
      || (c.kinds != {} && UnknownKind !in c.kinds && forall k :: k in cond.kinds ==> k in c.kinds)
    case _ => cond.anyKinds == {} || exists k :: k in cond.anyKinds && k in c.kinds
  }

  /** The bounds belong to the range. */
  predicate Within(cond: Condition, a: Amount)
  {
    (cond.low.Some? ==> cond.low.value <= a) && (cond.high.Some? ==> a <= cond.high.value)
  }

  /** What test i needs is not known. */
  predicate Lacks(c: Context, i: int)
  {
    match i
    case 0 => c.party == UnknownParty
    case 1 => c.jurisdiction == None
    case 2 => c.tags == {}
    case 3 => c.amount == None
    case _ => c.kinds == {} || UnknownKind in c.kinds
  }

  /** Test i is the first that is not met. */
  ghost predicate StopsAt(cond: Condition, c: Context, i: int)
  {
    0 <= i < 6 && !Passes(cond, c, i) && forall j :: 0 <= j < i ==> Passes(cond, c, j)
  }

  /** A condition holds when all six tests are met, and otherwise the first one that is not
      met fails, or leaves the answer open when its facts are missing. */
  lemma MatchIff(cond: Condition, c: Context)
    ensures Match(cond, c) == Some(true) <==> forall i :: 0 <= i < 6 ==> Passes(cond, c, i)
    ensures Match(cond, c) == None <==> exists i :: StopsAt(cond, c, i) && Lacks(c, i)
    ensures Match(cond, c) == Some(false) <==> exists i :: StopsAt(cond, c, i) && !Lacks(c, i)
  {
    TestsAre(cond, c);
    hide PartyAnswer, JurisdictionAnswer, TagsAnswer, AmountAnswer, KindsAnswer, AnyKindAnswer, Passes, Lacks;
    forall i, j | StopsAt(cond, c, i) && StopsAt(cond, c, j) ensures !(i < j) {
    }
    if i :| StopsAt(cond, c, i) {
      assert !Passes(cond, c, i);
      Reached(cond, c, i);
      assert Match(cond, c) == Answered(false, Lacks(c, i));
    } else {
      NeverStops(cond, c);
    }
  }

  lemma Reached(cond: Condition, c: Context, i: int)
    requires StopsAt(cond, c, i)
    ensures (i > 0 ==> Passes(cond, c, 0)) && (i > 1 ==> Passes(cond, c, 1)) && (i > 2 ==> Passes(cond, c, 2))
      && (i > 3 ==> Passes(cond, c, 3)) && (i > 4 ==> Passes(cond, c, 4))
  {
    hide Passes;
  }

  lemma NeverStops(cond: Condition, c: Context)
    requires forall i :: !StopsAt(cond, c, i)
    ensures forall i :: 0 <= i < 6 ==> Passes(cond, c, i)
  {
    hide Passes;
    for i := 0 to 6
      invariant forall j :: 0 <= j < i ==> Passes(cond, c, j)
    {
      assert !StopsAt(cond, c, i);
    }
  }

  lemma TestsAre(cond: Condition, c: Context)
    ensures PartyAnswer(cond, c) == Answered(Passes(cond, c, 0), Lacks(c, 0))
    ensures JurisdictionAnswer(cond, c) == Answered(Passes(cond, c, 1), Lacks(c, 1))
    ensures TagsAnswer(cond, c) == Answered(Passes(cond, c, 2), Lacks(c, 2))
    ensures AmountAnswer(cond, c) == Answered(Passes(cond, c, 3), Lacks(c, 3))
    ensures KindsAnswer(cond, c) == Answered(Passes(cond, c, 4), Lacks(c, 4))
    ensures AnyKindAnswer(cond, c) == Answered(Passes(cond, c, 5), Lacks(c, 5))
  {
    if c.jurisdiction.Some? {
      var x := c.jurisdiction.value;
      assert x in cond.jurisdictions <==> exists j :: j in cond.jurisdictions && c.jurisdiction == Some(j);
    }
    assert c.kinds * cond.anyKinds != {} <==> exists k :: k in cond.anyKinds && k in c.kinds by {
      if k :| k in cond.anyKinds && k in c.kinds { assert k in c.kinds * cond.anyKinds; }
    }
  }

  function Answered(passes: bool, lacks: bool): Answer
  {
    if passes then Some(true) else if lacks then None else Some(false)
  }

  // --------------------------------------------------------------------- whole rules

  predicate Holds(spec: Spec, c: Context, k: int)
  {
    0 <= k < |spec.exceptions| && Match(spec.exceptions[k].condition, c) == Some(true)
  }

  /** The first exception that holds gives the verdict.  When none holds, a failing base
      condition makes the rule not applicable, an open one leaves the verdict unknown, and one
      that holds gives the rule's own verdict only if every exception is known to fail. */
  lemma ResolveIff(spec: Spec, c: Context)
    ensures forall k :: Holds(spec, c, k) && (forall j :: 0 <= j < k ==> !Holds(spec, c, j)) ==>
      Resolve(spec, c) == spec.exceptions[k].result
    ensures (forall k :: !Holds(spec, c, k)) ==>
      Resolve(spec, c) ==
        match Match(spec.condition, c)
        case None => Unknown
        case Some(false) => NotApplicable
        case Some(true) =>
          if forall k :: 0 <= k < |spec.exceptions| ==> Match(spec.exceptions[k].condition, c) == Some(false)
          then spec.verdict else Unknown
  {
    hide Match;
    var i := FirstHolding(spec.exceptions, c);
    if i < |spec.exceptions| {
      assert Holds(spec, c, i);
    } else {
      forall k ensures !Holds(spec, c, k) { }
      forall k: nat | k < |spec.exceptions|
        ensures Undecided(spec, c, k) <==> Match(spec.exceptions[k].condition, c) != Some(false)
      {
        assert !Holds(spec, c, k);
        Three(Match(spec.exceptions[k].condition, c));
      }
      Three(Match(spec.condition, c));
    }
  }

  lemma Three(a: Answer)
    ensures a == None || a == Some(true) || a == Some(false)
  {
    match a case None => case Some(b) => if b { } else { }
  }

  /** A verdict that the base condition gives by holding is always final: whatever is filled
      in, no exception can come to hold. */
  lemma BaseVerdictIsFinal(spec: Spec, c: Context)
    requires AllStable(spec) && (forall k :: !Holds(spec, c, k)) && Match(spec.condition, c) == Some(true)
    requires Decision(spec, c).Some?
    ensures Final(spec, c) && Decision(spec, c) == Some(spec.verdict)
    ensures forall c', k :: Refines(c, c') ==> !Holds(spec, c', k)
  {
    hide Match, AllStable;
    var n := FirstHolding(spec.exceptions, c);
    assert n == |spec.exceptions| by { assert n < |spec.exceptions| ==> Holds(spec, c, n); }
    forall k: nat | k < n ensures Match(spec.exceptions[k].condition, c) == Some(false) {
      assert !Holds(spec, c, k) && !Undecided(spec, c, k);
      Three(Match(spec.exceptions[k].condition, c));
    }
    forall c' | Refines(c, c') ensures Decision(spec, c') == Decision(spec, c) && forall k :: !Holds(spec, c', k) {
      SettledVerdictIsFinal(spec, c, c');
      forall k ensures !Holds(spec, c', k) {
        if 0 <= k < n { FalseIsFinal(spec.exceptions[k].condition, c, c'); }
      }
    }
  }

  /** The first name with a specification. */
  predicate FirstSpecified(rule: Rule, names: seq<Id>, i: int)
  {
    0 <= i < |names| && names[i] in rule.applicability && forall j :: 0 <= j < i ==> names[j] !in rule.applicability
  }

  /** The specification for the contract type decides, else the one for its first registered
      name that has one; without any, a rule that lists the type or a name is required. */
  lemma ResolveRuleIff(rule: Rule, aliases: Id -> seq<Id>, c: Context)
    ensures c.contractType == None ==> ResolveRule(rule, aliases, c) == Unknown
    ensures c.contractType.Some? ==>
      var names := [c.contractType.value] + aliases(c.contractType.value);
      && (forall i :: FirstSpecified(rule, names, i) ==>
            ResolveRule(rule, aliases, c) == Resolve(rule.applicability[names[i]], c))
      && ((forall i :: 0 <= i < |names| ==> names[i] !in rule.applicability) ==>
            ResolveRule(rule, aliases, c) ==
              if exists i :: 0 <= i < |names| && names[i] in rule.appliesTo then Required else Unknown)
  {
    hide Resolve;
    if c.contractType.Some? {
      var names := [c.contractType.value] + aliases(c.contractType.value);
      SpecFound(rule, Dedup(names));
      DedupFirst(rule, names);
      if forall i :: 0 <= i < |names| ==> names[i] !in rule.applicability { NoneAmong(rule, names); }
      ListedAmong(rule, names);
      hide FindSpec, Dedup;
    }
  }

  lemma NoneAmong(rule: Rule, names: seq<Id>)
    requires forall i :: 0 <= i < |names| ==> names[i] !in rule.applicability
    ensures FindSpec(rule, Dedup(names)) == None
  {
    forall k | 0 <= k < |Dedup(names)| ensures Dedup(names)[k] !in rule.applicability {
      assert Dedup(names)[k] in Dedup(names);
      var i :| 0 <= i < |names| && names[i] == Dedup(names)[k];
    }
    SpecFound(rule, Dedup(names));
  }

  lemma ListedAmong(rule: Rule, names: seq<Id>)
    ensures (exists t :: t in Dedup(names) && t in rule.appliesTo) <==>
      exists i :: 0 <= i < |names| && names[i] in rule.appliesTo
  {
    hide Dedup;
    assert forall t :: t in Dedup(names) <==> t in names;
    if i :| 0 <= i < |names| && names[i] in rule.appliesTo {
      var x := names[i];
      assert x in Dedup(names) && x in rule.appliesTo;
    } else {
      forall t | t in Dedup(names) ensures t !in rule.appliesTo {
        assert t in names;
        var i :| 0 <= i < |names| && names[i] == t;
        assert names[i] !in rule.appliesTo;
      }
    }
  }

  lemma {:induction false} SpecFound(rule: Rule, names: seq<Id>)
    ensures forall i :: FirstSpecified(rule, names, i) ==> FindSpec(rule, names) == Some(rule.applicability[names[i]])
    ensures (forall i :: 0 <= i < |names| ==> names[i] !in rule.applicability) ==> FindSpec(rule, names) == None
  {
    if names != [] && names[0] !in rule.applicability {
      SpecFound(rule, names[1..]);
      forall i | FirstSpecified(rule, names, i) ensures FirstSpecified(rule, names[1..], i - 1) { }
    }
  }

  /** Leaving out repetitions keeps the first name with a specification. */
  lemma {:induction false} DedupFirst(rule: Rule, names: seq<Id>)
    ensures forall i :: FirstSpecified(rule, names, i) ==>
      exists k :: FirstSpecified(rule, Dedup(names), k) && Dedup(names)[k] == names[i]
  {
    if names != [] {
      var n := |names| - 1;
      var front := names[..n];
      SnocParts(names);
      DedupFirst(rule, front);
      forall i | FirstSpecified(rule, names, i)
        ensures exists k :: FirstSpecified(rule, Dedup(names), k) && Dedup(names)[k] == names[i]
      {
        DedupStep(front, names[n]);
        if i < n {
          assert FirstSpecified(rule, front, i);
          var k :| FirstSpecified(rule, Dedup(front), k) && Dedup(front)[k] == front[i];
          assert FirstSpecified(rule, Dedup(names), k);
        } else {
          forall x | x in Dedup(front) ensures x !in rule.applicability {
            var j :| 0 <= j < n && front[j] == x;
            assert names[j] == x;
          }
          assert names[n] !in front;
          assert FirstSpecified(rule, Dedup(names), |Dedup(front)|);
        }
      }
    }
  }
}
