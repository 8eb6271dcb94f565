/**
 What an impact of an attached comparison says, field by field, in terms of the documents,
 rules, findings and obligations of the review.
 */
module ImpactMeaning {
  import opened Ordering
  import opened ReviewModel
  import opened VersionImpacts
  import opened ReviewActions
  import opened ComparisonGate

  // -------------------------------------------------------- which document comes first

  /** Document n is the last one with this hash. */
  predicate LastWith(documents: seq<Document>, sha: Id, n: nat)
  {
    && n < |documents| && documents[n].sourceSha256 == sha
    && forall m :: n < m < |documents| ==> documents[m].sourceSha256 != sha
  }

  /** Two identifiers both occur, and some occurrence of the first comes before all of the second. */
  ghost predicate Precedes(order: seq<Id>, first: Id, second: Id)
  {
    && second in order
    && exists p :: 0 <= p < |order| && order[p] == first
         && forall q :: 0 <= q < |order| && order[q] == second ==> p < q
  }

  /** Documents m and n are the two sides of the comparison. */
  predicate Sides(core: Snapshot, c: Comparison, m: nat, n: nat)
  {
    LastWith(core.documents, c.baseSha256, m) && LastWith(core.documents, c.compareSha256, n)
  }

  function IdAt(core: Snapshot, n: nat): Id
    requires n < |core.documents|
  {
    core.documents[n].documentId
  }

  lemma {:induction false} FoundLast(documents: seq<Document>, sha: Id) returns (n: nat)
    requires LastByHash(documents, sha).Some?
    ensures LastWith(documents, sha, n) && documents[n] == LastByHash(documents, sha).value
  {
    n := |documents| - 1;
    if documents[n].sourceSha256 != sha { n := FoundLast(documents[..n], sha); }
  }

  lemma OneLast(documents: seq<Document>, sha: Id, n: nat)
    requires LastWith(documents, sha, n)
    ensures LastByHash(documents, sha) == Some(documents[n])
  {
    assert documents[n] in documents;
    var m := FoundLast(documents, sha);
    assert m == n;
  }

  lemma {:induction false} FirstIndex(order: seq<Id>, x: Id)
    requires x in order
    ensures var i := IndexOf(order, x);
      i < |order| && order[i] == x && forall k :: 0 <= k < i ==> order[k] != x
  {
    if order[0] != x { FirstIndex(order[1..], x); }
  }

  lemma PrecedesIff(order: seq<Id>, first: Id, second: Id)
    requires first in order && second in order
    ensures Precedes(order, first, second) <==> IndexOf(order, first) < IndexOf(order, second)
  {
    FirstIndex(order, first);
    FirstIndex(order, second);
  }

  /** Of two documents that are both in the order, one comes first unless they are the same. */
  lemma EitherPrecedes(order: seq<Id>, first: Id, second: Id)
    requires first in order && second in order && first != second
    ensures Precedes(order, first, second) <==> !Precedes(order, second, first)
  {
    PrecedesIff(order, first, second);
    PrecedesIff(order, second, first);
    FirstIndex(order, first);
    FirstIndex(order, second);
  }

  /** What an impact says about the order of the two documents: there is no question when they
      are the same, it is open unless both sides are documents of the order, and else the
      side that comes first wins. */
  ghost predicate Ordered(core: Snapshot, c: Comparison, p: Precedence)
  {
    var same, order := c.baseSha256 == c.compareSha256, core.precedence;
    && (p == NotRequired <==> same)
    && (p == BaseWins <==> !same && exists m: nat, n: nat ::
          Sides(core, c, m, n) && Precedes(order, IdAt(core, m), IdAt(core, n)))
    && (p == CompareWins <==> !same && exists m: nat, n: nat ::
          Sides(core, c, m, n) && BothIn(order, IdAt(core, m), IdAt(core, n))
          && !Precedes(order, IdAt(core, m), IdAt(core, n)))
    && (p == Unresolved <==> !same && !exists m: nat, n: nat ::
          Sides(core, c, m, n) && BothIn(order, IdAt(core, m), IdAt(core, n)))
  }

  predicate BothIn(order: seq<Id>, x: Id, y: Id) { x in order && y in order }

  lemma PrecedenceIff(core: Snapshot, c: Comparison)
    ensures Ordered(core, c, PrecedenceOf(core, c))
  {
    hide IndexOf, LastByHash, Precedes, LastWith;
    var base, compare := LastByHash(core.documents, c.baseSha256), LastByHash(core.documents, c.compareSha256);
    if base.Some? && compare.Some? {
      var m := FoundLast(core.documents, c.baseSha256);
      var n := FoundLast(core.documents, c.compareSha256);
      assert Sides(core, c, m, n);
      forall x: nat, y: nat | Sides(core, c, x, y) ensures x < |core.documents| && y < |core.documents|
        && core.documents[x] == base.value && core.documents[y] == compare.value
      {
        InRange(core.documents, c.baseSha256, x);
        InRange(core.documents, c.compareSha256, y);
        OneLast(core.documents, c.baseSha256, x);
        OneLast(core.documents, c.compareSha256, y);
      }
      var b, x := IdAt(core, m), IdAt(core, n);
      if b in core.precedence && x in core.precedence { PrecedesIff(core.precedence, b, x); }
      PrecedesOccurs(core.precedence, b, x);
    } else {
      forall x: nat, y: nat ensures !Sides(core, c, x, y) {
        if Sides(core, c, x, y) {
          InRange(core.documents, c.baseSha256, x);
          InRange(core.documents, c.compareSha256, y);
          OneLast(core.documents, c.baseSha256, x);
          OneLast(core.documents, c.compareSha256, y);
        }
      }
    }
  }

  lemma InRange(documents: seq<Document>, sha: Id, n: nat)
    requires LastWith(documents, sha, n)
    ensures n < |documents|
  {
  }

  lemma PrecedesOccurs(order: seq<Id>, first: Id, second: Id)
    ensures Precedes(order, first, second) ==> first in order && second in order
  {
  }

  // ------------------------------------------------------- which rules a change concerns

  /** The rule takes part in the run: it is selected, or nothing is selected. */
  predicate Active(core: Snapshot, id: Id)
  {
    match core.selectedRuleIds
    case None => true
    case Some(selected) => |selected| == 0 || id in selected
  }

  predicate SharesClause(ch: VersionChange, f: Finding)
  {
    exists x :: x in ch.clauseIds && x in f.clauseIds
  }

  predicate StartsAt(part: string, text: string, k: nat)
  {
    k + |part| <= |text| && forall j :: 0 <= j < |part| ==> text[k + j] == part[j]
  }

  /** One of the rule's markers occurs in the two texts of the change. */
  ghost predicate Marked(judge: TextJudge, ch: VersionChange, r: Rule)
  {
    var text := judge.strip(ch.baseText) + "\n" + judge.strip(ch.compareText);
    exists m :: m in r.markers && |m| > 0 && exists k: nat :: StartsAt(m, text, k)
  }

  /** A change concerns the rules of the findings that share a clause with it; without such
      findings, the active rules with a marker in its text; without those, it is unmapped. */
  ghost predicate Concerns(core: Snapshot, judge: TextJudge, ch: VersionChange, key: Id)
  {
    if exists f :: f in core.findings && SharesClause(ch, f) then
      exists f :: f in core.findings && SharesClause(ch, f) && f.ruleId == key
    else if exists r :: r in core.rules && Active(core, r.ruleId) && Marked(judge, ch, r) then
      exists r :: r in core.rules && Active(core, r.ruleId) && Marked(judge, ch, r) && r.ruleId == key
    else key == UNMAPPED
  }

  lemma ActiveIff(core: Snapshot, r: Rule)
    requires r in core.rules
    ensures r.ruleId in ActiveRuleIds(core) <==> Active(core, r.ruleId)
  {
  }

  lemma OccursIff(part: string, text: string)
    ensures Occurs(part, text) <==> exists k: nat :: StartsAt(part, text, k)
  {
    forall k: nat ensures StartsAt(part, text, k) <==> OccursAt(part, text, k) {
      if k + |part| <= |text| {
        var here := text[k..k + |part|];
        if StartsAt(part, text, k) { assert here == part; }
        if here == part { assert forall j :: 0 <= j < |part| ==> text[k + j] == here[j]; }
      }
    }
    if k: nat :| StartsAt(part, text, k) { assert OccursAt(part, text, k); }
  }

  lemma MarkedIff(judge: TextJudge, ch: VersionChange, r: Rule)
    ensures Mentions(r, ChangedText(judge, ch)) <==> Marked(judge, ch, r)
  {
    var text := ChangedText(judge, ch);
    forall m | m in r.markers ensures Occurs(m, text) <==> exists k: nat :: StartsAt(m, text, k) {
      OccursIff(m, text);
    }
    hide Occurs, StartsAt;
  }

  lemma ConcernsIff(core: Snapshot, judge: TextJudge, ch: VersionChange, key: Id)
    ensures key in LinkedRules(core, judge, ch) <==> Concerns(core, judge, ch, key)
  {
    hide Occurs, StartsAt, Marked, Mentions, ActiveRuleIds, Active;
    forall f: Finding ensures Intersects(ch.clauseIds, f.clauseIds) <==> SharesClause(ch, f) {
    }
    var byFinding, text := LinkedByFinding(core, ch), ChangedText(judge, ch);
    if f :| f in core.findings && SharesClause(ch, f) {
      assert f.ruleId in byFinding;
    } else {
      assert byFinding == {};
      forall r | r in core.rules ensures Mentions(r, text) <==> Marked(judge, ch, r) {
        MarkedIff(judge, ch, r);
      }
      forall r | r in core.rules ensures r.ruleId in ActiveRuleIds(core) <==> Active(core, r.ruleId) {
        ActiveIff(core, r);
      }
      var byMarker := LinkedByMarker(core, text);
      if r :| r in core.rules && Active(core, r.ruleId) && Marked(judge, ch, r) {
        assert r.ruleId in byMarker;
      } else {
        assert byMarker == {};
      }
    }
  }

  // ------------------------------------------------------------------ what an impact says

  /** The changes that concern a rule, in their order. */
  ghost function Touching(core: Snapshot, judge: TextJudge, changes: seq<VersionChange>, key: Id): seq<VersionChange>
  {
    if changes == [] then []
    else
      var n := |changes| - 1;
      Touching(core, judge, changes[..n], key) + if Concerns(core, judge, changes[n], key) then [changes[n]] else []
  }

  lemma {:induction false} TouchingIs(core: Snapshot, judge: TextJudge, changes: seq<VersionChange>, key: Id)
    ensures Touching(core, judge, changes, key) == Concerning(LinkingOf(core, judge), changes, key)
  {
    hide Concerns, LinkedRules;
    if changes != [] {
      TouchingIs(core, judge, changes[..|changes| - 1], key);
      ConcernsIff(core, judge, changes[|changes| - 1], key);
    }
  }

  /** Texts one below the other. */
  function Joined(texts: seq<string>): string
  {
    if |texts| == 0 then ""
    else if |texts| == 1 then texts[0]
    else Joined(texts[..|texts| - 1]) + "\n" + texts[|texts| - 1]
  }

  lemma {:induction false} LinesAppend(texts: seq<string>, last: string)
    requires texts != []
    ensures Lines(texts + [last]) == Lines(texts) + "\n" + last
  {
    if |texts| > 1 {
      LinesAppend(texts[1..], last);
      assert (texts + [last])[1..] == texts[1..] + [last];
      assert texts[0] + "\n" + (Lines(texts[1..]) + "\n" + last) == texts[0] + "\n" + Lines(texts[1..]) + "\n" + last;
    }
  }

  lemma {:induction false} JoinedIs(texts: seq<string>)
    ensures Joined(texts) == Lines(texts)
  {
    if |texts| > 1 {
      var n := |texts| - 1;
      JoinedIs(texts[..n]);
      LinesAppend(texts[..n], texts[n]);
      SnocParts(texts);
    }
  }

  function BaseTexts(judge: TextJudge, changes: seq<VersionChange>): string
  {
    Joined(seq(|changes|, i requires 0 <= i < |changes| => judge.strip(changes[i].baseText)))
  }

  function CompareTexts(judge: TextJudge, changes: seq<VersionChange>): string
  {
    Joined(seq(|changes|, i requires 0 <= i < |changes| => judge.strip(changes[i].compareText)))
  }

  lemma TextsAre(judge: TextJudge, changes: seq<VersionChange>)
    ensures BaseTexts(judge, changes) == Lines(Befores(judge, changes))
    ensures CompareTexts(judge, changes) == Lines(Afters(judge, changes))
  {
    JoinedIs(Befores(judge, changes));
    JoinedIs(Afters(judge, changes));
    assert seq(|changes|, i requires 0 <= i < |changes| => judge.strip(changes[i].baseText)) == Befores(judge, changes);
    assert Afters(judge, changes) ==
      seq(|changes|, i requires 0 <= i < |changes| => judge.strip(changes[i].compareText));
  }

  /** Rule n is the last one with this id, and active. */
  predicate RuleAt(core: Snapshot, key: Id, n: nat)
  {
    && n < |core.rules| && core.rules[n].ruleId == key && Active(core, key)
    && forall m :: n < m < |core.rules| ==> core.rules[m].ruleId != key
  }

  lemma {:induction false} ActiveRuleAt(rules: seq<Rule>, active: set<Id>, key: Id) returns (n: nat)
    requires key in active && exists r :: r in rules && r.ruleId == key
    ensures n < |rules| && rules[n].ruleId == key && forall m :: n < m < |rules| ==> rules[m].ruleId != key
    ensures ActiveRule(rules, active, key) == Some(rules[n])
  {
    n := |rules| - 1;
    if rules[n].ruleId != key { n := ActiveRuleAt(rules[..n], active, key); }
  }

  lemma {:induction false} NoActiveRule(rules: seq<Rule>, active: set<Id>, key: Id)
    requires key !in active || forall r :: r in rules ==> r.ruleId != key
    ensures ActiveRule(rules, active, key).None?
  {
    if rules != [] { NoActiveRule(rules[..|rules| - 1], active, key); }
  }

  lemma RuleFound(core: Snapshot, key: Id)
    ensures var found := ActiveRule(core.rules, ActiveRuleIds(core), key);
      && (forall n: nat :: RuleAt(core, key, n) ==> found == Some(core.rules[n]))
      && (found.Some? ==> exists n: nat :: RuleAt(core, key, n))
  {
    if r :| r in core.rules && r.ruleId == key && Active(core, key) {
      ActiveIff(core, r);
      var n := ActiveRuleAt(core.rules, ActiveRuleIds(core), key);
      assert RuleAt(core, key, n);
      assert forall m: nat :: RuleAt(core, key, m) ==> m == n;
    } else {
      if key in ActiveRuleIds(core) {
        var r :| r in core.rules && r.ruleId == key;
        ActiveIff(core, r);
      }
      NoActiveRule(core.rules, ActiveRuleIds(core), key);
      forall n: nat ensures !RuleAt(core, key, n) {
        if n < |core.rules| { assert core.rules[n] in core.rules; }
      }
    }
  }

  predicate CheckedBy(r: Rule, checkers: set<Checker>) { r.checker.Some? && r.checker.value in checkers }

  /** A risk is judged from the texts when the rule's checker is one of these, must be
      reviewed when there is no rule, and is unclear otherwise. */
  ghost predicate Graded(core: Snapshot, key: Id, checkers: set<Checker>, judged: ImpactLevel, level: ImpactLevel)
  {
    && (forall n: nat :: RuleAt(core, key, n) ==>
          level == if CheckedBy(core.rules[n], checkers) then judged else UNCLEAR)
    && ((forall n: nat :: !RuleAt(core, key, n)) ==> level == REQUIRES_REVIEW)
  }

  ghost predicate RisksGraded(core: Snapshot, judge: TextJudge, key: Id, list: seq<VersionChange>, risks: RiskLevels)
  {
    var before, after := BaseTexts(judge, list), CompareTexts(judge, list);
    && Graded(core, key, {PaymentTerms}, judge.payment(before, after), risks.payment)
    && Graded(core, key, {BreachLiability}, judge.liability(before, after), risks.liability)
    && Graded(core, key, {BreachLiability}, judge.liabilityCap(before, after), risks.liabilityCap)
    && Graded(core, key, {DeliveryTerms, AcceptanceTerms}, judge.delivery(before, after), risks.deliveryAcceptance)
  }

  lemma RisksAre(core: Snapshot, judge: TextJudge, key: Id, list: seq<VersionChange>)
    requires list != []
    ensures RisksGraded(core, judge, key, list, Risks(judge, DraftOf(core, judge, key, list)))
  {
    TextsAre(judge, list);
    RuleFound(core, key);
    hide RuleAt, ActiveRule, Lines, BaseTexts, CompareTexts;
  }

  /** The name of the obligation that the rule stands for. */
  ghost predicate Named(core: Snapshot, key: Id, text: string)
  {
    && (forall n: nat :: RuleAt(core, key, n) ==> text == core.rules[n].obligationLabel)
    && ((forall n: nat :: !RuleAt(core, key, n)) ==> text == "unmapped")
  }

  /** The text sums up an obligation of a clause that one of the changes touches. */
  ghost predicate Summarised(core: Snapshot, list: seq<VersionChange>, text: string)
  {
    exists o, ch :: o in core.obligations && ch in list && o.clauseId in ch.clauseIds && o.summary == text
  }

  lemma NamedIff(core: Snapshot, key: Id, text: string)
    ensures EmptyDraft(core, key).changedObligations == [text] <==> Named(core, key, text)
  {
    RuleFound(core, key);
    hide RuleAt, ActiveRule;
  }

  /** Every field of the impact for one rule. */
  ghost predicate Says(core: Snapshot, judge: TextJudge, c: Comparison, changes: seq<VersionChange>, key: Id,
                       i: VersionImpact)
  {
    var list := Touching(core, judge, changes, key);
    && i.ruleId == (if key == UNMAPPED then None else Some(key))
    && i.impactId.comparisonId == c.comparisonId && i.impactId.ruleKey == key
    && (forall x :: x in i.impactId.evidenceIds <==> x in i.evidenceIds)
    && (forall x :: x in i.changeIds <==> exists ch :: ch in list && ch.changeId == x)
    && (forall x :: x in i.evidenceIds <==> exists ch :: ch in list && x in ch.evidenceIds)
    && (forall x :: x in i.obligationIds <==>
          exists o, ch :: o in core.obligations && ch in list && o.clauseId in ch.clauseIds && o.obligationId == x)
    && (forall text :: text in i.changedObligations <==>
          Named(core, key, text) || Summarised(core, list, text))
    && RisksGraded(core, judge, key, list, i.risks)
    && Ordered(core, c, i.precedence)
  }

  lemma ImpactSays(core: Snapshot, judge: TextJudge, c: Comparison, changes: seq<VersionChange>, key: Id)
    requires key in LinkedKeys(LinkingOf(core, judge), changes)
    ensures Says(core, judge, c, changes, key,
      ImpactOf(core, judge, c, key, TableEntry(core, judge, LinkingOf(core, judge), changes, key)))
  {
    hide *;
    var list := Touching(core, judge, changes, key);
    var d := DraftOf(core, judge, key, list);
    TouchingIs(core, judge, changes, key);
    EntryIs(core, judge, changes, key);
    RisksAre(core, judge, key, list);
    PrecedenceIff(core, c);
    DraftIds(core, judge, key, list);
    SortedMembers(d.evidenceIds);
    FieldsSay(core, judge, c, changes, key, d);
  }

  lemma EntryIs(core: Snapshot, judge: TextJudge, changes: seq<VersionChange>, key: Id)
    requires key in LinkedKeys(LinkingOf(core, judge), changes)
    ensures Concerning(LinkingOf(core, judge), changes, key) != []
    ensures TableEntry(core, judge, LinkingOf(core, judge), changes, key) ==
      DraftOf(core, judge, key, Concerning(LinkingOf(core, judge), changes, key))
  {
    var ch :| ch in changes && key in LinkingOf(core, judge)(ch);
    assert ch in Concerning(LinkingOf(core, judge), changes, key);
  }

  lemma FieldsSay(core: Snapshot, judge: TextJudge, c: Comparison, changes: seq<VersionChange>, key: Id, d: Draft)
    requires RisksGraded(core, judge, key, Touching(core, judge, changes, key), Risks(judge, d))
    requires Ordered(core, c, PrecedenceOf(core, c)) && forall x :: x in SortIds(d.evidenceIds) <==> x in d.evidenceIds
    requires DraftSays(core, key, Touching(core, judge, changes, key), d)
    ensures Says(core, judge, c, changes, key, ImpactOf(core, judge, c, key, d))
  {
    hide RisksGraded, Risks, Ordered, PrecedenceOf, Touching, SortIds, Named, Dedup;
  }

  lemma SortedMembers(ids: seq<Id>)
    ensures forall x :: x in SortIds(ids) <==> x in ids
  {
    MultisetMembers(SortIds(ids), ids);
  }

  ghost predicate DraftSays(core: Snapshot, key: Id, list: seq<VersionChange>, d: Draft)
  {
    && (forall x :: x in d.changeIds <==> exists ch :: ch in list && ch.changeId == x)
    && (forall x :: x in d.evidenceIds <==> exists ch :: ch in list && x in ch.evidenceIds)
    && (forall x :: x in d.obligationIds <==>
          exists o, ch :: o in core.obligations && ch in list && o.clauseId in ch.clauseIds && o.obligationId == x)
    && (forall text :: text in d.changedObligations <==>
          Named(core, key, text) || Summarised(core, list, text))
  }

  lemma DraftIds(core: Snapshot, judge: TextJudge, key: Id, list: seq<VersionChange>)
    ensures DraftSays(core, key, list, DraftOf(core, judge, key, list))
  {
    var d := DraftOf(core, judge, key, list);
    forall x ensures x in d.evidenceIds <==> exists ch :: ch in list && x in ch.evidenceIds {
      EvidenceOrigin(list, x);
    }
    forall x ensures x in d.changeIds <==> exists ch :: ch in list && ch.changeId == x {
      ChangeIdKnown(list, x);
    }
    forall x ensures x in d.obligationIds <==>
      exists o, ch :: o in core.obligations && ch in list && o.clauseId in ch.clauseIds && o.obligationId == x
    {
      ObligationKnown(core.obligations, list, x);
    }
    forall text ensures text in d.changedObligations <==>
      Named(core, key, text) || Summarised(core, list, text)
    {
      NamedIff(core, key, text);
      SummaryKnown(core.obligations, list, text);
    }
  }

  lemma SummaryKnown(obligations: seq<Obligation>, list: seq<VersionChange>, text: string)
    ensures text in SummariesOf(ObligationsOfChanges(obligations, list)) <==>
      exists o, ch :: o in obligations && ch in list && o.clauseId in ch.clauseIds && o.summary == text
  {
    var os := ObligationsOfChanges(obligations, list);
    if text in SummariesOf(os) {
      var n :| 0 <= n < |os| && SummariesOf(os)[n] == text;
      assert os[n] in os;
      ObligationOrigin(obligations, list, os[n]);
    }
    if o, ch :| o in obligations && ch in list && o.clauseId in ch.clauseIds && o.summary == text {
      ObligationOrigin(obligations, list, o);
      var n :| 0 <= n < |os| && os[n] == o;
      assert SummariesOf(os)[n] == text;
    }
  }

  lemma ChangeIdKnown(list: seq<VersionChange>, x: Id)
    ensures x in ChangeIds(list) <==> exists ch :: ch in list && ch.changeId == x
  {
    if x in ChangeIds(list) {
      var n :| 0 <= n < |list| && ChangeIds(list)[n] == x;
      assert list[n] in list;
    }
    if ch :| ch in list && ch.changeId == x {
      var n :| 0 <= n < |list| && list[n] == ch;
      assert ChangeIds(list)[n] == x;
    }
  }

  lemma ObligationKnown(obligations: seq<Obligation>, list: seq<VersionChange>, x: Id)
    ensures x in ObligationIdsOf(ObligationsOfChanges(obligations, list)) <==>
      exists o, ch :: o in obligations && ch in list && o.clauseId in ch.clauseIds && o.obligationId == x
  {
    var os := ObligationsOfChanges(obligations, list);
    if x in ObligationIdsOf(os) {
      var n :| 0 <= n < |os| && ObligationIdsOf(os)[n] == x;
      assert os[n] in os;
      ObligationOrigin(obligations, list, os[n]);
    }
    if o, ch :| o in obligations && ch in list && o.clauseId in ch.clauseIds && o.obligationId == x {
      ObligationOrigin(obligations, list, o);
      var n :| 0 <= n < |os| && os[n] == o;
      assert ObligationIdsOf(os)[n] == x;
    }
  }
}
