/**
 How the differences between two versions of a contract are mapped to rules,
 obligations and risk directions.
 */
module VersionImpacts {
  import opened Ordering
  import opened ReviewModel

  /** The text questions that are answered by regular expressions. */
  datatype TextJudge = TextJudge(
    strip: string -> string,
    locates: (string, string) -> bool,
    payment: (string, string) -> ImpactLevel,
    liability: (string, string) -> ImpactLevel,
    liabilityCap: (string, string) -> ImpactLevel,
    delivery: (string, string) -> ImpactLevel)

  /** The sentinel that stands for "no rule could be identified". */
  const UNMAPPED: Id := 0

  // ------------------------------------------------------------ linking to rules

  predicate OccursAt(sub: string, text: string, k: nat)
  {
    k + |sub| <= |text| && text[k..k + |sub|] == sub
  }

  predicate Occurs(sub: string, text: string)
  {
    exists k: nat | k <= |text| :: OccursAt(sub, text, k)
  }

  predicate Intersects(a: seq<Id>, b: seq<Id>)
  {
    exists x :: x in a && x in b
  }

  function LinkedByFinding(core: Snapshot, change: VersionChange): set<Id>
  {
    set f | f in core.findings && Intersects(change.clauseIds, f.clauseIds) :: f.ruleId
  }

  predicate Mentions(rule: Rule, changed: string)
  {
    exists m :: m in rule.markers && m != "" && Occurs(m, changed)
  }

  function LinkedByMarker(core: Snapshot, changed: string): set<Id>
  {
    set r | r in core.rules && r.ruleId in ActiveRuleIds(core) && Mentions(r, changed) :: r.ruleId
  }

  function ChangedText(judge: TextJudge, change: VersionChange): string
  {
    judge.strip(change.baseText) + "\n" + judge.strip(change.compareText)
  }

  /** The rules a change concerns; never empty. */
  function LinkedRules(core: Snapshot, judge: TextJudge, change: VersionChange): (keys: set<Id>)
    ensures keys != {}
  {
    var byFinding := LinkedByFinding(core, change);
    if byFinding != {} then byFinding
    else
      var byMarker := LinkedByMarker(core, ChangedText(judge, change));
      if byMarker != {} then byMarker else {UNMAPPED}
  }

  /** Which rules a change concerns, as a value: what follows holds for any linking. */
  type Linking = VersionChange -> set<Id>

  function LinkingOf(core: Snapshot, judge: TextJudge): Linking
  {
    ch => LinkedRules(core, judge, ch)
  }

  function ActiveRule(rules: seq<Rule>, active: set<Id>, id: Id): Option<Rule>
  {
    if rules == [] then None
    else
      var last := rules[|rules| - 1];
      if last.ruleId == id && id in active then Some(last) else ActiveRule(rules[..|rules| - 1], active, id)
  }

  // ------------------------------------------------------------------ the drafts

  function ObligationsIn(obligations: seq<Obligation>, clauseId: Id): seq<Obligation>
  {
    if obligations == [] then []
    else
      var rest := ObligationsIn(obligations[..|obligations| - 1], clauseId);
      var last := obligations[|obligations| - 1];
      if last.clauseId == clauseId then rest + [last] else rest
  }

  function ObligationsInClauses(obligations: seq<Obligation>, clauseIds: seq<Id>): seq<Obligation>
  {
    if clauseIds == [] then []
    else ObligationsIn(obligations, clauseIds[0]) + ObligationsInClauses(obligations, clauseIds[1..])
  }

  lemma {:induction false} InClause(obligations: seq<Obligation>, clauseId: Id, o: Obligation)
    ensures o in ObligationsIn(obligations, clauseId) <==> o in obligations && o.clauseId == clauseId
  {
    if obligations != [] {
      InClause(obligations[..|obligations| - 1], clauseId, o);
      assert obligations == obligations[..|obligations| - 1] + [obligations[|obligations| - 1]];
    }
  }

  lemma {:induction false} InClauses(obligations: seq<Obligation>, clauseIds: seq<Id>, o: Obligation)
    ensures o in ObligationsInClauses(obligations, clauseIds) <==> o in obligations && o.clauseId in clauseIds
  {
    if clauseIds != [] {
      InClause(obligations, clauseIds[0], o);
      InClauses(obligations, clauseIds[1..], o);
      assert clauseIds == [clauseIds[0]] + clauseIds[1..];
    }
  }

  /** The changes that concern one rule, in order. */
  function Concerning(linked: Linking, changes: seq<VersionChange>, key: Id):
      (r: seq<VersionChange>)
    ensures forall ch :: ch in r <==> ch in changes && key in linked(ch)
  {
    if changes == [] then []
    else
      var rest := Concerning(linked, changes[..|changes| - 1], key);
      var last := changes[|changes| - 1];
      assert changes == changes[..|changes| - 1] + [last];
      if key in linked(last) then rest + [last] else rest
  }

  function LinkedKeys(linked: Linking, changes: seq<VersionChange>): (keys: set<Id>)
    ensures forall k :: k in keys <==> exists ch :: ch in changes && k in linked(ch)
  {
    if changes == [] then {}
    else
      assert changes == changes[..|changes| - 1] + [changes[|changes| - 1]];
      LinkedKeys(linked, changes[..|changes| - 1]) + linked(changes[|changes| - 1])
  }

  function EvidenceOfChanges(changes: seq<VersionChange>): seq<Id>
  {
    if changes == [] then []
    else EvidenceOfChanges(changes[..|changes| - 1]) + changes[|changes| - 1].evidenceIds
  }

  lemma {:induction false} EvidenceOrigin(changes: seq<VersionChange>, id: Id)
    ensures id in EvidenceOfChanges(changes) <==> exists ch :: ch in changes && id in ch.evidenceIds
  {
    if changes != [] {
      EvidenceOrigin(changes[..|changes| - 1], id);
      assert changes == changes[..|changes| - 1] + [changes[|changes| - 1]];
    }
  }

  function ObligationsOfChanges(obligations: seq<Obligation>, changes: seq<VersionChange>): seq<Obligation>
  {
    if changes == [] then []
    else
      ObligationsOfChanges(obligations, changes[..|changes| - 1])
        + ObligationsInClauses(obligations, changes[|changes| - 1].clauseIds)
  }

  lemma {:induction false} ObligationOrigin(obligations: seq<Obligation>, changes: seq<VersionChange>, o: Obligation)
    ensures o in ObligationsOfChanges(obligations, changes) <==>
            o in obligations && exists ch :: ch in changes && o.clauseId in ch.clauseIds
  {
    if changes != [] {
      ObligationOrigin(obligations, changes[..|changes| - 1], o);
      InClauses(obligations, changes[|changes| - 1].clauseIds, o);
      assert changes == changes[..|changes| - 1] + [changes[|changes| - 1]];
    }
  }

  function ObligationIdsOf(obligations: seq<Obligation>): (ids: seq<Id>)
    ensures |ids| == |obligations|
    ensures forall i {:trigger ids[i]} :: 0 <= i < |ids| ==> ids[i] == obligations[i].obligationId
  {
    Map((o: Obligation) => o.obligationId, obligations)
  }

  function SummariesOf(obligations: seq<Obligation>): (texts: seq<string>)
    ensures |texts| == |obligations|
    ensures forall i {:trigger texts[i]} :: 0 <= i < |texts| ==> texts[i] == obligations[i].summary
  {
    Map((o: Obligation) => o.summary, obligations)
  }

  function Befores(judge: TextJudge, changes: seq<VersionChange>): (texts: seq<string>)
    ensures |texts| == |changes|
    ensures forall i {:trigger texts[i]} :: 0 <= i < |texts| ==> texts[i] == judge.strip(changes[i].baseText)
  {
    Map((ch: VersionChange) => judge.strip(ch.baseText), changes)
  }

  function Afters(judge: TextJudge, changes: seq<VersionChange>): (texts: seq<string>)
    ensures |texts| == |changes|
    ensures forall i {:trigger texts[i]} :: 0 <= i < |texts| ==> texts[i] == judge.strip(changes[i].compareText)
  {
    Map((ch: VersionChange) => judge.strip(ch.compareText), changes)
  }

  /** What a draft remembers of a rule's checker: none at all when no active rule
      was found, as opposed to a rule without a checker. */
  datatype CheckerTag = NoRule | Tag(checker: Option<Checker>)

  datatype Draft = Draft(
    before: seq<string>, after: seq<string>, checkers: set<CheckerTag>, evidenceIds: seq<Id>,
    changeIds: seq<Id>, obligationIds: seq<Id>, changedObligations: seq<string>)

  function CheckerOf(core: Snapshot, key: Id): CheckerTag
  {
    var rule := ActiveRule(core.rules, ActiveRuleIds(core), key);
    if rule.Some? then Tag(rule.value.checker) else NoRule
  }

  function EmptyDraft(core: Snapshot, key: Id): Draft
  {
    var rule := ActiveRule(core.rules, ActiveRuleIds(core), key);
    Draft([], [], {}, [], [], [], [if rule.Some? then rule.value.obligationLabel else "unmapped"])
  }

  function Extend(core: Snapshot, judge: TextJudge, key: Id, d: Draft, change: VersionChange): Draft
  {
    var obligations := ObligationsInClauses(core.obligations, change.clauseIds);
    Draft(
      d.before + [judge.strip(change.baseText)],
      d.after + [judge.strip(change.compareText)],
      d.checkers + {CheckerOf(core, key)},
      d.evidenceIds + change.evidenceIds,
      d.changeIds + [change.changeId],
      d.obligationIds + ObligationIdsOf(obligations),
      d.changedObligations + SummariesOf(obligations))
  }

  /** What the changes concerning one rule add up to. */
  function DraftOf(core: Snapshot, judge: TextJudge, key: Id, concerning: seq<VersionChange>): Draft
  {
    var obligations := ObligationsOfChanges(core.obligations, concerning);
    Draft(
      Befores(judge, concerning), Afters(judge, concerning),
      if concerning == [] then {} else {CheckerOf(core, key)},
      EvidenceOfChanges(concerning), ChangeIds(concerning), ObligationIdsOf(obligations),
      EmptyDraft(core, key).changedObligations + SummariesOf(obligations))
  }

  lemma ObligationsStep(obligations: seq<Obligation>, front: seq<VersionChange>, change: VersionChange)
    ensures var added := ObligationsInClauses(obligations, change.clauseIds);
      var before, after := ObligationsOfChanges(obligations, front),
        ObligationsOfChanges(obligations, front + [change]);
      && ObligationIdsOf(after) == ObligationIdsOf(before) + ObligationIdsOf(added)
      && SummariesOf(after) == SummariesOf(before) + SummariesOf(added)
  {
    assert (front + [change])[..|front|] == front;
  }

  lemma TextsStep(judge: TextJudge, front: seq<VersionChange>, change: VersionChange)
    ensures Befores(judge, front + [change]) == Befores(judge, front) + [judge.strip(change.baseText)]
    ensures Afters(judge, front + [change]) == Afters(judge, front) + [judge.strip(change.compareText)]
    ensures ChangeIds(front + [change]) == ChangeIds(front) + [change.changeId]
    ensures EvidenceOfChanges(front + [change]) == EvidenceOfChanges(front) + change.evidenceIds
  {
    assert (front + [change])[..|front|] == front;
  }

  lemma DraftStep(core: Snapshot, judge: TextJudge, key: Id, front: seq<VersionChange>, change: VersionChange)
    ensures Extend(core, judge, key, DraftOf(core, judge, key, front), change)
         == DraftOf(core, judge, key, front + [change])
  {
    TextsStep(judge, front, change);
    ObligationsStep(core.obligations, front, change);
    var title := EmptyDraft(core, key).changedObligations;
    var before := SummariesOf(ObligationsOfChanges(core.obligations, front));
    var added := SummariesOf(ObligationsInClauses(core.obligations, change.clauseIds));
    assert title + (before + added) == (title + before) + added;
  }

  lemma DraftStart(core: Snapshot, judge: TextJudge, key: Id)
    ensures DraftOf(core, judge, key, []) == EmptyDraft(core, key)
  {
  }

  // ----------------------------------------------------------------- the impacts

  function Lines(texts: seq<string>): string
  {
    if texts == [] then "" else if |texts| == 1 then texts[0] else texts[0] + "\n" + Lines(texts[1..])
  }

  function Level(applies: bool, level: ImpactLevel, unmapped: bool): ImpactLevel
  {
    if applies then level else if unmapped then REQUIRES_REVIEW else UNCLEAR
  }

  function Risks(judge: TextJudge, d: Draft): RiskLevels
  {
    var before := Lines(d.before);
    var after := Lines(d.after);
    var unmapped := NoRule in d.checkers;
    var breach := Tag(Some(BreachLiability)) in d.checkers;
    RiskLevels(
      Level(Tag(Some(PaymentTerms)) in d.checkers, judge.payment(before, after), unmapped),
      Level(breach, judge.liability(before, after), unmapped),
      Level(breach, judge.liabilityCap(before, after), unmapped),
      Level(Tag(Some(DeliveryTerms)) in d.checkers || Tag(Some(AcceptanceTerms)) in d.checkers,
            judge.delivery(before, after), unmapped))
  }

  function IndexOf(s: seq<Id>, x: Id): nat
    requires x in s
  {
    if s[0] == x then 0 else 1 + IndexOf(s[1..], x)
  }

  function PrecedenceOf(core: Snapshot, c: Comparison): Precedence
  {
    var base := LastByHash(core.documents, c.baseSha256);
    var compare := LastByHash(core.documents, c.compareSha256);
    if c.baseSha256 == c.compareSha256 then NotRequired
    else if base.None? || compare.None? then Unresolved
    else if base.value.documentId !in core.precedence || compare.value.documentId !in core.precedence then Unresolved
    else if IndexOf(core.precedence, base.value.documentId) < IndexOf(core.precedence, compare.value.documentId)
      then BaseWins
    else CompareWins
  }

  function ImpactOf(core: Snapshot, judge: TextJudge, c: Comparison, key: Id, d: Draft): VersionImpact
  {
    VersionImpact(
      ImpactHash(c.comparisonId, key, SortIds(d.evidenceIds)),
      if key == UNMAPPED then None else Some(key),
      Dedup(d.changeIds), Dedup(d.obligationIds), Dedup(d.changedObligations),
      Risks(judge, d), PrecedenceOf(core, c), Dedup(d.evidenceIds))
  }

  function ImpactList(core: Snapshot, judge: TextJudge, linked: Linking, c: Comparison, changes: seq<VersionChange>,
                      keys: seq<Id>): (impacts: seq<VersionImpact>)
    ensures |impacts| == |keys|
    ensures forall i :: 0 <= i < |keys| ==>
              impacts[i] ==
                ImpactOf(core, judge, c, keys[i], DraftOf(core, judge, keys[i], Concerning(linked, changes, keys[i])))
  {
    if keys == [] then []
    else
      var k := keys[|keys| - 1];
      SnocParts(keys);
      ImpactList(core, judge, linked, c, changes, keys[..|keys| - 1])
        + [ImpactOf(core, judge, c, k, DraftOf(core, judge, k, Concerning(linked, changes, k)))]
  }

  ghost function Impacts(core: Snapshot, judge: TextJudge, linked: Linking, c: Comparison, changes: seq<VersionChange>):
      seq<VersionImpact>
  {
    ImpactList(core, judge, linked, c, changes, SortedSet(LinkedKeys(linked, changes)))
  }

  ghost function Retrigger(core: Snapshot, impacts: seq<VersionImpact>): seq<Id>
  {
    Dedup(ImpactRuleIds(impacts) +
          if HasUnmapped(impacts) then SortedSet(ActiveRuleIds(core)) else [])
  }

  function TableEntry(core: Snapshot, judge: TextJudge, linked: Linking, changes: seq<VersionChange>, key: Id): Draft
  {
    DraftOf(core, judge, key, Concerning(linked, changes, key))
  }

  lemma TableStep(core: Snapshot, judge: TextJudge, linked: Linking, changes: seq<VersionChange>, n: nat, key: Id)
    requires n < |changes|
    ensures TableEntry(core, judge, linked, changes[..n + 1], key) ==
      if key in linked(changes[n])
      then Extend(core, judge, key, TableEntry(core, judge, linked, changes[..n], key), changes[n])
      else TableEntry(core, judge, linked, changes[..n], key)
    ensures key !in LinkedKeys(linked, changes[..n]) ==>
              TableEntry(core, judge, linked, changes[..n], key) == EmptyDraft(core, key)
  {
    assert changes[..n + 1][..n] == changes[..n];
    var front := Concerning(linked, changes[..n], key);
    DraftStep(core, judge, key, front, changes[n]);
    DraftStart(core, judge, key);
    if front != [] {
      assert front[0] in front;
    }
  }

  /** One change is added to the entry of every rule it concerns. */
  method AddChange(core: Snapshot, judge: TextJudge, touched: set<Id>, change: VersionChange, table: map<Id, Draft>)
    returns (result: map<Id, Draft>)
    ensures result.Keys == table.Keys + touched
    ensures forall k :: k in result ==>
      result[k] == if k in touched then Updated(core, judge, k, Lookup(table, k), change) else table[k]
  {
    result := UpdateKeys(table, touched, (k, d) => Updated(core, judge, k, d, change));
  }

  function Updated(core: Snapshot, judge: TextJudge, key: Id, d: Option<Draft>, change: VersionChange): Draft
  {
    Extend(core, judge, key, if d.Some? then d.value else EmptyDraft(core, key), change)
  }

  lemma TableAdvances(core: Snapshot, judge: TextJudge, linked: Linking, changes: seq<VersionChange>, n: nat,
                      table: map<Id, Draft>, result: map<Id, Draft>)
    requires n < |changes|
    requires table.Keys == LinkedKeys(linked, changes[..n])
    requires forall k :: k in table ==> table[k] == TableEntry(core, judge, linked, changes[..n], k)
    requires result.Keys == table.Keys + linked(changes[n])
    requires forall k :: k in result ==>
      result[k] == if k in linked(changes[n]) then Updated(core, judge, k, Lookup(table, k), changes[n]) else table[k]
    ensures forall k :: k in result ==> result[k] == TableEntry(core, judge, linked, changes[..n + 1], k)
  {
    forall k | k in result ensures result[k] == TableEntry(core, judge, linked, changes[..n + 1], k) {
      TableStep(core, judge, linked, changes, n, k);
    }
  }

  /** The accumulation over changes and rules: one table entry per linked rule. */
  method BuildVersionImpacts(core: Snapshot, judge: TextJudge, linked: Linking, c: Comparison,
                             changes: seq<VersionChange>)
    returns (impacts: seq<VersionImpact>, retrigger: seq<Id>)
    ensures impacts == Impacts(core, judge, linked, c, changes)
    ensures retrigger == Retrigger(core, impacts)
  {
    var table: map<Id, Draft> := map[];
    for n := 0 to |changes|
      invariant table.Keys == LinkedKeys(linked, changes[..n])
      invariant forall k :: k in table ==> table[k] == TableEntry(core, judge, linked, changes[..n], k)
    {
      TakeStep(changes, n);
      var next := AddChange(core, judge, linked(changes[n]), changes[n], table);
      TableAdvances(core, judge, linked, changes, n, table, next);
      table := next;
    }
    TakeAll(changes);
    impacts := ListImpacts(core, judge, linked, c, changes, table);
    retrigger := ListRetrigger(core, impacts);
  }

  method ListRetrigger(core: Snapshot, impacts: seq<VersionImpact>) returns (retrigger: seq<Id>)
    ensures retrigger == Retrigger(core, impacts)
  {
    var extra: seq<Id> := [];
    if HasUnmapped(impacts) {
      extra := SortSet(ActiveRuleIds(core));
    }
    retrigger := Dedup(ImpactRuleIds(impacts) + extra);
  }

  method ListImpacts(core: Snapshot, judge: TextJudge, linked: Linking, c: Comparison,
                     changes: seq<VersionChange>, table: map<Id, Draft>)
    returns (impacts: seq<VersionImpact>)
    requires forall k :: k in table ==> table[k] == TableEntry(core, judge, linked, changes, k)
    ensures impacts == ImpactList(core, judge, linked, c, changes, SortedSet(table.Keys))
  {
    var keys := SortSet(table.Keys);
    SortedSetMembers(table.Keys);
    impacts := [];
    for m := 0 to |keys|
      invariant impacts == ImpactList(core, judge, linked, c, changes, keys[..m])
    {
      TakeStep(keys, m);
      assert keys[m] in keys;
      impacts := impacts + [ImpactOf(core, judge, c, keys[m], table[keys[m]])];
    }
    TakeAll(keys);
  }

  // ------------------------------------------------------------------ properties

  lemma ImpactRuleIdsStep(impacts: seq<VersionImpact>, i: VersionImpact)
    ensures ImpactRuleIds(impacts + [i]) ==
            ImpactRuleIds(impacts) + if i.ruleId.Some? then [i.ruleId.value] else []
  {
    DropSnoc(impacts, i);
  }

  /** The keys that are rules. */
  function RulesAmong(keys: seq<Id>): seq<Id>
  {
    if keys == [] then []
    else
      var front, last := RulesAmong(keys[..|keys| - 1]), keys[|keys| - 1];
      if last == UNMAPPED then front else front + [last]
  }

  lemma {:induction false} RulesAmongKeys(keys: seq<Id>)
    requires Distinct(keys)
    ensures Distinct(RulesAmong(keys))
    ensures forall x :: x in RulesAmong(keys) ==> x in keys && x != UNMAPPED
  {
    if keys != [] {
      var front, last := keys[..|keys| - 1], keys[|keys| - 1];
      SnocParts(keys);
      RulesAmongKeys(front);
      assert last !in front;
      if last != UNMAPPED {
        DistinctSnoc(RulesAmong(front), last);
      }
    }
  }

  lemma {:induction false} RuleIdsOfImpacts(core: Snapshot, judge: TextJudge, linked: Linking, c: Comparison,
                                            changes: seq<VersionChange>, keys: seq<Id>)
    ensures ImpactRuleIds(ImpactList(core, judge, linked, c, changes, keys)) == RulesAmong(keys)
  {
    if keys != [] {
      var front, last := keys[..|keys| - 1], keys[|keys| - 1];
      RuleIdsOfImpacts(core, judge, linked, c, changes, front);
      ImpactRuleIdsStep(ImpactList(core, judge, linked, c, changes, front),
        ImpactOf(core, judge, c, last, TableEntry(core, judge, linked, changes, last)));
    }
  }

  lemma LinkingKnown(core: Snapshot, judge: TextJudge, change: VersionChange)
    requires SnapshotIntegrity(core)
    ensures forall k :: k in LinkedRules(core, judge, change) && k != UNMAPPED ==> k in RuleIds(core)
  {
  }

  /** A linking names known rules and leaves no change without one. */
  ghost predicate LinkingSound(core: Snapshot, linked: Linking, changes: seq<VersionChange>)
  {
    forall ch :: ch in changes ==>
      linked(ch) != {} && forall k :: k in linked(ch) && k != UNMAPPED ==> k in RuleIds(core)
  }

  /** Nothing is lost between the changes and the impacts: every change is covered,
      and obligations and evidence come from the changes an impact names. */
  lemma ImpactsComplete(core: Snapshot, judge: TextJudge, linked: Linking, c: Comparison, changes: seq<VersionChange>)
    requires LinkingSound(core, linked, changes)
    requires forall ch :: ch in changes ==> ch.evidenceIds != []
    ensures var impacts := Impacts(core, judge, linked, c, changes);
      && ImpactsCoverChanges(changes, impacts)
      && (forall i :: i in impacts ==> Sound(core, changes, i))
  {
    var impacts := Impacts(core, judge, linked, c, changes);
    forall i | i in impacts ensures Sound(core, changes, i) && Distinct(i.changeIds) {
      var key := ImpactKey(core, judge, linked, c, changes, i);
      ImpactSound(core, judge, linked, c, changes, key);
      DedupDistinct(TableEntry(core, judge, linked, changes, key).changeIds);
    }
    forall id | id in ChangeIds(changes) ensures exists i :: i in impacts && id in i.changeIds {
      var n :| 0 <= n < |changes| && ChangeIds(changes)[n] == id;
      ImpactsCover(core, judge, linked, c, changes, changes[n]);
    }
    NoChangesNoImpacts(core, judge, linked, c, changes);
  }

  lemma ImpactKey(core: Snapshot, judge: TextJudge, linked: Linking, c: Comparison, changes: seq<VersionChange>,
                  i: VersionImpact) returns (key: Id)
    requires i in Impacts(core, judge, linked, c, changes)
    ensures key in LinkedKeys(linked, changes)
    ensures i == ImpactOf(core, judge, c, key, TableEntry(core, judge, linked, changes, key))
  {
    var keys := SortedSet(LinkedKeys(linked, changes));
    SortedSetMembers(LinkedKeys(linked, changes));
    var m :| 0 <= m < |keys| && ImpactList(core, judge, linked, c, changes, keys)[m] == i;
    key := keys[m];
    assert key in keys;
  }

  lemma NoChangesNoImpacts(core: Snapshot, judge: TextJudge, linked: Linking, c: Comparison,
                           changes: seq<VersionChange>)
    ensures changes == [] ==> Impacts(core, judge, linked, c, changes) == []
    ensures changes == [] ==> Retrigger(core, Impacts(core, judge, linked, c, changes)) == []
  {
    if changes == [] {
      var keys := SortedSet(LinkedKeys(linked, changes));
      assert |keys| == |multiset(keys)|;
    }
  }

  /** Impacts have distinct identities and name known rules, and the retrigger set is
      exactly what the audit recomputes. */
  lemma ImpactsIdentified(core: Snapshot, judge: TextJudge, linked: Linking, c: Comparison,
                          changes: seq<VersionChange>)
    requires LinkingSound(core, linked, changes)
    ensures var impacts := Impacts(core, judge, linked, c, changes);
      && (forall i, j :: 0 <= i < j < |impacts| ==> impacts[i].impactId != impacts[j].impactId)
      && Distinct(ImpactRuleIds(impacts))
      && (forall x :: x in ImpactRuleIds(impacts) ==> x in RuleIds(core))
      && Elements(Retrigger(core, impacts)) == ExpectedRetrigger(core, impacts)
      && Distinct(Retrigger(core, impacts))
  {
    var keys := SortedSet(LinkedKeys(linked, changes));
    var impacts := Impacts(core, judge, linked, c, changes);
    SortedSetDistinct(LinkedKeys(linked, changes));
    SortedSetMembers(LinkedKeys(linked, changes));
    RuleIdsOfImpacts(core, judge, linked, c, changes, keys);
    RulesAmongKeys(keys);
    forall x | x in ImpactRuleIds(impacts) ensures x in RuleIds(core) {
      var ch :| ch in changes && x in linked(ch);
    }
    forall i, j | 0 <= i < j < |impacts| ensures impacts[i].impactId != impacts[j].impactId {
      assert impacts[i].impactId.ruleKey == keys[i] && impacts[j].impactId.ruleKey == keys[j];
    }
    RetriggerExpected(core, impacts);
  }

  predicate Sound(core: Snapshot, changes: seq<VersionChange>, i: VersionImpact)
  {
    && ObligationsTouched(core, changes, i)
    && i.evidenceIds != []
    && (forall e :: e in i.evidenceIds ==> exists ch :: ch in changes && e in ch.evidenceIds)
    && (forall id :: id in i.changeIds ==> id in ChangeIds(changes))
  }

  lemma EntryCovers(core: Snapshot, judge: TextJudge, linked: Linking, c: Comparison, changes: seq<VersionChange>,
                    change: VersionChange, key: Id)
    requires change in changes && key in linked(change)
    ensures change.changeId in ImpactOf(core, judge, c, key, TableEntry(core, judge, linked, changes, key)).changeIds
  {
    var list := Concerning(linked, changes, key);
    var q :| 0 <= q < |list| && list[q] == change;
    assert ChangeIds(list)[q] == change.changeId;
  }

  lemma ImpactListed(core: Snapshot, judge: TextJudge, linked: Linking, c: Comparison, changes: seq<VersionChange>,
                     keys: seq<Id>, key: Id)
    requires key in keys
    ensures ImpactOf(core, judge, c, key, TableEntry(core, judge, linked, changes, key))
         in ImpactList(core, judge, linked, c, changes, keys)
  {
    var m :| 0 <= m < |keys| && keys[m] == key;
    assert ImpactList(core, judge, linked, c, changes, keys)[m]
        == ImpactOf(core, judge, c, key, TableEntry(core, judge, linked, changes, key));
  }

  lemma ImpactsCover(core: Snapshot, judge: TextJudge, linked: Linking, c: Comparison, changes: seq<VersionChange>,
                     change: VersionChange)
    requires change in changes && linked(change) != {}
    ensures exists i :: i in Impacts(core, judge, linked, c, changes) && change.changeId in i.changeIds
  {
    NonEmpty(linked(change));
    var key :| key in linked(change);
    SortedSetMembers(LinkedKeys(linked, changes));
    EntryCovers(core, judge, linked, c, changes, change, key);
    ImpactListed(core, judge, linked, c, changes, SortedSet(LinkedKeys(linked, changes)), key);
  }

  lemma ImpactChangesKnown(linked: Linking, changes: seq<VersionChange>, key: Id)
    ensures forall id :: id in ChangeIds(Concerning(linked, changes, key)) ==> id in ChangeIds(changes)
  {
    var list := Concerning(linked, changes, key);
    forall id | id in ChangeIds(list) ensures id in ChangeIds(changes) {
      var m :| 0 <= m < |list| && ChangeIds(list)[m] == id;
      assert list[m] in changes;
      var n :| 0 <= n < |changes| && changes[n] == list[m];
      assert ChangeIds(changes)[n] == id;
    }
  }

  lemma ImpactObligationsTouched(core: Snapshot, linked: Linking, changes: seq<VersionChange>, key: Id, id: Id)
    requires id in ObligationIdsOf(ObligationsOfChanges(core.obligations, Concerning(linked, changes, key)))
    ensures Touched(core, changes, ChangeIds(Concerning(linked, changes, key)), id)
  {
    var list := Concerning(linked, changes, key);
    var os := ObligationsOfChanges(core.obligations, list);
    var j :| 0 <= j < |os| && ObligationIdsOf(os)[j] == id;
    var o := os[j];
    assert o in os;
    ObligationOrigin(core.obligations, list, o);
    var touching :| touching in list && o.clauseId in touching.clauseIds;
    var m :| 0 <= m < |list| && list[m] == touching;
    assert ChangeIds(list)[m] == touching.changeId;
  }

  lemma TouchedAmong(core: Snapshot, changes: seq<VersionChange>, few: seq<Id>, many: seq<Id>, id: Id)
    requires Touched(core, changes, few, id)
    requires forall x :: x in few ==> x in many
    ensures Touched(core, changes, many, id)
  {
    var o, ch :| o in core.obligations && o.obligationId == id
      && ch in changes && ch.changeId in few && o.clauseId in ch.clauseIds;
    assert ch.changeId in many;
  }

  lemma ImpactEvidence(linked: Linking, changes: seq<VersionChange>, key: Id)
    requires key in LinkedKeys(linked, changes)
    requires forall ch :: ch in changes ==> ch.evidenceIds != []
    ensures var ids := EvidenceOfChanges(Concerning(linked, changes, key));
      ids != [] && forall e :: e in ids ==> exists ch :: ch in changes && e in ch.evidenceIds
  {
    var list := Concerning(linked, changes, key);
    var ch :| ch in changes && key in linked(ch);
    assert ch in list && ch.evidenceIds[0] in ch.evidenceIds;
    EvidenceOrigin(list, ch.evidenceIds[0]);
    forall e | e in EvidenceOfChanges(list) ensures exists ch :: ch in changes && e in ch.evidenceIds {
      EvidenceOrigin(list, e);
    }
  }

  lemma ImpactSound(core: Snapshot, judge: TextJudge, linked: Linking, c: Comparison, changes: seq<VersionChange>,
                    key: Id)
    requires key in LinkedKeys(linked, changes)
    requires forall ch :: ch in changes ==> ch.evidenceIds != []
    ensures Sound(core, changes, ImpactOf(core, judge, c, key, TableEntry(core, judge, linked, changes, key)))
  {
    var list := Concerning(linked, changes, key);
    var i := ImpactOf(core, judge, c, key, DraftOf(core, judge, key, list));
    ImpactEvidence(linked, changes, key);
    ImpactChangesKnown(linked, changes, key);
    forall id | id in i.obligationIds ensures Touched(core, changes, i.changeIds, id) {
      ImpactObligationsTouched(core, linked, changes, key, id);
      TouchedAmong(core, changes, ChangeIds(list), i.changeIds, id);
    }
  }

  lemma RetriggerExpected(core: Snapshot, impacts: seq<VersionImpact>)
    ensures Elements(Retrigger(core, impacts)) == ExpectedRetrigger(core, impacts)
    ensures Distinct(Retrigger(core, impacts))
  {
    var extra := if HasUnmapped(impacts) then SortedSet(ActiveRuleIds(core)) else [];
    DedupDistinct(ImpactRuleIds(impacts) + extra);
    DedupElements(ImpactRuleIds(impacts), extra);
    SortedSetMembers(ActiveRuleIds(core));
  }
}
