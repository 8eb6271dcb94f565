/**
 The deterministic rule engine: one finding for each selected rule, and nothing decided
 automatically without accepted evidence.
 */
module RuleEngine {
  import opened Collecting
  import opened Ordering
  import opened EvidenceGate
  import opened RuleCheckers
  import Applicability

  // ------------------------------------------------------------------------- findings

  datatype Method = Classification | Keyword | Visual | OtherMethod

  datatype Rule = Rule(
    id: Id, checkMethod: Method, evidence: Id, checker: Option<Checker>, policy: Policy, requiredKinds: set<Kind>)

  datatype Finding = Finding(
    ruleId: Id, status: Status, quality: Quality, automatic: bool, confidence: Option<real>, evidenceIds: seq<Id>,
    factIds: seq<Id>)

  datatype PlaybookOutcome = PlaybookOutcome(status: Status, evidenceIds: seq<Id>, confidence: Option<real>)

  /** The parts of a run that are decided elsewhere: applicability, playbook positions, the
      expected tax rate, what is found in texts, and which candidate's text contains a rule's
      title. */
  datatype Setting = Setting(
    verdict: Rule -> Applicability.Verdict, playbook: (Rule, Scope) -> Option<PlaybookOutcome>,
    expectedRate: Rule -> Option<real>, texts: Rule -> Texts, mentions: Rule -> Candidate -> bool)

  datatype Run = Run(
    packageEvidence: Id, candidates: map<Id, seq<Candidate>>, assessments: seq<Assessment>, facts: seq<Fact>,
    references: seq<Reference>, documents: nat, allParsed: bool, contractType: Option<Fact>, visual: seq<Id>)

  /** _finding: quality and automation default by status; a finding must cite something. */
  function Found(rule: Rule, status: Status, cited: seq<Id>, confidence: Option<real>,
                 quality: Option<Quality>, automatic: Option<bool>, factIds: seq<Id>): Option<Finding>
  {
    if cited == [] then None
    else
      Some(Finding(rule.id, status,
        if quality.Some? then quality.value else if status.Undetermined? then Poor else Sufficient,
        if automatic.Some? then automatic.value else Decides(status), confidence, Dedup(cited), factIds))
  }

  /** The candidates of a rule that the deterministic gate accepted. */
  function RuleCandidates(run: Run, ruleId: Id): seq<Candidate>
  {
    if ruleId !in run.candidates then []
    else
      var accepted := Accepted(run.candidates[ruleId], run.assessments);
      if accepted.Some? then accepted.value else []
  }

  predicate Backed(candidates: seq<Candidate>, f: Fact) { exists c :: c in candidates && c.id in f.candidateIds }

  predicate BackedReference(candidates: seq<Candidate>, r: Reference)
  {
    exists c :: c in candidates && c.id in r.candidateIds
  }

  function ScopeOf(st: Setting, run: Run, rule: Rule): Scope
  {
    var candidates := RuleCandidates(run, rule.id);
    Scope(rule.evidence, run.packageEvidence, Collect((f: Fact) => Kept(Backed(candidates, f), f), run.facts),
          Collect((r: Reference) => Kept(BackedReference(candidates, r), r), run.references), candidates, run.documents,
          run.allParsed, rule.policy, st.expectedRate(rule), rule.requiredKinds, st.texts(rule))
  }

  /** What the rule's checker asks for, when it has one. */
  function RequestFor(st: Setting, run: Run, rule: Rule): Option<Request>
  {
    if rule.checker.Some? then RunChecker(rule.checker.value, ScopeOf(st, run, rule)) else None
  }

  /** All evidence of a rule's candidates, accepted or not. */
  function RawEvidence(run: Run, ruleId: Id): seq<Id>
  {
    if ruleId in run.candidates then Dedup(Flatten(Map(EvidenceOf, run.candidates[ruleId]))) else []
  }

  function Classify(st: Setting, run: Run, rule: Rule): Option<Finding>
  {
    if run.contractType.None? then
      Found(rule, Undetermined, [rule.evidence, run.packageEvidence], Some(0.0), Some(Poor), Some(false), [])
    else
      var fact := run.contractType.value;
      var status := if st.verdict(rule).Required? || st.verdict(rule).ExpectedValue? then Pass else NotApplicable;
      Found(rule, status, [rule.evidence] + fact.evidenceIds, fact.confidence, Some(Sufficient), Some(true), [fact.id])
  }

  function CheckKeyword(st: Setting, run: Run, rule: Rule): Option<Finding>
  {
    var found := Matches(RuleCandidates(run, rule.id), st.mentions(rule));
    var basis := [rule.evidence, run.packageEvidence];
    if !run.allParsed then Found(rule, Undetermined, basis, Some(0.0), Some(Poor), Some(false), [])
    else if found != [] then Found(rule, Warn, [rule.evidence] + found, Some(1.0), Some(Sufficient), Some(true), [])
    else Found(rule, Undetermined, basis + RawEvidence(run, rule.id), Some(0.0), Some(Poor), Some(false), [])
  }

  function FallBack(run: Run, rule: Rule): Option<Finding>
  {
    var raw := RawEvidence(run, rule.id);
    if rule.checkMethod.Visual? && run.visual != [] then
      Found(rule, Undetermined, [rule.evidence, run.packageEvidence] + raw + run.visual, Some(0.0), None, None, [])
    else Found(rule, Undetermined, [rule.evidence, run.packageEvidence] + raw, Some(0.0), Some(Poor), Some(false), [])
  }

  function FindingFor(st: Setting, run: Run, rule: Rule): Option<Finding>
  {
    var verdict := st.verdict(rule);
    var scope := ScopeOf(st, run, rule);
    if verdict.NotApplicable? then Found(rule, NotApplicable, [rule.evidence], Some(1.0), None, None, [])
    else if verdict.Unknown? || verdict.Unspecified? then
      Found(rule, Undetermined, [rule.evidence, run.packageEvidence], Some(0.0), None, None, [])
    else
      var playbook := st.playbook(rule, scope);
      if playbook.Some? then
        Found(rule, playbook.value.status, playbook.value.evidenceIds, playbook.value.confidence,
          Some(if playbook.value.status.Undetermined? then Poor else Sufficient),
          Some(Decides(playbook.value.status)), [])
      else if rule.checkMethod.Classification? then Classify(st, run, rule)
      else
        var request := RequestFor(st, run, rule);
        if request.Some? then
          var r := BaseResult(scope, request.value);
          Found(rule, r.status, r.evidenceIds, r.confidence, Some(r.quality), Some(r.automatic), r.factIds)
        else if rule.checkMethod.Keyword? then CheckKeyword(st, run, rule)
        else FallBack(run, rule)
  }

  // ------------------------------------------------------------------------- execution

  function SelectedRules(rules: seq<Rule>, selected: set<Id>): seq<Rule>
  {
    Collect((r: Rule) => Kept(r.id in selected, r), rules)
  }

  /** The inputs fit together: known rules, candidates for exactly the applicable rules,
      assessments for exactly the candidates, and all of them consistent. */
  predicate Supplied(st: Setting, run: Run, rules: seq<Rule>, selected: set<Id>)
  {
    && selected <= (set r | r in rules :: r.id)
    && run.candidates.Keys == (set r | r in rules && r.id in selected && !st.verdict(r).NotApplicable? :: r.id)
    && (forall x | x in run.candidates :: forall c | c in run.candidates[x] :: c.identity.ruleId == x)
    && UniqueAssessments(run.assessments)
    && (set a | a in run.assessments :: a.candidateId) ==
      (set x, c | x in run.candidates && c in run.candidates[x] :: c.id)
    && (forall x | x in run.candidates :: Accepted(run.candidates[x], run.assessments).Some?)
  }

  predicate AllFound(st: Setting, run: Run, rules: seq<Rule>)
  {
    forall i :: 0 <= i < |rules| ==> FindingFor(st, run, rules[i]).Some?
  }

  /** execute_rule_bundle: one loop, one finding for each selected rule in bundle order, or
      an error when the inputs do not fit or a finding would cite nothing. */
  method ExecuteRuleBundle(st: Setting, run: Run, rules: seq<Rule>, selected: set<Id>)
    returns (findings: Option<seq<Finding>>)
    ensures findings.Some? <==> Supplied(st, run, rules, selected) && AllFound(st, run, SelectedRules(rules, selected))
    ensures findings.Some? ==> |findings.value| == |SelectedRules(rules, selected)|
    ensures findings.Some? ==> forall i :: 0 <= i < |findings.value| ==>
      FindingFor(st, run, SelectedRules(rules, selected)[i]) == Some(findings.value[i])
    ensures findings.Some? ==> forall i :: 0 <= i < |findings.value| ==>
      Sound(st, run, SelectedRules(rules, selected)[i], findings.value[i])
  {
    hide Supplied;
    if !Supplied(st, run, rules, selected) { return None; }
    hide FindingFor;
    var done: seq<Finding> := [];
    ghost var f := (r: Rule) => Kept(r.id in selected, r);
    for i := 0 to |rules|
      invariant |done| == |Collect(f, rules[..i])|
      invariant forall k :: 0 <= k < |done| ==> FindingFor(st, run, Collect(f, rules[..i])[k]) == Some(done[k])
    {
      TakeStep(rules, i);
      DropSnoc(rules[..i], rules[i]);
      if rules[i].id !in selected { continue; }
      var finding := FindingFor(st, run, rules[i]);
      if finding.None? {
        SelectedAt(rules, selected, i);
        return None;
      }
      done := done + [finding.value];
    }
    TakeAll(rules);
    forall i | 0 <= i < |done| ensures Sound(st, run, SelectedRules(rules, selected)[i], done[i]) {
      FindingIsSound(st, run, SelectedRules(rules, selected)[i]);
    }
    findings := Some(done);
  }

  lemma SelectedAt(rules: seq<Rule>, selected: set<Id>, i: nat)
    requires i < |rules| && rules[i].id in selected
    ensures exists k :: 0 <= k < |SelectedRules(rules, selected)| && SelectedRules(rules, selected)[k] == rules[i]
  {
    CollectMembers((r: Rule) => Kept(r.id in selected, r), rules);
    assert rules[i] in rules;
    assert rules[i] in SelectedRules(rules, selected);
  }

  lemma ScopeFacts(st: Setting, run: Run, rule: Rule)
    ensures forall f :: f in ScopeOf(st, run, rule).facts <==> f in run.facts && Backed(RuleCandidates(run, rule.id), f)
  {
    var candidates := RuleCandidates(run, rule.id);
    CollectMembers((f: Fact) => Kept(Backed(candidates, f), f), run.facts);
  }

  /** A fact that may support an automatic finding: confident, and backed by a candidate that
      the gate accepted for the rule. */
  predicate Supports(run: Run, rule: Rule, f: Fact)
  {
    f in run.facts && Confident(f) && Backed(RuleCandidates(run, rule.id), f)
  }

  /** What an automatic finding may cite: the rule, the package, evidence made for a missing
      term, and evidence of accepted candidates or of the supporting facts it names. */
  ghost predicate Justified(st: Setting, run: Run, rule: Rule, factIds: seq<Id>, e: Id)
  {
    || e == rule.evidence || e == run.packageEvidence || (exists k :: st.texts(rule).missing(k) == e)
    || (exists c :: c in RuleCandidates(run, rule.id) && e in c.evidenceIds)
    || (exists f :: Supports(run, rule, f) && f.id in factIds && e in f.evidenceIds)
  }

  ghost predicate Accounted(st: Setting, run: Run, rule: Rule, f: Finding)
  {
    && (forall x :: x in f.factIds ==> exists y :: Supports(run, rule, y) && y.id == x)
    && (forall e :: e in f.evidenceIds ==> Justified(st, run, rule, f.factIds, e))
  }

  predicate Open(v: Applicability.Verdict) { v.Unknown? || v.Unspecified? }

  predicate Unchecked(st: Setting, run: Run, rule: Rule)
  {
    && st.playbook(rule, ScopeOf(st, run, rule)).None? && RequestFor(st, run, rule).None?
    && (rule.checkMethod.Visual? || rule.checkMethod.OtherMethod?)
  }

  /** Fail closed: what every finding of the engine keeps to. */
  ghost predicate Sound(st: Setting, run: Run, rule: Rule, f: Finding)
  {
    && f.ruleId == rule.id && f.evidenceIds != []
    && (f.automatic ==> f.quality == Sufficient && !f.status.Undetermined?)
    && (st.verdict(rule).NotApplicable? ==> f.status == NotApplicable && !f.automatic)
    && (Open(st.verdict(rule)) ==> f.status == Undetermined)
    && (!st.verdict(rule).NotApplicable? && Unchecked(st, run, rule) ==> f.status == Undetermined)
    && (f.automatic && st.playbook(rule, ScopeOf(st, run, rule)).None? && !rule.checkMethod.Classification? ==>
          Accounted(st, run, rule, f))
  }

  lemma CitedFrom(scope: Scope, r: Request, e: Id)
    requires e in BaseResult(scope, r).evidenceIds
    ensures e == scope.ruleEvidence || e == scope.packageEvidence || e in r.textual || e in r.made
      || exists f :: f in r.facts && e in f.evidenceIds
  {
    var parts := Map(FactEvidence, r.facts);
    FlattenMembers(parts);
    assert e in RuleCheckers.Cited(scope, r);
    if e in Flatten(parts) {
      var i :| 0 <= i < |parts| && e in parts[i];
      assert r.facts[i] in r.facts && e in r.facts[i].evidenceIds;
    }
  }

  /** An automatic result of a disciplined request rests on accepted evidence only. */
  lemma CheckerFindingIsJustified(st: Setting, run: Run, rule: Rule, r: Request, f: Finding)
    requires Disciplined(ScopeOf(st, run, rule), r) && BaseResult(ScopeOf(st, run, rule), r).automatic
    requires f.evidenceIds == Dedup(BaseResult(ScopeOf(st, run, rule), r).evidenceIds)
    requires f.factIds == Map(FactId, r.facts)
    ensures Accounted(st, run, rule, f)
  {
    var scope := ScopeOf(st, run, rule);
    AutomaticIsConfident(scope, r);
    ScopeFacts(st, run, rule);
    assert !r.status.Undetermined?;
    hide BaseResult, RuleCandidates;
    assert forall y :: y in r.facts ==> Supports(run, rule, y);
    forall x | x in f.factIds ensures exists y :: Supports(run, rule, y) && y.id == x {
      var i :| 0 <= i < |f.factIds| && f.factIds[i] == x;
      assert r.facts[i] in r.facts;
    }
    forall e | e in f.evidenceIds ensures Justified(st, run, rule, f.factIds, e) {
      CitedFrom(scope, r, e);
      if y :| y in r.facts && e in y.evidenceIds { NamedFact(r.facts, y); }
      if e in r.textual { assert FromCandidates(scope, e); }
      if e in r.made { assert MadeForTerm(scope, e); }
    }
  }

  lemma NamedFact(facts: seq<Fact>, f: Fact)
    requires f in facts
    ensures f.id in Map(FactId, facts)
  {
    var i :| 0 <= i < |facts| && facts[i] == f;
    assert Map(FactId, facts)[i] == f.id;
  }

  /** The same for keywords: a warning cites accepted candidates whose text has the keyword. */
  lemma KeywordFindingIsJustified(st: Setting, run: Run, rule: Rule, f: Finding)
    requires CheckKeyword(st, run, rule) == Some(f) && f.automatic
    ensures f.status == Warn && f.quality == Sufficient && run.allParsed && Accounted(st, run, rule, f)
    ensures exists c :: c in RuleCandidates(run, rule.id) && c.isContract && st.mentions(rule)(c)
  {
    hide Matches, RuleCandidates, RawEvidence;
    var candidates, mentions := RuleCandidates(run, rule.id), st.mentions(rule);
    var found := Matches(candidates, mentions);
    MatchesAre(candidates, mentions);
    assert found != [] && f.evidenceIds == Dedup([rule.evidence] + found);
    var first := found[0];
    assert first in Matches(candidates, mentions);
    var c :| c in candidates && c.isContract && mentions(c) && first in c.evidenceIds;
    forall e | e in f.evidenceIds ensures Justified(st, run, rule, f.factIds, e) {
      assert e in [rule.evidence] + found;
    }
  }

  /** Every finding keeps to it, for every rule, setting and run. */
  lemma FindingIsSound(st: Setting, run: Run, rule: Rule)
    requires FindingFor(st, run, rule).Some?
    ensures Sound(st, run, rule, FindingFor(st, run, rule).value)
  {
    hide ScopeOf, RuleCandidates, RawEvidence, RunChecker, CheckKeyword, BaseResult, Accounted;
    var f := FindingFor(st, run, rule).value;
    var scope := ScopeOf(st, run, rule);
    var request := RequestFor(st, run, rule);
    if request.Some? {
      CheckersAreDisciplined(rule.checker.value, scope);
      ResultIsSound(scope, request.value);
      if BaseResult(scope, request.value).automatic && f.factIds == BaseResult(scope, request.value).factIds
        && f.evidenceIds == Dedup(BaseResult(scope, request.value).evidenceIds)
      {
        ResultFacts(scope, request.value);
        CheckerFindingIsJustified(st, run, rule, request.value, f);
      }
    }
    KeywordShape(st, run, rule);
    if CheckKeyword(st, run, rule) == Some(f) && f.automatic { KeywordFindingIsJustified(st, run, rule, f); }
  }

  lemma ResultIsSound(scope: Scope, r: Request)
    requires Disciplined(scope, r)
    ensures BaseResult(scope, r).automatic ==>
      BaseResult(scope, r).quality == Sufficient && !BaseResult(scope, r).status.Undetermined?
  {
    if BaseResult(scope, r).automatic { AutomaticIsConfident(scope, r); }
  }

  lemma ResultFacts(scope: Scope, r: Request)
    ensures BaseResult(scope, r).factIds == Map(FactId, r.facts)
  {
  }

  lemma KeywordShape(st: Setting, run: Run, rule: Rule)
    ensures var k := CheckKeyword(st, run, rule);
      k.Some? && k.value.ruleId == rule.id && k.value.evidenceIds != []
      && (k.value.automatic ==> k.value.quality == Sufficient && !k.value.status.Undetermined?)
  {
    hide Matches, RuleCandidates, RawEvidence;
  }

  /** Exactly one finding per selected rule, in the order of the bundle. */
  lemma OneFindingEach(st: Setting, run: Run, rules: seq<Rule>, selected: set<Id>, findings: seq<Finding>)
    requires |findings| == |SelectedRules(rules, selected)|
    requires forall i :: 0 <= i < |findings| ==>
      FindingFor(st, run, SelectedRules(rules, selected)[i]) == Some(findings[i])
    ensures forall i :: 0 <= i < |findings| ==> findings[i].ruleId == SelectedRules(rules, selected)[i].id
    ensures forall r :: r in SelectedRules(rules, selected) <==> r in rules && r.id in selected
  {
    hide FindingFor;
    forall i | 0 <= i < |findings| ensures findings[i].ruleId == SelectedRules(rules, selected)[i].id {
      FindingIsSound(st, run, SelectedRules(rules, selected)[i]);
    }
    CollectMembers((r: Rule) => Kept(r.id in selected, r), rules);
  }

  /** A rule that the engine classifies: it applies and no playbook decides it. */
  predicate Classified(st: Setting, run: Run, rule: Rule)
  {
    && !st.verdict(rule).NotApplicable? && !Open(st.verdict(rule)) && rule.checkMethod.Classification?
    && st.playbook(rule, ScopeOf(st, run, rule)).None?
  }

  /** When classification keeps to the rule of the other branches: its finding is automatic
      exactly when there is a contract type, and accounted for exactly when that fact is
      confident and backed by a candidate that the gate accepted for the rule. */
  lemma ClassificationIff(st: Setting, run: Run, rule: Rule)
    requires Classified(st, run, rule)
    requires run.contractType.Some? ==>
      forall f :: f in run.facts && f.id == run.contractType.value.id ==> f == run.contractType.value
    ensures FindingFor(st, run, rule).Some?
    ensures FindingFor(st, run, rule).value.automatic <==> run.contractType.Some?
    ensures run.contractType.Some? ==> (Accounted(st, run, rule, FindingFor(st, run, rule).value) <==>
      Supports(run, rule, run.contractType.value))
  {
    hide ScopeOf, RuleCandidates, Confident;
    var f := FindingFor(st, run, rule).value;
    if run.contractType.Some? {
      var fact := run.contractType.value;
      assert fact.id in f.factIds && forall x :: x in f.factIds ==> x == fact.id;
      forall e | e in f.evidenceIds ensures e == rule.evidence || e in fact.evidenceIds {
        assert e in [rule.evidence] + fact.evidenceIds;
      }
    }
  }

  /** An input that the engine accepts and that fails it: a contract type of confidence 0.1
      which nothing backs is passed automatically. */
  lemma ClassificationSkipsTheGate(st: Setting, run: Run, rule: Rule, fact: Fact)
    requires Classified(st, run, rule) && st.verdict(rule).Required?
    requires run.candidates == map[rule.id := []] && run.assessments == []
    requires run.facts == [fact] && run.contractType == Some(fact) && fact.confidence == Some(0.1)
    ensures Supplied(st, run, [rule], {rule.id}) && AllFound(st, run, [rule])
    ensures SelectedRules([rule], {rule.id}) == [rule]
    ensures var f := FindingFor(st, run, rule).value;
      f.status == Pass && f.automatic && f.factIds == [fact.id] && !Accounted(st, run, rule, f)
  {
    ClassificationIff(st, run, rule);
    assert RuleCandidates(run, rule.id) == [];
    NothingSupplied(st, run, rule);
    OnlySelected(rule, {rule.id});
  }

  lemma OnlySelected(rule: Rule, selected: set<Id>)
    requires rule.id in selected
    ensures SelectedRules([rule], selected) == [rule]
  {
    var f := (r: Rule) => Kept(r.id in selected, r);
    assert [rule][..0] == [] && f(rule) == Some(rule);
    assert Collect(f, [rule]) == [rule];
  }

  lemma NothingSupplied(st: Setting, run: Run, rule: Rule)
    requires run.candidates == map[rule.id := []] && run.assessments == [] && !st.verdict(rule).NotApplicable?
    ensures Supplied(st, run, [rule], {rule.id})
  {
    assert rule in [rule];
    assert Accepted([], []).Some?;
  }
}
