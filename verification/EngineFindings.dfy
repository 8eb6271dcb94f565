/** The finding of every route through the rule engine, field by field. */
module EngineFindings {
  import opened Collecting
  import opened EvidenceGate
  import opened Ordering
  import opened RuleCheckers
  import opened RuleEngine
  import Applicability
  import GateDecisions

  /** The finding cites exactly the evidence for which `cited` holds. */
  ghost predicate CitesExactly(f: Finding, cited: Id -> bool)
  {
    f.evidenceIds != [] && Distinct(f.evidenceIds) && forall e :: e in f.evidenceIds <==> cited(e)
  }

  lemma FoundCites(rule: Rule, status: Status, cited: seq<Id>, confidence: Option<real>, quality: Option<Quality>,
                   automatic: Option<bool>, factIds: seq<Id>)
    requires cited != []
    ensures Found(rule, status, cited, confidence, quality, automatic, factIds).Some?
    ensures CitesExactly(Found(rule, status, cited, confidence, quality, automatic, factIds).value,
      (e: Id) => e in cited)
  {
    DedupDistinct(cited);
  }

  /** Nothing was decided: undetermined, of insufficient quality and not automatic. */
  ghost predicate LeftOpen(f: Finding, rule: Rule)
  {
    && f.ruleId == rule.id && f.status == Undetermined && f.quality == Poor && !f.automatic
    && f.confidence == Some(0.0) && f.factIds == []
  }

  /** Decided without a person, on evidence of sufficient quality. */
  ghost predicate DecidedAs(f: Finding, rule: Rule, status: Status)
  {
    f.ruleId == rule.id && f.status == status && f.quality == Sufficient && f.automatic
  }

  /** Evidence of some candidate of the rule, accepted or not. */
  ghost predicate Retrieved(run: Run, rule: Rule, e: Id)
  {
    rule.id in run.candidates && exists c :: c in run.candidates[rule.id] && e in c.evidenceIds
  }

  lemma RawEvidenceIs(run: Run, rule: Rule)
    ensures forall e :: e in RawEvidence(run, rule.id) <==> Retrieved(run, rule, e)
  {
    if rule.id in run.candidates {
      var candidates := run.candidates[rule.id];
      var parts := Map(EvidenceOf, candidates);
      FlattenMembers(parts);
      forall e ensures e in RawEvidence(run, rule.id) <==> Retrieved(run, rule, e) {
        if i :| 0 <= i < |parts| && e in parts[i] { assert candidates[i] in candidates; }
        if c :| c in candidates && e in c.evidenceIds {
          var i :| 0 <= i < |candidates| && candidates[i] == c;
          assert e in parts[i];
        }
      }
    }
  }

  /** A rule that does not apply is recorded as such on its own evidence, and not
      automatically; one whose applicability is open stays undetermined. */
  lemma InapplicableFinding(st: Setting, run: Run, rule: Rule)
    ensures st.verdict(rule) == Applicability.NotApplicable ==>
      FindingFor(st, run, rule) ==
        Some(Finding(rule.id, NotApplicable, Sufficient, false, Some(1.0), [rule.evidence], []))
    ensures st.verdict(rule) == Applicability.Unknown || st.verdict(rule) == Applicability.Unspecified ==>
      && FindingFor(st, run, rule).Some? && LeftOpen(FindingFor(st, run, rule).value, rule)
      && CitesExactly(FindingFor(st, run, rule).value, (e: Id) => e == rule.evidence || e == run.packageEvidence)
  {
    hide ScopeOf, RequestFor, Classify, CheckKeyword, FallBack;
    assert Dedup([rule.evidence]) == [rule.evidence] by { DedupOfDistinct([rule.evidence]); }
    FoundCites(rule, Undetermined, [rule.evidence, run.packageEvidence], Some(0.0), None, None, []);
  }

  predicate Applies(v: Applicability.Verdict)
  {
    v != Applicability.NotApplicable && v != Applicability.Unknown && v != Applicability.Unspecified
  }

  /** A playbook position decides an applicable rule: its status, confidence and evidence are
      taken over, it is automatic unless undetermined or not applicable, and without evidence
      the execution fails. */
  lemma PlaybookFinding(st: Setting, run: Run, rule: Rule)
    requires Applies(st.verdict(rule)) && st.playbook(rule, ScopeOf(st, run, rule)).Some?
    ensures var p := st.playbook(rule, ScopeOf(st, run, rule)).value;
      var f := FindingFor(st, run, rule);
      && (f.Some? <==> p.evidenceIds != [])
      && (f.Some? ==>
           && f.value.ruleId == rule.id && f.value.status == p.status && f.value.confidence == p.confidence
           && (f.value.quality == Sufficient <==> p.status != Undetermined) && f.value.factIds == []
           && (f.value.automatic <==> p.status == Pass || p.status == Warn || p.status == Block)
           && CitesExactly(f.value, (e: Id) => e in p.evidenceIds))
  {
    hide ScopeOf, RequestFor, Classify, CheckKeyword, FallBack;
    var p := st.playbook(rule, ScopeOf(st, run, rule)).value;
    if p.evidenceIds != [] {
      FoundCites(rule, p.status, p.evidenceIds, p.confidence, Some(if p.status.Undetermined? then Poor else Sufficient),
        Some(Decides(p.status)), []);
    }
  }

  /** No playbook position decides the rule. */
  predicate Unplayed(st: Setting, run: Run, rule: Rule)
  {
    Applies(st.verdict(rule)) && st.playbook(rule, ScopeOf(st, run, rule)).None?
  }

  /** A classification rule passes when it is required and is not applicable otherwise, on the
      word of the contract type; without a contract type it stays open. */
  lemma ClassificationFinding(st: Setting, run: Run, rule: Rule)
    requires Unplayed(st, run, rule) && rule.checkMethod == Classification
    ensures FindingFor(st, run, rule).Some?
    ensures var f := FindingFor(st, run, rule).value;
      && (run.contractType.None? ==> LeftOpen(f, rule))
      && (run.contractType.None? ==> CitesExactly(f, (e: Id) => e == rule.evidence || e == run.packageEvidence))
      && (run.contractType.Some? ==>
            && (st.verdict(rule) == Applicability.Required ==> DecidedAs(f, rule, Pass))
            && (st.verdict(rule) == Applicability.ExpectedValue ==> DecidedAs(f, rule, Pass))
            && (st.verdict(rule) != Applicability.Required && st.verdict(rule) != Applicability.ExpectedValue ==>
                  DecidedAs(f, rule, NotApplicable))
            && f.confidence == run.contractType.value.confidence && f.factIds == [run.contractType.value.id]
            && CitesExactly(f, (e: Id) => e == rule.evidence || e in run.contractType.value.evidenceIds))
  {
    hide ScopeOf, RequestFor, CheckKeyword, FallBack;
    FoundCites(rule, Undetermined, [rule.evidence, run.packageEvidence], Some(0.0), Some(Poor), Some(false), []);
    if run.contractType.Some? {
      var fact := run.contractType.value;
      var status := FindingFor(st, run, rule).value.status;
      FoundCites(rule, status, [rule.evidence] + fact.evidenceIds, fact.confidence, Some(Sufficient), Some(true),
        [fact.id]);
    }
  }

  /** No checker decides the rule either. */
  predicate Undecided(st: Setting, run: Run, rule: Rule)
  {
    Unplayed(st, run, rule) && rule.checkMethod != Classification && RequestFor(st, run, rule).None?
  }

  /** A candidate of the rule that the gate accepted and that mentions the rule's title. */
  ghost predicate Mentioned(st: Setting, run: Run, rule: Rule, c: Candidate)
  {
    c in RuleCandidates(run, rule.id) && c.isContract && st.mentions(rule)(c)
  }

  /** Evidence of such a candidate. */
  ghost predicate MentionedIn(st: Setting, run: Run, rule: Rule, e: Id)
  {
    exists c :: Mentioned(st, run, rule, c) && e in c.evidenceIds
  }

  /** A keyword rule warns on the evidence of accepted candidates that mention its title; it
      stays open when none cites evidence or some document was not parsed. */
  lemma KeywordFinding(st: Setting, run: Run, rule: Rule)
    requires Undecided(st, run, rule) && rule.checkMethod == Keyword
    ensures FindingFor(st, run, rule).Some?
    ensures var f := FindingFor(st, run, rule).value;
      var mentioned := exists e :: MentionedIn(st, run, rule, e);
      && (run.allParsed && mentioned ==> DecidedAs(f, rule, Warn) && f.confidence == Some(1.0) && f.factIds == [])
      && (run.allParsed && mentioned ==> forall e :: e in f.evidenceIds <==>
            e == rule.evidence || MentionedIn(st, run, rule, e))
      && (!run.allParsed || !mentioned ==> LeftOpen(f, rule))
      && (!run.allParsed ==> CitesExactly(f, (e: Id) => e == rule.evidence || e == run.packageEvidence))
      && (run.allParsed && !mentioned ==> forall e :: e in f.evidenceIds <==>
            e == rule.evidence || e == run.packageEvidence || Retrieved(run, rule, e))
  {
    KeywordRoute(st, run, rule);
    MentionedIs(st, run, rule);
    RawEvidenceIs(run, rule);
    KeywordCites(st, run, rule);
    hide *;
  }

  lemma KeywordRoute(st: Setting, run: Run, rule: Rule)
    requires Undecided(st, run, rule) && rule.checkMethod == Keyword
    ensures FindingFor(st, run, rule) == CheckKeyword(st, run, rule)
  {
    hide RuleCandidates, RequestFor, Classify, CheckKeyword, FallBack, ScopeOf;
  }

  lemma MentionedIs(st: Setting, run: Run, rule: Rule)
    ensures var found := Matches(RuleCandidates(run, rule.id), st.mentions(rule));
      && (found != [] <==> exists e :: MentionedIn(st, run, rule, e))
      && (forall e :: e in found <==> MentionedIn(st, run, rule, e))
  {
    hide *;
    var found := Matches(RuleCandidates(run, rule.id), st.mentions(rule));
    forall e ensures e in found <==> MentionedIn(st, run, rule, e) { MentionedAt(st, run, rule, e); }
    if found != [] { assert found[0] in found && MentionedIn(st, run, rule, found[0]); }
    if e :| MentionedIn(st, run, rule, e) { assert e in found && found != []; }
    assert found != [] <==> exists e :: MentionedIn(st, run, rule, e);
  }

  lemma MentionedAt(st: Setting, run: Run, rule: Rule, e: Id)
    ensures e in Matches(RuleCandidates(run, rule.id), st.mentions(rule)) <==> MentionedIn(st, run, rule, e)
  {
    hide Matches, RuleCandidates;
    var candidates, mentions := RuleCandidates(run, rule.id), st.mentions(rule);
    MatchesAre(candidates, mentions);
    if e in Matches(candidates, mentions) {
      var c :| c in candidates && c.isContract && mentions(c) && e in c.evidenceIds;
      assert Mentioned(st, run, rule, c);
    }
  }

  lemma KeywordCites(st: Setting, run: Run, rule: Rule)
    ensures CheckKeyword(st, run, rule).Some?
    ensures var f := CheckKeyword(st, run, rule).value;
      var found := Matches(RuleCandidates(run, rule.id), st.mentions(rule));
      && (run.allParsed && found != [] ==> DecidedAs(f, rule, Warn) && f.confidence == Some(1.0) && f.factIds == [])
      && (run.allParsed && found != [] ==> forall e :: e in f.evidenceIds <==> e == rule.evidence || e in found)
      && (!run.allParsed || found == [] ==> LeftOpen(f, rule))
      && (!run.allParsed ==> CitesExactly(f, (e: Id) => e == rule.evidence || e == run.packageEvidence))
      && (run.allParsed && found == [] ==> forall e :: e in f.evidenceIds <==>
            e == rule.evidence || e == run.packageEvidence || e in RawEvidence(run, rule.id))
  {
    hide RuleCandidates, Matches, RawEvidence, Dedup;
    var found := Matches(RuleCandidates(run, rule.id), st.mentions(rule));
    var basis := [rule.evidence, run.packageEvidence];
    FoundCites(rule, Undetermined, basis, Some(0.0), Some(Poor), Some(false), []);
    FoundCites(rule, Warn, [rule.evidence] + found, Some(1.0), Some(Sufficient), Some(true), []);
    FoundCites(rule, Undetermined, basis + RawEvidence(run, rule.id), Some(0.0), Some(Poor), Some(false), []);
  }

  /** All other rules stay open, on everything retrieved for them; rules checked on images
      cite these too. */
  lemma OtherFinding(st: Setting, run: Run, rule: Rule)
    requires Undecided(st, run, rule) && rule.checkMethod != Keyword
    ensures FindingFor(st, run, rule).Some? && LeftOpen(FindingFor(st, run, rule).value, rule)
    ensures forall e :: e in FindingFor(st, run, rule).value.evidenceIds <==>
      || e == rule.evidence || e == run.packageEvidence || Retrieved(run, rule, e)
      || (rule.checkMethod == Visual && e in run.visual)
  {
    hide RuleCandidates, RequestFor, Classify, CheckKeyword, ScopeOf, RawEvidence, Dedup;
    RawEvidenceIs(run, rule);
    var raw, basis := RawEvidence(run, rule.id), [rule.evidence, run.packageEvidence];
    FoundCites(rule, Undetermined, basis + raw + run.visual, Some(0.0), None, None, []);
    FoundCites(rule, Undetermined, basis + raw, Some(0.0), Some(Poor), Some(false), []);
  }

  /** A candidate of the rule has a deterministic accepting assessment. */
  ghost predicate Accepts(run: Run, rule: Rule, c: Candidate)
  {
    && rule.id in run.candidates && c in run.candidates[rule.id] && c.isContract
    && exists a :: a in run.assessments && a.candidateId == c.id && a.outcome == Accept && a.assessor == Deterministic
  }

  /** When the inputs fit, a checker sees exactly the facts and references that name an
      accepted candidate of the rule, in their order, and exactly these candidates. */
  lemma ScopeIs(st: Setting, run: Run, rule: Rule)
    requires rule.id in run.candidates && Accepted(run.candidates[rule.id], run.assessments).Some?
    ensures var scope := ScopeOf(st, run, rule);
      && (forall c :: c in scope.candidates <==> Accepts(run, rule, c))
      && (forall f :: f in scope.facts <==> f in run.facts && Names(run, rule, f.candidateIds))
      && (forall r :: r in scope.references <==> r in run.references && Names(run, rule, r.candidateIds))
      && scope.ruleEvidence == rule.evidence && scope.packageEvidence == run.packageEvidence
      && scope.documents == run.documents && scope.allParsed == run.allParsed && scope.policy == rule.policy
      && scope.expectedRate == st.expectedRate(rule) && scope.requiredKinds == rule.requiredKinds
      && scope.texts == st.texts(rule)
  {
    hide Accepted;
    var candidates := RuleCandidates(run, rule.id);
    CandidatesAre(run, rule);
    var keepFact := (f: Fact) => Kept(Backed(candidates, f), f);
    var keepReference := (r: Reference) => Kept(BackedReference(candidates, r), r);
    CollectMembers(keepFact, run.facts);
    CollectMembers(keepReference, run.references);
    var scope := ScopeOf(st, run, rule);
    assert scope.facts == Collect(keepFact, run.facts) && scope.references == Collect(keepReference, run.references);
    forall f: Fact ensures Backed(candidates, f) <==> Names(run, rule, f.candidateIds) { }
    forall r: Reference ensures BackedReference(candidates, r) <==> Names(run, rule, r.candidateIds) { }
  }

  /** One of the candidates named is accepted for the rule. */
  ghost predicate Names(run: Run, rule: Rule, ids: set<Id>)
  {
    exists c :: Accepts(run, rule, c) && c.id in ids
  }

  lemma CandidatesAre(run: Run, rule: Rule)
    requires rule.id in run.candidates && Accepted(run.candidates[rule.id], run.assessments).Some?
    ensures forall c :: c in RuleCandidates(run, rule.id) <==> Accepts(run, rule, c)
  {
    hide Accepted, AssessmentOf;
    var candidates := run.candidates[rule.id];
    AcceptedMembers(candidates, run.assessments);
    GateDecisions.AcceptedIff(candidates, run.assessments);
    forall c ensures c in RuleCandidates(run, rule.id) <==> Accepts(run, rule, c) {
      GateDecisions.TheAssessment(run.assessments, c);
    }
  }

  /** Some rule of the bundle has this id. */
  ghost predicate Listed(rules: seq<Rule>, x: Id) { exists i :: 0 <= i < |rules| && rules[i].id == x }

  /** Some rule of the bundle has this id and is not excluded. */
  ghost predicate ListedOpen(st: Setting, rules: seq<Rule>, x: Id)
  {
    exists i :: 0 <= i < |rules| && rules[i].id == x && !Excluded(st, rules[i])
  }

  lemma SubsetIff(a: set<Id>, b: set<Id>, member: Id -> bool)
    requires forall x :: x in b <==> member(x)
    ensures a <= b <==> forall x :: x in a ==> member(x)
  {
    if forall x :: x in a ==> member(x) {
      forall x | x in a ensures x in b { }
    }
  }

  lemma KnownIff(rules: seq<Rule>, selected: set<Id>)
    ensures selected <= (set r | r in rules :: r.id) <==> (forall x :: x in selected ==> Listed(rules, x))
  {
    var known := set r | r in rules :: r.id;
    forall x ensures x in known <==> Listed(rules, x) {
      if i :| 0 <= i < |rules| && rules[i].id == x { assert rules[i] in rules; }
    }
    hide Listed;
    SubsetIff(selected, known, x => Listed(rules, x));
  }

  lemma ApplicableIff(st: Setting, run: Run, rules: seq<Rule>, selected: set<Id>)
    ensures run.candidates.Keys ==
        (set r | r in rules && r.id in selected && !st.verdict(r).NotApplicable? :: r.id)
      <==> (forall x :: x in run.candidates <==> x in selected && ListedOpen(st, rules, x))
  {
    var applicable := set r | r in rules && r.id in selected && !st.verdict(r).NotApplicable? :: r.id;
    forall x ensures x in applicable <==> x in selected && ListedOpen(st, rules, x) {
      if i :| 0 <= i < |rules| && rules[i].id == x && !Excluded(st, rules[i]) { assert rules[i] in rules; }
    }
    hide ListedOpen;
    SubsetIff(applicable, run.candidates.Keys, x => x in run.candidates);
    SubsetIff(run.candidates.Keys, applicable, x => x in selected && ListedOpen(st, rules, x));
  }

  predicate Excluded(st: Setting, rule: Rule) { st.verdict(rule) == Applicability.NotApplicable }

  /** A candidate of some rule of the run. */
  ghost predicate Offered(run: Run, c: Candidate) { exists x :: x in run.candidates && c in run.candidates[x] }

  /** Some assessment is about this candidate. */
  ghost predicate IsAssessed(run: Run, c: Candidate)
  {
    exists a :: a in run.assessments && a.candidateId == c.id
  }

  /** Some assessment describes this candidate. */
  ghost predicate IsDescribed(run: Run, c: Candidate)
  {
    exists a :: a in run.assessments && GateDecisions.Describes(a, c)
  }

  /** The assessment is about some candidate of the run. */
  ghost predicate IsUsed(run: Run, a: Assessment) { exists c :: Offered(run, c) && c.id == a.candidateId }

  lemma AssessedIff(run: Run)
    ensures (set a | a in run.assessments :: a.candidateId) ==
        (set x, c | x in run.candidates && c in run.candidates[x] :: c.id)
      <==> (forall a :: a in run.assessments ==> IsUsed(run, a)) && (forall c :: Offered(run, c) ==> IsAssessed(run, c))
  {
    var assessed := set a | a in run.assessments :: a.candidateId;
    var found := set x, c | x in run.candidates && c in run.candidates[x] :: c.id;
    FoundAre(run);
    IdsAgree(run, assessed, found);
  }

  /** The id of some candidate of the run. */
  ghost predicate OfSome(run: Run, y: Id) { exists c :: Offered(run, c) && c.id == y }

  lemma FoundAre(run: Run)
    ensures forall y :: y in (set x, c | x in run.candidates && c in run.candidates[x] :: c.id) <==>
      OfSome(run, y)
  {
    forall y ensures y in (set x, c | x in run.candidates && c in run.candidates[x] :: c.id) <==>
      OfSome(run, y)
    {
      if c :| Offered(run, c) && c.id == y { var x :| x in run.candidates && c in run.candidates[x]; }
    }
  }

  lemma IdsAgree(run: Run, assessed: set<Id>, found: set<Id>)
    requires forall y :: y in assessed <==> exists a :: a in run.assessments && a.candidateId == y
    requires forall y :: y in found <==> OfSome(run, y)
    ensures assessed == found <==>
      (forall a :: a in run.assessments ==> IsUsed(run, a)) && (forall c :: Offered(run, c) ==> IsAssessed(run, c))
  {
    hide *;
    assert assessed == found <==> assessed <= found && found <= assessed;
    AssessedFound(run, assessed, found);
    FoundAssessed(run, assessed, found);
  }

  lemma AssessedFound(run: Run, assessed: set<Id>, found: set<Id>)
    requires forall y :: y in assessed <==> exists a :: a in run.assessments && a.candidateId == y
    requires forall y :: y in found <==> OfSome(run, y)
    ensures assessed <= found <==> forall a :: a in run.assessments ==> IsUsed(run, a)
  {
    hide Offered;
    forall a: Assessment ensures IsUsed(run, a) <==> OfSome(run, a.candidateId) { }
    hide IsUsed, OfSome;
    forall a | a in run.assessments ensures a.candidateId in assessed { }
    SubsetIff(assessed, found, y => OfSome(run, y));
  }

  lemma FoundAssessed(run: Run, assessed: set<Id>, found: set<Id>)
    requires forall y :: y in assessed <==> exists a :: a in run.assessments && a.candidateId == y
    requires forall y :: y in found <==> OfSome(run, y)
    ensures found <= assessed <==> forall c :: Offered(run, c) ==> IsAssessed(run, c)
  {
    hide Offered;
    forall c: Candidate ensures IsAssessed(run, c) <==> c.id in assessed { }
    hide IsAssessed;
    forall c | Offered(run, c) ensures c.id in found { assert OfSome(run, c.id); }
    SubsetIff(found, assessed, y => y in assessed);
    if forall c :: Offered(run, c) ==> IsAssessed(run, c) {
      forall y | y in found ensures y in assessed {
        var c :| Offered(run, c) && c.id == y;
      }
    }
  }

  lemma AllAccepted(run: Run)
    requires GateDecisions.NoneRepeated(run.assessments)
    ensures (forall x | x in run.candidates :: Accepted(run.candidates[x], run.assessments).Some?) <==>
      (forall c :: Offered(run, c) ==> IsDescribed(run, c))
  {
    hide Accepted, GateDecisions.NoneRepeated, GateDecisions.Describes;
    forall x | x in run.candidates
      ensures Accepted(run.candidates[x], run.assessments).Some? <==>
        forall c :: c in run.candidates[x] ==> IsDescribed(run, c)
    {
      GateDecisions.AcceptedIff(run.candidates[x], run.assessments);
    }
  }

  /** The inputs of a run fit if and only if only known rules are selected, exactly those not
      excluded have candidates, found for them, each assessed once and consistently, and
      nothing else is assessed. */
  lemma SuppliedIff(st: Setting, run: Run, rules: seq<Rule>, selected: set<Id>)
    ensures Supplied(st, run, rules, selected) <==>
      && (forall x :: x in selected ==> Listed(rules, x))
      && (forall x :: x in run.candidates <==> x in selected && ListedOpen(st, rules, x))
      && (forall x, c :: x in run.candidates && c in run.candidates[x] ==> c.identity.ruleId == x)
      && GateDecisions.NoneRepeated(run.assessments)
      && (forall a :: a in run.assessments ==> IsUsed(run, a))
      && (forall c :: Offered(run, c) ==> IsDescribed(run, c))
  {
    hide Accepted, UniqueAssessments, Listed, ListedOpen, IsUsed, Offered, GateDecisions.NoneRepeated;
    GateDecisions.NoneRepeatedIff(run.assessments);
    KnownIff(rules, selected);
    ApplicableIff(st, run, rules, selected);
    AssessedIff(run);
    if GateDecisions.NoneRepeated(run.assessments) { AllAccepted(run); }
  }
}
