/** What the evidence gate decides, said of the candidates and assessments themselves. */
module GateDecisions {
  import opened Collecting
  import opened Ordering
  import opened EvidenceGate

  /** The candidate matches a fact anchor, or an exact one when the query has no fact anchors. */
  predicate Anchored(q: Query, c: Candidate)
  {
    (q.requiresFacts && q.matchesRequired(c)) || (!q.requiresFacts && q.matchesExact(c))
  }

  /** The candidates of a query are assessed if and only if all were found for its rule and
      version.  Rule sources are rejected; contract candidates are accepted when anchored. */
  lemma AssessmentsMean(name: Id -> Id, q: Query, candidates: seq<Candidate>)
    ensures var all := AssessAll(name, q, candidates);
      && (all.Some? <==> forall i :: 0 <= i < |candidates| ==> candidates[i].identity == q.identity)
      && (all.Some? ==> |all.value| == |candidates| && forall i :: 0 <= i < |candidates| ==>
            var a, c := all.value[i], candidates[i];
            && a.id == name(c.id) && a.candidateId == c.id && a.identity == c.identity
            && a.isContract == c.isContract && a.evidenceIds == c.evidenceIds && a.assessor == Deterministic
            && (a.outcome == Reject <==> !c.isContract)
            && (a.outcome == Accept <==> c.isContract && Anchored(q, c)))
  {
    if forall i :: 0 <= i < |candidates| ==> candidates[i].identity == q.identity {
    } else {
      var i :| 0 <= i < |candidates| && candidates[i].identity != q.identity;
      assert candidates[i] in candidates && Assess(name, q, candidates[i]).None?;
    }
  }

  // -------------------------------------------------------------- accepted candidates

  /** No assessment id and no candidate id occurs twice. */
  ghost predicate NoneRepeated(s: seq<Assessment>)
  {
    && (forall i, j :: 0 <= i < |s| && 0 <= j < |s| && s[i].id == s[j].id ==> i == j)
    && (forall i, j :: 0 <= i < |s| && 0 <= j < |s| && s[i].candidateId == s[j].candidateId ==> i == j)
  }

  lemma NoneRepeatedIff(assessments: seq<Assessment>)
    ensures UniqueAssessments(assessments) <==> NoneRepeated(assessments)
  {
  }

  /** The assessment says of the candidate what the candidate says of itself. */
  ghost predicate Describes(a: Assessment, c: Candidate)
  {
    && a.candidateId == c.id && a.identity.queryId == c.identity.queryId && a.identity.ruleId == c.identity.ruleId
    && a.identity.ruleVersion == c.identity.ruleVersion && a.isContract == c.isContract
    && a.evidenceIds == c.evidenceIds && (c.isContract ==> a.outcome != Reject)
    && (!c.isContract ==> a.outcome == Reject)
  }

  ghost predicate AcceptedBy(a: Assessment, c: Candidate)
  {
    a.candidateId == c.id && c.isContract && a.outcome == Accept && a.assessor == Deterministic
  }

  lemma TheAssessment(assessments: seq<Assessment>, c: Candidate)
    requires NoneRepeated(assessments)
    ensures AssessmentOf(assessments, c.id).Some? <==> exists a :: a in assessments && a.candidateId == c.id
    ensures AssessmentOf(assessments, c.id).Some? && Fits(c, AssessmentOf(assessments, c.id).value) <==>
      exists a :: a in assessments && Describes(a, c)
    ensures IsAccepted(assessments, c) <==> exists a :: a in assessments && AcceptedBy(a, c)
  {
    NoneRepeatedIff(assessments);
    if a :| a in assessments && a.candidateId == c.id {
      AssessmentFound(assessments, a);
      forall b | b in assessments && b.candidateId == c.id ensures b == a { AssessmentFound(assessments, b); }
    }
  }

  /** The accepted candidates are determined if and only if no id is assessed twice and
      every candidate has an assessment that describes it. */
  lemma AcceptedIff(candidates: seq<Candidate>, assessments: seq<Assessment>)
    ensures Accepted(candidates, assessments).Some? <==>
      && NoneRepeated(assessments)
      && forall c :: c in candidates ==> exists a :: a in assessments && Describes(a, c)
  {
    NoneRepeatedIff(assessments);
    if NoneRepeated(assessments) {
      forall c | c in candidates
        ensures AssessmentOf(assessments, c.id).Some? && Fits(c, AssessmentOf(assessments, c.id).value) <==>
          exists a :: a in assessments && Describes(a, c)
      {
        TheAssessment(assessments, c);
      }
    }
  }

  ghost predicate RanksRise(s: seq<Candidate>)
  {
    forall i, j :: 0 <= i < j < |s| ==> s[i].rank < s[j].rank || (s[i].rank == s[j].rank && s[i].id <= s[j].id)
  }

  /** They come by rank, ties by id, and are exactly the contract candidates with a
      deterministic accepting assessment, each as often as it was retrieved. */
  lemma AcceptedAre(candidates: seq<Candidate>, assessments: seq<Assessment>)
    requires Accepted(candidates, assessments).Some?
    ensures var accepted := Accepted(candidates, assessments).value;
      && RanksRise(accepted)
      && forall c :: multiset(accepted)[c] ==
           if exists a :: a in assessments && AcceptedBy(a, c) then multiset(candidates)[c] else 0
  {
    AcceptedIff(candidates, assessments);
    var f := (c: Candidate) => Kept(IsAccepted(assessments, c), c);
    var sorted := Sort(ByRank, candidates);
    assert Accepted(candidates, assessments).value == Collect(f, sorted);
    SortOrdered(ByRank, candidates);
    FilterOrdered(ByRank, f, sorted);
    forall c ensures multiset(Collect(f, sorted))[c] ==
      if exists a :: a in assessments && AcceptedBy(a, c) then multiset(candidates)[c] else 0
    {
      FilterCounts(f, sorted, c);
      TheAssessment(assessments, c);
    }
  }

  // ------------------------------------------------------------------------ promotion

  /** Some decided verdict on its rule cites evidence of this contract candidate. */
  ghost predicate CitedIn(verdicts: seq<Verdict>, c: Candidate)
  {
    exists i, k :: 0 <= i < |verdicts| && 0 <= k < |c.evidenceIds| && c.isContract && !verdicts[i].undecided
      && verdicts[i].ruleId == c.identity.ruleId && c.evidenceIds[k] in verdicts[i].cited
  }

  lemma CitedIff(candidates: seq<Candidate>, verdicts: seq<Verdict>, x: Id)
    ensures Cited(candidates, verdicts, x) <==> exists c :: c in candidates && c.id == x && CitedIn(verdicts, c)
  {
    if v, c :| v in verdicts && c in candidates && c.id == x && Cites(v, c) {
      var i :| 0 <= i < |verdicts| && verdicts[i] == v;
      var e :| e in c.evidenceIds && e in v.cited;
      var k :| 0 <= k < |c.evidenceIds| && c.evidenceIds[k] == e;
      assert CitedIn(verdicts, c);
    }
    if c :| c in candidates && c.id == x && CitedIn(verdicts, c) {
      var i, k :| 0 <= i < |verdicts| && 0 <= k < |c.evidenceIds| && c.isContract && !verdicts[i].undecided
        && verdicts[i].ruleId == c.identity.ruleId && c.evidenceIds[k] in verdicts[i].cited;
      var v, e := verdicts[i], c.evidenceIds[k];
      assert v in verdicts && e in c.evidenceIds && e in v.cited;
      assert Cites(v, c);
    }
  }

  /** The assessments of cited candidates become semantic and accepting unless the gate had
      accepted them; nothing else about them changes, and no other assessment does. */
  ghost predicate Lifted(candidates: seq<Candidate>, verdicts: seq<Verdict>, a: Assessment, b: Assessment)
  {
    if (exists c :: c in candidates && c.id == a.candidateId && CitedIn(verdicts, c))
       && (a.outcome != Accept || a.assessor != Deterministic)
    then b == Assessment(a.id, a.candidateId, a.identity, a.isContract, Accept, a.evidenceIds, Semantic)
    else b == a
  }

  /** Promotion succeeds if and only if no id is assessed twice and every cited candidate is
      assessed. */
  lemma PromotedIff(candidates: seq<Candidate>, verdicts: seq<Verdict>, assessments: seq<Assessment>)
    ensures Promoted(candidates, verdicts, assessments).Some? <==>
      && NoneRepeated(assessments)
      && forall c :: c in candidates && CitedIn(verdicts, c) ==> exists a :: a in assessments && a.candidateId == c.id
  {
    hide Cited, CitedIn, AssessmentOf, UniqueAssessments, Promote;
    NoneRepeatedIff(assessments);
    if NoneRepeated(assessments) {
      forall c | c in candidates
        ensures Cited(candidates, verdicts, c.id) <==>
          exists d :: d in candidates && d.id == c.id && CitedIn(verdicts, d)
        ensures AssessmentOf(assessments, c.id).Some? <==> exists a :: a in assessments && a.candidateId == c.id
      {
        CitedIff(candidates, verdicts, c.id);
        TheAssessment(assessments, c);
      }
    }
  }

  lemma PromotedAre(candidates: seq<Candidate>, verdicts: seq<Verdict>, assessments: seq<Assessment>)
    requires Promoted(candidates, verdicts, assessments).Some?
    ensures var after := Promoted(candidates, verdicts, assessments).value;
      |after| == |assessments| &&
      forall i :: 0 <= i < |after| ==> Lifted(candidates, verdicts, assessments[i], after[i])
  {
    hide Cited, CitedIn, UniqueAssessments, AssessmentOf;
    var after := Promoted(candidates, verdicts, assessments).value;
    forall i | 0 <= i < |after| ensures Lifted(candidates, verdicts, assessments[i], after[i]) {
      assert after[i] == Promote(candidates, verdicts, assessments[i]);
      CitedIff(candidates, verdicts, assessments[i].candidateId);
    }
  }
}
