/** Which retrieved candidates may serve as evidence, and what semantic review may change. */
module EvidenceGate {
  import opened Collecting
  import opened Ordering

  /** The query, the rule and its version that a candidate was found for. */
  datatype Identity = Identity(queryId: Id, ruleId: Id, ruleVersion: Id)

  datatype Candidate = Candidate(id: Id, identity: Identity, isContract: bool, rank: int, evidenceIds: seq<Id>)

  datatype Outcome = Accept | Insufficient | Reject

  datatype Assessor = Deterministic | Semantic

  datatype Assessment = Assessment(
    id: Id, candidateId: Id, identity: Identity, isContract: bool, outcome: Outcome, evidenceIds: seq<Id>,
    assessor: Assessor)

  /** The anchors of a query, and which of them a candidate's text matches. */
  datatype Query = Query(identity: Identity, requiresFacts: bool, matchesRequired: Candidate -> bool,
                         matchesExact: Candidate -> bool)

  // ---------------------------------------------------------------------- assessing

  predicate Eligible(q: Query, c: Candidate)
  {
    if q.requiresFacts then q.matchesRequired(c) else q.matchesExact(c)
  }

  function Assessed(name: Id -> Id, q: Query, c: Candidate): Assessment
  {
    var outcome := if !c.isContract then Reject else if Eligible(q, c) then Accept else Insufficient;
    Assessment(name(c.id), c.id, c.identity, c.isContract, outcome, c.evidenceIds, Deterministic)
  }

  /** assess_candidate_evidence; assessments are named after candidates by an injective `name`. */
  function Assess(name: Id -> Id, q: Query, c: Candidate): Option<Assessment>
  {
    if c.identity != q.identity then None else Some(Assessed(name, q, c))
  }

  function AssessAll(name: Id -> Id, q: Query, candidates: seq<Candidate>): Option<seq<Assessment>>
  {
    if forall c :: c in candidates ==> Assess(name, q, c).Some? then
      Some(Map((c: Candidate) => Assessed(name, q, c), candidates))
    else None
  }

  method AssessCandidates(name: Id -> Id, q: Query, candidates: seq<Candidate>)
    returns (assessments: Option<seq<Assessment>>)
    ensures assessments == AssessAll(name, q, candidates)
  {
    hide Assessed;
    var done: seq<Assessment> := [];
    for i := 0 to |candidates|
      invariant |done| == i && forall k :: 0 <= k < i ==> Assess(name, q, candidates[k]) == Some(done[k])
    {
      var a := Assess(name, q, candidates[i]);
      if a.None? {
        assert candidates[i] in candidates;
        return None;
      }
      done := done + [a.value];
    }
    assert done == Map((c: Candidate) => Assessed(name, q, c), candidates);
    assessments := Some(done);
  }

  /** The queries of a run with the candidates that retrieval found for them. */
  datatype Batch = Batch(query: Query, candidates: seq<Candidate>)

  function RunCandidates(batches: seq<Batch>): seq<Candidate>
  {
    if batches == [] then [] else RunCandidates(batches[..|batches| - 1]) + batches[|batches| - 1].candidates
  }

  /** The assessments of all queries of a run, one after the other. */
  function RunAssessments(name: Id -> Id, batches: seq<Batch>): Option<seq<Assessment>>
  {
    if batches == [] then Some([])
    else
      var last := batches[|batches| - 1];
      var before, more := RunAssessments(name, batches[..|batches| - 1]), AssessAll(name, last.query, last.candidates);
      if before.Some? && more.Some? then Some(before.value + more.value) else None
  }

  // ------------------------------------------------------------- the unique index

  predicate UniqueAssessments(assessments: seq<Assessment>)
  {
    forall i, j :: 0 <= i < j < |assessments| ==>
      assessments[i].id != assessments[j].id && assessments[i].candidateId != assessments[j].candidateId
  }

  function AssessmentOf(assessments: seq<Assessment>, candidateId: Id): (r: Option<Assessment>)
    ensures r.Some? ==> r.value in assessments && r.value.candidateId == candidateId
    ensures r.None? ==> forall a :: a in assessments ==> a.candidateId != candidateId
  {
    if assessments == [] then None
    else if assessments[|assessments| - 1].candidateId == candidateId then Some(assessments[|assessments| - 1])
    else AssessmentOf(assessments[..|assessments| - 1], candidateId)
  }

  ghost predicate Indexes(index: map<Id, Assessment>, assessments: seq<Assessment>)
  {
    forall x :: (if x in index then Some(index[x]) else None) == AssessmentOf(assessments, x)
  }

  /** assessment_by_candidate_id: an index, or an error exactly when ids repeat. */
  method IndexAssessments(assessments: seq<Assessment>) returns (index: Option<map<Id, Assessment>>)
    ensures index.Some? <==> UniqueAssessments(assessments)
    ensures index.Some? ==> Indexes(index.value, assessments)
  {
    hide AssessmentOf, UniqueAssessments, Indexes;
    var table: map<Id, Assessment> := map[];
    var ids: set<Id> := {};
    NothingIndexed(assessments);
    for i := 0 to |assessments|
      invariant UniqueAssessments(assessments[..i]) && Indexes(table, assessments[..i])
      invariant forall x :: x in ids <==> exists k :: 0 <= k < i && assessments[k].id == x
    {
      var a := assessments[i];
      ghost var next := i + 1;
      UniqueStep(assessments, i, table);
      if a.id in ids || a.candidateId in table { return None; }
      IndexStep(assessments, i, table);
      ids := ids + {a.id};
      table := table[a.candidateId := a];
    }
    TakeAll(assessments);
    index := Some(table);
  }

  lemma NothingIndexed(assessments: seq<Assessment>)
    ensures UniqueAssessments(assessments[..0]) && Indexes(map[], assessments[..0])
  {
  }

  lemma UniqueStep(assessments: seq<Assessment>, i: nat, table: map<Id, Assessment>)
    requires i < |assessments| && UniqueAssessments(assessments[..i]) && Indexes(table, assessments[..i])
    ensures var a := assessments[i];
      if a.candidateId in table || exists k :: 0 <= k < i && assessments[k].id == a.id
      then !UniqueAssessments(assessments)
      else UniqueAssessments(assessments[..i + 1])
  {
    var a := assessments[i];
    var front, longer := assessments[..i], assessments[..i + 1];
    assert (if a.candidateId in table then Some(table[a.candidateId]) else None) == AssessmentOf(front, a.candidateId);
    if a.candidateId in table {
      var k :| 0 <= k < i && front[k] == table[a.candidateId];
    } else if k :| 0 <= k < i && assessments[k].id == a.id {
    } else {
      forall m, n | 0 <= m < n < |longer|
        ensures longer[m].id != longer[n].id && longer[m].candidateId != longer[n].candidateId
      {
        if n == i { assert front[m] in front; } else { assert front[m].id != front[n].id; }
      }
    }
  }

  lemma IndexStep(assessments: seq<Assessment>, i: nat, table: map<Id, Assessment>)
    requires i < |assessments| && Indexes(table, assessments[..i])
    ensures Indexes(table[assessments[i].candidateId := assessments[i]], assessments[..i + 1])
  {
    TakeStep(assessments, i);
    DropSnoc(assessments[..i], assessments[i]);
  }

  // ----------------------------------------------------------- accepted candidates

  /** The assessment is about this candidate and respects its source. */
  predicate Fits(c: Candidate, a: Assessment)
  {
    && a.identity == c.identity && a.isContract == c.isContract && a.evidenceIds == c.evidenceIds
    && (a.outcome == Reject <==> !c.isContract)
  }

  predicate AllFit(candidates: seq<Candidate>, assessments: seq<Assessment>)
  {
    forall c :: c in candidates ==>
      AssessmentOf(assessments, c.id).Some? && Fits(c, AssessmentOf(assessments, c.id).value)
  }

  predicate IsAccepted(assessments: seq<Assessment>, c: Candidate)
  {
    var a := AssessmentOf(assessments, c.id);
    c.isContract && a.Some? && a.value.outcome == Accept && a.value.assessor == Deterministic
  }

  predicate ByRank(a: Candidate, b: Candidate) { a.rank < b.rank || (a.rank == b.rank && a.id <= b.id) }

  /** The candidates that the deterministic gate accepted, by rank; an error when the
      assessments do not fit. */
  function Accepted(candidates: seq<Candidate>, assessments: seq<Assessment>): Option<seq<Candidate>>
  {
    if UniqueAssessments(assessments) && AllFit(candidates, assessments) then
      Some(Collect((c: Candidate) => Kept(IsAccepted(assessments, c), c), Sort(ByRank, candidates)))
    else None
  }

  /** Whether a candidate is accepted, or an error. */
  method CheckCandidate(index: map<Id, Assessment>, ghost assessments: seq<Assessment>, c: Candidate)
    returns (accepted: Option<bool>)
    requires Indexes(index, assessments)
    ensures accepted.Some? <==> AssessmentOf(assessments, c.id).Some? && Fits(c, AssessmentOf(assessments, c.id).value)
    ensures accepted.Some? ==> accepted.value == IsAccepted(assessments, c)
  {
    hide AssessmentOf;
    assert (if c.id in index then Some(index[c.id]) else None) == AssessmentOf(assessments, c.id);
    if c.id !in index { return None; }
    var a := index[c.id];
    if a.identity != c.identity || a.isContract != c.isContract || a.evidenceIds != c.evidenceIds { return None; }
    if (!c.isContract && a.outcome != Reject) || (c.isContract && a.outcome == Reject) { return None; }
    accepted := Some(c.isContract && a.outcome == Accept && a.assessor == Deterministic);
  }

  method AcceptedCandidates(candidates: seq<Candidate>, assessments: seq<Assessment>)
    returns (accepted: Option<seq<Candidate>>)
    ensures accepted == Accepted(candidates, assessments)
  {
    hide AssessmentOf, UniqueAssessments, IsAccepted, Indexes, Fits;
    var index := IndexAssessments(assessments);
    if index.None? { return None; }
    var sorted := Sort(ByRank, candidates);
    MultisetMembers(sorted, candidates);
    ghost var f := (c: Candidate) => Kept(IsAccepted(assessments, c), c);
    var kept: seq<Candidate> := [];
    for i := 0 to |sorted|
      invariant kept == Collect(f, sorted[..i])
      invariant forall k :: 0 <= k < i ==>
        AssessmentOf(assessments, sorted[k].id).Some? && Fits(sorted[k], AssessmentOf(assessments, sorted[k].id).value)
    {
      var c := sorted[i];
      TakeStep(sorted, i);
      assert c in sorted;
      var verdict := CheckCandidate(index.value, assessments, c);
      if verdict.None? { return None; }
      if verdict.value { kept := kept + [c]; }
    }
    TakeAll(sorted);
    forall c | c in candidates
      ensures AssessmentOf(assessments, c.id).Some? && Fits(c, AssessmentOf(assessments, c.id).value)
    {
      var k :| 0 <= k < |sorted| && sorted[k] == c;
    }
    accepted := Some(kept);
  }

  lemma AcceptedMembers(candidates: seq<Candidate>, assessments: seq<Assessment>)
    requires Accepted(candidates, assessments).Some?
    ensures forall c :: c in Accepted(candidates, assessments).value <==> c in candidates && IsAccepted(assessments, c)
  {
    CollectMembers((c: Candidate) => Kept(IsAccepted(assessments, c), c), Sort(ByRank, candidates));
    MultisetMembers(Sort(ByRank, candidates), candidates);
  }

  // ------------------------------------------------------ what the gate lets through

  predicate UniqueIds(candidates: seq<Candidate>)
  {
    forall i, j :: 0 <= i < j < |candidates| ==> candidates[i].id != candidates[j].id
  }

  lemma {:induction false} AssessmentsInOrder(name: Id -> Id, batches: seq<Batch>)
    requires RunAssessments(name, batches).Some?
    ensures var all := RunAssessments(name, batches).value;
      |all| == |RunCandidates(batches)| && forall i :: 0 <= i < |all| ==>
        all[i].candidateId == RunCandidates(batches)[i].id && all[i].id == name(RunCandidates(batches)[i].id)
  {
    if batches != [] {
      AssessmentsInOrder(name, batches[..|batches| - 1]);
    }
  }

  lemma {:induction false} AssessedInRun(name: Id -> Id, batches: seq<Batch>, i: nat, c: Candidate)
    requires RunAssessments(name, batches).Some? && i < |batches| && c in batches[i].candidates
    ensures c.identity == batches[i].query.identity
    ensures Assessed(name, batches[i].query, c) in RunAssessments(name, batches).value
  {
    var n := |batches| - 1;
    if i < n {
      AssessedInRun(name, batches[..n], i, c);
    } else {
      var b := batches[n];
      assert Assess(name, b.query, c).Some?;
      var more := AssessAll(name, b.query, b.candidates).value;
      var k :| 0 <= k < |b.candidates| && b.candidates[k] == c;
      assert more[k] == Assessed(name, b.query, c);
      assert more[k] in more;
    }
  }

  lemma AssessmentFound(assessments: seq<Assessment>, a: Assessment)
    requires UniqueAssessments(assessments) && a in assessments
    ensures AssessmentOf(assessments, a.candidateId) == Some(a)
  {
    var i :| 0 <= i < |assessments| && assessments[i] == a;
    AssessmentSelf(assessments, i);
  }

  function Passing(q: Query): Candidate -> Option<Candidate>
  {
    (c: Candidate) => Kept(c.isContract && Eligible(q, c), c)
  }

  lemma {:induction false} SamePassing(q: Query, assessments: seq<Assessment>, s: seq<Candidate>)
    requires forall c :: c in s ==> (IsAccepted(assessments, c) <==> c.isContract && Eligible(q, c))
    ensures Collect((c: Candidate) => Kept(IsAccepted(assessments, c), c), s) == Collect(Passing(q), s)
  {
    if s != [] {
      SamePassing(q, assessments, s[..|s| - 1]);
      assert s[|s| - 1] in s;
    }
  }

  /** When a run assesses all its candidates, the gate accepts for every query exactly the
      contract candidates that match its fact anchors, or its exact anchors when it has none,
      in order of rank; no assessment of another query interferes. */
  lemma GateAcceptsEligible(name: Id -> Id, batches: seq<Batch>, i: nat)
    requires RunAssessments(name, batches).Some? && UniqueIds(RunCandidates(batches)) && i < |batches|
    requires forall x, y :: name(x) == name(y) ==> x == y
    ensures Accepted(batches[i].candidates, RunAssessments(name, batches).value) ==
      Some(Collect(Passing(batches[i].query), Sort(ByRank, batches[i].candidates)))
  {
    hide RunAssessments, RunCandidates, Eligible;
    var all, b := RunAssessments(name, batches).value, batches[i];
    AssessmentsInOrder(name, batches);
    assert UniqueAssessments(all);
    hide UniqueAssessments, AssessmentOf;
    forall c | c in b.candidates
      ensures AssessmentOf(all, c.id) == Some(Assessed(name, b.query, c)) && Fits(c, Assessed(name, b.query, c))
      ensures IsAccepted(all, c) <==> c.isContract && Eligible(b.query, c)
    {
      AssessedInRun(name, batches, i, c);
      AssessmentFound(all, Assessed(name, b.query, c));
    }
    var sorted := Sort(ByRank, b.candidates);
    MultisetMembers(sorted, b.candidates);
    SamePassing(b.query, all, sorted);
  }

  // ------------------------------------------------------------------------ promotion

  /** A semantic verdict: its rule, whether it is undecided, and the evidence it cites. */
  datatype Verdict = Verdict(ruleId: Id, undecided: bool, cited: set<Id>)

  predicate Cites(v: Verdict, c: Candidate)
  {
    !v.undecided && v.ruleId == c.identity.ruleId && c.isContract && exists e :: e in c.evidenceIds && e in v.cited
  }

  /** Some decided verdict cites a candidate with this id. */
  predicate Cited(candidates: seq<Candidate>, verdicts: seq<Verdict>, candidateId: Id)
  {
    exists v, c :: v in verdicts && c in candidates && c.id == candidateId && Cites(v, c)
  }

  predicate Settled(a: Assessment) { a.outcome == Accept && a.assessor == Deterministic }

  /** Cited candidates that the gate did not accept become semantic evidence. */
  function Promote(candidates: seq<Candidate>, verdicts: seq<Verdict>, a: Assessment): Assessment
  {
    if Cited(candidates, verdicts, a.candidateId) && !Settled(a) then a.(outcome := Accept, assessor := Semantic) else a
  }

  /** All assessments after promotion, or an error: repeated ids, or a cited candidate
      without assessment. */
  function Promoted(candidates: seq<Candidate>, verdicts: seq<Verdict>,
                    assessments: seq<Assessment>): Option<seq<Assessment>>
  {
    if UniqueAssessments(assessments) && (forall c ::
         c in candidates && Cited(candidates, verdicts, c.id) ==> AssessmentOf(assessments, c.id).Some?)
    then Some(Map((a: Assessment) => Promote(candidates, verdicts, a), assessments))
    else None
  }

  /** What promotion has decided after some verdicts: the candidates cited so far. */
  ghost predicate Progress(assessments: seq<Assessment>, promoted: map<Id, Assessment>, cited: set<Id>)
  {
    && (forall x :: x in cited ==> AssessmentOf(assessments, x).Some?)
    && (forall x :: x in promoted <==> x in cited && !Settled(AssessmentOf(assessments, x).value))
    && (forall x :: x in promoted ==>
          promoted[x] == AssessmentOf(assessments, x).value.(outcome := Accept, assessor := Semantic))
  }

  lemma ProgressStep(assessments: seq<Assessment>, promoted: map<Id, Assessment>, cited: set<Id>, x: Id, a: Assessment)
    requires Progress(assessments, promoted, cited) && AssessmentOf(assessments, x) == Some(a)
    ensures Progress(assessments,
      if Settled(a) then promoted else promoted[x := a.(outcome := Accept, assessor := Semantic)], cited + {x})
  {
    hide AssessmentOf;
  }

  /** promote_semantic_evidence_assessments, verdict by verdict. */
  method PromoteAssessments(candidates: seq<Candidate>, verdicts: seq<Verdict>, assessments: seq<Assessment>)
    returns (result: Option<seq<Assessment>>)
    ensures result == Promoted(candidates, verdicts, assessments)
  {
    hide AssessmentOf, UniqueAssessments, Indexes, Progress;
    var index := IndexAssessments(assessments);
    if index.None? { return None; }
    var promoted: map<Id, Assessment> := map[];
    ghost var cited: set<Id> := {};
    assert Progress(assessments, promoted, cited) by { NoProgress(assessments); }
    for i := 0 to |verdicts|
      invariant Progress(assessments, promoted, cited)
      invariant forall x :: x in cited <==> Cited(candidates, verdicts[..i], x)
    {
      var v := verdicts[i];
      TakeStep(verdicts, i);
      ghost var before, next := cited, i + 1;
      for k := 0 to |candidates|
        invariant Progress(assessments, promoted, cited)
        invariant forall x :: x in cited <==> x in before || CitedBy(v, candidates[..k], x)
      {
        var c := candidates[k];
        TakeStep(candidates, k);
        ghost var more := k + 1;
        CitedByStep(v, candidates[..k], c);
        var cites := exists e :: e in c.evidenceIds && e in v.cited;
        if v.undecided || v.ruleId != c.identity.ruleId || !c.isContract || !cites { continue; }
        IndexedAt(index.value, assessments, c.id);
        CitedOne(candidates, verdicts, v, c);
        if c.id !in index.value { return None; }
        var a := index.value[c.id];
        ProgressStep(assessments, promoted, cited, c.id, a);
        cited := cited + {c.id};
        if a.outcome == Accept && a.assessor == Deterministic { continue; }
        promoted := promoted[c.id := a.(outcome := Accept, assessor := Semantic)];
      }
      TakeAll(candidates);
      CitedStep(candidates, verdicts[..i], v);
    }
    TakeAll(verdicts);
    var list: seq<Assessment> := [];
    AllCitedKnown(candidates, verdicts, assessments, promoted, cited);
    for i := 0 to |assessments|
      invariant |list| == i && forall k :: 0 <= k < i ==> list[k] == Promote(candidates, verdicts, assessments[k])
    {
      var a := assessments[i];
      PromotedAt(candidates, verdicts, assessments, promoted, cited, i);
      list := list + [if a.candidateId in promoted then promoted[a.candidateId] else a];
    }
    assert list == Map((a: Assessment) => Promote(candidates, verdicts, a), assessments);
    result := Some(list);
  }

  lemma NoProgress(assessments: seq<Assessment>)
    ensures Progress(assessments, map[], {})
  {
  }

  /** A candidate with this id is cited by the verdict. */
  predicate CitedBy(v: Verdict, candidates: seq<Candidate>, candidateId: Id)
  {
    exists c :: c in candidates && c.id == candidateId && Cites(v, c)
  }

  lemma CitedByStep(v: Verdict, candidates: seq<Candidate>, c: Candidate)
    ensures forall x :: CitedBy(v, candidates + [c], x) <==> CitedBy(v, candidates, x) || (x == c.id && Cites(v, c))
  {
    forall x ensures CitedBy(v, candidates + [c], x) <==> CitedBy(v, candidates, x) || (x == c.id && Cites(v, c)) {
      if d :| d in candidates && d.id == x && Cites(v, d) { assert d in candidates + [c]; }
      assert c in candidates + [c];
    }
  }

  lemma CitedStep(candidates: seq<Candidate>, verdicts: seq<Verdict>, v: Verdict)
    ensures forall x :: Cited(candidates, verdicts + [v], x) <==>
      Cited(candidates, verdicts, x) || CitedBy(v, candidates, x)
  {
    forall x
      ensures Cited(candidates, verdicts + [v], x) <==> Cited(candidates, verdicts, x) || CitedBy(v, candidates, x)
    {
      if w, c :| w in verdicts && c in candidates && c.id == x && Cites(w, c) { assert w in verdicts + [v]; }
      assert v in verdicts + [v];
    }
  }

  lemma CitedOne(candidates: seq<Candidate>, verdicts: seq<Verdict>, v: Verdict, c: Candidate)
    requires v in verdicts && c in candidates && Cites(v, c)
    ensures Cited(candidates, verdicts, c.id)
  {
  }

  lemma IndexedAt(index: map<Id, Assessment>, assessments: seq<Assessment>, x: Id)
    requires Indexes(index, assessments)
    ensures AssessmentOf(assessments, x) == if x in index then Some(index[x]) else None
  {
  }

  lemma AllCitedKnown(candidates: seq<Candidate>, verdicts: seq<Verdict>, assessments: seq<Assessment>,
                      promoted: map<Id, Assessment>, cited: set<Id>)
    requires Progress(assessments, promoted, cited) && forall x :: x in cited <==> Cited(candidates, verdicts, x)
    ensures forall c :: c in candidates && Cited(candidates, verdicts, c.id) ==> AssessmentOf(assessments, c.id).Some?
  {
  }

  lemma {:induction false} AssessmentSelf(assessments: seq<Assessment>, i: nat)
    requires UniqueAssessments(assessments) && i < |assessments|
    ensures AssessmentOf(assessments, assessments[i].candidateId) == Some(assessments[i])
  {
    var n := |assessments| - 1;
    if i < n { AssessmentSelf(assessments[..n], i); }
  }

  lemma PromotedAt(candidates: seq<Candidate>, verdicts: seq<Verdict>, assessments: seq<Assessment>,
                   promoted: map<Id, Assessment>, cited: set<Id>, i: nat)
    requires UniqueAssessments(assessments) && i < |assessments|
    requires Progress(assessments, promoted, cited) && forall x :: x in cited <==> Cited(candidates, verdicts, x)
    ensures Promote(candidates, verdicts, assessments[i]) ==
      if assessments[i].candidateId in promoted then promoted[assessments[i].candidateId] else assessments[i]
  {
    hide Cited, AssessmentOf, UniqueAssessments;
    AssessmentSelf(assessments, i);
  }

  lemma {:induction false} AssessmentMapped(assessments: seq<Assessment>, after: seq<Assessment>, x: Id,
                                            candidates: seq<Candidate>, verdicts: seq<Verdict>)
    requires |after| == |assessments| && forall i :: 0 <= i < |after| ==>
      after[i] == Promote(candidates, verdicts, assessments[i])
    ensures AssessmentOf(after, x) ==
      match AssessmentOf(assessments, x) case Some(a) => Some(Promote(candidates, verdicts, a)) case None => None
  {
    hide Cited;
    if assessments != [] {
      var n := |assessments| - 1;
      AssessmentMapped(assessments[..n], after[..n], x, candidates, verdicts);
    }
  }

  lemma PromoteAgain(candidates: seq<Candidate>, verdicts: seq<Verdict>, assessments: seq<Assessment>,
                     after: seq<Assessment>, again: seq<Assessment>)
    requires |after| == |assessments| && forall i :: 0 <= i < |after| ==>
      after[i] == Promote(candidates, verdicts, assessments[i])
    requires |again| == |after| && forall i :: 0 <= i < |again| ==> again[i] == Promote(candidates, verdicts, after[i])
    ensures again == after
  {
    hide Cited;
  }

  /** Promoting twice changes nothing more. */
  lemma PromotionIsIdempotent(candidates: seq<Candidate>, verdicts: seq<Verdict>, assessments: seq<Assessment>)
    requires Promoted(candidates, verdicts, assessments).Some?
    ensures Promoted(candidates, verdicts, Promoted(candidates, verdicts, assessments).value) ==
      Promoted(candidates, verdicts, assessments)
  {
    hide Cited, AssessmentOf, UniqueAssessments;
    var after := Promoted(candidates, verdicts, assessments).value;
    PromotedUnique(candidates, verdicts, assessments, after);
    forall x ensures AssessmentOf(after, x).Some? <==> AssessmentOf(assessments, x).Some? {
      AssessmentMapped(assessments, after, x, candidates, verdicts);
    }
    PromoteAgain(candidates, verdicts, assessments, after,
      Map((a: Assessment) => Promote(candidates, verdicts, a), after));
  }

  /** Promotion never changes what the deterministic gate accepted. */
  lemma PromotionKeepsAccepted(candidates: seq<Candidate>, verdicts: seq<Verdict>, assessments: seq<Assessment>,
                               of: seq<Candidate>)
    requires Promoted(candidates, verdicts, assessments).Some? && Accepted(of, assessments).Some?
    requires forall c :: c in of ==> c in candidates
    requires forall c, d :: c in candidates && d in candidates && c.id == d.id ==> c == d
    ensures Accepted(of, Promoted(candidates, verdicts, assessments).value) == Accepted(of, assessments)
  {
    var after := Promoted(candidates, verdicts, assessments).value;
    PromotedUnique(candidates, verdicts, assessments, after);
    forall c | c in of ensures IsAccepted(after, c) == IsAccepted(assessments, c)
      && AssessmentOf(after, c.id).Some? && Fits(c, AssessmentOf(after, c.id).value)
    {
      PromotedFits(candidates, verdicts, assessments, after, c);
    }
    var sorted := Sort(ByRank, of);
    MultisetMembers(sorted, of);
    CollectAgree(assessments, after, sorted);
  }

  lemma PromotedUnique(candidates: seq<Candidate>, verdicts: seq<Verdict>, assessments: seq<Assessment>,
                       after: seq<Assessment>)
    requires |after| == |assessments| && forall i :: 0 <= i < |after| ==>
      after[i] == Promote(candidates, verdicts, assessments[i])
    requires UniqueAssessments(assessments)
    ensures UniqueAssessments(after)
  {
    hide Cited;
  }

  lemma PromotedFits(candidates: seq<Candidate>, verdicts: seq<Verdict>, assessments: seq<Assessment>,
                     after: seq<Assessment>, c: Candidate)
    requires |after| == |assessments| && forall i :: 0 <= i < |after| ==>
      after[i] == Promote(candidates, verdicts, assessments[i])
    requires c in candidates && forall d :: d in candidates && c.id == d.id ==> c == d
    requires AssessmentOf(assessments, c.id).Some? && Fits(c, AssessmentOf(assessments, c.id).value)
    ensures IsAccepted(after, c) == IsAccepted(assessments, c)
    ensures AssessmentOf(after, c.id).Some? && Fits(c, AssessmentOf(after, c.id).value)
  {
    AssessmentMapped(assessments, after, c.id, candidates, verdicts);
    OnlyContractsCited(candidates, verdicts, c);
    hide Cited, AssessmentOf;
  }

  lemma OnlyContractsCited(candidates: seq<Candidate>, verdicts: seq<Verdict>, c: Candidate)
    requires c in candidates && forall d :: d in candidates && c.id == d.id ==> c == d
    ensures Cited(candidates, verdicts, c.id) ==> c.isContract
  {
  }

  lemma {:induction false} CollectAgree(a: seq<Assessment>, b: seq<Assessment>, s: seq<Candidate>)
    requires forall c :: c in s ==> IsAccepted(a, c) == IsAccepted(b, c)
    ensures Collect((c: Candidate) => Kept(IsAccepted(a, c), c), s) ==
      Collect((c: Candidate) => Kept(IsAccepted(b, c), c), s)
  {
    if s != [] {
      CollectAgree(a, b, s[..|s| - 1]);
      assert s[|s| - 1] in s;
    }
  }
}
