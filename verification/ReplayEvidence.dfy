/**
 Counting evidence through a replay: a stored comparison brings evidence of its own only for
 the changes that cited none, but stripped and attached again it brings some for every change.
 */
module ReplayEvidence {
  import opened Ordering
  import opened ReviewModel
  import opened VersionImpacts
  import opened RunLedger
  import opened ReviewActions
  import opened AuditKeeping
  import opened ComparisonGate
  import opened Replay
  import opened Reattaching
  import opened ReplayTheorem

  /** How many changes cite no evidence. */
  function PendingCount(env: Env, changes: seq<VersionChange>): (n: nat)
    ensures n <= |changes|
  {
    if changes == [] then 0
    else PendingCount(env, changes[..|changes| - 1]) + if Requests(env, changes[|changes| - 1]) then 0 else 1
  }

  lemma {:induction false} AllPendingIff(env: Env, changes: seq<VersionChange>)
    ensures PendingCount(env, changes) == |changes| <==> forall ch :: ch in changes ==> !Requests(env, ch)
  {
    if changes != [] {
      var front, last := changes[..|changes| - 1], changes[|changes| - 1];
      SnocParts(changes);
      AllPendingIff(env, front);
      assert last in changes && forall ch :: ch in changes <==> ch in front || ch == last;
    }
  }

  lemma {:induction false} BindingCount(r: Review, env: Env, c: Comparison, now: int, changes: seq<VersionChange>)
    requires BindChanges(BinderOf(r, env, c, now), changes).Ok?
    ensures var b := BindChanges(BinderOf(r, env, c, now), changes).value;
      |b.evidence| == PendingCount(env, changes) && |b.changes| == |changes|
  {
    if changes != [] {
      BindingCount(r, env, c, now, changes[..|changes| - 1]);
      OneBound(r, env, c, changes[|changes| - 1], now);
    }
  }

  lemma OneBound(r: Review, env: Env, c: Comparison, change: VersionChange, now: int)
    requires BindChange(r, env, c, change, now).Ok?
    ensures var b := BindChange(r, env, c, change, now).value;
      |b.changes| == 1 && |b.evidence| == if Requests(env, change) then 0 else 1
  {
  }

  lemma AttachedCount(s: ReviewResult, env: Env, c: Comparison, now: int) returns (bound: Comparison)
    requires AttachComparison(s, env, c, now).Ok?
    ensures var r := AttachComparison(s, env, c, now).value;
      && Audited(r) && |r.review.evidence| == |s.review.evidence| + 1 + PendingCount(env, c.changes)
      && r.review.comparisons == s.review.comparisons + [bound]
      && r.review.sequence == s.review.sequence + [ComparisonRef(bound.comparisonId)]
    ensures |bound.changes| == |c.changes| && bound.comparisonId == c.comparisonId
    ensures Audited(s) && c.comparisonId !in ComparisonIds(s.review.comparisons)
  {
    hide Audited, Consistent, BindChange;
    GatedOk(Audited(s), ComparisonAdded(s.review, env, c, now));
    var b := BindChanges(BinderOf(s.review, env, c, now), c.changes).value;
    BindingCount(s.review, env, c, now, c.changes);
    bound := BoundComparison(s.review.core, env, c, b.changes);
    CheckedIsNew(s.review, env, c);
    SealedAudit(AttachComparison(s, env, c, now).value.review);
  }

  // ------------------------------------------------------------- evidence per reference

  /** What the references bring when every change brings evidence of its own. */
  function Weight(refs: seq<Attachment>, comparisons: seq<Comparison>): nat
  {
    if refs == [] then 0
    else Weight(refs[..|refs| - 1], comparisons) + RefWeight(refs[|refs| - 1], comparisons)
  }

  function RefWeight(a: Attachment, comparisons: seq<Comparison>): nat
  {
    match a
    case RevisionRef(_) => 0
    case ComparisonRef(id) => match FindComparison(comparisons, id) case Some(c) => 1 + |c.changes| case None => 0
  }

  lemma WeightSnoc(refs: seq<Attachment>, a: Attachment, comparisons: seq<Comparison>)
    ensures Weight(refs + [a], comparisons) == Weight(refs, comparisons) + RefWeight(a, comparisons)
  {
    DropSnoc(refs, a);
  }

  lemma {:induction false} WeightKept(refs: seq<Attachment>, comparisons: seq<Comparison>, c: Comparison)
    requires ComparisonRef(c.comparisonId) !in refs
    ensures Weight(refs, comparisons + [c]) == Weight(refs, comparisons)
  {
    if refs != [] {
      var front, last := refs[..|refs| - 1], refs[|refs| - 1];
      SnocParts(refs);
      WeightKept(front, comparisons, c);
      if last.ComparisonRef? { FindAppended(comparisons, c, last.id); }
    }
  }

  // --------------------------------------------------------------- the stored evidence

  /** How many changes of the history cite evidence. */
  function CitingCount(env: Env, history: seq<Action>): nat
  {
    if history == [] then 0
    else CitingCount(env, history[..|history| - 1]) + CitingOf(env, history[|history| - 1])
  }

  function CitingOf(env: Env, a: Action): nat
  {
    if a.Compare? then |a.c.changes| - PendingCount(env, a.c.changes) else 0
  }

  lemma {:induction false} NoneCitesIff(env: Env, history: seq<Action>)
    ensures CitingCount(env, history) == 0 <==> AllPending(env, history)
  {
    if history != [] {
      var front, last := history[..|history| - 1], history[|history| - 1];
      SnocParts(history);
      NoneCitesIff(env, front);
      if last.Compare? { AllPendingIff(env, last.c.changes); }
      assert last in history && forall a :: a in history <==> a in front || a == last;
    }
  }

  /** The evidence of s falls short of what its references weigh by the citing changes. */
  ghost predicate Balanced(s0: Review, s: Review, citing: nat)
  {
    |s.evidence| + citing == |s0.evidence| + Weight(s.sequence, s.comparisons)
  }

  lemma BalancedMore(s0: Review, r: Review, r': Review, bound: Comparison, own: nat, citing: nat)
    requires Balanced(s0, r, citing) && own <= |bound.changes|
    requires r'.comparisons == r.comparisons + [bound]
    requires r'.sequence == r.sequence + [ComparisonRef(bound.comparisonId)]
    requires |r'.evidence| == |r.evidence| + 1 + own && ComparisonRef(bound.comparisonId) !in r.sequence
    ensures Balanced(s0, r', citing + |bound.changes| - own)
  {
    hide Weight;
    var ref := ComparisonRef(bound.comparisonId);
    WeightKept(r.sequence, r.comparisons, bound);
    WeightSnoc(r.sequence, ref, r.comparisons + [bound]);
    FindAppended(r.comparisons, bound, bound.comparisonId);
  }

  lemma RefIsNew(r: Review, id: Id)
    requires Consistent(r) && id !in ComparisonIds(r.comparisons)
    ensures ComparisonRef(id) !in r.sequence
  {
    RefsKnown(r);
  }

  lemma BalancedCompare(s0: Review, s: ReviewResult, env: Env, c: Comparison, at: int, citing: nat)
    requires Balanced(s0, s.review, citing) && AttachComparison(s, env, c, at).Ok?
    ensures Balanced(s0, AttachComparison(s, env, c, at).value.review,
      citing + |c.changes| - PendingCount(env, c.changes))
  {
    hide *;
    var bound := AttachedCount(s, env, c, at);
    AuditedConsistent(s);
    RefIsNew(s.review, c.comparisonId);
    BalancedMore(s0, s.review, AttachComparison(s, env, c, at).value.review, bound, PendingCount(env, c.changes),
      citing);
  }

  lemma AuditedConsistent(s: ReviewResult)
    requires Audited(s)
    ensures Consistent(s.review)
  {
  }

  lemma BalancedRevise(s0: Review, s: ReviewResult, v: RevisionSet, citing: nat)
    requires Balanced(s0, s.review, citing) && AttachRevision(s, v).Ok?
    ensures Balanced(s0, AttachRevision(s, v).value.review, citing)
  {
    RevisionAttached(s, v);
    WeightSnoc(s.review.sequence, RevisionRef(v.revisionId), s.review.comparisons);
  }

  lemma BalancedJudgement(s0: Review, s: ReviewResult, env: Env, a: Action, citing: nat)
    requires Judges(a) && Balanced(s0, s.review, citing) && Apply(s, env, a).Ok?
    ensures Balanced(s0, Apply(s, env, a).value.review, citing)
  {
    JudgingKeepsAttachments(s, env, a);
  }

  lemma BalancedStep(s0: Review, s: ReviewResult, env: Env, a: Action, citing: nat)
    requires Balanced(s0, s.review, citing) && Apply(s, env, a).Ok?
    ensures Balanced(s0, Apply(s, env, a).value.review, citing + CitingOf(env, a))
  {
    hide Balanced, PendingCount, AttachComparison, AttachRevision, RecordDecision, Finalize;
    match a
    case Compare(c, at) => BalancedCompare(s0, s, env, c, at, citing);
    case Revise(v) => BalancedRevise(s0, s, v, citing);
    case Decide(_) => BalancedJudgement(s0, s, env, a, citing);
    case Finish(_, _, _, _) => BalancedJudgement(s0, s, env, a, citing);
  }

  lemma FreshBalances(s: ReviewResult)
    requires Fresh(s)
    ensures Balanced(s.review, s.review, 0)
  {
  }

  lemma {:induction false} HistoryBalances(s0: ReviewResult, env: Env, history: seq<Action>)
    requires Fresh(s0) && RunHistory(s0, env, history).Ok?
    ensures Balanced(s0.review, RunHistory(s0, env, history).value.review, CitingCount(env, history))
  {
    hide Fresh, Balanced, Apply, CitingOf;
    if history == [] {
      FreshBalances(s0);
    } else {
      var n := |history| - 1;
      HistoryBalances(s0, env, history[..n]);
      BalancedStep(s0.review, RunHistory(s0, env, history[..n]).value, env, history[n], CitingCount(env, history[..n]));
    }
  }

  // -------------------------------------------------------------- the replayed evidence

  predicate SealedResult(s: ReviewResult) { s.fingerprint == Some(Fingerprint(s.review)) }

  lemma StrippedPending(env: Env, changes: seq<VersionChange>)
    requires NamingLaws(env.names)
    ensures PendingCount(env, StrippedChanges(env.names, changes)) == |changes|
  {
    var stripped := StrippedChanges(env.names, changes);
    forall ch | ch in stripped ensures !Requests(env, ch) {
      var i :| 0 <= i < |stripped| && stripped[i] == ch;
      StrippedAt(env.names, changes, i);
      PendingRequestsNothing(env, changes[i]);
    }
    AllPendingIff(env, stripped);
  }

  lemma ReattachCount(t: ReviewResult, env: Env, a: Attachment, cs: seq<Comparison>, vs: seq<RevisionSet>, now: int)
    requires NamingLaws(env.names) && Reattach(t, env, a, cs, vs, now).Ok?
    ensures var r := Reattach(t, env, a, cs, vs, now).value;
      SealedResult(r) && |r.review.evidence| == |t.review.evidence| + RefWeight(a, cs)
  {
    hide PendingCount;
    match a
    case ComparisonRef(id) =>
      var c := FindComparison(cs, id).value;
      StrippedPending(env, c.changes);
      var bound := AttachedCount(t, env, Stripped(env.names, c), now);
    case RevisionRef(id) =>
      RevisionAttached(t, FindRevision(vs, id).value);
  }

  lemma {:induction false} ReplayedCount(t0: ReviewResult, env: Env, refs: seq<Attachment>, cs: seq<Comparison>,
                                         vs: seq<RevisionSet>, now: int)
    requires NamingLaws(env.names) && SealedResult(t0) && ReplayAttachments(t0, env, refs, cs, vs, now).Ok?
    ensures var r := ReplayAttachments(t0, env, refs, cs, vs, now).value;
      SealedResult(r) && |r.review.evidence| == |t0.review.evidence| + Weight(refs, cs)
  {
    hide SealedResult, Reattach, RefWeight, NamingLaws;
    if refs != [] {
      var front := refs[..|refs| - 1];
      ReplayedCount(t0, env, front, cs, vs, now);
      ReattachCount(ReplayAttachments(t0, env, front, cs, vs, now).value, env, refs[|refs| - 1], cs, vs, now);
    }
  }

  lemma {:induction false} DecisionsCount(t: ReviewResult, decisions: seq<ReviewDecision>, freshIds: nat -> Id)
    requires SealedResult(t) && ReplayDecisions(t, decisions, freshIds).Ok?
    ensures var r := ReplayDecisions(t, decisions, freshIds).value;
      SealedResult(r) && r.review.evidence == t.review.evidence
  {
    if decisions != [] {
      hide SealedResult;
      var n := |decisions| - 1;
      DecisionsCount(t, decisions[..n], freshIds);
      DecisionSealed(ReplayDecisions(t, decisions[..n], freshIds).value, decisions[n].(decisionId := freshIds(n)));
    }
  }

  lemma DecisionSealed(s: ReviewResult, d: ReviewDecision)
    requires RecordDecision(s, d).Ok?
    ensures SealedResult(RecordDecision(s, d).value) && RecordDecision(s, d).value.review.evidence == s.review.evidence
  {
    JudgementOk(s.review.run.status, Audited(s), DecisionAdded(s.review, d));
    DecisionShape(s.review, d);
  }

  lemma FinishCount(t: ReviewResult, run: ReviewRun, eventId: Id, now: int)
    requires SealedResult(t) && ReplayFinish(t, run, eventId, now).Ok?
    ensures var r := ReplayFinish(t, run, eventId, now).value;
      SealedResult(r) && r.review.evidence == t.review.evidence
  {
    if run.status == FINALIZED {
      var e := LastFinalEvent(run.stageEvents).value;
      var details := FinalDetails(t.review, eventId, e.actor, e.reason, now);
      JudgementOk(t.review.run.status, Audited(t), Finalized(t.review, details));
      FinalShape(t.review, details);
    }
  }

  lemma ReplayCount(t0: ReviewResult, env: Env, stored: ReviewResult, supply: Supply)
    requires NamingLaws(env.names) && SealedResult(t0) && ReplayReview(t0, env, stored, supply).Ok?
    ensures var r := ReplayReview(t0, env, stored, supply).value;
      && SealedResult(r) && r.fingerprint == stored.fingerprint
      && |r.review.evidence| == |t0.review.evidence| + Weight(stored.review.sequence, stored.review.comparisons)
  {
    hide SealedResult, ReplayAttachments, ReplayDecisions, ReplayFinish, NamingLaws;
    var r := stored.review;
    ReplayedCount(t0, env, r.sequence, r.comparisons, r.revisions, supply.now);
    var attached := ReplayAttachments(t0, env, r.sequence, r.comparisons, r.revisions, supply.now).value;
    DecisionsCount(attached, r.decisions, supply.freshIds);
    FinishCount(ReplayDecisions(attached, r.decisions, supply.freshIds).value, r.run, supply.eventId, supply.now);
  }

  /** Results with the same fingerprint have equally much evidence. */
  lemma EvidenceShows(s: ReviewResult, t: ReviewResult)
    requires SealedResult(s) && SealedResult(t) && s.fingerprint == t.fingerprint
    ensures |s.review.evidence| == |t.review.evidence|
  {
    assert |CanonicalContent(s.review).evidence| == |s.review.evidence|;
    assert |CanonicalContent(t.review).evidence| == |t.review.evidence|;
  }

  /** A replay that succeeds is of a history in which no change cited evidence. */
  lemma ReplayNeedsPending(s0: ReviewResult, t0: ReviewResult, env: Env, history: seq<Action>, supply: Supply)
    requires NamingLaws(env.names)
    requires Fresh(s0) && Fresh(t0) && Alike(s0.review, t0.review)
    requires Regular(s0, history) && RunHistory(s0, env, history).Ok?
    requires ReplayReview(t0, env, RunHistory(s0, env, history).value, supply).Ok?
    ensures AllPending(env, history)
  {
    hide ReplayReview, RunHistory, AllPending, CitingCount, Regular, NamingLaws, Consistent, Weight, CanonicalContent;
    var stored := RunHistory(s0, env, history).value;
    HistoryBalances(s0, env, history);
    HistoryReaches(s0, env, history);
    ReplayCount(t0, env, stored, supply);
    EvidenceShows(stored, ReplayReview(t0, env, stored, supply).value);
    assert |Map(Timeless, s0.review.evidence)| == |Map(Timeless, t0.review.evidence)|;
    NoneCitesIff(env, history);
  }
}
