/**
 Histories of what the builders make: every set that is built attaches, and only the order of
 revision sets and judgements decides about the replay.
 */
module BuiltHistories {
  import opened Ordering
  import opened ReviewModel
  import opened ReviewActions
  import opened AuditKeeping
  import opened Replay
  import opened Reattaching
  import opened ReplayTheorem
  import opened ReplayNormalForm
  import opened RevisionBuilding
  import opened ComparisonBuilding

  /** All comparisons and revision sets of the history come from the builders. */
  ghost predicate AllBuilt(env: Env, identify: Identify, b: Builder, history: seq<Action>)
  {
    forall a :: a in history ==> (a.Compare? ==> Built(env.names, identify, a.c)) && (a.Revise? ==> Named(b, a.v))
  }

  ghost predicate AllNamed(b: Builder, revisions: seq<RevisionSet>) { forall v :: v in revisions ==> Named(b, v) }

  lemma NamedStep(s: ReviewResult, env: Env, b: Builder, a: Action)
    requires AllNamed(b, s.review.revisions) && (a.Revise? ==> Named(b, a.v)) && Apply(s, env, a).Ok?
    ensures AllNamed(b, Apply(s, env, a).value.review.revisions)
  {
    hide Named, AttachComparison, AttachRevision, RecordDecision, Finalize;
    match a
    case Compare(c, at) =>
      var added, bound := ComparisonAttached(s, env, c, at);
    case Revise(v) =>
      RevisionAttached(s, v);
    case Decide(_) =>
      JudgingKeepsAttachments(s, env, a);
    case Finish(_, _, _, _) =>
      JudgingKeepsAttachments(s, env, a);
  }

  lemma {:induction false} RevisionsAreNamed(s0: ReviewResult, env: Env, b: Builder, history: seq<Action>)
    requires Fresh(s0) && RunHistory(s0, env, history).Ok?
    requires forall a :: a in history && a.Revise? ==> Named(b, a.v)
    ensures AllNamed(b, RunHistory(s0, env, history).value.review.revisions)
  {
    hide Named, Apply;
    if history != [] {
      var front, a := history[..|history| - 1], history[|history| - 1];
      SnocParts(history);
      RevisionsAreNamed(s0, env, b, front);
      assert a in history;
      NamedStep(RunHistory(s0, env, front).value, env, b, a);
    }
  }

  /** After every history of built revision sets, whatever was compared or decided, the next
      set that is built attaches. */
  lemma NextSetAttaches(s0: ReviewResult, env: Env, b: Builder, history: seq<Action>, statuses: set<FindingStatus>,
                        now: int)
    requires BuilderLaws(b) && Fresh(s0) && RunHistory(s0, env, history).Ok?
    requires forall a :: a in history && a.Revise? ==> Named(b, a.v)
    requires BuiltSet(b, RunHistory(s0, env, history).value, statuses, now).Ok?
    ensures var s := RunHistory(s0, env, history).value;
      AttachRevision(s, BuiltSet(b, s, statuses, now).value).Ok?
  {
    hide Fresh, Named, RunHistory, BuiltSet, BuilderLaws;
    RevisionsAreNamed(s0, env, b, history);
    BuiltAlwaysAttaches(b, RunHistory(s0, env, history).value, statuses, now);
  }

  lemma BuiltArePending(env: Env, identify: Identify, b: Builder, history: seq<Action>)
    requires NamingLaws(env.names) && AllBuilt(env, identify, b, history)
    ensures AllPending(env, history)
  {
    hide NamingLaws, Pending, Built;
    forall a | a in history && a.Compare? ensures Pending(env, a.c) {
      BuiltIsPending(env, identify, a.c);
    }
  }

  /** A history of built comparisons and sets replays, with the same fingerprint, if and only
      if no set was attached after a decision or the final event. */
  lemma BuiltHistoryReplays(s0: ReviewResult, t0: ReviewResult, env: Env, identify: Identify, b: Builder,
                            history: seq<Action>, supply: Supply)
    requires NamingLaws(env.names) && AllBuilt(env, identify, b, history)
    requires Fresh(s0) && Fresh(t0) && Alike(s0.review, t0.review)
    requires Regular(s0, history) && RunHistory(s0, env, history).Ok?
    requires CanRecordEvent(t0.review, supply.eventId, supply.now)
    ensures var stored := RunHistory(s0, env, history).value;
      var replayed := ReplayReview(t0, env, stored, supply);
      && (replayed.Ok? <==> RevisionsFirst(history))
      && (replayed.Ok? ==> replayed.value.fingerprint == stored.fingerprint)
  {
    hide *;
    BuiltArePending(env, identify, b, history);
    ReplaySucceedsIff(s0, t0, env, history, supply);
  }
}
