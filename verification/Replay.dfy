/**
 Replaying a review.  A history interleaves comparisons, revision sets, decisions and
 a final event; the replay redoes all attachments, then all decisions, then the final
 event, and demands the same fingerprint.
 */
module Replay {
  import opened Ordering
  import opened ReviewModel
  import opened VersionImpacts
  import opened RunLedger
  import opened ReviewActions
  import opened AuditKeeping
  import opened ComparisonGate

  // ------------------------------------------------------------------- histories

  datatype Action =
    | Compare(c: Comparison, at: int)
    | Revise(v: RevisionSet)
    | Decide(d: ReviewDecision)
    | Finish(eventId: Id, actor: Id, comment: Text, at: int)

  ghost function Apply(s: ReviewResult, env: Env, a: Action): Outcome<ReviewResult>
  {
    match a
    case Compare(c, at) => AttachComparison(s, env, c, at)
    case Revise(v) => AttachRevision(s, v)
    case Decide(d) => RecordDecision(s, d)
    case Finish(eventId, actor, comment, at) => Finalize(s, eventId, actor, comment, at)
  }

  ghost function RunHistory(s: ReviewResult, env: Env, history: seq<Action>): Outcome<ReviewResult>
  {
    if history == [] then Ok(s)
    else
      var before := RunHistory(s, env, history[..|history| - 1]);
      if before.Err? then before else Apply(before.value, env, history[|history| - 1])
  }

  predicate Judges(a: Action) { a.Decide? || a.Finish? }

  /** Every revision set of the history comes before the first decision and the final event. */
  predicate RevisionsFirst(history: seq<Action>)
  {
    forall i, j :: 0 <= i < j < |history| && Judges(history[i]) ==> !history[j].Revise?
  }

  /** The comparison has no evidence of its own yet, as build_version_comparison makes it. */
  predicate Pending(env: Env, c: Comparison)
  {
    forall ch :: ch in c.changes ==> !Requests(env, ch)
  }

  /** No comparison of the history cites evidence when it is attached. */
  predicate AllPending(env: Env, history: seq<Action>)
  {
    forall a :: a in history && a.Compare? ==> Pending(env, a.c)
  }

  /** What the environment owes: a fresh id and a clock that does not go back for every
      final event. */
  ghost predicate Regular(s: ReviewResult, history: seq<Action>)
  {
    forall a :: a in history && a.Finish? ==> CanRecordEvent(s.review, a.eventId, a.at)
  }

  // ---------------------------------------------------------------- the replay itself

  function FindComparison(comparisons: seq<Comparison>, id: Id): Option<Comparison>
  {
    if comparisons == [] then None
    else
      var last := comparisons[|comparisons| - 1];
      if last.comparisonId == id then Some(last) else FindComparison(comparisons[..|comparisons| - 1], id)
  }

  function FindRevision(revisions: seq<RevisionSet>, id: Id): Option<RevisionSet>
  {
    if revisions == [] then None
    else
      var last := revisions[|revisions| - 1];
      if last.revisionId == id then Some(last) else FindRevision(revisions[..|revisions| - 1], id)
  }

  function StrippedChanges(names: Naming, changes: seq<VersionChange>): (r: seq<VersionChange>)
    ensures |r| == |changes|
  {
    Map((ch: VersionChange) => ch.(evidenceIds := [names.pendingFor(ch.changeId)]), changes)
  }

  /** A stored comparison made attachable again: its evidence is forgotten, its bound
      clauses, impacts and retrigger list are carried along. */
  function Stripped(names: Naming, c: Comparison): Comparison
  {
    c.(evidenceIds := [], changes := StrippedChanges(names, c.changes))
  }

  ghost function Reattach(t: ReviewResult, env: Env, a: Attachment, comparisons: seq<Comparison>,
                          revisions: seq<RevisionSet>, now: int): Outcome<ReviewResult>
  {
    match a
    case ComparisonRef(id) =>
      var c := FindComparison(comparisons, id);
      if c.None? then Err(UnknownAttachment) else AttachComparison(t, env, Stripped(env.names, c.value), now)
    case RevisionRef(id) =>
      var v := FindRevision(revisions, id);
      if v.None? then Err(UnknownAttachment) else AttachRevision(t, v.value)
  }

  ghost function ReplayAttachments(t: ReviewResult, env: Env, refs: seq<Attachment>, comparisons: seq<Comparison>,
                                   revisions: seq<RevisionSet>, now: int): Outcome<ReviewResult>
  {
    if refs == [] then Ok(t)
    else
      var before := ReplayAttachments(t, env, refs[..|refs| - 1], comparisons, revisions, now);
      if before.Err? then before
      else Reattach(before.value, env, refs[|refs| - 1], comparisons, revisions, now)
  }

  function ReplayDecisions(t: ReviewResult, decisions: seq<ReviewDecision>, freshIds: nat -> Id): Outcome<ReviewResult>
  {
    if decisions == [] then Ok(t)
    else
      var n := |decisions| - 1;
      var before := ReplayDecisions(t, decisions[..n], freshIds);
      if before.Err? then before else RecordDecision(before.value, decisions[n].(decisionId := freshIds(n)))
  }

  function LastFinalEvent(events: seq<StageEvent>): Option<StageEvent>
  {
    if events == [] then None
    else if events[|events| - 1].toStage == FINALIZED then Some(events[|events| - 1])
    else LastFinalEvent(events[..|events| - 1])
  }

  function ReplayFinish(t: ReviewResult, run: ReviewRun, eventId: Id, now: int): Outcome<ReviewResult>
  {
    if run.status != FINALIZED then Ok(t)
    else
      var e := LastFinalEvent(run.stageEvents);
      if e.None? then Err(UnknownAttachment) else Finalize(t, eventId, e.value.actor, e.value.reason, now)
  }

  /** What a replay draws from its environment. */
  datatype Supply = Supply(freshIds: nat -> Id, eventId: Id, now: int)

  /** replay_review after `t` has been rebuilt by run_review. */
  ghost function ReplayReview(t: ReviewResult, env: Env, stored: ReviewResult, supply: Supply): Outcome<ReviewResult>
  {
    var r := stored.review;
    var attached := ReplayAttachments(t, env, r.sequence, r.comparisons, r.revisions, supply.now);
    if attached.Err? then attached
    else
      var decided := ReplayDecisions(attached.value, r.decisions, supply.freshIds);
      if decided.Err? then decided
      else
        var finished := ReplayFinish(decided.value, r.run, supply.eventId, supply.now);
        if finished.Err? then finished
        else if finished.value.fingerprint != stored.fingerprint then Err(FingerprintMismatch)
        else finished
  }

  method RunReplay(t: ReviewResult, env: Env, stored: ReviewResult, supply: Supply)
    returns (result: Outcome<ReviewResult>)
    ensures result == ReplayReview(t, env, stored, supply)
  {
    var r := stored.review;
    var replayed := RedoAttachments(t, env, r.sequence, r.comparisons, r.revisions, supply.now);
    if replayed.Err? {
      return replayed;
    }
    replayed := RedoDecisions(replayed.value, r.decisions, supply.freshIds);
    if replayed.Err? {
      return replayed;
    }
    replayed := ReplayFinish(replayed.value, r.run, supply.eventId, supply.now);
    if replayed.Ok? && replayed.value.fingerprint != stored.fingerprint {
      return Err(FingerprintMismatch);
    }
    return replayed;
  }

  method RedoAttachments(t: ReviewResult, env: Env, refs: seq<Attachment>, comparisons: seq<Comparison>,
                         revisions: seq<RevisionSet>, now: int) returns (result: Outcome<ReviewResult>)
    ensures result == ReplayAttachments(t, env, refs, comparisons, revisions, now)
  {
    result := Ok(t);
    for n := 0 to |refs|
      invariant result == ReplayAttachments(t, env, refs[..n], comparisons, revisions, now)
    {
      TakeStep(refs, n);
      if result.Ok? {
        result := RedoAttachment(result.value, env, refs[n], comparisons, revisions, now);
      }
    }
    TakeAll(refs);
  }

  method RedoAttachment(t: ReviewResult, env: Env, a: Attachment, comparisons: seq<Comparison>,
                        revisions: seq<RevisionSet>, now: int) returns (result: Outcome<ReviewResult>)
    ensures result == Reattach(t, env, a, comparisons, revisions, now)
  {
    match a
    case ComparisonRef(id) =>
      var c := FindComparison(comparisons, id);
      if c.None? {
        return Err(UnknownAttachment);
      }
      result := AttachVersionComparison(t, env, Stripped(env.names, c.value), now);
    case RevisionRef(id) =>
      var v := FindRevision(revisions, id);
      return if v.None? then Err(UnknownAttachment) else AttachRevision(t, v.value);
  }

  method RedoDecisions(t: ReviewResult, decisions: seq<ReviewDecision>, freshIds: nat -> Id)
    returns (result: Outcome<ReviewResult>)
    ensures result == ReplayDecisions(t, decisions, freshIds)
  {
    hide RecordDecision;
    result := Ok(t);
    for n := 0 to |decisions|
      invariant result == ReplayDecisions(t, decisions[..n], freshIds)
    {
      TakeStep(decisions, n);
      if result.Ok? {
        result := RecordDecision(result.value, decisions[n].(decisionId := freshIds(n)));
      }
    }
    TakeAll(decisions);
  }
}
