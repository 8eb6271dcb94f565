/** The order of the stages, what each event of a run says, and that no stage is skipped
    before the rules have been checked. */
module RunStages {
  import opened Ordering
  import opened ReviewModel
  import opened RunLedger

  /** The stages on the way from receipt to the final review. */
  const STAGES: seq<ReviewStatus> := [RECEIVED, PARSED, QUALITY_GATED, INDEXED, EXTRACTED, RULE_CHECKED,
    SEMANTIC_REVIEWED, HUMAN_REVIEW, FINALIZED]

  /** Where the rules have been checked. */
  const CHECKED := 5

  /** Any open run may fail.  Otherwise a run goes to the next stage, and once the rules are
      checked to any later one. */
  lemma TransitionsIff(i: nat, to: ReviewStatus)
    requires i < |STAGES|
    ensures to in AllowedTransitions(STAGES[i]) <==>
      i < 8 && (to == FAILED || exists j :: i < j < |STAGES| && STAGES[j] == to && (j == i + 1 || i >= CHECKED))
    ensures AllowedTransitions(FAILED) == {}
  {
    var next := if i < 8 then STAGES[i + 1] else FAILED;
    assert STAGES[0] == RECEIVED && STAGES[1] == PARSED && STAGES[2] == QUALITY_GATED && STAGES[3] == INDEXED;
    assert STAGES[4] == EXTRACTED && STAGES[5] == RULE_CHECKED && STAGES[6] == SEMANTIC_REVIEWED;
    assert STAGES[7] == HUMAN_REVIEW && STAGES[8] == FINALIZED;
  }

  /** The stage before move i. */
  function StageBefore(moves: seq<Move>, i: nat): ReviewStatus
    requires i <= |moves|
  {
    if i == 0 then RECEIVED else moves[i - 1].to
  }

  function EventAt(runId: Id, from: Option<ReviewStatus>, to: ReviewStatus, d: EventDetails): StageEvent
  {
    StageEvent(d.eventId, ReviewRunSubject, runId, from, to, d.action, d.actor, d.reason, d.evidenceIds, d.at)
  }

  lemma SameStages(moves: seq<Move>, n: nat)
    requires n < |moves|
    ensures forall i :: 0 <= i <= n ==> StageBefore(moves[..n], i) == StageBefore(moves, i)
  {
  }

  /** The events and the finish time that the moves leave behind. */
  ghost predicate Records(runId: Id, start: EventDetails, moves: seq<Move>, run: ReviewRun)
  {
    && run.runId == runId && run.status == StageBefore(moves, |moves|) && |run.stageEvents| == |moves| + 1
    && run.stageEvents[0] == EventAt(runId, None, RECEIVED, start)
    && (forall i :: 0 <= i < |moves| ==>
          run.stageEvents[i + 1] == EventAt(runId, Some(StageBefore(moves, i)), moves[i].to, moves[i].details))
    && (if run.status == FINALIZED || run.status == FAILED
        then moves != [] && run.finishedAt == Some(moves[|moves| - 1].details.at) else run.finishedAt == None)
    && run.findingIds == run.decisionIds == run.comparisonIds == run.revisionIds == []
  }

  lemma AdvanceMakes(run: ReviewRun, to: ReviewStatus, d: EventDetails)
    requires Advance(run, to, d).Ok?
    ensures run.status != FINALIZED && run.status != FAILED
    ensures Advance(run, to, d).value == run.(
      status := to, stageEvents := run.stageEvents + [EventAt(run.runId, Some(run.status), to, d)],
      finishedAt := if to == FINALIZED || to == FAILED then Some(d.at) else run.finishedAt)
  {
  }

  lemma RecordsOneMore(runId: Id, start: EventDetails, moves: seq<Move>, run: ReviewRun, after: ReviewRun)
    requires moves != [] && Records(runId, start, moves[..|moves| - 1], run)
    requires run.status != FINALIZED && run.status != FAILED
    requires var m := moves[|moves| - 1];
      after == run.(
        status := m.to, stageEvents := run.stageEvents + [EventAt(run.runId, Some(run.status), m.to, m.details)],
        finishedAt := if m.to == FINALIZED || m.to == FAILED then Some(m.details.at) else run.finishedAt)
    ensures Records(runId, start, moves, after)
  {
    SameStages(moves, |moves| - 1);
    hide EventAt;
    var n := |moves| - 1;
    forall i | 0 <= i < |moves|
      ensures after.stageEvents[i + 1] == EventAt(runId, Some(StageBefore(moves, i)), moves[i].to, moves[i].details)
    {
      if i < n { assert run.stageEvents[i + 1] == after.stageEvents[i + 1]; }
    }
  }

  /** A run records its creation and every move with all its details, ends in the stage of its
      last move, and has a finish time exactly in a final stage. */
  lemma {:induction false} RunRecords(runId: Id, start: EventDetails, moves: seq<Move>)
    requires RunOf(runId, start, moves).Ok?
    ensures Records(runId, start, moves, RunOf(runId, start, moves).value)
  {
    hide Advance, Records, AllowedTransitions;
    if moves == [] {
      Created(runId, start);
    } else {
      var n := |moves| - 1;
      RunRecords(runId, start, moves[..n]);
      var run := RunOf(runId, start, moves[..n]).value;
      AdvanceMakes(run, moves[n].to, moves[n].details);
      RecordsOneMore(runId, start, moves, run, RunOf(runId, start, moves).value);
    }
  }

  lemma Created(runId: Id, start: EventDetails)
    ensures Records(runId, start, [], CreateRun(runId, start))
  {
  }

  lemma RecordsStatus(runId: Id, start: EventDetails, moves: seq<Move>, run: ReviewRun)
    requires Records(runId, start, moves, run)
    ensures run.status == StageBefore(moves, |moves|)
  {
  }

  /** A run exists exactly when each move is allowed after the one before it. */
  lemma {:induction false} RunExistsIff(runId: Id, start: EventDetails, moves: seq<Move>)
    ensures RunOf(runId, start, moves).Ok? <==>
      forall i :: 0 <= i < |moves| ==> moves[i].to in AllowedTransitions(StageBefore(moves, i))
  {
    hide AllowedTransitions, Records, StageBefore;
    if moves != [] {
      var n := |moves| - 1;
      RunExistsIff(runId, start, moves[..n]);
      SameStages(moves, n);
      if RunOf(runId, start, moves[..n]).Ok? {
        RunRecords(runId, start, moves[..n]);
        RecordsStatus(runId, start, moves[..n], RunOf(runId, start, moves[..n]).value);
      }
    }
  }

  /** A run that has not failed went through every stage up to the check of the rules, one
      after the other. */
  lemma NoStageSkipped(runId: Id, start: EventDetails, moves: seq<Move>, k: nat)
    requires RunOf(runId, start, moves).Ok? && StageBefore(moves, |moves|) != FAILED
    requires k <= |moves| && k <= CHECKED
    ensures k < |RunOf(runId, start, moves).value.stageEvents|
    ensures RunOf(runId, start, moves).value.stageEvents[k].toStage == STAGES[k]
  {
    hide AllowedTransitions, RunOf;
    RunRecords(runId, start, moves);
    RunExistsIff(runId, start, moves);
    StagesClimb(moves, k);
    if k > 0 { assert RunOf(runId, start, moves).value.stageEvents[(k - 1) + 1].toStage == moves[k - 1].to; }
  }

  ghost predicate Allowed(moves: seq<Move>)
  {
    forall i :: 0 <= i < |moves| ==> moves[i].to in AllowedTransitions(StageBefore(moves, i))
  }

  lemma {:induction false} StagesClimb(moves: seq<Move>, n: nat)
    requires n <= |moves| && Allowed(moves) && StageBefore(moves, |moves|) != FAILED
    ensures exists j :: n <= j < |STAGES| && StageBefore(moves, n) == STAGES[j] && (n <= CHECKED ==> j == n)
  {
    hide AllowedTransitions;
    if n == 0 {
      assert STAGES[0] == RECEIVED;
    } else {
      StagesClimb(moves, n - 1);
      var j :| n - 1 <= j < |STAGES| && StageBefore(moves, n - 1) == STAGES[j] && (n - 1 <= CHECKED ==> j == n - 1);
      assert moves[n - 1].to in AllowedTransitions(StageBefore(moves, n - 1));
      TransitionsIff(j, moves[n - 1].to);
      NeverFailed(moves, n);
    }
  }

  lemma {:induction false} NeverFailed(moves: seq<Move>, n: nat)
    requires n <= |moves| && Allowed(moves) && StageBefore(moves, |moves|) != FAILED
    ensures StageBefore(moves, n) != FAILED
    decreases |moves| - n
  {
    if n < |moves| {
      NeverFailed(moves, n + 1);
      FailedIsFinal();
      assert moves[n].to in AllowedTransitions(StageBefore(moves, n));
      hide AllowedTransitions;
    }
  }

  lemma FailedIsFinal()
    ensures AllowedTransitions(FAILED) == {}
  {
  }

  /** The event store files two events under one subject if and only if kind and id of their
      subjects are the same. */
  lemma SubjectIs(a: StageEvent, b: StageEvent)
    ensures SubjectOf(a) == SubjectOf(b) <==> a.subjectType == b.subjectType && a.subjectId == b.subjectId
  {
  }
}
