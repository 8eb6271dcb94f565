/**
 Review runs and their stage event ledger: creation, the transition table, the
 in-memory event store and the ledger audit.
 */
module RunLedger {
  import opened Ordering
  import opened ReviewModel

  function AllowedTransitions(s: ReviewStatus): set<ReviewStatus>
  {
    match s
    case RECEIVED => {PARSED, FAILED}
    case PARSED => {QUALITY_GATED, FAILED}
    case QUALITY_GATED => {INDEXED, FAILED}
    case INDEXED => {EXTRACTED, FAILED}
    case EXTRACTED => {RULE_CHECKED, FAILED}
    case RULE_CHECKED => {SEMANTIC_REVIEWED, HUMAN_REVIEW, FINALIZED, FAILED}
    case SEMANTIC_REVIEWED => {HUMAN_REVIEW, FINALIZED, FAILED}
    case HUMAN_REVIEW => {FINALIZED, FAILED}
    case FINALIZED => {}
    case FAILED => {}
  }

  datatype EventDetails = EventDetails(eventId: Id, action: Text, actor: Id, reason: Text,
                                       evidenceIds: seq<Id>, at: int)

  function CreateRun(runId: Id, details: EventDetails): ReviewRun
  {
    var e := StageEvent(details.eventId, ReviewRunSubject, runId, None, RECEIVED, details.action, details.actor,
                        details.reason, details.evidenceIds, details.at);
    ReviewRun(runId, RECEIVED, [e], None, [], [], [], [])
  }

  function NextEvent(run: ReviewRun, to: ReviewStatus, details: EventDetails): StageEvent
  {
    StageEvent(details.eventId, ReviewRunSubject, run.runId, Some(run.status), to, details.action, details.actor,
               details.reason, details.evidenceIds, details.at)
  }

  function Advance(run: ReviewRun, to: ReviewStatus, details: EventDetails): Outcome<ReviewRun>
  {
    if to !in AllowedTransitions(run.status) then Err(InvalidTransition)
    else
      Ok(run.(status := to, stageEvents := run.stageEvents + [NextEvent(run, to, details)],
              finishedAt := if Terminal(to) then Some(details.at) else run.finishedAt))
  }

  // ----------------------------------------------------------------- whole runs

  datatype Move = Move(to: ReviewStatus, details: EventDetails)

  /** A run created and then advanced through a list of moves, if all are allowed. */
  function RunOf(runId: Id, start: EventDetails, moves: seq<Move>): Outcome<ReviewRun>
  {
    if moves == [] then Ok(CreateRun(runId, start))
    else
      var before := RunOf(runId, start, moves[..|moves| - 1]);
      if before.Err? then before
      else Advance(before.value, moves[|moves| - 1].to, moves[|moves| - 1].details)
  }

  /** What the environment supplies: event ids never repeat, the clock never goes back. */
  ghost predicate FreshAndOrdered(start: EventDetails, moves: seq<Move>)
  {
    && (forall i :: 0 <= i < |moves| ==> start.eventId != moves[i].details.eventId && start.at <= moves[i].details.at)
    && (forall i, j :: 0 <= i < j < |moves| ==>
          moves[i].details.eventId != moves[j].details.eventId && moves[i].details.at <= moves[j].details.at)
  }

  ghost predicate EvidenceKnown(start: EventDetails, moves: seq<Move>, known: seq<Id>)
  {
    && AllIn(start.evidenceIds, known)
    && forall i :: 0 <= i < |moves| ==> AllIn(moves[i].details.evidenceIds, known)
  }

  /** How far a status is from the start. */
  function Rank(s: ReviewStatus): nat
  {
    match s
    case RECEIVED => 0
    case PARSED => 1
    case QUALITY_GATED => 2
    case INDEXED => 3
    case EXTRACTED => 4
    case RULE_CHECKED => 5
    case SEMANTIC_REVIEWED => 6
    case HUMAN_REVIEW => 7
    case FINALIZED => 8
    case FAILED => 8
  }

  /** Every advance climbs, so a run takes at most eight and a terminal state none. */
  lemma {:induction false} RunsAreBounded(runId: Id, start: EventDetails, moves: seq<Move>)
    requires RunOf(runId, start, moves).Ok?
    ensures |moves| <= Rank(RunOf(runId, start, moves).value.status) <= 8
    ensures forall to, d :: Advance(RunOf(runId, start, moves).value, to, d).Ok?
              ==> Rank(to) > Rank(RunOf(runId, start, moves).value.status)
  {
    if moves != [] {
      RunsAreBounded(runId, start, moves[..|moves| - 1]);
    }
  }

  lemma EventsAppend(es: seq<StageEvent>, e: StageEvent, runId: Id, known: seq<Id>)
    requires es != [] && Follows(es[|es| - 1], e)
    requires EventIdsUnique(es) && EventsOwned(es, runId, known) && EventsChained(es)
    requires e.subjectType == ReviewRunSubject && e.subjectId == runId && AllIn(e.evidenceIds, known)
    requires forall x :: x in es ==> x.eventId != e.eventId
    ensures EventIdsUnique(es + [e]) && EventsOwned(es + [e], runId, known) && EventsChained(es + [e])
  {
    assert forall i :: 0 <= i < |es| ==> es[i] in es;
  }

  /** An allowed advance with a fresh event keeps the ledger valid and only appends. */
  lemma LedgerGrows(run: ReviewRun, to: ReviewStatus, details: EventDetails, known: seq<Id>)
    requires LedgerValid(run, known)
    requires to in AllowedTransitions(run.status)
    requires AllIn(details.evidenceIds, known)
    requires forall e :: e in run.stageEvents ==> e.eventId != details.eventId
    requires run.stageEvents[|run.stageEvents| - 1].occurredAt <= details.at
    ensures Advance(run, to, details).Ok?
    ensures LedgerValid(Advance(run, to, details).value, known)
    ensures Advance(run, to, details).value.stageEvents == run.stageEvents + [NextEvent(run, to, details)]
  {
    EventsAppend(run.stageEvents, NextEvent(run, to, details), run.runId, known);
  }

  /** The events of a run are the creation event followed by one event per move. */
  lemma {:induction false} EventsOfRun(runId: Id, start: EventDetails, moves: seq<Move>)
    requires RunOf(runId, start, moves).Ok?
    ensures var run := RunOf(runId, start, moves).value;
      && run.runId == runId
      && |run.stageEvents| == |moves| + 1
      && run.stageEvents[0].eventId == start.eventId && run.stageEvents[0].occurredAt == start.at
      && forall i :: 0 <= i < |moves| ==>
           && run.stageEvents[i + 1].eventId == moves[i].details.eventId
           && run.stageEvents[i + 1].occurredAt == moves[i].details.at
           && run.stageEvents[i + 1].toStage == moves[i].to
  {
    if moves != [] {
      EventsOfRun(runId, start, moves[..|moves| - 1]);
    }
  }

  /** Every run that can be built passes the ledger audit. */
  lemma {:induction false} EveryRunIsAuditable(runId: Id, start: EventDetails, moves: seq<Move>, known: seq<Id>)
    requires RunOf(runId, start, moves).Ok?
    requires FreshAndOrdered(start, moves)
    requires EvidenceKnown(start, moves, known)
    ensures LedgerValid(RunOf(runId, start, moves).value, known)
  {
    if moves != [] {
      var front, last := moves[..|moves| - 1], moves[|moves| - 1];
      EveryRunIsAuditable(runId, start, front, known);
      EventsOfRun(runId, start, front);
      var run := RunOf(runId, start, front).value;
      forall e | e in run.stageEvents ensures e.eventId != last.details.eventId {
        var i :| 0 <= i < |run.stageEvents| && run.stageEvents[i] == e;
        if i > 0 { assert run.stageEvents[(i - 1) + 1].eventId == moves[i - 1].details.eventId; }
      }
      LedgerGrows(run, last.to, last.details, known);
    }
  }

  // ------------------------------------------------------------ the ledger check

  /** _stage_event_ledger_is_valid: one pass with two running variables. */
  method CheckLedger(run: ReviewRun, known: seq<Id>) returns (ok: bool)
    ensures ok == LedgerValid(run, known)
  {
    var es := run.stageEvents;
    if es == [] || exists i, j :: 0 <= i < j < |es| && es[i].eventId == es[j].eventId {
      return false;
    }
    var previousStage: Option<ReviewStatus> := None;
    var previousTime: Option<int> := None;
    for n := 0 to |es|
      invariant n == 0 ==> previousStage == None && previousTime == None
      invariant n > 0 ==> previousStage == Some(es[n - 1].toStage) && previousTime == Some(es[n - 1].occurredAt)
      invariant n > 0 ==> es[0].fromStage == None && es[0].toStage == RECEIVED
      invariant forall i :: 0 <= i < n ==>
        es[i].subjectType == ReviewRunSubject && es[i].subjectId == run.runId && AllIn(es[i].evidenceIds, known)
      invariant forall i :: 1 <= i < n ==> Follows(es[i - 1], es[i])
    {
      var e := es[n];
      if e.subjectType != ReviewRunSubject || e.subjectId != run.runId || !AllIn(e.evidenceIds, known) {
        assert e in es;
        return false;
      }
      if n == 0 {
        if e.fromStage != None || e.toStage != RECEIVED {
          return false;
        }
      } else if e.fromStage != previousStage {
        return false;
      }
      if previousTime.Some? && e.occurredAt < previousTime.value {
        return false;
      }
      previousStage := Some(e.toStage);
      previousTime := Some(e.occurredAt);
    }
    if previousStage != Some(run.status) {
      return false;
    }
    if Terminal(run.status) {
      return run.finishedAt == Some(es[|es| - 1].occurredAt);
    }
    return run.finishedAt == None;
  }

  // ------------------------------------------------------------ the event store

  datatype Subject = Subject(kind: SubjectType, id: Id)

  function SubjectOf(e: StageEvent): Subject { Subject(e.subjectType, e.subjectId) }

  function Find(events: seq<StageEvent>, id: Id): (e: Option<StageEvent>)
    ensures e.None? <==> forall x :: x in events ==> x.eventId != id
    ensures e.Some? ==> e.value in events && e.value.eventId == id
  {
    if events == [] then None
    else if events[0].eventId == id then Some(events[0])
    else Find(events[1..], id)
  }

  datatype AppendResult = Appended | Repeated | Conflict | StopIteration

  /** Events lie under their subject, the known ids are theirs, and none repeats in a list. */
  ghost predicate Filed(events: map<Subject, seq<StageEvent>>, ids: set<Id>)
  {
    && (forall s, e :: s in events && e in events[s] ==> SubjectOf(e) == s && e.eventId in ids)
    && (forall id :: id in ids ==> exists s, e :: s in events && e in events[s] && e.eventId == id)
    && (forall s, i, j :: s in events && 0 <= i < j < |events[s]| ==> events[s][i].eventId != events[s][j].eventId)
  }

  /** An id names at most one event of a subject, and listed events have known ids. */
  lemma KnownId(events: map<Subject, seq<StageEvent>>, ids: set<Id>, e: StageEvent)
    requires Filed(events, ids)
    ensures SubjectOf(e) in events ==>
      forall x, y :: x in events[SubjectOf(e)] && y in events[SubjectOf(e)] && x.eventId == y.eventId ==> x == y
    ensures SubjectOf(e) in events && e in events[SubjectOf(e)] ==> e.eventId in ids
  {
    if SubjectOf(e) in events {
      var list := events[SubjectOf(e)];
      forall x, y | x in list && y in list && x.eventId == y.eventId ensures x == y {
        var i :| 0 <= i < |list| && list[i] == x;
        var j :| 0 <= j < |list| && list[j] == y;
      }
    }
  }

  lemma FiledStep(events: map<Subject, seq<StageEvent>>, ids: set<Id>, present: seq<StageEvent>, e: StageEvent)
    requires Filed(events, ids) && e.eventId !in ids
    requires present == if SubjectOf(e) in events then events[SubjectOf(e)] else []
    ensures Filed(events[SubjectOf(e) := present + [e]], ids + {e.eventId})
  {
    var after := events[SubjectOf(e) := present + [e]];
    assert e in after[SubjectOf(e)];
    assert forall s :: s in events ==> s in after && forall x :: x in events[s] ==> x in after[s];
  }

  /** InMemoryStageEventStore: the two private fields of the source. */
  class EventStore {
    var events: map<Subject, seq<StageEvent>>
    var eventIds: set<Id>

    ghost predicate Valid()
      reads this
    {
      Filed(events, eventIds)
    }

    /** list_stage_events */
    function Listed(s: Subject): seq<StageEvent>
      reads this
    {
      if s in events then events[s] else []
    }

    constructor ()
      ensures Valid() && events == map[] && eventIds == {}
    {
      events := map[];
      eventIds := {};
    }

    /** A repeated event is dropped, an event id with another payload is refused; an id
        already used by another subject finds no existing event and raises. */
    method Append(e: StageEvent) returns (result: AppendResult)
      requires Valid()
      modifies this
      ensures Valid()
      ensures old(e.eventId !in eventIds) ==>
                result == Appended && Listed(SubjectOf(e)) == old(Listed(SubjectOf(e))) + [e]
                && eventIds == old(eventIds) + {e.eventId}
      ensures old(e.eventId in eventIds) ==> events == old(events) && eventIds == old(eventIds)
      ensures result == Repeated <==> old(e.eventId in eventIds && e in Listed(SubjectOf(e)))
      ensures result == StopIteration <==>
                old(e.eventId in eventIds) && forall x :: x in old(Listed(SubjectOf(e))) ==> x.eventId != e.eventId
      ensures forall s :: s != SubjectOf(e) ==> Listed(s) == old(Listed(s))
    {
      KnownId(events, eventIds, e);
      hide Filed;
      var key := SubjectOf(e);
      var present := Listed(key);
      if e.eventId in eventIds {
        var existing := Find(present, e.eventId);
        if existing.None? {
          return StopIteration;
        }
        if existing.value != e {
          return Conflict;
        }
        return Repeated;
      }
      FiledStep(events, eventIds, present, e);
      events := events[key := present + [e]];
      eventIds := eventIds + {e.eventId};
      return Appended;
    }

    lemma EmptyListing(s: Subject)
      requires Valid() && eventIds == {}
      ensures Listed(s) == []
    {
      assert forall e :: e in Listed(s) ==> e.eventId in eventIds;
      SomeElement(Listed(s));
    }

    method AppendNext(run: ReviewRun, appends: seq<StageEvent>, n: nat)
      requires Valid() && n < |appends|
      requires Dedup(appends) == run.stageEvents && EventIdsUnique(run.stageEvents)
      requires SubjectOf(appends[n]) == Subject(ReviewRunSubject, run.runId)
      requires Listed(Subject(ReviewRunSubject, run.runId)) == Dedup(appends[..n])
      requires eventIds == IdsOf(appends[..n])
      modifies this
      ensures Valid()
      ensures Listed(Subject(ReviewRunSubject, run.runId)) == Dedup(appends[..n + 1])
      ensures eventIds == IdsOf(appends[..n + 1])
    {
      NextIds(appends, n);
      NextAppend(run, appends, n);
      var result := Append(appends[n]);
    }

    /** However the events of a run are retried, at once or much later, the store lists
        exactly the run's ledger. */
    method Feed(run: ReviewRun, appends: seq<StageEvent>)
      requires Valid() && eventIds == {}
      requires Dedup(appends) == run.stageEvents
      requires EventIdsUnique(run.stageEvents)
      requires forall e :: e in run.stageEvents ==> SubjectOf(e) == Subject(ReviewRunSubject, run.runId)
      modifies this
      ensures Valid()
      ensures Listed(Subject(ReviewRunSubject, run.runId)) == run.stageEvents
    {
      var subject := Subject(ReviewRunSubject, run.runId);
      EmptyListing(subject);
      InRun(run, appends);
      for n := 0 to |appends|
        invariant Valid()
        invariant Listed(subject) == Dedup(appends[..n])
        invariant eventIds == IdsOf(appends[..n])
      {
        AppendNext(run, appends, n);
      }
      assert appends[..|appends|] == appends;
    }
  }

  function IdsOf(events: seq<StageEvent>): set<Id> { set e | e in events :: e.eventId }

  lemma NextIds(appends: seq<StageEvent>, n: nat)
    requires n < |appends|
    ensures IdsOf(appends[..n + 1]) == IdsOf(appends[..n]) + {appends[n].eventId}
  {
    TakeStep(appends, n);
  }

  lemma InRun(run: ReviewRun, appends: seq<StageEvent>)
    requires Dedup(appends) == run.stageEvents
    ensures forall n :: 0 <= n < |appends| ==> appends[n] in run.stageEvents
  {
    assert forall n :: 0 <= n < |appends| ==> appends[n] in appends;
  }

  lemma FreshId(events: seq<StageEvent>, before: seq<StageEvent>, e: StageEvent)
    requires EventIdsUnique(events) && before + [e] <= events
    ensures forall x :: x in before ==> x.eventId != e.eventId
  {
    assert events[|before|] == e;
    forall x | x in before ensures x.eventId != e.eventId {
      var i :| 0 <= i < |before| && before[i] == x;
      assert events[i] == x;
    }
  }

  lemma NewEventHasNewId(run: ReviewRun, appends: seq<StageEvent>, n: nat)
    requires n < |appends| && appends[n] !in appends[..n]
    requires Dedup(appends) == run.stageEvents && EventIdsUnique(run.stageEvents)
    ensures appends[n].eventId !in IdsOf(appends[..n])
  {
    TakeStep(appends, n);
    DedupStep(appends[..n], appends[n]);
    DedupPrefix(appends, n + 1);
    FreshId(run.stageEvents, Dedup(appends[..n]), appends[n]);
  }

  lemma NextAppend(run: ReviewRun, appends: seq<StageEvent>, n: nat)
    requires n < |appends|
    requires Dedup(appends) == run.stageEvents && EventIdsUnique(run.stageEvents)
    ensures if appends[n].eventId in IdsOf(appends[..n])
            then Dedup(appends[..n + 1]) == Dedup(appends[..n])
            else Dedup(appends[..n + 1]) == Dedup(appends[..n]) + [appends[n]]
  {
    TakeStep(appends, n);
    DedupStep(appends[..n], appends[n]);
    if appends[n] !in appends[..n] {
      NewEventHasNewId(run, appends, n);
    }
  }
}
