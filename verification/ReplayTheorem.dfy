/**
 When a replay succeeds: exactly for the histories in which every revision set was
 attached before the first decision and the final event.
 */
module ReplayTheorem {
  import opened Ordering
  import opened ReviewModel
  import opened VersionImpacts
  import opened RunLedger
  import opened ReviewActions
  import opened AuditKeeping
  import opened ComparisonGate
  import opened Replay
  import opened Reattaching

  // -------------------------------------------------------------------- lookups

  lemma FindAppended(comparisons: seq<Comparison>, c: Comparison, id: Id)
    ensures FindComparison(comparisons + [c], id) ==
            if c.comparisonId == id then Some(c) else FindComparison(comparisons, id)
  {
    DropSnoc(comparisons, c);
  }

  lemma FindRevisionAppended(revisions: seq<RevisionSet>, v: RevisionSet, id: Id)
    ensures FindRevision(revisions + [v], id) == if v.revisionId == id then Some(v) else FindRevision(revisions, id)
  {
    DropSnoc(revisions, v);
  }

  /** Replaying the references of a review does not notice attachments made later. */
  lemma {:induction false} EarlierUnaffected(t: ReviewResult, env: Env, refs: seq<Attachment>, cs: seq<Comparison>,
                                             vs: seq<RevisionSet>, a: Attachment, c: Comparison, v: RevisionSet,
                                             now: int)
    requires a !in refs
    requires a == ComparisonRef(c.comparisonId) || a == RevisionRef(v.revisionId)
    ensures a.ComparisonRef? ==>
              ReplayAttachments(t, env, refs, cs + [c], vs, now) == ReplayAttachments(t, env, refs, cs, vs, now)
    ensures a.RevisionRef? ==>
              ReplayAttachments(t, env, refs, cs, vs + [v], now) == ReplayAttachments(t, env, refs, cs, vs, now)
  {
    if refs != [] {
      var front, last := refs[..|refs| - 1], refs[|refs| - 1];
      SnocParts(refs);
      EarlierUnaffected(t, env, front, cs, vs, a, c, v, now);
      FindAppended(cs, c, last.id);
      FindRevisionAppended(vs, v, last.id);
    }
  }

  lemma ReplayOneMore(t: ReviewResult, env: Env, refs: seq<Attachment>, a: Attachment, cs: seq<Comparison>,
                      vs: seq<RevisionSet>, now: int)
    ensures var before := ReplayAttachments(t, env, refs, cs, vs, now);
      ReplayAttachments(t, env, refs + [a], cs, vs, now) ==
      if before.Err? then before else Reattach(before.value, env, a, cs, vs, now)
  {
    DropSnoc(refs, a);
  }

  // ----------------------------------------------------------- equal fingerprints

  /** Alike reviews that agree on decisions and status have the same content. */
  lemma SameContent(s: Review, t: Review)
    requires Alike(s, t) && Consistent(s) && Consistent(t)
    requires Map(ContentOf, t.decisions) == Map(ContentOf, s.decisions) && t.run.status == s.run.status
    ensures CanonicalContent(t) == CanonicalContent(s)
  {
  }

  lemma NoDecisions()
    ensures Map(ContentOf, []) == []
  {
  }

  lemma DecisionsShow(s: Review, t: Review)
    requires |s.decisions| != |t.decisions| || s.run.status != t.run.status
    ensures CanonicalContent(t) != CanonicalContent(s)
  {
    if |s.decisions| != |t.decisions| {
      assert |CanonicalContent(t).decisions| == |t.decisions|;
      assert |CanonicalContent(s).decisions| == |s.decisions|;
    }
  }

  // ------------------------------------------------------- one attachment, replayed

  lemma WellFormedStripped(core: Snapshot, env: Env, c: Comparison, bound: Comparison)
    requires NamingLaws(env.names) && Pending(env, c) && WellFormed(core, env, c)
    requires bound == c.(changes := bound.changes, evidenceIds := bound.evidenceIds, impacts := bound.impacts,
                         retriggerRuleIds := bound.retriggerRuleIds)
    requires ChangeIds(bound.changes) == ChangeIds(c.changes) && AllHaveText(bound.changes)
    ensures WellFormed(core, env, Stripped(env.names, bound))
  {
    var again := Stripped(env.names, bound);
    forall ch | ch in again.changes
      ensures (ch.baseText != "" || ch.compareText != "") && ch.changeId != SUMMARY
    {
      var i :| 0 <= i < |again.changes| && again.changes[i] == ch;
      StrippedAt(env.names, bound.changes, i);
      assert bound.changes[i] in bound.changes;
      assert ChangeIds(c.changes)[i] == ChangeIds(bound.changes)[i];
      assert c.changes[i] in c.changes;
    }
  }

  /** What a successful attachment is made of. */
  lemma AttachedParts(s: ReviewResult, env: Env, c: Comparison, now: int) returns (b: Binding, bound: Comparison)
    requires NamingLaws(env.names) && AttachComparison(s, env, c, now).Ok?
    ensures AttachCheck(s.review, env, c).None? && BindChanges(BinderOf(s.review, env, c, now), c.changes) == Ok(b)
    ensures bound == BoundComparison(s.review.core, env, c, b.changes)
    ensures AttachComparison(s, env, c, now) ==
      Ok(Sealed(WithComparison(s.review, NewEvidence(s.review.core, env, c, b, now), bound)))
    ensures ChangeIds(b.changes) == ChangeIds(c.changes) && AllHaveText(b.changes) == AllHaveText(c.changes)
    ensures WellFormed(s.review.core, env, c) && Audited(s)
  {
    hide Consistent, BindChange, AttachCheck, WellFormed, CanonicalContent, BoundComparison;
    GatedOk(Audited(s), ComparisonAdded(s.review, env, c, now));
    b := BindChanges(BinderOf(s.review, env, c, now), c.changes).value;
    bound := BoundComparison(s.review.core, env, c, b.changes);
    BindingAll(s.review, env, c, c.changes, now);
    BoundChangeIds(s.review, env, c, b);
    TextsKept(s.review, env, c, b);
    SecondAuditIff(s, env, c, now);
  }

  lemma BoundShape(core: Snapshot, env: Env, c: Comparison, changes: seq<VersionChange>)
    ensures var bound := BoundComparison(core, env, c, changes);
      && bound.changes == changes && bound.comparisonId == c.comparisonId
      && bound == c.(changes := bound.changes, evidenceIds := bound.evidenceIds, impacts := bound.impacts,
                     retriggerRuleIds := bound.retriggerRuleIds)
  {
  }

  lemma WellFormedHasText(core: Snapshot, env: Env, c: Comparison)
    requires WellFormed(core, env, c)
    ensures AllHaveText(c.changes)
  {
  }

  lemma ReplayedGate(t: ReviewResult, env: Env, c: Comparison, now: int, added: Review)
    requires NamingLaws(env.names) && Audited(t) && ComparisonAdded(t.review, env, c, now) == Ok(added)
    requires WellFormed(t.review.core, env, c)
    ensures AttachComparison(t, env, c, now) == Ok(Sealed(added)) && Audited(Sealed(added))
  {
    hide Consistent, WellFormed, ComparisonAdded, CanonicalContent;
    SecondAuditIff(t, env, c, now);
    GatedOk(Audited(t), ComparisonAdded(t.review, env, c, now));
    SealedAudit(added);
  }

  lemma ComparisonReplayed(s: ReviewResult, t: ReviewResult, env: Env, c: Comparison, now: int, now': int)
    returns (bound: Comparison, t': ReviewResult)
    requires NamingLaws(env.names) && Pending(env, c) && Alike(s.review, t.review) && Audited(t)
    requires AttachComparison(s, env, c, now).Ok?
    ensures bound.comparisonId == c.comparisonId
    ensures AttachComparison(s, env, c, now).value.review.comparisons == s.review.comparisons + [bound]
    ensures AttachComparison(t, env, Stripped(env.names, bound), now') == Ok(t')
    ensures Alike(AttachComparison(s, env, c, now).value.review, t'.review)
    ensures ComparisonFrame(t.review, t'.review) && Audited(t')
  {
    hide Audited, AttachComparison, AttachCheck, BindChange, BindChanges, WellFormed, BoundComparison, NamingLaws,
      Pending, ComparisonAdded, NewEvidence, Stripped, AllHaveText, ComparisonFrame, CanonicalContent;
    var b;
    b, bound := AttachedParts(s, env, c, now);
    BoundShape(s.review.core, env, c, b.changes);
    WellFormedHasText(s.review.core, env, c);
    WellFormedStripped(s.review.core, env, c, bound);
    var added := ReattachAdded(s.review, t.review, env, c, b, now, now');
    ReplayedGate(t, env, Stripped(env.names, bound), now', added);
    t' := Sealed(added);
  }

  lemma AlikeWithRevision(s: Review, t: Review, v: RevisionSet)
    requires Alike(s, t)
    ensures Alike(WithRevision(s, v), WithRevision(t, v))
  {
  }

  /** A revision set re-attaches exactly if nothing has been judged before it. */
  lemma RevisionReplayed(s: ReviewResult, t: ReviewResult, v: RevisionSet)
    requires Alike(s.review, t.review) && Audited(t) && t.review.decisions == [] && t.review.run.status == HUMAN_REVIEW
    requires AttachRevision(s, v).Ok?
    ensures if s.review.decisions == [] && s.review.run.status == HUMAN_REVIEW
            then AttachRevision(t, v) == Ok(Sealed(WithRevision(t.review, v)))
            else AttachRevision(t, v).Err?
  {
    if s.review.decisions == [] && s.review.run.status == HUMAN_REVIEW {
      NoDecisions();
      SameContent(s.review, t.review);
      SameIds(s.review.evidence, t.review.evidence);
      RevisionGate(s, v);
      RevisionGate(t, v);
    } else {
      DecisionsShow(s.review, t.review);
    }
  }

  // ------------------------------------------------- what holds after any history

  predicate DecidedOnce(decisions: seq<ReviewDecision>)
  {
    forall i, j :: 0 <= i < j < |decisions| ==> decisions[i].findingId != decisions[j].findingId
  }

  predicate Judged(history: seq<Action>)
  {
    exists a :: a in history && Judges(a)
  }

  predicate NothingDeferred(r: Review)
  {
    forall d :: d in r.decisions ==> d.decision != DEFER
  }

  /** The state a history leads to from an audited, unjudged review s0. */
  ghost predicate Reached(s0: Review, s: Review, judged: bool)
  {
    && Consistent(s) && s.core == s0.core && DecidedOnce(s.decisions)
    && (s.run.status == HUMAN_REVIEW || s.run.status == FINALIZED)
    && (s.run.status == HUMAN_REVIEW ==> s.run.stageEvents == s0.run.stageEvents)
    && (s.run.status == FINALIZED ==> !Undecided(s) && NothingDeferred(s))
    && (judged <==> s.decisions != [] || s.run.status == FINALIZED)
  }

  lemma JudgedSnoc(history: seq<Action>, a: Action)
    ensures Judged(history + [a]) <==> Judged(history) || Judges(a)
  {
    if Judged(history) {
      var x :| x in history && Judges(x);
      assert x in history + [a];
    }
    assert a in history + [a];
  }

  lemma RevisionsFirstSnoc(history: seq<Action>, a: Action)
    ensures RevisionsFirst(history + [a]) <==> RevisionsFirst(history) && (a.Revise? ==> !Judged(history))
  {
    var all := history + [a];
    if RevisionsFirst(history) && (a.Revise? ==> !Judged(history)) {
      forall i, j | 0 <= i < j < |all| && Judges(all[i]) ensures !all[j].Revise? {
        if j == |history| { assert all[i] in history; }
      }
    }
    if RevisionsFirst(all) {
      assert forall i, j :: 0 <= i < j < |history| ==> all[i] == history[i] && all[j] == history[j];
      forall x | x in history && Judges(x) ensures !a.Revise? {
        var i :| 0 <= i < |history| && history[i] == x;
        assert Judges(all[i]) && !all[|history|].Revise?;
      }
    }
  }

  lemma ReachedCompare(s0: Review, s: Review, judged: bool, added: seq<Evidence>, c: Comparison)
    requires Reached(s0, s, judged) && Consistent(WithComparison(s, added, c))
    ensures Reached(s0, WithComparison(s, added, c), judged)
  {
    assert Undecided(WithComparison(s, added, c)) == Undecided(s);
  }

  lemma ReachedRevise(s0: Review, s: Review, judged: bool, v: RevisionSet)
    requires Reached(s0, s, judged) && Consistent(WithRevision(s, v))
    ensures Reached(s0, WithRevision(s, v), judged)
  {
    assert Undecided(WithRevision(s, v)) == Undecided(s);
  }

  lemma ReachedDecide(s0: Review, s: Review, judged: bool, d: ReviewDecision)
    requires Reached(s0, s, judged) && s.run.status == HUMAN_REVIEW && DecisionAdded(s, d).Ok?
    ensures Reached(s0, DecisionAdded(s, d).value, true)
  {
    hide Consistent;
    DecisionAddedConsistent(s, d);
    assert forall i :: 0 <= i < |s.decisions| ==> s.decisions[i] in s.decisions;
  }

  /** Finalizing changes the run and the report only. */
  lemma FinalizedFrame(s: Review, details: EventDetails)
    requires Finalized(s, details).Ok?
    ensures var f := Finalized(s, details).value;
      && f.core == s.core && f.decisions == s.decisions && f.run.status == FINALIZED
      && !Undecided(s) && NothingDeferred(s)
  {
  }

  lemma ReachedFinish(s0: Review, s: Review, judged: bool, eventId: Id, actor: Id, comment: Text, now: int)
    requires Reached(s0, s, judged) && s.run.status == HUMAN_REVIEW && CanRecordEvent(s0, eventId, now)
    requires Finalized(s, FinalDetails(s, eventId, actor, comment, now)).Ok?
    ensures Reached(s0, Finalized(s, FinalDetails(s, eventId, actor, comment, now)).value, true)
  {
    FinalizedConsistent(s, eventId, actor, comment, now);
    FinalizedFrame(s, FinalDetails(s, eventId, actor, comment, now));
  }

  lemma CheckedIsNew(r: Review, env: Env, c: Comparison)
    requires AttachCheck(r, env, c).None?
    ensures c.comparisonId !in ComparisonIds(r.comparisons)
  {
  }

  lemma ComparisonAddedShape(r: Review, env: Env, c: Comparison, at: int)
    returns (added: seq<Evidence>, bound: Comparison)
    requires ComparisonAdded(r, env, c, at).Ok?
    ensures ComparisonAdded(r, env, c, at).value == WithComparison(r, added, bound)
    ensures bound.comparisonId == c.comparisonId && AttachCheck(r, env, c).None?
  {
    var b := BindChanges(BinderOf(r, env, c, at), c.changes).value;
    added := NewEvidence(r.core, env, c, b, at);
    bound := BoundComparison(r.core, env, c, b.changes);
  }

  lemma ComparisonAttached(s: ReviewResult, env: Env, c: Comparison, at: int)
    returns (added: seq<Evidence>, bound: Comparison)
    requires AttachComparison(s, env, c, at).Ok?
    ensures AttachComparison(s, env, c, at).value == Sealed(WithComparison(s.review, added, bound))
    ensures Consistent(WithComparison(s.review, added, bound)) && Audited(s)
    ensures bound.comparisonId == c.comparisonId && c.comparisonId !in ComparisonIds(s.review.comparisons)
  {
    GatedOk(Audited(s), ComparisonAdded(s.review, env, c, at));
    added, bound := ComparisonAddedShape(s.review, env, c, at);
    CheckedIsNew(s.review, env, c);
  }

  lemma RevisionAddedShape(r: Review, fingerprint: Option<Digest>, v: RevisionSet)
    requires RevisionAdded(r, fingerprint, v).Ok?
    ensures RevisionAdded(r, fingerprint, v) == Ok(WithRevision(r, v)) && v.revisionId !in RevisionIds(r.revisions)
  {
  }

  lemma RevisionAttached(s: ReviewResult, v: RevisionSet)
    requires AttachRevision(s, v).Ok?
    ensures AttachRevision(s, v).value == Sealed(WithRevision(s.review, v))
    ensures Consistent(WithRevision(s.review, v)) && Audited(s)
    ensures v.revisionId !in RevisionIds(s.review.revisions)
  {
    GatedOk(Audited(s), RevisionAdded(s.review, s.fingerprint, v));
    RevisionAddedShape(s.review, s.fingerprint, v);
  }

  lemma StepDecide(s0: Review, s: ReviewResult, d: ReviewDecision, judged: bool)
    requires Reached(s0, s.review, judged) && RecordDecision(s, d).Ok?
    ensures Audited(RecordDecision(s, d).value) && Reached(s0, RecordDecision(s, d).value.review, true)
  {
    JudgementOk(s.review.run.status, Audited(s), DecisionAdded(s.review, d));
    ReachedDecide(s0, s.review, judged, d);
  }

  lemma StepFinish(s0: Review, s: ReviewResult, eventId: Id, actor: Id, comment: Text, at: int, judged: bool)
    requires Reached(s0, s.review, judged) && Finalize(s, eventId, actor, comment, at).Ok?
    requires CanRecordEvent(s0, eventId, at)
    ensures Audited(Finalize(s, eventId, actor, comment, at).value)
    ensures Reached(s0, Finalize(s, eventId, actor, comment, at).value.review, true)
  {
    JudgementOk(s.review.run.status, Audited(s),
      Finalized(s.review, FinalDetails(s.review, eventId, actor, comment, at)));
    ReachedFinish(s0, s.review, judged, eventId, actor, comment, at);
  }

  lemma ReachedStep(s0: Review, s: ReviewResult, env: Env, a: Action, judged: bool)
    requires Reached(s0, s.review, judged) && Apply(s, env, a).Ok?
    requires a.Finish? ==> CanRecordEvent(s0, a.eventId, a.at)
    ensures Audited(Apply(s, env, a).value)
    ensures Reached(s0, Apply(s, env, a).value.review, judged || Judges(a))
  {
    match a
    case Compare(c, at) =>
      var added, bound := ComparisonAttached(s, env, c, at);
      ReachedCompare(s0, s.review, judged, added, bound);
    case Revise(v) =>
      RevisionAttached(s, v);
      ReachedRevise(s0, s.review, judged, v);
    case Decide(d) =>
      StepDecide(s0, s, d, judged);
    case Finish(eventId, actor, comment, at) =>
      StepFinish(s0, s, eventId, actor, comment, at, judged);
  }

  ghost predicate Fresh(s: ReviewResult)
  {
    && Audited(s) && s.review.run.status == HUMAN_REVIEW
    && s.review.decisions == [] && s.review.comparisons == [] && s.review.revisions == [] && s.review.sequence == []
  }

  lemma RegularFront(s: ReviewResult, history: seq<Action>)
    requires history != [] && Regular(s, history)
    ensures Regular(s, history[..|history| - 1])
    ensures history[|history| - 1] in history
  {
  }

  /** Every action of every history keeps the audit, and its effects on status and
      decisions are exactly those of the judging actions. */
  lemma {:induction false} HistoryReaches(s0: ReviewResult, env: Env, history: seq<Action>)
    requires Fresh(s0) && Regular(s0, history) && RunHistory(s0, env, history).Ok?
    ensures Audited(RunHistory(s0, env, history).value)
    ensures Reached(s0.review, RunHistory(s0, env, history).value.review, Judged(history))
  {
    if history != [] {
      var front, a := history[..|history| - 1], history[|history| - 1];
      SnocParts(history);
      RegularFront(s0, history);
      HistoryReaches(s0, env, front);
      JudgedSnoc(front, a);
      ReachedStep(s0.review, RunHistory(s0, env, front).value, env, a, Judged(front));
    }
  }

  // ------------------------------------------------------- attachments, replayed

  /** Replayed attachments: alike to the stored review, but nothing judged yet. */
  ghost predicate Rebuilt(t0: Review, s: Review, t: ReviewResult)
  {
    && Alike(s, t.review) && Audited(t)
    && t.review.decisions == [] && t.review.run.status == HUMAN_REVIEW
    && t.review.run.stageEvents == t0.run.stageEvents
  }

  ghost function RedoneAttachments(t0: ReviewResult, env: Env, s: Review, now: int): Outcome<ReviewResult>
  {
    ReplayAttachments(t0, env, s.sequence, s.comparisons, s.revisions, now)
  }

  lemma RefsKnown(s: Review)
    requires PostReviewAlignment(s)
    ensures forall a :: a in s.sequence ==>
              if a.ComparisonRef? then a.id in ComparisonIds(s.comparisons) else a.id in RevisionIds(s.revisions)
  {
  }

  lemma RedoComparison(t0: ReviewResult, env: Env, s: ReviewResult, c: Comparison, at: int, now: int)
    requires NamingLaws(env.names) && Pending(env, c) && Audited(s)
    requires AttachComparison(s, env, c, at).Ok?
    ensures var before := RedoneAttachments(t0, env, s.review, now);
      var after := RedoneAttachments(t0, env, AttachComparison(s, env, c, at).value.review, now);
      && (before.Err? ==> after.Err?)
      && (before.Ok? && Rebuilt(t0.review, s.review, before.value) ==>
            after.Ok? && Rebuilt(t0.review, AttachComparison(s, env, c, at).value.review, after.value))
  {
    var added, bound := ComparisonAttached(s, env, c, at);
    var r, ref := s.review, ComparisonRef(c.comparisonId);
    RefsKnown(r);
    EarlierUnaffected(t0, env, r.sequence, r.comparisons, r.revisions, ref, bound, EmptyRevision(), now);
    ReplayOneMore(t0, env, r.sequence, ref, r.comparisons + [bound], r.revisions, now);
    FindAppended(r.comparisons, bound, c.comparisonId);
    var before := RedoneAttachments(t0, env, r, now);
    if before.Ok? && Rebuilt(t0.review, r, before.value) {
      var bound', t' := ComparisonReplayed(s, before.value, env, c, at, now);
      assert bound' == (r.comparisons + [bound'])[|r.comparisons|];
      assert bound == (r.comparisons + [bound])[|r.comparisons|];
    }
  }

  function EmptyRevision(): RevisionSet
  {
    RevisionSet(0, 0, Sha256(Canonical(0, [], [], [], [], [], None, [],
      Archive([], [], [], [], [], [], [], [], []), Rest(false, {}), [], [], [], [], [],
      FAILED, [], [], UNKNOWN, map[], [], [], [], false)), [], None, 0)
  }

  function EmptyComparison(): Comparison
  {
    Comparison(0, 0, 0, 0, 0, 0, [], [], [], [], [], 0)
  }

  lemma RevisionRedone(t0: ReviewResult, env: Env, r: Review, v: RevisionSet, now: int)
    requires PostReviewAlignment(r) && v.revisionId !in RevisionIds(r.revisions)
    ensures var before := RedoneAttachments(t0, env, r, now);
      RedoneAttachments(t0, env, WithRevision(r, v), now) ==
      if before.Err? then before else AttachRevision(before.value, v)
  {
    var ref := RevisionRef(v.revisionId);
    RefsKnown(r);
    EarlierUnaffected(t0, env, r.sequence, r.comparisons, r.revisions, ref, EmptyComparison(), v, now);
    ReplayOneMore(t0, env, r.sequence, ref, r.comparisons, r.revisions + [v], now);
    FindRevisionAppended(r.revisions, v, v.revisionId);
  }

  lemma RedoRevision(t0: ReviewResult, env: Env, s: ReviewResult, v: RevisionSet, now: int)
    requires Audited(s) && AttachRevision(s, v).Ok?
    ensures var before := RedoneAttachments(t0, env, s.review, now);
      var after := RedoneAttachments(t0, env, AttachRevision(s, v).value.review, now);
      && (before.Err? ==> after.Err?)
      && (before.Ok? && Rebuilt(t0.review, s.review, before.value) ==>
            if s.review.decisions == [] && s.review.run.status == HUMAN_REVIEW
            then after.Ok? && Rebuilt(t0.review, AttachRevision(s, v).value.review, after.value)
            else after.Err?)
  {
    RevisionAttached(s, v);
    RevisionRedone(t0, env, s.review, v, now);
    var before := RedoneAttachments(t0, env, s.review, now);
    if before.Ok? && Rebuilt(t0.review, s.review, before.value) {
      RebuiltRevision(t0.review, s, before.value, v);
    }
  }

  lemma RebuiltRevision(t0: Review, s: ReviewResult, t: ReviewResult, v: RevisionSet)
    requires AttachRevision(s, v).Ok? && Rebuilt(t0, s.review, t)
    ensures if s.review.decisions == [] && s.review.run.status == HUMAN_REVIEW
            then AttachRevision(t, v).Ok? && Rebuilt(t0, WithRevision(s.review, v), AttachRevision(t, v).value)
            else AttachRevision(t, v).Err?
  {
    RevisionReplayed(s, t, v);
    if AttachRevision(t, v).Ok? {
      RevisionAttached(t, v);
      AlikeWithRevision(s.review, t.review, v);
      SealedAudit(WithRevision(t.review, v));
    }
  }

  ghost predicate SameAttachments(r: Review, r': Review)
  {
    && r'.sequence == r.sequence && r'.comparisons == r.comparisons && r'.revisions == r.revisions
    && r'.core == r.core && r'.run.runId == r.run.runId && r'.evidence == r.evidence
  }

  lemma DecisionShape(r: Review, d: ReviewDecision)
    requires DecisionAdded(r, d).Ok?
    ensures SameAttachments(r, DecisionAdded(r, d).value)
  {
  }

  lemma FinalShape(r: Review, details: EventDetails)
    requires Finalized(r, details).Ok?
    ensures SameAttachments(r, Finalized(r, details).value)
  {
  }

  lemma JudgingKeepsAttachments(s: ReviewResult, env: Env, a: Action)
    requires Judges(a) && Apply(s, env, a).Ok?
    ensures SameAttachments(s.review, Apply(s, env, a).value.review)
  {
    match a
    case Decide(d) =>
      JudgementOk(s.review.run.status, Audited(s), DecisionAdded(s.review, d));
      DecisionShape(s.review, d);
    case Finish(eventId, actor, comment, at) =>
      var details := FinalDetails(s.review, eventId, actor, comment, at);
      JudgementOk(s.review.run.status, Audited(s), Finalized(s.review, details));
      FinalShape(s.review, details);
  }

  lemma RedoJudgement(t0: ReviewResult, env: Env, r: Review, r': Review, now: int)
    requires SameAttachments(r, r')
    ensures RedoneAttachments(t0, env, r', now) == RedoneAttachments(t0, env, r, now)
    ensures forall t :: Rebuilt(t0.review, r, t) ==> Rebuilt(t0.review, r', t)
  {
  }

  /** One more action of the history, as seen by the replay of the attachments. */
  lemma RedoAction(t0: ReviewResult, env: Env, s: ReviewResult, a: Action, judged: bool, now: int)
    requires NamingLaws(env.names) && Audited(s) && Apply(s, env, a).Ok?
    requires a.Compare? ==> Pending(env, a.c)
    requires judged <==> s.review.decisions != [] || s.review.run.status != HUMAN_REVIEW
    ensures var before := RedoneAttachments(t0, env, s.review, now);
      var after := RedoneAttachments(t0, env, Apply(s, env, a).value.review, now);
      && (before.Err? ==> after.Err?)
      && (before.Ok? && Rebuilt(t0.review, s.review, before.value) ==>
            if a.Revise? && judged then after.Err?
            else after.Ok? && Rebuilt(t0.review, Apply(s, env, a).value.review, after.value))
  {
    match a
    case Compare(c, at) =>
      RedoComparison(t0, env, s, c, at, now);
    case Revise(v) =>
      RedoRevision(t0, env, s, v, now);
    case Decide(_) =>
      JudgingKeepsAttachments(s, env, a);
      RedoJudgement(t0, env, s.review, Apply(s, env, a).value.review, now);
    case Finish(_, _, _, _) =>
      JudgingKeepsAttachments(s, env, a);
      RedoJudgement(t0, env, s.review, Apply(s, env, a).value.review, now);
  }

  lemma BaseRebuilt(s0: ReviewResult, t0: ReviewResult)
    requires Fresh(s0) && Fresh(t0) && Alike(s0.review, t0.review)
    ensures Rebuilt(t0.review, s0.review, t0)
  {
  }

  lemma ActionAfterHistory(s0: ReviewResult, env: Env, history: seq<Action>) returns (s: ReviewResult, a: Action)
    requires history != [] && Regular(s0, history) && AllPending(env, history) && RunHistory(s0, env, history).Ok?
    ensures var front := history[..|history| - 1];
      && history == front + [a] && Regular(s0, front) && AllPending(env, front)
      && RunHistory(s0, env, front) == Ok(s) && Apply(s, env, a) == RunHistory(s0, env, history)
    ensures (a.Compare? ==> Pending(env, a.c)) && (a.Finish? ==> CanRecordEvent(s0.review, a.eventId, a.at))
  {
    SnocParts(history);
    RegularFront(s0, history);
    s := RunHistory(s0, env, history[..|history| - 1]).value;
    a := history[|history| - 1];
  }

  /** Replaying the attachments of any history succeeds exactly if revisions came first,
      and then rebuilds an alike review. */
  lemma {:induction false} AttachmentsReplayed(s0: ReviewResult, t0: ReviewResult, env: Env, history: seq<Action>,
                                               now: int)
    requires NamingLaws(env.names) && Fresh(s0) && Rebuilt(t0.review, s0.review, t0)
    requires Regular(s0, history) && AllPending(env, history) && RunHistory(s0, env, history).Ok?
    ensures var s := RunHistory(s0, env, history).value.review;
      var redone := RedoneAttachments(t0, env, s, now);
      if RevisionsFirst(history) then redone.Ok? && Rebuilt(t0.review, s, redone.value) else redone.Err?
  {
    if history != [] {
      var front := history[..|history| - 1];
      var s, a := ActionAfterHistory(s0, env, history);
      AttachmentsReplayed(s0, t0, env, front, now);
      HistoryReaches(s0, env, front);
      RevisionsFirstSnoc(front, a);
      RedoAction(t0, env, s, a, Judged(front), now);
    }
  }
}
