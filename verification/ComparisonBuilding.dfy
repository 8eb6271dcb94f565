/**
 Comparisons made from a list of differences: no evidence of their own yet, which is what
 the replay counts on.
 */
module ComparisonBuilding {
  import opened Ordering
  import opened ReviewModel
  import opened ReviewActions
  import opened ComparisonGate
  import opened Replay
  import opened Reattaching

  /** A difference as the application reports it; a missing id or an unknown kind is refused. */
  datatype Difference = Difference(
    changeId: Option<Id>, kindKnown: bool, baseText: string, compareText: string, clauseIds: seq<Id>)

  /** What is compared, and the findings it is about. */
  datatype Sources = Sources(
    runId: Id, baseFilename: Id, compareFilename: Id, baseSha256: Id, compareSha256: Id, findingIds: seq<Id>)

  /** The id of a comparison: a digest of its sources and differences. */
  type Identify = (Sources, seq<Difference>) -> Id

  function ChangeOf(names: Naming, d: Difference): VersionChange
    requires d.changeId.Some?
  {
    VersionChange(d.changeId.value, d.baseText, d.compareText, [names.pendingFor(d.changeId.value)], d.clauseIds)
  }

  predicate Complete(d: Difference) { d.changeId.Some? && d.kindKnown }

  predicate AllComplete(differences: seq<Difference>)
  {
    forall i :: 0 <= i < |differences| ==> Complete(differences[i])
  }

  function ChangesOf(names: Naming, differences: seq<Difference>): (r: seq<VersionChange>)
    requires AllComplete(differences)
    ensures |r| == |differences| && forall i :: 0 <= i < |r| ==> r[i] == ChangeOf(names, differences[i])
  {
    if differences == [] then [] else [ChangeOf(names, differences[0])] + ChangesOf(names, differences[1..])
  }

  /** build_version_comparison */
  function BuiltComparison(names: Naming, identify: Identify, from: Sources, differences: seq<Difference>, now: int)
    : Outcome<Comparison>
  {
    if !AllComplete(differences) then Err(MalformedChange)
    else
      Ok(Comparison(identify(from, differences), from.runId, from.baseFilename, from.compareFilename, from.baseSha256,
                    from.compareSha256, ChangesOf(names, differences), [], Dedup(from.findingIds), [], [], now))
  }

  method BuildVersionComparison(names: Naming, identify: Identify, from: Sources, differences: seq<Difference>,
                                now: int)
    returns (result: Outcome<Comparison>)
    ensures result == BuiltComparison(names, identify, from, differences, now)
  {
    for i := 0 to |differences|
      invariant forall k :: 0 <= k < i ==> differences[k].changeId.Some?
    {
      if differences[i].changeId.None? { return Err(MalformedChange); }
    }
    var changes: seq<VersionChange> := [];
    for i := 0 to |differences|
      invariant forall k :: 0 <= k < i ==> Complete(differences[k])
      invariant |changes| == i && forall k :: 0 <= k < i ==> changes[k] == ChangeOf(names, differences[k])
    {
      if !differences[i].kindKnown { return Err(MalformedChange); }
      changes := changes + [ChangeOf(names, differences[i])];
    }
    assert changes == ChangesOf(names, differences);
    result := Ok(Comparison(identify(from, differences), from.runId, from.baseFilename, from.compareFilename,
      from.baseSha256, from.compareSha256, changes, [], Dedup(from.findingIds), [], [], now));
  }

  ghost predicate Built(names: Naming, identify: Identify, c: Comparison)
  {
    exists from, differences, now :: BuiltComparison(names, identify, from, differences, now) == Ok(c)
  }

  /** What is built cites no evidence. */
  lemma BuiltIsPending(env: Env, identify: Identify, c: Comparison)
    requires NamingLaws(env.names) && Built(env.names, identify, c)
    ensures Pending(env, c)
  {
    var from, differences, now :| BuiltComparison(env.names, identify, from, differences, now) == Ok(c);
    forall ch | ch in c.changes ensures !Requests(env, ch) {
      var i :| 0 <= i < |c.changes| && c.changes[i] == ch;
      assert ch == StrippedChange(env.names, ch);
      PendingRequestsNothing(env, ch);
    }
  }

  predicate Attachable(d: Difference) { (d.baseText != "" || d.compareText != "") && d.changeId != Some(SUMMARY) }

  predicate HasText(ch: VersionChange) { ch.baseText != "" || ch.compareText != "" }

  lemma ChangesAttachable(names: Naming, differences: seq<Difference>, changes: seq<VersionChange>)
    requires |changes| == |differences| && AllComplete(differences)
    requires forall i :: 0 <= i < |changes| ==> changes[i] == ChangeOf(names, differences[i])
    ensures (forall ch :: ch in changes ==> HasText(ch) && ch.changeId != SUMMARY) <==>
      forall i :: 0 <= i < |differences| ==> Attachable(differences[i])
  {
    if forall ch :: ch in changes ==> HasText(ch) && ch.changeId != SUMMARY {
      forall i | 0 <= i < |differences| ensures Attachable(differences[i]) {
        assert changes[i] in changes;
      }
    }
  }

  lemma PendingWellFormed(core: Snapshot, env: Env, c: Comparison)
    requires Pending(env, c)
    ensures WellFormed(core, env, c) <==>
      SourcesMatch(core, c) && forall ch :: ch in c.changes ==> HasText(ch) && ch.changeId != SUMMARY
  {
    hide SourcesMatch, Requests;
  }

  /** On an audited review the second audit accepts what is built if and only if the file
      names match the documents, every difference has text and none is called summary. */
  lemma BuiltPassesIff(s: ReviewResult, env: Env, identify: Identify, from: Sources, differences: seq<Difference>,
                       c: Comparison, now: int, at: int)
    requires NamingLaws(env.names) && Audited(s)
    requires BuiltComparison(env.names, identify, from, differences, now) == Ok(c)
    requires ComparisonAdded(s.review, env, c, at).Ok?
    ensures AttachComparison(s, env, c, at).Ok? <==>
      SourcesMatch(s.review.core, c) && forall i :: 0 <= i < |differences| ==> Attachable(differences[i])
  {
    hide Audited, AttachComparison, ComparisonAdded, SourcesMatch, NamingLaws, Pending, WellFormed, Attachable, HasText;
    SecondAuditIff(s, env, c, at);
    BuiltIsPending(env, identify, c);
    PendingWellFormed(s.review.core, env, c);
    ChangesAttachable(env.names, differences, c.changes);
  }
}
