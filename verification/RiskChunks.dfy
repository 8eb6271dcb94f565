/**
 Risk analysis in chunks: the rule list is cut into chunks, each chunk is one model call,
 and chunks may run in parallel.  Collecting them in completion order must give what the
 serial loop gives.
 */
module RiskChunks {
  import opened Collecting
  import opened Ordering

  type Text = int

  datatype Level = Block | Warn | Info | Pass | Undetermined | NotApplicable

  /** A validated item: its normalised title, the category of its rule and its level. */
  datatype Item = Item(title: Text, ruleId: Option<Id>, level: Level, reason: Text)

  datatype Response = Response(id: Id, items: seq<Item>, contractType: Option<Text>)

  // ------------------------------------------------------------------- cutting

  const CHUNK_SIZE: nat := 15

  function Chunks<T>(rules: seq<T>): seq<seq<T>>
  {
    if rules == [] then []
    else if |rules| <= CHUNK_SIZE then [rules]
    else [rules[..CHUNK_SIZE]] + Chunks(rules[CHUNK_SIZE..])
  }

  /** Nothing is lost, repeated or reordered; every chunk but the last is full. */
  lemma {:induction false} ChunksPartition<T>(rules: seq<T>)
    ensures Flatten(Chunks(rules)) == rules
    ensures |Chunks(rules)| == (|rules| + CHUNK_SIZE - 1) / CHUNK_SIZE
    ensures forall c :: c in Chunks(rules) ==> 1 <= |c| <= CHUNK_SIZE
    ensures forall i :: 0 <= i < |Chunks(rules)| - 1 ==> |Chunks(rules)[i]| == CHUNK_SIZE
  {
    if |rules| > CHUNK_SIZE {
      var rest := rules[CHUNK_SIZE..];
      ChunksPartition(rest);
      assert Chunks(rules)[1..] == Chunks(rest);
      assert rules == rules[..CHUNK_SIZE] + rest;
      forall c | c in Chunks(rules) ensures 1 <= |c| <= CHUNK_SIZE {
        assert c == rules[..CHUNK_SIZE] || c in Chunks(rest);
      }
    } else if rules != [] {
      assert Chunks(rules)[1..] == [];
      assert rules + [] == rules;
    }
  }

  // ------------------------------------------------------------------- one chunk

  /** What became of a chunk.  Defect is an error of any kind that is not caught. */
  datatype Outcome =
    | Done(kept: Response, lost: nat)
    | Unavailable(message: Text)
    | Invalid(message: Text)
    | Defect(error: Id)

  /** One model call, validated: an answer with its valid items, or an error. */
  datatype Reply = Answer(response: Response, valid: seq<Item>) | NoAnswer(failure: Outcome)

  predicate Covered(valid: seq<Item>, size: nat) { 2 * |valid| >= size }

  function Kept(reply: Reply): Outcome
    requires reply.Answer?
  {
    Done(reply.response.(items := reply.valid),
      if |reply.response.items| >= |reply.valid| then |reply.response.items| - |reply.valid| else 0)
  }

  predicate LooksGood(reply: Reply) { reply.NoAnswer? ==> !reply.failure.Done? }

  /** At most two calls; the fuller answer is kept, the first one on a tie. */
  function Analysis(first: Reply, second: Reply, size: nat): Outcome
  {
    if first.NoAnswer? then first.failure
    else if Covered(first.valid, size) then Kept(first)
    else if second.NoAnswer? then second.failure
    else if |second.valid| > |first.valid| then Kept(second) else Kept(first)
  }

  method AnalyzeChunk(replies: nat -> Reply, size: nat) returns (outcome: Outcome, calls: nat)
    ensures outcome == Analysis(replies(0), replies(1), size)
    ensures calls == if replies(0).Answer? && !Covered(replies(0).valid, size) then 2 else 1
  {
    var best: Option<Reply> := None;
    calls := 0;
    while true
      invariant calls <= 1
      invariant calls == 0 ==> best == None
      invariant calls == 1 ==> replies(0).Answer? && !Covered(replies(0).valid, size) && best == Some(replies(0))
      decreases 2 - calls
    {
      var reply := replies(calls);
      calls := calls + 1;
      if reply.NoAnswer? { return reply.failure, calls; }
      if best.None? || |reply.valid| > |best.value.valid| { best := Some(reply); }
      if Covered(reply.valid, size) || calls == 2 { break; }
    }
    outcome := Kept(best.value);
  }

  /** The kept answer is at least as full as each answer received, unless the second call
      failed: then the first answer is lost with it. */
  lemma FullerAnswerKept(first: Reply, second: Reply, size: nat)
    requires LooksGood(first) && LooksGood(second)
    ensures Analysis(first, second, size).Done? <==>
      first.Answer? && (Covered(first.valid, size) || second.Answer?)
    ensures Analysis(first, second, size).Done? ==>
      && |Analysis(first, second, size).kept.items| >= |first.valid|
      && (Covered(first.valid, size) || |Analysis(first, second, size).kept.items| >= |second.valid|)
  {
  }

  /** For a model that answers the same request the same way, the second call is wasted. */
  lemma SecondCallChangesNothing(reply: Reply, size: nat)
    ensures Analysis(reply, reply, size) == if reply.Answer? then Kept(reply) else reply.failure
  {
  }

  // ---------------------------------------------------------------- all the chunks

  datatype Run =
    | Finished(responses: map<nat, Response>, failures: map<nat, Outcome>, dropped: nat)
    | Raised(error: Id)

  predicate Failed(outcome: Outcome) { outcome.Unavailable? || outcome.Invalid? }

  /** The kept responses, the failures and the unexpected errors of the chunks seen so far. */
  function Responses(outcomes: seq<Outcome>, seen: set<nat>): map<nat, Response>
  {
    map i | i in seen && i < |outcomes| && outcomes[i].Done? :: outcomes[i].kept
  }

  function Failures(outcomes: seq<Outcome>, seen: set<nat>): map<nat, Outcome>
  {
    map i | i in seen && i < |outcomes| && Failed(outcomes[i]) :: outcomes[i]
  }

  function Defects(outcomes: seq<Outcome>, seen: set<nat>): map<nat, Id>
  {
    map i | i in seen && i < |outcomes| && outcomes[i].Defect? :: outcomes[i].error
  }

  function LostBy(outcome: Outcome): nat { if outcome.Done? then outcome.lost else 0 }

  /** Items dropped by the chunks below n that have been seen. */
  function Lost(outcomes: seq<Outcome>, n: nat, seen: set<nat>): nat
    requires n <= |outcomes|
  {
    if n == 0 then 0 else Lost(outcomes, n - 1, seen) + if n - 1 in seen then LostBy(outcomes[n - 1]) else 0
  }

  /** The least index of a defect, or the number of chunks. */
  function FirstDefect(outcomes: seq<Outcome>): (i: nat)
    ensures i <= |outcomes| && (i < |outcomes| ==> outcomes[i].Defect?)
    ensures forall k :: 0 <= k < i ==> !outcomes[k].Defect?
  {
    if outcomes == [] || outcomes[0].Defect? then 0 else 1 + FirstDefect(outcomes[1..])
  }

  predicate Clean(outcomes: seq<Outcome>) { FirstDefect(outcomes) == |outcomes| }

  /** Everything known about the chunks seen so far. */
  datatype Tally = Tally(responses: map<nat, Response>, failures: map<nat, Outcome>, unexpected: map<nat, Id>,
                         dropped: nat)

  function Tallied(outcomes: seq<Outcome>, seen: set<nat>): Tally
  {
    Tally(Responses(outcomes, seen), Failures(outcomes, seen), Defects(outcomes, seen),
      Lost(outcomes, |outcomes|, seen))
  }

  function Count(t: Tally, i: nat, outcome: Outcome): Tally
  {
    match outcome
    case Done(kept, lost) => t.(responses := t.responses[i := kept], dropped := t.dropped + lost)
    case Defect(error) => t.(unexpected := t.unexpected[i := error])
    case _ => t.(failures := t.failures[i := outcome])
  }

  /** What running all the chunks gives, however they are scheduled. */
  function Collected(outcomes: seq<Outcome>): Run
  {
    if Clean(outcomes) then
      var t := Tallied(outcomes, Indices(|outcomes|));
      Finished(t.responses, t.failures, t.dropped)
    else Raised(outcomes[FirstDefect(outcomes)].error)
  }

  lemma TallyStep(outcomes: seq<Outcome>, seen: set<nat>, i: nat)
    requires i !in seen && i < |outcomes|
    ensures Tallied(outcomes, seen + {i}) == Count(Tallied(outcomes, seen), i, outcomes[i])
  {
    LostStep(outcomes, |outcomes|, seen, i);
    assert Responses(outcomes, seen + {i}) ==
      if outcomes[i].Done? then Responses(outcomes, seen)[i := outcomes[i].kept] else Responses(outcomes, seen);
    assert Failures(outcomes, seen + {i}) ==
      if Failed(outcomes[i]) then Failures(outcomes, seen)[i := outcomes[i]] else Failures(outcomes, seen);
    assert Defects(outcomes, seen + {i}) ==
      if outcomes[i].Defect? then Defects(outcomes, seen)[i := outcomes[i].error] else Defects(outcomes, seen);
  }

  lemma TallyNothing(outcomes: seq<Outcome>)
    ensures Tallied(outcomes, {}) == Tally(map[], map[], map[], 0)
  {
    LostNothing(outcomes, |outcomes|);
  }

  lemma {:induction false} LostStep(outcomes: seq<Outcome>, n: nat, seen: set<nat>, i: nat)
    requires n <= |outcomes| && i !in seen
    ensures Lost(outcomes, n, seen + {i}) == Lost(outcomes, n, seen) + if i < n then LostBy(outcomes[i]) else 0
  {
    if n > 0 { LostStep(outcomes, n - 1, seen, i); }
  }

  lemma {:induction false} LostNothing(outcomes: seq<Outcome>, n: nat)
    requires n <= |outcomes|
    ensures Lost(outcomes, n, {}) == 0
  {
    if n > 0 { LostNothing(outcomes, n - 1); }
  }

  /** One chunk after the other; an unexpected error stops the loop. */
  method RunSerially(outcomes: seq<Outcome>) returns (run: Run)
    ensures run == Collected(outcomes)
  {
    hide Tallied;
    var responses: map<nat, Response>, failures: map<nat, Outcome>, dropped: nat := map[], map[], 0;
    TallyNothing(outcomes);
    for i := 0 to |outcomes|
      invariant forall k :: 0 <= k < i ==> !outcomes[k].Defect?
      invariant Tallied(outcomes, Indices(i)) == Tally(responses, failures, map[], dropped)
    {
      var outcome := outcomes[i];
      TallyStep(outcomes, Indices(i), i);
      match outcome
      case Done(kept, lost) =>
        dropped := dropped + lost;
        responses := responses[i := kept];
      case Defect(error) =>
        assert FirstDefect(outcomes) == i;
        return Raised(error);
      case _ =>
        failures := failures[i := outcome];
    }
    run := Finished(responses, failures, dropped);
  }

  /** Chunks are collected in the order in which they complete; unexpected errors wait
      until every chunk is in, and the one of the first chunk is raised. */
  method RunInParallel(outcomes: seq<Outcome>, order: seq<nat>) returns (run: Run)
    requires Schedules(order, |outcomes|)
    ensures run == Collected(outcomes)
  {
    hide Tallied;
    var responses: map<nat, Response>, failures: map<nat, Outcome>, dropped: nat := map[], map[], 0;
    var unexpected: map<nat, Id> := map[];
    ghost var seen: set<nat> := {};
    TallyNothing(outcomes);
    for k := 0 to |order|
      invariant seen == Elements(order[..k])
      invariant Tallied(outcomes, seen) == Tally(responses, failures, unexpected, dropped)
    {
      var i := order[k];
      ScheduledNext(order, k, |outcomes|);
      TallyStep(outcomes, seen, i);
      seen := seen + {i};
      match outcomes[i]
      case Done(kept, lost) =>
        dropped := dropped + lost;
        responses := responses[i := kept];
      case Defect(error) =>
        unexpected := unexpected[i := error];
      case _ =>
        failures := failures[i := outcomes[i]];
    }
    TakeAll(order);
    var first := Earliest(outcomes, unexpected);
    run := if first.Some? then Raised(first.value) else Finished(responses, failures, dropped);
  }

  /** unexpected[min(unexpected)] */
  method Earliest(outcomes: seq<Outcome>, unexpected: map<nat, Id>) returns (first: Option<Id>)
    requires unexpected == Tallied(outcomes, Indices(|outcomes|)).unexpected
    ensures first == if Clean(outcomes) then None else Some(outcomes[FirstDefect(outcomes)].error)
  {
    for i := 0 to |outcomes|
      invariant forall k :: 0 <= k < i ==> !outcomes[k].Defect?
    {
      if i in unexpected {
        assert FirstDefect(outcomes) == i;
        return Some(unexpected[i]);
      }
    }
    first := None;
  }

  // ------------------------------------------------------ starved chunks, tried again

  /** In a parallel run some chunks found no free slot and failed as unavailable. */
  predicate Starved(truth: seq<Outcome>, seen: seq<Outcome>)
  {
    |seen| == |truth| && forall i :: 0 <= i < |truth| ==> seen[i] == truth[i] || seen[i].Unavailable?
  }

  /** A parallel run whose failed chunks were tried once more, serially. */
  function Recovered(truth: seq<Outcome>, seen: seq<Outcome>): Run
    requires Starved(truth, seen)
  {
    if !Clean(seen) then Raised(seen[FirstDefect(seen)].error)
    else if !Clean(truth) then Raised(truth[FirstDefect(truth)].error)
    else
      var t := Tallied(truth, Indices(|truth|));
      Finished(t.responses, map i | i in t.failures :: seen[i], t.dropped)
  }

  /** The outcome of chunk k once the retries below n are over. */
  function AfterRetry(truth: seq<Outcome>, seen: seq<Outcome>, n: nat): (r: seq<Outcome>)
    requires |seen| == |truth| && n <= |truth|
    ensures |r| == |truth|
    ensures forall k :: 0 <= k < |truth| ==> r[k] == if k < n && truth[k].Done? then truth[k] else seen[k]
  {
    seq(|truth|, k requires 0 <= k < |truth| => if k < n && truth[k].Done? then truth[k] else seen[k])
  }

  method RunAndRetry(truth: seq<Outcome>, seen: seq<Outcome>, order: seq<nat>) returns (run: Run)
    requires Starved(truth, seen) && Schedules(order, |truth|)
    ensures run == Recovered(truth, seen)
  {
    hide Tallied;
    run := RunInParallel(seen, order);
    if run.Raised? { return; }
    var responses: map<nat, Response>, failures: map<nat, Outcome> := run.responses, run.failures;
    var dropped: nat := run.dropped;
    ghost var all := Indices(|truth|);
    assert AfterRetry(truth, seen, 0) == seen;
    FailuresOf(seen);
    ghost var unexpected := Tallied(seen, all).unexpected;
    for i := 0 to |truth|
      invariant forall k :: 0 <= k < i ==> !truth[k].Defect?
      invariant Tallied(AfterRetry(truth, seen, i), all) == Tally(responses, failures, unexpected, dropped)
    {
      RetryStep(truth, seen, i);
      if i in failures {
        var outcome := truth[i];
        if outcome.Defect? {
          assert FirstDefect(truth) == i;
          return Raised(outcome.error);
        }
        if outcome.Done? {
          responses := responses[i := outcome.kept];
          dropped := dropped + outcome.lost;
          failures := failures - {i};
        }
      }
    }
    AllRetried(truth, seen);
    run := Finished(responses, failures, dropped);
  }

  lemma FailuresOf(outcomes: seq<Outcome>)
    ensures forall i: nat :: i in Tallied(outcomes, Indices(|outcomes|)).failures <==>
      i < |outcomes| && Failed(outcomes[i])
  {
  }

  /** The tally when failed chunk i turns out well. */
  function Rescue(t: Tally, i: nat, kept: Response, lost: nat): Tally
  {
    t.(responses := t.responses[i := kept], dropped := t.dropped + lost, failures := t.failures - {i})
  }

  lemma RetryStep(truth: seq<Outcome>, seen: seq<Outcome>, i: nat)
    requires |seen| == |truth| && i < |truth| && (seen[i] == truth[i] || seen[i].Unavailable?)
    ensures var before := Tallied(AfterRetry(truth, seen, i), Indices(|truth|));
      && (i in before.failures <==> Failed(seen[i]))
      && Tallied(AfterRetry(truth, seen, i + 1), Indices(|truth|)) ==
           if Failed(seen[i]) && truth[i].Done? then Rescue(before, i, truth[i].kept, truth[i].lost) else before
  {
    hide Tallied, Indices, AfterRetry, Rescue;
    var a, b := AfterRetry(truth, seen, i), AfterRetry(truth, seen, i + 1);
    FailuresOf(a);
    if Failed(seen[i]) && truth[i].Done? {
      TallyRescued(a, b, i);
    } else {
      NothingRetried(truth, seen, i);
    }
  }

  lemma NothingRetried(truth: seq<Outcome>, seen: seq<Outcome>, i: nat)
    requires |seen| == |truth| && i < |truth| && (seen[i] == truth[i] || seen[i].Unavailable?)
    requires !(Failed(seen[i]) && truth[i].Done?)
    ensures AfterRetry(truth, seen, i) == AfterRetry(truth, seen, i + 1)
  {
    hide AfterRetry;
    SameOutcomes(AfterRetry(truth, seen, i), AfterRetry(truth, seen, i + 1));
  }

  lemma SameOutcomes(a: seq<Outcome>, b: seq<Outcome>)
    requires |a| == |b| && forall k :: 0 <= k < |a| ==> a[k] == b[k]
    ensures a == b
  {
  }

  lemma TallyRescued(a: seq<Outcome>, b: seq<Outcome>, i: nat)
    requires |a| == |b| && i < |a| && forall k :: 0 <= k < |a| && k != i ==> a[k] == b[k]
    requires Failed(a[i]) && b[i].Done?
    ensures Tallied(b, Indices(|a|)) == Rescue(Tallied(a, Indices(|a|)), i, b[i].kept, b[i].lost)
  {
    hide Responses, Failures, Defects, Indices, Lost;
    LostReplaced(a, b, i, |a|);
    ResponseReplaced(a, b, i, Indices(|a|));
    FailureReplaced(a, b, i, Indices(|a|));
  }

  lemma ResponseReplaced(a: seq<Outcome>, b: seq<Outcome>, i: nat, all: set<nat>)
    requires |a| == |b| && i < |a| && i in all && forall k :: 0 <= k < |a| && k != i ==> a[k] == b[k]
    requires !a[i].Done? && b[i].Done?
    ensures Responses(b, all) == Responses(a, all)[i := b[i].kept]
  {
  }

  lemma FailureReplaced(a: seq<Outcome>, b: seq<Outcome>, i: nat, all: set<nat>)
    requires |a| == |b| && i < |a| && forall k :: 0 <= k < |a| && k != i ==> a[k] == b[k]
    requires Failed(a[i]) && b[i].Done?
    ensures Failures(b, all) == Failures(a, all) - {i}
    ensures Defects(b, all) == Defects(a, all)
  {
  }

  lemma NoDefects(outcomes: seq<Outcome>)
    requires Clean(outcomes)
    ensures forall k :: 0 <= k < |outcomes| ==> !outcomes[k].Defect?
  {
  }

  lemma AllRetried(truth: seq<Outcome>, seen: seq<Outcome>)
    requires Starved(truth, seen) && Clean(truth) && Clean(seen)
    ensures var final := Tallied(AfterRetry(truth, seen, |truth|), Indices(|truth|));
      var t := Tallied(truth, Indices(|truth|));
      && final.responses == t.responses && final.dropped == t.dropped
      && final.failures == map i | i in t.failures :: seen[i]
  {
    NoDefects(truth);
    NoDefects(seen);
    Finally(truth, seen, AfterRetry(truth, seen, |truth|), Indices(|truth|));
  }

  lemma Finally(truth: seq<Outcome>, seen: seq<Outcome>, final: seq<Outcome>, all: set<nat>)
    requires |seen| == |truth| == |final| && all == Indices(|truth|)
    requires forall k :: 0 <= k < |truth| ==> !truth[k].Defect? && !seen[k].Defect?
    requires forall k :: 0 <= k < |truth| ==> seen[k] == truth[k] || seen[k].Unavailable?
    requires forall k :: 0 <= k < |truth| ==> final[k] == if truth[k].Done? then truth[k] else seen[k]
    ensures Responses(final, all) == Responses(truth, all)
    ensures Lost(final, |final|, all) == Lost(truth, |truth|, all)
    ensures Failures(final, all) == map i | i in Failures(truth, all) :: seen[i]
  {
    hide Indices;
    LostSame(final, truth, |truth|);
  }

  lemma {:induction false} LostReplaced(before: seq<Outcome>, after: seq<Outcome>, i: nat, n: nat)
    requires |before| == |after| && n <= |before| && i < |before|
    requires forall k :: 0 <= k < |before| && k != i ==> before[k] == after[k]
    requires !before[i].Done? && after[i].Done?
    ensures Lost(after, n, Indices(|before|)) == Lost(before, n, Indices(|before|)) + if i < n then after[i].lost else 0
  {
    if n > 0 { LostReplaced(before, after, i, n - 1); }
  }

  lemma {:induction false} LostSame(a: seq<Outcome>, b: seq<Outcome>, n: nat)
    requires |a| == |b| && n <= |a|
    requires forall k :: 0 <= k < |a| ==> LostBy(a[k]) == LostBy(b[k])
    ensures Lost(a, n, Indices(|a|)) == Lost(b, n, Indices(|a|))
  {
    if n > 0 { LostSame(a, b, n - 1); }
  }

  /** A starved and retried parallel run gives what the serial run gives: the same kept
      responses, the same number of dropped items and failures of the same chunks, only
      their wording may differ. */
  lemma RecoveredRefinesSerial(truth: seq<Outcome>, seen: seq<Outcome>)
    requires Starved(truth, seen) && Clean(truth)
    ensures var a, b := Recovered(truth, seen), Collected(truth);
      a.Finished? && b.Finished? && a.responses == b.responses && a.dropped == b.dropped
      && a.failures.Keys == b.failures.Keys
  {
  }

  /** A defect is raised by the retried run exactly when the serial run raises one, and it
      is the same one unless the first defective chunk was starved and another was not. */
  lemma DefectsAreRaised(truth: seq<Outcome>, seen: seq<Outcome>)
    requires Starved(truth, seen)
    ensures Recovered(truth, seen).Raised? <==> Collected(truth).Raised?
    ensures !Clean(truth) ==> var first := FirstDefect(truth);
      Recovered(truth, seen) != Collected(truth) ==> seen[first] != truth[first] && !Clean(seen)
  {
    if !Clean(truth) && !Clean(seen) {
      var i := FirstDefect(seen);
      assert seen[i] == truth[i];
      assert FirstDefect(truth) <= i;
    }
  }

  // -------------------------------------------------------------------- merging

  /** The kept items in the order of the chunks. */
  function MergedItems(responses: map<nat, Response>, n: nat): seq<Item>
  {
    if n == 0 then []
    else MergedItems(responses, n - 1) + if n - 1 in responses then responses[n - 1].items else []
  }

  /** The contract type of the first chunk that named one. */
  function MergedType(responses: map<nat, Response>, n: nat): Option<Text>
  {
    if n == 0 then None
    else
      var earlier := MergedType(responses, n - 1);
      if earlier.Some? || n - 1 !in responses then earlier else responses[n - 1].contractType
  }

  datatype Options = Options(classification: Id -> bool, named: Text -> bool)

  predicate Classifies(options: Options, item: Item) { item.ruleId.Some? && options.classification(item.ruleId.value) }

  /** The titles of the contract types that passed. */
  function PassedTitles(options: Options, items: seq<Item>): seq<Text>
  {
    if items == [] then []
    else
      var last := items[|items| - 1];
      PassedTitles(options, items[..|items| - 1]) +
      if Classifies(options, last) && last.level == Pass then [last.title] else []
  }

  /** The chosen contract type: the declared one, else the only one that passed. */
  function Selected(options: Options, declared: Option<Text>, items: seq<Item>): Option<Text>
  {
    if declared.Some? && options.named(declared.value) then declared
    else
      var passed := PassedTitles(options, items);
      if |passed| == 1 && options.named(passed[0]) then Some(passed[0]) else None
  }

  function Rejudged(options: Options, selected: Text, because: (Text, Text) -> Text, item: Item): Item
  {
    if !Classifies(options, item) || item.title == selected then item
    else item.(level := NotApplicable, reason := because(selected, item.reason))
  }

  function SingleChoice(options: Options, declared: Option<Text>, because: (Text, Text) -> Text,
                        items: seq<Item>): seq<Item>
  {
    match Selected(options, declared, items)
    case None => items
    case Some(t) => Map((item: Item) => Rejudged(options, t, because, item), items)
  }

  lemma {:induction false} PassedSurvive(options: Options, selected: Text, because: (Text, Text) -> Text,
                                         items: seq<Item>, after: seq<Item>)
    requires |after| == |items| && forall i :: 0 <= i < |items| ==>
      after[i] == Rejudged(options, selected, because, items[i])
    requires forall t :: t in PassedTitles(options, items) ==> t == selected
    ensures PassedTitles(options, after) == PassedTitles(options, items)
  {
    if items != [] {
      var n := |items| - 1;
      assert forall t :: t in PassedTitles(options, items[..n]) ==> t in PassedTitles(options, items);
      PassedSurvive(options, selected, because, items[..n], after[..n]);
      var last := items[n];
      if Classifies(options, last) && last.level == Pass { assert last.title in PassedTitles(options, items); }
    }
  }

  /** Normalising twice changes no level: every contract type but the chosen one is not
      applicable, and the choice does not move. */
  lemma SingleChoiceSettles(options: Options, declared: Option<Text>, because: (Text, Text) -> Text, items: seq<Item>)
    ensures var once := SingleChoice(options, declared, because, items);
      && Selected(options, declared, items).Some? ==>
        Selected(options, declared, once) == Selected(options, declared, items)
    ensures var once := SingleChoice(options, declared, because, items);
      var twice := SingleChoice(options, declared, because, once);
      |twice| == |items| && forall i :: 0 <= i < |items| ==>
        twice[i].level == once[i].level && twice[i].title == items[i].title
    ensures var once := SingleChoice(options, declared, because, items);
      Selected(options, declared, items).Some? ==> forall i :: 0 <= i < |items| && Classifies(options, items[i]) ==>
        if items[i].title == Selected(options, declared, items).value then once[i] == items[i]
        else once[i].level == NotApplicable
  {
    var selected := Selected(options, declared, items);
    if selected.Some? && !(declared.Some? && options.named(declared.value)) {
      PassedSurvive(options, selected.value, because, items, SingleChoice(options, declared, because, items));
    }
  }

  /** What the review keeps of a run over n chunks. */
  datatype Report =
    | Analysed(items: seq<Item>, contractType: Option<Text>, dropped: nat, failed: set<nat>)
    | Degraded(failed: set<nat>)
    | Crashed(error: Id)

  function ReportOf(options: Options, because: (Text, Text) -> Text, run: Run, n: nat): Report
  {
    match run
    case Raised(error) => Crashed(error)
    case Finished(responses, failures, dropped) =>
      if responses == map[] then Degraded(failures.Keys)
      else
        var declared := MergedType(responses, n);
        Analysed(SingleChoice(options, declared, because, MergedItems(responses, n)), declared, dropped, failures.Keys)
  }

  /** The report of a parallel run, starved and retried or not, is the serial report. */
  lemma ReportIsSerial(options: Options, because: (Text, Text) -> Text, truth: seq<Outcome>, seen: seq<Outcome>)
    requires Starved(truth, seen) && Clean(truth)
    ensures ReportOf(options, because, Recovered(truth, seen), |truth|) ==
      ReportOf(options, because, Collected(truth), |truth|)
  {
    hide MergedType, MergedItems, SingleChoice;
    RecoveredRefinesSerial(truth, seen);
  }

  /** Without starvation the parallel run with its retry is the serial run. */
  lemma NothingStarved(truth: seq<Outcome>)
    ensures Recovered(truth, truth) == Collected(truth)
  {
    var t := Tallied(truth, Indices(|truth|));
    assert Clean(truth) ==> t.failures == map i | i in t.failures :: truth[i];
  }
}
