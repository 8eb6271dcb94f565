/**
 What a risk report contains: which answer of a chunk is kept, which of its items may stand,
 how the contract type is chosen, and that the report holds the items of all kept answers.
 */
module ReportContents {
  import opened Collecting
  import opened Ordering
  import opened RiskChunks
  import opened RiskReview
  import TitleIndex

  // ---------------------------------------------------------------- the kept answer

  /** A second call is made when fewer than half of the rules were answered.  Of two answers
      the one with more valid items is kept, the first on a tie, and a failing call fails the
      chunk.  Items that were not valid count as lost. */
  lemma AnalysisMeans(first: Reply, second: Reply, size: nat)
    requires LooksGood(first) && LooksGood(second)
    ensures first.NoAnswer? ==> Analysis(first, second, size) == first.failure
    ensures first.Answer? ==>
      var short := 2 * |first.valid| < size;
      && (short && second.NoAnswer? ==> Analysis(first, second, size) == second.failure)
      && (short && second.Answer? && |second.valid| > |first.valid| ==> KeptOf(second, Analysis(first, second, size)))
      && (!short || (second.Answer? && |second.valid| <= |first.valid|) ==>
            KeptOf(first, Analysis(first, second, size)))
  {
  }

  /** The outcome keeps this answer. */
  predicate KeptOf(reply: Reply, outcome: Outcome)
    requires reply.Answer?
  {
    && outcome.Done? && outcome.kept == reply.response.(items := reply.valid)
    && (|reply.response.items| >= |reply.valid| ==> outcome.lost + |reply.valid| == |reply.response.items|)
  }

  // ------------------------------------------------------------------- usable items

  /** Among the first two hundred, with a known level and a title, and with evidence that may
      be cited when it reports a problem. */
  predicate MayStand(allowed: set<Id>, drafts: seq<Draft>, n: nat)
  {
    && n < |drafts| && n < 200 && drafts[n].level.Some? && !drafts[n].blank
    && (drafts[n].level.value in {Level.Pass, Level.NotApplicable, Level.Undetermined}
        || exists e :: e in drafts[n].evidenceIds && e in allowed)
  }

  /** The rule an item is about: the one of the list it names, else the only one of the list
      with its title. */
  ghost predicate IsAbout(rules: seq<Rule>, d: Draft, ruleId: Option<Id>)
  {
    if d.ruleId.Some? && exists r :: r in rules && r.id == d.ruleId.value then ruleId == d.ruleId
    else if d.key.Some? && OneBearer(rules, d.key.value) then
      ruleId.Some? && exists r :: r in rules && r.title == d.key && r.id == ruleId.value
    else ruleId == None
  }

  /** All rules with this title have one id, and there is such a rule. */
  ghost predicate OneBearer(rules: seq<Rule>, key: Id)
  {
    && (exists r :: r in rules && r.title == Some(key))
    && forall q, r :: q in rules && r in rules && q.title == Some(key) && r.title == Some(key) ==> q.id == r.id
  }

  lemma AboutIff(rules: seq<Rule>, d: Draft)
    ensures IsAbout(rules, d, RuleOf(rules, d))
  {
    if d.key.Some? { BearerFound(rules, d.key.value); }
    hide ByTitle, OneBearer;
  }

  lemma BearerFound(rules: seq<Rule>, key: Id)
    ensures ByTitle(rules, key).Some? <==> OneBearer(rules, key)
    ensures ByTitle(rules, key).Some? ==>
      exists r :: r in rules && r.title == Some(key) && r.id == ByTitle(rules, key).value
  {
    var f := (r: Rule) => Bears(key, r);
    var bearers := Collect(f, rules);
    CollectMembers(f, rules);
    if OneBearer(rules, key) {
      var r :| r in rules && r.title == Some(key);
      assert f(r) == Some(r.id) && r.id in bearers;
      forall x | x in bearers ensures x == r.id { var q :| q in rules && f(q) == Some(x); }
      DedupOne(bearers, r.id);
    }
    if ByTitle(rules, key).Some? {
      var id := ByTitle(rules, key).value;
      DedupOne(bearers, id);
      assert bearers[0] in bearers;
      var r :| r in rules && f(r) == Some(id);
      forall q | q in rules && q.title == Some(key) ensures q.id == id {
        assert f(q) == Some(q.id) && q.id in bearers;
      }
    }
  }

  /** Exactly the items that may stand are kept, in their order, each with its title, level
      and reason. */
  lemma {:induction false} ItemsAre(rules: seq<Rule>, allowed: set<Id>, drafts: seq<Draft>, n: nat)
    returns (at: seq<nat>)
    requires n <= |drafts| && n <= 200
    ensures var items := Collect((d: Draft) => ItemOf(rules, allowed, d), drafts[..n]);
      |at| == |items| && forall k :: 0 <= k < |items| ==>
        at[k] < n && MayStand(allowed, drafts, at[k]) && WrittenAs(rules, drafts[at[k]], items[k])
    ensures forall i, k :: 0 <= i < k < |at| ==> at[i] < at[k]
    ensures forall m: nat :: m < n && MayStand(allowed, drafts, m) ==> m in at
  {
    hide RuleOf, IsAbout, MayStand, WrittenAs, Collect;
    var f := (d: Draft) => ItemOf(rules, allowed, d);
    at := [];
    NoItems(rules, allowed, drafts);
    for m: nat := 0 to n
      invariant |at| == |Collect(f, drafts[..m])|
      invariant forall k :: 0 <= k < |at| ==>
        at[k] < m && MayStand(allowed, drafts, at[k]) && WrittenAs(rules, drafts[at[k]], Collect(f, drafts[..m])[k])
      invariant forall i, k :: 0 <= i < k < |at| ==> at[i] < at[k]
      invariant forall x: nat :: x < m && MayStand(allowed, drafts, x) ==> x in at
    {
      ItemsStep(rules, allowed, drafts, m);
      if MayStand(allowed, drafts, m) {
        ghost var before := at;
        at := at + [m];
        assert forall x :: x in before ==> x in at;
        assert at[|before|] == m;
      }
    }
  }

  lemma NoItems(rules: seq<Rule>, allowed: set<Id>, drafts: seq<Draft>)
    ensures Collect((d: Draft) => ItemOf(rules, allowed, d), drafts[..0]) == []
  {
  }

  lemma ItemsStep(rules: seq<Rule>, allowed: set<Id>, drafts: seq<Draft>, m: nat)
    requires m < |drafts| && m < 200
    ensures var f := (d: Draft) => ItemOf(rules, allowed, d);
      && (MayStand(allowed, drafts, m) ==>
            && f(drafts[m]).Some? && WrittenAs(rules, drafts[m], f(drafts[m]).value)
            && Collect(f, drafts[..m + 1]) == Collect(f, drafts[..m]) + [f(drafts[m]).value])
      && (!MayStand(allowed, drafts, m) ==> Collect(f, drafts[..m + 1]) == Collect(f, drafts[..m]))
  {
    hide RuleOf, IsAbout, MayStand;
    TakeStep(drafts, m);
    UsableIff(allowed, drafts, m);
    AboutIff(rules, drafts[m]);
  }

  ghost predicate WrittenAs(rules: seq<Rule>, d: Draft, item: Item)
  {
    d.level == Some(item.level) && item.title == d.title && item.reason == d.reason && IsAbout(rules, d, item.ruleId)
  }

  lemma UsableIff(allowed: set<Id>, drafts: seq<Draft>, n: nat)
    requires n < |drafts| && n < 200
    ensures MayStand(allowed, drafts, n) <==> Usable(allowed, drafts[n])
  {
  }

  // ------------------------------------------------------------- one contract type

  /** An item about a rule of the category of contract types. */
  predicate IsCandidate(options: Options, item: Item)
  {
    match item.ruleId case Some(id) => options.classification(id) case None => false
  }

  /** A candidate contract type that the model passed. */
  predicate Passed(options: Options, items: seq<Item>, n: nat)
  {
    n < |items| && IsCandidate(options, items[n]) && items[n].level == Level.Pass
  }

  ghost predicate OnlyPassed(options: Options, items: seq<Item>, n: nat)
  {
    Passed(options, items, n) && forall m: nat :: Passed(options, items, m) ==> m == n
  }

  /** The choice is the declared type when it is one of the names, and otherwise the only
      passed candidate when its title is one. */
  lemma SelectedIff(options: Options, declared: Option<Text>, items: seq<Item>, t: Text)
    ensures Selected(options, declared, items) == Some(t) <==>
      if declared.Some? && options.named(declared.value) then declared == Some(t)
      else options.named(t) && exists n: nat :: OnlyPassed(options, items, n) && items[n].title == t
  {
    OneIff(options, items, t);
    hide PassedTitles, OnlyPassed;
  }

  lemma OneIff(options: Options, items: seq<Item>, t: Text)
    ensures var titles := PassedTitles(options, items);
      (|titles| == 1 && titles[0] == t) <==> exists n: nat :: OnlyPassed(options, items, n) && items[n].title == t
  {
    hide PassedTitles, IsCandidate;
    var at := PassedAt(options, items);
    if |at| == 1 {
      forall m: nat | Passed(options, items, m) ensures m == at[0] { assert m in at; }
      assert OnlyPassed(options, items, at[0]);
    }
    assert |at| > 1 ==> at[0] < at[1];
    if n: nat :| OnlyPassed(options, items, n) && items[n].title == t {
      assert n in at;
      forall k | 0 <= k < |at| ensures at[k] == n { assert Passed(options, items, at[k]); }
      assert |at| <= 1;
    }
  }

  lemma PassedAt(options: Options, items: seq<Item>) returns (at: seq<nat>)
    ensures |at| == |PassedTitles(options, items)|
    ensures forall k :: 0 <= k < |at| ==>
      Passed(options, items, at[k]) && PassedTitles(options, items)[k] == items[at[k]].title
    ensures forall i, k :: 0 <= i < k < |at| ==> at[i] < at[k]
    ensures forall n: nat :: Passed(options, items, n) ==> n in at
  {
    NoTitles(options, items);
    hide PassedTitles, Passed;
    at := [];
    for m: nat := 0 to |items|
      invariant |at| == |PassedTitles(options, items[..m])|
      invariant forall k :: 0 <= k < |at| ==> at[k] < m && Passed(options, items, at[k])
      invariant forall k :: 0 <= k < |at| ==> PassedTitles(options, items[..m])[k] == items[at[k]].title
      invariant forall i, k :: 0 <= i < k < |at| ==> at[i] < at[k]
      invariant forall x: nat :: x < m && Passed(options, items, x) ==> x in at
    {
      TitlesStep(options, items, m);
      if Passed(options, items, m) {
        ghost var before := at;
        at := at + [m];
        assert forall x :: x in before ==> x in at;
        assert at[|before|] == m;
      }
    }
    TakeAll(items);
    forall n: nat | Passed(options, items, n) ensures n < |items| { PassedInside(options, items, n); }
  }

  lemma NoTitles(options: Options, items: seq<Item>)
    ensures PassedTitles(options, items[..0]) == []
  {
  }

  lemma PassedInside(options: Options, items: seq<Item>, n: nat)
    requires Passed(options, items, n)
    ensures n < |items|
  {
  }

  lemma TitlesStep(options: Options, items: seq<Item>, m: nat)
    requires m < |items|
    ensures PassedTitles(options, items[..m + 1]) ==
      PassedTitles(options, items[..m]) + if Passed(options, items, m) then [items[m].title] else []
  {
    TakeStep(items, m);
  }

  /** Only candidate types other than the choice are changed: they do not apply, and the reason
      says why. */
  predicate Settled(options: Options, choice: Option<Text>, because: (Text, Text) -> Text, before: Item, after: Item)
  {
    if choice.Some? && IsCandidate(options, before) && before.title != choice.value then
      after == Item(before.title, before.ruleId, Level.NotApplicable, because(choice.value, before.reason))
    else after == before
  }

  lemma ChoiceSettles(options: Options, declared: Option<Text>, because: (Text, Text) -> Text, items: seq<Item>)
    ensures var after := SingleChoice(options, declared, because, items);
      |after| == |items| && forall i :: 0 <= i < |items| ==>
        Settled(options, Selected(options, declared, items), because, items[i], after[i])
  {
    hide Selected;
  }

  // --------------------------------------------------------------------- one answer

  /** The last rule of the list with this id. */
  predicate LastRule(rules: seq<Rule>, id: Id, n: nat)
  {
    n < |rules| && rules[n].id == id && forall m :: n < m < |rules| ==> rules[m].id != id
  }

  /** A rule id is of the category of contract types when the last rule with it is. */
  lemma {:induction false} CategoryIs(rules: seq<Rule>, id: Id)
    ensures IsClassification(rules, id) <==> exists n: nat :: LastRule(rules, id, n) && rules[n].classification
  {
    if rules != [] {
      var last := |rules| - 1;
      if rules[last].id == id {
        assert LastRule(rules, id, last);
      } else {
        var front := rules[..last];
        CategoryIs(front, id);
        if n: nat :| LastRule(front, id, n) && front[n].classification { assert LastRule(rules, id, n); }
        if n: nat :| LastRule(rules, id, n) && rules[n].classification { assert LastRule(front, id, n); }
      }
    }
  }

  /** A call gives an answer if and only if it returns one that echoes the request; the answer
      carries every draft as it was written. */
  lemma ReplyIs(j: Job, rules: seq<Rule>, raw: Raw)
    ensures var reply := ReplyOf(j, rules, raw);
      && (reply.Answer? <==> raw.Raw? && raw.fits)
      && (raw.Failing? && !raw.failure.Done? ==> reply.failure == raw.failure)
      && (raw.Raw? && !raw.fits ==> reply.failure == Invalid(MISMATCH))
      && (reply.Answer? ==>
            && reply.response.id == raw.id && reply.response.contractType == raw.contractType
            && |reply.response.items| == |raw.drafts|
            && forall n :: 0 <= n < |raw.drafts| ==>
                 && reply.response.items[n].title == raw.drafts[n].title
                 && reply.response.items[n].ruleId == raw.drafts[n].ruleId
                 && reply.response.items[n].reason == raw.drafts[n].reason
                 && (raw.drafts[n].level == Some(reply.response.items[n].level) || raw.drafts[n].level.None?))
  {
    hide SingleChoice, Items;
  }

  /** A chunk comes to what its first call gives when that fails, or answers at least half of
      the rules; otherwise a second call is made, and the fuller answer is kept. */
  lemma OutcomeIs(j: Job, i: nat)
    requires i < |Chunks(j.rules)|
    ensures var chunk := Chunks(j.rules)[i];
      var first, second := ReplyOf(j, chunk, j.client(chunk, 0)), ReplyOf(j, chunk, j.client(chunk, 1));
      && (first.NoAnswer? ==> Truth(j)[i] == first.failure)
      && (first.Answer? && 2 * |first.valid| >= |chunk| ==> KeptOf(first, Truth(j)[i]))
      && (first.Answer? && 2 * |first.valid| < |chunk| ==>
            if second.NoAnswer? then Truth(j)[i] == second.failure
            else if |second.valid| > |first.valid| then KeptOf(second, Truth(j)[i])
            else KeptOf(first, Truth(j)[i]))
  {
    var chunk := Chunks(j.rules)[i];
    hide ReplyOf, KeptOf, Analysis;
    ReplyLooksGood(j, chunk, j.client(chunk, 0));
    ReplyLooksGood(j, chunk, j.client(chunk, 1));
    AnalysisMeans(ReplyOf(j, chunk, j.client(chunk, 0)), ReplyOf(j, chunk, j.client(chunk, 1)), |chunk|);
  }

  // ---------------------------------------------------------------------- the merge

  /** The items kept of each chunk. */
  function KeptParts(truth: seq<Outcome>): (r: seq<seq<Item>>)
    ensures |r| == |truth| && forall i :: 0 <= i < |r| ==> r[i] == if truth[i].Done? then truth[i].kept.items else []
  {
    seq(|truth|, i requires 0 <= i < |truth| => if truth[i].Done? then truth[i].kept.items else [])
  }

  lemma {:induction false} MergedIs(truth: seq<Outcome>, n: nat)
    requires n <= |truth|
    ensures MergedItems(Responses(truth, Indices(|truth|)), n) == Flatten(KeptParts(truth)[..n])
  {
    if n > 0 {
      MergedIs(truth, n - 1);
      TakeStep(KeptParts(truth), n - 1);
      FlattenSnoc(KeptParts(truth)[..n - 1], KeptParts(truth)[n - 1]);
    }
  }

  /** Chunk i is the first whose answer names a contract type. */
  predicate NamesFirst(truth: seq<Outcome>, i: int)
  {
    && 0 <= i < |truth| && truth[i].Done? && truth[i].kept.contractType.Some?
    && forall k :: 0 <= k < i ==> !(truth[k].Done? && truth[k].kept.contractType.Some?)
  }

  lemma {:induction false} TypeIs(truth: seq<Outcome>, n: nat)
    requires n <= |truth|
    ensures var merged := MergedType(Responses(truth, Indices(|truth|)), n);
      && (forall i :: NamesFirst(truth, i) && i < n ==> merged == truth[i].kept.contractType)
      && (merged == None ==> forall i :: 0 <= i < n ==> !(truth[i].Done? && truth[i].kept.contractType.Some?))
      && (merged.Some? ==> exists i :: NamesFirst(truth, i) && i < n)
  {
    if n > 0 {
      TypeIs(truth, n - 1);
      var merged := MergedType(Responses(truth, Indices(|truth|)), n);
      assert MergedType(Responses(truth, Indices(|truth|)), n - 1) == None && merged.Some? ==> NamesFirst(truth, n - 1);
    }
  }

  lemma {:induction false} LostIs(truth: seq<Outcome>, n: nat)
    requires n <= |truth|
    ensures Lost(truth, n, Indices(|truth|)) == Total((o: Outcome) => if o.Done? then o.lost else 0, truth[..n])
  {
    if n > 0 {
      LostIs(truth, n - 1);
      TakeStep(truth, n - 1);
    }
  }

  predicate Defective(truth: seq<Outcome>, i: int) { 0 <= i < |truth| && truth[i].Defect? }

  predicate Answered(truth: seq<Outcome>, i: int) { 0 <= i < |truth| && truth[i].Done? }

  /** When there is a report at all: an unexpected error is raised, the one of the first chunk
      that has one; without any answer the analysis is degraded. */
  lemma ReportKind(options: Options, because: (Text, Text) -> Text, truth: seq<Outcome>)
    ensures var report := ReportOf(options, because, Collected(truth), |truth|);
      && (report.Crashed? <==> exists i :: Defective(truth, i))
      && (forall i :: Defective(truth, i) && (forall k :: 0 <= k < i ==> !Defective(truth, k)) ==>
            report == Crashed(truth[i].error))
      && (report.Analysed? <==> (forall i :: !Defective(truth, i)) && exists i :: Answered(truth, i))
  {
    hide SingleChoice, MergedItems, MergedType, Lost;
    var first := FirstDefect(truth);
    assert first < |truth| ==> Defective(truth, first);
    assert forall k :: 0 <= k < first ==> !Defective(truth, k);
    AnswersAre(truth);
  }

  lemma AnswersAre(truth: seq<Outcome>)
    ensures Responses(truth, Indices(|truth|)) == map[] <==> forall i :: !Answered(truth, i)
  {
    var responses := Responses(truth, Indices(|truth|));
    if i :| Answered(truth, i) {
      var n: nat := i;
      assert n in responses;
    } else {
      forall n: nat ensures n !in responses { assert !Answered(truth, n); }
      assert responses == map[];
    }
  }

  /** The items of all kept answers in the order of the chunks, settled for one contract type,
      which is the first one named; all lost items are counted and the failed chunks listed. */
  ghost predicate Holds(options: Options, because: (Text, Text) -> Text, truth: seq<Outcome>, report: Report)
    requires report.Analysed?
  {
    var raw := Flatten(KeptParts(truth));
    && |report.items| == |raw|
    && (forall k :: 0 <= k < |raw| ==>
          Settled(options, Selected(options, report.contractType, raw), because, raw[k], report.items[k]))
    && (forall i :: NamesFirst(truth, i) ==> report.contractType == truth[i].kept.contractType)
    && (report.contractType.Some? ==> exists i :: NamesFirst(truth, i))
    && report.dropped == Total((o: Outcome) => if o.Done? then o.lost else 0, truth)
    && (forall i: nat :: i in report.failed <==> i < |truth| && (truth[i].Unavailable? || truth[i].Invalid?))
  }

  lemma ReportHolds(options: Options, because: (Text, Text) -> Text, truth: seq<Outcome>)
    requires ReportOf(options, because, Collected(truth), |truth|).Analysed?
    ensures Holds(options, because, truth, ReportOf(options, because, Collected(truth), |truth|))
  {
    var report := ReportOf(options, because, Collected(truth), |truth|);
    var responses := Responses(truth, Indices(|truth|));
    ReportParts(options, because, truth);
    FailuresAre(truth);
    hide *;
    MergedIs(truth, |truth|);
    TypeIs(truth, |truth|);
    LostIs(truth, |truth|);
    TakeAll(truth);
    TakeAll(KeptParts(truth));
    ChoiceSettles(options, report.contractType, because, Flatten(KeptParts(truth)));
    Assemble(options, because, truth, report, Flatten(KeptParts(truth)));
  }

  lemma ReportParts(options: Options, because: (Text, Text) -> Text, truth: seq<Outcome>)
    requires ReportOf(options, because, Collected(truth), |truth|).Analysed?
    ensures var report := ReportOf(options, because, Collected(truth), |truth|);
      var responses, n := Responses(truth, Indices(|truth|)), |truth|;
      && report.contractType == MergedType(responses, n)
      && report.items == SingleChoice(options, report.contractType, because, MergedItems(responses, n))
      && report.dropped == Lost(truth, n, Indices(n))
      && report.failed == Failures(truth, Indices(n)).Keys
  {
    hide SingleChoice, MergedItems, MergedType, Lost, Responses, Failures, Indices;
  }

  lemma FailuresAre(truth: seq<Outcome>)
    ensures forall i: nat :: i in Failures(truth, Indices(|truth|)).Keys <==>
      i < |truth| && (truth[i].Unavailable? || truth[i].Invalid?)
  {
  }

  lemma Assemble(options: Options, because: (Text, Text) -> Text, truth: seq<Outcome>, report: Report, raw: seq<Item>)
    requires report.Analysed? && raw == Flatten(KeptParts(truth)) && |report.items| == |raw|
    requires forall i :: 0 <= i < |raw| ==>
      Settled(options, Selected(options, report.contractType, raw), because, raw[i], report.items[i])
    requires forall i :: NamesFirst(truth, i) && i < |truth| ==> report.contractType == truth[i].kept.contractType
    requires report.contractType.Some? ==> exists i :: NamesFirst(truth, i) && i < |truth|
    requires report.dropped == Total((o: Outcome) => if o.Done? then o.lost else 0, truth)
    requires forall i: nat :: i in report.failed <==> i < |truth| && (truth[i].Unavailable? || truth[i].Invalid?)
    ensures Holds(options, because, truth, report)
  {
    hide Settled, Selected, KeptParts, Flatten, Total, IsCandidate;
  }

  /** Every usable draft of a kept answer appears in the report, with its title and its rule. */
  lemma DraftsAppear(j: Job, i: nat, attempt: nat, n: nat) returns (k: nat)
    requires SerialReport(j).Analysed? && i < |Chunks(j.rules)| && attempt < 2
    requires var raw := j.client(Chunks(j.rules)[i], attempt);
      && ReplyOf(j, Chunks(j.rules)[i], raw).Answer?
      && KeptOf(ReplyOf(j, Chunks(j.rules)[i], raw), Truth(j)[i])
      && MayStand(j.allowed, raw.drafts, n)
    ensures k < |SerialReport(j).items|
    ensures var d, item := j.client(Chunks(j.rules)[i], attempt).drafts[n], SerialReport(j).items[k];
      item.title == d.title && IsAbout(Chunks(j.rules)[i], d, item.ruleId)
  {
    var chunk := Chunks(j.rules)[i];
    var raw := j.client(chunk, attempt);
    var truth := Truth(j);
    var item := DraftKept(j, chunk, raw, n);
    ReportHolds(OptionsOf(j, j.rules), j.because, truth);
    assert item in KeptParts(truth)[i];
    FlattenMembers(KeptParts(truth));
    var all := Flatten(KeptParts(truth));
    assert item in all;
    k :| 0 <= k < |all| && all[k] == item;
    hide Truth, OptionsOf, Chunks, Selected, IsAbout, KeptParts, ReplyOf;
    assert Settled(OptionsOf(j, j.rules), Selected(OptionsOf(j, j.rules), SerialReport(j).contractType, all), j.because,
      all[k], SerialReport(j).items[k]);
  }

  lemma DraftKept(j: Job, chunk: seq<Rule>, raw: Raw, n: nat) returns (item: Item)
    requires ReplyOf(j, chunk, raw).Answer? && MayStand(j.allowed, raw.drafts, n)
    ensures item in ReplyOf(j, chunk, raw).valid
    ensures item.title == raw.drafts[n].title && IsAbout(chunk, raw.drafts[n], item.ruleId)
  {
    hide IsAbout, OptionsOf, Selected, MayStand, WrittenAs;
    var limit := if |raw.drafts| <= 200 then |raw.drafts| else 200;
    var items := Items(chunk, j.allowed, raw.drafts);
    TakeAll(raw.drafts);
    InReach(j.allowed, raw.drafts, n);
    var at := ItemsAre(chunk, j.allowed, raw.drafts, limit);
    var k :| 0 <= k < |at| && at[k] == n;
    ChoiceSettles(OptionsOf(j, chunk), raw.contractType, j.because, items);
    item := ReplyOf(j, chunk, raw).valid[k];
    WrittenMeans(chunk, raw.drafts[n], items[k]);
  }

  lemma InReach(allowed: set<Id>, drafts: seq<Draft>, n: nat)
    requires MayStand(allowed, drafts, n)
    ensures n < |drafts| && n < 200
  {
  }

  lemma WrittenMeans(rules: seq<Rule>, d: Draft, item: Item)
    requires WrittenAs(rules, d, item)
    ensures item.title == d.title && IsAbout(rules, d, item.ruleId)
  {
  }
}
