/**
 Risk analysis from rules to report: answers are validated against the rules of their chunk,
 chunks are run and merged, and the report does not depend on how they were scheduled.
 */
module RiskReview {
  import opened Collecting
  import opened Ordering
  import opened RiskChunks
  import TitleIndex

  /** A rule, its normalised title and whether it is a candidate contract type. */
  datatype Rule = Rule(id: Id, title: Option<Id>, classification: bool)

  /** An item as the model wrote it: `key` is its title in the form titles are compared in,
      `title` the same of the title cut to length; a missing level is an unknown one. */
  datatype Draft = Draft(
    ruleId: Option<Id>, key: Option<Id>, title: Text, blank: bool, level: Option<Level>, evidenceIds: seq<Id>,
    reason: Text)

  /** What a call returns, or how it fails; `fits` says that it echoes the request. */
  datatype Raw = Raw(id: Id, drafts: seq<Draft>, contractType: Option<Text>, fits: bool) | Failing(failure: Outcome)

  /** One analysis: the rules to judge, the evidence that may be cited, the names of the
      contract types, how a rejected candidate is explained, and the client. */
  datatype Job = Job(
    rules: seq<Rule>, allowed: set<Id>, named: Text -> bool, because: (Text, Text) -> Text,
    client: (seq<Rule>, nat) -> Raw)

  const MAX_ITEMS: nat := 200
  const MISMATCH: Text := 0

  // ------------------------------------------------------------------ validating

  predicate NeedsEvidence(level: Level) { level.Block? || level.Warn? || level.Info? }

  /** The item may stand: known level, a title, and evidence where the level asks for it. */
  predicate Usable(allowed: set<Id>, d: Draft)
  {
    && d.level.Some? && !d.blank
    && (NeedsEvidence(d.level.value) ==> exists e :: e in d.evidenceIds && e in allowed)
  }

  function HintOf(r: Rule): TitleIndex.Hint { TitleIndex.Hint(Some(r.id), r.title) }

  function Hints(rules: seq<Rule>): seq<TitleIndex.Hint> { Map(HintOf, rules) }

  function Bears(key: Id, r: Rule): Option<Id> { Collecting.Kept(r.title == Some(key), r.id) }

  /** The only rule with this title. */
  function ByTitle(rules: seq<Rule>, key: Id): Option<Id>
  {
    var bearers := Dedup(Collect((r: Rule) => Bears(key, r), rules));
    if |bearers| == 1 then Some(bearers[0]) else None
  }

  predicate Known(rules: seq<Rule>, id: Id) { exists r :: r in rules && r.id == id }

  /** The rule an item is about: the one it names, else the only one with its title. */
  function RuleOf(rules: seq<Rule>, d: Draft): Option<Id>
  {
    if d.ruleId.Some? && Known(rules, d.ruleId.value) then d.ruleId
    else if d.key.Some? then ByTitle(rules, d.key.value)
    else None
  }

  function ItemOf(rules: seq<Rule>, allowed: set<Id>, d: Draft): Option<Item>
  {
    if Usable(allowed, d) then Some(Item(d.title, RuleOf(rules, d), d.level.value, d.reason)) else None
  }

  function Items(rules: seq<Rule>, allowed: set<Id>, drafts: seq<Draft>): seq<Item>
  {
    Collect((d: Draft) => ItemOf(rules, allowed, d), if |drafts| <= MAX_ITEMS then drafts else drafts[..MAX_ITEMS])
  }

  /** The category of the last rule with this id. */
  predicate IsClassification(rules: seq<Rule>, id: Id)
  {
    rules != [] && var last := rules[|rules| - 1];
    if last.id == id then last.classification else IsClassification(rules[..|rules| - 1], id)
  }

  function OptionsOf(j: Job, rules: seq<Rule>): Options { Options((id: Id) => IsClassification(rules, id), j.named) }

  function Plain(d: Draft): Item
  {
    Item(d.title, d.ruleId, if d.level.Some? then d.level.value else Undetermined, d.reason)
  }

  /** validate_risk_analysis_response */
  function ReplyOf(j: Job, rules: seq<Rule>, raw: Raw): Reply
  {
    if raw.Failing? then NoAnswer(if raw.failure.Done? then Invalid(MISMATCH) else raw.failure)
    else if !raw.fits then NoAnswer(Invalid(MISMATCH))
    else
      Answer(Response(raw.id, Map(Plain, raw.drafts), raw.contractType),
             SingleChoice(OptionsOf(j, rules), raw.contractType, j.because, Items(rules, j.allowed, raw.drafts)))
  }

  lemma {:induction false} DedupOne(s: seq<Id>, r: Id)
    ensures (|Dedup(s)| == 1 && Dedup(s)[0] == r) <==> s != [] && forall x :: x in s ==> x == r
  {
    DedupDistinct(s);
    var d := Dedup(s);
    assert |d| > 1 ==> d[0] != d[1];
    if s != [] && forall x :: x in s ==> x == r {
      forall k | 0 <= k < |d| ensures d[k] == r { assert d[k] in d; }
    }
    if |d| == 1 && d[0] == r {
      forall x | x in s ensures x == r { assert x in d; }
    }
  }

  /** The title index of the chunk finds exactly the rule that alone bears the title. */
  lemma ByTitleIff(rules: seq<Rule>, key: Id, r: Id)
    ensures ByTitle(rules, key) == Some(r) <==> TitleIndex.Unambiguous(Hints(rules), key, r)
  {
    var f := (r: Rule) => Bears(key, r);
    var bearers := Collect(f, rules);
    CollectMembers(f, rules);
    DedupOne(bearers, r);
    var hints := Hints(rules);
    forall h ensures h in hints <==> exists q :: q in rules && HintOf(q) == h { HintMembers(rules, h); }
    if TitleIndex.Unambiguous(hints, key, r) {
      var h :| h in hints && TitleIndex.Names(h, key, r);
      var q :| q in rules && HintOf(q) == h;
      assert f(q) == Some(r);
      assert r in bearers;
      forall x | x in bearers ensures x == r {
        var p :| p in rules && f(p) == Some(x);
        assert HintOf(p) in hints;
      }
    }
    if bearers != [] && forall x :: x in bearers ==> x == r {
      assert bearers[0] in bearers;
      var q :| q in rules && f(q) == Some(r);
      assert TitleIndex.Names(HintOf(q), key, r);
      forall h | h in hints && h.title == Some(key) && h.ruleId.Some? ensures h.ruleId.value == r {
        var p :| p in rules && HintOf(p) == h;
        assert f(p) == Some(p.id);
        assert p.id in bearers;
      }
    }
  }

  lemma HintMembers(rules: seq<Rule>, h: TitleIndex.Hint)
    ensures h in Hints(rules) <==> exists q :: q in rules && HintOf(q) == h
  {
    var hints := Hints(rules);
    if h in hints {
      var i :| 0 <= i < |hints| && hints[i] == h;
      var q := rules[i];
      assert q in rules && HintOf(q) == h;
    }
    if q :| q in rules && HintOf(q) == h {
      var i :| 0 <= i < |rules| && rules[i] == q;
      assert hints[i] == h;
    }
  }

  /** The validating loop, with the title index computed once. */
  method ValidateItems(rules: seq<Rule>, allowed: set<Id>, drafts: seq<Draft>) returns (items: seq<Item>)
    ensures items == Items(rules, allowed, drafts)
  {
    var index := TitleIndex.IndexTitles(Hints(rules));
    var known := set r | r in rules :: r.id;
    var first := if |drafts| <= MAX_ITEMS then drafts else drafts[..MAX_ITEMS];
    ghost var f := (d: Draft) => ItemOf(rules, allowed, d);
    items := [];
    for i := 0 to |first|
      invariant items == Collect(f, first[..i])
    {
      var d := first[i];
      TakeStep(first, i);
      if !Usable(allowed, d) { continue; }
      var ruleId := if d.ruleId.Some? && d.ruleId.value in known then d.ruleId
        else if d.key.Some? && d.key.value in index then Some(index[d.key.value]) else None;
      if d.key.Some? { IndexedTitle(rules, index, d.key.value); }
      items := items + [Item(d.title, ruleId, d.level.value, d.reason)];
    }
    TakeAll(first);
  }

  lemma IndexedTitle(rules: seq<Rule>, index: map<Id, Id>, key: Id)
    requires forall t, r :: (t in index && index[t] == r) <==> TitleIndex.Unambiguous(Hints(rules), t, r)
    ensures ByTitle(rules, key) == if key in index then Some(index[key]) else None
  {
    var found := ByTitle(rules, key);
    if found.Some? { ByTitleIff(rules, key, found.value); }
    if key in index { ByTitleIff(rules, key, index[key]); }
  }

  // -------------------------------------------------------------- from rules to report

  function OutcomeOf(j: Job, chunk: seq<Rule>): Outcome
  {
    Analysis(ReplyOf(j, chunk, j.client(chunk, 0)), ReplyOf(j, chunk, j.client(chunk, 1)), |chunk|)
  }

  /** What each chunk comes to when it gets a slot. */
  function Truth(j: Job): (r: seq<Outcome>)
    ensures |r| == |Chunks(j.rules)|
    ensures forall i :: 0 <= i < |r| ==> r[i] == OutcomeOf(j, Chunks(j.rules)[i])
  {
    seq(|Chunks(j.rules)|, i requires 0 <= i < |Chunks(j.rules)| => OutcomeOf(j, Chunks(j.rules)[i]))
  }

  /** The report of the serial run. */
  function SerialReport(j: Job): Report
  {
    ReportOf(OptionsOf(j, j.rules), j.because, Collected(Truth(j)), |Chunks(j.rules)|)
  }

  method CutRules(rules: seq<Rule>) returns (chunks: seq<seq<Rule>>)
    ensures chunks == Chunks(rules)
  {
    chunks := [];
    var start := 0;
    assert rules[0..] == rules;
    while start < |rules|
      invariant start <= |rules| && chunks + Chunks(rules[start..]) == Chunks(rules)
    {
      var end := if start + CHUNK_SIZE <= |rules| then start + CHUNK_SIZE else |rules|;
      CutStep(rules, start, end);
      assert chunks + ([rules[start..end]] + Chunks(rules[end..])) ==
        (chunks + [rules[start..end]]) + Chunks(rules[end..]);
      chunks := chunks + [rules[start..end]];
      start := end;
    }
    assert chunks + [] == chunks;
  }

  lemma CutStep(rules: seq<Rule>, start: nat, end: nat)
    requires start < |rules| && end == (if start + CHUNK_SIZE <= |rules| then start + CHUNK_SIZE else |rules|)
    ensures Chunks(rules[start..]) == [rules[start..end]] + Chunks(rules[end..])
  {
    var rest := rules[start..];
    if |rest| <= CHUNK_SIZE {
      assert rest == rules[start..end] && rules[end..] == [];
    } else {
      assert rest[..CHUNK_SIZE] == rules[start..end] && rest[CHUNK_SIZE..] == rules[end..];
    }
  }

  /** What the first attempt sees: chunks without a free slot fail as unavailable. */
  function Seen(truth: seq<Outcome>, starved: map<nat, Text>): (r: seq<Outcome>)
    ensures |r| == |truth| && Starved(truth, r)
    ensures starved == map[] ==> r == truth
  {
    seq(|truth|, i requires 0 <= i < |truth| => if i in starved then Unavailable(starved[i]) else truth[i])
  }

  /** Cut, call, collect, retry and merge.  Whichever chunks find no slot at first and in
      whatever order the others complete, the report is the serial one; only an unexpected
      error may be another one when its chunk was starved. */
  method ReviewRules(j: Job, concurrent: bool, order: seq<nat>, starved: map<nat, Text>)
    returns (report: Option<Report>)
    requires Schedules(order, |Chunks(j.rules)|)
    ensures report.None? <==> j.allowed == {} || j.rules == []
    ensures report.Some? && (Clean(Truth(j)) || !concurrent || starved == map[]) ==> report.value == SerialReport(j)
    ensures report.Some? ==> (report.value.Crashed? <==> SerialReport(j).Crashed?)
  {
    hide OutcomeOf, Collected, ReportOf, Recovered, Schedules, OptionsOf;
    if j.allowed == {} || j.rules == [] { return None; }
    var chunks := CutRules(j.rules);
    var outcomes: seq<Outcome> := [];
    for i := 0 to |chunks|
      invariant |outcomes| == i && forall k :: 0 <= k < i ==> outcomes[k] == OutcomeOf(j, chunks[k])
    {
      var outcome := CallClient(j, chunks[i]);
      outcomes := outcomes + [outcome];
    }
    assert outcomes == Truth(j);
    var run: Run;
    if concurrent && |chunks| > 1 {
      run := RunAndRetry(outcomes, Seen(outcomes, starved), order);
      Rescheduled(OptionsOf(j, j.rules), j.because, outcomes, starved, |chunks|);
    } else {
      run := RunSerially(outcomes);
    }
    report := Some(ReportOf(OptionsOf(j, j.rules), j.because, run, |chunks|));
  }

  method CallClient(j: Job, chunk: seq<Rule>) returns (outcome: Outcome)
    ensures outcome == OutcomeOf(j, chunk)
  {
    hide ReplyOf, Analysis;
    var calls;
    outcome, calls := AnalyzeChunk((k: nat) => ReplyOf(j, chunk, j.client(chunk, k)), |chunk|);
  }

  lemma Rescheduled(options: Options, because: (Text, Text) -> Text, truth: seq<Outcome>, starved: map<nat, Text>,
                    n: nat)
    requires n == |truth|
    ensures var a := ReportOf(options, because, Recovered(truth, Seen(truth, starved)), n);
      var b := ReportOf(options, because, Collected(truth), n);
      && (Clean(truth) || starved == map[] ==> a == b) && (a.Crashed? <==> b.Crashed?)
  {
    hide MergedType, MergedItems, SingleChoice, Tallied;
    var seen := Seen(truth, starved);
    if Clean(truth) { ReportIsSerial(options, because, truth, seen); }
    if starved == map[] { NothingStarved(truth); }
    DefectsAreRaised(truth, seen);
  }

  // -------------------------------------------------------------- what a report says

  /** Every item of the report that is about a rule is about one of the rules analysed. */
  lemma ReportNamesRules(j: Job, item: Item)
    requires SerialReport(j).Analysed? && item in SerialReport(j).items && item.ruleId.Some?
    ensures Known(j.rules, item.ruleId.value)
  {
    hide Chunks, MergedType, OutcomeOf, Selected, Known;
    var truth := Truth(j);
    var run := Collected(truth);
    var declared := MergedType(run.responses, |truth|);
    var merged := MergedItems(run.responses, |truth|);
    var before := ChoiceKeepsRules(OptionsOf(j, j.rules), declared, j.because, merged, item);
    var i := MergedFrom(run.responses, |truth|, before);
    assert truth[i].Done? && run.responses[i] == truth[i].kept;
    ChunkNamesRules(j, Chunks(j.rules)[i], before);
    ChunkRules(j.rules, i, before.ruleId.value);
  }

  lemma ChoiceKeepsRules(options: Options, declared: Option<Text>, because: (Text, Text) -> Text, items: seq<Item>,
                         item: Item)
    returns (before: Item)
    requires item in SingleChoice(options, declared, because, items)
    ensures before in items && before.ruleId == item.ruleId
  {
    hide Selected;
    var after := SingleChoice(options, declared, because, items);
    var i :| 0 <= i < |after| && after[i] == item;
    before := items[i];
  }

  lemma {:induction false} MergedFrom(responses: map<nat, Response>, n: nat, item: Item) returns (i: nat)
    requires item in MergedItems(responses, n)
    ensures i < n && i in responses && item in responses[i].items
  {
    if n - 1 in responses && item in responses[n - 1].items {
      i := n - 1;
    } else {
      i := MergedFrom(responses, n - 1, item);
    }
  }

  lemma ChunkNamesRules(j: Job, chunk: seq<Rule>, item: Item)
    requires OutcomeOf(j, chunk).Done? && item in OutcomeOf(j, chunk).kept.items && item.ruleId.Some?
    ensures Known(chunk, item.ruleId.value)
  {
    hide ReplyOf, Known;
    var first, second := ReplyOf(j, chunk, j.client(chunk, 0)), ReplyOf(j, chunk, j.client(chunk, 1));
    ReplyLooksGood(j, chunk, j.client(chunk, 0));
    ReplyLooksGood(j, chunk, j.client(chunk, 1));
    if first.Answer? && item in first.valid {
      ReplyNamesRules(j, chunk, j.client(chunk, 0), item);
    } else {
      ReplyNamesRules(j, chunk, j.client(chunk, 1), item);
    }
  }

  lemma ReplyLooksGood(j: Job, chunk: seq<Rule>, raw: Raw)
    ensures LooksGood(ReplyOf(j, chunk, raw))
  {
    hide SingleChoice, Items;
  }

  lemma ReplyNamesRules(j: Job, chunk: seq<Rule>, raw: Raw, item: Item)
    requires ReplyOf(j, chunk, raw).Answer? && item in ReplyOf(j, chunk, raw).valid && item.ruleId.Some?
    ensures Known(chunk, item.ruleId.value)
  {
    hide SingleChoice, Known, ByTitle;
    var items := Items(chunk, j.allowed, raw.drafts);
    var before := ChoiceKeepsRules(OptionsOf(j, chunk), raw.contractType, j.because, items, item);
    var f := (d: Draft) => ItemOf(chunk, j.allowed, d);
    var first := if |raw.drafts| <= MAX_ITEMS then raw.drafts else raw.drafts[..MAX_ITEMS];
    CollectMembers(f, first);
    assert before in Collect(f, first);
    var d :| d in first && f(d) == Some(before);
    if d.key.Some? && ByTitle(chunk, d.key.value) == before.ruleId {
      TitleIsKnown(chunk, d.key.value, before.ruleId.value);
    }
  }

  lemma TitleIsKnown(rules: seq<Rule>, key: Id, r: Id)
    requires ByTitle(rules, key) == Some(r)
    ensures Known(rules, r)
  {
    ByTitleIff(rules, key, r);
    var h :| h in Hints(rules) && TitleIndex.Names(h, key, r);
    HintMembers(rules, h);
  }

  lemma ChunkRules(rules: seq<Rule>, i: nat, id: Id)
    requires i < |Chunks(rules)| && Known(Chunks(rules)[i], id)
    ensures Known(rules, id)
  {
    ChunksPartition(rules);
    FlattenMembers(Chunks(rules));
    var r :| r in Chunks(rules)[i] && r.id == id;
    assert r in Flatten(Chunks(rules));
  }

  /** In the report the contract type is settled: all candidate types but the chosen one are
      not applicable, and choosing once more would change no level. */
  lemma ReportSettles(j: Job)
    requires SerialReport(j).Analysed?
    ensures var report, options := SerialReport(j), OptionsOf(j, j.rules);
      var again := SingleChoice(options, report.contractType, j.because, report.items);
      && |again| == |report.items|
      && (forall i :: 0 <= i < |again| ==> again[i].level == report.items[i].level)
      && (Selected(options, report.contractType, report.items).Some? ==>
           forall i :: 0 <= i < |report.items| && Classifies(options, report.items[i]) ==>
             || report.items[i].title == Selected(options, report.contractType, report.items).value
             || report.items[i].level == NotApplicable)
  {
    hide MergedItems, MergedType, Selected, Truth, Classifies, Chunks;
    var truth := Truth(j);
    var run := Collected(truth);
    SingleChoiceSettles(OptionsOf(j, j.rules), MergedType(run.responses, |truth|), j.because,
      MergedItems(run.responses, |truth|));
  }

  /** For a client that answers the same request the same way, one call per chunk decides. */
  lemma OneCallDecides(j: Job, i: nat)
    requires i < |Chunks(j.rules)| && j.client(Chunks(j.rules)[i], 0) == j.client(Chunks(j.rules)[i], 1)
    ensures var chunk := Chunks(j.rules)[i];
      Truth(j)[i] == Analysis(ReplyOf(j, chunk, j.client(chunk, 0)), NoAnswer(Defect(0)), 0)
  {
    hide ReplyOf;
    var chunk := Chunks(j.rules)[i];
    SecondCallChangesNothing(ReplyOf(j, chunk, j.client(chunk, 0)), |chunk|);
  }
}
