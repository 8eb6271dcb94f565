/**
 Semantic review rule by rule: every rule is one isolated model call with its own evidence,
 calls may complete in any order, and nothing is merged unless all of them succeed.
 */
module SemanticIsolation {
  import opened Ordering

  datatype Item = Item(ruleId: Id, evidenceIds: set<Id>, verdict: Id)

  datatype Response = Response(id: Id, items: seq<Item>)

  /** Context and NoProvider errors may degrade to the deterministic baseline; Refused
      stands for the other errors the collector waits for; Crash for all the rest. */
  datatype Kind = Context | NoProvider | Refused | Crash

  datatype Failure = Failure(ruleId: Id, kind: Kind)

  predicate Degradable(f: Failure) { f.kind.Context? || f.kind.NoProvider? }

  datatype Task = Good(response: Response) | Bad(failure: Failure)

  // ------------------------------------------------------------ one isolated response

  datatype Evidence = Evidence(known: set<Id>, ruleSource: set<Id>, allowed: set<Id>)

  predicate InContext(evidence: Evidence, cited: set<Id>)
  {
    cited <= evidence.known && cited * evidence.ruleSource == {} && cited <= evidence.allowed
  }

  /** What checking a response against its rule comes to. */
  function Checked(ruleId: Id, evidence: Evidence, response: Response): Task
  {
    if response.items == [] || response.items[0].ruleId != ruleId then Bad(Failure(ruleId, Crash))
    else if !InContext(evidence, response.items[0].evidenceIds) then Bad(Failure(ruleId, Context))
    else if |response.items| > 1 then Bad(Failure(ruleId, Crash))
    else Good(response)
  }

  /** validate_semantic_response for the one expected rule. */
  method Validate(ruleId: Id, evidence: Evidence, response: Response) returns (task: Task)
    ensures task == Checked(ruleId, evidence, response)
  {
    var seen: set<Id> := {};
    for i := 0 to |response.items|
      invariant i > 0 ==> response.items[0].ruleId == ruleId && InContext(evidence, response.items[0].evidenceIds)
      invariant seen == if i > 0 then {ruleId} else {}
      invariant i <= 1
    {
      var item := response.items[i];
      if item.ruleId != ruleId || item.ruleId in seen { return Bad(Failure(ruleId, Crash)); }
      seen := seen + {item.ruleId};
      if !(item.evidenceIds <= evidence.known) { return Bad(Failure(ruleId, Context)); }
      if item.evidenceIds * evidence.ruleSource != {} { return Bad(Failure(ruleId, Context)); }
      if !(item.evidenceIds <= evidence.allowed) { return Bad(Failure(ruleId, Context)); }
    }
    if seen != {ruleId} { return Bad(Failure(ruleId, Crash)); }
    task := Good(response);
  }

  // ----------------------------------------------------------------------- combining

  /** A single response keeps its name; a batch is named after all its responses. */
  datatype BatchName = Own(id: Id) | Digest(request: Id, ids: seq<Id>)

  datatype Batch = Batch(name: BatchName, request: Id, items: seq<Item>)

  datatype Outcome = Combined(batch: Batch) | Failed(failure: Failure) | Mismatch

  function ResponseId(r: Response): Id { r.id }

  predicate Fits(ruleId: Id, response: Response) { |response.items| == 1 && response.items[0].ruleId == ruleId }

  predicate AllFit(rules: seq<Id>, responses: seq<Response>)
    requires |rules| == |responses|
  {
    Distinct(rules) && forall i :: 0 <= i < |rules| ==> Fits(rules[i], responses[i])
  }

  function OnlyItem(response: Response): Item
    requires response.items != []
  {
    response.items[0]
  }

  function FirstItems(responses: seq<Response>): (items: seq<Item>)
    requires forall r :: r in responses ==> r.items != []
    ensures |items| == |responses| && forall i :: 0 <= i < |items| ==> items[i] == responses[i].items[0]
  {
    if responses == [] then [] else [OnlyItem(responses[0])] + FirstItems(responses[1..])
  }

  function NameOf(request: Id, responses: seq<Response>): BatchName
    requires responses != []
  {
    if |responses| == 1 then Own(responses[0].id) else Digest(request, Map(ResponseId, responses))
  }

  predicate IsBatchOf(batch: Batch, request: Id, rules: seq<Id>, responses: seq<Response>)
    requires |rules| == |responses| > 0
  {
    && batch.name == NameOf(request, responses) && batch.request == request && |batch.items| == |rules|
    && forall i :: 0 <= i < |rules| ==> responses[i].items == [batch.items[i]] && batch.items[i].ruleId == rules[i]
  }

  /** A batch with the one item of every rule, in the order of the request, or nothing. */
  method Combine(request: Id, rules: seq<Id>, responses: seq<Response>) returns (outcome: Outcome)
    requires |rules| == |responses| > 0
    ensures if AllFit(rules, responses) then outcome.Combined? && IsBatchOf(outcome.batch, request, rules, responses)
      else outcome == Mismatch
  {
    var byRule := GroupByRule(rules, responses);
    if byRule.None? { return Mismatch; }
    var items: seq<Item> := [];
    for i := 0 to |rules|
      invariant |items| == i && forall k :: 0 <= k < i ==> items[k] == responses[k].items[0]
    {
      assert Fits(rules[i], responses[i]);
      items := items + [byRule.value[rules[i]].items[0]];
    }
    forall i | 0 <= i < |rules| ensures responses[i].items == [items[i]] && items[i].ruleId == rules[i] {
      assert Fits(rules[i], responses[i]);
    }
    outcome := Combined(Batch(NameOf(request, responses), request, items));
  }

  method GroupByRule(rules: seq<Id>, responses: seq<Response>) returns (byRule: Option<map<Id, Response>>)
    requires |rules| == |responses| > 0
    ensures byRule.Some? <==> AllFit(rules, responses)
    ensures byRule.Some? ==> forall i :: 0 <= i < |rules| ==>
      rules[i] in byRule.value && byRule.value[rules[i]] == responses[i]
  {
    hide AllFit;
    var table: map<Id, Response> := map[];
    NoneFit(rules, responses);
    for i := 0 to |rules|
      invariant AllFit(rules[..i], responses[..i])
      invariant table.Keys == Elements(rules[..i])
      invariant forall k :: 0 <= k < i ==> rules[k] in table && table[rules[k]] == responses[k]
    {
      if rules[i] in table {
        Repeated(rules, responses, i);
        return None;
      }
      if !Fits(rules[i], responses[i]) {
        Misfit(rules, responses, i);
        return None;
      }
      FitSnoc(rules, responses, i);
      ElementsStep(rules, i);
      table := table[rules[i] := responses[i]];
    }
    TakeAll(rules);
    TakeAll(responses);
    byRule := Some(table);
  }

  lemma NoneFit(rules: seq<Id>, responses: seq<Response>)
    requires |rules| == |responses|
    ensures AllFit(rules[..0], responses[..0])
  {
  }

  lemma Misfit(rules: seq<Id>, responses: seq<Response>, i: nat)
    requires |rules| == |responses| && i < |rules| && !Fits(rules[i], responses[i])
    ensures !AllFit(rules, responses)
  {
  }

  lemma Repeated(rules: seq<Id>, responses: seq<Response>, i: nat)
    requires |rules| == |responses| && i < |rules| && rules[i] in Elements(rules[..i])
    ensures !AllFit(rules, responses)
  {
    var k :| 0 <= k < i && rules[k] == rules[i];
  }

  lemma FitSnoc(rules: seq<Id>, responses: seq<Response>, i: nat)
    requires |rules| == |responses| && i < |rules|
    requires AllFit(rules[..i], responses[..i]) && rules[i] !in Elements(rules[..i]) && Fits(rules[i], responses[i])
    ensures AllFit(rules[..i + 1], responses[..i + 1])
  {
    TakeStep(rules, i);
    DistinctSnoc(rules[..i], rules[i]);
    var rs, ps := rules[..i + 1], responses[..i + 1];
    forall k | 0 <= k < |rs| ensures Fits(rs[k], ps[k]) {
      if k < i { assert Fits(rules[..i][k], responses[..i][k]); }
    }
  }

  // ------------------------------------------------------------- the two schedules

  /** The outcome of one rule's task; the same rule always comes out the same way. */
  type Tasks = Id -> Task

  /** Checked tasks: a good response holds exactly the one item of its rule. */
  ghost predicate Isolated(tasks: Tasks)
  {
    && (forall r {:trigger tasks(r)} :: tasks(r).Good? ==> Fits(r, tasks(r).response))
    && (forall r {:trigger tasks(r)} :: tasks(r).Bad? ==> tasks(r).failure.ruleId == r)
  }

  predicate AllGood(rules: seq<Id>, tasks: Tasks) { forall i :: 0 <= i < |rules| ==> tasks(rules[i]).Good? }

  /** The first failing position, or the number of rules. */
  function FirstBad(rules: seq<Id>, tasks: Tasks): (i: nat)
    ensures i <= |rules| && (i < |rules| ==> tasks(rules[i]).Bad?)
    ensures forall k :: 0 <= k < i ==> tasks(rules[k]).Good?
  {
    if rules == [] || tasks(rules[0]).Bad? then 0 else 1 + FirstBad(rules[1..], tasks)
  }

  /** The batch of all rules' responses. */
  ghost predicate Succeeds(outcome: Outcome, request: Id, rules: seq<Id>, tasks: Tasks)
    requires rules != [] && AllGood(rules, tasks)
  {
    && outcome.Combined?
    && outcome.batch.request == request && |outcome.batch.items| == |rules|
    && outcome.batch.name ==
      (if |rules| == 1 then Own(tasks(rules[0]).response.id) else Digest(request, IdsOf(rules, tasks)))
    && forall i :: 0 <= i < |rules| ==> tasks(rules[i]).response.items == [outcome.batch.items[i]]
  }

  function IdsOf(rules: seq<Id>, tasks: Tasks): (ids: seq<Id>)
    requires AllGood(rules, tasks)
    ensures |ids| == |rules| && forall i :: 0 <= i < |ids| ==> ids[i] == tasks(rules[i]).response.id
  {
    if rules == [] then [] else [tasks(rules[0]).response.id] + IdsOf(rules[1..], tasks)
  }

  lemma SuccessIsUnique(a: Outcome, b: Outcome, request: Id, rules: seq<Id>, tasks: Tasks)
    requires rules != [] && AllGood(rules, tasks)
    requires Succeeds(a, request, rules, tasks) && Succeeds(b, request, rules, tasks)
    ensures a == b
  {
    forall i | 0 <= i < |rules| ensures a.batch.items[i] == b.batch.items[i] {
      assert [a.batch.items[i]][0] == [b.batch.items[i]][0];
    }
    assert a.batch.items == b.batch.items;
  }

  method ReviewSerially(request: Id, rules: seq<Id>, tasks: Tasks) returns (outcome: Outcome)
    requires Isolated(tasks) && Distinct(rules) && rules != []
    ensures if AllGood(rules, tasks) then Succeeds(outcome, request, rules, tasks)
      else outcome == Failed(tasks(rules[FirstBad(rules, tasks)]).failure)
  {
    var responses: seq<Response> := [];
    for i := 0 to |rules|
      invariant |responses| == i && forall k :: 0 <= k < i ==> tasks(rules[k]) == Good(responses[k])
    {
      match tasks(rules[i])
      case Bad(failure) =>
        assert FirstBad(rules, tasks) == i;
        return Failed(failure);
      case Good(response) =>
        responses := responses + [response];
    }
    outcome := CombineGood(request, rules, tasks, responses);
  }

  method CombineGood(request: Id, rules: seq<Id>, tasks: Tasks, responses: seq<Response>) returns (outcome: Outcome)
    requires Isolated(tasks) && Distinct(rules) && rules != [] && |responses| == |rules|
    requires forall k :: 0 <= k < |rules| ==> tasks(rules[k]) == Good(responses[k])
    ensures AllGood(rules, tasks) && Succeeds(outcome, request, rules, tasks)
  {
    outcome := Combine(request, rules, responses);
    forall i | 0 <= i < |rules| ensures Fits(rules[i], responses[i]) {
      assert tasks(rules[i]) == Good(responses[i]);
    }
    assert |rules| > 1 ==> Map(ResponseId, responses) == IdsOf(rules, tasks);
  }

  /** The failures that the collector waits for. */
  function Errors(rules: seq<Id>, tasks: Tasks): map<Id, Failure>
  {
    map r | r in rules && tasks(r).Bad? :: tasks(r).failure
  }

  ghost predicate Least(r: Id, s: set<Id>) { r in s && forall x :: x in s ==> r <= x }

  /** The error to raise: that of the least rule among those that may not degrade, else
      that of the least failing rule. */
  ghost predicate Chosen(f: Failure, errors: map<Id, Failure>)
  {
    exists r :: r in errors && errors[r] == f
      && (if exists x :: x in errors && !Degradable(errors[x])
          then Least(r, set x | x in errors && !Degradable(errors[x]))
          else Least(r, errors.Keys))
  }

  lemma ChosenIsUnique(f: Failure, g: Failure, errors: map<Id, Failure>)
    requires Chosen(f, errors) && Chosen(g, errors)
    ensures f == g
  {
  }

  method ChooseError(errors: map<Id, Failure>) returns (f: Failure)
    requires errors != map[]
    ensures Chosen(f, errors)
  {
    var keys := SortSet(errors.Keys);
    SortedSetMembers(errors.Keys);
    SortedKeys(errors.Keys);
    for i := 0 to |keys|
      invariant forall k :: 0 <= k < i ==> Degradable(errors[keys[k]])
    {
      assert keys[i] in keys;
      var r := keys[i];
      if !Degradable(errors[r]) {
        forall x | x in errors && !Degradable(errors[x]) ensures r <= x {
          var k :| 0 <= k < |keys| && keys[k] == x;
        }
        return errors[r];
      }
    }
    forall x | x in errors ensures Degradable(errors[x]) {
      var k :| 0 <= k < |keys| && keys[k] == x;
    }
    assert keys[0] in keys by { SomeKey(errors, keys); }
    forall x | x in errors ensures keys[0] <= x {
      var k :| 0 <= k < |keys| && keys[k] == x;
    }
    f := errors[keys[0]];
  }

  lemma SomeKey(errors: map<Id, Failure>, keys: seq<Id>)
    requires errors != map[] && forall x :: x in keys <==> x in errors
    ensures keys != []
  {
    assert errors.Keys != {};
    NonEmpty(errors.Keys);
  }

  lemma SortedKeys(s: set<Id>)
    ensures forall i, j :: 0 <= i < j < |SortedSet(s)| ==> SortedSet(s)[i] <= SortedSet(s)[j]
  {
    SortSorted((x: Id, y: Id) => x <= y, Enumerate(s));
  }

  // ---------------------------------------------------------- any completion order

  predicate Crashes(task: Task) { task.Bad? && task.failure.kind.Crash? }

  predicate NoCrash(rules: seq<Id>, tasks: Tasks) { forall i :: 0 <= i < |rules| ==> !Crashes(tasks(rules[i])) }

  /** The first completion that crashes, or the number of completions. */
  function FirstCrash(order: seq<Id>, tasks: Tasks): (k: nat)
    ensures k <= |order| && (k < |order| ==> Crashes(tasks(order[k])))
    ensures forall m :: 0 <= m < k ==> !Crashes(tasks(order[m]))
  {
    if order == [] || Crashes(tasks(order[0])) then 0 else 1 + FirstCrash(order[1..], tasks)
  }

  /** The rules complete in this order. */
  predicate Completes(order: seq<Id>, rules: seq<Id>) { multiset(order) == multiset(rules) }

  /** Known failures are collected until every task is in; any other error escapes at once. */
  method ReviewInParallel(request: Id, rules: seq<Id>, tasks: Tasks, order: seq<Id>) returns (outcome: Outcome)
    requires Isolated(tasks) && Distinct(rules) && rules != [] && Completes(order, rules)
    ensures AllGood(rules, tasks) ==> Succeeds(outcome, request, rules, tasks)
    ensures NoCrash(rules, tasks) && !AllGood(rules, tasks) ==>
      outcome.Failed? && Chosen(outcome.failure, Errors(rules, tasks))
    ensures !NoCrash(rules, tasks) ==> FirstCrash(order, tasks) < |order|
    ensures !NoCrash(rules, tasks) ==> outcome == Failed(tasks(order[FirstCrash(order, tasks)]).failure)
  {
    MultisetMembers(order, rules);
    var responses, errors, crash := Collect(order, tasks);
    if crash.Some? {
      CrashSomewhere(rules, tasks, order[FirstCrash(order, tasks)]);
      return Failed(crash.value);
    }
    NoneCrashed(rules, order, tasks);
    assert errors == Errors(rules, tasks);
    if errors != map[] {
      var failure := ChooseError(errors);
      SomeError(rules, tasks, errors);
      return Failed(failure);
    }
    outcome := CombineCollected(request, rules, tasks, order, responses);
  }

  method Collect(order: seq<Id>, tasks: Tasks)
    returns (responses: map<Id, Response>, errors: map<Id, Failure>, crash: Option<Failure>)
    ensures crash.Some? <==> FirstCrash(order, tasks) < |order|
    ensures crash.Some? ==> crash.value == tasks(order[FirstCrash(order, tasks)]).failure
    ensures crash.None? ==> errors == Errors(order, tasks)
    ensures crash.None? ==> forall m :: 0 <= m < |order| && tasks(order[m]).Good? ==> order[m] in responses
    ensures forall r :: r in responses ==> tasks(r) == Good(responses[r])
  {
    responses, errors, crash := map[], map[], None;
    for k := 0 to |order|
      invariant forall m :: 0 <= m < k ==> !Crashes(tasks(order[m]))
      invariant forall m :: 0 <= m < k && tasks(order[m]).Good? ==> order[m] in responses
      invariant forall r :: r in responses ==> tasks(r) == Good(responses[r])
      invariant errors == Errors(order[..k], tasks)
    {
      var rule := order[k];
      TakeStep(order, k);
      match tasks(rule)
      case Good(response) =>
        responses := responses[rule := response];
      case Bad(failure) =>
        if failure.kind.Crash? {
          assert FirstCrash(order, tasks) == k;
          crash := Some(failure);
          return;
        }
        errors := errors[rule := failure];
    }
    TakeAll(order);
  }

  method CombineCollected(request: Id, rules: seq<Id>, tasks: Tasks, order: seq<Id>, responses: map<Id, Response>)
    returns (outcome: Outcome)
    requires Isolated(tasks) && Distinct(rules) && rules != [] && Errors(rules, tasks) == map[]
    requires forall r :: r in rules ==> r in order
    requires forall m :: 0 <= m < |order| && tasks(order[m]).Good? ==> order[m] in responses
    requires forall r :: r in responses ==> tasks(r) == Good(responses[r])
    ensures AllGood(rules, tasks) && Succeeds(outcome, request, rules, tasks)
  {
    forall i | 0 <= i < |rules|
      ensures rules[i] in responses && tasks(rules[i]) == Good(responses[rules[i]])
    {
      assert rules[i] in rules;
      assert rules[i] in Errors(rules, tasks) <==> tasks(rules[i]).Bad?;
      assert rules[i] in order;
      var m :| 0 <= m < |order| && order[m] == rules[i];
    }
    var list: seq<Response> := [];
    for i := 0 to |rules|
      invariant |list| == i && forall k :: 0 <= k < i ==> tasks(rules[k]) == Good(list[k])
    {
      list := list + [responses[rules[i]]];
    }
    outcome := CombineGood(request, rules, tasks, list);
  }

  lemma CrashSomewhere(rules: seq<Id>, tasks: Tasks, r: Id)
    requires r in rules && Crashes(tasks(r))
    ensures !NoCrash(rules, tasks) && !AllGood(rules, tasks)
  {
    var i :| 0 <= i < |rules| && rules[i] == r;
  }

  lemma NoneCrashed(rules: seq<Id>, order: seq<Id>, tasks: Tasks)
    requires forall m :: 0 <= m < |order| ==> !Crashes(tasks(order[m]))
    requires forall r :: r in rules ==> r in order
    ensures NoCrash(rules, tasks)
  {
    forall i | 0 <= i < |rules| ensures !Crashes(tasks(rules[i])) {
      assert rules[i] in rules;
      var m :| 0 <= m < |order| && order[m] == rules[i];
    }
  }

  lemma SomeError(rules: seq<Id>, tasks: Tasks, errors: map<Id, Failure>)
    requires errors == Errors(rules, tasks) && errors != map[]
    ensures !AllGood(rules, tasks)
  {
    assert errors.Keys != {};
    var r := PickOne(errors.Keys);
    var i :| 0 <= i < |rules| && rules[i] == r;
  }

  // ---------------------------------------------------------------- what it adds up to

  /** Both schedules fail on the same tasks, and a parallel failure that degrades to the
      baseline degrades in the serial run too: it degrades only when every failure may. */
  lemma ParallelDegradesIff(rules: seq<Id>, tasks: Tasks, f: Failure)
    requires Isolated(tasks) && NoCrash(rules, tasks) && !AllGood(rules, tasks) && Chosen(f, Errors(rules, tasks))
    ensures Degradable(f) <==>
      forall i :: 0 <= i < |rules| && tasks(rules[i]).Bad? ==> Degradable(tasks(rules[i]).failure)
    ensures Degradable(f) ==> Degradable(tasks(rules[FirstBad(rules, tasks)]).failure)
  {
    var errors := Errors(rules, tasks);
    forall i | 0 <= i < |rules| && tasks(rules[i]).Bad?
      ensures rules[i] in errors && errors[rules[i]] == tasks(rules[i]).failure
    {
      assert rules[i] in rules;
    }
    var r :| r in errors && errors[r] == f
      && (if exists x :: x in errors && !Degradable(errors[x])
          then Least(r, set x | x in errors && !Degradable(errors[x]))
          else Least(r, errors.Keys));
    var i :| 0 <= i < |rules| && rules[i] == r;
    var first := FirstBad(rules, tasks);
    assert first < |rules|;
    assert rules[first] in errors;
    if Degradable(f) {
      assert forall x :: x in errors ==> Degradable(errors[x]);
    }
  }

  /** The error of the serial review: that of the first failing task in request order. */
  function SerialFailure(rules: seq<Id>, tasks: Tasks): Failure
    requires !AllGood(rules, tasks)
  {
    var first := FirstBad(rules, tasks);
    assert first < |rules|;
    tasks(rules[first]).failure
  }

  /** Failure f goes before failure g when the collector looks for the error to raise. */
  predicate RaisedBefore(f: Failure, g: Failure)
  {
    if Degradable(f) then Degradable(g) && f.ruleId <= g.ruleId else Degradable(g) || f.ruleId <= g.ruleId
  }

  lemma ChosenIff(r: Id, errors: map<Id, Failure>)
    requires r in errors && forall x :: x in errors ==> errors[x].ruleId == x
    ensures Chosen(errors[r], errors) <==> forall x :: x in errors ==> RaisedBefore(errors[r], errors[x])
  {
    var strict := set x | x in errors && !Degradable(errors[x]);
    if exists x :: x in errors && !Degradable(errors[x]) {
      assert Chosen(errors[r], errors) <==> Least(r, strict);
      assert forall x :: x in errors ==> Degradable(errors[x]) || x in strict;
      if forall x :: x in errors ==> RaisedBefore(errors[r], errors[x]) {
        var y :| y in errors && !Degradable(errors[y]);
        assert RaisedBefore(errors[r], errors[y]);
        assert forall x :: x in strict ==> RaisedBefore(errors[r], errors[x]);
      }
    } else {
      assert Chosen(errors[r], errors) <==> Least(r, errors.Keys);
    }
  }

  /** Both schedules raise the same error if and only if the failure of the first failing
      task in request order goes before all others in the collector's order. */
  lemma SameErrorIff(rules: seq<Id>, tasks: Tasks, f: Failure)
    requires Isolated(tasks) && NoCrash(rules, tasks) && !AllGood(rules, tasks) && Chosen(f, Errors(rules, tasks))
    ensures var g := SerialFailure(rules, tasks);
      f == g <==> forall i :: 0 <= i < |rules| && tasks(rules[i]).Bad? ==> RaisedBefore(g, tasks(rules[i]).failure)
  {
    hide Chosen, RaisedBefore;
    var errors := Errors(rules, tasks);
    var at := FirstBad(rules, tasks);
    var first := rules[at];
    assert first in rules && first in errors;
    ChosenIff(first, errors);
    forall i | 0 <= i < |rules| && tasks(rules[i]).Bad?
      ensures rules[i] in errors && errors[rules[i]] == tasks(rules[i]).failure
    {
      assert rules[i] in rules;
    }
    if Chosen(errors[first], errors) { ChosenIsUnique(f, errors[first], errors); }
    if forall i :: 0 <= i < |rules| && tasks(rules[i]).Bad? ==> RaisedBefore(errors[first], tasks(rules[i]).failure) {
      forall x | x in errors ensures RaisedBefore(errors[first], errors[x]) {
        var i :| 0 <= i < |rules| && rules[i] == x;
      }
    }
  }

  /** One schedule falls back to the baseline and the other raises if and only if the first
      failing task in request order may degrade and another failing one may not; it is then
      the serial review that falls back. */
  lemma FallbackDiffersIff(rules: seq<Id>, tasks: Tasks, f: Failure)
    requires Isolated(tasks) && NoCrash(rules, tasks) && !AllGood(rules, tasks) && Chosen(f, Errors(rules, tasks))
    ensures var g := SerialFailure(rules, tasks);
      && (Degradable(f) != Degradable(g) <==>
          Degradable(g) && exists i :: 0 <= i < |rules| && tasks(rules[i]).Bad? && !Degradable(tasks(rules[i]).failure))
      && (Degradable(f) ==> Degradable(g))
  {
    ParallelDegradesIff(rules, tasks, f);
  }

  function TwoFailures(r: Id): Task { Bad(Failure(r, if r == 1 then NoProvider else Refused)) }

  /** The provider is missing for rule 1 and refuses rule 2: the serial review falls back to
      the baseline, the parallel one raises the refusal. */
  lemma FallbackDiffers(f: Failure)
    requires Chosen(f, Errors([1, 2], TwoFailures))
    ensures Isolated(TwoFailures) && NoCrash([1, 2], TwoFailures) && !AllGood([1, 2], TwoFailures)
    ensures SerialFailure([1, 2], TwoFailures) == Failure(1, NoProvider) && f == Failure(2, Refused)
    ensures Degradable(SerialFailure([1, 2], TwoFailures)) && !Degradable(f)
  {
    var errors := Errors([1, 2], TwoFailures);
    assert [1, 2][0] == 1;
    assert 2 in errors && errors[2] == Failure(2, Refused) && 1 in errors && errors[1] == Failure(1, NoProvider);
    assert forall x :: x in errors ==> x == 1 || x == 2;
    assert Chosen(errors[2], errors);
    ChosenIsUnique(f, errors[2], errors);
  }

  /** The completion order that brings rule i first. */
  function Promote(rules: seq<Id>, i: nat): (order: seq<Id>)
    requires i < |rules|
    ensures Completes(order, rules) && order[0] == rules[i]
  {
    assert rules == rules[..i] + [rules[i]] + rules[i + 1..];
    [rules[i]] + rules[..i] + rules[i + 1..]
  }

  /** The raised error is independent of the completion order if and only if at most one
      rule's task crashes. */
  lemma ConfluentIff(rules: seq<Id>, tasks: Tasks)
    requires Isolated(tasks) && Distinct(rules) && !NoCrash(rules, tasks)
    ensures (forall a, b :: Completes(a, rules) && Completes(b, rules) ==> CrashOf(a, tasks) == CrashOf(b, tasks))
      <==> (forall i, j :: 0 <= i < j < |rules| ==> !(Crashes(tasks(rules[i])) && Crashes(tasks(rules[j]))))
  {
    if i, j :| 0 <= i < j < |rules| && Crashes(tasks(rules[i])) && Crashes(tasks(rules[j])) {
      var a, b := Promote(rules, i), Promote(rules, j);
      assert FirstCrash(a, tasks) == 0 && FirstCrash(b, tasks) == 0;
      assert CrashOf(a, tasks) != CrashOf(b, tasks);
    } else {
      forall a, b | Completes(a, rules) && Completes(b, rules) ensures CrashOf(a, tasks) == CrashOf(b, tasks) {
        OnlyCrash(a, rules, tasks);
        OnlyCrash(b, rules, tasks);
      }
    }
  }

  function CrashOf(order: seq<Id>, tasks: Tasks): Option<Failure>
  {
    var k := FirstCrash(order, tasks);
    if k < |order| then Some(tasks(order[k]).failure) else None
  }

  lemma OnlyCrash(order: seq<Id>, rules: seq<Id>, tasks: Tasks)
    requires Completes(order, rules) && !NoCrash(rules, tasks)
    requires forall i, j :: 0 <= i < j < |rules| ==> !(Crashes(tasks(rules[i])) && Crashes(tasks(rules[j])))
    ensures exists i ::
      0 <= i < |rules| && Crashes(tasks(rules[i])) && CrashOf(order, tasks) == Some(tasks(rules[i]).failure)
  {
    MultisetMembers(order, rules);
    var i :| 0 <= i < |rules| && Crashes(tasks(rules[i]));
    assert rules[i] in rules;
    var m :| 0 <= m < |order| && order[m] == rules[i];
    var k := FirstCrash(order, tasks);
    assert order[k] in order;
    var j :| 0 <= j < |rules| && rules[j] == order[k];
  }
}
