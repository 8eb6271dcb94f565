/** The isolated semantic review, said of the responses and the evidence themselves. */
module IsolatedReview {
  import opened Ordering
  import opened SemanticIsolation

  /** Some cited piece of evidence is unknown, the rule's own source, or not allowed. */
  ghost predicate OutOfContext(evidence: Evidence, item: Item)
  {
    exists e :: e in item.evidenceIds
      && (e !in evidence.known || e in evidence.ruleSource || e !in evidence.allowed)
  }

  lemma ContextIff(evidence: Evidence, item: Item)
    ensures InContext(evidence, item.evidenceIds) <==> !OutOfContext(evidence, item)
  {
    var cited := item.evidenceIds;
    forall e | e in cited && (e !in evidence.known || e in evidence.ruleSource || e !in evidence.allowed)
      ensures OutOfContext(evidence, item) && !InContext(evidence, cited)
    {
      assert e in evidence.ruleSource ==> e in cited * evidence.ruleSource;
    }
    if forall e :: e in cited ==> e in evidence.known && e !in evidence.ruleSource && e in evidence.allowed {
      assert cited * evidence.ruleSource == {};
      assert InContext(evidence, cited) && !OutOfContext(evidence, item);
    }
  }

  /** A response is good if and only if it holds exactly one item, of its own rule, that
      cites only known and allowed evidence other than the rule's source; citing other
      evidence is the one defect that may degrade to the baseline. */
  lemma CheckedIff(ruleId: Id, evidence: Evidence, response: Response)
    ensures var task := Checked(ruleId, evidence, response);
      && (task.Good? <==> |response.items| == 1 && response.items[0].ruleId == ruleId
                          && !OutOfContext(evidence, response.items[0]))
      && (task.Good? ==> task.response == response)
      && (task.Bad? ==> task.failure.ruleId == ruleId && (task.failure.kind == Context || task.failure.kind == Crash))
      && (task.Bad? ==> (task.failure.kind == Context <==>
            |response.items| >= 1 && response.items[0].ruleId == ruleId && OutOfContext(evidence, response.items[0])))
  {
    if response.items != [] {
      ContextIff(evidence, response.items[0]);
    }
  }

  /** Tasks that check what a model answers, or report why it did not. */
  lemma CheckedTasks(evidence: Id -> Evidence, response: Id -> Response, failing: Id -> Option<Kind>)
    ensures Isolated((r: Id) =>
      match failing(r) case Some(kind) => Bad(Failure(r, kind)) case None => Checked(r, evidence(r), response(r)))
  {
    hide Checked;
    var tasks := (r: Id) =>
      match failing(r) case Some(kind) => Bad(Failure(r, kind)) case None => Checked(r, evidence(r), response(r));
    forall r
      ensures tasks(r).Good? ==> Fits(r, tasks(r).response)
      ensures tasks(r).Bad? ==> tasks(r).failure.ruleId == r
    {
      CheckedIff(r, evidence(r), response(r));
    }
    assert Isolated(tasks);
  }

  /** A reviewed batch holds, in the order of the request, the one item of every response,
      each about its own rule; a single response lends the batch its id. */
  lemma SuccessHolds(outcome: Outcome, request: Id, rules: seq<Id>, tasks: Tasks)
    requires Isolated(tasks) && rules != [] && AllGood(rules, tasks) && Succeeds(outcome, request, rules, tasks)
    ensures outcome.Combined? && outcome.batch.request == request && |outcome.batch.items| == |rules|
    ensures forall i :: 0 <= i < |rules| ==>
      && outcome.batch.items[i].ruleId == rules[i] && tasks(rules[i]).Good?
      && tasks(rules[i]).response.items == [outcome.batch.items[i]]
    ensures |rules| == 1 ==> outcome.batch.name == Own(tasks(rules[0]).response.id)
    ensures |rules| > 1 ==> outcome.batch.name.Digest? && outcome.batch.name.request == request
    ensures |rules| > 1 ==> |outcome.batch.name.ids| == |rules| && forall i :: 0 <= i < |rules| ==>
      tasks(rules[i]).Good? && outcome.batch.name.ids[i] == tasks(rules[i]).response.id
  {
    forall i | 0 <= i < |rules| ensures outcome.batch.items[i].ruleId == rules[i] {
      assert Fits(rules[i], tasks(rules[i]).response);
    }
  }

  /** Responses combine if and only if no rule is requested twice and every response holds
      one item, of its rule; the batch lists these items. */
  lemma CombinedIff(rules: seq<Id>, responses: seq<Response>)
    requires |rules| == |responses| > 0
    ensures AllFit(rules, responses) <==>
      && (forall i, j :: 0 <= i < |rules| && 0 <= j < |rules| && rules[i] == rules[j] ==> i == j)
      && forall i :: 0 <= i < |rules| ==> |responses[i].items| == 1 && responses[i].items[0].ruleId == rules[i]
  {
  }

  lemma BatchHolds(batch: Batch, request: Id, rules: seq<Id>, responses: seq<Response>)
    requires |rules| == |responses| > 0 && IsBatchOf(batch, request, rules, responses)
    ensures batch.request == request && |batch.items| == |rules|
    ensures forall i :: 0 <= i < |rules| ==>
      responses[i].items == [batch.items[i]] && batch.items[i].ruleId == rules[i]
    ensures |rules| == 1 ==> batch.name == Own(responses[0].id)
    ensures |rules| > 1 ==> batch.name.Digest? && batch.name.request == request
    ensures |rules| > 1 ==>
      |batch.name.ids| == |rules| && forall i :: 0 <= i < |rules| ==> batch.name.ids[i] == responses[i].id
  {
  }

  predicate FailsAs(task: Task, kinds: set<Kind>) { task.Bad? && task.failure.kind in kinds }

  /** The parallel review raises the error of a failing task.  When some task failed for
      another reason than its context or a missing provider it is the least such rule's,
      and otherwise that of the least failing rule. */
  lemma RaisedIs(rules: seq<Id>, tasks: Tasks, f: Failure)
    requires Isolated(tasks) && NoCrash(rules, tasks) && Chosen(f, Errors(rules, tasks))
    ensures exists i :: 0 <= i < |rules| && tasks(rules[i]) == Bad(f) && f.ruleId == rules[i]
    ensures f.kind == Refused ==>
      forall i :: 0 <= i < |rules| && FailsAs(tasks(rules[i]), {Refused}) ==> f.ruleId <= rules[i]
    ensures f.kind != Refused ==>
      forall i :: 0 <= i < |rules| && tasks(rules[i]).Bad? ==>
        f.ruleId <= rules[i] && FailsAs(tasks(rules[i]), {Context, NoProvider})
  {
    var errors := Errors(rules, tasks);
    var r :| r in errors && errors[r] == f
      && (if exists x :: x in errors && !Degradable(errors[x])
          then Least(r, set x | x in errors && !Degradable(errors[x]))
          else Least(r, errors.Keys));
    var at :| 0 <= at < |rules| && rules[at] == r;
    ChosenIff(r, errors);
    forall i | 0 <= i < |rules| && tasks(rules[i]).Bad?
      ensures rules[i] in errors && errors[rules[i]] == tasks(rules[i]).failure && errors[rules[i]].kind != Crash
    {
      assert rules[i] in rules;
      assert !Crashes(tasks(rules[i]));
      assert RaisedBefore(f, errors[rules[i]]);
    }
  }
}
