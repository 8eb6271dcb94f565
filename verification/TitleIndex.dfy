/** Finding the rule a risk item is about: by its id, else by its title when that is unique. */
module TitleIndex {
  import opened Ordering

  /** A rule offered to the model; a missing id or an empty title cannot be matched. */
  datatype Hint = Hint(ruleId: Option<Id>, title: Option<Id>)

  predicate Names(h: Hint, title: Id, ruleId: Id) { h == Hint(Some(ruleId), Some(title)) }

  /** The title belongs to this rule and to no other. */
  ghost predicate Unambiguous(hints: seq<Hint>, title: Id, ruleId: Id)
  {
    && (exists h :: h in hints && Names(h, title, ruleId))
    && forall h :: h in hints && h.title == Some(title) && h.ruleId.Some? ==> h.ruleId.value == ruleId
  }

  /** _rule_ids_by_title: the first rule of each title, without the titles of several rules. */
  method IndexTitles(hints: seq<Hint>) returns (index: map<Id, Id>)
    ensures forall t, r :: (t in index && index[t] == r) <==> Unambiguous(hints, t, r)
  {
    var mapping: map<Id, Id> := map[];
    var ambiguous: set<Id> := {};
    for i := 0 to |hints|
      invariant forall t :: t in mapping ==> exists k :: 0 <= k < i && Names(hints[k], t, mapping[t])
      invariant forall k, t, r :: 0 <= k < i && Names(hints[k], t, r) ==>
        t in mapping && (mapping[t] == r || t in ambiguous)
      invariant forall t :: t in ambiguous ==>
        t in mapping && exists k, r :: 0 <= k < i && Names(hints[k], t, r) && r != mapping[t]
    {
      var hint := hints[i];
      if hint.ruleId.None? || hint.title.None? { continue; }
      var title, ruleId := hint.title.value, hint.ruleId.value;
      assert Names(hint, title, ruleId);
      if title in mapping && mapping[title] != ruleId {
        ambiguous := ambiguous + {title};
        continue;
      }
      mapping := mapping[title := ruleId];
    }
    index := mapping - ambiguous;
    forall t, r ensures (t in index && index[t] == r) <==> Unambiguous(hints, t, r) {
      KeptIff(hints, mapping, ambiguous, t, r);
    }
  }

  lemma KeptIff(hints: seq<Hint>, mapping: map<Id, Id>, ambiguous: set<Id>, t: Id, r: Id)
    requires forall t :: t in mapping ==> exists k :: 0 <= k < |hints| && Names(hints[k], t, mapping[t])
    requires forall k, t, r :: 0 <= k < |hints| && Names(hints[k], t, r) ==>
      t in mapping && (mapping[t] == r || t in ambiguous)
    requires forall t :: t in ambiguous ==>
      t in mapping && exists k, r :: 0 <= k < |hints| && Names(hints[k], t, r) && r != mapping[t]
    ensures (t in mapping && t !in ambiguous && mapping[t] == r) <==> Unambiguous(hints, t, r)
  {
    if t in mapping && t !in ambiguous && mapping[t] == r {
      var k :| 0 <= k < |hints| && Names(hints[k], t, r);
      assert hints[k] in hints;
      forall h | h in hints && h.title == Some(t) && h.ruleId.Some? ensures h.ruleId.value == r {
        var m :| 0 <= m < |hints| && hints[m] == h;
        assert Names(hints[m], t, h.ruleId.value);
      }
    }
    if Unambiguous(hints, t, r) {
      var h :| h in hints && Names(h, t, r);
      var m :| 0 <= m < |hints| && hints[m] == h;
      assert Names(hints[m], t, r);
      forall j, q | 0 <= j < |hints| && Names(hints[j], t, q) ensures q == r {
        assert hints[j] in hints;
      }
    }
  }
}
