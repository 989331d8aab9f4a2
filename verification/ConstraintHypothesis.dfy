/** `constraint_hypothesis.py`: an operation is judged by the obligations active before and after it. */
module ConstraintHypothesis {
  import opened Json
  import opened Wrappers
  import opened Obligations
  import opened DeltaHistory

  datatype Classification =
    | InconclusiveBefore
    | InconclusiveAfter
    | InvalidTarget
    | Supported
    | PartiallySupported
    | Refuted

  datatype Evaluation = Evaluation(
    classification: Classification,
    active: set<Key>,
    resolved: set<Key>,
    introduced: set<Key>,
    missing: set<string>)

  /** A set comprehension over an unhashable subject raises. */
  datatype PythonError = TypeError

  /** The list under `current.obligations`, when it is one. */
  function Listed(result: Fields): Option<seq<Value>> {
    var current := Get(result, "current");
    if current.Object? && Get(current.fields, "obligations").List? then
      Some(Get(current.fields, "obligations").items)
    else
      None
  }

  /** An obligation record that the evaluator can use. */
  predicate Usable(item: Value) {
    item.Object? && "domain" in item.fields && "subject" in item.fields && "predicate" in item.fields
  }

  /** A result measures `keys`: it lists usable records, and these are their keys. */
  ghost predicate Lists(result: Fields, keys: set<Key>) {
    && Listed(result).Some?
    && (forall i :: 0 <= i < |Listed(result).value| ==> Usable(Listed(result).value[i]))
    && forall key :: key in keys <==>
                       exists i :: 0 <= i < |Listed(result).value| && Listed(result).value[i].Object?
                                   && LenientKey(Listed(result).value[i].fields) == key
  }

  ghost predicate Measures(result: Fields, keys: set<Key>) {
    Get(result, "ok") == Bool(true) && Lists(result, keys)
  }

  /** `_obligation_map`. */
  method ObligationMap(result: Fields) returns (values: Option<map<Key, Fields>>)
    ensures values.Some? ==> Lists(result, values.value.Keys)
    ensures values.Some? ==> forall key :: key in values.value ==> LenientKey(values.value[key]) == key
    ensures values.None? ==> forall keys :: !Lists(result, keys)
  {
    var items := Listed(result);
    if items.None? {
      return None;
    }
    var found: map<Key, Fields> := map[];
    for i := 0 to |items.value|
      invariant forall j :: 0 <= j < i ==> Usable(items.value[j])
      invariant forall key :: key in found <==>
                                exists j :: 0 <= j < i && items.value[j].Object? && LenientKey(items.value[j].fields) == key
      invariant forall key :: key in found ==> LenientKey(found[key]) == key
    {
      if !Usable(items.value[i]) {
        return None;
      }
      var obligation := items.value[i].fields;
      found := found[LenientKey(obligation) := obligation];
    }
    return Some(found);
  }

  // ---------- the declared targets ----------

  predicate Names(key: Key, declared: set<string>) {
    key.subject.Text? && key.subject.s in declared
  }

  /** The obligations that the declared subjects bind. */
  ghost predicate AreTargets(targets: set<Key>, before: set<Key>, declared: set<string>) {
    forall key :: key in targets <==> key in before && Names(key, declared)
  }

  /** Every declared subject has an obligation to resolve. */
  ghost predicate AllBound(before: set<Key>, declared: set<string>) {
    forall name :: name in declared ==> exists key :: key in before && key.subject == Text(name)
  }

  /** What each classification says about the two obligation sets, independently of how it is reached. */
  ghost predicate Judges(c: Classification, before: set<Key>, after: set<Key>, declared: set<string>) {
    match c
    case InvalidTarget => !AllBound(before, declared)
    case Supported =>
      AllBound(before, declared) && after <= before && forall key :: key in after ==> !Names(key, declared)
    case PartiallySupported =>
      && AllBound(before, declared)
      && (exists key :: key in before && Names(key, declared) && key !in after)
      && !(after <= before && forall key :: key in after ==> !Names(key, declared))
    case Refuted =>
      && AllBound(before, declared)
      && (forall key :: key in before && Names(key, declared) ==> key in after)
      && (declared != {} || !(after <= before))
    case _ => false
  }

  /** Between two measured states every pair of sets has exactly one judgement. */
  lemma JudgementIsUnique(before: set<Key>, after: set<Key>, declared: set<string>, c: Classification, d: Classification)
    requires Judges(c, before, after, declared) && Judges(d, before, after, declared)
    ensures c == d
  {
    if AllBound(before, declared) && declared != {} {
      var name :| name in declared;
      var key :| key in before && key.subject == Text(name);
      assert Names(key, declared);
    }
  }

  /** An unhashable subject among the measured obligations makes the target binding raise. */
  predicate Raises(before: set<Key>) {
    exists key :: key in before && !Hashable(key.subject)
  }

  /** `evaluate_constraint_hypothesis`, without the echo of its inputs. */
  method Evaluate(declared: set<string>, before: Fields, after: Fields)
    returns (result: Result<Evaluation, PythonError>)
    ensures (forall b :: !Measures(before, b)) ==>
              result == Ok(Evaluation(InconclusiveBefore, {}, {}, {}, {}))
    ensures forall b :: Measures(before, b) ==> (result.Err? <==> Raises(b))
    ensures forall b :: Measures(before, b) && result.Ok? ==> AreTargets(result.value.active, b, declared)
    ensures forall b :: Measures(before, b) && result.Ok? && (forall a :: !Measures(after, a)) ==>
              result.value.classification == InconclusiveAfter && result.value.resolved == {} && result.value.introduced == {}
    ensures forall a, b :: Measures(before, b) && Measures(after, a) && result.Ok? ==>
              && Judges(result.value.classification, b, a, declared)
              && result.value.resolved == result.value.active - a
              && result.value.introduced == a - b
              && (result.value.missing == {} <==> AllBound(b, declared))
  {
    var measuredBefore := MeasuredKeys(before);
    var measuredAfter := MeasuredKeys(after);
    if measuredBefore.None? {
      return Ok(Evaluation(InconclusiveBefore, {}, {}, {}, {}));
    }
    var b := measuredBefore.value;
    assert Measures(before, b);
    var binding := BindTargets(b, declared);
    if binding.Err? {
      return Err(binding.error);
    }
    var (active, missing) := binding.value;
    if measuredAfter.None? {
      return Ok(Evaluation(InconclusiveAfter, active, {}, {}, missing));
    }
    var a := measuredAfter.value;
    assert Measures(after, a);
    var resolved := active - a;
    var introduced := a - b;
    var classification :=
      if missing != {} then InvalidTarget
      else if resolved == active && introduced == {} then Supported
      else if resolved != {} then PartiallySupported
      else Refuted;
    JudgedBySets(classification, b, a, declared, active, resolved, introduced, missing);
    return Ok(Evaluation(classification, active, resolved, introduced, missing));
  }

  /** A result with `ok` and a usable list measures the keys of that list and no others. */
  method MeasuredKeys(result: Fields) returns (keys: Option<set<Key>>)
    ensures forall other :: Measures(result, other) <==> keys == Some(other)
  {
    var values := ObligationMap(result);
    if Get(result, "ok") != Bool(true) || values.None? {
      return None;
    }
    ListsOnce(result, values.value.Keys);
    return Some(values.value.Keys);
  }

  /** The active targets, and the declared subjects that bind none. */
  method BindTargets(before: set<Key>, declared: set<string>) returns (r: Result<(set<Key>, set<string>), PythonError>)
    ensures r.Err? <==> Raises(before)
    ensures r.Ok? ==> AreTargets(r.value.0, before, declared) && (r.value.1 == {} <==> AllBound(before, declared))
  {
    if key :| key in before && !Hashable(key.subject) {
      return Err(TypeError);
    }
    var active := set key | key in before && Names(key, declared);
    var subjects := set key | key in active :: key.subject.s;
    BindingByNames(before, declared, active, subjects);
    return Ok((active, declared - subjects));
  }

  /** A result lists one set of keys. */
  lemma ListsOnce(result: Fields, keys: set<Key>)
    requires Lists(result, keys)
    ensures forall other :: Lists(result, other) ==> other == keys
  {
    forall other | Lists(result, other) ensures other == keys {
      assert forall key :: key in other <==> key in keys;
    }
  }

  lemma BindingByNames(before: set<Key>, declared: set<string>, active: set<Key>, subjects: set<string>)
    requires AreTargets(active, before, declared)
    requires subjects == set key | key in active :: key.subject.s
    ensures declared - subjects == {} <==> AllBound(before, declared)
  {
    if AllBound(before, declared) {
      forall name | name in declared ensures name in subjects {
        var key :| key in before && key.subject == Text(name);
        assert key in active;
      }
    }
    if declared - subjects == {} {
      forall name | name in declared ensures exists key :: key in before && key.subject == Text(name) {
        assert name !in declared - subjects;
      }
    }
  }

  lemma JudgedBySets(c: Classification, before: set<Key>, after: set<Key>, declared: set<string>,
                     active: set<Key>, resolved: set<Key>, introduced: set<Key>, missing: set<string>)
    requires AreTargets(active, before, declared)
    requires resolved == active - after && introduced == after - before
    requires missing == {} <==> AllBound(before, declared)
    requires c == (if missing != {} then InvalidTarget
                   else if resolved == active && introduced == {} then Supported
                   else if resolved != {} then PartiallySupported
                   else Refuted)
    ensures Judges(c, before, after, declared)
  {
    if missing == {} {
      if resolved == active && introduced == {} {
        forall key | key in after ensures key in before && !Names(key, declared) {
          assert key !in introduced && key !in resolved;
        }
      } else if resolved != {} {
        var key :| key in resolved;
        assert key in before && Names(key, declared) && key !in after;
      } else {
        assert forall key :: key in active ==> key !in resolved;
        if declared == {} {
          assert active == {};
        }
      }
    }
  }

  // ---------- agreement with the delta ledger ----------

  lemma RecordIsRead(key: Key)
    ensures LenientKey(Record(key).fields) == key && Usable(Record(key))
  {
  }

  /** What the ledger reports as `current.obligations` is read back as the set it was made from. */
  lemma LedgerReportIsReadBack(result: Fields, keys: set<Key>, records: seq<Value>)
    requires Listed(result) == Some(records)
    requires forall i :: 0 <= i < |records| ==> exists key :: key in keys && records[i] == Record(key)
    requires forall key :: key in keys ==> exists i :: 0 <= i < |records| && records[i] == Record(key)
    ensures Lists(result, keys)
  {
    forall key: Key ensures LenientKey(Record(key).fields) == key && Usable(Record(key)) {
      RecordIsRead(key);
    }
  }

  /** A supported nonempty hypothesis is an improvement for the ledger; an empty one never a regression. */
  lemma SupportedIsImprovement(before: set<Key>, after: set<Key>, declared: set<string>, earlier: seq<set<Key>>)
    requires Judges(Supported, before, after, declared)
    ensures declared != {} ==> after < before && Carries(Improved, earlier + [before], after)
    ensures Carries(Improved, earlier + [before], after) || Carries(Stagnant, earlier + [before], after)
  {
    assert (earlier + [before])[|earlier|] == before;
    if declared != {} {
      var name :| name in declared;
      var key :| key in before && key.subject == Text(name);
      assert Names(key, declared);
    }
  }

  /**
   A refuted hypothesis leaves every bound target active. The ledger may still call the step an improvement,
   which it does exactly when something that was not a target was resolved and nothing was introduced.
   */
  lemma RefutedKeepsTargets(before: set<Key>, after: set<Key>, declared: set<string>, earlier: seq<set<Key>>)
    requires Judges(Refuted, before, after, declared)
    ensures forall key :: key in before && Names(key, declared) ==> key in after
    ensures Carries(Improved, earlier + [before], after)
       <==> after <= before && exists key :: key in before && !Names(key, declared) && key !in after
  {
    assert (earlier + [before])[|earlier|] == before;
    if after <= before && after != before {
      assert exists key :: key in before && key !in after;
    }
  }

  lemma RefutedMayStillImprove()
    ensures exists before, after, declared, earlier ::
              Judges(Refuted, before, after, declared) && Carries(Improved, earlier + [before], after)
  {
    var target := Key(Null, Text("target"), Null, Null);
    var other := Key(Null, Text("other"), Null, Null);
    var before, after, declared := {target, other}, {target}, {"target"};
    assert "target"[0] != "other"[0];
    assert Names(target, declared) && !Names(other, declared);
    assert AllBound(before, declared) by { assert target.subject == Text("target"); }
    assert Judges(Refuted, before, after, declared);
    assert other !in after && after < before;
    var earlier: seq<set<Key>> := [];
    assert (earlier + [before])[0] == before;
    assert Carries(Improved, earlier + [before], after);
  }
}
