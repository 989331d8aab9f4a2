/**
 `CompatibilityDeltaLedger`: the history of observations, the Pareto frontier it determines, and the
 object that keeps that frontier up to date one observation at a time.
 */
module DeltaHistory {
  import opened Json
  import opened Obligations

  /** What one observation contributed: a complete obligation set, or nothing that may be used. */
  datatype Evidence =
    | Complete(obligations: set<Key>, environment: Fields)
    | Unusable

  datatype Anchor = Anchor(index: nat, obligations: set<Key>, environment: Fields)

  datatype Transition = Initial | Stagnant | Improved | Regressed | Mixed

  /** Observation `i` (counted from 0) is complete with obligation set `s`. */
  predicate Observed(h: seq<Evidence>, i: int, s: set<Key>) {
    0 <= i < |h| && h[i].Complete? && h[i].obligations == s
  }

  /** `a` records the first occurrence of a set that no observed set lies strictly below. */
  ghost predicate FirstMinimal(a: Anchor, h: seq<Evidence>) {
    && 1 <= a.index <= |h|
    && h[a.index - 1] == Complete(a.obligations, a.environment)
    && (forall j, s :: Observed(h, j, s) ==> !(s < a.obligations))
    && (forall j :: Observed(h, j, a.obligations) ==> a.index - 1 <= j)
  }

  /** `frontier` lists the first minimal anchors of `h`, all of them and nothing else, oldest first. */
  ghost predicate IsFrontier(frontier: seq<Anchor>, h: seq<Evidence>) {
    && (forall i, j :: 0 <= i < j < |frontier| ==> frontier[i].index < frontier[j].index)
    && (forall a :: a in frontier <==> FirstMinimal(a, h))
  }

  /** The complete obligation sets of a history, in order. */
  function CompleteSets(h: seq<Evidence>): seq<set<Key>> {
    if h == [] then []
    else if h[|h| - 1].Complete? then CompleteSets(h[..|h| - 1]) + [h[|h| - 1].obligations]
    else CompleteSets(h[..|h| - 1])
  }

  /** What it means for a step to the set `current` to carry a transition label. */
  predicate Carries(t: Transition, sets: seq<set<Key>>, current: set<Key>) {
    if sets == [] then t == Initial
    else
      var previous := sets[|sets| - 1];
      match t
      case Initial => false
      case Stagnant => current == previous
      case Improved => current < previous
      case Regressed => previous < current
      case Mixed => !(current <= previous) && !(previous <= current)
  }

  /** How many of the complete observations carried the label. */
  function TransitionCount(sets: seq<set<Key>>, t: Transition): nat {
    if sets == [] then 0
    else
      TransitionCount(sets[..|sets| - 1], t)
      + (if Carries(t, sets[..|sets| - 1], sets[|sets| - 1]) then 1 else 0)
  }

  /** How many complete observations carried no obligation at all. */
  function PassCount(sets: seq<set<Key>>): nat {
    if sets == [] then 0 else PassCount(sets[..|sets| - 1]) + (if sets[|sets| - 1] == {} then 1 else 0)
  }

  datatype Delta = Delta(resolved: set<Key>, introduced: set<Key>)

  /** The delta reported with the complete observation `k`. */
  function ReportedDelta(sets: seq<set<Key>>, k: nat): Delta
    requires k < |sets|
  {
    if k == 0 then Delta({}, {}) else Delta(sets[k - 1] - sets[k], sets[k] - sets[k - 1])
  }

  // ---------- the frontier ----------

  /** The smaller key of `min(frontier, key=lambda anchor: (len(obligations), observation_index))`. */
  predicate NoWorse(a: Anchor, b: Anchor) {
    |a.obligations| < |b.obligations| || (|a.obligations| == |b.obligations| && a.index <= b.index)
  }

  predicate Dominated(frontier: seq<Anchor>, current: set<Key>) {
    exists i :: 0 <= i < |frontier| && frontier[i].obligations <= current
  }

  /** The anchors that a new set does not lie strictly below, in their old order. */
  function Retain(frontier: seq<Anchor>, current: set<Key>): (kept: seq<Anchor>)
    ensures forall a :: a in kept <==> a in frontier && !(current < a.obligations)
    ensures (forall i, j :: 0 <= i < j < |frontier| ==> frontier[i].index < frontier[j].index)
            ==> forall i, j :: 0 <= i < j < |kept| ==> kept[i].index < kept[j].index
  {
    if frontier == [] then []
    else
      var n := |frontier| - 1;
      var rest := Retain(frontier[..n], current);
      assert frontier == frontier[..n] + [frontier[n]];
      if current < frontier[n].obligations then rest else rest + [frontier[n]]
  }

  /** Every complete observation has an anchor at or below it. */
  lemma {:induction false} AnchorBelow(h: seq<Evidence>, i: nat, s: set<Key>) returns (a: Anchor)
    requires Observed(h, i, s)
    ensures FirstMinimal(a, h) && a.obligations <= s
    ensures a.obligations == s ==> a.index - 1 <= i
    decreases |s|, i
  {
    if j, t :| Observed(h, j, t) && t < s {
      assert |t| < |s| by { StrictSubsetSmaller(t, s); }
      a := AnchorBelow(h, j, t);
    } else if j :| Observed(h, j, s) && j < i {
      a := AnchorBelow(h, j, s);
    } else {
      a := Anchor(i + 1, s, h[i].environment);
    }
  }

  lemma {:induction false} AppendedEvidence(h: seq<Evidence>, e: Evidence)
    ensures CompleteSets(h + [e]) == CompleteSets(h) + (if e.Complete? then [e.obligations] else [])
  {
    assert (h + [e])[..|h|] == h;
  }

  lemma {:induction false} AppendedSet(sets: seq<set<Key>>, current: set<Key>, t: Transition)
    ensures TransitionCount(sets + [current], t) == TransitionCount(sets, t) + (if Carries(t, sets, current) then 1 else 0)
    ensures PassCount(sets + [current]) == PassCount(sets) + (if current == {} then 1 else 0)
  {
    assert (sets + [current])[..|sets|] == sets;
  }

  lemma StrictSubsetSmaller<T>(a: set<T>, b: set<T>)
    requires a < b
    ensures |a| < |b|
  {
    assert b == a + (b - a);
    var x :| x in b - a;
    assert |b - a| > 0;
    assert |b| == |a| + |b - a|;
  }

  lemma SubsetNotLarger<T>(a: set<T>, b: set<T>)
    requires a <= b
    ensures |a| <= |b|
    ensures |a| == |b| ==> a == b
  {
    if a != b { StrictSubsetSmaller(a, b); }
  }

  /** An observation that some earlier one lies at or below leaves the frontier alone. */
  lemma DominatedKeepsFrontier(frontier: seq<Anchor>, h: seq<Evidence>, e: Evidence)
    requires IsFrontier(frontier, h)
    requires e.Complete? ==> exists j, s :: Observed(h, j, s) && s <= e.obligations
    ensures IsFrontier(frontier, h + [e])
  {
    var h' := h + [e];
    assert forall j, s :: Observed(h, j, s) ==> Observed(h', j, s);
    forall a ensures FirstMinimal(a, h) <==> FirstMinimal(a, h') {
      if FirstMinimal(a, h) {
        if e.Complete? {
          var j, s :| Observed(h, j, s) && s <= e.obligations;
        }
        forall j, s | Observed(h', j, s) ensures !(s < a.obligations) {
          if j < |h| { assert Observed(h, j, s); }
        }
        forall j | Observed(h', j, a.obligations) ensures a.index - 1 <= j {
          if j < |h| { assert Observed(h, j, a.obligations); }
        }
      }
      if FirstMinimal(a, h') {
        assert a.index <= |h| by {
          if e.Complete? {
            var j, s :| Observed(h, j, s) && s <= e.obligations;
            assert s < e.obligations || Observed(h', j, e.obligations);
          }
        }
      }
    }
  }

  /** An undominated observation displaces what lies strictly above it and becomes the newest anchor. */
  lemma UndominatedExtendsFrontier(frontier: seq<Anchor>, h: seq<Evidence>, e: Evidence)
    requires IsFrontier(frontier, h) && e.Complete? && !Dominated(frontier, e.obligations)
    ensures IsFrontier(Retain(frontier, e.obligations) + [Anchor(|h| + 1, e.obligations, e.environment)], h + [e])
  {
    var h' := h + [e];
    var newest := Anchor(|h| + 1, e.obligations, e.environment);
    var kept := Retain(frontier, e.obligations);
    var frontier' := kept + [newest];
    assert FirstMinimal(newest, h') by {
      forall j, s | Observed(h', j, s) && j < |h| ensures !(s <= e.obligations) {
        assert Observed(h, j, s);
        var a := AnchorBelow(h, j, s);
        assert a in frontier;
      }
    }
    forall a ensures a in frontier' <==> FirstMinimal(a, h') {
      if a in kept {
        assert FirstMinimal(a, h);
        forall j, s | Observed(h', j, s) ensures !(s < a.obligations) {
          if j < |h| { assert Observed(h, j, s); }
        }
        forall j | Observed(h', j, a.obligations) ensures a.index - 1 <= j {
          if j < |h| { assert Observed(h, j, a.obligations); }
        }
      }
      if FirstMinimal(a, h') && a.index <= |h| {
        assert Observed(h', |h|, e.obligations);
        assert FirstMinimal(a, h) by {
          forall j, s | Observed(h, j, s) ensures !(s < a.obligations) { assert Observed(h', j, s); }
          forall j | Observed(h, j, a.obligations) ensures a.index - 1 <= j { assert Observed(h', j, a.obligations); }
        }
      }
    }
    forall a | a in kept ensures a.index < newest.index { assert FirstMinimal(a, h); }
  }
}
