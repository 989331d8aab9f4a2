/** Consequences of the frontier characterisation, over whole histories. */
module DeltaLaws {
  import opened Obligations
  import opened DeltaHistory

  /** No retained set lies at or below another retained one, and no set is retained twice. */
  lemma FrontierIsAntichain(frontier: seq<Anchor>, h: seq<Evidence>, i: nat, j: nat)
    requires IsFrontier(frontier, h) && i < |frontier| && j < |frontier| && i != j
    ensures !(frontier[i].obligations <= frontier[j].obligations)
  {
    var a, b := frontier[i], frontier[j];
    assert a in frontier && b in frontier;
    assert FirstMinimal(a, h) && FirstMinimal(b, h);
    assert Observed(h, a.index - 1, a.obligations) && Observed(h, b.index - 1, b.obligations);
    assert a.index != b.index;
    assert a.obligations == b.obligations ==>
        Observed(h, b.index - 1, a.obligations) && Observed(h, a.index - 1, b.obligations);
  }

  /** The history determines the frontier, order included. */
  lemma {:induction false} FrontierIsUnique(f: seq<Anchor>, g: seq<Anchor>, h: seq<Evidence>)
    requires IsFrontier(f, h) && IsFrontier(g, h)
    ensures f == g
  {
    forall a ensures a in f <==> a in g {
      assert a in f <==> FirstMinimal(a, h);
    }
    SortedSameMembers(f, g);
  }

  lemma {:induction false} SortedSameMembers(f: seq<Anchor>, g: seq<Anchor>)
    requires forall i, j :: 0 <= i < j < |f| ==> f[i].index < f[j].index
    requires forall i, j :: 0 <= i < j < |g| ==> g[i].index < g[j].index
    requires forall a :: a in f <==> a in g
    ensures f == g
  {
    assert |g| > 0 ==> g[0] in g;
    if f != [] {
      assert f[0] in f && f[0] in g;
      assert g[0] in g && g[0] in f;
      var i :| 0 <= i < |g| && g[i] == f[0];
      var j :| 0 <= j < |f| && f[j] == g[0];
      assert f[0] == g[0];
      forall a ensures a in f[1..] <==> a in g[1..] {
        assert a in f <==> a == f[0] || a in f[1..];
        assert a in g <==> a == g[0] || a in g[1..];
        assert f[0] !in f[1..] && g[0] !in g[1..];
      }
      SortedSameMembers(f[1..], g[1..]);
      assert f == [f[0]] + f[1..] && g == [g[0]] + g[1..];
    }
  }

  /** The best retained anchor is the earliest observation of globally least size, over the whole history. */
  lemma BestIsGlobal(frontier: seq<Anchor>, h: seq<Evidence>, best: Anchor, i: nat, s: set<Key>)
    requires IsFrontier(frontier, h)
    requires best in frontier && forall a :: a in frontier ==> NoWorse(best, a)
    requires Observed(h, i, s)
    ensures |best.obligations| <= |s|
    ensures |best.obligations| == |s| ==> best.index - 1 <= i
  {
    var a := AnchorBelow(h, i, s);
    assert a in frontier;
    SubsetNotLarger(a.obligations, s);
  }

  /** Once a pass has been observed the frontier is the one anchor of the first pass, whatever follows. */
  lemma PassIsForever(frontier: seq<Anchor>, h: seq<Evidence>, later: seq<Evidence>, i: nat)
    requires Observed(h, i, {}) && forall j :: 0 <= j < i ==> !Observed(h, j, {})
    requires IsFrontier(frontier, h + later)
    ensures frontier == [Anchor(i + 1, {}, h[i].environment)]
  {
    var all := h + later;
    var first := Anchor(i + 1, {}, h[i].environment);
    assert Observed(all, i, {});
    assert FirstMinimal(first, all) by {
      forall j | Observed(all, j, {}) ensures i <= j {
        if j < i { assert Observed(h, j, {}); }
      }
    }
    assert first in frontier;
    forall k | 0 <= k < |frontier| ensures frontier[k] == first {
      var a := frontier[k];
      assert a in frontier;
      assert FirstMinimal(a, all);
      assert !({} < a.obligations);
      assert a.obligations == {};
      assert Observed(all, a.index - 1, {});
    }
    var last := |frontier| - 1;
    assert frontier[0] == first && frontier[last] == first;
  }

  // ---------- transitions ----------

  /** Positions in the list of complete sets and positions in the history name the same observations. */
  lemma {:induction false} CompleteSetsAreObserved(h: seq<Evidence>, k: nat) returns (i: nat)
    requires k < |CompleteSets(h)|
    ensures Observed(h, i, CompleteSets(h)[k])
  {
    var n := |h| - 1;
    if h[n].Complete? && k == |CompleteSets(h)| - 1 {
      i := n;
    } else {
      i := CompleteSetsAreObserved(h[..n], k);
    }
  }

  /** A stagnant or regressed step is always dominated, so it never changes the frontier. */
  lemma NonImprovementKeepsFrontier(frontier: seq<Anchor>, h: seq<Evidence>, e: Evidence)
    requires IsFrontier(frontier, h) && e.Complete?
    requires Carries(Stagnant, CompleteSets(h), e.obligations) || Carries(Regressed, CompleteSets(h), e.obligations)
    ensures Dominated(frontier, e.obligations)
    ensures IsFrontier(frontier, h + [e])
  {
    var sets := CompleteSets(h);
    var i := CompleteSetsAreObserved(h, |sets| - 1);
    var a := AnchorBelow(h, i, sets[|sets| - 1]);
    assert a in frontier;
    DominatedKeepsFrontier(frontier, h, e);
  }

  /** Every complete observation carries exactly one label, so the labels add up to the complete count. */
  lemma {:induction false} TransitionsAddUp(sets: seq<set<Key>>)
    ensures TransitionCount(sets, Initial) + TransitionCount(sets, Stagnant) + TransitionCount(sets, Improved)
            + TransitionCount(sets, Regressed) + TransitionCount(sets, Mixed) == |sets|
    ensures TransitionCount(sets, Initial) == (if sets == [] then 0 else 1)
  {
    if sets != [] {
      TransitionsAddUp(sets[..|sets| - 1]);
    }
  }

  /** A reader who starts from the first complete set and applies the reported deltas in order. */
  function Replay(first: set<Key>, deltas: seq<Delta>): set<Key> {
    if deltas == [] then first
    else
      var d := deltas[|deltas| - 1];
      (Replay(first, deltas[..|deltas| - 1]) - d.resolved) + d.introduced
  }

  /** Such a reader ends with the current set. */
  lemma {:induction false} DeltasReplay(sets: seq<set<Key>>, deltas: seq<Delta>)
    requires sets != [] && |deltas| == |sets|
    requires forall k :: 0 <= k < |sets| ==> deltas[k] == ReportedDelta(sets, k)
    ensures Replay(sets[0], deltas) == sets[|sets| - 1]
  {
    var n := |sets| - 1;
    if n == 0 {
      assert deltas[..0] == [];
    } else {
      forall k | 0 <= k < n ensures deltas[..n][k] == ReportedDelta(sets[..n], k) {
        assert deltas[k] == ReportedDelta(sets, k);
      }
      DeltasReplay(sets[..n], deltas[..n]);
      assert deltas[n] == ReportedDelta(sets, n);
      assert (sets[n - 1] - (sets[n - 1] - sets[n])) + (sets[n] - sets[n - 1]) == sets[n];
    }
  }
}
