/** Fairness and conservation of the round-robin traversal, at every point where it can stop. */
module RoundRobinLaws {
  import opened Sorting
  import opened RoundRobin

  /** The sum of the first `k` offsets. */
  function OffsetSum<T>(ranked: seq<seq<T>>, p: nat, i: nat, k: nat): nat
    requires k <= |ranked|
  {
    if k == 0 then 0 else OffsetSum(ranked, p, i, k - 1) + OffsetAt(ranked, p, i, k - 1)
  }

  /** The number of ids in the first `k` strata. */
  function Total<T>(ranked: seq<seq<T>>, k: nat): nat
    requires k <= |ranked|
  {
    if k == 0 then 0 else Total(ranked, k - 1) + |ranked[k - 1]|
  }

  /** The traversal holds as many ids as its offsets say. */
  lemma {:induction false} TraversedLength<T>(ranked: seq<seq<T>>, p: nat, i: nat)
    requires i <= |ranked|
    ensures |Traversed(ranked, p, i)| == OffsetSum(ranked, p, i, |ranked|)
    decreases p
  {
    if p > 0 {
      TraversedLength(ranked, p - 1, |ranked|);
      SameOffsets(ranked, p - 1, |ranked|);
    } else {
      NoOffsets(ranked, |ranked|);
    }
    ServedStrata(ranked, p, i, |ranked|);
  }

  lemma {:induction false} SameOffsets<T>(ranked: seq<seq<T>>, p: nat, k: nat)
    requires k <= |ranked|
    ensures OffsetSum(ranked, p, |ranked|, k) == OffsetSum(ranked, p + 1, 0, k)
  {
    if k > 0 {
      SameOffsets(ranked, p, k - 1);
    }
  }

  lemma {:induction false} NoOffsets<T>(ranked: seq<seq<T>>, k: nat)
    requires k <= |ranked|
    ensures OffsetSum(ranked, 0, 0, k) == 0
  {
    if k > 0 {
      NoOffsets(ranked, k - 1);
    }
  }

  /** Serving the first `i` strata at rank `p` adds one to the offset of each that reaches the rank. */
  lemma {:induction false} ServedStrata<T>(ranked: seq<seq<T>>, p: nat, i: nat, k: nat)
    requires i <= |ranked| && k <= |ranked|
    ensures OffsetSum(ranked, p, i, k) == OffsetSum(ranked, p, 0, k) + |ColumnUpTo(ranked, p, if i < k then i else k)|
    decreases k
  {
    if k > 0 {
      ServedStrata(ranked, p, i, k - 1);
    }
  }

  lemma {:induction false} FullOffsets<T>(ranked: seq<seq<T>>, p: nat, k: nat)
    requires k <= |ranked| && Width(ranked, k) <= p
    ensures OffsetSum(ranked, p, 0, k) == Total(ranked, k)
    decreases k
  {
    if k > 0 {
      FullOffsets(ranked, p, k - 1);
    }
  }

  /** The whole traversal lists every id of every stratum. */
  lemma ColumnMajorLength<T>(ranked: seq<seq<T>>)
    ensures |ColumnMajor(ranked)| == Total(ranked, |ranked|)
  {
    var w := Width(ranked, |ranked|);
    TraversedLength(ranked, w, 0);
    FullOffsets(ranked, w, |ranked|);
    assert Traversed(ranked, w, 0) == Columns(ranked, w);
  }

  // ---------- what is taken from each stratum ----------

  /** The members of `s` that lie in `stratum`, in order. */
  function Within<T(==)>(s: seq<T>, stratum: seq<T>): seq<T> {
    if s == [] then []
    else if s[|s| - 1] in stratum then Within(s[..|s| - 1], stratum) + [s[|s| - 1]]
    else Within(s[..|s| - 1], stratum)
  }

  lemma {:induction false} WithinAppend<T>(a: seq<T>, b: seq<T>, stratum: seq<T>)
    ensures Within(a + b, stratum) == Within(a, stratum) + Within(b, stratum)
  {
    if b == [] {
      assert a + b == a;
    } else {
      var n := |b| - 1;
      WithinAppend(a, b[..n], stratum);
      assert (a + b)[..|a + b| - 1] == a + b[..n];
    }
  }

  lemma {:induction false} WithinCounts<T>(s: seq<T>, stratum: seq<T>, x: T)
    requires x in stratum
    ensures multiset(Within(s, stratum))[x] == multiset(s)[x]
  {
    if s != [] {
      var n := |s| - 1;
      WithinCounts(s[..n], stratum, x);
      assert s == s[..n] + [s[n]];
      assert multiset(s)[x] == multiset(s[..n])[x] + multiset([s[n]])[x];
    }
  }

  /** No id is in two strata or twice in one. */
  ghost predicate Separate<T>(ranked: seq<seq<T>>) {
    && (forall j :: 0 <= j < |ranked| ==> NoRepeats(ranked[j]))
    && (forall j, k :: 0 <= j < k < |ranked| ==> forall x :: x in ranked[j] ==> x !in ranked[k])
  }

  lemma WithinColumn<T>(ranked: seq<seq<T>>, c: nat, i: nat, j: nat)
    requires Separate(ranked) && i <= |ranked| && j < |ranked|
    ensures Within(ColumnUpTo(ranked, c, i), ranked[j]) == if j < i then Rank(ranked[j], c) else []
  {
    var own := Rank(ranked[j], c);
    forall k | 0 <= k < |ranked| ensures TakesOwn(ranked, ranked[j], own, c, k, j) { OwnRank(ranked, c, k, j); }
    OwnColumn(ranked, ranked[j], own, c, i, j);
  }

  /** Of rank `c` of stratum `k`, a stratum takes what is its own if it stands at `j`, and nothing otherwise. */
  ghost predicate TakesOwn<T>(ranked: seq<seq<T>>, stratum: seq<T>, own: seq<T>, c: nat, k: nat, j: nat)
    requires k < |ranked|
  {
    Within(Rank(ranked[k], c), stratum) == if k == j then own else []
  }

  lemma {:induction false} OwnColumn<T>(ranked: seq<seq<T>>, stratum: seq<T>, own: seq<T>, c: nat, i: nat, j: nat)
    requires i <= |ranked| && forall k :: 0 <= k < |ranked| ==> TakesOwn(ranked, stratum, own, c, k, j)
    ensures Within(ColumnUpTo(ranked, c, i), stratum) == if j < i then own else []
    decreases i
  {
    if i > 0 {
      OwnColumn(ranked, stratum, own, c, i - 1, j);
      assert TakesOwn(ranked, stratum, own, c, i - 1, j);
      ColumnStep(ranked, stratum, c, i);
    }
  }

  lemma ColumnStep<T>(ranked: seq<seq<T>>, stratum: seq<T>, c: nat, i: nat)
    requires 0 < i <= |ranked|
    ensures Within(ColumnUpTo(ranked, c, i), stratum)
         == Within(ColumnUpTo(ranked, c, i - 1), stratum) + Within(Rank(ranked[i - 1], c), stratum)
  {
    assert ColumnUpTo(ranked, c, i) == ColumnUpTo(ranked, c, i - 1) + Rank(ranked[i - 1], c);
    WithinAppend(ColumnUpTo(ranked, c, i - 1), Rank(ranked[i - 1], c), stratum);
  }

  lemma OwnRank<T>(ranked: seq<seq<T>>, c: nat, i: nat, j: nat)
    requires Separate(ranked) && i < |ranked| && j < |ranked|
    ensures TakesOwn(ranked, ranked[j], Rank(ranked[j], c), c, i, j)
  {
    if c < |ranked[i]| {
      var x := ranked[i][c];
      assert x in ranked[i];
      assert x in ranked[j] <==> i == j;
      assert [x][..0] == [];
    }
  }

  /** What rank `p` of a stratum adds to a prefix of it. */
  function Rank<T>(r: seq<T>, p: nat): seq<T> {
    if p < |r| then [r[p]] else []
  }

  lemma TakeOneMore<T>(r: seq<T>, p: nat)
    ensures r[..Min(p, |r|)] + Rank(r, p) == r[..Min(p + 1, |r|)]
  {}

  lemma WithinOneMoreRank<T>(ranked: seq<seq<T>>, p: nat, j: nat)
    requires Separate(ranked) && j < |ranked|
    ensures Within(Columns(ranked, p + 1), ranked[j]) == Within(Columns(ranked, p), ranked[j]) + Rank(ranked[j], p)
  {
    WithinAppend(Columns(ranked, p), ColumnUpTo(ranked, p, |ranked|), ranked[j]);
    WithinColumn(ranked, p, |ranked|, j);
  }

  lemma WithinColumns<T>(ranked: seq<seq<T>>, p: nat, j: nat)
    requires Separate(ranked) && j < |ranked|
    ensures Within(Columns(ranked, p), ranked[j]) == ranked[j][..Min(p, |ranked[j]|)]
  {
    for q := 0 to p
      invariant Within(Columns(ranked, q), ranked[j]) == ranked[j][..Min(q, |ranked[j]|)]
    {
      WithinOneMoreRank(ranked, q, j);
      TakeOneMore(ranked[j], q);
    }
  }

  /** From every stratum a prefix is taken, in rank order, as long as its offset. */
  lemma StratumPrefixIsTaken<T>(ranked: seq<seq<T>>, p: nat, i: nat, j: nat)
    requires Separate(ranked) && i <= |ranked| && j < |ranked|
    ensures Within(Traversed(ranked, p, i), ranked[j]) == ranked[j][..OffsetAt(ranked, p, i, j)]
  {
    WithinColumns(ranked, p, j);
    WithinColumn(ranked, p, i, j);
    WithinAppend(Columns(ranked, p), ColumnUpTo(ranked, p, i), ranked[j]);
    TakeOneMore(ranked[j], p);
  }

  lemma {:induction false} ColumnFromStrata<T>(ranked: seq<seq<T>>, c: nat, i: nat, x: T)
    requires i <= |ranked| && x in ColumnUpTo(ranked, c, i)
    ensures exists j :: 0 <= j < |ranked| && x in ranked[j]
    decreases i
  {
    if x in ColumnUpTo(ranked, c, i - 1) {
      ColumnFromStrata(ranked, c, i - 1, x);
    } else {
      assert x in ranked[i - 1];
    }
  }

  lemma {:induction false} TraversedFromStrata<T>(ranked: seq<seq<T>>, p: nat, i: nat, x: T)
    requires i <= |ranked| && x in Traversed(ranked, p, i)
    ensures exists j :: 0 <= j < |ranked| && x in ranked[j]
    decreases p
  {
    if x in ColumnUpTo(ranked, p, i) {
      ColumnFromStrata(ranked, p, i, x);
    } else {
      NextRank(ranked, p - 1);
      TraversedFromStrata(ranked, p - 1, |ranked|, x);
    }
  }

  /** No id is selected twice. */
  lemma NothingIsTakenTwice<T>(ranked: seq<seq<T>>, p: nat, i: nat)
    requires Separate(ranked) && i <= |ranked|
    ensures NoRepeats(Traversed(ranked, p, i))
  {
    var s := Traversed(ranked, p, i);
    forall x ensures multiset(s)[x] <= 1 {
      if x in s {
        TraversedFromStrata(ranked, p, i, x);
        var j :| 0 <= j < |ranked| && x in ranked[j];
        StratumPrefixIsTaken(ranked, p, i, j);
        WithinCounts(s, ranked[j], x);
        NoRepeatsByMultiset(ranked[j][..OffsetAt(ranked, p, i, j)]);
      }
    }
    MultisetByNoRepeats(s);
  }

  /** The whole traversal holds every id of every stratum, once, and nothing else. */
  lemma ColumnMajorIsComplete<T>(ranked: seq<seq<T>>)
    requires Separate(ranked)
    ensures NoRepeats(ColumnMajor(ranked))
    ensures forall x :: x in ColumnMajor(ranked) <==> exists j :: 0 <= j < |ranked| && x in ranked[j]
  {
    var w := Width(ranked, |ranked|);
    WholeTraversal(ranked);
    NothingIsTakenTwice(ranked, w, 0);
    forall x ensures x in ColumnMajor(ranked) <==> exists j :: 0 <= j < |ranked| && x in ranked[j] {
      if x in ColumnMajor(ranked) {
        TraversedFromStrata(ranked, w, 0, x);
      }
      if j :| 0 <= j < |ranked| && x in ranked[j] {
        EveryMemberIsTaken(ranked, j, x);
      }
    }
  }

  lemma WholeTraversal<T>(ranked: seq<seq<T>>)
    ensures Traversed(ranked, Width(ranked, |ranked|), 0) == ColumnMajor(ranked)
  {}

  lemma EveryMemberIsTaken<T>(ranked: seq<seq<T>>, j: nat, x: T)
    requires Separate(ranked) && j < |ranked| && x in ranked[j]
    ensures x in ColumnMajor(ranked)
  {
    var w := Width(ranked, |ranked|);
    WholeTraversal(ranked);
    StratumPrefixIsTaken(ranked, w, 0, j);
    WidthBounds(ranked, |ranked|, j);
    assert ranked[j][..OffsetAt(ranked, w, 0, j)] == ranked[j];
    WithinCounts(ColumnMajor(ranked), ranked[j], x);
    assert x in multiset(ranked[j]);
  }

  lemma {:induction false} WidthBounds<T>(ranked: seq<seq<T>>, i: nat, j: nat)
    requires j < i <= |ranked|
    ensures |ranked[j]| <= Width(ranked, i)
    decreases i
  {
    if j < i - 1 {
      WidthBounds(ranked, i - 1, j);
    }
  }

  /**
   Fairness. Along strata of falling size the offsets never rise, and two strata that still have ids to give
   differ by one at most.
   */
  lemma OffsetsAreFair<T>(ranked: seq<seq<T>>, p: nat, i: nat, offsets: seq<nat>, j: nat, k: nat)
    requires OffsetsAt(offsets, ranked, p, i) && j <= k < |ranked|
    ensures |ranked[j]| >= |ranked[k]| ==> offsets[j] >= offsets[k]
    ensures offsets[j] < |ranked[j]| && offsets[k] < |ranked[k]| ==> offsets[k] <= offsets[j] <= offsets[k] + 1
    ensures offsets[j] <= |ranked[j]|
  {}
}
