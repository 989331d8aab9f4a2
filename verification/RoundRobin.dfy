/** The round-robin loop of `select_core_batch`, and the closed form that it computes. */
module RoundRobin {

  function Min(a: nat, b: nat): nat {
    if a < b then a else b
  }

  /** The ids at rank `c` in the first `i` strata. */
  function ColumnUpTo<T>(ranked: seq<seq<T>>, c: nat, i: nat): seq<T>
    requires i <= |ranked|
  {
    if i == 0 then []
    else ColumnUpTo(ranked, c, i - 1) + (if c < |ranked[i - 1]| then [ranked[i - 1][c]] else [])
  }

  /** The ids at ranks below `p`, rank by rank. */
  function Columns<T>(ranked: seq<seq<T>>, p: nat): seq<T> {
    if p == 0 then [] else Columns(ranked, p - 1) + ColumnUpTo(ranked, p - 1, |ranked|)
  }

  /** The length of the longest of the first `i` strata. */
  function Width<T>(ranked: seq<seq<T>>, i: nat): nat
    requires i <= |ranked|
  {
    if i == 0 then 0
    else
      var w := Width(ranked, i - 1);
      if |ranked[i - 1]| > w then |ranked[i - 1]| else w
  }

  /** The column-major traversal of the ranked strata. */
  function ColumnMajor<T>(ranked: seq<seq<T>>): seq<T> {
    Columns(ranked, Width(ranked, |ranked|))
  }

  /** The offset of stratum `j` when the traversal stands at rank `p` with the first `i` strata served. */
  function OffsetAt<T>(ranked: seq<seq<T>>, p: nat, i: nat, j: nat): nat
    requires j < |ranked|
  {
    Min(if j < i then p + 1 else p, |ranked[j]|)
  }

  /** What has been selected when the traversal stands there. */
  function Traversed<T>(ranked: seq<seq<T>>, p: nat, i: nat): seq<T>
    requires i <= |ranked|
  {
    Columns(ranked, p) + ColumnUpTo(ranked, p, i)
  }

  ghost predicate OffsetsAt<T>(offsets: seq<nat>, ranked: seq<seq<T>>, p: nat, i: nat) {
    && |offsets| == |ranked|
    && forall j :: 0 <= j < |ranked| ==> offsets[j] == OffsetAt(ranked, p, i, j)
  }

  /** The state of the inner loop before stratum `i`; `added` says whether this pass has selected anything. */
  ghost predicate StandsAt<T>(selected: seq<T>, offsets: seq<nat>, added: bool, ranked: seq<seq<T>>, p: nat, i: nat) {
    && i <= |ranked|
    && selected == Traversed(ranked, p, i)
    && OffsetsAt(offsets, ranked, p, i)
    && (added <==> ColumnUpTo(ranked, p, i) != [])
  }

  // ---------- the loop ----------

  method Select<T>(ranked: seq<seq<T>>, batchSize: nat)
    returns (selected: seq<T>, offsets: seq<nat>, ghost p: nat, ghost i: nat)
    requires batchSize > 0
    ensures selected == ColumnMajor(ranked)[..Min(batchSize, |ColumnMajor(ranked)|)]
    ensures i <= |ranked| && selected == Traversed(ranked, p, i) && OffsetsAt(offsets, ranked, p, i)
  {
    selected := [];
    offsets := seq(|ranked|, _ => 0);
    p, i := 0, 0;
    ghost var width := Width(ranked, |ranked|);
    while |selected| < batchSize
      invariant p <= width && i <= |ranked| && (i > 0 ==> p < width)
      invariant |selected| <= batchSize && (|selected| < batchSize ==> i == 0)
      invariant selected == Traversed(ranked, p, i) && OffsetsAt(offsets, ranked, p, i)
      decreases width - p, batchSize - |selected|
    {
      var added;
      selected, offsets, added, i := Pass(ranked, batchSize, selected, offsets, p);
      if !added {
        ColumnIsServed(ranked, p, |ranked|);
        break;
      }
      ColumnIsServed(ranked, p, i);
      if |selected| < batchSize {
        NextRank(ranked, p);
        p, i := p + 1, 0;
      }
    }
    TraversalPrefix(ranked, p, i);
  }

  /** One pass of the `for` loop over the strata, cut short when the batch is full. */
  method Pass<T>(ranked: seq<seq<T>>, batchSize: nat, selected0: seq<T>, offsets0: seq<nat>, ghost pass: nat)
    returns (selected: seq<T>, offsets: seq<nat>, added: bool, ghost i: nat)
    requires |selected0| < batchSize
    requires StandsAt(selected0, offsets0, false, ranked, pass, 0)
    ensures i <= |ranked| && |selected| <= batchSize && (|selected| < batchSize ==> i == |ranked|)
    ensures StandsAt(selected, offsets, added, ranked, pass, i)
  {
    selected, offsets, added := selected0, offsets0, false;
    for s := 0 to |ranked|
      invariant |selected| < batchSize
      invariant StandsAt(selected, offsets, added, ranked, pass, s)
    {
      StratumServed(ranked, pass, s, selected, offsets, added);
      var offset := offsets[s];
      if offset < |ranked[s]| {
        selected := selected + [ranked[s][offset]];
        offsets := offsets[s := offset + 1];
        added := true;
        if |selected| == batchSize {
          i := s + 1;
          return;
        }
      }
    }
    i := |ranked|;
  }

  // ---------- the traversal ----------

  /** The traversal moves past stratum `s`, taking its id at rank `p` if it has one. */
  lemma StratumServed<T>(ranked: seq<seq<T>>, p: nat, s: nat, selected: seq<T>, offsets: seq<nat>, added: bool)
    requires s < |ranked| && StandsAt(selected, offsets, added, ranked, p, s)
    ensures offsets[s] < |ranked[s]| <==> p < |ranked[s]|
    ensures p < |ranked[s]| ==>
              offsets[s] == p && StandsAt(selected + [ranked[s][p]], offsets[s := p + 1], true, ranked, p, s + 1)
    ensures p >= |ranked[s]| ==> StandsAt(selected, offsets, added, ranked, p, s + 1)
  {
    assert offsets[s] == OffsetAt(ranked, p, s, s);
    var offsets' := if p < |ranked[s]| then offsets[s := p + 1] else offsets;
    forall j | 0 <= j < |ranked| ensures offsets'[j] == OffsetAt(ranked, p, s + 1, j) {
      assert offsets[j] == OffsetAt(ranked, p, s, j);
    }
  }

  /** A rank serves somebody exactly when it lies inside the width. */
  lemma {:induction false} ColumnIsServed<T>(ranked: seq<seq<T>>, c: nat, i: nat)
    requires i <= |ranked|
    ensures ColumnUpTo(ranked, c, i) != [] <==> c < Width(ranked, i)
    ensures Width(ranked, i) <= Width(ranked, |ranked|)
    decreases i
  {
    if i > 0 {
      ColumnIsServed(ranked, c, i - 1);
    }
    WidthGrows(ranked, i, |ranked|);
  }

  lemma {:induction false} WidthGrows<T>(ranked: seq<seq<T>>, i: nat, k: nat)
    requires i <= k <= |ranked|
    ensures Width(ranked, i) <= Width(ranked, k)
    decreases k
  {
    if i < k {
      WidthGrows(ranked, i, k - 1);
    }
  }

  /** All strata served at rank `p` is the beginning of rank `p + 1`. */
  lemma NextRank<T>(ranked: seq<seq<T>>, p: nat)
    ensures Traversed(ranked, p, |ranked|) == Traversed(ranked, p + 1, 0)
    ensures forall offsets :: OffsetsAt(offsets, ranked, p, |ranked|) ==> OffsetsAt(offsets, ranked, p + 1, 0)
  {
    forall offsets | OffsetsAt(offsets, ranked, p, |ranked|) ensures OffsetsAt(offsets, ranked, p + 1, 0) {
      forall j | 0 <= j < |ranked| ensures offsets[j] == OffsetAt(ranked, p + 1, 0, j) {
        assert offsets[j] == OffsetAt(ranked, p, |ranked|, j);
      }
    }
  }

  lemma {:induction false} ColumnsPrefix<T>(ranked: seq<seq<T>>, p: nat, q: nat)
    requires p <= q
    ensures Columns(ranked, p) <= Columns(ranked, q)
    decreases q
  {
    if p < q {
      ColumnsPrefix(ranked, p, q - 1);
    }
  }

  lemma {:induction false} ColumnPrefix<T>(ranked: seq<seq<T>>, c: nat, i: nat, k: nat)
    requires i <= k <= |ranked|
    ensures ColumnUpTo(ranked, c, i) <= ColumnUpTo(ranked, c, k)
    decreases k
  {
    if i < k {
      ColumnPrefix(ranked, c, i, k - 1);
    }
  }

  /** Wherever the traversal stands, what it has passed is a prefix of the whole. */
  lemma TraversalPrefix<T>(ranked: seq<seq<T>>, p: nat, i: nat)
    requires i <= |ranked| && p <= Width(ranked, |ranked|)
    ensures Traversed(ranked, p, i) <= ColumnMajor(ranked)
    ensures p == Width(ranked, |ranked|) ==> Traversed(ranked, p, i) == ColumnMajor(ranked)
  {
    ColumnPrefix(ranked, p, i, |ranked|);
    if p < Width(ranked, |ranked|) {
      PrefixInside(ranked, p, i, Width(ranked, |ranked|));
    } else {
      ColumnIsServed(ranked, p, |ranked|);
      assert ColumnUpTo(ranked, p, i) == [];
    }
  }

  lemma PrefixInside<T>(ranked: seq<seq<T>>, p: nat, i: nat, w: nat)
    requires i <= |ranked| && p < w
    ensures Traversed(ranked, p, i) <= Columns(ranked, w)
  {
    ColumnPrefix(ranked, p, i, |ranked|);
    ColumnsPrefix(ranked, p + 1, w);
    PrefixTransitive(Columns(ranked, p), ColumnUpTo(ranked, p, i), ColumnUpTo(ranked, p, |ranked|), Columns(ranked, w));
  }

  lemma PrefixTransitive<T>(a: seq<T>, b: seq<T>, b': seq<T>, c: seq<T>)
    requires b <= b' && a + b' <= c
    ensures a + b <= c
  {
    assert (a + b')[..|a| + |b|] == a + b;
  }
}
