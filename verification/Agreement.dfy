/** `compare_causal_annotations.compare`: pairing two annotation documents, the confusion matrix and Cohen's kappa. */
module Agreement {
  import opened Sorting

  datatype LabelPair = LabelPair(first: string, second: string)

  // ---------- counting ----------

  function CountFirst(pairs: seq<LabelPair>, name: string): nat {
    if pairs == [] then 0
    else CountFirst(pairs[..|pairs| - 1], name) + (if pairs[|pairs| - 1].first == name then 1 else 0)
  }

  function CountSecond(pairs: seq<LabelPair>, name: string): nat {
    if pairs == [] then 0
    else CountSecond(pairs[..|pairs| - 1], name) + (if pairs[|pairs| - 1].second == name then 1 else 0)
  }

  /** The cell of the confusion matrix. */
  function Cell(pairs: seq<LabelPair>, a: string, b: string): nat {
    if pairs == [] then 0
    else Cell(pairs[..|pairs| - 1], a, b) + (if pairs[|pairs| - 1] == LabelPair(a, b) then 1 else 0)
  }

  function ExactCount(pairs: seq<LabelPair>): nat {
    if pairs == [] then 0
    else ExactCount(pairs[..|pairs| - 1]) + (if pairs[|pairs| - 1].first == pairs[|pairs| - 1].second then 1 else 0)
  }

  /** `sorted({label for pair in pairs for label in pair})`. */
  function Labels(pairs: seq<LabelPair>): seq<string> {
    Sort(Mentioned(pairs), StringLe)
  }

  function Mentioned(pairs: seq<LabelPair>): seq<string> {
    if pairs == [] then [] else WithLabel(WithLabel(Mentioned(pairs[..|pairs| - 1]), pairs[|pairs| - 1].first), pairs[|pairs| - 1].second)
  }

  function WithLabel(labels: seq<string>, l: string): seq<string> {
    if l in labels then labels else labels + [l]
  }

  /** The list names every label of every pair, each once. */
  ghost predicate Covers(labels: seq<string>, pairs: seq<LabelPair>) {
    NoRepeats(labels) && forall i :: 0 <= i < |pairs| ==> pairs[i].first in labels && pairs[i].second in labels
  }

  function Sum(labels: seq<string>, f: string -> int): int {
    if labels == [] then 0 else Sum(labels[..|labels| - 1], f) + f(labels[|labels| - 1])
  }

  function SumReal(labels: seq<string>, f: string -> real): real {
    if labels == [] then 0.0 else SumReal(labels[..|labels| - 1], f) + f(labels[|labels| - 1])
  }

  // ---------- the statistics, as the source writes them ----------

  function ObservedRate(pairs: seq<LabelPair>): real {
    Share(ExactCount(pairs), |pairs|)
  }

  function ExpectedRate(pairs: seq<LabelPair>, labels: seq<string>): real {
    SumReal(labels, ChanceTerms(pairs))
  }

  function ChanceTerms(pairs: seq<LabelPair>): string -> real {
    l => ChanceTerm(pairs, l)
  }

  function ChanceTerm(pairs: seq<LabelPair>, l: string): real {
    Share(CountFirst(pairs, l), |pairs|) * Share(CountSecond(pairs, l), |pairs|)
  }

  function Share(count: nat, n: nat): real {
    if n == 0 then 0.0 else count as real / n as real
  }

  function Kappa(observed: real, expected: real): real {
    if expected < 1.0 then (observed - expected) / (1.0 - expected) else 1.0
  }

  function CohenKappa(pairs: seq<LabelPair>): real {
    Kappa(ObservedRate(pairs), ExpectedRate(pairs, Labels(pairs)))
  }

  // ---------- sums over the labels ----------

  lemma {:induction false} MentionedCovers(pairs: seq<LabelPair>)
    ensures Covers(Mentioned(pairs), pairs)
  {
    if pairs != [] {
      var n := |pairs| - 1;
      MentionedCovers(pairs[..n]);
      CoversOneMore(Mentioned(pairs[..n]), pairs[..n], pairs[n]);
      assert pairs[..n] + [pairs[n]] == pairs;
    }
  }

  lemma CoversOneMore(labels: seq<string>, pairs: seq<LabelPair>, p: LabelPair)
    requires Covers(labels, pairs)
    ensures Covers(WithLabel(WithLabel(labels, p.first), p.second), pairs + [p])
  {
    var one := WithLabel(labels, p.first);
    WithLabelKeeps(labels, p.first);
    WithLabelKeeps(one, p.second);
    var two := WithLabel(one, p.second);
    forall i | 0 <= i < |pairs| ensures pairs[i].first in two && pairs[i].second in two {
      assert pairs[i].first in labels && pairs[i].second in labels;
      assert pairs[i].first in one && pairs[i].second in one;
    }
  }

  lemma WithLabelKeeps(labels: seq<string>, l: string)
    requires NoRepeats(labels)
    ensures NoRepeats(WithLabel(labels, l)) && l in WithLabel(labels, l)
    ensures forall x :: x in labels ==> x in WithLabel(labels, l)
  {}

  lemma LabelsCover(pairs: seq<LabelPair>)
    ensures Covers(Labels(pairs), pairs) && Ascending(Labels(pairs), StringLe)
    ensures forall l :: l in Labels(pairs) <==> l in Mentioned(pairs)
  {
    StringOrderIsTotal();
    MentionedCovers(pairs);
    SortAscends(Mentioned(pairs), StringLe);
    SortKeepsMembers(Mentioned(pairs), StringLe);
    SortKeepsNoRepeats(Mentioned(pairs), StringLe);
  }

  lemma {:induction false} SumPlus(labels: seq<string>, f: string -> int, g: string -> int, h: string -> int)
    requires forall l :: l in labels ==> h(l) == f(l) + g(l)
    ensures Sum(labels, h) == Sum(labels, f) + Sum(labels, g)
  {
    if labels != [] {
      SumPlus(labels[..|labels| - 1], f, g, h);
    }
  }

  /** A function that is 1 at one label of the list and 0 elsewhere sums to 1. */
  lemma {:induction false} SumIndicator(labels: seq<string>, x: string, f: string -> int)
    requires NoRepeats(labels) && forall l :: f(l) == if l == x then 1 else 0
    ensures Sum(labels, f) == if x in labels then 1 else 0
  {
    if labels != [] {
      SumIndicator(labels[..|labels| - 1], x, f);
    }
  }

  lemma {:induction false} SumZero(labels: seq<string>, f: string -> int)
    requires forall l :: l in labels ==> f(l) == 0
    ensures Sum(labels, f) == 0
  {
    if labels != [] {
      SumZero(labels[..|labels| - 1], f);
    }
  }

  function FirstCounts(pairs: seq<LabelPair>): string -> int {
    l => CountFirst(pairs, l)
  }

  function SecondCounts(pairs: seq<LabelPair>): string -> int {
    l => CountSecond(pairs, l)
  }

  /** The diagonal of the confusion matrix. */
  function Diagonal(pairs: seq<LabelPair>): string -> int {
    l => Cell(pairs, l, l)
  }

  /** The labels an annotator used account for every pair. */
  lemma {:induction false} FirstCountsAddUp(pairs: seq<LabelPair>, labels: seq<string>)
    requires NoRepeats(labels) && forall i :: 0 <= i < |pairs| ==> pairs[i].first in labels
    ensures Sum(labels, FirstCounts(pairs)) == |pairs|
  {
    if pairs == [] {
      SumZero(labels, FirstCounts(pairs));
    } else {
      var n := |pairs| - 1;
      FirstCountsAddUp(pairs[..n], labels);
      SumIndicator(labels, pairs[n].first, l => if l == pairs[n].first then 1 else 0);
      SumPlus(labels, FirstCounts(pairs[..n]), l => if l == pairs[n].first then 1 else 0, FirstCounts(pairs));
    }
  }

  /** Each row of the confusion matrix sums to the first annotator's count. */
  lemma {:induction false} RowSums(pairs: seq<LabelPair>, labels: seq<string>, a: string)
    requires NoRepeats(labels) && forall i :: 0 <= i < |pairs| ==> pairs[i].second in labels
    ensures Sum(labels, b => Cell(pairs, a, b)) == CountFirst(pairs, a)
  {
    if pairs == [] {
      SumZero(labels, b => Cell(pairs, a, b));
    } else {
      var n := |pairs| - 1;
      RowSums(pairs[..n], labels, a);
      if pairs[n].first == a {
        SumIndicator(labels, pairs[n].second, b => if b == pairs[n].second then 1 else 0);
        SumPlus(labels, b => Cell(pairs[..n], a, b), b => if b == pairs[n].second then 1 else 0, b => Cell(pairs, a, b));
      } else {
        SumZero(labels, b => 0);
        SumPlus(labels, b => Cell(pairs[..n], a, b), b => 0, b => Cell(pairs, a, b));
      }
    }
  }

  /** The trace of the confusion matrix is the number of agreements. */
  lemma {:induction false} TraceIsExact(pairs: seq<LabelPair>, labels: seq<string>)
    requires NoRepeats(labels) && forall i :: 0 <= i < |pairs| ==> pairs[i].first in labels
    ensures Sum(labels, Diagonal(pairs)) == ExactCount(pairs)
  {
    if pairs == [] {
      SumZero(labels, Diagonal(pairs));
    } else {
      var n := |pairs| - 1;
      TraceIsExact(pairs[..n], labels);
      if pairs[n].first == pairs[n].second {
        SumIndicator(labels, pairs[n].first, l => if l == pairs[n].first then 1 else 0);
        SumPlus(labels, Diagonal(pairs[..n]), l => if l == pairs[n].first then 1 else 0, Diagonal(pairs));
      } else {
        SumZero(labels, l => 0);
        SumPlus(labels, Diagonal(pairs[..n]), l => 0, Diagonal(pairs));
      }
    }
  }

  // ---------- swapping the annotators ----------

  function Swap(pairs: seq<LabelPair>): seq<LabelPair> {
    if pairs == [] then []
    else Swap(pairs[..|pairs| - 1]) + [LabelPair(pairs[|pairs| - 1].second, pairs[|pairs| - 1].first)]
  }

  lemma {:induction false} SwapCounts(pairs: seq<LabelPair>, a: string, b: string)
    ensures |Swap(pairs)| == |pairs| && ExactCount(Swap(pairs)) == ExactCount(pairs)
    ensures CountFirst(Swap(pairs), a) == CountSecond(pairs, a) && CountSecond(Swap(pairs), a) == CountFirst(pairs, a)
    ensures Cell(Swap(pairs), a, b) == Cell(pairs, b, a)
  {
    if pairs != [] {
      var n := |pairs| - 1;
      SwapCounts(pairs[..n], a, b);
      assert Swap(pairs)[..n] == Swap(pairs[..n]);
    }
  }

  lemma {:induction false} SwapMentions(pairs: seq<LabelPair>)
    ensures |Swap(pairs)| == |pairs|
    ensures forall i :: 0 <= i < |pairs| ==> Swap(pairs)[i] == LabelPair(pairs[i].second, pairs[i].first)
  {
    if pairs != [] {
      SwapMentions(pairs[..|pairs| - 1]);
    }
  }

  lemma {:induction false} SwapKeepsMentions(pairs: seq<LabelPair>, l: string)
    ensures l in Mentioned(Swap(pairs)) <==> l in Mentioned(pairs)
  {
    if pairs != [] {
      var n := |pairs| - 1;
      SwapKeepsMentions(pairs[..n], l);
      assert Swap(pairs)[..|Swap(pairs)| - 1] == Swap(pairs[..n]);
      assert Swap(pairs)[|Swap(pairs)| - 1] == LabelPair(pairs[n].second, pairs[n].first);
    }
  }

  lemma SwapKeepsLabels(pairs: seq<LabelPair>)
    ensures Labels(Swap(pairs)) == Labels(pairs)
  {
    LabelsCover(pairs);
    LabelsCover(Swap(pairs));
    StringOrderIsTotal();
    forall l ensures l in Labels(Swap(pairs)) <==> l in Labels(pairs) {
      SwapKeepsMentions(pairs, l);
    }
    AscendingIsUnique(Labels(Swap(pairs)), Labels(pairs), StringLe);
  }

  lemma SecondCountsAddUp(pairs: seq<LabelPair>, labels: seq<string>)
    requires NoRepeats(labels) && forall i :: 0 <= i < |pairs| ==> pairs[i].second in labels
    ensures Sum(labels, SecondCounts(pairs)) == |pairs|
  {
    SwapMentions(pairs);
    FirstCountsAddUp(Swap(pairs), labels);
    forall l { SwapCounts(pairs, l, l); }
    SumSame(labels, FirstCounts(Swap(pairs)), SecondCounts(pairs));
  }

  /** Each column of the confusion matrix sums to the second annotator's count. */
  lemma ColumnSums(pairs: seq<LabelPair>, labels: seq<string>, b: string)
    requires NoRepeats(labels) && forall i :: 0 <= i < |pairs| ==> pairs[i].first in labels
    ensures Sum(labels, a => Cell(pairs, a, b)) == CountSecond(pairs, b)
  {
    SwapMentions(pairs);
    RowSums(Swap(pairs), labels, b);
    forall a { SwapCounts(pairs, b, a); }
    SumSame(labels, a => Cell(Swap(pairs), b, a), a => Cell(pairs, a, b));
  }

  lemma {:induction false} SumSame(labels: seq<string>, f: string -> int, g: string -> int)
    requires forall l :: f(l) == g(l)
    ensures Sum(labels, f) == Sum(labels, g)
  {
    if labels != [] {
      SumSame(labels[..|labels| - 1], f, g);
    }
  }

  // ---------- bounds on kappa ----------

  lemma {:induction false} CellBounds(pairs: seq<LabelPair>, l: string)
    ensures CountFirst(pairs, l) <= |pairs| && CountSecond(pairs, l) <= |pairs|
    ensures Cell(pairs, l, l) >= CountFirst(pairs, l) + CountSecond(pairs, l) - |pairs|
    ensures ExactCount(pairs) <= |pairs|
  {
    if pairs != [] {
      CellBounds(pairs[..|pairs| - 1], l);
    }
  }

  /** The heart of the lower bound, label by label: with p, q in [0, 1], 2pq - max(0, p + q - 1) <= (p + q) / 2. */
  lemma LabelBound(r: int, c: int, m: int, n: int)
    requires 0 <= r <= n && 0 <= c <= n && m >= 0 && m >= r + c - n
    ensures 4 * (r * c) <= n * (r + c) + 2 * (n * m)
  {
    var s := r + c;
    FourProducts(r, c, s);
    Scaled(n, 0, m);
    if s <= n {
      Scaled(s, s, n);
    } else {
      Scaled(n, s - n, m);
      Between(s, n);
    }
  }

  lemma FourProducts(r: int, c: int, s: int)
    requires s == r + c
    ensures 4 * (r * c) <= s * s
  {
    var d := r - c;
    assert d * d >= 0;
    assert s * s == r * r + 2 * (r * c) + c * c;
    assert d * d == r * r - 2 * (r * c) + c * c;
  }

  lemma Scaled(n: nat, x: int, y: int)
    requires x <= y
    ensures n * x <= n * y
  {
    assert n * (y - x) >= 0;
  }

  lemma Between(s: int, n: int)
    requires n <= s <= 2 * n
    ensures s * s <= n * s + 2 * (n * (s - n))
  {
    var d, e := s - n, 2 * n - s;
    assert d * e >= 0;
    assert d * e == 3 * (n * s) - s * s - 2 * (n * n);
    assert n * (s - n) == n * s - n * n;
  }

  /** n^2 times the expected rate. */
  function ExpectedCount(pairs: seq<LabelPair>, labels: seq<string>): int {
    Sum(labels, CountTerms(pairs))
  }

  function CountTerms(pairs: seq<LabelPair>): string -> int {
    l => CountTerm(pairs, l)
  }

  function CountTerm(pairs: seq<LabelPair>, l: string): int {
    CountFirst(pairs, l) * CountSecond(pairs, l)
  }

  /** The label bounds, added up over the list. */
  lemma {:induction false} BoundsAddUp(pairs: seq<LabelPair>, labels: seq<string>)
    ensures var margins := Sum(labels, FirstCounts(pairs)) + Sum(labels, SecondCounts(pairs));
            4 * ExpectedCount(pairs, labels) <= |pairs| * margins + 2 * (|pairs| * Sum(labels, Diagonal(pairs)))
  {
    if labels != [] {
      var l, n := labels[|labels| - 1], |pairs|;
      BoundsAddUp(pairs, labels[..|labels| - 1]);
      CellBounds(pairs, l);
      LabelBound(CountFirst(pairs, l), CountSecond(pairs, l), Cell(pairs, l, l), n);
      var rest := labels[..|labels| - 1];
      Distributes(n, Sum(rest, FirstCounts(pairs)) + Sum(rest, SecondCounts(pairs)), CountFirst(pairs, l) + CountSecond(pairs, l));
      Distributes(n, Sum(rest, Diagonal(pairs)), Cell(pairs, l, l));
    }
  }

  lemma Distributes(n: int, x: int, y: int)
    ensures n * (x + y) == n * x + n * y
  {}

  /** The expected rate is at most half of one plus the observed rate, in whole numbers. */
  lemma ExpectedBound(pairs: seq<LabelPair>, labels: seq<string>)
    requires Covers(labels, pairs)
    ensures TwiceAtMost(ExpectedCount(pairs, labels), ExactCount(pairs), |pairs|)
  {
    BoundsAddUp(pairs, labels);
    FirstCountsAddUp(pairs, labels);
    SecondCountsAddUp(pairs, labels);
    TraceIsExact(pairs, labels);
    CombineBounds(ExpectedCount(pairs, labels), |pairs|, ExactCount(pairs));
  }

  lemma CombineBounds(e: int, n: nat, exact: int)
    requires 4 * e <= n * (n + n) + 2 * (n * exact)
    ensures TwiceAtMost(e, exact, n)
  {
    assert n * (n + n) == 2 * (n * n);
  }

  /** `x` is the fraction k / n^2. */
  predicate OverSquare(x: real, k: int, n: nat) {
    x * (n as real * n as real) == k as real
  }

  lemma {:induction false} SumOfShares(labels: seq<string>, f: string -> int, g: string -> real, n: nat)
    requires forall l :: l in labels ==> OverSquare(g(l), f(l), n)
    ensures OverSquare(SumReal(labels, g), Sum(labels, f), n)
  {
    if labels != [] {
      SumOfShares(labels[..|labels| - 1], f, g, n);
    }
  }

  lemma ShareProduct(r: nat, c: nat, n: nat)
    requires n > 0
    ensures OverSquare(Share(r, n) * Share(c, n), r * c, n)
  {
    var x, y, d := Share(r, n), Share(c, n), n as real;
    assert x * d == r as real && y * d == c as real;
    assert x * y * (d * d) == (x * d) * (y * d);
  }

  /** The expected rate as a fraction over n^2. */
  lemma ExpectedAsFraction(pairs: seq<LabelPair>, labels: seq<string>)
    requires pairs != []
    ensures OverSquare(ExpectedRate(pairs, labels), ExpectedCount(pairs, labels), |pairs|)
  {
    forall l ensures OverSquare(ChanceTerm(pairs, l), CountTerm(pairs, l), |pairs|) {
      ShareProduct(CountFirst(pairs, l), CountSecond(pairs, l), |pairs|);
    }
    SumOfShares(labels, CountTerms(pairs), ChanceTerms(pairs), |pairs|);
  }

  /** 2 * expected <= 1 + observed <= 2. */
  lemma RateBounds(pairs: seq<LabelPair>, labels: seq<string>)
    requires pairs != [] && Covers(labels, pairs)
    ensures 2.0 * ExpectedRate(pairs, labels) <= 1.0 + ObservedRate(pairs)
    ensures ObservedRate(pairs) <= 1.0
    ensures ObservedRate(pairs) == 1.0 <==> ExactCount(pairs) == |pairs|
  {
    CellBounds(pairs, "");
    ShareBounds(ExactCount(pairs), |pairs|);
    ExpectedAsFraction(pairs, labels);
    ExpectedBound(pairs, labels);
    ScaleBounds(ExpectedRate(pairs, labels), ExpectedCount(pairs, labels), ExactCount(pairs), |pairs|);
  }

  lemma ShareBounds(x: nat, n: nat)
    requires n > 0 && x <= n
    ensures Share(x, n) <= 1.0
    ensures Share(x, n) == 1.0 <==> x == n
  {
    var share, whole := Share(x, n), n as real;
    assert share * whole == x as real;
    assert share == 1.0 ==> share * whole == whole;
  }

  predicate TwiceAtMost(e: int, exact: int, n: nat) {
    2 * e <= n * n + n * exact
  }

  lemma ScaleBounds(expected: real, e: int, exact: nat, n: nat)
    requires n > 0 && OverSquare(expected, e, n) && TwiceAtMost(e, exact, n)
    ensures 2.0 * expected <= 1.0 + Share(exact, n)
  {
    var scale := n as real * n as real;
    var d, observed := n as real, Share(exact, n);
    assert observed * d == exact as real;
    assert (n * exact) as real == d * exact as real;
    assert d * exact as real == observed * scale;
    var x, y := 2.0 * expected, 1.0 + observed;
    assert x * scale == 2.0 * e as real;
    assert y * scale == scale + observed * scale;
    assert x * scale <= y * scale;
    if x > y {
      ScaleStrictly(y, x, scale);
    }
  }

  lemma ScaleStrictly(x: real, y: real, d: real)
    requires x < y && d > 0.0
    ensures x * d < y * d
  {}

  /** Kappa lies between -1 and 1, and is 1 exactly when the annotators agree on every pair. */
  lemma KappaRange(pairs: seq<LabelPair>)
    requires pairs != []
    ensures -1.0 <= CohenKappa(pairs) <= 1.0
    ensures CohenKappa(pairs) == 1.0 <==> ExactCount(pairs) == |pairs|
  {
    LabelsCover(pairs);
    RateBounds(pairs, Labels(pairs));
    KappaFromRates(ObservedRate(pairs), ExpectedRate(pairs, Labels(pairs)));
  }

  lemma KappaFromRates(observed: real, expected: real)
    requires 2.0 * expected <= 1.0 + observed && observed <= 1.0
    ensures -1.0 <= Kappa(observed, expected) <= 1.0
    ensures Kappa(observed, expected) == 1.0 <==> observed == 1.0
  {
    if expected < 1.0 {
      Ratio(observed - expected, 1.0 - expected);
    }
  }

  lemma Ratio(x: real, d: real)
    requires d > 0.0
    ensures x <= d ==> x / d <= 1.0
    ensures x >= -d ==> x / d >= -1.0
    ensures x == d <==> x / d == 1.0
  {
    assert x / d * d == x;
    if x / d < -1.0 { ScaleStrictly(x / d, -1.0, d); }
    if x / d > 1.0 { ScaleStrictly(1.0, x / d, d); }
  }

  /** Swapping the annotators changes nothing. */
  lemma KappaIsSymmetric(pairs: seq<LabelPair>)
    ensures CohenKappa(Swap(pairs)) == CohenKappa(pairs)
  {
    SwapKeepsLabels(pairs);
    SwapKeepsRates(pairs, Labels(pairs));
  }

  lemma SwapKeepsRates(pairs: seq<LabelPair>, labels: seq<string>)
    ensures ObservedRate(Swap(pairs)) == ObservedRate(pairs)
    ensures ExpectedRate(Swap(pairs), labels) == ExpectedRate(pairs, labels)
  {
    SwapCounts(pairs, "", "");
    SwapKeepsSum(labels, pairs, ChanceTerms(Swap(pairs)), ChanceTerms(pairs));
  }

  lemma {:induction false} SwapKeepsSum(labels: seq<string>, pairs: seq<LabelPair>, f: string -> real, g: string -> real)
    requires f == ChanceTerms(Swap(pairs)) && g == ChanceTerms(pairs)
    ensures SumReal(labels, f) == SumReal(labels, g)
  {
    if labels != [] {
      SwapKeepsSum(labels[..|labels| - 1], pairs, f, g);
      SwapKeepsChance(pairs, labels[|labels| - 1]);
    }
  }

  lemma SwapKeepsChance(pairs: seq<LabelPair>, l: string)
    ensures ChanceTerm(Swap(pairs), l) == ChanceTerm(pairs, l)
  {
    SwapCounts(pairs, l, l);
    Commutes(Share(CountFirst(pairs, l), |pairs|), Share(CountSecond(pairs, l), |pairs|));
  }

  lemma Commutes(x: real, y: real)
    ensures x * y == y * x
  {}
}
