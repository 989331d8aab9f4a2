/** The exact two-sided McNemar p-value, over exact rationals, and the paired table that feeds it. */
module McNemar {
  import opened Wrappers

  /** `math.comb`. */
  function Choose(n: nat, k: nat): nat {
    if k == 0 then 1 else if n == 0 then 0 else Choose(n - 1, k - 1) + Choose(n - 1, k)
  }

  function Pow2(n: nat): nat
    ensures Pow2(n) > 0
  {
    if n == 0 then 1 else 2 * Pow2(n - 1)
  }

  /** The sum of `comb(n, k)` for k below `m`. */
  function LowerSum(n: nat, m: nat): nat {
    if m == 0 then 0 else LowerSum(n, m - 1) + Choose(n, m - 1)
  }

  function Smaller(a: nat, b: nat): nat {
    if a < b then a else b
  }

  function Distance(a: nat, b: nat): nat {
    if a < b then b - a else a - b
  }

  /** Twice the lower tail, before the clamp. */
  function Doubled(a: nat, b: nat): real {
    (2 * LowerSum(a + b, Smaller(a, b) + 1)) as real / Pow2(a + b) as real
  }

  /** `_exact_mcnemar_p`. */
  function ExactMcnemarP(treatmentOnly: nat, controlOnly: nat): real {
    if treatmentOnly + controlOnly == 0 then 1.0
    else
      var p := Doubled(treatmentOnly, controlOnly);
      if p < 1.0 then p else 1.0
  }

  // ---------- binomial coefficients ----------

  lemma {:induction false} ChooseEdges(n: nat, k: nat)
    ensures k > n ==> Choose(n, k) == 0
    ensures Choose(n, n) == 1
    ensures k <= n ==> Choose(n, k) > 0
  {
    if n > 0 {
      if k > 0 {
        ChooseEdges(n - 1, k - 1);
        ChooseEdges(n - 1, k);
      } else {
        ChooseEdges(n - 1, 0);
      }
      ChooseEdges(n - 1, n);
    }
  }

  lemma {:induction false} ChooseIsSymmetric(n: nat, k: nat)
    requires k <= n
    ensures Choose(n, k) == Choose(n, n - k)
  {
    ChooseEdges(n, k);
    if 0 < k < n {
      ChooseIsSymmetric(n - 1, k - 1);
      ChooseIsSymmetric(n - 1, k);
    }
  }

  function Factorial(n: nat): nat {
    if n == 0 then 1 else n * Factorial(n - 1)
  }

  /** Pascal's recurrence computes n! / (k! (n - k)!). */
  lemma {:induction false} ChooseByFactorials(n: nat, k: nat)
    requires k <= n
    ensures Choose(n, k) * Factorial(k) * Factorial(n - k) == Factorial(n)
  {
    ChooseEdges(n, k);
    if 0 < k < n {
      ChooseByFactorials(n - 1, k - 1);
      ChooseByFactorials(n - 1, k);
      FactorialStep(Choose(n - 1, k - 1), Choose(n - 1, k), Factorial(k - 1), Factorial(n - 1 - k),
                    k, n - k, Factorial(n - 1));
    }
  }

  lemma FactorialStep(x: nat, y: nat, f: nat, g: nat, k: nat, m: nat, product: nat)
    requires x * f * (m * g) == product && y * (k * f) * g == product
    ensures (x + y) * (k * f) * (m * g) == (k + m) * product
  {
    PullOut(x, k, f, m * g);
    assert y * (k * f) * (m * g) == m * (y * (k * f) * g) by {
      var z := y * (k * f);
      assert z * (m * g) == m * (z * g);
    }
    assert (x + y) * (k * f) * (m * g) == x * (k * f) * (m * g) + y * (k * f) * (m * g) by {
      var z := k * f;
      assert (x + y) * z == x * z + y * z;
      var w := m * g;
      assert (x * z + y * z) * w == x * z * w + y * z * w;
    }
  }

  lemma PullOut(x: nat, k: nat, f: nat, w: nat)
    ensures x * (k * f) * w == k * (x * f * w)
  {
    assert x * (k * f) == k * (x * f);
    var z := x * f;
    assert k * z * w == k * (z * w);
  }

  lemma {:induction false} PascalSum(n: nat, m: nat)
    ensures LowerSum(n + 1, m + 1) == LowerSum(n, m + 1) + LowerSum(n, m)
  {
    if m > 0 {
      PascalSum(n, m - 1);
    }
  }

  lemma {:induction false} FullSum(n: nat)
    ensures LowerSum(n, n + 1) == Pow2(n)
  {
    if n > 0 {
      FullSum(n - 1);
      PascalSum(n - 1, n);
      ChooseEdges(n - 1, n);
    }
  }

  /** The lower and the upper part of a row mirror each other. */
  lemma {:induction false} Mirror(n: nat, m: nat)
    requires m <= n + 1
    ensures LowerSum(n, m) + LowerSum(n, n + 1 - m) == Pow2(n)
  {
    if m == 0 {
      FullSum(n);
    } else {
      Mirror(n, m - 1);
      ChooseIsSymmetric(n, m - 1);
    }
  }

  lemma {:induction false} LowerSumGrows(n: nat, m: nat, l: nat)
    requires m <= l
    ensures LowerSum(n, m) <= LowerSum(n, l)
    ensures m < l && m <= n ==> LowerSum(n, m) < LowerSum(n, l)
    decreases l
  {
    if m < l {
      LowerSumGrows(n, m, l - 1);
      ChooseEdges(n, l - 1);
    }
  }

  // ---------- the p-value ----------

  /** Twice the lower tail against the whole row: below it, equal to it, or above it by the middle coefficient. */
  lemma DoubledTail(a: nat, b: nat)
    ensures var twice := 2 * LowerSum(a + b, Smaller(a, b) + 1);
            && (Distance(a, b) >= 2 ==> 0 < twice < Pow2(a + b))
            && (Distance(a, b) == 1 ==> twice == Pow2(a + b))
            && (a == b ==> twice > Pow2(a + b))
  {
    TailAgainstRest(a + b, Smaller(a, b));
  }

  /** The first `t + 1` coefficients of a row against the others. */
  lemma TailAgainstRest(n: nat, t: nat)
    requires 2 * t <= n
    ensures var twice := 2 * LowerSum(n, t + 1);
            && (n - 2 * t >= 2 ==> 0 < twice < Pow2(n))
            && (n - 2 * t == 1 ==> twice == Pow2(n))
            && (n == 2 * t ==> twice > Pow2(n))
  {
    Mirror(n, t + 1);
    LowerSumGrows(n, 0, t + 1);
    if n - 2 * t >= 2 {
      LowerSumGrows(n, t + 1, n - t);
    } else if n == 2 * t {
      LowerSumGrows(n, t, t + 1);
    }
  }

  lemma Fraction(x: nat, y: nat)
    requires y > 0
    ensures x < y <==> x as real / y as real < 1.0
    ensures x == y <==> x as real / y as real == 1.0
    ensures x > 0 ==> x as real / y as real > 0.0
  {}

  /** The value is symmetric, a probability, and 1 exactly when the two counts differ by one at most. */
  lemma PValueRange(a: nat, b: nat)
    ensures ExactMcnemarP(a, b) == ExactMcnemarP(b, a)
    ensures 0.0 < ExactMcnemarP(a, b) <= 1.0
    ensures ExactMcnemarP(a, b) == 1.0 <==> Distance(a, b) <= 1
  {
    DoubledTail(a, b);
    Fraction(2 * LowerSum(a + b, Smaller(a, b) + 1), Pow2(a + b));
  }

  /** The clamp changes the value exactly on a nonempty tie. */
  lemma ClampOnlyOnTies(a: nat, b: nat)
    ensures ExactMcnemarP(a, b) != Doubled(a, b) && a + b > 0 <==> a == b && a > 0
  {
    DoubledTail(a, b);
    Fraction(2 * LowerSum(a + b, Smaller(a, b) + 1), Pow2(a + b));
  }

  /** With the number of discordant pairs fixed, a wider split never gives a larger value. */
  lemma WiderSplitIsRarer(a: nat, b: nat, c: nat, d: nat)
    requires a + b == c + d && Distance(a, b) <= Distance(c, d)
    ensures ExactMcnemarP(c, d) <= ExactMcnemarP(a, b)
    ensures Distance(a, b) < Distance(c, d) && Distance(c, d) >= 2 ==> ExactMcnemarP(c, d) < ExactMcnemarP(a, b)
  {
    var n := a + b;
    LowerSumGrows(n, Smaller(c, d) + 1, Smaller(a, b) + 1);
    PValueRange(a, b);
    PValueRange(c, d);
    Monotone(2 * LowerSum(n, Smaller(c, d) + 1), 2 * LowerSum(n, Smaller(a, b) + 1), Pow2(n));
  }

  lemma Monotone(x: nat, y: nat, d: nat)
    requires d > 0 && x <= y
    ensures x as real / d as real <= y as real / d as real
    ensures x < y ==> (x as real / d as real) < (y as real / d as real)
  {}

  // ---------- an independent reading ----------

  /** The number of ways in which the first `m` outcomes k of n fair coins stray from n / 2 by `d` / 2 or more. */
  function Extreme(n: nat, d: nat, m: nat): nat {
    if m == 0 then 0
    else Extreme(n, d, m - 1) + (if Distance(2 * (m - 1), n) >= d then Choose(n, m - 1) else 0)
  }

  lemma {:induction false} ExtremeIsTwoTails(n: nat, t: nat, m: nat)
    requires 2 * t < n && m <= n + 1
    ensures Extreme(n, n - 2 * t, m)
            == if m <= t + 1 then LowerSum(n, m)
               else if m <= n - t then LowerSum(n, t + 1)
               else LowerSum(n, t + 1) + LowerSum(n, m) - LowerSum(n, n - t)
  {
    if m > 0 {
      ExtremeIsTwoTails(n, t, m - 1);
    }
  }

  lemma {:induction false} EverythingIsExtreme(n: nat, m: nat)
    ensures Extreme(n, 0, m) == LowerSum(n, m)
  {
    if m > 0 {
      EverythingIsExtreme(n, m - 1);
    }
  }

  /** Counting the extreme splits gives the doubled tail, or the whole row on a tie. */
  lemma ExtremeSplits(a: nat, b: nat)
    ensures Extreme(a + b, Distance(a, b), a + b + 1)
            == if a == b then Pow2(a + b) else 2 * LowerSum(a + b, Smaller(a, b) + 1)
  {
    var n, t := a + b, Smaller(a, b);
    FullSum(n);
    if a == b {
      EverythingIsExtreme(n, n + 1);
    } else {
      ExtremeIsTwoTails(n, t, n + 1);
      Mirror(n, t + 1);
      assert Distance(a, b) == n - 2 * t;
    }
  }

  /**
   The value is the exact two-sided binomial probability: among the 2^n equally likely ways to split n
   discordant pairs, the share of those at least as lopsided as the observed split.
   */
  lemma PValueIsTwoSidedProbability(a: nat, b: nat)
    ensures ExactMcnemarP(a, b) == Extreme(a + b, Distance(a, b), a + b + 1) as real / Pow2(a + b) as real
  {
    ExtremeSplits(a, b);
    DoubledTail(a, b);
    Fraction(2 * LowerSum(a + b, Smaller(a, b) + 1), Pow2(a + b));
    Fraction(Pow2(a + b), Pow2(a + b));
  }

  // ---------- the paired table ----------

  /** The outcomes of a pair under one key; None stands for a value that is not a bool. */
  datatype Pair = Pair(control: Option<bool>, treatment: Option<bool>)

  datatype Table = Table(
    pairs: nat, eligible: nat, censored: nat, controlPasses: nat, treatmentPasses: nat,
    bothPass: nat, controlOnly: nat, treatmentOnly: nat, neitherPass: nat)

  datatype PairedCounts = PairedCounts(
    table: Table, controlRate: Option<real>, treatmentRate: Option<real>, difference: Option<real>,
    discordant: nat, mcnemarP: real)

  /** The number of pairs with exactly these two outcomes. */
  function Tally(pairs: seq<Pair>, control: bool, treatment: bool): nat {
    if pairs == [] then 0
    else
      Tally(pairs[..|pairs| - 1], control, treatment)
      + (if pairs[|pairs| - 1] == Pair(Some(control), Some(treatment)) then 1 else 0)
  }

  function Censored(pairs: seq<Pair>): nat {
    if pairs == [] then 0
    else
      Censored(pairs[..|pairs| - 1])
      + (if pairs[|pairs| - 1].control.None? || pairs[|pairs| - 1].treatment.None? then 1 else 0)
  }

  /** The four cells are what they claim to be, and every margin is the sum of its cells. */
  ghost predicate Tabulates(t: Table, pairs: seq<Pair>) {
    && t.pairs == |pairs| && t.censored == Censored(pairs)
    && t.bothPass == Tally(pairs, true, true) && t.controlOnly == Tally(pairs, true, false)
    && t.treatmentOnly == Tally(pairs, false, true) && t.neitherPass == Tally(pairs, false, false)
    && t.eligible == t.bothPass + t.controlOnly + t.treatmentOnly + t.neitherPass
    && t.controlPasses == t.bothPass + t.controlOnly
    && t.treatmentPasses == t.bothPass + t.treatmentOnly
    && t.pairs == t.eligible + t.censored
  }

  /** The loop of `_paired_counts`. */
  method Tabulate(pairs: seq<Pair>) returns (t: Table)
    ensures Tabulates(t, pairs)
  {
    t := Table(0, 0, 0, 0, 0, 0, 0, 0, 0);
    for i := 0 to |pairs|
      invariant Tabulates(t, pairs[..i])
    {
      assert pairs[..i + 1] == pairs[..i] + [pairs[i]];
      OneMorePair(t, pairs[..i], pairs[i]);
      t := t.(pairs := t.pairs + 1);
      if pairs[i].control.None? || pairs[i].treatment.None? {
        t := t.(censored := t.censored + 1);
        continue;
      }
      var control, treatment := pairs[i].control.value, pairs[i].treatment.value;
      t := t.(eligible := t.eligible + 1,
              controlPasses := t.controlPasses + (if control then 1 else 0),
              treatmentPasses := t.treatmentPasses + (if treatment then 1 else 0));
      if control && treatment {
        t := t.(bothPass := t.bothPass + 1);
      } else if control {
        t := t.(controlOnly := t.controlOnly + 1);
      } else if treatment {
        t := t.(treatmentOnly := t.treatmentOnly + 1);
      } else {
        t := t.(neitherPass := t.neitherPass + 1);
      }
    }
    assert pairs[..|pairs|] == pairs;
  }

  lemma OneMorePair(t: Table, pairs: seq<Pair>, p: Pair)
    requires Tabulates(t, pairs)
    ensures Censored(pairs + [p]) == t.censored + (if p.control.None? || p.treatment.None? then 1 else 0)
    ensures Tally(pairs + [p], true, true) == t.bothPass + (if p == Pair(Some(true), Some(true)) then 1 else 0)
    ensures Tally(pairs + [p], true, false) == t.controlOnly + (if p == Pair(Some(true), Some(false)) then 1 else 0)
    ensures Tally(pairs + [p], false, true) == t.treatmentOnly + (if p == Pair(Some(false), Some(true)) then 1 else 0)
    ensures Tally(pairs + [p], false, false) == t.neitherPass + (if p == Pair(Some(false), Some(false)) then 1 else 0)
  {
    assert (pairs + [p])[..|pairs|] == pairs;
  }

  /** `rate` is `count` divided by `total`. */
  predicate IsRate(rate: real, count: int, total: nat) {
    rate * total as real == count as real
  }

  /** `_paired_counts`: the table, the rates, and the same p-value. */
  method CountPairs(pairs: seq<Pair>) returns (r: PairedCounts)
    ensures Tabulates(r.table, pairs)
    ensures r.discordant == r.table.controlOnly + r.table.treatmentOnly
    ensures r.mcnemarP == ExactMcnemarP(r.table.treatmentOnly, r.table.controlOnly)
    ensures r.difference.None? <==> Censored(pairs) == |pairs|
    ensures r.difference.Some? ==>
              && r.controlRate.Some? && r.treatmentRate.Some?
              && r.difference.value == r.treatmentRate.value - r.controlRate.value
              && IsRate(r.controlRate.value, r.table.controlPasses, r.table.eligible)
              && IsRate(r.treatmentRate.value, r.table.treatmentPasses, r.table.eligible)
              && IsRate(r.difference.value, r.table.treatmentOnly - r.table.controlOnly, r.table.eligible)
  {
    var t := Tabulate(pairs);
    var discordant, p := InlinePValue(t.controlOnly, t.treatmentOnly);
    if t.eligible == 0 {
      return PairedCounts(t, None, None, None, discordant, p);
    }
    var control, treatment, difference := Rates(t.controlPasses, t.treatmentPasses, t.eligible);
    return PairedCounts(t, Some(control), Some(treatment), Some(difference), discordant, p);
  }

  /** The second copy of the p-value, written out inside `_paired_counts`. */
  method InlinePValue(controlOnly: nat, treatmentOnly: nat) returns (discordant: nat, p: real)
    ensures discordant == controlOnly + treatmentOnly
    ensures p == ExactMcnemarP(treatmentOnly, controlOnly)
  {
    discordant := controlOnly + treatmentOnly;
    p := 1.0;
    if discordant > 0 {
      var smaller := Smaller(controlOnly, treatmentOnly);
      var tail := 0;
      for k := 0 to smaller + 1
        invariant tail == LowerSum(discordant, k)
      {
        tail := tail + Choose(discordant, k);
      }
      var doubled := (2 * tail) as real / Pow2(discordant) as real;
      assert doubled == Doubled(treatmentOnly, controlOnly);
      p := if doubled < 1.0 then doubled else 1.0;
    }
  }

  method Rates(controlPasses: nat, treatmentPasses: nat, eligible: nat)
    returns (control: real, treatment: real, difference: real)
    requires eligible > 0
    ensures IsRate(control, controlPasses, eligible) && IsRate(treatment, treatmentPasses, eligible)
    ensures difference == treatment - control
    ensures IsRate(difference, treatmentPasses - controlPasses, eligible)
  {
    control := controlPasses as real / eligible as real;
    treatment := treatmentPasses as real / eligible as real;
    difference := (treatmentPasses - controlPasses) as real / eligible as real;
    RatesSubtract(treatmentPasses, controlPasses, eligible);
  }

  lemma RatesSubtract(x: nat, y: nat, n: nat)
    requires n > 0
    ensures (x - y) as real / n as real == x as real / n as real - y as real / n as real
    ensures (x - y) as real / n as real * n as real == (x - y) as real
  {}
}
