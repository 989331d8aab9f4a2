/** `_constraint_progress_metrics`: stretches of observations that report the same nonempty finding set. */
module ProgressRuns {
  import opened Json
  import opened Sorting
  import opened Wrappers

  datatype Observation = Observation(candidate: Value, findings: set<string>)

  datatype Stall = Stall(fromCandidate: Value, toCandidate: Value, findingCount: nat)

  // ---------- reading the verifications ----------

  function SubObject(fields: Fields, name: string): Fields {
    var v := Get(fields, name);
    if v.Object? then v.fields else map[]
  }

  /** The finding set of a verification, when its identifiers are a list of strings. */
  function ReadObservation(verification: Fields): Option<Observation> {
    var details := SubObject(verification, "details");
    var ids := Get(SubObject(details, "verifier_details"), "finding_ids");
    if ids.List? && forall i :: 0 <= i < |ids.items| ==> ids.items[i].Text? then
      Some(Observation(Get(details, "candidate_id"), set i | 0 <= i < |ids.items| && ids.items[i].Text? :: ids.items[i].s))
    else
      None
  }

  /** The verification carries a list of string identifiers, and the observation has exactly those. */
  ghost predicate Observes(verification: Fields, o: Observation) {
    var details := SubObject(verification, "details");
    var ids := Get(SubObject(details, "verifier_details"), "finding_ids");
    && ids.List? && (forall id :: id in ids.items ==> id.Text?)
    && o.candidate == Get(details, "candidate_id")
    && forall s :: s in o.findings <==> Text(s) in ids.items
  }

  /** The observations are those of the verifications at `places`, in order, and no other verification has one. */
  ghost predicate Lists(obs: seq<Observation>, verifications: seq<Fields>, places: seq<nat>) {
    && |places| == |obs|
    && (forall k, l :: 0 <= k < l < |places| ==> places[k] < places[l])
    && (forall k :: 0 <= k < |places| ==> places[k] < |verifications| && Observes(verifications[places[k]], obs[k]))
    && (forall i, o :: 0 <= i < |verifications| && Observes(verifications[i], o) ==> i in places)
  }

  lemma ReadingIsObserving(verification: Fields)
    ensures ReadObservation(verification).Some? ==> Observes(verification, ReadObservation(verification).value)
    ensures forall o :: Observes(verification, o) ==> ReadObservation(verification) == Some(o)
  {
    var ids := Get(SubObject(SubObject(verification, "details"), "verifier_details"), "finding_ids");
    var read := ReadObservation(verification);
    if read.Some? {
      forall s ensures s in read.value.findings <==> Text(s) in ids.items {
        if i :| 0 <= i < |ids.items| && ids.items[i] == Text(s) { assert ids.items[i].Text?; }
      }
      forall o | Observes(verification, o) ensures o.findings == read.value.findings {
        assert forall s :: s in o.findings <==> Text(s) in ids.items;
      }
    }
  }

  // ---------- blocks ----------

  /** Observations `i` to `j - 1` report one and the same nonempty finding set. */
  predicate Block(obs: seq<Observation>, i: int, j: int) {
    0 <= i < j <= |obs| && obs[i].findings != {} && forall k :: i <= k < j ==> obs[k].findings == obs[i].findings
  }

  /** A block that neither its left nor its right neighbour would continue. */
  predicate Maximal(obs: seq<Observation>, i: int, j: int) {
    && Block(obs, i, j)
    && (i > 0 ==> obs[i - 1].findings != obs[i].findings)
    && (j < |obs| ==> obs[j].findings != obs[i].findings)
  }

  predicate Reports(obs: seq<Observation>, i: int) {
    0 <= i < |obs| && obs[i].findings != {}
  }

  /** Observation `i` repeats the nonempty finding set of the one before. */
  predicate Repeats(obs: seq<Observation>, i: int) {
    1 <= i < |obs| && obs[i].findings != {} && obs[i].findings == obs[i - 1].findings
  }

  function Reporting(obs: seq<Observation>): set<int> {
    set i | 0 <= i < |obs| && Reports(obs, i)
  }

  function Repeating(obs: seq<Observation>): set<int> {
    set i | 0 <= i < |obs| && Repeats(obs, i)
  }

  function MaximalBlocks(obs: seq<Observation>): set<(int, int)> {
    set i, j | 0 <= i < |obs| && 0 <= j <= |obs| && Maximal(obs, i, j) :: (i, j)
  }

  /** `n` is the length of a longest block, or 0 when there is none. */
  ghost predicate IsLongest(obs: seq<Observation>, n: nat) {
    && (n > 0 ==> exists i, j :: Block(obs, i, j) && j - i == n)
    && forall i, j :: Block(obs, i, j) ==> j - i <= n
  }

  // ---------- the counts ----------

  /** Where a block that starts at `i` ends. */
  function EndOf(obs: seq<Observation>, i: nat, j: nat): (end: nat)
    requires i < j <= |obs|
    ensures j <= end <= |obs|
    ensures forall k :: j <= k < end ==> obs[k].findings == obs[i].findings
    ensures end < |obs| ==> obs[end].findings != obs[i].findings
    decreases |obs| - j
  {
    if j < |obs| && obs[j].findings == obs[i].findings then EndOf(obs, i, j + 1) else j
  }

  /** Two maximal blocks with the same start are the same block. */
  lemma StartDeterminesBlock(obs: seq<Observation>, i: int, j: int, k: int)
    requires Maximal(obs, i, j) && Maximal(obs, i, k)
    ensures j == k
  {
  }

  lemma {:induction false} ProjectionSize<A, B>(pairs: set<(A, B)>, firsts: set<A>)
    requires forall p, q :: p in pairs && q in pairs && p.0 == q.0 ==> p == q
    requires forall a :: a in firsts <==> exists p :: p in pairs && p.0 == a
    ensures |pairs| == |firsts|
    decreases |pairs|
  {
    if pairs == {} {
      assert firsts == {};
    } else {
      var p :| p in pairs;
      assert p.0 in firsts;
      forall a ensures a in firsts - {p.0} <==> exists q :: q in pairs - {p} && q.0 == a {
      }
      ProjectionSize(pairs - {p}, firsts - {p.0});
    }
  }

  /** Every reporting observation either starts one maximal block or repeats its predecessor, never both. */
  lemma BlocksAndRepeatsAddUp(obs: seq<Observation>)
    ensures |Repeating(obs)| + |MaximalBlocks(obs)| == |Reporting(obs)|
  {
    var starts := Reporting(obs) - Repeating(obs);
    forall i ensures i in starts <==> exists p :: p in MaximalBlocks(obs) && p.0 == i {
      if i in starts {
        var end := EndOf(obs, i, i + 1);
        assert Maximal(obs, i, end);
        assert (i, end) in MaximalBlocks(obs);
      }
      if p :| p in MaximalBlocks(obs) && p.0 == i {
        assert Maximal(obs, i, p.1);
      }
    }
    forall p, q | p in MaximalBlocks(obs) && q in MaximalBlocks(obs) && p.0 == q.0 ensures p == q {
      StartDeterminesBlock(obs, p.0, p.1, q.1);
    }
    ProjectionSize(MaximalBlocks(obs), starts);
    assert Reporting(obs) == starts + Repeating(obs);
  }

  lemma {:induction false} IntervalSize(lo: int, hi: int, within: set<int>)
    requires lo <= hi && forall k :: lo <= k < hi ==> k in within
    ensures hi - lo <= |within|
    decreases hi - lo
  {
    if lo < hi {
      IntervalSize(lo + 1, hi, within - {lo});
    }
  }

  /** A run of length n takes n - 1 repeats, so it is at most one longer than the number of stalls. */
  lemma LongestIsBounded(obs: seq<Observation>, longest: nat)
    requires IsLongest(obs, longest)
    ensures longest <= |Repeating(obs)| + 1
    ensures longest == 0 <==> Reporting(obs) == {}
    ensures longest <= 1 <==> Repeating(obs) == {}
  {
    if longest > 0 {
      var i, j :| Block(obs, i, j) && j - i == longest;
      assert i in Reporting(obs);
      forall k | i + 1 <= k < j ensures k in Repeating(obs) {
      }
      IntervalSize(i + 1, j, Repeating(obs));
    }
    if i :| i in Reporting(obs) {
      assert Block(obs, i, i + 1);
    }
    if i :| i in Repeating(obs) {
      assert Block(obs, i - 1, i + 1);
    }
  }

  // ---------- the loops ----------

  /** The records of the stalls among the first `n` observations, in order. */
  function Stalls(obs: seq<Observation>, n: nat): seq<Stall>
    requires n <= |obs|
  {
    if n == 0 then []
    else if Repeats(obs, n - 1) then
      Stalls(obs, n - 1) + [Stall(obs[n - 2].candidate, obs[n - 1].candidate, |obs[n - 1].findings|)]
    else Stalls(obs, n - 1)
  }

  function RepeatingBefore(obs: seq<Observation>, n: nat): set<int> {
    set i | 0 <= i < n && Repeats(obs, i)
  }

  lemma RepeatingStep(obs: seq<Observation>, n: nat)
    ensures RepeatingBefore(obs, n + 1) == if Repeats(obs, n) then RepeatingBefore(obs, n) + {n} else RepeatingBefore(obs, n)
  {}

  lemma {:induction false} StallsCountRepeats(obs: seq<Observation>, n: nat)
    requires n <= |obs|
    ensures |Stalls(obs, n)| == |RepeatingBefore(obs, n)|
  {
    if n > 0 {
      StallsCountRepeats(obs, n - 1);
      RepeatingStep(obs, n - 1);
    }
  }

  method CollectObservations(verifications: seq<Fields>) returns (obs: seq<Observation>)
    ensures exists places :: Lists(obs, verifications, places)
  {
    obs := [];
    ghost var places: seq<nat> := [];
    for i := 0 to |verifications|
      invariant Lists(obs, verifications[..i], places)
    {
      ReadingIsObserving(verifications[i]);
      var next := ReadObservation(verifications[i]);
      if next.None? {
        continue;
      }
      ghost var before := places;
      obs, places := obs + [next.value], places + [i];
      assert places[|before|] == i;
    }
    assert verifications[..|verifications|] == verifications;
  }

  /** The verifications determine the list. */
  lemma {:induction false} ObservationsAreDetermined(verifications: seq<Fields>, obs: seq<Observation>, places: seq<nat>,
                                                     others: seq<Observation>, otherPlaces: seq<nat>)
    requires Lists(obs, verifications, places) && Lists(others, verifications, otherPlaces)
    ensures obs == others
  {
    forall i ensures i in places <==> i in otherPlaces {
      if k :| 0 <= k < |places| && places[k] == i { assert Observes(verifications[i], obs[k]); }
      if k :| 0 <= k < |otherPlaces| && otherPlaces[k] == i { assert Observes(verifications[i], others[k]); }
    }
    AscendingIsUnique(places, otherPlaces, (a: nat, b: nat) => a <= b);
    forall k | 0 <= k < |obs| ensures obs[k] == others[k] {
      ReadingIsObserving(verifications[places[k]]);
    }
  }

  method CollectStalls(obs: seq<Observation>) returns (stalls: seq<Stall>)
    ensures stalls == Stalls(obs, |obs|)
    ensures |stalls| == |Repeating(obs)|
  {
    stalls := [];
    var i := 1;
    while i < |obs|
      invariant 1 <= i && (i <= |obs| || obs == [])
      invariant stalls == if obs == [] then [] else Stalls(obs, i)
    {
      var previous, current := obs[i - 1], obs[i];
      if current.findings != {} && current.findings == previous.findings {
        stalls := stalls + [Stall(previous.candidate, current.candidate, |current.findings|)];
      }
      i := i + 1;
    }
    StallsCountRepeats(obs, |obs|);
    assert RepeatingBefore(obs, |obs|) == Repeating(obs);
  }

  /** The loop over `longest_run` and `current_run`. */
  method LongestRun(obs: seq<Observation>) returns (longest: nat)
    ensures IsLongest(obs, longest)
  {
    longest := 0;
    var current: nat := 0;
    var previous: Option<set<string>> := None;
    for i := 0 to |obs|
      invariant previous == if i == 0 then None else Some(obs[i - 1].findings)
      invariant current <= i && current <= longest
      invariant current > 0 ==> Block(obs, i - current, i)
      invariant forall k :: Block(obs, k, i) ==> i - k <= current
      invariant longest > 0 ==> exists k, j :: Block(obs, k, j) && j - k == longest && j <= i
      invariant forall k, j :: Block(obs, k, j) && j <= i ==> j - k <= longest
    {
      var findings := obs[i].findings;
      if findings == {} {
        current := 0;
      } else if previous == Some(findings) {
        assert Block(obs, i - 1, i);
        current := current + 1;
      } else {
        current := 1;
      }
      var next := i + 1;
      forall k | Block(obs, k, next) ensures next - k <= current {
        if k < i { assert Block(obs, k, i); }
      }
      longest := if longest < current then current else longest;
      previous := Some(findings);
      if current > 0 {
        assert Block(obs, next - current, next);
      }
    }
  }
}
