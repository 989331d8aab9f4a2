/** `build_paired_schedule`: two episodes for each bad case, one for each arm. */
module PairedSchedule {
  import opened Json
  import opened Wrappers

  /** The two arms; the runner and the method of an episode are fixed labels of its arm. */
  datatype Arm = Observation | Handoff

  datatype Episode = Episode(
    position: nat, pairIndex: nat, pairId: string, pairPosition: nat, caseId: string, arm: Arm, seed: nat, runId: string)

  /** What identifiers are built from: `str` on a JSON value, the slug of a case, the labels and the two prefixes. */
  datatype Naming = Naming(text: Value -> string, slug: string -> string, labels: Arm -> string,
                           pairPrefix: string, runPrefix: string)

  /** The prefixes and labels that the repository uses. */
  function RepositoryNaming(text: Value -> string, slug: string -> string): Naming {
    Naming(text, slug, (arm: Arm) => if arm == Observation then "S-OBS" else "H-VH",
           "verifier-handoff-screen-", "pro-v2-handoff-v1-paired-")
  }

  datatype ScheduleError = NoBadCases

  // ---------- formatting ----------

  function Digit(d: nat): char
    requires d < 10
  {
    ('0' as int + d) as char
  }

  function Decimal(n: nat): string {
    if n < 10 then [Digit(n)] else Decimal(n / 10) + [Digit(n % 10)]
  }

  /** The format `02d`. */
  function TwoDigits(n: nat): string {
    if n < 10 then "0" + Decimal(n) else Decimal(n)
  }

  function PairId(naming: Naming, pairIndex: nat, caseId: string): string {
    naming.pairPrefix + TwoDigits(pairIndex) + "-" + naming.slug(caseId)
  }

  function RunId(naming: Naming, position: nat, caseId: string, arm: Arm): string {
    naming.runPrefix + TwoDigits(position) + "-" + (naming.slug(caseId) + "-" + naming.labels(arm))
  }

  function ReadDecimal(s: string): int {
    if s == [] then 0 else 10 * ReadDecimal(s[..|s| - 1]) + (s[|s| - 1] as int - '0' as int)
  }

  lemma {:induction false} DecimalIsRead(n: nat)
    ensures ReadDecimal(Decimal(n)) == n
    ensures forall c :: c in Decimal(n) ==> '0' <= c <= '9'
  {
    if n >= 10 {
      DecimalIsRead(n / 10);
      assert Decimal(n)[..|Decimal(n)| - 1] == Decimal(n / 10);
    }
  }

  /** Padding does not confuse numbers, and a number never contains the separator. */
  lemma TwoDigitsAreRead(n: nat)
    ensures ReadDecimal(TwoDigits(n)) == n
    ensures '-' !in TwoDigits(n)
  {
    DecimalIsRead(n);
    if n < 10 {
      assert TwoDigits(n)[..1] == "0";
      assert ReadDecimal("0") == 0;
    }
  }

  lemma UpToSeparator(prefix: string, a: string, x: string, b: string, y: string)
    requires '-' !in a && '-' !in b
    requires prefix + a + "-" + x == prefix + b + "-" + y
    ensures a == b
  {
    var left, right := prefix + a + "-" + x, prefix + b + "-" + y;
    assert left[|prefix|..] == a + "-" + x && right[|prefix|..] == b + "-" + y;
    var s, t := a + "-" + x, b + "-" + y;
    assert s == t;
    SeparatorAt(a, x);
    SeparatorAt(b, y);
    assert s[..|a|] == a && t[..|b|] == b;
  }

  /** The first separator stands right behind a part that has none. */
  lemma SeparatorAt(a: string, x: string)
    requires '-' !in a
    ensures var s := a + "-" + x;
            s[|a|] == '-' && forall i :: 0 <= i < |a| ==> s[i] != '-'
  {
    var s := a + "-" + x;
    forall i | 0 <= i < |a| ensures s[i] != '-' { assert s[i] == a[i] && a[i] in a; }
  }

  /** Whatever the slugs, labels and prefixes are, identifiers of different positions differ, and so do those of pairs. */
  lemma IdentifiersAreInjective(naming: Naming, i: nat, j: nat, c: string, d: string, arm: Arm, other: Arm)
    ensures RunId(naming, i, c, arm) == RunId(naming, j, d, other) ==> i == j
    ensures PairId(naming, i, c) == PairId(naming, j, d) ==> i == j
  {
    TwoDigitsAreRead(i);
    TwoDigitsAreRead(j);
    if RunId(naming, i, c, arm) == RunId(naming, j, d, other) {
      UpToSeparator(naming.runPrefix, TwoDigits(i), naming.slug(c) + "-" + naming.labels(arm),
                    TwoDigits(j), naming.slug(d) + "-" + naming.labels(other));
    }
    if PairId(naming, i, c) == PairId(naming, j, d) {
      UpToSeparator(naming.pairPrefix, TwoDigits(i), naming.slug(c), TwoDigits(j), naming.slug(d));
    }
  }

  // ---------- the schedule ----------

  /** Odd pairs observe first, even pairs hand off first. */
  function ArmAt(pairIndex: nat, pairPosition: nat): Arm {
    if (pairIndex % 2 == 1) == (pairPosition == 1) then Observation else Handoff
  }

  /** `e` is the episode of a case at one of its two positions. */
  predicate Runs(e: Episode, naming: Naming, caseId: string, pairIndex: nat, pairPosition: nat) {
    && pairIndex >= 1 && 1 <= pairPosition <= 2
    && e.position == 2 * (pairIndex - 1) + pairPosition
    && e.pairIndex == pairIndex && e.pairPosition == pairPosition && e.caseId == caseId
    && e.pairId == PairId(naming, pairIndex, caseId)
    && e.arm == ArmAt(pairIndex, pairPosition)
    && e.seed == 650000 + pairIndex
    && e.runId == RunId(naming, e.position, caseId, e.arm)
  }

  /** The episodes are those of the cases, two by two. */
  ghost predicate Schedules(episodes: seq<Episode>, naming: Naming, cases: seq<string>) {
    && |episodes| == 2 * |cases|
    && forall k :: 0 <= k < |episodes| ==> Runs(episodes[k], naming, cases[k / 2], k / 2 + 1, k % 2 + 1)
  }

  function Texts(items: seq<Value>, naming: Naming): seq<string> {
    seq(|items|, i requires 0 <= i < |items| => naming.text(items[i]))
  }

  method Build(badCases: Value, naming: Naming) returns (schedule: Result<seq<Episode>, ScheduleError>)
    ensures schedule.Err? <==> !badCases.List? || badCases.items == []
    ensures schedule.Ok? ==> Schedules(schedule.value, naming, Texts(badCases.items, naming))
  {
    if !badCases.List? || badCases.items == [] {
      return Err(NoBadCases);
    }
    ghost var cases := Texts(badCases.items, naming);
    var episodes: seq<Episode> := [];
    var position: nat := 0;
    for i := 0 to |badCases.items|
      invariant position == 2 * i && |episodes| == position
      invariant forall k :: 0 <= k < |episodes| ==> Runs(episodes[k], naming, cases[k / 2], k / 2 + 1, k % 2 + 1)
    {
      var pairIndex := i + 1;
      var caseId := naming.text(badCases.items[i]);
      var arms := [Observation, Handoff];
      if pairIndex % 2 == 0 {
        arms := [arms[1], arms[0]];
      }
      for j := 0 to 2
        invariant position == 2 * i + j && |episodes| == position
        invariant forall k :: 0 <= k < |episodes| ==> Runs(episodes[k], naming, cases[k / 2], k / 2 + 1, k % 2 + 1)
      {
        position := position + 1;
        var episode := Episode(position, pairIndex, PairId(naming, pairIndex, caseId), j + 1, caseId, arms[j],
                               650000 + pairIndex, RunId(naming, position, caseId, arms[j]));
        assert Runs(episode, naming, caseId, pairIndex, j + 1);
        episodes := episodes + [episode];
      }
    }
    return Ok(episodes);
  }

  // ---------- what every schedule satisfies ----------

  /** Positions count from 1, and a run identifier names one episode. */
  lemma PositionsAndRunIds(episodes: seq<Episode>, naming: Naming, cases: seq<string>, k: nat, l: nat)
    requires Schedules(episodes, naming, cases) && k < |episodes| && l < |episodes|
    ensures episodes[k].position == k + 1
    ensures episodes[k].runId == episodes[l].runId <==> k == l
  {
    var e, f := episodes[k], episodes[l];
    assert Runs(e, naming, cases[k / 2], k / 2 + 1, k % 2 + 1) && Runs(f, naming, cases[l / 2], l / 2 + 1, l % 2 + 1);
    IdentifiersAreInjective(naming, e.position, f.position, e.caseId, f.caseId, e.arm, f.arm);
  }

  /** Two episodes of one pair share case, seed and pair identifier and take different arms; pairs share nothing. */
  lemma PairsShare(episodes: seq<Episode>, naming: Naming, cases: seq<string>, k: nat, l: nat)
    requires Schedules(episodes, naming, cases) && k < |episodes| && l < |episodes|
    ensures episodes[k].pairIndex == episodes[l].pairIndex <==> episodes[k].seed == episodes[l].seed
    ensures episodes[k].pairIndex == episodes[l].pairIndex <==> episodes[k].pairId == episodes[l].pairId
    ensures episodes[k].pairIndex == episodes[l].pairIndex ==> episodes[k].caseId == episodes[l].caseId
    ensures episodes[k].pairIndex == episodes[l].pairIndex && episodes[k].arm == episodes[l].arm ==> k == l
  {
    var e, f := episodes[k], episodes[l];
    assert Runs(e, naming, cases[k / 2], k / 2 + 1, k % 2 + 1) && Runs(f, naming, cases[l / 2], l / 2 + 1, l % 2 + 1);
    IdentifiersAreInjective(naming, e.pairIndex, f.pairIndex, e.caseId, f.caseId, e.arm, f.arm);
  }

  /** Where the episode of a pair and an arm stands. */
  function PlaceOf(pairIndex: nat, arm: Arm): nat
    requires pairIndex >= 1
  {
    2 * (pairIndex - 1) + (if arm == ArmAt(pairIndex, 1) then 0 else 1)
  }

  /** Every pair from 1 to the number of cases runs both arms, and there is no other pair. */
  lemma BothArmsOncePerPair(episodes: seq<Episode>, naming: Naming, cases: seq<string>)
    requires Schedules(episodes, naming, cases)
    ensures forall k :: 0 <= k < |episodes| ==> 1 <= episodes[k].pairIndex <= |cases|
    ensures forall p, arm :: 1 <= p <= |cases| ==>
              0 <= PlaceOf(p, arm) < |episodes| && episodes[PlaceOf(p, arm)].pairIndex == p
              && episodes[PlaceOf(p, arm)].arm == arm
  {
    forall p, arm | 1 <= p <= |cases|
      ensures 0 <= PlaceOf(p, arm) < |episodes| && episodes[PlaceOf(p, arm)].pairIndex == p
              && episodes[PlaceOf(p, arm)].arm == arm
    {
      var k := PlaceOf(p, arm);
      assert k / 2 == p - 1;
      assert Runs(episodes[k], naming, cases[k / 2], k / 2 + 1, k % 2 + 1);
    }
  }

  /** How many of the first `n` episodes open their pair with `arm`. */
  function Openings(episodes: seq<Episode>, arm: Arm, n: nat): nat
    requires n <= |episodes|
  {
    if n == 0 then 0
    else if episodes[n - 1].pairPosition == 1 && episodes[n - 1].arm == arm then Openings(episodes, arm, n - 1) + 1
    else Openings(episodes, arm, n - 1)
  }

  /** The two episodes of pair `m`: only the first opens it, with the arm that the parity says. */
  predicate OpensWith(episodes: seq<Episode>, m: nat)
    requires 1 <= m && 2 * m <= |episodes|
  {
    && episodes[2 * m - 2].pairPosition == 1 && episodes[2 * m - 1].pairPosition == 2
    && episodes[2 * m - 2].arm == if m % 2 == 1 then Observation else Handoff
  }

  lemma PairOpensAndCloses(episodes: seq<Episode>, naming: Naming, cases: seq<string>, m: nat)
    requires Schedules(episodes, naming, cases) && 1 <= m <= |cases|
    ensures OpensWith(episodes, m)
  {
    var first, second := 2 * m - 2, 2 * m - 1;
    assert first / 2 == m - 1 && first % 2 == 0 && second / 2 == m - 1 && second % 2 == 1;
    assert Runs(episodes[first], naming, cases[m - 1], m, 1);
    assert Runs(episodes[second], naming, cases[m - 1], m, 2);
  }

  lemma OpeningsStep(episodes: seq<Episode>, arm: Arm, m: nat)
    requires 1 <= m && 2 * m <= |episodes| && OpensWith(episodes, m)
    ensures Openings(episodes, arm, 2 * m)
         == Openings(episodes, arm, 2 * (m - 1)) + (if arm == (if m % 2 == 1 then Observation else Handoff) then 1 else 0)
  {
    assert Openings(episodes, arm, 2 * m) == Openings(episodes, arm, 2 * m - 1);
  }

  lemma {:induction false} OpeningsUpTo(episodes: seq<Episode>, m: nat)
    requires 2 * m <= |episodes| && forall k :: 1 <= k <= m ==> OpensWith(episodes, k)
    ensures Openings(episodes, Observation, 2 * m) == (m + 1) / 2
    ensures Openings(episodes, Handoff, 2 * m) == m / 2
  {
    if m > 0 {
      OpeningsUpTo(episodes, m - 1);
      OpeningsStep(episodes, Observation, m);
      OpeningsStep(episodes, Handoff, m);
    }
  }

  /** The arms open equally many pairs, give or take one. */
  lemma OpeningsAlternate(episodes: seq<Episode>, naming: Naming, cases: seq<string>)
    requires Schedules(episodes, naming, cases)
    ensures Openings(episodes, Observation, |episodes|) == (|cases| + 1) / 2
    ensures Openings(episodes, Handoff, |episodes|) == |cases| / 2
  {
    forall k | 1 <= k <= |cases| ensures OpensWith(episodes, k) {
      PairOpensAndCloses(episodes, naming, cases, k);
    }
    OpeningsUpTo(episodes, |cases|);
  }
}
