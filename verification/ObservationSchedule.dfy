/** The state of `ScheduledCompatibilityObserver` as a value, its steps, and what every run of them keeps. */
module ObservationSchedule {
  import opened CompatibilityLedger

  datatype Trigger = InitialTrigger | Periodic | PreReplayDirty

  datatype Record = Record(number: nat, trigger: Trigger, shellCount: nat, result: Report)

  datatype State = State(
    cadence: nat,
    shellCount: nat,          // shell_operations_completed
    replayRequests: nat,
    preReplayRequired: nat,
    dirty: bool,              // construction_dirty
    records: seq<Record>,     // observations
    ledgerCount: nat)         // the ledger's own observation_count

  function Start(cadence: nat): State {
    State(cadence, 0, 0, 0, false, [], 0)
  }

  /** `_observe` once the service has returned `result`. */
  function Observe(s: State, trigger: Trigger, result: Report): State {
    s.(records := s.records + [Record(|s.records| + 1, trigger, s.shellCount, result)],
       dirty := false,
       ledgerCount := s.ledgerCount + 1)
  }

  function AfterShell(s: State, result: Report): State
    requires s.cadence > 0
  {
    var counted := s.(shellCount := s.shellCount + 1, dirty := true);
    if counted.shellCount % s.cadence == 0 then Observe(counted, Periodic, result) else counted
  }

  function BeforeReplay(s: State, result: Report): State {
    var counted := s.(replayRequests := s.replayRequests + 1);
    if !s.dirty then counted
    else Observe(counted.(preReplayRequired := s.preReplayRequired + 1), PreReplayDirty, result)
  }

  /** A check of the ledger that does not go through the observer. */
  function OutsideCheck(s: State): State {
    s.(ledgerCount := s.ledgerCount + 1)
  }

  function TriggerCount(records: seq<Record>, t: Trigger): nat {
    if records == [] then 0
    else TriggerCount(records[..|records| - 1], t) + (if records[|records| - 1].trigger == t then 1 else 0)
  }

  /** The shell counts at which periodic observations were made. */
  function PeriodicPositions(records: seq<Record>): seq<nat> {
    if records == [] then []
    else
      PeriodicPositions(records[..|records| - 1])
      + (if records[|records| - 1].trigger == Periodic then [records[|records| - 1].shellCount] else [])
  }

  /** `metadata()["schedule_compliant"]`. */
  predicate Compliant(s: State)
    requires s.cadence > 0
  {
    && TriggerCount(s.records, InitialTrigger) == 1
    && TriggerCount(s.records, Periodic) == s.shellCount / s.cadence
    && TriggerCount(s.records, PreReplayDirty) == s.preReplayRequired
    && s.ledgerCount == |s.records|
  }

  // ---------- runs ----------

  datatype Step = ShellStep(result: Report) | ReplayStep(result: Report) | OutsideStep

  function Apply(s: State, step: Step): State
    requires s.cadence > 0
    ensures Apply(s, step).cadence == s.cadence
  {
    match step
    case ShellStep(result) => AfterShell(s, result)
    case ReplayStep(result) => BeforeReplay(s, result)
    case OutsideStep => OutsideCheck(s)
  }

  /** One initial observation followed by the steps. */
  function Run(cadence: nat, initial: Report, steps: seq<Step>): (s: State)
    requires cadence > 0
    ensures s.cadence == cadence
  {
    if steps == [] then Observe(Start(cadence), InitialTrigger, initial)
    else Apply(Run(cadence, initial, steps[..|steps| - 1]), steps[|steps| - 1])
  }

  function OutsideChecks(steps: seq<Step>): nat {
    if steps == [] then 0
    else OutsideChecks(steps[..|steps| - 1]) + (if steps[|steps| - 1].OutsideStep? then 1 else 0)
  }

  /** What every reachable state satisfies. */
  ghost predicate Scheduled(s: State) {
    && s.cadence > 0
    && Ordered(s)
    && TriggerCount(s.records, PreReplayDirty) == s.preReplayRequired
    && Periodically(s.records, s.shellCount, s.cadence)
  }

  /** Numbered from one, the initial record first, shell counts never falling, growing before a dirty replay. */
  ghost predicate InOrder(records: seq<Record>) {
    && |records| > 0
    && records[0].shellCount == 0
    && TriggerCount(records, InitialTrigger) == 1
    && (forall i :: 0 <= i < |records| ==>
          records[i].number == i + 1 && (records[i].trigger == InitialTrigger <==> i == 0))
    && (forall i, j :: 0 <= i < |records| && j == i + 1 < |records| ==> Follows(records[i], records[j]))
  }

  predicate Follows(before: Record, after: Record) {
    && before.shellCount <= after.shellCount
    && (after.trigger == PreReplayDirty ==> before.shellCount < after.shellCount)
  }

  /** The records are in order, and the dirty flag compares the last of them with the shell count. */
  ghost predicate Ordered(s: State) {
    && InOrder(s.records)
    && s.records[|s.records| - 1].shellCount <= s.shellCount
    && (s.dirty <==> s.records[|s.records| - 1].shellCount < s.shellCount)
  }

  /** The periodic observations stand at the multiples of the cadence, at all of them up to the shell count. */
  ghost predicate Periodically(records: seq<Record>, shellCount: nat, cadence: nat)
    requires cadence > 0
  {
    && |PeriodicPositions(records)| == TriggerCount(records, Periodic) == shellCount / cadence
    && forall k :: 0 <= k < |PeriodicPositions(records)| ==> PeriodicPositions(records)[k] == (k + 1) * cadence
  }

  lemma {:induction false} AppendedRecord(records: seq<Record>, r: Record)
    ensures forall t :: TriggerCount(records + [r], t) == TriggerCount(records, t) + (if r.trigger == t then 1 else 0)
    ensures PeriodicPositions(records + [r])
            == PeriodicPositions(records) + (if r.trigger == Periodic then [r.shellCount] else [])
  {
    assert (records + [r])[..|records|] == records;
  }

  /** Counting one more operation moves the quotient exactly when the count becomes a multiple. */
  lemma NextMultiple(n: nat, c: nat)
    requires c > 0
    ensures (n + 1) / c == n / c + (if (n + 1) % c == 0 then 1 else 0)
    ensures (n + 1) % c == 0 ==> n + 1 == (n / c + 1) * c
  {
    var q, r := n / c, n % c;
    assert n == q * c + r;
    if r + 1 == c {
      Quotient(n + 1, q + 1, 0, c);
    } else {
      Quotient(n + 1, q, r + 1, c);
    }
  }

  lemma Quotient(n: nat, q: nat, r: nat, c: nat)
    requires r < c && n == q * c + r
    ensures n / c == q && n % c == r
  {
    var q', r' := n / c, n % c;
    assert n == q' * c + r';
    SameQuotient(q, r, q', r', c);
  }

  lemma SameQuotient(q: int, r: nat, q': int, r': nat, c: nat)
    requires r < c && r' < c && q * c + r == q' * c + r'
    ensures q == q' && r == r'
  {
    if q > q' {
      NextMultipleIsFar(q, q', c);
    } else if q < q' {
      NextMultipleIsFar(q', q, c);
    }
  }

  lemma NextMultipleIsFar(q: int, q': int, c: nat)
    requires q > q'
    ensures q * c >= q' * c + c
  {
    var d := q - q' - 1;
    assert d * c >= 0;
    assert q * c == (d + q' + 1) * c == d * c + q' * c + c;
  }

  lemma PeriodicallyAdvances(records: seq<Record>, shellCount: nat, cadence: nat, r: Record)
    requires cadence > 0 && Periodically(records, shellCount, cadence)
    requires r.trigger == Periodic && r.shellCount == shellCount + 1
    ensures Periodically(if (shellCount + 1) % cadence == 0 then records + [r] else records, shellCount + 1, cadence)
  {
    NextMultiple(shellCount, cadence);
    AppendedRecord(records, r);
  }

  lemma AppendKeepsOrder(records: seq<Record>, r: Record)
    requires InOrder(records) && r.number == |records| + 1 && r.trigger != InitialTrigger
    requires records[|records| - 1].shellCount <= r.shellCount
    requires r.trigger == PreReplayDirty ==> records[|records| - 1].shellCount < r.shellCount
    ensures InOrder(records + [r])
  {
    AppendedRecord(records, r);
  }

  lemma AfterShellKeeps(s: State, result: Report)
    requires Scheduled(s)
    ensures Scheduled(AfterShell(s, result))
  {
    var r := Record(|s.records| + 1, Periodic, s.shellCount + 1, result);
    PeriodicallyAdvances(s.records, s.shellCount, s.cadence, r);
    AppendedRecord(s.records, r);
    AppendKeepsOrder(s.records, r);
  }

  lemma BeforeReplayKeeps(s: State, result: Report)
    requires Scheduled(s)
    ensures Scheduled(BeforeReplay(s, result))
  {
    if s.dirty {
      var r := Record(|s.records| + 1, PreReplayDirty, s.shellCount, result);
      AppendedRecord(s.records, r);
      AppendKeepsOrder(s.records, r);
    }
  }

  lemma ApplyKeeps(s: State, step: Step)
    requires Scheduled(s)
    ensures Scheduled(Apply(s, step))
    ensures Apply(s, step).ledgerCount - |Apply(s, step).records|
            == s.ledgerCount - |s.records| + (if step.OutsideStep? then 1 else 0)
  {
    match step {
      case ShellStep(result) => AfterShellKeeps(s, result);
      case ReplayStep(result) => BeforeReplayKeeps(s, result);
      case OutsideStep =>
    }
  }

  lemma StartIsScheduled(cadence: nat, initial: Report)
    requires cadence > 0
    ensures Scheduled(Observe(Start(cadence), InitialTrigger, initial))
  {
    AppendedRecord([], Record(1, InitialTrigger, 0, initial));
    Quotient(0, 0, 0, cadence);
  }

  /** The invariant holds in every reachable state; the ledger counts the observer's observations and the outside checks. */
  lemma {:induction false} RunIsScheduled(cadence: nat, initial: Report, steps: seq<Step>)
    requires cadence > 0
    ensures Scheduled(Run(cadence, initial, steps))
    ensures Run(cadence, initial, steps).ledgerCount == |Run(cadence, initial, steps).records| + OutsideChecks(steps)
  {
    if steps == [] {
      StartIsScheduled(cadence, initial);
    } else {
      var n := |steps| - 1;
      RunIsScheduled(cadence, initial, steps[..n]);
      var s := Run(cadence, initial, steps[..n]);
      ApplyKeeps(s, steps[n]);
    }
  }

  /** A run reports itself compliant exactly when nobody else used the ledger. */
  lemma ComplianceOfRuns(cadence: nat, initial: Report, steps: seq<Step>)
    requires cadence > 0
    ensures Compliant(Run(cadence, initial, steps)) <==> OutsideChecks(steps) == 0
  {
    RunIsScheduled(cadence, initial, steps);
  }
}
