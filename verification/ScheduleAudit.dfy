/**
 `_scheduled_mechanism`: the offline checker that re-derives the observation schedule from an episode's
 event trace. Each error code is given its meaning as a predicate on the trace, and the checker is
 proved to report exactly the codes whose meaning holds.
 */
module ScheduleAudit {
  import opened Json
  import opened Wrappers
  import opened ObservationSchedule

  const FROZEN_CADENCE := 16

  datatype Tool = ShellTool | ReplayTool | CompatibilityTool | HypothesisTool | OtherTool

  /**
   A line of the trajectory. Identifiers and observation numbers are JSON values, null when absent; for the other
   fields None stands for a value that is absent or not of the expected type.
   */
  datatype Event =
    | Observation(requestIndex: Option<int>, number: Value, trigger: Option<Trigger>,
                  shellCount: Option<int>, sameSession: bool, parent: Value)
    | ToolResult(callId: Value, tool: Tool, delivered: Value)
    | Provider
    | Note

  /** The `scheduled_observation` metadata of an episode. */
  datatype EpisodeMetadata = EpisodeMetadata(
    compliant: bool, cadence: Option<int>, observationCount: Option<int>,
    noConstraints: bool, noCheckpoint: bool)

  datatype Error =
    | InitialCountMismatch
    | InitialNotFirst
    | PeriodicScheduleMismatch
    | FeedbackDeliveryMismatch
    | ParentResultMismatch
    | NotAttachedToParent
    | ShellCountMissing
    | PreReplayWithoutDirty
    | PreReplayParentMissing
    | DirtyReplayWithoutObservation
    | PreReplayTriggerMismatch
    | MetadataNoncompliant
    | MetadataCadenceMismatch
    | MetadataCountMismatch
    | OptionalToolCalled
    | ConstraintsAdded
    | CheckpointStored

  // ---------- reading a trace ----------

  predicate IsInitial(e: Event) {
    e.Observation? && e.trigger == Some(InitialTrigger)
  }

  predicate IsPreReplay(e: Event) {
    e.Observation? && e.trigger == Some(PreReplayDirty)
  }

  predicate IsResultOf(e: Event, parent: Value) {
    e.ToolResult? && PyEq(e.callId, parent)
  }

  /** A pre-replay observation that names `parent` as the call it belongs to. */
  predicate IsPreReplayOf(e: Event, parent: Value) {
    IsPreReplay(e) && PyEq(e.parent, parent)
  }

  /** The number of results of a tool among the first `n` events. */
  function ToolCount(events: seq<Event>, n: nat, tool: Tool): nat
    requires n <= |events|
  {
    if n == 0 then 0
    else ToolCount(events, n - 1, tool) + (if events[n - 1].ToolResult? && events[n - 1].tool == tool then 1 else 0)
  }

  function ObservationCount(events: seq<Event>, n: nat): nat
    requires n <= |events|
  {
    if n == 0 then 0 else ObservationCount(events, n - 1) + (if events[n - 1].Observation? then 1 else 0)
  }

  /** The shell counts of the periodic observations among the first `n` events. */
  function PeriodicCounts(events: seq<Event>, n: nat): seq<Option<int>>
    requires n <= |events|
  {
    if n == 0 then []
    else
      PeriodicCounts(events, n - 1)
      + (if events[n - 1].Observation? && events[n - 1].trigger == Some(Periodic) then [events[n - 1].shellCount] else [])
  }

  /** `list(range(16, shell_count + 1, 16))`. */
  function ExpectedCounts(shellCount: nat): seq<Option<int>> {
    seq(shellCount / FROZEN_CADENCE, k => Some((k + 1) * FROZEN_CADENCE))
  }

  /** The last integral shell count observed among the first `n` events, or -1. */
  function LastCount(events: seq<Event>, n: nat): int
    requires n <= |events|
  {
    if n == 0 then -1
    else if events[n - 1].Observation? && events[n - 1].shellCount.Some? then events[n - 1].shellCount.value
    else LastCount(events, n - 1)
  }

  /** The shell count field of the latest of the observations among the first `n` events. */
  function LatestField(events: seq<Event>, n: nat): Option<int>
    requires n <= |events|
  {
    if n == 0 then None
    else if events[n - 1].Observation? then events[n - 1].shellCount
    else LatestField(events, n - 1)
  }

  /** As LastCount, but passing over the pre-replay observations of the call `parent`. */
  function LastForeignCount(events: seq<Event>, n: nat, parent: Value): int
    requires n <= |events|
  {
    if n == 0 then -1
    else if events[n - 1].Observation? && !IsPreReplayOf(events[n - 1], parent) && events[n - 1].shellCount.Some?
    then events[n - 1].shellCount.value
    else LastForeignCount(events, n - 1, parent)
  }

  function OwnPreReplays(events: seq<Event>, n: nat, parent: Value): nat
    requires n <= |events|
  {
    if n == 0 then 0
    else OwnPreReplays(events, n - 1, parent) + (if IsPreReplayOf(events[n - 1], parent) then 1 else 0)
  }

  // ---------- what each error code means ----------

  /** `j` is the one result, after the observation `i`, of the call that the observation belongs to. */
  ghost predicate SoleResult(events: seq<Event>, i: int, j: int)
    requires 0 <= i < |events| && events[i].Observation?
  {
    && i < j < |events| && IsResultOf(events[j], events[i].parent)
    && forall k :: i < k < |events| && IsResultOf(events[k], events[i].parent) ==> k == j
  }

  predicate CalledFor(events: seq<Event>, i: int) {
    0 <= i < |events| && events[i].Observation? && !IsInitial(events[i])
  }

  ghost predicate Unmatched(events: seq<Event>, i: int) {
    CalledFor(events, i) && forall j :: !SoleResult(events, i, j)
  }

  predicate WrongReplayCount(events: seq<Event>, i: int) {
    && 0 <= i < |events| && events[i].ToolResult? && events[i].tool == ReplayTool
    && LatestField(events, i) != Some(ToolCount(events, i, ShellTool))
  }

  predicate WrongReplayTrigger(events: seq<Event>, i: int) {
    && 0 <= i < |events| && events[i].ToolResult? && events[i].tool == ReplayTool
    && (ToolCount(events, i, ShellTool) > LastForeignCount(events, i, events[i].callId)) != (OwnPreReplays(events, i, events[i].callId) == 1)
  }

  predicate WithoutDirty(events: seq<Event>, i: int) {
    && 0 <= i < |events| && IsPreReplay(events[i])
    && events[i].shellCount.Some? && events[i].shellCount.value <= LastCount(events, i)
  }

  ghost predicate OneInitial(events: seq<Event>, i: int) {
    && 0 <= i < |events| && IsInitial(events[i])
    && forall j :: 0 <= j < |events| && IsInitial(events[j]) ==> j == i
  }

  ghost predicate Fails(e: Error, events: seq<Event>, m: EpisodeMetadata) {
    match e
    case InitialCountMismatch => !exists i :: OneInitial(events, i)
    case InitialNotFirst =>
      exists i :: OneInitial(events, i)
                  && (events[i].requestIndex != Some(0) || exists p :: 0 <= p < i && events[p].Provider?)
    case PeriodicScheduleMismatch => PeriodicCounts(events, |events|) != ExpectedCounts(ToolCount(events, |events|, ShellTool))
    case FeedbackDeliveryMismatch => exists i :: 0 <= i < |events| && events[i].Observation? && !events[i].sameSession
    case ParentResultMismatch => exists i :: Unmatched(events, i)
    case NotAttachedToParent =>
      exists i, j :: CalledFor(events, i) && SoleResult(events, i, j) && !PyEq(events[j].delivered, events[i].number)
    case ShellCountMissing => exists i :: 0 <= i < |events| && events[i].Observation? && events[i].shellCount.None?
    case PreReplayWithoutDirty => exists i :: WithoutDirty(events, i)
    case PreReplayParentMissing =>
      exists i :: 0 <= i < |events| && IsPreReplay(events[i]) && events[i].shellCount.Some? && !events[i].parent.Text?
    case DirtyReplayWithoutObservation => exists i :: WrongReplayCount(events, i)
    case PreReplayTriggerMismatch => exists i :: WrongReplayTrigger(events, i)
    case MetadataNoncompliant => !m.compliant
    case MetadataCadenceMismatch => m.cadence != Some(FROZEN_CADENCE)
    case MetadataCountMismatch => m.observationCount != Some(ObservationCount(events, |events|))
    case OptionalToolCalled => ToolCount(events, |events|, CompatibilityTool) > 0
    case ConstraintsAdded => !m.noConstraints
    case CheckpointStored => !m.noCheckpoint
  }

  ghost predicate Accepted(events: seq<Event>, m: EpisodeMetadata) {
    forall e :: !Fails(e, events, m)
  }

  // ---------- the checker ----------

  const INITIAL_ERRORS := {InitialCountMismatch, InitialNotFirst}
  const DELIVERY_ERRORS := {FeedbackDeliveryMismatch, ParentResultMismatch, NotAttachedToParent}
  const ORDER_ERRORS := {ShellCountMissing, PreReplayWithoutDirty, PreReplayParentMissing}
  const REPLAY_ERRORS := {DirtyReplayWithoutObservation, PreReplayTriggerMismatch}
  const COUNT_ERRORS := {PeriodicScheduleMismatch, OptionalToolCalled}
  const METADATA_ERRORS := {MetadataNoncompliant, MetadataCadenceMismatch, MetadataCountMismatch,
                            ConstraintsAdded, CheckpointStored}
  const TOTAL_ERRORS := {PeriodicScheduleMismatch, MetadataNoncompliant, MetadataCadenceMismatch,
                         MetadataCountMismatch, OptionalToolCalled, ConstraintsAdded, CheckpointStored}

  /** `errors` holds exactly those codes of `group` whose meaning holds. */
  ghost predicate Reports(errors: set<Error>, group: set<Error>, events: seq<Event>, m: EpisodeMetadata) {
    errors <= group && forall e :: e in group ==> (e in errors) == Fails(e, events, m)
  }

  /** The single initial observation, before the first model request and with request index 0. */
  method AuditInitial(events: seq<Event>, ghost m: EpisodeMetadata) returns (errors: set<Error>)
    ensures Reports(errors, INITIAL_ERRORS, events, m)
  {
    var initial: seq<nat> := [];
    var firstProvider := |events|;
    for i := 0 to |events|
      invariant forall k :: 0 <= k < |initial| ==> initial[k] < i && IsInitial(events[initial[k]])
      invariant forall k, l :: 0 <= k < l < |initial| ==> initial[k] < initial[l]
      invariant forall j :: 0 <= j < i && IsInitial(events[j]) ==> j in initial
      invariant firstProvider == |events| || (0 <= firstProvider < i && events[firstProvider].Provider?)
      invariant forall p :: 0 <= p < i && events[p].Provider? ==> firstProvider <= p
    {
      if IsInitial(events[i]) {
        initial := initial + [i];
      }
      if events[i].Provider? && firstProvider == |events| {
        firstProvider := i;
      }
    }
    errors := {};
    if |initial| != 1 {
      forall i ensures !OneInitial(events, i) {
        if |initial| > 1 {
          assert IsInitial(events[initial[0]]) && IsInitial(events[initial[1]]);
        } else {
          assert forall j :: 0 <= j < |events| ==> !IsInitial(events[j]);
        }
      }
      errors := {InitialCountMismatch};
    } else {
      assert OneInitial(events, initial[0]);
      assert forall i :: OneInitial(events, i) ==> i == initial[0];
      if initial[0] >= firstProvider || events[initial[0]].requestIndex != Some(0) {
        assert initial[0] >= firstProvider ==> 0 <= firstProvider < initial[0] && events[firstProvider].Provider?;
        errors := {InitialNotFirst};
      }
    }
  }

  /** Feedback delivery, and the one result that each observation must be attached to. */
  method AuditDelivery(events: seq<Event>, ghost m: EpisodeMetadata) returns (errors: set<Error>)
    ensures Reports(errors, DELIVERY_ERRORS, events, m)
  {
    errors := {};
    for i := 0 to |events|
      invariant errors <= DELIVERY_ERRORS
      invariant FeedbackDeliveryMismatch in errors <==> exists k :: 0 <= k < i && events[k].Observation? && !events[k].sameSession
      invariant ParentResultMismatch in errors <==> exists k :: 0 <= k < i && Unmatched(events, k)
      invariant NotAttachedToParent in errors <==>
                exists k, j :: 0 <= k < i && CalledFor(events, k) && SoleResult(events, k, j) && !PyEq(events[j].delivered, events[k].number)
    {
      assert Unmatched(events, i) ==> CalledFor(events, i);
      if !events[i].Observation? {
        continue;
      }
      if !events[i].sameSession {
        errors := errors + {FeedbackDeliveryMismatch};
      }
      if IsInitial(events[i]) {
        continue;
      }
      var result := FindSoleResult(events, i);
      if result.None? {
        errors := errors + {ParentResultMismatch};
        continue;
      }
      assert forall j :: SoleResult(events, i, j) ==> j == result.value;
      if !PyEq(events[result.value].delivered, events[i].number) {
        errors := errors + {NotAttachedToParent};
      }
    }
  }

  /** The list `matching` of the source, reduced to what is asked of it: does it hold exactly one result? */
  method FindSoleResult(events: seq<Event>, i: nat) returns (found: Option<nat>)
    requires i < |events| && events[i].Observation?
    ensures found.Some? ==> SoleResult(events, i, found.value)
    ensures found.None? ==> forall j :: !SoleResult(events, i, j)
  {
    var first: Option<nat> := None;
    for k := i + 1 to |events|
      invariant first.None? ==> forall j :: i < j < k ==> !IsResultOf(events[j], events[i].parent)
      invariant first.Some? ==>
                  && i < first.value < k && IsResultOf(events[first.value], events[i].parent)
                  && forall j :: i < j < k && IsResultOf(events[j], events[i].parent) ==> j == first.value
    {
      if IsResultOf(events[k], events[i].parent) {
        if first.Some? {
          return None;
        }
        first := Some(k);
      }
    }
    found := first;
  }

  /** Looking up the parent of a pre-replay observation in a dictionary raises on an unhashable one. */
  predicate RaisesAt(events: seq<Event>, i: int) {
    && 0 <= i < |events| && IsPreReplay(events[i])
    && events[i].shellCount.Some? && !Hashable(events[i].parent)
  }

  predicate CheckRaises(events: seq<Event>) {
    exists i :: 0 <= i < |events| && RaisesAt(events, i)
  }

  /** The pass that walks the observations with `previous_observation_shell_count`; None stands for the TypeError. */
  method AuditOrder(events: seq<Event>, ghost m: EpisodeMetadata) returns (result: Option<set<Error>>)
    ensures result.None? <==> CheckRaises(events)
    ensures result.Some? ==> Reports(result.value, ORDER_ERRORS, events, m)
  {
    var errors: set<Error> := {};
    var previous := -1;
    for i := 0 to |events|
      invariant forall k :: 0 <= k < i ==> !RaisesAt(events, k)
      invariant previous == LastCount(events, i)
      invariant errors <= ORDER_ERRORS
      invariant ShellCountMissing in errors
           <==> exists k :: 0 <= k < i && events[k].Observation? && events[k].shellCount.None?
      invariant PreReplayWithoutDirty in errors <==> exists k :: 0 <= k < i && WithoutDirty(events, k)
      invariant PreReplayParentMissing in errors
           <==> exists k :: 0 <= k < i && IsPreReplay(events[k]) && events[k].shellCount.Some? && !events[k].parent.Text?
    {
      assert WithoutDirty(events, i) ==> IsPreReplay(events[i]);
      if !events[i].Observation? {
        continue;
      }
      if events[i].shellCount.None? {
        errors := errors + {ShellCountMissing};
        continue;
      }
      if IsPreReplay(events[i]) {
        if events[i].shellCount.value <= previous {
          errors := errors + {PreReplayWithoutDirty};
        }
        if !Hashable(events[i].parent) {
          assert RaisesAt(events, i);
          return None;
        }
        if !events[i].parent.Text? {
          errors := errors + {PreReplayParentMissing};
        }
      }
      previous := events[i].shellCount.value;
    }
    return Some(errors);
  }

  /** The pass over the replay results; its list comprehensions are the counting functions above. */
  method AuditReplays(events: seq<Event>, ghost m: EpisodeMetadata) returns (errors: set<Error>)
    ensures Reports(errors, REPLAY_ERRORS, events, m)
  {
    errors := {};
    for i := 0 to |events|
      invariant errors <= REPLAY_ERRORS
      invariant DirtyReplayWithoutObservation in errors <==> exists k :: 0 <= k < i && WrongReplayCount(events, k)
      invariant PreReplayTriggerMismatch in errors <==> exists k :: 0 <= k < i && WrongReplayTrigger(events, k)
    {
      assert WrongReplayCount(events, i) ==> events[i].ToolResult?;
      assert WrongReplayTrigger(events, i) ==> events[i].ToolResult?;
      if !(events[i].ToolResult? && events[i].tool == ReplayTool) {
        continue;
      }
      var shellBefore, latest, foreign, own := ScanBefore(events, i, events[i].callId);
      if latest != Some(shellBefore) {
        errors := errors + {DirtyReplayWithoutObservation};
      }
      if (shellBefore > foreign) != (own == 1) {
        errors := errors + {PreReplayTriggerMismatch};
      }
    }
  }

  method ScanBefore(events: seq<Event>, n: nat, parent: Value)
    returns (shellBefore: nat, latest: Option<int>, foreign: int, own: nat)
    requires n <= |events|
    ensures shellBefore == ToolCount(events, n, ShellTool) && latest == LatestField(events, n)
    ensures foreign == LastForeignCount(events, n, parent) && own == OwnPreReplays(events, n, parent)
  {
    shellBefore, latest, foreign, own := 0, None, -1, 0;
    for i := 0 to n
      invariant shellBefore == ToolCount(events, i, ShellTool) && latest == LatestField(events, i)
      invariant foreign == LastForeignCount(events, i, parent) && own == OwnPreReplays(events, i, parent)
    {
      var e := events[i];
      if e.ToolResult? && e.tool == ShellTool {
        shellBefore := shellBefore + 1;
      }
      if e.Observation? {
        latest := e.shellCount;
        if IsPreReplayOf(e, parent) {
          own := own + 1;
        } else if e.shellCount.Some? {
          foreign := e.shellCount.value;
        }
      }
    }
  }

  /** The totals that the periodic rule and the metadata rules compare. */
  method ReadTotals(events: seq<Event>)
    returns (shells: nat, optional: nat, observations: nat, periodic: seq<Option<int>>)
    ensures shells == ToolCount(events, |events|, ShellTool) && optional == ToolCount(events, |events|, CompatibilityTool)
    ensures observations == ObservationCount(events, |events|) && periodic == PeriodicCounts(events, |events|)
  {
    shells, optional, observations, periodic := 0, 0, 0, [];
    for i := 0 to |events|
      invariant shells == ToolCount(events, i, ShellTool) && optional == ToolCount(events, i, CompatibilityTool)
      invariant observations == ObservationCount(events, i) && periodic == PeriodicCounts(events, i)
    {
      var e := events[i];
      if e.ToolResult? && e.tool == ShellTool {
        shells := shells + 1;
      }
      if e.ToolResult? && e.tool == CompatibilityTool {
        optional := optional + 1;
      }
      if e.Observation? {
        observations := observations + 1;
        if e.trigger == Some(Periodic) {
          periodic := periodic + [e.shellCount];
        }
      }
    }
  }

  ghost predicate Grouped(e: Error) {
    e in INITIAL_ERRORS + DELIVERY_ERRORS + ORDER_ERRORS + REPLAY_ERRORS + TOTAL_ERRORS
  }

  lemma EveryErrorIsGrouped()
    ensures forall e :: Grouped(e)
    ensures INITIAL_ERRORS !! DELIVERY_ERRORS !! ORDER_ERRORS !! REPLAY_ERRORS !! TOTAL_ERRORS
  {
    forall e ensures Grouped(e) {
      match e
      case InitialCountMismatch => case InitialNotFirst => case PeriodicScheduleMismatch =>
      case FeedbackDeliveryMismatch => case ParentResultMismatch => case NotAttachedToParent =>
      case ShellCountMissing => case PreReplayWithoutDirty => case PreReplayParentMissing =>
      case DirtyReplayWithoutObservation => case PreReplayTriggerMismatch => case MetadataNoncompliant =>
      case MetadataCadenceMismatch => case MetadataCountMismatch => case OptionalToolCalled =>
      case ConstraintsAdded => case CheckpointStored =>
    }
  }

  /** Five groups reported exactly are all errors reported exactly. */
  lemma ReportsUnite(a: set<Error>, b: set<Error>, c: set<Error>, d: set<Error>, f: set<Error>,
                     events: seq<Event>, m: EpisodeMetadata)
    requires Reports(a, INITIAL_ERRORS, events, m) && Reports(b, DELIVERY_ERRORS, events, m) && Reports(c, ORDER_ERRORS, events, m)
    requires Reports(d, REPLAY_ERRORS, events, m) && Reports(f, TOTAL_ERRORS, events, m)
    ensures forall e :: (e in a + b + c + d + f) == Fails(e, events, m)
  {
    EveryErrorIsGrouped();
    forall e ensures (e in a + b + c + d + f) == Fails(e, events, m) {
      assert Grouped(e);
      if e in INITIAL_ERRORS {
        InOneGroup(e, a, INITIAL_ERRORS, b + c + d + f, events, m);
      } else if e in DELIVERY_ERRORS {
        InOneGroup(e, b, DELIVERY_ERRORS, a + c + d + f, events, m);
      } else if e in ORDER_ERRORS {
        InOneGroup(e, c, ORDER_ERRORS, a + b + d + f, events, m);
      } else if e in REPLAY_ERRORS {
        InOneGroup(e, d, REPLAY_ERRORS, a + b + c + f, events, m);
      } else {
        InOneGroup(e, f, TOTAL_ERRORS, a + b + c + d, events, m);
      }
    }
  }

  lemma NoErrorMeansAccepted(errors: set<Error>, events: seq<Event>, m: EpisodeMetadata)
    requires forall e :: (e in errors) == Fails(e, events, m)
    ensures (errors == {}) == Accepted(events, m)
  {
    if errors != {} {
      var e :| e in errors;
      assert Fails(e, events, m);
    } else {
      forall e ensures !Fails(e, events, m) { assert e !in errors; }
    }
  }

  lemma InOneGroup(e: Error, errors: set<Error>, group: set<Error>, others: set<Error>, events: seq<Event>, m: EpisodeMetadata)
    requires Reports(errors, group, events, m) && e in group && e !in others
    ensures (e in errors + others) == Fails(e, events, m)
  {}

  /** `_scheduled_mechanism`: it reports exactly the errors that hold of the trace, and accepts when none does. */
  method ScheduledMechanism(events: seq<Event>, m: EpisodeMetadata) returns (compliant: bool, result: Option<set<Error>>)
    ensures result.None? <==> CheckRaises(events)
    ensures result.Some? ==> forall e :: (e in result.value) == Fails(e, events, m)
    ensures compliant == (!CheckRaises(events) && Accepted(events, m))
  {
    var initialErrors := AuditInitial(events, m);
    var shells, optional, observations, periodic := ReadTotals(events);
    var deliveryErrors := AuditDelivery(events, m);
    var order := AuditOrder(events, m);
    if order.None? {
      return false, None;
    }
    var replayErrors := AuditReplays(events, m);
    var totalErrors := AuditTotals(shells, optional, observations, periodic, events, m);
    var errors := initialErrors + deliveryErrors + order.value + replayErrors + totalErrors;
    ReportsUnite(initialErrors, deliveryErrors, order.value, replayErrors, totalErrors, events, m);
    NoErrorMeansAccepted(errors, events, m);
    return errors == {}, Some(errors);
  }

  method AuditTotals(shells: nat, optional: nat, observations: nat, periodic: seq<Option<int>>,
                     ghost events: seq<Event>, m: EpisodeMetadata)
    returns (errors: set<Error>)
    requires shells == ToolCount(events, |events|, ShellTool) && optional == ToolCount(events, |events|, CompatibilityTool)
    requires observations == ObservationCount(events, |events|) && periodic == PeriodicCounts(events, |events|)
    ensures Reports(errors, TOTAL_ERRORS, events, m)
  {
    var countErrors := AuditCounts(shells, optional, periodic, events, m);
    var metadataErrors := AuditMetadata(observations, events, m);
    errors := countErrors + metadataErrors;
    TotalsUnite(countErrors, metadataErrors, events, m);
  }

  method AuditCounts(shells: nat, optional: nat, periodic: seq<Option<int>>, ghost events: seq<Event>, ghost m: EpisodeMetadata)
    returns (errors: set<Error>)
    requires shells == ToolCount(events, |events|, ShellTool) && optional == ToolCount(events, |events|, CompatibilityTool)
    requires periodic == PeriodicCounts(events, |events|)
    ensures Reports(errors, COUNT_ERRORS, events, m)
  {
    errors := {};
    if periodic != ExpectedCounts(shells) { errors := errors + {PeriodicScheduleMismatch}; }
    if optional > 0 { errors := errors + {OptionalToolCalled}; }
  }

  method AuditMetadata(observations: nat, ghost events: seq<Event>, m: EpisodeMetadata) returns (errors: set<Error>)
    requires observations == ObservationCount(events, |events|)
    ensures Reports(errors, METADATA_ERRORS, events, m)
  {
    errors := {};
    if !m.compliant { errors := errors + {MetadataNoncompliant}; }
    if m.cadence != Some(FROZEN_CADENCE) { errors := errors + {MetadataCadenceMismatch}; }
    if m.observationCount != Some(observations) { errors := errors + {MetadataCountMismatch}; }
    if !m.noConstraints { errors := errors + {ConstraintsAdded}; }
    if !m.noCheckpoint { errors := errors + {CheckpointStored}; }
  }

  lemma TotalsUnite(a: set<Error>, b: set<Error>, events: seq<Event>, m: EpisodeMetadata)
    requires Reports(a, COUNT_ERRORS, events, m) && Reports(b, METADATA_ERRORS, events, m)
    ensures Reports(a + b, TOTAL_ERRORS, events, m)
  {
    assert TOTAL_ERRORS == COUNT_ERRORS + METADATA_ERRORS;
    assert COUNT_ERRORS !! METADATA_ERRORS;
  }
}
