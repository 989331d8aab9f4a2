/** The object `ScheduledCompatibilityObserver`, proved against the steps of ObservationSchedule. */
module ScheduledObserver {
  import opened Wrappers
  import DeltaHistory
  import opened CompatibilityLedger
  import opened LedgerService
  import opened ObservationSchedule

  datatype ScheduleMetadata = ScheduleMetadata(
    cadence: nat, shellCount: nat, replayRequests: nat, expectedPeriodic: nat, preReplayRequired: nat,
    observationCount: nat, completeCount: nat, scheduleCompliant: bool)

  datatype ObserverError = CadenceNotPositive | AlreadyExecuted | CheckFailed(error: CheckError)

  function Counted(counts: map<Trigger, nat>, t: Trigger): nat {
    if t in counts then counts[t] else 0
  }

  /** The counters that have moved when the observation of a shell call begins. */
  function ShellCounted(s: State): State {
    s.(shellCount := s.shellCount + 1, dirty := true)
  }

  /** The counters that have moved when the observation before a replay begins. */
  function ReplayCounted(s: State): State {
    s.(replayRequests := s.replayRequests + 1, preReplayRequired := s.preReplayRequired + 1)
  }

  /** The state when a check has raised: at most the ledger has counted. */
  function Disturbed(s: State, error: CheckError): State {
    s.(ledgerCount := s.ledgerCount + |CountedBy(error)|)
  }

  class ScheduledCompatibilityObserver {
    const service: CompatibilityLedgerService
    const cadence: nat
    var shellOperationsCompleted: nat
    var replayRequests: nat
    var preReplayObservationsRequired: nat
    var constructionDirty: bool
    var triggerCounts: map<Trigger, nat>
    var observations: seq<Record>

    ghost predicate Valid()
      reads this, service, service.ledger
    {
      && cadence > 0
      && service.ledger.Valid()
      && CountsTriggers()
    }

    ghost predicate CountsTriggers()
      reads this`triggerCounts, this`observations
    {
      forall t :: Counted(triggerCounts, t) == TriggerCount(observations, t)
    }

    /** The abstract state. */
    ghost function View(): State
      reads this, service, service.ledger
    {
      State(cadence, shellOperationsCompleted, replayRequests, preReplayObservationsRequired,
            constructionDirty, observations, service.ledger.observationCount)
    }

    constructor (service: CompatibilityLedgerService, cadence: nat)
      requires cadence > 0 && service.ledger.Valid()
      ensures Valid() && this.service == service
      ensures View() == Start(cadence).(ledgerCount := service.ledger.observationCount)
    {
      this.service := service;
      this.cadence := cadence;
      shellOperationsCompleted, replayRequests, preReplayObservationsRequired := 0, 0, 0;
      constructionDirty := false;
      triggerCounts := map[];
      observations := [];
    }

    /** One check of the service, as far as the observer sees it. */
    method Check(probe: Probe) returns (r: Result<Report, CheckError>)
      requires service.ledger.Valid()
      modifies service, service.ledger
      ensures service.ledger.Valid()
      ensures service.ledger.observationCount
              == old(service.ledger.observationCount) + (if r.Ok? then 1 else |CountedBy(r.error)|)
    {
      r := service.Check(probe);
    }

    /** `_observe`: when the check raises, nothing of the observer has changed. */
    method Observe(trigger: Trigger, probe: Probe) returns (r: Result<Record, CheckError>)
      requires Valid()
      modifies this`observations, this`triggerCounts, this`constructionDirty, service, service.ledger
      ensures Valid()
      ensures r.Ok? ==> View() == ObservationSchedule.Observe(old(View()), trigger, r.value.result)
      ensures r.Ok? ==> observations == old(observations) + [r.value]
      ensures r.Err? ==> View() == Disturbed(old(View()), r.error)
    {
      var number := |observations| + 1;
      var result := Check(probe);
      if result.Err? {
        return Err(result.error);
      }
      var record := Record(number, trigger, shellOperationsCompleted, result.value);
      Append(record);
      return Ok(record);
    }

    /** What `_observe` does with the record. */
    method Append(record: Record)
      requires CountsTriggers()
      modifies this`observations, this`triggerCounts, this`constructionDirty
      ensures CountsTriggers()
      ensures observations == old(observations) + [record] && !constructionDirty
    {
      AppendedRecord(observations, record);
      triggerCounts := triggerCounts[record.trigger := Counted(triggerCounts, record.trigger) + 1];
      observations := observations + [record];
      constructionDirty := false;
    }

    method ObserveInitial(probe: Probe) returns (r: Result<Record, ObserverError>)
      requires Valid()
      modifies this, service, service.ledger
      ensures Valid()
      ensures r == Err(AlreadyExecuted) <==> TriggerCount(old(observations), InitialTrigger) > 0
      ensures r == Err(AlreadyExecuted) ==> View() == old(View())
      ensures r.Ok? ==> View() == ObservationSchedule.Observe(old(View()), InitialTrigger, r.value.result)
      ensures r.Err? && r.error.CheckFailed? ==> View() == Disturbed(old(View()), r.error.error)
    {
      if Counted(triggerCounts, InitialTrigger) > 0 {
        return Err(AlreadyExecuted);
      }
      var observed := Observe(InitialTrigger, probe);
      r := match observed case Ok(record) => Ok(record) case Err(error) => Err(CheckFailed(error));
    }

    method AfterShellOperation(probe: Probe) returns (r: Result<Option<Record>, CheckError>)
      requires Valid()
      modifies this, service, service.ledger
      ensures Valid()
      ensures r == Ok(None) ==> forall result ::
                View() == AfterShell(old(View()), result) && observations == old(observations)
      ensures r.Ok? && r.value.Some? ==>
                && View() == AfterShell(old(View()), r.value.value.result)
                && observations == old(observations) + [r.value.value]
      ensures r.Err? ==>
                && (old(shellOperationsCompleted) + 1) % cadence == 0
                && View() == Disturbed(ShellCounted(old(View())), r.error)
    {
      shellOperationsCompleted := shellOperationsCompleted + 1;
      constructionDirty := true;
      if shellOperationsCompleted % cadence == 0 {
        r := ObserveSome(Periodic, probe);
      } else {
        r := Ok(None);
      }
    }

    method BeforeReplayRequest(probe: Probe) returns (r: Result<Option<Record>, CheckError>)
      requires Valid()
      modifies this, service, service.ledger
      ensures Valid()
      ensures r == Ok(None) ==> forall result ::
                View() == BeforeReplay(old(View()), result) && observations == old(observations)
      ensures r.Ok? && r.value.Some? ==>
                && View() == BeforeReplay(old(View()), r.value.value.result)
                && observations == old(observations) + [r.value.value]
      ensures r.Err? ==>
                && old(View()).dirty
                && View() == Disturbed(ReplayCounted(old(View())), r.error)
    {
      replayRequests := replayRequests + 1;
      if !constructionDirty {
        return Ok(None);
      }
      preReplayObservationsRequired := preReplayObservationsRequired + 1;
      r := ObserveSome(PreReplayDirty, probe);
    }

    /** An observation that is due. */
    method ObserveSome(trigger: Trigger, probe: Probe) returns (r: Result<Option<Record>, CheckError>)
      requires Valid()
      modifies this`observations, this`triggerCounts, this`constructionDirty, service, service.ledger
      ensures Valid()
      ensures r.Ok? ==>
                && r.value.Some?
                && View() == ObservationSchedule.Observe(old(View()), trigger, r.value.value.result)
                && observations == old(observations) + [r.value.value]
      ensures r.Err? ==> View() == Disturbed(old(View()), r.error)
    {
      var observed := Observe(trigger, probe);
      r := match observed case Ok(record) => Ok(Some(record)) case Err(error) => Err(error);
    }

    method ReadMetadata() returns (m: ScheduleMetadata)
      requires Valid()
      ensures m.scheduleCompliant <==> Compliant(View())
      ensures m.cadence == cadence && m.shellCount == shellOperationsCompleted
      ensures m.observationCount == View().ledgerCount
      ensures m.completeCount <= m.observationCount
      ensures m.expectedPeriodic == shellOperationsCompleted / cadence
    {
      var ledger := service.ledger.ReadMetadata();
      CompleteIsBounded(service.ledger.history);
      var expected := shellOperationsCompleted / cadence;
      var compliant :=
        && Counted(triggerCounts, InitialTrigger) == 1
        && Counted(triggerCounts, Periodic) == expected
        && Counted(triggerCounts, PreReplayDirty) == preReplayObservationsRequired
        && ledger.observationCount == |observations|;
      m := ScheduleMetadata(cadence, shellOperationsCompleted, replayRequests, expected, preReplayObservationsRequired,
                    ledger.observationCount, ledger.completeCount, compliant);
    }
  }

  /** Constructing an observer raises exactly when the cadence is not positive. */
  method NewObserver(service: CompatibilityLedgerService, cadence: int)
    returns (r: Result<ScheduledCompatibilityObserver, ObserverError>)
    requires service.ledger.Valid()
    ensures r.Ok? <==> cadence > 0
    ensures r.Ok? ==> fresh(r.value) && r.value.Valid() && r.value.service == service
    ensures r.Ok? ==> r.value.View() == Start(cadence).(ledgerCount := service.ledger.observationCount)
  {
    if cadence <= 0 {
      return Err(CadenceNotPositive);
    }
    var observer := new ScheduledCompatibilityObserver(service, cadence);
    return Ok(observer);
  }

  lemma {:induction false} CompleteIsBounded(h: seq<DeltaHistory.Evidence>)
    ensures |DeltaHistory.CompleteSets(h)| <= |h|
  {
    if h != [] {
      CompleteIsBounded(h[..|h| - 1]);
    }
  }
}
