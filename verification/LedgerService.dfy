/** `CompatibilityLedgerService.check`: every way in which a probe can end, and what it does to the ledger. */
module LedgerService {
  import opened Json
  import opened Wrappers
  import opened DeltaHistory
  import opened CompatibilityLedger
  import opened ProjectionTransfer

  /** What the container and the state auditor answer during one call; all of it is arbitrary. */
  datatype Probe = Probe(
    reply: Option<Reply>,                    // the structured result of the probe command
    receipt: Option<(nat, string)>,          // the size and digest found in its output
    inlineProjection: Option<Fields>,        // the projection found in its output
    slices: nat -> Option<Reply>,            // the replies to the slice requests
    sha256: string -> string,
    decode: string -> Option<Fields>,
    audit: StateAudit)

  datatype StateAudit = StateValid | StateInvalid | AuditRaised

  datatype CheckError = UnicodeEncodeError | ReportTypeError

  /** What a raising check leaves in the ledger: the transfer raises before the ledger counts, the ledger after. */
  function CountedBy(error: CheckError): seq<Evidence> {
    if error.ReportTypeError? then [Unusable] else []
  }

  class CompatibilityLedgerService {
    const ledger: CompatibilityDeltaLedger
    const auditing: bool
    var stateAuditCount: nat
    var stateAuditRejectionCount: nat

    constructor (ledger: CompatibilityDeltaLedger, auditing: bool)
      ensures this.ledger == ledger && this.auditing == auditing
      ensures stateAuditCount == 0 && stateAuditRejectionCount == 0
    {
      this.ledger := ledger;
      this.auditing := auditing;
      stateAuditCount, stateAuditRejectionCount := 0, 0;
    }

    /**
     Every call that returns advances the ledger by one observation, and so does one that raises inside the ledger;
     a rejected state is never evidence.
     */
    method Check(probe: Probe) returns (r: Result<Report, CheckError>)
      requires ledger.Valid()
      modifies this, ledger
      ensures ledger.Valid()
      ensures r.Ok? ==> |ledger.history| == |old(ledger.history)| + 1 && old(ledger.history) <= ledger.history
      ensures r.Ok? && r.value.Unknown? ==> ledger.history == old(ledger.history) + [Unusable]
      ensures r.Ok? && r.value.Reading? ==>
                && ledger.history == old(ledger.history) + [Complete(r.value.current, r.value.environment)]
                && Describes(r.value, old(ledger.history), r.value.environment)
                && probe.reply.Some? && !probe.reply.value.infrastructureError && !probe.reply.value.timedOut
      ensures r.Err? ==> ledger.history == old(ledger.history) + CountedBy(r.error)
      ensures auditing && !probe.audit.StateValid? ==>
                && ledger.frontier == old(ledger.frontier) && ledger.previous == old(ledger.previous)
                && ledger.completeCount == old(ledger.completeCount)
      ensures stateAuditRejectionCount - old(stateAuditRejectionCount)
              == if probe.audit.StateValid? then 0 else stateAuditCount - old(stateAuditCount)
      ensures !auditing ==> stateAuditCount == old(stateAuditCount)
    {
      if probe.reply.None? {
        var u := ledger.ObserveUnknown(NoStructuredResult);
        return Ok(u);
      }
      if probe.reply.value.infrastructureError {
        var u := ledger.ObserveUnknown(BridgeFailure);
        return Ok(u);
      }
      if probe.reply.value.timedOut {
        var u := ledger.ObserveUnknown(ProbeTimedOut);
        return Ok(u);
      }
      var projection := None;
      if probe.reply.value.output.Some? {
        if probe.receipt.Some? {
          var transfer, _ := ReadProjection(probe.receipt.value.0, probe.receipt.value.1, probe.slices, probe.sha256);
          match transfer {
            case Raised => return Err(UnicodeEncodeError);
            case Rejected =>
            case Delivered(encoded) => projection := probe.decode(encoded);
          }
        } else {
          projection := probe.inlineProjection;
        }
      }
      if projection.None? {
        var u := ledger.ObserveUnknown(NoValidProjection);
        return Ok(u);
      }
      r := CheckProjection(projection.value, probe.audit);
    }

    /** `check` from the point where a projection has been decoded. */
    method CheckProjection(projection: Fields, audit: StateAudit) returns (r: Result<Report, CheckError>)
      requires ledger.Valid()
      modifies this, ledger
      ensures ledger.Valid()
      ensures r.Ok? ==> |ledger.history| == |old(ledger.history)| + 1 && old(ledger.history) <= ledger.history
      ensures r.Ok? && r.value.Unknown? ==> ledger.history == old(ledger.history) + [Unusable]
      ensures r.Ok? && r.value.Reading? ==>
                && ledger.history == old(ledger.history) + [Complete(r.value.current, r.value.environment)]
                && Describes(r.value, old(ledger.history), r.value.environment)
                && PyEq(Get(projection, "goal_exit_code"), Integer(0))
      ensures r.Err? ==> r.error.ReportTypeError? && ledger.history == old(ledger.history) + [Unusable]
      ensures auditing && !audit.StateValid? ==>
                && ledger.frontier == old(ledger.frontier) && ledger.previous == old(ledger.previous)
                && ledger.completeCount == old(ledger.completeCount)
      ensures stateAuditRejectionCount - old(stateAuditRejectionCount)
              == if audit.StateValid? then 0 else stateAuditCount - old(stateAuditCount)
      ensures !auditing ==> stateAuditCount == old(stateAuditCount)
    {
      var reportValue := Get(projection, "report");
      var environmentValue := Get(projection, "environment");
      if !reportValue.Object? || !environmentValue.Object? {
        var u := ledger.ObserveUnknown(IncompleteProjection);
        return Ok(u);
      }
      var report := reportValue.fields;
      if !PyEq(Get(projection, "goal_exit_code"), Integer(0)) {
        report := report["status" := Text("unknown")]["finding_set_complete" := Bool(false)];
      }
      if auditing {
        stateAuditCount := stateAuditCount + 1;
        if !audit.StateValid? {
          stateAuditRejectionCount := stateAuditRejectionCount + 1;
          var u := ledger.ObserveUnknown(if audit.AuditRaised? then StateAuditFailed else StateChangesSemantics);
          return Ok(u);
        }
      }
      var observed := ledger.Observe(report, environmentValue.fields);
      if observed.Err? {
        return Err(ReportTypeError);
      }
      return Ok(observed.value);
    }
  }
}
