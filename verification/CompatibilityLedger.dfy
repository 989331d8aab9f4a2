/** The ledger object of `compatibility_ledger.py`, proved against the history it has been shown. */
module CompatibilityLedger {
  import opened Json
  import opened Wrappers
  import opened Obligations
  import opened DeltaHistory

  datatype Reason =
    | InvalidSchema
    | InvalidFinding
    | IncompleteFindings
    | StatusUnknown
    | PassWithObligations
    | FailWithoutObligations
    | NoStructuredResult
    | BridgeFailure
    | ProbeTimedOut
    | NoValidProjection
    | IncompleteProjection
    | StateAuditFailed
    | StateChangesSemantics

  datatype FrontierReport = FrontierReport(changed: bool, dominated: bool, anchors: seq<Anchor>, best: Anchor)

  /** What `observe` and `observe_unknown` return. */
  datatype Report =
    | Reading(index: nat, passing: bool, candidateReady: bool, environment: Fields, current: set<Key>,
              transition: Transition, delta: Delta, frontier: FrontierReport)
    | Unknown(index: nat, reason: Reason)

  datatype PythonError = TypeError

  datatype Metadata = Metadata(observationCount: nat, completeCount: nat, passCount: nat,
                               transitionCounts: map<Transition, nat>, frontierSize: nat, best: Option<Anchor>)

  /** A report that is complete evidence for exactly the obligations `keys`. */
  ghost predicate Usable(schema: string, report: Fields, keys: set<Key>) {
    && Get(report, "schema") == Text(schema)
    && Get(report, "finding_set_complete") == Bool(true)
    && Get(report, "findings").List?
    && (forall i :: 0 <= i < |Get(report, "findings").items| ==> !Malformed(Get(report, "findings").items[i]))
    && DemandedBy(Get(report, "findings").items, keys)
    && Get(report, "status") == Text(if keys == {} then "pass" else "fail")
  }

  /** The one input on which `observe` raises: `status in {...}` with an unhashable status. */
  predicate Raises(schema: string, report: Fields) {
    Get(report, "schema") == Text(schema) && !Hashable(Get(report, "status"))
  }

  function Count(counter: map<Transition, nat>, t: Transition): nat {
    if t in counter then counter[t] else 0
  }

  /** The running tallies agree with the complete sets they were accumulated from. */
  ghost predicate Tallies(sets: seq<set<Key>>, completeCount: nat, passCount: nat,
                          previous: Option<set<Key>>, counter: map<Transition, nat>)
  {
    && completeCount == |sets|
    && passCount == PassCount(sets)
    && previous == (if sets == [] then None else Some(sets[|sets| - 1]))
    && (forall t :: Count(counter, t) == TransitionCount(sets, t))
  }

  lemma TalliesAdvance(sets: seq<set<Key>>, completeCount: nat, passCount: nat, previous: Option<set<Key>>,
                       counter: map<Transition, nat>, current: set<Key>, t: Transition)
    requires Tallies(sets, completeCount, passCount, previous, counter) && Carries(t, sets, current)
    ensures Tallies(sets + [current], completeCount + 1, passCount + (if current == {} then 1 else 0),
                    Some(current), counter[t := Count(counter, t) + 1])
  {
    forall u { AppendedSet(sets, current, u); }
  }

  /** The classification of a step by comparing the current set with the previous one. */
  method ClassifyStep(previous: Option<set<Key>>, current: set<Key>, ghost sets: seq<set<Key>>)
    returns (transition: Transition)
    requires previous == (if sets == [] then None else Some(sets[|sets| - 1]))
    ensures Carries(transition, sets, current)
  {
    if previous.None? {
      transition := Initial;
    } else if current == previous.value {
      transition := Stagnant;
    } else if current < previous.value {
      transition := Improved;
    } else if previous.value < current {
      transition := Regressed;
    } else {
      transition := Mixed;
    }
  }

  /** `min` over a nonempty frontier with the key (size, index). */
  method BestAnchor(frontier: seq<Anchor>) returns (best: Anchor)
    requires frontier != []
    ensures best in frontier
    ensures forall a :: a in frontier ==> NoWorse(best, a)
  {
    best := frontier[0];
    for i := 1 to |frontier|
      invariant best in frontier
      invariant forall j :: 0 <= j < i ==> NoWorse(best, frontier[j])
    {
      if !NoWorse(best, frontier[i]) {
        best := frontier[i];
      }
    }
  }

  class CompatibilityDeltaLedger {
    const reportSchema: string
    var observationCount: nat
    var completeCount: nat
    var passCount: nat
    var previous: Option<set<Key>>
    var frontier: seq<Anchor>
    var transitionCounts: map<Transition, nat>

    /** One entry for every observation so far; only specifications mention it. */
    ghost var history: seq<Evidence>

    ghost predicate Valid()
      reads this
    {
      && observationCount == |history|
      && Tallies(CompleteSets(history), completeCount, passCount, previous, transitionCounts)
      && IsFrontier(frontier, history)
    }

    constructor (reportSchema: string)
      ensures Valid() && history == [] && this.reportSchema == reportSchema
    {
      this.reportSchema := reportSchema;
      observationCount, completeCount, passCount := 0, 0, 0;
      previous := None;
      frontier := [];
      transitionCounts := map[];
      history := [];
    }

    /** `observe_unknown` and every path of `observe` that ends in `_unknown`. */
    method ObserveUnknown(reason: Reason) returns (r: Report)
      requires Valid()
      modifies this
      ensures Valid()
      ensures history == old(history) + [Unusable] && r == Unknown(|history|, reason)
      ensures frontier == old(frontier) && previous == old(previous)
      ensures transitionCounts == old(transitionCounts) && completeCount == old(completeCount)
    {
      observationCount := observationCount + 1;
      AppendedEvidence(history, Unusable);
      DominatedKeepsFrontier(frontier, history, Unusable);
      history := history + [Unusable];
      r := Unknown(observationCount, reason);
    }

    method Observe(report: Fields, environment: Fields) returns (r: Result<Report, PythonError>)
      requires Valid()
      modifies this
      ensures Valid()
      ensures r.Err? <==> Raises(reportSchema, report)
      ensures forall keys :: Usable(reportSchema, report, keys) ==>
                && history == old(history) + [Complete(keys, environment)]
                && r.Ok? && r.value.Reading? && r.value.current == keys
                && r.value.passing == (keys == {}) && r.value.candidateReady == (keys == {})
      ensures (forall keys :: !Usable(reportSchema, report, keys)) ==>
                && history == old(history) + [Unusable]
                && (r.Ok? ==> r.value.Unknown? && r.value.index == |history|)
                && frontier == old(frontier) && previous == old(previous)
                && transitionCounts == old(transitionCounts) && completeCount == old(completeCount)
      ensures r.Ok? && r.value.Reading? ==> Describes(r.value, old(history), environment)
      ensures r.Ok? && r.value.Reading? ==> r.value.frontier.anchors == frontier
      ensures r.Ok? && r.value.Reading? && !r.value.frontier.changed ==> frontier == old(frontier)
    {
      var status := Get(report, "status");
      var complete := Get(report, "finding_set_complete");
      var findings := Get(report, "findings");
      if Raises(reportSchema, report) {
        var _ := ObserveUnknown(InvalidSchema);
        return Err(TypeError);
      }
      if !(Get(report, "schema") == Text(reportSchema)
           && status in {Text("pass"), Text("fail"), Text("unknown")}
           && complete.Bool? && findings.List?) {
        var u := ObserveUnknown(InvalidSchema);
        return Ok(u);
      }
      var obligations := ReadObligations(findings.items);
      if obligations.None? {
        var u := ObserveUnknown(InvalidFinding);
        return Ok(u);
      }
      var current := obligations.value;
      OnlyDemanded(findings.items, current);
      if !complete.b {
        var u := ObserveUnknown(IncompleteFindings);
        return Ok(u);
      }
      if status == Text("unknown") {
        var u := ObserveUnknown(StatusUnknown);
        return Ok(u);
      }
      if status == Text("pass") && current != {} {
        var u := ObserveUnknown(PassWithObligations);
        return Ok(u);
      }
      if status == Text("fail") && current == {} {
        var u := ObserveUnknown(FailWithoutObligations);
        return Ok(u);
      }
      assert Usable(reportSchema, report, current);
      var reading := Admit(status == Text("pass"), current, environment);
      return Ok(reading);
    }

    /** The part of `observe` that follows the last guard: complete evidence enters the ledger. */
    method Admit(passing: bool, current: set<Key>, environment: Fields) returns (r: Report)
      requires Valid() && passing == (current == {})
      modifies this
      ensures Valid()
      ensures history == old(history) + [Complete(current, environment)]
      ensures r.Reading? && r.current == current && r.passing == passing && r.candidateReady == passing
      ensures r.frontier.anchors == frontier
      ensures !r.frontier.changed ==> frontier == old(frontier)
      ensures Describes(r, old(history), environment)
    {
      ghost var h := history;
      observationCount := observationCount + 1;
      var resolved := if previous.Some? then previous.value - current else {};
      var introduced := if previous.Some? then current - previous.value else {};
      var transition := ClassifyStep(previous, current, CompleteSets(h));
      var dominated, changed := AdvanceFrontier(current, environment);
      var best := BestAnchor(frontier);
      CountStep(current, environment, transition);
      DeltaIsReported(h, current, environment, Delta(resolved, introduced));
      r := Reading(observationCount, passing, passing && current == {}, environment, current,
                   transition, Delta(resolved, introduced), FrontierReport(changed, dominated, frontier, best));
    }

    /** The counters, the Counter of transitions and `previous` after a complete observation. */
    method CountStep(current: set<Key>, environment: Fields, transition: Transition)
      requires Tallies(CompleteSets(history), completeCount, passCount, previous, transitionCounts)
      requires Carries(transition, CompleteSets(history), current)
      modifies this`completeCount, this`passCount, this`transitionCounts, this`previous, this`history
      ensures history == old(history) + [Complete(current, environment)]
      ensures Tallies(CompleteSets(history), completeCount, passCount, previous, transitionCounts)
    {
      TalliesAdvance(CompleteSets(history), completeCount, passCount, previous, transitionCounts, current, transition);
      AppendedEvidence(history, Complete(current, environment));
      completeCount := completeCount + 1;
      passCount := passCount + (if current == {} then 1 else 0);
      transitionCounts := transitionCounts[transition := Count(transitionCounts, transition) + 1];
      previous := Some(current);
      history := history + [Complete(current, environment)];
    }

    /** The frontier update inside `observe`: skip a dominated set, else displace and append. */
    method AdvanceFrontier(current: set<Key>, environment: Fields) returns (dominated: bool, changed: bool)
      requires IsFrontier(frontier, history) && observationCount == |history| + 1
      modifies this`frontier
      ensures IsFrontier(frontier, history + [Complete(current, environment)]) && frontier != []
      ensures dominated <==> exists j, s :: Observed(history, j, s) && s <= current
      ensures changed <==> !dominated
      ensures dominated ==> frontier == old(frontier)
    {
      dominated := Dominated(frontier, current);
      changed := false;
      DominatedMeansObserved(frontier, history, current);
      FrontierAdvances(frontier, history, current, environment);
      if !dominated {
        frontier := Retain(frontier, current) + [Anchor(observationCount, current, environment)];
        changed := true;
      }
    }

    method ReadMetadata() returns (m: Metadata)
      requires Valid()
      ensures m.observationCount == |history| && m.completeCount == |CompleteSets(history)|
      ensures m.passCount == PassCount(CompleteSets(history))
      ensures forall t :: Count(m.transitionCounts, t) == TransitionCount(CompleteSets(history), t)
      ensures m.frontierSize == |frontier|
      ensures m.best.None? <==> frontier == []
      ensures m.best.Some? ==> m.best.value in frontier && forall a :: a in frontier ==> NoWorse(m.best.value, a)
    {
      var best := None;
      if frontier != [] {
        var b := BestAnchor(frontier);
        best := Some(b);
      }
      m := Metadata(observationCount, completeCount, passCount, transitionCounts, |frontier|, best);
    }
  }

  /** The reading describes the step from the history `h` to its extension by the reading's own set. */
  ghost predicate Describes(r: Report, h: seq<Evidence>, environment: Fields)
    requires r.Reading?
  {
    var h' := h + [Complete(r.current, environment)];
    && r.index == |h'|
    && r.environment == environment
    && Carries(r.transition, CompleteSets(h), r.current)
    && CompleteSets(h') != []
    && r.delta == ReportedDelta(CompleteSets(h'), |CompleteSets(h')| - 1)
    && IsFrontier(r.frontier.anchors, h')
    && (r.frontier.dominated <==> exists j, s :: Observed(h, j, s) && s <= r.current)
    && r.frontier.changed == !r.frontier.dominated
    && r.frontier.best in r.frontier.anchors
    && (forall a :: a in r.frontier.anchors ==> NoWorse(r.frontier.best, a))
  }

  /** The differences with the previous set are the delta of the last complete observation. */
  lemma DeltaIsReported(h: seq<Evidence>, current: set<Key>, environment: Fields, delta: Delta)
    requires var sets := CompleteSets(h);
             delta == (if sets == [] then Delta({}, {}) else Delta(sets[|sets| - 1] - current, current - sets[|sets| - 1]))
    ensures var sets' := CompleteSets(h + [Complete(current, environment)]);
            sets' == CompleteSets(h) + [current] && delta == ReportedDelta(sets', |sets'| - 1)
  {
    AppendedEvidence(h, Complete(current, environment));
  }

  /** The frontier of a history determines that of its extension. */
  lemma FrontierAdvances(frontier: seq<Anchor>, h: seq<Evidence>, current: set<Key>, environment: Fields)
    requires IsFrontier(frontier, h)
    ensures var next := if Dominated(frontier, current) then frontier
                        else Retain(frontier, current) + [Anchor(|h| + 1, current, environment)];
            next != [] && IsFrontier(next, h + [Complete(current, environment)])
  {
    var e := Complete(current, environment);
    if Dominated(frontier, current) {
      DominatedMeansObserved(frontier, h, current);
      DominatedKeepsFrontier(frontier, h, e);
    } else {
      UndominatedExtendsFrontier(frontier, h, e);
    }
  }

  /** Some anchor lies at or below a set exactly when some observed set does. */
  lemma DominatedMeansObserved(frontier: seq<Anchor>, h: seq<Evidence>, current: set<Key>)
    requires IsFrontier(frontier, h)
    ensures Dominated(frontier, current) <==> exists j, s :: Observed(h, j, s) && s <= current
  {
    if Dominated(frontier, current) {
      var i :| 0 <= i < |frontier| && frontier[i].obligations <= current;
      assert frontier[i] in frontier;
      assert Observed(h, frontier[i].index - 1, frontier[i].obligations);
    }
    if j, s :| Observed(h, j, s) && s <= current {
      var a := AnchorBelow(h, j, s);
      assert a in frontier;
    }
  }

  /** A list of findings demands one set of obligations only. */
  lemma OnlyDemanded(findings: seq<Value>, keys: set<Key>)
    requires DemandedBy(findings, keys)
    ensures forall other :: DemandedBy(findings, other) ==> other == keys
  {
    forall other | DemandedBy(findings, other) ensures other == keys {
      forall k ensures k in other <==> k in keys {}
    }
  }
}
