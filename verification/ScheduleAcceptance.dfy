/**
 The producer meets the checker: for every episode, the offline checker of ScheduleAudit accepts the trace
 that the observer and the runner leave behind exactly when the log of actions is clean.
 */
module ScheduleAcceptance {
  import opened Json
  import opened Wrappers
  import opened CompatibilityLedger
  import opened ObservationSchedule
  import opened ScheduleAudit
  import opened EpisodeTrace

  // ---------- reading a trace event by event ----------

  /** Everything the checker reads off a whole trace by counting. */
  datatype Summary = Summary(observations: nat, last: int, latest: Option<int>,
                             shells: nat, optional: nat, periodic: seq<Option<int>>)

  function Summarise(events: seq<Event>, n: nat): Summary
    requires n <= |events|
  {
    Summary(ObservationCount(events, n), LastCount(events, n), LatestField(events, n),
            ToolCount(events, n, ShellTool), ToolCount(events, n, CompatibilityTool), PeriodicCounts(events, n))
  }

  function Next(s: Summary, e: Event): Summary {
    match e
    case Observation(_, _, trigger, shellCount, _, _) =>
      s.(observations := s.observations + 1,
         last := if shellCount.Some? then shellCount.value else s.last,
         latest := shellCount,
         periodic := s.periodic + (if trigger == Some(Periodic) then [shellCount] else []))
    case ToolResult(_, tool, _) =>
      s.(shells := s.shells + (if tool == ShellTool then 1 else 0),
         optional := s.optional + (if tool == CompatibilityTool then 1 else 0))
    case _ => s
  }

  /** Later events do not change what is read off the first `n`. */
  lemma {:induction false} PrefixIsStable(events: seq<Event>, more: seq<Event>, n: nat, parent: Value)
    requires n <= |events|
    ensures Summarise(events + more, n) == Summarise(events, n)
    ensures LastForeignCount(events + more, n, parent) == LastForeignCount(events, n, parent)
    ensures OwnPreReplays(events + more, n, parent) == OwnPreReplays(events, n, parent)
  {
    if n > 0 {
      PrefixIsStable(events, more, n - 1, parent);
      assert (events + more)[n - 1] == events[n - 1];
    }
  }

  lemma {:induction false} AppendedEvent(events: seq<Event>, e: Event)
    ensures Summarise(events + [e], |events| + 1) == Next(Summarise(events, |events|), e)
  {
    PrefixIsStable(events, [e], |events|, Null);
    assert (events + [e])[|events|] == e;
  }

  // ---------- what the producer's traces look like ----------

  /** The observation carries all its fields and, unless initial, is followed by the result it is attached to. */
  predicate WellLogged(events: seq<Event>, i: nat)
    requires i < |events| && events[i].Observation?
  {
    && events[i].sameSession && events[i].shellCount.Some?
    && (IsInitial(events[i]) <==> i == 0)
    && (i == 0 ==> events[i].parent.Null?)
    && (i > 0 ==>
          && events[i].parent.Text? && i + 1 < |events|
          && events[i + 1].ToolResult? && events[i + 1].callId == events[i].parent && events[i + 1].delivered == events[i].number)
  }

  function Wrap(counts: seq<nat>): seq<Option<int>> {
    seq(|counts|, k requires 0 <= k < |counts| => Some(counts[k]))
  }

  /** The trace tells the observer's state; `shells` and `optional` are counted over the log. */
  ghost predicate Tells(ep: Episode, shells: nat, optional: nat) {
    && Scheduled(ep.state)
    && |ep.events| > 0 && ep.events[0] == Logged(ep.state.records[0], 0, Null)
    && (forall i :: 0 <= i < |ep.events| && ep.events[i].Observation? ==> WellLogged(ep.events, i))
    && Summarise(ep.events, |ep.events|) == SummaryOf(ep.state, shells, optional)
    && ep.state.shellCount <= shells
  }

  ghost function SummaryOf(s: State, shells: nat, optional: nat): Summary
    requires |s.records| > 0
  {
    var last := s.records[|s.records| - 1].shellCount;
    Summary(|s.records|, last, Some(last), shells, optional, Wrap(PeriodicPositions(s.records)))
  }

  predicate CallsTool(a: Action, tool: Tool) {
    a.Call? && a.tool == tool
  }

  /** The state after a call, in terms of the invariant's own steps. */
  lemma ExecutedKeeps(s: State, a: Action)
    requires Scheduled(s) && a.Call?
    ensures Scheduled(Executed(s, a))
    ensures Executed(s, a).shellCount == s.shellCount + (if CountsShell(a) then 1 else 0)
    ensures Executed(s, a).records != s.records ==>
              && (CountsShell(a) || (AsksReplay(a) && s.dirty))
              && Executed(s, a).records == s.records + [Executed(s, a).records[|s.records|]]
              && Executed(s, a).records[|s.records|].shellCount == Executed(s, a).shellCount
              && Executed(s, a).records[|s.records|].trigger == (if a.tool == ShellTool then Periodic else PreReplayDirty)
    ensures AsksReplay(a) && s.dirty ==> Executed(s, a).records != s.records
  {
    if CountsShell(a) {
      AfterShellKeeps(s, a.reading);
    } else if AsksReplay(a) {
      BeforeReplayKeeps(s, a.reading);
    }
  }

  lemma WrapAppended(counts: seq<nat>, x: nat)
    ensures Wrap(counts + [x]) == Wrap(counts) + [Some(x)]
  {}

  /** The summary of the trace keeps up with the state. */
  lemma SummaryAdvances(ep: Episode, a: Action, shells: nat, optional: nat)
    requires Tells(ep, shells, optional) && a.Call?
    ensures var ep' := Perform(ep, a);
            Summarise(ep'.events, |ep'.events|)
            == SummaryOf(ep'.state, shells + (if a.tool == ShellTool then 1 else 0),
                         optional + (if a.tool == CompatibilityTool then 1 else 0))
  {
    var s, s', events := ep.state, Executed(ep.state, a), ep.events;
    ExecutedKeeps(s, a);
    if s'.records == s.records {
      AppendedEvent(events, ToolResult(Text(a.id), a.tool, Null));
    } else {
      var r := s'.records[|s.records|];
      SummaryOfObservedCall(events, a, r, s, s', shells, optional);
      assert Perform(ep, a).events == events + [Logged(r, a.request, Text(a.id)), ToolResult(Text(a.id), a.tool, Integer(r.number))];
    }
  }

  lemma SummaryOfObservedCall(events: seq<Event>, a: Action, r: Record, s: State, s': State, shells: nat, optional: nat)
    requires |s.records| > 0 && a.Call? && r.trigger != InitialTrigger && s'.records == s.records + [r]
    requires Summarise(events, |events|) == SummaryOf(s, shells, optional)
    ensures var events' := events + [Logged(r, a.request, Text(a.id)), ToolResult(Text(a.id), a.tool, Integer(r.number))];
            Summarise(events', |events'|)
            == SummaryOf(s', shells + (if a.tool == ShellTool then 1 else 0),
                         optional + (if a.tool == CompatibilityTool then 1 else 0))
  {
    var logged := Logged(r, a.request, Text(a.id));
    var result := ToolResult(Text(a.id), a.tool, Integer(r.number));
    AppendedEvent(events, logged);
    AppendedEvent(events + [logged], result);
    assert events + [logged] + [result] == events + [logged, result];
    AppendedRecord(s.records, r);
    WrapAppended(PeriodicPositions(s.records), r.shellCount);
  }

  /** Observations stay well logged, and a new one is. */
  lemma LoggingAdvances(ep: Episode, a: Action, shells: nat, optional: nat)
    requires Tells(ep, shells, optional)
    ensures var events' := Perform(ep, a).events;
            && events'[0] == ep.events[0]
            && forall i :: 0 <= i < |events'| && events'[i].Observation? ==> WellLogged(events', i)
  {
    var events, events' := ep.events, Perform(ep, a).events;
    if a.Call? { ExecutedKeeps(ep.state, a); }
    forall i | 0 <= i < |events'| && events'[i].Observation? ensures WellLogged(events', i) {
      if i < |events| {
        assert events'[i] == events[i] && WellLogged(events, i);
      }
    }
  }

  lemma PerformTells(ep: Episode, a: Action, shells: nat, optional: nat, ep': Episode, shells': nat, optional': nat)
    requires Tells(ep, shells, optional) && ep' == Perform(ep, a)
    requires shells' == shells + (if CallsTool(a, ShellTool) then 1 else 0)
    requires optional' == optional + (if CallsTool(a, CompatibilityTool) then 1 else 0)
    ensures Tells(ep', shells', optional')
    ensures ep'.state.shellCount
            == ep.state.shellCount + (if CountsShell(a) then 1 else 0)
  {
    LoggingAdvances(ep, a, shells, optional);
    if a.Call? {
      CallKeepsSchedule(ep, a, ep');
      SummaryAdvances(ep, a, shells, optional);
    } else {
      IdleKeepsSummary(ep, a, ep');
    }
  }

  lemma CallKeepsSchedule(ep: Episode, a: Action, ep': Episode)
    requires Scheduled(ep.state) && a.Call? && ep' == Perform(ep, a)
    ensures Scheduled(ep'.state) && ep'.state.records[0] == ep.state.records[0]
    ensures ep'.state.shellCount == ep.state.shellCount + (if CountsShell(a) then 1 else 0)
  {
    ExecutedKeeps(ep.state, a);
  }

  /** Model replies and remarks leave the summary of the trace alone. */
  lemma IdleKeepsSummary(ep: Episode, a: Action, ep': Episode)
    requires Scheduled(ep.state) && !a.Call? && ep' == Perform(ep, a)
    ensures Summarise(ep'.events, |ep'.events|) == Summarise(ep.events, |ep.events|)
    ensures ep'.state == ep.state
  {
    AppendedEvent(ep.events, if a.ModelReply? then Provider else Note);
  }

  /** The number of calls of the optional compatibility tool among the first `n` actions. */
  function OptionalCalls(actions: seq<Action>, n: nat): nat
    requires n <= |actions|
  {
    if n == 0 then 0
    else OptionalCalls(actions, n - 1) + (if CallsTool(actions[n - 1], CompatibilityTool) then 1 else 0)
  }

  lemma StartTells(cadence: nat, initial: Report, actions: seq<Action>)
    requires cadence > 0
    ensures Tells(After(cadence, initial, actions, 0), 0, 0)
    ensures After(cadence, initial, actions, 0).state.shellCount == 0
  {
    var ep := After(cadence, initial, actions, 0);
    var r := ep.state.records[0];
    StartIsScheduled(cadence, initial);
    AppendedEvent([], ep.events[0]);
    assert [] + [ep.events[0]] == ep.events;
    AppendedRecord([], r);
    assert [] + [r] == ep.state.records;
  }

  lemma {:induction false} AfterTells(cadence: nat, initial: Report, actions: seq<Action>, n: nat)
    requires cadence > 0 && n <= |actions|
    ensures Tells(After(cadence, initial, actions, n), ShellCalls(actions, n), OptionalCalls(actions, n))
    ensures After(cadence, initial, actions, n).state.shellCount == ShellRuns(actions, n)
  {
    if n == 0 {
      StartTells(cadence, initial, actions);
    } else {
      AfterTells(cadence, initial, actions, n - 1);
      var before := After(cadence, initial, actions, n - 1);
      PerformTells(before, actions[n - 1], ShellCalls(actions, n - 1), OptionalCalls(actions, n - 1),
                   After(cadence, initial, actions, n), ShellCalls(actions, n), OptionalCalls(actions, n));
    }
  }

  // ---------- when the checker finds no fault with an event ----------

  /** No rule that looks at one observation or one replay result fails at `i`. */
  ghost predicate Good(events: seq<Event>, i: nat)
    requires i < |events|
  {
    && !WrongReplayCount(events, i) && !WrongReplayTrigger(events, i) && !WithoutDirty(events, i)
    && (CalledFor(events, i) ==> SoleResult(events, i, i + 1))
  }

  ghost predicate AllGood(events: seq<Event>) {
    forall i :: 0 <= i < |events| ==> Good(events, i)
  }

  /** No observation of the trace belongs to a call with this identifier. */
  predicate Unclaimed(events: seq<Event>, id: string) {
    forall i :: 0 <= i < |events| && events[i].Observation? ==> events[i].parent != Text(id)
  }

  /** What the next action must satisfy for the trace to stay faultless. */
  predicate StepIsClean(ep: Episode, a: Action, shells: nat) {
    a.Call? ==> Unclaimed(ep.events, a.id) && ReplayIsClean(ep, a, shells)
  }

  lemma {:induction false} UnclaimedHasNoPreReplay(events: seq<Event>, n: nat, id: string)
    requires n <= |events| && Unclaimed(events, id)
    ensures OwnPreReplays(events, n, Text(id)) == 0
    ensures LastForeignCount(events, n, Text(id)) == LastCount(events, n)
  {
    if n > 0 {
      UnclaimedHasNoPreReplay(events, n - 1, id);
    }
  }

  /** The rules that look backwards say the same about an event when the trace grows. */
  lemma BackwardRulesAreStable(events: seq<Event>, more: seq<Event>, i: nat)
    requires i < |events|
    ensures WrongReplayCount(events + more, i) <==> WrongReplayCount(events, i)
    ensures WrongReplayTrigger(events + more, i) <==> WrongReplayTrigger(events, i)
    ensures WithoutDirty(events + more, i) <==> WithoutDirty(events, i)
  {
    assert (events + more)[i] == events[i];
    PrefixIsStable(events, more, i, if events[i].ToolResult? then events[i].callId else Null);
    assert Summarise(events + more, i) == Summarise(events, i);
  }

  /** An old event stays good exactly when the new result does not belong to it. */
  lemma OldEventStaysGood(events: seq<Event>, more: seq<Event>, i: nat, id: string)
    requires i < |events| && (events[i].Observation? ==> WellLogged(events, i))
    requires forall k :: 0 <= k < |more| && more[k].ToolResult? ==> more[k].callId == Text(id)
    requires exists k :: 0 <= k < |more| && more[k].ToolResult?
    ensures Good(events + more, i) <==> Good(events, i) && (events[i].Observation? ==> events[i].parent != Text(id))
  {
    var events' := events + more;
    BackwardRulesAreStable(events, more, i);
    if CalledFor(events, i) {
      var k :| 0 <= k < |more| && more[k].ToolResult?;
      assert events'[|events| + k] == more[k];
      assert events'[i] == events[i] && events'[i + 1] == events[i + 1];
      if SoleResult(events', i, i + 1) {
        forall l | i < l < |events| && IsResultOf(events[l], events[i].parent) ensures l == i + 1 { assert events'[l] == events[l]; }
      }
      if SoleResult(events, i, i + 1) && events[i].parent != Text(id) {
        forall l | i < l < |events'| && IsResultOf(events'[l], events[i].parent) ensures l == i + 1 {
          if l < |events| { assert events'[l] == events[l]; }
        }
      }
    }
  }

  /** A new observation, directly followed by its result, is good. */
  lemma NewObservationIsGood(ep: Episode, a: Action, shells: nat, optional: nat)
    requires Tells(ep, shells, optional) && a.Call? && Executed(ep.state, a).records != ep.state.records
    ensures Good(Perform(ep, a).events, |ep.events|)
  {
    var events, events' := ep.events, Perform(ep, a).events;
    ExecutedKeeps(ep.state, a);
    PrefixIsStable(events, events'[|events|..], |events|, Null);
    assert events' == events + events'[|events|..];
    assert LastCount(events', |events|) == LastCount(events, |events|) == Summarise(events, |events|).last;
    assert LastCount(events, |events|) == ep.state.records[|ep.state.records| - 1].shellCount;
    assert SoleResult(events', |events|, |events| + 1);
  }

  /** The condition under which the replay rules find no fault with a result that the producer logs. */
  predicate ReplayIsClean(ep: Episode, a: Action, shells: nat)
    requires a.Call?
  {
    a.tool == ReplayTool ==> shells == ep.state.shellCount && (AsksReplay(a) || !ep.state.dirty)
  }

  lemma QuietResultIsGood(ep: Episode, a: Action, shells: nat, optional: nat)
    requires Tells(ep, shells, optional) && a.Call? && Unclaimed(ep.events, a.id)
    requires Executed(ep.state, a).records == ep.state.records
    ensures Good(Perform(ep, a).events, |ep.events|) <==> ReplayIsClean(ep, a, shells)
  {
    var events := ep.events;
    var result := ToolResult(Text(a.id), a.tool, Null);
    ExecutedKeeps(ep.state, a);
    PrefixIsStable(events, [result], |events|, Text(a.id));
    UnclaimedHasNoPreReplay(events, |events|, a.id);
    assert Perform(ep, a).events == events + [result];
    assert Summarise(events + [result], |events|) == SummaryOf(ep.state, shells, optional);
  }

  lemma ObservedResultIsGood(ep: Episode, a: Action, shells: nat, optional: nat)
    requires Tells(ep, shells, optional) && a.Call? && Unclaimed(ep.events, a.id)
    requires Executed(ep.state, a).records != ep.state.records
    ensures |Perform(ep, a).events| == |ep.events| + 2
    ensures Good(Perform(ep, a).events, |ep.events| + 1) <==> ReplayIsClean(ep, a, shells)
  {
    var events, s' := ep.events, Executed(ep.state, a);
    ExecutedKeeps(ep.state, a);
    var r := s'.records[|ep.state.records|];
    var logged := Logged(r, a.request, Text(a.id));
    var result := ToolResult(Text(a.id), a.tool, Integer(r.number));
    var more := [logged, result];
    assert Perform(ep, a).events == events + more;
    PrefixIsStable(events, more, |events|, Text(a.id));
    UnclaimedHasNoPreReplay(events, |events|, a.id);
    assert (events + more)[|events|] == logged && (events + more)[|events| + 1] == result;
    assert Summarise(events + more, |events|) == SummaryOf(ep.state, shells, optional);
  }

  /** One action keeps a trace faultless exactly when it is clean. */
  lemma GoodnessAdvances(ep: Episode, a: Action, ep': Episode, shells: nat, optional: nat)
    requires Tells(ep, shells, optional) && ep' == Perform(ep, a)
    ensures AllGood(ep'.events) <==> AllGood(ep.events) && StepIsClean(ep, a, shells)
  {
    if a.Call? {
      CallGoodness(ep, a, shells, optional);
    } else {
      var events, events' := ep.events, Perform(ep, a).events;
      var more := events'[|events|..];
      assert events' == events + more && |more| == 1 && !more[0].Observation? && !more[0].ToolResult?;
      forall i | 0 <= i < |events| ensures Good(events', i) <==> Good(events, i) {
        SilentEventChangesNothing(events, more, i);
      }
    }
  }

  /** A line that is neither an observation nor a result leaves every verdict alone. */
  lemma SilentEventChangesNothing(events: seq<Event>, more: seq<Event>, i: nat)
    requires i < |events| && (events[i].Observation? ==> WellLogged(events, i))
    requires |more| == 1 && !more[0].Observation? && !more[0].ToolResult?
    ensures Good(events + more, i) <==> Good(events, i)
  {
    var events' := events + more;
    BackwardRulesAreStable(events, more, i);
    if CalledFor(events, i) {
      assert forall l :: 0 <= l < |events| ==> events'[l] == events[l];
      assert forall l :: |events| <= l < |events'| ==> events'[l] == more[0];
    }
  }

  lemma CallGoodness(ep: Episode, a: Action, shells: nat, optional: nat)
    requires Tells(ep, shells, optional) && a.Call?
    ensures AllGood(Perform(ep, a).events) <==> AllGood(ep.events) && StepIsClean(ep, a, shells)
  {
    var events, events' := ep.events, Perform(ep, a).events;
    ExecutedKeeps(ep.state, a);
    var more := events'[|events|..];
    assert events' == events + more;
    forall i | 0 <= i < |events|
      ensures Good(events', i) <==> Good(events, i) && (events[i].Observation? ==> events[i].parent != Text(a.id))
    {
      assert more[|more| - 1].ToolResult?;
      OldEventStaysGood(events, more, i, a.id);
    }
    assert (forall i :: 0 <= i < |events| ==> Good(events', i)) <==> AllGood(events) && Unclaimed(events, a.id);
    if Unclaimed(events, a.id) {
      if Executed(ep.state, a).records == ep.state.records {
        QuietResultIsGood(ep, a, shells, optional);
      } else {
        NewObservationIsGood(ep, a, shells, optional);
        ObservedResultIsGood(ep, a, shells, optional);
      }
    }
  }

  // ---------- from steps to logs ----------

  /** The action `j` of the log is clean when it is performed. */
  predicate CleanAt(cadence: nat, initial: Report, actions: seq<Action>, j: int)
    requires cadence > 0
  {
    && 0 <= j < |actions|
    && StepIsClean(After(cadence, initial, actions, j), actions[j], ShellCalls(actions, j))
  }

  lemma StartIsGood(cadence: nat, initial: Report, actions: seq<Action>)
    requires cadence > 0
    ensures AllGood(After(cadence, initial, actions, 0).events)
  {}

  lemma OneStepFurther(cadence: nat, initial: Report, actions: seq<Action>, n: nat)
    requires cadence > 0 && n < |actions|
    ensures AllGood(After(cadence, initial, actions, n + 1).events) <==>
            AllGood(After(cadence, initial, actions, n).events) && CleanAt(cadence, initial, actions, n)
  {
    AfterTells(cadence, initial, actions, n);
    GoodnessAdvances(After(cadence, initial, actions, n), actions[n], After(cadence, initial, actions, n + 1),
                     ShellCalls(actions, n), OptionalCalls(actions, n));
  }

  lemma {:induction false} FaultlessTraces(cadence: nat, initial: Report, actions: seq<Action>, n: nat)
    requires cadence > 0 && n <= |actions|
    ensures AllGood(After(cadence, initial, actions, n).events) <==>
            forall j :: 0 <= j < n ==> CleanAt(cadence, initial, actions, j)
  {
    if n == 0 {
      StartIsGood(cadence, initial, actions);
    } else {
      FaultlessTraces(cadence, initial, actions, n - 1);
      OneStepFurther(cadence, initial, actions, n - 1);
    }
  }

  // ---------- the observer's state, read off the log ----------

  /** A counted shell call leaves the log dirty unless an observation was due, and a replay leaves it clean. */
  lemma DirtyStep(cadence: nat, actions: seq<Action>, n: nat)
    requires cadence > 0 && n < |actions|
    ensures DirtyBefore(cadence, actions, n + 1)
       <==> if CountsShell(actions[n]) then Soils(cadence, actions, n)
            else !AsksReplay(actions[n]) && DirtyBefore(cadence, actions, n)
  {
    if DirtyBefore(cadence, actions, n) && !CountsShell(actions[n]) && !AsksReplay(actions[n]) {
      var j :| 0 <= j < n && Soils(cadence, actions, j)
               && forall k :: j < k < n ==> !CountsShell(actions[k]) && !AsksReplay(actions[k]);
      assert DirtyBefore(cadence, actions, n + 1);
    }
    if DirtyBefore(cadence, actions, n + 1) && !CountsShell(actions[n]) {
      var j :| 0 <= j < n + 1 && Soils(cadence, actions, j)
               && forall k :: j < k < n + 1 ==> !CountsShell(actions[k]) && !AsksReplay(actions[k]);
      assert j < n;
    }
  }

  lemma ExecutedDirties(s: State, a: Action)
    requires s.cadence > 0 && a.Call?
    ensures Executed(s, a).dirty
         == if CountsShell(a) then (s.shellCount + 1) % s.cadence != 0 else !AsksReplay(a) && s.dirty
    ensures |Executed(s, a).records| > |s.records|
       <==> (CountsShell(a) && (s.shellCount + 1) % s.cadence == 0) || (AsksReplay(a) && s.dirty)
  {}

  lemma PerformDirties(ep: Episode, a: Action, ep': Episode)
    requires ep.state.cadence > 0 && ep' == Perform(ep, a)
    ensures ep'.state.dirty
         == if CountsShell(a) then (ep.state.shellCount + 1) % ep.state.cadence != 0 else !AsksReplay(a) && ep.state.dirty
    ensures |ep'.state.records| > |ep.state.records|
       <==> (CountsShell(a) && (ep.state.shellCount + 1) % ep.state.cadence == 0) || (AsksReplay(a) && ep.state.dirty)
  {
    if a.Call? {
      ExecutedDirties(ep.state, a);
    }
  }

  lemma DirtyAdvances(cadence: nat, actions: seq<Action>, n: nat, before: Episode, after: Episode)
    requires cadence > 0 && n < |actions| && before.state.cadence == cadence && after == Perform(before, actions[n])
    requires before.state.shellCount == ShellRuns(actions, n)
    requires before.state.dirty == DirtyBefore(cadence, actions, n)
    ensures after.state.dirty == DirtyBefore(cadence, actions, n + 1)
  {
    PerformDirties(before, actions[n], after);
    DirtyStep(cadence, actions, n);
  }

  lemma ShellCountByTheLog(cadence: nat, initial: Report, actions: seq<Action>, n: nat)
    requires cadence > 0 && n <= |actions|
    ensures After(cadence, initial, actions, n).state.shellCount == ShellRuns(actions, n)
  {
    AfterTells(cadence, initial, actions, n);
  }

  /** The dirty flag says what the log says. */
  lemma {:induction false} DirtyByTheLog(cadence: nat, initial: Report, actions: seq<Action>, n: nat)
    requires cadence > 0 && n <= |actions|
    ensures (After(cadence, initial, actions, n).state.dirty) == DirtyBefore(cadence, actions, n)
  {
    if n > 0 {
      DirtyByTheLog(cadence, initial, actions, n - 1);
      ShellCountByTheLog(cadence, initial, actions, n - 1);
      DirtyAdvances(cadence, actions, n - 1, After(cadence, initial, actions, n - 1), After(cadence, initial, actions, n));
    }
  }

  /** The observer observes where the log says. */
  lemma ObservingGrows(cadence: nat, initial: Report, actions: seq<Action>, i: nat)
    requires cadence > 0 && i < |actions|
    ensures |After(cadence, initial, actions, i + 1).state.records| > |After(cadence, initial, actions, i).state.records|
       <==> Observes(cadence, actions, i)
  {
    DirtyByTheLog(cadence, initial, actions, i);
    ShellCountByTheLog(cadence, initial, actions, i);
    PerformDirties(After(cadence, initial, actions, i), actions[i], After(cadence, initial, actions, i + 1));
  }

  /** An identifier is claimed by an observation exactly when a call with it was observed. */
  lemma {:induction false} ClaimsComeFromCalls(cadence: nat, initial: Report, actions: seq<Action>, n: nat, id: string)
    requires cadence > 0 && n <= |actions|
    ensures Unclaimed(After(cadence, initial, actions, n).events, id) <==>
            forall i :: 0 <= i < n && Observes(cadence, actions, i) ==> actions[i].id != id
  {
    if n > 0 {
      ClaimsComeFromCalls(cadence, initial, actions, n - 1, id);
      ClaimAdvances(After(cadence, initial, actions, n - 1), actions[n - 1], id);
      ObservingGrows(cadence, initial, actions, n - 1);
    }
  }

  lemma ClaimAdvances(ep: Episode, a: Action, id: string)
    requires ep.state.cadence > 0
    ensures Unclaimed(Perform(ep, a).events, id) <==>
            && Unclaimed(ep.events, id)
            && !(a.Call? && |Perform(ep, a).state.records| > |ep.state.records| && a.id == id)
  {
    var events, events' := ep.events, Perform(ep, a).events;
    assert forall i :: 0 <= i < |events| ==> events'[i] == events[i];
    if a.Call? && |Perform(ep, a).state.records| > |ep.state.records| {
      assert events'[|events|].Observation? && events'[|events|].parent == Text(a.id);
    }
  }

  /** The counted shell calls catch up with the calls exactly when every shell call was decoded. */
  lemma {:induction false} UncountedShells(actions: seq<Action>, n: nat)
    requires n <= |actions|
    ensures ShellRuns(actions, n) <= ShellCalls(actions, n)
    ensures ShellRuns(actions, n) == ShellCalls(actions, n) <==> forall i :: 0 <= i < n ==> !UncountedShell(actions[i])
  {
    if n > 0 {
      UncountedShells(actions, n - 1);
    }
  }

  /** The ledger and the observer agree on the number of checks exactly when nobody else made one. */
  lemma {:induction false} LedgerIsPrivate(cadence: nat, initial: Report, actions: seq<Action>, n: nat)
    requires cadence > 0 && n <= |actions|
    ensures var s := After(cadence, initial, actions, n).state;
            && s.ledgerCount >= |s.records|
            && (s.ledgerCount == |s.records| && OptionalCalls(actions, n) == 0
                <==> forall i :: 0 <= i < n ==> !UsesLedgerDirectly(actions[i]))
  {
    if n > 0 {
      LedgerIsPrivate(cadence, initial, actions, n - 1);
      OutsideUseIsCounted(After(cadence, initial, actions, n - 1), actions[n - 1], After(cadence, initial, actions, n));
    }
  }

  lemma OutsideUseIsCounted(ep: Episode, a: Action, ep': Episode)
    requires ep.state.cadence > 0 && ep' == Perform(ep, a)
    ensures ep'.state.ledgerCount - |ep'.state.records| >= ep.state.ledgerCount - |ep.state.records|
    ensures ep'.state.ledgerCount - |ep'.state.records| == ep.state.ledgerCount - |ep.state.records|
            <==> DirectChecks(a) == 0
  {}

  /** The steps of a log are clean exactly when its calls are identified freshly and its replays covered. */
  lemma CleanSteps(cadence: nat, initial: Report, actions: seq<Action>)
    requires cadence > 0
    ensures (forall j :: 0 <= j < |actions| ==> CleanAt(cadence, initial, actions, j))
            <==> ObservedIdsAreFresh(cadence, actions)
                 && forall j :: 0 <= j < |actions| ==> ReplayIsCovered(cadence, actions, j)
  {
    forall j | 0 <= j < |actions|
      ensures CleanAt(cadence, initial, actions, j)
              <==> ReplayIsCovered(cadence, actions, j)
                   && (actions[j].Call? ==> forall i :: 0 <= i < j && Observes(cadence, actions, i)
                                              ==> actions[i].id != actions[j].id)
    {
      if actions[j].Call? {
        ClaimsComeFromCalls(cadence, initial, actions, j, actions[j].id);
        UncountedShells(actions, j);
        AfterTells(cadence, initial, actions, j);
        DirtyByTheLog(cadence, initial, actions, j);
      }
    }
  }

  // ---------- the two sides of the theorem ----------

  /** On a trace of the producer, the checker's rules come down to four conditions. */
  lemma RulesOnProducedTraces(ep: Episode, shells: nat, optional: nat)
    requires Tells(ep, shells, optional)
    ensures Accepted(ep.events, Saved(ep.state)) <==>
            && AllGood(ep.events)
            && Wrap(PeriodicPositions(ep.state.records)) == ExpectedCounts(shells)
            && ep.state.ledgerCount == |ep.state.records| && optional == 0
            && ep.state.cadence == FROZEN_CADENCE
  {
    var events, m := ep.events, Saved(ep.state);
    AcceptedByGroups(events, m);
    ObservationRules(events, m);
    BackwardRules(events, m);
    TotalRules(ep, shells, optional);
    GoodByRules(events);
  }

  ghost predicate NoneFails(group: set<Error>, events: seq<Event>, m: EpisodeMetadata) {
    forall e :: e in group ==> !Fails(e, events, m)
  }

  lemma AcceptedByGroups(events: seq<Event>, m: EpisodeMetadata)
    ensures Accepted(events, m) <==>
            && NoneFails(INITIAL_ERRORS, events, m) && NoneFails(DELIVERY_ERRORS, events, m) && NoneFails(ORDER_ERRORS, events, m)
            && NoneFails(REPLAY_ERRORS, events, m) && NoneFails(TOTAL_ERRORS, events, m)
  {
    EveryErrorIsGrouped();
    if NoneFails(INITIAL_ERRORS, events, m) && NoneFails(DELIVERY_ERRORS, events, m) && NoneFails(ORDER_ERRORS, events, m)
       && NoneFails(REPLAY_ERRORS, events, m) && NoneFails(TOTAL_ERRORS, events, m)
    {
      forall e ensures !Fails(e, events, m) {
        assert Grouped(e);
      }
    }
  }

  lemma GoodByRules(events: seq<Event>)
    ensures AllGood(events) <==>
            && (forall i :: CalledFor(events, i) ==> SoleResult(events, i, i + 1))
            && (forall i :: !WithoutDirty(events, i))
            && (forall i :: !WrongReplayCount(events, i) && !WrongReplayTrigger(events, i))
  {
    if AllGood(events) {
      forall i | CalledFor(events, i) ensures SoleResult(events, i, i + 1) { assert Good(events, i); }
      forall i ensures !WithoutDirty(events, i) { assert 0 <= i < |events| ==> Good(events, i); }
      forall i ensures !WrongReplayCount(events, i) && !WrongReplayTrigger(events, i) { assert 0 <= i < |events| ==> Good(events, i); }
    }
  }

  /** The rules for single observations come down to the sole result. */
  lemma ObservationRules(events: seq<Event>, m: EpisodeMetadata)
    requires |events| > 0 && IsInitial(events[0]) && events[0].requestIndex == Some(0)
    requires forall i :: 0 <= i < |events| && events[i].Observation? ==> WellLogged(events, i)
    ensures NoneFails(INITIAL_ERRORS, events, m)
    ensures NoneFails(DELIVERY_ERRORS, events, m)
            <==> forall i :: CalledFor(events, i) ==> SoleResult(events, i, i + 1)
  {
    assert OneInitial(events, 0);
    assert forall i :: OneInitial(events, i) ==> i == 0;
    assert !Fails(FeedbackDeliveryMismatch, events, m);
    forall i | CalledFor(events, i) ensures Unmatched(events, i) <==> !SoleResult(events, i, i + 1) {
      assert WellLogged(events, i);
    }
    forall i, j | CalledFor(events, i) && SoleResult(events, i, j) ensures j == i + 1 && events[j].delivered == events[i].number {
      assert WellLogged(events, i);
    }
    assert !Fails(NotAttachedToParent, events, m);
    assert Fails(ParentResultMismatch, events, m) <==> exists i :: Unmatched(events, i);
    assert DELIVERY_ERRORS == {FeedbackDeliveryMismatch, ParentResultMismatch, NotAttachedToParent};
  }

  lemma BackwardRules(events: seq<Event>, m: EpisodeMetadata)
    requires forall i :: 0 <= i < |events| && events[i].Observation? ==> WellLogged(events, i)
    ensures NoneFails(ORDER_ERRORS, events, m) <==> forall i :: !WithoutDirty(events, i)
    ensures NoneFails(REPLAY_ERRORS, events, m)
            <==> forall i :: !WrongReplayCount(events, i) && !WrongReplayTrigger(events, i)
  {
    assert !Fails(ShellCountMissing, events, m);
    assert !Fails(PreReplayParentMissing, events, m) by {
      forall i | 0 <= i < |events| && IsPreReplay(events[i]) ensures events[i].parent.Text? { assert WellLogged(events, i); }
    }
    assert Fails(PreReplayWithoutDirty, events, m) <==> exists i :: WithoutDirty(events, i);
    assert Fails(DirtyReplayWithoutObservation, events, m) <==> exists i :: WrongReplayCount(events, i);
    assert Fails(PreReplayTriggerMismatch, events, m) <==> exists i :: WrongReplayTrigger(events, i);
  }

  lemma TotalRules(ep: Episode, shells: nat, optional: nat)
    requires Tells(ep, shells, optional)
    ensures NoneFails(TOTAL_ERRORS, ep.events, Saved(ep.state)) <==>
            && Wrap(PeriodicPositions(ep.state.records)) == ExpectedCounts(shells)
            && ep.state.ledgerCount == |ep.state.records| && optional == 0
            && ep.state.cadence == FROZEN_CADENCE
  {
    var events, m := ep.events, Saved(ep.state);
    assert Summarise(events, |events|) == SummaryOf(ep.state, shells, optional);
    assert m.compliant <==> ep.state.ledgerCount == |ep.state.records|;
    assert Fails(PeriodicScheduleMismatch, events, m) <==> Wrap(PeriodicPositions(ep.state.records)) != ExpectedCounts(shells);
    assert Fails(MetadataNoncompliant, events, m) <==> !m.compliant;
    assert Fails(MetadataCadenceMismatch, events, m) <==> ep.state.cadence != FROZEN_CADENCE;
    assert Fails(MetadataCountMismatch, events, m) <==> ep.state.ledgerCount != |ep.state.records|;
    assert Fails(OptionalToolCalled, events, m) <==> optional > 0;
  }

  /** The periodic positions are the expected ones exactly when runs and calls fill the same number of periods. */
  lemma PeriodicAgreement(s: State, shells: nat)
    requires Scheduled(s) && s.cadence == FROZEN_CADENCE
    ensures Wrap(PeriodicPositions(s.records)) == ExpectedCounts(shells)
            <==> s.shellCount / FROZEN_CADENCE == shells / FROZEN_CADENCE
  {
    var actual, expected := Wrap(PeriodicPositions(s.records)), ExpectedCounts(shells);
    assert |actual| == s.shellCount / FROZEN_CADENCE && |expected| == shells / FROZEN_CADENCE;
    assert forall k :: 0 <= k < |actual| && k < |expected| ==> actual[k] == expected[k];
  }

  /**
   The checker accepts an episode whose calls all return exactly when its log is clean. In particular an episode
   may call itself compliant and still be rejected, because the checker counts the results of undecoded shell
   calls and the observer is not told of them.
   */
  lemma CheckerAcceptsExactlyCleanLogs(cadence: nat, initial: Report, actions: seq<Action>)
    requires cadence > 0
    ensures var ep := After(cadence, initial, actions, |actions|);
            Accepted(ep.events, Saved(ep.state)) <==> CleanLog(cadence, actions)
  {
    var n := |actions|;
    var ep := After(cadence, initial, actions, n);
    AfterTells(cadence, initial, actions, n);
    RulesOnProducedTraces(ep, ShellCalls(actions, n), OptionalCalls(actions, n));
    FaultlessTraces(cadence, initial, actions, n);
    CleanSteps(cadence, initial, actions);
    LedgerIsPrivate(cadence, initial, actions, n);
    if cadence == FROZEN_CADENCE {
      PeriodicAgreement(ep.state, ShellCalls(actions, n));
    }
  }

  /** The checker itself never raises on what the runner writes, also when the last call was interrupted. */
  lemma ProducedTracesDoNotRaise(cadence: nat, initial: Report, actions: seq<Action>, call: Action, cut: Interruption)
    requires cadence > 0 && call.Call?
    requires Possible(After(cadence, initial, actions, |actions|).state, call, cut)
    ensures !CheckRaises(After(cadence, initial, actions, |actions|).events)
    ensures !CheckRaises(Interrupted(After(cadence, initial, actions, |actions|), call, cut).events)
  {
    var ep := After(cadence, initial, actions, |actions|);
    AfterTells(cadence, initial, actions, |actions|);
    forall i | 0 <= i < |ep.events| ensures !RaisesAt(ep.events, i) {
      assert ep.events[i].Observation? ==> WellLogged(ep.events, i);
    }
    var events' := Interrupted(ep, call, cut).events;
    forall i | 0 <= i < |events'| ensures !RaisesAt(events', i) {
      assert i < |ep.events| ==> events'[i] == ep.events[i] && !RaisesAt(ep.events, i);
    }
  }

  // ---------- a last call that does not return ----------

  /** A harmless interruption is not visible in what is saved. */
  lemma HarmlessLeavesNoTrace(ep: Episode, call: Action, cut: Interruption)
    requires Scheduled(ep.state) && call.Call? && Possible(ep.state, call, cut)
    requires cut.NothingDone? || cut.ReplayAsked?
             || (cut.ShellCounted? && (ep.state.shellCount + 1) % ep.state.cadence != 0)
    ensures Interrupted(ep, call, cut).events == ep.events
    ensures Saved(Interrupted(ep, call, cut).state) == Saved(ep.state)
  {
    NextMultiple(ep.state.shellCount, ep.state.cadence);
  }

  /** A raising check, a lost observation or an own check of the ledger shows in the metadata. */
  lemma HarmfulContradictsMetadata(ep: Episode, call: Action, cut: Interruption, shells: nat, optional: nat)
    requires Tells(ep, shells, optional) && ep.state.ledgerCount >= |ep.state.records|
    requires call.Call? && Possible(ep.state, call, cut) && !cut.Written?
    requires !cut.NothingDone? && !cut.ReplayAsked?
    requires cut.ShellCounted? ==> (ep.state.shellCount + 1) % ep.state.cadence == 0
    ensures var cutShort := Interrupted(ep, call, cut);
            Fails(MetadataNoncompliant, cutShort.events, Saved(cutShort.state))
            || Fails(MetadataCountMismatch, cutShort.events, Saved(cutShort.state))
  {
    NextMultiple(ep.state.shellCount, ep.state.cadence);
    assert ObservationCount(ep.events, |ep.events|) == Summarise(ep.events, |ep.events|).observations;
    if cut.Recorded? {
      ExecutedDirties(ep.state, call);
    }
  }

  /** An observation that was logged for a call without a result stays unmatched. */
  lemma WrittenStaysUnmatched(ep: Episode, call: Action)
    requires Scheduled(ep.state) && call.Call? && Possible(ep.state, call, Written)
    ensures var cutShort := Interrupted(ep, call, Written);
            Fails(ParentResultMismatch, cutShort.events, Saved(cutShort.state))
  {
    var events := Interrupted(ep, call, Written).events;
    ExecutedKeeps(ep.state, call);
    assert CalledFor(events, |ep.events|);
    assert Unmatched(events, |ep.events|);
  }

  /**
   An episode that an exception cuts short is accepted exactly when its log was clean so far and the interruption
   was harmless: the interrupted call must not have been observed, nor have used the ledger.
   */
  lemma InterruptedEpisodes(cadence: nat, initial: Report, actions: seq<Action>, call: Action, cut: Interruption)
    requires cadence > 0 && call.Call?
    requires Possible(After(cadence, initial, actions, |actions|).state, call, cut)
    ensures var ep := Interrupted(After(cadence, initial, actions, |actions|), call, cut);
            Accepted(ep.events, Saved(ep.state)) <==> CleanLog(cadence, actions) && Harmless(cadence, actions, cut)
  {
    var n := |actions|;
    var ep := After(cadence, initial, actions, n);
    AfterTells(cadence, initial, actions, n);
    LedgerIsPrivate(cadence, initial, actions, n);
    if Harmless(cadence, actions, cut) {
      HarmlessLeavesNoTrace(ep, call, cut);
      CheckerAcceptsExactlyCleanLogs(cadence, initial, actions);
    } else if cut.Written? {
      WrittenStaysUnmatched(ep, call);
    } else {
      HarmfulContradictsMetadata(ep, call, cut, ShellCalls(actions, n), OptionalCalls(actions, n));
    }
  }

  /** A call that raises after its observation was logged: compliant by its own metadata, rejected by the checker. */
  lemma ObservedCallThatRaisesIsRejected(ep: Episode, call: Action, shells: nat, optional: nat)
    requires Tells(ep, shells, optional) && ep.state.ledgerCount == |ep.state.records|
    requires call.Call? && Possible(ep.state, call, Written)
    ensures var cutShort := Interrupted(ep, call, Written);
            Compliant(cutShort.state) && !Accepted(cutShort.events, Saved(cutShort.state))
  {
    WrittenStaysUnmatched(ep, call);
    ExecutedKeeps(ep.state, call);
    ExecutedDirties(ep.state, call);
  }

  /** For example a replay right after a shell call. */
  lemma ReplayAfterShellIsObserved(initial: Report, shell: Action, replay: Action)
    requires CountsShell(shell) && AsksReplay(replay)
    ensures Possible(After(FROZEN_CADENCE, initial, [shell], 1).state, replay, Written)
  {
    AfterTells(FROZEN_CADENCE, initial, [shell], 0);
    var start := After(FROZEN_CADENCE, initial, [shell], 0);
    PerformDirties(start, shell, After(FROZEN_CADENCE, initial, [shell], 1));
    ExecutedDirties(After(FROZEN_CADENCE, initial, [shell], 1).state, replay);
  }

  /** When even the initial observation raises, the trace stays without one and is rejected. */
  lemma EpisodesWithoutInitialAreRejected(events: seq<Event>, m: EpisodeMetadata)
    requires forall i :: 0 <= i < |events| ==> !events[i].Observation?
    ensures !Accepted(events, m)
  {
    assert Fails(InitialCountMismatch, events, m);
  }

  // ---------- two readings of the condition ----------

  /** Calls with usable arguments and distinct identifiers that leave the ledger alone are accepted at cadence 16. */
  lemma WellFormedEpisodesAreAccepted(initial: Report, actions: seq<Action>)
    requires forall i :: 0 <= i < |actions| && actions[i].Call? ==>
               && !UncountedShell(actions[i]) && !UsesLedgerDirectly(actions[i])
               && (actions[i].tool == ReplayTool ==> AsksReplay(actions[i]))
    requires forall i, j :: 0 <= i < j < |actions| && actions[i].Call? && actions[j].Call? ==> actions[i].id != actions[j].id
    ensures var ep := After(FROZEN_CADENCE, initial, actions, |actions|);
            Accepted(ep.events, Saved(ep.state)) && Compliant(ep.state)
  {
    CheckerAcceptsExactlyCleanLogs(FROZEN_CADENCE, initial, actions);
    UncountedShells(actions, |actions|);
    var ep := After(FROZEN_CADENCE, initial, actions, |actions|);
    assert !Fails(MetadataNoncompliant, ep.events, Saved(ep.state));
  }

  /** One shell call with undecodable arguments before a replay: compliant by its metadata, rejected by the checker. */
  lemma UndecodedShellIsRejected(initial: Report, shell: Action, replay: Action)
    requires UncountedShell(shell) && AsksReplay(replay)
    ensures var ep := After(FROZEN_CADENCE, initial, [shell, replay], 2);
            Compliant(ep.state) && !Accepted(ep.events, Saved(ep.state))
  {
    var actions := [shell, replay];
    CheckerAcceptsExactlyCleanLogs(FROZEN_CADENCE, initial, actions);
    assert !ReplayIsCovered(FROZEN_CADENCE, actions, 1) by { assert UncountedShell(actions[0]); }
    AfterTells(FROZEN_CADENCE, initial, actions, 2);
    LedgerIsPrivate(FROZEN_CADENCE, initial, actions, 2);
  }

  /** A decoded shell call whose fields keep it from being run is counted on both sides, and so accepted. */
  lemma RefusedShellIsAccepted(initial: Report, shell: Action, replay: Action)
    requires shell.Call? && shell.tool == ShellTool && shell.arguments == WrongFields
    requires AsksReplay(replay) && shell.id != replay.id
    ensures var ep := After(FROZEN_CADENCE, initial, [shell, replay], 2);
            Accepted(ep.events, Saved(ep.state))
  {
    WellFormedEpisodesAreAccepted(initial, [shell, replay]);
  }
}
