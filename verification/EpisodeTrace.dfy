/**
 What the runner writes to the trajectory of a scheduled-observation episode: the initial observation, and
 then, for every tool call, the observation it caused (if any) followed by its result.
 */
module EpisodeTrace {
  import opened Json
  import opened Wrappers
  import opened CompatibilityLedger
  import opened ObservationSchedule
  import opened ScheduleAudit

  /**
   The argument text of a call: no JSON object at all, an object whose fields the tool refuses, or one that it can
   use. Undecoded arguments never reach the branch of the tool.
   */
  datatype Arguments = Undecoded | WrongFields | Usable

  /**
   What happens next in an episode. The result of every call that returns is logged, whatever its arguments.
   `reading` is what the ledger service returns if the call makes it run.
   */
  datatype Action =
    | ModelReply
    | Remark
    | Call(id: string, tool: Tool, arguments: Arguments, request: nat, reading: Report)

  /** The observer is told of every decoded shell call, also of one whose fields keep it from being run. */
  predicate CountsShell(a: Action) {
    a.Call? && a.tool == ShellTool && a.arguments != Undecoded
  }

  /** The observer is told of a replay only when there is a program to replay. */
  predicate AsksReplay(a: Action) {
    a.Call? && a.tool == ReplayTool && a.arguments == Usable
  }

  /** The checks of the ledger that the call makes behind the observer's back. */
  function DirectChecks(a: Action): nat {
    if a.Call? && a.tool == CompatibilityTool && a.arguments != Undecoded then 1
    else if a.Call? && a.tool == HypothesisTool && a.arguments == Usable then 2
    else 0
  }

  datatype Episode = Episode(state: State, events: seq<Event>)

  /** `record_scheduled_observation`. */
  function Logged(r: Record, request: nat, parent: Value): Event {
    Observation(Some(request), Integer(r.number), Some(r.trigger), Some(r.shellCount), true, parent)
  }

  /** What a call does to the observer and the ledger. */
  function Executed(s: State, call: Action): (s': State)
    requires s.cadence > 0 && call.Call?
    ensures s'.cadence == s.cadence
    ensures s'.records == s.records
            || exists r :: s'.records == s.records + [r]
  {
    if CountsShell(call) then
      var s' := AfterShell(s, call.reading);
      assert s'.records == s.records || s'.records == s.records + [s'.records[|s.records|]];
      s'
    else if AsksReplay(call) then
      var s' := BeforeReplay(s, call.reading);
      assert s'.records == s.records || s'.records == s.records + [s'.records[|s.records|]];
      s'
    else s.(ledgerCount := s.ledgerCount + DirectChecks(call))
  }

  function Perform(ep: Episode, a: Action): (ep': Episode)
    requires ep.state.cadence > 0
    ensures ep'.state.cadence == ep.state.cadence
    ensures ep.events <= ep'.events
  {
    match a
    case ModelReply => ep.(events := ep.events + [Provider])
    case Remark => ep.(events := ep.events + [Note])
    case Call(id, tool, _, request, _) =>
      var state := Executed(ep.state, a);
      if |state.records| == |ep.state.records| then
        Episode(state, ep.events + [ToolResult(Text(id), tool, Null)])
      else
        var r := state.records[|ep.state.records|];
        Episode(state, ep.events + [Logged(r, request, Text(id)), ToolResult(Text(id), tool, Integer(r.number))])
  }

  /** The episode after its first `n` actions. */
  function After(cadence: nat, initial: Report, actions: seq<Action>, n: nat): (ep: Episode)
    requires cadence > 0 && n <= |actions|
    ensures ep.state.cadence == cadence
  {
    if n == 0 then
      var s := Observe(Start(cadence), InitialTrigger, initial);
      Episode(s, [Logged(s.records[0], 0, Null)])
    else
      Perform(After(cadence, initial, actions, n - 1), actions[n - 1])
  }

  /** The metadata that the runner saves with the finished episode. */
  function Saved(s: State): EpisodeMetadata
    requires s.cadence > 0
  {
    EpisodeMetadata(Compliant(s), Some(s.cadence), Some(s.ledgerCount), true, true)
  }

  // ---------- a log of actions ----------

  /** The number of shell calls, counted by the observer or not, among the first `n` actions. */
  function ShellCalls(actions: seq<Action>, n: nat): nat
    requires n <= |actions|
  {
    if n == 0 then 0
    else ShellCalls(actions, n - 1) + (if actions[n - 1].Call? && actions[n - 1].tool == ShellTool then 1 else 0)
  }

  /** The number of shell calls that the observer counts. */
  function ShellRuns(actions: seq<Action>, n: nat): nat
    requires n <= |actions|
  {
    if n == 0 then 0 else ShellRuns(actions, n - 1) + (if CountsShell(actions[n - 1]) then 1 else 0)
  }

  predicate UncountedShell(a: Action) {
    a.Call? && a.tool == ShellTool && a.arguments == Undecoded
  }

  /** The call uses the ledger behind the observer's back, or is one the protocol forbids outright. */
  predicate UsesLedgerDirectly(a: Action) {
    a.Call? && (a.tool == CompatibilityTool || (a.tool == HypothesisTool && a.arguments == Usable))
  }

  /** Action `j` is a counted shell call at which no periodic observation is due. */
  predicate Soils(cadence: nat, actions: seq<Action>, j: int)
    requires cadence > 0
  {
    0 <= j < |actions| && CountsShell(actions[j]) && ShellRuns(actions, j + 1) % cadence != 0
  }

  /** Before action `n` there has been such a shell call, and since then no counted shell call and no replay. */
  predicate DirtyBefore(cadence: nat, actions: seq<Action>, n: nat)
    requires cadence > 0 && n <= |actions|
  {
    exists j :: 0 <= j < n && Soils(cadence, actions, j)
                && forall k :: j < k < n ==> !CountsShell(actions[k]) && !AsksReplay(actions[k])
  }

  /** Action `i` makes the observer observe: a shell call at a multiple of the cadence, or a replay of dirty state. */
  predicate Observes(cadence: nat, actions: seq<Action>, i: int)
    requires cadence > 0
  {
    && 0 <= i < |actions|
    && ((CountsShell(actions[i]) && ShellRuns(actions, i + 1) % cadence == 0)
        || (AsksReplay(actions[i]) && DirtyBefore(cadence, actions, i)))
  }

  /** No call that was observed shares its identifier with a later call. */
  ghost predicate ObservedIdsAreFresh(cadence: nat, actions: seq<Action>)
    requires cadence > 0
  {
    forall i, j :: 0 <= i < j < |actions| && Observes(cadence, actions, i) && actions[j].Call?
                   ==> actions[i].id != actions[j].id
  }

  /** A replay call comes after counted shell calls only, and one without a program finds the state clean. */
  predicate ReplayIsCovered(cadence: nat, actions: seq<Action>, j: nat)
    requires cadence > 0 && j < |actions|
  {
    actions[j].Call? && actions[j].tool == ReplayTool ==>
      && (forall i :: 0 <= i < j ==> !UncountedShell(actions[i]))
      && (AsksReplay(actions[j]) || !DirtyBefore(cadence, actions, j))
  }

  /** The logs whose episodes the checker accepts, as a condition on the log alone. */
  ghost predicate CleanLog(cadence: nat, actions: seq<Action>)
    requires cadence > 0
  {
    && cadence == FROZEN_CADENCE
    && (forall i :: 0 <= i < |actions| ==> !UsesLedgerDirectly(actions[i]))
    && ObservedIdsAreFresh(cadence, actions)
    && ShellRuns(actions, |actions|) / FROZEN_CADENCE == ShellCalls(actions, |actions|) / FROZEN_CADENCE
    && (forall j :: 0 <= j < |actions| ==> ReplayIsCovered(cadence, actions, j))
  }

  // ---------- a last call that does not return ----------

  /**
   How far a call has come when an exception ends the episode. The exception path saves the observer's metadata
   all the same, and the result of the call is never logged.
   */
  datatype Interruption =
    | NothingDone                  // neither observer nor ledger have been touched
    | ReplayAsked                  // a replay of clean state was counted, and the replay itself raised
    | ShellCounted(checked: bool)  // a shell call was counted, and the check that was due, if any, raised
    | ReplayCounted(checked: bool) // a required observation was counted, and its check raised
    | Recorded                     // the observation was recorded and not yet logged
    | Written                      // the observation was logged
    | LedgerUsed(checks: nat)      // the call made this many checks of its own

  /** The points that a call can be interrupted at. `checked` says whether the ledger counted a raising check. */
  predicate Possible(s: State, call: Action, cut: Interruption)
    requires s.cadence > 0 && call.Call?
  {
    match cut
    case NothingDone => true
    case ReplayAsked => AsksReplay(call) && !s.dirty
    case ShellCounted(checked) => CountsShell(call) && (checked ==> (s.shellCount + 1) % s.cadence == 0)
    case ReplayCounted(_) => AsksReplay(call) && s.dirty
    case Recorded => |Executed(s, call).records| > |s.records|
    case Written => |Executed(s, call).records| > |s.records|
    case LedgerUsed(checks) => 1 <= checks <= DirectChecks(call)
  }

  /** What the episode leaves behind. */
  function Interrupted(ep: Episode, call: Action, cut: Interruption): (ep': Episode)
    requires ep.state.cadence > 0 && call.Call? && Possible(ep.state, call, cut)
    ensures ep'.state.cadence == ep.state.cadence
  {
    var s := ep.state;
    match cut
    case NothingDone => ep
    case ReplayAsked => ep.(state := s.(replayRequests := s.replayRequests + 1))
    case ShellCounted(checked) =>
      ep.(state := s.(shellCount := s.shellCount + 1, dirty := true,
                      ledgerCount := s.ledgerCount + (if checked then 1 else 0)))
    case ReplayCounted(checked) =>
      ep.(state := s.(replayRequests := s.replayRequests + 1, preReplayRequired := s.preReplayRequired + 1,
                      ledgerCount := s.ledgerCount + (if checked then 1 else 0)))
    case Recorded => ep.(state := Executed(s, call))
    case Written =>
      Episode(Executed(s, call), ep.events + [Logged(Executed(s, call).records[|s.records|], call.request, Text(call.id))])
    case LedgerUsed(checks) => ep.(state := s.(ledgerCount := s.ledgerCount + checks))
  }

  /** The interruptions that leave neither a half-told trace nor metadata that contradict it. */
  predicate Harmless(cadence: nat, actions: seq<Action>, cut: Interruption)
    requires cadence > 0
  {
    cut.NothingDone? || cut.ReplayAsked?
    || (cut.ShellCounted? && (ShellRuns(actions, |actions|) + 1) % cadence != 0)
  }
}
