/** `ProjectProgressState`: a versioned deployment history, every run of `record`, and its saved form. */
module ProgressState {
  import opened Json
  import opened Wrappers
  import opened Text
  import opened ProgressRecords

  const PROGRESS_STATE_SCHEMA := "envsolve-pro-project-progress-v1"

  datatype State = State(
    version: int, caseId: string, repository: string, revision: string,
    currentProgram: string, currentCondition: Condition,
    deployments: seq<Deployment>, repairs: seq<Repair>, risks: seq<string>)

  /** A deployment that vouches for a program under a condition. */
  predicate Vouches(d: Deployment, program: string, condition: Condition) {
    d.evidence.status == Pass && d.program == program && d.condition == condition
  }

  predicate Supported(s: State) {
    exists i :: 0 <= i < |s.deployments| && Vouches(s.deployments[i], s.currentProgram, s.currentCondition)
  }

  predicate Worded(risks: seq<string>) {
    forall i :: 0 <= i < |risks| ==> Strip(risks[i]) != ""
  }

  /** `__post_init__`. */
  function NewState(s: State): Result<State, Failure> {
    if s.version < 1 then Err(ValueError)
    else
      var caseId :- NonEmpty(s.caseId);
      var repository :- NonEmpty(s.repository);
      var revision :- NonEmpty(s.revision);
      var program := CanonicalScript(s.currentProgram);
      var made := s.(caseId := caseId, repository := repository, revision := revision, currentProgram := program);
      if program == "" || made.deployments == [] || !Supported(made) || !Worded(made.risks) then Err(ValueError)
      else Ok(made)
  }

  /** Every state that a constructor can return from valid records. */
  predicate Valid(s: State) {
    && s.version >= 1
    && Solid(s.caseId) && Solid(s.repository) && Solid(s.revision)
    && Canonical(s.currentProgram) && s.currentProgram != ""
    && ValidCondition(s.currentCondition)
    && (forall i :: 0 <= i < |s.deployments| ==> ValidDeployment(s.deployments[i]))
    && (forall i :: 0 <= i < |s.repairs| ==> ValidRepair(s.repairs[i]))
    && Supported(s) && Worded(s.risks)
  }

  lemma StateNormalises(s: State)
    ensures Valid(s) ==> NewState(s) == Ok(s)
    ensures NewState(s).Ok? && ValidCondition(s.currentCondition)
            && (forall i :: 0 <= i < |s.deployments| ==> ValidDeployment(s.deployments[i]))
            && (forall i :: 0 <= i < |s.repairs| ==> ValidRepair(s.repairs[i]))
            ==> Valid(NewState(s).value)
  {
    NonEmptyNormalises(s.caseId);
    NonEmptyNormalises(s.repository);
    NonEmptyNormalises(s.revision);
    CanonicalScriptIsIdempotent(s.currentProgram);
  }

  // ---------- start and record ----------

  function Start(caseId: string, repository: string, revision: string, program: string, condition: Condition,
                 evidence: Evidence, risks: seq<string>): Result<State, Failure>
  {
    if evidence.status != Pass then Err(ValueError)
    else
      var deployment :- NewDeployment(condition, program, evidence);
      NewState(State(1, caseId, repository, revision, program, condition, [deployment], [], risks))
  }

  /** The arguments of one `record` call. The records in it come from their constructors. */
  datatype Entry = Entry(condition: Condition, program: string, evidence: Evidence,
                         trigger: Option<Evidence>, risks: Option<seq<string>>)

  predicate ValidEntry(e: Entry) {
    ValidCondition(e.condition) && ValidEvidence(e.evidence) && (e.trigger.Some? ==> ValidEvidence(e.trigger.value))
  }

  /** The arguments that `record` passes to the constructor; `diff` stands for the joined unified diff. */
  function Next(s: State, e: Entry, diff: (string, string) -> string, deployment: Deployment): State {
    s.(version := s.version + 1,
       currentProgram := if e.evidence.status == Pass then deployment.program else s.currentProgram,
       currentCondition := if e.evidence.status == Pass then e.condition else s.currentCondition,
       deployments := s.deployments + [deployment],
       repairs := if e.trigger.Some? then
                    s.repairs + [Repair(e.condition, e.trigger.value, diff(s.currentProgram, deployment.program), e.evidence)]
                  else s.repairs,
       risks := if e.risks.None? then s.risks else e.risks.value)
  }

  function Record(s: State, e: Entry, diff: (string, string) -> string): Result<State, Failure> {
    var deployment :- NewDeployment(e.condition, CanonicalScript(e.program), e.evidence);
    if e.trigger.Some? && e.trigger.value.status == Pass then Err(ValueError)
    else NewState(Next(s, e, diff, deployment))
  }

  /** What the caller has to get right. The check for matching evidence is not among it. */
  predicate Acceptable(e: Entry) {
    && CanonicalScript(e.program) != ""
    && (e.trigger.Some? ==> e.trigger.value.status != Pass)
    && (e.risks.Some? ==> Worded(e.risks.value))
  }

  // ---------- one step ----------

  /** The deployment that an entry adds. */
  function Deployed(e: Entry): Deployment {
    Deployment(e.condition, CanonicalScript(e.program), e.evidence)
  }

  /** The latest deployment whose evidence passes. */
  ghost predicate IsLastPass(deployments: seq<Deployment>, i: int) {
    && 0 <= i < |deployments| && deployments[i].evidence.status == Pass
    && forall j :: i < j < |deployments| ==> deployments[j].evidence.status != Pass
  }

  /** The invariant of a run: the version counts deployments, and the current program is the last that passed. */
  ghost predicate Consistent(s: State) {
    && Valid(s)
    && s.version == |s.deployments|
    && exists i :: IsLastPass(s.deployments, i) && s.deployments[i].program == s.currentProgram
                   && s.deployments[i].condition == s.currentCondition
  }

  lemma StartIsConsistent(caseId: string, repository: string, revision: string, program: string,
                          condition: Condition, evidence: Evidence, risks: seq<string>)
    requires ValidCondition(condition) && ValidEvidence(evidence)
    ensures var started := Start(caseId, repository, revision, program, condition, evidence, risks);
            && (started.Ok? <==> evidence.status == Pass && CanonicalScript(program) != "" && Strip(caseId) != ""
                                 && Strip(repository) != "" && Strip(revision) != "" && Worded(risks))
            && (started.Ok? ==> Consistent(started.value) && started.value.version == 1 && started.value.repairs == [])
  {
    CanonicalScriptIsIdempotent(program);
    DeploymentNormalises(condition, program, evidence);
    if evidence.status == Pass && CanonicalScript(program) != "" {
      var deployment := NewDeployment(condition, program, evidence).value;
      var raw := State(1, caseId, repository, revision, program, condition, [deployment], [], risks);
      StateNormalises(raw);
      assert Vouches(raw.deployments[0], CanonicalScript(program), condition);
      if NewState(raw).Ok? {
        assert IsLastPass(NewState(raw).value.deployments, 0);
      }
    }
  }

  /** From a consistent state `record` succeeds exactly for acceptable entries, and says what it has done. */
  lemma RecordStep(s: State, e: Entry, diff: (string, string) -> string)
    requires Consistent(s) && ValidEntry(e)
    ensures Record(s, e, diff).Ok? <==> Acceptable(e)
    ensures Record(s, e, diff).Ok? ==>
              var s' := Record(s, e, diff).value;
              && Consistent(s')
              && (s'.caseId, s'.repository, s'.revision) == (s.caseId, s.repository, s.revision)
              && s'.deployments == s.deployments + [Deployment(e.condition, CanonicalScript(e.program), e.evidence)]
              && s'.repairs == s.repairs
                 + (if e.trigger.Some? then
                      [Repair(e.condition, e.trigger.value, diff(s.currentProgram, CanonicalScript(e.program)), e.evidence)]
                    else [])
              && s'.risks == e.risks.GetOr(s.risks)
  {
    CanonicalScriptIsIdempotent(e.program);
    DeploymentNormalises(e.condition, CanonicalScript(e.program), e.evidence);
    if CanonicalScript(e.program) != "" {
      var deployment := Deployed(e);
      StateNormalises(Next(s, e, diff, deployment));
      if Acceptable(e) {
        NextIsConsistent(s, e, diff, deployment);
      }
    }
  }

  lemma NextIsConsistent(s: State, e: Entry, diff: (string, string) -> string, deployment: Deployment)
    requires Consistent(s) && ValidEntry(e) && Acceptable(e) && deployment == Deployed(e)
    ensures Consistent(Next(s, e, diff, deployment))
  {
    CanonicalScriptIsIdempotent(e.program);
    NextIsSupported(s, e, diff, deployment);
  }

  /** The step keeps a passing deployment for the current program, namely the last one. */
  lemma NextIsSupported(s: State, e: Entry, diff: (string, string) -> string, deployment: Deployment)
    requires Consistent(s) && deployment.condition == e.condition && deployment.evidence == e.evidence
    ensures var next := Next(s, e, diff, deployment);
            && Supported(next)
            && exists i :: IsLastPass(next.deployments, i) && next.deployments[i].program == next.currentProgram
                           && next.deployments[i].condition == next.currentCondition
  {
    var next := Next(s, e, diff, deployment);
    var i :| IsLastPass(s.deployments, i) && s.deployments[i].program == s.currentProgram
             && s.deployments[i].condition == s.currentCondition;
    var k := if e.evidence.status == Pass then |s.deployments| else i;
    assert IsLastPass(next.deployments, k);
    assert Vouches(next.deployments[k], next.currentProgram, next.currentCondition);
  }

  // ---------- whole runs ----------

  /** The state after a list of calls; a call that raises leaves the state as it was. */
  function After(s: State, entries: seq<Entry>, diff: (string, string) -> string): State {
    if entries == [] then s
    else
      var before := After(s, entries[..|entries| - 1], diff);
      var step := Record(before, entries[|entries| - 1], diff);
      if step.Ok? then step.value else before
  }

  /** The calls that a run takes in, in order. */
  function Accepted(entries: seq<Entry>): seq<Entry> {
    if entries == [] then []
    else if Acceptable(entries[|entries| - 1]) then Accepted(entries[..|entries| - 1]) + [entries[|entries| - 1]]
    else Accepted(entries[..|entries| - 1])
  }

  function Triggered(entries: seq<Entry>): seq<Entry> {
    if entries == [] then []
    else if entries[|entries| - 1].trigger.Some? then Triggered(entries[..|entries| - 1]) + [entries[|entries| - 1]]
    else Triggered(entries[..|entries| - 1])
  }

  /** `state` is `first` with exactly the accepted calls added: one deployment each, one repair per trigger. */
  ghost predicate Logs(state: State, first: State, accepted: seq<Entry>) {
    && (state.caseId, state.repository, state.revision) == (first.caseId, first.repository, first.revision)
    && state.version == first.version + |accepted|
    && |state.deployments| == |first.deployments| + |accepted|
    && state.deployments[..|first.deployments|] == first.deployments
    && (forall i :: 0 <= i < |accepted| ==> state.deployments[|first.deployments| + i] == Deployed(accepted[i]))
    && |state.repairs| == |first.repairs| + |Triggered(accepted)|
    && state.repairs[..|first.repairs|] == first.repairs
    && (forall i :: 0 <= i < |Triggered(accepted)| ==>
          var repair := state.repairs[|first.repairs| + i];
          && repair.target == Triggered(accepted)[i].condition && Some(repair.trigger) == Triggered(accepted)[i].trigger
          && repair.result == Triggered(accepted)[i].evidence)
  }

  /** Every run from a consistent state is consistent and logs exactly the acceptable calls. */
  lemma {:induction false} RunsLogEveryAcceptedCall(first: State, entries: seq<Entry>, diff: (string, string) -> string)
    requires Consistent(first)
    requires forall i :: 0 <= i < |entries| ==> ValidEntry(entries[i])
    ensures Consistent(After(first, entries, diff))
    ensures Logs(After(first, entries, diff), first, Accepted(entries))
  {
    if entries != [] {
      var init, e := entries[..|entries| - 1], entries[|entries| - 1];
      RunsLogEveryAcceptedCall(first, init, diff);
      var before := After(first, init, diff);
      RecordStep(before, e, diff);
      if Acceptable(e) {
        LogsOneMore(before, Record(before, e, diff).value, first, Accepted(init), e, diff);
      }
    }
  }

  lemma LogsOneMore(before: State, after: State, first: State, accepted: seq<Entry>, e: Entry, diff: (string, string) -> string)
    requires Logs(before, first, accepted)
    requires after.version == before.version + 1
    requires (after.caseId, after.repository, after.revision) == (before.caseId, before.repository, before.revision)
    requires after.deployments == before.deployments + [Deployed(e)]
    requires after.repairs == before.repairs
             + (if e.trigger.Some? then
                  [Repair(e.condition, e.trigger.value, diff(before.currentProgram, CanonicalScript(e.program)), e.evidence)]
                else [])
    ensures Logs(after, first, accepted + [e])
  {
    assert (accepted + [e])[..|accepted|] == accepted;
  }

  /** Later states extend earlier ones: no deployment and no repair is ever rewritten. */
  lemma {:induction false} HistoryOnlyGrows(first: State, entries: seq<Entry>, k: nat, diff: (string, string) -> string)
    requires Consistent(first) && k <= |entries|
    requires forall i :: 0 <= i < |entries| ==> ValidEntry(entries[i])
    ensures After(first, entries[..k], diff).deployments <= After(first, entries, diff).deployments
    ensures After(first, entries[..k], diff).repairs <= After(first, entries, diff).repairs
    decreases |entries|
  {
    if k == |entries| {
      assert entries[..k] == entries;
    } else {
      var init := entries[..|entries| - 1];
      assert init[..k] == entries[..k];
      HistoryOnlyGrows(first, init, k, diff);
      RunsLogEveryAcceptedCall(first, init, diff);
      RecordStep(After(first, init, diff), entries[|entries| - 1], diff);
    }
  }

  // ---------- the saved form ----------

  function TextList(items: seq<string>): Value {
    List(seq(|items|, i requires 0 <= i < |items| => Text(items[i])))
  }

  function DeploymentList(items: seq<Deployment>): Value {
    List(seq(|items|, i requires 0 <= i < |items| => DeploymentDict(items[i])))
  }

  function RepairList(items: seq<Repair>): Value {
    List(seq(|items|, i requires 0 <= i < |items| => RepairDict(items[i])))
  }

  /** `to_dict`. */
  function ToDict(s: State): Value {
    Object(map["schema_version" := Text(PROGRESS_STATE_SCHEMA)] + DictFields(s))
  }

  function DictFields(s: State): Fields {
    map["version" := Integer(s.version), "case_id" := Text(s.caseId), "repository" := Text(s.repository),
        "revision" := Text(s.revision), "current_program" := Text(s.currentProgram),
        "current_condition" := ConditionDict(s.currentCondition),
        "deployments" := DeploymentList(s.deployments), "repairs" := RepairList(s.repairs),
        "unresolved_risks" := TextList(s.risks)]
  }

  /** What a comprehension over a JSON value iterates: items, characters, or dictionary keys. */
  function Iterate(py: Python, v: Value): Result<seq<Value>, Failure> {
    match v
    case List(items) => Ok(items)
    case Text(s) => Ok(seq(|s|, i requires 0 <= i < |s| => Text([s[i]])))
    case Object(fields) => Ok(TextList(py.keys(fields)).items)
    case _ => Err(TypeError)
  }

  function ReadAll<T>(items: seq<Value>, read: Value -> Result<T, Failure>): Result<seq<T>, Failure> {
    if items == [] then Ok([])
    else
      var rest :- ReadAll(items[..|items| - 1], read);
      var last :- read(items[|items| - 1]);
      Ok(rest + [last])
  }

  function DeploymentReader(py: Python): Value -> Result<Deployment, Failure> {
    v => ReadDeployment(py, v)
  }

  function RepairReader(py: Python): Value -> Result<Repair, Failure> {
    v => ReadRepair(py, v)
  }

  function Strings(py: Python, items: seq<Value>): seq<string> {
    seq(|items|, i requires 0 <= i < |items| => Str(py, items[i]))
  }

  function GetOr(fields: Fields, name: string, default: Value): Value {
    if name in fields then fields[name] else default
  }

  function ReadVersion(v: Value): Result<int, Failure> {
    if v.Integer? then Ok(v.n) else Err(ValueError)
  }

  /** The parts of a saved state, all read before the constructor judges them. */
  function FromDict(py: Python, v: Value): Result<State, Failure> {
    if !v.Object? then Err(ValueError)
    else if Get(v.fields, "schema_version") != Text(PROGRESS_STATE_SCHEMA) then Err(ValueError)
    else FromFields(py, v.fields)
  }

  /** What is read one by one, before the lists. */
  datatype Header = Header(version: Value, caseId: string, repository: string, revision: string, program: string,
                           condition: Condition)

  function ReadHeader(py: Python, v: Value): Result<Header, Failure> {
    var version :- Field(v, "version");
    var caseId :- Field(v, "case_id");
    var repository :- Field(v, "repository");
    var revision :- Field(v, "revision");
    var program :- Field(v, "current_program");
    var conditionValue :- Field(v, "current_condition");
    var condition :- ReadCondition(py, conditionValue);
    Ok(Header(version, Str(py, caseId), Str(py, repository), Str(py, revision), Str(py, program), condition))
  }

  datatype Lists = Lists(deployments: seq<Deployment>, repairs: seq<Repair>, risks: seq<string>)

  function ReadLists(py: Python, fields: Fields): Result<Lists, Failure> {
    var deploymentValue :- Field(Object(fields), "deployments");
    var deploymentItems :- Iterate(py, deploymentValue);
    var deployments :- ReadAll(deploymentItems, DeploymentReader(py));
    var repairItems :- Iterate(py, GetOr(fields, "repairs", List([])));
    var repairs :- ReadAll(repairItems, RepairReader(py));
    var riskItems :- Iterate(py, GetOr(fields, "unresolved_risks", List([])));
    Ok(Lists(deployments, repairs, Strings(py, riskItems)))
  }

  function Assemble(h: Header, version: int, l: Lists): State {
    State(version, h.caseId, h.repository, h.revision, h.program, h.condition, l.deployments, l.repairs, l.risks)
  }

  function FromFields(py: Python, fields: Fields): Result<State, Failure> {
    var header :- ReadHeader(py, Object(fields));
    var lists :- ReadLists(py, fields);
    var version :- ReadVersion(header.version);
    NewState(Assemble(header, version, lists))
  }

  lemma {:induction false} ReadAllBack<T>(items: seq<Value>, read: Value -> Result<T, Failure>, values: seq<T>)
    requires |items| == |values|
    requires forall i :: 0 <= i < |items| ==> read(items[i]) == Ok(values[i])
    ensures ReadAll(items, read) == Ok(values)
  {
    if items != [] {
      ReadAllBack(items[..|items| - 1], read, values[..|values| - 1]);
      assert values == values[..|values| - 1] + [values[|values| - 1]];
    }
  }

  lemma DeploymentsReadBack(py: Python, items: seq<Deployment>)
    requires forall i :: 0 <= i < |items| ==> ValidDeployment(items[i])
    ensures ReadAll(DeploymentList(items).items, DeploymentReader(py)) == Ok(items)
  {
    forall i | 0 <= i < |items| ensures DeploymentReader(py)(DeploymentList(items).items[i]) == Ok(items[i]) {
      DeploymentRoundTrip(py, items[i]);
    }
    ReadAllBack(DeploymentList(items).items, DeploymentReader(py), items);
  }

  lemma RepairsReadBack(py: Python, items: seq<Repair>)
    requires forall i :: 0 <= i < |items| ==> ValidRepair(items[i])
    ensures ReadAll(RepairList(items).items, RepairReader(py)) == Ok(items)
  {
    forall i | 0 <= i < |items| ensures RepairReader(py)(RepairList(items).items[i]) == Ok(items[i]) {
      RepairRoundTrip(py, items[i]);
    }
    ReadAllBack(RepairList(items).items, RepairReader(py), items);
  }

  /** Every field of the document is the one that the state was written to. */
  predicate HeaderWritten(fields: Fields, s: State) {
    && Field(Object(fields), "version") == Ok(Integer(s.version))
    && Field(Object(fields), "case_id") == Ok(Text(s.caseId))
    && Field(Object(fields), "repository") == Ok(Text(s.repository))
    && Field(Object(fields), "revision") == Ok(Text(s.revision))
    && Field(Object(fields), "current_program") == Ok(Text(s.currentProgram))
    && Field(Object(fields), "current_condition") == Ok(ConditionDict(s.currentCondition))
  }

  predicate ListsWritten(fields: Fields, s: State) {
    && Field(Object(fields), "deployments") == Ok(DeploymentList(s.deployments))
    && GetOr(fields, "repairs", List([])) == RepairList(s.repairs)
    && GetOr(fields, "unresolved_risks", List([])) == TextList(s.risks)
  }

  lemma HeaderIsWritten(s: State)
    ensures HeaderWritten(ToDict(s).fields, s)
    ensures Get(ToDict(s).fields, "schema_version") == Text(PROGRESS_STATE_SCHEMA)
  {
  }

  lemma ListsAreWritten(s: State)
    ensures ListsWritten(ToDict(s).fields, s)
  {
  }

  lemma HeaderIsReadBack(py: Python, s: State, fields: Fields)
    requires Valid(s) && HeaderWritten(fields, s)
    ensures ReadHeader(py, Object(fields))
         == Ok(Header(Integer(s.version), s.caseId, s.repository, s.revision, s.currentProgram, s.currentCondition))
  {
    ConditionRoundTrip(py, s.currentCondition);
  }

  /** Reading the lists is reading their items. */
  lemma ListsByItems(py: Python, fields: Fields, deployments: seq<Value>, repairs: seq<Value>, risks: seq<Value>, l: Lists)
    requires Field(Object(fields), "deployments") == Ok(List(deployments))
    requires GetOr(fields, "repairs", List([])) == List(repairs)
    requires GetOr(fields, "unresolved_risks", List([])) == List(risks)
    requires ReadAll(deployments, DeploymentReader(py)) == Ok(l.deployments)
    requires ReadAll(repairs, RepairReader(py)) == Ok(l.repairs)
    requires Strings(py, risks) == l.risks
    ensures ReadLists(py, fields) == Ok(l)
  {
  }

  lemma ListsAreReadBack(py: Python, s: State, fields: Fields)
    requires Valid(s) && ListsWritten(fields, s)
    ensures ReadLists(py, fields) == Ok(Lists(s.deployments, s.repairs, s.risks))
  {
    DeploymentsReadBack(py, s.deployments);
    RepairsReadBack(py, s.repairs);
    assert Strings(py, TextList(s.risks).items) == s.risks;
    ListsByItems(py, fields, DeploymentList(s.deployments).items, RepairList(s.repairs).items, TextList(s.risks).items,
                 Lists(s.deployments, s.repairs, s.risks));
  }

  lemma WrittenIsReadBack(py: Python, s: State, fields: Fields)
    requires Valid(s) && HeaderWritten(fields, s) && ListsWritten(fields, s)
    ensures FromFields(py, fields) == Ok(s)
  {
    HeaderIsReadBack(py, s, fields);
    ListsAreReadBack(py, s, fields);
    StateNormalises(s);
  }

  /** Saving and loading a valid state gives the same state. */
  lemma SavedStateIsReadBack(py: Python, s: State)
    requires Valid(s)
    ensures FromDict(py, ToDict(s)) == Ok(s)
  {
    HeaderIsWritten(s);
    ListsAreWritten(s);
    WrittenIsReadBack(py, s, ToDict(s).fields);
  }

  lemma {:induction false} ReadAllValid<T>(items: seq<Value>, read: Value -> Result<T, Failure>, valid: T -> bool)
    requires forall v :: read(v).Ok? ==> valid(read(v).value)
    ensures ReadAll(items, read).Ok? ==> forall i :: 0 <= i < |ReadAll(items, read).value| ==> valid(ReadAll(items, read).value[i])
  {
    if items != [] {
      ReadAllValid(items[..|items| - 1], read, valid);
    }
  }

  lemma HeaderIsValid(py: Python, v: Value)
    requires ReadHeader(py, v).Ok?
    ensures ValidCondition(ReadHeader(py, v).value.condition)
  {
    ReadingValidates(py, v.fields["current_condition"]);
  }

  lemma ListsAreValid(py: Python, fields: Fields)
    requires ReadLists(py, fields).Ok?
    ensures forall i :: 0 <= i < |ReadLists(py, fields).value.deployments| ==> ValidDeployment(ReadLists(py, fields).value.deployments[i])
    ensures forall i :: 0 <= i < |ReadLists(py, fields).value.repairs| ==> ValidRepair(ReadLists(py, fields).value.repairs[i])
  {
    forall item ensures ReadDeployment(py, item).Ok? ==> ValidDeployment(ReadDeployment(py, item).value) {
      ReadingRecordsValidates(py, item);
    }
    forall item ensures ReadRepair(py, item).Ok? ==> ValidRepair(ReadRepair(py, item).value) {
      ReadingRecordsValidates(py, item);
    }
    ReadAllValid(Iterate(py, fields["deployments"]).value, DeploymentReader(py), d => ValidDeployment(d));
    ReadAllValid(Iterate(py, GetOr(fields, "repairs", List([]))).value, RepairReader(py), r => ValidRepair(r));
  }

  /** Whatever document loads, the loaded state is valid, so saving it again loses nothing. */
  lemma LoadedStateIsValid(py: Python, v: Value)
    requires FromDict(py, v).Ok?
    ensures Valid(FromDict(py, v).value)
    ensures FromDict(py, ToDict(FromDict(py, v).value)) == FromDict(py, v)
  {
    HeaderIsValid(py, v);
    ListsAreValid(py, v.fields);
    var header, lists := ReadHeader(py, v).value, ReadLists(py, v.fields).value;
    StateNormalises(Assemble(header, ReadVersion(header.version).value, lists));
    SavedStateIsReadBack(py, FromDict(py, v).value);
  }
}
