/** The immutable records of `progress_state.py`: normalising constructors and their dictionary form. */
module ProgressRecords {
  import opened Json
  import opened Wrappers
  import opened Text

  datatype Failure = ValueError | KeyError | TypeError

  datatype Status = Pass | Fail | Unknown | InfrastructureError

  datatype Condition = Condition(conditionId: string, operatingSystem: string, architecture: string,
                                 pythonVersion: string, image: Option<string>)

  /** `duration` is null or a number; a bool is a number for Python. */
  datatype Evidence = Evidence(status: Status, source: string, exitCode: Option<int>, goalPassed: Option<bool>,
                               observedPython: Option<string>, duration: Value, failureSummary: Option<string>)

  datatype Deployment = Deployment(condition: Condition, program: string, evidence: Evidence)

  datatype Repair = Repair(target: Condition, trigger: Evidence, programDelta: string, result: Evidence)

  /** `str` on values that are not strings, and the key order of a dictionary. */
  datatype Python = Python(render: Value -> string, keys: Fields -> seq<string>)

  // ---------- constructors ----------

  /** `_nonempty`. */
  function NonEmpty(s: string): Result<string, Failure> {
    if Strip(s) == "" then Err(ValueError) else Ok(Strip(s))
  }

  function NonEmptyOption(s: Option<string>): Result<Option<string>, Failure> {
    if s.None? then Ok(None) else var text :- NonEmpty(s.value); Ok(Some(text))
  }

  function NewCondition(c: Condition): Result<Condition, Failure> {
    var id :- NonEmpty(c.conditionId);
    var os :- NonEmpty(c.operatingSystem);
    var architecture :- NonEmpty(c.architecture);
    var python :- NonEmpty(c.pythonVersion);
    var image :- NonEmptyOption(c.image);
    Ok(Condition(id, os, architecture, python, image))
  }

  /** The test `duration_seconds < 0`, which raises on anything that is not a number. */
  function CheckDuration(duration: Value): Result<Value, Failure> {
    match duration
    case Null => Ok(duration)
    case Bool(_) => Ok(duration)
    case Integer(n) => if n < 0 then Err(ValueError) else Ok(duration)
    case Float(x) => if x < 0.0 then Err(ValueError) else Ok(duration)
    case _ => Err(TypeError)
  }

  function NewEvidence(e: Evidence): Result<Evidence, Failure> {
    var source :- NonEmpty(e.source);
    var duration :- CheckDuration(e.duration);
    var python :- NonEmptyOption(e.observedPython);
    var summary :- NonEmptyOption(e.failureSummary);
    if e.status == Pass && !(e.exitCode == Some(0) && e.goalPassed == Some(true)) then Err(ValueError)
    else Ok(Evidence(e.status, source, e.exitCode, e.goalPassed, python, duration, summary))
  }

  function NewDeployment(condition: Condition, program: string, evidence: Evidence): Result<Deployment, Failure> {
    var normalized := CanonicalScript(program);
    if normalized == "" then Err(ValueError) else Ok(Deployment(condition, normalized, evidence))
  }

  // ---------- what the constructors establish ----------

  predicate Solid(s: string) { s != "" && Trimmed(s) }

  predicate SolidOption(s: Option<string>) { s.Some? ==> Solid(s.value) }

  predicate ValidCondition(c: Condition) {
    Solid(c.conditionId) && Solid(c.operatingSystem) && Solid(c.architecture) && Solid(c.pythonVersion) && SolidOption(c.image)
  }

  predicate ValidDuration(v: Value) {
    v.Null? || v.Bool? || (v.Integer? && v.n >= 0) || (v.Float? && v.x >= 0.0)
  }

  predicate ValidEvidence(e: Evidence) {
    && Solid(e.source) && SolidOption(e.observedPython) && SolidOption(e.failureSummary) && ValidDuration(e.duration)
    && (e.status == Pass ==> e.exitCode == Some(0) && e.goalPassed == Some(true))
  }

  predicate ValidDeployment(d: Deployment) {
    ValidCondition(d.condition) && ValidEvidence(d.evidence) && Canonical(d.program) && d.program != ""
  }

  predicate ValidRepair(r: Repair) {
    ValidCondition(r.target) && ValidEvidence(r.trigger) && ValidEvidence(r.result)
  }

  /** A constructor accepts what has content, returns it trimmed, and leaves trimmed text alone. */
  lemma NonEmptyNormalises(s: string)
    ensures NonEmpty(s).Ok? <==> exists i :: 0 <= i < |s| && !IsSpace(s[i])
    ensures NonEmpty(s).Ok? ==> Solid(NonEmpty(s).value)
    ensures Solid(s) ==> NonEmpty(s) == Ok(s)
  {
    StripTrims(s);
    BlankStripsToNothing(s);
  }

  lemma {:induction false} StripLeftOfBlank(s: string)
    ensures StripLeft(s) == "" <==> forall i :: 0 <= i < |s| ==> IsSpace(s[i])
  {
    if s != [] && IsSpace(s[0]) {
      StripLeftOfBlank(s[1..]);
      assert forall i :: 0 < i < |s| ==> s[i] == s[1..][i - 1];
      if StripLeft(s) == "" {
        forall i | 0 <= i < |s| ensures IsSpace(s[i]) { if i > 0 { assert s[1..][i - 1] == s[i]; } }
      }
    }
  }

  lemma BlankStripsToNothing(s: string)
    ensures Strip(s) == "" <==> forall i :: 0 <= i < |s| ==> IsSpace(s[i])
  {
    StripLeftOfBlank(s);
    StripLeftTrims(s);
    var left := StripLeft(s);
    StripRightTrims(left);
    if left != "" && StripRight(left) == "" {
      StripRightKeepsContent(left, 0);
    }
  }

  lemma {:induction false} StripRightKeepsContent(s: string, i: nat)
    requires i < |s| && !IsSpace(s[i])
    ensures |StripRight(s)| > i
  {
    if IsSpace(s[|s| - 1]) {
      StripRightKeepsContent(s[..|s| - 1], i);
    }
  }

  lemma OptionNormalises(s: Option<string>)
    ensures NonEmptyOption(s).Ok? ==> SolidOption(NonEmptyOption(s).value)
    ensures SolidOption(s) ==> NonEmptyOption(s) == Ok(s)
  {
    if s.Some? {
      NonEmptyNormalises(s.value);
    }
  }

  /** Every constructed condition is valid, and constructing a valid one again changes nothing. */
  lemma ConditionNormalises(c: Condition)
    ensures NewCondition(c).Ok? ==> ValidCondition(NewCondition(c).value)
    ensures ValidCondition(c) ==> NewCondition(c) == Ok(c)
  {
    NonEmptyNormalises(c.conditionId);
    NonEmptyNormalises(c.operatingSystem);
    NonEmptyNormalises(c.architecture);
    NonEmptyNormalises(c.pythonVersion);
    OptionNormalises(c.image);
  }

  lemma EvidenceNormalises(e: Evidence)
    ensures NewEvidence(e).Ok? ==> ValidEvidence(NewEvidence(e).value)
    ensures ValidEvidence(e) ==> NewEvidence(e) == Ok(e)
  {
    NonEmptyNormalises(e.source);
    OptionNormalises(e.observedPython);
    OptionNormalises(e.failureSummary);
  }

  lemma DeploymentNormalises(c: Condition, program: string, e: Evidence)
    ensures NewDeployment(c, program, e).Ok? <==> CanonicalScript(program) != ""
    ensures NewDeployment(c, program, e).Ok? && ValidCondition(c) && ValidEvidence(e) ==>
              ValidDeployment(NewDeployment(c, program, e).value)
    ensures Canonical(program) && program != "" ==> NewDeployment(c, program, e) == Ok(Deployment(c, program, e))
  {
    CanonicalScriptIsIdempotent(program);
  }

  // ---------- dictionary form ----------

  function StatusText(s: Status): string {
    match s
    case Pass => "pass"
    case Fail => "fail"
    case Unknown => "unknown"
    case InfrastructureError => "infrastructure_error"
  }

  function OptionText(s: Option<string>): Value {
    if s.Some? then Text(s.value) else Null
  }

  function ConditionDict(c: Condition): Value {
    Object(map["condition_id" := Text(c.conditionId), "operating_system" := Text(c.operatingSystem),
               "architecture" := Text(c.architecture), "python_version" := Text(c.pythonVersion),
               "image" := OptionText(c.image)])
  }

  function EvidenceDict(e: Evidence): Value {
    Object(map["status" := Text(StatusText(e.status)), "source" := Text(e.source),
               "bootstrap_exit_code" := if e.exitCode.Some? then Integer(e.exitCode.value) else Null,
               "public_goal_passed" := if e.goalPassed.Some? then Bool(e.goalPassed.value) else Null,
               "observed_python" := OptionText(e.observedPython), "duration_seconds" := e.duration,
               "failure_summary" := OptionText(e.failureSummary)])
  }

  function DeploymentDict(d: Deployment): Value {
    Object(map["condition" := ConditionDict(d.condition), "program" := Text(d.program), "evidence" := EvidenceDict(d.evidence)])
  }

  function RepairDict(r: Repair): Value {
    Object(map["target_condition" := ConditionDict(r.target), "trigger" := EvidenceDict(r.trigger),
               "program_delta" := Text(r.programDelta), "result" := EvidenceDict(r.result)])
  }

  // ---------- reading it back ----------

  function Str(py: Python, v: Value): string {
    if v.Text? then v.s else py.render(v)
  }

  /** `value[name]`: anything but a dictionary refuses a string index. */
  function Field(v: Value, name: string): Result<Value, Failure> {
    if !v.Object? then Err(TypeError)
    else if name !in v.fields then Err(KeyError)
    else Ok(v.fields[name])
  }

  function OptionalStr(py: Python, fields: Fields, name: string): Option<string> {
    if Get(fields, name).Null? then None else Some(Str(py, Get(fields, name)))
  }

  function ReadCondition(py: Python, v: Value): Result<Condition, Failure> {
    var id :- Field(v, "condition_id");
    var os :- Field(v, "operating_system");
    var architecture :- Field(v, "architecture");
    var python :- Field(v, "python_version");
    NewCondition(Condition(Str(py, id), Str(py, os), Str(py, architecture), Str(py, python),
                           if v.Object? then OptionalStr(py, v.fields, "image") else None))
  }

  function ReadStatus(v: Value): Result<Status, Failure> {
    if v == Text("pass") then Ok(Pass)
    else if v == Text("fail") then Ok(Fail)
    else if v == Text("unknown") then Ok(Unknown)
    else if v == Text("infrastructure_error") then Ok(InfrastructureError)
    else if Hashable(v) then Err(ValueError)
    else Err(TypeError)
  }

  function ReadExitCode(v: Value): Result<Option<int>, Failure> {
    if v.Null? then Ok(None) else if v.Integer? then Ok(Some(v.n)) else Err(ValueError)
  }

  function ReadGoal(v: Value): Result<Option<bool>, Failure> {
    if v.Null? then Ok(None) else if v.Bool? then Ok(Some(v.b)) else Err(ValueError)
  }

  function ReadEvidence(py: Python, v: Value): Result<Evidence, Failure> {
    var statusValue :- Field(v, "status");
    var source :- Field(v, "source");
    var status :- ReadStatus(statusValue);
    var fields := if v.Object? then v.fields else map[];
    var exitCode :- ReadExitCode(Get(fields, "bootstrap_exit_code"));
    var goal :- ReadGoal(Get(fields, "public_goal_passed"));
    NewEvidence(Evidence(status, Str(py, source), exitCode, goal, OptionalStr(py, fields, "observed_python"),
                         Get(fields, "duration_seconds"), OptionalStr(py, fields, "failure_summary")))
  }

  function ReadDeployment(py: Python, v: Value): Result<Deployment, Failure> {
    var conditionValue :- Field(v, "condition");
    var condition :- ReadCondition(py, conditionValue);
    var program :- Field(v, "program");
    var evidenceValue :- Field(v, "evidence");
    var evidence :- ReadEvidence(py, evidenceValue);
    NewDeployment(condition, Str(py, program), evidence)
  }

  function ReadRepair(py: Python, v: Value): Result<Repair, Failure> {
    var targetValue :- Field(v, "target_condition");
    var target :- ReadCondition(py, targetValue);
    var triggerValue :- Field(v, "trigger");
    var trigger :- ReadEvidence(py, triggerValue);
    var delta :- Field(v, "program_delta");
    var resultValue :- Field(v, "result");
    var result :- ReadEvidence(py, resultValue);
    Ok(Repair(target, trigger, Str(py, delta), result))
  }

  // ---------- round trips ----------

  lemma ConditionRoundTrip(py: Python, c: Condition)
    requires ValidCondition(c)
    ensures ReadCondition(py, ConditionDict(c)) == Ok(c)
  {
    ConditionNormalises(c);
  }

  lemma StatusRoundTrip(s: Status)
    ensures ReadStatus(Text(StatusText(s))) == Ok(s)
  {
    assert "pass"[0] == 'p' && "fail"[0] == 'f' && "unknown"[0] == 'u' && "infrastructure_error"[0] == 'i';
  }

  lemma EvidenceRoundTrip(py: Python, e: Evidence)
    requires ValidEvidence(e)
    ensures ReadEvidence(py, EvidenceDict(e)) == Ok(e)
  {
    EvidenceNormalises(e);
    StatusRoundTrip(e.status);
  }

  lemma DeploymentRoundTrip(py: Python, d: Deployment)
    requires ValidDeployment(d)
    ensures ReadDeployment(py, DeploymentDict(d)) == Ok(d)
  {
    ConditionRoundTrip(py, d.condition);
    EvidenceRoundTrip(py, d.evidence);
    DeploymentNormalises(d.condition, d.program, d.evidence);
  }

  /** Reading a repair is reading its four fields. */
  lemma RepairByFields(py: Python, v: Value, target: Value, trigger: Value, result: Value, r: Repair)
    requires Field(v, "target_condition") == Ok(target) && ReadCondition(py, target) == Ok(r.target)
    requires Field(v, "trigger") == Ok(trigger) && ReadEvidence(py, trigger) == Ok(r.trigger)
    requires Field(v, "result") == Ok(result) && ReadEvidence(py, result) == Ok(r.result)
    requires Field(v, "program_delta") == Ok(Text(r.programDelta))
    ensures ReadRepair(py, v) == Ok(r)
  {
  }

  lemma RepairRoundTrip(py: Python, r: Repair)
    requires ValidRepair(r)
    ensures ReadRepair(py, RepairDict(r)) == Ok(r)
  {
    ConditionRoundTrip(py, r.target);
    EvidenceRoundTrip(py, r.trigger);
    EvidenceRoundTrip(py, r.result);
    RepairByFields(py, RepairDict(r), ConditionDict(r.target), EvidenceDict(r.trigger), EvidenceDict(r.result), r);
  }

  /** Whatever is read back successfully is valid. */
  lemma ReadingValidates(py: Python, v: Value)
    ensures ReadCondition(py, v).Ok? ==> ValidCondition(ReadCondition(py, v).value)
    ensures ReadEvidence(py, v).Ok? ==> ValidEvidence(ReadEvidence(py, v).value)
  {
    if v.Object? {
      var fields := v.fields;
      if ReadCondition(py, v).Ok? {
        ConditionNormalises(Condition(Str(py, fields["condition_id"]), Str(py, fields["operating_system"]),
                                      Str(py, fields["architecture"]), Str(py, fields["python_version"]),
                                      OptionalStr(py, fields, "image")));
      }
      if ReadEvidence(py, v).Ok? {
        EvidenceNormalises(Evidence(ReadStatus(fields["status"]).value, Str(py, fields["source"]),
                                    ReadExitCode(Get(fields, "bootstrap_exit_code")).value,
                                    ReadGoal(Get(fields, "public_goal_passed")).value,
                                    OptionalStr(py, fields, "observed_python"), Get(fields, "duration_seconds"),
                                    OptionalStr(py, fields, "failure_summary")));
      }
    }
  }

  lemma ReadingRecordsValidates(py: Python, v: Value)
    ensures ReadDeployment(py, v).Ok? ==> ValidDeployment(ReadDeployment(py, v).value)
    ensures ReadRepair(py, v).Ok? ==> ValidRepair(ReadRepair(py, v).value)
  {
    if ReadDeployment(py, v).Ok? {
      ReadingValidates(py, v.fields["condition"]);
      ReadingValidates(py, v.fields["evidence"]);
      DeploymentNormalises(ReadCondition(py, v.fields["condition"]).value, Str(py, v.fields["program"]),
                           ReadEvidence(py, v.fields["evidence"]).value);
    }
    if ReadRepair(py, v).Ok? {
      ReadingValidates(py, v.fields["target_condition"]);
      ReadingValidates(py, v.fields["trigger"]);
      ReadingValidates(py, v.fields["result"]);
    }
  }
}
