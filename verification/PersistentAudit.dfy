/** `audit_persistent_episode`: state reuse and clean certification, checked on the recorded evidence of an episode. */
module PersistentAudit {
  import opened Json
  import opened Wrappers
  import opened Sorting

  datatype Transition = Transition(candidate: Value, environment: Value, disposition: Value, sequence: int)

  /** The candidate certification read from the episode's result, when there is one. */
  datatype Certification = Certification(certified: bool, acceptedId: Value, acceptedEnvironment: Value)

  datatype AuditError =
    | NonInternalChannel
    | OfficialEvidence
    | ControlHasTransitions
    | ControlNotFresh
    | CleanWithoutCandidate
    | CleanWithoutSource
    | CleanNotFresh
    | CleanKeepsLineage
    | CleanReplaysOtherProgram
    | InconsistentLineage
    | ReuseWithoutEvidence
    | NoFreshnessLabel
    | PassWithoutOneReplay
    | DamagedLineageReused
    | CertifiedWithoutReplay
    | CertifiedInWrongEnvironment

  datatype Metrics = Metrics(construction: nat, reused: nat, cleanAttempts: nat, cleanPasses: nat, reusedCleanPasses: nat)

  // ---------- reading the recorded evidence ----------

  /** A verification record, reduced to the fields that the audit consults. */
  datatype Verification = Verification(
    sequence: int, channel: Value, role: Value, candidate: Value, lineage: Value, environment: Value,
    freshness: Value, reportedPassed: Value, passed: Value)

  /** An action, reduced to the source candidate and the program hash it names. */
  datatype Action = Action(source: Option<string>, sha256: Option<string>)

  /** `event_sequence`: an integer that is not a bool, else 0. */
  function Sequence(item: Fields): int {
    var metadata := Get(item, "state_metadata");
    if metadata.Object? && Get(metadata.fields, "event_sequence").Integer?
    then Get(metadata.fields, "event_sequence").n else 0
  }

  /** `value if isinstance(value, str) and value else None`, read from an optional sub-object. */
  function NonemptyText(parent: Value, name: string): Option<string> {
    if parent.Object? && Get(parent.fields, name).Text? && Get(parent.fields, name).s != ""
    then Some(Get(parent.fields, name).s) else None
  }

  function ReadVerification(item: Fields): Verification {
    var details := if Get(item, "details").Object? then Get(item, "details").fields else map[];
    var environment := NonemptyText(Get(details, "environment_receipt"), "environment_id");
    Verification(
      Sequence(item), Get(details, "feedback_channel"), Get(details, "verification_role"),
      Get(details, "candidate_id"), Get(details, "state_lineage_id"),
      if environment.Some? then Text(environment.value) else Null,
      Get(details, "environment_fresh"), Get(details, "reported_passed"), Get(item, "passed"))
  }

  function ReadAction(action: Value): Action {
    if !action.Object? then Action(None, None)
    else
      Action(NonemptyText(Get(action.fields, "metadata"), "source_candidate_id"),
             NonemptyText(Get(action.fields, "command_artifact"), "sha256"))
  }

  function ActionSha256(actions: map<string, Action>, candidate: string): Option<string> {
    if candidate in actions then actions[candidate].sha256 else None
  }

  function SourceOf(actions: map<string, Action>, candidate: string): Option<string> {
    if candidate in actions then actions[candidate].source else None
  }

  predicate Fresh(v: Verification) {
    v.freshness == Bool(true)
  }

  predicate Reuses(v: Verification) {
    v.freshness == Bool(false)
  }

  predicate Passed(v: Verification) {
    v.passed == Bool(true)
  }

  predicate ReportedPass(v: Verification) {
    v.reportedPassed == Bool(true)
  }

  predicate HasRole(v: Verification, role: string) {
    v.role == Text(role)
  }

  const CONSTRUCTION := "construction-state"
  const CLEAN_REPLAY := "clean-replay-certification"

  /** The comprehensions that pick the verifications of one role. */
  function OfRole(vs: seq<Verification>, role: string): seq<Verification> {
    if vs == [] then []
    else OfRole(vs[..|vs| - 1], role) + (if HasRole(vs[|vs| - 1], role) then [vs[|vs| - 1]] else [])
  }

  /** The records of the state transitions in the evidence. */
  function TransitionRecords(evidence: seq<Value>): seq<Transition> {
    if evidence == [] then []
    else
      var item := evidence[|evidence| - 1];
      TransitionRecords(evidence[..|evidence| - 1])
      + (if item.Object? && Get(item.fields, "kind") == Text("state-transition-observation")
            && Get(item.fields, "value").Object?
         then
           var value := Get(item.fields, "value").fields;
           [Transition(Get(value, "candidate_id"), Get(value, "environment_id"), Get(value, "disposition"),
                       Sequence(item.fields))]
         else [])
  }

  /** The verifications of a snapshot, objects only, by event sequence. */
  function Verifications(raw: Value): seq<Verification> {
    if raw.List? then Sort(ReadVerifications(raw.items), (a: Verification, b: Verification) => a.sequence <= b.sequence) else []
  }

  function ReadVerifications(items: seq<Value>): seq<Verification> {
    if items == [] then []
    else
      var item := items[|items| - 1];
      ReadVerifications(items[..|items| - 1]) + (if item.Object? then [ReadVerification(item.fields)] else [])
  }

  function Actions(raw: Value): map<string, Action> {
    if raw.Object? then map id | id in raw.fields :: ReadAction(raw.fields[id]) else map[]
  }

  /** The transition records by event sequence. */
  function Transitions(evidence: seq<Value>): seq<Transition> {
    Sort(TransitionRecords(evidence), (a: Transition, b: Transition) => a.sequence <= b.sequence)
  }

  // ---------- what a safe episode is ----------

  /** The source whose program a clean replay replays, if it names its candidate and the candidate its source. */
  function ReplayedSource(actions: map<string, Action>, v: Verification): Option<string> {
    if v.candidate.Text? then SourceOf(actions, v.candidate.s) else None
  }

  /** A clean replay is attributed, fresh, free of construction lineage, and replays its source's exact program. */
  predicate ProperReplay(actions: map<string, Action>, v: Verification) {
    && ReplayedSource(actions, v).Some?
    && Fresh(v)
    && v.lineage == Null
    && ActionSha256(actions, ReplayedSource(actions, v).value) == ActionSha256(actions, v.candidate.s)
  }

  /** The first `n` clean replays are proper. */
  predicate ProperReplays(actions: map<string, Action>, clean: seq<Verification>, n: nat)
    requires n <= |clean|
  {
    n == 0 || (ProperReplays(actions, clean, n - 1) && ProperReplay(actions, clean[n - 1]))
  }

  lemma {:induction false} ProperReplaysMeaning(actions: map<string, Action>, clean: seq<Verification>, n: nat)
    requires n <= |clean|
    ensures ProperReplays(actions, clean, n) <==> forall i :: 0 <= i < n ==> ProperReplay(actions, clean[i])
  {
    if n > 0 {
      ProperReplaysMeaning(actions, clean, n - 1);
    }
  }

  /** The clean replays attributed to a source among the first `n`, in order. */
  function ReplaysUpTo(actions: map<string, Action>, clean: seq<Verification>, source: string, n: nat): seq<Verification>
    requires n <= |clean|
  {
    if n == 0 then []
    else
      ReplaysUpTo(actions, clean, source, n - 1)
      + (if ReplayedSource(actions, clean[n - 1]) == Some(source) then [clean[n - 1]] else [])
  }

  function ReplaysOf(actions: map<string, Action>, clean: seq<Verification>, source: string): seq<Verification> {
    ReplaysUpTo(actions, clean, source, |clean|)
  }

  /** Before `v`, another candidate left the lineage reusable. */
  predicate Licenses(t: Transition, v: Verification) {
    && PyEq(t.environment, v.lineage) && !PyEq(t.candidate, v.candidate)
    && t.disposition == Text("reusable") && t.sequence < v.sequence
  }

  /** After `t` damaged its lineage or left it in doubt, another candidate built on it. */
  predicate Violates(t: Transition, v: Verification) {
    && (t.disposition == Text("damaged") || t.disposition == Text("unknown"))
    && PyEq(v.lineage, t.environment) && !PyEq(v.candidate, t.candidate)
    && v.sequence > t.sequence
  }

  /** Python's `str` of a candidate identity, which is a string or null in every record the harness writes. */
  function Render(v: Value, str: Value -> string): string {
    if v.Text? then v.s else str(v)
  }

  ghost predicate ProperConstruction(actions: map<string, Action>, clean: seq<Verification>, ts: seq<Transition>, v: Verification, str: Value -> string) {
    && v.lineage.Text? && v.lineage == v.environment
    && (Fresh(v) || (Reuses(v) && exists i :: 0 <= i < |ts| && Licenses(ts[i], v)))
    && (ReportedPass(v) ==> |ReplaysOf(actions, clean, Render(v.candidate, str))| == 1)
  }

  /** The first `n` construction verifications are proper. */
  ghost predicate ProperConstructions(actions: map<string, Action>, clean: seq<Verification>, ts: seq<Transition>,
                                      construction: seq<Verification>, n: nat, str: Value -> string)
    requires n <= |construction|
  {
    n == 0 || (ProperConstructions(actions, clean, ts, construction, n - 1, str)
               && ProperConstruction(actions, clean, ts, construction[n - 1], str))
  }

  lemma {:induction false} ProperConstructionsMeaning(actions: map<string, Action>, clean: seq<Verification>, ts: seq<Transition>,
                                                      construction: seq<Verification>, n: nat, str: Value -> string)
    requires n <= |construction|
    ensures ProperConstructions(actions, clean, ts, construction, n, str)
            <==> forall i :: 0 <= i < n ==> ProperConstruction(actions, clean, ts, construction[i], str)
  {
    if n > 0 {
      ProperConstructionsMeaning(actions, clean, ts, construction, n - 1, str);
    }
  }

  /** The passing clean replays of the accepted candidate. */
  function Certificates(clean: seq<Verification>, accepted: Value): seq<Verification> {
    if clean == [] then []
    else
      var v := clean[|clean| - 1];
      Certificates(clean[..|clean| - 1], accepted) + (if PyEq(v.candidate, accepted) && Passed(v) then [v] else [])
  }

  predicate ProperCertificate(clean: seq<Verification>, c: Certification) {
    c.certified ==>
      && |Certificates(clean, c.acceptedId)| == 1
      && PyEq(c.acceptedEnvironment, Certificates(clean, c.acceptedId)[0].environment)
  }

  /** The conditions that both kinds of method must meet. */
  ghost predicate InternalOnly(vs: seq<Verification>, evidence: seq<Value>, official: Value -> bool) {
    && (forall i :: 0 <= i < |vs| ==> vs[i].channel == Text("internal_execution"))
    && (forall i :: 0 <= i < |evidence| && evidence[i].Object? ==> !official(Get(evidence[i].fields, "source")))
  }

  ghost predicate SafeControl(vs: seq<Verification>, ts: seq<Transition>) {
    ts == [] && forall i :: 0 <= i < |vs| ==> Fresh(vs[i])
  }

  ghost predicate SafeReuse(actions: map<string, Action>, vs: seq<Verification>, ts: seq<Transition>, c: Certification, str: Value -> string) {
    var construction, clean := OfRole(vs, CONSTRUCTION), OfRole(vs, CLEAN_REPLAY);
    && (forall i :: 0 <= i < |clean| ==> ProperReplay(actions, clean[i]))
    && (forall i :: 0 <= i < |construction| ==> ProperConstruction(actions, clean, ts, construction[i], str))
    && (forall i, j :: 0 <= i < |ts| && 0 <= j < |construction| ==> !Violates(ts[i], construction[j]))
    && ProperCertificate(clean, c)
  }

  // ---------- the audit ----------

  /** The entry of the dictionary for a source, as `.get(source, [])` reads it. */
  function Entry(bySource: map<string, seq<Verification>>, source: string): seq<Verification> {
    if source in bySource then bySource[source] else []
  }

  /** `setdefault(source, []).append(v)`, when there is a source. */
  function Attribute(bySource: map<string, seq<Verification>>, source: Option<string>, v: Verification)
    : (more: map<string, seq<Verification>>)
    ensures forall s :: Entry(more, s) == Entry(bySource, s) + (if source == Some(s) then [v] else [])
  {
    if source.None? then bySource else bySource[source.value := Entry(bySource, source.value) + [v]]
  }

  /** The dictionary holds, under every source, its clean replays among the first `n`. */
  ghost predicate Indexes(bySource: map<string, seq<Verification>>, actions: map<string, Action>,
                          clean: seq<Verification>, n: nat)
    requires n <= |clean|
  {
    forall s :: IndexedAt(bySource, actions, clean, n, s)
  }

  predicate IndexedAt(bySource: map<string, seq<Verification>>, actions: map<string, Action>,
                      clean: seq<Verification>, n: nat, s: string)
    requires n <= |clean|
  {
    Entry(bySource, s) == ReplaysUpTo(actions, clean, s, n)
  }

  lemma IndexStep(bySource: map<string, seq<Verification>>, actions: map<string, Action>, clean: seq<Verification>, n: nat)
    requires n < |clean| && Indexes(bySource, actions, clean, n)
    ensures Indexes(Attribute(bySource, ReplayedSource(actions, clean[n]), clean[n]), actions, clean, n + 1)
  {
    var more, next := Attribute(bySource, ReplayedSource(actions, clean[n]), clean[n]), n + 1;
    forall s ensures IndexedAt(more, actions, clean, next, s) {
      assert IndexedAt(bySource, actions, clean, n, s);
    }
  }

  /** The clean replays by source, and the errors found on the way. */
  method AuditClean(actions: map<string, Action>, clean: seq<Verification>)
    returns (errors: seq<AuditError>, bySource: map<string, seq<Verification>>)
    ensures |errors| == 0 <==> ProperReplays(actions, clean, |clean|)
    ensures Indexes(bySource, actions, clean, |clean|)
  {
    errors, bySource := [], map[];
    for i := 0 to |clean|
      invariant |errors| == 0 <==> ProperReplays(actions, clean, i)
      invariant Indexes(bySource, actions, clean, i)
    {
      IndexStep(bySource, actions, clean, i);
      var source, found := AuditOneClean(actions, clean[i]);
      errors := errors + found;
      bySource := Attribute(bySource, source, clean[i]);
    }
  }

  /** One round of the clean-replay loop. */
  method AuditOneClean(actions: map<string, Action>, v: Verification) returns (source: Option<string>, errors: seq<AuditError>)
    ensures source == ReplayedSource(actions, v)
    ensures |errors| == 0 <==> ProperReplay(actions, v)
  {
    if !v.candidate.Text? {
      return None, [CleanWithoutCandidate];
    }
    var candidate := v.candidate.s;
    source := SourceOf(actions, candidate);
    if source.None? {
      return None, [CleanWithoutSource];
    }
    errors := [];
    if !Fresh(v) {
      errors := errors + [CleanNotFresh];
    }
    if v.lineage != Null {
      errors := errors + [CleanKeepsLineage];
    }
    if ActionSha256(actions, source.value) != ActionSha256(actions, candidate) {
      errors := errors + [CleanReplaysOtherProgram];
    }
  }

  predicate ConsistentReuse(v: Verification) {
    v.lineage.Text? && v.lineage == v.environment && Reuses(v)
  }

  /** The number of construction verifications, among the first `n`, that reuse a consistent lineage. */
  function ReusedCount(construction: seq<Verification>, n: nat): nat
    requires n <= |construction|
  {
    if n == 0 then 0 else ReusedCount(construction, n - 1) + (if ConsistentReuse(construction[n - 1]) then 1 else 0)
  }

  method FindLicense(ts: seq<Transition>, v: Verification) returns (found: bool)
    ensures found <==> exists i :: 0 <= i < |ts| && Licenses(ts[i], v)
  {
    found := false;
    for i := 0 to |ts|
      invariant found <==> exists k :: 0 <= k < i && Licenses(ts[k], v)
    {
      if Licenses(ts[i], v) {
        found := true;
      }
    }
  }

  method AuditConstruction(actions: map<string, Action>, construction: seq<Verification>, ghost clean: seq<Verification>, ts: seq<Transition>,
                           bySource: map<string, seq<Verification>>, str: Value -> string)
    returns (errors: seq<AuditError>, reused: nat, reusedCleanPasses: nat)
    requires Indexes(bySource, actions, clean, |clean|)
    ensures |errors| == 0 <==> ProperConstructions(actions, clean, ts, construction, |construction|, str)
    ensures reused == ReusedCount(construction, |construction|) && reusedCleanPasses <= reused
  {
    errors, reused, reusedCleanPasses := [], 0, 0;
    for i := 0 to |construction|
      invariant |errors| == 0 <==> ProperConstructions(actions, clean, ts, construction, i, str)
      invariant reused == ReusedCount(construction, i) && reusedCleanPasses <= reused
    {
      var found, reuse, passes := AuditOne(actions, construction[i], clean, ts, bySource, str);
      errors := errors + found;
      reused := reused + reuse;
      reusedCleanPasses := reusedCleanPasses + passes;
    }
  }

  /** One round of the construction loop. */
  method AuditOne(actions: map<string, Action>, v: Verification, ghost clean: seq<Verification>, ts: seq<Transition>,
                  bySource: map<string, seq<Verification>>, str: Value -> string)
    returns (errors: seq<AuditError>, reused: nat, reusedCleanPasses: nat)
    requires Indexes(bySource, actions, clean, |clean|)
    ensures |errors| == 0 <==> ProperConstruction(actions, clean, ts, v, str)
    ensures reused == (if ConsistentReuse(v) then 1 else 0)
    ensures reusedCleanPasses <= reused
  {
    errors, reused, reusedCleanPasses := [], 0, 0;
    if v.lineage != v.environment || !v.lineage.Text? {
      return [InconsistentLineage], 0, 0;
    }
    if Reuses(v) {
      reused := 1;
      var prior := FindLicense(ts, v);
      if !prior {
        errors := errors + [ReuseWithoutEvidence];
      }
    } else if !Fresh(v) {
      errors := errors + [NoFreshnessLabel];
    }
    if ReportedPass(v) {
      var source := Render(v.candidate, str);
      var replay := Entry(bySource, source);
      assert IndexedAt(bySource, actions, clean, |clean|, source);
      if |replay| != 1 {
        errors := errors + [PassWithoutOneReplay];
      } else if Passed(replay[0]) && Reuses(v) {
        reusedCleanPasses := 1;
      }
    }
  }

  method AuditLineages(construction: seq<Verification>, ts: seq<Transition>) returns (errors: seq<AuditError>)
    ensures |errors| == 0 <==>
            forall i, j :: 0 <= i < |ts| && 0 <= j < |construction| ==> !Violates(ts[i], construction[j])
  {
    errors := [];
    for i := 0 to |ts|
      invariant |errors| == 0 <==>
                forall k, j :: 0 <= k < i && 0 <= j < |construction| ==> !Violates(ts[k], construction[j])
    {
      var later := false;
      for j := 0 to |construction|
        invariant later <==> exists l :: 0 <= l < j && Violates(ts[i], construction[l])
      {
        if Violates(ts[i], construction[j]) {
          later := true;
        }
      }
      if later {
        errors := errors + [DamagedLineageReused];
      }
    }
  }

  method AuditCertificate(clean: seq<Verification>, c: Certification) returns (errors: seq<AuditError>)
    ensures |errors| == 0 <==> ProperCertificate(clean, c)
  {
    errors := [];
    if c.certified {
      var matched := Certificates(clean, c.acceptedId);
      if |matched| != 1 {
        errors := errors + [CertifiedWithoutReplay];
      } else if !PyEq(c.acceptedEnvironment, matched[0].environment) {
        errors := errors + [CertifiedInWrongEnvironment];
      }
    }
  }

  method AuditChannels(vs: seq<Verification>, evidence: seq<Value>, official: Value -> bool) returns (errors: seq<AuditError>)
    ensures |errors| == 0 <==> InternalOnly(vs, evidence, official)
  {
    errors := [];
    for i := 0 to |vs|
      invariant |errors| == 0 <==>
                forall k :: 0 <= k < i ==> vs[k].channel == Text("internal_execution")
    {
      if vs[i].channel != Text("internal_execution") {
        errors := errors + [NonInternalChannel];
      }
    }
    for i := 0 to |evidence|
      invariant |errors| == 0 <==>
                && (forall k :: 0 <= k < |vs| ==> vs[k].channel == Text("internal_execution"))
                && (forall k :: 0 <= k < i && evidence[k].Object? ==> !official(Get(evidence[k].fields, "source")))
    {
      if evidence[i].Object? && official(Get(evidence[i].fields, "source")) {
        errors := errors + [OfficialEvidence];
        break;
      }
    }
  }

  /** A method is audited as persistent or as fresh-state control; no error means exactly that its episode is safe. */
  method AuditEpisode(persistent: bool, actions: map<string, Action>, vs: seq<Verification>, evidence: seq<Value>, c: Certification,
                      official: Value -> bool, str: Value -> string)
    returns (errors: seq<AuditError>, metrics: Metrics)
    ensures |errors| == 0 <==>
            && InternalOnly(vs, evidence, official)
            && (if persistent then SafeReuse(actions, vs, Transitions(evidence), c, str)
                else SafeControl(vs, Transitions(evidence)))
    ensures metrics.reusedCleanPasses <= metrics.reused
  {
    var ts := Transitions(evidence);
    errors := AuditChannels(vs, evidence, official);
    if !persistent {
      var control := AuditControl(vs, ts);
      return errors + control, Metrics(0, 0, 0, 0, 0);
    }
    var construction, clean := OfRole(vs, CONSTRUCTION), OfRole(vs, CLEAN_REPLAY);
    var cleanErrors, bySource := AuditClean(actions, clean);
    var constructionErrors, reused, passes := AuditConstruction(actions, construction, clean, ts, bySource, str);
    var lineageErrors := AuditLineages(construction, ts);
    var certificateErrors := AuditCertificate(clean, c);
    ProperReplaysMeaning(actions, clean, |clean|);
    ProperConstructionsMeaning(actions, clean, ts, construction, |construction|, str);
    errors := errors + cleanErrors + constructionErrors + lineageErrors + certificateErrors;
    var cleanPasses := |PassedOnly(clean)|;
    metrics := Metrics(|construction|, reused, |clean|, cleanPasses, passes);
  }

  /** `audit_persistent_episode` on a snapshot; `evidence` lists the values of its evidence in their order. */
  method AuditSnapshot(persistent: bool, snapshot: Fields, evidence: seq<Value>, c: Certification,
                       official: Value -> bool, str: Value -> string)
    returns (valid: bool, errors: seq<AuditError>)
    ensures valid <==> errors == []
    ensures var vs, ts := Verifications(Get(snapshot, "verifications")), Transitions(evidence);
            valid <==>
              && InternalOnly(vs, evidence, official)
              && (if persistent then SafeReuse(Actions(Get(snapshot, "actions")), vs, ts, c, str) else SafeControl(vs, ts))
  {
    var found, _ := AuditEpisode(persistent, Actions(Get(snapshot, "actions")), Verifications(Get(snapshot, "verifications")),
                                 evidence, c, official, str);
    errors := found;
    valid := |errors| == 0;
  }

  /** Sorting loses no verification and no transition, so the verdict is about all of them. */
  lemma SortingKeepsRecords(raw: Value, evidence: seq<Value>)
    requires raw.List?
    ensures multiset(Verifications(raw)) == multiset(ReadVerifications(raw.items))
    ensures multiset(Transitions(evidence)) == multiset(TransitionRecords(evidence))
  {
    SortPermutes(ReadVerifications(raw.items), (a: Verification, b: Verification) => a.sequence <= b.sequence);
    SortPermutes(TransitionRecords(evidence), (a: Transition, b: Transition) => a.sequence <= b.sequence);
  }

  function PassedOnly(clean: seq<Verification>): seq<Verification> {
    if clean == [] then []
    else PassedOnly(clean[..|clean| - 1]) + (if Passed(clean[|clean| - 1]) then [clean[|clean| - 1]] else [])
  }

  method AuditControl(vs: seq<Verification>, ts: seq<Transition>) returns (errors: seq<AuditError>)
    ensures |errors| == 0 <==> SafeControl(vs, ts)
  {
    errors := if ts == [] then [] else [ControlHasTransitions];
    for i := 0 to |vs|
      invariant |errors| == 0 <==> ts == [] && forall k :: 0 <= k < i ==> Fresh(vs[k])
    {
      if !Fresh(vs[i]) {
        errors := errors + [ControlNotFresh];
      }
    }
  }

  // ---------- what an error-free audit guarantees ----------

  lemma {:induction false} OfRoleMembers(vs: seq<Verification>, role: string, v: Verification)
    ensures v in OfRole(vs, role) <==> v in vs && HasRole(v, role)
  {
    if vs != [] {
      OfRoleMembers(vs[..|vs| - 1], role, v);
      assert vs == vs[..|vs| - 1] + [vs[|vs| - 1]];
    }
  }

  lemma {:induction false} CertificateMembers(clean: seq<Verification>, accepted: Value, v: Verification)
    ensures v in Certificates(clean, accepted) <==> v in clean && PyEq(v.candidate, accepted) && Passed(v)
  {
    if clean != [] {
      CertificateMembers(clean[..|clean| - 1], accepted, v);
      assert clean == clean[..|clean| - 1] + [clean[|clean| - 1]];
    }
  }

  /**
   A reused lineage was left reusable by another candidate before, and at no earlier point damaged or left in
   doubt by another one.
   */
  lemma ReuseIsLicensed(actions: map<string, Action>, vs: seq<Verification>, ts: seq<Transition>, c: Certification, str: Value -> string, v: Verification)
    requires SafeReuse(actions, vs, ts, c, str) && v in vs && HasRole(v, CONSTRUCTION) && !Fresh(v)
    ensures exists i :: 0 <= i < |ts| && Licenses(ts[i], v)
    ensures forall i :: 0 <= i < |ts| ==>
              !(PyEq(v.lineage, ts[i].environment) && !PyEq(v.candidate, ts[i].candidate) && ts[i].sequence < v.sequence
                && (ts[i].disposition == Text("damaged") || ts[i].disposition == Text("unknown")))
  {
    OfRoleMembers(vs, CONSTRUCTION, v);
    var construction := OfRole(vs, CONSTRUCTION);
    var j :| 0 <= j < |construction| && construction[j] == v;
    assert ProperConstruction(actions, OfRole(vs, CLEAN_REPLAY), ts, construction[j], str);
    forall i | 0 <= i < |ts| ensures !Violates(ts[i], v) { assert !Violates(ts[i], construction[j]); }
  }

  /** A certified candidate was replayed from a fresh environment, in the recorded one, with its source's own program. */
  lemma CertificateIsClean(actions: map<string, Action>, vs: seq<Verification>, ts: seq<Transition>, c: Certification, str: Value -> string)
    returns (v: Verification)
    requires SafeReuse(actions, vs, ts, c, str) && c.certified
    ensures v in vs && HasRole(v, CLEAN_REPLAY) && Passed(v) && PyEq(v.candidate, c.acceptedId)
    ensures ProperReplay(actions, v) && PyEq(c.acceptedEnvironment, v.environment)
    ensures forall w :: w in vs && HasRole(w, CLEAN_REPLAY) && Passed(w) && PyEq(w.candidate, c.acceptedId) ==> w == v
  {
    var clean := OfRole(vs, CLEAN_REPLAY);
    var matched := Certificates(clean, c.acceptedId);
    v := matched[0];
    CertificateMembers(clean, c.acceptedId, v);
    OfRoleMembers(vs, CLEAN_REPLAY, v);
    var i :| 0 <= i < |clean| && clean[i] == v;
    assert ProperReplay(actions, clean[i]);
    forall w | w in vs && HasRole(w, CLEAN_REPLAY) && Passed(w) && PyEq(w.candidate, c.acceptedId) ensures w == v {
      OfRoleMembers(vs, CLEAN_REPLAY, w);
      CertificateMembers(clean, c.acceptedId, w);
      assert w in matched;
    }
  }
}
