/**
 `ReplayObligationLedger`: obligations are replaced under complete evidence and preserved under partial
 evidence. The object is proved against the history of its update calls.
 */
module ReplayHistory {
  import opened Json
  import opened Obligations

  /** One call of `update`. A rejected call leaves nothing but its place in the numbering. */
  datatype Update =
    | Accepted(complete: bool, observed: map<Key, Fields>)
    | Rejected

  /** The call `i` (counted from 0) observed the key. */
  predicate Saw(h: seq<Update>, i: int, key: Key) {
    0 <= i < |h| && h[i].Accepted? && key in h[i].observed
  }

  /** The call `i` retired the key: complete evidence without it. */
  predicate Retired(h: seq<Update>, i: int, key: Key) {
    0 <= i < |h| && h[i].Accepted? && h[i].complete && key !in h[i].observed
  }

  /** Some call observed the key and none has retired it since. */
  ghost predicate Active(h: seq<Update>, key: Key) {
    exists i :: Saw(h, i, key) && forall j :: i < j < |h| ==> !Retired(h, j, key)
  }

  /** `i` begins the current unbroken interval in which the key has been active. */
  ghost predicate ActiveSince(h: seq<Update>, i: int, key: Key) {
    && Saw(h, i, key) && !Active(h[..i], key)
    && forall j :: i < j < |h| ==> !Retired(h, j, key)
  }

  /** `i` is the latest call that observed the key. */
  predicate LastSaw(h: seq<Update>, i: int, key: Key) {
    Saw(h, i, key) && forall j :: i < j < |h| ==> !Saw(h, j, key)
  }

  /** What one more call does to activity. */
  lemma ActivityStep(h: seq<Update>, u: Update, key: Key)
    ensures Active(h + [u], key) <==>
            || (u.Accepted? && key in u.observed)
            || (Active(h, key) && !(u.Accepted? && u.complete && key !in u.observed))
  {
    var h' := h + [u];
    if u.Accepted? && key in u.observed {
      assert Saw(h', |h|, key);
    }
    if Active(h, key) && !Retired(h', |h|, key) {
      var i :| Saw(h, i, key) && forall j :: i < j < |h| ==> !Retired(h, j, key);
      assert Saw(h', i, key);
      forall j | i < j < |h'| ensures !Retired(h', j, key) {
        if j < |h| { assert !Retired(h, j, key); }
      }
    }
    if Active(h', key) && !Saw(h', |h|, key) {
      var i :| Saw(h', i, key) && forall j :: i < j < |h'| ==> !Retired(h', j, key);
      assert Saw(h, i, key) && !Retired(h', |h|, key);
      forall j | i < j < |h| ensures !Retired(h, j, key) { assert !Retired(h', j, key); }
    }
  }

  /** A key that stays active keeps the beginning of its interval; a key that becomes active begins one now. */
  lemma IntervalStep(h: seq<Update>, u: Update, key: Key, i: int)
    requires ActiveSince(h, i, key) && !(u.Accepted? && u.complete && key !in u.observed)
    ensures ActiveSince(h + [u], i, key)
  {
    var h' := h + [u];
    assert h'[..i] == h[..i];
    forall j | i < j < |h'| ensures !Retired(h', j, key) {
      if j < |h| { assert !Retired(h, j, key); }
    }
  }

  lemma IntervalStarts(h: seq<Update>, u: Update, key: Key)
    requires u.Accepted? && key in u.observed && !Active(h, key)
    ensures ActiveSince(h + [u], |h|, key)
  {
    assert (h + [u])[..|h|] == h;
  }

  lemma LastSawStep(h: seq<Update>, u: Update, key: Key, i: int)
    requires LastSaw(h, i, key) && !(u.Accepted? && key in u.observed)
    ensures LastSaw(h + [u], i, key)
  {
    forall j | i < j < |h| + 1 ensures !Saw(h + [u], j, key) {
      if j < |h| { assert !Saw(h, j, key); }
    }
  }

  // ---------- over whole histories ----------

  /** After complete evidence, exactly the keys observed since (and including) it are active. */
  lemma ActiveAfterComplete(h: seq<Update>, last: nat, key: Key)
    requires last < |h| && h[last].Accepted? && h[last].complete
    requires forall j :: last < j < |h| && h[j].Accepted? ==> !h[j].complete
    ensures Active(h, key) <==> exists i :: last <= i && Saw(h, i, key)
  {
    if Active(h, key) {
      var i :| Saw(h, i, key) && forall j :: i < j < |h| ==> !Retired(h, j, key);
      if i < last {
        assert !Retired(h, last, key);
        assert Saw(h, last, key);
      }
    }
  }

  /** Without complete evidence nothing is ever retired. */
  lemma ActiveWithoutComplete(h: seq<Update>, key: Key)
    requires forall j :: 0 <= j < |h| && h[j].Accepted? ==> !h[j].complete
    ensures Active(h, key) <==> exists i :: Saw(h, i, key)
  {}

  lemma PriorActivity(h: seq<Update>, i: int, k: int, key: Key)
    requires ActiveSince(h, i, key) && Saw(h, k, key)
    ensures i < k ==> Active(h[..k], key)
  {
    if i < k {
      assert Saw(h[..k], i, key);
      forall j | i < j < k ensures !Retired(h[..k], j, key) { assert !Retired(h, j, key); }
    }
  }

  /** The beginning of the current interval is unique. */
  lemma IntervalIsUnique(h: seq<Update>, i: int, k: int, key: Key)
    requires ActiveSince(h, i, key) && ActiveSince(h, k, key)
    ensures i == k
  {
    PriorActivity(h, i, k, key);
    PriorActivity(h, k, i, key);
  }
}

module ReplayLedger {
  import opened Json
  import opened Wrappers
  import opened Obligations
  import opened ReplayHistory
  import opened Sorting

  const SNAPSHOT_SCHEMA := "envsolve-replay-obligation-snapshot-v1"

  datatype Coverage = CompletePass | CompleteGoalFailure | PartialFailure | UnknownCoverage

  datatype LedgerError = InvalidSchema | MalformedSnapshot | MalformedObligation

  datatype ActiveRecord = ActiveRecord(obligation: Fields, firstSeen: nat, lastSeen: nat)

  /** The four key sets whose records an update reports. */
  datatype Delta = Delta(index: nat, complete: bool, activeCount: nat,
                         introduced: set<Key>, resolved: set<Key>, observedAgain: set<Key>, preserved: set<Key>)

  /** Python's truth value of a JSON value. */
  predicate Truthy(v: Value) {
    match v
    case Null => false
    case Bool(b) => b
    case Integer(n) => n != 0
    case Float(x) => x != 0.0
    case Text(s) => s != ""
    case List(items) => items != []
    case Object(fields) => fields != map[]
  }

  function ReadCoverage(v: Value): Option<Coverage> {
    if v == Text("complete-pass") then Some(CompletePass)
    else if v == Text("complete-goal-failure") then Some(CompleteGoalFailure)
    else if v == Text("partial-failure") then Some(PartialFailure)
    else if v == Text("unknown") then Some(UnknownCoverage)
    else None
  }

  /** The items of a list of obligations, keyed; of two items with one key the later stays. */
  ghost predicate Keyed(items: seq<Value>, observed: map<Key, Fields>) {
    && (forall i :: 0 <= i < |items| ==> items[i].Object? && LenientKey(items[i].fields) in observed)
    && (forall key :: key in observed ==> exists i :: LastWith(items, i, key) && observed[key] == items[i].fields)
  }

  predicate HasKey(items: seq<Value>, i: int, key: Key) {
    0 <= i < |items| && items[i].Object? && LenientKey(items[i].fields) == key
  }

  ghost predicate LastWith(items: seq<Value>, i: int, key: Key) {
    HasKey(items, i, key) && forall j :: i < j < |items| ==> !HasKey(items, j, key)
  }

  method ReadObserved(items: seq<Value>) returns (observed: Option<map<Key, Fields>>)
    ensures observed.None? <==> exists i :: 0 <= i < |items| && !items[i].Object?
    ensures observed.Some? ==> Keyed(items, observed.value)
  {
    var found: map<Key, Fields> := map[];
    for i := 0 to |items|
      invariant Keyed(items[..i], found)
    {
      if !items[i].Object? {
        return None;
      }
      KeyedStep(items[..i], found, items[i].fields);
      assert items[..i + 1] == items[..i] + [Object(items[i].fields)];
      found := found[LenientKey(items[i].fields) := items[i].fields];
    }
    assert items[..|items|] == items;
    return Some(found);
  }

  lemma KeyedStep(items: seq<Value>, observed: map<Key, Fields>, item: Fields)
    requires Keyed(items, observed)
    ensures Keyed(items + [Object(item)], observed[LenientKey(item) := item])
  {
    var items' := items + [Object(item)];
    var observed' := observed[LenientKey(item) := item];
    forall key | key in observed' ensures exists i :: LastWith(items', i, key) && observed'[key] == items'[i].fields {
      if key == LenientKey(item) {
        assert LastWith(items', |items|, key);
      } else {
        var i :| LastWith(items, i, key) && observed[key] == items[i].fields;
        forall j | i < j < |items'| ensures !HasKey(items', j, key) {
          if j < |items| { assert !HasKey(items, j, key); }
        }
        assert LastWith(items', i, key);
      }
    }
  }

  /** A list of obligations determines what is observed. */
  lemma KeyedIsUnique(items: seq<Value>, a: map<Key, Fields>, b: map<Key, Fields>)
    requires Keyed(items, a) && Keyed(items, b)
    ensures a == b
  {
    forall key | key in a ensures key in b && b[key] == a[key] {
      var i :| LastWith(items, i, key) && a[key] == items[i].fields;
      assert key in b;
      var j :| LastWith(items, j, key) && b[key] == items[j].fields;
      assert i == j;
    }
    forall key | key in b ensures key in a {
      var i :| LastWith(items, i, key) && b[key] == items[i].fields;
    }
  }

  /** The obligations of a snapshot: one for each key, in the order of `keys`. */
  function Deduplicated(unique: map<Key, Fields>, keys: seq<Key>): seq<Value>
    requires forall key :: key in keys ==> key in unique
  {
    seq(|keys|, i requires 0 <= i < |keys| => Object(unique[keys[i]]))
  }

  /** The ledger observes the same from the deduplicated snapshot, in any key order, as from the raw list. */
  lemma DeduplicationIsInvisible(items: seq<Value>, unique: map<Key, Fields>, keys: seq<Key>)
    requires Keyed(items, unique)
    requires NoRepeats(keys) && forall key :: key in keys <==> key in unique
    ensures Keyed(Deduplicated(unique, keys), unique)
  {
    var snapshot := Deduplicated(unique, keys);
    forall key | key in unique ensures LenientKey(unique[key]) == key {
      var i :| LastWith(items, i, key) && unique[key] == items[i].fields;
    }
    forall i | 0 <= i < |snapshot| ensures snapshot[i].Object? && LenientKey(snapshot[i].fields) == keys[i] {
      assert keys[i] in keys;
    }
    forall key | key in unique ensures exists i :: LastWith(snapshot, i, key) && unique[key] == snapshot[i].fields {
      assert key in keys;
      var i :| 0 <= i < |keys| && keys[i] == key;
      assert LastWith(snapshot, i, key);
    }
  }

  function CountOnce(counts: map<Coverage, nat>, c: Coverage): map<Coverage, nat> {
    counts[c := (if c in counts then counts[c] else 0) + 1]
  }

  class ReplayObligationLedger {
    /** Python's `str` on a policy identifier. */
    const str: Value -> string
    var replayCount: nat
    var active: map<Key, ActiveRecord>
    var coverageCounts: map<Coverage, nat>
    var introducedCount: nat
    var resolvedCount: nat

    ghost var history: seq<Update>

    ghost predicate Valid()
      reads this
    {
      && replayCount == |history|
      && Agrees(active, history)
      && introducedCount == resolvedCount + |active|
    }

    constructor (str: Value -> string)
      ensures Valid() && history == [] && active == map[] && introducedCount == 0
    {
      this.str := str;
      replayCount, introducedCount, resolvedCount := 0, 0, 0;
      active := map[];
      coverageCounts := map[];
      history := [];
    }

    /** `_fallback_snapshot`: the coverage and the obligations of a replay that carries no snapshot. */
    function Fallback(replay: Fields): (Coverage, seq<Value>) {
      var validation := Get(replay, "candidate_validation");
      if Get(replay, "phase") == Text("candidate-validation") && validation.Object? then
        var policy := Get(validation.fields, "policy_id");
        var subject := if Truthy(policy) then str(policy) else "candidate-validation";
        var evidence := map["source" := Text("candidate-validation"),
                            "reason" := Get(validation.fields, "reason"),
                            "details" := Get(validation.fields, "details")];
        (PartialFailure,
         [Object(map["domain" := Text("integrity"), "subject" := Text(subject), "predicate" := Text("accepted"),
                     "required" := Bool(true), "observed" := Bool(false), "evidence" := Object(evidence)])])
      else
        (UnknownCoverage, [])
    }

    /** The coverage and obligation list that an update works on, or the error raised before any of it is used. */
    function ReadSnapshot(replay: Fields): Result<(Coverage, seq<Value>), LedgerError> {
      var verification := Get(replay, "verification");
      var snapshot := if verification.Object? then Get(verification.fields, "obligation_snapshot") else Null;
      if !snapshot.Object? then Ok(Fallback(replay))
      else if Get(snapshot.fields, "schema") != Text(SNAPSHOT_SCHEMA) then Err(InvalidSchema)
      else
        var coverage := ReadCoverage(Get(snapshot.fields, "coverage"));
        var obligations := Get(snapshot.fields, "obligations");
        if coverage.None? || !obligations.List? then Err(MalformedSnapshot)
        else Ok((coverage.value, obligations.items))
    }

    /** A rejected update changes nothing that obligations are read from. */
    method Update(replay: Fields) returns (r: Result<Delta, LedgerError>)
      requires Valid()
      modifies this
      ensures Valid()
      ensures r.Err? <==> ReadSnapshot(replay).Err?
                          || exists i :: 0 <= i < |ReadSnapshot(replay).value.1| && !ReadSnapshot(replay).value.1[i].Object?
      ensures r.Err? ==>
                && history == old(history) + [Rejected] && active == old(active)
                && introducedCount == old(introducedCount) && resolvedCount == old(resolvedCount)
      ensures r.Ok? ==>
                Logs(r.value, ReadSnapshot(replay).value.1, IsComplete(ReadSnapshot(replay).value.0), old(active).Keys,
                     old(history), history)
      ensures coverageCounts == if ReadSnapshot(replay).Err? then old(coverageCounts)
                                else CountOnce(old(coverageCounts), ReadSnapshot(replay).value.0)
      ensures r.Ok? ==>
                && r.value.index == |history| && r.value.activeCount == |active|
                && introducedCount == old(introducedCount) + |r.value.introduced|
                && resolvedCount == old(resolvedCount) + |r.value.resolved|
    {
      replayCount := replayCount + 1;
      var snapshot := ReadSnapshot(replay);
      if snapshot.Err? {
        Reject();
        return Err(snapshot.error);
      }
      coverageCounts := CountOnce(coverageCounts, snapshot.value.0);
      r := UpdateFrom(IsComplete(snapshot.value.0), snapshot.value.1);
    }

    /** `update` from the loop over the obligations on. */
    method UpdateFrom(complete: bool, obligations: seq<Value>) returns (r: Result<Delta, LedgerError>)
      requires replayCount == |history| + 1 && Agrees(active, history)
      requires introducedCount == resolvedCount + |active|
      modifies this`active, this`introducedCount, this`resolvedCount, this`history
      ensures Valid()
      ensures r.Err? <==> exists i :: 0 <= i < |obligations| && !obligations[i].Object?
      ensures r.Err? ==>
                && history == old(history) + [Rejected] && active == old(active)
                && introducedCount == old(introducedCount) && resolvedCount == old(resolvedCount)
      ensures r.Ok? ==>
                && Logs(r.value, obligations, complete, old(active).Keys, old(history), history)
                && r.value.index == |history| && r.value.activeCount == |active|
                && introducedCount == old(introducedCount) + |r.value.introduced|
                && resolvedCount == old(resolvedCount) + |r.value.resolved|
    {
      var observed := ReadObserved(obligations);
      if observed.None? {
        Reject();
        return Err(MalformedObligation);
      }
      var delta := Apply(complete, observed.value);
      return Ok(delta);
    }

    /** What an exception leaves behind. */
    ghost method Reject()
      requires replayCount == |history| + 1 && Agrees(active, history)
      requires introducedCount == resolvedCount + |active|
      modifies this`history
      ensures Valid() && history == old(history) + [Rejected]
    {
      RejectionKeeps(active, history);
      history := history + [Rejected];
    }

    /** `update` once the observed obligations are known. */
    method Apply(complete: bool, observed: map<Key, Fields>) returns (delta: Delta)
      requires replayCount == |history| + 1 && Agrees(active, history)
      requires introducedCount == resolvedCount + |active|
      modifies this`active, this`introducedCount, this`resolvedCount, this`history
      ensures Valid() && history == old(history) + [Accepted(complete, observed)]
      ensures Explains(delta, old(active).Keys, complete, observed.Keys)
      ensures delta.index == |history| && delta.activeCount == |active|
      ensures introducedCount == old(introducedCount) + |delta.introduced|
      ensures resolvedCount == old(resolvedCount) + |delta.resolved|
    {
      var next := Advance(active, complete, observed, replayCount);
      delta := Compare(replayCount, complete, active.Keys, observed.Keys, |next|);
      AdvanceKeeps(active, history, complete, observed);
      ComparisonExplains(delta, active.Keys, observed.Keys);
      AdvanceBalances(active, complete, observed, replayCount, delta);
      active := next;
      history := history + [Accepted(complete, observed)];
      introducedCount := introducedCount + |delta.introduced|;
      resolvedCount := resolvedCount + |delta.resolved|;
    }
  }

  /** The records of the observed keys: an active key keeps its first sighting, every one is seen now. */
  function Touched(active: map<Key, ActiveRecord>, observed: map<Key, Fields>, index: nat): map<Key, ActiveRecord> {
    map key | key in observed ::
      ActiveRecord(observed[key], if key in active then active[key].firstSeen else index, index)
  }

  /** Complete evidence replaces the active records, partial evidence is laid over them. */
  function Advance(active: map<Key, ActiveRecord>, complete: bool, observed: map<Key, Fields>, index: nat): map<Key, ActiveRecord> {
    if complete then Touched(active, observed, index) else active + Touched(active, observed, index)
  }

  /** The four key sets of an update. */
  function Compare(index: nat, complete: bool, before: set<Key>, now: set<Key>, activeCount: nat): Delta {
    Delta(index, complete, activeCount, now - before, if complete then before - now else {},
          now * before, if !complete then before - now else {})
  }

  lemma ComparisonExplains(d: Delta, before: set<Key>, now: set<Key>)
    requires d == Compare(d.index, d.complete, before, now, d.activeCount)
    ensures Explains(d, before, d.complete, now)
  {
    assert d.resolved + d.observedAgain + d.preserved == before;
    assert d.introduced + d.observedAgain == now;
  }

  predicate IsComplete(c: Coverage) {
    c.CompletePass? || c.CompleteGoalFailure?
  }

  /** The active records say, for every key, what the history says. */
  ghost predicate Agrees(active: map<Key, ActiveRecord>, h: seq<Update>) {
    forall key :: AgreesOn(active, h, key)
  }

  ghost predicate AgreesOn(active: map<Key, ActiveRecord>, h: seq<Update>, key: Key) {
    && (key in active <==> Active(h, key))
    && (key in active ==> RecordAgrees(active[key], key, h))
  }

  ghost predicate RecordAgrees(r: ActiveRecord, key: Key, h: seq<Update>) {
    && r.firstSeen >= 1 && ActiveSince(h, r.firstSeen - 1, key)
    && r.lastSeen >= 1 && LastSaw(h, r.lastSeen - 1, key)
    && r.obligation == h[r.lastSeen - 1].observed[key]
  }

  /** The delta splits the keys known before and the keys observed now into four disjoint parts. */
  ghost predicate Explains(d: Delta, before: set<Key>, complete: bool, now: set<Key>) {
    && d.complete == complete
    && d.introduced + d.observedAgain == now
    && d.resolved + d.observedAgain + d.preserved == before
    && d.introduced !! before
    && d.resolved !! now && d.preserved !! now
    && (if complete then d.preserved == {} else d.resolved == {})
  }

  /** The update was logged with what its obligations show, and the delta explains the keys before and now. */
  ghost predicate Logs(d: Delta, obligations: seq<Value>, complete: bool, before: set<Key>, h: seq<Update>, h': seq<Update>) {
    exists observed :: Keyed(obligations, observed) && h' == h + [Accepted(complete, observed)]
                       && Explains(d, before, complete, observed.Keys)
  }

  lemma RejectionKeeps(active: map<Key, ActiveRecord>, h: seq<Update>)
    requires Agrees(active, h)
    ensures Agrees(active, h + [Rejected])
  {
    forall key ensures AgreesOn(active, h + [Rejected], key) {
      assert AgreesOn(active, h, key);
      ActivityStep(h, Rejected, key);
      if key in active {
        IntervalStep(h, Rejected, key, active[key].firstSeen - 1);
        LastSawStep(h, Rejected, key, active[key].lastSeen - 1);
      }
    }
  }

  /** After an accepted update the records again agree with the history. */
  lemma AdvanceKeeps(active: map<Key, ActiveRecord>, h: seq<Update>, complete: bool, observed: map<Key, Fields>)
    requires Agrees(active, h)
    ensures Agrees(Advance(active, complete, observed, |h| + 1), h + [Accepted(complete, observed)])
  {
    var active', h' := Advance(active, complete, observed, |h| + 1), h + [Accepted(complete, observed)];
    forall key ensures AgreesOn(active', h', key) {
      KeyAdvances(active, h, complete, observed, key);
    }
  }

  lemma KeyAdvances(active: map<Key, ActiveRecord>, h: seq<Update>, complete: bool, observed: map<Key, Fields>, key: Key)
    requires AgreesOn(active, h, key)
    ensures AgreesOn(Advance(active, complete, observed, |h| + 1), h + [Accepted(complete, observed)], key)
  {
    var u := Accepted(complete, observed);
    var active' := Advance(active, complete, observed, |h| + 1);
    ActivityStep(h, u, key);
    if key in observed {
      TouchedRecord(active, h, u, key, active'[key]);
    } else if key in active' {
      UntouchedRecord(active, h, u, key);
    }
  }

  /** The number of active records grows by the introduced keys and falls by the resolved ones. */
  lemma AdvanceBalances(active: map<Key, ActiveRecord>, complete: bool, observed: map<Key, Fields>, index: nat, d: Delta)
    requires d.introduced == observed.Keys - active.Keys
    requires d.resolved == (if complete then active.Keys - observed.Keys else {})
    ensures |Advance(active, complete, observed, index)| == |active| + |d.introduced| - |d.resolved|
  {
    KeysBalance(active.Keys, observed.Keys);
    var touched := Touched(active, observed, index);
    assert touched.Keys == observed.Keys;
    if complete {
      assert |touched| == |touched.Keys|;
    } else {
      assert (active + touched).Keys == active.Keys + observed.Keys;
      assert |active + touched| == |(active + touched).Keys|;
    }
  }

  lemma TouchedRecord(active: map<Key, ActiveRecord>, h: seq<Update>, u: Update, key: Key, r: ActiveRecord)
    requires AgreesOn(active, h, key) && u.Accepted? && key in u.observed
    requires r == ActiveRecord(u.observed[key], if key in active then active[key].firstSeen else |h| + 1, |h| + 1)
    ensures RecordAgrees(r, key, h + [u])
  {
    if key in active {
      IntervalStep(h, u, key, active[key].firstSeen - 1);
    } else {
      IntervalStarts(h, u, key);
    }
  }

  lemma UntouchedRecord(active: map<Key, ActiveRecord>, h: seq<Update>, u: Update, key: Key)
    requires AgreesOn(active, h, key) && key in active && u.Accepted? && !u.complete && key !in u.observed
    ensures RecordAgrees(active[key], key, h + [u])
  {
    IntervalStep(h, u, key, active[key].firstSeen - 1);
    LastSawStep(h, u, key, active[key].lastSeen - 1);
  }

  lemma KeysBalance(previous: set<Key>, current: set<Key>)
    ensures |current| == |previous| + |current - previous| - |previous - current|
    ensures |previous + current| == |previous| + |current - previous|
  {
    assert current == (current * previous) + (current - previous);
    assert previous == (current * previous) + (previous - current);
    assert previous + current == previous + (current - previous);
  }
}
