/** `select_core_batch`: stratify the eligible cases, order strata and cases, select round-robin. */
module CoreBatch {
  import opened Wrappers
  import opened Sorting
  import opened RoundRobin
  import opened RoundRobinLaws

  const CORE_BATCH_SALT := "envsolve-pro-core-batch-v1-2026-08-09"

  /** A validated classification; layer and subtype are already rendered by `str`. */
  datatype CaseRecord = CaseRecord(caseId: string, terminal: string, layer: string, subtype: string)

  datatype BatchError = DuplicateClassification(caseId: string) | MalformedBatchSize

  datatype Batch = Batch(names: seq<string>, ranked: seq<seq<string>>, selected: seq<string>, validation: seq<string>)

  function StratumOf(r: CaseRecord): string {
    r.terminal + "|" + r.layer + "|" + r.subtype
  }

  /** The eligible case ids of the first `n` records, in order. */
  function EligibleIds(records: seq<CaseRecord>, eligible: seq<string>, n: nat): seq<string>
    requires n <= |records|
  {
    if n == 0 then []
    else
      EligibleIds(records, eligible, n - 1)
      + (if records[n - 1].terminal in eligible then [records[n - 1].caseId] else [])
  }

  /** Those of them that fall into one stratum. */
  function MembersOf(records: seq<CaseRecord>, eligible: seq<string>, name: string, n: nat): seq<string>
    requires n <= |records|
  {
    if n == 0 then []
    else if records[n - 1].terminal in eligible && StratumOf(records[n - 1]) == name then
      MembersOf(records, eligible, name, n - 1) + [records[n - 1].caseId]
    else MembersOf(records, eligible, name, n - 1)
  }

  predicate UniqueIds(records: seq<CaseRecord>) {
    forall i, j :: 0 <= i < j < |records| ==> records[i].caseId != records[j].caseId
  }

  /** The uniqueness part of `validate_classifications`. */
  method FindDuplicate(records: seq<CaseRecord>) returns (duplicate: Option<string>)
    ensures duplicate.None? <==> UniqueIds(records)
    ensures duplicate.Some? ==> exists i, j :: 0 <= i < j < |records| && records[i].caseId == records[j].caseId == duplicate.value
  {
    var seen: set<string> := {};
    for n := 0 to |records|
      invariant UniqueIds(records[..n])
      invariant forall id :: id in seen <==> exists i :: 0 <= i < n && records[i].caseId == id
    {
      if records[n].caseId in seen {
        return Some(records[n].caseId);
      }
      seen := seen + {records[n].caseId};
    }
    assert records[..|records|] == records;
    return None;
  }

  /** The members of a stratum as the dictionary has them. */
  function Stratum(strata: map<string, seq<string>>, name: string): seq<string> {
    if name in strata then strata[name] else []
  }

  /** The strata of the first `n` records; `names` is the key order of the dictionary. */
  ghost predicate Grouped(names: seq<string>, strata: map<string, seq<string>>, records: seq<CaseRecord>,
                          eligible: seq<string>, n: nat)
    requires n <= |records|
  {
    && NoRepeats(names)
    && (forall name :: name in names <==> name in strata)
    && (forall name :: name in strata ==> strata[name] != [])
    && forall name :: MembersOf(records, eligible, name, n) == Stratum(strata, name)
  }

  /** A record that is not eligible goes nowhere. */
  lemma GroupedSkip(names: seq<string>, strata: map<string, seq<string>>, records: seq<CaseRecord>, eligible: seq<string>,
                    n: nat)
    requires n < |records| && Grouped(names, strata, records, eligible, n) && records[n].terminal !in eligible
    ensures Grouped(names, strata, records, eligible, n + 1)
  {
    forall name ensures MembersOf(records, eligible, name, n + 1) == Stratum(strata, name) {
      assert MembersOf(records, eligible, name, n) == Stratum(strata, name);
    }
  }

  /** An eligible one goes to its own stratum. */
  lemma GroupedOneMore(names: seq<string>, strata: map<string, seq<string>>, records: seq<CaseRecord>, eligible: seq<string>,
                       n: nat, name: string, more: map<string, seq<string>>)
    requires n < |records| && Grouped(names, strata, records, eligible, n) && records[n].terminal in eligible
    requires name == StratumOf(records[n]) && more == strata[name := Stratum(strata, name) + [records[n].caseId]]
    ensures Grouped(if name in names then names else names + [name], more, records, eligible, n + 1)
  {
    forall other ensures MembersOf(records, eligible, other, n + 1) == Stratum(more, other) {
      assert MembersOf(records, eligible, other, n) == Stratum(strata, other);
    }
  }

  /** The loop that fills the dictionary of strata. */
  method GroupStrata(records: seq<CaseRecord>, eligible: seq<string>)
    returns (names: seq<string>, strata: map<string, seq<string>>)
    ensures NoRepeats(names) && forall name :: name in names <==> name in strata
    ensures forall name :: name in strata ==> strata[name] == MembersOf(records, eligible, name, |records|) != []
    ensures forall name :: name !in strata ==> MembersOf(records, eligible, name, |records|) == []
  {
    names, strata := [], map[];
    for n := 0 to |records|
      invariant Grouped(names, strata, records, eligible, n)
    {
      if records[n].terminal !in eligible {
        GroupedSkip(names, strata, records, eligible, n);
        continue;
      }
      var name := StratumOf(records[n]);
      var more := strata[name := Stratum(strata, name) + [records[n].caseId]];
      GroupedOneMore(names, strata, records, eligible, n, name, more);
      if name !in strata {
        names := names + [name];
      }
      strata := more;
    }
    forall name ensures MembersOf(records, eligible, name, |records|) == Stratum(strata, name) {
    }
  }

  // ---------- the two orders ----------

  function CountOf(strata: map<string, seq<string>>, name: string): nat {
    if name in strata then |strata[name]| else 0
  }

  /** The key (-count, name). */
  predicate FrequencyLe(strata: map<string, seq<string>>, a: string, b: string) {
    CountOf(strata, a) > CountOf(strata, b) || (CountOf(strata, a) == CountOf(strata, b) && StringLe(a, b))
  }

  /** The key (salted digest, case id). */
  predicate RankLe(sha256: string -> string, a: string, b: string) {
    var x, y := sha256(CORE_BATCH_SALT + a), sha256(CORE_BATCH_SALT + b);
    if x == y then StringLe(a, b) else StringLe(x, y)
  }

  function FrequencyOrder(strata: map<string, seq<string>>): (string, string) -> bool {
    (a, b) => FrequencyLe(strata, a, b)
  }

  function RankOrder(sha256: string -> string): (string, string) -> bool {
    (a, b) => RankLe(sha256, a, b)
  }

  lemma FrequencyIsTotal(strata: map<string, seq<string>>)
    ensures TotalOrder(FrequencyOrder(strata))
  {
    forall a, b { StringLeTotal(a, b); }
    forall a, b, c | FrequencyLe(strata, a, b) && FrequencyLe(strata, b, c) ensures FrequencyLe(strata, a, c) {
      if StringLe(a, b) && StringLe(b, c) { StringLeTransitive(a, b, c); }
    }
  }

  lemma RankIsTotal(sha256: string -> string)
    ensures TotalOrder(RankOrder(sha256))
  {
    forall a, b
      ensures RankLe(sha256, a, b) || RankLe(sha256, b, a)
      ensures RankLe(sha256, a, b) && RankLe(sha256, b, a) ==> a == b
    {
      StringLeTotal(a, b);
      StringLeTotal(sha256(CORE_BATCH_SALT + a), sha256(CORE_BATCH_SALT + b));
    }
    forall a, b, c | RankLe(sha256, a, b) && RankLe(sha256, b, c) ensures RankLe(sha256, a, c) {
      RankTransitive(sha256, a, b, c);
    }
  }

  lemma RankTransitive(sha256: string -> string, a: string, b: string, c: string)
    requires RankLe(sha256, a, b) && RankLe(sha256, b, c)
    ensures RankLe(sha256, a, c)
  {
    var x, y, z := sha256(CORE_BATCH_SALT + a), sha256(CORE_BATCH_SALT + b), sha256(CORE_BATCH_SALT + c);
    if x == y && y == z {
      StringLeTransitive(a, b, c);
    } else if x != y && y != z {
      StringLeTransitive(x, y, z);
      StringLeTotal(x, y);
    }
  }

  // ---------- the strata of unique records ----------

  lemma {:induction false} MembersAreIds(records: seq<CaseRecord>, eligible: seq<string>, name: string, n: nat, id: string)
    requires n <= |records|
    ensures id in MembersOf(records, eligible, name, n) <==>
            exists i :: 0 <= i < n && records[i].terminal in eligible && StratumOf(records[i]) == name && records[i].caseId == id
  {
    if n > 0 {
      MembersAreIds(records, eligible, name, n - 1, id);
    }
  }

  lemma {:induction false} EligibleAreIds(records: seq<CaseRecord>, eligible: seq<string>, n: nat, id: string)
    requires n <= |records|
    ensures id in EligibleIds(records, eligible, n) <==>
            exists i :: 0 <= i < n && records[i].terminal in eligible && records[i].caseId == id
  {
    if n > 0 {
      EligibleAreIds(records, eligible, n - 1, id);
    }
  }

  lemma {:induction false} MembersDoNotRepeat(records: seq<CaseRecord>, eligible: seq<string>, name: string, n: nat)
    requires n <= |records| && UniqueIds(records)
    ensures NoRepeats(MembersOf(records, eligible, name, n))
  {
    if n > 0 {
      MembersDoNotRepeat(records, eligible, name, n - 1);
      MembersAreIds(records, eligible, name, n - 1, records[n - 1].caseId);
    }
  }

  lemma {:induction false} EligibleDoNotRepeat(records: seq<CaseRecord>, eligible: seq<string>, n: nat)
    requires n <= |records| && UniqueIds(records)
    ensures NoRepeats(EligibleIds(records, eligible, n))
  {
    if n > 0 {
      EligibleDoNotRepeat(records, eligible, n - 1);
      EligibleAreIds(records, eligible, n - 1, records[n - 1].caseId);
    }
  }

  /** The ranked lists hold the members of the named strata, none empty, and the names cover all eligible cases. */
  ghost predicate Stratifies(records: seq<CaseRecord>, eligible: seq<string>, names: seq<string>, ranked: seq<seq<string>>) {
    && |names| == |ranked| && NoRepeats(names)
    && (forall j :: 0 <= j < |names| ==> Ranks(records, eligible, names[j], ranked[j]))
    && (forall name :: name !in names ==> MembersOf(records, eligible, name, |records|) == [])
  }

  /** `list` is not empty and holds each member of the stratum once. */
  ghost predicate Ranks(records: seq<CaseRecord>, eligible: seq<string>, name: string, list: seq<string>) {
    list != [] && NoRepeats(list) && forall id :: id in list <==> id in MembersOf(records, eligible, name, |records|)
  }

  lemma StrataAreSeparate(records: seq<CaseRecord>, eligible: seq<string>, names: seq<string>, ranked: seq<seq<string>>)
    requires UniqueIds(records) && Stratifies(records, eligible, names, ranked)
    ensures Separate(ranked)
  {
    forall j | 0 <= j < |ranked| ensures NoRepeats(ranked[j]) { assert Ranks(records, eligible, names[j], ranked[j]); }
    forall j, k, id | 0 <= j < k < |ranked| && id in ranked[j] ensures id !in ranked[k] {
      assert Ranks(records, eligible, names[j], ranked[j]) && Ranks(records, eligible, names[k], ranked[k]);
      MembersAreIds(records, eligible, names[j], |records|, id);
      MembersAreIds(records, eligible, names[k], |records|, id);
    }
  }

  /** The traversal of the strata holds exactly the eligible ids. */
  lemma TraversalIsEligible(records: seq<CaseRecord>, eligible: seq<string>, names: seq<string>, ranked: seq<seq<string>>)
    requires UniqueIds(records) && Stratifies(records, eligible, names, ranked)
    ensures forall id :: id in ColumnMajor(ranked) <==> id in EligibleIds(records, eligible, |records|)
    ensures NoRepeats(ColumnMajor(ranked))
    ensures |ColumnMajor(ranked)| == |EligibleIds(records, eligible, |records|)|
  {
    var n := |records|;
    StrataAreSeparate(records, eligible, names, ranked);
    ColumnMajorIsComplete(ranked);
    forall id ensures id in ColumnMajor(ranked) <==> id in EligibleIds(records, eligible, n) {
      EligibleAreIds(records, eligible, n, id);
      if j :| 0 <= j < |ranked| && id in ranked[j] {
        assert Ranks(records, eligible, names[j], ranked[j]);
        MembersAreIds(records, eligible, names[j], n, id);
      }
      if i :| 0 <= i < n && records[i].terminal in eligible && records[i].caseId == id {
        var name := StratumOf(records[i]);
        MembersAreIds(records, eligible, name, n, id);
        assert name in names;
        var j :| 0 <= j < |names| && names[j] == name;
        assert Ranks(records, eligible, names[j], ranked[j]);
      }
    }
    EligibleDoNotRepeat(records, eligible, n);
    SameMembersSameLength(ColumnMajor(ranked), EligibleIds(records, eligible, n));
  }

  // ---------- the selection ----------

  /** The offsets with which a fair round-robin selection leaves the strata. */
  ghost predicate Fair(ranked: seq<seq<string>>, selected: seq<string>, offsets: seq<nat>) {
    && |offsets| == |ranked|
    && (forall j :: 0 <= j < |ranked| ==>
          offsets[j] <= |ranked[j]| && Within(selected, ranked[j]) == ranked[j][..offsets[j]])
    && (forall j, k :: 0 <= j < k < |ranked| ==> offsets[j] >= offsets[k])
    && (forall j, k :: 0 <= j < k < |ranked| && offsets[j] < |ranked[j]| && offsets[k] < |ranked[k]|
                       ==> offsets[j] <= offsets[k] + 1)
  }

  ghost predicate FallingSizes(ranked: seq<seq<string>>) {
    forall j, k :: 0 <= j < k < |ranked| ==> |ranked[j]| >= |ranked[k]|
  }

  /** Larger strata come first, strata of one size in the order of their names, cases in the order of their digests. */
  ghost predicate InOrder(names: seq<string>, ranked: seq<seq<string>>, sha256: string -> string) {
    && |names| == |ranked|
    && (forall j, k :: 0 <= j < k < |ranked| ==>
          |ranked[j]| > |ranked[k]| || (|ranked[j]| == |ranked[k]| && StringLe(names[j], names[k])))
    && (forall j :: 0 <= j < |ranked| ==> Ascending(ranked[j], RankOrder(sha256)))
  }

  lemma SelectionIsFair(ranked: seq<seq<string>>, selected: seq<string>, offsets: seq<nat>, p: nat, i: nat)
    requires Separate(ranked) && FallingSizes(ranked) && i <= |ranked|
    requires selected == Traversed(ranked, p, i) && OffsetsAt(offsets, ranked, p, i)
    ensures Fair(ranked, selected, offsets)
  {
    forall j | 0 <= j < |ranked|
      ensures offsets[j] <= |ranked[j]| && Within(selected, ranked[j]) == ranked[j][..offsets[j]]
    {
      assert offsets[j] == OffsetAt(ranked, p, i, j);
      StratumPrefixIsTaken(ranked, p, i, j);
    }
    forall j, k | 0 <= j < k < |ranked|
      ensures offsets[j] >= offsets[k]
      ensures offsets[j] < |ranked[j]| && offsets[k] < |ranked[k]| ==> offsets[j] <= offsets[k] + 1
    {
      OffsetsAreFair(ranked, p, i, offsets, j, k);
    }
  }

  /** The names of the strata, largest first, ties by name. */
  method OrderStrata(keys: seq<string>, strata: map<string, seq<string>>) returns (names: seq<string>)
    requires NoRepeats(keys)
    ensures NoRepeats(names) && forall name :: name in names <==> name in keys
    ensures forall j, k :: 0 <= j < k < |names| ==> FrequencyLe(strata, names[j], names[k])
  {
    names := Sort(keys, FrequencyOrder(strata));
    FrequencyIsTotal(strata);
    SortAscends(keys, FrequencyOrder(strata));
    SortKeepsMembers(keys, FrequencyOrder(strata));
    SortKeepsNoRepeats(keys, FrequencyOrder(strata));
    forall j, k | 0 <= j < k < |names| ensures FrequencyLe(strata, names[j], names[k]) {
      assert FrequencyOrder(strata)(names[j], names[k]);
    }
  }

  method RankStratum(members: seq<string>, sha256: string -> string) returns (list: seq<string>)
    requires NoRepeats(members)
    ensures NoRepeats(list) && |list| == |members| && forall id :: id in list <==> id in members
    ensures Ascending(list, RankOrder(sha256))
  {
    list := Sort(members, RankOrder(sha256));
    RankIsTotal(sha256);
    SortAscends(members, RankOrder(sha256));
    SortPermutes(members, RankOrder(sha256));
    SortKeepsMembers(members, RankOrder(sha256));
    SortKeepsNoRepeats(members, RankOrder(sha256));
  }

  /** `list` is the ranking of the stratum that the dictionary holds under `name`. */
  ghost predicate RankedAs(records: seq<CaseRecord>, eligible: seq<string>, strata: map<string, seq<string>>,
                           sha256: string -> string, name: string, list: seq<string>) {
    && Ranks(records, eligible, name, list)
    && |list| == CountOf(strata, name)
    && Ascending(list, RankOrder(sha256))
  }

  /** The ordered strata with their ranked cases. */
  method RankStrata(records: seq<CaseRecord>, eligible: seq<string>, sha256: string -> string)
    returns (names: seq<string>, ranked: seq<seq<string>>)
    requires UniqueIds(records)
    ensures Stratifies(records, eligible, names, ranked) && InOrder(names, ranked, sha256)
  {
    var keys, strata := GroupStrata(records, eligible);
    names := OrderStrata(keys, strata);
    ranked := RankAll(records, eligible, names, strata, sha256);
    StrataInOrder(records, eligible, names, ranked, strata, sha256);
    forall j | 0 <= j < |names| ensures Ranks(records, eligible, names[j], ranked[j]) {
      assert RankedAs(records, eligible, strata, sha256, names[j], ranked[j]);
    }
  }

  /** The loop that ranks the strata in their order. */
  method RankAll(records: seq<CaseRecord>, eligible: seq<string>, names: seq<string>, strata: map<string, seq<string>>,
                 sha256: string -> string)
    returns (ranked: seq<seq<string>>)
    requires UniqueIds(records)
    requires forall name :: name in names ==>
               name in strata && strata[name] == MembersOf(records, eligible, name, |records|) != []
    ensures |ranked| == |names|
    ensures forall k :: 0 <= k < |names| ==> RankedAs(records, eligible, strata, sha256, names[k], ranked[k])
  {
    ranked := [];
    for j := 0 to |names|
      invariant |ranked| == j
      invariant forall k :: 0 <= k < j ==> RankedAs(records, eligible, strata, sha256, names[k], ranked[k])
    {
      var name := names[j];
      MembersDoNotRepeat(records, eligible, name, |records|);
      var list := RankStratum(strata[name], sha256);
      assert RankedAs(records, eligible, strata, sha256, name, list);
      ranked := ranked + [list];
    }
  }

  /** The order by frequency is an order by the length of the ranked lists. */
  lemma StrataInOrder(records: seq<CaseRecord>, eligible: seq<string>, names: seq<string>, ranked: seq<seq<string>>,
                      strata: map<string, seq<string>>, sha256: string -> string)
    requires |names| == |ranked|
    requires forall j, k :: 0 <= j < k < |names| ==> FrequencyLe(strata, names[j], names[k])
    requires forall k :: 0 <= k < |ranked| ==> RankedAs(records, eligible, strata, sha256, names[k], ranked[k])
    ensures InOrder(names, ranked, sha256)
  {
    forall j, k | 0 <= j < k < |ranked|
      ensures |ranked[j]| > |ranked[k]| || (|ranked[j]| == |ranked[k]| && StringLe(names[j], names[k]))
    {
      assert FrequencyLe(strata, names[j], names[k]);
      assert RankedAs(records, eligible, strata, sha256, names[j], ranked[j]);
      assert RankedAs(records, eligible, strata, sha256, names[k], ranked[k]);
    }
    forall j | 0 <= j < |ranked| ensures Ascending(ranked[j], RankOrder(sha256)) {
      assert RankedAs(records, eligible, strata, sha256, names[j], ranked[j]);
    }
  }

  /** The set difference that becomes `validation_case_ids`. */
  method Complement(ids: seq<string>, selected: seq<string>) returns (rest: seq<string>)
    requires NoRepeats(ids)
    ensures NoRepeats(rest) && forall id :: id in rest <==> id in ids && id !in selected
  {
    rest := [];
    for k := 0 to |ids|
      invariant NoRepeats(rest) && forall id :: id in rest <==> id in ids[..k] && id !in selected
    {
      if ids[k] !in selected {
        rest := rest + [ids[k]];
      }
    }
    assert ids[..|ids|] == ids;
  }

  /** `b` is the batch of the given size: a prefix of the traversal of the ordered strata, the rest for validation. */
  ghost predicate Selects(records: seq<CaseRecord>, eligible: seq<string>, batchSize: nat, sha256: string -> string,
                          b: Batch) {
    var ids := EligibleIds(records, eligible, |records|);
    && Stratifies(records, eligible, b.names, b.ranked)
    && InOrder(b.names, b.ranked, sha256)
    && b.selected <= ColumnMajor(b.ranked)
    && |b.selected| == Min(batchSize, |ids|)
    && NoRepeats(b.selected) && NoRepeats(b.validation)
    && (forall id :: id in ids <==> id in b.selected || id in b.validation)
    && (forall id :: id in b.selected ==> id !in b.validation)
    && Ascending(b.validation, StringLe)
  }

  method SelectCoreBatch(records: seq<CaseRecord>, eligible: seq<string>, batchSize: int, sha256: string -> string)
    returns (r: Result<Batch, BatchError>)
    ensures r.Ok? <==> UniqueIds(records) && batchSize >= 1
    ensures r.Ok? ==> Selects(records, eligible, batchSize, sha256, r.value)
    ensures r.Ok? ==> exists offsets :: Fair(r.value.ranked, r.value.selected, offsets)
  {
    var duplicate := FindDuplicate(records);
    if duplicate.Some? {
      return Err(DuplicateClassification(duplicate.value));
    }
    if batchSize < 1 {
      return Err(MalformedBatchSize);
    }
    var names, ranked := RankStrata(records, eligible, sha256);
    StrataAreSeparate(records, eligible, names, ranked);
    TraversalIsEligible(records, eligible, names, ranked);
    var selected, offsets, p, i := Select(ranked, batchSize);
    SelectionIsFair(ranked, selected, offsets, p, i);
    NothingIsTakenTwice(ranked, p, i);
    var ids := ColumnMajor(ranked);
    var rest := Complement(ids, selected);
    var validation := Sort(rest, StringLe);
    StringOrderIsTotal();
    SortAscends(rest, StringLe);
    SortKeepsMembers(rest, StringLe);
    SortKeepsNoRepeats(rest, StringLe);
    return Ok(Batch(names, ranked, selected, validation));
  }

  // ---------- two selections ----------

  /** The order of the records is no part of the question. */
  ghost predicate SameRecords(records: seq<CaseRecord>, other: seq<CaseRecord>) {
    UniqueIds(records) && UniqueIds(other) && forall r :: r in records <==> r in other
  }

  lemma SameMembers(records: seq<CaseRecord>, other: seq<CaseRecord>, eligible: seq<string>, name: string, id: string)
    requires SameRecords(records, other)
    ensures id in MembersOf(records, eligible, name, |records|) <==> id in MembersOf(other, eligible, name, |other|)
  {
    MembersAreIds(records, eligible, name, |records|, id);
    MembersAreIds(other, eligible, name, |other|, id);
    if i :| 0 <= i < |records| && records[i].terminal in eligible && StratumOf(records[i]) == name && records[i].caseId == id {
      assert records[i] in other;
    }
    if i :| 0 <= i < |other| && other[i].terminal in eligible && StratumOf(other[i]) == name && other[i].caseId == id {
      assert other[i] in records;
    }
  }

  lemma SameEligible(records: seq<CaseRecord>, other: seq<CaseRecord>, eligible: seq<string>)
    requires SameRecords(records, other)
    ensures forall id :: id in EligibleIds(records, eligible, |records|) <==> id in EligibleIds(other, eligible, |other|)
    ensures |EligibleIds(records, eligible, |records|)| == |EligibleIds(other, eligible, |other|)|
  {
    var ids, others := EligibleIds(records, eligible, |records|), EligibleIds(other, eligible, |other|);
    forall id ensures id in ids <==> id in others {
      EligibleAreIds(records, eligible, |records|, id);
      EligibleAreIds(other, eligible, |other|, id);
      if i :| 0 <= i < |records| && records[i].terminal in eligible && records[i].caseId == id {
        assert records[i] in other;
      }
      if i :| 0 <= i < |other| && other[i].terminal in eligible && other[i].caseId == id {
        assert other[i] in records;
      }
    }
    EligibleDoNotRepeat(records, eligible, |records|);
    EligibleDoNotRepeat(other, eligible, |other|);
    SameMembersSameLength(ids, others);
  }

  /** A stratum has one ranking, whatever the order of the records. */
  lemma RankingIsUnique(records: seq<CaseRecord>, other: seq<CaseRecord>, eligible: seq<string>, name: string,
                        sha256: string -> string, list: seq<string>, list': seq<string>)
    requires SameRecords(records, other)
    requires Ranks(records, eligible, name, list) && Ascending(list, RankOrder(sha256))
    requires Ranks(other, eligible, name, list') && Ascending(list', RankOrder(sha256))
    ensures list == list'
  {
    forall id ensures id in list <==> id in list' { SameMembers(records, other, eligible, name, id); }
    RankIsTotal(sha256);
    AscendingIsUnique(list, list', RankOrder(sha256));
  }

  /** The named strata are those with an eligible case. */
  lemma NamedMeansOccupied(records: seq<CaseRecord>, eligible: seq<string>, names: seq<string>, ranked: seq<seq<string>>,
                           name: string)
    requires Stratifies(records, eligible, names, ranked)
    ensures name in names <==> MembersOf(records, eligible, name, |records|) != []
  {
    if j :| 0 <= j < |names| && names[j] == name {
      assert Ranks(records, eligible, names[j], ranked[j]);
      assert ranked[j][0] in ranked[j];
    }
  }

  /** The dictionary of the strata, read back from the ordered lists. */
  ghost function StrataOf(records: seq<CaseRecord>, eligible: seq<string>, names: seq<string>): map<string, seq<string>> {
    map name | name in names :: MembersOf(records, eligible, name, |records|)
  }

  lemma NamesAscend(records: seq<CaseRecord>, eligible: seq<string>, sha256: string -> string, names: seq<string>,
                    ranked: seq<seq<string>>, strata: map<string, seq<string>>)
    requires UniqueIds(records)
    requires Stratifies(records, eligible, names, ranked) && InOrder(names, ranked, sha256)
    requires forall name :: name in names ==> CountOf(strata, name) == |MembersOf(records, eligible, name, |records|)|
    ensures Ascending(names, FrequencyOrder(strata))
  {
    forall j | 0 <= j < |names| ensures |ranked[j]| == CountOf(strata, names[j]) {
      assert Ranks(records, eligible, names[j], ranked[j]);
      MembersDoNotRepeat(records, eligible, names[j], |records|);
      SameMembersSameLength(ranked[j], MembersOf(records, eligible, names[j], |records|));
    }
    forall j, k | 0 <= j < k < |names| ensures FrequencyOrder(strata)(names[j], names[k]) {
      assert |ranked[j]| > |ranked[k]| || (|ranked[j]| == |ranked[k]| && StringLe(names[j], names[k]));
    }
  }

  /** The records determine the strata, their order and their rankings. */
  lemma StrataAreDetermined(records: seq<CaseRecord>, other: seq<CaseRecord>, eligible: seq<string>, sha256: string -> string,
                            b: Batch, b': Batch)
    requires SameRecords(records, other)
    requires Stratifies(records, eligible, b.names, b.ranked) && InOrder(b.names, b.ranked, sha256)
    requires Stratifies(other, eligible, b'.names, b'.ranked) && InOrder(b'.names, b'.ranked, sha256)
    ensures b.names == b'.names && b.ranked == b'.ranked
  {
    NamesAreDetermined(records, other, eligible, sha256, b, b');
    forall j | 0 <= j < |b.names| ensures b.ranked[j] == b'.ranked[j] {
      assert Ranks(records, eligible, b.names[j], b.ranked[j]) && Ranks(other, eligible, b'.names[j], b'.ranked[j]);
      RankingIsUnique(records, other, eligible, b.names[j], sha256, b.ranked[j], b'.ranked[j]);
    }
  }

  lemma NamesAreDetermined(records: seq<CaseRecord>, other: seq<CaseRecord>, eligible: seq<string>, sha256: string -> string,
                           b: Batch, b': Batch)
    requires SameRecords(records, other)
    requires Stratifies(records, eligible, b.names, b.ranked) && InOrder(b.names, b.ranked, sha256)
    requires Stratifies(other, eligible, b'.names, b'.ranked) && InOrder(b'.names, b'.ranked, sha256)
    ensures b.names == b'.names
  {
    var strata := StrataOf(records, eligible, b.names);
    forall name
      ensures name in b.names <==> name in b'.names
      ensures name in b'.names ==> CountOf(strata, name) == |MembersOf(other, eligible, name, |other|)|
    {
      NamedMeansOccupied(records, eligible, b.names, b.ranked, name);
      NamedMeansOccupied(other, eligible, b'.names, b'.ranked, name);
      MembersDoNotRepeat(records, eligible, name, |records|);
      MembersDoNotRepeat(other, eligible, name, |other|);
      forall id { SameMembers(records, other, eligible, name, id); }
      SameMembersSameLength(MembersOf(records, eligible, name, |records|), MembersOf(other, eligible, name, |other|));
    }
    NamesAscend(records, eligible, sha256, b.names, b.ranked, strata);
    NamesAscend(other, eligible, sha256, b'.names, b'.ranked, strata);
    FrequencyIsTotal(strata);
    AscendingIsUnique(b.names, b'.names, FrequencyOrder(strata));
  }

  /**
   Two selections from the same records, listed in any order: the larger batch begins with the smaller one, and
   batches of one size are the same batch.
   */
  lemma LargerBatchExtends(records: seq<CaseRecord>, other: seq<CaseRecord>, eligible: seq<string>, sha256: string -> string,
                           size: nat, larger: nat, b: Batch, b': Batch)
    requires SameRecords(records, other) && size <= larger
    requires Selects(records, eligible, size, sha256, b) && Selects(other, eligible, larger, sha256, b')
    ensures b.selected <= b'.selected
    ensures forall id :: id in b'.validation ==> id in b.validation
    ensures size == larger ==> b == b'
  {
    StrataAreDetermined(records, other, eligible, sha256, b, b');
    SameEligible(records, other, eligible);
    var all := ColumnMajor(b.ranked);
    assert b.selected == all[..|b.selected|] && b'.selected == all[..|b'.selected|];
    if size == larger {
      StringOrderIsTotal();
      AscendingIsUnique(b.validation, b'.validation, StringLe);
    }
  }
}
