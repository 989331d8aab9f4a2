/** From a schedule through its runs to the paired comparison. */
module PairedAdjudication {
  import opened Json
  import opened Wrappers
  import opened Sorting
  import McNemar
  import opened PairedSchedule
  import opened PairGrouping

  /** What the run summary says about one run; None stands for an outcome that is not a bool. */
  datatype Source = Source(runId: string, caseId: string, officialPass: Option<bool>, protocolPass: Option<bool>)

  datatype Comparison = Comparison(pairs: seq<Pairing>, official: McNemar.PairedCounts, protocol: McNemar.PairedCounts)

  /** The record of a run takes its outcomes from the summary and its identity from the episode. */
  function Joined(source: Source, e: Episode, naming: Naming): Record {
    Record(source.runId, Some(e.pairIndex), Text(e.pairId), Text(naming.labels(e.arm)), source.caseId,
           source.officialPass, source.protocolPass)
  }

  function RunIds(sources: seq<Source>): seq<string> {
    seq(|sources|, k requires 0 <= k < |sources| => sources[k].runId)
  }

  function ScheduledIds(episodes: seq<Episode>): seq<string> {
    seq(|episodes|, k requires 0 <= k < |episodes| => episodes[k].runId)
  }

  /** The last episode with a run identifier: later entries of a dictionary replace earlier ones. */
  ghost predicate LastWith(episodes: seq<Episode>, runId: string, k: int) {
    0 <= k < |episodes| && episodes[k].runId == runId && forall l :: k < l < |episodes| ==> episodes[l].runId != runId
  }

  ghost predicate JoinedByRunId(source: Source, episodes: seq<Episode>, naming: Naming, r: Record) {
    exists l :: LastWith(episodes, source.runId, l) && r == Joined(source, episodes[l], naming)
  }

  datatype JoinError = UnknownRun(runId: string)

  ghost predicate Known(episodes: seq<Episode>, runId: string) {
    exists k :: 0 <= k < |episodes| && episodes[k].runId == runId
  }

  /** `episode_by_run_id`. */
  method IndexEpisodes(episodes: seq<Episode>) returns (byRunId: map<string, nat>)
    ensures forall id :: id in byRunId <==> Known(episodes, id)
    ensures forall id :: id in byRunId ==> LastWith(episodes, id, byRunId[id])
  {
    byRunId := map[];
    for i := 0 to |episodes|
      invariant forall id :: id in byRunId ==> LastWith(episodes[..i], id, byRunId[id])
      invariant forall k :: 0 <= k < i ==> episodes[k].runId in byRunId
    {
      byRunId := byRunId[episodes[i].runId := i];
    }
    assert episodes[..|episodes|] == episodes;
  }

  /** The record loop: every run looks its episode up by run identifier. */
  method Join(sources: seq<Source>, episodes: seq<Episode>, naming: Naming)
    returns (result: Result<seq<Record>, JoinError>)
    ensures result.Ok? <==> forall k :: 0 <= k < |sources| ==> Known(episodes, sources[k].runId)
    ensures result.Ok? ==>
              && |result.value| == |sources|
              && forall k :: 0 <= k < |sources| ==> JoinedByRunId(sources[k], episodes, naming, result.value[k])
  {
    var byRunId := IndexEpisodes(episodes);
    var records: seq<Record> := [];
    for i := 0 to |sources|
      invariant |records| == i
      invariant forall k :: 0 <= k < i ==> Known(episodes, sources[k].runId)
      invariant forall k :: 0 <= k < i ==> JoinedByRunId(sources[k], episodes, naming, records[k])
    {
      var id := sources[i].runId;
      if id !in byRunId {
        return Err(UnknownRun(id));
      }
      assert LastWith(episodes, id, byRunId[id]);
      records := records + [Joined(sources[i], episodes[byRunId[id]], naming)];
    }
    return Ok(records);
  }

  function OfficialOutcomes(pairs: seq<Pairing>): seq<McNemar.Pair>
    requires forall i :: 0 <= i < |pairs| ==> Complete(pairs[i])
  {
    seq(|pairs|, i requires 0 <= i < |pairs| && Complete(pairs[i]) =>
      McNemar.Pair(pairs[i].control.value.officialPass, pairs[i].treatment.value.officialPass))
  }

  function ProtocolOutcomes(pairs: seq<Pairing>): seq<McNemar.Pair>
    requires forall i :: 0 <= i < |pairs| ==> Complete(pairs[i])
  {
    seq(|pairs|, i requires 0 <= i < |pairs| && Complete(pairs[i]) =>
      McNemar.Pair(pairs[i].control.value.protocolPass, pairs[i].treatment.value.protocolPass))
  }

  predicate Labelled(arms: Arms) {
    arms.control != "" && arms.treatment != "" && arms.control != arms.treatment
  }

  /** The reported numbers are the table of the outcomes and its exact p-value. */
  ghost predicate Counts(c: McNemar.PairedCounts, outcomes: seq<McNemar.Pair>) {
    && McNemar.Tabulates(c.table, outcomes)
    && c.discordant == c.table.controlOnly + c.table.treatmentOnly
    && c.mcnemarP == McNemar.ExactMcnemarP(c.table.treatmentOnly, c.table.controlOnly)
  }

  /** The part of `adjudicate_paired_schedule` behind the record loop. */
  method Compare(records: seq<Record>, arms: Arms) returns (result: Result<Comparison, GroupError>)
    ensures result.Ok? <==> Labelled(arms) && WellPaired(records, arms)
    ensures result.Ok? ==>
              && Pairs(result.value.pairs, records, arms)
              && Counts(result.value.official, OfficialOutcomes(result.value.pairs))
              && Counts(result.value.protocol, ProtocolOutcomes(result.value.pairs))
  {
    if !Labelled(arms) {
      return Err(BadArms);
    }
    var grouping := Group(records, arms);
    if grouping.Err? {
      return Err(grouping.error);
    }
    var official := McNemar.CountPairs(OfficialOutcomes(grouping.value));
    var protocol := McNemar.CountPairs(ProtocolOutcomes(grouping.value));
    return Ok(Comparison(grouping.value, official, protocol));
  }

  // ---------- scheduled runs always pair up ----------

  /** The summary covers every scheduled episode once, in any order, with the case of the episode. */
  ghost predicate Covers(sources: seq<Source>, episodes: seq<Episode>) {
    && multiset(RunIds(sources)) == multiset(ScheduledIds(episodes))
    && forall k, l :: 0 <= k < |sources| && 0 <= l < |episodes| && sources[k].runId == episodes[l].runId ==>
         sources[k].caseId == episodes[l].caseId
  }

  /** Record `k` is that of episode `place[k]`, and `runOf` is the inverse of `place`. */
  ghost predicate Matches(sources: seq<Source>, episodes: seq<Episode>, naming: Naming, records: seq<Record>,
                          place: seq<nat>, runOf: seq<nat>)
  {
    && |place| == |records| == |sources| && |runOf| == |episodes|
    && (forall k :: 0 <= k < |place| ==>
          place[k] < |episodes| && sources[k].runId == episodes[place[k]].runId
          && records[k] == Joined(sources[k], episodes[place[k]], naming) && runOf[place[k]] == k)
    && (forall l :: 0 <= l < |runOf| ==> runOf[l] < |place| && place[runOf[l]] == l)
  }

  /** Distinct run identifiers make the join a relabelling of the episodes. */
  lemma JoinedRecordsMatch(sources: seq<Source>, episodes: seq<Episode>, naming: Naming, cases: seq<string>, records: seq<Record>)
    returns (place: seq<nat>, runOf: seq<nat>)
    requires Schedules(episodes, naming, cases) && Covers(sources, episodes)
    requires |records| == |sources|
    requires forall k :: 0 <= k < |sources| ==> JoinedByRunId(sources[k], episodes, naming, records[k])
    ensures Matches(sources, episodes, naming, records, place, runOf)
  {
    RunIdsAreDistinct(sources, episodes, naming, cases);
    place := Places(sources, episodes, naming, records);
    runOf := RunsOf(sources, episodes, place);
  }

  lemma RunIdsAreDistinct(sources: seq<Source>, episodes: seq<Episode>, naming: Naming, cases: seq<string>)
    requires Schedules(episodes, naming, cases) && Covers(sources, episodes)
    ensures NoRepeats(RunIds(sources)) && NoRepeats(ScheduledIds(episodes))
  {
    var scheduled := ScheduledIds(episodes);
    forall i, j | 0 <= i < j < |scheduled| ensures scheduled[i] != scheduled[j] {
      PositionsAndRunIds(episodes, naming, cases, i, j);
    }
    NoRepeatsByMultiset(scheduled);
    MultisetByNoRepeats(RunIds(sources));
  }

  lemma Places(sources: seq<Source>, episodes: seq<Episode>, naming: Naming, records: seq<Record>) returns (place: seq<nat>)
    requires |records| == |sources|
    requires forall k :: 0 <= k < |sources| ==> JoinedByRunId(sources[k], episodes, naming, records[k])
    ensures |place| == |records|
    ensures forall k :: 0 <= k < |place| ==>
              place[k] < |episodes| && sources[k].runId == episodes[place[k]].runId
              && records[k] == Joined(sources[k], episodes[place[k]], naming)
  {
    place := [];
    for i := 0 to |sources|
      invariant |place| == i
      invariant forall k :: 0 <= k < i ==>
                  place[k] < |episodes| && sources[k].runId == episodes[place[k]].runId
                  && records[k] == Joined(sources[k], episodes[place[k]], naming)
    {
      var l :| LastWith(episodes, sources[i].runId, l) && records[i] == Joined(sources[i], episodes[l], naming);
      place := place + [l];
    }
  }

  lemma RunsOf(sources: seq<Source>, episodes: seq<Episode>, place: seq<nat>) returns (runOf: seq<nat>)
    requires Covers(sources, episodes) && NoRepeats(RunIds(sources)) && NoRepeats(ScheduledIds(episodes))
    requires |place| == |sources|
    requires forall k :: 0 <= k < |place| ==> place[k] < |episodes| && sources[k].runId == episodes[place[k]].runId
    ensures |runOf| == |episodes|
    ensures forall l :: 0 <= l < |runOf| ==> runOf[l] < |place| && place[runOf[l]] == l
    ensures forall k :: 0 <= k < |place| ==> runOf[place[k]] == k
  {
    var ids, scheduled := RunIds(sources), ScheduledIds(episodes);
    runOf := [];
    for i := 0 to |episodes|
      invariant |runOf| == i
      invariant forall l :: 0 <= l < i ==> runOf[l] < |place| && place[runOf[l]] == l
    {
      assert scheduled[i] in multiset(ids);
      var k :| 0 <= k < |ids| && ids[k] == scheduled[i];
      assert scheduled[place[k]] == scheduled[i];
      runOf := runOf + [k];
    }
    forall k | 0 <= k < |place| ensures runOf[place[k]] == k {
      assert ids[runOf[place[k]]] == scheduled[place[k]] == ids[k];
    }
  }

  function LabelsOf(naming: Naming): Arms {
    Arms(naming.labels(Observation), naming.labels(Handoff))
  }

  /** The labels that the repository passes by default are usable. */
  lemma RepositoryLabelsDiffer(text: Value -> string, slug: string -> string)
    ensures Labelled(LabelsOf(RepositoryNaming(text, slug)))
  {
    assert "S-OBS"[0] != "H-VH"[0];
  }

  /** Whatever order the runs come in, the records of a schedule pass the grouping. */
  lemma ScheduledRunsArePaired(sources: seq<Source>, episodes: seq<Episode>, naming: Naming, cases: seq<string>,
                               records: seq<Record>, place: seq<nat>, runOf: seq<nat>)
    requires Schedules(episodes, naming, cases) && Covers(sources, episodes) && Labelled(LabelsOf(naming))
    requires Matches(sources, episodes, naming, records, place, runOf)
    ensures WellPaired(records, LabelsOf(naming))
  {
    var arms := LabelsOf(naming);
    forall k | 0 <= k < |records| ensures Identified(arms, records[k]) {
      assert records[k] == Joined(sources[k], episodes[place[k]], naming);
    }
    forall k, l, index, role | Fills(records, arms, k, index, role) && Fills(records, arms, l, index, role) ensures k == l {
      assert records[k] == Joined(sources[k], episodes[place[k]], naming);
      assert records[l] == Joined(sources[l], episodes[place[l]], naming);
      PairsShare(episodes, naming, cases, place[k], place[l]);
      assert place[k] == place[l];
    }
    forall k | 0 <= k < |records| ensures HasPartner(records, arms, k) {
      PartnerOf(sources, episodes, naming, cases, records, place, runOf, k);
    }
  }

  lemma PartnerOf(sources: seq<Source>, episodes: seq<Episode>, naming: Naming, cases: seq<string>,
                  records: seq<Record>, place: seq<nat>, runOf: seq<nat>, k: nat)
    requires Schedules(episodes, naming, cases) && Covers(sources, episodes) && Labelled(LabelsOf(naming))
    requires Matches(sources, episodes, naming, records, place, runOf) && k < |records|
    ensures HasPartner(records, LabelsOf(naming), k)
  {
    var i := place[k];
    BothArmsOncePerPair(episodes, naming, cases);
    var p, other := episodes[i].pairIndex, if episodes[i].arm == Observation then Handoff else Observation;
    var j := PlaceOf(p, other);
    var l := runOf[j];
    PairsShare(episodes, naming, cases, i, j);
    assert records[k] == Joined(sources[k], episodes[i], naming) && records[l] == Joined(sources[l], episodes[j], naming);
    assert Fills(records, LabelsOf(naming), l, p, Other(RoleOf(LabelsOf(naming), records[k])));
  }

  lemma {:induction false} AscendingRange(s: seq<int>, n: nat)
    requires forall i, j :: 0 <= i < j < |s| ==> s[i] < s[j]
    requires forall x :: x in s <==> 1 <= x <= n
    ensures |s| == n && forall i :: 0 <= i < |s| ==> s[i] == i + 1
  {
    if s == [] {
      assert n > 0 ==> n in s;
    } else {
      var last := |s| - 1;
      assert s[last] in s;
      assert n in s;
      var i :| 0 <= i < |s| && s[i] == n;
      assert i == last;
      forall x ensures x in s[..last] <==> 1 <= x <= n - 1 {
        if x in s[..last] {
          var k :| 0 <= k < last && s[k] == x;
          assert s[k] in s && s[k] < s[last];
        }
        if 1 <= x <= n - 1 {
          assert x in s;
          var k :| 0 <= k < |s| && s[k] == x;
          assert s[..last][k] == x;
        }
      }
      AscendingRange(s[..last], n - 1);
    }
  }

  lemma IndicesPresent(sources: seq<Source>, episodes: seq<Episode>, naming: Naming, cases: seq<string>,
                       records: seq<Record>, place: seq<nat>, runOf: seq<nat>, index: int)
    requires Schedules(episodes, naming, cases)
    requires Matches(sources, episodes, naming, records, place, runOf)
    ensures Present(records, index) <==> 1 <= index <= |cases|
  {
    BothArmsOncePerPair(episodes, naming, cases);
    if Present(records, index) {
      var k :| 0 <= k < |records| && records[k].pairIndex == Some(index);
      assert records[k] == Joined(sources[k], episodes[place[k]], naming);
    }
    if 1 <= index <= |cases| {
      var k := runOf[PlaceOf(index, Observation)];
      assert records[k] == Joined(sources[k], episodes[place[k]], naming);
    }
  }

  lemma CaseOfIndex(sources: seq<Source>, episodes: seq<Episode>, naming: Naming, cases: seq<string>,
                    records: seq<Record>, place: seq<nat>, runOf: seq<nat>, k: nat, i: nat)
    requires Schedules(episodes, naming, cases) && Covers(sources, episodes)
    requires Matches(sources, episodes, naming, records, place, runOf)
    requires k < |records| && i < |cases| && records[k].pairIndex == Some(i + 1)
    ensures records[k].caseId == cases[i]
  {
    var l := place[k];
    assert records[k] == Joined(sources[k], episodes[l], naming);
    assert Runs(episodes[l], naming, cases[l / 2], l / 2 + 1, l % 2 + 1);
  }

  lemma CollectedCase(sources: seq<Source>, episodes: seq<Episode>, naming: Naming, cases: seq<string>,
                      records: seq<Record>, place: seq<nat>, runOf: seq<nat>, p: Pairing, i: nat)
    requires Schedules(episodes, naming, cases) && Covers(sources, episodes)
    requires Matches(sources, episodes, naming, records, place, runOf)
    requires i < |cases| && p.pairIndex == i + 1 && Collects(p, records, LabelsOf(naming), p.pairIndex)
    ensures p.caseId == cases[i]
  {
    var k :| Opens(records, k, p.pairIndex) && p.pairId == records[k].pairId && p.caseId == records[k].caseId;
    CaseOfIndex(sources, episodes, naming, cases, records, place, runOf, k, i);
  }

  lemma PairIndices(sources: seq<Source>, episodes: seq<Episode>, naming: Naming, cases: seq<string>,
                    records: seq<Record>, place: seq<nat>, runOf: seq<nat>, pairs: seq<Pairing>)
    requires Schedules(episodes, naming, cases)
    requires Matches(sources, episodes, naming, records, place, runOf)
    requires Pairs(pairs, records, LabelsOf(naming))
    ensures |pairs| == |cases|
    ensures forall i :: 0 <= i < |pairs| ==> pairs[i].pairIndex == i + 1
  {
    var indices := seq(|pairs|, i requires 0 <= i < |pairs| => pairs[i].pairIndex);
    forall index ensures index in indices <==> 1 <= index <= |cases| {
      IndicesPresent(sources, episodes, naming, cases, records, place, runOf, index);
      if i :| 0 <= i < |pairs| && pairs[i].pairIndex == index { assert indices[i] == index; }
    }
    AscendingRange(indices, |cases|);
    forall i | 0 <= i < |pairs| ensures pairs[i].pairIndex == i + 1 { assert indices[i] == i + 1; }
  }

  /** A schedule of n bad cases ends up as the n pairs 1 to n, each compared arm against arm. */
  lemma ScheduleGivesOnePairPerCase(sources: seq<Source>, episodes: seq<Episode>, naming: Naming, cases: seq<string>,
                                    records: seq<Record>, place: seq<nat>, runOf: seq<nat>, pairs: seq<Pairing>)
    requires Schedules(episodes, naming, cases) && Covers(sources, episodes)
    requires Matches(sources, episodes, naming, records, place, runOf)
    requires Pairs(pairs, records, LabelsOf(naming))
    ensures |pairs| == |cases|
    ensures forall i :: 0 <= i < |pairs| ==> pairs[i].pairIndex == i + 1 && pairs[i].caseId == cases[i]
  {
    PairIndices(sources, episodes, naming, cases, records, place, runOf, pairs);
    forall i | 0 <= i < |pairs| ensures pairs[i].caseId == cases[i] {
      CollectedCase(sources, episodes, naming, cases, records, place, runOf, pairs[i], i);
    }
  }

  // ---------- the whole study ----------

  /** The run of a case under an arm. */
  function RunOf(naming: Naming, cases: seq<string>, i: nat, arm: Arm): string
    requires i < |cases|
  {
    RunId(naming, PlaceOf(i + 1, arm) + 1, cases[i], arm)
  }

  /** The member has the outcomes that the summary reports for the run. */
  ghost predicate FromRun(member: Option<Record>, sources: seq<Source>, runId: string) {
    && member.Some? && member.value.runId == runId
    && exists k :: 0 <= k < |sources| && sources[k].runId == runId
                   && member.value.officialPass == sources[k].officialPass
                   && member.value.protocolPass == sources[k].protocolPass
  }

  /** Pair `i` compares the two runs of case `i`. */
  ghost predicate ComparesCase(p: Pairing, sources: seq<Source>, naming: Naming, cases: seq<string>, i: nat)
    requires i < |cases|
  {
    && p.pairIndex == i + 1 && p.caseId == cases[i]
    && FromRun(p.control, sources, RunOf(naming, cases, i, Observation))
    && FromRun(p.treatment, sources, RunOf(naming, cases, i, Handoff))
  }

  /** The scheduled episode of a case and an arm. */
  lemma EpisodeOfCase(episodes: seq<Episode>, naming: Naming, cases: seq<string>, i: nat, arm: Arm)
    requires Schedules(episodes, naming, cases) && i < |cases|
    ensures var k := PlaceOf(i + 1, arm);
            k < |episodes| && episodes[k].pairIndex == i + 1 && episodes[k].arm == arm
            && episodes[k].runId == RunOf(naming, cases, i, arm)
  {
    var k := PlaceOf(i + 1, arm);
    assert k / 2 == i;
    assert Runs(episodes[k], naming, cases[k / 2], k / 2 + 1, k % 2 + 1);
  }

  lemma MemberIsRun(sources: seq<Source>, episodes: seq<Episode>, naming: Naming, cases: seq<string>,
                    records: seq<Record>, place: seq<nat>, runOf: seq<nat>, k: nat, i: nat, arm: Arm)
    requires Schedules(episodes, naming, cases) && Labelled(LabelsOf(naming)) && i < |cases|
    requires Matches(sources, episodes, naming, records, place, runOf)
    requires Fills(records, LabelsOf(naming), k, i + 1, if arm == Observation then Control else Treatment)
    ensures FromRun(Some(records[k]), sources, RunOf(naming, cases, i, arm))
  {
    EpisodeOfCase(episodes, naming, cases, i, arm);
    MemberIsEpisode(sources[k], episodes[place[k]], naming, i, arm);
    PairsShare(episodes, naming, cases, place[k], PlaceOf(i + 1, arm));
  }

  /** The role of a joined record tells the arm of its episode. */
  lemma MemberIsEpisode(source: Source, e: Episode, naming: Naming, i: nat, arm: Arm)
    requires Labelled(LabelsOf(naming)) && Joined(source, e, naming).pairIndex == Some(i + 1)
    requires RoleOf(LabelsOf(naming), Joined(source, e, naming)) == if arm == Observation then Control else Treatment
    ensures e.pairIndex == i + 1 && e.arm == arm
  {}

  lemma PairComparesCase(sources: seq<Source>, episodes: seq<Episode>, naming: Naming, cases: seq<string>,
                         records: seq<Record>, place: seq<nat>, runOf: seq<nat>, p: Pairing, i: nat)
    requires Schedules(episodes, naming, cases) && Covers(sources, episodes) && Labelled(LabelsOf(naming))
    requires Matches(sources, episodes, naming, records, place, runOf)
    requires i < |cases| && p.pairIndex == i + 1 && Complete(p) && Collects(p, records, LabelsOf(naming), p.pairIndex)
    ensures ComparesCase(p, sources, naming, cases, i)
  {
    CollectedCase(sources, episodes, naming, cases, records, place, runOf, p, i);
    var arms := LabelsOf(naming);
    assert Member(p, Control).Some? && Member(p, Treatment).Some?;
    var k :| Fills(records, arms, k, i + 1, Control) && Member(p, Control) == Some(records[k]);
    MemberIsRun(sources, episodes, naming, cases, records, place, runOf, k, i, Observation);
    var l :| Fills(records, arms, l, i + 1, Treatment) && Member(p, Treatment) == Some(records[l]);
    MemberIsRun(sources, episodes, naming, cases, records, place, runOf, l, i, Handoff);
  }

  /** A complete summary names scheduled runs only. */
  lemma CoveredRunsAreKnown(sources: seq<Source>, episodes: seq<Episode>)
    requires Covers(sources, episodes)
    ensures forall k :: 0 <= k < |sources| ==> Known(episodes, sources[k].runId)
  {
    var ids, scheduled := RunIds(sources), ScheduledIds(episodes);
    forall k | 0 <= k < |sources| ensures Known(episodes, sources[k].runId) {
      assert ids[k] in multiset(scheduled);
      var l :| 0 <= l < |scheduled| && scheduled[l] == ids[k];
      assert episodes[l].runId == sources[k].runId;
    }
  }

  /**
   From the bad cases to the tables. Given a summary that covers the schedule, in any order, a study of n bad cases
   never fails and compares, pair by pair, the two runs of each case; without bad cases there is no study.
   */
  method RunStudy(badCases: Value, naming: Naming, summarise: seq<Episode> -> seq<Source>)
    returns (episodes: seq<Episode>, result: Option<Comparison>)
    requires Labelled(LabelsOf(naming))
    requires badCases.List? ==> forall episodes :: Schedules(episodes, naming, Texts(badCases.items, naming))
                                                   ==> Covers(summarise(episodes), episodes)
    ensures result.None? <==> !badCases.List? || badCases.items == []
    ensures result.Some? ==>
              var cases := Texts(badCases.items, naming);
              && Schedules(episodes, naming, cases)
              && |result.value.pairs| == |cases|
              && (forall i :: 0 <= i < |cases| ==>
                    ComparesCase(result.value.pairs[i], summarise(episodes), naming, cases, i)
                    && Complete(result.value.pairs[i]))
              && Counts(result.value.official, OfficialOutcomes(result.value.pairs))
              && Counts(result.value.protocol, ProtocolOutcomes(result.value.pairs))
  {
    var schedule := Build(badCases, naming);
    if schedule.Err? {
      return [], None;
    }
    episodes := schedule.value;
    ghost var cases := Texts(badCases.items, naming);
    var sources := summarise(episodes);
    CoveredRunsAreKnown(sources, episodes);
    var joined := Join(sources, episodes, naming);
    var records := joined.value;
    ghost var place, runOf := JoinedRecordsMatch(sources, episodes, naming, cases, records);
    ScheduledRunsArePaired(sources, episodes, naming, cases, records, place, runOf);
    var compared := Compare(records, LabelsOf(naming));
    var pairs := compared.value.pairs;
    PairIndices(sources, episodes, naming, cases, records, place, runOf, pairs);
    forall i | 0 <= i < |cases| ensures ComparesCase(pairs[i], sources, naming, cases, i) {
      PairComparesCase(sources, episodes, naming, cases, records, place, runOf, pairs[i], i);
    }
    return episodes, Some(compared.value);
  }
}
