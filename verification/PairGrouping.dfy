/** The grouping in `adjudicate_paired_schedule`: run records become control-treatment pairs, or an error. */
module PairGrouping {
  import opened Json
  import opened Wrappers
  import opened Sorting

  /** `pairIndex` is None unless the field is an int. */
  datatype Record = Record(runId: string, pairIndex: Option<int>, pairId: Value, arm: Value, caseId: string,
                           officialPass: Option<bool>, protocolPass: Option<bool>)

  datatype Role = Control | Treatment

  datatype Pairing = Pairing(pairIndex: int, pairId: Value, caseId: string,
                             control: Option<Record>, treatment: Option<Record>)

  datatype GroupError =
    | BadArms
    | InvalidIdentity(runId: string)
    | RepeatsArm(pairIndex: int, role: Role)
    | LacksArm(pairIndex: int)
    | MixesCases(pairIndex: int)

  /** The two arm labels. */
  datatype Arms = Arms(control: string, treatment: string)

  predicate Identified(arms: Arms, r: Record) {
    r.pairIndex.Some? && r.arm.Text? && r.arm.s in {arms.control, arms.treatment}
  }

  function RoleOf(arms: Arms, r: Record): Role {
    if r.arm == Text(arms.control) then Control else Treatment
  }

  function Other(role: Role): Role {
    if role == Control then Treatment else Control
  }

  /** Record `k` fills a role of a pair. */
  predicate Fills(records: seq<Record>, arms: Arms, k: int, index: int, role: Role) {
    0 <= k < |records| && records[k].pairIndex == Some(index) && RoleOf(arms, records[k]) == role
  }

  /** What a list of records must satisfy for a paired comparison. */
  ghost predicate WellPaired(records: seq<Record>, arms: Arms) {
    && (forall k :: 0 <= k < |records| ==> Identified(arms, records[k]))
    && (forall k, l, index, role :: Fills(records, arms, k, index, role) && Fills(records, arms, l, index, role) ==> k == l)
    && (forall k :: 0 <= k < |records| ==> HasPartner(records, arms, k))
  }

  /** Another record fills the other role of the same pair with the same case. */
  ghost predicate HasPartner(records: seq<Record>, arms: Arms, k: nat)
    requires k < |records|
  {
    records[k].pairIndex.Some?
    && exists l :: Fills(records, arms, l, records[k].pairIndex.value, Other(RoleOf(arms, records[k])))
                   && records[l].caseId == records[k].caseId
  }

  function Member(p: Pairing, role: Role): Option<Record> {
    if role == Control then p.control else p.treatment
  }

  /** The first record of a pair gives the pair its identifier and its case. */
  ghost predicate Opens(records: seq<Record>, k: int, index: int) {
    0 <= k < |records| && records[k].pairIndex == Some(index) && forall l :: 0 <= l < k ==> records[l].pairIndex != Some(index)
  }

  /** `p` is the pair `index` of the records: its identity is that of the first record, its members are those it has. */
  ghost predicate Collects(p: Pairing, records: seq<Record>, arms: Arms, index: int) {
    && p.pairIndex == index
    && (exists k :: Opens(records, k, index) && p.pairId == records[k].pairId && p.caseId == records[k].caseId)
    && (forall role :: Member(p, role).Some? ==>
          exists k :: Fills(records, arms, k, index, role) && Member(p, role) == Some(records[k]))
    && (forall role, k :: Fills(records, arms, k, index, role) ==> Member(p, role) == Some(records[k]))
  }

  ghost predicate Present(records: seq<Record>, index: int) {
    exists k :: 0 <= k < |records| && records[k].pairIndex == Some(index)
  }

  /** The dictionary after the records so far, and its keys in the order of insertion. */
  ghost predicate Groups(grouped: map<int, Pairing>, order: seq<int>, records: seq<Record>, arms: Arms) {
    && NoRepeats(order)
    && (forall index :: index in order <==> index in grouped)
    && (forall index :: index in grouped <==> Present(records, index))
    && (forall index :: index in grouped ==> Collects(grouped[index], records, arms, index))
    && (forall k :: 0 <= k < |records| ==> Identified(arms, records[k]))
    && (forall k, l, index, role :: Fills(records, arms, k, index, role) && Fills(records, arms, l, index, role) ==> k == l)
  }

  // ---------- one record more ----------

  lemma FillsAppended(records: seq<Record>, r: Record, arms: Arms, k: int, index: int, role: Role)
    ensures Fills(records + [r], arms, k, index, role)
       <==> Fills(records, arms, k, index, role)
            || (k == |records| && r.pairIndex == Some(index) && RoleOf(arms, r) == role)
  {
  }

  function WithMember(p: Pairing, role: Role, r: Record): Pairing {
    if role == Control then p.(control := Some(r)) else p.(treatment := Some(r))
  }

  lemma UntouchedPair(p: Pairing, records: seq<Record>, r: Record, arms: Arms, index: int)
    requires Collects(p, records, arms, index) && r.pairIndex != Some(index)
    ensures Collects(p, records + [r], arms, index)
  {
    var k :| Opens(records, k, index) && p.pairId == records[k].pairId && p.caseId == records[k].caseId;
    assert Opens(records + [r], k, index);
    forall role | Member(p, role).Some?
      ensures exists k :: Fills(records + [r], arms, k, index, role) && Member(p, role) == Some((records + [r])[k])
    {
      var k :| Fills(records, arms, k, index, role) && Member(p, role) == Some(records[k]);
      assert Fills(records + [r], arms, k, index, role);
    }
    forall role, k | Fills(records + [r], arms, k, index, role) ensures Member(p, role) == Some((records + [r])[k]) {
      FillsAppended(records, r, arms, k, index, role);
    }
  }

  lemma JoinedPair(p: Pairing, records: seq<Record>, r: Record, arms: Arms, index: int)
    requires Collects(p, records, arms, index) && r.pairIndex == Some(index)
    requires Member(p, RoleOf(arms, r)).None?
    ensures Collects(WithMember(p, RoleOf(arms, r), r), records + [r], arms, index)
  {
    var all := records + [r];
    var p' := WithMember(p, RoleOf(arms, r), r);
    var k :| Opens(records, k, index) && p.pairId == records[k].pairId && p.caseId == records[k].caseId;
    assert Opens(all, k, index);
    assert Fills(all, arms, |records|, index, RoleOf(arms, r));
    forall role | Member(p', role).Some?
      ensures exists k :: Fills(all, arms, k, index, role) && Member(p', role) == Some(all[k])
    {
      if role != RoleOf(arms, r) {
        var k :| Fills(records, arms, k, index, role) && Member(p, role) == Some(records[k]);
        assert Fills(all, arms, k, index, role);
      }
    }
    forall role, k | Fills(all, arms, k, index, role) ensures Member(p', role) == Some(all[k]) {
      FillsAppended(records, r, arms, k, index, role);
    }
  }

  lemma FreshPair(records: seq<Record>, r: Record, arms: Arms, index: int)
    requires !Present(records, index) && r.pairIndex == Some(index)
    ensures Collects(WithMember(Pairing(index, r.pairId, r.caseId, None, None), RoleOf(arms, r), r), records + [r], arms, index)
  {
    var all := records + [r];
    assert Opens(all, |records|, index);
    assert Fills(all, arms, |records|, index, RoleOf(arms, r));
    forall role, k | Fills(all, arms, k, index, role) ensures k == |records| {
      FillsAppended(records, r, arms, k, index, role);
    }
  }

  lemma PresentAppended(records: seq<Record>, r: Record, index: int)
    requires r.pairIndex == Some(index)
    ensures forall other :: Present(records + [r], other) <==> Present(records, other) || other == index
  {
    var all := records + [r];
    assert all[|records|] == r;
    forall other | Present(records, other) ensures Present(all, other) {
      var k :| 0 <= k < |records| && records[k].pairIndex == Some(other);
      assert all[k].pairIndex == Some(other);
    }
  }

  /** A record whose role is still open extends the grouping. */
  lemma OneMoreRecord(grouped: map<int, Pairing>, order: seq<int>, records: seq<Record>, r: Record, arms: Arms,
                      index: int, updated: Pairing)
    requires Groups(grouped, order, records, arms) && Identified(arms, r) && r.pairIndex == Some(index)
    requires index in grouped ==> Member(grouped[index], RoleOf(arms, r)).None?
    requires updated == WithMember(if index in grouped then grouped[index] else Pairing(index, r.pairId, r.caseId, None, None),
                                   RoleOf(arms, r), r)
    ensures Groups(grouped[index := updated], if index in order then order else order + [index], records + [r], arms)
  {
    var all := records + [r];
    PresentAppended(records, r, index);
    forall other | other in grouped && other != index ensures Collects(grouped[other], all, arms, other) {
      UntouchedPair(grouped[other], records, r, arms, other);
    }
    if index in grouped {
      JoinedPair(grouped[index], records, r, arms, index);
    } else {
      FreshPair(records, r, arms, index);
    }
    RolesStayUnique(grouped, order, records, r, arms, index);
  }

  lemma RolesStayUnique(grouped: map<int, Pairing>, order: seq<int>, records: seq<Record>, r: Record, arms: Arms, index: int)
    requires Groups(grouped, order, records, arms) && r.pairIndex == Some(index)
    requires index in grouped ==> Member(grouped[index], RoleOf(arms, r)).None?
    ensures forall k, l, i, role :: Fills(records + [r], arms, k, i, role) && Fills(records + [r], arms, l, i, role) ==> k == l
  {
    forall k, l, i, role | Fills(records + [r], arms, k, i, role) && Fills(records + [r], arms, l, i, role) ensures k == l {
      FillsAppended(records, r, arms, k, i, role);
      FillsAppended(records, r, arms, l, i, role);
      assert Fills(records, arms, k, i, role) ==> Present(records, i);
      assert Fills(records, arms, l, i, role) ==> Present(records, i);
    }
  }

  /** A record whose role is taken shows that the records are not paired. */
  lemma RepeatedRole(grouped: map<int, Pairing>, order: seq<int>, records: seq<Record>, i: nat, arms: Arms, index: int)
    requires i < |records| && Groups(grouped, order, records[..i], arms) && records[i].pairIndex == Some(index)
    requires index in grouped && Member(grouped[index], RoleOf(arms, records[i])).Some?
    ensures !WellPaired(records, arms)
  {
    var role := RoleOf(arms, records[i]);
    var k :| Fills(records[..i], arms, k, index, role) && Member(grouped[index], role) == Some(records[..i][k]);
    assert Fills(records, arms, k, index, role) && Fills(records, arms, i, index, role);
  }

  // ---------- the grouping ----------

  predicate Complete(p: Pairing) {
    p.control.Some? && p.treatment.Some? && p.control.value.caseId == p.treatment.value.caseId
  }

  /** The pairs of the records, by ascending index, each complete and with the members it really has. */
  ghost predicate Pairs(pairs: seq<Pairing>, records: seq<Record>, arms: Arms) {
    && (forall i, j :: 0 <= i < j < |pairs| ==> pairs[i].pairIndex < pairs[j].pairIndex)
    && (forall index :: Present(records, index) <==> exists i :: 0 <= i < |pairs| && pairs[i].pairIndex == index)
    && (forall i :: 0 <= i < |pairs| ==> Complete(pairs[i]) && Collects(pairs[i], records, arms, pairs[i].pairIndex))
  }

  /** The records group exactly when they are well paired. */
  method Group(records: seq<Record>, arms: Arms) returns (result: Result<seq<Pairing>, GroupError>)
    ensures result.Ok? ==> Pairs(result.value, records, arms)
    ensures result.Ok? <==> WellPaired(records, arms)
  {
    var grouped: map<int, Pairing> := map[];
    var order: seq<int> := [];
    for i := 0 to |records|
      invariant Groups(grouped, order, records[..i], arms)
    {
      assert records[..i + 1] == records[..i] + [records[i]];
      var r := records[i];
      if !Identified(arms, r) {
        return Err(InvalidIdentity(r.runId));
      }
      var index, role := r.pairIndex.value, RoleOf(arms, r);
      var pair := if index in grouped then grouped[index] else Pairing(index, r.pairId, r.caseId, None, None);
      if Member(pair, role).Some? {
        RepeatedRole(grouped, order, records, i, arms, index);
        return Err(RepeatsArm(index, role));
      }
      OneMoreRecord(grouped, order, records[..i], r, arms, index, WithMember(pair, role, r));
      grouped := grouped[index := WithMember(pair, role, r)];
      order := if index in order then order else order + [index];
    }
    assert records[..|records|] == records;
    result := CompletePairs(grouped, order, records, arms);
  }

  /** The second loop: the pairs by ascending index, or the first that is not complete. */
  method CompletePairs(grouped: map<int, Pairing>, order: seq<int>, ghost records: seq<Record>, ghost arms: Arms)
    returns (result: Result<seq<Pairing>, GroupError>)
    requires Groups(grouped, order, records, arms)
    ensures result.Ok? ==> Pairs(result.value, records, arms)
    ensures result.Ok? <==> WellPaired(records, arms)
  {
    var sorted := Sort(order, (a: int, b: int) => a <= b);
    SortedKeys(order, sorted);
    var pairs: seq<Pairing> := [];
    for i := 0 to |sorted|
      invariant |pairs| == i
      invariant forall j :: 0 <= j < i ==> sorted[j] in grouped && pairs[j] == grouped[sorted[j]] && Complete(pairs[j])
    {
      assert sorted[i] in sorted;
      var pair := grouped[sorted[i]];
      PairedIsComplete(grouped, order, records, arms, sorted[i]);
      if pair.control.None? || pair.treatment.None? {
        return Err(LacksArm(sorted[i]));
      }
      if pair.control.value.caseId != pair.treatment.value.caseId {
        return Err(MixesCases(sorted[i]));
      }
      pairs := pairs + [pair];
    }
    assert Lists(pairs, sorted, grouped);
    PairsAreComplete(grouped, order, sorted, pairs, records, arms);
    PartnersExist(grouped, order, sorted, pairs, records, arms);
    return Ok(pairs);
  }

  lemma SortedKeys(order: seq<int>, sorted: seq<int>)
    requires NoRepeats(order) && sorted == Sort(order, (a: int, b: int) => a <= b)
    ensures forall index :: index in sorted <==> index in order
    ensures forall i, j :: 0 <= i < j < |sorted| ==> sorted[i] < sorted[j]
  {
    var le := (a: int, b: int) => a <= b;
    SortKeepsMembers(order, le);
    SortKeepsNoRepeats(order, le);
    SortAscends(order, le);
  }

  /** In well-paired records every pair of the dictionary ends up complete. */
  lemma PairedIsComplete(grouped: map<int, Pairing>, order: seq<int>, records: seq<Record>, arms: Arms, index: int)
    requires Groups(grouped, order, records, arms) && index in grouped
    ensures WellPaired(records, arms) ==> Complete(grouped[index])
  {
    var p := grouped[index];
    assert Present(records, index);
    var k :| 0 <= k < |records| && records[k].pairIndex == Some(index);
    var role := RoleOf(arms, records[k]);
    assert Fills(records, arms, k, index, role);
    if WellPaired(records, arms) {
      assert HasPartner(records, arms, k);
      var l :| Fills(records, arms, l, index, Other(role)) && records[l].caseId == records[k].caseId;
      assert Member(p, role) == Some(records[k]);
      assert Member(p, Other(role)) == Some(records[l]);
    }
  }

  /** A record in a complete pair has the other member as its partner. */
  lemma CompleteHasPartner(p: Pairing, records: seq<Record>, arms: Arms, k: nat, index: int)
    requires k < |records| && records[k].pairIndex == Some(index)
    requires Collects(p, records, arms, index) && Complete(p)
    ensures HasPartner(records, arms, k)
  {
    var role := RoleOf(arms, records[k]);
    assert Fills(records, arms, k, index, role);
    assert Member(p, Other(role)).Some?;
    var l :| Fills(records, arms, l, index, Other(role)) && Member(p, Other(role)) == Some(records[l]);
  }

  /** The list of pairs, one for each key in ascending order. */
  ghost predicate Lists(pairs: seq<Pairing>, sorted: seq<int>, grouped: map<int, Pairing>) {
    && |pairs| == |sorted|
    && (forall i, j :: 0 <= i < j < |sorted| ==> sorted[i] < sorted[j])
    && (forall index :: index in sorted <==> index in grouped)
    && forall i :: 0 <= i < |pairs| ==> sorted[i] in grouped && pairs[i] == grouped[sorted[i]] && Complete(pairs[i])
  }

  lemma PlaceOfIndex(grouped: map<int, Pairing>, sorted: seq<int>, pairs: seq<Pairing>, index: int) returns (i: nat)
    requires Lists(pairs, sorted, grouped) && index in grouped
    ensures i < |pairs| && sorted[i] == index && pairs[i] == grouped[index]
  {
    assert index in sorted;
    i :| 0 <= i < |sorted| && sorted[i] == index;
  }

  lemma PairsAreComplete(grouped: map<int, Pairing>, order: seq<int>, sorted: seq<int>, pairs: seq<Pairing>,
                         records: seq<Record>, arms: Arms)
    requires Groups(grouped, order, records, arms) && Lists(pairs, sorted, grouped)
    ensures Pairs(pairs, records, arms)
  {
    forall i | 0 <= i < |pairs| ensures pairs[i].pairIndex == sorted[i] {
      assert Collects(grouped[sorted[i]], records, arms, sorted[i]);
    }
    forall index ensures Present(records, index) <==> exists i :: 0 <= i < |pairs| && pairs[i].pairIndex == index {
      if Present(records, index) {
        var i := PlaceOfIndex(grouped, sorted, pairs, index);
        assert pairs[i].pairIndex == index;
      }
    }
  }

  lemma PartnersExist(grouped: map<int, Pairing>, order: seq<int>, sorted: seq<int>, pairs: seq<Pairing>,
                      records: seq<Record>, arms: Arms)
    requires Groups(grouped, order, records, arms) && Lists(pairs, sorted, grouped)
    ensures WellPaired(records, arms)
  {
    forall k | 0 <= k < |records| ensures HasPartner(records, arms, k) {
      assert Identified(arms, records[k]);
      var index := records[k].pairIndex.value;
      assert Present(records, index);
      var i := PlaceOfIndex(grouped, sorted, pairs, index);
      CompleteHasPartner(pairs[i], records, arms, k, index);
    }
  }
}
