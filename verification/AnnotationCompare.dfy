/** The document-level part of `compare`: which documents are comparable, which rows are paired, what is reported. */
module AnnotationCompare {
  import opened Json
  import opened Wrappers
  import opened Agreement

  /** The four fields that identify a row, as a tuple that is compared the way Python compares dictionary keys. */
  datatype RowId = RowId(caseId: Value, solver: Value, generationRun: Value, evaluationRun: Value)

  /** An element of a record array; the label is None when absent or empty. */
  datatype Row = NotAnObject | Row(id: RowId, primaryLayer: Option<string>)

  /** The last one is Python's TypeError: a list or an object in an identity cannot be hashed. */
  datatype CompareError =
    | NoRecordArrays
    | DuplicateOrMalformedRows
    | DifferentRows
    | MissingFirstLabel(id: RowId)
    | UnhashableIdentity

  datatype Statistics = Statistics(
    exactCount: nat, observed: real, expected: real, kappa: real, labels: seq<string>,
    firstCounts: map<string, nat>, secondCounts: map<string, nat>, confusion: map<string, map<string, nat>>)

  datatype Report = Report(rows: nat, compared: nat, missingSecond: nat, agreement: Option<Statistics>)

  // ---------- reading the documents ----------

  function IdOf(record: Fields): RowId {
    RowId(Comparable(Get(record, "case_id")), Comparable(Get(record, "method")),
          Comparable(Get(record, "generation_run_id")), Comparable(Get(record, "evaluation_run_id")))
  }

  predicate HashableId(record: Fields) {
    && Hashable(Get(record, "case_id")) && Hashable(Get(record, "method"))
    && Hashable(Get(record, "generation_run_id")) && Hashable(Get(record, "evaluation_run_id"))
  }

  /** `_label`: an annotation object hides the label of the record itself. */
  function LabelOf(record: Fields): Option<string> {
    var annotation := Get(record, "annotation");
    var value := Get(if annotation.Object? then annotation.fields else record, "primary_layer");
    if value.Text? && value.s != "" then Some(value.s) else None
  }

  function RowOf(record: Value): Row {
    if record.Object? then Row(IdOf(record.fields), LabelOf(record.fields)) else NotAnObject
  }

  function RowsOf(records: seq<Value>): seq<Row> {
    seq(|records|, i requires 0 <= i < |records| => RowOf(records[i]))
  }

  /** Two records are one row exactly when Python finds their four fields equal, so that 1, 1.0 and true are one key. */
  lemma SameRow(a: Fields, b: Fields)
    ensures IdOf(a) == IdOf(b) <==>
            forall name :: name in {"case_id", "method", "generation_run_id", "evaluation_run_id"}
                           ==> PyEq(Get(a, name), Get(b, name))
  {}

  ghost predicate Raises(records: seq<Value>) {
    exists i :: 0 <= i < |records| && records[i].Object? && !HashableId(records[i].fields)
  }

  method FindUnhashable(records: seq<Value>) returns (found: bool)
    ensures found <==> Raises(records)
  {
    for i := 0 to |records|
      invariant !Raises(records[..i])
    {
      if records[i].Object? && !HashableId(records[i].fields) {
        return true;
      }
    }
    assert records[..|records|] == records;
    return false;
  }

  /** The two documents are comparable: both list the same rows once, and the first one labels all of them. */
  ghost predicate ComparableRows(first: seq<Row>, second: seq<Row>) {
    && Distinct(first) && Distinct(second)
    && (forall id :: Lists(first, id) <==> Lists(second, id))
    && (forall i :: 0 <= i < |first| ==> first[i].primaryLayer.Some?)
  }

  /** `compare` from the decoded documents on. */
  method CompareDocuments(first: Fields, second: Fields) returns (r: Result<Report, CompareError>)
    ensures r == Err(NoRecordArrays) <==> !Get(first, "records").List? || !Get(second, "records").List?
    ensures var a, b := Get(first, "records"), Get(second, "records");
            a.List? && b.List? ==>
              && (r == Err(UnhashableIdentity) <==> Raises(a.items) || Raises(b.items))
              && (r.Ok? <==> !Raises(a.items) && !Raises(b.items) && ComparableRows(RowsOf(a.items), RowsOf(b.items)))
              && (r.Ok? ==> exists index :: IndexOf(RowsOf(b.items), index) && Reports(r.value, RowsOf(a.items), index))
  {
    var a, b := Get(first, "records"), Get(second, "records");
    if !a.List? || !b.List? {
      return Err(NoRecordArrays);
    }
    var firstRaises := FindUnhashable(a.items);
    var secondRaises := FindUnhashable(b.items);
    if firstRaises || secondRaises {
      return Err(UnhashableIdentity);
    }
    r := Compare(RowsOf(a.items), RowsOf(b.items));
  }

  // ---------- comparing the rows ----------

  /** Every element is an object and no identity occurs twice. */
  ghost predicate Distinct(rows: seq<Row>) {
    && (forall i :: 0 <= i < |rows| ==> rows[i].Row?)
    && (forall i, j :: 0 <= i < j < |rows| && rows[i].Row? && rows[j].Row? ==> rows[i].id != rows[j].id)
  }

  predicate Lists(rows: seq<Row>, id: RowId) {
    exists i :: 0 <= i < |rows| && rows[i].Row? && rows[i].id == id
  }

  /** The labels of a document that lists its rows without repetition. */
  ghost predicate IndexOf(rows: seq<Row>, index: map<RowId, Option<string>>) {
    && Distinct(rows)
    && (forall id :: id in index <==> Lists(rows, id))
    && (forall i :: 0 <= i < |rows| ==> index[rows[i].id] == rows[i].primaryLayer)
  }

  /** The dictionary built from a record array, if no entry was lost in building it. */
  method IndexRows(rows: seq<Row>) returns (index: Option<map<RowId, Option<string>>>)
    ensures index.Some? <==> Distinct(rows)
    ensures index.Some? ==> IndexOf(rows, index.value)
  {
    var m: map<RowId, Option<string>> := map[];
    for i := 0 to |rows|
      invariant forall k :: 0 <= k < i ==> rows[k].Row? && rows[k].id in m && m[rows[k].id] == rows[k].primaryLayer
      invariant forall k, l :: 0 <= k < l < i ==> rows[k].id != rows[l].id
      invariant forall id :: id in m ==> exists k :: 0 <= k < i && rows[k].Row? && rows[k].id == id
    {
      if rows[i].NotAnObject? || rows[i].id in m {
        return None;
      }
      m := m[rows[i].id := rows[i].primaryLayer];
    }
    return Some(m);
  }

  /** The label pairs of the first `n` rows, in the order of the first document. */
  function Paired(first: seq<Row>, second: map<RowId, Option<string>>, n: nat): seq<LabelPair>
    requires n <= |first|
    requires forall i :: 0 <= i < |first| ==> first[i].Row? && first[i].id in second
  {
    if n == 0 then []
    else
      Paired(first, second, n - 1)
      + (if first[n - 1].primaryLayer.Some? && second[first[n - 1].id].Some?
         then [LabelPair(first[n - 1].primaryLayer.value, second[first[n - 1].id].value)] else [])
  }

  function Summarise(pairs: seq<LabelPair>): Statistics {
    var labels := Labels(pairs);
    Statistics(
      ExactCount(pairs), ObservedRate(pairs), ExpectedRate(pairs, labels), CohenKappa(pairs), labels,
      map l | l in labels && CountFirst(pairs, l) > 0 :: CountFirst(pairs, l),
      map l | l in labels && CountSecond(pairs, l) > 0 :: CountSecond(pairs, l),
      map a | a in labels :: map b | b in labels :: Cell(pairs, a, b))
  }

  method Compare(first: seq<Row>, second: seq<Row>) returns (r: Result<Report, CompareError>)
    ensures r.Ok? <==> ComparableRows(first, second)
    ensures r == Err(DuplicateOrMalformedRows) <==> !Distinct(first) || !Distinct(second)
    ensures r != Err(NoRecordArrays) && r != Err(UnhashableIdentity)
    ensures r.Ok? ==> exists index :: IndexOf(second, index) && Reports(r.value, first, index)
  {
    var firstIndex := IndexRows(first);
    var secondIndex := IndexRows(second);
    if firstIndex.None? || secondIndex.None? {
      return Err(DuplicateOrMalformedRows);
    }
    SameIds(first, second, firstIndex.value, secondIndex.value);
    if firstIndex.value.Keys != secondIndex.value.Keys {
      return Err(DifferentRows);
    }
    r := PairRows(first, secondIndex.value);
  }

  /** The pairing loop and the report. */
  method PairRows(first: seq<Row>, index: map<RowId, Option<string>>) returns (r: Result<Report, CompareError>)
    requires forall i :: 0 <= i < |first| ==> first[i].Row? && first[i].id in index
    ensures r.Ok? <==> forall i :: 0 <= i < |first| ==> first[i].primaryLayer.Some?
    ensures r.Err? ==> r.error.MissingFirstLabel?
    ensures r.Ok? ==> Reports(r.value, first, index)
  {
    var pairs := [];
    var missing := 0;
    for i := 0 to |first|
      invariant forall k :: 0 <= k < i ==> first[k].primaryLayer.Some?
      invariant pairs == Paired(first, index, i)
      invariant |pairs| + missing == i
    {
      if first[i].primaryLayer.None? {
        return Err(MissingFirstLabel(first[i].id));
      }
      if index[first[i].id].None? {
        missing := missing + 1;
        continue;
      }
      pairs := pairs + [LabelPair(first[i].primaryLayer.value, index[first[i].id].value)];
    }
    return Ok(Report(|first|, |pairs|, missing, if pairs == [] then None else Some(Summarise(pairs))));
  }

  lemma SameIds(first: seq<Row>, second: seq<Row>, a: map<RowId, Option<string>>, b: map<RowId, Option<string>>)
    requires IndexOf(first, a) && IndexOf(second, b)
    ensures a.Keys == b.Keys <==> forall id :: Lists(first, id) <==> Lists(second, id)
    ensures a.Keys == b.Keys ==> forall i :: 0 <= i < |first| ==> first[i].id in b
  {
    assert forall id :: id in a.Keys <==> Lists(first, id);
    assert forall id :: id in b.Keys <==> Lists(second, id);
    if a.Keys == b.Keys {
      forall i | 0 <= i < |first| ensures first[i].id in b {
        assert Lists(first, first[i].id);
      }
    }
  }

  /** Every row is either compared or missing its second label, and the statistics are those of the compared ones. */
  ghost predicate Reports(report: Report, first: seq<Row>, index: map<RowId, Option<string>>) {
    && (forall i :: 0 <= i < |first| ==> first[i].Row? && first[i].id in index)
    && var pairs := Paired(first, index, |first|);
    && report.rows == |first|
    && report.compared == |pairs|
    && report.compared + report.missingSecond == report.rows
    && report.agreement == if pairs == [] then None else Some(Summarise(pairs))
  }

  function Entry(counts: map<string, nat>, l: string): nat {
    if l in counts then counts[l] else 0
  }

  /** The reported matrix has the reported counts as its margins and the exact count as its trace. */
  lemma MatrixMargins(pairs: seq<LabelPair>, a: string)
    requires a in Labels(pairs)
    ensures var s := Summarise(pairs);
            && Sum(s.labels, b => if b in s.labels then s.confusion[a][b] else 0) == Entry(s.firstCounts, a)
            && Sum(s.labels, b => if b in s.labels then s.confusion[b][a] else 0) == Entry(s.secondCounts, a)
            && Sum(s.labels, b => if b in s.labels then s.confusion[b][b] else 0) == s.exactCount
  {
    var labels, s := Labels(pairs), Summarise(pairs);
    LabelsCover(pairs);
    RowSums(pairs, labels, a);
    ColumnSums(pairs, labels, a);
    TraceIsExact(pairs, labels);
    SumOnLabels(labels, b => Cell(pairs, a, b), b => if b in labels then s.confusion[a][b] else 0);
    SumOnLabels(labels, b => Cell(pairs, b, a), b => if b in labels then s.confusion[b][a] else 0);
    SumOnLabels(labels, b => Cell(pairs, b, b), b => if b in labels then s.confusion[b][b] else 0);
  }

  lemma {:induction false} SumOnLabels(labels: seq<string>, f: string -> int, g: string -> int)
    requires forall l :: l in labels ==> f(l) == g(l)
    ensures Sum(labels, f) == Sum(labels, g)
  {
    if labels != [] {
      SumOnLabels(labels[..|labels| - 1], f, g);
    }
  }
}
