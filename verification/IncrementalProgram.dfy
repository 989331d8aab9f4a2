/** `IncrementalProgram`: a replayable program built from successful commands and edited in transactions. */
module IncrementalProgram {
  import opened Wrappers
  import opened Text
  import opened ProgramEdits

  /** A stored step; `revised` tells a plan revision from an executed command. */
  datatype Step = Step(number: nat, command: string, revised: bool)

  /** One element of the edit list; None stands for a value of the wrong type (a bool is not a step index). */
  datatype Edit = NotAnObject | Edit(index: Option<int>, replacement: Option<string>)

  datatype Revision = Revision(deletes: bool, index: nat, previous: string, replacement: string)

  datatype BatchReport = BatchReport(before: nat, after: nat, revisions: seq<Revision>)

  datatype ProgramError =
    | EmptyStep
    | UnsuccessfulCommand
    | EmptyBatch
    | EditNotAnObject
    | IndexNotAnInteger
    | IndexOutOfRange
    | DuplicateIndex
    | ReplacementNotAString

  /** The result of an executed command, reduced to the three fields that decide about success. */
  datatype CommandResult = CommandResult(exitCode: Option<int>, timedOut: bool, infrastructureError: bool)

  predicate Succeeded(r: CommandResult) {
    r.exitCode == Some(0) && !r.timedOut && !r.infrastructureError
  }

  predicate WellTyped(edit: Edit, n: nat) {
    edit.Edit? && edit.index.Some? && edit.replacement.Some? && 1 <= edit.index.value <= n
  }

  predicate At(edit: Edit, position: int) {
    edit.Edit? && edit.index == Some(position)
  }

  predicate SamePosition(a: Edit, b: Edit) {
    a.Edit? && b.Edit? && a.index == b.index
  }

  /** The edits a program of `n` steps accepts. */
  ghost predicate Acceptable(edits: seq<Edit>, n: nat) {
    && edits != []
    && (forall i :: 0 <= i < |edits| ==> WellTyped(edits[i], n))
    && (forall i, j :: 0 <= i < j < |edits| ==> !SamePosition(edits[i], edits[j]))
  }

  /** Acceptable edits as positions with canonical replacements. */
  function Normalised(edits: seq<Edit>, n: nat): (positions: seq<(nat, string)>)
    requires Acceptable(edits, n)
    ensures |positions| == |edits|
    ensures forall i :: 0 <= i < |edits| ==> positions[i] == (edits[i].index.value, CanonicalScript(edits[i].replacement.value))
    ensures DistinctPositions(positions)
  {
    assert forall i, j :: 0 <= i < j < |edits| ==> !SamePosition(edits[i], edits[j]);
    seq(|edits|, i requires 0 <= i < |edits| => (edits[i].index.value as nat, CanonicalScript(edits[i].replacement.value)))
  }

  function Bodies(steps: seq<Step>): seq<Body> {
    seq(|steps|, i requires 0 <= i < |steps| => Body(steps[i].command, steps[i].revised))
  }

  /** Numbered from one, and no command is empty. */
  ghost predicate WellFormed(steps: seq<Step>) {
    forall i :: 0 <= i < |steps| ==>
      steps[i].number == i + 1 && steps[i].command != "" && Canonical(steps[i].command)
  }

  /** `"\n\n".join(...)`. */
  function Join(steps: seq<Step>): string {
    if steps == [] then ""
    else if |steps| == 1 then steps[0].command
    else steps[0].command + "\n\n" + Join(steps[1..])
  }

  class IncrementalProgram {
    var steps: seq<Step>

    ghost predicate Valid()
      reads this
    {
      WellFormed(steps)
    }

    ghost function Contents(): seq<Body>
      reads this
    {
      Bodies(steps)
    }

    constructor ()
      ensures Valid() && steps == []
    {
      steps := [];
    }

    method AppendSuccessful(command: string, result: CommandResult) returns (r: Result<Step, ProgramError>)
      requires Valid()
      modifies this
      ensures Valid()
      ensures r.Ok? <==> CanonicalScript(command) != "" && Succeeded(result)
      ensures r.Ok? ==> steps == old(steps) + [r.value] && r.value == Step(|steps|, CanonicalScript(command), false)
      ensures r.Err? ==> steps == old(steps)
    {
      var canonical := CanonicalScript(command);
      CanonicalScriptIsIdempotent(command);
      if canonical == "" {
        return Err(EmptyStep);
      }
      if !Succeeded(result) {
        return Err(UnsuccessfulCommand);
      }
      var step := Step(|steps| + 1, canonical, false);
      steps := steps + [step];
      return Ok(step);
    }

    /** All or nothing: an unacceptable list changes nothing, an acceptable one is applied as a whole. */
    method ReviseBatch(edits: seq<Edit>) returns (r: Result<BatchReport, ProgramError>)
      requires Valid()
      modifies this
      ensures Valid()
      ensures r.Ok? <==> Acceptable(edits, |old(steps)|)
      ensures r.Err? ==> steps == old(steps)
      ensures r.Ok? ==>
                var m := AsMap(Normalised(edits, |old(steps)|));
                && Contents() == Edited(old(Contents()), m)
                && |steps| == |old(steps)| - Deletions(m, |old(steps)|)
                && r.value.before == |old(steps)| && r.value.after == |steps|
                && Describes(r.value.revisions, edits, old(steps))
    {
      if edits == [] {
        return Err(EmptyBatch);
      }
      var normalised := Normalise(edits);
      if normalised.Err? {
        return Err(normalised.error);
      }
      var (normalized, revisions) := normalised.value;
      AsMapIs(edits, |steps|, normalized);
      var revised := Rebuild(normalized);
      EditedSize(Bodies(steps), normalized, |steps|);
      var before := |steps|;
      steps := revised;
      return Ok(BatchReport(before, |steps|, revisions));
    }

    /** The validation loop, which also writes the revision records. */
    method Normalise(edits: seq<Edit>) returns (r: Result<(map<nat, string>, seq<Revision>), ProgramError>)
      requires Valid() && edits != []
      ensures r.Ok? <==> Acceptable(edits, |steps|)
      ensures r.Ok? ==> Collects(r.value.0, edits) && Describes(r.value.1, edits, steps)
    {
      var normalized: map<nat, string> := map[];
      var revisions: seq<Revision> := [];
      for i := 0 to |edits|
        invariant Acceptable(edits[..i], |steps|) || i == 0
        invariant Collects(normalized, edits[..i])
        invariant Describes(revisions, edits[..i], steps)
      {
        ghost var soFar := edits[..i];
        assert edits[..i + 1] == soFar + [edits[i]];
        assert Acceptable(edits, |steps|) ==> WellTyped(edits[i], |steps|);
        var edit := edits[i];
        if edit.NotAnObject? {
          return Err(EditNotAnObject);
        }
        if edit.index.None? {
          return Err(IndexNotAnInteger);
        }
        if edit.index.value < 1 || edit.index.value > |steps| {
          return Err(IndexOutOfRange);
        }
        if edit.index.value in normalized {
          TakenTwice(normalized, edits, i, |steps|);
          return Err(DuplicateIndex);
        }
        if edit.replacement.None? {
          return Err(ReplacementNotAString);
        }
        var index: nat := edit.index.value;
        CollectsOneMore(normalized, soFar, edit, |steps|);
        normalized := normalized[index := CanonicalScript(edit.replacement.value)];
        revisions := revisions + [RevisionOf(edit, steps)];
      }
      assert edits[..|edits|] == edits;
      return Ok((normalized, revisions));
    }

    /** The rebuilding loop, and then the renumbering one. */
    method Rebuild(normalized: map<nat, string>) returns (revised: seq<Step>)
      requires Valid() && forall k :: k in normalized ==> Canonical(normalized[k])
      ensures WellFormed(revised) && Bodies(revised) == Edited(Bodies(steps), normalized)
    {
      revised := [];
      for k := 0 to |steps|
        invariant Bodies(revised) == EditedUpTo(Bodies(steps), normalized, k)
        invariant forall j :: 0 <= j < |revised| ==> revised[j].command != "" && Canonical(revised[j].command)
      {
        if k + 1 !in normalized {
          BodiesAppend(revised, steps[k]);
          revised := revised + [steps[k]];
        } else if normalized[k + 1] != "" {
          BodiesAppend(revised, Step(k + 1, normalized[k + 1], true));
          revised := revised + [Step(k + 1, normalized[k + 1], true)];
        }
      }
      revised := Renumber(revised);
    }

    /** The renumbering loop. */
    method Renumber(rebuilt: seq<Step>) returns (revised: seq<Step>)
      requires forall j :: 0 <= j < |rebuilt| ==> rebuilt[j].command != "" && Canonical(rebuilt[j].command)
      ensures WellFormed(revised) && Bodies(revised) == Bodies(rebuilt)
    {
      revised := rebuilt;
      ghost var bodies := Bodies(rebuilt);
      for k := 0 to |revised|
        invariant |revised| == |bodies| && Bodies(revised) == bodies
        invariant forall j :: 0 <= j < k ==> revised[j].number == j + 1
        invariant forall j :: 0 <= j < |revised| ==> revised[j].command != "" && Canonical(revised[j].command)
      {
        ghost var previous := revised;
        revised := revised[k := revised[k].(number := k + 1)];
        assert forall j :: 0 <= j < |revised| ==> Bodies(revised)[j] == Bodies(previous)[j];
      }
    }

    /** `revise`: a batch of one edit. */
    method Revise(index: int, replacement: string) returns (r: Result<Revision, ProgramError>)
      requires Valid()
      modifies this
      ensures Valid()
      ensures r.Ok? <==> 1 <= index <= |old(steps)|
      ensures r.Err? ==> steps == old(steps)
      ensures r.Ok? ==> Contents() == Edited(old(Contents()), map[index := CanonicalScript(replacement)])
      ensures r.Ok? ==> r.value == RevisionOf(Edit(Some(index), Some(replacement)), old(steps))
    {
      var edits := [Edit(Some(index), Some(replacement))];
      ghost var n := |steps|;
      var batch := ReviseBatch(edits);
      if batch.Err? {
        return Err(batch.error);
      }
      assert AsMap(Normalised(edits, n)) == map[index := CanonicalScript(replacement)] by {
        assert Normalised(edits, n) == [(index, CanonicalScript(replacement))];
        assert Normalised(edits, n)[1..] == [];
      }
      return Ok(batch.value.revisions[0]);
    }

    method ReadProgram() returns (program: string)
      requires Valid()
      ensures program == Join(steps)
      ensures program == "" <==> steps == []
    {
      program := Join(steps);
    }
  }

  function RevisionOf(edit: Edit, steps: seq<Step>): Revision
    requires WellTyped(edit, |steps|)
  {
    var replacement := CanonicalScript(edit.replacement.value);
    Revision(replacement == "", edit.index.value, steps[edit.index.value - 1].command, replacement)
  }

  /** One record for every edit, in the order of the list, against the program before the batch. */
  ghost predicate Describes(revisions: seq<Revision>, edits: seq<Edit>, steps: seq<Step>) {
    && |revisions| == |edits|
    && forall k :: 0 <= k < |edits| ==> WellTyped(edits[k], |steps|) && revisions[k] == RevisionOf(edits[k], steps)
  }

  /** The map holds the canonical replacement of every edit and nothing else. */
  ghost predicate Collects(normalized: map<nat, string>, edits: seq<Edit>) {
    && (forall k :: 0 <= k < |edits| ==> Collected(normalized, edits[k]))
    && (forall p :: p in normalized ==> Canonical(normalized[p]) && Mentioned(edits, p))
  }

  predicate Collected(normalized: map<nat, string>, edit: Edit) {
    && edit.Edit? && edit.index.Some? && edit.replacement.Some? && edit.index.value in normalized
    && normalized[edit.index.value] == CanonicalScript(edit.replacement.value)
  }

  ghost predicate Mentioned(edits: seq<Edit>, p: int) {
    exists k :: 0 <= k < |edits| && At(edits[k], p)
  }

  /** What the validation loop has established survives one more well-typed edit at a new position. */
  lemma CollectsOneMore(normalized: map<nat, string>, edits: seq<Edit>, edit: Edit, n: nat)
    requires Acceptable(edits, n) || edits == []
    requires Collects(normalized, edits) && WellTyped(edit, n) && edit.index.value !in normalized
    ensures Acceptable(edits + [edit], n)
    ensures Collects(normalized[edit.index.value := CanonicalScript(edit.replacement.value)], edits + [edit])
  {
    CanonicalScriptIsIdempotent(edit.replacement.value);
    MapExtends(normalized, edits, edit, CanonicalScript(edit.replacement.value));
    forall k | 0 <= k < |edits| ensures !SamePosition(edits[k], edit) {
      assert Collected(normalized, edits[k]);
    }
  }

  lemma MapExtends(normalized: map<nat, string>, edits: seq<Edit>, edit: Edit, text: string)
    requires Collects(normalized, edits) && edit.Edit? && edit.index.Some? && edit.index.value >= 0
    requires edit.index.value !in normalized
    requires edit.replacement.Some? && text == CanonicalScript(edit.replacement.value) && Canonical(text)
    ensures Collects(normalized[edit.index.value := text], edits + [edit])
  {
    var more, edits' := normalized[edit.index.value := text], edits + [edit];
    forall k | 0 <= k < |edits'| ensures Collected(more, edits'[k]) {
      assert k < |edits| ==> edits'[k] == edits[k] && Collected(normalized, edits[k]);
    }
    forall p | p in more ensures Canonical(more[p]) && Mentioned(edits', p) {
      if p in normalized {
        assert Mentioned(edits, p);
        var k :| 0 <= k < |edits| && At(edits[k], p);
        assert At(edits'[k], p);
      } else {
        assert At(edits'[|edits|], p);
      }
    }
  }

  /** A position that is already taken makes the list unacceptable. */
  lemma TakenTwice(normalized: map<nat, string>, edits: seq<Edit>, i: nat, n: nat)
    requires i < |edits| && Collects(normalized, edits[..i])
    requires edits[i].Edit? && edits[i].index.Some? && edits[i].index.value >= 0 && edits[i].index.value in normalized
    ensures !Acceptable(edits, n)
  {
    assert Mentioned(edits[..i], edits[i].index.value);
    var k :| 0 <= k < i && At(edits[..i][k], edits[i].index.value);
    assert SamePosition(edits[k], edits[i]);
  }

  lemma AsMapIs(edits: seq<Edit>, n: nat, normalized: map<nat, string>)
    requires Acceptable(edits, n) && Collects(normalized, edits)
    ensures normalized == AsMap(Normalised(edits, n))
  {
    var positions := Normalised(edits, n);
    forall p ensures p in normalized ==> p in AsMap(positions) && normalized[p] == AsMap(positions)[p] {
      if p in normalized {
        assert Mentioned(edits, p);
        var k :| 0 <= k < |edits| && At(edits[k], p);
        assert Collected(normalized, edits[k]);
        AsMapValue(positions, k);
      }
    }
    forall p ensures p in AsMap(positions) ==> p in normalized {
      AsMapKeys(positions, p);
      if p in AsMap(positions) {
        var k :| 0 <= k < |positions| && positions[k].0 == p;
        assert Collected(normalized, edits[k]);
      }
    }
    assert normalized.Keys == AsMap(positions).Keys;
  }

  lemma BodiesAppend(steps: seq<Step>, step: Step)
    ensures Bodies(steps + [step]) == Bodies(steps) + [Body(step.command, step.revised)]
  {}
}
