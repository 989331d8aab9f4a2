/** The four boundary adjudicators (v3 to v6): which repository violations are excused, by whom, and what remains. */
module Adjudication {
  import opened Wrappers
  import opened Paths
  import opened Sorting
  import Json

  datatype Violation = Violation(kind: string, path: Option<string>, detail: string)

  /** What a path in the work tree is. Unreadable stands for the OSError of any of the file operations. */
  datatype FileState = Symlink | NotRegular | Unreadable | Regular(data: string)

  /** The work tree and the revision, as the adjudicators consult them. */
  datatype Repository = Repository(
    ignored: string -> bool,                  // git check-ignore
    fileAt: string -> FileState,
    identifier: string -> bool,               // str.isidentifier
    contains: (string, string) -> bool,       // data contains a needle
    sha256: string -> string,
    providers: map<string, seq<string>>,      // native modules and their tracked sources
    sources: seq<(string, string)>)           // tracked Python sources and their bytes, sorted by path

  const UNTRACKED := "untracked_import_artifact"
  const NATIVE_MAGICS := ["\U{7F}ELF", "MZ", "\U{CA}\U{FE}\U{BA}\U{BE}", "\U{CF}\U{FA}\U{ED}\U{FE}", "\U{FE}\U{ED}\U{FA}\U{CF}"]

  predicate Candidate(v: Violation) {
    v.kind == UNTRACKED && v.path.Some?
  }

  // ---------- the four decisions ----------

  /** The package root of a valid provenance record, if it is a relative path without "..". */
  function SafeRoot(provenance: Json.Value): Option<PurePath> {
    if provenance.Object? && Json.Get(provenance.fields, "valid") == Json.Bool(true)
       && Json.Get(provenance.fields, "package_root").Text?
    then
      var root := Parse(Json.Get(provenance.fields, "package_root").s);
      if root.parts != [] && root.root == "" && ".." !in root.parts then Some(root) else None
    else None
  }

  predicate Managed(repo: Repository, root: Option<PurePath>, v: Violation) {
    Candidate(v) && root.Some? && Inside(Parse(v.path.value), root.value) && repo.ignored(v.path.value)
  }

  datatype NativeArtifact = NativeArtifact(path: string, moduleName: string, sources: seq<string>, sha256: string)

  function NativeModule(repo: Repository, path: string): Option<string> {
    var pure := Parse(path);
    if Lower(Suffix(pure)) !in {".pyd", ".so"} then None
    else
      var name := BeforeDot(Name(pure));
      if repo.identifier(name) then Some(name) else None
  }

  function NativeArtifactAt(repo: Repository, path: string): Option<NativeArtifact> {
    var name := NativeModule(repo, path);
    if name.None? || name.value !in repo.providers then None
    else
      match repo.fileAt(path)
      case Regular(data) =>
        if (forall i :: 0 <= i < |NATIVE_MAGICS| ==> !(NATIVE_MAGICS[i] <= data)) then None
        else if !repo.contains(data, "PyInit_" + name.value) then None
        else Some(NativeArtifact(path, name.value, repo.providers[name.value], repo.sha256(data)))
      case _ => None
  }

  datatype CopyArtifact = CopyArtifact(path: string, source: string, sha256: string)

  /** A tracked source that a file is an exact copy of, at a path that ends like the source's own. */
  predicate CopyOf(path: string, data: string, source: (string, string)) {
    EndsWith(Parse(path), Parse(source.0)) && data == source.1
  }

  function FirstCopy(path: string, data: string, sources: seq<(string, string)>): Option<string> {
    if sources == [] then None
    else if CopyOf(path, data, sources[0]) then Some(sources[0].0)
    else FirstCopy(path, data, sources[1..])
  }

  function CopyArtifactAt(repo: Repository, path: string): Option<CopyArtifact> {
    if Lower(Suffix(Parse(path))) !in {".py", ".pyi"} then None
    else
      match repo.fileAt(path)
      case Regular(data) =>
        var source := FirstCopy(path, data, repo.sources);
        if source.None? then None else Some(CopyArtifact(path, source.value, repo.sha256(data)))
      case _ => None
  }

  datatype ReviewArtifact = ReviewArtifact(path: string, size: nat, sha256: string)

  function ReviewArtifactAt(repo: Repository, path: string): Option<ReviewArtifact> {
    match repo.fileAt(path)
    case Regular(data) => if data == "" then None else Some(ReviewArtifact(path, |data|, repo.sha256(data)))
    case _ => None
  }

  /** A copy is recognised exactly when some tracked source matches, and the first match is named. */
  lemma {:induction false} FirstCopyFinds(path: string, data: string, sources: seq<(string, string)>)
    ensures FirstCopy(path, data, sources).Some? <==> exists i :: 0 <= i < |sources| && CopyOf(path, data, sources[i])
    ensures FirstCopy(path, data, sources).Some? ==>
              exists i :: 0 <= i < |sources| && CopyOf(path, data, sources[i])
                          && sources[i].0 == FirstCopy(path, data, sources).value
                          && forall j :: 0 <= j < i ==> !CopyOf(path, data, sources[j])
  {
    if sources != [] && !CopyOf(path, data, sources[0]) {
      FirstCopyFinds(path, data, sources[1..]);
      assert forall i :: 0 < i < |sources| ==> sources[i] == sources[1..][i - 1];
      if FirstCopy(path, data, sources).Some? {
        var i :| 0 <= i < |sources[1..]| && CopyOf(path, data, sources[1..][i])
                 && sources[1..][i].0 == FirstCopy(path, data, sources).value
                 && forall j :: 0 <= j < i ==> !CopyOf(path, data, sources[1..][j]);
        assert sources[i + 1] == sources[1..][i];
        forall j | 0 <= j < i + 1 ensures !CopyOf(path, data, sources[j]) {
          if j > 0 { assert sources[1..][j - 1] == sources[j]; }
        }
      }
    }
  }

  /** Who decides about a violation of the base report. */
  datatype Verdict = ManagedDependency | NativeBuild | TrackedCopy | NeedsReview | Remains

  function VerdictOn(repo: Repository, root: Option<PurePath>, v: Violation): Verdict {
    if Managed(repo, root, v) then ManagedDependency
    else if Candidate(v) && NativeArtifactAt(repo, v.path.value).Some? then NativeBuild
    else if Candidate(v) && CopyArtifactAt(repo, v.path.value).Some? then TrackedCopy
    else if Candidate(v) && ReviewArtifactAt(repo, v.path.value).Some? then NeedsReview
    else Remains
  }

  // ---------- the four loops ----------

  /** The violations that a stage does not excuse, in their order. */
  function Refused<A>(vs: seq<Violation>, stage: Violation -> Option<A>): seq<Violation> {
    if vs == [] then []
    else if stage(vs[|vs| - 1]).None? then Refused(vs[..|vs| - 1], stage) + [vs[|vs| - 1]]
    else Refused(vs[..|vs| - 1], stage)
  }

  /** What a stage records about the violations that it excuses. */
  function Excused<A>(vs: seq<Violation>, stage: Violation -> Option<A>): seq<A> {
    if vs == [] then []
    else if stage(vs[|vs| - 1]).Some? then Excused(vs[..|vs| - 1], stage) + [stage(vs[|vs| - 1]).value]
    else Excused(vs[..|vs| - 1], stage)
  }

  function ManagedPath(repo: Repository, root: Option<PurePath>): Violation -> Option<string> {
    v => if Managed(repo, root, v) then v.path else None
  }

  function NativeBuildOf(repo: Repository): Violation -> Option<NativeArtifact> {
    v => if Candidate(v) then NativeArtifactAt(repo, v.path.value) else None
  }

  function TrackedCopyOf(repo: Repository): Violation -> Option<CopyArtifact> {
    v => if Candidate(v) then CopyArtifactAt(repo, v.path.value) else None
  }

  function ReviewOf(repo: Repository): Violation -> Option<ReviewArtifact> {
    v => if Candidate(v) then ReviewArtifactAt(repo, v.path.value) else None
  }

  /** The records of a stage, sorted by a path. */
  ghost predicate SortedRecords<A(!new)>(records: seq<A>, excused: seq<A>, path: A -> string) {
    && multiset(records) == multiset(excused)
    && forall i, j :: 0 <= i < j < |records| ==> StringLe(path(records[i]), path(records[j]))
  }

  function SortByPath<A>(records: seq<A>, path: A -> string): seq<A> {
    Sort(records, (a, b) => StringLe(path(a), path(b)))
  }

  lemma SortingRecords<A(!new)>(records: seq<A>, path: A -> string)
    ensures SortedRecords(SortByPath(records, path), records, path)
  {
    var le := (a, b) => StringLe(path(a), path(b));
    forall a, b ensures le(a, b) || le(b, a) { StringLeTotal(path(a), path(b)); }
    forall a, b, c | le(a, b) && le(b, c) ensures le(a, c) { StringLeTransitive(path(a), path(b), path(c)); }
    SortPermutes(records, le);
    SortAscends(records, le);
  }

  /** `adjudicate_managed_dependencies`. */
  method AdjudicateManaged(repo: Repository, vs: seq<Violation>, provenance: Json.Value)
    returns (accepted: seq<string>, remaining: seq<Violation>)
    ensures remaining == Refused(vs, ManagedPath(repo, SafeRoot(provenance)))
    ensures SortedRecords(accepted, Excused(vs, ManagedPath(repo, SafeRoot(provenance))), path => path)
  {
    var root := SafeRoot(provenance);
    var found: seq<string> := [];
    remaining := [];
    for i := 0 to |vs|
      invariant remaining == Refused(vs[..i], ManagedPath(repo, root))
      invariant found == Excused(vs[..i], ManagedPath(repo, root))
    {
      assert vs[..i + 1][..i] == vs[..i];
      if Managed(repo, root, vs[i]) {
        found := found + [vs[i].path.value];
      } else {
        remaining := remaining + [vs[i]];
      }
    }
    assert vs[..|vs|] == vs;
    SortingRecords(found, (path: string) => path);
    accepted := SortByPath(found, path => path);
  }

  /** `adjudicate_repository_native_artifacts`. */
  method AdjudicateNative(repo: Repository, vs: seq<Violation>)
    returns (accepted: seq<NativeArtifact>, remaining: seq<Violation>)
    ensures remaining == Refused(vs, NativeBuildOf(repo))
    ensures SortedRecords(accepted, Excused(vs, NativeBuildOf(repo)), (a: NativeArtifact) => a.path)
  {
    var found: seq<NativeArtifact> := [];
    remaining := [];
    for i := 0 to |vs|
      invariant remaining == Refused(vs[..i], NativeBuildOf(repo))
      invariant found == Excused(vs[..i], NativeBuildOf(repo))
    {
      assert vs[..i + 1][..i] == vs[..i];
      var artifact := if Candidate(vs[i]) then NativeArtifactAt(repo, vs[i].path.value) else None;
      if artifact.None? {
        remaining := remaining + [vs[i]];
      } else {
        found := found + [artifact.value];
      }
    }
    assert vs[..|vs|] == vs;
    SortingRecords(found, (a: NativeArtifact) => a.path);
    accepted := SortByPath(found, (a: NativeArtifact) => a.path);
  }

  /** `adjudicate_repository_tracked_copies`, up to the directory findings that it appends. */
  method AdjudicateCopies(repo: Repository, vs: seq<Violation>, emptyDirectories: seq<Violation>)
    returns (accepted: seq<CopyArtifact>, remaining: seq<Violation>)
    ensures remaining == Refused(vs, TrackedCopyOf(repo)) + emptyDirectories
    ensures SortedRecords(accepted, Excused(vs, TrackedCopyOf(repo)), (a: CopyArtifact) => a.path)
  {
    var found: seq<CopyArtifact> := [];
    remaining := [];
    for i := 0 to |vs|
      invariant remaining == Refused(vs[..i], TrackedCopyOf(repo))
      invariant found == Excused(vs[..i], TrackedCopyOf(repo))
    {
      assert vs[..i + 1][..i] == vs[..i];
      var artifact := if Candidate(vs[i]) then CopyArtifactAt(repo, vs[i].path.value) else None;
      if artifact.None? {
        remaining := remaining + [vs[i]];
      } else {
        found := found + [artifact.value];
      }
    }
    assert vs[..|vs|] == vs;
    remaining := remaining + emptyDirectories;
    SortingRecords(found, (a: CopyArtifact) => a.path);
    accepted := SortByPath(found, (a: CopyArtifact) => a.path);
  }

  /** `adjudicate_open_import_artifacts`. */
  method AdjudicateOpen(repo: Repository, vs: seq<Violation>)
    returns (review: seq<ReviewArtifact>, remaining: seq<Violation>)
    ensures remaining == Refused(vs, ReviewOf(repo))
    ensures SortedRecords(review, Excused(vs, ReviewOf(repo)), (a: ReviewArtifact) => a.path)
  {
    var found: seq<ReviewArtifact> := [];
    remaining := [];
    for i := 0 to |vs|
      invariant remaining == Refused(vs[..i], ReviewOf(repo))
      invariant found == Excused(vs[..i], ReviewOf(repo))
    {
      assert vs[..i + 1][..i] == vs[..i];
      var v := vs[i];
      if !Candidate(v) {
        remaining := remaining + [v];
        continue;
      }
      match repo.fileAt(v.path.value) {
        case Regular(data) =>
          if data == "" {
            remaining := remaining + [v];
          } else {
            found := found + [ReviewArtifact(v.path.value, |data|, repo.sha256(data))];
          }
        case _ =>
          remaining := remaining + [v];
      }
    }
    assert vs[..|vs|] == vs;
    SortingRecords(found, (a: ReviewArtifact) => a.path);
    review := SortByPath(found, (a: ReviewArtifact) => a.path);
  }
}
