/** The pruned walk for empty directories below tracked Python source, over a directory tree. */
module EmptyDirectories {
  import opened Wrappers
  import opened Paths
  import opened Adjudication

  /** What scanning one directory gives; Unreadable stands for a directory that cannot be listed. */
  datatype Node = Folder(subs: seq<Sub>, files: seq<string>) | Unreadable

  datatype Sub = Sub(name: string, link: bool, node: Node)

  type Parts = seq<string>

  /** Where Python source is tracked, what is protected, and which names are identifiers. */
  datatype Setting = Setting(pythonRoots: set<PurePath>, protectedRoots: set<PurePath>, identifier: string -> bool)

  const ALLOWED_GENERATED_DIRECTORIES: set<string> := {
    ".mypy_cache", ".nox", ".pnpm-store", ".pytest_cache", ".ruff_cache", ".tox", ".turbo", ".venv",
    "__pycache__", "build", "dist", "htmlcov", "node_modules", "target", "venv" }

  function Relative(parts: Parts): PurePath { PurePath("", parts) }

  function Parent(path: PurePath): PurePath {
    if path.parts == [] then path else path.(parts := path.parts[..|path.parts| - 1])
  }

  function StripSlashes(text: string): string {
    if text != [] && text[|text| - 1] == '/' then StripSlashes(text[..|text| - 1]) else text
  }

  function NewSetting(pythonPaths: seq<string>, protectedPaths: seq<string>, identifier: string -> bool): Setting {
    Setting(
      set i | 0 <= i < |pythonPaths| :: Parent(Parse(pythonPaths[i])),
      set i | 0 <= i < |protectedPaths| && StripSlashes(protectedPaths[i]) != "" :: Parse(StripSlashes(protectedPaths[i])),
      identifier)
  }

  /** A subdirectory of the directory `at` that the walk enters. */
  predicate Entered(s: Setting, at: Parts, sub: Sub) {
    && sub.name != ".git"
    && sub.name !in ALLOWED_GENERATED_DIRECTORIES
    && !(exists root :: root in s.protectedRoots && Inside(Relative(at + [sub.name]), root))
    && !sub.link
  }

  /** The longest proper prefix of a path, up to length `n`, that is a directory with tracked Python source. */
  function NearestAncestor(s: Setting, at: Parts, n: nat): Option<nat>
    requires n <= |at|
  {
    if Relative(at[..n]) in s.pythonRoots then Some(n)
    else if n == 0 then None
    else NearestAncestor(s, at, n - 1)
  }

  /** The test that the walk makes at a directory without entries. */
  predicate Importable(s: Setting, at: Parts) {
    at != []
    && var ancestor := NearestAncestor(s, at, |at| - 1);
       ancestor.Some? && forall i :: ancestor.value <= i < |at| ==> s.identifier(at[i])
  }

  /** A directory without files and without a subdirectory that the walk enters. */
  predicate Hollow(s: Setting, at: Parts, node: Node) {
    node.Folder? && node.files == [] && forall i :: 0 <= i < |node.subs| ==> !Entered(s, at, node.subs[i])
  }

  /** `names` leads from the directory `node` at `at` to the directory `target`, never through a pruned one. */
  predicate Leads(s: Setting, node: Node, at: Parts, names: Parts, target: Node)
    decreases names
  {
    if names == [] then node == target
    else
      node.Folder?
      && exists i :: 0 <= i < |node.subs| && node.subs[i].name == names[0] && Entered(s, at, node.subs[i])
                     && Leads(s, node.subs[i].node, at + [names[0]], names[1..], target)
  }

  /** The findings in a subtree, parents before children and siblings in the order of the listing. */
  function Findings(s: Setting, node: Node, at: Parts): seq<Parts>
    decreases node, if node.Folder? then |node.subs| + 2 else 0
  {
    (if Hollow(s, at, node) && Importable(s, at) then [at] else [])
    + (if node.Folder? then FindingsBelow(s, node, at, 0) else [])
  }

  function FindingsBelow(s: Setting, node: Node, at: Parts, i: nat): seq<Parts>
    requires node.Folder? && i <= |node.subs|
    decreases node, |node.subs| - i + 1
  {
    if i == |node.subs| then []
    else if Entered(s, at, node.subs[i]) then
      Findings(s, node.subs[i].node, at + [node.subs[i].name]) + FindingsBelow(s, node, at, i + 1)
    else FindingsBelow(s, node, at, i + 1)
  }

  // ---------- what the recursive form finds ----------

  /** A finding is the place of a hollow importable directory that an unpruned chain of names leads to. */
  ghost predicate Reachable(s: Setting, node: Node, at: Parts, names: Parts) {
    && Importable(s, at + names)
    && exists target :: Leads(s, node, at, names, target) && Hollow(s, at + names, target)
  }

  lemma {:induction false} FindingsAreReachable(s: Setting, node: Node, at: Parts, found: Parts)
    requires found in Findings(s, node, at)
    ensures at <= found && Reachable(s, node, at, found[|at|..])
    decreases node, if node.Folder? then |node.subs| + 2 else 0
  {
    if found == at && Hollow(s, at, node) && Importable(s, at) {
      assert found[|at|..] == [] && at + [] == at;
      assert Leads(s, node, at, [], node);
    } else {
      FindingsBelowAreReachable(s, node, at, 0, found);
    }
  }

  lemma {:induction false} FindingsBelowAreReachable(s: Setting, node: Node, at: Parts, i: nat, found: Parts)
    requires node.Folder? && i <= |node.subs|
    requires found in FindingsBelow(s, node, at, i)
    ensures at <= found && Reachable(s, node, at, found[|at|..])
    decreases node, |node.subs| - i + 1
  {
    var sub := node.subs[i];
    if Entered(s, at, sub) && found in Findings(s, sub.node, at + [sub.name]) {
      FindingsAreReachable(s, sub.node, at + [sub.name], found);
      var names := found[|at|..];
      assert names[0] == sub.name && names[1..] == found[|at| + 1..];
      assert at + names == found == at + [sub.name] + names[1..];
      var target :| Leads(s, sub.node, at + [sub.name], names[1..], target) && Hollow(s, found, target);
      assert Leads(s, node, at, names, target);
    } else {
      FindingsBelowAreReachable(s, node, at, i + 1, found);
    }
  }

  lemma {:induction false} ReachableIsFound(s: Setting, node: Node, at: Parts, names: Parts, target: Node)
    requires Leads(s, node, at, names, target)
    requires Hollow(s, at + names, target) && Importable(s, at + names)
    ensures at + names in Findings(s, node, at)
    decreases names
  {
    if names == [] {
      assert at + names == at;
    } else {
      var i :| 0 <= i < |node.subs| && node.subs[i].name == names[0] && Entered(s, at, node.subs[i])
               && Leads(s, node.subs[i].node, at + [names[0]], names[1..], target);
      assert at + [names[0]] + names[1..] == at + names;
      ReachableIsFound(s, node.subs[i].node, at + [names[0]], names[1..], target);
      BelowContains(s, node, at, 0, i, at + names);
    }
  }

  lemma {:induction false} BelowContains(s: Setting, node: Node, at: Parts, from: nat, i: nat, found: Parts)
    requires node.Folder? && from <= i < |node.subs| && Entered(s, at, node.subs[i])
    requires found in Findings(s, node.subs[i].node, at + [node.subs[i].name])
    ensures found in FindingsBelow(s, node, at, from)
    decreases i - from
  {
    if from < i {
      BelowContains(s, node, at, from + 1, i, found);
    }
  }

  /** The walk finds a directory if and only if it is hollow, importable, and reached without a pruned step. */
  lemma FoundExactlyWhenReachable(s: Setting, root: Node, names: Parts)
    ensures names in Findings(s, root, []) <==> Reachable(s, root, [], names)
  {
    assert [] + names == names;
    if names in Findings(s, root, []) {
      FindingsAreReachable(s, root, [], names);
      assert names[0..] == names;
    }
    if Reachable(s, root, [], names) {
      var target :| Leads(s, root, [], names, target) && Hollow(s, [] + names, target);
      ReachableIsFound(s, root, [], names, target);
    }
  }

  /** The nearest ancestor with tracked source leaves the fewest names to check, so any ancestor will do. */
  lemma ImportableBelowAnySource(s: Setting, at: Parts)
    ensures Importable(s, at)
       <==> exists n :: 0 <= n < |at| && Relative(at[..n]) in s.pythonRoots && forall i :: n <= i < |at| ==> s.identifier(at[i])
  {
    if at != [] {
      NearestIsLongest(s, at, |at| - 1);
    }
  }

  lemma {:induction false} NearestIsLongest(s: Setting, at: Parts, n: nat)
    requires n <= |at|
    ensures var nearest := NearestAncestor(s, at, n);
            && (nearest.None? <==> forall k :: 0 <= k <= n ==> Relative(at[..k]) !in s.pythonRoots)
            && (nearest.Some? ==> nearest.value <= n && Relative(at[..nearest.value]) in s.pythonRoots
                                  && forall k :: nearest.value < k <= n ==> Relative(at[..k]) !in s.pythonRoots)
  {
    if n > 0 && Relative(at[..n]) !in s.pythonRoots {
      NearestIsLongest(s, at, n - 1);
    }
  }

  // ---------- the walk itself ----------

  /** A directory that waits to be visited. */
  datatype Visit = Visit(at: Parts, node: Node)

  function Pending(s: Setting, stack: seq<Visit>): seq<Parts> {
    if stack == [] then [] else Findings(s, stack[0].node, stack[0].at) + Pending(s, stack[1..])
  }

  function Size(node: Node): nat
    decreases node, if node.Folder? then |node.subs| + 2 else 0
  {
    if node.Folder? then 1 + SizeBelow(node, 0) else 1
  }

  function SizeBelow(node: Node, i: nat): nat
    requires node.Folder? && i <= |node.subs|
    decreases node, |node.subs| - i + 1
  {
    if i == |node.subs| then 0 else Size(node.subs[i].node) + SizeBelow(node, i + 1)
  }

  function TotalSize(stack: seq<Visit>): nat {
    if stack == [] then 0 else Size(stack[0].node) + TotalSize(stack[1..])
  }

  /** The visits to the entered subdirectories from index `i` on. */
  function Visits(s: Setting, node: Node, at: Parts, i: nat): seq<Visit>
    requires node.Folder? && i <= |node.subs|
    decreases |node.subs| - i
  {
    if i == |node.subs| then []
    else if Entered(s, at, node.subs[i]) then
      [Visit(at + [node.subs[i].name], node.subs[i].node)] + Visits(s, node, at, i + 1)
    else Visits(s, node, at, i + 1)
  }

  lemma {:induction false} PendingAppends(s: Setting, xs: seq<Visit>, ys: seq<Visit>)
    ensures Pending(s, xs + ys) == Pending(s, xs) + Pending(s, ys)
    ensures TotalSize(xs + ys) == TotalSize(xs) + TotalSize(ys)
  {
    if xs == [] {
      assert xs + ys == ys;
    } else {
      assert (xs + ys)[1..] == xs[1..] + ys;
      PendingAppends(s, xs[1..], ys);
    }
  }

  lemma {:induction false} VisitsCoverBelow(s: Setting, node: Node, at: Parts, i: nat)
    requires node.Folder? && i <= |node.subs|
    ensures Pending(s, Visits(s, node, at, i)) == FindingsBelow(s, node, at, i)
    ensures TotalSize(Visits(s, node, at, i)) <= SizeBelow(node, i)
    ensures Visits(s, node, at, i) == [] <==> forall k :: i <= k < |node.subs| ==> !Entered(s, at, node.subs[k])
    decreases |node.subs| - i
  {
    if i < |node.subs| {
      VisitsCoverBelow(s, node, at, i + 1);
      var visits := Visits(s, node, at, i);
      if Entered(s, at, node.subs[i]) {
        assert visits[1..] == Visits(s, node, at, i + 1);
      }
    }
  }

  const EMPTY_DIRECTORY := "empty_import_directory"

  const SHIM_DETAIL := "an empty directory below tracked Python source can act as a synthetic namespace package"

  function Joined(parts: Parts): string {
    if parts == [] then "." else if |parts| == 1 then parts[0] else Joined(parts[..|parts| - 1]) + "/" + parts[|parts| - 1]
  }

  function Finding(at: Parts): Violation {
    Violation(EMPTY_DIRECTORY, Some(Joined(at)), SHIM_DETAIL)
  }

  function PathOf(v: Violation): string {
    if v.path.Some? then v.path.value else ""
  }

  function FindingsOf(found: seq<Parts>): seq<Violation> {
    seq(|found|, i requires 0 <= i < |found| => Finding(found[i]))
  }

  /** A directory's own part of the findings. */
  function Here(s: Setting, at: Parts, node: Node): seq<Parts> {
    if Hollow(s, at, node) && Importable(s, at) then [at] else []
  }

  /** A directory is hollow exactly when the pruned listing is empty. */
  lemma HollowWhenNothingEntered(s: Setting, at: Parts, node: Node)
    requires node.Folder?
    ensures Hollow(s, at, node) <==> Visits(s, node, at, 0) == [] && node.files == []
  {
    VisitsCoverBelow(s, node, at, 0);
  }

  lemma FindingsSplit(s: Setting, node: Node, at: Parts)
    requires node.Folder?
    ensures Findings(s, node, at) == Here(s, at, node) + FindingsBelow(s, node, at, 0)
    ensures Size(node) == 1 + SizeBelow(node, 0)
  {
  }

  lemma Associates<T>(xs: seq<T>, ys: seq<T>, zs: seq<T>)
    ensures (xs + ys) + zs == xs + (ys + zs)
  {
  }

  /** Visiting the top of the stack: what it yields at once, and what its entered subdirectories still owe. */
  lemma VisitingTop(s: Setting, at: Parts, node: Node, rest: seq<Visit>, entered: seq<Visit>)
    requires node.Folder? && entered == Visits(s, node, at, 0)
    ensures Findings(s, node, at) + Pending(s, rest) == Here(s, at, node) + Pending(s, entered + rest)
    ensures TotalSize(entered + rest) < Size(node) + TotalSize(rest)
  {
    VisitsCoverBelow(s, node, at, 0);
    PendingAppends(s, entered, rest);
    FindingsSplit(s, node, at);
    Associates(Here(s, at, node), FindingsBelow(s, node, at, 0), Pending(s, rest));
  }

  lemma KindsDiffer()
    ensures EMPTY_DIRECTORY != UNTRACKED
  {
    assert EMPTY_DIRECTORY[0] != UNTRACKED[0];
  }

  lemma FindingsAreNoCandidates(violations: seq<Violation>, found: seq<Parts>)
    requires multiset(violations) == multiset(FindingsOf(found))
    ensures forall i :: 0 <= i < |violations| ==> violations[i].kind == EMPTY_DIRECTORY && !Candidate(violations[i])
  {
    KindsDiffer();
    forall i | 0 <= i < |violations| ensures violations[i].kind == EMPTY_DIRECTORY {
      assert violations[i] in multiset(violations);
      assert violations[i] in FindingsOf(found);
    }
  }

  /** `_empty_import_directory_violations`. */
  method FindEmptyDirectories(root: Node, s: Setting) returns (violations: seq<Violation>)
    ensures SortedRecords(violations, FindingsOf(Findings(s, root, [])), PathOf)
    ensures forall i :: 0 <= i < |violations| ==> violations[i].kind == EMPTY_DIRECTORY && !Candidate(violations[i])
  {
    var found := Walk(root, s);
    violations := SortByPath(FindingsOf(found), PathOf);
    SortingRecords(FindingsOf(found), PathOf);
    FindingsAreNoCandidates(violations, found);
  }

  /** The `os.walk` loop: a stack of directories still to visit, pruned before descending. */
  method Walk(root: Node, s: Setting) returns (found: seq<Parts>)
    ensures found == Findings(s, root, [])
  {
    found := [];
    var stack := [Visit([], root)];
    while stack != []
      invariant found + Pending(s, stack) == Findings(s, root, [])
      decreases TotalSize(stack)
    {
      var at, node, rest := stack[0].at, stack[0].node, stack[1..];
      stack := rest;
      if node.Folder? {
        var entered := Visits(s, node, at, 0);
        VisitingTop(s, at, node, rest, entered);
        HollowWhenNothingEntered(s, at, node);
        if entered == [] && node.files == [] && Importable(s, at) {
          found := found + [at];
        }
        stack := entered + rest;
      }
    }
  }
}
