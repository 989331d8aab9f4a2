/** The four adjudicators in a row: every base violation is decided exactly once, and nothing is lost. */
module AdjudicationPipeline {
  import opened Wrappers
  import opened Paths
  import opened Adjudication
  import opened EmptyDirectories
  import Json

  datatype Report = Report(
    managed: seq<string>,
    native: seq<NativeArtifact>,
    copies: seq<CopyArtifact>,
    review: seq<ReviewArtifact>,
    remaining: seq<Violation>)
  {
    /** The `valid` property of the last report. */
    predicate Valid() { remaining == [] }
  }

  /** The violations with a property, in their order. */
  function Where(vs: seq<Violation>, p: Violation -> bool): seq<Violation> {
    if vs == [] then []
    else if p(vs[|vs| - 1]) then Where(vs[..|vs| - 1], p) + [vs[|vs| - 1]]
    else Where(vs[..|vs| - 1], p)
  }

  function Rank(verdict: Verdict): nat {
    match verdict
    case ManagedDependency => 0
    case NativeBuild => 1
    case TrackedCopy => 2
    case NeedsReview => 3
    case Remains => 4
  }

  /** The verdicts of one repository, as a function that the counting lemmas need not look into. */
  function Judge(repo: Repository, root: Option<PurePath>): Violation -> Verdict {
    v => VerdictOn(repo, root, v)
  }

  function Given(judge: Violation -> Verdict, verdict: Verdict): Violation -> bool {
    v => judge(v) == verdict
  }

  function Beyond(judge: Violation -> Verdict, stage: nat): Violation -> bool {
    v => Rank(judge(v)) >= stage
  }

  lemma RankDetermines(a: Verdict, b: Verdict)
    ensures Rank(a) == Rank(b) <==> a == b
    ensures Rank(a) <= 4
  {
  }

  /** The base violations that one verdict is about. */
  function Decided(judge: Violation -> Verdict, base: seq<Violation>, verdict: Verdict): seq<Violation> {
    Where(base, Given(judge, verdict))
  }

  /** The base violations that the first `stage` adjudicators leave open. */
  function Open(judge: Violation -> Verdict, base: seq<Violation>, stage: nat): seq<Violation> {
    Where(base, Beyond(judge, stage))
  }

  function Itself(path: string): string { path }

  function NativePath(a: NativeArtifact): string { a.path }

  function CopyPath(a: CopyArtifact): string { a.path }

  function ReviewPath(a: ReviewArtifact): string { a.path }

  function PathsOf(vs: seq<Violation>): seq<string> {
    seq(|vs|, i requires 0 <= i < |vs| => if vs[i].path.Some? then vs[i].path.value else "")
  }

  // ---------- selections of selections ----------

  lemma {:induction false} WhereOfWhere(vs: seq<Violation>, p: Violation -> bool, q: Violation -> bool, r: Violation -> bool)
    requires forall v :: r(v) == (p(v) && q(v))
    ensures Where(Where(vs, p), q) == Where(vs, r)
  {
    if vs != [] {
      var rest, last := vs[..|vs| - 1], vs[|vs| - 1];
      WhereOfWhere(rest, p, q, r);
      if p(last) {
        assert (Where(rest, p) + [last])[..|Where(rest, p)|] == Where(rest, p);
      }
    }
  }

  lemma {:induction false} RefusedIsWhere<A>(vs: seq<Violation>, stage: Violation -> Option<A>, p: Violation -> bool)
    requires forall v :: p(v) == stage(v).None?
    ensures Refused(vs, stage) == Where(vs, p)
  {
    if vs != [] {
      RefusedIsWhere(vs[..|vs| - 1], stage, p);
    }
  }

  lemma {:induction false} RefusedAppends<A>(xs: seq<Violation>, ys: seq<Violation>, stage: Violation -> Option<A>)
    requires forall i :: 0 <= i < |ys| ==> stage(ys[i]).None?
    ensures Refused(xs + ys, stage) == Refused(xs, stage) + ys
    ensures Excused(xs + ys, stage) == Excused(xs, stage)
  {
    if ys == [] {
      assert xs + ys == xs;
    } else {
      assert (xs + ys)[..|xs + ys| - 1] == xs + ys[..|ys| - 1];
      RefusedAppends(xs, ys[..|ys| - 1], stage);
      assert ys == ys[..|ys| - 1] + [ys[|ys| - 1]];
    }
  }

  /** A stage records exactly the paths of the violations that it excuses, in their order. */
  lemma {:induction false} ExcusedPaths<A>(vs: seq<Violation>, stage: Violation -> Option<A>, path: A -> string,
                                           p: Violation -> bool)
    requires forall v :: p(v) == stage(v).Some?
    requires forall v :: stage(v).Some? ==> v.path == Some(path(stage(v).value))
    ensures RecordPaths(Excused(vs, stage), path) == PathsOf(Where(vs, p))
  {
    if vs != [] {
      var rest, last := vs[..|vs| - 1], vs[|vs| - 1];
      ExcusedPaths(rest, stage, path, p);
      if p(last) {
        assert RecordPaths(Excused(rest, stage) + [stage(last).value], path) == RecordPaths(Excused(rest, stage), path) + [path(stage(last).value)];
        assert PathsOf(Where(rest, p) + [last]) == PathsOf(Where(rest, p)) + [last.path.value];
      }
    }
  }

  function RecordPaths<A>(records: seq<A>, path: A -> string): seq<string> {
    seq(|records|, i requires 0 <= i < |records| => path(records[i]))
  }

  // ---------- one stage ----------

  /** Among the violations still open, the stage excuses exactly those of its verdict, and records their paths. */
  ghost predicate Decides<A>(judge: Violation -> Verdict, verdict: Verdict, stage: Violation -> Option<A>, path: A -> string) {
    && (forall v :: Rank(judge(v)) >= Rank(verdict) ==> (stage(v).Some? <==> judge(v) == verdict))
    && forall v :: stage(v).Some? ==> v.path == Some(path(stage(v).value))
  }

  lemma ManagedDecides(repo: Repository, root: Option<PurePath>)
    ensures Decides(Judge(repo, root), ManagedDependency, ManagedPath(repo, root), Itself)
  {
  }

  lemma NativeDecides(repo: Repository, root: Option<PurePath>)
    ensures Decides(Judge(repo, root), NativeBuild, NativeBuildOf(repo), NativePath)
  {
  }

  lemma CopiesDecide(repo: Repository, root: Option<PurePath>)
    ensures Decides(Judge(repo, root), TrackedCopy, TrackedCopyOf(repo), CopyPath)
  {
  }

  lemma ReviewDecides(repo: Repository, root: Option<PurePath>)
    ensures Decides(Judge(repo, root), NeedsReview, ReviewOf(repo), ReviewPath)
  {
  }

  /** An adjudicator that decides exactly the violations of its rank moves the rest on, untouched. */
  lemma StageAdvances<A>(judge: Violation -> Verdict, base: seq<Violation>, verdict: Verdict,
                         stage: Violation -> Option<A>, path: A -> string)
    requires verdict != Remains && Decides(judge, verdict, stage, path)
    ensures Refused(Open(judge, base, Rank(verdict)), stage) == Open(judge, base, Rank(verdict) + 1)
    ensures RecordPaths(Excused(Open(judge, base, Rank(verdict)), stage), path) == PathsOf(Decided(judge, base, verdict))
  {
    var rank := Rank(verdict);
    var before, after, here := Beyond(judge, rank), Beyond(judge, rank + 1), Given(judge, verdict);
    var refused, excused := (v: Violation) => stage(v).None?, (v: Violation) => stage(v).Some?;
    RefusedIsWhere(Where(base, before), stage, refused);
    WhereOfWhere(base, before, refused, after);
    ExcusedPaths(Where(base, before), stage, path, excused);
    WhereOfWhere(base, before, excused, here);
  }

  lemma {:induction false} WhereAgrees(vs: seq<Violation>, p: Violation -> bool, q: Violation -> bool)
    requires forall v :: p(v) == q(v)
    ensures Where(vs, p) == Where(vs, q)
  {
    if vs != [] {
      WhereAgrees(vs[..|vs| - 1], p, q);
    }
  }

  lemma {:induction false} WhereEverything(vs: seq<Violation>, p: Violation -> bool)
    requires forall v :: p(v)
    ensures Where(vs, p) == vs
  {
    if vs != [] {
      WhereEverything(vs[..|vs| - 1], p);
      assert vs == vs[..|vs| - 1] + [vs[|vs| - 1]];
    }
  }

  function Without<T>(xs: seq<T>, k: nat): seq<T>
    requires k < |xs|
  {
    xs[..k] + xs[k + 1..]
  }

  lemma WithoutOne<T>(xs: seq<T>, k: nat)
    requires k < |xs|
    ensures multiset(xs) == multiset(Without(xs, k)) + multiset{xs[k]}
    ensures multiset(Without(xs, k)) == multiset(xs) - multiset{xs[k]}
  {
    assert xs == xs[..k] + [xs[k]] + xs[k + 1..];
  }

  /** Sorting the records of a stage leaves the paths, each as often as before. */
  lemma {:induction false} PathsOfMultiset<A>(xs: seq<A>, ys: seq<A>, path: A -> string)
    requires multiset(xs) == multiset(ys)
    ensures multiset(RecordPaths(xs, path)) == multiset(RecordPaths(ys, path))
    decreases |xs|
  {
    if xs == [] {
      assert |multiset(ys)| == 0;
    } else {
      assert xs[0] in multiset(ys);
      var k :| 0 <= k < |ys| && ys[k] == xs[0];
      WithoutOne(xs, 0);
      WithoutOne(ys, k);
      PathsOfMultiset(Without(xs, 0), Without(ys, k), path);
      assert RecordPaths(Without(xs, 0), path) == Without(RecordPaths(xs, path), 0);
      assert RecordPaths(Without(ys, k), path) == Without(RecordPaths(ys, path), k);
      WithoutOne(RecordPaths(xs, path), 0);
      WithoutOne(RecordPaths(ys, path), k);
    }
  }

  // ---------- the whole pipeline ----------

  /** Every record list names exactly the base violations with its verdict, once for each. */
  ghost predicate Accounts(judge: Violation -> Verdict, base: seq<Violation>, emptyDirectories: seq<Violation>, report: Report) {
    && multiset(report.managed) == multiset(PathsOf(Decided(judge, base, ManagedDependency)))
    && multiset(RecordPaths(report.native, NativePath)) == multiset(PathsOf(Decided(judge, base, NativeBuild)))
    && multiset(RecordPaths(report.copies, CopyPath)) == multiset(PathsOf(Decided(judge, base, TrackedCopy)))
    && multiset(RecordPaths(report.review, ReviewPath)) == multiset(PathsOf(Decided(judge, base, NeedsReview)))
    && report.remaining == Decided(judge, base, Remains) + emptyDirectories
  }

  /** The records of such a stage, in whatever order, name exactly the violations with its verdict. */
  lemma StageRecords<A>(judge: Violation -> Verdict, base: seq<Violation>, verdict: Verdict,
                        stage: Violation -> Option<A>, path: A -> string, records: seq<A>)
    requires verdict != Remains && Decides(judge, verdict, stage, path)
    requires multiset(records) == multiset(Excused(Open(judge, base, Rank(verdict)), stage))
    ensures Refused(Open(judge, base, Rank(verdict)), stage) == Open(judge, base, Rank(verdict) + 1)
    ensures multiset(RecordPaths(records, path)) == multiset(PathsOf(Decided(judge, base, verdict)))
  {
    StageAdvances(judge, base, verdict, stage, path);
    PathsOfMultiset(records, Excused(Open(judge, base, Rank(verdict)), stage), path);
  }

  lemma EverythingIsOpen(judge: Violation -> Verdict, base: seq<Violation>)
    ensures Open(judge, base, 0) == base
  {
    forall v ensures Beyond(judge, 0)(v) { assert Rank(judge(v)) >= 0; }
    WhereEverything(base, Beyond(judge, 0));
  }

  lemma OpenToTheEnd(judge: Violation -> Verdict, base: seq<Violation>)
    ensures Open(judge, base, 4) == Decided(judge, base, Remains)
  {
    forall v ensures Beyond(judge, 4)(v) == Given(judge, Remains)(v) { RankDetermines(judge(v), Remains); }
    WhereAgrees(base, Beyond(judge, 4), Given(judge, Remains));
  }

  lemma NeverReviewed(repo: Repository, vs: seq<Violation>)
    requires forall i :: 0 <= i < |vs| ==> !Candidate(vs[i])
    ensures forall i :: 0 <= i < |vs| ==> ReviewOf(repo)(vs[i]).None?
  {
  }

  lemma FirstStage(judge: Violation -> Verdict, base: seq<Violation>, stage: Violation -> Option<string>,
                   records: seq<string>, left: seq<Violation>)
    requires Decides(judge, ManagedDependency, stage, Itself)
    requires multiset(records) == multiset(Excused(base, stage)) && left == Refused(base, stage)
    ensures left == Open(judge, base, 1)
    ensures multiset(records) == multiset(PathsOf(Decided(judge, base, ManagedDependency)))
  {
    EverythingIsOpen(judge, base);
    StageRecords(judge, base, ManagedDependency, stage, Itself, records);
    assert RecordPaths(records, Itself) == records;
  }

  lemma MiddleStage<A>(judge: Violation -> Verdict, base: seq<Violation>, verdict: Verdict, stage: Violation -> Option<A>,
                       path: A -> string, records: seq<A>, open: seq<Violation>, left: seq<Violation>)
    requires verdict != Remains && Decides(judge, verdict, stage, path)
    requires open == Open(judge, base, Rank(verdict))
    requires multiset(records) == multiset(Excused(open, stage)) && left == Refused(open, stage)
    ensures left == Open(judge, base, Rank(verdict) + 1)
    ensures multiset(RecordPaths(records, path)) == multiset(PathsOf(Decided(judge, base, verdict)))
  {
    StageRecords(judge, base, verdict, stage, path, records);
  }

  /** What the third stage appends passes through the last. */
  lemma LastStage(judge: Violation -> Verdict, base: seq<Violation>, emptyDirectories: seq<Violation>,
                  stage: Violation -> Option<ReviewArtifact>, records: seq<ReviewArtifact>, open: seq<Violation>)
    requires Decides(judge, NeedsReview, stage, ReviewPath)
    requires forall i :: 0 <= i < |emptyDirectories| ==> stage(emptyDirectories[i]).None?
    requires open == Open(judge, base, 3)
    requires multiset(records) == multiset(Excused(open + emptyDirectories, stage))
    ensures Refused(open + emptyDirectories, stage) == Decided(judge, base, Remains) + emptyDirectories
    ensures multiset(RecordPaths(records, ReviewPath)) == multiset(PathsOf(Decided(judge, base, NeedsReview)))
  {
    RefusedAppends(open, emptyDirectories, stage);
    MiddleStage(judge, base, NeedsReview, stage, ReviewPath, records, open, Refused(open, stage));
    OpenToTheEnd(judge, base);
  }

  /** The setting of the directory walk: tracked sources, and the generated paths with the build output. */
  function SettingOf(repo: Repository, generated: seq<string>): Setting {
    NewSetting(seq(|repo.sources|, i requires 0 <= i < |repo.sources| => repo.sources[i].0),
               generated + ["build_output"], repo.identifier)
  }

  /** v3, v4, v5 and v6 in a row, each on what the one before has left, with the directory walk inside v5. */
  method Adjudicate(repo: Repository, base: seq<Violation>, provenance: Json.Value, tree: Node, generated: seq<string>)
    returns (report: Report, emptyDirectories: seq<Violation>)
    ensures Accounts(Judge(repo, SafeRoot(provenance)), base, emptyDirectories, report)
    ensures SortedRecords(emptyDirectories, FindingsOf(Findings(SettingOf(repo, generated), tree, [])), PathOf)
  {
    ghost var root := SafeRoot(provenance);
    var managed, afterManaged := AdjudicateManaged(repo, base, provenance);
    var native, afterNative := AdjudicateNative(repo, afterManaged);
    emptyDirectories := FindEmptyDirectories(tree, SettingOf(repo, generated));
    var copies, afterCopies := AdjudicateCopies(repo, afterNative, emptyDirectories);
    var review, remaining := AdjudicateOpen(repo, afterCopies);
    report := Report(managed, native, copies, review, remaining);
    ghost var judge := Judge(repo, root);
    ManagedDecides(repo, root);
    FirstStage(judge, base, ManagedPath(repo, root), managed, afterManaged);
    NativeDecides(repo, root);
    MiddleStage(judge, base, NativeBuild, NativeBuildOf(repo), NativePath, native, afterManaged, afterNative);
    CopiesDecide(repo, root);
    MiddleStage(judge, base, TrackedCopy, TrackedCopyOf(repo), CopyPath, copies, afterNative,
                Refused(afterNative, TrackedCopyOf(repo)));
    ReviewDecides(repo, root);
    NeverReviewed(repo, emptyDirectories);
    LastStage(judge, base, emptyDirectories, ReviewOf(repo), review, Refused(afterNative, TrackedCopyOf(repo)));
  }

  /** A selection is empty exactly when no element has the property. */
  lemma {:induction false} WhereHolds(vs: seq<Violation>, p: Violation -> bool)
    ensures forall v :: v in Where(vs, p) <==> v in vs && p(v)
  {
    if vs != [] {
      WhereHolds(vs[..|vs| - 1], p);
      assert vs == vs[..|vs| - 1] + [vs[|vs| - 1]];
    }
  }

  lemma {:induction false} WhereSplits(vs: seq<Violation>, whole: Violation -> bool, p: Violation -> bool, q: Violation -> bool)
    requires forall v :: whole(v) == (p(v) || q(v)) && !(p(v) && q(v))
    ensures multiset(Where(vs, whole)) == multiset(Where(vs, p)) + multiset(Where(vs, q))
  {
    if vs != [] {
      WhereSplits(vs[..|vs| - 1], whole, p, q);
    }
  }

  lemma OpenSplits(judge: Violation -> Verdict, base: seq<Violation>, verdict: Verdict)
    ensures multiset(Open(judge, base, Rank(verdict)))
         == multiset(Decided(judge, base, verdict)) + multiset(Open(judge, base, Rank(verdict) + 1))
  {
    var whole, here, rest := Beyond(judge, Rank(verdict)), Given(judge, verdict), Beyond(judge, Rank(verdict) + 1);
    forall v ensures whole(v) == (here(v) || rest(v)) && !(here(v) && rest(v)) { RankDetermines(judge(v), verdict); }
    WhereSplits(base, whole, here, rest);
  }

  /** The five verdicts split the base violations: nothing is decided twice and nothing disappears. */
  lemma VerdictsPartition(judge: Violation -> Verdict, base: seq<Violation>)
    ensures multiset(base)
         == multiset(Decided(judge, base, ManagedDependency)) + multiset(Decided(judge, base, NativeBuild))
            + multiset(Decided(judge, base, TrackedCopy)) + multiset(Decided(judge, base, NeedsReview))
            + multiset(Decided(judge, base, Remains))
  {
    EverythingIsOpen(judge, base);
    OpenSplits(judge, base, ManagedDependency);
    OpenSplits(judge, base, NativeBuild);
    OpenSplits(judge, base, TrackedCopy);
    OpenSplits(judge, base, NeedsReview);
    OpenToTheEnd(judge, base);
  }

  /** Counted together, the reports and the rest are the base violations and the directory findings. */
  lemma ReportCounts(judge: Violation -> Verdict, base: seq<Violation>, emptyDirectories: seq<Violation>, report: Report)
    requires Accounts(judge, base, emptyDirectories, report)
    ensures |report.managed| + |report.native| + |report.copies| + |report.review| + |report.remaining|
         == |base| + |emptyDirectories|
  {
    VerdictsPartition(judge, base);
    assert |multiset(base)| == |base|;
    SameSize(report.managed, PathsOf(Decided(judge, base, ManagedDependency)));
    SameSize(RecordPaths(report.native, NativePath), PathsOf(Decided(judge, base, NativeBuild)));
    SameSize(RecordPaths(report.copies, CopyPath), PathsOf(Decided(judge, base, TrackedCopy)));
    SameSize(RecordPaths(report.review, ReviewPath), PathsOf(Decided(judge, base, NeedsReview)));
  }

  lemma SameSize(xs: seq<string>, ys: seq<string>)
    requires multiset(xs) == multiset(ys)
    ensures |xs| == |ys|
  {
    assert |multiset(xs)| == |multiset(ys)|;
  }

  /** Only an untracked import artifact with a path is ever excused. */
  lemma OnlyCandidatesAreExcused(repo: Repository, root: Option<PurePath>, base: seq<Violation>, verdict: Verdict, v: Violation)
    requires v in Decided(Judge(repo, root), base, verdict)
    ensures v in base
    ensures verdict != Remains ==> Candidate(v)
  {
    WhereHolds(base, Given(Judge(repo, root), verdict));
  }

  /** The final report is valid exactly when every base violation was excused and no directory finding was added. */
  lemma ValidWhenAllExcused(judge: Violation -> Verdict, base: seq<Violation>, emptyDirectories: seq<Violation>, report: Report)
    requires Accounts(judge, base, emptyDirectories, report)
    ensures report.Valid() <==> emptyDirectories == [] && forall v :: v in base ==> judge(v) != Remains
  {
    WhereHolds(base, Given(judge, Remains));
    assert Decided(judge, base, Remains) != [] ==> Decided(judge, base, Remains)[0] in base;
  }
}
