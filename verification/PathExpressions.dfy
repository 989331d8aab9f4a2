/** `_python_path_expression`: constant folding of path expressions over assignments that may be cyclic. */
module PathExpressions {
  import opened Wrappers
  import opened Paths

  datatype Operator = Add | Divide | OtherOperator

  /** The syntax that the folding distinguishes. `Formatted` carries the value found for an f-string. */
  datatype Expr =
    | Constant(text: string)
    | Formatted(value: Option<string>)
    | Variable(id: string)
    | Binary(op: Operator, left: Expr, right: Expr)
    | PathCall(args: seq<Expr>)               // Path, PurePath, PurePosixPath, join, joinpath
    | OtherSyntax

  type Assignments = map<string, Expr>

  function LStrip(s: string): string {
    if s != [] && s[0] == '/' then LStrip(s[1..]) else s
  }

  function RStrip(s: string): string {
    if s != [] && s[|s| - 1] == '/' then RStrip(s[..|s| - 1]) else s
  }

  predicate Truthy(value: Option<string>) {
    value.Some? && value.value != ""
  }

  function Combine(op: Operator, left: Option<string>, right: Option<string>): Option<string> {
    if op == OtherOperator then None
    else if Truthy(left) && Truthy(right) then
      Some(RStrip(left.value) + (if op == Divide then "/" else "") + LStrip(right.value))
    else if Truthy(right) then right
    else left
  }

  /** "/".join over the stripped texts. */
  function Joined(known: seq<string>): string {
    if known == [] then ""
    else if |known| == 1 then LStrip(RStrip(known[0]))
    else Joined(known[..|known| - 1]) + "/" + LStrip(RStrip(known[|known| - 1]))
  }

  function Known(values: seq<Option<string>>): seq<string> {
    if values == [] then []
    else if Truthy(values[|values| - 1]) then Known(values[..|values| - 1]) + [values[|values| - 1].value]
    else Known(values[..|values| - 1])
  }

  /** The folding. A name is followed at most once on a path, so cyclic assignments end it. */
  function Fold(e: Expr, env: Assignments, seen: set<string>): Option<string>
    decreases env.Keys - seen, e, 0
  {
    match e
    case Constant(text) => Some(text)
    case Formatted(value) => value
    case Variable(id) =>
      if id in seen || id !in env then None
      else
        assert id in env.Keys - seen && id !in env.Keys - (seen + {id});
        Fold(env[id], env, seen + {id})
    case Binary(op, left, right) => Combine(op, Fold(left, env, seen), Fold(right, env, seen))
    case PathCall(args) =>
      var known := Known(FoldAll(args, env, seen));
      if known == [] then None else Some(Joined(known))
    case OtherSyntax => None
  }

  function FoldAll(args: seq<Expr>, env: Assignments, seen: set<string>): (values: seq<Option<string>>)
    ensures |values| == |args|
    decreases env.Keys - seen, args
  {
    if args == [] then []
    else FoldAll(args[..|args| - 1], env, seen) + [Fold(args[|args| - 1], env, seen)]
  }

  // ---------- what the guard against repeated names does ----------

  /** A name that has been seen counts as not assigned, and for nothing else. */
  lemma {:induction false} SeenMeansUnassigned(e: Expr, env: Assignments, forgotten: set<string>, seen: set<string>)
    ensures Fold(e, env, forgotten + seen) == Fold(e, env - forgotten, seen)
    decreases env.Keys - (forgotten + seen), e, 0
  {
    match e {
      case Variable(id) =>
        if id in env && id !in forgotten + seen {
          assert (env - forgotten)[id] == env[id];
          assert (forgotten + seen) + {id} == forgotten + (seen + {id});
          assert id in env.Keys - (forgotten + seen) && id !in env.Keys - (forgotten + (seen + {id}));
          SeenMeansUnassigned(env[id], env, forgotten, seen + {id});
        }
      case Binary(_, left, right) =>
        SeenMeansUnassigned(left, env, forgotten, seen);
        SeenMeansUnassigned(right, env, forgotten, seen);
      case PathCall(args) =>
        SeenMeansUnassignedToAll(args, env, forgotten, seen);
      case _ =>
    }
  }

  lemma {:induction false} SeenMeansUnassignedToAll(args: seq<Expr>, env: Assignments, forgotten: set<string>,
                                                    seen: set<string>)
    ensures FoldAll(args, env, forgotten + seen) == FoldAll(args, env - forgotten, seen)
    decreases env.Keys - (forgotten + seen), args
  {
    if args != [] {
      SeenMeansUnassignedToAll(args[..|args| - 1], env, forgotten, seen);
      SeenMeansUnassigned(args[|args| - 1], env, forgotten, seen);
    }
  }

  /** Under any assignments, cyclic or not, a variable folds to its definition with the variable itself forgotten. */
  lemma VariableFoldsWithoutItself(id: string, env: Assignments)
    requires id in env
    ensures Fold(Variable(id), env, {}) == Fold(env[id], env - {id}, {})
  {
    SeenMeansUnassigned(env[id], env, {id}, {});
    assert {id} + {} == {id} == {} + {id};
  }

  // ---------- definitions that do not reach a name ----------

  /** Every variable of an expression that is assigned at all is among `names`. */
  predicate Covers(names: set<string>, e: Expr, env: Assignments)
    decreases e
  {
    match e
    case Variable(id) => id in env ==> id in names
    case Binary(_, left, right) => Covers(names, left, env) && Covers(names, right, env)
    case PathCall(args) => forall i :: 0 <= i < |args| ==> Covers(names, args[i], env)
    case _ => true
  }

  /** The definitions of the names mention no others. */
  predicate Closed(names: set<string>, env: Assignments) {
    forall id :: id in names && id in env ==> Covers(names, env[id], env)
  }

  /** The definition of the name leads back to it: no closed set of names covers it without holding the name. */
  ghost predicate ReachesItself(id: string, env: Assignments)
    requires id in env
  {
    forall names :: Closed(names, env) && Covers(names, env[id], env) ==> id in names
  }

  /** What has been seen matters only on the names that the expression can reach; these may be cyclic. */
  lemma {:induction false} SeenMattersOnlyInReach(e: Expr, env: Assignments, names: set<string>,
                                                  seen: set<string>, other: set<string>)
    requires Closed(names, env) && Covers(names, e, env)
    requires forall id :: id in names ==> (id in seen <==> id in other)
    ensures Fold(e, env, seen) == Fold(e, env, other)
    decreases env.Keys - seen, e, 0
  {
    match e {
      case Variable(id) =>
        if id in env && id !in seen {
          assert id in env.Keys - seen && id !in env.Keys - (seen + {id});
          SeenMattersOnlyInReach(env[id], env, names, seen + {id}, other + {id});
        }
      case Binary(_, left, right) =>
        SeenMattersOnlyInReach(left, env, names, seen, other);
        SeenMattersOnlyInReach(right, env, names, seen, other);
      case PathCall(args) =>
        SeenMattersOnlyInReachOfAll(args, env, names, seen, other);
      case _ =>
    }
  }

  lemma {:induction false} SeenMattersOnlyInReachOfAll(args: seq<Expr>, env: Assignments, names: set<string>,
                                                       seen: set<string>, other: set<string>)
    requires Closed(names, env) && forall i :: 0 <= i < |args| ==> Covers(names, args[i], env)
    requires forall id :: id in names ==> (id in seen <==> id in other)
    ensures FoldAll(args, env, seen) == FoldAll(args, env, other)
    decreases env.Keys - seen, args
  {
    if args != [] {
      SeenMattersOnlyInReachOfAll(args[..|args| - 1], env, names, seen, other);
      SeenMattersOnlyInReach(args[|args| - 1], env, names, seen, other);
    }
  }

  /** So a variable folds to what its definition folds to on its own, unless the definition leads back to it. */
  lemma VariablesAreTransparent(id: string, env: Assignments)
    requires id in env && !ReachesItself(id, env)
    ensures Fold(Variable(id), env, {}) == Fold(env[id], env, {})
  {
    var names :| Closed(names, env) && Covers(names, env[id], env) && id !in names;
    SeenMattersOnlyInReach(env[id], env, names, {} + {id}, {});
  }

  /** Every variable of an expression that is assigned at all has a rank below `r`. */
  predicate Below(e: Expr, env: Assignments, rank: map<string, nat>, r: nat)
    decreases e
  {
    match e
    case Variable(id) => id in env ==> id in rank && rank[id] < r
    case Binary(_, left, right) => Below(left, env, rank, r) && Below(right, env, rank, r)
    case PathCall(args) => forall i :: 0 <= i < |args| ==> Below(args[i], env, rank, r)
    case _ => true
  }

  /** The ranks order the assignments so that a definition mentions only names of lower rank. */
  predicate Acyclic(env: Assignments, rank: map<string, nat>) {
    forall id :: id in env ==> id in rank && Below(env[id], env, rank, rank[id])
  }

  lemma {:induction false} BelowIsCovered(e: Expr, env: Assignments, rank: map<string, nat>, r: nat, names: set<string>)
    requires Below(e, env, rank, r)
    requires forall id :: id in env && id in rank && rank[id] < r ==> id in names
    ensures Covers(names, e, env)
    decreases e
  {
    match e {
      case Binary(_, left, right) =>
        BelowIsCovered(left, env, rank, r, names);
        BelowIsCovered(right, env, rank, r, names);
      case PathCall(args) =>
        forall i | 0 <= i < |args| ensures Covers(names, args[i], env) {
          BelowIsCovered(args[i], env, rank, r, names);
        }
      case _ =>
    }
  }

  /** Acyclic assignments reach no name twice, so all their variables are transparent. */
  lemma AcyclicMeansTransparent(id: string, env: Assignments, rank: map<string, nat>)
    requires Acyclic(env, rank) && id in env
    ensures !ReachesItself(id, env)
    ensures Fold(Variable(id), env, {}) == Fold(env[id], env, {})
  {
    var names := set n | n in env && n in rank && rank[n] < rank[id];
    forall n | n in names && n in env ensures Covers(names, env[n], env) {
      BelowIsCovered(env[n], env, rank, rank[n], names);
    }
    BelowIsCovered(env[id], env, rank, rank[id], names);
    assert Closed(names, env) && id !in names;
    VariablesAreTransparent(id, env);
  }

  /** A name that reaches itself may not be: x = "a" / x folds to a, while its definition folds to a/a. */
  lemma CyclesAreNotTransparent()
    ensures exists id, env: Assignments :: id in env && Fold(Variable(id), env, {}) != Fold(env[id], env, {})
  {
    var definition := Binary(Divide, Constant("a"), Variable("x"));
    var env: Assignments := map["x" := definition];
    assert Fold(Variable("x"), env, {"x"}) == None;
    assert Fold(definition, env, {"x"}) == Some("a");
    assert {} + {"x"} == {"x"};
    assert Fold(Variable("x"), env, {}) == Some("a");
    assert Fold(definition, env, {}) == Combine(Divide, Some("a"), Some("a"));
    assert Combine(Divide, Some("a"), Some("a")).value == RStrip("a") + "/" + LStrip("a");
    assert |RStrip("a")| == 1 && |LStrip("a")| == 1;
    assert "x" in env && Fold(Variable("x"), env, {}) != Fold(env["x"], env, {});
  }

  // ---------- what folding does to path components ----------

  lemma {:induction false} SplitAtSlash(a: string, b: string, current: string)
    ensures Split(a + "/" + b, current) == Split(a, current) + Split(b, "")
  {
    var text := a + "/" + b;
    if a == [] {
      assert text[1..] == b;
    } else {
      assert text[1..] == a[1..] + "/" + b;
      SplitAtSlash(a[1..], b, if a[0] == '/' then "" else current + [a[0]]);
      if a[0] == '/' {
        assert Split(a, current) == Component(current) + Split(a[1..], "");
      }
    }
  }

  lemma {:induction false} LStripKeepsParts(s: string)
    ensures Split(LStrip(s), "") == Split(s, "")
  {
    if s != [] && s[0] == '/' {
      LStripKeepsParts(s[1..]);
      assert Split(s, "") == Component("") + Split(s[1..], "");
    }
  }

  lemma {:induction false} RStripKeepsParts(s: string)
    ensures Split(RStrip(s), "") == Split(s, "")
  {
    if s != [] && s[|s| - 1] == '/' {
      var init := s[..|s| - 1];
      RStripKeepsParts(init);
      SplitAtSlash(init, "", "");
      assert init + "/" + "" == s;
      assert Split("", "") == [];
    }
  }

  /** `left / right` has the components of both, in order. */
  lemma DivideConcatenatesParts(left: string, right: string)
    requires left != "" && right != ""
    ensures Parse(Combine(Divide, Some(left), Some(right)).value).parts == Parse(left).parts + Parse(right).parts
  {
    var l, r := RStrip(left), LStrip(right);
    SplitAtSlash(l, r, "");
    RStripKeepsParts(left);
    LStripKeepsParts(right);
    assert Combine(Divide, Some(left), Some(right)).value == l + "/" + r;
  }

  /** So the last operand that names anything decides the file name, whatever directory stands before it. */
  lemma DivideKeepsFileName(left: string, right: string)
    requires left != "" && Parse(right).parts != []
    ensures Name(Parse(Combine(Divide, Some(left), Some(right)).value)) == Name(Parse(right))
  {
    assert right != "" by { assert Split("", "") == []; }
    DivideConcatenatesParts(left, right);
  }

  function AllParts(known: seq<string>): seq<string> {
    if known == [] then [] else AllParts(known[..|known| - 1]) + Parse(known[|known| - 1]).parts
  }

  /** A path call has the components of all its known arguments, in order. */
  lemma {:induction false} JoinConcatenatesParts(known: seq<string>)
    requires known != []
    ensures Parse(Joined(known)).parts == AllParts(known)
  {
    var last := known[|known| - 1];
    LStripKeepsParts(RStrip(last));
    RStripKeepsParts(last);
    if |known| == 1 {
      assert known[..0] == [];
      assert AllParts(known) == [] + Parse(last).parts;
    } else {
      JoinConcatenatesParts(known[..|known| - 1]);
      SplitAtSlash(Joined(known[..|known| - 1]), LStrip(RStrip(last)), "");
    }
  }

  /**
   Folding `left + right` drops the slashes where the two texts meet, so it is string concatenation exactly
   when there is none on either side.
   */
  lemma AddConcatenatesUnlessSlashesMeet(left: string, right: string)
    requires left != "" && right != ""
    ensures Combine(Add, Some(left), Some(right)) == Some(left + right)
       <==> left[|left| - 1] != '/' && right[0] != '/'
  {
    StrippedLengths(left);
    StrippedLengths(right);
    var folded := RStrip(left) + "" + LStrip(right);
    assert Combine(Add, Some(left), Some(right)) == Some(folded);
    assert |folded| == |RStrip(left)| + |LStrip(right)| && |left + right| == |left| + |right|;
    if left[|left| - 1] != '/' && right[0] != '/' {
      assert folded == left + right;
    }
  }

  lemma {:induction false} StrippedLengths(s: string)
    ensures |RStrip(s)| <= |s| && |LStrip(s)| <= |s|
    ensures s != "" ==> (|RStrip(s)| == |s| <==> s[|s| - 1] != '/') && (|LStrip(s)| == |s| <==> s[0] != '/')
  {
    if s != [] {
      StrippedLengths(s[1..]);
      StrippedLengths(s[..|s| - 1]);
    }
  }
}
