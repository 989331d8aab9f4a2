/** Batch edits of a numbered program as a function on the steps, and the laws of that function. */
module ProgramEdits {

  /** A step without its number; the number is its position. */
  datatype Body = Body(command: string, revised: bool)

  /** What the step at position `k` becomes: itself, its replacement, or nothing. */
  function Piece(body: Body, k: nat, edits: map<nat, string>): seq<Body> {
    if k !in edits then [body]
    else if edits[k] != "" then [Body(edits[k], true)]
    else []
  }

  /** The edited form of the first `k` steps. */
  function EditedUpTo(bodies: seq<Body>, edits: map<nat, string>, k: nat): seq<Body>
    requires k <= |bodies|
  {
    if k == 0 then [] else EditedUpTo(bodies, edits, k - 1) + Piece(bodies[k - 1], k, edits)
  }

  function Edited(bodies: seq<Body>, edits: map<nat, string>): seq<Body> {
    EditedUpTo(bodies, edits, |bodies|)
  }

  /** The number of deletions among the first `k` positions. */
  function Deletions(edits: map<nat, string>, k: nat): nat {
    if k == 0 then 0 else Deletions(edits, k - 1) + (if k in edits && edits[k] == "" then 1 else 0)
  }

  // ---------- sizes and order ----------

  /** The program shrinks by exactly the number of deletions. */
  lemma {:induction false} EditedSize(bodies: seq<Body>, edits: map<nat, string>, k: nat)
    requires k <= |bodies|
    ensures |EditedUpTo(bodies, edits, k)| + Deletions(edits, k) == k
  {
    if k > 0 {
      EditedSize(bodies, edits, k - 1);
    }
  }

  lemma {:induction false} EditedPrefix(bodies: seq<Body>, edits: map<nat, string>, j: nat, k: nat)
    requires j <= k <= |bodies|
    ensures EditedUpTo(bodies, edits, j) <= EditedUpTo(bodies, edits, k)
    decreases k
  {
    if j < k {
      EditedPrefix(bodies, edits, j, k - 1);
    }
  }

  /** Where a position that is not deleted ends up. */
  function NewPosition(edits: map<nat, string>, k: nat): int {
    k - Deletions(edits, k)
  }

  /** Steps that are not deleted keep their order, untouched ones their content, replaced ones get theirs. */
  lemma SurvivorsKeepOrder(bodies: seq<Body>, edits: map<nat, string>, j: nat, k: nat)
    requires 1 <= j <= |bodies| && 1 <= k <= |bodies|
    requires !(j in edits && edits[j] == "") && !(k in edits && edits[k] == "")
    ensures 1 <= NewPosition(edits, k) <= |Edited(bodies, edits)|
    ensures Edited(bodies, edits)[NewPosition(edits, k) - 1] == if k in edits then Body(edits[k], true) else bodies[k - 1]
    ensures j < k ==> NewPosition(edits, j) < NewPosition(edits, k)
  {
    EditedSize(bodies, edits, k - 1);
    EditedSize(bodies, edits, k);
    EditedPrefix(bodies, edits, k, |bodies|);
    if j < k {
      DeletionsBetween(edits, j, k - 1);
    }
  }

  lemma {:induction false} DeletionsBetween(edits: map<nat, string>, j: nat, k: nat)
    requires j <= k
    ensures Deletions(edits, k) - Deletions(edits, j) <= k - j
    decreases k
  {
    if j < k {
      DeletionsBetween(edits, j, k - 1);
    }
  }

  // ---------- a batch is a sequence of single edits ----------

  /** Edits at other positions, and steps at other positions, do not matter. */
  lemma {:induction false} EditedDependsOn(a: seq<Body>, b: seq<Body>, x: map<nat, string>, y: map<nat, string>, k: nat)
    requires k <= |a| && k <= |b| && a[..k] == b[..k]
    requires forall i :: 1 <= i <= k ==> (i in x <==> i in y) && (i in x ==> x[i] == y[i])
    ensures EditedUpTo(a, x, k) == EditedUpTo(b, y, k)
  {
    if k > 0 {
      assert a[..k][..k - 1] == a[..k - 1] && b[..k][..k - 1] == b[..k - 1];
      assert a[k - 1] == a[..k][k - 1] == b[k - 1];
      EditedDependsOn(a, b, x, y, k - 1);
    }
  }

  /** Beyond the last edited position the steps are copied. */
  lemma {:induction false} CopiedBeyond(bodies: seq<Body>, edits: map<nat, string>, j: nat, k: nat)
    requires j <= k <= |bodies| && forall i :: i in edits ==> i <= j
    ensures EditedUpTo(bodies, edits, k) == EditedUpTo(bodies, edits, j) + bodies[j..k]
    decreases k
  {
    if j < k {
      CopiedBeyond(bodies, edits, j, k - 1);
      assert bodies[j..k] == bodies[j..k - 1] + [bodies[k - 1]];
    } else {
      assert bodies[j..k] == [];
    }
  }

  /** The highest edit in place: what precedes it edited, its own piece, and the rest copied. */
  lemma HighestEdit(bodies: seq<Body>, edits: map<nat, string>, top: nat)
    requires top in edits && 1 <= top <= |bodies| && forall i :: i in edits ==> i <= top
    ensures Edited(bodies, edits)
            == EditedUpTo(bodies, edits, top - 1) + Piece(bodies[top - 1], top, edits) + bodies[top..]
  {
    CopiedBeyond(bodies, edits, top, |bodies|);
    assert bodies[top..|bodies|] == bodies[top..];
  }

  lemma SingleEdit(bodies: seq<Body>, top: nat, text: string)
    requires 1 <= top <= |bodies|
    ensures Edited(bodies, map[top := text])
            == bodies[..top - 1] + Piece(bodies[top - 1], top, map[top := text]) + bodies[top..]
  {
    HighestEdit(bodies, map[top := text], top);
    EditedDependsOn(bodies, bodies, map[top := text], map[], top - 1);
    NoEdits(bodies, top - 1);
  }

  /** The remaining edits find their positions although something has changed behind them. */
  lemma LowerEdits(bodies: seq<Body>, edits: map<nat, string>, n: nat, once: seq<Body>, rest: map<nat, string>)
    requires n <= |bodies| && n <= |once| && once[..n] == bodies[..n]
    requires forall i :: i in rest ==> i <= n
    requires forall i :: 1 <= i <= n ==> (i in edits <==> i in rest) && (i in edits ==> edits[i] == rest[i])
    ensures Edited(once, rest) == EditedUpTo(bodies, edits, n) + once[n..]
  {
    CopiedBeyond(once, rest, n, |once|);
    assert once[n..|once|] == once[n..];
    EditedDependsOn(bodies, once, edits, rest, n);
  }

  /** The highest edit can be made first, on its own. */
  lemma HighestEditFirst(bodies: seq<Body>, edits: map<nat, string>, top: nat, rest: map<nat, string>, once: seq<Body>)
    requires top in edits && 1 <= top <= |bodies| && forall i :: i in edits ==> i <= top
    requires rest == edits - {top} && once == Edited(bodies, map[top := edits[top]])
    ensures Edited(bodies, edits) == Edited(once, rest)
  {
    var piece := Piece(bodies[top - 1], top, edits);
    SingleEdit(bodies, top, edits[top]);
    assert once == bodies[..top - 1] + (piece + bodies[top..]);
    assert once[..top - 1] == bodies[..top - 1] && once[top - 1..] == piece + bodies[top..];
    LowerEdits(bodies, edits, top - 1, once, rest);
    HighestEdit(bodies, edits, top);
    Regroup(EditedUpTo(bodies, edits, top - 1), piece, bodies[top..]);
  }

  lemma Regroup(a: seq<Body>, b: seq<Body>, c: seq<Body>)
    ensures a + b + c == a + (b + c)
  {}

  lemma {:induction false} NoEdits(bodies: seq<Body>, k: nat)
    requires k <= |bodies|
    ensures EditedUpTo(bodies, map[], k) == bodies[..k]
  {
    if k > 0 {
      NoEdits(bodies, k - 1);
    }
  }

  /** Single edits one after the other, the list read from the left. */
  function Sequentially(bodies: seq<Body>, edits: seq<(nat, string)>): seq<Body>
    decreases |edits|
  {
    if edits == [] then bodies
    else Sequentially(Edited(bodies, map[edits[0].0 := edits[0].1]), edits[1..])
  }

  function AsMap(edits: seq<(nat, string)>): map<nat, string> {
    if edits == [] then map[] else AsMap(edits[1..])[edits[0].0 := edits[0].1]
  }

  ghost predicate Descending(edits: seq<(nat, string)>) {
    forall i, j :: 0 <= i < j < |edits| ==> edits[i].0 > edits[j].0
  }

  lemma {:induction false} AsMapKeys(edits: seq<(nat, string)>, k: nat)
    ensures k in AsMap(edits) <==> exists i :: 0 <= i < |edits| && edits[i].0 == k
  {
    if edits != [] {
      AsMapKeys(edits[1..], k);
      if i :| 0 <= i < |edits| && edits[i].0 == k {
        assert i > 0 ==> edits[1..][i - 1].0 == k;
      }
      if j :| 0 <= j < |edits[1..]| && edits[1..][j].0 == k {
        assert edits[j + 1].0 == k;
      }
    }
  }

  /** A batch equals its single edits applied from the highest position to the lowest. */
  lemma {:induction false} BatchIsDescendingSingles(bodies: seq<Body>, edits: seq<(nat, string)>)
    requires Descending(edits) && forall i :: 0 <= i < |edits| ==> 1 <= edits[i].0 <= |bodies|
    ensures Edited(bodies, AsMap(edits)) == Sequentially(bodies, edits)
    decreases |edits|
  {
    if edits == [] {
      NoEdits(bodies, |bodies|);
      assert bodies[..|bodies|] == bodies;
    } else {
      var (top, text) := edits[0];
      var all, rest := AsMap(edits), AsMap(edits[1..]);
      forall k ensures k in all ==> k <= top { AsMapKeys(edits, k); }
      AsMapKeys(edits[1..], top);
      assert all - {top} == rest;
      var once := Edited(bodies, map[top := text]);
      HighestEditFirst(bodies, all, top, rest, once);
      EditedSize(bodies, map[top := text], |bodies|);
      OneDeletion(top, text, |bodies|);
      forall i | 0 <= i < |edits[1..]| ensures 1 <= edits[1..][i].0 <= |once| {
        assert edits[1..][i] == edits[i + 1];
      }
      BatchIsDescendingSingles(once, edits[1..]);
    }
  }

  lemma {:induction false} OneDeletion(k: nat, text: string, n: nat)
    ensures Deletions(map[k := text], n) <= 1
    ensures n < k ==> Deletions(map[k := text], n) == 0
  {
    if n > 0 {
      OneDeletion(k, text, n - 1);
    }
  }

  ghost predicate DistinctPositions(edits: seq<(nat, string)>) {
    forall i, j :: 0 <= i < j < |edits| ==> edits[i].0 != edits[j].0
  }

  lemma {:induction false} AsMapValue(edits: seq<(nat, string)>, i: nat)
    requires i < |edits| && DistinctPositions(edits)
    ensures edits[i].0 in AsMap(edits) && AsMap(edits)[edits[i].0] == edits[i].1
  {
    if i > 0 {
      AsMapValue(edits[1..], i - 1);
      assert edits[1..][i - 1] == edits[i];
    }
  }

  /** The order in which the edits of a batch are listed does not matter. */
  lemma EditOrderIsIrrelevant(a: seq<(nat, string)>, b: seq<(nat, string)>)
    requires DistinctPositions(a) && DistinctPositions(b)
    requires forall e :: e in a <==> e in b
    ensures AsMap(a) == AsMap(b)
  {
    AsMapIncluded(a, b);
    AsMapIncluded(b, a);
    assert forall k :: k in AsMap(a) <==> k in AsMap(b);
  }

  lemma AsMapIncluded(a: seq<(nat, string)>, b: seq<(nat, string)>)
    requires DistinctPositions(a) && DistinctPositions(b) && forall e :: e in a ==> e in b
    ensures forall k :: k in AsMap(a) ==> k in AsMap(b) && AsMap(b)[k] == AsMap(a)[k]
  {
    forall k | k in AsMap(a) ensures k in AsMap(b) && AsMap(b)[k] == AsMap(a)[k] {
      AsMapKeys(a, k);
      var i :| 0 <= i < |a| && a[i].0 == k;
      AsMapValue(a, i);
      assert a[i] in b;
      var j :| 0 <= j < |b| && b[j] == a[i];
      AsMapValue(b, j);
    }
  }
}
