/** The block graph of ineffassign as a value: positions between operations, and when the
    value a variable has at a position may still be read. */
module IneffGraph {

  type Var = int

  /** An operation on a variable; `id` tells assignments apart. */
  datatype Op = Use(x: Var) | Assign(x: Var, id: int)

  datatype BlockV = BlockV(ops: seq<Op>, children: seq<nat>)

  type Graph = seq<BlockV>

  /** The position before operation `ix` of a block, or at its end. */
  datatype Pos = Pos(blk: nat, ix: nat)

  predicate InGraph(g: Graph, a: Pos) {
    a.blk < |g| && a.ix <= |g[a.blk].ops|
  }

  predicate AtEnd(g: Graph, a: Pos) {
    a.blk < |g| && a.ix == |g[a.blk].ops|
  }

  predicate EdgeTo(g: Graph, b: nat, c: nat) {
    b < |g| && c < |g| && c in g[b].children
  }

  /** One step that does not touch `x`. */
  predicate Step(g: Graph, x: Var, a: Pos, b: Pos) {
    InGraph(g, a) && InGraph(g, b) &&
    if AtEnd(g, a) then b.ix == 0 && EdgeTo(g, a.blk, b.blk)
    else b == Pos(a.blk, a.ix + 1) && g[a.blk].ops[a.ix].x != x
  }

  ghost predicate IsPath(g: Graph, x: Var, p: seq<Pos>) {
    p != [] && InGraph(g, p[0]) && forall k :: 0 <= k < |p| - 1 ==> Step(g, x, p[k], p[k + 1])
  }

  /** Position `b` can be reached from `a` without an operation on `x`. */
  ghost predicate Reach(g: Graph, x: Var, a: Pos, b: Pos) {
    exists p :: IsPath(g, x, p) && p[0] == a && p[|p| - 1] == b
  }

  predicate UseAt(g: Graph, x: Var, b: Pos) {
    b.blk < |g| && b.ix < |g[b.blk].ops| && g[b.blk].ops[b.ix] == Use(x)
  }

  /** The value that `x` has at `a` may be read. */
  ghost predicate Used(g: Graph, x: Var, a: Pos) {
    exists b :: Reach(g, x, a, b) && UseAt(g, x, b)
  }

  lemma ReachSelf(g: Graph, x: Var, a: Pos)
    requires InGraph(g, a)
    ensures Reach(g, x, a, a)
  {
    assert IsPath(g, x, [a]);
  }

  lemma ReachStep(g: Graph, x: Var, a: Pos, b: Pos)
    requires Step(g, x, a, b)
    ensures Reach(g, x, a, b)
  {
    assert IsPath(g, x, [a, b]);
  }

  lemma ReachTrans(g: Graph, x: Var, a: Pos, b: Pos, c: Pos)
    requires Reach(g, x, a, b) && Reach(g, x, b, c)
    ensures Reach(g, x, a, c)
  {
    var p :| IsPath(g, x, p) && p[0] == a && p[|p| - 1] == b;
    var q :| IsPath(g, x, q) && q[0] == b && q[|q| - 1] == c;
    var r := p + q[1..];
    forall k | 0 <= k < |r| - 1
      ensures Step(g, x, r[k], r[k + 1])
    {
      if k >= |p| - 1 {
        assert r[k] == q[k - (|p| - 1)] && r[k + 1] == q[k + 1 - (|p| - 1)];
      }
    }
    assert IsPath(g, x, r) && r[0] == a && r[|r| - 1] == c;
  }

  lemma UsedBack(g: Graph, x: Var, a: Pos, b: Pos)
    requires Reach(g, x, a, b) && Used(g, x, b)
    ensures Used(g, x, a)
  {
    var c :| Reach(g, x, b, c) && UseAt(g, x, c);
    ReachTrans(g, x, a, b, c);
  }

  /** What is known of a piece of execution from `a` to `b` without an operation on `x`:
      the graph leads from `a` to `b` as well, or it reads `x` on the way. */
  ghost predicate Leads(g: Graph, x: Var, a: Pos, b: Pos) {
    Used(g, x, a) || Reach(g, x, a, b)
  }

  lemma LeadsSelf(g: Graph, x: Var, a: Pos)
    requires InGraph(g, a)
    ensures Leads(g, x, a, a)
  {
    ReachSelf(g, x, a);
  }

  lemma LeadsTrans(g: Graph, x: Var, a: Pos, b: Pos, c: Pos)
    requires Leads(g, x, a, b) && Leads(g, x, b, c)
    ensures Leads(g, x, a, c)
  {
    if Reach(g, x, a, b) {
      if Used(g, x, b) { UsedBack(g, x, a, b); } else { ReachTrans(g, x, a, b, c); }
    }
  }

  lemma LeadsUsed(g: Graph, x: Var, a: Pos, b: Pos)
    requires Leads(g, x, a, b) && Used(g, x, b)
    ensures Used(g, x, a)
  {
    if Reach(g, x, a, b) { UsedBack(g, x, a, b); }
  }

  lemma LeadsEdge(g: Graph, x: Var, a: Pos, c: nat)
    requires AtEnd(g, a) && EdgeTo(g, a.blk, c)
    ensures Leads(g, x, a, Pos(c, 0))
  {
    ReachStep(g, x, a, Pos(c, 0));
  }

  // ----- executions -----

  /** What an execution last did with `x`: nothing, a use, or an assignment. */
  datatype Last = Nothing | WasUse | WasAssign(id: int)

  function LastOp(tr: seq<Op>, x: Var): Last {
    if tr == [] then Nothing
    else
      var o := tr[|tr| - 1];
      if o.x != x then LastOp(tr[..|tr| - 1], x)
      else if o.Use? then WasUse else WasAssign(o.id)
  }

  /** The position right after an assignment. */
  ghost predicate After(g: Graph, x: Var, id: int, c: Pos) {
    c.blk < |g| && 0 < c.ix <= |g[c.blk].ops| && g[c.blk].ops[c.ix - 1] == Assign(x, id)
  }

  /** An execution from `a` has done `tr` and is where the graph has position `b`. */
  ghost predicate Arrives(g: Graph, x: Var, a: Pos, tr: seq<Op>, b: Pos) {
    match LastOp(tr, x)
    case Nothing => Leads(g, x, a, b)
    case WasUse => true
    case WasAssign(id) => exists c :: After(g, x, id, c) && Leads(g, x, c, b)
  }

  /** The assignment is followed by a use in the graph. */
  ghost predicate ReadLater(g: Graph, x: Var, id: int) {
    exists c :: After(g, x, id, c) && Used(g, x, c)
  }

  /** A use right after `tr`, in an execution from `a`, is known to the graph. */
  ghost predicate Foreseen(g: Graph, x: Var, a: Pos, tr: seq<Op>) {
    match LastOp(tr, x)
    case Nothing => Used(g, x, a)
    case WasUse => true
    case WasAssign(id) => ReadLater(g, x, id)
  }

  /** Every use of `x` in the execution is known to the graph. */
  ghost predicate UsesForeseen(g: Graph, x: Var, a: Pos, tr: seq<Op>) {
    forall j :: 0 <= j < |tr| && tr[j] == Use(x) ==> Foreseen(g, x, a, tr[..j])
  }

  lemma {:induction false} LastOpConcat(s: seq<Op>, t: seq<Op>, x: Var)
    ensures LastOp(s + t, x) == if LastOp(t, x) == Nothing then LastOp(s, x) else LastOp(t, x)
    decreases |t|
  {
    if t == [] {
      assert s + t == s;
    } else {
      assert (s + t)[..|s + t| - 1] == s + t[..|t| - 1];
      LastOpConcat(s, t[..|t| - 1], x);
    }
  }

  /** Executions compose. */
  lemma ArrivesConcat(g: Graph, x: Var, a: Pos, s: seq<Op>, b: Pos, t: seq<Op>, c: Pos)
    requires Arrives(g, x, a, s, b) && Arrives(g, x, b, t, c)
    ensures Arrives(g, x, a, s + t, c)
  {
    LastOpConcat(s, t, x);
    if LastOp(t, x) == Nothing {
      match LastOp(s, x)
      case Nothing => LeadsTrans(g, x, a, b, c);
      case WasUse =>
      case WasAssign(id) =>
        var p :| After(g, x, id, p) && Leads(g, x, p, b);
        LeadsTrans(g, x, p, b, c);
    }
  }

  lemma ForeseenConcat(g: Graph, x: Var, a: Pos, s: seq<Op>, b: Pos, t: seq<Op>)
    requires Arrives(g, x, a, s, b) && Foreseen(g, x, b, t)
    ensures Foreseen(g, x, a, s + t)
  {
    LastOpConcat(s, t, x);
    if LastOp(t, x) == Nothing {
      match LastOp(s, x)
      case Nothing => LeadsUsed(g, x, a, b);
      case WasUse =>
      case WasAssign(id) =>
        var p :| After(g, x, id, p) && Leads(g, x, p, b);
        LeadsUsed(g, x, p, b);
    }
  }

  lemma UsesForeseenConcat(g: Graph, x: Var, a: Pos, s: seq<Op>, b: Pos, t: seq<Op>)
    requires UsesForeseen(g, x, a, s) && Arrives(g, x, a, s, b) && UsesForeseen(g, x, b, t)
    ensures UsesForeseen(g, x, a, s + t)
  {
    forall j | 0 <= j < |s + t| && (s + t)[j] == Use(x)
      ensures Foreseen(g, x, a, (s + t)[..j])
    {
      if j < |s| {
        assert (s + t)[..j] == s[..j];
      } else {
        assert (s + t)[..j] == s + t[..j - |s|];
        ForeseenConcat(g, x, a, s, b, t[..j - |s|]);
      }
    }
  }

  /** The operations of a block, executed in order. */
  lemma {:induction false} BlockRun(g: Graph, x: Var, b: nat, i: nat, j: nat)
    requires b < |g| && i <= j <= |g[b].ops|
    ensures Arrives(g, x, Pos(b, i), g[b].ops[i..j], Pos(b, j))
    ensures UsesForeseen(g, x, Pos(b, i), g[b].ops[i..j])
    decreases j - i
  {
    var tr := g[b].ops[i..j];
    if i == j {
      LeadsSelf(g, x, Pos(b, i));
    } else {
      var s := g[b].ops[i..j - 1];
      var o := g[b].ops[j - 1];
      BlockRun(g, x, b, i, j - 1);
      assert tr == s + [o];
      OneOp(g, x, Pos(b, j - 1), o);
      ArrivesConcat(g, x, Pos(b, i), s, Pos(b, j - 1), [o], Pos(b, j));
      UsesForeseenConcat(g, x, Pos(b, i), s, Pos(b, j - 1), [o]);
    }
  }

  lemma OneOp(g: Graph, x: Var, a: Pos, o: Op)
    requires a.blk < |g| && a.ix < |g[a.blk].ops| && o == g[a.blk].ops[a.ix]
    ensures Arrives(g, x, a, [o], Pos(a.blk, a.ix + 1)) && UsesForeseen(g, x, a, [o])
  {
    var b := Pos(a.blk, a.ix + 1);
    assert [o][..0] == [] && [o][..|[o]| - 1] == [];
    assert LastOp([], x) == Nothing;
    if o.x != x {
      ReachStep(g, x, a, b);
    } else if o.Assign? {
      LeadsSelf(g, x, b);
      assert After(g, x, o.id, b);
    } else {
      ReachSelf(g, x, a);
      assert UseAt(g, x, a);
    }
  }
}
