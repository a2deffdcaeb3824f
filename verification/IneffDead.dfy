/** When the value of an assignment in the block graph is dead, in terms of the operation
    lists of blocks and of searches through the graph. */
module IneffDead {
  import opened IneffGraph
  import opened IneffLang
  import opened IneffGrowth

  /** The operations of a block on one variable. */
  function OpsOn(ops: seq<Op>, x: Var): seq<Op> {
    if ops == [] then []
    else if ops[|ops| - 1].x == x then OpsOn(ops[..|ops| - 1], x) + [ops[|ops| - 1]]
    else OpsOn(ops[..|ops| - 1], x)
  }

  lemma OpsOnSnoc(ops: seq<Op>, o: Op, x: Var)
    ensures OpsOn(ops + [o], x) == OpsOn(ops, x) + (if o.x == x then [o] else [])
  {
    assert (ops + [o])[..|ops + [o]| - 1] == ops;
  }

  lemma {:induction false} OpsOnConcat(s: seq<Op>, t: seq<Op>, x: Var)
    ensures OpsOn(s + t, x) == OpsOn(s, x) + OpsOn(t, x)
    decreases |t|
  {
    if t == [] {
      assert s + t == s;
    } else {
      var t', o := t[..|t| - 1], t[|t| - 1];
      assert s + t == (s + t') + [o] && t == t' + [o];
      OpsOnSnoc(s + t', o, x);
      OpsOnSnoc(t', o, x);
      OpsOnConcat(s, t', x);
    }
  }

  lemma {:induction false} OpsOnNone(ops: seq<Op>, x: Var)
    ensures OpsOn(ops, x) == [] <==> forall i :: 0 <= i < |ops| ==> ops[i].x != x
    decreases |ops|
  {
    if ops != [] { OpsOnNone(ops[..|ops| - 1], x); }
  }

  /** The operation of `x` that comes first. */
  lemma OpsOnFirst(ops: seq<Op>, x: Var, i: nat)
    requires i < |ops| && ops[i].x == x && forall j :: 0 <= j < i ==> ops[j].x != x
    ensures OpsOn(ops, x) != [] && OpsOn(ops, x)[0] == ops[i]
  {
    assert ops == ops[..i] + ([ops[i]] + ops[i + 1..]);
    OpsOnConcat(ops[..i], [ops[i]] + ops[i + 1..], x);
    OpsOnConcat([ops[i]], ops[i + 1..], x);
    OpsOnNone(ops[..i], x);
    assert [ops[i]] == [] + [ops[i]];
    OpsOnSnoc([], ops[i], x);
  }

  /** What follows position `i` of a block is found after the operations before it. */
  lemma OpsOnRest(ops: seq<Op>, x: Var, i: nat)
    requires i <= |ops|
    ensures OpsOn(ops, x) == OpsOn(ops[..i], x) + OpsOn(ops[i..], x)
  {
    assert ops == ops[..i] + ops[i..];
    OpsOnConcat(ops[..i], ops[i..], x);
  }

  /** A variable that has operations has a first one. */
  lemma {:induction false} FirstOn(ops: seq<Op>, x: Var) returns (i: nat)
    requires OpsOn(ops, x) != []
    ensures i < |ops| && ops[i].x == x && forall j :: 0 <= j < i ==> ops[j].x != x
    decreases |ops|
  {
    var p := ops[..|ops| - 1];
    OpsOnNone(p, x);
    if OpsOn(p, x) == [] {
      i := |ops| - 1;
    } else {
      i := FirstOn(p, x);
    }
  }

  // ----- the value at the start of a block -----

  /** Along a block without operations on `x`. */
  lemma {:induction false} ReachOver(g: Graph, x: Var, b: nat, i: nat, j: nat)
    requires b < |g| && i <= j <= |g[b].ops| && forall k :: i <= k < j ==> g[b].ops[k].x != x
    ensures Reach(g, x, Pos(b, i), Pos(b, j))
    decreases j - i
  {
    if i == j {
      ReachSelf(g, x, Pos(b, i));
    } else {
      ReachOver(g, x, b, i, j - 1);
      ReachStep(g, x, Pos(b, j - 1), Pos(b, j));
      ReachTrans(g, x, Pos(b, i), Pos(b, j - 1), Pos(b, j));
    }
  }

  /** If the rest of the block starts with a use, the value is used; ... */
  lemma UsedHere(g: Graph, x: Var, b: nat, i: nat)
    requires b < |g| && i <= |g[b].ops|
    requires OpsOn(g[b].ops[i..], x) != [] && OpsOn(g[b].ops[i..], x)[0].Use?
    ensures Used(g, x, Pos(b, i))
  {
    var rest := g[b].ops[i..];
    var k := FirstOn(rest, x);
    OpsOnFirst(rest, x, k);
    forall j | i <= j < i + k
      ensures g[b].ops[j].x != x
    {
      assert rest[j - i] == g[b].ops[j];
    }
    ReachOver(g, x, b, i, i + k);
    assert UseAt(g, x, Pos(b, i + k));
  }

  /** ... if it has no operation and a successor uses it, too. */
  lemma UsedBelow(g: Graph, x: Var, b: nat, i: nat, c: nat)
    requires b < |g| && i <= |g[b].ops| && OpsOn(g[b].ops[i..], x) == []
    requires EdgeTo(g, b, c) && Used(g, x, Pos(c, 0))
    ensures Used(g, x, Pos(b, i))
  {
    OpsOnNone(g[b].ops[i..], x);
    forall j | i <= j < |g[b].ops|
      ensures g[b].ops[j].x != x
    {
      assert g[b].ops[i..][j - i] == g[b].ops[j];
    }
    var e := Pos(b, |g[b].ops|);
    ReachOver(g, x, b, i, |g[b].ops|);
    ReachStep(g, x, e, Pos(c, 0));
    ReachTrans(g, x, Pos(b, i), e, Pos(c, 0));
    UsedBack(g, x, Pos(b, i), Pos(c, 0));
  }

  // ----- searches -----

  /** A search for uses of `x` is through with block `v`: it starts with an assignment to `x`,
      or it does not touch `x` and all its successors have been seen. */
  ghost predicate Through(g: Graph, x: Var, seen: set<nat>, v: nat) {
    v < |g| &&
    if OpsOn(g[v].ops, x) != [] then OpsOn(g[v].ops, x)[0].Assign?
    else forall c :: c in g[v].children ==> c in seen
  }

  /** A position that the search has passed. */
  ghost predicate Passed(g: Graph, x: Var, seen: set<nat>, a: Pos) {
    a.blk in seen && InGraph(g, a) && forall i :: 0 <= i < a.ix ==> g[a.blk].ops[i].x != x
  }

  lemma PassedStep(g: Graph, x: Var, seen: set<nat>, a: Pos, b: Pos)
    requires forall v :: v in seen ==> Through(g, x, seen, v)
    requires Passed(g, x, seen, a) && Step(g, x, a, b)
    ensures Passed(g, x, seen, b)
  {
    if AtEnd(g, a) {
      OpsOnNone(g[a.blk].ops, x);
      assert Through(g, x, seen, a.blk);
    }
  }

  lemma {:induction false} PassedPath(g: Graph, x: Var, seen: set<nat>, p: seq<Pos>, k: nat)
    requires forall v :: v in seen ==> Through(g, x, seen, v)
    requires IsPath(g, x, p) && Passed(g, x, seen, p[0]) && k < |p|
    ensures Passed(g, x, seen, p[k])
    decreases k
  {
    if k > 0 {
      PassedPath(g, x, seen, p, k - 1);
      assert Step(g, x, p[k - 1], p[k]);
      PassedStep(g, x, seen, p[k - 1], p[k]);
    }
  }

  /** A search that is through with all it has seen has found that nothing is used. */
  lemma SeenNotUsed(g: Graph, x: Var, seen: set<nat>, b: nat)
    requires (forall v :: v in seen ==> Through(g, x, seen, v)) && b in seen
    ensures !Used(g, x, Pos(b, 0))
  {
    if c :| Reach(g, x, Pos(b, 0), c) && UseAt(g, x, c) {
      var p :| IsPath(g, x, p) && p[0] == Pos(b, 0) && p[|p| - 1] == c;
      assert Through(g, x, seen, b);
      PassedPath(g, x, seen, p, |p| - 1);
      OpsOnFirst(g[c.blk].ops, x, c.ix);
      assert Through(g, x, seen, c.blk);
    }
  }

  /** The value at a position is used iff the rest of the block starts with a use, or does not
      touch the variable and a successor uses it. */
  lemma UsedCases(g: Graph, x: Var, b: nat, i: nat)
    requires b < |g| && i <= |g[b].ops|
    ensures var rest := OpsOn(g[b].ops[i..], x);
            Used(g, x, Pos(b, i)) <==>
              if rest != [] then rest[0].Use? else exists c :: EdgeTo(g, b, c) && Used(g, x, Pos(c, 0))
  {
    var rest := OpsOn(g[b].ops[i..], x);
    if rest != [] && rest[0].Use? { UsedHere(g, x, b, i); }
    if rest == [] && exists c :: EdgeTo(g, b, c) && Used(g, x, Pos(c, 0)) {
      var c :| EdgeTo(g, b, c) && Used(g, x, Pos(c, 0));
      UsedBelow(g, x, b, i, c);
    }
    if Used(g, x, Pos(b, i)) {
      var e :| Reach(g, x, Pos(b, i), e) && UseAt(g, x, e);
      var p :| IsPath(g, x, p) && p[0] == Pos(b, i) && p[|p| - 1] == e;
      UsedByPath(g, x, b, i, p);
    }
  }

  lemma {:induction false} UsedByPath(g: Graph, x: Var, b: nat, i: nat, p: seq<Pos>)
    requires b < |g| && i <= |g[b].ops| && IsPath(g, x, p) && p[0] == Pos(b, i) && UseAt(g, x, p[|p| - 1])
    ensures var rest := OpsOn(g[b].ops[i..], x);
            if rest != [] then rest[0].Use? else exists c :: EdgeTo(g, b, c) && Used(g, x, Pos(c, 0))
    decreases |p|
  {
    var ops := g[b].ops[i..];
    if |p| == 1 {
      OpsOnFirst(ops, x, 0);
    } else {
      assert Step(g, x, p[0], p[1]);
      var q := p[1..];
      forall k | 0 <= k < |q| - 1
        ensures Step(g, x, q[k], q[k + 1])
      {
        assert Step(g, x, p[k + 1], p[k + 2]);
      }
      if ops == [] {
        var c := p[1].blk;
        assert Reach(g, x, Pos(c, 0), q[|q| - 1]);
        assert EdgeTo(g, b, c) && Used(g, x, Pos(c, 0));
      } else {
        assert ops == [ops[0]] + g[b].ops[i + 1..];
        OpsOnConcat([ops[0]], g[b].ops[i + 1..], x);
        OpsOnNone([ops[0]], x);
        UsedByPath(g, x, b, i + 1, q);
      }
    }
  }

  /** Operation `q` of a block in the list of its variable. */
  lemma InList(ops: seq<Op>, q: nat)
    requires q < |ops|
    ensures var l := OpsOn(ops, ops[q].x);
            var k := |OpsOn(ops[..q], ops[q].x)|;
            k < |l| && l[k] == ops[q] && l[k + 1..] == OpsOn(ops[q + 1..], ops[q].x)
  {
    var x := ops[q].x;
    OpsOnRest(ops, x, q);
    assert ops[q..] == [ops[q]] + ops[q + 1..];
    OpsOnConcat([ops[q]], ops[q + 1..], x);
    OpsOnSnoc([], ops[q], x);
    assert [] + [ops[q]] == [ops[q]];
  }

  /** Every entry of the list of a variable is an operation of the block. */
  lemma {:induction false} FromList(ops: seq<Op>, x: Var, k: nat) returns (q: nat)
    requires k < |OpsOn(ops, x)|
    ensures q < |ops| && ops[q].x == x && k == |OpsOn(ops[..q], x)|
    decreases |ops|
  {
    var p := ops[..|ops| - 1];
    if k < |OpsOn(p, x)| {
      q := FromList(p, x, k);
      assert ops[..q] == p[..q];
    } else {
      q := |ops| - 1;
    }
  }

  /** Entry `k` of the list of `x` in block `b` is an assignment whose value is never read. */
  ghost predicate DeadAt(g: Graph, x: Var, b: nat, k: nat)
    requires b < |g| && k < |OpsOn(g[b].ops, x)|
  {
    var l := OpsOn(g[b].ops, x);
    l[k].Assign? && if k + 1 < |l| then l[k + 1].Assign? else forall c :: EdgeTo(g, b, c) ==> !Used(g, x, Pos(c, 0))
  }

  /** Block `b` holds the assignment `id` to a variable that does not escape, and no use of its
      value can be reached. */
  ghost predicate IsDead(g: Graph, escapes: set<Var>, b: nat, id: int) {
    exists x, c: Pos :: x !in escapes && c.blk == b && After(g, x, id, c) && !Used(g, x, c)
  }

  ghost predicate DeadOn(g: Graph, b: nat, x: Var, id: int) {
    b < |g| && exists k :: 0 <= k < |OpsOn(g[b].ops, x)| && DeadAt(g, x, b, k) && OpsOn(g[b].ops, x)[k].id == id
  }

  lemma DeadEntry(g: Graph, x: Var, b: nat, q: nat)
    requires b < |g| && q < |g[b].ops| && g[b].ops[q].x == x
    ensures var k := |OpsOn(g[b].ops[..q], x)|;
            k < |OpsOn(g[b].ops, x)| && OpsOn(g[b].ops, x)[k] == g[b].ops[q]
            && (DeadAt(g, x, b, k) <==> g[b].ops[q].Assign? && !Used(g, x, Pos(b, q + 1)))
  {
    InList(g[b].ops, q);
    UsedCases(g, x, b, q + 1);
    var l, k := OpsOn(g[b].ops, x), |OpsOn(g[b].ops[..q], x)|;
    assert k + 1 < |l| ==> l[k + 1..][0] == l[k + 1];
  }

  /** The two ways to say that an assignment is dead agree. */
  lemma DeadIff(g: Graph, escapes: set<Var>, b: nat, id: int)
    requires b < |g|
    ensures IsDead(g, escapes, b, id) <==> exists x :: x !in escapes && DeadOn(g, b, x, id)
  {
    if IsDead(g, escapes, b, id) {
      var x, c: Pos :| x !in escapes && c.blk == b && After(g, x, id, c) && !Used(g, x, c);
      DeadEntry(g, x, b, c.ix - 1);
      assert DeadOn(g, b, x, id);
    }
    if x :| x !in escapes && DeadOn(g, b, x, id) {
      var k :| 0 <= k < |OpsOn(g[b].ops, x)| && DeadAt(g, x, b, k) && OpsOn(g[b].ops, x)[k].id == id;
      var q := FromList(g[b].ops, x, k);
      DeadEntry(g, x, b, q);
      assert After(g, x, id, Pos(b, q + 1));
    }
  }

  // ----- the blocks that a check visits -----

  ghost predicate IsWalk(g: Graph, p: seq<nat>) {
    p != [] && p[0] < |g| && forall k :: 0 <= k < |p| - 1 ==> EdgeTo(g, p[k], p[k + 1])
  }

  /** Block `c` can be reached from block `b`. */
  ghost predicate Connected(g: Graph, b: nat, c: nat) {
    exists p :: IsWalk(g, p) && p[0] == b && p[|p| - 1] == c
  }

  lemma ConnectedSelf(g: Graph, b: nat)
    requires b < |g|
    ensures Connected(g, b, b)
  {
    assert IsWalk(g, [b]);
  }

  lemma ConnectedBelow(g: Graph, b: nat, c: nat, d: nat)
    requires EdgeTo(g, b, c) && Connected(g, c, d)
    ensures Connected(g, b, d)
  {
    var p :| IsWalk(g, p) && p[0] == c && p[|p| - 1] == d;
    var q := [b] + p;
    forall k | 0 <= k < |q| - 1
      ensures EdgeTo(g, q[k], q[k + 1])
    {
      assert k > 0 ==> EdgeTo(g, p[k - 1], p[k]);
    }
    assert IsWalk(g, q) && q[0] == b && q[|q| - 1] == d;
  }

  /** A set of blocks with all their successors holds all that can be reached from it. */
  lemma ClosedHasConnected(g: Graph, s: set<nat>, b: nat, c: nat)
    requires b in s && Connected(g, b, c)
    requires forall v, w {:trigger EdgeTo(g, v, w)} :: v in s && EdgeTo(g, v, w) ==> w in s
    ensures c in s
  {
    var p :| IsWalk(g, p) && p[0] == b && p[|p| - 1] == c;
    for k := 1 to |p|
      invariant p[k - 1] in s
    {
      assert EdgeTo(g, p[k - 1], p[k]);
    }
  }
}
