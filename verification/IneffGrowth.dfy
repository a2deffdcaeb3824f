/** How the graph grows while statements are added to it. */
module IneffGrowth {
  import opened Options
  import opened IneffGraph
  import opened IneffLang
  import opened IneffLayout

  function AddOps(g: Graph, b: nat, ops: seq<Op>): (g': Graph)
    requires b < |g|
    ensures |g'| == |g|
  {
    g[b := BlockV(g[b].ops + ops, g[b].children)]
  }

  function AddEdge(g: Graph, b: nat, c: nat): (g': Graph)
    requires b < |g|
    ensures |g'| == |g|
  {
    g[b := BlockV(g[b].ops, g[b].children + [c])]
  }

  function SetOf(s: seq<nat>): set<nat> {
    set i | i in s
  }

  /** Edges from all of `from` to `c`. */
  function AddEdges(g: Graph, from: seq<nat>, c: nat): (g': Graph)
    requires forall k :: 0 <= k < |from| ==> from[k] < |g|
    ensures |g'| == |g|
  {
    if from == [] then g else AddEdge(AddEdges(g, from[..|from| - 1], c), from[|from| - 1], c)
  }

  /** A new block below all of `from`. */
  function AddBlock(g: Graph, from: seq<nat>): (g': Graph)
    requires forall k :: 0 <= k < |from| ==> from[k] < |g|
    ensures |g'| == |g| + 1
  {
    AddEdges(g + [BlockV([], [])], from, |g|)
  }

  /** The position at the end of the newest block. */
  function HereIn(g: Graph): Pos
    requires |g| > 0
  {
    Pos(|g| - 1, |g[|g| - 1].ops|)
  }

  /** `g'` has all blocks of `g` with the same operations, and maybe more blocks and edges. */
  ghost predicate Extends(g: Graph, g': Graph) {
    Grows(g, g', |g|)
  }

  /** Only the newest block of `g` has got more operations. */
  ghost predicate Continues(g: Graph, g': Graph) {
    |g| > 0 && |g'| > 0 && Grows(g, g', |g| - 1)
  }

  lemma ExtendsTrans(g: Graph, g': Graph, g'': Graph)
    requires Extends(g, g') && Extends(g', g'')
    ensures Extends(g, g'')
  {}

  lemma ContinuesTrans(g: Graph, g': Graph, g'': Graph)
    requires Continues(g, g') && Continues(g', g'')
    ensures Continues(g, g'')
  {}

  lemma ContinuesExtends(g: Graph, g': Graph, g'': Graph)
    requires Continues(g, g') && Extends(g', g'')
    ensures Continues(g, g'')
  {}

  /** What happens in a new block leaves the older ones alone. */
  lemma ExtendsContinues(g: Graph, g': Graph, g'': Graph)
    requires Extends(g, g') && |g| < |g'| && Continues(g', g'')
    ensures Extends(g, g'')
  {}

  lemma ExtendsGrows(g: Graph, g': Graph, e: nat)
    requires Extends(g, g')
    ensures Grows(g, g', e)
  {}

  lemma AddOpsContinues(g: Graph, ops: seq<Op>)
    requires |g| > 0
    ensures Continues(g, AddOps(g, |g| - 1, ops))
    ensures Holds(AddOps(g, |g| - 1, ops), HereIn(g), ops, HereIn(AddOps(g, |g| - 1, ops)))
  {
    var g' := AddOps(g, |g| - 1, ops);
    forall k, c | EdgeTo(g, k, c)
      ensures EdgeTo(g', k, c)
    {}
  }

  lemma AddOpsTwice(g: Graph, b: nat, s: seq<Op>, t: seq<Op>)
    requires b < |g|
    ensures AddOps(AddOps(g, b, s), b, t) == AddOps(g, b, s + t)
  {
    assert g[b].ops + s + t == g[b].ops + (s + t);
  }

  lemma AddOpsNone(g: Graph, b: nat)
    requires b < |g|
    ensures AddOps(g, b, []) == g
  {
    assert g[b].ops + [] == g[b].ops;
  }

  lemma {:induction false} AddEdgesExtends(g: Graph, from: seq<nat>, c: nat)
    requires c < |g| && forall k :: 0 <= k < |from| ==> from[k] < |g|
    ensures Extends(g, AddEdges(g, from, c))
    ensures forall k :: 0 <= k < |from| ==> EdgeTo(AddEdges(g, from, c), from[k], c)
    ensures forall b :: 0 <= b < |g| ==> AddEdges(g, from, c)[b].ops == g[b].ops
    decreases |from|
  {
    if from != [] {
      var rest, last := from[..|from| - 1], from[|from| - 1];
      AddEdgesExtends(g, rest, c);
      AddEdgeExtends(AddEdges(g, rest, c), last, c);
      forall k | 0 <= k < |from|
        ensures EdgeTo(AddEdges(g, from, c), from[k], c)
      {
        if k < |rest| { assert EdgeTo(AddEdges(g, rest, c), rest[k], c); }
      }
    }
  }

  lemma AddEdgeExtends(g: Graph, b: nat, c: nat)
    requires b < |g| && c < |g|
    ensures Extends(g, AddEdge(g, b, c)) && EdgeTo(AddEdge(g, b, c), b, c)
  {
    assert c == (g[b].children + [c])[|g[b].children|];
  }

  lemma AddBlockExtends(g: Graph, from: seq<nat>)
    requires forall k :: 0 <= k < |from| ==> from[k] < |g|
    ensures Extends(g, AddBlock(g, from)) && |AddBlock(g, from)| == |g| + 1
    ensures forall k :: 0 <= k < |from| ==> EdgeTo(AddBlock(g, from), from[k], |g|)
    ensures Full(AddBlock(g, from), |g|, [])
  {
    var g' := g + [BlockV([], [])];
    forall k, c | EdgeTo(g, k, c)
      ensures EdgeTo(g', k, c)
    {}
    assert Extends(g, g');
    AddEdgesExtends(g', from, |g|);
    ExtendsTrans(g, g', AddBlock(g, from));
  }

  lemma WidensTrans(e: Env, e': Env, e'': Env)
    requires Widens(e, e') && Widens(e', e'')
    ensures Widens(e, e'')
  {}

  /** Later graphs and environments still lay out the statement. */
  lemma WalkLater(g: Graph, g': Graph, env: Env, env': Env, s: Stmt, l: Option<Label>, lay: Lay, a: Pos, b: Pos)
    requires Widens(env, env') && Walk(g, env, s, l, lay, a, b) && Extends(g, g')
    ensures Walk(g', env', s, l, lay, a, b)
    ensures AtEnd(g, b) ==> AtEnd(g', b)
  {
    ExtendsGrows(g, g', b.blk);
    WalkGrows(g, g', env, env', s, l, lay, a, b);
  }

  lemma HoldsLater(g: Graph, g': Graph, a: Pos, ops: seq<Op>, b: Pos)
    requires Holds(g, a, ops, b) && Extends(g, g')
    ensures Holds(g', a, ops, b) && (AtEnd(g, b) ==> AtEnd(g', b))
  {
    HoldsGrows(g, g', |g|, a, ops, b);
  }

  // ----- the assignments of a graph -----

  function AllIds(g: Graph): multiset<int> {
    if g == [] then multiset{} else AllIds(g[..|g| - 1]) + multiset(OpIds(g[|g| - 1].ops))
  }

  lemma {:induction false} OpIdsConcat(s: seq<Op>, t: seq<Op>)
    ensures OpIds(s + t) == OpIds(s) + OpIds(t)
    decreases |s|
  {
    if s == [] {
      assert s + t == t;
    } else {
      assert (s + t)[0] == s[0] && (s + t)[1..] == s[1..] + t;
      OpIdsConcat(s[1..], t);
      assert OpIds(s + t) == (if s[0].Assign? then [s[0].id] else []) + OpIds(s[1..] + t);
    }
  }

  lemma {:induction false} AllIdsAddOps(g: Graph, b: nat, ops: seq<Op>)
    requires b < |g|
    ensures AllIds(AddOps(g, b, ops)) == AllIds(g) + multiset(OpIds(ops))
    decreases |g|
  {
    var n := |g| - 1;
    var g' := AddOps(g, b, ops);
    if b == n {
      assert g'[..n] == g[..n];
      OpIdsConcat(g[b].ops, ops);
    } else {
      assert g'[..n] == AddOps(g[..n], b, ops);
      AllIdsAddOps(g[..n], b, ops);
    }
  }

  lemma {:induction false} AllIdsSame(g: Graph, g': Graph)
    requires |g| == |g'| && forall b :: 0 <= b < |g| ==> g[b].ops == g'[b].ops
    ensures AllIds(g) == AllIds(g')
    decreases |g|
  {
    if g != [] {
      AllIdsSame(g[..|g| - 1], g'[..|g| - 1]);
    }
  }

  lemma AllIdsAddBlock(g: Graph, from: seq<nat>)
    requires forall k :: 0 <= k < |from| ==> from[k] < |g|
    ensures AllIds(AddBlock(g, from)) == AllIds(g)
  {
    var g' := g + [BlockV([], [])];
    assert g'[..|g|] == g;
    AddEdgesExtends(g', from, |g|);
    AllIdsSame(g', AddBlock(g, from));
  }

  /** An assignment in the graph is counted. */
  lemma {:induction false} AllIdsHas(g: Graph, b: nat, i: nat)
    requires b < |g| && i < |g[b].ops| && g[b].ops[i].Assign?
    ensures AllIds(g)[g[b].ops[i].id] >= 1
    decreases |g|
  {
    if b == |g| - 1 {
      OpIdsHas(g[b].ops, i);
    } else {
      AllIdsHas(g[..|g| - 1], b, i);
    }
  }

  lemma {:induction false} OpIdsHas(ops: seq<Op>, i: nat)
    requires i < |ops| && ops[i].Assign?
    ensures multiset(OpIds(ops))[ops[i].id] >= 1
    ensures forall j :: i < j < |ops| && ops[j].Assign? && ops[j].id == ops[i].id ==>
        multiset(OpIds(ops))[ops[i].id] >= 2
    decreases |ops|
  {
    if i == 0 {
      forall j | 0 < j < |ops| && ops[j].Assign? && ops[j].id == ops[i].id
        ensures multiset(OpIds(ops))[ops[i].id] >= 2
      {
        OpIdsHas(ops[1..], j - 1);
      }
    } else {
      OpIdsHas(ops[1..], i - 1);
      forall j | i < j < |ops| && ops[j].Assign? && ops[j].id == ops[i].id
        ensures multiset(OpIds(ops))[ops[i].id] >= 2
      {
        assert ops[1..][j - 1] == ops[j];
      }
    }
  }

  lemma OneInBlock(ops: seq<Op>, id: int, i: nat, j: nat)
    requires multiset(OpIds(ops))[id] <= 1
    requires i < |ops| && ops[i].Assign? && ops[i].id == id && j < |ops| && ops[j].Assign? && ops[j].id == id
    ensures i == j
  {
    OpIdsHas(ops, i);
    OpIdsHas(ops, j);
  }

  /** If every identity is used once, an assignment has one place in the graph. */
  lemma {:induction false} OnePlace(g: Graph, id: int, b: nat, i: nat, c: nat, j: nat)
    requires AllIds(g)[id] <= 1
    requires b < |g| && i < |g[b].ops| && g[b].ops[i].Assign? && g[b].ops[i].id == id
    requires c < |g| && j < |g[c].ops| && g[c].ops[j].Assign? && g[c].ops[j].id == id
    ensures b == c && i == j
    decreases |g|
  {
    hide OpIds;
    var n := |g| - 1;
    if b == n && c == n {
      OneInBlock(g[n].ops, id, i, j);
    } else if b == n {
      OpIdsHas(g[b].ops, i);
      AllIdsHas(g[..n], c, j);
    } else if c == n {
      OpIdsHas(g[c].ops, j);
      AllIdsHas(g[..n], b, i);
    } else {
      OnePlace(g[..n], id, b, i, c, j);
    }
  }

  // ----- putting layouts together -----

  lemma WalkThen(g1: Graph, g: Graph, env1: Env, env: Env, s1: Stmt, s2: Stmt, l1: Lay, l2: Lay, a: Pos,
      l: Option<Label>)
    requires |g1| > 0 && Continues(g1, g) && Widens(env1, env)
    requires Walk(g1, env1, s1, None, l1, a, HereIn(g1))
    requires Walk(g, env, s2, None, l2, HereIn(g1), HereIn(g))
    ensures Walk(g, env, Then(s1, s2), l, LThen(l1, HereIn(g1), l2), a, HereIn(g))
  {
    WalkGrows(g1, g, env1, env, s1, None, l1, a, HereIn(g1));
  }

  /** A statement that was laid out in a new block below `from`, seen from a later graph. */
  lemma LaidBelow(gc: Graph, from: seq<nat>, g1: Graph, g2: Graph, g: Graph, env2: Env, env: Env, s: Stmt,
      l: Option<Label>, lay: Lay)
    requires forall k :: 0 <= k < |from| ==> from[k] < |gc|
    requires g1 == AddBlock(gc, from) && Continues(g1, g2) && Extends(g2, g) && Widens(env2, env)
    requires Walk(g2, env2, s, l, lay, HereIn(g1), HereIn(g2))
    ensures Extends(gc, g) && HereIn(g1) == Pos(|gc|, 0)
    ensures forall k :: 0 <= k < |from| ==> EdgeTo(g, from[k], |gc|)
    ensures Walk(g, env, s, l, lay, Pos(|gc|, 0), HereIn(g2))
    ensures AtEnd(g, HereIn(g2)) && |gc| <= HereIn(g2).blk == |g2| - 1
  {
    hide Walk;
    AddBlockExtends(gc, from);
    ExtendsContinues(gc, g1, g2);
    ExtendsTrans(gc, g2, g);
    WalkLater(g2, g, env2, env, s, l, lay, HereIn(g1), HereIn(g2));
    forall k | 0 <= k < |from|
      ensures EdgeTo(g, from[k], |gc|)
    {
      assert EdgeTo(g1, from[k], |gc|);
      assert EdgeTo(g2, from[k], |gc|);
    }
  }

  /** Operations in the newest block, seen from a later graph. */
  lemma LaidHere(g0: Graph, ops: seq<Op>, g: Graph)
    requires |g0| > 0 && Extends(AddOps(g0, |g0| - 1, ops), g)
    ensures Holds(g, HereIn(g0), ops, HereIn(AddOps(g0, |g0| - 1, ops)))
    ensures AtEnd(g, HereIn(AddOps(g0, |g0| - 1, ops)))
    ensures Continues(g0, AddOps(g0, |g0| - 1, ops)) && (|g| > 0 ==> Continues(g0, g))
  {
    var g1 := AddOps(g0, |g0| - 1, ops);
    AddOpsContinues(g0, ops);
    HoldsLater(g1, g, HereIn(g0), ops, HereIn(g1));
  }

  /** A block that was filled right after it was made. */
  lemma LaidBlock(gc: Graph, from: seq<nat>, ops: seq<Op>, g: Graph)
    requires forall k :: 0 <= k < |from| ==> from[k] < |gc|
    requires Extends(AddOps(AddBlock(gc, from), |gc|, ops), g)
    ensures Extends(gc, g) && Full(g, |gc|, ops) && forall k :: 0 <= k < |from| ==> EdgeTo(g, from[k], |gc|)
  {
    var g1 := AddBlock(gc, from);
    AddBlockExtends(gc, from);
    var g2 := AddOps(g1, |gc|, ops);
    AddOpsContinues(g1, ops);
    ExtendsContinues(gc, g1, g2);
    ExtendsTrans(gc, g2, g);
    assert [] + ops == ops;
    forall k | 0 <= k < |from|
      ensures EdgeTo(g, from[k], |gc|)
    {
      assert EdgeTo(g1, from[k], |gc|);
      assert EdgeTo(g2, from[k], |gc|);
    }
  }

  lemma UsesHaveNoIds(vs: seq<Var>)
    ensures OpIds(UsesOf(vs)) == []
  {}

  /** A simple statement and a condition after it, in the newest block. */
  lemma CondDone(g0: Graph, ops: seq<Op>, cond: seq<Var>)
    requires |g0| > 0
    ensures AddOps(AddOps(g0, |g0| - 1, ops), |g0| - 1, UsesOf(cond)) == AddOps(g0, |g0| - 1, ops + UsesOf(cond))
    ensures AllIds(AddOps(g0, |g0| - 1, ops + UsesOf(cond))) == AllIds(g0) + multiset(OpIds(ops))
    ensures |AddOps(g0, |g0| - 1, ops)| == |g0|
  {
    hide AllIds, AddOps, OpIds, UsesOf;
    AddOpsTwice(g0, |g0| - 1, ops, UsesOf(cond));
    AllIdsAddOps(g0, |g0| - 1, ops + UsesOf(cond));
    OpIdsConcat(ops, UsesOf(cond));
    UsesHaveNoIds(cond);
    assert OpIds(ops) + [] == OpIds(ops);
  }

  /** `s` has been added to `g0` at the end of its newest block. */
  ghost predicate Visited(g0: Graph, env0: Env, g: Graph, env: Env, s: Stmt, l: Option<Label>, lay: Lay) {
    && Widens(env0, env) && Continues(g0, g)
    && Walk(g, env, s, l, lay, HereIn(g0), HereIn(g))
    && AllIds(g) == AllIds(g0) + multiset(Ids(s))
  }

  /** `s` has been added in new blocks below `from`. */
  ghost predicate LaidOut(g: Graph, from: seq<nat>, g': Graph, env: Env, s: Stmt, l: Option<Label>, lay: Lay) {
    && |g| < |g'| && ValidEnv(env) && Extends(g, g')
    && (forall k :: 0 <= k < |from| ==> EdgeTo(g', from[k], |g|))
    && Walk(g', env, s, l, lay, Pos(|g|, 0), HereIn(g'))
    && AllIds(g') == AllIds(g) + multiset(Ids(s))
  }

  lemma VisitedBelow(g: Graph, from: seq<nat>, g1: Graph, g2: Graph, env0: Env, env: Env, s: Stmt, l: Option<Label>,
      lay: Lay)
    requires forall k :: 0 <= k < |from| ==> from[k] < |g|
    requires g1 == AddBlock(g, from) && Visited(g1, env0, g2, env, s, l, lay)
    ensures LaidOut(g, from, g2, env, s, l, lay) && Widens(env0, env)
  {
    hide Walk;
    WidensSelf(env);
    ExtendsSelf(g2);
    LaidBelow(g, from, g1, g2, g2, env, env, s, l, lay);
    AllIdsAddBlock(g, from);
  }

  lemma WidensSelf(env: Env)
    requires ValidEnv(env)
    ensures Widens(env, env)
  {}

  /** The layout, seen from a later graph. */
  lemma LaidOutLater(g: Graph, from: seq<nat>, g1: Graph, g2: Graph, env1: Env, env2: Env, s: Stmt, l: Option<Label>,
      lay: Lay)
    requires LaidOut(g, from, g1, env1, s, l, lay) && Extends(g1, g2) && Widens(env1, env2)
    ensures Extends(g, g2) && AtEnd(g2, HereIn(g1)) && |g| <= HereIn(g1).blk == |g1| - 1
    ensures forall k :: 0 <= k < |from| ==> EdgeTo(g2, from[k], |g|)
    ensures Walk(g2, env2, s, l, lay, Pos(|g|, 0), HereIn(g1))
  {
    hide Walk;
    ExtendsTrans(g, g1, g2);
    WalkLater(g1, g2, env1, env2, s, l, lay, Pos(|g|, 0), HereIn(g1));
    forall k | 0 <= k < |from|
      ensures EdgeTo(g2, from[k], |g|)
    {
      assert EdgeTo(g1, from[k], |g|);
    }
  }

  /** The pieces of an if statement, one after the other. */
  ghost predicate IfPieces(g0: Graph, gc: Graph, g1: Graph, g2: Graph, g3: Graph, env1: Env, env2: Env, s: Stmt,
      l1: Lay, l2: Lay) {
    && |g0| > 0 && s.If? && IsSimple(s.init) && Widens(env1, env2)
    && gc == AddOps(g0, |g0| - 1, SimpleOps(s.init) + UsesOf(s.cond))
    && LaidOut(gc, [|gc| - 1], g1, env1, s.thn, None, l1)
    && (s.els.None? ==> g2 == g1 && Joined(g1, g2, g3, |gc| - 1))
    && (s.els.Some? ==> LaidOut(g1, [|gc| - 1], g2, env2, s.els.value, None, l2) && Joined(g1, g2, g3, |g2| - 1))
  }

  /** The block after an if statement, below the ends of its two ways. */
  ghost predicate Joined(g1: Graph, g2: Graph, g3: Graph, last: int) {
    0 < |g1| <= |g2| && 0 <= last < |g2| && g3 == AddJoin(g2, last, |g1| - 1)
  }

  lemma LaidOutGrows(g: Graph, from: seq<nat>, g': Graph, env: Env, s: Stmt, l: Option<Label>, lay: Lay)
    requires LaidOut(g, from, g', env, s, l, lay)
    ensures |g| < |g'| && Extends(g, g') && AllIds(g') == AllIds(g) + multiset(Ids(s))
  {
    hide Walk, Extends, AllIds, Ids;
  }

  lemma IfEnds(gc: Graph, g1: Graph, g2: Graph, g3: Graph, last: int)
    requires Extends(gc, g1) && Extends(g1, g2) && Joined(g1, g2, g3, last)
    ensures Extends(g1, g3) && Extends(g2, g3) && Extends(gc, g3) && HereIn(g3) == Pos(|g2|, 0)
    ensures EdgeTo(g3, last, |g2|) && EdgeTo(g3, |g1| - 1, |g2|) && AllIds(g3) == AllIds(g2)
  {
    hide Extends, EdgeTo, AddJoin, AllIds;
    TwoAdded(g2, last, |g1| - 1);
    ExtendsTrans(g1, g2, g3);
    ExtendsTrans(gc, g1, g3);
    HereFull(g3, |g2|);
  }

  lemma IfParts(g0: Graph, gc: Graph, g1: Graph, g2: Graph, g3: Graph, env1: Env, env2: Env, s: Stmt, l1: Lay, l2: Lay)
    requires IfPieces(g0, gc, g1, g2, g3, env1, env2, s, l1, l2)
    ensures s.If? && Extends(gc, g1) && Extends(g1, g2)
    ensures Joined(g1, g2, g3, if s.els.None? then |gc| - 1 else |g2| - 1)
  {
    hide Walk, Extends, EdgeTo, Joined, AddOps, AllIds, SimpleOps, UsesOf, Widens, IsSimple;
    if s.els.None? {
      ExtendsSelf(g1);
    }
  }

  lemma IfGrown(g0: Graph, gc: Graph, g1: Graph, g2: Graph, g3: Graph, env1: Env, env2: Env, s: Stmt, l1: Lay, l2: Lay)
    requires IfPieces(g0, gc, g1, g2, g3, env1, env2, s, l1, l2)
    ensures Extends(g1, g3) && Extends(g2, g3) && Extends(gc, g3) && HereIn(g3) == Pos(|g2|, 0)
    ensures EdgeTo(g3, if s.els.None? then |gc| - 1 else |g2| - 1, |g2|) && EdgeTo(g3, |g1| - 1, |g2|)
    ensures AllIds(g3) == AllIds(g2)
  {
    hide Extends, EdgeTo, HereIn, Joined, AllIds, IfPieces;
    IfParts(g0, gc, g1, g2, g3, env1, env2, s, l1, l2);
    IfEnds(gc, g1, g2, g3, if s.els.None? then |gc| - 1 else |g2| - 1);
  }

  lemma IfThenPart(g0: Graph, gc: Graph, g1: Graph, g2: Graph, g3: Graph, env1: Env, env2: Env, s: Stmt, l1: Lay,
      l2: Lay)
    requires IfPieces(g0, gc, g1, g2, g3, env1, env2, s, l1, l2)
    ensures Continues(g0, g3) && HereIn(g3) == Pos(|g2|, 0) && |g0| == |gc|
    ensures Holds(g3, HereIn(g0), SimpleOps(s.init) + UsesOf(s.cond), HereIn(gc)) && AtEnd(g3, HereIn(gc))
    ensures EdgeTo(g3, |gc| - 1, |gc|) && Walk(g3, env2, s.thn, None, l1, Pos(|gc|, 0), HereIn(g1))
    ensures AtEnd(g3, HereIn(g1)) && |gc| <= |g1| - 1 && EdgeTo(g3, |g1| - 1, |g2|)
  {
    hide Walk, Grows, AddOps, AllIds, UsesOf, SimpleOps;
    IfGrown(g0, gc, g1, g2, g3, env1, env2, s, l1, l2);
    LaidOutLater(gc, [|gc| - 1], g1, g3, env1, env2, s.thn, None, l1);
    LaidHere(g0, SimpleOps(s.init) + UsesOf(s.cond), g3);
    assert [|gc| - 1][0] == |gc| - 1;
  }

  lemma IfElsePart(g0: Graph, gc: Graph, g1: Graph, g2: Graph, g3: Graph, env1: Env, env2: Env, s: Stmt, l1: Lay,
      l2: Lay)
    requires IfPieces(g0, gc, g1, g2, g3, env1, env2, s, l1, l2)
    ensures s.els.None? ==> EdgeTo(g3, |gc| - 1, |g2|)
    ensures s.els.Some? ==>
      && EdgeTo(g3, |gc| - 1, |g1|) && Walk(g3, env2, s.els.value, None, l2, Pos(|g1|, 0), HereIn(g2))
      && AtEnd(g3, HereIn(g2)) && |g1| <= |g2| - 1 && EdgeTo(g3, |g2| - 1, |g2|)
  {
    hide Walk, Grows, AddOps, AllIds, UsesOf, SimpleOps;
    IfGrown(g0, gc, g1, g2, g3, env1, env2, s, l1, l2);
    if s.els.Some? {
      WidensSelf(env2);
      LaidOutLater(g1, [|gc| - 1], g2, g3, env2, env2, s.els.value, None, l2);
      assert [|gc| - 1][0] == |gc| - 1;
    }
  }

  lemma IfWalk(g0: Graph, gc: Graph, g1: Graph, g2: Graph, g3: Graph, env1: Env, env2: Env, s: Stmt, l1: Lay, l2: Lay)
    requires IfPieces(g0, gc, g1, g2, g3, env1, env2, s, l1, l2)
    ensures Continues(g0, g3)
    ensures WalkIf(g3, env2, s, LIf(HereIn(gc), |gc|, l1, HereIn(g1), |g1|, l2, HereIn(g2)), HereIn(g0), HereIn(g3))
  {
    hide Walk, Grows, AddOps, AddBlock, AllIds, UsesOf, SimpleOps, LaidOut, Widens;
    IfThenPart(g0, gc, g1, g2, g3, env1, env2, s, l1, l2);
    IfElsePart(g0, gc, g1, g2, g3, env1, env2, s, l1, l2);
  }

  lemma IfLaid(g0: Graph, gc: Graph, g1: Graph, g2: Graph, g3: Graph, env0: Env, env1: Env, env2: Env, s: Stmt,
      l: Option<Label>, l1: Lay, l2: Lay)
    requires IfPieces(g0, gc, g1, g2, g3, env1, env2, s, l1, l2) && Widens(env0, env1)
    ensures Visited(g0, env0, g3, env2, s, l, LIf(HereIn(gc), |gc|, l1, HereIn(g1), |g1|, l2, HereIn(g2)))
  {
    IfWalk(g0, gc, g1, g2, g3, env1, env2, s, l1, l2);
    IfIds(g0, gc, g1, g2, g3, env1, env2, s, l1, l2);
    WidensTrans(env0, env1, env2);
    hide WalkIf, AllIds, LaidOut, Widens;
  }

  lemma IfIds(g0: Graph, gc: Graph, g1: Graph, g2: Graph, g3: Graph, env1: Env, env2: Env, s: Stmt, l1: Lay, l2: Lay)
    requires IfPieces(g0, gc, g1, g2, g3, env1, env2, s, l1, l2)
    ensures AllIds(g3) == AllIds(g0) + multiset(Ids(s))
  {
    hide Walk, Grows, AllIds;
    IfGrown(g0, gc, g1, g2, g3, env1, env2, s, l1, l2);
    CondDone(g0, SimpleOps(s.init), s.cond);
  }

  lemma ExtendsSelf(g: Graph)
    ensures Extends(g, g)
  {}

  lemma VisitedFacts(g0: Graph, env0: Env, g: Graph, env: Env, s: Stmt, l: Option<Label>, lay: Lay)
    requires Visited(g0, env0, g, env, s, l, lay)
    ensures ValidEnv(env) && env.brk == env0.brk && env.cont == env0.cont && |g| >= |g0| > 0
  {}

  lemma ThenLaid(g0: Graph, g1: Graph, g: Graph, env0: Env, env1: Env, env: Env, s1: Stmt, s2: Stmt, l: Option<Label>,
      l1: Lay, l2: Lay)
    requires Visited(g0, env0, g1, env1, s1, None, l1) && Visited(g1, env1, g, env, s2, None, l2)
    ensures Visited(g0, env0, g, env, Then(s1, s2), l, LThen(l1, HereIn(g1), l2))
  {
    WalkThen(g1, g, env1, env, s1, s2, l1, l2, HereIn(g0), l);
    hide Walk;
    ContinuesTrans(g0, g1, g);
    WidensTrans(env0, env1, env);
  }

  // ----- for statements -----

  /** The block of the condition, after the initial statement. */
  function ForHead(g0: Graph, init: seq<Op>, cond: seq<Op>): (g: Graph)
    requires |g0| > 0
    ensures |g| == |g0| + 1
  {
    AddOps(AddBlock(AddOps(g0, |g0| - 1, init), [|g0| - 1]), |g0|, cond)
  }

  /** The block of the post statement and the way back to the condition. */
  function ForBack(gb: Graph, post: seq<Op>, start: nat, cont: seq<nat>): (g: Graph)
    requires start < |gb| && forall k :: 0 <= k < |cont| ==> cont[k] < |gb|
    ensures |g| == |gb| + 1
  {
    var gq := AddEdges(AddBlock(gb, [|gb| - 1]), cont, |gb|);
    AddEdge(AddOps(gq, |gb|, post), |gb|, start)
  }

  /** The block of the post statement, the way back and the block after the loop. */
  function ForTail(gb: Graph, post: seq<Op>, start: nat, cont: seq<nat>, brk: seq<nat>): (g: Graph)
    requires start < |gb| && forall k :: 0 <= k < |cont| ==> cont[k] < |gb|
    requires forall k :: 0 <= k < |brk| ==> brk[k] < |gb|
    ensures |g| == |gb| + 2
  {
    var gu := ForBack(gb, post, start, cont);
    AddEdges(AddBlock(gu, [start]), brk, |gu|)
  }

  lemma ForHeadLaid(g0: Graph, init: seq<Op>, cond: seq<Op>, g: Graph)
    requires |g0| > 0 && Extends(ForHead(g0, init, cond), g)
    ensures Continues(g0, g)
    ensures Holds(g, HereIn(g0), init, Pos(|g0| - 1, |g0[|g0| - 1].ops| + |init|))
        && AtEnd(g, Pos(|g0| - 1, |g0[|g0| - 1].ops| + |init|))
    ensures EdgeTo(g, |g0| - 1, |g0|) && Full(g, |g0|, cond)
    ensures AllIds(ForHead(g0, init, cond)) == AllIds(g0) + multiset(OpIds(init)) + multiset(OpIds(cond))
  {
    var ga := AddOps(g0, |g0| - 1, init);
    var gs := AddBlock(ga, [|g0| - 1]);
    LaidBlock(ga, [|g0| - 1], cond, g);
    LaidHere(g0, init, g);
    AllIdsAddOps(g0, |g0| - 1, init);
    AllIdsAddBlock(ga, [|g0| - 1]);
    AllIdsAddOps(gs, |g0|, cond);
    assert [|g0| - 1][0] == |g0| - 1;
  }

  lemma AddEdgesAll(g: Graph, from: seq<nat>, c: nat, g': Graph)
    requires c < |g| && forall k :: 0 <= k < |from| ==> from[k] < |g|
    requires Extends(AddEdges(g, from, c), g')
    ensures Extends(g, g') && AllEdges(g', SetOf(from), c)
  {
    AddEdgesExtends(g, from, c);
    ExtendsTrans(g, AddEdges(g, from, c), g');
    forall b | b in SetOf(from)
      ensures EdgeTo(g', b, c)
    {
      var k :| 0 <= k < |from| && from[k] == b;
      assert EdgeTo(AddEdges(g, from, c), from[k], c);
    }
  }

  lemma AllIdsAddEdges(g: Graph, from: seq<nat>, c: nat)
    requires c < |g| && forall k :: 0 <= k < |from| ==> from[k] < |g|
    ensures AllIds(AddEdges(g, from, c)) == AllIds(g)
  {
    AddEdgesExtends(g, from, c);
    AllIdsSame(g, AddEdges(g, from, c));
  }

  /** What adding edges does, in one piece. */
  lemma EdgesAdded(g: Graph, from: seq<nat>, c: nat)
    requires c < |g| && forall k :: 0 <= k < |from| ==> from[k] < |g|
    ensures var g' := AddEdges(g, from, c);
      Extends(g, g') && AllEdges(g', SetOf(from), c) && AllIds(g') == AllIds(g)
  {
    hide AllIds;
    ExtendsSelf(AddEdges(g, from, c));
    AddEdgesAll(g, from, c, AddEdges(g, from, c));
    AllIdsAddEdges(g, from, c);
  }

  lemma EdgeAdded(g: Graph, b: nat, c: nat)
    requires b < |g| && c < |g|
    ensures var g' := AddEdge(g, b, c); Extends(g, g') && EdgeTo(g', b, c) && AllIds(g') == AllIds(g)
  {
    AddEdgeExtends(g, b, c);
    AllIdsAddEdge(g, b, c);
  }

  lemma BlockAdded(g: Graph, from: seq<nat>)
    requires forall k :: 0 <= k < |from| ==> from[k] < |g|
    ensures var g' := AddBlock(g, from);
      Extends(g, g') && AllEdges(g', SetOf(from), |g|) && Full(g', |g|, []) && AllIds(g') == AllIds(g)
  {
    AddBlockExtends(g, from);
    AllIdsAddBlock(g, from);
    hide AllIds, AddBlock, Extends, EdgeTo;
    forall b | b in SetOf(from)
      ensures EdgeTo(AddBlock(g, from), b, |g|)
    {
      var k :| 0 <= k < |from| && from[k] == b;
      assert EdgeTo(AddBlock(g, from), from[k], |g|);
    }
  }

  /** A new block below two others. */
  function AddJoin(g: Graph, a: nat, b: nat): (g': Graph)
    requires a < |g| && b < |g|
    ensures |g'| == |g| + 1
  {
    AddBlock(g, [a, b])
  }

  lemma TwoAdded(g: Graph, a: nat, b: nat)
    requires a < |g| && b < |g|
    ensures var g' := AddJoin(g, a, b);
      && Extends(g, g') && EdgeTo(g', a, |g|) && EdgeTo(g', b, |g|) && Full(g', |g|, []) && AllIds(g') == AllIds(g)
  {
    hide AllIds, AddBlock, Extends;
    var from := [a, b];
    BlockAdded(g, from);
    OneOfAll(AddBlock(g, from), from, 0, |g|);
    OneOfAll(AddBlock(g, from), from, 1, |g|);
  }

  lemma OneOfAll(g: Graph, from: seq<nat>, k: nat, c: nat)
    requires AllEdges(g, SetOf(from), c) && k < |from|
    ensures EdgeTo(g, from[k], c)
  {
    assert from[k] in SetOf(from);
  }

  lemma AllEdgesLater(g: Graph, g': Graph, srcs: set<nat>, c: nat)
    requires AllEdges(g, srcs, c) && Extends(g, g')
    ensures AllEdges(g', srcs, c)
  {
    forall b | b in srcs
      ensures EdgeTo(g', b, c)
    {
      EdgeLater(g, g', b, c);
    }
  }

  lemma HereFull(g: Graph, b: nat)
    requires b == |g| - 1 && Full(g, b, [])
    ensures HereIn(g) == Pos(b, 0)
  {}

  lemma FullBlock(gb: Graph, from: seq<nat>, more: seq<nat>, ops: seq<Op>, g: Graph)
    requires |gb| > 0 && forall k :: 0 <= k < |from| ==> from[k] < |gb|
    requires forall k :: 0 <= k < |more| ==> more[k] < |gb|
    requires Extends(AddOps(AddEdges(AddBlock(gb, from), more, |gb|), |gb|, ops), g)
    ensures Extends(gb, g) && Full(g, |gb|, ops)
    ensures (forall k :: 0 <= k < |from| ==> EdgeTo(g, from[k], |gb|)) && AllEdges(g, SetOf(more), |gb|)
    ensures AllIds(AddOps(AddEdges(AddBlock(gb, from), more, |gb|), |gb|, ops)) == AllIds(gb) + multiset(OpIds(ops))
  {
    var gp := AddBlock(gb, from);
    var gq := AddEdges(gp, more, |gb|);
    var gr := AddOps(gq, |gb|, ops);
    AddBlockExtends(gb, from);
    AddEdgesExtends(gp, more, |gb|);
    AddOpsContinues(gq, ops);
    ExtendsTrans(gb, gp, gq);
    ExtendsContinues(gb, gq, gr);
    ExtendsTrans(gb, gr, g);
    assert [] + ops == ops;
    AllIdsAddBlock(gb, from);
    AllIdsAddEdges(gp, more, |gb|);
    AllIdsAddOps(gq, |gb|, ops);
    EdgesThrough(gp, gq, gr, g, from, |gb|);
    AddEdgesAll(gp, more, |gb|, gq);
    AllEdgesGrows(gq, gr, |gb|, SetOf(more), |gb|);
    AllEdgesGrows(gr, g, |gr|, SetOf(more), |gb|);
  }

  lemma EdgesThrough(g1: Graph, g2: Graph, g3: Graph, g4: Graph, from: seq<nat>, c: nat)
    requires Extends(g1, g2) && (|g2| > 0 ==> Grows(g2, g3, |g2| - 1)) && Extends(g3, g4)
    requires |g1| > 0 && forall k :: 0 <= k < |from| ==> EdgeTo(g1, from[k], c)
    ensures forall k :: 0 <= k < |from| ==> EdgeTo(g4, from[k], c)
  {
    forall k | 0 <= k < |from|
      ensures EdgeTo(g4, from[k], c)
    {
      assert EdgeTo(g2, from[k], c);
      assert EdgeTo(g3, from[k], c);
    }
  }

  lemma ForTailLaid(gb: Graph, post: seq<Op>, start: nat, cont: seq<nat>, brk: seq<nat>)
    requires start < |gb| && forall k :: 0 <= k < |cont| ==> cont[k] < |gb|
    requires forall k :: 0 <= k < |brk| ==> brk[k] < |gb|
    ensures var g := ForTail(gb, post, start, cont, brk);
            && Extends(gb, g) && HereIn(g) == Pos(|gb| + 1, 0)
            && EdgeTo(g, |gb| - 1, |gb|) && AllEdges(g, SetOf(cont), |gb|) && Full(g, |gb|, post)
            && EdgeTo(g, |gb|, start) && EdgeTo(g, start, |gb| + 1) && AllEdges(g, SetOf(brk), |gb| + 1)
            && AllIds(g) == AllIds(gb) + multiset(OpIds(post))
  {
    hide Grows, AddOps, AddEdges, AddEdge, AddBlock, AllIds, OpIds, EdgeTo, AllEdges, SetOf, Extends;
    var gq := AddEdges(AddBlock(gb, [|gb| - 1]), cont, |gb|);
    var gr := AddOps(gq, |gb|, post);
    var gu := AddEdge(gr, |gb|, start);
    var gv := AddBlock(gu, [start]);
    var g := AddEdges(gv, brk, |gu|);
    EdgeAdded(gr, |gb|, start);
    BlockAdded(gu, [start]);
    EdgesAdded(gv, brk, |gu|);
    ExtendsTrans(gu, gv, g);
    ExtendsTrans(gr, gu, g);
    FullBlock(gb, [|gb| - 1], cont, post, g);
    EdgeLater(gu, g, |gb|, start);
    assert [|gb| - 1][0] == |gb| - 1;
    AllEdgesLater(gv, g, SetOf([start]), |gu|);
    OneOfAll(g, [start], 0, |gu|);
    FullLater(gv, g, |gu|, []);
    HereFull(g, |gu|);
  }

  lemma EdgeLater(g: Graph, g': Graph, b: nat, c: nat)
    requires Extends(g, g') && EdgeTo(g, b, c)
    ensures EdgeTo(g', b, c)
  {}

  lemma AllIdsAddEdge(g: Graph, b: nat, c: nat)
    requires b < |g|
    ensures AllIds(AddEdge(g, b, c)) == AllIds(g)
  {
    AllIdsSame(g, AddEdge(g, b, c));
  }

  /** The pieces of a for statement, one after the other. */
  ghost predicate ForPieces(g0: Graph, gt: Graph, gb: Graph, g: Graph, env0: Env, env2: Env, env: Env, s: Stmt,
      l: Option<Label>, l1: Lay, cont: seq<nat>, brk: seq<nat>) {
    && |g0| > 0 && s.For? && IsSimple(s.init) && IsSimple(s.post) && ValidEnv(env0)
    && gt == ForHead(g0, SimpleOps(s.init), UsesOf(s.cond))
    && LaidOut(gt, [|g0|], gb, env2, s.body, None, l1)
    && Widens(Inside(env0, l, {}, {}), env2)
    && (forall k :: 0 <= k < |cont| ==> cont[k] < |gb|) && (forall k :: 0 <= k < |brk| ==> brk[k] < |gb|)
    && g == ForTail(gb, SimpleOps(s.post), |g0|, cont, brk)
    && Popped(env2, env) && env2.brkSrc[|env.brk|] == SetOf(brk) && env2.contSrc[|env.cont|] == SetOf(cont)
  }

  /** `env` is `env2` without the innermost loop. */
  ghost predicate Popped(env2: Env, env: Env) {
    && ValidEnv(env2) && |env2.brk| > 0 && |env2.cont| > 0
    && env == Env(env2.brk[..|env2.brk| - 1], env2.cont[..|env2.cont| - 1],
                  env2.brkSrc[..|env2.brk| - 1], env2.contSrc[..|env2.cont| - 1])
  }

  lemma PoppedWidens(env0: Env, l: Option<Label>, env2: Env, env: Env)
    requires ValidEnv(env0) && Widens(Inside(env0, l, {}, {}), env2) && Popped(env2, env)
    ensures Widens(env0, env) && |env2.brk| == |env.brk| + 1 && |env2.cont| == |env.cont| + 1
    ensures env2 == Inside(env, l, env2.brkSrc[|env.brk|], env2.contSrc[|env.cont|])
  {
    var e := Inside(env0, l, {}, {});
    assert forall k :: 0 <= k < |env0.brkSrc| ==> e.brkSrc[k] == env0.brkSrc[k];
    assert forall k :: 0 <= k < |env0.contSrc| ==> e.contSrc[k] == env0.contSrc[k];
    assert env2.brk[..|env2.brk| - 1] == env0.brk && env2.cont[..|env2.cont| - 1] == env0.cont;
    assert env2.brkSrc == env.brkSrc + [env2.brkSrc[|env.brk|]];
    assert env2.contSrc == env.contSrc + [env2.contSrc[|env.cont|]];
  }

  lemma IdsOfFor(s: Stmt)
    requires s.For? && IsSimple(s.init) && IsSimple(s.post)
    ensures Ids(s) == OpIds(SimpleOps(s.init)) + Ids(s.body) + OpIds(SimpleOps(s.post))
  {
    SimpleIds(s.init);
    SimpleIds(s.post);
  }

  lemma ThreeSums(a: multiset<int>, b: multiset<int>, c: multiset<int>, d: multiset<int>,
                  x: seq<int>, y: seq<int>, z: seq<int>)
    requires b == a + multiset(x) && c == b + multiset(y) && d == c + multiset(z)
    ensures d == a + multiset(x + y + z)
  {
    assert multiset(x + y + z) == multiset(x + y) + multiset(z);
    assert multiset(x + y) == multiset(x) + multiset(y);
  }

  lemma ForIds(g0: Graph, gt: Graph, gb: Graph, g: Graph, env0: Env, env2: Env, env: Env, s: Stmt, l: Option<Label>,
      l1: Lay, cont: seq<nat>, brk: seq<nat>)
    requires ForPieces(g0, gt, gb, g, env0, env2, env, s, l, l1, cont, brk)
    ensures AllIds(g) == AllIds(g0) + multiset(Ids(s))
  {
    hide LaidOut, Extends, AllIds, ForTail, ForHead, SimpleOps, UsesOf, OpIds, Ids, Widens, Popped, EdgeTo, Full,
        AllEdges;
    ExtendsSelf(gt);
    ForHeadLaid(g0, SimpleOps(s.init), UsesOf(s.cond), gt);
    LaidOutGrows(gt, [|g0|], gb, env2, s.body, None, l1);
    ForTailLaid(gb, SimpleOps(s.post), |g0|, cont, brk);
    UsesHaveNoIds(s.cond);
    IdsOfFor(s);
    ThreeSums(AllIds(g0), AllIds(gt), AllIds(gb), AllIds(g),
              OpIds(SimpleOps(s.init)), Ids(s.body), OpIds(SimpleOps(s.post)));
  }

  /** The block for the post statement and the one after the loop. */
  lemma ForEnds(g0: Graph, gt: Graph, gb: Graph, g: Graph, env0: Env, env2: Env, env: Env, s: Stmt, l: Option<Label>,
      l1: Lay, cont: seq<nat>, brk: seq<nat>)
    requires ForPieces(g0, gt, gb, g, env0, env2, env, s, l, l1, cont, brk)
    ensures Extends(gb, g) && HereIn(g) == Pos(|gb| + 1, 0) && EdgeTo(g, |gb| - 1, |gb|)
    ensures AllEdges(g, SetOf(cont), |gb|) && Full(g, |gb|, SimpleOps(s.post)) && EdgeTo(g, |gb|, |g0|)
    ensures EdgeTo(g, |g0|, |gb| + 1) && AllEdges(g, SetOf(brk), |gb| + 1)
  {
    hide LaidOut, Grows, AllIds, ForTail, ForHead, SimpleOps, UsesOf, EdgeTo, AllEdges, Full, Widens, Popped, HereIn,
        SetOf;
    LaidOutGrows(gt, [|g0|], gb, env2, s.body, None, l1);
    ForTailLaid(gb, SimpleOps(s.post), |g0|, cont, brk);
  }

  /** The body of the loop. */
  lemma ForBody(g0: Graph, gt: Graph, gb: Graph, g: Graph, env0: Env, env2: Env, env: Env, s: Stmt, l: Option<Label>,
      l1: Lay, cont: seq<nat>, brk: seq<nat>)
    requires ForPieces(g0, gt, gb, g, env0, env2, env, s, l, l1, cont, brk) && Extends(gb, g)
    ensures Extends(gt, g) && AtEnd(g, HereIn(gb)) && |gt| <= HereIn(gb).blk == |gb| - 1
    ensures EdgeTo(g, |g0|, |gt|) && Walk(g, env2, s.body, None, l1, Pos(|gt|, 0), HereIn(gb))
  {
    hide Walk, Grows, AllIds, ForTail, ForHead, SimpleOps, UsesOf, EdgeTo, AllEdges, Widens, Popped;
    WidensSelf(env2);
    LaidOutLater(gt, [|g0|], gb, g, env2, env2, s.body, None, l1);
    assert [|g0|][0] == |g0|;
  }

  lemma ForEnv(g0: Graph, gt: Graph, gb: Graph, g: Graph, env0: Env, env2: Env, env: Env, s: Stmt, l: Option<Label>,
      l1: Lay, cont: seq<nat>, brk: seq<nat>)
    requires ForPieces(g0, gt, gb, g, env0, env2, env, s, l, l1, cont, brk)
    ensures ValidEnv(env) && Widens(env0, env) && s.For? && IsSimple(s.init) && IsSimple(s.post)
    ensures env2 == Inside(env, l, SetOf(brk), SetOf(cont))
  {
    hide LaidOut, ForTail, ForHead, AllIds, SetOf;
    PoppedWidens(env0, l, env2, env);
  }

  lemma ForStarts(g0: Graph, gt: Graph, gb: Graph, g: Graph, env0: Env, env2: Env, env: Env, s: Stmt, l: Option<Label>,
      l1: Lay, cont: seq<nat>, brk: seq<nat>)
    requires ForPieces(g0, gt, gb, g, env0, env2, env, s, l, l1, cont, brk) && Extends(gt, g)
    ensures 0 < |g0| == |gt| - 1 && Continues(g0, g) && EdgeTo(g, |g0| - 1, |g0|) && Full(g, |g0|, UsesOf(s.cond))
    ensures var c := Pos(|g0| - 1, |g0[|g0| - 1].ops| + |SimpleOps(s.init)|);
      Holds(g, HereIn(g0), SimpleOps(s.init), c) && AtEnd(g, c)
  {
    hide LaidOut, AllIds, ForTail, SimpleOps, UsesOf, EdgeTo, AllEdges, Holds, Full, Extends, SetOf, AtEnd, Widens,
        Popped;
    ForHeadLaid(g0, SimpleOps(s.init), UsesOf(s.cond), g);
  }

  lemma ForWalk(g0: Graph, gt: Graph, gb: Graph, g: Graph, env0: Env, env2: Env, env: Env, s: Stmt, l: Option<Label>,
      l1: Lay, cont: seq<nat>, brk: seq<nat>)
    requires ForPieces(g0, gt, gb, g, env0, env2, env, s, l, l1, cont, brk)
    ensures Continues(g0, g) && Widens(env0, env)
    ensures WalkFor(g, env, s, l, LFor(Pos(|g0| - 1, |g0[|g0| - 1].ops| + |SimpleOps(s.init)|), |g0|, |gt|, l1,
        HereIn(gb), |gb|, SetOf(brk), SetOf(cont)),
                    HereIn(g0), HereIn(g))
  {
    hide ForPieces, Walk, SimpleOps, UsesOf, EdgeTo, AllEdges, Holds, Full, Extends, SetOf, AtEnd, Widens;
    ForEnds(g0, gt, gb, g, env0, env2, env, s, l, l1, cont, brk);
    ForBody(g0, gt, gb, g, env0, env2, env, s, l, l1, cont, brk);
    ForEnv(g0, gt, gb, g, env0, env2, env, s, l, l1, cont, brk);
    ForStarts(g0, gt, gb, g, env0, env2, env, s, l, l1, cont, brk);
  }

  lemma ForLaid(g0: Graph, gt: Graph, gb: Graph, g: Graph, env0: Env, env2: Env, env: Env, s: Stmt, l: Option<Label>,
      l1: Lay, cont: seq<nat>, brk: seq<nat>)
    returns (lay: Lay)
    requires ForPieces(g0, gt, gb, g, env0, env2, env, s, l, l1, cont, brk)
    ensures Visited(g0, env0, g, env, s, l, lay)
    ensures lay.LFor? && lay.start == |g0| && lay.inner == |gt| && lay.l1 == l1 && lay.end1 == HereIn(gb)
    ensures lay.after == |gb| && lay.brkSrc == SetOf(brk) && lay.contSrc == SetOf(cont)
  {
    lay := LFor(Pos(|g0| - 1, |g0[|g0| - 1].ops| + |SimpleOps(s.init)|), |g0|, |gt|, l1, HereIn(gb), |gb|, SetOf(brk),
        SetOf(cont));
    ForWalk(g0, gt, gb, g, env0, env2, env, s, l, l1, cont, brk);
    ForIds(g0, gt, gb, g, env0, env2, env, s, l, l1, cont, brk);
    hide WalkFor, AllIds, LaidOut, Widens, ForTail, ForHead;
  }

  // ----- range statements -----

  /** The block before a range loop and the block that assigns its variables. */
  function RangeHead(g0: Graph, over: seq<Op>, vars: seq<Op>): (g: Graph)
    requires |g0| > 0
    ensures |g| == |g0| + 2
  {
    AddOps(AddBlock(AddBlock(AddOps(g0, |g0| - 1, over), [|g0| - 1]), [|g0|]), |g0| + 1, vars)
  }

  function RangeTail(gb: Graph, pre: nat, start: nat, cont: seq<nat>, brk: seq<nat>): (g: Graph)
    requires pre < |gb| && start < |gb| && forall k :: 0 <= k < |cont| ==> cont[k] < |gb|
    requires forall k :: 0 <= k < |brk| ==> brk[k] < |gb|
    ensures |g| == |gb| + 1
  {
    AddEdges(RangeMiddle(gb, pre, start, cont), brk, |gb|)
  }

  lemma RangeHeadLaid(g0: Graph, over: seq<Op>, vars: seq<Op>, g: Graph)
    requires |g0| > 0 && Continues(RangeHead(g0, over, vars), g)
    ensures Continues(g0, g) && HereIn(RangeHead(g0, over, vars)) == Pos(|g0| + 1, |vars|)
    ensures Holds(g, HereIn(g0), over, Pos(|g0| - 1, |g0[|g0| - 1].ops| + |over|))
        && AtEnd(g, Pos(|g0| - 1, |g0[|g0| - 1].ops| + |over|))
    ensures EdgeTo(g, |g0| - 1, |g0|) && Full(g, |g0|, []) && EdgeTo(g, |g0|, |g0| + 1)
    ensures Holds(g, Pos(|g0| + 1, 0), vars, Pos(|g0| + 1, |vars|))
    ensures AllIds(RangeHead(g0, over, vars)) == AllIds(g0) + multiset(OpIds(over)) + multiset(OpIds(vars))
  {
    hide AllIds, OpIds, AddOps, AddBlock, Grows;
    var ga := AddOps(g0, |g0| - 1, over);
    var gp := AddBlock(ga, [|g0| - 1]);
    var gs := AddBlock(gp, [|g0|]);
    var gt := AddOps(gs, |g0| + 1, vars);
    AddBlockExtends(ga, [|g0| - 1]);
    AddBlockExtends(gp, [|g0|]);
    AddOpsContinues(gs, vars);
    ContinuesTrans(gs, gt, g);
    ExtendsContinues(gp, gs, g);
    ExtendsTrans(ga, gp, g);
    LaidHere(g0, over, g);
    AllIdsAddOps(g0, |g0| - 1, over);
    AllIdsAddBlock(ga, [|g0| - 1]);
    AllIdsAddBlock(gp, [|g0|]);
    AllIdsAddOps(gs, |g0| + 1, vars);
    assert [|g0| - 1][0] == |g0| - 1 && [|g0|][0] == |g0|;
    EdgeLater(gp, g, |g0| - 1, |g0|);
    EdgeOn(gs, g, |g0|, |g0| + 1);
    FullLater(gp, g, |g0|, []);
    HereOf(gs, |g0| + 1, vars, gt, g);
  }

  lemma FullLater(g: Graph, g': Graph, b: nat, ops: seq<Op>)
    requires Full(g, b, ops) && Extends(g, g')
    ensures Full(g', b, ops)
  {}

  lemma EdgeOn(g: Graph, g': Graph, b: nat, c: nat)
    requires Continues(g, g') && EdgeTo(g, b, c)
    ensures EdgeTo(g', b, c)
  {}

  /** Operations put first into the newest block. */
  lemma HereOf(g: Graph, b: nat, ops: seq<Op>, g': Graph, g'': Graph)
    requires b == |g| - 1 && Full(g, b, []) && g' == AddOps(g, b, ops) && Continues(g', g'')
    ensures HereIn(g') == Pos(b, |ops|) && Holds(g'', Pos(b, 0), ops, Pos(b, |ops|))
  {
    assert [] + ops == ops;
    assert g''[b].ops[0..|ops|] == ops;
  }

  /** The edges that lead back to the head of a range statement. */
  function RangeBack(gb: Graph, pre: nat, start: nat, cont: seq<nat>): (g: Graph)
    requires pre < |gb| && start < |gb| && forall k :: 0 <= k < |cont| ==> cont[k] < |gb|
    ensures |g| == |gb|
  {
    AddEdges(AddEdge(gb, |gb| - 1, start), cont, pre)
  }

  lemma RangeBackLaid(gb: Graph, pre: nat, start: nat, cont: seq<nat>)
    requires pre < |gb| && start < |gb| && forall k :: 0 <= k < |cont| ==> cont[k] < |gb|
    ensures var g := RangeBack(gb, pre, start, cont);
            && Extends(gb, g) && AllIds(g) == AllIds(gb)
            && EdgeTo(g, |gb| - 1, start) && AllEdges(g, SetOf(cont), pre)
  {
    hide AddEdges, AddEdge, AllIds, EdgeTo, AllEdges, SetOf, Extends;
    var gu := AddEdge(gb, |gb| - 1, start);
    EdgeAdded(gb, |gb| - 1, start);
    EdgesAdded(gu, cont, pre);
    ExtendsTrans(gb, gu, AddEdges(gu, cont, pre));
    EdgeLater(gu, AddEdges(gu, cont, pre), |gb| - 1, start);
  }

  /** The end of a range statement but for the edges from its breaks. */
  function RangeMiddle(gb: Graph, pre: nat, start: nat, cont: seq<nat>): (g: Graph)
    requires pre < |gb| && start < |gb| && forall k :: 0 <= k < |cont| ==> cont[k] < |gb|
    ensures |g| == |gb| + 1
  {
    AddJoin(RangeBack(gb, pre, start, cont), pre, |gb| - 1)
  }

  lemma RangeMiddleLaid(gb: Graph, pre: nat, start: nat, cont: seq<nat>)
    requires pre < |gb| && start < |gb| && forall k :: 0 <= k < |cont| ==> cont[k] < |gb|
    ensures var g := RangeMiddle(gb, pre, start, cont);
            && Extends(gb, g) && Full(g, |gb|, []) && AllIds(g) == AllIds(gb)
            && EdgeTo(g, |gb| - 1, start) && AllEdges(g, SetOf(cont), pre)
            && EdgeTo(g, pre, |gb|) && EdgeTo(g, |gb| - 1, |gb|)
  {
    hide RangeBack, AddJoin, AllIds, EdgeTo, AllEdges, SetOf, Extends, Full;
    var gv := RangeBack(gb, pre, start, cont);
    var g := AddJoin(gv, pre, |gb| - 1);
    RangeBackLaid(gb, pre, start, cont);
    TwoAdded(gv, pre, |gb| - 1);
    ExtendsTrans(gb, gv, g);
    EdgeLater(gv, g, |gb| - 1, start);
    AllEdgesLater(gv, g, SetOf(cont), pre);
  }

  lemma RangeTailLaid(gb: Graph, pre: nat, start: nat, cont: seq<nat>, brk: seq<nat>)
    requires pre < |gb| && start < |gb| && forall k :: 0 <= k < |cont| ==> cont[k] < |gb|
    requires forall k :: 0 <= k < |brk| ==> brk[k] < |gb|
    ensures var g := RangeTail(gb, pre, start, cont, brk);
            && Extends(gb, g) && HereIn(g) == Pos(|gb|, 0)
            && EdgeTo(g, |gb| - 1, start) && AllEdges(g, SetOf(cont), pre)
            && EdgeTo(g, pre, |gb|) && EdgeTo(g, |gb| - 1, |gb|) && AllEdges(g, SetOf(brk), |gb|)
            && AllIds(g) == AllIds(gb)
  {
    hide AddEdges, RangeMiddle, AllIds, EdgeTo, AllEdges, SetOf, Extends, Full, HereIn;
    var gw := RangeMiddle(gb, pre, start, cont);
    var g := AddEdges(gw, brk, |gb|);
    RangeMiddleLaid(gb, pre, start, cont);
    EdgesAdded(gw, brk, |gb|);
    ExtendsTrans(gb, gw, g);
    EdgeLater(gw, g, |gb| - 1, start);
    EdgeLater(gw, g, pre, |gb|);
    EdgeLater(gw, g, |gb| - 1, |gb|);
    AllEdgesLater(gw, g, SetOf(cont), pre);
    FullLater(gw, g, |gb|, []);
    HereFull(g, |gb|);
  }

  /** The pieces of a range statement, one after the other. */
  ghost predicate RangePieces(g0: Graph, gt: Graph, gb: Graph, g: Graph, env0: Env, env2: Env, env: Env, s: Stmt,
      l: Option<Label>, l1: Lay, cont: seq<nat>, brk: seq<nat>) {
    && |g0| > 0 && s.Range? && ValidEnv(env0)
    && gt == RangeHead(g0, UsesOf(s.over), AllLhsOps(s.vars, false))
    && Visited(gt, Inside(env0, l, {}, {}), gb, env2, s.body, None, l1)
    && |gb| >= |gt|
    && (forall k :: 0 <= k < |cont| ==> cont[k] < |gb|) && (forall k :: 0 <= k < |brk| ==> brk[k] < |gb|)
    && g == RangeTail(gb, |g0|, |g0| + 1, cont, brk)
    && Popped(env2, env) && env2.brkSrc[|env.brk|] == SetOf(brk) && env2.contSrc[|env.cont|] == SetOf(cont)
  }

  lemma RangeIds(g0: Graph, gt: Graph, gb: Graph, g: Graph, env0: Env, env2: Env, env: Env, s: Stmt, l: Option<Label>,
      l1: Lay, cont: seq<nat>, brk: seq<nat>)
    requires RangePieces(g0, gt, gb, g, env0, env2, env, s, l, l1, cont, brk)
    ensures AllIds(g) == AllIds(g0) + multiset(Ids(s))
  {
    hide Walk, Grows, AllIds, RangeTail, RangeHead, Widens;
    RangeHeadLaid(g0, UsesOf(s.over), AllLhsOps(s.vars, false), gb);
    RangeTailLaid(gb, |g0|, |g0| + 1, cont, brk);
    UsesHaveNoIds(s.over);
  }

  lemma RangeWalk(g0: Graph, gt: Graph, gb: Graph, g: Graph, env0: Env, env2: Env, env: Env, s: Stmt, l: Option<Label>,
      l1: Lay, cont: seq<nat>, brk: seq<nat>)
    requires RangePieces(g0, gt, gb, g, env0, env2, env, s, l, l1, cont, brk)
    ensures Continues(g0, g) && Widens(env0, env)
    ensures WalkRange(g, env, s, l,
        LRange(Pos(|g0| - 1, |g0[|g0| - 1].ops| + |s.over|), |g0|, |g0| + 1, l1, HereIn(gb), SetOf(brk), SetOf(cont)),
                      HereIn(g0), HereIn(g))
  {
    hide Walk, Grows, AllIds, RangeTail, RangeHead, AllLhsOps;
    PoppedWidens(env0, l, env2, env);
    WidensSelf(env2);
    RangeTailLaid(gb, |g0|, |g0| + 1, cont, brk);
    ContinuesExtends(gt, gb, g);
    RangeHeadLaid(g0, UsesOf(s.over), AllLhsOps(s.vars, false), g);
    WalkLater(gb, g, env2, env2, s.body, None, l1, HereIn(gt), HereIn(gb));
  }

  lemma RangeLaid(g0: Graph, gt: Graph, gb: Graph, g: Graph, env0: Env, env2: Env, env: Env, s: Stmt, l: Option<Label>,
      l1: Lay, cont: seq<nat>, brk: seq<nat>)
    returns (lay: Lay)
    requires RangePieces(g0, gt, gb, g, env0, env2, env, s, l, l1, cont, brk)
    ensures Visited(g0, env0, g, env, s, l, lay)
    ensures lay.LRange? && lay.pre == |g0| && lay.start == |g0| + 1 && lay.l1 == l1 && lay.end1 == HereIn(gb)
    ensures lay.brkSrc == SetOf(brk) && lay.contSrc == SetOf(cont)
  {
    lay := LRange(Pos(|g0| - 1, |g0[|g0| - 1].ops| + |s.over|), |g0|, |g0| + 1, l1, HereIn(gb), SetOf(brk),
        SetOf(cont));
    RangeWalk(g0, gt, gb, g, env0, env2, env, s, l, l1, cont, brk);
    RangeIds(g0, gt, gb, g, env0, env2, env, s, l, l1, cont, brk);
    hide WalkRange, AllIds, Widens, RangeTail, RangeHead, RangePieces;
  }

  // ----- simple statements and jumps -----

  lemma SimpleLaid(g0: Graph, env: Env, s: Stmt, l: Option<Label>)
    requires |g0| > 0 && ValidEnv(env) && IsSimple(s)
    ensures Visited(g0, env, AddOps(g0, |g0| - 1, SimpleOps(s)), env, s, l, LSimple)
  {
    WidensSelf(env);
    AddOpsContinues(g0, SimpleOps(s));
    AllIdsAddOps(g0, |g0| - 1, SimpleOps(s));
  }

  lemma ReturnLaid(g0: Graph, env: Env, uses: seq<Var>, l: Option<Label>)
    requires |g0| > 0 && ValidEnv(env)
    ensures Visited(g0, env, AddOps(g0, |g0| - 1, UsesOf(uses)), env, Return(uses), l, LSimple)
  {
    hide AllIds, AddOps, UsesOf, OpIds, Widens, Holds, Grows;
    WidensSelf(env);
    assert multiset(OpIds(UsesOf(uses))) == multiset{} by { UsesHaveNoIds(uses); }
    assert AllIds(g0) + multiset{} == AllIds(g0) && multiset(Ids(Return(uses))) == multiset{};
    AddOpsContinues(g0, UsesOf(uses));
    AllIdsAddOps(g0, |g0| - 1, UsesOf(uses));
    UsesHaveNoIds(uses);
  }

  lemma LabeledLaid(g0: Graph, g: Graph, env0: Env, env: Env, name: Label, s: Stmt, l: Option<Label>, l1: Lay)
    requires |g0| > 0 && Widens(env0, env) && LaidOut(g0, [|g0| - 1], g, env, s, Some(name), l1)
    ensures Visited(g0, env0, g, env, Labeled(name, s), l, LLabeled(|g0|, l1))
  {
    assert [|g0| - 1][0] == |g0| - 1;
    ExtendsGrows(g0, g, |g0| - 1);
  }

  /** The current block has become a source of `t`, and a new block has been begun. */
  lemma JumpLaid(g: Graph, env0: Env, t: Target, s: Stmt, l: Option<Label>)
    requires |g| > 0 && ValidEnv(env0)
    requires match s
             case Break(to) => Find(env0.brk, to) < |env0.brk| && t == Brk(Find(env0.brk, to))
             case Continue(to) => Find(env0.cont, to) < |env0.cont| && t == Cont(Find(env0.cont, to))
             case _ => false
    ensures Visited(g, env0, AddBlock(g, []), WithSource(env0, t, |g| - 1), s, l, LJump)
  {
    hide AddBlock, AllIds, Grows, Extends;
    AddBlockExtends(g, []);
    AllIdsAddBlock(g, []);
    JumpEnds(g, AddBlock(g, []));
    assert Walk(AddBlock(g, []), WithSource(env0, t, |g| - 1), s, l, LJump, HereIn(g), HereIn(AddBlock(g, [])));
  }

  lemma JumpEnds(g0: Graph, g: Graph)
    requires |g0| > 0 && Extends(g0, g) && |g| == |g0| + 1 && Full(g, |g0|, [])
    ensures Continues(g0, g) && AtEnd(g, HereIn(g0)) && HereIn(g) == Pos(|g0|, 0)
  {}

  /** Block `b` is one more source for `t`. */
  function WithSource(env: Env, t: Target, b: nat): Env {
    match t
    case Brk(k) => if k < |env.brkSrc| then env.(brkSrc := env.brkSrc[k := env.brkSrc[k] + {b}]) else env
    case Cont(k) => if k < |env.contSrc| then env.(contSrc := env.contSrc[k := env.contSrc[k] + {b}]) else env
  }

  // ----- switch statements -----

  lemma {:induction false} FlatSnoc(list: seq<seq<Var>>, k: nat)
    requires k < |list|
    ensures Flat(list[..k + 1]) == Flat(list[..k]) + list[k]
    decreases |list|
  {
    if k == 0 {
      assert list[..1][1..] == [] && list[..0] == [];
      assert Flat(list[..1]) == list[0] + Flat([]);
    } else {
      assert list[..k + 1][1..] == list[1..][..k] && list[..k][1..] == list[1..][..k - 1];
      FlatSnoc(list[1..], k - 1);
    }
  }

  lemma UsesConcat(s: seq<Var>, t: seq<Var>)
    ensures UsesOf(s + t) == UsesOf(s) + UsesOf(t)
  {}

  /** The graph with the list block of a clause, if it has one. */
  function ClauseList(g: Graph, c: Clause, list: nat): (g': Graph)
    requires list < |g|
    ensures |g'| >= |g|
  {
    if c.list.None? then g else AddOps(AddBlock(g, [list]), |g|, UsesOf(Flat(c.list.value)))
  }

  /** The blocks from which the body of a clause is entered. */
  function Parents(g: Graph, c: Clause, fall: seq<nat>): seq<nat> {
    (if c.list.Some? then [|g|] else []) + fall
  }

  /** A clause has been added to `g`. */
  ghost predicate ClauseAdded(g: Graph, g': Graph, env: Env, c: Clause, list: nat, fall: seq<nat>, p: Place) {
    && list < |g| < |g'| + 1 && |g'| > 0 && p == Place(|g|, |ClauseList(g, c, list)|, p.lay, HereIn(g'))
    && LaidOut(ClauseList(g, c, list), Parents(g, c, fall), g', env, c.body, None, p.lay)
  }

  lemma ClauseIsAdded(g: Graph, g': Graph, env: Env, c: Clause, list: nat, fall: seq<nat>, lay: Lay)
    requires list < |g| && LaidOut(ClauseList(g, c, list), Parents(g, c, fall), g', env, c.body, None, lay)
    ensures |g'| > |g|
    ensures ClauseAdded(g, g', env, c, list, fall, Place(|g|, |ClauseList(g, c, list)|, lay, HereIn(g')))
  {
    var gl := ClauseList(g, c, list);
    hide LaidOut, ClauseList;
    LaidOutGrows(gl, Parents(g, c, fall), g', env, c.body, None, lay);
  }

  lemma ClauseListIds(g: Graph, c: Clause, list: nat)
    requires list < |g|
    ensures AllIds(ClauseList(g, c, list)) == AllIds(g)
  {
    hide AllIds, OpIds, UsesOf, AddOps, AddBlock;
    if c.list.Some? {
      var uses := UsesOf(Flat(c.list.value));
      AllIdsAddBlock(g, [list]);
      AllIdsAddOps(AddBlock(g, [list]), |g|, uses);
      UsesHaveNoIds(Flat(c.list.value));
      assert multiset(OpIds(uses)) == multiset{};
    }
  }

  lemma ClauseAddedFacts(g: Graph, g': Graph, env: Env, c: Clause, list: nat, fall: seq<nat>, p: Place)
    requires ClauseAdded(g, g', env, c, list, fall, p)
    ensures Extends(g, g') && |g| <= p.body <= p.end.blk == |g'| - 1 && AtEnd(g', p.end)
    ensures c.list.Some? ==>
        p.list == |g| < p.body && EdgeTo(g', list, p.list)
        && Full(g', p.list, UsesOf(Flat(c.list.value))) && EdgeTo(g', p.list, p.body)
    ensures forall k :: 0 <= k < |fall| ==> EdgeTo(g', fall[k], p.body)
    ensures Walk(g', env, c.body, None, p.lay, Pos(p.body, 0), p.end)
    ensures AllIds(g') == AllIds(g) + multiset(Ids(c.body))
  {
    hide Walk, AllIds, Ids, OpIds, UsesOf, AddOps, AddBlock;
    var gl := ClauseList(g, c, list);
    var from := Parents(g, c, fall);
    if c.list.Some? {
      LaidBlock(g, [list], UsesOf(Flat(c.list.value)), g');
      assert [list][0] == list && from[0] == |g|;
      ClauseListIds(g, c, list);
    }
    forall k | 0 <= k < |fall|
      ensures EdgeTo(g', fall[k], p.body)
    {
      assert from[|from| - |fall| + k] == fall[k];
    }
  }

  ghost predicate ClauseLaid(g: Graph, env: Env, cs: seq<Clause>, ps: seq<Place>, j: nat, b0: nat, exits: seq<nat>)
    requires ValidEnv(env) && j < |cs| && j < |ps|
  {
    && ClauseOk(g, b0, cs, ps, j)
    && Walk(g, env, cs[j].body, None, ps[j].lay, Pos(ps[j].body, 0), ps[j].end)
    && (!cs[j].falls ==> ps[j].end.blk in exits)
  }

  /** The first `i` clauses have been added; `exits` are the blocks from which the switch is left. */
  ghost predicate ClausesUpTo(g: Graph, env: Env, cs: seq<Clause>, ps: seq<Place>, i: nat, b0: nat, exits: seq<nat>) {
    && ValidEnv(env) && i <= |cs| && |ps| == i && b0 < |g|
    && (forall j {:trigger ClauseLaid(g, env, cs, ps, j, b0, exits)} :: 0 <= j < i ==>
        ClauseLaid(g, env, cs, ps, j, b0, exits))
    && (forall k :: 0 <= k < |exits| ==> exits[k] < |g|)
    && ListBefore(b0, cs, ps, i) < |g|
    && (i > 0 ==> ps[i - 1].end == HereIn(g))
  }

  lemma {:induction false} ListBeforeMore(b0: nat, cs: seq<Clause>, ps: seq<Place>, p: Place, j: nat)
    requires j <= |cs| && j <= |ps|
    ensures ListBefore(b0, cs, ps + [p], j) == ListBefore(b0, cs, ps, j)
    decreases j
  {
    if j > 0 { ListBeforeMore(b0, cs, ps, p, j - 1); }
  }

  lemma ListBeforeStep(b0: nat, cs: seq<Clause>, ps: seq<Place>, p: Place)
    requires |ps| < |cs|
    ensures ListBefore(b0, cs, ps + [p], |ps| + 1) == if cs[|ps|].list.Some? then p.list
        else ListBefore(b0, cs, ps, |ps|)
  {
    ListBeforeMore(b0, cs, ps, p, |ps|);
  }

  lemma ClausePlace(g: Graph, g': Graph, env: Env, c: Clause, list: nat, fall: seq<nat>, p: Place)
    requires ClauseAdded(g, g', env, c, list, fall, p)
    ensures p.end == HereIn(g') && ValidEnv(env) && p.list == |g| < |g'|
  {}

  lemma ClauseOkMore(g: Graph, b0: nat, cs: seq<Clause>, ps: seq<Place>, p: Place, j: nat)
    requires j < |ps| <= |cs| && ClauseOk(g, b0, cs, ps, j)
    ensures ClauseOk(g, b0, cs, ps + [p], j)
  {
    ListBeforeMore(b0, cs, ps, p, j);
  }

  lemma ClauseStep(g: Graph, g': Graph, env: Env, env': Env, cs: seq<Clause>, ps: seq<Place>, i: nat, b0: nat,
      exits: seq<nat>, fall: seq<nat>, p: Place)
    requires ClausesUpTo(g, env, cs, ps, i, b0, exits) && i < |cs| && Widens(env, env')
    requires ClauseAdded(g, g', env', cs[i], ListBefore(b0, cs, ps, i), fall, p)
    requires i > 0 && cs[i - 1].falls ==> fall == [|g| - 1]
    ensures ClausesUpTo(g', env', cs, ps + [p], i + 1, b0, if cs[i].falls then exits else exits + [|g'| - 1])
    ensures Extends(g, g')
  {
    hide Walk, ClauseOk, ClauseAdded, ClauseLaid, Grows, AllIds, Widens, ListBefore;
    var exits' := if cs[i].falls then exits else exits + [|g'| - 1];
    ClauseAddedFacts(g, g', env', cs[i], ListBefore(b0, cs, ps, i), fall, p);
    ClausePlace(g, g', env', cs[i], ListBefore(b0, cs, ps, i), fall, p);
    ListBeforeStep(b0, cs, ps, p);
    forall j | 0 <= j < i
      ensures ClauseLaid(g', env', cs, ps + [p], j, b0, exits')
    {
      OldClause(g, g', env, env', cs, ps, i, b0, exits, p, j, exits');
    }
    NewClause(g, g', env', cs, ps, i, b0, fall, p, exits');
  }

  lemma OldClause(g: Graph, g': Graph, env: Env, env': Env, cs: seq<Clause>, ps: seq<Place>, i: nat, b0: nat,
      exits: seq<nat>, p: Place, j: nat, exits': seq<nat>)
    requires ClausesUpTo(g, env, cs, ps, i, b0, exits) && j < i && Widens(env, env') && Extends(g, g')
        && exits <= exits'
    ensures ClauseLaid(g', env', cs, ps + [p], j, b0, exits')
  {
    assert ClauseLaid(g, env, cs, ps, j, b0, exits);
    ExtendsGrows(g, g', |g|);
    ClauseGrows(g, g', |g|, b0, cs, ps, j);
    ClauseOkMore(g', b0, cs, ps, p, j);
    WalkLater(g, g', env, env', cs[j].body, None, ps[j].lay, Pos(ps[j].body, 0), ps[j].end);
    hide Walk, ClauseOk, Grows;
    assert (ps + [p])[j] == ps[j];
  }

  lemma NewClause(g: Graph, g': Graph, env': Env, cs: seq<Clause>, ps: seq<Place>, i: nat, b0: nat, fall: seq<nat>,
      p: Place, exits': seq<nat>)
    requires |ps| == i < |cs| && b0 < |g|
    requires ClauseAdded(g, g', env', cs[i], ListBefore(b0, cs, ps, i), fall, p)
    requires i > 0 && cs[i - 1].falls ==> fall == [|g| - 1] && ps[i - 1].end.blk == |g| - 1
    requires !cs[i].falls ==> |g'| - 1 in exits'
    ensures ValidEnv(env') && ClauseLaid(g', env', cs, ps + [p], i, b0, exits')
  {
    hide Walk, ClauseAdded, Grows, AllIds, ListBefore, Ids, Full, UsesOf;
    ClauseAddedFacts(g, g', env', cs[i], ListBefore(b0, cs, ps, i), fall, p);
    ClausePlace(g, g', env', cs[i], ListBefore(b0, cs, ps, i), fall, p);
    ListBeforeMore(b0, cs, ps, p, i);
    if i > 0 { assert (ps + [p])[i - 1] == ps[i - 1]; }
    assert fall != [] ==> EdgeTo(g', fall[0], p.body);
    assert |g| > 0;
  }

  /** The end of a switch: the way to the default clause or past all clauses, and the block after it. */
  function SwitchEnd(gc: Graph, b0: nat, last: nat, dflt: Option<nat>, exits: seq<nat>, brk: seq<nat>): (g: Graph)
    requires b0 < |gc| && last < |gc| && forall k :: 0 <= k < |exits| ==> exits[k] < |gc|
    requires forall k :: 0 <= k < |brk| ==> brk[k] < |gc|
    ensures |g| == |gc| + 1
  {
    var g1 := if dflt.Some? then AddEdge(gc, last, dflt.value) else gc;
    AddEdges(AddBlock(g1, if dflt.Some? then exits else exits + [b0]), brk, |gc|)
  }

  lemma SwitchEndLaid(gc: Graph, b0: nat, last: nat, dflt: Option<nat>, exits: seq<nat>, brk: seq<nat>)
    requires b0 < |gc| && last < |gc| && forall k :: 0 <= k < |exits| ==> exits[k] < |gc|
    requires (forall k :: 0 <= k < |brk| ==> brk[k] < |gc|) && (dflt.Some? ==> dflt.value < |gc|)
    ensures var g := SwitchEnd(gc, b0, last, dflt, exits, brk);
            && Extends(gc, g) && HereIn(g) == Pos(|gc|, 0) && AllEdges(g, SetOf(brk), |gc|)
            && (forall b :: b in exits ==> EdgeTo(g, b, |gc|))
            && (if dflt.Some? then EdgeTo(g, last, dflt.value) else EdgeTo(g, b0, |gc|))
            && AllIds(g) == AllIds(gc)
  {
    hide Grows, AddEdges, AddEdge, AddBlock, AllIds, EdgeTo, AllEdges, SetOf, Extends;
    var g1 := if dflt.Some? then AddEdge(gc, last, dflt.value) else gc;
    var ends := if dflt.Some? then exits else exits + [b0];
    var g2 := AddBlock(g1, ends);
    var g := AddEdges(g2, brk, |gc|);
    if dflt.Some? {
      EdgeAdded(gc, last, dflt.value);
    } else {
      ExtendsSelf(gc);
    }
    BlockAdded(g1, ends);
    EdgesAdded(g2, brk, |gc|);
    ExtendsTrans(g1, g2, g);
    ExtendsTrans(gc, g1, g);
    AllEdgesLater(g2, g, SetOf(ends), |gc|);
    forall b | b in exits
      ensures EdgeTo(g, b, |gc|)
    {
      var k :| 0 <= k < |exits| && exits[k] == b;
      assert ends[k] == b;
      OneOfAll(g, ends, k, |gc|);
    }
    if dflt.Some? {
      EdgeLater(g1, g, last, dflt.value);
    } else {
      OneOfAll(g, ends, |exits|, |gc|);
    }
    FullLater(g2, g, |gc|, []);
    HereFull(g, |gc|);
  }

  /** The default clause among the first `i`, by its body's block. */
  function DefaultBlock(cs: seq<Clause>, ps: seq<Place>, i: nat): Option<nat>
    requires |ps| == i
  {
    var k := DefaultIx(cs);
    if k < i then Some(ps[k].body) else None
  }

  /** The pieces of a switch, one after the other. */
  ghost predicate SwitchPieces(g0: Graph, gc: Graph, g: Graph, env0: Env, env2: Env, env: Env, s: Stmt,
      l: Option<Label>, ps: seq<Place>, exits: seq<nat>, brk: seq<nat>) {
    && |g0| > 0 && s.Switch? && IsSimple(s.init) && IsSimple(s.tag) && ValidEnv(env0)
    && (s.clauses != [] ==> !s.clauses[|s.clauses| - 1].falls)
    && Extends(AddOps(g0, |g0| - 1, SimpleOps(s.init) + SimpleOps(s.tag)), gc)
    && AllIds(gc) == AllIds(AddOps(g0, |g0| - 1, SimpleOps(s.init) + SimpleOps(s.tag))) + multiset(ClauseIds(s, 0))
    && Widens(InsideSwitch(env0, l, {}), env2)
    && ClausesUpTo(gc, env2, s.clauses, ps, |s.clauses|, |g0| - 1, exits)
    && (forall k :: 0 <= k < |brk| ==> brk[k] < |gc|)
    && g == SwitchEnd(gc, |g0| - 1, ListBefore(|g0| - 1, s.clauses, ps, |s.clauses|),
        DefaultBlock(s.clauses, ps, |s.clauses|), exits, brk)
    && PoppedSwitch(env2, env) && env2.brkSrc[|env.brk|] == SetOf(brk)
  }

  ghost predicate PoppedSwitch(env2: Env, env: Env) {
    && ValidEnv(env2) && |env2.brk| > 0
    && env == env2.(brk := env2.brk[..|env2.brk| - 1], brkSrc := env2.brkSrc[..|env2.brk| - 1])
  }

  lemma PoppedSwitchWidens(env0: Env, l: Option<Label>, env2: Env, env: Env)
    requires ValidEnv(env0) && Widens(InsideSwitch(env0, l, {}), env2) && PoppedSwitch(env2, env)
    ensures Widens(env0, env) && |env2.brk| == |env.brk| + 1
    ensures env2 == InsideSwitch(env, l, env2.brkSrc[|env.brk|])
  {
    var e := InsideSwitch(env0, l, {});
    assert forall k :: 0 <= k < |env0.brkSrc| ==> e.brkSrc[k] == env0.brkSrc[k];
    assert env2.brk[..|env2.brk| - 1] == env0.brk;
    assert env2.brkSrc == env.brkSrc + [env2.brkSrc[|env.brk|]];
  }

  lemma SwitchIds(g0: Graph, gc: Graph, g: Graph, env0: Env, env2: Env, env: Env, s: Stmt, l: Option<Label>,
      ps: seq<Place>, exits: seq<nat>, brk: seq<nat>)
    requires SwitchPieces(g0, gc, g, env0, env2, env, s, l, ps, exits, brk)
    ensures AllIds(g) == AllIds(g0) + multiset(Ids(s))
  {
    hide AllIds, Grows, Widens, SwitchEnd, ClauseLaid, OpIds, SimpleOps, AddOps;
    DefaultBody(gc, env2, s.clauses, ps, |g0| - 1, exits);
    SwitchEndLaid(gc, |g0| - 1, ListBefore(|g0| - 1, s.clauses, ps, |s.clauses|),
        DefaultBlock(s.clauses, ps, |s.clauses|), exits, brk);
    TwoSimpleIds(g0, s.init, s.tag);
    assert Ids(s) == Ids(s.init) + Ids(s.tag) + ClauseIds(s, 0);
  }

  lemma TwoSimpleIds(g0: Graph, s1: Stmt, s2: Stmt)
    requires |g0| > 0 && IsSimple(s1) && IsSimple(s2)
    ensures AllIds(AddOps(g0, |g0| - 1, SimpleOps(s1) + SimpleOps(s2))) == AllIds(g0) + multiset(Ids(s1))
        + multiset(Ids(s2))
  {
    AllIdsAddOps(g0, |g0| - 1, SimpleOps(s1) + SimpleOps(s2));
    OpIdsConcat(SimpleOps(s1), SimpleOps(s2));
    SimpleIds(s1);
    SimpleIds(s2);
  }

  lemma SimpleIds(s: Stmt)
    requires IsSimple(s)
    ensures Ids(s) == OpIds(SimpleOps(s))
  {}

  lemma DefaultBody(gc: Graph, env2: Env, cs: seq<Clause>, ps: seq<Place>, b0: nat, exits: seq<nat>)
    requires ClausesUpTo(gc, env2, cs, ps, |cs|, b0, exits)
    ensures DefaultBlock(cs, ps, |cs|).Some? ==> DefaultBlock(cs, ps, |cs|).value < |gc|
  {
    var k := DefaultIx(cs);
    if k < |cs| {
      assert ClauseLaid(gc, env2, cs, ps, k, b0, exits);
    }
  }

  lemma SwitchWalk(g0: Graph, gc: Graph, g: Graph, env0: Env, env2: Env, env: Env, s: Stmt, l: Option<Label>,
      ps: seq<Place>, exits: seq<nat>, brk: seq<nat>)
    requires SwitchPieces(g0, gc, g, env0, env2, env, s, l, ps, exits, brk)
    ensures Continues(g0, g) && Widens(env0, env)
    ensures WalkSwitch(g, env, s, l,
      LSwitch(Pos(|g0| - 1, |g0[|g0| - 1].ops| + |SimpleOps(s.init) + SimpleOps(s.tag)|), ps, SetOf(brk)), HereIn(g0),
          HereIn(g))
  {
    hide Walk, Grows, AllIds, ClauseOk, ClauseLaid, SwitchEnd, SimpleOps, AddOps, ListBefore;
    var b0, cs, ops := |g0| - 1, s.clauses, SimpleOps(s.init) + SimpleOps(s.tag);
    var last := ListBefore(b0, cs, ps, |cs|);
    PoppedSwitchWidens(env0, l, env2, env);
    DefaultBody(gc, env2, cs, ps, b0, exits);
    SwitchEndLaid(gc, b0, last, DefaultBlock(cs, ps, |cs|), exits, brk);
    ExtendsTrans(AddOps(g0, b0, ops), gc, g);
    LaidHere(g0, ops, g);
    forall j | 0 <= j < |cs|
      ensures ClauseOk(g, b0, cs, ps, j)
      ensures Walk(g, env2, cs[j].body, None, ps[j].lay, Pos(ps[j].body, 0), ps[j].end)
      ensures ps[j].end.blk < |gc| && (!cs[j].falls ==> EdgeTo(g, ps[j].end.blk, |gc|))
    {
      assert ClauseLaid(gc, env2, cs, ps, j, b0, exits);
      ClauseLater(gc, g, env2, cs, ps, j, b0, exits);
    }
  }

  lemma ClauseLater(gc: Graph, g: Graph, env: Env, cs: seq<Clause>, ps: seq<Place>, j: nat, b0: nat, exits: seq<nat>)
    requires ValidEnv(env) && j < |cs| && j < |ps| && ClauseLaid(gc, env, cs, ps, j, b0, exits) && Extends(gc, g)
    ensures ClauseOk(g, b0, cs, ps, j)
    ensures Walk(g, env, cs[j].body, None, ps[j].lay, Pos(ps[j].body, 0), ps[j].end)
    ensures ps[j].end.blk < |gc| && (!cs[j].falls ==> ps[j].end.blk in exits)
  {
    ExtendsGrows(gc, g, |gc|);
    ClauseGrows(gc, g, |gc|, b0, cs, ps, j);
    WidensSelf(env);
    WalkLater(gc, g, env, env, cs[j].body, None, ps[j].lay, Pos(ps[j].body, 0), ps[j].end);
  }

  lemma SwitchLaid(g0: Graph, gc: Graph, g: Graph, env0: Env, env2: Env, env: Env, s: Stmt, l: Option<Label>,
      ps: seq<Place>, exits: seq<nat>, brk: seq<nat>)
    returns (lay: Lay)
    requires SwitchPieces(g0, gc, g, env0, env2, env, s, l, ps, exits, brk)
    ensures Visited(g0, env0, g, env, s, l, lay)
    ensures lay.LSwitch? && lay.places == ps && lay.brkSrc == SetOf(brk)
  {
    assert s.Switch? && |g0| > 0;
    hide WalkSwitch, AllIds, Widens, SwitchEnd, SwitchPieces, SimpleOps, SetOf, Continues, Walk, Ids;
    lay := LSwitch(Pos(|g0| - 1, |g0[|g0| - 1].ops| + |SimpleOps(s.init) + SimpleOps(s.tag)|), ps, SetOf(brk));
    SwitchWalk(g0, gc, g, env0, env2, env, s, l, ps, exits, brk);
    SwitchIds(g0, gc, g, env0, env2, env, s, l, ps, exits, brk);
    SwitchIsWalk(g0, g, env0, env, s, l, lay);
  }

  lemma SwitchIsWalk(g0: Graph, g: Graph, env0: Env, env: Env, s: Stmt, l: Option<Label>, lay: Lay)
    requires s.Switch? && Widens(env0, env) && Continues(g0, g)
    requires WalkSwitch(g, env, s, l, lay, HereIn(g0), HereIn(g))
    ensures Walk(g, env, s, l, lay, HereIn(g0), HereIn(g))
  {
    hide WalkSwitch;
  }

  predicate BodiesFormed(s: Stmt, brk: seq<Option<Label>>, cont: seq<Option<Label>>)
    requires s.Switch?
  {
    && (forall i :: 0 <= i < |s.clauses| ==> WellFormed(s.clauses[i].body, brk, cont, None))
    && (forall i, j :: 0 <= i < j < |s.clauses| ==> s.clauses[i].list.Some? || s.clauses[j].list.Some?)
  }

  lemma ClauseListSize(g: Graph, c: Clause, list: nat)
    requires list < |g|
    ensures |ClauseList(g, c, list)| == |g| + if c.list.Some? then 1 else 0
  {}

  lemma NoClauses(g: Graph, env: Env, cs: seq<Clause>, b0: nat)
    requires ValidEnv(env) && b0 < |g|
    ensures ClausesUpTo(g, env, cs, [], 0, b0, []) && ListBefore(b0, cs, [], 0) == b0
    ensures DefaultBlock(cs, [], 0) == None
  {}

  /** One more clause, in terms of the whole switch. */
  lemma ClauseStepFacts(g0: Graph, g: Graph, g': Graph, env0: Env, env: Env, env': Env, s: Stmt, ps: seq<Place>,
      i: nat, b0: nat, exits: seq<nat>, fall: seq<nat>, p: Place)
    requires s.Switch? && i < |s.clauses| && |ps| == i
    requires ClauseAdded(g, g', env', s.clauses[i], ListBefore(b0, s.clauses, ps, i), fall, p)
    requires Extends(g0, g) && Widens(env0, env) && Widens(env, env')
    requires forall j, k :: 0 <= j < k < |s.clauses| ==> s.clauses[j].list.Some? || s.clauses[k].list.Some?
    ensures Extends(g0, g') && Widens(env0, env')
    ensures AllIds(g') + multiset(ClauseIds(s, i + 1)) == AllIds(g) + multiset(ClauseIds(s, i))
    ensures ListBefore(b0, s.clauses, ps + [p], i + 1) == if s.clauses[i].list.Some? then p.list
        else ListBefore(b0, s.clauses, ps, i)
    ensures DefaultBlock(s.clauses, ps + [p], i + 1) == if s.clauses[i].list.None? then Some(p.body)
        else DefaultBlock(s.clauses, ps, i)
  {
    hide Walk, Grows, AllIds, LaidOut;
    ClauseAddedFacts(g, g', env', s.clauses[i], ListBefore(b0, s.clauses, ps, i), fall, p);
    ExtendsTrans(g0, g, g');
    WidensTrans(env0, env, env');
    ListBeforeStep(b0, s.clauses, ps, p);
    assert ClauseIds(s, i) == Ids(s.clauses[i].body) + ClauseIds(s, i + 1);
  }
}
