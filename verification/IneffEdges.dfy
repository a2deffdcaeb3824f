/** The edges of the block graph: a statement adds those of its layout and no others. */
module IneffEdges {
  import opened Options
  import opened IneffGraph
  import opened IneffLang
  import opened IneffLayout
  import opened IneffGrowth

  ghost function Edges(g: Graph): iset<(nat, nat)> {
    iset e: (nat, nat) | e.0 < |g| && e.1 in g[e.0].children
  }

  /** The edges from all of `srcs` to `c`. */
  ghost function From(srcs: set<nat>, c: nat): iset<(nat, nat)> {
    iset e: (nat, nat) | e.0 in srcs && e.1 == c
  }

  /** The edges of a statement that was laid out from block `a` to block `b`. */
  ghost function Drawing(s: Stmt, lay: Lay, a: nat, b: nat): iset<(nat, nat)>
    decreases s, 1, 0
  {
    match (s, lay)
    case (Then(s1, s2), LThen(l1, mid, l2)) => Drawing(s1, l1, a, mid.blk) + Drawing(s2, l2, mid.blk, b)
    case (If(_, _, thn, els), LIf(_, t, l1, end1, e, l2, end2)) =>
      iset{(a, t)} + Drawing(thn, l1, t, end1.blk) + iset{(end1.blk, b)} +
      (if els.None? then iset{(a, b)} else iset{(a, e)} + Drawing(els.value, l2, e, end2.blk) + iset{(end2.blk, b)})
    case (For(_, _, _, body), LFor(_, start, inner, l1, end1, after, brk, cont)) =>
      iset{(a, start)} + iset{(start, inner)} + Drawing(body, l1, inner, end1.blk) + iset{(end1.blk, after)} +
      From(cont, after) + iset{(after, start)} + iset{(start, b)} + From(brk, b)
    case (Range(_, _, body), LRange(_, pre, start, l1, end1, brk, cont)) =>
      iset{(a, pre)} + iset{(pre, start)} + Drawing(body, l1, start, end1.blk) + iset{(end1.blk, start)} +
      From(cont, pre) + iset{(pre, b)} + iset{(end1.blk, b)} + From(brk, b)
    case (Switch(_, _, cs), LSwitch(_, ps, brk)) =>
      if |ps| != |cs| then iset{}
      else ClauseDrawings(s, ps, |cs|, a) + From(Ends(cs, ps, |cs|), b) + SwitchWay(cs, ps, a, b) + From(brk, b)
    case (Labeled(_, s1), LLabeled(blk, l1)) => iset{(a, blk)} + Drawing(s1, l1, blk, b)
    case _ => iset{}
  }

  /** The edges of the first `i` clauses of a switch: to the lists, from there to the bodies, from
      a body that falls through to the next one, and within the bodies. */
  ghost function ClauseDrawings(s: Stmt, ps: seq<Place>, i: nat, b0: nat): iset<(nat, nat)>
    requires s.Switch? && i <= |s.clauses| && i <= |ps|
    decreases s, 0, i
  {
    if i == 0 then iset{}
    else
      var c, p := s.clauses[i - 1], ps[i - 1];
      ClauseDrawings(s, ps, i - 1, b0) + Entries(s.clauses, ps[..i - 1], i - 1, b0, p) +
      Drawing(c.body, p.lay, p.body, p.end.blk)
  }

  /** The edges that lead to clause `i`. */
  ghost function Entries(cs: seq<Clause>, ps: seq<Place>, i: nat, b0: nat, p: Place): iset<(nat, nat)>
    requires i < |cs| && i == |ps|
  {
    (if cs[i].list.Some? then iset{(ListBefore(b0, cs, ps, i), p.list)} + iset{(p.list, p.body)} else iset{}) +
    (if i > 0 && cs[i - 1].falls then iset{(ps[i - 1].end.blk, p.body)} else iset{})
  }

  /** The ends of those of the first `i` clauses that do not fall through. */
  function Ends(cs: seq<Clause>, ps: seq<Place>, i: nat): set<nat>
    requires i <= |cs| && i <= |ps|
  {
    if i == 0 then {}
    else Ends(cs, ps, i - 1) + if cs[i - 1].falls then {} else {ps[i - 1].end.blk}
  }

  /** The edge of a switch that is taken when no clause matches. */
  ghost function SwitchWay(cs: seq<Clause>, ps: seq<Place>, b0: nat, after: nat): iset<(nat, nat)>
    requires |ps| == |cs|
  {
    var k := DefaultIx(cs);
    if k < |cs| then iset{(ListBefore(b0, cs, ps, |cs|), ps[k].body)} else iset{(b0, after)}
  }

  /** `s` has been added to `g0` at the end of its newest block, with the edges of its layout only. */
  ghost predicate Drawn(g0: Graph, g: Graph, s: Stmt, lay: Lay) {
    |g0| > 0 && |g| > 0 && Edges(g) == Edges(g0) + Drawing(s, lay, |g0| - 1, |g| - 1)
  }

  /** `s` has been added in new blocks below `from`. */
  ghost predicate DrawnBelow(g: Graph, from: seq<nat>, g': Graph, s: Stmt, lay: Lay) {
    |g'| > 0 && Edges(g') == Edges(g) + From(SetOf(from), |g|) + Drawing(s, lay, |g|, |g'| - 1)
  }

  // ----- the edges of the pieces -----

  lemma OpsDrawn(g: Graph, b: nat, ops: seq<Op>)
    requires b < |g|
    ensures Edges(AddOps(g, b, ops)) == Edges(g)
  {}

  lemma EdgeDrawn(g: Graph, b: nat, c: nat)
    requires b < |g|
    ensures Edges(AddEdge(g, b, c)) == Edges(g) + iset{(b, c)}
  {
    var g' := AddEdge(g, b, c);
    forall e: (nat, nat)
      ensures e in Edges(g') <==> e in Edges(g) || e == (b, c)
    {
      if e.0 == b { assert g'[b].children == g[b].children + [c]; }
    }
  }

  lemma {:induction false} EdgesDrawn(g: Graph, from: seq<nat>, c: nat)
    requires forall k :: 0 <= k < |from| ==> from[k] < |g|
    ensures Edges(AddEdges(g, from, c)) == Edges(g) + From(SetOf(from), c)
    decreases |from|
  {
    if from == [] {
      assert From(SetOf(from), c) == iset{};
    } else {
      var rest, last := from[..|from| - 1], from[|from| - 1];
      EdgesDrawn(g, rest, c);
      EdgeDrawn(AddEdges(g, rest, c), last, c);
      assert from == rest + [last];
      assert From(SetOf(from), c) == From(SetOf(rest), c) + iset{(last, c)};
    }
  }

  lemma BlockDrawn(g: Graph, from: seq<nat>)
    requires forall k :: 0 <= k < |from| ==> from[k] < |g|
    ensures Edges(AddBlock(g, from)) == Edges(g) + From(SetOf(from), |g|)
  {
    var g' := g + [BlockV([], [])];
    assert Edges(g') == Edges(g);
    EdgesDrawn(g', from, |g|);
  }

  lemma FromOne(b: nat, c: nat)
    ensures From(SetOf([b]), c) == iset{(b, c)}
  {
    assert SetOf([b]) == {b};
  }

  lemma BlockBelow(g: Graph, b: nat)
    requires b < |g|
    ensures Edges(AddBlock(g, [b])) == Edges(g) + iset{(b, |g|)}
  {
    BlockDrawn(g, [b]);
    FromOne(b, |g|);
  }

  lemma JoinDrawn(g: Graph, a: nat, b: nat)
    requires a < |g| && b < |g|
    ensures Edges(AddJoin(g, a, b)) == Edges(g) + iset{(a, |g|)} + iset{(b, |g|)}
  {
    BlockDrawn(g, [a, b]);
    assert SetOf([a, b]) == {a, b};
  }

  lemma SimpleDrawn(g: Graph, ops: seq<Op>, s: Stmt)
    requires |g| > 0 && (IsSimple(s) || s.Return?)
    ensures Drawn(g, AddOps(g, |g| - 1, ops), s, LSimple)
  {
    OpsDrawn(g, |g| - 1, ops);
  }

  lemma JumpDrawn(g: Graph, s: Stmt)
    requires |g| > 0 && (s.Break? || s.Continue?)
    ensures Drawn(g, AddBlock(g, []), s, LJump)
  {
    BlockDrawn(g, []);
  }

  lemma ThenDrawn(g0: Graph, g1: Graph, g: Graph, s1: Stmt, s2: Stmt, l1: Lay, l2: Lay)
    requires Drawn(g0, g1, s1, l1) && Drawn(g1, g, s2, l2)
    ensures Drawn(g0, g, Then(s1, s2), LThen(l1, HereIn(g1), l2))
  {}

  lemma BelowDrawn(g: Graph, from: seq<nat>, g': Graph, s: Stmt, lay: Lay)
    requires (forall k :: 0 <= k < |from| ==> from[k] < |g|) && Drawn(AddBlock(g, from), g', s, lay)
    ensures DrawnBelow(g, from, g', s, lay)
  {
    BlockDrawn(g, from);
  }

  lemma LabeledDrawn(g0: Graph, g: Graph, name: Label, s: Stmt, l1: Lay)
    requires |g0| > 0 && DrawnBelow(g0, [|g0| - 1], g, s, l1)
    ensures Drawn(g0, g, Labeled(name, s), LLabeled(|g0|, l1))
  {
    FromOne(|g0| - 1, |g0|);
  }

  /** The edges of the pieces of an if statement, one after the other. */
  lemma IfEdges(g0: Graph, gc: Graph, g1: Graph, g2: Graph, g3: Graph, env1: Env, env2: Env, s: Stmt, l1: Lay, l2: Lay)
    requires IfPieces(g0, gc, g1, g2, g3, env1, env2, s, l1, l2)
    ensures s.If? && 0 < |g0| == |gc| && |g1| > 0 && |g3| == |g2| + 1 && (s.els.None? ==> g2 == g1)
    ensures Edges(gc) == Edges(g0)
    ensures Edges(g3) == Edges(g2) + iset{(if s.els.None? then |gc| - 1 else |g2| - 1, |g2|)} + iset{(|g1| - 1, |g2|)}
  {
    hide LaidOut, AddOps, AddJoin, Edges, SimpleOps, UsesOf, Widens;
    OpsDrawn(g0, |g0| - 1, SimpleOps(s.init) + UsesOf(s.cond));
    JoinDrawn(g2, if s.els.None? then |gc| - 1 else |g2| - 1, |g1| - 1);
  }

  lemma IfDrawn(g0: Graph, gc: Graph, g1: Graph, g2: Graph, g3: Graph, env1: Env, env2: Env, s: Stmt, l1: Lay, l2: Lay)
    requires IfPieces(g0, gc, g1, g2, g3, env1, env2, s, l1, l2)
    requires DrawnBelow(gc, [|gc| - 1], g1, s.thn, l1)
    requires s.els.Some? ==> DrawnBelow(g1, [|gc| - 1], g2, s.els.value, l2)
    ensures Drawn(g0, g3, s, LIf(HereIn(gc), |gc|, l1, HereIn(g1), |g1|, l2, HereIn(g2)))
  {
    hide IfPieces, Edges, From, SetOf;
    IfEdges(g0, gc, g1, g2, g3, env1, env2, s, l1, l2);
    FromOne(|gc| - 1, |gc|);
    if s.els.None? {
      assert Edges(g1) == Edges(gc) + iset{(|gc| - 1, |gc|)} + Drawing(s.thn, l1, |gc|, |g1| - 1);
    } else {
      FromOne(|gc| - 1, |g1|);
      assert Edges(g2) == Edges(g1) + iset{(|gc| - 1, |g1|)} + Drawing(s.els.value, l2, |g1|, |g2| - 1);
    }
  }

  lemma IfDone(g0: Graph, gc: Graph, g1: Graph, g2: Graph, g3: Graph, env0: Env, env1: Env, env2: Env, s: Stmt,
      l: Option<Label>, l1: Lay, l2: Lay)
    returns (lay: Lay)
    requires IfPieces(g0, gc, g1, g2, g3, env1, env2, s, l1, l2) && Widens(env0, env1)
    requires DrawnBelow(gc, [|gc| - 1], g1, s.thn, l1)
    requires s.els.Some? ==> DrawnBelow(g1, [|gc| - 1], g2, s.els.value, l2)
    ensures Visited(g0, env0, g3, env2, s, l, lay) && Drawn(g0, g3, s, lay)
  {
    lay := LIf(HereIn(gc), |gc|, l1, HereIn(g1), |g1|, l2, HereIn(g2));
    hide IfPieces, DrawnBelow, Visited, Drawn, Widens, HereIn;
    IfLaid(g0, gc, g1, g2, g3, env0, env1, env2, s, l, l1, l2);
    IfDrawn(g0, gc, g1, g2, g3, env1, env2, s, l1, l2);
  }

  lemma ForHeadDrawn(g0: Graph, init: seq<Op>, cond: seq<Op>)
    requires |g0| > 0
    ensures Edges(ForHead(g0, init, cond)) == Edges(g0) + iset{(|g0| - 1, |g0|)}
  {
    hide AddOps, AddBlock, Edges;
    var ga := AddOps(g0, |g0| - 1, init);
    OpsDrawn(g0, |g0| - 1, init);
    BlockBelow(ga, |g0| - 1);
    OpsDrawn(AddBlock(ga, [|g0| - 1]), |g0|, cond);
  }

  lemma ForTailDrawn(gb: Graph, post: seq<Op>, start: nat, cont: seq<nat>, brk: seq<nat>)
    requires start < |gb| && forall k :: 0 <= k < |cont| ==> cont[k] < |gb|
    requires forall k :: 0 <= k < |brk| ==> brk[k] < |gb|
    ensures Edges(ForTail(gb, post, start, cont, brk)) == Edges(gb) + iset{(|gb| - 1, |gb|)} +
      From(SetOf(cont), |gb|) + iset{(|gb|, start)} + iset{(start, |gb| + 1)} + From(SetOf(brk), |gb| + 1)
  {
    hide AddOps, AddBlock, AddEdge, AddEdges, Edges, From, SetOf;
    var gp := AddBlock(gb, [|gb| - 1]);
    var gq := AddEdges(gp, cont, |gb|);
    var gr := AddOps(gq, |gb|, post);
    var gu := AddEdge(gr, |gb|, start);
    BlockBelow(gb, |gb| - 1);
    EdgesDrawn(gp, cont, |gb|);
    OpsDrawn(gq, |gb|, post);
    EdgeDrawn(gr, |gb|, start);
    BlockBelow(gu, start);
    EdgesDrawn(AddBlock(gu, [start]), brk, |gu|);
  }

  /** The edges of the pieces of a for statement, one after the other. */
  lemma ForEdges(g0: Graph, gt: Graph, gb: Graph, g: Graph, env0: Env, env2: Env, env: Env, s: Stmt, l: Option<Label>,
      l1: Lay, cont: seq<nat>, brk: seq<nat>)
    requires ForPieces(g0, gt, gb, g, env0, env2, env, s, l, l1, cont, brk)
    ensures s.For? && 0 < |g0| == |gt| - 1 && |g| == |gb| + 2
    ensures Edges(gt) == Edges(g0) + iset{(|g0| - 1, |g0|)}
    ensures Edges(g) == Edges(gb) + iset{(|gb| - 1, |gb|)} + From(SetOf(cont), |gb|) + iset{(|gb|, |g0|)} +
      iset{(|g0|, |gb| + 1)} + From(SetOf(brk), |gb| + 1)
  {
    hide LaidOut, ForHead, ForTail, Edges, From, SetOf, SimpleOps, UsesOf, Widens, Popped, Extends, AllIds, Ids;
    LaidOutGrows(gt, [|g0|], gb, env2, s.body, None, l1);
    ForHeadDrawn(g0, SimpleOps(s.init), UsesOf(s.cond));
    ForTailDrawn(gb, SimpleOps(s.post), |g0|, cont, brk);
  }

  lemma ForDrawn(g0: Graph, gt: Graph, gb: Graph, g: Graph, env0: Env, env2: Env, env: Env, s: Stmt, l: Option<Label>,
      l1: Lay, cont: seq<nat>, brk: seq<nat>, lay: Lay)
    requires ForPieces(g0, gt, gb, g, env0, env2, env, s, l, l1, cont, brk) && DrawnBelow(gt, [|g0|], gb, s.body, l1)
    requires lay.LFor? && lay.start == |g0| && lay.inner == |gt| && lay.l1 == l1 && lay.end1 == HereIn(gb)
    requires lay.after == |gb| && lay.brkSrc == SetOf(brk) && lay.contSrc == SetOf(cont)
    ensures Drawn(g0, g, s, lay)
  {
    hide ForPieces, Edges, From, SetOf;
    ForEdges(g0, gt, gb, g, env0, env2, env, s, l, l1, cont, brk);
    FromOne(|g0|, |gt|);
  }

  lemma ForDone(g0: Graph, gt: Graph, gb: Graph, g: Graph, env0: Env, env2: Env, env: Env, s: Stmt, l: Option<Label>,
      l1: Lay, cont: seq<nat>, brk: seq<nat>)
    returns (lay: Lay)
    requires ForPieces(g0, gt, gb, g, env0, env2, env, s, l, l1, cont, brk) && DrawnBelow(gt, [|g0|], gb, s.body, l1)
    ensures Visited(g0, env0, g, env, s, l, lay) && Drawn(g0, g, s, lay)
  {
    hide ForPieces, DrawnBelow, Visited, Drawn, SetOf;
    lay := ForLaid(g0, gt, gb, g, env0, env2, env, s, l, l1, cont, brk);
    ForDrawn(g0, gt, gb, g, env0, env2, env, s, l, l1, cont, brk, lay);
  }

  lemma RangeHeadDrawn(g0: Graph, over: seq<Op>, vars: seq<Op>)
    requires |g0| > 0
    ensures Edges(RangeHead(g0, over, vars)) == Edges(g0) + iset{(|g0| - 1, |g0|)} + iset{(|g0|, |g0| + 1)}
  {
    hide AddOps, AddBlock, Edges;
    var ga := AddOps(g0, |g0| - 1, over);
    var gp := AddBlock(ga, [|g0| - 1]);
    OpsDrawn(g0, |g0| - 1, over);
    BlockBelow(ga, |g0| - 1);
    BlockBelow(gp, |g0|);
    OpsDrawn(AddBlock(gp, [|g0|]), |g0| + 1, vars);
  }

  lemma RangeTailDrawn(gb: Graph, pre: nat, start: nat, cont: seq<nat>, brk: seq<nat>)
    requires pre < |gb| && start < |gb| && forall k :: 0 <= k < |cont| ==> cont[k] < |gb|
    requires forall k :: 0 <= k < |brk| ==> brk[k] < |gb|
    ensures Edges(RangeTail(gb, pre, start, cont, brk)) == Edges(gb) + iset{(|gb| - 1, start)} +
      From(SetOf(cont), pre) + iset{(pre, |gb|)} + iset{(|gb| - 1, |gb|)} + From(SetOf(brk), |gb|)
  {
    hide AddJoin, AddEdge, AddEdges, Edges, From, SetOf;
    var gu := AddEdge(gb, |gb| - 1, start);
    var gv := AddEdges(gu, cont, pre);
    EdgeDrawn(gb, |gb| - 1, start);
    EdgesDrawn(gu, cont, pre);
    JoinDrawn(gv, pre, |gb| - 1);
    EdgesDrawn(AddJoin(gv, pre, |gb| - 1), brk, |gb|);
  }

  lemma RangeDrawn(g0: Graph, gt: Graph, gb: Graph, g: Graph, env0: Env, env2: Env, env: Env, s: Stmt,
      l: Option<Label>, l1: Lay, cont: seq<nat>, brk: seq<nat>, lay: Lay)
    requires RangePieces(g0, gt, gb, g, env0, env2, env, s, l, l1, cont, brk) && Drawn(gt, gb, s.body, l1)
    requires lay.LRange? && lay.pre == |g0| && lay.start == |g0| + 1 && lay.l1 == l1 && lay.end1 == HereIn(gb)
    requires lay.brkSrc == SetOf(brk) && lay.contSrc == SetOf(cont)
    ensures Drawn(g0, g, s, lay)
  {
    hide Visited, RangeHead, RangeTail, Edges, From, SetOf, AllLhsOps, UsesOf, Popped;
    RangeHeadDrawn(g0, UsesOf(s.over), AllLhsOps(s.vars, false));
    RangeTailDrawn(gb, |g0|, |g0| + 1, cont, brk);
  }

  lemma RangeDone(g0: Graph, gt: Graph, gb: Graph, g: Graph, env0: Env, env2: Env, env: Env, s: Stmt, l: Option<Label>,
      l1: Lay, cont: seq<nat>, brk: seq<nat>)
    returns (lay: Lay)
    requires RangePieces(g0, gt, gb, g, env0, env2, env, s, l, l1, cont, brk) && Drawn(gt, gb, s.body, l1)
    ensures Visited(g0, env0, g, env, s, l, lay) && Drawn(g0, g, s, lay)
  {
    hide RangePieces, Visited, Drawn, SetOf;
    lay := RangeLaid(g0, gt, gb, g, env0, env2, env, s, l, l1, cont, brk);
    RangeDrawn(g0, gt, gb, g, env0, env2, env, s, l, l1, cont, brk, lay);
  }

  // ----- switches -----

  lemma {:induction false} EndsMore(cs: seq<Clause>, ps: seq<Place>, p: Place, i: nat)
    requires i <= |cs| && i <= |ps|
    ensures Ends(cs, ps + [p], i) == Ends(cs, ps, i)
    decreases i
  {
    if i > 0 { EndsMore(cs, ps, p, i - 1); }
  }

  lemma {:induction false} ClauseDrawingsMore(s: Stmt, ps: seq<Place>, p: Place, i: nat, b0: nat)
    requires s.Switch? && i <= |s.clauses| && i <= |ps|
    ensures ClauseDrawings(s, ps + [p], i, b0) == ClauseDrawings(s, ps, i, b0)
    decreases i
  {
    if i > 0 {
      ClauseDrawingsMore(s, ps, p, i - 1, b0);
      assert (ps + [p])[..i - 1] == ps[..i - 1];
    }
  }

  lemma ClauseDrawingsStep(s: Stmt, ps: seq<Place>, p: Place, b0: nat)
    requires s.Switch? && |ps| < |s.clauses|
    ensures ClauseDrawings(s, ps + [p], |ps| + 1, b0) == ClauseDrawings(s, ps, |ps|, b0) +
      Entries(s.clauses, ps, |ps|, b0, p) + Drawing(s.clauses[|ps|].body, p.lay, p.body, p.end.blk)
  {
    hide Drawing, Entries;
    ClauseDrawingsMore(s, ps, p, |ps|, b0);
    assert (ps + [p])[..|ps|] == ps;
  }

  lemma EntriesDrawn(g: Graph, c: Clause, list: nat, fall: seq<nat>)
    requires list < |g| && |fall| <= 1
    ensures var gl := ClauseList(g, c, list);
      Edges(gl) + From(SetOf(Parents(g, c, fall)), |gl|) == Edges(g) +
        (if c.list.Some? then iset{(list, |g|)} + iset{(|g|, |gl|)} else iset{}) +
        (if fall != [] then iset{(fall[0], |gl|)} else iset{})
  {
    var gl := ClauseList(g, c, list);
    var from := Parents(g, c, fall);
    if c.list.Some? {
      BlockBelow(g, list);
      OpsDrawn(AddBlock(g, [list]), |g|, UsesOf(Flat(c.list.value)));
      if fall != [] { assert from == [|g|, fall[0]]; }
      assert SetOf(from) == {|g|} + if fall != [] then {fall[0]} else {};
    } else {
      assert from == fall;
      assert SetOf(from) == if fall != [] then {fall[0]} else {};
    }
  }

  /** The first `i` clauses have been added to `g0`, and nothing else: `exits` are the blocks
      from which the switch is left, `fall` those that fall through to clause `i`. */
  ghost predicate ClausesDrawn(g0: Graph, g: Graph, s: Stmt, ps: seq<Place>, i: nat, b0: nat, exits: seq<nat>,
      fall: seq<nat>) {
    && s.Switch? && |ps| == i <= |s.clauses|
    && Edges(g) == Edges(g0) + ClauseDrawings(s, ps, i, b0)
    && SetOf(exits) == Ends(s.clauses, ps, i)
    && fall == if i > 0 && s.clauses[i - 1].falls then [ps[i - 1].end.blk] else []
  }

  /** All clauses of a switch have been added to `g0`. */
  ghost predicate AllDrawn(g0: Graph, g: Graph, s: Stmt, ps: seq<Place>, b0: nat, exits: seq<nat>)
    requires s.Switch?
  {
    exists fall :: ClausesDrawn(g0, g, s, ps, |s.clauses|, b0, exits, fall)
  }

  lemma AllClausesDrawn(g0: Graph, g: Graph, s: Stmt, ps: seq<Place>, b0: nat, exits: seq<nat>, fall: seq<nat>)
    requires s.Switch? && ClausesDrawn(g0, g, s, ps, |s.clauses|, b0, exits, fall)
    ensures AllDrawn(g0, g, s, ps, b0, exits)
  {}

  lemma ClausesDrawnStep(g0: Graph, g: Graph, g': Graph, env: Env, s: Stmt, ps: seq<Place>, i: nat, b0: nat,
      exits: seq<nat>, fall: seq<nat>, p: Place)
    requires ClausesDrawn(g0, g, s, ps, i, b0, exits, fall) && i < |s.clauses|
    requires ClauseAdded(g, g', env, s.clauses[i], ListBefore(b0, s.clauses, ps, i), fall, p)
    requires DrawnBelow(ClauseList(g, s.clauses[i], ListBefore(b0, s.clauses, ps, i)), Parents(g, s.clauses[i], fall),
        g', s.clauses[i].body, p.lay)
    ensures ClausesDrawn(g0, g', s, ps + [p], i + 1, b0, if s.clauses[i].falls then exits else exits + [|g'| - 1],
        if s.clauses[i].falls then [|g'| - 1] else [])
  {
    hide ClauseAdded, DrawnBelow, ClauseDrawings, Edges, ListBefore, ClauseList;
    ClauseDrawn(g0, g, g', env, s, ps, i, b0, fall, p);
    EndsMore(s.clauses, ps, p, i);
    ClausePlace(g, g', env, s.clauses[i], ListBefore(b0, s.clauses, ps, i), fall, p);
    assert (ps + [p])[i] == p;
    assert SetOf(exits + [|g'| - 1]) == SetOf(exits) + {|g'| - 1};
  }

  /** One more clause. */
  lemma ClauseDrawn(g0: Graph, g: Graph, g': Graph, env: Env, s: Stmt, ps: seq<Place>, i: nat, b0: nat, fall: seq<nat>,
      p: Place)
    requires s.Switch? && |ps| == i < |s.clauses|
    requires Edges(g) == Edges(g0) + ClauseDrawings(s, ps, i, b0)
    requires ClauseAdded(g, g', env, s.clauses[i], ListBefore(b0, s.clauses, ps, i), fall, p)
    requires DrawnBelow(ClauseList(g, s.clauses[i], ListBefore(b0, s.clauses, ps, i)), Parents(g, s.clauses[i], fall),
        g', s.clauses[i].body, p.lay)
    requires fall == if i > 0 && s.clauses[i - 1].falls then [ps[i - 1].end.blk] else []
    ensures Edges(g') == Edges(g0) + ClauseDrawings(s, ps + [p], i + 1, b0)
  {
    hide LaidOut, Edges, From, ClauseList, SetOf, ListBefore, Drawing, ClauseDrawings;
    var c, list := s.clauses[i], ListBefore(b0, s.clauses, ps, i);
    EntriesDrawn(g, c, list, fall);
    ClauseDrawingsStep(s, ps, p, b0);
    assert Edges(g') == Edges(g) + Entries(s.clauses, ps, i, b0, p) + Drawing(c.body, p.lay, p.body, p.end.blk);
  }

  /** The first `i` clauses have been added to `g0`. */
  ghost predicate SoFar(g0: Graph, g: Graph, env0: Env, env: Env, s: Stmt, ps: seq<Place>, i: nat, b0: nat,
      exits: seq<nat>, fall: seq<nat>) {
    && s.Switch? && i <= |s.clauses| && Widens(env0, env) && Extends(g0, g)
    && ClausesUpTo(g, env, s.clauses, ps, i, b0, exits)
    && ClausesDrawn(g0, g, s, ps, i, b0, exits, fall)
    && AllIds(g) + multiset(ClauseIds(s, i)) == AllIds(g0) + multiset(ClauseIds(s, 0))
  }

  lemma NoneSoFar(g: Graph, env: Env, s: Stmt, b0: nat)
    requires s.Switch? && ValidEnv(env) && b0 < |g|
    ensures SoFar(g, g, env, env, s, [], 0, b0, [], []) && ListBefore(b0, s.clauses, [], 0) == b0
    ensures DefaultBlock(s.clauses, [], 0) == None
  {
    WidensSelf(env);
    ExtendsSelf(g);
    NoClauses(g, env, s.clauses, b0);
  }

  lemma SoFarStep(g0: Graph, g: Graph, g': Graph, env0: Env, env: Env, env': Env, s: Stmt, ps: seq<Place>, i: nat,
      b0: nat, exits: seq<nat>, fall: seq<nat>, p: Place)
    requires SoFar(g0, g, env0, env, s, ps, i, b0, exits, fall) && Widens(env, env') && i < |s.clauses| && |ps| == i
    requires ClauseAdded(g, g', env', s.clauses[i], ListBefore(b0, s.clauses, ps, i), fall, p)
    requires DrawnBelow(ClauseList(g, s.clauses[i], ListBefore(b0, s.clauses, ps, i)), Parents(g, s.clauses[i], fall),
        g', s.clauses[i].body, p.lay)
    requires forall j, k :: 0 <= j < k < |s.clauses| ==> s.clauses[j].list.Some? || s.clauses[k].list.Some?
    ensures SoFar(g0, g', env0, env', s, ps + [p], i + 1, b0,
        if s.clauses[i].falls then exits else exits + [|g'| - 1], if s.clauses[i].falls then [|g'| - 1] else [])
    ensures env'.brk == env0.brk && env'.cont == env0.cont
    ensures ListBefore(b0, s.clauses, ps + [p], i + 1) == if s.clauses[i].list.Some? then p.list
        else ListBefore(b0, s.clauses, ps, i)
    ensures DefaultBlock(s.clauses, ps + [p], i + 1) == if s.clauses[i].list.None? then Some(p.body)
        else DefaultBlock(s.clauses, ps, i)
  {
    assert i > 0 && s.clauses[i - 1].falls ==> fall == [|g| - 1];
    hide ClauseAdded, DrawnBelow, ClausesDrawn, ClausesUpTo, ListBefore, Extends, AllIds, ClauseList, DefaultBlock;
    ClauseStep(g, g', env, env', s.clauses, ps, i, b0, exits, fall, p);
    ClauseStepFacts(g0, g, g', env0, env, env', s, ps, i, b0, exits, fall, p);
    ClausesDrawnStep(g0, g, g', env', s, ps, i, b0, exits, fall, p);
  }

  lemma AllSoFar(g0: Graph, g: Graph, env0: Env, env: Env, s: Stmt, ps: seq<Place>, b0: nat, exits: seq<nat>,
      fall: seq<nat>)
    requires s.Switch? && SoFar(g0, g, env0, env, s, ps, |s.clauses|, b0, exits, fall)
    ensures Widens(env0, env) && Extends(g0, g) && ClausesUpTo(g, env, s.clauses, ps, |s.clauses|, b0, exits)
    ensures AllIds(g) == AllIds(g0) + multiset(ClauseIds(s, 0)) && AllDrawn(g0, g, s, ps, b0, exits)
  {
    hide ClausesUpTo, ClausesDrawn, Widens, Extends, AllIds;
    AllClausesDrawn(g0, g, s, ps, b0, exits, fall);
  }

  lemma SwitchEndDrawn(gc: Graph, b0: nat, last: nat, dflt: Option<nat>, exits: seq<nat>, brk: seq<nat>)
    requires b0 < |gc| && last < |gc| && forall k :: 0 <= k < |exits| ==> exits[k] < |gc|
    requires forall k :: 0 <= k < |brk| ==> brk[k] < |gc|
    ensures Edges(SwitchEnd(gc, b0, last, dflt, exits, brk)) == Edges(gc) + From(SetOf(exits), |gc|) +
      (if dflt.Some? then iset{(last, dflt.value)} else iset{(b0, |gc|)}) + From(SetOf(brk), |gc|)
  {
    hide AddBlock, AddEdges, AddEdge, Edges;
    var g1 := if dflt.Some? then AddEdge(gc, last, dflt.value) else gc;
    var ends := if dflt.Some? then exits else exits + [b0];
    if dflt.Some? {
      EdgeDrawn(gc, last, dflt.value);
    }
    BlockDrawn(g1, ends);
    EdgesDrawn(AddBlock(g1, ends), brk, |gc|);
    assert SetOf(ends) == SetOf(exits) + if dflt.Some? then {} else {b0};
  }

  lemma SwitchDrawn(g0: Graph, gc: Graph, g: Graph, env0: Env, env2: Env, env: Env, s: Stmt, l: Option<Label>,
      ps: seq<Place>, exits: seq<nat>, brk: seq<nat>, lay: Lay)
    requires SwitchPieces(g0, gc, g, env0, env2, env, s, l, ps, exits, brk)
    requires AllDrawn(AddOps(g0, |g0| - 1, SimpleOps(s.init) + SimpleOps(s.tag)), gc, s, ps, |g0| - 1, exits)
    requires lay.LSwitch? && lay.places == ps && lay.brkSrc == SetOf(brk)
    ensures Drawn(g0, g, s, lay)
  {
    hide SwitchEnd, Edges, From, ClauseDrawings, ClauseLaid, ListBefore, SetOf, Ends, AddOps, Widens, Extends, AllIds,
        SimpleOps, PoppedSwitch;
    var b0, cs := |g0| - 1, s.clauses;
    SwitchEndDrawn(gc, b0, ListBefore(b0, cs, ps, |cs|), DefaultBlock(cs, ps, |cs|), exits, brk);
    OpsAndMore(g0, SimpleOps(s.init) + SimpleOps(s.tag), gc);
    OpsDrawn(g0, b0, SimpleOps(s.init) + SimpleOps(s.tag));
  }

  lemma OpsAndMore(g0: Graph, ops: seq<Op>, gc: Graph)
    requires |g0| > 0 && Extends(AddOps(g0, |g0| - 1, ops), gc)
    ensures |gc| >= |g0|
  {}

  lemma SwitchDone(g0: Graph, gc: Graph, g: Graph, env0: Env, env2: Env, env: Env, s: Stmt, l: Option<Label>,
      ps: seq<Place>, exits: seq<nat>, brk: seq<nat>)
    returns (lay: Lay)
    requires SwitchPieces(g0, gc, g, env0, env2, env, s, l, ps, exits, brk)
    requires AllDrawn(AddOps(g0, |g0| - 1, SimpleOps(s.init) + SimpleOps(s.tag)), gc, s, ps, |g0| - 1, exits)
    ensures Visited(g0, env0, g, env, s, l, lay) && Drawn(g0, g, s, lay)
  {
    hide SwitchPieces, Visited, Drawn, SetOf, AllDrawn;
    lay := SwitchLaid(g0, gc, g, env0, env2, env, s, l, ps, exits, brk);
    SwitchDrawn(g0, gc, g, env0, env2, env, s, l, ps, exits, brk, lay);
  }
}
