/** How the block graph lays out a statement. */
module IneffLayout {
  import opened Options
  import opened IneffGraph
  import opened IneffLang

  /** The loops and switches around a statement: their labels, and the blocks from which a
      break or continue leads to the place where they are left or continued. */
  datatype Env = Env(brk: seq<Option<Label>>, cont: seq<Option<Label>>, brkSrc: seq<set<nat>>, contSrc: seq<set<nat>>)

  /** The blocks of a clause: list (if any), body, and the end of the body. */
  datatype Place = Place(list: nat, body: nat, lay: Lay, end: Pos)

  /** The blocks and inner positions that a statement was given. */
  datatype Lay =
    | LSimple
    | LThen(l1: Lay, mid: Pos, l2: Lay)
    | LIf(cond: Pos, thn: nat, l1: Lay, end1: Pos, els: nat, l2: Lay, end2: Pos)
    | LFor(init: Pos, start: nat, inner: nat, l1: Lay, end1: Pos, after: nat, brkSrc: set<nat>, contSrc: set<nat>)
    | LRange(over: Pos, pre: nat, start: nat, l1: Lay, end1: Pos, brkSrc: set<nat>, contSrc: set<nat>)
    | LSwitch(tag: Pos, places: seq<Place>, brkSrc: set<nat>)
    | LLabeled(blk: nat, l1: Lay)
    | LJump

  /** From `a` to `b` a block holds exactly `ops`. */
  predicate Holds(g: Graph, a: Pos, ops: seq<Op>, b: Pos) {
    && a.blk == b.blk < |g| && b.ix == a.ix + |ops| <= |g[b.blk].ops|
    && g[b.blk].ops[a.ix..b.ix] == ops
  }

  /** A block that holds exactly `ops`. */
  predicate Full(g: Graph, b: nat, ops: seq<Op>) {
    b < |g| && g[b].ops == ops
  }

  predicate AllEdges(g: Graph, srcs: set<nat>, c: nat) {
    forall b :: b in srcs ==> EdgeTo(g, b, c)
  }

  /** The list block from which clause `i` is tried: that of the last clause before it that has a list. */
  function ListBefore(b0: nat, cs: seq<Clause>, ps: seq<Place>, i: nat): nat
    requires i <= |cs| && i <= |ps|
  {
    if i == 0 then b0
    else if cs[i - 1].list.Some? then ps[i - 1].list
    else ListBefore(b0, cs, ps, i - 1)
  }

  function Inside(env: Env, l: Option<Label>, brkSrc: set<nat>, contSrc: set<nat>): Env {
    Env(env.brk + [l], env.cont + [l], env.brkSrc + [brkSrc], env.contSrc + [contSrc])
  }

  function InsideSwitch(env: Env, l: Option<Label>, brkSrc: set<nat>): Env {
    env.(brk := env.brk + [l], brkSrc := env.brkSrc + [brkSrc])
  }

  predicate ValidEnv(env: Env) {
    |env.brk| == |env.brkSrc| && |env.cont| == |env.contSrc|
  }

  /** The graph lays out `s`, with label `l` in front, from `a` to `b`. Blocks are numbered in
      the order of their creation. */
  predicate Walk(g: Graph, env: Env, s: Stmt, l: Option<Label>, lay: Lay, a: Pos, b: Pos)
    requires ValidEnv(env)
    decreases s, 1
  {
    a.blk <= b.blk < |g| && InGraph(g, b) &&
    match s
    case Then(s1, s2) =>
      && lay.LThen? && lay.mid.blk <= b.blk
      && Walk(g, env, s1, None, lay.l1, a, lay.mid)
      && Walk(g, env, s2, None, lay.l2, lay.mid, b)
    case If(_, _, _, _) => WalkIf(g, env, s, lay, a, b)
    case For(_, _, _, _) => WalkFor(g, env, s, l, lay, a, b)
    case Range(_, _, _) => WalkRange(g, env, s, l, lay, a, b)
    case Switch(_, _, _) => WalkSwitch(g, env, s, l, lay, a, b)
    case Labeled(name, s1) =>
      && lay.LLabeled? && AtEnd(g, a) && a.blk < lay.blk <= b.blk && EdgeTo(g, a.blk, lay.blk)
      && Walk(g, env, s1, Some(name), lay.l1, Pos(lay.blk, 0), b)
    case Break(t) =>
      && AtEnd(g, a) && a.blk < b.blk && b == Pos(b.blk, 0)
      && Find(env.brk, t) < |env.brk| && a.blk in env.brkSrc[Find(env.brk, t)]
    case Continue(t) =>
      && AtEnd(g, a) && a.blk < b.blk && b == Pos(b.blk, 0)
      && Find(env.cont, t) < |env.cont| && a.blk in env.contSrc[Find(env.cont, t)]
    case Return(uses) => Holds(g, a, UsesOf(uses), b)
    case _ => Holds(g, a, SimpleOps(s), b)
  }

  predicate WalkIf(g: Graph, env: Env, s: Stmt, lay: Lay, a: Pos, b: Pos)
    requires ValidEnv(env) && s.If?
    decreases s, 0
  {
    && lay.LIf? && IsSimple(s.init)
    && Holds(g, a, SimpleOps(s.init) + UsesOf(s.cond), lay.cond) && AtEnd(g, lay.cond)
    && EdgeTo(g, a.blk, lay.thn)
    && Walk(g, env, s.thn, None, lay.l1, Pos(lay.thn, 0), lay.end1)
    && AtEnd(g, lay.end1) && a.blk < lay.thn <= lay.end1.blk < b.blk && b == Pos(b.blk, 0)
    && EdgeTo(g, lay.end1.blk, b.blk)
    && (s.els.None? ==> EdgeTo(g, a.blk, b.blk))
    && (s.els.Some? ==>
          && EdgeTo(g, a.blk, lay.els)
          && Walk(g, env, s.els.value, None, lay.l2, Pos(lay.els, 0), lay.end2)
          && AtEnd(g, lay.end2) && lay.els <= lay.end2.blk < b.blk
          && EdgeTo(g, lay.end2.blk, b.blk))
  }

  predicate WalkFor(g: Graph, env: Env, s: Stmt, l: Option<Label>, lay: Lay, a: Pos, b: Pos)
    requires ValidEnv(env) && s.For?
    decreases s, 0
  {
    && lay.LFor? && IsSimple(s.init) && IsSimple(s.post)
    && Holds(g, a, SimpleOps(s.init), lay.init) && AtEnd(g, lay.init)
    && a.blk < lay.start < lay.inner <= lay.end1.blk < lay.after < b.blk && b == Pos(b.blk, 0)
    && EdgeTo(g, a.blk, lay.start) && Full(g, lay.start, UsesOf(s.cond)) && EdgeTo(g, lay.start, lay.inner)
    && Walk(g, Inside(env, l, lay.brkSrc, lay.contSrc), s.body, None, lay.l1, Pos(lay.inner, 0), lay.end1)
    && AtEnd(g, lay.end1) && EdgeTo(g, lay.end1.blk, lay.after) && AllEdges(g, lay.contSrc, lay.after)
    && Full(g, lay.after, SimpleOps(s.post)) && EdgeTo(g, lay.after, lay.start)
    && EdgeTo(g, lay.start, b.blk) && AllEdges(g, lay.brkSrc, b.blk)
  }

  predicate WalkRange(g: Graph, env: Env, s: Stmt, l: Option<Label>, lay: Lay, a: Pos, b: Pos)
    requires ValidEnv(env) && s.Range?
    decreases s, 0
  {
    && lay.LRange?
    && Holds(g, a, UsesOf(s.over), lay.over) && AtEnd(g, lay.over)
    && a.blk < lay.pre < lay.start <= lay.end1.blk < b.blk && b == Pos(b.blk, 0)
    && EdgeTo(g, a.blk, lay.pre) && Full(g, lay.pre, []) && EdgeTo(g, lay.pre, lay.start)
    && Holds(g, Pos(lay.start, 0), AllLhsOps(s.vars, false), Pos(lay.start, |AllLhsOps(s.vars, false)|))
    && Walk(g, Inside(env, l, lay.brkSrc, lay.contSrc), s.body, None, lay.l1,
            Pos(lay.start, |AllLhsOps(s.vars, false)|), lay.end1)
    && AtEnd(g, lay.end1) && EdgeTo(g, lay.end1.blk, lay.start) && AllEdges(g, lay.contSrc, lay.pre)
    && EdgeTo(g, lay.pre, b.blk) && EdgeTo(g, lay.end1.blk, b.blk) && AllEdges(g, lay.brkSrc, b.blk)
  }

  predicate WalkSwitch(g: Graph, env: Env, s: Stmt, l: Option<Label>, lay: Lay, a: Pos, b: Pos)
    requires ValidEnv(env) && s.Switch?
    decreases s, 0
  {
    && lay.LSwitch? && IsSimple(s.init) && IsSimple(s.tag)
    && Holds(g, a, SimpleOps(s.init) + SimpleOps(s.tag), lay.tag) && AtEnd(g, lay.tag)
    && a.blk < b.blk && b == Pos(b.blk, 0) && |lay.places| == |s.clauses|
    && (forall i {:trigger ClauseOk(g, a.blk, s.clauses, lay.places, i)} :: 0 <= i < |s.clauses| ==>
          && ClauseOk(g, a.blk, s.clauses, lay.places, i)
          && Walk(g, InsideSwitch(env, l, lay.brkSrc), s.clauses[i].body, None, lay.places[i].lay,
                  Pos(lay.places[i].body, 0), lay.places[i].end)
          && lay.places[i].end.blk < b.blk
          && (!s.clauses[i].falls ==> EdgeTo(g, lay.places[i].end.blk, b.blk)))
    && (s.clauses != [] ==> !s.clauses[|s.clauses| - 1].falls)
    && SwitchExit(g, s.clauses, lay.places, a.blk, b.blk)
    && AllEdges(g, lay.brkSrc, b.blk)
  }

  /** Where a switch goes when no clause matches. */
  predicate SwitchExit(g: Graph, cs: seq<Clause>, ps: seq<Place>, b0: nat, after: nat)
    requires |ps| == |cs|
  {
    var k := DefaultIx(cs);
    if k < |cs| then EdgeTo(g, ListBefore(b0, cs, ps, |cs|), ps[k].body) else EdgeTo(g, b0, after)
  }

  /** The blocks of clause `i`: how its list is reached and how its body is entered. */
  predicate ClauseOk(g: Graph, b0: nat, cs: seq<Clause>, ps: seq<Place>, i: nat)
    requires i < |cs| && i < |ps|
  {
    var c, p := cs[i], ps[i];
    && b0 < p.body <= p.end.blk < |g| && AtEnd(g, p.end)
    && (c.list.Some? ==>
          && b0 < p.list < p.body && EdgeTo(g, ListBefore(b0, cs, ps, i), p.list)
          && Full(g, p.list, UsesOf(Flat(c.list.value))) && EdgeTo(g, p.list, p.body))
    && (i > 0 && cs[i - 1].falls ==> EdgeTo(g, ps[i - 1].end.blk, p.body))
  }

  // ----- what a growing graph keeps -----

  /** `g'` is `g` with more: blocks before `e` keep their operations, block `e` may get more,
      and every block may get more successors. */
  ghost predicate Grows(g: Graph, g': Graph, e: nat) {
    && |g| <= |g'|
    && (forall k :: 0 <= k < |g| && k < e ==> g'[k].ops == g[k].ops)
    && (e < |g| ==> g[e].ops <= g'[e].ops)
    && (forall k, c {:trigger EdgeTo(g', k, c)} :: EdgeTo(g, k, c) ==> EdgeTo(g', k, c))
  }

  /** `env'` has the same labels and at least the same sources. */
  ghost predicate Widens(env: Env, env': Env) {
    && ValidEnv(env) && ValidEnv(env') && env'.brk == env.brk && env'.cont == env.cont
    && (forall k :: 0 <= k < |env.brkSrc| ==> env.brkSrc[k] <= env'.brkSrc[k])
    && (forall k :: 0 <= k < |env.contSrc| ==> env.contSrc[k] <= env'.contSrc[k])
  }

  lemma HoldsGrows(g: Graph, g': Graph, e: nat, a: Pos, ops: seq<Op>, b: Pos)
    requires Holds(g, a, ops, b) && Grows(g, g', e) && b.blk <= e
    ensures Holds(g', a, ops, b) && (AtEnd(g, b) && b.blk < e ==> AtEnd(g', b))
  {
    assert g'[b.blk].ops[a.ix..b.ix] == g[b.blk].ops[a.ix..b.ix];
  }

  lemma AllEdgesGrows(g: Graph, g': Graph, e: nat, srcs: set<nat>, c: nat)
    requires AllEdges(g, srcs, c) && Grows(g, g', e)
    ensures AllEdges(g', srcs, c)
  {}

  lemma {:induction false} WalkGrows(g: Graph, g': Graph, env: Env, env': Env, s: Stmt, l: Option<Label>, lay: Lay,
      a: Pos, b: Pos)
    requires Widens(env, env') && Walk(g, env, s, l, lay, a, b) && Grows(g, g', b.blk)
    ensures Walk(g', env', s, l, lay, a, b)
    decreases s, 1
  {
    match s
    case Then(s1, s2) =>
      WalkGrows(g, g', env, env', s1, None, lay.l1, a, lay.mid);
      WalkGrows(g, g', env, env', s2, None, lay.l2, lay.mid, b);
    case If(_, _, _, _) => WalkIfGrows(g, g', env, env', s, lay, a, b);
    case For(_, _, _, _) => WalkForGrows(g, g', env, env', s, l, lay, a, b);
    case Range(_, _, _) => WalkRangeGrows(g, g', env, env', s, l, lay, a, b);
    case Switch(_, _, _) => WalkSwitchGrows(g, g', env, env', s, l, lay, a, b);
    case Labeled(name, s1) => WalkGrows(g, g', env, env', s1, Some(name), lay.l1, Pos(lay.blk, 0), b);
    case Break(t) =>
    case Continue(t) =>
    case Return(uses) => HoldsGrows(g, g', b.blk, a, UsesOf(uses), b);
    case _ => HoldsGrows(g, g', b.blk, a, SimpleOps(s), b);
  }

  lemma WalkIfGrows(g: Graph, g': Graph, env: Env, env': Env, s: Stmt, lay: Lay, a: Pos, b: Pos)
    requires Widens(env, env') && s.If? && WalkIf(g, env, s, lay, a, b) && Grows(g, g', b.blk) && b.blk < |g|
    ensures WalkIf(g', env', s, lay, a, b)
    decreases s, 0
  {
    HoldsGrows(g, g', b.blk, a, SimpleOps(s.init) + UsesOf(s.cond), lay.cond);
    WalkGrows(g, g', env, env', s.thn, None, lay.l1, Pos(lay.thn, 0), lay.end1);
    if s.els.Some? {
      WalkGrows(g, g', env, env', s.els.value, None, lay.l2, Pos(lay.els, 0), lay.end2);
    }
  }

  lemma WalkForGrows(g: Graph, g': Graph, env: Env, env': Env, s: Stmt, l: Option<Label>, lay: Lay, a: Pos, b: Pos)
    requires Widens(env, env') && s.For? && WalkFor(g, env, s, l, lay, a, b) && Grows(g, g', b.blk) && b.blk < |g|
    ensures WalkFor(g', env', s, l, lay, a, b)
    decreases s, 0
  {
    HoldsGrows(g, g', b.blk, a, SimpleOps(s.init), lay.init);
    AllEdgesGrows(g, g', b.blk, lay.contSrc, lay.after);
    AllEdgesGrows(g, g', b.blk, lay.brkSrc, b.blk);
    WalkGrows(g, g', Inside(env, l, lay.brkSrc, lay.contSrc), Inside(env', l, lay.brkSrc, lay.contSrc), s.body,
              None, lay.l1, Pos(lay.inner, 0), lay.end1);
  }

  lemma WalkRangeGrows(g: Graph, g': Graph, env: Env, env': Env, s: Stmt, l: Option<Label>, lay: Lay, a: Pos, b: Pos)
    requires Widens(env, env') && s.Range? && WalkRange(g, env, s, l, lay, a, b) && Grows(g, g', b.blk) && b.blk < |g|
    ensures WalkRange(g', env', s, l, lay, a, b)
    decreases s, 0
  {
    HoldsGrows(g, g', b.blk, a, UsesOf(s.over), lay.over);
    var mid := Pos(lay.start, |AllLhsOps(s.vars, false)|);
    HoldsGrows(g, g', b.blk, Pos(lay.start, 0), AllLhsOps(s.vars, false), mid);
    AllEdgesGrows(g, g', b.blk, lay.contSrc, lay.pre);
    AllEdgesGrows(g, g', b.blk, lay.brkSrc, b.blk);
    WalkGrows(g, g', Inside(env, l, lay.brkSrc, lay.contSrc), Inside(env', l, lay.brkSrc, lay.contSrc), s.body,
              None, lay.l1, mid, lay.end1);
  }

  lemma WalkSwitchGrows(g: Graph, g': Graph, env: Env, env': Env, s: Stmt, l: Option<Label>, lay: Lay, a: Pos, b: Pos)
    requires Widens(env, env') && s.Switch? && WalkSwitch(g, env, s, l, lay, a, b) && Grows(g, g', b.blk) && b.blk < |g|
    ensures WalkSwitch(g', env', s, l, lay, a, b)
    decreases s, 0
  {
    forall i | 0 <= i < |s.clauses|
      ensures ClauseOk(g', a.blk, s.clauses, lay.places, i)
      ensures Walk(g', InsideSwitch(env', l, lay.brkSrc), s.clauses[i].body, None, lay.places[i].lay,
                   Pos(lay.places[i].body, 0), lay.places[i].end)
      ensures lay.places[i].end.blk < b.blk && (!s.clauses[i].falls ==> EdgeTo(g', lay.places[i].end.blk, b.blk))
    {
      assert ClauseOk(g, a.blk, s.clauses, lay.places, i);
      ClauseGrows(g, g', b.blk, a.blk, s.clauses, lay.places, i);
      WalkGrows(g, g', InsideSwitch(env, l, lay.brkSrc), InsideSwitch(env', l, lay.brkSrc), s.clauses[i].body,
                None, lay.places[i].lay, Pos(lay.places[i].body, 0), lay.places[i].end);
    }
    hide Walk, ClauseOk;
    HoldsGrows(g, g', b.blk, a, SimpleOps(s.init) + SimpleOps(s.tag), lay.tag);
    AllEdgesGrows(g, g', b.blk, lay.brkSrc, b.blk);
  }

  lemma ClauseGrows(g: Graph, g': Graph, e: nat, b0: nat, cs: seq<Clause>, ps: seq<Place>, i: nat)
    requires i < |cs| && i < |ps| && ClauseOk(g, b0, cs, ps, i) && Grows(g, g', e) && ps[i].end.blk < e
    ensures ClauseOk(g', b0, cs, ps, i)
  {}
}
