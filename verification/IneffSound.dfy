/** Every execution of a statement is foreseen by a block graph that lays the statement out. */
module IneffSound {
  import opened Options
  import opened IneffGraph
  import opened IneffLang
  import opened IneffLayout

  // ----- soundness of structured programs -----

  /** The graph accounts for one execution of `p` from `a`: uses of `x` are foreseen, a
      complete execution ends at `b`, and one that leaves `p` ends in the block for its target. */
  ghost predicate RunSound(g: Graph, x: Var, p: Prog, a: Pos, b: Pos, dst: map<Target, nat>, r: Run) {
    && UsesForeseen(g, x, a, Trace(p, r))
    && match Out(p, r)
       case Done => Arrives(g, x, a, Trace(p, r), b)
       case Exits(t) => t in dst && Arrives(g, x, a, Trace(p, r), Pos(dst[t], 0))
       case Stops => true
  }

  ghost predicate Sound(g: Graph, x: Var, p: Prog, a: Pos, b: Pos, dst: map<Target, nat>) {
    forall r :: RunSound(g, x, p, a, b, dst, r)
  }

  lemma NothingDone(g: Graph, x: Var, a: Pos)
    ensures UsesForeseen(g, x, a, [])
    ensures forall b :: Leads(g, x, a, b) ==> Arrives(g, x, a, [], b)
  {}

  lemma PartOfUses(g: Graph, x: Var, a: Pos, tr: seq<Op>, n: nat)
    requires UsesForeseen(g, x, a, tr) && n <= |tr|
    ensures UsesForeseen(g, x, a, tr[..n])
  {
    forall j | 0 <= j < n && tr[..n][j] == Use(x)
      ensures Foreseen(g, x, a, tr[..n][..j])
    {
      assert tr[..n][..j] == tr[..j];
    }
  }

  lemma OpsSound(g: Graph, x: Var, ops: seq<Op>, a: Pos, b: Pos, dst: map<Target, nat>)
    requires Arrives(g, x, a, ops, b) && UsesForeseen(g, x, a, ops)
    ensures Sound(g, x, Ops(ops), a, b, dst)
  {
    forall r
      ensures RunSound(g, x, Ops(ops), a, b, dst, r)
    {
      NothingDone(g, x, a);
      if r.Did? && r.n <= |ops| {
        PartOfUses(g, x, a, ops, r.n);
        assert r.n == |ops| ==> ops[..r.n] == ops;
      }
    }
  }

  lemma SeqSound(g: Graph, x: Var, p: Prog, q: Prog, a: Pos, b: Pos, c: Pos, dst: map<Target, nat>)
    requires Sound(g, x, p, a, b, dst) && Sound(g, x, q, b, c, dst)
    ensures Sound(g, x, Seq(p, q), a, c, dst)
  {
    forall r
      ensures RunSound(g, x, Seq(p, q), a, c, dst, r)
    {
      NothingDone(g, x, a);
      if r.Both? {
        assert RunSound(g, x, p, a, b, dst, r.first);
        if Out(p, r.first) == Done {
          assert RunSound(g, x, q, b, c, dst, r.second);
          RunConcat(g, x, a, Trace(p, r.first), b, Trace(q, r.second));
        } else {
          assert Trace(p, r.first) + [] == Trace(p, r.first);
        }
      }
    }
  }

  lemma RunConcat(g: Graph, x: Var, a: Pos, s: seq<Op>, b: Pos, t: seq<Op>)
    requires Arrives(g, x, a, s, b) && UsesForeseen(g, x, a, s) && UsesForeseen(g, x, b, t)
    ensures UsesForeseen(g, x, a, s + t)
    ensures forall c :: Arrives(g, x, b, t, c) ==> Arrives(g, x, a, s + t, c)
  {
    UsesForeseenConcat(g, x, a, s, b, t);
    forall c | Arrives(g, x, b, t, c)
      ensures Arrives(g, x, a, s + t, c)
    {
      ArrivesConcat(g, x, a, s, b, t, c);
    }
  }

  lemma AltSound(g: Graph, x: Var, p: Prog, q: Prog, a: Pos, b: Pos, dst: map<Target, nat>)
    requires Sound(g, x, p, a, b, dst) && Sound(g, x, q, a, b, dst)
    ensures Sound(g, x, Alt(p, q), a, b, dst)
  {
    forall r
      ensures RunSound(g, x, Alt(p, q), a, b, dst, r)
    {
      NothingDone(g, x, a);
      if r.Chose? {
        assert RunSound(g, x, if r.left then p else q, a, b, dst, r.r);
      }
    }
  }

  lemma StarSound(g: Graph, x: Var, p: Prog, a: Pos, dst: map<Target, nat>)
    requires Sound(g, x, p, a, a, dst) && InGraph(g, a)
    ensures Sound(g, x, Star(p), a, a, dst)
  {
    forall r
      ensures RunSound(g, x, Star(p), a, a, dst, r)
    {
      StarRunSound(g, x, p, a, dst, r);
    }
  }

  lemma {:induction false} StarRunSound(g: Graph, x: Var, p: Prog, a: Pos, dst: map<Target, nat>, r: Run)
    requires Sound(g, x, p, a, a, dst) && InGraph(g, a)
    ensures RunSound(g, x, Star(p), a, a, dst, r)
    decreases r
  {
    NothingDone(g, x, a);
    if r.Ends? {
      LeadsSelf(g, x, a);
    } else if r.More? {
      assert RunSound(g, x, p, a, a, dst, r.once);
      if Out(p, r.once) == Done {
        StarRunSound(g, x, p, a, dst, r.again);
        RunConcat(g, x, a, Trace(p, r.once), a, Trace(Star(p), r.again));
      } else {
        assert Trace(p, r.once) + [] == Trace(p, r.once);
      }
    }
  }

  /** A loop whose turns start at `s`: before the first turn the execution is at `h`, and
      after a turn it may go on with another one or end at `b`. */
  lemma TurnsSound(g: Graph, x: Var, p: Prog, h: Pos, s: Pos, b: Pos, dst: map<Target, nat>)
    requires Sound(g, x, p, s, s, dst) && Sound(g, x, p, s, b, dst) && Leads(g, x, h, s) && Leads(g, x, h, b)
    ensures Sound(g, x, Star(p), h, b, dst)
  {
    forall r
      ensures RunSound(g, x, Star(p), h, b, dst, r)
    {
      NothingDone(g, x, h);
      if !r.Ends? {
        TurnsRunSound(g, x, p, s, b, dst, r);
        RunConcat(g, x, h, [], s, Trace(Star(p), r));
        assert [] + Trace(Star(p), r) == Trace(Star(p), r);
      }
    }
  }

  lemma {:induction false} TurnsRunSound(g: Graph, x: Var, p: Prog, s: Pos, b: Pos, dst: map<Target, nat>, r: Run)
    requires Sound(g, x, p, s, s, dst) && Sound(g, x, p, s, b, dst) && !r.Ends?
    ensures RunSound(g, x, Star(p), s, b, dst, r)
    decreases r
  {
    NothingDone(g, x, s);
    if r.More? {
      assert RunSound(g, x, p, s, s, dst, r.once) && RunSound(g, x, p, s, b, dst, r.once);
      if Out(p, r.once) == Done && !r.again.Ends? {
        TurnsRunSound(g, x, p, s, b, dst, r.again);
        RunConcat(g, x, s, Trace(p, r.once), s, Trace(Star(p), r.again));
      } else {
        assert Trace(p, r.once) + [] == Trace(p, r.once);
      }
    }
  }

  lemma CatchSound(g: Graph, x: Var, t: Target, p: Prog, a: Pos, d: nat, b: Pos, dst: map<Target, nat>)
    requires Sound(g, x, p, a, b, dst[t := d]) && Leads(g, x, Pos(d, 0), b)
    ensures Sound(g, x, Catch(t, p), a, b, dst)
  {
    forall r
      ensures RunSound(g, x, Catch(t, p), a, b, dst, r)
    {
      assert RunSound(g, x, p, a, b, dst[t := d], r);
      if Out(p, r) == Exits(t) {
        NothingDone(g, x, Pos(d, 0));
        RunConcat(g, x, a, Trace(p, r), Pos(d, 0), []);
        assert Trace(p, r) + [] == Trace(p, r);
      }
    }
  }

  lemma ExitSound(g: Graph, x: Var, t: Target, a: Pos, b: Pos, dst: map<Target, nat>)
    requires t in dst && Leads(g, x, a, Pos(dst[t], 0))
    ensures Sound(g, x, Exit(t), a, b, dst)
  {
    NothingDone(g, x, a);
  }

  lemma StopSound(g: Graph, x: Var, a: Pos, b: Pos, dst: map<Target, nat>)
    ensures Sound(g, x, Stop, a, b, dst)
  {
    NothingDone(g, x, a);
  }

  /** Going on from `b` to `c` without an operation on `x`. */
  lemma ThenLeads(g: Graph, x: Var, p: Prog, a: Pos, b: Pos, c: Pos, dst: map<Target, nat>)
    requires Sound(g, x, p, a, b, dst) && Leads(g, x, b, c)
    ensures Sound(g, x, p, a, c, dst)
  {
    forall r
      ensures RunSound(g, x, p, a, c, dst, r)
    {
      assert RunSound(g, x, p, a, b, dst, r);
      if Out(p, r) == Done {
        NothingDone(g, x, b);
        RunConcat(g, x, a, Trace(p, r), b, []);
        assert Trace(p, r) + [] == Trace(p, r);
      }
    }
  }

  lemma LeadsThen(g: Graph, x: Var, p: Prog, z: Pos, a: Pos, b: Pos, dst: map<Target, nat>)
    requires Leads(g, x, z, a) && Sound(g, x, p, a, b, dst)
    ensures Sound(g, x, p, z, b, dst)
  {
    forall r
      ensures RunSound(g, x, p, z, b, dst, r)
    {
      assert RunSound(g, x, p, a, b, dst, r);
      NothingDone(g, x, z);
      RunConcat(g, x, z, [], a, Trace(p, r));
      assert [] + Trace(p, r) == Trace(p, r);
    }
  }

  // ----- the layout of a statement accounts for its executions -----

  /** Every break and continue source leads to the block recorded for its target. */
  ghost predicate Honors(g: Graph, env: Env, dst: map<Target, nat>)
    requires ValidEnv(env)
  {
    && (forall k {:trigger env.brkSrc[k]} :: 0 <= k < |env.brk| ==>
        Brk(k) in dst && AllEdges(g, env.brkSrc[k], dst[Brk(k)]))
    && (forall k {:trigger env.contSrc[k]} :: 0 <= k < |env.cont| ==>
        Cont(k) in dst && AllEdges(g, env.contSrc[k], dst[Cont(k)]))
  }

  lemma HoldsSound(g: Graph, x: Var, a: Pos, ops: seq<Op>, b: Pos, dst: map<Target, nat>)
    requires Holds(g, a, ops, b)
    ensures Sound(g, x, Ops(ops), a, b, dst)
  {
    BlockRun(g, x, a.blk, a.ix, b.ix);
    OpsSound(g, x, ops, a, b, dst);
  }

  /** A list of operations split in two. */
  lemma HoldsSplit(g: Graph, a: Pos, s: seq<Op>, t: seq<Op>, b: Pos)
    requires Holds(g, a, s + t, b)
    ensures Holds(g, a, s, Pos(a.blk, a.ix + |s|)) && Holds(g, Pos(a.blk, a.ix + |s|), t, b)
  {
    var ops := g[a.blk].ops;
    assert ops[a.ix..a.ix + |s|] == ops[a.ix..b.ix][..|s|] == s;
    assert ops[a.ix + |s|..b.ix] == ops[a.ix..b.ix][|s|..] == t;
  }

  lemma FullHolds(g: Graph, b: nat, ops: seq<Op>)
    requires Full(g, b, ops)
    ensures Holds(g, Pos(b, 0), ops, Pos(b, |ops|)) && AtEnd(g, Pos(b, |ops|))
  {
    assert g[b].ops[0..|ops|] == ops;
  }

  /** Two lists of operations one after the other, as part of a longer program. */
  lemma TwoOpsSound(g: Graph, x: Var, s: seq<Op>, t: seq<Op>, p: Prog, a: Pos, b: Pos, c: Pos, dst: map<Target, nat>)
    requires Holds(g, a, s + t, b) && Sound(g, x, p, b, c, dst)
    ensures Sound(g, x, Seq(Ops(s), Seq(Ops(t), p)), a, c, dst)
  {
    var m := Pos(a.blk, a.ix + |s|);
    HoldsSplit(g, a, s, t, b);
    HoldsSound(g, x, a, s, m, dst);
    HoldsSound(g, x, m, t, b, dst);
    SeqSound(g, x, Ops(t), p, m, b, c, dst);
    SeqSound(g, x, Ops(s), Seq(Ops(t), p), a, m, c, dst);
  }

  /** From `a` over an edge into block `c`, and on with `p`. */
  lemma EdgeThen(g: Graph, x: Var, p: Prog, a: Pos, c: nat, b: Pos, dst: map<Target, nat>)
    requires AtEnd(g, a) && EdgeTo(g, a.blk, c) && Sound(g, x, p, Pos(c, 0), b, dst)
    ensures Sound(g, x, p, a, b, dst)
  {
    LeadsEdge(g, x, a, c);
    LeadsThen(g, x, p, a, Pos(c, 0), b, dst);
  }

  lemma ThenEdge(g: Graph, x: Var, p: Prog, a: Pos, b: Pos, c: nat, dst: map<Target, nat>)
    requires Sound(g, x, p, a, b, dst) && AtEnd(g, b) && EdgeTo(g, b.blk, c)
    ensures Sound(g, x, p, a, Pos(c, 0), dst)
  {
    LeadsEdge(g, x, b, c);
    ThenLeads(g, x, p, a, b, Pos(c, 0), dst);
  }

  lemma SkipEdge(g: Graph, x: Var, a: Pos, c: nat, dst: map<Target, nat>)
    requires AtEnd(g, a) && EdgeTo(g, a.blk, c)
    ensures Sound(g, x, Ops([]), a, Pos(c, 0), dst)
  {
    LeadsEdge(g, x, a, c);
    NothingDone(g, x, a);
    OpsSound(g, x, [], a, Pos(c, 0), dst);
  }

  /** Every execution of a statement is accounted for by its layout. */
  lemma {:induction false} WalkSound(g: Graph, x: Var, env: Env, s: Stmt, l: Option<Label>, lay: Lay, a: Pos, b: Pos,
      dst: map<Target, nat>)
    requires ValidEnv(env) && Walk(g, env, s, l, lay, a, b) && Honors(g, env, dst)
    ensures Sound(g, x, Meaning(s, env.brk, env.cont, l), a, b, dst)
    decreases s, 1
  {
    match s
    case Then(s1, s2) =>
      WalkSound(g, x, env, s1, None, lay.l1, a, lay.mid, dst);
      WalkSound(g, x, env, s2, None, lay.l2, lay.mid, b, dst);
      SeqSound(g, x, Meaning(s1, env.brk, env.cont, None), Meaning(s2, env.brk, env.cont, None), a, lay.mid, b, dst);
    case If(_, _, _, _) => IfSound(g, x, env, s, lay, a, b, dst);
    case For(_, _, _, _) => ForSound(g, x, env, s, l, lay, a, b, dst);
    case Range(_, _, _) => RangeSound(g, x, env, s, l, lay, a, b, dst);
    case Switch(_, _, _) => SwitchSound(g, x, env, s, l, lay, a, b, dst);
    case Labeled(name, s1) =>
      WalkSound(g, x, env, s1, Some(name), lay.l1, Pos(lay.blk, 0), b, dst);
      EdgeThen(g, x, Meaning(s1, env.brk, env.cont, Some(name)), a, lay.blk, b, dst);
    case Break(t) =>
      var k := Find(env.brk, t);
      assert AllEdges(g, env.brkSrc[k], dst[Brk(k)]);
      LeadsEdge(g, x, a, dst[Brk(k)]);
      ExitSound(g, x, Brk(k), a, b, dst);
    case Continue(t) =>
      var k := Find(env.cont, t);
      assert AllEdges(g, env.contSrc[k], dst[Cont(k)]);
      LeadsEdge(g, x, a, dst[Cont(k)]);
      ExitSound(g, x, Cont(k), a, b, dst);
    case Return(uses) =>
      HoldsSound(g, x, a, UsesOf(uses), b, dst);
      StopSound(g, x, b, b, dst);
      SeqSound(g, x, Ops(UsesOf(uses)), Stop, a, b, b, dst);
    case _ =>
      HoldsSound(g, x, a, SimpleOps(s), b, dst);
  }

  lemma IfSound(g: Graph, x: Var, env: Env, s: Stmt, lay: Lay, a: Pos, b: Pos, dst: map<Target, nat>)
    requires ValidEnv(env) && s.If? && WalkIf(g, env, s, lay, a, b) && Honors(g, env, dst)
    ensures Sound(g, x, Meaning(s, env.brk, env.cont, None), a, b, dst)
    decreases s, 0
  {
    hide Sound;
    var c := lay.cond;
    var p := Meaning(s.thn, env.brk, env.cont, None);
    WalkSound(g, x, env, s.thn, None, lay.l1, Pos(lay.thn, 0), lay.end1, dst);
    ThenEdge(g, x, p, Pos(lay.thn, 0), lay.end1, b.blk, dst);
    EdgeThen(g, x, p, c, lay.thn, b, dst);
    var q := if s.els.Some? then Meaning(s.els.value, env.brk, env.cont, None) else Ops([]);
    if s.els.Some? {
      WalkSound(g, x, env, s.els.value, None, lay.l2, Pos(lay.els, 0), lay.end2, dst);
      ThenEdge(g, x, q, Pos(lay.els, 0), lay.end2, b.blk, dst);
      EdgeThen(g, x, q, c, lay.els, b, dst);
    } else {
      SkipEdge(g, x, c, b.blk, dst);
    }
    AltSound(g, x, p, q, c, b, dst);
    TwoOpsSound(g, x, SimpleOps(s.init), UsesOf(s.cond), Alt(p, q), a, c, b, dst);
  }

  lemma InsideHonors(g: Graph, env: Env, l: Option<Label>, brkSrc: set<nat>, contSrc: set<nat>, dst: map<Target, nat>,
      after: nat, next: nat)
    requires ValidEnv(env) && Honors(g, env, dst) && AllEdges(g, brkSrc, after) && AllEdges(g, contSrc, next)
    ensures ValidEnv(Inside(env, l, brkSrc, contSrc))
    ensures Honors(g, Inside(env, l, brkSrc, contSrc), dst[Brk(|env.brk|) := after][Cont(|env.cont|) := next])
    ensures ValidEnv(InsideSwitch(env, l, brkSrc))
    ensures Honors(g, InsideSwitch(env, l, brkSrc), dst[Brk(|env.brk|) := after])
  {
    forall k | 0 <= k < |env.brk|
      ensures Brk(k) in dst && AllEdges(g, env.brkSrc[k], dst[Brk(k)])
    {
      assert env.brkSrc[k] == env.brkSrc[k];
    }
    forall k | 0 <= k < |env.cont|
      ensures Cont(k) in dst && AllEdges(g, env.contSrc[k], dst[Cont(k)])
    {
      assert env.contSrc[k] == env.contSrc[k];
    }
  }

  lemma ForSound(g: Graph, x: Var, env: Env, s: Stmt, l: Option<Label>, lay: Lay, a: Pos, b: Pos, dst: map<Target, nat>)
    requires ValidEnv(env) && s.For? && WalkFor(g, env, s, l, lay, a, b) && Honors(g, env, dst)
    ensures Sound(g, x, Meaning(s, env.brk, env.cont, l), a, b, dst)
    decreases s, 0
  {
    hide Sound;
    var inner := Inside(env, l, lay.brkSrc, lay.contSrc);
    var dst1 := dst[Brk(|env.brk|) := b.blk];
    var dst2 := dst1[Cont(|env.cont|) := lay.after];
    InsideHonors(g, env, l, lay.brkSrc, lay.contSrc, dst, b.blk, lay.after);
    var head, cond := Pos(lay.start, 0), UsesOf(s.cond);
    var tested := Pos(lay.start, |cond|);
    FullHolds(g, lay.start, cond);
    HoldsSound(g, x, head, cond, tested, dst1);
    // the body, from the test to the post statement
    var body := Meaning(s.body, inner.brk, inner.cont, None);
    WalkSound(g, x, inner, s.body, None, lay.l1, Pos(lay.inner, 0), lay.end1, dst2);
    ThenEdge(g, x, body, Pos(lay.inner, 0), lay.end1, lay.after, dst2);
    LeadsSelf(g, x, Pos(lay.after, 0));
    CatchSound(g, x, Cont(|env.cont|), body, Pos(lay.inner, 0), lay.after, Pos(lay.after, 0), dst1);
    EdgeThen(g, x, Catch(Cont(|env.cont|), body), tested, lay.inner, Pos(lay.after, 0), dst1);
    // the post statement, back to the test
    var post := SimpleOps(s.post);
    FullHolds(g, lay.after, post);
    HoldsSound(g, x, Pos(lay.after, 0), post, Pos(lay.after, |post|), dst1);
    ThenEdge(g, x, Ops(post), Pos(lay.after, 0), Pos(lay.after, |post|), lay.start, dst1);
    var turn := Seq(Catch(Cont(|env.cont|), body), Ops(post));
    SeqSound(g, x, Catch(Cont(|env.cont|), body), Ops(post), tested, Pos(lay.after, 0), head, dst1);
    SeqSound(g, x, Ops(cond), turn, head, tested, head, dst1);
    StarSound(g, x, Seq(Ops(cond), turn), head, dst1);
    // the last test, and out
    ThenEdge(g, x, Ops(cond), head, tested, b.blk, dst1);
    var loop := Seq(Star(Seq(Ops(cond), turn)), Ops(cond));
    SeqSound(g, x, Star(Seq(Ops(cond), turn)), Ops(cond), head, head, b, dst1);
    LeadsSelf(g, x, b);
    CatchSound(g, x, Brk(|env.brk|), loop, head, b.blk, b, dst);
    EdgeThen(g, x, Catch(Brk(|env.brk|), loop), lay.init, lay.start, b, dst);
    HoldsSound(g, x, a, SimpleOps(s.init), lay.init, dst);
    SeqSound(g, x, Ops(SimpleOps(s.init)), Catch(Brk(|env.brk|), loop), a, lay.init, b, dst);
  }

  lemma RangeSound(g: Graph, x: Var, env: Env, s: Stmt, l: Option<Label>, lay: Lay, a: Pos, b: Pos, dst: map<Target,
      nat>)
    requires ValidEnv(env) && s.Range? && WalkRange(g, env, s, l, lay, a, b) && Honors(g, env, dst)
    ensures Sound(g, x, Meaning(s, env.brk, env.cont, l), a, b, dst)
    decreases s, 0
  {
    hide Sound;
    var inner := Inside(env, l, lay.brkSrc, lay.contSrc);
    var dst1 := dst[Brk(|env.brk|) := b.blk];
    var dst2 := dst1[Cont(|env.cont|) := lay.pre];
    InsideHonors(g, env, l, lay.brkSrc, lay.contSrc, dst, b.blk, lay.pre);
    var head, ops := Pos(lay.pre, 0), AllLhsOps(s.vars, false);
    FullHolds(g, lay.pre, []);
    var mid := Pos(lay.start, |ops|);
    HoldsSound(g, x, Pos(lay.start, 0), ops, mid, dst1);
    // a turn goes on with another one, or out
    var body := Meaning(s.body, inner.brk, inner.cont, None);
    var turn := Seq(Ops(ops), Catch(Cont(|env.cont|), body));
    WalkSound(g, x, inner, s.body, None, lay.l1, mid, lay.end1, dst2);
    TurnSound(g, x, env, s, body, lay, mid, lay.start, dst1, dst2);
    TurnSound(g, x, env, s, body, lay, mid, b.blk, dst1, dst2);
    LeadsEdge(g, x, head, lay.start);
    LeadsEdge(g, x, head, b.blk);
    TurnsSound(g, x, turn, head, Pos(lay.start, 0), b, dst1);
    LeadsSelf(g, x, b);
    CatchSound(g, x, Brk(|env.brk|), Star(turn), head, b.blk, b, dst);
    EdgeThen(g, x, Catch(Brk(|env.brk|), Star(turn)), lay.over, lay.pre, b, dst);
    HoldsSound(g, x, a, UsesOf(s.over), lay.over, dst);
    SeqSound(g, x, Ops(UsesOf(s.over)), Catch(Brk(|env.brk|), Star(turn)), a, lay.over, b, dst);
  }

  lemma TurnSound(g: Graph, x: Var, env: Env, s: Stmt, body: Prog, lay: Lay, mid: Pos, c: nat, dst1: map<Target, nat>,
      dst2: map<Target, nat>)
    requires s.Range? && lay.LRange? && mid == Pos(lay.start, |AllLhsOps(s.vars, false)|)
    requires Holds(g, Pos(lay.start, 0), AllLhsOps(s.vars, false), mid) && Full(g, lay.pre, [])
    requires AtEnd(g, lay.end1) && EdgeTo(g, lay.end1.blk, c) && EdgeTo(g, lay.pre, c)
    requires dst2 == dst1[Cont(|env.cont|) := lay.pre] && Sound(g, x, body, mid, lay.end1, dst2)
    ensures Sound(g, x, Seq(Ops(AllLhsOps(s.vars, false)), Catch(Cont(|env.cont|), body)), Pos(lay.start, 0),
        Pos(c, 0), dst1)
  {
    hide Sound;
    ThenEdge(g, x, body, mid, lay.end1, c, dst2);
    LeadsEdge(g, x, Pos(lay.pre, 0), c);
    CatchSound(g, x, Cont(|env.cont|), body, mid, lay.pre, Pos(c, 0), dst1);
    HoldsSound(g, x, Pos(lay.start, 0), AllLhsOps(s.vars, false), mid, dst1);
    SeqSound(g, x, Ops(AllLhsOps(s.vars, false)), Catch(Cont(|env.cont|), body), Pos(lay.start, 0), mid, Pos(c, 0),
        dst1);
  }

  // ----- switch -----

  predicate AllUses(ops: seq<Op>) {
    forall k :: 0 <= k < |ops| ==> ops[k].Use?
  }

  lemma {:induction false} FirstUse(g: Graph, x: Var, a: Pos, ops: seq<Op>)
    requires AllUses(ops) && UsesForeseen(g, x, a, ops) && LastOp(ops, x) != Nothing
    ensures Used(g, x, a)
    decreases |ops|
  {
    var p := ops[..|ops| - 1];
    if LastOp(p, x) == Nothing {
      assert ops[|ops| - 1] == Use(x);
      assert Foreseen(g, x, a, p);
    } else {
      PartOfUses(g, x, a, ops, |p|);
      FirstUse(g, x, a, p);
    }
  }

  lemma {:induction false} LastOfUses(ops: seq<Op>, x: Var)
    requires AllUses(ops)
    ensures !LastOp(ops, x).WasAssign?
    decreases |ops|
  {
    if ops != [] { LastOfUses(ops[..|ops| - 1], x); }
  }

  /** The expressions of a list, as far as they are evaluated. */
  lemma {:induction false} HitSound(g: Graph, x: Var, list: seq<seq<Var>>, a: Pos, b: Pos, dst: map<Target, nat>)
    requires Holds(g, a, UsesOf(Flat(list)), b)
    ensures Sound(g, x, Hit(list), a, b, dst)
    decreases |list|
  {
    hide Sound;
    if |list| <= 1 {
      HoldsSound(g, x, a, UsesOf(Flat(list)), b, dst);
    } else {
      var s, t := UsesOf(list[0]), UsesOf(Flat(list[1..]));
      assert UsesOf(Flat(list)) == s + t;
      HoldsSplit(g, a, s, t, b);
      var m := Pos(a.blk, a.ix + |s|);
      BlockRun(g, x, m.blk, m.ix, b.ix);
      if LastOp(t, x) != Nothing { FirstUse(g, x, m, t); }
      NothingDone(g, x, m);
      OpsSound(g, x, [], m, b, dst);
      HitSound(g, x, list[1..], m, b, dst);
      AltSound(g, x, Ops([]), Hit(list[1..]), m, b, dst);
      HoldsSound(g, x, a, s, m, dst);
      SeqSound(g, x, Ops(s), Alt(Ops([]), Hit(list[1..])), a, m, b, dst);
    }
  }

  /** Like Sound, for executions of `p` after `pre` has been done from `a`. */
  ghost predicate SoundAfter(g: Graph, x: Var, a: Pos, pre: seq<Op>, p: Prog, b: Pos, dst: map<Target, nat>) {
    forall r {:trigger Trace(p, r)} ::
      && UsesForeseen(g, x, a, pre + Trace(p, r))
      && match Out(p, r)
         case Done => Arrives(g, x, a, pre + Trace(p, r), b)
         case Exits(t) => t in dst && Arrives(g, x, a, pre + Trace(p, r), Pos(dst[t], 0))
         case Stops => true
  }

  lemma AfterArriving(g: Graph, x: Var, a: Pos, pre: seq<Op>, c: Pos, p: Prog, b: Pos, dst: map<Target, nat>)
    requires Arrives(g, x, a, pre, c) && UsesForeseen(g, x, a, pre) && Sound(g, x, p, c, b, dst)
    ensures SoundAfter(g, x, a, pre, p, b, dst)
  {
    forall r
      ensures RunSound(g, x, p, c, b, dst, r)
      ensures UsesForeseen(g, x, c, Trace(p, r)) ==> UsesForeseen(g, x, a, pre + Trace(p, r))
      ensures forall z :: Arrives(g, x, c, Trace(p, r), z) ==> Arrives(g, x, a, pre + Trace(p, r), z)
    {
      assert RunSound(g, x, p, c, b, dst, r);
      RunConcat(g, x, a, pre, c, Trace(p, r));
    }
  }

  lemma AfterAlt(g: Graph, x: Var, a: Pos, pre: seq<Op>, p: Prog, q: Prog, b: Pos, dst: map<Target, nat>)
    requires SoundAfter(g, x, a, pre, p, b, dst) && SoundAfter(g, x, a, pre, q, b, dst)
    requires UsesForeseen(g, x, a, pre)
    ensures SoundAfter(g, x, a, pre, Alt(p, q), b, dst)
  {
    assert pre + [] == pre;
  }

  lemma OpsRun(ops: seq<Op>, r: Run)
    ensures Trace(Ops(ops), r) <= ops
    ensures Out(Ops(ops), r) == Done <==> r == Did(|ops|)
    ensures r == Did(|ops|) ==> Trace(Ops(ops), r) == ops
  {}

  lemma AfterOps(g: Graph, x: Var, a: Pos, pre: seq<Op>, ops: seq<Op>, p: Prog, b: Pos, dst: map<Target, nat>)
    requires SoundAfter(g, x, a, pre + ops, p, b, dst)
    requires UsesForeseen(g, x, a, pre + ops)
    ensures SoundAfter(g, x, a, pre, Seq(Ops(ops), p), b, dst)
  {
    forall r
      ensures UsesForeseen(g, x, a, pre + Trace(Seq(Ops(ops), p), r))
      ensures match Out(Seq(Ops(ops), p), r)
              case Done => Arrives(g, x, a, pre + Trace(Seq(Ops(ops), p), r), b)
              case Exits(t) => t in dst && Arrives(g, x, a, pre + Trace(Seq(Ops(ops), p), r), Pos(dst[t], 0))
              case Stops => true
    {
      var tr := Trace(Seq(Ops(ops), p), r);
      if r.Both? { OpsRun(ops, r.first); }
      if r.Both? && r.first == Did(|ops|) {
        assert tr == ops + Trace(p, r.second);
        assert pre + tr == (pre + ops) + Trace(p, r.second);
      } else {
        assert tr <= ops;
        assert pre + tr == (pre + ops)[..|pre| + |tr|];
        PartOfUses(g, x, a, pre + ops, |pre| + |tr|);
      }
    }
  }

  lemma AfterNothing(g: Graph, x: Var, a: Pos, p: Prog, b: Pos, dst: map<Target, nat>)
    requires SoundAfter(g, x, a, [], p, b, dst)
    ensures Sound(g, x, p, a, b, dst)
  {
    forall r
      ensures RunSound(g, x, p, a, b, dst, r)
    {
      assert [] + Trace(p, r) == Trace(p, r);
    }
  }

  /** The end of the block from which clause `i` is tried. */
  function Before(g: Graph, b0: nat, cs: seq<Clause>, ps: seq<Place>, i: nat): Pos
    requires i <= |cs| && i <= |ps|
  {
    var k := ListBefore(b0, cs, ps, i);
    Pos(k, if k < |g| then |g[k].ops| else 0)
  }

  /** All clauses of a switch are laid out, and their bodies' executions accounted for. */
  ghost predicate ClausesSound(g: Graph, x: Var, s: Stmt, lay: Lay, brk: seq<Option<Label>>, cont: seq<Option<Label>>,
      b0: nat, b: Pos, dst: map<Target, nat>) {
    && s.Switch? && lay.LSwitch? && |lay.places| == |s.clauses| && b0 < |g| && b == Pos(b.blk, 0)
    && (forall i {:trigger ClauseOk(g, b0, s.clauses, lay.places, i)} :: 0 <= i < |s.clauses| ==>
          && ClauseOk(g, b0, s.clauses, lay.places, i)
          && (!s.clauses[i].falls ==> EdgeTo(g, lay.places[i].end.blk, b.blk))
          && Sound(g, x, Meaning(s.clauses[i].body, brk, cont, None), Pos(lay.places[i].body, 0), lay.places[i].end,
              dst))
    && (s.clauses != [] ==> !s.clauses[|s.clauses| - 1].falls)
    && SwitchExit(g, s.clauses, lay.places, b0, b.blk)
  }

  lemma {:induction false} BodiesSound(g: Graph, x: Var, s: Stmt, lay: Lay, i: nat, brk: seq<Option<Label>>,
      cont: seq<Option<Label>>, b0: nat, b: Pos, dst: map<Target, nat>)
    requires ClausesSound(g, x, s, lay, brk, cont, b0, b, dst) && i < |s.clauses|
    ensures Sound(g, x, Bodies(s, i, brk, cont), Pos(lay.places[i].body, 0), b, dst)
    decreases |s.clauses| - i
  {
    hide Sound;
    var c, p := s.clauses[i], lay.places[i];
    assert ClauseOk(g, b0, s.clauses, lay.places, i);
    var rest := if c.falls then Bodies(s, i + 1, brk, cont) else Ops([]);
    if c.falls {
      BodiesSound(g, x, s, lay, i + 1, brk, cont, b0, b, dst);
      assert ClauseOk(g, b0, s.clauses, lay.places, i + 1);
      EdgeThen(g, x, rest, p.end, lay.places[i + 1].body, b, dst);
    } else {
      SkipEdge(g, x, p.end, b.blk, dst);
    }
    SeqSound(g, x, Meaning(c.body, brk, cont, None), rest, Pos(p.body, 0), p.end, b, dst);
  }

  /** A clause that is entered through its list. */
  lemma ClauseSound(g: Graph, x: Var, s: Stmt, lay: Lay, i: nat, brk: seq<Option<Label>>, cont: seq<Option<Label>>,
      b0: nat, b: Pos, dst: map<Target, nat>)
    requires ClausesSound(g, x, s, lay, brk, cont, b0, b, dst) && i < |s.clauses| && s.clauses[i].list.Some?
    ensures Sound(g, x, Seq(Hit(s.clauses[i].list.value), Bodies(s, i, brk, cont)), Pos(lay.places[i].list, 0), b, dst)
  {
    hide Sound;
    var list, p := s.clauses[i].list.value, lay.places[i];
    assert ClauseOk(g, b0, s.clauses, lay.places, i);
    var ops := UsesOf(Flat(list));
    var e := Pos(p.list, |ops|);
    FullHolds(g, p.list, ops);
    HitSound(g, x, list, Pos(p.list, 0), e, dst);
    BodiesSound(g, x, s, lay, i, brk, cont, b0, b, dst);
    EdgeThen(g, x, Bodies(s, i, brk, cont), e, p.body, b, dst);
    SeqSound(g, x, Hit(list), Bodies(s, i, brk, cont), Pos(p.list, 0), e, b, dst);
  }

  /** The list of clause `i` is evaluated after `pre`. */
  lemma ListEvaluated(g: Graph, x: Var, c0: Pos, pre: seq<Op>, c: Pos, list: nat, ops: seq<Op>)
    requires Arrives(g, x, c0, pre, c) && UsesForeseen(g, x, c0, pre)
    requires AtEnd(g, c) && EdgeTo(g, c.blk, list) && Full(g, list, ops)
    ensures Arrives(g, x, c0, pre + ops, Pos(list, |ops|)) && UsesForeseen(g, x, c0, pre + ops)
  {
    LeadsEdge(g, x, c, list);
    NothingDone(g, x, c);
    FullHolds(g, list, ops);
    BlockRun(g, x, list, 0, |ops|);
    RunConcat(g, x, c, [], Pos(list, 0), ops);
    assert [] + ops == ops;
    RunConcat(g, x, c0, pre, c, ops);
  }

  lemma NoMatch(g: Graph, x: Var, c0: Pos, pre: seq<Op>, b: Pos, dst: map<Target, nat>)
    requires AllUses(pre) && UsesForeseen(g, x, c0, pre) && AtEnd(g, c0) && EdgeTo(g, c0.blk, b.blk)
        && b == Pos(b.blk, 0)
    ensures SoundAfter(g, x, c0, pre, Ops([]), b, dst)
  {
    LastOfUses(pre, x);
    LeadsEdge(g, x, c0, b.blk);
    assert pre + [] == pre;
    forall r
      ensures Trace(Ops([]), r) == [] && !Out(Ops([]), r).Exits?
    {
      OpsRun([], r);
    }
  }

  lemma ExitEdge(g: Graph, x: Var, s: Stmt, lay: Lay, brk: seq<Option<Label>>, cont: seq<Option<Label>>, b0: nat,
      b: Pos, dst: map<Target, nat>)
    requires ClausesSound(g, x, s, lay, brk, cont, b0, b, dst)
    ensures var n, k := |s.clauses|, DefaultIx(s.clauses);
      && b == Pos(b.blk, 0) && |lay.places| == n
      && (if k < n then EdgeTo(g, Before(g, b0, s.clauses, lay.places, n).blk, lay.places[k].body)
          else EdgeTo(g, b0, b.blk))
  {
    hide ClauseOk, Sound, Meaning;
    assert SwitchExit(g, s.clauses, lay.places, b0, b.blk);
  }

  lemma {:induction false} ChoiceSound(g: Graph, x: Var, s: Stmt, lay: Lay, i: nat, pre: seq<Op>,
      brk: seq<Option<Label>>, cont: seq<Option<Label>>, c0: Pos, b: Pos, dst: map<Target, nat>)
    requires ClausesSound(g, x, s, lay, brk, cont, c0.blk, b, dst) && i <= |s.clauses| && AtEnd(g, c0)
    requires AllUses(pre) && UsesForeseen(g, x, c0, pre)
    requires Arrives(g, x, c0, pre, Before(g, c0.blk, s.clauses, lay.places, i))
    requires AtEnd(g, Before(g, c0.blk, s.clauses, lay.places, i))
    ensures SoundAfter(g, x, c0, pre, Choice(s, i, brk, cont), b, dst)
    decreases |s.clauses| - i
  {
    hide Sound, SoundAfter, Arrives, UsesForeseen;
    var c := Before(g, c0.blk, s.clauses, lay.places, i);
    if i == |s.clauses| {
      ExitEdge(g, x, s, lay, brk, cont, c0.blk, b, dst);
      var k := DefaultIx(s.clauses);
      if k < |s.clauses| {
        BodiesSound(g, x, s, lay, k, brk, cont, c0.blk, b, dst);
        EdgeThen(g, x, Bodies(s, k, brk, cont), c, lay.places[k].body, b, dst);
        AfterArriving(g, x, c0, pre, c, Bodies(s, k, brk, cont), b, dst);
      } else {
        NoMatch(g, x, c0, pre, b, dst);
      }
    } else if s.clauses[i].list.None? {
      ChoiceSound(g, x, s, lay, i + 1, pre, brk, cont, c0, b, dst);
    } else {
      assert ClauseOk(g, c0.blk, s.clauses, lay.places, i);
      var list, p := s.clauses[i].list.value, lay.places[i];
      var ops := UsesOf(Flat(list));
      var here := Seq(Hit(list), Bodies(s, i, brk, cont));
      ClauseSound(g, x, s, lay, i, brk, cont, c0.blk, b, dst);
      EdgeThen(g, x, here, c, p.list, b, dst);
      AfterArriving(g, x, c0, pre, c, here, b, dst);
      ListEvaluated(g, x, c0, pre, c, p.list, ops);
      assert Before(g, c0.blk, s.clauses, lay.places, i + 1) == Pos(p.list, |ops|);
      ChoiceSound(g, x, s, lay, i + 1, pre + ops, brk, cont, c0, b, dst);
      AfterOps(g, x, c0, pre, ops, Choice(s, i + 1, brk, cont), b, dst);
      AfterAlt(g, x, c0, pre, here, Seq(Ops(ops), Choice(s, i + 1, brk, cont)), b, dst);
    }
  }

  lemma SwitchSound(g: Graph, x: Var, env: Env, s: Stmt, l: Option<Label>, lay: Lay, a: Pos, b: Pos, dst: map<Target,
      nat>)
    requires ValidEnv(env) && s.Switch? && WalkSwitch(g, env, s, l, lay, a, b) && Honors(g, env, dst) && b.blk < |g|
    ensures Sound(g, x, Meaning(s, env.brk, env.cont, l), a, b, dst)
    decreases s, 0
  {
    hide Sound, Meaning, Choice, ClauseOk;
    MeaningOfSwitch(s, env.brk, env.cont, l);
    var brk, cont := env.brk + [l], env.cont;
    var dst1 := dst[Brk(|env.brk|) := b.blk];
    InsideHonors(g, env, l, lay.brkSrc, {}, dst, b.blk, b.blk);
    var c0 := lay.tag;
    forall i | 0 <= i < |s.clauses|
      ensures Sound(g, x, Meaning(s.clauses[i].body, brk, cont, None), Pos(lay.places[i].body, 0), lay.places[i].end,
          dst1)
      ensures !s.clauses[i].falls ==> EdgeTo(g, lay.places[i].end.blk, b.blk)
    {
      assert ClauseOk(g, a.blk, s.clauses, lay.places, i);
      WalkSound(g, x, InsideSwitch(env, l, lay.brkSrc), s.clauses[i].body, None, lay.places[i].lay,
                Pos(lay.places[i].body, 0), lay.places[i].end, dst1);
    }
    assert ClausesSound(g, x, s, lay, brk, cont, a.blk, b, dst1);
    LeadsSelf(g, x, c0);
    NothingDone(g, x, c0);
    ChoiceSound(g, x, s, lay, 0, [], brk, cont, c0, b, dst1);
    AfterNothing(g, x, c0, Choice(s, 0, brk, cont), b, dst1);
    LeadsSelf(g, x, b);
    CatchSound(g, x, Brk(|env.brk|), Choice(s, 0, brk, cont), c0, b.blk, b, dst);
    TwoOpsSound(g, x, SimpleOps(s.init), SimpleOps(s.tag), Catch(Brk(|env.brk|), Choice(s, 0, brk, cont)), a, c0, b,
        dst);
  }

  lemma MeaningOfSwitch(s: Stmt, brk: seq<Option<Label>>, cont: seq<Option<Label>>, l: Option<Label>)
    requires s.Switch? && IsSimple(s.init) && IsSimple(s.tag)
    ensures Meaning(s, brk, cont, l)
         == Seq(Ops(SimpleOps(s.init)), Seq(Ops(SimpleOps(s.tag)), Catch(Brk(|brk|), Choice(s, 0, brk + [l], cont))))
  {}
}
