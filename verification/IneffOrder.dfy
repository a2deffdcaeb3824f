/** Where ineffassign is wrong about the order of an assignment: it takes a variable that is assigned on
    the left for overwritten before an operand further right is read, but all operands are read first. */
module IneffOrder {
  import opened Options
  import opened IneffGraph
  import opened IneffLang
  import opened IneffLayout
  import opened IneffEdges
  import opened IneffGrowth
  import opened IneffDead
  import opened IneffStore
  import opened IneffChecker

  /** A variable is assigned, and then the assignment follows. */
  function Program(x: Var, id: int, lhs: seq<Lhs>, rhs: seq<Var>): Stmt {
    Then(AssignStmt([Ident(x, id, false)], false, []), AssignStmt(lhs, false, rhs))
  }

  /** The check of such a program reports the first assignment, whose value is read. */
  ghost predicate Misreported(lhs: seq<Lhs>, rhs: seq<Var>, x: Var, id: int, g: Graph) {
    var s := Program(x, id, lhs, rhs);
    && BuiltFor(g, s) && multiset(Ids(s))[id] == 1
    && Connected(g, 0, 0) && IsDead(g, {}, 0, id) && !Harmless(s, id)
  }

  // ----- how the graph of such a program looks -----

  function AllOps(x: Var, id: int, lhs: seq<Lhs>, rhs: seq<Var>): seq<Op> {
    [Assign(x, id)] + (UsesOf(rhs) + AllLhsOps(lhs, false))
  }

  function OneBlock(x: Var, id: int, lhs: seq<Lhs>, rhs: seq<Var>): Graph {
    [BlockV(AllOps(x, id, lhs, rhs), [])]
  }

  lemma ProgramBuilt(x: Var, id: int, lhs: seq<Lhs>, rhs: seq<Var>)
    ensures BuiltFor(OneBlock(x, id, lhs, rhs), Program(x, id, lhs, rhs))
  {
    var g, s := OneBlock(x, id, lhs, rhs), Program(x, id, lhs, rhs);
    var ops := UsesOf(rhs) + AllLhsOps(lhs, false);
    var n := |AllOps(x, id, lhs, rhs)|;
    FirstOps(x, id);
    assert SimpleOps(s.second) == ops;
    assert g[0].ops[0..1] == [Assign(x, id)] && g[0].ops[1..n] == ops;
    assert Holds(g, Pos(0, 0), SimpleOps(s.first), Pos(0, 1)) && Holds(g, Pos(0, 1), SimpleOps(s.second), Pos(0, n));
    var lay := LThen(LSimple, Pos(0, 1), LSimple);
    var env := Env([], [], [], []);
    WalkThenBoth(g, env, s.first, s.second, Pos(0, 0), Pos(0, 1), Pos(0, n));
    assert Edges(g) == iset{} == Drawing(s, lay, 0, 0);
    assert g[..0] == [];
    OpIdsConcat([Assign(x, id)], ops);
    assert AllIds(g) == multiset(OpIds(g[0].ops)) == multiset(Ids(s));
  }

  lemma WalkThenBoth(g: Graph, env: Env, s1: Stmt, s2: Stmt, a: Pos, b: Pos, c: Pos)
    requires ValidEnv(env) && IsSimple(s1) && IsSimple(s2) && a.blk == b.blk == c.blk < |g| && InGraph(g, c)
    requires Holds(g, a, SimpleOps(s1), b) && Holds(g, b, SimpleOps(s2), c)
    ensures Walk(g, env, Then(s1, s2), None, LThen(LSimple, b, LSimple), a, c)
  {
    assert Walk(g, env, s1, None, LSimple, a, b);
    assert Walk(g, env, s2, None, LSimple, b, c);
  }

  lemma FirstOps(x: Var, id: int)
    ensures SimpleOps(AssignStmt([Ident(x, id, false)], false, [])) == [Assign(x, id)]
  {
    var l := [Ident(x, id, false)];
    assert l[1..] == [];
    assert AllLhsOps(l, false) == [Assign(x, id)] + AllLhsOps([], false);
  }

  lemma {:induction false} UsedFirstIs(ops: seq<Op>, x: Var)
    ensures UsedFirst(ops, x) <==> OpsOn(ops, x) != [] && OpsOn(ops, x)[0].Use?
    decreases |ops|
  {
    if ops != [] {
      UsedFirstIs(ops[1..], x);
      assert ops == [ops[0]] + ops[1..];
      OpsOnConcat([ops[0]], ops[1..], x);
      OpsOnSnoc([], ops[0], x);
      assert [] + [ops[0]] == [ops[0]];
    }
  }

  lemma ProgramDead(x: Var, id: int, lhs: seq<Lhs>, rhs: seq<Var>)
    requires x !in rhs && !ReadsFirst(lhs, false, x)
    ensures IsDead(OneBlock(x, id, lhs, rhs), {}, 0, id) && Connected(OneBlock(x, id, lhs, rhs), 0, 0)
  {
    var g := OneBlock(x, id, lhs, rhs);
    var ops := UsesOf(rhs) + AllLhsOps(lhs, false);
    assert g[0].ops[1..] == ops;
    ReadFirstIsUsed(lhs, false, x);
    UsedIfThere(rhs, AllLhsOps(lhs, false), x);
    UsedFirstIs(ops, x);
    UsedCases(g, x, 0, 1);
    assert After(g, x, id, Pos(0, 1)) && !Used(g, x, Pos(0, 1));
    ConnectedSelf(g, 0);
  }

  // ----- and what executing it reads -----

  /** A world in which the assignment `id` writes `v`, and all others zero. */
  function Writing(id: int, v: int): World {
    World((seen, turns, j) => if j == id then v else 0, (seen, turns) => false)
  }

  lemma {:induction false} LookingFinds(m: Machine, lhs: seq<Lhs>, x: Var)
    requires Reads(lhs, false, x)
    ensures m.store(x) in LookLhs(m, lhs, false).seen
    decreases |lhs|
  {
    match lhs[0]
    case Other(uses) =>
      if x in uses {
        ValueIn(m.store, uses, x);
        LookingAdds(Look(m, uses), lhs[1..]);
      } else {
        LookingFinds(Look(m, uses), lhs[1..], x);
      }
    case Ident(_, _, _) => LookingFinds(m, lhs[1..], x);
  }

  lemma {:induction false} ValueIn(st: Var -> int, vs: seq<Var>, x: Var)
    requires x in vs
    ensures st(x) in Values(st, vs)
    decreases |vs|
  {
    if vs[0] != x { ValueIn(st, vs[1..], x); }
  }

  lemma {:induction false} LookingAdds(m: Machine, lhs: seq<Lhs>)
    ensures m.seen <= LookLhs(m, lhs, false).seen
    decreases |lhs|
  {
    if lhs != [] {
      match lhs[0]
      case Other(uses) => LookingAdds(Look(m, uses), lhs[1..]);
      case Ident(_, _, _) => LookingAdds(m, lhs[1..]);
    }
  }

  /** If all variables are zero, zeros are read. */
  lemma {:induction false} LookingZeros(m: Machine, lhs: seq<Lhs>)
    requires (forall y :: m.store(y) == 0) && forall v :: v in m.seen ==> v == 0
    ensures forall v :: v in LookLhs(m, lhs, false).seen ==> v == 0
    decreases |lhs|
  {
    if lhs != [] {
      match lhs[0]
      case Other(uses) =>
        ValuesZero(m.store, uses);
        LookingZeros(Look(m, uses), lhs[1..]);
      case Ident(_, _, _) => LookingZeros(m, lhs[1..]);
    }
  }

  lemma {:induction false} ValuesZero(st: Var -> int, vs: seq<Var>)
    requires forall y :: st(y) == 0
    ensures forall v :: v in Values(st, vs) ==> v == 0
    decreases |vs|
  {
    if vs != [] { ValuesZero(st, vs[1..]); }
  }

  lemma {:induction false} PuttingReadsNothing(w: World, m: Machine, lhs: seq<Lhs>)
    ensures PutLhs(w, m, lhs).seen == m.seen
    decreases |lhs|
  {
    if lhs != [] {
      match lhs[0]
      case Other(_) => PuttingReadsNothing(w, m, lhs[1..]);
      case Ident(x, id, zero) =>
        PuttingReadsNothing(w, Put(m, x, if zero then 0 else w.written(m.seen, m.turns, id)), lhs[1..]);
    }
  }

  /** What the program has read at its end. */
  lemma ProgramReads(x: Var, id: int, lhs: seq<Lhs>, rhs: seq<Var>, v: int)
    ensures var m := Put(Machine(y => 0, [], 0), x, v);
      Exec(Writing(id, v), Machine(y => 0, [], 0), Program(x, id, lhs, rhs), None, 0).m.seen
      == LookLhs(Look(m, rhs), lhs, false).seen
  {
    var w, m0 := Writing(id, v), Machine(y => 0, [], 0);
    var l := [Ident(x, id, false)];
    var m := Put(m0, x, v);
    assert l[1..] == [];
    assert Look(m0, []) == m0;
    assert LookLhs(m0, l, false) == LookLhs(m0, l[1..], false) == m0;
    assert PutLhs(w, m0, l) == PutLhs(w, m, l[1..]) == m;
    assert Assigned(w, m0, l, false, []) == m;
    PuttingReadsNothing(w, LookLhs(Look(m, rhs), lhs, false), lhs);
  }

  lemma ProgramHarmed(x: Var, id: int, lhs: seq<Lhs>, rhs: seq<Var>)
    requires Reads(lhs, false, x)
    ensures !Harmless(Program(x, id, lhs, rhs), id)
  {
    var w, w', m0, s := Writing(id, 0), Writing(id, 1), Machine(y => 0, [], 0), Program(x, id, lhs, rhs);
    ProgramReads(x, id, lhs, rhs, 0);
    ProgramReads(x, id, lhs, rhs, 1);
    var m, m' := Put(m0, x, 0), Put(m0, x, 1);
    ValuesZero(m.store, rhs);
    LookingZeros(Look(m, rhs), lhs);
    LookingFinds(Look(m', rhs), lhs, x);
    assert Alike(w, w', id);
    assert 1 in Exec(w', m0, s, None, 0).m.seen && 1 !in Exec(w, m0, s, None, 0).m.seen;
  }

  lemma {:induction false} Fresh(ids: seq<int>) returns (id: int)
    ensures forall j :: j in ids ==> j < id
    decreases |ids|
  {
    if ids == [] {
      id := 0;
    } else {
      id := Fresh(ids[1..]);
      if id <= ids[0] { id := ids[0] + 1; }
      assert forall j :: j in ids ==> j == ids[0] || j in ids[1..];
    }
  }

  /** An assignment is misread in some program iff it is out of order. */
  lemma MisreportedIff(lhs: seq<Lhs>, rhs: seq<Var>)
    ensures (exists x, id, g :: Misreported(lhs, rhs, x, id, g)) <==> !Ordered(lhs, false, rhs)
  {
    if x, id, g :| Misreported(lhs, rhs, x, id, g) {
      OrderedIsRight(lhs, rhs, x, id, g);
    }
    if !Ordered(lhs, false, rhs) {
      var x :| Reads(lhs, false, x) && x !in rhs && !ReadsFirst(lhs, false, x);
      var id := Fresh(Ids(AssignStmt(lhs, false, rhs)));
      ProgramBuilt(x, id, lhs, rhs);
      ProgramDead(x, id, lhs, rhs);
      ProgramHarmed(x, id, lhs, rhs);
      OnceInProgram(x, id, lhs, rhs);
      assert Misreported(lhs, rhs, x, id, OneBlock(x, id, lhs, rhs));
    }
  }

  lemma OnceInProgram(x: Var, id: int, lhs: seq<Lhs>, rhs: seq<Var>)
    requires id !in Ids(AssignStmt(lhs, false, rhs))
    ensures multiset(Ids(Program(x, id, lhs, rhs)))[id] == 1
  {
    ProgramIds(x, id, lhs, rhs);
    hide Ids;
    var rest := Ids(AssignStmt(lhs, false, rhs));
    assert multiset([id] + rest) == multiset{id} + multiset(rest);
  }

  lemma ProgramIds(x: Var, id: int, lhs: seq<Lhs>, rhs: seq<Var>)
    ensures Ids(Program(x, id, lhs, rhs)) == [id] + Ids(AssignStmt(lhs, false, rhs))
  {
    FirstOps(x, id);
    assert [Assign(x, id)][1..] == [];
    assert OpIds([Assign(x, id)]) == [id] + OpIds([]);
  }

  lemma OrderedIsRight(lhs: seq<Lhs>, rhs: seq<Var>, x: Var, id: int, g: Graph)
    requires Misreported(lhs, rhs, x, id, g)
    ensures !Ordered(lhs, false, rhs)
  {
    var s := Program(x, id, lhs, rhs);
    if Ordered(lhs, false, rhs) {
      NothingRead(x, id);
      assert InOrder(s);
      hide BuiltFor, IsDead, Harmless, Ordered, Ids, InOrder;
      DeadIsIneffectual(g, {}, s, 0, id);
      IneffectualIsHarmless(s, id);
      assert false;
    }
  }

  lemma NothingRead(x: Var, id: int)
    ensures Ordered([Ident(x, id, false)], false, [])
  {
    assert [Ident(x, id, false)][1..] == [];
  }

  /** `i, a[i] = 1, 2` after `i = 5`, with 0 for `i` and 1 for `a`: `i = 5` is reported, but it is what
      `a[i]` reads. */
  lemma IndexExample()
    ensures var lhs := [Ident(0, 2, false), Other([1, 0])];
      Misreported(lhs, [], 0, 1, OneBlock(0, 1, lhs, []))
  {
    var lhs := [Ident(0, 2, false), Other([1, 0])];
    assert lhs[1..] == [Other([1, 0])];
    assert Reads(lhs, false, 0) && !ReadsFirst(lhs, false, 0);
    ProgramBuilt(0, 1, lhs, []);
    ProgramDead(0, 1, lhs, []);
    ProgramHarmed(0, 1, lhs, []);
    LhsIds(lhs);
    OnceInProgram(0, 1, lhs, []);
  }

  lemma LhsIds(lhs: seq<Lhs>)
    requires lhs == [Ident(0, 2, false), Other([1, 0])]
    ensures 1 !in Ids(AssignStmt(lhs, false, []))
  {
    var a, b := [Assign(0, 2)], UsesOf([1, 0]);
    var rest := lhs[1..];
    assert rest == [Other([1, 0])] && rest[1..] == [];
    assert AllLhsOps(rest[1..], false) == [];
    assert AllLhsOps(rest, false) == b + [] == b;
    assert LhsOps(lhs[0], false) == a;
    assert AllLhsOps(lhs, false) == a + b;
    OpIdsConcat(a, b);
    UsesHaveNoIds([1, 0]);
    assert a[1..] == [] && OpIds(a) == [2] + OpIds([]);
    assert UsesOf([]) + AllLhsOps(lhs, false) == AllLhsOps(lhs, false);
  }
}
