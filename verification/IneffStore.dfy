/** What executing a statement does to the values of variables. An assignment that no execution reads
    next is harmless: whatever value it writes, everything that is read stays the same. */
module IneffStore {
  import opened Options
  import opened IneffGraph
  import opened IneffLang

  // ----- executions with values -----

  /** What the program computes: the value that an assignment writes, and the way a decision goes,
      may depend on all values read so far and on the number of decisions. */
  datatype World = World(written: (seq<int>, nat, int) -> int, choose: (seq<int>, nat) -> bool)

  datatype Machine = Machine(store: Var -> int, seen: seq<int>, turns: nat)

  /** How a statement ends; `Tired` if the turns granted to loops are used up. */
  datatype Ending = Normal | Broke(to: Option<Label>) | Continued(to: Option<Label>) | Returned | Tired

  datatype Result = Result(m: Machine, e: Ending)

  function Values(store: Var -> int, vs: seq<Var>): seq<int> {
    if vs == [] then [] else [store(vs[0])] + Values(store, vs[1..])
  }

  /** Variables are read. */
  function Look(m: Machine, vs: seq<Var>): Machine {
    m.(seen := m.seen + Values(m.store, vs))
  }

  function Put(m: Machine, x: Var, v: int): Machine {
    m.(store := y => if y == x then v else m.store(y))
  }

  function Choose(w: World, m: Machine): bool {
    w.choose(m.seen, m.turns)
  }

  function Turn(m: Machine): Machine {
    m.(turns := m.turns + 1)
  }

  /** The operands on the left of an assignment, and the old values of an assignment such as +=. */
  function LookLhs(m: Machine, lhs: seq<Lhs>, opAssign: bool): Machine
    decreases |lhs|
  {
    if lhs == [] then m
    else
      match lhs[0]
      case Other(uses) => LookLhs(Look(m, uses), lhs[1..], opAssign)
      case Ident(x, _, _) => LookLhs(if opAssign then Look(m, [x]) else m, lhs[1..], opAssign)
  }

  function PutLhs(w: World, m: Machine, lhs: seq<Lhs>): Machine
    decreases |lhs|
  {
    if lhs == [] then m
    else
      match lhs[0]
      case Other(_) => PutLhs(w, m, lhs[1..])
      case Ident(x, id, zero) =>
        PutLhs(w, Put(m, x, if zero then 0 else w.written(m.seen, m.turns, id)), lhs[1..])
  }

  /** All operands on both sides are evaluated before anything is assigned (Go specification,
      Assignment statements). */
  function Assigned(w: World, m: Machine, lhs: seq<Lhs>, opAssign: bool, rhs: seq<Var>): Machine {
    PutLhs(w, LookLhs(Look(m, rhs), lhs, opAssign), lhs)
  }

  /** A variable that is declared without a value is zero. */
  function Declared(w: World, m: Machine, names: seq<(Var, int)>, hasValues: bool): Machine
    decreases |names|
  {
    if names == [] then m
    else
      var v := if hasValues then w.written(m.seen, m.turns, names[0].1) else 0;
      Declared(w, Put(m, names[0].0, v), names[1..], hasValues)
  }

  function Increased(w: World, m: Machine, x: Var, id: int): Machine {
    var m1 := Look(m, [x]);
    Put(m1, x, w.written(m1.seen, m1.turns, id))
  }

  /** A break or continue with target `to` ends in the statement with label `l`. */
  predicate Meant(to: Option<Label>, l: Option<Label>) {
    to.None? || to == l
  }

  function Exec(w: World, m: Machine, s: Stmt, l: Option<Label>, fuel: nat): Result
    decreases fuel, s, 2, 0
  {
    match s
    case Empty => Result(m, Normal)
    case Expr(uses) => Result(Look(m, uses), Normal)
    case AssignStmt(lhs, opAssign, rhs) => Result(Assigned(w, m, lhs, opAssign, rhs), Normal)
    case VarDecl(names, hasValues, values) => Result(Declared(w, Look(m, values), names, hasValues), Normal)
    case IncDec(Ident(x, id, _)) => Result(Increased(w, m, x, id), Normal)
    case IncDec(Other(uses)) => Result(Look(m, uses), Normal)
    case Then(s1, s2) =>
      var r := Exec(w, m, s1, None, fuel);
      if r.e == Normal then Exec(w, r.m, s2, None, fuel) else r
    case If(init, cond, thn, els) =>
      var r := Exec(w, m, init, None, fuel);
      var m1 := Look(r.m, cond);
      if r.e != Normal then r
      else if Choose(w, m1) then Exec(w, Turn(m1), thn, None, fuel)
      else if els.Some? then Exec(w, Turn(m1), els.value, None, fuel) else Result(Turn(m1), Normal)
    case For(init, _, _, _) =>
      var r := Exec(w, m, init, None, fuel);
      if r.e != Normal then r else Loop(w, r.m, s, l, fuel)
    case Range(over, _, _) => Each(w, Look(m, over), s, l, fuel)
    case Switch(init, tag, _) =>
      var r := Exec(w, m, init, None, fuel);
      var r' := Exec(w, r.m, tag, None, fuel);
      if r.e != Normal then r else if r'.e != Normal then r' else Left(Cases(w, r'.m, s, 0, fuel), l)
    case Labeled(name, s1) => Exec(w, m, s1, Some(name), fuel)
    case Break(to) => Result(m, Broke(to))
    case Continue(to) => Result(m, Continued(to))
    case Return(uses) => Result(Look(m, uses), Returned)
  }

  /** A break that is meant for the statement ends it. */
  function Left(r: Result, l: Option<Label>): Result {
    if r.e.Broke? && Meant(r.e.to, l) then Result(r.m, Normal) else r
  }

  /** A continue that is meant for the loop ends its body. */
  function GoesOn(e: Ending, l: Option<Label>): bool {
    e.Normal? || (e.Continued? && Meant(e.to, l))
  }

  /** The turns of a for statement. */
  function Loop(w: World, m: Machine, s: Stmt, l: Option<Label>, fuel: nat): Result
    requires s.For?
    decreases fuel, s, 1, 0
  {
    var m1 := Look(m, s.cond);
    if !Choose(w, m1) then Result(Turn(m1), Normal)
    else
      var r := Exec(w, Turn(m1), s.body, None, fuel);
      if !GoesOn(r.e, l) then Left(r, l)
      else
        var r' := Exec(w, r.m, s.post, None, fuel);
        if r'.e != Normal then r' else if fuel == 0 then Result(r'.m, Tired) else Loop(w, r'.m, s, l, fuel - 1)
  }

  /** The turns of a range statement: each assigns the variables anew. */
  function Each(w: World, m: Machine, s: Stmt, l: Option<Label>, fuel: nat): Result
    requires s.Range?
    decreases fuel, s, 1, 0
  {
    if !Choose(w, m) then Result(Turn(m), Normal)
    else
      var r := Exec(w, Assigned(w, Turn(m), s.vars, false, []), s.body, None, fuel);
      if !GoesOn(r.e, l) then Left(r, l)
      else if fuel == 0 then Result(r.m, Tired) else Each(w, r.m, s, l, fuel - 1)
  }

  /** The expressions of a clause, until one is equal to the tag. */
  function Tried(w: World, m: Machine, list: seq<seq<Var>>): (Machine, bool)
    decreases |list|
  {
    if list == [] then (m, false)
    else
      var m1 := Look(m, list[0]);
      if Choose(w, m1) then (Turn(m1), true) else Tried(w, Turn(m1), list[1..])
  }

  /** The clauses from `i` on are tried in order, and the default clause if none of them matches. */
  function Cases(w: World, m: Machine, s: Stmt, i: nat, fuel: nat): Result
    requires s.Switch? && i <= |s.clauses|
    decreases fuel, s, 1, |s.clauses| - i
  {
    if i == |s.clauses| then Fallen(w, m, s, DefaultIx(s.clauses), fuel)
    else if s.clauses[i].list.None? then Cases(w, m, s, i + 1, fuel)
    else
      var (m1, hit) := Tried(w, m, s.clauses[i].list.value);
      if hit then Fallen(w, m1, s, i, fuel) else Cases(w, m1, s, i + 1, fuel)
  }

  /** The body of clause `i`, and those that it falls through to. */
  function Fallen(w: World, m: Machine, s: Stmt, i: nat, fuel: nat): Result
    requires s.Switch? && i <= |s.clauses|
    decreases fuel, s, 0, |s.clauses| - i
  {
    if i == |s.clauses| then Result(m, Normal)
    else
      var r := Exec(w, m, s.clauses[i].body, None, fuel);
      if r.e == Normal && s.clauses[i].falls then Fallen(w, r.m, s, i + 1, fuel) else r
  }

  /** The worlds differ only in the values that the assignment `id` writes. */
  ghost predicate Alike(w: World, w': World, id: int) {
    && (forall seen, turns :: w.choose(seen, turns) == w'.choose(seen, turns))
    && (forall seen, turns, j :: j != id ==> w.written(seen, turns, j) == w'.written(seen, turns, j))
  }

  /** Whatever the assignment writes, everything that is read, and the way the execution goes, stay
      the same, in every execution, complete or cut off. */
  ghost predicate Harmless(s: Stmt, id: int) {
    forall w, w', store, fuel: nat {:trigger Alike(w, w', id), Exec(w, Machine(store, [], 0), s, None, fuel)} ::
      Alike(w, w', id) ==>
        var r, r' := Exec(w, Machine(store, [], 0), s, None, fuel), Exec(w', Machine(store, [], 0), s, None, fuel);
        r.m.seen == r'.m.seen && r.e == r'.e
  }

  // ----- the order of reads in assignments -----

  /** An operand on the left, or an old value, is the variable. */
  predicate Reads(lhs: seq<Lhs>, opAssign: bool, x: Var) {
    lhs != [] &&
    match lhs[0]
    case Other(uses) => x in uses || Reads(lhs[1..], opAssign, x)
    case Ident(y, _, _) => (opAssign && y == x) || Reads(lhs[1..], opAssign, x)
  }

  /** Where the variable comes first on the left, it is not assigned a value. */
  predicate ReadsFirst(lhs: seq<Lhs>, opAssign: bool, x: Var) {
    lhs != [] &&
    match lhs[0]
    case Other(uses) => x in uses || ReadsFirst(lhs[1..], opAssign, x)
    case Ident(y, _, zero) => if y == x then opAssign || zero else ReadsFirst(lhs[1..], opAssign, x)
  }

  /** Going through the assignment from the left, right-hand sides first, every variable that it reads
      is met in an operand before it is assigned. */
  ghost predicate Ordered(lhs: seq<Lhs>, opAssign: bool, rhs: seq<Var>) {
    forall x :: Reads(lhs, opAssign, x) && x !in rhs ==> ReadsFirst(lhs, opAssign, x)
  }

  ghost predicate InOrder(s: Stmt) {
    match s
    case AssignStmt(lhs, opAssign, rhs) => Ordered(lhs, opAssign, rhs)
    case Then(s1, s2) => InOrder(s1) && InOrder(s2)
    case If(init, _, thn, els) => InOrder(init) && InOrder(thn) && (els.Some? ==> InOrder(els.value))
    case For(init, _, post, body) => InOrder(init) && InOrder(post) && InOrder(body)
    case Range(_, vars, body) => Ordered(vars, false, []) && InOrder(body)
    case Switch(init, tag, cs) => InOrder(init) && InOrder(tag) && forall i :: 0 <= i < |cs| ==> InOrder(cs[i].body)
    case Labeled(_, s1) => InOrder(s1)
    case _ => true
  }

  // ----- the operations of simple statements are what they do -----

  function UsedVars(ops: seq<Op>): seq<Var> {
    if ops == [] then [] else (if ops[0].Use? then [ops[0].x] else []) + UsedVars(ops[1..])
  }

  /** The stores and the values read after operations whose writes are all computed from `seen`. */
  function Written(w: World, m: Machine, ops: seq<Op>): Machine
    decreases |ops|
  {
    if ops == [] then m
    else
      var o := ops[0];
      Written(w, if o.Assign? then Put(m, o.x, w.written(m.seen, m.turns, o.id)) else m, ops[1..])
  }

  /** No variable is defined by a zero literal or declared without a value: such writes are left out of
      the operations, which have a use in their place. */
  predicate Computes(s: Stmt) {
    match s
    case AssignStmt(lhs, _, _) => forall i :: 0 <= i < |lhs| ==> lhs[i].Ident? ==> !lhs[i].zero
    case VarDecl(_, hasValues, _) => hasValues
    case _ => true
  }

  lemma {:induction false} UsedConcat(a: seq<Op>, b: seq<Op>)
    ensures UsedVars(a + b) == UsedVars(a) + UsedVars(b)
    decreases |a|
  {
    if a == [] {
      assert a + b == b;
    } else {
      assert (a + b)[1..] == a[1..] + b;
      UsedConcat(a[1..], b);
    }
  }

  lemma {:induction false} WrittenConcat(w: World, m: Machine, a: seq<Op>, b: seq<Op>)
    ensures Written(w, m, a + b) == Written(w, Written(w, m, a), b)
    decreases |a|
  {
    if a == [] {
      assert a + b == b;
    } else {
      assert (a + b)[0] == a[0] && (a + b)[1..] == a[1..] + b;
      var o := a[0];
      WrittenConcat(w, if o.Assign? then Put(m, o.x, w.written(m.seen, m.turns, o.id)) else m, a[1..], b);
    }
  }

  lemma {:induction false} UsesAreUsed(w: World, m: Machine, vs: seq<Var>)
    ensures UsedVars(UsesOf(vs)) == vs && Written(w, m, UsesOf(vs)) == m
    decreases |vs|
  {
    if vs != [] { UsesAreUsed(w, m, vs[1..]); }
  }

  lemma {:induction false} ValuesConcat(st: Var -> int, a: seq<Var>, b: seq<Var>)
    ensures Values(st, a + b) == Values(st, a) + Values(st, b)
    decreases |a|
  {
    if a == [] {
      assert a + b == b;
    } else {
      assert (a + b)[1..] == a[1..] + b;
      ValuesConcat(st, a[1..], b);
    }
  }

  lemma {:induction false} LookIsUsed(m: Machine, lhs: seq<Lhs>, opAssign: bool)
    requires forall i :: 0 <= i < |lhs| ==> lhs[i].Ident? ==> !lhs[i].zero
    ensures LookLhs(m, lhs, opAssign) == Look(m, UsedVars(AllLhsOps(lhs, opAssign)))
    decreases |lhs|
  {
    if lhs == [] {
      assert Look(m, []) == m;
    } else {
      var ops, rest := LhsOps(lhs[0], opAssign), AllLhsOps(lhs[1..], opAssign);
      UsedConcat(ops, rest);
      LhsUsed(lhs[0], opAssign);
      var m1 := Look(m, UsedVars(ops));
      assert m.seen + [] == m.seen;
      LookIsUsed(m1, lhs[1..], opAssign);
      ValuesConcat(m.store, UsedVars(ops), UsedVars(rest));
      assert m.seen + Values(m.store, UsedVars(ops)) + Values(m.store, UsedVars(rest))
          == m.seen + (Values(m.store, UsedVars(ops)) + Values(m.store, UsedVars(rest)));
    }
  }

  lemma LhsUsed(l: Lhs, opAssign: bool)
    requires l.Ident? ==> !l.zero
    ensures UsedVars(LhsOps(l, opAssign)) == match l case Other(uses) => uses case Ident(x, _, _) => if opAssign
        then [x] else []
  {
    match l
    case Other(uses) => UsesAreUsed(World((a, b, c) => 0, (a, b) => false), Machine(y => 0, [], 0), uses);
    case Ident(x, id, _) =>
      var a := [Assign(x, id)];
      assert a[1..] == [] && UsedVars(a) == [];
      if opAssign { assert LhsOps(l, opAssign)[1..] == a; } else { assert LhsOps(l, opAssign) == a; }
  }

  lemma {:induction false} PutIsWritten(w: World, m: Machine, lhs: seq<Lhs>, opAssign: bool)
    requires forall i :: 0 <= i < |lhs| ==> lhs[i].Ident? ==> !lhs[i].zero
    ensures PutLhs(w, m, lhs) == Written(w, m, AllLhsOps(lhs, opAssign))
    decreases |lhs|
  {
    if lhs != [] {
      var ops, rest := LhsOps(lhs[0], opAssign), AllLhsOps(lhs[1..], opAssign);
      WrittenConcat(w, m, ops, rest);
      match lhs[0]
      case Other(uses) =>
        UsesAreUsed(w, m, uses);
        PutIsWritten(w, m, lhs[1..], opAssign);
      case Ident(x, id, _) =>
        var m1 := Put(m, x, w.written(m.seen, m.turns, id));
        IdentWritten(w, m, lhs[0], opAssign);
        PutIsWritten(w, m1, lhs[1..], opAssign);
    }
  }

  lemma IdentWritten(w: World, m: Machine, l: Lhs, opAssign: bool)
    requires l.Ident? && !l.zero
    ensures Written(w, m, LhsOps(l, opAssign)) == Put(m, l.x, w.written(m.seen, m.turns, l.id))
  {
    var a := [Assign(l.x, l.id)];
    OneWritten(w, m, l.x, l.id);
    if opAssign { assert LhsOps(l, opAssign)[1..] == a; } else { assert LhsOps(l, opAssign) == a; }
  }

  lemma {:induction false} DeclaredIsWritten(w: World, m: Machine, names: seq<(Var, int)>)
    ensures Declared(w, m, names, true) == Written(w, m, DeclOps(names, true)) && UsedVars(DeclOps(names, true)) == []
    decreases |names|
  {
    if names != [] {
      DeclaredIsWritten(w, Put(m, names[0].0, w.written(m.seen, m.turns, names[0].1)), names[1..]);
      assert DeclOps(names, true)[1..] == DeclOps(names[1..], true);
    }
  }

  /** A simple statement reads exactly the variables that its operations use, in their order and in the
      store before it, and writes exactly those that they assign. */
  lemma SimpleDoesOps(w: World, m: Machine, s: Stmt, l: Option<Label>, fuel: nat)
    requires IsSimple(s) && Computes(s)
    ensures Exec(w, m, s, l, fuel) == Result(Written(w, Look(m, UsedVars(SimpleOps(s))), SimpleOps(s)), Normal)
  {
    var ops := SimpleOps(s);
    match s
    case Empty => assert m.seen + [] == m.seen;
    case Expr(uses) => UsesAreUsed(w, Look(m, uses), uses);
    case AssignStmt(lhs, opAssign, rhs) =>
      var rest := AllLhsOps(lhs, opAssign);
      UsesAreUsed(w, m, rhs);
      UsedConcat(UsesOf(rhs), rest);
      LookIsUsed(Look(m, rhs), lhs, opAssign);
      LookTwice(m, rhs, UsedVars(rest));
      var m1 := Look(m, UsedVars(ops));
      UsesAreUsed(w, m1, rhs);
      WrittenConcat(w, m1, UsesOf(rhs), rest);
      PutIsWritten(w, m1, lhs, opAssign);
    case VarDecl(names, _, values) =>
      UsesAreUsed(w, Look(m, values), values);
      UsedConcat(UsesOf(values), DeclOps(names, true));
      DeclaredIsWritten(w, Look(m, values), names);
      assert values + [] == values;
      WrittenConcat(w, Look(m, values), UsesOf(values), DeclOps(names, true));
    case IncDec(Ident(x, id, _)) =>
      IncreaseDoesOps(w, m, x, id);
      assert ops == [Use(x)] + [Assign(x, id)];
    case IncDec(Other(uses)) => UsesAreUsed(w, Look(m, uses), uses);
  }

  lemma IncreaseDoesOps(w: World, m: Machine, x: Var, id: int)
    ensures var ops := [Use(x)] + [Assign(x, id)];
      UsedVars(ops) == [x] && Increased(w, m, x, id) == Written(w, Look(m, [x]), ops)
  {
    var a, b := [Use(x)], [Assign(x, id)];
    var m1 := Look(m, [x]);
    OneWritten(w, m1, x, id);
    assert a[1..] == [];
    assert UsedVars(a) == [x] + UsedVars([]) && Written(w, m1, a) == m1;
    WrittenConcat(w, m1, a, b);
    UsedConcat(a, b);
  }

  lemma OneWritten(w: World, m: Machine, x: Var, id: int)
    ensures Written(w, m, [Assign(x, id)]) == Put(m, x, w.written(m.seen, m.turns, id))
    ensures UsedVars([Assign(x, id)]) == []
  {
    assert [Assign(x, id)][1..] == [];
  }

  lemma LookTwice(m: Machine, a: seq<Var>, b: seq<Var>)
    ensures Look(Look(m, a), b) == Look(m, a + b)
  {
    ValuesConcat(m.store, a, b);
    assert m.seen + Values(m.store, a) + Values(m.store, b) == m.seen + (Values(m.store, a) + Values(m.store, b));
  }

  // ----- traces without a read of the value -----

  /** A use follows the assignment `id`, with no other operation on its variable between them. */
  ghost predicate Read(tr: seq<Op>, id: int) {
    exists j :: 0 <= j < |tr| && tr[j].Use? && LastOp(tr[..j], tr[j].x) == WasAssign(id)
  }

  /** After `tr`, no execution of the program reads the value. */
  ghost predicate Clean(id: int, tr: seq<Op>, p: Prog) {
    forall r :: !Read(tr + Trace(p, r), id)
  }

  lemma {:induction false} CutTrace(p: Prog)
    ensures Trace(p, Run.Cut) == []
    decreases p
  {
    if p.Catch? { CutTrace(p.p); }
  }

  lemma CleanSeq(id: int, tr: seq<Op>, p: Prog, q: Prog)
    requires Clean(id, tr, Seq(p, q))
    ensures Clean(id, tr, p)
    ensures forall r :: Out(p, r) == Done ==> Clean(id, tr + Trace(p, r), q)
  {
    CutTrace(q);
    forall r
      ensures !Read(tr + Trace(p, r), id)
    {
      var r' := Both(r, Run.Cut);
      assert Trace(Seq(p, q), r') == Trace(p, r);
    }
    forall r | Out(p, r) == Done
      ensures Clean(id, tr + Trace(p, r), q)
    {
      forall r2
        ensures !Read(tr + Trace(p, r) + Trace(q, r2), id)
      {
        assert Trace(Seq(p, q), Both(r, r2)) == Trace(p, r) + Trace(q, r2);
        assert tr + Trace(p, r) + Trace(q, r2) == tr + Trace(Seq(p, q), Both(r, r2));
      }
    }
  }

  lemma CleanAlt(id: int, tr: seq<Op>, p: Prog, q: Prog)
    requires Clean(id, tr, Alt(p, q))
    ensures Clean(id, tr, p) && Clean(id, tr, q)
  {
    forall r
      ensures !Read(tr + Trace(p, r), id)
    {
      assert Trace(Alt(p, q), Chose(true, r)) == Trace(p, r);
    }
    forall r
      ensures !Read(tr + Trace(q, r), id)
    {
      assert Trace(Alt(p, q), Chose(false, r)) == Trace(q, r);
    }
  }

  lemma CleanStar(id: int, tr: seq<Op>, p: Prog)
    requires Clean(id, tr, Star(p))
    ensures Clean(id, tr, p)
    ensures forall r :: Out(p, r) == Done ==> Clean(id, tr + Trace(p, r), Star(p))
  {
    forall r
      ensures !Read(tr + Trace(p, r), id)
    {
      assert Trace(Star(p), More(r, Ends)) == Trace(p, r);
    }
    forall r | Out(p, r) == Done
      ensures Clean(id, tr + Trace(p, r), Star(p))
    {
      forall r2
        ensures !Read(tr + Trace(p, r) + Trace(Star(p), r2), id)
      {
        assert Trace(Star(p), More(r, r2)) == Trace(p, r) + Trace(Star(p), r2);
        assert tr + Trace(p, r) + Trace(Star(p), r2) == tr + Trace(Star(p), More(r, r2));
      }
    }
  }

  lemma CleanCatch(id: int, tr: seq<Op>, t: Target, p: Prog)
    requires Clean(id, tr, Catch(t, p))
    ensures Clean(id, tr, p)
  {
    forall r
      ensures !Read(tr + Trace(p, r), id)
    {
      assert Trace(Catch(t, p), r) == Trace(p, r);
    }
  }

  /** No part of these operations reads the value. */
  ghost predicate CleanOps(id: int, tr: seq<Op>, ops: seq<Op>) {
    forall n :: 0 <= n <= |ops| ==> !Read(tr + ops[..n], id)
  }

  lemma OpsAreClean(id: int, tr: seq<Op>, ops: seq<Op>)
    requires Clean(id, tr, Ops(ops))
    ensures CleanOps(id, tr, ops)
  {
    forall n | 0 <= n <= |ops|
      ensures !Read(tr + ops[..n], id)
    {
      assert Trace(Ops(ops), Did(n)) == ops[..n];
    }
  }

  lemma CleanSplit(id: int, tr: seq<Op>, a: seq<Op>, b: seq<Op>)
    requires CleanOps(id, tr, a + b)
    ensures CleanOps(id, tr, a) && CleanOps(id, tr + a, b)
  {
    forall n | 0 <= n <= |a|
      ensures !Read(tr + a[..n], id)
    {
      assert (a + b)[..n] == a[..n];
    }
    forall n | 0 <= n <= |b|
      ensures !Read(tr + a + b[..n], id)
    {
      assert tr + a + b[..n] == tr + (a + b)[..|a| + n];
    }
  }

  /** Among the operations, the first one on the variable is a use. */
  predicate UsedFirst(ops: seq<Op>, x: Var) {
    ops != [] && if ops[0].x == x then ops[0].Use? else UsedFirst(ops[1..], x)
  }

  lemma {:induction false} ThenItIsRead(id: int, tr: seq<Op>, ops: seq<Op>, x: Var)
    requires CleanOps(id, tr, ops) && UsedFirst(ops, x)
    ensures LastOp(tr, x) != WasAssign(id)
    decreases |ops|
  {
    var o := ops[0];
    assert ops == [o] + ops[1..];
    CleanSplit(id, tr, [o], ops[1..]);
    var tr' := tr + [o];
    assert tr'[..|tr|] == tr && tr' == tr + [o][..1];
    if o.x == x {
      assert tr'[|tr|] == o;
      assert LastOp(tr'[..|tr|], x) == WasAssign(id) ==> Read(tr', id);
    } else {
      ThenItIsRead(id, tr', ops[1..], x);
    }
  }

  // ----- two executions side by side -----

  /** The stores differ only in variables that were last assigned by `id`. */
  ghost predicate Agree(id: int, st: Var -> int, st': Var -> int, tr: seq<Op>) {
    forall y :: st(y) != st'(y) ==> LastOp(tr, y) == WasAssign(id)
  }

  ghost predicate Same(id: int, m: Machine, m': Machine, tr: seq<Op>) {
    m.seen == m'.seen && m.turns == m'.turns && Agree(id, m.store, m'.store, tr)
  }

  lemma LastOpSnoc(tr: seq<Op>, o: Op, y: Var)
    ensures LastOp(tr + [o], y) == if o.x != y then LastOp(tr, y) else if o.Use? then WasUse else WasAssign(o.id)
  {
    assert (tr + [o])[..|tr|] == tr;
  }

  /** A use: the variable has the same value in both. */
  lemma UseSame(id: int, st: Var -> int, st': Var -> int, tr: seq<Op>, x: Var)
    requires Agree(id, st, st', tr) && CleanOps(id, tr, [Use(x)])
    ensures st(x) == st'(x) && Agree(id, st, st', tr + [Use(x)])
  {
    ThenItIsRead(id, tr, [Use(x)], x);
    forall y | st(y) != st'(y)
      ensures LastOp(tr + [Use(x)], y) == WasAssign(id)
    {
      LastOpSnoc(tr, Use(x), y);
    }
  }

  lemma {:induction false} UsesSame(id: int, st: Var -> int, st': Var -> int, tr: seq<Op>, vs: seq<Var>)
    requires Agree(id, st, st', tr) && CleanOps(id, tr, UsesOf(vs))
    ensures Values(st, vs) == Values(st', vs) && Agree(id, st, st', tr + UsesOf(vs))
    ensures forall x :: x in vs ==> st(x) == st'(x)
    decreases |vs|
  {
    if vs == [] {
      assert tr + UsesOf(vs) == tr;
    } else {
      CleanSplit(id, tr, [Use(vs[0])], UsesOf(vs[1..]));
      UseSame(id, st, st', tr, vs[0]);
      UsesSame(id, st, st', tr + [Use(vs[0])], vs[1..]);
      assert tr + [Use(vs[0])] + UsesOf(vs[1..]) == tr + UsesOf(vs);
      assert forall x :: x in vs ==> x == vs[0] || x in vs[1..];
    }
  }

  lemma LookSame(id: int, m: Machine, m': Machine, tr: seq<Op>, vs: seq<Var>)
    requires Same(id, m, m', tr) && CleanOps(id, tr, UsesOf(vs))
    ensures Same(id, Look(m, vs), Look(m', vs), tr + UsesOf(vs))
  {
    UsesSame(id, m.store, m'.store, tr, vs);
  }

  /** An assignment: the values are equal, or it is the one that may differ. */
  lemma PutSame(id: int, m: Machine, m': Machine, tr: seq<Op>, x: Var, v: int, v': int, o: Op)
    requires Same(id, m, m', tr) && o.x == x && (v != v' ==> o == Assign(x, id))
    ensures Same(id, Put(m, x, v), Put(m', x, v'), tr + [o])
  {
    forall y | Put(m, x, v).store(y) != Put(m', x, v').store(y)
      ensures LastOp(tr + [o], y) == WasAssign(id)
    {
      LastOpSnoc(tr, o, y);
    }
  }

  lemma {:induction false} PutLhsSame(id: int, w: World, w': World, m: Machine, m': Machine, tr: seq<Op>,
      lhs: seq<Lhs>, opAssign: bool)
    requires Alike(w, w', id) && Same(id, m, m', tr) && CleanOps(id, tr, AllLhsOps(lhs, opAssign))
    ensures Same(id, PutLhs(w, m, lhs), PutLhs(w', m', lhs), tr + AllLhsOps(lhs, opAssign))
    decreases |lhs|
  {
    if lhs == [] {
      assert tr + AllLhsOps(lhs, opAssign) == tr;
    } else {
      var ops := LhsOps(lhs[0], opAssign);
      CleanSplit(id, tr, ops, AllLhsOps(lhs[1..], opAssign));
      assert tr + ops + AllLhsOps(lhs[1..], opAssign) == tr + AllLhsOps(lhs, opAssign);
      match lhs[0]
      case Other(uses) =>
        UsesSame(id, m.store, m'.store, tr, uses);
        PutLhsSame(id, w, w', m, m', tr + ops, lhs[1..], opAssign);
      case Ident(x, j, zero) =>
        var v := if zero then 0 else w.written(m.seen, m.turns, j);
        var v' := if zero then 0 else w'.written(m'.seen, m'.turns, j);
        IdentSame(id, m, m', tr, lhs[0], opAssign, v, v');
        PutLhsSame(id, w, w', Put(m, x, v), Put(m', x, v'), tr + ops, lhs[1..], opAssign);
    }
  }

  lemma IdentSame(id: int, m: Machine, m': Machine, tr: seq<Op>, l: Lhs, opAssign: bool, v: int, v': int)
    requires l.Ident? && Same(id, m, m', tr) && CleanOps(id, tr, LhsOps(l, opAssign))
    requires v != v' ==> l.id == id && !l.zero
    ensures Same(id, Put(m, l.x, v), Put(m', l.x, v'), tr + LhsOps(l, opAssign))
  {
    var o := if l.zero then Use(l.x) else Assign(l.x, l.id);
    if opAssign {
      CleanSplit(id, tr, [Use(l.x)], [o]);
      UseSame(id, m.store, m'.store, tr, l.x);
      PutSame(id, m, m', tr + [Use(l.x)], l.x, v, v', o);
      assert tr + [Use(l.x)] + [o] == tr + LhsOps(l, opAssign);
    } else {
      PutSame(id, m, m', tr, l.x, v, v', o);
      assert tr + [o] == tr + LhsOps(l, opAssign);
    }
  }

  lemma {:induction false} UsedIfThere(vs: seq<Var>, ops: seq<Op>, x: Var)
    ensures UsedFirst(UsesOf(vs) + ops, x) <==> x in vs || UsedFirst(ops, x)
    decreases |vs|
  {
    if vs == [] {
      assert UsesOf(vs) + ops == ops;
    } else {
      assert (UsesOf(vs) + ops)[1..] == UsesOf(vs[1..]) + ops;
      UsedIfThere(vs[1..], ops, x);
    }
  }

  /** The operations of a variable on the left. */
  lemma IdentUsed(l: Lhs, opAssign: bool, rest: seq<Op>, x: Var)
    requires l.Ident?
    ensures UsedFirst(LhsOps(l, opAssign) + rest, x) <==> if l.x == x then opAssign || l.zero else UsedFirst(rest, x)
  {
    var o := if l.zero then Use(l.x) else Assign(l.x, l.id);
    var ops := LhsOps(l, opAssign) + rest;
    assert ([o] + rest)[1..] == rest;
    if opAssign {
      assert ops == [Use(l.x)] + ([o] + rest) && ops[1..] == [o] + rest;
    } else {
      assert ops == [o] + rest;
    }
  }

  lemma {:induction false} ReadFirstIsUsed(lhs: seq<Lhs>, opAssign: bool, x: Var)
    ensures UsedFirst(AllLhsOps(lhs, opAssign), x) <==> ReadsFirst(lhs, opAssign, x)
    decreases |lhs|
  {
    if lhs != [] {
      hide UsedFirst, LhsOps;
      var rest := AllLhsOps(lhs[1..], opAssign);
      ReadFirstIsUsed(lhs[1..], opAssign, x);
      OtherOps(lhs[0], opAssign);
      if lhs[0].Other? { UsedIfThere(lhs[0].uses, rest, x); } else { IdentUsed(lhs[0], opAssign, rest, x); }
    } else {
      assert AllLhsOps(lhs, opAssign) == [];
    }
  }

  lemma OtherOps(l: Lhs, opAssign: bool)
    ensures l.Other? ==> LhsOps(l, opAssign) == UsesOf(l.uses)
  {}

  lemma {:induction false} LookLhsSame(m: Machine, m': Machine, lhs: seq<Lhs>, opAssign: bool)
    requires m.seen == m'.seen && m.turns == m'.turns
    requires forall x :: Reads(lhs, opAssign, x) ==> m.store(x) == m'.store(x)
    ensures LookLhs(m, lhs, opAssign) == m.(seen := LookLhs(m, lhs, opAssign).seen)
    ensures LookLhs(m', lhs, opAssign) == m'.(seen := LookLhs(m, lhs, opAssign).seen)
    decreases |lhs|
  {
    if lhs != [] {
      match lhs[0]
      case Other(uses) =>
        ValuesSame(m.store, m'.store, uses);
        LookLhsSame(Look(m, uses), Look(m', uses), lhs[1..], opAssign);
      case Ident(x, _, _) =>
        if opAssign {
          ValuesSame(m.store, m'.store, [x]);
          LookLhsSame(Look(m, [x]), Look(m', [x]), lhs[1..], opAssign);
        } else {
          LookLhsSame(m, m', lhs[1..], opAssign);
        }
    }
  }

  lemma {:induction false} ValuesSame(st: Var -> int, st': Var -> int, vs: seq<Var>)
    requires forall x :: x in vs ==> st(x) == st'(x)
    ensures Values(st, vs) == Values(st', vs)
    decreases |vs|
  {
    if vs != [] {
      var v := vs[0];
      assert v in vs;
      assert st(v) == st'(v);
      ValuesSame(st, st', vs[1..]);
    }
  }

  lemma AssignedSame(id: int, w: World, w': World, m: Machine, m': Machine, tr: seq<Op>, lhs: seq<Lhs>, opAssign: bool,
      rhs: seq<Var>)
    requires Alike(w, w', id) && Same(id, m, m', tr) && Ordered(lhs, opAssign, rhs)
    requires CleanOps(id, tr, UsesOf(rhs) + AllLhsOps(lhs, opAssign))
    ensures Same(id, Assigned(w, m, lhs, opAssign, rhs), Assigned(w', m', lhs, opAssign, rhs),
                 tr + (UsesOf(rhs) + AllLhsOps(lhs, opAssign)))
  {
    var ops := AllLhsOps(lhs, opAssign);
    CleanSplit(id, tr, UsesOf(rhs), ops);
    LookSame(id, m, m', tr, rhs);
    UsesSame(id, m.store, m'.store, tr, rhs);
    forall x | Reads(lhs, opAssign, x)
      ensures m.store(x) == m'.store(x)
    {
      if x !in rhs {
        ReadFirstIsUsed(lhs, opAssign, x);
        UsedIfThere(rhs, ops, x);
        ThenItIsRead(id, tr, UsesOf(rhs) + ops, x);
      }
    }
    var m1, m1' := Look(m, rhs), Look(m', rhs);
    LookLhsSame(m1, m1', lhs, opAssign);
    PutLhsSame(id, w, w', LookLhs(m1, lhs, opAssign), LookLhs(m1', lhs, opAssign), tr + UsesOf(rhs), lhs, opAssign);
    assert tr + UsesOf(rhs) + ops == tr + (UsesOf(rhs) + ops);
  }

  lemma {:induction false} DeclaredSame(id: int, w: World, w': World, m: Machine, m': Machine, tr: seq<Op>,
      names: seq<(Var, int)>, hasValues: bool)
    requires Alike(w, w', id) && Same(id, m, m', tr) && CleanOps(id, tr, DeclOps(names, hasValues))
    ensures Same(id, Declared(w, m, names, hasValues), Declared(w', m', names, hasValues),
        tr + DeclOps(names, hasValues))
    decreases |names|
  {
    if names == [] {
      assert tr + DeclOps(names, hasValues) == tr;
    } else {
      var (x, j) := names[0];
      var o := if hasValues then Assign(x, j) else Use(x);
      CleanSplit(id, tr, [o], DeclOps(names[1..], hasValues));
      var v := if hasValues then w.written(m.seen, m.turns, j) else 0;
      var v' := if hasValues then w'.written(m'.seen, m'.turns, j) else 0;
      PutSame(id, m, m', tr, x, v, v', o);
      DeclaredSame(id, w, w', Put(m, x, v), Put(m', x, v'), tr + [o], names[1..], hasValues);
      assert tr + [o] + DeclOps(names[1..], hasValues) == tr + DeclOps(names, hasValues);
    }
  }

  lemma IncreasedSame(id: int, w: World, w': World, m: Machine, m': Machine, tr: seq<Op>, x: Var, j: int)
    requires Alike(w, w', id) && Same(id, m, m', tr) && CleanOps(id, tr, [Use(x)] + [Assign(x, j)])
    ensures Same(id, Increased(w, m, x, j), Increased(w', m', x, j), tr + ([Use(x)] + [Assign(x, j)]))
  {
    CleanSplit(id, tr, [Use(x)], [Assign(x, j)]);
    assert UsesOf([x]) == [Use(x)];
    LookSame(id, m, m', tr, [x]);
    var m1, m1' := Look(m, [x]), Look(m', [x]);
    PutSame(id, m1, m1', tr + [Use(x)], x, w.written(m1.seen, m1.turns, j), w'.written(m1'.seen, m1'.turns, j),
        Assign(x, j));
    assert tr + [Use(x)] + [Assign(x, j)] == tr + ([Use(x)] + [Assign(x, j)]);
  }

  lemma SimpleSame(id: int, w: World, w': World, m: Machine, m': Machine, tr: seq<Op>, s: Stmt, l: Option<Label>,
      fuel: nat)
    requires IsSimple(s) && InOrder(s) && Alike(w, w', id) && Same(id, m, m', tr) && CleanOps(id, tr, SimpleOps(s))
    ensures Exec(w, m, s, l, fuel).e == Exec(w', m', s, l, fuel).e == Normal
    ensures Same(id, Exec(w, m, s, l, fuel).m, Exec(w', m', s, l, fuel).m, tr + SimpleOps(s))
  {
    match s
    case Empty => assert tr + [] == tr;
    case Expr(uses) => LookSame(id, m, m', tr, uses);
    case AssignStmt(lhs, opAssign, rhs) => AssignedSame(id, w, w', m, m', tr, lhs, opAssign, rhs);
    case VarDecl(names, hasValues, values) =>
      CleanSplit(id, tr, UsesOf(values), DeclOps(names, hasValues));
      LookSame(id, m, m', tr, values);
      DeclaredSame(id, w, w', Look(m, values), Look(m', values), tr + UsesOf(values), names, hasValues);
      assert tr + UsesOf(values) + DeclOps(names, hasValues) == tr + SimpleOps(s);
    case IncDec(Ident(x, j, _)) =>
      assert SimpleOps(s) == [Use(x)] + [Assign(x, j)];
      IncreasedSame(id, w, w', m, m', tr, x, j);
    case IncDec(Other(uses)) => LookSame(id, m, m', tr, uses);
  }

  // ----- whole statements -----

  /** The run of the program goes as the executions do: it ends alike, and the stores differ only where
      its trace lets them. A break that `caught` is meant for may have ended the program normally. */
  ghost predicate Went(id: int, x: Result, x': Result, tr: seq<Op>, p: Prog, r: Run, brk: seq<Option<Label>>,
      cont: seq<Option<Label>>, caught: Option<Target>) {
    && x.e == x'.e && x.m.seen == x'.m.seen
    && match x.e
       case Normal =>
         && Same(id, x.m, x'.m, tr + Trace(p, r))
         && (Out(p, r) == Done || (caught.Some? && Out(p, r) == Exits(caught.value)))
       case Broke(to) =>
         && Same(id, x.m, x'.m, tr + Trace(p, r))
         && Find(brk, to) < |brk| && Out(p, r) == Exits(Brk(Find(brk, to)))
       case Continued(to) =>
         && Same(id, x.m, x'.m, tr + Trace(p, r))
         && Find(cont, to) < |cont| && Out(p, r) == Exits(Cont(Find(cont, to)))
       case _ => true
  }

  lemma OpsWent(id: int, x: Result, x': Result, tr: seq<Op>, ops: seq<Op>, brk: seq<Option<Label>>,
      cont: seq<Option<Label>>)
    requires x.e == x'.e == Normal && Same(id, x.m, x'.m, tr + ops)
    ensures Went(id, x, x', tr, Ops(ops), Did(|ops|), brk, cont, None)
  {
    assert Trace(Ops(ops), Did(|ops|)) == ops;
  }

  /** Operations come first. */
  lemma OpsFirst(id: int, tr: seq<Op>, ops: seq<Op>, q: Prog)
    requires Clean(id, tr, Seq(Ops(ops), q))
    ensures CleanOps(id, tr, ops) && Clean(id, tr + ops, q)
  {
    CleanSeq(id, tr, Ops(ops), q);
    OpsAreClean(id, tr, ops);
    assert Out(Ops(ops), Did(|ops|)) == Done && Trace(Ops(ops), Did(|ops|)) == ops;
  }

  lemma OpsThen(id: int, x: Result, x': Result, tr: seq<Op>, ops: seq<Op>, q: Prog, r: Run, brk: seq<Option<Label>>,
      cont: seq<Option<Label>>, caught: Option<Target>)
    requires Went(id, x, x', tr + ops, q, r, brk, cont, caught)
    ensures Went(id, x, x', tr, Seq(Ops(ops), q), Both(Did(|ops|), r), brk, cont, caught)
    ensures Trace(Seq(Ops(ops), q), Both(Did(|ops|), r)) == ops + Trace(q, r)
    ensures Out(Seq(Ops(ops), q), Both(Did(|ops|), r)) == Out(q, r)
  {
    hide Same;
    assert Out(Ops(ops), Did(|ops|)) == Done && Trace(Ops(ops), Did(|ops|)) == ops;
    assert tr + ops + Trace(q, r) == tr + (ops + Trace(q, r));
  }

  lemma AltWent(id: int, x: Result, x': Result, tr: seq<Op>, p: Prog, q: Prog, left: bool, r: Run,
      brk: seq<Option<Label>>, cont: seq<Option<Label>>)
    requires Went(id, x, x', tr, if left then p else q, r, brk, cont, None)
    ensures Went(id, x, x', tr, Alt(p, q), Chose(left, r), brk, cont, None)
  {
    assert Trace(Alt(p, q), Chose(left, r)) == Trace(if left then p else q, r);
  }

  /** What a catch does to a break. */
  lemma CatchWent(id: int, x: Result, x': Result, tr: seq<Op>, q: Prog, r: Run, brk: seq<Option<Label>>,
      cont: seq<Option<Label>>)
    requires Went(id, x, x', tr, q, r, brk, cont, Some(Brk(|brk|)))
    ensures Went(id, x, x', tr, Catch(Brk(|brk|), q), r, brk, cont, None)
  {
    assert Trace(Catch(Brk(|brk|), q), r) == Trace(q, r);
  }

  lemma FindInner(labels: seq<Option<Label>>, l: Option<Label>, to: Option<Label>)
    ensures Meant(to, l) ==> Find(labels + [l], to) == |labels|
    ensures !Meant(to, l) && Find(labels + [l], to) < |labels| + 1 ==>
        Find(labels + [l], to) == Find(labels, to) < |labels|
  {
    var k := Find(labels + [l], to);
    if Meant(to, l) {
      assert (labels + [l])[|labels|] == l;
    } else if k < |labels| + 1 {
      assert (labels + [l])[k] == if k < |labels| then labels[k] else l;
      var j := Find(labels, to);
      assert forall i :: 0 <= i < |labels| ==> (labels + [l])[i] == labels[i];
    }
  }

  lemma SimpleWent(id: int, w: World, w': World, m: Machine, m': Machine, tr: seq<Op>, s: Stmt,
      brk: seq<Option<Label>>, cont: seq<Option<Label>>, l: Option<Label>, fuel: nat) returns (r: Run)
    requires IsSimple(s) && InOrder(s) && Alike(w, w', id) && Same(id, m, m', tr)
    requires Clean(id, tr, Meaning(s, brk, cont, l))
    ensures Went(id, Exec(w, m, s, l, fuel), Exec(w', m', s, l, fuel), tr, Meaning(s, brk, cont, l), r, brk, cont, None)
  {
    SimpleMeans(s, brk, cont, l);
    hide Meaning, Exec, Same, SimpleOps;
    OpsAreClean(id, tr, SimpleOps(s));
    SimpleSame(id, w, w', m, m', tr, s, l, fuel);
    r := Did(|SimpleOps(s)|);
    OpsWent(id, Exec(w, m, s, l, fuel), Exec(w', m', s, l, fuel), tr, SimpleOps(s), brk, cont);
  }

  lemma SimpleMeans(s: Stmt, brk: seq<Option<Label>>, cont: seq<Option<Label>>, l: Option<Label>)
    requires IsSimple(s)
    ensures Meaning(s, brk, cont, l) == Ops(SimpleOps(s))
  {}

  lemma {:induction false} ExecWent(id: int, w: World, w': World, m: Machine, m': Machine, tr: seq<Op>, s: Stmt,
      brk: seq<Option<Label>>, cont: seq<Option<Label>>, l: Option<Label>, fuel: nat) returns (r: Run)
    requires WellFormed(s, brk, cont, l) && InOrder(s) && Alike(w, w', id) && Same(id, m, m', tr)
    requires Clean(id, tr, Meaning(s, brk, cont, l))
    ensures Went(id, Exec(w, m, s, l, fuel), Exec(w', m', s, l, fuel), tr, Meaning(s, brk, cont, l), r, brk, cont, None)
    decreases fuel, s, 3, 0
  {
    hide Same, Clean, Went;
    match s
    case Then(s1, s2) => r := ThenWent(id, w, w', m, m', tr, s, brk, cont, l, fuel);
    case If(_, _, _, _) => r := IfWent(id, w, w', m, m', tr, s, brk, cont, l, fuel);
    case For(_, _, _, _) => r := ForWent(id, w, w', m, m', tr, s, brk, cont, l, fuel);
    case Range(_, _, _) => r := RangeWent(id, w, w', m, m', tr, s, brk, cont, l, fuel);
    case Switch(_, _, _) => r := SwitchWent(id, w, w', m, m', tr, s, brk, cont, l, fuel);
    case Labeled(name, s1) => r := ExecWent(id, w, w', m, m', tr, s1, brk, cont, Some(name), fuel);
      LabeledWent(id, w, w', m, m', tr, s, brk, cont, l, fuel, r);
    case Break(_) => r := Did(0); LeaveWent(id, w, w', m, m', tr, s, brk, cont, l, fuel);
    case Continue(_) => r := Did(0); LeaveWent(id, w, w', m, m', tr, s, brk, cont, l, fuel);
    case Return(_) => r := Run.Cut; ReturnWent(id, w, w', m, m', tr, s, brk, cont, l, fuel);
    case _ => r := SimpleWent(id, w, w', m, m', tr, s, brk, cont, l, fuel);
  }

  lemma LabeledWent(id: int, w: World, w': World, m: Machine, m': Machine, tr: seq<Op>, s: Stmt,
      brk: seq<Option<Label>>, cont: seq<Option<Label>>, l: Option<Label>, fuel: nat, r: Run)
    requires s.Labeled?
    requires Went(id, Exec(w, m, s.stmt, Some(s.name), fuel), Exec(w', m', s.stmt, Some(s.name), fuel), tr,
                  Meaning(s.stmt, brk, cont, Some(s.name)), r, brk, cont, None)
    ensures Went(id, Exec(w, m, s, l, fuel), Exec(w', m', s, l, fuel), tr, Meaning(s, brk, cont, l), r, brk, cont, None)
  {
    hide Went;
  }

  lemma LeaveWent(id: int, w: World, w': World, m: Machine, m': Machine, tr: seq<Op>, s: Stmt,
      brk: seq<Option<Label>>, cont: seq<Option<Label>>, l: Option<Label>, fuel: nat)
    requires (s.Break? || s.Continue?) && WellFormed(s, brk, cont, l) && Same(id, m, m', tr)
    ensures Went(id, Exec(w, m, s, l, fuel), Exec(w', m', s, l, fuel), tr, Meaning(s, brk, cont, l), Did(0), brk, cont,
        None)
  {
    assert Trace(Meaning(s, brk, cont, l), Did(0)) == [] && tr + [] == tr;
  }

  lemma ReturnWent(id: int, w: World, w': World, m: Machine, m': Machine, tr: seq<Op>, s: Stmt,
      brk: seq<Option<Label>>, cont: seq<Option<Label>>, l: Option<Label>, fuel: nat)
    requires s.Return? && Same(id, m, m', tr) && Clean(id, tr, Meaning(s, brk, cont, l))
    ensures Went(id, Exec(w, m, s, l, fuel), Exec(w', m', s, l, fuel), tr, Meaning(s, brk, cont, l), Run.Cut, brk,
        cont, None)
  {
    OpsFirst(id, tr, UsesOf(s.uses), Stop);
    LookSame(id, m, m', tr, s.uses);
  }

  lemma SeqWent(id: int, x: Result, x': Result, y: Result, y': Result, tr: seq<Op>, p: Prog, q: Prog, r1: Run, r2: Run,
      brk: seq<Option<Label>>, cont: seq<Option<Label>>)
    requires Went(id, x, x', tr, p, r1, brk, cont, None)
    requires x.e == Normal ==> Went(id, y, y', tr + Trace(p, r1), q, r2, brk, cont, None)
    requires x.e != Normal ==> y == x && y' == x'
    ensures Went(id, y, y', tr, Seq(p, q), Both(r1, r2), brk, cont, None)
  {
    hide Same;
    if x.e == Normal {
      assert Trace(Seq(p, q), Both(r1, r2)) == Trace(p, r1) + Trace(q, r2);
      assert tr + Trace(p, r1) + Trace(q, r2) == tr + (Trace(p, r1) + Trace(q, r2));
    } else if x.e.Broke? || x.e.Continued? {
      assert Trace(Seq(p, q), Both(r1, r2)) == Trace(p, r1);
    }
  }

  lemma {:induction false} ThenWent(id: int, w: World, w': World, m: Machine, m': Machine, tr: seq<Op>, s: Stmt,
      brk: seq<Option<Label>>, cont: seq<Option<Label>>, l: Option<Label>, fuel: nat) returns (r: Run)
    requires s.Then? && WellFormed(s, brk, cont, l) && InOrder(s) && Alike(w, w', id) && Same(id, m, m', tr)
    requires Clean(id, tr, Meaning(s, brk, cont, l))
    ensures Went(id, Exec(w, m, s, l, fuel), Exec(w', m', s, l, fuel), tr, Meaning(s, brk, cont, l), r, brk, cont, None)
    decreases fuel, s, 2, 0
  {
    hide Same, Clean, WellFormed, Alike, Trace;
    var p, q := Meaning(s.first, brk, cont, None), Meaning(s.second, brk, cont, None);
    ThenFormed(s, brk, cont, l);
    CleanSeq(id, tr, p, q);
    var r1 := ExecWent(id, w, w', m, m', tr, s.first, brk, cont, None, fuel);
    var x, x' := Exec(w, m, s.first, None, fuel), Exec(w', m', s.first, None, fuel);
    var r2 := Run.Cut;
    if x.e == Normal {
      r2 := ExecWent(id, w, w', x.m, x'.m, tr + Trace(p, r1), s.second, brk, cont, None, fuel);
    }
    r := Both(r1, r2);
    hide Went;
    SeqWent(id, x, x', Exec(w, m, s, l, fuel), Exec(w', m', s, l, fuel), tr, p, q, r1, r2, brk, cont);
  }

  lemma ThenFormed(s: Stmt, brk: seq<Option<Label>>, cont: seq<Option<Label>>, l: Option<Label>)
    requires s.Then? && WellFormed(s, brk, cont, l)
    ensures WellFormed(s.first, brk, cont, None) && WellFormed(s.second, brk, cont, None)
    ensures Meaning(s, brk, cont, l) == Seq(Meaning(s.first, brk, cont, None), Meaning(s.second, brk, cont, None))
  {}

  /** A simple statement, and what comes after it. */
  lemma SimpleFirst(id: int, w: World, w': World, m: Machine, m': Machine, tr: seq<Op>, s: Stmt, q: Prog, fuel: nat)
    requires IsSimple(s) && InOrder(s) && Alike(w, w', id) && Same(id, m, m', tr)
    requires Clean(id, tr, Seq(Ops(SimpleOps(s)), q))
    ensures Exec(w, m, s, None, fuel).e == Exec(w', m', s, None, fuel).e == Normal
    ensures Same(id, Exec(w, m, s, None, fuel).m, Exec(w', m', s, None, fuel).m, tr + SimpleOps(s))
    ensures Clean(id, tr + SimpleOps(s), q)
  {
    hide Same, Clean, CleanOps, Exec, SimpleOps;
    OpsFirst(id, tr, SimpleOps(s), q);
    SimpleSame(id, w, w', m, m', tr, s, None, fuel);
  }

  lemma LookFirst(id: int, m: Machine, m': Machine, tr: seq<Op>, vs: seq<Var>, q: Prog)
    requires Same(id, m, m', tr) && Clean(id, tr, Seq(Ops(UsesOf(vs)), q))
    ensures Same(id, Look(m, vs), Look(m', vs), tr + UsesOf(vs)) && Clean(id, tr + UsesOf(vs), q)
  {
    hide Same, Clean, CleanOps;
    OpsFirst(id, tr, UsesOf(vs), q);
    LookSame(id, m, m', tr, vs);
  }

  lemma Decided(id: int, w: World, w': World, m: Machine, m': Machine, tr: seq<Op>)
    requires Alike(w, w', id) && Same(id, m, m', tr)
    ensures Choose(w, m) == Choose(w', m') && Same(id, Turn(m), Turn(m'), tr)
  {}

  lemma {:induction false} IfWent(id: int, w: World, w': World, m: Machine, m': Machine, tr: seq<Op>, s: Stmt,
      brk: seq<Option<Label>>, cont: seq<Option<Label>>, l: Option<Label>, fuel: nat) returns (r: Run)
    requires s.If? && WellFormed(s, brk, cont, l) && InOrder(s) && Alike(w, w', id) && Same(id, m, m', tr)
    requires Clean(id, tr, Meaning(s, brk, cont, l))
    ensures Went(id, Exec(w, m, s, l, fuel), Exec(w', m', s, l, fuel), tr, Meaning(s, brk, cont, l), r, brk, cont, None)
    decreases fuel, s, 2, 0
  {
    hide Same, Clean, Alike, Went, Trace, Look, SimpleOps, UsesOf;
    var p, q := Meaning(s.thn, brk, cont, None), if s.els.Some? then Meaning(s.els.value, brk, cont, None) else Ops([]);
    var ops, cond := SimpleOps(s.init), UsesOf(s.cond);
    SimpleMeans(s.init, brk, cont, None);
    SimpleFirst(id, w, w', m, m', tr, s.init, Seq(Ops(cond), Alt(p, q)), fuel);
    var m1, m1' := Exec(w, m, s.init, None, fuel).m, Exec(w', m', s.init, None, fuel).m;
    LookFirst(id, m1, m1', tr + ops, s.cond, Alt(p, q));
    var m2, m2' := Look(m1, s.cond), Look(m1', s.cond);
    var tr2 := tr + ops + cond;
    Decided(id, w, w', m2, m2', tr2);
    CleanAlt(id, tr2, p, q);
    var r1;
    var left := Choose(w, m2);
    var x, x' := Exec(w, m, s, l, fuel), Exec(w', m', s, l, fuel);
    if left {
      r1 := ExecWent(id, w, w', Turn(m2), Turn(m2'), tr2, s.thn, brk, cont, None, fuel);
    } else if s.els.Some? {
      r1 := ExecWent(id, w, w', Turn(m2), Turn(m2'), tr2, s.els.value, brk, cont, None, fuel);
    } else {
      r1 := Did(0);
      assert tr2 + [] == tr2;
      OpsWent(id, x, x', tr2, [], brk, cont);
    }
    AltWent(id, x, x', tr2, p, q, left, r1, brk, cont);
    OpsThen(id, x, x', tr + ops, cond, Alt(p, q), Chose(left, r1), brk, cont, None);
    r := Both(Did(|ops|), Both(Did(|cond|), Chose(left, r1)));
    OpsThen(id, x, x', tr, ops, Seq(Ops(cond), Alt(p, q)), Both(Did(|cond|), Chose(left, r1)), brk, cont, None);
  }

  // ----- loops -----

  /** One turn more before the rest of a loop. */
  lemma CleanTurn(id: int, tr: seq<Op>, p: Prog, q: Prog, r1: Run)
    requires Clean(id, tr, Seq(Star(p), q)) && Out(p, r1) == Done
    ensures Clean(id, tr + Trace(p, r1), Seq(Star(p), q))
  {
    hide Read, Trace, Out;
    forall r
      ensures !Read(tr + Trace(p, r1) + Trace(Seq(Star(p), q), r), id)
    {
      TurnTrace(p, q, r1, r);
      var r' := TurnRun(r1, r);
      assert tr + Trace(p, r1) + Trace(Seq(Star(p), q), r) == tr + Trace(Seq(Star(p), q), r');
    }
  }

  function TurnRun(r1: Run, r: Run): Run {
    match r
    case Both(a, b) => Both(More(r1, a), b)
    case _ => Both(More(r1, Run.Cut), Run.Cut)
  }

  lemma TurnTrace(p: Prog, q: Prog, r1: Run, r: Run)
    requires Out(p, r1) == Done
    ensures Trace(Seq(Star(p), q), TurnRun(r1, r)) == Trace(p, r1) + Trace(Seq(Star(p), q), r)
    ensures Out(Seq(Star(p), q), TurnRun(r1, r)) == Out(Seq(Star(p), q), r)
  {
    match r
    case Both(a, b) =>
      assert Trace(Star(p), More(r1, a)) == Trace(p, r1) + Trace(Star(p), a);
      assert Out(Star(p), More(r1, a)) == Out(Star(p), a);
    case _ =>
      assert Out(Star(p), Run.Cut) == Stops && Trace(Star(p), Run.Cut) == [];
      assert Out(Star(p), More(r1, Run.Cut)) == Stops;
      assert Trace(Star(p), More(r1, Run.Cut)) == Trace(p, r1);
      assert Out(Seq(Star(p), q), r) == Stops && Trace(Seq(Star(p), q), r) == [];
  }

  /** The body of a loop with label `l`, within it: a continue that is meant for the loop is caught. */
  lemma BodyWent(id: int, x: Result, x': Result, tr: seq<Op>, p: Prog, r: Run, brk: seq<Option<Label>>,
      cont: seq<Option<Label>>, l: Option<Label>)
    requires Went(id, x, x', tr, p, r, brk + [l], cont + [l], None)
    ensures var c := Catch(Cont(|cont|), p);
      && x.e == x'.e && x.m.seen == x'.m.seen && Trace(c, r) == Trace(p, r)
      && (GoesOn(x.e, l) ==> Out(c, r) == Done && Same(id, x.m, x'.m, tr + Trace(c, r)))
      && (!GoesOn(x.e, l) ==> Out(c, r) != Done || x.e.Returned? || x.e.Tired?)
      && (!GoesOn(x.e, l) ==> Went(id, Left(x, l), Left(x', l), tr, c, r, brk, cont, Some(Brk(|brk|))))
  {
    hide Same;
    if x.e.Broke? { FindInner(brk, l, x.e.to); }
    if x.e.Continued? { FindInner(cont, l, x.e.to); }
  }

  /** A body that leaves the loop, in its turn. */
  lemma TurnLeft(id: int, x: Result, x': Result, tr: seq<Op>, p: Prog, q: Prog, r: Run, brk: seq<Option<Label>>,
      cont: seq<Option<Label>>, caught: Option<Target>)
    requires Went(id, x, x', tr, p, r, brk, cont, caught) && (Out(p, r) != Done || x.e.Returned? || x.e.Tired?)
    ensures Went(id, x, x', tr, Seq(p, q), Both(r, Run.Cut), brk, cont, caught)
    ensures Out(p, r) != Done ==> Out(Seq(p, q), Both(r, Run.Cut)) != Done
  {
    hide Same;
    assert Out(p, r) != Done ==> Trace(Seq(p, q), Both(r, Run.Cut)) == Trace(p, r);
  }

  lemma StarLeft(id: int, x: Result, x': Result, tr: seq<Op>, p: Prog, r: Run, brk: seq<Option<Label>>,
      cont: seq<Option<Label>>, caught: Option<Target>)
    requires Went(id, x, x', tr, p, r, brk, cont, caught) && (Out(p, r) != Done || x.e.Returned? || x.e.Tired?)
    ensures Went(id, x, x', tr, Star(p), More(r, Run.Cut), brk, cont, caught)
    ensures Out(p, r) != Done ==> Out(Star(p), More(r, Run.Cut)) != Done
  {
    hide Same;
    assert Out(p, r) != Done ==> Trace(Star(p), More(r, Run.Cut)) == Trace(p, r);
  }

  /** The program of one turn of a for statement. */
  function TurnOf(s: Stmt, brk: seq<Option<Label>>, cont: seq<Option<Label>>, l: Option<Label>): Prog
    requires s.For?
  {
    Seq(Ops(UsesOf(s.cond)), Seq(Catch(Cont(|cont|), Meaning(s.body, brk + [l], cont + [l], None)),
        Meaning(s.post, brk + [l], cont + [l], None)))
  }

  lemma ForMeans(s: Stmt, brk: seq<Option<Label>>, cont: seq<Option<Label>>, l: Option<Label>)
    requires s.For? && WellFormed(s, brk, cont, l)
    ensures IsSimple(s.init) && IsSimple(s.post) && WellFormed(s.body, brk + [l], cont + [l], None)
    ensures Meaning(s, brk, cont, l) == Seq(Ops(SimpleOps(s.init)),
                Catch(Brk(|brk|), Seq(Star(TurnOf(s, brk, cont, l)), Ops(UsesOf(s.cond)))))
    ensures TurnOf(s, brk, cont, l) == Seq(Ops(UsesOf(s.cond)),
                Seq(Catch(Cont(|cont|), Meaning(s.body, brk + [l], cont + [l], None)), Ops(SimpleOps(s.post))))
  {}

  /** A for statement that is not entered again. */
  lemma LoopEnds(id: int, m: Machine, m': Machine, tr: seq<Op>, p: Prog, vs: seq<Var>, brk: seq<Option<Label>>,
      cont: seq<Option<Label>>, caught: Option<Target>)
    requires Same(id, m, m', tr) && Clean(id, tr, Seq(Star(p), Ops(UsesOf(vs))))
    ensures Same(id, Look(m, vs), Look(m', vs), tr + UsesOf(vs))
    ensures Went(id, Result(Turn(Look(m, vs)), Normal), Result(Turn(Look(m', vs)), Normal), tr,
                 Seq(Star(p), Ops(UsesOf(vs))), Both(Ends, Did(|UsesOf(vs)|)), brk, cont, caught)
  {
    var ops := UsesOf(vs);
    CleanSeq(id, tr, Star(p), Ops(ops));
    assert Out(Star(p), Ends) == Done && Trace(Star(p), Ends) == [];
    assert tr + [] == tr;
    OpsAreClean(id, tr, ops);
    LookSame(id, m, m', tr, vs);
    assert Trace(Ops(ops), Did(|ops|)) == ops;
    assert Trace(Seq(Star(p), Ops(ops)), Both(Ends, Did(|ops|))) == [] + ops == ops;
  }

  /** A turn of a loop that ends it, before what comes after the loop. */
  lemma LastTurn(id: int, x: Result, x': Result, tr: seq<Op>, p: Prog, q: Prog, r: Run, brk: seq<Option<Label>>,
      cont: seq<Option<Label>>, caught: Option<Target>)
    requires Went(id, x, x', tr, p, r, brk, cont, caught) && (Out(p, r) != Done || x.e.Returned? || x.e.Tired?)
    ensures Went(id, x, x', tr, Seq(Star(p), q), Both(More(r, Run.Cut), Run.Cut), brk, cont, caught)
  {
    StarLeft(id, x, x', tr, p, r, brk, cont, caught);
    hide Went;
    TurnLeft(id, x, x', tr, Star(p), q, More(r, Run.Cut), brk, cont, caught);
  }

  /** The turns after this one. */
  lemma MoreTurns(id: int, x: Result, x': Result, tr: seq<Op>, p: Prog, q: Prog, r1: Run, r: Run,
      brk: seq<Option<Label>>, cont: seq<Option<Label>>, caught: Option<Target>)
    requires Out(p, r1) == Done && Went(id, x, x', tr + Trace(p, r1), Seq(Star(p), q), r, brk, cont, caught)
    ensures Went(id, x, x', tr, Seq(Star(p), q), TurnRun(r1, r), brk, cont, caught)
  {
    TurnTrace(p, q, r1, r);
    hide Same;
    assert tr + Trace(p, r1) + Trace(Seq(Star(p), q), r) == tr + (Trace(p, r1) + Trace(Seq(Star(p), q), r));
  }

  /** The first turn of a for statement: how the body is reached. */
  lemma TurnBegins(id: int, w: World, w': World, m: Machine, m': Machine, tr: seq<Op>, s: Stmt,
      brk: seq<Option<Label>>, cont: seq<Option<Label>>, l: Option<Label>)
    requires s.For? && WellFormed(s, brk, cont, l) && Alike(w, w', id) && Same(id, m, m', tr)
    requires Clean(id, tr, Seq(Star(TurnOf(s, brk, cont, l)), Ops(UsesOf(s.cond))))
    ensures var body := Catch(Cont(|cont|), Meaning(s.body, brk + [l], cont + [l], None));
      var m1, m1' := Look(m, s.cond), Look(m', s.cond);
      var tr1 := tr + UsesOf(s.cond);
      && Choose(w, m1) == Choose(w', m1') && Same(id, Turn(m1), Turn(m1'), tr1)
      && Clean(id, tr1, Meaning(s.body, brk + [l], cont + [l], None))
          && Clean(id, tr1, Seq(body, Ops(SimpleOps(s.post))))
  {
    ForMeans(s, brk, cont, l);
    hide Same, Clean, Alike, Meaning, Look, SimpleOps, UsesOf, WellFormed;
    var p := Meaning(s.body, brk + [l], cont + [l], None);
    var body := Catch(Cont(|cont|), p);
    CleanSeq(id, tr, Star(TurnOf(s, brk, cont, l)), Ops(UsesOf(s.cond)));
    CleanStar(id, tr, TurnOf(s, brk, cont, l));
    LookFirst(id, m, m', tr, s.cond, Seq(body, Ops(SimpleOps(s.post))));
    Decided(id, w, w', Look(m, s.cond), Look(m', s.cond), tr + UsesOf(s.cond));
    CleanSeq(id, tr + UsesOf(s.cond), body, Ops(SimpleOps(s.post)));
    CleanCatch(id, tr + UsesOf(s.cond), Cont(|cont|), p);
  }

  lemma {:induction false} LoopWent(id: int, w: World, w': World, m: Machine, m': Machine, tr: seq<Op>, s: Stmt,
      brk: seq<Option<Label>>, cont: seq<Option<Label>>, l: Option<Label>, fuel: nat) returns (r: Run)
    requires s.For? && WellFormed(s, brk, cont, l) && InOrder(s) && Alike(w, w', id) && Same(id, m, m', tr)
    requires Clean(id, tr, Seq(Star(TurnOf(s, brk, cont, l)), Ops(UsesOf(s.cond))))
    ensures Went(id, Loop(w, m, s, l, fuel), Loop(w', m', s, l, fuel), tr,
                 Seq(Star(TurnOf(s, brk, cont, l)), Ops(UsesOf(s.cond))), r, brk, cont, Some(Brk(|brk|)))
    decreases fuel, s, 1, 0
  {
    ForMeans(s, brk, cont, l);
    TurnBegins(id, w, w', m, m', tr, s, brk, cont, l);
    var cond, post := UsesOf(s.cond), SimpleOps(s.post);
    var turn, caught := TurnOf(s, brk, cont, l), Some(Brk(|brk|));
    var p := Meaning(s.body, brk + [l], cont + [l], None);
    var body := Catch(Cont(|cont|), p);
    var m1, m1' := Look(m, s.cond), Look(m', s.cond);
    var tr1 := tr + cond;
    hide Same, Clean, Alike, Went, Trace, Out, Look, SimpleOps, UsesOf, WellFormed, Meaning, TurnOf;
    if !Choose(w, m1) {
      LoopEnds(id, m, m', tr, turn, s.cond, brk, cont, caught);
      r := Both(Ends, Did(|cond|));
    } else {
      var rb := ExecWent(id, w, w', Turn(m1), Turn(m1'), tr1, s.body, brk + [l], cont + [l], None, fuel);
      var x, x' := Exec(w, Turn(m1), s.body, None, fuel), Exec(w', Turn(m1'), s.body, None, fuel);
      BodyWent(id, x, x', tr1, p, rb, brk, cont, l);
      if !GoesOn(x.e, l) {
        var y, y' := Left(x, l), Left(x', l);
        TurnLeft(id, y, y', tr1, body, Ops(post), rb, brk, cont, caught);
        OpsThen(id, y, y', tr, cond, Seq(body, Ops(post)), Both(rb, Run.Cut), brk, cont, caught);
        LastTurn(id, y, y', tr, turn, Ops(cond), Both(Did(|cond|), Both(rb, Run.Cut)), brk, cont, caught);
        r := Both(More(Both(Did(|cond|), Both(rb, Run.Cut)), Run.Cut), Run.Cut);
      } else {
        PostDone(id, w, w', x.m, x'.m, tr, s, brk, cont, l, fuel, body, rb);
        r := NextTurns(id, w, w', Exec(w, x.m, s.post, None, fuel).m, Exec(w', x'.m, s.post, None, fuel).m, tr, s, brk,
            cont, l, fuel, Both(Did(|cond|), Both(rb, Did(|post|))));
      }
    }
  }

  /** The post statement ends the turn. */
  lemma PostDone(id: int, w: World, w': World, m: Machine, m': Machine, tr: seq<Op>, s: Stmt,
      brk: seq<Option<Label>>, cont: seq<Option<Label>>, l: Option<Label>, fuel: nat, body: Prog, rb: Run)
    requires s.For? && WellFormed(s, brk, cont, l) && InOrder(s) && Alike(w, w', id)
    requires body == Catch(Cont(|cont|), Meaning(s.body, brk + [l], cont + [l], None)) && Out(body, rb) == Done
    requires Same(id, m, m', tr + UsesOf(s.cond) + Trace(body, rb))
    requires Clean(id, tr + UsesOf(s.cond), Seq(body, Ops(SimpleOps(s.post))))
    ensures IsSimple(s.post) && Exec(w, m, s.post, None, fuel).e == Exec(w', m', s.post, None, fuel).e == Normal
    ensures var r1 := Both(Did(|UsesOf(s.cond)|), Both(rb, Did(|SimpleOps(s.post)|)));
      && Out(TurnOf(s, brk, cont, l), r1) == Done
      && Same(id, Exec(w, m, s.post, None, fuel).m, Exec(w', m', s.post, None, fuel).m,
              tr + Trace(TurnOf(s, brk, cont, l), r1))
  {
    ForMeans(s, brk, cont, l);
    var cond, post := UsesOf(s.cond), SimpleOps(s.post);
    hide Same, Clean, Alike, SimpleOps, UsesOf, WellFormed, Meaning, Exec, Trace, Out, TurnOf;
    CleanSeq(id, tr + cond, body, Ops(post));
    PostSame(id, w, w', m, m', tr + cond + Trace(body, rb), s.post, fuel);
    TurnIs(cond, body, post, rb);
    ThreeJoined(tr, cond, Trace(body, rb), post);
  }

  /** The turns after the first one. */
  lemma {:induction false} NextTurns(id: int, w: World, w': World, m: Machine, m': Machine, tr: seq<Op>, s: Stmt,
      brk: seq<Option<Label>>, cont: seq<Option<Label>>, l: Option<Label>, fuel: nat, r1: Run) returns (r: Run)
    requires s.For? && WellFormed(s, brk, cont, l) && InOrder(s) && Alike(w, w', id)
    requires Out(TurnOf(s, brk, cont, l), r1) == Done && Same(id, m, m', tr + Trace(TurnOf(s, brk, cont, l), r1))
    requires Clean(id, tr, Seq(Star(TurnOf(s, brk, cont, l)), Ops(UsesOf(s.cond))))
    ensures Went(id, if fuel == 0 then Result(m, Tired) else Loop(w, m, s, l, fuel - 1),
                 if fuel == 0 then Result(m', Tired) else Loop(w', m', s, l, fuel - 1), tr,
                 Seq(Star(TurnOf(s, brk, cont, l)), Ops(UsesOf(s.cond))), r, brk, cont, Some(Brk(|brk|)))
    decreases fuel, s, 0, 0
  {
    var turn, q, caught := TurnOf(s, brk, cont, l), Ops(UsesOf(s.cond)), Some(Brk(|brk|));
    hide Same, Clean, Alike, Went, UsesOf, WellFormed, TurnOf, Loop, Trace, Out, InOrder;
    if fuel == 0 {
      r := Run.Cut;
      TiredWent(id, Result(m, Tired), Result(m', Tired), tr, Seq(Star(turn), q), r, brk, cont, caught);
    } else {
      CleanTurn(id, tr, turn, q, r1);
      var r2 := LoopWent(id, w, w', m, m', tr + Trace(turn, r1), s, brk, cont, l, fuel - 1);
      MoreTurns(id, Loop(w, m, s, l, fuel - 1), Loop(w', m', s, l, fuel - 1), tr, turn, q, r1, r2, brk, cont, caught);
      r := TurnRun(r1, r2);
    }
  }

  lemma TurnIs(cond: seq<Op>, body: Prog, post: seq<Op>, rb: Run)
    requires Out(body, rb) == Done
    ensures var p := Seq(Ops(cond), Seq(body, Ops(post)));
      var r := Both(Did(|cond|), Both(rb, Did(|post|)));
      Out(p, r) == Done && Trace(p, r) == cond + (Trace(body, rb) + post)
  {
    assert Trace(Ops(cond), Did(|cond|)) == cond && Trace(Ops(post), Did(|post|)) == post;
    assert Out(Ops(cond), Did(|cond|)) == Done && Out(Ops(post), Did(|post|)) == Done;
    var q, rq := Seq(body, Ops(post)), Both(rb, Did(|post|));
    assert Out(q, rq) == Done && Trace(q, rq) == Trace(body, rb) + post;
  }

  lemma ThreeJoined(tr: seq<Op>, a: seq<Op>, b: seq<Op>, c: seq<Op>)
    ensures tr + a + b + c == tr + (a + (b + c)) && tr + a + b == tr + (a + b)
  {}

  lemma TiredWent(id: int, y: Result, y': Result, tr: seq<Op>, p: Prog, r: Run, brk: seq<Option<Label>>,
      cont: seq<Option<Label>>, caught: Option<Target>)
    requires exists t :: Same(id, y.m, y'.m, t)
    ensures Went(id, Result(y.m, Tired), Result(y'.m, Tired), tr, p, r, brk, cont, caught)
  {}

  lemma PostSame(id: int, w: World, w': World, m: Machine, m': Machine, tr: seq<Op>, s: Stmt, fuel: nat)
    requires IsSimple(s) && InOrder(s) && Alike(w, w', id) && Same(id, m, m', tr) && Clean(id, tr, Ops(SimpleOps(s)))
    ensures Exec(w, m, s, None, fuel).e == Exec(w', m', s, None, fuel).e == Normal
    ensures Same(id, Exec(w, m, s, None, fuel).m, Exec(w', m', s, None, fuel).m, tr + SimpleOps(s))
  {
    OpsAreClean(id, tr, SimpleOps(s));
    hide Exec, Same;
    SimpleSame(id, w, w', m, m', tr, s, None, fuel);
  }

  lemma {:induction false} ForWent(id: int, w: World, w': World, m: Machine, m': Machine, tr: seq<Op>, s: Stmt,
      brk: seq<Option<Label>>, cont: seq<Option<Label>>, l: Option<Label>, fuel: nat) returns (r: Run)
    requires s.For? && WellFormed(s, brk, cont, l) && InOrder(s) && Alike(w, w', id) && Same(id, m, m', tr)
    requires Clean(id, tr, Meaning(s, brk, cont, l))
    ensures Went(id, Exec(w, m, s, l, fuel), Exec(w', m', s, l, fuel), tr, Meaning(s, brk, cont, l), r, brk, cont, None)
    decreases fuel, s, 2, 0
  {
    ForMeans(s, brk, cont, l);
    var ops, q := SimpleOps(s.init), Seq(Star(TurnOf(s, brk, cont, l)), Ops(UsesOf(s.cond)));
    hide Same, Clean, Alike, Went, Look, SimpleOps, UsesOf, WellFormed, Meaning, TurnOf, Loop;
    SimpleFirst(id, w, w', m, m', tr, s.init, Catch(Brk(|brk|), q), fuel);
    var m1, m1' := Exec(w, m, s.init, None, fuel).m, Exec(w', m', s.init, None, fuel).m;
    CleanCatch(id, tr + ops, Brk(|brk|), q);
    var r1 := LoopWent(id, w, w', m1, m1', tr + ops, s, brk, cont, l, fuel);
    var x, x' := Loop(w, m1, s, l, fuel), Loop(w', m1', s, l, fuel);
    CatchWent(id, x, x', tr + ops, q, r1, brk, cont);
    OpsThen(id, x, x', tr, ops, Catch(Brk(|brk|), q), r1, brk, cont, None);
    r := Both(Did(|ops|), r1);
  }

  // ----- range -----

  function EachOf(s: Stmt, brk: seq<Option<Label>>, cont: seq<Option<Label>>, l: Option<Label>): Prog
    requires s.Range?
  {
    Seq(Ops(AllLhsOps(s.vars, false)), Catch(Cont(|cont|), Meaning(s.body, brk + [l], cont + [l], None)))
  }

  lemma RangeMeans(s: Stmt, brk: seq<Option<Label>>, cont: seq<Option<Label>>, l: Option<Label>)
    requires s.Range? && WellFormed(s, brk, cont, l)
    ensures WellFormed(s.body, brk + [l], cont + [l], None)
    ensures Meaning(s, brk, cont, l) == Seq(Ops(UsesOf(s.over)), Catch(Brk(|brk|), Star(EachOf(s, brk, cont, l))))
  {}

  /** The variables are assigned, and the body is reached. */
  lemma EachBegins(id: int, w: World, w': World, m: Machine, m': Machine, tr: seq<Op>, s: Stmt,
      brk: seq<Option<Label>>, cont: seq<Option<Label>>, l: Option<Label>)
    requires s.Range? && InOrder(s) && Alike(w, w', id) && Same(id, m, m', tr)
    requires Clean(id, tr, Star(EachOf(s, brk, cont, l)))
    ensures Choose(w, m) == Choose(w', m')
    ensures var tr1 := tr + AllLhsOps(s.vars, false);
      && Same(id, Assigned(w, Turn(m), s.vars, false, []), Assigned(w', Turn(m'), s.vars, false, []), tr1)
      && Clean(id, tr1, Meaning(s.body, brk + [l], cont + [l], None))
  {
    hide Same, Clean, CleanOps, Alike, Meaning, AllLhsOps, Assigned, Ordered;
    var p := Meaning(s.body, brk + [l], cont + [l], None);
    var ops := AllLhsOps(s.vars, false);
    CleanStar(id, tr, EachOf(s, brk, cont, l));
    OpsFirst(id, tr, ops, Catch(Cont(|cont|), p));
    CleanCatch(id, tr + ops, Cont(|cont|), p);
    Decided(id, w, w', m, m', tr);
    assert UsesOf([]) + ops == ops;
    AssignedSame(id, w, w', Turn(m), Turn(m'), tr, s.vars, false, []);
  }

  lemma EachIs(ops: seq<Op>, body: Prog, rb: Run)
    ensures var p := Seq(Ops(ops), body);
      var r := Both(Did(|ops|), rb);
      Out(p, r) == Out(body, rb) && Trace(p, r) == ops + Trace(body, rb)
  {
    assert Trace(Ops(ops), Did(|ops|)) == ops;
  }

  /** The turns after this one, with nothing after the loop. */
  lemma MoreOfStar(id: int, x: Result, x': Result, tr: seq<Op>, p: Prog, r1: Run, r: Run, brk: seq<Option<Label>>,
      cont: seq<Option<Label>>, caught: Option<Target>)
    requires Out(p, r1) == Done && Went(id, x, x', tr + Trace(p, r1), Star(p), r, brk, cont, caught)
    ensures Went(id, x, x', tr, Star(p), More(r1, r), brk, cont, caught)
  {
    assert Trace(Star(p), More(r1, r)) == Trace(p, r1) + Trace(Star(p), r);
    hide Same;
    assert tr + Trace(p, r1) + Trace(Star(p), r) == tr + (Trace(p, r1) + Trace(Star(p), r));
  }

  lemma EachEnds(id: int, m: Machine, m': Machine, tr: seq<Op>, p: Prog, brk: seq<Option<Label>>,
      cont: seq<Option<Label>>, caught: Option<Target>)
    requires Same(id, m, m', tr)
    ensures Went(id, Result(Turn(m), Normal), Result(Turn(m'), Normal), tr, Star(p), Ends, brk, cont, caught)
  {
    assert Trace(Star(p), Ends) == [] && tr + [] == tr;
  }

  lemma {:induction false} EachWent(id: int, w: World, w': World, m: Machine, m': Machine, tr: seq<Op>, s: Stmt,
      brk: seq<Option<Label>>, cont: seq<Option<Label>>, l: Option<Label>, fuel: nat) returns (r: Run)
    requires s.Range? && WellFormed(s, brk, cont, l) && InOrder(s) && Alike(w, w', id) && Same(id, m, m', tr)
    requires Clean(id, tr, Star(EachOf(s, brk, cont, l)))
    ensures Went(id, Each(w, m, s, l, fuel), Each(w', m', s, l, fuel), tr, Star(EachOf(s, brk, cont, l)), r, brk, cont,
                 Some(Brk(|brk|)))
    decreases fuel, s, 1, 0
  {
    RangeMeans(s, brk, cont, l);
    EachBegins(id, w, w', m, m', tr, s, brk, cont, l);
    var ops := AllLhsOps(s.vars, false);
    var turn, caught := EachOf(s, brk, cont, l), Some(Brk(|brk|));
    var p := Meaning(s.body, brk + [l], cont + [l], None);
    var body := Catch(Cont(|cont|), p);
    var m1, m1' := Assigned(w, Turn(m), s.vars, false, []), Assigned(w', Turn(m'), s.vars, false, []);
    var tr1 := tr + ops;
    assert turn == Seq(Ops(ops), body);
    hide Same, Clean, Alike, Went, Trace, Out, Assigned, AllLhsOps, WellFormed, Meaning, EachOf;
    if !Choose(w, m) {
      EachEnds(id, m, m', tr, turn, brk, cont, caught);
      r := Ends;
    } else {
      var rb := ExecWent(id, w, w', m1, m1', tr1, s.body, brk + [l], cont + [l], None, fuel);
      var x, x' := Exec(w, m1, s.body, None, fuel), Exec(w', m1', s.body, None, fuel);
      BodyWent(id, x, x', tr1, p, rb, brk, cont, l);
      var r1 := Both(Did(|ops|), rb);
      EachIs(ops, body, rb);
      if !GoesOn(x.e, l) {
        var y, y' := Left(x, l), Left(x', l);
        OpsThen(id, y, y', tr, ops, body, rb, brk, cont, caught);
        StarLeft(id, y, y', tr, turn, r1, brk, cont, caught);
        r := More(r1, Run.Cut);
      } else if fuel == 0 {
        r := Run.Cut;
        TiredWent(id, x, x', tr, Star(turn), r, brk, cont, caught);
      } else {
        ThreeJoined(tr, ops, Trace(body, rb), []);
        CleanStar(id, tr, turn);
        var r2 := EachWent(id, w, w', x.m, x'.m, tr + Trace(turn, r1), s, brk, cont, l, fuel - 1);
        MoreOfStar(id, Each(w, x.m, s, l, fuel - 1), Each(w', x'.m, s, l, fuel - 1), tr, turn, r1, r2, brk, cont,
            caught);
        r := More(r1, r2);
      }
    }
  }

  lemma {:induction false} RangeWent(id: int, w: World, w': World, m: Machine, m': Machine, tr: seq<Op>, s: Stmt,
      brk: seq<Option<Label>>, cont: seq<Option<Label>>, l: Option<Label>, fuel: nat) returns (r: Run)
    requires s.Range? && WellFormed(s, brk, cont, l) && InOrder(s) && Alike(w, w', id) && Same(id, m, m', tr)
    requires Clean(id, tr, Meaning(s, brk, cont, l))
    ensures Went(id, Exec(w, m, s, l, fuel), Exec(w', m', s, l, fuel), tr, Meaning(s, brk, cont, l), r, brk, cont, None)
    decreases fuel, s, 2, 0
  {
    RangeMeans(s, brk, cont, l);
    var ops, q := UsesOf(s.over), Star(EachOf(s, brk, cont, l));
    hide Same, Clean, Alike, Went, Look, UsesOf, WellFormed, Meaning, EachOf, Each;
    LookFirst(id, m, m', tr, s.over, Catch(Brk(|brk|), q));
    var m1, m1' := Look(m, s.over), Look(m', s.over);
    CleanCatch(id, tr + ops, Brk(|brk|), q);
    var r1 := EachWent(id, w, w', m1, m1', tr + ops, s, brk, cont, l, fuel);
    var x, x' := Each(w, m1, s, l, fuel), Each(w', m1', s, l, fuel);
    CatchWent(id, x, x', tr + ops, q, r1, brk, cont);
    OpsThen(id, x, x', tr, ops, Catch(Brk(|brk|), q), r1, brk, cont, None);
    r := Both(Did(|ops|), r1);
  }

  // ----- switch -----

  /** The expressions of a clause are evaluated until one matches, or all are. */
  lemma {:induction false} TriedSame(id: int, w: World, w': World, m: Machine, m': Machine, tr: seq<Op>,
      list: seq<seq<Var>>) returns (r: Run)
    requires Alike(w, w', id) && Same(id, m, m', tr) && CleanOps(id, tr, UsesOf(Flat(list)))
    ensures Tried(w, m, list).1 == Tried(w', m', list).1
    ensures if Tried(w, m, list).1
            then Out(Hit(list), r) == Done
                && Same(id, Tried(w, m, list).0, Tried(w', m', list).0, tr + Trace(Hit(list), r))
            else Same(id, Tried(w, m, list).0, Tried(w', m', list).0, tr + UsesOf(Flat(list)))
    decreases |list|
  {
    if list == [] {
      assert tr + UsesOf(Flat(list)) == tr;
      r := Run.Cut;
    } else {
      var ops := UsesOf(list[0]);
      FlatFirst(list);
      CleanSplit(id, tr, ops, UsesOf(Flat(list[1..])));
      LookSame(id, m, m', tr, list[0]);
      var m1, m1' := Look(m, list[0]), Look(m', list[0]);
      Decided(id, w, w', m1, m1', tr + ops);
      hide Same, CleanOps, Alike, Look, UsesOf, Choose, Turn, Hit, Trace, Out, Flat;
      if Choose(w, m1) {
        r := HitRun(list);
      } else {
        var r1 := TriedSame(id, w, w', Turn(m1), Turn(m1'), tr + ops, list[1..]);
        ThreeJoined(tr, ops, UsesOf(Flat(list[1..])), []);
        r := Run.Cut;
        if Tried(w, Turn(m1), list[1..]).1 {
          assert list[1..] != [];
          r := LaterHit(list, r1);
          ThreeJoined(tr, ops, Trace(Hit(list[1..]), r1), []);
        }
      }
    }
  }

  lemma FlatFirst(list: seq<seq<Var>>)
    requires list != []
    ensures UsesOf(Flat(list)) == UsesOf(list[0]) + UsesOf(Flat(list[1..]))
  {
    UsesJoin(list[0], Flat(list[1..]));
  }

  lemma {:induction false} UsesJoin(a: seq<Var>, b: seq<Var>)
    ensures UsesOf(a + b) == UsesOf(a) + UsesOf(b)
    decreases |a|
  {
    if a == [] {
      assert a + b == b;
    } else {
      assert (a + b)[1..] == a[1..] + b;
      UsesJoin(a[1..], b);
    }
  }

  lemma HitRun(list: seq<seq<Var>>) returns (r: Run)
    requires list != []
    ensures Out(Hit(list), r) == Done && Trace(Hit(list), r) == UsesOf(list[0])
  {
    var ops := UsesOf(list[0]);
    if |list| == 1 {
      assert list[1..] == [] && Flat(list) == list[0];
      r := Did(|ops|);
    } else {
      r := Both(Did(|ops|), Chose(true, Did(0)));
      assert Trace(Ops(ops), Did(|ops|)) == ops;
      LeftNothing(Hit(list[1..]));
      hide Hit;
      assert Hit(list) == Seq(Ops(ops), Alt(Ops([]), Hit(list[1..]))) by { HitIs(list); }
      assert ops + [] == ops;
    }
  }

  lemma HitIs(list: seq<seq<Var>>)
    requires |list| > 1
    ensures Hit(list) == Seq(Ops(UsesOf(list[0])), Alt(Ops([]), Hit(list[1..])))
  {}

  lemma LeftNothing(q: Prog)
    ensures Out(Alt(Ops([]), q), Chose(true, Did(0))) == Done && Trace(Alt(Ops([]), q), Chose(true, Did(0))) == []
  {
    assert Trace(Ops([]), Did(0)) == [];
  }

  lemma LaterHit(list: seq<seq<Var>>, r1: Run) returns (r: Run)
    requires |list| > 0 && Out(Hit(list[1..]), r1) == Done && list[1..] != []
    ensures Out(Hit(list), r) == Done && Trace(Hit(list), r) == UsesOf(list[0]) + Trace(Hit(list[1..]), r1)
  {
    var ops := UsesOf(list[0]);
    r := Both(Did(|ops|), Chose(false, r1));
    assert Trace(Ops(ops), Did(|ops|)) == ops;
    assert Trace(Alt(Ops([]), Hit(list[1..])), Chose(false, r1)) == Trace(Hit(list[1..]), r1);
    assert Out(Alt(Ops([]), Hit(list[1..])), Chose(false, r1)) == Done;
  }

  lemma {:induction false} FallenWent(id: int, w: World, w': World, m: Machine, m': Machine, tr: seq<Op>, s: Stmt,
      i: nat, brk: seq<Option<Label>>, cont: seq<Option<Label>>, fuel: nat) returns (r: Run)
    requires s.Switch? && i <= |s.clauses| && Alike(w, w', id) && Same(id, m, m', tr)
    requires forall j :: 0 <= j < |s.clauses| ==>
        WellFormed(s.clauses[j].body, brk, cont, None) && InOrder(s.clauses[j].body)
    requires Clean(id, tr, Bodies(s, i, brk, cont))
    ensures Went(id, Fallen(w, m, s, i, fuel), Fallen(w', m', s, i, fuel), tr, Bodies(s, i, brk, cont), r, brk, cont,
        None)
    decreases fuel, s, 0, |s.clauses| - i
  {
    hide Same, Clean, Alike, Went, Trace, Out, WellFormed, Meaning;
    if i == |s.clauses| {
      assert tr + [] == tr;
      OpsWent(id, Result(m, Normal), Result(m', Normal), tr, [], brk, cont);
      r := Did(0);
    } else {
      var c := s.clauses[i];
      var p, q := Meaning(c.body, brk, cont, None), if c.falls then Bodies(s, i + 1, brk, cont) else Ops([]);
      CleanSeq(id, tr, p, q);
      var r1 := ExecWent(id, w, w', m, m', tr, c.body, brk, cont, None, fuel);
      var x, x' := Exec(w, m, c.body, None, fuel), Exec(w', m', c.body, None, fuel);
      WentFacts(id, x, x', tr, p, r1, brk, cont);
      var r2 := Run.Cut;
      if x.e == Normal {
        if c.falls {
          r2 := FallenWent(id, w, w', x.m, x'.m, tr + Trace(p, r1), s, i + 1, brk, cont, fuel);
        } else {
          assert tr + Trace(p, r1) + [] == tr + Trace(p, r1);
          OpsWent(id, x, x', tr + Trace(p, r1), [], brk, cont);
          r2 := Did(0);
        }
      }
      r := Both(r1, r2);
      SeqWent(id, x, x', Fallen(w, m, s, i, fuel), Fallen(w', m', s, i, fuel), tr, p, q, r1, r2, brk, cont);
    }
  }

  lemma WentFacts(id: int, x: Result, x': Result, tr: seq<Op>, p: Prog, r: Run, brk: seq<Option<Label>>,
      cont: seq<Option<Label>>)
    requires Went(id, x, x', tr, p, r, brk, cont, None)
    ensures x.e == x'.e && x.m.seen == x'.m.seen
    ensures x.e == Normal ==> Out(p, r) == Done && Same(id, x.m, x'.m, tr + Trace(p, r))
  {}

  lemma {:induction false} CasesWent(id: int, w: World, w': World, m: Machine, m': Machine, tr: seq<Op>, s: Stmt,
      i: nat, brk: seq<Option<Label>>, cont: seq<Option<Label>>, fuel: nat) returns (r: Run)
    requires s.Switch? && i <= |s.clauses| && Alike(w, w', id) && Same(id, m, m', tr)
    requires forall j :: 0 <= j < |s.clauses| ==>
        WellFormed(s.clauses[j].body, brk, cont, None) && InOrder(s.clauses[j].body)
    requires Clean(id, tr, Choice(s, i, brk, cont))
    ensures Went(id, Cases(w, m, s, i, fuel), Cases(w', m', s, i, fuel), tr, Choice(s, i, brk, cont), r, brk, cont,
        None)
    decreases fuel, s, 1, |s.clauses| - i
  {
    hide Same, Clean, Alike, Went, Trace, Out, WellFormed, Meaning, Bodies, Hit, UsesOf;
    if i == |s.clauses| {
      r := FallenWent(id, w, w', m, m', tr, s, DefaultIx(s.clauses), brk, cont, fuel);
    } else if s.clauses[i].list.None? {
      r := CasesWent(id, w, w', m, m', tr, s, i + 1, brk, cont, fuel);
    } else {
      var list := s.clauses[i].list.value;
      var ops := UsesOf(Flat(list));
      var p, q := Seq(Hit(list), Bodies(s, i, brk, cont)), Seq(Ops(ops), Choice(s, i + 1, brk, cont));
      CleanAlt(id, tr, p, q);
      OpsFirst(id, tr, ops, Choice(s, i + 1, brk, cont));
      var rh := TriedSame(id, w, w', m, m', tr, list);
      var t, t' := Tried(w, m, list), Tried(w', m', list);
      var x, x' := Cases(w, m, s, i, fuel), Cases(w', m', s, i, fuel);
      if t.1 {
        CleanSeq(id, tr, Hit(list), Bodies(s, i, brk, cont));
        var r1 := FallenWent(id, w, w', t.0, t'.0, tr + Trace(Hit(list), rh), s, i, brk, cont, fuel);
        HitThen(id, x, x', tr, Hit(list), Bodies(s, i, brk, cont), rh, r1, brk, cont);
        AltWent(id, x, x', tr, p, q, true, Both(rh, r1), brk, cont);
        r := Chose(true, Both(rh, r1));
      } else {
        var r1 := CasesWent(id, w, w', t.0, t'.0, tr + ops, s, i + 1, brk, cont, fuel);
        OpsThen(id, x, x', tr, ops, Choice(s, i + 1, brk, cont), r1, brk, cont, None);
        AltWent(id, x, x', tr, p, q, false, Both(Did(|ops|), r1), brk, cont);
        r := Chose(false, Both(Did(|ops|), r1));
      }
    }
  }

  lemma HitThen(id: int, x: Result, x': Result, tr: seq<Op>, p: Prog, q: Prog, r1: Run, r2: Run,
      brk: seq<Option<Label>>, cont: seq<Option<Label>>)
    requires Out(p, r1) == Done && Went(id, x, x', tr + Trace(p, r1), q, r2, brk, cont, None)
    ensures Went(id, x, x', tr, Seq(p, q), Both(r1, r2), brk, cont, None)
  {
    hide Same;
    assert Trace(Seq(p, q), Both(r1, r2)) == Trace(p, r1) + Trace(q, r2);
    assert tr + Trace(p, r1) + Trace(q, r2) == tr + (Trace(p, r1) + Trace(q, r2));
  }

  /** A switch catches the breaks that are meant for it. */
  lemma SwitchLeft(id: int, x: Result, x': Result, tr: seq<Op>, q: Prog, r: Run, brk: seq<Option<Label>>,
      cont: seq<Option<Label>>, l: Option<Label>)
    requires Went(id, x, x', tr, q, r, brk + [l], cont, None)
    ensures Went(id, Left(x, l), Left(x', l), tr, Catch(Brk(|brk|), q), r, brk, cont, None)
  {
    hide Same;
    assert Trace(Catch(Brk(|brk|), q), r) == Trace(q, r);
    if x.e.Broke? { FindInner(brk, l, x.e.to); }
  }

  lemma SwitchMeans(s: Stmt, brk: seq<Option<Label>>, cont: seq<Option<Label>>, l: Option<Label>)
    requires s.Switch? && WellFormed(s, brk, cont, l) && InOrder(s)
    ensures IsSimple(s.init) && IsSimple(s.tag) && InOrder(s.init) && InOrder(s.tag)
    ensures Meaning(s, brk, cont, l) ==
            Seq(Ops(SimpleOps(s.init)), Seq(Ops(SimpleOps(s.tag)), Catch(Brk(|brk|), Choice(s, 0, brk + [l], cont))))
    ensures forall j :: 0 <= j < |s.clauses| ==>
        WellFormed(s.clauses[j].body, brk + [l], cont, None) && InOrder(s.clauses[j].body)
  {}

  lemma {:induction false} SwitchWent(id: int, w: World, w': World, m: Machine, m': Machine, tr: seq<Op>, s: Stmt,
      brk: seq<Option<Label>>, cont: seq<Option<Label>>, l: Option<Label>, fuel: nat) returns (r: Run)
    requires s.Switch? && WellFormed(s, brk, cont, l) && InOrder(s) && Alike(w, w', id) && Same(id, m, m', tr)
    requires Clean(id, tr, Meaning(s, brk, cont, l))
    ensures Went(id, Exec(w, m, s, l, fuel), Exec(w', m', s, l, fuel), tr, Meaning(s, brk, cont, l), r, brk, cont, None)
    decreases fuel, s, 2, 0
  {
    SwitchMeans(s, brk, cont, l);
    var a, b, q := SimpleOps(s.init), SimpleOps(s.tag), Choice(s, 0, brk + [l], cont);
    hide Same, Clean, Alike, Went, SimpleOps, WellFormed, Meaning, Choice, Cases, InOrder;
    SimpleFirst(id, w, w', m, m', tr, s.init, Seq(Ops(b), Catch(Brk(|brk|), q)), fuel);
    var m1, m1' := Exec(w, m, s.init, None, fuel).m, Exec(w', m', s.init, None, fuel).m;
    SimpleFirst(id, w, w', m1, m1', tr + a, s.tag, Catch(Brk(|brk|), q), fuel);
    var m2, m2' := Exec(w, m1, s.tag, None, fuel).m, Exec(w', m1', s.tag, None, fuel).m;
    CleanCatch(id, tr + a + b, Brk(|brk|), q);
    r := CasesWent(id, w, w', m2, m2', tr + a + b, s, 0, brk + [l], cont, fuel);
    var x, x' := Cases(w, m2, s, 0, fuel), Cases(w', m2', s, 0, fuel);
    SwitchLeft(id, x, x', tr + a + b, q, r, brk, cont, l);
    OpsThen(id, Left(x, l), Left(x', l), tr + a, b, Catch(Brk(|brk|), q), r, brk, cont, None);
    OpsThen(id, Left(x, l), Left(x', l), tr, a, Seq(Ops(b), Catch(Brk(|brk|), q)), Both(Did(|b|), r), brk, cont, None);
    r := Both(Did(|a|), Both(Did(|b|), r));
  }

  /** An assignment whose value no execution reads next is harmless. */
  lemma CleanIsHarmless(s: Stmt, id: int)
    requires WellFormed(s, [], [], None) && InOrder(s) && Clean(id, [], Meaning(s, [], [], None))
    ensures Harmless(s, id)
  {
    forall w, w', store, fuel: nat | Alike(w, w', id)
      ensures var x, x' := Exec(w, Machine(store, [], 0), s, None, fuel),
          Exec(w', Machine(store, [], 0), s, None, fuel);
              x.m.seen == x'.m.seen && x.e == x'.e
    {
      var m := Machine(store, [], 0);
      var r := ExecWent(id, w, w', m, m, [], s, [], [], None, fuel);
      WentFacts(id, Exec(w, m, s, None, fuel), Exec(w', m, s, None, fuel), [], Meaning(s, [], [], None), r, [], []);
    }
  }
}
