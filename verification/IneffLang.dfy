/** The statements that ineffassign looks at, and what executing them means: the order in
    which they use and assign variables. */
module IneffLang {
  import opened Options
  import opened IneffGraph

  type Label = int

  /** Left-hand sides: a variable (`zero` if it is defined by a zero literal) or another
      expression, which only uses variables. */
  datatype Lhs = Ident(x: Var, id: int, zero: bool) | Other(uses: seq<Var>)

  /** `AssignStmt` is an assignment or definition, with `opAssign` one such as +=; `VarDecl`
      declares variables with or without values. */
  datatype Stmt =
    | Empty
    | Then(first: Stmt, second: Stmt)
    | Expr(uses: seq<Var>)
    | AssignStmt(lhs: seq<Lhs>, opAssign: bool, rhs: seq<Var>)
    | VarDecl(names: seq<(Var, int)>, hasValues: bool, values: seq<Var>)
    | IncDec(target: Lhs)
    | If(init: Stmt, cond: seq<Var>, thn: Stmt, els: Option<Stmt>)
    | For(init: Stmt, cond: seq<Var>, post: Stmt, body: Stmt)
    | Range(over: seq<Var>, vars: seq<Lhs>, body: Stmt)
    | Switch(init: Stmt, tag: Stmt, clauses: seq<Clause>)
    | Labeled(name: Label, stmt: Stmt)
    | Break(to: Option<Label>)
    | Continue(to: Option<Label>)
    | Return(uses: seq<Var>)

  /** A switch clause; one without a list is the default. `falls`: it ends in fallthrough. */
  datatype Clause = Clause(list: Option<seq<seq<Var>>>, body: Stmt, falls: bool)

  // ----- the operations of simple statements -----

  function UsesOf(vs: seq<Var>): (ops: seq<Op>)
    ensures |ops| == |vs| && forall k :: 0 <= k < |ops| ==> ops[k] == Use(vs[k])
  {
    if vs == [] then [] else [Use(vs[0])] + UsesOf(vs[1..])
  }

  function LhsOps(l: Lhs, opAssign: bool): seq<Op> {
    match l
    case Other(uses) => UsesOf(uses)
    case Ident(x, id, zero) =>
      (if opAssign then [Use(x)] else []) + (if zero then [Use(x)] else [Assign(x, id)])
  }

  function AllLhsOps(ls: seq<Lhs>, opAssign: bool): seq<Op> {
    if ls == [] then [] else LhsOps(ls[0], opAssign) + AllLhsOps(ls[1..], opAssign)
  }

  function DeclOps(names: seq<(Var, int)>, hasValues: bool): seq<Op> {
    if names == [] then []
    else [if hasValues then Assign(names[0].0, names[0].1) else Use(names[0].0)] + DeclOps(names[1..], hasValues)
  }

  predicate IsSimple(s: Stmt) {
    s.Empty? || s.Expr? || s.AssignStmt? || s.VarDecl? || s.IncDec?
  }

  function SimpleOps(s: Stmt): seq<Op>
    requires IsSimple(s)
  {
    match s
    case Empty => []
    case Expr(uses) => UsesOf(uses)
    case AssignStmt(lhs, opAssign, rhs) => UsesOf(rhs) + AllLhsOps(lhs, opAssign)
    case VarDecl(names, hasValues, values) => UsesOf(values) + DeclOps(names, hasValues)
    case IncDec(l) => if l.Ident? then [Use(l.x), Assign(l.x, l.id)] else UsesOf(l.uses)
  }

  // ----- structured programs and their executions -----

  /** Where a break or continue goes: the loop or switch at this depth. */
  datatype Target = Brk(depth: nat) | Cont(depth: nat)

  datatype Prog =
    | Ops(ops: seq<Op>)
    | Seq(p: Prog, q: Prog)
    | Alt(p: Prog, q: Prog)
    | Star(p: Prog)
    | Exit(t: Target)
    | Catch(t: Target, p: Prog)
    | Stop

  /** One execution, complete or cut off anywhere. */
  datatype Run =
    | Cut
    | Did(n: nat)
    | Both(first: Run, second: Run)
    | Chose(left: bool, r: Run)
    | Ends
    | More(once: Run, again: Run)

  datatype Outcome = Done | Exits(t: Target) | Stops

  function Out(p: Prog, r: Run): Outcome
    decreases r, p
  {
    match (p, r)
    case (Catch(t, q), _) => if Out(q, r) == Exits(t) then Done else Out(q, r)
    case (Ops(ops), Did(n)) => if n == |ops| then Done else Stops
    case (Seq(a, b), Both(r1, r2)) => if Out(a, r1) == Done then Out(b, r2) else Out(a, r1)
    case (Alt(a, b), Chose(left, r1)) => Out(if left then a else b, r1)
    case (Star(a), Ends) => Done
    case (Star(a), More(r1, r2)) => if Out(a, r1) == Done then Out(p, r2) else Out(a, r1)
    case (Exit(t), Did(n)) => Exits(t)
    case _ => Stops
  }

  function Trace(p: Prog, r: Run): seq<Op>
    decreases r, p
  {
    match (p, r)
    case (Catch(t, q), _) => Trace(q, r)
    case (Ops(ops), Did(n)) => if n <= |ops| then ops[..n] else ops
    case (Seq(a, b), Both(r1, r2)) => Trace(a, r1) + (if Out(a, r1) == Done then Trace(b, r2) else [])
    case (Alt(a, b), Chose(left, r1)) => Trace(if left then a else b, r1)
    case (Star(a), More(r1, r2)) => Trace(a, r1) + (if Out(a, r1) == Done then Trace(p, r2) else [])
    case _ => []
  }

  // ----- what a statement means -----

  /** The innermost entry, or the innermost one with the label; |labels| if there is none. */
  function Find(labels: seq<Option<Label>>, l: Option<Label>): (k: nat)
    ensures k <= |labels|
    ensures k < |labels| ==> l.None? || labels[k] == l
    ensures forall j :: k < j < |labels| ==> l.Some? && labels[j] != l
    ensures k == |labels| ==> forall j :: 0 <= j < |labels| ==> l.Some? && labels[j] != l
  {
    FindFrom(labels, l, |labels|)
  }

  function FindFrom(labels: seq<Option<Label>>, l: Option<Label>, n: nat): (k: nat)
    requires n <= |labels|
    ensures k <= |labels|
    ensures k < |labels| ==> k < n && (l.None? || labels[k] == l)
    ensures k < |labels| ==> forall j :: k < j < n ==> l.Some? && labels[j] != l
    ensures k == |labels| ==> forall j :: 0 <= j < n ==> l.Some? && labels[j] != l
  {
    if n == 0 then |labels|
    else if l.None? || labels[n - 1] == l then n - 1
    else FindFrom(labels, l, n - 1)
  }

  function Flat(list: seq<seq<Var>>): seq<Var> {
    if list == [] then [] else list[0] + Flat(list[1..])
  }

  /** The expressions of a clause are evaluated from the left until one is equal to the tag. */
  function Hit(list: seq<seq<Var>>): Prog
    decreases |list|
  {
    if |list| <= 1 then Ops(UsesOf(Flat(list)))
    else Seq(Ops(UsesOf(list[0])), Alt(Ops([]), Hit(list[1..])))
  }

  /** The statement as a structured program, below the loops and switches with labels `brk`
      and the loops with labels `cont`. `l` is the label in front of the statement itself. */
  function Meaning(s: Stmt, brk: seq<Option<Label>>, cont: seq<Option<Label>>, l: Option<Label>): Prog
    decreases s, 2, 0
  {
    match s
    case Then(s1, s2) => Seq(Meaning(s1, brk, cont, None), Meaning(s2, brk, cont, None))
    case If(init, cond, thn, els) =>
      Seq(Meaning(init, brk, cont, None), Seq(Ops(UsesOf(cond)),
        Alt(Meaning(thn, brk, cont, None), if els.Some? then Meaning(els.value, brk, cont, None) else Ops([]))))
    case For(init, cond, post, body) =>
      var brk', cont' := brk + [l], cont + [l];
      Seq(Meaning(init, brk', cont', None), Catch(Brk(|brk|),
        Seq(Star(Seq(Ops(UsesOf(cond)),
                     Seq(Catch(Cont(|cont|), Meaning(body, brk', cont', None)), Meaning(post, brk', cont', None)))),
            Ops(UsesOf(cond)))))
    case Range(over, vars, body) =>
      var brk', cont' := brk + [l], cont + [l];
      Seq(Ops(UsesOf(over)), Catch(Brk(|brk|),
        Star(Seq(Ops(AllLhsOps(vars, false)), Catch(Cont(|cont|), Meaning(body, brk', cont', None))))))
    case Switch(init, tag, clauses) =>
      Seq(Meaning(init, brk, cont, None), Seq(Meaning(tag, brk, cont, None),
        Catch(Brk(|brk|), Choice(s, 0, brk + [l], cont))))
    case Labeled(name, s1) => Meaning(s1, brk, cont, Some(name))
    case Break(t) => if Find(brk, t) < |brk| then Exit(Brk(Find(brk, t))) else Stop
    case Continue(t) => if Find(cont, t) < |cont| then Exit(Cont(Find(cont, t))) else Stop
    case Return(uses) => Seq(Ops(UsesOf(uses)), Stop)
    case _ => Ops(SimpleOps(s))
  }

  /** The bodies from clause `i` on, as far as they fall through. */
  function Bodies(s: Stmt, i: nat, brk: seq<Option<Label>>, cont: seq<Option<Label>>): Prog
    requires s.Switch? && i <= |s.clauses|
    decreases s, 0, |s.clauses| - i
  {
    if i == |s.clauses| then Ops([])
    else
      var c := s.clauses[i];
      Seq(Meaning(c.body, brk, cont, None), if c.falls then Bodies(s, i + 1, brk, cont) else Ops([]))
  }

  /** The index of the default clause, or |cs|. */
  function DefaultIx(cs: seq<Clause>): (k: nat)
    ensures k <= |cs|
    ensures k < |cs| ==> cs[k].list.None?
    ensures forall j :: 0 <= j < k ==> cs[j].list.Some?
  {
    if cs == [] || cs[0].list.None? then 0 else 1 + DefaultIx(cs[1..])
  }

  /** The clauses from `i` on are tried in order; the default clause is passed over, and
      entered, wherever it stands, when no other one matches. */
  function Choice(s: Stmt, i: nat, brk: seq<Option<Label>>, cont: seq<Option<Label>>): Prog
    requires s.Switch? && i <= |s.clauses|
    decreases s, 1, |s.clauses| - i
  {
    if i == |s.clauses| then Bodies(s, DefaultIx(s.clauses), brk, cont)
    else if s.clauses[i].list.None? then Choice(s, i + 1, brk, cont)
    else
      var list := s.clauses[i].list.value;
      Alt(Seq(Hit(list), Bodies(s, i, brk, cont)),
          Seq(Ops(UsesOf(Flat(list))), Choice(s, i + 1, brk, cont)))
  }

  // ----- well-formed statements -----

  /** What the language demands: simple statements where only those may stand, break and
      continue inside something they can leave, at most one default clause in a switch and no
      fallthrough at its end. */
  predicate WellFormed(s: Stmt, brk: seq<Option<Label>>, cont: seq<Option<Label>>, l: Option<Label>)
    decreases s
  {
    match s
    case Then(s1, s2) => WellFormed(s1, brk, cont, None) && WellFormed(s2, brk, cont, None)
    case If(init, _, thn, els) =>
      && IsSimple(init) && WellFormed(thn, brk, cont, None)
      && (els.Some? ==> WellFormed(els.value, brk, cont, None))
    case For(init, _, post, body) => IsSimple(init) && IsSimple(post) && WellFormed(body, brk + [l], cont + [l], None)
    case Range(_, _, body) => WellFormed(body, brk + [l], cont + [l], None)
    case Switch(init, tag, clauses) =>
      && IsSimple(init) && IsSimple(tag)
      && (forall i :: 0 <= i < |clauses| ==> WellFormed(clauses[i].body, brk + [l], cont, None))
      && (forall i, j :: 0 <= i < j < |clauses| ==> clauses[i].list.Some? || clauses[j].list.Some?)
      && (clauses != [] ==> !clauses[|clauses| - 1].falls)
    case Labeled(name, s1) => WellFormed(s1, brk, cont, Some(name))
    case Break(t) => Find(brk, t) < |brk|
    case Continue(t) => Find(cont, t) < |cont|
    case _ => true
  }

  // ----- the assignments of a statement -----

  function OpIds(ops: seq<Op>): seq<int> {
    if ops == [] then [] else (if ops[0].Assign? then [ops[0].id] else []) + OpIds(ops[1..])
  }

  /** The identities of the assignments in `s`, in the order of the text. */
  function Ids(s: Stmt): seq<int>
    decreases s, 0
  {
    match s
    case Then(s1, s2) => Ids(s1) + Ids(s2)
    case If(init, _, thn, els) => Ids(init) + Ids(thn) + (if els.Some? then Ids(els.value) else [])
    case For(init, _, post, body) => Ids(init) + Ids(body) + Ids(post)
    case Range(_, vars, body) => OpIds(AllLhsOps(vars, false)) + Ids(body)
    case Switch(init, tag, clauses) => Ids(init) + Ids(tag) + ClauseIds(s, 0)
    case Labeled(_, s1) => Ids(s1)
    case Break(_) => []
    case Continue(_) => []
    case Return(_) => []
    case _ => OpIds(SimpleOps(s))
  }

  function ClauseIds(s: Stmt, i: nat): seq<int>
    requires s.Switch? && i <= |s.clauses|
    decreases s, 0, |s.clauses| - i
  {
    if i == |s.clauses| then [] else Ids(s.clauses[i].body) + ClauseIds(s, i + 1)
  }
}
