/** The checker of ineffassign: it searches the block graph and reports the assignments whose
    values are not used, and what such a report means for executions. */
module IneffChecker {
  import opened Options
  import opened IneffGraph
  import opened IneffLang
  import opened IneffLayout
  import opened IneffEdges
  import opened IneffGrowth
  import opened IneffSound
  import opened IneffStore
  import opened IneffDead
  import opened IneffBuilder

  ghost function Numbers(bs: set<Block>): set<nat> {
    set b | b in bs :: b.id
  }

  /** Every block with a number in `s` has been dealt with by a search for uses of `x`. */
  ghost predicate AllThrough(g: Graph, x: Var, s: set<nat>) {
    forall v :: v in s ==> Through(g, x, s, v)
  }

  /** What a search of the graph has done: it went from the blocks `s` to the blocks `t`. */
  ghost predicate Searched(g: Graph, x: Var, s: set<nat>, t: set<nat>) {
    s <= t && forall v :: v in t && v !in s ==> Through(g, x, t, v)
  }

  lemma SearchedMore(g: Graph, x: Var, s: set<nat>, t: set<nat>, u: set<nat>)
    requires Searched(g, x, s, t) && Searched(g, x, t, u)
    ensures Searched(g, x, s, u)
  {
    forall v | v in u && v !in s
      ensures Through(g, x, u, v)
    {
      assert v in t ==> Through(g, x, t, v);
    }
  }

  lemma SearchedAll(g: Graph, x: Var, s: set<nat>, t: set<nat>)
    requires AllThrough(g, x, s) && Searched(g, x, s, t)
    ensures AllThrough(g, x, t)
  {
    forall v | v in t
      ensures Through(g, x, t, v)
    {
      assert v in s ==> Through(g, x, s, v);
    }
  }

  ghost function SetOfBlocks(bs: seq<Block>): set<Block> {
    set b | b in bs
  }

  /** The successors of a block, as objects and as numbers. */
  lemma ChildrenOf(bld: Builder, b: Block)
    requires bld.Rep() && bld.IsBlock(b)
    ensures b.id < |bld.g| && |b.children| == |bld.g[b.id].children|
    ensures forall k :: 0 <= k < |b.children| ==>
        bld.IsBlock(b.children[k])
        && b.children[k].id == bld.g[b.id].children[k]
    ensures forall x :: (if x in b.ops then b.ops[x] else []) == OpsOn(bld.g[b.id].ops, x)
  {
    bld.RepFacts();
    assert bld.BlockRep(b.id);
    forall k | 0 <= k < |b.children|
      ensures bld.IsBlock(b.children[k]) && b.children[k].id == bld.g[b.id].children[k]
    {
      assert bld.BlockRep(bld.g[b.id].children[k]);
    }
  }

  ghost predicate AllBlocks(bld: Builder, bs: set<Block>)
    reads bld`blocks
  {
    forall b :: b in bs ==> bld.IsBlock(b)
  }

  lemma NumbersHave(bld: Builder, bs: set<Block>, b: Block)
    requires AllBlocks(bld, bs) && bld.IsBlock(b)
    ensures b.id in Numbers(bs) <==> b in bs
  {}

  lemma NumbersAdd(bs: set<Block>, b: Block)
    ensures Numbers(bs + {b}) == Numbers(bs) + {b.id}
  {
    assert b in bs + {b};
    forall c | c in bs
      ensures c.id in Numbers(bs + {b})
    {
      assert c in bs + {b};
    }
  }

  lemma SearchedSelf(g: Graph, x: Var, s: set<nat>)
    ensures Searched(g, x, s, s)
  {}

  lemma NotUsedIn(g: Graph, x: Var, s: set<nat>, b: nat)
    requires b in s
    ensures AllThrough(g, x, s) ==> !Used(g, x, Pos(b, 0))
  {
    if AllThrough(g, x, s) { SeenNotUsed(g, x, s, b); }
  }

  /** The value at the start of a block, by its first operation. */
  lemma FirstCases(g: Graph, x: Var, b: nat)
    requires b < |g|
    ensures var l := OpsOn(g[b].ops, x);
            Used(g, x, Pos(b, 0)) <==>
            if l != [] then l[0].Use? else exists c :: EdgeTo(g, b, c) && Used(g, x, Pos(c, 0))
  {
    UsedCases(g, x, b, 0);
    assert g[b].ops[0..] == g[b].ops;
  }

  /** A block that has just been dealt with, with the search behind it. */
  lemma DealtWith(g: Graph, x: Var, s: set<nat>, b: nat, t: set<nat>)
    requires Searched(g, x, s + {b}, t) && Through(g, x, t, b)
    ensures Searched(g, x, s, t)
    ensures AllThrough(g, x, s) ==> !Used(g, x, Pos(b, 0))
  {
    if AllThrough(g, x, s) {
      SearchedAll(g, x, s, t);
      SeenNotUsed(g, x, t, b);
    }
  }

  /** Whether the first operation on `x` met from `b` on, in a block that has not been seen, is
      a use. When nothing is found, the search is through with all it has seen. */
  method FindUse(bld: Builder, x: Var, b: Block, seen: set<Block>) returns (r: bool, seen': set<Block>)
    requires bld.Rep() && bld.IsBlock(b) && AllBlocks(bld, seen)
    ensures AllBlocks(bld, seen') && seen <= seen'
    ensures r ==> Used(bld.g, x, Pos(b.id, 0))
    ensures !r ==> b in seen' && Searched(bld.g, x, Numbers(seen), Numbers(seen'))
    ensures AllThrough(bld.g, x, Numbers(seen)) ==> (r <==> Used(bld.g, x, Pos(b.id, 0)))
    decreases SetOfBlocks(bld.blocks) - seen
  {
    hide OpsOn, Builder.Rep, Reach;
    ghost var g := bld.g;
    NumbersHave(bld, seen, b);
    if b in seen {
      NotUsedIn(g, x, Numbers(seen), b.id);
      return false, seen;
    }
    ChildrenOf(bld, b);
    FirstCases(g, x, b.id);
    seen' := seen + {b};
    NumbersAdd(seen, b);
    if x in b.ops && b.ops[x] != [] {
      r := !b.ops[x][0].Assign?;
      SearchedSelf(g, x, Numbers(seen'));
      if !r { DealtWith(g, x, Numbers(seen), b.id, Numbers(seen')); }
      return;
    }
    ghost var start := seen';
    SearchedSelf(g, x, Numbers(start));
    bld.RepFacts();
    r := false;
    for k := 0 to |b.children|
      invariant AllBlocks(bld, seen') && Searched(g, x, Numbers(start), Numbers(seen'))
      invariant forall j :: 0 <= j < k ==> b.children[j] in seen'
      invariant start <= seen' && !r
    {
      ghost var before := seen';
      r, seen' := FindUse(bld, x, b.children[k], seen');
      if r {
        assert EdgeTo(g, b.id, b.children[k].id);
        return;
      }
      SearchedMore(g, x, Numbers(start), Numbers(before), Numbers(seen'));
    }
    forall c | c in g[b.id].children
      ensures c in Numbers(seen')
    {
      var j :| 0 <= j < |b.children| && b.children[j].id == c;
      NumbersHave(bld, seen', b.children[j]);
    }
    DealtWith(g, x, Numbers(seen), b.id, Numbers(seen'));
  }

  // ----- the checker -----

  lemma SomeIn<T>(s: set<T>) returns (x: T)
    requires s != {}
    ensures x in s
  {
    x :| x in s;
  }

  ghost predicate DeadUpTo(g: Graph, b: nat, x: Var, n: nat, id: int) {
    b < |g| && exists k ::
        0 <= k < n && k < |OpsOn(g[b].ops, x)| && DeadAt(g, x, b, k)
        && OpsOn(g[b].ops, x)[k].id == id
  }

  lemma DeadUpToNext(g: Graph, b: nat, x: Var, n: nat, id: int)
    requires b < |g| && n < |OpsOn(g[b].ops, x)|
    ensures DeadUpTo(g, b, x, n + 1, id) <==>
            DeadUpTo(g, b, x, n, id) || (DeadAt(g, x, b, n) && OpsOn(g[b].ops, x)[n].id == id)
  {}

  class Checker {
    const bld: Builder
    const escapes: set<Var>
    var seen: set<Block>
    var ineff: seq<int>

    constructor (bld: Builder, escapes: set<Var>)
      ensures this.bld == bld && this.escapes == escapes && seen == {} && ineff == []
    {
      this.bld, this.escapes, seen, ineff := bld, escapes, {}, [];
    }

    /** Whether a value that `x` has at the end of `b` is used, with one `seen` for all successors. */
    method UsedAfter(x: Var, b: Block) returns (r: bool)
      requires bld.Rep() && bld.IsBlock(b)
      ensures r <==> exists c :: EdgeTo(bld.g, b.id, c) && Used(bld.g, x, Pos(c, 0))
    {
      hide OpsOn, Builder.Rep, Reach;
      ghost var g := bld.g;
      bld.RepFacts();
      ChildrenOf(bld, b);
      var seen: set<Block> := {};
      r := false;
      for k := 0 to |b.children|
        invariant AllBlocks(bld, seen) && AllThrough(g, x, Numbers(seen)) && !r
        invariant forall j :: 0 <= j < k ==> !Used(g, x, Pos(b.children[j].id, 0))
      {
        ghost var before := seen;
        r, seen := FindUse(bld, x, b.children[k], seen);
        if r {
          assert EdgeTo(g, b.id, b.children[k].id);
          return;
        }
        SearchedAll(g, x, Numbers(before), Numbers(seen));
      }
    }

    /** Reports the dead assignments of a block to one variable. */
    method CheckVar(x: Var, b: Block)
      requires bld.Rep() && bld.IsBlock(b) && x in b.ops
      modifies `ineff
      ensures forall id {:trigger id in ineff} :: id in ineff <==> id in old(ineff) || DeadOn(bld.g, b.id, x, id)
    {
      hide OpsOn, Builder.Rep, Reach, Used;
      ghost var g := bld.g;
      bld.RepFacts();
      ChildrenOf(bld, b);
      var ops := b.ops[x];
      for i := 0 to |ops|
        invariant ops == OpsOn(g[b.id].ops, x)
        invariant forall id {:trigger id in ineff} :: id in ineff <==> id in old(ineff) || DeadUpTo(g, b.id, x, i, id)
      {
        ghost var before := ineff;
        var dead := ops[i].Assign?;
        if dead {
          if i + 1 < |ops| {
            dead := ops[i + 1].Assign?;
          } else {
            var used := UsedAfter(x, b);
            dead := !used;
          }
        }
        if dead { ineff := ineff + [ops[i].id]; }
        assert dead <==> DeadAt(g, x, b.id, i);
        forall id
          ensures id in ineff <==> id in old(ineff) || DeadUpTo(g, b.id, x, i + 1, id)
        {
          DeadUpToNext(g, b.id, x, i, id);
          assert id in before <==> id in old(ineff) || DeadUpTo(g, b.id, x, i, id);
        }
      }
      forall id
        ensures DeadUpTo(g, b.id, x, |ops|, id) <==> DeadOn(g, b.id, x, id)
      {
      }
    }

    /** Reports the dead assignments of a block. */
    method CheckBlock(b: Block)
      requires bld.Rep() && bld.IsBlock(b)
      modifies `ineff
      ensures forall id {:trigger id in ineff} :: id in ineff <==> id in old(ineff) || IsDead(bld.g, escapes, b.id, id)
    {
      hide OpsOn, Builder.Rep, DeadOn, IsDead;
      ghost var g := bld.g;
      bld.RepFacts();
      ChildrenOf(bld, b);
      var rest := b.ops.Keys;
      while rest != {}
        invariant rest <= b.ops.Keys
        invariant forall id {:trigger id in ineff} :: id in ineff <==>
                    id in old(ineff) || exists x :: x in b.ops && x !in rest && x !in escapes && DeadOn(g, b.id, x, id)
        decreases rest
      {
        ghost var some := SomeIn(rest);
        var x :| x in rest;
        rest := rest - {x};
        if x !in escapes { CheckVar(x, b); }
      }
      forall id
        ensures IsDead(g, escapes, b.id, id) <==> exists x :: x in b.ops && x !in escapes && DeadOn(g, b.id, x, id)
      {
        DeadIff(g, escapes, b.id, id);
        DeadHasOps(g, b);
      }
    }

    lemma DeadHasOps(g: Graph, b: Block)
      requires b.id < |g| && forall x :: (if x in b.ops then b.ops[x] else []) == OpsOn(g[b.id].ops, x)
      ensures forall x, id {:trigger DeadOn(g, b.id, x, id)} :: DeadOn(g, b.id, x, id) ==> x in b.ops
    {
      hide OpsOn;
    }

    /** Checks block `b` and all blocks below it that have not been seen. */
    method Check(b: Block)
      requires bld.Rep() && bld.IsBlock(b) && AllBlocks(bld, seen)
      modifies `seen, `ineff
      ensures AllBlocks(bld, seen) && old(seen) <= seen && b in seen
      ensures Below(bld.g, b.id, Numbers(old(seen)), Numbers(seen))
      ensures Reported(bld.g, escapes, Numbers(old(seen)), Numbers(seen), old(ineff), ineff)
      decreases SetOfBlocks(bld.blocks) - seen
    {
      hide Builder.Rep, IsDead, Connected;
      ghost var g := bld.g;
      bld.RepFacts();
      ghost var s0, r0 := Numbers(seen), ineff;
      NumbersHave(bld, seen, b);
      if b in seen { return; }
      NumbersAdd(seen, b);
      seen := seen + {b};
      CheckBlock(b);
      ChildrenOf(bld, b);
      ConnectedSelf(g, b.id);
      ghost var s1, r1 := Numbers(seen), ineff;
      for k := 0 to |b.children|
        invariant AllBlocks(bld, seen) && old(seen) + {b} <= seen && s1 <= Numbers(seen)
        invariant forall j :: 0 <= j < k ==> b.children[j] in seen
        invariant Below(g, b.id, s1, Numbers(seen))
        invariant Reported(g, escapes, s1, Numbers(seen), r1, ineff)
      {
        ghost var s2, r2 := Numbers(seen), ineff;
        Check(b.children[k]);
        BelowMore(g, b.id, b.children[k].id, s1, s2, Numbers(seen));
        ReportedMore(g, escapes, s1, s2, Numbers(seen), r1, r2, ineff);
      }
      forall c | c in g[b.id].children
        ensures c in Numbers(seen)
      {
        var j :| 0 <= j < |b.children| && b.children[j].id == c;
        NumbersHave(bld, seen, b.children[j]);
      }
      ReportedMore(g, escapes, s0, s1, Numbers(seen), r0, r1, ineff);
    }
  }

  /** The blocks added to `s` to give `t` can be reached from `b`, and their successors are in `t`. */
  ghost predicate Below(g: Graph, b: nat, s: set<nat>, t: set<nat>) {
    && s <= t
    && (forall v {:trigger Connected(g, b, v)} :: v in t && v !in s ==> Connected(g, b, v))
    && (forall v, w {:trigger EdgeTo(g, v, w)} :: v in t && v !in s && EdgeTo(g, v, w) ==> w in t)
  }

  lemma BelowMore(g: Graph, b: nat, c: nat, s: set<nat>, t: set<nat>, u: set<nat>)
    requires EdgeTo(g, b, c) && Below(g, b, s, t) && Below(g, c, t, u)
    ensures Below(g, b, s, u)
  {
    hide Connected;
    forall v | v in u && v !in s
      ensures Connected(g, b, v)
    {
      if v !in t {
        assert Connected(g, c, v);
        ConnectedBelow(g, b, c, v);
      }
    }
  }

  /** The reports made for the blocks added to `s`. */
  ghost predicate Reported(g: Graph, escapes: set<Var>, s: set<nat>, t: set<nat>, before: seq<int>, after: seq<int>) {
    forall id {:trigger id in after} ::
      id in after <==> id in before || exists v :: v in t && v !in s && IsDead(g, escapes, v, id)
  }

  lemma ReportedMore(g: Graph, escapes: set<Var>, s: set<nat>, t: set<nat>, u: set<nat>,
                     r0: seq<int>, r1: seq<int>, r2: seq<int>)
    requires s <= t <= u && Reported(g, escapes, s, t, r0, r1) && Reported(g, escapes, t, u, r1, r2)
    ensures Reported(g, escapes, s, u, r0, r2)
  {
    hide IsDead;
    forall id
      ensures id in r2 <==> id in r0 || exists v :: v in u && v !in s && IsDead(g, escapes, v, id)
    {
      assert id in r1 <==> id in r0 || exists v :: v in t && v !in s && IsDead(g, escapes, v, id);
      if v :| v in u && v !in s && IsDead(g, escapes, v, id) {
        assert v in t || v !in t;
      }
    }
  }

  // ----- what a report means -----

  /** In `tr`, the next operation on the variable after the assignment `id` is a use. */
  ghost predicate ReadNext(tr: seq<Op>, id: int) {
    exists i, j :: 0 <= i < j < |tr| && tr[i].Assign? && tr[i].id == id && tr[j] == Use(tr[i].x)
                   && forall k :: i < k < j ==> tr[k].x != tr[i].x
  }

  /** In no execution of `s`, however it goes and wherever it is cut off, is the value read. */
  ghost predicate Ineffectual(s: Stmt, id: int) {
    forall r :: !ReadNext(Trace(Meaning(s, [], [], None), r), id)
  }

  /** The graph was built for `s`, from the first block on: it lays out `s`, and has no edges
      but those of the layout. */
  ghost predicate BuiltFor(g: Graph, s: Stmt) {
    && AllIds(g) == multiset(Ids(s))
    && exists lay, b ::
        Walk(g, Env([], [], [], []), s, None, lay, Pos(0, 0), b) && Edges(g) == Drawing(s, lay, 0, b.blk)
  }

  lemma {:induction false} LastOpAt(tr: seq<Op>, i: nat, n: nat)
    requires i < n <= |tr| && tr[i].Assign? && forall k :: i < k < n ==> tr[k].x != tr[i].x
    ensures LastOp(tr[..n], tr[i].x) == WasAssign(tr[i].id)
    decreases n
  {
    assert tr[..n][..n - 1] == tr[..n - 1];
    if i < n - 1 { LastOpAt(tr, i, n - 1); }
  }

  /** A value that some execution reads has a use in the graph. */
  lemma ReadIsForeseen(g: Graph, s: Stmt, id: int, r: Run)
    requires BuiltFor(g, s) && ReadNext(Trace(Meaning(s, [], [], None), r), id)
    ensures exists x: Var, d: Pos :: After(g, x, id, d) && Used(g, x, d)
  {
    hide Walk, Meaning, Used, Ids, Trace, After, AllIds;
    var p := Meaning(s, [], [], None);
    var tr := Trace(p, r);
    var i, j :| 0 <= i < j < |tr| && tr[i].Assign? && tr[i].id == id && tr[j] == Use(tr[i].x)
                && forall k :: i < k < j ==> tr[k].x != tr[i].x;
    var lay, b :| Walk(g, Env([], [], [], []), s, None, lay, Pos(0, 0), b);
    WalkSound(g, tr[i].x, Env([], [], [], []), s, None, lay, Pos(0, 0), b, map[]);
    assert RunSound(g, tr[i].x, p, Pos(0, 0), b, map[], r);
    LastOpAt(tr, i, j);
    assert Foreseen(g, tr[i].x, Pos(0, 0), tr[..j]);
  }

  lemma ForeseenNotDead(g: Graph, escapes: set<Var>, s: Stmt, v: nat, id: int, y: Var, d: Pos)
    requires BuiltFor(g, s) && multiset(Ids(s))[id] <= 1
    requires After(g, y, id, d) && Used(g, y, d)
    ensures !IsDead(g, escapes, v, id)
  {
    hide Walk, Used, Ids, AllIds;
    if IsDead(g, escapes, v, id) {
      var x, c: Pos :| x !in escapes && c.blk == v && After(g, x, id, c) && !Used(g, x, c);
      OnePlace(g, id, c.blk, c.ix - 1, d.blk, d.ix - 1);
      assert false;
    }
  }

  /** A report is right: the assignment that was found dead in the graph is ineffectual. */
  lemma DeadIsIneffectual(g: Graph, escapes: set<Var>, s: Stmt, v: nat, id: int)
    requires BuiltFor(g, s) && IsDead(g, escapes, v, id) && multiset(Ids(s))[id] <= 1
    ensures Ineffectual(s, id)
  {
    hide BuiltFor, IsDead, Trace, ReadNext, Ids;
    forall r
      ensures !ReadNext(Trace(Meaning(s, [], [], None), r), id)
    {
      if ReadNext(Trace(Meaning(s, [], [], None), r), id) {
        ReadIsForeseen(g, s, id, r);
        var x: Var, d: Pos :| After(g, x, id, d) && Used(g, x, d);
        ForeseenNotDead(g, escapes, s, v, id, x, d);
        assert false;
      }
    }
  }

  lemma {:induction false} LastIsSomewhere(tr: seq<Op>, x: Var, id: int) returns (i: nat)
    requires LastOp(tr, x) == WasAssign(id)
    ensures i < |tr| && tr[i] == Assign(x, id) && forall k :: i < k < |tr| ==> tr[k].x != x
    decreases |tr|
  {
    i := |tr| - 1;
    if tr[i].x != x { i := LastIsSomewhere(tr[..i], x, id); }
  }

  lemma ReadIsNext(tr: seq<Op>, id: int)
    requires Read(tr, id)
    ensures ReadNext(tr, id)
  {
    var j :| 0 <= j < |tr| && tr[j].Use? && LastOp(tr[..j], tr[j].x) == WasAssign(id);
    var i := LastIsSomewhere(tr[..j], tr[j].x, id);
    assert tr[i] == Assign(tr[j].x, id) && tr[j] == Use(tr[i].x);
    assert forall k :: i < k < j ==> tr[k] == tr[..j][k];
  }

  /** What no execution reads next is harmless, if assignments read before they write. */
  lemma IneffectualIsHarmless(s: Stmt, id: int)
    requires Ineffectual(s, id) && WellFormed(s, [], [], None) && InOrder(s)
    ensures Harmless(s, id)
  {
    hide Harmless, Read, ReadNext, Trace, Meaning;
    var p := Meaning(s, [], [], None);
    forall r
      ensures !Read([] + Trace(p, r), id)
    {
      assert [] + Trace(p, r) == Trace(p, r);
      if Read(Trace(p, r), id) { ReadIsNext(Trace(p, r), id); }
    }
    CleanIsHarmless(s, id);
  }

  /** Builds the graph of a function body and checks it. The reports are exactly the assignments
      to variables that do not escape, in blocks below the first one, whose values are not used in
      the graph; and each of them is right. */
  method CheckFunction(s: Stmt, escapes: set<Var>) returns (ineff: seq<int>, ghost g: Graph)
    requires WellFormed(s, [], [], None)
    ensures BuiltFor(g, s)
    ensures forall id {:trigger id in ineff} :: id in ineff <==>
        exists v :: Connected(g, 0, v) && IsDead(g, escapes, v, id)
    ensures forall id :: id in ineff && multiset(Ids(s))[id] == 1 ==> Ineffectual(s, id)
    ensures InOrder(s) ==> forall id :: id in ineff && multiset(Ids(s))[id] == 1 ==> Harmless(s, id)
  {
    hide Builder.Rep, Visited, Drawn, BuiltFor, Ids, WellFormed, IsDead, Connected, Ineffectual, InOrder, Harmless;
    var bld := new Builder();
    var root := bld.block;
    bld.RepFacts();
    ghost var lay := bld.Visit(s, None);
    g := bld.g;
    var chk := new Checker(bld, escapes);
    chk.Check(root);
    ineff := chk.ineff;
    FirstBuilt(g, bld.env, s, lay);
    ChecksAll(g, escapes, Numbers(chk.seen), ineff);
    forall id | id in ineff && multiset(Ids(s))[id] == 1
      ensures Ineffectual(s, id)
    {
      var v :| Connected(g, 0, v) && IsDead(g, escapes, v, id);
      DeadIsIneffectual(g, escapes, s, v, id);
    }
    AllHarmless(s, ineff);
  }

  lemma AllHarmless(s: Stmt, ineff: seq<int>)
    requires WellFormed(s, [], [], None)
    requires forall id :: id in ineff && multiset(Ids(s))[id] == 1 ==> Ineffectual(s, id)
    ensures InOrder(s) ==> forall id :: id in ineff && multiset(Ids(s))[id] == 1 ==> Harmless(s, id)
  {
    hide WellFormed, InOrder, Harmless, Ineffectual, Ids;
    if InOrder(s) {
      forall id | id in ineff && multiset(Ids(s))[id] == 1
        ensures Harmless(s, id)
      {
        IneffectualIsHarmless(s, id);
      }
    }
  }

  lemma FirstBuilt(g: Graph, env: Env, s: Stmt, lay: Lay)
    requires Visited([BlockV([], [])], Env([], [], [], []), g, env, s, None, lay) && Drawn([BlockV([], [])], g, s, lay)
    ensures BuiltFor(g, s)
  {
    hide Walk, Grows, Ids, Drawing;
    assert env == Env([], [], [], []);
    assert [BlockV([], [])][..0] == [];
    assert AllIds([BlockV([], [])]) == multiset{};
    assert Edges([BlockV([], [])]) == iset{};
    assert Walk(g, Env([], [], [], []), s, None, lay, Pos(0, 0), HereIn(g));
  }

  lemma ChecksAll(g: Graph, escapes: set<Var>, seen: set<nat>, ineff: seq<int>)
    requires Below(g, 0, {}, seen) && 0 in seen && Reported(g, escapes, {}, seen, [], ineff)
    ensures forall id {:trigger id in ineff} :: id in ineff <==>
        exists v :: Connected(g, 0, v) && IsDead(g, escapes, v, id)
  {
    hide Connected, IsDead;
    forall v | Connected(g, 0, v)
      ensures v in seen
    {
      ClosedHasConnected(g, seen, 0, v);
    }
  }
}
