/** The builder of ineffassign: it turns a statement into a graph of blocks, one statement
    after the other, with stacks for the targets of break and continue. */
module IneffBuilder {
  import opened Options
  import opened IneffGraph
  import opened IneffLang
  import opened IneffLayout
  import opened IneffEdges
  import opened IneffGrowth
  import opened IneffDead

  lemma OpsOnMore(ops: seq<Op>, o: Op)
    ensures OpsOn(ops + [o], o.x) == OpsOn(ops, o.x) + [o]
    ensures forall x {:trigger OpsOn(ops + [o], x)} :: x != o.x ==> OpsOn(ops + [o], x) == OpsOn(ops, x)
  {
    forall x
      ensures OpsOn(ops + [o], x) == OpsOn(ops, x) + (if o.x == x then [o] else [])
    {
      OpsOnSnoc(ops, o, x);
    }
  }

  class Block {
    var children: seq<Block>
    var ops: map<Var, seq<Op>>
    ghost const id: nat

    constructor (ghost id: nat)
      ensures children == [] && ops == map[] && this.id == id
    {
      children, ops := [], map[];
      this.id := id;
    }

    method AddChild(c: Block)
      modifies `children
      ensures children == old(children) + [c]
    {
      children := children + [c];
    }
  }

  /** The target of a break or continue: sources are remembered until the block is known. */
  class Branch {
    var name: Option<Label>
    var srcs: seq<Block>
    var dst: Block?
    ghost var slot: Target
    ghost var ids: seq<nat>

    constructor (name: Option<Label>, ghost slot: Target)
      ensures this.name == name && srcs == [] && dst == null && this.slot == slot && ids == []
    {
      this.name, srcs, dst := name, [], null;
      this.slot, ids := slot, [];
    }
  }

  class Builder {
    var block: Block
    var breaks: seq<Branch>
    var continues: seq<Branch>

    // the graph as a value, its blocks in the order of their creation, and the objects in use
    ghost var g: Graph
    ghost var blocks: seq<Block>
    ghost var env: Env
    ghost var repr: set<object>
    // whether the innermost target of break, or of continue, has got its destination
    ghost var brkKnown: bool
    ghost var contKnown: bool

    ghost predicate BlockRep(i: nat)
      requires i < |blocks| == |g|
      reads `g, `blocks, `repr, blocks
    {
      var b := blocks[i];
      && b in repr && b.id == i
      && |b.children| == |g[i].children|
      && (forall k :: 0 <= k < |b.children| ==>
          g[i].children[k] < |blocks|
          && b.children[k] == blocks[g[i].children[k]])
      && (forall x :: (if x in b.ops then b.ops[x] else []) == OpsOn(g[i].ops, x))
    }

    ghost predicate BranchRep(br: Branch, slot: Target, name: Option<Label>, srcs: set<nat>)
      reads `blocks, `repr, br
    {
      && br in repr && br.slot == slot && br.name == name
      && (br.dst != null ==> br.dst.id < |blocks| && blocks[br.dst.id] == br.dst)
      && |br.ids| == |br.srcs|
      && (forall k :: 0 <= k < |br.ids| ==> br.ids[k] < |blocks| && br.srcs[k] == blocks[br.ids[k]])
      && srcs == SetOf(br.ids)
    }

    ghost predicate Rep()
      reads `block, `breaks, `continues, `g, `blocks, `env, `repr, `brkKnown, `contKnown, blocks, breaks, continues
    {
      && this !in repr && |blocks| == |g| > 0 && block == blocks[|g| - 1] && block in repr
      && (forall i {:trigger BlockRep(i)} :: 0 <= i < |blocks| ==> BlockRep(i))
      && ValidEnv(env) && |breaks| == |env.brk| && |continues| == |env.cont|
      && (forall k {:trigger breaks[k]} :: 0 <= k < |breaks| ==>
          BranchRep(breaks[k], Brk(k), env.brk[k], env.brkSrc[k]))
      && (forall k {:trigger continues[k]} :: 0 <= k < |continues| ==>
          BranchRep(continues[k], Cont(k), env.cont[k], env.contSrc[k]))
      && Known()
    }

    /** Only the innermost targets may have got their destinations. */
    ghost predicate Known()
      reads `breaks, `continues, `brkKnown, `contKnown, breaks`dst, continues`dst
    {
      && (forall k :: 0 <= k < |breaks| && breaks[k].dst != null ==> k == |breaks| - 1 && brkKnown)
      && (forall k :: 0 <= k < |continues| && continues[k].dst != null ==> k == |continues| - 1 && contKnown)
    }

    /** No target of break or continue has its destination yet: that comes after the body. */
    ghost predicate Open()
      reads `brkKnown, `contKnown
    {
      !brkKnown && !contKnown
    }

    ghost predicate BlockIs(b: Block?, i: Option<nat>)
      reads `blocks
    {
      if b == null then i.None? else i.Some? && i.value < |blocks| && b == blocks[i.value]
    }

    ghost predicate IsBlock(b: Block)
      reads `blocks
    {
      b.id < |blocks| && blocks[b.id] == b
    }

    /** The stacks are as before, and the blocks have only grown in number. */
    twostate predicate Grown()
      reads this, repr
    {
      && breaks == old(breaks) && continues == old(continues)
      && old(blocks) <= blocks && old(repr) <= repr && fresh(repr - old(repr))
    }

    /** Nothing but the graph has changed, and that has only grown. */
    twostate predicate Kept()
      reads this, repr
    {
      Grown() && (old(Open()) ==> Open())
    }

    /** The branches on the stacks have kept their sources. */
    twostate predicate IdsKept()
      reads this, breaks, continues
    {
      && breaks == old(breaks) && continues == old(continues)
      && (forall k :: 0 <= k < |breaks| ==>
          breaks[k].ids == old(breaks[k].ids)
          && breaks[k].srcs == old(breaks[k].srcs))
      && (forall k :: 0 <= k < |continues| ==>
          continues[k].ids == old(continues[k].ids)
          && continues[k].srcs == old(continues[k].srcs))
    }

    constructor ()
      ensures Rep() && Open() && fresh(repr) && g == [BlockV([], [])] && env == Env([], [], [], [])
    {
      var b := new Block(0);
      block, breaks, continues := b, [], [];
      g, blocks, env, repr := [BlockV([], [])], [b], Env([], [], [], []), {b};
      brkKnown, contKnown := false, false;
    }

    lemma RepFacts()
      requires Rep()
      ensures this !in repr && |blocks| == |g| > 0
      ensures block == blocks[|g| - 1] && block in repr && block.id == |g| - 1
      ensures ValidEnv(env) && |breaks| == |env.brk| && |continues| == |env.cont|
    {
      assert BlockRep(|g| - 1);
    }

    // ----- compound statements -----

    lemma IdOf(i: nat)
      requires Rep() && i < |blocks|
      ensures blocks[i].id == i && blocks[i] in repr
    {
      assert BlockRep(i);
    }

    /** Appends an operation to the current block. */
    method NewOp(o: Op)
      requires Rep()
      modifies `g, block`ops
      ensures Rep() && g == AddOps(old(g), |old(g)| - 1, [o])
    {
      hide OpsOn;
      label before:
      assert BlockRep(|g| - 1);
      OpsOnMore(g[|g| - 1].ops, o);
      block.ops := block.ops[o.x := (if o.x in block.ops then block.ops[o.x] else []) + [o]];
      g := AddOps(g, |g| - 1, [o]);
      forall i | 0 <= i < |blocks|
        ensures BlockRep(i)
      {
        assert old@before(BlockRep(i));
      }
    }

    method AddChild(b: Block, c: Block)
      requires Rep() && IsBlock(b) && IsBlock(c)
      modifies `g, b`children
      ensures Rep() && g == AddEdge(old(g), b.id, c.id)
    {
      label before:
      assert BlockRep(b.id);
      b.AddChild(c);
      g := AddEdge(g, b.id, c.id);
      forall i | 0 <= i < |blocks|
        ensures BlockRep(i)
      {
        assert old@before(BlockRep(i));
      }
    }

    method MakeBlock() returns (b: Block)
      requires Rep()
      modifies `g, `blocks, `block, `repr
      ensures Rep() && b == block && b.id == |old(g)| && IsBlock(b)
      ensures blocks == old(blocks) + [b] && repr == old(repr) + {b} && fresh(b)
      ensures g == old(g) + [BlockV([], [])]
    {
      label before:
      b := new Block(|g|);
      block, blocks, repr := b, blocks + [b], repr + {b};
      g := g + [BlockV([], [])];
      forall i | 0 <= i < |blocks|
        ensures BlockRep(i)
      {
        if i < |blocks| - 1 { assert old@before(BlockRep(i)); }
      }
    }

    /** A new current block below all of `parents`. */
    method NewBlock(parents: seq<Block>, ghost from: seq<nat>) returns (b: Block)
      requires Rep() && |from| == |parents|
      requires forall k :: 0 <= k < |parents| ==> from[k] < |blocks| && parents[k] == blocks[from[k]]
      modifies `g, `blocks, `block, `repr, repr
      ensures Rep() && b == block && b.id == |old(g)| && IsBlock(b)
      ensures IdsKept()
      ensures blocks == old(blocks) + [b] && repr == old(repr) + {b} && fresh(b)
      ensures g == AddBlock(old(g), from)
    {
      hide Rep;
      RepFacts();
      b := MakeBlock();
      for k := 0 to |parents|
        invariant Rep() && block == b && blocks == old(blocks) + [b] && repr == old(repr) + {b} && IdsKept()
        invariant g == AddEdges(old(g) + [BlockV([], [])], from[..k], |old(g)|)
      {
        assert from[..k + 1][..k] == from[..k];
        RepFacts();
        IdOf(from[k]);
        AddChild(parents[k], b);
      }
      assert from[..|parents|] == from;
      RepFacts();
    }

    // ----- the stacks of branches -----

    method PushBreak(name: Option<Label>) returns (br: Branch)
      requires Rep() && !brkKnown
      modifies `breaks, `env, `repr
      ensures Rep() && breaks == old(breaks) + [br] && repr == old(repr) + {br} && fresh(br)
      ensures env == old(env).(brk := old(env).brk + [name], brkSrc := old(env).brkSrc + [{}])
    {
      label before:
      br := new Branch(name, Brk(|breaks|));
      breaks, repr := breaks + [br], repr + {br};
      env := env.(brk := env.brk + [name], brkSrc := env.brkSrc + [{}]);
      forall i | 0 <= i < |blocks|
        ensures BlockRep(i)
      {
        assert old@before(BlockRep(i));
      }
    }

    method PushContinue(name: Option<Label>) returns (br: Branch)
      requires Rep() && !contKnown
      modifies `continues, `env, `repr
      ensures Rep() && continues == old(continues) + [br] && repr == old(repr) + {br} && fresh(br)
      ensures env == old(env).(cont := old(env).cont + [name], contSrc := old(env).contSrc + [{}])
    {
      label before:
      br := new Branch(name, Cont(|continues|));
      continues, repr := continues + [br], repr + {br};
      env := env.(cont := env.cont + [name], contSrc := env.contSrc + [{}]);
      forall i | 0 <= i < |blocks|
        ensures BlockRep(i)
      {
        assert old@before(BlockRep(i));
      }
    }

    method PopBreak()
      requires Rep() && |breaks| > 0
      modifies `breaks, `env, `brkKnown
      ensures Rep() && !brkKnown && breaks == old(breaks)[..|old(breaks)| - 1]
      ensures env == old(env).(brk := old(env).brk[..|old(breaks)| - 1], brkSrc := old(env).brkSrc[..|old(breaks)| - 1])
    {
      label before:
      env := env.(brk := env.brk[..|breaks| - 1], brkSrc := env.brkSrc[..|breaks| - 1]);
      breaks, brkKnown := breaks[..|breaks| - 1], false;
      forall i | 0 <= i < |blocks|
        ensures BlockRep(i)
      {
        assert old@before(BlockRep(i));
      }
    }

    method PopContinue()
      requires Rep() && |continues| > 0
      modifies `continues, `env, `contKnown
      ensures Rep() && !contKnown && continues == old(continues)[..|old(continues)| - 1]
      ensures env == old(env).(cont := old(env).cont[..|old(continues)| - 1],
          contSrc := old(env).contSrc[..|old(continues)| - 1])
    {
      label before:
      env := env.(cont := env.cont[..|continues| - 1], contSrc := env.contSrc[..|continues| - 1]);
      continues, contKnown := continues[..|continues| - 1], false;
      forall i | 0 <= i < |blocks|
        ensures BlockRep(i)
      {
        assert old@before(BlockRep(i));
      }
    }

    /** The innermost branch, or the innermost one with the label. */
    method Get(stack: seq<Branch>, l: Option<Label>, ghost names: seq<Option<Label>>) returns (k: nat)
      requires |stack| == |names| && forall i :: 0 <= i < |stack| ==> stack[i].name == names[i]
      requires Find(names, l) < |names|
      ensures k == Find(names, l)
    {
      k := |stack| - 1;
      while !(l.None? || stack[k].name == l)
        invariant Find(names, l) <= k < |stack|
        invariant forall j :: k < j < |stack| ==> l.Some? && names[j] != l
        decreases k
      {
        k := k - 1;
      }
    }

    ghost predicate InStack(br: Branch, t: Target)
      reads `breaks, `continues
    {
      match t
      case Brk(k) => k < |breaks| && br == breaks[k]
      case Cont(k) => k < |continues| && br == continues[k]
    }

    method RememberBreak(br: Branch, ghost k: nat)
      requires Rep() && k < |breaks| && br == breaks[k]
      modifies `env, br`srcs, br`ids
      ensures Rep() && env == WithSource(old(env), Brk(k), |g| - 1)
    {
      hide OpsOn;
      label before:
      BranchInStack(br, Brk(k));
      ghost var ids := br.ids;
      br.srcs := br.srcs + [block];
      br.ids := br.ids + [|g| - 1];
      assert SetOf(br.ids) == SetOf(ids) + {|g| - 1};
      env := WithSource(env, Brk(k), |g| - 1);
      forall i | 0 <= i < |blocks|
        ensures BlockRep(i)
      {
        assert old@before(BlockRep(i));
      }
      forall j | 0 <= j < |breaks|
        ensures BranchRep(breaks[j], Brk(j), env.brk[j], env.brkSrc[j])
      {
        assert old@before(BranchRep(breaks[j], Brk(j), env.brk[j], env.brkSrc[j]));
      }
    }

    method RememberContinue(br: Branch, ghost k: nat)
      requires Rep() && k < |continues| && br == continues[k]
      modifies `env, br`srcs, br`ids
      ensures Rep() && env == WithSource(old(env), Cont(k), |g| - 1)
    {
      hide OpsOn;
      label before:
      BranchInStack(br, Cont(k));
      ghost var ids := br.ids;
      br.srcs := br.srcs + [block];
      br.ids := br.ids + [|g| - 1];
      assert SetOf(br.ids) == SetOf(ids) + {|g| - 1};
      env := WithSource(env, Cont(k), |g| - 1);
      forall i | 0 <= i < |blocks|
        ensures BlockRep(i)
      {
        assert old@before(BlockRep(i));
      }
      forall j | 0 <= j < |continues|
        ensures BranchRep(continues[j], Cont(j), env.cont[j], env.contSrc[j])
      {
        assert old@before(BranchRep(continues[j], Cont(j), env.cont[j], env.contSrc[j]));
      }
    }

    /** The current block becomes a source of the branch for `t`. */
    method AddSource(br: Branch, t: Target)
      requires Rep() && InStack(br, t)
      modifies `g, `env, br`srcs, br`ids, block`children
      ensures Rep() && env == WithSource(old(env), t, |g| - 1)
      ensures g == if br.dst == null then old(g) else AddEdge(old(g), |old(g)| - 1, br.dst.id)
    {
      assert t.Brk? ==> BranchRep(breaks[t.depth], t, env.brk[t.depth], env.brkSrc[t.depth]);
      assert t.Cont? ==> BranchRep(continues[t.depth], t, env.cont[t.depth], env.contSrc[t.depth]);
      assert BlockRep(|g| - 1);
      match t {
        case Brk(k) => RememberBreak(br, k);
        case Cont(k) => RememberContinue(br, k);
      }
      if br.dst != null {
        AddChild(block, br.dst);
      }
    }

    /** A branch is on the stacks once. */
    lemma SlotIs(br: Branch, t: Target)
      requires Rep() && InStack(br, t)
      ensures forall k :: 0 <= k < |breaks| && breaks[k] == br ==> t == Brk(k)
      ensures forall k :: 0 <= k < |continues| && continues[k] == br ==> t == Cont(k)
      ensures br.slot == t && br in repr
    {
      forall k | 0 <= k < |breaks|
        ensures BranchRep(breaks[k], Brk(k), env.brk[k], env.brkSrc[k])
      {}
      forall k | 0 <= k < |continues|
        ensures BranchRep(continues[k], Cont(k), env.cont[k], env.contSrc[k])
      {}
    }

    ghost predicate Innermost(br: Branch, t: Target)
      reads `breaks, `continues
    {
      InStack(br, t) && (if t.Brk? then t.depth == |breaks| - 1 else t.depth == |continues| - 1)
    }

    /** Of what is known about destinations, only that of `t` is new. */
    twostate predicate Settled(t: Target)
      reads `brkKnown, `contKnown
    {
      (t.Brk? ==> contKnown == old(contKnown)) && (t.Cont? ==> brkKnown == old(brkKnown))
    }

    /** The destination of `t` is about to be known. */
    ghost method Settle(t: Target)
      requires Rep()
      modifies `brkKnown, `contKnown
      ensures Rep() && Settled(t) && (if t.Brk? then brkKnown else contKnown)
    {
      hide BlockRep, BranchRep;
      brkKnown, contKnown := brkKnown || t.Brk?, contKnown || t.Cont?;
    }

    /** The block is known; a later source would be connected at once. */
    method SetDst(br: Branch, dst: Block, ghost t: Target)
      requires Rep() && IsBlock(dst) && Innermost(br, t) && (if t.Brk? then brkKnown else contKnown)
      modifies br`dst
      ensures Rep() && br.dst == dst
    {
      hide BlockRep, SetOf;
      SlotIs(br, t);
      label before:
      br.dst := dst;
      assert Known() by {
        forall k | 0 <= k < |breaks| && breaks[k].dst != null
          ensures k == |breaks| - 1 && brkKnown
        {
          assert breaks[k] == br || old@before(breaks[k].dst) != null;
        }
        forall k | 0 <= k < |continues| && continues[k].dst != null
          ensures k == |continues| - 1 && contKnown
        {
          assert continues[k] == br || old@before(continues[k].dst) != null;
        }
      }
      forall i | 0 <= i < |blocks|
        ensures BlockRep(i)
      {
        assert old@before(BlockRep(i));
      }
      forall k | 0 <= k < |breaks|
        ensures BranchRep(breaks[k], Brk(k), env.brk[k], env.brkSrc[k])
      {
        assert old@before(BranchRep(breaks[k], Brk(k), env.brk[k], env.brkSrc[k]));
      }
      forall k | 0 <= k < |continues|
        ensures BranchRep(continues[k], Cont(k), env.cont[k], env.contSrc[k])
      {
        assert old@before(BranchRep(continues[k], Cont(k), env.cont[k], env.contSrc[k]));
      }
    }

    /** The sources of the branch are blocks of the graph. */
    ghost predicate Sources(br: Branch)
      reads `blocks, br
    {
      && |br.ids| == |br.srcs|
      && (forall k :: 0 <= k < |br.ids| ==> br.ids[k] < |blocks| && br.srcs[k] == blocks[br.ids[k]])
    }

    /** All sources of the branch get an edge to `dst`. */
    method SetDestination(br: Branch, dst: Block, ghost t: Target)
      requires Rep() && IsBlock(dst) && Innermost(br, t)
      modifies `g, `brkKnown, `contKnown, repr
      ensures Rep() && IdsKept() && Settled(t)
      ensures forall k :: 0 <= k < |br.ids| ==> br.ids[k] < |old(g)|
      ensures g == AddEdges(old(g), br.ids, dst.id)
    {
      hide Rep;
      RepFacts();
      BranchInStack(br, t);
      Settle(t);
      SetDst(br, dst, t);
      AddSources(br, dst);
    }

    method AddSources(br: Branch, dst: Block)
      requires Rep() && IsBlock(dst) && Sources(br)
      modifies `g, set b: Block | b in repr
      ensures Rep() && IdsKept()
      ensures forall k :: 0 <= k < |br.ids| ==> br.ids[k] < |old(g)|
      ensures g == AddEdges(old(g), br.ids, dst.id)
    {
      hide Rep;
      RepFacts();
      for k := 0 to |br.srcs|
        invariant Rep() && IdsKept()
        invariant g == AddEdges(old(g), br.ids[..k], dst.id)
      {
        RepFacts();
        assert br.ids[..k + 1][..k] == br.ids[..k];
        IdOf(br.ids[k]);
        AddChild(br.srcs[k], dst);
      }
      assert br.ids[..|br.srcs|] == br.ids;
    }

    lemma BranchInStack(br: Branch, t: Target)
      requires Rep() && InStack(br, t)
      ensures br in repr && this !in repr && |br.ids| == |br.srcs|
      ensures forall k :: 0 <= k < |br.ids| ==> br.ids[k] < |blocks| && br.srcs[k] == blocks[br.ids[k]]
      ensures t.Brk? ==> env.brkSrc[t.depth] == SetOf(br.ids)
      ensures t.Cont? ==> env.contSrc[t.depth] == SetOf(br.ids)
    {
      assert t.Brk? ==> BranchRep(breaks[t.depth], t, env.brk[t.depth], env.brkSrc[t.depth]);
      assert t.Cont? ==> BranchRep(continues[t.depth], t, env.cont[t.depth], env.contSrc[t.depth]);
    }

    /** A new block below `parents` that is also the destination of the branch. */
    method Join(parents: seq<Block>, ghost from: seq<nat>, br: Branch, ghost t: Target) returns (b: Block)
      requires Rep() && |from| == |parents| && Innermost(br, t)
      requires forall k :: 0 <= k < |parents| ==> from[k] < |blocks| && parents[k] == blocks[from[k]]
      modifies `g, `blocks, `block, `repr, `brkKnown, `contKnown, repr
      ensures Rep() && IdsKept() && blocks == old(blocks) + [b] && repr == old(repr) + {b} && fresh(b)
      ensures Settled(t)
      ensures (forall k :: 0 <= k < |br.ids| ==> br.ids[k] < |old(g)|) && IsBlock(b)
      ensures g == AddEdges(AddBlock(old(g), from), br.ids, |old(g)|)
    {
      hide Rep, AddBlock, AddEdges;
      RepFacts();
      BranchInStack(br, t);
      b := NewBlock(parents, from);
      RepFacts();
      SetDestination(br, b, t);
    }

    // ----- simple statements -----

    /** Appends uses of all of `vs`. */
    method UseAll(vs: seq<Var>)
      requires Rep()
      modifies `g, block`ops
      ensures Rep() && g == AddOps(old(g), |old(g)| - 1, UsesOf(vs))
    {
      hide Rep, AddOps;
      RepFacts();
      AddOpsNone(g, |g| - 1);
      for k := 0 to |vs|
        invariant Rep() && g == AddOps(old(g), |old(g)| - 1, UsesOf(vs[..k]))
      {
        NewOp(Use(vs[k]));
        AddOpsTwice(old(g), |old(g)| - 1, UsesOf(vs[..k]), [Use(vs[k])]);
        assert UsesOf(vs[..k + 1]) == UsesOf(vs[..k]) + [Use(vs[k])];
      }
      assert vs[..|vs|] == vs;
    }

    method VisitLhs(l: Lhs, opAssign: bool)
      requires Rep()
      modifies `g, block`ops
      ensures Rep() && g == AddOps(old(g), |old(g)| - 1, LhsOps(l, opAssign))
    {
      hide Rep, AddOps;
      RepFacts();
      match l {
        case Other(uses) => UseAll(uses);
        case Ident(x, id, zero) =>
          AddOpsNone(g, |g| - 1);
          if opAssign {
            NewOp(Use(x));
          }
          ghost var g1 := g;
          if zero {
            NewOp(Use(x));
          } else {
            NewOp(Assign(x, id));
          }
          AddOpsTwice(old(g), |old(g)| - 1, if opAssign then [Use(x)]
              else [], [if zero then Use(x) else Assign(x, id)]);
      }
    }

    method VisitLhss(ls: seq<Lhs>, opAssign: bool)
      requires Rep()
      modifies `g, block`ops
      ensures Rep() && g == AddOps(old(g), |old(g)| - 1, AllLhsOps(ls, opAssign))
    {
      hide Rep, AddOps;
      RepFacts();
      AddOpsNone(g, |g| - 1);
      for k := 0 to |ls|
        invariant Rep() && g == AddOps(old(g), |old(g)| - 1, AllLhsOps(ls[..k], opAssign))
      {
        VisitLhs(ls[k], opAssign);
        AddOpsTwice(old(g), |old(g)| - 1, AllLhsOps(ls[..k], opAssign), LhsOps(ls[k], opAssign));
        AllLhsOpsSnoc(ls, opAssign, k);
      }
      assert ls[..|ls|] == ls;
    }

    method VisitNames(names: seq<(Var, int)>, hasValues: bool)
      requires Rep()
      modifies `g, block`ops
      ensures Rep() && g == AddOps(old(g), |old(g)| - 1, DeclOps(names, hasValues))
    {
      hide Rep, AddOps;
      RepFacts();
      AddOpsNone(g, |g| - 1);
      for k := 0 to |names|
        invariant Rep() && g == AddOps(old(g), |old(g)| - 1, DeclOps(names[..k], hasValues))
      {
        var o := if hasValues then Assign(names[k].0, names[k].1) else Use(names[k].0);
        NewOp(o);
        AddOpsTwice(old(g), |old(g)| - 1, DeclOps(names[..k], hasValues), [o]);
        DeclOpsSnoc(names, hasValues, k);
      }
      assert names[..|names|] == names;
    }

    method VisitSimple(s: Stmt)
      requires Rep() && IsSimple(s)
      modifies `g, block`ops
      ensures Rep() && g == AddOps(old(g), |old(g)| - 1, SimpleOps(s))
    {
      hide Rep, AddOps;
      RepFacts();
      AddOpsNone(g, |g| - 1);
      match s {
        case Empty =>
        case Expr(uses) => UseAll(uses);
        case AssignStmt(lhs, opAssign, rhs) =>
          UseAll(rhs);
          VisitLhss(lhs, opAssign);
          AddOpsTwice(old(g), |old(g)| - 1, UsesOf(rhs), AllLhsOps(lhs, opAssign));
        case VarDecl(names, hasValues, values) =>
          UseAll(values);
          VisitNames(names, hasValues);
          AddOpsTwice(old(g), |old(g)| - 1, UsesOf(values), DeclOps(names, hasValues));
        case IncDec(l) =>
          match l {
            case Ident(x, id, _) =>
              NewOp(Use(x));
              NewOp(Assign(x, id));
              AddOpsTwice(old(g), |old(g)| - 1, [Use(x)], [Assign(x, id)]);
              assert [Use(x)] + [Assign(x, id)] == SimpleOps(s);
            case Other(uses) => UseAll(uses);
          }
      }
    }

    /** Adds `s`, with label `l` in front, to the graph: afterwards the graph lays out `s` from
        the position where the builder was to the position where it is, and its edges are exactly
        the old ones and those of this layout. */
    method Visit(s: Stmt, l: Option<Label>) returns (ghost lay: Lay)
      requires Rep() && Open() && WellFormed(s, env.brk, env.cont, l)
      modifies this, repr
      ensures Rep() && Kept() && Visited(old(g), old(env), g, env, s, l, lay) && Drawn(old(g), g, s, lay)
      decreases s, 4
    {
      hide Rep, Visited, Drawn, WellFormed;
      match s {
        case Then(_, _) => lay := VisitThen(s, l);
        case If(_, _, _, _) => lay := VisitIf(s, l);
        case For(_, _, _, _) => lay := VisitFor(s, l);
        case Range(_, _, _) => lay := VisitRange(s, l);
        case Switch(_, _, _) => lay := VisitSwitch(s, l);
        case Labeled(_, _) => lay := VisitLabeled(s, l);
        case Break(_) => lay := VisitJump(s, l);
        case Continue(_) => lay := VisitJump(s, l);
        case Return(_) => lay := VisitReturn(s, l);
        case _ => lay := VisitPlain(s, l);
      }
    }

    method VisitPlain(s: Stmt, l: Option<Label>) returns (ghost lay: Lay)
      requires Rep() && IsSimple(s)
      modifies this, repr
      ensures Rep() && Kept() && Visited(old(g), old(env), g, env, s, l, lay) && Drawn(old(g), g, s, lay)
      decreases s, 3
    {
      hide Rep, Visited, Drawn;
      RepFacts();
      VisitSimple(s);
      SimpleLaid(old(g), env, s, l);
      SimpleDrawn(old(g), SimpleOps(s), s);
      lay := LSimple;
    }

    method VisitThen(s: Stmt, l: Option<Label>) returns (ghost lay: Lay)
      requires Rep() && Open() && s.Then? && WellFormed(s, env.brk, env.cont, l)
      modifies this, repr
      ensures Rep() && Kept() && Visited(old(g), old(env), g, env, s, l, lay) && Drawn(old(g), g, s, lay)
      decreases s, 3
    {
      hide Rep, Visited, Drawn;
      ghost var l1 := Visit(s.first, None);
      ghost var g1, env1 := g, env;
      VisitedFacts(old(g), old(env), g, env, s.first, None, l1);
      ghost var l2 := Visit(s.second, None);
      lay := LThen(l1, HereIn(g1), l2);
      ThenLaid(old(g), g1, g, old(env), env1, env, s.first, s.second, l, l1, l2);
      ThenDrawn(old(g), g1, g, s.first, s.second, l1, l2);
    }

    method VisitLabeled(s: Stmt, l: Option<Label>) returns (ghost lay: Lay)
      requires Rep() && Open() && s.Labeled? && WellFormed(s, env.brk, env.cont, l)
      modifies this, repr
      ensures Rep() && Kept() && Visited(old(g), old(env), g, env, s, l, lay) && Drawn(old(g), g, s, lay)
      decreases s, 3
    {
      hide Rep, Visited, Drawn, DrawnBelow, LaidOut, Widens;
      RepFacts();
      var b;
      ghost var l1;
      b, l1 := VisitBelow([block], [|g| - 1], s.stmt, Some(s.name));
      LabeledLaid(old(g), g, old(env), env, s.name, s.stmt, l, l1);
      LabeledDrawn(old(g), g, s.name, s.stmt, l1);
      lay := LLabeled(|old(g)|, l1);
    }

    method VisitReturn(s: Stmt, l: Option<Label>) returns (ghost lay: Lay)
      requires Rep() && s.Return?
      modifies this, repr
      ensures Rep() && Kept() && Visited(old(g), old(env), g, env, s, l, lay) && Drawn(old(g), g, s, lay)
      decreases s, 3
    {
      hide Rep, Visited, Drawn;
      RepFacts();
      UseAll(s.uses);
      ReturnLaid(old(g), env, s.uses, l);
      SimpleDrawn(old(g), UsesOf(s.uses), s);
      lay := LSimple;
    }

    /** Adds `s` in a new block below `parents`. */
    method VisitBelow(parents: seq<Block>, ghost from: seq<nat>, s: Stmt, l: Option<Label>)
        returns (b: Block, ghost lay: Lay)
      requires Rep() && Open() && WellFormed(s, env.brk, env.cont, l) && |from| == |parents|
      requires forall k :: 0 <= k < |parents| ==> from[k] < |blocks| && parents[k] == blocks[from[k]]
      modifies this, repr
      ensures Rep() && Kept() && Widens(old(env), env) && LaidOut(old(g), from, g, env, s, l, lay)
      ensures DrawnBelow(old(g), from, g, s, lay)
      ensures IsBlock(b) && b.id == |old(g)|
      decreases s, 5
    {
      hide Rep, Walk, Widens, Visited, AddBlock, LaidOut, Drawn, DrawnBelow;
      RepFacts();
      b := NewBlock(parents, from);
      ghost var g1 := g;
      lay := Visit(s, l);
      RepFacts();
      VisitedBelow(old(g), from, g1, g, old(env), env, s, l, lay);
      BelowDrawn(old(g), from, g, s, lay);
    }

    /** The else part of `s`, if there is one: the block where the other way ends. */
    method VisitElse(s: Stmt, b0: Block) returns (b: Block, ghost lay: Lay)
      requires Rep() && Open() && IsBlock(b0) && s.If? && WellFormed(s, env.brk, env.cont, None)
      modifies this, repr
      ensures Rep() && Kept() && Widens(old(env), env) && IsBlock(b)
      ensures s.els.None? ==> b == b0 && g == old(g)
      ensures s.els.Some? ==> LaidOut(old(g), [b0.id], g, env, s.els.value, None, lay) && b.id == |g| - 1
      ensures s.els.Some? ==> DrawnBelow(old(g), [b0.id], g, s.els.value, lay)
      decreases s, 2
    {
      hide Rep, Walk, Grows, LaidOut, DrawnBelow;
      RepFacts();
      b, lay := b0, LSimple;
      if s.els.Some? {
        b, lay := VisitBelow([b0], [b0.id], s.els.value, None);
        RepFacts();
        b := block;
      } else {
        WidensSelf(env);
      }
    }

    /** The simple statement and the condition at the beginning of a statement. */
    method VisitCond(init: Stmt, cond: seq<Var>)
      requires Rep() && IsSimple(init)
      modifies `g, block`ops
      ensures Rep() && g == AddOps(old(g), |old(g)| - 1, SimpleOps(init) + UsesOf(cond))
    {
      hide Rep, AddOps;
      RepFacts();
      VisitSimple(init);
      UseAll(cond);
      CondDone(old(g), SimpleOps(init), cond);
    }

    method VisitIf(s: Stmt, l: Option<Label>) returns (ghost lay: Lay)
      requires Rep() && Open() && s.If? && WellFormed(s, env.brk, env.cont, l)
      modifies this, repr
      ensures Rep() && Kept() && Visited(old(g), old(env), g, env, s, l, lay) && Drawn(old(g), g, s, lay)
      decreases s, 3
    {
      hide Rep, Walk, Grows, AddOps, AllIds, SimpleOps, UsesOf, LaidOut, AddBlock, Visited, Drawn, DrawnBelow;
      RepFacts();
      VisitCond(s.init, s.cond);
      ghost var gc := g;
      RepFacts();
      var b0 := block;
      var b1;
      ghost var l1;
      b1, l1 := VisitBelow([b0], [b0.id], s.thn, None);
      RepFacts();
      b1 := block;
      ghost var g1, env1 := g, env;
      ghost var l2;
      b0, l2 := VisitElse(s, b0);
      RepFacts();
      ghost var g2 := g;
      var join := NewBlock([b0, b1], [b0.id, b1.id]);
      hide Widens, WellFormed, HereIn;
      lay := IfDone(old(g), gc, g1, g2, g, old(env), env1, env, s, l, l1, l2);
    }

    method EnterLoop(l: Option<Label>) returns (brek: Branch, continu: Branch)
      requires Rep() && Open()
      modifies `breaks, `continues, `env, `repr
      ensures Rep() && breaks == old(breaks) + [brek] && continues == old(continues) + [continu]
      ensures repr == old(repr) + {brek, continu} && fresh({brek, continu})
      ensures ValidEnv(old(env)) && env == Inside(old(env), l, {}, {})
    {
      hide Rep;
      RepFacts();
      brek := PushBreak(l);
      continu := PushContinue(l);
    }

    method LeaveLoop()
      requires Rep() && |breaks| > 0 && |continues| > 0
      modifies `breaks, `continues, `env, `brkKnown, `contKnown
      ensures Rep() && Open() && Popped(old(env), env)
      ensures breaks == old(breaks)[..|old(breaks)| - 1] && continues == old(continues)[..|old(continues)| - 1]
    {
      hide Rep;
      RepFacts();
      PopBreak();
      PopContinue();
    }

    /** The initial statement of a loop, and the block of its condition. */
    method ForStart(s: Stmt) returns (start: Block)
      requires Rep() && s.For? && IsSimple(s.init)
      modifies this, repr
      ensures Rep() && Kept() && env == old(env)
      ensures g == ForHead(old(g), SimpleOps(s.init), UsesOf(s.cond)) && IsBlock(start) && start.id == |old(g)|
    {
      hide Rep, SimpleOps, UsesOf;
      RepFacts();
      VisitSimple(s.init);
      RepFacts();
      start := NewBlock([block], [|g| - 1]);
      RepFacts();
      UseAll(s.cond);
    }

    /** The post statement, below the end of the body and of continue, and the way back. */
    method ForPost(post: Stmt, start: Block, continu: Branch)
      requires Rep() && IsSimple(post) && IsBlock(start) && |continues| > 0 && continu == continues[|continues| - 1]
      modifies this, repr
      ensures Rep() && Grown() && IdsKept() && env == old(env)
      ensures (forall k :: 0 <= k < |continu.ids| ==> continu.ids[k] < |old(g)|)
      ensures g == ForBack(old(g), SimpleOps(post), start.id, continu.ids)
    {
      hide Rep, SimpleOps, AddBlock, AddEdges, AddEdge, AddOps, SetOf;
      RepFacts();
      var next := Join([block], [|g| - 1], continu, Cont(|continues| - 1));
      RepFacts();
      VisitSimple(post);
      RepFacts();
      AddChild(block, start);
    }

    /** The end of a loop: continue goes to the post statement, that to the condition, and the
        condition and break go to the block after the loop. */
    method ForEnd(post: Stmt, start: Block, brek: Branch, continu: Branch)
      requires Rep() && IsSimple(post) && IsBlock(start) && |breaks| > 0 && |continues| > 0
      requires brek == breaks[|breaks| - 1] && continu == continues[|continues| - 1]
      modifies this, repr
      ensures Rep() && Grown() && env == old(env) && brek.ids == old(brek.ids) && continu.ids == old(continu.ids)
      ensures env.brkSrc[|breaks| - 1] == SetOf(brek.ids) && env.contSrc[|continues| - 1] == SetOf(continu.ids)
      ensures (forall k :: 0 <= k < |brek.ids| ==> brek.ids[k] < |old(g)|)
      ensures (forall k :: 0 <= k < |continu.ids| ==> continu.ids[k] < |old(g)|)
      ensures g == ForTail(old(g), SimpleOps(post), start.id, continu.ids, brek.ids)
    {
      hide Rep, SimpleOps, AddBlock, AddEdges, ForBack, SetOf;
      RepFacts();
      BranchInStack(brek, Brk(|breaks| - 1));
      BranchInStack(continu, Cont(|continues| - 1));
      ForPost(post, start, continu);
      RepFacts();
      var after := Join([start], [start.id], brek, Brk(|breaks| - 1));
    }

    /** The end of a for statement, and of what its branches may mean. */
    method EndFor(post: Stmt, start: Block, brek: Branch, continu: Branch)
      returns (ghost cont: seq<nat>, ghost brk: seq<nat>)
      requires Rep() && IsSimple(post) && IsBlock(start) && |breaks| > 0 && |continues| > 0
      requires brek == breaks[|breaks| - 1] && continu == continues[|continues| - 1]
      modifies this, repr
      ensures Rep() && Open() && Popped(old(env), env)
      ensures breaks == old(breaks)[..|old(breaks)| - 1] && continues == old(continues)[..|old(continues)| - 1]
      ensures old(blocks) <= blocks && old(repr) <= repr && fresh(repr - old(repr))
      ensures old(env).brkSrc[|env.brk|] == SetOf(brk) && old(env).contSrc[|env.cont|] == SetOf(cont)
      ensures (forall k :: 0 <= k < |brk| ==> brk[k] < |old(g)|) && (forall k :: 0 <= k < |cont| ==> cont[k] < |old(g)|)
      ensures g == ForTail(old(g), SimpleOps(post), start.id, cont, brk)
    {
      hide Rep, ForTail, SetOf;
      RepFacts();
      ForEnd(post, start, brek, continu);
      RepFacts();
      cont, brk := continu.ids, brek.ids;
      LeaveLoop();
    }

    method VisitFor(s: Stmt, l: Option<Label>) returns (ghost lay: Lay)
      requires Rep() && Open() && s.For? && WellFormed(s, env.brk, env.cont, l)
      modifies this, repr
      ensures Rep() && Kept() && Visited(old(g), old(env), g, env, s, l, lay) && Drawn(old(g), g, s, lay)
      decreases s, 3
    {
      hide Rep, Walk, Grows, AllIds, SimpleOps, UsesOf, LaidOut, ForHead, ForTail, Visited, Drawn, DrawnBelow;
      RepFacts();
      var brek, continu := EnterLoop(l);
      var start := ForStart(s);
      ghost var gt := g;
      var inner;
      ghost var l1;
      inner, l1 := VisitBelow([start], [start.id], s.body, None);
      ghost var gb, env2 := g, env;
      RepFacts();
      ghost var cont, brk := EndFor(s.post, start, brek, continu);
      lay := ForDone(old(g), gt, gb, g, old(env), env2, env, s, l, l1, cont, brk);
    }

    /** What is ranged over, the block before the loop, and the block that assigns the variables. */
    method RangeStart(s: Stmt) returns (pre: Block, start: Block)
      requires Rep() && s.Range?
      modifies this, repr
      ensures Rep() && Kept() && env == old(env) && block == start
      ensures g == RangeHead(old(g), UsesOf(s.over), AllLhsOps(s.vars, false))
      ensures IsBlock(pre) && pre.id == |old(g)| && IsBlock(start) && start.id == |old(g)| + 1
    {
      hide Rep, UsesOf, AllLhsOps;
      RepFacts();
      UseAll(s.over);
      RepFacts();
      pre := NewBlock([block], [|g| - 1]);
      start := NewBlock([pre], [pre.id]);
      RepFacts();
      VisitLhss(s.vars, false);
    }

    /** The end of a range loop: back to the assignments, continue to the block before them, and
        out from there, from the end of the body and from break. */
    method RangeEnd(pre: Block, start: Block, brek: Branch, continu: Branch)
      requires Rep() && IsBlock(pre) && IsBlock(start) && |breaks| > 0 && |continues| > 0
      requires brek == breaks[|breaks| - 1] && continu == continues[|continues| - 1]
      modifies this, repr
      ensures Rep() && Grown() && env == old(env) && brek.ids == old(brek.ids) && continu.ids == old(continu.ids)
      ensures env.brkSrc[|breaks| - 1] == SetOf(brek.ids) && env.contSrc[|continues| - 1] == SetOf(continu.ids)
      ensures (forall k :: 0 <= k < |brek.ids| ==> brek.ids[k] < |old(g)|)
      ensures (forall k :: 0 <= k < |continu.ids| ==> continu.ids[k] < |old(g)|)
      ensures g == RangeTail(old(g), pre.id, start.id, continu.ids, brek.ids)
    {
      hide Rep, AddBlock, AddEdges, AddEdge;
      RepFacts();
      BranchInStack(brek, Brk(|breaks| - 1));
      BranchInStack(continu, Cont(|continues| - 1));
      AddChild(block, start);
      RepFacts();
      SetDestination(continu, pre, Cont(|continues| - 1));
      RepFacts();
      var after := Join([pre, block], [pre.id, |g| - 1], brek, Brk(|breaks| - 1));
    }

    /** The end of a range statement, and of what its branches may mean. */
    method EndRange(pre: Block, start: Block, brek: Branch, continu: Branch)
      returns (ghost cont: seq<nat>, ghost brk: seq<nat>)
      requires Rep() && IsBlock(pre) && IsBlock(start) && |breaks| > 0 && |continues| > 0
      requires brek == breaks[|breaks| - 1] && continu == continues[|continues| - 1]
      modifies this, repr
      ensures Rep() && Open() && Popped(old(env), env)
      ensures breaks == old(breaks)[..|old(breaks)| - 1] && continues == old(continues)[..|old(continues)| - 1]
      ensures old(blocks) <= blocks && old(repr) <= repr && fresh(repr - old(repr))
      ensures old(env).brkSrc[|env.brk|] == SetOf(brk) && old(env).contSrc[|env.cont|] == SetOf(cont)
      ensures (forall k :: 0 <= k < |brk| ==> brk[k] < |old(g)|) && (forall k :: 0 <= k < |cont| ==> cont[k] < |old(g)|)
      ensures g == RangeTail(old(g), pre.id, start.id, cont, brk)
    {
      hide Rep, RangeTail, SetOf;
      RepFacts();
      RangeEnd(pre, start, brek, continu);
      RepFacts();
      cont, brk := continu.ids, brek.ids;
      LeaveLoop();
    }

    method VisitRange(s: Stmt, l: Option<Label>) returns (ghost lay: Lay)
      requires Rep() && Open() && s.Range? && WellFormed(s, env.brk, env.cont, l)
      modifies this, repr
      ensures Rep() && Kept() && Visited(old(g), old(env), g, env, s, l, lay) && Drawn(old(g), g, s, lay)
      decreases s, 3
    {
      hide Rep, Walk, Grows, AllIds, AllLhsOps, UsesOf, RangeHead, RangeTail, Visited, Drawn;
      RepFacts();
      var brek, continu := EnterLoop(l);
      var pre, start := RangeStart(s);
      RepFacts();
      ghost var gt, env1 := g, env;
      ghost var l1 := Visit(s.body, None);
      VisitedFacts(gt, env1, g, env, s.body, None, l1);
      ghost var gb, env2 := g, env;
      RepFacts();
      ghost var cont, brk := EndRange(pre, start, brek, continu);
      lay := RangeDone(old(g), gt, gb, g, old(env), env2, env, s, l, l1, cont, brk);
    }

    /** Appends the uses of a list of expressions. */
    method UseLists(list: seq<seq<Var>>)
      requires Rep()
      modifies `g, block`ops
      ensures Rep() && g == AddOps(old(g), |old(g)| - 1, UsesOf(Flat(list)))
    {
      hide Rep, AddOps, UsesOf, Flat;
      RepFacts();
      AddOpsNone(g, |g| - 1);
      NoUses();
      for k := 0 to |list|
        invariant Rep() && g == AddOps(old(g), |old(g)| - 1, UsesOf(Flat(list[..k])))
      {
        UseAll(list[k]);
        AddOpsTwice(old(g), |old(g)| - 1, UsesOf(Flat(list[..k])), UsesOf(list[k]));
        FlatSnoc(list, k);
        UsesConcat(Flat(list[..k]), list[k]);
      }
      assert list[..|list|] == list;
    }

    lemma NoUses()
      ensures UsesOf(Flat([])) == []
    {}

    /** The list block of a clause, if it has one. */
    method VisitList(c: Clause, list: Block) returns (list': Block)
      requires Rep() && IsBlock(list)
      modifies this, repr
      ensures Rep() && Kept() && env == old(env) && g == ClauseList(old(g), c, list.id) && IsBlock(list')
      ensures list' == list || c.list.Some?
      ensures c.list.Some? ==> list'.id == |old(g)|
    {
      hide Rep, AddBlock, AddOps;
      RepFacts();
      list' := list;
      if c.list.Some? {
        list' := NewBlock([list], [list.id]);
        RepFacts();
        UseLists(c.list.value);
      }
    }

    /** A clause: its list, if it has one, and its body, which is entered from the list and from
        the body before it if that falls through. */
    method VisitClause(c: Clause, list: Block, fallthru: Block?, ghost fall: seq<nat>)
      returns (list': Block, body: Block, ghost p: Place)
      requires Rep() && Open() && IsBlock(list) && WellFormed(c.body, env.brk, env.cont, None)
      requires if fallthru == null then fall == [] else IsBlock(fallthru) && fall == [fallthru.id]
      modifies this, repr
      ensures Rep() && Kept() && Widens(old(env), env) && ClauseAdded(old(g), g, env, c, list.id, fall, p)
      ensures DrawnBelow(ClauseList(old(g), c, list.id), Parents(old(g), c, fall), g, c.body, p.lay)
      ensures IsBlock(body) && body.id == p.body && IsBlock(list')
          && list'.id == (if c.list.Some? then p.list else list.id)
      decreases c.body, 6
    {
      hide Rep, Walk, Grows, AllIds, LaidOut, Widens, WellFormed, ClauseList, ClauseAdded, DrawnBelow;
      RepFacts();
      list' := VisitList(c, list);
      RepFacts();
      ghost var gl := g;
      ClauseListSize(old(g), c, list.id);
      var parents := (if c.list.Some? then [list'] else []) + (if fallthru == null then [] else [fallthru]);
      ghost var lay;
      body, lay := VisitBelow(parents, Parents(old(g), c, fall), c.body, None);
      RepFacts();
      p := Place(|old(g)|, |gl|, lay, HereIn(g));
      ClauseIsAdded(old(g), g, env, c, list.id, fall, lay);
    }

    /** All clauses of a switch, in order: the last list block, the body of the default clause,
        and the blocks from which the switch is left. */
    method VisitClauses(s: Stmt, b0: Block, ghost brk: seq<Option<Label>>)
      returns (list: Block, dfault: Block?, exits: seq<Block>, ghost places: seq<Place>, ghost ids: seq<nat>)
      requires Rep() && Open() && IsBlock(b0) && s.Switch? && env.brk == brk && BodiesFormed(s, brk, env.cont)
      modifies this, repr
      ensures Rep() && Kept() && Widens(old(env), env) && Extends(old(g), g)
      ensures |places| == |s.clauses| && ClausesUpTo(g, env, s.clauses, places, |s.clauses|, b0.id, ids)
      ensures IsBlock(list) && list.id == ListBefore(b0.id, s.clauses, places, |s.clauses|)
      ensures BlockIs(dfault, DefaultBlock(s.clauses, places, |s.clauses|))
      ensures |exits| == |ids| && forall k :: 0 <= k < |ids| ==> ids[k] < |blocks| && exits[k] == blocks[ids[k]]
      ensures AllIds(g) == AllIds(old(g)) + multiset(ClauseIds(s, 0))
      ensures AllDrawn(old(g), g, s, places, b0.id, ids)
      decreases s, 2
    {
      hide Rep, Grows, AllIds, WellFormed, ClauseAdded, ListBefore, DrawnBelow, DefaultBlock, ClauseList, Parents,
          SoFar,
          AllDrawn, ClausesUpTo, Widens;
      list, dfault, exits, places, ids := b0, null, [], [], [];
      var fallthru: Block? := null;
      ghost var fall: seq<nat> := [];
      RepFacts();
      NoneSoFar(g, env, s, b0.id);
      for i := 0 to |s.clauses|
        invariant Rep() && Kept() && env.brk == brk && env.cont == old(env).cont
        invariant SoFar(old(g), g, old(env), env, s, places, i, b0.id, ids, fall) && |places| == i
        invariant IsBlock(list) && list.id == ListBefore(b0.id, s.clauses, places, i)
        invariant BlockIs(dfault, DefaultBlock(s.clauses, places, i))
        invariant |exits| == |ids| && forall k :: 0 <= k < |ids| ==> ids[k] < |blocks| && exits[k] == blocks[ids[k]]
        invariant if fallthru == null then fall == [] else IsBlock(fallthru) && fall == [fallthru.id]
      {
        var c := s.clauses[i];
        ghost var g1, env1 := g, env;
        var body;
        ghost var p;
        list, body, p := VisitClause(c, list, fallthru, fall);
        RepFacts();
        SoFarStep(old(g), g1, g, old(env), env1, env, s, places, i, b0.id, ids, fall, p);
        if c.list.None? {
          dfault := body;
        }
        places := places + [p];
        if c.falls {
          fallthru, fall := block, [|g| - 1];
        } else {
          fallthru, fall := null, [];
          exits, ids := exits + [block], ids + [|g| - 1];
        }
      }
      AllSoFar(old(g), g, old(env), env, s, places, b0.id, ids, fall);
    }

    /** The simple statement and the tag of a switch. */
    method VisitTag(s1: Stmt, s2: Stmt)
      requires Rep() && IsSimple(s1) && IsSimple(s2)
      modifies `g, block`ops
      ensures Rep() && g == AddOps(old(g), |old(g)| - 1, SimpleOps(s1) + SimpleOps(s2))
    {
      hide Rep, AddOps;
      RepFacts();
      VisitSimple(s1);
      VisitSimple(s2);
      AddOpsTwice(old(g), |old(g)| - 1, SimpleOps(s1), SimpleOps(s2));
    }

    /** The end of a switch: the default clause is entered from the last list block; without
        one the switch may be left from `b0`. */
    method LeaveSwitch(b0: Block, list: Block, dfault: Block?, exits0: seq<Block>, brek: Branch,
        ghost dflt: Option<nat>, ghost ids: seq<nat>)
      requires Rep() && IsBlock(b0) && IsBlock(list) && BlockIs(dfault, dflt)
      requires |exits0| == |ids| && forall k :: 0 <= k < |ids| ==> ids[k] < |blocks| && exits0[k] == blocks[ids[k]]
      requires |breaks| > 0 && brek == breaks[|breaks| - 1]
      modifies this, repr
      ensures Rep() && Grown() && contKnown == old(contKnown) && env == old(env) && brek.ids == old(brek.ids)
          && env.brkSrc[|breaks| - 1] == SetOf(brek.ids)
      ensures forall k :: 0 <= k < |brek.ids| ==> brek.ids[k] < |old(g)|
      ensures g == SwitchEnd(old(g), b0.id, list.id, dflt, ids, brek.ids)
    {
      hide Rep, AddBlock, AddEdges, AddEdge;
      RepFacts();
      BranchInStack(brek, Brk(|breaks| - 1));
      var exits := exits0;
      if dfault != null {
        IdOf(dflt.value);
        IdOf(list.id);
        AddChild(list, dfault);
      } else {
        exits := exits + [b0];
      }
      RepFacts();
      var after := Join(exits, if dflt.Some? then ids else ids + [b0.id], brek, Brk(|breaks| - 1));
    }

    method VisitSwitch(s: Stmt, l: Option<Label>) returns (ghost lay: Lay)
      requires Rep() && Open() && s.Switch? && WellFormed(s, env.brk, env.cont, l)
      modifies this, repr
      ensures Rep() && Kept() && Visited(old(g), old(env), g, env, s, l, lay) && Drawn(old(g), g, s, lay)
      decreases s, 3
    {
      hide Rep, Walk, Grows, AllIds, SimpleOps, Visited, SwitchEnd, ClausesUpTo, ListBefore, DefaultBlock, AddOps,
          Drawn, AllDrawn, Widens, PoppedSwitch, SetOf;
      RepFacts();
      ghost var env0 := env;
      var b0, brek := EnterSwitch(s, l);
      RepFacts();
      var list, dfault, exits;
      ghost var places, ids;
      list, dfault, exits, places, ids := VisitClauses(s, b0, env.brk);
      RepFacts();
      ghost var gc, env2 := g, env;
      ghost var brk := EndSwitch(b0, list, dfault, exits, brek, DefaultBlock(s.clauses, places, |s.clauses|), ids);
      lay := SwitchDone(old(g), gc, g, env0, env2, env, s, l, places, ids, brk);
    }

    method EnterSwitch(s: Stmt, l: Option<Label>) returns (b0: Block, brek: Branch)
      requires Rep() && Open() && s.Switch? && IsSimple(s.init) && IsSimple(s.tag)
      modifies this, repr
      ensures Rep() && Open()
      ensures breaks == old(breaks) + [brek] && continues == old(continues) && blocks == old(blocks)
      ensures repr == old(repr) + {brek} && fresh(brek)
      ensures ValidEnv(old(env)) && env == InsideSwitch(old(env), l, {}) && IsBlock(b0) && b0.id == |old(g)| - 1
      ensures |old(g)| > 0 && g == AddOps(old(g), |old(g)| - 1, SimpleOps(s.init) + SimpleOps(s.tag))
    {
      hide Rep, AddOps, SimpleOps;
      RepFacts();
      VisitTag(s.init, s.tag);
      RepFacts();
      b0 := block;
      brek := PushBreak(l);
    }

    method EndSwitch(b0: Block, list: Block, dfault: Block?, exits: seq<Block>, brek: Branch, ghost dflt: Option<nat>,
        ghost ids: seq<nat>)
      returns (ghost brk: seq<nat>)
      requires Rep() && IsBlock(b0) && IsBlock(list) && BlockIs(dfault, dflt)
      requires |exits| == |ids| && forall k :: 0 <= k < |ids| ==> ids[k] < |blocks| && exits[k] == blocks[ids[k]]
      requires |breaks| > 0 && brek == breaks[|breaks| - 1]
      modifies this, repr
      ensures Rep() && !brkKnown && contKnown == old(contKnown)
      ensures breaks == old(breaks)[..|old(breaks)| - 1] && continues == old(continues)
      ensures old(blocks) <= blocks && old(repr) <= repr && fresh(repr - old(repr))
      ensures PoppedSwitch(old(env), env) && old(env).brkSrc[|env.brk|] == SetOf(brk)
      ensures forall k :: 0 <= k < |brk| ==> brk[k] < |old(g)|
      ensures g == SwitchEnd(old(g), b0.id, list.id, dflt, ids, brk)
    {
      hide Rep, SwitchEnd;
      RepFacts();
      LeaveSwitch(b0, list, dfault, exits, brek, dflt, ids);
      RepFacts();
      brk := brek.ids;
      PopBreak();
    }

    /** The current block becomes a source of the branch that a jump leads to. */
    method Jump(s: Stmt) returns (ghost t: Target)
      requires Rep() && Open() && (s.Break? || s.Continue?) && WellFormed(s, env.brk, env.cont, None)
      modifies this, repr
      ensures Rep() && breaks == old(breaks) && continues == old(continues) && blocks == old(blocks)
          && repr == old(repr) && Open()
      ensures match s
              case Break(to) => Find(old(env).brk, to) < |old(env).brk| && t == Brk(Find(old(env).brk, to))
              case Continue(to) => Find(old(env).cont, to) < |old(env).cont| && t == Cont(Find(old(env).cont, to))
              case _ => false
      ensures env == WithSource(old(env), t, |old(g)| - 1) && g == old(g)
    {
      hide Rep, AddEdge;
      RepFacts();
      var br, k;
      NamesOf();
      if s.Break? {
        k := Get(breaks, s.to, env.brk);
        br, t := breaks[k], Brk(k);
        BranchInStack(br, t);
        AddSource(br, Brk(k));
      } else {
        k := Get(continues, s.to, env.cont);
        br, t := continues[k], Cont(k);
        BranchInStack(br, t);
        AddSource(br, Cont(k));
      }
    }

    /** A break or continue: the current block becomes a source, and a new one is begun. */
    method VisitJump(s: Stmt, l: Option<Label>) returns (ghost lay: Lay)
      requires Rep() && Open() && (s.Break? || s.Continue?) && WellFormed(s, env.brk, env.cont, l)
      modifies this, repr
      ensures Rep() && Kept() && Visited(old(g), old(env), g, env, s, l, lay) && Drawn(old(g), g, s, lay)
      decreases s, 3
    {
      hide Rep, Visited, Drawn, AddBlock;
      RepFacts();
      ghost var t := Jump(s);
      RepFacts();
      var b := NewBlock([], []);
      JumpLaid(old(g), old(env), t, s, l);
      JumpDrawn(old(g), s);
      lay := LJump;
    }

    lemma NamesOf()
      requires Rep()
      ensures |breaks| == |env.brk| && forall k :: 0 <= k < |breaks| ==> breaks[k].name == env.brk[k]
      ensures |continues| == |env.cont| && forall k :: 0 <= k < |continues| ==> continues[k].name == env.cont[k]
      ensures Open() ==> forall k :: 0 <= k < |breaks| ==> breaks[k].dst == null
      ensures Open() ==> forall k :: 0 <= k < |continues| ==> continues[k].dst == null
    {
      forall k | 0 <= k < |breaks|
        ensures BranchRep(breaks[k], Brk(k), env.brk[k], env.brkSrc[k])
      {}
      forall k | 0 <= k < |continues|
        ensures BranchRep(continues[k], Cont(k), env.cont[k], env.contSrc[k])
      {}
    }
  }

  lemma {:induction false} AllLhsOpsSnoc(ls: seq<Lhs>, opAssign: bool, k: nat)
    requires k < |ls|
    ensures AllLhsOps(ls[..k + 1], opAssign) == AllLhsOps(ls[..k], opAssign) + LhsOps(ls[k], opAssign)
    decreases |ls|
  {
    if k == 0 {
      assert ls[..1][1..] == [] && ls[..0] == [];
      assert AllLhsOps(ls[..1], opAssign) == LhsOps(ls[0], opAssign) + AllLhsOps([], opAssign);
    } else {
      assert ls[..k + 1][1..] == ls[1..][..k] && ls[..k][1..] == ls[1..][..k - 1];
      AllLhsOpsSnoc(ls[1..], opAssign, k - 1);
    }
  }

  lemma {:induction false} DeclOpsSnoc(names: seq<(Var, int)>, hasValues: bool, k: nat)
    requires k < |names|
    ensures DeclOps(names[..k + 1], hasValues) ==
      DeclOps(names[..k], hasValues) + [if hasValues then Assign(names[k].0, names[k].1) else Use(names[k].0)]
    decreases |names|
  {
    if k == 0 {
      assert names[..1][1..] == [] && names[..0] == [];
      assert DeclOps(names[..1], hasValues)
          == [if hasValues then Assign(names[0].0, names[0].1) else Use(names[0].0)] + DeclOps([], hasValues);
    } else {
      assert names[..k + 1][1..] == names[1..][..k] && names[..k][1..] == names[1..][..k - 1];
      DeclOpsSnoc(names[1..], hasValues, k - 1);
    }
  }
}
