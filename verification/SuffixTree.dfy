/** The suffix tree of mibk/dupl as the program builds it: states and transitions are
    objects that are changed in place, one token at a time. */
module SuffixTree {
  import opened SuffixTreeModel
  import opened SuffixTreeSteps

  class Tran {
    var start: nat
    var end: End
    var state: State
    ghost var at: Ref

    constructor (start: nat, end: End, state: State, ghost at: Ref)
      ensures this.start == start && this.end == end && this.state == state && this.at == at
    {
      this.start, this.end, this.state, this.at := start, end, state, at;
    }
  }

  class State {
    var trans: seq<Tran>
    var linkState: State?
    ghost const id: nat

    constructor (ghost id: nat)
      ensures trans == [] && linkState == null && this.id == id
    {
      trans, linkState := [], null;
      this.id := id;
    }

    /** Finds the first transition whose label starts with token `c`. */
    method FindTran(data: seq<int>, c: int) returns (tr: Tran?, ghost k: nat)
      requires forall i :: 0 <= i < |trans| ==> trans[i].start < |data|
      ensures k <= |trans| && (tr == null <==> k == |trans|)
      ensures k < |trans| ==> tr == trans[k] && data[trans[k].start] == c
      ensures forall i :: 0 <= i < k ==> data[trans[i].start] != c
    {
      for i := 0 to |trans|
        invariant forall j :: 0 <= j < i ==> data[trans[j].start] != c
      {
        if data[trans[i].start] == c {
          return trans[i], i;
        }
      }
      return null, |trans|;
    }

    method AddTran(start: nat, end: End, r: State) returns (tr: Tran)
      modifies this`trans
      ensures fresh(tr) && trans == old(trans) + [tr]
      ensures tr.start == start && tr.end == end && tr.state == r && tr.at == Ref(id, |old(trans)|)
    {
      tr := new Tran(start, end, r, Ref(id, |trans|));
      trans := trans + [tr];
    }
  }

  /** Adding a state, giving it a transition and redirecting another one is a split. */
  lemma SplitEdges(es: seq<seq<Edge>>, s: nat, k: nat, a: Edge, b: Edge)
    requires s < |es| && k < |es[s]|
    ensures var es' := (es + [[]])[|es| := (es + [[]])[|es|] + [b]];
            es'[s := es'[s][k := a]] == es[s := es[s][k := a]] + [[b]]
  {
    assert [] + [b] == [b];
  }

  class STree {
    var data: seq<int>
    var root: State
    var auxState: State

    // active point
    var s: State
    var start: nat
    var end: nat

    // the tree as a value, the numbering of its states, and the objects it consists of
    ghost var t: Tree
    ghost var link: map<nat, nat>
    ghost var nodes: seq<State>
    ghost var repr: set<object>
    // transitions followed by Canonize so far
    ghost var advances: nat

    /** Transition `k` of state `i` is the object that `t` says it is. */
    ghost predicate TranRep(i: nat, k: nat)
      requires i < |nodes| && i < |t.edges| && k < |t.edges[i]| && k < |nodes[i].trans|
      reads `t, `nodes, `repr, nodes, nodes[i].trans[k]
    {
      var tr := nodes[i].trans[k];
      var e := t.edges[i][k];
      && tr in repr && tr.at == Ref(i, k)
      && tr.start == e.start && tr.end == e.end
      && e.to < |nodes| && tr.state == nodes[e.to]
    }

    ghost predicate StateRep(i: nat)
      requires i < |nodes| == |t.edges|
      reads `t, `link, `nodes, `repr, nodes
    {
      var n := nodes[i];
      && n in repr && n.id == i
      && (i in link ==> link[i] < |nodes|)
      && n.linkState == (if i in link then nodes[link[i]] else null)
      && |n.trans| == |t.edges[i]|
      && (forall k :: 0 <= k < |n.trans| ==> n.trans[k] in repr)
    }

    /** The objects represent the value `t` with the suffix links `link`. */
    ghost predicate Rep()
      reads `root, `auxState, `t, `link, `nodes, `repr, repr, nodes
    {
      && this !in repr && |nodes| == |t.edges| >= 2 && nodes[ROOT] == root && nodes[AUX] == auxState
      && (forall i :: i in link ==> i < |nodes|)
      && (forall i {:trigger StateRep(i)} :: 0 <= i < |nodes| ==> StateRep(i))
      && (forall i, k {:trigger TranRep(i, k)} :: 0 <= i < |nodes| && 0 <= k < |t.edges[i]| ==>
            assert StateRep(i); TranRep(i, k))
    }

    ghost predicate IsNode(s: State)
      reads `nodes
    {
      s.id < |nodes| && nodes[s.id] == s
    }

    constructor ()
      ensures Valid() && fresh(repr) && data == [] && end == 0
    {
      data := [];
      var r := new State(ROOT);
      var a := new State(AUX);
      root, auxState, s := r, a, r;
      start, end, advances := 0, 0, 0;
      t := Tree([[], []], map[ROOT := []], map[], []);
      link := map[ROOT := AUX];
      nodes := [r, a];
      repr := {r, a};
      new;
      root.linkState := auxState;
      assert StateRep(0) && StateRep(1);
      EmptyTree(t, link);
    }

    /** The transition of `s` that starts with token `c`, if there is one. */
    method Lookup(s: State, c: int) returns (tr: Tran?, ghost k: nat)
      requires Rep() && IsNode(s)
      requires Distinct(data, t.edges[s.id])
      ensures k == FindIx(data, t.edges[s.id], c)
      ensures tr == null <==> k == |t.edges[s.id]|
      ensures tr != null ==> k < |s.trans| && tr == s.trans[k] && TranRep(s.id, k)
    {
      assert StateRep(s.id);
      forall i | 0 <= i < |s.trans|
        ensures s.trans[i].start == t.edges[s.id][i].start
      {
        assert TranRep(s.id, i);
      }
      tr, k := s.FindTran(data, c);
      FindIs(data, t.edges[s.id], c, k);
      assert tr != null ==> TranRep(s.id, k);
    }

    /** The state and start from which Canonize works: below the auxiliary state lies the root. */
    ghost function Base(s: State, start: nat): (nat, nat)
    {
      if s.id == AUX then (ROOT, start + 1) else (s.id, start)
    }

    /** Moves a reference pair to the closest explicit ancestor. No transition is missing on
        the way, and every transition followed moves `start` forward. */
    method Canonize(s0: State, start0: nat, end: int, ghost m: nat) returns (s: State, start: nat, ghost adv: nat)
      requires Rep() && -1 <= end < m <= |data| && Inv(data, m, t) && IsNode(s0)
      requires s0.id == AUX || s0.id in t.word
      requires var (b, p) := Base(s0, start0); p <= end ==> Reads(data, m, t, b, data[p..end + 1])
      ensures IsNode(s) && s.id in t.word
      ensures var (b, p) := Base(s0, start0);
              && p + adv <= start
              && (p > end ==> s.id == b && start == p)
              && (p <= end ==> Arrived(data, m, t, b, p, s.id, start, end + 1))
    {
      hide Inv, Reads, OnTheWay, Arrived, Distinct;
      s, start, adv := s0, start0, 0;
      assert StateRep(s0.id) && StateRep(ROOT) && StateRep(AUX);
      InvNodes(data, m, t);
      if s == auxState {
        s, start := root, start + 1;
      }
      if start > end {
        return;
      }
      ghost var b, p := s.id, start;
      WayStarts(data, m, t, b, p, end + 1);
      var tr: Tran? := null;
      while true
        invariant IsNode(s) && p + adv <= start
        invariant OnTheWay(data, m, t, b, p, s.id, start, end + 1)
        invariant start > end ==> tr != null && tr.end.At? && tr.start <= tr.end.pos
        decreases end - start
      {
        ghost var k := 0;
        if start <= end {
          WayFound(data, m, t, b, p, s.id, start, end + 1);
          tr, k := Lookup(s, data[start]);
        }
        if tr.end.Open? || tr.end.pos - tr.start > end - start {
          WayEnds(data, m, t, b, p, s.id, start, end + 1);
          break;
        }
        ghost var e := t.edges[s.id][k];
        assert TranRep(s.id, k);
        WayGoes(data, m, t, b, p, s.id, start, end + 1, e);
        assert StateRep(e.to);
        start := start + (tr.end.pos - tr.start + 1);
        s := tr.state;
        adv := adv + 1;
      }
    }

    // ----- the four ways in which objects change, each with its effect on the value -----

    method NewState() returns (r: State)
      requires Rep()
      modifies `t, `nodes, `repr
      ensures Rep() && t == old(t).(edges := old(t).edges + [[]])
      ensures nodes == old(nodes) + [r] && fresh(r) && repr == old(repr) + {r}
    {
      label before:
      r := new State(|nodes|);
      t := t.(edges := t.edges + [[]]);
      nodes := nodes + [r];
      repr := repr + {r};
      forall i | 0 <= i < |nodes|
        ensures StateRep(i)
      {
        if i < |nodes| - 1 { assert old@before(StateRep(i)); }
      }
      forall i, j | 0 <= i < |nodes| && 0 <= j < |t.edges[i]|
        ensures assert StateRep(i); TranRep(i, j)
      {
        assert StateRep(i);
        assert old@before(StateRep(i));
        assert old@before(TranRep(i, j));
      }
    }

    method AddTran(s: State, start: nat, end: End, r: State)
      requires Rep() && IsNode(s) && IsNode(r)
      modifies `t, `repr, s
      ensures Rep() && repr >= old(repr) && fresh(repr - old(repr))
      ensures t == old(t).(edges := old(t).edges[s.id := old(t).edges[s.id] + [Edge(start, end, r.id)]])
    {
      label before:
      assert StateRep(s.id);
      var tr := s.AddTran(start, end, r);
      t := t.(edges := t.edges[s.id := t.edges[s.id] + [Edge(start, end, r.id)]]);
      repr := repr + {tr};
      forall i | 0 <= i < |nodes|
        ensures StateRep(i)
      {
        assert old@before(StateRep(i));
      }
      forall i, j | 0 <= i < |nodes| && 0 <= j < |t.edges[i]|
        ensures assert StateRep(i); TranRep(i, j)
      {
        assert StateRep(i);
        assert old@before(StateRep(i));
        if i != s.id || j < |old(t).edges[i]| { assert old@before(TranRep(i, j)); }
      }
    }

    method Redirect(s: State, ghost k: nat, tr: Tran, end: End, r: State)
      requires Rep() && IsNode(s) && IsNode(r)
      requires k < |s.trans| && k < |t.edges[s.id]| && tr == s.trans[k] && TranRep(s.id, k)
      modifies `t, tr
      ensures Rep()
      ensures t == old(t).(edges :=
        old(t).edges[s.id := old(t).edges[s.id][k := Edge(old(t).edges[s.id][k].start, end, r.id)]])
    {
      label before:
      tr.end, tr.state := end, r;
      t := t.(edges := t.edges[s.id := t.edges[s.id][k := Edge(t.edges[s.id][k].start, end, r.id)]]);
      forall i | 0 <= i < |nodes|
        ensures StateRep(i)
      {
        assert old@before(StateRep(i));
      }
      forall i, j | 0 <= i < |nodes| && 0 <= j < |t.edges[i]|
        ensures assert StateRep(i); TranRep(i, j)
      {
        assert StateRep(i);
        assert old@before(StateRep(i));
        assert old@before(TranRep(i, j));
      }
    }

    method SetLink(s: State, r: State)
      requires Rep() && IsNode(s) && IsNode(r)
      modifies `link, s`linkState
      ensures Rep() && link == old(link)[s.id := r.id]
    {
      label before:
      s.linkState := r;
      link := link[s.id := r.id];
      forall i | 0 <= i < |nodes|
        ensures StateRep(i)
      {
        assert old@before(StateRep(i));
      }
      forall i, j | 0 <= i < |nodes| && 0 <= j < |t.edges[i]|
        ensures assert StateRep(i); TranRep(i, j)
      {
        assert StateRep(i);
        assert old@before(StateRep(i));
        assert old@before(TranRep(i, j));
      }
    }

    /** Records what the states stand for; no object changes. */
    ghost method Annotate(t': Tree)
      requires Rep() && t'.edges == t.edges
      modifies `t
      ensures Rep() && t == t'
    {
      label before:
      t := t';
      forall i | 0 <= i < |nodes|
        ensures StateRep(i)
      {
        assert old@before(StateRep(i));
      }
      forall i, j | 0 <= i < |nodes| && 0 <= j < |t.edges[i]|
        ensures assert StateRep(i); TranRep(i, j)
      {
        assert old@before(StateRep(i));
        assert old@before(TranRep(i, j));
      }
    }

    /** Creates a new branch from the state `s`. */
    method ForkState(s: State, i: nat) returns (r: State)
      requires Rep() && IsNode(s)
      modifies `t, `nodes, `repr, s
      ensures Rep() && old(nodes) <= nodes && old(repr) <= repr && fresh(repr - old(repr))
      ensures t == Fork(old(t), s.id, i)
    {
      r := NewState();
      assert StateRep(|nodes| - 1);
      AddTran(s, i, Open, r);
      Annotate(Fork(old(t), s.id, i));
    }

    method LinkUnlessRoot(s: State, r: State)
      requires Rep() && IsNode(s) && IsNode(r)
      modifies `link, s`linkState
      ensures Rep() && link == if s.id == ROOT then old(link) else old(link)[s.id := r.id]
    {
      assert StateRep(ROOT) && StateRep(s.id);
      if s != root {
        SetLink(s, r);
      }
    }

    /** Makes the state explicit that lies on transition `k` of `s` just before `sp`. */
    method SplitTran(s: State, ghost k: nat, tr: Tran, sp: nat) returns (newSt: State)
      requires Rep() && IsNode(s) && s.id in t.word
      requires k < |t.edges[s.id]| && k < |s.trans| && tr == s.trans[k] && TranRep(s.id, k)
      requires tr.start < sp <= |data|
      modifies `t, `nodes, `repr, tr
      ensures Rep() && t == Split(data, old(t), Ref(s.id, k), sp)
      ensures nodes == old(nodes) + [newSt] && old(repr) <= repr && fresh(repr - old(repr))
      ensures IsNode(newSt)
    {
      ghost var e := t.edges[s.id][k];
      assert StateRep(s.id) && StateRep(e.to);
      newSt := NewState();
      assert StateRep(|nodes| - 1) && StateRep(s.id);
      AddTran(newSt, sp, tr.end, tr.state);
      assert StateRep(s.id) && TranRep(s.id, k);
      Redirect(s, k, tr, At(sp - 1), newSt);
      SplitEdges(old(t).edges, s.id, k, Edge(e.start, At(sp - 1), newSt.id), Edge(sp, e.end, e.to));
      Annotate(Split(data, old(t), Ref(s.id, k), sp));
    }

    /** Makes the active point an explicit state. */
    method SplitHere(s: State, ghost start: nat, ghost k: nat, tr: Tran, sp: nat, ghost x: nat) returns (exs: State)
      requires Rep() && IsNode(s) && start < end && s.id < |t.edges|
      requires Round(data, end, t, link, x, s.id, start)
      requires k == FindIx(data, t.edges[s.id], data[start]) && k < |t.edges[s.id]|
      requires k < |s.trans| && tr == s.trans[k] && TranRep(s.id, k)
      requires sp == tr.start + (end - start) < |data| && data[sp] != data[end]
      modifies `t, `nodes, `repr, repr
      ensures Rep() && old(nodes) <= nodes && old(repr) <= repr && fresh(repr - old(repr))
      ensures IsNode(exs) && |t.leaf| == |old(t).leaf| && |nodes| == |old(nodes)| + 1
      ensures Forking(data, end, t, link, x, exs.id, s.id, start)
    {
      hide Inv, Round, Forking, Distinct;
      RoundNodes(data, end, t, link, x, s.id, start);
      RoundSplits(data, end, t, link, x, s.id, start, k);
      exs := SplitTran(s, k, tr, sp);
      assert StateRep(|nodes| - 1) && exs.id == |old(t).edges|;
    }

    /** Tests whether the reference pair (s, (start, end)) already goes on with the new token.
        If it does not, its state is made explicit, if it is not so already. */
    method TestAndSplit(s: State, start: nat, end: int, ghost x: nat) returns (exs: State, endPoint: bool)
      requires Rep() && IsNode(s) && end == this.end - 1
      requires Round(data, this.end, t, link, x, s.id, start)
      modifies `t, `nodes, `repr, repr
      ensures Rep() && old(nodes) <= nodes && old(repr) <= repr && fresh(repr - old(repr))
      ensures IsNode(exs) && |t.leaf| == |old(t).leaf| && |nodes| <= |old(nodes)| + 1
      ensures endPoint ==> exs == s && t == old(t) && AtEnd(data, this.end, t, s.id, start)
      ensures !endPoint ==> Forking(data, this.end, t, link, x, exs.id, s.id, start)
    {
      hide Inv, Round, AtEnd, Forking, Distinct;
      ghost var n := this.end;
      RoundNodes(data, n, t, link, x, s.id, start);
      var c := data[this.end];
      if start <= end {
        var tr, k := Lookup(s, data[start]);
        RoundInside(data, n, t, link, x, s.id, start, k);
        var splitPoint := tr.start + end - start + 1;
        if data[splitPoint] == c {
          return s, true;
        }
        exs := SplitHere(s, start, k, tr, splitPoint, x);
        return exs, false;
      }
      assert StateRep(AUX);
      if s == auxState {
        return s, true;
      }
      var tr, k := Lookup(s, c);
      RoundExplicit(data, n, t, link, x, s.id, start, k);
      return s, tr != null;
    }

    ghost predicate Valid()
      reads this, repr, nodes
    {
      && Rep() && IsNode(s) && end <= |data|
      && Between(data, end, t, link, s.id, start)
      && |nodes| <= 2 + 2 * |t.leaf|
      && advances <= start
    }

    /** Puts a leaf for the token at `end` below `r` and links the state before it to `r`. */
    method Branch(r: State, oldr: State, ghost s: State, ghost start: nat)
      requires Rep() && IsNode(r) && IsNode(oldr) && IsNode(s)
      requires Forking(data, end, t, link, oldr.id, r.id, s.id, start)
      modifies `t, `nodes, `repr, `link, repr
      ensures Rep() && old(nodes) <= nodes && old(repr) <= repr && fresh(repr - old(repr))
      ensures Forked(data, end, t, link, r.id, s.id, start)
      ensures |t.leaf| == |old(t).leaf| + 1 && |nodes| == |old(nodes)| + 1
    {
      hide Inv, Round, Forking, Forked;
      ghost var t0, link0 := t, link;
      assert StateRep(r.id) && StateRep(oldr.id);
      var leaf := ForkState(r, end);
      LinkUnlessRoot(oldr, r);
      ForkingForked(data, end, t0, link0, oldr.id, r.id, s.id, start);
    }

    /** Goes on from the suffix link of `s0` to the place of the next suffix. */
    method Follow(s0: State, start0: nat, ghost r: nat) returns (s: State, start: nat, ghost adv: nat)
      requires Rep() && IsNode(s0) && Forked(data, end, t, link, r, s0.id, start0)
      ensures IsNode(s) && Round(data, end, t, link, r, s.id, start) && start0 + adv <= start
    {
      hide Inv, Round, Forked, Arrived, Reads;
      ForkedNext(data, end, t, link, r, s0.id, start0);
      assert StateRep(s0.id) && StateRep(link[s0.id]);
      s, start, adv := Canonize(s0.linkState, start0, end - 1, end + 1);
      ForkedRound(data, end, t, link, r, s0.id, start0, s.id, start);
    }

    /** One round of the update: either it stops at `s`, or there is a new leaf and the next
        suffix is looked at. */
    method OneRound(s0: State, start0: nat, oldr: State) returns (r: State, endPoint: bool, s: State, start: nat)
      requires Rep() && IsNode(s0) && IsNode(oldr)
      requires Round(data, end, t, link, oldr.id, s0.id, start0)
      modifies `t, `nodes, `repr, `link, `advances, repr
      ensures Rep() && old(repr) <= repr && fresh(repr - old(repr))
      ensures IsNode(r) && IsNode(s) && IsNode(oldr)
      ensures endPoint ==> r == s == s0 && start == start0 && t == old(t) && link == old(link)
      ensures endPoint ==> AtEnd(data, end, t, s.id, start)
      ensures !endPoint ==> Round(data, end, t, link, r.id, s.id, start) && |t.leaf| == |old(t).leaf| + 1 <= end + 1
      ensures |nodes| - |old(nodes)| <= 2 * (|t.leaf| - |old(t).leaf|)
      ensures advances - old(advances) <= start - start0
    {
      hide Inv, Round, Forking, Forked, AtEnd;
      s, start := s0, start0;
      r, endPoint := TestAndSplit(s, start, end - 1, oldr.id);
      if !endPoint {
        Branch(r, oldr, s, start);
        ghost var adv;
        s, start, adv := Follow(s, start, r.id);
        advances := advances + adv;
        RoundNodes(data, end, t, link, r.id, s.id, start);
      }
    }

    /** The rounds of an update, up to the place where it stops. */
    method Rounds(s0: State, start0: nat) returns (oldr: State, s: State, start: nat)
      requires Rep() && IsNode(s0) && Round(data, end, t, link, ROOT, s0.id, start0)
      requires |nodes| <= 2 + 2 * |t.leaf| && advances <= start0
      modifies `t, `nodes, `repr, `link, `advances, repr
      ensures Rep() && IsNode(s) && IsNode(oldr) && old(repr) <= repr && fresh(repr - old(repr))
      ensures Round(data, end, t, link, oldr.id, s.id, start) && AtEnd(data, end, t, s.id, start)
      ensures |nodes| <= 2 + 2 * |t.leaf| && advances <= start
    {
      hide Inv, Round, AtEnd;
      assert StateRep(ROOT);
      var r := root;
      oldr, s, start := root, s0, start0;
      var endPoint := false;
      while !endPoint
        invariant Rep() && IsNode(s) && IsNode(oldr) && old(repr) <= repr && fresh(repr - old(repr))
        invariant Round(data, end, t, link, oldr.id, s.id, start)
        invariant endPoint ==> r == s && AtEnd(data, end, t, s.id, start)
        invariant |nodes| <= 2 + 2 * |t.leaf| && advances <= start
        decreases if endPoint then 0 else 1, end + 1 - |t.leaf|
      {
        RoundNodes(data, end, t, link, oldr.id, s.id, start);
        r, endPoint, s, start := OneRound(s, start, oldr);
        if !endPoint {
          oldr := r;
        }
      }
    }

    lemma NodeInside(n: State)
      requires Rep() && IsNode(n)
      ensures n in repr
    {
      assert StateRep(n.id);
    }

    /** Transforms the tree over `end` tokens into the one over `end + 1`. */
    method UpdateTree()
      requires Valid() && end < |data|
      modifies `t, `nodes, `repr, `link, `advances, `s, `start, repr
      ensures Rep() && IsNode(s) && old(repr) <= repr && fresh(repr - old(repr))
      ensures Inv(data, end + 1, t) && LinkInv(t, link, {}) && Bushy(t, ROOT)
      ensures AtEnd(data, end, t, s.id, start)
      ensures |nodes| <= 2 + 2 * |t.leaf| && advances <= start
    {
      hide Inv, Round, AtEnd, Between, LinkInv, Bushy, Rep;
      FirstRound(data, end, t, link, s.id, start);
      var oldr, s', start' := Rounds(s, start);
      LastLink(data, end, t, link, oldr.id, s'.id, start');
      NodeInside(oldr);
      LinkUnlessRoot(oldr, s');
      s, start := s', start';
    }

    /** Makes the pair where an update stopped canonical for the next one. */
    method Recanonize()
      requires Rep() && IsNode(s) && end < |data| && Inv(data, end + 1, t) && AtEnd(data, end, t, s.id, start)
      requires advances <= start
      modifies `s, `start, `advances
      ensures IsNode(s) && s.id in t.word && Active(data, end + 1, t, s.id, start, end + 1)
      ensures advances <= start
    {
      hide Inv, AtEnd, Active, Arrived, Reads;
      EndReads(data, end, t, s.id, start);
      assert StateRep(s.id) && StateRep(AUX);
      ghost var s0, start0, adv := s, start, 0;
      s, start, adv := Canonize(s, start, end, end + 1);
      advances := advances + adv;
      EndActive(data, end, t, s0.id, start0, s.id, start);
    }

    /** Takes in the token at `end`. */
    method Advance()
      requires Valid() && end < |data|
      modifies this, repr
      ensures Valid() && end == old(end) + 1 && data == old(data)
      ensures old(repr) <= repr && fresh(repr - old(repr))
    {
      hide Inv, Between, AtEnd, LinkInv, Bushy, Active, Arrived, Reads;
      UpdateTree();
      Recanonize();
      end := end + 1;
      IsBetween(data, end, t, link, s.id, start);
    }

    /** Extends the text and the tree by new tokens. */
    method Update(tokens: seq<int>)
      requires Valid() && end == |data|
      modifies this, repr
      ensures Valid() && end == |data| && data == old(data) + tokens
      ensures |nodes| <= 2 + 2 * |data| && |t.leaf| <= |data| && advances <= |data|
      ensures old(repr) <= repr && fresh(repr - old(repr))
    {
      hide Between;
      BetweenMono(data, end, t, link, s.id, start, data + tokens);
      data := data + tokens;
      for i := 0 to |tokens|
        invariant Valid() && end == old(|data|) + i && data == old(data) + tokens
        invariant old(repr) <= repr && fresh(repr - old(repr))
      {
        Advance();
      }
      BetweenBounds(data, end, t, link, s.id, start);
    }
  }
}
