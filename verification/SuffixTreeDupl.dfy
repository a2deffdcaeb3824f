/** The search for duplicates in a finished suffix tree: a walk over its objects that
    collects the positions of every branching state by their left context. */
module SuffixTreeDupl {
  import opened SuffixTreeModel
  import opened SuffixTreeSteps
  import opened SuffixTreeRepeats
  import opened SuffixTree

  class ContextList {
    var lists: map<int, seq<nat>>

    constructor ()
      ensures lists == map[]
    {
      lists := map[];
    }

    /** Takes over the lists of `c2`, context by context. */
    method Append(c2: ContextList)
      requires c2 != this
      modifies this
      ensures lists == Merged(old(lists), c2.lists)
    {
      var keys := c2.lists.Keys;
      while keys != {}
        invariant keys <= c2.lists.Keys
        invariant lists == Merged(old(lists), c2.lists - keys)
      {
        ghost var some := NonEmpty(keys);
        var lc :| lc in keys;
        if lc in lists {
          lists := lists[lc := lists[lc] + c2.lists[lc]];
        } else {
          lists := lists[lc := c2.lists[lc]];
        }
        keys := keys - {lc};
      }
    }

    /** All positions, by ascending context. */
    method GetAll(ghost d: seq<int>, ghost all: set<nat>) returns (ps: seq<nat>)
      requires Lists(d, lists, all)
      ensures NoDup(ps) && forall i :: i in ps <==> i in all
      ensures forall a, b :: 0 <= a < b < |ps| ==> Context(d, ps[a]) <= Context(d, ps[b])
    {
      var keys := lists.Keys;
      ps := [];
      while keys != {}
        invariant keys <= lists.Keys
        invariant NoDup(ps)
        invariant forall i :: i in ps <==> i in all && Context(d, i) !in keys
        invariant forall i, c :: i in ps && c in keys ==> Context(d, i) < c
        invariant forall a, b :: 0 <= a < b < |ps| ==> Context(d, ps[a]) <= Context(d, ps[b])
      {
        HasLeast(keys);
        var k :| k in keys && forall c :: c in keys ==> k <= c;
        NoDupConcat(ps, lists[k]);
        ps := ps + lists[k];
        keys := keys - {k};
      }
    }
  }

  lemma {:induction false} HasLeast(s: set<int>)
    requires s != {}
    ensures exists k :: k in s && forall c :: c in s ==> k <= c
    decreases |s|
  {
    var x := NonEmpty(s);
    if s == {x} {
      assert x in s && forall c :: c in s ==> x <= c;
    } else {
      HasLeast(s - {x});
      var y :| y in s - {x} && forall c :: c in s - {x} ==> y <= c;
      var k := if x < y then x else y;
      forall c | c in s
        ensures k <= c
      {
        assert c == x || c in s - {x};
      }
      assert k in s;
    }
  }

  // ----- the walk -----

  /** A number of tokens; the length of an open transition is infinity plus an offset. */
  datatype Count = Fin(n: int) | Inf(off: int)

  function TranLen(start: nat, end: End): Count {
    match end
    case At(pos) => Fin(pos - start + 1)
    case Open => Inf(1 - start)
  }

  function Plus(a: Count, b: Count): Count {
    match (a, b)
    case (Fin(m), Fin(n)) => Fin(m + n)
    case (Fin(m), Inf(off)) => Inf(m + off)
    case (Inf(off), _) => a
  }

  predicate AtLeast(a: Count, threshold: int) {
    a.Inf? || a.n >= threshold
  }

  /** `end + 1 - length`; two infinities cancel out. */
  function StartOf(end: End, length: Count): int {
    if end.At? && length.Fin? then end.pos + 1 - length.n
    else if end.Open? && length.Inf? then 1 - length.off
    else -1
  }

  /** The transition `parent` ends in a branching state whose word is `v`, or it is the open
      transition of the suffix `v`. */
  ghost predicate Arrives(tree: STree, parent: Tran, length: Count, v: seq<int>, r: Ref)
    requires Inv(tree.data, tree.end, tree.t)
    reads tree, parent
  {
    var s := parent.state.id;
    if s in tree.t.word then
      v == tree.t.word[s] && length == Fin(|v|)
    else
      ValidRef(tree.t, r) && EdgeAt(tree.t, r).end.Open? && parent.end.Open?
      && v == EdgeWord(tree.data, tree.end, tree.t, r)
      && length == Inf(1 - (EdgeAt(tree.t, r).start - |tree.t.word[r.st]|))
  }

  method WalkTrans(tree: STree, parent: Tran, length: Count, threshold: int, ghost v: seq<int>, ghost r: Ref)
    returns (cl: ContextList, ms: seq<Match>, ghost ws: seq<seq<int>>)
    requires tree.Valid() && tree.end == |tree.data| && Sealed(tree.data, tree.end, tree.t)
    requires tree.IsNode(parent.state) && Arrives(tree, parent, length, v, r) && threshold >= 1
    ensures fresh(cl)
    ensures AtLeast(length, threshold) ==> Lists(tree.data, cl.lists, Occ(tree.data, tree.end, v))
    ensures Reported(tree.data, tree.end, threshold, ms, ws)
    ensures Below(tree.data, tree.end, tree.t, threshold, ws, v)
    decreases tree.end - |v|
  {
    hide Inv, Sealed, Between, Lists, Reported, Below, BelowUpTo, Occ, OccUpTo, Arrives, Names, MaximalRepeat, Merged,
        EdgeWord;
    ghost var d, n, t := tree.data, tree.end, tree.t;
    var s := parent.state;
    cl := new ContextList();
    ms, ws := [], [];
    NothingYet(d, n, threshold);
    assert tree.StateRep(s.id);
    if |s.trans| == 0 {
      var start := StartOf(parent.end, length);
      LeafReached(tree, parent, length, threshold, v, r);
      var ch := 0;
      if start > 0 {
        ch := tree.data[start - 1];
      }
      cl.lists := cl.lists[ch := [start]];
      return;
    }
    StateReached(tree, parent, length, threshold, v, r);
    for k := 0 to |s.trans|
      invariant Reported(d, n, threshold, ms, ws)
      invariant BelowUpTo(d, n, t, threshold, ws, s.id, k)
      invariant AtLeast(length, threshold) ==> Lists(d, cl.lists, OccUpTo(d, n, t, s.id, k))
    {
      var tr := s.trans[k];
      var ln := Plus(length, TranLen(tr.start, tr.end));
      ChildArrives(tree, parent, length, threshold, v, r, k);
      ghost var v2 := EdgeWord(d, n, t, Ref(s.id, k));
      var cl2, ms2;
      ghost var ws2;
      cl2, ms2, ws2 := WalkTrans(tree, tr, ln, threshold, v2, Ref(s.id, k));
      if AtLeast(ln, threshold) {
        ghost var before := cl.lists;
        cl.Append(cl2);
        if AtLeast(length, threshold) {
          OccUpToNext(d, n, t, s.id, k);
          MergedLists(d, before, cl2.lists, OccUpTo(d, n, t, s.id, k), Occ(d, n, v2));
        }
      }
      BelowNext(d, n, t, threshold, ws, ws2, s.id, k);
      ReportedMore(d, n, threshold, ms, ws, ms2, ws2);
      ms, ws := ms + ms2, ws + ws2;
    }
    StateDone(d, n, t, threshold, s.id, cl.lists, ms, ws);
    if AtLeast(length, threshold) && |cl.lists| > 1 {
      var ps := cl.GetAll(d, Occ(d, n, v));
      ReportOwn(d, n, t, threshold, s.id, cl.lists, ms, ws, Match(ps, length.n));
      ms, ws := ms + [Match(ps, length.n)], ws + [v];
    }
  }

  lemma NothingYet(d: seq<int>, n: nat, threshold: int)
    ensures Reported(d, n, threshold, [], [])
    ensures Lists(d, map[], {})
  {}

  lemma LeafReached(tree: STree, parent: Tran, length: Count, threshold: int, v: seq<int>, r: Ref)
    requires tree.Valid() && tree.end == |tree.data| && Sealed(tree.data, tree.end, tree.t)
    requires tree.IsNode(parent.state) && Arrives(tree, parent, length, v, r)
    requires parent.state.trans == []
    ensures var start := StartOf(parent.end, length);
            0 <= start < |tree.data| && Occ(tree.data, tree.end, v) == {start}
            && Lists(tree.data, map[Context(tree.data, start) := [start as nat]], {start as nat})
    ensures Below(tree.data, tree.end, tree.t, threshold, [], v)
  {
    assert tree.StateRep(parent.state.id);
    var d, n, t := tree.data, tree.end, tree.t;
    if parent.state.id !in t.word {
      OccOfLeaf(d, n, t, r);
      NothingBelowLeaf(d, n, t, threshold, r);
    } else {
      SealedHasTrans(d, n, t, parent.state.id);
      assert false;
    }
  }

  lemma StateReached(tree: STree, parent: Tran, length: Count, threshold: int, v: seq<int>, r: Ref)
    requires tree.Valid() && tree.end == |tree.data| && Sealed(tree.data, tree.end, tree.t)
    requires tree.IsNode(parent.state) && Arrives(tree, parent, length, v, r)
    requires parent.state.trans != []
    ensures var s := parent.state.id;
            s in tree.t.word && s < |tree.t.edges| && v == tree.t.word[s] && length == Fin(|v|)
            && Inv(tree.data, tree.end, tree.t)
            && |parent.state.trans| == |tree.t.edges[s]|
            && BelowUpTo(tree.data, tree.end, tree.t, threshold, [], s, 0)
            && OccUpTo(tree.data, tree.end, tree.t, s, 0) == {}
  {
    assert tree.StateRep(parent.state.id);
  }

  lemma ChildArrives(tree: STree, parent: Tran, length: Count, threshold: int, v: seq<int>, r: Ref, k: nat)
    requires tree.Valid() && tree.end == |tree.data| && Sealed(tree.data, tree.end, tree.t)
    requires tree.IsNode(parent.state) && Arrives(tree, parent, length, v, r)
    requires k < |parent.state.trans|
    ensures var tr := parent.state.trans[k]; var q := Ref(parent.state.id, k);
            ValidRef(tree.t, q) && tree.IsNode(tr.state)
            && Arrives(tree, tr, Plus(length, TranLen(tr.start, tr.end)), EdgeWord(tree.data, tree.end, tree.t, q), q)
            && |v| < |EdgeWord(tree.data, tree.end, tree.t, q)| <= tree.end
            && (AtLeast(length, threshold) ==> AtLeast(Plus(length, TranLen(tr.start, tr.end)), threshold))
  {
    var s := parent.state.id;
    assert tree.StateRep(s) && tree.TranRep(s, k);
    var q := Ref(s, k);
    assert EdgeOk(tree.data, tree.end, tree.t, q);
    EdgeOccurs(tree.data, tree.end, tree.t, q);
    assert tree.StateRep(EdgeAt(tree.t, q).to);
  }

  lemma StateDone(d: seq<int>, n: nat, t: Tree, threshold: int, s: nat, lists: map<int, seq<nat>>, ms: seq<Match>,
      ws: seq<seq<int>>)
    requires Sealed(d, n, t) && s in t.word && s < |t.edges| && threshold >= 1
    requires BelowUpTo(d, n, t, threshold, ws, s, |t.edges[s]|)
    requires |t.word[s]| >= threshold ==> Lists(d, lists, OccUpTo(d, n, t, s, |t.edges[s]|))
    ensures t.word[s] !in ws
    ensures MaximalRepeat(d, n, threshold, t.word[s]) <==> |t.word[s]| >= threshold && |lists| > 1
    ensures |t.word[s]| >= threshold ==> Lists(d, lists, Occ(d, n, t.word[s]))
    ensures Below(d, n, t, threshold,
                  if |t.word[s]| >= threshold && |lists| > 1 then ws + [t.word[s]] else ws, t.word[s])
  {
    if |t.word[s]| >= threshold {
      OccUpToAll(d, n, t, s);
      ListCount(d, n, t.word[s], lists);
      StateHasTwoNext(d, n, t, s);
    }
    BelowAll(d, n, t, threshold, ws, s, MaximalRepeat(d, n, threshold, t.word[s]));
  }

  lemma ReportOwn(d: seq<int>, n: nat, t: Tree, threshold: int, s: nat, lists: map<int, seq<nat>>, ms: seq<Match>,
      ws: seq<seq<int>>, m: Match)
    requires Reported(d, n, threshold, ms, ws) && s in t.word && t.word[s] !in ws
    requires MaximalRepeat(d, n, threshold, t.word[s])
    requires NoDup(m.ps) && (forall i :: i in m.ps <==> i in Occ(d, n, t.word[s])) && m.len == |t.word[s]|
    ensures Reported(d, n, threshold, ms + [m], ws + [t.word[s]])
  {
    ReportedMore(d, n, threshold, ms, ws, [m], [t.word[s]]);
  }

  /** Finds all maximal repeats of at least `threshold` tokens. `ws` are the repeated strings:
      each maximal repeat of the text is reported by exactly one match, and nothing else is. */
  method FindDuplOver(tree: STree, threshold: int) returns (ms: seq<Match>, ghost ws: seq<seq<int>>)
    requires tree.Valid() && tree.end == |tree.data| > 0 && threshold >= 1
    requires forall i :: 0 <= i < |tree.data| - 1 ==> tree.data[i] != tree.data[|tree.data| - 1]
    ensures |ms| == |ws| && NoDup(ws)
    ensures forall i :: 0 <= i < |ms| ==> Names(tree.data, |tree.data|, ms[i], ws[i])
    ensures forall v :: v in ws <==> MaximalRepeat(tree.data, |tree.data|, threshold, v)
  {
    hide Between, Inv, Sealed, MaximalRepeat, Names;
    ghost var d, n, t := tree.data, tree.end, tree.t;
    BetweenSealed(d, n, t, tree.link, tree.s.id, tree.start);
    assert tree.StateRep(ROOT);
    var auxTran := new Tran(0, At(0), tree.root, Ref(ROOT, 0));
    var cl;
    cl, ms, ws := WalkTrans(tree, auxTran, Fin(0), threshold, [], Ref(ROOT, 0));
    forall v
      ensures v in ws <==> MaximalRepeat(d, n, threshold, v)
    {
      ReportedAll(d, n, t, threshold, ms, ws, v);
    }
  }

  lemma BetweenSealed(d: seq<int>, n: nat, t: Tree, link: map<nat, nat>, s: nat, start: nat)
    requires Between(d, n, t, link, s, start) && n > 0
    requires forall i :: 0 <= i < n - 1 ==> d[i] != d[n - 1]
    ensures Sealed(d, n, t) && Inv(d, n, t) && t.word[ROOT] == []
  {
    UniqueEndGivesAllLeaves(d, n, t, link, s, start);
  }

  lemma ReportedAll(d: seq<int>, n: nat, t: Tree, threshold: int, ms: seq<Match>, ws: seq<seq<int>>, v: seq<int>)
    requires Sealed(d, n, t) && threshold >= 1
    requires Reported(d, n, threshold, ms, ws) && Below(d, n, t, threshold, ws, [])
    ensures v in ws <==> MaximalRepeat(d, n, threshold, v)
  {
    if MaximalRepeat(d, n, threshold, v) {
      BranchingIsTwoNext(d, n, t, v);
    }
  }
}
