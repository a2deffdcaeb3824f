/** The suffix tree of mibk/dupl as a mathematical value: the invariant that Ukkonen's
    construction keeps, and what the tree says about its text. */
module SuffixTreeModel {

  /** The last position of a transition's label; a transition into a leaf stays open. */
  datatype End = At(pos: nat) | Open

  /** A transition, with its target named by number. */
  datatype Edge = Edge(start: nat, end: End, to: nat)

  /** The place of a transition: the state it leaves and its index there. */
  datatype Ref = Ref(st: nat, ix: nat)

  /** `edges` are the transitions of every state. `word` gives the string of every
      branching state; the other states are leaves (and the auxiliary state).
      `up` is the transition into a branching state, `leaf[i]` the one of suffix `i`. */
  datatype Tree = Tree(edges: seq<seq<Edge>>, word: map<nat, seq<int>>, up: map<nat, Ref>, leaf: seq<Ref>)

  const ROOT: nat := 0
  const AUX: nat := 1

  ghost predicate Occurs(d: seq<int>, m: nat, v: seq<int>, i: int)
  {
    0 <= i && i + |v| <= m <= |d| && d[i..i + |v|] == v
  }

  function Stop(e: Edge, m: nat): nat {
    if e.end.At? then e.end.pos + 1 else m
  }

  ghost predicate ValidRef(t: Tree, r: Ref) {
    r.st in t.word && r.st < |t.edges| && r.ix < |t.edges[r.st]|
  }

  function EdgeAt(t: Tree, r: Ref): Edge
    requires r.st < |t.edges| && r.ix < |t.edges[r.st]|
  {
    t.edges[r.st][r.ix]
  }

  /** What holds of one transition while the first `m` tokens of `d` have been seen. */
  ghost predicate EdgeOk(d: seq<int>, m: nat, t: Tree, r: Ref)
    requires ValidRef(t, r) && m <= |d|
  {
    var e := EdgeAt(t, r);
    var v := t.word[r.st];
    && |v| <= e.start < Stop(e, m) <= m
    && e.to < |t.edges|
    && d[e.start - |v|..e.start] == v
    && e.start - |v| < |t.leaf|
    && (if e.end.At? then
          && e.to in t.word && e.to != ROOT
          && t.word[e.to] == v + d[e.start..e.end.pos + 1]
          && e.to in t.up && t.up[e.to] == r
        else
          && e.to !in t.word && e.to != AUX
          && t.leaf[e.start - |v|] == r)
  }

  /** A branching state other than the root is the target of the transition `up` names. */
  ghost predicate StateOk(t: Tree, s: nat) {
    s in t.up && ValidRef(t, t.up[s]) && EdgeAt(t, t.up[s]).to == s && EdgeAt(t, t.up[s]).end.At?
  }

  /** Suffix `i` ends in the open transition `leaf[i]`. */
  ghost predicate LeafOk(t: Tree, i: nat)
    requires i < |t.leaf|
  {
    ValidRef(t, t.leaf[i]) &&
    var e := EdgeAt(t, t.leaf[i]);
    e.end.Open? && e.start == i + |t.word[t.leaf[i].st]|
  }

  /** Transitions of one state start with distinct tokens. */
  ghost predicate Distinct(d: seq<int>, es: seq<Edge>) {
    && (forall k :: 0 <= k < |es| ==> es[k].start < |d|)
    && (forall j, k :: 0 <= j < k < |es| ==> d[es[j].start] != d[es[k].start])
  }

  /** The invariant of the tree over the first `m` tokens. */
  ghost predicate Inv(d: seq<int>, m: nat, t: Tree) {
    && m <= |d|
    && |t.edges| >= 2
    && ROOT in t.word && t.word[ROOT] == [] && AUX !in t.word
    && (forall s {:trigger s in t.word} :: s in t.word ==> s < |t.edges|)
    && (forall s {:trigger t.edges[s]} :: 0 <= s < |t.edges| && s !in t.word ==> t.edges[s] == [])
    && (forall s {:trigger StateOk(t, s)} :: s in t.word && s != ROOT ==> StateOk(t, s))
    && (forall r {:trigger EdgeOk(d, m, t, r)} :: ValidRef(t, r) ==> EdgeOk(d, m, t, r))
    && (forall s {:trigger Distinct(d, t.edges[s])} :: s in t.word ==> Distinct(d, t.edges[s]))
    && (forall i {:trigger LeafOk(t, i)} :: 0 <= i < |t.leaf| ==> LeafOk(t, i))
  }

  lemma InvBound(d: seq<int>, m: nat, t: Tree)
    requires Inv(d, m, t)
    ensures m <= |d| && ROOT in t.word && t.word[ROOT] == []
  {}

  lemma InvLeaf(d: seq<int>, m: nat, t: Tree, i: nat)
    requires Inv(d, m, t) && i < |t.leaf|
    ensures LeafOk(t, i)
  {
    assert LeafOk(t, i);
  }

  lemma InvEdge(d: seq<int>, m: nat, t: Tree, r: Ref)
    requires Inv(d, m, t) && ValidRef(t, r)
    ensures EdgeOk(d, m, t, r) && Distinct(d, t.edges[r.st])
  {
    assert EdgeOk(d, m, t, r);
    assert Distinct(d, t.edges[r.st]);
  }

  lemma InvState(d: seq<int>, m: nat, t: Tree, s: nat)
    requires Inv(d, m, t) && s in t.word
    ensures s < |t.edges| && Distinct(d, t.edges[s]) && (s != ROOT ==> StateOk(t, s))
  {
    assert Distinct(d, t.edges[s]);
  }

  /** The index of the transition whose label starts with `c`, or |es|. */
  function FindIx(d: seq<int>, es: seq<Edge>, c: int): (k: nat)
    ensures k <= |es|
    ensures k < |es| ==> es[k].start < |d| && d[es[k].start] == c
    ensures forall j :: 0 <= j < k && es[j].start < |d| ==> d[es[j].start] != c
  {
    if es == [] then 0
    else if es[0].start < |d| && d[es[0].start] == c then 0
    else
      var k := FindIx(d, es[1..], c);
      assert forall j :: 1 <= j < k + 1 ==> es[j] == es[1..][j - 1];
      k + 1
  }

  /** Whether the string `x` can be read from state `s` downwards. */
  ghost predicate Reads(d: seq<int>, m: nat, t: Tree, s: nat, x: seq<int>)
    requires Inv(d, m, t) && s < |t.edges|
    decreases |x|
  {
    x == [] || (
      s in t.word &&
      var k := FindIx(d, t.edges[s], x[0]);
      k < |t.edges[s]| &&
      assert ValidRef(t, Ref(s, k));
      var e := t.edges[s][k];
      assert EdgeOk(d, m, t, Ref(s, k));
      var lab := d[e.start..Stop(e, m)];
      if |x| <= |lab| then x <= lab
      else lab <= x && Reads(d, m, t, e.to, x[|lab|..]))
  }

  lemma FindUnique(d: seq<int>, es: seq<Edge>, k: nat)
    requires Distinct(d, es) && k < |es|
    ensures FindIx(d, es, d[es[k].start]) == k
  {}

  lemma {:induction false} FindIs(d: seq<int>, es: seq<Edge>, c: int, k: nat)
    requires k <= |es| && (forall j :: 0 <= j < |es| ==> es[j].start < |d|)
    requires (forall j :: 0 <= j < k ==> d[es[j].start] != c) && (k < |es| ==> d[es[k].start] == c)
    ensures FindIx(d, es, c) == k
  {
  }

  /** The occurrence a transition stands for. */
  lemma EdgeOccurs(d: seq<int>, m: nat, t: Tree, r: Ref)
    requires Inv(d, m, t) && ValidRef(t, r)
    ensures EdgeOk(d, m, t, r)
    ensures var e := EdgeAt(t, r); var v := t.word[r.st];
            Occurs(d, m, v + d[e.start..Stop(e, m)], e.start - |v|)
  {
    assert EdgeOk(d, m, t, r);
    var e := EdgeAt(t, r);
    var v := t.word[r.st];
    assert d[e.start - |v|..Stop(e, m)] == d[e.start - |v|..e.start] + d[e.start..Stop(e, m)];
  }

  lemma {:induction false} Lift(d: seq<int>, m: nat, t: Tree, s: nat, x: seq<int>)
    requires Inv(d, m, t) && s in t.word
    ensures Reads(d, m, t, ROOT, t.word[s] + x) <==> Reads(d, m, t, s, x)
    decreases |t.word[s]|
  {
    if s == ROOT {
      assert t.word[s] + x == x;
    } else {
      assert StateOk(t, s);
      var r := t.up[s];
      var e := EdgeAt(t, r);
      assert EdgeOk(d, m, t, r);
      var lab := d[e.start..Stop(e, m)];
      assert Distinct(d, t.edges[r.st]);
      FindUnique(d, t.edges[r.st], r.ix);
      var y := lab + x;
      assert y[0] == d[e.start];
      assert y[|lab|..] == x;
      assert lab <= y;
      if |y| <= |lab| { assert x == []; }
      assert Reads(d, m, t, r.st, y) <==> Reads(d, m, t, s, x);
      assert t.word[s] + x == t.word[r.st] + y;
      Lift(d, m, t, r.st, y);
    }
  }

  lemma {:induction false} ReadsPrefix(d: seq<int>, m: nat, t: Tree, s: nat, x: seq<int>, k: nat)
    requires Inv(d, m, t) && s < |t.edges| && k <= |x| && Reads(d, m, t, s, x)
    ensures Reads(d, m, t, s, x[..k])
    decreases |x|
  {
    if k > 0 {
      var ix := FindIx(d, t.edges[s], x[0]);
      assert EdgeOk(d, m, t, Ref(s, ix));
      var e := t.edges[s][ix];
      var lab := d[e.start..Stop(e, m)];
      if |lab| < |x| && |lab| < k {
        ReadsPrefix(d, m, t, e.to, x[|lab|..], k - |lab|);
        assert x[..k][|lab|..] == x[|lab|..][..k - |lab|];
      }
    }
  }

  /** Soundness: a readable string occurs in the text. */
  lemma {:induction false} ReadsOccurs(d: seq<int>, m: nat, t: Tree, s: nat, x: seq<int>) returns (i: nat)
    requires Inv(d, m, t) && s in t.word && Reads(d, m, t, s, x)
    ensures Occurs(d, m, t.word[s] + x, i)
    decreases |x|
  {
    hide Inv;
    InvBound(d, m, t);
    InvState(d, m, t, s);
    if x == [] {
      assert t.word[s] + x == t.word[s];
      if s == ROOT { return 0; }
      var r := t.up[s];
      InvEdge(d, m, t, r);
      EdgeOccurs(d, m, t, r);
      return EdgeAt(t, r).start - |t.word[r.st]|;
    }
    var k := FindIx(d, t.edges[s], x[0]);
    var r := Ref(s, k);
    InvEdge(d, m, t, r);
    var e := t.edges[s][k];
    var v := t.word[s];
    var lab := d[e.start..Stop(e, m)];
    if |x| <= |lab| {
      EdgeOccurs(d, m, t, r);
      i := e.start - |v|;
      assert x == lab[..|x|];
      assert d[i..i + |v + x|] == (v + lab)[..|v + x|];
    } else {
      i := ReadsOccurs(d, m, t, e.to, x[|lab|..]);
      assert v + x == t.word[e.to] + x[|lab|..];
    }
  }

  /** A suffix that has its leaf can be read. */
  lemma LeafReads(d: seq<int>, m: nat, t: Tree, i: nat, j: nat)
    requires Inv(d, m, t) && i < |t.leaf| && i <= j <= m
    ensures Reads(d, m, t, ROOT, d[i..j])
  {
    assert LeafOk(t, i);
    var r := t.leaf[i];
    var e := EdgeAt(t, r);
    assert EdgeOk(d, m, t, r);
    assert Distinct(d, t.edges[r.st]);
    FindUnique(d, t.edges[r.st], r.ix);
    var x := d[e.start..m];
    assert Reads(d, m, t, r.st, x);
    Lift(d, m, t, r.st, x);
    assert t.word[r.st] + x == d[i..m];
    ReadsPrefix(d, m, t, ROOT, d[i..m], j - i);
    assert d[i..m][..j - i] == d[i..j];
  }

  /** The pending suffix d[k..n] also occurs at an earlier place (or is empty). */
  ghost predicate Seen(d: seq<int>, n: nat, k: nat)
    requires n <= |d|
  {
    k >= n || exists o :: o < k && Occurs(d, n, d[k..n], o)
  }

  lemma ShiftBack(d: seq<int>, n: nat, k: nat, o: nat, i: nat, j: nat)
    requires o < k <= i <= j <= n <= |d| && Occurs(d, n, d[k..n], o)
    ensures d[i..j] == d[i - (k - o)..j - (k - o)]
  {
    var v := d[k..n];
    forall x | 0 <= x < j - i
      ensures d[i..j][x] == d[i - (k - o)..j - (k - o)][x]
    {
      assert v[i - k + x] == d[o..o + |v|][i - k + x];
    }
  }

  /** Shifting back often enough finds a copy that starts in a suffix with a leaf. */
  lemma {:induction false} EarlyCopy(d: seq<int>, n: nat, k: nat, i: nat, j: nat) returns (i': nat)
    requires n <= |d| && Seen(d, n, k) && k <= i < j <= n
    ensures i' < k && d[i'..i' + (j - i)] == d[i..j]
    decreases i
  {
    var o :| o < k && Occurs(d, n, d[k..n], o);
    ShiftBack(d, n, k, o, i, j);
    i' := i - (k - o);
    if i' >= k {
      i' := EarlyCopy(d, n, k, i', i' + (j - i));
    }
  }

  /** Completeness: if the pending suffix occurs earlier, every substring can be read. */
  lemma SubstringReads(d: seq<int>, n: nat, m: nat, t: Tree, i: nat, j: nat)
    requires Inv(d, m, t) && n <= m && Seen(d, n, |t.leaf|) && i <= j <= n
    ensures Reads(d, m, t, ROOT, d[i..j])
  {
    hide Inv;
    InvBound(d, m, t);
    if i < |t.leaf| {
      LeafReads(d, m, t, i, j);
    } else if i < j {
      var i' := EarlyCopy(d, n, |t.leaf|, i, j);
      LeafReads(d, m, t, i', i' + (j - i));
    }
  }

  // ----- the two ways in which the construction changes the tree -----

  /** Makes a new state in the middle of a transition, just before position `sp`. */
  function Split(d: seq<int>, t: Tree, r: Ref, sp: nat): Tree
    requires ValidRef(t, r) && EdgeAt(t, r).start <= sp <= |d|
  {
    var e := EdgeAt(t, r);
    var v := t.word[r.st];
    var new' := |t.edges|;
    var below := Ref(new', 0);
    Tree(t.edges[r.st := t.edges[r.st][r.ix := Edge(e.start, if sp == 0 then Open else At(sp - 1), new')]]
           + [[Edge(sp, e.end, e.to)]],
         t.word[new' := v + d[e.start..sp]],
         if e.end.At? then t.up[new' := r][e.to := below] else t.up[new' := r],
         if e.end.Open? && 0 <= e.start - |v| < |t.leaf| then t.leaf[e.start - |v| := below] else t.leaf)
  }

  /** Adds a leaf below state `s`, by a transition that starts at position `i`. */
  function Fork(t: Tree, s: nat, i: nat): Tree
    requires s < |t.edges|
  {
    t.(edges := t.edges[s := t.edges[s] + [Edge(i, Open, |t.edges|)]] + [[]],
       leaf := t.leaf + [Ref(s, |t.edges[s]|)])
  }

  ghost predicate CanSplit(d: seq<int>, m: nat, t: Tree, r: Ref, sp: nat) {
    Inv(d, m, t) && ValidRef(t, r) && EdgeOk(d, m, t, r) && EdgeAt(t, r).start < sp < Stop(EdgeAt(t, r), m)
  }

  lemma SplitStateOk(d: seq<int>, m: nat, t: Tree, r: Ref, sp: nat, s: nat)
    requires CanSplit(d, m, t, r, sp)
    requires (s in t.word && s != ROOT) || s == |t.edges|
    ensures StateOk(Split(d, t, r, sp), s)
  {
    assert |t.edges| !in t.word;
    if s != |t.edges| {
      assert StateOk(t, s);
      assert EdgeOk(d, m, t, t.up[s]);
    }
  }

  lemma SplitLeafOk(d: seq<int>, m: nat, t: Tree, r: Ref, sp: nat, i: nat)
    requires CanSplit(d, m, t, r, sp) && i < |t.leaf|
    ensures LeafOk(Split(d, t, r, sp), i)
  {
    assert |t.edges| !in t.word;
    assert LeafOk(t, i);
    assert EdgeOk(d, m, t, t.leaf[i]);
  }

  lemma SplitBelow(d: seq<int>, m: nat, t: Tree, r: Ref, sp: nat)
    requires CanSplit(d, m, t, r, sp)
    ensures ValidRef(Split(d, t, r, sp), Ref(|t.edges|, 0))
    ensures EdgeOk(d, m, Split(d, t, r, sp), Ref(|t.edges|, 0))
  {
    var e := EdgeAt(t, r);
    var v := t.word[r.st];
    assert d[e.start - |v|..sp] == v + d[e.start..sp];
    if e.end.At? {
      assert v + d[e.start..e.end.pos + 1] == v + d[e.start..sp] + d[sp..e.end.pos + 1];
    }
  }

  lemma SplitOther(d: seq<int>, m: nat, t: Tree, r: Ref, sp: nat, q: Ref)
    requires CanSplit(d, m, t, r, sp) && ValidRef(t, q)
    ensures ValidRef(Split(d, t, r, sp), q) && EdgeOk(d, m, Split(d, t, r, sp), q)
  {
    assert |t.edges| !in t.word;
    assert EdgeOk(d, m, t, q);
  }

  lemma SplitDistinct(d: seq<int>, m: nat, t: Tree, r: Ref, sp: nat, s: nat)
    requires CanSplit(d, m, t, r, sp) && s in t.word
    ensures s < |t.edges| && Distinct(d, Split(d, t, r, sp).edges[s])
  {
    assert Distinct(d, t.edges[s]);
  }

  lemma SplitInv(d: seq<int>, m: nat, t: Tree, r: Ref, sp: nat)
    requires CanSplit(d, m, t, r, sp)
    ensures Inv(d, m, Split(d, t, r, sp))
  {
    var t' := Split(d, t, r, sp);
    forall s | s in t'.word && s != ROOT
      ensures StateOk(t', s)
    {
      SplitStateOk(d, m, t, r, sp, s);
    }
    forall q | ValidRef(t', q)
      ensures EdgeOk(d, m, t', q)
    {
      if q.st == |t.edges| { SplitBelow(d, m, t, r, sp); } else { SplitOther(d, m, t, r, sp, q); }
    }
    forall s | s in t'.word
      ensures Distinct(d, t'.edges[s])
    {
      if s != |t.edges| { SplitDistinct(d, m, t, r, sp, s); }
    }
    forall i | 0 <= i < |t'.leaf|
      ensures LeafOk(t', i)
    {
      SplitLeafOk(d, m, t, r, sp, i);
    }
  }

  ghost predicate CanFork(d: seq<int>, m: nat, t: Tree, s: nat, i: nat) {
    && Inv(d, m, t) && s in t.word && i < m
    && |t.word[s]| <= i && i - |t.word[s]| == |t.leaf| && d[|t.leaf|..i] == t.word[s]
    && FindIx(d, t.edges[s], d[i]) == |t.edges[s]|
  }

  lemma ForkEdgeOk(d: seq<int>, m: nat, t: Tree, s: nat, i: nat, q: Ref)
    requires CanFork(d, m, t, s, i) && ValidRef(Fork(t, s, i), q)
    ensures EdgeOk(d, m, Fork(t, s, i), q)
  {
    if q != Ref(s, |t.edges[s]|) {
      assert ValidRef(t, q);
      assert EdgeOk(d, m, t, q);
    }
  }

  lemma ForkLeafOk(d: seq<int>, m: nat, t: Tree, s: nat, i: nat, k: nat)
    requires CanFork(d, m, t, s, i) && k <= |t.leaf|
    ensures LeafOk(Fork(t, s, i), k)
  {
    if k < |t.leaf| {
      assert LeafOk(t, k);
      assert EdgeOk(d, m, t, t.leaf[k]);
    }
  }

  lemma ForkInv(d: seq<int>, m: nat, t: Tree, s: nat, i: nat)
    requires CanFork(d, m, t, s, i)
    ensures Inv(d, m, Fork(t, s, i))
  {
    var t' := Fork(t, s, i);
    forall x | x in t'.word && x != ROOT
      ensures StateOk(t', x)
    {
      assert StateOk(t, x);
    }
    forall q | ValidRef(t', q)
      ensures EdgeOk(d, m, t', q)
    {
      ForkEdgeOk(d, m, t, s, i, q);
    }
    forall x | x in t'.word
      ensures Distinct(d, t'.edges[x])
    {
      assert Distinct(d, t.edges[x]);
    }
    forall k | 0 <= k < |t'.leaf|
      ensures LeafOk(t', k)
    {
      ForkLeafOk(d, m, t, s, i, k);
    }
  }
}
