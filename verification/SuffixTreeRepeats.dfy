/** What the branching states of a finished suffix tree stand for: the strings of the text
    that are followed by two different tokens, each with all its occurrences. */
module SuffixTreeRepeats {
  import opened SuffixTreeModel
  import opened SuffixTreeSteps

  // ----- states and their words -----

  /** `v` is a proper beginning of `w`. */
  predicate Proper(v: seq<int>, w: seq<int>) {
    |v| < |w| && v <= w
  }

  /** The transition into a state, seen from the word of the state. */
  lemma UpEdge(d: seq<int>, n: nat, t: Tree, s: nat)
    requires Inv(d, n, t) && s in t.word && s != ROOT
    ensures StateOk(t, s) && EdgeOk(d, n, t, t.up[s])
    ensures Proper(t.word[t.up[s].st], t.word[s])
    ensures t.up[s].ix == FindIx(d, t.edges[t.up[s].st], t.word[s][|t.word[t.up[s].st]|])
    ensures t.edges[t.up[s].st][t.up[s].ix].to == s
  {
    assert StateOk(t, s);
    var r := t.up[s];
    assert EdgeOk(d, n, t, r);
    assert Distinct(d, t.edges[r.st]);
    FindUnique(d, t.edges[r.st], r.ix);
    assert t.word[s][|t.word[r.st]|] == d[EdgeAt(t, r).start];
  }

  /** Different states spell different words. */
  lemma {:induction false} WordsDiffer(d: seq<int>, n: nat, t: Tree, s: nat, q: nat)
    requires Inv(d, n, t) && s in t.word && q in t.word && t.word[s] == t.word[q]
    ensures s == q
    decreases |t.word[s]| + |t.word[q]|
  {
    if s != ROOT { UpEdge(d, n, t, s); }
    if q != ROOT { UpEdge(d, n, t, q); }
    if s != ROOT && q != ROOT {
      var u, v := t.up[s].st, t.up[q].st;
      if |t.word[u]| == |t.word[v]| {
        WordsDiffer(d, n, t, u, v);
      } else if |t.word[u]| < |t.word[v]| {
        Toward(d, n, t, u, v);
      } else {
        Toward(d, n, t, v, u);
      }
    }
  }

  /** From a state there is a transition towards every state with a longer word. */
  lemma {:induction false} Toward(d: seq<int>, n: nat, t: Tree, p: nat, s: nat)
    requires Inv(d, n, t) && p in t.word && s in t.word && Proper(t.word[p], t.word[s])
    ensures var k := FindIx(d, t.edges[p], t.word[s][|t.word[p]|]);
            k < |t.edges[p]| && t.edges[p][k].end.At? && t.edges[p][k].to in t.word
                && t.word[t.edges[p][k].to] <= t.word[s]
    decreases |t.word[p]| + |t.word[s]|
  {
    UpEdge(d, n, t, s);
    var u := t.up[s].st;
    if |t.word[u]| == |t.word[p]| {
      WordsDiffer(d, n, t, u, p);
    } else if |t.word[u]| > |t.word[p]| {
      Toward(d, n, t, p, u);
    } else {
      Toward(d, n, t, u, p);
    }
  }

  /** A string read on from `s` with two different next tokens ends in a branching state. */
  lemma {:induction false} TwoWays(d: seq<int>, n: nat, t: Tree, s: nat, y: seq<int>, a: int, b: int) returns (q: nat)
    requires Inv(d, n, t) && s in t.word && a != b
    requires Reads(d, n, t, s, y + [a]) && Reads(d, n, t, s, y + [b])
    ensures q in t.word && t.word[q] == t.word[s] + y
    decreases |y|
  {
    if y == [] {
      q := s;
      assert t.word[s] + y == t.word[s];
    } else {
      var k := FindIx(d, t.edges[s], y[0]);
      assert (y + [a])[0] == y[0] && (y + [b])[0] == y[0];
      var e := t.edges[s][k];
      assert EdgeOk(d, n, t, Ref(s, k));
      var lab := d[e.start..Stop(e, n)];
      assert |y| + 1 > |lab| by {
        assert (y + [a])[|y|] != (y + [b])[|y|];
      }
      assert (y + [a])[|lab|..] == y[|lab|..] + [a] && (y + [b])[|lab|..] == y[|lab|..] + [b];
      q := TwoWays(d, n, t, e.to, y[|lab|..], a, b);
      assert y == lab + y[|lab|..] by { assert (y + [a])[..|lab|] == lab; }
    }
  }

  // ----- occurrences -----

  /** The last token of the text occurs nowhere else, and every suffix has its leaf. */
  ghost predicate Sealed(d: seq<int>, n: nat, t: Tree) {
    Inv(d, n, t) && Bushy(t, ROOT) && |t.leaf| == n > 0 && forall i :: 0 <= i < n - 1 ==> d[i] != d[n - 1]
  }

  ghost function Occ(d: seq<int>, n: nat, v: seq<int>): set<nat> {
    set i: nat | i <= n && Occurs(d, n, v, i)
  }

  /** The string from the root to the end of a transition. */
  ghost function EdgeWord(d: seq<int>, n: nat, t: Tree, r: Ref): seq<int>
    requires Inv(d, n, t) && ValidRef(t, r)
  {
    assert EdgeOk(d, n, t, r);
    t.word[r.st] + d[EdgeAt(t, r).start..Stop(EdgeAt(t, r), n)]
  }

  /** A string that ends the text occurs once. */
  lemma EndOccursOnce(d: seq<int>, n: nat, v: seq<int>, i: nat, j: nat)
    requires n <= |d| && n > 0 && forall k :: 0 <= k < n - 1 ==> d[k] != d[n - 1]
    requires v != [] && Occurs(d, n, v, i) && i + |v| == n && Occurs(d, n, v, j)
    ensures j == i
  {
    assert d[i..i + |v|][|v| - 1] == d[j..j + |v|][|v| - 1];
  }

  /** Every occurrence of the word of a branching state goes on with another token. */
  lemma GoesOn(d: seq<int>, n: nat, t: Tree, s: nat, o: nat)
    requires Sealed(d, n, t) && s in t.word && s != ROOT && Occurs(d, n, t.word[s], o)
    ensures o + |t.word[s]| < n
  {
    WordNonEmpty(d, n, t, s);
    assert |t.edges[s]| >= 2;
    assert ValidRef(t, Ref(s, 0));
    assert EdgeOk(d, n, t, Ref(s, 0));
    var e := t.edges[s][0];
    if o + |t.word[s]| == n {
      EndOccursOnce(d, n, t.word[s], o, e.start - |t.word[s]|);
    }
  }

  /** A suffix that is also read inside a label reaches the end of the label. */
  lemma PrefixToEnd(d: seq<int>, n: nat, i: nat, j: nat, k: nat)
    requires i < n && j < k <= n <= |d| && forall x :: 0 <= x < n - 1 ==> d[x] != d[n - 1]
    requires d[i..n] <= d[j..k]
    ensures d[i..n] == d[j..k]
  {
    var y := d[i..n];
    assert y[n - i - 1] == d[j..k][n - i - 1] == d[j + (n - i - 1)];
  }

  lemma SuffixReads(d: seq<int>, n: nat, t: Tree, s: nat, o: nat)
    requires Sealed(d, n, t) && s in t.word && Occurs(d, n, t.word[s], o) && o + |t.word[s]| < n
    ensures Reads(d, n, t, s, d[o + |t.word[s]|..n])
  {
    var w := t.word[s];
    LeafReads(d, n, t, o, n);
    assert d[o..n] == w + d[o + |w|..n];
    Lift(d, n, t, s, d[o + |w|..n]);
  }

  /** A suffix that can be read from `s` starts with the whole label of its transition. */
  lemma LabelFollows(d: seq<int>, n: nat, t: Tree, s: nat, i: nat)
    requires Sealed(d, n, t) && s in t.word && i < n && Reads(d, n, t, s, d[i..n])
    ensures s < |t.edges| && ValidRef(t, Ref(s, FindIx(d, t.edges[s], d[i])))
    ensures EdgeOk(d, n, t, Ref(s, FindIx(d, t.edges[s], d[i])))
    ensures var e := t.edges[s][FindIx(d, t.edges[s], d[i])]; d[e.start..Stop(e, n)] <= d[i..n]
  {
    var y := d[i..n];
    assert y[0] == d[i];
    var k := FindIx(d, t.edges[s], d[i]);
    var e := t.edges[s][k];
    assert EdgeOk(d, n, t, Ref(s, k));
    if |y| <= Stop(e, n) - e.start {
      PrefixToEnd(d, n, i, e.start, Stop(e, n));
    }
  }

  /** An occurrence of the word of a state that goes on with `c` is an occurrence of the
      whole string along the transition for `c`. */
  lemma OccFollowsEdge(d: seq<int>, n: nat, t: Tree, s: nat, o: nat)
    requires Sealed(d, n, t) && s in t.word && Occurs(d, n, t.word[s], o) && o + |t.word[s]| < n
    ensures s < |t.edges|
    ensures var k := FindIx(d, t.edges[s], d[o + |t.word[s]|]);
            ValidRef(t, Ref(s, k)) && Occurs(d, n, EdgeWord(d, n, t, Ref(s, k)), o)
  {
    hide Sealed, Inv, Reads, FindIx;
    var w := t.word[s];
    var i := o + |w|;
    SealedInv(d, n, t);
    SuffixReads(d, n, t, s, o);
    LabelFollows(d, n, t, s, i);
    var e := t.edges[s][FindIx(d, t.edges[s], d[i])];
    var lab := d[e.start..Stop(e, n)];
    assert lab == d[i..n][..|lab|] == d[i..i + |lab|];
    assert d[o..i + |lab|] == d[o..i] + d[i..i + |lab|];
  }

  lemma SealedInv(d: seq<int>, n: nat, t: Tree)
    requires Sealed(d, n, t)
    ensures Inv(d, n, t) && n <= |d| && (forall s {:trigger s in t.word} :: s in t.word ==> s < |t.edges|)
  {}

  /** The occurrences of the word of `s` that go on along one of the first `k` transitions. */
  ghost function OccUpTo(d: seq<int>, n: nat, t: Tree, s: nat, k: nat): set<nat>
    requires n <= |d| && s in t.word && s < |t.edges|
  {
    set i | i in Occ(d, n, t.word[s]) && i + |t.word[s]| < n && FindIx(d, t.edges[s], d[i + |t.word[s]|]) < k
  }

  /** The occurrences along one transition are those that go on with its first token. */
  lemma OccOfEdge(d: seq<int>, n: nat, t: Tree, s: nat, k: nat, o: nat)
    requires Sealed(d, n, t) && s in t.word && s < |t.edges| && k < |t.edges[s]|
    ensures o in Occ(d, n, EdgeWord(d, n, t, Ref(s, k))) <==>
      (o in Occ(d, n, t.word[s]) && o + |t.word[s]| < n && FindIx(d, t.edges[s], d[o + |t.word[s]|]) == k)
  {
    var w := t.word[s];
    var v := EdgeWord(d, n, t, Ref(s, k));
    assert EdgeOk(d, n, t, Ref(s, k));
    assert Distinct(d, t.edges[s]);
    var e := t.edges[s][k];
    if o in Occ(d, n, v) {
      assert d[o..o + |v|][..|w|] == w == d[o..o + |w|];
      assert d[o + |w|] == d[o..o + |v|][|w|] == v[|w|] == d[e.start];
      FindUnique(d, t.edges[s], k);
    }
    if o in Occ(d, n, w) && o + |w| < n && FindIx(d, t.edges[s], d[o + |w|]) == k {
      OccFollowsEdge(d, n, t, s, o);
    }
  }

  lemma OccUpToNext(d: seq<int>, n: nat, t: Tree, s: nat, k: nat)
    requires Sealed(d, n, t) && s in t.word && s < |t.edges| && k < |t.edges[s]|
    ensures OccUpTo(d, n, t, s, k + 1) == OccUpTo(d, n, t, s, k) + Occ(d, n, EdgeWord(d, n, t, Ref(s, k)))
    ensures OccUpTo(d, n, t, s, k) !! Occ(d, n, EdgeWord(d, n, t, Ref(s, k)))
  {
    forall o: nat
      ensures o in OccUpTo(d, n, t, s, k + 1) <==>
          o in OccUpTo(d, n, t, s, k)
          || o in Occ(d, n, EdgeWord(d, n, t, Ref(s, k)))
      ensures !(o in OccUpTo(d, n, t, s, k) && o in Occ(d, n, EdgeWord(d, n, t, Ref(s, k))))
    {
      OccOfEdge(d, n, t, s, k, o);
    }
  }

  /** All transitions together lead to all occurrences. */
  lemma OccUpToAll(d: seq<int>, n: nat, t: Tree, s: nat)
    requires Sealed(d, n, t) && s in t.word && s != ROOT && s < |t.edges|
    ensures OccUpTo(d, n, t, s, |t.edges[s]|) == Occ(d, n, t.word[s])
  {
    forall o | o in Occ(d, n, t.word[s])
      ensures o in OccUpTo(d, n, t, s, |t.edges[s]|)
    {
      GoesOn(d, n, t, s, o);
      OccFollowsEdge(d, n, t, s, o);
    }
  }

  /** The string of a leaf occurs once, where its suffix starts. */
  lemma OccOfLeaf(d: seq<int>, n: nat, t: Tree, r: Ref)
    requires Sealed(d, n, t) && ValidRef(t, r) && EdgeAt(t, r).end.Open?
    ensures EdgeOk(d, n, t, r)
    ensures Occ(d, n, EdgeWord(d, n, t, r)) == {EdgeAt(t, r).start - |t.word[r.st]|}
  {
    EdgeOccurs(d, n, t, r);
    var v := EdgeWord(d, n, t, r);
    var i := EdgeAt(t, r).start - |t.word[r.st]|;
    forall j | j in Occ(d, n, v)
      ensures j == i
    {
      EndOccursOnce(d, n, v, i, j);
    }
  }

  // ----- maximal repeats -----

  /** The token before position `i`; the start of the text counts as 0. */
  function Context(d: seq<int>, i: nat): int {
    if 0 < i <= |d| then d[i - 1] else 0
  }

  ghost predicate TwoNext(d: seq<int>, n: nat, v: seq<int>) {
    exists i, j :: Occurs(d, n, v, i) && Occurs(d, n, v, j) && i + |v| < n && j + |v| < n && d[i + |v|] != d[j + |v|]
  }

  ghost predicate TwoBefore(d: seq<int>, n: nat, v: seq<int>) {
    exists i, j :: i in Occ(d, n, v) && j in Occ(d, n, v) && Context(d, i) != Context(d, j)
  }

  /** A string of at least `threshold` tokens that can be extended neither to the right nor to
      the left without losing occurrences. */
  ghost predicate MaximalRepeat(d: seq<int>, n: nat, threshold: int, v: seq<int>) {
    |v| >= threshold && TwoNext(d, n, v) && TwoBefore(d, n, v)
  }

  lemma OccSnoc(d: seq<int>, n: nat, v: seq<int>, i: nat)
    requires Occurs(d, n, v, i) && i + |v| < n
    ensures n <= |d| && v + [d[i + |v|]] == d[i..i + |v| + 1]
  {
    Snoc(d, i, i + |v|);
  }

  lemma OccReads(d: seq<int>, n: nat, t: Tree, v: seq<int>, i: nat)
    requires Sealed(d, n, t) && Occurs(d, n, v, i) && i + |v| < n
    ensures Reads(d, n, t, ROOT, v + [d[i + |v|]])
  {
    hide Reads, Inv, Bushy, Occurs;
    OccSnoc(d, n, v, i);
    LeafReads(d, n, t, i, i + |v| + 1);
  }

  /** The branching states are the strings followed by two different tokens. */
  lemma BranchingIsTwoNext(d: seq<int>, n: nat, t: Tree, v: seq<int>)
    requires Sealed(d, n, t) && v != []
    ensures TwoNext(d, n, v) <==> exists q :: q in t.word && t.word[q] == v
  {
    if TwoNext(d, n, v) {
      var i, j :| Occurs(d, n, v, i) && Occurs(d, n, v, j) && i + |v| < n && j + |v| < n && d[i + |v|] != d[j + |v|];
      OccReads(d, n, t, v, i);
      OccReads(d, n, t, v, j);
      var q := TwoWays(d, n, t, ROOT, v, d[i + |v|], d[j + |v|]);
      assert t.word[q] == [] + v == v;
    }
    if q :| q in t.word && t.word[q] == v {
      StateHasTwoNext(d, n, t, q);
    }
  }

  lemma StateHasTwoNext(d: seq<int>, n: nat, t: Tree, q: nat)
    requires Sealed(d, n, t) && q in t.word && q != ROOT
    ensures TwoNext(d, n, t.word[q])
  {
    assert |t.edges[q]| >= 2;
    assert EdgeOk(d, n, t, Ref(q, 0)) && EdgeOk(d, n, t, Ref(q, 1));
    assert Distinct(d, t.edges[q]);
    var v := t.word[q];
    var i, j := t.edges[q][0].start - |v|, t.edges[q][1].start - |v|;
    assert Occurs(d, n, v, i) && Occurs(d, n, v, j);
  }

  // ----- lists of positions by context -----

  predicate NoDup<T(==)>(s: seq<T>) {
    forall i, j :: 0 <= i < j < |s| ==> s[i] != s[j]
  }

  /** `lists` holds each position of `ps` once, under its context. */
  ghost predicate Lists(d: seq<int>, lists: map<int, seq<nat>>, ps: set<nat>) {
    && (forall c :: c in lists ==> lists[c] != [] && NoDup(lists[c]))
    && (forall c, i :: c in lists && i in lists[c] ==> i in ps && Context(d, i) == c)
    && (forall i :: i in ps ==> Context(d, i) in lists && i in lists[Context(d, i)])
  }

  function Merged(a: map<int, seq<nat>>, b: map<int, seq<nat>>): map<int, seq<nat>> {
    map c | c in a.Keys + b.Keys ::
      if c in a && c in b then a[c] + b[c] else if c in a then a[c] else b[c]
  }

  lemma MergedLists(d: seq<int>, a: map<int, seq<nat>>, b: map<int, seq<nat>>, p: set<nat>, q: set<nat>)
    requires Lists(d, a, p) && Lists(d, b, q) && p !! q
    ensures Lists(d, Merged(a, b), p + q)
  {
    var m := Merged(a, b);
    forall c | c in m
      ensures m[c] != [] && NoDup(m[c])
    {
      if c in a && c in b {
        assert forall i :: i in a[c] && i in b[c] ==> i in p && i in q;
        NoDupConcat(a[c], b[c]);
      }
    }
    forall i | i in p + q
      ensures Context(d, i) in m && i in m[Context(d, i)]
    {}
  }

  lemma NonEmpty<T>(s: set<T>) returns (a: T)
    requires |s| > 0
    ensures a in s
  {
    a :| a in s;
  }

  lemma TwoElements<T>(s: set<T>) returns (a: T, b: T)
    requires |s| > 1
    ensures a in s && b in s && a != b
  {
    a := NonEmpty(s);
    assert |s - {a}| == |s| - 1;
    b := NonEmpty(s - {a});
  }

  lemma AtLeastTwo(s: set<int>, a: int, b: int)
    requires a in s && b in s && a != b
    ensures |s| > 1
  {
    assert |s - {a}| == |s| - 1;
    assert b in s - {a};
  }

  /** There is more than one list iff there are two different contexts. */
  lemma ListCount(d: seq<int>, n: nat, v: seq<int>, lists: map<int, seq<nat>>)
    requires Lists(d, lists, Occ(d, n, v))
    ensures |lists| > 1 <==> TwoBefore(d, n, v)
  {
    assert |lists| == |lists.Keys|;
    if |lists| > 1 {
      var a, b := TwoElements(lists.Keys);
      var i, j := lists[a][0], lists[b][0];
      assert i in lists[a] && j in lists[b];
      assert i in Occ(d, n, v) && j in Occ(d, n, v);
    }
    if TwoBefore(d, n, v) {
      var i, j :| i in Occ(d, n, v) && j in Occ(d, n, v) && Context(d, i) != Context(d, j);
      AtLeastTwo(lists.Keys, Context(d, i), Context(d, j));
    }
  }

  // ----- the report of a walk -----

  /** A reported repeat: where it starts and how long it is. */
  datatype Match = Match(ps: seq<nat>, len: nat)

  /** The match names every occurrence of `v` once. */
  ghost predicate Names(d: seq<int>, n: nat, m: Match, v: seq<int>) {
    m.len == |v| && NoDup(m.ps) && (forall i :: i in m.ps <==> i in Occ(d, n, v))
  }

  /** The matches `ms` name exactly the maximal repeats `ws` among the states whose word starts
      with that of `s` and goes on along one of its first `k` transitions. */
  ghost predicate Reported(d: seq<int>, n: nat, threshold: int, ms: seq<Match>, ws: seq<seq<int>>) {
    && |ms| == |ws| && NoDup(ws)
    && (forall i :: 0 <= i < |ws| ==> Names(d, n, ms[i], ws[i]) && MaximalRepeat(d, n, threshold, ws[i]))
  }

  /** `ws` holds the maximal repeats that start with `v` ... */
  ghost predicate Below(d: seq<int>, n: nat, t: Tree, threshold: int, ws: seq<seq<int>>, v: seq<int>) {
    && (forall w :: w in ws ==> v <= w)
    && (forall q :: q in t.word && v <= t.word[q] && MaximalRepeat(d, n, threshold, t.word[q]) ==> t.word[q] in ws)
  }

  /** The transition of `s` along which the longer string `w` goes on. */
  ghost function Branch(d: seq<int>, t: Tree, s: nat, w: seq<int>): nat
    requires s in t.word && s < |t.edges| && |t.word[s]| < |w|
  {
    FindIx(d, t.edges[s], w[|t.word[s]|])
  }

  /** ... or those that properly start with the word of `s` and go on along its first `k` transitions. */
  ghost predicate BelowUpTo(d: seq<int>, n: nat, t: Tree, threshold: int, ws: seq<seq<int>>, s: nat, k: nat)
    requires s in t.word && s < |t.edges|
  {
    && (forall w :: w in ws ==> Proper(t.word[s], w) && Branch(d, t, s, w) < k)
    && (forall q | q in t.word && Proper(t.word[s], t.word[q]) && Branch(d, t, s, t.word[q]) < k ::
          MaximalRepeat(d, n, threshold, t.word[q]) ==> t.word[q] in ws)
  }

  lemma EdgeBranch(d: seq<int>, n: nat, t: Tree, s: nat, k: nat, w: seq<int>)
    requires Inv(d, n, t) && s in t.word && s < |t.edges| && k < |t.edges[s]|
    requires EdgeWord(d, n, t, Ref(s, k)) <= w
    ensures Proper(t.word[s], w) && Branch(d, t, s, w) == k
  {
    assert EdgeOk(d, n, t, Ref(s, k));
    assert Distinct(d, t.edges[s]);
    FindUnique(d, t.edges[s], k);
    var v := EdgeWord(d, n, t, Ref(s, k));
    assert w[|t.word[s]|] == v[|t.word[s]|] == d[t.edges[s][k].start];
  }

  lemma BranchEdge(d: seq<int>, n: nat, t: Tree, s: nat, q: nat)
    requires Inv(d, n, t) && s in t.word && s < |t.edges| && q in t.word && Proper(t.word[s], t.word[q])
    ensures var k := Branch(d, t, s, t.word[q]);
            k < |t.edges[s]| && EdgeWord(d, n, t, Ref(s, k)) <= t.word[q]
  {
    Toward(d, n, t, s, q);
    assert EdgeOk(d, n, t, Ref(s, Branch(d, t, s, t.word[q])));
  }

  /** The matches found along one more transition. */
  lemma BelowNext(d: seq<int>, n: nat, t: Tree, threshold: int, ws: seq<seq<int>>, more: seq<seq<int>>, s: nat, k: nat)
    requires Inv(d, n, t) && s in t.word && s < |t.edges| && k < |t.edges[s]|
    requires BelowUpTo(d, n, t, threshold, ws, s, k)
    requires Below(d, n, t, threshold, more, EdgeWord(d, n, t, Ref(s, k)))
    ensures BelowUpTo(d, n, t, threshold, ws + more, s, k + 1)
    ensures forall w :: w in ws && w in more ==> false
  {
    forall w | w in more
      ensures Proper(t.word[s], w) && Branch(d, t, s, w) == k
    {
      EdgeBranch(d, n, t, s, k, w);
    }
    forall q | q in t.word && Proper(t.word[s], t.word[q]) && Branch(d, t, s, t.word[q]) < k + 1
               && MaximalRepeat(d, n, threshold, t.word[q])
      ensures t.word[q] in ws + more
    {
      BranchEdge(d, n, t, s, q);
    }
  }

  lemma ReportedMore(d: seq<int>, n: nat, threshold: int, ms: seq<Match>, ws: seq<seq<int>>, ms': seq<Match>,
      ws': seq<seq<int>>)
    requires Reported(d, n, threshold, ms, ws) && Reported(d, n, threshold, ms', ws')
    requires forall w :: w in ws && w in ws' ==> false
    ensures Reported(d, n, threshold, ms + ms', ws + ws')
  {
    NoDupConcat(ws, ws');
  }

  lemma NoDupConcat<T>(a: seq<T>, b: seq<T>)
    requires NoDup(a) && NoDup(b) && forall x :: x in a && x in b ==> false
    ensures NoDup(a + b)
  {
    forall i, j | 0 <= i < j < |a + b|
      ensures (a + b)[i] != (a + b)[j]
    {
      if i < |a| <= j {
        assert a[i] in a && b[j - |a|] in b;
      }
    }
  }

  /** All transitions done: only the word of `s` itself is missing. */
  lemma BelowAll(d: seq<int>, n: nat, t: Tree, threshold: int, ws: seq<seq<int>>, s: nat, own: bool)
    requires Inv(d, n, t) && s in t.word && s < |t.edges|
    requires BelowUpTo(d, n, t, threshold, ws, s, |t.edges[s]|)
    requires own == MaximalRepeat(d, n, threshold, t.word[s])
    ensures t.word[s] !in ws
    ensures Below(d, n, t, threshold, if own then ws + [t.word[s]] else ws, t.word[s])
  {
    var all := if own then ws + [t.word[s]] else ws;
    forall q | q in t.word && t.word[s] <= t.word[q] && MaximalRepeat(d, n, threshold, t.word[q])
      ensures t.word[q] in all
    {
      if t.word[q] == t.word[s] {
        assert own;
        assert all[|ws|] == t.word[s];
      } else {
        BranchEdge(d, n, t, s, q);
      }
    }
  }

  /** Below a leaf there is nothing to report. */
  lemma NothingBelowLeaf(d: seq<int>, n: nat, t: Tree, threshold: int, r: Ref)
    requires Sealed(d, n, t) && ValidRef(t, r) && EdgeAt(t, r).end.Open?
    ensures Below(d, n, t, threshold, [], EdgeWord(d, n, t, r))
  {
    forall q | q in t.word && EdgeWord(d, n, t, r) <= t.word[q]
      ensures false
    {
      EdgeBranch(d, n, t, r.st, r.ix, t.word[q]);
      Toward(d, n, t, r.st, q);
      assert false;
    }
  }

  /** A branching state of a finished tree has transitions, the root included. */
  lemma SealedHasTrans(d: seq<int>, n: nat, t: Tree, s: nat)
    requires Sealed(d, n, t) && s in t.word
    ensures s < |t.edges| && t.edges[s] != []
  {
    if s == ROOT {
      LeafReads(d, n, t, 0, n);
    }
  }
}
