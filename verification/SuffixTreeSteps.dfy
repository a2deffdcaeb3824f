/** The steps of one update of the suffix tree: the active point, suffix links and
    why the next place to look at always exists. */
module SuffixTreeSteps {
  import opened SuffixTreeModel

  /** The label of a transition has more than `k` tokens; an open one always grows. */
  predicate Longer(e: Edge, k: int) {
    e.end.Open? || e.end.pos - e.start + 1 > k
  }

  /** (s, start) is the canonical reference pair of the string word[s] + d[start..n]. */
  ghost predicate Canonical(d: seq<int>, m: nat, t: Tree, s: nat, start: nat, n: nat)
    requires Inv(d, m, t) && s in t.word && start <= n <= m
  {
    start == n || (
      var k := FindIx(d, t.edges[s], d[start]);
      k < |t.edges[s]| &&
      var e := t.edges[s][k];
      Longer(e, n - start) && e.start + (n - start) <= m && d[e.start..e.start + (n - start)] == d[start..n])
  }

  /** (s, start) refers to the pending suffix, the longest one without a leaf. */
  ghost predicate Pending(d: seq<int>, t: Tree, s: nat, start: nat, n: nat)
    requires n <= |d|
  {
    s in t.word && |t.leaf| <= n && start <= n && t.word[s] + d[start..n] == d[|t.leaf|..n]
  }

  ghost predicate Active(d: seq<int>, m: nat, t: Tree, s: nat, start: nat, n: nat)
    requires Inv(d, m, t) && n <= m
  {
    && Pending(d, t, s, start, n)
    && Canonical(d, m, t, s, start, n)
    && Seen(d, n, |t.leaf|)
  }

  /** All suffixes including the one-token one have leaves. */
  ghost predicate Finished(d: seq<int>, m: nat, t: Tree, s: nat, start: nat, n: nat)
    requires Inv(d, m, t) && n < m
  {
    |t.leaf| == n + 1 == start && s == ROOT && FindIx(d, t.edges[ROOT], d[n]) < |t.edges[ROOT]|
  }

  ghost predicate LinkOk(t: Tree, link: map<nat, nat>, s: nat)
    requires s in t.word
  {
    && s in link && link[s] in t.word
    && t.word[s] != [] && t.word[link[s]] == t.word[s][1..]
  }

  /** Every branching state but the root and those in `ex` has its suffix link. */
  ghost predicate LinkInv(t: Tree, link: map<nat, nat>, ex: set<nat>) {
    && ROOT in link && link[ROOT] == AUX
    && (forall s {:trigger LinkOk(t, link, s)} :: s in t.word && s != ROOT && s !in ex ==> LinkOk(t, link, s))
  }

  /** Every branching state but the root and `ex` has two transitions or more. */
  ghost predicate Bushy(t: Tree, ex: nat) {
    forall s {:trigger t.edges[s]} :: s in t.word && s < |t.edges| && s != ROOT && s != ex ==> |t.edges[s]| >= 2
  }

  /** The suffix d[k..n] also occurs earlier with a next token different from `c`. */
  ghost predicate Branches(d: seq<int>, n: nat, k: nat, c: int)
    requires k <= n <= |d|
  {
    exists o :: Occurs(d, n, d[k..n], o) && o < k && d[o + (n - k)] != c
  }

  /** The state whose link is still missing: it spells the suffix before the pending one. */
  ghost predicate Unlinked(d: seq<int>, n: nat, t: Tree, x: nat)
    requires n < |d|
  {
    x != ROOT ==>
      && x in t.word && 1 <= |t.leaf| <= n
      && t.word[x] == d[|t.leaf| - 1..n]
      && Branches(d, n, |t.leaf| - 1, d[n])
  }

  lemma WordNonEmpty(d: seq<int>, m: nat, t: Tree, s: nat)
    requires Inv(d, m, t) && s in t.word && s != ROOT
    ensures |t.word[s]| >= 1
  {
    assert StateOk(t, s);
    assert EdgeOk(d, m, t, t.up[s]);
  }

  /** The occurrence in the text that the transition under the active point stands for. */
  lemma ActiveEdge(d: seq<int>, m: nat, t: Tree, s: nat, start: nat, n: nat, k: nat) returns (o: nat)
    requires Inv(d, m, t) && n <= m && Active(d, m, t, s, start, n)
    requires k < |t.edges[s]| && (start < n ==> k == FindIx(d, t.edges[s], d[start]))
    ensures EdgeOk(d, m, t, Ref(s, k))
    ensures o == t.edges[s][k].start - |t.word[s]|
    ensures o + (n - |t.leaf|) == t.edges[s][k].start + (n - start) < Stop(t.edges[s][k], m)
    ensures o < |t.leaf| && Occurs(d, n, d[|t.leaf|..n], o) && o + (n - |t.leaf|) < n
  {
    var e := t.edges[s][k];
    var v := t.word[s];
    assert EdgeOk(d, m, t, Ref(s, k));
    o := e.start - |v|;
    assert |v| + (n - start) == n - |t.leaf| by { assert |v + d[start..n]| == |d[|t.leaf|..n]|; }
    assert d[o..e.start + (n - start)] == v + d[e.start..e.start + (n - start)];
  }

  /** The transition under the active point goes on with token `d[n]`. */
  ghost predicate Continues(d: seq<int>, t: Tree, s: nat, start: nat, n: nat, k: nat)
    requires n < |d| && Inv(d, n + 1, t)
  {
    && Active(d, n + 1, t, s, start, n)
    && k == FindIx(d, t.edges[s], d[start]) && k < |t.edges[s]|
    && t.edges[s][k].start + (n - start) < |d|
    && d[t.edges[s][k].start + (n - start)] == d[n]
  }

  lemma Snoc(d: seq<int>, i: nat, j: nat)
    requires i <= j < |d|
    ensures d[i..j + 1] == d[i..j] + [d[j]]
  {}

  lemma PendingSnoc(d: seq<int>, t: Tree, s: nat, start: nat, n: nat)
    requires n < |d| && Pending(d, t, s, start, n)
    ensures t.word[s] + d[start..n + 1] == d[|t.leaf|..n + 1]
  {
    Snoc(d, |t.leaf|, n);
    Snoc(d, start, n);
  }

  /** Then with its next token the pending suffix still occurs earlier ... */
  lemma EndPointSeen(d: seq<int>, t: Tree, s: nat, start: nat, n: nat, k: nat)
    requires n < |d| && Inv(d, n + 1, t) && Continues(d, t, s, start, n, k)
    ensures Seen(d, n + 1, |t.leaf|)
  {
    hide Inv, EdgeOk, FindIx, Canonical, Pending;
    InvBound(d, n + 1, t);
    PendingBound(d, t, s, start, n);
    var L := |t.leaf|;
    var o := ActiveEdge(d, n + 1, t, s, start, n, k);
    Snoc(d, L, n);
    Snoc(d, o, o + (n - L));
    assert Occurs(d, n + 1, d[L..n + 1], o);
  }

  /** The transition on which an update stops spells the pending tokens and the new one. */
  lemma ContinuesFacts(d: seq<int>, t: Tree, s: nat, start: nat, n: nat, k: nat)
    requires n < |d| && Inv(d, n + 1, t) && Continues(d, t, s, start, n, k)
    ensures s in t.word && s < |t.edges| && k < |t.edges[s]| && start <= n && k == FindIx(d, t.edges[s], d[start])
    ensures var e := t.edges[s][k];
      && e.start + (n - start) < Stop(e, n + 1) <= n + 1 && d[e.start + (n - start)] == d[n]
      && d[start..n] == d[e.start..e.start + (n - start)]
  {
    hide Inv, FindIx, Distinct, EdgeOk, Active, StateOk, Occurs;
    ActiveLabel(d, n + 1, t, s, start, n);
    InvState(d, n + 1, t, s);
    InvEdge(d, n + 1, t, Ref(s, k));
    EdgeStops(d, n + 1, t, Ref(s, k));
    var o := ActiveEdge(d, n + 1, t, s, start, n, k);
  }

  lemma ActiveLabel(d: seq<int>, m: nat, t: Tree, s: nat, start: nat, n: nat)
    requires Inv(d, m, t) && n <= m && Active(d, m, t, s, start, n)
    ensures m <= |d| && s in t.word && s < |t.edges| && start <= n
    ensures start < n ==>
      var k := FindIx(d, t.edges[s], d[start]);
      k < |t.edges[s]| && t.edges[s][k].start + (n - start) <= m
      && d[t.edges[s][k].start..t.edges[s][k].start + (n - start)] == d[start..n]
  {
    hide Inv, FindIx, Seen, Distinct, StateOk, Canonical, Pending;
    InvBound(d, m, t);
    PendingBound(d, t, s, start, n);
    InvState(d, m, t, s);
    if start < n {
      CanonicalLabel(d, m, t, s, start, n);
    }
  }

  lemma PendingBound(d: seq<int>, t: Tree, s: nat, start: nat, n: nat)
    requires n <= |d| && Pending(d, t, s, start, n)
    ensures s in t.word && |t.leaf| <= n && start <= n && t.word[s] + d[start..n] == d[|t.leaf|..n]
  {}

  lemma CanonicalLabel(d: seq<int>, m: nat, t: Tree, s: nat, start: nat, n: nat)
    requires Inv(d, m, t) && m <= |d| && s in t.word && s < |t.edges| && start < n <= m
        && Canonical(d, m, t, s, start, n)
    ensures var k := FindIx(d, t.edges[s], d[start]);
      k < |t.edges[s]| && t.edges[s][k].start + (n - start) <= m
      && d[t.edges[s][k].start..t.edges[s][k].start + (n - start)] == d[start..n]
  {
    hide Inv, FindIx;
  }

  lemma EdgeStops(d: seq<int>, m: nat, t: Tree, r: Ref)
    requires m <= |d| && ValidRef(t, r) && EdgeOk(d, m, t, r)
    ensures Stop(EdgeAt(t, r), m) <= m
  {}

  /** A piece of a label that starts where the label does. */
  lemma LabelReads(d: seq<int>, m: nat, t: Tree, s: nat, k: nat, n: nat)
    requires Inv(d, m, t) && s in t.word && s < |t.edges| && k < |t.edges[s]|
    requires t.edges[s][k].start < n <= Stop(t.edges[s][k], m) <= m <= |d|
    requires k == FindIx(d, t.edges[s], d[t.edges[s][k].start])
    ensures Reads(d, m, t, s, d[t.edges[s][k].start..n])
  {
    InvEdge(d, m, t, Ref(s, k));
    hide Inv, FindIx;
  }

  /** ... and can be read. */
  lemma EndPointReads(d: seq<int>, t: Tree, s: nat, start: nat, n: nat, k: nat)
    requires n < |d| && Inv(d, n + 1, t) && Continues(d, t, s, start, n, k)
    ensures Reads(d, n + 1, t, s, d[start..n + 1])
  {
    hide Inv, Reads, Continues, FindIx;
    ContinuesFacts(d, t, s, start, n, k);
    var e := t.edges[s][k];
    var stop := e.start + (n - start);
    Snoc(d, start, n);
    Snoc(d, e.start, stop);
    assert d[start..n + 1][0] == d[start] && d[e.start..stop + 1][0] == d[e.start];
    LabelReads(d, n + 1, t, s, k, stop + 1);
  }

  /** The pending suffix without its first token is in the tree as well. */
  lemma NextReads(d: seq<int>, t: Tree, n: nat, b: nat, start: nat)
    requires n < |d| && Inv(d, n + 1, t) && 1 <= |t.leaf| <= n && Seen(d, n, |t.leaf| - 1)
    requires b in t.word && start <= n && t.word[b] + d[start..n] == d[|t.leaf|..n]
    ensures Seen(d, n, |t.leaf|)
    ensures Reads(d, n + 1, t, b, d[start..n])
  {
    var L := |t.leaf|;
    var o :| o < L - 1 && Occurs(d, n, d[L - 1..n], o);
    SeenNext(d, n, L - 1, o);
    ReadsBelow(d, t, n, b, d[start..n], L, n);
  }

  lemma SeenNext(d: seq<int>, n: nat, k: nat, o: nat)
    requires k < n <= |d| && o < k && Occurs(d, n, d[k..n], o)
    ensures Seen(d, n, k + 1)
  {
    assert d[k + 1..n] == d[k..n][1..];
    assert d[o + 1..o + (n - k)] == d[o..o + (n - k)][1..];
    assert Occurs(d, n, d[k + 1..n], o + 1);
  }

  /** Inside a transition only one next token can be read. */
  lemma OneWay(d: seq<int>, t: Tree, s: nat, start: nat, n: nat, k: nat, c: int)
    requires n < |d| && Inv(d, n + 1, t) && Continues(d, t, s, start, n, k) && start < n
    requires Reads(d, n + 1, t, s, d[start..n] + [c])
    ensures c == d[n]
  {
    var e := t.edges[s][k];
    var y := d[start..n] + [c];
    var o := ActiveEdge(d, n + 1, t, s, start, n, k);
    assert y[0] == d[start];
    var lab := d[e.start..Stop(e, n + 1)];
    assert |y| <= |lab|;
    assert lab[n - start] == y[n - start];
  }

  lemma ShiftedCopy(d: seq<int>, w: seq<int>, start: nat, n: nat, k: nat, o: nat, c: int)
    requires start <= n < |d| && 1 <= k <= n && w + d[start..n] == d[k..n]
    requires Occurs(d, n, d[k - 1..n], o) && o + (n - k + 1) < n && c == d[o + (n - k + 1)]
    ensures w + (d[start..n] + [c]) == d[o + 1..o + 1 + (n - k + 1)]
  {
    var j := o + (n - k + 1);
    Snoc(d, o + 1, j);
    assert d[k..n] == d[k - 1..n][1..];
    assert d[o + 1..j] == d[o..j][1..];
  }

  /** A piece of the text that starts with the word of `s` goes on below `s`. */
  lemma ReadsBelow(d: seq<int>, t: Tree, n: nat, s: nat, y: seq<int>, i: nat, j: nat)
    requires n < |d| && Inv(d, n + 1, t) && Seen(d, n, |t.leaf|) && s in t.word
    requires i <= j <= n && d[i..j] == t.word[s] + y
    ensures Reads(d, n + 1, t, s, y)
  {
    SubstringReads(d, n, n + 1, t, i, j);
    Lift(d, n + 1, t, s, y);
  }

  /** The second next token of an unlinked state can be read after the pending suffix. */
  lemma OtherWay(d: seq<int>, t: Tree, s: nat, start: nat, n: nat, x: nat) returns (c: int)
    requires n < |d| && Inv(d, n + 1, t) && Pending(d, t, s, start, n) && Seen(d, n, |t.leaf|)
    requires x != ROOT && Unlinked(d, n, t, x)
    ensures c != d[n] && Reads(d, n + 1, t, s, d[start..n] + [c])
  {
    var k := |t.leaf|;
    var o :| Occurs(d, n, d[k - 1..n], o) && o < k - 1 && d[o + (n - (k - 1))] != d[n];
    c := d[o + (n - k + 1)];
    var y := d[start..n] + [c];
    assert t.word[s] + y == d[o + 1..o + 1 + (n - k + 1)] by {
      ShiftedCopy(d, t.word[s], start, n, k, o, c);
    }
    ReadsBelow(d, t, n, s, y, o + 1, o + 1 + (n - k + 1));
  }

  /** While a state is unlinked the update ends only at an explicit state: an implicit
      one would have a single next token, but two are known. */
  lemma EndPointExplicit(d: seq<int>, t: Tree, s: nat, start: nat, n: nat, x: nat)
    requires n < |d| && Inv(d, n + 1, t) && x != ROOT && Unlinked(d, n, t, x)
    requires start < n && Active(d, n + 1, t, s, start, n)
    ensures !Continues(d, t, s, start, n, FindIx(d, t.edges[s], d[start]))
  {
    var k := FindIx(d, t.edges[s], d[start]);
    if Continues(d, t, s, start, n, k) {
      var c := OtherWay(d, t, s, start, n, x);
      OneWay(d, t, s, start, n, k, c);
    }
  }

  // ----- one round of the update loop -----

  /** The loop invariant of an update with token `d[n]`; `x` is the state still without link. */
  ghost predicate Round(d: seq<int>, n: nat, t: Tree, link: map<nat, nat>, x: nat, s: nat, start: nat) {
    && n < |d| && Inv(d, n + 1, t)
    && LinkInv(t, link, {x}) && Bushy(t, ROOT) && Unlinked(d, n, t, x)
    && (Active(d, n + 1, t, s, start, n) || (x == ROOT && Finished(d, n + 1, t, s, start, n)))
  }

  /** The update needs a new leaf below the explicit state `r`. */
  ghost predicate Ready(d: seq<int>, n: nat, t: Tree, r: nat) {
    && n < |d| && Inv(d, n + 1, t)
    && r in t.word && |t.leaf| <= n && t.word[r] == d[|t.leaf|..n]
    && Seen(d, n, |t.leaf|)
    && FindIx(d, t.edges[r], d[n]) == |t.edges[r]|
    && (r != ROOT ==> Branches(d, n, |t.leaf|, d[n]))
  }

  /** An explicit active point without a transition for the new token is ready. */
  lemma ExplicitReady(d: seq<int>, n: nat, t: Tree, s: nat)
    requires n < |d| && Inv(d, n + 1, t) && Active(d, n + 1, t, s, n, n) && Bushy(t, ROOT)
    requires FindIx(d, t.edges[s], d[n]) == |t.edges[s]|
    ensures Ready(d, n, t, s)
  {
    hide Inv, FindIx, Canonical, Pending, EdgeOk, Distinct, StateOk;
    PendingBound(d, t, s, n, n);
    InvState(d, n + 1, t, s);
    assert t.word[s] == t.word[s] + d[n..n];
    if s != ROOT {
      assert |t.edges[s]| >= 2;
      var o := ActiveEdge(d, n + 1, t, s, n, n, 0);
      assert Occurs(d, n, d[|t.leaf|..n], o) && d[o + (n - |t.leaf|)] != d[n];
    }
  }

  /** The transition `r` can be split at `sp`, and the new state spells the pending suffix. */
  ghost predicate SplitsPending(d: seq<int>, n: nat, t: Tree, r: Ref, sp: nat) {
    && n < |d| && CanSplit(d, n + 1, t, r, sp) && sp < n && d[sp] != d[n]
    && |t.leaf| <= n && t.word[r.st] + d[EdgeAt(t, r).start..sp] == d[|t.leaf|..n]
    && Seen(d, n, |t.leaf|)
  }

  /** An implicit active point can be made explicit. */
  lemma ImplicitSplits(d: seq<int>, n: nat, t: Tree, s: nat, start: nat, k: nat)
    requires n < |d| && Inv(d, n + 1, t) && Active(d, n + 1, t, s, start, n) && start < n
    requires k == FindIx(d, t.edges[s], d[start]) && !Continues(d, t, s, start, n, k)
    ensures k < |t.edges[s]| && SplitsPending(d, n, t, Ref(s, k), t.edges[s][k].start + (n - start))
  {
    hide Inv, FindIx, Canonical, Pending, EdgeOk, Distinct, StateOk, Occurs;
    PendingBound(d, t, s, start, n);
    InvState(d, n + 1, t, s);
    ActiveLabel(d, n + 1, t, s, start, n);
    InvEdge(d, n + 1, t, Ref(s, k));
    EdgeGoes(d, n + 1, t, Ref(s, k));
    EdgeStops(d, n + 1, t, Ref(s, k));
    var o := ActiveEdge(d, n + 1, t, s, start, n, k);
  }

  /** The token that follows the pending suffix at the split differs from the new one. */
  lemma SplitBranches(d: seq<int>, n: nat, t: Tree, r: Ref, sp: nat)
    requires SplitsPending(d, n, t, r, sp)
    ensures Branches(d, n, |t.leaf|, d[n])
  {
    var e := EdgeAt(t, r);
    var v := t.word[r.st];
    assert d[e.start - |v|..sp] == v + d[e.start..sp];
    assert Occurs(d, n, d[|t.leaf|..n], e.start - |v|);
  }

  lemma SplitReady(d: seq<int>, n: nat, t: Tree, r: Ref, sp: nat)
    requires SplitsPending(d, n, t, r, sp)
    ensures Ready(d, n, Split(d, t, r, sp), |t.edges|)
  {
    SplitBranches(d, n, t, r, sp);
    SplitInv(d, n + 1, t, r, sp);
    assert Split(d, t, r, sp).edges[|t.edges|] == [Edge(sp, EdgeAt(t, r).end, EdgeAt(t, r).to)];
  }

  lemma ForkLinks(d: seq<int>, n: nat, t: Tree, link: map<nat, nat>, x: nat, r: nat)
    requires Ready(d, n, t, r) && LinkInv(t, link, {x, r}) && Unlinked(d, n, t, x)
    ensures var link' := if x == ROOT then link else link[x := r]; LinkInv(Fork(t, r, n), link', {r})
  {
    var t' := Fork(t, r, n);
    var link' := if x == ROOT then link else link[x := r];
    forall q | q in t'.word && q != ROOT && q != r
      ensures LinkOk(t', link', q)
    {
      if q == x {
        assert d[|t.leaf| - 1..n][1..] == d[|t.leaf|..n];
      } else {
        assert LinkOk(t, link, q);
      }
    }
  }

  lemma ForkUnlinked(d: seq<int>, n: nat, t: Tree, r: nat)
    requires Ready(d, n, t, r)
    ensures Unlinked(d, n, Fork(t, r, n), r)
  {
    if r != ROOT {
      WordNonEmpty(d, n + 1, t, r);
    }
  }

  /** The tree after a new leaf below `r`, and the links after the missing one is set. */
  lemma ForkStep(d: seq<int>, n: nat, t: Tree, link: map<nat, nat>, x: nat, r: nat)
    requires Ready(d, n, t, r) && LinkInv(t, link, {x, r}) && Bushy(t, r) && Unlinked(d, n, t, x)
    requires r != ROOT ==> |t.edges[r]| >= 1
    ensures Inv(d, n + 1, Fork(t, r, n)) && Bushy(Fork(t, r, n), ROOT) && Unlinked(d, n, Fork(t, r, n), r)
    ensures var link' := if x == ROOT then link else link[x := r]; LinkInv(Fork(t, r, n), link', {r})
  {
    ForkInv(d, n + 1, t, r, n);
    ForkLinks(d, n, t, link, x, r);
    ForkUnlinked(d, n, t, r);
  }

  /** `canonize` has come from (b, p) to (s, start) on the way to position `n`. */
  ghost predicate OnTheWay(d: seq<int>, m: nat, t: Tree, b: nat, p: nat, s: nat, start: nat, n: nat) {
    && Inv(d, m, t) && b in t.word && s in t.word && p <= start <= n <= m
    && Reads(d, m, t, s, d[start..n])
    && t.word[s] + d[start..n] == t.word[b] + d[p..n]
  }

  /** Where `canonize` must end: a canonical pair for the same string. */
  ghost predicate Arrived(d: seq<int>, m: nat, t: Tree, b: nat, p: nat, s: nat, start: nat, n: nat) {
    && Inv(d, m, t) && b in t.word && s in t.word && p <= start <= n <= m
    && t.word[s] + d[start..n] == t.word[b] + d[p..n]
    && Canonical(d, m, t, s, start, n)
  }

  /** One look of `canonize` at the transition for the next token: it exists ... */
  lemma CanonFound(d: seq<int>, m: nat, t: Tree, s: nat, start: nat, n: nat)
    requires Inv(d, m, t) && s in t.word && start < n <= m && Reads(d, m, t, s, d[start..n])
    ensures FindIx(d, t.edges[s], d[start]) < |t.edges[s]|
    ensures EdgeOk(d, m, t, Ref(s, FindIx(d, t.edges[s], d[start])))
  {
    assert d[start..n][0] == d[start];
    assert EdgeOk(d, m, t, Ref(s, FindIx(d, t.edges[s], d[start])));
  }

  /** Reading goes through the label of one transition, or stops within it. */
  lemma ReadsStep(d: seq<int>, m: nat, t: Tree, s: nat, x: seq<int>)
    requires m <= |d| && Inv(d, m, t) && s < |t.edges| && x != [] && Reads(d, m, t, s, x)
    ensures s in t.word && FindIx(d, t.edges[s], x[0]) < |t.edges[s]|
    ensures var k := FindIx(d, t.edges[s], x[0]);
      && EdgeOk(d, m, t, Ref(s, k))
      && var e := t.edges[s][k];
         && e.start < Stop(e, m) <= m
         && var lab := d[e.start..Stop(e, m)];
            if |x| <= |lab| then x <= lab
            else lab <= x && e.end.At? && e.to in t.word && e.to < |t.edges| && Reads(d, m, t, e.to, x[|lab|..])
  {
    var k := FindIx(d, t.edges[s], x[0]);
    InvEdge(d, m, t, Ref(s, k));
    var e := t.edges[s][k];
    if e.end.At? {
      InvState(d, m, t, e.to);
    } else {
      assert e.to !in t.word;
    }
    hide Inv, FindIx, Distinct, StateOk;
  }

  lemma EdgeGoes(d: seq<int>, m: nat, t: Tree, r: Ref)
    requires m <= |d| && ValidRef(t, r) && EdgeOk(d, m, t, r)
    ensures var e := EdgeAt(t, r);
      && e.start < Stop(e, m)
      && (e.end.At? ==> e.to in t.word && e.to < |t.edges| && t.word[e.to] == t.word[r.st] + d[e.start..Stop(e, m)])
  {}

  /** ... and it is long enough ... */
  lemma CanonStay(d: seq<int>, m: nat, t: Tree, s: nat, start: nat, n: nat, k: nat)
    requires Inv(d, m, t) && s in t.word && start < n <= m && Reads(d, m, t, s, d[start..n])
    requires k == FindIx(d, t.edges[s], d[start]) && k < |t.edges[s]| && Longer(t.edges[s][k], n - start)
    ensures Canonical(d, m, t, s, start, n)
  {
    hide Inv, Reads, FindIx, EdgeOk, Distinct, StateOk;
    InvBound(d, m, t);
    InvState(d, m, t, s);
    var e := t.edges[s][k];
    assert d[start..n][0] == d[start];
    ReadsStep(d, m, t, s, d[start..n]);
    var lab := d[e.start..Stop(e, m)];
    assert lab[..n - start] == d[e.start..e.start + (n - start)];
  }

  /** ... or leads to a state nearer to the end of the string. */
  lemma CanonGo(d: seq<int>, m: nat, t: Tree, s: nat, start: nat, n: nat, k: nat)
    requires Inv(d, m, t) && s in t.word && start < n <= m && Reads(d, m, t, s, d[start..n])
    requires k == FindIx(d, t.edges[s], d[start]) && k < |t.edges[s]| && !Longer(t.edges[s][k], n - start)
    ensures EdgeOk(d, m, t, Ref(s, k)) && t.edges[s][k].to in t.word
    ensures var start' := start + (t.edges[s][k].end.pos - t.edges[s][k].start + 1);
            start < start' <= n && Reads(d, m, t, t.edges[s][k].to, d[start'..n]) &&
            t.word[t.edges[s][k].to] + d[start'..n] == t.word[s] + d[start..n]
  {
    hide Inv, Reads, FindIx, EdgeOk, Distinct, StateOk;
    InvBound(d, m, t);
    InvState(d, m, t, s);
    var e := t.edges[s][k];
    var x := d[start..n];
    assert x[0] == d[start];
    ReadsStep(d, m, t, s, x);
    EdgeGoes(d, m, t, Ref(s, k));
    var lab := d[e.start..Stop(e, m)];
    SplitWord(d, t.word[s], start, start + |lab|, n);
    assert lab <= x && lab == d[start..start + |lab|];
    if |x| == |lab| {
      InvState(d, m, t, e.to);
      ReadsNothing(d, m, t, e.to);
      assert d[start + |lab|..n] == [];
    }
  }

  lemma ReadsNothing(d: seq<int>, m: nat, t: Tree, s: nat)
    requires Inv(d, m, t) && s < |t.edges|
    ensures Reads(d, m, t, s, [])
  {}

  lemma SplitWord(d: seq<int>, w: seq<int>, i: nat, j: nat, k: nat)
    requires i <= j <= k <= |d|
    ensures w + d[i..k] == w + d[i..j] + d[j..k] && d[i..k][j - i..] == d[j..k] && d[i..k][..j - i] == d[i..j]
  {}

  lemma InvNodes(d: seq<int>, m: nat, t: Tree)
    requires Inv(d, m, t)
    ensures ROOT in t.word && AUX !in t.word && t.word[ROOT] == []
    ensures forall s {:trigger s in t.word} :: s in t.word ==> s < |t.edges| && Distinct(d, t.edges[s])
  {}

  lemma WayStarts(d: seq<int>, m: nat, t: Tree, b: nat, p: nat, n: nat)
    requires Inv(d, m, t) && b in t.word && p <= n <= m && Reads(d, m, t, b, d[p..n])
    ensures OnTheWay(d, m, t, b, p, b, p, n)
  {}

  lemma WayFound(d: seq<int>, m: nat, t: Tree, b: nat, p: nat, s: nat, start: nat, n: nat)
    requires OnTheWay(d, m, t, b, p, s, start, n) && start < n
    ensures s < |t.edges| && Distinct(d, t.edges[s])
    ensures FindIx(d, t.edges[s], d[start]) < |t.edges[s]|
  {
    CanonFound(d, m, t, s, start, n);
    assert Distinct(d, t.edges[s]);
  }

  lemma WayEnds(d: seq<int>, m: nat, t: Tree, b: nat, p: nat, s: nat, start: nat, n: nat)
    requires OnTheWay(d, m, t, b, p, s, start, n)
    requires start < n ==> Longer(t.edges[s][FindIx(d, t.edges[s], d[start])], n - start)
    ensures Arrived(d, m, t, b, p, s, start, n)
  {
    if start < n {
      CanonStay(d, m, t, s, start, n, FindIx(d, t.edges[s], d[start]));
    }
  }

  lemma WayGoes(d: seq<int>, m: nat, t: Tree, b: nat, p: nat, s: nat, start: nat, n: nat, e: Edge)
    requires OnTheWay(d, m, t, b, p, s, start, n) && start < n
    requires FindIx(d, t.edges[s], d[start]) < |t.edges[s]|
    requires e == t.edges[s][FindIx(d, t.edges[s], d[start])] && !Longer(e, n - start)
    ensures e.end.At? && e.start <= e.end.pos && start + (e.end.pos - e.start + 1) <= n
    ensures e.to in t.word
    ensures OnTheWay(d, m, t, b, p, e.to, start + (e.end.pos - e.start + 1), n)
  {
    hide Reads, FindIx, Inv, EdgeOk, Distinct;
    InvBound(d, m, t);
    InvState(d, m, t, s);
    var k := FindIx(d, t.edges[s], d[start]);
    CanonGo(d, m, t, s, start, n, k);
    EdgeGoes(d, m, t, Ref(s, k));
  }

  // ----- whole updates -----

  /** What holds between updates, with the first `n` tokens seen. */
  ghost predicate Between(d: seq<int>, n: nat, t: Tree, link: map<nat, nat>, s: nat, start: nat) {
    Inv(d, n, t) && LinkInv(t, link, {}) && Bushy(t, ROOT) && Active(d, n, t, s, start, n)
  }

  /** The update is about to put a leaf below `r`; the active point is (s, start). */
  ghost predicate Forking(d: seq<int>, n: nat, t: Tree, link: map<nat, nat>, x: nat, r: nat, s: nat, start: nat) {
    && Ready(d, n, t, r) && (r != ROOT ==> |t.edges[r]| >= 1)
    && LinkInv(t, link, {x, r}) && Bushy(t, r) && Unlinked(d, n, t, x)
    && Pending(d, t, s, start, n) && (s != ROOT ==> s != x && LinkOk(t, link, s))
  }

  lemma ActiveLinked(d: seq<int>, n: nat, t: Tree, link: map<nat, nat>, x: nat, s: nat, start: nat)
    requires n < |d| && LinkInv(t, link, {x}) && Unlinked(d, n, t, x) && Pending(d, t, s, start, n) && s != ROOT
    ensures s != x && LinkOk(t, link, s)
  {
    assert |t.word[s]| <= |t.word[s] + d[start..n]| == n - |t.leaf|;
    assert s != x;
    assert LinkOk(t, link, s);
  }

  lemma ExplicitForking(d: seq<int>, n: nat, t: Tree, link: map<nat, nat>, x: nat, s: nat)
    requires Round(d, n, t, link, x, s, n) && Active(d, n + 1, t, s, n, n)
    requires FindIx(d, t.edges[s], d[n]) == |t.edges[s]|
    ensures Forking(d, n, t, link, x, s, s, n)
  {
    ExplicitReady(d, n, t, s);
    if s != ROOT {
      ActiveLinked(d, n, t, link, x, s, n);
    }
    hide Inv, Seen, Branches, Canonical;
    forall q | q in t.word && q != ROOT && q !in {x, s}
      ensures LinkOk(t, link, q)
    {}
  }

  /** What a split leaves as it was. */
  lemma SplitKeeps(d: seq<int>, n: nat, t: Tree, link: map<nat, nat>, x: nat, r: Ref, sp: nat)
    requires SplitsPending(d, n, t, r, sp)
    requires LinkInv(t, link, {x}) && Bushy(t, ROOT) && Unlinked(d, n, t, x)
    ensures var t' := Split(d, t, r, sp);
            LinkInv(t', link, {x, |t.edges|}) && Bushy(t', |t.edges|) && Unlinked(d, n, t', x)
  {
    var t' := Split(d, t, r, sp);
    assert |t.edges| !in t.word;
    forall q | q in t'.word && q != ROOT && q !in {x, |t.edges|}
      ensures LinkOk(t', link, q)
    {
      assert LinkOk(t, link, q);
    }
  }

  lemma SplitForking(d: seq<int>, n: nat, t: Tree, link: map<nat, nat>, x: nat, s: nat, start: nat, r: Ref, sp: nat)
    requires Round(d, n, t, link, x, s, start) && Pending(d, t, s, start, n) && SplitsPending(d, n, t, r, sp)
    ensures Forking(d, n, Split(d, t, r, sp), link, x, |t.edges|, s, start)
  {
    SplitReady(d, n, t, r, sp);
    SplitKeeps(d, n, t, link, x, r, sp);
    assert |t.edges| !in t.word;
    if s != ROOT {
      ActiveLinked(d, n, t, link, x, s, start);
    }
    hide Inv, Seen, Branches, Canonical, LinkInv, Bushy, SplitsPending, Ready, Unlinked;
  }

  /** Where `canonize` is sent for the next suffix: to the link of `s`, or, from the root by
      way of the auxiliary state, back to the root with one token less. */
  function Next(t: Tree, link: map<nat, nat>, s: nat, start: nat): (nat, nat)
    requires s in link
  {
    if link[s] == AUX then (ROOT, start + 1) else (link[s], start)
  }

  /** After the fork the next suffix is the pending one, and its place can be reached. */
  ghost predicate NextOk(d: seq<int>, n: nat, t: Tree, b: nat, p: nat)
    requires n < |d| && Inv(d, n + 1, t)
  {
    && b in t.word && p <= n + 1
    && (p <= n ==> Pending(d, t, b, p, n) && Seen(d, n, |t.leaf|) && Reads(d, n + 1, t, b, d[p..n]))
    && (p == n + 1 ==> b == ROOT && |t.leaf| == n + 1 && FindIx(d, t.edges[ROOT], d[n]) < |t.edges[ROOT]|)
  }

  lemma NextFromLink(d: seq<int>, n: nat, t: Tree, link: map<nat, nat>, s: nat, start: nat)
    requires n < |d| && Inv(d, n + 1, t) && 1 <= |t.leaf| <= n + 1 && Seen(d, n, |t.leaf| - 1)
    requires s in t.word && s != ROOT && LinkOk(t, link, s) && start <= n
    requires t.word[s] + d[start..n] == d[|t.leaf| - 1..n]
    ensures NextOk(d, n, t, link[s], start)
  {
    var w := t.word[s];
    assert |w + d[start..n]| == n - |t.leaf| + 1;
    assert t.word[link[s]] + d[start..n] == (w + d[start..n])[1..];
    assert d[|t.leaf| - 1..n][1..] == d[|t.leaf|..n];
    NextReads(d, t, n, link[s], start);
  }

  lemma NextFromRoot(d: seq<int>, n: nat, t: Tree, start: nat)
    requires n < |d| && Inv(d, n + 1, t) && 1 <= |t.leaf| <= n && Seen(d, n, |t.leaf| - 1)
    requires start < n && d[start..n] == d[|t.leaf| - 1..n]
    ensures NextOk(d, n, t, ROOT, start + 1)
  {
    assert |d[start..n]| == n - start;
    assert start == |t.leaf| - 1;
    PendingAtRoot(d, n, t, start + 1);
    NextReads(d, t, n, ROOT, start + 1);
  }

  lemma PendingAtRoot(d: seq<int>, n: nat, t: Tree, p: nat)
    requires n < |d| && Inv(d, n + 1, t) && p == |t.leaf| <= n
    ensures Pending(d, t, ROOT, p, n) && t.word[ROOT] + d[p..n] == d[|t.leaf|..n]
  {}

  lemma NextBeyondRoot(d: seq<int>, n: nat, t: Tree, r: nat)
    requires n < |d| && Inv(d, n + 1, t) && |t.leaf| == n + 1
    requires r in t.word && t.word[r] == []
    requires FindIx(d, t.edges[r], d[n]) < |t.edges[r]|
    ensures NextOk(d, n, t, ROOT, n + 1)
  {
    if r != ROOT {
      WordNonEmpty(d, n + 1, t, r);
    }
  }

  lemma ForkFinds(d: seq<int>, t: Tree, r: nat, n: nat)
    requires r < |t.edges| && n < |d| && Distinct(d, Fork(t, r, n).edges[r])
    ensures FindIx(d, Fork(t, r, n).edges[r], d[n]) < |Fork(t, r, n).edges[r]|
  {
    FindUnique(d, Fork(t, r, n).edges[r], |t.edges[r]|);
  }

  lemma ForkingFacts(d: seq<int>, n: nat, t: Tree, link: map<nat, nat>, x: nat, r: nat, s: nat, start: nat)
    requires Forking(d, n, t, link, x, r, s, start)
    ensures n < |d| && Inv(d, n + 1, t) && s in t.word && r in t.word && r < |t.edges| && start <= n && |t.leaf| <= n
    ensures s in link && (link[s] == AUX <==> s == ROOT) && (s != ROOT ==> LinkOk(t, link, s))
    ensures t.word[s] + d[start..n] == d[|t.leaf|..n] == t.word[r] && Seen(d, n, |t.leaf|)
    ensures t.word[ROOT] == []
  {
    hide Seen, Bushy, Unlinked, FindIx, Branches;
  }

  lemma NextAfterFork(d: seq<int>, n: nat, t: Tree, link: map<nat, nat>, x: nat, r: nat, s: nat, start: nat)
    requires Forking(d, n, t, link, x, r, s, start)
    ensures s in link && Inv(d, n + 1, Fork(t, r, n))
    ensures var (b, p) := Next(t, link, s, start); NextOk(d, n, Fork(t, r, n), b, p)
  {
    hide Inv, Bushy, Branches, FindIx, Seen, NextOk, Unlinked, Ready, Pending, LinkInv, Distinct;
    ForkingFacts(d, n, t, link, x, r, s, start);
    ForkStep(d, n, t, link, x, r);
    var t' := Fork(t, r, n);
    if s != ROOT {
      NextFromLink(d, n, t', link, s, start);
    } else {
      assert |[] + d[start..n]| == n - |t.leaf|;
      if start < n {
        NextFromRoot(d, n, t', start);
      } else {
        InvState(d, n + 1, t', r);
        ForkFinds(d, t, r, n);
        assert d[n..n] == [];
        NextBeyondRoot(d, n, t', r);
      }
    }
  }

  /** The loop invariant holds again at the place `canonize` has found. */
  lemma NextRound(d: seq<int>, n: nat, t: Tree, link: map<nat, nat>, x: nat, b: nat, p: nat, s: nat, start: nat)
    requires n < |d| && Inv(d, n + 1, t)
    requires LinkInv(t, link, {x}) && Bushy(t, ROOT) && Unlinked(d, n, t, x)
    requires NextOk(d, n, t, b, p)
    requires if p > n - 1 then s == b && start == p else Arrived(d, n + 1, t, b, p, s, start, n)
    ensures Round(d, n, t, link, x, s, start)
  {}

  /** A tree over `n` tokens is one over `n + 1` of them that awaits the new one. */
  lemma InvMono(d: seq<int>, m: nat, t: Tree, d': seq<int>, m': nat)
    requires Inv(d, m, t) && d <= d' && m <= m' <= |d'|
    ensures Inv(d', m', t)
  {
    forall r | ValidRef(t, r)
      ensures EdgeOk(d', m', t, r)
    {
      assert EdgeOk(d, m, t, r);
      var e := EdgeAt(t, r);
      var v := t.word[r.st];
      assert d'[e.start - |v|..e.start] == d[e.start - |v|..e.start];
      if e.end.At? { assert d'[e.start..e.end.pos + 1] == d[e.start..e.end.pos + 1]; }
    }
    forall s | s in t.word
      ensures Distinct(d', t.edges[s])
    {
      assert Distinct(d, t.edges[s]);
    }
    forall i | 0 <= i < |t.leaf|
      ensures LeafOk(t, i)
    {
      assert LeafOk(t, i);
    }
  }

  lemma {:induction false} FindMono(d: seq<int>, d': seq<int>, es: seq<Edge>, c: int)
    requires d <= d' && forall k :: 0 <= k < |es| ==> es[k].start < |d|
    ensures FindIx(d, es, c) == FindIx(d', es, c)
  {
    if es != [] { FindMono(d, d', es[1..], c); }
  }

  lemma ActiveMono(d: seq<int>, m: nat, t: Tree, d': seq<int>, m': nat, s: nat, start: nat, n: nat)
    requires Inv(d, m, t) && d <= d' && m <= m' <= |d'| && n <= m && Active(d, m, t, s, start, n)
    ensures Inv(d', m', t) && Active(d', m', t, s, start, n)
  {
    InvMono(d, m, t, d', m');
    assert d'[start..n] == d[start..n] && d'[|t.leaf|..n] == d[|t.leaf|..n];
    if start < n {
      assert Distinct(d, t.edges[s]);
      FindMono(d, d', t.edges[s], d[start]);
    }
    if |t.leaf| < n {
      var o :| o < |t.leaf| && Occurs(d, n, d[|t.leaf|..n], o);
      assert Occurs(d', n, d'[|t.leaf|..n], o);
    }
  }

  lemma FirstRound(d: seq<int>, n: nat, t: Tree, link: map<nat, nat>, s: nat, start: nat)
    requires n < |d| && Between(d, n, t, link, s, start)
    ensures Round(d, n, t, link, ROOT, s, start)
  {
    ActiveMono(d, n, t, d, n + 1, s, start, n);
    hide Active, Inv;
    forall q | q in t.word && q != ROOT && q !in {ROOT}
      ensures LinkOk(t, link, q)
    {}
  }

  /** The update stops: the new token can already be read at the active point. */
  ghost predicate AtEnd(d: seq<int>, n: nat, t: Tree, s: nat, start: nat) {
    n < |d| && Inv(d, n + 1, t) &&
    (Finished(d, n + 1, t, s, start, n) ||
     (start <= n && s < |t.edges| && Continues(d, t, s, start, n, FindIx(d, t.edges[s], d[start]))))
  }

  /** If a link is still missing it goes to the state where the update stops. */
  lemma LastLink(d: seq<int>, n: nat, t: Tree, link: map<nat, nat>, x: nat, s: nat, start: nat)
    requires Round(d, n, t, link, x, s, start) && AtEnd(d, n, t, s, start)
    ensures var link' := if x == ROOT then link else link[x := s]; LinkInv(t, link', {})
    ensures Inv(d, n + 1, t) && Bushy(t, ROOT)
  {
    var link' := if x == ROOT then link else link[x := s];
    if x != ROOT {
      if start < n { EndPointExplicit(d, t, s, start, n, x); }
      WordNonEmpty(d, n + 1, t, x);
      assert d[n..n] == [];
      assert d[|t.leaf| - 1..n][1..] == d[|t.leaf|..n];
      assert LinkOk(t, link', x);
    }
    forall q | q in t.word && q != ROOT
      ensures LinkOk(t, link', q)
    {
      assert q == x || LinkOk(t, link, q);
    }
  }

  lemma EndReads(d: seq<int>, n: nat, t: Tree, s: nat, start: nat)
    requires n < |d| && Inv(d, n + 1, t) && AtEnd(d, n, t, s, start)
    ensures s in t.word && s != AUX && start <= n + 1
    ensures start <= n ==> Reads(d, n + 1, t, s, d[start..n + 1])
  {
    if start <= n {
      EndPointReads(d, t, s, start, n, FindIx(d, t.edges[s], d[start]));
    }
  }

  lemma EndActive(d: seq<int>, n: nat, t: Tree, s0: nat, start0: nat, s: nat, start: nat)
    requires n < |d| && Inv(d, n + 1, t) && AtEnd(d, n, t, s0, start0)
    requires if start0 > n then s == s0 && start == start0 else Arrived(d, n + 1, t, s0, start0, s, start, n + 1)
    ensures Active(d, n + 1, t, s, start, n + 1)
  {
    if start0 <= n {
      EndPointSeen(d, t, s0, start0, n, FindIx(d, t.edges[s0], d[start0]));
      PendingSnoc(d, t, s0, start0, n);
    }
  }

  /** The active point of a round: which transition to look at and what it tells. */
  lemma RoundInside(d: seq<int>, n: nat, t: Tree, link: map<nat, nat>, x: nat, s: nat, start: nat, k: nat)
    requires Round(d, n, t, link, x, s, start) && start < n && s < |t.edges|
    requires k == FindIx(d, t.edges[s], d[start])
    ensures k < |t.edges[s]| && t.edges[s][k].start + (n - start) < n
    ensures d[t.edges[s][k].start + (n - start)] == d[n] ==> AtEnd(d, n, t, s, start)
  {
    hide Inv, FindIx, Canonical, Pending, EdgeOk, Distinct, StateOk, Occurs, LinkInv, Bushy, Unlinked;
    ActiveLabel(d, n + 1, t, s, start, n);
    InvEdge(d, n + 1, t, Ref(s, k));
    EdgeStops(d, n + 1, t, Ref(s, k));
    var o := ActiveEdge(d, n + 1, t, s, start, n, k);
  }

  lemma RoundActive(d: seq<int>, n: nat, t: Tree, link: map<nat, nat>, x: nat, s: nat, start: nat)
    requires Round(d, n, t, link, x, s, start) && start < n
    ensures n < |d| && Inv(d, n + 1, t) && Active(d, n + 1, t, s, start, n)
  {}

  lemma RoundExplicit(d: seq<int>, n: nat, t: Tree, link: map<nat, nat>, x: nat, s: nat, start: nat, k: nat)
    requires Round(d, n, t, link, x, s, start) && start >= n && s < |t.edges|
    requires k == FindIx(d, t.edges[s], d[n])
    ensures k < |t.edges[s]| ==> AtEnd(d, n, t, s, start)
    ensures k == |t.edges[s]| ==> start == n && Forking(d, n, t, link, x, s, s, start)
  {
    if start == n && k == |t.edges[s]| {
      ExplicitForking(d, n, t, link, x, s);
    }
  }

  lemma RoundNodes(d: seq<int>, n: nat, t: Tree, link: map<nat, nat>, x: nat, s: nat, start: nat)
    requires Round(d, n, t, link, x, s, start)
    ensures n < |d| && Inv(d, n + 1, t) && s in t.word && s < |t.edges| && s != AUX && start <= n + 1 <= |d|
        && |t.leaf| <= n + 1
    ensures Distinct(d, t.edges[s]) && (x != ROOT ==> x in t.word)
  {
    InvNodes(d, n + 1, t);
  }

  lemma RoundSplits(d: seq<int>, n: nat, t: Tree, link: map<nat, nat>, x: nat, s: nat, start: nat, k: nat)
    requires Round(d, n, t, link, x, s, start) && start < n && s < |t.edges|
    requires k == FindIx(d, t.edges[s], d[start]) && k < |t.edges[s]|
    requires t.edges[s][k].start + (n - start) < |d| && d[t.edges[s][k].start + (n - start)] != d[n]
    ensures ValidRef(t, Ref(s, k)) && t.edges[s][k].start + (n - start) <= |d|
    ensures Forking(d, n, Split(d, t, Ref(s, k), t.edges[s][k].start + (n - start)), link, x, |t.edges|, s, start)
  {
    hide Inv, Round, Forking, Split, Canonical, Seen;
    RoundActive(d, n, t, link, x, s, start);
    ImplicitSplits(d, n, t, s, start, k);
    SplitForking(d, n, t, link, x, s, start, Ref(s, k), t.edges[s][k].start + (n - start));
  }

  /** The tree and links right before `canonize` is called for the next suffix. */
  ghost predicate Forked(d: seq<int>, n: nat, t: Tree, link: map<nat, nat>, r: nat, s: nat, start: nat) {
    && n < |d| && Inv(d, n + 1, t)
    && LinkInv(t, link, {r}) && Bushy(t, ROOT) && Unlinked(d, n, t, r)
    && s in link && var (b, p) := Next(t, link, s, start); NextOk(d, n, t, b, p)
  }

  lemma ForkingForked(d: seq<int>, n: nat, t: Tree, link: map<nat, nat>, x: nat, r: nat, s: nat, start: nat)
    requires Forking(d, n, t, link, x, r, s, start) && r < |t.edges|
    ensures var link' := if x == ROOT then link else link[x := r]; Forked(d, n, Fork(t, r, n), link', r, s, start)
    ensures |t.leaf| <= n
  {
    ForkStep(d, n, t, link, x, r);
    NextAfterFork(d, n, t, link, x, r, s, start);
    hide Inv, LinkInv, Bushy, Unlinked, NextOk;
  }

  lemma ForkedNext(d: seq<int>, n: nat, t: Tree, link: map<nat, nat>, r: nat, s: nat, start: nat)
    requires Forked(d, n, t, link, r, s, start)
    ensures n < |d| && Inv(d, n + 1, t) && s in link && (link[s] == AUX || link[s] in t.word)
    ensures var (b, p) := Next(t, link, s, start);
            b in t.word && (p <= n - 1 ==> Reads(d, n + 1, t, b, d[p..n]))
  {}

  lemma ForkedRound(d: seq<int>, n: nat, t: Tree, link: map<nat, nat>, r: nat, s: nat, start: nat, s': nat, start': nat)
    requires Forked(d, n, t, link, r, s, start)
    requires var (b, p) := Next(t, link, s, start);
             if p > n - 1 then s' == b && start' == p else Arrived(d, n + 1, t, b, p, s', start', n)
    ensures Round(d, n, t, link, r, s', start')
  {
    var (b, p) := Next(t, link, s, start);
    NextRound(d, n, t, link, r, b, p, s', start');
  }

  lemma BetweenMono(d: seq<int>, n: nat, t: Tree, link: map<nat, nat>, s: nat, start: nat, d': seq<int>)
    requires Between(d, n, t, link, s, start) && d <= d'
    ensures Between(d', n, t, link, s, start)
  {
    ActiveMono(d, n, t, d', n, s, start, n);
  }

  lemma IsBetween(d: seq<int>, n: nat, t: Tree, link: map<nat, nat>, s: nat, start: nat)
    requires Inv(d, n, t) && LinkInv(t, link, {}) && Bushy(t, ROOT) && Active(d, n, t, s, start, n)
    ensures Between(d, n, t, link, s, start)
  {}

  lemma EmptyTree(t: Tree, link: map<nat, nat>)
    requires t == Tree([[], []], map[ROOT := []], map[], []) && link == map[ROOT := AUX]
    ensures Between([], 0, t, link, ROOT, 0)
  {}

  lemma BetweenBounds(d: seq<int>, n: nat, t: Tree, link: map<nat, nat>, s: nat, start: nat)
    requires Between(d, n, t, link, s, start)
    ensures |t.leaf| <= n && start <= n
  {}

  // ----- what the finished tree says about its text -----

  lemma BetweenSeen(d: seq<int>, n: nat, t: Tree, link: map<nat, nat>, s: nat, start: nat)
    requires Between(d, n, t, link, s, start)
    ensures n <= |d| && Inv(d, n, t) && Seen(d, n, |t.leaf|)
    ensures ROOT in t.word && t.word[ROOT] == [] && ROOT < |t.edges|
  {
    hide Inv, LinkInv, Bushy, Seen, Canonical, Pending;
    InvBound(d, n, t);
    InvState(d, n, t, ROOT);
  }

  /** The strings that can be read from the root are exactly the substrings of the text. */
  lemma TreeIsExact(d: seq<int>, n: nat, t: Tree, link: map<nat, nat>, s: nat, start: nat, x: seq<int>)
    requires Between(d, n, t, link, s, start)
    ensures Reads(d, n, t, ROOT, x) <==> exists i :: Occurs(d, n, x, i)
  {
    hide Inv, Reads, Seen, Between;
    BetweenSeen(d, n, t, link, s, start);
    if Reads(d, n, t, ROOT, x) {
      var i := ReadsOccurs(d, n, t, ROOT, x);
      assert t.word[ROOT] + x == x;
    }
    if i :| Occurs(d, n, x, i) {
      SubstringReads(d, n, n, t, i, i + |x|);
    }
  }

  lemma LastToken(d: seq<int>, n: nat, k: nat, o: nat)
    requires k < n <= |d| && Occurs(d, n, d[k..n], o)
    ensures d[o + (n - k) - 1] == d[n - 1]
  {
    assert d[k..n][n - k - 1] == d[o..o + (n - k)][n - k - 1];
  }

  /** If the last token occurs nowhere else, every suffix has its leaf. */
  lemma UniqueEndGivesAllLeaves(d: seq<int>, n: nat, t: Tree, link: map<nat, nat>, s: nat, start: nat)
    requires Between(d, n, t, link, s, start)
    requires n > 0 && forall i :: 0 <= i < n - 1 ==> d[i] != d[n - 1]
    ensures |t.leaf| == n
  {
    var k := |t.leaf|;
    if k < n {
      var o :| o < k && Occurs(d, n, d[k..n], o);
      LastToken(d, n, k, o);
      assert false;
    }
  }

  /** The suffix link of a branching state spells its string without the first token. */
  lemma LinksDropFirst(d: seq<int>, n: nat, t: Tree, link: map<nat, nat>, s: nat, start: nat, q: nat)
    requires Between(d, n, t, link, s, start) && q in t.word && q != ROOT
    ensures q in link && link[q] in t.word && t.word[q] != [] && t.word[link[q]] == t.word[q][1..]
  {
    assert LinkOk(t, link, q);
  }

  /** Nothing can be read beyond the end of a leaf. */
  lemma NothingBeyondLeaf(d: seq<int>, n: nat, t: Tree, i: nat, y: seq<int>)
    requires Inv(d, n, t) && i < |t.leaf| && LeafOk(t, i)
    requires EdgeAt(t, t.leaf[i]).start < n < EdgeAt(t, t.leaf[i]).start + |y|
    requires y[0] == d[EdgeAt(t, t.leaf[i]).start]
    ensures !Reads(d, n, t, t.leaf[i].st, y)
  {
    var r := t.leaf[i];
    assert EdgeOk(d, n, t, r);
    assert Distinct(d, t.edges[r.st]);
    FindUnique(d, t.edges[r.st], r.ix);
  }

  lemma LeafEdge(d: seq<int>, n: nat, t: Tree, i: nat)
    requires Inv(d, n, t) && i < |t.leaf|
    ensures LeafOk(t, i) && ValidRef(t, t.leaf[i])
    ensures var w := t.word[t.leaf[i].st];
      EdgeAt(t, t.leaf[i]).start == i + |w| < n <= |d| && d[i..i + |w|] == w
  {
    InvLeaf(d, n, t, i);
    InvEdge(d, n, t, t.leaf[i]);
  }

  /** A suffix that has a leaf does not occur earlier. With `Seen` this makes the active point
      the longest suffix of the text that also occurs before. */
  lemma LeafSuffixIsNew(d: seq<int>, n: nat, t: Tree, i: nat, o: nat)
    requires Inv(d, n, t) && o < i < |t.leaf| && i < n
    ensures !Occurs(d, n, d[i..n], o)
  {
    hide Inv, Reads, LeafOk;
    InvBound(d, n, t);
    if Occurs(d, n, d[i..n], o) {
      LeafEdge(d, n, t, i);
      var r := t.leaf[i];
      var w := t.word[r.st];
      LeafReads(d, n, t, o, n);
      ShiftBack(d, n, i, o, i, i + |w|);
      ShiftBack(d, n, i, o, i + |w|, i + |w| + 1);
      assert w == d[i..i + |w|] == d[o..o + |w|];
      assert d[o..n] == d[o..o + |w|] + d[o + |w|..n];
      Lift(d, n, t, r.st, d[o + |w|..n]);
      NothingBeyondLeaf(d, n, t, i, d[o + |w|..n]);
      assert false;
    }
  }
}
