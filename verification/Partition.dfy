/** The partitioner of command lines: it cuts a list of paths into parts that, together with the
    base arguments, are not longer than a maximum, and uses as few parts as possible. */
module Partition {
  import opened Options

  type Arg = string

  /** The bytes that arguments take on a command line. */
  function Size(args: seq<Arg>): nat {
    if args == [] then 0 else Size(args[..|args| - 1]) + |args[|args| - 1]| + 1
  }

  lemma {:induction false} SizeConcat(a: seq<Arg>, b: seq<Arg>)
    ensures Size(a + b) == Size(a) + Size(b)
    decreases |b|
  {
    if b == [] {
      assert a + b == a;
    } else {
      assert (a + b)[..|a + b| - 1] == a + b[..|b| - 1];
      SizeConcat(a, b[..|b| - 1]);
    }
  }

  lemma SizeSnoc(a: seq<Arg>, x: Arg)
    ensures Size(a + [x]) == Size(a) + |x| + 1
  {
    assert (a + [x])[..|a + [x]| - 1] == a;
  }

  /** A stretch of a list is not longer than the list. */
  lemma SizeOfSlice(a: seq<Arg>, i: nat, j: nat)
    requires i <= j <= |a|
    ensures Size(a[i..j]) <= Size(a)
  {
    assert a == a[..i] + (a[i..j] + a[j..]);
    SizeConcat(a[..i], a[i..j] + a[j..]);
    SizeConcat(a[i..j], a[j..]);
  }

  class SizePartitioner {
    const base: seq<Arg>
    const max: int
    var parts: seq<seq<Arg>>
    var current: seq<Arg>
    var size: int

    constructor (base: seq<Arg>, max: int)
      requires Size(base) <= max
      ensures this.base == base && this.max == max
      ensures parts == [] && current == base && size == Size(base)
    {
      this.base, this.max := base, max;
      parts, current, size := [], [], 0;
      new;
      New();
    }

    /** Adds an argument to the current part, or to a new one if it does not fit. */
    method Add(arg: Arg)
      requires size == Size(current) && Size(base) <= max
      modifies `parts, `current, `size
      ensures size == Size(current)
      ensures if old(size) + |arg| + 1 <= max then parts == old(parts) && current == old(current) + [arg]
              else parts == Ended(old(parts), old(current)) && current == base + [arg]
      decreases if size + |arg| + 1 > max then 2 else 0
    {
      if size + |arg| + 1 > max { New(); }
      SizeSnoc(current, arg);
      current := current + [arg];
      size := size + |arg| + 1;
    }

    /** Ends the current part and starts one with the base arguments. They all fit, so that adding
        them does not start another part. */
    method New()
      requires Size(base) <= max
      modifies `parts, `current, `size
      ensures parts == Ended(old(parts), old(current)) && current == base && size == Size(base)
      decreases 1
    {
      var _ := End();
      size := 0;
      current := [];
      for i := 0 to |base|
        invariant parts == Ended(old(parts), old(current)) && current == base[..i] && size == Size(base[..i])
      {
        SizeSnoc(base[..i], base[i]);
        assert base[..i] + [base[i]] == base[..i + 1];
        assert base[..i + 1] == base[0..i + 1];
        SizeOfSlice(base, 0, i + 1);
        Add(base[i]);
      }
      assert base[..|base|] == base;
    }

    method End() returns (r: seq<seq<Arg>>)
      modifies `parts
      ensures parts == Ended(old(parts), current) && r == parts
    {
      if |current| > 0 { parts := parts + [current]; }
      r := parts;
    }
  }

  function Ended(parts: seq<seq<Arg>>, current: seq<Arg>): seq<seq<Arg>> {
    if current == [] then parts else parts + [current]
  }

  // ----- chunks of the paths -----

  function Flat(cs: seq<seq<Arg>>): seq<Arg> {
    if cs == [] then [] else Flat(cs[..|cs| - 1]) + cs[|cs| - 1]
  }

  lemma FlatSnoc(cs: seq<seq<Arg>>, c: seq<Arg>)
    ensures Flat(cs + [c]) == Flat(cs) + c
  {
    assert (cs + [c])[..|cs + [c]| - 1] == cs;
  }

  predicate Fits(base: seq<Arg>, max: int, c: seq<Arg>) {
    Size(base) + Size(c) <= max
  }

  /** A way to cut the paths, in order, into chunks that all fit. */
  ghost predicate IsSplit(base: seq<Arg>, max: int, paths: seq<Arg>, cs: seq<seq<Arg>>) {
    Flat(cs) == paths && forall i {:trigger cs[i]} :: 0 <= i < |cs| ==> Fits(base, max, cs[i])
  }

  /** The parts are the chunks, each after the base arguments. */
  ghost predicate AreParts(base: seq<Arg>, cs: seq<seq<Arg>>, parts: seq<seq<Arg>>) {
    |parts| == |cs| && forall i {:trigger parts[i]} {:trigger cs[i]} :: 0 <= i < |cs| ==> parts[i] == base + cs[i]
  }

  /** No chunk has room for the first path of the next one. */
  ghost predicate Greedy(base: seq<Arg>, max: int, cs: seq<seq<Arg>>) {
    forall i {:trigger IsFull(base, max, cs, i)} :: 0 <= i < |cs| - 1 ==> IsFull(base, max, cs, i)
  }

  ghost predicate IsFull(base: seq<Arg>, max: int, cs: seq<seq<Arg>>, i: nat)
    requires i + 1 < |cs|
  {
    cs[i + 1] != [] && !Fits(base, max, cs[i] + [cs[i + 1][0]])
  }

  lemma {:induction false} FlatSlice(cs: seq<seq<Arg>>, k: nat)
    requires k < |cs|
    ensures |Flat(cs[..k])| + |cs[k]| <= |Flat(cs)|
    ensures Flat(cs[..k + 1]) == Flat(cs[..k]) + cs[k]
    ensures Flat(cs)[|Flat(cs[..k])|..|Flat(cs[..k])| + |cs[k]|] == cs[k]
    decreases |cs|
  {
    assert cs[..k + 1][..k] == cs[..k];
    if k == |cs| - 1 {
      assert cs[..k + 1] == cs;
    } else {
      var cs' := cs[..|cs| - 1];
      FlatSlice(cs', k);
      assert cs'[..k] == cs[..k];
      assert Flat(cs) == Flat(cs') + cs[|cs| - 1];
    }
  }

  /** As many chunks of another split do not reach further than the greedy ones. */
  lemma {:induction false} GreedyStaysAhead(base: seq<Arg>, max: int, paths: seq<Arg>, cs: seq<seq<Arg>>,
      ds: seq<seq<Arg>>, k: nat)
    requires IsSplit(base, max, paths, cs) && Greedy(base, max, cs) && IsSplit(base, max, paths, ds)
    requires k <= |cs| && k <= |ds|
    ensures |Flat(ds[..k])| <= |Flat(cs[..k])|
    decreases k
  {
    hide Size, Flat;
    if k > 0 {
      GreedyStaysAhead(base, max, paths, cs, ds, k - 1);
      FlatSlice(cs, k - 1);
      FlatSlice(ds, k - 1);
      var a, b := |Flat(ds[..k - 1])|, |Flat(cs[..k - 1])|;
      var a', b' := a + |ds[k - 1]|, b + |cs[k - 1]|;
      assert k == |cs| ==> cs[..k] == cs;
      if a' > b' {
        FlatSlice(cs, k);
        assert IsFull(base, max, cs, k - 1);
        assert paths[b'] == cs[k][0] by { assert paths[b'..b' + |cs[k]|][0] == cs[k][0]; }
        Overlap(base, max, paths, b, cs[k - 1], cs[k][0], a, ds[k - 1]);
        assert false;
      }
    }
  }

  lemma SliceOfSlice<T>(s: seq<T>, a: nat, c: nat, i: nat, j: nat)
    requires a <= c <= |s| && i <= j <= c - a
    ensures s[a..c][i..j] == s[a + i..a + j]
  {
    var l, r := s[a..c][i..j], s[a + i..a + j];
    assert |l| == |r|;
    forall k | 0 <= k < |l|
      ensures l[k] == r[k]
    {
      assert l[k] == s[a..c][i + k];
    }
  }

  /** If a chunk that fits covers another one and the path after it, these fit as well. */
  lemma Overlap(base: seq<Arg>, max: int, paths: seq<Arg>, b: nat, c: seq<Arg>, x: Arg, a: nat, d: seq<Arg>)
    requires a <= b && b + |c| < a + |d| <= |paths|
    requires paths[b..b + |c|] == c && paths[b + |c|] == x && paths[a..a + |d|] == d && Fits(base, max, d)
    ensures Fits(base, max, c + [x])
  {
    var n := |c| + 1;
    assert c + [x] == paths[b..b + n] by {
      assert paths[b..b + n] == paths[b..b + |c|] + [paths[b + |c|]];
    }
    SliceOfSlice(paths, a, a + |d|, b - a, b - a + n);
    SizeOfSlice(d, b - a, b - a + n);
  }

  /** No other way to cut the paths uses fewer chunks. */
  lemma GreedyIsBest(base: seq<Arg>, max: int, paths: seq<Arg>, cs: seq<seq<Arg>>, ds: seq<seq<Arg>>)
    requires IsSplit(base, max, paths, cs) && Greedy(base, max, cs) && IsSplit(base, max, paths, ds)
    requires paths != []
    ensures |cs| <= |ds|
  {
    if |ds| < |cs| {
      assert |ds| > 0 ==> IsFull(base, max, cs, |ds| - 1);
      GreedyStaysAhead(base, max, paths, cs, ds, |ds|);
      assert ds[..|ds|] == ds;
      FlatSlice(cs, |ds|);
    }
  }

  // ----- the whole list -----

  /** A chunk that does not fit is a single path. */
  predicate FitsOrSingle(base: seq<Arg>, max: int, c: seq<Arg>) {
    Fits(base, max, c) || |c| == 1
  }

  /** What has been built for the paths so far: finished chunks and a current one. Only the first
      chunk may be empty, namely when the first path does not fit. */
  ghost predicate Built(base: seq<Arg>, max: int, paths: seq<Arg>, parts: seq<seq<Arg>>, current: seq<Arg>,
                        cs: seq<seq<Arg>>, c: seq<Arg>) {
    && AreParts(base, cs, parts) && current == base + c
    && Flat(cs + [c]) == paths && Greedy(base, max, cs + [c])
    && (forall i {:trigger (cs + [c])[i]} :: 0 <= i < |cs + [c]| ==> FitsOrSingle(base, max, (cs + [c])[i]))
    && (c == [] ==> cs == [])
    && (cs != [] && cs[0] == [] ==> paths != [] && !Fits(base, max, [paths[0]]))
  }

  lemma BuiltMore(base: seq<Arg>, max: int, paths: seq<Arg>, parts: seq<seq<Arg>>, current: seq<Arg>,
                  cs: seq<seq<Arg>>, c: seq<Arg>, x: Arg)
    requires Built(base, max, paths, parts, current, cs, c) && Fits(base, max, c + [x])
    ensures Built(base, max, paths + [x], parts, current + [x], cs, c + [x])
  {
    hide Size, Flat;
    FlatSnoc(cs, c);
    FlatSnoc(cs, c + [x]);
    var n, o := cs + [c + [x]], cs + [c];
    forall i | 0 <= i < |n| - 1
      ensures IsFull(base, max, n, i)
    {
      assert IsFull(base, max, o, i);
    }
    forall i | 0 <= i < |n|
      ensures FitsOrSingle(base, max, n[i])
    {
      assert FitsOrSingle(base, max, o[i]);
    }
  }

  /** The path starts a new chunk; without base arguments, no part is made of an empty chunk. */
  lemma BuiltNext(base: seq<Arg>, max: int, paths: seq<Arg>, parts: seq<seq<Arg>>, current: seq<Arg>,
                  cs: seq<seq<Arg>>, c: seq<Arg>, x: Arg)
    requires Built(base, max, paths, parts, current, cs, c) && !Fits(base, max, c + [x])
    ensures Built(base, max, paths + [x], Ended(parts, current), base + [x], if current == [] then cs
        else cs + [c], [x])
  {
    hide Size, Flat;
    FlatSnoc(cs, c);
    var o := cs + [c];
    if current == [] {
      FlatSnoc(cs, [x]);
      assert cs == [] && [] + [x] == [x];
    } else {
      FlatSnoc(o, [x]);
      var n := o + [[x]];
      forall i | 0 <= i < |n| - 1
        ensures IsFull(base, max, n, i)
      {
        if i < |o| - 1 { assert IsFull(base, max, o, i); }
      }
      forall i | 0 <= i < |n|
        ensures FitsOrSingle(base, max, n[i])
      {
        if i < |o| { assert FitsOrSingle(base, max, o[i]); }
      }
      if c == [] {
        assert c + [x] == [x] && paths == Flat(cs) + c;
        FlatNone();
      }
    }
  }

  lemma FlatNone()
    ensures Flat([]) == []
  {}

  ghost predicate AllFit(base: seq<Arg>, max: int, paths: seq<Arg>) {
    forall i {:trigger paths[i]} :: 0 <= i < |paths| ==> Fits(base, max, [paths[i]])
  }

  /** The parts are the base arguments with consecutive chunks of the paths. They keep within the
      maximum exactly if every path does with the base arguments alone, and then no chunk is empty
      and no other way to cut the paths has fewer of them. Without paths there is one part for the
      base arguments, if there are any. Where the base arguments alone are too long, the source
      calls itself without end. */
  method PartitionToMaxSize(cmdArgs: seq<Arg>, paths: seq<Arg>, maxSize: int)
      returns (parts: seq<seq<Arg>>, ghost chunks: seq<seq<Arg>>)
    requires Size(cmdArgs) <= maxSize
    ensures AreParts(cmdArgs, chunks, parts) && Flat(chunks) == paths
    ensures AllFit(cmdArgs, maxSize, paths) <==> forall i :: 0 <= i < |parts| ==> Size(parts[i]) <= maxSize
    ensures paths != [] && AllFit(cmdArgs, maxSize, paths) ==>
              && (forall i :: 0 <= i < |chunks| ==> chunks[i] != [])
              && (forall ds :: IsSplit(cmdArgs, maxSize, paths, ds) ==> |parts| <= |ds|)
    ensures paths == [] ==> parts == if cmdArgs == [] then [] else [cmdArgs]
  {
    var p := new SizePartitioner(cmdArgs, maxSize);
    ghost var cs, c: seq<Arg> := [], [];
    assert Built(cmdArgs, maxSize, [], p.parts, p.current, cs, c) by {
      FlatSnoc([], []);
      assert Flat([]) == [] && cmdArgs + [] == cmdArgs;
    }
    assert paths[..0] == [];
    hide Size, Built, Fits;
    for i := 0 to |paths|
      invariant p.size == Size(p.current) && Size(cmdArgs) <= maxSize && p.base == cmdArgs && p.max == maxSize
      invariant Built(cmdArgs, maxSize, paths[..i], p.parts, p.current, cs, c)
    {
      FitsIs(cmdArgs, maxSize, paths[..i], p.parts, p.current, cs, c, paths[i]);
      assert paths[..i + 1] == paths[..i] + [paths[i]];
      if Fits(cmdArgs, maxSize, c + [paths[i]]) {
        BuiltMore(cmdArgs, maxSize, paths[..i], p.parts, p.current, cs, c, paths[i]);
        c := c + [paths[i]];
      } else {
        BuiltNext(cmdArgs, maxSize, paths[..i], p.parts, p.current, cs, c, paths[i]);
        cs, c := if p.current == [] then cs else cs + [c], [paths[i]];
      }
      p.Add(paths[i]);
    }
    assert paths[..|paths|] == paths;
    BuiltParts(cmdArgs, maxSize, paths, p.parts, p.current, cs, c);
    BuiltBest(cmdArgs, maxSize, paths, p.parts, p.current, cs, c);
    parts := p.End();
    chunks := if p.current == [] then cs else cs + [c];
  }

  lemma FitsIs(base: seq<Arg>, max: int, paths: seq<Arg>, parts: seq<seq<Arg>>, current: seq<Arg>, cs: seq<seq<Arg>>,
      c: seq<Arg>, x: Arg)
    requires Built(base, max, paths, parts, current, cs, c)
    ensures Fits(base, max, c + [x]) <==> Size(current) + |x| + 1 <= max
  {
    SizeConcat(base, c);
    SizeSnoc(c, x);
  }

  lemma BuiltParts(base: seq<Arg>, max: int, paths: seq<Arg>, parts: seq<seq<Arg>>, current: seq<Arg>,
      cs: seq<seq<Arg>>, c: seq<Arg>)
    requires Built(base, max, paths, parts, current, cs, c)
    ensures var cs' := if current == [] then cs else cs + [c];
            AreParts(base, cs', Ended(parts, current)) && Flat(cs') == paths
    ensures paths == [] ==> Ended(parts, current) == if base == [] then [] else [base]
  {
    hide Size, Flat;
    FlatSnoc(cs, c);
    FlatNone();
    if current == [] { assert Flat(cs) + [] == Flat(cs); }
    if paths == [] {
      assert c == [] by { assert |Flat(cs + [c])| == |Flat(cs)| + |c|; }
      assert base + [] == base;
    }
  }

  lemma {:induction false} InChunk(cs: seq<seq<Arg>>, j: nat) returns (i: nat, k: nat)
    requires j < |Flat(cs)|
    ensures i < |cs| && k < |cs[i]| && cs[i][k] == Flat(cs)[j]
    decreases |cs|
  {
    var n := |cs| - 1;
    var m := |Flat(cs[..n])|;
    if j < m {
      i, k := InChunk(cs[..n], j);
    } else {
      i, k := n, j - m;
    }
  }

  lemma {:induction false} OfChunk(cs: seq<seq<Arg>>, i: nat, k: nat) returns (j: nat)
    requires i < |cs| && k < |cs[i]|
    ensures j < |Flat(cs)| && cs[i][k] == Flat(cs)[j]
    decreases |cs|
  {
    var n := |cs| - 1;
    if i < n {
      j := OfChunk(cs[..n], i, k);
    } else {
      j := |Flat(cs[..n])| + k;
    }
  }

  lemma BuiltBest(base: seq<Arg>, max: int, paths: seq<Arg>, parts: seq<seq<Arg>>, current: seq<Arg>,
      cs: seq<seq<Arg>>, c: seq<Arg>)
    requires Built(base, max, paths, parts, current, cs, c) && Size(base) <= max
    ensures var cs' := if current == [] then cs else cs + [c];
            var parts' := Ended(parts, current);
            && (AllFit(base, max, paths) <==> forall i :: 0 <= i < |parts'| ==> Size(parts'[i]) <= max)
            && (paths != [] && AllFit(base, max, paths) ==>
                  && (forall i :: 0 <= i < |cs'| ==> cs'[i] != [])
                  && (forall ds :: IsSplit(base, max, paths, ds) ==> |parts'| <= |ds|))
  {
    var cs' := if current == [] then cs else cs + [c];
    var parts' := Ended(parts, current);
    BuiltParts(base, max, paths, parts, current, cs, c);
    PartsFit(base, max, paths, parts', cs', cs + [c]);
    hide Size, Flat;
    if paths != [] && AllFit(base, max, paths) {
      assert c != [] by { if c == [] { FlatSnoc(cs, c); FlatNone(); } }
      assert Fits(base, max, [paths[0]]);
      forall i | 0 <= i < |cs'|
        ensures cs'[i] != []
      {
        assert 0 < i ==> IsFull(base, max, cs + [c], i - 1);
      }
      forall ds | IsSplit(base, max, paths, ds)
        ensures |parts'| <= |ds|
      {
        GreedyIsBest(base, max, paths, cs', ds);
      }
    }
  }

  /** The parts fit iff the single paths do. */
  lemma PartsFit(base: seq<Arg>, max: int, paths: seq<Arg>, parts: seq<seq<Arg>>, cs: seq<seq<Arg>>, all: seq<seq<Arg>>)
    requires AreParts(base, cs, parts) && Flat(cs) == paths && cs <= all
    requires forall i {:trigger all[i]} :: 0 <= i < |all| ==> FitsOrSingle(base, max, all[i])
    ensures AllFit(base, max, paths) <==> forall i :: 0 <= i < |parts| ==> Size(parts[i]) <= max
    ensures AllFit(base, max, paths) ==> IsSplit(base, max, paths, cs)
  {
    hide Size, Flat;
    forall i | 0 <= i < |parts|
      ensures Size(parts[i]) <= max <==> Fits(base, max, cs[i])
    {
      assert parts[i] == base + cs[i];
      SizeConcat(base, cs[i]);
    }
    if AllFit(base, max, paths) {
      forall i | 0 <= i < |cs|
        ensures Fits(base, max, cs[i])
      {
        assert FitsOrSingle(base, max, all[i]);
        if |cs[i]| == 1 {
          var j := OfChunk(cs, i, 0);
          assert cs[i] == [paths[j]];
        }
      }
    }
    if forall i :: 0 <= i < |parts| ==> Size(parts[i]) <= max {
      forall j | 0 <= j < |paths|
        ensures Fits(base, max, [paths[j]])
      {
        var i, k := InChunk(cs, j);
        assert Size(parts[i]) <= max;
        SizeOfSlice(cs[i], k, k + 1);
        assert cs[i][k..k + 1] == [paths[j]];
      }
    }
  }

  // ----- base arguments that do not fit -----

  /** The size after adding an argument, if fewer than `fuel` calls are nested in it. */
  function AddSize(fuel: nat, base: seq<Arg>, max: int, size: nat, arg: Arg): Option<nat>
    decreases fuel, 0, 0
  {
    if fuel == 0 then None
    else if size + |arg| + 1 > max then
      var s := NewSize(fuel - 1, base, max, base, 0);
      if s.None? then None else Some(s.value + |arg| + 1)
    else Some(size + |arg| + 1)
  }

  /** The size after adding the base arguments `rest` that are left. */
  function NewSize(fuel: nat, base: seq<Arg>, max: int, rest: seq<Arg>, size: nat): Option<nat>
    decreases fuel, 1, |rest|
  {
    if rest == [] then Some(size)
    else
      var s := AddSize(fuel, base, max, size, rest[0]);
      if s.None? then None else NewSize(fuel, base, max, rest[1..], s.value)
  }

  lemma {:induction false} SizeFirst(a: seq<Arg>)
    requires a != []
    ensures Size(a) == |a[0]| + 1 + Size(a[1..])
    decreases |a|
  {
    assert a == [a[0]] + a[1..];
    SizeConcat([a[0]], a[1..]);
    SizeSnoc([], a[0]);
    assert [] + [a[0]] == [a[0]];
  }

  lemma {:induction false} NewEnds(fuel: nat, base: seq<Arg>, max: int, rest: seq<Arg>, size: nat)
    requires fuel > 0 && size + Size(rest) <= max
    ensures NewSize(fuel, base, max, rest, size) == Some(size + Size(rest))
    decreases |rest|
  {
    if rest != [] {
      SizeFirst(rest);
      NewEnds(fuel, base, max, rest[1..], size + |rest[0]| + 1);
    }
  }

  lemma {:induction false} NewRunsOut(fuel: nat, base: seq<Arg>, max: int, rest: seq<Arg>, size: nat)
    requires size + Size(rest) > max >= size || (fuel == 0 && rest != [])
    requires Size(base) > max >= 0
    ensures NewSize(fuel, base, max, rest, size) == None
    decreases fuel, |rest|
  {
    if fuel > 0 {
      if rest == [] {
        assert false;
      }
      SizeFirst(rest);
      if size + |rest[0]| + 1 > max {
        NewRunsOut(fuel - 1, base, max, base, 0);
      } else {
        NewRunsOut(fuel, base, max, rest[1..], size + |rest[0]| + 1);
      }
    }
  }

  /** Starting a part ends iff the base arguments fit, however deep calls may nest. */
  lemma NewEndsIff(base: seq<Arg>, max: nat)
    ensures (exists fuel: nat :: NewSize(fuel, base, max, base, 0).Some?) <==> Size(base) <= max
  {
    if Size(base) <= max {
      NewEnds(1, base, max, base, 0);
    } else {
      forall fuel: nat
        ensures NewSize(fuel, base, max, base, 0).None?
      {
        NewRunsOut(fuel, base, max, base, 0);
      }
    }
  }
}
