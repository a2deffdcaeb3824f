/** Which order of the fields maligned compares with, and that no other order of the same fields
    gives a smaller struct. */
module MalignedOrder {
  import opened MalignedLayout

  /** Whether a field goes before another: empty fields first, then by falling alignment, then by
      falling size. */
  predicate Less(c: Sizes, x: Type, y: Type) {
    if Sizeof(c, x) == 0 && Sizeof(c, y) != 0 then true
    else if Sizeof(c, y) == 0 && Sizeof(c, x) != 0 then false
    else if Alignof(c, x) != Alignof(c, y) then Alignof(c, x) > Alignof(c, y)
    else if Sizeof(c, x) != Sizeof(c, y) then Sizeof(c, x) > Sizeof(c, y)
    else false
  }

  /** No field has to go before one that it comes after. */
  predicate Sorted(c: Sizes, fs: seq<Type>) {
    forall i, j :: 0 <= i < j < |fs| ==> !Less(c, fs[j], fs[i])
  }

  function Sum(c: Sizes, fs: seq<Type>): nat {
    if fs == [] then 0 else Sum(c, fs[..|fs| - 1]) + Sizeof(c, fs[|fs| - 1])
  }

  // ----- no order does better than the sum of the sizes -----

  lemma {:induction false} EndAtLeastSum(c: Sizes, fs: seq<Type>, n: nat)
    requires n <= |fs|
    ensures End(c, Struct(fs), n) >= Sum(c, fs[..n])
    decreases n
  {
    if n > 0 {
      hide Align, Sizeof, Alignof;
      EndAtLeastSum(c, fs, n - 1);
      assert fs[..n][..n - 1] == fs[..n - 1];
      AlignIsMultiple(End(c, Struct(fs), n - 1), Alignof(c, fs[n - 1]));
    }
  }

  lemma {:induction false} SumConcat(c: Sizes, fs: seq<Type>, gs: seq<Type>)
    ensures Sum(c, fs + gs) == Sum(c, fs) + Sum(c, gs)
    decreases |gs|
  {
    if gs == [] {
      assert fs + gs == fs;
    } else {
      var gs' := gs[..|gs| - 1];
      assert (fs + gs)[..|fs + gs| - 1] == fs + gs';
      SumConcat(c, fs, gs');
    }
  }

  lemma SumWithout(c: Sizes, gs: seq<Type>, i: nat)
    requires i < |gs|
    ensures Sum(c, gs) == Sum(c, gs[..i] + gs[i + 1..]) + Sizeof(c, gs[i])
  {
    hide Sizeof;
    var a, x, b := gs[..i], gs[i], gs[i + 1..];
    assert gs == a + ([x] + b);
    SumConcat(c, a, b);
    SumConcat(c, a, [x] + b);
    SumConcat(c, [x], b);
    assert Sum(c, [x]) == Sizeof(c, x) by { assert [x][..0] == []; }
  }

  lemma Without<T>(fs: seq<T>, gs: seq<T>) returns (i: nat)
    requires multiset(fs) == multiset(gs) && fs != []
    ensures i < |gs| && gs[i] == fs[|fs| - 1]
    ensures multiset(fs[..|fs| - 1]) == multiset(gs[..i] + gs[i + 1..])
  {
    var x := fs[|fs| - 1];
    var fs' := fs[..|fs| - 1];
    assert fs == fs' + [x];
    assert x in multiset(gs);
    i :| 0 <= i < |gs| && gs[i] == x;
    var a, b := gs[..i], gs[i + 1..];
    assert gs == a + ([x] + b);
    assert multiset(fs) == multiset(fs') + multiset{x};
    assert multiset(gs) == multiset(a) + (multiset{x} + multiset(b));
    assert multiset(a + b) == multiset(a) + multiset(b);
    assert multiset(fs') == multiset(fs) - multiset{x};
  }

  lemma {:induction false} SumOfPermutation(c: Sizes, fs: seq<Type>, gs: seq<Type>)
    requires multiset(fs) == multiset(gs)
    ensures Sum(c, fs) == Sum(c, gs)
    decreases |fs|
  {
    hide Sizeof;
    if fs == [] {
      assert |gs| == |multiset(gs)| == 0;
    } else {
      var i := Without(fs, gs);
      SumWithout(c, gs, i);
      SumOfPermutation(c, fs[..|fs| - 1], gs[..i] + gs[i + 1..]);
    }
  }

  // ----- the largest alignment -----

  lemma {:induction false} MaxIsLargest(c: Sizes, fs: seq<Type>, n: nat)
    requires n <= |fs|
    ensures var m := MaxAlignof(c, Struct(fs), n);
            && (forall i :: 0 <= i < n ==> Alignof(c, fs[i]) <= m)
            && (m == 1 || exists i :: 0 <= i < n && Alignof(c, fs[i]) == m)
    decreases n
  {
    if n > 0 { MaxIsLargest(c, fs, n - 1); }
  }

  lemma MaxOfPermutation(c: Sizes, fs: seq<Type>, gs: seq<Type>)
    requires multiset(fs) == multiset(gs)
    ensures MaxAlignof(c, Struct(fs), |fs|) <= MaxAlignof(c, Struct(gs), |gs|)
  {
    MaxIsLargest(c, fs, |fs|);
    MaxIsLargest(c, gs, |gs|);
    hide Alignof, MaxAlignof;
    var m := MaxAlignof(c, Struct(fs), |fs|);
    if i :| 0 <= i < |fs| && Alignof(c, fs[i]) == m {
      assert fs[i] in multiset(gs);
      var j :| 0 <= j < |gs| && gs[j] == fs[i];
    }
  }

  // ----- the sorted order has no gaps -----

  predicate FieldsAligned(c: Sizes, fs: seq<Type>) {
    forall i :: 0 <= i < |fs| ==> IsAligned(c, fs[i]) && IsPower(Alignof(c, fs[i]))
  }

  lemma Divides(x: nat, a: Pos, b: Pos)
    requires IsPower(a) && IsPower(b) && b <= a && x % a == 0
    ensures x % b == 0
  {
    var k := x / a;
    assert x == a * k;
    var l := a / b;
    assert a == b * l;
    assert x == b * (l * k) + 0 by { assert (b * l) * k == b * (l * k); }
    Remainder(x, b, l * k, 0);
  }

  lemma {:induction false} SortedEnd(c: Sizes, fs: seq<Type>, n: nat)
    requires FieldsAligned(c, fs) && Sorted(c, fs) && n <= |fs|
    ensures End(c, Struct(fs), n) == Sum(c, fs[..n])
    ensures forall j :: n <= j < |fs| ==> Sum(c, fs[..n]) % Alignof(c, fs[j]) == 0
    decreases n
  {
    hide Align, Sizeof, Alignof;
    if n > 0 {
      SortedEnd(c, fs, n - 1);
      var o, f := Sum(c, fs[..n - 1]), fs[n - 1];
      assert fs[..n][..n - 1] == fs[..n - 1];
      AlignOfMultiple(o, Alignof(c, f));
      if Sizeof(c, f) == 0 && o != 0 { SomeNonEmpty(c, fs, n - 1); }
      forall j | n <= j < |fs|
        ensures (o + Sizeof(c, f)) % Alignof(c, fs[j]) == 0
      {
        assert !Less(c, fs[j], f);
        if Sizeof(c, f) != 0 {
          SumMultiple(o, Sizeof(c, f), Alignof(c, f));
          Divides(o + Sizeof(c, f), Alignof(c, f), Alignof(c, fs[j]));
        }
      }
    }
  }

  /** In a sorted list, nothing empty follows what is not. */
  lemma {:induction false} SomeNonEmpty(c: Sizes, fs: seq<Type>, n: nat)
    requires Sorted(c, fs) && n < |fs| && Sum(c, fs[..n]) != 0
    ensures Sizeof(c, fs[n]) != 0
    decreases n
  {
    hide Sizeof, Alignof;
    if n > 0 {
      assert fs[..n][..n - 1] == fs[..n - 1];
      assert !Less(c, fs[n], fs[n - 1]);
      if Sizeof(c, fs[n - 1]) == 0 {
        SomeNonEmpty(c, fs, n - 1);
      }
    }
  }

  /** The size of a struct in sorted order: the sum of the sizes, rounded up to the largest
      alignment; no order of the same fields needs less. */
  lemma SortedIsBest(c: Sizes, fs: seq<Type>, gs: seq<Type>)
    requires FieldsAligned(c, fs) && Sorted(c, fs) && multiset(gs) == multiset(fs)
    ensures Sizeof(c, Struct(fs)) == Align(Sum(c, fs), MaxAlignof(c, Struct(fs), |fs|))
    ensures Sizeof(c, Struct(fs)) <= Sizeof(c, Struct(gs))
  {
    assert fs[..|fs|] == fs && gs[..|gs|] == gs;
    assert |fs| == |multiset(fs)| == |multiset(gs)| == |gs|;
    SortedEnd(c, fs, |fs|);
    EndAtLeastSum(c, gs, |gs|);
    SumOfPermutation(c, fs, gs);
    MaxOfPermutation(c, fs, gs);
    MaxOfPermutation(c, gs, fs);
    var m := MaxAlignof(c, Struct(fs), |fs|);
    hide Align;
    AlignMono(Sum(c, fs), End(c, Struct(gs), |gs|), m);
    AlignOfMultiple(0, m);
  }

  predicate Wasteful(c: Sizes, fs: seq<Type>, gs: seq<Type>) {
    AllTyped(fs) && Sorted(c, fs) && multiset(gs) == multiset(fs) && Sizeof(c, Struct(gs)) < Sizeof(c, Struct(fs))
  }

  /** The sorted order is best for all structs exactly where a word has the largest alignment. */
  lemma AlwaysBestIff(c: Sizes)
    requires Known(c)
    ensures (forall fs, gs :: !Wasteful(c, fs, gs)) <==> c.wordSize == c.maxAlign
  {
    hide Sorted, Sizeof, FieldsAligned;
    if c.wordSize == c.maxAlign {
      forall fs, gs
        ensures !Wasteful(c, fs, gs)
      {
        if Wasteful(c, fs, gs) {
          KnownAligned(c, fs);
          SortedIsBest(c, fs, gs);
        }
      }
    } else {
      SlicesWaste();
    }
  }

  lemma KnownAligned(c: Sizes, fs: seq<Type>)
    requires Known(c) && c.wordSize == c.maxAlign && AllTyped(fs)
    ensures FieldsAligned(c, fs)
  {
    forall i | 0 <= i < |fs|
      ensures IsAligned(c, fs[i]) && IsPower(Alignof(c, fs[i]))
    {
      SizeIsMultiple(c, fs[i]);
      AlignmentIsPower(c, fs[i]);
    }
  }

  /** The ends of the fields, one after the other. */
  ghost predicate AreEnds(c: Sizes, fs: seq<Type>, e: seq<nat>) {
    && |e| == |fs| + 1 && e[0] == 0
    && forall k {:trigger fs[k]} :: 0 <= k < |fs| ==>
         && Sizeof(c, fs[k]) > 0 && e[k + 1] >= Sizeof(c, fs[k])
         && AlignsTo(e[k], Alignof(c, fs[k]), e[k + 1] - Sizeof(c, fs[k]))
  }

  predicate AlignsTo(x: nat, a: Pos, y: nat) {
    x <= y < x + a && y % a == 0
  }

  lemma AlignIs(x: nat, a: Pos, y: nat)
    requires AlignsTo(x, a, y)
    ensures Align(x, a) == y
  {
    assert y == a * (y / a);
    Remainder(x + a - 1, a, y / a, x + a - 1 - y);
  }

  lemma {:induction false} EndIs(c: Sizes, fs: seq<Type>, e: seq<nat>, n: nat)
    requires AreEnds(c, fs, e) && n <= |fs|
    ensures End(c, Struct(fs), n) == e[n]
    decreases n
  {
    hide Align, AlignsTo, Alignof, Sizeof;
    if n > 0 {
      EndIs(c, fs, e, n - 1);
      var f := fs[n - 1];
      AlignIs(e[n - 1], Alignof(c, f), e[n] - Sizeof(c, f));
    }
  }

  lemma SizeIs(c: Sizes, fs: seq<Type>, e: seq<nat>, max: Pos, size: nat)
    requires AreEnds(c, fs, e) && fs != [] && AlignsTo(e[|fs|], max, size)
    requires Alignof(c, fs[0]) == max && forall k {:trigger fs[k]} :: 0 <= k < |fs| ==> Alignof(c, fs[k]) <= max
    ensures Sizeof(c, Struct(fs)) == size
  {
    EndIs(c, fs, e, |fs|);
    MaxIsLargest(c, fs, |fs|);
    AlignIs(e[|fs|], max, size);
    hide Align, AlignsTo, Alignof;
  }

  /** With words of 4 bytes and alignments up to 8, two slices and two 4-byte fields fit in 32
      bytes, but take 40 in sorted order. */
  lemma SlicesWaste()
    ensures var i := Basic(4); Wasteful(AMD64P32, [Slice, Slice, i, i], [Slice, i, Slice, i])
    ensures var i := Basic(4); Sizeof(AMD64P32, Struct([Slice, Slice, i, i])) == 40
    ensures var i := Basic(4); Sizeof(AMD64P32, Struct([Slice, i, Slice, i])) == 32
  {
    assert Sorted(AMD64P32, [Slice, Slice, Basic(4), Basic(4)]) by {
      TwoAndTwo(AMD64P32, Slice, Basic(4));
    }
    hide Sorted, Sizeof;
    SortedTakes40();
    MixedTakes32();
    MixedPermutes(Slice, Basic(4));
  }

  lemma SortedTakes40()
    ensures Sizeof(AMD64P32, Struct([Slice, Slice, Basic(4), Basic(4)])) == 40
  {
    var c, i := AMD64P32, Basic(4);
    assert Sizeof(c, Slice) == 12 && Alignof(c, Slice) == 8 && Sizeof(c, i) == 4 && Alignof(c, i) == 4;
    hide Sizeof, Alignof, End;
    SizeIs(c, [Slice, Slice, i, i], [0, 12, 28, 32, 36], 8, 40);
  }

  lemma MixedTakes32()
    ensures Sizeof(AMD64P32, Struct([Slice, Basic(4), Slice, Basic(4)])) == 32
  {
    var c, i := AMD64P32, Basic(4);
    assert Sizeof(c, Slice) == 12 && Alignof(c, Slice) == 8 && Sizeof(c, i) == 4 && Alignof(c, i) == 4;
    hide Sizeof, Alignof, End;
    SizeIs(c, [Slice, i, Slice, i], [0, 12, 16, 28, 32], 8, 32);
  }

  lemma MixedPermutes(x: Type, y: Type)
    ensures multiset([x, y, x, y]) == multiset([x, x, y, y])
  {}

  lemma TwoAndTwo(c: Sizes, x: Type, y: Type)
    requires !Less(c, y, x)
    ensures Sorted(c, [x, x, y, y])
  {
    assert !Less(c, x, x) && !Less(c, y, y);
    hide Less;
  }
}
