/** The tool maligned: it computes sizes by loops over fields, sorts the fields of a struct in
    place, and reports structs that could be smaller. */
module Maligned {
  import opened MalignedLayout
  import opened MalignedOrder

  method ComputeAlignof(c: Sizes, t: Type) returns (a: Pos)
    ensures a == Alignof(c, t)
    decreases t, 1
  {
    if t.Array? {
      a := ComputeAlignof(c, t.elem);
    } else if t.Struct? {
      var max := 1;
      for i := 0 to |t.fields|
        invariant max == MaxAlignof(c, t, i)
      {
        var b := ComputeAlignof(c, t.fields[i]);
        if b > max { max := b; }
      }
      a := max;
    } else {
      var z := ComputeSizeof(c, t);
      if z < 1 {
        a := 1;
      } else if z > c.maxAlign {
        a := c.maxAlign;
      } else {
        a := z;
      }
    }
  }

  method ComputeSizeof(c: Sizes, t: Type) returns (z: nat)
    ensures z == Sizeof(c, t)
    decreases t, 0
  {
    match t {
      case Basic(size) => z := size;
      case Text => z := c.wordSize * 2;
      case Word => z := c.wordSize;
      case Slice => z := c.wordSize * 3;
      case Interface => z := c.wordSize * 2;
      case Array(elem, n) =>
        if n == 0 { return 0; }
        var a := ComputeAlignof(c, elem);
        z := ComputeSizeof(c, elem);
        z := Scale(Align(z, a), n - 1) + z;
      case Struct(fields) =>
        if fields == [] { return 0; }
        hide Align;
        var o, max := 0, 1;
        for i := 0 to |fields|
          invariant o == End(c, t, i) && max == MaxAlignof(c, t, i)
        {
          var a := ComputeAlignof(c, fields[i]);
          var sz := ComputeSizeof(c, fields[i]);
          if a > max { max := a; }
          if i == |fields| - 1 && sz == 0 && o != 0 { sz := 1; }
          o := Align(o, a) + sz;
        }
        z := Align(o, max);
    }
  }

  class ByAlignAndSize {
    const fields: array<Type>
    const alignofs: array<int>
    const sizeofs: array<int>

    constructor (fields: array<Type>, alignofs: array<int>, sizeofs: array<int>)
      ensures this.fields == fields && this.alignofs == alignofs && this.sizeofs == sizeofs
    {
      this.fields, this.alignofs, this.sizeofs := fields, alignofs, sizeofs;
    }

    /** The three arrays go together. */
    ghost predicate Valid(c: Sizes)
      reads fields, alignofs, sizeofs
    {
      && alignofs != sizeofs && fields.Length == alignofs.Length == sizeofs.Length
      && forall i :: 0 <= i < fields.Length ==>
          alignofs[i] == Alignof(c, fields[i])
          && sizeofs[i] == Sizeof(c, fields[i])
    }

    method Swap(i: nat, j: nat, ghost c: Sizes)
      requires Valid(c) && i < fields.Length && j < fields.Length
      modifies fields, alignofs, sizeofs
      ensures Valid(c) && fields[..] == old(fields[..])[i := old(fields[j])][j := old(fields[i])]
    {
      fields[i], fields[j] := fields[j], fields[i];
      alignofs[i], alignofs[j] := alignofs[j], alignofs[i];
      sizeofs[i], sizeofs[j] := sizeofs[j], sizeofs[i];
    }

    method Less(i: nat, j: nat, ghost c: Sizes) returns (r: bool)
      requires Valid(c) && i < fields.Length && j < fields.Length
      ensures r <==> MalignedOrder.Less(c, fields[i], fields[j])
    {
      if sizeofs[i] == 0 && sizeofs[j] != 0 { return true; }
      if sizeofs[j] == 0 && sizeofs[i] != 0 { return false; }
      if alignofs[i] != alignofs[j] { return alignofs[i] > alignofs[j]; }
      if sizeofs[i] != sizeofs[j] { return sizeofs[i] > sizeofs[j]; }
      return false;
    }

    /** Sorting by comparing and swapping, as the sort package does it for short lists. */
    method Sort(ghost c: Sizes)
      requires Valid(c)
      modifies fields, alignofs, sizeofs
      ensures Valid(c) && multiset(fields[..]) == multiset(old(fields[..])) && Sorted(c, fields[..])
    {
      hide MalignedOrder.Less;
      for i := 0 to fields.Length
        invariant Valid(c) && multiset(fields[..]) == multiset(old(fields[..]))
        invariant Sorted(c, fields[..i])
      {
        var j := i;
        assert fields[..i + 1] == fields[..i] + [fields[i]];
        while j > 0
          invariant j <= i && Valid(c) && multiset(fields[..]) == multiset(old(fields[..]))
          invariant SortedBut(c, fields[..i + 1], j)
        {
          var less := Less(j, j - 1, c);
          if !less {
            BecomesSorted(c, fields[..i + 1], j);
            break;
          }
          ghost var before := fields[..];
          Swap(j, j - 1, c);
          assert fields[..i + 1] == before[..i + 1][j := before[j - 1]][j - 1 := before[j]];
          SwapKeeps(c, before[..i + 1], j);
          SwapPermutes(before, j, j - 1);
          j := j - 1;
        }
      }
      assert fields[..fields.Length] == fields[..];
    }
  }

  /** Sorted, except that the element at `j` may belong further to the left. */
  ghost predicate SortedBut(c: Sizes, s: seq<Type>, j: nat) {
    && j < |s|
    && (forall p, q :: 0 <= p < q < |s| && q != j ==> !Less(c, s[q], s[p]))
  }

  lemma LessOrder(c: Sizes, x: Type, y: Type, z: Type)
    ensures Less(c, x, y) ==> !Less(c, y, x)
    ensures !Less(c, y, x) && !Less(c, z, y) ==> !Less(c, z, x)
  {
    hide Sizeof, Alignof;
  }

  lemma BecomesSorted(c: Sizes, s: seq<Type>, j: nat)
    requires SortedBut(c, s, j) && (j == 0 || !Less(c, s[j], s[j - 1]))
    ensures Sorted(c, s)
  {
    hide Less;
    forall p | 0 <= p < j
      ensures !Less(c, s[j], s[p])
    {
      LessOrder(c, s[p], s[j - 1], s[j]);
    }
  }

  lemma SwapKeeps(c: Sizes, s: seq<Type>, j: nat)
    requires SortedBut(c, s, j) && j > 0 && Less(c, s[j], s[j - 1])
    ensures SortedBut(c, s[j := s[j - 1]][j - 1 := s[j]], j - 1)
  {
    LessOrder(c, s[j], s[j - 1], s[j]);
    hide Less;
  }

  lemma SwapPermutes(s: seq<Type>, i: nat, j: nat)
    requires i < |s| && j < |s|
    ensures multiset(s[i := s[j]][j := s[i]]) == multiset(s)
  {}

  /** The size of the struct with its fields sorted. */
  method OptimalSize(c: Sizes, fs: seq<Type>) returns (opt: nat, ghost sorted: seq<Type>)
    ensures multiset(sorted) == multiset(fs) && Sorted(c, sorted) && opt == Sizeof(c, Struct(sorted))
  {
    var nf := |fs|;
    var fields := new Type[nf](_ => Word);
    var alignofs := new int[nf];
    var sizeofs := new int[nf];
    for i := 0 to nf
      invariant fields[..i] == fs[..i]
      invariant forall k :: 0 <= k < i ==> alignofs[k] == Alignof(c, fs[k]) && sizeofs[k] == Sizeof(c, fs[k])
    {
      fields[i] := fs[i];
      alignofs[i] := ComputeAlignof(c, fs[i]);
      sizeofs[i] := ComputeSizeof(c, fs[i]);
    }
    assert fields[..] == fs;
    var list := new ByAlignAndSize(fields, alignofs, sizeofs);
    list.Sort(c);
    sorted := fields[..];
    opt := ComputeSizeof(c, Struct(fields[..]));
  }

  /** Some order of the fields makes the struct smaller. */
  ghost predicate CouldBeSmaller(c: Sizes, fs: seq<Type>) {
    exists gs :: multiset(gs) == multiset(fs) && Sizeof(c, Struct(gs)) < Sizeof(c, Struct(fs))
  }

  /** The architectures on which sizes are multiples of alignments. */
  predicate Regular(c: Sizes) {
    Known(c) && c.wordSize == c.maxAlign
  }

  /** A report gives the size of the struct and the size it could have. Where every field has a
      size that is a multiple of its alignment, as on every regular architecture, there is a report
      exactly if the struct could be smaller, and the size reported is the smallest there is. */
  method Malign(c: Sizes, fs: seq<Type>) returns (reported: bool, sz: nat, opt: nat)
    ensures sz == Sizeof(c, Struct(fs)) && (reported <==> sz != opt)
    ensures (Regular(c) && AllTyped(fs)) || FieldsAligned(c, fs) ==> (reported <==> CouldBeSmaller(c, fs))
    ensures exists gs :: multiset(gs) == multiset(fs) && opt == Sizeof(c, Struct(gs))
    ensures (Regular(c) && AllTyped(fs)) || FieldsAligned(c, fs) ==>
      forall gs :: multiset(gs) == multiset(fs) ==> opt <= Sizeof(c, Struct(gs))
  {
    hide Sizeof, Less, Alignof;
    sz := ComputeSizeof(c, Struct(fs));
    ghost var sorted;
    opt, sorted := OptimalSize(c, fs);
    reported := sz != opt;
    if Regular(c) && AllTyped(fs) { KnownAligned(c, fs); }
    if FieldsAligned(c, fs) {
      AlignedPermutation(c, fs, sorted);
      forall gs | multiset(gs) == multiset(fs)
        ensures opt <= Sizeof(c, Struct(gs))
      {
        SortedIsBest(c, sorted, gs);
      }
    }
  }

  lemma AlignedPermutation(c: Sizes, fs: seq<Type>, gs: seq<Type>)
    requires FieldsAligned(c, fs) && multiset(fs) == multiset(gs)
    ensures FieldsAligned(c, gs)
  {
    hide IsAligned, IsPower, Alignof;
    forall i | 0 <= i < |gs|
      ensures IsAligned(c, gs[i]) && IsPower(Alignof(c, gs[i]))
    {
      assert gs[i] in multiset(fs);
      var j :| 0 <= j < |fs| && fs[j] == gs[i];
    }
  }
}
