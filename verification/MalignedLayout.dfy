/** Sizes and alignments of types as maligned computes them, and when sorting the fields of a
    struct gives the smallest size. */
module MalignedLayout {

  datatype Type =
    | Basic(size: nat)            // a basic type that has an entry in the size table
    | Text                        // string
    | Word                        // everything that is one word
    | Slice
    | Interface
    | Array(elem: Type, len: nat)
    | Struct(fields: seq<Type>)

  type Pos = x: int | x > 0 witness 1

  datatype Sizes = Sizes(wordSize: Pos, maxAlign: Pos)

  const AMD64 := Sizes(8, 8)
  const I386 := Sizes(4, 4)
  const AMD64P32 := Sizes(4, 8)

  /** The sizes that the tool chooses from by architecture. */
  predicate Known(c: Sizes) {
    c == AMD64 || c == I386 || c == AMD64P32
  }

  /** The entries of the size table. */
  predicate WellTyped(t: Type) {
    match t
    case Basic(size) => size in {1, 2, 4, 8, 16}
    case Array(elem, _) => WellTyped(elem)
    case Struct(fields) => forall i :: 0 <= i < |fields| ==> WellTyped(fields[i])
    case _ => true
  }

  predicate AllTyped(fs: seq<Type>) {
    forall i :: 0 <= i < |fs| ==> WellTyped(fs[i])
  }

  function Align(x: nat, a: Pos): nat {
    var y := x + a - 1;
    y - y % a
  }

  lemma Times(a: Pos, p: int)
    requires p >= 1
    ensures a * p >= a
  {}

  lemma Distribute(a: int, p: int, q: int)
    ensures a * (p - q) == a * p - a * q
  {}

  /** A remainder below `a` is the remainder. */
  lemma Remainder(x: int, a: Pos, q: int, r: nat)
    requires x == a * q + r && r < a
    ensures x % a == r && x / a == q
  {
    var q', r' := x / a, x % a;
    assert x == a * q' + r';
    Distribute(a, q, q');
    if q > q' {
      Times(a, q - q');
      assert false;
    } else if q < q' {
      Distribute(a, q', q);
      Times(a, q' - q);
      assert false;
    }
  }

  lemma AlignIsMultiple(x: nat, a: Pos)
    ensures Align(x, a) >= x && Align(x, a) == a * ((x + a - 1) / a) && Align(x, a) % a == 0
  {
    var z := x + a - 1;
    assert z == a * (z / a) + z % a;
    Remainder(Align(x, a), a, z / a, 0);
  }

  /** The smallest multiple of `a` that is not below `x`. */
  lemma AlignIsLeast(x: nat, a: Pos, y: nat)
    ensures Align(x, a) >= x && Align(x, a) % a == 0
    ensures y >= x && y % a == 0 ==> Align(x, a) <= y
  {
    AlignIsMultiple(x, a);
    var q, p := (x + a - 1) / a, y / a;
    if y >= x && y % a == 0 {
      assert y == a * p + y % a;
      LeastMultiple(x, a, q, p);
    }
  }

  lemma LeastMultiple(x: nat, a: Pos, q: int, p: int)
    requires a * q < x + a && a * p >= x
    ensures a * q <= a * p
  {
    Distribute(a, q, p);
    if q > p { Times(a, q - p); }
    if q < p { Distribute(a, p, q); Times(a, p - q); }
  }

  lemma AlignOfMultiple(x: nat, a: Pos)
    requires x % a == 0
    ensures Align(x, a) == x
  {
    AlignIsLeast(x, a, x);
  }

  lemma AlignMono(x: nat, y: nat, a: Pos)
    requires x <= y
    ensures Align(x, a) <= Align(y, a)
  {
    AlignIsLeast(y, a, y);
    AlignIsLeast(x, a, Align(y, a));
  }

  function Clamp(a: nat, max: Pos): Pos {
    if a < 1 then 1 else if a > max then max else a
  }

  function Alignof(c: Sizes, t: Type): Pos
    decreases t, 1
  {
    match t
    case Array(elem, _) => Alignof(c, elem)
    case Struct(fields) => MaxAlignof(c, t, |fields|)
    case _ => Clamp(Sizeof(c, t), c.maxAlign)
  }

  /** The largest alignment of the first `n` fields, but at least 1. */
  function MaxAlignof(c: Sizes, t: Type, n: nat): Pos
    requires t.Struct? && n <= |t.fields|
    decreases t, 0, n
  {
    if n == 0 then 1
    else
      var max := MaxAlignof(c, t, n - 1);
      var a := Alignof(c, t.fields[n - 1]);
      if a > max then a else max
  }

  function Scale(x: nat, n: nat): nat {
    x * n
  }

  function Sizeof(c: Sizes, t: Type): nat
    decreases t, 0
  {
    match t
    case Basic(size) => size
    case Text => c.wordSize * 2
    case Word => c.wordSize
    case Slice => c.wordSize * 3
    case Interface => c.wordSize * 2
    case Array(elem, n) =>
      if n == 0 then 0 else Scale(Align(Sizeof(c, elem), Alignof(c, elem)), n - 1) + Sizeof(c, elem)
    case Struct(fields) =>
      if fields == [] then 0 else Align(End(c, t, |fields|), MaxAlignof(c, t, |fields|))
  }

  /** Where the first `n` fields end. A last field of size zero takes a byte unless all before it
      are empty, too. */
  function End(c: Sizes, t: Type, n: nat): nat
    requires t.Struct? && n <= |t.fields|
    decreases t, 0, n
  {
    if n == 0 then 0
    else
      var o := End(c, t, n - 1);
      var f := t.fields[n - 1];
      var sz := if n == |t.fields| && Sizeof(c, f) == 0 && o != 0 then 1 else Sizeof(c, f);
      Align(o, Alignof(c, f)) + sz
  }

  // ----- strings, slices and interfaces -----

  /** They take as much as structs of words: a pointer and a length, these and a capacity, a type and a
      pointer. */
  lemma HeadersAreStructs(c: Sizes)
    requires Known(c)
    ensures Sizeof(c, Text) == Sizeof(c, Struct([Word, Word]))
    ensures Sizeof(c, Interface) == Sizeof(c, Struct([Word, Word]))
    ensures Sizeof(c, Slice) == Sizeof(c, Struct([Word, Word, Word]))
  {
    hide Align, End, MaxAlignof, Known;
    WordsInRow(c, Struct([Word, Word]), 2);
    WordsInRow(c, Struct([Word, Word, Word]), 3);
    WholeWords(c, 2);
    WholeWords(c, 3);
  }

  lemma WholeWords(c: Sizes, n: nat)
    requires Known(c)
    ensures Align(c.wordSize * n, c.wordSize) == c.wordSize * n
  {
    Remainder(c.wordSize * n, c.wordSize, n, 0);
    AlignOfMultiple(c.wordSize * n, c.wordSize);
  }

  lemma {:induction false} WordsInRow(c: Sizes, t: Type, n: nat)
    requires Known(c) && t.Struct? && n <= |t.fields| <= 3 && forall i :: 0 <= i < |t.fields| ==> t.fields[i] == Word
    ensures End(c, t, n) == c.wordSize * n && MaxAlignof(c, t, n) == if n == 0 then 1 else c.wordSize
    decreases n
  {
    hide Align, Known, Sizeof, Alignof;
    if n > 0 {
      WordsInRow(c, t, n - 1);
      WholeWords(c, n - 1);
      OneWord(c);
      Distribute(c.wordSize, n, 1);
    }
  }

  lemma OneWord(c: Sizes)
    requires Known(c)
    ensures Sizeof(c, Word) == c.wordSize == Alignof(c, Word)
  {}

  // ----- sizes are multiples of alignments -----

  predicate IsPower(a: nat) {
    a == 1 || a == 2 || a == 4 || a == 8
  }

  predicate IsAligned(c: Sizes, t: Type) {
    Sizeof(c, t) % Alignof(c, t) == 0
  }

  lemma {:induction false} AlignmentIsPower(c: Sizes, t: Type)
    requires Known(c) && WellTyped(t)
    ensures IsPower(Alignof(c, t))
    decreases t, 1
  {
    match t
    case Array(elem, _) => AlignmentIsPower(c, elem);
    case Struct(fields) => MaxIsPower(c, t, |fields|);
    case _ =>
  }

  lemma {:induction false} MaxIsPower(c: Sizes, t: Type, n: nat)
    requires Known(c) && t.Struct? && n <= |t.fields| && AllTyped(t.fields)
    ensures IsPower(MaxAlignof(c, t, n))
    decreases t, 0, n
  {
    if n > 0 {
      MaxIsPower(c, t, n - 1);
      AlignmentIsPower(c, t.fields[n - 1]);
    }
  }

  lemma ScaleMultiple(x: nat, n: nat, a: Pos)
    requires x % a == 0
    ensures Scale(x, n) % a == 0
  {
    var k := x / a;
    assert x == a * k;
    assert x * n == a * (k * n) + 0;
    Remainder(x * n, a, k * n, 0);
  }

  lemma SumMultiple(x: nat, y: nat, a: Pos)
    requires x % a == 0 && y % a == 0
    ensures (x + y) % a == 0
  {
    var k, l := x / a, y / a;
    assert x == a * k && y == a * l;
    assert x + y == a * (k + l) + 0 by { Distribute(a, k + l, l); }
    Remainder(x + y, a, k + l, 0);
  }

  /** With words of the largest alignment, every size is a multiple of its alignment. */
  lemma {:induction false} SizeIsMultiple(c: Sizes, t: Type)
    requires Known(c) && c.wordSize == c.maxAlign && WellTyped(t)
    ensures IsAligned(c, t)
    decreases t
  {
    hide IsAligned, Known;
    match t
    case Array(elem, n) =>
      SizeIsMultiple(c, elem);
      ArrayIsMultiple(c, elem, n);
    case Struct(fields) => StructIsMultiple(c, t);
    case _ => OtherIsMultiple(c, t);
  }

  lemma OtherIsMultiple(c: Sizes, t: Type)
    requires Known(c) && c.wordSize == c.maxAlign && WellTyped(t) && !t.Array? && !t.Struct?
    ensures IsAligned(c, t)
  {}

  lemma ArrayIsMultiple(c: Sizes, elem: Type, n: nat)
    requires IsAligned(c, elem)
    ensures IsAligned(c, Array(elem, n))
  {
    hide Align, Scale, Sizeof, Alignof;
    var z, a := Sizeof(c, elem), Alignof(c, elem);
    ArrayCases(c, elem, n);
    if n > 0 {
      AlignOfMultiple(z, a);
      ScaleMultiple(z, n - 1, a);
      SumMultiple(Scale(z, n - 1), z, a);
    }
  }

  lemma ArrayCases(c: Sizes, elem: Type, n: nat)
    ensures Alignof(c, Array(elem, n)) == Alignof(c, elem)
    ensures Sizeof(c, Array(elem, n)) ==
            if n == 0 then 0 else Scale(Align(Sizeof(c, elem), Alignof(c, elem)), n - 1) + Sizeof(c, elem)
  {
    hide Align, Scale;
  }

  lemma StructIsMultiple(c: Sizes, t: Type)
    requires t.Struct?
    ensures IsAligned(c, t)
  {
    hide Align;
    if t.fields != [] {
      AlignIsMultiple(End(c, t, |t.fields|), MaxAlignof(c, t, |t.fields|));
    }
  }

  /** The only other choice is one where a slice of three words is not. */
  lemma AllAlignedIff(c: Sizes)
    requires Known(c)
    ensures (forall t :: WellTyped(t) ==> IsAligned(c, t)) <==> c.wordSize == c.maxAlign
  {
    if c.wordSize == c.maxAlign {
      forall t | WellTyped(t)
        ensures IsAligned(c, t)
      {
        SizeIsMultiple(c, t);
      }
    } else {
      assert WellTyped(Slice) && !IsAligned(c, Slice);
    }
  }
}
