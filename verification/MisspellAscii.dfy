/** ASCII case folding on bytes, as misspell does it. */
module MisspellAscii {

  type Byte = x: int | 0 <= x < 256
  type Bytes = seq<Byte>

  predicate IsUpper(x: Byte) {
    'A' as int <= x <= 'Z' as int
  }

  // ----- on bit patterns -----

  /** Branchless: the two additions carry into the top bit exactly for upper-case letters. */
  function LowerBits(eax: bv8): (r: bv8)
    ensures r == if 0x41 <= eax <= 0x5a then eax + 0x20 else eax
  {
    var e1 := (eax & 0x7f) + 0x25;
    var e2 := (e1 & 0x7f) + 0x1a;
    var e3 := ((e2 & !eax) >> 2) & 0x20;
    eax + e3
  }

  /** The letter test on bytes with bit 5 set agrees with the branchless conversion. */
  lemma FoldsAgree(a: bv8, b: bv8)
    ensures LowerBits(a) == LowerBits(b) <==> a == b || (a | 0x20 == b | 0x20 && 0x61 <= a | 0x20 <= 0x7a)
  {}

  lemma NextBits(a: bv8)
    requires a < 0xff
    ensures (a + 1) as int == a as int + 1
  {}

  /** The bits of a byte, counted up from zero. */
  function Bits(x: Byte): (v: bv8)
    ensures v as int == x
  {
    if x == 0 then 0
    else
      var a := Bits(x - 1);
      SameBits(a, 0xff);
      NextBits(a);
      a + 1
  }

  lemma SameBits(a: bv8, b: bv8)
    ensures a as int == b as int <==> a == b
    ensures a as int <= b as int <==> a <= b
  {}

  lemma PlusCase(a: bv8)
    requires a <= 0x5a
    ensures (a + 0x20) as int == a as int + 0x20
  {}

  // ----- on bytes -----

  function ByteToLower(x: Byte): (r: Byte)
    ensures r == if IsUpper(x) then x + 0x20 else x
    ensures !IsUpper(r)
  {
    var eax := Bits(x);
    SameBits(0x41, eax);
    SameBits(eax, 0x5a);
    if eax <= 0x5a then
      PlusCase(eax);
      LowerBits(eax) as int
    else
      LowerBits(eax) as int
  }

  function Lower(s: Bytes): (r: Bytes)
    ensures |r| == |s| && forall i :: 0 <= i < |s| ==> r[i] == ByteToLower(s[i])
  {
    seq(|s|, i requires 0 <= i < |s| => ByteToLower(s[i]))
  }

  predicate IsLower(s: Bytes) {
    forall i :: 0 <= i < |s| ==> !IsUpper(s[i])
  }

  predicate ByteEqualFold(a: Byte, b: Byte) {
    a == b || ByteToLower(a) == ByteToLower(b)
  }

  lemma LettersAgree(a: Byte, b: Byte)
    ensures var c1, c2 := Bits(a) | 0x20, Bits(b) | 0x20;
            ByteEqualFold(a, b) <==> a == b || (c1 == c2 && 0x61 <= c1 <= 0x7a)
  {
    FoldsAgree(Bits(a), Bits(b));
    SameBits(Bits(a), Bits(b));
    SameBits(LowerBits(Bits(a)), LowerBits(Bits(b)));
  }

  method StringEqualFold(s1: Bytes, s2: Bytes) returns (r: bool)
    ensures r <==> Lower(s1) == Lower(s2)
  {
    if |s1| != |s2| { return false; }
    for i := 0 to |s1|
      invariant forall k :: 0 <= k < i ==> ByteToLower(s1[k]) == ByteToLower(s2[k])
    {
      var c1, c2 := s1[i], s2[i];
      LettersAgree(c1, c2);
      if c1 != c2 {
        var b1, b2 := Bits(c1) | 0x20, Bits(c2) | 0x20;
        if b1 != b2 || b1 < 0x61 || b1 > 0x7a {
          assert Lower(s1)[i] != Lower(s2)[i];
          return false;
        }
      }
    }
    assert Lower(s1) == Lower(s2);
    return true;
  }

  /** `key` is a prefix of `s` up to the case of ASCII letters. */
  predicate HasPrefixFold(s: Bytes, key: Bytes) {
    |key| <= |s| && Lower(s[..|key|]) == Lower(key)
  }

  method StringHasPrefixFold(s1: Bytes, s2: Bytes) returns (r: bool)
    ensures r <==> HasPrefixFold(s1, s2)
  {
    if |s1| < |s2| { return false; }
    if |s1| == |s2| {
      assert s1[..|s2|] == s1;
      r := StringEqualFold(s1, s2);
    } else {
      r := StringEqualFold(s1[..|s2|], s2);
    }
  }

  /** Keys in lower case are compared with the lower-cased text. */
  lemma LowerOfLower(s: Bytes)
    requires IsLower(s)
    ensures Lower(s) == s
  {}
}
