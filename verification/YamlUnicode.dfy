/** The character encodings that the reader of yaml.v2 takes: what a character looks like in each,
    and how the reader finds the next one. Bit masks of the source are divisions and remainders. */
module YamlUnicode {

  type Byte = x: int | 0 <= x < 256

  datatype Encoding = Any | Utf8 | Utf16LE | Utf16BE

  /** The characters that a YAML stream may hold. */
  predicate Allowed(c: nat) {
    || c == 0x09 || c == 0x0A || c == 0x0D || 0x20 <= c <= 0x7E
    || c == 0x85 || 0xA0 <= c <= 0xD7FF || 0xE000 <= c <= 0xFFFD || 0x10000 <= c <= 0x10FFFF
  }

  predicate AllAllowed(cs: seq<nat>) {
    forall i :: 0 <= i < |cs| ==> Allowed(cs[i])
  }

  // ----- the encodings -----

  /** RFC 3629, section 3. */
  function Encode8(c: nat): (r: seq<Byte>)
    requires c <= 0x10FFFF
    ensures 1 <= |r| <= 4
  {
    if c < 0x80 then [c]
    else if c < 0x800 then [0xC0 + c / 64, 0x80 + c % 64]
    else if c < 0x10000 then [0xE0 + c / 4096, 0x80 + (c / 64) % 64, 0x80 + c % 64]
    else [0xF0 + c / 262144, 0x80 + (c / 4096) % 64, 0x80 + (c / 64) % 64, 0x80 + c % 64]
  }

  function Unit(big: bool, u: nat): seq<Byte>
    requires u < 0x10000
  {
    if big then [u / 256, u % 256] else [u % 256, u / 256]
  }

  /** RFC 2781, section 2.1. */
  function Encode16(big: bool, c: nat): (r: seq<Byte>)
    requires c <= 0x10FFFF
    ensures |r| == if c < 0x10000 then 2 else 4
  {
    if c < 0x10000 then Unit(big, c)
    else Unit(big, 0xD800 + (c - 0x10000) / 1024) + Unit(big, 0xDC00 + (c - 0x10000) % 1024)
  }

  function Encode(enc: Encoding, c: nat): (r: seq<Byte>)
    requires c <= 0x10FFFF
    ensures 1 <= |r| <= 4
  {
    match enc
    case Utf16LE => Encode16(false, c)
    case Utf16BE => Encode16(true, c)
    case _ => Encode8(c)
  }

  /** The examples of RFC 3629, section 7, and of RFC 2781, section 4. */
  lemma EncodingExamples()
    ensures Encode8(0x41) + Encode8(0x2262) + Encode8(0x0391) + Encode8(0x2E)
         == [0x41, 0xE2, 0x89, 0xA2, 0xCE, 0x91, 0x2E]
    ensures Encode8(0xFEFF) + Encode8(0x233B4) == [0xEF, 0xBB, 0xBF, 0xF0, 0xA3, 0x8E, 0xB4]
    ensures Encode(Utf16BE, 0xFEFF) + Encode(Utf16BE, 0x12345) + Encode(Utf16BE, 0x3D)
         == [0xFE, 0xFF, 0xD8, 0x08, 0xDF, 0x45, 0x00, 0x3D]
    ensures Encode(Utf16LE, 0xFEFF) + Encode(Utf16LE, 0x12345) + Encode(Utf16LE, 0x3D)
         == [0xFF, 0xFE, 0x08, 0xD8, 0x45, 0xDF, 0x3D, 0x00]
  {
    assert Encode8(0x2262) == [0xE2, 0x89, 0xA2] && Encode8(0x0391) == [0xCE, 0x91];
    assert Encode8(0xFEFF) == [0xEF, 0xBB, 0xBF] && Encode8(0x233B4) == [0xF0, 0xA3, 0x8E, 0xB4];
    assert (0x12345 - 0x10000) / 1024 == 8 && (0x12345 - 0x10000) % 1024 == 0x345;
  }

  function EncodeAll(enc: Encoding, cs: seq<nat>): seq<Byte>
    requires AllAllowed(cs)
  {
    if cs == [] then [] else EncodeAll(enc, cs[..|cs| - 1]) + Encode(enc, cs[|cs| - 1])
  }

  // ----- the next character -----

  /** A character of some width, not enough bytes to tell, or something that is no character. */
  datatype Step = Char(value: nat, width: nat) | More | Bad

  predicate IsTrail(b: Byte) {
    0x80 <= b < 0xC0
  }

  /** The width that a leading octet announces, or 0. */
  function Width(octet: Byte): (w: nat)
    ensures w <= 4
  {
    if octet < 0x80 then 1
    else if 0xC0 <= octet < 0xE0 then 2
    else if 0xE0 <= octet < 0xF0 then 3
    else if 0xF0 <= octet < 0xF8 then 4
    else 0
  }

  function Lead(octet: Byte): nat {
    if octet < 0x80 then octet
    else if octet < 0xE0 then octet % 32
    else if octet < 0xF0 then octet % 16
    else octet % 8
  }

  /** The value of a sequence of octets, the first `k` of `w`; or none if a trailing one is not. */
  function Value(s: seq<Byte>, k: nat): (v: int)
    requires 1 <= k <= |s|
    ensures v >= -1
  {
    if k == 1 then Lead(s[0])
    else if Value(s, k - 1) < 0 || !IsTrail(s[k - 1]) then -1
    else Value(s, k - 1) * 64 + s[k - 1] % 64
  }

  /** The value must need the width, and be a character. */
  predicate InRange(w: nat, v: nat) {
    && (w == 1 || (w == 2 && v >= 0x80) || (w == 3 && v >= 0x800) || (w == 4 && v >= 0x10000))
    && !(0xD800 <= v <= 0xDFFF) && v <= 0x10FFFF
  }

  function Next8(s: seq<Byte>): Step
    requires s != []
  {
    var w := Width(s[0]);
    if w == 0 then Bad
    else if w > |s| then More
    else
      var v := Value(s, w);
      if v >= 0 && InRange(w, v) && Allowed(v) then Char(v, w) else Bad
  }

  function UnitAt(big: bool, s: seq<Byte>, i: nat): nat
    requires i + 1 < |s|
  {
    var a: int, b: int := s[i], s[i + 1];
    if big then a * 256 + b else a + b * 256
  }

  function Next16(big: bool, s: seq<Byte>): Step
    requires s != []
  {
    if |s| < 2 then More
    else
      var v := UnitAt(big, s, 0);
      if 0xDC00 <= v < 0xE000 then Bad
      else if 0xD800 <= v < 0xDC00 then
        if |s| < 4 then More
        else
          var v2 := UnitAt(big, s, 2);
          if !(0xDC00 <= v2 < 0xE000) then Bad
          else
            var c := 0x10000 + (v % 1024) * 1024 + v2 % 1024;
            if Allowed(c) then Char(c, 4) else Bad
      else if Allowed(v) then Char(v, 2) else Bad
  }

  function Next(enc: Encoding, s: seq<Byte>): Step
    requires s != []
  {
    match enc
    case Utf16LE => Next16(false, s)
    case Utf16BE => Next16(true, s)
    case _ => Next8(s)
  }

  // ----- the next character is the encoded one -----

  lemma Value2(s: seq<Byte>)
    requires |s| >= 2
    ensures Value(s, 2) == if IsTrail(s[1]) then Lead(s[0]) * 64 + s[1] % 64 else -1
  {
    assert Value(s, 1) == Lead(s[0]);
  }

  lemma Value3(s: seq<Byte>)
    requires |s| >= 3
    ensures Value(s, 3) == if IsTrail(s[1]) && IsTrail(s[2]) then (Lead(s[0]) * 64 + s[1] % 64) * 64 + s[2] % 64 else -1
  {
    Value2(s);
    hide Lead;
  }

  lemma Value4(s: seq<Byte>)
    requires |s| >= 4
    ensures Value(s, 4) == if IsTrail(s[1]) && IsTrail(s[2]) && IsTrail(s[3])
                           then ((Lead(s[0]) * 64 + s[1] % 64) * 64 + s[2] % 64) * 64 + s[3] % 64 else -1
  {
    Value3(s);
    hide Lead;
  }

  lemma Sound2(a: Byte, b: Byte)
    requires Width(a) == 2 && IsTrail(b) && Lead(a) * 64 + b % 64 >= 0x80
    ensures Lead(a) * 64 + b % 64 < 0x800 && Encode8(Lead(a) * 64 + b % 64) == [a, b]
  {}

  lemma Sound3(a: Byte, b: Byte, c: Byte)
    requires Width(a) == 3 && IsTrail(b) && IsTrail(c)
    ensures var v := (Lead(a) * 64 + b % 64) * 64 + c % 64; v >= 0x800 ==> v < 0x10000 && Encode8(v) == [a, b, c]
  {
    var x, y, z := Lead(a), b % 64, c % 64;
    var v := (x * 64 + y) * 64 + z;
    assert v / 64 == x * 64 + y && v % 64 == z && v / 4096 == x && (x * 64 + y) % 64 == y;
    assert a == 0xE0 + x && b == 0x80 + y && c == 0x80 + z;
  }

  lemma Sound4(a: Byte, b: Byte, c: Byte, d: Byte)
    requires Width(a) == 4 && IsTrail(b) && IsTrail(c) && IsTrail(d)
    ensures var v := ((Lead(a) * 64 + b % 64) * 64 + c % 64) * 64 + d % 64; 0x10000 <= v <= 0x10FFFF ==>
        Encode8(v) == [a, b, c, d]
  {
    var x, y, z, u := Lead(a), b % 64, c % 64, d % 64;
    var v := ((x * 64 + y) * 64 + z) * 64 + u;
    assert v / 64 == (x * 64 + y) * 64 + z && v % 64 == u;
    assert v / 4096 == x * 64 + y && (v / 64) % 64 == z;
    assert v / 262144 == x && (v / 4096) % 64 == y;
    assert a == 0xF0 + x && b == 0x80 + y && c == 0x80 + z && d == 0x80 + u;
  }

  lemma Next8Sound(s: seq<Byte>)
    requires s != [] && Next8(s).Char?
    ensures var Char(v, w) := Next8(s); w <= |s| && Allowed(v) && s[..w] == Encode8(v)
  {
    var w := Width(s[0]);
    if w == 1 {
      assert Value(s, 1) == s[0];
    } else if w == 2 {
      Value2(s);
      Sound2(s[0], s[1]);
      hide Encode8, Lead;
      assert s[..2] == [s[0], s[1]];
    } else if w == 3 {
      Value3(s);
      Sound3(s[0], s[1], s[2]);
      hide Encode8, Lead;
      assert s[..3] == [s[0], s[1], s[2]];
    } else {
      Value4(s);
      Sound4(s[0], s[1], s[2], s[3]);
      hide Encode8, Lead;
      assert s[..4] == [s[0], s[1], s[2], s[3]];
    }
  }

  lemma Complete2(c: nat)
    requires 0x80 <= c < 0x800
    ensures var e := Encode8(c); |e| == 2 && Width(e[0]) == 2 && IsTrail(e[1]) && Lead(e[0]) * 64 + e[1] % 64 == c
  {}

  lemma Complete3(c: nat)
    requires 0x800 <= c < 0x10000
    ensures var e := Encode8(c);
            && |e| == 3 && Width(e[0]) == 3 && IsTrail(e[1]) && IsTrail(e[2])
            && (Lead(e[0]) * 64 + e[1] % 64) * 64 + e[2] % 64 == c
  {
    var x, y, z := c / 4096, (c / 64) % 64, c % 64;
    assert c / 64 == x * 64 + y;
    assert Encode8(c) == [0xE0 + x, 0x80 + y, 0x80 + z];
    assert (0xE0 + x) % 16 == x && (0x80 + y) % 64 == y && (0x80 + z) % 64 == z;
  }

  lemma Complete4(c: nat)
    requires 0x10000 <= c <= 0x10FFFF
    ensures var e := Encode8(c);
            && |e| == 4 && Width(e[0]) == 4 && IsTrail(e[1]) && IsTrail(e[2]) && IsTrail(e[3])
            && ((Lead(e[0]) * 64 + e[1] % 64) * 64 + e[2] % 64) * 64 + e[3] % 64 == c
  {
    var x, y, z, u := c / 262144, (c / 4096) % 64, (c / 64) % 64, c % 64;
    assert c / 4096 == x * 64 + y && c / 64 == (x * 64 + y) * 64 + z;
    assert Encode8(c) == [0xF0 + x, 0x80 + y, 0x80 + z, 0x80 + u];
    assert (0xF0 + x) % 8 == x && (0x80 + y) % 64 == y && (0x80 + z) % 64 == z && (0x80 + u) % 64 == u;
  }

  lemma Next8Complete(c: nat, t: seq<Byte>)
    requires Allowed(c)
    ensures Next8(Encode8(c) + t) == Char(c, |Encode8(c)|)
  {
    var e := Encode8(c);
    var s := e + t;
    if c < 0x80 {
      assert Value(s, 1) == c;
    } else if c < 0x800 {
      Complete2(c);
      hide Encode8, Lead;
      assert s[0] == e[0] && s[1] == e[1];
      Value2(s);
    } else if c < 0x10000 {
      Complete3(c);
      hide Encode8, Lead;
      assert s[0] == e[0] && s[1] == e[1] && s[2] == e[2];
      Value3(s);
    } else {
      Complete4(c);
      hide Encode8, Lead;
      assert s[0] == e[0] && s[1] == e[1] && s[2] == e[2] && s[3] == e[3];
      Value4(s);
    }
  }

  lemma Next16Sound(big: bool, s: seq<Byte>)
    requires s != [] && Next16(big, s).Char?
    ensures var Char(v, w) := Next16(big, s); w <= |s| && Allowed(v) && s[..w] == Encode16(big, v)
  {
    UnitOf(big, s, 0);
    var v := UnitAt(big, s, 0);
    if 0xD800 <= v < 0xDC00 {
      UnitOf(big, s, 2);
      var v2 := UnitAt(big, s, 2);
      var c := (v % 1024) * 1024 + v2 % 1024;
      assert c / 1024 == v % 1024 && c % 1024 == v2 % 1024;
      assert v == 0xD800 + v % 1024 && v2 == 0xDC00 + v2 % 1024;
      hide Unit, UnitAt;
      assert s[..4] == s[0..2] + s[2..4];
    } else {
      hide Unit, UnitAt;
      assert s[..2] == s[0..2];
    }
  }

  lemma UnitOf(big: bool, s: seq<Byte>, i: nat)
    requires i + 1 < |s|
    ensures UnitAt(big, s, i) < 0x10000 && s[i..i + 2] == Unit(big, UnitAt(big, s, i))
  {
    assert s[i..i + 2] == [s[i], s[i + 1]];
  }

  lemma Next16Complete(big: bool, c: nat, t: seq<Byte>)
    requires Allowed(c)
    ensures Next16(big, Encode16(big, c) + t) == Char(c, |Encode16(big, c)|)
  {
    var s := Encode16(big, c) + t;
    if c < 0x10000 {
      UnitAtStart(big, c, t);
      hide Unit, UnitAt;
    } else {
      var d := c - 0x10000;
      var v, v2 := 0xD800 + d / 1024, 0xDC00 + d % 1024;
      assert v % 1024 == d / 1024 && v2 % 1024 == d % 1024;
      UnitAtStart(big, v, Unit(big, v2) + t);
      UnitAtStart(big, v2, t);
      assert s == Unit(big, v) + (Unit(big, v2) + t);
      assert UnitAt(big, s, 2) == UnitAt(big, Unit(big, v2) + t, 0);
      hide Unit, UnitAt;
    }
  }

  lemma UnitAtStart(big: bool, u: nat, t: seq<Byte>)
    requires u < 0x10000
    ensures UnitAt(big, Unit(big, u) + t, 0) == u
  {}

  /** The next character, if there is one, is what its bytes are the encoding of. */
  lemma NextSound(enc: Encoding, s: seq<Byte>)
    requires s != [] && Next(enc, s).Char?
    ensures var Char(v, w) := Next(enc, s); w <= |s| && Allowed(v) && s[..w] == Encode(enc, v)
  {
    match enc
    case Utf16LE => Next16Sound(false, s);
    case Utf16BE => Next16Sound(true, s);
    case _ => Next8Sound(s);
  }

  /** What starts with an encoded character has it as its next one. */
  lemma NextComplete(enc: Encoding, c: nat, t: seq<Byte>)
    requires Allowed(c)
    ensures Next(enc, Encode(enc, c) + t) == Char(c, |Encode(enc, c)|)
  {
    match enc
    case Utf16LE => Next16Complete(false, c, t);
    case Utf16BE => Next16Complete(true, c, t);
    case _ => Next8Complete(c, t);
  }

  lemma {:induction false} ValueStays(s: seq<Byte>, t: seq<Byte>, k: nat)
    requires 1 <= k <= |s|
    ensures Value(s + t, k) == Value(s, k)
    decreases k
  {
    if k > 1 { ValueStays(s, t, k - 1); }
  }

  /** More bytes do not change what could be told. */
  lemma NextStays(enc: Encoding, s: seq<Byte>, t: seq<Byte>)
    requires s != [] && !Next(enc, s).More?
    ensures Next(enc, s + t) == Next(enc, s)
  {
    if !enc.Utf16LE? && !enc.Utf16BE? && Width(s[0]) > 0 { ValueStays(s, t, Width(s[0])); }
  }

  /** Only the last three bytes of a buffer can be too few to tell. */
  lemma MoreIsShort(enc: Encoding, s: seq<Byte>)
    requires s != [] && Next(enc, s).More?
    ensures |s| <= 3
  {}

  // ----- whole inputs -----

  lemma EncodeSnoc(enc: Encoding, cs: seq<nat>, c: nat)
    requires AllAllowed(cs) && Allowed(c)
    ensures AllAllowed(cs + [c]) && EncodeAll(enc, cs + [c]) == EncodeAll(enc, cs) + Encode(enc, c)
  {
    assert (cs + [c])[..|cs + [c]| - 1] == cs;
  }

  lemma {:induction false} EncodeConcat(enc: Encoding, a: seq<nat>, b: seq<nat>)
    requires AllAllowed(a) && AllAllowed(b)
    ensures AllAllowed(a + b) && EncodeAll(enc, a + b) == EncodeAll(enc, a) + EncodeAll(enc, b)
    decreases |b|
  {
    hide Encode, Allowed;
    if b == [] {
      assert a + b == a;
    } else {
      var b', c := b[..|b| - 1], b[|b| - 1];
      EncodeConcat(enc, a, b');
      assert a + b == (a + b') + [c] && b == b' + [c];
      EncodeSnoc(enc, a + b', c);
      EncodeSnoc(enc, b', c);
    }
  }

  lemma EncodeFirst(enc: Encoding, cs: seq<nat>)
    requires AllAllowed(cs) && cs != []
    ensures EncodeAll(enc, cs) == Encode(enc, cs[0]) + EncodeAll(enc, cs[1..])
  {
    assert cs == [cs[0]] + cs[1..];
    EncodeConcat(enc, [cs[0]], cs[1..]);
    assert EncodeAll(enc, [cs[0]]) == Encode(enc,
        cs[0]) by { EncodeSnoc(enc, [], cs[0]); assert [] + [cs[0]] == [cs[0]]; }
  }

  /** Bytes are well formed if they encode characters that are allowed. */
  ghost predicate WellFormed(enc: Encoding, s: seq<Byte>) {
    exists cs :: AllAllowed(cs) && EncodeAll(enc, cs) == s
  }

  /** What is well formed has a next character. */
  lemma WellFormedHasNext(enc: Encoding, s: seq<Byte>)
    requires WellFormed(enc, s) && s != []
    ensures Next(enc, s).Char?
  {
    var cs :| AllAllowed(cs) && EncodeAll(enc, cs) == s;
    EncodeFirst(enc, cs);
    NextComplete(enc, cs[0], EncodeAll(enc, cs[1..]));
  }

  lemma SplitFirst(enc: Encoding, c: nat, u: seq<Byte>, cs: seq<nat>)
    requires AllAllowed(cs) && Allowed(c) && EncodeAll(enc, cs) == Encode(enc, c) + u
    ensures cs != [] && cs[0] == c && EncodeAll(enc, cs[1..]) == u
  {
    assert cs != [] by { assert |Encode(enc, c)| > 0; }
    var rest := EncodeAll(enc, cs[1..]);
    EncodeFirst(enc, cs);
    hide Encode, EncodeAll;
    SameFirst(enc, c, u, cs[0], rest);
  }

  lemma SameFirst(enc: Encoding, c: nat, u: seq<Byte>, d: nat, v: seq<Byte>)
    requires Allowed(c) && Allowed(d) && Encode(enc, c) + u == Encode(enc, d) + v
    ensures c == d && u == v
  {
    NextComplete(enc, c, u);
    NextComplete(enc, d, v);
    var n := |Encode(enc, c)|;
    hide Encode, Next;
    assert u == (Encode(enc, c) + u)[n..];
    assert v == (Encode(enc, d) + v)[n..];
  }

  /** And after characters of a well-formed input, it goes on well formed. */
  lemma {:induction false} WellFormedRest(enc: Encoding, pre: seq<nat>, t: seq<Byte>)
    requires AllAllowed(pre) && WellFormed(enc, EncodeAll(enc, pre) + t)
    ensures WellFormed(enc, t)
    decreases |pre|
  {
    Peel(enc, pre, t);
    if pre != [] {
      hide Encode, EncodeAll, WellFormed, Allowed, AllAllowed;
      DropFirst(enc, pre[0], EncodeAll(enc, pre[1..]) + t);
      WellFormedRest(enc, pre[1..], t);
    }
  }

  lemma NothingEncoded(enc: Encoding)
    ensures EncodeAll(enc, []) == []
  {}

  lemma Peel(enc: Encoding, pre: seq<nat>, t: seq<Byte>)
    requires AllAllowed(pre)
    ensures pre == [] ==> EncodeAll(enc, pre) + t == t
    ensures pre != [] ==> Allowed(pre[0]) && AllAllowed(pre[1..])
                          && EncodeAll(enc, pre) + t == Encode(enc, pre[0]) + (EncodeAll(enc, pre[1..]) + t)
  {
    hide Encode, EncodeAll;
    NothingEncoded(enc);
    if pre == [] {
      assert [] + t == t;
    } else {
      EncodeFirst(enc, pre);
      assert Encode(enc, pre[0]) + EncodeAll(enc, pre[1..]) + t == Encode(enc, pre[0]) + (EncodeAll(enc, pre[1..]) + t);
    }
  }

  lemma DropFirst(enc: Encoding, c: nat, u: seq<Byte>)
    requires Allowed(c) && WellFormed(enc, Encode(enc, c) + u)
    ensures WellFormed(enc, u)
  {
    var cs :| AllAllowed(cs) && EncodeAll(enc, cs) == Encode(enc, c) + u;
    hide Encode, EncodeAll;
    SplitFirst(enc, c, u, cs);
    assert AllAllowed(cs[1..]);
  }

  /** Where no character can be found, or not all of it before the end, the input is malformed. */
  lemma CannotGoOn(enc: Encoding, cs: seq<nat>, s: seq<Byte>, t: seq<Byte>)
    requires AllAllowed(cs) && s != [] && (Next(enc, s).Bad? || (Next(enc, s).More? && t == []))
    ensures !WellFormed(enc, EncodeAll(enc, cs) + (s + t))
  {
    if Next(enc, s).Bad? { NextStays(enc, s, t); } else { assert s + t == s; }
    hide Next, Encode, EncodeAll, WellFormed, Allowed;
    if WellFormed(enc, EncodeAll(enc, cs) + (s + t)) {
      WellFormedRest(enc, cs, s + t);
      WellFormedHasNext(enc, s + t);
    }
  }

  /** An input is the encoding of only one list of characters. */
  lemma {:induction false} DecodingIsUnique(enc: Encoding, a: seq<nat>, b: seq<nat>)
    requires AllAllowed(a) && AllAllowed(b) && EncodeAll(enc, a) == EncodeAll(enc, b)
    ensures a == b
    decreases |a|
  {
    if a == [] || b == [] {
      if a != [] { EncodeFirst(enc, a); }
      if b != [] { EncodeFirst(enc, b); }
    } else {
      EncodeFirst(enc, a);
      SplitFirst(enc, a[0], EncodeAll(enc, a[1..]), b);
      DecodingIsUnique(enc, a[1..], b[1..]);
    }
  }
}
