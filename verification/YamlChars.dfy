/** The characters that the scalars of yaml.v2 are made of, the tests that the library puts to them,
    and why its tests on UTF-8 bytes are tests on characters. */
module YamlChars {

  import opened YamlUnicode

  predicate IsSpace(c: char) {
    c == ' '
  }

  predicate IsBlank(c: char) {
    c == ' ' || c == '\t'
  }

  predicate IsBreak(c: char) {
    c == '\r' || c == '\n' || c == '\U{85}' || c == '\U{2028}' || c == '\U{2029}'
  }

  predicate IsZ(c: char) {
    c == '\0'
  }

  predicate IsBlankZ(c: char) {
    IsBlank(c) || IsBreak(c) || IsZ(c)
  }

  predicate IsAscii(c: char) {
    c as int < 0x80
  }

  predicate IsPrintable(c: char) {
    || c == '\n' || 0x20 <= c as int <= 0x7E || 0xA0 <= c as int <= 0xD7FF
    || (0xE000 <= c as int <= 0xFFFD && c as int != 0xFEFF)
  }

  /** The test for a byte order mark looks at the start of the whole value, whatever its index. */
  predicate StartsWithBom(v: string) {
    v != [] && v[0] as int == 0xFEFF
  }

  // ----- the same tests on bytes, from the place looked at -----

  function ByteAt(s: seq<Byte>, k: nat): Byte {
    if k < |s| then s[k] else 0
  }

  predicate BytesBlank(s: seq<Byte>) {
    ByteAt(s, 0) == 0x20 || ByteAt(s, 0) == 0x09
  }

  predicate BytesBreak(s: seq<Byte>) {
    || ByteAt(s, 0) == 0x0D
    || ByteAt(s, 0) == 0x0A
    || (ByteAt(s, 0) == 0xC2 && ByteAt(s, 1) == 0x85)
    || (ByteAt(s, 0) == 0xE2 && ByteAt(s, 1) == 0x80 && ByteAt(s, 2) == 0xA8)
    || (ByteAt(s, 0) == 0xE2 && ByteAt(s, 1) == 0x80 && ByteAt(s, 2) == 0xA9)
  }

  predicate BytesPrintable(s: seq<Byte>) {
    || ByteAt(s, 0) == 0x0A
    || 0x20 <= ByteAt(s, 0) <= 0x7E
    || (ByteAt(s, 0) == 0xC2 && ByteAt(s, 1) >= 0xA0)
    || 0xC2 < ByteAt(s, 0) < 0xED
    || (ByteAt(s, 0) == 0xED && ByteAt(s, 1) < 0xA0)
    || ByteAt(s, 0) == 0xEE
    || (ByteAt(s, 0) == 0xEF && !(ByteAt(s, 1) == 0xBB && ByteAt(s, 2) == 0xBF)
        && !(ByteAt(s, 1) == 0xBF && (ByteAt(s, 2) == 0xBE || ByteAt(s, 2) == 0xBF)))
  }

  predicate BytesBom(s: seq<Byte>) {
    ByteAt(s, 0) == 0xEF && ByteAt(s, 1) == 0xBB && ByteAt(s, 2) == 0xBF
  }

  lemma ByteTestsAreCharTests(c: char, t: seq<Byte>)
    ensures var s := Encode8(c as int) + t;
      && Width(s[0]) == |Encode8(c as int)|
      && (BytesBlank(s) <==> IsBlank(c))
      && (BytesBreak(s) <==> IsBreak(c))
      && (BytesPrintable(s) <==> IsPrintable(c))
      && (ByteAt(s, 0) <= 0x7F <==> IsAscii(c))
      && (BytesBom(s) <==> c as int == 0xFEFF)
  {
    var n := c as int;
    var s := Encode8(n) + t;
    if n < 0x80 {
      assert ByteAt(s, 0) == n;
    } else if n < 0x800 {
      assert ByteAt(s, 0) == 0xC0 + n / 64 && ByteAt(s, 1) == 0x80 + n % 64;
    } else if n < 0x10000 {
      assert ByteAt(s, 0) == 0xE0 + n / 4096 && ByteAt(s, 1) == 0x80 + (n / 64) % 64 && ByteAt(s, 2) == 0x80 + n % 64;
      ThreeBytes(n);
    } else {
      assert ByteAt(s, 0) == 0xF0 + n / 262144;
    }
  }

  lemma ThreeBytes(n: nat)
    requires n < 0x10000
    ensures n == 4096 * (n / 4096) + 64 * ((n / 64) % 64) + n % 64
  {
    assert (n / 64) / 64 == n / 4096;
  }
}
