/** The reader of yaml.v2: it takes bytes from a handler in chunks of any size, finds the encoding,
    and fills a buffer with the characters in UTF-8. */
module YamlReader {
  import opened YamlUnicode

  const RAW_SIZE := 512
  const BUFFER_SIZE := 3 * RAW_SIZE

  /** How a read handler answers: it gives some of what is left, perhaps with the end of the input,
      or it fails. */
  datatype Chunk = Give(n: nat, end: bool) | Fails

  class Source {
    var rest: seq<Byte>
    var chunks: seq<Chunk>

    constructor (rest: seq<Byte>, chunks: seq<Chunk>)
      ensures this.rest == rest && this.chunks == chunks
    {
      this.rest, this.chunks := rest, chunks;
    }

    /** At most `space` bytes. The end is told with the last bytes, or after them. */
    method Read(space: nat) returns (bytes: seq<Byte>, end: bool, ok: bool)
      requires space > 0
      modifies this
      ensures |bytes| <= space && old(rest) == bytes + rest
      ensures end ==> rest == []
      ensures ok && !end ==> |chunks| + |rest| < |old(chunks)| + |old(rest)|
      ensures |chunks| + |rest| <= |old(chunks)| + |old(rest)|
    {
      var n := if |rest| < space then |rest| else space;
      end, ok := n == |rest|, true;
      if chunks != [] {
        match chunks[0]
        case Fails => n, end, ok := 0, false, false;
        case Give(k, e) =>
          if k < n { n := k; }
          end := e && n == |rest|;
      }
      chunks := if chunks == [] then [] else chunks[1..];
      bytes, rest := rest[..n], rest[n..];
    }
  }

  /** The encoding that the first bytes tell, and how many of them do. */
  function Bom(s: seq<Byte>): (Encoding, nat) {
    if |s| >= 2 && s[0] == 0xFF && s[1] == 0xFE then (Utf16LE, 2)
    else if |s| >= 2 && s[0] == 0xFE && s[1] == 0xFF then (Utf16BE, 2)
    else if |s| >= 3 && s[0] == 0xEF && s[1] == 0xBB && s[2] == 0xBF then (Utf8, 3)
    else (Utf8, 0)
  }

  lemma BomOfPrefix(s: seq<Byte>, t: seq<Byte>)
    requires |s| >= 3 || t == []
    ensures Bom(s + t) == Bom(s)
  {
    if t == [] { assert s + t == s; }
  }

  /** The byte order mark, a zero width no-break space (RFC 2781, section 3.2). */
  const MARK := 0xFEFF

  /** What is taken for a mark is one, in the encoding that it announces. */
  lemma BomIsMark(s: seq<Byte>)
    ensures Bom(s).1 > 0 ==> Bom(s).1 <= |s| && s[..Bom(s).1] == Encode(Bom(s).0, MARK)
    ensures Bom(s).1 == 0 ==> Bom(s).0 == Utf8
  {}

  /** And a mark is found in every encoding. */
  lemma MarkIsFound(enc: Encoding, t: seq<Byte>)
    requires !enc.Any?
    ensures Bom(Encode(enc, MARK) + t) == (enc, |Encode(enc, MARK)|)
  {
    var s := Encode(enc, MARK) + t;
    match enc
    case Utf16LE => assert s[0] == 0xFF && s[1] == 0xFE;
    case Utf16BE => assert s[0] == 0xFE && s[1] == 0xFF;
    case Utf8 => assert s[0] == 0xEF && s[1] == 0xBB && s[2] == 0xBF;
  }

  /** UTF-8 that does not start with a mark is not taken for anything else. */
  lemma NoMark(cs: seq<nat>)
    requires AllAllowed(cs) && (cs != [] ==> cs[0] != MARK)
    ensures Bom(EncodeAll(Utf8, cs)) == (Utf8, 0)
  {
    var s := EncodeAll(Utf8, cs);
    if cs != [] {
      EncodeFirst(Utf8, cs);
      if Bom(s).1 == 3 {
        BomIsMark(s);
        assert s == Encode8(MARK) + s[3..];
        SameFirst(Utf8, cs[0], EncodeAll(Utf8, cs[1..]), MARK, s[3..]);
      }
    }
  }

  /** The input is `cs` in this encoding: with a mark in front, or without one if it is UTF-8. */
  predicate IsText(input: seq<Byte>, enc: Encoding, cs: seq<nat>)
    requires AllAllowed(cs)
  {
    || input == Encode(enc, MARK) + EncodeAll(enc, cs)
    || (enc.Utf8? && input == EncodeAll(Utf8, cs) && (cs != [] ==> cs[0] != MARK))
  }

  lemma BomOfText(input: seq<Byte>, enc: Encoding, cs: seq<nat>)
    requires AllAllowed(cs) && !enc.Any? && IsText(input, enc, cs)
    ensures Bom(input).0 == enc && Bom(input).1 <= |input| && input[Bom(input).1..] == EncodeAll(enc, cs)
  {
    hide Bom, EncodeAll, Encode;
    if input == Encode(enc, MARK) + EncodeAll(enc, cs) {
      MarkIsFound(enc, EncodeAll(enc, cs));
      assert input[|Encode(enc, MARK)|..] == EncodeAll(enc, cs);
    } else {
      NoMark(cs);
      assert input[0..] == input;
    }
  }

  function Zeros(n: nat): (r: seq<Byte>)
    ensures |r| == n && forall i :: 0 <= i < n ==> r[i] == 0
  {
    seq(n, _ => 0)
  }

  class Reader {
    const source: Source
    const raw: array<Byte>
    var rawLen: nat
    var rawPos: nat
    const buffer: array<Byte>
    var bufferLen: nat
    var bufferPos: nat
    var unread: int
    var eof: bool
    var encoding: Encoding
    var inputError: bool
    // the whole input, how much of it has been decoded, the characters found, how many of them have
    // been passed, and the zero bytes after them, of which `nuls` are counted as characters
    ghost const input: seq<Byte>
    ghost var taken: nat
    ghost var decoded: seq<nat>
    ghost var seen: nat
    ghost var zeros: nat
    ghost var nuls: nat

    ghost predicate RawOk()
      reads `rawLen, `rawPos, `taken, `eof, source, raw
    {
      && raw.Length == RAW_SIZE && rawPos <= rawLen <= RAW_SIZE && taken <= |input|
      && input[taken..] == raw[rawPos..rawLen] + source.rest && (eof ==> source.rest == [])
    }

    ghost predicate DecodedOk()
      reads `encoding, `taken, `decoded
    {
      && AllAllowed(decoded) && taken <= |input|
      && if encoding.Any? then taken == 0 && decoded == []
         else
           && encoding == Bom(input).0 && Bom(input).1 <= taken
           && input[Bom(input).1..taken] == EncodeAll(encoding, decoded)
    }

    ghost predicate BufferOk()
      reads this, buffer
    {
      BufferFrame() && buffer[bufferPos..bufferLen] == EncodeAll(Utf8, decoded[seen..]) + Zeros(zeros)
    }

    /** The buffer apart from what is in it. */
    ghost predicate BufferFrame()
      reads `bufferLen, `bufferPos, `unread, `decoded, `seen, `zeros, `nuls, `eof, `rawPos, `rawLen
    {
      && buffer.Length == BUFFER_SIZE && bufferPos <= bufferLen <= BUFFER_SIZE
      && seen <= |decoded| && AllAllowed(decoded)
      && unread == |decoded| - seen + nuls && nuls <= zeros <= nuls + 8
      && (zeros > 0 ==> eof && rawPos == rawLen)
    }

    ghost predicate Valid()
      reads this, source, raw, buffer
    {
      raw != buffer && RawOk() && DecodedOk() && BufferOk()
    }

    constructor (input: seq<Byte>, chunks: seq<Chunk>)
      ensures Valid() && this.input == input && decoded == [] && seen == 0 && !inputError
      ensures fresh(source) && fresh(raw) && fresh(buffer)
    {
      source := new Source(input, chunks);
      raw, buffer := new Byte[RAW_SIZE](_ => 0), new Byte[BUFFER_SIZE](_ => 0);
      rawLen, rawPos, bufferLen, bufferPos, unread, eof, encoding, inputError := 0, 0, 0, 0, 0, false, Any, false;
      this.input, taken, decoded, seen, zeros, nuls := input, 0, [], 0, 0, 0;
    }

    // ----- the raw buffer -----

    ghost function RawUnread(): seq<Byte>
      requires rawPos <= rawLen <= raw.Length
      reads `rawPos, `rawLen, raw
    {
      raw[rawPos..rawLen]
    }

    ghost function Left(): nat
      reads this, source
    {
      |source.chunks| + |source.rest| + if eof then 0 else 1
    }

    /** Moves what has not been decoded to the beginning. */
    method MoveRaw()
      requires RawOk()
      modifies `rawLen, `rawPos, raw
      ensures RawOk() && rawPos == 0 && RawUnread() == old(RawUnread())
    {
      ghost var unreadBytes := RawUnread();
      var n := rawLen - rawPos;
      if rawPos > 0 && rawPos < rawLen {
        for i := 0 to n
          invariant raw[..i] == unreadBytes[..i] && forall k :: i + rawPos <= k < rawLen ==>
              raw[k] == unreadBytes[k - rawPos]
          modifies raw
        {
          raw[i] := raw[rawPos + i];
        }
      }
      rawLen, rawPos := n, 0;
      assert raw[..n] == unreadBytes;
    }

    /** Reads more into the raw buffer, unless it is full or the input has ended. */
    method UpdateRaw() returns (ok: bool)
      requires RawOk() && !inputError
      modifies `rawLen, `rawPos, `eof, `inputError, source, raw
      ensures RawOk() && old(RawUnread()) <= RawUnread() && (old(eof) ==> eof && RawUnread() == old(RawUnread()))
      ensures ok == !inputError
      ensures ok && !old(eof) && |old(RawUnread())| < RAW_SIZE ==> Left() < old(Left())
      ensures Left() <= old(Left())
    {
      if rawPos == 0 && rawLen == RAW_SIZE { return true; }
      if eof { return true; }
      MoveRaw();
      ok := Refill();
    }

    method Refill() returns (ok: bool)
      requires RawOk() && !inputError && !eof && rawPos == 0 && rawLen < RAW_SIZE
      modifies `rawLen, `eof, `inputError, source, raw
      ensures RawOk() && old(RawUnread()) <= RawUnread()
      ensures ok == !inputError && (ok ==> Left() < old(Left())) && Left() <= old(Left())
    {
      ghost var was := RawUnread();
      assert was == raw[..rawLen];
      var bytes, end;
      bytes, end, ok := source.Read(RAW_SIZE - rawLen);
      Store(bytes);
      assert RawUnread() == raw[..rawLen] == was + bytes;
      assert was + (bytes + source.rest) == (was + bytes) + source.rest;
      if end {
        eof := true;
        ok := true;
      } else if !ok {
        inputError := true;
      }
    }

    /** Puts bytes behind the others. */
    method Store(bytes: seq<Byte>)
      requires rawPos == 0 && rawLen + |bytes| <= raw.Length == RAW_SIZE
      modifies `rawLen, raw
      ensures rawLen == old(rawLen) + |bytes| && raw[..rawLen] == old(raw[..rawLen]) + bytes
    {
      ghost var was := raw[..rawLen];
      var n := rawLen;
      for i := 0 to |bytes|
        invariant raw[..n + i] == was + bytes[..i]
        modifies raw
      {
        raw[n + i] := bytes[i];
      }
      rawLen := n + |bytes|;
    }

    /** Finds the encoding from the first bytes and passes over the mark. */
    method DetermineEncoding() returns (ok: bool)
      requires Valid() && encoding.Any? && !inputError
      modifies `rawLen, `rawPos, `eof, `inputError, `encoding, `taken, source, raw
      ensures ok == !inputError
      ensures ok ==> Valid() && !encoding.Any?
    {
      while !eof && rawLen - rawPos < 3
        invariant Valid() && encoding.Any? && !inputError
        decreases Left()
      {
        ok := UpdateRaw();
        if !ok { return; }
      }
      TakeBom();
      ok := true;
    }

    method TakeBom()
      requires Valid() && encoding.Any? && (eof || rawLen - rawPos >= 3)
      modifies `rawPos, `encoding, `taken
      ensures Valid() && !encoding.Any?
    {
      RawFacts();
      ghost var s := RawUnread();
      BomOfPrefix(s, source.rest);
      assert input[0..] == input;
      var skip;
      hide RawOk, EncodeAll, Bom, Zeros, DecodedOk;
      DecodedNothing();
      encoding, skip := DetectBom();
      PassRaw(s, skip);
      StartIsOk();
    }

    lemma DecodedNothing()
      requires DecodedOk() && encoding.Any?
      ensures taken == 0 && decoded == []
    {}

    lemma StartIsOk()
      requires decoded == [] && (encoding, taken) == Bom(input) && taken <= |input| && !encoding.Any?
      ensures DecodedOk()
    {
      EmptyStart(encoding, taken);
    }

    method DetectBom() returns (enc: Encoding, skip: nat)
      requires rawPos <= rawLen <= raw.Length
      ensures (enc, skip) == Bom(RawUnread()) && skip <= |RawUnread()| && !enc.Any?
    {
      var avail := rawLen - rawPos;
      if avail >= 2 && raw[rawPos] == 0xFF && raw[rawPos + 1] == 0xFE {
        enc, skip := Utf16LE, 2;
      } else if avail >= 2 && raw[rawPos] == 0xFE && raw[rawPos + 1] == 0xFF {
        enc, skip := Utf16BE, 2;
      } else if avail >= 3 && raw[rawPos] == 0xEF && raw[rawPos + 1] == 0xBB && raw[rawPos + 2] == 0xBF {
        enc, skip := Utf8, 3;
      } else {
        enc, skip := Utf8, 0;
      }
    }

    lemma EmptyStart(enc: Encoding, n: nat)
      requires n <= |input|
      ensures input[n..n] == EncodeAll(enc, [])
    {}

    /** Raw bytes that have been dealt with are passed over. */
    method PassRaw(ghost s: seq<Byte>, n: nat)
      requires RawOk() && s == RawUnread() && n <= |s|
      modifies `rawPos, `taken
      ensures RawOk() && RawUnread() == s[n..] && taken == old(taken) + n && rawPos == old(rawPos) + n
      ensures input[old(taken)..taken] == s[..n]
    {
      assert input[taken..][..n] == s[..n] && input[taken..][n..] == s[n..] + source.rest;
      assert input[taken..][n..] == input[taken + n..] && input[taken..][..n] == input[taken..taken + n];
      rawPos := rawPos + n;
      taken := taken + n;
    }

    // ----- decoding -----

    /** The next character of UTF-8 in the raw buffer. */
    method DecodeUtf8() returns (step: Step)
      requires rawPos < rawLen <= raw.Length
      ensures step == Next8(RawUnread())
    {
      ghost var s := RawUnread();
      var octet := raw[rawPos];
      var width := Width(octet);
      if width == 0 { return Bad; }
      if width > rawLen - rawPos { return More; }
      var value: int := Lead(octet);
      for k := 1 to width
        invariant value == Value(s, k) && value >= 0
      {
        octet := raw[rawPos + k];
        assert octet == s[k];
        if !IsTrail(octet) {
          ValueFails(s, k + 1, width);
          return Bad;
        }
        var low: int := octet % 64;
        value := value * 64 + low;
      }
      if InRange(width, value) && Allowed(value) { return Char(value, width); }
      return Bad;
    }

    lemma {:induction false} ValueFails(s: seq<Byte>, k: nat, w: nat)
      requires 1 <= k <= w <= |s| && Value(s, k) < 0
      ensures Value(s, w) == -1
      decreases w
    {
      if k < w { ValueFails(s, k, w - 1); }
    }

    /** The next character of UTF-16. */
    method DecodeUtf16(big: bool) returns (step: Step)
      requires rawPos < rawLen <= raw.Length
      ensures step == Next16(big, RawUnread())
    {
      ghost var s := RawUnread();
      if rawLen - rawPos < 2 { return More; }
      var low, high := if big then 1 else 0, if big then 0 else 1;
      assert raw[rawPos + low] == s[low] && raw[rawPos + high] == s[high];
      var value: int := raw[rawPos + high];
      value := value * 256 + raw[rawPos + low];
      if 0xDC00 <= value < 0xE000 { return Bad; }
      var width := 2;
      if 0xD800 <= value < 0xDC00 {
        if rawLen - rawPos < 4 { return More; }
        assert raw[rawPos + low + 2] == s[low + 2] && raw[rawPos + high + 2] == s[high + 2];
        var value2: int := raw[rawPos + high + 2];
        value2 := value2 * 256 + raw[rawPos + low + 2];
        if !(0xDC00 <= value2 < 0xE000) { return Bad; }
        value := 0x10000 + (value % 1024) * 1024 + value2 % 1024;
        width := 4;
      }
      if Allowed(value) { return Char(value, width); }
      return Bad;
    }

    method DecodeNext() returns (step: Step)
      requires rawPos < rawLen <= raw.Length && !encoding.Any?
      ensures step == Next(encoding, RawUnread())
    {
      match encoding
      case Utf16LE => step := DecodeUtf16(false);
      case Utf16BE => step := DecodeUtf16(true);
      case _ => step := DecodeUtf8();
    }

    // ----- the buffer -----

    /** Moves the unread characters to the beginning. */
    method MoveBuffer()
      requires BufferOk()
      modifies `bufferLen, `bufferPos, buffer
      ensures BufferOk() && bufferPos == 0
    {
      ghost var was := Content();
      hide EncodeAll, Zeros, BufferOk, AllAllowed;
      if bufferPos > 0 && bufferPos < bufferLen {
        ShiftBuffer();
        NoOffset();
      } else if bufferPos == bufferLen {
        bufferLen, bufferPos := 0, 0;
      }
      assert buffer[bufferPos..bufferLen] == was;
      FactsAreBuffer();
    }

    lemma NoOffset()
      requires bufferPos == 0 && bufferLen <= buffer.Length
      ensures buffer[bufferPos..bufferLen] == buffer[..bufferLen]
    {}

    /** What is in the buffer. */
    lemma Content() returns (s: seq<Byte>)
      requires BufferOk()
      ensures BufferFrame() && s == buffer[bufferPos..bufferLen] == EncodeAll(Utf8, decoded[seen..]) + Zeros(zeros)
    {
      s := buffer[bufferPos..bufferLen];
    }

    method ShiftBuffer()
      requires bufferPos <= bufferLen <= buffer.Length
      modifies `bufferLen, `bufferPos, buffer
      ensures bufferPos == 0 && bufferLen == old(bufferLen - bufferPos)
      ensures buffer[..bufferLen] == old(buffer[bufferPos..bufferLen])
    {
      ghost var was := buffer[bufferPos..bufferLen];
      var n := bufferLen - bufferPos;
      for i := 0 to n
        invariant buffer[..i] == was[..i] && forall k :: i + bufferPos <= k < bufferLen ==>
            buffer[k] == was[k - bufferPos]
        modifies buffer
      {
        buffer[i] := buffer[bufferPos + i];
      }
      bufferLen, bufferPos := n, 0;
    }

    /** Puts a byte behind the others. */
    method PutByte(b: Byte)
      requires bufferLen < buffer.Length
      modifies `bufferLen, buffer
      ensures bufferLen == old(bufferLen) + 1 && buffer[..bufferLen] == old(buffer[..bufferLen]) + [b]
    {
      buffer[bufferLen] := b;
      bufferLen := bufferLen + 1;
    }

    /** Puts a character into the buffer. */
    method PutChar(value: nat)
      requires value <= 0x10FFFF && bufferLen + 4 <= buffer.Length
      modifies `bufferLen, buffer
      ensures buffer.Length >= bufferLen == old(bufferLen) + |Encode8(value)|
      ensures buffer[..bufferLen] == old(buffer[..bufferLen]) + Encode8(value)
    {
      ghost var was := buffer[..bufferLen];
      if value <= 0x7F {
        PutByte(value);
      } else if value <= 0x7FF {
        PutByte(0xC0 + value / 64);
        PutByte(0x80 + value % 64);
      } else if value <= 0xFFFF {
        PutByte(0xE0 + value / 4096);
        PutByte(0x80 + (value / 64) % 64);
        PutByte(0x80 + value % 64);
      } else {
        PutByte(0xF0 + value / 262144);
        PutByte(0x80 + (value / 4096) % 64);
        PutByte(0x80 + (value / 64) % 64);
        PutByte(0x80 + value % 64);
      }
    }

    /** A character goes from the raw buffer to the buffer. */
    method TakeChar(value: nat, width: nat)
      requires Valid() && !encoding.Any? && RawUnread() != [] && Next(encoding, RawUnread()) == Char(value, width)
      requires bufferPos == 0 && zeros == 0 && bufferLen + 4 <= BUFFER_SIZE
      modifies `rawPos, `taken, `bufferLen, `unread, `decoded, buffer
      ensures Valid() && width > 0 && rawPos == old(rawPos) + width
      ensures decoded == old(decoded) + [value] && unread == old(unread) + 1
      ensures 2 * bufferLen <= 2 * old(bufferLen) + 3 * width
    {
      ghost var s := RawUnread();
      NextSound(encoding, s);
      Narrow(encoding, value);
      RawFacts();
      hide EncodeAll, Encode, Encode8, Next, Allowed, AllAllowed, RawOk, Bom, Zeros, BufferOk, DecodedOk;
      PutDecoded(value);
      TakeRaw(value, width);
      BufferIsOk();
    }

    lemma BufferIsOk()
      requires bufferPos == 0 && zeros == 0 && nuls == 0 && bufferLen <= buffer.Length == BUFFER_SIZE
      requires seen <= |decoded| && AllAllowed(decoded) && unread == |decoded| - seen
      requires buffer[bufferPos..bufferLen] == EncodeAll(Utf8, decoded[seen..]) + Zeros(zeros)
      ensures BufferOk()
    {}

    lemma RawFacts()
      requires RawOk()
      ensures raw.Length == RAW_SIZE && rawPos <= rawLen <= RAW_SIZE && taken <= |input|
      ensures input[taken..] == RawUnread() + source.rest && (eof ==> source.rest == [])
    {}

    /** Puts the character into the buffer that is decoded next. */
    method PutDecoded(value: nat)
      requires BufferOk() && Allowed(value) && bufferPos == 0 && zeros == 0 && bufferLen + 4 <= BUFFER_SIZE
      modifies `bufferLen, `unread, buffer
      ensures bufferLen == old(bufferLen) + |Encode8(value)| && unread == old(unread) + 1 && bufferLen <= BUFFER_SIZE
      ensures AllAllowed(decoded + [value]) && buffer.Length == BUFFER_SIZE && seen <= |decoded|
      ensures unread == |decoded| + 1 - seen + nuls && nuls == 0
      ensures buffer[bufferPos..bufferLen] == EncodeAll(Utf8, (decoded + [value])[seen..]) + Zeros(zeros)
    {
      NoZeros();
      EncodeSnoc(Utf8, decoded[seen..], value);
      assert (decoded + [value])[seen..] == decoded[seen..] + [value];
      hide EncodeAll, Encode8;
      PutChar(value);
      unread := unread + 1;
      NoZeros();
    }

    /** Passes over the raw bytes of a character. */
    method TakeRaw(ghost value: nat, width: nat)
      requires RawOk() && DecodedOk() && !encoding.Any? && Allowed(value)
      requires 0 < width <= |RawUnread()| && RawUnread()[..width] == Encode(encoding, value)
      modifies `rawPos, `taken, `decoded
      ensures RawOk() && DecodedOk() && rawPos == old(rawPos) + width && decoded == old(decoded) + [value]
    {
      EncodeSnoc(encoding, decoded, value);
      hide EncodeAll, Encode, RawOk;
      RawFacts();
      PassRaw(RawUnread(), width);
      RawFacts();
      SplitSlice(input, Bom(input).1, old(taken), taken);
      decoded := decoded + [value];
    }

    lemma SplitSlice(s: seq<Byte>, a: nat, b: nat, c: nat)
      requires a <= b <= c <= |s|
      ensures s[a..c] == s[a..b] + s[b..c]
    {}

    lemma NoZeros()
      requires bufferPos == 0 && bufferLen <= buffer.Length
      ensures buffer[bufferPos..bufferLen] == buffer[..bufferLen]
      ensures forall s: seq<Byte> :: s + Zeros(0) == s
    {}

    /** UTF-8 takes at most half as much again as the input does. */
    lemma Narrow(enc: Encoding, c: nat)
      requires Allowed(c) && !enc.Any?
      ensures 2 * |Encode8(c)| <= 3 * |Encode(enc, c)|
    {}

    /** The input holds something that is not a character. */
    ghost predicate Malformed()
      reads this
    {
      !encoding.Any? && Bom(input).1 <= |input| && !WellFormed(encoding, input[Bom(input).1..])
    }

    lemma CannotGoOn()
      requires Valid() && !encoding.Any? && RawUnread() != []
      requires Next(encoding, RawUnread()).Bad? || (Next(encoding, RawUnread()).More? && eof)
      ensures Malformed()
    {
      hide EncodeAll, Encode, Next, Allowed, RawOk, BufferOk, Bom, WellFormed;
      RawFacts();
      var b := Bom(input).1;
      SplitSlice(input, b, taken, |input|);
      YamlUnicode.CannotGoOn(encoding, decoded, RawUnread(), source.rest);
      assert input[b..] == EncodeAll(encoding, decoded) + (RawUnread() + source.rest);
    }

    /** Decodes the raw buffer as far as it goes. */
    method DecodeRaw() returns (ok: bool)
      requires Valid() && !encoding.Any? && bufferPos == 0 && 2 * bufferLen <= 2 * (BUFFER_SIZE - 4) - 3 * RAW_SIZE
      modifies `rawPos, `taken, `bufferLen, `unread, `decoded, buffer
      ensures !ok ==> Malformed()
      ensures ok ==> Valid() && bufferPos == 0 && |RawUnread()| <= 3 && (eof ==> RawUnread() == [])
      ensures ok ==> old(decoded) <= decoded && unread == old(unread) + |decoded| - |old(decoded)|
      ensures ok ==> 2 * bufferLen <= 2 * old(bufferLen) + 3 * RAW_SIZE
    {
      hide Next, EncodeAll, Encode, Bom, Allowed, AllAllowed, WellFormed, Malformed;
      while rawPos != rawLen
        invariant Valid() && bufferPos == 0
        invariant old(decoded) <= decoded && unread == old(unread) + |decoded| - |old(decoded)|
        invariant 2 * bufferLen + 3 * (rawLen - rawPos) <= 2 * old(bufferLen) + 3 * RAW_SIZE
        decreases rawLen - rawPos
      {
        var step := DecodeNext();
        match step
        case Bad =>
          CannotGoOn();
          return false;
        case More =>
          if eof {
            CannotGoOn();
            return false;
          }
          MoreIsShort(encoding, RawUnread());
          return true;
        case Char(value, width) =>
          TakeChar(value, width);
      }
      ok := true;
    }

    // ----- what the scanner asks for -----

    lemma {:induction false} EncodedLength(cs: seq<nat>)
      requires AllAllowed(cs)
      ensures |cs| <= |EncodeAll(Utf8, cs)| <= 4 * |cs|
      decreases |cs|
    {
      hide Encode;
      if cs != [] { EncodedLength(cs[..|cs| - 1]); }
    }

    /** How many bytes the unread characters take. */
    lemma BufferLength()
      requires BufferOk()
      ensures bufferLen - bufferPos <= 4 * (|decoded| - seen) + nuls + 8
      ensures bufferLen - bufferPos >= unread && bufferLen - bufferPos >= zeros
    {
      EncodedLength(decoded[seen..]);
    }

    /** Puts a zero byte into the buffer, which is counted as a character or not. */
    method PutZero(counted: bool)
      requires BufferOk() && bufferPos == 0 && bufferLen < BUFFER_SIZE && eof && rawPos == rawLen
      requires counted || zeros < nuls + 8
      modifies `bufferLen, `unread, `zeros, `nuls, buffer
      ensures BufferOk() && bufferLen == old(bufferLen) + 1 && unread == old(unread) + if counted then 1 else 0
      ensures zeros == old(zeros) + 1 && nuls == old(nuls) + if counted then 1 else 0
    {
      hide EncodeAll;
      NoZeros();
      assert Zeros(zeros + 1) == Zeros(zeros) + [0];
      ghost var front := EncodeAll(Utf8, decoded[seen..]);
      PutByte(0);
      NoZeros();
      assert front + Zeros(zeros) + [0] == front + Zeros(zeros + 1);
      zeros := zeros + 1;
      if counted { unread, nuls := unread + 1, nuls + 1; }
    }

    /** Decodes until there are enough characters, or the input has ended. */
    method Fill(length: nat) returns (ok: bool)
      requires Valid() && !inputError && !encoding.Any? && bufferPos == 0 && length <= 8
      modifies `rawLen, `rawPos, `taken, `bufferLen, `unread, `decoded, `eof, `inputError, `zeros, `nuls, source, raw,
          buffer
      ensures !ok ==> inputError || Malformed()
      ensures ok ==> Valid() && !inputError && bufferPos == 0 && old(decoded) <= decoded
      ensures ok ==> unread >= length || (eof && rawPos == rawLen)
    {
      hide EncodeAll, Encode, Zeros, Bom, Malformed, Next;
      var first := true;
      while unread < length
        invariant Valid() && !inputError && bufferPos == 0 && old(decoded) <= decoded
        invariant first || |RawUnread()| <= 3
        decreases Left(), first
      {
        if !first || rawPos == rawLen {
          ok := UpdateRaw();
          if !ok { return; }
        }
        first := false;
        BufferLength();
        ok := DecodeRaw();
        if !ok { return; }
        if eof {
          PutZero(true);
          break;
        }
      }
      ok := true;
    }

    /** Makes `length` characters available, or all that is left of the input and then zeros. */
    method UpdateBuffer(length: nat) returns (ok: bool)
      requires Valid() && !inputError && length <= 8
      modifies this, source, raw, buffer
      ensures !ok ==> inputError || Malformed()
      ensures ok ==> Valid() && !inputError && seen == old(seen) && old(decoded) <= decoded
      ensures ok ==> bufferPos + length <= bufferLen
      ensures ok ==> unread >= length || (!encoding.Any? && taken == |input|)
    {
      hide EncodeAll, Encode, Zeros, Bom, Malformed, Next, DecodedOk, RawOk;
      BufferLength();
      if unread >= length { return true; }
      if encoding.Any? {
        ok := DetermineEncoding();
        if !ok { return; }
      }
      MoveBuffer();
      ok := Fill(length);
      if !ok { return; }
      BufferLength();
      if bufferLen < length { Pad(length); }
      if eof { AllTaken(); }
    }

    lemma AllTaken()
      requires RawOk() && eof
      ensures rawPos == rawLen ==> taken == |input|
    {}

    /** At the end of the input, zero bytes that are not counted make up what is missing. */
    method Pad(length: nat)
      requires Valid() && bufferPos == 0 && bufferLen < length <= 8 && eof && rawPos == rawLen
      modifies `bufferLen, `unread, `zeros, `nuls, buffer
      ensures Valid() && bufferLen == length && unread == old(unread)
    {
      hide EncodeAll, Zeros, DecodedOk, RawOk;
      while bufferLen < length
        invariant Valid() && bufferLen <= length && unread == old(unread)
        decreases length - bufferLen
      {
        BufferLength();
        PutZero(false);
      }
    }

    /** The scanner passes over a character; how wide it is, its first byte tells. */
    method Pass() returns (c: seq<Byte>)
      requires Valid() && seen < |decoded|
      modifies `bufferPos, `unread, `seen
      ensures Valid() && seen == old(seen) + 1 && c == Encode8(decoded[old(seen)])
    {
      hide EncodeAll, Encode8, Zeros, RawOk, DecodedOk, BufferOk, Allowed, AllAllowed, Width;
      ghost var e := FirstChar();
      BufferFacts();
      var w := Width(buffer[bufferPos]);
      c := buffer[bufferPos..bufferPos + w];
      bufferPos, unread, seen := bufferPos + w, unread - 1, seen + 1;
      FactsAreBuffer();
    }

    lemma BufferFacts()
      requires BufferOk()
      ensures BufferFrame()
    {}

    lemma FactsAreBuffer()
      requires BufferFrame() && buffer[bufferPos..bufferLen] == EncodeAll(Utf8, decoded[seen..]) + Zeros(zeros)
      ensures BufferOk()
    {}

    /** Where the buffer is cut by its first character. */
    lemma FirstChar() returns (e: seq<Byte>)
      requires BufferOk() && seen < |decoded|
      ensures e == Encode8(decoded[seen]) && 0 < |e| <= bufferLen - bufferPos
      ensures buffer[bufferPos..bufferPos + |e|] == e && Width(buffer[bufferPos]) == |e|
      ensures buffer[bufferPos + |e|..bufferLen] == EncodeAll(Utf8, decoded[seen + 1..]) + Zeros(zeros)
    {
      var cs := decoded[seen..];
      EncodeFirst(Utf8, cs);
      assert cs[1..] == decoded[seen + 1..];
      FirstWidth(cs[0]);
      hide EncodeAll, Encode8, Zeros, Width;
      e := Encode8(cs[0]);
      ghost var rest := EncodeAll(Utf8, cs[1..]) + Zeros(zeros);
      assert buffer[bufferPos..bufferLen] == e + rest;
      BufferCut(e, rest);
    }

    lemma BufferCut(e: seq<Byte>, rest: seq<Byte>)
      requires bufferPos <= bufferLen <= buffer.Length && buffer[bufferPos..bufferLen] == e + rest
      ensures bufferPos + |e| <= bufferLen
      ensures buffer[bufferPos..bufferPos + |e|] == e && buffer[bufferPos + |e|..bufferLen] == rest
      ensures e != [] ==> buffer[bufferPos] == e[0]
    {
      var all := buffer[bufferPos..bufferLen];
      assert all[..|e|] == e && all[|e|..] == rest;
      assert buffer[bufferPos..bufferPos + |e|] == all[..|e|] && buffer[bufferPos + |e|..bufferLen] == all[|e|..];
      assert e != [] ==> buffer[bufferPos] == all[0];
    }

    lemma FirstWidth(c: nat)
      requires Allowed(c)
      ensures Width(Encode8(c)[0]) == |Encode8(c)|
    {}

    // ----- what has been delivered -----

    /** However the input came in chunks, what has been decoded is the beginning of the characters
        that the whole input encodes, if it encodes any; and all of them at the end. */
    lemma DeliveredIsDecoding(enc: Encoding, cs: seq<nat>)
      requires Valid() && !encoding.Any? && !enc.Any? && AllAllowed(cs) && IsText(input, enc, cs)
      ensures encoding == enc && decoded <= cs && (taken == |input| ==> decoded == cs) && !Malformed()
    {
      hide RawOk, BufferOk, Bom, EncodeAll, WellFormed, IsText;
      BomOfText(input, enc, cs);
      AfterMark(cs);
    }

    lemma AfterMark(cs: seq<nat>)
      requires Valid() && !encoding.Any? && AllAllowed(cs)
      requires Bom(input).1 <= |input| && input[Bom(input).1..] == EncodeAll(encoding, cs)
      ensures decoded <= cs && (taken == |input| ==> decoded == cs) && !Malformed()
    {
      var b := Bom(input).1;
      hide RawOk, BufferOk, Bom;
      SplitSlice(input, b, taken, |input|);
      assert input[b..] == EncodeAll(encoding, decoded) + input[taken..];
      WellFormedRest(encoding, decoded, input[taken..]);
      var ds :| AllAllowed(ds) && EncodeAll(encoding, ds) == input[taken..];
      EncodeConcat(encoding, decoded, ds);
      DecodingIsUnique(encoding, cs, decoded + ds);
      if taken == |input| && ds != [] { EncodeFirst(encoding, ds); }
    }
  }
}
