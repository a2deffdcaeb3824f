/** How yaml.v2 reads a quoted scalar: a function of the text that follows the left quote, and the
    scanner that computes it character by character. */
module YamlQuoteScanner {

  import opened YamlChars

  datatype Problem = DocumentIndicator | EndOfStream | UnknownEscape | NotHexadecimal | InvalidCode

  /** What is read, and the text after the right quote; or why the scan fails. */
  datatype Scan = Got(value: string, rest: string) | Failed(problem: Problem)

  /** A character after a backslash, and how many characters stood for it. */
  datatype Escape = Char(value: char, width: nat) | Bad(problem: Problem)

  datatype Result = Success(value: string) | Failure(problem: Problem)

  /** The text is followed by NULs. */
  function At(t: string, k: nat): char {
    if k < |t| then t[k] else '\0'
  }

  predicate IsQuote(single: bool, c: char) {
    c == if single then '\'' else '\"'
  }

  /** A document indicator, which must not start a line of a scalar. */
  predicate DocMark(t: string) {
    && (At(t, 0) == At(t, 1) == At(t, 2) == '-' || At(t, 0) == At(t, 1) == At(t, 2) == '.')
    && IsBlankZ(At(t, 3))
  }

  // ----- line breaks -----

  function LineWidth(t: string): (n: nat)
    requires IsBreak(At(t, 0))
    ensures 1 <= n <= |t|
  {
    if At(t, 0) == '\r' && At(t, 1) == '\n' then 2 else 1
  }

  /** Line and paragraph separators are kept; every other break is a line feed. */
  function LineText(t: string): string
    requires IsBreak(At(t, 0))
  {
    if t[0] == '\U{2028}' || t[0] == '\U{2029}' then [t[0]] else "\n"
  }

  // ----- escapes -----

  predicate IsHex(c: char) {
    '0' <= c <= '9' || 'A' <= c <= 'F' || 'a' <= c <= 'f'
  }

  function AsHex(c: char): (d: nat)
    requires IsHex(c)
    ensures d < 16
  {
    if 'A' <= c <= 'F' then c as int - 'A' as int + 10
    else if 'a' <= c <= 'f' then c as int - 'a' as int + 10
    else c as int - '0' as int
  }

  predicate HexRun(t: string, n: nat) {
    forall k :: 0 <= k < n ==> IsHex(At(t, k))
  }

  function HexValue(t: string, n: nat): nat
    requires HexRun(t, n)
  {
    if n == 0 then 0 else 16 * HexValue(t, n - 1) + AsHex(At(t, n - 1))
  }

  function CodeLength(c: char): nat {
    if c == 'x' then 2 else if c == 'u' then 4 else if c == 'U' then 8 else 0
  }

  /** The escapes that are one character long, by that character. */
  function Named(c: char): (r: seq<char>)
    ensures |r| <= 1
  {
    match c
    case '0' => ['\0']
    case 'a' => ['\U{07}']
    case 'b' => ['\U{08}']
    case 't' => ['\t']
    case '\t' => ['\t']
    case 'n' => ['\n']
    case 'v' => ['\U{0B}']
    case 'f' => ['\U{0C}']
    case 'r' => ['\r']
    case 'e' => ['\U{1B}']
    case ' ' => [' ']
    case '\"' => ['\"']
    case '\'' => ['\'']
    case '\\' => ['\\']
    case 'N' => ['\U{85}']
    case '_' => ['\U{A0}']
    case 'L' => ['\U{2028}']
    case 'P' => ['\U{2029}']
    case _ => []
  }

  function Coded(t: string, n: nat): Escape {
    if !HexRun(t, n) then Bad(NotHexadecimal)
    else
      var v := HexValue(t, n);
      if 0xD800 <= v <= 0xDFFF || v > 0x10FFFF then Bad(InvalidCode) else Char(v as char, 1 + n)
  }

  /** The escape that the text after a backslash starts with. */
  function Unescape(t: string): (e: Escape)
    ensures e.Char? ==> 1 <= e.width <= |t|
  {
    var named := Named(At(t, 0));
    if named != [] then Char(named[0], 1)
    else
      var n := CodeLength(At(t, 0));
      if n == 0 then Bad(UnknownEscape)
      else
        assert HexRun(t[1..], n) ==> IsHex(At(t[1..], n - 1));
        Coded(t[1..], n)
  }

  // ----- the scan -----

  /** What a stretch of blanks and line breaks adds to a scalar: itself; or, if it holds breaks, the
      breaks after the first one, a space if there is none and the first is an ordinary one. */
  function Join(s: string, leading: bool, blanks: string, first: string, more: string): string {
    if !leading then s + blanks
    else if first != "" && first[0] == '\n' then (if more == "" then s + " " else s + more)
    else s + first + more
  }

  function Outer(single: bool, t: string, column: nat, s: string): Scan
    decreases |t|, 2, 0
  {
    if column == 0 && DocMark(t) then Failed(DocumentIndicator)
    else if IsZ(At(t, 0)) then Failed(EndOfStream)
    else Chars(single, t, column, s)
  }

  function Chars(single: bool, t: string, column: nat, s: string): Scan
    decreases |t|, 1, 0
  {
    var c := At(t, 0);
    if IsZ(c) then Failed(EndOfStream)
    else if IsBlankZ(c) then Blanks(single, t, column, s, false, "", "", "")
    else if single && c == '\'' && At(t, 1) == '\'' then Chars(single, t[2..], column + 2, s + "'")
    else if IsQuote(single, c) then Got(s, t[1..])
    else if !single && c == '\\' && IsBreak(At(t[1..], 0)) then
      After(single, t[1..][LineWidth(t[1..])..], 0, s, true)
    else if !single && c == '\\' then
      match Unescape(t[1..])
      case Bad(problem) => Failed(problem)
      case Char(v, w) => Chars(single, t[1..][w..], column + 1 + w, s + [v])
    else Chars(single, t[1..], column + 1, s + [c])
  }

  function After(single: bool, t: string, column: nat, s: string, leading: bool): Scan
    decreases |t|, if IsBlank(At(t, 0)) || IsBreak(At(t, 0)) then 0 else 4, 1
  {
    if IsQuote(single, At(t, 0)) then Got(s, t[1..]) else Blanks(single, t, column, s, leading, "", "", "")
  }

  function Blanks(single: bool, t: string, column: nat, s: string, leading: bool,
                  blanks: string, first: string, more: string): Scan
    decreases |t|, if IsBlank(At(t, 0)) || IsBreak(At(t, 0)) then 0 else 4, 0
  {
    var c := At(t, 0);
    if IsBlank(c) then
      Blanks(single, t[1..], column + 1, s, leading, if leading then blanks else blanks + [c], first, more)
    else if IsBreak(c) && !leading then
      Blanks(single, t[LineWidth(t)..], 0, s, true, "", first + LineText(t), more)
    else if IsBreak(c) then
      Blanks(single, t[LineWidth(t)..], 0, s, true, blanks, first, more + LineText(t))
    else Outer(single, t, column, Join(s, leading, blanks, first, more))
  }

  /** The text of a scalar from after its left quote on. */
  function ScanQuoted(single: bool, t: string, column: nat): Scan {
    Outer(single, t, column, "")
  }

  lemma CharsStop(single: bool, t: string, column: nat, s: string)
    requires IsBlankZ(At(t, 0)) || (IsQuote(single, At(t, 0)) && !(single && At(t, 1) == '\''))
    ensures Chars(single, t, column, s) == After(single, t, column, s, false)
  {
    if IsZ(At(t, 0)) {
      calc {
        After(single, t, column, s, false);
        Blanks(single, t, column, s, false, "", "", "");
        Outer(single, t, column, Join(s, false, "", "", ""));
        Failed(EndOfStream);
      }
    }
  }

  // ----- the scanner -----

  class Scanner {
    const text: string
    var pos: nat
    var column: nat

    constructor (text: string, pos: nat, column: nat)
      ensures this.text == text && this.pos == pos && this.column == column
    {
      this.text := text;
      this.pos := pos;
      this.column := column;
    }

    ghost function Rest(): string
      reads this`pos
    {
      if pos <= |text| then text[pos..] else ""
    }

    /** The character `k` places on. */
    function Peek(k: nat): (c: char)
      reads this`pos
      ensures c == At(Rest(), k)
    {
      if pos + k < |text| then text[pos + k] else '\0'
    }

    method Skip()
      requires pos < |text|
      modifies this
      ensures Rest() == old(Rest())[1..] && pos == old(pos) + 1
      ensures column == old(column) + 1
    {
      column := column + 1;
      pos := pos + 1;
    }

    method Read(s: string) returns (r: string)
      requires pos < |text|
      modifies this
      ensures Rest() == old(Rest())[1..] && pos == old(pos) + 1
      ensures column == old(column) + 1
      ensures r == s + [old(Rest())[0]]
    {
      r := s + [text[pos]];
      column := column + 1;
      pos := pos + 1;
    }

    /** Reads a line break. */
    method ReadLine(s: string) returns (r: string)
      requires IsBreak(At(Rest(), 0))
      modifies this
      ensures old(pos) < pos <= |text|
      ensures Rest() == old(Rest())[LineWidth(old(Rest()))..]
      ensures column == 0
      ensures r == s + LineText(old(Rest()))
    {
      if Peek(0) == '\r' && Peek(1) == '\n' {
        r := s + "\n";
        pos := pos + 2;
      } else if Peek(0) == '\r' || Peek(0) == '\n' {
        r := s + "\n";
        pos := pos + 1;
      } else if Peek(0) == '\U{85}' {
        r := s + "\n";
        pos := pos + 1;
      } else {
        r := s + [text[pos]];
        pos := pos + 1;
      }
      column := 0;
    }

    /** Skips a line break. */
    method SkipLine()
      requires IsBreak(At(Rest(), 0))
      modifies this
      ensures old(pos) < pos <= |text|
      ensures Rest() == old(Rest())[LineWidth(old(Rest()))..]
      ensures column == 0
    {
      if Peek(0) == '\r' && Peek(1) == '\n' {
        pos := pos + 2;
      } else {
        pos := pos + 1;
      }
      column := 0;
    }

    /** Reads the digits of a coded character, and skips them if they are one. */
    method ScanCode(length: nat) returns (e: Escape)
      requires 0 < length
      modifies this
      ensures e == Coded(old(Rest()), length)
      ensures old(pos) <= pos && (old(pos) <= |text| ==> pos <= |text|)
      ensures e.Char? ==> pos == old(pos) + length <= |text| && Rest() == old(Rest())[length..]
      ensures e.Char? ==> column == old(column) + length
    {
      var value := 0;
      var k := 0;
      while k < length
        invariant 0 <= k <= length
        invariant HexRun(Rest(), k) && value == HexValue(Rest(), k)
        invariant pos == old(pos) && column == old(column)
      {
        if !IsHex(Peek(k)) {
          return Bad(NotHexadecimal);
        }
        value := 16 * value + AsHex(Peek(k));
        k := k + 1;
      }
      if 0xD800 <= value <= 0xDFFF || value > 0x10FFFF {
        return Bad(InvalidCode);
      }
      e := Char(value as char, 1 + length);
      assert IsHex(At(Rest(), length - 1));
      k := 0;
      while k < length
        invariant 0 <= k <= length
        invariant pos == old(pos) + k && column == old(column) + k
        invariant old(pos) + length <= |text|
      {
        Skip();
        k := k + 1;
      }
    }

    /** Reads an escape: the backslash, the character after it and any code. */
    method ScanEscape() returns (e: Escape)
      requires At(Rest(), 0) == '\\'
      modifies this
      ensures old(pos) <= pos <= |text|
      ensures e == Unescape(old(Rest())[1..])
      ensures e.Char? ==> pos == old(pos) + 1 + e.width <= |text| && Rest() == old(Rest())[1..][e.width..]
      ensures e.Char? ==> column == old(column) + 1 + e.width
    {
      var c := Peek(1);
      assert c == At(Rest()[1..], 0);
      var named := Named(c);
      var length := CodeLength(c);
      if named == [] && length == 0 {
        return Bad(UnknownEscape);
      }
      assert pos + 1 < |text|;
      Skip();
      Skip();
      assert Rest() == old(Rest())[1..][1..];
      if named != [] {
        return Char(named[0], 1);
      }
      e := ScanCode(length);
    }

    /** Reads characters until a blank, a break, the right quote, or past an escaped line break. */
    method ScanChars(single: bool, start: string) returns (s: string, leading: bool, problem: seq<Problem>)
      requires pos <= |text|
      modifies this
      ensures old(pos) <= pos <= |text| && |problem| <= 1
      ensures problem == [] ==>
        After(single, Rest(), column, s, leading) == Chars(single, old(Rest()), old(column), start)
      ensures problem == [] ==> leading || IsQuote(single, At(Rest(), 0)) || IsBlankZ(At(Rest(), 0))
      ensures problem == [] && leading ==> pos > old(pos)
      ensures problem != [] ==> Failed(problem[0]) == Chars(single, old(Rest()), old(column), start)
    {
      s, leading, problem := start, false, [];
      while !IsBlankZ(Peek(0))
        invariant old(pos) <= pos <= |text| && !leading && problem == []
        invariant Chars(single, Rest(), column, s) == Chars(single, old(Rest()), old(column), start)
        decreases |text| - pos
      {
        if single && Peek(0) == '\'' && Peek(1) == '\'' {
          s := s + "'";
          Skip();
          Skip();
        } else if single && Peek(0) == '\'' {
          break;
        } else if !single && Peek(0) == '\"' {
          break;
        } else if !single && Peek(0) == '\\' && IsBreak(Peek(1)) {
          Skip();
          SkipLine();
          leading := true;
          break;
        } else if !single && Peek(0) == '\\' {
          var e := ScanEscape();
          match e {
            case Bad(p) => return s, false, [p];
            case Char(v, w) => s := s + [v];
          }
        } else {
          s := Read(s);
        }
      }
      if !leading {
        CharsStop(single, Rest(), column, s);
      }
    }

    /** Reads blanks and line breaks, and returns the scalar with what they add to it. */
    method ScanBlanks(single: bool, s: string, already: bool) returns (r: string)
      requires pos <= |text|
      modifies this
      ensures old(pos) <= pos <= |text|
      ensures IsBlank(At(old(Rest()), 0)) || IsBreak(At(old(Rest()), 0)) ==> pos > old(pos)
      ensures Outer(single, Rest(), column, r)
           == Blanks(single, old(Rest()), old(column), s, already, "", "", "")
    {
      var leading, blanks, first, more := already, "", "", "";
      while IsBlank(Peek(0)) || IsBreak(Peek(0))
        invariant old(pos) <= pos <= |text|
        invariant pos == old(pos) ==> Rest() == old(Rest())
        invariant Blanks(single, Rest(), column, s, leading, blanks, first, more)
               == Blanks(single, old(Rest()), old(column), s, already, "", "", "")
        decreases |text| - pos
      {
        if IsBlank(Peek(0)) {
          if !leading {
            blanks := Read(blanks);
          } else {
            Skip();
          }
        } else if !leading {
          blanks := "";
          first := ReadLine(first);
          leading := true;
        } else {
          more := ReadLine(more);
        }
      }
      r := Join(s, leading, blanks, first, more);
    }

    /** Reads a quoted scalar from its left quote on. */
    method ScanFlowScalar(single: bool) returns (r: Result)
      requires pos < |text|
      modifies this
      ensures match ScanQuoted(single, old(Rest())[1..], old(column) + 1)
              case Got(value, rest) => r == Success(value) && pos <= |text| && Rest() == rest
              case Failed(problem) => r == Failure(problem)
    {
      Skip();
      var s := "";
      ghost var goal := Outer(single, Rest(), column, "");
      while true
        invariant pos <= |text|
        invariant Outer(single, Rest(), column, s) == goal
        decreases |text| - pos
      {
        if column == 0 && ((Peek(0) == '-' && Peek(1) == '-' && Peek(2) == '-') ||
                           (Peek(0) == '.' && Peek(1) == '.' && Peek(2) == '.')) && IsBlankZ(Peek(3)) {
          return Failure(DocumentIndicator);
        }
        if IsZ(Peek(0)) {
          return Failure(EndOfStream);
        }
        ghost var before := pos;
        var leading, problem;
        s, leading, problem := ScanChars(single, s);
        if problem != [] {
          return Failure(problem[0]);
        }
        if IsQuote(single, Peek(0)) {
          break;
        }
        s := ScanBlanks(single, s, leading);
        assert pos > before;
      }
      Skip();
      r := Success(s);
    }
  }
}
