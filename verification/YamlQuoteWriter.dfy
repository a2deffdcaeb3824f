/** How yaml.v2 writes a quoted scalar: the text as a function of the value, the settings and the
    place on the line, and the emitter that writes it character by character. */
module YamlQuoteWriter {

  import opened YamlChars

  datatype LineBreak = CR | LF | CRLF

  datatype Settings = Settings(lineBreak: LineBreak, indent: int, bestWidth: int, unicode: bool)

  /** Where the emitter is on a line, and what it says of what came before. */
  datatype Place = Place(column: nat, whitespace: bool, indention: bool)

  // ----- breaks and indentation -----

  function BreakText(style: LineBreak): (r: string)
    ensures r != "" && forall k :: 0 <= k < |r| ==> IsBreak(r[k])
  {
    match style
    case CR => "\r"
    case LF => "\n"
    case CRLF => "\r\n"
  }

  function Spaces(n: nat): (r: string)
    ensures |r| == n && forall k :: 0 <= k < n ==> r[k] == ' '
  {
    if n == 0 then "" else Spaces(n - 1) + " "
  }

  function Margin(e: Settings): nat {
    if e.indent < 0 then 0 else e.indent
  }

  predicate StartsLine(e: Settings, p: Place) {
    !p.indention || p.column > Margin(e) || (p.column == Margin(e) && !p.whitespace)
  }

  /** What it takes to get to the margin. */
  function IndentText(e: Settings, p: Place): string {
    if StartsLine(e, p) then BreakText(e.lineBreak) + Spaces(Margin(e)) else Spaces(Margin(e) - p.column)
  }

  function Indented(e: Settings): Place {
    Place(Margin(e), true, true)
  }

  /** The column that a text leads to. */
  function ColumnAfter(column: nat, text: string): nat {
    if text == "" then column
    else if IsBreak(text[|text| - 1]) then 0
    else ColumnAfter(column, text[..|text| - 1]) + 1
  }

  lemma {:induction false} ColumnAfterBoth(column: nat, a: string, b: string)
    ensures ColumnAfter(column, a + b) == ColumnAfter(ColumnAfter(column, a), b)
    decreases |b|
  {
    if b == "" {
      assert a + b == a;
    } else {
      assert (a + b)[..|a + b| - 1] == a + b[..|b| - 1];
      ColumnAfterBoth(column, a, b[..|b| - 1]);
    }
  }

  lemma {:induction false} ColumnAfterLine(column: nat, text: string)
    requires forall k :: 0 <= k < |text| ==> !IsBreak(text[k])
    ensures ColumnAfter(column, text) == column + |text|
    decreases |text|
  {
    if text != "" {
      ColumnAfterLine(column, text[..|text| - 1]);
    }
  }

  lemma {:induction false} IndentReachesMargin(e: Settings, p: Place)
    ensures ColumnAfter(p.column, IndentText(e, p)) == Margin(e)
  {
    if StartsLine(e, p) {
      ColumnAfterBoth(p.column, BreakText(e.lineBreak), Spaces(Margin(e)));
      ColumnAfterLine(ColumnAfter(p.column, BreakText(e.lineBreak)), Spaces(Margin(e)));
    } else {
      ColumnAfterLine(p.column, Spaces(Margin(e) - p.column));
    }
  }

  // ----- escapes -----

  /** The characters whose escape has a name. */
  function Name(c: char): (r: string)
    ensures |r| <= 1 && (r != "" ==> !IsBreak(r[0]))
  {
    match c as int
    case 0x00 => "0"
    case 0x07 => "a"
    case 0x08 => "b"
    case 0x09 => "t"
    case 0x0A => "n"
    case 0x0B => "v"
    case 0x0C => "f"
    case 0x0D => "r"
    case 0x1B => "e"
    case 0x22 => "\""
    case 0x5C => "\\"
    case 0x85 => "N"
    case 0xA0 => "_"
    case 0x2028 => "L"
    case 0x2029 => "P"
    case _ => ""
  }

  function Digit(d: nat): (c: char)
    requires d < 16
    ensures '0' <= c <= '9' || 'A' <= c <= 'F'
  {
    if d < 10 then (d + '0' as int) as char else (d + 'A' as int - 10) as char
  }

  /** The last `n` hexadecimal digits of a number. */
  function Hex(v: nat, n: nat): (r: string)
    ensures |r| == n && forall k :: 0 <= k < n ==> '0' <= r[k] <= '9' || 'A' <= r[k] <= 'F'
  {
    if n == 0 then "" else Hex(v / 16, n - 1) + [Digit(v % 16)]
  }

  /** A number shifted right by `k` hexadecimal digits. */
  function Shifted(v: nat, k: nat): nat {
    if k == 0 then v else Shifted(v, k - 1) / 16
  }

  function Letter(c: char): char {
    if c as int <= 0xFF then 'x' else if c as int <= 0xFFFF then 'u' else 'U'
  }

  function Length(c: char): nat {
    if c as int <= 0xFF then 2 else if c as int <= 0xFFFF then 4 else 8
  }

  /** The escape of a character, after the backslash. */
  function EscapeText(c: char): (r: string)
    ensures r != "" && forall k :: 0 <= k < |r| ==> !IsBreak(r[k])
  {
    if Name(c) != "" then Name(c) else [Letter(c)] + Hex(c as int, Length(c))
  }

  predicate Escaped(e: Settings, v: string, i: nat)
    requires i < |v|
  {
    || !IsPrintable(v[i]) || (!e.unicode && !IsAscii(v[i])) || StartsWithBom(v) || IsBreak(v[i])
    || v[i] == '\"' || v[i] == '\\'
  }

  // ----- double quotes -----

  /** A line is only broken at the first of some spaces within a value, past the best width. */
  predicate Folds(e: Settings, v: string, i: nat, column: nat, allowBreaks: bool, spaces: bool) {
    allowBreaks && !spaces && column > e.bestWidth && 0 < i < |v| - 1
  }

  predicate FoldsDouble(e: Settings, v: string, i: nat, p: Place, allowBreaks: bool, spaces: bool)
    requires i < |v|
  {
    !Escaped(e, v, i) && IsSpace(v[i]) && Folds(e, v, i, p.column, allowBreaks, spaces)
  }

  /** What is written for the character at index `i`. */
  function DoublePiece(e: Settings, v: string, i: nat, p: Place, allowBreaks: bool, spaces: bool): (w: string)
    requires i < |v|
  {
    if Escaped(e, v, i) then "\\" + EscapeText(v[i])
    else if FoldsDouble(e, v, i, p, allowBreaks, spaces) then
      IndentText(e, p) + if IsSpace(v[i + 1]) then "\\" else ""
    else [v[i]]
  }

  function DoublePlace(e: Settings, v: string, i: nat, p: Place, allowBreaks: bool, spaces: bool): Place
    requires i < |v|
  {
    if FoldsDouble(e, v, i, p, allowBreaks, spaces) then
      Indented(e).(column := Margin(e) + if IsSpace(v[i + 1]) then 1 else 0)
    else p.(column := p.column + |DoublePiece(e, v, i, p, allowBreaks, spaces)|)
  }

  predicate DoubleSpaces(e: Settings, v: string, i: nat)
    requires i < |v|
  {
    !Escaped(e, v, i) && IsSpace(v[i])
  }

  /** What is written from index `i` of a value on, the right quote included. */
  function Double(e: Settings, v: string, i: nat, p: Place, allowBreaks: bool, spaces: bool): string
    requires i <= |v|
    decreases |v| - i
  {
    if i == |v| then "\""
    else
      DoublePiece(e, v, i, p, allowBreaks, spaces)
      + Double(e, v, i + 1, DoublePlace(e, v, i, p, allowBreaks, spaces), allowBreaks, DoubleSpaces(e, v, i))
  }

  // ----- single quotes -----

  /** What was written since the last character that is neither a space nor a break. */
  datatype Since = Since(spaces: bool, breaks: bool)

  predicate FoldsSingle(e: Settings, v: string, i: nat, p: Place, allowBreaks: bool, since: Since)
    requires i < |v|
  {
    IsSpace(v[i]) && Folds(e, v, i, p.column, allowBreaks, since.spaces) && !IsSpace(v[i + 1])
  }

  /** A break of the value; a line feed that comes first takes another break before it. */
  function BreakPiece(e: Settings, c: char, breaks: bool): string {
    if c != '\n' then [c]
    else if breaks then BreakText(e.lineBreak)
    else BreakText(e.lineBreak) + BreakText(e.lineBreak)
  }

  function SinglePiece(e: Settings, v: string, i: nat, p: Place, allowBreaks: bool, since: Since): (w: string)
    requires i < |v|
  {
    if FoldsSingle(e, v, i, p, allowBreaks, since) then IndentText(e, p)
    else if IsSpace(v[i]) then " "
    else if IsBreak(v[i]) then BreakPiece(e, v[i], since.breaks)
    else (if since.breaks then IndentText(e, p) else "") + if v[i] == '\'' then "''" else [v[i]]
  }

  function SinglePlace(e: Settings, v: string, i: nat, p: Place, allowBreaks: bool, since: Since): Place
    requires i < |v|
  {
    if FoldsSingle(e, v, i, p, allowBreaks, since) then Indented(e)
    else if IsSpace(v[i]) then p.(column := p.column + 1)
    else if IsBreak(v[i]) then p.(column := 0, indention := true)
    else
      var q := if since.breaks then Indented(e) else p;
      q.(column := q.column + if v[i] == '\'' then 2 else 1, indention := false)
  }

  function SingleSince(v: string, i: nat, since: Since): Since
    requires i < |v|
  {
    if IsSpace(v[i]) then since.(spaces := true)
    else if IsBreak(v[i]) then since.(breaks := true)
    else Since(false, false)
  }

  function Single(e: Settings, v: string, i: nat, p: Place, allowBreaks: bool, since: Since): string
    requires i <= |v|
    decreases |v| - i
  {
    if i == |v| then "'"
    else
      SinglePiece(e, v, i, p, allowBreaks, since)
      + Single(e, v, i + 1, SinglePlace(e, v, i, p, allowBreaks, since), allowBreaks, SingleSince(v, i, since))
  }

  // ----- which values single quotes can hold -----

  predicate Special(unicode: bool, c: char) {
    !IsPrintable(c) || (!IsAscii(c) && !unicode)
  }

  ghost predicate SingleAllowed(unicode: bool, v: string) {
    && (forall k :: 0 <= k < |v| ==> !Special(unicode, v[k]))
    && (forall k :: 0 < k < |v| && IsSpace(v[k]) ==> !IsBreak(v[k - 1]))
    && (forall k :: 0 < k < |v| && IsBreak(v[k]) ==> !IsSpace(v[k - 1]))
  }

  ghost predicate SpecialBefore(unicode: bool, v: string, i: nat)
    requires i <= |v|
  {
    exists k :: 0 <= k < i && Special(unicode, v[k])
  }

  ghost predicate BreakBefore(v: string, i: nat)
    requires i <= |v|
  {
    exists k :: 0 <= k < i && IsBreak(v[k])
  }

  /** A space and a break next to each other, in the one order or the other. */
  ghost predicate MixedBefore(v: string, i: nat, space: bool)
    requires i <= |v|
  {
    exists k :: 0 < k < i && (if space then IsSpace(v[k]) && IsBreak(v[k - 1]) else IsBreak(v[k]) && IsSpace(v[k - 1]))
  }

  lemma AnalyzeStep(unicode: bool, v: string, i: nat)
    requires i < |v|
    ensures SpecialBefore(unicode, v, i + 1) <==> SpecialBefore(unicode, v, i) || Special(unicode, v[i])
    ensures BreakBefore(v, i + 1) <==> BreakBefore(v, i) || IsBreak(v[i])
    ensures MixedBefore(v, i + 1, true) <==> MixedBefore(v, i, true) || (0 < i && IsSpace(v[i]) && IsBreak(v[i - 1]))
    ensures MixedBefore(v, i + 1, false) <==> MixedBefore(v, i, false) || (0 < i && IsBreak(v[i]) && IsSpace(v[i - 1]))
  {
    hide Special;
  }

  /** Whether single quotes may be used, and whether the value has line breaks. */
  method AnalyzeScalar(v: string, unicode: bool) returns (multiline: bool, singleQuotedAllowed: bool)
    ensures multiline <==> exists k :: 0 <= k < |v| && IsBreak(v[k])
    ensures singleQuotedAllowed <==> SingleAllowed(unicode, v)
  {
    if v == "" {
      return false, true;
    }
    var specialCharacters, breakSpace, spaceBreak, previousSpace, previousBreak := false, false, false, false, false;
    multiline := false;
    var i := 0;
    while i < |v|
      invariant 0 <= i <= |v|
      invariant multiline <==> BreakBefore(v, i)
      invariant specialCharacters <==> SpecialBefore(unicode, v, i)
      invariant previousSpace <==> 0 < i && IsSpace(v[i - 1])
      invariant previousBreak <==> 0 < i && IsBreak(v[i - 1])
      invariant breakSpace <==> MixedBefore(v, i, true)
      invariant spaceBreak <==> MixedBefore(v, i, false)
    {
      hide SpecialBefore, BreakBefore, MixedBefore;
      AnalyzeStep(unicode, v, i);
      if !IsPrintable(v[i]) || (!IsAscii(v[i]) && !unicode) {
        specialCharacters := true;
      }
      if IsSpace(v[i]) {
        if previousBreak {
          breakSpace := true;
        }
        previousSpace, previousBreak := true, false;
      } else if IsBreak(v[i]) {
        multiline := true;
        if previousSpace {
          spaceBreak := true;
        }
        previousSpace, previousBreak := false, true;
      } else {
        previousSpace, previousBreak := false, false;
      }
      i := i + 1;
    }
    singleQuotedAllowed := !breakSpace && !spaceBreak && !specialCharacters;
  }

  // ----- the emitter -----

  class Emitter {
    const settings: Settings
    var out: string
    var column: nat
    var whitespace: bool
    var indention: bool

    constructor (settings: Settings, column: nat, whitespace: bool, indention: bool)
      ensures this.settings == settings && out == "" && this.column == column
      ensures this.whitespace == whitespace && this.indention == indention
    {
      this.settings := settings;
      this.out := "";
      this.column := column;
      this.whitespace := whitespace;
      this.indention := indention;
    }

    ghost function Here(): Place
      reads this`column, this`whitespace, this`indention
    {
      Place(column, whitespace, indention)
    }

    method Put(c: char)
      modifies this`out, this`column
      ensures out == old(out) + [c] && column == old(column) + 1
    {
      out := out + [c];
      column := column + 1;
    }

    method PutBreak()
      modifies this`out, this`column
      ensures out == old(out) + BreakText(settings.lineBreak) && column == 0
    {
      match settings.lineBreak
      case CR => out := out + "\r"; column := 0;
      case LF => out := out + "\n"; column := 0;
      case CRLF => out := out + "\r\n"; column := 0;
    }

    /** Copies a line break of a value. */
    method WriteBreak(c: char)
      modifies this`out, this`column
      ensures out == old(out) + (if c == '\n' then BreakText(settings.lineBreak) else [c]) && column == 0
    {
      if c == '\n' {
        PutBreak();
      } else {
        Put(c);
        column := 0;
      }
    }

    method WriteIndent()
      modifies this`out, this`column, this`whitespace, this`indention
      ensures out == old(out) + IndentText(settings, old(Here()))
      ensures Here() == Indented(settings)
    {
      var indent := settings.indent;
      if indent < 0 {
        indent := 0;
      }
      if !indention || column > indent || (column == indent && !whitespace) {
        PutBreak();
      }
      ghost var start, from := out, column;
      while column < indent
        invariant from <= column <= indent
        invariant out == start + Spaces(column - from)
      {
        Put(' ');
      }
      whitespace := true;
      indention := true;
    }

    method WriteIndicator(indicator: char, needWhitespace: bool, isWhitespace: bool, isIndention: bool)
      modifies this`out, this`column, this`whitespace, this`indention
      ensures var gap := if needWhitespace && !old(whitespace) then " " else "";
        out == old(out) + gap + [indicator] && column == old(column) + |gap| + 1
      ensures whitespace == isWhitespace && indention == (old(indention) && isIndention)
    {
      if needWhitespace && !whitespace {
        Put(' ');
      }
      Put(indicator);
      whitespace := isWhitespace;
      indention := indention && isIndention;
    }

    /** Writes the digits of a coded character, the first one first. */
    method WriteCode(v: nat, length: nat)
      modifies this`out, this`column
      ensures out == old(out) + Hex(v, length) && column == old(column) + length
    {
      var k := length;
      while k > 0
        invariant 0 <= k <= length
        invariant out == old(out) + Hex(Shifted(v, k), length - k) && column == old(column) + length - k
      {
        k := k - 1;
        var digit := Shifted(v, k) % 16;
        Put(if digit < 10 then (digit + '0' as int) as char else (digit + 'A' as int - 10) as char);
      }
    }

    /** Writes a backslash and the escape of a character. */
    method WriteEscape(c: char)
      modifies this`out, this`column
      ensures out == old(out) + ("\\" + EscapeText(c)) && column == old(column) + 1 + |EscapeText(c)|
    {
      Put('\\');
      if Name(c) != "" {
        Put(Name(c)[0]);
      } else if c as int <= 0xFF {
        Put('x');
        WriteCode(c as int, 2);
      } else if c as int <= 0xFFFF {
        Put('u');
        WriteCode(c as int, 4);
      } else {
        Put('U');
        WriteCode(c as int, 8);
      }
    }

    method DoubleStep(value: string, i: nat, allowBreaks: bool, spaces: bool) returns (next: bool)
      requires i < |value|
      modifies this`out, this`column, this`whitespace, this`indention
      ensures out == old(out) + DoublePiece(settings, value, i, old(Here()), allowBreaks, spaces)
      ensures Here() == DoublePlace(settings, value, i, old(Here()), allowBreaks, spaces)
      ensures next == DoubleSpaces(settings, value, i)
    {
      if !IsPrintable(value[i]) || (!settings.unicode && !IsAscii(value[i])) || StartsWithBom(value)
         || IsBreak(value[i]) || value[i] == '\"' || value[i] == '\\' {
        WriteEscape(value[i]);
        next := false;
      } else if IsSpace(value[i]) {
        if allowBreaks && !spaces && column > settings.bestWidth && i > 0 && i < |value| - 1 {
          WriteIndent();
          if IsSpace(value[i + 1]) {
            Put('\\');
          }
        } else {
          Put(value[i]);
        }
        next := true;
      } else {
        Put(value[i]);
        next := false;
      }
    }

    /** Writes the characters of a value within double quotes. */
    method WriteDoubleChars(value: string, allowBreaks: bool) returns (ghost done: string)
      modifies this`out, this`column, this`whitespace, this`indention
      ensures out == old(out) + done && column == ColumnAfter(old(column), done)
      ensures Double(settings, value, 0, old(Here()), allowBreaks, false) == done + "\""
    {
      hide DoublePiece, DoublePlace, DoubleSpaces, FoldsDouble, Escaped, EscapeText, IndentText, ColumnAfter;
      ghost var first := Here();
      done := "";
      var i, spaces := 0, false;
      ColumnAfterLine(first.column, "");
      while i < |value|
        invariant 0 <= i <= |value|
        invariant out == old(out) + done && column == ColumnAfter(first.column, done)
        invariant Double(settings, value, 0, first, allowBreaks, false)
               == done + Double(settings, value, i, Here(), allowBreaks, spaces)
      {
        ghost var w := DoublePiece(settings, value, i, Here(), allowBreaks, spaces);
        DoubleColumn(settings, value, i, Here(), allowBreaks, spaces);
        ColumnAfterBoth(first.column, done, w);
        spaces := DoubleStep(value, i, allowBreaks, spaces);
        i, done := i + 1, done + w;
      }
    }

    /** Writes a value within double quotes. */
    method WriteDoubleQuoted(value: string, allowBreaks: bool)
      modifies this`out, this`column, this`whitespace, this`indention
      ensures var gap := if old(whitespace) then "" else " ";
        var p := Place(old(column) + |gap| + 1, false, false);
        var text := Double(settings, value, 0, p, allowBreaks, false);
        out == old(out) + gap + "\"" + text && column == ColumnAfter(p.column, text)
      ensures !whitespace && !indention
    {
      hide Double, ColumnAfter;
      WriteIndicator('\"', true, false, false);
      ghost var first := column;
      ghost var done := WriteDoubleChars(value, allowBreaks);
      WriteIndicator('\"', false, false, false);
      ColumnAfterBoth(first, done, "\"");
      ColumnAfterLine(ColumnAfter(first, done), "\"");
      whitespace := false;
      indention := false;
    }

    method SingleStep(value: string, i: nat, allowBreaks: bool, since: Since) returns (next: Since)
      requires i < |value|
      modifies this`out, this`column, this`whitespace, this`indention
      ensures out == old(out) + SinglePiece(settings, value, i, old(Here()), allowBreaks, since)
      ensures Here() == SinglePlace(settings, value, i, old(Here()), allowBreaks, since)
      ensures next == SingleSince(value, i, since)
    {
      next := since;
      if IsSpace(value[i]) {
        if allowBreaks && !since.spaces && column > settings.bestWidth && i > 0 && i < |value| - 1
           && !IsSpace(value[i + 1]) {
          WriteIndent();
        } else {
          Put(value[i]);
        }
        next := next.(spaces := true);
      } else if IsBreak(value[i]) {
        if !since.breaks && value[i] == '\n' {
          PutBreak();
        }
        WriteBreak(value[i]);
        indention := true;
        next := next.(breaks := true);
      } else {
        if since.breaks {
          WriteIndent();
        }
        if value[i] == '\'' {
          Put('\'');
        }
        Put(value[i]);
        indention := false;
        next := Since(false, false);
      }
    }

    /** Writes the characters of a value within single quotes. */
    method WriteSingleChars(value: string, allowBreaks: bool) returns (ghost done: string)
      modifies this`out, this`column, this`whitespace, this`indention
      ensures out == old(out) + done && column == ColumnAfter(old(column), done)
      ensures Single(settings, value, 0, old(Here()), allowBreaks, Since(false, false)) == done + "'"
    {
      hide SinglePiece, SinglePlace, SingleSince, FoldsSingle, IndentText, ColumnAfter;
      ghost var first := Here();
      done := "";
      var i, since := 0, Since(false, false);
      ColumnAfterLine(first.column, "");
      while i < |value|
        invariant 0 <= i <= |value|
        invariant out == old(out) + done && column == ColumnAfter(first.column, done)
        invariant Single(settings, value, 0, first, allowBreaks, Since(false, false))
               == done + Single(settings, value, i, Here(), allowBreaks, since)
      {
        ghost var w := SinglePiece(settings, value, i, Here(), allowBreaks, since);
        SingleColumn(settings, value, i, Here(), allowBreaks, since);
        ColumnAfterBoth(first.column, done, w);
        since := SingleStep(value, i, allowBreaks, since);
        i, done := i + 1, done + w;
      }
    }

    /** Writes a value within single quotes. */
    method WriteSingleQuoted(value: string, allowBreaks: bool)
      modifies this`out, this`column, this`whitespace, this`indention
      ensures var gap := if old(whitespace) then "" else " ";
        var p := Place(old(column) + |gap| + 1, false, false);
        var text := Single(settings, value, 0, p, allowBreaks, Since(false, false));
        out == old(out) + gap + "'" + text && column == ColumnAfter(p.column, text)
      ensures !whitespace && !indention
    {
      hide Single, ColumnAfter;
      WriteIndicator('\'', true, false, false);
      ghost var first := column;
      ghost var done := WriteSingleChars(value, allowBreaks);
      WriteIndicator('\'', false, false, false);
      ColumnAfterBoth(first, done, "'");
      ColumnAfterLine(ColumnAfter(first, done), "'");
      whitespace := false;
      indention := false;
    }
  }

  // ----- the column the emitter keeps is the column of the text -----

  lemma DoubleColumn(e: Settings, v: string, i: nat, p: Place, allowBreaks: bool, spaces: bool)
    requires i < |v|
    ensures DoublePlace(e, v, i, p, allowBreaks, spaces).column
         == ColumnAfter(p.column, DoublePiece(e, v, i, p, allowBreaks, spaces))
  {
    var w := DoublePiece(e, v, i, p, allowBreaks, spaces);
    if FoldsDouble(e, v, i, p, allowBreaks, spaces) {
      var guard := if IsSpace(v[i + 1]) then "\\" else "";
      IndentReachesMargin(e, p);
      ColumnAfterBoth(p.column, IndentText(e, p), guard);
      ColumnAfterLine(Margin(e), guard);
    } else {
      ColumnAfterLine(p.column, w);
    }
  }

  lemma SingleColumn(e: Settings, v: string, i: nat, p: Place, allowBreaks: bool, since: Since)
    requires i < |v|
    ensures SinglePlace(e, v, i, p, allowBreaks, since).column
         == ColumnAfter(p.column, SinglePiece(e, v, i, p, allowBreaks, since))
  {
    IndentReachesMargin(e, p);
    if !IsSpace(v[i]) && !IsBreak(v[i]) {
      var q := if v[i] == '\'' then "''" else [v[i]];
      var margin := if since.breaks then IndentText(e, p) else "";
      ColumnAfterBoth(p.column, margin, q);
      ColumnAfterLine(ColumnAfter(p.column, margin), q);
    } else if !FoldsSingle(e, v, i, p, allowBreaks, since) && IsSpace(v[i]) {
      ColumnAfterLine(p.column, " ");
    }
  }
}
