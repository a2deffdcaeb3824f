/** What a quoted scalar means, piece by piece, for texts that the emitter need not have written:
    words, blanks, folded and escaped line breaks, and escapes. The scan of a text made of such
    pieces gives the value that the pieces have. */
module YamlFolding {

  import opened YamlChars
  import opened YamlQuoteScanner

  // ----- pieces -----

  datatype LineEnd = Cr | Lf | CrLf | Nel | Ls | Ps

  /** An empty line between two others: blanks and its end. */
  datatype Line = Line(blanks: string, end: LineEnd)

  /** Characters that stand for themselves, blanks within a line, a line break with the blanks and
      empty lines around it, one after a backslash, a named or coded character after a backslash,
      or a doubled single quote. */
  datatype Piece =
    | Words(text: string)
    | Gap(blanks: string)
    | Fold(before: string, end: LineEnd, lines: seq<Line>, after: string)
    | Joined(end: LineEnd, lines: seq<Line>, after: string)
    | NameOf(name: char, c: char)
    | CodeOf(length: char, digits: string, values: seq<nat>, c: char)
    | QuotePair

  /** YAML 1.2, section 5.4; the last two are separators of YAML 1.1. */
  function EndText(b: LineEnd): string {
    match b
    case Cr => "\r"
    case Lf => "\n"
    case CrLf => "\r\n"
    case Nel => "\U{85}"
    case Ls => "\U{2028}"
    case Ps => "\U{2029}"
  }

  /** The characters by their names after a backslash (YAML 1.2, section 5.7; a single quote is the
      library's own). */
  const NAMES: map<char, int> := map[
    '0' := 0x00, 'a' := 0x07, 'b' := 0x08, 't' := 0x09, '\t' := 0x09, 'n' := 0x0A, 'v' := 0x0B, 'f' := 0x0C,
    'r' := 0x0D, 'e' := 0x1B, ' ' := 0x20, '\"' := 0x22, '\'' := 0x27, '\\' := 0x5C, 'N' := 0x85, '_' := 0xA0,
    'L' := 0x2028, 'P' := 0x2029]

  /** How many digits follow. */
  const LENGTHS: map<char, nat> := map['x' := 2, 'u' := 4, 'U' := 8]

  predicate IsDigit(c: char, d: nat) {
    d < 16 && (c == "0123456789abcdef"[d] || c == "0123456789ABCDEF"[d])
  }

  function Number(values: seq<nat>): nat {
    if values == [] then 0 else 16 * Number(values[..|values| - 1]) + values[|values| - 1]
  }

  function LinesText(lines: seq<Line>): string {
    if lines == [] then "" else lines[0].blanks + EndText(lines[0].end) + LinesText(lines[1..])
  }

  function Text(p: Piece): string {
    match p
    case Words(text) => text
    case Gap(blanks) => blanks
    case Fold(before, end, lines, after) => before + EndText(end) + LinesText(lines) + after
    case Joined(end, lines, after) => "\\" + EndText(end) + LinesText(lines) + after
    case NameOf(name, _) => ['\\', name]
    case CodeOf(length, digits, _, _) => ['\\', length] + digits
    case QuotePair => "''"
  }

  function AllText(ps: seq<Piece>): string {
    if ps == [] then "" else Text(ps[0]) + AllText(ps[1..])
  }

  function Quote(single: bool): string {
    if single then "'" else "\""
  }

  // ----- what they mean -----

  /** A break that is not folded away: a line feed, or the separator itself. */
  function Kept(b: LineEnd): string {
    if b.Ls? || b.Ps? then EndText(b) else "\n"
  }

  function AllKept(lines: seq<Line>): string {
    if lines == [] then "" else Kept(lines[0].end) + AllKept(lines[1..])
  }

  /** Line folding (YAML 1.2, section 6.5): an ordinary break between two lines is a space, and with
      empty lines between them there is a line feed for each of these. An escaped break (section
      7.3.1) is nothing. */
  function Value(p: Piece): string {
    match p
    case Words(text) => text
    case Gap(blanks) => blanks
    case Fold(_, end, lines, _) =>
      if end.Ls? || end.Ps? then Kept(end) + AllKept(lines) else if lines == [] then " " else AllKept(lines)
    case Joined(_, lines, _) => AllKept(lines)
    case NameOf(_, c) => [c]
    case CodeOf(_, _, _, c) => [c]
    case QuotePair => "'"
  }

  function AllValue(ps: seq<Piece>): string {
    if ps == [] then "" else Value(ps[0]) + AllValue(ps[1..])
  }

  // ----- which pieces there are -----

  predicate Blank(s: string) {
    forall k :: 0 <= k < |s| ==> IsBlank(s[k])
  }

  /** A character that stands for itself. */
  predicate Itself(single: bool, c: char) {
    !IsBlankZ(c) && !IsQuote(single, c) && (single || c != '\\')
  }

  /** A carriage return and a line feed are one break if nothing is between them. */
  predicate GoodLines(end: LineEnd, lines: seq<Line>)
    decreases |lines|
  {
    lines != [] ==>
      && Blank(lines[0].blanks) && (end.Cr? && lines[0].blanks == "" ==> !lines[0].end.Lf?)
      && GoodLines(lines[0].end, lines[1..])
  }

  predicate GoodPiece(single: bool, p: Piece) {
    match p
    case Words(text) => text != "" && forall k :: 0 <= k < |text| ==> Itself(single, text[k])
    case Gap(blanks) => blanks != "" && Blank(blanks)
    case Fold(before, end, lines, after) => Blank(before) && GoodLines(end, lines) && Blank(after)
    case Joined(end, lines, after) => !single && GoodLines(end, lines) && Blank(after)
    case NameOf(name, c) => !single && name in NAMES && NAMES[name] == c as int
    case CodeOf(length, digits, values, c) =>
      && !single && length in LENGTHS && |digits| == |values| == LENGTHS[length]
      && (forall k :: 0 <= k < |digits| ==> IsDigit(digits[k], values[k])) && Number(values) == c as int
    case QuotePair => single
  }

  /** Blanks next to each other are one piece, and a line must not start like a document. */
  predicate GoodPieces(single: bool, ps: seq<Piece>, rest: string)
    decreases |ps|
  {
    ps != [] ==>
      && GoodPiece(single, ps[0]) && GoodPieces(single, ps[1..], rest)
      && (|ps| > 1 && (ps[0].Gap? || ps[0].Fold? || ps[0].Joined?) ==> !ps[1].Gap? && !ps[1].Fold?)
      && ((ps[0].Fold? || ps[0].Joined?) && ps[0].after == "" ==> !DocMark(AllText(ps[1..]) + Quote(single) + rest))
  }

  // ----- how they are read -----

  lemma CharsIsOuter(single: bool, t: string, column: nat, s: string)
    requires column > 0 || !DocMark(t)
    ensures Outer(single, t, column, s) == Chars(single, t, column, s)
  {}

  lemma {:induction false} WordsRead(single: bool, w: string, t: string, column: nat, s: string)
    requires forall k :: 0 <= k < |w| ==> Itself(single, w[k])
    ensures Chars(single, w + t, column, s) == Chars(single, t, column + |w|, s + w)
    decreases |w|
  {
    if w == "" {
      assert w + t == t && s + w == s;
    } else {
      var u := w + t;
      assert At(u, 0) == w[0] && u[1..] == w[1..] + t;
      WordsRead(single, w[1..], t, column + 1, s + [w[0]]);
      assert s + [w[0]] + w[1..] == s + w;
    }
  }

  /** Blanks within a line are collected. */
  lemma {:induction false} GapRead(single: bool, b: string, t: string, column: nat, s: string, blanks: string)
    requires Blank(b)
    ensures Blanks(single, b + t, column, s, false, blanks, "", "")
         == Blanks(single, t, column + |b|, s, false, blanks + b, "", "")
    decreases |b|
  {
    if b == "" {
      assert b + t == t && blanks + b == blanks;
    } else {
      assert (b + t)[1..] == b[1..] + t && At(b + t, 0) == b[0];
      GapRead(single, b[1..], t, column + 1, s, blanks + [b[0]]);
      assert blanks + [b[0]] + b[1..] == blanks + b;
    }
  }

  /** Blanks at the start of a line are passed over. */
  lemma {:induction false} LeadingRead(single: bool, b: string, t: string, column: nat, s: string, first: string,
      more: string)
    requires Blank(b)
    ensures Blanks(single, b + t, column, s, true, "", first, more)
         == Blanks(single, t, column + |b|, s, true, "", first, more)
    decreases |b|
  {
    if b == "" {
      assert b + t == t;
    } else {
      assert (b + t)[1..] == b[1..] + t && At(b + t, 0) == b[0];
      LeadingRead(single, b[1..], t, column + 1, s, first, more);
    }
  }

  lemma EndReads(b: LineEnd, t: string)
    requires b.Cr? ==> At(t, 0) != '\n'
    ensures var u := EndText(b) + t;
      IsBreak(At(u, 0)) && !IsBlank(At(u, 0)) && LineText(u) == Kept(b) && u[LineWidth(u)..] == t
  {
    var u := EndText(b) + t;
    assert At(u, 0) == EndText(b)[0];
    match b
    case Cr => assert At(u, 1) == At(t, 0) && u[1..] == t;
    case CrLf => assert At(u, 1) == '\n' && u[2..] == t;
    case _ => assert u[1..] == t;
  }

  /** What follows a carriage return is no line feed. */
  lemma NoLineFeed(end: LineEnd, lines: seq<Line>, after: string, t: string)
    requires GoodLines(end, lines) && Blank(after) && At(t, 0) != '\n'
    ensures end.Cr? ==> At(LinesText(lines) + after + t, 0) != '\n'
  {
    var u := LinesText(lines) + after + t;
    if lines != [] {
      var l := lines[0];
      var v := LinesText(lines[1..]) + after + t;
      assert u == l.blanks + EndText(l.end) + v;
      if l.blanks == "" {
        assert At(u, 0) == EndText(l.end)[0];
      } else {
        assert At(u, 0) == l.blanks[0];
      }
    } else if after == "" {
      assert u == t;
    } else {
      assert At(u, 0) == after[0];
    }
  }

  /** Empty lines, and the blanks after them. */
  lemma {:induction false} LinesRead(single: bool, end: LineEnd, lines: seq<Line>, after: string, t: string,
      s: string, first: string, more: string)
    requires GoodLines(end, lines) && Blank(after) && At(t, 0) != '\n'
    ensures Blanks(single, LinesText(lines) + after + t, 0, s, true, "", first, more)
         == Blanks(single, t, |after|, s, true, "", first, more + AllKept(lines))
    decreases |lines|
  {
    hide Blanks, Outer, Chars;
    var u := LinesText(lines) + after + t;
    if lines == [] {
      assert u == after + t && more + AllKept(lines) == more;
      LeadingRead(single, after, t, 0, s, first, more);
    } else {
      var l := lines[0];
      var v := LinesText(lines[1..]) + after + t;
      assert u == l.blanks + (EndText(l.end) + v);
      LeadingRead(single, l.blanks, EndText(l.end) + v, 0, s, first, more);
      NoLineFeed(l.end, lines[1..], after, t);
      EndReads(l.end, v);
      BreakRead(single, EndText(l.end) + v, |l.blanks|, s, true, "", first, more);
      LinesRead(single, l.end, lines[1..], after, t, s, first, more + Kept(l.end));
      assert more + Kept(l.end) + AllKept(lines[1..]) == more + AllKept(lines);
    }
  }

  lemma BreakRead(single: bool, u: string, column: nat, s: string, leading: bool, blanks: string, first: string,
      more: string)
    requires IsBreak(At(u, 0)) && !IsBlank(At(u, 0)) && (leading ==> blanks == "")
    ensures Blanks(single, u, column, s, leading, blanks, first, more)
         == if leading then Blanks(single, u[LineWidth(u)..], 0, s, true, "", first, more + LineText(u))
            else Blanks(single, u[LineWidth(u)..], 0, s, true, "", first + LineText(u), more)
  {}

  /** At a character that is not blank, the blanks and breaks before it have been joined. */
  lemma BlanksEnd(single: bool, t: string, column: nat, s: string, leading: bool, blanks: string, first: string,
      more: string)
    requires !IsBlank(At(t, 0)) && !IsBreak(At(t, 0))
    ensures Blanks(single, t, column, s, leading, blanks, first, more)
         == Outer(single, t, column, Join(s, leading, blanks, first, more))
  {}

  lemma OuterAtBlank(single: bool, t: string, column: nat, s: string)
    requires IsBlank(At(t, 0)) || IsBreak(At(t, 0))
    ensures Outer(single, t, column, s) == Blanks(single, t, column, s, false, "", "", "")
  {
    hide Blanks;
  }

  lemma FoldRead(single: bool, p: Piece, t: string, column: nat, s: string)
    requires p.Fold? && GoodPiece(single, p) && !IsBlank(At(t, 0)) && !IsBreak(At(t, 0))
    ensures Outer(single, Text(p) + t, column, s) == Outer(single, t, |p.after|, s + Value(p))
  {
    hide Blanks, Outer, DocMark, LinesText, LineText, LineWidth, AllKept, Join;
    var Fold(before, end, lines, after) := p;
    var v := LinesText(lines) + after + t;
    var u := EndText(end) + v;
    assert Text(p) + t == before + u;
    NoLineFeed(end, lines, after, t);
    EndReads(end, v);
    assert At(before + u, 0) == if before == "" then At(u, 0) else before[0];
    NotAMark(before + u);
    OuterAtBlank(single, before + u, column, s);
    GapRead(single, before, u, column, s, "");
    BreakRead(single, u, column + |before|, s, false, "" + before, "", "");
    LinesRead(single, end, lines, after, t, s, Kept(end), "");
    assert "" + Kept(end) == Kept(end) && "" + AllKept(lines) == AllKept(lines);
    BlanksEnd(single, t, |after|, s, true, "", Kept(end), AllKept(lines));
    JoinIsValue(p, s);
  }

  lemma KeptSome(lines: seq<Line>)
    ensures AllKept(lines) == "" <==> lines == []
  {}

  lemma JoinIsValue(p: Piece, s: string)
    requires p.Fold?
    ensures Join(s, true, "", Kept(p.end), AllKept(p.lines)) == s + Value(p)
  {
    KeptSome(p.lines);
    assert s + Kept(p.end) + AllKept(p.lines) == s + (Kept(p.end) + AllKept(p.lines));
  }

  lemma NotAMark(t: string)
    requires IsBlank(At(t, 0)) || IsBreak(At(t, 0)) || At(t, 0) == '\\' || At(t, 0) == '\"' || At(t, 0) == '\''
    ensures !DocMark(t)
  {}

  /** A backslash before a break. */
  lemma BackslashBreak(u: string, column: nat, s: string)
    requires IsBreak(At(u, 0))
    ensures Outer(false, "\\" + u, column, s) == After(false, u[LineWidth(u)..], 0, s, true)
  {
    hide After, Unescape;
    assert ("\\" + u)[1..] == u;
  }

  lemma JoinedRead(p: Piece, t: string, column: nat, s: string)
    requires p.Joined? && GoodPiece(false, p) && !IsBlank(At(t, 0)) && !IsBreak(At(t, 0))
    ensures Outer(false, Text(p) + t, column, s) == Outer(false, t, |p.after|, s + Value(p))
  {
    hide Outer, DocMark, LinesText, AllKept, LineText, LineWidth, After;
    var Joined(end, lines, after) := p;
    var v := LinesText(lines) + after + t;
    assert Text(p) + t == "\\" + (EndText(end) + v);
    NoLineFeed(end, lines, after, t);
    EndReads(end, v);
    BackslashBreak(EndText(end) + v, column, s);
    AfterRead(end, lines, after, t, s);
  }

  lemma AfterRead(end: LineEnd, lines: seq<Line>, after: string, t: string, s: string)
    requires GoodLines(end, lines) && Blank(after) && !IsBlank(At(t, 0)) && !IsBreak(At(t, 0))
    ensures After(false, LinesText(lines) + after + t, 0, s, true) == Outer(false, t, |after|, s + AllKept(lines))
  {
    hide Blanks, Outer, LinesText, After;
    var v := LinesText(lines) + after + t;
    AfterIs(end, lines, after, t, s);
    if IsQuote(false, At(v, 0)) {
      assert s + AllKept(lines) == s;
    } else {
      LinesRead(false, end, lines, after, t, s, "", "");
      assert "" + AllKept(lines) == AllKept(lines) && s + "" + AllKept(lines) == s + AllKept(lines);
      BlanksEnd(false, t, |after|, s, true, "", "", AllKept(lines));
    }
  }

  /** After an escaped break the right quote may come at once. */
  lemma AfterIs(end: LineEnd, lines: seq<Line>, after: string, t: string, s: string)
    requires GoodLines(end, lines) && Blank(after) && !IsBlank(At(t, 0)) && !IsBreak(At(t, 0))
    ensures var v := LinesText(lines) + after + t;
      if IsQuote(false, At(v, 0))
      then v == t && lines == [] && after == "" && After(false, v, 0, s, true) == Outer(false, t, 0, s)
      else After(false, v, 0, s, true) == Blanks(false, v, 0, s, true, "", "", "")
  {
    hide Blanks, Outer, LinesText;
    BlankFirst(lines, after, t);
    if IsQuote(false, At(t, 0)) { QuoteEnds(t, s); }
  }

  lemma QuoteEnds(t: string, s: string)
    requires IsQuote(false, At(t, 0))
    ensures Outer(false, t, 0, s) == After(false, t, 0, s, true) == Got(s, t[1..])
  {}

  lemma LineFirst(lines: seq<Line>, after: string, t: string)
    requires lines != []
    ensures LinesText(lines) + after + t
         == lines[0].blanks + EndText(lines[0].end) + (LinesText(lines[1..]) + after + t)
  {}

  /** Empty lines, and blanks after them, start with a blank or a break. */
  lemma BlankFirst(lines: seq<Line>, after: string, t: string)
    requires (lines != [] ==> Blank(lines[0].blanks)) && Blank(after)
    ensures if lines == [] && after == "" then LinesText(lines) + after + t == t
            else IsBlankZ(At(LinesText(lines) + after + t, 0))
  {
    var u := LinesText(lines) + after + t;
    if lines != [] {
      var head := lines[0].blanks + EndText(lines[0].end);
      hide LinesText;
      LineFirst(lines, after, t);
      assert At(u, 0) == head[0];
      assert head[0] == if lines[0].blanks == "" then EndText(lines[0].end)[0] else lines[0].blanks[0];
    } else if after != "" {
      assert At(u, 0) == after[0];
    }
  }

  // ----- escapes -----

  /** Every name is that of its character, and there are no other names. */
  lemma NamesAre(name: char)
    ensures name in NAMES ==> |Named(name)| == 1 && Named(name)[0] as int == NAMES[name]
    ensures name !in NAMES ==> Named(name) == [] && (CodeLength(name) > 0 <==> name in LENGTHS)
    ensures name in LENGTHS ==> Named(name) == [] && CodeLength(name) == LENGTHS[name]
  {}

  lemma UnknownEscapeFails(t: string)
    requires At(t, 0) !in NAMES && At(t, 0) !in LENGTHS
    ensures Unescape(t) == Bad(UnknownEscape)
  {
    NamesAre(At(t, 0));
  }

  lemma DigitIs(c: char, d: nat)
    requires IsDigit(c, d)
    ensures IsHex(c) && AsHex(c) == d
  {
    var lower, upper := "0123456789abcdef", "0123456789ABCDEF";
    if d < 10 {
      assert lower[d] as int == '0' as int + d && upper[d] as int == '0' as int + d;
    } else {
      assert lower[d] as int == 'a' as int + d - 10 && upper[d] as int == 'A' as int + d - 10;
    }
  }

  lemma {:induction false} DigitsAre(digits: string, values: seq<nat>, t: string, n: nat)
    requires n <= |digits| == |values| && forall k :: 0 <= k < |digits| ==> IsDigit(digits[k], values[k])
    ensures HexRun(digits + t, n) && HexValue(digits + t, n) == Number(values[..n])
    decreases n
  {
    if n > 0 {
      DigitsAre(digits, values, t, n - 1);
      DigitIs(digits[n - 1], values[n - 1]);
      assert At(digits + t, n - 1) == digits[n - 1];
      assert values[..n][..n - 1] == values[..n - 1];
    }
  }

  /** A coded character is the one with that number. */
  lemma CodeIs(p: Piece, t: string)
    requires p.CodeOf? && GoodPiece(false, p)
    ensures Unescape([p.length] + p.digits + t) == Char(p.c, 1 + |p.digits|)
  {
    hide NAMES, Named, CodeLength, HexValue;
    var u := [p.length] + p.digits + t;
    assert At(u, 0) == p.length && u[1..] == p.digits + t;
    NamesAre(p.length);
    DigitsAre(p.digits, p.values, t, |p.digits|);
    assert p.values[..|p.digits|] == p.values;
  }

  lemma EscapeRead(w: string, c: char, t: string, column: nat, s: string)
    requires w != "" && !IsBreak(w[0]) && Unescape(w + t) == Char(c, |w|)
    ensures Outer(false, "\\" + w + t, column, s) == Chars(false, t, column + 1 + |w|, s + [c])
  {
    hide Unescape, DocMark;
    var u := "\\" + w + t;
    assert u[1..] == w + t && (w + t)[|w|..] == t && At(u, 0) == '\\' && At(w + t, 0) == w[0];
    NotAMark(u);
  }

  // ----- a whole text -----

  /** One piece: what is after it goes on as a line that has begun, or as a new one. */
  lemma PieceRead(single: bool, p: Piece, t: string, column: nat, s: string) returns (column': nat)
    requires GoodPiece(single, p) && (column == 0 ==> !DocMark(Text(p) + t))
    requires p.Gap? || p.Fold? || p.Joined? ==> !IsBlank(At(t, 0)) && !IsBreak(At(t, 0))
    ensures column' == 0 <==> (p.Fold? || p.Joined?) && p.after == ""
    ensures Outer(single, Text(p) + t, column, s) == Outer(single, t, column', s + Value(p))
  {
    hide Blanks, Chars, Outer, After, Unescape, DocMark, LinesText, AllKept, NAMES;
    match p
    case Words(w) =>
      CharsIsOuter(single, w + t, column, s);
      WordsRead(single, w, t, column, s);
      CharsIsOuter(single, t, column + |w|, s + w);
      column' := column + |w|;
    case Gap(b) =>
      GapPieceRead(single, b, t, column, s);
      column' := column + |b|;
    case Fold(_, _, _, after) =>
      FoldRead(single, p, t, column, s);
      column' := |after|;
    case Joined(_, _, after) =>
      JoinedRead(p, t, column, s);
      column' := |after|;
    case NameOf(name, c) =>
      NameRead(p, t, column, s);
      column' := column + 2;
    case CodeOf(length, digits, _, c) =>
      CodeIs(p, t);
      CodeRead(p, t, column, s);
      column' := column + 2 + |digits|;
    case QuotePair =>
      PairRead(t, column, s);
      column' := column + 2;
  }

  lemma GapPieceRead(single: bool, b: string, t: string, column: nat, s: string)
    requires b != "" && Blank(b) && !IsBlank(At(t, 0)) && !IsBreak(At(t, 0))
    ensures Outer(single, b + t, column, s) == Outer(single, t, column + |b|, s + b)
  {
    hide Blanks, DocMark;
    assert At(b + t, 0) == b[0];
    NotAMark(b + t);
    GapRead(single, b, t, column, s, "");
    assert "" + b == b;
    BlanksEnd(single, t, column + |b|, s, false, b, "", "");
  }

  lemma NameRead(p: Piece, t: string, column: nat, s: string)
    requires p.NameOf? && GoodPiece(false, p)
    ensures Outer(false, Text(p) + t, column, s) == Outer(false, t, column + 2, s + Value(p))
  {
    var w := [p.name];
    assert At(w + t, 0) == p.name;
    NamesAre(p.name);
    assert Unescape(w + t) == Char(p.c, 1);
    hide Blanks, Chars, Outer, Unescape, Named, NAMES;
    assert Text(p) + t == "\\" + w + t;
    NameIsNoBreak(p.name);
    EscapeRead(w, p.c, t, column, s);
    CharsIsOuter(false, t, column + 2, s + [p.c]);
  }

  lemma NameIsNoBreak(name: char)
    requires name in NAMES || name in LENGTHS
    ensures !IsBreak(name)
  {}

  lemma CodeRead(p: Piece, t: string, column: nat, s: string)
    requires p.CodeOf? && GoodPiece(false, p) && Unescape([p.length] + p.digits + t) == Char(p.c, 1 + |p.digits|)
    ensures Outer(false, Text(p) + t, column, s) == Outer(false, t, column + 2 + |p.digits|, s + Value(p))
  {
    var w := [p.length] + p.digits;
    hide Blanks, Chars, Outer, Unescape, NAMES, Number;
    assert Text(p) + t == "\\" + w + t && w + t == [p.length] + p.digits + t;
    NameIsNoBreak(p.length);
    EscapeRead(w, p.c, t, column, s);
    CharsIsOuter(false, t, column + 2 + |p.digits|, s + [p.c]);
  }

  lemma PairRead(t: string, column: nat, s: string)
    ensures Outer(true, "''" + t, column, s) == Outer(true, t, column + 2, s + "'")
  {
    var u := "''" + t;
    assert u[2..] == t && At(u, 0) == '\'' && At(u, 1) == '\'';
    NotAMark(u);
    CharsIsOuter(true, t, column + 2, s + "'");
  }

  lemma QuoteRead(single: bool, rest: string, column: nat, s: string)
    requires single ==> At(rest, 0) != '\''
    ensures Outer(single, Quote(single) + rest, column, s) == Got(s, rest)
  {
    var u := Quote(single) + rest;
    assert u[1..] == rest && At(u, 1) == At(rest, 0);
    NotAMark(u);
  }

  /** The next piece, or the quote, does not start with a blank, unless the piece does. */
  lemma FirstIs(single: bool, ps: seq<Piece>, rest: string)
    requires (ps != [] ==> GoodPiece(single, ps[0]) && !ps[0].Gap? && !ps[0].Fold?)
    ensures !IsBlank(At(AllText(ps) + Quote(single) + rest, 0)) && !IsBreak(At(AllText(ps) + Quote(single) + rest, 0))
  {
    var u := AllText(ps) + Quote(single) + rest;
    if ps == [] {
      assert u == Quote(single) + rest;
    } else {
      assert Text(ps[0]) != "";
      assert At(u, 0) == Text(ps[0])[0];
    }
  }

  lemma {:induction false} PiecesRead(single: bool, ps: seq<Piece>, rest: string, column: nat, s: string)
    requires GoodPieces(single, ps, rest) && (single ==> At(rest, 0) != '\'')
    requires column == 0 ==> !DocMark(AllText(ps) + Quote(single) + rest)
    ensures Outer(single, AllText(ps) + Quote(single) + rest, column, s) == Got(s + AllValue(ps), rest)
    decreases |ps|
  {
    hide Outer, DocMark, GoodPiece, Text, Value, Quote;
    if ps == [] {
      assert AllText(ps) + Quote(single) + rest == Quote(single) + rest && s + AllValue(ps) == s;
      QuoteRead(single, rest, column, s);
    } else {
      var t := AllText(ps[1..]) + Quote(single) + rest;
      assert AllText(ps) + Quote(single) + rest == Text(ps[0]) + t;
      if ps[0].Gap? || ps[0].Fold? || ps[0].Joined? {
        assert |ps| > 1 ==> ps[1..][0] == ps[1];
        FirstIs(single, ps[1..], rest);
      }
      var column' := PieceRead(single, ps[0], t, column, s);
      PiecesRead(single, ps[1..], rest, column', s + Value(ps[0]));
      assert s + Value(ps[0]) + AllValue(ps[1..]) == s + AllValue(ps);
    }
  }

  /** A quoted scalar, made of any pieces, scans to their value. */
  lemma ScanReadsPieces(single: bool, ps: seq<Piece>, rest: string, column: nat)
    requires GoodPieces(single, ps, rest) && (single ==> At(rest, 0) != '\'') && column > 0
    ensures ScanQuoted(single, AllText(ps) + Quote(single) + rest, column) == Got(AllValue(ps), rest)
  {
    PiecesRead(single, ps, rest, column, "");
    assert "" + AllValue(ps) == AllValue(ps);
  }

  // ----- and there are no others -----

  lemma {:induction false} SplitBlanks(t: string) returns (b: string, u: string)
    ensures t == b + u && Blank(b) && !IsBlank(At(u, 0))
    decreases |t|
  {
    if IsBlank(At(t, 0)) {
      b, u := SplitBlanks(t[1..]);
      b := [t[0]] + b;
    } else {
      b, u := "", t;
    }
  }

  lemma SplitEnd(t: string) returns (end: LineEnd, u: string)
    requires IsBreak(At(t, 0))
    ensures t == EndText(end) + u && (end.Cr? ==> At(u, 0) != '\n')
  {
    u := t[1..];
    match t[0]
    case '\r' =>
      end := Cr;
      if At(t, 1) == '\n' { end, u := CrLf, t[2..]; }
    case '\n' => end := Lf;
    case '\U{85}' => end := Nel;
    case '\U{2028}' => end := Ls;
    case _ => end := Ps;
  }

  lemma ConsLine(end: LineEnd, b: string, e: LineEnd, more: seq<Line>, after: string, u: string)
    requires Blank(b) && (end.Cr? && b == "" ==> !e.Lf?) && GoodLines(e, more)
    ensures GoodLines(end, [Line(b, e)] + more)
    ensures LinesText([Line(b, e)] + more) + after + u == b + (EndText(e) + (LinesText(more) + after + u))
  {
    var lines := [Line(b, e)] + more;
    assert lines[1..] == more;
    assert LinesText(lines) == b + EndText(e) + LinesText(more);
  }

  lemma EndFirst(e: LineEnd, w: string)
    ensures e.Lf? ==> At(EndText(e) + w, 0) == '\n'
  {}

  /** The empty lines after a break, and the blanks before the first character. */
  lemma {:induction false} SplitLines(end: LineEnd, t: string) returns (lines: seq<Line>, after: string, u: string)
    requires end.Cr? ==> At(t, 0) != '\n'
    ensures t == LinesText(lines) + after + u && GoodLines(end, lines) && Blank(after)
    ensures !IsBlank(At(u, 0)) && !IsBreak(At(u, 0))
    decreases |t|
  {
    var b, v := SplitBlanks(t);
    if IsBreak(At(v, 0)) {
      var e, w := SplitEnd(v);
      EndFirst(e, w);
      assert b == "" ==> t == v;
      hide LinesText, EndText, GoodLines;
      var more;
      more, after, u := SplitLines(e, w);
      lines := [Line(b, e)] + more;
      ConsLine(end, b, e, more, after, u);
    } else {
      lines, after, u := [], b, v;
    }
  }

  lemma SplitBreak(t: string) returns (end: LineEnd, lines: seq<Line>, after: string, u: string)
    requires IsBreak(At(t, 0))
    ensures t == EndText(end) + LinesText(lines) + after + u && GoodLines(end, lines) && Blank(after)
    ensures !IsBlank(At(u, 0)) && !IsBreak(At(u, 0))
  {
    var v;
    end, v := SplitEnd(t);
    lines, after, u := SplitLines(end, v);
    assert t == EndText(end) + (LinesText(lines) + after + u);
  }

  lemma SplitName(t: string) returns (p: Piece, u: string)
    requires t != "" && At(t, 0) in NAMES
    ensures "\\" + t == Text(p) + u && GoodPiece(false, p) && p.NameOf?
  {
    NamesAre(t[0]);
    p, u := NameOf(t[0], Named(t[0])[0]), t[1..];
    assert t == [t[0]] + u;
  }

  lemma NotNul(t: string)
    requires Unescape(t).Char?
    ensures t != ""
  {}

  lemma CodeFacts(t: string)
    requires Unescape(t).Char? && At(t, 0) !in NAMES
    ensures t != "" && t[0] in LENGTHS && HexRun(t[1..], LENGTHS[t[0]])
    ensures Unescape(t).value as int == HexValue(t[1..], LENGTHS[t[0]])
  {
    NotNul(t);
    NamesAre(t[0]);
  }

  lemma CodeText(t: string, n: nat)
    requires n < |t|
    ensures "\\" + t == ['\\', t[0]] + t[1..][..n] + t[1..][n..]
  {
    assert t == [t[0]] + (t[1..][..n] + t[1..][n..]);
  }

  lemma SplitCode(t: string) returns (p: Piece, u: string)
    requires Unescape(t).Char? && At(t, 0) !in NAMES
    ensures "\\" + t == Text(p) + u && GoodPiece(false, p) && p.CodeOf?
  {
    hide NAMES, Unescape, HexValue, HexRun, IsDigit, Number;
    CodeFacts(t);
    var n := LENGTHS[t[0]];
    var rest := t[1..];
    var values := DigitsOf(rest, n);
    CodeText(t, n);
    p, u := CodeOf(t[0], rest[..n], values, Unescape(t).value), rest[n..];
  }

  lemma SplitEscape(t: string) returns (p: Piece, u: string)
    requires Unescape(t).Char?
    ensures "\\" + t == Text(p) + u && GoodPiece(false, p) && (p.NameOf? || p.CodeOf?)
  {
    hide NAMES, Unescape, Text, GoodPiece;
    if At(t, 0) in NAMES {
      NotNul(t);
      p, u := SplitName(t);
    } else {
      p, u := SplitCode(t);
    }
  }

  lemma {:induction false} DigitsOf(t: string, n: nat) returns (values: seq<nat>)
    requires HexRun(t, n)
    ensures |values| == n <= |t| && Number(values) == HexValue(t, n)
    ensures forall k :: 0 <= k < n ==> IsDigit(t[k], values[k])
    decreases n
  {
    if n == 0 {
      values := [];
    } else {
      var rest := DigitsOf(t, n - 1);
      assert IsHex(At(t, n - 1));
      values := rest + [AsHex(t[n - 1])];
      HexIsDigit(t[n - 1]);
      assert values[..n - 1] == rest;
    }
  }

  lemma HexIsDigit(c: char)
    requires IsHex(c)
    ensures IsDigit(c, AsHex(c))
  {}

  lemma SplitBlankPiece(single: bool, t: string) returns (p: Piece, u: string)
    requires IsBlank(At(t, 0)) || IsBreak(At(t, 0))
    ensures t == Text(p) + u && GoodPiece(single, p) && (p.Gap? || p.Fold?)
    ensures !IsBlank(At(u, 0)) && !IsBreak(At(u, 0))
  {
    var b, v := SplitBlanks(t);
    if IsBreak(At(v, 0)) {
      hide LinesText, EndText, GoodLines;
      var end, lines, after;
      end, lines, after, u := SplitBreak(v);
      p := Fold(b, end, lines, after);
      assert t == b + (EndText(end) + LinesText(lines) + after + u);
    } else {
      p, u := Gap(b), v;
    }
  }

  lemma SplitJoined(t: string) returns (p: Piece, u: string)
    requires At(t, 0) == '\\' && IsBreak(At(t[1..], 0))
    ensures t == Text(p) + u && GoodPiece(false, p) && p.Joined?
    ensures !IsBlank(At(u, 0)) && !IsBreak(At(u, 0))
  {
    hide LinesText, EndText, GoodLines;
    var end, lines, after;
    end, lines, after, u := SplitBreak(t[1..]);
    p := Joined(end, lines, after);
    assert t == "\\" + (EndText(end) + LinesText(lines) + after + u);
  }

  /** Where a scan goes on, it has not failed. */
  lemma NotFailed(single: bool, t: string, column: nat, s: string)
    requires Outer(single, t, column, s).Got?
    ensures !IsZ(At(t, 0)) && (column == 0 ==> !DocMark(t))
    ensures !single && At(t, 0) == '\\' && !IsBreak(At(t[1..], 0)) ==> Unescape(t[1..]).Char?
  {
    hide Unescape, DocMark;
    assert Chars(single, t, column, s).Got?;
  }

  /** Unless it is the right quote, what a text starts with is a piece, if the scan succeeds. */
  lemma SplitPiece(single: bool, t: string, column: nat, s: string) returns (p: Piece, u: string)
    requires Outer(single, t, column, s).Got?
    requires IsQuote(single, At(t, 0)) ==> single && At(t, 1) == '\''
    ensures t == Text(p) + u && GoodPiece(single, p)
    ensures p.Gap? || p.Fold? || p.Joined? ==> !IsBlank(At(u, 0)) && !IsBreak(At(u, 0))
    ensures p.Gap? || p.Fold? ==> IsBlank(t[0]) || IsBreak(t[0])
  {
    hide Outer, Chars, Unescape, LinesText, EndText, GoodLines, NAMES, LENGTHS, Number;
    NotFailed(single, t, column, s);
    var c := At(t, 0);
    if IsBlankZ(c) {
      p, u := SplitBlankPiece(single, t);
    } else if single && c == '\'' {
      p, u := QuotePair, t[2..];
      assert t == "''" + u;
    } else if !single && c == '\\' && IsBreak(At(t[1..], 0)) {
      p, u := SplitJoined(t);
    } else if !single && c == '\\' {
      assert t == "\\" + t[1..];
      p, u := SplitEscape(t[1..]);
    } else {
      p, u := Words([c]), t[1..];
    }
  }

  /** What scans is made of pieces. */
  lemma {:induction false} PiecesOf(single: bool, t: string, column: nat, s: string) returns (ps: seq<Piece>)
    requires Outer(single, t, column, s).Got?
    ensures var Got(v, rest) := Outer(single, t, column, s);
      && t == AllText(ps) + Quote(single) + rest && v == s + AllValue(ps) && GoodPieces(single, ps, rest)
      && (single ==> At(rest, 0) != '\'')
      && (ps != [] && (ps[0].Gap? || ps[0].Fold?) ==> t != "" && (IsBlank(t[0]) || IsBreak(t[0])))
    decreases |t|
  {
    if IsQuote(single, At(t, 0)) && !(single && At(t, 1) == '\'') {
      ps := [];
      LastQuote(single, t, column, s);
    } else {
      var p, u := SplitPiece(single, t, column, s);
      hide Outer, Chars, DocMark, GoodPiece, Text, Value, Quote, GoodPieces, AllText, AllValue;
      var column' := PieceRead(single, p, u, column, s);
      NotFailed(single, u, column', s + Value(p));
      TextIsSome(single, p);
      var more := PiecesOf(single, u, column', s + Value(p));
      ps := [p] + more;
      Prepend(single, p, more, s, Outer(single, t, column, s).rest);
    }
  }

  lemma LastQuote(single: bool, t: string, column: nat, s: string)
    requires Outer(single, t, column, s).Got? && IsQuote(single, At(t, 0)) && !(single && At(t, 1) == '\'')
    ensures Outer(single, t, column, s) == Got(s, t[1..])
    ensures t == AllText([]) + Quote(single) + t[1..] && s == s + AllValue([]) && (single ==> At(t[1..], 0) != '\'')
  {
    assert Chars(single, t, column, s) == Got(s, t[1..]);
  }

  lemma Prepend(single: bool, p: Piece, more: seq<Piece>, s: string, rest: string)
    requires GoodPiece(single, p) && GoodPieces(single, more, rest)
    requires more != [] && (p.Gap? || p.Fold? || p.Joined?) ==> !more[0].Gap? && !more[0].Fold?
    requires (p.Fold? || p.Joined?) && p.after == "" ==> !DocMark(AllText(more) + Quote(single) + rest)
    ensures GoodPieces(single, [p] + more, rest)
    ensures AllText([p] + more) + Quote(single) + rest == Text(p) + (AllText(more) + Quote(single) + rest)
    ensures s + AllValue([p] + more) == s + Value(p) + AllValue(more)
  {
    hide DocMark, GoodPiece, Text, Value, Quote;
    var ps := [p] + more;
    assert ps[1..] == more;
  }

  lemma TextIsSome(single: bool, p: Piece)
    requires GoodPiece(single, p)
    ensures Text(p) != ""
  {}

  /** The text is made of these pieces and the right quote, with `rest` behind it. */
  predicate IsScalar(single: bool, t: string, ps: seq<Piece>, value: string, rest: string) {
    && GoodPieces(single, ps, rest) && (single ==> At(rest, 0) != '\'')
    && t == AllText(ps) + Quote(single) + rest && value == AllValue(ps)
  }

  /** A text scans to a value iff it is made of pieces that mean this value. */
  lemma ScansIff(single: bool, t: string, column: nat, value: string, rest: string)
    requires column > 0
    ensures ScanQuoted(single, t, column) == Got(value, rest) <==> exists ps :: IsScalar(single, t, ps, value, rest)
  {
    hide Outer, GoodPieces, Quote;
    if ScanQuoted(single, t, column) == Got(value, rest) {
      var ps := PiecesOf(single, t, column, "");
      assert "" + AllValue(ps) == AllValue(ps);
      assert IsScalar(single, t, ps, value, rest);
    }
    if ps :| IsScalar(single, t, ps, value, rest) {
      ScanReadsPieces(single, ps, rest, column);
    }
  }
}
