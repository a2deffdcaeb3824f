/** What yaml.v2 writes in quotes reads back: for every value, width, style of line break and
    setting of the unicode flag, wherever on a line the scalar starts. */
module YamlQuotes {

  import opened YamlChars
  import opened YamlQuoteScanner
  import opened YamlQuoteWriter

  // ----- escapes read back -----

  lemma DigitReads(d: nat)
    requires d < 16
    ensures IsHex(Digit(d)) && AsHex(Digit(d)) == d
  {
  }

  lemma {:induction false} SameHex(t: string, u: string, n: nat)
    requires forall k :: 0 <= k < n ==> At(t, k) == At(u, k)
    requires HexRun(t, n)
    ensures HexRun(u, n) && HexValue(t, n) == HexValue(u, n)
  {
    if n > 0 {
      SameHex(t, u, n - 1);
    }
  }

  lemma {:induction false} HexReads(v: nat, n: nat, t: string)
    requires Shifted(v, n) == 0
    ensures HexRun(Hex(v, n) + t, n) && HexValue(Hex(v, n) + t, n) == v
    decreases n
  {
    if n > 0 {
      ShiftFirst(v, n);
      HexReads(v / 16, n - 1, t);
      DigitReads(v % 16);
      SameHex(Hex(v / 16, n - 1) + t, Hex(v, n) + t, n - 1);
      assert At(Hex(v, n) + t, n - 1) == Digit(v % 16);
    }
  }

  lemma {:induction false} ShiftFirst(v: nat, n: nat)
    requires n > 0
    ensures Shifted(v, n) == Shifted(v / 16, n - 1)
  {
    if n > 1 {
      ShiftFirst(v, n - 1);
    }
  }

  lemma LengthFits(c: char)
    ensures Shifted(c as int, Length(c)) == 0
  {
    var v := c as int;
    if v <= 0xFF {
      assert Shifted(v, 1) == v / 16;
      assert Shifted(v, 2) == v / 16 / 16 == 0;
    } else if v <= 0xFFFF {
      assert Shifted(v, 1) == v / 16;
      assert Shifted(v, 2) == v / 256;
      assert Shifted(v, 3) == v / 4096;
      assert Shifted(v, 4) == v / 65536 == 0;
    } else {
      assert Shifted(v, 1) == v / 16;
      assert Shifted(v, 2) == v / 256;
      assert Shifted(v, 3) == v / 4096;
      assert Shifted(v, 4) == v / 65536;
      assert Shifted(v, 5) == v / 1048576;
      assert Shifted(v, 6) == v / 16777216 == 0;
      assert Shifted(v, 7) == 0;
      assert Shifted(v, 8) == 0;
    }
  }

  lemma CodeReads(c: char, t: string)
    ensures Coded(Hex(c as int, Length(c)) + t, Length(c)) == Char(c, 1 + Length(c))
  {
    hide Hex, HexValue;
    LengthFits(c);
    HexReads(c as int, Length(c), t);
  }

  lemma NamesMatch(c: char)
    ensures Name(c) != "" ==> Named(Name(c)[0]) == [c]
    ensures Named(Letter(c)) == [] && CodeLength(Letter(c)) == Length(c) > 0
  {
  }

  /** Every character is what its escape stands for. */
  lemma UnescapeUndoesEscape(c: char, t: string)
    ensures Unescape(EscapeText(c) + t) == Char(c, |EscapeText(c)|)
  {
    hide Name, Named, CodeLength, Letter, Length, Hex, Coded;
    var u := EscapeText(c) + t;
    NamesMatch(c);
    if Name(c) == "" {
      CodeReads(c, t);
      assert At(u, 0) == Letter(c);
      assert u[1..] == Hex(c as int, Length(c)) + t;
    } else {
      assert At(u, 0) == Name(c)[0];
    }
  }

  // ----- steps of the scan -----

  predicate Plain(c: char) {
    !IsBlank(c) && !IsBreak(c)
  }

  /** Between characters the scan might as well be reading blanks. */
  lemma CharsAsBlanks(single: bool, t: string, column: nat, s: string)
    requires column > 0
    ensures Chars(single, t, column, s) == Blanks(single, t, column, s, false, "", "", "")
  {
    assert Join(s, false, "", "", "") == s;
  }

  /** Where the blanks end, what they add is fixed. */
  lemma Settle(single: bool, t: string, column: nat, s: string, leading: bool,
               blanks: string, first: string, more: string)
    requires Plain(At(t, 0))
    ensures var r := Join(s, leading, blanks, first, more);
      Blanks(single, t, column, s, leading, blanks, first, more)
      == Outer(single, t, column, r) == Blanks(single, t, column, r, false, "", "", "")
  {
    var r := Join(s, leading, blanks, first, more);
    assert Join(r, false, "", "", "") == r;
  }

  lemma SpaceReads(single: bool, t: string, column: nat, s: string, blanks: string)
    ensures Blanks(single, " " + t, column, s, false, blanks, "", "")
         == Blanks(single, t, column + 1, s, false, blanks + " ", "", "")
  {
    assert (" " + t)[1..] == t;
  }

  lemma {:induction false} MarginReads(single: bool, n: nat, t: string, column: nat, s: string, first: string,
      more: string)
    ensures Blanks(single, Spaces(n) + t, column, s, true, "", first, more)
         == Blanks(single, t, column + n, s, true, "", first, more)
    decreases n
  {
    if n == 0 {
      assert Spaces(n) + t == t;
    } else {
      assert (Spaces(n) + t)[1..] == Spaces(n - 1) + t;
      MarginReads(single, n - 1, t, column + 1, s, first, more);
    }
  }

  /** A break that the emitter makes reads as one line feed, if it ends where it seems to. */
  lemma BreakReads(single: bool, style: LineBreak, t: string, column: nat, s: string, blanks: string,
                   leading: bool, first: string, more: string)
    requires style == CR ==> At(t, 0) != '\n'
    requires !leading ==> first == "" && more == ""
    requires leading ==> blanks == ""
    ensures Blanks(single, BreakText(style) + t, column, s, leading, blanks, first, more)
         == if leading then Blanks(single, t, 0, s, true, "", first, more + "\n")
            else Blanks(single, t, 0, s, true, "", "\n", "")
  {
    var u := BreakText(style) + t;
    assert IsBreak(At(u, 0)) && !IsBlank(At(u, 0));
    assert LineText(u) == "\n";
    match style {
      case CR => assert At(u, 1) == At(t, 0); assert u[1..] == t;
      case LF => assert u[1..] == t;
      case CRLF => assert u[2..] == t;
    }
    assert u[LineWidth(u)..] == t;
    assert "" + LineText(u) == "\n";
  }

  /** A line broken between two words. */
  lemma FoldReads(single: bool, e: Settings, p: Place, t: string, column: nat, s: string)
    requires StartsLine(e, p) && Margin(e) > 0
    requires Plain(At(t, 0))
    ensures Blanks(single, IndentText(e, p) + t, column, s, false, "", "", "")
         == Blanks(single, t, Margin(e), s + " ", false, "", "", "")
  {
    var m := Spaces(Margin(e));
    assert IndentText(e, p) + t == BreakText(e.lineBreak) + (m + t);
    assert At(m + t, 0) == ' ';
    BreakReads(single, e.lineBreak, m + t, column, s, "", false, "", "");
    MarginReads(single, Margin(e), t, 0, s, "\n", "");
    Settle(single, t, Margin(e), s, true, "", "\n", "");
  }

  /** A character that stands for itself. */
  lemma CharReads(single: bool, c: char, t: string, column: nat, s: string, blanks: string)
    requires !IsBlankZ(c) && !IsQuote(single, c) && (single || c != '\\')
    requires column > 0
    ensures Blanks(single, [c] + t, column, s, false, blanks, "", "")
         == Blanks(single, t, column + 1, s + blanks + [c], false, "", "", "")
  {
    var u := [c] + t;
    assert u[1..] == t && At(u, 0) == c;
    Settle(single, u, column, s, false, blanks, "", "");
    CharsAsBlanks(single, t, column + 1, s + blanks + [c]);
  }

  lemma EscapeReads(w: string, c: char, t: string, column: nat, s: string, blanks: string)
    requires w != "" && !IsBreak(w[0])
    requires Unescape(w + t) == Char(c, |w|)
    requires column > 0
    ensures Blanks(false, "\\" + w + t, column, s, false, blanks, "", "")
         == Blanks(false, t, column + 1 + |w|, s + blanks + [c], false, "", "", "")
  {
    var u := "\\" + w + t;
    assert u[1..] == w + t && (w + t)[|w|..] == t && At(u, 0) == '\\' && At(w + t, 0) == w[0];
    Settle(false, u, column, s, false, blanks, "", "");
    CharsAsBlanks(false, t, column + 1 + |w|, s + blanks + [c]);
  }

  lemma QuotePairReads(t: string, column: nat, s: string, blanks: string)
    requires column > 0
    ensures Blanks(true, "''" + t, column, s, false, blanks, "", "")
         == Blanks(true, t, column + 2, s + blanks + "'", false, "", "", "")
  {
    var u := "''" + t;
    assert u[2..] == t && At(u, 0) == '\'' && At(u, 1) == '\'';
    Settle(true, u, column, s, false, blanks, "", "");
    CharsAsBlanks(true, t, column + 2, s + blanks + "'");
  }

  /** The right quote, even at the start of a line. */
  lemma EndReads(single: bool, rest: string, column: nat, s: string, leading: bool,
                 blanks: string, first: string, more: string)
    requires single ==> At(rest, 0) != '\''
    ensures Blanks(single, (if single then "'" else "\"") + rest, column, s, leading, blanks, first, more)
         == Got(Join(s, leading, blanks, first, more), rest)
  {
    var u := (if single then "'" else "\"") + rest;
    assert u[1..] == rest && At(u, 1) == At(rest, 0);
    Settle(single, u, column, s, leading, blanks, first, more);
  }

  // ----- double quotes -----

  /** The emitter is past the margin whenever it may fold again. */
  predicate PastMargin(e: Settings, p: Place, spaces: bool) {
    p.indention ==> p.column >= Margin(e) && (spaces || p.column > Margin(e))
  }

  lemma DoubleHead(e: Settings, v: string, i: nat, p: Place, allowBreaks: bool, rest: string)
    requires i < |v| && !IsSpace(v[i])
    ensures Plain(At(Double(e, v, i, p, allowBreaks, true) + rest, 0))
  {
    var w := DoublePiece(e, v, i, p, allowBreaks, true);
    assert w != "" && Plain(w[0]);
  }

  lemma DoubleUnfolds(e: Settings, v: string, i: nat, p: Place, allowBreaks: bool, spaces: bool, rest: string)
    requires i < |v|
    ensures var q := DoublePlace(e, v, i, p, allowBreaks, spaces);
      Double(e, v, i, p, allowBreaks, spaces) + rest
      == DoublePiece(e, v, i, p, allowBreaks, spaces)
         + (Double(e, v, i + 1, q, allowBreaks, DoubleSpaces(e, v, i)) + rest)
  {
  }

  lemma {:induction false} DoubleReads(e: Settings, v: string, i: nat, p: Place, allowBreaks: bool, spaces: bool,
                                       rest: string, column: nat, s: string, blanks: string)
    requires Margin(e) > 0 && column > 0
    requires i <= |v| && s + blanks == v[..i]
    requires PastMargin(e, p, spaces) && (!spaces ==> blanks == "")
    ensures Blanks(false, Double(e, v, i, p, allowBreaks, spaces) + rest, column, s, false, blanks, "", "")
         == Got(v, rest)
    decreases |v| - i
  {
    hide Blanks, Outer, Chars, Unescape, EscapeText, IndentText, StartsLine;
    if i == |v| {
      EndReads(false, rest, column, s, false, blanks, "", "");
    } else {
      var c := v[i];
      var w := DoublePiece(e, v, i, p, allowBreaks, spaces);
      var q := DoublePlace(e, v, i, p, allowBreaks, spaces);
      var t := Double(e, v, i + 1, q, allowBreaks, DoubleSpaces(e, v, i)) + rest;
      DoubleUnfolds(e, v, i, p, allowBreaks, spaces, rest);
      assert v[..i + 1] == v[..i] + [c];
      if Escaped(e, v, i) {
        UnescapeUndoesEscape(c, t);
        EscapeReads(EscapeText(c), c, t, column, s, blanks);
        DoubleReads(e, v, i + 1, q, allowBreaks, false, rest, column + |w|, v[..i + 1], "");
      } else if FoldsDouble(e, v, i, p, allowBreaks, spaces) {
        assert s + blanks == s;
        DoubleFoldReads(e, v, i, p, allowBreaks, rest, column);
      } else if IsSpace(c) {
        SpaceReads(false, t, column, s, blanks);
        DoubleReads(e, v, i + 1, q, allowBreaks, true, rest, column + 1, s, blanks + " ");
      } else {
        CharReads(false, c, t, column, s, blanks);
        DoubleReads(e, v, i + 1, q, allowBreaks, false, rest, column + 1, v[..i + 1], "");
      }
    }
  }

  /** A line broken between two spaces: the second one is guarded by a backslash. */
  lemma GuardReads(e: Settings, v: string, i: nat, p: Place, allowBreaks: bool, rest: string, column: nat)
    requires Margin(e) > 0 && StartsLine(e, p)
    requires i < |v| && FoldsDouble(e, v, i, p, allowBreaks, false) && IsSpace(v[i + 1])
    ensures Blanks(false, Double(e, v, i, p, allowBreaks, false) + rest, column, v[..i], false, "", "", "")
         == Blanks(false, Double(e, v, i + 2, Place(Margin(e) + 2, true, true), allowBreaks, true) + rest,
                   Margin(e) + 2, v[..i + 2], false, "", "", "")
  {
    hide Blanks, Outer, Chars, EscapeText, IndentText, StartsLine;
    var q := DoublePlace(e, v, i, p, allowBreaks, false);
    assert q == Place(Margin(e) + 1, true, true);
    DoubleUnfolds(e, v, i, p, allowBreaks, false, rest);
    DoubleUnfolds(e, v, i + 1, q, allowBreaks, true, rest);
    var t := Double(e, v, i + 2, q.(column := Margin(e) + 2), allowBreaks, true) + rest;
    assert !Escaped(e, v, i + 1);
    assert DoublePiece(e, v, i + 1, q, allowBreaks, true) == " ";
    assert Double(e, v, i, p, allowBreaks, false) + rest == IndentText(e, p) + ("\\" + " " + t);
    FoldReads(false, e, p, "\\" + " " + t, column, v[..i]);
    SpaceEscape(t);
    EscapeReads(" ", ' ', t, Margin(e), v[..i] + " ", "");
    assert v[..i + 2] == v[..i] + " " + "" + [' '];
  }

  lemma SpaceEscape(t: string)
    ensures Unescape(" " + t) == Char(' ', 1)
  {
    assert At(" " + t, 0) == ' ';
  }

  lemma {:induction false} DoubleFoldReads(e: Settings, v: string, i: nat, p: Place, allowBreaks: bool,
                                           rest: string, column: nat)
    requires Margin(e) > 0 && column > 0
    requires i < |v| && FoldsDouble(e, v, i, p, allowBreaks, false)
    requires PastMargin(e, p, false)
    ensures Blanks(false, Double(e, v, i, p, allowBreaks, false) + rest, column, v[..i], false, "", "", "")
         == Got(v, rest)
    decreases |v| - i, 0
  {
    hide Blanks, Outer, Chars, Unescape, EscapeText, IndentText;
    var q := DoublePlace(e, v, i, p, allowBreaks, false);
    var t := Double(e, v, i + 1, q, allowBreaks, true) + rest;
    assert v[..i + 1] == v[..i] + " ";
    if IsSpace(v[i + 1]) {
      GuardReads(e, v, i, p, allowBreaks, rest, column);
      var q2 := Place(Margin(e) + 2, true, true);
      DoubleReads(e, v, i + 2, q2, allowBreaks, true, rest, Margin(e) + 2, v[..i + 2], "");
    } else {
      DoubleUnfolds(e, v, i, p, allowBreaks, false, rest);
      assert DoublePiece(e, v, i, p, allowBreaks, false) == IndentText(e, p);
      assert v[..i] + "" == v[..i];
      DoubleHead(e, v, i + 1, q, allowBreaks, rest);
      FoldReads(false, e, p, t, column, v[..i]);
      DoubleReads(e, v, i + 1, q, allowBreaks, true, rest, Margin(e), v[..i + 1], "");
    }
  }

  /** Double quotes hold every value. */
  lemma DoubleQuotedRoundTrip(e: Settings, v: string, column: nat, allowBreaks: bool, rest: string)
    requires e.indent >= 1 && column >= 1
    ensures ScanQuoted(false, Double(e, v, 0, Place(column, false, false), allowBreaks, false) + rest, column)
         == Got(v, rest)
  {
    var t := Double(e, v, 0, Place(column, false, false), allowBreaks, false) + rest;
    OuterAsBlanks(false, t, column);
    DoubleReads(e, v, 0, Place(column, false, false), allowBreaks, false, rest, column, "", "");
  }

  lemma OuterAsBlanks(single: bool, t: string, column: nat)
    requires column > 0
    ensures ScanQuoted(single, t, column) == Blanks(single, t, column, "", false, "", "", "")
  {
    CharsAsBlanks(single, t, column, "");
  }

  // ----- single quotes -----

  /** What the scan has gathered when the emitter has written the first `i` characters. */
  predicate Agree(e: Settings, v: string, i: nat, p: Place, since: Since, column: nat, s: string, leading: bool,
                  blanks: string, first: string, more: string)
  {
    && i <= |v| && Join(s, leading, blanks, first, more) == v[..i]
    && leading == since.breaks
    && (leading ==> 0 < i && IsBreak(v[i - 1]) && p.column == 0 && p.indention)
    && (leading ==> blanks == "" && first != "" && (first[0] == '\n' ==> more != ""))
    && (!leading ==> column > 0 && first == "" && more == "")
    && (!leading && blanks != "" ==> 0 < i && IsSpace(v[i - 1]))
    && (!leading && !since.spaces ==> blanks == "" && !p.indention)
  }

  ghost predicate Quotable(v: string) {
    && (forall k :: 0 <= k < |v| ==> IsPrintable(v[k]))
    && (forall k :: 0 < k < |v| && IsSpace(v[k]) ==> !IsBreak(v[k - 1]))
    && (forall k :: 0 < k < |v| && IsBreak(v[k]) ==> !IsSpace(v[k - 1]))
  }

  lemma SingleUnfolds(e: Settings, v: string, i: nat, p: Place, allowBreaks: bool, since: Since, rest: string)
    requires i < |v|
    ensures Single(e, v, i, p, allowBreaks, since) + rest
         == SinglePiece(e, v, i, p, allowBreaks, since)
            + (Single(e, v, i + 1, SinglePlace(e, v, i, p, allowBreaks, since), allowBreaks,
                      SingleSince(v, i, since)) + rest)
  {
  }

  /** What comes after a folded space is a character of its own. */
  lemma SingleHead(e: Settings, v: string, i: nat, p: Place, allowBreaks: bool, since: Since, rest: string)
    requires i < |v| && Plain(v[i]) && !since.breaks
    ensures Plain(At(Single(e, v, i, p, allowBreaks, since) + rest, 0))
  {
    SingleUnfolds(e, v, i, p, allowBreaks, since, rest);
  }

  /** A carriage return of the emitter's is never taken together with what follows. */
  lemma NoLineFeed(e: Settings, v: string, i: nat, p: Place, allowBreaks: bool, since: Since, rest: string)
    requires e.lineBreak == CR && i <= |v| && (i < |v| ==> !IsSpace(v[i]))
    ensures At(Single(e, v, i, p, allowBreaks, since) + rest, 0) != '\n'
  {
    if i < |v| {
      SingleUnfolds(e, v, i, p, allowBreaks, since, rest);
      if !IsBreak(v[i]) && since.breaks {
        MarginHead(e, p, if v[i] == '\'' then "''" else [v[i]]);
      }
      assert At(SinglePiece(e, v, i, p, allowBreaks, since), 0) != '\n';
    }
  }

  lemma MarginHead(e: Settings, p: Place, w: string)
    requires e.lineBreak == CR && w != "" && w[0] != '\n'
    ensures (IndentText(e, p) + w)[0] != '\n'
  {
    var m := IndentText(e, p);
    if m != "" {
      assert (m + w)[0] == m[0];
    } else {
      assert m + w == w;
    }
  }

  lemma {:induction false} SingleReads(e: Settings, v: string, i: nat, p: Place, allowBreaks: bool, since: Since,
      rest: string, column: nat, s: string, leading: bool, blanks: string, first: string, more: string)
    requires Margin(e) > 0 && Quotable(v) && At(rest, 0) != '\''
    requires Agree(e, v, i, p, since, column, s, leading, blanks, first, more)
    ensures Blanks(true, Single(e, v, i, p, allowBreaks, since) + rest, column, s, leading, blanks, first, more)
         == Got(v, rest)
    decreases |v| - i
  {
    hide Blanks, Outer, Chars, IndentText, StartsLine, BreakText, Single, SinglePiece;
    if i == |v| {
      SingleEnd(e, v, p, allowBreaks, since);
      EndReads(true, rest, column, s, leading, blanks, first, more);
    } else {
      var q, next := SinglePlace(e, v, i, p, allowBreaks, since), SingleSince(v, i, since);
      if FoldsSingle(e, v, i, p, allowBreaks, since) {
        SingleFold(e, v, i, p, allowBreaks, since, rest, column, s, leading, blanks, first, more);
        SingleReads(e, v, i + 1, q, allowBreaks, next, rest, Margin(e), s + " ", false, "", "", "");
      } else if IsSpace(v[i]) {
        SingleSpace(e, v, i, p, allowBreaks, since, rest, column, s, leading, blanks, first, more);
        SingleReads(e, v, i + 1, q, allowBreaks, next, rest, column + 1, s, false, blanks + " ", "", "");
      } else if IsBreak(v[i]) {
        var f, m := SingleBreak(e, v, i, p, allowBreaks, since, rest, column, s, leading, blanks, first, more);
        SingleReads(e, v, i + 1, q, allowBreaks, next, rest, 0, s, true, "", f, m);
      } else {
        var k := SingleChar(e, v, i, p, allowBreaks, since, rest, column, s, leading, blanks, first, more);
        SingleReads(e, v, i + 1, q, allowBreaks, next, rest, k, v[..i + 1], false, "", "", "");
      }
    }
  }

  lemma SingleEnd(e: Settings, v: string, p: Place, allowBreaks: bool, since: Since)
    ensures Single(e, v, |v|, p, allowBreaks, since) == "'"
  {
  }

  lemma SingleFold(e: Settings, v: string, i: nat, p: Place, allowBreaks: bool, since: Since,
      rest: string, column: nat, s: string, leading: bool, blanks: string, first: string, more: string)
    requires Margin(e) > 0 && Quotable(v)
    requires Agree(e, v, i, p, since, column, s, leading, blanks, first, more)
    requires i < |v| && FoldsSingle(e, v, i, p, allowBreaks, since)
    ensures var q, next := SinglePlace(e, v, i, p, allowBreaks, since), SingleSince(v, i, since);
      && Blanks(true, Single(e, v, i, p, allowBreaks, since) + rest, column, s, leading, blanks, first, more)
         == Blanks(true, Single(e, v, i + 1, q, allowBreaks, next) + rest, Margin(e), s + " ", false, "", "", "")
      && Agree(e, v, i + 1, q, next, Margin(e), s + " ", false, "", "", "")
  {
    hide Blanks, Outer, Chars, IndentText, Single;
    var q, next := SinglePlace(e, v, i, p, allowBreaks, since), SingleSince(v, i, since);
    var t := Single(e, v, i + 1, q, allowBreaks, next) + rest;
    SingleUnfolds(e, v, i, p, allowBreaks, since, rest);
    assert !leading && blanks == "" && s + "" == s == v[..i];
    assert v[..i + 1] == v[..i] + [v[i]] == s + " ";
    assert Plain(v[i + 1]);
    SingleHead(e, v, i + 1, q, allowBreaks, next, rest);
    FoldReads(true, e, p, t, column, s);
    assert s + " " + "" == s + " ";
  }

  lemma SingleSpace(e: Settings, v: string, i: nat, p: Place, allowBreaks: bool, since: Since,
      rest: string, column: nat, s: string, leading: bool, blanks: string, first: string, more: string)
    requires Quotable(v)
    requires Agree(e, v, i, p, since, column, s, leading, blanks, first, more)
    requires i < |v| && IsSpace(v[i]) && !FoldsSingle(e, v, i, p, allowBreaks, since)
    ensures var q, next := SinglePlace(e, v, i, p, allowBreaks, since), SingleSince(v, i, since);
      && Blanks(true, Single(e, v, i, p, allowBreaks, since) + rest, column, s, leading, blanks, first, more)
         == Blanks(true, Single(e, v, i + 1, q, allowBreaks, next) + rest, column + 1, s, false, blanks + " ", "", "")
      && Agree(e, v, i + 1, q, next, column + 1, s, false, blanks + " ", "", "")
  {
    hide Blanks, Outer, Chars, IndentText, Single;
    var q, next := SinglePlace(e, v, i, p, allowBreaks, since), SingleSince(v, i, since);
    var t := Single(e, v, i + 1, q, allowBreaks, next) + rest;
    SingleUnfolds(e, v, i, p, allowBreaks, since, rest);
    assert !leading;
    SpaceReads(true, t, column, s, blanks);
    assert v[..i + 1] == v[..i] + [v[i]] == s + (blanks + " ");
  }

  lemma SingleBreak(e: Settings, v: string, i: nat, p: Place, allowBreaks: bool, since: Since,
      rest: string, column: nat, s: string, leading: bool, blanks: string, first: string, more: string)
    returns (f: string, m: string)
    requires Margin(e) > 0 && Quotable(v) && At(rest, 0) != '\''
    requires Agree(e, v, i, p, since, column, s, leading, blanks, first, more)
    requires i < |v| && IsBreak(v[i])
    ensures var q, next := SinglePlace(e, v, i, p, allowBreaks, since), SingleSince(v, i, since);
      && Blanks(true, Single(e, v, i, p, allowBreaks, since) + rest, column, s, leading, blanks, first, more)
         == Blanks(true, Single(e, v, i + 1, q, allowBreaks, next) + rest, 0, s, true, "", f, m)
      && Agree(e, v, i + 1, q, next, 0, s, true, "", f, m)
  {
    hide Blanks, Outer, Chars, IndentText, Single, BreakText;
    var q, next := SinglePlace(e, v, i, p, allowBreaks, since), SingleSince(v, i, since);
    var t := Single(e, v, i + 1, q, allowBreaks, next) + rest;
    SingleUnfolds(e, v, i, p, allowBreaks, since, rest);
    assert blanks == "" && s + "" == s;
    assert v[..i + 1] == v[..i] + [v[i]];
    if e.lineBreak == CR {
      NoLineFeed(e, v, i + 1, q, allowBreaks, next, rest);
    }
    BreakPieceReads(e, v[i], t, column, s, leading, first, more);
    if leading {
      f, m := first, more + [v[i]];
    } else if v[i] == '\n' {
      f, m := "\n", "\n";
    } else {
      f, m := [v[i]], "";
    }
  }

  /** A break of the value: the first one, or one more. */
  lemma BreakPieceReads(e: Settings, c: char, t: string, column: nat, s: string, leading: bool,
                        first: string, more: string)
    requires IsBreak(c) && IsPrintable(c)
    requires e.lineBreak == CR ==> At(t, 0) != '\n'
    requires !leading ==> first == "" && more == ""
    ensures Blanks(true, BreakPiece(e, c, leading) + t, column, s, leading, "", first, more)
         == if leading then Blanks(true, t, 0, s, true, "", first, more + [c])
            else if c == '\n' then Blanks(true, t, 0, s, true, "", "\n", "\n")
            else Blanks(true, t, 0, s, true, "", [c], "")
  {
    hide Outer, Chars, BreakText;
    var b := BreakText(e.lineBreak);
    if c == '\n' && leading {
      BreakReads(true, e.lineBreak, t, column, s, "", true, first, more);
    } else if c == '\n' {
      assert BreakPiece(e, c, false) + t == b + (b + t);
      BreakHead(e, t);
      BreakReads(true, e.lineBreak, b + t, column, s, "", false, "", "");
      BreakReads(true, e.lineBreak, t, 0, s, "", true, "\n", "");
      assert "" + "\n" == "\n";
    } else {
      var u := [c] + t;
      assert At(u, 0) == c && u[1..] == t && LineText(u) == [c] && LineWidth(u) == 1;
      assert "" + [c] == [c];
    }
  }

  lemma BreakHead(e: Settings, t: string)
    ensures e.lineBreak == CR ==> At(BreakText(e.lineBreak) + t, 0) != '\n'
  {
  }

  lemma SingleChar(e: Settings, v: string, i: nat, p: Place, allowBreaks: bool, since: Since,
      rest: string, column: nat, s: string, leading: bool, blanks: string, first: string, more: string)
    returns (k: nat)
    requires Margin(e) > 0 && Quotable(v)
    requires Agree(e, v, i, p, since, column, s, leading, blanks, first, more)
    requires i < |v| && !IsSpace(v[i]) && !IsBreak(v[i])
    ensures var q, next := SinglePlace(e, v, i, p, allowBreaks, since), SingleSince(v, i, since);
      && Blanks(true, Single(e, v, i, p, allowBreaks, since) + rest, column, s, leading, blanks, first, more)
         == Blanks(true, Single(e, v, i + 1, q, allowBreaks, next) + rest, k, v[..i + 1], false, "", "", "")
      && Agree(e, v, i + 1, q, next, k, v[..i + 1], false, "", "", "")
  {
    hide Blanks, Outer, Chars, IndentText, Single;
    var q, next := SinglePlace(e, v, i, p, allowBreaks, since), SingleSince(v, i, since);
    var t := Single(e, v, i + 1, q, allowBreaks, next) + rest;
    var c := v[i];
    var w := if c == '\'' then "''" else [c];
    var u := w + t;
    SingleUnfolds(e, v, i, p, allowBreaks, since, rest);
    assert v[..i + 1] == v[..i] + "" + [c];
    var from := if leading then Margin(e) else column;
    assert At(u, 0) == c;
    if leading {
      MarginOnly(e, p);
      assert Single(e, v, i, p, allowBreaks, since) + rest == Spaces(Margin(e)) + u;
      assert column + Margin(e) > 0;
      MarginReads(true, Margin(e), u, column, s, first, more);
      from := column + Margin(e);
    } else {
      assert "" + w == w;
    }
    Settle(true, u, from, s, leading, blanks, first, more);
    if c == '\'' {
      QuotePairReads(t, from, v[..i], "");
      k := from + 2;
    } else {
      CharReads(true, c, t, from, v[..i], "");
      k := from + 1;
    }
  }

  lemma MarginOnly(e: Settings, p: Place)
    requires Margin(e) > 0 && p.column == 0 && p.indention
    ensures IndentText(e, p) == Spaces(Margin(e))
  {
  }

  /** Single quotes hold every value that they are allowed for. */
  lemma SingleQuotedRoundTrip(e: Settings, v: string, column: nat, allowBreaks: bool, rest: string)
    requires e.indent >= 1 && column >= 1
    requires SingleAllowed(e.unicode, v)
    requires At(rest, 0) != '\''
    ensures ScanQuoted(true, Single(e, v, 0, Place(column, false, false), allowBreaks, Since(false, false)) + rest,
        column)
         == Got(v, rest)
  {
    hide Single, Blanks;
    var t := Single(e, v, 0, Place(column, false, false), allowBreaks, Since(false, false)) + rest;
    assert Quotable(v) by {
      forall k | 0 <= k < |v| ensures IsPrintable(v[k]) {
        assert !Special(e.unicode, v[k]);
      }
    }
    OuterAsBlanks(true, t, column);
    SingleReads(e, v, 0, Place(column, false, false), allowBreaks, Since(false, false), rest, column, "", false, "",
        "", "");
  }

  // ----- the two together -----

  /** Without a margin a folded line may start with a document indicator, and then does not read back. */
  lemma NoMarginNoRoundTrip(e: Settings, v: string, i: nat, p: Place, rest: string, column: nat, s: string)
    requires Margin(e) == 0 && StartsLine(e, p)
    requires i < |v| && FoldsDouble(e, v, i, p, true, false) && !IsSpace(v[i + 1])
    requires DocMark(Double(e, v, i + 1, Indented(e), true, true) + rest)
    ensures Blanks(false, Double(e, v, i, p, true, false) + rest, column, s, false, "", "", "")
         == Failed(DocumentIndicator)
  {
    hide Double, Blanks, Outer, Chars, BreakText;
    var t := Double(e, v, i + 1, Indented(e), true, true) + rest;
    DoubleUnfolds(e, v, i, p, true, false, rest);
    assert DoublePiece(e, v, i, p, true, false) == BreakText(e.lineBreak);
    BreakReads(false, e.lineBreak, t, column, s, "", false, "", "");
    Settle(false, t, 0, s, true, "", "\n", "");
    MarkStops(t, s + " ");
  }

  lemma MarkStops(t: string, s: string)
    requires DocMark(t)
    ensures Outer(false, t, 0, s) == Failed(DocumentIndicator)
  {
  }

  /** One such value, on a narrow line. */
  lemma NoMarginExample(e: Settings, rest: string)
    requires e.indent <= 0 && e.bestWidth == 0
    ensures ScanQuoted(false, Double(e, "a --- b", 0, Place(1, false, false), true, false) + rest, 1)
         == Failed(DocumentIndicator)
  {
    hide Double, Blanks, Outer, Chars;
    var v := "a --- b";
    var t0 := Double(e, v, 0, Place(1, false, false), true, false) + rest;
    var t1 := Double(e, v, 1, Place(2, false, false), true, false) + rest;
    OuterAsBlanks(false, t0, 1);
    DoubleUnfolds(e, v, 0, Place(1, false, false), true, false, rest);
    CharReads(false, 'a', t1, 1, "", "");
    DashesStay(e, v, rest);
    NoMarginNoRoundTrip(e, v, 1, Place(2, false, false), rest, 2, "a");
    assert "" + "" + "a" == "a";
  }

  lemma DashesStay(e: Settings, v: string, rest: string)
    requires Margin(e) == 0 && e.bestWidth == 0 && v == "a --- b"
    ensures DocMark(Double(e, v, 2, Indented(e), true, true) + rest)
  {
    hide Double;
    var p2, p3, p4, p5 := Indented(e), Place(1, true, true), Place(2, true, true), Place(3, true, true);
    DoubleUnfolds(e, v, 2, p2, true, true, rest);
    DoubleUnfolds(e, v, 3, p3, true, false, rest);
    DoubleUnfolds(e, v, 4, p4, true, false, rest);
    FoldHead(e, v, 5, p5, rest);
    var t5 := Double(e, v, 5, p5, true, false) + rest;
    assert Double(e, v, 4, p4, true, false) + rest == "-" + t5;
    assert Double(e, v, 3, p3, true, false) + rest == "--" + t5;
    assert Double(e, v, 2, p2, true, true) + rest == "---" + t5;
    assert At("---" + t5, 3) == At(t5, 0);
  }

  lemma FoldHead(e: Settings, v: string, i: nat, p: Place, rest: string)
    requires i < |v| && FoldsDouble(e, v, i, p, true, false) && StartsLine(e, p)
    ensures IsBreak(At(Double(e, v, i, p, true, false) + rest, 0))
  {
    DoubleUnfolds(e, v, i, p, true, false, rest);
    assert IsBreak(IndentText(e, p)[0]);
  }

  /** A value in double quotes comes back. */
  ghost predicate ReadsBack(e: Settings, v: string, column: nat, allowBreaks: bool, rest: string) {
    ScanQuoted(false, Double(e, v, 0, Place(column, false, false), allowBreaks, false) + rest, column) == Got(v, rest)
  }

  /** All values come back, on lines of all widths, exactly where lines are indented. */
  lemma AlwaysReadsBackIff(style: LineBreak, indent: int, unicode: bool)
    ensures (forall width: int, v, column: nat, allowBreaks, rest ::
               column >= 1 ==> ReadsBack(Settings(style, indent, width, unicode), v, column, allowBreaks, rest))
        <==> indent >= 1
  {
    hide ScanQuoted, Double;
    if indent >= 1 {
      forall width: int, v, column: nat, allowBreaks, rest | column >= 1
        ensures ReadsBack(Settings(style, indent, width, unicode), v, column, allowBreaks, rest)
      {
        DoubleQuotedRoundTrip(Settings(style, indent, width, unicode), v, column, allowBreaks, rest);
      }
    } else {
      var e := Settings(style, indent, 0, unicode);
      NoMarginExample(e, "");
      assert !ReadsBack(e, "a --- b", 1, true, "");
    }
  }

  /** The indentation that a scalar is written with, for a stream that asks for steps of `step`. */
  function ScalarIndent(step: int, indent: int): int {
    var best := if step < 2 || step > 9 then 2 else step;
    if indent < 0 then best else indent + best
  }

  lemma ScalarsHaveMargin(step: int, indent: int)
    ensures ScalarIndent(step, indent) >= 1
  {
  }

  /** What follows the left quote when a value is written. */
  function QuotedText(e: Settings, single: bool, v: string, column: nat, allowBreaks: bool): string {
    if single then Single(e, v, 0, Place(column, false, false), allowBreaks, Since(false, false))
    else Double(e, v, 0, Place(column, false, false), allowBreaks, false)
  }

  /** Writes a value in double quotes, or in single ones if that is wanted and it may be. */
  method WriteQuoted(emitter: Emitter, value: string, wanted: bool, allowBreaks: bool) returns (single: bool)
    modifies emitter
    ensures single <==> wanted && SingleAllowed(emitter.settings.unicode, value)
    ensures var gap := if old(emitter.whitespace) then "" else " ";
      emitter.out == old(emitter.out) + gap + (if single then "'" else "\"")
                     + QuotedText(emitter.settings, single, value, old(emitter.column) + |gap| + 1, allowBreaks)
  {
    hide Double, Single, SingleAllowed, ColumnAfter;
    var multiline, singleQuotedAllowed := AnalyzeScalar(value, emitter.settings.unicode);
    single := wanted && singleQuotedAllowed;
    if single {
      emitter.WriteSingleQuoted(value, allowBreaks);
    } else {
      emitter.WriteDoubleQuoted(value, allowBreaks);
    }
  }

  lemma QuotedRoundTrip(e: Settings, single: bool, v: string, column: nat, allowBreaks: bool, rest: string)
    requires e.indent >= 1 && column >= 1
    requires single ==> SingleAllowed(e.unicode, v) && At(rest, 0) != '\''
    ensures ScanQuoted(single, QuotedText(e, single, v, column, allowBreaks) + rest, column) == Got(v, rest)
  {
    hide Double, Single, SingleAllowed, ScanQuoted;
    if single {
      SingleQuotedRoundTrip(e, v, column, allowBreaks, rest);
    } else {
      DoubleQuotedRoundTrip(e, v, column, allowBreaks, rest);
    }
  }

  /** A value written in quotes and scanned again. */
  method WriteThenScan(settings: Settings, value: string, wanted: bool, allowBreaks: bool,
                       column: nat, whitespace: bool, indention: bool, rest: string)
    returns (r: Result, after: string)
    requires settings.indent >= 1
    requires wanted && SingleAllowed(settings.unicode, value) ==> At(rest, 0) != '\''
    ensures r == Success(value) && after == rest
  {
    hide QuotedText, SingleAllowed, ScanQuoted, At;
    var emitter := new Emitter(settings, column, whitespace, indention);
    var single := WriteQuoted(emitter, value, wanted, allowBreaks);
    var from := if whitespace then 0 else 1;
    ghost var text := QuotedText(settings, single, value, column + from + 1, allowBreaks);
    QuotedRoundTrip(settings, single, value, column + from + 1, allowBreaks, rest);
    ghost var written := (if whitespace then "" else " ") + (if single then "'" else "\"") + text;
    assert emitter.out == written;
    var scanner := new Scanner(emitter.out + rest, from, column + from);
    assert scanner.Rest()[1..] == text + rest;
    r := scanner.ScanFlowScalar(single);
    after := scanner.text[scanner.pos..];
  }
}
