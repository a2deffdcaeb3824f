/** How trees of block and flow collections are laid out as lexemes, which tokens they give, and that
    the scanner of yaml.v2 gives these. */
module YamlLayout {
  import opened Options
  import opened YamlEager
  import opened YamlFetch
  import opened YamlQueue

  // ----- layouts -----

  /** Nodes have properties in front, anchors and tags; a leaf has a scalar or alias behind them, or nothing. */
  datatype Node =
    | Nothing
    | Leaf(props: seq<Lexeme>, content: Option<Lexeme>)
    | Flow(props: seq<Lexeme>, open: Lexeme, parts: seq<Part>, close: Lexeme)
    | Seq(props: seq<Lexeme>, items: seq<Item>)
    | Map(props: seq<Lexeme>, pairs: seq<Pair>)

  datatype Item = Item(dash: Lexeme, node: Node)

  /** A simple key is followed by ':'; any other one has '?' in front, and may have no value. */
  datatype Pair =
    | Simple(key: Node, colon: Lexeme, value: Node)
    | Complex(sign: Lexeme, key: Node, second: Option<Lexeme>, value: Node)

  datatype Part = Comma(lex: Lexeme) | Single(node: Node) | Of(pair: Pair)

  function Lexemes(n: Node): seq<Lexeme>
    decreases n, 2, 0
  {
    match n
    case Nothing => []
    case Leaf(props, content) => props + (if content.Some? then [content.value] else [])
    case Flow(props, open, _, close) => props + ([open] + (PartLexemes(n, 0) + [close]))
    case Seq(props, _) => props + ItemLexemes(n, 0)
    case Map(props, _) => props + PairLexemes(n, 0)
  }

  function ItemLexemes(n: Node, i: nat): seq<Lexeme>
    requires n.Seq? && i <= |n.items|
    decreases n, 1, |n.items| - i
  {
    if i == |n.items| then [] else [n.items[i].dash] + (Lexemes(n.items[i].node) + ItemLexemes(n, i + 1))
  }

  function LexemesOfPair(p: Pair): seq<Lexeme>
    decreases p, 0, 0
  {
    match p
    case Simple(key, colon, value) => Lexemes(key) + ([colon] + Lexemes(value))
    case Complex(sign, key, second, value) => [sign] + (Lexemes(key) + (OneOrNone(second) + Lexemes(value)))
  }

  function OneOrNone(x: Option<Lexeme>): seq<Lexeme> {
    if x.Some? then [x.value] else []
  }

  function PairLexemes(n: Node, i: nat): seq<Lexeme>
    requires n.Map? && i <= |n.pairs|
    decreases n, 1, |n.pairs| - i
  {
    if i == |n.pairs| then [] else LexemesOfPair(n.pairs[i]) + PairLexemes(n, i + 1)
  }

  function PartLexemes(n: Node, i: nat): seq<Lexeme>
    requires n.Flow? && i <= |n.parts|
    decreases n, 1, |n.parts| - i
  {
    if i == |n.parts| then [] else LexemesOfPart(n.parts[i]) + PartLexemes(n, i + 1)
  }

  function LexemesOfPart(p: Part): seq<Lexeme>
    decreases p, 0, 0
  {
    match p case Comma(lex) => [lex] case Single(node) => Lexemes(node) case Of(pair) => LexemesOfPair(pair)
  }

  // ----- their tokens -----

  /** Where blocks end that a node leaves open: at the lexeme that comes next, if its column is less, and
      otherwise at `last`. */
  datatype Close = Close(next: Mark, last: Mark)

  function At(m: Mark): Close {
    Close(m, m)
  }

  function MarkOf(c: Close, column: int): Mark {
    if column > c.next.column then c.next else c.last
  }

  function TokenOf(x: Lexeme): Token {
    Token(x.kind, x.mark)
  }

  function TokensOf(ls: seq<Lexeme>): seq<Token> {
    if ls == [] then [] else [TokenOf(ls[0])] + TokensOf(ls[1..])
  }

  function FirstMark(n: Node): Mark {
    if Lexemes(n) == [] then ORIGIN else Lexemes(n)[0].mark
  }

  function PairMark(p: Pair): Mark {
    if p.Simple? then FirstMark(p.key) else p.sign.mark
  }

  /** The column of a block collection. */
  function ColumnOf(n: Node): int {
    if n.Seq? && n.items != [] then n.items[0].dash.mark.column
    else if n.Map? && n.pairs != [] then PairMark(n.pairs[0]).column
    else 0
  }

  /** The tokens of a node in a block with indentation `p`. A sequence in the column of the mapping around
      it has no start and no end. */
  function Tokens(n: Node, p: int, c: Close): seq<Token>
    decreases n, 2, 0
  {
    match n
    case Nothing => []
    case Leaf(props, content) => TokensOf(props) + TokensOf(OneOrNone(content))
    case Flow(props, open, _, close) =>
      TokensOf(props) + ([TokenOf(open)] + (PartTokens(n, 0, p, c) + [TokenOf(close)]))
    case Seq(props, items) =>
      if items == [] then TokensOf(props)
      else if ColumnOf(n) <= p then TokensOf(props) + ItemTokens(n, 0, c)
      else
        TokensOf(props) + ([Token(BlockSequenceStart, items[0].dash.mark)] +
                           (ItemTokens(n, 0, c) + [Token(BlockEnd, MarkOf(c, ColumnOf(n)))]))
    case Map(props, pairs) =>
      if pairs == [] then TokensOf(props)
      else
        TokensOf(props) + ([Token(BlockMappingStart, PairMark(pairs[0]))] +
                           (PairTokens(n, 0, c) + [Token(BlockEnd, MarkOf(c, ColumnOf(n)))]))
  }

  /** Blocks in an item end at the next item, if there is one. */
  function ItemClose(n: Node, i: nat, c: Close): Close
    requires n.Seq? && i < |n.items|
  {
    if i + 1 < |n.items| then At(n.items[i + 1].dash.mark) else c
  }

  function ItemTokens(n: Node, i: nat, c: Close): seq<Token>
    requires n.Seq? && i <= |n.items|
    decreases n, 1, |n.items| - i
  {
    if i == |n.items| then []
    else
      [TokenOf(n.items[i].dash)] +
      (Tokens(n.items[i].node, ColumnOf(n), ItemClose(n, i, c)) + ItemTokens(n, i + 1, c))
  }

  function PairClose(n: Node, i: nat, c: Close): Close
    requires n.Map? && i < |n.pairs|
  {
    if i + 1 < |n.pairs| then At(PairMark(n.pairs[i + 1])) else c
  }

  /** KEY stands before a simple key, and is the '?' before another one. */
  function TokensOfPair(p: Pair, column: int, c: Close): seq<Token>
    decreases p, 0, 0
  {
    match p
    case Simple(key, colon, value) =>
      [Token(Key, FirstMark(key))] + (Tokens(key, column, c) + ([TokenOf(colon)] + Tokens(value, column, c)))
    case Complex(sign, key, second, value) =>
      [TokenOf(sign)] +
      (Tokens(key, column, if second.Some? then At(second.value.mark) else c) +
       (TokensOf(OneOrNone(second)) + Tokens(value, column, c)))
  }

  function PairTokens(n: Node, i: nat, c: Close): seq<Token>
    requires n.Map? && i <= |n.pairs|
    decreases n, 1, |n.pairs| - i
  {
    if i == |n.pairs| then [] else TokensOfPair(n.pairs[i], ColumnOf(n), PairClose(n, i, c)) + PairTokens(n, i + 1, c)
  }

  function PartTokens(n: Node, i: nat, p: int, c: Close): seq<Token>
    requires n.Flow? && i <= |n.parts|
    decreases n, 1, |n.parts| - i
  {
    if i == |n.parts| then [] else TokensOfPart(n.parts[i], p, c) + PartTokens(n, i + 1, p, c)
  }

  function TokensOfPart(x: Part, p: int, c: Close): seq<Token>
    decreases x, 0, 0
  {
    match x
    case Comma(lex) => [TokenOf(lex)]
    case Single(node) => Tokens(node, p, c)
    case Of(pair) => TokensOfPair(pair, p, c)
  }

  // ----- which layouts there are -----

  predicate IsProp(x: Lexeme) {
    x.ok && (x.kind.AnchorOrAlias? || x.kind.Tag?)
  }

  predicate AreProps(ls: seq<Lexeme>) {
    forall i :: 0 <= i < |ls| ==> IsProp(ls[i])
  }

  predicate IsContent(x: Lexeme, block: bool) {
    x.ok && (x.kind.AnchorOrAlias? || x.kind.FlowScalar? || x.kind.PlainScalar? || (block && x.kind.BlockScalar?))
  }

  /** A node in flow context, or a simple key. */
  predicate GoodInFlow(n: Node)
    decreases n, 1
  {
    match n
    case Nothing => true
    case Leaf(props, content) =>
      && AreProps(props) && (props != [] || content.Some?) && (content.Some? ==> IsContent(content.value, false))
    case Flow(props, open, parts, close) =>
      && AreProps(props) && open.kind.FlowStart? && close.kind.FlowEnd?
      && forall i :: 0 <= i < |parts| ==>
           GoodPart(parts[i]) && (parts[i].Of? && parts[i].pair.Simple? ==> i == 0 || parts[i - 1].Comma?)
    case _ => false
  }

  predicate GoodPart(p: Part)
    decreases p, 0
  {
    match p
    case Comma(lex) => lex.kind.FlowEntry?
    case Single(node) => GoodInFlow(node)
    case Of(pair) => GoodFlowPair(pair)
  }

  predicate GoodFlowPair(p: Pair)
    decreases p, 0
  {
    match p
    case Simple(key, colon, value) => GoodInFlow(key) && GoodInFlow(value) && KeyFits(key, colon)
    case Complex(sign, key, second, value) =>
      && sign.kind.Key? && GoodInFlow(key) && GoodInFlow(value) && (second.Some? ==> second.value.kind.Value?)
      && (second.None? ==> value.Nothing?)
  }

  /** A simple key is on one line with its ':', which follows within 1024 characters. */
  predicate KeyFits(key: Node, colon: Lexeme) {
    && !key.Nothing? && colon.kind.Value?
    && colon.mark.line == FirstMark(key).line && colon.mark.index <= FirstMark(key).index + 1024
  }

  /** Whether an entry of a block may start behind the node, on the line where it ends; `before`, whether
      it might in front of it. */
  predicate Free(n: Node, before: bool)
    decreases n, 1
  {
    match n
    case Nothing => before
    case Leaf(_, content) =>
      content.Some? && (content.value.kind.BlockScalar? || (content.value.kind.PlainScalar? && content.value.endsLine))
    case Flow(_, _, _, _) => false
    case Seq(_, items) => items != [] && Free(items[|items| - 1].node, true)
    case Map(_, pairs) => pairs != [] && FreePair(pairs[|pairs| - 1])
  }

  predicate FreePair(p: Pair)
    decreases p, 0
  {
    match p
    case Simple(_, _, value) => Free(value, false)
    case Complex(_, key, second, value) => if second.Some? then Free(value, true) else Free(key, true)
  }

  /** An entry that starts with `x` stands first on its line, or behind an indicator that it may follow. */
  predicate StartsEntry(x: Lexeme, free: bool) {
    x.afterBreak || free
  }

  predicate AreInside(ls: seq<Lexeme>, p: int) {
    forall i :: 0 <= i < |ls| ==> ls[i].mark.column > p
  }

  /** A node in a block with indentation `p`; `free`, whether an entry of a block may start here on the same
      line; `dense`, whether a sequence may stand in the column of the block. */
  predicate Good(n: Node, p: int, free: bool, dense: bool)
    decreases n, 1
  {
    match n
    case Nothing => true
    case Leaf(props, content) =>
      && AreProps(props) && (props != [] || content.Some?) && AreInside(props, p)
      && (content.Some? ==> IsContent(content.value, true) && content.value.mark.column > p)
    case Flow(props, open, _, _) => GoodInFlow(n) && AreInside(props, p) && open.mark.column > p
    case Seq(props, items) =>
      && AreProps(props) && AreInside(props, p) && items != [] && (ColumnOf(n) > p || (dense && ColumnOf(n) == p))
      && forall i :: 0 <= i < |items| ==>
           GoodItem(items[i], ColumnOf(n)) && StartsEntry(items[i].dash, FreeAtItem(n, i, free))
    case Map(props, pairs) =>
      && AreProps(props) && AreInside(props, p) && pairs != [] && ColumnOf(n) > p
      && forall i :: 0 <= i < |pairs| ==> GoodPair(pairs[i], ColumnOf(n), FreeAtPair(n, i, free))
  }

  predicate FreeAtItem(n: Node, i: nat, free: bool)
    requires n.Seq? && i < |n.items|
    decreases n, 0
  {
    if i == 0 then n.props == [] && free else Free(n.items[i - 1].node, true)
  }

  predicate FreeAtPair(n: Node, i: nat, free: bool)
    requires n.Map? && i < |n.pairs|
    decreases n, 0
  {
    if i == 0 then n.props == [] && free else FreePair(n.pairs[i - 1])
  }

  predicate GoodItem(x: Item, column: int)
    decreases x, 0
  {
    x.dash.kind.BlockEntry? && x.dash.mark.column == column && Good(x.node, column, true, false)
  }

  predicate GoodPair(p: Pair, column: int, free: bool)
    decreases p, 0
  {
    match p
    case Simple(key, colon, value) =>
      && GoodInFlow(key) && KeyFits(key, colon) && FirstMark(key).column == column && StartsEntry(Lexemes(key)[0], free)
      && Good(value, column, false, true)
    case Complex(sign, key, second, value) =>
      && sign.kind.Key? && sign.mark.column == column && StartsEntry(sign, free)
      && Good(key, column, true, true) && Good(value, column, true, true)
      && (second.None? ==> value.Nothing?)
      && (second.Some? ==> second.value.kind.Value? && second.value.mark.column == column
                           && StartsEntry(second.value, Free(key, true)))
  }

  // ----- runs of the scanner -----

  function FetchOne(s: Scan, x: Lexeme): Option<Scan> {
    if x.kind.StreamEnd? then None else FetchEager(s, x)
  }

  /** All of these lexemes, of which none is the end of the stream. */
  function FetchAll(s: Scan, ls: seq<Lexeme>): Option<Scan>
    decreases |ls|
  {
    if ls == [] then Some(s)
    else
      var f := FetchOne(s, ls[0]);
      if f.None? then None else FetchAll(f.value, ls[1..])
  }

  function LastEnd(m: Mark, ls: seq<Lexeme>): Mark {
    if ls == [] then m else EndOf(ls[|ls| - 1])
  }

  lemma {:induction false} FetchConcat(s: Scan, a: seq<Lexeme>, b: seq<Lexeme>)
    ensures FetchAll(s, a + b) == if FetchAll(s, a).None? then None else FetchAll(FetchAll(s, a).value, b)
    decreases |a|
  {
    if a == [] {
      assert a + b == b;
    } else {
      assert (a + b)[0] == a[0] && (a + b)[1..] == a[1..] + b;
      if FetchOne(s, a[0]).Some? { FetchConcat(FetchOne(s, a[0]).value, a[1..], b); }
    }
  }

  /** One lexeme after some others. */
  lemma Then(s: Scan, a: seq<Lexeme>, t: Scan, b: seq<Lexeme>)
    requires FetchAll(s, a) == Some(t)
    ensures FetchAll(s, a + b) == FetchAll(t, b)
  {
    FetchConcat(s, a, b);
  }

  lemma First(s: Scan, x: Lexeme, t: Scan, b: seq<Lexeme>)
    requires FetchOne(s, x) == Some(t)
    ensures FetchAll(s, [x] + b) == FetchAll(t, b) && FetchAll(s, [x]) == Some(t)
  {
    assert ([x] + b)[1..] == b && [x][1..] == [];
  }

  lemma {:induction false} OrderConcat(m: Mark, a: seq<Lexeme>, b: seq<Lexeme>)
    ensures InOrder(m, a + b) <==> InOrder(m, a) && InOrder(LastEnd(m, a), b)
    ensures LastEnd(m, a + b) == LastEnd(LastEnd(m, a), b)
    decreases |a|
  {
    if a == [] {
      assert a + b == b;
    } else {
      assert (a + b)[0] == a[0] && (a + b)[1..] == a[1..] + b;
      OrderConcat(EndOf(a[0]), a[1..], b);
    }
  }

  lemma OrderFirst(m: Mark, x: Lexeme, b: seq<Lexeme>)
    ensures InOrder(m, [x] + b) <==> IsBehind(m, x) && InOrder(EndOf(x), b)
    ensures LastEnd(m, [x] + b) == LastEnd(EndOf(x), b)
  {
    assert ([x] + b)[1..] == b;
  }

  // ----- keys at rest -----

  /** The key cannot be one any more on a later line; where another may start, it is on an earlier line. */
  predicate KeyDone(k: SimpleKey, allowed: bool, m: Mark) {
    k.possible ==> !k.required && k.mark.line <= m.line && (allowed ==> k.mark.line < m.line)
  }

  /** In block context, with no key that is required. */
  predicate IsBlock(s: Scan, m: Mark) {
    s.flow == 0 && |s.keys| == 1 && KeyDone(s.keys[0], s.allowed, m)
  }

  lemma DoneNotBroken(s: Scan, m: Mark, mark: Mark)
    requires IsBlock(s, m)
    ensures !IsBroken(s.keys, mark)
  {}

  /** After some tokens, with no block opened. */
  predicate IsAfter(s: Scan, t: Scan, toks: seq<Token>) {
    t == s.(out := s.out + toks, keys := t.keys, allowed := t.allowed)
  }

  lemma AfterBoth(s: Scan, t: Scan, u: Scan, a: seq<Token>, b: seq<Token>)
    requires IsAfter(s, t, a) && IsAfter(t, u, b)
    ensures IsAfter(s, u, a + b)
  {
    assert s.out + a + b == s.out + (a + b);
  }

  predicate IsKeyLike(x: Lexeme) {
    x.ok && (x.kind.AnchorOrAlias? || x.kind.Tag? || x.kind.FlowScalar? || x.kind.PlainScalar?)
  }

  predicate EndsLine(x: Lexeme) {
    x.kind.PlainScalar? && x.endsLine
  }

  /** A property or scalar in a block. */
  lemma KeyLikeStep(x: Lexeme, s: Scan, m: Mark) returns (t: Scan)
    requires IsBlock(s, m) && IsBehind(m, x) && x.mark.column > s.indent && IsKeyLike(x)
    ensures FetchOne(s, x) == Some(t) && IsAfter(s, t, [TokenOf(x)]) && t.allowed == EndsLine(x) && IsBlock(t, x.end)
  {
    DoneNotBroken(s, m, x.mark);
    t := FetchOne(s, x).value;
  }

  lemma BlockScalarStep(x: Lexeme, s: Scan, m: Mark) returns (t: Scan)
    requires IsBlock(s, m) && IsBehind(m, x) && x.mark.column > s.indent && x.ok && x.kind.BlockScalar?
    ensures FetchOne(s, x) == Some(t) && IsAfter(s, t, [TokenOf(x)]) && t.allowed && IsBlock(t, x.end)
  {
    DoneNotBroken(s, m, x.mark);
    t := FetchOne(s, x).value;
  }

  lemma {:induction false} PropsScan(ls: seq<Lexeme>, s: Scan, m: Mark) returns (t: Scan)
    requires AreProps(ls) && AreInside(ls, s.indent) && IsBlock(s, m) && InOrder(m, ls)
    ensures FetchAll(s, ls) == Some(t) && IsAfter(s, t, TokensOf(ls)) && IsBlock(t, LastEnd(m, ls))
    ensures t.allowed == (ls == [] && s.allowed)
    decreases |ls|
  {
    if ls == [] {
      t := s;
      assert s.out + TokensOf([]) == s.out;
    } else {
      hide FetchOne;
      var t1 := KeyLikeStep(ls[0], s, m);
      t := PropsScan(ls[1..], t1, EndOf(ls[0]));
      AfterBoth(s, t1, t, [TokenOf(ls[0])], TokensOf(ls[1..]));
    }
  }

  lemma ContentScans(content: Option<Lexeme>, s: Scan, m: Mark) returns (t: Scan)
    requires IsBlock(s, m) && InOrder(m, OneOrNone(content))
    requires content.Some? ==> IsContent(content.value, true) && content.value.mark.column > s.indent
    ensures FetchAll(s, OneOrNone(content)) == Some(t) && IsAfter(s, t, TokensOf(OneOrNone(content)))
    ensures IsBlock(t, LastEnd(m, OneOrNone(content)))
    ensures t.allowed == if content.None? then s.allowed else content.value.kind.BlockScalar? || EndsLine(content.value)
  {
    if content.None? {
      t := s;
      assert s.out + TokensOf([]) == s.out;
    } else {
      hide FetchOne;
      var x := content.value;
      assert IsBehind(m, x);
      if x.kind.BlockScalar? { t := BlockScalarStep(x, s, m); } else { t := KeyLikeStep(x, s, m); }
      First(s, x, t, []);
      assert [x][1..] == [] && TokensOf([x]) == [TokenOf(x)];
    }
  }

  lemma LeafScans(n: Node, s: Scan, m: Mark) returns (t: Scan)
    requires n.Leaf? && Good(n, s.indent, s.allowed, false) && IsBlock(s, m) && InOrder(m, Lexemes(n))
    ensures FetchAll(s, Lexemes(n)) == Some(t) && IsBlock(t, LastEnd(m, Lexemes(n))) && t.allowed == Free(n, s.allowed)
    ensures forall p, c :: IsAfter(s, t, Tokens(n, p, c))
  {
    hide FetchAll, IsAfter, IsBlock, InOrder, TokensOf;
    OrderConcat(m, n.props, OneOrNone(n.content));
    var t1 := PropsScan(n.props, s, m);
    AfterIsSame(s, t1, TokensOf(n.props));
    t := ContentScans(n.content, t1, LastEnd(m, n.props));
    AfterBoth(s, t1, t, TokensOf(n.props), TokensOf(OneOrNone(n.content)));
    Then(s, n.props, t1, OneOrNone(n.content));
  }

  lemma AfterIsSame(s: Scan, t: Scan, toks: seq<Token>)
    requires IsAfter(s, t, toks)
    ensures t.indent == s.indent && t.indents == s.indents && t.flow == s.flow && t.out == s.out + toks
  {}

  // ----- flow context, and simple keys -----

  /** No required key goes stale before one of these lexemes. */
  ghost predicate Calm(ks: seq<SimpleKey>, ls: seq<Lexeme>) {
    forall i {:trigger ls[i]} :: 0 <= i < |ls| ==> !IsBroken(ks, ls[i].mark)
  }

  lemma CalmBoth(ks: seq<SimpleKey>, a: seq<Lexeme>, b: seq<Lexeme>)
    ensures Calm(ks, a + b) <==> Calm(ks, a) && Calm(ks, b)
  {
    if Calm(ks, a + b) {
      assert forall i {:trigger a[i]} :: 0 <= i < |a| ==> (a + b)[i] == a[i];
      assert forall i {:trigger b[i]} :: 0 <= i < |b| ==> (a + b)[|a| + i] == b[i];
    }
  }

  lemma BrokenLast(ks: seq<SimpleKey>, k: SimpleKey, mark: Mark)
    requires ks != [] && !IsBroken(ks, mark) && !(k.required && IsStale(k, mark))
    ensures !IsBroken(ks[|ks| - 1 := k], mark)
  {
    var ds := ks[|ks| - 1 := k];
    forall i | 0 <= i < |ds|
      ensures !(ds[i].required && IsStale(ds[i], mark))
    {
      if i < |ks| - 1 { assert ds[i] == ks[i]; }
    }
  }

  lemma CalmLast(ks: seq<SimpleKey>, k: SimpleKey, ls: seq<Lexeme>)
    requires ks != [] && Calm(ks, ls)
    requires forall i {:trigger ls[i]} :: 0 <= i < |ls| ==> !(k.required && IsStale(k, ls[i].mark))
    ensures Calm(ks[|ks| - 1 := k], ls)
  {
    hide IsBroken, IsStale;
    forall i | 0 <= i < |ls|
      ensures !IsBroken(ks[|ks| - 1 := k], ls[i].mark)
    {
      BrokenLast(ks, k, ls[i].mark);
    }
  }

  lemma CalmInner(ks: seq<SimpleKey>, ls: seq<Lexeme>)
    requires Calm(ks, ls)
    ensures Calm(ks + [NO_KEY], ls)
  {
    forall i | 0 <= i < |ls|
      ensures !IsBroken(ks + [NO_KEY], ls[i].mark)
    {
      var ds := ks + [NO_KEY];
      forall j | 0 <= j < |ds|
        ensures !(ds[j].required && IsStale(ds[j], ls[i].mark))
      {
        if j < |ks| { assert ds[j] == ks[j] && !IsBroken(ks, ls[i].mark); }
      }
    }
  }

  /** A line of text in block context that goes on: no block ends, and no new line starts. */
  predicate GoesOnLine(s: Scan, x: Lexeme) {
    s.flow > 0 || (s.indent <= x.mark.column && (x.afterBreak ==> s.allowed))
  }

  /** The last key, once one may have been remembered at this mark. */
  function KeyAt(s: Scan, mark: Mark): SimpleKey {
    if s.allowed then KeyHere(s, mark) else LastKey(s)
  }

  /** After some tokens in line, with this last key. */
  predicate IsInLine(s: Scan, t: Scan, toks: seq<Token>, k: SimpleKey) {
    s.keys != [] && t == s.(out := s.out + toks, keys := s.keys[|s.keys| - 1 := k], allowed := t.allowed)
  }

  predicate Removable(k: SimpleKey) {
    !(k.possible && k.required)
  }

  lemma LineBoth(s: Scan, t: Scan, u: Scan, a: seq<Token>, b: seq<Token>, k: SimpleKey, l: SimpleKey)
    requires IsInLine(s, t, a, k) && IsInLine(t, u, b, l)
    ensures IsInLine(s, u, a + b, l)
  {
    assert s.out + a + b == s.out + (a + b);
    assert s.keys[|s.keys| - 1 := k][|s.keys| - 1 := l] == s.keys[|s.keys| - 1 := l];
  }

  /** A property or scalar in line. */
  lemma LineStep(x: Lexeme, s: Scan) returns (t: Scan)
    requires GoesOnLine(s, x) && s.keys != [] && (s.allowed ==> Removable(LastKey(s)))
    requires !IsBroken(s.keys, x.mark) && IsKeyLike(x)
    ensures FetchOne(s, x) == Some(t) && IsInLine(s, t, [TokenOf(x)], KeyAt(s, x.mark)) && t.allowed == EndsLine(x)
  {
    t := FetchOne(s, x).value;
    assert s.keys[|s.keys| - 1 := LastKey(s)] == s.keys;
  }

  /** The lexemes of a simple key that starts at `start`, or any in flow context: no key that is required
      goes stale. */
  ghost predicate InLine(s: Scan, ls: seq<Lexeme>, start: Mark) {
    && s.keys != [] && (s.allowed ==> Removable(LastKey(s))) && Calm(s.keys, ls)
    && (s.flow == 0 ==>
          && (ls != [] && s.allowed ==> ls[0].mark == start)
          && forall i {:trigger ls[i]} :: 0 <= i < |ls| ==>
               && s.indent <= ls[i].mark.column && (ls[i].afterBreak ==> i == 0 && s.allowed)
               && ls[i].mark.line == start.line && ls[i].mark.index <= start.index + MAX_KEY_LENGTH)
  }

  lemma InLineFirst(s: Scan, ls: seq<Lexeme>, start: Mark)
    requires InLine(s, ls, start) && ls != []
    ensures GoesOnLine(s, ls[0]) && !IsBroken(s.keys, ls[0].mark)
  {}

  /** After the first ones the others are still in line. */
  lemma StillInLine(s: Scan, a: seq<Lexeme>, b: seq<Lexeme>, start: Mark, t: Scan, toks: seq<Token>)
    requires a != [] && InLine(s, a + b, start) && IsInLine(s, t, toks, KeyAt(s, a[0].mark))
    requires !t.allowed
    ensures InLine(t, b, start)
  {
    var k, ls := KeyAt(s, a[0].mark), a + b;
    CalmBoth(s.keys, a, b);
    assert ls[0] == a[0];
    assert forall i {:trigger b[i]} :: 0 <= i < |b| ==> b[i] == ls[|a| + i];
    forall i | 0 <= i < |b|
      ensures !(k.required && IsStale(k, b[i].mark))
    {
      assert !IsBroken(s.keys, b[i].mark);
      if !s.allowed { assert s.keys[|s.keys| - 1] == k; }
    }
    CalmLast(s.keys, k, b);
  }

  lemma {:induction false} FlatProps(ls: seq<Lexeme>, s: Scan, start: Mark) returns (t: Scan)
    requires AreProps(ls) && ls != [] && InLine(s, ls, start)
    ensures FetchAll(s, ls) == Some(t) && IsInLine(s, t, TokensOf(ls), KeyAt(s, ls[0].mark)) && !t.allowed
    decreases |ls|
  {
    hide FetchOne, IsBroken;
    InLineFirst(s, ls, start);
    var x, more := ls[0], ls[1..];
    t := LineStep(x, s);
    assert ls == [x] + more;
    First(s, x, t, more);
    assert TokensOf(ls) == [TokenOf(x)] + TokensOf(more);
    if more == [] {
      assert [TokenOf(x)] + TokensOf(more) == [TokenOf(x)];
    } else {
      var t1 := t;
      StillInLine(s, [x], more, start, t1, [TokenOf(x)]);
      t := FlatProps(more, t1, start);
      LineBoth(s, t1, t, [TokenOf(x)], TokensOf(more), KeyAt(s, x.mark), KeyAt(t1, more[0].mark));
    }
  }

  lemma NothingInLine(s: Scan)
    requires s.keys != []
    ensures IsInLine(s, s, [], LastKey(s)) && FetchAll(s, []) == Some(s)
  {
    assert s.keys[|s.keys| - 1 := LastKey(s)] == s.keys && s.out + [] == s.out;
  }

  /** A list of properties that may be empty, and what comes behind it. */
  lemma PropsInLine(ls: seq<Lexeme>, s: Scan, more: seq<Lexeme>, start: Mark) returns (t: Scan)
    requires AreProps(ls) && more != [] && InLine(s, ls + more, start)
    ensures FetchAll(s, ls) == Some(t)
    ensures IsInLine(s, t, TokensOf(ls), if ls == [] then LastKey(s) else KeyAt(s, (ls + more)[0].mark))
    ensures InLine(t, more, start) && KeyAt(t, more[0].mark) == KeyAt(s, (ls + more)[0].mark)
  {
    if ls == [] {
      t := s;
      assert ls + more == more;
      NothingInLine(s);
    } else {
      PrefixInLine(s, ls, more, start);
      t := FlatProps(ls, s, start);
      StillInLine(s, ls, more, start, t, TokensOf(ls));
    }
  }

  lemma PrefixInLine(s: Scan, a: seq<Lexeme>, b: seq<Lexeme>, start: Mark)
    requires InLine(s, a + b, start) && a != []
    ensures InLine(s, a, start)
  {
    CalmBoth(s.keys, a, b);
    assert forall i {:trigger a[i]} :: 0 <= i < |a| ==> a[i] == (a + b)[i];
  }

  lemma FlatLeaf(n: Node, s: Scan, start: Mark, p: int, c: Close) returns (t: Scan)
    requires n.Leaf? && GoodInFlow(n) && InLine(s, Lexemes(n), start)
    ensures FetchAll(s, Lexemes(n)) == Some(t) && IsInLine(s, t, Tokens(n, p, c), KeyAt(s, FirstMark(n)))
  {
    hide FetchOne, InLine, KeyAt, IsInLine, TokensOf;
    if n.content.None? {
      assert Lexemes(n) == n.props;
      t := FlatProps(n.props, s, start);
      NoTokens();
      assert Tokens(n, p, c) == TokensOf(n.props);
    } else {
      var x := n.content.value;
      var t1 := PropsInLine(n.props, s, [x], start);
      InLineFirst(t1, [x], start);
      LineKeys(t1, [x], start);
      t := LineStep(x, t1);
      First(t1, x, t, []);
      Then(s, n.props, t1, [x]);
      OneToken(x);
      LineBoth(s, t1, t, TokensOf(n.props), [TokenOf(x)],
          if n.props == [] then LastKey(s) else KeyAt(s, (n.props + [x])[0].mark), KeyAt(t1, x.mark));
    }
  }

  lemma NoTokens()
    ensures TokensOf([]) == []
  {}

  lemma OneToken(x: Lexeme)
    ensures TokensOf([x]) == [TokenOf(x)]
  {}

  lemma LineKeys(s: Scan, ls: seq<Lexeme>, start: Mark)
    requires InLine(s, ls, start)
    ensures s.keys != [] && (s.allowed ==> Removable(LastKey(s)))
  {}

  // ----- flow collections -----

  /** In flow context, with no required key at this level. */
  ghost predicate InFlow(s: Scan, ls: seq<Lexeme>) {
    s.flow > 0 && |s.keys| > 1 && !LastKey(s).required && Calm(s.keys, ls)
  }

  lemma FlowIsLine(s: Scan, ls: seq<Lexeme>, start: Mark)
    requires InFlow(s, ls)
    ensures InLine(s, ls, start)
  {}

  lemma FlowPrefix(s: Scan, a: seq<Lexeme>, b: seq<Lexeme>)
    requires InFlow(s, a + b)
    ensures InFlow(s, a) && InFlow(s, b)
  {
    CalmBoth(s.keys, a, b);
  }

  lemma FlowStill(s: Scan, ls: seq<Lexeme>, t: Scan, toks: seq<Token>, k: SimpleKey)
    requires InFlow(s, ls) && IsInLine(s, t, toks, k) && !k.required
    ensures InFlow(t, ls)
  {
    CalmLast(s.keys, k, ls);
  }

  lemma FlowFirst(s: Scan, x: Lexeme, b: seq<Lexeme>)
    requires InFlow(s, [x] + b)
    ensures !IsBroken(s.keys, x.mark) && InFlow(s, b)
  {
    FlowPrefix(s, [x], b);
    assert [x][0] == x;
  }

  lemma OpenStep(x: Lexeme, s: Scan) returns (t: Scan)
    requires GoesOnLine(s, x) && s.keys != [] && (s.allowed ==> Removable(LastKey(s)))
    requires !IsBroken(s.keys, x.mark) && x.kind.FlowStart?
    ensures FetchOne(s, x) == Some(t)
    ensures t == Scan(s.out + [TokenOf(x)], s.keys[|s.keys| - 1 := KeyAt(s, x.mark)] + [NO_KEY], true, s.flow + 1,
                      s.indent, s.indents)
  {
    t := FetchOne(s, x).value;
    assert s.keys[|s.keys| - 1 := LastKey(s)] == s.keys;
  }

  lemma CloseStep(x: Lexeme, s: Scan) returns (t: Scan)
    requires s.flow > 0 && s.keys != [] && !LastKey(s).required && !IsBroken(s.keys, x.mark) && x.kind.FlowEnd?
    ensures FetchOne(s, x) == Some(t)
    ensures t == s.(out := s.out + [TokenOf(x)], keys := s.keys[..|s.keys| - 1], flow := s.flow - 1, allowed := false)
  {
    t := FetchOne(s, x).value;
  }

  lemma CommaStep(x: Lexeme, s: Scan) returns (t: Scan)
    requires s.flow > 0 && s.keys != [] && !LastKey(s).required && !IsBroken(s.keys, x.mark) && x.kind.FlowEntry?
    ensures FetchOne(s, x) == Some(t) && t.allowed
    ensures IsInLine(s, t, [TokenOf(x)], LastKey(s).(possible := false))
  {
    t := FetchOne(s, x).value;
  }

  /** '?' in flow context. */
  lemma SignStep(x: Lexeme, s: Scan) returns (t: Scan)
    requires s.flow > 0 && s.keys != [] && !LastKey(s).required && !IsBroken(s.keys, x.mark) && x.kind.Key?
    ensures FetchOne(s, x) == Some(t) && !t.allowed
    ensures IsInLine(s, t, [TokenOf(x)], LastKey(s).(possible := false))
  {
    t := FetchOne(s, x).value;
  }

  /** ':' after a key with '?' in flow context. */
  lemma SecondStep(x: Lexeme, s: Scan) returns (t: Scan)
    requires s.flow > 0 && s.keys != [] && !LastKey(s).possible && !IsBroken(s.keys, x.mark) && x.kind.Value?
    ensures FetchOne(s, x) == Some(t) && !t.allowed && IsInLine(s, t, [TokenOf(x)], LastKey(s))
  {
    t := FetchOne(s, x).value;
    assert s.keys[|s.keys| - 1 := LastKey(s)] == s.keys;
  }

  /** ':' after a simple key in flow context. */
  lemma ColonStep(x: Lexeme, s: Scan, n: nat, toks: seq<Token>) returns (t: Scan)
    requires s.flow > 0 && s.keys != [] && !IsBroken(s.keys, x.mark) && x.kind.Value? && IsLive(LastKey(s), x.mark)
    requires LastKey(s).number == n <= |s.out| && toks == s.out[n..]
    ensures FetchOne(s, x) == Some(t) && !t.allowed
    ensures t == s.(out := s.out[..n] + ([Token(Key, LastKey(s).mark)] + (toks + [TokenOf(x)])),
                    keys := s.keys[|s.keys| - 1 := LastKey(s).(possible := false)], allowed := false)
  {
    t := FetchOne(s, x).value;
  }

  /** A node in flow context, or a simple key. */
  lemma {:induction false} FlatScans(n: Node, s: Scan, start: Mark, p: int, c: Close) returns (t: Scan)
    requires GoodInFlow(n) && InLine(s, Lexemes(n), start)
    ensures FetchAll(s, Lexemes(n)) == Some(t)
    ensures IsInLine(s, t, Tokens(n, p, c), if n.Nothing? then LastKey(s) else KeyAt(s, FirstMark(n)))
    ensures n.Nothing? ==> t == s
    decreases n, 3
  {
    match n
    case Nothing =>
      t := s;
      NothingInLine(s);
    case Leaf(_, _) => t := FlatLeaf(n, s, start, p, c);
    case Flow(_, _, _, _) => t := FlowScans(n, s, start, p, c);
  }

  lemma {:induction false} FlowScans(n: Node, s: Scan, start: Mark, p: int, c: Close) returns (t: Scan)
    requires n.Flow? && GoodInFlow(n) && InLine(s, Lexemes(n), start)
    ensures FetchAll(s, Lexemes(n)) == Some(t) && !t.allowed
    ensures IsInLine(s, t, Tokens(n, p, c), KeyAt(s, FirstMark(n)))
    decreases n, 2
  {
    hide FetchOne, InLine, KeyAt, IsInLine, TokensOf, PartLexemes, PartTokens;
    var x, inner := n.open, PartLexemes(n, 0) + [n.close];
    var t1 := PropsInLine(n.props, s, [x] + inner, start);
    FlowProps(n);
    assert ([x] + inner)[0] == x && Lexemes(n) == n.props + ([x] + inner);
    InLineFirst(t1, [x] + inner, start);
    LineKeys(t1, [x] + inner, start);
    var t2 := OpenStep(x, t1);
    OpensFlow(t1, x, inner, start, t2);
    var t3 := FlowBody(n, t2, p, c);
    First(t1, x, t2, inner);
    Then(s, n.props, t1, [x] + inner);
    t := t3;
    ClosesFlow(t1, t, x, KeyAt(t1, x.mark), PartTokens(n, 0, p, c) + [TokenOf(n.close)], t2);
    LineBoth(s, t1, t, TokensOf(n.props), [TokenOf(x)] + (PartTokens(n, 0, p, c) + [TokenOf(n.close)]),
        if n.props == [] then LastKey(s) else KeyAt(s, FirstMark(n)), KeyAt(t1, x.mark));
  }

  lemma FlowProps(n: Node)
    requires n.Flow? && GoodInFlow(n)
    ensures AreProps(n.props)
  {}

  /** Behind the first bracket. */
  lemma OpensFlow(s: Scan, x: Lexeme, inner: seq<Lexeme>, start: Mark, t: Scan)
    requires InLine(s, [x] + inner, start) && x.kind.FlowStart?
    requires t == Scan(s.out + [TokenOf(x)], s.keys[|s.keys| - 1 := KeyAt(s, x.mark)] + [NO_KEY], true, s.flow + 1,
                       s.indent, s.indents)
    ensures InFlow(t, inner) && t.allowed
  {
    var k := KeyAt(s, x.mark);
    assert ([x] + inner)[0] == x;
    CalmBoth(s.keys, [x], inner);
    assert forall i {:trigger inner[i]} :: 0 <= i < |inner| ==> inner[i] == ([x] + inner)[i + 1];
    forall i | 0 <= i < |inner|
      ensures !(k.required && IsStale(k, inner[i].mark))
    {
      assert !IsBroken(s.keys, inner[i].mark);
      if !s.allowed { assert s.keys[|s.keys| - 1] == k; }
    }
    CalmLast(s.keys, k, inner);
    CalmInner(s.keys[|s.keys| - 1 := k], inner);
  }

  /** Behind the last one the outer level is as it was. */
  lemma ClosesFlow(s: Scan, t: Scan, x: Lexeme, k: SimpleKey, toks: seq<Token>, t2: Scan)
    requires s.keys != []
    requires t2 == Scan(s.out + [TokenOf(x)], s.keys[|s.keys| - 1 := k] + [NO_KEY], true, s.flow + 1, s.indent,
        s.indents)
    requires t == t2.(out := t2.out + toks, keys := t2.keys[..|t2.keys| - 1], flow := t2.flow - 1, allowed := false)
    ensures IsInLine(s, t, [TokenOf(x)] + toks, k)
  {
    assert t.keys == s.keys[|s.keys| - 1 := k];
    assert s.out + [TokenOf(x)] + toks == s.out + ([TokenOf(x)] + toks);
  }

  /** What is between the brackets, and the last one. */
  lemma {:induction false} FlowBody(n: Node, s: Scan, p: int, c: Close) returns (t: Scan)
    requires n.Flow? && GoodInFlow(n) && InFlow(s, PartLexemes(n, 0) + [n.close]) && s.allowed
    ensures FetchAll(s, PartLexemes(n, 0) + [n.close]) == Some(t)
    ensures t == s.(out := s.out + (PartTokens(n, 0, p, c) + [TokenOf(n.close)]), keys := s.keys[..|s.keys| - 1],
                    flow := s.flow - 1, allowed := false)
    decreases n, 1, |n.parts| + 1
  {
    hide FetchOne, PartLexemes, PartTokens, TokensOf;
    FlowPrefix(s, PartLexemes(n, 0), [n.close]);
    var t1 := PartsScan(n, 0, s, p, c);
    FlowStill(s, [n.close], t1, PartTokens(n, 0, p, c), LastKey(t1));
    assert [n.close][0] == n.close;
    t := CloseStep(n.close, t1);
    First(t1, n.close, t, []);
    Then(s, PartLexemes(n, 0), t1, [n.close]);
    assert s.out + PartTokens(n, 0, p, c) + [TokenOf(n.close)] == s.out + (PartTokens(n, 0, p, c) + [TokenOf(n.close)]);
    assert t1.keys[..|t1.keys| - 1] == s.keys[..|s.keys| - 1];
  }

  lemma {:induction false} PartsScan(n: Node, i: nat, s: Scan, p: int, c: Close) returns (t: Scan)
    requires n.Flow? && GoodInFlow(n) && i <= |n.parts| && InFlow(s, PartLexemes(n, i))
    requires i == 0 || n.parts[i - 1].Comma? ==> s.allowed
    ensures FetchAll(s, PartLexemes(n, i)) == Some(t) && !LastKey(t).required
    ensures IsInLine(s, t, PartTokens(n, i, p, c), LastKey(t))
    decreases n, 1, |n.parts| - i
  {
    hide FetchOne, LexemesOfPart, TokensOfPart, IsInLine, FetchAll;
    if i == |n.parts| {
      t := s;
      NothingInLine(s);
    } else {
      var x, more := n.parts[i], PartLexemes(n, i + 1);
      PartIsGood(n, i);
      FlowPrefix(s, LexemesOfPart(x), more);
      var t1 := PartScans(x, s, p, c);
      FlowStill(s, more, t1, TokensOfPart(x, p, c), LastKey(t1));
      t := PartsScan(n, i + 1, t1, p, c);
      Then(s, LexemesOfPart(x), t1, more);
      LineBoth(s, t1, t, TokensOfPart(x, p, c), PartTokens(n, i + 1, p, c), LastKey(t1), LastKey(t));
    }
  }

  lemma PartIsGood(n: Node, i: nat)
    requires n.Flow? && GoodInFlow(n) && i < |n.parts|
    ensures GoodPart(n.parts[i]) && (n.parts[i].Of? && n.parts[i].pair.Simple? ==> i == 0 || n.parts[i - 1].Comma?)
  {}

  lemma {:induction false} PartScans(x: Part, s: Scan, p: int, c: Close) returns (t: Scan)
    requires GoodPart(x) && InFlow(s, LexemesOfPart(x)) && (x.Of? && x.pair.Simple? ==> s.allowed)
    ensures FetchAll(s, LexemesOfPart(x)) == Some(t) && !LastKey(t).required && (x.Comma? ==> t.allowed)
    ensures IsInLine(s, t, TokensOfPart(x, p, c), LastKey(t))
    decreases x, 1
  {
    hide FetchOne, FetchAll, Lexemes, LexemesOfPair, Tokens, TokensOfPair;
    match x
    case Comma(lex) =>
      assert [lex] == [lex] + [];
      FlowFirst(s, lex, []);
      t := CommaStep(lex, s);
      First(s, lex, t, []);
    case Single(node) =>
      FlowIsLine(s, Lexemes(node), FirstMark(node));
      t := FlatScans(node, s, FirstMark(node), p, c);
    case Of(pair) =>
      t := FlowPairScans(pair, s, p, c);
  }

  lemma {:induction false} FlowPairScans(pr: Pair, s: Scan, p: int, c: Close) returns (t: Scan)
    requires GoodFlowPair(pr) && InFlow(s, LexemesOfPair(pr)) && (pr.Simple? ==> s.allowed)
    ensures FetchAll(s, LexemesOfPair(pr)) == Some(t) && !LastKey(t).required
    ensures IsInLine(s, t, TokensOfPair(pr, p, c), LastKey(t))
    decreases pr, 1
  {
    match pr
    case Simple(_, _, _) => t := FlowSimpleScans(pr, s, p, c);
    case Complex(_, _, _, _) => t := FlowComplexScans(pr, s, p, c);
  }

  lemma {:induction false} FlowSimpleScans(pr: Pair, s: Scan, p: int, c: Close) returns (t: Scan)
    requires pr.Simple? && GoodFlowPair(pr) && InFlow(s, LexemesOfPair(pr)) && s.allowed
    ensures FetchAll(s, LexemesOfPair(pr)) == Some(t) && !LastKey(t).required
    ensures IsInLine(s, t, TokensOfPair(pr, p, c), LastKey(t))
    decreases pr, 0
  {
    hide FetchOne, FetchAll, Lexemes, Tokens, GoodInFlow, Calm, FirstMark;
    var key, x, value := pr.key, pr.colon, pr.value;
    var rest := [x] + Lexemes(value);
    FlowPrefix(s, Lexemes(key), rest);
    FlowIsLine(s, Lexemes(key), FirstMark(key));
    var t1 := FlatScans(key, s, FirstMark(key), p, c);
    FlowStill(s, rest, t1, Tokens(key, p, c), LastKey(t1));
    FlowFirst(t1, x, Lexemes(value));
    assert t1.out[|s.out|..] == Tokens(key, p, c) && t1.out[..|s.out|] == s.out;
    var t2 := ColonStep(x, t1, |s.out|, Tokens(key, p, c));
    ColonInLine(s, t1, t2, Tokens(key, p, c), x);
    FlowPrefix(s, [x], Lexemes(value));
    FlowStill(s, Lexemes(value), t2, [Token(Key, FirstMark(key))] + (Tokens(key, p, c) + [TokenOf(x)]), LastKey(t2));
    FlowIsLine(t2, Lexemes(value), FirstMark(value));
    t := FlatScans(value, t2, FirstMark(value), p, c);
    First(t1, x, t2, Lexemes(value));
    Then(s, Lexemes(key), t1, rest);
    LineBoth(s, t2, t, [Token(Key, FirstMark(key))] + (Tokens(key, p, c) + [TokenOf(x)]), Tokens(value, p, c),
        LastKey(t2),
        LastKey(t));
    assert TokensOfPair(pr, p, c) == ([Token(Key, FirstMark(key))] + (Tokens(key, p, c) + [TokenOf(x)]))
        + Tokens(value, p, c);
  }

  lemma ColonInLine(s: Scan, t1: Scan, t2: Scan, toks: seq<Token>, x: Lexeme)
    requires s.keys != [] && IsInLine(s, t1, toks, LastKey(t1))
    requires t2 == t1.(out := s.out + ([Token(Key, LastKey(t1).mark)] + (toks + [TokenOf(x)])),
                       keys := t1.keys[|t1.keys| - 1 := LastKey(t1).(possible := false)], allowed := false)
    ensures IsInLine(s, t2, [Token(Key, LastKey(t1).mark)] + (toks + [TokenOf(x)]), LastKey(t2))
    ensures LastKey(t2) == LastKey(t1).(possible := false)
  {
    assert t2.keys == s.keys[|s.keys| - 1 := LastKey(t1).(possible := false)];
  }

  lemma {:induction false} FlowComplexScans(pr: Pair, s: Scan, p: int, c: Close) returns (t: Scan)
    requires pr.Complex? && GoodFlowPair(pr) && InFlow(s, LexemesOfPair(pr))
    ensures FetchAll(s, LexemesOfPair(pr)) == Some(t) && !LastKey(t).required
    ensures IsInLine(s, t, TokensOfPair(pr, p, c), LastKey(t))
    decreases pr, 0
  {
    hide FetchOne, FetchAll, Lexemes, Tokens, GoodInFlow, Calm, FirstMark, IsInLine, TokensOf;
    var x, key, second, value := pr.sign, pr.key, pr.second, pr.value;
    var behind := OneOrNone(second) + Lexemes(value);
    var rest := Lexemes(key) + behind;
    FlowFirst(s, x, rest);
    var t1 := SignStep(x, s);
    FlowStill(s, rest, t1, [TokenOf(x)], LastKey(s).(possible := false));
    LastOf(s, t1, [TokenOf(x)], LastKey(s).(possible := false));
    var c1 := if second.Some? then At(second.value.mark) else c;
    FlowPrefix(t1, Lexemes(key), behind);
    FlowIsLine(t1, Lexemes(key), FirstMark(key));
    var t2 := FlatScans(key, t1, FirstMark(key), p, c1);
    FlowStill(t1, behind, t2, Tokens(key, p, c1), LastKey(t1));
    LastOf(t1, t2, Tokens(key, p, c1), LastKey(t1));
    FlowPrefix(t2, OneOrNone(second), Lexemes(value));
    var t3 := SecondInLine(second, t2);
    FlowStill(t2, Lexemes(value), t3, TokensOf(OneOrNone(second)), LastKey(t2));
    LastOf(t2, t3, TokensOf(OneOrNone(second)), LastKey(t2));
    FlowIsLine(t3, Lexemes(value), FirstMark(value));
    t := FlatScans(value, t3, FirstMark(value), p, c);
    var k := if value.Nothing? then LastKey(t3) else KeyAt(t3, FirstMark(value));
    LastOf(t3, t, Tokens(value, p, c), k);
    Then(t2, OneOrNone(second), t3, Lexemes(value));
    Then(t1, Lexemes(key), t2, behind);
    First(s, x, t1, rest);
    LineBoth(t2, t3, t, TokensOf(OneOrNone(second)), Tokens(value, p, c), LastKey(t2), k);
    LineBoth(t1, t2, t, Tokens(key, p, c1), TokensOf(OneOrNone(second)) + Tokens(value, p, c), LastKey(t1), k);
    LineBoth(s, t1, t, [TokenOf(x)], Tokens(key, p, c1) + (TokensOf(OneOrNone(second)) + Tokens(value, p, c)),
        LastKey(s).(possible := false), k);
    FlowKeyFree(t3, value);
  }

  lemma LastOf(s: Scan, t: Scan, toks: seq<Token>, k: SimpleKey)
    requires IsInLine(s, t, toks, k)
    ensures LastKey(t) == k && t.keys != [] && t.flow == s.flow && |t.keys| == |s.keys|
  {}

  lemma FlowKeyFree(s: Scan, n: Node)
    requires s.flow > 0 && !LastKey(s).required
    ensures !(if n.Nothing? then LastKey(s) else KeyAt(s, FirstMark(n))).required
  {}

  lemma SecondInLine(second: Option<Lexeme>, s: Scan) returns (t: Scan)
    requires InFlow(s, OneOrNone(second)) && !LastKey(s).possible && (second.Some? ==> second.value.kind.Value?)
    ensures FetchAll(s, OneOrNone(second)) == Some(t) && IsInLine(s, t, TokensOf(OneOrNone(second)), LastKey(s))
  {
    hide FetchOne, FetchAll;
    if second.None? {
      t := s;
      NoTokens();
      NothingInLine(s);
    } else {
      var x := second.value;
      assert [x] == [x] + [];
      FlowFirst(s, x, []);
      t := SecondStep(x, s);
      First(s, x, t, []);
      OneToken(x);
    }
  }

  // ----- blocks that are left open -----

  /** All blocks deeper than `p` end. */
  function Shut(s: Scan, p: int, c: Close): Scan
    decreases |s.indents|
  {
    if s.indent <= p || s.indents == [] then s else Shut(Closed(s, MarkOf(c, s.indent)), p, c)
  }

  lemma {:induction false} ShutUnrolled(s: Scan, p: int, m: Mark)
    requires s.flow == 0
    ensures Unrolled(s, p, m) == Shut(s, p, At(m))
    decreases |s.indents|
  {
    if s.indent > p && s.indents != [] { ShutUnrolled(Closed(s, m), p, m); }
  }

  lemma {:induction false} ShutTwice(s: Scan, a: int, b: int, c: Close)
    requires b <= a
    ensures Shut(Shut(s, a, c), b, c) == Shut(s, b, c)
    decreases |s.indents|
  {
    if s.indent > a && s.indents != [] { ShutTwice(Closed(s, MarkOf(c, s.indent)), a, b, c); }
  }

  lemma {:induction false} ShutAllowed(s: Scan, p: int, c: Close, allowed: bool)
    ensures Shut(s.(allowed := allowed), p, c) == Shut(s, p, c).(allowed := allowed)
    decreases |s.indents|
  {
    if s.indent > p && s.indents != [] { ShutAllowed(Closed(s, MarkOf(c, s.indent)), p, c, allowed); }
  }

  /** After some tokens, once the blocks that are still open have ended: the indentation is `p`. */
  predicate Leaves(s: Scan, t: Scan, p: int, toks: seq<Token>, indents: seq<int>, c: Close) {
    t.flow == 0 && |t.keys| == 1 && Shut(t, p, c) == t.(out := s.out + toks, indent := p, indents := indents)
  }

  lemma AfterLeaves(s: Scan, t: Scan, p: int, toks: seq<Token>, c: Close)
    requires IsAfter(s, t, toks) && s.indent == p && t.flow == 0 && |t.keys| == 1
    ensures Leaves(s, t, p, toks, s.indents, c)
  {}

  /** The state at a lexeme in column `p`. */
  lemma AtNext(s: Scan, t: Scan, p: int, toks: seq<Token>, indents: seq<int>, x: Lexeme)
    requires Leaves(s, t, p, toks, indents, At(x.mark)) && x.mark.column == p
    ensures AtLexeme(t, x) ==
            t.(out := s.out + toks, indent := p, indents := indents, allowed := t.allowed || x.afterBreak)
  {
    var t1 := if x.afterBreak && t.flow == 0 then t.(allowed := true) else t;
    ShutUnrolled(t1, p, x.mark);
    ShutAllowed(t, p, At(x.mark), true);
  }

  /** The state at a lexeme that is not in a lesser column. */
  lemma AtInside(s: Scan, x: Lexeme)
    requires s.flow == 0 && x.mark.column >= s.indent
    ensures AtLexeme(s, x) == s.(allowed := s.allowed || x.afterBreak)
  {}

  /** It does not matter when the state at the lexeme is reached. */
  lemma FetchAt(s: Scan, x: Lexeme)
    requires s.flow == 0 && AtLexeme(s, x).indent <= x.mark.column && AtLexeme(s, x).keys == s.keys
    requires AtLexeme(s, x).flow == 0 && (x.afterBreak ==> AtLexeme(s, x).allowed)
    ensures FetchOne(AtLexeme(s, x), x) == FetchOne(s, x)
  {}

  // ----- steps in block context -----

  /** The block that an entry in this column opens, if it is deeper than that around it. */
  function Opened(a: Scan, column: int, kind: Kind, mark: Mark): seq<Token> {
    if a.indent < column then [Token(kind, mark)] else []
  }

  function Deeper(a: Scan, column: int): seq<int> {
    if a.indent < column then a.indents + [a.indent] else a.indents
  }

  /** '-' or '?'. */
  lemma EntryStep(x: Lexeme, a: Scan) returns (t: Scan)
    requires IsBlock(a, x.mark) && Past(x.mark, x.end) && (x.kind.BlockEntry? || x.kind.Key?)
    requires a.allowed && a.indent <= x.mark.column
    ensures FetchOne(a, x) == Some(t) && IsBlock(t, x.end)
    ensures t == Scan(a.out + (Opened(a, x.mark.column, BlockOf(x.kind), x.mark) + [TokenOf(x)]), t.keys, true, 0,
                      x.mark.column, Deeper(a, x.mark.column))
  {
    DoneNotBroken(a, x.mark, x.mark);
    t := FetchOne(a, x).value;
  }

  /** The key is on an earlier line than an entry. */
  lemma EntryKeyDone(s: Scan, a: Scan, m: Mark, x: Lexeme)
    requires IsBlock(s, m) && IsBehind(m, x) && a.keys == s.keys && a.flow == 0 && a.allowed
        && StartsEntry(x, s.allowed)
    ensures IsBlock(a, x.mark) && (a.keys[0].possible ==> a.keys[0].mark.line < x.mark.line)
  {}

  /** ':' after a key with '?'. */
  lemma SecondBlockStep(x: Lexeme, a: Scan) returns (t: Scan)
    requires IsBlock(a, x.mark) && (a.keys[0].possible ==> a.keys[0].mark.line < x.mark.line) && x.kind.Value?
    requires a.allowed && a.indent == x.mark.column && Past(x.mark, x.end)
    ensures FetchOne(a, x) == Some(t) && IsBlock(t, x.end)
    ensures t == a.(out := a.out + [TokenOf(x)], allowed := true)
  {
    DoneNotBroken(a, x.mark, x.mark);
    t := FetchOne(a, x).value;
  }

  /** ':' after a simple key, of which all is put out. */
  lemma ColonBlockStep(x: Lexeme, s: Scan, n: nat, toks: seq<Token>) returns (t: Scan)
    requires s.flow == 0 && |s.keys| == 1 && !IsBroken(s.keys, x.mark) && x.kind.Value? && IsLive(s.keys[0], x.mark)
    requires s.keys[0].number == n <= |s.out| && toks == s.out[n..]
    requires s.indent <= s.keys[0].mark.column <= x.mark.column && !x.afterBreak
    ensures FetchOne(s, x) == Some(t)
    ensures t == Scan(s.out[..n] + (Opened(s, s.keys[0].mark.column, BlockMappingStart, s.keys[0].mark) +
                                    ([Token(Key, s.keys[0].mark)] + (toks + [TokenOf(x)]))),
                      [s.keys[0].(possible := false)], false, 0, s.keys[0].mark.column,
                      Deeper(s, s.keys[0].mark.column))
  {
    var k := s.keys[0];
    t := FetchOne(s, x).value;
    var out := PutIn(s.out, n, Token(Key, k.mark));
    assert out == s.out[..n] + ([Token(Key, k.mark)] + toks);
    assert out[..n] == s.out[..n] && out[n..] == [Token(Key, k.mark)] + toks;
  }

  // ----- simple keys in blocks -----

  lemma {:induction false} AllBehind(m: Mark, ls: seq<Lexeme>, i: nat)
    requires InOrder(m, ls) && i < |ls|
    ensures UpTo(m, ls[i].mark)
    decreases |ls|
  {
    if i > 0 { AllBehind(EndOf(ls[0]), ls[1..], i - 1); }
  }

  /** Lexemes between two on the same line. */
  lemma {:induction false} OneLine(m: Mark, ls: seq<Lexeme>, i: nat)
    requires InOrder(m, ls) && i < |ls| && ls[|ls| - 1].mark.line == ls[0].mark.line
    ensures ls[i].mark.line == ls[0].mark.line && ls[i].mark.index <= ls[|ls| - 1].mark.index
    ensures ls[0].mark.column <= ls[i].mark.column && (i > 0 ==> !ls[i].afterBreak)
    decreases |ls|
  {
    if |ls| > 1 {
      var more := ls[1..];
      AllBehind(EndOf(ls[0]), more, |more| - 1);
      AllBehind(EndOf(ls[0]), more, 0);
      assert more[|more| - 1] == ls[|ls| - 1];
      assert InOrder(EndOf(more[0]), more[1..]);
      if |more| > 1 { AllBehind(EndOf(more[0]), more[1..], |more| - 2); }
      if i > 0 { OneLine(EndOf(ls[0]), more, i - 1); } else { AllBehind(m, ls, |ls| - 1); }
    }
  }

  /** The lexemes of a simple key, up to its ':'. */
  lemma KeyInLine(pr: Pair, a: Scan, m: Mark)
    requires pr.Simple? && GoodInFlow(pr.key) && KeyFits(pr.key, pr.colon) && a.allowed && a.flow == 0
        && IsBlock(a, FirstMark(pr.key))
    requires a.indent <= FirstMark(pr.key).column && InOrder(m, Lexemes(pr.key) + [pr.colon])
    ensures InLine(a, Lexemes(pr.key), FirstMark(pr.key)) && Lexemes(pr.key) != []
    ensures !pr.colon.afterBreak && FirstMark(pr.key).column <= pr.colon.mark.column
  {
    hide GoodInFlow, IsBroken, InOrder;
    KeyHasLexemes(pr.key);
    var ks := Lexemes(pr.key);
    var ls := ks + [pr.colon];
    assert ls[0] == ks[0] && ls[|ls| - 1] == pr.colon;
    forall i | 0 <= i < |ks|
      ensures !IsBroken(a.keys, ks[i].mark) && ks[i].mark.line == FirstMark(pr.key).line
          && a.indent <= ks[i].mark.column
      ensures ks[i].mark.index <= FirstMark(pr.key).index + MAX_KEY_LENGTH && (i > 0 ==> !ks[i].afterBreak)
    {
      assert ls[i] == ks[i];
      OneLine(m, ls, i);
      DoneNotBroken(a, FirstMark(pr.key), ks[i].mark);
    }
    OneLine(m, ls, |ls| - 1);
  }

  lemma KeyHasLexemes(n: Node)
    requires GoodInFlow(n) && !n.Nothing?
    ensures Lexemes(n) != [] && FirstMark(n) == Lexemes(n)[0].mark
  {}

  /** A simple key and its ':'. */
  lemma SimpleScans(pr: Pair, a: Scan, column: int, m: Mark, c: Close) returns (t: Scan)
    requires pr.Simple? && GoodInFlow(pr.key) && KeyFits(pr.key, pr.colon) && FirstMark(pr.key).column == column
    requires a.allowed && a.flow == 0 && IsBlock(a, FirstMark(pr.key)) && a.indent <= column
    requires InOrder(m, Lexemes(pr.key) + [pr.colon])
    ensures FetchAll(a, Lexemes(pr.key) + [pr.colon]) == Some(t)
    ensures t == Scan(a.out + (Opened(a, column, BlockMappingStart, FirstMark(pr.key)) +
                               ([Token(Key, FirstMark(pr.key))] + (Tokens(pr.key, column, c) + [TokenOf(pr.colon)]))),
                      t.keys, false, 0, column, Deeper(a, column))
    ensures IsBlock(t, EndOf(pr.colon))
  {
    hide FetchOne, FetchAll, Lexemes, Tokens, GoodInFlow, InOrder, IsBroken, FirstMark, InLine;
    var key, x, start := pr.key, pr.colon, FirstMark(pr.key);
    KeyInLine(pr, a, m);
    var t1 := FlatScans(key, a, start, column, c);
    var k := KeyHere(a, start);
    assert t1.keys == [k] && t1.out == a.out + Tokens(key, column, c);
    assert t1.out[|a.out|..] == Tokens(key, column, c) && t1.out[..|a.out|] == a.out;
    NotBroken(k, x.mark);
    t := ColonBlockStep(x, t1, |a.out|, Tokens(key, column, c));
    First(t1, x, t, []);
    Then(a, Lexemes(key), t1, [x]);
  }

  lemma NotBroken(k: SimpleKey, mark: Mark)
    requires !IsStale(k, mark)
    ensures !IsBroken([k], mark)
  {}

  /** The ':' that follows a scalar or alias in a block, not on a new line, makes it a key if it fits, and is
      an error if it does not. */
  lemma KeyFitsIff(k: Lexeme, colon: Lexeme, s: Scan, m: Mark)
    requires IsBlock(s, m) && IsKeyLike(k) && !EndsLine(k) && colon.kind.Value? && !colon.afterBreak
    requires InOrder(m, [k, colon]) && StartsEntry(k, s.allowed) && s.indent <= k.mark.column
        && s.indent <= colon.mark.column
    ensures FetchAll(s, [k, colon]).Some? <==>
            colon.mark.line == k.mark.line && colon.mark.index <= k.mark.index + 1024
  {
    hide FetchOne;
    assert [k, colon] == [k] + [colon] && [k][0] == k;
    OrderFirst(m, k, [colon]);
    var a := AtLexeme(s, k);
    AtInside(s, k);
    FetchAt(s, k);
    EntryKeyDone(s, a, m, k);
    DoneNotBroken(a, k.mark, k.mark);
    var t := LineStep(k, a);
    First(s, k, t, [colon]);
    ColonIff(t, KeyHere(a, k.mark), colon);
  }

  lemma ColonIff(s: Scan, k: SimpleKey, colon: Lexeme)
    requires s.flow == 0 && s.keys == [k] && k.possible && !s.allowed && colon.kind.Value? && !colon.afterBreak
    requires s.indent <= colon.mark.column && UpTo(k.mark, colon.mark)
    ensures FetchAll(s, [colon]).Some? <==>
            colon.mark.line == k.mark.line && colon.mark.index <= k.mark.index + MAX_KEY_LENGTH
  {
    AtInside(s, colon);
    if IsStale(k, colon.mark) {
      if k.required { assert s.keys[0].required && IsStale(s.keys[0], colon.mark); }
    } else {
      NotBroken(k, colon.mark);
    }
    assert [colon][1..] == [];
  }

  // ----- nodes in blocks -----

  lemma FlowInBlock(n: Node, s: Scan, m: Mark) returns (t: Scan)
    requires n.Flow? && Good(n, s.indent, s.allowed, false) && IsBlock(s, m) && InOrder(m, Lexemes(n))
    ensures FetchAll(s, Lexemes(n)) == Some(t) && IsBlock(t, LastEnd(m, Lexemes(n))) && !t.allowed
    ensures forall p, c :: IsAfter(s, t, Tokens(n, p, c))
  {
    hide FetchOne, FetchAll, InOrder, TokensOf, IsBroken, PartLexemes, PartTokens, GoodInFlow;
    var x, inner := n.open, PartLexemes(n, 0) + [n.close];
    FlowProps(n);
    OrderConcat(m, n.props, [x] + inner);
    var t1 := PropsScan(n.props, s, m);
    var m1 := LastEnd(m, n.props);
    OrderFirst(m1, x, inner);
    var a := AtLexeme(t1, x);
    AtInside(t1, x);
    FetchAt(t1, x);
    DoneNotBroken(t1, m1, x.mark);
    FlowKinds(n);
    var t2 := OpenStep(x, a);
    CalmDone(t2.keys, inner);
    First(t1, x, t2, inner);
    Then(s, n.props, t1, [x] + inner);
    t := FlowBody(n, t2, 0, At(ORIGIN));
    LastBehind(EndOf(x), PartLexemes(n, 0), n.close);
    assert LastEnd(m, Lexemes(n)) == LastEnd(EndOf(x), inner) == EndOf(n.close);
    forall p, c
      ensures IsAfter(s, t, Tokens(n, p, c))
    {
      var t' := FlowBody(n, t2, p, c);
      assert t' == t;
      assert t.out == s.out + (TokensOf(n.props) + ([TokenOf(x)] + (PartTokens(n, 0, p, c) + [TokenOf(n.close)])));
    }
  }

  lemma FlowKinds(n: Node)
    requires n.Flow? && GoodInFlow(n)
    ensures n.open.kind.FlowStart? && n.close.kind.FlowEnd?
  {}

  /** Without required keys none goes stale. */
  lemma CalmDone(ks: seq<SimpleKey>, ls: seq<Lexeme>)
    requires forall i {:trigger ks[i]} :: 0 <= i < |ks| ==> Removable(ks[i])
    ensures Calm(ks, ls)
  {}

  lemma LastBehind(m: Mark, a: seq<Lexeme>, x: Lexeme)
    requires InOrder(m, a + [x])
    ensures UpTo(m, x.mark) && UpTo(x.mark, EndOf(x)) && LastEnd(m, a + [x]) == EndOf(x)
  {
    AllBehind(m, a + [x], |a|);
    OrderConcat(m, a, [x]);
  }

  /** The state at the first lexeme of an entry. */
  predicate AtPlace(s: Scan, a: Scan, x: Lexeme, column: int) {
    && a == AtLexeme(s, x) && a.flow == 0 && a.keys == s.keys && a.indent <= column == x.mark.column
    && a.allowed == (s.allowed || x.afterBreak)
  }

  lemma FetchAllAt(s: Scan, a: Scan, x: Lexeme, column: int, b: seq<Lexeme>)
    requires AtPlace(s, a, x, column) && s.flow == 0
    ensures FetchAll(s, [x] + b) == FetchAll(a, [x] + b)
  {
    FetchAt(s, x);
    assert ([x] + b)[0] == x;
  }

  /** Some tokens, and what a node leaves behind them. */
  lemma LeavesFrom(a: Scan, t0: Scan, x: seq<Token>, t: Scan, p: int, y: seq<Token>, indents: seq<int>, c: Close)
    requires t0.out == a.out + x && Leaves(t0, t, p, y, indents, c)
    ensures Leaves(a, t, p, x + y, indents, c)
  {
    assert a.out + x + y == a.out + (x + y);
  }

  lemma {:induction false} NodeScans(n: Node, s: Scan, dense: bool, m: Mark, c: Close) returns (t: Scan)
    requires Good(n, s.indent, s.allowed, dense) && IsBlock(s, m) && InOrder(m, Lexemes(n))
    ensures FetchAll(s, Lexemes(n)) == Some(t) && IsBlock(t, LastEnd(m, Lexemes(n))) && t.allowed == Free(n, s.allowed)
    ensures Leaves(s, t, s.indent, Tokens(n, s.indent, c), s.indents, c)
    decreases n, 3
  {
    match n
    case Nothing =>
      t := s;
      assert s.out + [] == s.out;
    case Leaf(_, _) =>
      t := LeafScans(n, s, m);
      AfterLeaves(s, t, s.indent, Tokens(n, s.indent, c), c);
    case Flow(_, _, _, _) =>
      t := FlowInBlock(n, s, m);
      AfterLeaves(s, t, s.indent, Tokens(n, s.indent, c), c);
    case Seq(_, _) =>
      t := SeqScans(n, s, dense, m, c);
    case Map(_, _) =>
      t := MapScans(n, s, dense, m, c);
  }

  /** The block itself ends, too. */
  lemma BlockEnds(s: Scan, t: Scan, p: int, column: int, toks: seq<Token>, c: Close)
    requires p < column && Leaves(s, t, column, toks, s.indents + [p], c)
    ensures Leaves(s, t, p, toks + [Token(BlockEnd, MarkOf(c, column))], s.indents, c)
  {
    ShutTwice(t, column, p, c);
    var u := Shut(t, column, c);
    assert u.indents[..|u.indents| - 1] == s.indents;
    assert s.out + toks + [Token(BlockEnd, MarkOf(c, column))] == s.out + (toks + [Token(BlockEnd, MarkOf(c, column))]);
  }

  lemma {:induction false} SeqScans(n: Node, s: Scan, dense: bool, m: Mark, c: Close) returns (t: Scan)
    requires n.Seq? && Good(n, s.indent, s.allowed, dense) && IsBlock(s, m) && InOrder(m, Lexemes(n))
    ensures FetchAll(s, Lexemes(n)) == Some(t) && IsBlock(t, LastEnd(m, Lexemes(n))) && t.allowed == Free(n, s.allowed)
    ensures Leaves(s, t, s.indent, Tokens(n, s.indent, c), s.indents, c)
    decreases n, 2
  {
    SeqFacts(n, s.indent, s.allowed, dense);
    hide FetchOne, FetchAll, InOrder, TokensOf, ItemLexemes, ItemTokens, Good, GoodItem, Leaves, IsBlock, Free, KeyDone;
    var x, column, p := n.items[0].dash, ColumnOf(n), s.indent;
    OrderConcat(m, n.props, ItemLexemes(n, 0));
    var s1 := PropsScan(n.props, s, m);
    BlockFlow(s1, LastEnd(m, n.props));
    var a := AtLexeme(s1, x);
    AtInside(s1, x);
    t := ItemsScan(n, 0, s1, a, s.allowed, LastEnd(m, n.props), c);
    Then(s, n.props, s1, ItemLexemes(n, 0));
    SeqEnds(n, s, a, t, c);
  }

  lemma SeqEnds(n: Node, s: Scan, a: Scan, t: Scan, c: Close)
    requires n.Seq? && n.items != [] && ColumnOf(n) >= s.indent == a.indent && s.indents == a.indents
    requires a.out == s.out + TokensOf(n.props)
    requires Leaves(a, t, ColumnOf(n),
        Opened(a, ColumnOf(n), BlockSequenceStart, n.items[0].dash.mark) + ItemTokens(n, 0, c),
                    Deeper(a, ColumnOf(n)), c)
    ensures Leaves(s, t, s.indent, Tokens(n, s.indent, c), s.indents, c)
  {
    hide TokensOf, ItemTokens, Leaves;
    var x, column, p := n.items[0].dash, ColumnOf(n), s.indent;
    var toks := Opened(a, column, BlockSequenceStart, x.mark) + ItemTokens(n, 0, c);
    LeavesFrom(s, a, TokensOf(n.props), t, column, toks, Deeper(a, column), c);
    if column > p {
      BlockEnds(s, t, p, column, TokensOf(n.props) + toks, c);
      assert (TokensOf(n.props) + toks) + [Token(BlockEnd, MarkOf(c, column))] == Tokens(n, p, c);
    } else {
      assert TokensOf(n.props) + toks == Tokens(n, p, c);
    }
  }

  lemma BlockFlow(s: Scan, m: Mark)
    requires IsBlock(s, m)
    ensures s.flow == 0 && |s.keys| == 1
  {}

  lemma SeqFacts(n: Node, p: int, free: bool, dense: bool)
    requires n.Seq? && Good(n, p, free, dense)
    ensures AreProps(n.props) && AreInside(n.props, p) && n.items != [] && ColumnOf(n) >= p
    ensures Free(n, free) == Free(n.items[|n.items| - 1].node, true) && GoodItems(n, free)
    ensures FreeAtItem(n, 0, free) == (n.props == [] && free)
  {}

  ghost predicate GoodItems(n: Node, free: bool)
    requires n.Seq?
  {
    forall i {:trigger n.items[i]} :: 0 <= i < |n.items| ==>
      GoodItem(n.items[i], ColumnOf(n)) && StartsEntry(n.items[i].dash, FreeAtItem(n, i, free))
  }

  lemma {:induction false} ItemsScan(n: Node, i: nat, s: Scan, a: Scan, free: bool, m: Mark, c: Close) returns (t: Scan)
    requires n.Seq? && i < |n.items| && GoodItems(n, free) && s.allowed == FreeAtItem(n, i, free)
    requires IsBlock(s, m) && InOrder(m, ItemLexemes(n, i)) && AtPlace(s, a, n.items[i].dash, ColumnOf(n))
    ensures FetchAll(s, ItemLexemes(n, i)) == Some(t) && IsBlock(t, LastEnd(m, ItemLexemes(n, i)))
    ensures t.allowed == Free(n.items[|n.items| - 1].node, true)
    ensures Leaves(a, t, ColumnOf(n),
        Opened(a, ColumnOf(n), BlockSequenceStart, n.items[i].dash.mark) + ItemTokens(n, i, c),
                   Deeper(a, ColumnOf(n)), c)
    decreases n, 1, |n.items| - i
  {
    hide FetchOne, FetchAll, InOrder, TokensOf, Lexemes, Tokens, Good, Leaves, Free, AtLexeme, KeyDone, IsBlock,
        ColumnOf;
    var x, column, rest := n.items[i], ColumnOf(n), ItemLexemes(n, i + 1);
    var c1, ls := ItemClose(n, i, c), [x.dash] + Lexemes(x.node);
    ItemFacts(n, i, free);
    assert ItemLexemes(n, i) == ls + rest;
    OrderConcat(m, ls, rest);
    var t1 := ItemScans(x, s, a, column, m, c1);
    Then(s, ls, t1, rest);
    var open, toks := Opened(a, column, BlockSequenceStart, x.dash.mark),
        [TokenOf(x.dash)] + Tokens(x.node, column, c1);
    assert ItemTokens(n, i, c) == toks + ItemTokens(n, i + 1, c);
    if i + 1 == |n.items| {
      t := t1;
      Nothing1(t1);
      assert toks + [] == toks;
    } else {
      ItemFacts(n, i + 1, free);
      var m1, y := LastEnd(m, ls), n.items[i + 1].dash;
      AtNext(a, t1, column, open + toks, Deeper(a, column), y);
      BlockFlow(t1, m1);
      var a1 := AtLexeme(t1, y);
      t := ItemsScan(n, i + 1, t1, a1, free, m1, c);
      LeavesFrom(a, a1, open + toks, t, column,
          Opened(a1, column, BlockSequenceStart, y.mark) + ItemTokens(n, i + 1, c), Deeper(a, column), c);
      assert (open + toks) + ([] + ItemTokens(n, i + 1, c)) == open + (toks + ItemTokens(n, i + 1, c));
    }
  }

  lemma {:induction false} ItemScans(i: Item, s: Scan, a: Scan, column: int, m: Mark, c: Close) returns (t: Scan)
    requires GoodItem(i, column) && StartsEntry(i.dash, s.allowed) && IsBlock(s, m) && AtPlace(s, a, i.dash, column)
    requires InOrder(m, [i.dash] + Lexemes(i.node))
    ensures FetchAll(s, [i.dash] + Lexemes(i.node)) == Some(t) && IsBlock(t, LastEnd(m, [i.dash] + Lexemes(i.node)))
    ensures t.allowed == Free(i.node, true)
    ensures Leaves(a, t, column, Opened(a, column, BlockSequenceStart, i.dash.mark) +
                                 ([TokenOf(i.dash)] + Tokens(i.node, column, c)), Deeper(a, column), c)
    decreases i, 4
  {
    hide FetchOne, FetchAll, InOrder, Lexemes, Tokens, Good, Leaves, Free, AtLexeme, KeyDone;
    var x, node := i.dash, i.node;
    OrderFirst(m, x, Lexemes(node));
    EntryKeyDone(s, a, m, x);
    var t1 := EntryStep(x, a);
    BlockFlow(s, m);
    FetchAllAt(s, a, x, column, Lexemes(node));
    First(a, x, t1, Lexemes(node));
    t := NodeScans(node, t1, false, EndOf(x), c);
    var open := Opened(a, column, BlockSequenceStart, x.mark);
    LeavesFrom(a, t1, open + [TokenOf(x)], t, column, Tokens(node, column, c), Deeper(a, column), c);
    assert (open + [TokenOf(x)]) + Tokens(node, column, c) == open + ([TokenOf(x)] + Tokens(node, column, c));
  }

  lemma Nothing1(s: Scan)
    ensures FetchAll(s, []) == Some(s)
  {}

  lemma ItemFacts(n: Node, i: nat, free: bool)
    requires n.Seq? && i < |n.items| && GoodItems(n, free)
    ensures GoodItem(n.items[i], ColumnOf(n)) && n.items[i].dash.mark.column == ColumnOf(n)
    ensures StartsEntry(n.items[i].dash, FreeAtItem(n, i, free))
    ensures i > 0 ==> FreeAtItem(n, i, free) == Free(n.items[i - 1].node, true)
  {}

  // ----- block mappings -----

  lemma {:induction false} MapScans(n: Node, s: Scan, dense: bool, m: Mark, c: Close) returns (t: Scan)
    requires n.Map? && Good(n, s.indent, s.allowed, dense) && IsBlock(s, m) && InOrder(m, Lexemes(n))
    ensures FetchAll(s, Lexemes(n)) == Some(t) && IsBlock(t, LastEnd(m, Lexemes(n))) && t.allowed == Free(n, s.allowed)
    ensures Leaves(s, t, s.indent, Tokens(n, s.indent, c), s.indents, c)
    decreases n, 2
  {
    MapFacts(n, s.indent, s.allowed, dense);
    hide FetchOne, FetchAll, InOrder, TokensOf, PairLexemes, PairTokens, Good, GoodPair, Leaves, IsBlock, Free,
        FreePair,
        KeyDone, LexemesOfPair, PairMark;
    var x := FirstOf(n.pairs[0]);
    PairFacts(n, 0, s.allowed);
    OrderConcat(m, n.props, PairLexemes(n, 0));
    var s1 := PropsScan(n.props, s, m);
    BlockFlow(s1, LastEnd(m, n.props));
    var a := AtLexeme(s1, x);
    AtInside(s1, x);
    t := PairsScan(n, 0, s1, a, s.allowed, LastEnd(m, n.props), c);
    Then(s, n.props, s1, PairLexemes(n, 0));
    MapEnds(n, s, a, t, c);
  }

  lemma MapEnds(n: Node, s: Scan, a: Scan, t: Scan, c: Close)
    requires n.Map? && n.pairs != [] && ColumnOf(n) > s.indent == a.indent && s.indents == a.indents
    requires a.out == s.out + TokensOf(n.props)
    requires Leaves(a, t, ColumnOf(n),
        Opened(a, ColumnOf(n), BlockMappingStart, PairMark(n.pairs[0])) + PairTokens(n, 0, c),
                    Deeper(a, ColumnOf(n)), c)
    ensures Leaves(s, t, s.indent, Tokens(n, s.indent, c), s.indents, c)
  {
    hide TokensOf, PairTokens, Leaves, PairMark;
    var column, p := ColumnOf(n), s.indent;
    var toks := Opened(a, column, BlockMappingStart, PairMark(n.pairs[0])) + PairTokens(n, 0, c);
    LeavesFrom(s, a, TokensOf(n.props), t, column, toks, Deeper(a, column), c);
    BlockEnds(s, t, p, column, TokensOf(n.props) + toks, c);
    assert (TokensOf(n.props) + toks) + [Token(BlockEnd, MarkOf(c, column))] == Tokens(n, p, c);
  }

  /** The first lexeme of a pair. */
  function FirstOf(p: Pair): Lexeme
    requires LexemesOfPair(p) != []
  {
    LexemesOfPair(p)[0]
  }

  ghost predicate GoodPairs(n: Node, free: bool)
    requires n.Map?
  {
    forall i {:trigger n.pairs[i]} :: 0 <= i < |n.pairs| ==> GoodPair(n.pairs[i], ColumnOf(n), FreeAtPair(n, i, free))
  }

  lemma MapFacts(n: Node, p: int, free: bool, dense: bool)
    requires n.Map? && Good(n, p, free, dense)
    ensures AreProps(n.props) && AreInside(n.props, p) && n.pairs != [] && ColumnOf(n) > p
    ensures Free(n, free) == FreePair(n.pairs[|n.pairs| - 1]) && GoodPairs(n, free)
    ensures FreeAtPair(n, 0, free) == (n.props == [] && free)
  {}

  lemma PairFacts(n: Node, i: nat, free: bool)
    requires n.Map? && i < |n.pairs| && GoodPairs(n, free)
    ensures GoodPair(n.pairs[i], ColumnOf(n), FreeAtPair(n, i, free))
    ensures i > 0 ==> FreeAtPair(n, i, free) == FreePair(n.pairs[i - 1])
    ensures LexemesOfPair(n.pairs[i]) != []
    ensures FirstOf(n.pairs[i]).mark == PairMark(n.pairs[i]) && PairMark(n.pairs[i]).column == ColumnOf(n)
  {
    var p := n.pairs[i];
    if p.Simple? { KeyHasLexemes(p.key); }
  }

  lemma {:induction false} PairsScan(n: Node, i: nat, s: Scan, a: Scan, free: bool, m: Mark, c: Close) returns (t: Scan)
    requires n.Map? && i < |n.pairs| && GoodPairs(n, free) && s.allowed == FreeAtPair(n, i, free)
    requires IsBlock(s, m) && InOrder(m, PairLexemes(n, i))
    requires LexemesOfPair(n.pairs[i]) != [] && AtPlace(s, a, FirstOf(n.pairs[i]), ColumnOf(n))
    ensures FetchAll(s, PairLexemes(n, i)) == Some(t) && IsBlock(t, LastEnd(m, PairLexemes(n, i)))
    ensures t.allowed == FreePair(n.pairs[|n.pairs| - 1])
    ensures Leaves(a, t, ColumnOf(n),
        Opened(a, ColumnOf(n), BlockMappingStart, PairMark(n.pairs[i])) + PairTokens(n, i, c),
                   Deeper(a, ColumnOf(n)), c)
    decreases n, 1, |n.pairs| - i
  {
    hide FetchOne, FetchAll, InOrder, TokensOf, Lexemes, Tokens, Good, Leaves, FreePair, AtLexeme, KeyDone,
        LexemesOfPair,
        TokensOfPair, PairMark, ColumnOf, GoodPair, FirstOf, IsBlock;
    var p, column, rest := n.pairs[i], ColumnOf(n), PairLexemes(n, i + 1);
    var c1 := PairClose(n, i, c);
    PairFacts(n, i, free);
    OrderConcat(m, LexemesOfPair(p), rest);
    var t1 := PairScans(p, s, a, column, m, c1);
    Then(s, LexemesOfPair(p), t1, rest);
    var open, toks := Opened(a, column, BlockMappingStart, PairMark(p)), TokensOfPair(p, column, c1);
    if i + 1 == |n.pairs| {
      t := t1;
      Nothing1(t1);
      assert toks + [] == toks;
    } else {
      PairFacts(n, i + 1, free);
      var m1, q := LastEnd(m, LexemesOfPair(p)), n.pairs[i + 1];
      AtNext(a, t1, column, open + toks, Deeper(a, column), FirstOf(q));
      BlockFlow(t1, m1);
      var a1 := AtLexeme(t1, FirstOf(q));
      t := PairsScan(n, i + 1, t1, a1, free, m1, c);
      LeavesFrom(a, a1, open + toks, t, column,
          Opened(a1, column, BlockMappingStart, PairMark(q)) + PairTokens(n, i + 1, c), Deeper(a, column), c);
      assert (open + toks) + ([] + PairTokens(n, i + 1, c)) == open + (toks + PairTokens(n, i + 1, c));
    }
  }

  lemma {:induction false} PairScans(p: Pair, s: Scan, a: Scan, column: int, m: Mark, c: Close) returns (t: Scan)
    requires GoodPair(p, column, s.allowed) && IsBlock(s, m) && InOrder(m, LexemesOfPair(p))
    requires LexemesOfPair(p) != [] && AtPlace(s, a, FirstOf(p), column)
    ensures FetchAll(s, LexemesOfPair(p)) == Some(t) && IsBlock(t, LastEnd(m, LexemesOfPair(p)))
        && t.allowed == FreePair(p)
    ensures Leaves(a, t, column, Opened(a, column, BlockMappingStart, PairMark(p)) + TokensOfPair(p, column, c),
                   Deeper(a, column), c)
    decreases p, 2
  {
    hide FetchAll, InOrder, Leaves, IsBlock, Free, FreePair, Good, GoodInFlow, Tokens, AtPlace, TokensOfPair;
    match p
    case Simple(_, _, _) => t := SimplePairScans(p, s, a, column, m, c);
    case Complex(_, _, _, _) => t := ComplexPairScans(p, s, a, column, m, c);
  }

  lemma {:induction false} SimplePairScans(p: Pair, s: Scan, a: Scan, column: int, m: Mark, c: Close) returns (t: Scan)
    requires p.Simple? && GoodPair(p, column, s.allowed) && IsBlock(s, m) && InOrder(m, LexemesOfPair(p))
    requires LexemesOfPair(p) != [] && AtPlace(s, a, FirstOf(p), column)
    ensures FetchAll(s, LexemesOfPair(p)) == Some(t) && IsBlock(t, LastEnd(m, LexemesOfPair(p)))
        && t.allowed == FreePair(p)
    ensures Leaves(a, t, column, Opened(a, column, BlockMappingStart, PairMark(p)) + TokensOfPair(p, column, c),
                   Deeper(a, column), c)
    decreases p, 1
  {
    hide FetchOne, FetchAll, InOrder, Lexemes, Tokens, Good, GoodInFlow, Leaves, Free, AtLexeme, FirstMark, KeyDone;
    var key, colon, value := p.key, p.colon, p.value;
    var ks := Lexemes(key) + [colon];
    KeyHasLexemes(key);
    var x := Lexemes(key)[0];
    assert LexemesOfPair(p) == ks + Lexemes(value) && FirstOf(p) == x;
    OrderConcat(m, ks, Lexemes(value));
    FirstBehind(m, ks);
    assert ks[0] == x;
    EntryKeyDone(s, a, m, x);
    var t1 := SimpleScans(p, a, column, m, c);
    BlockFlow(s, m);
    assert ks == [x] + ks[1..];
    FetchAllAt(s, a, x, column, ks[1..]);
    LastBehindAny(m, Lexemes(key), colon);
    t := NodeScans(value, t1, true, EndOf(colon), c);
    Then(s, ks, t1, Lexemes(value));
    var head := Opened(a, column, BlockMappingStart, FirstMark(key)) +
                ([Token(Key, FirstMark(key))] + (Tokens(key, column, c) + [TokenOf(colon)]));
    LeavesFrom(a, t1, head, t, column, Tokens(value, column, c), Deeper(a, column), c);
    assert head + Tokens(value, column, c) ==
           Opened(a, column, BlockMappingStart, PairMark(p)) + TokensOfPair(p, column, c);
  }

  lemma FirstBehind(m: Mark, ls: seq<Lexeme>)
    requires InOrder(m, ls) && ls != []
    ensures IsBehind(m, ls[0])
  {}

  lemma LastBehindAny(m: Mark, a: seq<Lexeme>, x: Lexeme)
    ensures LastEnd(m, a + [x]) == EndOf(x)
  {}

  lemma {:induction false} ComplexPairScans(p: Pair, s: Scan, a: Scan, column: int, m: Mark, c: Close) returns (t: Scan)
    requires p.Complex? && GoodPair(p, column, s.allowed) && IsBlock(s, m) && InOrder(m, LexemesOfPair(p))
    requires AtPlace(s, a, p.sign, column)
    ensures FetchAll(s, LexemesOfPair(p)) == Some(t) && IsBlock(t, LastEnd(m, LexemesOfPair(p)))
        && t.allowed == FreePair(p)
    ensures Leaves(a, t, column, Opened(a, column, BlockMappingStart, PairMark(p)) + TokensOfPair(p, column, c),
                   Deeper(a, column), c)
    decreases p, 1
  {
    hide FetchOne, FetchAll, InOrder, Lexemes, Tokens, TokensOf, Good, GoodInFlow, Leaves, Free, AtLexeme, KeyFits,
        FirstMark,
        KeyDone;
    var x, key := p.sign, p.key;
    var behind := OneOrNone(p.second) + Lexemes(p.value);
    OrderFirst(m, x, Lexemes(key) + behind);
    OrderConcat(EndOf(x), Lexemes(key), behind);
    EntryKeyDone(s, a, m, x);
    var t1 := EntryStep(x, a);
    BlockFlow(s, m);
    FetchAllAt(s, a, x, column, Lexemes(key) + behind);
    First(a, x, t1, Lexemes(key) + behind);
    var c1 := if p.second.Some? then At(p.second.value.mark) else c;
    var t2 := NodeScans(key, t1, true, EndOf(x), c1);
    Then(t1, Lexemes(key), t2, behind);
    var head := Opened(a, column, BlockMappingStart, x.mark) + [TokenOf(x)];
    LeavesFrom(a, t1, head, t2, column, Tokens(key, column, c1), Deeper(a, column), c1);
    t := SecondScans(p, a, t2, head + Tokens(key, column, c1), column, LastEnd(EndOf(x), Lexemes(key)), c);
    assert (head + Tokens(key, column, c1)) + (TokensOf(OneOrNone(p.second)) + Tokens(p.value, column, c)) ==
           Opened(a, column, BlockMappingStart, PairMark(p)) + TokensOfPair(p, column, c);
  }

  /** What comes after a key with '?'. */
  lemma {:induction false} SecondScans(p: Pair, a: Scan, s: Scan, toks: seq<Token>, column: int, m: Mark, c: Close)
    returns (t: Scan)
    requires p.Complex? && GoodPair(p, column, true) && IsBlock(s, m) && s.allowed == Free(p.key, true)
    requires Leaves(a, s, column, toks, Deeper(a, column), if p.second.Some? then At(p.second.value.mark) else c)
    requires InOrder(m, OneOrNone(p.second) + Lexemes(p.value))
    ensures FetchAll(s, OneOrNone(p.second) + Lexemes(p.value)) == Some(t) && t.allowed == FreePair(p)
    ensures IsBlock(t, LastEnd(m, OneOrNone(p.second) + Lexemes(p.value)))
    ensures Leaves(a, t, column, toks + (TokensOf(OneOrNone(p.second)) + Tokens(p.value, column, c)),
        Deeper(a, column), c)
    decreases p, 0
  {
    hide FetchOne, FetchAll, InOrder, Good, Leaves, Free, AtLexeme, KeyDone, TokensOf;
    if p.second.None? {
      t := s;
      Nothing1(s);
      NoTokens();
      assert toks + ([] + []) == toks && OneOrNone(p.second) + Lexemes(p.value) == [];
    } else {
      hide Lexemes, Tokens;
      var x, value := p.second.value, p.value;
      AtNext(a, s, column, toks, Deeper(a, column), x);
      var a2 := AtLexeme(s, x);
      BlockFlow(s, m);
      OrderFirst(m, x, Lexemes(value));
      EntryKeyDone(s, a2, m, x);
      var t1 := SecondBlockStep(x, a2);
      FetchAllAt(s, a2, x, column, Lexemes(value));
      First(a2, x, t1, Lexemes(value));
      t := NodeScans(value, t1, true, EndOf(x), c);
      OneToken(x);
      assert a.out + toks + [TokenOf(x)] == a.out + (toks + [TokenOf(x)]);
      LeavesFrom(a, t1, toks + [TokenOf(x)], t, column, Tokens(value, column, c), Deeper(a, column), c);
      assert (toks + [TokenOf(x)]) + Tokens(value, column, c) == toks + ([TokenOf(x)] + Tokens(value, column, c));
    }
  }

  // ----- streams -----

  /** A stream is made of directives, marks of documents, and the root nodes of documents. */
  datatype Chunk = Sign(lex: Lexeme) | Root(node: Node)

  function ChunkLexemes(cs: seq<Chunk>): seq<Lexeme> {
    if cs == [] then []
    else (match cs[0] case Sign(lex) => [lex] case Root(node) => Lexemes(node)) + ChunkLexemes(cs[1..])
  }

  /** All lexemes, with that for the end of the stream. */
  function StreamLexemes(cs: seq<Chunk>, end: Lexeme): seq<Lexeme> {
    ChunkLexemes(cs) + [end]
  }

  /** The blocks of a root end at the mark behind it, or at the end of the stream. */
  function ChunkTokens(cs: seq<Chunk>, c: Close): seq<Token> {
    if cs == [] then []
    else
      match cs[0]
      case Sign(lex) => [TokenOf(lex)] + ChunkTokens(cs[1..], c)
      case Root(node) =>
        Tokens(node, -1, if cs[1..] != [] && cs[1].Sign? then At(cs[1].lex.mark) else c) + ChunkTokens(cs[1..], c)
  }

  function StreamTokens(cs: seq<Chunk>, end: Lexeme): seq<Token> {
    [Token(StreamStart, ORIGIN)] +
    (ChunkTokens(cs, Close(end.mark, EndMark(end.mark))) + [Token(StreamEnd, EndMark(end.mark))])
  }

  /** Marks stand in the first column, and there is one between two roots. Behind a mark a block starts on a
      new line; `first`, at the start of the stream, it need not. */
  predicate GoodChunks(cs: seq<Chunk>, first: bool) {
    cs != [] ==>
      match cs[0]
      case Sign(lex) =>
        lex.ok && (lex.kind.Directive? || lex.kind.DocumentIndicator?) && lex.mark.column == 0
            && GoodChunks(cs[1..], false)
      case Root(node) => Good(node, -1, first, false) && (|cs| > 1 ==> cs[1].Sign?) && GoodChunks(cs[1..], false)
  }

  predicate GoodStream(cs: seq<Chunk>, end: Lexeme) {
    GoodChunks(cs, true) && end.kind.StreamEnd? && InOrder(ORIGIN, StreamLexemes(cs, end))
  }

  // ----- indentations grow -----

  ghost predicate IsGrowing(r: Option<Scan>) {
    r.Some? ==> IndentsOk(r.value.indents, r.value.indent)
  }

  lemma RolledGrows(s: Scan, column: int, pos: int, kind: Kind, m: Mark)
    requires IsGrowing(Some(s))
    ensures IsGrowing(Some(Rolled(s, column, pos, kind, m)))
  {
    assert (s.indents + [s.indent])[..|s.indents|] == s.indents;
  }

  lemma {:induction false} UnrolledGrows(s: Scan, column: int, m: Mark)
    requires IsGrowing(Some(s))
    ensures IsGrowing(Some(Unrolled(s, column, m)))
    decreases |s.indents|
  {
    if !(s.flow > 0 || s.indent <= column || s.indents == []) { UnrolledGrows(Closed(s, m), column, m); }
  }

  lemma KeysDoNotMatter(s: Scan, m: Mark)
    requires IsGrowing(Some(s))
    ensures IsGrowing(Removed(s)) && IsGrowing(Saved(s, m)) && IsGrowing(Some(OuterLevel(s)))
  {}

  lemma KeyBeforeGrows(s: Scan, m: Mark)
    requires IsGrowing(Some(s))
    ensures IsGrowing(KeyBefore(s, m))
  {
    var k := LastKey(s);
    var s1 := s.(out := PutIn(s.out, k.number, Token(Key, k.mark)));
    RolledGrows(s1, k.mark.column, k.number, BlockMappingStart, k.mark);
    RolledGrows(s, m.column, -1, BlockMappingStart, m);
  }

  lemma FetchGrows(s: Scan, x: Lexeme)
    requires IsGrowing(Some(s))
    ensures IsGrowing(FetchOne(s, x))
  {
    hide IsBroken, Removed, Saved, KeyBefore, Rolled, Unrolled, IndentsOk, OuterLevel;
    var a := AtLexeme(s, x);
    UnrolledGrows(if x.afterBreak && s.flow == 0 then s.(allowed := true) else s, x.mark.column, x.mark);
    KeysDoNotMatter(a, x.mark);
    KeyBeforeGrows(a, x.mark);
    RolledGrows(a, x.mark.column, -1, BlockOf(x.kind), x.mark);
    KeysDoNotMatter(Rolled(a, x.mark.column, -1, BlockOf(x.kind), x.mark), x.mark);
    UnrolledGrows(a, -1, x.mark);
    KeysDoNotMatter(Unrolled(a, -1, x.mark), x.mark);
    if Removed(a).Some? { KeysDoNotMatter(Removed(a).value, x.mark); }
  }

  lemma {:induction false} AllGrow(s: Scan, ls: seq<Lexeme>)
    requires IsGrowing(Some(s))
    ensures IsGrowing(FetchAll(s, ls))
    decreases |ls|
  {
    if ls != [] {
      FetchGrows(s, ls[0]);
      if FetchOne(s, ls[0]).Some? { AllGrow(FetchOne(s, ls[0]).value, ls[1..]); }
    }
  }

  // ----- streams are scanned -----

  /** Outside of all blocks. */
  predicate IsOutside(s: Scan, m: Mark) {
    IsBlock(s, m) && s.indent == -1 && s.indents == []
  }

  /** All blocks end before a mark, or the end of the stream, whose token stands at `e`. */
  lemma ResetStep(s: Scan, t: Scan, toks: seq<Token>, x: Lexeme, m: Mark, e: Mark)
    requires Leaves(s, t, -1, toks, [], Close(x.mark, e)) && IsBlock(t, m) && (x.mark.column == 0 ==> e == x.mark)
    requires IsGrowing(Some(t))
    ensures Reset(AtLexeme(t, x), e) ==
            Some(Scan(s.out + toks, [t.keys[0].(possible := false)], false, 0, -1, []))
  {
    var t1 := if x.afterBreak && t.flow == 0 then t.(allowed := true) else t;
    var c := Close(x.mark, e);
    ShutAllowed(t, -1, c, true);
    UnrolledShut(t1, x.mark, e);
    var u := Unrolled(AtLexeme(t, x), -1, e);
    assert u == Shut(t1, -1, c);
    assert u.keys[|u.keys| - 1 := u.keys[0].(possible := false)] == [t.keys[0].(possible := false)];
  }

  lemma {:induction false} UnrolledShut(s: Scan, m: Mark, e: Mark)
    requires s.flow == 0 && (m.column == 0 ==> e == m) && IsGrowing(Some(s))
    ensures Unrolled(Unrolled(s, m.column, m), -1, e) == Shut(s, -1, Close(m, e))
    decreases |s.indents|
  {
    if s.indents != [] {
      if s.indent > m.column { UnrolledShut(Closed(s, m), m, e); } else { UnrolledLast(s, m, e); }
    }
  }

  /** The blocks that are not deeper than the last lexeme. */
  lemma {:induction false} UnrolledLast(s: Scan, m: Mark, e: Mark)
    requires s.flow == 0 && s.indent <= m.column && IsGrowing(Some(s))
    ensures Unrolled(s, -1, e) == Shut(s, -1, Close(m, e))
    decreases |s.indents|
  {
    if s.indent > -1 && s.indents != [] { UnrolledLast(Closed(s, e), m, e); }
  }

  /** A directive, or a mark of a document. */
  lemma SignStepAt(s: Scan, t: Scan, toks: seq<Token>, x: Lexeme, m: Mark) returns (u: Scan)
    requires Leaves(s, t, -1, toks, [], At(x.mark)) && IsBlock(t, m) && IsGrowing(Some(t)) && IsBehind(m, x)
    requires x.ok && (x.kind.Directive? || x.kind.DocumentIndicator?)
    ensures FetchOne(t, x) == Some(u) && IsOutside(u, x.end) && !u.allowed && u.out == s.out + toks + [TokenOf(x)]
  {
    hide Reset, Leaves, AtLexeme, IsBroken;
    DoneNotBroken(t, m, x.mark);
    ResetStep(s, t, toks, x, m, x.mark);
    u := FetchOne(t, x).value;
  }

  lemma OutsideLeaves(s: Scan, m: Mark, c: Close)
    requires IsOutside(s, m)
    ensures Leaves(s, s, -1, [], [], c) && IsGrowing(Some(s))
  {
    assert s.out + [] == s.out;
  }

  /** All chunks: what is left open behind the last one ends at `c`. */
  lemma {:induction false} ChunksScan(cs: seq<Chunk>, first: bool, s: Scan, m: Mark, c: Close) returns (t: Scan)
    requires GoodChunks(cs, first) && IsOutside(s, m) && s.allowed == first && InOrder(m, ChunkLexemes(cs))
    ensures FetchAll(s, ChunkLexemes(cs)) == Some(t) && IsBlock(t, LastEnd(m, ChunkLexemes(cs))) && IsGrowing(Some(t))
    ensures Leaves(s, t, -1, ChunkTokens(cs, c), [], c)
    decreases |cs|
  {
    hide FetchOne, FetchAll, InOrder, Leaves, Good, Lexemes, Tokens, IsBlock, IsGrowing;
    if cs == [] {
      t := s;
      Nothing1(s);
      OutsideLeaves(s, m, c);
      NothingBehind(m);
    } else {
      var more := cs[1..];
      match cs[0] {
        case Sign(x) =>
          OrderFirst(m, x, ChunkLexemes(more));
          OutsideLeaves(s, m, At(x.mark));
          var u := SignStepAt(s, s, [], x, m);
          First(s, x, u, ChunkLexemes(more));
          t := ChunksScan(more, false, u, x.end, c);
          assert s.out + [] + [TokenOf(x)] == s.out + [TokenOf(x)];
          LeavesFrom(s, u, [TokenOf(x)], t, -1, ChunkTokens(more, c), [], c);
        case Root(n) =>
          t := RootScans(cs, first, s, m, c);
      }
    }
  }

  lemma NothingBehind(m: Mark)
    ensures LastEnd(m, []) == m
  {}

  /** A root, and what comes behind it. */
  lemma {:induction false} RootScans(cs: seq<Chunk>, first: bool, s: Scan, m: Mark, c: Close) returns (t: Scan)
    requires cs != [] && cs[0].Root?
    requires GoodChunks(cs, first) && IsOutside(s, m) && s.allowed == first && InOrder(m, ChunkLexemes(cs))
    ensures FetchAll(s, ChunkLexemes(cs)) == Some(t) && IsBlock(t, LastEnd(m, ChunkLexemes(cs))) && IsGrowing(Some(t))
    ensures Leaves(s, t, -1, ChunkTokens(cs, c), [], c)
    decreases |cs|, 0
  {
    hide FetchOne, FetchAll, InOrder, Leaves, Good, Lexemes, Tokens, IsBlock, IsGrowing;
    var n, more := cs[0].node, cs[1..];
    OrderConcat(m, Lexemes(n), ChunkLexemes(more));
    OutsideLeaves(s, m, c);
    var c1 := if more != [] && cs[1].Sign? then At(cs[1].lex.mark) else c;
    var t1 := NodeScans(n, s, false, m, c1);
    AllGrow(s, Lexemes(n));
    Then(s, Lexemes(n), t1, ChunkLexemes(more));
    var m1 := LastEnd(m, Lexemes(n));
    if more == [] {
      t := t1;
      Nothing1(t1);
      NothingBehind(m1);
      assert Tokens(n, -1, c1) + [] == Tokens(n, -1, c1);
    } else {
      var x, last := cs[1].lex, more[1..];
      assert more[0] == cs[1] && ChunkLexemes(more) == [x] + ChunkLexemes(last);
      OrderFirst(m1, x, ChunkLexemes(last));
      var u := SignStepAt(s, t1, Tokens(n, -1, c1), x, m1);
      First(t1, x, u, ChunkLexemes(last));
      t := ChunksScan(last, false, u, x.end, c);
      assert s.out + Tokens(n, -1, c1) + [TokenOf(x)] == s.out + (Tokens(n, -1, c1) + [TokenOf(x)]);
      LeavesFrom(s, u, Tokens(n, -1, c1) + [TokenOf(x)], t, -1, ChunkTokens(last, c), [], c);
      assert (Tokens(n, -1, c1) + [TokenOf(x)]) + ChunkTokens(last, c) == Tokens(n, -1, c1)
          + ([TokenOf(x)] + ChunkTokens(last, c));
    }
  }

  lemma {:induction false} ToEndIs(s: Scan, ls: seq<Lexeme>, t: Scan, end: Lexeme)
    requires FetchAll(s, ls) == Some(t)
    ensures ToEnd(s, ls + [end]) == ToEnd(t, [end])
    decreases |ls|
  {
    if ls == [] {
      assert ls + [end] == [end];
    } else {
      assert (ls + [end])[0] == ls[0] && (ls + [end])[1..] == ls[1..] + [end];
      ToEndIs(FetchOne(s, ls[0]).value, ls[1..], t, end);
    }
  }

  /** The end of the stream. */
  lemma EndStep(s: Scan, t: Scan, toks: seq<Token>, end: Lexeme, m: Mark)
    requires Leaves(s, t, -1, toks, [], Close(end.mark, EndMark(end.mark))) && IsBlock(t, m) && IsGrowing(Some(t))
    requires end.kind.StreamEnd?
    ensures ToEnd(t, [end]).Some? && ToEnd(t, [end]).value.out == s.out + toks + [Token(StreamEnd, EndMark(end.mark))]
  {
    hide Reset, Leaves, AtLexeme, IsBroken;
    DoneNotBroken(t, m, end.mark);
    ResetStep(s, t, toks, end, m, EndMark(end.mark));
    NotBroken(t.keys[0].(possible := false), EndOf(end));
  }

  /** Every good layout gives its tokens when all is fetched. */
  lemma StreamScans(cs: seq<Chunk>, end: Lexeme)
    requires GoodStream(cs, end)
    ensures ToEnd(BEGIN, StreamLexemes(cs, end)).Some?
    ensures ToEnd(BEGIN, StreamLexemes(cs, end)).value.out == StreamTokens(cs, end)
  {
    hide ToEnd, InOrder, GoodChunks, ChunkLexemes, ChunkTokens, Leaves, IsGrowing;
    var c := Close(end.mark, EndMark(end.mark));
    OrderConcat(ORIGIN, ChunkLexemes(cs), [end]);
    var t := ChunksScan(cs, true, BEGIN, ORIGIN, c);
    ToEndIs(BEGIN, ChunkLexemes(cs), t, end);
    EndStep(BEGIN, t, ChunkTokens(cs, c), end, LastEnd(ORIGIN, ChunkLexemes(cs)));
    assert [Token(StreamStart, ORIGIN)] + ChunkTokens(cs, c) + [Token(StreamEnd, EndMark(end.mark))]
        == StreamTokens(cs, end);
  }

  /** The tokens handed out for a good layout are those of its trees. */
  lemma LayoutIsHanded(cs: seq<Chunk>, end: Lexeme)
    requires GoodStream(cs, end)
    ensures AllHanded(AtStart(StreamLexemes(cs, end))) == Some(StreamTokens(cs, end))
  {
    hide ToEnd, InOrder, GoodChunks, StreamLexemes, StreamTokens, AllHanded;
    StreamScans(cs, end);
    AllIsEager(StreamLexemes(cs, end));
  }

  // ----- an example -----

  function Word(kind: Kind, afterBreak: bool, index: nat, line: nat, column: nat): Lexeme {
    Lexeme(kind, afterBreak, Mark(index, line, column), Mark(index + 1, line, column + 1), true, false)
  }

  /** The words of the two lines `a:` and `  b: 1`, of which the second is a mapping in the first one. */
  lemma NestedMapping()
    ensures
      var a, c0 := Word(PlainScalar, false, 0, 0, 0), Word(Value, false, 1, 0, 1);
      var b, c1, d := Word(PlainScalar, true, 5, 1, 2), Word(Value, false, 6, 1, 3), Word(PlainScalar, false, 8, 1, 5);
      var end := Lexeme(StreamEnd, true, Mark(10, 2, 0), Mark(10, 2, 0), true, false);
      var cs := [Root(OneKey(a, c0, OneKey(b, c1, Leaf([], Some(d)))))];
      && GoodStream(cs, end) && StreamLexemes(cs, end) == [a, c0, b, c1, d, end]
      && StreamTokens(cs, end) ==
         [Token(StreamStart, ORIGIN), Token(BlockMappingStart, a.mark), Token(Key, a.mark), TokenOf(a), TokenOf(c0),
          Token(BlockMappingStart, b.mark), Token(Key, b.mark), TokenOf(b), TokenOf(c1), TokenOf(d),
          Token(BlockEnd, end.mark), Token(BlockEnd, end.mark), Token(StreamEnd, end.mark)]
  {
    var a, c0 := Word(PlainScalar, false, 0, 0, 0), Word(Value, false, 1, 0, 1);
    var b, c1, d := Word(PlainScalar, true, 5, 1, 2), Word(Value, false, 6, 1, 3), Word(PlainScalar, false, 8, 1, 5);
    var end := Lexeme(StreamEnd, true, Mark(10, 2, 0), Mark(10, 2, 0), true, false);
    hide InOrder, IsBehind, OneKey, GoodStream, StreamLexemes, StreamTokens;
    WordsBehind();
    InOrderSix(a, c0, b, c1, d, end);
    NestedReads(a, c0, b, c1, d, end);
  }

  lemma WordsBehind()
    ensures IsBehind(ORIGIN, Word(PlainScalar, false, 0, 0, 0)) && IsBehind(Mark(1, 0, 1), Word(Value, false, 1, 0, 1))
    ensures IsBehind(Mark(2, 0, 2), Word(PlainScalar, true, 5, 1, 2))
        && IsBehind(Mark(6, 1, 3), Word(Value, false, 6, 1, 3))
    ensures IsBehind(Mark(7, 1, 4), Word(PlainScalar, false, 8, 1, 5))
    ensures IsBehind(Mark(9, 1, 6), Lexeme(StreamEnd, true, Mark(10, 2, 0), Mark(10, 2, 0), true, false))
  {}

  predicate IsKeyOf(k: Lexeme, colon: Lexeme) {
    k.kind.PlainScalar? && k.ok && colon.kind.Value? && colon.mark.line == k.mark.line
    && colon.mark.index <= k.mark.index + 1024
  }

  lemma NestedReads(a: Lexeme, c0: Lexeme, b: Lexeme, c1: Lexeme, d: Lexeme, end: Lexeme)
    requires IsKeyOf(a, c0) && IsKeyOf(b, c1) && d.kind.PlainScalar? && d.ok && end.kind.StreamEnd?
        && end.mark.column == 0
    requires a.mark.column < b.mark.column < d.mark.column && b.afterBreak
    requires InOrder(ORIGIN, [a, c0, b, c1, d, end])
    ensures
      var cs := [Root(OneKey(a, c0, OneKey(b, c1, Leaf([], Some(d)))))];
      && GoodStream(cs, end) && StreamLexemes(cs, end) == [a, c0, b, c1, d, end]
      && StreamTokens(cs, end) ==
         [Token(StreamStart, ORIGIN), Token(BlockMappingStart, a.mark), Token(Key, a.mark), TokenOf(a), TokenOf(c0),
          Token(BlockMappingStart, b.mark), Token(Key, b.mark), TokenOf(b), TokenOf(c1), TokenOf(d),
          Token(BlockEnd, end.mark), Token(BlockEnd, end.mark), Token(StreamEnd, end.mark)]
  {
    hide Good, GoodChunks, Lexemes, Tokens, StreamLexemes, StreamTokens, OneKey, InOrder;
    var value, c := Leaf([], Some(d)), Close(end.mark, end.mark);
    var inner := OneKey(b, c1, value);
    LeafReads(d, b.mark.column, false, true, c);
    OneKeyReads(b, c1, value, a.mark.column, false, true, c);
    OneKeyReads(a, c0, inner, -1, true, false, c);
    OneRoot(OneKey(a, c0, inner), end);
    assert [a, c0] + ([b, c1] + [d]) + [end] == [a, c0, b, c1, d, end];
  }

  lemma LeafReads(x: Lexeme, p: int, free: bool, dense: bool, c: Close)
    requires x.kind.PlainScalar? && x.ok && x.mark.column > p
    ensures Good(Leaf([], Some(x)), p, free, dense) && GoodInFlow(Leaf([], Some(x)))
    ensures Lexemes(Leaf([], Some(x))) == [x] && Tokens(Leaf([], Some(x)), p, c) == [TokenOf(x)]
  {
    OneToken(x);
    NoTokens();
  }

  function OneKey(k: Lexeme, colon: Lexeme, value: Node): Node {
    Map([], [Simple(Leaf([], Some(k)), colon, value)])
  }

  lemma OneKeyReads(k: Lexeme, colon: Lexeme, value: Node, p: int, free: bool, dense: bool, c: Close)
    requires k.kind.PlainScalar? && k.ok && k.mark.column > p && StartsEntry(k, free)
        && Good(value, k.mark.column, false, true)
    requires colon.kind.Value? && colon.mark.line == k.mark.line && colon.mark.index <= k.mark.index + 1024
    ensures Good(OneKey(k, colon, value), p, free, dense)
    ensures Lexemes(OneKey(k, colon, value)) == [k, colon] + Lexemes(value)
    ensures Tokens(OneKey(k, colon, value), p, c) ==
            [Token(BlockMappingStart, k.mark), Token(Key, k.mark), TokenOf(k), TokenOf(colon)] +
            (Tokens(value, k.mark.column, c) + [Token(BlockEnd, MarkOf(c, k.mark.column))])
  {
    var n, key, column := OneKey(k, colon, value), Leaf([], Some(k)), k.mark.column;
    var pair := Simple(key, colon, value);
    LeafReads(k, p, true, false, c);
    OneKeyTokens(k, colon, value, p, c);
    hide Lexemes, GoodInFlow, Tokens;
    assert GoodPair(pair, column, free);
    assert n.pairs == [pair] && ColumnOf(n) == column && FreeAtPair(n, 0, free) == free;
  }

  lemma OneKeyTokens(k: Lexeme, colon: Lexeme, value: Node, p: int, c: Close)
    requires k.mark.column > p
    ensures Lexemes(OneKey(k, colon, value)) == [k, colon] + Lexemes(value)
    ensures Tokens(OneKey(k, colon, value), p, c) ==
            [Token(BlockMappingStart, k.mark), Token(Key, k.mark), TokenOf(k), TokenOf(colon)] +
            (Tokens(value, k.mark.column, c) + [Token(BlockEnd, MarkOf(c, k.mark.column))])
  {
    OneKeyLexemes(k, colon, value);
    var n, column := OneKey(k, colon, value), k.mark.column;
    hide Lexemes, TokensOf, PairTokens, TokensOfPair, PairLexemes;
    NoTokens();
    OnePair(n, k, colon, value, c);
  }

  lemma OneKeyLexemes(k: Lexeme, colon: Lexeme, value: Node)
    ensures Lexemes(OneKey(k, colon, value)) == [k, colon] + Lexemes(value)
    ensures PairMark(OneKey(k, colon, value).pairs[0]) == k.mark
  {
    var n, key := OneKey(k, colon, value), Leaf([], Some(k));
    assert Lexemes(key) == [k] && PairLexemes(n, 1) == [];
    assert PairLexemes(n, 0) == LexemesOfPair(n.pairs[0]);
  }

  lemma OnePair(n: Node, k: Lexeme, colon: Lexeme, value: Node, c: Close)
    requires n == OneKey(k, colon, value) && ColumnOf(n) == k.mark.column
    ensures PairTokens(n, 0, c) ==
            [Token(Key, k.mark), TokenOf(k), TokenOf(colon)] + Tokens(value, k.mark.column, c)
  {
    var key, column := Leaf([], Some(k)), k.mark.column;
    assert Lexemes(key) == [k];
    hide Lexemes, TokensOf;
    OneToken(k);
    NoTokens();
    assert Tokens(key, column, c) == [TokenOf(k)] && PairTokens(n, 1, c) == [];
    assert PairTokens(n, 0, c) == TokensOfPair(n.pairs[0], column, c);
  }

  lemma OneRoot(n: Node, end: Lexeme)
    requires Good(n, -1, true, false)
    ensures GoodChunks([Root(n)], true) && StreamLexemes([Root(n)], end) == Lexemes(n) + [end]
    ensures StreamTokens([Root(n)], end) == [Token(StreamStart, ORIGIN)] +
              (Tokens(n, -1, Close(end.mark, EndMark(end.mark))) + [Token(StreamEnd, EndMark(end.mark))])
  {
    var c := Close(end.mark, EndMark(end.mark));
    assert [Root(n)][1..] == [] && ChunkLexemes([]) == [] && ChunkTokens([], c) == [];
    assert Lexemes(n) + [] == Lexemes(n) && Tokens(n, -1, c) + [] == Tokens(n, -1, c);
  }

  lemma InOrderSix(a: Lexeme, b: Lexeme, c: Lexeme, d: Lexeme, e: Lexeme, f: Lexeme)
    requires IsBehind(ORIGIN, a) && IsBehind(EndOf(a), b) && IsBehind(EndOf(b), c) && IsBehind(EndOf(c), d)
    requires IsBehind(EndOf(d), e) && IsBehind(EndOf(e), f)
    ensures InOrder(ORIGIN, [a, b, c, d, e, f])
  {
    hide IsBehind, InOrder;
    OrderFirst(EndOf(e), f, []);
    OrderFirst(EndOf(d), e, [f]);
    OrderFirst(EndOf(c), d, [e, f]);
    OrderFirst(EndOf(b), c, [d, e, f]);
    OrderFirst(EndOf(a), b, [c, d, e, f]);
    OrderFirst(ORIGIN, a, [b, c, d, e, f]);
    assert [a] + [b, c, d, e, f] == [a, b, c, d, e, f] && [b] + [c, d, e, f] == [b, c, d, e, f];
    assert [c] + [d, e, f] == [c, d, e, f] && [d] + [e, f] == [d, e, f] && [e] + [f] == [e, f] && [f] + [] == [f];
    NothingInOrder(EndOf(f));
  }

  lemma NothingInOrder(m: Mark)
    ensures InOrder(m, [])
  {}
}
