/** What the scanner of yaml.v2 makes of each lexeme: its token, and the tokens that are put in for
    simple keys and for blocks that start and end. */
module YamlFetch {
  import opened Options
  import opened YamlQueue

  /** What is found in the input: after blanks, comments and line breaks, at `mark`, the text of a
      token that reaches to `end`. If its scan fails, `ok` is false. A plain scalar that ends with
      a line break allows a simple key after it. */
  datatype Lexeme = Lexeme(kind: Kind, afterBreak: bool, mark: Mark, end: Mark, ok: bool, endsLine: bool)

  datatype SimpleKey = SimpleKey(possible: bool, required: bool, number: int, mark: Mark)

  const NO_KEY := SimpleKey(false, false, 0, Mark(0, 0, 0))

  const MAX_KEY_LENGTH := 1024

  predicate IsStale(k: SimpleKey, mark: Mark) {
    k.possible && (k.mark.line < mark.line || k.mark.index + MAX_KEY_LENGTH < mark.index)
  }

  /** The tokens put out so far, the potential simple keys of all flow levels, whether one may start
      here, the flow level, and the indentations. */
  datatype Scan = Scan(out: seq<Token>, keys: seq<SimpleKey>, allowed: bool, flow: nat, indent: int, indents: seq<int>)

  const ORIGIN := Mark(0, 0, 0)

  /** At the start of the stream, with its first token. */
  const BEGIN := Scan([Token(StreamStart, ORIGIN)], [NO_KEY], true, 0, -1, [])

  function Out(s: Scan, kind: Kind, mark: Mark): Scan {
    s.(out := s.out + [Token(kind, mark)])
  }

  /** The tokens with one more at this place, or at the end if there is no such place. */
  function PutIn(q: seq<Token>, pos: int, t: Token): seq<Token> {
    if 0 <= pos <= |q| then q[..pos] + ([t] + q[pos..]) else q + [t]
  }

  // ----- simple keys -----

  function LastKey(s: Scan): SimpleKey {
    if s.keys == [] then NO_KEY else s.keys[|s.keys| - 1]
  }

  function WithLast(s: Scan, k: SimpleKey): Scan {
    if s.keys == [] then s else s.(keys := s.keys[|s.keys| - 1 := k])
  }

  /** A required key has gone stale. */
  predicate IsBroken(ks: seq<SimpleKey>, mark: Mark) {
    exists i {:trigger ks[i]} :: 0 <= i < |ks| && ks[i].required && IsStale(ks[i], mark)
  }

  function Dropped(k: SimpleKey, mark: Mark): SimpleKey {
    if IsStale(k, mark) then k.(possible := false) else k
  }

  function AllDropped(ks: seq<SimpleKey>, mark: Mark): seq<SimpleKey> {
    seq(|ks|, i requires 0 <= i < |ks| => Dropped(ks[i], mark))
  }

  function Removed(s: Scan): Option<Scan> {
    var k := LastKey(s);
    if k.possible && k.required then None else Some(WithLast(s, k.(possible := false)))
  }

  function KeyHere(s: Scan, mark: Mark): SimpleKey {
    SimpleKey(true, s.flow == 0 && s.indent == mark.column, |s.out|, mark)
  }

  /** A key is remembered if one may start here. */
  function Saved(s: Scan, mark: Mark): Option<Scan> {
    if !s.allowed then Some(s) else if Removed(s).None? then None else Some(WithLast(s, KeyHere(s, mark)))
  }

  // ----- indentation -----

  /** Indentations grow from -1, outside of all collections, to the current one. */
  ghost predicate IndentsOk(indents: seq<int>, indent: int) {
    if indents == [] then indent == -1 else
        indents[|indents| - 1] < indent
        && IndentsOk(indents[..|indents| - 1], indents[|indents| - 1])
  }

  /** A deeper column opens a block. */
  function Rolled(s: Scan, column: int, pos: int, kind: Kind, mark: Mark): Scan {
    if s.flow > 0 || s.indent >= column then s
    else s.(out := PutIn(s.out, pos, Token(kind, mark)), indent := column, indents := s.indents + [s.indent])
  }

  /** The innermost block ends. */
  function Closed(s: Scan, mark: Mark): Scan
    requires s.indents != []
  {
    var n := |s.indents| - 1;
    Out(s, BlockEnd, mark).(indent := s.indents[n], indents := s.indents[..n])
  }

  /** A lesser column ends the blocks that are deeper. */
  function Unrolled(s: Scan, column: int, mark: Mark): Scan
    decreases |s.indents|
  {
    if s.flow > 0 || s.indent <= column || s.indents == [] then s else Unrolled(Closed(s, mark), column, mark)
  }

  // ----- the fetchers -----

  /** All blocks end, and no simple key may start, before a token that stands for itself. */
  function Reset(s: Scan, mark: Mark): Option<Scan> {
    var r := Removed(Unrolled(s, -1, mark));
    if r.None? then None else Some(r.value.(allowed := false))
  }

  /** At the end of the stream a new line starts. */
  function EndMark(mark: Mark): Mark {
    if mark.column != 0 then Mark(mark.index, mark.line + 1, 0) else mark
  }

  function StreamEndAt(s: Scan, lex: Lexeme): Option<Scan> {
    var r := Reset(s, EndMark(lex.mark));
    if r.None? then None else Some(Out(r.value, StreamEnd, EndMark(lex.mark)))
  }

  function DocumentTokenAt(s: Scan, lex: Lexeme): Option<Scan> {
    var r := Reset(s, lex.mark);
    if r.None? || !lex.ok then None else Some(Out(r.value, lex.kind, lex.mark))
  }

  function FlowStartAt(s: Scan, lex: Lexeme): Option<Scan> {
    var r := Saved(s, lex.mark);
    if r.None? then None
    else
      Some(Out(r.value.(keys := r.value.keys + [NO_KEY], flow := r.value.flow + 1, allowed := true), FlowStart,
          lex.mark))
  }

  function OuterLevel(s: Scan): Scan {
    if s.flow == 0 || s.keys == [] then s else s.(flow := s.flow - 1, keys := s.keys[..|s.keys| - 1])
  }

  function FlowEndAt(s: Scan, lex: Lexeme): Option<Scan> {
    var r := Removed(s);
    if r.None? then None else Some(Out(OuterLevel(r.value).(allowed := false), FlowEnd, lex.mark))
  }

  function FlowEntryAt(s: Scan, lex: Lexeme): Option<Scan> {
    var r := Removed(s);
    if r.None? then None else Some(Out(r.value.(allowed := true), FlowEntry, lex.mark))
  }

  /** The block that a '-', '?' or ':' opens. */
  function BlockOf(kind: Kind): Kind {
    if kind.BlockEntry? then BlockSequenceStart else BlockMappingStart
  }

  function BlockIndicatorAt(s: Scan, lex: Lexeme): Option<Scan> {
    if s.flow == 0 && !s.allowed then None
    else
      var r := Removed(Rolled(s, lex.mark.column, -1, BlockOf(lex.kind), lex.mark));
      if r.None? then None
      else Some(Out(r.value.(allowed := lex.kind.BlockEntry? || s.flow == 0), lex.kind, lex.mark))
  }

  function KeyLikeAt(s: Scan, lex: Lexeme): Option<Scan> {
    var r := Saved(s, lex.mark);
    if r.None? || !lex.ok then None
    else Some(Out(r.value.(allowed := lex.kind.PlainScalar? && lex.endsLine), lex.kind, lex.mark))
  }

  function BlockScalarAt(s: Scan, lex: Lexeme): Option<Scan> {
    var r := Removed(s);
    if r.None? || !lex.ok then None else Some(Out(r.value.(allowed := true), BlockScalar, lex.mark))
  }

  predicate IsLive(k: SimpleKey, mark: Mark) {
    k.possible && !IsStale(k, mark)
  }

  /** KEY goes before the first token of the key, and the start of the block before that. */
  function KeyPutIn(s: Scan, k: SimpleKey): Scan {
    var s1 := s.(out := PutIn(s.out, k.number, Token(Key, k.mark)));
    WithLast(Rolled(s1, k.mark.column, k.number, BlockMappingStart, k.mark), k.(possible := false))
  }

  /** A ':' makes the node before it a simple key, if it can be one, or ends a key after '?'. */
  function KeyBefore(s: Scan, mark: Mark): Option<Scan> {
    var k := LastKey(s);
    if IsLive(k, mark) then Some(KeyPutIn(s, k).(allowed := false))
    else if s.flow == 0 && !s.allowed then None
    else Some(Rolled(s, mark.column, -1, BlockMappingStart, mark).(allowed := s.flow == 0))
  }

  function ValueAt(s: Scan, lex: Lexeme): Option<Scan> {
    var r := KeyBefore(s, lex.mark);
    if r.None? then None else Some(Out(r.value, Value, lex.mark))
  }

  function DispatchTo(s: Scan, lex: Lexeme): Option<Scan> {
    match lex.kind
    case StreamEnd => StreamEndAt(s, lex)
    case Directive => DocumentTokenAt(s, lex)
    case DocumentIndicator => DocumentTokenAt(s, lex)
    case FlowStart => FlowStartAt(s, lex)
    case FlowEnd => FlowEndAt(s, lex)
    case FlowEntry => FlowEntryAt(s, lex)
    case BlockEntry => BlockIndicatorAt(s, lex)
    case Key => BlockIndicatorAt(s, lex)
    case Value => ValueAt(s, lex)
    case AnchorOrAlias => KeyLikeAt(s, lex)
    case Tag => KeyLikeAt(s, lex)
    case BlockScalar => BlockScalarAt(s, lex)
    case FlowScalar => KeyLikeAt(s, lex)
    case PlainScalar => KeyLikeAt(s, lex)
    case _ => None
  }

  /** In block context a new line may start a simple key. */
  function AtLexeme(s: Scan, lex: Lexeme): Scan {
    Unrolled(if lex.afterBreak && s.flow == 0 then s.(allowed := true) else s, lex.mark.column, lex.mark)
  }

  /** What the scanner makes of a lexeme: keys that are too old are given up first. */
  function Fetch(s: Scan, lex: Lexeme): Option<Scan> {
    if IsBroken(s.keys, lex.mark) then None
    else DispatchTo(AtLexeme(s.(keys := AllDropped(s.keys, lex.mark)), lex), lex)
  }

  // ----- what is handed out -----

  /** The scanner with its lexemes left, and the number of tokens handed out. */
  datatype Run = Run(s: Scan, started: bool, mark: Mark, lexemes: seq<Lexeme>, parsed: nat)

  function EndOf(lex: Lexeme): Mark {
    if lex.kind.StreamEnd? then EndMark(lex.mark) else lex.end
  }

  function FetchNext(r: Run): Option<Run> {
    if !r.started then Some(r.(s := BEGIN, started := true))
    else if r.lexemes == [] then None
    else
      var lex := r.lexemes[0];
      var f := Fetch(r.s, lex);
      if f.None? then None else Some(r.(s := f.value, mark := EndOf(lex), lexemes := r.lexemes[1..]))
  }

  function Potential(r: Run): nat {
    |r.lexemes| + if r.started then 0 else 1
  }

  /** A key may still be put in before the head. */
  predicate HeadIsKey(ks: seq<SimpleKey>, parsed: int) {
    exists i {:trigger ks[i]} :: 0 <= i < |ks| && ks[i].possible && ks[i].number == parsed
  }

  /** Fetches until the head is there and no key can be put in before it any more. */
  function FetchMore(r: Run): (m: Option<Run>)
    ensures m.Some? ==>
      && m.value.parsed == r.parsed < |m.value.s.out| && m.value.started && Potential(m.value) <= Potential(r)
      && (Potential(m.value) == Potential(r) ==> m.value.s.out == r.s.out)
    decreases Potential(r)
  {
    if r.parsed >= |r.s.out| || !r.started then
      var f := FetchNext(r);
      if f.None? then None else FetchMore(f.value)
    else if IsBroken(r.s.keys, r.mark) then None
    else
      var r1 := r.(s := r.s.(keys := AllDropped(r.s.keys, r.mark)));
      if HeadIsKey(r1.s.keys, r.parsed) then
        var f := FetchNext(r1);
        if f.None? then None else FetchMore(f.value)
      else Some(r1)
  }

  /** Before the start of the stream. */
  function AtStart(lexemes: seq<Lexeme>): Run {
    Run(Scan([], [], false, 0, 0, []), false, ORIGIN, lexemes, 0)
  }
}
