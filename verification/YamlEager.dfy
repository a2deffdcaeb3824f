/** Tokens are handed out before the rest of the stream is fetched. None is handed out too early: they
    are those that come out when all is fetched first. */
module YamlEager {
  import opened Options
  import opened YamlFetch
  import opened YamlQueue

  // ----- positions -----

  predicate UpTo(a: Mark, b: Mark) {
    a.index <= b.index && a.line <= b.line && (a.line == b.line ==> a.column <= b.column)
  }

  predicate Past(a: Mark, b: Mark) {
    UpTo(a, b) && (a.line == b.line ==> a.column < b.column)
  }

  /** The lexeme stands behind `m`: it is after a break if it is on a later line, and has some text; a
      plain scalar that ends with a break ends on a later line. */
  predicate IsBehind(m: Mark, lex: Lexeme) {
    && UpTo(m, lex.mark) && (lex.afterBreak <==> m.line < lex.mark.line)
    && (!lex.kind.StreamEnd? ==> Past(lex.mark, lex.end))
    && (lex.kind.PlainScalar? && lex.endsLine ==> lex.mark.line < lex.end.line)
  }

  /** The lexemes stand in the text one behind the other. */
  predicate InOrder(m: Mark, ls: seq<Lexeme>)
    decreases |ls|
  {
    ls != [] ==> IsBehind(m, ls[0]) && InOrder(EndOf(ls[0]), ls[1..])
  }

  // ----- all is fetched first -----

  /** Keys that are too old are not given up: they just are no keys any more. */
  function FetchEager(s: Scan, lex: Lexeme): Option<Scan> {
    if IsBroken(s.keys, lex.mark) then None else DispatchTo(AtLexeme(s, lex), lex)
  }

  /** All lexemes up to the end of the stream. */
  function ToEnd(s: Scan, ls: seq<Lexeme>): Option<Scan>
    decreases |ls|
  {
    if ls == [] then None
    else
      var f := FetchEager(s, ls[0]);
      if f.None? then None
      else if ls[0].kind.StreamEnd? then if IsBroken(f.value.keys, EndOf(ls[0])) then None else f
      else ToEnd(f.value, ls[1..])
  }

  /** The tokens handed out, up to the end of the stream. */
  function AllHanded(r: Run): Option<seq<Token>>
    decreases Potential(r), |r.s.out| - r.parsed
  {
    var m := FetchMore(r);
    if m.None? then None
    else
      var out := m.value.s.out;
      if out[r.parsed].kind.StreamEnd? then Some(out[..r.parsed + 1]) else AllHanded(m.value.(parsed := r.parsed + 1))
  }

  // ----- keys that have been given up -----

  /** The first key is the second one, which may have been given up because it is too old. */
  predicate IsKin(k: SimpleKey, e: SimpleKey, mark: Mark) {
    k == e || (k == e.(possible := false) && IsStale(e, mark) && !e.required)
  }

  ghost predicate AreKin(ks: seq<SimpleKey>, es: seq<SimpleKey>, mark: Mark) {
    |ks| == |es| && forall i {:trigger ks[i]} {:trigger es[i]} :: 0 <= i < |ks| ==> IsKin(ks[i], es[i], mark)
  }

  lemma KinLater(ks: seq<SimpleKey>, es: seq<SimpleKey>, a: Mark, b: Mark)
    requires AreKin(ks, es, a) && UpTo(a, b)
    ensures AreKin(ks, es, b)
  {
    forall i | 0 <= i < |ks|
      ensures IsKin(ks[i], es[i], b)
    {
      assert IsKin(ks[i], es[i], a);
    }
  }

  lemma KinBroken(ks: seq<SimpleKey>, es: seq<SimpleKey>, mark: Mark)
    requires AreKin(ks, es, mark)
    ensures IsBroken(ks, mark) <==> IsBroken(es, mark)
  {
    if IsBroken(ks, mark) {
      var i :| 0 <= i < |ks| && ks[i].required && IsStale(ks[i], mark);
      assert IsKin(ks[i], es[i], mark);
      assert es[i].required && IsStale(es[i], mark);
    }
    if IsBroken(es, mark) {
      var i :| 0 <= i < |es| && es[i].required && IsStale(es[i], mark);
      assert IsKin(ks[i], es[i], mark);
      assert ks[i].required && IsStale(ks[i], mark);
    }
  }

  lemma KinDropped(ks: seq<SimpleKey>, es: seq<SimpleKey>, mark: Mark)
    requires AreKin(ks, es, mark) && !IsBroken(ks, mark)
    ensures AreKin(AllDropped(ks, mark), es, mark)
  {
    var ds := AllDropped(ks, mark);
    forall i | 0 <= i < |ds|
      ensures IsKin(ds[i], es[i], mark)
    {
      assert IsKin(ks[i], es[i], mark);
    }
  }

  /** The same but for keys that have been given up. */
  ghost predicate IsLike(a: Scan, e: Scan, mark: Mark) {
    a == e.(keys := a.keys) && AreKin(a.keys, e.keys, mark)
  }

  ghost predicate BothLike(a: Option<Scan>, e: Option<Scan>, mark: Mark) {
    (a.None? <==> e.None?) && (a.Some? ==> IsLike(a.value, e.value, mark))
  }

  lemma RemovedLike(a: Scan, e: Scan, mark: Mark)
    requires IsLike(a, e, mark)
    ensures BothLike(Removed(a), Removed(e), mark)
  {}

  lemma SavedLike(a: Scan, e: Scan, mark: Mark, m: Mark)
    requires IsLike(a, e, mark)
    ensures BothLike(Saved(a, m), Saved(e, m), mark)
  {}

  lemma {:induction false} UnrolledLike(a: Scan, e: Scan, mark: Mark, column: int, m: Mark)
    requires IsLike(a, e, mark)
    ensures IsLike(Unrolled(a, column, m), Unrolled(e, column, m), mark)
    decreases |a.indents|
  {
    if !(a.flow > 0 || a.indent <= column
        || a.indents == []) { UnrolledLike(Closed(a, m), Closed(e, m), mark, column, m); }
  }

  lemma RolledLike(a: Scan, e: Scan, mark: Mark, column: int, pos: int, kind: Kind, m: Mark)
    requires IsLike(a, e, mark)
    ensures IsLike(Rolled(a, column, pos, kind, m), Rolled(e, column, pos, kind, m), mark)
  {}

  lemma ResetLike(a: Scan, e: Scan, mark: Mark, m: Mark)
    requires IsLike(a, e, mark)
    ensures BothLike(Reset(a, m), Reset(e, m), mark)
  {
    hide AreKin, Removed;
    UnrolledLike(a, e, mark, -1, m);
    RemovedLike(Unrolled(a, -1, m), Unrolled(e, -1, m), mark);
  }

  lemma OuterLike(a: Scan, e: Scan, mark: Mark)
    requires IsLike(a, e, mark)
    ensures IsLike(OuterLevel(a), OuterLevel(e), mark)
  {}

  lemma InnerLike(ks: seq<SimpleKey>, es: seq<SimpleKey>, mark: Mark)
    requires AreKin(ks, es, mark)
    ensures AreKin(ks + [NO_KEY], es + [NO_KEY], mark)
  {
    forall i | 0 <= i < |ks| + 1
      ensures IsKin((ks + [NO_KEY])[i], (es + [NO_KEY])[i], mark)
    {
      if i < |ks| { assert IsKin(ks[i], es[i], mark); }
    }
  }

  lemma PutInLike(a: Scan, e: Scan, k: SimpleKey, mark: Mark)
    requires IsLike(a, e, mark)
    ensures IsLike(KeyPutIn(a, k), KeyPutIn(e, k), mark)
  {}

  lemma KeyBeforeLike(a: Scan, e: Scan, mark: Mark)
    requires IsLike(a, e, mark)
    ensures BothLike(KeyBefore(a, mark), KeyBefore(e, mark), mark)
  {
    hide KeyPutIn, Rolled;
    if a.keys != [] { assert IsKin(LastKey(a), LastKey(e), mark); }
    PutInLike(a, e, LastKey(a), mark);
    RolledLike(a, e, mark, mark.column, -1, BlockMappingStart, mark);
  }

  lemma DocumentLike(a: Scan, e: Scan, lex: Lexeme)
    requires IsLike(a, e, lex.mark)
    ensures BothLike(StreamEndAt(a, lex), StreamEndAt(e, lex), lex.mark)
    ensures BothLike(DocumentTokenAt(a, lex), DocumentTokenAt(e, lex), lex.mark)
  {
    hide AreKin, Reset;
    ResetLike(a, e, lex.mark, lex.mark);
    ResetLike(a, e, lex.mark, EndMark(lex.mark));
  }

  lemma KeyLikeLike(a: Scan, e: Scan, lex: Lexeme)
    requires IsLike(a, e, lex.mark)
    ensures BothLike(KeyLikeAt(a, lex), KeyLikeAt(e, lex), lex.mark)
    ensures BothLike(FlowStartAt(a, lex), FlowStartAt(e, lex), lex.mark)
  {
    hide AreKin, Saved;
    SavedLike(a, e, lex.mark, lex.mark);
    if Saved(a, lex.mark).Some? { InnerLike(Saved(a, lex.mark).value.keys, Saved(e, lex.mark).value.keys, lex.mark); }
  }

  lemma RemovingLike(a: Scan, e: Scan, lex: Lexeme)
    requires IsLike(a, e, lex.mark)
    ensures BothLike(FlowEndAt(a, lex), FlowEndAt(e, lex), lex.mark)
    ensures BothLike(FlowEntryAt(a, lex), FlowEntryAt(e, lex), lex.mark)
    ensures BothLike(BlockScalarAt(a, lex), BlockScalarAt(e, lex), lex.mark)
  {
    hide AreKin, Removed, OuterLevel;
    RemovedLike(a, e, lex.mark);
    if Removed(a).Some? { OuterLike(Removed(a).value, Removed(e).value, lex.mark); }
  }

  lemma IndicatorLike(a: Scan, e: Scan, lex: Lexeme)
    requires IsLike(a, e, lex.mark)
    ensures BothLike(BlockIndicatorAt(a, lex), BlockIndicatorAt(e, lex), lex.mark)
    ensures BothLike(ValueAt(a, lex), ValueAt(e, lex), lex.mark)
  {
    hide AreKin, Removed, Rolled, KeyBefore;
    KeyBeforeLike(a, e, lex.mark);
    RolledLike(a, e, lex.mark, lex.mark.column, -1, BlockOf(lex.kind), lex.mark);
    RemovedLike(Rolled(a, lex.mark.column, -1, BlockOf(lex.kind), lex.mark),
        Rolled(e, lex.mark.column, -1, BlockOf(lex.kind), lex.mark), lex.mark);
  }

  lemma NoneLike(mark: Mark)
    ensures BothLike(None, None, mark)
  {}

  lemma DispatchLike(a: Scan, e: Scan, lex: Lexeme)
    requires IsLike(a, e, lex.mark)
    ensures BothLike(DispatchTo(a, lex), DispatchTo(e, lex), lex.mark)
  {
    hide BothLike, IsLike, StreamEndAt, DocumentTokenAt, FlowStartAt, FlowEndAt, FlowEntryAt, BlockIndicatorAt, ValueAt,
        KeyLikeAt, BlockScalarAt;
    NoneLike(lex.mark);
    DocumentLike(a, e, lex);
    KeyLikeLike(a, e, lex);
    RemovingLike(a, e, lex);
    IndicatorLike(a, e, lex);
  }

  /** One lexeme. */
  lemma FetchLike(a: Scan, e: Scan, m: Mark, lex: Lexeme)
    requires IsLike(a, e, m) && IsBehind(m, lex)
    ensures BothLike(Fetch(a, lex), FetchEager(e, lex), EndOf(lex))
  {
    hide DispatchTo, Unrolled, IsBroken, AllDropped;
    KinLater(a.keys, e.keys, m, lex.mark);
    KinBroken(a.keys, e.keys, lex.mark);
    if !IsBroken(a.keys, lex.mark) {
      var a1 := a.(keys := AllDropped(a.keys, lex.mark));
      KinDropped(a.keys, e.keys, lex.mark);
      var a2 := if lex.afterBreak && a.flow == 0 then a1.(allowed := true) else a1;
      var e2 := if lex.afterBreak && a.flow == 0 then e.(allowed := true) else e;
      UnrolledLike(a2, e2, lex.mark, lex.mark.column, lex.mark);
      DispatchLike(AtLexeme(a1, lex), AtLexeme(e, lex), lex);
      var f := Fetch(a, lex);
      if f.Some? { KinLater(f.value.keys, FetchEager(e, lex).value.keys, lex.mark, EndOf(lex)); }
    }
  }

  // ----- what a lexeme leaves behind -----

  /** Possible keys start before this position. */
  ghost predicate KeysPast(ks: seq<SimpleKey>, mark: Mark) {
    forall i {:trigger ks[i]} :: 0 <= i < |ks| && ks[i].possible ==> Past(ks[i].mark, mark)
  }

  ghost predicate NoEnd(ts: seq<Token>) {
    forall i {:trigger ts[i]} :: 0 <= i < |ts| ==> !ts[i].kind.StreamEnd?
  }

  /** Keys are the old ones, and perhaps one more; tokens are none for the end of the stream. */
  ghost predicate GoesOn(s: Scan, r: Option<Scan>, mark: Mark) {
    r.Some? ==>
      && (NoEnd(s.out) ==> NoEnd(r.value.out))
      && forall i {:trigger r.value.keys[i]} :: 0 <= i < |r.value.keys| && r.value.keys[i].possible ==>
           r.value.keys[i].mark == mark || r.value.keys[i] in s.keys
  }

  lemma PutInNoEnd(q: seq<Token>, pos: int, t: Token)
    requires NoEnd(q) && !t.kind.StreamEnd?
    ensures NoEnd(PutIn(q, pos, t))
  {}

  lemma RemovedGoes(s: Scan, mark: Mark)
    ensures GoesOn(s, Removed(s), mark)
  {}

  lemma SavedGoes(s: Scan, mark: Mark)
    ensures GoesOn(s, Saved(s, mark), mark)
  {}

  lemma {:induction false} UnrolledGoes(s: Scan, column: int, m: Mark, mark: Mark)
    ensures GoesOn(s, Some(Unrolled(s, column, m)), mark) && Unrolled(s, column, m).keys == s.keys
    decreases |s.indents|
  {
    if !(s.flow > 0 || s.indent <= column || s.indents == []) { UnrolledGoes(Closed(s, m), column, m, mark); }
  }

  lemma RolledGoes(s: Scan, column: int, pos: int, kind: Kind, m: Mark, mark: Mark)
    requires !kind.StreamEnd?
    ensures GoesOn(s, Some(Rolled(s, column, pos, kind, m)), mark) && Rolled(s, column, pos, kind, m).keys == s.keys
  {
    if NoEnd(s.out) { PutInNoEnd(s.out, pos, Token(kind, m)); }
  }

  lemma Chain(s: Scan, t: Scan, r: Option<Scan>, mark: Mark)
    requires GoesOn(s, Some(t), mark) && GoesOn(t, r, mark)
    ensures GoesOn(s, r, mark)
  {}

  lemma ResetGoes(s: Scan, m: Mark, mark: Mark)
    ensures GoesOn(s, Reset(s, m), mark)
  {
    hide GoesOn, Removed;
    var t := Unrolled(s, -1, m);
    UnrolledGoes(s, -1, m, mark);
    RemovedGoes(t, mark);
    Chain(s, t, Removed(t), mark);
    if Removed(t).Some? { Allows(s, Removed(t).value, false, mark); }
  }

  /** What is not about keys and tokens does not matter. */
  lemma Allows(s: Scan, t: Scan, allowed: bool, mark: Mark)
    requires GoesOn(s, Some(t), mark)
    ensures GoesOn(s, Some(t.(allowed := allowed)), mark)
  {}

  lemma Appends(s: Scan, t: Scan, kind: Kind, m: Mark, mark: Mark)
    requires GoesOn(s, Some(t), mark) && !kind.StreamEnd?
    ensures GoesOn(s, Some(Out(t, kind, m)), mark)
  {}

  lemma KeyBeforeGoes(s: Scan, mark: Mark)
    ensures GoesOn(s, KeyBefore(s, mark), mark)
  {
    var k := LastKey(s);
    if IsLive(k, mark) {
      var s1 := s.(out := PutIn(s.out, k.number, Token(Key, k.mark)));
      if NoEnd(s.out) { PutInNoEnd(s.out, k.number, Token(Key, k.mark)); }
      RolledGoes(s1, k.mark.column, k.number, BlockMappingStart, k.mark, mark);
    } else {
      RolledGoes(s, mark.column, -1, BlockMappingStart, mark, mark);
    }
  }

  lemma FlowStartGoes(s: Scan, lex: Lexeme)
    ensures GoesOn(s, FlowStartAt(s, lex), lex.mark)
  {
    hide Saved;
    SavedGoes(s, lex.mark);
  }

  lemma FlowEndGoes(s: Scan, lex: Lexeme)
    ensures GoesOn(s, FlowEndAt(s, lex), lex.mark)
  {
    hide Removed;
    RemovedGoes(s, lex.mark);
  }

  lemma IndicatorGoes(s: Scan, lex: Lexeme)
    requires !lex.kind.StreamEnd?
    ensures GoesOn(s, BlockIndicatorAt(s, lex), lex.mark)
  {
    hide Removed, Rolled, GoesOn;
    var t := Rolled(s, lex.mark.column, -1, BlockOf(lex.kind), lex.mark);
    RolledGoes(s, lex.mark.column, -1, BlockOf(lex.kind), lex.mark, lex.mark);
    RemovedGoes(t, lex.mark);
    Chain(s, t, Removed(t), lex.mark);
    var r := BlockIndicatorAt(s, lex);
    if r.Some? {
      Allows(s, Removed(t).value, r.value.allowed, lex.mark);
      Appends(s, Removed(t).value.(allowed := r.value.allowed), lex.kind, lex.mark, lex.mark);
    } else {
      Nowhere(s, lex.mark);
    }
  }

  lemma Nowhere(s: Scan, mark: Mark)
    ensures GoesOn(s, None, mark)
  {}

  lemma KeyLikeGoes(s: Scan, lex: Lexeme)
    requires !lex.kind.StreamEnd?
    ensures GoesOn(s, KeyLikeAt(s, lex), lex.mark)
  {
    hide Saved;
    SavedGoes(s, lex.mark);
  }

  lemma ScalarGoes(s: Scan, lex: Lexeme)
    ensures GoesOn(s, BlockScalarAt(s, lex), lex.mark) && GoesOn(s, FlowEntryAt(s, lex), lex.mark)
  {
    hide Removed;
    RemovedGoes(s, lex.mark);
  }

  lemma DocumentGoes(s: Scan, lex: Lexeme)
    requires !lex.kind.StreamEnd?
    ensures GoesOn(s, DocumentTokenAt(s, lex), lex.mark)
  {
    hide Reset;
    ResetGoes(s, lex.mark, lex.mark);
  }

  lemma ValueGoes(s: Scan, lex: Lexeme)
    ensures GoesOn(s, ValueAt(s, lex), lex.mark)
  {
    hide KeyBefore;
    KeyBeforeGoes(s, lex.mark);
  }

  lemma DispatchGoes(s: Scan, lex: Lexeme)
    requires !lex.kind.StreamEnd?
    ensures GoesOn(s, DispatchTo(s, lex), lex.mark)
  {
    hide GoesOn, DocumentTokenAt, FlowStartAt, FlowEndAt, FlowEntryAt, BlockIndicatorAt, ValueAt, KeyLikeAt,
        BlockScalarAt;
    Nowhere(s, lex.mark);
    DocumentGoes(s, lex);
    FlowStartGoes(s, lex);
    FlowEndGoes(s, lex);
    IndicatorGoes(s, lex);
    KeyLikeGoes(s, lex);
    ScalarGoes(s, lex);
    ValueGoes(s, lex);
  }

  /** A lexeme that is not the end of the stream. */
  lemma FetchGoes(s: Scan, m: Mark, lex: Lexeme)
    requires KeysPast(s.keys, m) && NoEnd(s.out) && IsBehind(m, lex) && !lex.kind.StreamEnd? && FetchEager(s, lex).Some?
    ensures KeysPast(FetchEager(s, lex).value.keys, lex.end) && NoEnd(FetchEager(s, lex).value.out)
  {
    hide DispatchTo, Unrolled, IsBroken;
    var s1 := if lex.afterBreak && s.flow == 0 then s.(allowed := true) else s;
    UnrolledGoes(s1, lex.mark.column, lex.mark, lex.mark);
    DispatchGoes(AtLexeme(s, lex), lex);
    var ks := FetchEager(s, lex).value.keys;
    forall i | 0 <= i < |ks| && ks[i].possible
      ensures Past(ks[i].mark, lex.end)
    {
      if ks[i].mark != lex.mark { assert ks[i] in s.keys && Past(ks[i].mark, m); }
    }
  }

  /** The end of the stream: its token is the last, and all keys are too old. */
  lemma EndGoes(s: Scan, m: Mark, lex: Lexeme)
    requires KeysPast(s.keys, m) && NoEnd(s.out) && IsBehind(m, lex) && lex.kind.StreamEnd? && FetchEager(s, lex).Some?
    ensures IsOver(FetchEager(s, lex).value, EndOf(lex))
  {
    hide Reset, Unrolled, IsBroken;
    var s1 := if lex.afterBreak && s.flow == 0 then s.(allowed := true) else s;
    UnrolledGoes(s1, lex.mark.column, lex.mark, lex.mark);
    var t := AtLexeme(s, lex);
    ResetGoes(t, EndOf(lex), lex.mark);
    var r := Reset(t, EndOf(lex)).value;
    ResetKeys(t, EndOf(lex));
    forall i | 0 <= i < |r.keys| && r.keys[i].possible
      ensures r.keys[i].mark.line < EndOf(lex).line
    {
      assert r.keys[i] in s.keys && Past(r.keys[i].mark, m);
    }
  }

  lemma ResetKeys(s: Scan, mark: Mark)
    requires Reset(s, mark).Some?
    ensures var ks := Reset(s, mark).value.keys;
      forall i {:trigger ks[i]} :: 0 <= i < |ks| && ks[i].possible ==> ks[i] in s.keys
  {
    UnrolledGoes(s, -1, mark, mark);
  }

  // ----- handing out -----

  /** The stream has been scanned to its end. */
  ghost predicate IsOver(s: Scan, mark: Mark) {
    && s.out != [] && s.out[|s.out| - 1].kind.StreamEnd? && NoEnd(s.out[..|s.out| - 1])
    && forall i {:trigger s.keys[i]} :: 0 <= i < |s.keys| && s.keys[i].possible ==> s.keys[i].mark.line < mark.line
  }

  /** The scanner with its tokens handed out in between, and that which fetches all first. */
  ghost predicate Related(r: Run, e: Scan, over: bool) {
    && r.started && IsLike(r.s, e, r.mark) && r.parsed <= |e.out|
    && if over then r.parsed < |e.out| && IsOver(e, r.mark) && !IsBroken(e.keys, r.mark)
       else NoEnd(e.out) && KeysPast(e.keys, r.mark) && InOrder(r.mark, r.lexemes)
  }

  function Outcome(e: Scan, ls: seq<Lexeme>, over: bool): Option<Scan> {
    if over then Some(e) else ToEnd(e, ls)
  }

  lemma BrokenLater(ks: seq<SimpleKey>, a: Mark, b: Mark)
    requires IsBroken(ks, a) && UpTo(a, b)
    ensures IsBroken(ks, b)
  {
    var i :| 0 <= i < |ks| && ks[i].required && IsStale(ks[i], a);
    assert ks[i].required && IsStale(ks[i], b);
  }

  /** No key is left to be put in before the head. */
  lemma OverHasNoKeys(r: Run, e: Scan)
    requires Related(r, e, true)
    ensures !HeadIsKey(AllDropped(r.s.keys, r.mark), r.parsed)
  {
    var ds := AllDropped(r.s.keys, r.mark);
    forall i | 0 <= i < |ds|
      ensures !ds[i].possible
    {
      assert IsKin(r.s.keys[i], e.keys[i], r.mark);
    }
  }

  /** One lexeme is fetched. */
  lemma NextIsEager(r: Run, e: Scan) returns (e': Scan, over: bool)
    requires Related(r, e, false)
    ensures var f := FetchNext(r);
      if f.None? then ToEnd(e, r.lexemes).None?
      else if over && IsBroken(e'.keys, f.value.mark) then
        ToEnd(e, r.lexemes).None? && IsLike(f.value.s, e', f.value.mark) && f.value.started
        && f.value.parsed < |e'.out|
      else Related(f.value, e', over) && Outcome(e', f.value.lexemes, over) == ToEnd(e, r.lexemes)
  {
    hide Fetch, FetchEager, AreKin, KeysPast, NoEnd, IsBroken;
    e', over := e, false;
    if r.lexemes != [] {
      var lex := r.lexemes[0];
      FetchLike(r.s, e, r.mark, lex);
      if FetchEager(e, lex).Some? {
        e', over := FetchEager(e, lex).value, lex.kind.StreamEnd?;
        MoreOut(e, lex);
        if over { EndGoes(e, r.mark, lex); } else { FetchGoes(e, r.mark, lex); }
      }
    }
  }

  /** No token is taken back. */
  lemma MoreOut(s: Scan, lex: Lexeme)
    requires FetchEager(s, lex).Some?
    ensures |FetchEager(s, lex).value.out| > |s.out|
  {
    hide IsBroken, Removed, Saved, Reset, KeyBefore, Rolled;
    var s1 := if lex.afterBreak && s.flow == 0 then s.(allowed := true) else s;
    UnrolledLonger(s1, lex.mark.column, lex.mark);
    DispatchLonger(AtLexeme(s, lex), lex);
  }

  lemma {:induction false} UnrolledLonger(s: Scan, column: int, m: Mark)
    ensures |Unrolled(s, column, m).out| >= |s.out|
    decreases |s.indents|
  {
    if !(s.flow > 0 || s.indent <= column || s.indents == []) { UnrolledLonger(Closed(s, m), column, m); }
  }

  lemma ResetLonger(s: Scan, m: Mark)
    requires Reset(s, m).Some?
    ensures |Reset(s, m).value.out| >= |s.out|
  {
    UnrolledLonger(s, -1, m);
  }

  lemma KeyBeforeLonger(s: Scan, m: Mark)
    requires KeyBefore(s, m).Some?
    ensures |KeyBefore(s, m).value.out| >= |s.out|
  {}

  lemma IndicatorLonger(s: Scan, lex: Lexeme)
    requires BlockIndicatorAt(s, lex).Some?
    ensures |BlockIndicatorAt(s, lex).value.out| > |s.out|
  {}

  lemma DispatchLonger(s: Scan, lex: Lexeme)
    requires DispatchTo(s, lex).Some?
    ensures |DispatchTo(s, lex).value.out| > |s.out|
  {
    hide Reset, KeyBefore, BlockIndicatorAt, EndMark;
    if Reset(s, lex.mark).Some? { ResetLonger(s, lex.mark); }
    if Reset(s, EndMark(lex.mark)).Some? { ResetLonger(s, EndMark(lex.mark)); }
    if KeyBefore(s, lex.mark).Some? { KeyBeforeLonger(s, lex.mark); }
    if BlockIndicatorAt(s, lex).Some? { IndicatorLonger(s, lex); }
  }

  /** What is fetched for the head. */
  lemma {:induction false} MoreIsEager(r: Run, e: Scan, over: bool) returns (e': Scan, over': bool)
    requires Related(r, e, over)
    ensures FetchMore(r).None? ==> Outcome(e, r.lexemes, over).None?
    ensures FetchMore(r).Some? ==>
      && Related(FetchMore(r).value, e', over')
      && Outcome(e', FetchMore(r).value.lexemes, over') == Outcome(e, r.lexemes, over)
    decreases Potential(r)
  {
    hide Fetch, FetchEager, AreKin, KeysPast, NoEnd, IsBroken, AllDropped, HeadIsKey, IsOver, InOrder, FetchNext;
    e', over' := e, over;
    KinBroken(r.s.keys, e.keys, r.mark);
    if r.parsed < |r.s.out| && IsBroken(r.s.keys, r.mark) {
      BrokenFails(r, e);
    } else {
      var r1 := r;
      if r.parsed < |r.s.out| {
        r1 := r.(s := r.s.(keys := AllDropped(r.s.keys, r.mark)));
        KinDropped(r.s.keys, e.keys, r.mark);
      }
      if over { OverHasNoKeys(r, e); }
      if r.parsed >= |r.s.out| || HeadIsKey(r1.s.keys, r.parsed) {
        e', over' := NextIsEager(r1, e);
        var f := FetchNext(r1);
        if f.Some? {
          PotentialFalls(r1);
          if over' && IsBroken(e'.keys, f.value.mark) {
            KinBroken(f.value.s.keys, e'.keys, f.value.mark);
          } else {
            e', over' := MoreIsEager(f.value, e', over');
          }
        }
      }
    }
  }

  lemma PotentialFalls(r: Run)
    requires FetchNext(r).Some?
    ensures Potential(FetchNext(r).value) < Potential(r)
  {}

  lemma BrokenFails(r: Run, e: Scan)
    requires Related(r, e, false) && IsBroken(e.keys, r.mark)
    ensures ToEnd(e, r.lexemes).None?
  {
    if r.lexemes != [] { BrokenLater(e.keys, r.mark, r.lexemes[0].mark); }
  }

  /** The tokens handed out are those that come out when all is fetched first. */
  lemma {:induction false} HandedIsEager(r: Run, e: Scan, over: bool)
    requires Related(r, e, over)
    ensures var o := Outcome(e, r.lexemes, over);
      AllHanded(r) == if o.None? then None else Some(o.value.out)
    decreases Potential(r), |r.s.out| - r.parsed
  {
    hide FetchMore, ToEnd, AreKin, KeysPast, IsBroken, InOrder;
    var e', over' := MoreIsEager(r, e, over);
    var m := FetchMore(r);
    if m.Some? {
      var out := m.value.s.out;
      MoreFacts(r);
      if out[r.parsed].kind.StreamEnd? {
        EndIsLast(out, r.parsed, over');
        assert out[..r.parsed + 1] == out;
      } else {
        HandedIsEager(m.value.(parsed := r.parsed + 1), e', over');
      }
    }
  }

  lemma EndIsLast(out: seq<Token>, i: nat, over: bool)
    requires i < |out| && out[i].kind.StreamEnd? && NoEnd(if over then out[..|out| - 1] else out)
    ensures over && i == |out| - 1
  {}

  lemma MoreFacts(r: Run)
    requires FetchMore(r).Some?
    ensures var m := FetchMore(r).value;
      && m.parsed == r.parsed < |m.s.out| && m.started && Potential(m) <= Potential(r)
      && (Potential(m) == Potential(r) ==> m.s.out == r.s.out)
  {}

  /** From the start of the stream. */
  lemma AllIsEager(lexemes: seq<Lexeme>)
    requires InOrder(ORIGIN, lexemes)
    ensures var o := ToEnd(BEGIN, lexemes);
      AllHanded(AtStart(lexemes)) == if o.None? then None else Some(o.value.out)
  {
    hide ToEnd, InOrder;
    var r := AtStart(lexemes).(s := BEGIN, started := true);
    assert FetchMore(AtStart(lexemes)) == FetchMore(r);
    HandedIsEager(r, BEGIN, false);
  }
}
