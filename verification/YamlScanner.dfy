/** How the scanner of yaml.v2 keeps its queue of tokens: potential simple keys, before which a
    token is put in afterwards, and the levels of indentation. */
module YamlScanner {
  import opened Options
  import opened YamlEager
  import opened YamlFetch
  import opened YamlLayout
  import opened YamlQueue

  // ----- what is kept -----

  /** The key's first token is in the queue, where its number says. */
  ghost predicate KeyOk(k: SimpleKey, parsed: int, q: seq<Token>) {
    k.possible ==> parsed <= k.number < parsed + |q| && q[k.number - parsed].start == k.mark
  }

  /** Keys of inner flow levels come later in the queue. */
  ghost predicate KeysOk(ks: seq<SimpleKey>, parsed: int, q: seq<Token>) {
    && (forall i {:trigger ks[i]} :: 0 <= i < |ks| ==> KeyOk(ks[i], parsed, q))
    && (forall i, j {:trigger ks[i], ks[j]} :: 0 <= i < j < |ks| && ks[i].possible && ks[j].possible ==>
        ks[i].number < ks[j].number)
  }

  function OpenCount(ts: seq<Token>): int {
    if ts == [] then 0
    else OpenCount(ts[..|ts| - 1]) + Opens(ts[|ts| - 1].kind)
  }

  function Opens(k: Kind): int {
    if k.BlockSequenceStart? || k.BlockMappingStart? then 1 else if k.BlockEnd? then -1 else 0
  }

  lemma {:induction false} OpenConcat(a: seq<Token>, b: seq<Token>)
    ensures OpenCount(a + b) == OpenCount(a) + OpenCount(b)
    decreases |b|
  {
    if b == [] {
      assert a + b == a;
    } else {
      assert (a + b)[..|a + b| - 1] == a + b[..|b| - 1];
      OpenConcat(a, b[..|b| - 1]);
    }
  }

  lemma OpenInserted(a: seq<Token>, q: seq<Token>, pos: int, t: Token)
    requires pos <= |q|
    ensures OpenCount(a + InsertedAt(q, pos, t)) == OpenCount(a + q) + Opens(t.kind)
  {
    var p := if pos < 0 then |q| else pos;
    assert q == q[..p] + q[p..];
    assert InsertedAt(q, pos, t) == q[..p] + ([t] + q[p..]);
    OpenConcat(a, q);
    OpenConcat(a, InsertedAt(q, pos, t));
    OpenConcat(q[..p], q[p..]);
    OpenConcat(q[..p], [t] + q[p..]);
    OpenConcat([t], q[p..]);
    assert [t][..0] == [];
  }

  /** Keys may be given up. */
  ghost predicate FewerKeys(ks: seq<SimpleKey>, ks': seq<SimpleKey>) {
    |ks'| == |ks| && forall i {:trigger ks'[i]} :: 0 <= i < |ks| ==>
        ks'[i] == ks[i] || ks'[i] == ks[i].(possible := false)
  }

  lemma FewerKeysOk(ks: seq<SimpleKey>, ks': seq<SimpleKey>, parsed: int, q: seq<Token>)
    requires KeysOk(ks, parsed, q) && FewerKeys(ks, ks')
    ensures KeysOk(ks', parsed, q)
  {
    forall i, j | 0 <= i < j < |ks'| && ks'[i].possible && ks'[j].possible
      ensures ks'[i].number < ks'[j].number
    {
      assert ks[i].possible && ks[j].possible;
    }
  }

  /** Tokens may be put in behind the first tokens of all keys. */
  lemma KeysInserted(ks: seq<SimpleKey>, parsed: int, q: seq<Token>, pos: int, t: Token)
    requires KeysOk(ks, parsed, q) && pos <= |q|
    requires pos < 0 || forall i {:trigger ks[i]} :: 0 <= i < |ks| && ks[i].possible ==>
               ks[i].number < parsed + pos || (ks[i].number == parsed + pos && ks[i].mark == t.start)
    ensures KeysOk(ks, parsed, InsertedAt(q, pos, t))
  {}

  class Scanner {
    const queue: TokenQueue
    var lexemes: seq<Lexeme>
    var mark: Mark
    var tokensParsed: int
    var tokenAvailable: bool
    var streamStartProduced: bool
    var simpleKeys: seq<SimpleKey>
    var simpleKeyAllowed: bool
    var flowLevel: nat
    var indent: int
    var indents: seq<int>
    var error: bool
    ghost var handed: seq<Token>

    ghost predicate Ready()
      reads this, queue, queue.buf
    {
      queue.Valid()
    }

    ghost function Q(): seq<Token>
      requires Ready()
      reads this, queue, queue.buf
    {
      queue.Tokens()
    }

    ghost predicate Valid()
      reads this, queue, queue.buf
    {
      && Ready() && !error && tokensParsed == |handed|
      && KeysOk(simpleKeys, tokensParsed, Q())
      && (streamStartProduced ==> |simpleKeys| == flowLevel + 1 && IndentsOk(indents, indent))
      && (!streamStartProduced ==>
            simpleKeys == [] && flowLevel == 0 && indents == [] && Q() == [] && handed == [] && mark == ORIGIN)
      && OpenCount(handed + Q()) == |indents|
      && (tokenAvailable ==> Q() != [] && forall i :: 0 <= i < |simpleKeys| && simpleKeys[i].possible ==>
          simpleKeys[i].number != tokensParsed)
    }

    /** What the scanner has done so far. */
    ghost function Now(): Scan
      requires Ready()
      reads this, queue, queue.buf
    {
      Scan(handed + Q(), simpleKeys, simpleKeyAllowed, flowLevel, indent, indents)
    }

    /** The scanner has come to this state, or there was an error and it comes to none. */
    ghost predicate Took(r: Option<Scan>, ok: bool)
      reads this, queue, queue.buf
    {
      if ok then Ready() && r == Some(Now()) else r.None?
    }

    ghost function AsRun(): Run
      requires Ready()
      reads this, queue, queue.buf
    {
      Run(Now(), streamStartProduced, mark, lexemes, |handed|)
    }

    constructor (lexemes: seq<Lexeme>)
      ensures Valid() && AsRun() == AtStart(lexemes) && !tokenAvailable && fresh(queue) && fresh(queue.buf)
    {
      queue := new TokenQueue();
      this.lexemes, mark, tokensParsed, tokenAvailable, streamStartProduced := lexemes, ORIGIN, 0, false, false;
      simpleKeys, simpleKeyAllowed, flowLevel, indent, indents, error, handed := [], false, 0, 0, [], false, [];
    }

    method Fail() returns (ok: bool)
      modifies `error
      ensures error && !ok
    {
      error := true;
      ok := false;
    }

    // ----- the queue -----

    /** Appends a token that neither opens nor closes a block. */
    method Append(kind: Kind, start: Mark)
      requires Valid() && Opens(kind) == 0 && streamStartProduced && !tokenAvailable
      modifies queue, queue.buf
      ensures Valid() && Q() == old(Q()) + [Token(kind, start)] && Now() == Out(old(Now()), kind, start)
      ensures queue.buf == old(queue.buf) || fresh(queue.buf)
    {
      var t := Token(kind, start);
      KeysInserted(simpleKeys, tokensParsed, Q(), -1, t);
      OpenInserted(handed, Q(), -1, t);
      queue.Insert(-1, t);
      assert handed + Q() == handed + old(Q()) + [t];
    }

    // ----- simple keys -----

    /** Gives up the keys that have become too old or too long; it is an error if one of them is required. */
    method StaleSimpleKeys() returns (ok: bool)
      requires Valid()
      modifies `simpleKeys, `error
      ensures !ok ==> error
      ensures ok <==> !IsBroken(old(simpleKeys), mark)
      ensures ok ==> Valid() && simpleKeys == AllDropped(old(simpleKeys), mark)
      ensures ok ==> forall i :: 0 <= i < |simpleKeys| ==> !IsStale(simpleKeys[i], mark)
    {
      ghost var ks := simpleKeys;
      hide KeysOk, OpenCount, IndentsOk;
      for i := 0 to |simpleKeys|
        invariant Ready() && !error && Q() == old(Q()) && |simpleKeys| == |ks|
        invariant forall j {:trigger ks[j]} :: 0 <= j < i ==> simpleKeys[j] == Dropped(ks[j], mark)
        invariant forall j {:trigger ks[j]} :: 0 <= j < i ==> !(ks[j].required && IsStale(ks[j], mark))
        invariant forall j :: i <= j < |ks| ==> simpleKeys[j] == ks[j]
      {
        if IsStale(simpleKeys[i], mark) {
          if simpleKeys[i].required {
            assert ks[i].required && IsStale(ks[i], mark);
            ok := Fail();
            return;
          }
          simpleKeys := simpleKeys[i := simpleKeys[i].(possible := false)];
        }
      }
      assert simpleKeys == AllDropped(ks, mark);
      FewerKeysOk(ks, simpleKeys, tokensParsed, Q());
      NoneStale(ks, mark);
      ok := true;
    }

    method RemoveSimpleKey() returns (ok: bool)
      requires Valid() && streamStartProduced
      modifies `simpleKeys, `error
      ensures !ok ==> error
      ensures ok ==> Valid() && !simpleKeys[|simpleKeys| - 1].possible
      ensures Took(Removed(old(Now())), ok)
    {
      var i := |simpleKeys| - 1;
      if simpleKeys[i].possible && simpleKeys[i].required {
        ok := Fail();
        return;
      }
      ghost var ks := simpleKeys;
      simpleKeys := simpleKeys[i := simpleKeys[i].(possible := false)];
      FewerKeysOk(ks, simpleKeys, tokensParsed, Q());
      ok := true;
    }

    /** All is in order once a token that starts at `start` has been appended. */
    ghost predicate Pending(start: Mark)
      reads this, queue, queue.buf
    {
      && Ready() && !error && tokensParsed == |handed| && streamStartProduced && !tokenAvailable
      && KeysOk(simpleKeys, tokensParsed, Q() + [Token(StreamStart, start)])
      && |simpleKeys| == flowLevel + 1 && IndentsOk(indents, indent)
      && OpenCount(handed + Q()) == |indents|
    }

    /** If a simple key may start here, it is remembered with the number of the next token. */
    method SaveSimpleKey() returns (ok: bool)
      requires Valid() && streamStartProduced && !tokenAvailable
      modifies `simpleKeys, `error
      ensures !ok ==> error
      ensures ok ==> Pending(mark) && |simpleKeys| == |old(simpleKeys)|
      ensures ok ==> simpleKeys[|simpleKeys| - 1] ==
                     if simpleKeyAllowed then SimpleKey(true, flowLevel == 0 && indent == mark.column,
                         tokensParsed + |Q()|, mark)
                     else old(simpleKeys)[|simpleKeys| - 1]
      ensures Took(Saved(old(Now()), mark), ok)
    {
      hide KeysOk, OpenCount, IndentsOk, InsertedAt;
      var required := flowLevel == 0 && indent == mark.column;
      if simpleKeyAllowed {
        var n := queue.Count();
        var key := SimpleKey(true, required, tokensParsed + n, mark);
        ok := RemoveSimpleKey();
        if !ok { return; }
        KeySaved(simpleKeys, tokensParsed, Q(), key);
        simpleKeys := simpleKeys[|simpleKeys| - 1 := key];
        assert simpleKeys == old(simpleKeys)[|simpleKeys| - 1 := key];
      } else {
        KeysInserted(simpleKeys, tokensParsed, Q(), -1, Token(StreamStart, mark));
        Appended(Q(), mark);
      }
      ok := true;
    }

    /** Appends the token that a key may start with. */
    method AppendFirst(kind: Kind, start: Mark)
      requires Pending(start) && Opens(kind) == 0
      modifies queue, queue.buf
      ensures Valid() && Q() == old(Q()) + [Token(kind, start)] && Now() == Out(old(Now()), kind, start)
      ensures queue.buf == old(queue.buf) || fresh(queue.buf)
    {
      OpenInserted(handed, Q(), -1, Token(kind, start));
      queue.Insert(-1, Token(kind, start));
      assert handed + Q() == handed + old(Q()) + [Token(kind, start)];
    }

    method IncreaseFlowLevel(ghost start: Mark)
      requires Pending(start)
      modifies `simpleKeys, `flowLevel
      ensures Pending(start) && flowLevel == old(flowLevel) + 1 && simpleKeys == old(simpleKeys) + [NO_KEY]
    {
      simpleKeys := simpleKeys + [NO_KEY];
      flowLevel := flowLevel + 1;
    }

    method DecreaseFlowLevel()
      requires Valid() && streamStartProduced
      modifies `simpleKeys, `flowLevel
      ensures Valid() && Now() == OuterLevel(old(Now()))
    {
      if flowLevel > 0 {
        flowLevel := flowLevel - 1;
        simpleKeys := simpleKeys[..|simpleKeys| - 1];
      }
    }

    // ----- indentation -----

    /** A deeper column opens a block: its start token is appended or put in before a token of the
        queue, behind which there is no key. */
    method RollIndent(column: int, number: int, kind: Kind, start: Mark)
      requires Valid() && streamStartProduced && !tokenAvailable && Opens(kind) == 1
      requires number <= -1 || tokensParsed <= number <= tokensParsed + |Q()|
      requires number > -1 ==> forall i {:trigger simpleKeys[i]} :: 0 <= i < |simpleKeys| && simpleKeys[i].possible ==>
                 simpleKeys[i].number < number || (simpleKeys[i].number == number && simpleKeys[i].mark == start)
      modifies `indent, `indents, queue, queue.buf
      ensures Valid() && (queue.buf == old(queue.buf) || fresh(queue.buf))
      ensures if flowLevel == 0 && old(indent) < column
              then Q() == InsertedAt(old(Q()), if number > -1 then number - tokensParsed
                  else number, Token(kind, start))
                   && indent == column && indents == old(indents) + [old(indent)]
              else Q() == old(Q()) && indent == old(indent) && indents == old(indents)
      ensures Now() == Rolled(old(Now()), column, number, kind, start)
    {
      hide KeysOk, OpenCount, IndentsOk, InsertedAt, PutIn;
      if flowLevel > 0 { return; }
      if indent < column {
        AtEnd(Now().out, number, Token(kind, start));
        Put(if number > -1 then number - tokensParsed else number, Token(kind, start));
        DeeperIndent(indents, indent, column);
        indents := indents + [indent];
        indent := column;
      }
    }

    /** Puts a token into the queue; what blocks it opens or closes is accounted for by the caller. */
    method Put(pos: int, t: Token)
      requires Ready() && KeysOk(simpleKeys, tokensParsed, Q()) && pos <= |Q()| && tokensParsed == |handed|
      requires pos < 0 || forall i {:trigger simpleKeys[i]} :: 0 <= i < |simpleKeys| && simpleKeys[i].possible ==>
                 simpleKeys[i].number < tokensParsed + pos
                     || (simpleKeys[i].number == tokensParsed + pos && simpleKeys[i].mark == t.start)
      modifies queue, queue.buf
      ensures Ready() && (queue.buf == old(queue.buf) || fresh(queue.buf))
      ensures KeysOk(simpleKeys, tokensParsed, Q()) && Q() == InsertedAt(old(Q()), pos, t) && |Q()| == |old(Q())| + 1
      ensures OpenCount(handed + Q()) == OpenCount(handed + old(Q())) + Opens(t.kind)
      ensures handed + Q() == PutIn(handed + old(Q()), if pos < 0 then -1 else tokensParsed + pos, t)
    {
      hide KeysOk, OpenCount, PutIn;
      KeysInserted(simpleKeys, tokensParsed, Q(), pos, t);
      OpenInserted(handed, Q(), pos, t);
      OutInserted(handed, Q(), pos, t);
      queue.Insert(pos, t);
    }

    /** The innermost block is closed. */
    method CloseBlock()
      requires Valid() && streamStartProduced && !tokenAvailable && indents != []
      modifies `indent, `indents, queue, queue.buf
      ensures Valid() && (queue.buf == old(queue.buf) || fresh(queue.buf))
      ensures Q() == old(Q()) + [Token(BlockEnd, mark)]
      ensures indent == old(indents)[|old(indents)| - 1] && indents == old(indents)[..|old(indents)| - 1]
      ensures Now() == Closed(old(Now()), mark)
    {
      hide KeysOk, OpenCount;
      Put(-1, Token(BlockEnd, mark));
      indent := indents[|indents| - 1];
      indents := indents[..|indents| - 1];
    }

    /** A lesser column closes the blocks that are deeper. */
    method UnrollIndent(column: int)
      requires Valid() && streamStartProduced && !tokenAvailable && column >= -1
      modifies `indent, `indents, queue, queue.buf
      ensures Valid() && (queue.buf == old(queue.buf) || fresh(queue.buf))
      ensures flowLevel == 0 ==> indent <= column && |indents| <= |old(indents)|
      ensures Q() == old(Q()) + Repeat(Token(BlockEnd, mark), |old(indents)| - |indents|)
      ensures flowLevel > 0 ==> indents == old(indents)
      ensures Now() == Unrolled(old(Now()), column, mark)
    {
      hide KeysOk, OpenCount;
      if flowLevel > 0 { return; }
      while indent > column
        invariant Valid() && (queue.buf == old(queue.buf) || fresh(queue.buf))
        invariant |indents| <= |old(indents)|
            && Q() == old(Q()) + Repeat(Token(BlockEnd, mark), |old(indents)| - |indents|)
        invariant Unrolled(Now(), column, mark) == Unrolled(old(Now()), column, mark)
        decreases |indents|
      {
        CloseBlock();
      }
    }

    // ----- the fetchers -----

    /** Ready to fetch: no token has been promised to the parser. */
    ghost predicate Fetching()
      reads this, queue, queue.buf
    {
      Valid() && streamStartProduced && !tokenAvailable
    }

    /** Nothing has been handed out, and the input is where it was. */
    twostate predicate Kept()
      reads this, queue
    {
      handed == old(handed) && tokensParsed == old(tokensParsed) && lexemes == old(lexemes)
      && (queue.buf == old(queue.buf) || fresh(queue.buf))
    }

    method FetchStreamStart()
      requires Valid() && !streamStartProduced && !tokenAvailable
      modifies this, queue, queue.buf
      ensures Fetching() && Q() == [Token(StreamStart, mark)] && indents == [] && flowLevel == 0
      ensures Kept() && Now() == BEGIN && mark == old(mark)
    {
      hide KeysOk, IndentsOk, OpenCount;
      NothingYet();
      indent := -1;
      simpleKeys := simpleKeys + [NO_KEY];
      simpleKeyAllowed := true;
      streamStartProduced := true;
      assert handed + Q() == [] && simpleKeys == [NO_KEY];
      Append(StreamStart, mark);
    }

    /** Ends all blocks, and any simple key, before a token that stands for itself. */
    method ResetAll() returns (ok: bool)
      requires Fetching()
      modifies `indent, `indents, `simpleKeys, `simpleKeyAllowed, `error, queue, queue.buf
      ensures !ok ==> error
      ensures ok ==> Fetching() && (flowLevel == 0 ==> indents == [] && indent == -1)
      ensures queue.buf == old(queue.buf) || fresh(queue.buf)
      ensures Took(Reset(old(Now()), mark), ok)
    {
      hide KeysOk, OpenCount;
      UnrollIndent(-1);
      NoBlocks();
      ok := RemoveSimpleKey();
      if !ok { return; }
      simpleKeyAllowed := false;
    }

    lemma NoBlocks()
      requires Fetching()
      ensures flowLevel == 0 && indent <= -1 ==> indents == [] && indent == -1
    {
      if indents != [] { IndentAbove(indents, indent); }
    }

    method FetchStreamEnd(ghost lex: Lexeme) returns (ok: bool)
      requires Fetching() && mark == lex.mark
      modifies this, queue, queue.buf
      ensures !ok ==> error
      ensures ok ==> Fetching() && Kept() && mark == EndMark(lex.mark)
      ensures ok && flowLevel == 0 ==> OpenCount(handed + Q()) == 0
      ensures Took(StreamEndAt(old(Now()), lex), ok)
    {
      hide KeysOk, OpenCount, IndentsOk, Reset;
      if mark.column != 0 { mark := Mark(mark.index, mark.line + 1, 0); }
      assert Now() == old(Now());
      ok := ResetAll();
      if !ok { return; }
      Append(StreamEnd, mark);
    }

    /** A directive, or the start or end of a document. */
    method FetchDocumentToken(lex: Lexeme) returns (ok: bool)
      requires Fetching() && (lex.kind.Directive? || lex.kind.DocumentIndicator?) && mark == lex.mark
      modifies this, queue, queue.buf
      ensures !ok ==> error
      ensures ok ==> Fetching() && Kept() && mark == lex.end
      ensures Took(DocumentTokenAt(old(Now()), lex), ok)
    {
      hide KeysOk, OpenCount, IndentsOk, Reset;
      ok := ResetAll();
      if !ok { return; }
      var start := mark;
      if !lex.ok {
        ok := Fail();
        return;
      }
      mark := lex.end;
      Append(lex.kind, start);
    }

    /** '[' or '{': it may start a simple key, and one may follow it. */
    method FetchFlowStart(lex: Lexeme) returns (ok: bool)
      requires Fetching() && mark == lex.mark
      modifies this, queue, queue.buf
      ensures !ok ==> error
      ensures ok ==> Fetching() && Kept() && mark == lex.end
      ensures Took(FlowStartAt(old(Now()), lex), ok)
    {
      hide KeysOk, OpenCount, IndentsOk, Saved;
      ok := SaveSimpleKey();
      if !ok { return; }
      var start := mark;
      IncreaseFlowLevel(start);
      simpleKeyAllowed := true;
      mark := lex.end;
      AppendFirst(FlowStart, start);
    }

    method FetchFlowEnd(lex: Lexeme) returns (ok: bool)
      requires Fetching() && mark == lex.mark
      modifies this, queue, queue.buf
      ensures !ok ==> error
      ensures ok ==> Fetching() && Kept() && mark == lex.end
      ensures Took(FlowEndAt(old(Now()), lex), ok)
    {
      hide KeysOk, OpenCount, IndentsOk, Removed, OuterLevel;
      ok := RemoveSimpleKey();
      if !ok { return; }
      DecreaseFlowLevel();
      simpleKeyAllowed := false;
      var start := mark;
      mark := lex.end;
      Append(FlowEnd, start);
    }

    method FetchFlowEntry(lex: Lexeme) returns (ok: bool)
      requires Fetching() && mark == lex.mark
      modifies this, queue, queue.buf
      ensures !ok ==> error
      ensures ok ==> Fetching() && Kept() && mark == lex.end
      ensures Took(FlowEntryAt(old(Now()), lex), ok)
    {
      hide KeysOk, OpenCount, IndentsOk, Removed;
      ok := RemoveSimpleKey();
      if !ok { return; }
      simpleKeyAllowed := true;
      var start := mark;
      mark := lex.end;
      Append(FlowEntry, start);
    }

    /** A block starts here if the column is deeper; it is an error if no entry may stand here. */
    method OpenBlock(kind: Kind) returns (ok: bool)
      requires Fetching() && Opens(kind) == 1
      modifies `error, `indent, `indents, queue, queue.buf
      ensures !ok ==> error
      ensures ok ==> Fetching() && Kept()
      ensures ok <==> flowLevel > 0 || simpleKeyAllowed
      ensures ok ==> Now() == Rolled(old(Now()), mark.column, -1, kind, mark)
    {
      hide KeysOk, OpenCount, IndentsOk;
      if flowLevel == 0 {
        if !simpleKeyAllowed {
          ok := Fail();
          return;
        }
        RollIndent(mark.column, -1, kind, mark);
      }
      ok := true;
    }

    /** '-' or '?', which open a block if they stand deeper than the one around them. */
    method FetchBlockIndicator(lex: Lexeme) returns (ok: bool)
      requires Fetching() && (lex.kind.BlockEntry? || lex.kind.Key?) && mark == lex.mark
      modifies this, queue, queue.buf
      ensures !ok ==> error
      ensures ok ==> Fetching() && Kept() && mark == lex.end
      ensures Took(BlockIndicatorAt(old(Now()), lex), ok)
    {
      hide KeysOk, OpenCount, IndentsOk, Removed, Rolled;
      ok := OpenBlock(if lex.kind.BlockEntry? then BlockSequenceStart else BlockMappingStart);
      if !ok { return; }
      ok := RemoveSimpleKey();
      if !ok { return; }
      simpleKeyAllowed := lex.kind.BlockEntry? || flowLevel == 0;
      var start := mark;
      mark := lex.end;
      Append(lex.kind, start);
    }

    /** An alias or anchor, a tag, or a scalar on one line: it may be a simple key. */
    method FetchKeyLike(lex: Lexeme) returns (ok: bool)
      requires Fetching() && mark == lex.mark
      requires lex.kind.AnchorOrAlias? || lex.kind.Tag? || lex.kind.FlowScalar? || lex.kind.PlainScalar?
      modifies this, queue, queue.buf
      ensures !ok ==> error
      ensures ok ==> Fetching() && Kept() && mark == lex.end
      ensures Took(KeyLikeAt(old(Now()), lex), ok)
    {
      hide KeysOk, OpenCount, IndentsOk, Saved;
      ok := SaveSimpleKey();
      if !ok { return; }
      simpleKeyAllowed := lex.kind.PlainScalar? && lex.endsLine;
      if !lex.ok {
        ok := Fail();
        return;
      }
      var start := mark;
      mark := lex.end;
      AppendFirst(lex.kind, start);
    }

    method FetchBlockScalar(lex: Lexeme) returns (ok: bool)
      requires Fetching() && mark == lex.mark
      modifies this, queue, queue.buf
      ensures !ok ==> error
      ensures ok ==> Fetching() && Kept() && mark == lex.end
      ensures Took(BlockScalarAt(old(Now()), lex), ok)
    {
      hide KeysOk, OpenCount, IndentsOk, Removed;
      ok := RemoveSimpleKey();
      if !ok { return; }
      simpleKeyAllowed := true;
      if !lex.ok {
        ok := Fail();
        return;
      }
      var start := mark;
      mark := lex.end;
      Append(BlockScalar, start);
    }

    /** ':'. After a simple key, a KEY token is put in right before the first token of the key, which
        is still in the queue, and a BLOCK-MAPPING-START before that if the key opens a block. */
    method FetchValue(lex: Lexeme) returns (ok: bool)
      requires Fetching() && mark == lex.mark && !IsStale(simpleKeys[|simpleKeys| - 1], mark)
      modifies this, queue, queue.buf
      ensures !ok ==> error
      ensures ok ==> Fetching() && Kept() && mark == lex.end
      ensures var k := old(simpleKeys)[|old(simpleKeys)| - 1];
              k.possible ==>
                var p := k.number - old(tokensParsed);
                && ok && 0 <= p < |old(Q())| && old(Q())[p].start == k.mark
                && Q() == WithKey(old(Q()), p, old(flowLevel) == 0 && old(indent) < k.mark.column, k.mark)
                    + [Token(Value, old(mark))]
      ensures Took(ValueAt(old(Now()), lex), ok)
    {
      hide KeysOk, OpenCount, IndentsOk, WithKey, KeyBefore;
      ok := PutKeyBefore();
      if !ok { return; }
      var start := mark;
      mark := lex.end;
      Append(Value, start);
    }

    /** The simple key before a ':', or the end of a key after '?'. */
    method PutKeyBefore() returns (ok: bool)
      requires Fetching() && !IsStale(simpleKeys[|simpleKeys| - 1], mark)
      modifies `simpleKeys, `simpleKeyAllowed, `error, `indent, `indents, queue, queue.buf
      ensures !ok ==> error
      ensures ok ==> Fetching() && Kept()
      ensures var k := old(simpleKeys)[|old(simpleKeys)| - 1];
              k.possible ==>
                var p := k.number - old(tokensParsed);
                && ok && 0 <= p < |old(Q())| && old(Q())[p].start == k.mark
                && Q() == WithKey(old(Q()), p, old(flowLevel) == 0 && old(indent) < k.mark.column, k.mark)
      ensures Took(KeyBefore(old(Now()), mark), ok)
    {
      hide KeysOk, OpenCount, IndentsOk, WithKey, KeyPutIn, Rolled;
      var k := simpleKeys[|simpleKeys| - 1];
      if k.possible {
        InsertKey(k);
        simpleKeyAllowed := false;
        ok := true;
      } else {
        ok := ComplexKey();
      }
    }

    /** The ':' after a key that was announced by '?'. */
    method ComplexKey() returns (ok: bool)
      requires Fetching()
      modifies `simpleKeyAllowed, `error, `indent, `indents, queue, queue.buf
      ensures !ok ==> error
      ensures ok ==> Fetching() && Kept()
      ensures ok <==> flowLevel > 0 || old(simpleKeyAllowed)
      ensures ok ==> Now() == Rolled(old(Now()), mark.column, -1, BlockMappingStart, mark).(allowed := flowLevel == 0)
    {
      hide KeysOk, OpenCount, IndentsOk, Rolled;
      ok := OpenBlock(BlockMappingStart);
      if ok { simpleKeyAllowed := flowLevel == 0; }
    }

    method InsertKey(k: SimpleKey)
      requires Fetching() && k == simpleKeys[|simpleKeys| - 1] && k.possible
      modifies `simpleKeys, `indent, `indents, queue, queue.buf
      ensures Fetching() && (queue.buf == old(queue.buf) || fresh(queue.buf))
      ensures var p := k.number - tokensParsed;
              && 0 <= p < |old(Q())| && old(Q())[p].start == k.mark
              && Q() == WithKey(old(Q()), p, flowLevel == 0 && old(indent) < k.mark.column, k.mark)
      ensures Now() == KeyPutIn(old(Now()), k)
    {
      hide WithKey, Valid, Fetching, Rolled;
      PutKey(k);
      ForgetLast();
    }

    /** The KEY token, and BLOCK-MAPPING-START before it if the key opens a block. */
    method PutKey(k: SimpleKey)
      requires Fetching() && k == simpleKeys[|simpleKeys| - 1] && k.possible
      modifies `indent, `indents, queue, queue.buf
      ensures Fetching() && (queue.buf == old(queue.buf) || fresh(queue.buf))
      ensures var p := k.number - tokensParsed;
              && 0 <= p < |old(Q())| && old(Q())[p].start == k.mark
              && Q() == WithKey(old(Q()), p, flowLevel == 0 && old(indent) < k.mark.column, k.mark)
      ensures Now() == Rolled(old(Now()).(out := PutIn(old(Now()).out, k.number, Token(Key, k.mark))), k.mark.column,
                              k.number, BlockMappingStart, k.mark)
    {
      ghost var q := Q();
      hide KeysOk, OpenCount, IndentsOk, WithKey, InsertedAt, Valid, Fetching, PutIn, Rolled;
      LastNumber(k);
      InsertKeyToken(k);
      OpenForKey(k, q);
    }

    lemma LastNumber(k: SimpleKey)
      requires Fetching() && k == simpleKeys[|simpleKeys| - 1] && k.possible
      ensures 0 <= k.number - tokensParsed < |Q()| && Q()[k.number - tokensParsed].start == k.mark
      ensures forall i {:trigger simpleKeys[i]} :: 0 <= i < |simpleKeys| && simpleKeys[i].possible ==>
          simpleKeys[i].number < k.number || simpleKeys[i] == k
    {
      LastIsFirst(simpleKeys, tokensParsed, Q());
    }

    method OpenForKey(k: SimpleKey, ghost q: seq<Token>)
      requires Fetching() && 0 <= k.number - tokensParsed <= |q|
      requires Q() == InsertedAt(q, k.number - tokensParsed, Token(Key, k.mark)) && |Q()| == |q| + 1
      requires forall i {:trigger simpleKeys[i]} :: 0 <= i < |simpleKeys| && simpleKeys[i].possible ==>
          simpleKeys[i].number < k.number || simpleKeys[i] == k
      modifies `indent, `indents, queue, queue.buf
      ensures Fetching() && (queue.buf == old(queue.buf) || fresh(queue.buf))
      ensures Q() == WithKey(q, k.number - tokensParsed, flowLevel == 0 && old(indent) < k.mark.column, k.mark)
      ensures Now() == Rolled(old(Now()), k.mark.column, k.number, BlockMappingStart, k.mark)
    {
      hide KeysOk, OpenCount, IndentsOk, WithKey, InsertedAt, Rolled;
      RollIndent(k.mark.column, k.number, BlockMappingStart, k.mark);
      KeyThenBlock(q, k.number - tokensParsed, k.mark);
    }

    method InsertKeyToken(k: SimpleKey)
      requires Fetching() && k == simpleKeys[|simpleKeys| - 1] && k.possible
      modifies queue, queue.buf
      ensures Fetching() && (queue.buf == old(queue.buf) || fresh(queue.buf))
      ensures var p := k.number - tokensParsed;
              && 0 <= p < |old(Q())| && old(Q())[p].start == k.mark
              && Q() == InsertedAt(old(Q()), p, Token(Key, k.mark)) && |Q()| == |old(Q())| + 1
      ensures Now() == old(Now()).(out := PutIn(old(Now()).out, k.number, Token(Key, k.mark)))
    {
      hide KeysOk, OpenCount, IndentsOk, PutIn, IsStale, InsertedAt;
      LastNumber(k);
      assert tokensParsed + (k.number - tokensParsed) == k.number;
      Put(k.number - tokensParsed, Token(Key, k.mark));
    }

    method ForgetLast()
      requires Fetching()
      modifies `simpleKeys
      ensures Fetching()
      ensures Now() == WithLast(old(Now()), LastKey(old(Now())).(possible := false))
    {
      ghost var ks := simpleKeys;
      simpleKeys := simpleKeys[|simpleKeys| - 1 := simpleKeys[|simpleKeys| - 1].(possible := false)];
      FewerKeysOk(ks, simpleKeys, tokensParsed, Q());
    }

    // ----- what the parser asks for -----

    /** The scanner has come to the end of this, or there was an error. */
    ghost predicate Came(r: Option<Run>, ok: bool)
      reads this, queue, queue.buf
    {
      if ok then Ready() && r == Some(AsRun()) else r.None?
    }

    method FetchNextToken() returns (ok: bool)
      requires Valid() && !tokenAvailable
      modifies this, queue, queue.buf
      ensures !ok ==> error
      ensures ok ==>
          Valid() && !tokenAvailable && handed == old(handed)
          && (queue.buf == old(queue.buf) || fresh(queue.buf))
      ensures ok ==> Potential(AsRun()) < old(Potential(AsRun()))
      ensures Came(FetchNext(old(AsRun())), ok)
    {
      hide KeysOk, OpenCount, IndentsOk, Fetch;
      if !streamStartProduced {
        FetchStreamStart();
        return true;
      }
      if lexemes == [] {
        ok := Fail();
        return;
      }
      var lex := lexemes[0];
      lexemes := lexemes[1..];
      ok := FetchLexeme(lex);
    }

    /** The part of the input that a lexeme stands for, from what is before it to its end. */
    method FetchLexeme(lex: Lexeme) returns (ok: bool)
      requires Fetching()
      modifies this, queue, queue.buf
      ensures !ok ==> error
      ensures ok ==> Fetching() && Kept() && mark == EndOf(lex)
      ensures Took(Fetch(old(Now()), lex), ok)
    {
      hide KeysOk, OpenCount, IndentsOk, DispatchTo, IsBroken, AllDropped, Unrolled;
      mark := lex.mark;
      if lex.afterBreak && flowLevel == 0 { simpleKeyAllowed := true; }
      ok := StaleSimpleKeys();
      if !ok { return; }
      UnrollIndent(mark.column);
      ok := Dispatch(lex);
    }

    method Dispatch(lex: Lexeme) returns (ok: bool)
      requires Fetching() && mark == lex.mark && !IsStale(simpleKeys[|simpleKeys| - 1], mark)
      modifies this, queue, queue.buf
      ensures !ok ==> error
      ensures ok ==> Fetching() && Kept() && mark == EndOf(lex)
      ensures Took(DispatchTo(old(Now()), lex), ok)
    {
      hide KeysOk, OpenCount, IndentsOk, StreamEndAt, DocumentTokenAt, FlowStartAt, FlowEndAt, FlowEntryAt,
          BlockIndicatorAt, ValueAt, KeyLikeAt, BlockScalarAt;
      match lex.kind
      case StreamEnd => ok := FetchStreamEnd(lex);
      case Directive => ok := FetchDocumentToken(lex);
      case DocumentIndicator => ok := FetchDocumentToken(lex);
      case FlowStart => ok := FetchFlowStart(lex);
      case FlowEnd => ok := FetchFlowEnd(lex);
      case FlowEntry => ok := FetchFlowEntry(lex);
      case BlockEntry => ok := FetchBlockIndicator(lex);
      case Key => ok := FetchBlockIndicator(lex);
      case Value => ok := FetchValue(lex);
      case AnchorOrAlias => ok := FetchKeyLike(lex);
      case Tag => ok := FetchKeyLike(lex);
      case BlockScalar => ok := FetchBlockScalar(lex);
      case FlowScalar => ok := FetchKeyLike(lex);
      case PlainScalar => ok := FetchKeyLike(lex);
      case _ => ok := Fail();
    }

    method HeadMayBeKey() returns (key: bool)
      ensures key <==> HeadIsKey(simpleKeys, tokensParsed)
    {
      key := false;
      for i := 0 to |simpleKeys|
        invariant key <==> HeadIsKey(simpleKeys[..i], tokensParsed)
      {
        HeadOrNext(simpleKeys, i, tokensParsed);
        if simpleKeys[i].possible && simpleKeys[i].number == tokensParsed { key := true; }
      }
      assert simpleKeys[..|simpleKeys|] == simpleKeys;
    }

    /** Fetches until the token at the head cannot become preceded by a key any more. */
    method FetchMoreTokens() returns (ok: bool)
      requires Valid() && !tokenAvailable
      modifies this, queue, queue.buf
      ensures !ok ==> error
      ensures ok ==>
          Valid() && tokenAvailable && handed == old(handed)
          && (queue.buf == old(queue.buf) || fresh(queue.buf))
      ensures Came(FetchMore(old(AsRun())), ok)
    {
      hide KeysOk, OpenCount, IndentsOk, FetchNext, IsBroken, AllDropped;
      while true
        invariant Valid() && !tokenAvailable && handed == old(handed)
            && (queue.buf == old(queue.buf) || fresh(queue.buf))
        invariant FetchMore(AsRun()) == FetchMore(old(AsRun()))
        decreases Potential(AsRun())
      {
        var n := queue.Count();
        var needMore := n == 0;
        if n > 0 {
          ok := StaleSimpleKeys();
          if !ok { return; }
          needMore := HeadMayBeKey();
        }
        if !needMore { break; }
        ok := FetchNextToken();
        if !ok { return; }
      }
      tokenAvailable := true;
      ok := true;
    }

    method Peek() returns (ok: bool, t: Token)
      requires Valid()
      modifies this, queue, queue.buf
      ensures !ok ==> error
      ensures ok ==>
          Valid() && tokenAvailable && t == Q()[0] && handed == old(handed)
          && (queue.buf == old(queue.buf) || fresh(queue.buf))
      ensures old(tokenAvailable) ==> ok && AsRun() == old(AsRun())
      ensures !old(tokenAvailable) ==> Came(FetchMore(old(AsRun())), ok)
    {
      t := Token(StreamEnd, mark);
      ok := true;
      if !tokenAvailable { ok := FetchMoreTokens(); }
      if ok { t := queue.Front(); }
    }

    /** The token at the head is handed to the parser; it is not the first of a simple key. */
    method Skip()
      requires Valid() && tokenAvailable
      modifies this, queue
      ensures Valid() && !tokenAvailable && handed == old(handed) + [old(Q())[0]] && Q() == old(Q())[1..]
      ensures AsRun() == old(AsRun()).(parsed := old(|handed|) + 1)
      ensures queue.buf == old(queue.buf)
    {
      ghost var q := Q();
      KeysBehindHead(simpleKeys, tokensParsed, q);
      assert handed + q == handed + [q[0]] + q[1..];
      hide KeysOk, OpenCount, IndentsOk;
      tokenAvailable := false;
      tokensParsed := tokensParsed + 1;
      handed := handed + [q[0]];
      queue.Advance();
    }
  }

  lemma OutInserted(handed: seq<Token>, q: seq<Token>, pos: int, t: Token)
    requires pos <= |q|
    ensures handed + InsertedAt(q, pos, t) == PutIn(handed + q, if pos < 0 then -1 else |handed| + pos, t)
  {}

  lemma HeadOrNext(ks: seq<SimpleKey>, i: nat, parsed: int)
    requires i < |ks|
    ensures HeadIsKey(ks[..i + 1], parsed) <==> HeadIsKey(ks[..i], parsed) || (ks[i].possible && ks[i].number == parsed)
  {
    assert ks[..i + 1] == ks[..i] + [ks[i]];
    if HeadIsKey(ks[..i], parsed) {
      var j :| 0 <= j < i && ks[..i][j].possible && ks[..i][j].number == parsed;
      assert ks[..i + 1][j] == ks[..i][j];
    }
    assert ks[..i + 1][i] == ks[i];
  }

  lemma NoneStale(ks: seq<SimpleKey>, mark: Mark)
    ensures forall i :: 0 <= i < |ks| ==> !IsStale(AllDropped(ks, mark)[i], mark)
  {}

  lemma NothingYet()
    ensures KeysOk([NO_KEY], 0, []) && IndentsOk([], -1) && OpenCount([]) == 0
  {}

  lemma AtEnd(q: seq<Token>, pos: int, t: Token)
    ensures pos < 0 ==> PutIn(q, pos, t) == PutIn(q, -1, t)
  {}

  lemma DeeperIndent(indents: seq<int>, indent: int, column: int)
    requires IndentsOk(indents, indent) && indent < column
    ensures IndentsOk(indents + [indent], column)
  {
    assert (indents + [indent])[..|indents + [indent]| - 1] == indents;
  }

  lemma Appended(q: seq<Token>, mark: Mark)
    ensures InsertedAt(q, -1, Token(StreamStart, mark)) == q + [Token(StreamStart, mark)]
  {}

  /** A key in place of the last one, with the number of the next token. */
  lemma KeySaved(ks: seq<SimpleKey>, parsed: int, q: seq<Token>, key: SimpleKey)
    requires KeysOk(ks, parsed, q) && ks != [] && key.number == parsed + |q|
    ensures KeysOk(ks[|ks| - 1 := key], parsed, q + [Token(StreamStart, key.mark)])
  {}

  /** The queue with a key put in before position `p`, and with the start of a block before it. */
  ghost function WithKey(q: seq<Token>, p: nat, opens: bool, m: Mark): seq<Token>
    requires p <= |q|
  {
    q[..p] + (if opens then [Token(BlockMappingStart, m)] else []) + [Token(Key, m)] + q[p..]
  }

  lemma KeyThenBlock(q: seq<Token>, p: nat, m: Mark)
    requires p <= |q|
    ensures var q1 := InsertedAt(q, p, Token(Key, m));
            p <= |q1| && q1 == WithKey(q, p, false, m)
                && InsertedAt(q1, p, Token(BlockMappingStart, m)) == WithKey(q, p, true, m)
  {
    var q1 := InsertedAt(q, p, Token(Key, m));
    assert q1[..p] == q[..p] && q1[p..] == [Token(Key, m)] + q[p..];
  }

  lemma KeysBehindHead(ks: seq<SimpleKey>, parsed: int, q: seq<Token>)
    requires KeysOk(ks, parsed, q) && q != [] && forall i :: 0 <= i < |ks| && ks[i].possible ==> ks[i].number != parsed
    ensures KeysOk(ks, parsed + 1, q[1..])
  {}

  lemma LastIsFirst(ks: seq<SimpleKey>, parsed: int, q: seq<Token>)
    requires KeysOk(ks, parsed, q) && ks != [] && ks[|ks| - 1].possible
    ensures var k := ks[|ks| - 1];
            && 0 <= k.number - parsed < |q| && q[k.number - parsed].start == k.mark
            && forall i {:trigger ks[i]} :: 0 <= i < |ks| && ks[i].possible ==> ks[i].number < k.number || ks[i] == k
  {}

  lemma {:induction false} IndentAbove(indents: seq<int>, indent: int)
    requires IndentsOk(indents, indent) && indents != []
    ensures indent > -1
    decreases |indents|
  {
    var n := |indents| - 1;
    if indents[..n] != [] { IndentAbove(indents[..n], indents[n]); }
  }

  function Repeat(t: Token, n: int): (r: seq<Token>)
    ensures |r| == if n < 0 then 0 else n
    ensures forall i :: 0 <= i < |r| ==> r[i] == t
  {
    if n <= 0 then [] else Repeat(t, n - 1) + [t]
  }

  // ----- the whole stream -----

  /** Hands out all tokens up to the end of the stream. For every layout of trees these are their tokens. */
  method AllTokens(lexemes: seq<Lexeme>) returns (ts: seq<Token>, failed: bool)
    ensures AllHanded(AtStart(lexemes)) == if failed then None else Some(ts)
    ensures forall cs, end {:trigger StreamLexemes(cs, end)} ::
        GoodStream(cs, end) && lexemes == StreamLexemes(cs, end) ==>
        !failed && ts == StreamTokens(cs, end)
  {
    hide GoodStream, StreamLexemes, StreamTokens, FetchMore, KeysOk, OpenCount, IndentsOk, AllHanded;
    var scanner := new Scanner(lexemes);
    ts, failed := [], false;
    while true
      invariant scanner.Valid() && !scanner.tokenAvailable && scanner.handed == ts
      invariant fresh(scanner) && fresh(scanner.queue) && fresh(scanner.queue.buf)
      invariant AllHanded(scanner.AsRun()) == AllHanded(AtStart(lexemes))
      decreases Potential(scanner.AsRun()), |scanner.Q()|
    {
      MoreIsKnown(scanner.AsRun());
      var ok, t := scanner.Peek();
      if !ok {
        failed := true;
        break;
      }
      ghost var r := scanner.AsRun();
      assert r.s.out[r.parsed] == t && r.s.out[..r.parsed + 1] == ts + [t];
      scanner.Skip();
      ts := ts + [t];
      if t.kind.StreamEnd? { break; }
    }
    LayoutsAreHanded(lexemes, ts, failed);
  }

  lemma LayoutsAreHanded(lexemes: seq<Lexeme>, ts: seq<Token>, failed: bool)
    requires AllHanded(AtStart(lexemes)) == if failed then None else Some(ts)
    ensures forall cs, end {:trigger StreamLexemes(cs, end)} ::
        GoodStream(cs, end) && lexemes == StreamLexemes(cs, end) ==>
        !failed && ts == StreamTokens(cs, end)
  {
    hide GoodStream, StreamLexemes, StreamTokens, AllHanded;
    forall cs, end | GoodStream(cs, end) && lexemes == StreamLexemes(cs, end)
      ensures !failed && ts == StreamTokens(cs, end)
    {
      LayoutIsHanded(cs, end);
    }
  }

  lemma MoreIsKnown(r: Run)
    ensures var m := FetchMore(r);
      m.Some? ==>
        && m.value.parsed == r.parsed < |m.value.s.out| && Potential(m.value) <= Potential(r)
        && (Potential(m.value) == Potential(r) ==> m.value.s.out == r.s.out)
    ensures AllHanded(r) ==
      if FetchMore(r).None? then None
      else
        var out := FetchMore(r).value.s.out;
        if out[r.parsed].kind.StreamEnd? then Some(out[..r.parsed + 1])
        else AllHanded(FetchMore(r).value.(parsed := r.parsed + 1))
  {}
}
