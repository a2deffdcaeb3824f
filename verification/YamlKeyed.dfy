/** Which presentations the parser reads back: those in which no token is lost where a single pair of a
    flow sequence has an empty key. */
module YamlKeyed {
  import opened Options
  import opened YamlEvents
  import opened YamlSteps
  import opened YamlPresent

  // ----- no end of a flow sequence can be lost -----

  /** The parser is about to pass over the end of a flow sequence. */
  predicate SkipsEnd(c: Config) {
    c.state.InFlowSequenceEntryMappingKey? && Head(c).FlowSequenceEnd?
  }

  function Weight(t: Token): int {
    if t.FlowSequenceStart? then 1 else if t.FlowSequenceEnd? then -1 else 0
  }

  /** How many more flow sequences start than end. */
  function Depth(ts: seq<Token>): int {
    if ts == [] then 0 else Weight(ts[0]) + Depth(ts[1..])
  }

  lemma {:induction false} DepthConcat(a: seq<Token>, b: seq<Token>)
    ensures Depth(a + b) == Depth(a) + Depth(b)
    decreases |a|
  {
    if a == [] {
      assert a + b == b;
    } else {
      assert (a + b)[1..] == a[1..] + b;
      DepthConcat(a[1..], b);
    }
  }

  predicate IsFirst(s: State) {
    s.InBlockSequenceFirstEntry? || s.InBlockMappingFirstKey? || s.InFlowSequenceFirstEntry? || s.InFlowMappingFirstKey?
  }

  /** The flow sequence that is open in this state. */
  function OpenIn(s: State): int {
    if s.InFlowSequenceFirstEntry? || s.InFlowSequenceEntry? || s.InFlowSequenceEntryMappingKey?
       || s.InFlowSequenceEntryMappingValue? || s.InFlowSequenceEntryMappingEnd? then 1 else 0
  }

  function OpenAll(ss: seq<State>): int {
    if ss == [] then 0 else OpenAll(ss[..|ss| - 1]) + OpenIn(ss[|ss| - 1])
  }

  lemma OpenPushed(ss: seq<State>, s: State)
    ensures OpenAll(ss + [s]) == OpenAll(ss) + OpenIn(s)
  {
    assert (ss + [s])[..|ss|] == ss;
  }

  predicate StackOk(c: Config) {
    if IsTop(c.state) then c.states == [] else StatesOk(c.states)
  }

  /** The ends of flow sequences that are missing. */
  function Missing(c: Config): int {
    Depth(if IsFirst(c.state) && c.tokens != [] then c.tokens[1..] else c.tokens) + OpenAll(c.states) + OpenIn(c.state)
  }

  predicate IsSuffix(a: seq<Token>, b: seq<Token>) {
    |a| <= |b| && b[|b| - |a|..] == a
  }

  lemma SuffixOf(a: seq<Token>, b: seq<Token>, c: seq<Token>)
    requires IsSuffix(a, b) && IsSuffix(b, c)
    ensures IsSuffix(a, c)
  {}

  /** Some of these tokens are left; the token for the end of the stream is the last one passed, if the
      parser has come to the end. */
  predicate IsLeft(c: Config, tokens: seq<Token>) {
    && IsSuffix(c.tokens, tokens)
    && (c.state.InEnd? ==> |c.tokens| < |tokens| && tokens[|tokens| - |c.tokens| - 1].StreamEndToken?)
  }

  lemma LeftOf(c: Config, a: seq<Token>, b: seq<Token>)
    requires IsLeft(c, a) && IsSuffix(a, b)
    ensures IsLeft(c, b)
  {
    SuffixOf(c.tokens, a, b);
  }

  /** The parser may take this step from a configuration with these tokens and states on the stack. */
  predicate Fits(m: Move, tokens: seq<Token>, states: seq<State>, open: int) {
    m.Emit? ==> StackOk(m.c) && Missing(m.c) >= Depth(tokens) + OpenAll(states) + open && IsLeft(m.c, tokens)
  }

  lemma BackFits(c: Config)
    requires StatesOk(c.states)
    ensures StackOk(Back(c)) && Missing(Back(c)) == Depth(c.tokens) + OpenAll(c.states) && !IsFirst(Back(c).state)
  {}

  lemma PropertiesFit(c: Config)
    ensures var p := PropertiesAt(c);
      p.Properties? ==> p.c.states == c.states && Depth(p.c.tokens) == Depth(c.tokens) && IsSuffix(p.c.tokens, c.tokens)
  {}

  lemma ContentFits(c: Config, block: bool, dense: bool, anchor: Option<string>, tag: string)
    requires StatesOk(c.states) && c.tokens != []
    ensures Fits(ContentAt(c, block, dense, anchor, tag), c.tokens, c.states, 0)
  {
    hide Back, StatesOk, Fits;
    var m, t := ContentAt(c, block, dense, anchor, tag), Head(c);
    if (dense && t.BlockEntry?) || OpensCollection(t, block) {
      OpenedFits(m.e, c, m.c.state);
    } else if m.Emit? {
      LastFits(m.e, c);
    } else {
      ErrorFits(c.tokens, c.states, 0);
    }
  }

  /** A collection is opened: its first token is counted as passed. */
  lemma OpenedFits(e: Event, c: Config, s: State)
    requires StatesOk(c.states) && c.tokens != []
    requires IsFirst(s) ==> OpenIn(s) == Weight(Head(c))
    requires !IsFirst(s) ==> s.InIndentlessSequenceEntry?
    ensures Fits(Emit(e, c.(state := s)), c.tokens, c.states, 0)
  {}

  lemma NodeFits(c: Config, block: bool, dense: bool)
    requires StatesOk(c.states)
    ensures Fits(NodeAt(c, block, dense), c.tokens, c.states, 0)
  {
    hide ContentAt, Fits, StatesOk, PropertiesAt, TagText;
    PropertiesFit(c);
    var p := PropertiesAt(c);
    if c.tokens != [] && Head(c).AliasToken? {
      AliasFits(c);
    } else if c.tokens != [] && p.Properties? && TagText(c.tags, p.tag).Some? {
      PropertiesSome(c);
      ContentFits(p.c, block, dense, p.anchor, TagText(c.tags, p.tag).value);
      SameDepth(NodeAt(c, block, dense), p.c.tokens, c.tokens, c.states, 0);
    } else {
      ErrorFits(c.tokens, c.states, 0);
    }
  }

  lemma AliasFits(c: Config)
    requires StatesOk(c.states) && c.tokens != [] && Head(c).AliasToken?
    ensures Fits(Emit(Alias(Head(c).name), Next(Back(c))), c.tokens, c.states, 0)
  {
    BackFits(c);
    assert Next(Back(c)).tokens == c.tokens[1..];
  }

  lemma PropertiesSome(c: Config)
    requires c.tokens != [] && PropertiesAt(c).Properties?
    ensures PropertiesAt(c).c.tokens != []
  {}

  lemma SameDepth(m: Move, a: seq<Token>, b: seq<Token>, states: seq<State>, open: int)
    requires Depth(a) == Depth(b) && IsSuffix(a, b) && Fits(m, a, states, open)
    ensures Fits(m, b, states, open)
  {
    if m.Emit? { LeftOf(m.c, a, b); }
  }

  lemma ErrorFits(tokens: seq<Token>, states: seq<State>, open: int)
    ensures Fits(Error, tokens, states, open)
  {}

  lemma PushFits(c: Config, s: State, block: bool, dense: bool)
    requires StatesOk(c.states) && IsInner(s)
    ensures Fits(NodeBefore(c, s, block, dense), c.tokens, c.states, OpenIn(s))
    ensures Fits(EmptyBefore(c, s), c.tokens, c.states, OpenIn(s))
  {
    var d := c.(states := c.states + [s]);
    OpenPushed(c.states, s);
    NodeFits(d, block, dense);
  }

  lemma SuffixSelf(a: seq<Token>)
    ensures IsSuffix(a, a)
  {}

  lemma NextIsSuffix(c: Config)
    ensures IsSuffix(Next(c).tokens, c.tokens)
    ensures Depth(Next(c).tokens) == Depth(c.tokens) - if c.tokens == [] then 0 else Weight(Head(c))
  {}

  lemma {:induction false} DirectivesFit(c: Config, version: bool)
    ensures var d := DirectivesAt(c, version);
      d.Some? ==>
        d.value.states == c.states && Depth(d.value.tokens) == Depth(c.tokens) && IsSuffix(d.value.tokens, c.tokens)
    decreases |c.tokens|
  {
    hide IsSuffix, Depth, PrefixFor, WithDefaults;
    SuffixSelf(c.tokens);
    if c.tokens != [] && IsDirective(Head(c)) {
      var d := Next(c);
      NextIsSuffix(c);
      if Head(c).TagDirective? { d := d.(tags := c.tags + [(Head(c).handle, Head(c).prefix)]); }
      DirectivesFit(d, version || Head(c).VersionDirective?);
      var x := DirectivesAt(d, version || Head(c).VersionDirective?);
      if x.Some? { SuffixOf(x.value.tokens, d.tokens, c.tokens); }
    }
  }

  lemma {:induction false} EndsFit(c: Config)
    ensures AfterEnds(c).states == c.states && AfterEnds(c).state == c.state
    ensures Depth(AfterEnds(c).tokens) == Depth(c.tokens) && IsSuffix(AfterEnds(c).tokens, c.tokens)
    decreases |c.tokens|
  {
    if Head(c).DocumentEndToken? { EndsFit(Next(c)); }
  }

  lemma ImplicitFits(c: Config)
    requires c.states == []
    ensures Fits(ImplicitAt(c), c.tokens, [], 0)
  {
    hide DirectivesAt;
    DirectivesFit(c, false);
    OpenPushed([], InDocumentEnd);
    assert [] + [InDocumentEnd] == [InDocumentEnd];
  }

  lemma ExplicitFits(c: Config)
    requires c.states == []
    ensures Fits(ExplicitAt(c), c.tokens, [], 0)
  {
    hide DirectivesAt;
    DirectivesFit(c, false);
    OpenPushed([], InDocumentEnd);
    assert [] + [InDocumentEnd] == [InDocumentEnd];
  }

  lemma StreamEndFits(c: Config)
    requires c.states == [] && c.tokens != [] && Head(c).StreamEndToken?
    ensures Fits(Emit(StreamEnd, Next(c).(state := InEnd)), c.tokens, [], 0)
  {}

  lemma DocumentFits(c: Config, first: bool)
    requires c.states == []
    ensures Fits(DocumentStartAt(c, first), c.tokens, c.states, 0)
  {
    hide DirectivesAt, AfterEnds, Fits, ImplicitAt, ExplicitAt;
    EndsFit(c);
    var c1 := if first then c else AfterEnds(c);
    ErrorFits(c.tokens, [], 0);
    if c1.tokens != [] {
      ImplicitFits(c1);
      ExplicitFits(c1);
      if Head(c1).StreamEndToken? { StreamEndFits(c1); }
      SameDepth(DocumentStartAt(c, first), c1.tokens, c.tokens, [], 0);
    }
  }

  /** A token is passed over first. */
  lemma NextFits(m: Move, c: Config, open: int)
    requires c.tokens != [] && Fits(m, Next(c).tokens, c.states, open)
    ensures Fits(m, c.tokens, c.states, open - Weight(Head(c)))
  {
    if m.Emit? { LeftOf(m.c, Next(c).tokens, c.tokens); }
  }

  /** The last token of a collection. */
  lemma LastFits(e: Event, c: Config)
    requires StatesOk(c.states) && c.tokens != []
    ensures Fits(Emit(e, Next(Back(c))), c.tokens, c.states, -Weight(Head(c)))
    ensures Fits(Emit(e, Back(c)), c.tokens, c.states, 0)
  {
    BackFits(c);
    assert Next(Back(c)).tokens == c.tokens[1..];
  }

  lemma BlockSequenceFits(c: Config)
    requires StatesOk(c.states)
    ensures Fits(BlockSequenceAt(c), c.tokens, c.states, 0)
  {
    hide NodeBefore, EmptyBefore, StatesOk, Fits, Back;
    if c.tokens == [] || Next(c).tokens == [] || !Head(c).BlockEntry? {
      ErrorFits(c.tokens, c.states, 0);
      if c.tokens != [] { LastFits(SequenceEnd, c); }
    } else {
      PushFits(Next(c), InBlockSequenceEntry, true, false);
      NextFits(BlockSequenceAt(c), c, 0);
    }
  }

  lemma IndentlessFits(c: Config)
    requires StatesOk(c.states)
    ensures Fits(IndentlessAt(c), c.tokens, c.states, 0)
  {
    hide NodeBefore, EmptyBefore, StatesOk, Fits, Back;
    if c.tokens == [] || Next(c).tokens == [] || !Head(c).BlockEntry? {
      ErrorFits(c.tokens, c.states, 0);
      if c.tokens != [] { LastFits(SequenceEnd, c); }
    } else {
      PushFits(Next(c), InIndentlessSequenceEntry, true, false);
      NextFits(IndentlessAt(c), c, 0);
    }
  }

  lemma BlockKeyFits(c: Config)
    requires StatesOk(c.states)
    ensures Fits(BlockKeyAt(c), c.tokens, c.states, 0)
  {
    hide NodeBefore, EmptyBefore, StatesOk, Fits, Back;
    if c.tokens == [] || Next(c).tokens == [] || !Head(c).Key? {
      ErrorFits(c.tokens, c.states, 0);
      if c.tokens != [] { LastFits(MappingEnd, c); }
    } else {
      PushFits(Next(c), InBlockMappingValue, true, true);
      NextFits(BlockKeyAt(c), c, 0);
    }
  }

  lemma BlockValueFits(c: Config)
    requires StatesOk(c.states)
    ensures Fits(BlockValueAt(c), c.tokens, c.states, 0)
  {
    hide NodeBefore, EmptyBefore, StatesOk, Fits, Back;
    if c.tokens == [] || Next(c).tokens == [] || !Head(c).Value? {
      ErrorFits(c.tokens, c.states, 0);
      PushFits(c, InBlockMappingKey, true, true);
    } else {
      PushFits(Next(c), InBlockMappingKey, true, true);
      NextFits(BlockValueAt(c), c, 0);
    }
  }

  lemma FlowSequenceFits(c: Config, first: bool)
    requires StatesOk(c.states)
    ensures Fits(FlowSequenceAt(c, first), c.tokens, c.states, 1)
  {
    hide FlowItemAt, StatesOk, Fits, Back;
    var d := CommaAt(c, first);
    if c.tokens == [] || (!Head(c).FlowSequenceEnd? && d.None?) {
      ErrorFits(c.tokens, c.states, 1);
    } else if Head(c).FlowSequenceEnd? {
      LastFits(SequenceEnd, c);
    } else {
      FlowItemFits(d.value);
      if !first { NextFits(FlowSequenceAt(c, first), c, 1); }
    }
  }

  lemma FlowItemFits(c: Config)
    requires StatesOk(c.states) && c.tokens != []
    ensures Fits(FlowItemAt(c), c.tokens, c.states, 1)
  {
    hide NodeBefore, StatesOk, Back;
    LastFits(SequenceEnd, c);
    PushFits(c, InFlowSequenceEntry, false, false);
    if Head(c).Key? {
      PairFits(c);
    }
  }

  lemma PairFits(c: Config)
    requires StatesOk(c.states) && c.tokens != [] && Head(c).Key?
    ensures Fits(FlowItemAt(c), c.tokens, c.states, 1)
  {}

  /** One end is lost if it is passed over. */
  lemma PairKeyFits(c: Config)
    requires StatesOk(c.states)
    ensures Fits(PairKeyAt(c), c.tokens, c.states, if Head(c).FlowSequenceEnd? then 2 else 1)
  {
    hide NodeBefore, EmptyBefore, StatesOk;
    PushFits(c, InFlowSequenceEntryMappingValue, false, false);
    PushFits(Next(c), InFlowSequenceEntryMappingValue, false, false);
  }

  lemma PairValueFits(c: Config)
    requires StatesOk(c.states)
    ensures Fits(PairValueAt(c), c.tokens, c.states, 1)
  {
    hide NodeBefore, EmptyBefore, StatesOk, Fits;
    if c.tokens == [] || (Head(c).Value? && Next(c).tokens == []) {
      ErrorFits(c.tokens, c.states, 1);
    } else if Head(c).Value? {
      PushFits(Next(c), InFlowSequenceEntryMappingEnd, false, false);
      NextFits(PairValueAt(c), c, 1);
    } else {
      PushFits(c, InFlowSequenceEntryMappingEnd, false, false);
    }
  }

  lemma PairEndFits(c: Config)
    requires StatesOk(c.states)
    ensures Fits(PairEndAt(c), c.tokens, c.states, 1)
  {}

  lemma FlowMappingFits(c: Config, first: bool)
    requires StatesOk(c.states)
    ensures Fits(FlowMappingAt(c, first), c.tokens, c.states, 0)
  {
    hide FlowPairAt, StatesOk, Fits, Back;
    var d := CommaAt(c, first);
    if c.tokens == [] || (!Head(c).FlowMappingEnd? && d.None?) {
      ErrorFits(c.tokens, c.states, 0);
    } else if Head(c).FlowMappingEnd? {
      LastFits(MappingEnd, c);
    } else {
      FlowPairFits(d.value);
      if !first { NextFits(FlowMappingAt(c, first), c, 0); }
    }
  }

  lemma FlowPairFits(c: Config)
    requires StatesOk(c.states) && c.tokens != []
    ensures Fits(FlowPairAt(c), c.tokens, c.states, 0)
  {
    hide NodeBefore, FlowKeyAt, StatesOk, Fits, Back;
    LastFits(MappingEnd, c);
    PushFits(c, InFlowMappingEmptyValue, false, false);
    if Head(c).Key? {
      FlowKeyFits(Next(c));
      NextFits(FlowPairAt(c), c, 0);
    }
  }

  lemma FlowKeyFits(c: Config)
    requires StatesOk(c.states)
    ensures Fits(FlowKeyAt(c), c.tokens, c.states, 0)
  {
    hide NodeBefore, EmptyBefore, StatesOk;
    PushFits(c, InFlowMappingValue, false, false);
  }

  lemma FlowValueFits(c: Config, empty: bool)
    requires StatesOk(c.states)
    ensures Fits(FlowValueAt(c, empty), c.tokens, c.states, 0)
  {
    hide NodeBefore, EmptyBefore, StatesOk, Fits;
    if c.tokens == [] || (!empty && Head(c).Value? && Next(c).tokens == []) {
      ErrorFits(c.tokens, c.states, 0);
    } else if !empty && Head(c).Value? {
      PushFits(Next(c), InFlowMappingKey, false, false);
      NextFits(FlowValueAt(c, empty), c, 0);
    } else {
      PushFits(c, InFlowMappingKey, false, false);
    }
  }

  /** A step from a configuration with these tokens, after which at least `n` ends are missing. */
  predicate Leads(m: Move, tokens: seq<Token>, n: int) {
    m.Emit? ==> StackOk(m.c) && Missing(m.c) >= n && IsLeft(m.c, tokens)
  }

  /** No step makes up for a lost end. */
  lemma StepFits(c: Config)
    requires StackOk(c)
    ensures Leads(Step(c), c.tokens, Missing(c) + if SkipsEnd(c) then 1 else 0)
  {
    hide Step, StackOk, Missing, Leads;
    if IsTop(c.state) { OuterFits(c); } else { InnerFits(c); }
  }

  lemma FitsLeads(m: Move, tokens: seq<Token>, states: seq<State>, open: int, n: int, all: seq<Token>)
    requires Fits(m, tokens, states, open) && Depth(tokens) + OpenAll(states) + open == n && IsSuffix(tokens, all)
    ensures Leads(m, all, n)
  {
    if m.Emit? { LeftOf(m.c, tokens, all); }
  }

  lemma OuterFits(c: Config)
    requires StackOk(c) && IsTop(c.state)
    ensures Leads(Step(c), c.tokens, Missing(c))
  {
    hide DocumentStartAt;
    match c.state
    case InImplicitDocumentStart =>
      DocumentFits(c, true);
    case InDocumentStart =>
      DocumentFits(c, false);
    case _ =>
  }

  lemma InnerFits(c: Config)
    requires StackOk(c) && !IsTop(c.state)
    ensures Leads(Step(c), c.tokens, Missing(c) + if SkipsEnd(c) then 1 else 0)
  {
    hide Fits, NodeAt, BlockSequenceAt, IndentlessAt, BlockKeyAt, BlockValueAt, FlowSequenceAt, PairKeyAt, PairValueAt,
        PairEndAt, FlowMappingAt, FlowValueAt, Leads;
    var d := if IsFirst(c.state) then Next(c) else c;
    match c.state {
      case InDocumentContent => ContentMoveFits(c);
      case InBlockNode => NodeFits(c, true, false);
      case InBlockNodeOrIndentlessSequence => NodeFits(c, true, true);
      case InFlowNode => NodeFits(c, false, false);
      case InFlowSequenceFirstEntry => FlowSequenceFits(d, true);
      case InFlowSequenceEntry => FlowSequenceFits(d, false);
      case InFlowSequenceEntryMappingKey => PairKeyFits(c);
      case InFlowSequenceEntryMappingValue => PairValueFits(c);
      case InFlowSequenceEntryMappingEnd => PairEndFits(c);
      case InFlowMappingFirstKey => FlowMappingFits(d, true);
      case InFlowMappingKey => FlowMappingFits(d, false);
      case InFlowMappingValue => FlowValueFits(c, false);
      case InFlowMappingEmptyValue => FlowValueFits(c, true);
      case InIndentlessSequenceEntry => IndentlessFits(d);
      case InBlockSequenceFirstEntry => BlockSequenceFits(d);
      case InBlockSequenceEntry => BlockSequenceFits(d);
      case InBlockMappingValue => BlockValueFits(d);
      case _ => BlockKeyFits(d);
    }
    FitsLeads(Step(c), d.tokens, d.states, OpenIn(c.state) + if SkipsEnd(c) then 1 else 0,
        Missing(c) + if SkipsEnd(c) then 1 else 0, c.tokens);
  }

  lemma ContentMoveFits(c: Config)
    requires StatesOk(c.states)
    ensures Fits(DocumentContentAt(c), c.tokens, c.states, 0)
  {
    hide NodeAt;
    BackFits(c);
    NodeFits(c, true, false);
  }

  // ----- runs to the end -----

  /** The parser emits these events, comes to the end, and passes over no end of a flow sequence. */
  predicate Finishes(c: Config, es: seq<Event>)
    decreases |es|, 0
  {
    if es == [] then c.tokens == [] && c.state.InEnd? else !SkipsEnd(c) && FinishesMove(Step(c), es)
  }

  predicate FinishesMove(m: Move, es: seq<Event>)
    requires es != []
    decreases |es| - 1, 1
  {
    m.Emit? && m.e == es[0] && Finishes(m.c, es[1..])
  }

  /** A run to the end that starts with all flow sequences balanced loses none of their ends. */
  lemma {:induction false} FeedFinishes(c: Config, es: seq<Event>)
    requires StackOk(c) && Missing(c) >= 0 && Feed(c, es).Some?
    requires Feed(c, es).value.state.InEnd? && Feed(c, es).value.tokens == []
    ensures Finishes(c, es) && Missing(c) == 0
    decreases |es|
  {
    if es != [] {
      StepFits(c);
      FeedFinishes(Step(c).c, es[1..]);
    }
  }

  /** There is one token for the end of the stream, and it is the last. */
  predicate EndsOnce(ts: seq<Token>) {
    ts != [] && ts[|ts| - 1].StreamEndToken? && forall i :: 0 <= i < |ts| - 1 ==> !ts[i].StreamEndToken?
  }

  lemma LastIsLeft(c: Config, tokens: seq<Token>)
    requires IsLeft(c, tokens) && (tokens == [] || EndsOnce(tokens))
    ensures c.tokens == [] || EndsOnce(c.tokens)
    ensures c.state.InEnd? ==> c.tokens == []
  {}

  /** At the end all tokens are passed. */
  lemma {:induction false} NoneLeft(c: Config, es: seq<Event>)
    requires StackOk(c) && (c.tokens == [] || EndsOnce(c.tokens)) && (c.state.InEnd? ==> c.tokens == [])
    requires Feed(c, es).Some? && Feed(c, es).value.state.InEnd?
    ensures Feed(c, es).value.tokens == []
    decreases |es|
  {
    hide Step, StackOk, EndsOnce, IsLeft;
    if es != [] {
      StepFits(c);
      LastIsLeft(Step(c).c, c.tokens);
      NoneLeft(Step(c).c, es[1..]);
    }
  }

  lemma {:induction false} FeedThenFinishes(c: Config, a: seq<Event>, b: seq<Event>)
    requires Feed(c, a).Some? && Finishes(c, a + b)
    ensures Finishes(Feed(c, a).value, b)
    decreases |a|
  {
    if a == [] {
      assert a + b == b;
    } else {
      assert (a + b)[0] == a[0] && (a + b)[1..] == a[1..] + b;
      FeedThenFinishes(Step(c).c, a[1..], b);
    }
  }

  lemma GoesOn(m: Move, a: seq<Event>, b: seq<Event>, c: Config)
    requires a != [] && b != [] && FeedMove(m, a) == Some(c) && FinishesMove(m, a + b)
    ensures !SkipsEnd(c) && FinishesMove(Step(c), b)
  {
    assert (a + b)[0] == a[0] && (a + b)[1..] == a[1..] + b;
    FeedThenFinishes(m.c, a[1..], b);
  }

  lemma EmitsOn(m: Move, e: Event, b: seq<Event>)
    requires b != [] && FinishesMove(m, [e] + b)
    ensures m.Emit? && m.e == e && !SkipsEnd(m.c) && FinishesMove(Step(m.c), b)
  {
    assert ([e] + b)[1..] == b;
  }

  // ----- nodes -----

  /** A node that is read to the end of a run has its keys. */
  lemma {:induction false} NodeNeeds(f: Form, dirs: map<string, string>, block: bool, dense: bool, c: Config,
      rest: seq<Token>, es: seq<Event>)
    requires Good(f, dirs, block, dense) && Declared(c.tags, dirs)
    requires c.states != [] && c.tokens == Tokens(f) + rest && Follows(rest, dense) && es != []
    requires FinishesMove(NodeAt(c, block, dense), Unparse(TreeOf(f, dirs)) + es)
    ensures Keyed(f)
    decreases f, 3
  {
    hide Declared, FinishesMove, Follows, Unparse, TreeOf, Tokens, Good, NodeAt;
    IsDense(f, dirs, block, dense);
    match f
    case BlockSeq(_, _) => BlockSeqNeeds(f, dirs, block, dense, c, rest, es);
    case Indentless(_, _) => IndentlessNeeds(f, dirs, block, dense, c, rest, es);
    case BlockMap(_, _) => BlockMapNeeds(f, dirs, block, dense, c, rest, es);
    case FlowSeq(_, _, _) => FlowSeqNeeds(f, dirs, block, dense, c, rest, es);
    case FlowMap(_, _, _) => FlowMapNeeds(f, dirs, block, dense, c, rest, es);
    case _ =>
  }

  lemma IsDense(f: Form, dirs: map<string, string>, block: bool, dense: bool)
    requires Good(f, dirs, block, dense)
    ensures f.Indentless? ==> dense
  {}

  lemma {:induction false} PartNeeds(f: Form, dirs: map<string, string>, block: bool, dense: bool, c: Config, s: State,
      rest: seq<Token>, m: Move, es: seq<Event>)
    requires Good(f, dirs, block, dense) && Declared(c.tags, dirs)
    requires c.tokens == Tokens(f) + rest && Follows(rest, dense) && es != []
    requires m == if IsNothing(f) then EmptyBefore(c, s) else NodeBefore(c, s, block, dense)
    requires FinishesMove(m, Unparse(TreeOf(f, dirs)) + es)
    ensures Keyed(f)
    decreases f, 4
  {
    hide Declared, FinishesMove, Follows, Unparse, TreeOf, Tokens, Good;
    if !IsNothing(f) { NodeNeeds(f, dirs, block, dense, c.(states := c.states + [s]), rest, es); }
  }

  /** A collection is opened, and the run goes on behind its first token. */
  lemma CollectionGoesOn(p: Props, t: Token, v: seq<Token>, c: Config, dirs: map<string, string>, block: bool,
      dense: bool, e: Event, es: seq<Event>)
    requires OpensCollection(t, block) && c.tokens == PropTokens(p) + ([t] + v) && es != []
    requires Declared(c.tags, dirs) && GoodProps(p, dirs) && FinishesMove(NodeAt(c, block, dense), [e] + es)
    ensures FinishesMove(FirstMove(t, Config(v, FirstState(t), c.states, c.tags)), es)
  {
    hide Declared, NodeAt, FinishesMove, Step, FirstMove, GoodProps, PropTokens;
    CollectionStarts(p, t, v, c, dirs, block, dense);
    EmitsOn(NodeAt(c, block, dense), e, es);
  }

  lemma Regroup(a: seq<Event>, b: seq<Event>, c: seq<Event>)
    ensures (a + b) + c == a + (b + c)
  {}

  // ----- block sequences -----

  lemma {:induction false} BlockSeqNeeds(f: Form, dirs: map<string, string>, block: bool, dense: bool, c: Config,
      rest: seq<Token>, es: seq<Event>)
    requires f.BlockSeq? && Good(f, dirs, block, dense) && Declared(c.tags, dirs)
    requires c.states != [] && c.tokens == Tokens(f) + rest && es != []
    requires FinishesMove(NodeAt(c, block, dense), Unparse(TreeOf(f, dirs)) + es)
    ensures Keyed(f)
    decreases f, 2
  {
    hide Declared, NodeAt, FinishesMove, BlockSequenceAt, Unparse, UnparseAll;
    var v, kids := ItemTokens(f, 0) + ([BlockEnd] + rest), ItemNodes(f, dirs, 0);
    var e, ks := SequenceStart(f.props.anchor, TagOf(dirs, f.props.tag)), UnparseAll(kids) + [SequenceEnd];
    assert c.tokens == PropTokens(f.props) + ([BlockSequenceStart] + v);
    UnparseSequence(e, kids);
    Regroup([e], ks, es);
    CollectionGoesOn(f.props, BlockSequenceStart, v, c, dirs, block, dense, e, ks + es);
    ItemsNeed(f, dirs, 0, Config(v, InBlockSequenceFirstEntry, c.states, c.tags), rest, es);
  }

  lemma {:induction false} ItemsNeed(f: Form, dirs: map<string, string>, i: nat, c: Config, rest: seq<Token>,
      es: seq<Event>)
    requires f.BlockSeq? && i <= |f.items| && Declared(c.tags, dirs) && es != []
    requires forall j :: 0 <= j < |f.items| ==> Good(f.items[j], dirs, true, false)
    requires c.states != [] && c.tokens == ItemTokens(f, i) + ([BlockEnd] + rest)
    requires FinishesMove(BlockSequenceAt(c), (UnparseAll(ItemNodes(f, dirs, i)) + [SequenceEnd]) + es)
    ensures forall j :: i <= j < |f.items| ==> Keyed(f.items[j])
    decreases f, 1, |f.items| - i
  {
    hide Declared, Keyed, Good, FeedMove, FinishesMove, BlockSequenceAt, Tokens, ItemTokens, ItemNodes, TreeOf, Unparse,
        UnparseAll;
    if i < |f.items| {
      var item, more := f.items[i], ItemTokens(f, i + 1) + ([BlockEnd] + rest);
      var ks := UnparseAll(ItemNodes(f, dirs, i + 1)) + [SequenceEnd];
      ItemTokensAre(f, i, [BlockEnd] + rest);
      ItemsFollow(f, i + 1, rest);
      ItemsSplit(f, dirs, i);
      Regroup(Unparse(TreeOf(item, dirs)), ks, es);
      ItemNeeds(item, dirs, c, more, ks + es);
      ItemReads(item, dirs, c, more);
      var c2 := Config(more, InBlockSequenceEntry, c.states, c.tags);
      EventsSome(item, dirs);
      GoesOn(BlockSequenceAt(c), Unparse(TreeOf(item, dirs)), ks + es, c2);
      ItemsNeed(f, dirs, i + 1, c2, rest, es);
    }
  }

  lemma {:induction false} ItemNeeds(item: Form, dirs: map<string, string>, c: Config, more: seq<Token>, es: seq<Event>)
    requires Good(item, dirs, true, false) && Declared(c.tags, dirs) && es != []
    requires c.states != [] && c.tokens == [BlockEntry] + (Tokens(item) + more)
    requires Follows(more, false) && (more[0].BlockEntry? || more[0].BlockEnd?)
    requires FinishesMove(BlockSequenceAt(c), Unparse(TreeOf(item, dirs)) + es)
    ensures Keyed(item)
    decreases item, 5
  {
    hide Declared, Keyed, Good, FinishesMove, NodeBefore, Tokens, Unparse, TreeOf;
    var d := Next(c);
    assert d.tokens == Tokens(item) + more;
    HeadIs(item, dirs, true, false, more, d);
    PartNeeds(item, dirs, true, false, d, InBlockSequenceEntry, more, BlockSequenceAt(c), es);
  }

  // ----- sequences without indentation -----

  lemma {:induction false} IndentlessNeeds(f: Form, dirs: map<string, string>, block: bool, dense: bool, c: Config,
      rest: seq<Token>, es: seq<Event>)
    requires f.Indentless? && Good(f, dirs, block, dense) && Declared(c.tags, dirs)
    requires c.states != [] && c.tokens == Tokens(f) + rest && Follows(rest, true) && es != []
    requires FinishesMove(NodeAt(c, block, dense), Unparse(TreeOf(f, dirs)) + es)
    ensures Keyed(f)
    decreases f, 2
  {
    hide Declared, NodeAt, FinishesMove, IndentlessAt, Unparse, UnparseAll;
    var u, kids := ItemTokens(f, 0) + rest, ItemNodes(f, dirs, 0);
    assert c.tokens == PropTokens(f.props) + u && u[0] == BlockEntry;
    NodeIsContent(f.props, u, c, dirs, block, dense);
    var e, ks := SequenceStart(f.props.anchor, TagOf(dirs, f.props.tag)), UnparseAll(kids) + [SequenceEnd];
    UnparseSequence(e, kids);
    Regroup([e], ks, es);
    var c1 := c.(tokens := u, state := InIndentlessSequenceEntry);
    EmitsOn(NodeAt(c, block, dense), e, ks + es);
    assert Step(c1) == IndentlessAt(c1);
    DenseItemsNeed(f, dirs, 0, c1, rest, es);
  }

  lemma {:induction false} DenseItemsNeed(f: Form, dirs: map<string, string>, i: nat, c: Config, rest: seq<Token>,
      es: seq<Event>)
    requires f.Indentless? && i <= |f.items| && Declared(c.tags, dirs) && es != []
    requires forall j :: 0 <= j < |f.items| ==> Good(f.items[j], dirs, true, false)
    requires c.states != [] && c.tokens == ItemTokens(f, i) + rest && Follows(rest, true)
    requires FinishesMove(IndentlessAt(c), (UnparseAll(ItemNodes(f, dirs, i)) + [SequenceEnd]) + es)
    ensures forall j :: i <= j < |f.items| ==> Keyed(f.items[j])
    decreases f, 1, |f.items| - i
  {
    hide Declared, Keyed, Good, FeedMove, FinishesMove, IndentlessAt, Tokens, ItemTokens, ItemNodes, TreeOf, Unparse,
        UnparseAll;
    if i < |f.items| {
      var item, more := f.items[i], ItemTokens(f, i + 1) + rest;
      var ks := UnparseAll(ItemNodes(f, dirs, i + 1)) + [SequenceEnd];
      ItemTokensAre(f, i, rest);
      DenseFollow(f, i + 1, rest);
      ItemsSplit(f, dirs, i);
      Regroup(Unparse(TreeOf(item, dirs)), ks, es);
      DenseItemNeeds(item, dirs, c, more, ks + es);
      DenseItemReads(item, dirs, c, more);
      var c2 := Config(more, InIndentlessSequenceEntry, c.states, c.tags);
      EventsSome(item, dirs);
      GoesOn(IndentlessAt(c), Unparse(TreeOf(item, dirs)), ks + es, c2);
      DenseItemsNeed(f, dirs, i + 1, c2, rest, es);
    }
  }

  lemma {:induction false} DenseItemNeeds(item: Form, dirs: map<string, string>, c: Config, more: seq<Token>,
      es: seq<Event>)
    requires Good(item, dirs, true, false) && Declared(c.tags, dirs) && es != []
    requires c.states != [] && c.tokens == [BlockEntry] + (Tokens(item) + more)
    requires more != [] && (more[0].BlockEntry? || more[0].Key? || more[0].Value? || more[0].BlockEnd?)
    requires FinishesMove(IndentlessAt(c), Unparse(TreeOf(item, dirs)) + es)
    ensures Keyed(item)
    decreases item, 5
  {
    hide Declared, Keyed, Good, FinishesMove, NodeBefore, Tokens, Unparse, TreeOf;
    var d := Next(c);
    assert d.tokens == Tokens(item) + more;
    HeadIs(item, dirs, true, false, more, d);
    PartNeeds(item, dirs, true, false, d, InIndentlessSequenceEntry, more, IndentlessAt(c), es);
  }

  // ----- block mappings -----

  lemma {:induction false} BlockMapNeeds(f: Form, dirs: map<string, string>, block: bool, dense: bool, c: Config,
      rest: seq<Token>, es: seq<Event>)
    requires f.BlockMap? && Good(f, dirs, block, dense) && Declared(c.tags, dirs)
    requires c.states != [] && c.tokens == Tokens(f) + rest && es != []
    requires FinishesMove(NodeAt(c, block, dense), Unparse(TreeOf(f, dirs)) + es)
    ensures Keyed(f)
    decreases f, 2
  {
    hide Declared, NodeAt, FinishesMove, BlockKeyAt, Unparse, UnparseAll;
    var v, kids := PairTokens(f, 0) + ([BlockEnd] + rest), PairNodes(f, dirs, 0);
    var e, ks := MappingStart(f.props.anchor, TagOf(dirs, f.props.tag)), UnparseAll(kids) + [MappingEnd];
    assert c.tokens == PropTokens(f.props) + ([BlockMappingStart] + v);
    UnparseMapping(e, kids);
    Regroup([e], ks, es);
    CollectionGoesOn(f.props, BlockMappingStart, v, c, dirs, block, dense, e, ks + es);
    PairsNeed(f, dirs, 0, Config(v, InBlockMappingFirstKey, c.states, c.tags), rest, es);
  }

  lemma {:induction false} PairsNeed(f: Form, dirs: map<string, string>, i: nat, c: Config, rest: seq<Token>,
      es: seq<Event>)
    requires f.BlockMap? && i <= |f.pairs| && Declared(c.tags, dirs) && es != []
    requires forall j :: 0 <= j < |f.pairs| ==> GoodPair(f.pairs[j], dirs, true)
    requires c.states != [] && c.tokens == PairTokens(f, i) + ([BlockEnd] + rest)
    requires FinishesMove(BlockKeyAt(c), (UnparseAll(PairNodes(f, dirs, i)) + [MappingEnd]) + es)
    ensures forall j :: i <= j < |f.pairs| ==> KeyedPair(f.pairs[j])
    decreases f, 1, |f.pairs| - i
  {
    hide Declared, Keyed, Good, FeedMove, FinishesMove, TokensOfPair, BlockKeyAt, BlockValueAt, Tokens, PairTokens,
        ValueTokens, PairNodes, TreeOf, ValueNode, Unparse, UnparseAll, GoodPair, KeyedPair;
    if i < |f.pairs| {
      var p, more := f.pairs[i], PairTokens(f, i + 1) + ([BlockEnd] + rest);
      var ks := UnparseAll(PairNodes(f, dirs, i + 1)) + [MappingEnd];
      PairTokensSplit(f, i, [BlockEnd] + rest);
      PairsFollow(f, i + 1, rest);
      PairTokensAre(p, more);
      PairsSplit(f, dirs, i);
      Regroup(Unparse(TreeOf(p.key, dirs)), Unparse(ValueNode(p, dirs)) + ks, es);
      Regroup(Unparse(ValueNode(p, dirs)), ks, es);
      BlockPairNeeds(p, dirs, c, more, ks + es);
      PairsNeed(f, dirs, i + 1, Config(more, InBlockMappingKey, c.states, c.tags), rest, es);
    }
  }

  /** A pair of a block mapping, and what comes after it. */
  lemma {:induction false} BlockPairNeeds(p: Pair, dirs: map<string, string>, c: Config, more: seq<Token>,
      es: seq<Event>)
    requires GoodPair(p, dirs, true) && Declared(c.tags, dirs) && Follows(more, true) && !more[0].Value? && es != []
    requires c.states != [] && c.tokens == [Key] + (Tokens(p.key) + (ValueTokens(p) + more))
    requires FinishesMove(BlockKeyAt(c), Unparse(TreeOf(p.key, dirs)) + (Unparse(ValueNode(p, dirs)) + es))
    ensures KeyedPair(p) && FinishesMove(BlockKeyAt(Config(more, InBlockMappingKey, c.states, c.tags)), es)
    decreases p, 1
  {
    hide Declared, Keyed, Good, GoodPair, FeedMove, FinishesMove, BlockKeyAt, BlockValueAt, Tokens, ValueTokens, TreeOf,
        ValueNode, Unparse, Follows, KeyedPair;
    var c2 := Config(ValueTokens(p) + more, InBlockMappingValue, c.states, c.tags);
    var c3 := Config(more, InBlockMappingKey, c.states, c.tags);
    var vs := Unparse(ValueNode(p, dirs));
    EventsSome(p.key, dirs);
    ValueSome(p, dirs);
    BlockKeyNeeds(p, dirs, c, more, vs + es);
    BlockKeyIsRead(p, dirs, c, more);
    GoesOn(BlockKeyAt(c), Unparse(TreeOf(p.key, dirs)), vs + es, c2);
    StepIsBlock(c2);
    BlockValueNeeds(p, dirs, c2, more, es);
    BothKeyed(p);
    BlockValueReads(p, dirs, c2, more);
    GoesOn(BlockValueAt(c2), vs, es, c3);
    StepIsBlock(c3);
  }

  lemma BothKeyed(p: Pair)
    requires Keyed(p.key) && (p.value.Some? ==> Keyed(p.value.value))
    ensures KeyedPair(p)
  {}

  lemma StepIsBlock(c: Config)
    ensures c.state.InBlockMappingValue? ==> Step(c) == BlockValueAt(c)
    ensures c.state.InBlockMappingKey? ==> Step(c) == BlockKeyAt(c)
  {}

  /** The key is read, whatever the value. */
  lemma BlockKeyIsRead(p: Pair, dirs: map<string, string>, c: Config, more: seq<Token>)
    requires GoodPair(p, dirs, true) && Keyed(p.key) && Declared(c.tags, dirs) && Follows(more, true)
    requires c.states != [] && c.tokens == [Key] + (Tokens(p.key) + (ValueTokens(p) + more))
    ensures FeedMove(BlockKeyAt(c), Unparse(TreeOf(p.key, dirs)))
         == Some(Config(ValueTokens(p) + more, InBlockMappingValue, c.states, c.tags))
  {
    hide Declared, Keyed, Good, FeedMove, NodeBefore, Tokens, Unparse, TreeOf;
    var d, u := Next(c), ValueTokens(p) + more;
    assert d.tokens == Tokens(p.key) + u && u[0] == if p.value.Some? then Value else more[0];
    HeadIs(p.key, dirs, true, true, u, d);
    PartReads(p.key, dirs, true, true, d, InBlockMappingValue, u, BlockKeyAt(c));
  }

  lemma {:induction false} BlockKeyNeeds(p: Pair, dirs: map<string, string>, c: Config, more: seq<Token>,
      es: seq<Event>)
    requires GoodPair(p, dirs, true) && Declared(c.tags, dirs) && Follows(more, true) && es != []
    requires c.states != [] && c.tokens == [Key] + (Tokens(p.key) + (ValueTokens(p) + more))
    requires FinishesMove(BlockKeyAt(c), Unparse(TreeOf(p.key, dirs)) + es)
    ensures Keyed(p.key)
    decreases p, 0
  {
    hide Declared, Keyed, Good, FinishesMove, NodeBefore, Tokens, Unparse, TreeOf;
    var d, u := Next(c), ValueTokens(p) + more;
    assert d.tokens == Tokens(p.key) + u && u[0] == if p.value.Some? then Value else more[0];
    HeadIs(p.key, dirs, true, true, u, d);
    PartNeeds(p.key, dirs, true, true, d, InBlockMappingValue, u, BlockKeyAt(c), es);
  }

  lemma {:induction false} BlockValueNeeds(p: Pair, dirs: map<string, string>, c: Config, more: seq<Token>,
      es: seq<Event>)
    requires GoodPair(p, dirs, true) && Declared(c.tags, dirs) && Follows(more, true) && es != []
    requires c.states != [] && c.tokens == ValueTokens(p) + more
    requires FinishesMove(BlockValueAt(c), Unparse(ValueNode(p, dirs)) + es)
    ensures p.value.Some? ==> Keyed(p.value.value)
    decreases p, 0
  {
    hide Declared, Keyed, Good, FinishesMove, NodeBefore, Tokens, Unparse, TreeOf;
    if p.value.Some? {
      var f, d := p.value.value, Next(c);
      assert c.tokens == [Value] + (Tokens(f) + more) && d.tokens == Tokens(f) + more;
      HeadIs(f, dirs, true, true, more, d);
      PartNeeds(f, dirs, true, true, d, InBlockMappingKey, more, BlockValueAt(c), es);
    }
  }

  // ----- flow sequences -----

  lemma {:induction false} FlowSeqNeeds(f: Form, dirs: map<string, string>, block: bool, dense: bool, c: Config,
      rest: seq<Token>, es: seq<Event>)
    requires f.FlowSeq? && Good(f, dirs, block, dense) && Declared(c.tags, dirs)
    requires c.states != [] && c.tokens == Tokens(f) + rest && es != []
    requires FinishesMove(NodeAt(c, block, dense), Unparse(TreeOf(f, dirs)) + es)
    ensures Keyed(f)
    decreases f, 2
  {
    hide Declared, NodeAt, FinishesMove, Good, Keyed, Tokens, EntryTokens, Tail, TreeOf, EntryNodes, Unparse,
        UnparseAll,
        TagOf, GoodProps, PropTokens, Step, FlowSequenceAt, FlowMappingAt;
    GoodHasProps(f, dirs, block, dense);
    FlowTokens(f, rest);
    NodeOfFlow(f, dirs);
    GoodInFlow(f, dirs, block, dense);
    var v, kids := EntryTokens(f, 0) + Tail(f, rest), EntryNodes(f, dirs, 0);
    var e, ks := SequenceStart(f.props.anchor, TagOf(dirs, f.props.tag)), UnparseAll(kids) + [SequenceEnd];
    UnparseSequence(e, kids);
    Regroup([e], ks, es);
    CollectionGoesOn(f.props, FlowSequenceStart, v, c, dirs, block, dense, e, ks + es);
    EntriesNeed(f, dirs, 0, Config(v, InFlowSequenceFirstEntry, c.states, c.tags), rest, es);
    EntriesKeyed(f);
  }

  lemma EntriesKeyed(f: Form)
    requires f.FlowSeq? && forall i :: 0 <= i < |f.entries| ==> EntryKeyed(f, i)
    ensures Keyed(f)
  {
    forall i | 0 <= i < |f.entries|
      ensures KeyedEntry(f.entries[i])
      ensures f.entries[i].Single? ==> Spared(f.entries[i].pair, f.comma && i == |f.entries| - 1)
    {
      assert EntryKeyed(f, i);
    }
  }

  /** The entry has its keys, and its own key as far as it needs one. */
  predicate EntryKeyed(f: Form, i: nat)
    requires f.FlowSeq? && i < |f.entries|
  {
    && KeyedEntry(f.entries[i])
    && (f.entries[i].Single? ==> Spared(f.entries[i].pair, f.comma && i == |f.entries| - 1))
  }

  lemma GoodEntries(f: Form, dirs: map<string, string>)
    requires (f.FlowSeq? || f.FlowMap?) && Good(f, dirs, false, false)
    ensures f.comma ==> f.entries != []
    ensures forall i :: 0 <= i < |f.entries| ==> GoodEntry(f.entries[i], dirs)
  {}

  /** What comes after a comma. */
  lemma AfterComma(f: Form, dirs: map<string, string>, i: nat, rest: seq<Token>)
    requires f.FlowSeq? && Good(f, dirs, false, false) && 0 < i <= |f.entries|
    ensures var more := EntryTokens(f, i) + Tail(f, rest);
      more[0].FlowEntry? ==> |more| > 1 && if i == |f.entries| then more[1].FlowSequenceEnd? else StartsEntry(more[1])
    ensures i == |f.entries| && !f.comma ==> (EntryTokens(f, i) + Tail(f, rest))[0].FlowSequenceEnd?
  {
    if i < |f.entries| {
      var u := EntryTokens(f, i + 1) + Tail(f, rest);
      GoodEntries(f, dirs);
      EntryTokensAre(f, i, Tail(f, rest));
      TailIsSome(f, rest);
      EntryHead(f.entries[i], dirs, Start(TokensOfEntry(f.entries[i]) + u), u);
      assert (EntryTokens(f, i) + Tail(f, rest))[1] == (TokensOfEntry(f.entries[i]) + u)[0];
    }
  }

  predicate StartsEntry(t: Token) {
    t.Key? || !Ends(t)
  }

  lemma {:induction false} EntriesNeed(f: Form, dirs: map<string, string>, i: nat, c: Config, rest: seq<Token>,
      es: seq<Event>)
    requires f.FlowSeq? && i <= |f.entries| && Declared(c.tags, dirs) && Good(f, dirs, false, false) && es != []
    requires c.states != [] && c.tokens == EntryTokens(f, i) + Tail(f, rest)
    requires FinishesMove(FlowSequenceAt(c, i == 0), (UnparseAll(EntryNodes(f, dirs, i)) + [SequenceEnd]) + es)
    ensures forall j :: i <= j < |f.entries| ==> EntryKeyed(f, j)
    decreases f, 1, |f.entries| - i
  {
    hide Declared, FeedMove, FinishesMove, FlowItemAt, FlowSequenceAt, Tail, EntryTokens, TokensOfEntry, EntryNodes,
        EntryNode, Unparse, UnparseAll, GoodEntry, KeyedEntry, Good, Keyed, Step, Follows, EntryKeyed;
    if i < |f.entries| {
      var e, more := f.entries[i], EntryTokens(f, i + 1) + Tail(f, rest);
      var ks := UnparseAll(EntryNodes(f, dirs, i + 1)) + [SequenceEnd];
      GoodEntries(f, dirs);
      CommaReads(f, i, c, rest);
      EntriesFollow(f, i + 1, rest);
      AfterComma(f, dirs, i + 1, rest);
      var d := c.(tokens := TokensOfEntry(e) + more);
      EntryHead(e, dirs, d, more);
      FlowSequenceIsItem(c, i == 0, d);
      EntriesSplit(f, dirs, i);
      Regroup(Unparse(EntryNode(e, dirs)), ks, es);
      EntryNeeds(e, dirs, d, more, ks + es);
      IsKeyed(f, i, more);
      if i + 1 < |f.entries| {
        var c2 := Config(more, InFlowSequenceEntry, c.states, c.tags);
        EntryReads(e, dirs, d, more, false);
        EntrySome(e, dirs);
        GoesOn(FlowItemAt(d), Unparse(EntryNode(e, dirs)), ks + es, c2);
        StepIsSequence(c2);
        EntriesNeed(f, dirs, i + 1, c2, rest, es);
      }
    }
  }

  /** As far as the tokens that follow tell, the entry's own key is there if it is needed. */
  predicate SparedBefore(e: Entry, more: seq<Token>) {
    e.Single? && IsNothing(e.pair.key) ==>
      if e.pair.value.Some? then IsNothing(e.pair.value.value)
      else |more| > 1 && more[0].FlowEntry? && more[1].FlowSequenceEnd?
  }

  lemma IsKeyed(f: Form, i: nat, more: seq<Token>)
    requires f.FlowSeq? && i < |f.entries| && more != [] && KeyedEntry(f.entries[i])
    requires SparedBefore(f.entries[i], more)
    requires more[0].FlowEntry? && |more| > 1 && i + 1 < |f.entries| ==> StartsEntry(more[1])
    requires i + 1 == |f.entries| && !f.comma ==> more[0].FlowSequenceEnd?
    ensures EntryKeyed(f, i)
    ensures i + 1 < |f.entries| && f.entries[i].Single? ==>
      Spared(f.entries[i].pair, false) && !(IsNothing(f.entries[i].pair.key) && f.entries[i].pair.value.None?)
  {}

  lemma {:induction false} EntryNeeds(e: Entry, dirs: map<string, string>, d: Config, more: seq<Token>, es: seq<Event>)
    requires GoodEntry(e, dirs) && Declared(d.tags, dirs) && es != []
    requires d.states != [] && d.tokens == TokensOfEntry(e) + more && Follows(more, false)
    requires more[0].FlowEntry? || more[0].FlowSequenceEnd?
    requires more[0].FlowEntry? ==> |more| > 1 && (more[1].FlowSequenceEnd? || StartsEntry(more[1]))
    requires FinishesMove(FlowItemAt(d), Unparse(EntryNode(e, dirs)) + es)
    ensures KeyedEntry(e) && SparedBefore(e, more)
    decreases e, 0
  {
    hide Declared, Keyed, Good, FinishesMove, NodeBefore, TokensOfPair, Unparse, TreeOf, Tokens, ValueNode, Step;
    EntryHead(e, dirs, d, more);
    if e.Item? {
      PartNeeds(e.node, dirs, false, false, d, InFlowSequenceEntry, more, FlowItemAt(d), es);
    } else {
      var p := e.pair;
      PairTokensAre(p, more);
      PairUnparse(p, dirs);
      var c1 := Next(d).(state := InFlowSequenceEntryMappingKey);
      assert c1.tokens == Tokens(p.key) + (ValueTokens(p) + more);
      var ks, vs := Unparse(TreeOf(p.key, dirs)), Unparse(ValueNode(p, dirs)) + [MappingEnd];
      Regroup([MappingStart(None, "")], ks + vs, es);
      Regroup(ks, vs, es);
      EventsSome(p.key, dirs);
      EmitsOn(FlowItemAt(d), MappingStart(None, ""), ks + (vs + es));
      StepIsPair(c1);
      SinglePairNeeds(p, dirs, c1, more, es);
    }
  }

  lemma StepIsPair(c: Config)
    ensures c.state.InFlowSequenceEntryMappingKey? ==> Step(c) == PairKeyAt(c)
    ensures c.state.InFlowSequenceEntryMappingValue? ==> Step(c) == PairValueAt(c)
    ensures c.state.InFlowSequenceEntryMappingEnd? ==> Step(c) == PairEndAt(c)
  {}

  lemma {:induction false} SinglePairNeeds(p: Pair, dirs: map<string, string>, c: Config, more: seq<Token>,
      es: seq<Event>)
    requires GoodPair(p, dirs, false) && Declared(c.tags, dirs) && es != []
    requires c.states != [] && c.tokens == Tokens(p.key) + (ValueTokens(p) + more) && Follows(more, false)
    requires more[0].FlowEntry? || more[0].FlowSequenceEnd?
    requires more[0].FlowEntry? ==> |more| > 1 && (more[1].FlowSequenceEnd? || StartsEntry(more[1]))
    requires c.state.InFlowSequenceEntryMappingKey? && !SkipsEnd(c)
    requires FinishesMove(PairKeyAt(c),
        Unparse(TreeOf(p.key, dirs)) + ((Unparse(ValueNode(p, dirs)) + [MappingEnd]) + es))
    ensures KeyedPair(p) && SparedBefore(Single(p), more)
    decreases p, 1
  {
    hide Declared, Keyed, Good, FinishesMove, FeedMove, NodeBefore, TokensOfPair, Unparse, TreeOf, Tokens, ValueNode,
        Step,
        PairKeyAt, PairValueAt, ValueTokens, GoodPair, KeyedPair, Follows, SkipsEnd, IsNothing;
    if IsNothing(p.key) {
      NothingKeyNeeds(p, dirs, c, more, es);
    } else {
      var vs := (Unparse(ValueNode(p, dirs)) + [MappingEnd]) + es;
      PairKeyNeeds(p, dirs, c, more, vs);
      PairKeyIsRead(p, dirs, c, more);
      var c2 := Config(ValueTokens(p) + more, InFlowSequenceEntryMappingValue, c.states, c.tags);
      EventsSome(p.key, dirs);
      GoesOn(PairKeyAt(c), Unparse(TreeOf(p.key, dirs)), vs, c2);
      StepIsPair(c2);
      Regroup(Unparse(ValueNode(p, dirs)), [MappingEnd], es);
      PairValueNeeds(p, dirs, c2, more, [MappingEnd] + es);
      BothKeyed(p);
    }
  }

  lemma PairKeyIsRead(p: Pair, dirs: map<string, string>, c: Config, more: seq<Token>)
    requires GoodPair(p, dirs, false) && Keyed(p.key) && !IsNothing(p.key) && Declared(c.tags, dirs)
    requires c.states != [] && c.tokens == Tokens(p.key) + (ValueTokens(p) + more) && Follows(more, false)
    ensures FeedMove(PairKeyAt(c), Unparse(TreeOf(p.key, dirs)))
         == Some(Config(ValueTokens(p) + more, InFlowSequenceEntryMappingValue, c.states, c.tags))
  {
    hide Declared, Keyed, Good, FeedMove, NodeBefore, Tokens, Unparse, TreeOf;
    var u := ValueTokens(p) + more;
    assert u[0] == if p.value.Some? then Value else more[0];
    HeadIs(p.key, dirs, false, false, u, c);
    PartReads(p.key, dirs, false, false, c, InFlowSequenceEntryMappingValue, u, PairKeyAt(c));
  }

  lemma {:induction false} PairKeyNeeds(p: Pair, dirs: map<string, string>, c: Config, more: seq<Token>, es: seq<Event>)
    requires GoodPair(p, dirs, false) && !IsNothing(p.key) && Declared(c.tags, dirs) && es != []
    requires c.states != [] && c.tokens == Tokens(p.key) + (ValueTokens(p) + more) && Follows(more, false)
    requires FinishesMove(PairKeyAt(c), Unparse(TreeOf(p.key, dirs)) + es)
    ensures Keyed(p.key)
    decreases p, 0
  {
    hide Declared, Keyed, Good, FinishesMove, NodeBefore, Tokens, Unparse, TreeOf;
    var u := ValueTokens(p) + more;
    assert u[0] == if p.value.Some? then Value else more[0];
    HeadIs(p.key, dirs, false, false, u, c);
    PartNeeds(p.key, dirs, false, false, c, InFlowSequenceEntryMappingValue, u, PairKeyAt(c), es);
  }

  lemma {:induction false} PairValueNeeds(p: Pair, dirs: map<string, string>, c: Config, more: seq<Token>,
      es: seq<Event>)
    requires GoodPair(p, dirs, false) && Declared(c.tags, dirs) && Follows(more, false) && es != []
    requires more[0].FlowEntry? || more[0].FlowSequenceEnd?
    requires c.states != [] && c.tokens == ValueTokens(p) + more
    requires FinishesMove(PairValueAt(c), Unparse(ValueNode(p, dirs)) + es)
    ensures p.value.Some? ==> Keyed(p.value.value)
    decreases p, 0
  {
    hide Declared, Keyed, Good, FinishesMove, NodeBefore, Tokens, Unparse, TreeOf;
    if p.value.Some? {
      var f, d := p.value.value, Next(c);
      assert c.tokens == [Value] + (Tokens(f) + more) && d.tokens == Tokens(f) + more;
      HeadIs(f, dirs, false, false, more, d);
      PartNeeds(f, dirs, false, false, d, InFlowSequenceEntryMappingEnd, more, PairValueAt(c), es);
    }
  }

  /** A node that has tokens does not give the event of an empty one. */
  lemma NotEmptyEvent(f: Form, dirs: map<string, string>)
    requires Good(f, dirs, false, false) && !IsNothing(f)
    ensures Unparse(TreeOf(f, dirs)) != [] && Unparse(TreeOf(f, dirs))[0] != EMPTY_SCALAR
  {
    EventsSome(f, dirs);
  }

  /** Without a key, the token at hand is lost. */
  lemma NothingKeyNeeds(p: Pair, dirs: map<string, string>, c: Config, more: seq<Token>, es: seq<Event>)
    requires GoodPair(p, dirs, false) && IsNothing(p.key) && es != []
    requires c.tokens == Tokens(p.key) + (ValueTokens(p) + more) && Follows(more, false)
    requires more[0].FlowEntry? || more[0].FlowSequenceEnd?
    requires more[0].FlowEntry? ==> |more| > 1 && (more[1].FlowSequenceEnd? || StartsEntry(more[1]))
    requires c.state.InFlowSequenceEntryMappingKey? && !SkipsEnd(c)
    requires FinishesMove(PairKeyAt(c),
        Unparse(TreeOf(p.key, dirs)) + ((Unparse(ValueNode(p, dirs)) + [MappingEnd]) + es))
    ensures KeyedPair(p) && SparedBefore(Single(p), more)
  {
    hide Good, FinishesMove, NodeBefore, Unparse, TreeOf, Step, ValueNode, ValueTokens, PairValueAt, Tokens, IsNothing;
    NothingIs(p.key, dirs);
    NothingKeyed(p.key);
    var c2 := Next(c).(state := InFlowSequenceEntryMappingValue);
    assert c.tokens == ValueTokens(p) + more;
    ValueHead(p, more);
    var vs := (Unparse(ValueNode(p, dirs)) + [MappingEnd]) + es;
    ValueSome(p, dirs);
    EmitsOn(PairKeyAt(c), EMPTY_SCALAR, vs);
    StepIsPair(c2);
    if p.value.Some? {
      NothingValueNeeds(p.value.value, dirs, c2, more, vs, p);
      NothingKeyed(p.value.value);
    } else {
      NothingAtAll(c2, vs, p, dirs, es);
    }
  }

  lemma NothingKeyed(f: Form)
    requires IsNothing(f)
    ensures Keyed(f)
  {}

  lemma ValueHead(p: Pair, more: seq<Token>)
    requires more != []
    ensures var u := ValueTokens(p) + more;
      && u != [] && u[0] == (if p.value.Some? then Value else more[0])
      && u[1..] == if p.value.Some? then Tokens(p.value.value) + more else more[1..]
  {
    hide Tokens;
  }

  lemma NothingValueNeeds(f: Form, dirs: map<string, string>, c: Config, more: seq<Token>, vs: seq<Event>, p: Pair)
    requires p.value == Some(f) && Good(f, dirs, false, false) && c.tokens == Tokens(f) + more && more != []
    requires vs != [] && Unparse(ValueNode(p, dirs)) != [] && vs[0] == Unparse(ValueNode(p, dirs))[0]
    requires FinishesMove(PairValueAt(c), vs)
    ensures IsNothing(f)
  {
    hide Good, TreeOf, Unparse, Tokens, IsNothing, NodeBefore;
    if !IsNothing(f) {
      HeadIs(f, dirs, false, false, more, c);
      NotEmptyEvent(f, dirs);
      assert false;
    }
  }

  lemma NothingAtAll(c: Config, vs: seq<Event>, p: Pair, dirs: map<string, string>, es: seq<Event>)
    requires p.value.None? && vs == (Unparse(ValueNode(p, dirs)) + [MappingEnd]) + es && es != []
    requires c.state.InFlowSequenceEntryMappingValue? && FinishesMove(PairValueAt(c), vs)
    requires c.tokens != [] ==> c.tokens[0].FlowSequenceEnd? || StartsEntry(c.tokens[0])
    ensures c.tokens != [] && c.tokens[0].FlowSequenceEnd?
  {
    hide FinishesMove, Step, NodeBefore, CommaAt;
    assert vs == [EMPTY_SCALAR] + ([MappingEnd] + es);
    EmitsOn(PairValueAt(c), EMPTY_SCALAR, [MappingEnd] + es);
    var c3 := c.(state := InFlowSequenceEntryMappingEnd);
    StepIsPair(c3);
    EmitsOn(PairEndAt(c3), MappingEnd, es);
    var c4 := c3.(state := InFlowSequenceEntry);
    StepIsSequence(c4);
    NoComma(c4, es);
  }

  lemma NoComma(c: Config, es: seq<Event>)
    requires es != [] && FinishesMove(FlowSequenceAt(c, false), es)
    ensures c.tokens != [] && (Head(c).FlowSequenceEnd? || Head(c).FlowEntry?)
  {}

  // ----- flow mappings -----

  lemma {:induction false} FlowMapNeeds(f: Form, dirs: map<string, string>, block: bool, dense: bool, c: Config,
      rest: seq<Token>, es: seq<Event>)
    requires f.FlowMap? && Good(f, dirs, block, dense) && Declared(c.tags, dirs)
    requires c.states != [] && c.tokens == Tokens(f) + rest && es != []
    requires FinishesMove(NodeAt(c, block, dense), Unparse(TreeOf(f, dirs)) + es)
    ensures Keyed(f)
    decreases f, 2
  {
    hide Declared, NodeAt, FinishesMove, Good, Keyed, Tokens, EntryTokens, Tail, TreeOf, EntryNodes, Unparse,
        UnparseAll,
        TagOf, GoodProps, PropTokens, Step, FlowSequenceAt, FlowMappingAt;
    GoodHasProps(f, dirs, block, dense);
    FlowTokens(f, rest);
    NodeOfFlow(f, dirs);
    GoodInFlow(f, dirs, block, dense);
    var v, kids := EntryTokens(f, 0) + Tail(f, rest), EntryNodes(f, dirs, 0);
    var e, ks := MappingStart(f.props.anchor, TagOf(dirs, f.props.tag)), UnparseAll(kids) + [MappingEnd];
    UnparseMapping(e, kids);
    Regroup([e], ks, es);
    CollectionGoesOn(f.props, FlowMappingStart, v, c, dirs, block, dense, e, ks + es);
    MapEntriesNeed(f, dirs, 0, Config(v, InFlowMappingFirstKey, c.states, c.tags), rest, es);
    MapKeyed(f);
  }

  lemma MapKeyed(f: Form)
    requires f.FlowMap? && forall i :: 0 <= i < |f.entries| ==> KeyedEntry(f.entries[i])
    ensures Keyed(f)
  {}

  lemma {:induction false} MapEntriesNeed(f: Form, dirs: map<string, string>, i: nat, c: Config, rest: seq<Token>,
      es: seq<Event>)
    requires f.FlowMap? && i <= |f.entries| && Declared(c.tags, dirs) && Good(f, dirs, false, false) && es != []
    requires c.states != [] && c.tokens == EntryTokens(f, i) + Tail(f, rest)
    requires FinishesMove(FlowMappingAt(c, i == 0), (UnparseAll(EntryNodes(f, dirs, i)) + [MappingEnd]) + es)
    ensures forall j :: i <= j < |f.entries| ==> KeyedEntry(f.entries[j])
    decreases f, 1, |f.entries| - i
  {
    hide Declared, FeedMove, FinishesMove, FlowPairAt, FlowMappingAt, Tail, EntryTokens, TokensOfEntry, EntryNodes,
        TreeOf,
        ValueNode, Unparse, UnparseAll, GoodEntry, KeyedEntry, Good, Keyed, Step, Follows;
    if i < |f.entries| {
      var e, more := f.entries[i], EntryTokens(f, i + 1) + Tail(f, rest);
      var ks := UnparseAll(EntryNodes(f, dirs, i + 1)) + [MappingEnd];
      GoodEntries(f, dirs);
      CommaReads(f, i, c, rest);
      EntriesFollow(f, i + 1, rest);
      FollowsToken(more);
      var d := c.(tokens := TokensOfEntry(e) + more);
      EntryHead(e, dirs, d, more);
      FlowMappingIsPair(c, i == 0, d);
      MapEntriesSplit(f, dirs, i);
      var p := PairOf(e);
      var both := Unparse(TreeOf(p.key, dirs)) + Unparse(ValueNode(p, dirs));
      Regroup(both, ks, es);
      MapEntryNeeds(e, dirs, d, more, ks + es);
      MapEntryReads(e, dirs, d, more);
      EventsSome(p.key, dirs);
      var c2 := Config(more, InFlowMappingKey, c.states, c.tags);
      GoesOn(FlowPairAt(d), both, ks + es, c2);
      StepIsMapping(c2);
      MapEntriesNeed(f, dirs, i + 1, c2, rest, es);
    }
  }

  lemma FollowsToken(more: seq<Token>)
    requires Follows(more, false)
    ensures more != []
  {}

  lemma {:induction false} MapEntryNeeds(e: Entry, dirs: map<string, string>, d: Config, more: seq<Token>,
      es: seq<Event>)
    requires GoodEntry(e, dirs) && Declared(d.tags, dirs) && es != []
    requires d.states != [] && d.tokens == TokensOfEntry(e) + more && Follows(more, false)
    requires more[0].FlowEntry? || more[0].FlowMappingEnd?
    requires FinishesMove(FlowPairAt(d),
        (Unparse(TreeOf(PairOf(e).key, dirs)) + Unparse(ValueNode(PairOf(e), dirs))) + es)
    ensures KeyedEntry(e)
    decreases e, 0
  {
    hide Declared, Keyed, Good, FinishesMove, NodeBefore, TokensOfPair, Unparse, TreeOf, Tokens, ValueNode, FlowKeyAt;
    EntryHead(e, dirs, d, more);
    var p := PairOf(e);
    Regroup(Unparse(TreeOf(p.key, dirs)), Unparse(ValueNode(p, dirs)), es);
    var vs := Unparse(ValueNode(p, dirs)) + es;
    if e.Item? {
      PartNeeds(e.node, dirs, false, false, d, InFlowMappingEmptyValue, more, FlowPairAt(d), vs);
    } else {
      PairTokensAre(p, more);
      assert Next(d).tokens == Tokens(p.key) + (ValueTokens(p) + more);
      FlowPairNeeds(p, dirs, Next(d), more, es);
    }
  }

  lemma {:induction false} FlowPairNeeds(p: Pair, dirs: map<string, string>, c: Config, more: seq<Token>,
      es: seq<Event>)
    requires GoodPair(p, dirs, false) && Declared(c.tags, dirs) && Follows(more, false) && es != []
    requires more[0].FlowEntry? || more[0].FlowMappingEnd?
    requires c.states != [] && c.tokens == Tokens(p.key) + (ValueTokens(p) + more)
    requires FinishesMove(FlowKeyAt(c), Unparse(TreeOf(p.key, dirs)) + (Unparse(ValueNode(p, dirs)) + es))
    ensures KeyedPair(p)
    decreases p, 1
  {
    hide Declared, Keyed, Good, FinishesMove, FeedMove, FlowKeyAt, FlowValueAt, Tokens, ValueTokens, TreeOf, ValueNode,
        Unparse, Follows, GoodPair, KeyedPair;
    var vs := Unparse(ValueNode(p, dirs)) + es;
    FlowKeyNeeds(p, dirs, c, more, vs);
    FlowKeyIsRead(p, dirs, c, more);
    EventsSome(p.key, dirs);
    var c2 := Config(ValueTokens(p) + more, InFlowMappingValue, c.states, c.tags);
    GoesOn(FlowKeyAt(c), Unparse(TreeOf(p.key, dirs)), vs, c2);
    StepIsValue(c2);
    FlowValueNeeds(p, dirs, c2, more, es);
    BothKeyed(p);
  }

  lemma FlowKeyIsRead(p: Pair, dirs: map<string, string>, c: Config, more: seq<Token>)
    requires GoodPair(p, dirs, false) && Keyed(p.key) && Declared(c.tags, dirs) && Follows(more, false)
    requires more[0].FlowEntry? || more[0].FlowMappingEnd?
    requires c.states != [] && c.tokens == Tokens(p.key) + (ValueTokens(p) + more)
    ensures FeedMove(FlowKeyAt(c), Unparse(TreeOf(p.key, dirs)))
         == Some(Config(ValueTokens(p) + more, InFlowMappingValue, c.states, c.tags))
  {
    hide Declared, Keyed, Good, FeedMove, NodeBefore, Tokens, Unparse, TreeOf;
    var u := ValueTokens(p) + more;
    assert u[0] == if p.value.Some? then Value else more[0];
    HeadIs(p.key, dirs, false, false, u, c);
    PartReads(p.key, dirs, false, false, c, InFlowMappingValue, u, FlowKeyAt(c));
  }

  lemma {:induction false} FlowKeyNeeds(p: Pair, dirs: map<string, string>, c: Config, more: seq<Token>, es: seq<Event>)
    requires GoodPair(p, dirs, false) && Declared(c.tags, dirs) && Follows(more, false) && es != []
    requires more[0].FlowEntry? || more[0].FlowMappingEnd?
    requires c.states != [] && c.tokens == Tokens(p.key) + (ValueTokens(p) + more)
    requires FinishesMove(FlowKeyAt(c), Unparse(TreeOf(p.key, dirs)) + es)
    ensures Keyed(p.key)
    decreases p, 0
  {
    hide Declared, Keyed, Good, FinishesMove, NodeBefore, Tokens, Unparse, TreeOf;
    var u := ValueTokens(p) + more;
    assert u[0] == if p.value.Some? then Value else more[0];
    HeadIs(p.key, dirs, false, false, u, c);
    PartNeeds(p.key, dirs, false, false, c, InFlowMappingValue, u, FlowKeyAt(c), es);
  }

  lemma {:induction false} FlowValueNeeds(p: Pair, dirs: map<string, string>, c: Config, more: seq<Token>,
      es: seq<Event>)
    requires GoodPair(p, dirs, false) && Declared(c.tags, dirs) && Follows(more, false) && es != []
    requires more[0].FlowEntry? || more[0].FlowMappingEnd?
    requires c.states != [] && c.tokens == ValueTokens(p) + more
    requires FinishesMove(FlowValueAt(c, false), Unparse(ValueNode(p, dirs)) + es)
    ensures p.value.Some? ==> Keyed(p.value.value)
    decreases p, 0
  {
    hide Declared, Keyed, Good, FinishesMove, NodeBefore, Tokens, Unparse, TreeOf;
    if p.value.Some? {
      var f, d := p.value.value, Next(c);
      assert c.tokens == [Value] + (Tokens(f) + more) && d.tokens == Tokens(f) + more;
      HeadIs(f, dirs, false, false, more, d);
      PartNeeds(f, dirs, false, false, d, InFlowMappingKey, more, FlowValueAt(c, false), es);
    }
  }

  // ----- documents -----

  /** A document from between two, and the run behind it. */
  lemma DocNeeds(d: DocForm, first: bool, n: nat, c: Config, u: seq<Token>, es: seq<Event>)
    requires GoodDoc(d) && (!first ==> d.explicit) && (first ==> n == 0)
    requires u != [] && AfterDocument(u[0]) && es != []
    requires c == Config(EndTokens(n) + (DocTokens(d) + (EndTokens(d.ends) + u)),
                         if first then InImplicitDocumentStart else InDocumentStart, [], [])
    requires FinishesMove(Step(c), [DocumentStart] +
               (Unparse(TreeOf(d.root, PrefixesOf(d))) + ([DocumentEnd(d.ends == 0)] + es)))
    ensures Keyed(d.root)
    ensures FinishesMove(Step(Config(EndTokens(if d.ends == 0 then 0 else d.ends - 1) + u, InDocumentStart, [], [])),
        es)
  {
    hide Good, GoodDoc, Keyed, Tokens, FeedMove, FinishesMove, Step, DocTokens, Unparse, TreeOf, Declared, EndTokens,
        PrefixesOf, DocumentStartAt, AfterDocument, SkipsEnd;
    var r, node := EndTokens(d.ends) + u, Unparse(TreeOf(d.root, PrefixesOf(d)));
    DocStartReads(d, first, n, c, r);
    StepDocument(c, first);
    var c1 := DocumentStartAt(c, first).c;
    EmitsOn(Step(c), DocumentStart, node + ([DocumentEnd(d.ends == 0)] + es));
    RootNeeds(d, c1, d.ends, u, [DocumentEnd(d.ends == 0)] + es);
    RootReads(d, c1, d.ends, u);
    var c2 := Config(r, InDocumentEnd, [], c1.tags);
    GoesOn(Step(c1), node, [DocumentEnd(d.ends == 0)] + es, c2);
    DocEndReads(c2, d.ends, u);
    EmitsOn(Step(c2), DocumentEnd(d.ends == 0), es);
  }

  lemma RootNeeds(d: DocForm, c: Config, n: nat, more: seq<Token>, es: seq<Event>)
    requires GoodDoc(d) && Declared(c.tags, PrefixesOf(d)) && more != [] && AfterDocument(more[0]) && es != []
    requires c.state == (if d.explicit then InDocumentContent else InBlockNode) && c.states == [InDocumentEnd]
    requires c.tokens == Tokens(d.root) + (EndTokens(n) + more)
    requires FinishesMove(Step(c), Unparse(TreeOf(d.root, PrefixesOf(d))) + es)
    ensures Keyed(d.root)
  {
    hide Declared, Keyed, Good, NodeAt, FinishesMove, Tokens, Unparse, TreeOf, EndTokens, IsNothing;
    var r := EndTokens(n) + more;
    EndsFollow(n, more);
    HeadIs(d.root, PrefixesOf(d), true, false, r, c);
    if IsNothing(d.root) {
      NothingKeyed(d.root);
    } else {
      NodeNeeds(d.root, PrefixesOf(d), true, false, c, r, es);
    }
  }

  lemma {:induction false} DocsNeed(ds: seq<DocForm>, first: bool, n: nat, c: Config)
    requires GoodStream(ds) && (first ==> n == 0)
    requires !first ==> forall i :: 0 <= i < |ds| ==> ds[i].explicit
    requires c == Config(EndTokens(n) + (DocsTokens(ds) + [StreamEndToken]),
                         if first then InImplicitDocumentStart else InDocumentStart, [], [])
    requires FinishesMove(Step(c), UnparseDocs(Documents(ds)) + [StreamEnd])
    ensures KeyedStream(ds)
    decreases |ds|
  {
    if ds != [] {
      hide GoodStream, KeyedStream, GoodDoc, Keyed, FinishesMove, Step, DocTokens, EndTokens, DocsTokens, UnparseDocs,
          Documents, Unparse, TreeOf, PrefixesOf, AfterDocument;
      var d, u := ds[0], DocsTokens(ds[1..]) + [StreamEndToken];
      var es := UnparseDocs(Documents(ds[1..])) + [StreamEnd];
      var left := if d.ends == 0 then 0 else d.ends - 1;
      TailIsGood(ds);
      DocsFollow(ds[1..]);
      DocsTokensAre(ds, n);
      DocsSplit(ds, es);
      DocNeeds(d, first, n, c, u, es);
      DocsNeed(ds[1..], false, left, Config(EndTokens(left) + u, InDocumentStart, [], []));
      AllKeyed(ds);
    }
  }

  lemma TailIsGood(ds: seq<DocForm>)
    requires ds != [] && GoodStream(ds)
    ensures GoodDoc(ds[0]) && GoodStream(ds[1..]) && forall i :: 0 <= i < |ds[1..]| ==> ds[1..][i].explicit
  {
    assert forall i :: 0 <= i < |ds[1..]| ==> ds[1..][i] == ds[i + 1];
  }

  lemma AllKeyed(ds: seq<DocForm>)
    requires ds != [] && Keyed(ds[0].root) && KeyedStream(ds[1..])
    ensures KeyedStream(ds)
  {
    forall i | 0 <= i < |ds|
      ensures Keyed(ds[i].root)
    {
      if i > 0 { assert ds[i] == ds[1..][i - 1]; }
    }
  }

  // ----- presentations are balanced -----

  /** As many flow sequences start as end, and the stream goes on. */
  ghost predicate Balanced(ts: seq<Token>) {
    Depth(ts) == 0 && forall i :: 0 <= i < |ts| ==> !ts[i].StreamEndToken?
  }

  lemma BothBalanced(a: seq<Token>, b: seq<Token>)
    requires Balanced(a) && Balanced(b)
    ensures Balanced(a + b)
  {
    DepthConcat(a, b);
  }

  lemma NoneBalanced()
    ensures Balanced([])
  {}

  lemma OneBalanced(t: Token)
    requires Weight(t) == 0 && !t.StreamEndToken?
    ensures Balanced([t])
  {}

  lemma PropsBalanced(p: Props)
    ensures Balanced(PropTokens(p))
  {
    hide Balanced;
    var a := if p.anchor.Some? then [Anchor(p.anchor.value)] else [];
    var t := if p.tag.Some? then [Tag(p.tag.value.0, p.tag.value.1)] else [];
    NoneBalanced();
    if p.anchor.Some? { OneBalanced(a[0]); }
    if p.tag.Some? { OneBalanced(t[0]); }
    BothBalanced(a, t);
    BothBalanced(t, a);
  }

  lemma {:induction false} TokensBalanced(f: Form)
    ensures Balanced(Tokens(f))
    decreases f, 2
  {
    hide PropTokens, ItemTokens, PairTokens, EntryTokens, Balanced;
    match f
    case AliasForm(name) =>
      OneBalanced(AliasToken(name));
    case ScalarForm(p, text, plain) =>
      PropsBalanced(p);
      OneBalanced(ScalarToken(text, plain));
      BothBalanced(PropTokens(p), [ScalarToken(text, plain)]);
    case EmptyForm(p) =>
      PropsBalanced(p);
    case BlockSeq(p, _) =>
      ItemsBalanced(f, 0);
      BracketsBalanced(p, BlockSequenceStart, ItemTokens(f, 0), BlockEnd);
    case Indentless(p, _) =>
      PropsBalanced(p);
      ItemsBalanced(f, 0);
      BothBalanced(PropTokens(p), ItemTokens(f, 0));
    case BlockMap(p, _) =>
      PairsBalanced(f, 0);
      BracketsBalanced(p, BlockMappingStart, PairTokens(f, 0), BlockEnd);
    case FlowSeq(p, _, comma) =>
      EntriesBalanced(f, 0);
      CommaBalanced(EntryTokens(f, 0), comma, FlowSequenceEnd);
      BracketsBalanced(p, FlowSequenceStart, EntryTokens(f, 0) + Comma(comma), FlowSequenceEnd);
    case FlowMap(p, _, comma) =>
      EntriesBalanced(f, 0);
      CommaBalanced(EntryTokens(f, 0), comma, FlowMappingEnd);
      BracketsBalanced(p, FlowMappingStart, EntryTokens(f, 0) + Comma(comma), FlowMappingEnd);
  }

  lemma BracketsBalanced(p: Props, a: Token, ts: seq<Token>, b: Token)
    requires Balanced(ts) && Weight(a) + Weight(b) == 0 && !a.StreamEndToken? && !b.StreamEndToken?
    ensures Balanced(PropTokens(p) + ([a] + (ts + [b])))
  {
    hide PropTokens, Depth;
    PropsBalanced(p);
    DepthConcat(PropTokens(p), [a] + (ts + [b]));
    DepthConcat([a], ts + [b]);
    DepthConcat(ts, [b]);
    DepthOne(a);
    DepthOne(b);
  }

  lemma DepthOne(t: Token)
    ensures Depth([t]) == Weight(t)
  {}

  lemma CommaBalanced(ts: seq<Token>, comma: bool, b: Token)
    requires Balanced(ts)
    ensures Balanced(ts + Comma(comma)) && ts + (Comma(comma) + [b]) == (ts + Comma(comma)) + [b]
  {
    OneBalanced(FlowEntry);
    NoneBalanced();
    BothBalanced(ts, Comma(comma));
  }

  lemma {:induction false} ItemsBalanced(f: Form, i: nat)
    requires (f.BlockSeq? || f.Indentless?) && i <= |f.items|
    ensures Balanced(ItemTokens(f, i))
    decreases f, 1, |f.items| - i
  {
    hide Balanced, Tokens;
    NoneBalanced();
    if i < |f.items| {
      TokensBalanced(f.items[i]);
      ItemsBalanced(f, i + 1);
      OneBalanced(BlockEntry);
      BothBalanced(Tokens(f.items[i]), ItemTokens(f, i + 1));
      BothBalanced([BlockEntry], Tokens(f.items[i]) + ItemTokens(f, i + 1));
    }
  }

  lemma {:induction false} PairBalanced(p: Pair)
    ensures Balanced(TokensOfPair(p))
    decreases p, 0
  {
    hide Balanced, Tokens;
    var vs := if p.value.Some? then [Value] + Tokens(p.value.value) else [];
    NoneBalanced();
    OneBalanced(Value);
    OneBalanced(Key);
    if p.value.Some? {
      TokensBalanced(p.value.value);
      BothBalanced([Value], Tokens(p.value.value));
    }
    TokensBalanced(p.key);
    BothBalanced(Tokens(p.key), vs);
    BothBalanced([Key], Tokens(p.key) + vs);
  }

  lemma {:induction false} PairsBalanced(f: Form, i: nat)
    requires f.BlockMap? && i <= |f.pairs|
    ensures Balanced(PairTokens(f, i))
    decreases f, 1, |f.pairs| - i
  {
    hide Balanced, TokensOfPair;
    NoneBalanced();
    if i < |f.pairs| {
      PairBalanced(f.pairs[i]);
      PairsBalanced(f, i + 1);
      BothBalanced(TokensOfPair(f.pairs[i]), PairTokens(f, i + 1));
    }
  }

  lemma {:induction false} EntriesBalanced(f: Form, i: nat)
    requires (f.FlowSeq? || f.FlowMap?) && i <= |f.entries|
    ensures Balanced(EntryTokens(f, i))
    decreases f, 1, |f.entries| - i
  {
    hide Balanced, Tokens, TokensOfPair;
    NoneBalanced();
    if i < |f.entries| {
      var e := f.entries[i];
      if e.Item? { TokensBalanced(e.node); } else { PairBalanced(e.pair); }
      EntriesBalanced(f, i + 1);
      BothBalanced(TokensOfEntry(e), EntryTokens(f, i + 1));
      OneBalanced(FlowEntry);
      BothBalanced(Comma(i > 0), TokensOfEntry(e) + EntryTokens(f, i + 1));
    }
  }

  lemma {:induction false} DirectivesBalanced(ds: seq<Directive>)
    ensures Balanced(DirectiveTokens(ds))
    decreases |ds|
  {
    hide Balanced;
    NoneBalanced();
    if ds != [] {
      var t := match ds[0] case Version => VersionDirective(1, 1) case TagFor(h, p) => TagDirective(h, p);
      OneBalanced(t);
      DirectivesBalanced(ds[1..]);
      BothBalanced([t], DirectiveTokens(ds[1..]));
    }
  }

  lemma {:induction false} EndsBalanced(n: nat)
    ensures Balanced(EndTokens(n))
    decreases n
  {
    hide Balanced;
    NoneBalanced();
    if n > 0 {
      EndsBalanced(n - 1);
      OneBalanced(DocumentEndToken);
      BothBalanced([DocumentEndToken], EndTokens(n - 1));
    }
  }

  lemma {:induction false} DocsBalanced(ds: seq<DocForm>)
    ensures Balanced(DocsTokens(ds))
    decreases |ds|
  {
    hide Balanced, Tokens, DirectiveTokens, EndTokens;
    NoneBalanced();
    if ds != [] {
      var d := ds[0];
      var mark := if d.explicit then [DocumentStartToken] else [];
      DirectivesBalanced(d.directives);
      OneBalanced(DocumentStartToken);
      TokensBalanced(d.root);
      EndsBalanced(d.ends);
      DocsBalanced(ds[1..]);
      BothBalanced(mark, Tokens(d.root));
      BothBalanced(DirectiveTokens(d.directives), mark + Tokens(d.root));
      BothBalanced(EndTokens(d.ends), DocsTokens(ds[1..]));
      BothBalanced(DocTokens(d), EndTokens(d.ends) + DocsTokens(ds[1..]));
    }
  }

  lemma StreamBalanced(ds: seq<DocForm>)
    ensures StackOk(Start(StreamTokens(ds))) && Missing(Start(StreamTokens(ds))) == 0 && EndsOnce(StreamTokens(ds))
  {
    hide DocsTokens, Depth;
    DocsBalanced(ds);
    DepthConcat([StreamStartToken], DocsTokens(ds) + [StreamEndToken]);
    DepthConcat(DocsTokens(ds), [StreamEndToken]);
    DepthOne(StreamStartToken);
    DepthOne(StreamEndToken);
  }

  // ----- the condition -----

  lemma StreamNeeds(ds: seq<DocForm>, c: Config)
    requires GoodStream(ds) && Feed(Start(StreamTokens(ds)), UnparseStream(Documents(ds))) == Some(c) && c.state.InEnd?
    ensures KeyedStream(ds)
  {
    hide GoodStream, KeyedStream, DocsTokens, UnparseDocs, Missing, StackOk, Feed, EndsOnce;
    var u, es := DocsTokens(ds) + [StreamEndToken], UnparseDocs(Documents(ds)) + [StreamEnd];
    assert UnparseStream(Documents(ds)) == [StreamStart] + es && StreamTokens(ds) == [StreamStartToken] + u;
    NoEnds(u);
    assert StreamTokens(ds)[1..] == u;
    var c0, c1 := Start(StreamTokens(ds)), Config(u, InImplicitDocumentStart, [], []);
    StreamBalanced(ds);
    NoneLeft(c0, [StreamStart] + es);
    FeedFinishes(c0, [StreamStart] + es);
    assert Step(c0) == Emit(StreamStart, c1);
    EmitsOn(Step(c0), StreamStart, es);
    DocsNeed(ds, true, 0, c1);
  }

  /** The parser comes to the end of the presentation with the events of its documents exactly if its
      single pairs have the keys that they need. */
  lemma ReadIff(ds: seq<DocForm>)
    requires GoodStream(ds)
    ensures Ran(StreamTokens(ds), UnparseStream(Documents(ds)), false) <==> KeyedStream(ds)
  {
    hide GoodStream, KeyedStream, Feed, StreamTokens, UnparseStream, Documents;
    if KeyedStream(ds) {
      StreamReads(ds);
      assert Step(Config([], InEnd, [], [])).Error?;
    }
    if Ran(StreamTokens(ds), UnparseStream(Documents(ds)), false) {
      var c :| Feed(Start(StreamTokens(ds)), UnparseStream(Documents(ds))) == Some(c) && c.state.InEnd?;
      StreamNeeds(ds, c);
    }
  }

  /** The same for any run of the parser on the presentation. */
  lemma RunIff(ds: seq<DocForm>, es: seq<Event>, failed: bool)
    requires GoodStream(ds) && Ran(StreamTokens(ds), es, failed)
    ensures !failed && es == UnparseStream(Documents(ds)) <==> KeyedStream(ds)
  {
    hide GoodStream, KeyedStream, Ran, StreamTokens, UnparseStream, Documents;
    ReadIff(ds);
    if KeyedStream(ds) { RunIsStream(ds, es, failed); }
  }

  /** `[? : v]`: the key is empty and the value is not. */
  const EMPTY_KEY :=
    FlowSeq(NO_PROPS, [Single(Pair(EmptyForm(NO_PROPS), Some(ScalarForm(NO_PROPS, "v", true))))], false)

  const NO_PROPS := Props(None, None, false)

  /** The parser takes the value of this pair for an empty one, and fails at the value. */
  lemma EmptyKeyFails()
    ensures var ds := [DocForm(false, [], EMPTY_KEY, 0)];
      && StreamTokens(ds) == [StreamStartToken, FlowSequenceStart, Key, Value, ScalarToken("v", true), FlowSequenceEnd,
                              StreamEndToken]
      && UnparseStream(Documents(ds)) == [StreamStart, DocumentStart, SequenceStart(None, ""), MappingStart(None, ""),
           EMPTY_SCALAR, Scalar(None, "", "v", true, false), MappingEnd, SequenceEnd, DocumentEnd(true), StreamEnd]
      && Ran(StreamTokens(ds), [StreamStart, DocumentStart, SequenceStart(None, ""), MappingStart(None, ""),
           EMPTY_SCALAR, EMPTY_SCALAR, MappingEnd], true)
  {
    EmptyKeyTokens();
    EmptyKeyEvents();
    EmptyKeyRun();
  }

  lemma EmptyKeyTokens()
    ensures StreamTokens([DocForm(false, [], EMPTY_KEY, 0)]) ==
      [StreamStartToken, FlowSequenceStart, Key, Value, ScalarToken("v", true), FlowSequenceEnd, StreamEndToken]
  {
    var f, d := EMPTY_KEY, DocForm(false, [], EMPTY_KEY, 0);
    assert EntryTokens(f, 1) == [];
    assert TokensOfPair(f.entries[0].pair) == [Key, Value, ScalarToken("v", true)];
    assert EntryTokens(f, 0) == [Key, Value, ScalarToken("v", true)];
    assert Tokens(f) == [FlowSequenceStart, Key, Value, ScalarToken("v", true), FlowSequenceEnd];
    assert DocTokens(d) == Tokens(f) && [d][1..] == [] && DocsTokens([]) == [];
    assert DocsTokens([d]) == Tokens(f);
  }

  lemma EmptyKeyEvents()
    ensures UnparseStream(Documents([DocForm(false, [], EMPTY_KEY, 0)])) ==
      [StreamStart, DocumentStart, SequenceStart(None, ""), MappingStart(None, ""),
       EMPTY_SCALAR, Scalar(None, "", "v", true, false), MappingEnd, SequenceEnd, DocumentEnd(true), StreamEnd]
  {
    var f, d := EMPTY_KEY, DocForm(false, [], EMPTY_KEY, 0);
    var dirs := PrefixesOf(d);
    var n := EntryNode(f.entries[0], dirs);
    assert EntryNodes(f, dirs, 1) == [];
    assert EntryNodes(f, dirs, 0) == [n];
    PairUnparse(f.entries[0].pair, dirs);
    assert Unparse(n) == [MappingStart(None, ""), EMPTY_SCALAR, Scalar(None, "", "v", true, false), MappingEnd];
    UnparseOne(n);
    UnparseSequence(SequenceStart(None, ""), [n]);
    assert [d][1..] == [] && Documents([]) == [] && Documents([d])[1..] == [];
    assert UnparseDocs([]) == [];
    assert UnparseDocs(Documents([d])) == [DocumentStart] + (Unparse(TreeOf(f, dirs)) + ([DocumentEnd(true)] + []));
  }

  lemma EmptyKeyRun()
    ensures Ran([StreamStartToken, FlowSequenceStart, Key, Value, ScalarToken("v", true), FlowSequenceEnd,
        StreamEndToken],
                [StreamStart, DocumentStart, SequenceStart(None, ""), MappingStart(None, ""), EMPTY_SCALAR,
                    EMPTY_SCALAR,
                 MappingEnd], true)
  {
    hide Feed, Step;
    var t := [StreamStartToken, FlowSequenceStart, Key, Value, ScalarToken("v", true), FlowSequenceEnd, StreamEndToken];
    var c, c1 := Start(t), Config(t[1..], InImplicitDocumentStart, [], []);
    var c2 := Config(t[1..], InBlockNode, [InDocumentEnd], WithDefaults([]));
    EmptyKeyStarts(t, c, c1, c2);
    var c3, c4 := c2.(state := InFlowSequenceFirstEntry), c2.(tokens := t[3..], state := InFlowSequenceEntryMappingKey);
    EmptyKeyOpens(t, c2, c3, c4);
    var c5 := c4.(tokens := t[4..], state := InFlowSequenceEntryMappingValue);
    var c6, c7 := c5.(state := InFlowSequenceEntryMappingEnd), c5.(state := InFlowSequenceEntry);
    EmptyKeyEnds(t, c4, c5, c6, c7);
    SevenSteps(StreamStart, DocumentStart, SequenceStart(None, ""), MappingStart(None, ""), EMPTY_SCALAR, EMPTY_SCALAR,
        MappingEnd, c, c1, c2, c3, c4, c5, c6, c7);
  }

  lemma EmptyKeyStarts(t: seq<Token>, c: Config, c1: Config, c2: Config)
    requires |t| > 1 && t[0] == StreamStartToken && t[1] == FlowSequenceStart
    requires c == Start(t) && c1 == Config(t[1..], InImplicitDocumentStart, [], [])
    requires c2 == Config(t[1..], InBlockNode, [InDocumentEnd], WithDefaults([]))
    ensures Step(c) == Emit(StreamStart, c1) && Step(c1) == Emit(DocumentStart, c2)
  {
    assert [] + [InDocumentEnd] == [InDocumentEnd];
  }

  lemma EmptyKeyOpens(t: seq<Token>, c2: Config, c3: Config, c4: Config)
    requires |t| > 3 && t[1] == FlowSequenceStart && t[2] == Key && c2.tokens == t[1..] && c2.state == InBlockNode
    requires c3 == c2.(state := InFlowSequenceFirstEntry)
    requires c4 == c2.(tokens := t[3..], state := InFlowSequenceEntryMappingKey)
    ensures Step(c2) == Emit(SequenceStart(None, ""), c3) && Step(c3) == Emit(MappingStart(None, ""), c4)
  {
    assert t[1..][1..] == t[2..] && t[2..][1..] == t[3..];
  }

  lemma EmptyKeyEnds(t: seq<Token>, c4: Config, c5: Config, c6: Config, c7: Config)
    requires |t| > 4 && t[3] == Value && t[4].ScalarToken? && c4.tokens == t[3..]
        && c4.state == InFlowSequenceEntryMappingKey
    requires c5 == c4.(tokens := t[4..], state := InFlowSequenceEntryMappingValue)
    requires c6 == c5.(state := InFlowSequenceEntryMappingEnd) && c7 == c5.(state := InFlowSequenceEntry)
    ensures Step(c4) == Emit(EMPTY_SCALAR, c5) && Step(c5) == Emit(EMPTY_SCALAR, c6)
    ensures Step(c6) == Emit(MappingEnd, c7) && Step(c7) == Error
  {
    assert t[3..][1..] == t[4..];
  }

  lemma OneMore(c: Config, e: Event, c1: Config, es: seq<Event>, d: Config)
    requires Step(c) == Emit(e, c1) && Feed(c1, es) == Some(d)
    ensures Feed(c, [e] + es) == Some(d)
  {
    assert ([e] + es)[1..] == es;
  }

  lemma SevenSteps(e0: Event, e1: Event, e2: Event, e3: Event, e4: Event, e5: Event, e6: Event, c: Config, c1: Config,
      c2: Config, c3: Config, c4: Config, c5: Config, c6: Config, c7: Config)
    requires Step(c) == Emit(e0, c1) && Step(c1) == Emit(e1, c2) && Step(c2) == Emit(e2, c3) && Step(c3) == Emit(e3, c4)
    requires Step(c4) == Emit(e4, c5) && Step(c5) == Emit(e5, c6) && Step(c6) == Emit(e6, c7)
    ensures Feed(c, [e0, e1, e2, e3, e4, e5, e6]) == Some(c7)
  {
    hide Step, Feed;
    assert [e0] + [e1, e2, e3, e4, e5, e6] == [e0, e1, e2, e3, e4, e5, e6];
    assert [e1] + [e2, e3, e4, e5, e6] == [e1, e2, e3, e4, e5, e6];
    assert [e2] + [e3, e4, e5, e6] == [e2, e3, e4, e5, e6];
    assert [e3] + [e4, e5, e6] == [e3, e4, e5, e6];
    assert [e4] + [e5, e6] == [e4, e5, e6];
    assert [e5] + [e6] == [e5, e6];
    assert [e6] + [] == [e6];
    FeedNothing(c7);
    OneMore(c6, e6, c7, [], c7);
    OneMore(c5, e5, c6, [e6], c7);
    OneMore(c4, e4, c5, [e5, e6], c7);
    OneMore(c3, e3, c4, [e4, e5, e6], c7);
    OneMore(c2, e2, c3, [e3, e4, e5, e6], c7);
    OneMore(c1, e1, c2, [e2, e3, e4, e5, e6], c7);
    OneMore(c, e0, c1, [e1, e2, e3, e4, e5, e6], c7);
  }

  lemma FeedNothing(c: Config)
    ensures Feed(c, []) == Some(c)
  {}
}
