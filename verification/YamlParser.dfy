/** The parser of yaml.v2: a state machine with a stack of states that turns tokens into events. */
module YamlParser {
  import opened Options
  import opened YamlEvents
  import opened YamlSteps

  // ----- what the states stand for -----

  /** What has still to come where the parser is in a state. */
  function Frames(s: State): Stack {
    match s
    case InStreamStart => [ToStart]
    case InImplicitDocumentStart => [Docs]
    case InDocumentStart => [Docs]
    case InDocumentEnd => [Docs, ToEndDoc]
    case InDocumentContent => [ToNode]
    case InBlockNode => [ToNode]
    case InBlockNodeOrIndentlessSequence => [ToNode]
    case InFlowNode => [ToNode]
    case InBlockSequenceFirstEntry => [InSequence]
    case InBlockSequenceEntry => [InSequence]
    case InIndentlessSequenceEntry => [InSequence]
    case InBlockMappingFirstKey => [InMapping]
    case InBlockMappingKey => [InMapping]
    case InBlockMappingValue => [InMapping, ToNode]
    case InFlowSequenceFirstEntry => [InSequence]
    case InFlowSequenceEntry => [InSequence]
    case InFlowSequenceEntryMappingKey => [InSequence, InMapping]
    case InFlowSequenceEntryMappingValue => [InSequence, InMapping, ToNode]
    case InFlowSequenceEntryMappingEnd => [InSequence, InMapping]
    case InFlowMappingFirstKey => [InMapping]
    case InFlowMappingKey => [InMapping]
    case InFlowMappingValue => [InMapping, ToNode]
    case InFlowMappingEmptyValue => [InMapping, ToNode]
    case InEnd => []
  }

  function Base(states: seq<State>): Stack {
    if states == [] then [] else Base(states[..|states| - 1]) + Frames(states[|states| - 1])
  }

  /** How many marks a state has put on the stack of marks. */
  function MarksOf(s: State): nat {
    match s
    case InBlockSequenceEntry => 1
    case InBlockMappingKey => 1
    case InBlockMappingValue => 1
    case InFlowSequenceEntry => 1
    case InFlowSequenceEntryMappingKey => 1
    case InFlowSequenceEntryMappingValue => 1
    case InFlowSequenceEntryMappingEnd => 1
    case InFlowMappingKey => 1
    case InFlowMappingValue => 1
    case InFlowMappingEmptyValue => 1
    case _ => 0
  }

  function Marks(states: seq<State>): nat {
    if states == [] then 0 else Marks(states[..|states| - 1]) + MarksOf(states[|states| - 1])
  }

  /** Events that can be emitted without a token being taken. */
  function Weight(s: State): nat {
    match s
    case InEnd => 0
    case InDocumentEnd => 2
    case InImplicitDocumentStart => 5
    case InDocumentContent => 2
    case InBlockNode => 2
    case InBlockNodeOrIndentlessSequence => 2
    case InFlowNode => 2
    case InBlockMappingValue => 2
    case InFlowSequenceEntryMappingKey => 5
    case InFlowSequenceEntryMappingValue => 3
    case InFlowSequenceEntryMappingEnd => 2
    case InFlowMappingValue => 2
    case InFlowMappingEmptyValue => 2
    case InStreamStart => 6
    case _ => 1
  }

  function Weights(states: seq<State>): nat {
    if states == [] then 0 else Weights(states[..|states| - 1]) + Weight(states[|states| - 1])
  }

  lemma Pushed(states: seq<State>, s: State)
    ensures Base(states + [s]) == Base(states) + Frames(s)
    ensures Marks(states + [s]) == Marks(states) + MarksOf(s)
    ensures Weights(states + [s]) == Weights(states) + Weight(s)
  {
    assert (states + [s])[..|states + [s]| - 1] == states;
  }

  lemma NoStates()
    ensures Base([]) == [] && Marks([]) == 0 && Weights([]) == 0
    ensures Base([InDocumentEnd]) == [Docs, ToEndDoc] && Marks([InDocumentEnd]) == 0 && Weights([InDocumentEnd]) == 2
    ensures forall x: Stack :: Base([]) + x == x
  {
    Pushed([], InDocumentEnd);
    assert [] + [InDocumentEnd] == [InDocumentEnd];
  }

  /** The events around a document. */
  lemma DocumentEvents(b: bool)
    ensures Accept([ToStart], StreamStart) == Some([Docs])
    ensures Accept([Docs], DocumentStart) == Some([Docs, ToEndDoc] + [ToNode])
    ensures Accept([Docs], StreamEnd) == Some([])
    ensures Accept([Docs, ToEndDoc], DocumentEnd(b)) == Some([Docs])
  {
    assert [Docs] + [ToEndDoc, ToNode] == [Docs, ToEndDoc] + [ToNode];
    assert Pop([ToStart]) + [Docs] == [Docs] && Pop([Docs]) == [] && Pop([Docs, ToEndDoc]) == [Docs];
  }

  /** The events of nodes and collections. */
  lemma NodeEvents(st: Stack, e: Event)
    ensures Accept(st + [ToNode], e) == AcceptNode(st, e)
    ensures Accept(st + [InSequence], e) == if e.SequenceEnd? then Some(st) else AcceptNode(st + [InSequence], e)
    ensures Accept(st + [InMapping], e) == if e.MappingEnd? then Some(st)
        else AcceptNode(st + [InMapping] + [ToNode], e)
  {
    assert Pop(st + [ToNode]) == st && Pop(st + [InSequence]) == st && Pop(st + [InMapping]) == st;
  }

  lemma Popped(states: seq<State>)
    requires StatesOk(states)
    ensures var n := |states| - 1;
            && Base(states) == Base(states[..n]) + Frames(states[n])
            && Marks(states) == Marks(states[..n]) + MarksOf(states[n])
            && Weights(states) == Weights(states[..n]) + Weight(states[n])
            && (if n == 0 then states[n] == InDocumentEnd && states[..n] == []
                else IsInner(states[n]) && StatesOk(states[..n]))
  {}

  /** The first state of a collection is entered with its start token at hand. */
  predicate StartAtHand(s: State, tokens: seq<Token>) {
    && (s.InBlockSequenceFirstEntry? ==> tokens != [] && tokens[0].BlockSequenceStart?)
    && (s.InBlockMappingFirstKey? ==> tokens != [] && tokens[0].BlockMappingStart?)
    && (s.InFlowSequenceFirstEntry? ==> tokens != [] && tokens[0].FlowSequenceStart?)
    && (s.InFlowMappingFirstKey? ==> tokens != [] && tokens[0].FlowMappingStart?)
  }

  const TOKEN_WEIGHT := 20

  class Parser {
    var tokens: seq<Token>
    var tokensParsed: nat
    var state: State
    var states: seq<State>
    var marks: seq<nat>
    var tagDirectives: seq<(string, string)>
    var error: bool
    var streamEndProduced: bool

    constructor (tokens: seq<Token>)
      ensures this.tokens == tokens && Inv() && !error && Stack() == [ToStart]
      ensures Cfg() == Config(tokens, InStreamStart, [], [])
    {
      this.tokens, tokensParsed := tokens, 0;
      state, states, marks, tagDirectives, error, streamEndProduced := InStreamStart, [], [], [], false, false;
    }

    ghost predicate Inv()
      reads this
    {
      && (if IsTop(state) then states == [] else StatesOk(states))
      && |marks| == Marks(states) + MarksOf(state)
      && StartAtHand(state, tokens)
      && (streamEndProduced ==> state.InEnd?)
    }

    ghost function Stack(): Stack
      reads this
    {
      Base(states) + Frames(state)
    }

    ghost function Potential(): nat
      reads this
    {
      TOKEN_WEIGHT * |tokens| + Weights(states) + Weight(state)
    }

    /** What the functions of YamlSteps speak of. */
    ghost function Cfg(): Config
      reads `tokens, `state, `states, `tagDirectives
    {
      Config(tokens, state, states, tagDirectives)
    }

    /** What was done is what the move says. */
    ghost predicate Took(m: Move, ok: bool, e: Option<Event>)
      reads `tokens, `state, `states, `tagDirectives
    {
      if ok then e.Some? && m == Emit(e.value, Cfg()) else m.Error?
    }

    /** A production has ended well: the event is one that had to come, and what has to come after
        it is what the new state stands for. */
    twostate predicate Moved(new e: Option<Event>)
      reads this
    {
      && !error && Inv() && e.Some? && Accept(old(Stack()), e.value) == Some(Stack())
      && Potential() < old(Potential()) && (state.InEnd? ==> e == Some(StreamEnd))
    }

    // ----- tokens -----

    /** The next token, if the scanner can deliver one. */
    method Peek() returns (t: Option<Token>)
      modifies `error
      ensures tokens == [] ==> t.None? && error
      ensures tokens != [] ==> t == Some(tokens[0]) && error == old(error)
    {
      if tokens == [] {
        error := true;
        return None;
      }
      return Some(tokens[0]);
    }

    method Skip()
      requires tokens != []
      modifies `tokens, `tokensParsed, `streamEndProduced
      ensures tokens == old(tokens)[1..] && streamEndProduced == old(tokens)[0].StreamEndToken?
    {
      tokensParsed := tokensParsed + 1;
      streamEndProduced := tokens[0].StreamEndToken?;
      tokens := tokens[1..];
    }

    method Fail() returns (ok: bool)
      modifies `error
      ensures error && !ok
    {
      error := true;
      ok := false;
    }

    method PopState()
      requires states != []
      modifies `state, `states
      ensures state == old(states)[|old(states)| - 1] && states == old(states)[..|old(states)| - 1]
    {
      state := states[|states| - 1];
      states := states[..|states| - 1];
    }

    // ----- nodes -----

    /** What a node production needs: the states stand for what follows the node. */
    ghost predicate BeforeNode()
      reads this
    {
      !error && StatesOk(states) && |marks| == Marks(states) && !streamEndProduced
    }

    /** A node production has ended well: the event starts, or is, a node. */
    twostate predicate NodeMoved(new e: Option<Event>)
      reads this
    {
      && !error && Inv() && e.Some? && AcceptNode(old(Base(states)), e.value) == Some(Stack())
      && Potential() <= old(TOKEN_WEIGHT * |tokens| + Weights(states)) + 1 && !state.InEnd?
    }

    /** Nothing but tokens has been used up. */
    twostate predicate OnlyTokens()
      reads this
    {
      && state == old(state) && states == old(states) && marks == old(marks)
      && tagDirectives == old(tagDirectives) && |tokens| <= |old(tokens)|
      && (|tokens| == |old(tokens)| ==> tokens == old(tokens))
    }

    /** The anchor and the tag in front of a node, in either order. */
    method Properties() returns (ok: bool, anchor: Option<string>, tag: Option<(string, string)>)
      requires BeforeNode() && tokens != []
      modifies `tokens, `tokensParsed, `streamEndProduced, `error
      ensures !ok ==> error
      ensures ok ==> BeforeNode() && tokens != [] && OnlyTokens()
      ensures ok && (anchor.Some? || tag.Some?) ==> |tokens| < |old(tokens)|
      ensures PropertiesAt(old(Cfg())) == if ok then YamlSteps.Properties.Properties(anchor, tag, Cfg())
          else NoProperties
    {
      anchor, tag := None, None;
      var token := tokens[0];
      if token.Anchor? {
        anchor := Some(token.name);
        Skip();
        var t := Peek();
        if t.None? { return false, anchor, tag; }
        if t.value.Tag? {
          tag := Some((t.value.handle, t.value.suffix));
          Skip();
          t := Peek();
          if t.None? { return false, anchor, tag; }
        }
      } else if token.Tag? {
        tag := Some((token.handle, token.suffix));
        Skip();
        var t := Peek();
        if t.None? { return false, anchor, tag; }
        if t.value.Anchor? {
          anchor := Some(t.value.name);
          Skip();
          t := Peek();
          if t.None? { return false, anchor, tag; }
        }
      }
      ok := true;
    }

    /** The tag with its handle replaced by the prefix that is declared for it. */
    method ResolveTag(tag: Option<(string, string)>) returns (ok: bool, full: string)
      modifies `error
      ensures if ok then error == old(error) else error
      ensures TagText(tagDirectives, tag) == if ok then Some(full) else None
      ensures tag.None? ==> ok && full == ""
      ensures tag.Some? && tag.value.0 == "" ==> ok && full == tag.value.1
      ensures ok && tag.Some? && tag.value.0 != "" ==>
                full != "" && exists i :: 0 <= i < |tagDirectives| && tagDirectives[i].0 == tag.value.0
                                          && full == tagDirectives[i].1 + tag.value.1
    {
      full := "";
      if tag.None? { return true, ""; }
      var (handle, suffix) := tag.value;
      if handle == "" { return true, suffix; }
      for i := 0 to |tagDirectives|
        invariant error == old(error)
        invariant full == "" && PrefixFor(tagDirectives, handle) == PrefixFor(tagDirectives[i..], handle)
      {
        assert tagDirectives[i..][1..] == tagDirectives[i + 1..];
        if tagDirectives[i].0 == handle {
          full := tagDirectives[i].1 + suffix;
          if full == "" { break; }
          return true, full;
        }
      }
      ok := Fail();
    }

    /** The collection whose start token is at hand begins. */
    method StartCollection(first: State, e: Event) returns (r: Option<Event>)
      requires BeforeNode() && StartAtHand(first, tokens) && MarksOf(first) == 0 && Weight(first) == 1
      requires !IsTop(first)
      requires (e.SequenceStart? && Frames(first) == [InSequence]) || (e.MappingStart? && Frames(first) == [InMapping])
      modifies `state
      ensures NodeMoved(r) && r == Some(e) && Cfg() == old(Cfg()).(state := first)
    {
      state := first;
      r := Some(e);
    }

    /** The node ends with this event. */
    method EndNode(e: Event) returns (r: Option<Event>)
      requires BeforeNode() && (e.Scalar? || e.Alias?)
      modifies `state, `states
      ensures !error && Inv() && r == Some(e) && Stack() == old(Base(states)) && Cfg() == Back(old(Cfg()))
      ensures IsInner(state) || state.InDocumentEnd?
      ensures TOKEN_WEIGHT * |tokens| + Weights(states) + Weight(state) == TOKEN_WEIGHT * |tokens|
          + old(Weights(states))
    {
      PopState();
      r := Some(e);
    }

    /** The node is a scalar; `skip` if it has a token. */
    method EndScalar(e: Event, skip: bool) returns (r: Option<Event>)
      requires BeforeNode() && e.Scalar? && (skip ==> tokens != [] && tokens[0].ScalarToken?)
      modifies `tokens, `tokensParsed, `streamEndProduced, `state, `states
      ensures NodeMoved(r) && r == Some(e)
      ensures Cfg() == if skip then Next(Back(old(Cfg()))) else Back(old(Cfg()))
    {
      hide Base, Marks, Weights, Back;
      r := EndNode(e);
      if skip { Skip(); }
    }

    method ParseNode(block: bool, indentlessSequence: bool) returns (ok: bool, e: Option<Event>)
      requires BeforeNode()
      modifies `tokens, `tokensParsed, `streamEndProduced, `error, `state, `states
      ensures !ok ==> error && e.None?
      ensures ok ==> old(tokens) != []
      ensures ok ==> NodeMoved(e)
      ensures Took(NodeAt(old(Cfg()), block, indentlessSequence), ok, e)
    {
      hide Base, Marks, Weights, ContentAt;
      e := None;
      var t := Peek();
      if t.None? { return false, e; }
      if t.value.AliasToken? {
        e := EndNode(Alias(t.value.name));
        Skip();
        return true, e;
      }
      var anchor, tagToken;
      ok, anchor, tagToken := Properties();
      if !ok { return; }
      var tag;
      ok, tag := ResolveTag(tagToken);
      if !ok { return; }
      ok, e := ParseContent(block, indentlessSequence, anchor, tag);
    }

    /** The content of a node after its properties. */
    method ParseContent(block: bool, indentlessSequence: bool, anchor: Option<string>, tag: string)
        returns (ok: bool, e: Option<Event>)
      requires BeforeNode() && tokens != []
      modifies `tokens, `tokensParsed, `streamEndProduced, `error, `state, `states
      ensures !ok ==> error && e.None?
      ensures ok ==> old(tokens) != []
      ensures ok ==> NodeMoved(e)
      ensures Took(ContentAt(old(Cfg()), block, indentlessSequence, anchor, tag), ok, e)
    {
      hide Base, Marks, Weights, Back, NodeMoved;
      ok, e := true, None;
      var token := tokens[0];
      if indentlessSequence && token.BlockEntry? {
        e := StartCollection(InIndentlessSequenceEntry, SequenceStart(anchor, tag));
      } else if token.ScalarToken? {
        var plainImplicit := (tag == "" && token.plain) || tag == "!";
        e := EndScalar(Scalar(anchor, tag, token.text, plainImplicit, !plainImplicit && tag == ""), true);
      } else if token.FlowSequenceStart? {
        e := StartCollection(InFlowSequenceFirstEntry, SequenceStart(anchor, tag));
      } else if token.FlowMappingStart? {
        e := StartCollection(InFlowMappingFirstKey, MappingStart(anchor, tag));
      } else if block && token.BlockSequenceStart? {
        e := StartCollection(InBlockSequenceFirstEntry, SequenceStart(anchor, tag));
      } else if block && token.BlockMappingStart? {
        e := StartCollection(InBlockMappingFirstKey, MappingStart(anchor, tag));
      } else if (anchor.Some? && anchor.value != "") || tag != "" {
        e := EndScalar(Scalar(anchor, tag, "", tag == "", false), false);
      } else {
        ok := Fail();
      }
    }

    // ----- the stream and its documents -----

    /** A state of the machine, with no error so far. */
    ghost predicate Ready()
      reads this
    {
      !error && Inv() && !streamEndProduced
    }

    method ParseStreamStart() returns (ok: bool, e: Option<Event>)
      requires Ready() && state.InStreamStart?
      modifies this
      ensures !ok ==> error && e.None?
      ensures ok <==> old(tokens) != [] && old(tokens)[0].StreamStartToken?
      ensures ok ==> tokens == old(tokens)[1..]
      ensures ok ==> Moved(e)
      ensures Took(StreamStartAt(old(Cfg())), ok, e)
    {
      NoStates();
      DocumentEvents(true);
      hide Accept, Base, Marks, Weights;
      e := None;
      var t := Peek();
      if t.None? { return false, e; }
      if !t.value.StreamStartToken? {
        ok := Fail();
        return;
      }
      assert Stack() == [ToStart];
      state := InImplicitDocumentStart;
      e := Some(StreamStart);
      Skip();
      assert Stack() == [Docs];
      ok := true;
    }

    method AppendTagDirective(value: (string, string), allowDuplicates: bool) returns (ok: bool)
      requires !error
      modifies `tagDirectives, `error
      ensures ok == !error
      ensures ok <==> allowDuplicates || PrefixFor(old(tagDirectives), value.0).None?
      ensures ok ==> tagDirectives == Declare(old(tagDirectives), value)
    {
      for i := 0 to |tagDirectives|
        invariant !error && PrefixFor(tagDirectives, value.0) == PrefixFor(tagDirectives[i..], value.0)
      {
        assert tagDirectives[i..][1..] == tagDirectives[i + 1..];
        if tagDirectives[i].0 == value.0 {
          if allowDuplicates { return true; }
          ok := Fail();
          return;
        }
      }
      tagDirectives := tagDirectives + [value];
      ok := true;
    }

    /** The directives before a document. */
    method ProcessDirectives() returns (ok: bool)
      requires !error && !streamEndProduced
      modifies `tokens, `tokensParsed, `streamEndProduced, `tagDirectives, `error
      ensures ok == !error
      ensures ok ==> tokens != [] && |tokens| <= |old(tokens)| && !streamEndProduced
      ensures ok && (old(tokens) != [] && !old(tokens)[0].VersionDirective? && !old(tokens)[0].TagDirective?) ==>
          tokens == old(tokens)
      ensures if ok then DirectivesAt(old(Cfg()), false) == Some(Cfg()) else DirectivesAt(old(Cfg()), false) == None
    {
      var version := false;
      var t := Peek();
      if t.None? { return false; }
      while t.value.VersionDirective? || t.value.TagDirective?
        invariant !error && !streamEndProduced && tokens != [] && t == Some(tokens[0])
        invariant |tokens| < |old(tokens)| || tokens == old(tokens)
        invariant old(tokens) != []
        invariant |tokens| < |old(tokens)| ==> old(tokens)[0].VersionDirective? || old(tokens)[0].TagDirective?
        invariant DirectivesAt(Cfg(), version) == DirectivesAt(old(Cfg()), false)
        decreases |tokens|
      {
        if t.value.VersionDirective? {
          if version || t.value.major != 1 || t.value.minor != 1 {
            ok := Fail();
            return;
          }
          version := true;
        } else {
          ok := AppendTagDirective((t.value.handle, t.value.prefix), false);
          if !ok { return; }
        }
        Skip();
        t := Peek();
        if t.None? { return false; }
      }
      ok := AppendTagDirective(("!", "!"), true);
      if !ok { return; }
      ok := AppendTagDirective(("!!", "tag:yaml.org,2002:"), true);
    }

    /** What follows is the node of a document. */
    method BeginDocument(s: State)
      requires !error && !streamEndProduced && states == [] && |marks| == 0 && (s.InBlockNode? || s.InDocumentContent?)
      modifies `state, `states
      ensures !error && Inv() && Accept([Docs], DocumentStart) == Some(Stack())
      ensures Potential() == TOKEN_WEIGHT * |tokens| + 4 && state == s
      ensures Cfg() == old(Cfg()).(state := s, states := old(states) + [InDocumentEnd])
    {
      hide Accept, Base, Marks, Weights;
      NoStates();
      DocumentEvents(true);
      states := states + [InDocumentEnd];
      assert states == [InDocumentEnd];
      state := s;
    }

    /** A document without a mark at its start. */
    method OpenImplicit() returns (ok: bool, e: Option<Event>)
      requires !error && !streamEndProduced && states == [] && |marks| == 0
      modifies this
      ensures !ok ==> error && e.None?
      ensures ok ==> BetweenDocuments(e)
      ensures Took(ImplicitAt(old(Cfg())), ok, e)
    {
      hide Accept, Base, Marks, Weights, DirectivesAt, WithDefaults;
      ok := ProcessDirectives();
      if !ok { return false, None; }
      BeginDocument(InBlockNode);
      e := Some(DocumentStart);
    }

    /** A document with directives and a mark. */
    method OpenExplicit() returns (ok: bool, e: Option<Event>)
      requires !error && !streamEndProduced && states == [] && |marks| == 0
      modifies this
      ensures !ok ==> error && e.None?
      ensures ok ==> BetweenDocuments(e) && Potential() < old(TOKEN_WEIGHT * |tokens|)
      ensures Took(ExplicitAt(old(Cfg())), ok, e)
    {
      hide Accept, Base, Marks, Weights, DirectivesAt, WithDefaults;
      ok := ProcessDirectives();
      if !ok { return false, None; }
      var t := Peek();
      if !t.value.DocumentStartToken? {
        ok := Fail();
        return ok, None;
      }
      BeginDocument(InDocumentContent);
      e := Some(DocumentStart);
      Skip();
    }

    /** A step from between two documents has ended well. */
    twostate predicate BetweenDocuments(new e: Option<Event>)
      reads this
    {
      && !error && Inv() && e.Some? && Accept([Docs], e.value) == Some(Stack())
      && Potential() < old(TOKEN_WEIGHT * |tokens|) + 5 && (state.InEnd? ==> e == Some(StreamEnd))
    }

    method ParseDocumentStart(implicit: bool) returns (ok: bool, e: Option<Event>)
      requires Ready() && (if implicit then state.InImplicitDocumentStart? else state.InDocumentStart?)
      modifies this
      ensures !ok ==> error && e.None?
      ensures ok ==> old(tokens) != []
      ensures ok ==> Moved(e)
      ensures Took(DocumentStartAt(old(Cfg()), implicit), ok, e)
    {
      NoStates();
      hide Accept, Base, Marks, Weights, ImplicitAt, ExplicitAt, AfterEnds;
      e := None;
      if !implicit {
        ok := SkipDocumentEnds();
        if !ok { return; }
      }
      var t := Peek();
      if t.None? { return false, e; }
      if implicit && !t.value.VersionDirective? && !t.value.TagDirective? && !t.value.DocumentStartToken?
          && !t.value.StreamEndToken? {
        ok, e := OpenImplicit();
      } else if !t.value.StreamEndToken? {
        ok, e := OpenExplicit();
      } else {
        DocumentEvents(true);
        state := InEnd;
        e := Some(StreamEnd);
        Skip();
        ok := true;
      }
    }

    /** Extra marks for the end of a document are passed over. */
    method SkipDocumentEnds() returns (ok: bool)
      requires Ready() && state.InDocumentStart?
      modifies `tokens, `tokensParsed, `streamEndProduced, `error
      ensures ok == !error
      ensures ok ==> Ready() && tokens != [] && |tokens| <= |old(tokens)|
      ensures ok ==> Cfg() == AfterEnds(old(Cfg()))
      ensures ok <==> AfterEnds(old(Cfg())).tokens != []
    {
      hide Marks;
      var t := Peek();
      if t.None? { return false; }
      while t.value.DocumentEndToken?
        invariant Ready() && |tokens| <= |old(tokens)| && tokens != [] && t == Some(tokens[0])
        invariant AfterEnds(Cfg()) == AfterEnds(old(Cfg()))
        decreases |tokens|
      {
        Skip();
        t := Peek();
        if t.None? { return false; }
      }
      ok := true;
    }

    method ParseDocumentContent() returns (ok: bool, e: Option<Event>)
      requires Ready() && state.InDocumentContent?
      modifies this
      ensures !ok ==> error && e.None?
      ensures ok ==> old(tokens) != []
      ensures ok ==> Moved(e)
      ensures Took(DocumentContentAt(old(Cfg())), ok, e)
    {
      hide Accept, Base, Marks, Weights, NodeAt;
      e := None;
      var t := Peek();
      if t.None? { return false, e; }
      if t.value.VersionDirective? || t.value.TagDirective? || t.value.DocumentStartToken?
         || t.value.DocumentEndToken? || t.value.StreamEndToken? {
        NodeEvents(Base(states), EMPTY_SCALAR);
        Popped(states);
        PopState();
        return true, Some(EMPTY_SCALAR);
      }
      ok, e := ParseNode(true, false);
      if ok { NodeEvents(old(Base(states)), e.value); }
    }

    method ParseDocumentEnd() returns (ok: bool, e: Option<Event>)
      requires Ready() && state.InDocumentEnd?
      modifies this
      ensures !ok ==> error && e.None?
      ensures ok ==> old(tokens) != []
      ensures ok ==> Moved(e)
      ensures Took(DocumentEndAt(old(Cfg())), ok, e)
    {
      NoStates();
      DocumentEvents(false);
      DocumentEvents(true);
      hide Accept, Base, Marks, Weights;
      e := None;
      var t := Peek();
      if t.None? { return false, e; }
      var implicit := true;
      if t.value.DocumentEndToken? {
        Skip();
        implicit := false;
      }
      tagDirectives := [];
      state := InDocumentStart;
      return true, Some(DocumentEnd(implicit));
    }

    // ----- what productions of collections share -----

    /** A node follows, and after it the parser is in state `next`. */
    method NodeThen(next: State, block: bool, indentlessSequence: bool) returns (ok: bool, e: Option<Event>)
      requires !error && !streamEndProduced && StatesOk(states) && IsInner(next)
          && |marks| == Marks(states) + MarksOf(next)
      modifies `tokens, `tokensParsed, `streamEndProduced, `error, `state, `states
      ensures !ok ==> error && e.None?
      ensures ok ==>
                && !error && Inv() && e.Some? && AcceptNode(old(Base(states)) + Frames(next), e.value) == Some(Stack())
                && Potential() <= old(TOKEN_WEIGHT * |tokens| + Weights(states)) + Weight(next) + 1 && !state.InEnd?
      ensures Took(NodeBefore(old(Cfg()), next, block, indentlessSequence), ok, e)
    {
      hide NodeAt;
      Pushed(states, next);
      states := states + [next];
      ok, e := ParseNode(block, indentlessSequence);
    }

    /** An empty node, and then the parser is in state `next`. */
    method EmptyThen(next: State) returns (e: Option<Event>)
      requires !error && !streamEndProduced && StatesOk(states) && IsInner(next)
          && |marks| == Marks(states) + MarksOf(next)
      modifies `state
      ensures !error && Inv() && e == Some(EMPTY_SCALAR) && Stack() == Base(states) + Frames(next) && state == next
      ensures Potential() == TOKEN_WEIGHT * |tokens| + Weights(states) + Weight(next)
      ensures EmptyBefore(old(Cfg()), next) == Emit(e.value, Cfg())
    {
      state := next;
      e := Some(EMPTY_SCALAR);
    }

    /** A collection ends; the parser goes on with the state below it. */
    method EndCollection(marked: bool)
      requires !error && !streamEndProduced && StatesOk(states) && |marks| == Marks(states) + if marked then 1 else 0
      modifies `state, `states, `marks
      ensures !error && Inv() && !streamEndProduced && Stack() == old(Base(states))
      ensures Potential() == TOKEN_WEIGHT * |tokens| + old(Weights(states))
      ensures IsInner(state) || state.InDocumentEnd?
      ensures Cfg() == Back(old(Cfg()))
    {
      Popped(states);
      PopState();
      if marked { marks := marks[..|marks| - 1]; }
    }

    /** The start token of a collection is passed over and its place is remembered. */
    method Enter() returns (t: Option<Token>)
      requires !error && !streamEndProduced && tokens != [] && !tokens[0].StreamEndToken?
      modifies `tokens, `tokensParsed, `streamEndProduced, `error, `marks
      ensures tokens == old(tokens)[1..] && !error && !streamEndProduced
      ensures |marks| == |old(marks)| + 1
    {
      t := Peek();
      marks := marks + [tokensParsed];
      Skip();
    }

    /** An error in a collection: its mark tells where it began. */
    method FailInCollection() returns (ok: bool)
      requires marks != []
      modifies `marks, `error
      ensures error && !ok
    {
      marks := marks[..|marks| - 1];
      error := true;
      ok := false;
    }

    // ----- sequences and mappings -----

    /** The node of an entry of a block sequence, at its indicator. */
    method BlockEntryNode() returns (ok: bool, e: Option<Event>)
      requires !error && !streamEndProduced && StatesOk(states)
          && |marks| == Marks(states) + MarksOf(InBlockSequenceEntry)
      requires tokens != [] && tokens[0].BlockEntry?
      modifies this
      ensures !ok ==> error && e.None?
      ensures ok ==>
                && !error && Inv() && e.Some? && Accept(old(Base(states)) + [InSequence], e.value) == Some(Stack())
                && Potential() < old(TOKEN_WEIGHT * |tokens| + Weights(states)) && !state.InEnd?
      ensures Took(BlockSequenceAt(old(Cfg())), ok, e)
    {
      hide Accept, AcceptNode, Base, Marks, Weights, NodeBefore, EmptyBefore, Back;
      e := None;
      ghost var below := Base(states);
      Skip();
      var t := Peek();
      if t.None? { return false, e; }
      if !t.value.BlockEntry? && !t.value.BlockEnd? {
        ok, e := NodeThen(InBlockSequenceEntry, true, false);
      } else {
        e := EmptyThen(InBlockSequenceEntry);
        ok := true;
      }
      if ok { NodeAccepted(below, e.value); }
    }

    method ParseBlockSequenceEntry(first: bool) returns (ok: bool, e: Option<Event>)
      requires Ready() && (if first then state.InBlockSequenceFirstEntry? else state.InBlockSequenceEntry?)
      modifies this
      ensures !ok ==> error && e.None?
      ensures ok ==> old(tokens) != []
      ensures ok ==> Moved(e)
      ensures Took(BlockSequenceAt(if first then Next(old(Cfg())) else old(Cfg())), ok, e)
    {
      hide Accept, AcceptNode, Base, Marks, Weights, Back;
      e := None;
      ghost var below := Base(states);
      if first { var _ := Enter(); }
      var t := Peek();
      if t.None? { return false, e; }
      if t.value.BlockEntry? {
        ok, e := BlockEntryNode();
      } else if t.value.BlockEnd? {
        EndAtToken(SequenceEnd);
        return true, Some(SequenceEnd);
      } else {
        ok := FailInCollection();
      }
    }

    /** The node of an entry of a sequence without indentation. */
    method IndentlessNode() returns (ok: bool, e: Option<Event>)
      requires !error && !streamEndProduced && StatesOk(states)
          && |marks| == Marks(states) + MarksOf(InIndentlessSequenceEntry)
      requires tokens != [] && tokens[0].BlockEntry?
      modifies this
      ensures !ok ==> error && e.None?
      ensures ok ==>
                && !error && Inv() && e.Some? && Accept(old(Base(states)) + [InSequence], e.value) == Some(Stack())
                && Potential() < old(TOKEN_WEIGHT * |tokens| + Weights(states)) && !state.InEnd?
      ensures Took(IndentlessAt(old(Cfg())), ok, e)
    {
      hide Accept, AcceptNode, Base, Marks, Weights, NodeBefore, EmptyBefore, Back;
      e := None;
      ghost var below := Base(states);
      Skip();
      var t := Peek();
      if t.None? { return false, e; }
      if !t.value.BlockEntry? && !t.value.Key? && !t.value.Value? && !t.value.BlockEnd? {
        ok, e := NodeThen(InIndentlessSequenceEntry, true, false);
      } else {
        e := EmptyThen(InIndentlessSequenceEntry);
        ok := true;
      }
      if ok { NodeAccepted(below, e.value); }
    }

    method ParseIndentlessSequenceEntry() returns (ok: bool, e: Option<Event>)
      requires Ready() && state.InIndentlessSequenceEntry?
      modifies this
      ensures !ok ==> error && e.None?
      ensures ok ==> old(tokens) != []
      ensures ok ==> Moved(e)
      ensures Took(IndentlessAt(old(Cfg())), ok, e)
    {
      hide Accept, AcceptNode, Base, Marks, Weights, Back;
      e := None;
      ghost var below := Base(states);
      var t := Peek();
      if t.None? { return false, e; }
      if t.value.BlockEntry? {
        ok, e := IndentlessNode();
      } else {
        EndCollection(false);
        e := Some(SequenceEnd);
        NodeEvents(below, SequenceEnd);
        ok := true;
      }
    }

    /** The key of an entry of a block mapping, at its token. */
    method BlockKeyNode() returns (ok: bool, e: Option<Event>)
      requires !error && !streamEndProduced && StatesOk(states) && |marks| == Marks(states) + 1
      requires tokens != [] && tokens[0].Key?
      modifies this
      ensures !ok ==> error && e.None?
      ensures ok ==>
                && !error && Inv() && e.Some? && Accept(old(Base(states)) + [InMapping], e.value) == Some(Stack())
                && Potential() < old(TOKEN_WEIGHT * |tokens| + Weights(states)) && !state.InEnd?
      ensures Took(BlockKeyAt(old(Cfg())), ok, e)
    {
      hide Accept, AcceptNode, Base, Marks, Weights, NodeBefore, EmptyBefore, Back;
      e := None;
      ghost var below := Base(states);
      Skip();
      var t := Peek();
      if t.None? { return false, e; }
      if !t.value.Key? && !t.value.Value? && !t.value.BlockEnd? {
        ok, e := NodeThen(InBlockMappingValue, true, true);
      } else {
        e := EmptyThen(InBlockMappingValue);
        ok := true;
      }
      if ok { NodeAccepted(below, e.value); }
    }

    method ParseBlockMappingKey(first: bool) returns (ok: bool, e: Option<Event>)
      requires Ready() && (if first then state.InBlockMappingFirstKey? else state.InBlockMappingKey?)
      modifies this
      ensures !ok ==> error && e.None?
      ensures ok ==> old(tokens) != []
      ensures ok ==> Moved(e)
      ensures Took(BlockKeyAt(if first then Next(old(Cfg())) else old(Cfg())), ok, e)
    {
      hide Accept, AcceptNode, Base, Marks, Weights, Back;
      e := None;
      ghost var below := Base(states);
      if first { var _ := Enter(); }
      var t := Peek();
      if t.None? { return false, e; }
      if t.value.Key? {
        ok, e := BlockKeyNode();
      } else if t.value.BlockEnd? {
        EndAtToken(MappingEnd);
        return true, Some(MappingEnd);
      } else {
        ok := FailInCollection();
      }
    }

    method ParseBlockMappingValue() returns (ok: bool, e: Option<Event>)
      requires Ready() && state.InBlockMappingValue?
      modifies this
      ensures !ok ==> error && e.None?
      ensures ok ==> old(tokens) != []
      ensures ok ==> Moved(e)
      ensures Took(BlockValueAt(old(Cfg())), ok, e)
    {
      hide Accept, AcceptNode, Base, Marks, Weights, NodeBefore;
      e := None;
      var t := Peek();
      if t.None? { return false, e; }
      ok, e := BlockValueNode();
    }

    /** The value of a pair, at its indicator, or an empty one. */
    method BlockValueNode() returns (ok: bool, e: Option<Event>)
      requires !error && !streamEndProduced && StatesOk(states) && |marks| == Marks(states) + 1
      requires tokens != []
      modifies this
      ensures !ok ==> error && e.None?
      ensures ok ==>
                && !error && Inv() && e.Some? && Accept(old(Base(states)) + [InMapping, ToNode], e.value)
                    == Some(Stack())
                && Potential() < old(TOKEN_WEIGHT * |tokens| + Weights(states)) + 2 && !state.InEnd?
      ensures Took(BlockValueAt(old(Cfg())), ok, e)
    {
      hide Accept, AcceptNode, Base, Marks, Weights, NodeBefore, EmptyBefore;
      e := None;
      ghost var below := Base(states);
      if tokens[0].Value? {
        Skip();
        var t := Peek();
        if t.None? { return false, e; }
        if !t.value.Key? && !t.value.Value? && !t.value.BlockEnd? {
          ok, e := NodeThen(InBlockMappingKey, true, true);
          if ok { ValueAccepted(below, e.value); }
          return;
        }
      }
      e := EmptyThen(InBlockMappingKey);
      ValueAccepted(below, e.value);
      ok := true;
    }

    /** The comma between the entries of a flow collection. */
    method SkipFlowEntry() returns (ok: bool)
      requires !error && !streamEndProduced && tokens != [] && marks != []
      modifies `tokens, `tokensParsed, `streamEndProduced, `error, `marks
      ensures !ok ==> error
      ensures ok ==> !error && !streamEndProduced && marks == old(marks) && tokens == old(tokens)[1..] && tokens != []
      ensures if ok then CommaAt(old(Cfg()), false) == Some(Cfg()) else CommaAt(old(Cfg()), false) == None
    {
      if tokens[0].FlowEntry? {
        Skip();
        var t := Peek();
        ok := t.Some?;
      } else {
        ok := FailInCollection();
      }
    }

    /** A collection ends at its end token. */
    method EndAtToken(e: Event)
      requires !error && !streamEndProduced && StatesOk(states) && |marks| == Marks(states) + 1
      requires tokens != [] && !tokens[0].StreamEndToken? && (e.SequenceEnd? || e.MappingEnd?)
      modifies this
      ensures !error && Inv() && !state.InEnd?
      ensures Accept(old(Base(states)) + [if e.SequenceEnd? then InSequence else InMapping], e) == Some(Stack())
      ensures Potential() < old(TOKEN_WEIGHT * |tokens| + Weights(states))
      ensures Cfg() == Next(Back(old(Cfg())))
    {
      hide Accept, AcceptNode, Base, Marks, Weights;
      NodeEvents(Base(states), e);
      EndCollection(true);
      Skip();
    }

    /** The key of an entry of a flow mapping, after its token. */
    method FlowKeyNode() returns (ok: bool, e: Option<Event>)
      requires !error && !streamEndProduced && StatesOk(states) && |marks| == Marks(states) + 1
      requires tokens != [] && tokens[0].Key?
      modifies this
      ensures !ok ==> error && e.None?
      ensures ok ==>
                && !error && Inv() && e.Some? && Accept(old(Base(states)) + [InMapping], e.value) == Some(Stack())
                && Potential() < old(TOKEN_WEIGHT * |tokens| + Weights(states)) && !state.InEnd?
      ensures Took(FlowKeyAt(Next(old(Cfg()))), ok, e)
    {
      hide Accept, AcceptNode, Base, Marks, Weights, NodeBefore, EmptyBefore;
      e := None;
      ghost var below := Base(states);
      Skip();
      var t := Peek();
      if t.None? { return false, e; }
      if !t.value.Value? && !t.value.FlowEntry? && !t.value.FlowMappingEnd? {
        ok, e := NodeThen(InFlowMappingValue, false, false);
      } else {
        e := EmptyThen(InFlowMappingValue);
        ok := true;
      }
      if ok { NodeAccepted(below, e.value); }
    }

    /** The next entry of a flow sequence, or its end. */
    method FlowItem() returns (ok: bool, e: Option<Event>)
      requires !error && !streamEndProduced && StatesOk(states) && |marks| == Marks(states) + 1
      requires tokens != []
      modifies this
      ensures !ok ==> error && e.None?
      ensures ok ==>
                && !error && Inv() && e.Some? && Accept(old(Base(states)) + [InSequence], e.value) == Some(Stack())
                && Potential() < old(TOKEN_WEIGHT * |tokens| + Weights(states)) + TOKEN_WEIGHT && !state.InEnd?
      ensures Took(FlowItemAt(old(Cfg())), ok, e)
    {
      hide Accept, AcceptNode, Base, Marks, Weights, NodeBefore, Back;
      ghost var below := Base(states);
      if tokens[0].Key? {
        state := InFlowSequenceEntryMappingKey;
        e := Some(MappingStart(None, ""));
        PairBegins(below);
        Skip();
        ok := true;
      } else if !tokens[0].FlowSequenceEnd? {
        ok, e := NodeThen(InFlowSequenceEntry, false, false);
        if ok { NodeAccepted(below, e.value); }
      } else {
        EndAtToken(SequenceEnd);
        ok, e := true, Some(SequenceEnd);
      }
    }

    method ParseFlowSequenceEntry(first: bool) returns (ok: bool, e: Option<Event>)
      requires Ready() && (if first then state.InFlowSequenceFirstEntry? else state.InFlowSequenceEntry?)
      modifies this
      ensures !ok ==> error && e.None?
      ensures ok ==> old(tokens) != []
      ensures ok ==> Moved(e)
      ensures Took(FlowSequenceAt(if first then Next(old(Cfg())) else old(Cfg()), first), ok, e)
    {
      hide Accept, AcceptNode, Base, Marks, Weights, FlowItemAt, Back;
      e := None;
      ghost var below := Base(states);
      if first { var _ := Enter(); }
      var t := Peek();
      if t.None? { return false, e; }
      if !t.value.FlowSequenceEnd? {
        if !first {
          ok := SkipFlowEntry();
          if !ok { return; }
          t := Some(tokens[0]);
        }
        ok, e := FlowItem();
        return;
      }
      EndAtToken(SequenceEnd);
      return true, Some(SequenceEnd);
    }

    method ParseFlowSequenceEntryMappingKey() returns (ok: bool, e: Option<Event>)
      requires Ready() && state.InFlowSequenceEntryMappingKey?
      modifies this
      ensures !ok ==> error && e.None?
      ensures ok ==> old(tokens) != []
      ensures ok ==> Moved(e)
      ensures Took(PairKeyAt(old(Cfg())), ok, e)
    {
      hide Accept, AcceptNode, Base, Marks, Weights, NodeBefore, EmptyBefore;
      e := None;
      ghost var below := Base(states);
      var t := Peek();
      if t.None? { return false, e; }
      if !t.value.Value? && !t.value.FlowEntry? && !t.value.FlowSequenceEnd? {
        ok, e := NodeThen(InFlowSequenceEntryMappingValue, false, false);
      } else {
        Skip();
        e := EmptyThen(InFlowSequenceEntryMappingValue);
        ok := true;
      }
      if ok { PairAccepted(below, e.value); }
    }

    /** The value of a single pair, at its indicator, or an empty one. */
    method PairValueNode() returns (ok: bool, e: Option<Event>)
      requires !error && !streamEndProduced && StatesOk(states) && |marks| == Marks(states) + 1
      requires tokens != []
      modifies this
      ensures !ok ==> error && e.None?
      ensures ok ==>
                && !error && Inv() && e.Some?
                && Accept(old(Base(states)) + [InSequence, InMapping, ToNode], e.value) == Some(Stack())
                && Potential() < old(TOKEN_WEIGHT * |tokens| + Weights(states)) + 3 && !state.InEnd?
      ensures Took(PairValueAt(old(Cfg())), ok, e)
    {
      hide Accept, AcceptNode, Base, Marks, Weights, NodeBefore, EmptyBefore;
      e := None;
      ghost var below := Base(states);
      if tokens[0].Value? {
        Skip();
        var t := Peek();
        if t.None? { return false, e; }
        if !t.value.FlowEntry? && !t.value.FlowSequenceEnd? {
          ok, e := NodeThen(InFlowSequenceEntryMappingEnd, false, false);
          if ok { PairAccepted(below, e.value); }
          return;
        }
      }
      e := EmptyThen(InFlowSequenceEntryMappingEnd);
      PairAccepted(below, e.value);
      ok := true;
    }

    method ParseFlowSequenceEntryMappingValue() returns (ok: bool, e: Option<Event>)
      requires Ready() && state.InFlowSequenceEntryMappingValue?
      modifies this
      ensures !ok ==> error && e.None?
      ensures ok ==> old(tokens) != []
      ensures ok ==> Moved(e)
      ensures Took(PairValueAt(old(Cfg())), ok, e)
    {
      hide Accept, AcceptNode, Base, Marks, Weights, NodeBefore, EmptyBefore;
      e := None;
      var t := Peek();
      if t.None? { return false, e; }
      ok, e := PairValueNode();
    }

    method ParseFlowSequenceEntryMappingEnd() returns (ok: bool, e: Option<Event>)
      requires Ready() && state.InFlowSequenceEntryMappingEnd?
      modifies this
      ensures !ok ==> error && e.None?
      ensures ok ==> old(tokens) != []
      ensures ok ==> Moved(e)
      ensures Took(PairEndAt(old(Cfg())), ok, e)
    {
      hide Accept, AcceptNode, Base, Marks, Weights;
      e := None;
      ghost var below := Base(states);
      var t := Peek();
      if t.None? { return false, e; }
      state := InFlowSequenceEntry;
      e := Some(MappingEnd);
      PairEnds(below);
      ok := true;
    }

    /** The next pair of a flow mapping, or its end. */
    method FlowPair() returns (ok: bool, e: Option<Event>)
      requires !error && !streamEndProduced && StatesOk(states) && |marks| == Marks(states) + 1
      requires tokens != []
      modifies this
      ensures !ok ==> error && e.None?
      ensures ok ==>
                && !error && Inv() && e.Some? && Accept(old(Base(states)) + [InMapping], e.value) == Some(Stack())
                && Potential() < old(TOKEN_WEIGHT * |tokens| + Weights(states)) + TOKEN_WEIGHT && !state.InEnd?
      ensures Took(FlowPairAt(old(Cfg())), ok, e)
    {
      hide Accept, AcceptNode, Base, Marks, Weights, FlowKeyAt, NodeBefore, Back;
      ghost var below := Base(states);
      if tokens[0].Key? {
        ok, e := FlowKeyNode();
      } else if !tokens[0].FlowMappingEnd? {
        ok, e := NodeThen(InFlowMappingEmptyValue, false, false);
        if ok { NodeAccepted(below, e.value); }
      } else {
        EndAtToken(MappingEnd);
        ok, e := true, Some(MappingEnd);
      }
    }

    method ParseFlowMappingKey(first: bool) returns (ok: bool, e: Option<Event>)
      requires Ready() && (if first then state.InFlowMappingFirstKey? else state.InFlowMappingKey?)
      modifies this
      ensures !ok ==> error && e.None?
      ensures ok ==> old(tokens) != []
      ensures ok ==> Moved(e)
      ensures Took(FlowMappingAt(if first then Next(old(Cfg())) else old(Cfg()), first), ok, e)
    {
      hide Accept, AcceptNode, Base, Marks, Weights, FlowPairAt, Back;
      e := None;
      ghost var below := Base(states);
      if first { var _ := Enter(); }
      var t := Peek();
      if t.None? { return false, e; }
      if !t.value.FlowMappingEnd? {
        if !first {
          ok := SkipFlowEntry();
          if !ok { return; }
          t := Some(tokens[0]);
        }
        ok, e := FlowPair();
        return;
      }
      EndAtToken(MappingEnd);
      return true, Some(MappingEnd);
    }

    /** The same in flow context. */
    method FlowValueNode() returns (ok: bool, e: Option<Event>)
      requires !error && !streamEndProduced && StatesOk(states) && |marks| == Marks(states) + 1
      requires tokens != []
      modifies this
      ensures !ok ==> error && e.None?
      ensures ok ==>
                && !error && Inv() && e.Some? && Accept(old(Base(states)) + [InMapping, ToNode], e.value)
                    == Some(Stack())
                && Potential() < old(TOKEN_WEIGHT * |tokens| + Weights(states)) + 2 && !state.InEnd?
      ensures Took(FlowValueAt(old(Cfg()), false), ok, e)
    {
      hide Accept, AcceptNode, Base, Marks, Weights, NodeBefore, EmptyBefore;
      e := None;
      ghost var below := Base(states);
      if tokens[0].Value? {
        Skip();
        var t := Peek();
        if t.None? { return false, e; }
        if !t.value.FlowEntry? && !t.value.FlowMappingEnd? {
          ok, e := NodeThen(InFlowMappingKey, false, false);
          if ok { ValueAccepted(below, e.value); }
          return;
        }
      }
      e := EmptyThen(InFlowMappingKey);
      ValueAccepted(below, e.value);
      ok := true;
    }

    method ParseFlowMappingValue(empty: bool) returns (ok: bool, e: Option<Event>)
      requires Ready() && (if empty then state.InFlowMappingEmptyValue? else state.InFlowMappingValue?)
      modifies this
      ensures !ok ==> error && e.None?
      ensures ok ==> old(tokens) != []
      ensures ok ==> Moved(e)
      ensures Took(FlowValueAt(old(Cfg()), empty), ok, e)
    {
      hide Accept, AcceptNode, Base, Marks, Weights, NodeBefore;
      var t := Peek();
      if t.None? { return false, None; }
      if empty {
        ghost var below := Base(states);
        e := EmptyThen(InFlowMappingKey);
        ValueAccepted(below, e.value);
        ok := true;
      } else {
        ok, e := FlowValueNode();
      }
    }

    // ----- the machine -----

    method StateMachine() returns (ok: bool, e: Option<Event>)
      requires Ready() && !state.InEnd?
      modifies this
      ensures old(state).InStreamStart? ==> (ok <==> old(tokens) != [] && old(tokens)[0].StreamStartToken?)
      ensures old(state).InStreamStart? && ok ==> tokens == old(tokens)[1..]
      ensures !ok ==> error && e.None?
      ensures ok ==> old(tokens) != []
      ensures ok ==> Moved(e)
      ensures Took(Step(old(Cfg())), ok, e)
    {
      hide Accept, AcceptNode, Base, Marks, Weights, StreamStartAt, DocumentStartAt, DocumentContentAt, DocumentEndAt,
          BlockSequenceAt, IndentlessAt, BlockKeyAt,
          BlockValueAt, FlowSequenceAt, PairKeyAt, PairValueAt, PairEndAt, FlowMappingAt, FlowValueAt, NodeAt, Took;
      match state
      case InStreamStart => ok, e := ParseStreamStart();
      case InImplicitDocumentStart => ok, e := ParseDocumentStart(true);
      case InDocumentStart => ok, e := ParseDocumentStart(false);
      case InDocumentContent => ok, e := ParseDocumentContent();
      case InDocumentEnd => ok, e := ParseDocumentEnd();
      case InBlockNode => ok, e := ParseNodeState(true, false);
      case InBlockNodeOrIndentlessSequence => ok, e := ParseNodeState(true, true);
      case InFlowNode => ok, e := ParseNodeState(false, false);
      case InBlockSequenceFirstEntry => ok, e := ParseBlockSequenceEntry(true);
      case InBlockSequenceEntry => ok, e := ParseBlockSequenceEntry(false);
      case InIndentlessSequenceEntry => ok, e := ParseIndentlessSequenceEntry();
      case InBlockMappingFirstKey => ok, e := ParseBlockMappingKey(true);
      case InBlockMappingKey => ok, e := ParseBlockMappingKey(false);
      case InBlockMappingValue => ok, e := ParseBlockMappingValue();
      case InFlowSequenceFirstEntry => ok, e := ParseFlowSequenceEntry(true);
      case InFlowSequenceEntry => ok, e := ParseFlowSequenceEntry(false);
      case InFlowSequenceEntryMappingKey => ok, e := ParseFlowSequenceEntryMappingKey();
      case InFlowSequenceEntryMappingValue => ok, e := ParseFlowSequenceEntryMappingValue();
      case InFlowSequenceEntryMappingEnd => ok, e := ParseFlowSequenceEntryMappingEnd();
      case InFlowMappingFirstKey => ok, e := ParseFlowMappingKey(true);
      case InFlowMappingKey => ok, e := ParseFlowMappingKey(false);
      case InFlowMappingValue => ok, e := ParseFlowMappingValue(false);
      case InFlowMappingEmptyValue => ok, e := ParseFlowMappingValue(true);
    }

    method ParseNodeState(block: bool, indentlessSequence: bool) returns (ok: bool, e: Option<Event>)
      requires Ready() && (state.InBlockNode? || state.InBlockNodeOrIndentlessSequence? || state.InFlowNode?)
      modifies this
      ensures !ok ==> error && e.None?
      ensures ok ==> old(tokens) != []
      ensures ok ==> Moved(e)
      ensures Took(NodeAt(old(Cfg()), block, indentlessSequence), ok, e)
    {
      hide Accept, AcceptNode, Base, Marks, Weights;
      ghost var below := Base(states);
      ok, e := ParseNode(block, indentlessSequence);
      if ok { NodeAccepted(below, e.value); }
    }

    /** The next event: none after an error or after the end of the stream, otherwise one that the
        stack allows, or an error. */
    method Parse() returns (ok: bool, e: Option<Event>)
      requires error || Inv()
      modifies this
      ensures old(!error && Inv() && state.InStreamStart?) ==>
          (ok <==> old(tokens) != [] && old(tokens)[0].StreamStartToken?) && (ok ==> tokens == old(tokens)[1..])
      ensures old(error) ==> tokens == old(tokens)
      ensures old(!error && Inv() && !state.InEnd? && tokens == []) ==> !ok
      ensures error || Inv()
      ensures old(error || state.InEnd?) ==>
          ok && e.None? && error == old(error) && state == old(state)
          && states == old(states)
      ensures !old(error || state.InEnd?) ==> if ok then Moved(e) else error && e.None?
      ensures !old(error || state.InEnd?) ==> Took(Step(old(Cfg())), ok, e)
    {
      hide Step, Took;
      if streamEndProduced || error || state.InEnd? { return true, None; }
      ok, e := StateMachine();
    }
  }

  lemma ValueAccepted(st: Stack, e: Event)
    ensures Accept(st + [InMapping, ToNode], e) == AcceptNode(st + [InMapping], e)
    ensures AcceptNode(st + [InMapping], EMPTY_SCALAR) == Some(st + [InMapping])
  {
    NodeEvents(st + [InMapping], e);
    assert st + [InMapping] + [ToNode] == st + [InMapping, ToNode];
  }

  /** A mapping with one pair in a flow sequence. */
  lemma PairBegins(st: Stack)
    ensures Accept(st + [InSequence], MappingStart(None, "")) == Some(st + [InSequence, InMapping])
  {
    NodeEvents(st, MappingStart(None, ""));
    assert st + [InSequence] + [InMapping] == st + [InSequence, InMapping];
  }

  lemma PairAccepted(st: Stack, e: Event)
    ensures AcceptNode(st + [InSequence, InMapping, ToNode], e).Some? ==>
              Accept(st + [InSequence, InMapping], e) == AcceptNode(st + [InSequence, InMapping, ToNode], e)
    ensures Accept(st + [InSequence, InMapping, ToNode], e) == AcceptNode(st + [InSequence, InMapping], e)
    ensures AcceptNode(st + [InSequence, InMapping, ToNode], EMPTY_SCALAR) == Some(st + [InSequence, InMapping, ToNode])
    ensures AcceptNode(st + [InSequence, InMapping], EMPTY_SCALAR) == Some(st + [InSequence, InMapping])
  {
    var a := st + [InSequence];
    NodeEvents(a, e);
    NodeEvents(a + [InMapping], e);
    assert a + [InMapping] == st + [InSequence, InMapping]
        && a + [InMapping] + [ToNode] == st + [InSequence, InMapping, ToNode];
  }

  lemma PairEnds(st: Stack)
    ensures Accept(st + [InSequence, InMapping], MappingEnd) == Some(st + [InSequence])
  {
    NodeEvents(st + [InSequence], MappingEnd);
    assert st + [InSequence] + [InMapping] == st + [InSequence, InMapping];
  }

  lemma NodeAccepted(st: Stack, e: Event)
    ensures AcceptNode(st + [InSequence], e).Some? ==> Accept(st + [InSequence], e) == AcceptNode(st + [InSequence], e)
    ensures AcceptNode(st + [InMapping] + [ToNode], e).Some? ==>
        Accept(st + [InMapping], e) == AcceptNode(st + [InMapping] + [ToNode], e)
    ensures Accept(st + [ToNode], e) == AcceptNode(st, e)
    ensures AcceptNode(st, EMPTY_SCALAR) == Some(st)
    ensures AcceptNode(st + [InSequence], EMPTY_SCALAR) == Some(st + [InSequence])
    ensures AcceptNode(st + [InMapping] + [ToNode], EMPTY_SCALAR) == Some(st + [InMapping] + [ToNode])
    ensures st + [InMapping] + [ToNode] == st + [InMapping, ToNode]
  {
    NodeEvents(st, e);
  }
}
