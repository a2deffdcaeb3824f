/** The part of yaml.v2's decoder that consumes events and builds a tree of nodes. */
module YamlBuilder {
  import opened Options
  import opened YamlEvents
  import YamlKeyed
  import opened YamlParser
  import opened YamlPresent
  import opened YamlSteps

  // ----- anchors and aliases -----

  function AnchorOf(e: Event): set<string> {
    if (e.Scalar? || e.SequenceStart? || e.MappingStart?) && e.anchor.Some? then {e.anchor.value} else {}
  }

  function Anchors(es: seq<Event>): set<string> {
    if es == [] then {} else AnchorOf(es[0]) + Anchors(es[1..])
  }

  /** Every alias names an anchor that comes before it, or one of `names`. */
  predicate AliasesBound(es: seq<Event>, names: set<string>) {
    es == [] || ((es[0].Alias? ==> es[0].name in names) && AliasesBound(es[1..], names + AnchorOf(es[0])))
  }

  lemma {:induction false} BoundConcat(a: seq<Event>, b: seq<Event>, names: set<string>)
    ensures Anchors(a + b) == Anchors(a) + Anchors(b)
    ensures AliasesBound(a + b, names) <==> AliasesBound(a, names) && AliasesBound(b, names + Anchors(a))
    decreases |a|
  {
    if a == [] {
      assert a + b == b;
      assert names + Anchors(a) == names;
    } else {
      assert (a + b)[1..] == a[1..] + b;
      BoundConcat(a[1..], b, names + AnchorOf(a[0]));
      assert names + AnchorOf(a[0]) + Anchors(a[1..]) == names + Anchors(a);
    }
  }

  /** The parser failed, or there was another event than the one expected, or an anchor is not known. */
  datatype Problem = Syntax | PastEnd | Unexpected | UnknownAnchor(name: string)

  datatype Result = Doc(root: Node) | Tree(node: Node) | Nothing | Failed(problem: Problem) | Panicked

  class Builder {
    const parser: Parser
    var event: Option<Event>
    var anchors: set<string>
    var doneInit: bool
    ghost var consumed: seq<Event>
    ghost var st: Stack

    constructor (tokens: seq<Token>)
      ensures Valid() && fresh(parser) && event.None? && !doneInit && consumed == [] && st == [ToStart]
      ensures parser.tokens == tokens
    {
      parser := new Parser(tokens);
      event, anchors, doneInit, consumed, st := None, {}, false, [], [ToStart];
    }

    /** Nothing has failed so far: the events consumed, and the one that has been peeked at, are
        accepted, and the parser is where they lead. */
    ghost predicate Valid()
      reads this, parser
    {
      && !parser.error && parser.Inv()
      && AcceptAll([ToStart], consumed) == Some(st)
      && (if event.Some? then Accept(st, event.value) == Some(parser.Stack()) else st == parser.Stack())
      && (parser.state.InEnd? ==> event == Some(StreamEnd))
    }

    /** The parser has failed, and has left no event. */
    ghost predicate Dead()
      reads this, parser
    {
      parser.error && event.None?
    }

    /** The alias at hand names no anchor of the document. */
    ghost predicate Unbound()
      reads this, parser
    {
      Valid() && doneInit && event.Some? && event.value.Alias? && event.value.name !in anchors
    }

    /** Where a failure after the start of the stream leaves the builder. */
    ghost predicate Stopped(p: Problem)
      reads this, parser
    {
      && doneInit
      && match p
         case Syntax => Dead()
         case UnknownAnchor(name) => Unbound() && event.value.name == name
         case _ => false
    }

    ghost function Measure(): nat
      reads this, parser
    {
      2 * parser.Potential() + if event.Some? then 1 else 0
    }

    /** The next event, without consuming it. After a failure of the parser there is none. */
    method Peek() returns (ok: bool)
      requires Valid() || Dead()
      modifies `event, parser
      ensures consumed == old(consumed)
      ensures old(Dead()) ==> ok && Dead()
      ensures old(Valid()) ==> if ok then Valid() && event.Some? && Measure() <= old(Measure()) else Dead()
      ensures old(event).Some? ==> ok && event == old(event)
      ensures old(Valid() && event.None? && parser.tokens == []) ==> !ok
      ensures old(Valid() && event.None? && parser.state.InStreamStart?) ==>
          (ok <==> StartsStream(old(parser.tokens))) && (ok ==> parser.tokens == old(parser.tokens)[1..])
    {
      if event.Some? { return true; }
      ok, event := parser.Parse();
    }

    /** Consumes the next event if it is of the kind that is expected. */
    method Expect(k: Kind) returns (failure: Option<Problem>, ghost e: Event)
      requires Valid() || Dead()
      modifies this, parser
      ensures anchors == old(anchors) && doneInit == old(doneInit)
      ensures old(Dead()) ==> failure == Some(Unexpected) && Dead()
      ensures old(Valid()) && failure.Some? ==>
          || (failure.value.Syntax? && Dead())
          || ((failure.value.PastEnd? || failure.value.Unexpected?)
              && Valid() && event.Some? && (event.value.StreamEnd? || KindOf(event.value) != k)
              && consumed == old(consumed) && st == old(st))
      ensures failure.None? ==>
          Valid() && event.None? && KindOf(e) == k && !e.StreamEnd? && Accept(old(st), e) == Some(st)
      ensures failure.None? ==> consumed == old(consumed) + [e] && Measure() < old(Measure())
      ensures failure.None? && old(event).Some? ==> old(event) == Some(e)
      ensures old(Valid() && event.Some?) && KindOf(old(event).value) == k && k != KStreamEnd ==> failure.None?
      ensures old(Valid() && event.None? && parser.state.InStreamStart?) ==>
          && (failure == Some(Syntax) <==> !StartsStream(old(parser.tokens)))
          && (failure.None? ==> parser.tokens == old(parser.tokens)[1..])
    {
      hide AcceptAll, Accept, Parser.Inv, Parser.Stack, Parser.Potential;
      e := StreamEnd;
      var ok := Peek();
      if !ok { return Some(Syntax), e; }
      if event == Some(StreamEnd) { return Some(PastEnd), e; }
      if event.None? || KindOf(event.value) != k { return Some(Unexpected), e; }
      e := event.value;
      ConsumeOne([ToStart], consumed, st, e);
      event := None;
      consumed := consumed + [e];
      st := parser.Stack();
      failure := None;
    }

    // ----- nodes -----

    /** The next event starts a node, after which `rest` has to come. */
    ghost predicate AtNode(rest: Stack)
      reads this, parser
    {
      && Valid() && doneInit
      && if event.Some? then AcceptNode(rest, event.value) == Some(parser.Stack()) else st == rest + [ToNode]
    }

    /** A node has been built from exactly the events that were consumed. */
    twostate predicate Built(new n: Node, rest: Stack)
      reads this, parser
    {
      && Valid() && doneInit && event.None? && st == rest && Measure() < old(Measure())
      && GoodNode(n) && consumed == old(consumed) + Unparse(n)
      && AliasesBound(Unparse(n), old(anchors)) && anchors == old(anchors) + Anchors(Unparse(n))
    }

    method AddAnchor()
      requires Valid() && event.Some?
          && (event.value.Scalar? || event.value.SequenceStart? || event.value.MappingStart?)
      modifies `anchors
      ensures Valid() && Measure() == old(Measure()) && anchors == old(anchors) + AnchorOf(event.value)
    {
      if event.value.anchor.Some? { anchors := anchors + {event.value.anchor.value}; }
    }

    lemma LeafFacts(e: Event, names: set<string>)
      requires e.Scalar? || e.Alias?
      ensures Unparse(Leaf(e)) == [e] && GoodNode(Leaf(e)) && Anchors([e]) == AnchorOf(e)
      ensures AliasesBound([e], names) <==> (e.Alias? ==> e.name in names)
    {
      assert [e][1..] == [];
    }

    method ParseAlias(ghost rest: Option<Stack>) returns (r: Result)
      requires Valid() && doneInit && event.Some? && event.value.Alias?
      requires event.value.name in anchors ==> rest.Some? && AtNode(rest.value)
      modifies this, parser
      ensures if old(event).value.name in old(anchors) then r.Tree? && Built(r.node, rest.value)
              else event == old(event) && r == Failed(UnknownAnchor(event.value.name)) && Stopped(r.problem)
    {
      hide Valid, AcceptAll;
      if event.value.name !in anchors { return Failed(UnknownAnchor(event.value.name)); }
      StackIs();
      var n := Leaf(event.value);
      LeafFacts(event.value, anchors);
      var failure, _ := Expect(KAlias);
      r := Tree(n);
    }

    method ParseScalar(ghost rest: Stack) returns (r: Result)
      requires AtNode(rest) && event.Some? && event.value.Scalar?
      modifies this, parser
      ensures r.Tree? && Built(r.node, rest)
    {
      hide Valid, AcceptAll;
      StackIs();
      var n := Leaf(event.value);
      LeafFacts(event.value, anchors);
      AddAnchor();
      var failure, _ := Expect(KScalar);
      r := Tree(n);
    }

    lemma StackIs()
      requires Valid()
      ensures !Dead()
      ensures event.None? ==> st == parser.Stack()
      ensures event.Some? ==> Accept(st, event.value) == Some(parser.Stack())
    {}

    /** Children have been built: `es` was consumed and `names` were the anchors before the start `e`,
        and all events since then are those of `e` and of the children. */
    ghost predicate KidsBuilt(e: Event, kids: seq<Node>, es: seq<Event>, names: set<string>)
      reads `doneInit, `consumed, `anchors
    {
      doneInit && KidsAre(e, kids, es, names, consumed, anchors)
    }

    /** The start of a collection is consumed. */
    method BeginCollection(ghost rest: Stack, ghost inside: Item) returns (e: Event)
      requires AtNode(rest) && event.Some?
      requires (event.value.SequenceStart? && inside.InSequence?) || (event.value.MappingStart? && inside.InMapping?)
      modifies this, parser
      ensures old(event) == Some(e) && KidsBuilt(e, [], old(consumed), old(anchors))
      ensures Valid() && event.None? && st == rest + [inside] && Measure() < old(Measure())
    {
      hide Valid, AcceptAll;
      StackIs();
      e := event.value;
      AddAnchor();
      var failure, _ := Expect(KindOf(e));
      OneEvent(e, old(anchors));
    }

    /** The next child is built. */
    method ParseKid(ghost after: Stack, ghost e: Event, ghost kids: seq<Node>, ghost es: seq<Event>,
        ghost names: set<string>) returns (r: Result)
      requires AtNode(after) && KidsBuilt(e, kids, es, names)
      modifies this, parser
      ensures r.Tree? || (r.Failed? && Stopped(r.problem))
      ensures r.Tree? ==> Valid() && event.None? && st == after && KidsBuilt(e, kids + [r.node], es, names)
      ensures r.Tree? ==> Measure() < old(Measure())
      decreases Measure(), 5
    {
      hide Valid, AcceptAll, Accept, AcceptNode, GoodNode, AliasesBound, Unparse, UnparseAll, KidsAre, Anchors;
      StackIs();
      ghost var all, bound := consumed, anchors;
      r := Parse(Some(after));
      if r.Tree? { KidJoins(e, kids, r.node, es, names, all, bound); }
    }

    method ParseSequence(ghost rest: Stack) returns (r: Result)
      requires AtNode(rest) && event.Some? && event.value.SequenceStart?
      modifies this, parser
      ensures r.Tree? || (r.Failed? && Stopped(r.problem))
      ensures r.Tree? ==> Built(r.node, rest)
      decreases Measure(), 1
    {
      hide Valid, AcceptAll, Accept, AcceptNode, GoodNode, AliasesBound, Unparse, UnparseAll, KidsBuilt;
      var kids: seq<Node> := [];
      var e := BeginCollection(rest, InSequence);
      ghost var es, names := old(consumed), old(anchors);
      KidsFacts(e, kids, es, names);
      var ok := Peek();
      if !ok { return Failed(Syntax); }
      KidsFacts(e, kids, es, names);
      while !event.value.SequenceEnd?
        invariant Valid() && doneInit && event.Some? && st == rest + [InSequence] && Measure() < old(Measure())
        invariant KidsBuilt(e, kids, es, names)
        decreases Measure()
      {
        StackIs();
        NodeEvents(rest, event.value);
        r := ParseKid(rest + [InSequence], e, kids, es, names);
        if !r.Tree? { return; }
        kids := kids + [r.node];
        KidsFacts(e, kids, es, names);
        ok := Peek();
        if !ok { return Failed(Syntax); }
        KidsFacts(e, kids, es, names);
      }
      r := CloseCollection(Node.Sequence(e, kids), rest, es, names);
    }

    /** A key and its value, and a look at what follows. */
    method ParsePair(ghost rest: Stack, ghost e: Event, kids: seq<Node>, ghost es: seq<Event>, ghost names: set<string>)
      returns (failure: Option<Problem>, more: seq<Node>)
      requires Valid() && doneInit && event.Some? && !event.value.MappingEnd? && st == rest + [InMapping]
      requires KidsBuilt(e, kids, es, names)
      modifies this, parser
      ensures failure.Some? ==> Stopped(failure.value)
      ensures failure.None? ==> Valid() && doneInit && event.Some? && st == rest + [InMapping]
      ensures failure.None? ==> |more| == |kids| + 2 && KidsBuilt(e, more, es, names) && Measure() < old(Measure())
      decreases Measure(), 6
    {
      hide Valid, AcceptAll, Accept, AcceptNode, GoodNode, AliasesBound, Unparse, UnparseAll, KidsBuilt;
      StackIs();
      NodeEvents(rest, event.value);
      var r := ParseKid(rest + [InMapping] + [ToNode], e, kids, es, names);
      if !r.Tree? { return Some(r.problem), kids; }
      more := kids + [r.node];
      KidsFacts(e, more, es, names);
      r := ParseKid(rest + [InMapping], e, more, es, names);
      if !r.Tree? { return Some(r.problem), more; }
      more := more + [r.node];
      KidsFacts(e, more, es, names);
      var ok := Peek();
      if !ok { return Some(Syntax), more; }
      KidsFacts(e, more, es, names);
      failure := None;
    }

    method ParseMapping(ghost rest: Stack) returns (r: Result)
      requires AtNode(rest) && event.Some? && event.value.MappingStart?
      modifies this, parser
      ensures r.Tree? || (r.Failed? && Stopped(r.problem))
      ensures r.Tree? ==> Built(r.node, rest)
      decreases Measure(), 1
    {
      hide Valid, AcceptAll, Accept, AcceptNode, GoodNode, AliasesBound, Unparse, UnparseAll, KidsBuilt;
      var kids: seq<Node> := [];
      var e := BeginCollection(rest, InMapping);
      ghost var es, names := old(consumed), old(anchors);
      KidsFacts(e, kids, es, names);
      var ok := Peek();
      if !ok { return Failed(Syntax); }
      KidsFacts(e, kids, es, names);
      while !event.value.MappingEnd?
        invariant Valid() && doneInit && event.Some? && st == rest + [InMapping] && Measure() < old(Measure())
        invariant KidsBuilt(e, kids, es, names) && |kids| % 2 == 0
        decreases Measure()
      {
        var failure;
        failure, kids := ParsePair(rest, e, kids, es, names);
        if failure.Some? { return Failed(failure.value); }
      }
      r := CloseCollection(Node.Mapping(e, kids), rest, es, names);
    }

    /** The end of a collection is consumed. */
    method CloseCollection(n: Node, ghost rest: Stack, ghost es: seq<Event>, ghost names: set<string>)
        returns (r: Result)
      requires Valid() && event.Some? && KidsBuilt(n.event, if n.Leaf? then [] else n.kids, es, names)
      requires (n.Sequence? && n.event.SequenceStart? && event.value.SequenceEnd? && st == rest + [InSequence])
            || (n.Mapping? && n.event.MappingStart? && event.value.MappingEnd? && st == rest + [InMapping]
                && |n.kids| % 2 == 0)
      modifies this, parser
      ensures r == Tree(n) && Valid() && doneInit && event.None? && st == rest && Measure() < old(Measure())
      ensures GoodNode(n) && consumed == es + Unparse(n) && AliasesBound(Unparse(n), names)
          && anchors == names + Anchors(Unparse(n))
    {
      hide Valid, AcceptAll, Accept, AcceptNode, GoodNode, AliasesBound, Unparse, UnparseAll;
      StackIs();
      NodeEvents(rest, event.value);
      CollectionDone(n, names);
      var failure, _ := Expect(KindOf(event.value));
      r := Tree(n);
    }

    lemma KidsFacts(e: Event, kids: seq<Node>, es: seq<Event>, names: set<string>)
      requires KidsBuilt(e, kids, es, names)
      ensures doneInit
    {}

    // ----- documents -----

    /** Between documents, or before the first one. */
    ghost predicate AtDocument()
      reads this, parser
    {
      Valid() && if doneInit then st == [Docs] else st == [ToStart] && event.None?
    }

    /** A document has been built from exactly the events that were consumed. */
    twostate predicate DocumentBuilt(new root: Node)
      reads this, parser
    {
      && AtDocument() && doneInit && event.None?
      && GoodNode(root) && AliasesBound(Unparse(root), {})
      && exists b :: consumed == old(consumed) + (if old(doneInit) then [] else [StreamStart])
                                 + UnparseDocs([Document(root, b)])
    }

    method ParseDocument() returns (r: Result)
      requires AtDocument() && doneInit && event == Some(DocumentStart)
      modifies this, parser
      ensures r.Doc? || (r.Failed? && Stopped(r.problem))
      ensures r.Doc? ==> DocumentBuilt(r.root)
      decreases Measure(), 1
    {
      hide Valid, AcceptAll, GoodNode, AliasesBound, Unparse, Accept;
      ClearAnchors();
      StackIs();
      DocumentEvents(true);
      var failure, _ := Expect(KDocumentStart);
      StackIs();
      var n := Parse(Some([Docs, ToEndDoc]));
      if !n.Tree? { return n; }
      ghost var e;
      failure, e := Expect(KDocumentEnd);
      EndsDocument(e);
      if failure.Some? {
        if !failure.value.Syntax? {
          StackIs();
          EndsDocument(event.value);
          assert false;
        }
        return Failed(failure.value);
      }
      r := Doc(n.node);
      DocumentDone(old(consumed), n.node, e);
    }

    method ClearAnchors()
      requires Valid()
      modifies `anchors
      ensures Valid() && Measure() == old(Measure()) && anchors == {}
    {
      anchors := {};
    }

    // ----- the entry -----

    /** The states in which the calls made so far can have left the builder. */
    ghost predicate Callable()
      reads this, parser
    {
      AtDocument() || Dead() || Unbound()
    }

    /** The node, document or end of stream that an event at hand starts. */
    method Dispatch(ghost rest: Option<Stack>) returns (r: Result)
      requires doneInit && event.Some? && Valid()
      requires if rest.Some? then AtNode(rest.value) else AtDocument() || Unbound()
      modifies this, parser
      ensures rest.Some? ==> (r.Tree? && Built(r.node, rest.value)) || (r.Failed? && Stopped(r.problem))
      ensures rest.None? && old(AtDocument()) ==>
          (r.Doc? && DocumentBuilt(r.root)) || (r.Nothing? && StreamDone()) || (r.Failed? && Stopped(r.problem))
      ensures rest.None? && old(Unbound()) ==>
          event == old(event) && r == Failed(UnknownAnchor(event.value.name)) && Stopped(r.problem)
      ensures rest.None? && old(event) == Some(StreamEnd) ==> r.Nothing?
      decreases Measure(), 2
    {
      hide Valid, AcceptAll, GoodNode, AliasesBound, Unparse, Accept, Built, DocumentBuilt;
      StackIs();
      if rest.Some? { NodeEvents(rest.value, event.value); }
      DocsAccept(event.value);
      match event.value
      case Scalar(_, _, _, _, _) => r := ParseScalar(rest.value);
      case Alias(_) => r := ParseAlias(rest);
      case MappingStart(_, _) => r := ParseMapping(rest.value);
      case SequenceStart(_, _) => r := ParseSequence(rest.value);
      case DocumentStart => r := ParseDocument();
      case StreamEnd => r := Nothing;
      case _ =>
        assert false;
        r := Panicked;
    }

    /** Builds the next node or document, once the start of the stream has been read. */
    method ParseNext(ghost rest: Option<Stack>) returns (r: Result)
      requires doneInit && if rest.Some? then AtNode(rest.value) else Callable()
      modifies this, parser
      ensures doneInit && (r.Panicked? <==> old(Dead()))
      ensures rest.Some? ==> (r.Tree? && Built(r.node, rest.value)) || (r.Failed? && Stopped(r.problem))
      ensures rest.None? && old(AtDocument()) ==>
          (r.Doc? && DocumentBuilt(r.root)) || (r.Nothing? && StreamDone()) || (r.Failed? && Stopped(r.problem))
      ensures rest.None? && old(AtDocument() && event.None? && parser.tokens == []) ==> r == Failed(Syntax)
      ensures rest.None? && old(AtDocument() && event == Some(StreamEnd)) ==> r.Nothing?
      ensures old(Dead()) ==> Dead()
      ensures rest.None? && old(Unbound()) ==>
          event == old(event) && r == Failed(UnknownAnchor(event.value.name)) && Stopped(r.problem)
      decreases Measure(), 3
    {
      hide Valid, AcceptAll, GoodNode, AliasesBound, Unparse, Accept, AcceptNode;
      if Valid() { StackIs(); }
      var ok := Peek();
      if !ok { return Failed(Syntax); }
      if event.None? { return Panicked; }
      StackIs();
      if rest.Some? { NodeEvents(rest.value, event.value); }
      r := Dispatch(rest);
    }

    /** Builds the next node (if `rest` is given) or the next document. It may be called again after
        any failure: if the parser has failed after the start of the stream, it panics, because there
        is no event and that is not one it knows; other failures come again. */
    method Parse(ghost rest: Option<Stack>) returns (r: Result)
      requires if rest.Some? then AtNode(rest.value) else Callable()
      modifies this, parser
      ensures r.Panicked? <==> old(parser.error && doneInit && event.None?)
      ensures rest.Some? ==> (r.Tree? && Built(r.node, rest.value)) || (r.Failed? && Stopped(r.problem))
      ensures rest.None? ==> Callable()
      ensures rest.None? && old(AtDocument()) ==>
          || (r.Doc? && DocumentBuilt(r.root)) || (r.Nothing? && StreamDone()) || (r.Failed? && Stopped(r.problem))
          || (r == Failed(Syntax) && Dead() && !doneInit)
      ensures old(AtDocument() && !doneInit) && rest.None? ==> (doneInit <==> StartsStream(old(parser.tokens)))
      ensures old(AtDocument() && !doneInit && |parser.tokens| <= 1) && rest.None? ==> r == Failed(Syntax)
      ensures old(AtDocument() && event == Some(StreamEnd)) && rest.None? ==> r.Nothing?
      ensures old(doneInit) ==> doneInit
      ensures old(Dead()) ==>
          Dead() && doneInit == old(doneInit) && r == if doneInit then Panicked else Failed(Unexpected)
      ensures rest.None? && old(Unbound()) ==>
          event == old(event) && r == Failed(UnknownAnchor(event.value.name)) && Stopped(r.problem)
      decreases Measure(), 4
    {
      hide Valid, AcceptAll, GoodNode, AliasesBound, Unparse, Accept, AcceptNode, Built;
      if !doneInit {
        var failure := Init();
        if failure.Some? { return Failed(failure.value); }
      }
      ghost var start := consumed;
      r := ParseNext(rest);
      if r.Doc? {
        ghost var b :| consumed == start + [] + UnparseDocs([Document(r.root, b)]);
        assert start + [] + UnparseDocs([Document(r.root, b)]) == start + UnparseDocs([Document(r.root, b)]);
      }
    }

    method Init() returns (failure: Option<Problem>)
      requires (AtDocument() || Dead()) && !doneInit
      modifies this, parser
      ensures old(Dead()) ==> failure == Some(Unexpected) && Dead() && !doneInit
      ensures old(AtDocument()) ==> (failure.None? <==> StartsStream(old(parser.tokens)))
      ensures old(AtDocument()) && failure.Some? ==> failure == Some(Syntax) && Dead() && !doneInit
      ensures failure.None? ==>
          AtDocument() && doneInit && event.None? && consumed == old(consumed) + [StreamStart]
          && Measure() < old(Measure()) && parser.tokens == old(parser.tokens)[1..]
    {
      hide AcceptAll, Accept;
      DocumentEvents(true);
      if Valid() { StartState(); }
      ghost var e;
      failure, e := Expect(KStreamStart);
      if failure.None? {
        doneInit := true;
      } else if !parser.error {
        StartEvent(event.value);
        assert false;
      }
    }

    lemma Fresh()
      requires Valid() && event.None? && !doneInit && st == [ToStart]
      ensures AtDocument() && !Dead() && !Unbound()
    {}

    /** Before the start of the stream the parser is in its first state. */
    lemma StartState()
      requires AtDocument() && !doneInit
      ensures parser.state.InStreamStart?
    {
      hide Accept, AcceptAll;
      StackIs();
      NoStates();
      BaseOfInner(parser.states);
      assert |parser.Stack()| == 1;
    }

    /** All documents have been consumed. */
    twostate predicate StreamDone()
      reads this, parser
    {
      && AtDocument() && doneInit && event == Some(StreamEnd)
      && consumed == old(consumed) + if old(doneInit) then [] else [StreamStart]
    }
  }

  /** The tokens begin as those of every stream that can be read do. */
  predicate StartsStream(tokens: seq<Token>) {
    tokens != [] && tokens[0].StreamStartToken?
  }

  lemma StartEvent(e: Event)
    ensures Accept([ToStart], e).Some? ==> e.StreamStart?
  {}

  lemma {:induction false} BaseOfInner(states: seq<State>)
    ensures StatesOk(states) ==> |Base(states)| >= 2
    decreases |states|
  {
    if StatesOk(states) {
      var n := |states| - 1;
      if n == 0 {
        assert states[..n] == [] && Base([]) == [];
      } else {
        BaseOfInner(states[..n]);
      }
    }
  }

  lemma DocsAccept(e: Event)
    ensures Accept([Docs], e).Some? ==> e.DocumentStart? || e.StreamEnd?
  {}

  lemma EndsDocument(e: Event)
    ensures Accept([Docs, ToEndDoc], e).Some? ==> e.DocumentEnd?
    ensures e.DocumentEnd? ==> Accept([Docs, ToEndDoc], e) == Some([Docs])
  {
    assert Pop([Docs, ToEndDoc]) == [Docs];
  }

  lemma DocumentDone(before: seq<Event>, root: Node, e: Event)
    requires e.DocumentEnd?
    ensures before + [DocumentStart] + Unparse(root) + [e] == before + [] + UnparseDocs([Document(root, e.implicit)])
  {
    assert [Document(root, e.implicit)][1..] == [];
  }

  lemma OneEvent(e: Event, names: set<string>)
    requires !e.Alias?
    ensures [e] + UnparseAll([]) == [e] && AliasesBound([e], names) && Anchors([e]) == AnchorOf(e)
  {
    assert [e][1..] == [];
  }

  /** The events `all` are `es`, then the start of a collection and its children so far. */
  ghost predicate KidsAre(e: Event, kids: seq<Node>, es: seq<Event>, names: set<string>, all: seq<Event>,
      bound: set<string>) {
    && (forall i :: 0 <= i < |kids| ==> GoodNode(kids[i]))
    && all == es + ([e] + UnparseAll(kids))
    && AliasesBound([e] + UnparseAll(kids), names) && bound == names + Anchors([e] + UnparseAll(kids))
  }

  lemma KidJoins(e: Event, kids: seq<Node>, n: Node, es: seq<Event>, names: set<string>, all: seq<Event>,
      bound: set<string>)
    requires KidsAre(e, kids, es, names, all, bound)
    requires GoodNode(n) && AliasesBound(Unparse(n), bound)
    ensures KidsAre(e, kids + [n], es, names, all + Unparse(n), bound + Anchors(Unparse(n)))
  {
    hide GoodNode, AliasesBound, Unparse, UnparseAll, Anchors;
    KidAdded(e, kids, n, names);
  }

  /** One more child. */
  lemma {:induction false} KidAdded(e: Event, kids: seq<Node>, n: Node, names: set<string>)
    requires AliasesBound([e] + UnparseAll(kids), names)
    requires AliasesBound(Unparse(n), names + Anchors([e] + UnparseAll(kids)))
    ensures [e] + UnparseAll(kids + [n]) == [e] + UnparseAll(kids) + Unparse(n)
    ensures AliasesBound([e] + UnparseAll(kids + [n]), names)
    ensures Anchors([e] + UnparseAll(kids + [n])) == Anchors([e] + UnparseAll(kids)) + Anchors(Unparse(n))
  {
    UnparseSnoc(kids, n);
    assert [e] + UnparseAll(kids + [n]) == [e] + UnparseAll(kids) + Unparse(n);
    BoundConcat([e] + UnparseAll(kids), Unparse(n), names);
  }

  lemma CollectionDone(n: Node, names: set<string>)
    requires (n.Sequence? && n.event.SequenceStart?) || (n.Mapping? && n.event.MappingStart? && |n.kids| % 2 == 0)
    requires (forall i :: 0 <= i < |n.kids| ==> GoodNode(n.kids[i]))
        && AliasesBound([n.event] + UnparseAll(n.kids), names)
    ensures var end := if n.Sequence? then SequenceEnd else MappingEnd;
            Unparse(n) == [n.event] + UnparseAll(n.kids) + [end]
    ensures GoodNode(n) && AliasesBound(Unparse(n), names)
    ensures Anchors(Unparse(n)) == Anchors([n.event] + UnparseAll(n.kids))
  {
    var end := if n.Sequence? then SequenceEnd else MappingEnd;
    KidsAreAll(n, 0);
    assert n.kids[0..] == n.kids;
    BoundConcat([n.event] + UnparseAll(n.kids), [end], names);
    assert [end][1..] == [];
  }

  datatype Kind =
    | KStreamStart
    | KStreamEnd
    | KDocumentStart
    | KDocumentEnd
    | KAlias
    | KScalar
    | KSequenceStart
    | KSequenceEnd
    | KMappingStart
    | KMappingEnd

  function KindOf(e: Event): Kind {
    match e
    case StreamStart => KStreamStart
    case StreamEnd => KStreamEnd
    case DocumentStart => KDocumentStart
    case DocumentEnd(_) => KDocumentEnd
    case Alias(_) => KAlias
    case Scalar(_, _, _, _, _) => KScalar
    case SequenceStart(_, _) => KSequenceStart
    case SequenceEnd => KSequenceEnd
    case MappingStart(_, _) => KMappingStart
    case MappingEnd => KMappingEnd
  }

  lemma ConsumeOne(start: Stack, es: seq<Event>, st: Stack, e: Event)
    requires AcceptAll(start, es) == Some(st)
    ensures AcceptAll(start, es + [e]) == Accept(st, e)
  {
    AcceptConcat(start, es, [e]);
    var s := Accept(st, e);
    if s.Some? { assert AcceptAll(s.value, [e][1..]) == s; }
  }

  // ----- calls, one after the other -----

  /** What the result of one call says about that of the next. */
  predicate Follows(started: bool, a: Result, b: Result) {
    match a
    case Doc(_) => b.Doc? || b.Nothing? || b == Failed(Syntax) || (b.Failed? && b.problem.UnknownAnchor?)
    case Nothing => b.Nothing?
    case Failed(Syntax) => b == if started then Panicked else Failed(Unexpected)
    case Failed(Unexpected) => b == a && !started
    case Failed(UnknownAnchor(_)) => b == a
    case Panicked => b.Panicked?
    case _ => false
  }

  /** The builder is as the last result says. */
  ghost predicate AfterCall(bld: Builder, started: bool, last: Result)
    reads bld, bld.parser
  {
    match last
    case Doc(_) => bld.AtDocument() && bld.doneInit && started
    case Nothing => bld.AtDocument() && bld.doneInit && started && bld.event == Some(StreamEnd)
    case Failed(Syntax) => bld.Dead() && bld.doneInit == started
    case Failed(Unexpected) => bld.Dead() && !bld.doneInit && !started
    case Failed(UnknownAnchor(name)) => bld.Unbound() && bld.event.value.name == name && started
    case Panicked => bld.Dead() && bld.doneInit && started
    case _ => false
  }

  /** A document comes from good events, with its aliases bound. */
  ghost predicate GoodResult(r: Result) {
    r.Doc? ==> GoodNode(r.root) && AliasesBound(Unparse(r.root), {})
  }

  method FirstCall(tokens: seq<Token>) returns (bld: Builder, r: Result)
    ensures fresh(bld) && fresh(bld.parser) && AfterCall(bld, StartsStream(tokens), r) && GoodResult(r)
    ensures !r.Panicked? && (|tokens| <= 1 ==> r == Failed(Syntax))
  {
    hide Builder.Valid, AcceptAll, GoodNode, AliasesBound, Unparse, Accept;
    bld := new Builder(tokens);
    bld.Fresh();
    r := bld.Parse(None);
  }

  method NextCall(bld: Builder, ghost started: bool, ghost last: Result) returns (r: Result)
    requires AfterCall(bld, started, last)
    modifies bld, bld.parser
    ensures AfterCall(bld, started, r) && Follows(started, last, r) && GoodResult(r)
  {
    hide Builder.Valid, AcceptAll, GoodNode, AliasesBound, Unparse, Accept;
    r := bld.Parse(None);
  }

  /** Any number of calls on any tokens. A call panics exactly if the stream has a start and an
      earlier call has failed because the parser did; and every result but a document is that of
      all later calls, save that such a failure turns into a panic, or, if the stream has no start,
      into the failure to find it. */
  method Calls(tokens: seq<Token>, n: nat) returns (rs: seq<Result>)
    ensures |rs| == n
    ensures forall i {:trigger rs[i]} :: 0 <= i < n ==>
        (rs[i].Panicked? <==> StartsStream(tokens) && Failed(Syntax) in rs[..i])
    ensures forall i {:trigger rs[i]} :: 0 < i < n ==> Follows(StartsStream(tokens), rs[i - 1], rs[i])
    ensures forall i {:trigger rs[i]} :: 0 <= i < n ==> GoodResult(rs[i])
    ensures n > 0 && |tokens| <= 1 ==> rs[0] == Failed(Syntax)
  {
    hide AfterCall, Follows, GoodResult;
    rs := [];
    if n == 0 { return; }
    ghost var started := StartsStream(tokens);
    var bld, r := FirstCall(tokens);
    rs := [r];
    while |rs| < n
      invariant 0 < |rs| <= n && fresh(bld) && fresh(bld.parser)
      invariant rs[|rs| - 1] == r && AfterCall(bld, started, r)
      invariant forall i {:trigger rs[i]} :: 0 <= i < |rs| ==>
          (rs[i].Panicked? <==> started && Failed(Syntax) in rs[..i])
      invariant forall i {:trigger rs[i]} :: 0 < i < |rs| ==> Follows(started, rs[i - 1], rs[i])
      invariant forall i {:trigger rs[i]} :: 0 <= i < |rs| ==> GoodResult(rs[i])
      invariant |tokens| <= 1 ==> rs[0] == Failed(Syntax)
    {
      ghost var before := rs;
      r := NextCall(bld, started, r);
      rs := rs + [r];
      PanicStep(started, before, r);
    }
  }

  /** A failure of the parser in an earlier call shows in the last result. */
  lemma PanicStep(started: bool, rs: seq<Result>, r: Result)
    requires rs != [] && Follows(started, rs[|rs| - 1], r)
    requires forall i {:trigger rs[i]} :: 0 <= i < |rs| ==>
        (rs[i].Panicked? <==> started && Failed(Syntax) in rs[..i])
    ensures forall i {:trigger (rs + [r])[i]} :: 0 <= i < |rs| + 1 ==>
        ((rs + [r])[i].Panicked? <==> started && Failed(Syntax) in (rs + [r])[..i])
  {
    var n := |rs|;
    forall i | 0 <= i < n + 1
      ensures (rs + [r])[i].Panicked? <==> started && Failed(Syntax) in (rs + [r])[..i]
    {
      assert (rs + [r])[..i] == rs[..i];
      if i == n {
        assert rs[..n] == rs[..n - 1] + [rs[n - 1]] == rs;
      } else {
        assert (rs + [r])[i] == rs[i];
      }
    }
  }

  /** A stream that breaks off right after its start: the second call panics. */
  method PanicsOnSecondCall() returns (first: Result, second: Result)
    ensures first == Failed(Syntax) && second == Panicked
  {
    var rs := Calls([StreamStartToken], 2);
    first, second := rs[0], rs[1];
    assert rs[..1] == [first];
  }

  /** One that has no start: it does not. */
  method FailsOnSecondCall() returns (first: Result, second: Result)
    ensures first == Failed(Syntax) && second == Failed(Unexpected)
  {
    var rs := Calls([], 2);
    first, second := rs[0], rs[1];
  }

  // ----- whole runs -----

  lemma AcceptSnoc(es: seq<Event>, st: Stack, e: Event)
    requires AcceptAll([ToStart], es) == Some(st)
    ensures AcceptAll([ToStart], es + [e]) == Accept(st, e)
  {
    ConsumeOne([ToStart], es, st, e);
  }

  /** All events for any tokens: they are the beginning of a stream of documents, and all of it if
      there was no error; and if the tokens present documents, there is none and the events are theirs. */
  method AllEvents(tokens: seq<Token>) returns (es: seq<Event>, failed: bool)
    ensures exists ds :: GoodDocs(ds) && es <= UnparseStream(ds) && (!failed ==> es == UnparseStream(ds))
    ensures Ran(tokens, es, failed)
    ensures forall ds {:trigger StreamTokens(ds)} :: GoodStream(ds) && tokens == StreamTokens(ds) ==>
        (!failed && es == UnparseStream(Documents(ds)) <==> KeyedStream(ds))
  {
    var parser := new Parser(tokens);
    es, failed := [], false;
    hide Parser.Inv, Parser.Potential, Accept, AcceptAll, Parser.Stack, Step, GoodStream, KeyedStream, StreamTokens,
        Documents, UnparseStream;
    NothingYet();
    ghost var last := parser.Cfg();
    while true
      invariant !parser.error && parser.Inv() && AcceptAll([ToStart], es) == Some(parser.Stack())
      invariant Feed(Start(tokens), es) == Some(parser.Cfg())
      decreases parser.Potential()
    {
      ghost var before := parser.Stack();
      last := parser.Cfg();
      if parser.state.InEnd? { AtEnd(parser); }
      var ok, e := parser.Parse();
      if !ok {
        failed := true;
        break;
      }
      if e.None? { break; }
      AcceptSnoc(es, before, e.value);
      FeedSnoc(Start(tokens), es, last, e.value);
      es := es + [e.value];
    }
    PrefixOrAll(es);
    EndStops(last);
    assert Ran(tokens, es, failed);
    RanPresentations(tokens, es, failed);
  }

  lemma FeedSnoc(c0: Config, es: seq<Event>, c: Config, e: Event)
    requires Feed(c0, es) == Some(c) && Step(c).Emit? && Step(c).e == e
    ensures Feed(c0, es + [e]) == Some(Step(c).c)
  {
    FeedConcat(c0, es, [e]);
    FeedIsMove(c, [e]);
    assert [e][1..] == [];
  }

  lemma EndStops(c: Config)
    ensures c.state.InEnd? ==> Step(c).Error?
  {}

  lemma RanPresentations(tokens: seq<Token>, es: seq<Event>, failed: bool)
    requires Ran(tokens, es, failed)
    ensures forall ds {:trigger StreamTokens(ds)} :: GoodStream(ds) && tokens == StreamTokens(ds) ==>
        (!failed && es == UnparseStream(Documents(ds)) <==> KeyedStream(ds))
  {
    hide GoodStream, KeyedStream, StreamTokens, Documents, UnparseStream, Ran;
    forall ds | GoodStream(ds) && tokens == StreamTokens(ds)
      ensures !failed && es == UnparseStream(Documents(ds)) <==> KeyedStream(ds)
    {
      YamlKeyed.RunIff(ds, es, failed);
    }
  }

  lemma NothingYet()
    ensures AcceptAll([ToStart], []) == Some([ToStart])
  {}

  lemma AtEnd(parser: Parser)
    requires parser.Inv() && parser.state.InEnd?
    ensures parser.Stack() == []
  {}

  lemma PrefixOrAll(es: seq<Event>)
    requires AcceptAll([ToStart], es).Some? || AcceptAll([ToStart], es) == Some([])
    ensures exists ds ::
        GoodDocs(ds) && es <= UnparseStream(ds)
        && (AcceptAll([ToStart], es) == Some([]) ==> es == UnparseStream(ds))
  {
    AcceptedIff(es);
    if AcceptAll([ToStart], es) == Some([]) {
      var ds :| GoodDocs(ds) && es == UnparseStream(ds);
    } else {
      AcceptedIsPrefix(es);
    }
  }
}
