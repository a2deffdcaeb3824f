/** How trees are presented as tokens, in all the styles of YAML, and that the parser reads every such
    presentation back: it emits the events of the trees, and fails nowhere. */
module YamlPresent {
  import opened Options
  import opened YamlEvents
  import opened YamlSteps

  // ----- presentations -----

  /** The anchor and the tag of a node, and which comes first. */
  datatype Props = Props(anchor: Option<string>, tag: Option<(string, string)>, tagFirst: bool)

  datatype Form =
    | AliasForm(name: string)
    | ScalarForm(props: Props, text: string, plain: bool)
    | EmptyForm(props: Props)
    | BlockSeq(props: Props, items: seq<Form>)
    | Indentless(props: Props, items: seq<Form>)
    | BlockMap(props: Props, pairs: seq<Pair>)
    | FlowSeq(props: Props, entries: seq<Entry>, comma: bool)
    | FlowMap(props: Props, entries: seq<Entry>, comma: bool)

  /** A key with its indicator, and a value with its own or none. */
  datatype Pair = Pair(key: Form, value: Option<Form>)

  /** An entry of a flow collection: a node, which is a key without value in a mapping; or a pair, which
      is a mapping of its own in a sequence. */
  datatype Entry = Item(node: Form) | Single(pair: Pair)

  function PropTokens(p: Props): seq<Token> {
    var a := if p.anchor.Some? then [Anchor(p.anchor.value)] else [];
    var t := if p.tag.Some? then [Tag(p.tag.value.0, p.tag.value.1)] else [];
    if p.tagFirst then t + a else a + t
  }

  function Tokens(f: Form): seq<Token>
    decreases f, 2, 0
  {
    match f
    case AliasForm(name) => [AliasToken(name)]
    case ScalarForm(p, text, plain) => PropTokens(p) + [ScalarToken(text, plain)]
    case EmptyForm(p) => PropTokens(p)
    case BlockSeq(p, _) => PropTokens(p) + ([BlockSequenceStart] + (ItemTokens(f, 0) + [BlockEnd]))
    case Indentless(p, _) => PropTokens(p) + ItemTokens(f, 0)
    case BlockMap(p, _) => PropTokens(p) + ([BlockMappingStart] + (PairTokens(f, 0) + [BlockEnd]))
    case FlowSeq(p, _, comma) =>
      PropTokens(p) + ([FlowSequenceStart] + (EntryTokens(f, 0) + (Comma(comma) + [FlowSequenceEnd])))
    case FlowMap(p, _, comma) =>
      PropTokens(p) + ([FlowMappingStart] + (EntryTokens(f, 0) + (Comma(comma) + [FlowMappingEnd])))
  }

  function Comma(comma: bool): seq<Token> {
    if comma then [FlowEntry] else []
  }

  /** The items from `i` on. */
  function ItemTokens(f: Form, i: nat): seq<Token>
    requires (f.BlockSeq? || f.Indentless?) && i <= |f.items|
    decreases f, 1, |f.items| - i
  {
    if i == |f.items| then [] else [BlockEntry] + (Tokens(f.items[i]) + ItemTokens(f, i + 1))
  }

  function PairTokens(f: Form, i: nat): seq<Token>
    requires f.BlockMap? && i <= |f.pairs|
    decreases f, 1, |f.pairs| - i
  {
    if i == |f.pairs| then [] else TokensOfPair(f.pairs[i]) + PairTokens(f, i + 1)
  }

  function TokensOfPair(p: Pair): seq<Token>
    decreases p, 0, 0
  {
    [Key] + (Tokens(p.key) + if p.value.Some? then [Value] + Tokens(p.value.value) else [])
  }

  /** The entries from `i` on, each but the first after a comma. */
  function EntryTokens(f: Form, i: nat): seq<Token>
    requires (f.FlowSeq? || f.FlowMap?) && i <= |f.entries|
    decreases f, 1, |f.entries| - i
  {
    if i == |f.entries| then []
    else
      Comma(i > 0) +
      ((match f.entries[i] case Item(node) => Tokens(node) case Single(pair) => TokensOfPair(pair))
          + EntryTokens(f, i + 1))
  }

  // ----- the trees that are meant -----

  /** A tag with its handle replaced by the prefix that is declared for it. */
  function TagOf(dirs: map<string, string>, tag: Option<(string, string)>): string {
    if tag.None? then ""
    else if tag.value.0 in dirs && tag.value.0 != "" then dirs[tag.value.0] + tag.value.1
    else tag.value.1
  }

  predicate HasProps(p: Props) {
    p.anchor.Some? || p.tag.Some?
  }

  /** A scalar is to be resolved by its text if it is plain without a tag, or if its tag says so. */
  function ScalarOf(dirs: map<string, string>, p: Props, text: string, plain: bool): Event {
    var tag := TagOf(dirs, p.tag);
    Scalar(p.anchor, tag, text, tag == "!" || (tag == "" && plain), tag == "" && !plain)
  }

  function TreeOf(f: Form, dirs: map<string, string>): Node
    decreases f, 2, 0
  {
    match f
    case AliasForm(name) => Leaf(Alias(name))
    case ScalarForm(p, text, plain) => Leaf(ScalarOf(dirs, p, text, plain))
    case EmptyForm(p) => Leaf(Scalar(p.anchor, TagOf(dirs, p.tag), "", TagOf(dirs, p.tag) == "", false))
    case BlockSeq(p, _) => Sequence(SequenceStart(p.anchor, TagOf(dirs, p.tag)), ItemNodes(f, dirs, 0))
    case Indentless(p, _) => Sequence(SequenceStart(p.anchor, TagOf(dirs, p.tag)), ItemNodes(f, dirs, 0))
    case BlockMap(p, _) => Mapping(MappingStart(p.anchor, TagOf(dirs, p.tag)), PairNodes(f, dirs, 0))
    case FlowSeq(p, _, _) => Sequence(SequenceStart(p.anchor, TagOf(dirs, p.tag)), EntryNodes(f, dirs, 0))
    case FlowMap(p, _, _) => Mapping(MappingStart(p.anchor, TagOf(dirs, p.tag)), EntryNodes(f, dirs, 0))
  }

  const NOTHING := Leaf(EMPTY_SCALAR)

  function ItemNodes(f: Form, dirs: map<string, string>, i: nat): seq<Node>
    requires (f.BlockSeq? || f.Indentless?) && i <= |f.items|
    decreases f, 1, |f.items| - i
  {
    if i == |f.items| then [] else [TreeOf(f.items[i], dirs)] + ItemNodes(f, dirs, i + 1)
  }

  function PairNodes(f: Form, dirs: map<string, string>, i: nat): seq<Node>
    requires f.BlockMap? && i <= |f.pairs|
    decreases f, 1, |f.pairs| - i
  {
    if i == |f.pairs| then [] else NodesOfPair(f.pairs[i], dirs) + PairNodes(f, dirs, i + 1)
  }

  function NodesOfPair(p: Pair, dirs: map<string, string>): (ns: seq<Node>)
    ensures |ns| == 2
    decreases p, 0, 0
  {
    [TreeOf(p.key, dirs)] + [if p.value.Some? then TreeOf(p.value.value, dirs) else NOTHING]
  }

  function EntryNodes(f: Form, dirs: map<string, string>, i: nat): seq<Node>
    requires (f.FlowSeq? || f.FlowMap?) && i <= |f.entries|
    decreases f, 1, |f.entries| - i
  {
    if i == |f.entries| then []
    else
      (match f.entries[i]
       case Item(node) => if f.FlowMap? then [TreeOf(node, dirs)] + [NOTHING] else [TreeOf(node, dirs)]
       case Single(pair) =>
         if f.FlowMap? then NodesOfPair(pair, dirs) else [Mapping(MappingStart(None, ""), NodesOfPair(pair, dirs))])
      + EntryNodes(f, dirs, i + 1)
  }

  // ----- which presentations there are -----

  /** A handle must be declared, and the tag must not be empty then. */
  predicate GoodProps(p: Props, dirs: map<string, string>) {
    p.tag.Some? && p.tag.value.0 != "" ==> p.tag.value.0 in dirs && dirs[p.tag.value.0] + p.tag.value.1 != ""
  }

  /** A node without any token. */
  predicate IsNothing(f: Form) {
    f.EmptyForm? && !HasProps(f.props)
  }

  /** In block context `block` forms may stand, and where `dense` also sequences without indentation. A
      plain scalar is not empty, and properties without content hold something. */
  predicate Good(f: Form, dirs: map<string, string>, block: bool, dense: bool)
    decreases f, 1
  {
    match f
    case AliasForm(_) => true
    case ScalarForm(p, text, plain) => GoodProps(p, dirs) && (plain ==> text != "")
    case EmptyForm(p) =>
      GoodProps(p, dirs) && (HasProps(p) ==> (p.anchor.Some? && p.anchor.value != "") || TagOf(dirs, p.tag) != "")
    case BlockSeq(p, items) =>
      block && GoodProps(p, dirs) && forall i :: 0 <= i < |items| ==> Good(items[i], dirs, true, false)
    case Indentless(p, items) =>
      && block && dense && items != [] && GoodProps(p, dirs)
      && forall i :: 0 <= i < |items| ==> Good(items[i], dirs, true, false)
    case BlockMap(p, pairs) =>
      block && GoodProps(p, dirs) && forall i :: 0 <= i < |pairs| ==> GoodPair(pairs[i], dirs, true)
    case FlowSeq(p, entries, comma) =>
      && GoodProps(p, dirs) && (comma ==> entries != [])
      && forall i :: 0 <= i < |entries| ==> GoodEntry(entries[i], dirs)
    case FlowMap(p, entries, comma) =>
      && GoodProps(p, dirs) && (comma ==> entries != [])
      && forall i :: 0 <= i < |entries| ==> GoodEntry(entries[i], dirs)
  }

  predicate GoodPair(p: Pair, dirs: map<string, string>, block: bool)
    decreases p, 0
  {
    Good(p.key, dirs, block, block) && (p.value.Some? ==> Good(p.value.value, dirs, block, block))
  }

  /** There are no empty entries, but keys and values of pairs may be empty. */
  predicate GoodEntry(e: Entry, dirs: map<string, string>)
    decreases e, 0
  {
    match e
    case Item(node) => Good(node, dirs, false, false) && !IsNothing(node)
    case Single(pair) => GoodPair(pair, dirs, false)
  }

  /** The single pairs of flow sequences have keys, as far as the parser needs them. Without a key it
      passes over the token that follows, which does no harm if that is the indicator of an empty value,
      or a comma after the last entry. */
  predicate Keyed(f: Form)
    decreases f, 1
  {
    match f
    case BlockSeq(_, items) => forall i :: 0 <= i < |items| ==> Keyed(items[i])
    case Indentless(_, items) => forall i :: 0 <= i < |items| ==> Keyed(items[i])
    case BlockMap(_, pairs) => forall i :: 0 <= i < |pairs| ==> KeyedPair(pairs[i])
    case FlowSeq(_, entries, comma) =>
      forall i :: 0 <= i < |entries| ==>
        KeyedEntry(entries[i]) && (entries[i].Single? ==> Spared(entries[i].pair, comma && i == |entries| - 1))
    case FlowMap(_, entries, _) => forall i :: 0 <= i < |entries| ==> KeyedEntry(entries[i])
    case _ => true
  }

  predicate KeyedPair(p: Pair)
    decreases p, 0
  {
    Keyed(p.key) && (p.value.Some? ==> Keyed(p.value.value))
  }

  predicate KeyedEntry(e: Entry)
    decreases e, 0
  {
    match e
    case Item(node) => Keyed(node)
    case Single(pair) => KeyedPair(pair)
  }

  /** A single pair that is read right, `last` if it is followed by a comma and the end. */
  predicate Spared(p: Pair, last: bool) {
    IsNothing(p.key) ==> if p.value.Some? then IsNothing(p.value.value) else last
  }

  // ----- runs of the parser -----

  /** The configuration after these events, if the parser emits them. */
  function Feed(c: Config, es: seq<Event>): Option<Config>
    decreases |es|, 0
  {
    if es == [] then Some(c) else FeedMove(Step(c), es)
  }

  function FeedMove(m: Move, es: seq<Event>): Option<Config>
    requires es != []
    decreases |es| - 1, 1
  {
    if m.Emit? && m.e == es[0] then Feed(m.c, es[1..]) else None
  }

  lemma {:induction false} FeedConcat(c: Config, a: seq<Event>, b: seq<Event>)
    ensures Feed(c, a + b) == if Feed(c, a).None? then None else Feed(Feed(c, a).value, b)
    decreases |a|
  {
    if a == [] {
      assert a + b == b;
    } else {
      assert (a + b)[0] == a[0] && (a + b)[1..] == a[1..] + b;
      if Step(c).Emit? { FeedConcat(Step(c).c, a[1..], b); }
    }
  }

  lemma MoveConcat(m: Move, a: seq<Event>, b: seq<Event>)
    requires a != []
    ensures FeedMove(m, a + b) == if FeedMove(m, a).None? then None else Feed(FeedMove(m, a).value, b)
  {
    assert (a + b)[0] == a[0] && (a + b)[1..] == a[1..] + b;
    if m.Emit? { FeedConcat(m.c, a[1..], b); }
  }

  /** Where the parser is after a node. */
  function Done(tokens: seq<Token>, states: seq<State>, tags: seq<(string, string)>): Config
    requires states != []
  {
    Config(tokens, states[|states| - 1], states[..|states| - 1], tags)
  }

  // ----- nodes -----

  /** The directives at hand declare these prefixes. */
  ghost predicate Declared(tags: seq<(string, string)>, dirs: map<string, string>) {
    forall h :: PrefixFor(tags, h) == if h in dirs then Some(dirs[h]) else None
  }

  lemma TagReads(tags: seq<(string, string)>, dirs: map<string, string>, p: Props)
    requires Declared(tags, dirs) && GoodProps(p, dirs)
    ensures TagText(tags, p.tag) == Some(TagOf(dirs, p.tag))
  {}

  /** Tokens that cannot start or go on with a node. */
  predicate Ends(t: Token) {
    || t.BlockEntry? || t.BlockEnd? || t.Key? || t.Value? || t.FlowEntry? || t.FlowSequenceEnd? || t.FlowMappingEnd?
    || t.DocumentStartToken? || t.DocumentEndToken? || t.StreamEndToken? || IsDirective(t)
  }

  /** What a node may be followed by. */
  predicate Follows(rest: seq<Token>, dense: bool) {
    rest != [] && Ends(rest[0]) && (dense ==> rest[0].Key? || rest[0].Value? || rest[0].BlockEnd?)
  }

  lemma PropsRead(p: Props, u: seq<Token>, c: Config)
    requires c.tokens == PropTokens(p) + u && u != [] && !u[0].Anchor? && !u[0].Tag?
    ensures PropertiesAt(c) == Properties(p.anchor, p.tag, c.(tokens := u))
  {
    if HasProps(p) {
      var c1 := Next(c);
      assert c.tokens == [c.tokens[0]] + c1.tokens;
      if p.anchor.Some? && p.tag.Some? {
        assert c1.tokens == [c1.tokens[0]] + u && c1.tokens[1..] == u;
      } else {
        assert c1.tokens == u;
      }
    } else {
      assert c.tokens == u;
    }
  }

  /** A node after its properties. */
  lemma NodeIsContent(p: Props, u: seq<Token>, c: Config, dirs: map<string, string>, block: bool, dense: bool)
    requires c.tokens == PropTokens(p) + u && u != [] && !u[0].Anchor? && !u[0].Tag? && !u[0].AliasToken?
    requires Declared(c.tags, dirs) && GoodProps(p, dirs)
    ensures NodeAt(c, block, dense) == ContentAt(c.(tokens := u), block, dense, p.anchor, TagOf(dirs, p.tag))
  {
    hide Declared, ContentAt;
    PropsRead(p, u, c);
    TagReads(c.tags, dirs, p);
    assert !Head(c).AliasToken?;
  }

  lemma UnparseSequence(e: Event, kids: seq<Node>)
    ensures Unparse(Node.Sequence(e, kids)) == [e] + (UnparseAll(kids) + [SequenceEnd])
  {
    KidsAreAll(Node.Sequence(e, kids), 0);
  }

  lemma UnparseMapping(e: Event, kids: seq<Node>)
    ensures Unparse(Mapping(e, kids)) == [e] + (UnparseAll(kids) + [MappingEnd])
  {
    KidsAreAll(Mapping(e, kids), 0);
  }

  lemma {:induction false} UnparseJoin(a: seq<Node>, b: seq<Node>)
    ensures UnparseAll(a + b) == UnparseAll(a) + UnparseAll(b)
    decreases |a|
  {
    if a == [] {
      assert a + b == b;
    } else {
      assert (a + b)[1..] == a[1..] + b;
      UnparseJoin(a[1..], b);
    }
  }

  lemma UnparseOne(n: Node)
    ensures UnparseAll([n]) == Unparse(n)
  {
    assert [n][1..] == [];
  }

  lemma UnparseTwo(a: Node, b: Node)
    ensures UnparseAll([a] + [b]) == Unparse(a) + Unparse(b)
  {
    UnparseJoin([a], [b]);
    UnparseOne(a);
    UnparseOne(b);
  }

  lemma NothingIs(f: Form, dirs: map<string, string>)
    requires IsNothing(f)
    ensures Tokens(f) == [] && Unparse(TreeOf(f, dirs)) == [EMPTY_SCALAR] == Unparse(NOTHING)
  {}

  /** The first token of a node that has one. */
  lemma FirstToken(f: Form, dirs: map<string, string>, block: bool, dense: bool)
    requires Good(f, dirs, block, dense) && !IsNothing(f)
    ensures Tokens(f) != [] && (Ends(Tokens(f)[0]) ==> dense && Tokens(f)[0].BlockEntry?)
  {
    match f
    case Indentless(p, items) =>
      assert ItemTokens(f, 0)[0] == BlockEntry;
    case _ =>
  }

  lemma EventsSome(f: Form, dirs: map<string, string>)
    ensures Unparse(TreeOf(f, dirs)) != []
  {}

  /** A node that has tokens is read where it stands; after it the parser goes on with the state on top
      of the stack. */
  lemma {:induction false} NodeReads(f: Form, dirs: map<string, string>, block: bool, dense: bool, c: Config,
      rest: seq<Token>)
    requires Good(f, dirs, block, dense) && Keyed(f) && !IsNothing(f) && Declared(c.tags, dirs)
    requires c.states != [] && c.tokens == Tokens(f) + rest && Follows(rest, dense)
    ensures Unparse(TreeOf(f, dirs)) != []
    ensures FeedMove(NodeAt(c, block, dense), Unparse(TreeOf(f, dirs))) == Some(Done(rest, c.states, c.tags))
    decreases f, 3
  {
    hide Declared, Keyed;
    match f
    case AliasForm(name) => AliasReads(f, dirs, block, dense, c, rest);
    case ScalarForm(_, _, _) => ScalarReads(f, dirs, block, dense, c, rest);
    case EmptyForm(_) => EmptyReads(f, dirs, block, dense, c, rest);
    case BlockSeq(_, _) => BlockSeqReads(f, dirs, block, dense, c, rest);
    case Indentless(_, _) => IndentlessReads(f, dirs, block, dense, c, rest);
    case BlockMap(_, _) => BlockMapReads(f, dirs, block, dense, c, rest);
    case FlowSeq(_, _, _) => FlowSeqReads(f, dirs, block, dense, c, rest);
    case FlowMap(_, _, _) => FlowMapReads(f, dirs, block, dense, c, rest);
  }

  lemma AliasReads(f: Form, dirs: map<string, string>, block: bool, dense: bool, c: Config, rest: seq<Token>)
    requires f.AliasForm? && c.states != [] && c.tokens == Tokens(f) + rest
    ensures FeedMove(NodeAt(c, block, dense), Unparse(TreeOf(f, dirs))) == Some(Done(rest, c.states, c.tags))
  {
    assert c.tokens[1..] == rest;
  }

  lemma ScalarReads(f: Form, dirs: map<string, string>, block: bool, dense: bool, c: Config, rest: seq<Token>)
    requires f.ScalarForm? && Good(f, dirs, block, dense) && Declared(c.tags, dirs)
    requires c.states != [] && c.tokens == Tokens(f) + rest
    ensures FeedMove(NodeAt(c, block, dense), Unparse(TreeOf(f, dirs))) == Some(Done(rest, c.states, c.tags))
  {
    hide Declared, NodeAt;
    var u := [ScalarToken(f.text, f.plain)] + rest;
    assert c.tokens == PropTokens(f.props) + u && u[1..] == rest;
    NodeIsContent(f.props, u, c, dirs, block, dense);
  }

  lemma EmptyReads(f: Form, dirs: map<string, string>, block: bool, dense: bool, c: Config, rest: seq<Token>)
    requires f.EmptyForm? && HasProps(f.props) && Good(f, dirs, block, dense) && Declared(c.tags, dirs)
    requires c.states != [] && c.tokens == Tokens(f) + rest && Follows(rest, dense)
    ensures FeedMove(NodeAt(c, block, dense), Unparse(TreeOf(f, dirs))) == Some(Done(rest, c.states, c.tags))
  {
    hide Declared, NodeAt;
    NodeIsContent(f.props, rest, c, dirs, block, dense);
  }

  /** A node, or nothing, in front of `rest`, where the parser decides by the next token. */
  lemma {:induction false} PartReads(f: Form, dirs: map<string, string>, block: bool, dense: bool, c: Config, s: State,
      rest: seq<Token>, m: Move)
    requires Good(f, dirs, block, dense) && Keyed(f) && Declared(c.tags, dirs)
    requires c.tokens == Tokens(f) + rest && Follows(rest, dense)
    requires m == if IsNothing(f) then EmptyBefore(c, s) else NodeBefore(c, s, block, dense)
    ensures Unparse(TreeOf(f, dirs)) != []
    ensures FeedMove(m, Unparse(TreeOf(f, dirs))) == Some(Config(rest, s, c.states, c.tags))
    decreases f, 4
  {
    hide Declared, Keyed, Good;
    if IsNothing(f) {
      NothingIs(f, dirs);
      assert c.tokens == rest;
    } else {
      var d := c.(states := c.states + [s]);
      NodeReads(f, dirs, block, dense, d, rest);
      assert d.states[..|d.states| - 1] == c.states;
    }
  }

  /** What is at hand at a node, or at nothing. */
  lemma HeadIs(f: Form, dirs: map<string, string>, block: bool, dense: bool, rest: seq<Token>, c: Config)
    requires Good(f, dirs, block, dense) && c.tokens == Tokens(f) + rest && rest != []
    ensures IsNothing(f) ==> Head(c) == rest[0]
    ensures !IsNothing(f) ==> !Ends(Head(c)) || (dense && Head(c).BlockEntry?)
  {
    if IsNothing(f) {
      NothingIs(f, dirs);
      assert c.tokens == rest;
    } else {
      FirstToken(f, dirs, block, dense);
      assert c.tokens[0] == Tokens(f)[0];
    }
  }

  /** After some events the parser takes its next step. */
  lemma GoOn(m: Move, a: seq<Event>, b: seq<Event>, c: Config)
    requires a != [] && b != [] && FeedMove(m, a) == Some(c)
    ensures FeedMove(m, a + b) == FeedMove(Step(c), b)
  {
    MoveConcat(m, a, b);
  }

  /** Some events, and then some more. */
  lemma Together(m: Move, a: seq<Event>, b: seq<Event>, c: Config, d: Config)
    requires a != [] && b != [] && FeedMove(m, a) == Some(c) && FeedMove(Step(c), b) == Some(d)
    ensures FeedMove(m, a + b) == Some(d)
  {
    MoveConcat(m, a, b);
  }

  lemma EmitThen(m: Move, e: Event, b: seq<Event>)
    requires m.Emit? && m.e == e && b != []
    ensures FeedMove(m, [e] + b) == FeedMove(Step(m.c), b)
  {
    assert ([e] + b)[1..] == b;
  }

  /** The state in which a collection is opened by its first token. */
  function FirstState(t: Token): State {
    match t
    case BlockSequenceStart => InBlockSequenceFirstEntry
    case BlockMappingStart => InBlockMappingFirstKey
    case FlowSequenceStart => InFlowSequenceFirstEntry
    case _ => InFlowMappingFirstKey
  }

  /** What the parser does behind the first token of a collection. */
  function FirstMove(t: Token, c: Config): Move {
    match t
    case BlockSequenceStart => BlockSequenceAt(c)
    case BlockMappingStart => BlockKeyAt(c)
    case FlowSequenceStart => FlowSequenceAt(c, true)
    case _ => FlowMappingAt(c, true)
  }

  function FirstEvent(t: Token, anchor: Option<string>, tag: string): Event {
    if t.BlockSequenceStart? || t.FlowSequenceStart? then SequenceStart(anchor, tag) else MappingStart(anchor, tag)
  }

  predicate OpensCollection(t: Token, block: bool) {
    t.FlowSequenceStart? || t.FlowMappingStart? || (block && (t.BlockSequenceStart? || t.BlockMappingStart?))
  }

  lemma ContentOpens(t: Token, v: seq<Token>, c: Config, block: bool, dense: bool, anchor: Option<string>, tag: string)
    requires OpensCollection(t, block) && c.tokens == [t] + v
    ensures ContentAt(c, block, dense, anchor, tag) == Emit(FirstEvent(t, anchor, tag), c.(state := FirstState(t)))
  {}

  lemma FirstStep(t: Token, v: seq<Token>, c: Config)
    requires OpensCollection(t, true) && c.tokens == [t] + v && c.state == FirstState(t)
    ensures Step(c) == FirstMove(t, c.(tokens := v))
  {
    hide BlockSequenceAt, BlockKeyAt, FlowSequenceAt, FlowMappingAt;
    assert c.tokens[1..] == v;
  }

  /** A collection with its properties gives its first event. */
  lemma CollectionStarts(p: Props, t: Token, v: seq<Token>, c: Config, dirs: map<string, string>, block: bool,
      dense: bool)
    requires OpensCollection(t, block) && c.tokens == PropTokens(p) + ([t] + v)
    requires Declared(c.tags, dirs) && GoodProps(p, dirs)
    ensures var d := Config([t] + v, FirstState(t), c.states, c.tags);
      && NodeAt(c, block, dense) == Emit(FirstEvent(t, p.anchor, TagOf(dirs, p.tag)), d)
      && Step(d) == FirstMove(t, Config(v, FirstState(t), c.states, c.tags))
  {
    hide Declared, NodeAt, ContentAt, Step, FirstMove, GoodProps, PropTokens;
    var u := [t] + v;
    NodeIsContent(p, u, c, dirs, block, dense);
    var d := c.(tokens := u);
    ContentOpens(t, v, d, block, dense, p.anchor, TagOf(dirs, p.tag));
    FirstStep(t, v, d.(state := FirstState(t)));
  }

  lemma CollectionOpens(p: Props, t: Token, v: seq<Token>, c: Config, dirs: map<string, string>, block: bool,
      dense: bool, es: seq<Event>)
    requires OpensCollection(t, block) && c.tokens == PropTokens(p) + ([t] + v) && es != []
    requires Declared(c.tags, dirs) && GoodProps(p, dirs)
    ensures FeedMove(NodeAt(c, block, dense), [FirstEvent(t, p.anchor, TagOf(dirs, p.tag))] + es)
         == FeedMove(FirstMove(t, Config(v, FirstState(t), c.states, c.tags)), es)
  {
    hide Declared, NodeAt, FeedMove, Step, FirstMove, GoodProps, PropTokens, OpensCollection, FirstState, FirstEvent;
    CollectionStarts(p, t, v, c, dirs, block, dense);
    EmitThen(NodeAt(c, block, dense), FirstEvent(t, p.anchor, TagOf(dirs, p.tag)), es);
  }

  // ----- block sequences -----

  lemma {:induction false} BlockSeqReads(f: Form, dirs: map<string, string>, block: bool, dense: bool, c: Config,
      rest: seq<Token>)
    requires f.BlockSeq? && Good(f, dirs, block, dense) && Keyed(f) && Declared(c.tags, dirs)
    requires c.states != [] && c.tokens == Tokens(f) + rest
    ensures FeedMove(NodeAt(c, block, dense), Unparse(TreeOf(f, dirs))) == Some(Done(rest, c.states, c.tags))
    decreases f, 2
  {
    hide Declared, NodeAt, FeedMove, BlockSequenceAt, Keyed, Unparse, UnparseAll;
    var v, kids := ItemTokens(f, 0) + ([BlockEnd] + rest), ItemNodes(f, dirs, 0);
    assert c.tokens == PropTokens(f.props) + ([BlockSequenceStart] + v);
    UnparseSequence(SequenceStart(f.props.anchor, TagOf(dirs, f.props.tag)), kids);
    CollectionOpens(f.props, BlockSequenceStart, v, c, dirs, block, dense, UnparseAll(kids) + [SequenceEnd]);
    ItemsAreKeyed(f);
    ItemsRead(f, dirs, 0, Config(v, InBlockSequenceFirstEntry, c.states, c.tags), rest);
  }

  lemma ItemsAreKeyed(f: Form)
    requires (f.BlockSeq? || f.Indentless?) && Keyed(f)
    ensures forall j :: 0 <= j < |f.items| ==> Keyed(f.items[j])
  {}

  lemma {:induction false} ItemsRead(f: Form, dirs: map<string, string>, i: nat, c: Config, rest: seq<Token>)
    requires f.BlockSeq? && i <= |f.items| && Declared(c.tags, dirs)
    requires forall j :: 0 <= j < |f.items| ==> Good(f.items[j], dirs, true, false) && Keyed(f.items[j])
    requires c.states != [] && c.tokens == ItemTokens(f, i) + ([BlockEnd] + rest)
    ensures FeedMove(BlockSequenceAt(c), UnparseAll(ItemNodes(f, dirs, i)) + [SequenceEnd])
         == Some(Done(rest, c.states, c.tags))
    decreases f, 1, |f.items| - i
  {
    hide Declared, Keyed, Good, FeedMove, BlockSequenceAt, Tokens, ItemTokens, ItemNodes, TreeOf, Unparse, UnparseAll;
    if i == |f.items| {
      ItemsEnd(f, dirs, c, rest);
    } else {
      var item, more := f.items[i], ItemTokens(f, i + 1) + ([BlockEnd] + rest);
      var es := UnparseAll(ItemNodes(f, dirs, i + 1)) + [SequenceEnd];
      ItemTokensAre(f, i, [BlockEnd] + rest);
      ItemsFollow(f, i + 1, rest);
      ItemReads(item, dirs, c, more);
      var c2 := Config(more, InBlockSequenceEntry, c.states, c.tags);
      ItemsSplit(f, dirs, i);
      EventsSome(item, dirs);
      GoOn(BlockSequenceAt(c), Unparse(TreeOf(item, dirs)), es, c2);
      ItemsRead(f, dirs, i + 1, c2, rest);
    }
  }

  lemma ItemsEnd(f: Form, dirs: map<string, string>, c: Config, rest: seq<Token>)
    requires f.BlockSeq? && c.states != [] && c.tokens == ItemTokens(f, |f.items|) + ([BlockEnd] + rest)
    ensures FeedMove(BlockSequenceAt(c), UnparseAll(ItemNodes(f, dirs, |f.items|)) + [SequenceEnd])
         == Some(Done(rest, c.states, c.tags))
  {
    assert c.tokens == [BlockEnd] + rest && c.tokens[1..] == rest;
    assert UnparseAll([]) + [SequenceEnd] == [SequenceEnd];
  }

  lemma ItemTokensAre(f: Form, i: nat, u: seq<Token>)
    requires (f.BlockSeq? || f.Indentless?) && i < |f.items|
    ensures ItemTokens(f, i) + u == [BlockEntry] + (Tokens(f.items[i]) + (ItemTokens(f, i + 1) + u))
  {}

  lemma {:induction false} ItemReads(item: Form, dirs: map<string, string>, c: Config, more: seq<Token>)
    requires Good(item, dirs, true, false) && Keyed(item) && Declared(c.tags, dirs)
    requires c.states != [] && c.tokens == [BlockEntry] + (Tokens(item) + more)
    requires Follows(more, false) && (more[0].BlockEntry? || more[0].BlockEnd?)
    ensures FeedMove(BlockSequenceAt(c), Unparse(TreeOf(item, dirs)))
         == Some(Config(more, InBlockSequenceEntry, c.states, c.tags))
    decreases item, 5
  {
    hide Declared, Keyed, Good, FeedMove, NodeBefore, Tokens;
    var d := Next(c);
    assert d.tokens == Tokens(item) + more;
    HeadIs(item, dirs, true, false, more, d);
    PartReads(item, dirs, true, false, d, InBlockSequenceEntry, more, BlockSequenceAt(c));
  }

  lemma ItemsFollow(f: Form, i: nat, rest: seq<Token>)
    requires (f.BlockSeq? || f.Indentless?) && i <= |f.items|
    ensures var more := ItemTokens(f, i) + ([BlockEnd] + rest);
      Follows(more, false) && (more[0].BlockEntry? || more[0].BlockEnd?)
  {
    if i < |f.items| { assert ItemTokens(f, i)[0] == BlockEntry; }
  }

  lemma ItemsSplit(f: Form, dirs: map<string, string>, i: nat)
    requires (f.BlockSeq? || f.Indentless?) && i < |f.items|
    ensures UnparseAll(ItemNodes(f, dirs, i)) + [SequenceEnd]
         == Unparse(TreeOf(f.items[i], dirs)) + (UnparseAll(ItemNodes(f, dirs, i + 1)) + [SequenceEnd])
  {
    UnparseJoin([TreeOf(f.items[i], dirs)], ItemNodes(f, dirs, i + 1));
    UnparseOne(TreeOf(f.items[i], dirs));
  }

  // ----- sequences without indentation -----

  lemma {:induction false} IndentlessReads(f: Form, dirs: map<string, string>, block: bool, dense: bool, c: Config,
      rest: seq<Token>)
    requires f.Indentless? && Good(f, dirs, block, dense) && Keyed(f) && Declared(c.tags, dirs)
    requires c.states != [] && c.tokens == Tokens(f) + rest && Follows(rest, true)
    ensures FeedMove(NodeAt(c, block, dense), Unparse(TreeOf(f, dirs))) == Some(Done(rest, c.states, c.tags))
    decreases f, 2
  {
    hide Declared, NodeAt, FeedMove, IndentlessAt;
    var u := ItemTokens(f, 0) + rest;
    assert c.tokens == PropTokens(f.props) + u && u[0] == BlockEntry;
    NodeIsContent(f.props, u, c, dirs, block, dense);
    var kids := ItemNodes(f, dirs, 0);
    var e := SequenceStart(f.props.anchor, TagOf(dirs, f.props.tag));
    UnparseSequence(e, kids);
    var c1 := c.(tokens := u, state := InIndentlessSequenceEntry);
    EmitThen(NodeAt(c, block, dense), e, UnparseAll(kids) + [SequenceEnd]);
    DenseItemsRead(f, dirs, 0, c1, rest);
    assert Step(c1) == IndentlessAt(c1);
  }

  lemma {:induction false} DenseItemsRead(f: Form, dirs: map<string, string>, i: nat, c: Config, rest: seq<Token>)
    requires f.Indentless? && i <= |f.items| && Declared(c.tags, dirs)
    requires forall j :: 0 <= j < |f.items| ==> Good(f.items[j], dirs, true, false) && Keyed(f.items[j])
    requires c.states != [] && c.tokens == ItemTokens(f, i) + rest && Follows(rest, true)
    ensures FeedMove(IndentlessAt(c), UnparseAll(ItemNodes(f, dirs, i)) + [SequenceEnd])
         == Some(Done(rest, c.states, c.tags))
    decreases f, 1, |f.items| - i
  {
    hide Declared, Keyed, Good, FeedMove, IndentlessAt, Tokens, ItemTokens, ItemNodes, TreeOf, Unparse, UnparseAll;
    if i == |f.items| {
      DenseEnd(f, dirs, c, rest);
    } else {
      var item, more := f.items[i], ItemTokens(f, i + 1) + rest;
      var es := UnparseAll(ItemNodes(f, dirs, i + 1)) + [SequenceEnd];
      ItemTokensAre(f, i, rest);
      DenseFollow(f, i + 1, rest);
      DenseItemReads(item, dirs, c, more);
      var c2 := Config(more, InIndentlessSequenceEntry, c.states, c.tags);
      ItemsSplit(f, dirs, i);
      EventsSome(item, dirs);
      GoOn(IndentlessAt(c), Unparse(TreeOf(item, dirs)), es, c2);
      DenseItemsRead(f, dirs, i + 1, c2, rest);
    }
  }

  lemma DenseEnd(f: Form, dirs: map<string, string>, c: Config, rest: seq<Token>)
    requires f.Indentless? && c.states != [] && c.tokens == ItemTokens(f, |f.items|) + rest && Follows(rest, true)
    ensures FeedMove(IndentlessAt(c), UnparseAll(ItemNodes(f, dirs, |f.items|)) + [SequenceEnd])
         == Some(Done(rest, c.states, c.tags))
  {
    assert c.tokens == rest;
    assert UnparseAll([]) + [SequenceEnd] == [SequenceEnd];
  }

  lemma DenseFollow(f: Form, i: nat, rest: seq<Token>)
    requires f.Indentless? && i <= |f.items| && Follows(rest, true)
    ensures var more := ItemTokens(f, i) + rest;
      more != [] && (more[0].BlockEntry? || more[0].Key? || more[0].Value? || more[0].BlockEnd?)
  {
    if i < |f.items| { assert ItemTokens(f, i)[0] == BlockEntry; }
  }

  lemma {:induction false} DenseItemReads(item: Form, dirs: map<string, string>, c: Config, more: seq<Token>)
    requires Good(item, dirs, true, false) && Keyed(item) && Declared(c.tags, dirs)
    requires c.states != [] && c.tokens == [BlockEntry] + (Tokens(item) + more)
    requires more != [] && (more[0].BlockEntry? || more[0].Key? || more[0].Value? || more[0].BlockEnd?)
    ensures FeedMove(IndentlessAt(c), Unparse(TreeOf(item, dirs)))
         == Some(Config(more, InIndentlessSequenceEntry, c.states, c.tags))
    decreases item, 5
  {
    hide Declared, Keyed, Good, FeedMove, NodeBefore, Tokens;
    var d := Next(c);
    assert d.tokens == Tokens(item) + more;
    HeadIs(item, dirs, true, false, more, d);
    PartReads(item, dirs, true, false, d, InIndentlessSequenceEntry, more, IndentlessAt(c));
  }

  // ----- block mappings -----

  lemma {:induction false} BlockMapReads(f: Form, dirs: map<string, string>, block: bool, dense: bool, c: Config,
      rest: seq<Token>)
    requires f.BlockMap? && Good(f, dirs, block, dense) && Keyed(f) && Declared(c.tags, dirs)
    requires c.states != [] && c.tokens == Tokens(f) + rest
    ensures FeedMove(NodeAt(c, block, dense), Unparse(TreeOf(f, dirs))) == Some(Done(rest, c.states, c.tags))
    decreases f, 2
  {
    PairsAreKeyed(f);
    hide Declared, NodeAt, FeedMove, BlockKeyAt, Keyed, Unparse, UnparseAll;
    var v, kids := PairTokens(f, 0) + ([BlockEnd] + rest), PairNodes(f, dirs, 0);
    assert c.tokens == PropTokens(f.props) + ([BlockMappingStart] + v);
    UnparseMapping(MappingStart(f.props.anchor, TagOf(dirs, f.props.tag)), kids);
    CollectionOpens(f.props, BlockMappingStart, v, c, dirs, block, dense, UnparseAll(kids) + [MappingEnd]);
    PairsRead(f, dirs, 0, Config(v, InBlockMappingFirstKey, c.states, c.tags), rest);
  }

  lemma PairsAreKeyed(f: Form)
    requires f.BlockMap? && Keyed(f)
    ensures forall j :: 0 <= j < |f.pairs| ==> KeyedPair(f.pairs[j])
  {}

  /** The value of a pair, with its indicator. */
  function ValueTokens(p: Pair): seq<Token> {
    if p.value.Some? then [Value] + Tokens(p.value.value) else []
  }

  function ValueNode(p: Pair, dirs: map<string, string>): Node {
    if p.value.Some? then TreeOf(p.value.value, dirs) else NOTHING
  }

  lemma PairTokensAre(p: Pair, more: seq<Token>)
    ensures TokensOfPair(p) + more == [Key] + (Tokens(p.key) + (ValueTokens(p) + more))
  {}

  lemma {:induction false} PairsRead(f: Form, dirs: map<string, string>, i: nat, c: Config, rest: seq<Token>)
    requires f.BlockMap? && i <= |f.pairs| && Declared(c.tags, dirs)
    requires forall j :: 0 <= j < |f.pairs| ==> GoodPair(f.pairs[j], dirs, true) && KeyedPair(f.pairs[j])
    requires c.states != [] && c.tokens == PairTokens(f, i) + ([BlockEnd] + rest)
    ensures FeedMove(BlockKeyAt(c), UnparseAll(PairNodes(f, dirs, i)) + [MappingEnd])
        == Some(Done(rest, c.states, c.tags))
    decreases f, 1, |f.pairs| - i
  {
    hide Declared, Keyed, Good, FeedMove, TokensOfPair, BlockKeyAt, BlockValueAt, Tokens, PairTokens, ValueTokens,
        PairNodes, TreeOf, ValueNode, Unparse, UnparseAll, GoodPair, KeyedPair;
    if i == |f.pairs| {
      PairsEnd(f, dirs, c, rest);
    } else {
      var p, more := f.pairs[i], PairTokens(f, i + 1) + ([BlockEnd] + rest);
      PairTokensSplit(f, i, [BlockEnd] + rest);
      PairsFollow(f, i + 1, rest);
      PairTokensAre(p, more);
      BlockKeyReads(p, dirs, c, more);
      var c2 := Config(ValueTokens(p) + more, InBlockMappingValue, c.states, c.tags);
      BlockValueReads(p, dirs, c2, more);
      var c3 := Config(more, InBlockMappingKey, c.states, c.tags);
      PairsSplit(f, dirs, i);
      EventsSome(p.key, dirs);
      ValueSome(p, dirs);
      var es := UnparseAll(PairNodes(f, dirs, i + 1)) + [MappingEnd];
      GoOn(BlockValueAt(c2), Unparse(ValueNode(p, dirs)), es, c3);
      GoOn(BlockKeyAt(c), Unparse(TreeOf(p.key, dirs)), Unparse(ValueNode(p, dirs)) + es, c2);
      PairsRead(f, dirs, i + 1, c3, rest);
    }
  }

  lemma PairsEnd(f: Form, dirs: map<string, string>, c: Config, rest: seq<Token>)
    requires f.BlockMap? && c.states != [] && c.tokens == PairTokens(f, |f.pairs|) + ([BlockEnd] + rest)
    ensures FeedMove(BlockKeyAt(c), UnparseAll(PairNodes(f, dirs, |f.pairs|)) + [MappingEnd])
         == Some(Done(rest, c.states, c.tags))
  {
    assert c.tokens == [BlockEnd] + rest && c.tokens[1..] == rest;
    assert UnparseAll([]) + [MappingEnd] == [MappingEnd];
  }

  lemma PairTokensSplit(f: Form, i: nat, u: seq<Token>)
    requires f.BlockMap? && i < |f.pairs|
    ensures PairTokens(f, i) + u == TokensOfPair(f.pairs[i]) + (PairTokens(f, i + 1) + u)
  {}

  lemma ValueSome(p: Pair, dirs: map<string, string>)
    ensures Unparse(ValueNode(p, dirs)) != []
  {
    if p.value.Some? { EventsSome(p.value.value, dirs); }
  }

  lemma PairsFollow(f: Form, i: nat, rest: seq<Token>)
    requires f.BlockMap? && i <= |f.pairs|
    ensures Follows(PairTokens(f, i) + ([BlockEnd] + rest), true)
    ensures !(PairTokens(f, i) + ([BlockEnd] + rest))[0].Value?
  {
    if i < |f.pairs| {
      var u := PairTokens(f, i);
      assert u == TokensOfPair(f.pairs[i]) + PairTokens(f, i + 1) && TokensOfPair(f.pairs[i])[0] == Key;
      assert u[0] == Key;
    }
  }

  lemma PairsSplit(f: Form, dirs: map<string, string>, i: nat)
    requires f.BlockMap? && i < |f.pairs|
    ensures UnparseAll(PairNodes(f, dirs, i)) + [MappingEnd]
         == Unparse(TreeOf(f.pairs[i].key, dirs)) +
            (Unparse(ValueNode(f.pairs[i], dirs)) + (UnparseAll(PairNodes(f, dirs, i + 1)) + [MappingEnd]))
  {
    var p := f.pairs[i];
    UnparseJoin(NodesOfPair(p, dirs), PairNodes(f, dirs, i + 1));
    UnparseTwo(TreeOf(p.key, dirs), ValueNode(p, dirs));
  }

  lemma {:induction false} BlockKeyReads(p: Pair, dirs: map<string, string>, c: Config, more: seq<Token>)
    requires GoodPair(p, dirs, true) && KeyedPair(p) && Declared(c.tags, dirs) && Follows(more, true)
    requires c.states != [] && c.tokens == [Key] + (Tokens(p.key) + (ValueTokens(p) + more))
    ensures Unparse(TreeOf(p.key, dirs)) != []
    ensures FeedMove(BlockKeyAt(c), Unparse(TreeOf(p.key, dirs)))
         == Some(Config(ValueTokens(p) + more, InBlockMappingValue, c.states, c.tags))
    decreases p, 0
  {
    hide Declared, Keyed, Good, FeedMove, NodeBefore, Tokens;
    var d := Next(c);
    var u := ValueTokens(p) + more;
    assert d.tokens == Tokens(p.key) + u && u[0] == if p.value.Some? then Value else more[0];
    HeadIs(p.key, dirs, true, true, u, d);
    PartReads(p.key, dirs, true, true, d, InBlockMappingValue, u, BlockKeyAt(c));
  }

  lemma {:induction false} BlockValueReads(p: Pair, dirs: map<string, string>, c: Config, more: seq<Token>)
    requires GoodPair(p, dirs, true) && KeyedPair(p) && Declared(c.tags, dirs) && Follows(more, true) && !more[0].Value?
    requires c.states != [] && c.tokens == ValueTokens(p) + more
    ensures FeedMove(BlockValueAt(c), Unparse(ValueNode(p, dirs)))
        == Some(Config(more, InBlockMappingKey, c.states, c.tags))
    decreases p, 0
  {
    hide Declared, Keyed, Good, NodeBefore, Tokens;
    if p.value.Some? {
      hide FeedMove;
      var f, d := p.value.value, Next(c);
      assert c.tokens == [Value] + (Tokens(f) + more) && d.tokens == Tokens(f) + more;
      HeadIs(f, dirs, true, true, more, d);
      PartReads(f, dirs, true, true, d, InBlockMappingKey, more, BlockValueAt(c));
    } else {
      assert c.tokens == more;
    }
  }

  // ----- flow sequences -----

  /** What ends a flow collection. */
  function Tail(f: Form, rest: seq<Token>): seq<Token>
    requires f.FlowSeq? || f.FlowMap?
  {
    Comma(f.comma) + ([if f.FlowSeq? then FlowSequenceEnd else FlowMappingEnd] + rest)
  }

  lemma {:induction false} FlowSeqReads(f: Form, dirs: map<string, string>, block: bool, dense: bool, c: Config,
      rest: seq<Token>)
    requires f.FlowSeq? && Good(f, dirs, block, dense) && Keyed(f) && Declared(c.tags, dirs)
    requires c.states != [] && c.tokens == Tokens(f) + rest
    ensures FeedMove(NodeAt(c, block, dense), Unparse(TreeOf(f, dirs))) == Some(Done(rest, c.states, c.tags))
    decreases f, 2
  {
    hide Declared, NodeAt, FeedMove, Good, Keyed, Tokens, EntryTokens, Tail, TreeOf, EntryNodes, Unparse, UnparseAll,
        TagOf,
        GoodProps, PropTokens, Step, FlowSequenceAt, FlowMappingAt;
    GoodHasProps(f, dirs, block, dense);
    FlowTokens(f, rest);
    NodeOfFlow(f, dirs);
    GoodInFlow(f, dirs, block, dense);
    var v, kids := EntryTokens(f, 0) + Tail(f, rest), EntryNodes(f, dirs, 0);
    UnparseSequence(SequenceStart(f.props.anchor, TagOf(dirs, f.props.tag)), kids);
    CollectionOpens(f.props, FlowSequenceStart, v, c, dirs, block, dense, UnparseAll(kids) + [SequenceEnd]);
    EntriesRead(f, dirs, 0, Config(v, InFlowSequenceFirstEntry, c.states, c.tags), rest);
  }

  lemma GoodHasProps(f: Form, dirs: map<string, string>, block: bool, dense: bool)
    requires Good(f, dirs, block, dense) && !f.AliasForm?
    ensures GoodProps(f.props, dirs)
  {}

  lemma GoodInFlow(f: Form, dirs: map<string, string>, block: bool, dense: bool)
    requires (f.FlowSeq? || f.FlowMap?) && Good(f, dirs, block, dense)
    ensures Good(f, dirs, false, false)
  {}

  lemma NodeOfFlow(f: Form, dirs: map<string, string>)
    requires f.FlowSeq? || f.FlowMap?
    ensures f.FlowSeq? ==>
        TreeOf(f, dirs) == Node.Sequence(SequenceStart(f.props.anchor, TagOf(dirs, f.props.tag)),
            EntryNodes(f, dirs, 0))
    ensures f.FlowMap? ==>
        TreeOf(f, dirs) == Mapping(MappingStart(f.props.anchor, TagOf(dirs, f.props.tag)), EntryNodes(f, dirs, 0))
  {}

  lemma EntriesFollow(f: Form, i: nat, rest: seq<Token>)
    requires (f.FlowSeq? || f.FlowMap?) && 0 < i <= |f.entries|
    ensures var more := EntryTokens(f, i) + Tail(f, rest);
      Follows(more, false) && (more[0].FlowEntry? || more[0] == if f.FlowSeq? then FlowSequenceEnd else FlowMappingEnd)
  {
    if i < |f.entries| { assert EntryTokens(f, i)[0] == FlowEntry; }
  }

  /** The tokens of an entry without its comma. */
  function TokensOfEntry(e: Entry): seq<Token> {
    match e case Item(node) => Tokens(node) case Single(pair) => TokensOfPair(pair)
  }

  /** The comma before an entry is passed over. */
  lemma CommaReads(f: Form, i: nat, c: Config, rest: seq<Token>)
    requires (f.FlowSeq? || f.FlowMap?) && i < |f.entries| && c.tokens == EntryTokens(f, i) + Tail(f, rest)
    ensures var d := c.(tokens := TokensOfEntry(f.entries[i]) + (EntryTokens(f, i + 1) + Tail(f, rest)));
      CommaAt(c, i == 0) == Some(d) && (i > 0 ==> Head(c).FlowEntry?) && (i == 0 ==> c == d)
  {
    var u := TokensOfEntry(f.entries[i]) + (EntryTokens(f, i + 1) + Tail(f, rest));
    EntryTokensAre(f, i, Tail(f, rest));
    TailIsSome(f, rest);
    hide EntryTokens, TokensOfEntry, Tail;
    assert |u| > 0;
    if i > 0 { assert c.tokens[1..] == u; } else { assert c.tokens == u; }
  }

  lemma EntryTokensAre(f: Form, i: nat, r: seq<Token>)
    requires (f.FlowSeq? || f.FlowMap?) && i < |f.entries|
    ensures EntryTokens(f, i) + r == Comma(i > 0) + (TokensOfEntry(f.entries[i]) + (EntryTokens(f, i + 1) + r))
  {}

  lemma TailIsSome(f: Form, rest: seq<Token>)
    requires f.FlowSeq? || f.FlowMap?
    ensures |Tail(f, rest)| > 0
  {}

  lemma FlowTokens(f: Form, rest: seq<Token>)
    requires f.FlowSeq? || f.FlowMap?
    ensures Tokens(f) + rest == PropTokens(f.props) +
      ([if f.FlowSeq? then FlowSequenceStart else FlowMappingStart] + (EntryTokens(f, 0) + Tail(f, rest)))
  {
    hide EntryTokens, PropTokens;
  }

  lemma {:induction false} EntriesRead(f: Form, dirs: map<string, string>, i: nat, c: Config, rest: seq<Token>)
    requires f.FlowSeq? && i <= |f.entries| && Declared(c.tags, dirs) && Good(f, dirs, false, false) && Keyed(f)
    requires c.states != [] && c.tokens == EntryTokens(f, i) + Tail(f, rest)
    ensures FeedMove(FlowSequenceAt(c, i == 0), UnparseAll(EntryNodes(f, dirs, i)) + [SequenceEnd])
         == Some(Done(rest, c.states, c.tags))
    decreases f, 1, |f.entries| - i
  {
    FlowSeqFacts(f, dirs);
    hide Declared, FeedMove, FlowItemAt, FlowSequenceAt, Tail, EntryTokens, TokensOfEntry, EntryNodes, EntryNode,
        Unparse,
        UnparseAll, GoodEntry, KeyedEntry, Good, Keyed, Step;
    if i == |f.entries| {
      FlowSeqEnds(f, dirs, c, rest);
    } else {
      var e, more := f.entries[i], EntryTokens(f, i + 1) + Tail(f, rest);
      CommaReads(f, i, c, rest);
      EntriesFollow(f, i + 1, rest);
      var d := c.(tokens := TokensOfEntry(e) + more);
      EntryHead(e, dirs, d, more);
      FlowSequenceIsItem(c, i == 0, d);
      StepIsSequence(Config(more, InFlowSequenceEntry, c.states, c.tags));
      EntriesSplit(f, dirs, i);
      var es := UnparseAll(EntryNodes(f, dirs, i + 1)) + [SequenceEnd];
      var last := f.comma && i == |f.entries| - 1;
      if e.Single? && IsNothing(e.pair.key) && e.pair.value.None? {
        LastPairReads(f, dirs, i, d, rest);
      } else {
        EntryReads(e, dirs, d, more, last);
        var c2 := Config(more, InFlowSequenceEntry, c.states, c.tags);
        EntrySome(e, dirs);
        GoOn(FlowItemAt(d), Unparse(EntryNode(e, dirs)), es, c2);
        EntriesRead(f, dirs, i + 1, c2, rest);
      }
    }
  }

  lemma StepIsSequence(c: Config)
    requires c.state == InFlowSequenceEntry
    ensures Step(c) == FlowSequenceAt(c, false)
  {}

  lemma FlowSeqFacts(f: Form, dirs: map<string, string>)
    requires f.FlowSeq? && Good(f, dirs, false, false) && Keyed(f)
    ensures f.comma ==> f.entries != []
    ensures forall i :: 0 <= i < |f.entries| ==>
      && GoodEntry(f.entries[i], dirs) && KeyedEntry(f.entries[i])
      && (f.entries[i].Single? ==> Spared(f.entries[i].pair, f.comma && i == |f.entries| - 1))
  {}

  lemma FlowSequenceIsItem(c: Config, first: bool, d: Config)
    requires CommaAt(c, first) == Some(d) && (first ==> c == d) && (!first ==> Head(c).FlowEntry?)
    requires d.tokens != [] && !Head(d).FlowSequenceEnd?
    ensures FlowSequenceAt(c, first) == FlowItemAt(d)
  {}

  lemma FlowSeqEnds(f: Form, dirs: map<string, string>, c: Config, rest: seq<Token>)
    requires f.FlowSeq? && (f.comma ==> f.entries != []) && c.states != []
    requires c.tokens == EntryTokens(f, |f.entries|) + Tail(f, rest)
    ensures FeedMove(FlowSequenceAt(c, |f.entries| == 0), UnparseAll(EntryNodes(f, dirs, |f.entries|)) + [SequenceEnd])
         == Some(Done(rest, c.states, c.tags))
  {
    assert UnparseAll([]) + [SequenceEnd] == [SequenceEnd];
    assert c.tokens == Tail(f, rest);
    if f.comma {
      var d := Next(c);
      assert d.tokens == [FlowSequenceEnd] + rest && d.tokens[1..] == rest;
    } else {
      assert c.tokens == [FlowSequenceEnd] + rest && c.tokens[1..] == rest;
    }
  }

  /** The node of an entry of a flow sequence. */
  function EntryNode(e: Entry, dirs: map<string, string>): Node {
    match e
    case Item(node) => TreeOf(node, dirs)
    case Single(pair) => Mapping(MappingStart(None, ""), NodesOfPair(pair, dirs))
  }

  lemma EntrySome(e: Entry, dirs: map<string, string>)
    ensures Unparse(EntryNode(e, dirs)) != []
  {
    if e.Item? { EventsSome(e.node, dirs); }
  }

  lemma EntriesSplit(f: Form, dirs: map<string, string>, i: nat)
    requires f.FlowSeq? && i < |f.entries|
    ensures UnparseAll(EntryNodes(f, dirs, i)) + [SequenceEnd]
         == Unparse(EntryNode(f.entries[i], dirs)) + (UnparseAll(EntryNodes(f, dirs, i + 1)) + [SequenceEnd])
  {
    UnparseJoin([EntryNode(f.entries[i], dirs)], EntryNodes(f, dirs, i + 1));
    UnparseOne(EntryNode(f.entries[i], dirs));
  }

  lemma EntryHead(e: Entry, dirs: map<string, string>, d: Config, more: seq<Token>)
    requires GoodEntry(e, dirs) && d.tokens == TokensOfEntry(e) + more && more != []
    ensures d.tokens != [] && Head(d).Key? == e.Single? && (e.Item? ==> !Ends(Head(d)))
    ensures !Head(d).FlowSequenceEnd? && !Head(d).FlowMappingEnd?
  {
    if e.Item? {
      HeadIs(e.node, dirs, false, false, more, d);
    } else {
      PairTokensAre(e.pair, more);
    }
  }

  lemma PairUnparse(p: Pair, dirs: map<string, string>)
    ensures Unparse(EntryNode(Single(p), dirs)) ==
            [MappingStart(None, "")] + (Unparse(TreeOf(p.key, dirs)) + (Unparse(ValueNode(p, dirs)) + [MappingEnd]))
  {
    UnparseMapping(MappingStart(None, ""), NodesOfPair(p, dirs));
    UnparseTwo(TreeOf(p.key, dirs), ValueNode(p, dirs));
  }

  lemma {:induction false} EntryReads(e: Entry, dirs: map<string, string>, d: Config, more: seq<Token>, last: bool)
    requires GoodEntry(e, dirs) && KeyedEntry(e) && Declared(d.tags, dirs)
    requires e.Single? ==> Spared(e.pair, last) && !(IsNothing(e.pair.key) && e.pair.value.None?)
    requires d.states != [] && d.tokens == TokensOfEntry(e) + more && Follows(more, false)
    requires more[0].FlowEntry? || more[0].FlowSequenceEnd?
    ensures FeedMove(FlowItemAt(d), Unparse(EntryNode(e, dirs)))
        == Some(Config(more, InFlowSequenceEntry, d.states, d.tags))
    decreases e, 0
  {
    hide Declared, Keyed, Good, FeedMove, NodeBefore, TokensOfPair;
    EntryHead(e, dirs, d, more);
    if e.Item? {
      PartReads(e.node, dirs, false, false, d, InFlowSequenceEntry, more, FlowItemAt(d));
    } else {
      var p := e.pair;
      PairTokensAre(p, more);
      PairUnparse(p, dirs);
      var c1 := Next(d).(state := InFlowSequenceEntryMappingKey);
      assert c1.tokens == Tokens(p.key) + (ValueTokens(p) + more);
      PairReads(p, dirs, c1, more, last);
      EmitThen(FlowItemAt(d), MappingStart(None, ""),
          Unparse(TreeOf(p.key, dirs)) + (Unparse(ValueNode(p, dirs)) + [MappingEnd]));
      assert Step(c1) == PairKeyAt(c1);
    }
  }

  /** A single pair after its first event. */
  lemma {:induction false} PairReads(p: Pair, dirs: map<string, string>, c: Config, more: seq<Token>, last: bool)
    requires GoodPair(p, dirs, false) && KeyedPair(p) && Declared(c.tags, dirs)
    requires Spared(p, last) && !(IsNothing(p.key) && p.value.None?)
    requires c.states != [] && c.tokens == Tokens(p.key) + (ValueTokens(p) + more) && Follows(more, false)
    requires more[0].FlowEntry? || more[0].FlowSequenceEnd?
    ensures FeedMove(PairKeyAt(c), Unparse(TreeOf(p.key, dirs)) + (Unparse(ValueNode(p, dirs)) + [MappingEnd]))
         == Some(Config(more, InFlowSequenceEntry, c.states, c.tags))
    decreases p, 1
  {
    hide Declared, Keyed, Good, FeedMove, NodeBefore, TokensOfPair;
    var u := ValueTokens(p) + more;
    var tail := if IsNothing(p.key) then more else u;
    var c2 := Config(tail, InFlowSequenceEntryMappingValue, c.states, c.tags);
    PairKeyReads(p, dirs, c, more, last);
    PairValueReads(p, dirs, c2, more, last);
    var c3 := Config(more, InFlowSequenceEntryMappingEnd, c.states, c.tags);
    EventsSome(p.key, dirs);
    ValueSome(p, dirs);
    GoOn(PairValueAt(c2), Unparse(ValueNode(p, dirs)), [MappingEnd], c3);
    GoOn(PairKeyAt(c), Unparse(TreeOf(p.key, dirs)), Unparse(ValueNode(p, dirs)) + [MappingEnd], c2);
    PairEndReads(c3);
  }

  lemma PairEndReads(c: Config)
    requires c.tokens != [] && c.state == InFlowSequenceEntryMappingEnd
    ensures FeedMove(Step(c), [MappingEnd]) == Some(c.(state := InFlowSequenceEntry))
  {}

  lemma {:induction false} PairKeyReads(p: Pair, dirs: map<string, string>, c: Config, more: seq<Token>, last: bool)
    requires GoodPair(p, dirs, false) && KeyedPair(p) && Declared(c.tags, dirs)
    requires Spared(p, last) && !(IsNothing(p.key) && p.value.None?)
    requires c.states != [] && c.tokens == Tokens(p.key) + (ValueTokens(p) + more) && Follows(more, false)
    requires more[0].FlowEntry? || more[0].FlowSequenceEnd?
    ensures FeedMove(PairKeyAt(c), Unparse(TreeOf(p.key, dirs)))
         == Some(Config(if IsNothing(p.key) then more else ValueTokens(p) + more, InFlowSequenceEntryMappingValue,
                        c.states, c.tags))
    decreases p, 0
  {
    hide Declared, Keyed, NodeBefore;
    var u := ValueTokens(p) + more;
    assert u[0] == if p.value.Some? then Value else more[0];
    HeadIs(p.key, dirs, false, false, u, c);
    if IsNothing(p.key) {
      NothingIs(p.key, dirs);
      NothingIs(p.value.value, dirs);
      assert c.tokens == [Value] + more && c.tokens[1..] == more;
    } else {
      hide FeedMove, Good;
      PartReads(p.key, dirs, false, false, c, InFlowSequenceEntryMappingValue, u, PairKeyAt(c));
    }
  }

  lemma {:induction false} PairValueReads(p: Pair, dirs: map<string, string>, c: Config, more: seq<Token>, last: bool)
    requires GoodPair(p, dirs, false) && KeyedPair(p) && Declared(c.tags, dirs)
    requires Spared(p, last) && !(IsNothing(p.key) && p.value.None?)
    requires c.states != [] && c.tokens == (if IsNothing(p.key) then more else ValueTokens(p) + more)
        && Follows(more, false)
    requires more[0].FlowEntry? || more[0].FlowSequenceEnd?
    ensures FeedMove(PairValueAt(c), Unparse(ValueNode(p, dirs)))
         == Some(Config(more, InFlowSequenceEntryMappingEnd, c.states, c.tags))
    decreases p, 0
  {
    hide Declared, Keyed, NodeBefore, FeedMove, Good, Unparse, TreeOf, Tokens;
    if IsNothing(p.key) {
      NothingIs(p.value.value, dirs);
      EmptyValueReads(c, InFlowSequenceEntryMappingEnd, PairValueAt(c));
    } else if p.value.Some? {
      PairGivenReads(p.value.value, dirs, c, more);
    } else {
      assert c.tokens == more;
      EmptyValueReads(c, InFlowSequenceEntryMappingEnd, PairValueAt(c));
    }
  }

  lemma {:induction false} PairGivenReads(f: Form, dirs: map<string, string>, c: Config, more: seq<Token>)
    requires Good(f, dirs, false, false) && Keyed(f) && Declared(c.tags, dirs) && Follows(more, false)
    requires more[0].FlowEntry? || more[0].FlowSequenceEnd?
    requires c.tokens == [Value] + (Tokens(f) + more)
    ensures FeedMove(PairValueAt(c), Unparse(TreeOf(f, dirs)))
         == Some(Config(more, InFlowSequenceEntryMappingEnd, c.states, c.tags))
    decreases f, 5
  {
    hide Declared, Keyed, NodeBefore, FeedMove, Good, Unparse, TreeOf, Tokens;
    var d := Next(c);
    assert d.tokens == Tokens(f) + more;
    HeadIs(f, dirs, false, false, more, d);
    PartReads(f, dirs, false, false, d, InFlowSequenceEntryMappingEnd, more, PairValueAt(c));
  }

  /** An empty node where nothing is at hand. */
  lemma EmptyValueReads(c: Config, s: State, m: Move)
    requires m == EmptyBefore(c, s)
    ensures FeedMove(m, [EMPTY_SCALAR]) == Some(c.(state := s))
    ensures FeedMove(m, Unparse(NOTHING)) == Some(c.(state := s))
  {
    assert [EMPTY_SCALAR][1..] == [];
  }

  /** A single pair without key and value, before the last comma, which is passed over with it. */
  lemma LastPairReads(f: Form, dirs: map<string, string>, i: nat, d: Config, rest: seq<Token>)
    requires f.FlowSeq? && i < |f.entries| && f.entries[i].Single?
    requires IsNothing(f.entries[i].pair.key) && f.entries[i].pair.value.None? && f.comma && i == |f.entries| - 1
    requires d.states != []
    requires d.tokens == TokensOfEntry(f.entries[i]) + (EntryTokens(f, i + 1) + Tail(f, rest))
    ensures FeedMove(FlowItemAt(d), Unparse(EntryNode(f.entries[i], dirs)) +
                                    (UnparseAll(EntryNodes(f, dirs, i + 1)) + [SequenceEnd]))
         == Some(Done(rest, d.states, d.tags))
  {
    var p := f.entries[i].pair;
    LastPairTokens(f, i, rest);
    LastPairEvents(p, dirs);
    var tail := [FlowSequenceEnd] + rest;
    var es3 := [MappingEnd] + [SequenceEnd];
    var es2 := [EMPTY_SCALAR] + es3;
    var es1 := [EMPTY_SCALAR] + es2;
    assert Unparse(EntryNode(f.entries[i], dirs)) + (UnparseAll([]) + [SequenceEnd]) == [MappingStart(None, "")] + es1;
    hide FeedMove, Unparse, UnparseAll, EntryNode, EntryNodes, EntryTokens, TokensOfEntry, Tail, Step, FlowItemAt, Good,
        Keyed;
    LastPairSteps(d, tail);
    EmitThen(FlowItemAt(d), MappingStart(None, ""), es1);
    var c1 := d.(tokens := [FlowEntry] + tail, state := InFlowSequenceEntryMappingKey);
    EmitThen(Step(c1), EMPTY_SCALAR, es2);
    var c2 := d.(tokens := tail, state := InFlowSequenceEntryMappingValue);
    EmitThen(Step(c2), EMPTY_SCALAR, es3);
    var c3 := c2.(state := InFlowSequenceEntryMappingEnd);
    EmitThen(Step(c3), MappingEnd, [SequenceEnd]);
    EndReads(c3.(state := InFlowSequenceEntry), rest);
  }

  lemma LastPairSteps(d: Config, tail: seq<Token>)
    requires d.tokens == [Key] + ([FlowEntry] + tail) && tail != [] && tail[0].FlowSequenceEnd?
    ensures
      var c1 := d.(tokens := [FlowEntry] + tail, state := InFlowSequenceEntryMappingKey);
      var c2 := c1.(tokens := tail, state := InFlowSequenceEntryMappingValue);
      var c3 := c2.(state := InFlowSequenceEntryMappingEnd);
      && FlowItemAt(d) == Emit(MappingStart(None, ""), c1) && Step(c1) == Emit(EMPTY_SCALAR, c2)
      && Step(c2) == Emit(EMPTY_SCALAR, c3) && Step(c3) == Emit(MappingEnd, c3.(state := InFlowSequenceEntry))
  {
    assert d.tokens[1..] == [FlowEntry] + tail && ([FlowEntry] + tail)[1..] == tail;
  }

  lemma LastPairTokens(f: Form, i: nat, rest: seq<Token>)
    requires f.FlowSeq? && i == |f.entries| - 1 && f.comma && f.entries[i].Single?
    requires IsNothing(f.entries[i].pair.key) && f.entries[i].pair.value.None?
    ensures TokensOfEntry(f.entries[i]) + (EntryTokens(f, i + 1) + Tail(f, rest))
         == [Key] + ([FlowEntry] + ([FlowSequenceEnd] + rest))
  {
    assert Tokens(f.entries[i].pair.key) == [];
    PairTokensAre(f.entries[i].pair, Tail(f, rest));
  }

  lemma LastPairEvents(p: Pair, dirs: map<string, string>)
    requires IsNothing(p.key) && p.value.None?
    ensures Unparse(EntryNode(Single(p), dirs))
         == [MappingStart(None, "")] + ([EMPTY_SCALAR] + ([EMPTY_SCALAR] + [MappingEnd]))
  {
    NothingIs(p.key, dirs);
    PairUnparse(p, dirs);
  }

  lemma EndReads(c: Config, rest: seq<Token>)
    requires c.state == InFlowSequenceEntry && c.tokens == [FlowSequenceEnd] + rest && c.states != []
    ensures FeedMove(Step(c), [SequenceEnd]) == Some(Done(rest, c.states, c.tags))
  {
    assert c.tokens[1..] == rest;
  }

  // ----- flow mappings -----

  lemma {:induction false} FlowMapReads(f: Form, dirs: map<string, string>, block: bool, dense: bool, c: Config,
      rest: seq<Token>)
    requires f.FlowMap? && Good(f, dirs, block, dense) && Keyed(f) && Declared(c.tags, dirs)
    requires c.states != [] && c.tokens == Tokens(f) + rest
    ensures FeedMove(NodeAt(c, block, dense), Unparse(TreeOf(f, dirs))) == Some(Done(rest, c.states, c.tags))
    decreases f, 2
  {
    hide Declared, NodeAt, FeedMove, Good, Keyed, Tokens, EntryTokens, Tail, TreeOf, EntryNodes, Unparse, UnparseAll,
        TagOf,
        GoodProps, PropTokens, Step, FlowSequenceAt, FlowMappingAt;
    GoodHasProps(f, dirs, block, dense);
    FlowTokens(f, rest);
    NodeOfFlow(f, dirs);
    GoodInFlow(f, dirs, block, dense);
    var v, kids := EntryTokens(f, 0) + Tail(f, rest), EntryNodes(f, dirs, 0);
    UnparseMapping(MappingStart(f.props.anchor, TagOf(dirs, f.props.tag)), kids);
    CollectionOpens(f.props, FlowMappingStart, v, c, dirs, block, dense, UnparseAll(kids) + [MappingEnd]);
    MapEntriesRead(f, dirs, 0, Config(v, InFlowMappingFirstKey, c.states, c.tags), rest);
  }

  lemma FlowMapEnds(f: Form, dirs: map<string, string>, c: Config, rest: seq<Token>)
    requires f.FlowMap? && (f.comma ==> f.entries != []) && c.states != []
    requires c.tokens == EntryTokens(f, |f.entries|) + Tail(f, rest)
    ensures FeedMove(FlowMappingAt(c, |f.entries| == 0), UnparseAll(EntryNodes(f, dirs, |f.entries|)) + [MappingEnd])
         == Some(Done(rest, c.states, c.tags))
  {
    assert UnparseAll([]) + [MappingEnd] == [MappingEnd];
    assert c.tokens == Tail(f, rest);
    if f.comma {
      var d := Next(c);
      assert d.tokens == [FlowMappingEnd] + rest && d.tokens[1..] == rest;
    } else {
      assert c.tokens == [FlowMappingEnd] + rest && c.tokens[1..] == rest;
    }
  }

  /** An entry of a flow mapping as a pair. */
  function PairOf(e: Entry): Pair {
    match e case Item(node) => Pair(node, None) case Single(pair) => pair
  }

  lemma MapEntriesSplit(f: Form, dirs: map<string, string>, i: nat)
    requires f.FlowMap? && i < |f.entries|
    ensures var p := PairOf(f.entries[i]);
      UnparseAll(EntryNodes(f, dirs, i)) + [MappingEnd]
         == (Unparse(TreeOf(p.key, dirs)) + Unparse(ValueNode(p, dirs)))
            + (UnparseAll(EntryNodes(f, dirs, i + 1)) + [MappingEnd])
  {
    var p := PairOf(f.entries[i]);
    UnparseJoin(NodesOfPair(p, dirs), EntryNodes(f, dirs, i + 1));
    UnparseTwo(TreeOf(p.key, dirs), ValueNode(p, dirs));
  }

  lemma {:induction false} MapEntriesRead(f: Form, dirs: map<string, string>, i: nat, c: Config, rest: seq<Token>)
    requires f.FlowMap? && i <= |f.entries| && Declared(c.tags, dirs) && Good(f, dirs, false, false) && Keyed(f)
    requires c.states != [] && c.tokens == EntryTokens(f, i) + Tail(f, rest)
    ensures FeedMove(FlowMappingAt(c, i == 0), UnparseAll(EntryNodes(f, dirs, i)) + [MappingEnd])
         == Some(Done(rest, c.states, c.tags))
    decreases f, 1, |f.entries| - i
  {
    FlowMapFacts(f, dirs);
    hide Declared, FeedMove, FlowPairAt, FlowMappingAt, Tail, EntryTokens, TokensOfEntry, EntryNodes, TreeOf, ValueNode,
        Unparse, UnparseAll, GoodEntry, KeyedEntry, Good, Keyed, Step;
    if i == |f.entries| {
      FlowMapEnds(f, dirs, c, rest);
    } else {
      var e, more := f.entries[i], EntryTokens(f, i + 1) + Tail(f, rest);
      CommaReads(f, i, c, rest);
      EntriesFollow(f, i + 1, rest);
      var d := c.(tokens := TokensOfEntry(e) + more);
      EntryHead(e, dirs, d, more);
      FlowMappingIsPair(c, i == 0, d);
      MapEntriesSplit(f, dirs, i);
      MapEntryReads(e, dirs, d, more);
      var c2, p := Config(more, InFlowMappingKey, c.states, c.tags), PairOf(e);
      EventsSome(p.key, dirs);
      GoOn(FlowPairAt(d), Unparse(TreeOf(p.key, dirs)) + Unparse(ValueNode(p, dirs)),
          UnparseAll(EntryNodes(f, dirs, i + 1)) + [MappingEnd], c2);
      StepIsMapping(c2);
      MapEntriesRead(f, dirs, i + 1, c2, rest);
    }
  }

  lemma FlowMapFacts(f: Form, dirs: map<string, string>)
    requires f.FlowMap? && Good(f, dirs, false, false) && Keyed(f)
    ensures f.comma ==> f.entries != []
    ensures forall i :: 0 <= i < |f.entries| ==> GoodEntry(f.entries[i], dirs) && KeyedEntry(f.entries[i])
  {}

  lemma FlowMappingIsPair(c: Config, first: bool, d: Config)
    requires CommaAt(c, first) == Some(d) && (first ==> c == d) && (!first ==> Head(c).FlowEntry?)
    requires d.tokens != [] && !Head(d).FlowMappingEnd?
    ensures FlowMappingAt(c, first) == FlowPairAt(d)
  {}

  lemma {:induction false} MapEntryReads(e: Entry, dirs: map<string, string>, d: Config, more: seq<Token>)
    requires GoodEntry(e, dirs) && KeyedEntry(e) && Declared(d.tags, dirs)
    requires d.states != [] && d.tokens == TokensOfEntry(e) + more && Follows(more, false)
    requires more[0].FlowEntry? || more[0].FlowMappingEnd?
    ensures FeedMove(FlowPairAt(d), Unparse(TreeOf(PairOf(e).key, dirs)) + Unparse(ValueNode(PairOf(e), dirs)))
         == Some(Config(more, InFlowMappingKey, d.states, d.tags))
    decreases e, 0
  {
    hide Declared, Keyed, Good, FeedMove, NodeBefore, TokensOfPair, FlowMappingAt, Unparse, TreeOf, Tokens, ValueNode,
        FlowValueAt;
    EntryHead(e, dirs, d, more);
    var p := PairOf(e);
    var c3 := Config(more, InFlowMappingKey, d.states, d.tags);
    EventsSome(p.key, dirs);
    ValueSome(p, dirs);
    if e.Item? {
      var c2 := Config(more, InFlowMappingEmptyValue, d.states, d.tags);
      PartReads(e.node, dirs, false, false, d, InFlowMappingEmptyValue, more, FlowPairAt(d));
      BareValueReads(c2);
      BareValue(e, dirs);
      StepIsValue(c2);
      Together(FlowPairAt(d), Unparse(TreeOf(p.key, dirs)), Unparse(ValueNode(p, dirs)), c2, c3);
    } else {
      FlowPairReads(p, dirs, d, more);
    }
  }

  lemma BareValue(e: Entry, dirs: map<string, string>)
    requires e.Item?
    ensures ValueNode(PairOf(e), dirs) == NOTHING
  {}

  lemma StepIsMapping(c: Config)
    requires c.state == InFlowMappingKey
    ensures Step(c) == FlowMappingAt(c, false)
  {}

  lemma StepIsValue(c: Config)
    requires c.state == InFlowMappingEmptyValue || c.state == InFlowMappingValue
    ensures Step(c) == FlowValueAt(c, c.state == InFlowMappingEmptyValue)
  {}

  lemma {:induction false} FlowPairReads(p: Pair, dirs: map<string, string>, d: Config, more: seq<Token>)
    requires GoodPair(p, dirs, false) && KeyedPair(p) && Declared(d.tags, dirs)
    requires d.states != [] && d.tokens == TokensOfPair(p) + more && Follows(more, false)
    requires more[0].FlowEntry? || more[0].FlowMappingEnd?
    ensures FeedMove(FlowPairAt(d), Unparse(TreeOf(p.key, dirs)) + Unparse(ValueNode(p, dirs)))
         == Some(Config(more, InFlowMappingKey, d.states, d.tags))
    decreases p, 1
  {
    hide Declared, Keyed, Good, FeedMove, NodeBefore, TokensOfPair, FlowMappingAt, Unparse, TreeOf, Tokens, ValueNode,
        FlowValueAt, FlowKeyAt;
    PairTokensAre(p, more);
    var c1, u := Next(d), ValueTokens(p) + more;
    assert c1.tokens == Tokens(p.key) + u;
    FlowKeyReads(p, dirs, c1, more);
    var c2 := Config(u, InFlowMappingValue, d.states, d.tags);
    var c3 := Config(more, InFlowMappingKey, d.states, d.tags);
    EventsSome(p.key, dirs);
    ValueSome(p, dirs);
    FlowValueReads(p, dirs, c2, more);
    StepIsValue(c2);
    Together(FlowPairAt(d), Unparse(TreeOf(p.key, dirs)), Unparse(ValueNode(p, dirs)), c2, c3);
  }

  lemma {:induction false} FlowKeyReads(p: Pair, dirs: map<string, string>, c: Config, more: seq<Token>)
    requires GoodPair(p, dirs, false) && KeyedPair(p) && Declared(c.tags, dirs) && Follows(more, false)
    requires more[0].FlowEntry? || more[0].FlowMappingEnd?
    requires c.states != [] && c.tokens == Tokens(p.key) + (ValueTokens(p) + more)
    ensures FeedMove(FlowKeyAt(c), Unparse(TreeOf(p.key, dirs)))
         == Some(Config(ValueTokens(p) + more, InFlowMappingValue, c.states, c.tags))
    decreases p, 0
  {
    hide Declared, Keyed, Good, FeedMove, NodeBefore, Tokens;
    var u := ValueTokens(p) + more;
    assert u[0] == if p.value.Some? then Value else more[0];
    HeadIs(p.key, dirs, false, false, u, c);
    PartReads(p.key, dirs, false, false, c, InFlowMappingValue, u, FlowKeyAt(c));
  }

  lemma BareValueReads(c: Config)
    requires c.tokens != []
    ensures FeedMove(FlowValueAt(c, true), Unparse(NOTHING)) == Some(c.(state := InFlowMappingKey))
  {}

  lemma {:induction false} FlowValueReads(p: Pair, dirs: map<string, string>, c: Config, more: seq<Token>)
    requires GoodPair(p, dirs, false) && KeyedPair(p) && Declared(c.tags, dirs) && Follows(more, false)
    requires more[0].FlowEntry? || more[0].FlowMappingEnd?
    requires c.states != [] && c.tokens == ValueTokens(p) + more
    ensures FeedMove(FlowValueAt(c, false), Unparse(ValueNode(p, dirs)))
        == Some(Config(more, InFlowMappingKey, c.states, c.tags))
    decreases p, 0
  {
    hide Declared, Keyed, Good, NodeBefore;
    if p.value.Some? {
      hide FeedMove;
      var f, d := p.value.value, Next(c);
      assert c.tokens == [Value] + (Tokens(f) + more) && d.tokens == Tokens(f) + more;
      HeadIs(f, dirs, false, false, more, d);
      PartReads(f, dirs, false, false, d, InFlowMappingKey, more, FlowValueAt(c, false));
    } else {
      assert c.tokens == more;
    }
  }

  // ----- documents -----

  datatype Directive = Version | TagFor(handle: string, prefix: string)

  /** A document, with or without a mark at its start, and with any number of marks at its end. */
  datatype DocForm = DocForm(explicit: bool, directives: seq<Directive>, root: Form, ends: nat)

  function DirectiveTokens(ds: seq<Directive>): seq<Token> {
    if ds == [] then []
    else
      [match ds[0] case Version => VersionDirective(1, 1) case TagFor(h, p) => TagDirective(h, p)]
      + DirectiveTokens(ds[1..])
  }

  function EndTokens(n: nat): seq<Token> {
    if n == 0 then [] else [DocumentEndToken] + EndTokens(n - 1)
  }

  function DocTokens(d: DocForm): seq<Token> {
    DirectiveTokens(d.directives) + ((if d.explicit then [DocumentStartToken] else []) + Tokens(d.root))
  }

  /** All documents, each with the marks at its end. */
  function DocsTokens(ds: seq<DocForm>): seq<Token> {
    if ds == [] then [] else DocTokens(ds[0]) + (EndTokens(ds[0].ends) + DocsTokens(ds[1..]))
  }

  function StreamTokens(ds: seq<DocForm>): seq<Token> {
    [StreamStartToken] + (DocsTokens(ds) + [StreamEndToken])
  }

  function Prefixes(ds: seq<Directive>): map<string, string> {
    if ds == [] then map[]
    else match ds[0] case Version => Prefixes(ds[1..]) case TagFor(h, p) => Prefixes(ds[1..])[h := p]
  }

  const STANDARD: map<string, string> := map["!" := "!", "!!" := "tag:yaml.org,2002:"]

  /** The prefixes that are declared, and those that always are. */
  function PrefixesOf(d: DocForm): map<string, string> {
    STANDARD + Prefixes(d.directives)
  }

  /** One version at most, and no handle twice. */
  predicate GoodDirectives(ds: seq<Directive>, version: bool) {
    ds != [] ==>
      match ds[0]
      case Version => !version && GoodDirectives(ds[1..], true)
      case TagFor(h, _) => h !in Prefixes(ds[1..]) && GoodDirectives(ds[1..], version)
  }

  predicate GoodDoc(d: DocForm) {
    && GoodDirectives(d.directives, false) && Good(d.root, PrefixesOf(d), true, false)
    && (!d.explicit ==> d.directives == [] && !IsNothing(d.root))
  }

  /** Only the first document can do without a mark. */
  predicate GoodStream(ds: seq<DocForm>) {
    forall i :: 0 <= i < |ds| ==> GoodDoc(ds[i]) && (i > 0 ==> ds[i].explicit)
  }

  predicate KeyedStream(ds: seq<DocForm>) {
    forall i :: 0 <= i < |ds| ==> Keyed(ds[i].root)
  }

  function Documents(ds: seq<DocForm>): seq<Document> {
    if ds == [] then [] else [Document(TreeOf(ds[0].root, PrefixesOf(ds[0])), ds[0].ends == 0)] + Documents(ds[1..])
  }

  lemma {:induction false} PrefixAdded(tags: seq<(string, string)>, x: (string, string), h: string)
    ensures PrefixFor(tags + [x], h) ==
            if PrefixFor(tags, h).Some? then PrefixFor(tags, h) else if x.0 == h then Some(x.1) else None
    decreases |tags|
  {
    if tags == [] {
      assert tags + [x] == [x] && [x][1..] == [];
    } else {
      assert (tags + [x])[1..] == tags[1..] + [x];
      PrefixAdded(tags[1..], x, h);
    }
  }

  lemma DeclareAdds(tags: seq<(string, string)>, x: (string, string), h: string)
    ensures PrefixFor(Declare(tags, x), h) ==
            if PrefixFor(tags, h).Some? then PrefixFor(tags, h) else if x.0 == h then Some(x.1) else None
  {
    PrefixAdded(tags, x, h);
  }

  lemma DefaultsAdd(tags: seq<(string, string)>, h: string)
    ensures PrefixFor(WithDefaults(tags), h) ==
            if PrefixFor(tags, h).Some? then PrefixFor(tags, h) else if h in STANDARD then Some(STANDARD[h]) else None
  {
    var a := Declare(tags, ("!", "!"));
    DeclareAdds(tags, ("!", "!"), h);
    DeclareAdds(a, ("!!", "tag:yaml.org,2002:"), h);
  }

  lemma {:induction false} DirectivesRead(ds: seq<Directive>, version: bool, c: Config, u: seq<Token>)
    requires GoodDirectives(ds, version) && c.tokens == DirectiveTokens(ds) + u && u != [] && !IsDirective(u[0])
    requires forall h :: h in Prefixes(ds) ==> PrefixFor(c.tags, h).None?
    ensures var d := DirectivesAt(c, version);
      && d.Some? && d.value == c.(tokens := u, tags := d.value.tags)
      && forall h :: PrefixFor(d.value.tags, h) ==
           if h in Prefixes(ds) then Some(Prefixes(ds)[h])
           else if PrefixFor(c.tags, h).Some? then PrefixFor(c.tags, h)
           else if h in STANDARD then Some(STANDARD[h]) else None
    decreases |ds|
  {
    if ds == [] {
      assert c.tokens == u;
      forall h { DefaultsAdd(c.tags, h); }
    } else {
      assert c.tokens[1..] == DirectiveTokens(ds[1..]) + u;
      match ds[0]
      case Version => DirectivesRead(ds[1..], true, Next(c), u);
      case TagFor(h, p) =>
        var c1 := Next(c).(tags := c.tags + [(h, p)]);
        forall k { PrefixAdded(c.tags, (h, p), k); }
        DirectivesRead(ds[1..], version, c1, u);
    }
  }

  lemma DirectivesDeclare(d: DocForm, c: Config, u: seq<Token>)
    requires GoodDirectives(d.directives, false) && c.tags == []
    requires c.tokens == DirectiveTokens(d.directives) + u && u != [] && !IsDirective(u[0])
    ensures var x := DirectivesAt(c, false);
      x.Some? && x.value == c.(tokens := u, tags := x.value.tags) && Declared(x.value.tags, PrefixesOf(d))
  {
    DirectivesRead(d.directives, false, c, u);
  }

  lemma {:induction false} EndsRead(n: nat, c: Config, u: seq<Token>)
    requires c.tokens == EndTokens(n) + u && u != [] && !u[0].DocumentEndToken?
    ensures AfterEnds(c) == c.(tokens := u)
    decreases n
  {
    if n == 0 {
      assert c.tokens == u;
    } else {
      assert c.tokens[1..] == EndTokens(n - 1) + u;
      EndsRead(n - 1, Next(c), u);
    }
  }

  /** What comes after a document: another one with a mark, or the end of the stream. */
  predicate AfterDocument(t: Token) {
    t.DocumentStartToken? || t.StreamEndToken? || IsDirective(t)
  }

  /** The first token of a document with a mark. */
  lemma MarkFirst(d: DocForm)
    requires d.explicit
    ensures DocTokens(d) != [] && AfterDocument(DocTokens(d)[0]) && !DocTokens(d)[0].StreamEndToken?
  {
    if d.directives == [] {
      assert DocTokens(d) == [DocumentStartToken] + Tokens(d.root);
    } else {
      assert DocTokens(d)[0] == DirectiveTokens(d.directives)[0];
    }
  }

  lemma DocsFollow(ds: seq<DocForm>)
    requires ds != [] ==> ds[0].explicit
    ensures DocsTokens(ds) + [StreamEndToken] != []
    ensures AfterDocument((DocsTokens(ds) + [StreamEndToken])[0])
    ensures (DocsTokens(ds) + [StreamEndToken])[0].StreamEndToken? <==> ds == []
  {
    if ds == [] {
      assert DocsTokens(ds) + [StreamEndToken] == [StreamEndToken];
    } else {
      MarkFirst(ds[0]);
      assert (DocsTokens(ds) + [StreamEndToken])[0] == DocTokens(ds[0])[0];
    }
  }

  lemma EndsFollow(n: nat, more: seq<Token>)
    requires more != [] && AfterDocument(more[0])
    ensures var r := EndTokens(n) + more;
      Follows(r, false) && (AfterDocument(r[0]) || r[0].DocumentEndToken?) && (r[0].DocumentEndToken? <==> n > 0)
  {}

  lemma NoEnds(u: seq<Token>)
    ensures EndTokens(0) + u == u
  {}

  /** The start of a document, from between two documents. */
  lemma DocStartReads(d: DocForm, first: bool, n: nat, c: Config, u: seq<Token>)
    requires GoodDoc(d) && (!first ==> d.explicit) && (first ==> n == 0) && u != []
    requires c.states == [] && c.tags == [] && c.tokens == EndTokens(n) + (DocTokens(d) + u)
    ensures var m := DocumentStartAt(c, first);
      && m.Emit? && m.e == DocumentStart && Declared(m.c.tags, PrefixesOf(d))
      && m.c == Config(Tokens(d.root) + u, if d.explicit then InDocumentContent
          else InBlockNode, [InDocumentEnd], m.c.tags)
  {
    hide Declared, Good, Tokens, DirectivesAt, AfterEnds, DirectiveTokens, EndTokens, PrefixesOf, GoodDirectives;
    var v := (if d.explicit then [DocumentStartToken] else []) + Tokens(d.root) + u;
    assert DocTokens(d) + u == DirectiveTokens(d.directives) + v;
    if !d.explicit { RootFirst(d); }
    assert v != [] && v[0] == if d.explicit then DocumentStartToken else Tokens(d.root)[0];
    var c1 := c.(tokens := DocTokens(d) + u);
    DocFirst(d, u, v);
    if first {
      NoEnds(DocTokens(d) + u);
      assert c == c1;
    } else {
      EndsRead(n, c, DocTokens(d) + u);
    }
    DirectivesDeclare(d, c1, v);
    assert [] + [InDocumentEnd] == [InDocumentEnd];
    if d.explicit {
      assert v[1..] == Tokens(d.root) + u;
    } else {
      assert v == Tokens(d.root) + u;
    }
  }

  lemma RootFirst(d: DocForm)
    requires GoodDoc(d) && !d.explicit
    ensures Tokens(d.root) != [] && !Ends(Tokens(d.root)[0])
  {
    FirstToken(d.root, PrefixesOf(d), true, false);
  }

  /** What a document starts with. */
  lemma DocFirst(d: DocForm, u: seq<Token>, v: seq<Token>)
    requires DocTokens(d) + u == DirectiveTokens(d.directives) + v && v != [] && (!d.explicit ==> d.directives == [])
    requires if d.explicit then v[0].DocumentStartToken? else !Ends(v[0])
    ensures var w := DocTokens(d) + u;
      && w != [] && !w[0].DocumentEndToken? && !w[0].StreamEndToken?
      && (d.explicit <==> w[0].DocumentStartToken? || IsDirective(w[0]))
  {
    if d.directives == [] {
      assert DocTokens(d) + u == v;
    } else {
      assert (DocTokens(d) + u)[0] == DirectiveTokens(d.directives)[0];
    }
  }

  lemma RootReads(d: DocForm, c: Config, n: nat, more: seq<Token>)
    requires GoodDoc(d) && Keyed(d.root) && Declared(c.tags, PrefixesOf(d)) && more != [] && AfterDocument(more[0])
    requires c.state == (if d.explicit then InDocumentContent else InBlockNode) && c.states == [InDocumentEnd]
    requires c.tokens == Tokens(d.root) + (EndTokens(n) + more)
    ensures Unparse(TreeOf(d.root, PrefixesOf(d))) != []
    ensures FeedMove(Step(c), Unparse(TreeOf(d.root, PrefixesOf(d))))
         == Some(Config(EndTokens(n) + more, InDocumentEnd, [], c.tags))
  {
    hide Declared, Keyed, Good, NodeAt;
    var r := EndTokens(n) + more;
    EndsFollow(n, more);
    HeadIs(d.root, PrefixesOf(d), true, false, r, c);
    EventsSome(d.root, PrefixesOf(d));
    if IsNothing(d.root) {
      NothingIs(d.root, PrefixesOf(d));
      assert c.tokens == r;
    } else {
      hide FeedMove;
      NodeReads(d.root, PrefixesOf(d), true, false, c, r);
    }
  }

  lemma DocEndReads(c: Config, n: nat, more: seq<Token>)
    requires more != [] && AfterDocument(more[0]) && c.state == InDocumentEnd && c.states == []
    requires c.tokens == EndTokens(n) + more
    ensures Step(c) ==
            Emit(DocumentEnd(n == 0), Config(EndTokens(if n == 0 then 0 else n - 1) + more, InDocumentStart, [], []))
  {
    EndsFollow(n, more);
    if n > 0 { assert c.tokens[1..] == EndTokens(n - 1) + more; }
        else { assert c.tokens == more == EndTokens(0) + more; }
  }

  /** One document, from between two. */
  lemma DocReads(d: DocForm, first: bool, n: nat, c: Config, u: seq<Token>, es: seq<Event>)
    requires GoodDoc(d) && Keyed(d.root) && (!first ==> d.explicit) && (first ==> n == 0)
    requires u != [] && AfterDocument(u[0]) && es != []
    requires c == Config(EndTokens(n) + (DocTokens(d) + (EndTokens(d.ends) + u)),
                         if first then InImplicitDocumentStart else InDocumentStart, [], [])
    ensures var left := if d.ends == 0 then 0 else d.ends - 1;
      FeedMove(Step(c), [DocumentStart] + (Unparse(TreeOf(d.root, PrefixesOf(d))) + ([DocumentEnd(d.ends == 0)] + es)))
      == FeedMove(Step(Config(EndTokens(left) + u, InDocumentStart, [], [])), es)
  {
    hide Good, GoodDoc, Keyed, Tokens, FeedMove, Step, DocTokens, Unparse, TreeOf, Declared, EndTokens, PrefixesOf,
        DocumentStartAt, AfterDocument;
    var r, node := EndTokens(d.ends) + u, TreeOf(d.root, PrefixesOf(d));
    DocStartReads(d, first, n, c, r);
    StepDocument(c, first);
    var c1 := DocumentStartAt(c, first).c;
    RootReads(d, c1, d.ends, u);
    var c2 := Config(r, InDocumentEnd, [], c1.tags);
    DocEndReads(c2, d.ends, u);
    EmitThen(Step(c2), DocumentEnd(d.ends == 0), es);
    GoOn(Step(c1), Unparse(node), [DocumentEnd(d.ends == 0)] + es, c2);
    EmitThen(Step(c), DocumentStart, Unparse(node) + ([DocumentEnd(d.ends == 0)] + es));
  }

  lemma DocsTokensAre(ds: seq<DocForm>, n: nat)
    requires ds != []
    ensures EndTokens(n) + (DocsTokens(ds) + [StreamEndToken])
         == EndTokens(n) + (DocTokens(ds[0]) + (EndTokens(ds[0].ends) + (DocsTokens(ds[1..]) + [StreamEndToken])))
  {
    hide DocTokens, EndTokens;
  }

  lemma RestIsGood(ds: seq<DocForm>)
    requires ds != [] && GoodStream(ds) && KeyedStream(ds)
    ensures GoodDoc(ds[0]) && Keyed(ds[0].root) && GoodStream(ds[1..]) && KeyedStream(ds[1..])
    ensures forall i :: 0 <= i < |ds[1..]| ==> ds[1..][i].explicit
  {
    assert forall i :: 0 <= i < |ds[1..]| ==> ds[1..][i] == ds[i + 1];
  }

  /** The documents from here on, after `n` marks that are left of the last one. */
  lemma {:induction false} DocsRead(ds: seq<DocForm>, first: bool, n: nat, c: Config)
    requires GoodStream(ds) && KeyedStream(ds) && (first ==> n == 0)
    requires !first ==> forall i :: 0 <= i < |ds| ==> ds[i].explicit
    requires c == Config(EndTokens(n) + (DocsTokens(ds) + [StreamEndToken]),
                         if first then InImplicitDocumentStart else InDocumentStart, [], [])
    ensures Feed(c, UnparseDocs(Documents(ds)) + [StreamEnd]) == Some(Config([], InEnd, [], []))
    decreases |ds|
  {
    if ds == [] {
      NoDocs(first, n, c);
    } else {
      hide GoodStream, KeyedStream, GoodDoc, Keyed, FeedMove, Feed, Step, DocTokens, EndTokens, DocsTokens, UnparseDocs,
          Documents, Unparse, TreeOf, PrefixesOf, AfterDocument;
      var d, u := ds[0], DocsTokens(ds[1..]) + [StreamEndToken];
      var es := UnparseDocs(Documents(ds[1..])) + [StreamEnd];
      var left := if d.ends == 0 then 0 else d.ends - 1;
      RestIsGood(ds);
      DocsFollow(ds[1..]);
      DocsTokensAre(ds, n);
      DocReads(d, first, n, c, u, es);
      DocsSplit(ds, es);
      var c3 := Config(EndTokens(left) + u, InDocumentStart, [], []);
      DocsRead(ds[1..], false, left, c3);
      FeedIsMove(c3, es);
      FeedIsMove(c, UnparseDocs(Documents(ds)) + [StreamEnd]);
    }
  }

  lemma FeedIsMove(c: Config, es: seq<Event>)
    requires es != []
    ensures Feed(c, es) == FeedMove(Step(c), es)
  {}

  lemma StepDocument(c: Config, first: bool)
    requires c.state == if first then InImplicitDocumentStart else InDocumentStart
    ensures Step(c) == DocumentStartAt(c, first)
  {}

  lemma DocsSplit(ds: seq<DocForm>, es: seq<Event>)
    requires ds != [] && es == UnparseDocs(Documents(ds[1..])) + [StreamEnd]
    ensures UnparseDocs(Documents(ds)) + [StreamEnd] == [DocumentStart] +
      (Unparse(TreeOf(ds[0].root, PrefixesOf(ds[0]))) + ([DocumentEnd(ds[0].ends == 0)] + es))
  {
    hide Unparse, TreeOf;
    assert Documents(ds)[1..] == Documents(ds[1..]);
  }

  lemma NoDocs(first: bool, n: nat, c: Config)
    requires first ==> n == 0
    requires c == Config(EndTokens(n) + (DocsTokens([]) + [StreamEndToken]),
                         if first then InImplicitDocumentStart else InDocumentStart, [], [])
    ensures Feed(c, UnparseDocs(Documents([])) + [StreamEnd]) == Some(Config([], InEnd, [], []))
  {
    assert UnparseDocs(Documents([])) + [StreamEnd] == [StreamEnd];
    assert DocsTokens([]) + [StreamEndToken] == [StreamEndToken];
    var c1 := c.(tokens := [StreamEndToken]);
    if first { assert c.tokens == c1.tokens; } else { EndsRead(n, c, [StreamEndToken]); }
    assert [StreamEndToken][1..] == [];
    assert Step(c) == Emit(StreamEnd, Config([], InEnd, [], []));
    assert [StreamEnd][1..] == [];
  }

  /** The parser at the start of these tokens. */
  function Start(tokens: seq<Token>): Config {
    Config(tokens, InStreamStart, [], [])
  }

  /** Every presentation of documents is read back to its end. */
  lemma StreamReads(ds: seq<DocForm>)
    requires GoodStream(ds) && KeyedStream(ds)
    ensures Feed(Start(StreamTokens(ds)), UnparseStream(Documents(ds))) == Some(Config([], InEnd, [], []))
  {
    hide GoodStream, KeyedStream;
    var u := DocsTokens(ds) + [StreamEndToken];
    var es := UnparseDocs(Documents(ds)) + [StreamEnd];
    assert UnparseStream(Documents(ds)) == [StreamStart] + es && StreamTokens(ds) == [StreamStartToken] + u;
    assert StreamTokens(ds)[1..] == u && EndTokens(0) + u == u;
    var c := Config(u, InImplicitDocumentStart, [], []);
    assert Step(Start(StreamTokens(ds))) == Emit(StreamStart, c);
    EmitThen(Step(Start(StreamTokens(ds))), StreamStart, es);
    FeedIsMove(c, es);
    FeedIsMove(Start(StreamTokens(ds)), UnparseStream(Documents(ds)));
    DocsRead(ds, true, 0, c);
  }

  // ----- the trees are good ones -----

  lemma {:induction false} NodeIsGood(f: Form, dirs: map<string, string>)
    ensures GoodNode(TreeOf(f, dirs))
    decreases f, 2
  {
    match f
    case BlockSeq(_, _) => ItemsAreGood(f, dirs, 0);
    case Indentless(_, _) => ItemsAreGood(f, dirs, 0);
    case BlockMap(_, _) => PairsAreGood(f, dirs, 0);
    case FlowSeq(_, _, _) => EntriesAreGood(f, dirs, 0);
    case FlowMap(_, _, _) => EntriesAreGood(f, dirs, 0);
    case _ =>
  }

  lemma {:induction false} ItemsAreGood(f: Form, dirs: map<string, string>, i: nat)
    requires (f.BlockSeq? || f.Indentless?) && i <= |f.items|
    ensures forall k :: 0 <= k < |ItemNodes(f, dirs, i)| ==> GoodNode(ItemNodes(f, dirs, i)[k])
    decreases f, 1, |f.items| - i
  {
    if i < |f.items| {
      NodeIsGood(f.items[i], dirs);
      ItemsAreGood(f, dirs, i + 1);
    }
  }

  lemma {:induction false} PairIsGood(p: Pair, dirs: map<string, string>)
    ensures GoodNode(NodesOfPair(p, dirs)[0]) && GoodNode(NodesOfPair(p, dirs)[1])
    decreases p, 0
  {
    NodeIsGood(p.key, dirs);
    if p.value.Some? { NodeIsGood(p.value.value, dirs); }
  }

  lemma {:induction false} PairsAreGood(f: Form, dirs: map<string, string>, i: nat)
    requires f.BlockMap? && i <= |f.pairs|
    ensures |PairNodes(f, dirs, i)| % 2 == 0
    ensures forall k :: 0 <= k < |PairNodes(f, dirs, i)| ==> GoodNode(PairNodes(f, dirs, i)[k])
    decreases f, 1, |f.pairs| - i
  {
    if i < |f.pairs| {
      PairIsGood(f.pairs[i], dirs);
      PairsAreGood(f, dirs, i + 1);
    }
  }

  lemma {:induction false} EntriesAreGood(f: Form, dirs: map<string, string>, i: nat)
    requires (f.FlowSeq? || f.FlowMap?) && i <= |f.entries|
    ensures f.FlowMap? ==> |EntryNodes(f, dirs, i)| % 2 == 0
    ensures forall k :: 0 <= k < |EntryNodes(f, dirs, i)| ==> GoodNode(EntryNodes(f, dirs, i)[k])
    decreases f, 1, |f.entries| - i
  {
    if i < |f.entries| {
      match f.entries[i] {
        case Item(node) => NodeIsGood(node, dirs);
        case Single(pair) => PairIsGood(pair, dirs);
      }
      EntriesAreGood(f, dirs, i + 1);
    }
  }

  lemma {:induction false} DocumentsAreGood(ds: seq<DocForm>)
    ensures GoodDocs(Documents(ds))
    decreases |ds|
  {
    if ds != [] {
      NodeIsGood(ds[0].root, PrefixesOf(ds[0]));
      DocumentsAreGood(ds[1..]);
    }
  }

  // ----- what was run to its end was run to the only one -----

  /** The parser has emitted these events, and then failed or come to the end. */
  ghost predicate Ran(tokens: seq<Token>, es: seq<Event>, failed: bool) {
    exists c :: Feed(Start(tokens), es) == Some(c) && (c.state.InEnd? <==> !failed) && Step(c).Error?
  }

  lemma {:induction false} OneRun(c: Config, a: seq<Event>, b: seq<Event>)
    requires Feed(c, a).Some? && Step(Feed(c, a).value).Error? && Feed(c, b).Some? && Step(Feed(c, b).value).Error?
    ensures a == b
    decreases |a|
  {
    if a != [] && b != [] {
      OneRun(Step(c).c, a[1..], b[1..]);
      assert a == [a[0]] + a[1..] && b == [b[0]] + b[1..];
    }
  }

  /** A run on a presentation ends well, with the events of the documents. */
  lemma RunIsStream(ds: seq<DocForm>, es: seq<Event>, failed: bool)
    requires GoodStream(ds) && KeyedStream(ds) && Ran(StreamTokens(ds), es, failed)
    ensures !failed && es == UnparseStream(Documents(ds))
  {
    hide GoodStream, KeyedStream, UnparseStream;
    StreamReads(ds);
    OneRun(Start(StreamTokens(ds)), es, UnparseStream(Documents(ds)));
  }
}
