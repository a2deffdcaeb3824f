/** The tokens of a YAML stream, and what the parser of yaml.v2 does with them, as a function from one
    configuration to the next: an event, or an error. */
module YamlSteps {
  import opened Options
  import opened YamlEvents

  datatype Token =
    | StreamStartToken
    | StreamEndToken
    | VersionDirective(major: int, minor: int)
    | TagDirective(handle: string, prefix: string)
    | DocumentStartToken
    | DocumentEndToken
    | BlockSequenceStart
    | BlockMappingStart
    | BlockEnd
    | FlowSequenceStart
    | FlowSequenceEnd
    | FlowMappingStart
    | FlowMappingEnd
    | BlockEntry
    | FlowEntry
    | Key
    | Value
    | AliasToken(name: string)
    | Anchor(name: string)
    | Tag(handle: string, suffix: string)
    | ScalarToken(text: string, plain: bool)

  datatype State =
    | InStreamStart
    | InImplicitDocumentStart
    | InDocumentStart
    | InDocumentContent
    | InDocumentEnd
    | InBlockNode
    | InBlockNodeOrIndentlessSequence
    | InFlowNode
    | InBlockSequenceFirstEntry
    | InBlockSequenceEntry
    | InIndentlessSequenceEntry
    | InBlockMappingFirstKey
    | InBlockMappingKey
    | InBlockMappingValue
    | InFlowSequenceFirstEntry
    | InFlowSequenceEntry
    | InFlowSequenceEntryMappingKey
    | InFlowSequenceEntryMappingValue
    | InFlowSequenceEntryMappingEnd
    | InFlowMappingFirstKey
    | InFlowMappingKey
    | InFlowMappingValue
    | InFlowMappingEmptyValue
    | InEnd

  /** States with nothing around them. */
  predicate IsTop(s: State) {
    s.InStreamStart? || s.InImplicitDocumentStart? || s.InDocumentStart? || s.InDocumentEnd? || s.InEnd?
  }

  /** States of a collection that has begun; these, and the end of the document at the bottom, are
      what the stack holds. */
  predicate IsInner(s: State) {
    || s.InBlockSequenceEntry? || s.InIndentlessSequenceEntry? || s.InBlockMappingKey? || s.InBlockMappingValue?
    || s.InFlowSequenceEntry? || s.InFlowSequenceEntryMappingKey? || s.InFlowSequenceEntryMappingValue?
    || s.InFlowSequenceEntryMappingEnd? || s.InFlowMappingKey? || s.InFlowMappingValue? || s.InFlowMappingEmptyValue?
  }

  predicate StatesOk(states: seq<State>) {
    && states != [] && states[0] == InDocumentEnd
    && forall i {:trigger states[i]} :: 0 < i < |states| ==> IsInner(states[i])
  }

  const EMPTY_SCALAR := Scalar(None, "", "", true, false)

  /** The tokens left, the state, the states to go on with, and the tag directives. */
  datatype Config = Config(tokens: seq<Token>, state: State, states: seq<State>, tags: seq<(string, string)>)

  datatype Move = Error | Emit(e: Event, c: Config)

  /** The parser goes on with the state on top of the stack. */
  function Back(c: Config): Config {
    if c.states == [] then c
    else c.(state := c.states[|c.states| - 1], states := c.states[..|c.states| - 1])
  }

  function Next(c: Config): Config {
    if c.tokens == [] then c else c.(tokens := c.tokens[1..])
  }

  /** The token at hand; the end of the stream if there is none. */
  function Head(c: Config): Token {
    if c.tokens == [] then StreamEndToken else c.tokens[0]
  }

  // ----- nodes -----

  datatype Properties = NoProperties | Properties(anchor: Option<string>, tag: Option<(string, string)>, c: Config)

  function TagAt(c: Config): Option<(string, string)> {
    if Head(c).Tag? then Some((Head(c).handle, Head(c).suffix)) else None
  }

  function AnchorAt(c: Config): Option<string> {
    if Head(c).Anchor? then Some(Head(c).name) else None
  }

  /** The anchor and the tag in front of a node, in either order. */
  function PropertiesAt(c: Config): Properties {
    if Head(c).Anchor? then
      var c1 := Next(c);
      var c2 := if TagAt(c1).Some? then Next(c1) else c1;
      if c1.tokens == [] || c2.tokens == [] then NoProperties else Properties(AnchorAt(c), TagAt(c1), c2)
    else if Head(c).Tag? then
      var c1 := Next(c);
      var c2 := if AnchorAt(c1).Some? then Next(c1) else c1;
      if c1.tokens == [] || c2.tokens == [] then NoProperties else Properties(AnchorAt(c1), TagAt(c), c2)
    else Properties(None, None, c)
  }

  /** The prefix of the first directive for the handle. */
  function PrefixFor(tags: seq<(string, string)>, handle: string): Option<string> {
    if tags == [] then None else if tags[0].0 == handle then Some(tags[0].1) else PrefixFor(tags[1..], handle)
  }

  function TagText(tags: seq<(string, string)>, tag: Option<(string, string)>): Option<string> {
    if tag.None? then Some("")
    else if tag.value.0 == "" then Some(tag.value.1)
    else
      var p := PrefixFor(tags, tag.value.0);
      if p.None? || p.value + tag.value.1 == "" then None else Some(p.value + tag.value.1)
  }

  function NodeAt(c: Config, block: bool, indentless: bool): Move {
    if c.tokens == [] then Error
    else if Head(c).AliasToken? then Emit(Alias(Head(c).name), Next(Back(c)))
    else
      var p := PropertiesAt(c);
      if p.NoProperties? then Error
      else
        var full := TagText(c.tags, p.tag);
        if full.None? then Error else ContentAt(p.c, block, indentless, p.anchor, full.value)
  }

  function ContentAt(c: Config, block: bool, indentless: bool, anchor: Option<string>, tag: string): Move {
    var t := Head(c);
    if indentless && t.BlockEntry? then Emit(SequenceStart(anchor, tag), c.(state := InIndentlessSequenceEntry))
    else if t.ScalarToken? then
      var plain := (tag == "" && t.plain) || tag == "!";
      Emit(Scalar(anchor, tag, t.text, plain, !plain && tag == ""), Next(Back(c)))
    else if t.FlowSequenceStart? then Emit(SequenceStart(anchor, tag), c.(state := InFlowSequenceFirstEntry))
    else if t.FlowMappingStart? then Emit(MappingStart(anchor, tag), c.(state := InFlowMappingFirstKey))
    else if block && t.BlockSequenceStart? then Emit(SequenceStart(anchor, tag), c.(state := InBlockSequenceFirstEntry))
    else if block && t.BlockMappingStart? then Emit(MappingStart(anchor, tag), c.(state := InBlockMappingFirstKey))
    else if (anchor.Some? && anchor.value != "")
        || tag != "" then Emit(Scalar(anchor, tag, "", tag == "", false), Back(c))
    else Error
  }

  /** A node, after which the parser is in state `s`. */
  function NodeBefore(c: Config, s: State, block: bool, indentless: bool): Move {
    NodeAt(c.(states := c.states + [s]), block, indentless)
  }

  function EmptyBefore(c: Config, s: State): Move {
    Emit(EMPTY_SCALAR, c.(state := s))
  }

  // ----- the stream and its documents -----

  function Declare(tags: seq<(string, string)>, tag: (string, string)): seq<(string, string)> {
    if PrefixFor(tags, tag.0).Some? then tags else tags + [tag]
  }

  function WithDefaults(tags: seq<(string, string)>): seq<(string, string)> {
    Declare(Declare(tags, ("!", "!")), ("!!", "tag:yaml.org,2002:"))
  }

  /** The directives before a document. */
  function DirectivesAt(c: Config, version: bool): Option<Config>
    decreases |c.tokens|
  {
    if c.tokens == [] then None
    else
      match Head(c)
      case VersionDirective(major, minor) =>
        if version || major != 1 || minor != 1 then None else DirectivesAt(Next(c), true)
      case TagDirective(handle, prefix) =>
        if PrefixFor(c.tags, handle).Some? then None
        else DirectivesAt(Next(c).(tags := c.tags + [(handle, prefix)]), version)
      case _ => Some(c.(tags := WithDefaults(c.tags)))
  }

  function AfterEnds(c: Config): Config
    decreases |c.tokens|
  {
    if Head(c).DocumentEndToken? then AfterEnds(Next(c)) else c
  }

  predicate IsDirective(t: Token) {
    t.VersionDirective? || t.TagDirective?
  }

  /** A document without a mark at its start. */
  function ImplicitAt(c: Config): Move {
    var d := DirectivesAt(c, false);
    if d.None? then Error else Emit(DocumentStart, d.value.(state := InBlockNode, states := c.states + [InDocumentEnd]))
  }

  /** A document with directives and a mark. */
  function ExplicitAt(c: Config): Move {
    var d := DirectivesAt(c, false);
    if d.None? || !Head(d.value).DocumentStartToken? then Error
    else Emit(DocumentStart, Next(d.value).(state := InDocumentContent, states := c.states + [InDocumentEnd]))
  }

  function DocumentStartAt(c0: Config, implicit: bool): Move {
    var c := if implicit then c0 else AfterEnds(c0);
    if c.tokens == [] then Error
    else if implicit && !IsDirective(Head(c)) && !Head(c).DocumentStartToken? && !Head(c).StreamEndToken?
    then ImplicitAt(c)
    else if !Head(c).StreamEndToken? then ExplicitAt(c)
    else Emit(StreamEnd, Next(c).(state := InEnd))
  }

  function DocumentContentAt(c: Config): Move {
    if c.tokens == [] then Error
    else if IsDirective(Head(c)) || Head(c).DocumentStartToken? || Head(c).DocumentEndToken? || Head(c).StreamEndToken?
    then Emit(EMPTY_SCALAR, Back(c))
    else NodeAt(c, true, false)
  }

  function DocumentEndAt(c: Config): Move {
    if c.tokens == [] then Error
    else
      var explicit := Head(c).DocumentEndToken?;
      Emit(DocumentEnd(!explicit), (if explicit then Next(c) else c).(state := InDocumentStart, tags := []))
  }

  // ----- collections -----

  function BlockSequenceAt(c: Config): Move {
    if c.tokens == [] then Error
    else if Head(c).BlockEntry? then
      var d := Next(c);
      if d.tokens == [] then Error
      else if !Head(d).BlockEntry? && !Head(d).BlockEnd? then NodeBefore(d, InBlockSequenceEntry, true, false)
      else EmptyBefore(d, InBlockSequenceEntry)
    else if Head(c).BlockEnd? then Emit(SequenceEnd, Next(Back(c)))
    else Error
  }

  function IndentlessAt(c: Config): Move {
    if c.tokens == [] then Error
    else if Head(c).BlockEntry? then
      var d := Next(c);
      if d.tokens == [] then Error
      else if !Head(d).BlockEntry? && !Head(d).Key? && !Head(d).Value? && !Head(d).BlockEnd?
      then NodeBefore(d, InIndentlessSequenceEntry, true, false)
      else EmptyBefore(d, InIndentlessSequenceEntry)
    else Emit(SequenceEnd, Back(c))
  }

  function BlockKeyAt(c: Config): Move {
    if c.tokens == [] then Error
    else if Head(c).Key? then
      var d := Next(c);
      if d.tokens == [] then Error
      else if !Head(d).Key? && !Head(d).Value? && !Head(d).BlockEnd? then NodeBefore(d, InBlockMappingValue, true, true)
      else EmptyBefore(d, InBlockMappingValue)
    else if Head(c).BlockEnd? then Emit(MappingEnd, Next(Back(c)))
    else Error
  }

  function BlockValueAt(c: Config): Move {
    if c.tokens == [] then Error
    else if Head(c).Value? then
      var d := Next(c);
      if d.tokens == [] then Error
      else if !Head(d).Key? && !Head(d).Value? && !Head(d).BlockEnd? then NodeBefore(d, InBlockMappingKey, true, true)
      else EmptyBefore(d, InBlockMappingKey)
    else EmptyBefore(c, InBlockMappingKey)
  }

  /** The comma before all entries but the first. */
  function CommaAt(c: Config, first: bool): Option<Config> {
    if first then Some(c) else if Head(c).FlowEntry? && Next(c).tokens != [] then Some(Next(c)) else None
  }

  function FlowSequenceAt(c: Config, first: bool): Move {
    if c.tokens == [] then Error
    else if Head(c).FlowSequenceEnd? then Emit(SequenceEnd, Next(Back(c)))
    else
      var d := CommaAt(c, first);
      if d.None? then Error else FlowItemAt(d.value)
  }

  function FlowItemAt(c: Config): Move {
    if Head(c).Key? then Emit(MappingStart(None, ""), Next(c).(state := InFlowSequenceEntryMappingKey))
    else if !Head(c).FlowSequenceEnd? then NodeBefore(c, InFlowSequenceEntry, false, false)
    else Emit(SequenceEnd, Next(Back(c)))
  }

  /** If the key is empty, the token at hand is passed over, whatever it is. */
  function PairKeyAt(c: Config): Move {
    if c.tokens == [] then Error
    else if !Head(c).Value? && !Head(c).FlowEntry? && !Head(c).FlowSequenceEnd?
    then NodeBefore(c, InFlowSequenceEntryMappingValue, false, false)
    else EmptyBefore(Next(c), InFlowSequenceEntryMappingValue)
  }

  function PairValueAt(c: Config): Move {
    if c.tokens == [] then Error
    else if Head(c).Value? then
      var d := Next(c);
      if d.tokens == [] then Error
      else if !Head(d).FlowEntry? && !Head(d).FlowSequenceEnd?
      then NodeBefore(d, InFlowSequenceEntryMappingEnd, false, false)
      else EmptyBefore(d, InFlowSequenceEntryMappingEnd)
    else EmptyBefore(c, InFlowSequenceEntryMappingEnd)
  }

  function PairEndAt(c: Config): Move {
    if c.tokens == [] then Error else Emit(MappingEnd, c.(state := InFlowSequenceEntry))
  }

  function FlowMappingAt(c: Config, first: bool): Move {
    if c.tokens == [] then Error
    else if Head(c).FlowMappingEnd? then Emit(MappingEnd, Next(Back(c)))
    else
      var d := CommaAt(c, first);
      if d.None? then Error else FlowPairAt(d.value)
  }

  function FlowPairAt(c: Config): Move {
    if Head(c).Key? then FlowKeyAt(Next(c))
    else if !Head(c).FlowMappingEnd? then NodeBefore(c, InFlowMappingEmptyValue, false, false)
    else Emit(MappingEnd, Next(Back(c)))
  }

  function FlowKeyAt(c: Config): Move {
    if c.tokens == [] then Error
    else if !Head(c).Value? && !Head(c).FlowEntry? && !Head(c).FlowMappingEnd?
    then NodeBefore(c, InFlowMappingValue, false, false)
    else EmptyBefore(c, InFlowMappingValue)
  }

  function FlowValueAt(c: Config, empty: bool): Move {
    if c.tokens == [] then Error
    else if !empty && Head(c).Value? then
      var d := Next(c);
      if d.tokens == [] then Error
      else if !Head(d).FlowEntry? && !Head(d).FlowMappingEnd? then NodeBefore(d, InFlowMappingKey, false, false)
      else EmptyBefore(d, InFlowMappingKey)
    else EmptyBefore(c, InFlowMappingKey)
  }

  // ----- the machine -----

  function StreamStartAt(c: Config): Move {
    if c.tokens != [] && Head(c).StreamStartToken? then Emit(StreamStart, Next(c).(state := InImplicitDocumentStart))
    else Error
  }

  function Step(c: Config): Move {
    match c.state
    case InStreamStart => StreamStartAt(c)
    case InImplicitDocumentStart => DocumentStartAt(c, true)
    case InDocumentStart => DocumentStartAt(c, false)
    case InDocumentContent => DocumentContentAt(c)
    case InDocumentEnd => DocumentEndAt(c)
    case InBlockNode => NodeAt(c, true, false)
    case InBlockNodeOrIndentlessSequence => NodeAt(c, true, true)
    case InFlowNode => NodeAt(c, false, false)
    case InBlockSequenceFirstEntry => BlockSequenceAt(Next(c))
    case InBlockSequenceEntry => BlockSequenceAt(c)
    case InIndentlessSequenceEntry => IndentlessAt(c)
    case InBlockMappingFirstKey => BlockKeyAt(Next(c))
    case InBlockMappingKey => BlockKeyAt(c)
    case InBlockMappingValue => BlockValueAt(c)
    case InFlowSequenceFirstEntry => FlowSequenceAt(Next(c), true)
    case InFlowSequenceEntry => FlowSequenceAt(c, false)
    case InFlowSequenceEntryMappingKey => PairKeyAt(c)
    case InFlowSequenceEntryMappingValue => PairValueAt(c)
    case InFlowSequenceEntryMappingEnd => PairEndAt(c)
    case InFlowMappingFirstKey => FlowMappingAt(Next(c), true)
    case InFlowMappingKey => FlowMappingAt(c, false)
    case InFlowMappingValue => FlowValueAt(c, false)
    case InFlowMappingEmptyValue => FlowValueAt(c, true)
    case InEnd => Error
  }
}
