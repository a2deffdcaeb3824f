/** The events of a YAML stream: which sequences of them are well formed, and the trees that they
    describe. */
module YamlEvents {
  import opened Options

  datatype Event =
    | StreamStart
    | StreamEnd
    | DocumentStart
    | DocumentEnd(implicit: bool)
    | Alias(name: string)
    | Scalar(anchor: Option<string>, tag: string, value: string, plainImplicit: bool, quotedImplicit: bool)
    | SequenceStart(anchor: Option<string>, tag: string)
    | SequenceEnd
    | MappingStart(anchor: Option<string>, tag: string)
    | MappingEnd

  // ----- trees -----

  /** A node as the decoder keeps it: keys and values of a mapping alternate. */
  datatype Node = Leaf(event: Event) | Sequence(event: Event, kids: seq<Node>) | Mapping(event: Event, kids: seq<Node>)

  predicate GoodNode(n: Node) {
    match n
    case Leaf(e) => e.Scalar? || e.Alias?
    case Sequence(e, kids) => e.SequenceStart? && forall i :: 0 <= i < |kids| ==> GoodNode(kids[i])
    case Mapping(e, kids) => e.MappingStart? && |kids| % 2 == 0 && forall i :: 0 <= i < |kids| ==> GoodNode(kids[i])
  }

  function Unparse(n: Node): seq<Event>
    decreases n, 1, 0
  {
    match n
    case Leaf(e) => [e]
    case Sequence(e, kids) => [e] + UnparseKids(n, 0) + [SequenceEnd]
    case Mapping(e, kids) => [e] + UnparseKids(n, 0) + [MappingEnd]
  }

  /** The children from `i` on. */
  function UnparseKids(n: Node, i: nat): seq<Event>
    requires !n.Leaf? && i <= |n.kids|
    decreases n, 0, |n.kids| - i
  {
    if i == |n.kids| then [] else Unparse(n.kids[i]) + UnparseKids(n, i + 1)
  }

  function UnparseAll(ns: seq<Node>): seq<Event> {
    if ns == [] then [] else Unparse(ns[0]) + UnparseAll(ns[1..])
  }

  lemma {:induction false} KidsAreAll(n: Node, i: nat)
    requires !n.Leaf? && i <= |n.kids|
    ensures UnparseKids(n, i) == UnparseAll(n.kids[i..])
    decreases |n.kids| - i
  {
    if i < |n.kids| { KidsAreAll(n, i + 1); }
  }

  lemma {:induction false} UnparseSnoc(ns: seq<Node>, n: Node)
    ensures UnparseAll(ns + [n]) == UnparseAll(ns) + Unparse(n)
    decreases |ns|
  {
    if ns == [] {
      assert ns + [n] == [n] && [n][1..] == [];
    } else {
      assert (ns + [n])[1..] == ns[1..] + [n];
      UnparseSnoc(ns[1..], n);
    }
  }

  datatype Document = Document(root: Node, implicitEnd: bool)

  function UnparseDocs(ds: seq<Document>): seq<Event> {
    if ds == [] then []
    else [DocumentStart] + Unparse(ds[0].root) + [DocumentEnd(ds[0].implicitEnd)] + UnparseDocs(ds[1..])
  }

  predicate GoodDocs(ds: seq<Document>) {
    forall i :: 0 <= i < |ds| ==> GoodNode(ds[i].root)
  }

  /** The events of a whole stream: any number of documents, each with one node. */
  function UnparseStream(ds: seq<Document>): seq<Event> {
    [StreamStart] + UnparseDocs(ds) + [StreamEnd]
  }

  // ----- a recognizer -----

  /** What may come next, the last item first: the start of the stream, more documents or its end,
      the end of a document, a node, the rest of a sequence, the rest of a mapping. */
  datatype Item = ToStart | Docs | ToEndDoc | ToNode | InSequence | InMapping

  type Stack = seq<Item>

  function Pop(st: Stack): Stack
    requires st != []
  {
    st[..|st| - 1]
  }

  /** A node event where a node is expected above `st`. */
  function AcceptNode(st: Stack, e: Event): Option<Stack> {
    match e
    case Scalar(_, _, _, _, _) => Some(st)
    case Alias(_) => Some(st)
    case SequenceStart(_, _) => Some(st + [InSequence])
    case MappingStart(_, _) => Some(st + [InMapping])
    case _ => None
  }

  function Accept(st: Stack, e: Event): Option<Stack> {
    if st == [] then None
    else
      match st[|st| - 1]
      case ToStart => if e.StreamStart? then Some(Pop(st) + [Docs]) else None
      case Docs =>
        if e.DocumentStart? then Some(st + [ToEndDoc, ToNode]) else if e.StreamEnd? then Some(Pop(st)) else None
      case ToEndDoc => if e.DocumentEnd? then Some(Pop(st)) else None
      case ToNode => AcceptNode(Pop(st), e)
      case InSequence => if e.SequenceEnd? then Some(Pop(st)) else AcceptNode(st, e)
      case InMapping => if e.MappingEnd? then Some(Pop(st)) else AcceptNode(st + [ToNode], e)
  }

  function AcceptAll(st: Stack, es: seq<Event>): Option<Stack>
    decreases |es|
  {
    if es == [] then Some(st)
    else
      var st' := Accept(st, es[0]);
      if st'.None? then None else AcceptAll(st'.value, es[1..])
  }

  lemma {:induction false} AcceptConcat(st: Stack, a: seq<Event>, b: seq<Event>)
    ensures AcceptAll(st, a + b) == (var m := AcceptAll(st, a); if m.None? then None else AcceptAll(m.value, b))
    decreases |a|
  {
    if a == [] {
      assert a + b == b;
    } else {
      assert (a + b)[1..] == a[1..] + b;
      var m := Accept(st, a[0]);
      if m.Some? { AcceptConcat(m.value, a[1..], b); }
    }
  }

  /** The recognizer accepts trees: ... */
  lemma {:induction false} AcceptsNode(n: Node, st: Stack)
    requires GoodNode(n)
    ensures AcceptAll(st + [ToNode], Unparse(n)) == Some(st)
    decreases n, 1, 0
  {
    var st1 := st + [ToNode];
    assert Pop(st1) == st;
    match n
    case Leaf(e) =>
    case Sequence(e, kids) =>
      AcceptsSequence(n, 0, st);
      AcceptConcat(st1, [e], UnparseKids(n, 0) + [SequenceEnd]);
      assert [e] + UnparseKids(n, 0) + [SequenceEnd] == [e] + (UnparseKids(n, 0) + [SequenceEnd]);
    case Mapping(e, kids) =>
      AcceptsMapping(n, 0, st);
      AcceptConcat(st1, [e], UnparseKids(n, 0) + [MappingEnd]);
      assert [e] + UnparseKids(n, 0) + [MappingEnd] == [e] + (UnparseKids(n, 0) + [MappingEnd]);
  }

  /** A node event is taken alike where a node may come and where one has to come. */
  lemma NodeFirst(st: Stack, es: seq<Event>)
    requires es != []
    ensures st != [] && st[|st| - 1].InSequence? && !es[0].SequenceEnd? ==>
        AcceptAll(st, es) == AcceptAll(st + [ToNode], es)
    ensures st != [] && st[|st| - 1].InMapping? && !es[0].MappingEnd? ==>
        AcceptAll(st, es) == AcceptAll(st + [ToNode, ToNode], es)
  {
    assert Pop(st + [ToNode]) == st && Pop(st + [ToNode, ToNode]) == st + [ToNode];
  }

  lemma {:induction false} AcceptsSequence(n: Node, i: nat, st: Stack)
    requires n.Sequence? && GoodNode(n) && i <= |n.kids|
    ensures AcceptAll(st + [InSequence], UnparseKids(n, i) + [SequenceEnd]) == Some(st)
    decreases n, 0, |n.kids| - i
  {
    var st1 := st + [InSequence];
    if i == |n.kids| {
      assert Pop(st1) == st && [] + [SequenceEnd] == [SequenceEnd];
    } else {
      var es := Unparse(n.kids[i]);
      var rest := UnparseKids(n, i + 1) + [SequenceEnd];
      assert UnparseKids(n, i) + [SequenceEnd] == es + rest;
      NodeFirst(st1, es + rest);
      FirstEvent(n.kids[i]);
      AcceptsNode(n.kids[i], st1);
      AcceptConcat(st1 + [ToNode], es, rest);
      AcceptsSequence(n, i + 1, st);
    }
  }

  lemma FirstEvent(n: Node)
    requires GoodNode(n)
    ensures Unparse(n) != [] && Unparse(n)[0] == n.event && !n.event.SequenceEnd? && !n.event.MappingEnd?
  {}

  lemma {:induction false} AcceptsMapping(n: Node, i: nat, st: Stack)
    requires n.Mapping? && GoodNode(n) && i <= |n.kids| && i % 2 == 0
    ensures AcceptAll(st + [InMapping], UnparseKids(n, i) + [MappingEnd]) == Some(st)
    decreases n, 0, |n.kids| - i
  {
    var st1 := st + [InMapping];
    if i == |n.kids| {
      assert Pop(st1) == st && [] + [MappingEnd] == [MappingEnd];
    } else {
      var a, b := Unparse(n.kids[i]), Unparse(n.kids[i + 1]);
      var rest := UnparseKids(n, i + 2) + [MappingEnd];
      assert UnparseKids(n, i) + [MappingEnd] == a + (b + rest);
      NodeFirst(st1, a + (b + rest));
      FirstEvent(n.kids[i]);
      AcceptsNode(n.kids[i], st1 + [ToNode]);
      AcceptsNode(n.kids[i + 1], st1);
      assert st1 + [ToNode, ToNode] == st1 + [ToNode] + [ToNode];
      AcceptConcat(st1 + [ToNode, ToNode], a, b + rest);
      AcceptConcat(st1 + [ToNode], b, rest);
      AcceptsMapping(n, i + 2, st);
    }
  }

  lemma {:induction false} AcceptsDocs(ds: seq<Document>)
    requires GoodDocs(ds)
    ensures AcceptAll([Docs], UnparseDocs(ds) + [StreamEnd]) == Some([])
    decreases |ds|
  {
    if ds == [] {
      assert Pop([Docs]) == [] && [] + [StreamEnd] == [StreamEnd];
    } else {
      var es, rest := Unparse(ds[0].root), UnparseDocs(ds[1..]) + [StreamEnd];
      var e := DocumentEnd(ds[0].implicitEnd);
      assert UnparseDocs(ds) + [StreamEnd] == [DocumentStart] + (es + ([e] + rest));
      assert [Docs] + [ToEndDoc, ToNode] == [Docs, ToEndDoc] + [ToNode];
      AcceptsNode(ds[0].root, [Docs, ToEndDoc]);
      AcceptConcat([Docs, ToEndDoc] + [ToNode], es, [e] + rest);
      assert Pop([Docs, ToEndDoc]) == [Docs];
      AcceptsDocs(ds[1..]);
    }
  }

  // ----- and nothing else -----

  /** If a node is expected and the events are accepted to the end, they start with those of a node. */
  lemma {:induction false} NodeOf(st: Stack, es: seq<Event>) returns (n: Node, rest: seq<Event>)
    requires AcceptAll(st + [ToNode], es) == Some([])
    ensures GoodNode(n) && es == Unparse(n) + rest && AcceptAll(st, rest) == Some([])
    decreases |es|, 0
  {
    assert Pop(st + [ToNode]) == st;
    var e := es[0];
    rest := es[1..];
    match e
    case SequenceStart(_, _) =>
      var kids;
      kids, rest := SequenceOf(st, es[1..]);
      n := Node.Sequence(e, kids);
      KidsAreAll(n, 0);
      assert es == [e] + es[1..];
    case MappingStart(_, _) =>
      var kids;
      kids, rest := MappingOf(st, es[1..]);
      n := Node.Mapping(e, kids);
      KidsAreAll(n, 0);
      assert es == [e] + es[1..];
    case _ =>
      n := Leaf(e);
  }

  lemma {:induction false} SequenceOf(st: Stack, es: seq<Event>) returns (kids: seq<Node>, rest: seq<Event>)
    requires AcceptAll(st + [InSequence], es) == Some([])
    ensures (forall i :: 0 <= i < |kids| ==> GoodNode(kids[i]))
    ensures es == UnparseAll(kids) + [SequenceEnd] + rest && AcceptAll(st, rest) == Some([])
    decreases |es|, 1
  {
    assert Pop(st + [InSequence]) == st;
    if es[0].SequenceEnd? {
      kids, rest := [], es[1..];
    } else {
      NodeFirst(st + [InSequence], es);
      var n, more := NodeOf(st + [InSequence], es);
      FirstEvent(n);
      var ns;
      ns, rest := SequenceOf(st, more);
      kids := [n] + ns;
      assert kids[1..] == ns;
    }
  }

  /** A mapping ends, or two nodes are expected before it can. */
  lemma MappingFirst(st: Stack, es: seq<Event>)
    requires AcceptAll(st + [InMapping], es) == Some([])
    ensures es != []
    ensures if es[0].MappingEnd? then AcceptAll(st, es[1..]) == Some([])
            else AcceptAll(st + [InMapping] + [ToNode] + [ToNode], es) == Some([])
  {
    assert Pop(st + [InMapping]) == st;
    if !es[0].MappingEnd? {
      NodeFirst(st + [InMapping], es);
      assert st + [InMapping] + [ToNode, ToNode] == st + [InMapping] + [ToNode] + [ToNode];
    }
  }

  lemma {:induction false} MappingOf(st: Stack, es: seq<Event>) returns (kids: seq<Node>, rest: seq<Event>)
    requires AcceptAll(st + [InMapping], es) == Some([])
    ensures |kids| % 2 == 0 && (forall i :: 0 <= i < |kids| ==> GoodNode(kids[i]))
    ensures es == UnparseAll(kids) + [MappingEnd] + rest && AcceptAll(st, rest) == Some([])
    decreases |es|, 1
  {
    hide Accept, AcceptAll;
    MappingFirst(st, es);
    if es[0].MappingEnd? {
      kids, rest := [], es[1..];
      assert es == [] + [MappingEnd] + rest;
    } else {
      var k, more := NodeOf(st + [InMapping] + [ToNode], es);
      var v, more' := NodeOf(st + [InMapping], more);
      var ns;
      FirstEvent(k);
      ns, rest := MappingOf(st, more');
      kids := [k, v] + ns;
      PairFirst(k, v, ns);
    }
  }

  lemma PairFirst(k: Node, v: Node, ns: seq<Node>)
    ensures UnparseAll([k, v] + ns) == Unparse(k) + Unparse(v) + UnparseAll(ns)
  {
    var all := [k, v] + ns;
    assert all[1..] == [v] + ns && all[1..][1..] == ns;
  }

  lemma {:induction false} DocsOf(es: seq<Event>) returns (ds: seq<Document>)
    requires AcceptAll([Docs], es) == Some([])
    ensures GoodDocs(ds) && es == UnparseDocs(ds) + [StreamEnd]
    decreases |es|
  {
    assert Pop([Docs]) == [];
    if es[0].StreamEnd? {
      ds := [];
      assert es[1..] == [];
    } else {
      assert [Docs] + [ToEndDoc, ToNode] == [Docs, ToEndDoc] + [ToNode];
      var n, rest := NodeOf([Docs, ToEndDoc], es[1..]);
      assert Pop([Docs, ToEndDoc]) == [Docs];
      var more := DocsOf(rest[1..]);
      ds := [Document(n, rest[0].implicit)] + more;
      assert ds[1..] == more;
      assert es == [es[0]] + es[1..] && rest == [rest[0]] + rest[1..];
    }
  }

  lemma StreamFirst(es: seq<Event>)
    ensures AcceptAll([ToStart], es) == Some([]) <==>
            es != [] && es[0].StreamStart? && AcceptAll([Docs], es[1..]) == Some([])
  {
    assert Pop([ToStart]) + [Docs] == [Docs];
  }

  /** Accepted to the end are exactly the streams of documents. */
  lemma AcceptedIff(es: seq<Event>)
    ensures AcceptAll([ToStart], es) == Some([]) <==> exists ds :: GoodDocs(ds) && es == UnparseStream(ds)
  {
    hide AcceptAll, GoodDocs, UnparseDocs;
    StreamFirst(es);
    if AcceptAll([ToStart], es) == Some([]) {
      var ds := DocsOf(es[1..]);
      assert es == [es[0]] + es[1..];
      assert es == UnparseStream(ds);
    }
    if ds :| GoodDocs(ds) && es == UnparseStream(ds) {
      AcceptsDocs(ds);
      assert es[1..] == UnparseDocs(ds) + [StreamEnd];
    }
  }

  /** From every stack, the events can be brought to an end. */
  lemma {:induction false} Completion(st: Stack) returns (es: seq<Event>)
    ensures AcceptAll(st, es) == Some([])
    decreases |st|
  {
    if st == [] {
      es := [];
    } else {
      var more := Completion(Pop(st));
      var e :=
        match st[|st| - 1]
        case ToStart => StreamStart
        case Docs => StreamEnd
        case ToEndDoc => DocumentEnd(true)
        case ToNode => Alias("")
        case InSequence => SequenceEnd
        case InMapping => MappingEnd;
      if e.StreamStart? {
        assert Pop(Pop(st) + [Docs]) == Pop(st);
        es := [StreamStart, StreamEnd] + more;
        assert es[1..] == [StreamEnd] + more && es[1..][1..] == more;
      } else {
        es := [e] + more;
        assert es[1..] == more;
      }
    }
  }

  /** What is accepted is the beginning of a stream of documents. */
  lemma AcceptedIsPrefix(es: seq<Event>)
    requires AcceptAll([ToStart], es).Some?
    ensures exists ds :: GoodDocs(ds) && es <= UnparseStream(ds)
  {
    var st := AcceptAll([ToStart], es).value;
    var more := Completion(st);
    AcceptConcat([ToStart], es, more);
    AcceptedIff(es + more);
  }
}
