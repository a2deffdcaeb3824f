/** The trie behind misspell's replacer as a value: prefix-compressed nodes with tables where
    keys part. */
module MisspellTrie {
  import opened Options
  import opened MisspellAscii

  datatype Entry = Entry(val: Bytes, priority: nat)

  /** The dense index of the bytes that occur in keys; all others have index `tableSize`. */
  datatype Coding = Coding(tableSize: nat, mapping: seq<nat>)

  datatype Trie = Trie(own: Option<Entry>, kids: Kids)

  datatype Kids = NoKids | Below(prefix: Bytes, sub: Trie) | Table(table: seq<Option<Trie>>)

  function Index(code: Coding, b: Byte): nat
    requires |code.mapping| == 256
  {
    code.mapping[b]
  }

  predicate Uses(code: Coding, b: Byte)
    requires |code.mapping| == 256
  {
    Index(code, b) < code.tableSize
  }

  ghost predicate CodingOk(code: Coding) {
    && |code.mapping| == 256 && code.tableSize <= 256
    && (forall b :: !Uses(code, b) ==> Index(code, b) == code.tableSize)
    && (forall b, c :: Uses(code, b) && Uses(code, c) && b != c ==> Index(code, b) != Index(code, c))
  }

  predicate KeyIn(code: Coding, k: Bytes)
    requires |code.mapping| == 256
  {
    forall i :: 0 <= i < |k| ==> Uses(code, k[i])
  }

  ghost predicate Shape(code: Coding, t: Trie)
    requires CodingOk(code)
    decreases t
  {
    && (t.own.Some? ==> t.own.value.priority > 0)
    && match t.kids
       case NoKids => true
       case Below(prefix, sub) => prefix != [] && KeyIn(code, prefix) && Shape(code, sub)
       case Table(table) => |table| == code.tableSize && forall m :: 0 <= m < |table| && table[m].Some? ==>
           Shape(code, table[m].value)
  }

  /** The child for a byte. */
  function Kid(code: Coding, table: seq<Option<Trie>>, b: Byte): Option<Trie>
    requires |code.mapping| == 256
  {
    if Index(code, b) < |table| then table[Index(code, b)] else None
  }

  /** What the trie holds for a key. */
  function Find(code: Coding, t: Trie, k: Bytes): Option<Entry>
    requires |code.mapping| == 256
    decreases t
  {
    if k == [] then t.own
    else
      match t.kids
      case NoKids => None
      case Below(prefix, sub) => if prefix <= k then Find(code, sub, k[|prefix|..]) else None
      case Table(table) =>
        var kid := Kid(code, table, k[0]);
        if kid.Some? then Find(code, kid.value, k[1..]) else None
  }

  /** The length of the longest common prefix. */
  function Common(p: Bytes, k: Bytes): (n: nat)
    ensures n <= |p| && n <= |k| && p[..n] == k[..n]
    ensures n < |p| && n < |k| ==> p[n] != k[n]
  {
    if p == [] || k == [] || p[0] != k[0] then 0
    else
      var n := Common(p[1..], k[1..]);
      assert p[..n + 1] == [p[0]] + p[1..][..n] && k[..n + 1] == [k[0]] + k[1..][..n];
      1 + n
  }

  const NEW_NODE := Trie(None, NoKids)

  /** The node for what follows the first byte of a prefix. */
  function Rest(prefix: Bytes, sub: Trie): Trie
    requires prefix != []
  {
    if |prefix| == 1 then sub else Trie(None, Below(prefix[1..], sub))
  }

  /** A table with two children. */
  function TwoIn(size: nat, i: nat, a: Trie, j: nat, b: Trie): (table: seq<Option<Trie>>)
    requires i < size && j < size
    ensures |table| == size && table[j] == Some(b) && (i != j ==> table[i] == Some(a))
    ensures forall m :: 0 <= m < size && m != i && m != j ==> table[m] == None
  {
    seq(size, _ => None)[i := Some(a)][j := Some(b)]
  }

  function Add(code: Coding, t: Trie, key: Bytes, e: Entry): Trie
    requires CodingOk(code) && Shape(code, t) && KeyIn(code, key)
    decreases |key|
  {
    if key == [] then
      if t.own.None? then t.(own := Some(e)) else t
    else
      match t.kids
      case NoKids => t.(kids := Below(key, Add(code, NEW_NODE, [], e)))
      case Below(prefix, sub) =>
        var n := Common(prefix, key);
        if n == |prefix| then t.(kids := Below(prefix, Add(code, sub, key[n..], e)))
        else if n == 0 then
          t.(kids := Table(TwoIn(code.tableSize, Index(code, prefix[0]), Rest(prefix, sub),
                                 Index(code, key[0]), Add(code, NEW_NODE, key[1..], e))))
        else
          t.(kids := Below(prefix[..n], Add(code, Trie(None, Below(prefix[n..], sub)), key[n..], e)))
      case Table(table) =>
        var m := Index(code, key[0]);
        var kid := if table[m].Some? then table[m].value else NEW_NODE;
        t.(kids := Table(table[m := Some(Add(code, kid, key[1..], e))]))
  }

  lemma {:induction false} AddShape(code: Coding, t: Trie, key: Bytes, e: Entry)
    requires CodingOk(code) && Shape(code, t) && KeyIn(code, key) && e.priority > 0
    ensures Shape(code, Add(code, t, key, e))
    decreases |key|, 1
  {
    assert |code.mapping| == 256;
    hide CodingOk;
    if key != [] {
      match t.kids
      case NoKids => AddShape(code, NEW_NODE, [], e);
      case Below(prefix, sub) =>
        var n := Common(prefix, key);
        if n == |prefix| {
          AddShape(code, sub, key[n..], e);
        } else if n == 0 {
          BranchShape(code, t, key, e);
        } else {
          AddShape(code, Trie(None, Below(prefix[n..], sub)), key[n..], e);
        }
      case Table(table) =>
        var m := Index(code, key[0]);
        assert Uses(code, key[0]);
        AddShape(code, if table[m].Some? then table[m].value else NEW_NODE, key[1..], e);
    }
  }

  lemma {:induction false} BranchShape(code: Coding, t: Trie, key: Bytes, e: Entry)
    requires CodingOk(code) && Shape(code, t) && KeyIn(code, key) && key != [] && e.priority > 0
    requires t.kids.Below? && Common(t.kids.prefix, key) == 0
    ensures Shape(code, Add(code, t, key, e))
    decreases |key|, 0
  {
    assert |code.mapping| == 256;
    hide CodingOk;
    var prefix := t.kids.prefix;
    assert Uses(code, prefix[0]) && Uses(code, key[0]);
    assert Shape(code, Rest(prefix, t.kids.sub));
    AddShape(code, NEW_NODE, key[1..], e);
  }

  /** Cutting a prefix in two changes nothing. */
  lemma CutFinds(code: Coding, own: Option<Entry>, p: Bytes, q: Bytes, sub: Trie, k: Bytes)
    requires |code.mapping| == 256 && p != [] && q != [] && k != []
    ensures Find(code, Trie(own, Below(p + q, sub)), k) ==
            if p <= k then Find(code, Trie(None, Below(q, sub)), k[|p|..]) else None
  {
    if p <= k {
      assert p + k[|p|..] == k;
      if q <= k[|p|..] {
        assert k[|p|..][|q|..] == k[|p + q|..];
        assert p + q == k[..|p + q|];
      }
    }
  }

  lemma RestFinds(code: Coding, own: Option<Entry>, prefix: Bytes, sub: Trie, k: Bytes)
    requires |code.mapping| == 256 && prefix != [] && k != []
    ensures Find(code, Trie(own, Below(prefix, sub)), k) ==
            if k[0] == prefix[0] then Find(code, Rest(prefix, sub), k[1..]) else None
  {
    if |prefix| > 1 {
      assert prefix == [prefix[0]] + prefix[1..];
      CutFinds(code, own, [prefix[0]], prefix[1..], sub, k);
    }
  }

  /** A key that is added is found, unless it was there before; nothing else changes. */
  lemma {:induction false} AddFinds(code: Coding, t: Trie, key: Bytes, e: Entry, k: Bytes)
    requires CodingOk(code) && Shape(code, t) && KeyIn(code, key)
    ensures Find(code, Add(code, t, key, e), k) ==
            if k == key && Find(code, t, k).None? then Some(e) else Find(code, t, k)
    decreases |key|, 1
  {
    if key != [] && k != [] {
      match t.kids
      case NoKids => if key <= k { AddFinds(code, NEW_NODE, [], e, k[|key|..]); }
      case Below(prefix, sub) =>
        var n := Common(prefix, key);
        if n == |prefix| {
          hide CodingOk;
          assert prefix + key[n..] == key;
          if prefix <= k { assert k == prefix + k[n..]; AddFinds(code, sub, key[n..], e, k[n..]); }
        } else if n == 0 {
          BranchFinds(code, t, key, e, k);
        } else {
          CutAddFinds(code, t, key, e, k);
        }
      case Table(table) => TableFinds(code, t, key, e, k);
    }
  }

  lemma {:induction false} BranchFinds(code: Coding, t: Trie, key: Bytes, e: Entry, k: Bytes)
    requires CodingOk(code) && Shape(code, t) && KeyIn(code, key) && key != [] && k != []
    requires t.kids.Below? && Common(t.kids.prefix, key) == 0
    ensures Find(code, Add(code, t, key, e), k) ==
            if k == key && Find(code, t, k).None? then Some(e) else Find(code, t, k)
    decreases |key|, 0
  {
    var prefix := t.kids.prefix;
    RestFinds(code, t.own, prefix, t.kids.sub, k);
    assert Uses(code, prefix[0]) && Uses(code, key[0]);
    if k[0] == key[0] {
      assert key == [key[0]] + key[1..] && k == [k[0]] + k[1..];
      AddFinds(code, NEW_NODE, key[1..], e, k[1..]);
    }
    hide Add;
  }

  lemma {:induction false} CutAddFinds(code: Coding, t: Trie, key: Bytes, e: Entry, k: Bytes)
    requires CodingOk(code) && Shape(code, t) && KeyIn(code, key) && key != [] && k != []
    requires t.kids.Below? && 0 < Common(t.kids.prefix, key) < |t.kids.prefix|
    ensures Find(code, Add(code, t, key, e), k) ==
            if k == key && Find(code, t, k).None? then Some(e) else Find(code, t, k)
    decreases |key|, 0
  {
    var prefix, sub := t.kids.prefix, t.kids.sub;
    var n := Common(prefix, key);
    assert prefix == prefix[..n] + prefix[n..] && key == prefix[..n] + key[n..];
    CutFinds(code, t.own, prefix[..n], prefix[n..], sub, k);
    if prefix[..n] <= k {
      assert k == prefix[..n] + k[n..];
      AddFinds(code, Trie(None, Below(prefix[n..], sub)), key[n..], e, k[n..]);
    }
  }

  lemma {:induction false} TableFinds(code: Coding, t: Trie, key: Bytes, e: Entry, k: Bytes)
    requires CodingOk(code) && Shape(code, t) && KeyIn(code, key) && key != [] && k != []
    requires t.kids.Table?
    ensures Find(code, Add(code, t, key, e), k) ==
            if k == key && Find(code, t, k).None? then Some(e) else Find(code, t, k)
    decreases |key|, 0
  {
    var table := t.kids.table;
    var m := Index(code, key[0]);
    assert Uses(code, key[0]);
    if k[0] == key[0] {
      assert key == [key[0]] + key[1..] && k == [k[0]] + k[1..];
      AddFinds(code, if table[m].Some? then table[m].value else NEW_NODE, key[1..], e, k[1..]);
    }
  }
}
