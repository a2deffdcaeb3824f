/** The trie of misspell's replacer as it is kept and changed in memory. */
module MisspellNode {
  import opened Options
  import opened MisspellAscii
  import opened MisspellTrie

  class TrieNode {
    var value: Bytes
    var priority: nat
    var prefix: Bytes
    var next: TrieNode?
    var table: array?<TrieNode?>
    ghost var t: Trie
    ghost var repr: set<object>

    constructor ()
      ensures Valid() && t == NEW_NODE && fresh(repr) && this in repr
    {
      value, priority, prefix, next, table := [], 0, [], null, null;
      t, repr := NEW_NODE, {this};
    }

    /** A node with an empty table. */
    constructor Root(size: nat)
      ensures Valid() && fresh(repr) && t == Trie(None, Table(seq(size, _ => None)))
    {
      var tbl := new TrieNode?[size](_ => null);
      value, priority, prefix, next, table := [], 0, [], null, tbl;
      t, repr := Trie(None, Table(seq(size, _ => None))), {this, tbl};
    }

    constructor Edge(prefix: Bytes, next: TrieNode)
      requires prefix != [] && next.Valid()
      ensures Valid() && t == Trie(None, Below(prefix, next.t)) && repr == {this} + next.repr
      ensures this !in next.repr
    {
      this.value, priority, this.prefix, this.next, table := [], 0, prefix, next, null;
      t, repr := Trie(None, Below(prefix, next.t)), {this} + next.repr;
    }

    /** A table entry within `space` is what the trie has as a child. */
    static ghost predicate KidIs(c: TrieNode?, v: Option<Trie>, space: set<object>)
      reads space
      decreases space, 2
    {
      if c == null then v.None? else c in space && c in c.repr && c.repr <= space && c.Valid() && v == Some(c.t)
    }

    ghost predicate Valid()
      reads this, repr
      decreases repr, 1
    {
      && this in repr
      && t.own == (if priority == 0 then None else Some(Entry(value, priority)))
      && match t.kids
         case NoKids => prefix == [] && next == null && table == null
         case Below(p, sub) =>
           && prefix == p != [] && table == null
           && next != null && next in repr && next.repr <= repr && this !in next.repr
           && next.Valid() && next.t == sub
         case Table(ts) =>
           && prefix == [] && next == null
           && table != null && table in repr && table.Length == |ts|
           && (forall m {:trigger ts[m]} {:trigger table[m]} :: 0 <= m < |ts| ==>
               KidIs(table[m], ts[m], repr - {this, table}))
           && (forall m, n :: 0 <= m < n < |ts| && table[m] != null && table[n] != null
                 ==> table[m] in repr && table[n] in repr && table[m].repr !! table[n].repr)
    }

    lemma BelowFacts()
      requires Valid() && t.kids.Below?
      ensures this in repr && t.own == (if priority == 0 then None else Some(Entry(value, priority)))
      ensures prefix == t.kids.prefix != [] && table == null
      ensures next != null && next in repr && next.repr <= repr && this !in next.repr
      ensures next.Valid() && next.t == t.kids.sub && next in next.repr
    {}

    lemma OwnFacts()
      requires Valid()
      ensures this in repr && t.own == (if priority == 0 then None else Some(Entry(value, priority)))
    {}

    lemma KindFacts()
      requires Valid()
      ensures this in repr && t.own == (if priority == 0 then None else Some(Entry(value, priority)))
      ensures table != null <==> t.kids.Table?
      ensures prefix != [] <==> t.kids.Below?
      ensures table != null ==> table.Length == |t.kids.table|
    {}

    lemma KidFacts(m: nat)
      requires Valid() && t.kids.Table? && m < |t.kids.table|
      ensures table != null && table.Length == |t.kids.table|
      ensures table[m] == null ==> t.kids.table[m] == None
      ensures table[m] != null ==>
                && table[m].Valid() && table[m] in table[m].repr && table[m].repr <= repr - {this}
                && t.kids.table[m] == Some(table[m].t)
    {
      assert KidIs(table[m], t.kids.table[m], repr - {this, table});
    }

    /** A node with a table that holds just two children. */
    lemma TwoKids(i: nat, p: TrieNode, j: nat, k: TrieNode)
      requires this in repr && t.own == (if priority == 0 then None else Some(Entry(value, priority)))
      requires t.kids.Table? && prefix == [] && next == null
      requires table != null && table in repr && table.Length == |t.kids.table| && i < table.Length && j < table.Length
          && i != j
      requires table[i] == p && table[j] == k && forall m :: 0 <= m < table.Length && m != i && m != j ==>
          table[m] == null
      requires t.kids.table[i] == Some(p.t) && t.kids.table[j] == Some(k.t)
      requires forall m :: 0 <= m < table.Length && m != i && m != j ==> t.kids.table[m] == None
      requires p.Valid() && k.Valid() && p in p.repr && k in k.repr && p.repr !! k.repr
      requires p.repr + k.repr <= repr - {this, table}
      ensures Valid()
    {}

    // ----- adding a key -----

    method AddKey(key: Bytes, val: Bytes, prio: nat, code: Coding)
      requires CodingOk(code) && KeyIn(code, key) && prio > 0
      requires Valid() && Shape(code, t)
      modifies repr
      ensures Valid() && fresh(repr - old(repr))
      ensures t == Add(code, old(t), key, Entry(val, prio))
      decreases |key|, 1
    {
      if key == [] {
        if priority == 0 {
          value, priority := val, prio;
          t := t.(own := Some(Entry(val, prio)));
        }
      } else if prefix != [] {
        var n := 0;
        while n < |prefix| && n < |key| && prefix[n] == key[n]
          invariant n <= |prefix| && n <= |key| && prefix[..n] == key[..n]
        {
          n := n + 1;
        }
        CommonIs(prefix, key, n);
        if n == |prefix| {
          Extend(key, val, prio, code);
        } else if n == 0 {
          Branch(key, val, prio, code);
        } else {
          Cut(n, key, val, prio, code);
        }
      } else if table != null {
        AddInTable(key, val, prio, code);
      } else {
        Start(key, val, prio, code);
      }
    }

    /** The key goes on below the whole prefix. */
    method Extend(key: Bytes, val: Bytes, prio: nat, code: Coding)
      requires CodingOk(code) && KeyIn(code, key) && prio > 0 && key != []
      requires Valid() && Shape(code, t) && t.kids.Below? && Common(t.kids.prefix, key) == |prefix|
      modifies repr
      ensures Valid() && fresh(repr - old(repr))
      ensures t == Add(code, old(t), key, Entry(val, prio))
      decreases |key|, 0
    {
      hide CodingOk;
      next.AddKey(key[|prefix|..], val, prio, code);
      repr := repr + next.repr;
      t := t.(kids := Below(prefix, next.t));
    }

    /** A node is put in after the first `n` bytes of the prefix. */
    method Cut(n: nat, key: Bytes, val: Bytes, prio: nat, code: Coding)
      requires CodingOk(code) && KeyIn(code, key) && prio > 0 && key != []
      requires Valid() && Shape(code, t) && t.kids.Below? && 0 < n == Common(t.kids.prefix, key) < |prefix|
      modifies repr
      ensures Valid() && fresh(repr - old(repr))
      ensures t == Add(code, old(t), key, Entry(val, prio))
      decreases |key|, 0
    {
      hide CodingOk, Shape, Add, KeyIn, Common;
      CutStep(code, t, key, Entry(val, prio));
      var below := new TrieNode.Edge(prefix[n..], next);
      prefix := prefix[..n];
      next := below;
      below.AddKey(key[n..], val, prio, code);
      repr := repr + below.repr;
      t := t.(kids := Below(prefix, below.t));
    }

    /** A node without children gets one. */
    method Start(key: Bytes, val: Bytes, prio: nat, code: Coding)
      requires CodingOk(code) && KeyIn(code, key) && prio > 0 && key != []
      requires Valid() && Shape(code, t) && t.kids.NoKids?
      modifies repr
      ensures Valid() && fresh(repr - old(repr))
      ensures t == Add(code, old(t), key, Entry(val, prio))
      decreases |key|, 0
    {
      hide CodingOk;
      prefix := key;
      next := new TrieNode();
      next.AddKey([], val, prio, code);
      repr := repr + next.repr;
      t := t.(kids := Below(key, next.t));
    }

    /** A node without children below gets a table with two of them. */
    method BecomeTable(size: nat, i: nat, p: TrieNode, j: nat, k: TrieNode)
      requires Valid() && i < size && j < size && i != j
      requires p.Valid() && k.Valid() && p in p.repr && k in k.repr && p.repr !! k.repr && this !in p.repr + k.repr
      modifies `prefix, `next, `table, `t, `repr
      ensures Valid() && fresh(table) && repr == old(repr) + p.repr + k.repr + {table}
      ensures t == old(t).(kids := Table(TwoIn(size, i, p.t, j, k.t)))
    {
      OwnFacts();
      hide TwoIn, Valid, KidIs;
      var tbl := new TrieNode?[size](_ => null);
      tbl[i] := p;
      tbl[j] := k;
      table, prefix, next := tbl, [], null;
      repr := repr + p.repr + k.repr + {tbl};
      t := t.(kids := Table(TwoIn(size, i, p.t, j, k.t)));
      assert p.Valid() && k.Valid();
      TwoKids(i, p, j, k);
    }

    /** A table gets a new child. */
    method PutChild(m: nat)
      requires Valid() && t.kids.Table? && m < |t.kids.table| && table[m] == null
      modifies `t, `repr, table
      ensures Valid() && table[m] != null && fresh(repr - old(repr))
      ensures t == old(t).(kids := Table(old(t).kids.table[m := Some(NEW_NODE)]))
    {
      var c := new TrieNode();
      table[m] := c;
      repr := repr + c.repr;
      t := t.(kids := Table(t.kids.table[m := Some(NEW_NODE)]));
    }

    method AddToChild(m: nat, key: Bytes, val: Bytes, prio: nat, code: Coding)
      requires CodingOk(code) && KeyIn(code, key) && prio > 0
      requires Valid() && Shape(code, t) && t.kids.Table? && m < |t.kids.table| && t.kids.table[m].Some?
      modifies repr
      ensures Valid() && fresh(repr - old(repr))
      ensures t == old(t).(kids := Table(old(t).kids.table[m := Some(Add(code, old(t).kids.table[m].value, key,
          Entry(val, prio)))]))
      decreases |key|, 2
    {
      assert Shape(code, t.kids.table[m].value);
      hide CodingOk, KeyIn, Add, Shape;
      var c := table[m];
      assert KidIs(c, t.kids.table[m], repr - {this, table});
      label before:
      c.AddKey(key, val, prio, code);
      repr := repr + c.repr;
      t := t.(kids := Table(t.kids.table[m := Some(c.t)]));
      forall n | 0 <= n < table.Length && n != m
        ensures KidIs(table[n], t.kids.table[n], repr - {this, table})
        ensures table[n] != null ==> table[n].repr == old@before(table[n].repr) && table[n].repr !! c.repr
      {
        assert old@before(KidIs(table[n], t.kids.table[n], repr - {this, table}));
      }
    }

    /** The node for what follows the first byte of the prefix. */
    method RestNode() returns (c: TrieNode)
      requires Valid() && t.kids.Below?
      ensures c.Valid() && c in c.repr && c.t == Rest(t.kids.prefix, t.kids.sub)
      ensures this !in c.repr && fresh(c.repr - repr)
    {
      if |prefix| == 1 { c := next; } else { c := new TrieNode.Edge(prefix[1..], next); }
    }

    /** The first byte differs: a table takes the place of the prefix. */
    method Branch(key: Bytes, val: Bytes, prio: nat, code: Coding)
      requires CodingOk(code) && KeyIn(code, key) && prio > 0 && key != []
      requires Valid() && Shape(code, t) && t.kids.Below? && Common(t.kids.prefix, key) == 0
      modifies repr
      ensures Valid() && fresh(repr - old(repr))
      ensures t == Add(code, old(t), key, Entry(val, prio))
      decreases |key|, 0
    {
      hide CodingOk, Add, KeyIn, Common, Rest, Valid, Shape;
      BranchStep(code, t, key, Entry(val, prio));
      BelowFacts();
      var prefixNode := RestNode();
      var keyNode := new TrieNode();
      var i, j := Index(code, prefix[0]), Index(code, key[0]);
      BecomeTable(code.tableSize, i, prefixNode, j, keyNode);
      AddToChild(j, key[1..], val, prio, code);
    }

    method AddInTable(key: Bytes, val: Bytes, prio: nat, code: Coding)
      requires CodingOk(code) && KeyIn(code, key) && prio > 0 && key != []
      requires Valid() && Shape(code, t) && t.kids.Table?
      modifies repr
      ensures Valid() && fresh(repr - old(repr))
      ensures t == Add(code, old(t), key, Entry(val, prio))
      decreases |key|, 0
    {
      assert Uses(code, key[0]);
      var m := Index(code, key[0]);
      if table[m] == null { PutChild(m); }
      AddToChild(m, key[1..], val, prio, code);
    }
  }

  lemma BranchStep(code: Coding, t: Trie, key: Bytes, e: Entry)
    requires CodingOk(code) && KeyIn(code, key) && key != []
    requires Shape(code, t) && t.kids.Below? && Common(t.kids.prefix, key) == 0
    ensures |code.mapping| == 256 && KeyIn(code, key[1..]) && t.kids.prefix != []
    ensures var i, j := Index(code, t.kids.prefix[0]), Index(code, key[0]);
            && i < code.tableSize && j < code.tableSize && i != j
            && Shape(code, t.(kids := Table(TwoIn(code.tableSize, i, Rest(t.kids.prefix, t.kids.sub), j, NEW_NODE))))
            && TwoIn(code.tableSize, i, Rest(t.kids.prefix, t.kids.sub), j,
                NEW_NODE)[j := Some(Add(code, NEW_NODE, key[1..], e))]
               == TwoIn(code.tableSize, i, Rest(t.kids.prefix, t.kids.sub), j, Add(code, NEW_NODE, key[1..], e))
            && Add(code, t, key, e) == t.(kids := Table(
                 TwoIn(code.tableSize, i, Rest(t.kids.prefix, t.kids.sub), j, Add(code, NEW_NODE, key[1..], e))))
  {
    assert Uses(code, t.kids.prefix[0]) && Uses(code, key[0]);
  }

  lemma CutStep(code: Coding, t: Trie, key: Bytes, e: Entry)
    requires CodingOk(code) && KeyIn(code, key) && key != []
    requires Shape(code, t) && t.kids.Below? && 0 < Common(t.kids.prefix, key) < |t.kids.prefix|
    ensures |code.mapping| == 256
    ensures var n := Common(t.kids.prefix, key);
            var below := Trie(None, Below(t.kids.prefix[n..], t.kids.sub));
            && n <= |key| && KeyIn(code, key[n..]) && Shape(code, below)
            && Add(code, t, key, e) == t.(kids := Below(t.kids.prefix[..n], Add(code, below, key[n..], e)))
  {}

  lemma {:induction false} CommonIs(p: Bytes, k: Bytes, n: nat)
    requires n <= |p| && n <= |k| && p[..n] == k[..n]
    requires n < |p| && n < |k| ==> p[n] != k[n]
    ensures n == Common(p, k)
  {
    var c := Common(p, k);
    assert p[..c] == k[..c];
    assert n < |p| && n < |k| ==> c <= n;
  }
}
