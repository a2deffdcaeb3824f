/** The replacer of misspell: its byte coding, the lookup of the rule that matches, and the
    replacement of all matches in a text. */
module MisspellReplacer {
  import opened Options
  import opened MisspellAscii
  import opened MisspellTrie
  import opened MisspellNode

  // ----- the dense coding of key bytes -----

  function Ones(m: seq<nat>, n: nat): (c: nat)
    requires n <= |m|
    ensures c <= n
  {
    if n == 0 then 0 else Ones(m, n - 1) + if m[n - 1] == 1 then 1 else 0
  }

  lemma {:induction false} OnesMono(m: seq<nat>, i: nat, j: nat)
    requires i <= j <= |m|
    ensures Ones(m, i) <= Ones(m, j)
    ensures i < j && m[i] == 1 ==> Ones(m, i) < Ones(m, j)
    decreases j
  {
    if i < j { OnesMono(m, i, j - 1); }
  }

  lemma {:induction false} AllOnes(m: seq<nat>, n: nat, i: nat)
    requires n <= |m| && i < n && m[i] != 1
    ensures Ones(m, n) < n
    decreases n
  {
    if i < n - 1 { AllOnes(m, n - 1, i); }
  }

  datatype Rule = Rule(key: Bytes, val: Bytes)

  /** The keys have been converted to lower case. */
  predicate LowerKeys(rules: seq<Rule>) {
    forall i :: 0 <= i < |rules| ==> IsLower(rules[i].key)
  }

  ghost predicate LowerCode(code: Coding)
    requires |code.mapping| == 256
  {
    forall b :: Uses(code, b) ==> !IsUpper(b)
  }

  /** The bytes that occur in the first `n` keys, and in the first `j` bytes of key `n`. */
  ghost predicate Occurs(rules: seq<Rule>, n: nat, j: nat, b: Byte)
    requires n <= |rules| && (n < |rules| ==> j <= |rules[n].key|)
  {
    || (exists i :: 0 <= i < n && b in rules[i].key)
    || (n < |rules| && exists k :: 0 <= k < j && rules[n].key[k] == b)
  }

  lemma OccursNext(rules: seq<Rule>, n: nat, j: nat)
    requires n < |rules| && j < |rules[n].key|
    ensures forall b: Byte :: Occurs(rules, n, j + 1, b) <==> Occurs(rules, n, j, b) || b == rules[n].key[j]
  {
    forall b: Byte
      ensures Occurs(rules, n, j + 1, b) <==> Occurs(rules, n, j, b) || b == rules[n].key[j]
    {
      assert b == rules[n].key[j] ==> Occurs(rules, n, j + 1, b);
      if k :| 0 <= k < j + 1 && rules[n].key[k] == b {
        assert k < j ==> Occurs(rules, n, j, b);
      }
    }
  }

  lemma OccursRow(rules: seq<Rule>, n: nat)
    requires n < |rules|
    ensures forall b: Byte :: Occurs(rules, n + 1, 0, b) <==> Occurs(rules, n, |rules[n].key|, b)
  {}

  predicate ZeroOne(m: seq<nat>) {
    forall k :: 0 <= k < |m| ==> m[k] == 0 || m[k] == 1
  }

  ghost predicate Marked(used: seq<nat>, rules: seq<Rule>, n: nat, j: nat)
    requires n <= |rules| && (n < |rules| ==> j <= |rules[n].key|)
  {
    |used| == 256 && forall b: Byte :: used[b] == if Occurs(rules, n, j, b) then 1 else 0
  }

  /** Which bytes occur in keys. */
  method MarkUsed(rules: seq<Rule>) returns (used: seq<nat>)
    ensures Marked(used, rules, |rules|, 0) && ZeroOne(used)
  {
    OccursNone(rules);
    hide Occurs;
    used := seq(256, _ => 0);
    for i := 0 to |rules|
      invariant Marked(used, rules, i, 0)
    {
      for j := 0 to |rules[i].key|
        invariant Marked(used, rules, i, j)
      {
        OccursNext(rules, i, j);
        ghost var before := used;
        used := used[rules[i].key[j] := 1];
        forall b: Byte
          ensures used[b] == if Occurs(rules, i, j + 1, b) then 1 else 0
        {
          assert before[b] == if Occurs(rules, i, j, b) then 1 else 0;
          assert Occurs(rules, i, j + 1, b) <==> Occurs(rules, i, j, b) || b == rules[i].key[j];
        }
      }
      OccursRow(rules, i);
    }
  }

  lemma OccursNone(rules: seq<Rule>)
    ensures forall b: Byte :: !Occurs(rules, 0, 0, b)
  {}

  /** Byte `k` gets the number of used bytes below it, or of all of them if it is not used. */
  method NumberUsed(used: seq<nat>) returns (code: Coding)
    requires |used| == 256 && ZeroOne(used)
    ensures |code.mapping| == 256 && code.tableSize == Ones(used, 256)
    ensures forall k :: 0 <= k < 256 ==> code.mapping[k] == if used[k] == 1 then Ones(used, k) else code.tableSize
  {
    var tableSize := 0;
    for i := 0 to 256
      invariant tableSize == Ones(used, i)
    {
      tableSize := tableSize + used[i];
    }
    var mapping, index := used, 0;
    for i := 0 to 256
      invariant |mapping| == 256 && index == Ones(used, i) % 256
      invariant forall k :: i <= k < 256 ==> mapping[k] == used[k]
      invariant forall k :: 0 <= k < i ==> mapping[k] == if used[k] == 1 then Ones(used, k) else tableSize
    {
      if mapping[i] == 0 {
        AllOnes(used, 256, i);
        mapping := mapping[i := tableSize % 256];
      } else {
        mapping := mapping[i := index];
        index := (index + 1) % 256;
      }
    }
    code := Coding(tableSize, mapping);
  }

  /** A byte has an index below the table size iff it occurs in a key, and no two have the same. */
  method MakeCoding(rules: seq<Rule>) returns (code: Coding)
    ensures CodingOk(code)
    ensures forall b: Byte :: Uses(code, b) <==> Occurs(rules, |rules|, 0, b)
  {
    var used := MarkUsed(rules);
    code := NumberUsed(used);
    forall b: Byte
      ensures Index(code, b) == if used[b] == 1 then Ones(used, b) else code.tableSize
      ensures used[b] == 1 ==> Uses(code, b)
    {
      OnesMono(used, b, 256);
    }
    forall b: Byte, c: Byte | used[b] == 1 && used[c] == 1 && b != c
      ensures Index(code, b) != Index(code, c)
    {
      if b < c {
        OnesMono(used, b, c);
      } else {
        OnesMono(used, c, b);
      }
    }
  }

  // ----- what the trie holds for a list of rules -----

  /** The entry of the first of the first `n` rules with key `k`; earlier rules have higher
      priorities. */
  function EntryOf(rules: seq<Rule>, n: nat, k: Bytes): Option<Entry>
    requires n <= |rules|
  {
    if n == 0 then None
    else if EntryOf(rules, n - 1, k).Some? then EntryOf(rules, n - 1, k)
    else if rules[n - 1].key == k then Some(Entry(rules[n - 1].val, 2 * (|rules| - (n - 1))))
    else None
  }

  ghost predicate Built(code: Coding, t: Trie, rules: seq<Rule>, n: nat)
    requires n <= |rules|
  {
    && CodingOk(code) && Shape(code, t) && t.kids.Table?
    && forall k: Bytes {:trigger Find(code, t, k)} :: Find(code, t, k) == EntryOf(rules, n, k)
  }

  lemma EmptyBuilt(code: Coding, rules: seq<Rule>)
    requires CodingOk(code)
    ensures Built(code, Trie(None, Table(seq(code.tableSize, _ => None))), rules, 0)
  {}

  lemma AddBuilt(code: Coding, t: Trie, rules: seq<Rule>, n: nat)
    requires n < |rules| && Built(code, t, rules, n) && KeyIn(code, rules[n].key)
    ensures Built(code, Add(code, t, rules[n].key, Entry(rules[n].val, 2 * (|rules| - n))), rules, n + 1)
  {
    var key, e := rules[n].key, Entry(rules[n].val, 2 * (|rules| - n));
    AddShape(code, t, key, e);
    assert Add(code, t, key, e).kids.Table?;
    hide Add, Shape, CodingOk;
    forall k
      ensures Find(code, Add(code, t, key, e), k) == EntryOf(rules, n + 1, k)
    {
      hide Find;
      AddFinds(code, t, key, e, k);
    }
  }

  lemma KeysUse(code: Coding, rules: seq<Rule>, i: nat)
    requires CodingOk(code) && i < |rules| && forall b: Byte :: Uses(code, b) <==> Occurs(rules, |rules|, 0, b)
    ensures KeyIn(code, rules[i].key)
  {}

  lemma UsedAreLower(code: Coding, rules: seq<Rule>)
    requires CodingOk(code) && LowerKeys(rules) && forall b: Byte :: Uses(code, b) <==> Occurs(rules, |rules|, 0, b)
    ensures LowerCode(code)
  {
    forall b: Byte | Uses(code, b)
      ensures !IsUpper(b)
    {
      var i :| 0 <= i < |rules| && b in rules[i].key;
    }
  }

  // ----- the reference: a scan of the list -----

  predicate Matches(rule: Rule, s: Bytes, ignoreEmpty: bool) {
    HasPrefixFold(s, rule.key) && !(ignoreEmpty && rule.key == [])
  }

  /** The first rule that matches at the start of `s`, or |rules|. */
  function FirstMatch(rules: seq<Rule>, s: Bytes, ignoreEmpty: bool): (i: nat)
    ensures i <= |rules|
    ensures i < |rules| ==> Matches(rules[i], s, ignoreEmpty)
    ensures forall j :: 0 <= j < i ==> !Matches(rules[j], s, ignoreEmpty)
  {
    if rules == [] || Matches(rules[0], s, ignoreEmpty) then 0
    else 1 + FirstMatch(rules[1..], s, ignoreEmpty)
  }

  lemma {:induction false} EntryFirst(rules: seq<Rule>, n: nat, k: Bytes) returns (i: nat)
    requires n <= |rules|
    ensures i <= n && forall j :: 0 <= j < i ==> rules[j].key != k
    ensures i < n ==> rules[i].key == k
    ensures EntryOf(rules, n, k) == if i < n then Some(Entry(rules[i].val, 2 * (|rules| - i))) else None
    decreases n
  {
    if n == 0 {
      i := 0;
    } else {
      i := EntryFirst(rules, n - 1, k);
      if i == n - 1 && rules[n - 1].key != k { i := n; }
    }
  }

  function EntryAt(rules: seq<Rule>, s: Bytes, j: nat): Option<Entry>
    requires j <= |s|
  {
    EntryOf(rules, |rules|, Lower(s[..j]))
  }

  lemma LowerMatch(key: Bytes, s: Bytes)
    requires IsLower(key)
    ensures HasPrefixFold(s, key) <==> |key| <= |s| && key == Lower(s[..|key|])
  {
    LowerOfLower(key);
  }

  /** The entry of highest priority whose key is a prefix of `s`. */
  ghost predicate IsBest(rules: seq<Rule>, s: Bytes, ignoreEmpty: bool, found: bool, keylen: nat, val: Bytes,
      best: nat) {
    && (found ==> keylen <= |s| && !(ignoreEmpty && keylen == 0) && EntryAt(rules, s, keylen) == Some(Entry(val, best)))
    && (forall j {:trigger EntryAt(rules, s, j)} ::
        0 <= j <= |s| && !(ignoreEmpty && j == 0)
        && EntryAt(rules, s, j).Some? ==>
          found && EntryAt(rules, s, j).value.priority <= best)
  }

  lemma BestIsFirst(rules: seq<Rule>, s: Bytes, ignoreEmpty: bool, found: bool, keylen: nat, val: Bytes, best: nat)
    requires LowerKeys(rules) && IsBest(rules, s, ignoreEmpty, found, keylen, val, best)
    ensures var i := FirstMatch(rules, s, ignoreEmpty);
            (found <==> i < |rules|) && (found ==> |rules[i].key| == keylen && rules[i].val == val)
  {
    var i := FirstMatch(rules, s, ignoreEmpty);
    if i < |rules| {
      var key := rules[i].key;
      LowerMatch(key, s);
      var i0 := EntryFirst(rules, |rules|, key);
      assert i0 == i by { assert i0 < i ==> Matches(rules[i0], s, ignoreEmpty); }
      assert EntryAt(rules, s, |key|).Some?;
    }
    if found {
      var i1 := EntryFirst(rules, |rules|, Lower(s[..keylen]));
      LowerMatch(rules[i1].key, s);
      assert Matches(rules[i1], s, ignoreEmpty);
    }
  }

  /** Below the first `n` bytes of `s`, the trie goes on with `t`. */
  ghost predicate Rests(code: Coding, rules: seq<Rule>, t: Trie, s: Bytes, n: nat)
    requires |code.mapping| == 256
  {
    forall j {:trigger EntryAt(rules, s, j)} :: n <= j <= |s| ==> EntryAt(rules, s, j) == Find(code, t, Lower(s[n..j]))
  }

  ghost predicate NoneIn(rules: seq<Rule>, s: Bytes, n: nat, m: nat) {
    forall j {:trigger EntryAt(rules, s, j)} :: n <= j < m && j <= |s| ==> EntryAt(rules, s, j).None?
  }

  /** The best of the keys shorter than `n`. */
  ghost predicate BestBelow(rules: seq<Rule>, s: Bytes, ignoreEmpty: bool, found: bool, keylen: nat, val: Bytes,
      best: nat, n: nat) {
    && (found ==>
        keylen < n && keylen <= |s| && !(ignoreEmpty && keylen == 0)
        && EntryAt(rules, s, keylen) == Some(Entry(val, best)))
    && (!found ==> best == 0)
    && (forall j {:trigger EntryAt(rules, s, j)} ::
        0 <= j < n && j <= |s| && !(ignoreEmpty && j == 0)
        && EntryAt(rules, s, j).Some? ==>
          found && EntryAt(rules, s, j).value.priority <= best)
  }

  lemma BestWithNone(rules: seq<Rule>, s: Bytes, ignoreEmpty: bool, found: bool, keylen: nat, val: Bytes, best: nat,
      n: nat, m: nat)
    requires n <= m && BestBelow(rules, s, ignoreEmpty, found, keylen, val, best, n) && NoneIn(rules, s, n, m)
    ensures BestBelow(rules, s, ignoreEmpty, found, keylen, val, best, m)
  {
    hide EntryAt;
  }

  lemma EmptyBest(rules: seq<Rule>, s: Bytes, ignoreEmpty: bool)
    ensures BestBelow(rules, s, ignoreEmpty, false, 0, [], 0, 0)
  {}

  /** The key of length `n` is the next to be compared. */
  lemma BestNext(rules: seq<Rule>, s: Bytes, ignoreEmpty: bool, found: bool, keylen: nat, val: Bytes, best: nat, n: nat)
    requires n <= |s| && BestBelow(rules, s, ignoreEmpty, found, keylen, val, best, n)
    ensures var e := EntryAt(rules, s, n);
            if e.Some? && e.value.priority > best && !(ignoreEmpty && n == 0)
            then BestBelow(rules, s, ignoreEmpty, true, n, e.value.val, e.value.priority, n + 1)
            else (e.Some? ==> e.value.priority > 0) ==>
                BestBelow(rules, s, ignoreEmpty, found, keylen, val, best, n + 1)
  {
    hide EntryAt;
  }

  lemma NoneLeft(rules: seq<Rule>, s: Bytes)
    ensures NoneIn(rules, s, |s| + 1, |s| + 1)
  {}

  lemma BestIsAll(rules: seq<Rule>, s: Bytes, ignoreEmpty: bool, found: bool, keylen: nat, val: Bytes, best: nat,
      n: nat)
    requires BestBelow(rules, s, ignoreEmpty, found, keylen, val, best, n) && NoneIn(rules, s, n, |s| + 1)
    ensures IsBest(rules, s, ignoreEmpty, found, keylen, val, best)
  {
    hide EntryAt;
  }

  /** One step down the trie, through a table ... */
  lemma TableStep(code: Coding, own: Option<Entry>, ts: seq<Option<Trie>>, s: Bytes, n: nat, j: nat)
    requires |code.mapping| == 256 && n < j <= |s|
    ensures var kid := Kid(code, ts, ByteToLower(s[n]));
            Find(code, Trie(own, Table(ts)), Lower(s[n..j])) ==
            if kid.Some? then Find(code, kid.value, Lower(s[n + 1..j])) else None
  {
    assert Lower(s[n..j])[0] == ByteToLower(s[n]) && Lower(s[n..j])[1..] == Lower(s[n + 1..j]);
  }

  /** ... or along a prefix. */
  lemma PrefixStep(code: Coding, own: Option<Entry>, p: Bytes, sub: Trie, s: Bytes, n: nat, j: nat)
    requires |code.mapping| == 256 && n < j <= |s| && p != [] && IsLower(p)
    ensures Find(code, Trie(own, Below(p, sub)), Lower(s[n..j])) ==
            if HasPrefixFold(s[n..], p) && n + |p| <= j then Find(code, sub, Lower(s[n + |p|..j])) else None
  {
    LowerMatch(p, s[n..]);
    var x := Lower(s[n..j]);
    if n + |p| <= j {
      assert x[..|p|] == Lower(s[n..][..|p|]);
      assert x[|p|..] == Lower(s[n + |p|..j]);
    }
  }

  lemma RestsTable(code: Coding, rules: seq<Rule>, t: Trie, s: Bytes, n: nat)
    requires |code.mapping| == 256 && t.kids.Table? && n < |s| && Rests(code, rules, t, s, n)
    ensures var kid := Kid(code, t.kids.table, ByteToLower(s[n]));
            if kid.Some? then Rests(code, rules, kid.value, s, n + 1) else NoneIn(rules, s, n + 1, |s| + 1)
  {
    hide EntryAt, Find, Kid;
    forall j | n + 1 <= j <= |s|
      ensures var kid := Kid(code, t.kids.table, ByteToLower(s[n]));
              EntryAt(rules, s, j) == if kid.Some? then Find(code, kid.value, Lower(s[n + 1..j])) else None
    {
      TableStep(code, t.own, t.kids.table, s, n, j);
    }
  }

  lemma RestsPrefix(code: Coding, rules: seq<Rule>, t: Trie, s: Bytes, n: nat)
    requires |code.mapping| == 256 && t.kids.Below? && n < |s| && Rests(code, rules, t, s, n)
    requires t.kids.prefix != [] && IsLower(t.kids.prefix)
    ensures var p := t.kids.prefix;
            if HasPrefixFold(s[n..], p) then Rests(code, rules, t.kids.sub, s, n + |p|)
                && NoneIn(rules, s, n + 1, n + |p|)
            else NoneIn(rules, s, n + 1, |s| + 1)
  {
    hide EntryAt, Find, HasPrefixFold;
    var p := t.kids.prefix;
    forall j | n + 1 <= j <= |s|
      ensures EntryAt(rules, s, j) ==
              if HasPrefixFold(s[n..], p) && n + |p| <= j then Find(code, t.kids.sub, Lower(s[n + |p|..j])) else None
    {
      PrefixStep(code, t.own, p, t.kids.sub, s, n, j);
    }
  }

  lemma RestsNone(code: Coding, rules: seq<Rule>, t: Trie, s: Bytes, n: nat)
    requires |code.mapping| == 256 && t.kids.NoKids? && Rests(code, rules, t, s, n)
    ensures NoneIn(rules, s, n + 1, |s| + 1)
  {
    hide EntryAt;
    forall j | n + 1 <= j <= |s|
      ensures EntryAt(rules, s, j).None?
    {
      assert |Lower(s[n..j])| > 0;
    }
  }

  /** How a replacement takes on the case of the text it replaces. */
  datatype Style = Style(apply: (Bytes, Bytes) -> Bytes)

  function Restyle(style: Style, orig: Bytes, val: Bytes): Bytes {
    style.apply(orig, val)
  }

  /** The text with all matches replaced, from position `i` on: at each position the first rule of
      the list that matches is taken, a byte that no match covers is copied, and after an empty
      match only a non-empty one is taken at the same position. */
  function Scan(rules: seq<Rule>, style: Style, s: Bytes, i: nat, prevEmpty: bool): Bytes
    requires i <= |s| + 1
    decreases |s| + 1 - i, if prevEmpty then 0 else 1
  {
    if i > |s| then []
    else
      var k := FirstMatch(rules, s[i..], prevEmpty);
      if k < |rules| then
        var len := |rules[k].key|;
        Restyle(style, s[i..i + len], rules[k].val) + Scan(rules, style, s, i + len, len == 0)
      else if i < |s| then [s[i]] + Scan(rules, style, s, i + 1, false)
      else []
  }

  /** A text in which no rule matches anywhere is not changed. */
  lemma {:induction false} NothingToReplace(rules: seq<Rule>, style: Style, s: Bytes, i: nat)
    requires i <= |s| && forall j, r :: i <= j <= |s| && r in rules ==> !HasPrefixFold(s[j..], r.key)
    ensures Scan(rules, style, s, i, false) == s[i..]
    decreases |s| - i
  {
    var k := FirstMatch(rules, s[i..], false);
    assert k == |rules|;
    hide FirstMatch, HasPrefixFold;
    if i < |s| {
      NothingToReplace(rules, style, s, i + 1);
      assert s[i..] == [s[i]] + s[i + 1..];
    }
  }

  /** The first `n` bytes of the result have been written, `s` is copied up to `last` and has been
      scanned up to `i`. */
  ghost predicate Progress(rules: seq<Rule>, style: Style, s: Bytes, all: Bytes,
                           n: nat, last: nat, i: nat, prevEmpty: bool) {
    && last <= i <= |s| + 1 && last <= |s| && n <= |all|
    && all[n..] == s[last..if i <= |s| then i else |s|] + Scan(rules, style, s, i, prevEmpty)
  }

  lemma SkipStep(rules: seq<Rule>, style: Style, s: Bytes, all: Bytes, n: nat, last: nat, i: nat, prevEmpty: bool)
    requires i <= |s| && Progress(rules, style, s, all, n, last, i, prevEmpty)
    requires FirstMatch(rules, s[i..], prevEmpty) == |rules|
    ensures Progress(rules, style, s, all, n, last, i + 1, false)
  {
    hide FirstMatch;
    if i < |s| {
      assert s[last..i + 1] == s[last..i] + [s[i]];
    }
  }

  /** What a match contributes to the scan. */
  lemma ScanMatch(rules: seq<Rule>, style: Style, s: Bytes, i: nat, prevEmpty: bool, k: nat)
    requires i <= |s| && k == FirstMatch(rules, s[i..], prevEmpty) < |rules|
    ensures i + |rules[k].key| <= |s| && (prevEmpty ==> |rules[k].key| > 0)
    ensures Scan(rules, style, s, i, prevEmpty) ==
            Restyle(style, s[i..i + |rules[k].key|], rules[k].val)
                + Scan(rules, style, s, i + |rules[k].key|, rules[k].key == [])
  {
    hide FirstMatch, Restyle, HasPrefixFold;
    MatchFits(rules[k], s[i..], prevEmpty);
  }

  lemma MatchFits(rule: Rule, s: Bytes, ignoreEmpty: bool)
    requires Matches(rule, s, ignoreEmpty)
    ensures |rule.key| <= |s| && (ignoreEmpty ==> rule.key != [])
  {}

  lemma MatchStep(rules: seq<Rule>, style: Style, s: Bytes, all: Bytes, n: nat, last: nat, i: nat, prevEmpty: bool,
      len: nat, v: Bytes)
    requires i <= |s| && Progress(rules, style, s, all, n, last, i, prevEmpty) && i + len <= |s|
    requires Scan(rules, style, s, i, prevEmpty) == v + Scan(rules, style, s, i + len, len == 0)
    ensures s[last..i] + v <= all[n..]
    ensures Progress(rules, style, s, all, n + |s[last..i] + v|, i + len, i + len, len == 0)
  {
    var rest := Scan(rules, style, s, i + len, len == 0);
    hide Scan;
    var x := s[last..i] + v;
    assert all[n..] == x + rest;
    assert all[n + |x|..] == rest by { assert all[n + |x|..] == all[n..][|x|..]; }
    assert s[i + len..i + len] + rest == rest;
  }

  lemma AllScanned(rules: seq<Rule>, style: Style, s: Bytes, all: Bytes, n: nat, last: nat, i: nat, prevEmpty: bool)
    requires i == |s| + 1 && Progress(rules, style, s, all, n, last, i, prevEmpty)
    ensures last <= |s| && n <= |all| && s[last..] <= all[n..] && |all| == n + |s| - last
  {}

  lemma StartProgress(rules: seq<Rule>, style: Style, s: Bytes)
    ensures Progress(rules, style, s, Scan(rules, style, s, 0, false), 0, 0, 0, false)
  {
    hide Scan;
    var all := Scan(rules, style, s, 0, false);
    assert s[0..0] + all == all;
  }

  /** The first `n` bytes of the result have been written. */
  predicate Written(before: Bytes, after: Bytes, all: Bytes, n: nat) {
    n <= |all| && after == before + all[..n]
  }

  lemma WrittenMore(before: Bytes, all: Bytes, n: nat, x: Bytes, wn: nat)
    requires n <= |all| && x <= all[n..] && wn <= |x|
    ensures Written(before, before + all[..n] + x[..wn], all, n + wn)
  {
    assert x[..wn] == all[n..][..wn];
    assert all[..n + wn] == all[..n] + x[..wn];
    assert before + all[..n] + x[..wn] == before + all[..n + wn];
  }

  lemma ProgressBounds(rules: seq<Rule>, style: Style, s: Bytes, all: Bytes, n: nat, last: nat, i: nat, prevEmpty: bool)
    requires Progress(rules, style, s, all, n, last, i, prevEmpty)
    ensures last <= i <= |s| + 1 && last <= |s|
  {}

  /** Something that can be written to, and may fail at any time. */
  class Writer {
    var out: Bytes
    const reliable: bool

    constructor (reliable: bool)
      ensures this.reliable == reliable && out == []
    {
      this.reliable, out := reliable, [];
    }

    method WriteString(b: Bytes) returns (n: nat, ok: bool)
      modifies `out
      ensures n <= |b| && out == old(out) + b[..n]
      ensures (ok ==> n == |b|) && (reliable ==> ok)
    {
      ok := *;
      if ok || reliable {
        n, ok := |b|, true;
      } else {
        n :| 0 <= n <= |b|;
      }
      out := out + b[..n];
    }

    method WriteBoth(a: Bytes, b: Bytes) returns (n: nat, ok: bool)
      modifies `out
      ensures n <= |a + b| && out == old(out) + (a + b)[..n]
      ensures (ok ==> n == |a + b|) && (reliable ==> ok)
    {
      n, ok := WriteString(a);
      if ok {
        var wn;
        wn, ok := WriteString(b);
        n := n + wn;
        assert (a + b)[..n] == a + b[..wn];
      } else {
        assert (a + b)[..n] == a[..n];
      }
    }
  }

  // ----- the replacer -----

  class GenericReplacer {
    var root: TrieNode
    var code: Coding
    ghost const rules: seq<Rule>

    ghost predicate Valid()
      reads this, root, root.repr
    {
      CodingOk(code) && LowerCode(code) && LowerKeys(rules) && root.Valid() && Built(code, root.t, rules, |rules|)
    }

    constructor (rules: seq<Rule>)
      requires LowerKeys(rules)
      ensures Valid() && this.rules == rules && fresh(root.repr)
    {
      var code := MakeCoding(rules);
      UsedAreLower(code, rules);
      var root := new TrieNode.Root(code.tableSize);
      EmptyBuilt(code, rules);
      hide Built, TrieNode.Valid, Add, Shape, CodingOk, Occurs;
      for i := 0 to |rules|
        invariant root.Valid() && Built(code, root.t, rules, i) && fresh(root.repr)
      {
        KeysUse(code, rules, i);
        AddBuilt(code, root.t, rules, i);
        BuiltFacts(code, root.t, rules, i);
        root.AddKey(rules[i].key, rules[i].val, 2 * (|rules| - i), code);
      }
      this.root, this.code, this.rules := root, code, rules;
    }

    /** The entry that `node` holds itself. */
    lemma OwnEntry(node: TrieNode, s: Bytes, n: nat)
      requires CodingOk(code) && node.Valid() && n <= |s| && Rests(code, rules, node.t, s, n) && Shape(code, node.t)
      ensures EntryAt(rules, s, n) == if node.priority == 0 then None else Some(Entry(node.value, node.priority))
    {
      node.KindFacts();
      assert Lower(s[n..n]) == [];
      assert EntryAt(rules, s, n) == Find(code, node.t, Lower(s[n..n]));
    }

    /** `node` is reached by the first `n` bytes of `s`. */
    ghost predicate OnPath(node: TrieNode, s: Bytes, n: nat)
      requires CodingOk(code)
      reads this, node, node.repr
    {
      node in node.repr && node.Valid() && Shape(code, node.t) && Rests(code, rules, node.t, s, n)
    }

    lemma Consider(node: TrieNode, s: Bytes, n: nat, ignoreEmpty: bool, found: bool, keylen: nat, val: Bytes, best: nat)
      requires CodingOk(code) && n <= |s| && OnPath(node, s, n)
      requires BestBelow(rules, s, ignoreEmpty, found, keylen, val, best, n)
      ensures if node.priority > best && !(ignoreEmpty && n == 0)
              then BestBelow(rules, s, ignoreEmpty, true, n, node.value, node.priority, n + 1)
              else BestBelow(rules, s, ignoreEmpty, found, keylen, val, best, n + 1)
    {
      hide BestBelow, TrieNode.Valid;
      OwnEntry(node, s, n);
      BestNext(rules, s, ignoreEmpty, found, keylen, val, best, n);
    }

    lemma StartAtRoot(s: Bytes)
      requires Valid()
      ensures CodingOk(code) && LowerCode(code) && LowerKeys(rules) && OnPath(root, s, 0)
    {
      forall j | 0 <= j <= |s|
        ensures EntryAt(rules, s, j) == Find(code, root.t, Lower(s[0..j]))
      {
        assert s[..j] == s[0..j];
      }
    }

    lemma LowerPrefix(t: Trie)
      requires CodingOk(code) && LowerCode(code) && Shape(code, t) && t.kids.Below?
      ensures t.kids.prefix != [] && IsLower(t.kids.prefix) && Shape(code, t.kids.sub)
    {}

    lemma TableShape(t: Trie, m: nat)
      requires CodingOk(code) && Shape(code, t) && t.kids.Table?
      ensures |t.kids.table| == code.tableSize
      ensures m < |t.kids.table| && t.kids.table[m].Some? ==> Shape(code, t.kids.table[m].value)
    {}

    /** Without a table, and without a prefix that goes on with `s`, there are no longer keys. */
    lemma StopsHere(node: TrieNode, s: Bytes, n: nat)
      requires CodingOk(code) && LowerCode(code) && node.Valid() && Shape(code, node.t)
      requires n < |s| && Rests(code, rules, node.t, s, n)
      requires node.table == null && (node.prefix != [] ==> !HasPrefixFold(s[n..], node.prefix))
      ensures NoneIn(rules, s, n + 1, |s| + 1)
    {
      hide Rests, NoneIn;
      node.KindFacts();
      if node.prefix == [] {
        RestsNone(code, rules, node.t, s, n);
      } else {
        node.BelowFacts();
        LowerPrefix(node.t);
        RestsPrefix(code, rules, node.t, s, n);
      }
    }

    /** From a node to the next along `rest`, if there is one: by the table or the prefix. */
    method Descend(node: TrieNode, rest: Bytes, ghost s: Bytes, ghost n: nat)
      returns (next: TrieNode?, len: nat, go: bool)
      requires CodingOk(code) && LowerCode(code) && n < |s| && rest == s[n..] && OnPath(node, s, n)
      ensures !go ==> NoneIn(rules, s, n + 1, |s| + 1)
      ensures go ==> 0 < len <= |rest| && NoneIn(rules, s, n + 1, n + len)
      ensures go && next == null ==> NoneIn(rules, s, n + len, |s| + 1)
      ensures go && next != null ==> next.repr <= node.repr - {node} && OnPath(next, s, n + len)
    {
      hide TrieNode.Valid, Rests, Shape, Find, EntryAt;
      node.KindFacts();
      next, len := null, 0;
      if node.table != null {
        RestsTable(code, rules, node.t, s, n);
        var index := Index(code, ByteToLower(rest[0]));
        TableShape(node.t, index);
        if index == code.tableSize { return next, len, false; }
        node.KidFacts(index);
        return node.table[index], 1, true;
      }
      go := false;
      if node.prefix != [] { go := StringHasPrefixFold(rest, node.prefix); }
      if go {
        node.BelowFacts();
        LowerPrefix(node.t);
        RestsPrefix(code, rules, node.t, s, n);
        next, len := node.next, |node.prefix|;
      } else {
        StopsHere(node, s, n);
      }
    }

    /** The rule that comes first in the list among those that match at the start of `s`. */
    method Lookup(s: Bytes, ignoreRoot: bool) returns (val: Bytes, keylen: nat, found: bool)
      requires Valid()
      ensures var i := FirstMatch(rules, s, ignoreRoot);
              (found <==> i < |rules|) && (found ==> |rules[i].key| == keylen && rules[i].val == val)
    {
      hide TrieNode.Valid, Valid, BestBelow, NoneIn, IsBest, EntryAt, FirstMatch, CodingOk, LowerCode, LowerKeys,
          OnPath;
      StartAtRoot(s);
      var bestPriority := 0;
      var node: TrieNode? := root;
      var n := 0;
      val, keylen, found := [], 0, false;
      EmptyBest(rules, s, ignoreRoot);
      var rest := s;
      ghost var m := 0;
      while node != null
        invariant n <= |s| && rest == s[n..] && m == n
        invariant BestBelow(rules, s, ignoreRoot, found, keylen, val, bestPriority, m)
        invariant node == null ==> NoneIn(rules, s, m, |s| + 1)
        invariant node != null ==> OnPath(node, s, n)
        invariant node != null ==> (node == root <==> n == 0) && (n > 0 ==> root !in node.repr)
        decreases |s| - n
      {
        Consider(node, s, n, ignoreRoot, found, keylen, val, bestPriority);
        if node.priority > bestPriority && !(ignoreRoot && node == root) {
          bestPriority, val, keylen, found := node.priority, node.value, n, true;
        }
        m := n + 1;
        if rest == [] {
          NoneLeft(rules, s);
          break;
        }
        var next, len, go := Descend(node, rest, s, n);
        if !go { break; }
        BestWithNone(rules, s, ignoreRoot, found, keylen, val, bestPriority, n + 1, n + len);
        n, m := n + len, n + len;
        rest := rest[len..];
        node := next;
      }
      BestIsAll(rules, s, ignoreRoot, found, keylen, val, bestPriority, m);
      BestIsFirst(rules, s, ignoreRoot, found, keylen, val, bestPriority);
    }

    lemma TableAtRoot()
      requires Valid()
      ensures CodingOk(code) && root.t.kids.Table? && root.table != null && root.table.Length == code.tableSize
      ensures forall b: Byte :: Index(code, b) <= code.tableSize
    {
      root.KindFacts();
      TableShape(root.t, 0);
      forall b: Byte
        ensures Index(code, b) <= code.tableSize
      {
        assert Uses(code, b) || Index(code, b) == code.tableSize;
      }
    }

    /** Without an empty key and without a child for the next byte, no rule matches. */
    lemma FastPath(s: Bytes, i: nat, prevEmpty: bool)
      requires Valid() && i < |s| && root.priority == 0
      requires var index := Index(code, ByteToLower(s[i]));
               root.t.kids.Table? && (index == code.tableSize
                   || (root.table != null && index < root.table.Length && root.table[index] == null))
      ensures FirstMatch(rules, s[i..], prevEmpty) == |rules|
    {
      var r := s[i..];
      hide FirstMatch, EntryAt;
      StartAtRoot(r);
      OwnEntry(root, r, 0);
      var index := Index(code, ByteToLower(r[0]));
      if index != code.tableSize { root.KidFacts(index); }
      RestsTable(code, rules, root.t, r, 0);
      assert IsBest(rules, r, prevEmpty, false, 0, [], 0);
      BestIsFirst(rules, r, prevEmpty, false, 0, [], 0);
    }

    /** Whether byte `i` is the first of no key. */
    method StartsNoKey(s: Bytes, i: nat, ghost prevEmpty: bool) returns (r: bool)
      requires Valid() && i < |s| && root.priority == 0
      ensures r ==> FirstMatch(rules, s[i..], prevEmpty) == |rules|
    {
      hide FirstMatch;
      TableAtRoot();
      var index := Index(code, ByteToLower(s[i]));
      r := index == code.tableSize || root.table[index] == null;
      if r { FastPath(s, i, prevEmpty); }
    }

    /** An empty match needs an empty key, which the root holds. */
    lemma EmptyKeyAtRoot(s: Bytes, prevEmpty: bool)
      requires Valid()
      ensures var k := FirstMatch(rules, s, prevEmpty); k < |rules| && rules[k].key == [] ==> root.priority > 0
    {
      var k := FirstMatch(rules, s, prevEmpty);
      if k < |rules| && rules[k].key == [] {
        var i := EntryFirst(rules, |rules|, []);
        assert Find(code, root.t, []).Some?;
        root.KindFacts();
      }
    }

    /** One round of the replacement: the byte at `i` is passed over, or a match is looked for
        there; if there is one, what has not been copied before it and its replacement are written. */
    method Round(w: Writer, s: Bytes, style: Style, last: nat, i: nat, prevMatchEmpty: bool,
                 ghost all: Bytes, n: nat, ghost before: Bytes)
      returns (last': nat, i': nat, prevMatchEmpty': bool, n': nat, ok: bool)
      requires Valid() && w !in root.repr && last <= i <= |s|
      requires Progress(rules, style, s, all, n, last, i, prevMatchEmpty) && Written(before, w.out, all, n)
      requires root.priority == 0 ==> !prevMatchEmpty
      modifies w`out
      ensures Written(before, w.out, all, n') && (w.reliable ==> ok)
      ensures ok ==> Progress(rules, style, s, all, n', last', i', prevMatchEmpty')
      ensures i <= i' && (i' == i ==> prevMatchEmpty' && !prevMatchEmpty)
      ensures root.priority == 0 ==> !prevMatchEmpty'
    {
      hide Valid, FirstMatch, Scan, Progress;
      last', i', n', prevMatchEmpty', ok := last, i + 1, n, false, true;
      var skip := false;
      if i != |s| && root.priority == 0 {
        skip := StartsNoKey(s, i, prevMatchEmpty);
        prevMatchEmpty' := prevMatchEmpty;
      }
      if !skip {
        EmptyKeyAtRoot(s[i..], prevMatchEmpty);
        var val, keylen, found := Lookup(s[i..], prevMatchEmpty);
        prevMatchEmpty' := found && keylen == 0;
        if found {
          ScanMatch(rules, style, s, i, prevMatchEmpty, FirstMatch(rules, s[i..], prevMatchEmpty));
          val := Restyle(style, s[i..i + keylen], val);
          MatchStep(rules, style, s, all, n, last, i, prevMatchEmpty, keylen, val);
          var wn;
          wn, ok := w.WriteBoth(s[last..i], val);
          WrittenMore(before, all, n, s[last..i] + val, wn);
          n', i', last' := n + wn, i + keylen, i + keylen;
          return;
        }
      }
      SkipStep(rules, style, s, all, n, last, i, prevMatchEmpty);
    }

    /** Writes `s` with all matches replaced, and counts the bytes written; if the writer fails, a
        part from the start has been written. */
    method WriteString(w: Writer, s: Bytes, style: Style) returns (n: nat, ok: bool)
      requires Valid() && w !in root.repr
      modifies w`out
      ensures var r := Scan(rules, style, s, 0, false);
              n <= |r| && w.out == old(w.out) + r[..n] && (ok ==> n == |r|)
      ensures w.reliable ==> ok
    {
      ghost var all := Scan(rules, style, s, 0, false);
      var last, i, prevMatchEmpty := 0, 0, false;
      n := 0;
      StartProgress(rules, style, s);
      hide Valid, Scan, Progress;
      while i <= |s|
        invariant Valid() && w !in root.repr
        invariant 0 <= last <= i <= |s| + 1 && last <= |s|
        invariant Written(old(w.out), w.out, all, n)
        invariant Progress(rules, style, s, all, n, last, i, prevMatchEmpty)
        invariant root.priority == 0 ==> !prevMatchEmpty
        decreases |s| + 1 - i, if prevMatchEmpty then 0 else 1
      {
        last, i, prevMatchEmpty, n, ok := Round(w, s, style, last, i, prevMatchEmpty, all, n, old(w.out));
        if !ok { return; }
        ProgressBounds(rules, style, s, all, n, last, i, prevMatchEmpty);
      }
      ok := true;
      AllScanned(rules, style, s, all, n, last, i, prevMatchEmpty);
      if last != |s| {
        var wn;
        wn, ok := w.WriteString(s[last..]);
        WrittenMore(old(w.out), all, n, s[last..], wn);
        n := n + wn;
      }
    }

    /** The text with all matches replaced. */
    method Replace(s: Bytes, style: Style) returns (r: Bytes)
      requires Valid()
      ensures r == Scan(rules, style, s, 0, false)
    {
      var buf := new Writer(true);
      var n, ok := WriteString(buf, s, style);
      r := buf.out;
    }
  }

  lemma BuiltFacts(code: Coding, t: Trie, rules: seq<Rule>, n: nat)
    requires n <= |rules| && Built(code, t, rules, n)
    ensures CodingOk(code) && Shape(code, t) && t.kids.Table?
  {}
}
