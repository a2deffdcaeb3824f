/** The queue of tokens between the scanner and the parser of yaml.v2: a slice with a head, into
    which tokens are also inserted in the middle. */
module YamlQueue {

  datatype Mark = Mark(index: nat, line: nat, column: nat)

  datatype Kind =
    | StreamStart | StreamEnd | Directive | DocumentIndicator
    | BlockSequenceStart | BlockMappingStart | BlockEnd
    | FlowStart | FlowEnd | BlockEntry | FlowEntry | Key | Value
    | AnchorOrAlias | Tag | BlockScalar | FlowScalar | PlainScalar

  datatype Token = Token(kind: Kind, start: Mark)

  function InsertedAt(q: seq<Token>, pos: int, t: Token): seq<Token>
    requires pos <= |q|
  {
    if pos < 0 then q + [t] else q[..pos] + [t] + q[pos..]
  }

  lemma IsInserted(q: seq<Token>, r: seq<Token>, pos: nat, t: Token)
    requires pos <= |q| && |r| == |q| + 1 && r[pos] == t
    requires forall k :: 0 <= k < pos ==> r[k] == q[k]
    requires forall k :: pos < k < |r| ==> r[k] == (q + [t])[k - 1]
    ensures r == InsertedAt(q, pos, t)
  {
    var i := InsertedAt(q, pos, t);
    forall k | 0 <= k < |r|
      ensures r[k] == i[k]
    {
      if k > pos { assert i[k] == q[pos..][k - pos - 1]; }
    }
  }

  class TokenQueue {
    var buf: array<Token>
    var len: nat
    var head: nat

    ghost predicate Valid()
      reads this
    {
      head <= len <= buf.Length
    }

    /** The tokens that have not been handed out. */
    ghost function Tokens(): seq<Token>
      requires Valid()
      reads this, buf
    {
      buf[head..len]
    }

    constructor ()
      ensures Valid() && Tokens() == [] && fresh(buf)
    {
      buf, len, head := new Token[0], 0, 0;
    }

    /** When the slice is full, the tokens are moved to its beginning. */
    method Compact()
      requires Valid()
      modifies this, buf
      ensures Valid() && Tokens() == old(Tokens()) && buf == old(buf)
      ensures old(head) > 0 && old(len) == buf.Length ==> head == 0 && len < buf.Length
    {
      if head > 0 && len == buf.Length {
        ghost var q := Tokens();
        for i := 0 to len - head
          invariant buf[..i] == q[..i] && forall k :: i + head <= k < len ==> buf[k] == q[k - head]
          modifies buf
        {
          buf[i] := buf[head + i];
        }
        len, head := len - head, 0;
        assert buf[..len] == q;
      }
    }

    /** Appends a token; if there is no room, in a larger array. */
    method Append(t: Token)
      requires Valid()
      modifies this, buf
      ensures Valid() && Tokens() == old(Tokens()) + [t] && head == old(head) && len == old(len) + 1
      ensures buf == old(buf) || fresh(buf)
    {
      ghost var q := Tokens();
      if len == buf.Length {
        var larger := new Token[2 * len + 1](_ => t);
        for i := 0 to len
          invariant larger[..i] == buf[..i]
          modifies larger
        {
          larger[i] := buf[i];
        }
        assert larger[head..len] == buf[head..len];
        buf := larger;
      }
      buf[len] := t;
      len := len + 1;
      assert buf[head..len - 1] == q;
    }

    /** Inserts a token before the one at position `pos` of the queue, or at its end. */
    method Insert(pos: int, t: Token)
      requires Valid() && pos <= |Tokens()|
      modifies this, buf
      ensures Valid() && (buf == old(buf) || fresh(buf))
      ensures Tokens() == InsertedAt(old(Tokens()), pos, t)
    {
      ghost var q := Tokens();
      Compact();
      Append(t);
      if pos < 0 { return; }
      InsertInto(pos, t);
      IsInserted(q, Tokens(), pos, t);
    }

    /** The tokens behind the position move up by one and the last one is dropped. */
    method InsertInto(pos: nat, t: Token)
      requires Valid() && pos < |Tokens()|
      modifies buf
      ensures Valid() && |Tokens()| == |old(Tokens())| && Tokens()[pos] == t
      ensures forall k :: 0 <= k < pos ==> Tokens()[k] == old(Tokens())[k]
      ensures forall k :: pos < k < |Tokens()| ==> Tokens()[k] == old(Tokens())[k - 1]
    {
      ghost var all := Tokens();
      assert forall k :: 0 <= k < |all| ==> all[k] == buf[head + k];
      Shift(head + pos);
      buf[head + pos] := t;
      forall k | 0 <= k < |all|
        ensures Tokens()[k] == if k == pos then t else if k < pos then all[k] else all[k - 1]
      {
        assert Tokens()[k] == buf[head + k];
      }
    }

    /** Moves the tokens from `lo` on, but the last one, one place up. */
    method Shift(lo: nat)
      requires Valid() && lo < len
      modifies buf
      ensures forall k :: 0 <= k <= lo ==> buf[k] == old(buf[k])
      ensures forall k :: lo < k < len ==> buf[k] == old(buf[k - 1])
    {
      var i := len - 1;
      while i > lo
        invariant lo <= i < len
        invariant forall k :: 0 <= k <= i ==> buf[k] == old(buf[k])
        invariant forall k :: i < k < len ==> buf[k] == old(buf[k - 1])
        decreases i
      {
        buf[i] := buf[i - 1];
        i := i - 1;
      }
    }

    method Count() returns (n: nat)
      requires Valid()
      ensures n == |Tokens()|
    {
      n := len - head;
    }

    method Front() returns (t: Token)
      requires Valid() && Tokens() != []
      ensures t == Tokens()[0]
    {
      t := buf[head];
    }

    method Advance()
      requires Valid() && Tokens() != []
      modifies `head
      ensures Valid() && Tokens() == old(Tokens())[1..]
    {
      head := head + 1;
    }
  }
}
