/** Matching of patterns with stars, as go-glob does it: the pieces between stars are looked for
    from the left, each at its first occurrence. */
module Glob {

  const STAR := '*'

  // ----- the library functions on strings that are used -----

  function HasPrefix(s: string, p: string): bool {
    |p| <= |s| && s[..|p|] == p
  }

  function HasSuffix(s: string, p: string): bool {
    |p| <= |s| && s[|s| - |p|..] == p
  }

  predicate OccursAt(s: string, p: string, i: nat) {
    i + |p| <= |s| && s[i..i + |p|] == p
  }

  /** The index of the first occurrence, or -1. */
  function Index(s: string, p: string): (r: int)
    ensures -1 <= r
    ensures r >= 0 ==> OccursAt(s, p, r) && forall i :: 0 <= i < r ==> !OccursAt(s, p, i)
    ensures r == -1 ==> forall i: nat :: !OccursAt(s, p, i)
  {
    FirstFrom(s, p, 0)
  }

  function FirstFrom(s: string, p: string, k: nat): (r: int)
    requires k <= |s| + 1 && forall i: nat :: i < k ==> !OccursAt(s, p, i)
    ensures -1 <= r
    ensures r >= 0 ==> OccursAt(s, p, r) && forall i :: 0 <= i < r ==> !OccursAt(s, p, i)
    ensures r == -1 ==> forall i: nat :: !OccursAt(s, p, i)
    decreases |s| + 1 - k
  {
    if k > |s| then -1 else if OccursAt(s, p, k) then k else FirstFrom(s, p, k + 1)
  }

  /** The pieces of the pattern between stars. */
  function Split(p: string): (parts: seq<string>)
    ensures |parts| >= 1
    ensures forall i :: 0 <= i < |parts| ==> STAR !in parts[i]
    ensures Join(parts) == p
  {
    if p == "" then [""]
    else
      var rest := Split(p[1..]);
      if p[0] == STAR then
        var parts := [""] + rest;
        assert parts[1..] == rest;
        parts
      else
        var parts := [[p[0]] + rest[0]] + rest[1..];
        assert parts[1..] == rest[1..];
        parts
  }

  function Join(parts: seq<string>): string
    requires |parts| >= 1
  {
    if |parts| == 1 then parts[0] else parts[0] + [STAR] + Join(parts[1..])
  }

  // ----- what a pattern means -----

  /** A star stands for any string, every other character for itself. */
  ghost predicate Matches(p: string, s: string)
    decreases |p|
  {
    if p == "" then s == ""
    else if p[0] == STAR then exists k :: 0 <= k <= |s| && Matches(p[1..], s[k..])
    else s != "" && s[0] == p[0] && Matches(p[1..], s[1..])
  }

  lemma {:induction false} LiteralMatches(l: string, p: string, s: string)
    requires STAR !in l
    ensures Matches(l + p, s) <==> HasPrefix(s, l) && Matches(p, s[|l|..])
    decreases |l|
  {
    if l == "" {
      assert l + p == p && s[0..] == s;
    } else {
      assert (l + p)[1..] == l[1..] + p;
      if s != "" {
        LiteralMatches(l[1..], p, s[1..]);
        assert HasPrefix(s, l) <==> s[0] == l[0] && HasPrefix(s[1..], l[1..]) by {
          if HasPrefix(s, l) { assert s[1..][..|l| - 1] == s[..|l|][1..]; }
          if s[0] == l[0] && HasPrefix(s[1..], l[1..]) {
            assert s[..|l|] == [s[0]] + s[1..][..|l| - 1] && l == [l[0]] + l[1..];
          }
        }
        if |l| <= |s| { assert s[1..][|l| - 1..] == s[|l|..]; }
      }
    }
  }

  /** A star and the pieces after it: each is found somewhere, and the last one at the end. */
  ghost predicate Found(parts: seq<string>, i: nat, s: string)
    requires i < |parts|
    decreases |parts| - i
  {
    if i == |parts| - 1 then HasSuffix(s, parts[i])
    else exists k {:trigger OccursAt(s, parts[i], k)} ::
        0 <= k && OccursAt(s, parts[i], k)
        && Found(parts, i + 1, s[k + |parts[i]|..])
  }

  /** A star and one piece. */
  lemma LastFound(l: string, s: string)
    requires STAR !in l
    ensures HasSuffix(s, l) <==> Matches([STAR] + l, s)
  {
    var p := [STAR] + l;
    assert p[1..] == l && l + "" == l;
    forall k | 0 <= k <= |s|
      ensures Matches(l, s[k..]) <==> s[k..] == l
    {
      LiteralMatches(l, "", s[k..]);
      if HasPrefix(s[k..], l) && |s[k..]| == |l| { assert s[k..][..|l|] == s[k..]; }
      assert s[k..] == l ==> s[k..][..|l|] == l;
    }
    hide Matches;
    MatchesStar(l, s);
    if HasSuffix(s, l) { assert Matches(l, s[|s| - |l|..]); }
  }

  lemma MatchesStar(p: string, s: string)
    ensures Matches([STAR] + p, s) <==> exists k {:trigger s[k..]} :: 0 <= k <= |s| && Matches(p, s[k..])
  {
    assert ([STAR] + p)[1..] == p;
  }

  /** A piece and the rest, from position `k` on. */
  lemma PieceAt(l: string, q: string, s: string, k: nat)
    requires STAR !in l && k <= |s|
    ensures Matches(l + q, s[k..]) <==> OccursAt(s, l, k) && Matches(q, s[k + |l|..])
  {
    LiteralMatches(l, q, s[k..]);
    hide Matches;
    if k + |l| <= |s| {
      assert s[k..][|l|..] == s[k + |l|..] && s[k..][..|l|] == s[k..k + |l|];
    }
  }

  lemma {:induction false} FoundIsMatch(parts: seq<string>, i: nat, s: string)
    requires i < |parts| && forall j :: 0 <= j < |parts| ==> STAR !in parts[j]
    ensures Found(parts, i, s) <==> Matches([STAR] + Join(parts[i..]), s)
    decreases |parts| - i
  {
    var l := parts[i];
    var p := Join(parts[i..]);
    if i == |parts| - 1 {
      LastFound(l, s);
    } else {
      assert p == l + ([STAR] + Join(parts[i + 1..])) by { assert parts[i..][1..] == parts[i + 1..]; }
      var q := [STAR] + Join(parts[i + 1..]);
      forall k: nat
        ensures RestFound(parts, i, s, q, k)
      {
        if k + |l| <= |s| { FoundIsMatch(parts, i + 1, s[k + |l|..]); }
      }
      FoundStep(parts, i, s, q);
    }
  }

  ghost predicate RestFound(parts: seq<string>, i: nat, s: string, q: string, k: nat)
    requires i < |parts| - 1
  {
    k + |parts[i]| <= |s| ==> (Found(parts, i + 1, s[k + |parts[i]|..]) <==> Matches(q, s[k + |parts[i]|..]))
  }

  lemma FoundAt(parts: seq<string>, i: nat, s: string, q: string, k: nat)
    requires i < |parts| - 1 && STAR !in parts[i] && RestFound(parts, i, s, q, k)
    ensures OccursAt(s, parts[i], k) && Found(parts, i + 1, s[k + |parts[i]|..])
        <==> k <= |s| && Matches(parts[i] + q, s[k..])
  {
    hide Matches, Found;
    if k <= |s| {
      PieceAt(parts[i], q, s, k);
    }
  }

  lemma FoundStep(parts: seq<string>, i: nat, s: string, q: string)
    requires i < |parts| - 1 && STAR !in parts[i]
    requires forall k: nat :: RestFound(parts, i, s, q, k)
    ensures Found(parts, i, s) <==> Matches([STAR] + (parts[i] + q), s)
  {
    var l := parts[i];
    MatchesStar(l + q, s);
    hide Matches, RestFound;
    if Found(parts, i, s) {
      var k :| 0 <= k && OccursAt(s, l, k) && Found(parts, i + 1, s[k + |l|..]);
      FoundAt(parts, i, s, q, k);
      assert Matches(l + q, s[k..]);
    }
    if Matches([STAR] + (l + q), s) {
      var k :| 0 <= k <= |s| && Matches(l + q, s[k..]);
      FoundAt(parts, i, s, q, k);
    }
  }

  /** The first piece stands at the start. */
  lemma FirstPiece(parts: seq<string>, s: string)
    requires |parts| > 1 && forall j :: 0 <= j < |parts| ==> STAR !in parts[j]
    ensures Matches(Join(parts), s) <==> HasPrefix(s, parts[0]) && Found(parts, 1, s[|parts[0]|..])
    ensures HasPrefix(s, parts[0]) <==> Index(s, parts[0]) == 0
    ensures HasPrefix(Join(parts), [STAR]) <==> parts[0] == ""
  {
    var l, q := parts[0], [STAR] + Join(parts[1..]);
    assert Join(parts) == l + q;
    LiteralMatches(l, q, s);
    if HasPrefix(s, l) { FoundIsMatch(parts, 1, s[|l|..]); }
    assert HasPrefix(s, l) <==> OccursAt(s, l, 0);
    assert Join(parts)[..1] == if l == "" then [STAR] else [l[0]];
  }

  /** A pattern that ends in a star has an empty last piece. */
  lemma {:induction false} LastPiece(parts: seq<string>)
    requires |parts| >= 1 && forall j :: 0 <= j < |parts| ==> STAR !in parts[j]
    ensures HasSuffix(Join(parts), [STAR]) ==> parts[|parts| - 1] == ""
    decreases |parts|
  {
    var p := Join(parts);
    StarAtEnd(p);
    if |parts| == 1 {
    } else {
      var q := Join(parts[1..]);
      LastPiece(parts[1..]);
      if q != "" { assert p[|p| - 1..] == q[|q| - 1..]; } else { EmptyJoin(parts[1..]); }
    }
  }

  lemma StarAtEnd(p: string)
    ensures HasSuffix(p, [STAR]) ==> STAR in p
  {
    if HasSuffix(p, [STAR]) { assert p[|p| - 1..][0] == p[|p| - 1]; }
  }

  lemma {:induction false} EmptyJoin(parts: seq<string>)
    requires |parts| >= 1 && Join(parts) == ""
    ensures parts[|parts| - 1] == ""
  {}

  /** More text in front does not hurt. */
  lemma {:induction false} FoundBehind(parts: seq<string>, i: nat, s: string, k: nat)
    requires i < |parts| && k <= |s| && Found(parts, i, s[k..])
    ensures Found(parts, i, s)
  {
    if i == |parts| - 1 {
      assert s[k..][|s| - k - |parts[i]|..] == s[|s| - |parts[i]|..];
    } else {
      var l := parts[i];
      var j :| 0 <= j && OccursAt(s[k..], l, j) && Found(parts, i + 1, s[k..][j + |l|..]);
      assert s[k..][j..j + |l|] == s[k + j..k + j + |l|];
      assert s[k..][j + |l|..] == s[k + j + |l|..];
      assert OccursAt(s, l, k + j);
    }
  }

  /** Nothing is lost by taking the first occurrence of a piece. */
  lemma FirstIsBest(parts: seq<string>, i: nat, s: string)
    requires i < |parts| - 1
    ensures var k := Index(s, parts[i]);
            Found(parts, i, s) <==> k >= 0 && Found(parts, i + 1, s[k + |parts[i]|..])
  {
    var l := parts[i];
    var k := Index(s, l);
    if Found(parts, i, s) {
      var j :| 0 <= j && OccursAt(s, l, j) && Found(parts, i + 1, s[j + |l|..]);
      assert 0 <= k <= j;
      assert s[k + |l|..][j - k..] == s[j + |l|..];
      FoundBehind(parts, i + 1, s[k + |l|..], j - k);
    }
  }

  // ----- the matcher -----

  /** Whether the pattern matches the subject. */
  method Glob(pattern: string, subject: string) returns (r: bool)
    ensures r <==> Matches(pattern, subject)
  {
    if pattern == "" { return subject == pattern; }
    if pattern == [STAR] {
      assert Matches(pattern[1..], subject[|subject|..]);
      return true;
    }
    var parts := Split(pattern);
    if |parts| == 1 {
      LiteralMatches(pattern, "", subject);
      assert pattern + "" == pattern;
      if HasPrefix(subject, pattern) && |subject| == |pattern| { assert subject[..|pattern|] == subject; }
      return subject == pattern;
    }
    var leadingGlob := HasPrefix(pattern, [STAR]);
    var trailingGlob := HasSuffix(pattern, [STAR]);
    var end := |parts| - 1;
    FirstPiece(parts, subject);
    LastPiece(parts);
    var subj := subject;
    hide Matches, Found, Index, OccursAt, HasPrefix, Join;
    for i := 0 to end
      invariant i == 0 ==> subj == subject
      invariant i > 0 ==> (Matches(pattern, subject) <==> Found(parts, i, subj))
    {
      var idx := Index(subj, parts[i]);
      if i == 0 {
        if !leadingGlob && idx != 0 { return false; }
      } else {
        FirstIsBest(parts, i, subj);
        if idx < 0 { return false; }
      }
      subj := subj[idx + |parts[i]|..];
    }
    return trailingGlob || HasSuffix(subj, parts[end]);
  }
}
