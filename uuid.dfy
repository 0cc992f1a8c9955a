/** The identifier-shape check the handlers apply before touching the store:
    the anchored pattern
      ^[0-9a-fA-F]{8}-[0-9a-fA-F]{4}-[0-9a-fA-F]{4}-[0-9a-fA-F]{4}-[0-9a-fA-F]{12}$
    modelled as a list of atoms that must consume the whole string. */
module Uuid {
  import opened Entities

  predicate IsHexDigit(c: char) {
    '0' <= c <= '9' || 'a' <= c <= 'f' || 'A' <= c <= 'F'
  }

  /** One piece of the pattern: `[0-9a-fA-F]{n}` or a literal character. */
  datatype Atom = HexRun(n: nat) | Literal(c: char)

  /** What is left of `s` after `a` matches at its front, if it does. */
  function Consume(s: string, a: Atom): (r: Option<string>)
    ensures a.HexRun? ==>
      (r.Some? <==> a.n <= |s| && forall i :: 0 <= i < a.n ==> IsHexDigit(s[i])) &&
      (r.Some? ==> r.value == s[a.n..])
    ensures a.Literal? ==> (r.Some? <==> 0 < |s| && s[0] == a.c) && (r.Some? ==> r.value == s[1..])
    ensures r.Some? ==> |r.value| < |s| || (a.HexRun? && a.n == 0)
  {
    match a
    case HexRun(n) =>
      if n <= |s| && forall i :: 0 <= i < n ==> IsHexDigit(s[i]) then Some(s[n..]) else None
    case Literal(c) =>
      if 0 < |s| && s[0] == c then Some(s[1..]) else None
  }

  /** The atoms match `s` in order and nothing is left over (both anchors). */
  predicate FullMatch(s: string, pattern: seq<Atom>)
    decreases pattern
  {
    if pattern == [] then s == ""
    else match Consume(s, pattern[0])
      case None => false
      case Some(rest) => FullMatch(rest, pattern[1..])
  }

  const UuidPattern: seq<Atom> := [
    HexRun(8), Literal('-'), HexRun(4), Literal('-'), HexRun(4), Literal('-'),
    HexRun(4), Literal('-'), HexRun(12)]

  /** The handlers' `test` of the UUID pattern. */
  predicate IsUuid(s: string): (r: bool)
    ensures r <==> UuidShape(s)
  {
    PatternIffShape(s);
    FullMatch(s, UuidPattern)
  }

  predicate IsHyphenPosition(i: int) {
    i == 8 || i == 13 || i == 18 || i == 23
  }

  /** The UUID shape stated by position: 36 characters, hyphens at 8, 13, 18
      and 23, a hexadecimal digit of either case everywhere else. */
  ghost predicate UuidShape(s: string) {
    |s| == 36 &&
    forall i :: 0 <= i < 36 ==> if IsHyphenPosition(i) then s[i] == '-' else IsHexDigit(s[i])
  }

  /** A hex run followed by the rest of a pattern. */
  lemma HexRunStep(s: string, n: nat, rest: seq<Atom>)
    ensures FullMatch(s, [HexRun(n)] + rest) <==>
      n <= |s| && (forall i :: 0 <= i < n ==> IsHexDigit(s[i])) && FullMatch(s[n..], rest)
  {
    assert ([HexRun(n)] + rest)[0] == HexRun(n);
    assert ([HexRun(n)] + rest)[1..] == rest;
  }

  /** A literal followed by the rest of a pattern. */
  lemma LiteralStep(s: string, c: char, rest: seq<Atom>)
    ensures FullMatch(s, [Literal(c)] + rest) <==>
      0 < |s| && s[0] == c && FullMatch(s[1..], rest)
  {
    assert ([Literal(c)] + rest)[0] == Literal(c);
    assert ([Literal(c)] + rest)[1..] == rest;
  }

  /** The last hex run must end the string. */
  lemma LastRun(s: string, n: nat)
    ensures FullMatch(s, [HexRun(n)]) <==>
      |s| == n && forall i :: 0 <= i < n ==> IsHexDigit(s[i])
  {
    HexRunStep(s, n, []);
    assert [HexRun(n)] + [] == [HexRun(n)];
  }

  /** A hex group of `n` digits, a hyphen, and then the rest of the pattern. */
  lemma GroupStep(s: string, n: nat, rest: seq<Atom>)
    ensures FullMatch(s, [HexRun(n), Literal('-')] + rest) <==>
      n < |s| && (forall i :: 0 <= i < n ==> IsHexDigit(s[i])) && s[n] == '-' && FullMatch(s[n + 1..], rest)
  {
    assert [HexRun(n), Literal('-')] + rest == [HexRun(n)] + ([Literal('-')] + rest);
    HexRunStep(s, n, [Literal('-')] + rest);
    if n <= |s| {
      LiteralStep(s[n..], '-', rest);
      if n < |s| {
        assert s[n..][1..] == s[n + 1..];
      }
    }
  }

  /** The pattern accepts exactly the strings of UUID shape: 8, 4, 4, 4 and 12
      hex digits of either case, joined by single hyphens, nothing before or
      after. */
  lemma {:induction false} PatternIffShape(s: string)
    ensures FullMatch(s, UuidPattern) <==> UuidShape(s)
  {
    assert UuidPattern == [HexRun(8), Literal('-')] + Tail(1);
    ShapeFromStart(s);
    GroupStep(s, 8, Tail(1));
    ShapeStep(s, 0, 8);
    if 8 < |s| {
      TailIffShape(s[9..], 1);
    }
  }

  /** The pattern after its first `k` groups and their hyphens (1 <= k <= 4). */
  function Tail(k: nat): seq<Atom>
    requires 1 <= k <= 4
    decreases 4 - k
  {
    if k == 4 then [HexRun(12)] else [HexRun(4), Literal('-')] + Tail(k + 1)
  }

  /** Group by group, the tail of the pattern accepts exactly the tails of the
      UUID shape that start where that group starts. */
  lemma {:induction false} TailIffShape(t: string, k: nat)
    requires 1 <= k <= 4
    ensures FullMatch(t, Tail(k)) <==> ShapeFrom(t, 5 * k + 4)
    decreases 4 - k
  {
    if k == 4 {
      LastRun(t, 12);
      LastShape(t);
    } else {
      GroupStep(t, 4, Tail(k + 1));
      ShapeStep(t, 5 * k + 4, 4);
      if 4 < |t| {
        TailIffShape(t[5..], k + 1);
      }
    }
  }

  /** `t` is what follows the first `off` characters of a string of UUID shape. */
  ghost predicate ShapeFrom(t: string, off: nat) {
    |t| + off == 36 &&
    forall i :: 0 <= i < |t| ==> if IsHyphenPosition(off + i) then t[i] == '-' else IsHexDigit(t[i])
  }

  lemma ShapeFromStart(s: string)
    ensures UuidShape(s) <==> ShapeFrom(s, 0)
  {
  }

  /** The last group: twelve hex digits and the end of the string. */
  lemma LastShape(t: string)
    ensures ShapeFrom(t, 24) <==> |t| == 12 && forall i :: 0 <= i < 12 ==> IsHexDigit(t[i])
  {
  }

  /** The shape seen one group at a time: `n` hex digits up to the next hyphen. */
  lemma ShapeStep(t: string, off: nat, n: nat)
    requires IsHyphenPosition(off + n)
    requires forall i :: off <= i < off + n ==> !IsHyphenPosition(i)
    ensures ShapeFrom(t, off) <==>
      n < |t| && (forall i :: 0 <= i < n ==> IsHexDigit(t[i])) && t[n] == '-' && ShapeFrom(t[n + 1..], off + n + 1)
  {
    if n < |t| && (forall i :: 0 <= i < n ==> IsHexDigit(t[i])) && t[n] == '-' && ShapeFrom(t[n + 1..], off + n + 1) {
      forall i | 0 <= i < |t|
        ensures if IsHyphenPosition(off + i) then t[i] == '-' else IsHexDigit(t[i])
      {
        if n < i {
          assert t[i] == t[n + 1..][i - n - 1];
        }
      }
    }
  }
}
