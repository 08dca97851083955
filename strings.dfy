/** The few functions of Go's `strings` package that the handlers and the
    configuration loader rely on, specialised to a one-character separator or
    cutset: `strings.Index`, `strings.Trim`, `strings.Split`, plus
    `strings.LastIndex` (used only by the corrected redaction) and the
    inverse of `Split`, which Go spells `strings.Join`. */
module Strings {

  /** `strings.Index(s, string(c))`: the position of the first `c`, or -1. */
  function Index(s: string, c: char): (i: int)
    ensures -1 <= i < |s|
    ensures i == -1 <==> c !in s
    ensures 0 <= i ==> s[i] == c && c !in s[..i]
  {
    if |s| == 0 then -1
    else if s[0] == c then 0
    else
      var j := Index(s[1..], c);
      assert 0 <= j ==> s[..j + 1] == [s[0]] + s[1..][..j];
      if j == -1 then -1 else j + 1
  }

  /** `strings.LastIndex(s, string(c))`: the position of the last `c`, or -1. */
  function LastIndex(s: string, c: char): (i: int)
    ensures -1 <= i < |s|
    ensures i == -1 <==> c !in s
    ensures 0 <= i ==> s[i] == c
    ensures forall k :: i < k < |s| ==> s[k] != c
  {
    if |s| == 0 then -1
    else if s[|s| - 1] == c then |s| - 1
    else
      var init := s[..|s| - 1];
      var j := LastIndex(init, c);
      assert forall k :: 0 <= k < |init| ==> init[k] == s[k];
      j
  }

  /** The first `c` of `a + [c] + b` is the one after `a` when `a` has none. */
  lemma IndexAfter(a: string, c: char, b: string)
    requires c !in a
    ensures Index(a + [c] + b, c) == |a|
  {
    assert (a + [c] + b)[|a|] == c;
  }

  /** `n` copies of `c`. */
  function Repeat(c: char, n: nat): (r: string)
    ensures |r| == n
    ensures forall i :: 0 <= i < n ==> r[i] == c
  {
    if n == 0 then [] else [c] + Repeat(c, n - 1)
  }

  /** Leading part of `strings.Trim`: drops every `c` at the front. */
  function TrimLeft(s: string, c: char): (r: string)
    ensures |r| <= |s|
    ensures r == [] || r[0] != c
  {
    if |s| > 0 && s[0] == c then TrimLeft(s[1..], c) else s
  }

  /** Trailing part of `strings.Trim`: drops every `c` at the back. */
  function TrimRight(s: string, c: char): (r: string)
    ensures r <= s
    ensures r == [] || r[|r| - 1] != c
  {
    if |s| > 0 && s[|s| - 1] == c then TrimRight(s[..|s| - 1], c) else s
  }

  /** `strings.Trim(s, string(c))`: the longest slice of `s` that neither
      starts nor ends with `c`, everything outside it being `c`. */
  function Trim(s: string, c: char): (r: string)
    ensures |r| <= |s|
    ensures r == [] || (r[0] != c && r[|r| - 1] != c)
  {
    TrimRight(TrimLeft(s, c), c)
  }

  lemma {:induction false} TrimLeftPadded(c: char, n: nat, s: string)
    ensures TrimLeft(Repeat(c, n) + s, c) == TrimLeft(s, c)
  {
    if n > 0 {
      assert Repeat(c, n)[1..] == Repeat(c, n - 1);
      assert (Repeat(c, n) + s)[1..] == Repeat(c, n - 1) + s;
      TrimLeftPadded(c, n - 1, s);
    } else {
      assert Repeat(c, n) + s == s;
    }
  }

  lemma {:induction false} TrimRightPadded(c: char, s: string, n: nat)
    ensures TrimRight(s + Repeat(c, n), c) == TrimRight(s, c)
  {
    if n > 0 {
      assert Repeat(c, n) == Repeat(c, n - 1) + [c] by {
        assert Repeat(c, n)[..n - 1] == Repeat(c, n - 1);
      }
      assert (s + Repeat(c, n))[|s| + n - 1] == c;
      assert (s + Repeat(c, n))[..|s| + n - 1] == s + Repeat(c, n - 1);
      TrimRightPadded(c, s, n - 1);
    } else {
      assert s + Repeat(c, n) == s;
    }
  }

  lemma TrimLeftStops(s: string, c: char)
    requires s != [] && s[0] != c
    ensures TrimLeft(s, c) == s
  {
  }

  lemma TrimRightStops(s: string, c: char)
    requires s != [] && s[|s| - 1] != c
    ensures TrimRight(s, c) == s
  {
  }

  lemma TrimLeftAll(c: char, n: nat)
    ensures TrimLeft(Repeat(c, n), c) == []
  {
    assert Repeat(c, n) + [] == Repeat(c, n);
    TrimLeftPadded(c, n, []);
  }

  lemma TrimAfterCore(c: char, x: string, b: nat)
    requires x == [] || (x[0] != c && x[|x| - 1] != c)
    ensures TrimRight(TrimLeft(x + Repeat(c, b), c), c) == x
  {
    if x == [] {
      assert x + Repeat(c, b) == Repeat(c, b);
      TrimLeftAll(c, b);
    } else {
      assert (x + Repeat(c, b))[0] == x[0];
      TrimLeftStops(x + Repeat(c, b), c);
      TrimRightPadded(c, x, b);
      TrimRightStops(x, c);
    }
  }

  /** Trimming undoes any padding with `c` around a core that neither starts
      nor ends with `c`. */
  lemma TrimPadded(c: char, a: nat, x: string, b: nat)
    requires x == [] || (x[0] != c && x[|x| - 1] != c)
    ensures Trim(Repeat(c, a) + x + Repeat(c, b), c) == x
  {
    var y := x + Repeat(c, b);
    assert Repeat(c, a) + x + Repeat(c, b) == Repeat(c, a) + y;
    TrimLeftPadded(c, a, y);
    TrimAfterCore(c, x, b);
  }

  /** `strings.Join(parts, string(c))`. */
  function Join(parts: seq<string>, c: char): string
    requires |parts| >= 1
  {
    if |parts| == 1 then parts[0] else parts[0] + [c] + Join(parts[1..], c)
  }

  /** `strings.Split(s, string(c))`: never empty (`Split("")` is `[""]`),
      no piece holds `c`, and joining the pieces gives back `s`. */
  function Split(s: string, c: char): (parts: seq<string>)
    ensures |parts| >= 1
    ensures forall i :: 0 <= i < |parts| ==> c !in parts[i]
    ensures Join(parts, c) == s
    decreases |s|
  {
    var i := Index(s, c);
    if i == -1 then [s]
    else
      var rest := Split(s[i + 1..], c);
      var parts := [s[..i]] + rest;
      assert parts[0] == s[..i] && parts[1..] == rest;
      assert Join(parts, c) == s[..i] + [c] + Join(rest, c);
      assert s == s[..i] + [c] + s[i + 1..];
      parts
  }

  /** Splitting a joined sequence of `c`-free pieces gives back the pieces. */
  lemma {:induction false} SplitJoin(parts: seq<string>, c: char)
    requires |parts| >= 1
    requires forall i :: 0 <= i < |parts| ==> c !in parts[i]
    ensures Split(Join(parts, c), c) == parts
  {
    if |parts| > 1 {
      var s := Join(parts, c);
      IndexAfter(parts[0], c, Join(parts[1..], c));
      assert s[..|parts[0]|] == parts[0];
      assert s[|parts[0]| + 1..] == Join(parts[1..], c);
      SplitJoin(parts[1..], c);
    }
  }
}
