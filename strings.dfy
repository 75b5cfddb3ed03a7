/** Text helpers shared by the backend and the frontend models. Case mapping is
    ASCII only, and a `char` is a Unicode scalar value, so lengths count scalar
    values rather than the UTF-16 units of Java and JavaScript (see README). */
module Strings {

  predicate StartsWith(s: string, prefix: string) {
    |prefix| <= |s| && s[..|prefix|] == prefix
  }

  predicate OccursAt(s: string, sub: string, i: nat) {
    i + |sub| <= |s| && s[i..i + |sub|] == sub
  }

  /** `sub` occurs in `s` at some position. */
  predicate Contains(s: string, sub: string) {
    exists i: nat | i <= |s| :: OccursAt(s, sub, i)
  }

  lemma ContainsMiddle(a: string, b: string, c: string)
    ensures Contains(a + b + c, b)
  {
    assert OccursAt(a + b + c, b, |a|);
  }

  function LowerChar(c: char): char {
    if 'A' <= c <= 'Z' then (c as int + 32) as char else c
  }

  function UpperChar(c: char): char {
    if 'a' <= c <= 'z' then (c as int - 32) as char else c
  }

  function Lower(s: string): (r: string)
    ensures |r| == |s| && forall i :: 0 <= i < |s| ==> r[i] == LowerChar(s[i])
  {
    seq(|s|, i requires 0 <= i < |s| => LowerChar(s[i]))
  }

  lemma LowerIdempotent(s: string)
    ensures Lower(Lower(s)) == Lower(s)
  {
  }

  predicate IsDigit(c: char) { '0' <= c <= '9' }

  predicate AllDigits(s: string) { forall i :: 0 <= i < |s| ==> IsDigit(s[i]) }

  predicate IsAsciiLetter(c: char) { 'a' <= c <= 'z' || 'A' <= c <= 'Z' }

  /** The value of a string of decimal digits (0 for the empty string). */
  function DigitsValue(s: string): nat
    requires AllDigits(s)
  {
    if s == [] then 0 else 10 * DigitsValue(s[..|s| - 1]) + (s[|s| - 1] as int - '0' as int)
  }

  /** Decimal rendering of a natural number, as Java's and JavaScript's number-to-string. */
  function NatToString(n: nat): string
    decreases n
  {
    if n < 10 then [('0' as int + n) as char]
    else NatToString(n / 10) + [('0' as int + n % 10) as char]
  }

  function IntToString(i: int): string {
    if i < 0 then "-" + NatToString(-i) else NatToString(i)
  }

  /** Reading back a rendered number gives the number: the decimal round trip. */
  lemma {:induction false} NatToStringRoundTrip(n: nat)
    ensures |NatToString(n)| > 0 && AllDigits(NatToString(n))
    ensures DigitsValue(NatToString(n)) == n
    decreases n
  {
    if n >= 10 {
      NatToStringRoundTrip(n / 10);
      var s := NatToString(n);
      assert s[..|s| - 1] == NatToString(n / 10);
    }
  }

  /** Index of the first `c` in `s`, or -1. */
  function IndexOf(s: string, c: char): (r: int)
    ensures -1 <= r < |s|
    ensures r == -1 <==> c !in s
    ensures r >= 0 ==> s[r] == c && c !in s[..r]
  {
    if s == [] then -1
    else if s[0] == c then 0
    else var k := IndexOf(s[1..], c); (if k < 0 then -1 else k + 1)
  }

  /** JavaScript's and Java's `split` on a one-character separator: every
      separator starts a new piece, so empty pieces are kept. */
  function Split(s: string, c: char): (r: seq<string>)
    ensures |r| > 0
    decreases |s|
  {
    var i := IndexOf(s, c);
    if i < 0 then [s] else [s[..i]] + Split(s[i + 1..], c)
  }

  /** `parts.join(c)`. */
  function Join(parts: seq<string>, c: char): string {
    if |parts| == 0 then ""
    else if |parts| == 1 then parts[0]
    else parts[0] + [c] + Join(parts[1..], c)
  }

  /** `String.join(sep, parts)` / `parts.join(sep)` with a separator of any length. */
  function JoinWith(parts: seq<string>, sep: string): string {
    if |parts| == 0 then ""
    else if |parts| == 1 then parts[0]
    else parts[0] + sep + JoinWith(parts[1..], sep)
  }

  lemma {:induction false} SplitPiecesHaveNoSeparator(s: string, c: char)
    ensures forall w :: w in Split(s, c) ==> c !in w
    decreases |s|
  {
    var i := IndexOf(s, c);
    if i >= 0 {
      SplitPiecesHaveNoSeparator(s[i + 1..], c);
    }
  }

  lemma JoinCons(w: string, rest: seq<string>, c: char)
    requires |rest| > 0
    ensures Join([w] + rest, c) == w + [c] + Join(rest, c)
  {
    assert ([w] + rest)[1..] == rest;
  }

  /** Joining the pieces of a split gives back the string. */
  lemma {:induction false} JoinSplit(s: string, c: char)
    ensures Join(Split(s, c), c) == s
    decreases |s|
  {
    var i := IndexOf(s, c);
    if i >= 0 {
      JoinSplit(s[i + 1..], c);
      JoinSplitStep(s, c, i);
    }
  }

  lemma JoinSplitStep(s: string, c: char, i: nat)
    requires i < |s| && IndexOf(s, c) == i
    requires Join(Split(s[i + 1..], c), c) == s[i + 1..]
    ensures Join(Split(s, c), c) == s
  {
    var head, tail := s[..i], s[i + 1..];
    var rest := Split(tail, c);
    calc {
      Join(Split(s, c), c);
    == { assert Split(s, c) == [head] + rest; }
      Join([head] + rest, c);
    == { JoinCons(head, rest, c); }
      head + [c] + Join(rest, c);
    == { assert s[i] == c; }
      s;
    }
  }

  /** Splitting a join of separator-free pieces gives back the pieces. */
  lemma {:induction false} SplitJoin(parts: seq<string>, c: char)
    requires |parts| > 0
    requires forall k :: 0 <= k < |parts| ==> c !in parts[k]
    ensures Split(Join(parts, c), c) == parts
  {
    if |parts| > 1 {
      var s := Join(parts, c);
      var w := parts[0];
      assert s == w + [c] + Join(parts[1..], c);
      assert s[|w|] == c;
      assert s[..|w|] == w;
      assert IndexOf(s, c) == |w|;
      assert s[|w| + 1..] == Join(parts[1..], c);
      SplitJoin(parts[1..], c);
    }
  }

  /** Whitespace as JavaScript's `\s` and `trim` see it. */
  predicate IsJsSpace(c: char) {
    c == ' ' || c == '\t' || c == '\n' || c == '\U{000B}' || c == '\U{000C}' || c == '\r'
    || c == '\U{00A0}' || c == '\U{1680}' || ('\U{2000}' <= c <= '\U{200A}')
    || c == '\U{2028}' || c == '\U{2029}' || c == '\U{202F}' || c == '\U{205F}'
    || c == '\U{3000}' || c == '\U{FEFF}'
  }

  /** `s.trim() === ""`: the string is empty or only whitespace. */
  predicate IsBlank(s: string) {
    forall i :: 0 <= i < |s| ==> IsJsSpace(s[i])
  }

  /** The last piece of a split is the text after the last separator. */
  lemma {:induction false} SplitLast(a: string, e: string, c: char)
    requires c !in e
    ensures var r := Split(a + [c] + e, c); r[|r| - 1] == e
    decreases |a|
  {
    var s := a + [c] + e;
    var i := IndexOf(a, c);
    if i < 0 {
      assert s[..|a|] == a && s[|a| + 1..] == e;
      SplitAt(s, c, |a|);
      assert Split(e, c) == [e];
    } else {
      assert s[..i] == a[..i] && s[i + 1..] == a[i + 1..] + [c] + e;
      SplitAt(s, c, i);
      SplitLast(a[i + 1..], e, c);
    }
  }

  /** Splitting at the first separator: the text before it, then the split of the rest. */
  lemma SplitAt(s: string, c: char, k: nat)
    requires k < |s| && s[k] == c && c !in s[..k]
    ensures Split(s, c) == [s[..k]] + Split(s[k + 1..], c)
  {
  }
}
