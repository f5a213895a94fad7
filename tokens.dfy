/**
 * Python's `str.split()` with no separator, as the telemetry handler applies it
 * to the payload: runs of whitespace separate tokens, leading and trailing
 * whitespace is dropped, and no token is empty.
 */
module Tokens {

  /** The characters for which Python's `str.isspace()` holds. */
  predicate IsSpace(c: char) {
    var n := c as int;
    (9 <= n <= 13) || (28 <= n <= 32) || n == 0x85 || n == 0xA0 || n == 0x1680
    || (0x2000 <= n <= 0x200A) || n == 0x2028 || n == 0x2029 || n == 0x202F
    || n == 0x205F || n == 0x3000
  }

  /** A non-empty string without whitespace: what `split()` can produce. */
  predicate IsToken(t: string) {
    |t| > 0 && forall i :: 0 <= i < |t| ==> !IsSpace(t[i])
  }

  /** The longest prefix of `s` that holds no whitespace. */
  function Word(s: string): (w: string)
    ensures w <= s
    ensures forall i :: 0 <= i < |w| ==> !IsSpace(w[i])
    ensures |w| < |s| ==> IsSpace(s[|w|])
  {
    if s == [] || IsSpace(s[0]) then [] else [s[0]] + Word(s[1..])
  }

  /** `s.split()`. */
  function Split(s: string): (r: seq<string>)
    ensures forall i :: 0 <= i < |r| ==> IsToken(r[i])
    decreases |s|
  {
    if s == [] then []
    else if IsSpace(s[0]) then Split(s[1..])
    else
      var w := Word(s);
      [w] + Split(s[|w|..])
  }

  /** `" ".join(tokens)`: the tokens separated by single spaces. */
  function Join(tokens: seq<string>): string {
    if tokens == [] then ""
    else if |tokens| == 1 then tokens[0]
    else tokens[0] + " " + Join(tokens[1..])
  }

  /** Splitting at a whitespace character splits the two sides independently. */
  lemma {:induction false} SplitAtSpace(s: string, c: char, t: string)
    requires IsSpace(c)
    ensures Split(s + [c] + t) == Split(s) + Split(t)
    decreases |s|
  {
    var u := s + [c] + t;
    if s == [] {
      assert u == [c] + t;
      assert u[1..] == t;
    } else if IsSpace(s[0]) {
      assert u[1..] == s[1..] + [c] + t;
      SplitAtSpace(s[1..], c, t);
    } else {
      var w := Word(s);
      WordPrefix(s, [c] + t);
      assert s + [c] + t == s + ([c] + t);
      assert Word(u) == w;
      assert u[|w|..] == s[|w|..] + [c] + t;
      SplitAtSpace(s[|w|..], c, t);
    }
  }

  /** A word of `s` stays the same word when `s` continues with whitespace. */
  lemma {:induction false} WordPrefix(s: string, rest: string)
    requires rest != [] && IsSpace(rest[0])
    ensures Word(s + rest) == Word(s)
  {
    if s != [] && !IsSpace(s[0]) {
      assert (s + rest)[1..] == s[1..] + rest;
      WordPrefix(s[1..], rest);
    }
  }

  /** A single token splits to itself. */
  lemma {:induction false} SplitToken(t: string)
    requires IsToken(t)
    ensures Split(t) == [t]
  {
    WordWhole(t);
    assert t[|t|..] == [];
  }

  lemma {:induction false} WordWhole(t: string)
    requires forall i :: 0 <= i < |t| ==> !IsSpace(t[i])
    ensures Word(t) == t
  {
    if t != [] {
      WordWhole(t[1..]);
    }
  }

  /** Round trip: splitting space-joined tokens gives the tokens back. */
  lemma {:induction false} SplitJoin(tokens: seq<string>)
    requires forall i :: 0 <= i < |tokens| ==> IsToken(tokens[i])
    ensures Split(Join(tokens)) == tokens
  {
    if tokens == [] {
    } else if |tokens| == 1 {
      SplitToken(tokens[0]);
    } else {
      SplitAtSpace(tokens[0], ' ', Join(tokens[1..]));
      SplitToken(tokens[0]);
      SplitJoin(tokens[1..]);
    }
  }
}
