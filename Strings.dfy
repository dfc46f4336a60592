/** The two JavaScript string operations the core relies on:
    `s.replace(/c/g, r)` for a single character `c`, and `xs.join(sep)`. */
module Strings {

  /** `s.replace(/c/g, r)`: every occurrence of `c`, left to right, becomes `r`. */
  function ReplaceAll(s: string, c: char, r: string): (t: string)
    ensures c !in r ==> c !in t
  {
    if s == [] then []
    else (if s[0] == c then r else [s[0]]) + ReplaceAll(s[1..], c, r)
  }

  lemma {:induction false} ReplaceAllAppend(x: string, y: string, c: char, r: string)
    ensures ReplaceAll(x + y, c, r) == ReplaceAll(x, c, r) + ReplaceAll(y, c, r)
  {
    if x != [] {
      assert (x + y)[1..] == x[1..] + y;
      ReplaceAllAppend(x[1..], y, c, r);
    } else {
      assert x + y == y;
    }
  }

  lemma ReplaceAllSingleton(x: char, c: char, r: string)
    ensures ReplaceAll([x], c, r) == if x == c then r else [x]
  {
    assert [x][1..] == [];
  }

  /** Replacing never introduces a character absent from the input and from
      the replacement. */
  lemma {:induction false} ReplaceAllKeepsAbsent(s: string, c: char, r: string, x: char)
    requires x !in s && x !in r
    ensures x !in ReplaceAll(s, c, r)
  {
    if s != [] {
      assert x !in s[1..];
      ReplaceAllKeepsAbsent(s[1..], c, r, x);
    }
  }

  /** `xs.join(sep)`: the elements with `sep` between neighbours. */
  function Join(xs: seq<string>, sep: string): (s: string)
    ensures xs == [] ==> s == ""
    ensures |xs| == 1 ==> s == xs[0]
  {
    if xs == [] then ""
    else if |xs| == 1 then xs[0]
    else xs[0] + sep + Join(xs[1..], sep)
  }
}
