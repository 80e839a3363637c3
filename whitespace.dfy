/** .NET's `char.IsWhiteSpace` and `string.Trim()`, which the embed decoder
    applies to every `$type` tag before comparing it. */
module Whitespace {

  /** The characters `char.IsWhiteSpace` accepts: the Unicode space separators,
      line and paragraph separators, and U+0009..U+000D, U+0085. */
  predicate IsWhiteSpace(c: char) {
    || ('\U{0009}' <= c <= '\U{000D}')
    || c == ' '
    || c == '\U{0085}'
    || c == '\U{00A0}'
    || c == '\U{1680}'
    || ('\U{2000}' <= c <= '\U{200A}')
    || c == '\U{2028}'
    || c == '\U{2029}'
    || c == '\U{202F}'
    || c == '\U{205F}'
    || c == '\U{3000}'
  }

  predicate AllWhiteSpace(s: string) {
    forall i :: 0 <= i < |s| ==> IsWhiteSpace(s[i])
  }

  /** Neither starts nor ends with white space: a string `Trim` leaves alone. */
  predicate IsBare(s: string) {
    s == [] || (!IsWhiteSpace(s[0]) && !IsWhiteSpace(s[|s| - 1]))
  }

  /** `string.TrimStart()`: drops the leading white space and nothing else. */
  function TrimStart(s: string): (r: string)
    ensures |r| <= |s| && r == s[|s| - |r|..]
    ensures AllWhiteSpace(s[..|s| - |r|])
    ensures r == [] || !IsWhiteSpace(r[0])
  {
    if |s| > 0 && IsWhiteSpace(s[0]) then TrimStart(s[1..]) else s
  }

  /** `string.TrimEnd()`: drops the trailing white space and nothing else. */
  function TrimEnd(s: string): (r: string)
    ensures |r| <= |s| && r == s[..|r|]
    ensures AllWhiteSpace(s[|r|..])
    ensures r == [] || !IsWhiteSpace(r[|r| - 1])
  {
    if |s| > 0 && IsWhiteSpace(s[|s| - 1]) then TrimEnd(s[..|s| - 1]) else s
  }

  /** `string.Trim()`. */
  function Trim(s: string): (r: string)
    ensures IsBare(r) && |r| <= |s|
    ensures r == [] <==> AllWhiteSpace(s)
  {
    var t := TrimStart(s);
    assert t == [] ==> s == s[..|s|];
    TrimEnd(t)
  }

  lemma {:induction false} TrimStartOfPadded(p: string, rest: string)
    requires AllWhiteSpace(p)
    requires rest != [] && !IsWhiteSpace(rest[0])
    ensures TrimStart(p + rest) == rest
    decreases |p|
  {
    if p == [] {
      assert p + rest == rest;
    } else {
      assert (p + rest)[1..] == p[1..] + rest;
      TrimStartOfPadded(p[1..], rest);
    }
  }

  lemma {:induction false} TrimEndOfPadded(rest: string, q: string)
    requires AllWhiteSpace(q)
    requires rest != [] && !IsWhiteSpace(rest[|rest| - 1])
    ensures TrimEnd(rest + q) == rest
    decreases |q|
  {
    if q == [] {
      assert rest + q == rest;
    } else {
      assert (rest + q)[..|rest + q| - 1] == rest + q[..|q| - 1];
      TrimEndOfPadded(rest, q[..|q| - 1]);
    }
  }

  /** Trim is determined by the bare core: surrounding white space of any
      length is removed and the core is returned unchanged. */
  lemma TrimOfPadded(p: string, m: string, q: string)
    requires AllWhiteSpace(p) && AllWhiteSpace(q) && IsBare(m)
    ensures Trim(p + m + q) == m
  {
    if m == [] {
      assert AllWhiteSpace(p + m + q);
    } else {
      assert p + m + q == p + (m + q);
      TrimStartOfPadded(p, m + q);
      TrimEndOfPadded(m, q);
    }
  }

  /** Trimming twice is trimming once. */
  lemma TrimIdempotent(s: string)
    ensures Trim(Trim(s)) == Trim(s)
  {
    var m := Trim(s);
    assert TrimStart(m) == m;
    assert TrimEnd(m) == m;
  }
}
