/**
 * `String.prototype.trim`: removal of leading and trailing white space.
 *
 * Characters of the output buffer are modelled as Dafny `char`s (code points),
 * since the buffer holds text already decoded from the process's byte streams.
 */
module JsText {

  /**
   * The ECMAScript WhiteSpace and LineTerminator characters: TAB, VT, FF, SP,
   * NBSP, ZWNBSP, the other Unicode "Zs" space separators, LF, CR, LS and PS.
   */
  predicate IsWs(c: char) {
    c == '\U{0009}' || c == '\U{000B}' || c == '\U{000C}' || c == '\U{0020}' ||
    c == '\U{00A0}' || c == '\U{FEFF}' || c == '\U{1680}' ||
    ('\U{2000}' <= c <= '\U{200A}') || c == '\U{202F}' || c == '\U{205F}' || c == '\U{3000}' ||
    c == '\U{000A}' || c == '\U{000D}' || c == '\U{2028}' || c == '\U{2029}'
  }

  predicate AllWs(s: string) {
    forall i :: 0 <= i < |s| ==> IsWs(s[i])
  }

  /** Neither the first nor the last character is white space. */
  predicate Trimmed(s: string) {
    s == [] || (!IsWs(s[0]) && !IsWs(s[|s| - 1]))
  }

  /** Drops the white-space prefix: what is left is a suffix of `s` not starting with white space. */
  function TrimStart(s: string): (r: string)
    ensures |r| <= |s| && r == s[|s| - |r|..]
    ensures AllWs(s[..|s| - |r|])
    ensures r != [] ==> !IsWs(r[0])
    decreases |s|
  {
    if s != [] && IsWs(s[0]) then
      var r := TrimStart(s[1..]);
      assert s[..|s| - |r|] == [s[0]] + s[1..][..|s| - 1 - |r|];
      r
    else
      s
  }

  /** Drops the white-space suffix: what is left is a prefix of `s` not ending with white space. */
  function TrimEnd(s: string): (r: string)
    ensures |r| <= |s| && r == s[..|r|]
    ensures AllWs(s[|r|..])
    ensures r != [] ==> !IsWs(r[|r| - 1])
    decreases |s|
  {
    if s != [] && IsWs(s[|s| - 1]) then
      var r := TrimEnd(s[..|s| - 1]);
      assert s[|r|..] == s[..|s| - 1][|r|..] + [s[|s| - 1]];
      r
    else
      s
  }

  /** `s.trim()`: a slice of `s` that is `Trimmed`, empty exactly when `s` is all white space. */
  function Trim(s: string): (r: string)
    ensures |r| <= |s|
    ensures Trimmed(r)
    ensures r == [] <==> AllWs(s)
  {
    var t := TrimStart(s);
    var r := TrimEnd(t);
    assert t != [] ==> !IsWs(t[0]);
    assert r != [] ==> r[0] == t[0];
    if r == [] then
      assert s == s[..|s| - |t|] + t;
      assert AllWs(t[..0]);
      AllWsConcat(s[..|s| - |t|], t);
      r
    else
      assert !IsWs(s[|s| - |t|]);
      r
  }

  lemma AllWsConcat(a: string, b: string)
    requires AllWs(a) && AllWs(b)
    ensures AllWs(a + b)
  {
  }

  /**
   * Trim is determined by its spec: whatever white space surrounds a `Trimmed`
   * core, trimming gives back exactly that core.
   */
  lemma {:induction false} TrimUnique(p: string, m: string, q: string)
    requires AllWs(p) && AllWs(q) && Trimmed(m)
    ensures Trim(p + m + q) == m
  {
    if m == [] {
      assert p + m + q == p + q;
      AllWsConcat(p, q);
    } else {
      assert p + m + q == p + (m + q);
      TrimStartUnique(p, m + q);
      TrimEndUnique(m, q);
    }
  }

  lemma {:induction false} TrimStartUnique(p: string, t: string)
    requires AllWs(p)
    requires t == [] || !IsWs(t[0])
    ensures TrimStart(p + t) == t
    decreases |p|
  {
    if p != [] {
      assert (p + t)[1..] == p[1..] + t;
      TrimStartUnique(p[1..], t);
    } else {
      assert p + t == t;
    }
  }

  lemma {:induction false} TrimEndUnique(m: string, q: string)
    requires AllWs(q)
    requires m == [] || !IsWs(m[|m| - 1])
    ensures TrimEnd(m + q) == TrimEnd(m)
    decreases |q|
  {
    if q != [] {
      assert (m + q)[..|m + q| - 1] == m + q[..|q| - 1];
      TrimEndUnique(m, q[..|q| - 1]);
    } else {
      assert m + q == m;
    }
  }

  /** Trimming twice is trimming once. */
  lemma TrimIdempotent(s: string)
    ensures Trim(Trim(s)) == Trim(s)
  {
  }
}
