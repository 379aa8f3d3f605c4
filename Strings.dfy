/** The two JavaScript string primitives the generator relies on:
    `String.prototype.trim` and `String.prototype.toLowerCase`. */
module Strings {

  /** ECMAScript WhiteSpace and LineTerminator code points, the set that
      `trim` strips from both ends. */
  predicate IsWhitespace(c: char) {
    c == '\t' || c == '\n' || c == '\U{000B}' || c == '\U{000C}' || c == '\r' || c == ' '
    || c == '\U{00A0}' || c == '\U{1680}' || ('\U{2000}' <= c <= '\U{200A}')
    || c == '\U{2028}' || c == '\U{2029}' || c == '\U{202F}' || c == '\U{205F}'
    || c == '\U{3000}' || c == '\U{FEFF}'
  }

  predicate AllWhitespace(s: string) {
    forall i :: 0 <= i < |s| ==> IsWhitespace(s[i])
  }

  /** Neither end of `s` is whitespace. */
  predicate Unpadded(s: string) {
    |s| == 0 || (!IsWhitespace(s[0]) && !IsWhitespace(s[|s| - 1]))
  }

  function TrimStart(s: string): (r: string)
    ensures |r| <= |s| && r == s[|s| - |r|..]
    ensures |r| == 0 || !IsWhitespace(r[0])
    ensures AllWhitespace(s[..|s| - |r|])
  {
    if |s| > 0 && IsWhitespace(s[0]) then TrimStart(s[1..]) else s
  }

  function TrimEnd(s: string): (r: string)
    ensures |r| <= |s| && r == s[..|r|]
    ensures |r| == 0 || !IsWhitespace(r[|r| - 1])
    ensures AllWhitespace(s[|r|..])
  {
    if |s| > 0 && IsWhitespace(s[|s| - 1]) then TrimEnd(s[..|s| - 1]) else s
  }

  /** `s.trim()` */
  function Trim(s: string): (r: string)
    ensures Unpadded(r)
    ensures |r| <= |s|
    ensures |r| == 0 <==> AllWhitespace(s)
  {
    var t := TrimStart(s);
    var r := TrimEnd(t);
    TrimEmpty(s, t);
    r
  }

  /** What `trim` keeps is empty exactly when only whitespace was there. */
  lemma TrimEmpty(s: string, t: string)
    requires |t| <= |s| && t == s[|s| - |t|..] && AllWhitespace(s[..|s| - |t|])
    ensures |TrimEnd(t)| == 0 <==> AllWhitespace(s)
  {
    var k := |s| - |t|;
    if AllWhitespace(s) {
      forall i | 0 <= i < |t| ensures IsWhitespace(t[i]) {
        assert t[i] == s[k + i];
      }
      TrimEndAllWhitespace(t);
    }
    var r := TrimEnd(t);
    if |r| == 0 {
      forall i | 0 <= i < |s| ensures IsWhitespace(s[i]) {
        if i < k {
          assert s[i] == s[..k][i];
        } else {
          assert s[i] == t[|r|..][i - k];
        }
      }
    }
  }

  /** `r` is `s[a..b]`, and only whitespace lies outside it. */
  predicate Bracketed(s: string, r: string, a: int, b: int) {
    0 <= a <= b <= |s| && r == s[a..b] && AllWhitespace(s[..a]) && AllWhitespace(s[b..])
  }

  /** `trim` returns the part of `s` between a whitespace prefix and a
      whitespace suffix. */
  lemma TrimIsInnerSlice(s: string)
    ensures exists a, b :: Bracketed(s, Trim(s), a, b)
  {
    var t := TrimStart(s);
    var r := TrimEnd(t);
    var a, b := |s| - |t|, |s| - |t| + |r|;
    assert r == s[a..b];
    assert s[b..] == t[|r|..];
    assert Bracketed(s, Trim(s), a, b);
  }

  /** `toLowerCase` on one character; only the ASCII letters are mapped. */
  function LowerChar(c: char): char {
    if 'A' <= c <= 'Z' then (c as int + 32) as char else c
  }

  /** `s.toLowerCase()` (ASCII case mapping). */
  function ToLower(s: string): (r: string)
    ensures |r| == |s|
    ensures forall i :: 0 <= i < |s| ==> r[i] == LowerChar(s[i])
  {
    seq(|s|, i requires 0 <= i < |s| => LowerChar(s[i]))
  }

  /** `s.trim().toLowerCase()`, the form in which answers are compared. */
  function Canonical(s: string): string {
    ToLower(Trim(s))
  }

  lemma {:induction false} TrimStartOfWhitespacePrefix(p: string, s: string)
    requires AllWhitespace(p)
    ensures TrimStart(p + s) == TrimStart(s)
  {
    if |p| > 0 {
      assert (p + s)[1..] == p[1..] + s;
      TrimStartOfWhitespacePrefix(p[1..], s);
    } else {
      assert p + s == s;
    }
  }

  lemma {:induction false} TrimEndOfWhitespaceSuffix(s: string, q: string)
    requires AllWhitespace(q)
    ensures TrimEnd(s + q) == TrimEnd(s)
  {
    if |q| > 0 {
      assert (s + q)[..|s + q| - 1] == s + q[..|q| - 1];
      TrimEndOfWhitespaceSuffix(s, q[..|q| - 1]);
    } else {
      assert s + q == s;
    }
  }

  /** A string without whitespace at either end is left alone by `trim`. */
  lemma TrimUnpadded(s: string)
    requires Unpadded(s)
    ensures Trim(s) == s
  {
  }

  /** Trimming is idempotent. */
  lemma TrimIdempotent(s: string)
    ensures Trim(Trim(s)) == Trim(s)
  {
    TrimUnpadded(Trim(s));
  }

  /** Whitespace added on either side does not change what `trim` returns. */
  lemma {:induction false} TrimIgnoresPadding(p: string, s: string, q: string)
    requires AllWhitespace(p) && AllWhitespace(q)
    ensures Trim(p + s + q) == Trim(s)
  {
    assert p + s + q == p + (s + q);
    TrimStartOfWhitespacePrefix(p, s + q);
    assert TrimStart(p + s + q) == TrimStart(s + q);
    TrimStartWithSuffix(s, q);
    TrimEndOfWhitespaceSuffix(TrimStart(s), q);
    assert Trim(p + s + q) == TrimEnd(TrimStart(s + q));
  }

  /** Trimming the front of `s + q` keeps `q` whole when `s` has a
      non-whitespace character, and consumes whitespace-only `q` otherwise;
      either way the end-trimmed results agree. */
  lemma {:induction false} TrimStartWithSuffix(s: string, q: string)
    requires AllWhitespace(q)
    ensures TrimEnd(TrimStart(s + q)) == TrimEnd(TrimStart(s) + q)
  {
    if |s| > 0 && IsWhitespace(s[0]) {
      assert (s + q)[1..] == s[1..] + q;
      TrimStartWithSuffix(s[1..], q);
    } else if |s| > 0 {
      assert (s + q)[0] == s[0];
    } else {
      assert s + q == q && TrimStart(s) + q == q;
      TrimStartOfWhitespace(q);
    }
  }

  /** Trimming a whitespace-only string leaves nothing. */
  lemma TrimStartOfWhitespace(q: string)
    requires AllWhitespace(q)
    ensures TrimEnd(TrimStart(q)) == TrimEnd(q)
  {
    TrimEndAllWhitespace(q);
    var r := TrimStart(q);
    assert r == q[|q| - |r|..];
    assert AllWhitespace(r);
    TrimEndAllWhitespace(r);
  }

  lemma {:induction false} TrimEndAllWhitespace(s: string)
    requires AllWhitespace(s)
    ensures TrimEnd(s) == []
  {
    if |s| > 0 {
      TrimEndAllWhitespace(s[..|s| - 1]);
    }
  }

  /** `s` holds no ASCII capital letter. */
  predicate NoCapitals(s: string) {
    forall i :: 0 <= i < |s| ==> !('A' <= s[i] <= 'Z')
  }

  /** A string already in canonical form is its own canonical form. */
  lemma CanonicalOfPlain(s: string)
    requires Unpadded(s) && NoCapitals(s)
    ensures Canonical(s) == s
  {
    TrimUnpadded(s);
    assert forall i :: 0 <= i < |s| ==> ToLower(s)[i] == s[i];
  }

  /** Lower-casing keeps whitespace as it is. */
  lemma LowerCharWhitespace(c: char)
    ensures IsWhitespace(LowerChar(c)) <==> IsWhitespace(c)
  {
  }
}
