/** Yes/no answer normalisation (`normalizeYesNo`, `toBoolean`). */
module YesNo {
  import opened Wrappers
  import opened Strings

  const YesWords: seq<string> := ["y", "yes", "true", "1"]
  const NoWords: seq<string> := ["n", "no", "false", "0"]

  /** No spelling is both a yes and a no. */
  lemma WordsApart()
    ensures forall w :: w in YesWords ==> w !in NoWords
  {
    forall w | w in YesWords ensures w !in NoWords {
      assert w[0] in {'y', 't', '1'};
    }
  }

  /** `normalizeYesNo(value)`: `None` stands for `undefined`, both as the
      argument (a value that is not a string) and as the result. */
  function NormalizeYesNo(value: Option<string>): (r: Option<string>)
    ensures r.Some? ==> r.value == "y" || r.value == "n"
    ensures r == Some("y") <==> value.Some? && Canonical(value.value) in YesWords
    ensures r == Some("n") <==> value.Some? && Canonical(value.value) in NoWords
    ensures r.None? <==> value.None? || Canonical(value.value) !in YesWords + NoWords
  {
    match value
    case None => None
    case Some(s) =>
      var normalized := Canonical(s);
      WordsApart();
      if normalized in YesWords then Some("y")
      else if normalized in NoWords then Some("n")
      else None
  }

  /** `toBoolean(value)`: only a yes-spelling is true. */
  function ToBoolean(value: Option<string>): (b: bool)
    ensures b <==> value.Some? && Canonical(value.value) in YesWords
  {
    NormalizeYesNo(value) == Some("y")
  }

  /** Leading and trailing whitespace never changes the verdict. */
  lemma NormalizeIgnoresPadding(p: string, s: string, q: string)
    requires AllWhitespace(p) && AllWhitespace(q)
    ensures NormalizeYesNo(Some(p + s + q)) == NormalizeYesNo(Some(s))
  {
    TrimIgnoresPadding(p, s, q);
  }

  /** `s` and `t` agree up to ASCII case. */
  predicate SameUpToCase(s: string, t: string) {
    |s| == |t| && forall i :: 0 <= i < |s| ==> LowerChar(s[i]) == LowerChar(t[i])
  }

  /** Lower-casing maps whitespace to whitespace and nothing else to
      whitespace, so trimming treats case variants alike. */
  lemma {:induction false} TrimStartOfCaseVariant(s: string, t: string)
    requires SameUpToCase(s, t)
    ensures SameUpToCase(TrimStart(s), TrimStart(t))
  {
    if |s| > 0 {
      LowerCharWhitespace(s[0]);
      LowerCharWhitespace(t[0]);
      if IsWhitespace(s[0]) {
        var s', t' := s[1..], t[1..];
        assert SameUpToCase(s', t') by {
          forall i | 0 <= i < |s'| ensures LowerChar(s'[i]) == LowerChar(t'[i]) {
            assert s'[i] == s[i + 1] && t'[i] == t[i + 1];
          }
        }
        TrimStartOfCaseVariant(s', t');
      }
    }
  }

  lemma {:induction false} TrimEndOfCaseVariant(s: string, t: string)
    requires SameUpToCase(s, t)
    ensures SameUpToCase(TrimEnd(s), TrimEnd(t))
  {
    if |s| > 0 {
      LowerCharWhitespace(s[|s| - 1]);
      LowerCharWhitespace(t[|t| - 1]);
      if IsWhitespace(s[|s| - 1]) {
        var s', t' := s[..|s| - 1], t[..|t| - 1];
        assert SameUpToCase(s', t') by {
          forall i | 0 <= i < |s'| ensures LowerChar(s'[i]) == LowerChar(t'[i]) {
            assert s'[i] == s[i] && t'[i] == t[i];
          }
        }
        TrimEndOfCaseVariant(s', t');
      }
    }
  }

  /** Two strings that agree up to ASCII case have the same canonical form. */
  lemma {:induction false} CanonicalOfCaseVariant(s: string, t: string)
    requires SameUpToCase(s, t)
    ensures Canonical(s) == Canonical(t)
  {
    TrimStartOfCaseVariant(s, t);
    TrimEndOfCaseVariant(TrimStart(s), TrimStart(t));
    assert ToLower(Trim(s)) == ToLower(Trim(t));
  }

  /** The comparison is case-insensitive: "YES", "Yes" and "yes" all agree. */
  lemma NormalizeIgnoresCase(s: string, t: string)
    requires SameUpToCase(s, t)
    ensures NormalizeYesNo(Some(s)) == NormalizeYesNo(Some(t))
  {
    CanonicalOfCaseVariant(s, t);
  }

  /** A normalised answer normalises to itself. */
  lemma {:induction false} NormalizeIdempotent(value: Option<string>)
    ensures NormalizeYesNo(NormalizeYesNo(value)) == NormalizeYesNo(value)
  {
    var r := NormalizeYesNo(value);
    if r.Some? {
      CanonicalOfLetter(r.value);
    }
  }

  lemma CanonicalOfLetter(w: string)
    requires w == "y" || w == "n"
    ensures Canonical(w) == w
  {
    CanonicalOfPlain(w);
  }
}
