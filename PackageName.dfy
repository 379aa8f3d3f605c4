/** `toPackageName`: the project name turned into a package name. */
module PackageName {
  import opened Strings

  /** The characters the regular expression `[a-z0-9-_.]` accepts. */
  predicate NameChar(c: char) {
    ('a' <= c <= 'z') || ('0' <= c <= '9') || c == '-' || c == '_' || c == '.'
  }

  predicate IsPackageName(s: string) {
    forall i :: 0 <= i < |s| ==> NameChar(s[i])
  }

  /** `input.trim().toLowerCase().replace(/[^a-z0-9-_.]/g, '-')` */
  function ToPackageName(input: string): (r: string)
    ensures |r| == |Trim(input)|
    ensures IsPackageName(r)
    ensures forall i :: 0 <= i < |r| ==>
      r[i] == (if NameChar(LowerChar(Trim(input)[i])) then LowerChar(Trim(input)[i]) else '-')
  {
    var lowered := ToLower(Trim(input));
    seq(|lowered|, i requires 0 <= i < |lowered| => if NameChar(lowered[i]) then lowered[i] else '-')
  }

  lemma NameCharUnchanged(c: char)
    requires NameChar(c)
    ensures LowerChar(c) == c && !IsWhitespace(c)
  {
  }

  /** A name that is already a package name comes back unchanged. */
  lemma PackageNameUnchanged(s: string)
    requires IsPackageName(s)
    ensures ToPackageName(s) == s
  {
    if |s| > 0 {
      NameCharUnchanged(s[0]);
      NameCharUnchanged(s[|s| - 1]);
    }
    TrimUnpadded(s);
    forall i | 0 <= i < |s| ensures ToPackageName(s)[i] == s[i] {
      NameCharUnchanged(s[i]);
    }
  }

  /** Sanitising twice is sanitising once. */
  lemma ToPackageNameIdempotent(s: string)
    ensures ToPackageName(ToPackageName(s)) == ToPackageName(s)
  {
    PackageNameUnchanged(ToPackageName(s));
  }
}
