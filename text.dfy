/** `String.prototype.trim` of ECMAScript: removal of leading and trailing
    white space and line terminators. The stripping is stated for any class
    of characters and then used with the white-space class. */
module Text {
  /** The characters `trim` removes: the ECMAScript WhiteSpace and
      LineTerminator code points. */
  predicate IsWhitespace(c: char)
  {
    || c == ' ' || ('\t' <= c <= '\r')
    || c == '\U{00A0}' || c == '\U{1680}' || ('\U{2000}' <= c <= '\U{200A}')
    || c == '\U{2028}' || c == '\U{2029}' || c == '\U{202F}' || c == '\U{205F}'
    || c == '\U{3000}' || c == '\U{FEFF}'
  }

  /** Every character of `s` belongs to the class `p`. */
  predicate AllIn(s: string, p: char -> bool)
  {
    forall i :: 0 <= i < |s| ==> p(s[i])
  }

  predicate AllWhitespace(s: string)
  {
    AllIn(s, IsWhitespace)
  }

  /** The end of the run of class-`p` characters that starts at index `i`. */
  function RunFrom(s: string, p: char -> bool, i: nat): (n: nat)
    requires i <= |s|
    ensures i <= n <= |s|
    ensures forall j :: i <= j < n ==> p(s[j])
    ensures n == |s| || !p(s[n])
    decreases |s| - i
  {
    if i < |s| && p(s[i]) then RunFrom(s, p, i + 1) else i
  }

  /** The start of the run of class-`p` characters that ends at index `j`,
      going no further left than `lo`. */
  function RunBackTo(s: string, p: char -> bool, lo: nat, j: nat): (n: nat)
    requires lo <= j <= |s|
    ensures lo <= n <= j
    ensures forall i :: n <= i < j ==> p(s[i])
    ensures n == lo || !p(s[n - 1])
    decreases j
  {
    if lo < j && p(s[j - 1]) then RunBackTo(s, p, lo, j - 1) else j
  }

  /** The length of the run of class-`p` characters that starts `s`. */
  function LeadingRun(s: string, p: char -> bool): (n: nat)
    ensures n <= |s|
    ensures forall j :: 0 <= j < n ==> p(s[j])
    ensures n == |s| || !p(s[n])
  {
    RunFrom(s, p, 0)
  }

  /** `s` without its leading and trailing class-`p` runs: the slice of `s`
      right after the leading run, followed in `s` only by class-`p`
      characters, empty exactly when all of `s` is in the class, and otherwise
      neither starting nor ending with a class-`p` character. */
  function Strip(s: string, p: char -> bool): (r: string)
    ensures |r| <= |s|
    ensures r == [] <==> AllIn(s, p)
    ensures r != [] ==> !p(r[0]) && !p(r[|r| - 1])
    ensures var k := LeadingRun(s, p);
      && k + |r| <= |s| && r == s[k..k + |r|]
      && forall i :: k + |r| <= i < |s| ==> p(s[i])
  {
    var k := LeadingRun(s, p);
    var e := RunBackTo(s, p, k, |s|);
    assert e == k ==> k == |s|;
    s[k..e]
  }

  /** Not empty, and neither starting nor ending with a class-`p` character:
      the shape of every non-empty result of `Strip`. */
  predicate Stripped(s: string, p: char -> bool)
  {
    s != [] && !p(s[0]) && !p(s[|s| - 1])
  }

  /** A stripped string is left as it is. */
  lemma StripOfStripped(s: string, p: char -> bool)
    requires Stripped(s, p)
    ensures Strip(s, p) == s
  {
    assert LeadingRun(s, p) == 0;
    assert RunBackTo(s, p, 0, |s|) == |s|;
  }

  /** Stripping is idempotent. */
  lemma StripIdempotent(s: string, p: char -> bool)
    ensures Strip(Strip(s, p), p) == Strip(s, p)
  {
    var r := Strip(s, p);
    if r != [] {
      StripOfStripped(r, p);
    }
  }

  /** The string without its leading and trailing white space, as `trim` returns it. */
  function Trim(s: string): (r: string)
    ensures |r| <= |s|
    ensures r == [] <==> AllWhitespace(s)
    ensures r != [] ==> !IsWhitespace(r[0]) && !IsWhitespace(r[|r| - 1])
    ensures var k := LeadingRun(s, IsWhitespace);
      && k + |r| <= |s| && r == s[k..k + |r|]
      && forall i :: k + |r| <= i < |s| ==> IsWhitespace(s[i])
  {
    Strip(s, IsWhitespace)
  }

  /** Not empty, and neither starting nor ending with white space. */
  predicate Trimmed(s: string)
  {
    Stripped(s, IsWhitespace)
  }

  /** A trimmed string is its own trim. */
  lemma TrimOfTrimmed(s: string)
    requires Trimmed(s)
    ensures Trim(s) == s
  {
    StripOfStripped(s, IsWhitespace);
  }

  /** Trimming is idempotent. */
  lemma TrimIdempotent(s: string)
    ensures Trim(Trim(s)) == Trim(s)
  {
    StripIdempotent(s, IsWhitespace);
  }
}
