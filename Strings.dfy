/**
 * The two string operations of Go's `strings` package the bot relies on:
 * `TrimSpace` (applied to the query after the mention prefix) and `ToLower`
 * (applied before the interrogative test). Strings are sequences of Unicode
 * code points.
 */
module Strings {

  /** Go's `unicode.IsSpace`: '\t' through '\r', ' ', U+0085 and U+00A0,
      and the other code points with the Unicode White_Space property. */
  predicate IsSpace(c: char)
    ensures IsSpace(c) && c < '\U{0080}' ==> c == ' ' || '\t' <= c <= '\r'
  {
    ('\t' <= c <= '\r') || c == ' ' || c == '\U{0085}' || c == '\U{00A0}' || c == '\U{1680}'
    || ('\U{2000}' <= c <= '\U{200A}')
    || c == '\U{2028}' || c == '\U{2029}' || c == '\U{202F}' || c == '\U{205F}' || c == '\U{3000}'
  }

  /** Every character of `s` from `lo` up to (not including) `hi` is a space. */
  predicate AllSpaceIn(s: string, lo: nat, hi: nat)
    requires lo <= hi <= |s|
  {
    forall i :: lo <= i < hi ==> IsSpace(s[i])
  }

  predicate AllSpace(s: string) {
    AllSpaceIn(s, 0, |s|)
  }

  /** Neither the first nor the last character is a space. */
  predicate NoSurroundingSpace(s: string) {
    s == [] || (!IsSpace(s[0]) && !IsSpace(s[|s| - 1]))
  }

  /** Where the run of spaces that starts at `i` ends: the first non-space
      at or after `i`, or `|s|`. */
  function SkipSpaces(s: string, i: nat): (n: nat)
    requires i <= |s|
    ensures i <= n <= |s| && AllSpaceIn(s, i, n)
    ensures n < |s| ==> !IsSpace(s[n])
    decreases |s| - i
  {
    if i < |s| && IsSpace(s[i]) then SkipSpaces(s, i + 1) else i
  }

  /** Where the run of spaces that ends at `hi` starts, looking no further
      back than `lo`: just after the last non-space before `hi`, or `lo`. */
  function SkipSpacesBack(s: string, lo: nat, hi: nat): (n: nat)
    requires lo <= hi <= |s|
    ensures lo <= n <= hi && AllSpaceIn(s, n, hi)
    ensures lo < n ==> !IsSpace(s[n - 1])
    decreases hi - lo
  {
    if lo < hi && IsSpace(s[hi - 1]) then SkipSpacesBack(s, lo, hi - 1) else hi
  }

  /** How many spaces `TrimSpace` cuts from the front of `s`. */
  function LeadingSpaces(s: string): (n: nat)
    ensures n <= |s| && AllSpaceIn(s, 0, n)
  {
    SkipSpaces(s, 0)
  }

  /** `strings.TrimSpace`: what remains of `s` once the leading and the
      trailing spaces are cut. It is an infix of `s` with no surrounding
      space, and only spaces lie before and after it. */
  function TrimSpace(s: string): (r: string)
    ensures NoSurroundingSpace(r)
    ensures LeadingSpaces(s) + |r| <= |s| && r == s[LeadingSpaces(s)..LeadingSpaces(s) + |r|]
    ensures AllSpaceIn(s, 0, LeadingSpaces(s)) && AllSpaceIn(s, LeadingSpaces(s) + |r|, |s|)
  {
    var lo := LeadingSpaces(s);
    var hi := SkipSpacesBack(s, lo, |s|);
    s[lo..hi]
  }

  /** The only trimming there is: a text with no surrounding space, padded
      on both sides with spaces, trims back to that text. */
  lemma TrimSpaceOfPadded(a: string, t: string, b: string)
    requires AllSpace(a) && AllSpace(b) && NoSurroundingSpace(t)
    ensures TrimSpace(a + t + b) == t
  {
    var s := a + t + b;
    var n := |a| + |t|;
    assert AllSpaceIn(s, 0, |a|) by {
      assert forall i :: 0 <= i < |a| ==> s[i] == a[i];
    }
    assert AllSpaceIn(s, n, |s|) by {
      assert forall i :: n <= i < |s| ==> s[i] == b[i - n];
    }
    if t == [] {
      SkipSpacesOver(s, 0, |s|);
      SkipSpacesBackOver(s, |s|, |s|);
    } else {
      assert s[|a|] == t[0] && s[n - 1] == t[|t| - 1];
      SkipSpacesOver(s, 0, |a|);
      SkipSpacesBackOver(s, |a|, n);
      assert s[|a|..n] == t;
    }
  }

  /** Skipping from `i` over a run of spaces that ends at `n` (at a
      non-space or the end) lands on `n`. */
  lemma {:induction false} SkipSpacesOver(s: string, i: nat, n: nat)
    requires i <= n <= |s| && AllSpaceIn(s, i, n) && (n < |s| ==> !IsSpace(s[n]))
    ensures SkipSpaces(s, i) == n
    decreases n - i
  {
    if i < n {
      SkipSpacesOver(s, i + 1, n);
    }
  }

  /** Skipping back from `|s|` over a run of spaces that starts at `n`,
      just after a non-space at or after `lo`, lands on `n`. */
  lemma {:induction false} SkipSpacesBackOver(s: string, lo: nat, n: nat)
    requires lo <= n <= |s| && AllSpaceIn(s, n, |s|) && (lo < n ==> !IsSpace(s[n - 1]))
    ensures SkipSpacesBack(s, lo, |s|) == n
  {
    SkipSpacesBackFrom(s, lo, n, |s|);
  }

  lemma {:induction false} SkipSpacesBackFrom(s: string, lo: nat, n: nat, hi: nat)
    requires lo <= n <= hi <= |s| && AllSpaceIn(s, n, hi) && (lo < n ==> !IsSpace(s[n - 1]))
    ensures SkipSpacesBack(s, lo, hi) == n
    decreases hi - n
  {
    if n < hi {
      SkipSpacesBackFrom(s, lo, n, hi - 1);
    }
  }

  /** Trimming twice is trimming once. */
  lemma TrimSpaceIdempotent(s: string)
    ensures TrimSpace(TrimSpace(s)) == TrimSpace(s)
  {
    var r := TrimSpace(s);
    assert r == [] + r + [];
    TrimSpaceOfPadded([], r, []);
  }

  /** Go's `unicode.ToLower` restricted to the code points whose lower case
      is ASCII: 'A'..'Z', U+0130 (capital I with dot above, lowered to 'i')
      and U+212A (Kelvin sign, lowered to 'k'). Every other code point is
      left as it is. */
  function LowerChar(c: char): (l: char)
    ensures !('A' <= l <= 'Z')
  {
    if 'A' <= c <= 'Z' then (c as int + 32) as char
    else if c == '\U{0130}' then 'i'
    else if c == '\U{212A}' then 'k'
    else c
  }

  /** Lowering a code point gives an ASCII lower-case letter `x` exactly when
      the code point is `x` itself, its upper-case form, or one of the two
      non-ASCII capitals that Go lowers into ASCII. */
  lemma LowerCharToAsciiLetter(c: char, x: char)
    requires 'a' <= x <= 'z'
    ensures LowerChar(c) == x <==>
      c == x || c as int == x as int - 32 || (x == 'i' && c == '\U{0130}') || (x == 'k' && c == '\U{212A}')
  {
  }

  /** `strings.ToLower`, character by character. */
  function ToLower(s: string): (r: string)
    ensures |r| == |s|
    ensures forall i :: 0 <= i < |s| ==> r[i] == LowerChar(s[i])
  {
    if s == [] then [] else [LowerChar(s[0])] + ToLower(s[1..])
  }

  /** Lower-casing twice is lower-casing once. */
  lemma ToLowerIdempotent(s: string)
    ensures ToLower(ToLower(s)) == ToLower(s)
  {
    var l := ToLower(s);
    assert forall i :: 0 <= i < |l| ==> LowerChar(l[i]) == l[i];
  }
}
