/**
 The three string primitives the catalog and the contact form rely on:
 `String.prototype.toLowerCase`, the whitespace class shared by the regular
 expression escape `\s` and `String.prototype.trim`, and the ordering used
 for the by-title sort.
 */
module Text {

  /** `toLowerCase` on one character, restricted to the ASCII letters. */
  function LowerChar(c: char): char {
    if 'A' <= c <= 'Z' then (c as int + 32) as char else c
  }

  predicate IsUpper(c: char) {
    'A' <= c <= 'Z'
  }

  const UpperAlphabet: string := "ABCDEFGHIJKLMNOPQRSTUVWXYZ"
  const LowerAlphabet: string := "abcdefghijklmnopqrstuvwxyz"

  /** Each capital letter becomes the small letter at the same place in the alphabet. */
  lemma LowerCharFollowsAlphabet(n: nat)
    requires n < |UpperAlphabet|
    ensures IsUpper(UpperAlphabet[n]) && LowerChar(UpperAlphabet[n]) == LowerAlphabet[n]
  {
  }

  /** `toLowerCase` on a string: one character in, one character out. */
  function Lower(s: string): (r: string)
    ensures |r| == |s|
    ensures forall i | 0 <= i < |r| :: !IsUpper(r[i])
    ensures forall i | 0 <= i < |s| :: !IsUpper(s[i]) ==> r[i] == s[i]
  {
    seq(|s|, i requires 0 <= i < |s| => LowerChar(s[i]))
  }

  /** Lower-casing turns every capital letter into the small letter at the same place in the alphabet. */
  lemma LowerFollowsAlphabet(s: string)
    ensures forall i, n | 0 <= i < |s| && 0 <= n < |UpperAlphabet| && s[i] == UpperAlphabet[n] ::
              Lower(s)[i] == LowerAlphabet[n]
  {
    forall n | 0 <= n < |UpperAlphabet| {
      LowerCharFollowsAlphabet(n);
    }
  }

  /** Lower-casing twice changes nothing more. */
  lemma LowerIdempotent(s: string)
    ensures Lower(Lower(s)) == Lower(s)
  {
  }

  /**
   The ECMAScript WhiteSpace and LineTerminator code points, the class
   matched by `\s` and removed by `trim()` (section 22.1.3.32 and 12.2/12.3 of
   ECMA-262).
   */
  predicate IsWhitespace(c: char) {
    || c == '\t' || c == '\n' || c == '\U{000B}' || c == '\U{000C}' || c == '\r'
    || c == ' ' || c == '\U{00A0}' || c == '\U{1680}'
    || ('\U{2000}' <= c <= '\U{200A}')
    || c == '\U{2028}' || c == '\U{2029}' || c == '\U{202F}' || c == '\U{205F}'
    || c == '\U{3000}' || c == '\U{FEFF}'
  }

  ghost predicate AllWhitespace(s: string) {
    forall i | 0 <= i < |s| :: IsWhitespace(s[i])
  }

  /** Where the leading whitespace of `s` ends. */
  function LeadingEnd(s: string): (n: nat)
    ensures n <= |s|
    ensures forall k | 0 <= k < n :: IsWhitespace(s[k])
    ensures n < |s| ==> !IsWhitespace(s[n])
  {
    if s == [] || !IsWhitespace(s[0]) then 0 else 1 + LeadingEnd(s[1..])
  }

  /** Where the trailing whitespace of `s[..hi]` begins, looking no further left than `lo`. */
  function TrailingStart(s: string, lo: nat, hi: nat): (n: nat)
    requires lo <= hi <= |s|
    ensures lo <= n <= hi
    ensures forall k | n <= k < hi :: IsWhitespace(s[k])
    ensures n > lo ==> !IsWhitespace(s[n - 1])
    decreases hi
  {
    if hi > lo && IsWhitespace(s[hi - 1]) then TrailingStart(s, lo, hi - 1) else hi
  }

  /** `r` is `s` with whitespace cut before index `i` and after `r` ends. */
  ghost predicate CutFrom(s: string, i: int, r: string) {
    && 0 <= i <= |s| - |r|
    && r == s[i..i + |r|]
    && (forall k | 0 <= k < i :: IsWhitespace(s[k]))
    && (forall k | i + |r| <= k < |s| :: IsWhitespace(s[k]))
  }

  /**
   `trim()`: the result is a contiguous slice of the input, everything cut
   on either side is whitespace, and the result neither starts nor ends
   with whitespace. It is empty exactly when the input is all whitespace.
   */
  function Trim(s: string): (r: string)
    ensures exists i :: CutFrom(s, i, r)
    ensures r != [] ==> !IsWhitespace(r[0]) && !IsWhitespace(r[|r| - 1])
    ensures r == [] <==> AllWhitespace(s)
  {
    var lo := LeadingEnd(s);
    var hi := TrailingStart(s, lo, |s|);
    TrimBounds(s, lo, hi);
    s[lo..hi]
  }

  /** The slice between the two whitespace scans meets `Trim`'s contract. */
  lemma TrimBounds(s: string, lo: nat, hi: nat)
    requires lo <= hi <= |s|
    requires forall k | 0 <= k < lo :: IsWhitespace(s[k])
    requires lo < |s| ==> !IsWhitespace(s[lo])
    requires forall k | hi <= k < |s| :: IsWhitespace(s[k])
    requires hi > lo ==> !IsWhitespace(s[hi - 1])
    ensures CutFrom(s, lo, s[lo..hi])
    ensures hi > lo ==> !IsWhitespace(s[lo..hi][0]) && !IsWhitespace(s[lo..hi][hi - lo - 1])
    ensures hi == lo <==> AllWhitespace(s)
  {
    var r := s[lo..hi];
    assert r == s[lo..lo + |r|];
    if hi == lo {
      forall k | 0 <= k < |s|
        ensures IsWhitespace(s[k])
      {
        if k >= lo {
          assert hi <= k;
        }
      }
    } else {
      assert !IsWhitespace(s[lo]);
    }
  }

  /** Trimming twice is trimming once. */
  lemma TrimIdempotent(s: string)
    ensures Trim(Trim(s)) == Trim(s)
  {
    var r := Trim(s);
    if r != [] {
      assert LeadingEnd(r) == 0;
      assert TrailingStart(r, 0, |r|) == |r|;
    }
  }

  /**
   Code-point lexicographic order on strings: a proper prefix comes first,
   otherwise the first differing character decides. This stands in for
   `String.prototype.localeCompare`.
   */
  predicate LexLe(a: string, b: string)
    decreases |a|
  {
    a == [] || (b != [] && (a[0] < b[0] || (a[0] == b[0] && LexLe(a[1..], b[1..]))))
  }

  lemma {:induction false} LexLeTotal(a: string, b: string)
    ensures LexLe(a, b) || LexLe(b, a)
    decreases |a|
  {
    if a != [] && b != [] && a[0] == b[0] {
      LexLeTotal(a[1..], b[1..]);
    }
  }

  lemma {:induction false} LexLeTransitive(a: string, b: string, c: string)
    requires LexLe(a, b) && LexLe(b, c)
    ensures LexLe(a, c)
    decreases |a|
  {
    if a != [] && a[0] == b[0] && b[0] == c[0] {
      LexLeTransitive(a[1..], b[1..], c[1..]);
    }
  }

  lemma {:induction false} LexLeAntisymmetric(a: string, b: string)
    requires LexLe(a, b) && LexLe(b, a)
    ensures a == b
    decreases |a|
  {
    if a != [] {
      LexLeAntisymmetric(a[1..], b[1..]);
      assert a == [a[0]] + a[1..];
      assert b == [b[0]] + b[1..];
    }
  }
}
