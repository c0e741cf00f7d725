/** String operations of Python's `str` that the core relies on. */
module Text {

  /** `needle` occurs in `s` starting at index `i`. */
  predicate OccursAt(s: string, needle: string, i: nat)
  {
    i + |needle| <= |s| && s[i..i + |needle|] == needle
  }

  /** Python's `needle in s` on strings, computed by scanning start positions from the left. */
  predicate Contains(s: string, needle: string)
    decreases |s|
  {
    needle <= s || (|s| > 0 && Contains(s[1..], needle))
  }

  /** An occurrence at any position is found by the scan. */
  lemma {:induction false} OccursContains(s: string, needle: string, i: nat)
    requires OccursAt(s, needle, i)
    ensures Contains(s, needle)
    decreases i
  {
    if i == 0 {
      assert needle == s[..|needle|];
    } else {
      assert s[1..][i - 1..i - 1 + |needle|] == s[i..i + |needle|];
      OccursContains(s[1..], needle, i - 1);
    }
  }

  /** The scan succeeds only at a real occurrence, whose position it yields. */
  lemma {:induction false} ContainsOccurs(s: string, needle: string) returns (i: nat)
    requires Contains(s, needle)
    ensures OccursAt(s, needle, i)
    decreases |s|
  {
    if needle <= s {
      i := 0;
    } else {
      var j := ContainsOccurs(s[1..], needle);
      assert s[j + 1..j + 1 + |needle|] == s[1..][j..j + |needle|];
      i := j + 1;
    }
  }

  /** `needle in s` holds exactly when the needle occurs at some position. */
  lemma ContainsIff(s: string, needle: string)
    ensures Contains(s, needle) <==> exists i: nat :: OccursAt(s, needle, i)
  {
    if Contains(s, needle) {
      var i := ContainsOccurs(s, needle);
    }
    forall i: nat | OccursAt(s, needle, i) ensures Contains(s, needle) {
      OccursContains(s, needle, i);
    }
  }

  /** A needle longer than the text never occurs in it. */
  lemma {:induction false} NotContainsLonger(s: string, needle: string)
    requires |needle| > |s|
    ensures !Contains(s, needle)
    decreases |s|
  {
    if |s| > 0 {
      NotContainsLonger(s[1..], needle);
    }
  }

  /** A needle with a character that does not appear in the text never occurs in it. */
  lemma NotContainsAbsentChar(s: string, needle: string, k: nat)
    requires k < |needle| && needle[k] !in s
    ensures !Contains(s, needle)
  {
    if Contains(s, needle) {
      var i := ContainsOccurs(s, needle);
    }
  }

  /** Lower-cases one character; only the ASCII letters A-Z are mapped. */
  function LowerChar(c: char): (d: char)
    ensures 'A' <= c <= 'Z' ==> 'a' <= d <= 'z' && d as int - c as int == 32
    ensures !('A' <= c <= 'Z') ==> d == c
  {
    if 'A' <= c <= 'Z' then (c as int + 32) as char else c
  }

  /** Python's `s.lower()`, restricted to the ASCII letters. */
  function Lower(s: string): (r: string)
    ensures |r| == |s|
    ensures forall i :: 0 <= i < |s| ==> r[i] == LowerChar(s[i])
  {
    seq(|s|, i requires 0 <= i < |s| => LowerChar(s[i]))
  }

  /** Lower-casing keeps every occurrence: a needle found in `s` is found, lower-cased, in `Lower(s)`. */
  lemma ContainsLower(s: string, needle: string)
    ensures Contains(s, needle) ==> Contains(Lower(s), Lower(needle))
  {
    if Contains(s, needle) {
      var i := ContainsOccurs(s, needle);
      assert Lower(s)[i..i + |needle|] == Lower(needle);
      OccursContains(Lower(s), Lower(needle), i);
    }
  }

  /** Lower-casing twice is lower-casing once, and leaves no upper-case ASCII letter. */
  lemma LowerIdempotent(s: string)
    ensures Lower(Lower(s)) == Lower(s)
    ensures forall i :: 0 <= i < |s| ==> !('A' <= Lower(s)[i] <= 'Z')
  {
  }

  /** Python's `s[:n]` for a non-negative `n`: the first `n` characters, or all of `s` if shorter. */
  function Take(s: string, n: nat): (r: string)
    ensures |r| == if |s| <= n then |s| else n
    ensures r <= s
    ensures |s| <= n ==> r == s
  {
    if |s| <= n then s else s[..n]
  }

  /** The decimal digit for `d`. */
  function Digit(d: nat): (c: char)
    requires d < 10
    ensures '0' <= c <= '9' && c as int - '0' as int == d
  {
    ('0' as int + d) as char
  }

  /** Python's `str(n)` / f-string rendering of a non-negative integer. */
  function DecimalString(n: nat): (s: string)
    ensures |s| > 0
    ensures forall i :: 0 <= i < |s| ==> '0' <= s[i] <= '9'
    decreases n
  {
    if n < 10 then [Digit(n)] else DecimalString(n / 10) + [Digit(n % 10)]
  }

  /** The value of a string of decimal digits. */
  function DecimalValue(s: string): nat
    requires forall i :: 0 <= i < |s| ==> '0' <= s[i] <= '9'
    decreases |s|
  {
    if s == [] then 0
    else DecimalValue(s[..|s| - 1]) * 10 + (s[|s| - 1] as int - '0' as int)
  }

  /** Rendering a number in decimal and reading it back gives the number. */
  lemma {:induction false} DecimalRoundTrip(n: nat)
    ensures DecimalValue(DecimalString(n)) == n
    decreases n
  {
    var s := DecimalString(n);
    if n >= 10 {
      DecimalRoundTrip(n / 10);
      assert s[..|s| - 1] == DecimalString(n / 10);
    }
  }

  /** Distinct numbers render as distinct strings. */
  lemma DecimalInjective(m: nat, n: nat)
    requires DecimalString(m) == DecimalString(n)
    ensures m == n
  {
    DecimalRoundTrip(m);
    DecimalRoundTrip(n);
  }
}
