/**
 * The string operations the classifier relies on: Python's `str.lower()`
 * restricted to ASCII, the substring test `needle in haystack`, and
 * `str.endswith`.
 */
module Text {

  predicate IsUpper(c: char) {
    'A' <= c <= 'Z'
  }

  /** ASCII lower-casing of one character; every other character is kept. */
  function LowerChar(c: char): (r: char)
    ensures !IsUpper(r)
    ensures IsUpper(c) ==> r as int == c as int + 32
    ensures !IsUpper(c) ==> r == c
  {
    if IsUpper(c) then (c as int + 32) as char else c
  }

  /** `s.lower()` on ASCII text. */
  function ToLower(s: string): (r: string) {
    seq(|s|, i requires 0 <= i < |s| => LowerChar(s[i]))
  }

  /** Text without upper-case letters is its own lower-case form. */
  lemma ToLowerOfLower(s: string)
    requires forall c | c in s :: !IsUpper(c)
    ensures ToLower(s) == s
  {
    assert forall i | 0 <= i < |s| :: s[i] in s;
  }

  predicate IsPrefix(prefix: string, s: string) {
    |prefix| <= |s| && s[..|prefix|] == prefix
  }

  /** Python's `needle in haystack` for strings: some window of the haystack equals the needle. */
  predicate Contains(haystack: string, needle: string)
    decreases |haystack|
  {
    IsPrefix(needle, haystack) || (|haystack| > 0 && Contains(haystack[1..], needle))
  }

  /** The needle occurs in the haystack starting at position `k`. */
  predicate OccursAt(haystack: string, needle: string, k: int) {
    0 <= k && k + |needle| <= |haystack| && haystack[k..k + |needle|] == needle
  }

  /** The recursive substring test finds exactly the windows of the haystack that equal the needle. */
  lemma {:induction false} ContainsIff(haystack: string, needle: string)
    ensures Contains(haystack, needle) <==> exists k :: OccursAt(haystack, needle, k)
    decreases |haystack|
  {
    if Contains(haystack, needle) {
      if IsPrefix(needle, haystack) {
        assert OccursAt(haystack, needle, 0);
      } else {
        ContainsIff(haystack[1..], needle);
        var k :| OccursAt(haystack[1..], needle, k);
        assert haystack[k + 1..k + 1 + |needle|] == haystack[1..][k..k + |needle|];
        assert OccursAt(haystack, needle, k + 1);
      }
    }
    if exists k :: OccursAt(haystack, needle, k) {
      var k :| OccursAt(haystack, needle, k);
      if k > 0 {
        assert haystack[1..][k - 1..k - 1 + |needle|] == haystack[k..k + |needle|];
        assert OccursAt(haystack[1..], needle, k - 1);
        ContainsIff(haystack[1..], needle);
      }
    }
  }

  /** A needle that holds a character the haystack lacks is not a substring of it. */
  lemma {:induction false} NotContainsMissingChar(haystack: string, needle: string, c: char)
    requires c in needle && c !in haystack
    ensures !Contains(haystack, needle)
    decreases |haystack|
  {
    var j :| 0 <= j < |needle| && needle[j] == c;
    assert j >= |haystack| || haystack[j] != needle[j];
    if |haystack| > 0 {
      assert forall d | d in haystack[1..] :: d in haystack;
      NotContainsMissingChar(haystack[1..], needle, c);
    }
  }

  /** A window of the haystack that equals the needle witnesses `needle in haystack`. */
  lemma ContainsAt(haystack: string, needle: string, k: nat)
    requires OccursAt(haystack, needle, k)
    ensures Contains(haystack, needle)
  {
    ContainsIff(haystack, needle);
  }

  /** `s.endswith(suffix)`. */
  predicate EndsWith(s: string, suffix: string) {
    |suffix| <= |s| && s[|s| - |suffix|..] == suffix
  }
}
