/**
 * util.c: ASCII case-insensitive substring search (util_stripos) and
 * membership of a string in a list (util_str_in).
 */
module Util {
  import opened Wrappers
  import opened CText

  predicate IsAsciiLower(c: char)
  {
    'a' <= c <= 'z'
  }

  predicate IsAsciiUpper(c: char)
  {
    'A' <= c <= 'Z'
  }

  /** g_ascii_toupper: only the 26 ASCII lower-case letters change. */
  function AsciiUpper(c: char): char
  {
    if IsAsciiLower(c) then (c as int - 32) as char else c
  }

  /** g_ascii_strup on a copy. */
  function Upper(s: string): (r: string)
    ensures |r| == |s|
    ensures forall i :: 0 <= i < |s| ==> r[i] == AsciiUpper(s[i])
    ensures forall i :: 0 <= i < |r| ==> !IsAsciiLower(r[i])
    ensures forall i :: 0 <= i < |s| && !IsAsciiLower(s[i]) ==> r[i] == s[i]
  {
    seq(|s|, i requires 0 <= i < |s| => AsciiUpper(s[i]))
  }

  /** Upper-casing an upper-cased string changes nothing. */
  lemma UpperIdempotent(s: string)
    ensures Upper(Upper(s)) == Upper(s)
  {
  }

  /** Two strings of the same length that agree once ASCII letters are folded. */
  predicate SameIgnoringCase(a: string, b: string)
  {
    |a| == |b| && forall i :: 0 <= i < |a| ==> AsciiUpper(a[i]) == AsciiUpper(b[i])
  }

  /** `needle` occurs in `haystack` at index `i`, ignoring ASCII case. */
  predicate MatchesAt(haystack: string, needle: string, i: nat)
  {
    i + |needle| <= |haystack| && SameIgnoringCase(haystack[i..i + |needle|], needle)
  }

  predicate StartsWithIgnoringCase(s: string, prefix: string)
  {
    MatchesAt(s, prefix, 0)
  }

  predicate ContainsIgnoringCase(haystack: string, needle: string)
  {
    exists i: nat | i <= |haystack| :: MatchesAt(haystack, needle, i)
  }

  lemma UpperOccursIffMatches(haystack: string, needle: string)
    ensures forall i: nat :: OccursAt(Upper(haystack), Upper(needle), i) <==> MatchesAt(haystack, needle, i)
  {
    forall i: nat
      ensures OccursAt(Upper(haystack), Upper(needle), i) <==> MatchesAt(haystack, needle, i)
    {
      if i + |needle| <= |haystack| {
        var u := Upper(haystack)[i..i + |needle|];
        if MatchesAt(haystack, needle, i) {
          assert forall k :: 0 <= k < |needle| ==> u[k] == Upper(needle)[k];
        }
        if OccursAt(Upper(haystack), Upper(needle), i) {
          forall k | 0 <= k < |needle|
            ensures AsciiUpper(haystack[i..i + |needle|][k]) == AsciiUpper(needle[k])
          {
            assert u[k] == Upper(needle)[k];
          }
        }
      }
    }
  }

  /**
   * util_stripos: the first index at which `needle` occurs in `haystack`
   * ignoring ASCII case, found by upper-casing copies of both and
   * searching with strstr; the index is into the original haystack.
   */
  function StrIPos(haystack: string, needle: string): (r: Option<nat>)
    ensures r.Some? ==> MatchesAt(haystack, needle, r.value)
    ensures r.Some? ==> forall j :: 0 <= j < r.value ==> !MatchesAt(haystack, needle, j)
    ensures r.None? <==> !ContainsIgnoringCase(haystack, needle)
  {
    UpperOccursIffMatches(haystack, needle);
    Find(Upper(haystack), Upper(needle))
  }

  /** As with strstr, an empty needle is found at the start. */
  lemma StrIPosEmptyNeedle(haystack: string)
    ensures StrIPos(haystack, "") == Some(0)
  {
    assert MatchesAt(haystack, "", 0);
  }

  /** The first match is the one stripos reports. */
  lemma StrIPosFirst(haystack: string, needle: string, i: nat)
    requires MatchesAt(haystack, needle, i)
    requires forall j :: 0 <= j < i ==> !MatchesAt(haystack, needle, j)
    ensures StrIPos(haystack, needle) == Some(i)
  {
    assert ContainsIgnoringCase(haystack, needle);
  }

  /** A match at index 0 is exactly a case-insensitive prefix. */
  lemma StrIPosAtStart(s: string, prefix: string)
    ensures StrIPos(s, prefix) == Some(0) <==> StartsWithIgnoringCase(s, prefix)
  {
    if StartsWithIgnoringCase(s, prefix) {
      assert ContainsIgnoringCase(s, prefix);
    }
  }

  /**
   * Folding identifies only an ASCII letter with its other case; every
   * other character must match exactly.
   */
  lemma FoldingOnlyPairsLetters(c: char, d: char)
    ensures AsciiUpper(c) == AsciiUpper(d) <==>
      c == d
      || (IsAsciiLower(c) && IsAsciiUpper(d) && c as int == d as int + 32)
      || (IsAsciiUpper(c) && IsAsciiLower(d) && d as int == c as int + 32)
  {
  }

  /** The comparison util_str_in makes with one entry. */
  predicate StrEq(a: string, b: string, casei: bool): (eq: bool)
    ensures a == b ==> eq
    ensures eq ==> |a| == |b|
    ensures !casei ==> (eq <==> a == b)
  {
    if casei then SameIgnoringCase(a, b) else a == b
  }

  /**
   * util_str_in: whether `s` equals some entry of the (NULL-terminated)
   * argument list, comparing with g_ascii_strcasecmp when `casei` and with
   * strcmp otherwise.
   */
  method StrIn(s: string, casei: bool, list: seq<string>) returns (found: bool)
    ensures found <==> exists k :: 0 <= k < |list| && StrEq(s, list[k], casei)
  {
    var k := 0;
    while k < |list|
      invariant 0 <= k <= |list|
      invariant forall j :: 0 <= j < k ==> !StrEq(s, list[j], casei)
    {
      if casei {
        if SameIgnoringCase(s, list[k]) {
          return true;
        }
      } else {
        if s == list[k] {
          return true;
        }
      }
      k := k + 1;
    }
    return false;
  }
}
