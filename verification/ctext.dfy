/**
 * The few C library string routines the core leans on (strlen, strchr,
 * strrchr, strstr, strtol), stated over Dafny strings.
 */
module CText {
  import opened Wrappers

  /** The part of a byte buffer that a C string routine sees: everything before the first NUL. */
  function CStr(s: string): (r: string)
    ensures r <= s
    ensures '\0' !in r
    ensures |r| < |s| ==> s[|r|] == '\0'
  {
    if |s| == 0 || s[0] == '\0' then [] else [s[0]] + CStr(s[1..])
  }

  lemma {:induction false} CStrOfNulFree(s: string)
    requires '\0' !in s
    ensures CStr(s) == s
  {
    if |s| > 0 {
      assert s == [s[0]] + s[1..];
      CStrOfNulFree(s[1..]);
    }
  }

  /** strchr: the index of the first occurrence of `c`, if any. */
  function FirstIndexOf(s: string, c: char): (r: Option<nat>)
    ensures r.Some? ==> r.value < |s| && s[r.value] == c && c !in s[..r.value]
    ensures r.None? ==> c !in s
  {
    FirstIndexFrom(s, c, 0)
  }

  function FirstIndexFrom(s: string, c: char, i: nat): (r: Option<nat>)
    requires i <= |s|
    requires c !in s[..i]
    ensures r.Some? ==> i <= r.value < |s| && s[r.value] == c && c !in s[..r.value]
    ensures r.None? ==> c !in s
    decreases |s| - i
  {
    if i == |s| then
      assert s[..i] == s;
      None
    else if s[i] == c then Some(i)
    else
      assert s[..i + 1] == s[..i] + [s[i]];
      FirstIndexFrom(s, c, i + 1)
  }

  /** strrchr: the index of the last occurrence of `c`, if any. */
  function LastIndexOf(s: string, c: char): (r: Option<nat>)
    ensures r.Some? ==> r.value < |s| && s[r.value] == c && c !in s[r.value + 1..]
    ensures r.None? ==> c !in s
    decreases |s|
  {
    if |s| == 0 then None
    else if s[|s| - 1] == c then Some(|s| - 1)
    else
      assert s == s[..|s| - 1] + [s[|s| - 1]];
      match LastIndexOf(s[..|s| - 1], c)
      case None => None
      case Some(k) =>
        assert s[k + 1..] == s[..|s| - 1][k + 1..] + [s[|s| - 1]];
        Some(k)
  }

  /** `needle` occurs in `haystack` starting at index `i`. */
  predicate OccursAt(haystack: string, needle: string, i: nat)
  {
    i + |needle| <= |haystack| && haystack[i..i + |needle|] == needle
  }

  /** strstr: the index of the first occurrence of `needle`, 0 for an empty needle. */
  function Find(haystack: string, needle: string): (r: Option<nat>)
    ensures r.Some? ==> OccursAt(haystack, needle, r.value)
    ensures r.Some? ==> forall j :: 0 <= j < r.value ==> !OccursAt(haystack, needle, j)
    ensures r.None? ==> forall j :: 0 <= j ==> !OccursAt(haystack, needle, j)
  {
    FindFrom(haystack, needle, 0)
  }

  function FindFrom(haystack: string, needle: string, i: nat): (r: Option<nat>)
    requires forall j :: 0 <= j < i ==> !OccursAt(haystack, needle, j)
    ensures r.Some? ==> i <= r.value && OccursAt(haystack, needle, r.value)
    ensures r.Some? ==> forall j :: 0 <= j < r.value ==> !OccursAt(haystack, needle, j)
    ensures r.None? ==> forall j :: 0 <= j ==> !OccursAt(haystack, needle, j)
    decreases |haystack| - i
  {
    if i + |needle| > |haystack| then None
    else if OccursAt(haystack, needle, i) then Some(i)
    else FindFrom(haystack, needle, i + 1)
  }

  // ---------------------------------------------------------------------
  // strtol / g_ascii_strtoll, base 10

  const LongMin: int := -0x8000_0000_0000_0000
  const LongMax: int := 0x7fff_ffff_ffff_ffff

  /** The ASCII white space that strtol skips before a number. */
  predicate IsSpace(c: char)
  {
    c == ' ' || c == '\t' || c == '\n' || c == '\U{0B}' || c == '\U{0C}' || c == '\r'
  }

  predicate IsDigit(c: char)
  {
    '0' <= c <= '9'
  }

  /** The index of the first byte at or after `i` that is not white space. */
  function SkipSpace(s: string, i: nat): (r: nat)
    requires i <= |s|
    ensures i <= r <= |s|
    ensures forall k :: i <= k < r ==> IsSpace(s[k])
    ensures r < |s| ==> !IsSpace(s[r])
    decreases |s| - i
  {
    if i < |s| && IsSpace(s[i]) then SkipSpace(s, i + 1) else i
  }

  /** The index of the first byte at or after `i` that is not a decimal digit. */
  function SkipDigits(s: string, i: nat): (r: nat)
    requires i <= |s|
    ensures i <= r <= |s|
    ensures forall k :: i <= k < r ==> IsDigit(s[k])
    ensures r < |s| ==> !IsDigit(s[r])
    decreases |s| - i
  {
    if i < |s| && IsDigit(s[i]) then SkipDigits(s, i + 1) else i
  }

  /** The value of a string of decimal digits, most significant first. */
  function DigitsValue(d: string): nat
    requires forall k :: 0 <= k < |d| ==> IsDigit(d[k])
  {
    if |d| == 0 then 0
    else
      assert IsDigit(d[|d| - 1]);
      DigitsValue(d[..|d| - 1]) * 10 + (d[|d| - 1] as int - '0' as int)
  }

  function Clamp(v: int): int
  {
    if v < LongMin then LongMin else if v > LongMax then LongMax else v
  }

  /** The outcome of strtol: the value and the index `end` points at. */
  datatype Parsed = Parsed(value: int, end: nat)

  /**
   * strtol(s, &end, 10): optional white space, an optional sign and the
   * longest run of digits; with no digit the value is 0 and `end` is 0;
   * out-of-range values saturate.
   */
  function ParseLong(s: string): (p: Parsed)
    ensures p.end <= |s|
    ensures LongMin <= p.value <= LongMax
    ensures p.end == 0 ==> p.value == 0
    ensures p.end > 0 ==> IsDigit(s[p.end - 1]) && (p.end < |s| ==> !IsDigit(s[p.end]))
  {
    var a := SkipSpace(s, 0);
    var neg := a < |s| && s[a] == '-';
    var b := if a < |s| && (s[a] == '-' || s[a] == '+') then a + 1 else a;
    var e := SkipDigits(s, b);
    if e == b then Parsed(0, 0)
    else
      var m: int := DigitsValue(s[b..e]);
      var v := if neg then -m else m;
      Parsed(Clamp(v), e)
  }

  // ---------------------------------------------------------------------
  // printf("%li")

  /** The decimal digits of `n`, without leading zeros ("0" for zero). */
  function Digits(n: nat): (d: string)
    ensures |d| > 0
    ensures forall k :: 0 <= k < |d| ==> IsDigit(d[k])
    ensures DigitsValue(d) == n
  {
    if n < 10 then [('0' as int + n) as char]
    else
      var d := Digits(n / 10) + [('0' as int + n % 10) as char];
      assert d[..|d| - 1] == Digits(n / 10);
      d
  }

  /** printf("%li", v). */
  function FormatLong(v: int): (t: string)
    ensures |t| > 0
    ensures v >= 0 ==> forall k :: 0 <= k < |t| ==> IsDigit(t[k])
    ensures v < 0 ==> t[0] == '-' && |t| > 1 && forall k :: 1 <= k < |t| ==> IsDigit(t[k])
  {
    if v < 0 then "-" + Digits(-v) else Digits(v)
  }

  /**
   * strtol reads back what printf("%li") wrote, and stops right after it
   * when a byte that is not a digit follows.
   */
  lemma FormatLongThenText(v: int, rest: string)
    requires LongMin <= v <= LongMax
    requires rest == [] || !IsDigit(rest[0])
    ensures ParseLong(FormatLong(v) + rest) == Parsed(v, |FormatLong(v)|)
  {
    var f := FormatLong(v);
    var s := f + rest;
    var b := if v < 0 then 1 else 0;
    var d := if v < 0 then Digits(-v) else Digits(v);
    assert f == s[..|f|];
    assert !IsSpace(s[0]);
    assert SkipSpace(s, 0) == 0;
    assert s[b..|f|] == d;
    SkipDigitsRun(s, b, |f|);
  }

  /** strtol reads back what printf("%li") wrote. */
  lemma FormatLongRoundTrip(v: int)
    requires LongMin <= v <= LongMax
    ensures ParseLong(FormatLong(v)) == Parsed(v, |FormatLong(v)|)
  {
    FormatLongThenText(v, []);
    assert FormatLong(v) + [] == FormatLong(v);
  }

  lemma {:induction false} SkipDigitsRun(s: string, b: nat, e: nat)
    requires b <= e <= |s|
    requires forall k :: b <= k < e ==> IsDigit(s[k])
    requires e == |s| || !IsDigit(s[e])
    ensures SkipDigits(s, b) == e
    decreases e - b
  {
    if b < e {
      SkipDigitsRun(s, b + 1, e);
    }
  }
}
