/**
 * Worked cases of the image-link extractor on concrete URIs, tags and a
 * small document.
 */
module FetchImgExamples {
  import opened Wrappers
  import opened CText
  import opened Util
  import opened FetchImg

  /** A tag in which `=` is absent from the bytes that could end an earlier `src=`. */
  lemma NoSrcWithoutEquals(buf: string, i: nat)
    requires i + 3 <= |buf|
    requires forall j :: 3 <= j < i + 3 ==> buf[j] != '='
    ensures NoSrcBefore(buf, i)
  {
    forall j | 0 <= j < i ensures !MatchesAt(buf, "src=", j) {
      assert AsciiUpper(buf[j + 3]) != AsciiUpper('=');
    }
  }

  lemma GetBaseExamples()
    ensures GetBase("http://example.com/a/b.html") == "http://example.com"
    ensures GetBase("http://example.com") == "http://example.com"
  {
    var u := "http://example.com/a/b.html";
    assert u[18] == '/';
    assert '/' !in u[8..18];
    GetBaseAt(u, 18);
    var w := "http://example.com";
    assert '/' !in w[8..];
    GetBaseAt(w, 18);
  }

  /**
   * The last `/` of a URI without a path is the second slash of the
   * scheme, so the directory of such a page is cut inside `http://`.
   */
  lemma GetRelativeExamples()
    ensures GetRelative("http://example.com/a/b.html") == "http://example.com/a"
    ensures GetRelative("http://example.com") == "http:/"
  {
    var u := "http://example.com/a/b.html";
    assert u[20] == '/';
    assert '/' !in u[21..];
    GetRelativeAt(u, 20);
    var w := "http://example.com";
    assert w[6] == '/';
    assert '/' !in w[7..];
    GetRelativeAt(w, 6);
  }

  /** A relative `src=` in a page without a path loses the page's host. */
  lemma HostOnlyPageLosesHost()
    ensures BuildUrl(GetBase("http://example.com"), GetRelative("http://example.com"), "a.png")
      == "http://a.png"
  {
    GetRelativeExamples();
    assert !HasWebScheme("a.png") by {
      assert !StartsWithIgnoringCase("a.png", "http://");
      assert !StartsWithIgnoringCase("a.png", "https://");
    }
  }

  /** In a NUL-free tag that begins `<img src=`, the value starts after that prefix. */
  lemma SrcAfterImg(buf: string)
    requires '\0' !in buf && |buf| >= 9 && buf[..9] == "<img src="
    ensures SrcValueStart(buf) ==
      if 9 < |buf| && buf[9] == '\'' then Some(ValueStart(10, '\''))
      else if 9 < |buf| && buf[9] == '"' then Some(ValueStart(10, '"'))
      else Some(ValueStart(9, ' '))
  {
    assert buf[5..9] == "src=";
    assert MatchesAt(buf, "src=", 5);
    NoSrcWithoutEquals(buf, 5);
    SrcValueStartAt(buf, 5);
  }

  /** A tag cut off right after `src=` has the empty value. */
  lemma GetImgEndsAtSrc()
    ensures GetImg("<img src=") == Some("")
  {
    var buf := "<img src=";
    assert buf[..9] == "<img src=";
    SrcAfterImg(buf);
    GetImgAtEnd(buf, ValueStart(9, ' '));
  }

  predicate IsQuote(c: char)
  {
    c == '\'' || c == '"'
  }

  /** A quoted value is the text between the quotes. */
  lemma GetImgQuotedTag(q: char, value: string, rest: string)
    requires IsQuote(q) && q !in value
    requires '\0' !in value + rest
    ensures GetImg("<img src=" + [q] + value + [q] + rest) == Some(value)
  {
    var buf := "<img src=" + [q] + value + [q] + rest;
    assert buf[..9] == "<img src=" && buf[9] == q;
    assert buf[10..10 + |value|] == value;
    assert buf[10 + |value|] == q;
    assert '\0' !in buf;
    SrcAfterImg(buf);
    GetImgTerminated(buf, ValueStart(10, q), |value|);
  }

  /** An unquoted value ends at the first space. */
  lemma GetImgUnquotedTag(value: string, rest: string)
    requires |value| > 0 && !IsQuote(value[0]) && ' ' !in value
    requires '\0' !in value + rest
    ensures GetImg("<img src=" + value + " " + rest) == Some(value)
  {
    var buf := "<img src=" + value + " " + rest;
    assert buf[..9] == "<img src=";
    assert buf[9..9 + |value|] == value;
    assert buf[9] == value[0];
    assert buf[9 + |value|] == ' ';
    assert '\0' !in buf;
    SrcAfterImg(buf);
    GetImgTerminated(buf, ValueStart(9, ' '), |value|);
  }

  /** Without its closing quote, a value loses the buffer's last byte. */
  lemma GetImgUnclosedTag(q: char, value: string)
    requires IsQuote(q) && q !in value && |value| > 0
    requires '\0' !in value && |value| < 0x1_0000_0000 - 10
    ensures GetImg("<img src=" + [q] + value) == Some(value[..|value| - 1])
  {
    var buf := "<img src=" + [q] + value;
    assert buf[..9] == "<img src=" && buf[9] == q;
    assert buf[10..] == value;
    assert buf[10..|buf| - 1] == value[..|value| - 1];
    assert '\0' !in buf;
    SrcAfterImg(buf);
    GetImgUnterminated(buf, ValueStart(10, q));
  }

  /**
   * Text without `<` before an `<IMG` (any case) is skipped, and the tag
   * runs through its first `>`; the scan then carries on after it.
   */
  lemma TagsFirstTag(pre: string, img: string, body: string, post: string)
    requires '<' !in pre && |img| == 3 && ProbeMatches(img) && '>' !in body
    ensures Tags(pre + "<" + img + body + ">" + post) == ["<img" + body + ">"] + Tags(post)
  {
    var s := pre + "<" + img + body + ">" + post;
    var at := |pre|;
    assert s[..at] == pre;
    TagsSkip(s, at);
    assert s[at] == '<';
    assert s[at + 1..][..3] == img;
    assert ProbeMatches(s[at + 1..]);
    var t := s[at + 4..];
    assert t == body + ">" + post;
    assert t[|body|] == '>';
    assert TagLength(t) == |body| + 1;
    TagsAt(s, at);
    assert Tags(s[at..]) == ["<img" + s[at + 4..at + 4 + |body| + 1]] + Tags(s[at + 4 + |body| + 1..]);
    assert s[at + 4..at + 4 + |body| + 1] == body + ">";
    assert "<img" + (body + ">") == "<img" + body + ">";
    assert s[at + 4 + |body| + 1..] == post;
  }
}
