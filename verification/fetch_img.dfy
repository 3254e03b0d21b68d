/**
 * file_fetch_img.c: extraction of image URLs from an HTML document.
 * A forward scan collects every `<img ...>` tag, the `src=` value of
 * each tag is cut out, and the value is resolved against the base
 * (scheme and host) and the directory of the document's URI.
 */
module FetchImg {
  import opened Wrappers
  import opened CText
  import opened Util
  import opened CInt

  // ---------------------------------------------------------------------
  // URL anchors and resolution

  /**
   * file_fetch_img_get_base: the URI up to (not including) the first `/`
   * found from index 8 on, or the whole URI when there is none.  The
   * source reads past the end of a URI shorter than 8 bytes.
   */
  function GetBase(uri: string): (base: string)
    requires |uri| >= 8
    ensures 8 <= |base| <= |uri| && base == uri[..|base|]
    ensures '/' !in uri[8..|base|]
    ensures |base| < |uri| ==> uri[|base|] == '/'
  {
    match FirstIndexOf(uri[8..], '/')
    case None => uri
    case Some(k) => uri[..8 + k]
  }

  /** The base ends at the first `/` from index 8 on, or with the URI. */
  lemma GetBaseAt(uri: string, k: nat)
    requires 8 <= k <= |uri|
    requires '/' !in uri[8..k]
    requires k < |uri| ==> uri[k] == '/'
    ensures GetBase(uri) == uri[..k]
  {
    var b := GetBase(uri);
    forall m | 8 <= m < |b| ensures uri[m] != '/' {
      assert uri[m] == uri[8..|b|][m - 8];
    }
    forall m | 8 <= m < k ensures uri[m] != '/' {
      assert uri[m] == uri[8..k][m - 8];
    }
  }

  /** The directory ends at the last `/` of the URI. */
  lemma GetRelativeAt(uri: string, k: nat)
    requires k < |uri| && uri[k] == '/'
    requires '/' !in uri[k + 1..]
    ensures GetRelative(uri) == uri[..k]
  {
    var r := GetRelative(uri);
    assert uri[k] in uri;
    forall m | |r| + 1 <= m < |uri| ensures uri[m] != '/' {
      assert uri[m] == uri[|r| + 1..][m - |r| - 1];
    }
    forall m | k + 1 <= m < |uri| ensures uri[m] != '/' {
      assert uri[m] == uri[k + 1..][m - k - 1];
    }
  }

  /**
   * file_fetch_img_get_relative: the URI up to (not including) its last
   * `/`, or the whole URI when it has none.
   */
  function GetRelative(uri: string): (relative: string)
    ensures |relative| <= |uri| && relative == uri[..|relative|]
    ensures |relative| < |uri| ==> uri[|relative|] == '/' && '/' !in uri[|relative| + 1..]
    ensures |relative| == |uri| ==> '/' !in uri
  {
    match LastIndexOf(uri, '/')
    case None => uri
    case Some(k) => uri[..k]
  }

  predicate StartsWithSlash(src: string)
  {
    |src| > 0 && src[0] == '/'
  }

  predicate HasWebScheme(src: string)
  {
    StartsWithIgnoringCase(src, "http://") || StartsWithIgnoringCase(src, "https://")
  }

  /**
   * file_fetch_img_build_url: a value starting with `/` is joined to the
   * base; otherwise a value with an http:// or https:// scheme (any case)
   * is kept; anything else, the empty value included, is joined to the
   * directory with a `/`.
   */
  function BuildUrl(base: string, relative: string, src: string): (url: string)
    ensures StartsWithSlash(src) ==> url == base + src
    ensures !StartsWithSlash(src) && HasWebScheme(src) ==> url == src
    ensures !StartsWithSlash(src) && !HasWebScheme(src) ==> url == relative + "/" + src
  {
    StrIPosAtStart(src, "http://");
    StrIPosAtStart(src, "https://");
    if |src| > 0 && src[0] == '/' then base + src
    else if StrIPos(src, "http://") == Some(0) || StrIPos(src, "https://") == Some(0) then src
    else relative + "/" + src
  }

  /** Resolution only ever puts something in front of the value. */
  lemma BuildUrlEndsWithSrc(base: string, relative: string, src: string)
    ensures var url := BuildUrl(base, relative, src);
      |src| <= |url| && url[|url| - |src|..] == src
  {
    var url := BuildUrl(base, relative, src);
    if StartsWithSlash(src) {
      assert url == base + src;
    } else if HasWebScheme(src) {
      assert url == src;
    } else {
      assert url == (relative + "/") + src;
    }
  }

  // ---------------------------------------------------------------------
  // The src= value of one tag

  /** Where a `src=` value begins in a tag buffer and the byte that ends it. */
  datatype ValueStart = ValueStart(start: nat, term: char)

  /**
   * The case-insensitive search for `src=` in the tag (as a C string),
   * then the choice of terminator by the byte right after it: a quote is
   * skipped and ends the value, anything else means the value ends at a
   * space.
   */
  function SrcValueStart(buf: string): (r: Option<ValueStart>)
    ensures r.None? <==> !ContainsIgnoringCase(CStr(buf), "src=")
    ensures r.Some? ==> r.value.start <= |CStr(buf)|
  {
    match StrIPos(CStr(buf), "src=")
    case None => None
    case Some(i) =>
      var s := i + 4;
      if s < |buf| && buf[s] == '\'' then Some(ValueStart(s + 1, '\''))
      else if s < |buf| && buf[s] == '"' then Some(ValueStart(s + 1, '"'))
      else Some(ValueStart(s, ' '))
  }

  /** g_strndup: at most `n` bytes of a C string. */
  function StrNDup(s: string, n: nat): (r: string)
    ensures r <= CStr(s) && |r| <= n
    ensures |r| < n ==> r == CStr(s)
  {
    var t := CStr(s);
    if n < |t| then t[..n] else t
  }

  /**
   * file_fetch_img_get_img: the `src=` value of a tag buffer, or None when
   * the tag has no `src=` (ignoring case).  The value ends just before the
   * terminator.  Without one the end is the buffer's last byte; the length
   * is a guint, so when the buffer ends right at the value's start it
   * wraps to 2^32 - 1 and g_strndup copies the (empty) rest.
   */
  function GetImg(buf: string): (img: Option<string>)
    ensures img.None? <==> !ContainsIgnoringCase(CStr(buf), "src=")
    ensures img.Some? ==> '\0' !in img.value
  {
    match SrcValueStart(buf)
    case None => None
    case Some(v) => Some(ValueAt(buf, v))
  }

  /** The value from its start up to the terminator or, failing that, the buffer's last byte. */
  function ValueAt(buf: string, v: ValueStart): (value: string)
    requires v.start <= |CStr(buf)|
    ensures '\0' !in value
  {
    var text := CStr(buf);
    match Find(text[v.start..], [v.term])
    case Some(j) => StrNDup(text[v.start..], j)
    case None => StrNDup(buf[v.start..], Guint(|buf| - 1 - v.start))
  }

  /** No case-insensitive `src=` occurs before index `n` of `buf`. */
  predicate NoSrcBefore(buf: string, n: nat)
  {
    forall j :: 0 <= j < n ==> !MatchesAt(buf, "src=", j)
  }

  /**
   * In a NUL-free tag whose first `src=` (any case) is at `i`, a quote
   * right after it is skipped and becomes the terminator; any other byte
   * makes a space the terminator.
   */
  lemma SrcValueStartAt(buf: string, i: nat)
    requires '\0' !in buf
    requires MatchesAt(buf, "src=", i) && NoSrcBefore(buf, i)
    ensures SrcValueStart(buf) ==
      if i + 4 < |buf| && buf[i + 4] == '\'' then Some(ValueStart(i + 5, '\''))
      else if i + 4 < |buf| && buf[i + 4] == '"' then Some(ValueStart(i + 5, '"'))
      else Some(ValueStart(i + 4, ' '))
  {
    CStrOfNulFree(buf);
    StrIPosFirst(buf, "src=", i);
  }

  /** A value whose terminator is present is the text up to it. */
  lemma GetImgTerminated(buf: string, v: ValueStart, len: nat)
    requires '\0' !in buf
    requires SrcValueStart(buf) == Some(v)
    requires v.start + len < |buf| && buf[v.start + len] == v.term
    requires v.term !in buf[v.start..v.start + len]
    ensures GetImg(buf) == Some(buf[v.start..v.start + len])
  {
    CStrOfNulFree(buf);
    var t := buf[v.start..];
    assert t[..len] == buf[v.start..v.start + len];
    FirstSingle(t, t[..len], v.term);
    CStrOfNulFree(t);
  }

  /**
   * A value whose terminator is missing runs up to, not including, the
   * buffer's last byte: the `>` that closed the tag is dropped.
   */
  lemma GetImgUnterminated(buf: string, v: ValueStart)
    requires '\0' !in buf
    requires SrcValueStart(buf) == Some(v)
    requires v.term !in buf[v.start..]
    requires v.start < |buf| <= 0x1_0000_0000
    ensures GetImg(buf) == Some(buf[v.start..|buf| - 1])
  {
    CStrOfNulFree(buf);
    var t := buf[v.start..];
    NotFoundSingle(t, v.term);
    CStrOfNulFree(t);
    var len := |buf| - 1 - v.start;
    assert StrNDup(t, len) == t[..len] == buf[v.start..|buf| - 1];
  }

  /**
   * A tag that ends right where its value starts: the length wraps and
   * g_strndup copies the empty rest, so the value is empty.
   */
  lemma GetImgAtEnd(buf: string, v: ValueStart)
    requires '\0' !in buf
    requires SrcValueStart(buf) == Some(v) && v.start == |buf|
    ensures GetImg(buf) == Some("")
  {
    CStrOfNulFree(buf);
    assert buf[v.start..] == [];
    NotFoundSingle(buf[v.start..], v.term);
  }

  lemma FirstSingle(t: string, value: string, c: char)
    requires c !in value
    requires |t| > |value| && t[..|value|] == value && t[|value|] == c
    ensures Find(t, [c]) == Some(|value|)
  {
    assert OccursAt(t, [c], |value|);
    forall j | 0 <= j < |value| ensures !OccursAt(t, [c], j) {
      assert t[j] == value[j];
    }
  }

  lemma NotFoundSingle(t: string, c: char)
    requires c !in t
    ensures Find(t, [c]) == None
  {
    forall j | 0 <= j ensures !OccursAt(t, [c], j) {
      if j + 1 <= |t| {
        assert t[j..j + 1] == [t[j]];
      }
    }
  }

  // ---------------------------------------------------------------------
  // Scanning the document

  /** The `I`,`M`,`G` that must follow a `<`, ignoring case. */
  predicate ProbeMatches(s: string)
  {
    |s| >= 3 && AsciiUpper(s[0]) == 'I' && AsciiUpper(s[1]) == 'M' && AsciiUpper(s[2]) == 'G'
  }

  /**
   * How many bytes the test after a `<` reads: each byte read is consumed,
   * the test stops at the first byte that does not match and end of input
   * consumes nothing.
   */
  function ProbeLength(s: string): (n: nat)
    ensures n <= 3 && n <= |s|
    ensures ProbeMatches(s) ==> n == 3
  {
    if |s| == 0 then 0
    else if AsciiUpper(s[0]) != 'I' then 1
    else if |s| == 1 then 1
    else if AsciiUpper(s[1]) != 'M' then 2
    else if |s| == 2 then 2
    else 3
  }

  /** How many bytes after `<img` go into the tag: through the first `>`, or all. */
  function TagLength(t: string): (n: nat)
    ensures n <= |t|
    ensures forall j :: 0 <= j < n - 1 ==> t[j] != '>'
    ensures (0 < n && t[n - 1] == '>') || (n == |t| && '>' !in t)
  {
    match FirstIndexOf(t, '>')
    case None => |t|
    case Some(k) => k + 1
  }

  /**
   * The tag buffers file_fetch_img_extract_links builds, in document
   * order: each starts as `<img` and takes every byte through the first
   * `>` or to the end of input.
   */
  function Tags(s: string): (tags: seq<string>)
    decreases |s|
  {
    if |s| == 0 then []
    else if s[0] != '<' then Tags(s[1..])
    else if !ProbeMatches(s[1..]) then Tags(s[1 + ProbeLength(s[1..])..])
    else
      var n := TagLength(s[4..]);
      ["<img" + s[4..4 + n]] + Tags(s[4 + n..])
  }

  /** Every tag takes at least the four bytes of `<IMG`, so a document has at most a quarter as many tags as bytes. */
  lemma {:induction false} TagsCount(s: string)
    ensures 4 * |Tags(s)| <= |s|
    decreases |s|
  {
    if |s| == 0 {
    } else if s[0] != '<' {
      TagsCount(s[1..]);
    } else if !ProbeMatches(s[1..]) {
      TagsCount(s[1 + ProbeLength(s[1..])..]);
    } else {
      TagsCount(s[4 + TagLength(s[4..])..]);
    }
  }

  /** The URL a tag contributes: none without `src=`, else its resolved value. */
  function TagUrls(tag: string, base: string, relative: string): (urls: seq<string>)
    ensures |urls| <= 1
    ensures urls == [] <==> GetImg(tag).None?
  {
    match GetImg(tag)
    case None => []
    case Some(src) => [BuildUrl(base, relative, src)]
  }

  /** The URLs the tags contribute, in order. */
  function UrlsOf(tags: seq<string>, base: string, relative: string): (urls: seq<string>)
    ensures |urls| <= |tags|
  {
    if tags == [] then []
    else TagUrls(tags[0], base, relative) + UrlsOf(tags[1..], base, relative)
  }

  /** Every tag begins with `<img` and holds no `>` before its last byte. */
  lemma {:induction false} TagShape(s: string)
    ensures forall tag :: tag in Tags(s) ==>
      |tag| >= 4 && tag[..4] == "<img" && forall j :: 4 <= j < |tag| - 1 ==> tag[j] != '>'
    decreases |s|
  {
    if |s| == 0 {
    } else if s[0] != '<' {
      TagShape(s[1..]);
    } else if !ProbeMatches(s[1..]) {
      TagShape(s[1 + ProbeLength(s[1..])..]);
    } else {
      var n := TagLength(s[4..]);
      var tag := "<img" + s[4..4 + n];
      TagShape(s[4 + n..]);
      assert Tags(s) == [tag] + Tags(s[4 + n..]);
      forall j | 4 <= j < |tag| - 1 ensures tag[j] != '>' {
        assert tag[j] == s[4..][j - 4];
      }
    }
  }

  /** Bytes before the next `<` contribute nothing. */
  lemma {:induction false} TagsSkip(s: string, k: nat)
    requires k <= |s| && '<' !in s[..k]
    ensures Tags(s) == Tags(s[k..])
    decreases k
  {
    if k > 0 {
      assert s[0] == s[..k][0];
      var t := s[1..];
      assert t[..k - 1] == s[..k][1..];
      TagsSkip(t, k - 1);
      assert s[1..][k - 1..] == s[k..];
    }
  }

  /** A tag is taken only when `<` is followed by I, M, G: `<<img` is not seen. */
  lemma DoubleAngleMissed()
    ensures Tags("<<img src=a.png>") == []
  {
    var s := "<<img src=a.png>";
    assert !ProbeMatches(s[1..]);
    assert ProbeLength(s[1..]) == 1;
    var rest := s[2..];
    assert rest == "img src=a.png>";
    assert rest[..|rest|] == rest;
    TagsSkip(rest, |rest|);
    assert rest[|rest|..] == [];
  }

  /** fgetc on the document: the next byte and the advanced cursor, or None at end of input. */
  method ReadByte(s: string, i: nat) returns (c: Option<char>, next: nat)
    requires i <= |s|
    ensures i < |s| ==> c == Some(s[i]) && next == i + 1
    ensures i == |s| ==> c == None && next == i
  {
    if i < |s| {
      c, next := Some(s[i]), i + 1;
    } else {
      c, next := None, i;
    }
  }

  /**
   * The three chained reads after a `<`: whether they spell IMG in any
   * case, and where the cursor is left.
   */
  method ProbeImg(s: string, i: nat) returns (isImg: bool, next: nat)
    requires i <= |s|
    ensures isImg <==> ProbeMatches(s[i..])
    ensures next == i + ProbeLength(s[i..])
  {
    var c1, c2, c3: Option<char>;
    isImg := false;
    c1, next := ReadByte(s, i);
    if c1.Some? && AsciiUpper(c1.value) == 'I' {
      c2, next := ReadByte(s, next);
      if c2.Some? && AsciiUpper(c2.value) == 'M' {
        c3, next := ReadByte(s, next);
        isImg := c3.Some? && AsciiUpper(c3.value) == 'G';
      }
    }
  }

  /**
   * The tag accumulation: a buffer seeded with `<img` takes every byte
   * through the first `>` or to the end of input.
   */
  method ReadTag(s: string, i: nat) returns (buf: string, next: nat)
    requires i <= |s|
    ensures i <= next <= |s|
    ensures next - i == TagLength(s[i..])
    ensures buf == "<img" + s[i..next]
  {
    buf := "<img";
    next := i;
    var done := false;
    while !done
      invariant i <= next <= |s|
      invariant buf == "<img" + s[i..next]
      invariant !done ==> '>' !in s[i..next]
      invariant done ==> next - i == TagLength(s[i..])
      decreases |s| - next, !done
    {
      var ch: Option<char>;
      ghost var before := next;
      ch, next := ReadByte(s, next);
      if ch.None? {
        done := true;
        assert s[i..] == s[i..next];
      } else {
        buf := buf + [ch.value];
        assert s[i..next] == s[i..before] + [ch.value];
        if ch.value == '>' {
          done := true;
          assert s[i..][next - 1 - i] == '>';
        }
      }
    }
  }

  /** One step of the scan, read off a suffix of the document. */
  lemma TagsAt(s: string, at: nat)
    requires at < |s|
    ensures s[at] != '<' ==> Tags(s[at..]) == Tags(s[at + 1..])
    ensures s[at] == '<' && !ProbeMatches(s[at + 1..]) ==>
      Tags(s[at..]) == Tags(s[at + 1 + ProbeLength(s[at + 1..])..])
    ensures s[at] == '<' && ProbeMatches(s[at + 1..]) ==>
      var n := TagLength(s[at + 4..]);
      at + 4 + n <= |s| &&
      Tags(s[at..]) == ["<img" + s[at + 4..at + 4 + n]] + Tags(s[at + 4 + n..])
  {
    var r := s[at..];
    assert r[1..] == s[at + 1..];
    if s[at] == '<' && !ProbeMatches(s[at + 1..]) {
      assert r[1 + ProbeLength(r[1..])..] == s[at + 1 + ProbeLength(s[at + 1..])..];
    }
    if s[at] == '<' && ProbeMatches(s[at + 1..]) {
      assert r[4..] == s[at + 4..];
      var n := TagLength(s[at + 4..]);
      assert r[4..4 + n] == s[at + 4..at + 4 + n];
      assert r[4 + n..] == s[at + 4 + n..];
    }
  }

  /** A byte that does not open an `<img` tag is skipped along with the probe's reads. */
  lemma SkipStep(s: string, at: nat, next: nat)
    requires at < |s|
    requires s[at] != '<' ==> next == at + 1
    requires s[at] == '<' ==> !ProbeMatches(s[at + 1..]) && next == at + 1 + ProbeLength(s[at + 1..])
    ensures Tags(s[at..]) == Tags(s[next..])
  {
    TagsAt(s, at);
  }

  /** An `<img` tag read at `at` is the first of the tags found from there. */
  lemma TagStep(s: string, at: nat, buf: string, next: nat)
    requires at < |s| && s[at] == '<' && ProbeMatches(s[at + 1..])
    requires at + 4 <= next <= |s| && next - (at + 4) == TagLength(s[at + 4..])
    requires buf == "<img" + s[at + 4..next]
    ensures Tags(s[at..]) == [buf] + Tags(s[next..])
  {
    TagsAt(s, at);
  }

  lemma UrlsOfCons(tag: string, tags: seq<string>, base: string, relative: string)
    ensures UrlsOf([tag] + tags, base, relative) ==
      TagUrls(tag, base, relative) + UrlsOf(tags, base, relative)
  {
    assert ([tag] + tags)[1..] == tags;
  }

  /**
   * After one pass of the scan loop, the URLs collected so far followed by
   * those of the tags still ahead are the same as before the pass.
   */
  lemma ScanStep(s: string, at: nat, next: nat, urls: seq<string>, tag: Option<string>,
                 base: string, relative: string)
    requires at < next <= |s|
    requires tag.None? ==> Tags(s[at..]) == Tags(s[next..])
    requires tag.Some? ==> Tags(s[at..]) == [tag.value] + Tags(s[next..])
    ensures (if tag.Some? then urls + TagUrls(tag.value, base, relative) else urls) +
      UrlsOf(Tags(s[next..]), base, relative) == urls + UrlsOf(Tags(s[at..]), base, relative)
  {
    if tag.Some? {
      var rest := Tags(s[next..]);
      UrlsOfCons(tag.value, rest, base, relative);
      assert urls + TagUrls(tag.value, base, relative) + UrlsOf(rest, base, relative) ==
        urls + (TagUrls(tag.value, base, relative) + UrlsOf(rest, base, relative));
    }
  }

  /**
   * One pass of the scan loop: read a byte; after a `<` probe for IMG and,
   * when it matches, accumulate the tag.
   */
  method NextTag(s: string, i: nat) returns (tag: Option<string>, next: nat)
    requires i < |s|
    ensures i < next <= |s|
    ensures tag.None? ==> Tags(s[i..]) == Tags(s[next..])
    ensures tag.Some? ==> Tags(s[i..]) == [tag.value] + Tags(s[next..])
  {
    var c: Option<char>;
    c, next := ReadByte(s, i);
    var isImg := false;
    if c == Some('<') {
      isImg, next := ProbeImg(s, next);
    }
    if isImg {
      var buf: string;
      buf, next := ReadTag(s, next);
      TagStep(s, i, buf, next);
      tag := Some(buf);
    } else {
      SkipStep(s, i, next);
      tag := None;
    }
  }

  /** A completed tag: when it has a `src=` value, its resolved URL is appended. */
  method AddTagUrl(urls: seq<string>, tag: string, base: string, relative: string)
    returns (r: seq<string>)
    ensures r == urls + TagUrls(tag, base, relative)
  {
    var img := GetImg(tag);
    if img.Some? {
      r := urls + [BuildUrl(base, relative, img.value)];
    } else {
      r := urls;
    }
  }

  /**
   * The read loop of file_fetch_img_extract_links: every `<img` tag of the
   * document, in order, contributes its resolved `src=` value.
   */
  method ScanLinks(s: string, base: string, relative: string) returns (urls: seq<string>)
    ensures urls == UrlsOf(Tags(s), base, relative)
  {
    urls := [];
    var i := 0;
    assert s[i..] == s;
    while i < |s|
      invariant i <= |s|
      invariant urls + UrlsOf(Tags(s[i..]), base, relative) == UrlsOf(Tags(s), base, relative)
    {
      var tag: Option<string>;
      ghost var at := i;
      tag, i := NextTag(s, i);
      ScanStep(s, at, i, urls, tag, base, relative);
      if tag.Some? {
        urls := AddTagUrl(urls, tag.value, base, relative);
      }
    }
    assert s[i..] == [];
  }

  /**
   * file_fetch_img_extract_links: a document that cannot be opened gives
   * no URLs; otherwise the base and the relative directory of the page's
   * URI resolve the `src=` value of every `<img` tag, in document order.
   */
  method ExtractLinks(doc: Option<string>, uri: string) returns (urls: seq<string>)
    requires doc.Some? ==> |uri| >= 8
    ensures doc.None? ==> urls == []
    ensures doc.Some? ==> urls == UrlsOf(Tags(doc.value), GetBase(uri), GetRelative(uri))
  {
    if doc.None? {
      return [];
    }
    var base := GetBase(uri);
    var relative := GetRelative(uri);
    urls := ScanLinks(doc.value, base, relative);
  }
}
