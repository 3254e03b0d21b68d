/**
 * thumb.c: when the thumbnail cache is consulted and written, when a
 * cached thumbnail is still valid, where it is stored (the hex MD5 of
 * the file's URI under ~/.thumbnails/normal/), and the once-only check
 * for the cache directory.
 */
module Thumb {
  import opened Wrappers
  import opened CText
  import opened Pixbufs

  const DefaultSide: nat := 128
  const LargeSide: nat := 256
  const CachePathBase: string := "/.thumbnails/"
  const CachePathNormal: string := "/.thumbnails/normal/"

  type Byte = b: int | 0 <= b < 256

  /** Only the two standard thumbnail sizes are looked up in and saved to the cache. */
  predicate CacheOk(side: nat): (ok: bool)
    ensures ok ==> DefaultSide <= side <= LargeSide
    ensures ok ==> side % DefaultSide == 0
  {
    side == DefaultSide || side == LargeSide
  }

  predicate IsLowerHex(c: char)
  {
    ('0' <= c <= '9') || ('a' <= c <= 'f')
  }

  /** One lower-case hex digit, as "%x" prints it. */
  function HexDigit(n: nat): (c: char)
    requires n < 16
    ensures IsLowerHex(c)
  {
    if n < 10 then (48 + n) as char else (87 + n) as char
  }

  /** The value of a lower-case hex digit. */
  function HexValue(c: char): (n: nat)
    requires IsLowerHex(c)
    ensures n < 16 && HexDigit(n) == c
    ensures forall m :: m < 16 && HexDigit(m) == c ==> m == n
  {
    if c <= '9' then c as int - 48 else c as int - 87
  }

  /** "%02x" of one byte: its high and its low nibble. */
  function HexPair(b: Byte): string
  {
    [HexDigit(b / 16), HexDigit(b % 16)]
  }

  /** "%02x" of every byte in turn. */
  function Hex(d: seq<Byte>): (h: string)
    ensures |h| == 2 * |d|
    ensures forall k :: 0 <= k < |h| ==> IsLowerHex(h[k])
  {
    if |d| == 0 then "" else Hex(d[..|d| - 1]) + HexPair(d[|d| - 1])
  }

  /** Byte i of the digest becomes characters 2i and 2i+1 of its hex text. */
  lemma {:induction false} HexAt(d: seq<Byte>, i: nat)
    requires i < |d|
    ensures Hex(d)[2 * i] == HexDigit(d[i] / 16) && Hex(d)[2 * i + 1] == HexDigit(d[i] % 16)
  {
    if i < |d| - 1 {
      HexAt(d[..|d| - 1], i);
    }
  }

  /** Reads a string of hex digit pairs back into bytes. */
  function Unhex(h: string): (d: seq<Byte>)
    requires |h| % 2 == 0
    requires forall k :: 0 <= k < |h| ==> IsLowerHex(h[k])
    ensures |d| * 2 == |h|
  {
    if |h| == 0 then []
    else Unhex(h[..|h| - 2]) + [HexValue(h[|h| - 2]) * 16 + HexValue(h[|h| - 1])]
  }

  /** The hex text of a digest reads back as the digest. */
  lemma {:induction false} UnhexHex(d: seq<Byte>)
    ensures Unhex(Hex(d)) == d
  {
    if |d| > 0 {
      var h := Hex(d);
      var front := d[..|d| - 1];
      assert h[..|h| - 2] == Hex(front);
      UnhexHex(front);
      var b := d[|d| - 1];
      assert HexValue(HexDigit(b / 16)) == b / 16;
      assert HexValue(HexDigit(b % 16)) == b % 16;
      assert d == front + [b];
    }
  }

  /** Different digests have different hex texts. */
  lemma HexInjective(a: seq<Byte>, b: seq<Byte>)
    requires Hex(a) == Hex(b)
    ensures a == b
  {
    UnhexHex(a);
    UnhexHex(b);
  }

  /**
   * md5_uri's formatting loop: the 16 digest bytes are printed two hex
   * digits at a time into a 33-byte buffer whose last byte ends the
   * string; the result is the 32 characters before it.
   */
  method HexOfDigest(digest: seq<Byte>) returns (md5: string)
    requires |digest| == 16
    ensures md5 == Hex(digest)
    ensures |md5| == 32
  {
    var buf := new char[33];
    for i := 0 to 16
      invariant buf[..2 * i] == Hex(digest[..i])
    {
      buf[2 * i] := HexDigit(digest[i] / 16);
      buf[2 * i + 1] := HexDigit(digest[i] % 16);
      assert digest[..i + 1][..i] == digest[..i];
      assert buf[..2 * (i + 1)] == buf[..2 * i] + HexPair(digest[i]);
    }
    buf[32] := '\0';
    assert digest[..16] == digest;
    md5 := buf[..32];
  }

  /** cache_path: the home directory, ~/.thumbnails/normal/, the hex digest and ".png". */
  function CachePath(home: string, hex: string): (p: string)
    ensures |p| == |home| + |CachePathNormal| + |hex| + 4
    ensures p[..|home|] == home && p[|home|..|home| + |CachePathNormal|] == CachePathNormal
    ensures p[|home| + |CachePathNormal|..|p| - 4] == hex && p[|p| - 4..] == ".png"
  {
    home + CachePathNormal + hex + ".png"
  }

  /** Two URIs with different digests get different cache files. */
  lemma CachePathsDistinct(home: string, d1: seq<Byte>, d2: seq<Byte>)
    requires |d1| == |d2|
    requires CachePath(home, Hex(d1)) == CachePath(home, Hex(d2))
    ensures d1 == d2
  {
    var p := CachePath(home, Hex(d1));
    assert Hex(d1) == p[|home| + |CachePathNormal|..|p| - 4] == Hex(d2);
    HexInjective(d1, d2);
  }

  /**
   * A file in the cache directory: the picture, None when it does not
   * load, and the tEXt::Thumb::MTime text it carries, if any.
   */
  datatype Entry = Entry(thumb: Option<Pixbuf>, mtimeText: Option<string>)

  /**
   * cache_load: a cached thumbnail is used only when the file at the
   * cache path exists and loads, and its MTime text, read with strtol,
   * equals the file's mtime; otherwise there is none.
   */
  function CacheLoad(files: map<string, Entry>, path: string, mtime: int): (r: Option<Pixbuf>)
    ensures r.Some? <==>
      (path in files && files[path].thumb.Some? && files[path].mtimeText.Some? &&
       ParseLong(files[path].mtimeText.value).value == mtime)
    ensures r.Some? ==> r == files[path].thumb
  {
    if path !in files then None
    else
      var e := files[path];
      if e.thumb.None? || e.mtimeText.None? then None
      else if ParseLong(e.mtimeText.value).value != mtime then None
      else e.thumb
  }

  /** What cache_save writes: the thumbnail with the file's mtime printed with "%li". */
  function Saved(thumb: Pixbuf, mtime: int): Entry
  {
    Entry(Some(thumb), Some(FormatLong(mtime)))
  }

  /** A saved thumbnail is found again while the file's mtime stays the same. */
  lemma SaveThenLoad(files: map<string, Entry>, path: string, thumb: Pixbuf, mtime: int)
    requires LongMin <= mtime <= LongMax
    ensures CacheLoad(files[path := Saved(thumb, mtime)], path, mtime) == Some(thumb)
  {
    FormatLongRoundTrip(mtime);
  }

  /** Once the file's mtime changes, the saved thumbnail is treated as stale. */
  lemma StaleAfterModification(files: map<string, Entry>, path: string, thumb: Pixbuf, mtime: int, now: int)
    requires LongMin <= mtime <= LongMax && now != mtime
    ensures CacheLoad(files[path := Saved(thumb, mtime)], path, now).None?
  {
    FormatLongRoundTrip(mtime);
  }

  /**
   * The thumbnail cache as the program sees it: the files under the
   * cache directory, and the two static flags of
   * cache_save_create_directory.
   */
  class ThumbCache {
    var tried: bool
    var status: bool
    var files: map<string, Entry>

    /** The outcome is only ever set by the first check. */
    ghost predicate Valid()
      reads this
    {
      !tried ==> !status
    }

    constructor (onDisk: map<string, Entry>)
      ensures Valid()
      ensures !tried && !status && files == onDisk
    {
      tried, status := false, false;
      files := onDisk;
    }

    /**
     * cache_save_create_directory: only the first call looks at the
     * disk (`baseOk`: ~/.thumbnails/ exists or is made; `normalOk`: the
     * same for ~/.thumbnails/normal/); every call returns that outcome.
     */
    method CreateDirectory(baseOk: bool, normalOk: bool) returns (ok: bool)
      requires Valid()
      modifies this
      ensures Valid()
      ensures tried && files == old(files)
      ensures old(tried) ==> status == old(status)
      ensures !old(tried) ==> status == (baseOk && normalOk)
      ensures ok == status
    {
      if !tried {
        tried := true;
        if baseOk {
          if normalOk {
            status := true;
          }
        }
      }
      ok := status;
    }

    /**
     * cache_save: nothing is written when the directory is not there;
     * otherwise the thumbnail and its mtime text go to the cache path,
     * unless the save fails (`saveOk`).
     */
    method Save(path: string, thumb: Pixbuf, mtime: int, baseOk: bool, normalOk: bool, saveOk: bool)
      requires Valid()
      modifies this
      ensures Valid()
      ensures tried
      ensures old(tried) ==> status == old(status)
      ensures !old(tried) ==> status == (baseOk && normalOk)
      ensures files == if status && saveOk then old(files)[path := Saved(thumb, mtime)] else old(files)
    {
      var dirOk := CreateDirectory(baseOk, normalOk);
      if !dirOk {
        return;
      }
      if saveOk {
        files := files[path := Saved(thumb, mtime)];
      }
    }

    /**
     * thumb_get: for a side of 128 or 256 a valid cached thumbnail is
     * returned as it is.  Otherwise the thumbnail is made from the file
     * (`made`, None when loading fails) and, when one was made, caching
     * is asked for and the side is cacheable, it is saved.  `digest` is
     * the MD5 of the file's URI and `mtime` its modification time.
     */
    method Get(home: string, digest: seq<Byte>, side: nat, cache: bool, mtime: int,
               made: Option<Pixbuf>, baseOk: bool, normalOk: bool, saveOk: bool)
      returns (thumb: Option<Pixbuf>)
      requires |digest| == 16
      requires Valid()
      modifies this
      ensures Valid()
      ensures var hit := if CacheOk(side) then CacheLoad(old(files), CachePath(home, Hex(digest)), mtime) else None;
        if hit.Some? then
          thumb == hit && unchanged(this)
        else
          thumb == made &&
          if made.Some? && cache && CacheOk(side) then
            tried && (old(tried) ==> status == old(status)) && (!old(tried) ==> status == (baseOk && normalOk)) &&
            files == (if status && saveOk then old(files)[CachePath(home, Hex(digest)) := Saved(made.value, mtime)] else old(files))
          else unchanged(this)
    {
      var md5 := HexOfDigest(digest);
      var path := CachePath(home, md5);
      thumb := None;
      if CacheOk(side) {
        thumb := CacheLoad(files, path, mtime);
      }
      if thumb.None? {
        thumb := made;
        if thumb.Some? && cache && CacheOk(side) {
          Save(path, thumb.value, mtime, baseOk, normalOk, saveOk);
        }
      }
    }
  }
}
