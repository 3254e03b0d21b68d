# geh: a verified model of the viewer's core logic

geh is a small GTK image viewer and background setter written in C. This
project models in Dafny the parts of it that are plain integer and string
logic, and proves properties of that model:

- **Image-link extraction** (`FetchImg`, `fetch_img.dfy`). A scan of an HTML
  document finds each `<IMG` tag, case-insensitively, and collects the tag
  through its first `>`. It then extracts the `src=` value, which may be
  quoted with `'` or `"` or unquoted, and resolves it against the page's
  base (scheme and host) and its directory. The scan is a method with loop
  invariants, proved equal to a specification function over the document
  (`Tags`, `UrlsOf`). Worked cases are in `fetch_img_examples.dfy`.
- **Case-insensitive search** (`Util`, `util.dfy`). `util_stripos` and
  `util_str_in`, over C string helpers in `CText` (`ctext.dfy`): NUL
  truncation, `strchr`, `strrchr`, `strstr`, `strtol` and `printf("%li")`.
  `CInt` (`cint.dfy`) has the wrap-around of `guint` and `gint`.
- **Background compositing** (`Root`, `root.dfy`). The base canvas is filled
  with the colour's pixel, or with 0. Centre mode's offset arithmetic and
  rectangle copy work on `array2` canvases. Crop, Fill and Tile are stubs.
- **The multi-source file object** (`FileMulti`, `file_multi.dfy`).
  - A path is classified as standard input, http, ftp or a plain file.
  - Name, extension, URI and directory are computed lazily and remembered.
  - The temporary-file and need-fetch state moves through fetch, close_tmp
    and rename.
  - `Paths` (`paths.dfy`) models the library routines it relies on: GLib's
    `g_path_get_basename` and glibc's `dirname`.
- **Zoom and rotation bookkeeping** (`Image`, `image.dfy`). It works over
  symbolic pixbufs (`Pixbufs`, `pixbufs.dfy`), which carry only their size
  and how they were derived.
- **Orientation** (`Orientation`, `orientation.dfy`). It handles the TIFF/Exif
  Orientation tag: values 3, 6 and 8 rotate, and 6 and 8 swap the size.
- **Thumbnail cache** (`Thumb`, `thumb.dfy`):
  - when the cache is read and written;
  - the mtime validity rule, proved through the `printf`/`strtol` round
    trip;
  - the hex-digest file name, formatted by a loop into an array and proved
    injective;
  - the once-only check for the cache directory.
- **Start-up** (`Startup`, `startup.dfy`). The usage check, the counting
  loop over the file array, and the display mode chosen by `-m` or by the
  number of files. In the background branch the first file is opened and
  fetched with the `FileMulti` model.

Where the code and its prose description differ, the model follows the code:

- **Relative directory of a host-only page.** For a page URI without a path,
  `get_relative` cuts at the second slash of `http://`. A relative `src` on
  `http://example.com` therefore becomes `http://a.png`
  (`FetchImgExamples.HostOnlyPageLosesHost`).
- **Unterminated `src` value.** A value whose closing quote or space is
  missing loses the last byte of the tag buffer, whatever that byte is
  (`FetchImgExamples.GetImgUnclosedTag`). It is a `>` only when the tag was
  closed.
- **Failed rename.** A failed `rename` leaves the path alone, but it does
  remember the directory and the name, because it computes both:
  `get_dir` is called for the new path and `get_name` for the warning.
- **Stopped fetch.** A fetch that is stopped or cannot start wget keeps its
  temporary file. The next `fetch` therefore returns TRUE at once
  (`FileMulti.MultiFile.Fetch`).
- **Thumbnail sizes.** Both cacheable thumbnail sizes (128 and 256) use the
  same file under `~/.thumbnails/normal/`. So the cache can answer a
  request for one size with a thumbnail saved at the other.
- **Root mode.** Only `-m ROOT` selects the background branch. The `-b`
  flag is parsed but does not select it.

## Model

| member | source | states |
|---|---|---|
| CInt.Guint | src/image.c:133 | a value taken as guint is congruent to it modulo 2^32 and in range; values already in range are unchanged |
| CInt.Gint | src/image.c:205 | a value taken as gint is congruent to it modulo 2^32 and in the signed range; values in range are unchanged |
| CText.CStr | src/file_fetch_img.c:162 | the C string view of a buffer is its longest NUL-free prefix, ending at the first NUL |
| CText.CStrOfNulFree | src/file_fetch_img.c:162 | a buffer without NUL is its own C string |
| CText.FirstIndexOf | src/file_fetch_img.c:210 | strchr: the index of the first occurrence of the byte, or none exactly when it does not occur |
| CText.LastIndexOf | src/file_fetch_img.c:233 | strrchr: the index of the last occurrence of the byte, or none exactly when it does not occur |
| CText.Find | src/util.c:54 | strstr: the first index where the needle occurs, none exactly when it occurs nowhere |
| CText.ParseLong | src/thumb.c:212 | strtol base 10: the value is within the long range, the parse ends after a digit and before a non-digit, and no digits give 0 |
| CText.Digits | src/thumb.c:252 | the decimal digits of a number are non-empty, all digits, and read back as the number |
| CText.FormatLong | src/thumb.c:251-252 | "%li" prints a non-empty run of decimal digits, preceded by `-` for a negative value |
| CText.FormatLongRoundTrip | src/thumb.c:212-213 | strtol reads back exactly what "%li" printed, consuming all of it |
| CText.FormatLongThenText | src/orientation.c:11-12 | a printed number followed by a non-digit is read back, stopping where the number ends |
| Util.Upper | src/util.c:48-49 | ASCII upper-casing keeps the length, folds each byte independently, leaves no ASCII lower-case letter and changes no other byte |
| Util.UpperIdempotent | src/util.c:48-49 | upper-casing twice is the same as upper-casing once |
| Util.FoldingOnlyPairsLetters | src/util.c:48-49 | two bytes fold equal exactly when they are equal or are the two cases of one ASCII letter |
| Util.UpperOccursIffMatches | src/util.c:48-57 | the folded needle occurs in the folded haystack at i exactly when the original slice at i matches ignoring case |
| Util.StrIPos | src/util.c:46-65 | util_stripos: the first index of a case-insensitive match in the original haystack; none exactly when there is no match |
| Util.StrIPosEmptyNeedle | src/util.c:54 | an empty needle matches at index 0 |
| Util.StrIPosFirst | src/util.c:54-57 | a match with no earlier match is the position returned |
| Util.StrIPosAtStart | src/file_fetch_img.c:135-136 | the result is position 0 exactly when the string starts with the needle ignoring case |
| Util.StrEq | src/util.c:82-91 | the per-entry comparison: equal strings always match; a match has equal length; without `casei` it is exact equality |
| Util.StrIn | src/util.c:75-95 | true exactly when some list entry equals the string (case-insensitively when asked); false for an empty list |
| FetchImg.GetBase | src/file_fetch_img.c:201-218 | the base is the prefix up to the first `/` at index 8 or later, or the whole URI when there is none |
| FetchImg.GetRelative | src/file_fetch_img.c:227-241 | the directory is the prefix before the last `/`, or the whole URI when there is none |
| FetchImg.GetBaseAt | src/file_fetch_img.c:207-216 | the base ends exactly at the first `/` from index 8 on, or with the URI |
| FetchImg.GetRelativeAt | src/file_fetch_img.c:233-238 | the directory ends exactly at the URI's last `/` |
| FetchImg.BuildUrl | src/file_fetch_img.c:126-146 | `/x` becomes base + x; otherwise an http/https URL (any case) is kept; anything else becomes directory + "/" + src |
| FetchImg.BuildUrlEndsWithSrc | src/file_fetch_img.c:131-143 | every resolved URL ends with the src value itself |
| FetchImg.SrcValueStart | src/file_fetch_img.c:162-176 | there is no value start exactly when the tag, as a C string, has no `src=` in any case; a start lies within the C string |
| FetchImg.StrNDup | src/file_fetch_img.c:188 | g_strndup copies at most n bytes of the C string, and all of it when it is shorter |
| FetchImg.GetImg | src/file_fetch_img.c:155-192 | no value exactly when there is no `src=`; a value never contains NUL |
| FetchImg.ValueAt | src/file_fetch_img.c:178-188 | the extracted value is NUL-free |
| FetchImg.SrcValueStartAt | src/file_fetch_img.c:162-176 | the first `src=` decides where the value starts and which byte ends it |
| FetchImg.GetImgTerminated | src/file_fetch_img.c:178-188 | a value followed by its terminator is exactly the bytes before it |
| FetchImg.GetImgUnterminated | src/file_fetch_img.c:180-188 | without a terminator the value runs to the buffer's last byte, excluding it |
| FetchImg.GetImgAtEnd | src/file_fetch_img.c:180-188 | a tag that ends where its value starts gives the empty value, the wrapped length notwithstanding |
| FetchImg.FirstSingle | src/file_fetch_img.c:179 | strstr for a one-byte terminator finds its first occurrence |
| FetchImg.NotFoundSingle | src/file_fetch_img.c:179-180 | strstr for an absent one-byte terminator finds nothing |
| FetchImg.ProbeLength | src/file_fetch_img.c:81-84 | the `<IMG` probe consumes up to three bytes, all three when they match |
| FetchImg.TagLength | src/file_fetch_img.c:89-95 | a tag body runs through its first `>`, or to the end of the input when there is none |
| FetchImg.TagsCount | src/file_fetch_img.c:79-107 | `Tags`, the reference definition of the tags the read loop collects, yields at most one tag per four bytes of the document |
| FetchImg.TagUrls | src/file_fetch_img.c:97-103 | a tag contributes at most one URL, and none exactly when it has no `src=` value |
| FetchImg.UrlsOf | src/file_fetch_img.c:79-107 | the URLs of a tag list, in order: at most one per tag |
| FetchImg.TagShape | src/file_fetch_img.c:86-95 | every collected tag starts with `<img` and holds no `>` before its last byte |
| FetchImg.TagsSkip | src/file_fetch_img.c:79-81 | text without `<` contributes no tag |
| FetchImg.DoubleAngleMissed | src/file_fetch_img.c:81-84 | `<<img` is missed: the second `<` is consumed by the failed probe |
| FetchImg.ReadByte | src/file_fetch_img.c:79 | fgetc yields the next byte, or EOF at the end |
| FetchImg.ProbeImg | src/file_fetch_img.c:81-84 | the probe matches exactly when the next three bytes spell IMG in any case, and consumes what it read |
| FetchImg.ReadTag | src/file_fetch_img.c:86-95 | the buffer is `<img` plus the bytes through the first `>` or to EOF |
| FetchImg.TagsAt | src/file_fetch_img.c:79-107 | one step of the scan: a non-`<` is skipped, a failed probe skips what it read, a match collects one tag |
| FetchImg.SkipStep | src/file_fetch_img.c:79-84 | skipping a byte or a failed probe leaves the remaining tags unchanged |
| FetchImg.TagStep | src/file_fetch_img.c:81-95 | a matched tag is the next tag of the document |
| FetchImg.UrlsOfCons | src/file_fetch_img.c:97-103 | the URLs of a tag list are those of its first tag followed by the rest |
| FetchImg.ScanStep | src/file_fetch_img.c:79-103 | one pass of the scan loop keeps the URLs collected so far, followed by those of the tags ahead, unchanged |
| FetchImg.NextTag | src/file_fetch_img.c:79-95 | one outer iteration either consumes bytes that hold no tag or yields exactly the next tag |
| FetchImg.AddTagUrl | src/file_fetch_img.c:97-103 | a tag with a value appends its resolved URL; a tag without one adds nothing |
| FetchImg.ScanLinks | src/file_fetch_img.c:79-108 | the scan yields the resolved URLs of all tags in document order |
| FetchImg.ExtractLinks | src/file_fetch_img.c:57-116 | an unopenable file gives no URLs; otherwise the URLs of the document's tags resolved against the page's base and directory |
| FetchImgExamples.GetBaseExamples | src/file_fetch_img.c:207-216 | worked base of a URI with and without a path |
| FetchImgExamples.GetRelativeExamples | src/file_fetch_img.c:233-238 | worked directory of a URI with a path, and of a host-only URI, where it is cut inside the scheme |
| FetchImgExamples.HostOnlyPageLosesHost | src/file_fetch_img.c:140-142 | a relative src on a host-only page resolves to `http://` + src |
| FetchImgExamples.SrcAfterImg | src/file_fetch_img.c:162-176 | in a tag beginning `<img src=`, a quote after the prefix is skipped and ends the value; otherwise the value starts there and ends at a space |
| FetchImgExamples.GetImgEndsAtSrc | src/file_fetch_img.c:162-188 | a tag cut off right after `src=` gives the empty value |
| FetchImgExamples.GetImgQuotedTag | src/file_fetch_img.c:164-188 | a quoted value is the text between the quotes |
| FetchImgExamples.GetImgUnquotedTag | src/file_fetch_img.c:174-188 | an unquoted value ends at the first space |
| FetchImgExamples.GetImgUnclosedTag | src/file_fetch_img.c:180-188 | a value missing its closing quote loses the buffer's last byte |
| FetchImgExamples.TagsFirstTag | src/file_fetch_img.c:79-107 | text before `<IMG` is skipped and the tag is collected through its first `>` |
| Root.ColorName | src/root.c:74-76 | a missing colour becomes "#000000" |
| Root.BasePixel | src/root.c:275-286 | the fill pixel is the allocated colour's pixel, or 0 when parsing or allocation fails |
| Root.CenterAxis | src/root.c:308-317 | per axis, one offset is zero, the copied span fits both source and destination, and the margins differ by at most one |
| Root.Fill | src/root.c:286 | every canvas pixel becomes the fill value |
| Root.CopyArea | src/root.c:324-326 | the rectangle is copied from the source, every other destination pixel keeps its value, and the source is untouched |
| Root.CreateBase | src/root.c:253-289 | a new screen-sized canvas filled with the base pixel |
| Root.Centering | src/root.c:300-326 | the copied rectangle is min(width) by min(height) and lies inside both images |
| Root.CreateCentered | src/root.c:298-327 | the centred rectangle of the image is copied onto the canvas at the centred offset; other pixels keep the base fill |
| Root.CreateScaled | src/root.c:336-349 | every canvas pixel is the scaled image's pixel |
| Root.CreateCropped | src/root.c:358-362 | only the "not yet supported" warning; the canvas is unchanged |
| Root.CreateFilled | src/root.c:371-375 | only the "not yet supported" warning; the canvas is unchanged |
| Root.CreateTiled | src/root.c:384-388 | only the warning, which names the filled mode; the canvas is unchanged |
| Root.CenteredCoversCanvas | src/root.c:308-326 | an image at least screen-sized covers every canvas pixel with its centre part |
| Root.CenteredShowsWholeImage | src/root.c:308-326 | an image at most screen-sized appears whole at the centred offset |
| Root.SetImage | src/root.c:65-119 | always FALSE; no canvas when the file does not load; otherwise a screen-sized canvas drawn by the selected mode, with Crop, Fill, Tile and unknown modes left at the base fill |
| Pixbufs.RotateSimple | src/image.c:277-278 | a quarter turn swaps width and height; a half turn keeps them |
| Pixbufs.ScaleSimple | src/image.c:292-295 | the scaled pixbuf has the requested size |
| Orientation.RotationFor | src/orientation.c:11-46 | only a wholly numeric value rotates: 3 by 180, 6 by 270, 8 by 90; anything else by 0 |
| Orientation.Transform | src/orientation.c:7-53 | the pixbuf is replaced by its rotation only when there is one, and the size is swapped for 6 and 8 |
| Orientation.RotationForValue | src/orientation.c:20-46 | the printed value v rotates exactly as the switch on v says |
| Orientation.TrailingTextIgnored | src/orientation.c:11-15 | a number followed by other text is ignored |
| Image.ZoomDim | src/image.c:287-288 | the zoomed dimension is the integer part of d × zoom / 100, and d itself at zoom 100 |
| Image.Render | src/image.c:262-307 | zoom 100 and rotation 0 keep the original; otherwise rotate, then scale to the zoomed size |
| Image.Quantize | src/image.c:236-241 | the stored rotation is a multiple of 90 below 360, the largest one not above the request, or 0 for 360 and more |
| Image.Normalize | src/image.c:205-217 | the result differs from the sum by whole turns; a positive sum goes into (0, 360], a negative one into [0, 360), and 0 stays 0 |
| Image.Image.FromFields | src/image.c:70-85 | the opened state: current equals original, zoom 100, rotation 0 |
| Image.Image.Open | src/image.c:49-88 | no image when loading fails; otherwise the oriented original, the pre-orientation rotated size, zoom 100 and rotation 0 |
| Image.Image.Update | src/image.c:262-307 | the current pixbuf is re-rendered and the current size read back from it |
| Image.Image.ZoomSet | src/image.c:145-158 | a zoom below 10 becomes 10; setting the current zoom changes nothing |
| Image.Image.Zoom | src/image.c:128-136 | the new zoom is the wrapped guint sum, clamped to at least 10; the delta is returned; rotation, original and rotated-original size are unchanged |
| Image.Image.RotateSet | src/image.c:231-254 | the rotation is quantised, the rotated size is swapped for 90 and 270 and kept otherwise, and the image re-rendered |
| Image.Image.Rotate | src/image.c:201-222 | the result is the normalised sum (360 for a positive whole turn), the stored rotation is its quantisation, and the rotated-original size is swapped for 90 and 270 and reset otherwise |
| Image.NormalizeUnique | src/image.c:207-217 | a value that differs from the sum by whole turns and lies in the range for the sum's sign is the normalised sum |
| Image.RotateByTurns | src/image.c:201-243 | rotating by whole turns leaves the stored rotation as it was |
| Image.RenderSize | src/image.c:245-251 | at zoom 100 a quarter turn swaps the current size and a half turn keeps it |
| Paths.Basename | src/file_multi.c:492 | "." for the empty path, "/" for slashes only, otherwise a non-empty component without `/` |
| Paths.Dirname | src/file_multi.c:524-532 | "." for a path without `/`, otherwise a non-empty prefix of the path |
| Paths.BasenameOfJoin | src/file_multi.c:231 | the name joined to a directory is the basename of the result |
| Paths.DirnameOfJoin | src/file_multi.c:231 | a directory not ending in `/`, joined to a name, is the dirname of the result |
| FileMulti.GetMethod | src/file_multi.c:457-475 | stdin exactly for "-"; http exactly for an http:// or https:// prefix in any case; ftp exactly for ftp:// anywhere otherwise; plain for the rest |
| FileMulti.CreateName | src/file_multi.c:485-496 | "stdin" for standard input; otherwise a non-empty basename that is ".", "/" or free of `/` |
| FileMulti.CreateExt | src/file_multi.c:505-515 | no extension exactly when the path has no `.`; otherwise the path ends with `.` and an extension free of `.` |
| FileMulti.CreateUri | src/file_multi.c:542-569 | "stdin"; file:// plus the path, the home directory for `~`, or the current directory for a relative path; a URL unchanged |
| FileMulti.SizeAfterStat | src/file_multi.c:353-367 | corrected get_size: a known size is kept, an unknown one is taken from a successful stat |
| FileMulti.SizeAsWritten | src/file_multi.c:359-364 | get_size as written: an unknown size is taken only when stat fails |
| FileMulti.SizeAsWrittenInverted | src/file_multi.c:359-364 | as written, a successful stat leaves the size unknown and a failed one stores a stale value |
| FileMulti.MultiFile.Open | src/file_multi.c:81-106 | nothing remembered, no temporary file, mtime -1, and a fetch needed exactly for non-plain methods; size starts at -1, the documented "not yet checked" value (see Left out) |
| FileMulti.MultiFile.GetPath | src/file_multi.c:335-344 | the temporary path when set, else the path |
| FileMulti.MultiFile.CloseTmp | src/file_multi.c:130-140 | the temporary path is cleared, nothing else changes, and a second call changes nothing |
| FileMulti.MultiFile.GetName | src/file_multi.c:263-272 | the name of the current path, computed once and remembered |
| FileMulti.MultiFile.GetExt | src/file_multi.c:281-290 | the extension, or "" when there is none, which is not remembered |
| FileMulti.MultiFile.GetUri | src/file_multi.c:299-308 | the URI of the current path, computed once and remembered |
| FileMulti.MultiFile.GetDir | src/file_multi.c:317-326 | the directory of the current path, computed once and remembered |
| FileMulti.MultiFile.GetMtime | src/file_multi.c:376-390 | a known mtime is kept; an unknown one is taken from a successful stat |
| FileMulti.MultiFile.GetSize | src/file_multi.c:353-367 | the corrected size rule |
| FileMulti.MultiFile.FetchWget | src/file_multi.c:660-726 | stop gives FALSE; exit status 0 clears need-fetch; any other status drops the temporary file; the result is whether need-fetch is clear |
| FileMulti.MultiFile.Fetch | src/file_multi.c:400-435 | TRUE with no change when no fetch is needed or a temporary file exists; FALSE when no temporary file can be made; standard input: the open outcome, with the temporary file kept and a fetch still needed; wget: stopped or not started keeps the temporary file and the need to fetch, exit 0 keeps the file and clears the need, any other exit drops the file |
| FileMulti.MultiFile.Rename | src/file_multi.c:224-254 | on success the path becomes directory/name, all remembered strings are forgotten, and a temporary path follows the new path; on failure the path is kept but the name and directory are remembered |
| FileMulti.WebUrlIsItsOwnUri | src/file_multi.c:465-468 | an http(s) path is fetched over http and is its own URI |
| FileMulti.RenameKeepsDirectory | src/file_multi.c:231-242 | after a rename the file is in the same directory under the new name |
| Thumb.HexDigit | src/thumb.c:367 | each nibble prints as a lower-case hex digit |
| Thumb.HexValue | src/thumb.c:367 | every lower-case hex digit is printed by exactly one nibble |
| Thumb.Hex | src/thumb.c:366-368 | the hex text has two lower-case hex digits per byte |
| Thumb.HexAt | src/thumb.c:366-368 | byte i becomes characters 2i (high nibble) and 2i+1 (low nibble) |
| Thumb.UnhexHex | src/thumb.c:366-368 | the hex text reads back as the digest |
| Thumb.HexInjective | src/thumb.c:366-368 | different digests have different hex texts |
| Thumb.HexOfDigest | src/thumb.c:364-373 | the loop over the 33-byte buffer yields exactly the 32-character hex text |
| Thumb.CacheOk | src/thumb.c:85-86 | only the sizes between 128 and 256 that are multiples of 128, namely 128 and 256, use the cache |
| Thumb.CachePath | src/thumb.c:330-334 | the path is home, "/.thumbnails/normal/", the hex digest and ".png" |
| Thumb.CachePathsDistinct | src/thumb.c:330-334 | different digests give different cache files |
| Thumb.CacheLoad | src/thumb.c:196-228 | a cached thumbnail is used exactly when its file exists and loads and its MTime text reads as the file's mtime |
| Thumb.SaveThenLoad | src/thumb.c:208-214 | a thumbnail saved with an mtime is found again for that mtime |
| Thumb.StaleAfterModification | src/thumb.c:212-217 | a changed mtime makes the saved thumbnail invalid |
| Thumb.ThumbCache.constructor | src/thumb.c:286-287 | both static flags start FALSE |
| Thumb.ThumbCache.CreateDirectory | src/thumb.c:283-315 | only the first call checks the disk; every call returns that first outcome |
| Thumb.ThumbCache.Save | src/thumb.c:238-275 | nothing is written without the directory; otherwise the thumbnail and its printed mtime go to the cache path when the save succeeds |
| Thumb.ThumbCache.Get | src/thumb.c:81-105 | the cache is read only for sides 128 and 256; a valid hit is returned unchanged; otherwise the new thumbnail is returned and saved when caching is asked for and the side is cacheable |
| Startup.ExitStatus | src/main.c:120 | main returns 1 for usage and a bad mode, otherwise 0 |
| Startup.ModeOf | src/main.c:134-146 | THUMB, FULL, SLIDE and ROOT in any case select 2, 0, 1 and -1; anything else is rejected |
| Startup.ModeOfIgnoresCase | src/main.c:135-141 | upper-casing the -m value does not change the mode |
| Startup.CountFiles | src/main.c:116-117 | the count is the number of entries before the terminating NULL |
| Startup.Start | src/main.c:113-204 | usage without files; a bad mode is rejected; without -m, SLIDE for more than one file and FULL otherwise; ROOT sets the background from the first file, centred, when it needs no fetch or the fetch succeeds |

## Left out

- I/O and the outside world are not modelled. They become parameters, each
  standing for what the real call returns:
  - reading the document (`doc`);
  - loading an image (`loaded`);
  - the screen size;
  - colour parsing and allocation (`lookup`);
  - the home and current directory (`Env`);
  - `mkstemp`'s name (`tmpName`);
  - whether the temporary file opens for standard input (`stdinOpens`);
  - how wget ended (`WgetRun`);
  - `stat`, `rename(2)` and `mkdir`;
  - the thumbnail decoded from the file (`made`);
  - the MD5 digest of the URI.
- Unlinking temporary files is not modelled. Copying standard input into
  the temporary file is not modelled either.
- The MD5 computation itself is not modelled. Only the formatting of the
  digest is.
- The spawning of wget and the polling, kill and wait loop are not modelled
  as such. They are summarised by the final exit status.
- Threads, the fetch queue and directory scanning are not modelled (the
  file-queue, directory-scan and fetch-thread sources are not part of this
  model). Neither are the GTK window, the main loop and option parsing.
- Installing the background on the X server is not modelled
  (`root_image_set_background`, `root_image_set_x11_background`,
  `root_image_free_background`).
- Root.CreateScaled: the bilinear scale with floating-point ratios is given
  as a parameter `scaled`. Only its placement on the canvas is stated.
- `image_zoom_fit` and `thumb_callback_size_prepared` are not modelled.
  Their ratios are floating point.
- Image.ZoomDim: the zoomed size is the exact quotient `d * zoom / 100`,
  not the product with the double `zoom * 0.01`. The two can differ by one
  where the double rounds below an exact integer.
- Image.Render: a zoomed size of 0 is not treated specially. The library
  would return no pixbuf there.
- Pixbufs.RotateSimple: pixbuf contents are symbolic terms, so rotation and
  scaling are stated by size and by how a pixbuf was derived, not pixel by
  pixel.
- FetchImg.GetImg: when the buffer ends right at the value's start, the
  guint length wraps to 2^32 - 1. The model takes that allocation to
  succeed. `g_strndup` then copies up to the buffer's NUL.
- FetchImg.GetBase: the URI must have at least 8 bytes, because the C
  code starts its search at `uri + 8`. In geh every fetched page's URI
  begins with `http://` or `https://`.
- FetchImg.ProbeImg: `toupper` is taken as ASCII folding, so the C
  locale's behaviour on other bytes is not modelled.
- Strings are sequences of characters. A C string is its bytes up to the
  first NUL, and paths and URIs are taken to be NUL-free.
- Three parts of file_multi are not modelled:
  - `file_multi_save` copies a file;
  - `file_multi_close` only frees memory, besides `close_tmp`;
  - `free_strings` also frees `path`, which `rename` replaces immediately.
- Thumb.ThumbCache.Save: of the text fields written with a thumbnail, only
  `Thumb::MTime` is modelled, because it is the only one read back. A
  failed save is taken to leave the cache unchanged.
- Startup.ModeOf: the -m value is compared with ASCII case folding.
  `g_strcasecmp` folds by the locale `gtk_set_locale` selects, so in a
  locale whose case mapping differs for ASCII letters (such as a
  single-byte Turkish one, where `i` does not fold to `I`) the real
  comparison can reject a value the model accepts.
- FileMulti.MultiFile.Open: `size` starts at -1, the "not yet checked"
  value that src/file_multi.h:57 documents. `file_multi_open` never sets
  it, so its real initial value is whatever `g_malloc` left there; -1 is
  the corrected initialisation of the Findings row.
- Startup.Start: the warning text on a failed fetch is not modelled. It
  names the last command-line argument rather than the file.

## Findings

| source | as written | input that shows it | evidently intended | confidence | as-written member | corrected member |
|---|---|---|---|---|---|---|
| src/file_multi.c:359-364 | `if (g_stat (...))` stores `st_size` only when `g_stat` fails, since it returns 0 on success. The stored value is then the unfilled stat buffer. `size` is also never set to -1 in `file_multi_open` | an unknown size (-1) and a `stat` that succeeds with size 42: the size stays -1 | store the size when `g_stat` succeeds, as `get_mtime` does at src/file_multi.c:383-387, with the size starting at -1 | high (not executed) | FileMulti.SizeAsWrittenInverted | FileMulti.MultiFile.GetSize |
