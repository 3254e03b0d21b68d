/**
 * orientation.c: applying the Exif Orientation tag (tag 274 of TIFF 6.0,
 * section 8) when an image is opened.  Only the three pure rotations are
 * applied; the mirrored values are ignored.
 */
module Orientation {
  import opened CText
  import opened Pixbufs

  // The values of the Orientation tag (enum orientation in orientation.h).
  const TopLeftSide: int := 1
  const TopRightSide: int := 2
  const BottomRightSide: int := 3
  const BottomLeftSide: int := 4
  const LeftSideTop: int := 5
  const RightSideTop: int := 6
  const RightSideBottom: int := 7
  const LeftSideBottom: int := 8

  /**
   * Whether g_ascii_strtoll consumed the whole string: the byte it stopped
   * at is the terminating NUL (or the end of the text).
   */
  predicate ParsedWhole(orientation: string)
  {
    var p := ParseLong(orientation);
    p.end == |orientation| || orientation[p.end] == '\0'
  }

  /**
   * The rotation the orientation string asks for: 180 for value 3, 270
   * for 6, 90 for 8; 0 (nothing to do) for every other value and for a
   * string that is not entirely a decimal integer.
   */
  function RotationFor(orientation: string): (angle: nat)
    ensures angle == 0 || angle == 90 || angle == 180 || angle == 270
    ensures angle != 0 ==> ParsedWhole(orientation)
    ensures ParsedWhole(orientation) && ParseLong(orientation).value == BottomRightSide ==> angle == 180
    ensures ParsedWhole(orientation) && ParseLong(orientation).value == RightSideTop ==> angle == 270
    ensures ParsedWhole(orientation) && ParseLong(orientation).value == LeftSideBottom ==> angle == 90
    ensures ParsedWhole(orientation) && ParseLong(orientation).value !in {BottomRightSide, RightSideTop, LeftSideBottom} ==>
      angle == 0
  {
    if !ParsedWhole(orientation) then 0
    else
      var v := ParseLong(orientation).value;
      if v == BottomRightSide then 180
      else if v == RightSideTop then 270
      else if v == LeftSideBottom then 90
      else 0
  }

  /**
   * orientation_transform: the pixbuf, width and height written back
   * through the out-parameters.  A rotation replaces the pixbuf; the
   * quarter turns also swap width and height.  Otherwise all three are
   * returned unchanged.
   */
  method Transform(pix: Pixbuf, width: nat, height: nat, orientation: string)
    returns (pixOut: Pixbuf, widthOut: nat, heightOut: nat)
    ensures var angle := RotationFor(orientation);
      pixOut == (if angle == 0 then pix else RotateSimple(pix, angle))
    ensures IsQuarterTurn(RotationFor(orientation)) ==> widthOut == height && heightOut == width
    ensures !IsQuarterTurn(RotationFor(orientation)) ==> widthOut == width && heightOut == height
  {
    pixOut, widthOut, heightOut := pix, width, height;
    var p := ParseLong(orientation);
    if p.end < |orientation| && orientation[p.end] != '\0' {
      return;
    }
    var rotated: Pixbufs.Pixbuf;
    var haveRotated := false;
    if p.value == BottomRightSide {
      rotated, haveRotated := RotateSimple(pix, 180), true;
    } else if p.value == RightSideTop {
      rotated, haveRotated := RotateSimple(pix, 270), true;
      var tmp := widthOut;
      widthOut := heightOut;
      heightOut := tmp;
    } else if p.value == LeftSideBottom {
      rotated, haveRotated := RotateSimple(pix, 90), true;
      var tmp := widthOut;
      widthOut := heightOut;
      heightOut := tmp;
    }
    if haveRotated {
      pixOut := rotated;
    }
  }

  /**
   * The tag written as a decimal number is read back exactly, so only 3,
   * 6 and 8 rotate.
   */
  lemma RotationForValue(v: int)
    requires LongMin <= v <= LongMax
    ensures RotationFor(FormatLong(v)) ==
      if v == BottomRightSide then 180
      else if v == RightSideTop then 270
      else if v == LeftSideBottom then 90
      else 0
  {
    FormatLongRoundTrip(v);
  }

  /** A string with text after the number is ignored. */
  lemma TrailingTextIgnored(v: int, rest: string)
    requires LongMin <= v <= LongMax
    requires |rest| > 0 && !IsDigit(rest[0]) && rest[0] != '\0'
    ensures RotationFor(FormatLong(v) + rest) == 0
  {
    var s := FormatLong(v);
    FormatLongThenText(v, rest);
    assert (s + rest)[|s|] == rest[0];
  }
}
