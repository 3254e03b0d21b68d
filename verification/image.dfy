/**
 * image.c: an opened image, its current rendering and the zoom and
 * rotation bookkeeping that decide it.  Fields that are guint in the
 * source hold values below 2^32; signed arguments are gint.
 */
module Image {
  import opened Wrappers
  import opened CInt
  import opened Pixbufs
  import Orientation

  const ZoomMin: nat := 10
  const ZoomIdentity: nat := 100

  /**
   * A dimension at `zoom` percent.  The source multiplies by the double
   * zoom * 0.01 and truncates; this is the exact quotient.
   */
  function ZoomDim(d: nat, zoom: nat): (r: nat)
    ensures r * 100 <= d * zoom < (r + 1) * 100
    ensures zoom == ZoomIdentity ==> r == d
  {
    d * zoom / 100
  }

  /**
   * The current pixbuf image_update makes from the original: nothing to
   * do at rotation 0 and zoom 100; otherwise rotate when the rotation is
   * not 0, then scale to the zoomed size when the zoom is not 100.
   */
  function Render(orig: Pixbuf, rotation: nat, zoom: nat): (curr: Pixbuf)
    ensures rotation == 0 && zoom == ZoomIdentity ==> curr == orig
    ensures zoom == ZoomIdentity && rotation != 0 ==> curr == RotateSimple(orig, rotation)
    ensures zoom != ZoomIdentity ==>
      var turned := if rotation == 0 then orig else RotateSimple(orig, rotation);
      curr.width == ZoomDim(turned.width, zoom) && curr.height == ZoomDim(turned.height, zoom)
  {
    if rotation == 0 && zoom == ZoomIdentity then orig
    else
      var turned := if rotation != 0 then RotateSimple(orig, rotation) else orig;
      if zoom != ZoomIdentity then ScaleSimple(turned, ZoomDim(turned.width, zoom), ZoomDim(turned.height, zoom))
      else turned
  }

  predicate IsRightAngle(r: int)
  {
    r == 0 || r == 90 || r == 180 || r == 270
  }

  /** image_rotate_set's sanitising: down to a multiple of 90, and 360 or more to 0. */
  function Quantize(r: nat): (q: nat)
    ensures IsRightAngle(q)
    ensures r < 360 ==> q <= r < q + 90
    ensures r >= 360 ==> q == 0
  {
    var q := r - r % 90;
    if q >= 360 then 0 else q
  }

  /**
   * image_rotate's normalisation: a positive sum is brought into
   * (0, 360] and a negative one into [0, 360) by whole turns.
   */
  function Normalize(s: int): (r: int)
    ensures (r - s) % 360 == 0
    ensures s > 0 ==> 0 < r <= 360
    ensures s < 0 ==> 0 <= r < 360
    ensures s == 0 ==> r == 0
  {
    if s > 0 then (s - 1) % 360 + 1
    else if s < 0 then s % 360
    else 0
  }

  class Image {
    var pixOrig: Pixbuf
    var pixCurr: Pixbuf
    var widthOrig: nat
    var heightOrig: nat
    var widthROrig: nat
    var heightROrig: nat
    var widthCurr: nat
    var heightCurr: nat
    var zoom: nat
    var rotation: nat

    /**
     * The zoom is at least 10 and a guint, the rotation a right angle,
     * the original size that of the (oriented) original pixbuf, and the
     * current pixbuf and size what image_update makes of them.
     */
    ghost predicate Valid()
      reads this
    {
      ZoomMin <= zoom && IsGuint(zoom) && IsRightAngle(rotation) &&
      widthOrig == pixOrig.width && heightOrig == pixOrig.height &&
      pixCurr == Render(pixOrig, rotation, zoom) &&
      widthCurr == pixCurr.width && heightCurr == pixCurr.height
    }

    constructor FromFields(orig: Pixbuf, width: nat, height: nat, widthR: nat, heightR: nat)
      requires width == orig.width && height == orig.height
      ensures Valid()
      ensures pixOrig == orig && pixCurr == orig
      ensures widthOrig == orig.width && heightOrig == orig.height
      ensures widthROrig == widthR && heightROrig == heightR
      ensures widthCurr == orig.width && heightCurr == orig.height
      ensures zoom == ZoomIdentity && rotation == 0
    {
      pixOrig := orig;
      pixCurr := orig;
      widthOrig, heightOrig := width, height;
      widthROrig, heightROrig := widthR, heightR;
      widthCurr, heightCurr := width, height;
      zoom := ZoomIdentity;
      rotation := 0;
    }

    /**
     * image_open: None when the file does not load.  Otherwise the
     * rotated-original size is the size as loaded, the original size and
     * pixbuf are those after the file's orientation (if it has one) is
     * applied, the current pixbuf is a copy of the original, the zoom is
     * 100 and the rotation 0.
     */
    static method Open(loaded: Option<Pixbuf>, orientation: Option<string>) returns (im: Option<Image>)
      ensures loaded.None? ==> im.None?
      ensures loaded.Some? ==> im.Some? && fresh(im.value) && im.value.Valid()
      ensures loaded.Some? ==>
        var p := loaded.value;
        var angle := if orientation.Some? then Orientation.RotationFor(orientation.value) else 0;
        var i := im.value;
        i.widthROrig == p.width && i.heightROrig == p.height &&
        i.pixOrig == (if angle == 0 then p else RotateSimple(p, angle)) &&
        i.pixCurr == i.pixOrig && i.zoom == ZoomIdentity && i.rotation == 0
    {
      if loaded.None? {
        return None;
      }
      var pix := loaded.value;
      var width, height := pix.width, pix.height;
      if orientation.Some? {
        pix, width, height := Orientation.Transform(pix, width, height, orientation.value);
      }
      var image := new Image.FromFields(pix, width, height, loaded.value.width, loaded.value.height);
      im := Some(image);
    }

    /**
     * image_update: the current pixbuf is rebuilt from the original, and
     * the current size read back from it.
     */
    method Update()
      modifies this
      ensures pixCurr == Render(pixOrig, rotation, zoom)
      ensures widthCurr == pixCurr.width && heightCurr == pixCurr.height
      ensures pixOrig == old(pixOrig) && zoom == old(zoom) && rotation == old(rotation)
      ensures widthOrig == old(widthOrig) && heightOrig == old(heightOrig)
      ensures widthROrig == old(widthROrig) && heightROrig == old(heightROrig)
    {
      if rotation == 0 && zoom == ZoomIdentity {
        pixCurr := pixOrig;
      } else {
        if rotation != 0 {
          pixCurr := RotateSimple(pixOrig, rotation);
        } else {
          pixCurr := pixOrig;
        }
        if zoom != ZoomIdentity {
          widthCurr := ZoomDim(pixCurr.width, zoom);
          heightCurr := ZoomDim(pixCurr.height, zoom);
          pixCurr := ScaleSimple(pixCurr, widthCurr, heightCurr);
        }
      }
      widthCurr := pixCurr.width;
      heightCurr := pixCurr.height;
    }

    /**
     * image_zoom_set: a zoom below 10 is raised to 10; the image is
     * re-rendered only when that differs from the current zoom, and is
     * otherwise left exactly as it was.
     */
    method ZoomSet(z: nat)
      requires Valid() && IsGuint(z)
      modifies this
      ensures Valid()
      ensures zoom == if z < ZoomMin then ZoomMin else z
      ensures rotation == old(rotation) && pixOrig == old(pixOrig)
      ensures widthROrig == old(widthROrig) && heightROrig == old(heightROrig)
      ensures old(zoom) == zoom ==> unchanged(this)
    {
      var target := z;
      if target < ZoomMin {
        target := ZoomMin;
      }
      if zoom != target {
        zoom := target;
        Update();
      }
    }

    /**
     * image_zoom: the new zoom is the guint sum of the current zoom and
     * the gint delta (wrapping around); the delta itself is returned as
     * a guint, not the resulting zoom.
     */
    method Zoom(delta: int) returns (r: nat)
      requires Valid() && IsGint(delta)
      modifies this
      ensures Valid()
      ensures r == Guint(delta)
      ensures var z := Guint(old(zoom) + delta); zoom == if z < ZoomMin then ZoomMin else z
      ensures rotation == old(rotation) && pixOrig == old(pixOrig)
      ensures widthROrig == old(widthROrig) && heightROrig == old(heightROrig)
    {
      ZoomSet(Guint(zoom + delta));
      r := Guint(delta);
    }

    /**
     * image_rotate_set: the requested rotation is rounded down to a
     * multiple of 90, and 360 or more becomes 0; the rotated original
     * size is the original size swapped for 90 and 270 and the original
     * size otherwise; the image is re-rendered.
     */
    method RotateSet(r: nat)
      requires Valid() && IsGuint(r)
      modifies this
      ensures Valid()
      ensures rotation == Quantize(r)
      ensures rotation == 90 || rotation == 270 ==> widthROrig == heightOrig && heightROrig == widthOrig
      ensures rotation == 0 || rotation == 180 ==> widthROrig == widthOrig && heightROrig == heightOrig
      ensures zoom == old(zoom) && pixOrig == old(pixOrig)
    {
      var q := r - r % 90;
      if q >= 360 {
        q := 0;
      }
      rotation := q;
      if q == 90 || q == 270 {
        widthROrig := heightOrig;
        heightROrig := widthOrig;
      } else {
        widthROrig := widthOrig;
        heightROrig := heightOrig;
      }
      Update();
    }

    /**
     * image_rotate: the gint sum of the delta and the current rotation is
     * normalised by whole turns into 0..360, passed to image_rotate_set
     * and returned.  A sum that is a positive multiple of 360 is returned
     * as 360 and stored as 0.
     */
    method Rotate(delta: int) returns (r: nat)
      requires Valid() && IsGint(delta)
      modifies this
      ensures Valid()
      ensures r == Normalize(Gint(delta + old(rotation)))
      ensures rotation == Quantize(r)
      ensures rotation == 90 || rotation == 270 ==> widthROrig == heightOrig && heightROrig == widthOrig
      ensures rotation == 0 || rotation == 180 ==> widthROrig == widthOrig && heightROrig == heightOrig
      ensures zoom == old(zoom) && pixOrig == old(pixOrig)
    {
      var rot := Gint(delta + rotation);
      ghost var sum := rot;
      ghost var turns := 0;
      if rot > 0 {
        while rot > 360
          invariant 0 < rot <= sum && rot == sum + 360 * turns
          decreases rot
        {
          rot := rot - 360;
          turns := turns - 1;
        }
      } else if rot < 0 {
        while rot < 0
          invariant sum <= rot < 360 && rot == sum + 360 * turns
          decreases -rot
        {
          rot := rot + 360;
          turns := turns + 1;
        }
      }
      NormalizeUnique(sum, rot, turns);
      RotateSet(rot);
      r := rot;
    }
  }

  /** Normalize picks the one value congruent to the sum in the range its sign allows. */
  lemma NormalizeUnique(s: int, r: int, turns: int)
    requires r == s + 360 * turns
    requires s > 0 ==> 0 < r <= 360
    requires s < 0 ==> 0 <= r < 360
    requires s == 0 ==> r == 0
    ensures r == Normalize(s)
  {
    var n := Normalize(s);
    var m := (n - s) / 360;
    assert n - s == 360 * m;
    assert r - n == 360 * (turns - m);
  }

  /** Rotating by whole turns comes back to the same stored rotation. */
  lemma RotateByTurns(rotation: nat, k: int)
    requires IsRightAngle(rotation)
    requires IsGint(rotation + 360 * k)
    ensures Quantize(Normalize(rotation + 360 * k)) == rotation
  {
    var s := rotation + 360 * k;
    if rotation == 0 && s > 0 {
      NormalizeUnique(s, 360, 1 - k);
    } else {
      NormalizeUnique(s, rotation, -k);
    }
  }

  /** Quarter turns of the rotated original swap its size; half turns keep it. */
  lemma RenderSize(orig: Pixbuf, rotation: nat)
    requires IsRightAngle(rotation)
    ensures var c := Render(orig, rotation, ZoomIdentity);
      (rotation == 90 || rotation == 270 ==> c.width == orig.height && c.height == orig.width) &&
      (rotation == 0 || rotation == 180 ==> c.width == orig.width && c.height == orig.height)
  {
  }
}
