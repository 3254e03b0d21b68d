/**
 * root.c: composing a loaded image into a screen-sized background.
 * A base canvas is filled with one pixel value, then the mode decides how
 * the image is drawn on it.  Canvases are 2-D arrays indexed [x, y]
 * (Length0 is the width, Length1 the height); a pixel is a guint32.
 */
module Root {
  import opened Wrappers

  // Background modes (the ROOT_MODE_* enumeration in geh.h).
  const ModeCenter: nat := 0
  const ModeScale: nat := 1
  const ModeCrop: nat := 2
  const ModeFill: nat := 3
  const ModeTile: nat := 4
  const ModeNone: nat := 5

  type Pixel = x: int | 0 <= x < 0x1_0000_0000

  /**
   * What gdk_color_parse and gdk_colormap_alloc_color make of a colour
   * name: not parsed, or parsed with the allocated pixel if allocation
   * succeeded.
   */
  datatype ColorLookup = Unparsed | Parsed(alloc: Option<Pixel>)

  /** The colour used when none is given. */
  const DefaultColorName: string := "#000000"

  function ColorName(color: Option<string>): (name: string)
    ensures color.Some? ==> name == color.value
    ensures color.None? ==> name == DefaultColorName
  {
    match color
    case None => DefaultColorName
    case Some(c) => c
  }

  /** The fill of the base canvas: the allocated pixel, else 0 (black). */
  function BasePixel(lookup: ColorLookup): (p: Pixel)
    ensures lookup.Parsed? && lookup.alloc.Some? ==> p == lookup.alloc.value
    ensures !(lookup.Parsed? && lookup.alloc.Some?) ==> p == 0
  {
    match lookup
    case Parsed(Some(p)) => p
    case _ => 0
  }

  function Min(a: nat, b: nat): nat
  {
    if a < b then a else b
  }

  /**
   * Centring on one axis: a source wider than the destination is entered
   * half its excess in, otherwise the destination is entered half its
   * excess in.  The copied span of Min(src, dest) then lies within both,
   * one of the offsets is 0, and the two margins left over on the larger
   * side differ by at most one.
   */
  function CenterAxis(src: nat, dest: nat): (r: (nat, nat))
    ensures r.0 + Min(src, dest) <= src && r.1 + Min(src, dest) <= dest
    ensures r.0 == 0 || r.1 == 0
    ensures src > dest ==> r.1 == 0 && (src - dest - 2 * r.0 == 0 || src - dest - 2 * r.0 == 1)
    ensures src <= dest ==> r.0 == 0 && (dest - src - 2 * r.1 == 0 || dest - src - 2 * r.1 == 1)
  {
    if src > dest then ((src - dest) / 2, 0) else (0, (dest - src) / 2)
  }

  /** Whether (x, y) lies in the w-by-h rectangle whose corner is (x0, y0). */
  predicate InRect(x: int, y: int, x0: int, y0: int, w: int, h: int)
  {
    x0 <= x < x0 + w && y0 <= y < y0 + h
  }

  /** gdk_pixbuf_fill: every pixel of the canvas becomes `p`. */
  method Fill(canvas: array2<Pixel>, p: Pixel)
    modifies canvas
    ensures forall x, y :: 0 <= x < canvas.Length0 && 0 <= y < canvas.Length1 ==> canvas[x, y] == p
  {
    var x := 0;
    while x < canvas.Length0
      invariant 0 <= x <= canvas.Length0
      invariant forall i, j :: 0 <= i < x && 0 <= j < canvas.Length1 ==> canvas[i, j] == p
    {
      var y := 0;
      while y < canvas.Length1
        invariant 0 <= y <= canvas.Length1
        invariant forall i, j :: 0 <= i < x && 0 <= j < canvas.Length1 ==> canvas[i, j] == p
        invariant forall j :: 0 <= j < y ==> canvas[x, j] == p
      {
        canvas[x, y] := p;
        y := y + 1;
      }
      x := x + 1;
    }
  }

  /**
   * gdk_pixbuf_copy_area: the w-by-h rectangle at (sx, sy) of `src` is
   * copied to (dx, dy) of `dest`; the rest of `dest` and all of `src` are
   * left as they were.
   */
  method CopyArea(src: array2<Pixel>, sx: nat, sy: nat, w: nat, h: nat,
                  dest: array2<Pixel>, dx: nat, dy: nat)
    requires src != dest
    requires sx + w <= src.Length0 && sy + h <= src.Length1
    requires dx + w <= dest.Length0 && dy + h <= dest.Length1
    modifies dest
    ensures forall x, y :: 0 <= x < dest.Length0 && 0 <= y < dest.Length1 ==>
      dest[x, y] == if InRect(x, y, dx, dy, w, h) then src[x - dx + sx, y - dy + sy] else old(dest[x, y])
  {
    var i := 0;
    while i < w
      invariant 0 <= i <= w
      invariant forall x, y :: 0 <= x < dest.Length0 && 0 <= y < dest.Length1 ==>
        dest[x, y] == if InRect(x, y, dx, dy, i, h) then src[x - dx + sx, y - dy + sy] else old(dest[x, y])
    {
      var j := 0;
      while j < h
        invariant 0 <= j <= h
        invariant forall x, y :: 0 <= x < dest.Length0 && 0 <= y < dest.Length1 ==>
          dest[x, y] ==
            if InRect(x, y, dx, dy, i, h) || InRect(x, y, dx + i, dy, 1, j) then src[x - dx + sx, y - dy + sy]
            else old(dest[x, y])
      {
        dest[dx + i, dy + j] := src[sx + i, sy + j];
        j := j + 1;
      }
      i := i + 1;
    }
  }

  /**
   * root_image_create_base: a fresh screen-sized canvas filled with the
   * colour's pixel, or with 0 when the colour does not parse or cannot
   * be allocated.
   */
  method CreateBase(width: nat, height: nat, lookup: ColorLookup) returns (background: array2<Pixel>)
    ensures fresh(background)
    ensures background.Length0 == width && background.Length1 == height
    ensures forall x, y :: 0 <= x < width && 0 <= y < height ==> background[x, y] == BasePixel(lookup)
  {
    background := new Pixel[width, height];
    var pixel: Pixel := 0;
    if lookup.Parsed? && lookup.alloc.Some? {
      pixel := lookup.alloc.value;
    }
    Fill(background, pixel);
  }

  /** The rectangle Centre mode copies, as offsets into the image and the canvas. */
  datatype Placement = Placement(sx: nat, sy: nat, w: nat, h: nat, dx: nat, dy: nat)

  function Centering(imgW: nat, imgH: nat, destW: nat, destH: nat): (pl: Placement)
    ensures pl.w == Min(imgW, destW) && pl.h == Min(imgH, destH)
    ensures pl.sx + pl.w <= imgW && pl.sy + pl.h <= imgH
    ensures pl.dx + pl.w <= destW && pl.dy + pl.h <= destH
  {
    var (sx, dx) := CenterAxis(imgW, destW);
    var (sy, dy) := CenterAxis(imgH, destH);
    Placement(sx, sy, Min(imgW, destW), Min(imgH, destH), dx, dy)
  }

  /**
   * root_image_create_centered: the centred rectangle of the image is
   * copied onto the canvas, whose other pixels keep their value.
   */
  method CreateCentered(dest: array2<Pixel>, image: array2<Pixel>)
    requires dest != image
    modifies dest
    ensures var pl := Centering(image.Length0, image.Length1, dest.Length0, dest.Length1);
      forall x, y :: 0 <= x < dest.Length0 && 0 <= y < dest.Length1 ==>
        dest[x, y] ==
          if InRect(x, y, pl.dx, pl.dy, pl.w, pl.h) then image[x - pl.dx + pl.sx, y - pl.dy + pl.sy]
          else old(dest[x, y])
  {
    var srcX, destX := 0, 0;
    var srcY, destY := 0, 0;
    if image.Length0 > dest.Length0 {
      srcX := (image.Length0 - dest.Length0) / 2;
    } else {
      destX := (dest.Length0 - image.Length0) / 2;
    }
    if image.Length1 > dest.Length1 {
      srcY := (image.Length1 - dest.Length1) / 2;
    } else {
      destY := (dest.Length1 - image.Length1) / 2;
    }
    CopyArea(image, srcX, srcY, Min(dest.Length0, image.Length0), Min(dest.Length1, image.Length1),
             dest, destX, destY);
  }

  /**
   * root_image_create_scaled: gdk_pixbuf_scale over the whole canvas.
   * The interpolated pixel for each canvas position is supplied by
   * `scaled`, standing for the library's floating-point resampling.
   */
  method CreateScaled(dest: array2<Pixel>, scaled: (int, int) -> Pixel)
    modifies dest
    ensures forall x, y :: 0 <= x < dest.Length0 && 0 <= y < dest.Length1 ==> dest[x, y] == scaled(x, y)
  {
    var x := 0;
    while x < dest.Length0
      invariant 0 <= x <= dest.Length0
      invariant forall i, j :: 0 <= i < x && 0 <= j < dest.Length1 ==> dest[i, j] == scaled(i, j)
    {
      var y := 0;
      while y < dest.Length1
        invariant 0 <= y <= dest.Length1
        invariant forall i, j :: 0 <= i < x && 0 <= j < dest.Length1 ==> dest[i, j] == scaled(i, j)
        invariant forall j :: 0 <= j < y ==> dest[x, j] == scaled(x, j)
      {
        dest[x, y] := scaled(x, y);
        y := y + 1;
      }
      x := x + 1;
    }
  }

  /** root_image_create_cropped: not implemented; only a warning is logged. */
  method CreateCropped(dest: array2<Pixel>, image: array2<Pixel>) returns (warning: string)
    ensures warning == "cropped background mode is not yet supported"
  {
    warning := "cropped background mode is not yet supported";
  }

  /** root_image_create_filled: not implemented; only a warning is logged. */
  method CreateFilled(dest: array2<Pixel>, image: array2<Pixel>) returns (warning: string)
    ensures warning == "filled background mode is not yet supported"
  {
    warning := "filled background mode is not yet supported";
  }

  /** root_image_create_tiled: not implemented; it logs the same warning as Fill mode. */
  method CreateTiled(dest: array2<Pixel>, image: array2<Pixel>) returns (warning: string)
    ensures warning == "filled background mode is not yet supported"
  {
    warning := "filled background mode is not yet supported";
  }

  /**
   * The pixel Centre mode leaves at (x, y) of a canvas filled with `fill`.
   */
  function CenteredPixel(image: array2<Pixel>, destW: nat, destH: nat, fill: Pixel, x: int, y: int): Pixel
    reads image
  {
    var pl := Centering(image.Length0, image.Length1, destW, destH);
    if InRect(x, y, pl.dx, pl.dy, pl.w, pl.h) then image[x - pl.dx + pl.sx, y - pl.dy + pl.sy]
    else fill
  }

  /** An image at least as large as the canvas covers it: no fill shows, and the crop is centred. */
  lemma CenteredCoversCanvas(image: array2<Pixel>, destW: nat, destH: nat, fill: Pixel, x: int, y: int)
    requires image.Length0 >= destW && image.Length1 >= destH
    requires 0 <= x < destW && 0 <= y < destH
    ensures var sx := (image.Length0 - destW) / 2;
      var sy := (image.Length1 - destH) / 2;
      CenteredPixel(image, destW, destH, fill, x, y) == image[x + sx, y + sy]
  {
    var pl := Centering(image.Length0, image.Length1, destW, destH);
    assert pl.dx == 0 && pl.dy == 0 && pl.w == destW && pl.h == destH;
  }

  /** An image no larger than the canvas appears whole, entered half the spare room in. */
  lemma CenteredShowsWholeImage(image: array2<Pixel>, destW: nat, destH: nat, fill: Pixel, i: nat, j: nat)
    requires image.Length0 <= destW && image.Length1 <= destH
    requires i < image.Length0 && j < image.Length1
    ensures var dx := (destW - image.Length0) / 2;
      var dy := (destH - image.Length1) / 2;
      CenteredPixel(image, destW, destH, fill, dx + i, dy + j) == image[i, j]
  {
    var pl := Centering(image.Length0, image.Length1, destW, destH);
    assert pl.sx == 0 && pl.sy == 0 && pl.w == image.Length0 && pl.h == image.Length1;
  }

  /**
   * root_image_set_image with the windowing-system hand-over left out.
   * `loaded` is the result of loading the file (None on failure),
   * `lookup` resolves a colour name, and `scaled` stands for Scale mode's
   * resampling.  The result is FALSE on every path; on success the
   * background that is installed is returned as well.
   */
  method SetImage(color: Option<string>, mode: nat, loaded: Option<array2<Pixel>>,
                  screenW: nat, screenH: nat, lookup: string -> ColorLookup,
                  scaled: (int, int) -> Pixel)
    returns (ok: bool, background: Option<array2<Pixel>>)
    ensures !ok
    ensures loaded.None? <==> background.None?
    ensures background.Some? ==>
      var bg := background.value;
      var fill := BasePixel(lookup(ColorName(color)));
      fresh(bg) && bg.Length0 == screenW && bg.Length1 == screenH &&
      forall x, y :: 0 <= x < screenW && 0 <= y < screenH ==>
        bg[x, y] ==
          if mode == ModeCenter then CenteredPixel(loaded.value, screenW, screenH, fill, x, y)
          else if mode == ModeScale then scaled(x, y)
          else fill
  {
    var name := ColorName(color);
    if loaded.None? {
      return false, None;
    }
    var image := loaded.value;
    var bg := CreateBase(screenW, screenH, lookup(name));
    if mode == ModeCenter {
      CreateCentered(bg, image);
    } else if mode == ModeScale {
      CreateScaled(bg, scaled);
    } else if mode == ModeCrop {
      var _ := CreateCropped(bg, image);
    } else if mode == ModeFill {
      var _ := CreateFilled(bg, image);
    } else if mode == ModeTile {
      var _ := CreateTiled(bg, image);
    }
    return false, Some(bg);
  }
}
