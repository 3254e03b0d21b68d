/**
 * GdkPixbuf values as the viewer uses them: a size and a symbolic
 * description of how the pixels were produced.  Rotation and scaling are
 * library operations whose pixel arithmetic is not modelled; only their
 * effect on the size is.
 */
module Pixbufs {
  /** How a pixbuf's pixels came about. */
  datatype Content =
    | Decoded(source: nat)
    | Rotated(base: Content, angle: nat)
    | Scaled(base: Content, toWidth: nat, toHeight: nat)

  datatype Pixbuf = Pixbuf(width: nat, height: nat, content: Content)

  predicate IsQuarterTurn(angle: nat)
  {
    angle == 90 || angle == 270
  }

  /**
   * gdk_pixbuf_rotate_simple: a quarter turn swaps width and height, any
   * other angle keeps them.
   */
  function RotateSimple(p: Pixbuf, angle: nat): (r: Pixbuf)
    ensures IsQuarterTurn(angle) ==> r.width == p.height && r.height == p.width
    ensures !IsQuarterTurn(angle) ==> r.width == p.width && r.height == p.height
    ensures r.content == Rotated(p.content, angle)
  {
    if IsQuarterTurn(angle) then Pixbuf(p.height, p.width, Rotated(p.content, angle))
    else Pixbuf(p.width, p.height, Rotated(p.content, angle))
  }

  /** gdk_pixbuf_scale_simple: a pixbuf of the requested size. */
  function ScaleSimple(p: Pixbuf, width: nat, height: nat): (r: Pixbuf)
    ensures r.width == width && r.height == height
    ensures r.content == Scaled(p.content, width, height)
  {
    Pixbuf(width, height, Scaled(p.content, width, height))
  }
}
