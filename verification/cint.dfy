/**
 * C integer conversions: storing an arbitrary integer in a guint (32-bit
 * unsigned) or a gint (32-bit two's complement) keeps it modulo 2^32.
 */
module CInt {
  const Two32: int := 0x1_0000_0000
  const Int32Min: int := -0x8000_0000
  const Int32Max: int := 0x7FFF_FFFF

  predicate IsGuint(v: int)
  {
    0 <= v < Two32
  }

  predicate IsGint(v: int)
  {
    Int32Min <= v <= Int32Max
  }

  /** A value stored in a guint: reduced modulo 2^32. */
  function Guint(d: int): (r: nat)
    ensures IsGuint(r) && (r - d) % Two32 == 0
    ensures IsGuint(d) ==> r == d
  {
    d % Two32
  }

  /** A value stored in a gint: the representative of d modulo 2^32 in the signed range. */
  function Gint(d: int): (r: int)
    ensures IsGint(r) && (r - d) % Two32 == 0
    ensures IsGint(d) ==> r == d
  {
    var u := d % Two32;
    if u <= Int32Max then u else u - Two32
  }
}
