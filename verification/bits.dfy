/**
 Machine words known by their one bits.  And, or and complement of a word are the
 set operations; only arithmetic on words needs more (plane_masks.dfy).
 */
module Bits {
  type Bits = set<nat>

  const LONG: Bits := set i: nat | i < 32
  const BYTE: Bits := set i: nat | i < 8

  /** A pixel of up to 32 bits. */
  type Pixel = p: Bits | p <= LONG witness {}

  /** What a write mask lets through. */
  function Masked(old_: Pixel, pen: Pixel, writeMask: Bits): Pixel {
    (old_ - writeMask) + (pen * writeMask)
  }

  lemma FullMask(old_: Pixel, pen: Pixel)
    ensures Masked(old_, pen, LONG) == pen
  {
  }
}
