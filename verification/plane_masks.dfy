/**
 Eight-bit plane masks: a mask is known by the planes whose bit it has.
 */
module PlaneMasks {
  const MAX_PLANES: nat := 8

  type Mask = bv8

  /** `mask & (1 << p)`. */
  predicate Has(mask: Mask, p: nat)
    decreases p
  {
    if p == 0 then mask & 1 != 0 else Has(mask >> 1, p - 1)
  }

  /** `1 << p`. */
  function PlaneBit(p: nat): Mask
    requires p < MAX_PLANES
  {
    match p
    case 0 => 0x01
    case 1 => 0x02
    case 2 => 0x04
    case 3 => 0x08
    case 4 => 0x10
    case 5 => 0x20
    case 6 => 0x40
    case _ => 0x80
  }

  lemma ShiftedOr(a: Mask, b: Mask)
    ensures (a | b) >> 1 == (a >> 1) | (b >> 1) && ((a | b) & 1 != 0 <==> a & 1 != 0 || b & 1 != 0)
  {
  }

  lemma ShiftedAnd(a: Mask, b: Mask)
    ensures (a & b) >> 1 == (a >> 1) & (b >> 1) && ((a & b) & 1 != 0 <==> a & 1 != 0 && b & 1 != 0)
  {
  }

  lemma ShiftedMinus(a: Mask, b: Mask)
    ensures (a & !b) >> 1 == (a >> 1) & !(b >> 1) && ((a & !b) & 1 != 0 <==> a & 1 != 0 && b & 1 == 0)
  {
  }

  lemma {:induction false} HasOr(a: Mask, b: Mask, p: nat)
    ensures Has(a | b, p) <==> Has(a, p) || Has(b, p)
    decreases p
  {
    ShiftedOr(a, b);
    if p > 0 { HasOr(a >> 1, b >> 1, p - 1); }
  }

  lemma {:induction false} HasAnd(a: Mask, b: Mask, p: nat)
    ensures Has(a & b, p) <==> Has(a, p) && Has(b, p)
    decreases p
  {
    ShiftedAnd(a, b);
    if p > 0 { HasAnd(a >> 1, b >> 1, p - 1); }
  }

  lemma {:induction false} HasMinus(a: Mask, b: Mask, p: nat)
    ensures Has(a & !b, p) <==> Has(a, p) && !Has(b, p)
    decreases p
  {
    ShiftedMinus(a, b);
    if p > 0 { HasMinus(a >> 1, b >> 1, p - 1); }
  }

  lemma {:induction false} HasNone(p: nat)
    ensures !Has(0, p)
    decreases p
  {
    if p > 0 {
      assert 0 as Mask >> 1 == 0;
      HasNone(p - 1);
    }
  }

  lemma NextBit(p: nat)
    requires 0 < p < MAX_PLANES
    ensures PlaneBit(p) >> 1 == PlaneBit(p - 1) && PlaneBit(p) & 1 == 0
  {
  }

  lemma {:induction false} HasBit(p: nat, q: nat)
    requires p < MAX_PLANES
    ensures Has(PlaneBit(p), q) <==> p == q
    decreases q
  {
    if p == 0 {
      if q > 0 {
        assert PlaneBit(0) >> 1 == 0;
        HasNone(q - 1);
      }
    } else {
      NextBit(p);
      if q > 0 { HasBit(p - 1, q - 1); }
    }
  }

  lemma Halves(a: Mask, b: Mask)
    requires a & 1 != 0 <==> b & 1 != 0
    requires a >> 1 == b >> 1
    ensures a == b
  {
  }

  /** No bit at or above n. */
  predicate Short(a: Mask, n: nat)
    decreases n
  {
    if n == 0 then a == 0 else Short(a >> 1, n - 1)
  }

  lemma EightBits(a: Mask)
    ensures Short(a, MAX_PLANES)
  {
    assert a >> 1 >> 1 >> 1 >> 1 >> 1 >> 1 >> 1 >> 1 == 0;
    assert Short(a >> 1 >> 1 >> 1 >> 1, 4);
    assert Short(a, 8);
  }

  lemma {:induction false} SameShort(a: Mask, b: Mask, n: nat)
    requires Short(a, n) && Short(b, n) && forall p :: 0 <= p < n ==> Has(a, p) == Has(b, p)
    ensures a == b
    decreases n
  {
    if n > 0 {
      assert Has(a, 0) == Has(b, 0);
      var ha, hb := a >> 1, b >> 1;
      forall p | 0 <= p < n - 1 ensures Has(ha, p) == Has(hb, p) {
        assert Has(a, p + 1) == Has(b, p + 1);
      }
      SameShort(ha, hb, n - 1);
      Halves(a, b);
    }
  }

  /** Two masks with the same planes are the same mask. */
  lemma SameBits(a: Mask, b: Mask)
    requires forall p :: 0 <= p < MAX_PLANES ==> Has(a, p) == Has(b, p)
    ensures a == b
  {
    EightBits(a);
    EightBits(b);
    SameShort(a, b, MAX_PLANES);
  }

  // ------------------------------------------------------------ masks as sets of planes

  function Planes(mask: Mask): (planes: set<nat>)
    ensures forall p :: p in planes <==> 0 <= p < MAX_PLANES && Has(mask, p)
  {
    set p: nat | p < MAX_PLANES && Has(mask, p)
  }

  lemma PlanesOr(a: Mask, b: Mask)
    ensures Planes(a | b) == Planes(a) + Planes(b)
  {
    forall p ensures p in Planes(a | b) <==> p in Planes(a) + Planes(b) {
      if 0 <= p { HasOr(a, b, p); }
    }
  }

  lemma PlanesMinus(a: Mask, b: Mask)
    ensures Planes(a & !b) == Planes(a) - Planes(b)
  {
    forall p ensures p in Planes(a & !b) <==> p in Planes(a) - Planes(b) {
      if 0 <= p { HasMinus(a, b, p); }
    }
  }

  lemma PlanesAnd(a: Mask, b: Mask)
    ensures Planes(a & b) == Planes(a) * Planes(b)
  {
    forall p ensures p in Planes(a & b) <==> p in Planes(a) * Planes(b) {
      if 0 <= p { HasAnd(a, b, p); }
    }
  }

  lemma PlanesBit(p: nat)
    requires p < MAX_PLANES
    ensures Planes(PlaneBit(p)) == {p}
  {
    forall q ensures q in Planes(PlaneBit(p)) <==> q == p {
      if 0 <= q { HasBit(p, q); }
    }
  }

  lemma PlanesWith(mask: Mask, p: nat)
    requires p < MAX_PLANES
    ensures Planes(mask | PlaneBit(p)) == Planes(mask) + {p}
  {
    PlanesOr(mask, PlaneBit(p));
    PlanesBit(p);
  }

  lemma PlanesNone()
    ensures Planes(0) == {}
  {
    forall p: nat ensures p !in Planes(0) { HasNone(p); }
  }

  lemma SamePlanes(a: Mask, b: Mask)
    requires Planes(a) == Planes(b)
    ensures a == b
  {
    forall p | 0 <= p < MAX_PLANES ensures Has(a, p) == Has(b, p) {
      assert p in Planes(a) <==> p in Planes(b);
    }
    SameBits(a, b);
  }

  lemma SameMask(a: Mask, b: Mask)
    ensures a == b <==> Planes(a) == Planes(b)
  {
    if Planes(a) == Planes(b) { SamePlanes(a, b); }
  }

  lemma Complement(a: Mask, data: Mask)
    requires Within(a, data)
    ensures Planes(a) <= Planes(data) && Planes(data & !a) == Planes(data) - Planes(a)
  {
    PlanesAnd(a, data);
    PlanesMinus(data, a);
  }

  /** The mask of the planes below n in a set. */
  function MaskOf(planes: set<nat>, n: nat): Mask
    requires n <= MAX_PLANES
  {
    if n == 0 then 0
    else if n - 1 in planes then MaskOf(planes, n - 1) | PlaneBit(n - 1)
    else MaskOf(planes, n - 1)
  }

  lemma {:induction false} MaskOfHas(planes: set<nat>, n: nat, p: nat)
    requires n <= MAX_PLANES
    ensures Has(MaskOf(planes, n), p) <==> p < n && p in planes
  {
    if n == 0 {
      HasNone(p);
    } else {
      MaskOfHas(planes, n - 1, p);
      HasBit(n - 1, p);
      HasOr(MaskOf(planes, n - 1), PlaneBit(n - 1), p);
    }
  }

  lemma PlanesOfMask(planes: set<nat>)
    requires forall p :: p in planes ==> p < MAX_PLANES
    ensures Planes(MaskOf(planes, MAX_PLANES)) == planes
  {
    forall p: nat ensures p in Planes(MaskOf(planes, MAX_PLANES)) <==> p in planes {
      MaskOfHas(planes, MAX_PLANES, p);
    }
  }

  lemma JoinedMask(a: Mask, b: Mask, planes: set<nat>)
    requires planes == Planes(a) + Planes(b)
    ensures a | b == MaskOf(planes, MAX_PLANES)
  {
    PlanesOr(a, b);
    PlanesOfMask(planes);
    SamePlanes(a | b, MaskOf(planes, MAX_PLANES));
  }

  // ------------------------------------------------------------ arithmetic on masks

  predicate Within(a: Mask, data: Mask) { a & data == a }

  /** `data & (0 - data)`: the lowest plane. */
  function First(data: Mask): Mask { data & (0 - data) }

  lemma FirstIsOne(data: Mask)
    requires data != 0
    ensures First(data) != 0 && Within(First(data), data)
  {
  }

  lemma InsideFirst(data: Mask, a: Mask)
    requires a & !First(data) == 0 && a != 0
    ensures a == First(data)
  {
  }

  lemma FirstOrNone(data: Mask, a: Mask)
    ensures a & First(data) == 0 || a & First(data) == First(data)
  {
  }

  /** `(a - 1) & data`: what the loop visits after a. */
  function Next(a: Mask, data: Mask): Mask { (a - 1) & data }

  /** It is the largest submask below a, so no submask is missed and none comes twice. */
  lemma NextIsLargestBelow(a: Mask, data: Mask, other: Mask)
    requires a != 0 && Within(a, data) && Within(other, data)
    ensures Within(Next(a, data), data)
    ensures other > Next(a, data) <==> other >= a
  {
  }

  lemma NextBelow(a: Mask, data: Mask)
    requires a != 0
    ensures Next(a, data) < a && Next(a, data) as nat < a as nat
  {
  }

  lemma WithinTop(a: Mask, data: Mask)
    requires Within(a, data)
    ensures a <= data
  {
  }
}
