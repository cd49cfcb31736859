/**
 The two planar blits (SubmitPlanarChunky, ClassifyPlanarDirect and
 SubmitPlanarDirect in src/radeon_accel.c): a planar rectangle becomes chunky
 pixels, or is translated through a colour table, by a short list of passes.
 */
module PlanarBlits {
  import opened Words
  import opened Bits
  import opened Surfaces
  import opened Planar
  import opened PlanarPasses

  // ------------------------------------------------------------ what a planar pixel is

  /** The colour index of a pixel of the rectangle: every plane's bit, constant planes included. */
  function PixelIndex(source: PlanarSource, rect: Rect, r: int, c: int): (index: Bits)
    requires Sourced(source, rect)
  {
    if 0 <= r < rect.height && 0 <= c < rect.width then
      set p: nat | p < source.Depth() && source.Pixel(p, r, c, rect.width, rect.height)
    else {}
  }

  /** Of the planes below p those that the mask selects and that are NULL, all ones, or real. */
  function ZeroPlanes(source: PlanarSource, mask: Bits, p: nat): Bits
    requires p <= source.Depth()
  {
    set q: nat | q < p && q in mask && source.planes[q].Zero?
  }

  function OnesPlanes(source: PlanarSource, mask: Bits, p: nat): Bits
    requires p <= source.Depth()
  {
    set q: nat | q < p && q in mask && source.planes[q].Ones?
  }

  function DataPlanes(source: PlanarSource, mask: Bits, p: nat): Bits
    requires p <= source.Depth()
  {
    set q: nat | q < p && q in mask && source.planes[q].Data?
  }

  // ------------------------------------------------------------ solid fills

  function SolidMap(pen: Pixel, writeMask: Bits): PixelMap {
    (r: int, c: int, p: Pixel) => Masked(p, pen, writeMask)
  }

  /** SubmitSolidRect with a copying raster operation, as far as pixels go. */
  method SolidRect(image: Image, rect: Rect, pen: Pixel, writeMask: Bits)
    requires rect.Fits(image)
    modifies image
    ensures Painted(old(image[..]), image[..], rect, SolidMap(pen, writeMask), rect.height)
  {
    ghost var before, f := image[..], SolidMap(pen, writeMask);
    for row := 0 to rect.height
      invariant Painted(before, image[..], rect, f, row)
    {
      assert LinePainted(before[rect.y + row], image[..][rect.y + row], rect, rect.y + row, f, row);
      var line := image[rect.y + row];
      var drawn := seq(|line|, j requires 0 <= j < |line| =>
        if rect.InColumns(j) then Masked(line[j], pen, writeMask) else line[j]);
      PaintedGrows(before, image[..], rect, f, row, drawn);
      image[rect.y + row] := drawn;
    }
  }

  // ------------------------------------------------------------ planar to chunky

  /** A pixel in which the planes of `done` have taken the bits of the planar pixel. */
  function ChunkyMap(source: PlanarSource, rect: Rect, done: Bits): PixelMap
    requires Sourced(source, rect)
  {
    (r: int, c: int, old_: Pixel) => Masked(old_, PixelIndex(source, rect, r, c) * LONG, done)
  }

  /** The data planes below p join the constant ones. */
  function Done(source: PlanarSource, write: Bits, p: nat): Bits
    requires p <= source.Depth()
  {
    ZeroPlanes(source, write, source.Depth()) + OnesPlanes(source, write, source.Depth()) + DataPlanes(source, write, p)
  }

  function PlanePens(p: nat): Pens { Pens(BYTE, {}, {p}, false) }

  /** Filling the constant planes. */
  lemma ConstantStep(source: PlanarSource, rect: Rect, zeros: Bits, ones: Bits, r: int, c: int, old_: Pixel)
    requires Sourced(source, rect) && 0 <= r < rect.height && 0 <= c < rect.width && source.Depth() <= MAX_PLANES
    requires zeros <= ZeroPlanes(source, zeros, source.Depth()) && ones <= OnesPlanes(source, ones, source.Depth())
    ensures ChunkyMap(source, rect, zeros)(r, c, old_) == SolidMap({}, zeros)(r, c, old_)
    ensures ChunkyMap(source, rect, zeros + ones)(r, c, old_)
         == SolidMap(BYTE, ones)(r, c, ChunkyMap(source, rect, zeros)(r, c, old_))
  {
    var index := PixelIndex(source, rect, r, c);
    assert index * zeros == {};
    assert ones <= index && ones <= BYTE;
  }

  /** A pass over one data plane makes that plane done. */
  lemma PlaneStep(source: PlanarSource, rect: Rect, done: Bits, p: nat, r: int, c: int, old_: Pixel)
    requires Sourced(source, rect) && 0 <= r < rect.height && 0 <= c < rect.width
    requires p < source.Depth() <= MAX_PLANES && source.planes[p].Data?
    ensures ChunkyMap(source, rect, done + {p})(r, c, old_)
         == PassMap(source, rect, {p}, {}, PlanePens(p).Expand)(r, c, ChunkyMap(source, rect, done)(r, c, old_))
  {
    var index := PixelIndex(source, rect, r, c);
    var before := ChunkyMap(source, rect, done)(r, c, old_);
    assert SelectedAt(source, rect, {p}, {}, r, c) == (p in index);
    var pens := PlanePens(p);
    if p in index {
      assert pens.Expand(before, true) == Masked(old_, index * LONG, done + {p});
    } else {
      assert pens.Expand(before, false) == before - {p};
      assert before - {p} == Masked(old_, index * LONG, done + {p});
    }
  }

  /** `(1 << depth) - 1`. */
  function LowPlanes(depth: nat): (low: Bits)
    ensures forall p: nat :: p in low <==> p < depth
  {
    if depth == 0 then {} else LowPlanes(depth - 1) + {depth - 1}
  }

  /**
   SubmitPlanarChunky: every pixel of the rectangle keeps the bits outside the
   write mask and takes the others from its plane index; nothing else changes.
   One fill each for the constant planes of either kind and one pass for each data plane
   are submitted, so nothing at all exactly when the mask selects no plane.
   */
  method SubmitChunky(image: Image, source: PlanarSource, rect: Rect, mask: Bits) returns (ok: bool, submitted: nat)
    requires Sourced(source, rect) && source.Depth() <= MAX_PLANES && rect.Fits(image)
    modifies image
    ensures ok
    ensures Painted(old(image[..]), image[..], rect,
                    ChunkyMap(source, rect, mask * LowPlanes(source.Depth())), rect.height)
    ensures submitted == 0 <==> mask * LowPlanes(source.Depth()) == {}
    ensures var write := mask * LowPlanes(source.Depth());
      submitted == Fills(ZeroPlanes(source, write, source.Depth()), OnesPlanes(source, write, source.Depth()))
                   + |DataPlanes(source, write, source.Depth())|
  {
    var write := mask * LowPlanes(source.Depth());
    var zeros, ones := ConstantPlanes(source, write);
    var fills := FillConstants(image, source, rect, zeros, ones);
    assert zeros + ones == Done(source, write, 0);
    var passes: nat;
    ok, passes := AddPlanes(image, source, rect, write, old(image[..]));
    AllDone(source, write);
    submitted := fills + passes;
  }

  /** Every plane of the mask is of one of the three kinds. */
  lemma AllDone(source: PlanarSource, write: Bits)
    requires forall p :: p in write ==> p < source.Depth()
    ensures Done(source, write, source.Depth()) == write
    ensures var fills := Fills(ZeroPlanes(source, write, source.Depth()), OnesPlanes(source, write, source.Depth()));
      fills + |DataPlanes(source, write, source.Depth())| == 0 <==> write == {}
  {
    assert Done(source, write, source.Depth()) == write;
  }

  method ConstantPlanes(source: PlanarSource, write: Bits) returns (zeros: Bits, ones: Bits)
    ensures zeros == ZeroPlanes(source, write, source.Depth()) && ones == OnesPlanes(source, write, source.Depth())
  {
    zeros, ones := {}, {};
    for p := 0 to source.Depth()
      invariant zeros == ZeroPlanes(source, write, p) && ones == OnesPlanes(source, write, p)
    {
      if p in write {
        if source.planes[p].Zero? {
          zeros := zeros + {p};
        } else if source.planes[p].Ones? {
          ones := ones + {p};
        }
      }
    }
  }

  method AddPlanes(image: Image, source: PlanarSource, rect: Rect, write: Bits, ghost start: seq<seq<Pixel>>)
    returns (ok: bool, passes: nat)
    requires Sourced(source, rect) && source.Depth() <= MAX_PLANES && rect.Fits(image)
    requires Painted(start, image[..], rect, ChunkyMap(source, rect, Done(source, write, 0)), rect.height)
    modifies image
    ensures ok && passes == |DataPlanes(source, write, source.Depth())|
    ensures Painted(start, image[..], rect, ChunkyMap(source, rect, Done(source, write, source.Depth())), rect.height)
  {
    passes := 0;
    assert DataPlanes(source, write, 0) == {};
    for p := 0 to source.Depth()
      invariant rect.Fits(image) && passes == |DataPlanes(source, write, p)|
      invariant Painted(start, image[..], rect, ChunkyMap(source, rect, Done(source, write, p)), rect.height)
    {
      var drawn: bool;
      DataGrows(source, write, p);
      ok, drawn := VisitPlane(image, source, rect, write, p, start);
      if !ok {
        return;
      }
      if drawn { passes := passes + 1; }
    }
    ok := true;
  }

  /** One turn of the loop over the planes. */
  method VisitPlane(image: Image, source: PlanarSource, rect: Rect, write: Bits, p: nat, ghost start: seq<seq<Pixel>>)
    returns (ok: bool, drawn: bool)
    requires Sourced(source, rect) && p < source.Depth() <= MAX_PLANES && rect.Fits(image)
    requires Painted(start, image[..], rect, ChunkyMap(source, rect, Done(source, write, p)), rect.height)
    modifies image
    ensures ok && rect.Fits(image)
    ensures drawn <==> p in write && source.planes[p].Data?
    ensures drawn ==> p !in Done(source, write, p)
    ensures Done(source, write, p + 1) == Done(source, write, p) + (if drawn then {p} else {})
    ensures Painted(start, image[..], rect, ChunkyMap(source, rect, Done(source, write, p + 1)), rect.height)
  {
    DoneGrows(source, write, p);
    drawn := p in write && source.planes[p].Data?;
    if drawn {
      ok := AddPlane(image, source, rect, Done(source, write, p), p, start);
    } else {
      ok := true;
    }
  }

  lemma DataGrows(source: PlanarSource, write: Bits, p: nat)
    requires p < source.Depth()
    ensures |DataPlanes(source, write, p + 1)|
         == |DataPlanes(source, write, p)| + (if p in write && source.planes[p].Data? then 1 else 0)
  {
    var added: Bits := if p in write && source.planes[p].Data? then {p} else {};
    assert DataPlanes(source, write, p + 1) == DataPlanes(source, write, p) + added;
  }

  lemma DoneGrows(source: PlanarSource, write: Bits, p: nat)
    requires p < source.Depth()
    ensures source.planes[p].Data? ==> p !in Done(source, write, p)
    ensures Done(source, write, p + 1)
         == if p in write && source.planes[p].Data? then Done(source, write, p) + {p} else Done(source, write, p)
  {
    assert DataPlanes(source, write, p + 1)
        == if p in write && source.planes[p].Data? then DataPlanes(source, write, p) + {p}
          else DataPlanes(source, write, p);
  }

  /** One fill for planes of zeros and one for planes of ones, where there are any. */
  function Fills(zeros: Bits, ones: Bits): nat {
    (if zeros == {} then 0 else 1) + (if ones == {} then 0 else 1)
  }

  method FillConstants(image: Image, source: PlanarSource, rect: Rect, zeros: Bits, ones: Bits)
    returns (fills: nat)
    requires Sourced(source, rect) && source.Depth() <= MAX_PLANES && rect.Fits(image)
    requires zeros <= ZeroPlanes(source, zeros, source.Depth()) && ones <= OnesPlanes(source, ones, source.Depth())
    modifies image
    ensures Painted(old(image[..]), image[..], rect, ChunkyMap(source, rect, zeros + ones), rect.height)
    ensures fills == Fills(zeros, ones)
  {
    fills := 0;
    ghost var start := image[..];
    ghost var none, first, both := ChunkyMap(source, rect, {}), ChunkyMap(source, rect, zeros),
      ChunkyMap(source, rect, zeros + ones);
    forall r: int, c: int, p: Pixel | 0 <= r < rect.height && 0 <= c < rect.width
      ensures first(r, c, p) == SolidMap({}, zeros)(r, c, p)
      ensures both(r, c, p) == SolidMap(BYTE, ones)(r, c, first(r, c, p))
    {
      ConstantStep(source, rect, zeros, ones, r, c, p);
    }
    if zeros != {} {
      fills := fills + 1;
      SolidRect(image, rect, {}, zeros);
      PaintedAlike(start, image[..], rect, SolidMap({}, zeros), first);
    } else {
      Unpainted(start, rect, first);
    }
    ghost var middle := image[..];
    if ones != {} {
      fills := fills + 1;
      SolidRect(image, rect, BYTE, ones);
      PaintedComposes(start, middle, image[..], rect, first, SolidMap(BYTE, ones), both);
    } else {
      assert zeros + ones == zeros;
    }
  }

  /** A map that changes nothing describes an untouched surface. */
  lemma Unpainted(rows: seq<seq<Pixel>>, rect: Rect, f: PixelMap)
    requires Holds(rect, rows)
    requires forall r: int, k: int, p: Pixel :: 0 <= r < rect.height && 0 <= k < rect.width ==> f(r, k, p) == p
    ensures Painted(rows, rows, rect, f, rect.height)
  {
  }

  method AddPlane(image: Image, source: PlanarSource, rect: Rect, ghost done: Bits, p: nat,
      ghost start: seq<seq<Pixel>>)
    returns (ok: bool)
    requires Sourced(source, rect) && p < source.Depth() <= MAX_PLANES && source.planes[p].Data? && rect.Fits(image)
    requires Painted(start, image[..], rect, ChunkyMap(source, rect, done), rect.height)
    modifies image
    ensures ok && rect.Fits(image)
    ensures Painted(start, image[..], rect, ChunkyMap(source, rect, done + {p}), rect.height)
  {
    ghost var before := image[..];
    assert p in {p} + {};
    ok := SubmitPass(image, source, rect, {p}, {}, PlanePens(p).Expand);
    forall r: int, c: int, q: Pixel | 0 <= r < rect.height && 0 <= c < rect.width
      ensures ChunkyMap(source, rect, done + {p})(r, c, q)
           == PassMap(source, rect, {p}, {}, PlanePens(p).Expand)(r, c, ChunkyMap(source, rect, done)(r, c, q))
    {
      PlaneStep(source, rect, done, p, r, c, q);
    }
    PaintedComposes(start, before, image[..], rect, ChunkyMap(source, rect, done),
                    PassMap(source, rect, {p}, {}, PlanePens(p).Expand), ChunkyMap(source, rect, done + {p}));
  }

  /** The bitmap's own colour index of a pixel. */
  function BitMapIndex(bm: BitMap, x: nat, y: nat): Bits
    requires bm.Allocated() && x < bm.bytesPerRow * 8 && y < bm.rows
  {
    set p: nat | p < |bm.planes| && bm.Pixel(p, x, y)
  }

  /** Plane by plane, a prepared source's bit is the bitmap's. */
  lemma PlaneOfBitMap(bm: BitMap, source: PlanarSource, srcX: i16, srcY: i16, width: i16, height: i16, rect: Rect,
                      r: nat, c: nat, p: nat)
    requires bm.Allocated() && Prepare(bm, srcX, srcY, width, height) == Some(source)
    requires rect.width == width && rect.height == height
    requires Sourced(source, rect) && r < rect.height && c < rect.width
    requires srcX + c < bm.bytesPerRow * 8 && srcY + r < bm.rows
    ensures p in PixelIndex(source, rect, r, c) <==> p in BitMapIndex(bm, srcX + c, srcY + r)
  {
    if p < |bm.planes| { PreparedPixel(bm, srcX, srcY, width, height, p, r, c); }
  }

  /** For a prepared source the index is that of the bitmap's pixel: no bit comes from another row or column. */
  lemma IndexOfBitMap(bm: BitMap, srcX: i16, srcY: i16, width: i16, height: i16, rect: Rect, r: nat, c: nat)
    requires bm.Allocated() && Prepare(bm, srcX, srcY, width, height).Some?
    requires rect.width == width && rect.height == height && r < rect.height && c < rect.width
    ensures Sourced(Prepare(bm, srcX, srcY, width, height).value, rect)
    ensures PixelIndex(Prepare(bm, srcX, srcY, width, height).value, rect, r, c) == BitMapIndex(bm, srcX + c, srcY + r)
  {
    PreparedReads(bm, srcX, srcY, width, height);
    var source := Prepare(bm, srcX, srcY, width, height).value;
    var index, own := PixelIndex(source, rect, r, c), BitMapIndex(bm, srcX + c, srcY + r);
    forall p: nat ensures p in index <==> p in own {
      PlaneOfBitMap(bm, source, srcX, srcY, width, height, rect, r, c, p);
    }
    assert index == own;
  }
}
