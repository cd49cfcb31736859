/**
 Planar to direct colour (ClassifyPlanarDirect and SubmitPlanarDirect in
 src/radeon_accel.c): one opaque pass for the lowest data plane, then one
 transparent pass for each other combination of data planes whose colour is not
 there yet.  The combinations are enumerated by subset = (subset - 1) & dataBits.
 */
module PlanarDirect {
  import opened Words
  import opened Bits
  import opened Surfaces
  import opened Planar
  import opened PlanarPasses
  import opened PlanarBlits
  import opened SetFamilies
  import PM = PlaneMasks

  type Mask = PM.Mask

  lemma ClassesNone(source: PlanarSource, mask: Bits)
    ensures OnesPlanes(source, mask, 0) == {} && DataPlanes(source, mask, 0) == {}
  {
  }

  lemma ClassesGrow(source: PlanarSource, mask: Bits, p: nat)
    requires p < source.Depth()
    ensures OnesPlanes(source, mask, p + 1)
         == OnesPlanes(source, mask, p) + (if p in mask && source.planes[p].Ones? then {p} else {})
    ensures DataPlanes(source, mask, p + 1)
         == DataPlanes(source, mask, p) + (if p in mask && source.planes[p].Data? then {p} else {})
    ensures |DataPlanes(source, mask, p + 1)|
         == |DataPlanes(source, mask, p)| + (if p in mask && source.planes[p].Data? then 1 else 0)
  {
    assert p !in DataPlanes(source, mask, p);
    var added: Bits := if p in mask && source.planes[p].Data? then {p} else {};
    assert DataPlanes(source, mask, p + 1) == DataPlanes(source, mask, p) + added;
  }

  /** ClassifyPlanarDirect. */
  method Classify(source: PlanarSource, mask: Mask) returns (count: nat, constBits: Mask, dataBits: Mask)
    requires source.Depth() <= MAX_PLANES
    ensures PM.Planes(constBits) == OnesPlanes(source, PM.Planes(mask), source.Depth())
    ensures PM.Planes(dataBits) == DataPlanes(source, PM.Planes(mask), source.Depth())
    ensures count == |DataPlanes(source, PM.Planes(mask), source.Depth())|
  {
    count, constBits, dataBits := 0, 0, 0;
    PM.PlanesNone();
    ClassesNone(source, PM.Planes(mask));
    for p := 0 to source.Depth()
      invariant PM.Planes(constBits) == OnesPlanes(source, PM.Planes(mask), p)
      invariant PM.Planes(dataBits) == DataPlanes(source, PM.Planes(mask), p)
      invariant count == |DataPlanes(source, PM.Planes(mask), p)|
    {
      count, constBits, dataBits := VisitPlane(source, mask, p, count, constBits, dataBits);
    }
  }

  /** One turn of its loop. */
  method VisitPlane(source: PlanarSource, mask: Mask, p: nat, count: nat, constBits: Mask, dataBits: Mask)
    returns (newCount: nat, newConst: Mask, newData: Mask)
    requires p < source.Depth() <= MAX_PLANES
    requires PM.Planes(constBits) == OnesPlanes(source, PM.Planes(mask), p)
    requires PM.Planes(dataBits) == DataPlanes(source, PM.Planes(mask), p)
    requires count == |DataPlanes(source, PM.Planes(mask), p)|
    ensures PM.Planes(newConst) == OnesPlanes(source, PM.Planes(mask), p + 1)
    ensures PM.Planes(newData) == DataPlanes(source, PM.Planes(mask), p + 1)
    ensures newCount == |DataPlanes(source, PM.Planes(mask), p + 1)|
  {
    ClassesGrow(source, PM.Planes(mask), p);
    newCount, newConst, newData := count, constBits, dataBits;
    if PM.Has(mask, p) {
      newConst, newData, newCount := AddToClass(source.planes[p], p, constBits, dataBits, count);
    }
  }

  /** One masked plane of ClassifyPlanarDirect. */
  method AddToClass(plane: Plane, p: nat, constBits: Mask, dataBits: Mask, count: nat)
    returns (newConst: Mask, newData: Mask, newCount: nat)
    requires p < MAX_PLANES
    ensures PM.Planes(newConst) == PM.Planes(constBits) + (if plane.Ones? then {p} else {})
    ensures PM.Planes(newData) == PM.Planes(dataBits) + (if plane.Data? then {p} else {})
    ensures newCount == if plane.Data? then count + 1 else count
  {
    newConst, newData, newCount := constBits, dataBits, count;
    if plane.Ones? {
      PM.PlanesWith(constBits, p);
      newConst := constBits | PM.PlaneBit(p);
    } else if plane.Data? {
      PM.PlanesWith(dataBits, p);
      newData, newCount := dataBits | PM.PlaneBit(p), count + 1;
    }
  }

  // ------------------------------------------------------------ colours

  /** A translation: the colour table, the hardware pen of a colour, and the classified planes. */
  datatype Table = Table(colors: Mask -> Pixel, hardwarePen: Pixel -> Pixel, constBits: Mask, dataBits: Mask,
      first: Mask)
  {
    /** What the first pass paints where the data planes are d. */
    function Ground(d: Mask): Pixel {
      if d & first != 0 then colors(constBits | first) else colors(constBits)
    }

    function Colour(d: Mask): Pixel { colors(constBits | d) }

    /** The pixel's pen once all combinations above `subset` have been visited. */
    function Pen(d: Mask, subset: Mask): Pixel {
      hardwarePen(if d == 0 || d == first || d > subset then Colour(d) else Ground(d))
    }
  }

  /** The data planes set at a pixel, as a mask. */
  function DataMask(source: PlanarSource, rect: Rect, dataBits: Mask, r: int, c: int): Mask
    requires Sourced(source, rect)
  {
    PM.MaskOf(PixelIndex(source, rect, r, c) * PM.Planes(dataBits), MAX_PLANES)
  }

  function TableMap(source: PlanarSource, rect: Rect, t: Table, subset: Mask): PixelMap
    requires Sourced(source, rect)
  {
    (r: int, c: int, old_: Pixel) => t.Pen(DataMask(source, rect, t.dataBits, r, c), subset)
  }

  /** Data planes of the table are data planes of the source. */
  predicate Classified(source: PlanarSource, t: Table) {
    t.dataBits != 0 && t.first == PM.First(t.dataBits) && forall p :: p in PM.Planes(t.dataBits) ==>
      p < source.Depth() && source.planes[p].Data?
  }

  lemma DataMaskPlanes(source: PlanarSource, rect: Rect, t: Table, r: int, c: int)
    requires Sourced(source, rect)
    ensures PM.Planes(DataMask(source, rect, t.dataBits, r, c))
      == PixelIndex(source, rect, r, c) * PM.Planes(t.dataBits)
    ensures PM.Within(DataMask(source, rect, t.dataBits, r, c), t.dataBits)
  {
    var d, planes := DataMask(source, rect, t.dataBits, r, c), PixelIndex(source, rect, r, c) * PM.Planes(t.dataBits);
    PM.PlanesOfMask(planes);
    PM.PlanesAnd(d, t.dataBits);
    PM.SamePlanes(d & t.dataBits, d);
  }

  /** The data planes of a pixel are those of its index that have data. */
  lemma DataOfIndex(source: PlanarSource, rect: Rect, t: Table, r: nat, c: nat)
    requires Sourced(source, rect) && r < rect.height && c < rect.width && Classified(source, t)
    ensures DataIndex(source, r, c, rect.width, rect.height) * PM.Planes(t.dataBits)
         == PM.Planes(DataMask(source, rect, t.dataBits, r, c))
  {
    DataMaskPlanes(source, rect, t, r, c);
    assert DataIndex(source, r, c, rect.width, rect.height) * PM.Planes(t.dataBits)
        == PixelIndex(source, rect, r, c) * PM.Planes(t.dataBits);
  }

  lemma ExactPlanes(index: Bits, data: Bits, wanted: Bits)
    requires wanted <= data
    ensures Selects(index, wanted, data - wanted) <==> index * data == wanted
  {
    if Selects(index, wanted, data - wanted) {
      assert index * data == wanted;
    }
  }

  /** A pass for a combination of data planes selects exactly the pixels with that combination. */
  lemma SubsetSelects(source: PlanarSource, rect: Rect, t: Table, subset: Mask, r: nat, c: nat)
    requires Sourced(source, rect) && r < rect.height && c < rect.width && Classified(source, t)
    requires PM.Within(subset, t.dataBits)
    ensures SelectedAt(source, rect, PM.Planes(subset), PM.Planes(t.dataBits & !subset), r, c)
       <==> DataMask(source, rect, t.dataBits, r, c) == subset
  {
    DataOfIndex(source, rect, t, r, c);
    PM.Complement(subset, t.dataBits);
    ExactPlanes(DataIndex(source, r, c, rect.width, rect.height), PM.Planes(t.dataBits), PM.Planes(subset));
    PM.SameMask(DataMask(source, rect, t.dataBits, r, c), subset);
  }

  /** The first pass selects the pixels that have the lowest data plane. */
  lemma FirstSelects(source: PlanarSource, rect: Rect, t: Table, r: nat, c: nat)
    requires Sourced(source, rect) && r < rect.height && c < rect.width && Classified(source, t)
    ensures SelectedAt(source, rect, PM.Planes(t.first), {}, r, c)
       <==> DataMask(source, rect, t.dataBits, r, c) & t.first != 0
  {
    var d, first := DataMask(source, rect, t.dataBits, r, c), t.first;
    var index, data := DataIndex(source, r, c, rect.width, rect.height), PM.Planes(t.dataBits);
    DataOfIndex(source, rect, t, r, c);
    PM.FirstIsOne(t.dataBits);
    PM.FirstOrNone(t.dataBits, d);
    PM.PlanesAnd(first, t.dataBits);
    PM.PlanesAnd(d, first);
    if PM.Planes(first) <= index {
      assert PM.Planes(d & first) == PM.Planes(first);
      PM.SamePlanes(d & first, first);
    }
  }

  /** A pass in which every bit is written. */
  function SubsetPens(t: Table, color: Pixel): Pens { Pens(t.hardwarePen(color), {}, LONG, true) }

  function GroundPens(t: Table): Pens {
    Pens(t.hardwarePen(t.colors(t.constBits | t.first)), t.hardwarePen(t.colors(t.constBits)), LONG, false)
  }

  lemma GroundStep(source: PlanarSource, rect: Rect, t: Table, r: nat, c: nat, old_: Pixel)
    requires Sourced(source, rect) && r < rect.height && c < rect.width && Classified(source, t)
    ensures TableMap(source, rect, t, t.dataBits)(r, c, old_)
         == PassMap(source, rect, PM.Planes(t.first), {}, GroundPens(t).Expand)(r, c, old_)
  {
    var d, pens := DataMask(source, rect, t.dataBits, r, c), GroundPens(t);
    FirstSelects(source, rect, t, r, c);
    DataMaskPlanes(source, rect, t, r, c);
    PM.WithinTop(d, t.dataBits);
    GroundPen(t, d);
    FullMask(old_, pens.fg);
    FullMask(old_, pens.bg);
    assert pens.Expand(old_, d & t.first != 0) == t.hardwarePen(t.Ground(d));
  }

  /** Before any transparent pass every pen is the ground. */
  lemma GroundPen(t: Table, d: Mask)
    requires t.dataBits != 0 && t.first == PM.First(t.dataBits) && d <= t.dataBits
    ensures t.Pen(d, t.dataBits) == t.hardwarePen(t.Ground(d))
  {
    PM.FirstIsOne(t.dataBits);
    ZeroMasks(t.constBits, t.first);
  }

  lemma ZeroMasks(a: Mask, b: Mask)
    ensures a | 0 == a && 0 & b == 0 && b & b == b
  {
  }

  /** The passes that are skipped would paint what is there already. */
  predicate Skips(t: Table, subset: Mask) {
    subset & !t.first == 0 || t.Colour(subset) == t.Ground(subset)
  }

  lemma PenStep(t: Table, subset: Mask, next: Mask, d: Mask)
    requires d > next <==> d >= subset
    requires subset & !t.first == 0 ==> subset == t.first
    ensures t.Pen(d, next) == if d == subset && !Skips(t, subset) then t.hardwarePen(t.Colour(subset))
      else t.Pen(d, subset)
  {
  }

  lemma NextPen(t: Table, subset: Mask, d: Mask)
    requires t.first == PM.First(t.dataBits)
    requires subset != 0 && PM.Within(subset, t.dataBits) && PM.Within(d, t.dataBits)
    ensures t.Pen(d, PM.Next(subset, t.dataBits))
         == if d == subset && !Skips(t, subset) then t.hardwarePen(t.Colour(subset)) else t.Pen(d, subset)
  {
    PM.NextIsLargestBelow(subset, t.dataBits, d);
    if subset & !t.first == 0 { PM.InsideFirst(t.dataBits, subset); }
    PenStep(t, subset, PM.Next(subset, t.dataBits), d);
  }

  lemma SubsetStep(source: PlanarSource, rect: Rect, t: Table, subset: Mask, r: nat, c: nat, old_: Pixel)
    requires Sourced(source, rect) && r < rect.height && c < rect.width && Classified(source, t)
    requires subset != 0 && PM.Within(subset, t.dataBits) && !Skips(t, subset)
    ensures TableMap(source, rect, t, PM.Next(subset, t.dataBits))(r, c, old_)
         == PassMap(source, rect, PM.Planes(subset), PM.Planes(t.dataBits & !subset),
           SubsetPens(t, t.Colour(subset)).Expand)
                   (r, c, TableMap(source, rect, t, subset)(r, c, old_))
  {
    var d, pens := DataMask(source, rect, t.dataBits, r, c), SubsetPens(t, t.Colour(subset));
    DataMaskPlanes(source, rect, t, r, c);
    SubsetSelects(source, rect, t, subset, r, c);
    NextPen(t, subset, d);
    FullMask(t.Pen(d, subset), pens.fg);
    assert pens.Expand(t.Pen(d, subset), d == subset) == if d == subset then pens.fg else t.Pen(d, subset);
  }

  lemma SkipStep(source: PlanarSource, rect: Rect, t: Table, subset: Mask, r: nat, c: nat, old_: Pixel)
    requires Sourced(source, rect) && r < rect.height && c < rect.width && t.first == PM.First(t.dataBits)
    requires subset != 0 && PM.Within(subset, t.dataBits) && Skips(t, subset)
    ensures TableMap(source, rect, t, PM.Next(subset, t.dataBits))(r, c, old_)
      == TableMap(source, rect, t, subset)(r, c, old_)
  {
    DataMaskPlanes(source, rect, t, r, c);
    NextPen(t, subset, DataMask(source, rect, t.dataBits, r, c));
  }

  // ------------------------------------------------------------ how many passes

  /** The combinations painted by transparent passes: never none, never the lowest plane alone. */
  ghost predicate Drawn(family: set<Bits>, t: Table, subset: Mask) {
    && (forall s :: s in family ==> s <= PM.Planes(t.dataBits) && s != {} && s != PM.Planes(t.first))
    && (forall m: Mask :: m <= subset ==> PM.Planes(m) !in family)
  }

  /** How many combinations from `subset` down are painted rather than skipped. */
  function PassesFrom(t: Table, subset: Mask): nat
    decreases subset as nat
  {
    if subset == 0 then 0
    else
      PM.NextBelow(subset, t.dataBits);
      PassesFrom(t, PM.Next(subset, t.dataBits)) + (if Skips(t, subset) then 0 else 1)
  }

  lemma DrawnBound(family: set<Bits>, t: Table, subset: Mask)
    requires Drawn(family, t, subset) && t.dataBits != 0 && t.first == PM.First(t.dataBits)
    ensures |family| + 2 <= Pow2(|PM.Planes(t.dataBits)|)
  {
    PM.FirstIsOne(t.dataBits);
    PM.PlanesAnd(t.first, t.dataBits);
    PM.PlanesNone();
    PM.SameMask(t.first, 0);
    TwoLess(family, PM.Planes(t.first), PM.Planes(t.dataBits));
  }

  lemma DrawnMore(family: set<Bits>, t: Table, subset: Mask, next: Mask)
    requires Drawn(family, t, subset) && PM.Within(subset, t.dataBits) && next < subset
    requires subset & !t.first != 0
    ensures PM.Planes(subset) !in family && Drawn(family + {PM.Planes(subset)}, t, next)
  {
    PM.PlanesAnd(subset, t.dataBits);
    PM.PlanesNone();
    PM.SameMask(subset, 0);
    PM.SameMask(subset, t.first);
    NotFirst(subset, t.first);
    forall m: Mask | m <= next ensures PM.Planes(m) !in family + {PM.Planes(subset)} {
      PM.SameMask(m, subset);
      Smaller(m, next, subset);
    }
  }

  lemma NotFirst(a: Mask, first: Mask)
    requires a & !first != 0
    ensures a != 0 && a != first
  {
  }

  lemma Smaller(a: Mask, b: Mask, c: Mask)
    requires a <= b < c
    ensures a < c
  {
  }

  // ------------------------------------------------------------ the operation

  /** What a planar-to-direct blit means: the colour of the index built from the masked planes. */
  function DirectMap(source: PlanarSource, rect: Rect, mask: Mask, colors: Mask -> Pixel, hardwarePen: Pixel -> Pixel):
    PixelMap
    requires Sourced(source, rect)
  {
    (r: int, c: int, old_: Pixel) =>
      hardwarePen(colors(PM.MaskOf(PixelIndex(source, rect, r, c) * PM.Planes(mask), MAX_PLANES)))
  }

  /** The masked index: its constant planes and its data planes. */
  lemma MaskedIndex(source: PlanarSource, rect: Rect, mask: Bits, r: nat, c: nat)
    requires Sourced(source, rect) && r < rect.height && c < rect.width
    ensures PixelIndex(source, rect, r, c) * mask
         == OnesPlanes(source, mask, source.Depth()) +
            PixelIndex(source, rect, r, c) * DataPlanes(source, mask, source.Depth())
  {
  }

  lemma IndexOfTable(source: PlanarSource, rect: Rect, mask: Mask, t: Table, r: nat, c: nat)
    requires Sourced(source, rect) && r < rect.height && c < rect.width && source.Depth() <= MAX_PLANES
    requires PM.Planes(t.constBits) == OnesPlanes(source, PM.Planes(mask), source.Depth())
    requires PM.Planes(t.dataBits) == DataPlanes(source, PM.Planes(mask), source.Depth())
    ensures t.constBits | DataMask(source, rect, t.dataBits, r, c)
         == PM.MaskOf(PixelIndex(source, rect, r, c) * PM.Planes(mask), MAX_PLANES)
  {
    MaskedIndex(source, rect, PM.Planes(mask), r, c);
    DataMaskPlanes(source, rect, t, r, c);
    PM.JoinedMask(t.constBits, DataMask(source, rect, t.dataBits, r, c),
      PixelIndex(source, rect, r, c) * PM.Planes(mask));
  }

  /** When the enumeration has reached zero every pixel has its colour. */
  lemma AllVisited(source: PlanarSource, rect: Rect, mask: Mask, t: Table, r: nat, c: nat, old_: Pixel)
    requires Sourced(source, rect) && r < rect.height && c < rect.width && source.Depth() <= MAX_PLANES
    requires PM.Planes(t.constBits) == OnesPlanes(source, PM.Planes(mask), source.Depth())
    requires PM.Planes(t.dataBits) == DataPlanes(source, PM.Planes(mask), source.Depth())
    ensures TableMap(source, rect, t, 0)(r, c, old_)
         == DirectMap(source, rect, mask, t.colors, t.hardwarePen)(r, c, old_)
  {
    IndexOfTable(source, rect, mask, t, r, c);
  }

  lemma NoDataPlanes(source: PlanarSource, rect: Rect, mask: Mask, t: Table, r: nat, c: nat)
    requires Sourced(source, rect) && r < rect.height && c < rect.width && t.dataBits == 0
    ensures DataMask(source, rect, t.dataBits, r, c) == 0 && t.constBits | 0 == t.constBits
  {
    DataMaskPlanes(source, rect, t, r, c);
    PM.PlanesNone();
    PM.SamePlanes(DataMask(source, rect, t.dataBits, r, c), 0);
  }

  /** The state of the blit after some passes. */
  ghost predicate Stage(start: seq<seq<Pixel>>, rows: seq<seq<Pixel>>, source: PlanarSource, rect: Rect, t: Table,
                        subset: Mask)
    requires Sourced(source, rect)
  {
    Painted(start, rows, rect, TableMap(source, rect, t, subset), rect.height)
  }

  /** A nonempty combination of data planes makes a pass the engine accepts. */
  lemma PassReady(source: PlanarSource, t: Table, subset: Mask, rest: Bits)
    requires Classified(source, t) && subset != 0 && PM.Within(subset, t.dataBits)
    requires rest <= PM.Planes(t.dataBits) - PM.Planes(subset)
    ensures PassMasks(source, PM.Planes(subset), rest)
    ensures Usable(source, PM.Planes(subset), rest, source.Depth())
    ensures exists q :: 0 <= q < source.Depth() && q in PM.Planes(subset) + rest
  {
    PM.Complement(subset, t.dataBits);
    PM.PlanesNone();
    PM.SameMask(subset, 0);
    var q :| q in PM.Planes(subset);
    assert q in PM.Planes(subset) + rest;
  }

  lemma GroundStage(start: seq<seq<Pixel>>, rows: seq<seq<Pixel>>, source: PlanarSource, rect: Rect, t: Table,
      paint: Paint)
    requires Sourced(source, rect) && Classified(source, t) && paint == GroundPens(t).Expand
    requires Painted(start, rows, rect, PassMap(source, rect, PM.Planes(t.first), {}, paint), rect.height)
    ensures Stage(start, rows, source, rect, t, t.dataBits)
  {
    forall r: int, c: int, p: Pixel | 0 <= r < rect.height && 0 <= c < rect.width
      ensures TableMap(source, rect, t, t.dataBits)(r, c, p)
           == PassMap(source, rect, PM.Planes(t.first), {}, paint)(r, c, p)
    {
      GroundStep(source, rect, t, r, c, p);
    }
    PaintedAlike(start, rows, rect, PassMap(source, rect, PM.Planes(t.first), {}, paint),
                 TableMap(source, rect, t, t.dataBits));
  }

  method GroundPass(image: Image, source: PlanarSource, rect: Rect, t: Table) returns (ok: bool)
    requires Sourced(source, rect) && rect.Fits(image) && Classified(source, t)
    modifies image
    ensures ok && rect.Fits(image) && Stage(old(image[..]), image[..], source, rect, t, t.dataBits)
  {
    var paint := GroundPens(t).Expand;
    PM.FirstIsOne(t.dataBits);
    PassReady(source, t, t.first, {});
    ok := SubmitPass(image, source, rect, PM.Planes(t.first), {}, paint);
    GroundStage(old(image[..]), image[..], source, rect, t, paint);
  }

  lemma SubsetStage(start: seq<seq<Pixel>>, before: seq<seq<Pixel>>, rows: seq<seq<Pixel>>, source: PlanarSource,
                    rect: Rect, t: Table, subset: Mask, rest: Mask, paint: Paint)
    requires Sourced(source, rect) && Classified(source, t) && paint == SubsetPens(t, t.Colour(subset)).Expand
    requires subset != 0 && PM.Within(subset, t.dataBits) && !Skips(t, subset) && rest == t.dataBits & !subset
    requires Stage(start, before, source, rect, t, subset)
    requires Painted(before, rows, rect, PassMap(source, rect, PM.Planes(subset), PM.Planes(rest), paint), rect.height)
    ensures Stage(start, rows, source, rect, t, PM.Next(subset, t.dataBits))
  {
    var next := PM.Next(subset, t.dataBits);
    forall r: int, c: int, p: Pixel | 0 <= r < rect.height && 0 <= c < rect.width
      ensures TableMap(source, rect, t, next)(r, c, p)
           == PassMap(source, rect, PM.Planes(subset), PM.Planes(rest), paint)
                     (r, c, TableMap(source, rect, t, subset)(r, c, p))
    {
      SubsetStep(source, rect, t, subset, r, c, p);
    }
    PaintedComposes(start, before, rows, rect, TableMap(source, rect, t, subset),
                    PassMap(source, rect, PM.Planes(subset), PM.Planes(rest), paint), TableMap(source, rect, t, next));
  }

  method SubsetPass(image: Image, source: PlanarSource, rect: Rect, t: Table, subset: Mask,
                    ghost start: seq<seq<Pixel>>) returns (ok: bool)
    requires Sourced(source, rect) && rect.Fits(image) && Classified(source, t)
    requires subset != 0 && PM.Within(subset, t.dataBits) && !Skips(t, subset)
    requires Stage(start, image[..], source, rect, t, subset)
    modifies image
    ensures ok && rect.Fits(image) && Stage(start, image[..], source, rect, t, PM.Next(subset, t.dataBits))
  {
    ghost var before := image[..];
    var rest := t.dataBits & !subset;
    var paint := SubsetPens(t, t.Colour(subset)).Expand;
    PM.Complement(subset, t.dataBits);
    PassReady(source, t, subset, PM.Planes(rest));
    ok := SubmitPass(image, source, rect, PM.Planes(subset), PM.Planes(rest), paint);
    SubsetStage(start, before, image[..], source, rect, t, subset, rest, paint);
  }

  lemma SkipStage(start: seq<seq<Pixel>>, rows: seq<seq<Pixel>>, source: PlanarSource, rect: Rect, t: Table,
      subset: Mask)
    requires Sourced(source, rect) && Classified(source, t) && Skips(t, subset)
    requires subset != 0 && PM.Within(subset, t.dataBits) && Stage(start, rows, source, rect, t, subset)
    ensures Stage(start, rows, source, rect, t, PM.Next(subset, t.dataBits))
  {
    var next := PM.Next(subset, t.dataBits);
    forall r: int, c: int, p: Pixel | 0 <= r < rect.height && 0 <= c < rect.width
      ensures TableMap(source, rect, t, next)(r, c, p) == TableMap(source, rect, t, subset)(r, c, p)
    {
      SkipStep(source, rect, t, subset, r, c, p);
    }
    PaintedAlike(start, rows, rect, TableMap(source, rect, t, subset), TableMap(source, rect, t, next));
  }

  /** One turn of the loop over the combinations. */
  method VisitSubset(image: Image, source: PlanarSource, rect: Rect, t: Table, subset: Mask,
                     ghost start: seq<seq<Pixel>>) returns (ok: bool, drawn: bool)
    requires Sourced(source, rect) && rect.Fits(image) && Classified(source, t)
    requires subset != 0 && PM.Within(subset, t.dataBits) && Stage(start, image[..], source, rect, t, subset)
    modifies image
    ensures ok && rect.Fits(image) && Stage(start, image[..], source, rect, t, PM.Next(subset, t.dataBits))
    ensures drawn == !Skips(t, subset)
  {
    if subset & !t.first == 0 || t.Colour(subset) == t.Ground(subset) {
      SkipStage(start, image[..], source, rect, t, subset);
      ok, drawn := true, false;
    } else {
      ok := SubsetPass(image, source, rect, t, subset, start);
      drawn := true;
    }
  }

  /** The bookkeeping of one turn. */
  lemma DrawnStep(family: set<Bits>, t: Table, subset: Mask, next: Mask, drawn: bool)
    requires Drawn(family, t, subset) && subset != 0 && PM.Within(subset, t.dataBits)
    requires next == PM.Next(subset, t.dataBits) && (drawn ==> subset & !t.first != 0)
    ensures PM.Within(next, t.dataBits) && next as nat < subset as nat
    ensures var grown := if drawn then family + {PM.Planes(subset)} else family;
      Drawn(grown, t, next) && |grown| == |family| + (if drawn then 1 else 0)
  {
    PM.NextBelow(subset, t.dataBits);
    PM.NextIsLargestBelow(subset, t.dataBits, subset);
    if drawn { DrawnMore(family, t, subset, next); } else { DrawnSkips(family, t, subset, next); }
  }

  /** The passes so far: which they were, and how many are left. */
  ghost predicate Counted(family: set<Bits>, t: Table, subset: Mask, passes: nat) {
    Drawn(family, t, subset) && passes == |family| && passes + PassesFrom(t, subset) == PassesFrom(t, t.dataBits)
  }

  lemma CountGoesOn(family: set<Bits>, t: Table, subset: Mask, passes: nat, drawn: bool)
    requires Counted(family, t, subset, passes) && subset != 0 && PM.Within(subset, t.dataBits)
    requires drawn == !Skips(t, subset)
    ensures var next := PM.Next(subset, t.dataBits);
      && PM.Within(next, t.dataBits) && next as nat < subset as nat
      && Counted(if drawn then family + {PM.Planes(subset)} else family, t, next, if drawn then passes + 1 else passes)
  {
    DrawnStep(family, t, subset, PM.Next(subset, t.dataBits), drawn);
  }

  /** The loop over the combinations; it ends, and visits each nonempty combination once. */
  method PaintSubsets(image: Image, source: PlanarSource, rect: Rect, t: Table, ghost start: seq<seq<Pixel>>)
    returns (ok: bool, passes: nat)
    requires Sourced(source, rect) && rect.Fits(image) && Classified(source, t)
    requires Stage(start, image[..], source, rect, t, t.dataBits)
    modifies image
    ensures ok && Stage(start, image[..], source, rect, t, 0)
    ensures passes == PassesFrom(t, t.dataBits)
    ensures passes + 2 <= Pow2(|PM.Planes(t.dataBits)|)
  {
    passes := 0;
    var subset := t.dataBits;
    ghost var family: set<Bits> := {};
    while subset != 0
      invariant PM.Within(subset, t.dataBits) && rect.Fits(image)
      invariant Stage(start, image[..], source, rect, t, subset)
      invariant Counted(family, t, subset, passes)
      decreases subset as nat
    {
      var drawn;
      ok, drawn := VisitSubset(image, source, rect, t, subset, start);
      CountGoesOn(family, t, subset, passes, drawn);
      if !ok {
        return;
      }
      if drawn {
        family := family + {PM.Planes(subset)};
        passes := passes + 1;
      }
      subset := PM.Next(subset, t.dataBits);
    }
    DrawnBound(family, t, 0);
    ok := true;
  }

  lemma DrawnSkips(family: set<Bits>, t: Table, subset: Mask, next: Mask)
    requires Drawn(family, t, subset) && next < subset
    ensures Drawn(family, t, next)
  {
    forall m: Mask | m <= next ensures PM.Planes(m) !in family {
      Smaller(m, next, subset);
    }
  }

  /**
   SubmitPlanarDirect: every pixel of the rectangle gets the colour of the index
   built from its masked planes, whatever was there, and nothing else changes; with
   n data planes that takes at most 2^n - 1 expansion passes.
   */
  method SubmitDirect(image: Image, source: PlanarSource, rect: Rect, mask: Mask, colors: Mask -> Pixel,
                      hardwarePen: Pixel -> Pixel, constBits: Mask, dataBits: Mask) returns (ok: bool, passes: nat)
    requires Sourced(source, rect) && source.Depth() <= MAX_PLANES && rect.Fits(image)
    requires PM.Planes(constBits) == OnesPlanes(source, PM.Planes(mask), source.Depth())
    requires PM.Planes(dataBits) == DataPlanes(source, PM.Planes(mask), source.Depth())
    modifies image
    ensures ok
    ensures Painted(old(image[..]), image[..], rect, DirectMap(source, rect, mask, colors, hardwarePen), rect.height)
    ensures passes + 1 <= Pow2(|PM.Planes(dataBits)|)
    ensures if dataBits == 0 then passes == 0
      else passes == PassesFrom(Table(colors, hardwarePen, constBits, dataBits, PM.First(dataBits)), dataBits) + 1
  {
    ghost var start := image[..];
    ghost var meaning := DirectMap(source, rect, mask, colors, hardwarePen);
    var t := Table(colors, hardwarePen, constBits, dataBits, PM.First(dataBits));
    if dataBits == 0 {
      SolidRect(image, rect, hardwarePen(colors(constBits)), LONG);
      passes := 0;
      forall r: int, c: int, p: Pixel | 0 <= r < rect.height && 0 <= c < rect.width
        ensures meaning(r, c, p) == SolidMap(hardwarePen(colors(constBits)), LONG)(r, c, p)
      {
        NoDataPlanes(source, rect, mask, t, r, c);
        IndexOfTable(source, rect, mask, t, r, c);
        FullMask(p, hardwarePen(colors(constBits)));
      }
      PaintedAlike(start, image[..], rect, SolidMap(hardwarePen(colors(constBits)), LONG), meaning);
      ok := true;
    } else {
      ok := GroundPass(image, source, rect, t);
      ok, passes := PaintSubsets(image, source, rect, t, start);
      passes := passes + 1;
      forall r: int, c: int, p: Pixel | 0 <= r < rect.height && 0 <= c < rect.width
        ensures meaning(r, c, p) == TableMap(source, rect, t, 0)(r, c, p)
      {
        AllVisited(source, rect, mask, t, r, c, p);
      }
      PaintedAlike(start, image[..], rect, TableMap(source, rect, t, 0), meaning);
    }
  }

  const MAX_PASS_PLANES: nat := 3

  /**
   RadeonBlitPlanar2Direct once the destination is accepted: prepare, classify, and
   submit for up to three data planes, which means seven passes at most.
   */
  method BlitPlanar2Direct(image: Image, bm: BitMap, srcX: i16, srcY: i16, width: i16, height: i16, rect: Rect,
                           mask: Mask, colors: Mask -> Pixel, hardwarePen: Pixel -> Pixel)
    returns (hardware: bool, passes: nat)
    requires bm.Allocated() && rect.Fits(image) &&
      (width > 0 && height > 0 ==> rect.width == width && rect.height == height)
    modifies image
    ensures !hardware ==> image[..] == old(image[..]) && passes == 0
    ensures hardware <==>
      Prepare(bm, srcX, srcY, width, height).Some? &&
      |DataPlanes(Prepare(bm, srcX, srcY, width, height).value, PM.Planes(mask), |bm.planes|)| <= 3
    ensures hardware ==>
      Prepare(bm, srcX, srcY, width, height).Some? && Sourced(Prepare(bm, srcX, srcY, width, height).value, rect)
    ensures hardware ==> Painted(old(image[..]), image[..], rect,
      DirectMap(Prepare(bm, srcX, srcY, width, height).value, rect, mask, colors, hardwarePen), rect.height)
    ensures passes <= 7
  {
    var prepared := Prepare(bm, srcX, srcY, width, height);
    if prepared == None {
      return false, 0;
    }
    PreparedReads(bm, srcX, srcY, width, height);
    var count, constBits, dataBits := Classify(prepared.value, mask);
    if count > MAX_PASS_PLANES {
      return false, 0;
    }
    hardware, passes := SubmitDirect(image, prepared.value, rect, mask, colors, hardwarePen, constBits, dataBits);
    AtMostEight(count);
  }

  lemma AtMostEight(count: nat)
    requires count <= 3
    ensures Pow2(count) <= 8
  {
  }
}
