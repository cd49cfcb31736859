/**
 Who owns which byte of video memory: the ring, the leased segments, the auxiliary
 surfaces and the cursor image above the Picasso96 limit, imported bitmaps below it.
 */
module VramLayout {
  import opened Words
  import opened PrivateVram
  import AuxPool
  import AuxSurfaces
  import Segments
  import Surfaces

  const RING_BYTES: u32 := 1024 * 1024
  const CURSOR_BYTES: u32 := 64 * 4 * 64

  datatype Region = Region(start: nat, bytes: nat)
  {
    function End(): nat { start + bytes }
  }

  predicate DisjointRegions(a: Region, b: Region) { a.End() <= b.start || b.End() <= a.start }

  /** The two books the service keeps: who has which segment, and which auxiliary surface. */
  datatype Books = Books(segments: Segments.State, surfaces: AuxSurfaces.State)

  ghost predicate Kept(books: Books) { Segments.Inv(books.segments) && AuxSurfaces.Inv(books.surfaces) }

  /** A private use of video memory. */
  datatype Use = Ring | Segment(device: nat, id: nat) | AuxSurface(device: nat, index: nat) | Cursor

  function CarveOf(use: Use): nat {
    match use
    case Ring => 0
    case Segment(_, _) => 1
    case AuxSurface(_, _) => 2
    case Cursor => 3
  }

  /** A session of this attachment has the segment or the surface; the ring and the cursor are the driver's own. */
  predicate Owned(use: Use, books: Books) {
    match use
    case Segment(device, id) => Segments.Holds(books.segments, device, id)
    case AuxSurface(device, index) => books.surfaces.Current(device) && books.surfaces.Has(device, index)
    case _ => true
  }

  /** The use exists: its carve succeeded and somebody owns it. */
  predicate InUse(use: Use, start: nat, carves: seq<Carve>, books: Books)
    requires |carves| == 4
  {
    Got(start, carves, CarveOf(use)) && Owned(use, books)
  }

  /** Its place inside its carve. */
  function Part(use: Use, books: Books): Region
    requires Owned(use, books)
  {
    match use
    case Ring => Region(0, RING_BYTES)
    case Segment(_, id) => Region(id * Segments.SEGMENT_BYTES, Segments.SEGMENT_BYTES)
    case AuxSurface(device, index) =>
      var block := books.surfaces.Surface(device, index);
      Region(block.offset, block.bytes)
    case Cursor => Region(0, CURSOR_BYTES)
  }

  function RegionOf(use: Use, start: nat, carves: seq<Carve>, books: Books): Region
    requires |carves| == 4 && InUse(use, start, carves, books)
  {
    Region(LimitAfter(start, carves, CarveOf(use) + 1) + Part(use, books).start, Part(use, books).bytes)
  }

  function SizeOf(carve: nat): nat
    requires carve < 4
  {
    [RING_BYTES, Segments.MAX_SEGMENTS * Segments.SEGMENT_BYTES, AuxPool.POOL_BYTES, CURSOR_BYTES][carve]
  }

  lemma PartInside(use: Use, books: Books)
    requires Kept(books) && Owned(use, books)
    ensures Part(use, books).End() <= SizeOf(CarveOf(use))
  {
    match use
    case Segment(device, id) => Segments.InRange(books.segments, device, id);
    case AuxSurface(device, index) => AuxSurfaces.SurfaceInPool(books.surfaces, device, index);
    case _ =>
  }

  /** Nobody else has the same segment number. */
  lemma SegmentsDiffer(s: Segments.State, d: nat, i: nat, e: nat, j: nat)
    requires Segments.Inv(s) && Segments.Holds(s, d, i) && Segments.Holds(s, e, j) && (d != e || i != j)
    ensures i != j
  {
    if i == j { Segments.OneHolder(s, d, e, i); }
  }

  /** Uses of one carve, told apart. */
  predicate Distinct(a: Use, b: Use, books: Books)
    requires Owned(a, books) && Owned(b, books)
  {
    match (a, b)
    case (Segment(_, i), Segment(_, j)) => i != j
    case (AuxSurface(d, i), AuxSurface(e, j)) =>
      AuxPool.Apart(books.surfaces.Surface(d, i), books.surfaces.Surface(e, j))
    case _ => CarveOf(a) != CarveOf(b)
  }

  /** Different sessions have different segments, and surfaces apart. */
  lemma OwnersDistinct(a: Use, b: Use, books: Books)
    requires Kept(books) && Owned(a, books) && Owned(b, books) && a != b
    ensures Distinct(a, b, books)
  {
    match (a, b)
    case (Segment(d, i), Segment(e, j)) => SegmentsDiffer(books.segments, d, i, e, j);
    case (AuxSurface(d, i), AuxSurface(e, j)) => AuxSurfaces.NeverShared(books.surfaces, d, i, e, j);
    case _ =>
  }

  lemma PartsApart(a: Use, b: Use, books: Books)
    requires Owned(a, books) && Owned(b, books) && Distinct(a, b, books) && CarveOf(a) == CarveOf(b)
    ensures DisjointRegions(Part(a, books), Part(b, books))
  {
  }

  /** The carves of an attachment, in the order initialisation makes them; any of them may be unwanted or not fit. */
  predicate Standard(carves: seq<Carve>) {
    |carves| == 4 && carves[0].requested == RING_BYTES &&
      carves[1].requested == Segments.MAX_SEGMENTS * Segments.SEGMENT_BYTES
    && carves[2].requested == AuxPool.POOL_BYTES && carves[3].requested == CURSOR_BYTES
  }

  lemma WholeCarves(carves: seq<Carve>, carve: nat)
    requires Standard(carves) && carve < 4
    ensures RoundUp(carves[carve].requested) == carves[carve].requested == SizeOf(carve)
  {
  }

  /** Every use lies inside its carve. */
  lemma InsideCarve(use: Use, start: nat, carves: seq<Carve>, books: Books)
    requires Standard(carves) && Kept(books) && InUse(use, start, carves, books)
    ensures var r := RegionOf(use, start, carves, books);
      LimitAfter(start, carves, CarveOf(use) + 1) <= r.start
      && r.End() <= LimitAfter(start, carves, CarveOf(use) + 1) + RoundUp(carves[CarveOf(use)].requested)
  {
    WholeCarves(carves, CarveOf(use));
    PartInside(use, books);
  }

  /**
   Two different uses never share a byte: not the ring, not the segments or auxiliary
   surfaces of any two sessions, not the cursor.
   */
  lemma UsesDisjoint(a: Use, b: Use, start: nat, carves: seq<Carve>, books: Books)
    requires Standard(carves) && Kept(books) && a != b
    requires InUse(a, start, carves, books) && InUse(b, start, carves, books)
    ensures DisjointRegions(RegionOf(a, start, carves, books), RegionOf(b, start, carves, books))
  {
    InsideCarve(a, start, carves, books);
    InsideCarve(b, start, carves, books);
    var ca, cb := CarveOf(a), CarveOf(b);
    if ca < cb {
      BlocksApart(start, carves, ca, cb);
    } else if cb < ca {
      BlocksApart(start, carves, cb, ca);
    } else {
      OwnersDistinct(a, b, books);
      PartsApart(a, b, books);
    }
  }

  /** At every point of every run without a stale free, whatever has been carved. */
  lemma UsesDisjointInRuns(a: Use, b: Use, start: nat, carves: seq<Carve>, segments: seq<Segments.Event>,
                           states: seq<AuxSurfaces.State>, events: seq<AuxSurfaces.Event>,
                           answers: seq<Option<AuxSurfaces.Slice>>, n: nat)
    requires Standard(carves) && a != b && Segments.AllAllowed(segments)
    requires AuxSurfaces.Trace(states, events, answers) && AuxSurfaces.AllAllowed(states, events) && n < |states|
    requires var books := Books(Segments.Run(segments), states[n]);
      InUse(a, start, carves, books) && InUse(b, start, carves, books)
    ensures var books := Books(Segments.Run(segments), states[n]);
      DisjointRegions(RegionOf(a, start, carves, books), RegionOf(b, start, carves, books))
  {
    Segments.RunKeeps(segments);
    AuxSurfaces.RunKeeps(states, events, answers, n);
    UsesDisjoint(a, b, start, carves, Books(Segments.Run(segments), states[n]));
  }

  /** And all of it lies between the limit Picasso96 is left with and the end of video memory. */
  lemma UsesAboveLimit(use: Use, start: nat, carves: seq<Carve>, books: Books)
    requires Standard(carves) && Kept(books) && InUse(use, start, carves, books)
    ensures LimitAfter(start, carves, 4) <= RegionOf(use, start, carves, books).start
    ensures RegionOf(use, start, carves, books).End() <= start
  {
    InsideCarve(use, start, carves, books);
    BlockPlace(start, carves, CarveOf(use));
  }

  // ------------------------------------------------------------ imported bitmaps

  /** The attributes of a bitmap that is to be imported. */
  datatype BitMap = BitMap(memory: u32, pitch: u32, bytesPerPixel: u32, width: u32, height: u32, known: bool)

  /** The checks of Radeon3DImportBitMap, in its order and with its divisions. */
  predicate Importable(b: Surfaces.BoardMemory, m: BitMap) {
    var limit := Surfaces.MemoryLimit(b);
    && !(m.memory == 0 || m.memory < b.memoryBase || m.memory - b.memoryBase >= limit || m.pitch == 0 ||
       m.pitch % 64 != 0
         || m.width == 0 || m.height == 0 || !m.known || m.bytesPerPixel == 0 ||
           m.width > (TWO32 - 1) / m.bytesPerPixel)
    && var offset := m.memory - b.memoryBase;
       var rowBytes := Wrap(m.width * m.bytesPerPixel);
       !(rowBytes > m.pitch || rowBytes > limit - offset || m.height - 1 > (limit - offset - rowBytes) / m.pitch
         || b.framebufferGpuBase > TWO32 - 1 - offset)
  }

  lemma WidthFits(width: u32, bytesPerPixel: u32)
    requires bytesPerPixel > 0 && width <= (TWO32 - 1) / bytesPerPixel
    ensures Wrap(width * bytesPerPixel) == width * bytesPerPixel
  {
    var q := (TWO32 - 1) / bytesPerPixel;
    Surfaces.Rises(width, q, bytesPerPixel);
    Surfaces.ProductBound(width, bytesPerPixel, width, bytesPerPixel);
    Surfaces.WrapSmall(width * bytesPerPixel);
  }

  /** An imported bitmap lies wholly below the limit: its last row ends there at the latest, its rows do not overlap. */
  lemma ImportBelow(b: Surfaces.BoardMemory, m: BitMap)
    requires Importable(b, m)
    ensures m.width * m.bytesPerPixel <= m.pitch
    ensures m.memory - b.memoryBase + (m.height - 1) * m.pitch + m.width * m.bytesPerPixel <= Surfaces.MemoryLimit(b)
    ensures Surfaces.MemoryLimit(b) <= b.memorySize
  {
    WidthFits(m.width, m.bytesPerPixel);
    var room: int := Surfaces.MemoryLimit(b) - (m.memory - b.memoryBase) - m.width * m.bytesPerPixel;
    QuotientRoom(room, m.pitch, m.height - 1);
  }

  lemma QuotientRoom(room: int, pitch: nat, rows: nat)
    requires room >= 0 && pitch > 0 && rows <= room / pitch
    ensures rows * pitch <= room
  {
    Surfaces.Rises(rows, room / pitch, pitch);
  }

  /** Exactly the bitmaps with usable rows that lie in the usable memory are imported; the divisions cut nothing off. */
  lemma ImportableExactly(b: Surfaces.BoardMemory, m: BitMap)
    ensures Importable(b, m) <==>
      && m.memory != 0 && m.memory >= b.memoryBase && m.known && m.bytesPerPixel > 0
      && m.width > 0 && m.height > 0 && m.pitch > 0 && m.pitch % 64 == 0 && m.width * m.bytesPerPixel <= m.pitch
      && m.memory - b.memoryBase + (m.height - 1) * m.pitch + m.width * m.bytesPerPixel <= Surfaces.MemoryLimit(b)
      && (b.framebufferGpuBase as int) + m.memory - b.memoryBase < TWO32
  {
    if m.bytesPerPixel > 0 && m.width > 0 && m.height > 0 && m.pitch > 0 {
      Surfaces.Rises(1, m.width, m.bytesPerPixel);
      Surfaces.Rises(0, m.height - 1, m.pitch);
      Quotients(TWO32 - 1, m.bytesPerPixel, m.width);
      if m.width <= (TWO32 - 1) / m.bytesPerPixel { WidthFits(m.width, m.bytesPerPixel); }
      var room: int := Surfaces.MemoryLimit(b) - (m.memory - b.memoryBase) - m.width * m.bytesPerPixel;
      if room >= 0 { Quotients(room, m.pitch, m.height - 1); }
    }
  }

  lemma Quotients(total: nat, unit: nat, count: nat)
    requires unit > 0
    ensures count <= total / unit <==> count * unit <= total
  {
    var q := total / unit;
    assert total == q * unit + total % unit;
    if count <= q {
      Surfaces.Rises(count, q, unit);
    } else {
      Surfaces.Rises(q + 1, count, unit);
      assert (q + 1) * unit == q * unit + unit;
    }
  }

  /** So no imported bitmap meets a private use, whatever was carved. */
  lemma ImportDisjoint(b: Surfaces.BoardMemory, m: BitMap, use: Use, start: nat, carves: seq<Carve>, books: Books)
    requires Importable(b, m) && b.memorySize == LimitAfter(start, carves, |carves|)
    requires Standard(carves) && Kept(books) && InUse(use, start, carves, books)
    ensures m.memory - b.memoryBase + (m.height - 1) * m.pitch + m.width * m.bytesPerPixel
         <= RegionOf(use, start, carves, books).start
  {
    ImportBelow(b, m);
    UsesAboveLimit(use, start, carves, books);
  }
}
