/**
 The two Picasso96 copy operations (RadeonBlitRect and RadeonBlitRectNoMaskComplete
 in src/radeon_accel.c) from their arguments to the pixels in video memory.
 */
module CopyJobs {
  import opened Words
  import opened Surfaces
  import opened Raster
  import opened Copy
  import opened CopySafety

  /** The cell of video memory that holds a pixel of a bitmap. */
  function PixelCell(b: BoardMemory, render: Render, format: Format, x: int, y: int): int {
    if format == Unsupported then 0
    else
      (b.framebufferGpuBase + render.memory - b.memoryBase + y * render.bytesPerRow + x * BytesPerPixel(format))
      / BytesPerPixel(format)
  }

  /** The arguments of a copy; `source` and `destination` are the same for RadeonBlitRect. */
  datatype Job = Job(b: BoardMemory, source: Render, destination: Render, format: Format,
                     srcX: i16, srcY: i16, dstX: i16, dstY: i16, width: i16, height: i16)
  {
    function Source(): SurfaceResult { ValidateSurface(b, source, srcX, srcY, width, height, format) }
    function Destination(): SurfaceResult { ValidateSurface(b, destination, dstX, dstY, width, height, format) }

    function SourcePixel(px: int, py: int): int { PixelCell(b, source, format, srcX + px, srcY + py) }
    function DestinationPixel(px: int, py: int): int { PixelCell(b, destination, format, dstX + px, dstY + py) }
  }

  /** RadeonBlitRect: the blit it submits, if it uses the hardware at all. */
  function BlitRect(j: Job): Option<Blit> {
    match j.Source()
    case Hardware(source) =>
      SameSurfaceExact(j.b, j.source, j.format, j.width, j.height, j.srcX, j.srcY, j.dstX, j.dstY);
      (match ValidateSame(j.dstX, j.dstY, j.width, j.height, source)
       case Hardware(destination) =>
         if source.pitchOffset == destination.pitchOffset then Some(Submit(j, source, destination, true, false))
           else None
       case _ => None)
    case _ => None
  }

  function Submit(j: Job, source: Surface, destination: Surface, sameLayout: bool, reverse: bool): Blit {
    if j.srcX < 0 || j.srcY < 0 || j.dstX < 0 || j.dstY < 0 || j.width <= 0 || j.height <= 0 then
      SubmitCopy(source, destination, 0, 0, 0, 0, 0, 0, sameLayout, reverse)
    else
      SubmitCopy(source, destination, j.srcX, j.srcY, j.dstX, j.dstY, j.width, j.height, sameLayout, reverse)
  }

  predicate Disjoint(source: Surface, destination: Surface) {
    source.endOffset <= destination.startOffset || destination.endOffset <= source.startOffset
  }

  /** RadeonBlitRectNoMaskComplete, for an opcode below 16. */
  function CompleteCopy(j: Job): Option<Blit> {
    if j.Source().Hardware? && j.Destination().Hardware? then
      var source, destination := j.Source().surface, j.Destination().surface;
      if Disjoint(source, destination) || j.source.bytesPerRow == j.destination.bytesPerRow then
        Some(Submit(j, source, destination, source.pitchOffset == destination.pitchOffset,
                    !Disjoint(source, destination) && destination.startOffset > source.startOffset))
      else None
    else None
  }

  // ------------------------------------------------------------ which copies are taken

  predicate SourceDrawable(j: Job) { Drawable(j.b, j.source, j.srcX, j.srcY, j.width, j.height, j.format) }

  predicate DestinationDrawable(j: Job) {
    Drawable(j.b, j.destination, j.dstX, j.dstY, j.width, j.height, j.format)
  }

  /** The byte behind the last pixel of the source comes before the first of the destination, or the other way round. */
  predicate ApartInMemory(j: Job)
    requires SourceDrawable(j) && DestinationDrawable(j)
  {
    var bytes := BytesPerPixel(j.format);
    || PixelOffset(j.b, j.source, j.format, j.srcX + j.width - 1, j.srcY + j.height - 1) + bytes
         <= PixelOffset(j.b, j.destination, j.format, j.dstX, j.dstY)
    || PixelOffset(j.b, j.destination, j.format, j.dstX + j.width - 1, j.dstY + j.height - 1) + bytes
         <= PixelOffset(j.b, j.source, j.format, j.srcX, j.srcY)
  }

  /** Within one bitmap hardware takes every copy between two rectangles that it can draw. */
  lemma BlitRectTaken(j: Job)
    requires j.destination == j.source
    ensures BlitRect(j).Some? <==> SourceDrawable(j) && DestinationDrawable(j)
  {
    AcceptedExactly(j.b, j.source, j.srcX, j.srcY, j.width, j.height, j.format);
    AcceptedExactly(j.b, j.source, j.dstX, j.dstY, j.width, j.height, j.format);
    if j.Source().Hardware? {
      SameSurfaceExact(j.b, j.source, j.format, j.width, j.height, j.srcX, j.srcY, j.dstX, j.dstY);
      AcceptedFields(j.b, j.source, j.srcX, j.srcY, j.width, j.height, j.format);
      if j.Destination().Hardware? {
        AcceptedFields(j.b, j.source, j.dstX, j.dstY, j.width, j.height, j.format);
      }
    }
  }

  /** Between two bitmaps it also wants rows of one length, or bytes that lie apart. */
  lemma CompleteTaken(j: Job)
    ensures CompleteCopy(j).Some? <==>
      SourceDrawable(j) && DestinationDrawable(j) &&
      (j.source.bytesPerRow == j.destination.bytesPerRow || ApartInMemory(j))
  {
    AcceptedExactly(j.b, j.source, j.srcX, j.srcY, j.width, j.height, j.format);
    AcceptedExactly(j.b, j.destination, j.dstX, j.dstY, j.width, j.height, j.format);
    if j.Source().Hardware? && j.Destination().Hardware? { DisjointExactly(j); }
  }

  lemma DisjointExactly(j: Job)
    requires j.Source().Hardware? && j.Destination().Hardware? && SourceDrawable(j) && DestinationDrawable(j)
    ensures Disjoint(j.Source().surface, j.Destination().surface) <==> ApartInMemory(j)
  {
    AcceptedExtent(j.b, j.source, j.srcX, j.srcY, j.width, j.height, j.format);
    AcceptedExtent(j.b, j.destination, j.dstX, j.dstY, j.width, j.height, j.format);
    SamePixels(j.b, j.source, j.srcX, j.srcY, j.width, j.height, j.format);
    SamePixels(j.b, j.destination, j.dstX, j.dstY, j.width, j.height, j.format);
  }

  lemma SamePixels(b: BoardMemory, render: Render, x: i16, y: i16, width: i16, height: i16, format: Format)
    requires ValidateSurface(b, render, x, y, width, height, format).Hardware?
    ensures ValidateSurface(b, render, x, y, width, height, format).surface.bytesPerPixel == BytesPerPixel(format)
  {
  }

  // ------------------------------------------------------------ cells and pixels

  lemma WholePixels(bytesPerPixel: nat, pitchOffset: u32)
    requires bytesPerPixel in {1, 2, 4}
    ensures Base(pitchOffset, bytesPerPixel) * bytesPerPixel == pitchOffset % 0x40_0000 * 1024
    ensures RowLength(pitchOffset, bytesPerPixel) * bytesPerPixel == pitchOffset / 0x40_0000 * 64
  {
    var base, row := pitchOffset % 0x40_0000, pitchOffset / 0x40_0000;
    if bytesPerPixel == 1 {
    } else if bytesPerPixel == 2 {
      assert base * 1024 / 2 == base * 512 && row * 64 / 2 == row * 32;
    } else {
      assert base * 1024 / 4 == base * 256 && row * 64 / 4 == row * 16;
    }
  }

  lemma CellAddress(pitchOffset: u32, bytesPerPixel: nat, x: nat, y: nat)
    requires bytesPerPixel in {1, 2, 4}
    ensures Cell(Base(pitchOffset, bytesPerPixel), RowLength(pitchOffset, bytesPerPixel), x, y) * bytesPerPixel
         == EngineAddress(pitchOffset, x, y, bytesPerPixel)
  {
    WholePixels(bytesPerPixel, pitchOffset);
    var row := RowLength(pitchOffset, bytesPerPixel);
    assert y * row * bytesPerPixel == y * (row * bytesPerPixel);
    Distributes(Base(pitchOffset, bytesPerPixel) + y * row, x, bytesPerPixel);
    Distributes(Base(pitchOffset, bytesPerPixel), y * row, bytesPerPixel);
  }

  /** The offset from the upper left corner of the k-th step along an axis. */
  function Offset(forward: bool, k: int, length: int): int { if forward then k else length - 1 - k }

  /** A pixel of an accepted rectangle lies below the memory limit. */
  lemma PixelBelowLimit(b: BoardMemory, render: Render, x: i16, y: i16, width: i16, height: i16, format: Format,
                        px: nat, py: nat)
    requires ValidateSurface(b, render, x, y, width, height, format).Hardware? && Inside(x, y, width, height, px, py)
    ensures 0 <= PixelOffset(b, render, format, px, py) < MemoryLimit(b)
  {
    AcceptedFields(b, render, x, y, width, height, format);
    PixelWithin(b, render, x, y, width, height, format, px, py);
    AcceptedExtent(b, render, x, y, width, height, format);
  }

  /** A cell whose address is not negative is not negative. */
  lemma CellNotNegative(cell: int, unit: nat)
    requires unit > 0 && cell * unit >= 0
    ensures cell >= 0
  {
    if cell < 0 { Rises(cell, -1, unit); }
  }

  lemma CellOfPixel(b: BoardMemory, render: Render, x: i16, y: i16, width: i16, height: i16, format: Format,
                    px: nat, py: nat)
    requires ValidateSurface(b, render, x, y, width, height, format).Hardware?
    requires px < width && py < height
    ensures format != Unsupported
    ensures var s := ValidateSurface(b, render, x, y, width, height, format).surface;
      var cell := Cell(Base(s.pitchOffset, BytesPerPixel(format)), RowLength(s.pitchOffset, BytesPerPixel(format)),
                       s.xBias + x + px, s.yBias + y + py);
      && cell * BytesPerPixel(format) == b.framebufferGpuBase + PixelOffset(b, render, format, x + px, y + py)
      && cell * BytesPerPixel(format) < b.framebufferGpuBase + MemoryLimit(b) && 0 <= cell
      && s.bytesPerPixel == BytesPerPixel(format)
  {
    AcceptedFields(b, render, x, y, width, height, format);
    AcceptedAddresses(b, render, x, y, width, height, format, x + px, y + py);
    PixelBelowLimit(b, render, x, y, width, height, format, x + px, y + py);
    var s := ValidateSurface(b, render, x, y, width, height, format).surface;
    CellAddress(s.pitchOffset, s.bytesPerPixel, s.xBias + x + px, s.yBias + y + py);
    CellNotNegative(Cell(Base(s.pitchOffset, s.bytesPerPixel), RowLength(s.pitchOffset, s.bytesPerPixel),
                         s.xBias + x + px, s.yBias + y + py), s.bytesPerPixel);
  }

  lemma Divided(cell: int, unit: nat, bytes: int)
    requires unit > 0 && cell * unit == bytes
    ensures bytes / unit == cell
  {
    ModUnique(bytes, cell, 0, unit);
  }

  lemma BelowSize(cell: int, unit: nat, limit: int, size: nat)
    requires unit > 0 && 0 <= cell && cell * unit < limit <= size * unit
    ensures cell < size
  {
    if cell >= size { Rises(size, cell, unit); }
  }

  /** The cell the engine uses for a pixel of an accepted rectangle. */
  function CornerCell(s: Surface, x: int, y: int, px: int, py: int): int {
    if s.bytesPerPixel == 0 then 0
    else
      Cell(Base(s.pitchOffset, s.bytesPerPixel), RowLength(s.pitchOffset, s.bytesPerPixel),
           s.xBias + x + px, s.yBias + y + py)
  }

  /** What a validated rectangle means for the engine: every pixel in its cell, inside memory, in its row. */
  predicate Placed(s: Surface, b: BoardMemory, render: Render, format: Format, x: int, y: int, width: int, height: int,
                   size: nat)
  {
    && s.bytesPerPixel == BytesPerPixel(format) > 0 && x >= 0 && y >= 0 && width > 0 && height > 0
    && x + width <= RowLength(s.pitchOffset, s.bytesPerPixel)
    && forall px, py :: 0 <= px < width && 0 <= py < height ==>
         0 <= CornerCell(s, x, y, px, py) < size
         && CornerCell(s, x, y, px, py) == PixelCell(b, render, format, x + px, y + py)
  }

  /** Video memory is large enough for the boards' bitmaps, in pixels of the format. */
  predicate Covers(size: nat, b: BoardMemory, format: Format) {
    b.framebufferGpuBase + MemoryLimit(b) <= size * BytesPerPixel(format)
  }

  lemma AcceptedPlaced(b: BoardMemory, render: Render, x: i16, y: i16, width: i16, height: i16, format: Format,
                       size: nat, s: Surface)
    requires ValidateSurface(b, render, x, y, width, height, format) == Hardware(s) && Covers(size, b, format)
    ensures Placed(s, b, render, format, x, y, width, height, size)
  {
    AcceptedFields(b, render, x, y, width, height, format);
    RowHolds(b, render, x, y, width, height, format, s);
    forall px, py | 0 <= px < width && 0 <= py < height
      ensures 0 <= CornerCell(s, x, y, px, py) < size
      ensures CornerCell(s, x, y, px, py) == PixelCell(b, render, format, x + px, y + py)
    {
      PixelPlaced(b, render, x, y, width, height, format, size, s, px, py);
    }
  }

  lemma RowHolds(b: BoardMemory, render: Render, x: i16, y: i16, width: i16, height: i16, format: Format, s: Surface)
    requires ValidateSurface(b, render, x, y, width, height, format) == Hardware(s)
    ensures s.bytesPerPixel == BytesPerPixel(format) && s.bytesPerPixel in {1, 2, 4}
    ensures x + width <= RowLength(s.pitchOffset, s.bytesPerPixel)
    ensures RowLength(s.pitchOffset, s.bytesPerPixel) * s.bytesPerPixel == render.bytesPerRow
  {
    AcceptedFields(b, render, x, y, width, height, format);
    RectangleBounds(x, y, width, height, s.bytesPerPixel, s.pitch, s.memoryLimit - s.surfaceOffset);
    PackedRow(s.pitch, b.framebufferGpuBase + s.surfaceOffset, s.bytesPerPixel, x + width);
  }

  lemma PackedRow(pitch: u32, gpuAddress: u32, bytesPerPixel: nat, right: nat)
    requires pitch <= MAX_PITCH && pitch % 64 == 0 && bytesPerPixel in {1, 2, 4} && right * bytesPerPixel <= pitch
    ensures right <= RowLength(Pack(pitch, gpuAddress), bytesPerPixel)
    ensures RowLength(Pack(pitch, gpuAddress), bytesPerPixel) * bytesPerPixel == pitch
  {
    PackDecodes(pitch, gpuAddress);
    WholePixels(bytesPerPixel, Pack(pitch, gpuAddress));
    var row := RowLength(Pack(pitch, gpuAddress), bytesPerPixel);
    if right > row {
      Rises(row + 1, right, bytesPerPixel);
      Distributes(row, 1, bytesPerPixel);
    }
  }

  lemma PixelPlaced(b: BoardMemory, render: Render, x: i16, y: i16, width: i16, height: i16, format: Format,
                    size: nat, s: Surface, px: nat, py: nat)
    requires ValidateSurface(b, render, x, y, width, height, format) == Hardware(s) && Covers(size, b, format)
    requires px < width && py < height
    ensures 0 <= CornerCell(s, x, y, px, py) < size
    ensures CornerCell(s, x, y, px, py) == PixelCell(b, render, format, x + px, y + py)
  {
    CellOfPixel(b, render, x, y, width, height, format, px, py);
    var unit, cell := BytesPerPixel(format), CornerCell(s, x, y, px, py);
    Divided(cell, unit, b.framebufferGpuBase + PixelOffset(b, render, format, x + px, y + py));
    BelowSize(cell, unit, b.framebufferGpuBase + MemoryLimit(b), size);
  }

  // ------------------------------------------------------------ the submitted walk

  /** Step (row, column) of a submitted blit handles the pixel it should. */
  lemma StepPixel(source: Surface, destination: Surface, srcX: nat, srcY: nat, dstX: nat, dstY: nat,
                  width: nat, height: nat, sameLayout: bool, reverse: bool, row: nat, column: nat)
    requires row < height && column < width && source.bytesPerPixel == destination.bytesPerPixel > 0
    ensures var g := SubmitCopy(source, destination, srcX, srcY, dstX, dstY, width, height, sameLayout, reverse);
      var px, py := Offset(g.leftToRight, column, width), Offset(g.topToBottom, row, height);
      && SourceCell(g, row, column) == CornerCell(source, srcX, srcY, px, py)
      && DestinationCell(g, row, column) == CornerCell(destination, dstX, dstY, px, py)
      && 0 <= px < width && 0 <= py < height
  {
    var g := SubmitCopy(source, destination, srcX, srcY, dstX, dstY, width, height, sameLayout, reverse);
    var px, py := Offset(g.leftToRight, column, width), Offset(g.topToBottom, row, height);
    assert g.sourceX + Along(g.leftToRight, column) == source.xBias + srcX + px;
    assert g.sourceY + Along(g.topToBottom, row) == source.yBias + srcY + py;
    assert g.destinationX + Along(g.leftToRight, column) == destination.xBias + dstX + px;
    assert g.destinationY + Along(g.topToBottom, row) == destination.yBias + dstY + py;
  }

  /** Both rectangles of a job as the engine sees them. */
  predicate Engine(j: Job, source: Surface, destination: Surface, size: nat) {
    && Placed(source, j.b, j.source, j.format, j.srcX, j.srcY, j.width, j.height, size)
    && Placed(destination, j.b, j.destination, j.format, j.dstX, j.dstY, j.width, j.height, size)
  }

  lemma StepOfJob(j: Job, s: Surface, d: Surface, size: nat, sameLayout: bool, reverse: bool, row: nat, column: nat)
    requires Engine(j, s, d, size) && row < j.height && column < j.width
    ensures var g := Submit(j, s, d, sameLayout, reverse);
      var px, py := Offset(g.leftToRight, column, j.width), Offset(g.topToBottom, row, j.height);
      && g.bytesPerPixel == s.bytesPerPixel && g.width == j.width && g.height == j.height
      && SourceCell(g, row, column) == j.SourcePixel(px, py) && 0 <= j.SourcePixel(px, py) < size
      && DestinationCell(g, row, column) == j.DestinationPixel(px, py) && 0 <= j.DestinationPixel(px, py) < size
      && 0 <= px < j.width && 0 <= py < j.height
  {
    StepPixel(s, d, j.srcX, j.srcY, j.dstX, j.dstY, j.width, j.height, sameLayout, reverse, row, column);
    var g := Submit(j, s, d, sameLayout, reverse);
    var px, py := Offset(g.leftToRight, column, j.width), Offset(g.topToBottom, row, j.height);
    assert 0 <= CornerCell(s, j.srcX, j.srcY, px, py) < size;
    assert 0 <= CornerCell(d, j.dstX, j.dstY, px, py) < size;
  }

  lemma JobInMemory(j: Job, s: Surface, d: Surface, size: nat, sameLayout: bool, reverse: bool)
    requires Engine(j, s, d, size)
    ensures InMemory(Submit(j, s, d, sameLayout, reverse), size)
  {
    var g := Submit(j, s, d, sameLayout, reverse);
    forall row, column | 0 <= row < g.height && 0 <= column < g.width
      ensures 0 <= SourceCell(g, row, column) < size && 0 <= DestinationCell(g, row, column) < size
    {
      StepOfJob(j, s, d, size, sameLayout, reverse, row, column);
    }
  }

  // ------------------------------------------------------------ what a copy means

  predicate InRectangle(j: Job, px: int, py: int) { 0 <= px < j.width && 0 <= py < j.height }

  /** The destination rectangle holds the old pixels of both rectangles, mixed; nothing else changed. */
  ghost predicate Moved(j: Job, mix: Mix, old_: seq<Pixel>, new_: seq<Pixel>)
    requires |old_| == |new_|
  {
    && (forall px, py :: InRectangle(j, px, py) ==>
          && 0 <= j.SourcePixel(px, py) < |old_| && 0 <= j.DestinationPixel(px, py) < |old_|
          && new_[j.DestinationPixel(px, py)] == mix(old_[j.SourcePixel(px, py)], old_[j.DestinationPixel(px, py)]))
    && (forall cell :: 0 <= cell < |old_| && OutsideDestination(j, cell) ==> new_[cell] == old_[cell])
  }

  ghost predicate OutsideDestination(j: Job, cell: int) {
    forall px, py :: InRectangle(j, px, py) ==> j.DestinationPixel(px, py) != cell
  }

  lemma StepToPixel(j: Job, s: Surface, d: Surface, size: nat, sameLayout: bool, reverse: bool, k: nat)
    returns (px: int, py: int)
    requires Engine(j, s, d, size) && InMemory(Submit(j, s, d, sameLayout, reverse), size)
    requires k < |WalkOf(Submit(j, s, d, sameLayout, reverse), size).to|
    ensures var w := WalkOf(Submit(j, s, d, sameLayout, reverse), size);
      InRectangle(j, px, py) && w.from[k] == j.SourcePixel(px, py) && w.to[k] == j.DestinationPixel(px, py)
  {
    var g := Submit(j, s, d, sameLayout, reverse);
    StepInside(g, k);
    StepOfJob(j, s, d, size, sameLayout, reverse, k / g.width, k % g.width);
    px, py := Offset(g.leftToRight, k % g.width, j.width), Offset(g.topToBottom, k / g.width, j.height);
  }

  lemma PixelToStep(j: Job, s: Surface, d: Surface, size: nat, sameLayout: bool, reverse: bool, px: nat, py: nat)
    returns (k: nat)
    requires Engine(j, s, d, size) && InMemory(Submit(j, s, d, sameLayout, reverse), size) && InRectangle(j, px, py)
    ensures var w := WalkOf(Submit(j, s, d, sameLayout, reverse), size);
      k < |w.to| && w.from[k] == j.SourcePixel(px, py) && w.to[k] == j.DestinationPixel(px, py)
  {
    var g := Submit(j, s, d, sameLayout, reverse);
    var row, column := Offset(g.topToBottom, py, j.height), Offset(g.leftToRight, px, j.width);
    StepAt(g.width, row, column, g.height);
    StepOf(g, size, row, column, row * g.width + column);
    StepOfJob(j, s, d, size, sameLayout, reverse, row, column);
    k := row * g.width + column;
  }

  lemma SnapshotMoves(j: Job, s: Surface, d: Surface, size: nat, sameLayout: bool, reverse: bool,
                      mix: Mix, old_: seq<Pixel>, new_: seq<Pixel>)
    requires Engine(j, s, d, size) && InMemory(Submit(j, s, d, sameLayout, reverse), size)
    requires |old_| == |new_| == size
    requires var w := WalkOf(Submit(j, s, d, sameLayout, reverse), size);
      SnapshotCopy(w, mix, old_, new_, |w.to|)
    ensures Moved(j, mix, old_, new_)
  {
    var w := WalkOf(Submit(j, s, d, sameLayout, reverse), size);
    forall px, py | InRectangle(j, px, py)
      ensures 0 <= j.SourcePixel(px, py) < size && 0 <= j.DestinationPixel(px, py) < size
      ensures new_[j.DestinationPixel(px, py)] == mix(old_[j.SourcePixel(px, py)], old_[j.DestinationPixel(px, py)])
    {
      var k := PixelToStep(j, s, d, size, sameLayout, reverse, px, py);
    }
    forall cell | 0 <= cell < size && OutsideDestination(j, cell) ensures new_[cell] == old_[cell] {
      forall k | 0 <= k < |w.to| ensures w.to[k] != cell {
        var px, py := StepToPixel(j, s, d, size, sameLayout, reverse, k);
      }
      assert Untouched(w, cell, |w.to|);
    }
  }

  lemma MovedSnapshots(j: Job, s: Surface, d: Surface, size: nat, sameLayout: bool, reverse: bool,
                       mix: Mix, old_: seq<Pixel>, new_: seq<Pixel>)
    requires Engine(j, s, d, size) && InMemory(Submit(j, s, d, sameLayout, reverse), size)
    requires |old_| == |new_| == size && Moved(j, mix, old_, new_)
    ensures var w := WalkOf(Submit(j, s, d, sameLayout, reverse), size);
      SnapshotCopy(w, mix, old_, new_, |w.to|)
  {
    var w := WalkOf(Submit(j, s, d, sameLayout, reverse), size);
    forall k | 0 <= k < |w.to| ensures new_[w.to[k]] == mix(old_[w.from[k]], old_[w.to[k]]) {
      var px, py := StepToPixel(j, s, d, size, sameLayout, reverse, k);
    }
    forall cell | 0 <= cell < size && Untouched(w, cell, |w.to|) ensures new_[cell] == old_[cell] {
      forall px, py | InRectangle(j, px, py) ensures j.DestinationPixel(px, py) != cell {
        var k := PixelToStep(j, s, d, size, sameLayout, reverse, px, py);
      }
      assert OutsideDestination(j, cell);
    }
  }

  // ------------------------------------------------------------ when it is safe

  lemma RowsDistinct(j: Job, s: Surface, d: Surface, size: nat, sameLayout: bool, reverse: bool)
    requires Engine(j, s, d, size) && InMemory(Submit(j, s, d, sameLayout, reverse), size)
    ensures WalkOf(Submit(j, s, d, sameLayout, reverse), size).Distinct()
  {
    var g := Submit(j, s, d, sameLayout, reverse);
    RowsApart(g);
    WalkSafe(g, size);
  }

  /** A cell of an accepted rectangle lies between its start and its end. */
  lemma CellInExtent(b: BoardMemory, render: Render, x: i16, y: i16, width: i16, height: i16, format: Format,
                     s: Surface, px: nat, py: nat)
    requires ValidateSurface(b, render, x, y, width, height, format) == Hardware(s) && px < width && py < height
    ensures s.bytesPerPixel == BytesPerPixel(format) > 0
    ensures b.framebufferGpuBase + s.startOffset <= CornerCell(s, x, y, px, py) * s.bytesPerPixel
    ensures CornerCell(s, x, y, px, py) * s.bytesPerPixel < b.framebufferGpuBase + s.endOffset
  {
    CellOfPixel(b, render, x, y, width, height, format, px, py);
    AcceptedFields(b, render, x, y, width, height, format);
    PixelWithin(b, render, x, y, width, height, format, x + px, y + py);
  }

  /** Byte ranges that do not meet have no cell in common. */
  lemma DisjointPixels(j: Job, s: Surface, d: Surface, px: nat, py: nat, qx: nat, qy: nat)
    requires j.Source() == Hardware(s) && j.Destination() == Hardware(d) && Disjoint(s, d)
    requires InRectangle(j, px, py) && InRectangle(j, qx, qy)
    ensures CornerCell(s, j.srcX, j.srcY, px, py) != CornerCell(d, j.dstX, j.dstY, qx, qy)
  {
    CellInExtent(j.b, j.source, j.srcX, j.srcY, j.width, j.height, j.format, s, px, py);
    CellInExtent(j.b, j.destination, j.dstX, j.dstY, j.width, j.height, j.format, d, qx, qy);
  }

  lemma DisjointSafe(j: Job, s: Surface, d: Surface, size: nat, sameLayout: bool, reverse: bool)
    requires j.Source() == Hardware(s) && j.Destination() == Hardware(d) && Disjoint(s, d)
    requires Engine(j, s, d, size) && InMemory(Submit(j, s, d, sameLayout, reverse), size)
    ensures WalkOf(Submit(j, s, d, sameLayout, reverse), size).HazardFree()
  {
    var g := Submit(j, s, d, sameLayout, reverse);
    forall r1, c1, r2, c2 | 0 <= r1 < g.height && 0 <= c1 < g.width && 0 <= r2 < g.height && 0 <= c2 < g.width
                            && Before(r1, c1, r2, c2)
      ensures DestinationCell(g, r1, c1) != SourceCell(g, r2, c2)
    {
      StepPixel(s, d, j.srcX, j.srcY, j.dstX, j.dstY, j.width, j.height, sameLayout, reverse, r1, c1);
      StepPixel(s, d, j.srcX, j.srcY, j.dstX, j.dstY, j.width, j.height, sameLayout, reverse, r2, c2);
      DisjointPixels(j, s, d, Offset(g.leftToRight, c2, j.width), Offset(g.topToBottom, r2, j.height),
                     Offset(g.leftToRight, c1, j.width), Offset(g.topToBottom, r1, j.height));
    }
    WalkSafe(g, size);
  }

  /** Equal rows, walked towards the side the destination lies on: nothing written is read later. */
  lemma RunningAway(row: int, source: int, destination: int, width: int, height: int, forward: bool,
                    r1: int, c1: int, r2: int, c2: int)
    requires 0 < width <= row && 0 <= c1 < width && 0 <= c2 < width && Before(r1, c1, r2, c2)
    requires forward == (destination <= source)
    ensures destination + Offset(forward, r1, height) * row + Offset(forward, c1, width)
         != source + Offset(forward, r2, height) * row + Offset(forward, c2, width)
  {
    if forward {
      LaterCell(row, r1, c1, r2, c2);
    } else {
      LaterCell(row, height - 1 - r2, width - 1 - c2, height - 1 - r1, width - 1 - c1);
    }
  }

  lemma CornerSplits(s: Surface, x: int, y: int, px: int, py: int)
    requires s.bytesPerPixel > 0
    ensures CornerCell(s, x, y, px, py)
         == CornerCell(s, x, y, 0, 0) + py * RowLength(s.pitchOffset, s.bytesPerPixel) + px
  {
    Distributes(s.yBias + y, py, RowLength(s.pitchOffset, s.bytesPerPixel));
  }

  lemma EqualRowsSafe(j: Job, s: Surface, d: Surface, size: nat, row: nat, reverse: bool)
    requires Engine(j, s, d, size) && InMemory(Submit(j, s, d, false, reverse), size)
    requires row == RowLength(s.pitchOffset, s.bytesPerPixel) == RowLength(d.pitchOffset, d.bytesPerPixel)
    requires reverse == (CornerCell(d, j.dstX, j.dstY, 0, 0) > CornerCell(s, j.srcX, j.srcY, 0, 0))
    ensures WalkOf(Submit(j, s, d, false, reverse), size).HazardFree()
  {
    var g := Submit(j, s, d, false, reverse);
    forall r1, c1, r2, c2 | 0 <= r1 < g.height && 0 <= c1 < g.width && 0 <= r2 < g.height && 0 <= c2 < g.width
                            && Before(r1, c1, r2, c2)
      ensures DestinationCell(g, r1, c1) != SourceCell(g, r2, c2)
    {
      StepPixel(s, d, j.srcX, j.srcY, j.dstX, j.dstY, j.width, j.height, false, reverse, r1, c1);
      StepPixel(s, d, j.srcX, j.srcY, j.dstX, j.dstY, j.width, j.height, false, reverse, r2, c2);
      CornerSplits(d, j.dstX, j.dstY, Offset(!reverse, c1, j.width), Offset(!reverse, r1, j.height));
      CornerSplits(s, j.srcX, j.srcY, Offset(!reverse, c2, j.width), Offset(!reverse, r2, j.height));
      RunningAway(row, CornerCell(s, j.srcX, j.srcY, 0, 0), CornerCell(d, j.dstX, j.dstY, 0, 0), j.width, j.height,
                  !reverse, r1, c1, r2, c2);
    }
    WalkSafe(g, size);
  }

  lemma CornerAddress(b: BoardMemory, render: Render, x: i16, y: i16, width: i16, height: i16, format: Format,
                      s: Surface)
    requires ValidateSurface(b, render, x, y, width, height, format) == Hardware(s)
    ensures CornerCell(s, x, y, 0, 0) * BytesPerPixel(format) == b.framebufferGpuBase + s.startOffset
    ensures BytesPerPixel(format) > 0
  {
    AcceptedFields(b, render, x, y, width, height, format);
    AcceptedExtent(b, render, x, y, width, height, format);
    CellOfPixel(b, render, x, y, width, height, format, 0, 0);
  }

  /** Start offsets compare like the corner cells they stand for. */
  lemma CornersCompare(j: Job, s: Surface, d: Surface)
    requires j.Source() == Hardware(s) && j.Destination() == Hardware(d)
    ensures d.startOffset > s.startOffset <==> CornerCell(d, j.dstX, j.dstY, 0, 0) > CornerCell(s, j.srcX, j.srcY, 0, 0)
  {
    CornerAddress(j.b, j.source, j.srcX, j.srcY, j.width, j.height, j.format, s);
    CornerAddress(j.b, j.destination, j.dstX, j.dstY, j.width, j.height, j.format, d);
    Compared(CornerCell(d, j.dstX, j.dstY, 0, 0), CornerCell(s, j.srcX, j.srcY, 0, 0), BytesPerPixel(j.format));
  }

  lemma Compared(a: int, b: int, unit: nat)
    requires unit > 0
    ensures a > b <==> a * unit > b * unit
  {
    if a > b { Rises(b + 1, a, unit); Distributes(b, 1, unit); } else { Rises(a, b, unit); }
  }

  /** A shared register, as SharedExactly wants it. */
  lemma SharedJob(j: Job, s: Surface, d: Surface, size: nat, reverse: bool)
    requires Engine(j, s, d, size) && s.pitchOffset == d.pitchOffset
    ensures Shared(Submit(j, s, d, true, reverse), RowLength(s.pitchOffset, s.bytesPerPixel),
                   Dx(s, d, j.srcX, j.dstX), Dy(s, d, j.srcY, j.dstY))
  {
  }

  // ------------------------------------------------------------ the two operations

  /** The guard: a shared register is only a danger when a cell's second name is read too late. */
  predicate DirectionSuffices(j: Job, s: Surface, d: Surface)
    requires s.bytesPerPixel > 0 && RowLength(s.pitchOffset, s.bytesPerPixel) > 0
  {
    s.pitchOffset == d.pitchOffset ==>
      SharedRegisterSafe(RowLength(s.pitchOffset, s.bytesPerPixel), Dx(s, d, j.srcX, j.dstX), Dy(s, d, j.srcY, j.dstY),
                         j.width, j.height)
  }

  lemma EnginePlaced(j: Job, s: Surface, d: Surface, size: nat)
    requires j.Source() == Hardware(s) && j.Destination() == Hardware(d) && Covers(size, j.b, j.format)
    ensures Engine(j, s, d, size)
  {
    AcceptedPlaced(j.b, j.source, j.srcX, j.srcY, j.width, j.height, j.format, size, s);
    AcceptedPlaced(j.b, j.destination, j.dstX, j.dstY, j.width, j.height, j.format, size, d);
  }

  lemma CompleteHazards(j: Job, s: Surface, d: Surface, size: nat, same: bool, reverse: bool)
    requires j.Source() == Hardware(s) && j.Destination() == Hardware(d) && Engine(j, s, d, size)
    requires Disjoint(s, d) || j.source.bytesPerRow == j.destination.bytesPerRow
    requires same == (s.pitchOffset == d.pitchOffset)
    requires reverse == (!Disjoint(s, d) && d.startOffset > s.startOffset)
    requires InMemory(Submit(j, s, d, same, reverse), size)
    ensures WalkOf(Submit(j, s, d, same, reverse), size).HazardFree() <==> DirectionSuffices(j, s, d)
  {
    if same {
      SharedJob(j, s, d, size, reverse);
      SharedExactly(Submit(j, s, d, true, reverse), size, RowLength(s.pitchOffset, s.bytesPerPixel),
                    Dx(s, d, j.srcX, j.dstX), Dy(s, d, j.srcY, j.dstY));
    } else if Disjoint(s, d) {
      DisjointSafe(j, s, d, size, same, reverse);
    } else {
      EqualRows(j, s, d);
      CornersCompare(j, s, d);
      EqualRowsSafe(j, s, d, size, RowLength(s.pitchOffset, s.bytesPerPixel), reverse);
    }
  }

  lemma EqualRows(j: Job, s: Surface, d: Surface)
    requires j.Source() == Hardware(s) && j.Destination() == Hardware(d)
    requires j.source.bytesPerRow == j.destination.bytesPerRow
    ensures s.bytesPerPixel == d.bytesPerPixel > 0
    ensures RowLength(s.pitchOffset, s.bytesPerPixel) == RowLength(d.pitchOffset, d.bytesPerPixel)
  {
    RowHolds(j.b, j.source, j.srcX, j.srcY, j.width, j.height, j.format, s);
    RowHolds(j.b, j.destination, j.dstX, j.dstY, j.width, j.height, j.format, d);
    var rs, rd := RowLength(s.pitchOffset, s.bytesPerPixel), RowLength(d.pitchOffset, d.bytesPerPixel);
    Divided(rs, s.bytesPerPixel, j.source.bytesPerRow);
    Divided(rd, s.bytesPerPixel, j.source.bytesPerRow);
  }

  /** Hardware copies with no hazard move the rectangle like a snapshot, for every raster operation and memory. */
  lemma SafeCopyMoves(j: Job, s: Surface, d: Surface, size: nat, same: bool, reverse: bool, mix: Mix,
      pixels: seq<Pixel>)
    requires Engine(j, s, d, size) && |pixels| == size
    requires InMemory(Submit(j, s, d, same, reverse), size)
    requires WalkOf(Submit(j, s, d, same, reverse), size).HazardFree()
    ensures var w := WalkOf(Submit(j, s, d, same, reverse), size);
      Moved(j, mix, pixels, After(w, mix, pixels, |w.to|))
  {
    var w := WalkOf(Submit(j, s, d, same, reverse), size);
    RowsDistinct(j, s, d, size, same, reverse);
    HazardFreeCopies(w, mix, pixels, |w.to|);
    SnapshotMoves(j, s, d, size, same, reverse, mix, pixels, After(w, mix, pixels, |w.to|));
  }

  /**
   RadeonBlitRect: for every overlap, size and write mask, the rectangle moves as if
   it had been copied from a snapshot.
   */
  lemma BlitRectCopies(j: Job, size: nat, mix: Mix, pixels: seq<Pixel>)
    requires j.destination == j.source && BlitRect(j).Some?
    requires Covers(size, j.b, j.format) && |pixels| == size
    ensures var g := BlitRect(j).value;
      && InMemory(g, size)
      && var w := WalkOf(g, size); Moved(j, mix, pixels, After(w, mix, pixels, |w.to|))
  {
    var s := j.Source().surface;
    SameSurfaceExact(j.b, j.source, j.format, j.width, j.height, j.srcX, j.srcY, j.dstX, j.dstY);
    var d := j.Destination().surface;
    EnginePlaced(j, s, d, size);
    JobInMemory(j, s, d, size, true, false);
    SharedJob(j, s, d, size, false);
    var row := RowLength(s.pitchOffset, s.bytesPerPixel);
    OneSurfaceSafe(row, Dx(s, d, j.srcX, j.dstX), Dy(s, d, j.srcY, j.dstY), j.width, j.height);
    SharedExactly(Submit(j, s, d, true, false), size, row, Dx(s, d, j.srcX, j.dstX), Dy(s, d, j.srcY, j.dstY));
    SafeCopyMoves(j, s, d, size, true, false, mix, pixels);
  }

  /** Every step of a blit with one register moves by the same number of cells. */
  lemma SharedShift(j: Job, s: Surface, d: Surface, size: nat, reverse: bool, shift: int)
    requires Engine(j, s, d, size) && s.pitchOffset == d.pitchOffset
    requires InMemory(Submit(j, s, d, true, reverse), size)
    requires shift == Dy(s, d, j.srcY, j.dstY) * RowLength(s.pitchOffset, s.bytesPerPixel) + Dx(s, d, j.srcX, j.dstX)
    ensures var w := WalkOf(Submit(j, s, d, true, reverse), size);
      forall k :: 0 <= k < |w.to| ==> w.to[k] == w.from[k] + shift
  {
    var g := Submit(j, s, d, true, reverse);
    var w := WalkOf(g, size);
    forall k | 0 <= k < |w.to| ensures w.to[k] == w.from[k] + shift {
      StepInside(g, k);
      StepShift(g, k / g.width, k % g.width, RowLength(s.pitchOffset, s.bytesPerPixel),
                Dx(s, d, j.srcX, j.dstX), Dy(s, d, j.srcY, j.dstY));
    }
  }

  lemma StepShift(g: Blit, r: nat, c: nat, row: nat, ex: int, ey: int)
    requires Shared(g, row, ex, ey)
    ensures DestinationCell(g, r, c) == SourceCell(g, r, c) + (ey * row + ex)
  {
    Distributes(g.sourceY + Along(g.topToBottom, r), ey, row);
  }

  /** The engine moves this rectangle like a snapshot whatever the raster operation and the pixels. */
  ghost predicate AlwaysMoves(j: Job, g: Blit, size: nat)
    requires InMemory(g, size)
  {
    forall mix: Mix, pixels: seq<Pixel> :: |pixels| == size ==>
      Moved(j, mix, pixels, After(WalkOf(g, size), mix, pixels, |WalkOf(g, size).to|))
  }

  lemma HazardBreaks(j: Job, s: Surface, d: Surface, size: nat, reverse: bool)
    requires Engine(j, s, d, size) && s.pitchOffset == d.pitchOffset
    requires InMemory(Submit(j, s, d, true, reverse), size)
    requires AlwaysMoves(j, Submit(j, s, d, true, reverse), size)
    ensures WalkOf(Submit(j, s, d, true, reverse), size).HazardFree()
  {
    var w := WalkOf(Submit(j, s, d, true, reverse), size);
    var shift := Dy(s, d, j.srcY, j.dstY) * RowLength(s.pitchOffset, s.bytesPerPixel) + Dx(s, d, j.srcX, j.dstX);
    SharedShift(j, s, d, size, reverse, shift);
    RowsDistinct(j, s, d, size, true, reverse);
    forall mix: Mix, pixels: seq<Pixel> | |pixels| == size
      ensures SnapshotCopy(w, mix, pixels, After(w, mix, pixels, |w.to|), |w.to|)
    {
      MovedSnapshots(j, s, d, size, true, reverse, mix, pixels, After(w, mix, pixels, |w.to|));
    }
    CopiesExactly(w, size, shift);
  }

  /**
   RadeonBlitRectNoMaskComplete: a submitted copy moves its rectangle like a snapshot
   for every raster operation and every memory if and only if the two surfaces have
   different registers or the shared register passes the guard.  In particular
   disjoint surfaces and equal-pitch surfaces with registers of their own are safe.
   */
  lemma CompleteCopyExactly(j: Job, size: nat)
    requires CompleteCopy(j).Some? && Covers(size, j.b, j.format)
    ensures InMemory(CompleteCopy(j).value, size)
    ensures j.Source().surface.bytesPerPixel > 0
    ensures RowLength(j.Source().surface.pitchOffset, j.Source().surface.bytesPerPixel) > 0
    ensures AlwaysMoves(j, CompleteCopy(j).value, size)
       <==> DirectionSuffices(j, j.Source().surface, j.Destination().surface)
  {
    var s, d := j.Source().surface, j.Destination().surface;
    var same, reverse := s.pitchOffset == d.pitchOffset, !Disjoint(s, d) && d.startOffset > s.startOffset;
    EnginePlaced(j, s, d, size);
    JobInMemory(j, s, d, size, same, reverse);
    CompleteHazards(j, s, d, size, same, reverse);
    var g := Submit(j, s, d, same, reverse);
    if WalkOf(g, size).HazardFree() {
      forall mix: Mix, pixels: seq<Pixel> | |pixels| == size
        ensures Moved(j, mix, pixels, After(WalkOf(g, size), mix, pixels, |WalkOf(g, size).to|))
      {
        SafeCopyMoves(j, s, d, size, same, reverse, mix, pixels);
      }
    } else if AlwaysMoves(j, g, size) {
      HazardBreaks(j, s, d, size, reverse);
    }
  }

  /** Disjoint rectangles always pass, even with a shared register. */
  lemma DisjointPasses(j: Job, size: nat)
    requires CompleteCopy(j).Some? && Covers(size, j.b, j.format)
    requires Disjoint(j.Source().surface, j.Destination().surface)
    ensures InMemory(CompleteCopy(j).value, size) && AlwaysMoves(j, CompleteCopy(j).value, size)
  {
    var s, d := j.Source().surface, j.Destination().surface;
    CompleteCopyExactly(j, size);
    EnginePlaced(j, s, d, size);
    var same := s.pitchOffset == d.pitchOffset;
    DisjointSafe(j, s, d, size, same, false);
    CompleteHazards(j, s, d, size, same, false);
  }

  // ------------------------------------------------------------ a copy that goes wrong

  /** Two 64-byte-pitch bitmaps 32 bytes apart; row 0 of the destination runs over the start of source row 1. */
  const OVERLAP := Job(BoardMemory(0x1000_0000, 0x10_0000, 0x10_0000, 0x10_0000, 0),
                       Render(0x1000_0000, 64), Render(0x1000_0020, 64), Clut, 2, 0, 0, 0, 40, 2)
  const OVERLAP_SOURCE := Surface(0x40_0000, 2, 106, 0, 0x10_0000, 64, 1, 0, 0)
  const OVERLAP_DESTINATION := Surface(0x40_0000, 32, 136, 32, 0x10_0000, 64, 1, 32, 0)

  /** Small literal rectangles, evaluated step by step. */
  lemma OverlapChecks(x: nat, offset: nat)
    requires (x == 2 && offset == 0) || (x == 0 && offset == 32)
    ensures BiasOf(offset, 64, 1) == Bias(offset, 0)
    ensures CheckRectangle(x, 0, 40, 2, 1, 64, 0x10_0000 - offset) == None
    ensures Accept(offset, 0x10_0000, 64, 1, Pack(64, offset), offset, 0, x, 0, 40, 2)
         == Hardware(Surface(0x40_0000, offset + x, offset + x + 104, offset, 0x10_0000, 64, 1, offset, 0))
  {
  }

  lemma OverlapSource()
    ensures OVERLAP.Source() == Hardware(OVERLAP_SOURCE)
  {
    OverlapChecks(2, 0);
  }

  lemma OverlapDestination()
    ensures OVERLAP.Destination() == Hardware(OVERLAP_DESTINATION)
  {
    OverlapChecks(0, 32);
  }

  lemma OverlapRereads()
    ensures RowLength(0x40_0000, 1) == 64
    ensures !SharedRegisterSafe(64, 30, 0, 40, 2)
  {
    assert 30 / 64 == 0;
    assert Reread(64, 30, 0, 40, 2, 1);
  }

  /** Any submitted copy whose shared register fails the guard. */
  lemma GuardFails(j: Job, s: Surface, d: Surface, row: nat, ex: int, ey: int, size: nat)
    requires j.Source() == Hardware(s) && j.Destination() == Hardware(d) && s.pitchOffset == d.pitchOffset
    requires j.source.bytesPerRow == j.destination.bytesPerRow && Covers(size, j.b, j.format)
    requires s.bytesPerPixel > 0 && row == RowLength(s.pitchOffset, s.bytesPerPixel) && row > 0
    requires ex == Dx(s, d, j.srcX, j.dstX) && ey == Dy(s, d, j.srcY, j.dstY)
    requires !SharedRegisterSafe(row, ex, ey, j.width, j.height)
    ensures CompleteCopy(j).Some? && InMemory(CompleteCopy(j).value, size)
    ensures !AlwaysMoves(j, CompleteCopy(j).value, size)
  {
    CompleteCopyExactly(j, size);
  }

  /** The driver submits this copy, and some memory shows that it does not move like a snapshot. */
  lemma SharedRegisterCorrupts(size: nat)
    requires size >= 0x10_0000
    ensures CompleteCopy(OVERLAP).Some? && InMemory(CompleteCopy(OVERLAP).value, size)
    ensures !AlwaysMoves(OVERLAP, CompleteCopy(OVERLAP).value, size)
  {
    OverlapSource();
    OverlapDestination();
    OverlapRereads();
    GuardFails(OVERLAP, OVERLAP_SOURCE, OVERLAP_DESTINATION, 64, 30, 0, size);
  }
}
