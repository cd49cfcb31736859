/**
 Rectangle copies (SubmitCopy and its two callers in src/radeon_accel.c).

 The driver programs a corner, a size and a direction; the engine then walks rows and
 columns in that direction and copies in place.  Cells are pixels, numbered from GPU
 address zero.
 */
module Copy {
  import opened Words
  import opened Surfaces
  import opened Raster

  datatype Blit = Blit(sourcePitchOffset: u32, destinationPitchOffset: u32, bytesPerPixel: nat,
                       sourceX: int, sourceY: int, destinationX: int, destinationY: int, width: nat, height: nat,
                       leftToRight: bool, topToBottom: bool)

  /** SubmitCopy: bias both corners, choose a direction per axis, start from the matching corner. */
  function SubmitCopy(source: Surface, destination: Surface, srcX: nat, srcY: nat, dstX: nat, dstY: nat,
                      width: nat, height: nat, sameLayout: bool, reverseSurface: bool): Blit
  {
    var sx, dx := srcX + source.xBias, dstX + destination.xBias;
    var sy, dy := srcY + source.yBias, dstY + destination.yBias;
    var leftToRight := (!sameLayout && !reverseSurface) || (sameLayout && dx <= sx);
    var topToBottom := (!sameLayout && !reverseSurface) || (sameLayout && dy <= sy);
    var right := if leftToRight then 0 else width - 1;
    var down := if topToBottom then 0 else height - 1;
    Blit(source.pitchOffset, destination.pitchOffset, source.bytesPerPixel,
         sx + right, sy + down, dx + right, dy + down, width, height, leftToRight, topToBottom)
  }

  // ------------------------------------------------------------ the engine

  /** Rows and row lengths in pixels, as the card decodes the register. */
  function Base(pitchOffset: u32, bytesPerPixel: nat): nat
    requires bytesPerPixel > 0
  {
    pitchOffset % 0x40_0000 * 1024 / bytesPerPixel
  }

  function RowLength(pitchOffset: u32, bytesPerPixel: nat): nat
    requires bytesPerPixel > 0
  {
    pitchOffset / 0x40_0000 * 64 / bytesPerPixel
  }

  function Cell(base: int, row: int, x: int, y: int): int {
    base + y * row + x
  }

  /** A direction turns the k-th step along an axis into an offset from the start corner. */
  function Along(forward: bool, k: int): int { if forward then k else -k }

  function SourceCell(g: Blit, row: int, column: int): int
    requires g.bytesPerPixel > 0
  {
    Cell(Base(g.sourcePitchOffset, g.bytesPerPixel), RowLength(g.sourcePitchOffset, g.bytesPerPixel),
         g.sourceX + Along(g.leftToRight, column), g.sourceY + Along(g.topToBottom, row))
  }

  function DestinationCell(g: Blit, row: int, column: int): int
    requires g.bytesPerPixel > 0
  {
    Cell(Base(g.destinationPitchOffset, g.bytesPerPixel), RowLength(g.destinationPitchOffset, g.bytesPerPixel),
         g.destinationX + Along(g.leftToRight, column), g.destinationY + Along(g.topToBottom, row))
  }

  predicate InMemory(g: Blit, size: nat) {
    && g.bytesPerPixel > 0
    && forall row, column :: 0 <= row < g.height && 0 <= column < g.width ==>
         0 <= SourceCell(g, row, column) < size && 0 <= DestinationCell(g, row, column) < size
  }

  /** The k-th pixel visited is in row k / width, column k % width of the walk. */
  lemma StepInside(g: Blit, k: nat)
    requires k < g.width * g.height
    ensures g.width > 0 && 0 <= k / g.width < g.height && 0 <= k % g.width < g.width
  {
    if k / g.width >= g.height { Rises(g.height, k / g.width, g.width); }
  }

  function SourceAt(g: Blit, size: nat, k: nat): (cell: nat)
    requires InMemory(g, size) && k < g.width * g.height
    ensures cell < size
  {
    StepInside(g, k);
    SourceCell(g, k / g.width, k % g.width)
  }

  function DestinationAt(g: Blit, size: nat, k: nat): (cell: nat)
    requires InMemory(g, size) && k < g.width * g.height
    ensures cell < size
  {
    StepInside(g, k);
    DestinationCell(g, k / g.width, k % g.width)
  }

  /** The walk of a blit: row after row in the chosen direction. */
  function WalkOf(g: Blit, size: nat): (w: Walk)
    requires InMemory(g, size)
    ensures |w.from| == |w.to| == g.width * g.height && w.Fits(size)
  {
    var n := g.width * g.height;
    Walk(seq(n, k requires 0 <= k < n => SourceAt(g, size, k)),
         seq(n, k requires 0 <= k < n => DestinationAt(g, size, k)))
  }

  lemma StepAt(width: nat, row: nat, column: nat, height: nat)
    requires column < width && row < height
    ensures 0 <= row * width + column < width * height
    ensures (row * width + column) / width == row && (row * width + column) % width == column
  {
    ModUnique(row * width + column, row, column, width);
    Rises(row + 1, height, width);
    Distributes(row, 1, width);
  }

  /** The walk's entry for one pixel. */
  lemma StepOf(g: Blit, size: nat, row: nat, column: nat, n: nat)
    requires InMemory(g, size) && row < g.height && column < g.width && n == row * g.width + column
    ensures var w := WalkOf(g, size);
      n < |w.to| && w.from[n] == SourceCell(g, row, column) && w.to[n] == DestinationCell(g, row, column)
  {
    StepAt(g.width, row, column, g.height);
  }

  method CopyRow(g: Blit, mix: Mix, vram: array<Pixel>, row: nat, ghost w: Walk, ghost first: nat,
                 ghost start: seq<Pixel>)
    requires InMemory(g, vram.Length) && |start| == vram.Length && row < g.height
    requires w == WalkOf(g, vram.Length) && first == row * g.width && first + g.width <= |w.to|
    requires vram[..] == After(w, mix, start, first)
    modifies vram
    ensures vram[..] == After(w, mix, start, first + g.width)
  {
    for column := 0 to g.width
      invariant vram[..] == After(w, mix, start, first + column)
    {
      var from, to := SourceCell(g, row, column), DestinationCell(g, row, column);
      StepOf(g, vram.Length, row, column, first + column);
      Stepped(w, mix, start, first + column, from, to);
      vram[to] := mix(vram[from], vram[to]);
    }
  }

  /** The engine at work: in place, no pixel buffered. */
  method Execute(g: Blit, mix: Mix, vram: array<Pixel>)
    requires InMemory(g, vram.Length)
    modifies vram
    ensures vram[..] == After(WalkOf(g, vram.Length), mix, old(vram[..]), g.width * g.height)
  {
    ghost var start := vram[..];
    for row := 0 to g.height
      invariant 0 <= row * g.width <= g.width * g.height
      invariant vram[..] == After(WalkOf(g, vram.Length), mix, start, row * g.width)
    {
      Rises(row + 1, g.height, g.width);
      Distributes(row, 1, g.width);
      CopyRow(g, mix, vram, row, WalkOf(g, vram.Length), row * g.width, start);
    }
  }
}
