/**
 When in-place copying in the direction SubmitCopy chooses equals copying from a
 snapshot: for one surface, for disjoint surfaces, and for overlapping surfaces of
 equal pitch; and the exact condition for the one case left, two surfaces that share
 a pitch/offset register but not their biases.
 */
module CopySafety {
  import opened Words
  import opened Surfaces
  import opened Raster
  import opened Copy

  // ------------------------------------------------------------ geometry

  lemma UniqueCell(row: int, y1: int, x1: int, y2: int, x2: int)
    requires row > 0 && -row < x1 - x2 < row && y1 * row + x1 == y2 * row + x2
    ensures y1 == y2 && x1 == x2
  {
    if y1 > y2 { Rises(y2 + 1, y1, row); Distributes(y2, 1, row); }
    if y1 < y2 { Rises(y1 + 1, y2, row); Distributes(y1, 1, row); }
  }

  lemma LaterCell(row: int, y1: int, x1: int, y2: int, x2: int)
    requires row > 0 && -row < x1 - x2 < row && (y1 < y2 || (y1 == y2 && x1 < x2))
    ensures y1 * row + x1 < y2 * row + x2
  {
    if y1 < y2 { Rises(y1 + 1, y2, row); Distributes(y1, 1, row); }
  }

  /** The order in which the walk visits its (row, column) steps. */
  predicate Before(row1: int, column1: int, row2: int, column2: int) {
    row1 < row2 || (row1 == row2 && column1 < column2)
  }

  lemma StepsInOrder(width: nat, j: nat, k: nat)
    requires width > 0 && j < k
    ensures Before(j / width, j % width, k / width, k % width)
  {
    if j / width > k / width { Rises(k / width + 1, j / width, width); Distributes(k / width, 1, width); }
  }

  lemma OrderOfSteps(width: nat, r1: nat, c1: nat, r2: nat, c2: nat)
    requires c1 < width && c2 < width && Before(r1, c1, r2, c2)
    ensures r1 * width + c1 < r2 * width + c2
  {
    LaterCell(width, r1, c1, r2, c2);
  }

  /** No step reads a cell that an earlier step wrote. */
  predicate NeverRereads(g: Blit)
    requires g.bytesPerPixel > 0
  {
    forall r1, c1, r2, c2 ::
      0 <= r1 < g.height && 0 <= c1 < g.width && 0 <= r2 < g.height && 0 <= c2 < g.width && Before(r1, c1, r2, c2) ==>
        DestinationCell(g, r1, c1) != SourceCell(g, r2, c2)
  }

  predicate NeverRewrites(g: Blit)
    requires g.bytesPerPixel > 0
  {
    forall r1, c1, r2, c2 ::
      0 <= r1 < g.height && 0 <= c1 < g.width && 0 <= r2 < g.height && 0 <= c2 < g.width && Before(r1, c1, r2, c2) ==>
        DestinationCell(g, r1, c1) != DestinationCell(g, r2, c2)
  }

  lemma WalkSafe(g: Blit, size: nat)
    requires InMemory(g, size)
    ensures NeverRereads(g) ==> WalkOf(g, size).HazardFree()
    ensures NeverRewrites(g) ==> WalkOf(g, size).Distinct()
  {
    var w := WalkOf(g, size);
    forall j, k | 0 <= j < k < |w.to|
      ensures NeverRereads(g) ==> w.to[j] != w.from[k]
      ensures NeverRewrites(g) ==> w.to[j] != w.to[k]
    {
      StepInside(g, j);
      StepInside(g, k);
      StepsInOrder(g.width, j, k);
    }
  }

  lemma WalkHazard(g: Blit, size: nat, r1: nat, c1: nat, r2: nat, c2: nat)
    requires InMemory(g, size) && r1 < g.height && c1 < g.width && r2 < g.height && c2 < g.width
    requires Before(r1, c1, r2, c2) && DestinationCell(g, r1, c1) == SourceCell(g, r2, c2)
    ensures !WalkOf(g, size).HazardFree()
  {
    var w := WalkOf(g, size);
    StepAt(g.width, r1, c1, g.height);
    StepAt(g.width, r2, c2, g.height);
    OrderOfSteps(g.width, r1, c1, r2, c2);
    var j, k := r1 * g.width + c1, r2 * g.width + c2;
    assert w.to[j] == w.from[k];
  }

  /** Rows at least as long as the rectangle is wide keep the written cells apart. */
  lemma RowsApart(g: Blit)
    requires g.bytesPerPixel > 0 && g.width <= RowLength(g.destinationPitchOffset, g.bytesPerPixel)
    ensures NeverRewrites(g)
  {
    var row := RowLength(g.destinationPitchOffset, g.bytesPerPixel);
    forall r1, c1, r2, c2 | 0 <= r1 < g.height && 0 <= c1 < g.width && 0 <= r2 < g.height && 0 <= c2 < g.width
                            && Before(r1, c1, r2, c2)
      ensures DestinationCell(g, r1, c1) != DestinationCell(g, r2, c2)
    {
      if DestinationCell(g, r1, c1) == DestinationCell(g, r2, c2) {
        UniqueCell(row, g.destinationY + Along(g.topToBottom, r1), g.destinationX + Along(g.leftToRight, c1),
                   g.destinationY + Along(g.topToBottom, r2), g.destinationX + Along(g.leftToRight, c2));
      }
    }
  }

  // ------------------------------------------------------------ the direction choice

  /** Biased distance from source corner to destination corner. */
  function Dx(source: Surface, destination: Surface, srcX: int, dstX: int): int {
    dstX + destination.xBias - srcX - source.xBias
  }

  function Dy(source: Surface, destination: Surface, srcY: int, dstY: int): int {
    dstY + destination.yBias - srcY - source.yBias
  }

  /** The steps of the walk that the two flags choose, relative to each other. */
  predicate Earlier(leftToRight: bool, topToBottom: bool, dx: int, dy: int) {
    if dy != 0 then (if topToBottom then dy < 0 else dy > 0) else (if leftToRight then dx < 0 else dx > 0)
  }

  /**
   With one register for both surfaces a cell has at most two names within reach:
   `j` rows down and `j` row lengths back.  The name with j rows off is read after
   it was written when this holds.
   */
  predicate Reread(row: int, ex: int, ey: int, width: int, height: int, j: int) {
    var dx, dy := j * row - ex, -ey - j;
    -width < dx < width && -height < dy < height && Earlier(ex <= 0, ey <= 0, dx, dy)
  }

  /** The guard a caller could test: neither of the two names is reread. */
  predicate SharedRegisterSafe(row: nat, ex: int, ey: int, width: int, height: int)
    requires row > 0
  {
    !Reread(row, ex, ey, width, height, ex / row) && !Reread(row, ex, ey, width, height, ex / row + 1)
  }

  /** A blit between surfaces that share their register. */
  predicate Shared(g: Blit, row: nat, ex: int, ey: int) {
    && g.bytesPerPixel > 0 && g.sourcePitchOffset == g.destinationPitchOffset
    && row == RowLength(g.sourcePitchOffset, g.bytesPerPixel) && 0 < g.width <= row && g.height > 0
    && g.destinationX - g.sourceX == ex && g.destinationY - g.sourceY == ey
    && g.leftToRight == (ex <= 0) && g.topToBottom == (ey <= 0)
  }

  /** Two multiples of the row length bracket the horizontal distance. */
  lemma TwoNames(row: int, ex: int, j: int)
    requires row > 0 && -row < j * row - ex < row
    ensures j == ex / row || j == ex / row + 1
  {
    var q := ex / row;
    if j > q + 1 { Rises(q + 2, j, row); Distributes(q, 2, row); }
    if j < q { Rises(j + 1, q, row); Distributes(j, 1, row); }
  }

  /** A cell met again dx to the right and dy down must be the name that is j rows off. */
  lemma NameOf(row: nat, ex: int, ey: int, dx: int, dy: int, j: int)
    requires (dy + ey) * row + (dx + ex) == 0 && j == -ey - dy
    ensures dx == j * row - ex
  {
    assert j * row == -((dy + ey) * row) by { Distributes(j, dy + ey, row); }
  }

  lemma SharedRereads(g: Blit, row: nat, ex: int, ey: int, r1: nat, c1: nat, r2: nat, c2: nat)
    requires Shared(g, row, ex, ey) && r1 < g.height && c1 < g.width && r2 < g.height && c2 < g.width
    requires Before(r1, c1, r2, c2) && DestinationCell(g, r1, c1) == SourceCell(g, r2, c2)
    ensures !SharedRegisterSafe(row, ex, ey, g.width, g.height)
  {
    var dx := Along(g.leftToRight, c1) - Along(g.leftToRight, c2);
    var dy := Along(g.topToBottom, r1) - Along(g.topToBottom, r2);
    SameCell(row, g.sourceX + Along(g.leftToRight, c2), g.sourceY + Along(g.topToBottom, r2), dx + ex, dy + ey);
    NameOf(row, ex, ey, dx, dy, -ey - dy);
    NamedRereads(row, ex, ey, g.width, g.height, dx, dy);
  }

  lemma NamedRereads(row: nat, ex: int, ey: int, width: int, height: int, dx: int, dy: int)
    requires 0 < width <= row && dx == (-ey - dy) * row - ex
    requires -width < dx < width && -height < dy < height && Earlier(ex <= 0, ey <= 0, dx, dy)
    ensures !SharedRegisterSafe(row, ex, ey, width, height)
  {
    TwoNames(row, ex, -ey - dy);
    assert Reread(row, ex, ey, width, height, -ey - dy);
  }

  lemma SameCell(row: nat, x: int, y: int, dx: int, dy: int)
    requires (y + dy) * row + (x + dx) == y * row + x
    ensures dy * row + dx == 0
  {
    Distributes(y, dy, row);
  }

  /** The steps at which a predicted reread happens. */
  lemma SharedRereadHappens(g: Blit, size: nat, row: nat, ex: int, ey: int, j: int)
    requires InMemory(g, size) && Shared(g, row, ex, ey) && Reread(row, ex, ey, g.width, g.height, j)
    ensures !WalkOf(g, size).HazardFree()
  {
    var dx, dy := j * row - ex, -ey - j;
    var cx, ry := if g.leftToRight then dx else -dx, if g.topToBottom then dy else -dy;
    var c2, r2 := if cx < 0 then -cx else 0, if ry < 0 then -ry else 0;
    var c1, r1 := c2 + cx, r2 + ry;
    var x, y := g.sourceX + Along(g.leftToRight, c2), g.sourceY + Along(g.topToBottom, r2);
    assert (y + dy + ey) * row + (x + dx + ex) == y * row + x by {
      assert dy + ey == -j;
      Distributes(y, -j, row);
      Distributes(j, -j, row);
    }
    WalkHazard(g, size, r1, c1, r2, c2);
  }

  /** Exactly when a copy between surfaces with a shared register rereads what it wrote. */
  lemma SharedExactly(g: Blit, size: nat, row: nat, ex: int, ey: int)
    requires InMemory(g, size) && Shared(g, row, ex, ey)
    ensures WalkOf(g, size).HazardFree() <==> SharedRegisterSafe(row, ex, ey, g.width, g.height)
  {
    if SharedRegisterSafe(row, ex, ey, g.width, g.height) {
      forall r1, c1, r2, c2 | 0 <= r1 < g.height && 0 <= c1 < g.width && 0 <= r2 < g.height && 0 <= c2 < g.width
                              && Before(r1, c1, r2, c2)
        ensures DestinationCell(g, r1, c1) != SourceCell(g, r2, c2)
      {
        if DestinationCell(g, r1, c1) == SourceCell(g, r2, c2) { SharedRereads(g, row, ex, ey, r1, c1, r2, c2); }
      }
      WalkSafe(g, size);
    } else if Reread(row, ex, ey, g.width, g.height, ex / row) {
      SharedRereadHappens(g, size, row, ex, ey, ex / row);
    } else {
      SharedRereadHappens(g, size, row, ex, ey, ex / row + 1);
    }
  }

  /** Two rectangles of one surface never meet across a row end, so the choice is always safe for them. */
  lemma OneSurfaceSafe(row: nat, ex: int, ey: int, width: nat, height: nat)
    requires 0 < width <= row && -(row - width) <= ex <= row - width
    ensures SharedRegisterSafe(row, ex, ey, width, height)
  {
    if ex >= 0 {
      ModUnique(ex, 0, ex, row);
    } else {
      ModUnique(ex, -1, ex + row, row);
    }
  }
}
