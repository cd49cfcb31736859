/**
 One colour-expansion pass over a rectangle (SubmitPlanarPass in src/radeon_accel.c):
 which bit it streams for a pixel, said in terms of that pixel's plane index.
 */
module PlanarPasses {
  import opened Words
  import opened Bits
  import opened Planar

  // ------------------------------------------------------------ the index of a pixel

  /** A data plane with its bit set at the pixel. */
  predicate DataSet(source: PlanarSource, row: nat, column: nat, width: nat, height: nat, p: nat)
    requires source.InPlanes(width, height) && column < width && row < height && p < source.Depth()
  {
    source.planes[p].Data? && source.Pixel(p, row, column, width, height)
  }

  /** The data planes that are set at a pixel. */
  function DataIndex(source: PlanarSource, row: nat, column: nat, width: nat, height: nat): Bits
    requires source.InPlanes(width, height) && column < width && row < height
  {
    set p: nat | p < source.Depth() && DataSet(source, row, column, width, height, p)
  }

  // ------------------------------------------------------------ the members of a pass

  /** Every selected plane below p has data. */
  predicate Usable(source: PlanarSource, andMask: Bits, andNotMask: Bits, p: nat)
    requires p <= source.Depth()
  {
    forall q :: 0 <= q < p && q in andMask + andNotMask ==> source.planes[q].Data?
  }

  function MembersOf(source: PlanarSource, andMask: Bits, andNotMask: Bits, p: nat): seq<Member>
    requires p <= source.Depth() && Usable(source, andMask, andNotMask, p)
  {
    if p == 0 then []
    else if p - 1 in andMask + andNotMask then
      MembersOf(source, andMask, andNotMask, p - 1) + [Member(source.planes[p - 1].bits, p - 1 in andNotMask)]
    else MembersOf(source, andMask, andNotMask, p - 1)
  }

  lemma {:induction false} MembersReach(source: PlanarSource, andMask: Bits, andNotMask: Bits, p: nat,
                                        row: nat, width: nat, height: nat)
    requires source.InPlanes(width, height) && row < height
    requires p <= source.Depth() && Usable(source, andMask, andNotMask, p)
    ensures Reach(MembersOf(source, andMask, andNotMask, p), source.RowStart(row) + source.bitOffset + width)
  {
    if p > 0 {
      MembersReach(source, andMask, andNotMask, p - 1, row, width, height);
      if source.planes[p - 1].Data? {
        assert source.RowsInside(|source.planes[p - 1].bits|, width, height);
      }
    }
  }

  /** The bit of plane q is what the pass wants there. */
  predicate Agrees(source: PlanarSource, andMask: Bits, andNotMask: Bits, q: nat, at: nat) {
    q in andMask + andNotMask ==>
      q < source.Depth() && source.planes[q].Data? && at < |source.planes[q].bits|
      && source.planes[q].bits[at] != (q in andNotMask)
  }

  lemma StreamedGrows(source: PlanarSource, andMask: Bits, andNotMask: Bits, p: nat, at: nat)
    requires 0 < p <= source.Depth() && Usable(source, andMask, andNotMask, p)
    requires Reach(MembersOf(source, andMask, andNotMask, p), at + 1)
    ensures Reach(MembersOf(source, andMask, andNotMask, p - 1), at + 1)
    ensures Streamed(MembersOf(source, andMask, andNotMask, p), at)
       <==>
         Streamed(MembersOf(source, andMask, andNotMask, p - 1), at) && Agrees(source, andMask, andNotMask, p - 1, at)
  {
    var longer, shorter := MembersOf(source, andMask, andNotMask, p), MembersOf(source, andMask, andNotMask, p - 1);
    forall m | 0 <= m < |shorter| ensures longer[m] == shorter[m] {
    }
    forall m | 0 <= m < |shorter| ensures at + 1 <= |shorter[m].bits| {
      assert longer[m] == shorter[m];
    }
    if p - 1 in andMask + andNotMask {
      assert longer[|shorter|] == Member(source.planes[p - 1].bits, p - 1 in andNotMask);
      if Streamed(longer, at) {
        forall m | 0 <= m < |shorter| ensures shorter[m].bits[at] != shorter[m].invert {
          assert longer[m] == shorter[m];
        }
      }
    }
  }

  lemma {:induction false} StreamedAgrees(source: PlanarSource, andMask: Bits, andNotMask: Bits, p: nat, at: nat)
    requires p <= source.Depth() && Usable(source, andMask, andNotMask, p)
    requires Reach(MembersOf(source, andMask, andNotMask, p), at + 1)
    ensures Streamed(MembersOf(source, andMask, andNotMask, p), at)
       <==> forall q :: 0 <= q < p ==> Agrees(source, andMask, andNotMask, q, at)
  {
    if p > 0 {
      StreamedGrows(source, andMask, andNotMask, p, at);
      StreamedAgrees(source, andMask, andNotMask, p - 1, at);
    }
  }

  // ------------------------------------------------------------ which pixels a pass paints

  /** An index that has all planes of one mask and none of the other. */
  predicate Selects(index: Bits, andMask: Bits, andNotMask: Bits) {
    andMask <= index && andNotMask !! index
  }

  /** The masks of a pass: planes of the source, none in both senses. */
  predicate PassMasks(source: PlanarSource, andMask: Bits, andNotMask: Bits) {
    andMask !! andNotMask && forall q :: q in andMask + andNotMask ==> q < source.Depth()
  }

  /** The streamed bit is set exactly for the pixels whose plane index the masks select. */
  lemma StreamedSelects(source: PlanarSource, andMask: Bits, andNotMask: Bits, row: nat, column: nat,
                        width: nat, height: nat, at: nat)
    requires source.InPlanes(width, height) && column < width && row < height
    requires Usable(source, andMask, andNotMask, source.Depth()) && PassMasks(source, andMask, andNotMask)
    requires at == source.RowStart(row) + source.bitOffset + column
    requires Reach(MembersOf(source, andMask, andNotMask, source.Depth()), at + 1)
    ensures Streamed(MembersOf(source, andMask, andNotMask, source.Depth()), at)
       <==> Selects(DataIndex(source, row, column, width, height), andMask, andNotMask)
  {
    var index := DataIndex(source, row, column, width, height);
    StreamedAgrees(source, andMask, andNotMask, source.Depth(), at);
    forall q | q in andMask + andNotMask
      ensures Agrees(source, andMask, andNotMask, q, at) <==> (q in index <==> q in andMask)
    {
      assert source.RowsInside(|source.planes[q].bits|, width, height);
    }
  }

  // ------------------------------------------------------------ painting

  /** What becomes of the pixel at a row and column of the rectangle. */
  type PixelMap = (int, int, Pixel) -> Pixel

  predicate SameShape(a: seq<seq<Pixel>>, b: seq<seq<Pixel>>) {
    |a| == |b| && forall i :: 0 <= i < |a| ==> |a[i]| == |b[i]|
  }

  predicate Holds(rect: Rect, rows: seq<seq<Pixel>>) {
    rect.y + rect.height <= |rows| && forall i :: 0 <= i < |rows| ==> rect.x + rect.width <= |rows[i]|
  }

  predicate RowPainted(before: seq<Pixel>, after: seq<Pixel>, rect: Rect, row: int, f: PixelMap)
    requires |before| == |after|
  {
    forall j :: 0 <= j < |before| ==>
      after[j] == if rect.InColumns(j) then f(row, j - rect.x, before[j]) else before[j]
  }

  predicate LinePainted(before: seq<Pixel>, after: seq<Pixel>, rect: Rect, i: int, f: PixelMap, rows: nat)
    requires |before| == |after|
  {
    if rect.y <= i < rect.y + rows then RowPainted(before, after, rect, i - rect.y, f) else after == before
  }

  /** The first `rows` rows of the rectangle are mapped by f; every other pixel of the surface is as before. */
  predicate Painted(before: seq<seq<Pixel>>, after: seq<seq<Pixel>>, rect: Rect, f: PixelMap, rows: nat) {
    && SameShape(before, after) && Holds(rect, before) && rows <= rect.height
    && forall i :: 0 <= i < |before| ==> LinePainted(before[i], after[i], rect, i, f, rows)
  }

  lemma MapsCompose(rect: Rect, row: int, k: int, pixel: Pixel, f: PixelMap, g: PixelMap, h: PixelMap)
    requires forall k: int, p: Pixel :: 0 <= k < rect.width ==> h(row, k, p) == g(row, k, f(row, k, p))
    requires 0 <= k < rect.width
    ensures h(row, k, pixel) == g(row, k, f(row, k, pixel))
  {
  }

  lemma RowComposes(a: seq<Pixel>, b: seq<Pixel>, c: seq<Pixel>, rect: Rect, row: int,
                    f: PixelMap, g: PixelMap, h: PixelMap)
    requires |a| == |b| == |c|
    requires RowPainted(a, b, rect, row, f) && RowPainted(b, c, rect, row, g)
    requires forall k: int, p: Pixel :: 0 <= k < rect.width ==> h(row, k, p) == g(row, k, f(row, k, p))
    ensures RowPainted(a, c, rect, row, h)
  {
    forall j | 0 <= j < |a|
      ensures c[j] == if rect.InColumns(j) then h(row, j - rect.x, a[j]) else a[j]
    {
      assert b[j] == if rect.InColumns(j) then f(row, j - rect.x, a[j]) else a[j];
      assert c[j] == if rect.InColumns(j) then g(row, j - rect.x, b[j]) else b[j];
      if rect.InColumns(j) {
        var k := j - rect.x;
        assert 0 <= k < rect.width;
        MapsCompose(rect, row, k, a[j], f, g, h);
      }
    }
  }

  /** Two passes over one rectangle act like one. */
  lemma PaintedComposes(a: seq<seq<Pixel>>, b: seq<seq<Pixel>>, c: seq<seq<Pixel>>, rect: Rect,
                        f: PixelMap, g: PixelMap, h: PixelMap)
    requires Painted(a, b, rect, f, rect.height) && Painted(b, c, rect, g, rect.height)
    requires forall r: int, k: int, p: Pixel :: 0 <= r < rect.height && 0 <= k < rect.width ==>
      h(r, k, p) == g(r, k, f(r, k, p))
    ensures Painted(a, c, rect, h, rect.height)
  {
    forall i | 0 <= i < |a| ensures LinePainted(a[i], c[i], rect, i, h, rect.height) {
      assert LinePainted(a[i], b[i], rect, i, f, rect.height) && LinePainted(b[i], c[i], rect, i, g, rect.height);
      if rect.InRows(i) { RowComposes(a[i], b[i], c[i], rect, i - rect.y, f, g, h); }
    }
  }

  /** Only the values inside the rectangle matter. */
  lemma PaintedAlike(a: seq<seq<Pixel>>, b: seq<seq<Pixel>>, rect: Rect, f: PixelMap, h: PixelMap)
    requires Painted(a, b, rect, f, rect.height)
    requires forall r: int, k: int, p: Pixel :: 0 <= r < rect.height && 0 <= k < rect.width ==> h(r, k, p) == f(r, k, p)
    ensures Painted(a, b, rect, h, rect.height)
  {
    forall i | 0 <= i < |a| ensures LinePainted(a[i], b[i], rect, i, h, rect.height) {
      assert LinePainted(a[i], b[i], rect, i, f, rect.height);
    }
  }

  /** One more row drawn. */
  lemma PaintedGrows(before: seq<seq<Pixel>>, after: seq<seq<Pixel>>, rect: Rect, f: PixelMap, row: nat,
      drawn: seq<Pixel>)
    requires row < rect.height && Painted(before, after, rect, f, row)
    requires |drawn| == |before[rect.y + row]| && RowPainted(before[rect.y + row], drawn, rect, row, f)
    ensures Painted(before, after[rect.y + row := drawn], rect, f, row + 1)
  {
    var grown := after[rect.y + row := drawn];
    forall i | 0 <= i < |before| ensures |before[i]| == |grown[i]| &&
      LinePainted(before[i], grown[i], rect, i, f, row + 1) {
      assert LinePainted(before[i], after[i], rect, i, f, row);
    }
  }

  /** A prepared source for the rectangle. */
  predicate Sourced(source: PlanarSource, rect: Rect) {
    source.InPlanes(rect.width, rect.height)
  }

  predicate SelectedAt(source: PlanarSource, rect: Rect, andMask: Bits, andNotMask: Bits, r: int, c: int)
    requires Sourced(source, rect)
  {
    0 <= r < rect.height && 0 <= c < rect.width &&
    Selects(DataIndex(source, r, c, rect.width, rect.height), andMask, andNotMask)
  }

  function PassMap(source: PlanarSource, rect: Rect, andMask: Bits, andNotMask: Bits, paint: Paint): PixelMap
    requires Sourced(source, rect)
  {
    (r: int, c: int, p: Pixel) => paint(p, SelectedAt(source, rect, andMask, andNotMask, r, c))
  }

  lemma RowSelected(source: PlanarSource, rect: Rect, andMask: Bits, andNotMask: Bits, paint: Paint, row: nat,
                    words: seq<Word>, before: seq<Pixel>, after: seq<Pixel>)
    requires Sourced(source, rect) && row < rect.height && PassMasks(source, andMask, andNotMask)
    requires Usable(source, andMask, andNotMask, source.Depth())
    requires rect.x + rect.width <= |before| && |before| == |after| && rect.width <= 32 * |words|
    requires var members := MembersOf(source, andMask, andNotMask, source.Depth());
      var start := source.RowStart(row) + source.bitOffset;
      Reach(members, start + rect.width) && Carries(words, members, start, rect.width)
    requires forall c :: 0 <= c < rect.width ==> after[rect.x + c] == paint(before[rect.x + c], StreamBit(words, c))
    requires forall j :: 0 <= j < |before| && !rect.InColumns(j) ==> after[j] == before[j]
    ensures RowPainted(before, after, rect, row, PassMap(source, rect, andMask, andNotMask, paint))
  {
    var start := source.RowStart(row) + source.bitOffset;
    forall j | 0 <= j < |before| && rect.InColumns(j)
      ensures after[j] == paint(before[j], SelectedAt(source, rect, andMask, andNotMask, row, j - rect.x))
    {
      var c := j - rect.x;
      assert rect.x + c == j;
      StreamedSelects(source, andMask, andNotMask, row, c, rect.width, rect.height, start + c);
      assert StreamBit(words, c) == Streamed(MembersOf(source, andMask, andNotMask, source.Depth()), start + c);
    }
  }

  /** The planes of a pass, or a refusal when one of them has no data or none is selected. */
  method CollectMembers(source: PlanarSource, andMask: Bits, andNotMask: Bits) returns (members: Option<seq<Member>>)
    ensures members.Some? ==>
      Usable(source, andMask, andNotMask, source.Depth()) &&
        members.value == MembersOf(source, andMask, andNotMask, source.Depth())
    ensures members.Some? == (Usable(source, andMask, andNotMask, source.Depth())
                              && exists q :: 0 <= q < source.Depth() && q in andMask + andNotMask)
  {
    var found: seq<Member> := [];
    for p := 0 to source.Depth()
      invariant Usable(source, andMask, andNotMask, p) && found == MembersOf(source, andMask, andNotMask, p)
      invariant found == [] <==> forall q :: 0 <= q < p ==> q !in andMask + andNotMask
    {
      if p in andMask + andNotMask {
        if !source.planes[p].Data? {
          return None;
        }
        found := found + [Member(source.planes[p].bits, p in andNotMask)];
      }
    }
    members := if found == [] then None else Some(found);
  }

  /** SubmitPlanarPass, with the engine's work: every pixel of the rectangle, and no other, is painted by its bit. */
  method SubmitPass(image: Image, source: PlanarSource, rect: Rect, andMask: Bits, andNotMask: Bits, paint: Paint)
    returns (ok: bool)
    requires Sourced(source, rect) && rect.Fits(image) && PassMasks(source, andMask, andNotMask)
    modifies image
    ensures !ok ==> image[..] == old(image[..])
    ensures ok ==> Painted(old(image[..]), image[..], rect, PassMap(source, rect, andMask, andNotMask, paint),
      rect.height)
    ensures ok == (Usable(source, andMask, andNotMask, source.Depth())
                   && exists q :: 0 <= q < source.Depth() && q in andMask + andNotMask)
  {
    var collected := CollectMembers(source, andMask, andNotMask);
    if collected == None {
      return false;
    }
    ghost var before, f := image[..], PassMap(source, rect, andMask, andNotMask, paint);
    for row := 0 to rect.height
      invariant Painted(before, image[..], rect, f, row)
    {
      assert LinePainted(before[rect.y + row], image[..][rect.y + row], rect, rect.y + row, f, row);
      var line := image[rect.y + row];
      var drawn := DrawRow(line, source, rect, andMask, andNotMask, paint, row, collected.value);
      PaintedGrows(before, image[..], rect, f, row, drawn);
      image[rect.y + row] := drawn;
    }
    ok := true;
  }

  /** One row: stream its words, expand them. */
  method DrawRow(line: seq<Pixel>, source: PlanarSource, rect: Rect, andMask: Bits, andNotMask: Bits, paint: Paint,
                 row: nat, members: seq<Member>) returns (drawn: seq<Pixel>)
    requires Sourced(source, rect) && row < rect.height && PassMasks(source, andMask, andNotMask)
    requires Usable(source, andMask, andNotMask, source.Depth())
    requires members == MembersOf(source, andMask, andNotMask, source.Depth())
    requires rect.x + rect.width <= |line|
    ensures |drawn| == |line| && RowPainted(line, drawn, rect, row, PassMap(source, rect, andMask, andNotMask, paint))
  {
    var start := source.RowStart(row) + source.bitOffset;
    MembersReach(source, andMask, andNotMask, source.Depth(), row, rect.width, rect.height);
    var words := StreamRow(members, start, rect.width);
    drawn := ExpandRow(line, rect.x, rect.width, words, paint);
    RowSelected(source, rect, andMask, andNotMask, paint, row, words, line, drawn);
  }
}
