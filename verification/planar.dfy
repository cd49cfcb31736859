/**
 Planar bitmaps and the host-data stream that expands them (src/radeon_accel.c).

 Plane memory is a stream of bits in the order of the 68k bit-field instructions:
 byte by byte, most significant bit first.  A 32-bit register is likewise its 32
 bits, most significant first, which is the order in which the engine consumes them.
 */
module Planar {
  import opened Words
  import opened Bits
  import opened Surfaces

  const MAX_PLANES: nat := 8

  /** A NULL plane pointer, the all-ones pointer, or real memory. */
  datatype Plane = Zero | Ones | Data(bits: seq<bool>, onBoard: bool)

  datatype BitMap = BitMap(bytesPerRow: nat, rows: nat, planes: seq<Plane>)
  {
    /** Every plane pointer designates as many bytes as the bitmap has. */
    predicate Allocated() {
      forall p :: 0 <= p < |planes| && planes[p].Data? ==> |planes[p].bits| == rows * bytesPerRow * 8
    }

    /** One pixel's bit in one plane. */
    function Pixel(p: nat, x: nat, y: nat): bool
      requires Allocated() && p < |planes| && x < bytesPerRow * 8 && y < rows
    {
      match planes[p]
      case Zero => false
      case Ones => true
      case Data(bits, _) => BitIndex(x, y); bits[y * bytesPerRow * 8 + x]
    }

    lemma BitIndex(x: nat, y: nat)
      requires x < bytesPerRow * 8 && y < rows
      ensures 0 <= y * bytesPerRow * 8 + x < rows * bytesPerRow * 8
    {
      Rises(y + 1, rows, bytesPerRow);
      Distributes(y, 1, bytesPerRow);
    }
  }

  /** Where a blit starts: the byte that holds its first pixel, and the bit within it. */
  datatype PlanarSource = PlanarSource(planes: seq<Plane>, firstByte: nat, bitOffset: nat, bytesPerRow: nat)
  {
    function RowStart(row: nat): nat { (firstByte + row * bytesPerRow) * 8 }

    function Depth(): nat { |planes| }

    /** Every row of the rectangle lies inside every plane. */
    predicate InPlanes(width: nat, height: nat) {
      forall p :: 0 <= p < |planes| && planes[p].Data? ==> RowsInside(|planes[p].bits|, width, height)
    }

    predicate RowsInside(bits: nat, width: nat, height: nat) {
      forall row :: 0 <= row < height ==> RowStart(row) + bitOffset + width <= bits
    }

    /** The bit of a plane that belongs to a pixel of the rectangle. */
    function Pixel(p: nat, row: nat, column: nat, width: nat, height: nat): bool
      requires InPlanes(width, height) && p < |planes| && column < width && row < height
    {
      match planes[p]
      case Zero => false
      case Ones => true
      case Data(bits, _) => bits[RowStart(row) + bitOffset + column]
    }
  }

  /** PreparePlanarSource. */
  function Prepare(bm: BitMap, srcX: i16, srcY: i16, width: i16, height: i16): Option<PlanarSource> {
    if width <= 0 || height <= 0 || srcX < 0 || srcY < 0 || bm.bytesPerRow == 0 || |bm.planes| > MAX_PLANES then None
    else if srcX + width > bm.bytesPerRow * 8 || srcY + height > bm.rows then None
    else if exists p :: 0 <= p < |bm.planes| && bm.planes[p].Data? && bm.planes[p].onBoard then None
    else Some(PlanarSource(bm.planes, srcY * bm.bytesPerRow + srcX / 8, srcX % 8, bm.bytesPerRow))
  }

  /** Exactly the rectangles inside the bitmap are taken, from at most eight planes, all of them in CPU memory. */
  lemma PreparedExactly(bm: BitMap, srcX: i16, srcY: i16, width: i16, height: i16)
    ensures Prepare(bm, srcX, srcY, width, height).Some? <==>
      && 0 <= srcX < srcX + width <= 8 * bm.bytesPerRow && 0 <= srcY < srcY + height <= bm.rows
      && |bm.planes| <= 8 && forall plane :: plane in bm.planes ==> plane.Data? ==> !plane.onBoard
  {
    if p :| 0 <= p < |bm.planes| && bm.planes[p].Data? && bm.planes[p].onBoard {
      assert bm.planes[p] in bm.planes;
    }
  }

  lemma RowAddress(bytesPerRow: nat, srcX: nat, srcY: nat, row: nat)
    ensures (srcY * bytesPerRow + srcX / 8 + row * bytesPerRow) * 8 + srcX % 8
         == (srcY + row) * bytesPerRow * 8 + srcX
  {
    Distributes(srcY, row, bytesPerRow);
  }

  /** A prepared source reads inside its planes, and reads the pixels the bitmap has there. */
  lemma PreparedReads(bm: BitMap, srcX: i16, srcY: i16, width: i16, height: i16)
    requires bm.Allocated() && Prepare(bm, srcX, srcY, width, height).Some?
    ensures width > 0 && height > 0 && Prepare(bm, srcX, srcY, width, height).value.InPlanes(width, height)
  {
    var source := Prepare(bm, srcX, srcY, width, height).value;
    forall row | 0 <= row < height
      ensures source.RowStart(row) + source.bitOffset + width <= bm.rows * bm.bytesPerRow * 8
    {
      RowAddress(bm.bytesPerRow, srcX, srcY, row);
      bm.BitIndex(srcX + width - 1, srcY + row);
    }
  }

  lemma PreparedPixel(bm: BitMap, srcX: i16, srcY: i16, width: i16, height: i16, p: nat, row: nat, column: nat)
    requires bm.Allocated() && Prepare(bm, srcX, srcY, width, height).Some?
    requires p < |bm.planes| && row < height && column < width
    ensures var source := Prepare(bm, srcX, srcY, width, height).value;
      && p < |source.planes| && source.InPlanes(width, height)
      && source.Pixel(p, row, column, width, height) == bm.Pixel(p, srcX + column, srcY + row)
  {
    PreparedReads(bm, srcX, srcY, width, height);
    RowAddress(bm.bytesPerRow, srcX, srcY, row);
  }

  // ------------------------------------------------------------ host words

  type Word = w: seq<bool> | |w| == 32 witness seq(32, i => false)

  function Falses(n: nat): (s: seq<bool>)
    ensures |s| == n
  {
    seq(n, i => false)
  }

  /** The bit-field instruction: a field of up to 32 bits, right-aligned in a cleared register. */
  function Extract(bits: seq<bool>, at: nat, fieldWidth: nat): Word
    requires fieldWidth <= 32 && at + fieldWidth <= |bits|
  {
    Falses(32 - fieldWidth) + bits[at..at + fieldWidth]
  }

  function ShiftLeft(w: Word, n: nat): Word
    requires n <= 32
  {
    w[n..] + Falses(n)
  }

  /** TemplateFullWord and TemplatePartialWord: the field ends up left-aligned. */
  function FieldWord(bits: seq<bool>, at: nat, fieldWidth: nat): (w: Word)
    requires fieldWidth <= 32 && at + fieldWidth <= |bits|
    ensures forall k :: 0 <= k < fieldWidth ==> w[k] == bits[at + k]
  {
    ShiftLeft(Extract(bits, at, fieldWidth), 32 - fieldWidth)
  }

  function And(a: Word, b: Word): Word { seq(32, i requires 0 <= i < 32 => a[i] && b[i]) }
  function Not(a: Word): Word { seq(32, i requires 0 <= i < 32 => !a[i]) }
  const ALL_ONES: Word := seq(32, i => true)

  /** The planes a pass combines: their bits, and which of them are complemented. */
  datatype Member = Member(bits: seq<bool>, invert: bool)

  predicate Reach(members: seq<Member>, end: nat) {
    forall m :: 0 <= m < |members| ==> end <= |members[m].bits|
  }

  /** The streamed bit of a pixel: every member plane agrees with its sense. */
  predicate Streamed(members: seq<Member>, at: nat)
    requires Reach(members, at + 1)
  {
    forall m :: 0 <= m < |members| ==> members[m].bits[at] != members[m].invert
  }

  /** One host word: the AND of the members' fields or of their complements. */
  method CombineWord(members: seq<Member>, at: nat, fieldWidth: nat) returns (word: Word)
    requires fieldWidth <= 32 && Reach(members, at + fieldWidth)
    ensures forall k :: 0 <= k < fieldWidth ==> word[k] == Streamed(members, at + k)
  {
    word := ALL_ONES;
    for m := 0 to |members|
      invariant forall k :: 0 <= k < fieldWidth ==>
        word[k] == forall n :: 0 <= n < m ==> members[n].bits[at + k] != members[n].invert
    {
      var field := FieldWord(members[m].bits, at, fieldWidth);
      word := And(word, if members[m].invert then Not(field) else field);
    }
  }

  /** The word the loop sends; with a single plane in its own sense there is nothing to combine. */
  method HostWord(members: seq<Member>, at: nat, fieldWidth: nat) returns (word: Word)
    requires fieldWidth <= 32 && Reach(members, at + fieldWidth)
    ensures forall k :: 0 <= k < fieldWidth ==> word[k] == Streamed(members, at + k)
  {
    if |members| == 1 && !members[0].invert {
      word := FieldWord(members[0].bits, at, fieldWidth);
    } else {
      word := CombineWord(members, at, fieldWidth);
    }
  }

  /** The c-th bit the engine consumes from a row of words. */
  function StreamBit(words: seq<Word>, c: nat): bool
    requires c < 32 * |words|
  {
    words[c / 32][c % 32]
  }

  predicate Carries(words: seq<Word>, members: seq<Member>, start: nat, width: nat)
    requires width <= 32 * |words| && Reach(members, start + width)
  {
    forall c :: 0 <= c < width ==> StreamBit(words, c) == Streamed(members, start + c)
  }

  lemma AppendWord(words: seq<Word>, word: Word, members: seq<Member>, start: nat, fieldWidth: nat)
    requires fieldWidth <= 32 && Reach(members, start + 32 * |words| + fieldWidth)
    requires Carries(words, members, start, 32 * |words|)
    requires forall k :: 0 <= k < fieldWidth ==> word[k] == Streamed(members, start + 32 * |words| + k)
    ensures Carries(words + [word], members, start, 32 * |words| + fieldWidth)
  {
    forall c | 0 <= c < 32 * |words| + fieldWidth
      ensures StreamBit(words + [word], c) == Streamed(members, start + c)
    {
      if c < 32 * |words| {
        assert StreamBit(words, c) == Streamed(members, start + c);
      } else {
        var k := c - 32 * |words|;
        assert c / 32 == |words| && c % 32 == k;
      }
    }
  }

  /** The words of one row: full words while they last, then a left-aligned tail that reads no bit too many. */
  method StreamRow(members: seq<Member>, start: nat, width: nat) returns (words: seq<Word>)
    requires Reach(members, start + width)
    ensures |words| == (width + 31) / 32 && Carries(words, members, start, width)
  {
    words := [];
    var tailWidth := width % 32;
    var fullCount := (width + 31) / 32 - (if tailWidth != 0 then 1 else 0);
    while |words| < fullCount
      invariant |words| <= fullCount
      invariant Carries(words, members, start, 32 * |words|)
    {
      var word := HostWord(members, start + 32 * |words|, 32);
      AppendWord(words, word, members, start, 32);
      words := words + [word];
    }
    if tailWidth != 0 {
      var word := HostWord(members, start + 32 * |words|, tailWidth);
      AppendWord(words, word, members, start, tailWidth);
      words := words + [word];
    }
  }

  // ------------------------------------------------------------ the engine

  /** Colour expansion of one bit; a transparent pass leaves the pixel alone where the bit is clear. */
  datatype Pens = Pens(fg: Pixel, bg: Pixel, writeMask: Bits, transparent: bool)
  {
    function Expand(old_: Pixel, bit: bool): Pixel {
      if bit then Masked(old_, fg, writeMask)
      else if transparent then old_
      else Masked(old_, bg, writeMask)
    }
  }

  /** A surface as its rows of pixels. */
  type Image = array<seq<Pixel>>

  datatype Rect = Rect(x: nat, y: nat, width: nat, height: nat)
  {
    predicate Fits(image: Image)
      reads image
    {
      y + height <= image.Length && forall i :: 0 <= i < image.Length ==> x + width <= |image[i]|
    }

    predicate InRows(i: int) { y <= i < y + height }
    predicate InColumns(j: int) { x <= j < x + width }
  }

  /** What one bit does to one pixel. */
  type Paint = (Pixel, bool) -> Pixel

  /** The engine consumes whole words; the scissor drops the padding at the end of the row. */
  method ExpandRow(line: seq<Pixel>, x: nat, width: nat, words: seq<Word>, paint: Paint) returns (drawn: seq<Pixel>)
    requires x + width <= |line| && width <= 32 * |words|
    ensures |drawn| == |line|
    ensures forall c :: 0 <= c < width ==> drawn[x + c] == paint(line[x + c], StreamBit(words, c))
    ensures forall j :: 0 <= j < |line| && !(x <= j < x + width) ==> drawn[j] == line[j]
  {
    drawn := line;
    for c := 0 to 32 * |words|
      invariant |drawn| == |line|
      invariant forall k :: 0 <= k < width && k < c ==> drawn[x + k] == paint(line[x + k], StreamBit(words, k))
      invariant forall j :: 0 <= j < |line| && !(x <= j < x + width && j < x + c) ==> drawn[j] == line[j]
    {
      if c < width {
        drawn := drawn[x + c := paint(drawn[x + c], StreamBit(words, c))];
      }
    }
  }
}
