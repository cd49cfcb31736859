/**
 Validation and rebasing of 2D surfaces (src/radeon_accel.c).

 The engine addresses a surface by a packed pitch/offset register, whose offset is
 a multiple of 1 KiB, and by coordinates of at most 8191.  A bitmap that starts
 between two such offsets is reached by biasing its coordinates.
 */
module Surfaces {
  import opened Words

  const MAX_PITCH: nat := 16320
  const MAX_COORD: nat := 8191

  type i16 = x: int | -0x8000 <= x < 0x8000

  datatype Format = Clut | R5G6B5Pc | B8G8R8A8 | Unsupported

  function BytesPerPixel(format: Format): nat {
    match format
    case Clut => 1
    case R5G6B5Pc => 2
    case B8G8R8A8 => 4
    case Unsupported => 0
  }

  /** The fields of BoardInfo and its board data that describe memory. */
  datatype BoardMemory = BoardMemory(memoryBase: u32, memorySize: u32, memorySpaceSize: u32,
                                     installedVram: u32, framebufferGpuBase: u32)

  datatype Render = Render(memory: u32, bytesPerRow: i16)

  datatype Surface = Surface(pitchOffset: u32, startOffset: u32, endOffset: u32, surfaceOffset: u32,
                             memoryLimit: u32, pitch: u32, bytesPerPixel: u32, xBias: u32, yBias: u32)

  datatype SurfaceResult = Reject | SoftwareOnboard | SoftwareOffboard | Hardware(surface: Surface)

  function Min(a: u32, b: u32): u32 { if b < a then b else a }

  /** The usable memory: no more than is there, is mapped and is left to Picasso96. */
  function MemoryLimit(b: BoardMemory): (limit: u32)
    ensures limit <= b.memorySize && limit <= b.installedVram && limit <= b.memorySpaceSize
    ensures limit in [b.memorySize, b.installedVram, b.memorySpaceSize]
  {
    Min(Min(b.memorySize, b.installedVram), b.memorySpaceSize)
  }

  /** SoftwareSurfaceResult. */
  function SoftwareResult(b: BoardMemory, memory: u32): SurfaceResult {
    if b.memoryBase != 0 && b.memorySpaceSize != 0 && memory != 0 &&
       (memory < b.memoryBase || memory - b.memoryBase >= b.memorySpaceSize)
    then SoftwareOffboard else SoftwareOnboard
  }

  datatype Bias = Misaligned | Bias(x: u32, y: u32)

  /** Splits the distance to the 1 KiB boundary below into whole rows and whole pixels. */
  function BiasOf(gpuAddress: u32, pitch: u32, bytesPerPixel: u32): Bias
    requires pitch > 0 && bytesPerPixel > 0
  {
    var addressBias := gpuAddress % 1024;
    var yBias := addressBias / pitch;
    var rest := addressBias % pitch;
    if rest % bytesPerPixel != 0 then Misaligned else Bias(rest / bytesPerPixel, yBias)
  }

  function Pack(pitch: u32, gpuAddress: u32): u32
    requires pitch <= MAX_PITCH
  {
    Wrap(pitch / 64 * 0x40_0000 + gpuAddress / 1024)
  }

  /** The rectangle checks that both validations make: `None` accepts. */
  function CheckRectangle(x: i16, y: i16, width: i16, height: i16, bytesPerPixel: u32, pitch: u32,
                          remaining: u32): Option<SurfaceResult>
    requires x >= 0 && y >= 0 && width > 0 && height > 0
  {
    var xEnd := x + width;
    var yEnd := y + height;
    if xEnd - 1 > MAX_COORD || yEnd - 1 > MAX_COORD then Some(SoftwareOnboard)
    else
      var lineEnd := Wrap(xEnd * bytesPerPixel);
      if lineEnd > pitch then Some(Reject)
      else if lineEnd > remaining || Wrap((yEnd - 1) * pitch) > remaining - lineEnd then Some(Reject)
      else None
  }

  function Accept(offset: u32, limit: u32, pitch: u32, bytesPerPixel: u32, pitchOffset: u32, xBias: u32, yBias: u32,
                  x: nat, y: nat, width: nat, height: nat): SurfaceResult
    requires height > 0
  {
    if xBias + x + width - 1 > MAX_COORD || yBias + y + height - 1 > MAX_COORD then SoftwareOnboard
    else
      Hardware(Surface(pitchOffset,
                       Wrap(offset + y * pitch + x * bytesPerPixel),
                       Wrap(offset + (y + height - 1) * pitch + (x + width) * bytesPerPixel),
                       offset, limit, pitch, bytesPerPixel, xBias, yBias))
  }

  /** ValidateSurface. */
  function ValidateSurface(b: BoardMemory, render: Render, x: i16, y: i16, width: i16, height: i16,
                           format: Format): SurfaceResult
  {
    var bpp := BytesPerPixel(format);
    if render.memory == 0 || bpp == 0 || render.bytesPerRow <= 0 then SoftwareResult(b, render.memory)
    else if width <= 0 || height <= 0 then Reject
    else if x < 0 || y < 0 then SoftwareResult(b, render.memory)
    else if render.memory < b.memoryBase || render.memory - b.memoryBase >= b.memorySpaceSize then SoftwareOffboard
    else
      var offset := render.memory - b.memoryBase;
      var limit := MemoryLimit(b);
      var pitch := render.bytesPerRow;
      if offset >= limit then Reject
      else if pitch % 64 != 0 || pitch > MAX_PITCH then SoftwareOnboard
      else
        match CheckRectangle(x, y, width, height, bpp, pitch, limit - offset)
        case Some(refused) => refused
        case None =>
          if b.framebufferGpuBase > TWO32 - 1 - offset then Reject
          else
            var gpuAddress := b.framebufferGpuBase + offset;
            match BiasOf(gpuAddress, pitch, bpp)
            case Misaligned => SoftwareOnboard
            case Bias(xBias, yBias) =>
              Accept(offset, limit, pitch, bpp, Pack(pitch, gpuAddress), xBias, yBias, x, y, width, height)
  }

  /** ValidateSameSurfaceRectangle: only what depends on the rectangle is checked again. */
  function ValidateSame(x: i16, y: i16, width: i16, height: i16, layout: Surface): SurfaceResult
    requires width > 0 && height > 0 && layout.surfaceOffset <= layout.memoryLimit
  {
    if x < 0 || y < 0 then SoftwareOnboard
    else
      match CheckRectangle(x, y, width, height, layout.bytesPerPixel, layout.pitch,
                           layout.memoryLimit - layout.surfaceOffset)
      case Some(refused) => refused
      case None =>
        Accept(layout.surfaceOffset, layout.memoryLimit, layout.pitch, layout.bytesPerPixel, layout.pitchOffset,
               layout.xBias, layout.yBias, x, y, width, height)
  }

  // ------------------------------------------------------------ what the engine sees

  /** The byte the 2D engine touches for a pixel: the register decoded by the card. */
  function EngineAddress(pitchOffset: u32, x: nat, y: nat, bytesPerPixel: nat): nat {
    pitchOffset % 0x40_0000 * 1024 + y * (pitchOffset / 0x40_0000 * 64) + x * bytesPerPixel
  }

  /** The byte Picasso96 means by a pixel of the bitmap. */
  function PixelOffset(b: BoardMemory, render: Render, format: Format, x: nat, y: nat): int {
    render.memory - b.memoryBase + y * render.bytesPerRow + x * BytesPerPixel(format)
  }

  lemma PackDecodes(pitch: u32, gpuAddress: u32)
    requires pitch <= MAX_PITCH && pitch % 64 == 0
    ensures Pack(pitch, gpuAddress) % 0x40_0000 * 1024 == gpuAddress - gpuAddress % 1024
    ensures Pack(pitch, gpuAddress) / 0x40_0000 * 64 == pitch
  {
  }

  lemma BiasSplits(gpuAddress: u32, pitch: u32, bytesPerPixel: u32)
    requires pitch > 0 && bytesPerPixel > 0
    ensures match BiasOf(gpuAddress, pitch, bytesPerPixel)
      case Bias(x, y) => y * pitch + x * bytesPerPixel == gpuAddress % 1024 && x * bytesPerPixel < pitch
      case Misaligned => true
  {
    var rest := gpuAddress % 1024 % pitch;
    assert rest / bytesPerPixel * bytesPerPixel + rest % bytesPerPixel == rest;
  }

  lemma InUnits(bias: nat, pitch: nat)
    requires pitch > 0 && pitch % 64 == 0
    ensures bias == 64 * (bias / pitch * (pitch / 64)) + bias % pitch
  {
    var q, k := bias / pitch, pitch / 64;
    assert q * (64 * k) == 64 * (q * k);
  }

  lemma LowBits(gpuAddress: nat, units: nat, rest: nat, format: Format)
    requires gpuAddress % 1024 == 64 * units + rest && format != Unsupported
    ensures rest % BytesPerPixel(format) == 0 <==> gpuAddress % BytesPerPixel(format) == 0
  {
    match format
    case Clut =>
    case R5G6B5Pc =>
    case B8G8R8A8 =>
  }

  lemma BiasDefined(gpuAddress: u32, pitch: u32, bytesPerPixel: u32)
    requires pitch > 0 && bytesPerPixel > 0
    ensures BiasOf(gpuAddress, pitch, bytesPerPixel).Bias? <==> gpuAddress % 1024 % pitch % bytesPerPixel == 0
  {
  }

  lemma BiasExistsIn(gpuAddress: u32, pitch: u32, format: Format, units: nat, rest: nat)
    requires pitch > 0 && pitch % 64 == 0 && format != Unsupported
    requires units == gpuAddress % 1024 / pitch * (pitch / 64) && rest == gpuAddress % 1024 % pitch
    ensures BiasOf(gpuAddress, pitch, BytesPerPixel(format)).Bias? <==> gpuAddress % BytesPerPixel(format) == 0
  {
    InUnits(gpuAddress % 1024, pitch);
    LowBits(gpuAddress, units, rest, format);
    BiasDefined(gpuAddress, pitch, BytesPerPixel(format));
  }

  /** With a row pitch in whole 64-byte units, a surface can be biased exactly when it starts on a pixel. */
  lemma BiasExists(gpuAddress: u32, pitch: u32, format: Format)
    requires pitch > 0 && pitch % 64 == 0 && format != Unsupported
    ensures BiasOf(gpuAddress, pitch, BytesPerPixel(format)).Bias? <==> gpuAddress % BytesPerPixel(format) == 0
  {
    var rows, units: int := gpuAddress % 1024 / pitch, pitch / 64;
    ProductBound(rows, units, rows, units);
    BiasExistsIn(gpuAddress, pitch, format, rows * units, gpuAddress % 1024 % pitch);
  }

  lemma Distributes(a: int, b: int, c: int)
    ensures (a + b) * c == a * c + b * c
  {
  }

  lemma Rises(a: int, b: int, c: nat)
    requires a <= b
    ensures a * c <= b * c
  {
    Distributes(a, b - a, c);
  }

  lemma BiasedAddress(pitch: u32, gpuAddress: u32, bytesPerPixel: u32, xBias: u32, yBias: u32, x: nat, y: nat)
    requires pitch <= MAX_PITCH && pitch % 64 == 0
    requires yBias * pitch + xBias * bytesPerPixel == gpuAddress % 1024
    ensures EngineAddress(Pack(pitch, gpuAddress), xBias + x, yBias + y, bytesPerPixel)
         == gpuAddress + y * pitch + x * bytesPerPixel
  {
    PackDecodes(pitch, gpuAddress);
    Distributes(yBias, y, pitch);
    Distributes(xBias, x, bytesPerPixel);
  }

  lemma WrapSmall(v: int)
    requires 0 <= v < TWO32
    ensures Wrap(v) == v
  {
  }

  lemma ProductBound(a: nat, b: nat, top: nat, c: nat)
    requires a <= top && b <= c
    ensures 0 <= a * b <= top * c
  {
    Rises(a, top, b);
    Rises(b, c, top);
  }

  /** The wrapped comparisons of CheckRectangle say what they seem to say. */
  lemma RectangleBounds(x: i16, y: i16, width: i16, height: i16, bytesPerPixel: u32, pitch: u32, remaining: u32)
    requires x >= 0 && y >= 0 && width > 0 && height > 0 && 1 <= bytesPerPixel <= 4 && pitch <= MAX_PITCH
    ensures CheckRectangle(x, y, width, height, bytesPerPixel, pitch, remaining) == None
      <==> (x + width - 1 <= MAX_COORD && y + height - 1 <= MAX_COORD
            && (x + width) * bytesPerPixel <= pitch
            && (y + height - 1) * pitch + (x + width) * bytesPerPixel <= remaining)
  {
    if x + width - 1 <= MAX_COORD && y + height - 1 <= MAX_COORD {
      ProductBound(x + width, bytesPerPixel, MAX_COORD + 1, 4);
      ProductBound(y + height - 1, pitch, MAX_COORD, MAX_PITCH);
      WrapSmall((x + width) * bytesPerPixel);
      WrapSmall((y + height - 1) * pitch);
    }
  }

  /** What an accepted surface is made of. */
  lemma AcceptedFields(b: BoardMemory, render: Render, x: i16, y: i16, width: i16, height: i16, format: Format)
    requires ValidateSurface(b, render, x, y, width, height, format).Hardware?
    ensures var s := ValidateSurface(b, render, x, y, width, height, format).surface;
      && x >= 0 && y >= 0 && width > 0 && height > 0 && format != Unsupported && render.bytesPerRow > 0
      && render.memory != 0 && b.memoryBase <= render.memory < b.memoryBase + b.memorySpaceSize
      && s.surfaceOffset == render.memory - b.memoryBase < s.memoryLimit == MemoryLimit(b)
      && s.pitch == render.bytesPerRow <= MAX_PITCH && s.pitch % 64 == 0
      && s.bytesPerPixel == BytesPerPixel(format)
      && b.framebufferGpuBase + s.surfaceOffset < TWO32
      && s.pitchOffset == Pack(s.pitch, b.framebufferGpuBase + s.surfaceOffset)
      && CheckRectangle(x, y, width, height, s.bytesPerPixel, s.pitch, s.memoryLimit - s.surfaceOffset) == None
      && BiasOf(b.framebufferGpuBase + s.surfaceOffset, s.pitch, s.bytesPerPixel) == Bias(s.xBias, s.yBias)
      && Hardware(s) == Accept(s.surfaceOffset, s.memoryLimit, s.pitch, s.bytesPerPixel, s.pitchOffset,
                               s.xBias, s.yBias, x, y, width, height)
  {
  }

  predicate Inside(x: i16, y: i16, width: i16, height: i16, px: nat, py: nat) {
    x <= px < x + width && y <= py < y + height
  }

  /**
   An accepted rectangle addresses the right bytes: every one of its pixels, at its
   biased coordinates, is the byte the bitmap means, and the coordinates fit the engine.
   */
  lemma AcceptedAddresses(b: BoardMemory, render: Render, x: i16, y: i16, width: i16, height: i16, format: Format,
                          px: nat, py: nat)
    requires ValidateSurface(b, render, x, y, width, height, format).Hardware?
    requires Inside(x, y, width, height, px, py)
    ensures var s := ValidateSurface(b, render, x, y, width, height, format).surface;
      && EngineAddress(s.pitchOffset, s.xBias + px, s.yBias + py, s.bytesPerPixel)
         == b.framebufferGpuBase + PixelOffset(b, render, format, px, py)
      && s.xBias + px <= MAX_COORD && s.yBias + py <= MAX_COORD
  {
    AcceptedFields(b, render, x, y, width, height, format);
    var s := ValidateSurface(b, render, x, y, width, height, format).surface;
    Rebased(s.surfaceOffset, b.framebufferGpuBase, s.pitch, s.bytesPerPixel, s.xBias, s.yBias, px, py);
    AcceptBiased(s, x, y, width, height);
  }

  lemma Rebased(offset: u32, gpuBase: u32, pitch: u32, bytesPerPixel: u32, xBias: u32, yBias: u32, px: nat, py: nat)
    requires 0 < pitch <= MAX_PITCH && pitch % 64 == 0 && bytesPerPixel > 0 && gpuBase + offset < TWO32
    requires BiasOf(gpuBase + offset, pitch, bytesPerPixel) == Bias(xBias, yBias)
    ensures EngineAddress(Pack(pitch, gpuBase + offset), xBias + px, yBias + py, bytesPerPixel)
         == gpuBase + offset + py * pitch + px * bytesPerPixel
  {
    BiasSplits(gpuBase + offset, pitch, bytesPerPixel);
    BiasedAddress(pitch, gpuBase + offset, bytesPerPixel, xBias, yBias, px, py);
  }

  lemma AcceptBiased(s: Surface, x: nat, y: nat, width: nat, height: nat)
    requires height > 0
    requires Accept(s.surfaceOffset, s.memoryLimit, s.pitch, s.bytesPerPixel, s.pitchOffset, s.xBias, s.yBias,
                    x, y, width, height).Hardware?
    ensures s.xBias + x + width - 1 <= MAX_COORD && s.yBias + y + height - 1 <= MAX_COORD
  {
  }

  /** The start and end offsets enclose the rectangle tightly, below the memory limit and without a carry. */
  lemma AcceptedExtent(b: BoardMemory, render: Render, x: i16, y: i16, width: i16, height: i16, format: Format)
    requires ValidateSurface(b, render, x, y, width, height, format).Hardware?
    ensures var s := ValidateSurface(b, render, x, y, width, height, format).surface;
      && s.startOffset == PixelOffset(b, render, format, x, y)
      && s.endOffset == PixelOffset(b, render, format, x + width - 1, y + height - 1) + s.bytesPerPixel
      && s.startOffset < s.endOffset <= s.memoryLimit == MemoryLimit(b)
  {
    AcceptedFields(b, render, x, y, width, height, format);
    var s := ValidateSurface(b, render, x, y, width, height, format).surface;
    RectangleBounds(x, y, width, height, s.bytesPerPixel, s.pitch, s.memoryLimit - s.surfaceOffset);
    AcceptExtent(s, x, y, width, height);
    assert (x + width - 1) * s.bytesPerPixel + s.bytesPerPixel == (x + width) * s.bytesPerPixel by {
      Distributes(x + width - 1, 1, s.bytesPerPixel);
    }
  }

  lemma CornersOrdered(pitch: nat, bytesPerPixel: nat, x: nat, y: nat, width: nat, height: nat)
    requires height > 0 && width > 0 && bytesPerPixel > 0
    ensures 0 <= y * pitch <= (y + height - 1) * pitch
    ensures 0 <= x * bytesPerPixel < (x + width) * bytesPerPixel
  {
    Rises(y, y + height - 1, pitch);
    Rises(x + 1, x + width, bytesPerPixel);
    Distributes(x, 1, bytesPerPixel);
  }

  lemma AcceptExtent(s: Surface, x: nat, y: nat, width: nat, height: nat)
    requires height > 0 && width > 0 && s.bytesPerPixel > 0
    requires Accept(s.surfaceOffset, s.memoryLimit, s.pitch, s.bytesPerPixel, s.pitchOffset, s.xBias, s.yBias,
                    x, y, width, height) == Hardware(s)
    requires s.surfaceOffset + (y + height - 1) * s.pitch + (x + width) * s.bytesPerPixel <= s.memoryLimit
    ensures s.startOffset == s.surfaceOffset + y * s.pitch + x * s.bytesPerPixel
    ensures s.endOffset == s.surfaceOffset + (y + height - 1) * s.pitch + (x + width) * s.bytesPerPixel
    ensures s.startOffset < s.endOffset
  {
    CornersOrdered(s.pitch, s.bytesPerPixel, x, y, width, height);
    var start: int := s.surfaceOffset + y * s.pitch + x * s.bytesPerPixel;
    var end: int := s.surfaceOffset + (y + height - 1) * s.pitch + (x + width) * s.bytesPerPixel;
    assert s.startOffset == Wrap(start) && s.endOffset == Wrap(end);
    WrapSmall(start);
    WrapSmall(end);
  }

  /** Any pixel of an accepted rectangle lies between its start and its end. */
  lemma PixelWithin(b: BoardMemory, render: Render, x: i16, y: i16, width: i16, height: i16, format: Format,
                    px: nat, py: nat)
    requires ValidateSurface(b, render, x, y, width, height, format).Hardware?
    requires Inside(x, y, width, height, px, py)
    ensures var s := ValidateSurface(b, render, x, y, width, height, format).surface;
      s.startOffset <= PixelOffset(b, render, format, px, py) <= s.endOffset - s.bytesPerPixel
  {
    AcceptedFields(b, render, x, y, width, height, format);
    AcceptedExtent(b, render, x, y, width, height, format);
    var s := ValidateSurface(b, render, x, y, width, height, format).surface;
    Rises(y, py, s.pitch);
    Rises(py, y + height - 1, s.pitch);
    Rises(x, px, s.bytesPerPixel);
    Rises(px, x + width - 1, s.bytesPerPixel);
  }

  /**
   Exactly which rectangles the hardware takes: a supported format with a usable
   pitch, on the board, every pixel inside its row and below the memory limit, a
   GPU address in 32 bits, starting on a pixel, biased coordinates within reach.
   */
  predicate Drawable(b: BoardMemory, render: Render, x: i16, y: i16, width: i16, height: i16, format: Format) {
    && format != Unsupported && render.bytesPerRow > 0 && render.bytesPerRow % 64 == 0 &&
       render.bytesPerRow <= MAX_PITCH
    && x >= 0 && y >= 0 && width > 0 && height > 0
    && render.memory != 0 && b.memoryBase <= render.memory < b.memoryBase + b.memorySpaceSize
    && (x + width) * BytesPerPixel(format) <= render.bytesPerRow
    && PixelOffset(b, render, format, 0, y + height - 1) + (x + width) * BytesPerPixel(format) <= MemoryLimit(b)
    && b.framebufferGpuBase + render.memory - b.memoryBase < TWO32
    && (b.framebufferGpuBase + render.memory - b.memoryBase) % BytesPerPixel(format) == 0
    && x + width - 1 <= MAX_COORD && y + height - 1 <= MAX_COORD
    && Reaches(b.framebufferGpuBase + render.memory - b.memoryBase, render.bytesPerRow, BytesPerPixel(format),
               x + width - 1, y + height - 1)
  }

  predicate Reaches(gpuAddress: u32, pitch: nat, bytesPerPixel: nat, right: nat, bottom: nat)
    requires pitch > 0 && bytesPerPixel > 0
  {
    gpuAddress % 1024 % pitch / bytesPerPixel + right <= MAX_COORD && gpuAddress % 1024 / pitch + bottom <= MAX_COORD
  }

  lemma AcceptedExactly(b: BoardMemory, render: Render, x: i16, y: i16, width: i16, height: i16, format: Format)
    ensures ValidateSurface(b, render, x, y, width, height, format).Hardware?
       <==> Drawable(b, render, x, y, width, height, format)
  {
    if Plausible(b, render, x, y, width, height, format) {
      var offset: u32 := render.memory - b.memoryBase;
      ProductBound(x + width, BytesPerPixel(format), 0x1_0000, 4);
      ProductBound(y + height - 1, render.bytesPerRow, 0x1_0000, MAX_PITCH);
      PlausibleExactly(b, render, x, y, width, height, format, offset);
    }
  }

  /** The checks the two sides share word for word. */
  predicate Plausible(b: BoardMemory, render: Render, x: i16, y: i16, width: i16, height: i16, format: Format) {
    && format != Unsupported && render.bytesPerRow > 0 && render.bytesPerRow % 64 == 0 &&
       render.bytesPerRow <= MAX_PITCH
    && x >= 0 && y >= 0 && width > 0 && height > 0
    && render.memory != 0 && b.memoryBase <= render.memory < b.memoryBase + b.memorySpaceSize
  }

  lemma PlausibleExactly(b: BoardMemory, render: Render, x: i16, y: i16, width: i16, height: i16, format: Format,
                         offset: u32)
    requires Plausible(b, render, x, y, width, height, format) && offset == render.memory - b.memoryBase
    requires 0 <= (x + width) * BytesPerPixel(format) && 0 <= (y + height - 1) * render.bytesPerRow
    ensures ValidateSurface(b, render, x, y, width, height, format).Hardware?
       <==> Drawable(b, render, x, y, width, height, format)
  {
    var bpp, pitch, limit := BytesPerPixel(format), render.bytesPerRow, MemoryLimit(b);
    if offset < limit {
      RectangleBounds(x, y, width, height, bpp, pitch, limit - offset);
      if b.framebufferGpuBase + offset < TWO32 {
        BiasExists(b.framebufferGpuBase + offset, pitch, format);
      }
    } else {
      assert (x + width) * bpp > 0 by { Rises(1, x + width, bpp); }
    }
  }

  // ------------------------------------------------------------ refusals

  predicate Malformed(render: Render, format: Format) {
    render.memory == 0 || format == Unsupported || render.bytesPerRow <= 0
  }

  /** The bitmap begins outside the aperture of the board. */
  predicate Outside(b: BoardMemory, memory: u32) {
    (memory as int) < b.memoryBase || (memory as int) >= (b.memoryBase as int) + b.memorySpaceSize
  }

  /** The last byte of the rectangle, from the start of board memory, and of its rows. */
  predicate Overruns(b: BoardMemory, render: Render, x: i16, y: i16, width: i16, height: i16, format: Format) {
    || (x + width) * BytesPerPixel(format) > render.bytesPerRow
    || PixelOffset(b, render, format, 0, 0) + (y + height - 1) * render.bytesPerRow
         + (x + width) * BytesPerPixel(format) > MemoryLimit(b)
    || (b.framebufferGpuBase as int) + PixelOffset(b, render, format, 0, 0) >= TWO32
  }

  /** A rectangle that nothing may draw: empty, or of the board but not within its rows and its usable memory. */
  predicate Undrawable(b: BoardMemory, render: Render, x: i16, y: i16, width: i16, height: i16, format: Format) {
    && !Malformed(render, format)
    && (width <= 0 || height <= 0 ||
        (x >= 0 && y >= 0 && !Outside(b, render.memory) &&
         (PixelOffset(b, render, format, 0, 0) >= MemoryLimit(b) ||
          (render.bytesPerRow % 64 == 0 && render.bytesPerRow <= MAX_PITCH &&
           x + width - 1 <= MAX_COORD && y + height - 1 <= MAX_COORD &&
           Overruns(b, render, x, y, width, height, format)))))
  }

  /** Software draws without the board: a whole request outside it, or one too odd to tell on a board that is there. */
  predicate Offboard(b: BoardMemory, render: Render, x: i16, y: i16, width: i16, height: i16, format: Format) {
    if Malformed(render, format) || (width > 0 && height > 0 && (x < 0 || y < 0)) then
      render.memory != 0 && b.memoryBase != 0 && b.memorySpaceSize != 0 && Outside(b, render.memory)
    else width > 0 && height > 0 && Outside(b, render.memory)
  }

  /** Exactly which refusal; what is neither hardware nor one of these two is drawn by software on the board. */
  lemma RefusalExactly(b: BoardMemory, render: Render, x: i16, y: i16, width: i16, height: i16, format: Format)
    ensures var r := ValidateSurface(b, render, x, y, width, height, format);
      && (r == Reject <==> Undrawable(b, render, x, y, width, height, format))
      && (r == SoftwareOffboard <==> Offboard(b, render, x, y, width, height, format))
  {
    if !Malformed(render, format) && width > 0 && height > 0 && x >= 0 && y >= 0 && !Outside(b, render.memory) {
      InsideRefusals(b, render, x, y, width, height, format, render.memory - b.memoryBase);
    }
  }

  lemma InsideRefusals(b: BoardMemory, render: Render, x: i16, y: i16, width: i16, height: i16, format: Format,
                       offset: u32)
    requires !Malformed(render, format) && width > 0 && height > 0 && x >= 0 && y >= 0 && !Outside(b, render.memory)
    requires offset == render.memory - b.memoryBase
    ensures var r := ValidateSurface(b, render, x, y, width, height, format);
      r != SoftwareOffboard && (r == Reject <==> Undrawable(b, render, x, y, width, height, format))
  {
    var bpp, pitch, limit := BytesPerPixel(format), render.bytesPerRow, MemoryLimit(b);
    assert PixelOffset(b, render, format, 0, 0) == offset;
    if offset < limit && pitch % 64 == 0 && pitch <= MAX_PITCH {
      RectangleBounds(x, y, width, height, bpp, pitch, limit - offset);
    }
  }

  // ------------------------------------------------------------ the same-surface shortcut

  /** A layout accepted for one rectangle answers for any other exactly like a fresh validation. */
  lemma SameSurfaceExact(b: BoardMemory, render: Render, format: Format, width: i16, height: i16,
                         x0: i16, y0: i16, x: i16, y: i16)
    requires ValidateSurface(b, render, x0, y0, width, height, format).Hardware?
    ensures var layout := ValidateSurface(b, render, x0, y0, width, height, format).surface;
      && width > 0 && height > 0 && layout.surfaceOffset <= layout.memoryLimit
      && ValidateSame(x, y, width, height, layout) == ValidateSurface(b, render, x, y, width, height, format)
  {
    AcceptedFields(b, render, x0, y0, width, height, format);
  }

  // ------------------------------------------------------------ lines

  datatype LineLayout = LineLayout(pitchOffset: u32, bytesPerPixel: u32, maxX: u32, maxY: u32, xBias: u32, yBias: u32)
  datatype LineResult = Refused(result: SurfaceResult) | Ready(layout: LineLayout)

  type i32 = x: int | -0x8000_0000 <= x < 0x8000_0000

  /** How many whole units fit. */
  function Whole(total: u32, unit: u32): (count: u32)
    requires unit > 0
    ensures count <= total
  {
    QuotientBound(total, unit);
    total / unit
  }

  lemma QuotientBound(total: nat, unit: nat)
    requires unit > 0
    ensures 0 <= total / unit <= total
  {
    Rises(1, unit, total / unit);
  }

  /** The part of ValidateLineSurface that depends on the surface alone. */
  function LineLayoutOf(b: BoardMemory, render: Render, format: Format): LineResult {
    var bpp := BytesPerPixel(format);
    if bpp == 0 || render.bytesPerRow <= 0 then Refused(SoftwareResult(b, render.memory))
    else if render.memory < b.memoryBase || render.memory - b.memoryBase >= b.memorySpaceSize then
      Refused(SoftwareOffboard)
    else
      var offset := render.memory - b.memoryBase;
      var pitch := render.bytesPerRow;
      if offset >= MemoryLimit(b) || b.framebufferGpuBase > TWO32 - 1 - offset then Refused(Reject)
      else if pitch % 64 != 0 || pitch > MAX_PITCH then Refused(SoftwareOnboard)
      else
        var gpuAddress := b.framebufferGpuBase + offset;
        LineReach(Whole(pitch, bpp), Whole(MemoryLimit(b) - offset, pitch), BiasOf(gpuAddress, pitch, bpp),
                  Pack(pitch, gpuAddress), bpp)
  }

  /** The farthest coordinates a line may use, after the bias has taken its share of the engine's range. */
  function LineReach(columns: u32, rows: u32, bias: Bias, pitchOffset: u32, bytesPerPixel: u32): LineResult {
    if columns == 0 || rows == 0 then Refused(Reject)
    else if bias.Misaligned? || bias.x > MAX_COORD || bias.y > MAX_COORD then Refused(SoftwareOnboard)
    else
      Ready(LineLayout(pitchOffset, bytesPerPixel,
                       Min(Min(columns - 1, MAX_COORD), MAX_COORD - bias.x),
                       Min(Min(rows - 1, MAX_COORD), MAX_COORD - bias.y), bias.x, bias.y))
  }

  function CheckLine(b: BoardMemory, memory: u32, layout: LineLayout, left: i32, top: i32, right: i32, bottom: i32):
    LineResult
  {
    if left < 0 || top < 0 || right < left || bottom < top then Refused(SoftwareResult(b, memory))
    else if right > layout.maxX || bottom > layout.maxY then Refused(Reject)
    else Ready(layout)
  }

  /** ValidateLineSurface without its cache. */
  function ValidateLine(b: BoardMemory, render: Render, format: Format, left: i32, top: i32, right: i32, bottom: i32):
    LineResult
  {
    if render.memory == 0 then Refused(SoftwareResult(b, 0))
    else
      match LineLayoutOf(b, render, format)
      case Refused(result) => Refused(result)
      case Ready(layout) => CheckLine(b, render.memory, layout, left, top, right, bottom)
  }

  /** Every pixel an accepted line may touch is the byte the bitmap means, in its row and below the limit. */
  lemma LineAddresses(b: BoardMemory, render: Render, format: Format, px: nat, py: nat)
    requires LineLayoutOf(b, render, format).Ready?
    requires px <= LineLayoutOf(b, render, format).layout.maxX && py <= LineLayoutOf(b, render, format).layout.maxY
    ensures var layout := LineLayoutOf(b, render, format).layout;
      && EngineAddress(layout.pitchOffset, layout.xBias + px, layout.yBias + py, layout.bytesPerPixel)
         == b.framebufferGpuBase + PixelOffset(b, render, format, px, py)
      && layout.xBias + px <= MAX_COORD && layout.yBias + py <= MAX_COORD
  {
    var layout := LineLayoutOf(b, render, format).layout;
    Rebased(render.memory - b.memoryBase, b.framebufferGpuBase, render.bytesPerRow, layout.bytesPerPixel,
            layout.xBias, layout.yBias, px, py);
  }

  lemma QuotientFits(total: nat, unit: nat, k: nat)
    requires unit > 0 && k + 1 <= total / unit
    ensures k * unit + unit <= total
  {
    Rises(k + 1, total / unit, unit);
    Distributes(k, 1, unit);
  }

  lemma LineFits(b: BoardMemory, render: Render, format: Format, px: nat, py: nat)
    requires LineLayoutOf(b, render, format).Ready?
    requires px <= LineLayoutOf(b, render, format).layout.maxX && py <= LineLayoutOf(b, render, format).layout.maxY
    ensures px * BytesPerPixel(format) + BytesPerPixel(format) <= render.bytesPerRow
    ensures PixelOffset(b, render, format, px, py) + BytesPerPixel(format) <= MemoryLimit(b)
  {
    QuotientFits(render.bytesPerRow, BytesPerPixel(format), px);
    QuotientFits(MemoryLimit(b) - (render.memory - b.memoryBase), render.bytesPerRow, py);
  }

  // ------------------------------------------------------------ which lines are taken

  lemma WholeCounts(total: u32, unit: u32, k: nat)
    requires unit > 0
    ensures k < Whole(total, unit) <==> (k + 1) * unit <= total
  {
    var q := total / unit;
    assert total == q * unit + total % unit;
    if k < q { Rises(k + 1, q, unit); } else { Rises(q + 1, k + 1, unit); Distributes(q, 1, unit); }
  }

  /** The bitmap is one that hardware can address, and a line may start somewhere in it. */
  predicate LineBitMap(b: BoardMemory, render: Render, format: Format) {
    && !Malformed(render, format) && !Outside(b, render.memory)
    && render.bytesPerRow % 64 == 0 && render.bytesPerRow <= MAX_PITCH
    && PixelOffset(b, render, format, 0, 1) <= MemoryLimit(b)
    && PixelOffset(b, render, format, 0, 0) + b.framebufferGpuBase < TWO32
    && (PixelOffset(b, render, format, 0, 0) + b.framebufferGpuBase) % BytesPerPixel(format) == 0
  }

  /** The farthest pixel lies in its row, its row in the usable memory, and both within the engine's range. */
  predicate LineInside(b: BoardMemory, render: Render, format: Format, right: int, bottom: int)
    requires LineBitMap(b, render, format) && right >= 0 && bottom >= 0
  {
    && (right + 1) * BytesPerPixel(format) <= render.bytesPerRow
    && (bottom + 1) * render.bytesPerRow <= MemoryLimit(b) - (render.memory - b.memoryBase)
    && Reaches(render.memory - b.memoryBase + b.framebufferGpuBase, render.bytesPerRow, BytesPerPixel(format),
               right, bottom)
  }

  lemma LayoutExactly(b: BoardMemory, render: Render, format: Format)
    requires render.memory != 0
    ensures LineLayoutOf(b, render, format).Ready? <==> LineBitMap(b, render, format)
  {
    if !Malformed(render, format) && !Outside(b, render.memory)
       && render.bytesPerRow % 64 == 0 && render.bytesPerRow <= MAX_PITCH {
      var offset: u32 := render.memory - b.memoryBase;
      if offset < MemoryLimit(b) && b.framebufferGpuBase + offset < TWO32 {
        ReachReady(b.framebufferGpuBase + offset, render.bytesPerRow, MemoryLimit(b) - offset, format);
      }
    }
  }

  /** A start on a pixel and room for one row are all it takes. */
  lemma ReachReady(gpuAddress: u32, pitch: u32, room: u32, format: Format)
    requires format != Unsupported && 0 < pitch <= MAX_PITCH && pitch % 64 == 0
    ensures LineReach(Whole(pitch, BytesPerPixel(format)), Whole(room, pitch),
                      BiasOf(gpuAddress, pitch, BytesPerPixel(format)), Pack(pitch, gpuAddress),
                      BytesPerPixel(format)).Ready?
      <==> pitch <= room && gpuAddress % BytesPerPixel(format) == 0
  {
    BiasExists(gpuAddress, pitch, format);
    BiasSmall(gpuAddress, pitch, format);
    WholeCounts(pitch, BytesPerPixel(format), 0);
    WholeCounts(room, pitch, 0);
  }

  lemma BiasSmall(gpuAddress: u32, pitch: u32, format: Format)
    requires pitch > 0 && format != Unsupported
    ensures match BiasOf(gpuAddress, pitch, BytesPerPixel(format))
      case Misaligned => true
      case Bias(x, y) => x <= MAX_COORD && y <= MAX_COORD
                         && x == gpuAddress % 1024 % pitch / BytesPerPixel(format) && y == gpuAddress % 1024 / pitch
  {
    SmallParts(gpuAddress % 1024, pitch, BytesPerPixel(format));
  }

  lemma SmallParts(bias: nat, pitch: nat, bytesPerPixel: nat)
    requires bias < 1024 && pitch > 0 && bytesPerPixel > 0
    ensures 0 <= bias / pitch <= MAX_COORD && 0 <= bias % pitch / bytesPerPixel <= MAX_COORD
  {
    QuotientBound(bias, pitch);
    RemainderBound(bias, pitch);
    QuotientBound(bias % pitch, bytesPerPixel);
  }

  lemma RemainderBound(total: nat, unit: nat)
    requires unit > 0
    ensures total % unit <= total
  {
    QuotientBound(total, unit);
    Rises(0, total / unit, unit);
    assert total == total / unit * unit + total % unit;
  }

  lemma ReachExactly(b: BoardMemory, render: Render, format: Format, right: nat, bottom: nat)
    requires render.memory != 0 && LineLayoutOf(b, render, format).Ready? && LineBitMap(b, render, format)
    ensures var layout := LineLayoutOf(b, render, format).layout;
      right <= layout.maxX && bottom <= layout.maxY <==> LineInside(b, render, format, right, bottom)
  {
    var offset: u32 := render.memory - b.memoryBase;
    BiasSmall(b.framebufferGpuBase + offset, render.bytesPerRow, format);
    WholeCounts(render.bytesPerRow, BytesPerPixel(format), right);
    WholeCounts(MemoryLimit(b) - offset, render.bytesPerRow, bottom);
  }

  /** A line is drawn by hardware exactly when it lies the right way round inside such a bitmap. */
  lemma LineAcceptedExactly(b: BoardMemory, render: Render, format: Format,
                            left: i32, top: i32, right: i32, bottom: i32)
    ensures ValidateLine(b, render, format, left, top, right, bottom).Ready? <==>
      && LineBitMap(b, render, format) && 0 <= left <= right && 0 <= top <= bottom
      && LineInside(b, render, format, right, bottom)
  {
    if render.memory != 0 {
      LayoutExactly(b, render, format);
      if LineBitMap(b, render, format) && 0 <= right && 0 <= bottom { ReachExactly(b, render, format, right, bottom); }
    }
  }

  /** The one-entry cache of line surfaces; boards are known by an identity. */
  class LineSurfaceCache {
    var valid: bool
    var board: nat
    var memory: u32
    var bytesPerRow: i16
    var format: Format
    var pitchOffset: u32
    var bytesPerPixel: u32
    var maxX: u32
    var maxY: u32
    var xBias: u32
    var yBias: u32

    /** While the boards' memory fields are as given, a valid entry is what a recomputation would store. */
    predicate Coherent(boards: map<nat, BoardMemory>)
      reads this
    {
      valid ==>
        && board in boards && memory != 0
        && LineLayoutOf(boards[board], Render(memory, bytesPerRow), format) == Ready(Layout())
    }

    function Layout(): LineLayout
      reads this
    {
      LineLayout(pitchOffset, bytesPerPixel, maxX, maxY, xBias, yBias)
    }

    constructor ()
      ensures forall boards :: Coherent(boards)
    {
      valid := false;
    }

    /** ValidateLineSurface: cached or not, the answer is the one a fresh computation gives. */
    method Validate(boards: map<nat, BoardMemory>, id: nat, render: Render, wanted: Format,
                    left: i32, top: i32, right: i32, bottom: i32) returns (result: LineResult)
      requires id in boards && Coherent(boards)
      modifies this
      ensures Coherent(boards)
      ensures result == ValidateLine(boards[id], render, wanted, left, top, right, bottom)
    {
      var b := boards[id];
      if render.memory == 0 {
        return Refused(SoftwareResult(b, 0));
      }
      if !valid || board != id || memory != render.memory || bytesPerRow != render.bytesPerRow || format != wanted {
        var refused := Recompute(boards, id, render, wanted);
        if refused.Some? {
          return Refused(refused.value);
        }
      }
      result := CheckLine(b, render.memory, Layout(), left, top, right, bottom);
    }

    /** The miss path, field by field; `None` leaves a valid entry for exactly this request. */
    method Recompute(boards: map<nat, BoardMemory>, id: nat, render: Render, wanted: Format)
      returns (refused: Option<SurfaceResult>)
      requires id in boards && render.memory != 0
      modifies this
      ensures Coherent(boards)
      ensures match LineLayoutOf(boards[id], render, wanted)
        case Refused(result) => refused == Some(result)
        case Ready(layout) => refused == None && valid && layout == Layout()
    {
      var b := boards[id];
      valid := false;
      bytesPerPixel := BytesPerPixel(wanted);
      if bytesPerPixel == 0 || render.bytesPerRow <= 0 {
        return Some(SoftwareResult(b, render.memory));
      }
      if render.memory < b.memoryBase || render.memory - b.memoryBase >= b.memorySpaceSize {
        return Some(SoftwareOffboard);
      }
      var offset: u32 := render.memory - b.memoryBase;
      if offset >= MemoryLimit(b) || b.framebufferGpuBase > TWO32 - 1 - offset {
        return Some(Reject);
      }
      bytesPerRow := render.bytesPerRow;
      if bytesPerRow % 64 != 0 || bytesPerRow > MAX_PITCH {
        return Some(SoftwareOnboard);
      }
      refused := Fill(Whole(bytesPerRow, bytesPerPixel), Whole(MemoryLimit(b) - offset, bytesPerRow),
                      BiasOf(b.framebufferGpuBase + offset, bytesPerRow, bytesPerPixel),
                      Pack(bytesPerRow, b.framebufferGpuBase + offset));
      if refused == None {
        board, memory, format := id, render.memory, wanted;
        valid := true;
      }
    }

    /** The coordinate limits and biases, in the order the source stores them. */
    method Fill(columns: u32, rows: u32, bias: Bias, packed: u32) returns (refused: Option<SurfaceResult>)
      modifies `maxX, `maxY, `xBias, `yBias, `pitchOffset
      ensures match LineReach(columns, rows, bias, packed, bytesPerPixel)
        case Refused(result) => refused == Some(result)
        case Ready(layout) => refused == None && layout == Layout()
    {
      if columns == 0 || rows == 0 {
        return Some(Reject);
      }
      maxX, maxY := Min(columns - 1, MAX_COORD), Min(rows - 1, MAX_COORD);
      if bias.Misaligned? || bias.x > MAX_COORD || bias.y > MAX_COORD {
        return Some(SoftwareOnboard);
      }
      xBias, yBias := bias.x, bias.y;
      maxX, maxY := Min(maxX, MAX_COORD - xBias), Min(maxY, MAX_COORD - yBias);
      pitchOffset := packed;
      refused := None;
    }
  }
}
