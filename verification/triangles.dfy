/**
 The immediate triangle list: the stream a client builds (BuildTriangles in
 tools/radeon3dphase1.c) and the exact match the service makes before it hands a
 stream to the processor (ValidateTriangleBatch in src/radeon3d_service.c).
 */
module Triangles {
  import opened Words
  import opened FloatBits
  import R = R200Registers

  const MAX_BATCH_DWORDS: nat := 8192
  const MAX_VERTICES: nat := 255
  const PREAMBLE_DWORDS: nat := 46
  const PACKET2: u32 := 0x8000_0000

  /** A session's surface, as far as rendering to it goes. */
  datatype Target = Target(gpuAddress: u32, pitch: u32, width: u32, height: u32, rgb565: bool)

  datatype Register = Register(address: u32, value: u32)

  /** A type-0 packet header for one register. */
  function Packet0(address: u32): u32 { address / 4 }

  /** The numbers the client writes in front of the target's extent, and between extent and address. */
  const BEFORE_EXTENT: seq<Register> := [
    Register(0x2140, 0x0000_0000), Register(0x2080, 0x0025_0000), Register(0x2180, 0x0000_0000),
    Register(0x20b0, 0x0000_0000), Register(0x2088, 0x0000_0800), Register(0x208c, 0x0000_0000),
    Register(0x1c4c, 0x9800_021e), Register(0x1c38, 0x0000_1000), Register(0x2f00, 0x0000_1000),
    Register(0x2f04, 0x0001_1000), Register(0x2f08, 0x0000_1000), Register(0x2f0c, 0x0001_1000),
    Register(0x2cc4, 0x0000_0000), Register(0x26f0, 0x0000_0000), Register(0x1c50, 0x0000_0000),
    Register(0x26c0, 0x0000_0000)]
  const AFTER_EXTENT: seq<Register> := [
    Register(0x1d84, 0xffff_ffff), Register(0x1c20, 0x2021_0000), Register(0x1c3c, 0x0000_1000)]
  const EXTENT: u32 := 0x1c44
  const COLOR_OFFSET: u32 := 0x1c40
  const COLOR_PITCH: u32 := 0x1c48

  /** `((height - 1) << 16) | (width - 1)` in 32 bits, for widths up to 65536. */
  function ExtentWord(width: u32, height: u32): u32
    requires width <= 0x1_0000
  {
    if width == 0 then TWO32 - 1 else Wrap((height - 1) * 0x1_0000) / 0x1_0000 * 0x1_0000 + (width - 1)
  }

  function DrawHeader(vertexDwords: nat): u32
    requires vertexDwords <= 3 * MAX_VERTICES
  {
    0xc000_3500 + vertexDwords * 0x1_0000
  }

  function VertexControl(vertexCount: nat): u32
    requires vertexCount <= MAX_VERTICES
  {
    vertexCount * 0x1_0000 + 0x34
  }

  function Flatten(list: seq<Register>): (words: seq<u32>)
    ensures |words| == 2 * |list|
  {
    if |list| == 0 then []
    else Flatten(list[..|list| - 1]) + [Packet0(list[|list| - 1].address), list[|list| - 1].value]
  }

  /** All register writes of a stream, in order. */
  function Program(address: u32, pitch: u32, width: u32, height: u32): (list: seq<Register>)
    requires width <= 0x1_0000
    ensures |list| == 22
  {
    BEFORE_EXTENT + [Register(EXTENT, ExtentWord(width, height))] + AFTER_EXTENT +
    [Register(COLOR_OFFSET, address), Register(COLOR_PITCH, pitch / 2)]
  }

  predicate WholeTriangles(vertices: seq<u32>) {
    |vertices| % 9 == 0 && 9 <= |vertices| <= 3 * MAX_VERTICES
  }

  /** The stream for a list of vertices of three dwords each. */
  function Stream(address: u32, pitch: u32, width: u32, height: u32, vertices: seq<u32>): (words: seq<u32>)
    requires width <= 0x1_0000 && WholeTriangles(vertices)
    ensures |words| == PREAMBLE_DWORDS + |vertices|
  {
    Flatten(Program(address, pitch, width, height)) + [DrawHeader(|vertices|), VertexControl(|vertices| / 3)] + vertices
  }

  // ------------------------------------------------------------ what a stream says

  /** The scissor's two 16-bit fields are inclusive, so one less than the extent; zero wraps around. */
  predicate ScissorIs(word: u32, width: u32, height: u32) {
    && (1 <= width <= 0x1_0000 && 1 <= height <= 0x1_0000 ==>
          word / 0x1_0000 + 1 == height && word % 0x1_0000 + 1 == width)
    && (width == 0 ==> word == 0xffff_ffff)
    && (1 <= width <= 0x1_0000 && height == 0 ==> word / 0x1_0000 == 0xffff && word % 0x1_0000 + 1 == width)
  }

  lemma ExtentFields(width: u32, height: u32)
    requires width <= 0x1_0000
    ensures ScissorIs(ExtentWord(width, height), width, height)
  {
    if 1 <= width && 1 <= height <= 0x1_0000 {
      ModUnique((height - 1) * 0x1_0000 + (width - 1), height - 1, width - 1, 0x1_0000);
    } else if 1 <= width && height == 0 {
      ModUnique(0xffff_0000 + (width - 1), 0xffff, width - 1, 0x1_0000);
    }
  }

  /** A type-0 packet with one value for this register, which the header names in units of four bytes. */
  predicate Names(header: u32, address: u32) { header < 0x2000 && (header as int) * 4 == address }

  predicate WriteAt(commands: seq<u32>, index: nat, register: Register) {
    index + 2 <= |commands| && Names(commands[index], register.address) && commands[index + 1] == register.value
  }

  /** From an index on, one header and one value for each register of a list. */
  predicate WritesAt(commands: seq<u32>, index: nat, list: seq<Register>) {
    index + 2 * |list| <= |commands| &&
    forall k :: 0 <= k < |list| ==> WriteAt(commands, index + 2 * k, list[k])
  }

  /** A scissor that is exactly the target, where the target begins and how far its rows are apart. */
  predicate Targets(commands: seq<u32>, address: u32, pitch: u32, width: u32, height: u32)
    requires |commands| >= PREAMBLE_DWORDS
  {
    && Names(commands[32], EXTENT) && ScissorIs(commands[33], width, height)
    && Names(commands[40], COLOR_OFFSET) && commands[41] == address
    && Names(commands[42], COLOR_PITCH) && 0 <= pitch - 2 * (commands[43] as int) < 2
  }

  /** A type-3 packet whose two counts are those of the dwords and of the vertices that follow. */
  predicate DrawsAll(header: u32, control: u32, vertexDwords: nat) {
    && header / 0x4000_0000 == 3 && header % 0x1_0000 == 0x3500
    && header / 0x1_0000 % 0x4000 == vertexDwords
    && control % 0x1_0000 == 0x34 && 3 * (control / 0x1_0000) == vertexDwords
  }

  /** What the processor reads in a stream: the fixed registers, the target, and one draw packet to the end. */
  predicate Renders(commands: seq<u32>, address: u32, pitch: u32, width: u32, height: u32) {
    && |commands| >= PREAMBLE_DWORDS
    && WritesAt(commands, 0, BEFORE_EXTENT) && WritesAt(commands, 34, AFTER_EXTENT)
    && Targets(commands, address, pitch, width, height)
    && DrawsAll(commands[44], commands[45], |commands| - PREAMBLE_DWORDS)
  }

  lemma {:induction false} FlattenAt(list: seq<Register>, k: nat)
    requires k < |list|
    ensures Flatten(list)[2 * k] == Packet0(list[k].address) && Flatten(list)[2 * k + 1] == list[k].value
  {
    if k < |list| - 1 { FlattenAt(list[..|list| - 1], k); }
  }

  predicate Addressable(list: seq<Register>) {
    forall k :: 0 <= k < |list| ==> list[k].address % 4 == 0 && list[k].address < 0x8000
  }

  lemma FlattenWrite(commands: seq<u32>, index: nat, list: seq<Register>, k: nat)
    requires k < |list| && index + 2 * |list| <= |commands|
    requires commands[index..index + 2 * |list|] == Flatten(list) && Addressable(list)
    ensures WriteAt(commands, index + 2 * k, list[k])
  {
    FlattenAt(list, k);
    var words := commands[index..index + 2 * |list|];
    assert words[2 * k] == commands[index + 2 * k] && words[2 * k + 1] == commands[index + 2 * k + 1];
  }

  lemma FlattenWrites(commands: seq<u32>, index: nat, list: seq<Register>)
    requires index + 2 * |list| <= |commands|
    requires commands[index..index + 2 * |list|] == Flatten(list) && Addressable(list)
    ensures WritesAt(commands, index, list)
  {
    forall k | 0 <= k < |list| ensures WriteAt(commands, index + 2 * k, list[k]) {
      FlattenWrite(commands, index, list, k);
    }
  }

  lemma DrawCounts(vertexDwords: nat)
    requires vertexDwords <= 3 * MAX_VERTICES && vertexDwords % 3 == 0
    ensures DrawsAll(DrawHeader(vertexDwords), VertexControl(vertexDwords / 3), vertexDwords)
  {
  }

  lemma PairAt(words: seq<u32>, index: nat, first: u32, second: u32)
    requires index + 2 <= |words| && words[index..index + 2] == [first, second]
    ensures words[index] == first && words[index + 1] == second
  {
    assert words[index..index + 2][0] == words[index] && words[index..index + 2][1] == words[index + 1];
  }

  lemma SlicesTarget(words: seq<u32>, address: u32, pitch: u32, width: u32, height: u32)
    requires |words| >= PREAMBLE_DWORDS && width <= 0x1_0000
    requires words[32..34] == [Packet0(EXTENT), ExtentWord(width, height)]
    requires words[40..42] == [Packet0(COLOR_OFFSET), address]
    requires words[42..44] == [Packet0(COLOR_PITCH), pitch / 2]
    ensures Targets(words, address, pitch, width, height)
  {
    ExtentFields(width, height);
    PairAt(words, 32, Packet0(EXTENT), ExtentWord(width, height));
    PairAt(words, 40, Packet0(COLOR_OFFSET), address);
    PairAt(words, 42, Packet0(COLOR_PITCH), pitch / 2);
  }

  lemma SlicesRegisters(words: seq<u32>)
    requires |words| >= PREAMBLE_DWORDS
    requires words[..32] == Flatten(BEFORE_EXTENT) && words[34..40] == Flatten(AFTER_EXTENT)
    ensures WritesAt(words, 0, BEFORE_EXTENT) && WritesAt(words, 34, AFTER_EXTENT)
  {
    assert words[0..32] == words[..32];
    FlattenWrites(words, 0, BEFORE_EXTENT);
    FlattenWrites(words, 34, AFTER_EXTENT);
  }

  /** Every stream of this shape renders to its target and nowhere else. */
  lemma StreamRenders(address: u32, pitch: u32, width: u32, height: u32, vertices: seq<u32>)
    requires width <= 0x1_0000 && WholeTriangles(vertices)
    ensures Renders(Stream(address, pitch, width, height, vertices), address, pitch, width, height)
  {
    var stream := Stream(address, pitch, width, height, vertices);
    assert stream[PREAMBLE_DWORDS..] == vertices;
    StreamSlices(stream, address, pitch, width, height);
    SlicesRegisters(stream);
    SlicesTarget(stream, address, pitch, width, height);
    DrawCounts(|vertices|);
    PairAt(stream, 44, DrawHeader(|vertices|), VertexControl(|vertices| / 3));
  }

  // ------------------------------------------------------------ the emitter

  method EmitRegister(commands: array<u32>, count: nat, register: Register) returns (next: nat)
    requires count + 2 <= commands.Length
    modifies commands
    ensures next == count + 2
    ensures commands[..next] == old(commands[..count]) + [Packet0(register.address), register.value]
  {
    commands[count] := Packet0(register.address);
    commands[count + 1] := register.value;
    next := count + 2;
  }

  /** The calls of BuildTriangles, one after the other. */
  method EmitRegisters(commands: array<u32>, list: seq<Register>) returns (count: nat)
    requires 2 * |list| <= commands.Length
    modifies commands
    ensures count == 2 * |list| && commands[..count] == Flatten(list)
  {
    count := 0;
    for k := 0 to |list|
      invariant count == 2 * k && commands[..count] == Flatten(list[..k])
    {
      assert list[..k + 1][..k] == list[..k];
      count := EmitRegister(commands, count, list[k]);
    }
    assert list[..|list|] == list;
  }

  method BuildTriangles(commands: array<u32>, address: u32, pitch: u32, width: u32, height: u32, vertices: seq<u32>)
    returns (count: nat)
    requires width <= 0x1_0000 && WholeTriangles(vertices) && PREAMBLE_DWORDS + |vertices| <= commands.Length
    modifies commands
    ensures count == PREAMBLE_DWORDS + |vertices|
    ensures commands[..count] == Stream(address, pitch, width, height, vertices)
    ensures Renders(commands[..count], address, pitch, width, height) && commands[46..count] == vertices
  {
    StreamRenders(address, pitch, width, height, vertices);
    count := EmitRegisters(commands, Program(address, pitch, width, height));
    ghost var registers := commands[..count];
    commands[count] := DrawHeader(|vertices|);
    commands[count + 1] := VertexControl(|vertices| / 3);
    count := count + 2;
    ghost var preamble := commands[..count];
    for k := 0 to |vertices|
      invariant count == PREAMBLE_DWORDS + k
      invariant commands[..count] == preamble + vertices[..k]
    {
      commands[count] := vertices[k];
      count := count + 1;
    }
    assert preamble == registers + [DrawHeader(|vertices|), VertexControl(|vertices| / 3)];
    assert vertices[..|vertices|] == vertices;
  }

  // ------------------------------------------------------------ the target

  /** The checks of FindTriangleTarget. */
  predicate Eligible(t: Target, gpuAddress: u32) {
    t.gpuAddress == gpuAddress && gpuAddress % 16 == 0 && t.width <= 0x1_0000 && t.height <= 0x1_0000 && t.rgb565 &&
    t.pitch / 2 <= 0x1ff8 && t.pitch / 2 % 8 == 0
  }

  /** FindTriangleTarget: the first eligible surface of the session. */
  method FindTarget(surfaces: seq<Target>, gpuAddress: u32) returns (target: Option<Target>)
    ensures target == FirstEligible(surfaces, gpuAddress)
  {
    for k := 0 to |surfaces|
      invariant FirstEligible(surfaces, gpuAddress) == FirstEligible(surfaces[k..], gpuAddress)
    {
      if Eligible(surfaces[k], gpuAddress) {
        return Some(surfaces[k]);
      }
      assert surfaces[k..][1..] == surfaces[k + 1..];
    }
    target := None;
  }

  function FirstEligible(surfaces: seq<Target>, gpuAddress: u32): (target: Option<Target>)
    ensures target.Some? ==> Eligible(target.value, gpuAddress)
  {
    if |surfaces| == 0 then None
    else if Eligible(surfaces[0], gpuAddress) then Some(surfaces[0])
    else FirstEligible(surfaces[1..], gpuAddress)
  }

  lemma {:induction false} FirstIsFirst(surfaces: seq<Target>, k: nat, gpuAddress: u32)
    requires k < |surfaces| && Eligible(surfaces[k], gpuAddress)
    requires forall i :: 0 <= i < k ==> !Eligible(surfaces[i], gpuAddress)
    ensures FirstEligible(surfaces, gpuAddress) == Some(surfaces[k])
  {
    if k > 0 { FirstIsFirst(surfaces[1..], k - 1, gpuAddress); }
  }

  // ------------------------------------------------------------ what is accepted

  /** Every vertex lies on the target: the third dword of a vertex, its colour, is free. */
  predicate OnTarget(vertices: seq<u32>, width: nat, height: nat)
    requires width <= 0x1_0000 && height <= 0x1_0000
  {
    LimitsFit();
    forall v :: 0 <= v < |vertices| / 3 ==>
      ValidScreenCoordinate(vertices[3 * v], width) && ValidScreenCoordinate(vertices[3 * v + 1], height)
  }

  lemma LimitsFit()
    ensures 0x1_0000 < Pow2(24)
  {
    TwentyThree();
    assert Pow2(24) == 2 * Pow2(23);
  }

  /** The stream of the first eligible surface at the address it names, with vertices on that surface. */
  predicate Accepted(surfaces: seq<Target>, commands: seq<u32>) {
    && |commands| >= PREAMBLE_DWORDS && WholeTriangles(commands[PREAMBLE_DWORDS..])
    && var target := FirstEligible(surfaces, commands[41]);
    && target.Some?
    && commands == Stream(target.value.gpuAddress, target.value.pitch, target.value.width, target.value.height,
                          commands[PREAMBLE_DWORDS..])
    && OnTarget(commands[PREAMBLE_DWORDS..], target.value.width, target.value.height)
  }

  /** It draws on exactly the first eligible surface of the session at the address it names. */
  predicate RendersToSurface(surfaces: seq<Target>, commands: seq<u32>) {
    46 < |commands| <= 46 + 9 * 85 && (|commands| - 46) % 9 == 0 &&
    match FirstEligible(surfaces, commands[41])
    case None => false
    case Some(t) =>
      && t.rgb565 && commands[41] % 16 == 0 && commands[43] % 8 == 0 && commands[43] <= 0x1ff8
      && Renders(commands, t.gpuAddress, t.pitch, t.width, t.height)
  }

  lemma AcceptedRenders(surfaces: seq<Target>, commands: seq<u32>)
    requires Accepted(surfaces, commands)
    ensures RendersToSurface(surfaces, commands)
  {
    var t := FirstEligible(surfaces, commands[41]).value;
    StreamRenders(t.gpuAddress, t.pitch, t.width, t.height, commands[PREAMBLE_DWORDS..]);
    StreamSlices(commands, t.gpuAddress, t.pitch, t.width, t.height);
    PairAt(commands, 42, Packet0(COLOR_PITCH), t.pitch / 2);
  }

  // ------------------------------------------------------------ the validator

  /** What the validator demands there, put together from the fields of the registers. */
  const CHECKED_BEFORE: seq<Register> := [
    Register(R.SE_VAP_CNTL_STATUS, 0), Register(R.SE_VAP_CNTL, R.VAP_CONTROL as u32), Register(R.SE_VTX_STATE_CNTL, 0),
    Register(R.SE_VTE_CNTL, 0), Register(R.SE_VTX_FMT_0, R.VERTEX_FORMAT as u32), Register(R.SE_VTX_FMT_1, 0),
    Register(R.SE_CNTL, R.SE_CONTROL as u32), Register(R.PP_CNTL, R.TEX_BLEND_0_ENABLE as u32),
    Register(R.PP_TXCBLEND_0, R.TXC_ARG_C_DIFFUSE_COLOR as u32), Register(R.PP_TXCBLEND2_0, R.COLOUR_BLEND_2 as u32),
    Register(R.PP_TXABLEND_0, R.TXA_ARG_C_DIFFUSE_ALPHA as u32), Register(R.PP_TXABLEND2_0, R.ALPHA_BLEND_2 as u32),
    Register(R.PP_CNTL_X, 0), Register(R.RE_AUX_SCISSOR_CNTL, 0), Register(R.RE_CNTL, 0), Register(R.RE_TOP_LEFT, 0)]
  const CHECKED_AFTER: seq<Register> := [
    Register(R.RB3D_PLANEMASK, R.ALL_PLANES as u32), Register(R.RB3D_BLENDCNTL, R.BLEND_CONTROL as u32),
    Register(R.RB3D_CNTL, R.COLOR_FORMAT_RGB565 as u32)]

  /** A type-3 packet header; the packet and the count occupy different bits. */
  function Packet3(packet: u32, count: nat): u32
    requires packet < 0x1_0000 && count < 0x4000
  {
    0xc000_0000 + packet + count * 0x1_0000
  }

  function PrimitiveWord(vertexCount: nat): u32
    requires vertexCount <= MAX_VERTICES
  {
    vertexCount * 0x1_0000 + (R.VC_CNTL_PRIM_WALK_RING | R.VC_CNTL_PRIM_TYPE_TRI_LIST) as u32
  }

  /** The two sides of the wire contract name the same words. */
  lemma TablesAgree()
    ensures CHECKED_BEFORE == BEFORE_EXTENT && CHECKED_AFTER == AFTER_EXTENT
    ensures R.RE_WIDTH_HEIGHT == EXTENT && R.RB3D_COLOROFFSET == COLOR_OFFSET && R.RB3D_COLORPITCH == COLOR_PITCH
    ensures forall n: nat :: n <= 3 * MAX_VERTICES ==> Packet3(R.CMD_3D_DRAW_IMMD_2, n) == DrawHeader(n)
    ensures forall n: nat :: n <= MAX_VERTICES ==> PrimitiveWord(n) == VertexControl(n)
  {
    R.FieldValues();
  }

  /** MatchRegister: the header and the value, or no match. */
  method MatchRegister(commands: seq<u32>, index: nat, register: Register) returns (ok: bool, next: nat)
    requires |commands| >= 2
    ensures ok <==> index + 2 <= |commands| && commands[index..index + 2] == [Packet0(register.address), register.value]
    ensures next == if ok then index + 2 else index
  {
    if index > |commands| - 2 || commands[index] != Packet0(register.address) || commands[index + 1] != register.value {
      return false, index;
    }
    return true, index + 2;
  }

  predicate Matches(commands: seq<u32>, index: nat, list: seq<Register>) {
    index + 2 * |list| <= |commands| && commands[index..index + 2 * |list|] == Flatten(list)
  }

  lemma MatchesGrow(commands: seq<u32>, index: nat, list: seq<Register>, k: nat)
    requires k < |list|
    ensures Matches(commands, index, list[..k + 1]) <==>
      Matches(commands, index, list[..k]) && index + 2 * k + 2 <= |commands|
      && commands[index + 2 * k..index + 2 * k + 2] == [Packet0(list[k].address), list[k].value]
  {
    var longer, shorter := list[..k + 1], list[..k];
    assert longer[..k] == shorter;
    if index + 2 * k + 2 <= |commands| {
      var a, b := commands[index..index + 2 * k], commands[index + 2 * k..index + 2 * k + 2];
      assert commands[index..index + 2 * k + 2] == a + b;
      if commands[index..index + 2 * k + 2] == Flatten(longer) {
        assert a == Flatten(longer)[..2 * k] == Flatten(shorter);
        assert b == Flatten(longer)[2 * k..];
      }
    }
  }

  lemma MatchesPrefix(commands: seq<u32>, index: nat, list: seq<Register>, k: nat)
    requires k <= |list| && Matches(commands, index, list)
    ensures Matches(commands, index, list[..k])
    decreases |list| - k
  {
    if k == |list| {
      assert list[..k] == list;
    } else {
      MatchesPrefix(commands, index, list, k + 1);
      MatchesGrow(commands, index, list, k);
    }
  }

  /** A chain of MatchRegister calls, stopping at the first mismatch. */
  method MatchRegisters(commands: seq<u32>, index: nat, list: seq<Register>) returns (ok: bool, next: nat)
    requires |commands| >= 2 && index <= |commands|
    ensures ok <==> Matches(commands, index, list)
    ensures ok ==> next == index + 2 * |list|
  {
    ok, next := true, index;
    for k := 0 to |list|
      invariant ok && next == index + 2 * k && Matches(commands, index, list[..k])
    {
      MatchesGrow(commands, index, list, k);
      ok, next := MatchRegister(commands, next, list[k]);
      if !ok {
        if Matches(commands, index, list) { MatchesPrefix(commands, index, list, k + 1); }
        return;
      }
    }
    assert list[..|list|] == list;
  }

  lemma {:induction false} FlattenAdds(a: seq<Register>, b: seq<Register>)
    ensures Flatten(a + b) == Flatten(a) + Flatten(b)
  {
    if |b| == 0 {
      assert a + b == a;
    } else {
      FlattenAdds(a, b[..|b| - 1]);
      assert (a + b)[..|a + b| - 1] == a + b[..|b| - 1];
    }
  }

  lemma FlattenOne(register: Register)
    ensures Flatten([register]) == [Packet0(register.address), register.value]
  {
    assert Flatten([register][..0]) == [];
  }

  /** Where the pieces of a stream lie. */
  lemma ProgramLayout(address: u32, pitch: u32, width: u32, height: u32)
    requires width <= 0x1_0000
    ensures var words := Flatten(Program(address, pitch, width, height));
      && words[..32] == Flatten(BEFORE_EXTENT)
      && words[32..34] == [Packet0(EXTENT), ExtentWord(width, height)]
      && words[34..40] == Flatten(AFTER_EXTENT)
      && words[40..42] == [Packet0(COLOR_OFFSET), address]
      && words[42..44] == [Packet0(COLOR_PITCH), pitch / 2]
  {
    var extent := [Register(EXTENT, ExtentWord(width, height))];
    var offset, row := [Register(COLOR_OFFSET, address)], [Register(COLOR_PITCH, pitch / 2)];
    FlattenAdds(BEFORE_EXTENT, extent);
    FlattenAdds(BEFORE_EXTENT + extent, AFTER_EXTENT);
    FlattenAdds(BEFORE_EXTENT + extent + AFTER_EXTENT, offset + row);
    FlattenAdds(offset, row);
    FlattenOne(extent[0]);
    FlattenOne(offset[0]);
    FlattenOne(row[0]);
    assert Program(address, pitch, width, height) == BEFORE_EXTENT + extent + AFTER_EXTENT + (offset + row);
    Joined(Flatten(BEFORE_EXTENT), Flatten(extent), Flatten(AFTER_EXTENT), Flatten(offset), Flatten(row));
  }

  lemma Joined(a: seq<u32>, b: seq<u32>, c: seq<u32>, d: seq<u32>, e: seq<u32>)
    requires |a| == 32 && |b| == 2 && |c| == 6 && |d| == 2 && |e| == 2
    ensures var all := a + b + c + (d + e);
      all[..32] == a && all[32..34] == b && all[34..40] == c && all[40..42] == d && all[42..44] == e
  {
  }

  /** A stream, slice by slice. */
  lemma StreamSlices(commands: seq<u32>, address: u32, pitch: u32, width: u32, height: u32)
    requires width <= 0x1_0000 && |commands| >= PREAMBLE_DWORDS && WholeTriangles(commands[PREAMBLE_DWORDS..])
    ensures commands == Stream(address, pitch, width, height, commands[PREAMBLE_DWORDS..]) <==>
      && commands[..32] == Flatten(BEFORE_EXTENT)
      && commands[32..34] == [Packet0(EXTENT), ExtentWord(width, height)]
      && commands[34..40] == Flatten(AFTER_EXTENT)
      && commands[40..42] == [Packet0(COLOR_OFFSET), address]
      && commands[42..44] == [Packet0(COLOR_PITCH), pitch / 2]
      && commands[44..46]
         == [DrawHeader(|commands| - PREAMBLE_DWORDS), VertexControl((|commands| - PREAMBLE_DWORDS) / 3)]
  {
    ProgramLayout(address, pitch, width, height);
    var words := Flatten(Program(address, pitch, width, height));
    var stream := Stream(address, pitch, width, height, commands[PREAMBLE_DWORDS..]);
    assert stream[..44] == words &&
      stream[44..46] == [DrawHeader(|commands| - PREAMBLE_DWORDS), VertexControl((|commands| - PREAMBLE_DWORDS) / 3)];
    assert stream[46..] == commands[46..];
    SameSlices(commands, stream);
    assert stream[..32] == words[..32] && stream[32..34] == words[32..34] && stream[34..40] == words[34..40];
    assert stream[40..42] == words[40..42] && stream[42..44] == words[42..44];
  }

  lemma SameSlices(a: seq<u32>, b: seq<u32>)
    requires |a| == |b| && |a| >= PREAMBLE_DWORDS && a[46..] == b[46..]
    ensures a == b <==>
      a[..32] == b[..32] && a[32..34] == b[32..34] && a[34..40] == b[34..40] &&
      a[40..42] == b[40..42] && a[42..44] == b[42..44] && a[44..46] == b[44..46]
  {
    Halves(a, b, 32);
    Halves(a[32..], b[32..], 2);
    Halves(a[34..], b[34..], 6);
    Halves(a[40..], b[40..], 2);
    Halves(a[42..], b[42..], 2);
    Halves(a[44..], b[44..], 2);
    assert a[32..][..2] == a[32..34] && a[32..][2..] == a[34..] && a[34..][..6] == a[34..40] && a[34..][6..] == a[40..];
    assert b[32..][..2] == b[32..34] && b[32..][2..] == b[34..] && b[34..][..6] == b[34..40] && b[34..][6..] == b[40..];
    assert a[40..][..2] == a[40..42] && a[40..][2..] == a[42..] && a[42..][..2] == a[42..44] && a[42..][2..] == a[44..];
    assert b[40..][..2] == b[40..42] && b[40..][2..] == b[42..] && b[42..][..2] == b[42..44] && b[42..][2..] == b[44..];
    assert a[44..][..2] == a[44..46] && a[44..][2..] == a[46..] && b[44..][..2] == b[44..46] && b[44..][2..] == b[46..];
  }

  lemma Halves(a: seq<u32>, b: seq<u32>, n: nat)
    requires |a| == |b| >= n
    ensures a == b <==> a[..n] == b[..n] && a[n..] == b[n..]
  {
    assert a == a[..n] + a[n..] && b == b[..n] + b[n..];
  }

  /** Everything in front of the vertices, for the target the stream names. */
  predicate PreambleMatches(surfaces: seq<Target>, commands: seq<u32>)
    requires |commands| >= PREAMBLE_DWORDS && WholeTriangles(commands[PREAMBLE_DWORDS..])
  {
    var target := FirstEligible(surfaces, commands[41]);
    && Matches(commands, 0, BEFORE_EXTENT) && commands[32] == Packet0(EXTENT) && Matches(commands, 34, AFTER_EXTENT)
    && commands[40] == Packet0(COLOR_OFFSET) && target.Some?
    && commands[33] == ExtentWord(target.value.width, target.value.height)
    && commands[42..44] == [Packet0(COLOR_PITCH), target.value.pitch / 2]
    && commands[44] == DrawHeader(|commands| - PREAMBLE_DWORDS)
    && commands[45] == VertexControl((|commands| - PREAMBLE_DWORDS) / 3)
  }

  lemma PreambleExact(surfaces: seq<Target>, commands: seq<u32>)
    requires |commands| >= PREAMBLE_DWORDS && WholeTriangles(commands[PREAMBLE_DWORDS..])
    ensures var target := FirstEligible(surfaces, commands[41]);
      PreambleMatches(surfaces, commands) <==>
        target.Some? && commands == Stream(target.value.gpuAddress, target.value.pitch, target.value.width,
                                           target.value.height, commands[PREAMBLE_DWORDS..])
  {
    var target := FirstEligible(surfaces, commands[41]);
    assert commands[0..32] == commands[..32];
    if target.Some? {
      StreamSlices(commands, target.value.gpuAddress, target.value.pitch, target.value.width, target.value.height);
      assert commands[40..42] == [commands[40], commands[41]] && commands[32..34] == [commands[32], commands[33]];
      assert commands[44..46] == [commands[44], commands[45]];
    }
  }

  /** The checks of ValidateTriangleBatch up to the first vertex, in its order. */
  method MatchPreamble(surfaces: seq<Target>, commands: seq<u32>) returns (target: Option<Target>, index: nat)
    requires |commands| >= PREAMBLE_DWORDS && WholeTriangles(commands[PREAMBLE_DWORDS..])
    ensures target.Some? <==> PreambleMatches(surfaces, commands)
    ensures target.Some? ==> target == FirstEligible(surfaces, commands[41]) && index == PREAMBLE_DWORDS
  {
    TablesAgree();
    var ok;
    ok, index := MatchRegisters(commands, 0, CHECKED_BEFORE);
    if !ok || index > |commands| - 2 || commands[index] != Packet0(R.RE_WIDTH_HEIGHT) {
      return None, index;
    }
    var widthHeight := commands[index + 1];
    index := index + 2;
    ok, index := MatchRegisters(commands, index, CHECKED_AFTER);
    if !ok || index > |commands| - 4 || commands[index] != Packet0(R.RB3D_COLOROFFSET) {
      return None, index;
    }
    target := FindTarget(surfaces, commands[index + 1]);
    if target == None || widthHeight != ExtentWord(target.value.width, target.value.height) {
      return None, index;
    }
    index := index + 2;
    ok, index := MatchRegister(commands, index, Register(R.RB3D_COLORPITCH, target.value.pitch / 2));
    if !ok || index > |commands| - 11
       || commands[index] != Packet3(R.CMD_3D_DRAW_IMMD_2, |commands| - PREAMBLE_DWORDS)
       || commands[index + 1] != PrimitiveWord((|commands| - PREAMBLE_DWORDS) / 3) {
      return None, index;
    }
    index := index + 2;
  }

  /** ValidateTriangleBatch accepts exactly the streams of the emitter for an eligible surface. */
  method ValidateTriangleBatch(surfaces: seq<Target>, commands: seq<u32>) returns (ok: bool)
    ensures ok <==> Accepted(surfaces, commands)
    ensures ok ==> RendersToSurface(surfaces, commands)
  {
    ok := MatchBatch(surfaces, commands);
    if ok { AcceptedRenders(surfaces, commands); }
  }

  /** Its checks, one after the other. */
  method MatchBatch(surfaces: seq<Target>, commands: seq<u32>) returns (ok: bool)
    ensures ok <==> Accepted(surfaces, commands)
  {
    if |commands| < PREAMBLE_DWORDS || (|commands| - PREAMBLE_DWORDS) % 3 != 0 {
      return false;
    }
    var vertexCount := (|commands| - PREAMBLE_DWORDS) / 3;
    if vertexCount < 3 || vertexCount > MAX_VERTICES || vertexCount % 3 != 0 {
      return false;
    }
    PreambleExact(surfaces, commands);
    var target, index := MatchPreamble(surfaces, commands);
    if target == None {
      return false;
    }
    ok := CheckVertices(commands, vertexCount, target.value.width, target.value.height);
  }

  method CheckVertices(commands: seq<u32>, vertexCount: nat, width: nat, height: nat) returns (ok: bool)
    requires |commands| == PREAMBLE_DWORDS + 3 * vertexCount && width <= 0x1_0000 && height <= 0x1_0000
    ensures ok <==> OnTarget(commands[PREAMBLE_DWORDS..], width, height)
  {
    LimitsFit();
    ghost var vertices := commands[PREAMBLE_DWORDS..];
    var index := PREAMBLE_DWORDS;
    for v := 0 to vertexCount
      invariant index == PREAMBLE_DWORDS + 3 * v
      invariant forall u :: 0 <= u < v ==>
        ValidScreenCoordinate(vertices[3 * u], width) && ValidScreenCoordinate(vertices[3 * u + 1], height)
    {
      assert vertices[3 * v] == commands[index] && vertices[3 * v + 1] == commands[index + 1];
      if !ValidScreenCoordinate(commands[index], width) || !ValidScreenCoordinate(commands[index + 1], height) {
        return false;
      }
      index := index + 3;
    }
    return true;
  }

  // ------------------------------------------------------------ round trip

  /** What the emitter builds for the session's first surface at an address is accepted, if the vertices are on it. */
  lemma EmitterAccepted(surfaces: seq<Target>, k: nat, vertices: seq<u32>)
    requires k < |surfaces| && |vertices| % 9 == 0 && 0 < |vertices| <= 9 * 85
    requires var t := surfaces[k];
      && t.rgb565 && t.width <= 0x1_0000 && t.height <= 0x1_0000
      && t.gpuAddress % 16 == 0 && t.pitch / 2 % 8 == 0 && t.pitch / 2 <= 0x1ff8
    requires forall i :: 0 <= i < k ==> !Eligible(surfaces[i], surfaces[k].gpuAddress)
    ensures Accepted(surfaces,
      Stream(surfaces[k].gpuAddress, surfaces[k].pitch, surfaces[k].width, surfaces[k].height, vertices))
       <==> OnTarget(vertices, surfaces[k].width, surfaces[k].height)
  {
    var t := surfaces[k];
    var stream := Stream(t.gpuAddress, t.pitch, t.width, t.height, vertices);
    assert stream[PREAMBLE_DWORDS..] == vertices;
    StreamSlices(stream, t.gpuAddress, t.pitch, t.width, t.height);
    assert stream[41] == stream[40..42][1];
    FirstIsFirst(surfaces, k, t.gpuAddress);
  }

  /** In an accepted stream every position is a number between zero and the edge of the target. */
  lemma AcceptedPositions(surfaces: seq<Target>, commands: seq<u32>, v: nat)
    requires Accepted(surfaces, commands) && v < (|commands| - PREAMBLE_DWORDS) / 3
    ensures var target := FirstEligible(surfaces, commands[41]).value;
      && commands[46 + 3 * v] < INFINITY_BITS && 0.0 <= Value(commands[46 + 3 * v]) <= target.width as real
      && commands[47 + 3 * v] < INFINITY_BITS && 0.0 <= Value(commands[47 + 3 * v]) <= target.height as real
  {
    var target, vertices := FirstEligible(surfaces, commands[41]).value, commands[PREAMBLE_DWORDS..];
    LimitsFit();
    assert vertices[3 * v] == commands[46 + 3 * v] && vertices[3 * v + 1] == commands[47 + 3 * v];
    CoordinateExact(commands[46 + 3 * v], target.width);
    CoordinateExact(commands[47 + 3 * v], target.height);
    NotNegative(commands[46 + 3 * v]);
    NotNegative(commands[47 + 3 * v]);
  }

  lemma NotNegative(bits: nat)
    requires bits < INFINITY_BITS
    ensures Value(bits) >= 0.0
  {
  }

  /** ValidateBatch: idle fill alone, or exactly one triangle list. */
  method ValidateBatch(surfaces: seq<Target>, commands: seq<u32>) returns (ok: bool)
    ensures ok <==> 0 < |commands| <= MAX_BATCH_DWORDS &&
                    ((forall k :: 0 <= k < |commands| ==> commands[k] == PACKET2) || Accepted(surfaces, commands))
  {
    if |commands| == 0 || |commands| > MAX_BATCH_DWORDS {
      return false;
    }
    for k := 0 to |commands|
      invariant forall j :: 0 <= j < k ==> commands[j] == PACKET2
    {
      if commands[k] != PACKET2 {
        ok := ValidateTriangleBatch(surfaces, commands);
        return;
      }
    }
    return true;
  }

  lemma AcceptedHeader(surfaces: seq<Target>, commands: seq<u32>)
    requires Accepted(surfaces, commands)
    ensures commands[0] == 0x850
  {
    var target := FirstEligible(surfaces, commands[41]).value;
    StreamSlices(commands, target.gpuAddress, target.pitch, target.width, target.height);
    FirstHeader();
    assert commands[0] == commands[..32][0];
  }

  /** A list behind leading fill is refused: nothing but fill may follow fill. */
  lemma FillPrefixRefused(surfaces: seq<Target>, commands: seq<u32>)
    requires |commands| > 0 && commands[0] == PACKET2
    ensures !Accepted(surfaces, commands)
  {
    if Accepted(surfaces, commands) { AcceptedHeader(surfaces, commands); }
  }

  lemma FirstHeader()
    ensures Flatten(BEFORE_EXTENT)[0] == 0x850
  {
    FlattenAdds(BEFORE_EXTENT[..1], BEFORE_EXTENT[1..]);
    assert BEFORE_EXTENT == BEFORE_EXTENT[..1] + BEFORE_EXTENT[1..];
    assert BEFORE_EXTENT[..1] == [Register(0x2140, 0)];
    FlattenOne(Register(0x2140, 0));
  }
}
