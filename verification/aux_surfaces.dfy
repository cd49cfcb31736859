/**
 Who holds which auxiliary surface (Radeon3DAllocSurface, Radeon3DReleaseSurface and
 FreeDeviceSurfaces in src/radeon3d_service.c): every session keeps a list of surfaces,
 each with the pool block it was given.  Attaching clears the table of blocks without
 looking at the lists (src/radeon_accel.c).
 */
module AuxSurfaces {
  import opened Words
  import opened PrivateVram
  import opened AuxPool

  const PITCH_ALIGNMENT: nat := 128
  const MAX_DIMENSION: nat := 4096

  /** A block that somebody was given. */
  type Slice = b: Block | Live(b) witness Block(0, 4096)

  /** A session: the attachment it was opened in, and the blocks of its allocated surfaces in list order. */
  datatype Device = Device(attachment: nat, surfaces: seq<Slice>)

  datatype State = State(blocks: seq<Block>, present: bool, devices: seq<Device>, attachment: nat)
  {
    /** The generation check: sessions of an earlier attachment get no surface. */
    predicate Current(d: int) { 0 <= d < |devices| && devices[d].attachment == attachment }

    predicate Has(d: int, k: int) { 0 <= d < |devices| && 0 <= k < |devices[d].surfaces| }

    function Surface(d: int, k: int): Slice
      requires Has(d, k)
    {
      devices[d].surfaces[k]
    }
  }

  datatype Event =
    | Open
    | AllocSurface(device: nat, requested: nat)
    | ReleaseSurface(device: nat, index: nat)
    | Close(device: nat)
    | Reattach(carved: bool)

  /** AuxPoolFree for a whole list, in order. */
  function WithoutAll(blocks: seq<Block>, list: seq<Slice>): (after: seq<Block>)
    ensures |after| == |blocks|
    ensures forall i :: 0 <= i < |blocks| ==> after[i] == if blocks[i] in list then EMPTY else blocks[i]
    decreases |list|
  {
    if |list| == 0 then blocks
    else
      assert forall b :: b in list <==> b == list[0] || b in list[1..];
      FreeStaysFree(blocks, list);
      WithoutAll(Without(blocks, list[0]), list[1..])
  }

  lemma FreeStaysFree(blocks: seq<Block>, list: seq<Slice>)
    requires |list| > 0
    ensures forall i :: 0 <= i < |blocks| && blocks[i] != list[0] ==> Without(blocks, list[0])[i] == blocks[i]
  {
  }

  function SetSurfaces(s: State, d: nat, blocks: seq<Block>, surfaces: seq<Slice>): State
    requires d < |s.devices|
  {
    s.(blocks := blocks, devices := s.devices[d := s.devices[d].(surfaces := surfaces)])
  }

  /** One event; `got` is what the allocator answered. */
  ghost predicate Next(s: State, e: Event, got: Option<Slice>, t: State) {
    match e
    case Open => t == s.(devices := s.devices + [Device(s.attachment, [])])
    case AllocSurface(d, requested) =>
      if !s.Current(d) then t == s
      else
        && Allocates(s.blocks, s.present, requested, got, t.blocks)
        && t == SetSurfaces(s, d, t.blocks, s.devices[d].surfaces + (if got.Some? then [got.value] else []))
    case ReleaseSurface(d, k) =>
      if !s.Has(d, k) then t == s
      else
        t == SetSurfaces(s, d, Without(s.blocks, s.Surface(d, k)),
                         s.devices[d].surfaces[..k] + s.devices[d].surfaces[k + 1..])
    case Close(d) =>
      if d >= |s.devices| then t == s else t == SetSurfaces(s, d, WithoutAll(s.blocks, s.devices[d].surfaces), [])
    case Reattach(carved) => t == State(EmptyTable(), carved, s.devices, s.attachment + 1)
  }

  /** One turn of FreeDeviceSurfaces: the first surface of the list goes. */
  function FreeFirst(s: State, d: nat): State
    requires s.Has(d, 0)
  {
    SetSurfaces(s, d, Without(s.blocks, s.Surface(d, 0)), s.devices[d].surfaces[1..])
  }

  function FreeInTurn(s: State, d: nat): State
    requires d < |s.devices|
    decreases |s.devices[d].surfaces|
  {
    if |s.devices[d].surfaces| == 0 then s else FreeInTurn(FreeFirst(s, d), d)
  }

  /** A turn is a release of the first surface, so runs with releases in them cover turns interleaved with anything. */
  lemma TurnIsRelease(s: State, d: nat)
    requires s.Has(d, 0)
    ensures Next(s, ReleaseSurface(d, 0), None, FreeFirst(s, d))
  {
    var list := s.devices[d].surfaces;
    assert list[..0] + list[1..] == list[1..];
  }

  /** Uninterrupted, the turns add up to the close of the whole session. */
  lemma {:induction false} TurnsAddUp(s: State, d: nat)
    requires d < |s.devices|
    ensures Next(s, Close(d), None, FreeInTurn(s, d))
    decreases |s.devices[d].surfaces|
  {
    var list := s.devices[d].surfaces;
    if |list| == 0 {
      assert s.devices[d := s.devices[d].(surfaces := [])] == s.devices;
    } else {
      TurnsAddUp(FreeFirst(s, d), d);
    }
  }

  // ------------------------------------------------------------ requests

  /** What Radeon3DAllocSurface asks the pool for: rows padded to 128 bytes. */
  function Pitch(width: nat, bytesPerPixel: nat): nat {
    (width * bytesPerPixel + PITCH_ALIGNMENT - 1) / PITCH_ALIGNMENT * PITCH_ALIGNMENT
  }

  predicate Sized(width: nat, height: nat, bytesPerPixel: nat) {
    0 < width <= MAX_DIMENSION && 0 < height <= MAX_DIMENSION && bytesPerPixel in {1, 2, 4}
  }

  /** The request fits 32 bits, the rows do not overlap and all of them lie in the block. */
  lemma SurfaceInBlock(width: nat, height: nat, bytesPerPixel: nat, block: Block)
    requires Sized(width, height, bytesPerPixel) && block.bytes == RoundUp(Pitch(width, bytesPerPixel) * height)
    ensures width * bytesPerPixel <= Pitch(width, bytesPerPixel) < width * bytesPerPixel + PITCH_ALIGNMENT
    ensures 0 < Pitch(width, bytesPerPixel) * height < TWO32
    ensures Pitch(width, bytesPerPixel) / bytesPerPixel >= width
    ensures (height - 1) * Pitch(width, bytesPerPixel) + width * bytesPerPixel <= block.bytes
  {
    var pitch := Pitch(width, bytesPerPixel);
    assert pitch <= 16384;
    assert 0 < pitch * height <= 16384 * 4096 by { Products(pitch, height, 16384, 4096); }
    assert (height - 1) * pitch + pitch == height * pitch;
  }

  lemma Products(a: nat, b: nat, top: nat, c: nat)
    requires 0 < a <= top && 0 < b <= c
    ensures 0 < a * b <= top * c
  {
    assert a * b <= top * b && top * b <= top * c && a * b >= 1 * b;
  }

  // ------------------------------------------------------------ the invariant

  /** The surfaces of a session of this attachment. */
  function Of(s: State, d: int): seq<Slice> { if s.Current(d) then s.devices[d].surfaces else [] }

  predicate NoRepeats(list: seq<Slice>) { forall i, j :: 0 <= i < j < |list| ==> list[i] != list[j] }

  /**
   The live blocks of the table are the surfaces of this attachment's sessions, each
   held by one session and once.
   */
  ghost predicate Owned(s: State) {
    && (forall d, b :: b in Of(s, d) ==> b in s.blocks)
    && (forall b :: b in s.blocks && Live(b) ==> exists d :: b in Of(s, d))
    && (forall d, e, b :: b in Of(s, d) && b in Of(s, e) ==> d == e)
    && (forall d :: NoRepeats(Of(s, d)))
  }

  ghost predicate Inv(s: State) {
    && |s.blocks| == MAX_BLOCKS && Sound(s.blocks) && Owned(s)
    && (forall d :: 0 <= d < |s.devices| ==> s.devices[d].attachment <= s.attachment)
  }

  /** A session left from an earlier attachment may free a block that is not in the table. */
  predicate Allowed(s: State, e: Event) {
    match e
    case ReleaseSurface(d, k) => s.Current(d) || !s.Has(d, k) || s.Surface(d, k) !in s.blocks
    case Close(d) => s.Current(d) || d >= |s.devices| || forall b :: b in s.devices[d].surfaces ==> b !in s.blocks
    case _ => true
  }

  /** Different blocks of a sound table are apart. */
  lemma BlocksApart(blocks: seq<Block>, a: Block, b: Block)
    requires Sound(blocks) && a in blocks && b in blocks && Live(a) && Live(b) && a != b
    ensures AuxPool.Apart(a, b)
  {
    var i :| 0 <= i < |blocks| && blocks[i] == a;
    var j :| 0 <= j < |blocks| && blocks[j] == b;
    assert AuxPool.Apart(blocks[if i < j then i else j], blocks[if i < j then j else i]);
  }

  // ------------------------------------------------------------ every event

  lemma NewBlock(blocks: seq<Block>, block: Block)
    requires Live(block) && Place(blocks, block.offset, block.bytes)
    ensures block !in blocks
  {
    if block in blocks {
      var i :| 0 <= i < |blocks| && blocks[i] == block;
      assert Overlaps(blocks[i], block.offset, block.bytes);
    }
  }

  /** What the allocator leaves: the old blocks and the new one. */
  lemma TableWith(before: seq<Block>, k: nat, block: Block)
    requires k < |before| && !Live(before[k]) && Live(block)
    ensures forall b :: Live(b) ==> (b in before[k := block] <==> b in before || b == block)
  {
    var after := before[k := block];
    assert after[k] == block;
    forall b | Live(b) && b in before ensures b in after {
      var i :| 0 <= i < |before| && before[i] == b;
      assert after[i] == b;
    }
  }

  /** A block the table did not have, given to one session. */
  lemma GiveOwned(s: State, t: State, d: int, k: nat, block: Slice)
    requires Owned(s) && k < |s.blocks| && !Live(s.blocks[k]) && block !in s.blocks && t.blocks == s.blocks[k := block]
    requires Of(t, d) == Of(s, d) + [block] && forall e :: e != d ==> Of(t, e) == Of(s, e)
    ensures Owned(t)
  {
    TableWith(s.blocks, k, block);
    forall e, b ensures b in Of(t, e) <==> b in Of(s, e) || (e == d && b == block) {
    }
    forall b | b in t.blocks && Live(b) ensures exists e :: b in Of(t, e) {
      if b == block {
        assert b in Of(t, d);
      } else {
        var e :| b in Of(s, e);
        assert b in Of(t, e);
      }
    }
    forall e ensures NoRepeats(Of(t, e)) {
      assert NoRepeats(Of(s, e)) && block !in Of(s, e);
      if e == d { OneMore(Of(s, d), block); }
    }
  }

  lemma OneMore(list: seq<Slice>, block: Slice)
    requires NoRepeats(list) && block !in list
    ensures NoRepeats(list + [block])
  {
  }

  lemma GiveKeeps(s: State, d: nat, k: nat, block: Slice)
    requires Inv(s) && s.Current(d) && k < MAX_BLOCKS && !Live(s.blocks[k]) && block !in s.blocks
    requires Sound(s.blocks[k := block])
    ensures Inv(SetSurfaces(s, d, s.blocks[k := block], s.devices[d].surfaces + [block]))
  {
    GiveOwned(s, SetSurfaces(s, d, s.blocks[k := block], s.devices[d].surfaces + [block]), d, k, block);
  }

  lemma AllocKeeps(s: State, d: nat, requested: nat, got: Option<Slice>, t: State)
    requires Inv(s) && Next(s, AllocSurface(d, requested), got, t)
    ensures Inv(t)
  {
    if s.Current(d) {
      if got == None {
        assert s.devices[d].surfaces + [] == s.devices[d].surfaces;
        assert s.devices[d := s.devices[d].(surfaces := s.devices[d].surfaces)] == s.devices;
        assert t == s;
      } else {
        var k :| 0 <= k < |s.blocks| && !Live(s.blocks[k]) && t.blocks == s.blocks[k := got.value];
        NewBlock(s.blocks, got.value);
        AllocatedSound(s.blocks, requested, got.value, k);
        GiveKeeps(s, d, k, got.value);
      }
    }
  }

  /** A list without some of its blocks. */
  ghost predicate Splits(list: seq<Slice>, gone: seq<Slice>, left: seq<Slice>) {
    && (forall b :: b in list <==> b in gone || b in left)
    && (forall b :: b in gone ==> b !in left)
    && NoRepeats(left)
  }

  lemma TableLess(blocks: seq<Block>, gone: seq<Slice>)
    ensures forall b :: Live(b) ==> (b in WithoutAll(blocks, gone) <==> b in blocks && b !in gone)
  {
    var after := WithoutAll(blocks, gone);
    forall b | Live(b) && b in blocks && b !in gone ensures b in after {
      var i :| 0 <= i < |blocks| && blocks[i] == b;
      assert after[i] == b;
    }
  }

  lemma SoundLess(blocks: seq<Block>, gone: seq<Slice>)
    requires Sound(blocks)
    ensures Sound(WithoutAll(blocks, gone))
  {
    var after := WithoutAll(blocks, gone);
    assert forall i :: 0 <= i < |after| && Live(after[i]) ==> after[i] == blocks[i];
  }

  /** Blocks of one session that leave its list and the table. */
  lemma TakeOwned(s: State, t: State, d: int, gone: seq<Slice>, left: seq<Slice>)
    requires Owned(s) && Splits(Of(s, d), gone, left) && t.blocks == WithoutAll(s.blocks, gone)
    requires Of(t, d) == left && forall e :: e != d ==> Of(t, e) == Of(s, e)
    ensures Owned(t)
  {
    TableLess(s.blocks, gone);
    forall e, b ensures b in Of(t, e) <==> b in Of(s, e) && b !in gone {
      if b in gone { assert b in Of(s, d); }
    }
    forall b | b in t.blocks && Live(b) ensures exists e :: b in Of(t, e) {
      var e :| b in Of(s, e);
      assert b in Of(t, e);
    }
    assert forall e :: e != d ==> NoRepeats(Of(s, e));
  }

  /** Taking surfaces from a session of this attachment, and their blocks from the table. */
  lemma TakeCurrentKeeps(s: State, d: nat, gone: seq<Slice>, left: seq<Slice>)
    requires Inv(s) && s.Current(d) && Splits(s.devices[d].surfaces, gone, left)
    ensures Inv(SetSurfaces(s, d, WithoutAll(s.blocks, gone), left))
  {
    SoundLess(s.blocks, gone);
    TakeOwned(s, SetSurfaces(s, d, WithoutAll(s.blocks, gone), left), d, gone, left);
  }

  /** A session of an earlier attachment whose blocks the table does not have. */
  lemma TakeStaleKeeps(s: State, d: nat, gone: seq<Slice>, left: seq<Slice>)
    requires Inv(s) && d < |s.devices| && !s.Current(d) && forall b :: b in gone ==> b !in s.blocks
    ensures Inv(SetSurfaces(s, d, WithoutAll(s.blocks, gone), left))
  {
    var t := SetSurfaces(s, d, WithoutAll(s.blocks, gone), left);
    assert t.blocks == s.blocks;
    SameHolders(s, t);
  }

  /** The same table and the same lists of this attachment's sessions. */
  lemma SameHolders(s: State, t: State)
    requires Inv(s) && t.blocks == s.blocks && forall e :: Of(t, e) == Of(s, e)
    requires forall d :: 0 <= d < |t.devices| ==> t.devices[d].attachment <= t.attachment
    ensures Inv(t)
  {
    forall b | b in t.blocks && Live(b) ensures exists e :: b in Of(t, e) {
      var e :| b in Of(s, e);
      assert b in Of(t, e);
    }
    forall d, e, b | b in Of(t, d) && b in Of(t, e) ensures d == e {
      assert b in Of(s, d) && b in Of(s, e);
    }
    forall d ensures NoRepeats(Of(t, d)) {
      assert NoRepeats(Of(s, d));
    }
  }

  /** And one whose blocks the table does have: they belong to somebody else. */
  lemma TakeStaleBreaks(s: State, d: nat, gone: seq<Slice>, left: seq<Slice>, b: Slice)
    requires Inv(s) && d < |s.devices| && !s.Current(d) && b in gone && b in s.blocks
    ensures !Inv(SetSurfaces(s, d, WithoutAll(s.blocks, gone), left))
  {
    var t := SetSurfaces(s, d, WithoutAll(s.blocks, gone), left);
    var e :| b in Of(s, e);
    TableLess(s.blocks, gone);
    assert b in Of(t, e) && b !in t.blocks;
  }

  /** One surface taken out of a list without repetitions. */
  lemma SplitsAt(list: seq<Slice>, k: nat)
    requires k < |list| && NoRepeats(list)
    ensures Splits(list, [list[k]], list[..k] + list[k + 1..])
  {
    var left := list[..k] + list[k + 1..];
    forall b | b in list ensures b == list[k] || b in left {
      var i :| 0 <= i < |list| && list[i] == b;
      if i < k { assert left[i] == b; } else if i > k { assert left[i - 1] == b; }
    }
  }

  /** Exactly when releasing a surface keeps the table right. */
  lemma ReleaseExactly(s: State, d: nat, k: nat, t: State)
    requires Inv(s) && s.Has(d, k) && Next(s, ReleaseSurface(d, k), None, t)
    ensures Inv(t) <==> s.Current(d) || s.Surface(d, k) !in s.blocks
  {
    var list := s.devices[d].surfaces;
    var gone, left := [list[k]], list[..k] + list[k + 1..];
    assert t.blocks == WithoutAll(s.blocks, gone);
    if s.Current(d) {
      assert NoRepeats(Of(s, d));
      SplitsAt(list, k);
      TakeCurrentKeeps(s, d, gone, left);
    } else if s.Surface(d, k) !in s.blocks {
      TakeStaleKeeps(s, d, gone, left);
    } else {
      TakeStaleBreaks(s, d, gone, left, list[k]);
    }
  }

  /** And closing a session. */
  lemma CloseExactly(s: State, d: nat, t: State)
    requires Inv(s) && d < |s.devices| && Next(s, Close(d), None, t)
    ensures Inv(t) <==> s.Current(d) || forall b :: b in s.devices[d].surfaces ==> b !in s.blocks
  {
    var list := s.devices[d].surfaces;
    if s.Current(d) {
      TakeCurrentKeeps(s, d, list, []);
    } else if forall b :: b in list ==> b !in s.blocks {
      TakeStaleKeeps(s, d, list, []);
    } else {
      var b :| b in list && b in s.blocks;
      TakeStaleBreaks(s, d, list, [], b);
    }
  }

  /** Attaching: nobody is of the new attachment yet, and the table is empty. */
  lemma ReattachKeeps(s: State, carved: bool)
    requires Inv(s)
    ensures Inv(State(EmptyTable(), carved, s.devices, s.attachment + 1))
  {
    var t := State(EmptyTable(), carved, s.devices, s.attachment + 1);
    assert forall d :: Of(t, d) == [];
  }

  lemma NextKeeps(s: State, e: Event, got: Option<Slice>, t: State)
    requires Inv(s) && Allowed(s, e) && Next(s, e, got, t)
    ensures Inv(t)
  {
    match e
    case Open => SameHolders(s, t);
    case AllocSurface(d, requested) => AllocKeeps(s, d, requested, got, t);
    case ReleaseSurface(d, k) => if s.Has(d, k) { ReleaseExactly(s, d, k, t); }
    case Close(d) => if d < |s.devices| { CloseExactly(s, d, t); }
    case Reattach(carved) => ReattachKeeps(s, carved);
  }

  // ------------------------------------------------------------ runs

  const Initial: State := State(EmptyTable(), false, [], 0)

  /** The states of a run, with what the allocator answered on the way. */
  ghost predicate Trace(states: seq<State>, events: seq<Event>, answers: seq<Option<Slice>>) {
    && |events| == |answers| && |states| == |events| + 1 && states[0] == Initial
    && forall n :: 0 <= n < |events| ==> Next(states[n], events[n], answers[n], states[n + 1])
  }

  ghost predicate AllAllowed(states: seq<State>, events: seq<Event>)
    requires |states| == |events| + 1
  {
    forall n :: 0 <= n < |events| ==> Allowed(states[n], events[n])
  }

  /** In every run without a stale free the table is the disjoint union of the sessions' surfaces. */
  lemma {:induction false} RunKeeps(states: seq<State>, events: seq<Event>, answers: seq<Option<Slice>>, n: nat)
    requires Trace(states, events, answers) && AllAllowed(states, events) && n < |states|
    ensures Inv(states[n])
  {
    if n > 0 {
      RunKeeps(states, events, answers, n - 1);
      NextKeeps(states[n - 1], events[n - 1], answers[n - 1], states[n]);
    }
  }

  predicate AllCurrent(s: State) {
    forall d :: 0 <= d < |s.devices| ==> s.devices[d].attachment == s.attachment
  }

  lemma StaysCurrent(s: State, e: Event, answer: Option<Slice>, t: State)
    requires AllCurrent(s) && Next(s, e, answer, t) && (e.Reattach? ==> s.devices == [])
    ensures AllCurrent(t) && Allowed(s, e)
  {
  }

  /** Attached once, before anybody opens: every session is of that attachment, so nothing it does can go wrong. */
  lemma {:induction false} OneAttachment(states: seq<State>, events: seq<Event>, answers: seq<Option<Slice>>, n: nat)
    requires Trace(states, events, answers) && n < |states|
    requires forall i :: 0 < i < |events| ==> !events[i].Reattach?
    ensures AllCurrent(states[n]) && (n < |events| ==> Allowed(states[n], events[n]))
  {
    if n > 0 {
      OneAttachment(states, events, answers, n - 1);
      StaysCurrent(states[n - 1], events[n - 1], answers[n - 1], states[n]);
    }
    if n < |events| { StaysCurrent(states[n], events[n], answers[n], states[n + 1]); }
  }

  /** Two surfaces of one attachment never share a byte. */
  lemma NeverShared(s: State, d: nat, k: nat, e: nat, j: nat)
    requires Inv(s) && s.Current(d) && s.Has(d, k) && s.Current(e) && s.Has(e, j) && (d != e || k != j)
    ensures AuxPool.Apart(s.Surface(d, k), s.Surface(e, j))
  {
    assert s.Surface(d, k) in Of(s, d) && s.Surface(e, j) in Of(s, e);
    if d == e {
      assert NoRepeats(Of(s, d));
      assert s.Surface(d, if k < j then k else j) != s.Surface(d, if k < j then j else k);
    }
    BlocksApart(s.blocks, s.Surface(d, k), s.Surface(e, j));
  }

  lemma SurfaceInPool(s: State, d: nat, k: nat)
    requires Inv(s) && s.Current(d) && s.Has(d, k)
    ensures s.Surface(d, k).offset + s.Surface(d, k).bytes <= POOL_BYTES
    ensures s.Surface(d, k).offset % ALIGNMENT == 0
  {
    assert s.Surface(d, k) in Of(s, d);
    var i :| 0 <= i < |s.blocks| && s.blocks[i] == s.Surface(d, k);
  }

  // ------------------------------------------------------------ a stale close

  const BLOCK: Slice := Block(0, 4096)

  /** The session of the first attachment closes while a session of the second has a surface in the same place. */
  const STALE_CLOSE: seq<Event> :=
    [Reattach(true), Open, AllocSurface(0, 4096), Reattach(true), Open, AllocSurface(1, 4096), Close(0), Open,
     AllocSurface(2, 4096)]

  lemma FirstBlock()
    ensures Allocates(EmptyTable(), true, 4096, Some(BLOCK), EmptyTable()[0 := BLOCK])
    ensures WithoutAll(EmptyTable()[0 := BLOCK], [BLOCK]) == EmptyTable()
  {
    assert RoundUp(4096) == 4096;
    assert Place(EmptyTable(), 0, RoundUp(4096));
    assert !Live(EmptyTable()[0]);
  }

  /** The states of that run. */
  function StaleStates(): (states: seq<State>)
    ensures |states| == |STALE_CLOSE| + 1
  {
    var none, one := EmptyTable(), EmptyTable()[0 := BLOCK];
    [Initial,
     State(none, true, [], 1),
     State(none, true, [Device(1, [])], 1),
     State(one, true, [Device(1, [BLOCK])], 1),
     State(none, true, [Device(1, [BLOCK])], 2),
     State(none, true, [Device(1, [BLOCK]), Device(2, [])], 2),
     State(one, true, [Device(1, [BLOCK]), Device(2, [BLOCK])], 2),
     State(none, true, [Device(1, []), Device(2, [BLOCK])], 2),
     State(none, true, [Device(1, []), Device(2, [BLOCK]), Device(2, [])], 2),
     State(one, true, [Device(1, []), Device(2, [BLOCK]), Device(2, [BLOCK])], 2)]
  }

  const STALE_ANSWERS: seq<Option<Slice>> :=
    [None, None, Some(BLOCK), None, None, Some(BLOCK), None, None, Some(BLOCK)]

  lemma StaleStep(n: nat)
    requires n < |STALE_CLOSE|
    ensures Next(StaleStates()[n], STALE_CLOSE[n], STALE_ANSWERS[n], StaleStates()[n + 1])
  {
    var s := StaleStates()[n];
    match STALE_CLOSE[n]
    case AllocSurface(d, _) => FirstSurface(s, d);
    case Close(d) => FirstBlock();
    case _ =>
  }

  lemma FirstSurface(s: State, d: nat)
    requires s.Current(d) && s.present && s.blocks == EmptyTable() && s.devices[d].surfaces == []
    ensures Next(s, AllocSurface(d, 4096), Some(BLOCK), SetSurfaces(s, d, EmptyTable()[0 := BLOCK], [BLOCK]))
  {
    FirstBlock();
    assert s.devices[d].surfaces + [BLOCK] == [BLOCK];
  }

  /** The next surface is then handed out on top of the one still in use. */
  lemma StaleCloseShares()
    ensures Trace(StaleStates(), STALE_CLOSE, STALE_ANSWERS)
    ensures var s := StaleStates()[9];
      s.Current(1) && s.Current(2) && s.Has(1, 0) && s.Has(2, 0) && s.Surface(1, 0) == s.Surface(2, 0) == BLOCK
  {
    forall n | 0 <= n < |STALE_CLOSE|
      ensures Next(StaleStates()[n], STALE_CLOSE[n], STALE_ANSWERS[n], StaleStates()[n + 1])
    {
      StaleStep(n);
    }
  }

  // ------------------------------------------------------------ the service's fields

  class Service {
    const pool: Pool
    var devices: seq<Device>
    var attachment: nat

    predicate Valid()
      reads this, pool, pool.blocks
    {
      pool.Valid()
    }

    function View(): State
      reads this, pool, pool.blocks
    {
      State(pool.blocks[..], pool.present, devices, attachment)
    }

    constructor ()
      ensures Valid() && View() == Initial && fresh(pool) && fresh(pool.blocks)
    {
      pool := new Pool(false);
      devices, attachment := [], 0;
    }

    /** Radeon3DAllocSurface, from the generation check on; a refused session gets nothing. */
    method AllocSurface(d: nat, width: nat, height: nat, bytesPerPixel: nat) returns (got: Option<Slice>)
      requires Valid() && Sized(width, height, bytesPerPixel)
      modifies this, pool.blocks
      ensures Valid() && Next(old(View()), Event.AllocSurface(d, Pitch(width, bytesPerPixel) * height), got, View())
      ensures got.Some? ==> View().Current(d) && got.value == devices[d].surfaces[|devices[d].surfaces| - 1]
      ensures got.Some? ==> (height - 1) * Pitch(width, bytesPerPixel) + width * bytesPerPixel <= got.value.bytes
    {
      if d >= |devices| || devices[d].attachment != attachment {
        return None;
      }
      got := pool.Alloc(Pitch(width, bytesPerPixel) * height);
      if got.Some? {
        SurfaceInBlock(width, height, bytesPerPixel, got.value);
        devices := devices[d := devices[d].(surfaces := devices[d].surfaces + [got.value])];
      } else {
        assert devices[d].surfaces + [] == devices[d].surfaces;
        assert devices[d := devices[d].(surfaces := devices[d].surfaces)] == devices;
      }
    }

    /** Radeon3DReleaseSurface: the session need not be usable any more. */
    method ReleaseSurface(d: nat, k: nat)
      requires Valid()
      modifies this, pool.blocks
      ensures Valid() && Next(old(View()), Event.ReleaseSurface(d, k), None, View())
    {
      if d >= |devices| || k >= |devices[d].surfaces| {
        return;
      }
      var block := devices[d].surfaces[k];
      devices := devices[d := devices[d].(surfaces := devices[d].surfaces[..k] + devices[d].surfaces[k + 1..])];
      pool.Free(block);
    }

    /** FreeDeviceSurfaces: the head of the list until there is none. */
    method FreeDeviceSurfaces(d: nat)
      requires Valid() && d < |devices|
      modifies this, pool.blocks
      ensures Valid() && Next(old(View()), Close(d), None, View())
    {
      ghost var start, list := pool.blocks[..], devices[d].surfaces;
      assert devices[d := devices[d].(surfaces := list)] == devices;
      while |devices[d].surfaces| > 0
        invariant Valid() && |devices| == |old(devices)| && attachment == old(attachment)
        invariant devices == old(devices)[d := old(devices)[d].(surfaces := devices[d].surfaces)]
        invariant WithoutAll(pool.blocks[..], devices[d].surfaces) == WithoutAll(start, list)
        decreases |devices[d].surfaces|
      {
        var head, rest := devices[d].surfaces[0], devices[d].surfaces[1..];
        devices := devices[d := devices[d].(surfaces := rest)];
        pool.Free(head);
      }
    }

    /** Attaching: the table is cleared, the lists are not. */
    method Reattach(carved: bool)
      requires Valid()
      modifies this, pool, pool.blocks
      ensures Valid() && Next(old(View()), Event.Reattach(carved), None, View())
    {
      pool.Clear(carved);
      attachment := attachment + 1;
    }
  }
}
