/**
 Stream segments (Radeon3DAllocSegment, Radeon3DFreeSegment and FreeDeviceSegments
 in src/radeon3d_service.c): twelve blocks of 256 KiB handed to sessions through one
 bit mask and a slot table in each session.
 */
module Segments {
  import opened Words
  import opened Bits

  const MAX_SEGMENTS: nat := 12
  const SEGMENT_BYTES: nat := 256 * 1024

  /**
   A session: the attachment it was opened in, the indices of its allocated slots, and
   what an access to the mask on its behalf has read and not yet written back.
   */
  datatype Device = Device(attachment: nat, slots: Bits, loaded: Option<Bits>)

  function Session(attachment: nat, slots: Bits): Device { Device(attachment, slots, None) }

  datatype State = State(mask: Bits, devices: seq<Device>, attachment: nat)
  {
    /** The generation check: sessions of an earlier attachment are not served. */
    predicate Current(d: int) { 0 <= d < |devices| && devices[d].attachment == attachment }
  }

  datatype Event =
    | Open
    | Alloc(device: nat)
    | Free(device: nat, id: nat)
    | Close(device: nat, boardPresent: bool)
    | Clear(device: nat, id: nat)
    | Load(device: nat)
    | StoreClear(device: nat, id: nat)
    | StoreAlloc(device: nat, id: nat)
    | Reattach

  /** The lowest clear bit of the mask at or above `from`, or MAX_SEGMENTS. */
  function LowestFree(mask: Bits, from: nat): (id: nat)
    requires from <= MAX_SEGMENTS
    ensures from <= id <= MAX_SEGMENTS && (id < MAX_SEGMENTS ==> id !in mask)
    ensures forall k :: from <= k < id ==> k in mask
    decreases MAX_SEGMENTS - from
  {
    if from == MAX_SEGMENTS || from !in mask then from else LowestFree(mask, from + 1)
  }

  function SetSlots(s: State, d: nat, mask: Bits, slots: Bits): State
    requires d < |s.devices|
  {
    s.(mask := mask, devices := s.devices[d := s.devices[d].(slots := slots)])
  }

  function SetLoaded(s: State, d: nat, loaded: Option<Bits>): State
    requires d < |s.devices|
  {
    s.(devices := s.devices[d := s.devices[d].(loaded := loaded)])
  }

  /**
   One event.  A closing session's bits are cleared one by one without ServiceLock:
   `Clear` is one of them when the access to the mask is undivided; `Load` and the two
   stores are an access in two halves, with anything in between.
   */
  function Step(s: State, e: Event): State {
    match e
    case Open => s.(devices := s.devices + [Session(s.attachment, {})])
    case Alloc(d) =>
      var id := LowestFree(s.mask, 0);
      if !s.Current(d) || id == MAX_SEGMENTS then s
      else SetSlots(s, d, s.mask + {id}, s.devices[d].slots + {id})
    case Free(d, id) =>
      if !s.Current(d) || id >= MAX_SEGMENTS || id !in s.devices[d].slots then s
      else SetSlots(s, d, s.mask - {id}, s.devices[d].slots - {id})
    case Close(d, boardPresent) =>
      if d >= |s.devices| || !boardPresent then s
      else SetSlots(s, d, s.mask - s.devices[d].slots, {})
    case Clear(d, id) =>
      if d >= |s.devices| || id !in s.devices[d].slots then s
      else SetSlots(s, d, s.mask - {id}, s.devices[d].slots - {id})
    case Load(d) => if d >= |s.devices| then s else SetLoaded(s, d, Some(s.mask))
    case StoreClear(d, id) =>
      if d >= |s.devices| || s.devices[d].loaded == None || id !in s.devices[d].slots then s
      else SetLoaded(SetSlots(s, d, s.devices[d].loaded.value - {id}, s.devices[d].slots - {id}), d, None)
    case StoreAlloc(d, id) =>
      if !s.Current(d) || s.devices[d].loaded == None || id >= MAX_SEGMENTS || id in s.devices[d].loaded.value then s
      else SetLoaded(SetSlots(s, d, s.devices[d].loaded.value + {id}, s.devices[d].slots + {id}), d, None)
    case Reattach => s.(mask := {}, attachment := s.attachment + 1)
  }

  // ------------------------------------------------------------ the service's fields

  class Service {
    var mask: Bits
    var devices: seq<Device>
    var attachment: nat

    function View(): State
      reads this
    {
      State(mask, devices, attachment)
    }

    constructor ()
      ensures View() == Initial
    {
      mask, devices, attachment := {}, [], 0;
    }

    method AllocSegment(d: nat) returns (id: Option<nat>)
      modifies this
      ensures View() == Step(old(View()), Alloc(d))
      ensures id.Some? <==> old(View()).Current(d) && exists k: nat :: k < MAX_SEGMENTS && k !in old(mask)
      ensures id.Some? ==> id.value < MAX_SEGMENTS && id.value !in old(mask) && id.value in devices[d].slots
    {
      if !View().Current(d) {
        return None;
      }
      for index := 0 to MAX_SEGMENTS
        invariant View() == old(View())
        invariant forall k :: 0 <= k < index ==> k in mask
        invariant LowestFree(mask, 0) == LowestFree(mask, index)
      {
        if index !in mask {
          mask := mask + {index};
          devices := devices[d := devices[d].(slots := devices[d].slots + {index})];
          return Some(index);
        }
      }
      id := None;
    }

    method FreeSegment(d: nat, id: nat) returns (ok: bool)
      modifies this
      ensures View() == Step(old(View()), Free(d, id))
      ensures ok <==> old(View()).Current(d) && id < MAX_SEGMENTS && id in old(devices)[d].slots
    {
      if id >= MAX_SEGMENTS || !View().Current(d) || id !in devices[d].slots {
        return false;
      }
      mask := mask - {id};
      devices := devices[d := devices[d].(slots := devices[d].slots - {id})];
      ok := true;
    }

    method FreeDeviceSegments(d: nat, boardPresent: bool)
      requires d < |devices| && forall i :: i in devices[d].slots ==> i < MAX_SEGMENTS
      modifies this
      ensures View() == Step(old(View()), Close(d, boardPresent))
    {
      if !boardPresent {
        return;
      }
      ghost var slots := devices[d].slots;
      assert Above(slots, 0) == slots;
      for index := 0 to MAX_SEGMENTS
        invariant attachment == old(attachment) && |devices| == |old(devices)|
        invariant devices == old(devices)[d := old(devices)[d].(slots := Above(slots, index))]
        invariant mask == old(mask) - (slots - Above(slots, index))
      {
        assert Above(slots, index + 1) == Above(slots, index) - {index};
        if index in devices[d].slots {
          mask := mask - {index};
          devices := devices[d := devices[d].(slots := devices[d].slots - {index})];
        }
        assert devices[d].slots == Above(slots, index + 1);
      }
      assert Above(slots, MAX_SEGMENTS) == {};
    }
  }

  function Above(slots: Bits, from: nat): Bits { set i | i in slots && i >= from }

  // ------------------------------------------------------------ the invariant

  /** A session of this attachment has the segment in its slots. */
  predicate Holds(s: State, d: int, i: nat) { s.Current(d) && i in s.devices[d].slots }

  /** The mask is the disjoint union of the slots of this attachment's sessions. */
  ghost predicate Inv(s: State) {
    && (forall d, i: nat :: Holds(s, d, i) ==> i in s.mask && i < MAX_SEGMENTS)
    && (forall i: nat :: i in s.mask ==> exists d :: Holds(s, d, i))
    && (forall d, e, i: nat :: Holds(s, d, i) && Holds(s, e, i) ==> d == e)
    && (forall d :: 0 <= d < |s.devices| ==> s.devices[d].attachment <= s.attachment)
  }

  lemma InRange(s: State, d: int, i: nat)
    requires Inv(s) && Holds(s, d, i)
    ensures i < MAX_SEGMENTS && i in s.mask
  {
  }

  lemma OneHolder(s: State, d: int, e: int, i: nat)
    requires Inv(s) && Holds(s, d, i) && Holds(s, e, i)
    ensures d == e
  {
  }

  /** Nobody has changed the mask since it was read for this session. */
  predicate Undisturbed(s: State, d: nat) {
    d < |s.devices| && s.devices[d].loaded.Some? ==> s.devices[d].loaded.value == s.mask
  }

  /**
   Closing sessions hold nothing, belong to this attachment, or find no board about;
   divided accesses are undisturbed.
   */
  predicate Allowed(s: State, e: Event) {
    match e
    case Close(d, boardPresent) =>
      !boardPresent || s.Current(d) || d >= |s.devices| || s.devices[d].slots * s.mask == {}
    case Clear(d, id) => s.Current(d) || d >= |s.devices| || id !in s.mask
    case StoreClear(d, id) => Undisturbed(s, d) && (s.Current(d) || id !in s.mask)
    case StoreAlloc(d, id) => Undisturbed(s, d)
    case _ => true
  }

  /** Giving a free segment to a session. */
  lemma GiveKeeps(s: State, d: nat, id: nat)
    requires Inv(s) && s.Current(d) && id < MAX_SEGMENTS && id !in s.mask
    ensures Inv(SetSlots(s, d, s.mask + {id}, s.devices[d].slots + {id}))
  {
    var n := SetSlots(s, d, s.mask + {id}, s.devices[d].slots + {id});
    forall k, i: nat ensures Holds(n, k, i) <==> Holds(s, k, i) || (k == d && i == id) {
    }
    forall i: nat | i in n.mask ensures exists k :: Holds(n, k, i) {
      if i == id {
        assert Holds(n, d, i);
      } else {
        var k :| Holds(s, k, i);
        assert Holds(n, k, i);
      }
    }
  }

  lemma AllocKeeps(s: State, d: nat)
    requires Inv(s)
    ensures Inv(Step(s, Alloc(d)))
  {
    var id := LowestFree(s.mask, 0);
    if s.Current(d) && id < MAX_SEGMENTS { GiveKeeps(s, d, id); }
  }

  /** Taking slots from one session, and the same indices from the mask. */
  lemma TakeKeeps(s: State, d: nat, taken: Bits)
    requires Inv(s) && d < |s.devices| && (if s.Current(d) then taken <= s.devices[d].slots else taken * s.mask == {})
    ensures Inv(SetSlots(s, d, s.mask - taken, s.devices[d].slots - taken))
  {
    var n := SetSlots(s, d, s.mask - taken, s.devices[d].slots - taken);
    forall k: int, i: nat ensures Holds(n, k, i) <==> Holds(s, k, i) && i !in taken {
      TakenHolds(s, d, taken, k, i);
    }
    forall i: nat | i in n.mask ensures exists k :: Holds(n, k, i) {
      var k :| Holds(s, k, i);
      assert Holds(n, k, i);
    }
  }

  lemma TakenHolds(s: State, d: nat, taken: Bits, k: int, i: nat)
    requires Inv(s) && d < |s.devices| && (if s.Current(d) then taken <= s.devices[d].slots else taken * s.mask == {})
    ensures Holds(SetSlots(s, d, s.mask - taken, s.devices[d].slots - taken), k, i) <==> Holds(s, k, i) && i !in taken
  {
    if s.Current(d) {
      if i in taken { assert Holds(s, d, i) && (Holds(s, k, i) ==> k == d); }
    } else if i in taken {
      NotInBoth(taken, s.mask, i);
      assert !Holds(s, k, i);
    }
  }

  lemma NotInBoth(a: Bits, b: Bits, i: nat)
    requires a * b == {} && i in a
    ensures i !in b
  {
    assert i !in a * b;
  }

  /** The same mask and the same holders. */
  lemma SameHolders(s: State, n: State)
    requires Inv(s) && n.mask == s.mask && forall k, i: nat :: Holds(n, k, i) <==> Holds(s, k, i)
    requires forall d :: 0 <= d < |n.devices| ==> n.devices[d].attachment <= n.attachment
    ensures Inv(n)
  {
    forall i: nat | i in n.mask ensures exists k :: Holds(n, k, i) {
      var k :| Holds(s, k, i);
      assert Holds(n, k, i);
    }
  }

  lemma LoadedKeeps(s: State, d: nat, loaded: Option<Bits>)
    requires d < |s.devices|
    ensures Inv(SetLoaded(s, d, loaded)) <==> Inv(s)
  {
    var n := SetLoaded(s, d, loaded);
    assert forall k, i: nat :: Holds(n, k, i) <==> Holds(s, k, i);
    assert forall k :: 0 <= k < |s.devices| ==> n.devices[k].attachment == s.devices[k].attachment;
    if Inv(s) { SameHolders(s, n); }
    if Inv(n) { SameHolders(n, s); }
  }

  /** The mask is determined by who holds what, so only one mask is right. */
  lemma OneMask(s: State, mask: Bits)
    requires Inv(s)
    ensures Inv(s.(mask := mask)) <==> mask == s.mask
  {
    var n := s.(mask := mask);
    assert forall k, i: nat :: Holds(n, k, i) <==> Holds(s, k, i);
    if Inv(n) {
      forall i: nat ensures i in mask <==> i in s.mask {
        if i in mask { var k :| Holds(n, k, i); assert Holds(s, k, i); }
        if i in s.mask { var k :| Holds(s, k, i); assert Holds(n, k, i); }
      }
    }
  }

  /**
   Exactly when the second half of a divided clear keeps the mask right: when what was
   read still is the mask, apart from the bit being cleared.
   */
  lemma StoreClearExactly(s: State, d: nat, id: nat)
    requires Inv(s) && d < |s.devices| && s.devices[d].loaded.Some? && id in s.devices[d].slots
    requires s.Current(d) || id !in s.mask
    ensures Inv(Step(s, StoreClear(d, id))) <==> s.devices[d].loaded.value - {id} == s.mask - {id}
  {
    var cleared := SetSlots(s, d, s.mask - {id}, s.devices[d].slots - {id});
    var loaded := s.devices[d].loaded.value;
    TakeKeeps(s, d, {id});
    OneMask(cleared, loaded - {id});
    LoadedKeeps(cleared.(mask := loaded - {id}), d, None);
    assert Step(s, StoreClear(d, id)) == SetLoaded(cleared.(mask := loaded - {id}), d, None);
  }

  /** And of a divided allocation of a segment that is still free. */
  lemma StoreAllocExactly(s: State, d: nat, id: nat)
    requires Inv(s) && s.Current(d) && s.devices[d].loaded.Some? && id < MAX_SEGMENTS && id !in s.mask
    requires id !in s.devices[d].loaded.value
    ensures Inv(Step(s, StoreAlloc(d, id))) <==> s.devices[d].loaded.value == s.mask
  {
    var given := SetSlots(s, d, s.mask + {id}, s.devices[d].slots + {id});
    var loaded := s.devices[d].loaded.value;
    GiveKeeps(s, d, id);
    OneMask(given, loaded + {id});
    LoadedKeeps(given.(mask := loaded + {id}), d, None);
    assert Step(s, StoreAlloc(d, id)) == SetLoaded(given.(mask := loaded + {id}), d, None);
    assert loaded + {id} == s.mask + {id} <==> loaded == s.mask by {
      assert (loaded + {id}) - {id} == loaded && (s.mask + {id}) - {id} == s.mask;
    }
  }

  lemma OpenKeeps(s: State)
    requires Inv(s)
    ensures Inv(Step(s, Open))
  {
    SameHolders(s, Step(s, Open));
  }

  lemma StepKeeps(s: State, e: Event)
    requires Inv(s) && Allowed(s, e)
    ensures Inv(Step(s, e))
  {
    match e
    case Open => OpenKeeps(s);
    case Alloc(d) => AllocKeeps(s, d);
    case Free(d, id) => if Step(s, e) != s { TakeKeeps(s, d, {id}); }
    case Close(d, boardPresent) =>
      if d < |s.devices| && boardPresent {
        TakeKeeps(s, d, s.devices[d].slots);
        assert s.devices[d].slots - s.devices[d].slots == {};
      }
    case Clear(d, id) => if Step(s, e) != s { TakeKeeps(s, d, {id}); }
    case Load(d) => if d < |s.devices| { LoadedKeeps(s, d, Some(s.mask)); }
    case StoreClear(d, id) => if Step(s, e) != s { StoreClearExactly(s, d, id); }
    case StoreAlloc(d, id) => if Step(s, e) != s { StoreAllocExactly(s, d, id); }
    case Reattach =>
  }

  /** The bits of one session, cleared one after the other from index k on. */
  function ClearFrom(s: State, d: nat, k: nat): State
    requires k <= MAX_SEGMENTS
    decreases MAX_SEGMENTS - k
  {
    if k == MAX_SEGMENTS then s else ClearFrom(Step(s, Clear(d, k)), d, k + 1)
  }

  /** Undisturbed, they add up to the close of the whole session. */
  lemma {:induction false} ClearsAddUp(s: State, d: nat, k: nat)
    requires d < |s.devices| && k <= MAX_SEGMENTS && forall i :: i in s.devices[d].slots ==> k <= i < MAX_SEGMENTS
    ensures ClearFrom(s, d, k) == SetSlots(s, d, s.mask - s.devices[d].slots, {})
    decreases MAX_SEGMENTS - k
  {
    var slots := s.devices[d].slots;
    if k == MAX_SEGMENTS {
      assert slots == {};
      assert s.mask - slots == s.mask;
      assert s.devices[d := s.devices[d].(slots := {})] == s.devices;
    } else {
      ClearsAddUp(Step(s, Clear(d, k)), d, k + 1);
      if k in slots {
        assert s.mask - {k} - (slots - {k}) == s.mask - slots;
      }
    }
  }

  /**
   The exact condition on a close: it keeps the mask right if and only if the session
   is of this attachment or none of its indices is in the mask.
   */
  lemma CloseExact(s: State, d: nat)
    requires Inv(s) && d < |s.devices|
    ensures Inv(Step(s, Close(d, true))) <==> s.Current(d) || s.devices[d].slots * s.mask == {}
  {
    if s.Current(d) || s.devices[d].slots * s.mask == {} {
      StepKeeps(s, Close(d, true));
    } else {
      assert s.devices[d].slots * s.mask != {};
      var i :| i in s.devices[d].slots * s.mask;
      var k :| Holds(s, k, i);
      var n := Step(s, Close(d, true));
      assert Holds(n, k, i) && i !in n.mask;
    }
  }

  const Initial: State := State({}, [], 0)

  function Run(events: seq<Event>): State
    decreases |events|
  {
    if |events| == 0 then Initial else Step(Run(events[..|events| - 1]), events[|events| - 1])
  }

  ghost predicate AllAllowed(events: seq<Event>) {
    forall k :: 0 <= k < |events| ==> Allowed(Run(events[..k]), events[k])
  }

  /** In every run without a stale close the mask is the disjoint union of the sessions' slots. */
  lemma {:induction false} RunKeeps(events: seq<Event>)
    requires AllAllowed(events)
    ensures Inv(Run(events))
    decreases |events|
  {
    if |events| > 0 {
      var before := events[..|events| - 1];
      forall k | 0 <= k < |before| ensures Allowed(Run(before[..k]), before[k]) {
        assert before[..k] == events[..k] && before[k] == events[k];
      }
      RunKeeps(before);
      assert events[..|events| - 1] == before;
      StepKeeps(Run(before), events[|events| - 1]);
    }
  }

  predicate AllCurrent(s: State) {
    forall d :: 0 <= d < |s.devices| ==> s.devices[d].attachment == s.attachment
  }

  lemma StaysCurrent(s: State, e: Event)
    requires AllCurrent(s) && !e.Reattach?
    ensures AllCurrent(Step(s, e))
    ensures !e.StoreClear? && !e.StoreAlloc? ==> Allowed(s, e)
  {
  }

  /** Within one attachment every session is of it, so without divided accesses nothing can go wrong. */
  lemma {:induction false} OneAttachment(events: seq<Event>)
    requires forall i :: 0 <= i < |events| ==> !events[i].Reattach?
    requires forall i :: 0 <= i < |events| ==> !events[i].StoreClear? && !events[i].StoreAlloc?
    ensures AllCurrent(Run(events)) && AllAllowed(events)
    decreases |events|
  {
    if |events| > 0 {
      var before := events[..|events| - 1];
      OneAttachment(before);
      StaysCurrent(Run(before), events[|events| - 1]);
      forall k | 0 <= k < |events| ensures Allowed(Run(events[..k]), events[k]) {
        if k < |before| { assert before[..k] == events[..k] && before[k] == events[k]; }
      }
    }
  }

  /** Two sessions of one attachment never hold the same segment. */
  lemma NeverShared(events: seq<Event>, d: nat, e: nat, i: nat)
    requires AllAllowed(events) && d != e
    requires Holds(Run(events), d, i)
    ensures !Holds(Run(events), e, i) && i in Run(events).mask && i < MAX_SEGMENTS
  {
    RunKeeps(events);
  }

  /** The release that goes wrong: a session left over from before a re-attachment closes. */
  const STALE_CLOSE: seq<Event> := [Open, Alloc(0), Reattach, Open, Alloc(1), Close(0, true), Open, Alloc(2)]

  lemma Runs(events: seq<Event>, e: Event, before: State, after: State)
    requires Run(events) == before && Step(before, e) == after
    ensures Run(events + [e]) == after
  {
    assert (events + [e])[..|events|] == events;
  }

  /** It clears the bit of a segment in use, and the next allocation hands that segment out again. */
  lemma StaleCloseShares()
    ensures Run(STALE_CLOSE) == State({0}, [Session(0, {}), Session(1, {0}), Session(1, {0})], 1)
  {
    var s1, s2 := State({}, [Session(0, {})], 0), State({0}, [Session(0, {0})], 0);
    var s3, s4 := State({}, [Session(0, {0})], 1), State({}, [Session(0, {0}), Session(1, {})], 1);
    var s5, s6 := State({0}, [Session(0, {0}), Session(1, {0})], 1), State({}, [Session(0, {}), Session(1, {0})], 1);
    var s7 := State({}, [Session(0, {}), Session(1, {0}), Session(1, {})], 1);
    var s8 := State({0}, [Session(0, {}), Session(1, {0}), Session(1, {0})], 1);
    Runs([], Open, Initial, s1);
    Runs([] + [Open], Alloc(0), s1, s2);
    Runs([] + [Open] + [Alloc(0)], Reattach, s2, s3);
    Runs([] + [Open] + [Alloc(0)] + [Reattach], Open, s3, s4);
    Runs([] + [Open] + [Alloc(0)] + [Reattach] + [Open], Alloc(1), s4, s5);
    Runs([] + [Open] + [Alloc(0)] + [Reattach] + [Open] + [Alloc(1)], Close(0, true), s5, s6);
    Runs([] + [Open] + [Alloc(0)] + [Reattach] + [Open] + [Alloc(1)] + [Close(0, true)], Open, s6, s7);
    Runs([] + [Open] + [Alloc(0)] + [Reattach] + [Open] + [Alloc(1)] + [Close(0, true)] + [Open], Alloc(2), s7, s8);
    assert STALE_CLOSE
        == [] + [Open] + [Alloc(0)] + [Reattach] + [Open] + [Alloc(1)] + [Close(0, true)] + [Open] + [Alloc(2)];
  }

  /**
   The divided access that goes wrong: the mask is read to clear a closing session's
   bit, another session allocates, and the stale value is written back.
   */
  const TORN_CLEAR: seq<Event> :=
    [Open, Alloc(0), Open, Load(0), Alloc(1), StoreClear(0, 0), Open, Alloc(2), Alloc(2)]

  function TornStates(): (states: seq<State>)
    ensures |states| == |TORN_CLEAR| + 1
  {
    var zero, one, both := Session(0, {0}), Session(0, {1}), Session(0, {0, 1});
    var none, read := Session(0, {}), Device(0, {0}, Some({0}));
    [Initial, State({}, [none], 0), State({0}, [zero], 0), State({0}, [zero, none], 0), State({0}, [read, none], 0),
     State({0, 1}, [read, one], 0), State({}, [none, one], 0), State({}, [none, one, none], 0),
     State({0}, [none, one, zero], 0), State({0, 1}, [none, one, both], 0)]
  }

  lemma NextLowest(mask: Bits)
    ensures mask == {} ==> LowestFree(mask, 0) == 0
    ensures mask == {0} ==> LowestFree(mask, 0) == 1
  {
  }

  lemma TornStep(n: nat)
    requires n < |TORN_CLEAR|
    ensures Step(TornStates()[n], TORN_CLEAR[n]) == TornStates()[n + 1]
  {
    var s := TornStates()[n];
    match TORN_CLEAR[n]
    case Alloc(d) =>
      NextLowest(s.mask);
      assert {0} + {1} == {0, 1} && {} + {0} == {0} && {} + {1} == {1};
    case StoreClear(d, id) => assert {0} - {0} == {};
    case _ =>
  }

  lemma {:induction false} TornRun(n: nat)
    requires n <= |TORN_CLEAR|
    ensures Run(TORN_CLEAR[..n]) == TornStates()[n]
  {
    if n > 0 {
      TornRun(n - 1);
      TornStep(n - 1);
      assert TORN_CLEAR[..n][..n - 1] == TORN_CLEAR[..n - 1];
    }
  }

  /** The other session's bit is lost, and its segment is handed out again. */
  lemma TornClearShares()
    ensures Run(TORN_CLEAR) == State({0, 1}, [Session(0, {}), Session(0, {1}), Session(0, {0, 1})], 0)
  {
    TornRun(|TORN_CLEAR|);
    assert TORN_CLEAR[..|TORN_CLEAR|] == TORN_CLEAR;
  }
}
