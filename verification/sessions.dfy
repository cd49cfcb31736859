/**
 Sessions of the 3D service under concurrent callers (src/radeon3d_service.c).

 Every caller is a thread with a program counter; one step takes one lock, or runs
 one ServiceLock region to its end, or does one unlocked action.  Whether the
 service is usable at a recheck is left open in each step, so every property
 below holds for every timing of recovery, release and re-attachment.

 A freed record keeps its index: no later record has the same identity, and the
 proof is that no thread refers to it any more.
 */
module Sessions {
  import opened Words

  const FIRST_HANDLE: u32 := 0x8000_0000

  datatype Place = Active | Retired | Freed

  /** `cleanups` and `pinsClosed` are history: how often each has happened. */
  datatype Record = Record(handle: u32, place: Place, activeCalls: nat, closing: bool,
                           cleanupDone: bool, cleanupReady: bool, ownerPin: bool,
                           cleanups: nat, pinsClosed: nat)

  /**
   Where a thread is.  `after` is the handle a Close still has to mark once the
   locked call it began with is over; the Want* counters wait for a lock.
   */
  datatype Pc =
    | Idle
    | WantOpen
    | WantEntry(handle: u32, close: bool)
    | WantBoard(r: nat, after: Option<u32>)
    | WantRecheck(r: nat, after: Option<u32>)
    | InCall(r: nat, after: Option<u32>)
    | WantNested(r: nat, after: Option<u32>)
    | WantExit(r: nat, after: Option<u32>)
    | WantReady(r: nat, pin: bool, after: Option<u32>)
    | DropPin(r: nat, after: Option<u32>)
    | WantRelease(r: nat, after: Option<u32>)
    | WantDetach(r: nat, after: Option<u32>)
    | WantEmpty(r: nat, after: Option<u32>)
    | ClosePin(r: nat, after: Option<u32>)
    | WantMark(handle: u32)

  datatype State = State(records: seq<Record>, sessions: nat, nextHandle: u32, threads: seq<Pc>,
                         boardOwner: Option<nat>, serviceOwner: Option<nat>)

  /** What the step's environment decides: usability, and what an idle or calling thread does next. */
  datatype Choice = Choice(usable: bool, handle: u32, action: Action)
  datatype Action = Opens | Calls | Closes | Returns | Expunges

  // ------------------------------------------------------------ locks

  predicate WantsService(pc: Pc) {
    pc.WantOpen? || pc.WantEntry? || pc.WantRecheck? || pc.WantNested? || pc.WantExit? || pc.WantReady? ||
    pc.WantDetach? || pc.WantEmpty? || pc.WantMark?
  }

  predicate WantsBoard(pc: Pc) { pc.WantBoard? || pc.WantRelease? }

  predicate HoldsBoard(pc: Pc) {
    pc.WantRecheck? || pc.InCall? || pc.WantNested? || pc.WantDetach? || pc.WantEmpty?
  }

  // ------------------------------------------------------------ ServiceLock regions

  /** FindDevice: the first listed record with the handle, or the number of records. */
  function FindDevice(records: seq<Record>, handle: u32, from: nat): (r: nat)
    requires from <= |records|
    ensures from <= r <= |records|
    ensures r < |records| ==> records[r].place == Active && records[r].handle == handle
    ensures forall k :: from <= k < r ==> !(records[k].place == Active && records[k].handle == handle)
    decreases |records| - from
  {
    if from == |records| || (records[from].place == Active && records[from].handle == handle) then from
    else FindDevice(records, handle, from + 1)
  }

  /** ReapRetiredDevicesLocked. */
  function Reap(records: seq<Record>): (reaped: seq<Record>)
    ensures |reaped| == |records|
  {
    seq(|records|, i requires 0 <= i < |records| =>
      if records[i].place == Retired && records[i].cleanupReady then records[i].(place := Freed) else records[i])
  }

  /** Radeon3DFreeRetiredDevices, which looks at nothing but the list. */
  function FreeRetired(records: seq<Record>): (freed: seq<Record>)
    ensures |freed| == |records|
  {
    seq(|records|, i requires 0 <= i < |records| =>
      if records[i].place == Retired then records[i].(place := Freed) else records[i])
  }

  function NextHandle(handle: u32): u32 {
    if Wrap(handle + 1) < FIRST_HANDLE then FIRST_HANDLE else Wrap(handle + 1)
  }

  /** How a call stops counting: the record, and whether this thread now owes its cleanup and its pin. */
  datatype Dropped = Dropped(record: Record, cleanup: bool, pin: bool)

  function DropCall(record: Record): Dropped {
    var counted := record.(activeCalls := if record.activeCalls > 0 then record.activeCalls - 1 else 0);
    if counted.closing && counted.activeCalls == 0 then
      Dropped(counted.(ownerPin := false, cleanupDone := true), !counted.cleanupDone, counted.ownerPin)
    else Dropped(counted, false, false)
  }

  /** The last region of Radeon3DClose: off the active list, and cleaned up now if no call is inside. */
  function MarkClosing(record: Record): Dropped {
    var closing := record.(place := Retired, closing := true);
    if record.activeCalls == 0 then
      Dropped(closing.(ownerPin := false, cleanupDone := true), true, closing.ownerPin)
    else Dropped(closing, false, false)
  }

  function Resume(after: Option<u32>): Pc {
    match after
    case None => Idle
    case Some(handle) => WantMark(handle)
  }

  /** FinishDeviceCleanup: the cleanup if owed, then the pin if owed, then whatever came after. */
  function Finish(r: nat, cleanup: bool, pin: bool, after: Option<u32>): Pc {
    if cleanup then WantReady(r, pin, after) else if pin then DropPin(r, after) else Resume(after)
  }

  datatype Effect = Effect(records: seq<Record>, sessions: nat, nextHandle: u32, pc: Pc)

  function DropAt(s: State, r: nat, after: Option<u32>): Effect
    requires r < |s.records|
  {
    var d := DropCall(s.records[r]);
    Effect(s.records[r := d.record], s.sessions, s.nextHandle, Finish(r, d.cleanup, d.pin, after))
  }

  function Same(s: State, pc: Pc): Effect {
    Effect(s.records, s.sessions, s.nextHandle, pc)
  }

  predicate Bound(s: State, pc: Pc) {
    pc.Idle? || pc.WantOpen? || pc.WantEntry? || pc.WantMark? || pc.r < |s.records|
  }

  /** One ServiceLock region, from taking the lock to releasing it. */
  function Region(s: State, pc: Pc, c: Choice): Effect
    requires WantsService(pc) && Bound(s, pc)
  {
    match pc
    case WantOpen => OpenRegion(s, c)
    case WantEntry(handle, close) => EntryRegion(s, handle, close, c)
    case WantRecheck(r, after) =>
      if s.records[r].place == Active && c.usable then Same(s, InCall(r, after)) else DropAt(s, r, after)
    case WantNested(r, after) => Same(s, InCall(r, after))
    case WantExit(r, after) => DropAt(s, r, after)
    case WantReady(r, pin, after) =>
      Effect(s.records[r := s.records[r].(cleanupReady := true, cleanups := s.records[r].cleanups + 1)],
             if s.sessions > 0 then s.sessions - 1 else 0, s.nextHandle, Finish(r, false, pin, after))
    case WantDetach(r, after) => Same(s, if c.usable then WantEmpty(r, after) else ClosePin(r, after))
    case WantEmpty(r, after) => Same(s, ClosePin(r, after))
    case WantMark(handle) => MarkRegion(s, handle)
  }

  function OpenRegion(s: State, c: Choice): Effect {
    var reaped := Reap(s.records);
    if c.usable then
      Effect(reaped + [Record(s.nextHandle, Active, 0, false, false, false, true, 0, 0)],
             s.sessions + 1, NextHandle(s.nextHandle), Idle)
    else Effect(reaped, s.sessions, s.nextHandle, Idle)
  }

  function EntryRegion(s: State, handle: u32, close: bool, c: Choice): Effect {
    var r := FindDevice(s.records, handle, 0);
    var after := if close then Some(handle) else None;
    if r < |s.records| && c.usable then
      Effect(s.records[r := s.records[r].(activeCalls := s.records[r].activeCalls + 1)], s.sessions, s.nextHandle,
             WantBoard(r, after))
    else Same(s, Resume(after))
  }

  function MarkRegion(s: State, handle: u32): Effect {
    var r := FindDevice(s.records, handle, 0);
    if r == |s.records| then Same(s, Idle)
    else
      var d := MarkClosing(s.records[r]);
      Effect(s.records[r := d.record], s.sessions, s.nextHandle, Finish(r, d.cleanup, d.pin, None))
  }

  // ------------------------------------------------------------ steps

  /** Steps that take no lock and run no region. */
  function Unlocked(s: State, pc: Pc, c: Choice): Effect
    requires !WantsService(pc) && !WantsBoard(pc) && Bound(s, pc)
  {
    match pc
    case Idle =>
      (match c.action
       case Opens => Same(s, WantOpen)
       case Calls => Same(s, WantEntry(c.handle, false))
       case Closes => Same(s, WantEntry(c.handle, true))
       case Returns => Same(s, Idle)
       case Expunges =>
         if s.sessions == 0 then Same(s.(records := FreeRetired(s.records)), Idle) else Same(s, Idle))
    case InCall(r, after) => Same(s, if c.action == Returns then WantExit(r, after) else WantNested(r, after))
    case DropPin(r, after) => Same(s, if c.usable then WantRelease(r, after) else ClosePin(r, after))
    case ClosePin(r, after) =>
      Effect(s.records[r := s.records[r].(pinsClosed := s.records[r].pinsClosed + 1)], s.sessions, s.nextHandle,
             Resume(after))
  }

  function Apply(s: State, t: nat, e: Effect): State
    requires t < |s.threads|
  {
    s.(records := e.records, sessions := e.sessions, nextHandle := e.nextHandle, threads := s.threads[t := e.pc],
       boardOwner := if HoldsBoard(s.threads[t]) && !HoldsBoard(e.pc) then None else s.boardOwner)
  }

  function Step(s: State, t: nat, c: Choice): State
    requires t < |s.threads| && Bound(s, s.threads[t])
  {
    var pc := s.threads[t];
    if WantsService(pc) then
      if s.serviceOwner == Some(t) then Apply(s, t, Region(s, pc, c)).(serviceOwner := None)
      else if s.serviceOwner == None then s.(serviceOwner := Some(t))
      else s
    else if WantsBoard(pc) then
      if s.boardOwner != None then s
      else
        s.(boardOwner := Some(t),
           threads := s.threads[t := if pc.WantBoard? then WantRecheck(pc.r, pc.after) else WantDetach(pc.r, pc.after)])
    else Apply(s, t, Unlocked(s, pc, c))
  }
}
