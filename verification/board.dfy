/**
 The board under BoardLock: command-processor bookkeeping (src/radeon_cp.c), the
 2D/3D hand-over and recovery (src/radeon_accel.c) and the service state and lease
 (src/radeon3d_service.c, src/radeon9200.c), together with the part of the card
 they have to agree with.

 The functions below are the transitions.  What the hardware decides - how far the
 processor has got when a wait ends, whether a wait, a reset or a restart works -
 arrives in an `Oracle`, so a property of all oracles is a property of all cards.
 */
module Board {
  import opened Words

  // ------------------------------------------------------------ the card

  /** One item the processor completes in order: queued work, fetched indirectly or not, or a scratch write. */
  datatype Entry = Work(fetch: bool) | Fence(sequence: u32)

  /**
   `log` holds everything submitted since the ring was programmed and `done` how
   much of it is complete.  `baseline` says that the registers of the 2D baseline are
   in place; `hostEndian` is the one bit of them that an indirect fetch cannot bear.
   `hazard` is set by the card itself when it is misused: drawing or restoring the 2D
   baseline while queued work is incomplete, drawing without the baseline, kicking the
   ring with drawing undrained, kicking an indirect fetch with the host-endian bit set,
   or changing that bit while a fetch is incomplete.
   */
  datatype Card = Card(log: seq<Entry>, done: nat, scratch: u32, epoch: nat,
                       mmioBusy: bool, baseline: bool, hostEndian: bool, hazard: bool)
  {
    predicate Drained() { done >= |log| }

    /** An indirect fetch is queued or under way. */
    predicate Fetching() { exists k :: done <= k < |log| && log[k] == Work(true) }
  }

  const RING_TEST_RESIDUE: u32 := 0xdead_beef
  /** The ring holds at most 16383 streams, of two entries each. */
  const RING_ENTRIES: nat := 2 * 16383
  /** With more than this fetched and incomplete besides, a fence could pass against the self-test residue. */
  const FETCHED_ENTRIES: nat := 0x5ead_beef - RING_ENTRIES
  const MAX_IN_FLIGHT: nat := RING_ENTRIES + FETCHED_ENTRIES

  /** A hypothesis about the hardware, not a test the driver makes: how much is incomplete. */
  predicate Bounded(c: Card) { |c.log| <= c.done + MAX_IN_FLIGHT }

  function CountFences(log: seq<Entry>): (count: nat)
    ensures count <= |log|
  {
    if |log| == 0 then 0
    else CountFences(log[..|log| - 1]) + (if log[|log| - 1].Fence? then 1 else 0)
  }

  /** The processor completes one entry: queued work may change any engine register. */
  function Complete(c: Card): Card
    requires c.done < |c.log|
  {
    match c.log[c.done]
    case Work(_) => c.(done := c.done + 1, baseline := false)
    case Fence(sequence) => c.(done := c.done + 1, scratch := sequence)
  }

  function Runs(c: Card, count: nat): Card
    decreases count
  {
    if count == 0 || c.Drained() then c else Runs(Complete(c), count - 1)
  }

  /** The whole pipeline is idle: everything queued and everything drawn is complete. */
  function Idle(c: Card): Card {
    Runs(c, |c.log|).(mmioBusy := false)
  }

  function RewriteBaseline(c: Card): Card {
    c.(baseline := true, hostEndian := true, hazard := c.hazard || !c.Drained())
  }

  function DrawMmio(c: Card): Card {
    c.(mmioBusy := true, hazard := c.hazard || !c.Drained() || !c.baseline)
  }

  function Kick(c: Card, entries: seq<Entry>): Card {
    c.(log := c.log + entries, hazard := c.hazard || c.mmioBusy || (Work(true) in entries && c.hostEndian))
  }

  /** The fetch guards read the bit first and write it only when it is set. */
  function GuardFetch(c: Card): Card {
    if c.hostEndian then c.(baseline := false, hostEndian := false, hazard := c.hazard || c.Fetching()) else c
  }

  // ------------------------------------------------------------ driver state

  datatype Cp = Cp(present: bool, ready: bool, nextFence: u32, pendingFence: u32, pendingUnfenced: u32)
  datatype AccelState = Off | Ready | Fallback | Unsafe
  datatype Pending = Nothing | Mmio | Queue
  datatype ServiceState = Empty | Attached | InService | Detaching

  datatype State = State(
    card: Card, cp: Cp,
    accel: AccelState, pending: Pending, need2DRestore: bool, recoveryTried: bool,
    service: ServiceState, advances: nat,
    leaseActive: bool, leaseDevice: Option<nat>)
  {
    /** ServiceGeneration: a 32-bit counter that skips zero. */
    function Generation(): u32 { SkipZero(advances + 1) }
  }

  datatype Session = Session(id: nat, generation: u32)

  datatype Oracle = Oracle(runs: nat, waitOk: bool, idleOk: bool, resetOk: bool, restartOk: bool,
                           commitOk: bool, passOk: bool, leaseExpired: bool)

  datatype Outcome = Outcome(state: State, ok: bool)

  // ------------------------------------------------------------ radeon_cp.c

  function NextSequence(next: u32): u32 { if next == 0 then 1 else next }

  /** What the service submits: a validated batch, an indirect dispatch with or without a fence, or a closing fence. */
  datatype Submission = Batch | Dispatch(withFence: bool) | Closing
  {
    predicate Fenced() { this != Dispatch(false) }
  }

  /** RadeonCpSubmitStream; the sequence number is consumed even when the commit fails. */
  function SubmitStream(s: State, fetch: bool, fenced: bool, o: Oracle): Outcome {
    if !s.cp.ready then Outcome(s, false)
    else
      var sequence := NextSequence(s.cp.nextFence);
      var cp := if fenced then s.cp.(nextFence := Wrap(sequence + 1)) else s.cp;
      if !o.commitOk then Outcome(s.(cp := cp), false)
      else if fenced then
        Outcome(s.(card := Kick(s.card, [Work(fetch), Fence(sequence)]),
                   cp := cp.(pendingFence := sequence, pendingUnfenced := 0)), true)
      else
        Outcome(s.(card := Kick(s.card, [Work(fetch)]),
                   cp := cp.(pendingUnfenced := if cp.pendingUnfenced == TWO32 - 1 then cp.pendingUnfenced
                                                else cp.pendingUnfenced + 1)), true)
  }

  predicate FenceReached(current: u32, fence: u32) {
    fence != 0 && AtLeast(current, fence)
  }

  /** RadeonCpTestFence. */
  function TestFence(s: State, fence: u32, o: Oracle): Outcome {
    if !s.cp.ready || !FenceReached(s.card.scratch, fence) || !o.waitOk then Outcome(s, false)
    else if FenceReached(s.card.scratch, s.cp.pendingFence) then
      Outcome(s.(cp := s.cp.(pendingFence := 0)), true)
    else Outcome(s, true)
  }

  /** RadeonCpWaitFence: the test that ends the wait, after the processor completed some entries. */
  function WaitFence(s: State, fence: u32, o: Oracle): Outcome {
    TestFence(s.(card := Runs(s.card, o.runs)), fence, o)
  }

  /** RadeonCpWait: the processor completes some entries, then the fence is or is not there. */
  function CpWait(s: State, o: Oracle): Outcome {
    if !s.cp.ready then Outcome(s, false)
    else if s.cp.pendingFence == 0 then Outcome(s, true)
    else
      var s1 := s.(card := Runs(s.card, o.runs));
      if o.waitOk && s1.card.scratch == s.cp.pendingFence then
        Outcome(s1.(cp := s1.cp.(pendingFence := 0, pendingUnfenced := 0)), true)
      else Outcome(s1, false)
  }

  /** RadeonCpWaitDrained. */
  function CpWaitDrained(s: State, o: Oracle): Outcome {
    if !s.cp.ready then Outcome(s, false)
    else if s.cp.pendingUnfenced == 0 then Outcome(s, true)
    else if !o.idleOk then Outcome(s, false)
    else Outcome(s.(card := Idle(s.card), cp := s.cp.(pendingUnfenced := 0)), true)
  }

  /** Radeon3DInvalidateService. */
  function InvalidateService(s: State): State {
    if s.service == InService then s.(service := Attached, advances := s.advances + 1) else s
  }

  /** RadeonCpAbort: the service is invalidated, the processor stops, its queue is abandoned. */
  function CpAbort(s: State): State {
    if !s.cp.present then s
    else
      var s1 := InvalidateService(s);
      s1.(cp := s1.cp.(ready := false, pendingFence := 0),
          card := s1.card.(log := if s1.card.Drained() then s1.card.log else s1.card.log[..s1.card.done]))
  }

  /** A programmed and self-tested ring: the self-test leaves its residue in the scratch register. */
  function FreshRing(c: Card): Card {
    c.(log := [], done := 0, scratch := RING_TEST_RESIDUE, epoch := c.epoch + 1)
  }

  /** RadeonCpRecover, for a processor that is not ready. */
  function CpRecover(s: State, o: Oracle): Outcome {
    if !s.cp.present || !o.restartOk then Outcome(s, false)
    else Outcome(s.(card := FreshRing(s.card),
                    cp := s.cp.(ready := true, nextFence := 1, pendingFence := 0, pendingUnfenced := 0)), true)
  }

  /** Radeon3DRearmService. */
  function RearmService(s: State): Outcome {
    if s.cp.ready && s.service in {Attached, InService} then Outcome(s.(service := InService), true)
    else Outcome(s, false)
  }

  // ------------------------------------------------------------ radeon_accel.c

  /** RecoverEngine. */
  function RecoverEngine(s: State, o: Oracle): Outcome {
    if s.recoveryTried then Outcome(s, false)
    else
      var aborted := CpAbort(s.(recoveryTried := true, pending := Nothing, need2DRestore := false));
      if !o.resetOk then Outcome(aborted.(accel := Unsafe), false)
      else
        var reset := aborted.(card := RewriteBaseline(aborted.card.(mmioBusy := false)));
        var restarted := CpRecover(reset, o);
        if restarted.ok then
          var rearmed := RearmService(restarted.state);
          if rearmed.ok then Outcome(rearmed.state.(accel := Ready, recoveryTried := false), true)
          else Outcome(CpAbort(rearmed.state).(accel := Fallback), true)
        else Outcome(reset.(accel := Fallback), true)
  }

  /** The drain half of SynchronizeEngine. */
  function DrainPending(s: State, o: Oracle): Outcome {
    match s.pending
    case Nothing => Outcome(s, false)
    case Queue =>
      var fenced := CpWait(s, o);
      if !fenced.ok then fenced
      else
        var drained := CpWaitDrained(fenced.state, o);
        if !drained.ok then drained
        else Outcome(drained.state.(card := RewriteBaseline(drained.state.card)), true)
    case Mmio =>
      if o.idleOk then Outcome(s.(card := Idle(s.card)), true) else Outcome(s, false)
  }

  /** SynchronizeEngine. */
  function SynchronizeEngine(s: State, o: Oracle): Outcome {
    if s.pending == Nothing then Outcome(s, s.accel != Unsafe)
    else
      var drained := DrainPending(s, o);
      if drained.ok then Outcome(drained.state.(pending := Nothing, need2DRestore := false), true)
      else RecoverEngine(drained.state, o)
  }

  /** RadeonPrepare3D. */
  function Prepare3D(s: State, o: Oracle): Outcome {
    if s.accel == Ready && s.pending == Queue then Outcome(s, true) else SynchronizeEngine(s, o)
  }

  /** RadeonMark3DSubmitted. */
  function Mark3DSubmitted(s: State): State {
    s.(need2DRestore := true, pending := Queue)
  }

  /** RadeonCpAdoptFence, as far as fences go. */
  function AdoptFence(s: State, lastFence: u32): State {
    if !s.cp.present then s
    else
      var cp := s.cp.(pendingFence := 0, pendingUnfenced := 0);
      s.(cp := if lastFence == 0 then cp else cp.(nextFence := NextSequence(Wrap(lastFence + 1))))
  }

  function EndLease(s: State): State {
    s.(leaseActive := false, leaseDevice := None)
  }

  /** LeaseReclaim. */
  function ReclaimLease(s: State, o: Oracle): State {
    if s.leaseActive then RecoverEngine(AdoptFence(EndLease(s), 0), o).state else s
  }

  /** LeaseBlocks: `ok` says the lease keeps the caller off the engine. */
  function LeaseBlocks(s: State, o: Oracle): Outcome {
    if !s.leaseActive then Outcome(s, false)
    else if o.leaseExpired then Outcome(ReclaimLease(s, o), false)
    else Outcome(s, true)
  }

  /** PrepareMmioEngine. */
  function PrepareMmio(s: State, o: Oracle): Outcome {
    if s.accel != Ready then Outcome(s, false)
    else
      var lease := LeaseBlocks(s, o);
      if lease.ok then Outcome(lease.state, false)
      else if !lease.state.need2DRestore then Outcome(lease.state, true)
      else SynchronizeEngine(lease.state, o)
  }

  /** The passes of one 2D operation; each prepares the engine and then draws. */
  function DrawPasses(s: State, passes: seq<Oracle>): Outcome
    decreases |passes|
  {
    if |passes| == 0 then Outcome(s, true)
    else
      var prepared := PrepareMmio(s, passes[0]);
      if !prepared.ok then prepared
      else
        var drawn := prepared.state.(card := DrawMmio(prepared.state.card));
        if !passes[0].passOk then Outcome(drawn, false) else DrawPasses(drawn, passes[1..])
  }

  /** A software operation drains the engine first, unless a lease owns it. */
  function SoftwareFallback(s: State, o: Oracle): State {
    var lease := LeaseBlocks(s, o);
    if lease.ok then lease.state else SynchronizeEngine(lease.state, o).state
  }

  /**
   A Picasso96 operation.  With no pass at all - a planar blit whose write mask
   selects no plane - nothing is prepared or drawn, yet the pending state is
   overwritten like after any other hardware operation.
   */
  function Draw(s: State, passes: seq<Oracle>, recovery: Oracle): State {
    if s.accel != Ready then SoftwareFallback(s, recovery)
    else
      var drawn := DrawPasses(s, passes);
      if drawn.ok then drawn.state.(pending := Mmio) else RecoverEngine(drawn.state, recovery).state
  }

  // ------------------------------------------------------------ radeon3d_service.c

  predicate Usable(s: State, session: Session) {
    session.generation == s.Generation() && s.service == InService && s.cp.ready
  }

  /** The guard of Radeon3DDispatchIndirect and Radeon3DSubmitFence, withheld while fence-less work is counted. */
  function FetchGuard(s: State): State {
    if s.cp.pendingUnfenced != 0 then s else s.(card := GuardFetch(s.card))
  }

  /** A commit that succeeded hands the engine to the processor; one that failed recovers. */
  function FinishSubmit(submitted: Outcome, recovery: Oracle): Outcome {
    if submitted.ok then Outcome(Mark3DSubmitted(submitted.state), true)
    else Outcome(RecoverEngine(submitted.state, recovery).state, false)
  }

  /** The submission once RadeonPrepare3D has answered: all but a batch recheck the session and guard the fetch. */
  function SubmitPrepared(s: State, prepared: Outcome, session: Session, kind: Submission,
                          o: Oracle, recovery: Oracle): Outcome {
    if !prepared.ok then prepared
    else if !kind.Batch? && !(Usable(prepared.state, session) && prepared.state.advances == s.advances) then
      Outcome(prepared.state, false)
    else
      var guarded := if kind.Batch? then prepared.state else FetchGuard(prepared.state);
      FinishSubmit(SubmitStream(guarded, kind.Dispatch?, kind.Fenced(), o), recovery)
  }

  /** Radeon3DSubmit, Radeon3DDispatchIndirect and Radeon3DSubmitFence after their argument checks. */
  function Submit(s: State, session: Session, kind: Submission, o: Oracle, recovery: Oracle): Outcome {
    if !Usable(s, session) || s.leaseActive then Outcome(s, false)
    else SubmitPrepared(s, Prepare3D(s, o), session, kind, o, recovery)
  }

  /** IsSessionFence: the value is not ahead of the newest fence the session remembers. */
  predicate IsSessionFence(lastFence: u32, fence: u32) {
    fence != 0 && lastFence != 0 && AtLeast(lastFence, fence)
  }

  /** Radeon3DTestFence and Radeon3DWaitFence. */
  function SessionFence(s: State, session: Session, lastFence: u32, fence: u32, o: Oracle): Outcome {
    if !IsSessionFence(lastFence, fence) || !Usable(s, session) then Outcome(s, false)
    else WaitFence(s, fence, o)
  }

  /** Radeon3DAcquireLease. */
  function AcquireLease(s: State, session: Session, o: Oracle): Outcome {
    if !Usable(s, session) || s.leaseActive then Outcome(s, false)
    else
      var prepared := Prepare3D(s, o);
      if !prepared.ok || !prepared.state.cp.ready then Outcome(prepared.state, false)
      else
        Outcome(prepared.state.(card := GuardFetch(prepared.state.card), accel := Fallback,
                                leaseActive := true, leaseDevice := Some(session.id)), true)
  }

  /** Radeon3DReleaseLease. */
  function ReleaseLease(s: State, session: Session, lastFence: u32, o: Oracle, recovery: Oracle): Outcome {
    if !Usable(s, session) then Outcome(s, false)
    else if !s.leaseActive || s.leaseDevice != Some(session.id) then Outcome(s, true)
    else
      var waited := if lastFence == 0 then Outcome(s, true) else WaitFence(s, lastFence, o);
      var s1 := if waited.ok then waited.state else RecoverEngine(waited.state, recovery).state;
      var s2 := Mark3DSubmitted(EndLease(AdoptFence(s1, lastFence)));
      Outcome(if waited.ok && s2.accel == Fallback then s2.(accel := Ready) else s2, waited.ok)
  }

  /** The wait for a session's last fence in Radeon3DClose and Radeon3DReleaseSurface. */
  function RetireSession(s: State, lastFence: u32, o: Oracle, recovery: Oracle): State {
    if lastFence == 0 then s
    else
      var waited := WaitFence(s, lastFence, o);
      if waited.ok then waited.state else RecoverEngine(waited.state, recovery).state
  }

  /** The engine half of Radeon3DReleaseSurface. */
  function ReleaseSurface(s: State, session: Session, lastFence: u32, o: Oracle, recovery: Oracle): State {
    if !Usable(s, session) then s else RetireSession(s, lastFence, o, recovery)
  }

  /** The engine half of Radeon3DClose: retire the session, then end a lease it still holds. */
  function CloseSession(s: State, session: Session, lastFence: u32, o: Oracle, recovery: Oracle): State {
    if !Usable(s, session) then s
    else
      var s1 := RetireSession(s, lastFence, o, recovery);
      if s1.leaseActive && s1.leaseDevice == Some(session.id) then
        var idle := if s1.cp.ready && o.idleOk then s1.(card := Idle(s1.card)) else s1;
        Mark3DSubmitted(AdoptFence(EndLease(idle), 0))
      else s1
  }

  // ------------------------------------------------------------ attachment

  /** The first half of RadeonReleaseBoard: from here on no session is usable. */
  function BeginRelease(s: State): State {
    if s.service in {Empty, Detaching} then s else s.(service := Detaching, advances := s.advances + 1)
  }

  /**
   RadeonCpShutdown and the rest of RadeonShutdownAcceleration; the lease fields are
   left alone.  Taking the ring away under queued work misuses the card.
   */
  function StopBoard(s: State): State {
    s.(cp := s.cp.(present := false, ready := false, pendingFence := 0, pendingUnfenced := 0),
       card := s.card.(log := [], done := 0, mmioBusy := false, hazard := s.card.hazard || !s.card.Drained()),
       pending := Nothing, need2DRestore := false, accel := Off, service := Empty)
  }

  /** The second half: drain whatever is pending, then stop. */
  function FinishRelease(s: State, o: Oracle): State {
    if s.service != Detaching then s
    else StopBoard(if s.pending == Nothing then s else SynchronizeEngine(s, o).state)
  }

  /** InitChip, which clears the board data, followed by InitRadeonFeatures. */
  function Attach(s: State, o: Oracle): State {
    if s.service != Empty then s
    else
      var cleared := s.(service := Attached, cp := Cp(false, false, 0, 0, 0),
                        card := s.card.(log := [], done := 0),
                        pending := Nothing, need2DRestore := false, recoveryTried := false);
      if !o.resetOk then cleared.(accel := Off)
      else
        var engine := cleared.(accel := Ready, card := RewriteBaseline(cleared.card.(mmioBusy := false)));
        if !o.restartOk then engine
        else engine.(card := FreshRing(engine.card),
                     cp := Cp(true, true, 1, 0, 0),
                     service := InService, advances := engine.advances + 1)
  }

  // ------------------------------------------------------------ runs

  datatype Event =
    | CardRuns(count: nat)
    | CardIdles
    | DrawEvent(passes: seq<Oracle>, recovery: Oracle)
    | DrainEvent(oracle: Oracle)
    | SubmitEvent(session: Session, kind: Submission, oracle: Oracle, recovery: Oracle)
    | FenceEvent(session: Session, lastFence: u32, fence: u32, oracle: Oracle)
    | AcquireEvent(session: Session, oracle: Oracle)
    | ReleaseEvent(session: Session, lastFence: u32, oracle: Oracle, recovery: Oracle)
    | ReclaimEvent(oracle: Oracle)
    | HolderWrites(entries: seq<Entry>, scratch: u32)
    | SurfaceEvent(session: Session, lastFence: u32, oracle: Oracle, recovery: Oracle)
    | CloseEvent(session: Session, lastFence: u32, oracle: Oracle, recovery: Oracle)
    | BeginReleaseEvent
    | FinishReleaseEvent(oracle: Oracle)
    | AttachEvent(oracle: Oracle)

  function Step(s: State, e: Event): State {
    match e
    case CardRuns(count) => s.(card := Runs(s.card, count))
    case CardIdles => s.(card := s.card.(mmioBusy := false))
    case DrawEvent(passes, recovery) => Draw(s, passes, recovery)
    case DrainEvent(o) => SoftwareFallback(s, o)
    case SubmitEvent(session, kind, o, recovery) => Submit(s, session, kind, o, recovery).state
    case FenceEvent(session, lastFence, fence, o) => SessionFence(s, session, lastFence, fence, o).state
    case AcquireEvent(session, o) => AcquireLease(s, session, o).state
    case ReleaseEvent(session, lastFence, o, recovery) => ReleaseLease(s, session, lastFence, o, recovery).state
    case ReclaimEvent(o) => ReclaimLease(s, o)
    case HolderWrites(entries, scratch) =>
      if s.leaseActive then s.(card := s.card.(log := s.card.log + entries, scratch := scratch)) else s
    case SurfaceEvent(session, lastFence, o, recovery) => ReleaseSurface(s, session, lastFence, o, recovery)
    case CloseEvent(session, lastFence, o, recovery) => CloseSession(s, session, lastFence, o, recovery)
    case BeginReleaseEvent => BeginRelease(s)
    case FinishReleaseEvent(o) => FinishRelease(s, o)
    case AttachEvent(o) => Attach(s, o)
  }

  function Run(s: State, events: seq<Event>): State
    decreases |events|
  {
    if |events| == 0 then s
    else Step(Run(s, events[..|events| - 1]), events[|events| - 1])
  }

  /** Before the first attachment. */
  const Initial: State := State(
    Card([], 0, 0, 0, false, false, false, false), Cp(false, false, 0, 0, 0),
    Off, Nothing, false, false, Empty, 0, false, None)

  /** A card that completes two entries whenever it is waited for, and does whatever it is asked. */
  const Good := Oracle(2, true, true, true, true, true, true, false)

  /** A ready engine and an idle ring, as the first attachment leaves them. */
  const Fresh: State := State(
    Card([], 0, RING_TEST_RESIDUE, 1, false, true, true, false), Cp(true, true, 1, 0, 0),
    Ready, Nothing, false, false, InService, 1, false, None)
}
