/**
 The driver's own form of the board transitions: fields that the methods of
 src/radeon_cp.c, src/radeon_accel.c and src/radeon3d_service.c update one after the
 other under BoardLock.  Each method promises its caller the effect of that name, and
 takes the fields exactly where the transition in Board does, so what is proved about
 runs of those transitions holds of these methods too.
 */
module BoardDriver {
  import opened Words
  import opened Board
  import BoardLease
  import Effects = BoardEffects

  class Driver {
    var card: Card
    var present: bool
    var ready: bool
    var nextFence: u32
    var pendingFence: u32
    var pendingUnfenced: u32
    var accelState: AccelState
    var accelPending: Pending
    var need2DRestore: bool
    var recoveryTried: bool
    var serviceState: ServiceState
    var advances: nat
    var leaseActive: bool
    var leaseDevice: Option<nat>

    function View(): State
      reads this
    {
      State(card, Cp(present, ready, nextFence, pendingFence, pendingUnfenced), accelState, accelPending,
            need2DRestore, recoveryTried, serviceState, advances, leaseActive, leaseDevice)
    }

    /** A lease has a holder, and an unsafe engine has no processor. */
    ghost predicate Valid()
      reads this
    {
      BoardLease.Coherent(View())
    }

    constructor ()
      ensures Valid() && View() == Initial
    {
      card := Card([], 0, 0, 0, false, false, false, false);
      present, ready, nextFence, pendingFence, pendingUnfenced := false, false, 0, 0, 0;
      accelState, accelPending, need2DRestore, recoveryTried := Off, Nothing, false, false;
      serviceState, advances, leaseActive, leaseDevice := Empty, 0, false, None;
    }

    // ---------------------------------------------------------- radeon_cp.c

    /** RadeonCpSubmitStream. */
    method SubmitStream(fetch: bool, fenced: bool, o: Oracle) returns (ok: bool)
      modifies this
      ensures Effects.Queued(old(View()), fetch, fenced, o, View(), ok)
      ensures Outcome(View(), ok) == Board.SubmitStream(old(View()), fetch, fenced, o)
    {
      Effects.SubmitStreamMeans(View(), fetch, fenced, o);
      ok := ready;
      if ok {
        ok := CommitStream(fetch, fenced, o);
      }
    }

    /** The number taken, the commit, and what the driver then remembers of it. */
    method CommitStream(fetch: bool, fenced: bool, o: Oracle) returns (ok: bool)
      requires ready
      modifies this
      ensures Outcome(View(), ok) == Board.SubmitStream(old(View()), fetch, fenced, o)
    {
      var sequence: u32 := NextSequence(nextFence);
      if fenced {
        nextFence := Wrap(sequence + 1);
      }
      if !o.commitOk {
        return false;
      }
      if fenced {
        card := Kick(card, [Work(fetch), Fence(sequence)]);
        pendingFence, pendingUnfenced := sequence, 0;
      } else {
        card := Kick(card, [Work(fetch)]);
        if pendingUnfenced != TWO32 - 1 {
          pendingUnfenced := pendingUnfenced + 1;
        }
      }
      ok := true;
    }

    /** RadeonCpTestFence. */
    method TestFence(fence: u32, o: Oracle) returns (ok: bool)
      modifies `pendingFence
      ensures Effects.Tested(old(View()), fence, o, View(), ok)
      ensures Outcome(View(), ok) == Board.TestFence(old(View()), fence, o)
    {
      Effects.TestFenceMeans(View(), fence, o);
      if !ready || !FenceReached(card.scratch, fence) || !o.waitOk {
        return false;
      }
      if FenceReached(card.scratch, pendingFence) {
        pendingFence := 0;
      }
      ok := true;
    }

    /** RadeonCpWaitFence. */
    method WaitFence(fence: u32, o: Oracle) returns (ok: bool)
      modifies this
      ensures Effects.Tested(old(View()), fence, o, View(), ok)
      ensures Outcome(View(), ok) == Board.WaitFence(old(View()), fence, o)
    {
      Effects.WaitFenceMeans(View(), fence, o);
      card := Runs(card, o.runs);
      ok := TestFence(fence, o);
    }

    /** RadeonCpWait. */
    method CpWait(o: Oracle) returns (ok: bool)
      modifies this
      ensures Effects.FenceWaited(old(View()), o, View(), ok)
      ensures Outcome(View(), ok) == Board.CpWait(old(View()), o)
    {
      Effects.CpWaitMeans(View(), o);
      if !ready {
        return false;
      }
      if pendingFence == 0 {
        return true;
      }
      card := Runs(card, o.runs);
      if !o.waitOk || card.scratch != pendingFence {
        return false;
      }
      pendingFence, pendingUnfenced := 0, 0;
      ok := true;
    }

    /** RadeonCpWaitDrained. */
    method CpWaitDrained(o: Oracle) returns (ok: bool)
      modifies this
      ensures Effects.QueueDrained(old(View()), o, View(), ok)
      ensures Outcome(View(), ok) == Board.CpWaitDrained(old(View()), o)
    {
      Effects.CpWaitDrainedMeans(View(), o);
      if !ready {
        return false;
      }
      if pendingUnfenced == 0 {
        return true;
      }
      if !o.idleOk {
        return false;
      }
      card := Idle(card);
      pendingUnfenced := 0;
      ok := true;
    }

    /** Radeon3DInvalidateService. */
    method InvalidateService()
      modifies this
      ensures Effects.Invalidated(old(View()), View())
      ensures View() == Board.InvalidateService(old(View()))
    {
      Effects.InvalidateMeans(View());
      if serviceState == InService {
        serviceState, advances := Attached, advances + 1;
      }
    }

    /** RadeonCpAbort. */
    method CpAbort()
      modifies this
      ensures Effects.Aborted(old(View()), View())
      ensures View() == Board.CpAbort(old(View()))
    {
      Effects.AbortMeans(View());
      if !present {
        return;
      }
      InvalidateService();
      ready, pendingFence := false, 0;
      if !card.Drained() {
        card := card.(log := card.log[..card.done]);
      }
    }

    /** RadeonCpRecover. */
    method CpRecover(o: Oracle) returns (ok: bool)
      modifies this
      ensures Effects.Restarted(old(View()), o, View(), ok)
      ensures Outcome(View(), ok) == Board.CpRecover(old(View()), o)
    {
      Effects.CpRecoverMeans(View(), o);
      if !present || !o.restartOk {
        return false;
      }
      card := FreshRing(card);
      ready, nextFence, pendingFence, pendingUnfenced := true, 1, 0, 0;
      ok := true;
    }

    /** Radeon3DRearmService. */
    method RearmService() returns (ok: bool)
      modifies this
      ensures Effects.Rearmed(old(View()), View(), ok)
      ensures Outcome(View(), ok) == Board.RearmService(old(View()))
    {
      Effects.RearmMeans(View());
      ok := ready && serviceState in {Attached, InService};
      if ok {
        serviceState := InService;
      }
    }

    // ---------------------------------------------------------- radeon_accel.c

    /** RecoverEngine: one attempt, in the order abort, reset, restart, rearm. */
    method RecoverEngine(o: Oracle) returns (ok: bool)
      requires Valid()
      modifies this
      ensures Valid()
      ensures Effects.Recovered(old(View()), o, View(), ok)
      ensures Outcome(View(), ok) == Board.RecoverEngine(old(View()), o)
    {
      Effects.RecoverMeans(View(), o);
      if recoveryTried {
        return false;
      }
      ok := ResetAndRestart(o);
    }

    /** The attempt itself. */
    method ResetAndRestart(o: Oracle) returns (ok: bool)
      requires !recoveryTried
      modifies this
      ensures Outcome(View(), ok) == Board.RecoverEngine(old(View()), o)
    {
      recoveryTried, accelPending, need2DRestore := true, Nothing, false;
      CpAbort();
      if !o.resetOk {
        accelState := Unsafe;
        return false;
      }
      card := RewriteBaseline(card.(mmioBusy := false));
      ok := Restart(o);
    }

    /** The rest of RecoverEngine, once the engine is reset. */
    method Restart(o: Oracle) returns (ok: bool)
      modifies this
      ensures Outcome(View(), ok) == Restarted(old(View()), o)
    {
      var restarted := CpRecover(o);
      if !restarted {
        accelState := Fallback;
        return true;
      }
      var rearmed := RearmService();
      if rearmed {
        accelState, recoveryTried := Ready, false;
      } else {
        CpAbort();
        accelState := Fallback;
      }
      ok := true;
    }

    /** Waiting for the queue, fence-less work included, and restoring the baseline. */
    method DrainQueue(o: Oracle) returns (ok: bool)
      requires accelPending == Queue
      modifies this
      ensures Outcome(View(), ok) == Board.DrainPending(old(View()), o)
    {
      ok := CpWait(o);
      if !ok {
        return;
      }
      ok := CpWaitDrained(o);
      if !ok {
        return;
      }
      card := RewriteBaseline(card);
    }

    /** The drain that SynchronizeEngine begins with. */
    method DrainPending(o: Oracle) returns (ok: bool)
      requires Valid()
      modifies this
      ensures Valid()
      ensures Outcome(View(), ok) == Board.DrainPending(old(View()), o)
    {
      BoardLease.DrainUntouched(View(), o);
      match accelPending {
        case Nothing =>
          return false;
        case Queue =>
          ok := DrainQueue(o);
        case Mmio =>
          if !o.idleOk {
            return false;
          }
          card := Idle(card);
          ok := true;
      }
    }

    /** SynchronizeEngine. */
    method SynchronizeEngine(o: Oracle) returns (ok: bool)
      requires Valid()
      modifies this
      ensures Valid()
      ensures Effects.Synchronized(old(View()), o, View(), ok)
      ensures Outcome(View(), ok) == Board.SynchronizeEngine(old(View()), o)
    {
      Effects.SynchronizeMeans(View(), o);
      if accelPending == Nothing {
        return accelState != Unsafe;
      }
      var drained := DrainPending(o);
      if drained {
        accelPending, need2DRestore := Nothing, false;
        return true;
      }
      ok := RecoverEngine(o);
    }

    /** RadeonPrepare3D. */
    method Prepare3D(o: Oracle) returns (ok: bool)
      requires Valid()
      modifies this
      ensures Valid()
      ensures Effects.Prepared3D(old(View()), View(), ok)
      ensures Outcome(View(), ok) == Board.Prepare3D(old(View()), o)
    {
      Effects.Prepare3DMeans(View(), o);
      if accelState == Ready && accelPending == Queue {
        return true;
      }
      ok := SynchronizeEngine(o);
    }

    /** RadeonMark3DSubmitted. */
    method Mark3DSubmitted()
      modifies this
      ensures Effects.HandedOver(View())
      ensures View() == Board.Mark3DSubmitted(old(View()))
    {
      Effects.MarkMeans(View());
      need2DRestore, accelPending := true, Queue;
    }

    /** RadeonCpAdoptFence. */
    method AdoptFence(lastFence: u32)
      modifies this
      ensures Effects.Adopted(old(View()), lastFence, View())
      ensures View() == Board.AdoptFence(old(View()), lastFence)
    {
      Effects.AdoptMeans(View(), lastFence);
      if !present {
        return;
      }
      pendingFence, pendingUnfenced := 0, 0;
      if lastFence != 0 {
        nextFence := NextSequence(Wrap(lastFence + 1));
      }
    }

    /** LeaseReclaim. */
    method ReclaimLease(o: Oracle)
      requires Valid()
      modifies this
      ensures Valid()
      ensures Effects.Reclaimed(old(View()), View())
      ensures View() == Board.ReclaimLease(old(View()), o)
    {
      Effects.ReclaimMeans(View(), o);
      if leaseActive {
        leaseActive, leaseDevice := false, None;
        AdoptFence(0);
        var ok := RecoverEngine(o);
      }
    }

    /** LeaseBlocks. */
    method LeaseBlocks(o: Oracle) returns (blocked: bool)
      requires Valid()
      modifies this
      ensures Valid()
      ensures Effects.Blocked(old(View()), o, View(), blocked)
      ensures Outcome(View(), blocked) == Board.LeaseBlocks(old(View()), o)
    {
      Effects.LeaseBlocksMeans(View(), o);
      if !leaseActive {
        return false;
      }
      if o.leaseExpired {
        ReclaimLease(o);
        return false;
      }
      blocked := true;
    }

    /** PrepareMmioEngine. */
    method PrepareMmio(o: Oracle) returns (ok: bool)
      requires Valid()
      modifies this
      ensures Valid()
      ensures Effects.MmioPrepared(old(View()), o, View(), ok)
      ensures Outcome(View(), ok) == Board.PrepareMmio(old(View()), o)
    {
      Effects.PrepareMmioMeans(View(), o);
      if accelState != Ready {
        return false;
      }
      var blocked := LeaseBlocks(o);
      if blocked {
        return false;
      }
      if !need2DRestore {
        return true;
      }
      ok := SynchronizeEngine(o);
    }

    /** The passes of an operation, each prepared on its own. */
    method DrawPasses(passes: seq<Oracle>) returns (ok: bool)
      requires Valid()
      modifies this
      ensures Valid()
      ensures Outcome(View(), ok) == Board.DrawPasses(old(View()), passes)
    {
      for k := 0 to |passes|
        invariant Valid()
        invariant Board.DrawPasses(old(View()), passes) == Board.DrawPasses(View(), passes[k..])
      {
        ok := PrepareMmio(passes[k]);
        if !ok {
          return;
        }
        card := DrawMmio(card);
        if !passes[k].passOk {
          return false;
        }
        assert passes[k..][1..] == passes[k + 1..];
      }
      ok := true;
    }

    /** A Picasso96 operation, on the hardware or handed back to software. */
    method Draw(passes: seq<Oracle>, recovery: Oracle)
      requires Valid()
      modifies this
      ensures Valid()
      ensures Effects.DrawnSafely(old(View()), passes, recovery, View())
      ensures View() == Board.Draw(old(View()), passes, recovery)
    {
      Effects.DrawMeans(View(), passes, recovery);
      if accelState != Ready {
        var blocked := LeaseBlocks(recovery);
        if !blocked {
          var ok := SynchronizeEngine(recovery);
        }
        return;
      }
      var drawn := DrawPasses(passes);
      if drawn {
        accelPending := Mmio;
      } else {
        var ok := RecoverEngine(recovery);
      }
    }

    // ---------------------------------------------------------- radeon3d_service.c

    /** Radeon3DSubmit and its indirect relatives, after their argument checks. */
    method Submit(session: Session, kind: Submission, o: Oracle, recovery: Oracle) returns (ok: bool)
      requires Valid()
      modifies this
      ensures Valid()
      ensures Effects.SubmittedSafely(old(View()), session, kind, o, View(), ok)
      ensures Outcome(View(), ok) == Board.Submit(old(View()), session, kind, o, recovery)
    {
      Effects.SubmitMeans(View(), session, kind, o, recovery);
      if !Usable(View(), session) || leaseActive {
        return false;
      }
      ghost var start := View();
      var generation := advances;
      ok := Prepare3D(o);
      if ok {
        ok := SubmitPrepared(start, session, kind, generation, o, recovery);
      }
    }

    /** With the engine prepared: all but a batch recheck the session and guard the fetch. */
    method SubmitPrepared(ghost start: State, session: Session, kind: Submission, generation: nat,
                          o: Oracle, recovery: Oracle) returns (ok: bool)
      requires Valid() && generation == start.advances
      modifies this
      ensures Outcome(View(), ok) == Board.SubmitPrepared(start, Outcome(old(View()), true), session, kind, o, recovery)
    {
      if !kind.Batch? {
        if !Usable(View(), session) || advances != generation {
          return false;
        }
        if pendingUnfenced == 0 {
          card := GuardFetch(card);
        }
      }
      ok := Commit(kind.Dispatch?, kind.Fenced(), o, recovery);
    }

    /** The commit, and the hand-over or the recovery after it. */
    method Commit(fetch: bool, fenced: bool, o: Oracle, recovery: Oracle) returns (ok: bool)
      requires Valid()
      modifies this
      ensures Outcome(View(), ok) == FinishSubmit(Board.SubmitStream(old(View()), fetch, fenced, o), recovery)
    {
      ok := SubmitStream(fetch, fenced, o);
      if ok {
        Mark3DSubmitted();
      } else {
        var recovered := RecoverEngine(recovery);
      }
    }

    /** Radeon3DAcquireLease. */
    method AcquireLease(session: Session, o: Oracle) returns (ok: bool)
      requires Valid()
      modifies this
      ensures Valid()
      ensures Effects.Granted(old(View()), session, o, View(), ok)
      ensures Outcome(View(), ok) == Board.AcquireLease(old(View()), session, o)
    {
      Effects.AcquireMeans(View(), session, o);
      if !Usable(View(), session) || leaseActive {
        return false;
      }
      ok := Prepare3D(o);
      if !ok || !ready {
        return false;
      }
      card := GuardFetch(card);
      accelState, leaseActive, leaseDevice := Fallback, true, Some(session.id);
    }

    /** Radeon3DReleaseLease. */
    method ReleaseLease(session: Session, lastFence: u32, o: Oracle, recovery: Oracle) returns (ok: bool)
      requires Valid()
      modifies this
      ensures Valid()
      ensures Effects.Released(old(View()), session, lastFence, o, View(), ok)
      ensures Outcome(View(), ok) == Board.ReleaseLease(old(View()), session, lastFence, o, recovery)
    {
      Effects.ReleaseMeans(View(), session, lastFence, o, recovery);
      if !Usable(View(), session) {
        return false;
      }
      if !leaseActive || leaseDevice != Some(session.id) {
        return true;
      }
      ok := AwaitHolder(lastFence, o, recovery);
      HandBack(lastFence, ok);
    }

    /** The wait for the holder's last fence, with a recovery where it fails. */
    method AwaitHolder(lastFence: u32, o: Oracle, recovery: Oracle) returns (ok: bool)
      requires Valid()
      modifies this
      ensures Outcome(View(), ok) == HolderAwaited(old(View()), lastFence, o, recovery)
    {
      ok := true;
      if lastFence != 0 {
        ok := WaitFence(lastFence, o);
      }
      if !ok {
        var recovered := RecoverEngine(recovery);
      }
    }

    /** The end of a lease that its holder released. */
    method HandBack(lastFence: u32, ok: bool)
      modifies this
      ensures View() == HandedBack(old(View()), lastFence, ok)
    {
      AdoptFence(lastFence);
      leaseActive, leaseDevice := false, None;
      Mark3DSubmitted();
      if ok && accelState == Fallback {
        accelState := Ready;
      }
    }
  }

  function Restarted(reset: State, o: Oracle): Outcome {
    var restarted := Board.CpRecover(reset, o);
    if !restarted.ok then Outcome(reset.(accel := Fallback), true)
    else
      var rearmed := Board.RearmService(restarted.state);
      if rearmed.ok then Outcome(rearmed.state.(accel := Ready, recoveryTried := false), true)
      else Outcome(Board.CpAbort(rearmed.state).(accel := Fallback), true)
  }

  function HolderAwaited(s: State, lastFence: u32, o: Oracle, recovery: Oracle): Outcome {
    var waited := if lastFence == 0 then Outcome(s, true) else Board.WaitFence(s, lastFence, o);
    Outcome(if waited.ok then waited.state else Board.RecoverEngine(waited.state, recovery).state, waited.ok)
  }

  function HandedBack(s: State, lastFence: u32, ok: bool): State {
    var back := Board.Mark3DSubmitted(EndLease(Board.AdoptFence(s, lastFence)));
    if ok && back.accel == Fallback then back.(accel := Ready) else back
  }
}
