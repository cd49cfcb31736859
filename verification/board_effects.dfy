/**
 What the board transitions mean to whoever calls them: for each, a relation between
 the state before, the state after and the answer, proved of the transition.  Where a
 meaning depends on fences being numbered (`Inv`), on 2D and queue being apart
 (`Apart`) or on what is incomplete being bounded, the relation says so.
 */
module BoardEffects {
  import opened Words
  import opened Board
  import opened BoardFences
  import opened BoardExclusion
  import opened BoardLease

  // ------------------------------------------------------------ fences

  /** Every stream of the ring whose fence carries this number is complete. */
  ghost predicate Retired(c: Card, fence: u32) {
    forall i :: 0 <= i < |c.log| && c.log[i] == Fence(fence) ==> i < c.done
  }

  /** A fence of this number was completed within the last 2^31-2. */
  ghost predicate RecentlyRetired(c: Card, fence: u32) {
    c.done <= |c.log| &&
    exists i :: 0 <= i < c.done && c.log[i] == Fence(fence)
                && CountFences(c.log[..c.done]) <= CountFences(c.log[..i + 1]) + 0x7fff_fffe
  }

  lemma ReachedMeans(c: Card, fence: u32)
    requires RingInv(c) && Bounded(c)
    ensures FenceReached(c.scratch, fence) ==> Retired(c, fence)
    ensures RecentlyRetired(c, fence) ==> FenceReached(c.scratch, fence)
  {
    if FenceReached(c.scratch, fence) {
      forall i | 0 <= i < |c.log| && c.log[i] == Fence(fence) ensures i < c.done {
        FencePositionExact(c, i);
      }
    }
    if RecentlyRetired(c, fence) {
      var i :| 0 <= i < c.done && c.log[i] == Fence(fence)
               && CountFences(c.log[..c.done]) <= CountFences(c.log[..i + 1]) + 0x7fff_fffe;
      FencePositionExact(c, i);
    }
  }

  /** What one stream adds: its work, and its fence if it has one. */
  function Entries(fetch: bool, fenced: bool, sequence: u32): seq<Entry> {
    [Work(fetch)] + (if fenced then [Fence(sequence)] else [])
  }

  /**
   A stream joins the queue behind everything else or leaves it alone; its fence is new,
   names the end of the queue and does not test as retired.
   */
  ghost predicate Queued(s: State, fetch: bool, fenced: bool, o: Oracle, t: State, ok: bool) {
    && (ok <==> s.cp.ready && o.commitOk)
    && (!ok ==> t.card == s.card && t.cp.pendingFence == s.cp.pendingFence)
    && (ok ==> s.cp.ready && t.card.done == s.card.done)
    && (ok ==> t.card.log == s.card.log + Entries(fetch, fenced, t.cp.pendingFence))
    && (ok && fenced ==> t.cp.pendingUnfenced == 0)
    && (ok && !fenced ==> t.cp.pendingUnfenced > 0 && t.cp.pendingFence == s.cp.pendingFence)
    && (if fenced && s.cp.ready then NextSequence(t.cp.nextFence) != NextSequence(s.cp.nextFence)
        else t.cp.nextFence == s.cp.nextFence)
    && (Inv(s) ==> WeakInv(t) && Later(s, t) && (ok ==> Inv(t)))
    && (Inv(s) && ok && fenced && Bounded(t.card) ==> !FenceReached(t.card.scratch, t.cp.pendingFence))
  }

  lemma SubmitStreamMeans(s: State, fetch: bool, fenced: bool, o: Oracle)
    ensures var r := SubmitStream(s, fetch, fenced, o); Queued(s, fetch, fenced, o, r.state, r.ok)
  {
    var r := SubmitStream(s, fetch, fenced, o);
    NumbersDiffer(s.cp.nextFence);
    if r.ok { StreamQueues(s, fetch, fenced, o); }
    if Inv(s) {
      SubmitStreamKeeps(s, fetch, fenced, o);
      if r.ok && fenced && Bounded(r.state.card) { NewestUnreached(s, r.state); }
    }
  }

  /** No number is taken twice in a row, across the wrap either. */
  lemma NumbersDiffer(next: u32)
    ensures NextSequence(Wrap(NextSequence(next) + 1)) != NextSequence(next)
  {
  }

  lemma StreamQueues(s: State, fetch: bool, fenced: bool, o: Oracle)
    requires s.cp.ready && o.commitOk
    ensures var t := SubmitStream(s, fetch, fenced, o).state;
      t.card.log == s.card.log + Entries(fetch, fenced, t.cp.pendingFence) && t.card.done == s.card.done
  {
  }

  /** A fence that has just been queued is not complete, so it does not test as retired. */
  lemma NewestUnreached(s: State, t: State)
    requires RingInv(t.card) && Bounded(t.card) && s.card.done <= |s.card.log| && t.card.done == s.card.done
    requires |s.card.log| < |t.card.log| && t.card.log[|t.card.log| - 1] == Fence(t.cp.pendingFence)
    ensures !FenceReached(t.card.scratch, t.cp.pendingFence)
  {
    ReachedMeans(t.card, t.cp.pendingFence);
  }

  /** Success means that everything up to the fence is complete; what is recently complete succeeds. */
  ghost predicate Tested(s: State, fence: u32, o: Oracle, t: State, ok: bool) {
    && t.card.log == s.card.log && s.card.done <= t.card.done
    && (!ok ==> t.cp == s.cp)
    && (Inv(s) && Bounded(s.card) ==> Inv(t) && (ok ==> Retired(t.card, fence)))
    && (Inv(s) && Bounded(s.card) && s.cp.ready && o.waitOk && RecentlyRetired(t.card, fence) ==> ok)
    && (Inv(s) && Bounded(s.card) && t.cp.pendingFence != s.cp.pendingFence ==> Retired(t.card, s.cp.pendingFence))
    && (Inv(s) && Bounded(s.card) && ok && RecentlyRetired(t.card, s.cp.pendingFence) ==> t.cp.pendingFence == 0)
  }

  lemma RunsOnly(c: Card, count: nat)
    ensures var d := Runs(c, count); d.log == c.log && c.done <= d.done && d.epoch == c.epoch
    decreases count
  {
    if count > 0 && !c.Drained() { RunsOnly(Complete(c), count - 1); }
  }

  lemma TestFenceMeans(s: State, fence: u32, o: Oracle)
    ensures var r := TestFence(s, fence, o); Tested(s, fence, o, r.state, r.ok)
  {
    if Inv(s) && Bounded(s.card) && s.cp.ready {
      ReachedMeans(s.card, fence);
      ReachedMeans(s.card, s.cp.pendingFence);
    }
  }

  lemma WaitFenceMeans(s: State, fence: u32, o: Oracle)
    ensures var r := WaitFence(s, fence, o); Tested(s, fence, o, r.state, r.ok)
  {
    RunsOnly(s.card, o.runs);
    var ran := s.(card := Runs(s.card, o.runs));
    TestFenceMeans(ran, fence, o);
    if Inv(s) && Bounded(s.card) {
      WaitFenceKeeps(s, fence, o);
      if s.cp.present { RunsKeeps(s.card, o.runs); }
      if !s.cp.ready { RunsDrained(s.card, o.runs); }
    }
  }

  /** A wait that succeeds for a fence naming the end of the queue leaves nothing incomplete. */
  ghost predicate FenceWaited(s: State, o: Oracle, t: State, ok: bool) {
    && t.card.log == s.card.log && s.card.done <= t.card.done
    && (ok ==> s.cp.ready && t.cp.pendingFence == 0)
    && (ok && s.cp.pendingFence == 0 ==> t == s)
    && (s.cp.ready && (s.cp.pendingFence == 0 || (o.waitOk && t.card.scratch == s.cp.pendingFence)) ==> ok)
    && (ok && s.cp.pendingFence != 0 && Inv(s) && Bounded(s.card) && QueueNamed(s.card, s.cp) ==> t.card.Drained())
  }

  lemma CpWaitMeans(s: State, o: Oracle)
    ensures var r := CpWait(s, o); FenceWaited(s, o, r.state, r.ok)
  {
    RunsOnly(s.card, o.runs);
    if s.cp.ready && s.cp.pendingFence != 0 && Inv(s) && Bounded(s.card) && QueueNamed(s.card, s.cp) {
      RunsKeeps(s.card, o.runs);
      LastFenceDrains(Runs(s.card, o.runs));
    }
  }

  /** A full drain leaves no fence-less work counted, and none incomplete where some was. */
  ghost predicate QueueDrained(s: State, o: Oracle, t: State, ok: bool) {
    && (ok <==> s.cp.ready && (s.cp.pendingUnfenced == 0 || o.idleOk))
    && t.card.log == s.card.log
    && (ok ==> t.cp.pendingUnfenced == 0)
    && (ok && s.cp.pendingUnfenced != 0 ==> t.card.Drained() && !t.card.mmioBusy)
    && (!ok || s.cp.pendingUnfenced == 0 ==> t == s)
  }

  lemma IdleMeans(c: Card)
    ensures Idle(c).log == c.log && Idle(c).Drained()
  {
    RunsOnly(c, |c.log|);
    if c.done <= |c.log| { RunsAll(c, |c.log|); } else { RunsDrained(c, |c.log|); }
  }

  lemma CpWaitDrainedMeans(s: State, o: Oracle)
    ensures var r := CpWaitDrained(s, o); QueueDrained(s, o, r.state, r.ok)
  {
    IdleMeans(s.card);
  }

  // ------------------------------------------------------------ recovery

  /** Nobody can use the service; and whoever could stays out when it is armed again. */
  ghost predicate Invalidated(s: State, t: State) {
    && (forall session :: !Usable(t, session))
    && (s.service == InService ==> t.Generation() != s.Generation())
    && (s.service != InService ==> t.service == s.service && t.advances == s.advances)
    && (forall session :: Usable(s, session) ==> session.generation != t.Generation())
  }

  lemma NextGeneration(advances: nat)
    ensures SkipZero(advances + 1) != SkipZero(advances + 2)
  {
    SkipZeroCollides(advances + 1, advances + 2);
  }

  lemma InvalidateMeans(s: State)
    ensures Invalidated(s, InvalidateService(s))
  {
    NextGeneration(s.advances);
  }

  /** The processor is stopped with nothing queued; what it had completed stays complete. */
  ghost predicate Aborted(s: State, t: State) {
    if s.cp.present then
      && !t.cp.ready && t.cp.pendingFence == 0 && t.card.Drained() && t.card.done == s.card.done && Invalidated(s, t)
    else t == s
  }

  lemma AbortMeans(s: State)
    ensures Aborted(s, CpAbort(s))
  {
    InvalidateMeans(s);
  }

  /** An empty ring that counts from one; no fence it can issue soon tests as retired yet. */
  ghost predicate Restarted(s: State, o: Oracle, t: State, ok: bool) {
    && (ok <==> s.cp.present && o.restartOk) && (!ok ==> t == s)
    && (ok ==> t.cp.ready && t.card.log == [] && t.card.Drained() && t.card.epoch == s.card.epoch + 1)
    && (ok ==> NextSequence(t.cp.nextFence) == 1 && t.cp.pendingFence == 0 && t.cp.pendingUnfenced == 0)
    && (ok ==> forall f: u32 :: 1 <= f <= MAX_IN_FLIGHT ==> !FenceReached(t.card.scratch, f))
  }

  lemma CpRecoverMeans(s: State, o: Oracle)
    ensures var r := CpRecover(s, o); Restarted(s, o, r.state, r.ok)
  {
    var r := CpRecover(s, o);
    if r.ok {
      forall f: u32 | 1 <= f <= MAX_IN_FLIGHT ensures !FenceReached(r.state.card.scratch, f) {
        FenceReachedExact(0, f, f);
        assert SkipZero(f) == f;
      }
    }
  }

  /** The service serves exactly the sessions of its generation again, or nothing has changed. */
  ghost predicate Rearmed(s: State, t: State, ok: bool) {
    && (ok ==> forall session :: Usable(t, session) <==> session.generation == s.Generation())
    && (!ok ==> t == s && (s.cp.ready ==> s.service == Empty || s.service == Detaching))
  }

  lemma RearmMeans(s: State)
    ensures var r := RearmService(s); Rearmed(s, r.state, r.ok)
  {
  }

  /**
   Recovery that ends ready leaves an idle card with the 2D baseline and an empty ring,
   and no session that was usable before; recovery that fails changes nothing or leaves
   the engine unsafe without a processor.
   */
  ghost predicate Recovered(s: State, o: Oracle, t: State, ok: bool) {
    && Coherent(t) && t.leaseDevice == s.leaseDevice
    && (ok <==> !s.recoveryTried && o.resetOk)
    && (ok && t.accel == Fallback ==> !t.cp.ready)
    && (ok && s.cp.present && o.restartOk && s.service in {Attached, InService} ==>
          t.accel == Ready && t.service == InService)
    && (!ok ==> (t == s && s.recoveryTried) || (t.accel == Unsafe && !t.cp.ready))
    && (ok ==>
      t.pending == Nothing && !t.need2DRestore && t.card.baseline && !t.card.mmioBusy && t.accel in {Ready, Fallback})
    && (ok && t.accel == Ready ==> t.cp.ready && t.card.log == [] && t.card.epoch == s.card.epoch + 1)
    && (!s.recoveryTried ==> forall session :: Usable(s, session) ==> !Usable(t, session))
    && (Inv(s) ==> Inv(t) && Later(s, t))
  }

  lemma RecoverMeans(s: State, o: Oracle)
    requires Coherent(s)
    ensures var r := RecoverEngine(s, o); Recovered(s, o, r.state, r.ok)
  {
    RecoverCoherent(s, o);
    if Inv(s) { RecoverKeeps(s, o); }
    NextGeneration(s.advances);
  }

  // ------------------------------------------------------------ hand-over

  /** Success on a working engine leaves an idle card with the baseline; the card is never misused on the way. */
  ghost predicate Synchronized(s: State, o: Oracle, t: State, ok: bool) {
    && Coherent(t) && t.leaseDevice == s.leaseDevice
    && (s.pending == Nothing ==> t == s && (ok <==> s.accel != Unsafe))
    && (Drains(s, o) ==> ok && t.card.log == s.card.log && t.card.epoch == s.card.epoch && t.accel == s.accel)
    && (Apart(s, false) && Bounded(s.card) ==>
          && Apart(t, false)
          && (ok ==> t.pending == Nothing && !t.need2DRestore)
          && (ok && t.accel in {Ready, Fallback} ==> t.card.Drained() && t.card.baseline))
  }

  /** The wait for what is pending answers in time, so the engine is not reset. */
  predicate Drains(s: State, o: Oracle) {
    match s.pending
    case Nothing => false
    case Mmio => o.idleOk
    case Queue =>
      s.cp.ready && o.idleOk && o.waitOk &&
      (s.cp.pendingFence == 0 || Runs(s.card, o.runs).scratch == s.cp.pendingFence)
  }

  lemma DrainMeans(s: State, o: Oracle)
    requires Drains(s, o)
    ensures var r := DrainPending(s, o);
      r.ok && r.state.card.log == s.card.log && r.state.card.epoch == s.card.epoch && r.state.accel == s.accel
  {
    RunsOnly(s.card, o.runs);
    RunsOnly(s.card, |s.card.log|);
    if s.pending == Queue {
      CpWaitDrainedMeans(CpWait(s, o).state, o);
      RunsOnly(CpWait(s, o).state.card, |s.card.log|);
    }
  }

  lemma SynchronizeMeans(s: State, o: Oracle)
    requires Coherent(s)
    ensures var r := SynchronizeEngine(s, o); Synchronized(s, o, r.state, r.ok)
  {
    SynchronizeCoherent(s, o);
    if Drains(s, o) { DrainMeans(s, o); }
    if Apart(s, false) && Bounded(s.card) { SynchronizeApart(s, o); }
  }

  /** After a successful preparation the ring may be kicked: nothing drawn is undrained. */
  ghost predicate Prepared3D(s: State, t: State, ok: bool) {
    && Coherent(t)
    && (Apart(s, false) && Bounded(s.card) ==> Apart(t, false) && (ok && t.cp.ready ==> !t.card.mmioBusy))
    && (s.accel == Ready && s.pending == Queue ==> ok && t == s)
  }

  lemma Prepare3DMeans(s: State, o: Oracle)
    requires Coherent(s)
    ensures var r := Prepare3D(s, o); Prepared3D(s, r.state, r.ok)
  {
    SynchronizeMeans(s, o);
  }

  /** From here on a submission follows without a drain, and 2D draws only after one. */
  ghost predicate HandedOver(t: State) {
    && (forall o :: t.accel == Ready ==> Prepare3D(t, o) == Outcome(t, true))
    && (forall o :: t.accel == Ready && !t.leaseActive ==> PrepareMmio(t, o) == SynchronizeEngine(t, o))
  }

  lemma MarkMeans(s: State)
    ensures HandedOver(Mark3DSubmitted(s))
  {
  }

  /** Success means that 2D may draw: no lease, nothing queued incomplete, the baseline in place. */
  ghost predicate MmioPrepared(s: State, o: Oracle, t: State, ok: bool) {
    && Coherent(t)
    && (ok ==> !t.leaseActive && s.accel == Ready)
    && (s.accel != Ready || (s.leaseActive && !o.leaseExpired) ==> !ok && t == s)
    && (s.accel == Ready && !s.leaseActive && !s.need2DRestore ==> ok && t == s)
    && (s.accel == Ready && !s.leaseActive && s.need2DRestore && Drains(s, o) ==>
          ok && t.card.log == s.card.log && t.accel == Ready)
    && (Apart(s, false) && Bounded(s.card) ==> Apart(t, false) && (ok ==> t.card.Drained() && t.card.baseline))
  }

  lemma PrepareMmioMeans(s: State, o: Oracle)
    requires Coherent(s)
    ensures var r := PrepareMmio(s, o); MmioPrepared(s, o, r.state, r.ok)
  {
    LeaseBlocksMeans(s, o);
    SynchronizeMeans(LeaseBlocks(s, o).state, o);
    if Apart(s, false) && Bounded(s.card) { PrepareMmioApart(s, o, false); }
  }

  /** What a software operation finds: nothing drawn or queued incomplete, unless a lease owns the engine. */
  ghost predicate DrainedForSoftware(s: State, o: Oracle, t: State) {
    && Coherent(t)
    && (s.leaseActive && !o.leaseExpired ==> t == s)
    && (Apart(s, false) && Bounded(s.card) && t.accel in {Ready, Fallback}
        && (s.pending == Nothing || Drains(s, o) || !s.recoveryTried) ==>
          && t.card.Drained() && t.card.baseline && t.pending == Nothing && !t.need2DRestore
          && (s.pending == Mmio ==> !t.card.mmioBusy))
  }

  lemma SynchronizeIdles(s: State, o: Oracle)
    requires Coherent(s) && s.pending == Mmio && (Drains(s, o) || !s.recoveryTried)
    ensures SynchronizeEngine(s, o).ok ==> !SynchronizeEngine(s, o).state.card.mmioBusy
  {
    RecoverMeans(DrainPending(s, o).state, o);
  }

  lemma SoftwareMeans(s: State, o: Oracle)
    requires Coherent(s)
    ensures DrainedForSoftware(s, o, SoftwareFallback(s, o))
  {
    SoftwareCoherent(s, o);
    if !s.leaseActive {
      SynchronizeMeans(s, o);
      if s.pending == Mmio && (Drains(s, o) || !s.recoveryTried) { SynchronizeIdles(s, o); }
      if s.pending != Nothing && !SynchronizeEngine(s, o).ok { RecoverMeans(DrainPending(s, o).state, o); }
    }
  }

  /** Nothing stops the operation: 2D owns the engine or gets it by waiting, and every pass goes through. */
  predicate Unhindered(s: State, passes: seq<Oracle>) {
    && s.accel == Ready && !s.leaseActive
    && (s.need2DRestore ==> |passes| > 0 && Drains(s, passes[0]))
    && (forall i :: 0 <= i < |passes| ==> passes[i].passOk)
  }

  predicate PassFails(passes: seq<Oracle>) { exists i :: 0 <= i < |passes| && !passes[i].passOk }

  lemma {:induction false} PassesDraw(s: State, passes: seq<Oracle>)
    requires Coherent(s) && Unhindered(s, passes)
    ensures var r := DrawPasses(s, passes);
      && r.ok && r.state.accel == Ready && r.state.card.log == s.card.log
      && (|passes| > 0 ==> r.state.card.mmioBusy)
    decreases |passes|
  {
    if |passes| > 0 {
      PrepareMmioMeans(s, passes[0]);
      var prepared := PrepareMmio(s, passes[0]);
      var drawn := prepared.state.(card := DrawMmio(prepared.state.card));
      assert !prepared.state.need2DRestore && Coherent(drawn);
      PassesDraw(drawn, passes[1..]);
      if |passes| == 1 { assert DrawPasses(drawn, passes[1..]) == Outcome(drawn, true); }
    }
  }

  /** Passes of which one fails do not succeed; and where a recovery has been tried, nothing is pending any more. */
  lemma {:induction false} PassesFail(s: State, passes: seq<Oracle>, i: nat)
    requires Coherent(s) && !s.leaseActive && i < |passes| && !passes[i].passOk
    requires s.recoveryTried ==> s.pending == Nothing
    ensures var r := DrawPasses(s, passes);
      !r.ok && Coherent(r.state) && (r.state.recoveryTried ==> r.state.pending == Nothing)
    decreases |passes|
  {
    SynchronizeCoherent(s, passes[0]);
    var prepared := PrepareMmio(s, passes[0]);
    assert Coherent(prepared.state) && !prepared.state.leaseActive;
    if prepared.ok && passes[0].passOk {
      assert passes[1..][i - 1] == passes[i];
      PassesFail(prepared.state.(card := DrawMmio(prepared.state.card)), passes[1..], i - 1);
    }
  }

  /**
   A 2D operation draws and marks the drawing as pending where nothing hinders it, goes
   through a recovery where a pass fails, and drains the engine where it has to draw in
   software.  It never misuses the card, unless it has no pass and a restore is due.
   */
  ghost predicate DrawnSafely(s: State, passes: seq<Oracle>, recovery: Oracle, t: State) {
    && Coherent(t)
    && (Unhindered(s, passes) ==> t.pending == Mmio && t.card.log == s.card.log && (|passes| > 0 ==> t.card.mmioBusy))
    && (s.accel == Ready && !s.leaseActive && !s.recoveryTried && PassFails(passes) ==> t.pending == Nothing)
    && (s.accel != Ready ==> DrainedForSoftware(s, recovery, t))
    && (Apart(s, false) && Bounded(s.card) && (|passes| > 0 || s.accel != Ready || !s.need2DRestore) ==>
       Apart(t, false))
  }

  lemma DrawRecovers(s: State, passes: seq<Oracle>, recovery: Oracle)
    requires Coherent(s)
    ensures s.accel == Ready && !s.leaseActive && !s.recoveryTried && PassFails(passes) ==>
      Draw(s, passes, recovery).pending == Nothing
  {
    if s.accel == Ready && !s.leaseActive && !s.recoveryTried {
      if i :| 0 <= i < |passes| && !passes[i].passOk { PassesFail(s, passes, i); }
    }
  }

  lemma DrawMeans(s: State, passes: seq<Oracle>, recovery: Oracle)
    requires Coherent(s)
    ensures DrawnSafely(s, passes, recovery, Draw(s, passes, recovery))
  {
    DrawCoherent(s, passes, recovery);
    if Unhindered(s, passes) { PassesDraw(s, passes); }
    if s.accel != Ready { SoftwareMeans(s, recovery); }
    DrawRecovers(s, passes, recovery);
    if Apart(s, false) && Bounded(s.card) && (|passes| > 0 || s.accel != Ready || !s.need2DRestore) {
      DrawApart(s, passes, recovery);
    }
  }

  /**
   Refused under a lease without any effect; otherwise a success hands the engine over,
   fences stay numbered, and the card is not misused unless fence-less work is put
   behind a pending fence.
   */
  ghost predicate SubmittedSafely(s: State, session: Session, kind: Submission, o: Oracle, t: State, ok: bool) {
    && Coherent(t)
    && (!Usable(s, session) ==> !ok && t == s)
    && (ok ==> t.card.log == RingBefore(s, t) + Stream(kind, t.cp.pendingFence))
    && (!ok && s.cp.ready ==> RingKept(s, t))
    && (ok && !kind.Batch? ==> t.advances == s.advances)
    && (Usable(s, session) && !s.leaseActive && s.accel == Ready && s.pending == Queue && o.commitOk ==> ok)
    && (s.leaseActive ==> !ok && t == s)
    && (ok ==> t.pending == Queue && t.need2DRestore && t.cp.ready)
    && (Inv(s) ==> Inv(t) && Later(s, t))
    && (Apart(s, false) && Bounded(s.card) && (kind.Fenced() || s.cp.pendingFence == 0) ==> Apart(t, false))
  }

  /** The entries a transition found on the ring: what was there, or nothing if it began with a new ring. */
  function RingBefore(s: State, t: State): seq<Entry> { if t.card.epoch == s.card.epoch then s.card.log else [] }

  /** Only a dispatch fetches, and only a dispatch without a fence has none. */
  function Stream(kind: Submission, sequence: u32): seq<Entry> {
    match kind
    case Batch => Entries(false, true, sequence)
    case Dispatch(withFence) => Entries(true, withFence, sequence)
    case Closing => Entries(false, true, sequence)
  }

  /** An engine with a processor that is ready afterwards has kept its ring, or has a new one. */
  ghost predicate RingKept(s: State, t: State) {
    && s.card.epoch <= t.card.epoch
    && (t.cp.ready ==> t.card.log == RingBefore(s, t) && (t.card.epoch == s.card.epoch ==> s.cp.ready))
  }

  lemma RingKeptTwice(s: State, t: State, u: State)
    requires RingKept(s, t) && RingKept(t, u)
    ensures RingKept(s, u)
  {
  }

  lemma RecoverRing(s: State, o: Oracle)
    requires Coherent(s)
    ensures RingKept(s, RecoverEngine(s, o).state)
  {
  }

  lemma SynchronizeRing(s: State, o: Oracle)
    requires Coherent(s)
    ensures RingKept(s, SynchronizeEngine(s, o).state)
  {
    if s.pending != Nothing {
      DrainWaited(s, o);
      RecoverRing(DrainPending(s, o).state, o);
    }
  }

  lemma DrainWaited(s: State, o: Oracle)
    ensures Waited(s, DrainPending(s, o).state)
  {
    if s.pending == Queue {
      CpWaited(s, o);
      CpWaited(CpWait(s, o).state, o);
    } else {
      RunsOnly(s.card, |s.card.log|);
    }
  }

  lemma CommitRing(s: State, fetch: bool, fenced: bool, o: Oracle, recovery: Oracle)
    requires Coherent(s)
    ensures var r := FinishSubmit(SubmitStream(s, fetch, fenced, o), recovery);
      && (!r.ok ==> RingKept(s, r.state))
      && (r.ok ==> s.cp.ready && r.state.card.epoch == s.card.epoch && r.state.advances == s.advances)
      && (r.ok ==> r.state.card.log == s.card.log + Entries(fetch, fenced, r.state.cp.pendingFence))
      && (s.cp.ready && o.commitOk ==> r.ok)
  {
    SubmitStreamMeans(s, fetch, fenced, o);
    RecoverRing(SubmitStream(s, fetch, fenced, o).state, recovery);
  }

  lemma PreparedRing(s: State, o: Oracle)
    requires Coherent(s)
    ensures Coherent(Prepare3D(s, o).state) && RingKept(s, Prepare3D(s, o).state)
  {
    SynchronizeCoherent(s, o);
    SynchronizeRing(s, o);
  }

  lemma CommittedRing(s: State, prepared: State, kind: Submission, o: Oracle, recovery: Oracle)
    requires Coherent(prepared) && RingKept(s, prepared)
    ensures var r := FinishSubmit(SubmitStream(prepared, kind.Dispatch?, kind.Fenced(), o), recovery);
      && (r.ok ==> r.state.card.log == RingBefore(s, r.state) + Stream(kind, r.state.cp.pendingFence))
      && (!r.ok ==> RingKept(s, r.state))
      && (r.ok && !kind.Batch? ==> r.state.advances == prepared.advances)
      && (prepared.cp.ready && o.commitOk ==> r.ok)
  {
    CommitRing(prepared, kind.Dispatch?, kind.Fenced(), o, recovery);
    var r := FinishSubmit(SubmitStream(prepared, kind.Dispatch?, kind.Fenced(), o), recovery);
    if !r.ok { RingKeptTwice(s, prepared, r.state); }
  }

  lemma SubmitRing(s: State, session: Session, kind: Submission, o: Oracle, recovery: Oracle)
    requires Coherent(s) && Usable(s, session) && !s.leaseActive
    ensures var r := Submit(s, session, kind, o, recovery);
      && (r.ok ==> r.state.card.log == RingBefore(s, r.state) + Stream(kind, r.state.cp.pendingFence))
      && (!r.ok ==> RingKept(s, r.state))
      && (r.ok && !kind.Batch? ==> r.state.advances == s.advances)
      && (s.accel == Ready && s.pending == Queue && o.commitOk ==> r.ok)
  {
    PreparedRing(s, o);
    var prepared := Prepare3D(s, o).state;
    GuardedRing(s, prepared);
    CommittedRing(s, if kind.Batch? then prepared else FetchGuard(prepared), kind, o, recovery);
  }

  lemma GuardedRing(s: State, t: State)
    requires Coherent(t) && RingKept(s, t)
    ensures Coherent(FetchGuard(t)) && RingKept(s, FetchGuard(t))
    ensures FetchGuard(t).cp == t.cp && FetchGuard(t).advances == t.advances
  {
  }

  /** What the caller sees of the session and of the hand-over. */
  lemma SubmitHandsOver(s: State, session: Session, kind: Submission, o: Oracle, recovery: Oracle)
    requires Coherent(s)
    ensures var r := Submit(s, session, kind, o, recovery);
      && (!Usable(s, session) || s.leaseActive ==> !r.ok && r.state == s)
      && (r.ok ==> r.state.pending == Queue && r.state.need2DRestore && r.state.cp.ready)
  {
  }

  lemma SubmitMeans(s: State, session: Session, kind: Submission, o: Oracle, recovery: Oracle)
    requires Coherent(s)
    ensures var r := Submit(s, session, kind, o, recovery); SubmittedSafely(s, session, kind, o, r.state, r.ok)
  {
    SubmitHandsOver(s, session, kind, o, recovery);
    if Usable(s, session) && !s.leaseActive {
      SubmitCoherent(s, session, kind, o, recovery);
      SubmitRing(s, session, kind, o, recovery);
    }
    SubmitStaysSafe(s, session, kind, o, recovery);
  }

  lemma SubmitStaysSafe(s: State, session: Session, kind: Submission, o: Oracle, recovery: Oracle)
    requires Coherent(s)
    ensures var t := Submit(s, session, kind, o, recovery).state;
      && (Inv(s) ==> Inv(t) && Later(s, t))
      && (Apart(s, false) && Bounded(s.card) && (kind.Fenced() || s.cp.pendingFence == 0) ==> Apart(t, false))
  {
    if Inv(s) { SubmitKeeps(s, session, kind, o, recovery); }
    if Apart(s, false) && Bounded(s.card) && (kind.Fenced() || s.cp.pendingFence == 0) {
      SubmitApart(s, session, kind, o, recovery);
    }
  }

  // ------------------------------------------------------------ leases

  /** The driver names nothing as pending, and its next fence is one ahead of the holder's last. */
  ghost predicate Adopted(s: State, lastFence: u32, t: State) {
    && (s.cp.present ==> t.cp.pendingFence == 0 && t.cp.pendingUnfenced == 0)
    && (s.cp.present && lastFence != 0 ==> NextSequence(t.cp.nextFence) == SkipZero(lastFence + 1))
    && (lastFence == 0 ==> t.cp.nextFence == s.cp.nextFence)
    && t.card == s.card
  }

  lemma AdoptMeans(s: State, lastFence: u32)
    ensures Adopted(s, lastFence, AdoptFence(s, lastFence))
  {
  }

  /** The lease is over, and if there was one the engine has been through a recovery. */
  ghost predicate Reclaimed(s: State, t: State) {
    && Coherent(t) && !t.leaseActive && t.leaseDevice == None
    && (s.leaseActive && !s.recoveryTried ==> t.pending == Nothing && !t.need2DRestore)
    && (s.leaseActive && !s.recoveryTried && t.accel == Ready ==> t.card.log == [] && t.card.baseline)
    && (!s.leaseActive ==> t == s)
  }

  lemma ReclaimMeans(s: State, o: Oracle)
    requires Coherent(s)
    ensures Reclaimed(s, ReclaimLease(s, o))
  {
    if s.leaseActive { RecoverMeans(AdoptFence(EndLease(s), 0), o); }
  }

  /** Exactly an unexpired lease keeps the caller off the engine, and then nothing changes. */
  ghost predicate Blocked(s: State, o: Oracle, t: State, blocked: bool) {
    && Coherent(t)
    && (blocked <==> s.leaseActive && !o.leaseExpired)
    && (blocked ==> t == s) && (!blocked ==> !t.leaseActive)
  }

  lemma LeaseBlocksMeans(s: State, o: Oracle)
    requires Coherent(s)
    ensures var r := LeaseBlocks(s, o); Blocked(s, o, r.state, r.ok)
  {
    ReclaimMeans(s, o);
  }

  /** A grant goes to one session, over an idle or queued engine, and takes 2D off the hardware. */
  ghost predicate Granted(s: State, session: Session, o: Oracle, t: State, ok: bool) {
    && Coherent(t)
    && (!Usable(s, session) || s.leaseActive ==> !ok && t == s)
    && (Usable(s, session) && !s.leaseActive && ((s.accel == Ready && s.pending == Queue) || Drains(s, o)) ==> ok)
    && RingKept(s, t)
    && (ok ==> !s.leaseActive && t.leaseActive && t.leaseDevice == Some(session.id) && t.cp.ready)
    && (ok ==> forall o :: !PrepareMmio(t, o).ok)
    && (!ok ==> t.leaseDevice == s.leaseDevice)
    && (ok && Apart(s, false) && Bounded(s.card) ==> !t.card.hazard && !t.card.hostEndian && !t.card.mmioBusy)
  }

  lemma AcquireMeans(s: State, session: Session, o: Oracle)
    requires Coherent(s)
    ensures var r := AcquireLease(s, session, o); Granted(s, session, o, r.state, r.ok)
  {
    AcquireCoherent(s, session, o);
    if Usable(s, session) && !s.leaseActive {
      PreparedRing(s, o);
      DrainsPrepare(s, o);
      if AcquireLease(s, session, o).ok && Apart(s, false) && Bounded(s.card) { AcquireApart(s, session, o); }
    }
  }

  lemma DrainsPrepare(s: State, o: Oracle)
    ensures Drains(s, o) && s.cp.ready ==> Prepare3D(s, o).ok && Prepare3D(s, o).state.cp.ready
  {
    if Drains(s, o) {
      DrainMeans(s, o);
      DrainWaited(s, o);
    }
  }

  lemma AcquireApart(s: State, session: Session, o: Oracle)
    requires Coherent(s) && Apart(s, false) && Bounded(s.card) && AcquireLease(s, session, o).ok
    ensures var c := AcquireLease(s, session, o).state.card; !c.hazard && !c.hostEndian && !c.mmioBusy
  {
    var prepared := Prepare3D(s, o).state;
    Prepare3DMeans(s, o);
    GuardsHold(prepared);
  }

  /** The session's last fence has been waited for: it is retired, or a recovery has put every session out. */
  ghost predicate LastFenceRetired(s: State, lastFence: u32, o: Oracle, t: State, ok: bool) {
    && (ok ==> t.card.log == s.card.log && t.card.epoch == s.card.epoch && s.card.done <= t.card.done)
    && (ok && lastFence != 0 ==> FenceReached(t.card.scratch, lastFence))
    && (ok && lastFence != 0 && RingInv(s.card) && Bounded(s.card) ==> Retired(t.card, lastFence))
    && (lastFence == 0 ==> ok && t.card == s.card)
    && (o.waitOk && FenceReached(Runs(s.card, o.runs).scratch, lastFence) ==> ok)
    && (!ok ==> t.card.Drained() && (t.cp.ready ==> t.card.epoch == s.card.epoch + 1))
    && (!ok ==> forall session :: Usable(s, session) ==> !Usable(t, session))
  }

  lemma RetireMeans(s: State, lastFence: u32, o: Oracle, recovery: Oracle)
    requires Coherent(s) && s.cp.ready
    ensures var waited := if lastFence == 0 then Outcome(s, true) else WaitFence(s, lastFence, o);
      LastFenceRetired(s, lastFence, o, RetireSession(s, lastFence, o, recovery), waited.ok)
  {
    if lastFence != 0 {
      RunsOnly(s.card, o.runs);
      var waited := WaitFence(s, lastFence, o);
      if waited.ok {
        if RingInv(s.card) && Bounded(s.card) {
          RunsKeeps(s.card, o.runs);
          ReachedMeans(waited.state.card, lastFence);
        }
      } else {
        RecoverPutsOut(waited.state, recovery);
      }
    }
  }

  /** A recovery with a processor at work: nothing is queued any more, and whoever was served is not. */
  lemma RecoverPutsOut(s: State, recovery: Oracle)
    requires Coherent(s) && s.cp.ready
    ensures var t := RecoverEngine(s, recovery).state;
      && t.card.Drained() && (t.cp.ready ==> t.card.epoch == s.card.epoch + 1)
      && forall session :: Usable(s, session) ==> !Usable(t, session)
  {
    NextGeneration(s.advances);
  }

  /** The session is usable and holds the lease. */
  ghost predicate Holds(s: State, session: Session) {
    Usable(s, session) && s.leaseActive && s.leaseDevice == Some(session.id)
  }

  /**
   Only its holder ends a lease.  It succeeds when the holder's last fence is retired,
   and then 2D is back on the hardware; otherwise a recovery has run.  Either way the
   next 2D operation has to restore the baseline, and the driver's next fence is one
   ahead of the holder's last.
   */
  ghost predicate Released(s: State, session: Session, lastFence: u32, o: Oracle, t: State, ok: bool) {
    && Coherent(t)
    && (!Usable(s, session) ==> !ok && t == s)
    && (s.leaseActive && s.leaseDevice != Some(session.id) ==> t == s)
    && (Holds(s, session) ==>
          && !t.leaseActive && t.need2DRestore && t.pending == Queue && (t.accel == Ready ==> HandedOver(t))
          && LastFenceRetired(s, lastFence, o, t, ok)
          && (if ok then t.accel == Ready else t.accel == Ready ==> t.cp.ready)
          && t.cp.pendingFence == 0 && t.cp.pendingUnfenced == 0
          && (lastFence != 0 ==> NextSequence(t.cp.nextFence) == SkipZero(lastFence + 1)))
  }

  lemma ReleaseMeans(s: State, session: Session, lastFence: u32, o: Oracle, recovery: Oracle)
    requires Coherent(s)
    ensures var r := ReleaseLease(s, session, lastFence, o, recovery);
      Released(s, session, lastFence, o, r.state, r.ok)
  {
    ReleaseCoherent(s, session, lastFence, o, recovery);
    if Holds(s, session) {
      RetireMeans(s, lastFence, o, recovery);
      AdoptMeans(RetireSession(s, lastFence, o, recovery), lastFence);
    }
  }

  /**
   After a successful release the next 2D preparation misuses the card exactly when the
   holder has left something incomplete behind its last fence: the driver counts
   nothing as queued any more.
   */
  lemma DrainAfterReleaseExactly(s: State, session: Session, lastFence: u32, o: Oracle, recovery: Oracle, next: Oracle)
    requires Coherent(s) && Holds(s, session) && !s.card.hazard && s.accel == Fallback
    requires ReleaseLease(s, session, lastFence, o, recovery).ok
    ensures var released := ReleaseLease(s, session, lastFence, o, recovery).state;
      var prepared := PrepareMmio(released, next);
      prepared.ok && (prepared.state.card.hazard <==> !released.card.Drained())
  {
    ReleaseMeans(s, session, lastFence, o, recovery);
    HazardFree(s.card, o.runs);
  }

  lemma HazardFree(c: Card, count: nat)
    ensures Runs(c, count).hazard == c.hazard
    decreases count
  {
    if count > 0 && !c.Drained() { HazardFree(Complete(c), count - 1); }
  }

  /** Such a release: under the lease of `Leased` the holder queues a fetch without a fence and reports none. */
  lemma UnfencedRelease()
    ensures var left := Step(Step(Leased, CardRuns(2)), HolderWrites([Work(true)], 1));
      var released := ReleaseLease(left, Holder, 0, Good, Good);
      released.ok && PrepareMmio(released.state, Good).ok && PrepareMmio(released.state, Good).state.card.hazard
  {
    var ran := Complete(Complete(Leased.card));
    assert Runs(Leased.card, 2) == ran by {
      assert Runs(Complete(Leased.card), 1) == ran;
    }
    var left := Step(Step(Leased, CardRuns(2)), HolderWrites([Work(true)], 1));
    assert left.card.done == 2 && left.card.log == [Work(false), Fence(1), Work(true)];
    DrainAfterReleaseExactly(left, Holder, 0, Good, Good, Good);
  }

  /**
   A session that closes or releases a surface has had its last fence retired, or a
   recovery has put it out.  A holder that closes ends its lease, over an idle card if
   the card answers.
   */
  ghost predicate Closed(s: State, session: Session, lastFence: u32, o: Oracle, t: State) {
    && Coherent(t)
    && (!Usable(s, session) ==> t == s)
    && (Holds(s, session) ==>
          && !t.leaseActive && t.need2DRestore && t.pending == Queue
          && t.cp.pendingFence == 0 && t.cp.pendingUnfenced == 0
          && (t.cp.ready ==> t.cp.nextFence == if t.card.epoch == s.card.epoch then s.cp.nextFence else 1))
    && (Usable(s, session) && !Holds(s, session) ==> t.leaseDevice == s.leaseDevice)
    && (Holds(s, session) && t.cp.ready && o.idleOk ==> t.card.Drained() && !t.card.mmioBusy)
    && (Usable(s, session) && !(Holds(s, session) && t.cp.ready && o.idleOk) ==>
          exists ok :: LastFenceRetired(s, lastFence, o, t, ok))
  }

  lemma RetireNumbers(s: State, lastFence: u32, o: Oracle, recovery: Oracle)
    requires Coherent(s) && s.cp.ready
    ensures var t := RetireSession(s, lastFence, o, recovery);
      t.cp.ready ==> t.cp.nextFence == if t.card.epoch == s.card.epoch then s.cp.nextFence else 1
  {
    RunsOnly(s.card, o.runs);
  }

  lemma CloseMeans(s: State, session: Session, lastFence: u32, o: Oracle, recovery: Oracle)
    requires Coherent(s)
    ensures Closed(s, session, lastFence, o, CloseSession(s, session, lastFence, o, recovery))
  {
    if Usable(s, session) {
      var retired := RetireSession(s, lastFence, o, recovery);
      var waited := if lastFence == 0 then Outcome(s, true) else WaitFence(s, lastFence, o);
      RetireCoherent(s, lastFence, o, recovery);
      RetireMeans(s, lastFence, o, recovery);
      RetireNumbers(s, lastFence, o, recovery);
      if s.leaseActive { RetireHolds(s, lastFence, o, recovery); }
      EndsOverIdle(retired, o);
      var closed := CloseSession(s, session, lastFence, o, recovery);
      if !(Holds(s, session) && closed.cp.ready && o.idleOk) {
        SameRetired(s, lastFence, o, retired, closed, waited.ok);
      }
    }
  }

  /** The holder's half of closing. */
  lemma EndsOverIdle(s: State, o: Oracle)
    ensures var idle := if s.cp.ready && o.idleOk then s.(card := Idle(s.card)) else s;
      && idle.card.epoch == s.card.epoch && idle.cp == s.cp
      && (s.cp.ready && o.idleOk ==> idle.card.Drained() && !idle.card.mmioBusy)
      && (!(s.cp.ready && o.idleOk) ==> idle.card == s.card)
  {
    IdleMeans(s.card);
    RunsOnly(s.card, |s.card.log|);
  }

  /** What is said of the wait does not depend on the lease, on what is pending or on the numbering. */
  lemma SameRetired(s: State, lastFence: u32, o: Oracle, t: State, u: State, ok: bool)
    requires LastFenceRetired(s, lastFence, o, t, ok)
    requires u.card == t.card && u.cp.ready == t.cp.ready && u.service == t.service && u.advances == t.advances
    ensures LastFenceRetired(s, lastFence, o, u, ok)
  {
    assert forall session :: Usable(u, session) <==> Usable(t, session);
  }

  ghost predicate SurfaceReleased(s: State, session: Session, lastFence: u32, o: Oracle, t: State) {
    && Coherent(t)
    && (!Usable(s, session) ==> t == s)
    && (Usable(s, session) ==>
          t.leaseDevice == s.leaseDevice && exists ok :: LastFenceRetired(s, lastFence, o, t, ok))
  }

  lemma SurfaceMeans(s: State, session: Session, lastFence: u32, o: Oracle, recovery: Oracle)
    requires Coherent(s)
    ensures SurfaceReleased(s, session, lastFence, o, ReleaseSurface(s, session, lastFence, o, recovery))
  {
    if Usable(s, session) {
      var waited := if lastFence == 0 then Outcome(s, true) else WaitFence(s, lastFence, o);
      RetireCoherent(s, lastFence, o, recovery);
      RetireMeans(s, lastFence, o, recovery);
      if s.leaseActive { RetireHolds(s, lastFence, o, recovery); } else { RetireGrantsNone(s, lastFence, o, recovery); }
      assert LastFenceRetired(s, lastFence, o, RetireSession(s, lastFence, o, recovery), waited.ok);
    }
  }

  lemma RetireGrantsNone(s: State, lastFence: u32, o: Oracle, recovery: Oracle)
    requires Coherent(s)
    ensures RetireSession(s, lastFence, o, recovery).leaseDevice == s.leaseDevice
  {
    RecoverCoherent(WaitFence(s, lastFence, o).state, recovery);
  }

  // ------------------------------------------------------------ fences of a session

  /** A session may ask for its fences up to the newest it remembers, as long as fewer than 2^31 lie between. */
  lemma OwnFencesExactly(newest: nat, serial: nat)
    requires 1 <= newest && 1 <= serial && newest <= serial + 0x7fff_fffe && serial <= newest + 0x7fff_fffe
    ensures IsSessionFence(SkipZero(newest), SkipZero(serial)) <==> serial <= newest
  {
    if serial <= newest {
      SkipZeroGap(serial, newest);
    } else {
      SkipZeroGap(newest, serial);
    }
  }

  /** The service's own test and wait: refused without effect, or the answer of the board. */
  lemma SessionFenceMeans(s: State, session: Session, lastFence: u32, fence: u32, o: Oracle)
    ensures var r := SessionFence(s, session, lastFence, fence, o);
      if Usable(s, session) && IsSessionFence(lastFence, fence) then Tested(s, fence, o, r.state, r.ok)
      else r == Outcome(s, false)
  {
    WaitFenceMeans(s, fence, o);
  }

  // ------------------------------------------------------------ detaching

  /** From the first half of the release on no session of this attachment is served, now or ever. */
  lemma BeginReleaseMeans(s: State)
    ensures var t := BeginRelease(s);
      && t.card == s.card && t.service in {Empty, Detaching}
      && t.advances == s.advances + (if s.service in {Empty, Detaching} then 0 else 1)
      && (forall session :: !Usable(t, session))
      && (forall session :: Usable(s, session) ==> session.generation != t.Generation())
  {
    NextGeneration(s.advances);
  }

  /** The second half leaves nothing behind: no processor, no work, nothing pending. */
  lemma FinishReleaseMeans(s: State, o: Oracle)
    requires s.service == Detaching
    ensures var t := FinishRelease(s, o);
      && t.service == Empty && t.accel == Off && t.pending == Nothing && !t.need2DRestore
      && t.cp == Cp(false, false, t.cp.nextFence, 0, 0)
      && t.card.log == [] && t.card.Drained() && !t.card.mmioBusy
      && (s.pending == Nothing ==> (t.card.hazard <==> s.card.hazard || !s.card.Drained()))
  {
  }

  /** Without an attachment in between, a board that is being released stays out of service. */
  ghost predicate Outside(s: State) { s.service in {Empty, Detaching} }

  lemma RecoverStaysOutside(s: State, o: Oracle)
    requires Outside(s)
    ensures Outside(RecoverEngine(s, o).state)
  {
  }

  lemma SynchronizeStaysOutside(s: State, o: Oracle)
    requires Outside(s)
    ensures Outside(SynchronizeEngine(s, o).state)
  {
    if s.pending != Nothing {
      assert Outside(DrainPending(s, o).state);
      RecoverStaysOutside(DrainPending(s, o).state, o);
    }
  }

  lemma BlocksStaysOutside(s: State, o: Oracle)
    requires Outside(s)
    ensures Outside(LeaseBlocks(s, o).state) && Outside(ReclaimLease(s, o))
  {
    if s.leaseActive { RecoverStaysOutside(AdoptFence(EndLease(s), 0), o); }
  }

  lemma SoftwareStaysOutside(s: State, o: Oracle)
    requires Outside(s)
    ensures Outside(SoftwareFallback(s, o)) && Outside(PrepareMmio(s, o).state)
  {
    BlocksStaysOutside(s, o);
    SynchronizeStaysOutside(LeaseBlocks(s, o).state, o);
  }

  lemma DrawStaysOutside(s: State, passes: seq<Oracle>, recovery: Oracle)
    requires Outside(s)
    ensures Outside(Draw(s, passes, recovery))
  {
    if s.accel != Ready {
      SoftwareStaysOutside(s, recovery);
    } else {
      PassesStayOutside(s, passes);
      RecoverStaysOutside(DrawPasses(s, passes).state, recovery);
    }
  }

  /** Nobody is served, so the service calls do nothing; the rest waits, draws and recovers. */
  lemma StepStaysOutside(s: State, e: Event)
    requires Outside(s) && !e.AttachEvent?
    ensures Outside(Step(s, e))
  {
    match e
    case DrawEvent(passes, recovery) => DrawStaysOutside(s, passes, recovery);
    case DrainEvent(o) => SoftwareStaysOutside(s, o);
    case ReclaimEvent(o) => BlocksStaysOutside(s, o);
    case FinishReleaseEvent(o) =>
    case SubmitEvent(session, _, _, _) => assert !Usable(s, session);
    case SurfaceEvent(session, _, _, _) => assert !Usable(s, session);
    case CloseEvent(session, _, _, _) => assert !Usable(s, session);
    case AcquireEvent(session, _) => assert !Usable(s, session);
    case ReleaseEvent(session, _, _, _) => assert !Usable(s, session);
    case FenceEvent(session, _, _, _) => assert !Usable(s, session);
    case BeginReleaseEvent =>
    case CardRuns(_) =>
    case CardIdles =>
    case HolderWrites(_, _) =>
  }

  lemma {:induction false} PassesStayOutside(s: State, passes: seq<Oracle>)
    requires Outside(s)
    ensures Outside(DrawPasses(s, passes).state)
    decreases |passes|
  {
    if |passes| > 0 {
      SoftwareStaysOutside(s, passes[0]);
      var prepared := PrepareMmio(s, passes[0]);
      if prepared.ok && passes[0].passOk {
        PassesStayOutside(prepared.state.(card := DrawMmio(prepared.state.card)), passes[1..]);
      }
    }
  }

  /** From the moment a release begins no run serves any session, until the next attachment. */
  lemma {:induction false} ReleasedForGood(s: State, events: seq<Event>, session: Session)
    requires forall i :: 0 <= i < |events| ==> !events[i].AttachEvent?
    ensures Outside(Run(Step(s, BeginReleaseEvent), events))
    ensures !Usable(Run(Step(s, BeginReleaseEvent), events), session)
    decreases |events|
  {
    if |events| > 0 {
      ReleasedForGood(s, events[..|events| - 1], session);
      StepStaysOutside(Run(Step(s, BeginReleaseEvent), events[..|events| - 1]), events[|events| - 1]);
    }
  }
}
