/**
 The exclusive lease and the unsafe state over every run, leases included.
 */
module BoardLease {
  import opened Words
  import opened Board

  /** A lease is active exactly when it has a holder; only a working engine has a processor. */
  ghost predicate Coherent(s: State) {
    && (s.leaseActive <==> s.leaseDevice.Some?)
    && (s.accel == Unsafe ==> !s.cp.ready && s.recoveryTried)
    && (s.cp.ready ==> s.cp.present && !s.recoveryTried && (s.accel == Ready || s.accel == Fallback))
  }

  /** One entry point: coherence is kept, and only detaching leaves the unsafe state. */
  ghost predicate Advances(s: State, t: State) {
    Coherent(t) && (s.accel == Unsafe ==> t.accel == Unsafe)
  }

  lemma RecoverCoherent(s: State, o: Oracle)
    requires Coherent(s)
    ensures Advances(s, RecoverEngine(s, o).state)
    ensures RecoverEngine(s, o).state.leaseDevice == s.leaseDevice
  {
  }

  lemma SynchronizeCoherent(s: State, o: Oracle)
    requires Coherent(s)
    ensures Advances(s, SynchronizeEngine(s, o).state)
    ensures SynchronizeEngine(s, o).state.leaseDevice == s.leaseDevice
  {
    var drained := DrainPending(s, o).state;
    assert Coherent(drained) && drained.accel == s.accel && drained.leaseDevice == s.leaseDevice;
    RecoverCoherent(drained, o);
  }

  lemma ReclaimCoherent(s: State, o: Oracle)
    requires Coherent(s)
    ensures Advances(s, ReclaimLease(s, o))
  {
    if s.leaseActive { RecoverCoherent(AdoptFence(EndLease(s), 0), o); }
  }

  lemma LeaseBlocksCoherent(s: State, o: Oracle)
    requires Coherent(s)
    ensures Advances(s, LeaseBlocks(s, o).state)
  {
    ReclaimCoherent(s, o);
  }

  lemma SoftwareCoherent(s: State, o: Oracle)
    requires Coherent(s)
    ensures Advances(s, SoftwareFallback(s, o))
  {
    LeaseBlocksCoherent(s, o);
    SynchronizeCoherent(LeaseBlocks(s, o).state, o);
  }

  lemma DrawPassesCoherent(s: State, passes: seq<Oracle>)
    requires Coherent(s)
    ensures Coherent(DrawPasses(s, passes).state)
    decreases |passes|
  {
    if |passes| > 0 {
      LeaseBlocksCoherent(s, passes[0]);
      SynchronizeCoherent(LeaseBlocks(s, passes[0]).state, passes[0]);
      var prepared := PrepareMmio(s, passes[0]);
      assert Coherent(prepared.state);
      if prepared.ok && passes[0].passOk {
        DrawPassesCoherent(prepared.state.(card := DrawMmio(prepared.state.card)), passes[1..]);
      }
    }
  }

  lemma DrawCoherent(s: State, passes: seq<Oracle>, recovery: Oracle)
    requires Coherent(s)
    ensures Advances(s, Draw(s, passes, recovery))
  {
    if s.accel != Ready {
      SoftwareCoherent(s, recovery);
    } else {
      DrawPassesCoherent(s, passes);
      RecoverCoherent(DrawPasses(s, passes).state, recovery);
    }
  }

  lemma SubmitCoherent(s: State, session: Session, kind: Submission, o: Oracle, recovery: Oracle)
    requires Coherent(s)
    ensures Advances(s, Submit(s, session, kind, o, recovery).state)
  {
    if Usable(s, session) && !s.leaseActive {
      SynchronizeCoherent(s, o);
      PreparedCoherent(s, Prepare3D(s, o), session, kind, o, recovery);
    }
  }

  lemma PreparedCoherent(s: State, prepared: Outcome, session: Session, kind: Submission,
                         o: Oracle, recovery: Oracle)
    requires Coherent(prepared.state)
    ensures Coherent(SubmitPrepared(s, prepared, session, kind, o, recovery).state)
  {
    var guarded := if kind.Batch? then prepared.state else FetchGuard(prepared.state);
    var submitted := SubmitStream(guarded, kind.Dispatch?, kind.Fenced(), o);
    assert Coherent(submitted.state);
    RecoverCoherent(submitted.state, recovery);
  }

  lemma RetireCoherent(s: State, lastFence: u32, o: Oracle, recovery: Oracle)
    requires Coherent(s)
    ensures Advances(s, RetireSession(s, lastFence, o, recovery))
  {
    var waited := WaitFence(s, lastFence, o).state;
    assert Coherent(waited) && waited.accel == s.accel;
    RecoverCoherent(waited, recovery);
  }

  lemma ReleaseCoherent(s: State, session: Session, lastFence: u32, o: Oracle, recovery: Oracle)
    requires Coherent(s)
    ensures Advances(s, ReleaseLease(s, session, lastFence, o, recovery).state)
  {
    var waited := if lastFence == 0 then Outcome(s, true) else WaitFence(s, lastFence, o);
    assert Coherent(waited.state) && waited.state.accel == s.accel;
    RecoverCoherent(waited.state, recovery);
  }

  lemma AcquireCoherent(s: State, session: Session, o: Oracle)
    requires Coherent(s)
    ensures Advances(s, AcquireLease(s, session, o).state)
  {
    SynchronizeCoherent(s, o);
  }

  lemma StepCoherent(s: State, e: Event)
    requires Coherent(s)
    ensures Coherent(Step(s, e))
    ensures !e.FinishReleaseEvent? && !e.AttachEvent? ==> Advances(s, Step(s, e))
  {
    match e
    case CardRuns(count) =>
    case CardIdles =>
    case DrawEvent(passes, recovery) => DrawCoherent(s, passes, recovery);
    case DrainEvent(o) => SoftwareCoherent(s, o);
    case SubmitEvent(session, kind, o, recovery) => SubmitCoherent(s, session, kind, o, recovery);
    case FenceEvent(session, lastFence, fence, o) =>
    case AcquireEvent(session, o) => AcquireCoherent(s, session, o);
    case ReleaseEvent(session, lastFence, o, recovery) => ReleaseCoherent(s, session, lastFence, o, recovery);
    case ReclaimEvent(o) => ReclaimCoherent(s, o);
    case HolderWrites(entries, scratch) =>
    case SurfaceEvent(session, lastFence, o, recovery) => RetireCoherent(s, lastFence, o, recovery);
    case CloseEvent(session, lastFence, o, recovery) => RetireCoherent(s, lastFence, o, recovery);
    case BeginReleaseEvent =>
    case FinishReleaseEvent(o) => SynchronizeCoherent(s, o);
    case AttachEvent(o) =>
  }

  /** Over every run: a lease has a holder, and an unsafe engine never has a ready processor. */
  lemma {:induction false} RunCoherent(s: State, events: seq<Event>)
    requires Coherent(s)
    ensures Coherent(Run(s, events))
    decreases |events|
  {
    if |events| > 0 {
      RunCoherent(s, events[..|events| - 1]);
      StepCoherent(Run(s, events[..|events| - 1]), events[|events| - 1]);
    }
  }

  lemma ReachableCoherent(events: seq<Event>)
    ensures Coherent(Run(Initial, events))
  {
    RunCoherent(Initial, events);
  }

  ghost predicate Undetached(events: seq<Event>) {
    forall i :: 0 <= i < |events| ==> !events[i].FinishReleaseEvent? && !events[i].AttachEvent?
  }

  /** Until the board is detached nothing - no grant, release, close or recovery - leaves the unsafe state. */
  lemma {:induction false} UnsafeAbsorbing(s: State, events: seq<Event>)
    requires Coherent(s) && s.accel == Unsafe && Undetached(events)
    ensures Run(s, events).accel == Unsafe && !Run(s, events).cp.ready
    decreases |events|
  {
    if |events| > 0 {
      var earlier := events[..|events| - 1];
      UnsafeAbsorbing(s, earlier);
      RunCoherent(s, earlier);
      StepCoherent(Run(s, earlier), events[|events| - 1]);
    }
  }

  /** From power-up, leases included: once unsafe, unsafe until the board is detached. */
  lemma UnsafeFromPowerUp(before: seq<Event>, events: seq<Event>)
    requires Run(Initial, before).accel == Unsafe && Undetached(events)
    ensures Run(Run(Initial, before), events).accel == Unsafe && !Run(Run(Initial, before), events).cp.ready
  {
    ReachableCoherent(before);
    UnsafeAbsorbing(Run(Initial, before), events);
  }

  /**
   While a lease is active, no service call of any session submits, prepares or
   grants: the call fails and neither ring nor counters move.
   */
  lemma LeaseExcludesSubmission(s: State, session: Session, kind: Submission, o: Oracle, recovery: Oracle)
    requires s.leaseActive
    ensures !Submit(s, session, kind, o, recovery).ok
    ensures Submit(s, session, kind, o, recovery).state == s
    ensures !AcquireLease(s, session, o).ok && AcquireLease(s, session, o).state == s
    ensures !o.leaseExpired ==> SoftwareFallback(s, o) == s && !PrepareMmio(s, o).ok
    ensures !o.leaseExpired && s.accel != Ready ==> Draw(s, [o], o) == s
  {
  }

  // ------------------------------------------------------------ a ring under a lease

  /** What the holder itself has put on the ring. */
  function Written(events: seq<Event>): seq<Entry>
    decreases |events|
  {
    if |events| == 0 then []
    else
      var last := events[|events| - 1];
      Written(events[..|events| - 1]) + (if last.HolderWrites? then last.entries else [])
  }

  /**
   As long as the ring is the same and its processor still runs, the queue has grown
   by the given entries only and the fence counter stands still.
   */
  ghost predicate Untouched(s: State, t: State, entries: seq<Entry>) {
    && s.card.epoch <= t.card.epoch
    && (t.cp.ready && t.card.epoch == s.card.epoch ==>
          s.cp.ready && t.cp.nextFence == s.cp.nextFence && t.card.log == s.card.log + entries)
  }

  lemma UntouchedTransitive(s: State, t: State, u: State, first: seq<Entry>, second: seq<Entry>)
    requires Untouched(s, t, first) && Untouched(t, u, second)
    ensures Untouched(s, u, first + second)
  {
    assert s.card.log + first + second == s.card.log + (first + second);
  }

  lemma RunsUntouched(c: Card, count: nat)
    ensures Runs(c, count).log == c.log && Runs(c, count).epoch == c.epoch
    decreases count
  {
    if count > 0 && !c.Drained() { RunsUntouched(Complete(c), count - 1); }
  }

  lemma RecoverUntouched(s: State, o: Oracle)
    requires Coherent(s)
    ensures Untouched(s, RecoverEngine(s, o).state, [])
  {
    assert s.card.log + [] == s.card.log;
  }

  /** Waiting leaves queue, ring and fence counter alone. */
  ghost predicate Waited(s: State, t: State) {
    && t.card.log == s.card.log && t.card.epoch == s.card.epoch
    && t.cp.nextFence == s.cp.nextFence && t.cp.ready == s.cp.ready && t.cp.present == s.cp.present
    && t.accel == s.accel && t.recoveryTried == s.recoveryTried
    && t.leaseActive == s.leaseActive && t.leaseDevice == s.leaseDevice
  }

  lemma CpWaited(s: State, o: Oracle)
    ensures Waited(s, CpWait(s, o).state) && Waited(s, CpWaitDrained(s, o).state)
  {
    RunsUntouched(s.card, o.runs);
    RunsUntouched(s.card, |s.card.log|);
  }

  lemma DrainUntouched(s: State, o: Oracle)
    requires Coherent(s)
    ensures Coherent(DrainPending(s, o).state) && Untouched(s, DrainPending(s, o).state, [])
  {
    assert s.card.log + [] == s.card.log;
    if s.pending == Queue {
      CpWaited(s, o);
      CpWaited(CpWait(s, o).state, o);
    } else {
      RunsUntouched(s.card, |s.card.log|);
    }
    assert Waited(s, DrainPending(s, o).state);
  }

  lemma SynchronizeUntouched(s: State, o: Oracle)
    requires Coherent(s)
    ensures Untouched(s, SynchronizeEngine(s, o).state, [])
  {
    var drained := DrainPending(s, o).state;
    DrainUntouched(s, o);
    RecoverUntouched(drained, o);
    UntouchedTransitive(s, drained, RecoverEngine(drained, o).state, [], []);
  }

  /** Draining and drawing grant no lease. */
  lemma SynchronizeGrantsNone(s: State, o: Oracle)
    requires Coherent(s) && !s.leaseActive
    ensures !SynchronizeEngine(s, o).state.leaseActive
  {
    SynchronizeCoherent(s, o);
  }

  lemma DrawPassesGrantNone(s: State, passes: seq<Oracle>)
    requires Coherent(s) && !s.leaseActive
    ensures !DrawPasses(s, passes).state.leaseActive
    decreases |passes|
  {
    if |passes| > 0 {
      SynchronizeCoherent(s, passes[0]);
      var prepared := PrepareMmio(s, passes[0]);
      assert Coherent(prepared.state) && !prepared.state.leaseActive;
      if prepared.ok && passes[0].passOk {
        DrawPassesGrantNone(prepared.state.(card := DrawMmio(prepared.state.card)), passes[1..]);
      }
    }
  }

  lemma ReclaimEnds(s: State, o: Oracle)
    requires Coherent(s)
    ensures Coherent(ReclaimLease(s, o)) && !ReclaimLease(s, o).leaseActive
  {
    if s.leaseActive { RecoverCoherent(AdoptFence(EndLease(s), 0), o); }
  }

  /** Passes that do not end the lease have done nothing. */
  lemma DrawPassesUnderLease(s: State, passes: seq<Oracle>)
    requires Coherent(s) && s.leaseActive && DrawPasses(s, passes).state.leaseActive
    ensures DrawPasses(s, passes).state == s
  {
    if |passes| > 0 && s.accel == Ready && passes[0].leaseExpired {
      ReclaimEnds(s, passes[0]);
      var reclaimed := ReclaimLease(s, passes[0]);
      SynchronizeCoherent(reclaimed, passes[0]);
      var prepared := PrepareMmio(s, passes[0]);
      assert Coherent(prepared.state) && !prepared.state.leaseActive;
      if prepared.ok {
        DrawPassesGrantNone(prepared.state.(card := DrawMmio(prepared.state.card)), passes[1..]);
      }
      assert false;
    }
  }

  lemma DrawUntouched(s: State, passes: seq<Oracle>, recovery: Oracle)
    requires Coherent(s) && s.leaseActive && Draw(s, passes, recovery).leaseActive
    ensures Untouched(s, Draw(s, passes, recovery), [])
  {
    if s.accel != Ready {
      SoftwareUntouched(s, recovery);
    } else {
      DrawPassesCoherent(s, passes);
      var drawn := DrawPasses(s, passes).state;
      RecoverCoherent(drawn, recovery);
      DrawPassesUnderLease(s, passes);
      RecoverUntouched(s, recovery);
      assert s.card.log + [] == s.card.log;
    }
  }

  lemma SoftwareUntouched(s: State, o: Oracle)
    requires Coherent(s) && s.leaseActive && SoftwareFallback(s, o).leaseActive
    ensures Untouched(s, SoftwareFallback(s, o), [])
  {
    if o.leaseExpired {
      ReclaimEnds(s, o);
      SynchronizeGrantsNone(ReclaimLease(s, o), o);
      assert false;
    }
    assert s.card.log + [] == s.card.log;
  }

  lemma RetireUntouched(s: State, lastFence: u32, o: Oracle, recovery: Oracle)
    requires Coherent(s)
    ensures Untouched(s, RetireSession(s, lastFence, o, recovery), [])
  {
    assert s.card.log + [] == s.card.log;
    RunsUntouched(s.card, o.runs);
    var waited := WaitFence(s, lastFence, o).state;
    assert Coherent(waited) && Untouched(s, waited, []);
    RecoverUntouched(waited, recovery);
    UntouchedTransitive(s, waited, RecoverEngine(waited, recovery).state, [], []);
  }

  lemma CloseUntouched(s: State, session: Session, lastFence: u32, o: Oracle, recovery: Oracle)
    requires Coherent(s) && s.leaseActive && CloseSession(s, session, lastFence, o, recovery).leaseActive
    ensures Untouched(s, CloseSession(s, session, lastFence, o, recovery), [])
  {
    RetireUntouched(s, lastFence, o, recovery);
    RetireHolds(s, lastFence, o, recovery);
    assert s.card.log + [] == s.card.log;
  }

  /** Nothing on the ring has moved. */
  lemma UnmovedUntouched(s: State, t: State)
    requires t.card.log == s.card.log && t.card.epoch == s.card.epoch
    requires t.cp.ready == s.cp.ready && t.cp.nextFence == s.cp.nextFence
    ensures Untouched(s, t, [])
  {
    assert s.card.log + [] == s.card.log;
  }

  lemma ReleaseUntouched(s: State, session: Session, lastFence: u32, o: Oracle, recovery: Oracle)
    requires s.leaseActive && ReleaseLease(s, session, lastFence, o, recovery).state.leaseActive
    ensures ReleaseLease(s, session, lastFence, o, recovery).state == s
  {
  }

  lemma DetachUntouched(s: State, o: Oracle)
    requires Coherent(s)
    ensures Untouched(s, FinishRelease(s, o), []) && Untouched(s, Attach(s, o), [])
  {
    UnmovedUntouched(s, s);
    SynchronizeUntouched(s, o);
  }

  lemma StepUntouched(s: State, e: Event)
    requires Coherent(s) && s.leaseActive && Step(s, e).leaseActive
    ensures Untouched(s, Step(s, e), if e.HolderWrites? then e.entries else [])
  {
    match e
    case CardRuns(count) =>
      RunsUntouched(s.card, count);
      UnmovedUntouched(s, Step(s, e));
    case CardIdles => UnmovedUntouched(s, Step(s, e));
    case DrawEvent(passes, recovery) => DrawUntouched(s, passes, recovery);
    case DrainEvent(o) => SoftwareUntouched(s, o);
    case SubmitEvent(session, kind, o, recovery) =>
      LeaseExcludesSubmission(s, session, kind, o, recovery);
      UnmovedUntouched(s, s);
    case FenceEvent(session, lastFence, fence, o) =>
      RunsUntouched(s.card, o.runs);
      UnmovedUntouched(s, Step(s, e));
    case AcquireEvent(session, o) => UnmovedUntouched(s, s);
    case ReleaseEvent(session, lastFence, o, recovery) =>
      ReleaseUntouched(s, session, lastFence, o, recovery);
      UnmovedUntouched(s, s);
    case ReclaimEvent(o) => ReclaimEnds(s, o); assert false;
    case HolderWrites(entries, scratch) =>
    case SurfaceEvent(session, lastFence, o, recovery) => RetireUntouched(s, lastFence, o, recovery);
    case CloseEvent(session, lastFence, o, recovery) => CloseUntouched(s, session, lastFence, o, recovery);
    case BeginReleaseEvent => UnmovedUntouched(s, Step(s, e));
    case FinishReleaseEvent(o) => DetachUntouched(s, o);
    case AttachEvent(o) => DetachUntouched(s, o);
  }

  /** The lease is live before and after every event. */
  ghost predicate LeasedThroughout(s: State, events: seq<Event>)
    decreases |events|
  {
    Run(s, events).leaseActive && (|events| == 0 || LeasedThroughout(s, events[..|events| - 1]))
  }

  /**
   Over every run under one lease: as long as the ring is not restarted, the queue has
   grown by exactly what the holder wrote, and no sequence number has been taken.
   */
  lemma {:induction false} LeaseOwnsRing(s: State, events: seq<Event>)
    requires Coherent(s) && LeasedThroughout(s, events)
    ensures Untouched(s, Run(s, events), Written(events))
    decreases |events|
  {
    if |events| == 0 {
      assert s.card.log + [] == s.card.log;
    } else {
      var earlier, last := events[..|events| - 1], events[|events| - 1];
      LeaseOwnsRing(s, earlier);
      RunCoherent(s, earlier);
      StepUntouched(Run(s, earlier), last);
      UntouchedTransitive(s, Run(s, earlier), Run(s, events), Written(earlier),
                          if last.HolderWrites? then last.entries else []);
    }
  }

  /** A lease ends only with its holder's release or close, or when it has expired. */
  lemma LeaseEnds(s: State, e: Event)
    requires Coherent(s) && s.leaseActive && !Step(s, e).leaseActive
    ensures match e
      case ReleaseEvent(session, _, _, _) => s.leaseDevice == Some(session.id)
      case CloseEvent(session, _, _, _) => s.leaseDevice == Some(session.id)
      case DrawEvent(passes, recovery) =>
        recovery.leaseExpired || exists i :: 0 <= i < |passes| && passes[i].leaseExpired
      case DrainEvent(o) => o.leaseExpired
      case ReclaimEvent(_) => true
      case _ => false
  {
    match e
    case DrawEvent(passes, recovery) =>
      if forall i :: 0 <= i < |passes| ==> !passes[i].leaseExpired {
        DrawPassesHold(s, passes);
        RecoverCoherent(DrawPasses(s, passes).state, recovery);
      }
    case SurfaceEvent(session, lastFence, o, recovery) => RetireHolds(s, lastFence, o, recovery);
    case CloseEvent(session, lastFence, o, recovery) => RetireHolds(s, lastFence, o, recovery);
    case FinishReleaseEvent(o) => SynchronizeCoherent(s, o);
    case _ =>
  }

  lemma DrawPassesHold(s: State, passes: seq<Oracle>)
    requires Coherent(s) && s.leaseActive
    requires forall i :: 0 <= i < |passes| ==> !passes[i].leaseExpired
    ensures DrawPasses(s, passes).state == s
  {
  }

  lemma RetireHolds(s: State, lastFence: u32, o: Oracle, recovery: Oracle)
    requires Coherent(s) && s.leaseActive
    ensures var t := RetireSession(s, lastFence, o, recovery);
      Coherent(t) && t.leaseActive && t.leaseDevice == s.leaseDevice
  {
    var waited := WaitFence(s, lastFence, o).state;
    assert Coherent(waited) && waited.leaseDevice == s.leaseDevice;
    RecoverCoherent(waited, recovery);
  }

  /** As long as the lease is live it keeps its holder. */
  lemma StepKeepsHolder(s: State, e: Event)
    requires Coherent(s) && s.leaseActive && Step(s, e).leaseActive
    ensures Step(s, e).leaseDevice == s.leaseDevice
  {
    match e
    case DrawEvent(passes, recovery) => DrawKeepsHolder(s, passes, recovery);
    case DrainEvent(o) => if o.leaseExpired { ReclaimEnds(s, o); SynchronizeGrantsNone(ReclaimLease(s, o), o); }
    case ReclaimEvent(o) => ReclaimEnds(s, o);
    case SurfaceEvent(session, lastFence, o, recovery) => RetireHolds(s, lastFence, o, recovery);
    case CloseEvent(session, lastFence, o, recovery) => RetireHolds(s, lastFence, o, recovery);
    case FinishReleaseEvent(o) => SynchronizeCoherent(s, o);
    case _ =>
  }

  lemma DrawKeepsHolder(s: State, passes: seq<Oracle>, recovery: Oracle)
    requires Coherent(s) && s.leaseActive && Draw(s, passes, recovery).leaseActive
    ensures Draw(s, passes, recovery).leaseDevice == s.leaseDevice
  {
    if s.accel != Ready {
      if recovery.leaseExpired {
        ReclaimEnds(s, recovery);
        SynchronizeGrantsNone(ReclaimLease(s, recovery), recovery);
      }
    } else {
      DrawPassesCoherent(s, passes);
      RecoverCoherent(DrawPasses(s, passes).state, recovery);
      DrawPassesUnderLease(s, passes);
    }
  }

  lemma {:induction false} RunKeepsHolder(s: State, events: seq<Event>)
    requires Coherent(s) && LeasedThroughout(s, events)
    ensures Run(s, events).leaseDevice == s.leaseDevice
    decreases |events|
  {
    if |events| > 0 {
      var earlier := events[..|events| - 1];
      RunKeepsHolder(s, earlier);
      RunCoherent(s, earlier);
      StepKeepsHolder(Run(s, earlier), events[|events| - 1]);
    }
  }

  /**
   Granting parks 2D; whatever happens under the lease, a release by a holder that is
   still usable succeeds when its last fence, if it has one, is found retired, and then
   puts 2D back on the hardware with a restore due.
   */
  lemma GrantThenRelease(s: State, session: Session, o: Oracle, events: seq<Event>, lastFence: u32,
                         release: Oracle, recovery: Oracle)
    requires Coherent(s) && AcquireLease(s, session, o).ok
    requires LeasedThroughout(AcquireLease(s, session, o).state, events)
    requires Usable(Run(AcquireLease(s, session, o).state, events), session)
    ensures var granted := AcquireLease(s, session, o).state;
      var leased := Run(granted, events);
      var released := ReleaseLease(leased, session, lastFence, release, recovery);
      && granted.accel == Fallback && granted.leaseDevice == Some(session.id)
      && (released.ok <==>
            lastFence == 0 || (release.waitOk && FenceReached(Runs(leased.card, release.runs).scratch, lastFence)))
      && (released.ok ==> released.state.accel == Ready && released.state.card.log == leased.card.log)
      && (!released.ok && released.state.cp.ready ==> released.state.card.epoch == leased.card.epoch + 1)
      && !released.state.leaseActive && released.state.need2DRestore && released.state.pending == Queue
  {
    var granted := AcquireLease(s, session, o).state;
    AcquireCoherent(s, session, o);
    RunCoherent(granted, events);
    RunKeepsHolder(granted, events);
    RunsUntouched(Run(granted, events).card, release.runs);
  }

  /** A holder that closes while usable ends its lease but leaves the 2D engine parked. */
  lemma CloseLeavesEngineParked(s: State, session: Session, o: Oracle, recovery: Oracle)
    requires Usable(s, session) && s.leaseActive && s.leaseDevice == Some(session.id) && s.accel == Fallback
    ensures var closed := CloseSession(s, session, 0, o, recovery);
      !closed.leaseActive && closed.accel == Fallback && closed.need2DRestore && closed.cp.ready
  {
  }

  /**
   Exactly when closing the holder ends its lease: while its generation is served.  A
   holder that a recovery has made stale leaves the lease as it is, and cannot release
   it either.
   */
  lemma CloseEndsExactly(s: State, session: Session, lastFence: u32, o: Oracle, recovery: Oracle)
    requires Coherent(s) && s.leaseActive && s.leaseDevice == Some(session.id)
    ensures !CloseSession(s, session, lastFence, o, recovery).leaseActive <==> Usable(s, session)
    ensures !ReleaseLease(s, session, lastFence, o, recovery).state.leaseActive <==> Usable(s, session)
    ensures !Usable(s, session) ==>
      CloseSession(s, session, lastFence, o, recovery) == s &&
        ReleaseLease(s, session, lastFence, o, recovery) == Outcome(s, false)
  {
    if Usable(s, session) { RetireHolds(s, lastFence, o, recovery); }
  }

  // ------------------------------------------------------------ a lease without a holder

  /** Two sessions of the first attachment: one leases the engine, the other has submitted a batch. */
  const Holder: Session := Session(1, 2)
  const Other: Session := Session(2, 2)

  const Batched: State := Fresh.(
    card := Fresh.card.(log := [Work(false), Fence(1)]), cp := Cp(true, true, 2, 1, 0), pending := Queue,
      need2DRestore := true)
  const Leased: State := Batched.(
    card := Batched.card.(baseline := false, hostEndian := false), accel := Fallback, leaseActive := true,
      leaseDevice := Some(1))

  /** A card that completes nothing and lets the wait run out. */
  const Hung: Oracle := Good.(runs := 0, waitOk := false)

  /** The other session releases a surface, its wait fails, and recovery starts a new generation under the lease. */
  const Abandoned: State := Leased.(
    card := Card([], 0, RING_TEST_RESIDUE, 2, false, true, true, false), cp := Cp(true, true, 1, 0, 0),
    accel := Ready, pending := Nothing, need2DRestore := false, advances := 2)

  const ORPHANED: seq<Event> := [
    AttachEvent(Good), SubmitEvent(Other, Batch, Good, Good), AcquireEvent(Holder, Good),
    SurfaceEvent(Other, 1, Hung, Good), CloseEvent(Holder, 0, Good, Good)]

  lemma RunStep(s: State, events: seq<Event>, e: Event)
    ensures Run(s, events + [e]) == Step(Run(s, events), e)
  {
    var longer := events + [e];
    assert longer[..|longer| - 1] == events;
  }

  lemma BatchedReached()
    ensures Step(Initial, AttachEvent(Good)) == Fresh
    ensures Step(Fresh, SubmitEvent(Other, Batch, Good, Good)) == Batched
  {
    assert SubmitStream(Fresh, false, true, Good).state == Batched.(pending := Nothing, need2DRestore := false);
  }

  lemma RecoveredReached()
    ensures Step(Batched, AcquireEvent(Holder, Good)) == Leased
    ensures Step(Leased, SurfaceEvent(Other, 1, Hung, Good)) == Abandoned
    ensures Step(Abandoned, CloseEvent(Holder, 0, Good, Good)) == Abandoned
  {
    assert Runs(Leased.card, 0) == Leased.card;
    assert RecoverEngine(Leased, Good).state == Abandoned;
  }

  /** Closing the holder then leaves the lease live for a session that is gone. */
  lemma OrphanedLease()
    ensures Run(Initial, ORPHANED) == Abandoned && Abandoned.leaseActive && Abandoned.leaseDevice == Some(Holder.id)
    ensures Abandoned.cp.ready && !Usable(Abandoned, Holder)
  {
    BatchedReached();
    RecoveredReached();
    RunStep(Initial, [], AttachEvent(Good));
    RunStep(Initial, [] + [ORPHANED[0]], ORPHANED[1]);
    RunStep(Initial, [] + [ORPHANED[0]] + [ORPHANED[1]], ORPHANED[2]);
    RunStep(Initial, [] + [ORPHANED[0]] + [ORPHANED[1]] + [ORPHANED[2]], ORPHANED[3]);
    RunStep(Initial, [] + [ORPHANED[0]] + [ORPHANED[1]] + [ORPHANED[2]] + [ORPHANED[3]], ORPHANED[4]);
    assert ORPHANED == [] + [ORPHANED[0]] + [ORPHANED[1]] + [ORPHANED[2]] + [ORPHANED[3]] + [ORPHANED[4]];
  }
}
