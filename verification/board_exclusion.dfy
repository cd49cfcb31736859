/**
 2D/CP exclusion over runs without a lease, without an empty-write planar blit while a
 restore is due and without a fence-less dispatch newer than a pending fence: the card
 is never misused.  The two excluded patterns are shown to misuse it.
 */
module BoardExclusion {
  import opened Words
  import opened Board
  import opened BoardFences

  /** The pending fence names the end of the log; nothing pending means nothing incomplete. */
  ghost predicate QueueNamed(c: Card, cp: Cp) {
    && (cp.pendingFence == 0 || cp.pendingUnfenced == 0)
    && (cp.pendingFence != 0 ==> |c.log| > 0 && c.log[|c.log| - 1] == Fence(cp.pendingFence))
    && (cp.pendingFence == 0 && cp.pendingUnfenced == 0 ==> c.Drained())
  }

  /** Queued work that has yet to complete. */
  ghost predicate WorkLeft(c: Card) { exists k :: c.done <= k < |c.log| && c.log[k].Work? }

  /** An indirect fetch finds the host-endian bit clear, and so will one behind fence-less work, unguarded. */
  ghost predicate FetchesSafely(c: Card, cp: Cp) { cp.pendingUnfenced != 0 || c.Fetching() ==> !c.hostEndian }

  /** Between operations; `drawing` is the state inside one, before it is marked pending. */
  ghost predicate Apart(s: State, drawing: bool) {
    && Inv(s)
    && !s.card.hazard
    && (s.pending == Queue <==> s.need2DRestore)
    && (s.accel in {Ready, Fallback} && !s.need2DRestore ==> s.card.Drained() && s.card.baseline)
    && (s.need2DRestore ==> !s.card.baseline || WorkLeft(s.card))
    && (s.cp.ready && s.card.mmioBusy ==> s.pending == Mmio || (drawing && s.pending == Nothing))
    && (s.cp.ready ==> QueueNamed(s.card, s.cp) && FetchesSafely(s.card, s.cp) && s.accel in {Ready, Fallback})
    && (s.accel == Ready ==> !s.recoveryTried)
  }

  // ------------------------------------------------------------ completion

  /** The last fence on the ring is in the scratch register only when everything is complete. */
  lemma LastFenceDrains(c: Card)
    requires RingInv(c) && Bounded(c) && |c.log| > 0 && c.log[|c.log| - 1].Fence?
    ensures FenceReached(c.scratch, c.log[|c.log| - 1].sequence) ==> c.Drained()
    ensures c.scratch == c.log[|c.log| - 1].sequence ==> c.Drained()
  {
    FencePositionExact(c, |c.log| - 1);
  }

  lemma RunsQuiet(c: Card, count: nat)
    requires c.done <= |c.log|
    ensures var d := Runs(c, count);
      && d.log == c.log && c.done <= d.done <= |c.log|
      && d.hazard == c.hazard && d.mmioBusy == c.mmioBusy && d.hostEndian == c.hostEndian
      && (d.baseline && !WorkLeft(d) <==> c.baseline && !WorkLeft(c))
    decreases count
  {
    if count > 0 && !c.Drained() {
      assert c.log[c.done].Work? ==> WorkLeft(c);
      assert WorkLeft(c) ==> c.log[c.done].Work? || WorkLeft(Complete(c));
      RunsQuiet(Complete(c), count - 1);
    }
  }

  /** Left alone, the card ends with the 2D baseline exactly if it has it and no work is left to take it away. */
  lemma IdleBaseline(c: Card)
    ensures Idle(c).baseline <==> c.baseline && !WorkLeft(c)
  {
    if c.done <= |c.log| {
      RunsAll(c, |c.log|);
      RunsQuiet(c, |c.log|);
    }
  }

  // ------------------------------------------------------------ transitions

  lemma RecoverApart(s: State, o: Oracle)
    requires Apart(s, true) || (WeakInv(s) && !s.recoveryTried && !s.card.hazard)
    ensures var t := RecoverEngine(s, o).state;
      Apart(t, false)
  {
    RecoverKeeps(s, o);
  }

  /** The heart of it: whatever the processor does, a successful drain leaves nothing incomplete. */
  lemma QueueDrainSafe(s: State, o: Oracle)
    requires Inv(s) && Bounded(s.card) && s.pending == Queue && s.cp.ready && QueueNamed(s.card, s.cp)
    ensures var r := DrainPending(s, o);
      && r.state.card.hazard == s.card.hazard
      && (r.ok ==> r.state.card.Drained() && r.state.card.baseline && QueueNamed(r.state.card, r.state.cp))
      && (r.ok ==> r.state.cp.pendingUnfenced == 0)
      && (r.ok ==> r.state.card.mmioBusy ==> s.card.mmioBusy)
  {
    DrainKeeps(s, o);
    RunsKeeps(s.card, o.runs);
    RunsQuiet(s.card, o.runs);
    var ran := Runs(s.card, o.runs);
    if s.cp.pendingFence != 0 {
      LastFenceDrains(ran);
    } else {
      IdleKeeps(s.card);
      RunsQuiet(s.card, |s.card.log|);
    }
  }

  lemma DrainApart(s: State, o: Oracle)
    requires Apart(s, false) && Bounded(s.card) && s.pending != Nothing
    ensures var r := DrainPending(s, o);
      && !r.state.card.hazard
      && (r.ok ==> Apart(r.state.(pending := Nothing, need2DRestore := false), false))
      && (!r.ok ==> WeakInv(r.state) && r.state.recoveryTried == s.recoveryTried)
      && (!r.ok && r.state.recoveryTried ==> r.state == s)
  {
    DrainKeeps(s, o);
    if s.pending == Queue {
      if s.cp.ready { QueueDrainSafe(s, o); }
    } else {
      RunsDrained(s.card, |s.card.log|);
    }
  }

  lemma SynchronizeApart(s: State, o: Oracle)
    requires Apart(s, false) && Bounded(s.card)
    ensures var r := SynchronizeEngine(s, o);
      && Apart(r.state, false)
      && (r.ok ==> !r.state.need2DRestore && r.state.pending == Nothing)
  {
    if s.pending != Nothing {
      DrainApart(s, o);
      var drained := DrainPending(s, o);
      if !drained.ok { RecoverApart(drained.state, o); }
    }
  }

  /** Preparing succeeds only with the queue complete and the baseline in place. */
  lemma PrepareMmioApart(s: State, o: Oracle, drawing: bool)
    requires Apart(s, drawing) && (if drawing then !s.need2DRestore else Bounded(s.card))
    ensures var r := PrepareMmio(s, o);
      && Apart(r.state, drawing)
      && (r.ok ==> r.state.accel in {Ready, Fallback} && !r.state.need2DRestore)
  {
    if !drawing { SynchronizeApart(s, o); }
  }

  /** Drawing where preparing succeeded is no hazard. */
  lemma DrawMmioApart(s: State, drawing: bool)
    requires Apart(s, drawing) && s.accel in {Ready, Fallback} && !s.need2DRestore
    ensures var t := s.(card := DrawMmio(s.card)); Apart(t, true)
  {
  }

  lemma DrawPassesApart(s: State, passes: seq<Oracle>, drawing: bool)
    requires Apart(s, drawing) && (if drawing then !s.need2DRestore else Bounded(s.card))
    ensures var r := DrawPasses(s, passes);
      Apart(r.state, true) && (r.ok && |passes| > 0 ==> !r.state.need2DRestore)
    decreases |passes|
  {
    if |passes| > 0 {
      var prepared := PrepareMmio(s, passes[0]);
      assert Apart(prepared.state, drawing) &&
             (prepared.ok ==> prepared.state.accel in {Ready, Fallback} && !prepared.state.need2DRestore) by {
        PrepareMmioApart(s, passes[0], drawing);
      }
      if prepared.ok {
        DrawMmioApart(prepared.state, drawing);
        if passes[0].passOk {
          DrawPassesApart(prepared.state.(card := DrawMmio(prepared.state.card)), passes[1..], true);
        }
      }
    }
  }

  lemma DrawApart(s: State, passes: seq<Oracle>, recovery: Oracle)
    requires Apart(s, false) && Bounded(s.card) && (|passes| > 0 || s.accel != Ready || !s.need2DRestore)
    ensures Apart(Draw(s, passes, recovery), false)
  {
    SynchronizeApart(s, recovery);
    if s.accel == Ready {
      DrawPassesApart(s, passes, false);
      var drawn := DrawPasses(s, passes);
      if !drawn.ok { RecoverApart(drawn.state, recovery); }
    }
  }

  /** What a kick leaves: work is left, and a fetch only if there was one or one was kicked. */
  lemma KickLeaves(c: Card, fetch: bool, fence: seq<Entry>)
    requires c.done <= |c.log| && (fence == [] || (|fence| == 1 && fence[0].Fence?))
    ensures var d := Kick(c, [Work(fetch)] + fence);
      && WorkLeft(d) && (d.Fetching() ==> c.Fetching() || fetch)
      && d.hazard == (c.hazard || c.mmioBusy || (fetch && c.hostEndian))
  {
    var entries := [Work(fetch)] + fence;
    assert entries[0] == Work(fetch);
    assert Kick(c, entries).log[|c.log|] == entries[0];
  }

  /** A successful commit, before the hand-over is marked. */
  lemma CommittedApart(s: State, fetch: bool, fenced: bool, o: Oracle)
    requires Inv(s) && !s.card.hazard && !s.card.mmioBusy && QueueNamed(s.card, s.cp) && FetchesSafely(s.card, s.cp)
    requires fetch ==> !s.card.hostEndian
    requires !fenced ==> fetch && s.cp.pendingFence == 0
    requires SubmitStream(s, fetch, fenced, o).ok
    ensures var t := SubmitStream(s, fetch, fenced, o).state;
      && !t.card.hazard && !t.card.mmioBusy && WorkLeft(t.card)
      && QueueNamed(t.card, t.cp) && FetchesSafely(t.card, t.cp)
  {
    var fence := if fenced then [Fence(NextSequence(s.cp.nextFence))] else [];
    KickLeaves(s.card, fetch, fence);
    assert [Work(fetch)] + fence == if fenced then [Work(fetch), Fence(NextSequence(s.cp.nextFence))]
      else [Work(fetch)];
    NextSequenceIsNext(CountFences(s.card.log));
  }

  /**
   Kicking with nothing drawn undrained is no misuse, a fetch is kicked with the
   host-endian bit clear, and the fence names the new end of the log.
   */
  lemma FinishSubmitApart(s: State, fetch: bool, fenced: bool, o: Oracle, recovery: Oracle)
    requires Inv(s) && s.cp.ready && !s.card.hazard && !s.card.mmioBusy
    requires QueueNamed(s.card, s.cp) && FetchesSafely(s.card, s.cp) && s.accel in {Ready, Fallback}
    requires fetch ==> !s.card.hostEndian
    requires !fenced ==> fetch && s.cp.pendingFence == 0
    ensures Apart(FinishSubmit(SubmitStream(s, fetch, fenced, o), recovery).state, false)
  {
    SubmitStreamKeeps(s, fetch, fenced, o);
    var r := SubmitStream(s, fetch, fenced, o);
    if r.ok {
      CommittedApart(s, fetch, fenced, o);
    } else {
      RecoverApart(r.state, recovery);
    }
  }

  /** The guards are idle whenever a fetch or fence-less work could be under way. */
  lemma GuardsHold(s: State)
    requires Apart(s, false) && s.cp.ready
    ensures s.card.Fetching() || s.cp.pendingUnfenced != 0 ==> GuardFetch(s.card) == s.card && FetchGuard(s) == s
    ensures !GuardFetch(s.card).hazard && !FetchGuard(s).card.hazard && !FetchGuard(s).card.hostEndian
  {
  }

  lemma SubmitPreparedApart(s: State, prepared: Outcome, session: Session, kind: Submission, o: Oracle,
      recovery: Oracle)
    requires Apart(prepared.state, false)
    requires prepared.ok ==> prepared.state.pending != Mmio
    requires !kind.Fenced() ==> prepared.state.cp.pendingFence == 0
    ensures Apart(SubmitPrepared(s, prepared, session, kind, o, recovery).state, false)
  {
    var p := prepared.state;
    if !prepared.ok || (!kind.Batch? && !(Usable(p, session) && p.advances == s.advances)) {
    } else if p.cp.ready {
      GuardsHold(p);
      var guarded := if kind.Batch? then p else FetchGuard(p);
      assert Inv(guarded) && QueueNamed(guarded.card, guarded.cp) && FetchesSafely(guarded.card, guarded.cp);
      FinishSubmitApart(guarded, kind.Dispatch?, kind.Fenced(), o, recovery);
    } else {
      NotReadyFails(p, kind, o, recovery);
    }
  }

  lemma NotReadyFails(s: State, kind: Submission, o: Oracle, recovery: Oracle)
    requires Apart(s, false) && !s.cp.ready
    ensures Apart(FinishSubmit(SubmitStream(s, kind.Dispatch?, kind.Fenced(), o), recovery).state, false)
  {
    RecoverApart(s, recovery);
  }

  /** Preparing for 3D leaves no pending fence where there was none. */
  lemma PrepareKeepsUnfenced(s: State, o: Oracle)
    requires s.cp.pendingFence == 0
    ensures Prepare3D(s, o).state.cp.pendingFence == 0
  {
    assert DrainPending(s, o).state.cp.pendingFence == 0;
  }

  lemma SubmitApart(s: State, session: Session, kind: Submission, o: Oracle, recovery: Oracle)
    requires Apart(s, false) && Bounded(s.card) && (!kind.Fenced() ==> s.cp.pendingFence == 0)
    ensures Apart(Submit(s, session, kind, o, recovery).state, false)
  {
    var prepared := Prepare3D(s, o);
    SynchronizeApart(s, o);
    if !kind.Fenced() { PrepareKeepsUnfenced(s, o); }
    SubmitPreparedApart(s, prepared, session, kind, o, recovery);
  }

  /** A card that has only completed more of the same log. */
  lemma AdvancedApart(s: State, c: Card)
    requires Apart(s, false) && RingInv(c)
    requires c.log == s.card.log && c.done >= s.card.done && c.hazard == s.card.hazard && c.mmioBusy == s.card.mmioBusy
    requires c.hostEndian == s.card.hostEndian
    requires c.baseline && !WorkLeft(c) ==> s.card.baseline && !WorkLeft(s.card)
    requires s.card.Drained() ==> c == s.card
    ensures Apart(s.(card := c), false)
  {
  }

  lemma RunsApart(s: State, count: nat)
    requires Apart(s, false)
    ensures Apart(s.(card := Runs(s.card, count)), false)
  {
    if s.card.Drained() {
      RunsDrained(s.card, count);
      assert s.(card := s.card) == s;
    } else {
      RunsKeeps(s.card, count);
      RunsQuiet(s.card, count);
      AdvancedApart(s, Runs(s.card, count));
    }
  }

  /** A fence that tests as retired may be forgotten: nothing it names is incomplete. */
  lemma ForgetApart(s: State)
    requires Apart(s, false) && Bounded(s.card) && s.cp.ready && FenceReached(s.card.scratch, s.cp.pendingFence)
    ensures Apart(s.(cp := s.cp.(pendingFence := 0)), false)
  {
    LastFenceDrains(s.card);
  }

  lemma WaitFenceApart(s: State, fence: u32, o: Oracle)
    requires Apart(s, false) && Bounded(s.card)
    ensures Apart(WaitFence(s, fence, o).state, false)
  {
    RunsApart(s, o.runs);
    var ran := s.(card := Runs(s.card, o.runs));
    if s.cp.ready && FenceReached(ran.card.scratch, s.cp.pendingFence) {
      RunsQuiet(s.card, o.runs);
      ForgetApart(ran);
    }
  }

  lemma RetireApart(s: State, lastFence: u32, o: Oracle, recovery: Oracle)
    requires Apart(s, false) && Bounded(s.card)
    ensures Apart(RetireSession(s, lastFence, o, recovery), false)
  {
    if lastFence != 0 {
      WaitFenceApart(s, lastFence, o);
      RecoverApart(WaitFence(s, lastFence, o).state, recovery);
    }
  }

  /** Without anything pending, or without a processor, nothing is incomplete. */
  lemma QuietDrained(s: State)
    requires Apart(s, false) && (s.pending == Nothing || !s.cp.ready)
    ensures s.card.Drained()
  {
  }

  /** Where waiting fails and recovery too, the processor is gone. */
  lemma UnsynchronizedStops(s: State, o: Oracle)
    requires Apart(s, false) && Bounded(s.card) && s.pending != Nothing && !SynchronizeEngine(s, o).ok
    ensures !SynchronizeEngine(s, o).state.cp.ready
  {
    DrainApart(s, o);
  }

  lemma StopApart(s: State)
    requires Apart(s, false) && s.card.Drained()
    ensures Apart(StopBoard(s), false)
  {
    StopKeeps(s);
  }

  lemma FinishReleaseApart(s: State, o: Oracle)
    requires Apart(s, false) && Bounded(s.card)
    ensures Apart(FinishRelease(s, o), false)
  {
    if s.service == Detaching {
      SynchronizeApart(s, o);
      if s.pending != Nothing && !SynchronizeEngine(s, o).ok { UnsynchronizedStops(s, o); }
      var last := if s.pending == Nothing then s else SynchronizeEngine(s, o).state;
      QuietDrained(last);
      StopApart(last);
    }
  }

  lemma AttachApart(s: State, o: Oracle)
    requires Apart(s, false)
    ensures Apart(Attach(s, o), false)
  {
    AttachKeeps(s, o);
  }

  // ------------------------------------------------------------ runs

  /** The excluded patterns, each recognisable before the call. */
  ghost predicate Allowed(s: State, e: Event) {
    && !e.AcquireEvent?
    && (e.DrawEvent? && |e.passes| == 0 ==> s.accel != Ready || !s.need2DRestore)
    && (e.SubmitEvent? && !e.kind.Fenced() ==> s.cp.pendingFence == 0)
  }

  /** Every event is allowed where it happens, and the ring bounds what is incomplete there. */
  ghost predicate AllAllowed(s: State, events: seq<Event>)
    decreases |events|
  {
    |events| == 0 ||
    (AllAllowed(s, events[..|events| - 1]) && Bounded(Run(s, events[..|events| - 1]).card)
     && Allowed(Run(s, events[..|events| - 1]), events[|events| - 1]))
  }

  lemma RunOne(s: State, e: Event)
    ensures Run(s, [e]) == Step(s, e) && (AllAllowed(s, [e]) <==> Bounded(s.card) && Allowed(s, e))
  {
    var events := [e];
    var earlier := events[..|events| - 1];
    assert earlier == [];
    assert Run(s, earlier) == s && AllAllowed(s, earlier);
  }

  lemma StepApart(s: State, e: Event)
    requires Apart(s, false) && Bounded(s.card) && Allowed(s, e)
    ensures Apart(Step(s, e), false)
  {
    match e
    case CardRuns(count) => RunsApart(s, count);
    case CardIdles =>
    case DrawEvent(passes, recovery) => DrawApart(s, passes, recovery);
    case DrainEvent(o) => SynchronizeApart(s, o);
    case SubmitEvent(session, kind, o, recovery) => SubmitApart(s, session, kind, o, recovery);
    case FenceEvent(session, lastFence, fence, o) => WaitFenceApart(s, fence, o);
    case ReleaseEvent(session, lastFence, o, recovery) =>
    case ReclaimEvent(o) =>
    case HolderWrites(entries, scratch) =>
    case SurfaceEvent(session, lastFence, o, recovery) => RetireApart(s, lastFence, o, recovery);
    case CloseEvent(session, lastFence, o, recovery) => RetireApart(s, lastFence, o, recovery);
    case BeginReleaseEvent =>
    case FinishReleaseEvent(o) => FinishReleaseApart(s, o);
    case AttachEvent(o) => AttachApart(s, o);
  }

  lemma {:induction false} RunApart(s: State, events: seq<Event>)
    requires Apart(s, false) && AllAllowed(s, events)
    ensures Apart(Run(s, events), false)
    decreases |events|
  {
    if |events| > 0 {
      RunApart(s, events[..|events| - 1]);
      StepApart(Run(s, events[..|events| - 1]), events[|events| - 1]);
    }
  }

  /**
   2D/CP exclusion.  In every allowed run from power-up the card is never misused: no
   drawing and no restored baseline with queued work incomplete, no drawing without the
   baseline, no kick with drawing undrained, no indirect fetch with the host-endian bit
   set and no change of that bit under a fetch.  The engine is pending on the queue
   exactly when the baseline needs restoring, and then it really is lost.
   */
  lemma Exclusion(events: seq<Event>)
    requires AllAllowed(Initial, events)
    ensures var s := Run(Initial, events);
      && !s.card.hazard
      && (s.pending == Queue <==> s.need2DRestore)
      && (s.accel == Ready && !s.need2DRestore ==> s.card.Drained() && s.card.baseline)
      && (s.need2DRestore ==> !Idle(s.card).baseline)
      && (s.cp.ready && s.card.Fetching() ==> !s.card.hostEndian)
  {
    RunApart(Initial, events);
    var s := Run(Initial, events);
    if s.need2DRestore { IdleBaseline(s.card); }
  }

  // ------------------------------------------------------------ the excluded patterns

  /** One session of that attachment, and the state its first fenced dispatch leaves. */
  const Client: Session := Session(1, 2)
  const Submitted: State := Fresh.(
    card := Fresh.card.(log := [Work(true), Fence(1)], baseline := false, hostEndian := false),
    cp := Cp(true, true, 2, 1, 0), pending := Queue, need2DRestore := true)

  /** A second dispatch, without a fence, behind it. */
  const Behind: State := Submitted.(
    card := Submitted.card.(log := [Work(true), Fence(1), Work(true)]), cp := Cp(true, true, 2, 1, 1))

  lemma FreshReached()
    ensures Attach(Initial, Good) == Fresh && Apart(Fresh, false)
  {
    AttachApart(Initial, Good);
  }

  lemma SubmittedReached()
    ensures Submit(Fresh, Client, Dispatch(true), Good, Good).state == Submitted && Apart(Submitted, false)
  {
    FreshReached();
    assert SubmitStream(FetchGuard(Fresh), true, true, Good).state
           == Submitted.(pending := Nothing, need2DRestore := false);
    SubmitApart(Fresh, Client, Dispatch(true), Good, Good);
  }

  /** Drawing after a preparation that lost the baseline, or already misused the card, shows the hazard. */
  lemma HazardStays(s: State, prepared: Outcome)
    requires s.accel == Ready && !s.leaseActive && s.need2DRestore
    requires prepared == SynchronizeEngine(s, Good) && prepared.ok
    requires prepared.state.card.hazard || !prepared.state.card.baseline
    ensures Draw(s, [Good], Good).card.hazard
  {
    var drawn := prepared.state.(card := DrawMmio(prepared.state.card));
    assert PrepareMmio(s, Good) == prepared;
    assert [Good][1..] == [];
    assert DrawPasses(s, [Good]) == DrawPasses(drawn, []);
  }

  lemma BehindReached()
    ensures Submit(Submitted, Client, Dispatch(false), Good, Good).state == Behind
  {
    assert Submitted.card.log + [Work(true)] == Behind.card.log;
    assert SubmitStream(Submitted, true, false, Good) == Outcome(Behind, true);
  }

  lemma BehindMisused()
    ensures Draw(Behind, [Good], Good).card.hazard
  {
    var c1 := Complete(Behind.card);
    var c2 := Complete(c1);
    assert Runs(Behind.card, 2) == Runs(c1, 1) == Runs(c2, 0) == c2;
    assert CpWait(Behind, Good).ok;
    HazardStays(Behind, SynchronizeEngine(Behind, Good));
  }

  /**
   A fence-less dispatch behind a pending fence.  Waiting for the fence forgets the
   dispatch, and the next drawing operation rewrites the baseline under it.
   */
  lemma FencelessAfterFence()
    ensures Attach(Initial, Good) == Fresh
    ensures Submit(Fresh, Client, Dispatch(true), Good, Good).state == Submitted && Apart(Submitted, false)
    ensures var both := Submit(Submitted, Client, Dispatch(false), Good, Good).state;
      && both.cp.pendingFence != 0 && both.cp.pendingUnfenced == 1 && !both.card.hazard
      && Draw(both, [Good], Good).card.hazard
  {
    FreshReached();
    SubmittedReached();
    BehindReached();
    BehindMisused();
  }

  /**
   The dispatch guard does clear the bit under a batch that is still incomplete: a
   batch does not fetch, so this is no misuse.
   */
  lemma GuardUnderBatch()
    ensures var batched := Submit(Fresh, Client, Batch, Good, Good).state;
      && Apart(batched, false) && !batched.card.Drained() && batched.card.hostEndian
      && !FetchGuard(batched).card.hostEndian && !FetchGuard(batched).card.hazard
  {
    FreshReached();
    SubmitApart(Fresh, Client, Batch, Good, Good);
    var batched := Submit(Fresh, Client, Batch, Good, Good).state;
    assert batched.card.log == [Work(false), Fence(1)];
  }

  /** Under a fetch it would be: a card that is fetching its first stream, with the bit still set. */
  lemma SwapUnderFetch(c: Card)
    requires c.done < |c.log| && c.log[c.done] == Work(true) && c.hostEndian
    ensures c.Fetching() && GuardFetch(c).hazard
  {
  }

  // ------------------------------------------------------------ a planar blit with no pass

  /** It keeps the invariant exactly when no restore is due: it overwrites the pending state either way. */
  lemma EmptyBlitApart(s: State, recovery: Oracle)
    requires Apart(s, false) && Bounded(s.card) && s.accel == Ready
    ensures Apart(Draw(s, [], recovery), false) <==> !s.need2DRestore
  {
    if !s.need2DRestore { DrawApart(s, [], recovery); }
  }

  /** While a restore is due, the operation after it draws without the baseline. */
  lemma EmptyPlanarBlit(s: State, recovery: Oracle)
    requires Apart(s, false) && s.accel == Ready && s.need2DRestore
    ensures var blitted := Draw(s, [], recovery);
      blitted == s.(pending := Mmio) && Draw(blitted, [Good], Good).card.hazard
  {
    var blitted := s.(pending := Mmio);
    assert Draw(s, [], recovery) == blitted;
    IdleBaseline(s.card);
    var drained := SynchronizeEngine(blitted, Good);
    assert drained.ok && drained.state.card == Idle(s.card);
    HazardStays(blitted, drained);
  }

  /**
   Exactly when a planar blit with no plane selected is harmless: no allowed run after
   it ever misuses the card if and only if 2D is not on the hardware or no restore is due.
   */
  lemma EmptyBlitExactly(s: State, recovery: Oracle)
    requires Apart(s, false) && Bounded(s.card)
    ensures (forall events :: AllAllowed(Draw(s, [], recovery), events) ==>
              !Run(Draw(s, [], recovery), events).card.hazard)
       <==> s.accel != Ready || !s.need2DRestore
  {
    var blitted := Draw(s, [], recovery);
    if s.accel != Ready || !s.need2DRestore {
      DrawApart(s, [], recovery);
      forall events | AllAllowed(blitted, events) ensures !Run(blitted, events).card.hazard {
        RunApart(blitted, events);
      }
    } else {
      EmptyPlanarBlit(s, recovery);
      var next := DrawEvent([Good], Good);
      RunOne(blitted, next);
      assert AllAllowed(blitted, [next]);
    }
  }

  /** The first submission after attaching reaches a state where it is not. */
  lemma EmptyPlanarReachable()
    ensures Submit(Fresh, Client, Dispatch(true), Good, Good).state == Submitted && Apart(Submitted, false)
    ensures Submitted.accel == Ready && Submitted.need2DRestore && Bounded(Submitted.card)
  {
    SubmittedReached();
  }
}
