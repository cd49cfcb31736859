/**
 Exactly when waiting for the queue is safe, over every lease-free run: also where
 fence-less work follows a pending fence.
 */
module BoardDrains {
  import opened Words
  import opened Board
  import opened BoardFences
  import opened BoardExclusion

  ghost predicate LastFence(log: seq<Entry>, i: nat, fence: u32)
    requires i < |log|
  {
    log[i] == Fence(fence) && CountFences(log[..i + 1]) == CountFences(log)
  }

  /** What holds of the bookkeeping when fence-less work may follow a pending fence. */
  ghost predicate Tracked(c: Card, cp: Cp) {
    && (cp.pendingFence != 0 ==> exists i :: 0 <= i < |c.log| && LastFence(c.log, i, cp.pendingFence))
    && (cp.pendingUnfenced == 0 ==> QueueNamed(c, cp))
  }

  /** A drain that reports success has rewritten the baseline over incomplete work. */
  ghost predicate DrainUnsafe(s: State, o: Oracle) {
    DrainPending(s, o).ok && !s.card.hazard && DrainPending(s, o).state.card.hazard
  }

  /**
   The guard a caller can read is exact: the drain is safe on every card the
   driver's fields allow, and whatever the hardware answers, if and only if no
   fence is pending or nothing fence-less was submitted since.
   */
  lemma DrainSafeExact(s: State)
    requires Inv(s) && Bounded(s.card) && s.cp.ready && s.pending == Queue && !s.card.hazard && Tracked(s.card, s.cp)
    ensures s.cp.pendingFence == 0 || s.cp.pendingUnfenced == 0 <==>
      forall c: Card, o: Oracle :: Inv(s.(card := c)) && Bounded(c) && !c.hazard && Tracked(c, s.cp) ==>
        !DrainUnsafe(s.(card := c), o)
  {
    if s.cp.pendingFence == 0 || s.cp.pendingUnfenced == 0 {
      forall c: Card, o: Oracle | Inv(s.(card := c)) && Bounded(c) && !c.hazard && Tracked(c, s.cp)
        ensures !DrainUnsafe(s.(card := c), o)
      {
        DrainIsSafe(s.(card := c), o);
      }
    } else {
      var c, o := UnsafeCard(s);
    }
  }

  lemma DrainIsSafe(s: State, o: Oracle)
    requires Inv(s) && Bounded(s.card) && s.cp.ready && s.pending == Queue && Tracked(s.card, s.cp)
    requires s.cp.pendingFence == 0 || s.cp.pendingUnfenced == 0
    ensures !DrainUnsafe(s, o)
  {
    if s.cp.pendingUnfenced == 0 {
      QueueDrainSafe(s, o);
    } else {
      IdleKeeps(s.card);
      RunsQuiet(s.card, |s.card.log|);
    }
  }

  lemma NumberedPrefix(log: seq<Entry>, count: nat)
    requires Numbered(log) && count <= |log|
    ensures Numbered(log[..count])
  {
    var upTo := log[..count];
    forall k | 0 <= k < count && upTo[k].Fence?
      ensures upTo[k].sequence == SkipZero(CountFences(upTo[..k + 1]))
    {
      assert upTo[..k + 1] == log[..k + 1];
    }
  }

  /** The log up to the pending fence, and one piece of fence-less work behind it. */
  lemma FenceThenWork(log: seq<Entry>, i: nat, fence: u32)
    requires Numbered(log) && i < |log| && LastFence(log, i, fence)
    ensures var longer := log[..i + 1] + [Work(true)];
      && Numbered(longer) && longer[..i] == log[..i] && longer[i] == Fence(fence) && LastFence(longer, i, fence)
      && CountFences(longer) == CountFences(log)
  {
    var upTo := log[..i + 1];
    var longer := upTo + [Work(true)];
    NumberedPrefix(log, i + 1);
    AppendNumbered(upTo, Work(true));
    assert longer[..i] == log[..i] && longer[..i + 1] == upTo;
  }

  /** The same driver fields, a card that has reached just the pending fence. */
  lemma UnsafeCard(s: State) returns (c: Card, o: Oracle)
    requires Inv(s) && s.cp.ready && s.pending == Queue && !s.card.hazard && Tracked(s.card, s.cp)
    requires s.cp.pendingFence != 0 && s.cp.pendingUnfenced != 0
    ensures Inv(s.(card := c)) && Bounded(c) && !c.hazard && Tracked(c, s.cp) && DrainUnsafe(s.(card := c), o)
  {
    var log := s.card.log;
    var i :| 0 <= i < |log| && LastFence(log, i, s.cp.pendingFence);
    FenceThenWork(log, i, s.cp.pendingFence);
    c := s.card.(log := log[..i + 1] + [Work(true)], done := i, scratch := ScratchAfter(CountFences(log[..i])));
    o := Good.(runs := 1);
    JustTheFence(s.(card := c), o);
  }

  lemma JustTheFence(s: State, o: Oracle)
    requires s.cp.ready && s.pending == Queue && s.cp.pendingFence != 0 && !s.card.hazard
    requires s.card.done + 2 == |s.card.log| && s.card.log[s.card.done] == Fence(s.cp.pendingFence)
    requires o == Good.(runs := 1)
    ensures DrainUnsafe(s, o)
  {
    assert Runs(s.card, 1) == Runs(Complete(s.card), 0) == Complete(s.card);
  }

  // ------------------------------------------------------------ what the bookkeeping tracks in every run

  /** Until the card is misused, the driver's fields track its queue. */
  ghost predicate Tracking(s: State) {
    Inv(s) && (s.cp.ready && !s.card.hazard ==> Tracked(s.card, s.cp))
  }

  /** A card that has completed more of the same log is tracked by the same fields. */
  lemma AdvancedTracked(c: Card, d: Card, cp: Cp)
    requires Tracked(c, cp) && d.log == c.log && c.done <= d.done
    ensures Tracked(d, cp)
  {
  }

  lemma RunsTracked(s: State, count: nat)
    requires Tracking(s)
    ensures Inv(s.(card := Runs(s.card, count))) ==> Tracking(s.(card := Runs(s.card, count)))
  {
    if s.cp.ready {
      RunsQuiet(s.card, count);
      if !s.card.hazard { AdvancedTracked(s.card, Runs(s.card, count), s.cp); }
    }
  }

  lemma RecoverTracked(s: State, o: Oracle)
    requires Tracking(s) || (WeakInv(s) && !s.recoveryTried)
    ensures Tracking(RecoverEngine(s, o).state)
  {
    RecoverKeeps(s, o);
  }

  /** Nothing pending is a true record of a card with nothing incomplete. */
  lemma ClearedTracked(c: Card, cp: Cp)
    requires cp.pendingFence == 0 && cp.pendingUnfenced == 0
    ensures Tracked(c, cp) <==> c.Drained()
  {
  }

  /** A drain that forgets fence-less work has misused the card by the time it reports success. */
  lemma QueueDrainTracked(s: State, o: Oracle)
    requires Tracking(s) && s.pending == Queue && s.cp.ready && !s.card.hazard
    ensures var t := DrainPending(s, o).state; t.cp.ready && !t.card.hazard ==> Tracked(t.card, t.cp)
  {
    if s.cp.pendingFence != 0 {
      RunsQuiet(s.card, o.runs);
      var ran := Runs(s.card, o.runs);
      if o.waitOk && ran.scratch == s.cp.pendingFence {
        var t := DrainPending(s, o).state;
        assert t.card == RewriteBaseline(ran) && t.cp == s.cp.(pendingFence := 0, pendingUnfenced := 0);
        ClearedTracked(t.card, t.cp);
      } else {
        AdvancedTracked(s.card, ran, s.cp);
      }
    } else if s.cp.pendingUnfenced == 0 {
      ClearedTracked(s.card, s.cp);
      assert DrainPending(s, o).state == s.(card := RewriteBaseline(s.card));
      ClearedTracked(RewriteBaseline(s.card), s.cp);
    } else if o.idleOk {
      RunsAll(s.card, |s.card.log|);
      RunsQuiet(s.card, |s.card.log|);
      var t := DrainPending(s, o).state;
      assert t.card == RewriteBaseline(Idle(s.card)) && t.cp == s.cp.(pendingUnfenced := 0);
      ClearedTracked(t.card, t.cp);
    }
  }

  lemma DrainTracked(s: State, o: Oracle)
    requires Tracking(s)
    ensures Tracking(DrainPending(s, o).state)
  {
    DrainKeeps(s, o);
    if s.cp.ready {
      RunsQuiet(s.card, o.runs);
      RunsQuiet(s.card, |s.card.log|);
      if !s.card.hazard {
        if s.pending == Queue { QueueDrainTracked(s, o); } else { AdvancedTracked(s.card, Idle(s.card), s.cp); }
      }
    }
  }

  lemma SynchronizeTracked(s: State, o: Oracle)
    requires Tracking(s)
    ensures Tracking(SynchronizeEngine(s, o).state)
  {
    DrainTracked(s, o);
    RecoverTracked(DrainPending(s, o).state, o);
  }

  /** Drawing changes neither the queue nor the fields. */
  lemma DrawMmioTracked(s: State)
    requires Tracking(s)
    ensures Tracking(s.(card := DrawMmio(s.card)))
  {
    if s.cp.ready && !s.card.hazard { AdvancedTracked(s.card, DrawMmio(s.card), s.cp); }
  }

  lemma DrawPassesTracked(s: State, passes: seq<Oracle>)
    requires Tracking(s)
    ensures Tracking(DrawPasses(s, passes).state)
    decreases |passes|
  {
    if |passes| > 0 {
      SynchronizeTracked(s, passes[0]);
      var prepared := PrepareMmio(s, passes[0]);
      assert Tracking(prepared.state);
      if prepared.ok {
        DrawMmioTracked(prepared.state);
        if passes[0].passOk { DrawPassesTracked(prepared.state.(card := DrawMmio(prepared.state.card)), passes[1..]); }
      }
    }
  }

  lemma DrawTracked(s: State, passes: seq<Oracle>, recovery: Oracle)
    requires Tracking(s)
    ensures Tracking(Draw(s, passes, recovery))
  {
    SynchronizeTracked(s, recovery);
    DrawPassesTracked(s, passes);
    RecoverTracked(DrawPasses(s, passes).state, recovery);
  }

  /** A new fence names the end of the log; fence-less work leaves the last fence where it was. */
  lemma KickTracked(c: Card, cp: Cp, fetch: bool, fence: seq<Entry>, newer: Cp)
    requires RingInv(c) && Tracked(c, cp)
    requires if fence == [] then newer.pendingFence == cp.pendingFence && newer.pendingUnfenced > 0
             else fence == [Fence(newer.pendingFence)] && newer.pendingFence != 0 && newer.pendingUnfenced == 0
    ensures Tracked(Kick(c, [Work(fetch)] + fence), newer)
  {
    var worked := c.log + [Work(fetch)];
    var log := worked + fence;
    assert c.log + ([Work(fetch)] + fence) == log;
    assert worked[..|c.log|] == c.log;
    if fence != [] {
      assert log[..|worked|] == worked && log[..|log|] == log;
      assert LastFence(log, |log| - 1, newer.pendingFence);
    } else {
      assert log == worked;
      if cp.pendingFence != 0 {
        var i :| 0 <= i < |c.log| && LastFence(c.log, i, cp.pendingFence);
        assert log[..i + 1] == c.log[..i + 1];
        assert LastFence(log, i, newer.pendingFence);
      }
    }
  }

  lemma FinishSubmitTracked(s: State, fetch: bool, fenced: bool, o: Oracle, recovery: Oracle)
    requires Tracking(s)
    ensures Tracking(FinishSubmit(SubmitStream(s, fetch, fenced, o), recovery).state)
  {
    FinishSubmitKeeps(s, fetch, fenced, o, recovery);
    SubmitStreamKeeps(s, fetch, fenced, o);
    var r := SubmitStream(s, fetch, fenced, o);
    if !r.ok {
      RecoverTracked(r.state, recovery);
    } else if !s.card.hazard {
      var fence := if fenced then [Fence(r.state.cp.pendingFence)] else [];
      assert [Work(fetch)] + fence == if fenced then [Work(fetch), Fence(r.state.cp.pendingFence)] else [Work(fetch)];
      KickTracked(s.card, s.cp, fetch, fence, r.state.cp);
    }
  }

  lemma GuardTracked(s: State)
    requires Tracking(s)
    ensures Tracking(FetchGuard(s))
  {
    if s.cp.ready && !s.card.hazard { AdvancedTracked(s.card, GuardFetch(s.card), s.cp); }
  }

  lemma SubmitPreparedTracked(s: State, prepared: Outcome, session: Session, kind: Submission, o: Oracle,
      recovery: Oracle)
    requires Tracking(prepared.state)
    ensures Tracking(SubmitPrepared(s, prepared, session, kind, o, recovery).state)
  {
    GuardTracked(prepared.state);
    var guarded := if kind.Batch? then prepared.state else FetchGuard(prepared.state);
    FinishSubmitTracked(guarded, kind.Dispatch?, kind.Fenced(), o, recovery);
  }

  lemma SubmitTracked(s: State, session: Session, kind: Submission, o: Oracle, recovery: Oracle)
    requires Tracking(s)
    ensures Tracking(Submit(s, session, kind, o, recovery).state)
  {
    var prepared := Prepare3D(s, o);
    assert Tracking(prepared.state) by { SynchronizeTracked(s, o); }
    SubmitPreparedTracked(s, prepared, session, kind, o, recovery);
  }

  /** A test that forgets the pending fence does so only once everything it names is complete. */
  lemma ForgottenTracked(c: Card, cp: Cp)
    requires RingInv(c) && Bounded(c) && Tracked(c, cp) && FenceReached(c.scratch, cp.pendingFence)
    ensures Tracked(c, cp.(pendingFence := 0))
  {
    if cp.pendingUnfenced == 0 { LastFenceDrains(c); }
  }

  lemma WaitFenceTracked(s: State, fence: u32, o: Oracle)
    requires Tracking(s) && Bounded(s.card)
    ensures Tracking(WaitFence(s, fence, o).state)
  {
    WaitFenceKeeps(s, fence, o);
    if s.cp.ready && !s.card.hazard {
      RunsKeeps(s.card, o.runs);
      var ran := Runs(s.card, o.runs);
      AdvancedTracked(s.card, ran, s.cp);
      if FenceReached(ran.scratch, s.cp.pendingFence) { ForgottenTracked(ran, s.cp); }
    } else if s.cp.ready {
      RunsQuiet(s.card, o.runs);
    }
  }

  lemma RetireTracked(s: State, lastFence: u32, o: Oracle, recovery: Oracle)
    requires Tracking(s) && Bounded(s.card)
    ensures Tracking(RetireSession(s, lastFence, o, recovery))
  {
    WaitFenceTracked(s, lastFence, o);
    RecoverTracked(WaitFence(s, lastFence, o).state, recovery);
  }

  lemma AttachmentTracked(s: State, o: Oracle)
    requires Tracking(s)
    ensures Tracking(FinishRelease(s, o)) && Tracking(Attach(s, o)) && Tracking(BeginRelease(s))
  {
    FinishReleaseKeeps(s, o);
    AttachKeeps(s, o);
  }

  lemma StepTracked(s: State, e: Event)
    requires Tracking(s) && Bounded(s.card) && !e.AcquireEvent?
    ensures Tracking(Step(s, e))
  {
    match e
    case CardRuns(count) =>
      StepKeeps(s, e);
      RunsTracked(s, count);
    case CardIdles => assert s.cp.ready && !s.card.hazard ==> Tracked(s.card.(mmioBusy := false), s.cp);
    case DrawEvent(passes, recovery) => DrawTracked(s, passes, recovery);
    case DrainEvent(o) => SynchronizeTracked(s, o);
    case SubmitEvent(session, kind, o, recovery) => SubmitTracked(s, session, kind, o, recovery);
    case FenceEvent(session, lastFence, fence, o) => WaitFenceTracked(s, fence, o);
    case ReleaseEvent(session, lastFence, o, recovery) =>
    case ReclaimEvent(o) =>
    case HolderWrites(entries, scratch) =>
    case SurfaceEvent(session, lastFence, o, recovery) => RetireTracked(s, lastFence, o, recovery);
    case CloseEvent(session, lastFence, o, recovery) => RetireTracked(s, lastFence, o, recovery);
    case BeginReleaseEvent => AttachmentTracked(s, Good);
    case FinishReleaseEvent(o) => AttachmentTracked(s, o);
    case AttachEvent(o) => AttachmentTracked(s, o);
  }

  /** What is incomplete stays bounded all along a run. */
  ghost predicate BoundedRun(s: State, events: seq<Event>)
    decreases |events|
  {
    |events| == 0 || (BoundedRun(s, events[..|events| - 1]) && Bounded(Run(s, events[..|events| - 1]).card))
  }

  lemma {:induction false} RunTracked(s: State, events: seq<Event>)
    requires Tracking(s) && LeaseFree(events) && BoundedRun(s, events)
    ensures Tracking(Run(s, events))
    decreases |events|
  {
    if |events| > 0 {
      RunTracked(s, events[..|events| - 1]);
      StepTracked(Run(s, events[..|events| - 1]), events[|events| - 1]);
    }
  }

  /**
   Over every lease-free run from power-up, fence-less work behind a fence included:
   wherever a ready driver is pending on the queue of a card not yet misused, a drain
   is safe on every card its fields allow if and only if no fence is pending or
   nothing fence-less was submitted since.
   */
  lemma DrainSafeRuns(events: seq<Event>)
    requires LeaseFree(events) && BoundedRun(Initial, events)
    requires var s := Run(Initial, events);
      Bounded(s.card) && s.cp.ready && s.pending == Queue && !s.card.hazard
    ensures var s := Run(Initial, events);
      && Tracked(s.card, s.cp)
      && (s.cp.pendingFence == 0 || s.cp.pendingUnfenced == 0 <==>
            forall c: Card, o: Oracle :: Inv(s.(card := c)) && Bounded(c) && !c.hazard && Tracked(c, s.cp) ==>
              !DrainUnsafe(s.(card := c), o))
  {
    RunTracked(Initial, events);
    DrainSafeExact(Run(Initial, events));
  }
}
