/**
 Fence soundness over every lease-free run of the board: a fence that tests as
 retired names work that is complete, in the ring it was submitted to.
 */
module BoardFences {
  import opened Words
  import opened Board

  // ------------------------------------------------------------ serial numbers

  /** What the scratch register reads after `retired` fences since the ring was programmed. */
  function ScratchAfter(retired: nat): u32 {
    if retired == 0 then RING_TEST_RESIDUE else SkipZero(retired)
  }

  function NextAfter(issued: nat): u32 {
    if issued == 0 then 1 else Wrap(SkipZero(issued) + 1)
  }

  /** Zero is skipped: the next sequence number is always the next nonzero one. */
  lemma NextSequenceIsNext(issued: nat)
    ensures NextSequence(NextAfter(issued)) == SkipZero(issued + 1)
    ensures Wrap(SkipZero(issued + 1) + 1) == NextAfter(issued + 1)
  {
    var c := TWO32 - 1;
    if issued > 0 {
      var q, r := (issued - 1) / c, (issued - 1) % c;
      if r == c - 1 { ModUnique(issued, q + 1, 0, c); } else { ModUnique(issued, q, r + 1, c); }
    }
  }

  /** How far apart two nearby serials are encoded: one more than their distance across the skip. */
  lemma SkipZeroGap(m: nat, n: nat)
    requires 1 <= m <= n < m + (TWO32 - 1)
    ensures var gap := Wrap(SkipZero(n) - SkipZero(m)); n - m <= gap <= n - m + 1
    ensures m == n ==> SkipZero(n) == SkipZero(m)
    ensures m < n ==> SkipZero(n) != SkipZero(m)
  {
    var c := TWO32 - 1;
    var q, r := (m - 1) / c, (m - 1) % c;
    if r + (n - m) < c {
      ModUnique(n - 1, q, r + (n - m), c);
    } else {
      ModUnique(n - 1, q + 1, r + (n - m) - c, c);
    }
  }

  /**
   The wrap-aware test is exact: with at most 0x5eadbeef serials outstanding it
   never passes early, not even against the self-test residue, and it passes for
   every fence retired within the last 2^31-2 serials.
   */
  lemma FenceReachedExact(retired: nat, issued: nat, serial: nat)
    requires 1 <= serial <= issued && retired <= issued <= retired + MAX_IN_FLIGHT
    ensures FenceReached(ScratchAfter(retired), SkipZero(serial)) ==> serial <= retired
    ensures serial <= retired <= serial + 0x7fff_fffe ==> FenceReached(ScratchAfter(retired), SkipZero(serial))
    ensures ScratchAfter(retired) == SkipZero(issued) ==> retired == issued
  {
    if retired == 0 {
      assert SkipZero(serial) == serial && SkipZero(issued) == issued;
    } else {
      SkipZeroGap(retired, issued);
      if serial <= retired {
        if retired <= serial + 0x7fff_fffe { SkipZeroGap(serial, retired); }
      } else {
        SkipZeroGap(retired, serial);
        var up, down := SkipZero(serial) - SkipZero(retired), SkipZero(retired) - SkipZero(serial);
        assert up == -down;
        WrapNegation(up);
      }
    }
  }

  lemma WrapNegation(x: int)
    requires Wrap(x) != 0
    ensures Wrap(-x) == TWO32 - Wrap(x)
  {
  }

  // ------------------------------------------------------------ the invariant

  lemma CountFencesPrefix(log: seq<Entry>, k: nat)
    requires k <= |log|
    ensures CountFences(log[..k]) <= CountFences(log) <= CountFences(log[..k]) + (|log| - k)
    decreases |log|
  {
    if k < |log| {
      var init := log[..|log| - 1];
      assert init[..k] == log[..k];
      CountFencesPrefix(init, k);
    } else {
      assert log[..k] == log;
    }
  }

  /** The i-th fence of a ring carries the i-th nonzero sequence number. */
  ghost predicate Numbered(log: seq<Entry>) {
    forall i :: 0 <= i < |log| && log[i].Fence? ==> log[i].sequence == SkipZero(CountFences(log[..i + 1]))
  }

  ghost predicate RingInv(c: Card) {
    && c.done <= |c.log|
    && Numbered(c.log)
    && c.scratch == ScratchAfter(CountFences(c.log[..c.done]))
  }

  /** Everything except the next sequence number, which a failed commit has already consumed. */
  ghost predicate WeakInv(s: State) {
    && (s.cp.ready ==> s.cp.present && !s.recoveryTried)
    && (s.service == InService ==> s.cp.ready)
    && (s.cp.present ==> RingInv(s.card))
    && (!s.cp.ready ==> s.card.Drained())
    && !s.leaseActive
  }

  ghost predicate Inv(s: State) {
    && WeakInv(s)
    && (s.cp.ready ==> s.cp.nextFence == NextAfter(CountFences(s.card.log)))
  }

  /**
   While the generation stands still in a ready service, the ring is the same one,
   its log only grows and completion only advances.
   */
  ghost predicate Later(s: State, t: State) {
    && s.advances <= t.advances
    && (s.service == InService && t.advances == s.advances ==>
          && t.service == InService
          && t.card.epoch == s.card.epoch
          && s.card.log <= t.card.log
          && s.card.done <= t.card.done)
  }

  lemma LaterTransitive(s: State, t: State, u: State)
    requires Later(s, t) && Later(t, u)
    ensures Later(s, u)
  {
  }

  // ------------------------------------------------------------ transitions

  lemma CountNext(log: seq<Entry>, k: nat)
    requires k < |log|
    ensures CountFences(log[..k + 1]) == CountFences(log[..k]) + (if log[k].Fence? then 1 else 0)
  {
    var next := log[..k + 1];
    assert next[..k] == log[..k];
  }

  lemma CompleteKeeps(c: Card)
    requires RingInv(c) && c.done < |c.log|
    ensures RingInv(Complete(c))
  {
    CountNext(c.log, c.done);
    var d := Complete(c);
    assert d.scratch == ScratchAfter(CountFences(c.log[..c.done + 1])) by {
      if c.log[c.done].Fence? { assert c.log[c.done].sequence == SkipZero(CountFences(c.log[..c.done + 1])); }
    }
  }

  lemma RunsKeeps(c: Card, count: nat)
    requires RingInv(c)
    ensures var d := Runs(c, count);
      RingInv(d) && d.log == c.log && d.epoch == c.epoch && c.done <= d.done && d.mmioBusy == c.mmioBusy
    decreases count
  {
    if count > 0 && !c.Drained() {
      CompleteKeeps(c);
      RunsKeeps(Complete(c), count - 1);
    }
  }

  lemma RunsAll(c: Card, count: nat)
    requires c.done <= |c.log| <= c.done + count
    ensures Runs(c, count).Drained()
    decreases count
  {
    if count > 0 && !c.Drained() { RunsAll(Complete(c), count - 1); }
  }

  /** A drained card does not change, however long it runs. */
  lemma RunsDrained(c: Card, count: nat)
    requires c.Drained()
    ensures Runs(c, count) == c
  {
  }

  lemma IdleKeeps(c: Card)
    requires RingInv(c)
    ensures var d := Idle(c); RingInv(d) && d.log == c.log && d.epoch == c.epoch && c.done <= d.done && d.Drained()
  {
    RunsKeeps(c, |c.log|);
    RunsAll(c, |c.log|);
  }

  lemma AppendNumbered(log: seq<Entry>, entry: Entry)
    requires Numbered(log)
    requires entry.Fence? ==> entry.sequence == SkipZero(CountFences(log) + 1)
    ensures Numbered(log + [entry])
    ensures CountFences(log + [entry]) == CountFences(log) + (if entry.Fence? then 1 else 0)
  {
    var longer := log + [entry];
    assert longer[..|log|] == log;
    forall i | 0 <= i < |longer| && longer[i].Fence?
      ensures longer[i].sequence == SkipZero(CountFences(longer[..i + 1]))
    {
      if i < |log| { assert longer[..i + 1] == log[..i + 1]; } else { assert longer[..i + 1] == longer; }
    }
  }

  lemma AppendKeeps(c: Card, entry: Entry)
    requires RingInv(c)
    requires entry.Fence? ==> entry.sequence == SkipZero(CountFences(c.log) + 1)
    ensures var d := c.(log := c.log + [entry]);
      RingInv(d) && CountFences(d.log) == CountFences(c.log) + (if entry.Fence? then 1 else 0)
  {
    AppendNumbered(c.log, entry);
    assert (c.log + [entry])[..c.done] == c.log[..c.done];
  }

  /** A kick without a fence keeps the ring invariant. */
  lemma WorkKeeps(c: Card, fetch: bool)
    requires RingInv(c)
    ensures var d := Kick(c, [Work(fetch)]);
      RingInv(d) && c.log <= d.log && CountFences(d.log) == CountFences(c.log)
  {
    AppendKeeps(c, Work(fetch));
  }

  /** A kick whose fence carries the next number keeps it as well. */
  lemma BatchKeeps(c: Card, fetch: bool, sequence: u32)
    requires RingInv(c) && sequence == SkipZero(CountFences(c.log) + 1)
    ensures var d := Kick(c, [Work(fetch), Fence(sequence)]);
      RingInv(d) && c.log <= d.log && CountFences(d.log) == CountFences(c.log) + 1
  {
    WorkKeeps(c, fetch);
    var worked := Kick(c, [Work(fetch)]);
    AppendKeeps(worked, Fence(sequence));
    assert worked.log + [Fence(sequence)] == c.log + [Work(fetch), Fence(sequence)];
  }

  lemma SubmitStreamKeeps(s: State, fetch: bool, fenced: bool, o: Oracle)
    requires Inv(s)
    ensures var r := SubmitStream(s, fetch, fenced, o);
      && WeakInv(r.state) && Later(s, r.state)
      && (r.ok ==> Inv(r.state))
      && (!s.cp.ready ==> !r.ok && r.state == s)
      && r.state.cp.ready == s.cp.ready
  {
    if s.cp.ready && o.commitOk {
      NextSequenceIsNext(CountFences(s.card.log));
      if fenced {
        BatchKeeps(s.card, fetch, NextSequence(s.cp.nextFence));
      } else {
        WorkKeeps(s.card, fetch);
      }
    }
  }

  lemma CpAbortKeeps(s: State)
    requires WeakInv(s.(recoveryTried := false))
    ensures var t := CpAbort(s); Inv(t) && Later(s, t) && !t.cp.ready
    ensures CpAbort(s).cp.present == s.cp.present
  {
    if s.cp.present && !s.card.Drained() {
      var c := s.card;
      var cut := c.log[..c.done];
      CountFencesPrefix(c.log, c.done);
      assert cut[..c.done] == cut;
      forall i | 0 <= i < |cut| && cut[i].Fence?
        ensures cut[i].sequence == SkipZero(CountFences(cut[..i + 1]))
      {
        assert cut[..i + 1] == c.log[..i + 1];
      }
    }
  }

  lemma RecoverKeeps(s: State, o: Oracle)
    requires Inv(s) || (WeakInv(s) && !s.recoveryTried)
    ensures var t := RecoverEngine(s, o).state; Inv(t) && Later(s, t)
  {
    if !s.recoveryTried {
      CpAbortKeeps(s.(recoveryTried := true, pending := Nothing, need2DRestore := false));
    }
  }

  lemma CpWaitKeeps(s: State, o: Oracle)
    requires Inv(s)
    ensures var t := CpWait(s, o).state; Inv(t) && Later(s, t)
  {
    if s.cp.ready { RunsKeeps(s.card, o.runs); }
  }

  lemma IdleStateKeeps(s: State)
    requires Inv(s)
    ensures var t := s.(card := Idle(s.card)); Inv(t) && Later(s, t)
  {
    if s.cp.present { IdleKeeps(s.card); }
    if s.card.Drained() { RunsDrained(s.card, |s.card.log|); }
  }

  lemma CpWaitDrainedKeeps(s: State, o: Oracle)
    requires Inv(s)
    ensures var t := CpWaitDrained(s, o).state; Inv(t) && Later(s, t)
  {
    IdleStateKeeps(s);
  }

  lemma DrainKeeps(s: State, o: Oracle)
    requires Inv(s)
    ensures var t := DrainPending(s, o).state; Inv(t) && Later(s, t)
  {
    match s.pending
    case Nothing =>
    case Mmio => IdleStateKeeps(s);
    case Queue =>
      CpWaitKeeps(s, o);
      var fenced := CpWait(s, o).state;
      CpWaitDrainedKeeps(fenced, o);
      LaterTransitive(s, fenced, CpWaitDrained(fenced, o).state);
  }

  lemma SynchronizeKeeps(s: State, o: Oracle)
    requires Inv(s)
    ensures var t := SynchronizeEngine(s, o).state; Inv(t) && Later(s, t)
  {
    DrainKeeps(s, o);
    var drained := DrainPending(s, o).state;
    if !(s.pending == Nothing) && !DrainPending(s, o).ok {
      RecoverKeeps(drained, o);
      LaterTransitive(s, drained, SynchronizeEngine(s, o).state);
    }
  }

  lemma PrepareMmioKeeps(s: State, o: Oracle)
    requires Inv(s)
    ensures var t := PrepareMmio(s, o).state; Inv(t) && Later(s, t)
  {
    SynchronizeKeeps(s, o);
  }

  lemma DrawPassesKeeps(s: State, passes: seq<Oracle>)
    requires Inv(s)
    ensures var t := DrawPasses(s, passes).state; Inv(t) && Later(s, t)
    decreases |passes|
  {
    if |passes| > 0 {
      PrepareMmioKeeps(s, passes[0]);
      var prepared := PrepareMmio(s, passes[0]);
      if prepared.ok && passes[0].passOk {
        var drawn := prepared.state.(card := DrawMmio(prepared.state.card));
        DrawPassesKeeps(drawn, passes[1..]);
        LaterTransitive(s, drawn, DrawPasses(drawn, passes[1..]).state);
      }
    }
  }

  lemma DrawKeeps(s: State, passes: seq<Oracle>, recovery: Oracle)
    requires Inv(s)
    ensures var t := Draw(s, passes, recovery); Inv(t) && Later(s, t)
  {
    SynchronizeKeeps(s, recovery);
    DrawPassesKeeps(s, passes);
    var drawn := DrawPasses(s, passes).state;
    RecoverKeeps(drawn, recovery);
    LaterTransitive(s, drawn, RecoverEngine(drawn, recovery).state);
  }

  lemma FinishSubmitKeeps(s: State, fetch: bool, fenced: bool, o: Oracle, recovery: Oracle)
    requires Inv(s)
    ensures var t := FinishSubmit(SubmitStream(s, fetch, fenced, o), recovery).state; Inv(t) && Later(s, t)
  {
    SubmitStreamKeeps(s, fetch, fenced, o);
    var r := SubmitStream(s, fetch, fenced, o);
    if !r.ok {
      RecoverKeeps(r.state, recovery);
      LaterTransitive(s, r.state, RecoverEngine(r.state, recovery).state);
    }
  }

  lemma SubmitPreparedKeeps(s: State, prepared: Outcome, session: Session, kind: Submission,
                            o: Oracle, recovery: Oracle)
    requires Inv(prepared.state) && Later(s, prepared.state)
    ensures var t := SubmitPrepared(s, prepared, session, kind, o, recovery).state; Inv(t) && Later(s, t)
  {
    var guarded := if kind.Batch? then prepared.state else FetchGuard(prepared.state);
    assert Inv(guarded) && Later(s, guarded);
    FinishSubmitKeeps(guarded, kind.Dispatch?, kind.Fenced(), o, recovery);
    LaterTransitive(s, guarded, FinishSubmit(SubmitStream(guarded, kind.Dispatch?, kind.Fenced(), o), recovery).state);
  }

  lemma SubmitKeeps(s: State, session: Session, kind: Submission, o: Oracle, recovery: Oracle)
    requires Inv(s)
    ensures var t := Submit(s, session, kind, o, recovery).state; Inv(t) && Later(s, t)
  {
    var prepared := Prepare3D(s, o);
    assert Inv(prepared.state) && Later(s, prepared.state) by { SynchronizeKeeps(s, o); }
    SubmitPreparedKeeps(s, prepared, session, kind, o, recovery);
  }

  lemma WaitFenceKeeps(s: State, fence: u32, o: Oracle)
    requires Inv(s)
    ensures var t := WaitFence(s, fence, o).state; Inv(t) && Later(s, t)
  {
    if s.cp.present { RunsKeeps(s.card, o.runs); }
    if !s.cp.ready { RunsDrained(s.card, o.runs); }
  }

  lemma RetireKeeps(s: State, lastFence: u32, o: Oracle, recovery: Oracle)
    requires Inv(s)
    ensures var t := RetireSession(s, lastFence, o, recovery); Inv(t) && Later(s, t)
  {
    if lastFence != 0 {
      WaitFenceKeeps(s, lastFence, o);
      var waited := WaitFence(s, lastFence, o).state;
      RecoverKeeps(waited, recovery);
      LaterTransitive(s, waited, RecoverEngine(waited, recovery).state);
    }
  }

  lemma StopKeeps(s: State)
    requires Inv(s)
    ensures Inv(StopBoard(s))
  {
  }

  lemma FinishReleaseKeeps(s: State, o: Oracle)
    requires Inv(s)
    ensures Inv(FinishRelease(s, o)) && Later(s, FinishRelease(s, o))
  {
    if s.service == Detaching {
      SynchronizeKeeps(s, o);
      StopKeeps(if s.pending == Nothing then s else SynchronizeEngine(s, o).state);
    }
  }

  lemma AttachKeeps(s: State, o: Oracle)
    requires Inv(s)
    ensures Inv(Attach(s, o)) && Later(s, Attach(s, o))
  {
    assert FreshRing(s.card).log[..0] == [];
  }

  // ------------------------------------------------------------ runs

  lemma StepKeeps(s: State, e: Event)
    requires Inv(s) && !e.AcquireEvent?
    ensures Inv(Step(s, e)) && Later(s, Step(s, e))
  {
    match e
    case CardRuns(count) =>
      if s.cp.present { RunsKeeps(s.card, count); }
      if s.card.Drained() { RunsDrained(s.card, count); }
    case CardIdles =>
    case DrawEvent(passes, recovery) => DrawKeeps(s, passes, recovery);
    case DrainEvent(o) => SynchronizeKeeps(s, o);
    case SubmitEvent(session, kind, o, recovery) => SubmitKeeps(s, session, kind, o, recovery);
    case FenceEvent(session, lastFence, fence, o) => WaitFenceKeeps(s, fence, o);
    case ReleaseEvent(session, lastFence, o, recovery) =>
    case ReclaimEvent(o) =>
    case HolderWrites(entries, scratch) =>
    case SurfaceEvent(session, lastFence, o, recovery) => RetireKeeps(s, lastFence, o, recovery);
    case CloseEvent(session, lastFence, o, recovery) => RetireKeeps(s, lastFence, o, recovery);
    case BeginReleaseEvent =>
    case FinishReleaseEvent(o) => FinishReleaseKeeps(s, o);
    case AttachEvent(o) => AttachKeeps(s, o);
  }

  /** No lease is ever granted, so none is ever active. */
  ghost predicate LeaseFree(events: seq<Event>) {
    forall i :: 0 <= i < |events| ==> !events[i].AcquireEvent?
  }

  lemma {:induction false} RunKeeps(s: State, events: seq<Event>)
    requires Inv(s) && LeaseFree(events)
    ensures Inv(Run(s, events)) && Later(s, Run(s, events))
    decreases |events|
  {
    if |events| > 0 {
      var earlier := events[..|events| - 1];
      RunKeeps(s, earlier);
      StepKeeps(Run(s, earlier), events[|events| - 1]);
      LaterTransitive(s, Run(s, earlier), Run(s, events));
    }
  }

  /** Everything reachable from power-up without a lease. */
  lemma ReachableInv(events: seq<Event>)
    requires LeaseFree(events)
    ensures Inv(Run(Initial, events))
  {
    RunKeeps(Initial, events);
  }

  /** How many fences precede a position, against how many are complete. */
  lemma FenceOrder(c: Card, i: nat)
    requires c.done <= |c.log| && i < |c.log| && c.log[i].Fence?
    ensures var serial, retired := CountFences(c.log[..i + 1]), CountFences(c.log[..c.done]);
      && 1 <= serial <= CountFences(c.log)
      && retired <= CountFences(c.log) <= retired + (|c.log| - c.done)
      && (serial <= retired <==> i < c.done)
  {
    var upTo := c.log[..i + 1];
    assert upTo[..i] == c.log[..i];
    CountFencesPrefix(c.log, c.done);
    CountFencesPrefix(c.log, i + 1);
    if i < c.done {
      assert c.log[..c.done][..i + 1] == upTo;
      CountFencesPrefix(c.log[..c.done], i + 1);
    } else {
      assert c.log[..i][..c.done] == c.log[..c.done];
      CountFencesPrefix(c.log[..i], c.done);
    }
  }

  /** On one ring: the fence at position `i` tests as retired only once it is complete, and then for long. */
  lemma FencePositionExact(c: Card, i: nat)
    requires RingInv(c) && Bounded(c) && i < |c.log| && c.log[i].Fence?
    ensures FenceReached(c.scratch, c.log[i].sequence) ==> i < c.done
    ensures i < c.done && CountFences(c.log[..c.done]) <= CountFences(c.log[..i + 1]) + 0x7fff_fffe ==>
      FenceReached(c.scratch, c.log[i].sequence)
    ensures i == |c.log| - 1 && c.scratch == c.log[i].sequence ==> i < c.done
  {
    FenceOrder(c, i);
    FenceReachedExact(CountFences(c.log[..c.done]), CountFences(c.log), CountFences(c.log[..i + 1]));
    if i == |c.log| - 1 { assert c.log[..i + 1] == c.log; }
  }

  /** A session still usable fewer than 2^32-1 generations later still faces the same ring. */
  lemma StillSameRing(s: State, t: State, session: Session)
    requires Later(s, t) && Usable(s, session) && Usable(t, session)
    requires t.advances - s.advances < TWO32 - 1
    ensures t.card.epoch == s.card.epoch && s.card.log <= t.card.log && s.card.done <= t.card.done
  {
    SkipZeroCollides(s.advances + 1, t.advances + 1);
    var q := t.advances - s.advances;
    if q != 0 { ModUnique(q, 0, q, TWO32 - 1); }
  }

  /**
   The two-point theorem.  A session's fence sits at position `i` of the ring log.
   After any lease-free run, if the session is still usable and fewer than 2^32-1
   generations have passed, then the ring is the one the fence was submitted to,
   and the fence tests as retired only once every stream up to and including it is
   complete.  It does test as retired when that happened within the last 2^31-2
   fences.  What is incomplete at the end has to be `Bounded`, as the ring sees to.
   */
  lemma FenceSoundness(s: State, events: seq<Event>, session: Session, i: nat)
    requires Inv(s) && LeaseFree(events)
    requires Usable(s, session)
    requires i < |s.card.log| && s.card.log[i].Fence?
    requires Run(s, events).advances - s.advances < TWO32 - 1 && Bounded(Run(s, events).card)
    requires Usable(Run(s, events), session)
    ensures var c := Run(s, events).card; var fence := s.card.log[i].sequence;
      && c.epoch == s.card.epoch
      && s.card.log <= c.log && c.done <= |c.log|
      && (FenceReached(c.scratch, fence) ==> i < c.done)
      && (i < c.done && CountFences(c.log[..c.done]) <= CountFences(c.log[..i + 1]) + 0x7fff_fffe ==>
          FenceReached(c.scratch, fence))
  {
    RunKeeps(s, events);
    StillSameRing(s, Run(s, events), session);
    FencePositionExact(Run(s, events).card, i);
  }

  /** What Radeon3DTestFence and Radeon3DWaitFence promise when they succeed. */
  lemma SessionFenceSoundness(s: State, events: seq<Event>, session: Session, i: nat, lastFence: u32, o: Oracle)
    requires Inv(s) && LeaseFree(events)
    requires Usable(s, session)
    requires i < |s.card.log| && s.card.log[i].Fence?
    requires Run(s, events).advances - s.advances < TWO32 - 1 && Bounded(Run(s, events).card)
    requires SessionFence(Run(s, events), session, lastFence, s.card.log[i].sequence, o).ok
    ensures var c := SessionFence(Run(s, events), session, lastFence, s.card.log[i].sequence, o).state.card;
      c.epoch == s.card.epoch && s.card.log <= c.log && i < c.done
  {
    var t := Run(s, events);
    RunKeeps(s, events);
    StillSameRing(s, t, session);
    RunsKeeps(t.card, o.runs);
    FencePositionExact(Runs(t.card, o.runs), i);
  }

  /**
   The same from power-up: whatever lease-free run came before the fence was issued
   and whatever came after, nothing has to be assumed of the state in between.
   */
  lemma FencesFromPowerUp(before: seq<Event>, events: seq<Event>, session: Session, i: nat, lastFence: u32, o: Oracle)
    requires LeaseFree(before) && LeaseFree(events)
    requires var s := Run(Initial, before);
      && Usable(s, session) && i < |s.card.log| && s.card.log[i].Fence?
      && Run(s, events).advances - s.advances < TWO32 - 1 && Bounded(Run(s, events).card)
      && SessionFence(Run(s, events), session, lastFence, s.card.log[i].sequence, o).ok
    ensures var s := Run(Initial, before);
      var c := SessionFence(Run(s, events), session, lastFence, s.card.log[i].sequence, o).state.card;
      c.epoch == s.card.epoch && s.card.log <= c.log && i < c.done
  {
    ReachableInv(before);
    SessionFenceSoundness(Run(Initial, before), events, session, i, lastFence, o);
  }

  /**
   Generations are compared as 32-bit values, so a session from before a recovery
   passes the check again exactly when a multiple of 2^32-1 invalidations went by.
   */
  lemma StaleSessionExact(s: State, t: State, session: Session)
    requires session.generation == s.Generation() && s.advances <= t.advances
    requires t.service == InService && t.cp.ready
    ensures Usable(t, session) <==> (t.advances - s.advances) % (TWO32 - 1) == 0
  {
    SkipZeroCollides(s.advances + 1, t.advances + 1);
  }
}
