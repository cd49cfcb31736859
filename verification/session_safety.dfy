/**
 What every run of the session protocol keeps, for any number of threads: the call
 count of a record is the number of threads inside it, its cleanup and its owner
 pin are each handled exactly once, and the locks are always grantable.
 */
module SessionSafety {
  import opened Words
  import opened Sessions

  // ------------------------------------------------------------ counting threads

  /** What a thread can owe to a record. */
  datatype Role = Caller | Cleaner | PinHolder

  predicate Plays(pc: Pc, role: Role, r: nat) {
    match role
    case Caller =>
      (pc.WantBoard? || pc.WantRecheck? || pc.InCall? || pc.WantNested? || pc.WantExit?) && pc.r == r
    case Cleaner => pc.WantReady? && pc.r == r
    case PinHolder =>
      ((pc.WantReady? && pc.pin) || pc.DropPin? || pc.WantRelease? || pc.WantDetach? || pc.WantEmpty? || pc.ClosePin?)
      && pc.r == r
  }

  function One(b: bool): nat { if b then 1 else 0 }

  function Count(threads: seq<Pc>, role: Role, r: nat): nat {
    if |threads| == 0 then 0 else One(Plays(threads[0], role, r)) + Count(threads[1..], role, r)
  }

  lemma {:induction false} CountMoves(threads: seq<Pc>, t: nat, pc: Pc, role: Role, r: nat)
    requires t < |threads|
    ensures Count(threads[t := pc], role, r) + One(Plays(threads[t], role, r))
         == Count(threads, role, r) + One(Plays(pc, role, r))
  {
    var moved := threads[t := pc];
    if t == 0 {
      assert moved[1..] == threads[1..];
    } else {
      assert moved[1..] == threads[1..][t - 1 := pc];
      CountMoves(threads[1..], t - 1, pc, role, r);
    }
  }

  lemma {:induction false} CountIdle(threads: seq<Pc>, role: Role, r: nat)
    requires forall t :: 0 <= t < |threads| ==> !Plays(threads[t], role, r)
    ensures Count(threads, role, r) == 0
  {
    if |threads| > 0 {
      assert !Plays(threads[0], role, r);
      forall t | 0 <= t < |threads[1..]| ensures !Plays(threads[1..][t], role, r) {
        assert !Plays(threads[t + 1], role, r);
      }
      CountIdle(threads[1..], role, r);
    }
  }

  /** The number of records whose cleanup has not been reported yet. */
  function Unready(records: seq<Record>): nat {
    if |records| == 0 then 0 else Unready(records[..|records| - 1]) + One(!records[|records| - 1].cleanupReady)
  }

  lemma {:induction false} UnreadyMoves(records: seq<Record>, r: nat, record: Record)
    requires r < |records|
    ensures Unready(records[r := record]) + One(!records[r].cleanupReady)
      == Unready(records) + One(!record.cleanupReady)
  {
    var last := |records| - 1;
    var moved := records[r := record];
    if r == last {
      assert moved[..last] == records[..last];
    } else {
      assert moved[..last] == records[..last][r := record];
      UnreadyMoves(records[..last], r, record);
    }
  }

  lemma {:induction false} UnreadySame(a: seq<Record>, b: seq<Record>)
    requires |a| == |b| && forall i :: 0 <= i < |a| ==> a[i].cleanupReady == b[i].cleanupReady
    ensures Unready(a) == Unready(b)
  {
    if |a| > 0 { UnreadySame(a[..|a| - 1], b[..|b| - 1]); }
  }

  lemma {:induction false} UnreadyZero(records: seq<Record>, r: nat)
    requires r < |records| && Unready(records) == 0
    ensures records[r].cleanupReady
  {
    if r < |records| - 1 { UnreadyZero(records[..|records| - 1], r); }
  }

  // ------------------------------------------------------------ the invariant

  /** A record against the threads that are inside it, owe its cleanup, or carry its pin. */
  predicate RecordInv(record: Record, callers: nat, cleaners: nat, pinHolders: nat) {
    && record.activeCalls == callers
    && record.closing == (record.place != Active)
    && record.cleanupDone == (record.closing && callers == 0)
    && record.cleanups == One(record.cleanupReady)
    && cleaners + record.cleanups == One(record.cleanupDone)
    && record.ownerPin == !record.cleanupDone
    && pinHolders + record.pinsClosed == One(record.cleanupDone)
    && (record.place == Freed ==> record.cleanupReady)
  }

  predicate Tallied(threads: seq<Pc>, record: Record, r: nat) {
    RecordInv(record, Count(threads, Caller, r), Count(threads, Cleaner, r), Count(threads, PinHolder, r))
  }

  predicate AllTallied(threads: seq<Pc>, records: seq<Record>) {
    forall r :: 0 <= r < |records| ==> Tallied(threads, records[r], r)
  }

  predicate AllBound(s: State) {
    forall t :: 0 <= t < |s.threads| ==> Bound(s, s.threads[t])
  }

  predicate LocksInv(s: State) {
    && (forall t :: 0 <= t < |s.threads| ==> (HoldsBoard(s.threads[t]) <==> s.boardOwner == Some(t)))
    && (s.boardOwner.Some? ==> s.boardOwner.value < |s.threads|)
    && (s.serviceOwner.Some? ==> s.serviceOwner.value < |s.threads| && WantsService(s.threads[s.serviceOwner.value]))
  }

  predicate Inv(s: State) {
    AllBound(s) && LocksInv(s) && AllTallied(s.threads, s.records) && s.sessions == Unready(s.records)
  }

  // ------------------------------------------------------------ one step

  /** A move that changes no record's dealings keeps every tally. */
  lemma MoveTallied(threads: seq<Pc>, t: nat, pc: Pc, record: Record, r: nat)
    requires t < |threads| && Tallied(threads, record, r)
    requires forall role :: Plays(threads[t], role, r) == Plays(pc, role, r)
    ensures Tallied(threads[t := pc], record, r)
  {
    CountMoves(threads, t, pc, Caller, r);
    CountMoves(threads, t, pc, Cleaner, r);
    CountMoves(threads, t, pc, PinHolder, r);
    assert Plays(threads[t], Caller, r) == Plays(pc, Caller, r);
    assert Plays(threads[t], Cleaner, r) == Plays(pc, Cleaner, r);
    assert Plays(threads[t], PinHolder, r) == Plays(pc, PinHolder, r);
  }

  /** The program counters that mention a record at all. */
  predicate Mentions(pc: Pc, r: nat) { Plays(pc, Caller, r) || Plays(pc, Cleaner, r) || Plays(pc, PinHolder, r) }

  /** A move within one record, or none, leaves the other records' tallies alone. */
  lemma OthersTallied(threads: seq<Pc>, records: seq<Record>, t: nat, pc: Pc, r: nat)
    requires t < |threads| && AllTallied(threads, records)
    requires forall k :: k != r ==> !Mentions(threads[t], k) && !Mentions(pc, k)
    ensures forall k :: 0 <= k < |records| && k != r ==> Tallied(threads[t := pc], records[k], k)
  {
    forall k | 0 <= k < |records| && k != r ensures Tallied(threads[t := pc], records[k], k) {
      assert !Mentions(threads[t], k) && !Mentions(pc, k);
      MoveTallied(threads, t, pc, records[k], k);
    }
  }

  /** A move that changes one record: only that record's tally needs a look. */
  lemma ChangeTallied(threads: seq<Pc>, records: seq<Record>, t: nat, pc: Pc, r: nat, record: Record)
    requires t < |threads| && r < |records| && AllTallied(threads, records)
    requires forall k :: k != r ==> !Mentions(threads[t], k) && !Mentions(pc, k)
    requires Tallied(threads[t := pc], record, r)
    ensures AllTallied(threads[t := pc], records[r := record])
  {
    OthersTallied(threads, records, t, pc, r);
  }

  /** The three counts of one record after a move. */
  lemma Recount(threads: seq<Pc>, t: nat, pc: Pc, r: nat)
    requires t < |threads|
    ensures forall role :: Count(threads[t := pc], role, r) + One(Plays(threads[t], role, r))
                        == Count(threads, role, r) + One(Plays(pc, role, r))
  {
    forall role ensures Count(threads[t := pc], role, r) + One(Plays(threads[t], role, r))
                     == Count(threads, role, r) + One(Plays(pc, role, r)) {
      CountMoves(threads, t, pc, role, r);
    }
  }

  lemma DropTallied(s: State, t: nat, r: nat, after: Option<u32>)
    requires t < |s.threads| && r < |s.records| && AllTallied(s.threads, s.records)
    requires Plays(s.threads[t], Caller, r)
    ensures s.records[r].activeCalls > 0
    ensures var e := DropAt(s, r, after);
      AllTallied(s.threads[t := e.pc], e.records) && Unready(e.records) == Unready(s.records)
  {
    var d := DropCall(s.records[r]);
    var pc := Finish(r, d.cleanup, d.pin, after);
    assert Tallied(s.threads, s.records[r], r);
    Recount(s.threads, t, pc, r);
    CountMoves(s.threads, t, Idle, Caller, r);
    assert Tallied(s.threads[t := pc], d.record, r);
    ChangeTallied(s.threads, s.records, t, pc, r, d.record);
    UnreadyMoves(s.records, r, d.record);
  }

  /** What a region or an unlocked action has to give back. */
  predicate Good(s: State, t: nat, e: Effect)
    requires t < |s.threads|
  {
    && AllTallied(s.threads[t := e.pc], e.records)
    && e.sessions == Unready(e.records)
    && |s.records| <= |e.records|
    && (e.pc.Idle? || e.pc.WantOpen? || e.pc.WantEntry? || e.pc.WantMark? || e.pc.r < |e.records|)
  }

  /** Moving on without touching a record. */
  lemma SameGood(s: State, t: nat, pc: Pc)
    requires Inv(s) && t < |s.threads| && Bound(s, pc)
    requires forall role, r :: Plays(s.threads[t], role, r) == Plays(pc, role, r)
    ensures Good(s, t, Same(s, pc))
  {
    forall r | 0 <= r < |s.records| ensures Tallied(s.threads[t := pc], s.records[r], r) {
      MoveTallied(s.threads, t, pc, s.records[r], r);
    }
  }

  lemma ReapTallied(threads: seq<Pc>, records: seq<Record>)
    requires AllTallied(threads, records)
    ensures AllTallied(threads, Reap(records)) && Unready(Reap(records)) == Unready(records)
  {
    var reaped := Reap(records);
    forall r | 0 <= r < |reaped| ensures Tallied(threads, reaped[r], r) {
      assert Tallied(threads, records[r], r);
    }
    UnreadySame(records, reaped);
  }

  /** With no session left every retired record is ready, so freeing them all is safe. */
  lemma ExpungeTallied(threads: seq<Pc>, records: seq<Record>)
    requires AllTallied(threads, records) && Unready(records) == 0
    ensures AllTallied(threads, FreeRetired(records)) && Unready(FreeRetired(records)) == 0
  {
    var freed := FreeRetired(records);
    forall r | 0 <= r < |freed| ensures Tallied(threads, freed[r], r) {
      assert Tallied(threads, records[r], r);
      UnreadyZero(records, r);
    }
    UnreadySame(records, freed);
  }

  lemma NoCounts(s: State, r: nat)
    requires AllBound(s) && r >= |s.records|
    ensures forall role :: Count(s.threads, role, r) == 0
  {
    forall role ensures Count(s.threads, role, r) == 0 {
      forall t | 0 <= t < |s.threads| ensures !Plays(s.threads[t], role, r) {
        assert Bound(s, s.threads[t]);
      }
      CountIdle(s.threads, role, r);
    }
  }

  /** A record nobody refers to yet, as opening makes it. */
  function Opened(handle: u32): Record { Record(handle, Active, 0, false, false, false, true, 0, 0) }

  lemma NewTallied(s: State, handle: u32)
    requires AllBound(s)
    ensures Tallied(s.threads, Opened(handle), |s.records|)
  {
    NoCounts(s, |s.records|);
    assert Count(s.threads, Caller, |s.records|) == 0;
    assert Count(s.threads, Cleaner, |s.records|) == 0;
    assert Count(s.threads, PinHolder, |s.records|) == 0;
  }

  lemma Appended(threads: seq<Pc>, records: seq<Record>, record: Record)
    requires AllTallied(threads, records) && Tallied(threads, record, |records|)
    ensures AllTallied(threads, records + [record])
  {
    var longer := records + [record];
    forall r | 0 <= r < |longer| ensures Tallied(threads, longer[r], r) {
      if r < |records| { assert longer[r] == records[r]; }
    }
  }

  lemma OpenedUnready(records: seq<Record>, record: Record)
    ensures Unready(records + [record]) == Unready(records) + One(!record.cleanupReady)
  {
    assert (records + [record])[..|records|] == records;
  }

  /** The thread that opened goes idle; it mentioned no record. */
  lemma MovedOn(threads: seq<Pc>, t: nat, records: seq<Record>)
    requires t < |threads| && threads[t].WantOpen? && AllTallied(threads, records)
    ensures AllTallied(threads[t := Idle], records)
  {
    forall r | 0 <= r < |records| ensures Tallied(threads[t := Idle], records[r], r) {
      MoveTallied(threads, t, Idle, records[r], r);
    }
  }

  /** Reaping, and the new record if the service is usable. */
  lemma OpenedTallied(s: State, c: Choice)
    requires AllBound(s) && AllTallied(s.threads, s.records)
    ensures AllTallied(s.threads, OpenRegion(s, c).records)
    ensures Unready(OpenRegion(s, c).records) == Unready(s.records) + One(c.usable)
  {
    var reaped := Reap(s.records);
    ReapTallied(s.threads, s.records);
    if c.usable {
      NewTallied(s, s.nextHandle);
      Appended(s.threads, reaped, Opened(s.nextHandle));
      OpenedUnready(reaped, Opened(s.nextHandle));
    }
  }

  lemma OpenGood(s: State, t: nat, c: Choice)
    requires Inv(s) && t < |s.threads| && s.threads[t].WantOpen?
    ensures Good(s, t, OpenRegion(s, c))
  {
    OpenedTallied(s, c);
    MovedOn(s.threads, t, OpenRegion(s, c).records);
  }

  lemma EntryGood(s: State, t: nat, c: Choice)
    requires Inv(s) && t < |s.threads| && s.threads[t].WantEntry?
    ensures Good(s, t, EntryRegion(s, s.threads[t].handle, s.threads[t].close, c))
  {
    var e := EntryRegion(s, s.threads[t].handle, s.threads[t].close, c);
    var r := FindDevice(s.records, s.threads[t].handle, 0);
    if r < |s.records| && c.usable {
      assert Tallied(s.threads, s.records[r], r);
      Recount(s.threads, t, e.pc, r);
      assert Tallied(s.threads[t := e.pc], e.records[r], r);
      ChangeTallied(s.threads, s.records, t, e.pc, r, e.records[r]);
      UnreadyMoves(s.records, r, e.records[r]);
    } else {
      SameGood(s, t, e.pc);
    }
  }

  lemma DropGood(s: State, t: nat)
    requires Inv(s) && t < |s.threads| && (s.threads[t].WantRecheck? || s.threads[t].WantExit?)
    ensures Good(s, t, DropAt(s, s.threads[t].r, s.threads[t].after))
    ensures s.records[s.threads[t].r].activeCalls > 0
  {
    assert Bound(s, s.threads[t]);
    DropTallied(s, t, s.threads[t].r, s.threads[t].after);
  }

  lemma ReadyGood(s: State, t: nat, c: Choice)
    requires Inv(s) && t < |s.threads| && s.threads[t].WantReady? && Bound(s, s.threads[t])
    ensures Good(s, t, Region(s, s.threads[t], c))
    ensures s.sessions > 0
  {
    var pc := s.threads[t];
    var e := Region(s, pc, c);
    assert Tallied(s.threads, s.records[pc.r], pc.r);
    Recount(s.threads, t, e.pc, pc.r);
    CountMoves(s.threads, t, Idle, Cleaner, pc.r);
    assert Tallied(s.threads[t := e.pc], e.records[pc.r], pc.r);
    ChangeTallied(s.threads, s.records, t, e.pc, pc.r, e.records[pc.r]);
    UnreadyMoves(s.records, pc.r, e.records[pc.r]);
  }

  lemma MarkTallied(threads: seq<Pc>, t: nat, record: Record, r: nat)
    requires t < |threads| && threads[t].WantMark? && record.place == Active && Tallied(threads, record, r)
    ensures var d := MarkClosing(record);
      Tallied(threads[t := Finish(r, d.cleanup, d.pin, None)], d.record, r)
  {
    var d := MarkClosing(record);
    var pc := Finish(r, d.cleanup, d.pin, None);
    CountMoves(threads, t, pc, Caller, r);
    CountMoves(threads, t, pc, Cleaner, r);
    CountMoves(threads, t, pc, PinHolder, r);
  }

  lemma MarkGood(s: State, t: nat)
    requires Inv(s) && t < |s.threads| && s.threads[t].WantMark?
    ensures Good(s, t, MarkRegion(s, s.threads[t].handle))
  {
    var e := MarkRegion(s, s.threads[t].handle);
    var r := FindDevice(s.records, s.threads[t].handle, 0);
    if r < |s.records| {
      var d := MarkClosing(s.records[r]);
      MarkTallied(s.threads, t, s.records[r], r);
      ChangeTallied(s.threads, s.records, t, e.pc, r, d.record);
      UnreadyMoves(s.records, r, d.record);
    } else {
      SameGood(s, t, Idle);
    }
  }

  lemma CloseGood(s: State, t: nat, c: Choice)
    requires Inv(s) && t < |s.threads| && s.threads[t].ClosePin? && Bound(s, s.threads[t])
    ensures Good(s, t, Unlocked(s, s.threads[t], c))
  {
    var pc := s.threads[t];
    var e := Unlocked(s, pc, c);
    assert Tallied(s.threads, s.records[pc.r], pc.r);
    Recount(s.threads, t, e.pc, pc.r);
    assert Tallied(s.threads[t := e.pc], e.records[pc.r], pc.r);
    ChangeTallied(s.threads, s.records, t, e.pc, pc.r, e.records[pc.r]);
    UnreadyMoves(s.records, pc.r, e.records[pc.r]);
  }

  lemma RegionGood(s: State, t: nat, c: Choice)
    requires Inv(s) && t < |s.threads| && WantsService(s.threads[t]) && Bound(s, s.threads[t])
    ensures Good(s, t, Region(s, s.threads[t], c))
  {
    match s.threads[t]
    case WantOpen => OpenGood(s, t, c);
    case WantEntry(_, _) => EntryGood(s, t, c);
    case WantRecheck(r, after) =>
      if s.records[r].place == Active && c.usable { SameGood(s, t, InCall(r, after)); } else { DropGood(s, t); }
    case WantNested(r, after) => SameGood(s, t, InCall(r, after));
    case WantExit(_, _) => DropGood(s, t);
    case WantReady(_, _, _) => ReadyGood(s, t, c);
    case WantDetach(r, after) => SameGood(s, t, Region(s, s.threads[t], c).pc);
    case WantEmpty(r, after) => SameGood(s, t, ClosePin(r, after));
    case WantMark(_) => MarkGood(s, t);
  }

  lemma UnlockedGood(s: State, t: nat, c: Choice)
    requires Inv(s) && t < |s.threads| && Bound(s, s.threads[t])
    requires !WantsService(s.threads[t]) && !WantsBoard(s.threads[t])
    ensures Good(s, t, Unlocked(s, s.threads[t], c))
  {
    var e := Unlocked(s, s.threads[t], c);
    match s.threads[t]
    case Idle =>
      if c.action == Expunges && s.sessions == 0 {
        assert s.threads[t := Idle] == s.threads;
        ExpungeTallied(s.threads, s.records);
      } else {
        SameGood(s, t, e.pc);
      }
    case InCall(_, _) => SameGood(s, t, e.pc);
    case DropPin(_, _) => SameGood(s, t, e.pc);
    case ClosePin(_, _) => CloseGood(s, t, c);
  }

  /** A region or unlocked action of the lock's owner keeps the invariant. */
  lemma ApplyKeeps(s: State, t: nat, e: Effect)
    requires Inv(s) && t < |s.threads| && Good(s, t, e)
    requires HoldsBoard(e.pc) ==> HoldsBoard(s.threads[t])
    requires s.serviceOwner != Some(t)
    ensures Inv(Apply(s, t, e))
  {
    var n := Apply(s, t, e);
    forall k | 0 <= k < |n.threads| ensures Bound(n, n.threads[k]) {
      assert Bound(s, s.threads[k]);
    }
    forall k | 0 <= k < |n.threads| ensures HoldsBoard(n.threads[k]) <==> n.boardOwner == Some(k) {
      assert HoldsBoard(s.threads[k]) <==> s.boardOwner == Some(k);
    }
  }

  lemma BoardTaken(s: State, t: nat, pc: Pc)
    requires Inv(s) && t < |s.threads| && s.boardOwner == None
    requires WantsBoard(s.threads[t]) && HoldsBoard(pc) && Bound(s, pc)
    requires forall role, r :: Plays(s.threads[t], role, r) == Plays(pc, role, r)
    ensures Inv(s.(boardOwner := Some(t), threads := s.threads[t := pc]))
  {
    SameGood(s, t, pc);
    var n := s.(boardOwner := Some(t), threads := s.threads[t := pc]);
    forall k | 0 <= k < |n.threads| ensures HoldsBoard(n.threads[k]) <==> n.boardOwner == Some(k) {
      assert HoldsBoard(s.threads[k]) <==> s.boardOwner == Some(k);
    }
    forall k | 0 <= k < |n.threads| ensures Bound(n, n.threads[k]) {
      assert Bound(s, s.threads[k]);
    }
  }

  /** The same for a ServiceLock region, which also gives that lock back. */
  lemma RegionApplied(s: State, t: nat, e: Effect)
    requires Inv(s) && t < |s.threads| && Good(s, t, e)
    requires HoldsBoard(e.pc) ==> HoldsBoard(s.threads[t])
    ensures Inv(Apply(s, t, e).(serviceOwner := None))
  {
    var free := s.(serviceOwner := None);
    assert Inv(free);
    assert Good(free, t, e);
    ApplyKeeps(free, t, e);
  }

  lemma RegionTakesNoBoard(s: State, pc: Pc, c: Choice)
    requires WantsService(pc) && Bound(s, pc)
    ensures HoldsBoard(Region(s, pc, c).pc) ==> HoldsBoard(pc)
  {
  }

  lemma OwnedStepKeeps(s: State, t: nat, c: Choice)
    requires Inv(s) && t < |s.threads| && WantsService(s.threads[t]) && Bound(s, s.threads[t])
    ensures Inv(Apply(s, t, Region(s, s.threads[t], c)).(serviceOwner := None))
  {
    RegionGood(s, t, c);
    RegionTakesNoBoard(s, s.threads[t], c);
    RegionApplied(s, t, Region(s, s.threads[t], c));
  }

  lemma UnlockedStepKeeps(s: State, t: nat, c: Choice)
    requires Inv(s) && t < |s.threads| && Bound(s, s.threads[t])
    requires !WantsService(s.threads[t]) && !WantsBoard(s.threads[t])
    ensures Inv(Apply(s, t, Unlocked(s, s.threads[t], c)))
  {
    UnlockedGood(s, t, c);
    ApplyKeeps(s, t, Unlocked(s, s.threads[t], c));
  }

  /** Every step of every thread keeps the invariant. */
  lemma StepKeeps(s: State, t: nat, c: Choice)
    requires Inv(s) && t < |s.threads|
    ensures Bound(s, s.threads[t])
    ensures Inv(Step(s, t, c))
  {
    var pc := s.threads[t];
    assert Bound(s, pc);
    if WantsService(pc) {
      OwnedStepKeeps(s, t, c);
    } else if WantsBoard(pc) {
      if s.boardOwner == None {
        BoardTaken(s, t, if pc.WantBoard? then WantRecheck(pc.r, pc.after) else WantDetach(pc.r, pc.after));
      }
    } else {
      UnlockedStepKeeps(s, t, c);
    }
  }

  // ------------------------------------------------------------ every run

  /** Any interleaving: which thread moves, and what its environment decides. */
  datatype Move = Move(thread: nat, choice: Choice)

  function Start(threads: nat): State {
    State([], 0, FIRST_HANDLE, seq(threads, i => Idle), None, None)
  }

  function Run(threads: nat, moves: seq<Move>): State
    decreases |moves|
  {
    if |moves| == 0 then Start(threads)
    else
      var s, m := Run(threads, moves[..|moves| - 1]), moves[|moves| - 1];
      if m.thread < |s.threads| && Bound(s, s.threads[m.thread]) then Step(s, m.thread, m.choice) else s
  }

  lemma {:induction false} RunKeeps(threads: nat, moves: seq<Move>)
    ensures Inv(Run(threads, moves))
    decreases |moves|
  {
    if |moves| > 0 {
      RunKeeps(threads, moves[..|moves| - 1]);
      var s, m := Run(threads, moves[..|moves| - 1]), moves[|moves| - 1];
      if m.thread < |s.threads| && Bound(s, s.threads[m.thread]) { StepKeeps(s, m.thread, m.choice); }
    }
  }

  lemma {:induction false} CountPlays(threads: seq<Pc>, t: nat, role: Role, r: nat)
    requires t < |threads| && Plays(threads[t], role, r)
    ensures Count(threads, role, r) > 0
  {
    CountMoves(threads, t, Idle, role, r);
  }

  /**
   A thread inside a call, or cleaning up, has its record: it is not freed, the
   next reap will not free it, and while calls are inside no cleanup has begun.
   */
  lemma HeldRecordLives(threads: nat, moves: seq<Move>, t: nat, r: nat)
    requires t < |Run(threads, moves).threads|
    requires Plays(Run(threads, moves).threads[t], Caller, r) || Plays(Run(threads, moves).threads[t], Cleaner, r)
    ensures var s := Run(threads, moves);
      && r < |s.records| && s.records[r].place != Freed && Reap(s.records)[r].place != Freed && s.sessions > 0
      && (Plays(s.threads[t], Caller, r) ==> s.records[r].activeCalls > 0 && !s.records[r].cleanupDone)
  {
    var s := Run(threads, moves);
    RunKeeps(threads, moves);
    assert Bound(s, s.threads[t]);
    assert Tallied(s.threads, s.records[r], r);
    CountPlays(s.threads, t, if Plays(s.threads[t], Caller, r) then Caller else Cleaner, r);
    if s.sessions == 0 { UnreadyZero(s.records, r); }
  }

  /** No run cleans a record twice or closes its pin twice, and none does either while the session is open. */
  lemma CleanupAtMostOnce(threads: nat, moves: seq<Move>, r: nat)
    requires r < |Run(threads, moves).records|
    ensures var s := Run(threads, moves);
      && s.records[r].cleanups <= 1 && s.records[r].pinsClosed <= 1
      && (s.records[r].place == Active ==>
        s.records[r].cleanups == 0 && s.records[r].pinsClosed == 0 && s.records[r].ownerPin)
      && (s.records[r].place == Freed ==> s.records[r].cleanups == 1)
  {
    RunKeeps(threads, moves);
    assert Tallied(Run(threads, moves).threads, Run(threads, moves).records[r], r);
  }

  /** Once all callers have returned, every closed session is cleaned once and its pin closed once. */
  lemma CleanupExactlyOnce(threads: nat, moves: seq<Move>, r: nat)
    requires r < |Run(threads, moves).records|
    requires forall t :: 0 <= t < |Run(threads, moves).threads| ==> Run(threads, moves).threads[t].Idle?
    ensures var record := Run(threads, moves).records[r];
      && record.activeCalls == 0
      && record.cleanups == record.pinsClosed == (if record.place == Active then 0 else 1)
  {
    var s := Run(threads, moves);
    RunKeeps(threads, moves);
    assert Tallied(s.threads, s.records[r], r);
    CountIdle(s.threads, Caller, r);
    CountIdle(s.threads, Cleaner, r);
    CountIdle(s.threads, PinHolder, r);
  }

  /** ServiceSessions, and the two guarded decrements: neither ever finds a zero. */
  lemma SessionsExact(threads: nat, moves: seq<Move>)
    ensures var s := Run(threads, moves);
      && s.sessions == Unready(s.records)
      && (forall t :: 0 <= t < |s.threads| && s.threads[t].WantReady? ==> s.sessions > 0)
      && (forall t :: 0 <= t < |s.threads| && (s.threads[t].WantExit? || s.threads[t].WantRecheck?) ==>
            s.threads[t].r < |s.records| && s.records[s.threads[t].r].activeCalls > 0)
  {
    var s := Run(threads, moves);
    RunKeeps(threads, moves);
    forall t | 0 <= t < |s.threads| && s.threads[t].WantReady? ensures s.sessions > 0 {
      assert Plays(s.threads[t], Cleaner, s.threads[t].r);
      HeldRecordLives(threads, moves, t, s.threads[t].r);
    }
    forall t | 0 <= t < |s.threads| && (s.threads[t].WantExit? || s.threads[t].WantRecheck?)
      ensures s.threads[t].r < |s.records| && s.records[s.threads[t].r].activeCalls > 0
    {
      assert Plays(s.threads[t], Caller, s.threads[t].r);
      HeldRecordLives(threads, moves, t, s.threads[t].r);
    }
  }

  predicate Blocked(s: State, t: nat)
    requires t < |s.threads|
  {
    || (WantsService(s.threads[t]) && s.serviceOwner.Some? && s.serviceOwner != Some(t))
    || (WantsBoard(s.threads[t]) && s.boardOwner.Some?)
  }

  /**
   The lock order: nobody asks for BoardLock while owning ServiceLock or BoardLock.  For
   ServiceLock this is also how the program counters are built: a region releases the
   lock in the step that leaves it.
   */
  lemma LockOrder(threads: nat, moves: seq<Move>, t: nat)
    requires t < |Run(threads, moves).threads| && WantsBoard(Run(threads, moves).threads[t])
    ensures Run(threads, moves).serviceOwner != Some(t) && Run(threads, moves).boardOwner != Some(t)
  {
    RunKeeps(threads, moves);
  }

  /** The thread a blocked thread ultimately waits for. */
  function Blocker(s: State, t: nat): nat
    requires t < |s.threads|
  {
    if s.serviceOwner.Some? then s.serviceOwner.value
    else if WantsBoard(s.threads[t]) && s.boardOwner.Some? then s.boardOwner.value
    else t
  }

  /** No deadlock: whoever is blocked waits for a thread that is not, and that has work to do. */
  lemma NoDeadlock(threads: nat, moves: seq<Move>, t: nat)
    requires t < |Run(threads, moves).threads| && !Run(threads, moves).threads[t].Idle?
    ensures var s := Run(threads, moves); var b := Blocker(s, t);
      b < |s.threads| && !s.threads[b].Idle? && !Blocked(s, b)
  {
    var s := Run(threads, moves);
    RunKeeps(threads, moves);
    var b := Blocker(s, t);
    if s.serviceOwner.Some? {
      assert WantsService(s.threads[b]);
    } else if b != t {
      assert HoldsBoard(s.threads[b]) <==> s.boardOwner == Some(b);
    }
  }

  // ------------------------------------------------------------ handles

  const HANDLES: nat := 0x8000_0000

  function HandleOf(r: nat): u32 { FIRST_HANDLE + r % HANDLES }

  predicate HandlesInv(s: State) {
    && s.nextHandle == HandleOf(|s.records|)
    && forall r :: 0 <= r < |s.records| ==> s.records[r].handle == HandleOf(r)
  }

  lemma NextHandleFollows(n: nat)
    ensures NextHandle(HandleOf(n)) == HandleOf(n + 1)
  {
  }

  lemma OpenHandles(s: State, c: Choice)
    requires HandlesInv(s)
    ensures var e := OpenRegion(s, c); HandlesInv(s.(records := e.records, nextHandle := e.nextHandle))
  {
    NextHandleFollows(|s.records|);
  }

  lemma RegionHandles(s: State, pc: Pc, c: Choice)
    requires HandlesInv(s) && WantsService(pc) && Bound(s, pc)
    ensures var e := Region(s, pc, c); HandlesInv(s.(records := e.records, nextHandle := e.nextHandle))
  {
    if pc.WantOpen? { OpenHandles(s, c); }
  }

  /** Nothing else touches a handle or the counter. */
  lemma UnlockedHandles(s: State, pc: Pc, c: Choice)
    requires HandlesInv(s) && !WantsService(pc) && !WantsBoard(pc) && Bound(s, pc)
    ensures var e := Unlocked(s, pc, c); HandlesInv(s.(records := e.records, nextHandle := e.nextHandle))
  {
    var e := Unlocked(s, pc, c);
    assert |e.records| == |s.records| && e.nextHandle == s.nextHandle;
    assert forall r :: 0 <= r < |s.records| ==> e.records[r].handle == s.records[r].handle;
  }

  lemma StepHandles(s: State, t: nat, c: Choice)
    requires HandlesInv(s) && t < |s.threads| && Bound(s, s.threads[t])
    ensures HandlesInv(Step(s, t, c))
  {
    var pc := s.threads[t];
    if WantsService(pc) {
      RegionHandles(s, pc, c);
    } else if !WantsBoard(pc) {
      UnlockedHandles(s, pc, c);
    }
  }

  lemma {:induction false} RunHandles(threads: nat, moves: seq<Move>)
    ensures HandlesInv(Run(threads, moves))
    decreases |moves|
  {
    if |moves| > 0 {
      RunHandles(threads, moves[..|moves| - 1]);
      var s, m := Run(threads, moves[..|moves| - 1]), moves[|moves| - 1];
      if m.thread < |s.threads| && Bound(s, s.threads[m.thread]) { StepHandles(s, m.thread, m.choice); }
    }
  }

  /** Two sessions of one run share a handle exactly when a whole 2^31 opens lie between them. */
  lemma HandlesCollide(threads: nat, moves: seq<Move>, q: nat, r: nat)
    requires q <= r < |Run(threads, moves).records|
    ensures Run(threads, moves).records[q].handle == Run(threads, moves).records[r].handle <==> (r - q) % HANDLES == 0
  {
    RunHandles(threads, moves);
    assert Run(threads, moves).records[q].handle == HandleOf(q);
    ModEqual(q, r, HANDLES);
  }

  lemma ModEqual(q: nat, r: nat, n: nat)
    requires q <= r && n > 0
    ensures q % n == r % n <==> (r - q) % n == 0
  {
    var qq, qr, rq, rr := q / n, q % n, r / n, r % n;
    assert r - q == (rq - qq) * n + (rr - qr);
    if rr >= qr {
      ModUnique(r - q, rq - qq, rr - qr, n);
    } else {
      assert r - q == (rq - qq - 1) * n + (rr - qr + n);
      ModUnique(r - q, rq - qq - 1, rr - qr + n, n);
    }
  }

  lemma SmallHandles(q: nat, r: nat)
    requires q < HANDLES && r < HANDLES && HandleOf(q) == HandleOf(r)
    ensures q == r
  {
  }

  /** So within 2^31 opens a handle finds its own session and no other. */
  lemma HandleFindsItsSession(threads: nat, moves: seq<Move>, r: nat)
    requires r < |Run(threads, moves).records| <= HANDLES && Run(threads, moves).records[r].place == Active
    ensures FindDevice(Run(threads, moves).records, Run(threads, moves).records[r].handle, 0) == r
  {
    RunHandles(threads, moves);
    FindsOwn(Run(threads, moves), r);
  }

  lemma FindsOwn(s: State, r: nat)
    requires HandlesInv(s) && r < |s.records| <= HANDLES && s.records[r].place == Active
    ensures FindDevice(s.records, s.records[r].handle, 0) == r
  {
    var f := FindDevice(s.records, s.records[r].handle, 0);
    assert s.records[f].handle == HandleOf(f);
    SmallHandles(f, r);
  }
}
