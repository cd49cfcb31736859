/**
 What the session protocol achieves, beside what it keeps safe: a caller that is not
 held up opens, calls and closes its session; and no closed session is left behind
 when the library goes.
 */
module SessionProgress {
  import opened Words
  import opened Sessions
  import opened SessionSafety

  // ------------------------------------------------------------ one caller alone

  /** Nobody holds a lock. */
  predicate Quiet(s: State) { s.boardOwner == None && s.serviceOwner == None }

  /** What a thread does by itself: it takes the lock it wants, and with ServiceLock it runs its region. */
  function Turn(s: State, t: nat, c: Choice): State
    requires t < |s.threads|
  {
    if !Bound(s, s.threads[t]) then s
    else if WantsService(s.threads[t]) && s.serviceOwner == None then
      assert Step(s, t, c) == s.(serviceOwner := Some(t));
      Step(Step(s, t, c), t, c)
    else Step(s, t, c)
  }

  function Turns(s: State, t: nat, c: Choice, count: nat): (after: State)
    requires t < |s.threads|
    ensures |after.threads| == |s.threads|
    decreases count
  {
    if count == 0 then s else Turns(Turn(s, t, c), t, c, count - 1)
  }

  lemma {:induction false} TurnsAdd(s: State, t: nat, c: Choice, first: nat, second: nat)
    requires t < |s.threads|
    ensures Turns(s, t, c, first + second) == Turns(Turns(s, t, c, first), t, c, second)
    decreases first
  {
    if first > 0 { TurnsAdd(Turn(s, t, c), t, c, first - 1, second); }
  }

  /** Whatever the caller still has to do, nobody holds it up, and the service is usable whenever it looks. */
  const Carries: Choice := Choice(true, 0, Returns)

  /** This thread alone gets from one state to the other. */
  ghost predicate Reaches(s: State, t: nat, after: State)
    requires t < |s.threads|
  {
    exists count: nat :: Turns(s, t, Carries, count) == after
  }

  lemma TurnReaches(s: State, t: nat)
    requires t < |s.threads|
    ensures |Turn(s, t, Carries).threads| == |s.threads| && Reaches(s, t, Turn(s, t, Carries))
  {
    assert Turns(Turn(s, t, Carries), t, Carries, 0) == Turn(s, t, Carries);
    assert Turns(s, t, Carries, 1) == Turn(s, t, Carries);
  }

  lemma ReachesOn(s: State, t: nat, middle: State, after: State)
    requires t < |s.threads| == |middle.threads| && Reaches(s, t, middle) && Reaches(middle, t, after)
    ensures Reaches(s, t, after)
  {
    var first: nat :| Turns(s, t, Carries, first) == middle;
    var second: nat :| Turns(middle, t, Carries, second) == after;
    TurnsAdd(s, t, Carries, first, second);
  }

  /** A state in which this thread alone has moved, and only it can hold BoardLock. */
  function Placed(s: State, t: nat, pc: Pc, records: seq<Record>, sessions: nat): State
    requires t < |s.threads|
  {
    State(records, sessions, s.nextHandle, s.threads[t := pc], if HoldsBoard(pc) then Some(t) else None, None)
  }

  predicate Within(pc: Pc, records: seq<Record>) {
    pc.Idle? || pc.WantOpen? || pc.WantEntry? || pc.WantMark? || pc.r < |records|
  }

  lemma RegionTurn(s: State, t: nat, pc: Pc, records: seq<Record>, sessions: nat, e: Effect)
    requires t < |s.threads| && WantsService(pc) && Within(pc, records)
    requires e == Region(Placed(s, t, pc, records, sessions), pc, Carries) && e.nextHandle == s.nextHandle
    ensures Reaches(Placed(s, t, pc, records, sessions), t, Placed(s, t, e.pc, e.records, e.sessions))
  {
    var x := Placed(s, t, pc, records, sessions);
    var taken := Step(x, t, Carries);
    assert taken == x.(serviceOwner := Some(t));
    RegionTakesNoBoard(x, pc, Carries);
    assert Region(taken, pc, Carries) == e;
    assert s.threads[t := pc][t := e.pc] == s.threads[t := e.pc];
    assert Turn(x, t, Carries) == Placed(s, t, e.pc, e.records, e.sessions);
    TurnReaches(x, t);
  }

  lemma BoardTurn(s: State, t: nat, pc: Pc, next: Pc, records: seq<Record>, sessions: nat)
    requires t < |s.threads| && WantsBoard(pc) && Within(pc, records)
    requires next == if pc.WantBoard? then WantRecheck(pc.r, pc.after) else WantDetach(pc.r, pc.after)
    ensures Reaches(Placed(s, t, pc, records, sessions), t, Placed(s, t, next, records, sessions))
  {
    var x := Placed(s, t, pc, records, sessions);
    assert s.threads[t := pc][t := next] == s.threads[t := next];
    assert Turn(x, t, Carries) == Placed(s, t, next, records, sessions);
    TurnReaches(x, t);
  }

  lemma UnlockedTurn(s: State, t: nat, pc: Pc, records: seq<Record>, sessions: nat, e: Effect)
    requires t < |s.threads| && !WantsService(pc) && !WantsBoard(pc) && Within(pc, records)
    requires e == Unlocked(Placed(s, t, pc, records, sessions), pc, Carries) && e.nextHandle == s.nextHandle
    requires HoldsBoard(e.pc) ==> HoldsBoard(pc)
    ensures Reaches(Placed(s, t, pc, records, sessions), t, Placed(s, t, e.pc, e.records, e.sessions))
  {
    var x := Placed(s, t, pc, records, sessions);
    assert s.threads[t := pc][t := e.pc] == s.threads[t := e.pc];
    assert Turn(x, t, Carries) == Placed(s, t, e.pc, e.records, e.sessions);
    TurnReaches(x, t);
  }

  function Counting(records: seq<Record>, r: nat, calls: nat): seq<Record>
    requires r < |records|
  {
    records[r := records[r].(activeCalls := calls)]
  }

  /** What closing makes of a record nobody is inside. */
  function Marked(record: Record): Record {
    record.(place := Retired, closing := true, cleanupDone := true, ownerPin := false)
  }

  function Ready(record: Record): Record {
    Marked(record).(cleanupReady := true, cleanups := record.cleanups + 1)
  }

  function Cleaned(record: Record): Record {
    Ready(record).(pinsClosed := record.pinsClosed + 1)
  }

  lemma EntryEffect(x: State, handle: u32, close: bool)
    requires FindDevice(x.records, handle, 0) < |x.records|
    ensures var r := FindDevice(x.records, handle, 0);
      EntryRegion(x, handle, close, Carries) ==
        Effect(Counting(x.records, r, x.records[r].activeCalls + 1), x.sessions, x.nextHandle,
               WantBoard(r, if close then Some(handle) else None))
  {
  }

  lemma MarkEffect(x: State, handle: u32)
    requires FindDevice(x.records, handle, 0) < |x.records|
    requires var record := x.records[FindDevice(x.records, handle, 0)]; record.activeCalls == 0 && record.ownerPin
    ensures var r := FindDevice(x.records, handle, 0);
      MarkRegion(x, handle) ==
        Effect(x.records[r := Marked(x.records[r])], x.sessions, x.nextHandle, WantReady(r, true, None))
  {
  }

  lemma ReadyEffect(x: State, r: nat, record: Record)
    requires r < |x.records| && x.records[r] == Marked(record) && x.sessions > 0
    ensures Region(x, WantReady(r, true, None), Carries) ==
      Effect(x.records[r := Ready(record)], x.sessions - 1, x.nextHandle, DropPin(r, None))
  {
  }

  /** BoardLock, then the recheck: the session is still there and usable. */
  lemma CallRechecks(s: State, t: nat, r: nat, after: Option<u32>, records: seq<Record>, sessions: nat)
    requires t < |s.threads| && r < |records| && records[r].place == Active
    ensures Reaches(Placed(s, t, WantBoard(r, after), records, sessions), t,
                    Placed(s, t, InCall(r, after), records, sessions))
  {
    BoardTurn(s, t, WantBoard(r, after), WantRecheck(r, after), records, sessions);
    RegionTurn(s, t, WantRecheck(r, after), records, sessions,
               Effect(records, sessions, s.nextHandle, InCall(r, after)));
    ReachesOn(Placed(s, t, WantBoard(r, after), records, sessions), t,
              Placed(s, t, WantRecheck(r, after), records, sessions),
              Placed(s, t, InCall(r, after), records, sessions));
  }

  /** Entry, BoardLock, recheck: the call is counted before it runs. */
  lemma CallEnters(s: State, t: nat, handle: u32, close: bool, records: seq<Record>, sessions: nat)
    requires t < |s.threads| && FindDevice(records, handle, 0) < |records|
    ensures var r := FindDevice(records, handle, 0);
      Reaches(Placed(s, t, WantEntry(handle, close), records, sessions), t,
              Placed(s, t, InCall(r, if close then Some(handle) else None),
                     Counting(records, r, records[r].activeCalls + 1), sessions))
  {
    var r, after := FindDevice(records, handle, 0), if close then Some(handle) else None;
    var counted := Counting(records, r, records[r].activeCalls + 1);
    var x := Placed(s, t, WantEntry(handle, close), records, sessions);
    EntryEffect(x, handle, close);
    RegionTurn(s, t, WantEntry(handle, close), records, sessions,
               Effect(counted, sessions, s.nextHandle, WantBoard(r, after)));
    CallRechecks(s, t, r, after, counted, sessions);
    ReachesOn(x, t, Placed(s, t, WantBoard(r, after), counted, sessions),
              Placed(s, t, InCall(r, after), counted, sessions));
  }

  /** The end of a call inside a session that is not closing. */
  lemma CallLeaves(s: State, t: nat, r: nat, after: Option<u32>, records: seq<Record>, sessions: nat)
    requires t < |s.threads| && r < |records| && records[r].activeCalls > 0 && !records[r].closing
    ensures Reaches(Placed(s, t, InCall(r, after), records, sessions), t,
      Placed(s, t, Resume(after), Counting(records, r, records[r].activeCalls - 1), sessions))
  {
    var x, left := Placed(s, t, InCall(r, after), records, sessions), Counting(records, r, records[r].activeCalls - 1);
    UnlockedTurn(s, t, InCall(r, after), records, sessions,
                 Effect(records, sessions, s.nextHandle, WantExit(r, after)));
    RegionTurn(s, t, WantExit(r, after), records, sessions, Effect(left, sessions, s.nextHandle, Resume(after)));
    ReachesOn(x, t, Placed(s, t, WantExit(r, after), records, sessions), Placed(s, t, Resume(after), left, sessions));
  }

  /** Off the list, cleaned up, and the pin taken over. */
  lemma CloseCleans(s: State, t: nat, handle: u32, records: seq<Record>, sessions: nat)
    requires t < |s.threads| && FindDevice(records, handle, 0) < |records| && sessions > 0
    requires var record := records[FindDevice(records, handle, 0)]; record.activeCalls == 0 && record.ownerPin
    ensures var r := FindDevice(records, handle, 0);
      Reaches(Placed(s, t, WantMark(handle), records, sessions), t,
              Placed(s, t, WantRelease(r, None), records[r := Ready(records[r])], sessions - 1))
  {
    var r := FindDevice(records, handle, 0);
    var marked, ready := records[r := Marked(records[r])], records[r := Ready(records[r])];
    assert marked[r := Ready(records[r])] == ready;
    var x := Placed(s, t, WantMark(handle), records, sessions);
    var owed, release := WantReady(r, true, None), WantRelease(r, None);
    MarkEffect(x, handle);
    RegionTurn(s, t, WantMark(handle), records, sessions, Effect(marked, sessions, s.nextHandle, owed));
    CleanupEnds(s, t, r, records[r], marked, sessions);
    ReachesOn(x, t, Placed(s, t, owed, marked, sessions), Placed(s, t, release, ready, sessions - 1));
  }

  /** The cleanup is reported, and the pin is next. */
  lemma CleanupEnds(s: State, t: nat, r: nat, record: Record, records: seq<Record>, sessions: nat)
    requires t < |s.threads| && r < |records| && records[r] == Marked(record) && sessions > 0
    ensures Reaches(Placed(s, t, WantReady(r, true, None), records, sessions), t,
                    Placed(s, t, WantRelease(r, None), records[r := Ready(record)], sessions - 1))
  {
    var x, ready := Placed(s, t, WantReady(r, true, None), records, sessions), records[r := Ready(record)];
    var pin, release := DropPin(r, None), WantRelease(r, None);
    ReadyEffect(x, r, record);
    RegionTurn(s, t, WantReady(r, true, None), records, sessions, Effect(ready, sessions - 1, s.nextHandle, pin));
    UnlockedTurn(s, t, pin, ready, sessions - 1, Effect(ready, sessions - 1, s.nextHandle, release));
    ReachesOn(x, t, Placed(s, t, pin, ready, sessions - 1), Placed(s, t, release, ready, sessions - 1));
  }

  /** The pin: the library that goes with it detaches the board first. */
  lemma PinCloses(s: State, t: nat, r: nat, records: seq<Record>, sessions: nat)
    requires t < |s.threads| && r < |records|
    ensures Reaches(Placed(s, t, WantRelease(r, None), records, sessions), t,
      Placed(s, t, Idle, records[r := records[r].(pinsClosed := records[r].pinsClosed + 1)], sessions))
  {
    var x, closed := Placed(s, t, WantRelease(r, None), records, sessions),
                     records[r := records[r].(pinsClosed := records[r].pinsClosed + 1)];
    var detach, empty, pin := WantDetach(r, None), WantEmpty(r, None), ClosePin(r, None);
    BoardTurn(s, t, WantRelease(r, None), detach, records, sessions);
    RegionTurn(s, t, detach, records, sessions, Effect(records, sessions, s.nextHandle, empty));
    ReachesOn(x, t, Placed(s, t, detach, records, sessions), Placed(s, t, empty, records, sessions));
    RegionTurn(s, t, empty, records, sessions, Effect(records, sessions, s.nextHandle, pin));
    ReachesOn(x, t, Placed(s, t, empty, records, sessions), Placed(s, t, pin, records, sessions));
    UnlockedTurn(s, t, pin, records, sessions, Effect(closed, sessions, s.nextHandle, Idle));
    ReachesOn(x, t, Placed(s, t, pin, records, sessions), Placed(s, t, Idle, closed, sessions));
  }

  /** The thread is inside a call of the record and owns BoardLock. */
  predicate Runs(s: State, t: nat, r: nat) {
    s.boardOwner == Some(t) && t < |s.threads| && s.threads[t].InCall? && s.threads[t].r == r
  }

  /** A call by a caller that nobody holds up runs under BoardLock and leaves no trace. */
  lemma CallReturns(s: State, t: nat, handle: u32)
    requires t < |s.threads| && s.threads[t] == WantEntry(handle, false) && Quiet(s)
    requires FindDevice(s.records, handle, 0) < |s.records|
    requires !s.records[FindDevice(s.records, handle, 0)].closing
    ensures exists inside :: Reaches(s, t, inside) && Runs(inside, t, FindDevice(s.records, handle, 0))
    ensures Reaches(s, t, s.(threads := s.threads[t := Idle]))
  {
    var r := FindDevice(s.records, handle, 0);
    var counted := Counting(s.records, r, s.records[r].activeCalls + 1);
    var inside := Placed(s, t, InCall(r, None), counted, s.sessions);
    assert Placed(s, t, WantEntry(handle, false), s.records, s.sessions) == s;
    CallEnters(s, t, handle, false, s.records, s.sessions);
    CallLeaves(s, t, r, None, counted, s.sessions);
    assert Counting(counted, r, s.records[r].activeCalls) == s.records;
    assert Runs(inside, t, r);
    ReachesOn(s, t, inside, Placed(s, t, Idle, s.records, s.sessions));
  }

  /** The locked call a close begins with. */
  lemma CloseCalls(s: State, t: nat, handle: u32)
    requires t < |s.threads| && FindDevice(s.records, handle, 0) < |s.records|
    requires var record := s.records[FindDevice(s.records, handle, 0)]; record.activeCalls == 0 && !record.closing
    ensures Reaches(Placed(s, t, WantEntry(handle, true), s.records, s.sessions), t,
                    Placed(s, t, WantMark(handle), s.records, s.sessions))
  {
    var r := FindDevice(s.records, handle, 0);
    var counted := Counting(s.records, r, 1);
    CallEnters(s, t, handle, true, s.records, s.sessions);
    CallLeaves(s, t, r, Some(handle), counted, s.sessions);
    assert Counting(counted, r, 0) == s.records;
    ReachesOn(Placed(s, t, WantEntry(handle, true), s.records, s.sessions), t,
              Placed(s, t, InCall(r, Some(handle)), counted, s.sessions),
              Placed(s, t, WantMark(handle), s.records, s.sessions));
  }

  /** Everything behind it. */
  lemma CloseEnds(s: State, t: nat, handle: u32)
    requires t < |s.threads| && FindDevice(s.records, handle, 0) < |s.records| && s.sessions > 0
    requires var record := s.records[FindDevice(s.records, handle, 0)]; record.activeCalls == 0 && record.ownerPin
    ensures var r := FindDevice(s.records, handle, 0);
      Reaches(Placed(s, t, WantMark(handle), s.records, s.sessions), t,
              Placed(s, t, Idle, s.records[r := Cleaned(s.records[r])], s.sessions - 1))
  {
    var r := FindDevice(s.records, handle, 0);
    var ready, cleaned := s.records[r := Ready(s.records[r])], s.records[r := Cleaned(s.records[r])];
    CloseCleans(s, t, handle, s.records, s.sessions);
    PinCloses(s, t, r, ready, s.sessions - 1);
    assert ready[r := Cleaned(s.records[r])] == cleaned;
    ReachesOn(Placed(s, t, WantMark(handle), s.records, s.sessions), t,
              Placed(s, t, WantRelease(r, None), ready, s.sessions - 1), Placed(s, t, Idle, cleaned, s.sessions - 1));
  }

  /** A close by such a caller retires the session, cleans up once, closes the pin once and takes one off the count. */
  lemma CloseSucceeds(s: State, t: nat, handle: u32)
    requires t < |s.threads| && s.threads[t] == WantEntry(handle, true) && Quiet(s) && s.sessions > 0
    requires FindDevice(s.records, handle, 0) < |s.records|
    requires var record := s.records[FindDevice(s.records, handle, 0)];
      record.activeCalls == 0 && !record.closing && record.ownerPin
    ensures var r := FindDevice(s.records, handle, 0);
      Reaches(s, t, s.(threads := s.threads[t := Idle], records := s.records[r := Cleaned(s.records[r])],
                       sessions := s.sessions - 1))
  {
    var r := FindDevice(s.records, handle, 0);
    assert Placed(s, t, WantEntry(handle, true), s.records, s.sessions) == s;
    CloseCalls(s, t, handle);
    CloseEnds(s, t, handle);
    ReachesOn(s, t, Placed(s, t, WantMark(handle), s.records, s.sessions),
              Placed(s, t, Idle, s.records[r := Cleaned(s.records[r])], s.sessions - 1));
  }

  /** What an idle thread is asked to do, it sets out to do. */
  lemma SetsOut(s: State, t: nat, c: Choice)
    requires t < |s.threads| && s.threads[t].Idle? && !c.action.Expunges?
    ensures Turn(s, t, c) == s.(threads := s.threads[t :=
      match c.action
      case Opens => WantOpen
      case Calls => WantEntry(c.handle, false)
      case Closes => WantEntry(c.handle, true)
      case _ => Idle])
  {
  }

  /** Opening: one more session, under the next handle, and what was ready to go is gone. */
  lemma OpenSucceeds(s: State, t: nat)
    requires t < |s.threads| && s.threads[t].WantOpen? && Quiet(s)
    ensures var after := Turn(s, t, Carries);
      && after.threads == s.threads[t := Idle] && Quiet(after) && after.sessions == s.sessions + 1
      && |after.records| == |s.records| + 1
      && after.records[|s.records|] == Opened(s.nextHandle)
      && forall r :: 0 <= r < |s.records| ==>
           after.records[r] == if s.records[r].place == Retired && s.records[r].cleanupReady
                                then s.records[r].(place := Freed) else s.records[r]
  {
  }

  // ------------------------------------------------------------ nothing is left behind

  /** The library goes only without sessions, and then every record there ever was has been freed. */
  lemma ExpungeFreesAll(threads: nat, moves: seq<Move>, t: nat, c: Choice)
    requires t < |Run(threads, moves).threads| && Run(threads, moves).threads[t].Idle?
    requires Run(threads, moves).sessions == 0 && c.action == Expunges
    ensures var gone := Step(Run(threads, moves), t, c);
      gone.sessions == 0 && forall r :: 0 <= r < |gone.records| ==> gone.records[r].place == Freed
  {
    var s := Run(threads, moves);
    RunKeeps(threads, moves);
    forall r | 0 <= r < |s.records| ensures s.records[r].place != Active {
      UnreadyZero(s.records, r);
      assert Tallied(s.threads, s.records[r], r);
    }
  }

  /** As long as a session is open or not cleaned up, an expunge changes nothing. */
  lemma ExpungeWaits(s: State, t: nat, c: Choice)
    requires t < |s.threads| && s.threads[t].Idle? && s.sessions > 0 && c.action == Expunges
    ensures Step(s, t, c) == s
  {
    assert s.threads[t := Idle] == s.threads;
  }
}
