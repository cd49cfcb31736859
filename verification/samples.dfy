/**
 The submission sample ring: written field by field under BoardLock
 (RecordExecSample in src/radeon3d_service.c), read without any lock (DumpSamples in
 tools/radeon3dinfo.c).  Every write and every read of one field is a step, and
 writer and reader steps interleave freely.
 */
module Samples {
  import opened Words

  const SLOTS: nat := 1024
  const FIELDS: nat := 8

  /** The payload of a sample: everything but its sequence number. */
  type Payload = p: seq<u32> | |p| == FIELDS witness seq(FIELDS, i => 0)

  datatype Slot = Slot(sequence: u32, fields: Payload)

  /**
   `log` holds the payload of every sample begun so far, so the n-th sample is
   log[n - 1].  While one is being written, `writing` counts the fields stored;
   `None` means that the latest one is published.  `counted` is the number of samples
   behind ExecSampleSeq, which is stored last.
   */
  datatype Writer = Writer(log: seq<Payload>, writing: Option<nat>, counted: nat)

  /** A reader between its two checks: `serial` is history, the sample it saw at the first one. */
  datatype Reader = Resting | Copying(sequence: u32, serial: nat, copied: set<nat>, copy: Payload,
      sequenceCopy: Option<u32>)

  /** `known` is the count the reader was told before it started; it looks at no later sample. */
  datatype State = State(slots: seq<Slot>, writer: Writer, reader: Reader, known: nat)

  /** The slot of the n-th sample: `(seq - 1) & (RADEON3D_SAMPLE_RING_SIZE - 1)`. */
  function SlotOf(serial: nat): (slot: nat)
    requires serial >= 1
    ensures slot < SLOTS
  {
    (serial - 1) % SLOTS
  }

  /** The ring size divides 2^32. */
  lemma TurnsKeepSlot(turns: nat, rest: nat)
    ensures (turns * TWO32 + rest) % SLOTS == rest % SLOTS
  {
    ModUnique(turns * TWO32 + rest, turns * 4_194_304 + rest / SLOTS, rest % SLOTS, SLOTS);
  }

  /** The reader computes the writer's slot from the 32-bit number. */
  lemma SlotFromSequence(serial: nat)
    requires serial >= 1
    ensures SlotOf(serial) == Wrap(Wrap(serial) - 1) % SLOTS
  {
    var turns, rest := serial / TWO32, Wrap(serial);
    if rest == 0 {
      ModUnique(-1, -1, TWO32 - 1, TWO32);
      TurnsKeepSlot(turns - 1, TWO32 - 1);
    } else {
      ModUnique(rest - 1, 0, rest - 1, TWO32);
      TurnsKeepSlot(turns, rest - 1);
    }
  }

  function SlotOfSequence(sequence: u32): (slot: nat)
    ensures slot < SLOTS
  {
    Wrap(sequence - 1) % SLOTS
  }

  datatype Event =
    | Begin(payload: Payload)
    | StoreField
    | Publish
    | Count
    | ReadInfo
    | FirstCheck(sequence: u32)
    | CopyField(field: nat)
    | CopySequence
    | SecondCheck

  // ------------------------------------------------------------ the writer

  function SetSlot(s: State, k: nat, slot: Slot): State
    requires k < |s.slots|
  {
    s.(slots := s.slots[k := slot])
  }

  function Write(s: State, e: Event): State
    requires |s.slots| == SLOTS
  {
    match e
    case Begin(payload) =>
      if s.writer.writing.Some? || s.writer.counted != |s.writer.log| then s
      else
        var k := SlotOf(|s.writer.log| + 1);
        SetSlot(s, k, s.slots[k].(sequence := 0))
          .(writer := s.writer.(log := s.writer.log + [payload], writing := Some(0)))
    case StoreField =>
      if s.writer.writing == None || s.writer.writing.value >= FIELDS || |s.writer.log| == 0 then s
      else
        var f, n := s.writer.writing.value, |s.writer.log|;
        var k := SlotOf(n);
        SetSlot(s, k, s.slots[k].(fields := s.slots[k].fields[f := s.writer.log[n - 1][f]]))
          .(writer := s.writer.(writing := Some(f + 1)))
    case Count =>
      if s.writer.writing.Some? then s else s.(writer := s.writer.(counted := |s.writer.log|))
    case Publish =>
      if s.writer.writing != Some(FIELDS) || |s.writer.log| == 0 then s
      else
        var n := |s.writer.log|;
        SetSlot(s, SlotOf(n), s.slots[SlotOf(n)].(sequence := Wrap(n))).(writer := s.writer.(writing := None))
    case _ => s
  }

  // ------------------------------------------------------------ the reader

  /** The latest sample begun in a slot; zero when there is none yet. */
  function Latest(slot: nat, begun: nat): (serial: nat)
    requires slot < SLOTS
    ensures serial <= begun && (serial > 0 ==> SlotOf(serial) == slot)
    ensures forall n :: serial < n <= begun ==> SlotOf(n) != slot
  {
    if begun == 0 then 0 else if SlotOf(begun) == slot then begun else Latest(slot, begun - 1)
  }

  function Read(s: State, e: Event): State
    requires |s.slots| == SLOTS
  {
    match e
    case ReadInfo => s.(reader := Resting, known := s.writer.counted)
    case FirstCheck(sequence) =>
      var k := SlotOfSequence(sequence);
      if !(1 <= sequence <= Wrap(s.known)) || s.slots[k].sequence != sequence then s.(reader := Resting)
      else s.(reader := Copying(sequence, Latest(k, |s.writer.log|), {}, seq(FIELDS, i => 0), None))
    case CopyField(field) =>
      if s.reader.Resting? || field >= FIELDS then s
      else
        var value := s.slots[SlotOfSequence(s.reader.sequence)].fields[field];
        s.(reader := s.reader.(copied := s.reader.copied + {field}, copy := s.reader.copy[field := value]))
    case CopySequence =>
      if s.reader.Resting? then s
      else s.(reader := s.reader.(sequenceCopy := Some(s.slots[SlotOfSequence(s.reader.sequence)].sequence)))
    case SecondCheck => s.(reader := Resting)
    case _ => s
  }

  /** The second check would accept the copy now: the whole struct is copied and both sequence numbers match. */
  predicate Accepts(s: State) {
    && |s.slots| == SLOTS && s.reader.Copying? && s.reader.sequenceCopy == Some(s.reader.sequence)
    && (forall f :: 0 <= f < FIELDS ==> f in s.reader.copied)
    && s.slots[SlotOfSequence(s.reader.sequence)].sequence == s.reader.sequence
  }

  function Step(s: State, e: Event): (after: State)
    requires |s.slots| == SLOTS
    ensures |after.slots| == SLOTS
  {
    if e.Begin? || e.StoreField? || e.Publish? || e.Count? then Write(s, e) else Read(s, e)
  }

  /** The ring's memory is not cleared when it is allocated: it starts with whatever was there. */
  function Run(memory: seq<Slot>, events: seq<Event>): (s: State)
    requires |memory| == SLOTS
    ensures |s.slots| == SLOTS
    decreases |events|
  {
    if |events| == 0 then State(memory, Writer([], None, 0), Resting, 0)
    else Step(Run(memory, events[..|events| - 1]), events[|events| - 1])
  }

  // ------------------------------------------------------------ the invariant

  predicate InProgress(w: Writer, serial: nat) { w.writing.Some? && serial == |w.log| }

  /** A slot shows the latest sample begun in it: whole and published, or part-way and marked. */
  predicate SlotInv(slot: Slot, w: Writer, serial: nat)
    requires serial <= |w.log|
  {
    if serial == 0 then true
    else if InProgress(w, serial) then
      && slot.sequence == 0 && w.writing.value <= FIELDS
      && forall f :: 0 <= f < w.writing.value ==> slot.fields[f] == w.log[serial - 1][f]
    else slot.sequence == Wrap(serial) && slot.fields == w.log[serial - 1]
  }

  predicate SlotsInv(s: State) {
    && |s.slots| == SLOTS && (s.writer.writing.Some? ==> |s.writer.log| > 0)
    && s.known <= s.writer.counted <= |s.writer.log|
    && forall k :: 0 <= k < SLOTS ==> SlotInv(s.slots[k], s.writer, Latest(k, |s.writer.log|))
  }

  /** As long as the slot still shows the sample of the first check, every copied field is that sample's. */
  predicate ReaderInv(s: State) {
    s.reader.Copying? ==>
      var r, k := s.reader, SlotOfSequence(s.reader.sequence);
      && 0 < r.serial <= |s.writer.log| && Wrap(r.serial) == r.sequence != 0 && SlotOf(r.serial) == k
      && (Latest(k, |s.writer.log|) == r.serial ==>
            !InProgress(s.writer, r.serial) && forall f :: f in r.copied && f < FIELDS ==>
              r.copy[f] == s.writer.log[r.serial - 1][f])
  }

  predicate Inv(s: State) { SlotsInv(s) && ReaderInv(s) }

  lemma LatestGrows(slot: nat, begun: nat)
    requires slot < SLOTS
    ensures Latest(slot, begun + 1) == if SlotOf(begun + 1) == slot then begun + 1 else Latest(slot, begun)
  {
  }

  lemma BeginSlot(s: State, payload: Payload, k: nat)
    requires SlotsInv(s) && s.writer.writing == None && s.writer.counted == |s.writer.log| && k < SLOTS
    ensures var n := Write(s, Begin(payload));
      SlotInv(n.slots[k], n.writer, Latest(k, |n.writer.log|))
  {
    LatestGrows(k, |s.writer.log|);
    assert SlotInv(s.slots[k], s.writer, Latest(k, |s.writer.log|));
  }

  lemma BeginKeeps(s: State, payload: Payload)
    requires Inv(s) && s.writer.writing == None && s.writer.counted == |s.writer.log|
    ensures Inv(Write(s, Begin(payload)))
  {
    var n := Write(s, Begin(payload));
    forall k | 0 <= k < SLOTS ensures SlotInv(n.slots[k], n.writer, Latest(k, |n.writer.log|)) {
      BeginSlot(s, payload, k);
    }
    if s.reader.Copying? { LatestGrows(SlotOfSequence(s.reader.sequence), |s.writer.log|); }
  }

  lemma StoreKeeps(s: State)
    requires Inv(s)
    ensures Inv(Write(s, StoreField))
  {
    var n := Write(s, StoreField);
    forall k | 0 <= k < SLOTS ensures SlotInv(n.slots[k], n.writer, Latest(k, |n.writer.log|)) {
      assert SlotInv(s.slots[k], s.writer, Latest(k, |s.writer.log|));
    }
  }

  lemma PublishKeeps(s: State)
    requires Inv(s)
    ensures Inv(Write(s, Publish))
  {
    var n := Write(s, Publish);
    forall k | 0 <= k < SLOTS ensures SlotInv(n.slots[k], n.writer, Latest(k, |n.writer.log|)) {
      assert SlotInv(s.slots[k], s.writer, Latest(k, |s.writer.log|));
    }
  }

  lemma CountKeeps(s: State)
    requires Inv(s)
    ensures Inv(Write(s, Count))
  {
    var n := Write(s, Count);
    forall k | 0 <= k < SLOTS ensures SlotInv(n.slots[k], n.writer, Latest(k, |n.writer.log|)) {
      assert SlotInv(s.slots[k], s.writer, Latest(k, |s.writer.log|));
    }
  }

  /** A sequence number the reader was told about has been written to its slot: no stale memory is looked at. */
  lemma KnownBegun(known: nat, begun: nat, sequence: u32)
    requires known <= begun && 1 <= sequence <= Wrap(known)
    ensures Latest(SlotOfSequence(sequence), begun) > 0
  {
    var serial := known - (Wrap(known) - sequence);
    assert serial >= 1 && Wrap(serial) == sequence;
    SlotFromSequence(serial);
  }

  lemma ReadKeeps(s: State, e: Event)
    requires Inv(s)
    ensures Inv(Read(s, e))
  {
    if e.FirstCheck? {
      var k := SlotOfSequence(e.sequence);
      if 1 <= e.sequence <= Wrap(s.known) { KnownBegun(s.known, |s.writer.log|, e.sequence); }
      assert SlotInv(s.slots[k], s.writer, Latest(k, |s.writer.log|));
    } else if s.reader.Copying? {
      var k := SlotOfSequence(s.reader.sequence);
      assert SlotInv(s.slots[k], s.writer, Latest(k, |s.writer.log|));
    }
  }

  lemma StepKeeps(s: State, e: Event)
    requires Inv(s)
    ensures Inv(Step(s, e))
  {
    match e
    case Begin(payload) => if s.writer.writing == None && s.writer.counted == |s.writer.log| { BeginKeeps(s, payload); }
    case StoreField => StoreKeeps(s);
    case Publish => PublishKeeps(s);
    case Count => CountKeeps(s);
    case _ => ReadKeeps(s, e);
  }

  lemma {:induction false} RunKeeps(memory: seq<Slot>, events: seq<Event>)
    requires |memory| == SLOTS
    ensures Inv(Run(memory, events))
    decreases |events|
  {
    if |events| > 0 {
      RunKeeps(memory, events[..|events| - 1]);
      StepKeeps(Run(memory, events[..|events| - 1]), events[|events| - 1]);
    }
  }

  // ------------------------------------------------------------ consistency

  /** Two samples of one slot with one sequence number are whole turns of the counter apart. */
  lemma SameSequence(a: nat, b: nat)
    requires a <= b < a + TWO32 && Wrap(a) == Wrap(b)
    ensures a == b
  {
  }

  /**
   In every interleaving an accepted copy is exactly the sample published under its
   sequence number, provided the counter has not gone once round since.
   */
  lemma AcceptedIsPublished(memory: seq<Slot>, events: seq<Event>)
    requires |memory| == SLOTS
    requires Accepts(Run(memory, events)) &&
      |Run(memory, events).writer.log| < Run(memory, events).reader.serial + TWO32
    ensures var s := Run(memory, events);
      && 0 < s.reader.serial <= |s.writer.log| && Wrap(s.reader.serial) == s.reader.sequence
      && !InProgress(s.writer, s.reader.serial)
      && s.reader.copy == s.writer.log[s.reader.serial - 1]
  {
    var s := Run(memory, events);
    RunKeeps(memory, events);
    var k := SlotOfSequence(s.reader.sequence);
    var latest := Latest(k, |s.writer.log|);
    assert SlotInv(s.slots[k], s.writer, latest);
    SameSequence(s.reader.serial, latest);
    forall f | 0 <= f < FIELDS ensures s.reader.copy[f] == s.writer.log[s.reader.serial - 1][f] {
      assert f in s.reader.copied;
    }
  }

  /** The sample seen by a reader was among the 1024 latest when it looked. */
  lemma SeenIsRecent(slot: nat, begun: nat)
    requires slot < SLOTS && begun >= SLOTS
    ensures Latest(slot, begun) > begun - SLOTS
  {
    var turns, rest := (begun - SLOTS) / SLOTS, (begun - SLOTS) % SLOTS;
    var n := (if rest <= slot then turns else turns + 1) * SLOTS + slot + 1;
    ModUnique(n - 1, if rest <= slot then turns else turns + 1, slot, SLOTS);
    assert begun - SLOTS < n <= begun && SlotOf(n) == slot;
  }

  // ------------------------------------------------------------ undisturbed

  /** A step of the writer that stores one field after the other. */
  function Stores(s: State, count: nat): (t: State)
    requires |s.slots| == SLOTS
    ensures |t.slots| == SLOTS
  {
    if count == 0 then s else Step(Stores(s, count - 1), StoreField)
  }

  /** RecordExecSample from start to end. */
  function Recorded(s: State, payload: Payload): State
    requires |s.slots| == SLOTS
  {
    Step(Step(Stores(Step(s, Begin(payload)), FIELDS), Publish), Count)
  }

  lemma {:induction false} StoresFill(s: State, payload: Payload, old_: Slot, count: nat)
    requires |s.slots| == SLOTS && |s.writer.log| > 0 && s.writer.log[|s.writer.log| - 1] == payload
    requires s.writer.writing == Some(0) && s.slots[SlotOf(|s.writer.log|)] == old_ && count <= FIELDS
    ensures var t, k := Stores(s, count), SlotOf(|s.writer.log|);
      && t.writer == s.writer.(writing := Some(count)) && t.reader == s.reader && t.known == s.known
      && t.slots == s.slots[k := t.slots[k]] && t.slots[k].sequence == old_.sequence
      && forall f :: 0 <= f < count ==> t.slots[k].fields[f] == payload[f]
  {
    if count > 0 {
      StoresFill(s, payload, old_, count - 1);
    }
  }

  /** Recording a sample puts it into its slot under its number, counts it, and touches no other slot. */
  lemma RecordPublishes(s: State, payload: Payload)
    requires |s.slots| == SLOTS && s.writer.writing == None && s.writer.counted == |s.writer.log|
    ensures var t, n := Recorded(s, payload), |s.writer.log| + 1;
      && t.writer == Writer(s.writer.log + [payload], None, n) && t.reader == s.reader && t.known == s.known
      && t.slots == s.slots[SlotOf(n) := Slot(Wrap(n), payload)]
  {
    var begun, k := Step(s, Begin(payload)), SlotOf(|s.writer.log| + 1);
    StoresFill(begun, payload, begun.slots[k], FIELDS);
    var filled := Stores(begun, FIELDS);
    assert filled.slots[k].fields == payload;
    assert filled.slots[k := Slot(Wrap(|s.writer.log| + 1), payload)]
        == s.slots[k := Slot(Wrap(|s.writer.log| + 1), payload)];
  }

  function Copies(s: State, count: nat): (t: State)
    requires |s.slots| == SLOTS
    ensures |t.slots| == SLOTS
  {
    if count == 0 then s else Step(Copies(s, count - 1), CopyField(count - 1))
  }

  /** One turn of the reader's loop up to its second check. */
  function Inspected(s: State, sequence: u32): State
    requires |s.slots| == SLOTS
  {
    Step(Copies(Step(Step(s, ReadInfo), FirstCheck(sequence)), FIELDS), CopySequence)
  }

  lemma {:induction false} CopiesFill(s: State, count: nat)
    requires |s.slots| == SLOTS && count <= FIELDS
    ensures var t := Copies(s, count);
      && t.slots == s.slots && t.writer == s.writer && t.known == s.known
      && (s.reader.Resting? ==> t == s)
      && (s.reader.Copying? && s.reader.copied == {} ==>
            && t.reader.Copying? && t.reader == s.reader.(copied := t.reader.copied, copy := t.reader.copy)
            && (forall f :: 0 <= f < count ==> f in t.reader.copied)
            && (forall f :: 0 <= f < count ==>
                  t.reader.copy[f] == s.slots[SlotOfSequence(s.reader.sequence)].fields[f]))
  {
    if count > 0 { CopiesFill(s, count - 1); }
  }

  /** With the writer at rest the latest sample in the slot of a number is that sample, or one 1024 or more later. */
  lemma LatestOf(n: nat, begun: nat)
    requires 1 <= n <= begun
    ensures n <= Latest(SlotOf(n), begun)
    ensures Latest(SlotOf(n), begun) == n <==> begun < n + SLOTS
  {
    var latest := Latest(SlotOf(n), begun);
    assert latest == n || latest >= n + SLOTS;
    if begun >= n + SLOTS {
      ModUnique(n + SLOTS - 1, (n - 1) / SLOTS + 1, (n - 1) % SLOTS, SLOTS);
      assert SlotOf(n + SLOTS) == SlotOf(n);
    }
  }

  /** The first check passes exactly when the slot still shows that sample. */
  lemma FirstCheckExactly(s: State, n: nat)
    requires SlotsInv(s) && s.writer.writing == None && s.writer.counted == |s.writer.log|
    requires 1 <= n <= |s.writer.log| < TWO32
    ensures var told, k := Step(Step(s, ReadInfo), FirstCheck(n)), SlotOf(n);
      && told.slots == s.slots && SlotOfSequence(n) == k
      && (if |s.writer.log| < n + SLOTS
          then told.reader.Copying? && told.reader.sequence == n && told.reader.copied == {}
               && s.slots[k] == Slot(n, s.writer.log[n - 1])
          else told.reader.Resting?)
  {
    var latest := Latest(SlotOf(n), |s.writer.log|);
    SlotFromSequence(n);
    WrapsNot(n);
    LatestOf(n, |s.writer.log|);
    assert SlotInv(s.slots[SlotOf(n)], s.writer, latest);
    WrapsNot(latest);
    WrapsNot(|s.writer.log|);
  }

  lemma WrapsNot(n: nat)
    requires n < TWO32
    ensures Wrap(n) == n
  {
  }

  /** From there the copy goes through. */
  lemma CopyAccepts(told: State, n: u32)
    requires |told.slots| == SLOTS
    ensures var t := Step(Copies(told, FIELDS), CopySequence); told.reader.Resting? ==> !Accepts(t)
    ensures var t, k := Step(Copies(told, FIELDS), CopySequence), SlotOfSequence(n);
      told.reader.Copying? && told.reader.sequence == n && told.reader.copied == {} && told.slots[k].sequence == n ==>
        Accepts(t) && t.reader.copy == told.slots[k].fields
  {
    CopiesFill(told, FIELDS);
  }

  /** While nothing is being written a reader accepts exactly the samples of the last 1024 numbers, unchanged. */
  lemma ReadBackExactly(s: State, n: nat)
    requires SlotsInv(s) && s.writer.writing == None && s.writer.counted == |s.writer.log|
    requires 1 <= n <= |s.writer.log| < TWO32
    ensures Accepts(Inspected(s, n)) <==> |s.writer.log| < n + SLOTS
    ensures Accepts(Inspected(s, n)) ==> Inspected(s, n).reader.copy == s.writer.log[n - 1]
  {
    FirstCheckExactly(s, n);
    CopyAccepts(Step(Step(s, ReadInfo), FirstCheck(n)), n);
  }

  // ------------------------------------------------------------ the reader's loop

  /** The loop counter after n turns: 32 bits, from the oldest sample still in the ring. */
  function FirstShown(last: u32): u32 { if last > SLOTS then last - SLOTS + 1 else 1 }

  function CounterAfter(last: u32, turns: nat): u32 { Wrap(FirstShown(last) + turns) }

  /** The loop condition holds before every one of the first n turns. */
  predicate StillInside(last: u32, turns: nat) { forall n :: 0 <= n < turns ==> CounterAfter(last, n) <= last }

  /**
   Exactly when the loop ends: it makes a bounded number of turns if and only if the
   newest sequence number is not the largest 32-bit value.
   */
  lemma LoopEndsExactly(last: u32)
    ensures (exists turns: nat :: StillInside(last, turns) && CounterAfter(last, turns) > last) <==> last != TWO32 - 1
  {
    if last != TWO32 - 1 {
      var turns: nat := last + 1 - FirstShown(last);
      forall n | 0 <= n <= turns ensures CounterAfter(last, n) == FirstShown(last) + n {
      }
      assert StillInside(last, turns) && CounterAfter(last, turns) > last;
    }
  }

  /** Below the largest number the counter of the loop does not wrap. */
  lemma NextNumber(sequence: u32, last: u32)
    requires sequence <= last < TWO32 - 1
    ensures Wrap(sequence + 1) == sequence + 1
  {
  }

  /**
   DumpSamples: one look at each number from the oldest to the newest, in order.  What
   the two checks around the copy answer is the environment's; a number whose slot
   fails either is skipped.
   */
  method DumpSamples(last: u32, checks: seq<bool>) returns (looked: seq<u32>, shown: seq<u32>)
    requires last != TWO32 - 1 && |checks| == SLOTS
    ensures |looked| == if last < SLOTS then last else SLOTS
    ensures forall n :: 0 <= n < |looked| ==> looked[n] == last - |looked| + 1 + n
    ensures shown == Passing(looked, checks)
  {
    looked, shown := [], [];
    var sequence := FirstShown(last);
    ghost var first := sequence;
    while sequence <= last
      invariant first <= sequence <= last + 1
      invariant |looked| == sequence - first
      invariant forall n :: 0 <= n < |looked| ==> looked[n] == first + n
      invariant shown == Passing(looked, checks)
      decreases last + 1 - sequence
    {
      PassingNext(looked, sequence, checks);
      looked := looked + [sequence];
      if checks[SlotOfSequence(sequence)] {
        shown := shown + [sequence];
      }
      NextNumber(sequence, last);
      sequence := Wrap(sequence + 1);
    }
  }

  /** The numbers whose slots passed both checks, in the order they were looked at. */
  function Passing(looked: seq<u32>, checks: seq<bool>): seq<u32>
    requires |checks| == SLOTS
  {
    if |looked| == 0 then []
    else
      var last := looked[|looked| - 1];
      Passing(looked[..|looked| - 1], checks) + (if checks[SlotOfSequence(last)] then [last] else [])
  }

  lemma PassingNext(looked: seq<u32>, sequence: u32, checks: seq<bool>)
    requires |checks| == SLOTS
    ensures Passing(looked + [sequence], checks)
         == Passing(looked, checks) + (if checks[SlotOfSequence(sequence)] then [sequence] else [])
  {
    assert (looked + [sequence])[..|looked|] == looked;
  }
}
