/**
 The command-processor ring (src/radeon_cp.c): one producer writes byte-swapped
 dwords and publishes them through WPTR, the command processor reads them at
 RPTR and runs whenever it likes.

 `history` is every dword published since the ring was programmed and `head` how
 many of them the command processor has fetched, so `history[head..]` is the
 pending queue.  The ring memory has to represent exactly that queue.
 */
module CpRing {
  import opened Words

  const RING_DWORDS: nat := 262144
  const RING_ALIGNMENT: nat := 16
  const MAX_BATCH_DWORDS: nat := 8192
  const STALL_POLLS: nat := 20000
  const PROGRESS_EVERY: nat := 16
  const PACKET2: bv32 := 0x8000_0000

  // ------------------------------------------------------------ byte order

  function SwapLong(x: bv32): bv32 {
    (x >> 24) | ((x >> 8) & 0xff00) | ((x << 8) & 0x00ff_0000) | (x << 24)
  }

  /** `rol.w #8`: rotate the low word of a register by one byte. */
  function RolWord8(x: bv32): bv32 {
    (x & 0xffff_0000) | ((x << 8) & 0xff00) | ((x >> 8) & 0xff)
  }

  /** `swap`: exchange the two halves of a register. */
  function SwapHalves(x: bv32): bv32 {
    (x << 16) | (x >> 16)
  }

  /** The bytes come out in the opposite order. */
  lemma SwapReversesBytes(x: bv32)
    ensures SwapLong(x) >> 24 == x & 0xff && (SwapLong(x) >> 16) & 0xff == (x >> 8) & 0xff
    ensures (SwapLong(x) >> 8) & 0xff == (x >> 16) & 0xff && SwapLong(x) & 0xff == x >> 24
  {
  }

  lemma SwapInvolutive(x: bv32)
    ensures SwapLong(SwapLong(x)) == x
  {
  }

  /** The three-instruction burst sequence reverses the four bytes. */
  lemma BurstRegisterSwap(x: bv32)
    ensures RolWord8(SwapHalves(RolWord8(x))) == SwapLong(x)
  {
  }

  // ------------------------------------------------------------ stream layout

  function FenceTail(sequence: bv32): (tail: seq<bv32>)
    ensures |tail| == 6
  {
    [0x5c5, 0x0f, 0x5c8, 0x7_0200, 0x578, sequence]
  }

  function PaddedCount(count: nat): (padded: nat)
    ensures padded % RING_ALIGNMENT == 0
    ensures count <= padded < count + RING_ALIGNMENT
  {
    count + RING_ALIGNMENT - 1 - (count + RING_ALIGNMENT - 1) % RING_ALIGNMENT
  }

  function Fill(count: nat): seq<bv32> {
    seq(count, _ => PACKET2)
  }

  /** What a submission puts on the ring: commands, then the retiring tail, then padding. */
  function Stream(commands: seq<bv32>, addFence: bool, sequence: bv32): (stream: seq<bv32>)
    ensures commands <= stream
    ensures |stream| == PaddedCount(|commands| + (if addFence then 6 else 0))
  {
    var body := commands + (if addFence then FenceTail(sequence) else []);
    body + Fill(PaddedCount(|body|) - |body|)
  }

  /** The dword the copy loops ask for at one index. */
  function StreamDword(commands: seq<bv32>, index: nat, addFence: bool, sequence: bv32): bv32 {
    if index < |commands| then commands[index]
    else
      var rest := index - |commands|;
      if addFence && rest < 5 then [0x5c5, 0x0f, 0x5c8, 0x7_0200, 0x578][rest]
      else if addFence && rest == 5 then sequence
      else PACKET2
  }

  /** Indexing on demand and laying the stream out at once agree at every position. */
  lemma StreamDwordLayout(commands: seq<bv32>, index: nat, addFence: bool, sequence: bv32)
    requires index < |Stream(commands, addFence, sequence)|
    ensures StreamDword(commands, index, addFence, sequence) == Stream(commands, addFence, sequence)[index]
  {
    var body := commands + (if addFence then FenceTail(sequence) else []);
    if index < |commands| {
      assert body[index] == commands[index];
    } else if addFence && index < |commands| + 6 {
      assert body[index] == FenceTail(sequence)[index - |commands|];
    }
  }

  // ------------------------------------------------------------ what the processor does with it

  datatype Write = Write(register: bv32, value: bv32)

  /**
   The register writes that reading these dwords as packets makes.  A type-2 packet is
   skipped; a type-0 packet with one value writes it to the register its low bits name
   in units of four bytes.  Anything else is not one of the packets read here.
   */
  function Effects(dwords: seq<bv32>): Option<seq<Write>> {
    if |dwords| == 0 then Some([])
    else if dwords[0] >> 30 == 2 then Effects(dwords[1..])
    else if dwords[0] >> 13 == 0 && |dwords| > 1 then
      match Effects(dwords[2..])
      case None => None
      case Some(rest) => Some([Write((dwords[0] & 0x1fff) << 2, dwords[1])] + rest)
    else None
  }

  /** The retiring writes: flush the caches, wait until everything is idle and clean, write the fence. */
  function Retiring(sequence: bv32): seq<Write> {
    [Write(0x1714, 0x0f), Write(0x1720, 0x7_0200), Write(0x15e0, sequence)]
  }

  lemma {:induction false} PaddingDoesNothing(count: nat)
    ensures Effects(Fill(count)) == Some([])
  {
    if count > 0 {
      assert Fill(count)[1..] == Fill(count - 1);
      PaddingDoesNothing(count - 1);
    }
  }

  lemma WriteEffect(header: bv32, value: bv32, rest: seq<bv32>, register: bv32)
    requires header >> 30 != 2 && header >> 13 == 0 && (header & 0x1fff) << 2 == register
    ensures Effects([header, value] + rest) == match Effects(rest)
      case None => None
      case Some(writes) => Some([Write(register, value)] + writes)
  {
    var dwords := [header, value] + rest;
    assert dwords[2..] == rest;
  }

  lemma TailRetires(sequence: bv32, padding: nat)
    ensures Effects(FenceTail(sequence) + Fill(padding)) == Some(Retiring(sequence))
  {
    var fill := Fill(padding);
    PaddingDoesNothing(padding);
    WriteEffect(0x578, sequence, fill, 0x15e0);
    WriteEffect(0x5c8, 0x7_0200, [0x578, sequence] + fill, 0x1720);
    WriteEffect(0x5c5, 0x0f, [0x5c8, 0x7_0200] + ([0x578, sequence] + fill), 0x1714);
    assert Retiring(sequence) == [Write(0x1714, 0x0f)] + ([Write(0x1720, 0x7_0200)] + ([Write(0x15e0, sequence)] + []));
    assert FenceTail(sequence) + fill == [0x5c5, 0x0f] + ([0x5c8, 0x7_0200] + ([0x578, sequence] + fill));
  }

  /** Behind its commands a stream retires the fence, if it has one, and does nothing else. */
  lemma StreamRetires(commands: seq<bv32>, addFence: bool, sequence: bv32)
    ensures var stream := Stream(commands, addFence, sequence);
      commands <= stream && Effects(stream[|commands|..]) == Some(if addFence then Retiring(sequence) else [])
  {
    var stream := Stream(commands, addFence, sequence);
    var tail := if addFence then FenceTail(sequence) else [];
    var padding := |stream| - |commands| - |tail|;
    assert stream[|commands|..] == tail + Fill(padding);
    if addFence {
      TailRetires(sequence, padding);
    } else {
      PaddingDoesNothing(padding);
      assert tail + Fill(padding) == Fill(padding);
    }
  }

  /**
   A submission has joined the history: its commands, and behind them what retires its
   fence if it has one, in whole lines and without any other effect.
   */
  ghost predicate Submitted(before: seq<bv32>, after: seq<bv32>, commands: seq<bv32>, addFence: bool, sequence: bv32) {
    && before + commands <= after
    && |after| % RING_ALIGNMENT == |before| % RING_ALIGNMENT
    && Effects(after[|before| + |commands|..]) == Some(if addFence then Retiring(sequence) else [])
  }

  lemma Behind(before: seq<bv32>, commands: seq<bv32>, stream: seq<bv32>)
    requires commands <= stream
    ensures before + commands <= before + stream
    ensures (before + stream)[|before| + |commands|..] == stream[|commands|..]
  {
  }

  lemma WholeLines(length: nat, more: nat)
    requires more % RING_ALIGNMENT == 0
    ensures (length + more) % RING_ALIGNMENT == length % RING_ALIGNMENT
  {
  }

  lemma JoinsHistory(before: seq<bv32>, stream: seq<bv32>, commands: seq<bv32>, addFence: bool, sequence: bv32)
    requires commands <= stream && |stream| % RING_ALIGNMENT == 0
    requires Effects(stream[|commands|..]) == Some(if addFence then Retiring(sequence) else [])
    ensures Submitted(before, before + stream, commands, addFence, sequence)
  {
    Behind(before, commands, stream);
    WholeLines(|before|, |stream|);
  }

  lemma StreamSubmits(before: seq<bv32>, commands: seq<bv32>, addFence: bool, sequence: bv32)
    ensures Submitted(before, before + Stream(commands, addFence, sequence), commands, addFence, sequence)
  {
    StreamRetires(commands, addFence, sequence);
    JoinsHistory(before, Stream(commands, addFence, sequence), commands, addFence, sequence);
  }

  // ------------------------------------------------------------ ring arithmetic

  /** Two positions less than one lap apart share a slot only if they are equal. */
  lemma SlotsDistinct(p: nat, q: nat)
    requires p < q < p + RING_DWORDS
    ensures p % RING_DWORDS != q % RING_DWORDS
  {
  }

  /** Room the driver computes from the two pointers. */
  function FreeDwords(readPointer: nat, writePointer: nat): (free: nat)
    ensures free < RING_DWORDS
  {
    (readPointer - writePointer - 1) % RING_DWORDS
  }

  lemma FreeIsExact(head: nat, tail: nat)
    requires head <= tail < head + RING_DWORDS
    ensures FreeDwords(head % RING_DWORDS, tail % RING_DWORDS) == RING_DWORDS - 1 - (tail - head)
  {
  }

  lemma PointerGap(head: nat, tail: nat)
    requires head <= tail < head + RING_DWORDS
    ensures (tail % RING_DWORDS - head % RING_DWORDS) % RING_DWORDS == tail - head
  {
  }

  lemma PointerAdvance(position: nat, steps: nat)
    ensures (position % RING_DWORDS + steps) % RING_DWORDS == (position + steps) % RING_DWORDS
  {
  }

  /** A run of positions that starts in slot `to` and does not wrap. */
  lemma SlotOf(start: nat, to: nat, offset: nat)
    requires start % RING_DWORDS == to && to + offset < RING_DWORDS
    ensures (start + offset) % RING_DWORDS == to + offset
  {
  }

  /** Filling the ring up to its end brings the write pointer back to slot zero. */
  lemma WrapsToStart(tail: nat, writePointer: nat, firstCount: nat)
    requires writePointer == tail % RING_DWORDS && firstCount == RING_DWORDS - writePointer
    ensures (tail + firstCount) % RING_DWORDS == 0
  {
  }

  /** The ring memory represents the pending queue: unswapped, slot by slot. */
  ghost predicate Holds(memory: seq<bv32>, history: seq<bv32>, head: nat)
    requires |memory| == RING_DWORDS
  {
    forall p :: head <= p < |history| ==> SwapLong(memory[p % RING_DWORDS]) == history[p]
  }

  /** The first `count` dwords of a stream are staged in the slots from position `tail` on. */
  ghost predicate Staged(memory: seq<bv32>, tail: nat, stream: seq<bv32>, count: nat)
    requires |memory| == RING_DWORDS && count <= |stream|
  {
    forall k :: 0 <= k < count ==> memory[(tail + k) % RING_DWORDS] == SwapLong(stream[k])
  }

  /** Only slots to..to+count may differ, and they hold stream positions base..base+count. */
  ghost predicate Copied(before: seq<bv32>, after: seq<bv32>, to: nat, stream: seq<bv32>, base: nat, count: nat)
    requires |before| == |after| && to + count <= |after| && base + count <= |stream|
  {
    && (forall k :: to <= k < to + count ==> after[k] == SwapLong(stream[base + k - to]))
    && (forall k :: 0 <= k < |after| && !(to <= k < to + count) ==> after[k] == before[k])
  }

  /** A position before a segment, and within a lap of its end, is in none of its slots. */
  lemma OutOfReach(p: nat, start: nat, to: nat, count: nat)
    requires p < start && start + count <= p + RING_DWORDS
    requires to == start % RING_DWORDS && to + count <= RING_DWORDS
    ensures !(to <= p % RING_DWORDS < to + count)
  {
  }

  /** Unread dwords are never overwritten. */
  lemma CopyKeepsQueue(before: seq<bv32>, after: seq<bv32>, to: nat, stream: seq<bv32>, base: nat, count: nat,
                       history: seq<bv32>, head: nat)
    requires |before| == |after| == RING_DWORDS && to + count <= RING_DWORDS && base + count <= |stream|
    requires Copied(before, after, to, stream, base, count)
    requires to == (|history| + base) % RING_DWORDS
    requires head <= |history| && |history| - head + |stream| < RING_DWORDS
    requires Holds(before, history, head)
    ensures Holds(after, history, head)
  {
    forall p | head <= p < |history|
      ensures SwapLong(after[p % RING_DWORDS]) == history[p]
    {
      OutOfReach(p, |history| + base, to, count);
    }
  }

  /** One more contiguous segment extends what is staged. */
  lemma CopyExtendsStaged(before: seq<bv32>, after: seq<bv32>, to: nat, stream: seq<bv32>, base: nat, count: nat,
                          tail: nat)
    requires |before| == |after| == RING_DWORDS && to + count <= RING_DWORDS && base + count <= |stream|
    requires Copied(before, after, to, stream, base, count)
    requires to == (tail + base) % RING_DWORDS && |stream| < RING_DWORDS
    requires Staged(before, tail, stream, base)
    ensures Staged(after, tail, stream, base + count)
  {
    forall k | 0 <= k < base + count
      ensures after[(tail + k) % RING_DWORDS] == SwapLong(stream[k])
    {
      if k < base {
        OutOfReach(tail + k, tail + base, to, count);
      } else {
        SlotOf(tail + base, to, k - base);
      }
    }
  }

  /** The read-back of the last staged dword always finds what was written. */
  lemma LastReadsBack(memory: seq<bv32>, tail: nat, writePointer: nat, stream: seq<bv32>)
    requires |memory| == RING_DWORDS && |stream| > 0 && writePointer == tail % RING_DWORDS
    requires Staged(memory, tail, stream, |stream|)
    ensures SwapLong(memory[(writePointer + |stream| - 1) % RING_DWORDS]) == stream[|stream| - 1]
  {
    var last := |stream| - 1;
    PointerAdvance(tail, last);
    assert memory[(tail + last) % RING_DWORDS] == SwapLong(stream[last]);
    SwapInvolutive(stream[last]);
  }

  /** Staged dwords read back as the stream, so publishing them extends the queue by it. */
  lemma StagedJoinsQueue(memory: seq<bv32>, history: seq<bv32>, head: nat, stream: seq<bv32>)
    requires |memory| == RING_DWORDS
    requires Holds(memory, history, head) && Staged(memory, |history|, stream, |stream|)
    ensures Holds(memory, history + stream, head)
  {
    forall p | head <= p < |history + stream|
      ensures SwapLong(memory[p % RING_DWORDS]) == (history + stream)[p]
    {
      if p >= |history| {
        var k := p - |history|;
        assert memory[(|history| + k) % RING_DWORDS] == SwapLong(stream[k]);
        SwapInvolutive(stream[k]);
      }
    }
  }

  // ------------------------------------------------------------ streams in flight

  /** Where the streams of the history begin: in order, each at least 16 dwords long. */
  ghost predicate Spaced(starts: seq<nat>, length: nat) {
    && (forall k :: 0 <= k < |starts| ==> starts[k] + RING_ALIGNMENT <= length)
    && (forall k :: 0 <= k < |starts| - 1 ==> starts[k] + RING_ALIGNMENT <= starts[k + 1])
  }

  /** How many streams begin at or behind a position of the history. */
  function Beginning(starts: seq<nat>, head: nat): (count: nat)
    ensures count <= |starts|
  {
    if |starts| == 0 || starts[|starts| - 1] < head then 0
    else Beginning(starts[..|starts| - 1], head) + 1
  }

  /** Each of them fills at least 16 dwords between there and the end. */
  lemma {:induction false} BeginningFits(starts: seq<nat>, head: nat, length: nat)
    requires Spaced(starts, length) && head <= length
    ensures RING_ALIGNMENT * Beginning(starts, head) <= length - head
  {
    if |starts| > 0 && starts[|starts| - 1] >= head {
      var rest, last := starts[..|starts| - 1], starts[|starts| - 1];
      assert Spaced(rest, last) by {
        forall k | 0 <= k < |rest| ensures rest[k] + RING_ALIGNMENT <= last {
          SpacedFar(starts, k, |starts| - 1);
        }
      }
      BeginningFits(rest, head, last);
    }
  }

  lemma {:induction false} SpacedFar(starts: seq<nat>, j: nat, k: nat)
    requires j < k < |starts| && forall i :: 0 <= i < |starts| - 1 ==> starts[i] + RING_ALIGNMENT <= starts[i + 1]
    ensures starts[j] + RING_ALIGNMENT <= starts[k]
  {
    if j + 1 < k { SpacedFar(starts, j, k - 1); }
  }

  /** A stream that joins the history begins where it ended and fills whole lines. */
  lemma SpacedGrows(starts: seq<nat>, length: nat, more: nat)
    requires Spaced(starts, length) && more > 0 && more % RING_ALIGNMENT == 0
    ensures Spaced(starts + [length], length + more)
  {
    assert more >= RING_ALIGNMENT;
  }

  // ------------------------------------------------------------ committing behind a stale write pointer

  /** A stream copied to the slots from position w on, and nothing else changed. */
  ghost predicate CopiedAt(before: seq<bv32>, after: seq<bv32>, w: nat, stream: seq<bv32>)
    requires |before| == |after| == RING_DWORDS && |stream| < RING_DWORDS
  {
    && Staged(after, w, stream, |stream|)
    && (forall s :: 0 <= s < RING_DWORDS && (s - w) % RING_DWORDS >= |stream| ==> after[s] == before[s])
  }

  /** What the processor reads from its position up to a write pointer. */
  ghost function Seen(memory: seq<bv32>, head: nat, writePointer: nat): (dwords: seq<bv32>)
    requires |memory| == RING_DWORDS
  {
    seq((writePointer - head) % RING_DWORDS, k requires 0 <= k => SwapLong(memory[(head + k) % RING_DWORDS]))
  }

  lemma SeenLength(head: nat, end: nat)
    requires head <= end < head + RING_DWORDS
    ensures (end % RING_DWORDS - head) % RING_DWORDS == end - head
  {
    PointerGap(head, end);
    PointerAdvance(head, end - head);
  }

  lemma BehindStream(p: nat, w: nat, count: nat)
    requires p < w && w + count < p + RING_DWORDS
    ensures (p % RING_DWORDS - w) % RING_DWORDS >= count
  {
    AroundTheRing(w, p);
  }

  lemma AroundTheRing(head: nat, end: nat)
    requires end < head < end + RING_DWORDS
    ensures (end % RING_DWORDS - head) % RING_DWORDS == RING_DWORDS - (head - end)
  {
    ModUnique(end, end / RING_DWORDS, end % RING_DWORDS, RING_DWORDS);
    ModUnique(end % RING_DWORDS - head, -(end / RING_DWORDS) - 1, RING_DWORDS - (head - end), RING_DWORDS);
  }

  /** One dword the processor reads after the commit: still queued, or of the new stream. */
  lemma SeenDword(before: seq<bv32>, after: seq<bv32>, history: seq<bv32>, head: nat, w: nat, stream: seq<bv32>, p: nat)
    requires |before| == |after| == RING_DWORDS && |stream| < RING_DWORDS
    requires Holds(before, history, head) && CopiedAt(before, after, w, stream) && w <= |history|
    requires head <= p < w + |stream| < head + RING_DWORDS
    ensures SwapLong(after[p % RING_DWORDS]) == if p < w then history[p] else stream[p - w]
  {
    if p < w {
      BehindStream(p, w, |stream|);
      assert after[p % RING_DWORDS] == before[p % RING_DWORDS];
    } else {
      assert after[(w + (p - w)) % RING_DWORDS] == SwapLong(stream[p - w]);
      SwapInvolutive(stream[p - w]);
    }
  }

  /** The processor behind the new stream: the queue up to it, then all of it. */
  lemma SeesQueueFirst(before: seq<bv32>, after: seq<bv32>, history: seq<bv32>, head: nat, w: nat, stream: seq<bv32>)
    requires |before| == |after| == RING_DWORDS && |stream| < RING_DWORDS
    requires Holds(before, history, head) && CopiedAt(before, after, w, stream) && head <= w <= |history|
    requires w + |stream| < head + RING_DWORDS
    ensures Seen(after, head, (w + |stream|) % RING_DWORDS) == history[head..w] + stream
  {
    SeenLength(head, w + |stream|);
    var wanted := history[head..w] + stream;
    forall k | 0 <= k < w + |stream| - head ensures SwapLong(after[(head + k) % RING_DWORDS]) == wanted[k] {
      SeenDword(before, after, history, head, w, stream, head + k);
    }
  }

  /** The processor inside the new stream: what is left of it. */
  lemma SeesRest(before: seq<bv32>, after: seq<bv32>, history: seq<bv32>, head: nat, w: nat, stream: seq<bv32>)
    requires |before| == |after| == RING_DWORDS && |stream| < RING_DWORDS
    requires Holds(before, history, head) && CopiedAt(before, after, w, stream) && w <= |history|
    requires w < head <= w + |stream|
    ensures Seen(after, head, (w + |stream|) % RING_DWORDS) == stream[head - w..]
  {
    SeenLength(head, w + |stream|);
    var wanted := stream[head - w..];
    forall k | 0 <= k < w + |stream| - head ensures SwapLong(after[(head + k) % RING_DWORDS]) == wanted[k] {
      SeenDword(before, after, history, head, w, stream, head + k);
    }
  }

  /**
   What the processor sees of a stream committed at position w.  Ahead of it, the queue
   up to w and then the stream: whatever was published behind w is lost.  Behind it,
   the stream without its first dwords.
   */
  lemma NextCommitSees(before: seq<bv32>, after: seq<bv32>, history: seq<bv32>, head: nat, w: nat, stream: seq<bv32>)
    requires |before| == |after| == RING_DWORDS && |stream| < RING_DWORDS
    requires Holds(before, history, head) && CopiedAt(before, after, w, stream) && w <= |history|
    requires head <= w + |stream| < head + RING_DWORDS
    ensures Seen(after, head, (w + |stream|) % RING_DWORDS)
         == if head <= w then history[head..w] + stream else stream[head - w..]
  {
    if head <= w {
      SeesQueueFirst(before, after, history, head, w, stream);
    } else {
      SeesRest(before, after, history, head, w, stream);
    }
  }

  /**
   Exactly when the next commit after a lease appends its stream to the queue, as every
   other commit does: when the driver's write pointer is where the queue ends.
   */
  lemma NextCommitExactly(before: seq<bv32>, after: seq<bv32>, history: seq<bv32>, head: nat, w: nat, stream: seq<bv32>)
    requires |before| == |after| == RING_DWORDS && 0 < |stream| < RING_DWORDS
    requires Holds(before, history, head) && CopiedAt(before, after, w, stream)
    requires head <= |history| && w <= |history| < w + RING_DWORDS && |history| - head + |stream| < RING_DWORDS
    ensures Seen(after, head, (w + |stream|) % RING_DWORDS) == history[head..] + stream <==> w == |history|
  {
    if head <= w + |stream| {
      NextCommitSees(before, after, history, head, w, stream);
      if w == |history| { assert history[head..w] == history[head..]; }
    } else {
      // The write pointer is behind the processor, which would read on round the ring.
      var behind := head - (w + |stream|);
      AroundTheRing(head, w + |stream|);
      assert |Seen(after, head, (w + |stream|) % RING_DWORDS)| == RING_DWORDS - behind;
    }
  }

  class Ring {
    const memory: array<bv32>
    var writePointer: nat      // the driver's copy
    var rptr: nat              // RB_RPTR
    var wptr: nat              // RB_WPTR
    var ready: bool
    ghost var history: seq<bv32>
    ghost var starts: seq<nat> // where in the history each stream begins
    ghost var head: nat

    ghost predicate Valid()
      reads this, memory
    {
      && memory.Length == RING_DWORDS
      && head <= |history| < head + RING_DWORDS
      && rptr == head % RING_DWORDS
      && wptr == writePointer == |history| % RING_DWORDS
      && Holds(memory[..], history, head)
      && Spaced(starts, |history|)
    }

    /** The streams of which nothing has been fetched yet: never more than 16383. */
    ghost function StreamsInRing(): (count: nat)
      reads this, memory
      requires Valid()
      ensures RING_ALIGNMENT * count <= |Pending()| && count <= 16383
    {
      BeginningFits(starts, head, |history|);
      Beginning(starts, head)
    }

    ghost function Pending(): seq<bv32>
      reads this, memory
      requires Valid()
    {
      history[head..]
    }

    /** CpConfigureRing: both pointers at zero and an empty queue. */
    constructor ()
      ensures Valid() && fresh(memory)
      ensures history == [] && starts == [] && Pending() == []
    {
      memory := new bv32[RING_DWORDS];
      writePointer, rptr, wptr, ready := 0, 0, 0, true;
      history, starts, head := [], [], 0;
    }

    /** The command processor fetches some prefix of the pending queue, possibly nothing. */
    method CommandProcessorRuns()
      requires Valid()
      modifies `rptr, `head
      ensures Valid()
      ensures old(head) <= head <= |history|
    {
      var steps: nat :| steps <= (wptr - rptr) % RING_DWORDS;
      PointerGap(head, |history|);
      PointerAdvance(head, steps);
      rptr := (rptr + steps) % RING_DWORDS;
      head := head + steps;
    }

    /** Reading RB_RPTR: the processor may have run since the last access. */
    method ReadReadPointer() returns (value: nat)
      requires Valid()
      modifies `rptr, `head
      ensures Valid()
      ensures old(head) <= head <= |history|
      ensures value == rptr
    {
      CommandProcessorRuns();
      value := rptr;
    }

    /**
     CpReserve.  It ends without a timer: every poll that does not return either
     spends one of the 20000 stall credits or sees the queue shrink.
     */
    method Reserve(dwords: nat, timerOpen: bool) returns (ok: bool, polls: nat)
      requires Valid()
      modifies `rptr, `head
      ensures Valid()
      ensures old(head) <= head <= |history|
      ensures ok ==> |Pending()| + dwords < RING_DWORDS
      ensures old(|Pending()|) + dwords < RING_DWORDS ==> ok && polls == 1
      ensures dwords >= RING_DWORDS ==> !ok
      ensures polls <= STALL_POLLS + old(|Pending()|)
      ensures !ok && !timerOpen ==> polls >= STALL_POLLS
    {
      var stall, sampled := 0, 0;
      polls := 0;
      var lastReadPointer := ReadReadPointer();
      ghost var lastHead := head;
      while true
        invariant Valid()
        invariant old(head) <= lastHead == head <= |history|
        invariant lastReadPointer == lastHead % RING_DWORDS
        invariant stall < STALL_POLLS
        invariant stall <= polls <= stall + (lastHead - old(head))
        invariant polls > 0 ==> old(|Pending()|) + dwords >= RING_DWORDS
        decreases STALL_POLLS - stall + (|history| - lastHead)
      {
        var readPointer := ReadReadPointer();
        polls := polls + 1;
        FreeIsExact(head, |history|);
        if FreeDwords(readPointer, writePointer) >= dwords {
          return true, polls;
        }
        if readPointer != lastReadPointer {
          lastReadPointer := readPointer;
        } else {
          if head != lastHead { SlotsDistinct(lastHead, head); }
          stall := stall + 1;
          if stall >= STALL_POLLS {
            return false, polls;
          }
        }
        lastHead := head;
        sampled := sampled + 1;
        if sampled >= PROGRESS_EVERY {
          sampled := 0;
          var expired: bool := *;
          if timerOpen && expired {
            return false, polls;
          }
        }
      }
    }

    /** CpBurstCopySwapped: eight registers at a time, then one dword at a time. */
    method BurstCopySwapped(to: nat, source: seq<bv32>, from: nat, words: nat)
      requires to + words <= memory.Length && from + words <= |source|
      modifies memory
      ensures forall k :: to <= k < to + words ==> memory[k] == SwapLong(source[from + k - to])
      ensures forall k :: 0 <= k < memory.Length && !(to <= k < to + words) ==> memory[k] == old(memory[k])
    {
      var done := 0;
      while words - done >= 8
        invariant 0 <= done <= words
        invariant forall k :: to <= k < to + done ==> memory[k] == SwapLong(source[from + k - to])
        invariant forall k :: 0 <= k < memory.Length && !(to <= k < to + done) ==> memory[k] == old(memory[k])
      {
        var registers := source[from + done..from + done + 8];
        for d := 0 to 8
          invariant forall k :: to <= k < to + done + d ==> memory[k] == SwapLong(source[from + k - to])
          invariant forall k :: 0 <= k < memory.Length && !(to <= k < to + done + d) ==> memory[k] == old(memory[k])
        {
          BurstRegisterSwap(registers[d]);
          memory[to + done + d] := RolWord8(SwapHalves(RolWord8(registers[d])));
        }
        done := done + 8;
      }
      while done < words
        invariant 0 <= done <= words
        invariant forall k :: to <= k < to + done ==> memory[k] == SwapLong(source[from + k - to])
        invariant forall k :: 0 <= k < memory.Length && !(to <= k < to + done) ==> memory[k] == old(memory[k])
      {
        memory[to + done] := SwapLong(source[from + done]);
        done := done + 1;
      }
    }

    /** One contiguous segment: the command part in bursts, the tail dword by dword. */
    method CopySegment(to: nat, base: nat, count: nat,
                       commands: seq<bv32>, addFence: bool, sequence: bv32)
      requires to + count <= memory.Length
      requires base + count <= |Stream(commands, addFence, sequence)|
      modifies memory
      ensures Copied(old(memory[..]), memory[..], to, Stream(commands, addFence, sequence), base, count)
    {
      ghost var stream := Stream(commands, addFence, sequence);
      var data := 0;
      if base < |commands| {
        data := |commands| - base;
        if data > count { data := count; }
        BurstCopySwapped(to, commands, base, data);
      }
      for index := data to count
        invariant forall k :: to <= k < to + index ==> memory[k] == SwapLong(stream[base + k - to])
        invariant forall k :: 0 <= k < memory.Length && !(to <= k < to + index) ==> memory[k] == old(memory[k])
      {
        StreamDwordLayout(commands, base + index, addFence, sequence);
        memory[to + index] := SwapLong(StreamDword(commands, base + index, addFence, sequence));
      }
    }

    /** A segment copied behind the queue: the queue is untouched and more of the stream is staged. */
    method StageSegment(to: nat, base: nat, count: nat,
                        commands: seq<bv32>, addFence: bool, sequence: bv32)
      requires Valid()
      requires to == (|history| + base) % RING_DWORDS && to + count <= RING_DWORDS
      requires base + count <= |Stream(commands, addFence, sequence)|
      requires |Pending()| + |Stream(commands, addFence, sequence)| < RING_DWORDS
      requires Staged(memory[..], |history|, Stream(commands, addFence, sequence), base)
      modifies memory
      ensures Valid()
      ensures Staged(memory[..], |history|, Stream(commands, addFence, sequence), base + count)
    {
      ghost var before, stream := memory[..], Stream(commands, addFence, sequence);
      CopySegment(to, base, count, commands, addFence, sequence);
      CopyKeepsQueue(before, memory[..], to, stream, base, count, history, head);
      CopyExtendsStaged(before, memory[..], to, stream, base, count, |history|);
    }

    /** The processor may run after a segment, and sees the same queue. */
    method StageAndRun(to: nat, base: nat, count: nat, commands: seq<bv32>, addFence: bool, sequence: bv32)
      requires Valid()
      requires to == (|history| + base) % RING_DWORDS && to + count <= RING_DWORDS
      requires base + count <= |Stream(commands, addFence, sequence)|
      requires |Pending()| + |Stream(commands, addFence, sequence)| < RING_DWORDS
      requires Staged(memory[..], |history|, Stream(commands, addFence, sequence), base)
      modifies `rptr, `head, memory
      ensures Valid() && old(head) <= head
      ensures Staged(memory[..], |history|, Stream(commands, addFence, sequence), base + count)
    {
      StageSegment(to, base, count, commands, addFence, sequence);
      CommandProcessorRuns();
    }

    /**
     Both segments of a stream, with the wrap in between when the ring ends first.
     The processor may run between them; the queue it reads is untouched.
     */
    method CopyStream(commands: seq<bv32>, addFence: bool, sequence: bv32, padded: nat)
      requires Valid()
      requires padded == |Stream(commands, addFence, sequence)| && |Pending()| + padded < RING_DWORDS
      modifies `rptr, `head, memory
      ensures Valid()
      ensures old(head) <= head
      ensures Staged(memory[..], |history|, Stream(commands, addFence, sequence), padded)
    {
      var firstCount := RING_DWORDS - writePointer;
      if firstCount > padded { firstCount := padded; }
      var remaining := padded - firstCount;
      StageAndRun(writePointer, 0, firstCount, commands, addFence, sequence);
      if remaining > 0 {
        WrapsToStart(|history|, writePointer, firstCount);
        StageAndRun(0, firstCount, remaining, commands, addFence, sequence);
      }
    }

    /** The read-back of the last dword, then the WPTR write that publishes the stream. */
    method Publish(padded: nat, commands: seq<bv32>, addFence: bool, sequence: bv32, mmioOk: bool) returns (ok: bool)
      requires Valid()
      requires 0 < padded == |Stream(commands, addFence, sequence)| && |Pending()| + padded < RING_DWORDS
      requires Staged(memory[..], |history|, Stream(commands, addFence, sequence), padded)
      modifies `writePointer, `wptr, `history, `starts
      ensures Valid()
      ensures ok == mmioOk
      ensures history == if ok then old(history) + Stream(commands, addFence, sequence) else old(history)
      ensures starts == if ok then old(starts) + [|old(history)|] else old(starts)
      ensures !ok ==> writePointer == old(writePointer)
    {
      ghost var stream := Stream(commands, addFence, sequence);
      StreamDwordLayout(commands, padded - 1, addFence, sequence);
      var expectedLast := StreamDword(commands, padded - 1, addFence, sequence);
      var lastIndex := (writePointer + padded - 1) % RING_DWORDS;
      LastReadsBack(memory[..], |history|, writePointer, stream);
      if SwapLong(memory[lastIndex]) != expectedLast {
        assert false;
        return false;
      }
      if !mmioOk {
        return false;
      }
      var newWritePointer := (writePointer + padded) % RING_DWORDS;
      PointerAdvance(|history|, padded);
      StagedJoinsQueue(memory[..], history, head, stream);
      wptr := newWritePointer;
      writePointer := newWritePointer;
      SpacedGrows(starts, |history|, padded);
      starts := starts + [|history|];
      history := history + stream;
      ok := true;
    }

    /**
     CpCommitStream.  On success the whole padded stream joins the queue behind
     everything already there; on failure the queue the processor sees is
     untouched.  In both cases the processor may have fetched some of it meanwhile.
     */
    method CommitStream(commands: seq<bv32>, addFence: bool, sequence: bv32,
                        timerOpen: bool, mmioOk: bool) returns (ok: bool)
      requires Valid()
      modifies this`writePointer, this`rptr, this`wptr, this`history, this`starts, this`head, memory
      ensures Valid()
      ensures old(head) <= head
      ensures ok ==> ready && 0 < |commands| <= MAX_BATCH_DWORDS && mmioOk
      ensures ok ==>
        history == old(history) + Stream(commands, addFence, sequence) && starts == old(starts) + [|old(history)|]
      ensures ok ==> Submitted(old(history), history, commands, addFence, sequence)
      ensures !ok ==> history == old(history) && starts == old(starts) && writePointer == old(writePointer)
      ensures (ready && 0 < |commands| <= MAX_BATCH_DWORDS && mmioOk &&
               old(|Pending()|) + |Stream(commands, addFence, sequence)| < RING_DWORDS) ==> ok
    {
      if !ready || |commands| == 0 || |commands| > MAX_BATCH_DWORDS {
        return false;
      }
      var padded := PaddedCount(|commands| + (if addFence then 6 else 0));
      if padded == 0 || padded >= RING_DWORDS {
        return false;
      }
      var reserved, _ := Reserve(padded, timerOpen);
      if !reserved {
        return false;
      }
      ok := StageAndPublish(padded, commands, addFence, sequence, mmioOk);
    }

    /** Copied behind the queue, read back and published. */
    method StageAndPublish(padded: nat, commands: seq<bv32>, addFence: bool, sequence: bv32, mmioOk: bool)
        returns (ok: bool)
      requires Valid()
      requires 0 < padded == |Stream(commands, addFence, sequence)| && |Pending()| + padded < RING_DWORDS
      modifies this`writePointer, this`rptr, this`wptr, this`history, this`starts, this`head, memory
      ensures Valid() && old(head) <= head
      ensures ok == mmioOk
      ensures ok ==> Submitted(old(history), history, commands, addFence, sequence)
      ensures history == if ok then old(history) + Stream(commands, addFence, sequence) else old(history)
      ensures starts == if ok then old(starts) + [|old(history)|] else old(starts)
      ensures !ok ==> writePointer == old(writePointer)
    {
      StreamSubmits(history, commands, addFence, sequence);
      CopyStream(commands, addFence, sequence, padded);
      ok := Publish(padded, commands, addFence, sequence, mmioOk);
    }

    /** The card's half of `Valid`: everything but the driver's own write pointer. */
    ghost predicate CardValid()
      reads this, memory
    {
      && memory.Length == RING_DWORDS
      && head <= |history| < head + RING_DWORDS
      && rptr == head % RING_DWORDS
      && wptr == |history| % RING_DWORDS
      && Holds(memory[..], history, head)
      && Spaced(starts, |history|)
    }

    /**
     RadeonCpAdoptFence after a lease whose holder moved WPTR itself.  The driver's
     write pointer agrees with the card again exactly when the holder published
     nothing (no last fence) or the queue has drained to the last padding dword.
     */
    method AdoptFence(lastFence: bv32)
      requires CardValid() && writePointer < RING_DWORDS
      modifies `writePointer
      ensures CardValid()
      ensures writePointer == if lastFence == 0 then old(writePointer) else rptr
      ensures lastFence == 0 ==> (Valid() <==> old(writePointer) == wptr)
      ensures lastFence != 0 ==> (Valid() <==> head == |history|)
    {
      if lastFence != 0 {
        PointerGap(head, |history|);
        writePointer := rptr;
      }
    }

    /** One dword of a stream behind the queue. */
    method StageDword(stream: seq<bv32>, k: nat)
      requires memory.Length == RING_DWORDS && k < |stream| && wptr == |history| % RING_DWORDS
      requires head <= |history| && |history| - head + |stream| < RING_DWORDS
      requires Holds(memory[..], history, head) && Staged(memory[..], |history|, stream, k)
      modifies memory
      ensures Holds(memory[..], history, head) && Staged(memory[..], |history|, stream, k + 1)
    {
      var to := (wptr + k) % RING_DWORDS;
      PointerAdvance(|history|, k);
      ghost var before := memory[..];
      memory[to] := SwapLong(stream[k]);
      assert Copied(before, memory[..], to, stream, k, 1);
      CopyKeepsQueue(before, memory[..], to, stream, k, 1, history, head);
      CopyExtendsStaged(before, memory[..], to, stream, k, 1, |history|);
    }

    /** The lease holder's own writer puts a stream on the ring and moves WPTR past it. */
    method HolderPublishes(stream: seq<bv32>)
      requires CardValid() && |stream| > 0 && |stream| % RING_ALIGNMENT == 0
      requires |history| - head + |stream| < RING_DWORDS
      modifies `wptr, `history, `starts, memory
      ensures CardValid() && history == old(history) + stream
    {
      for k := 0 to |stream|
        modifies memory
        invariant Holds(memory[..], history, head)
        invariant Staged(memory[..], |history|, stream, k)
      {
        StageDword(stream, k);
      }
      StagedJoinsQueue(memory[..], history, head, stream);
      SpacedGrows(starts, |history|, |stream|);
      PointerAdvance(|history|, |stream|);
      wptr := (wptr + |stream|) % RING_DWORDS;
      starts := starts + [|history|];
      history := history + stream;
    }

    /** One line of padding, on a ring that agreed with the driver: its write pointer is now behind. */
    method HolderPublishesLine()
      requires Valid() && |Pending()| + RING_ALIGNMENT < RING_DWORDS
      modifies `wptr, `history, `starts, memory
      ensures CardValid() && head < |history| && writePointer < RING_DWORDS
      ensures writePointer != wptr && rptr != wptr
    {
      HolderPublishes(Fill(RING_ALIGNMENT));
      PointerGap(head, |history|);
      SlotsDistinct(|old(history)|, |history|);
    }

    /**
     A lease in which the holder publishes one line, as on any ring with room for it.
     With no fence reported the driver's write pointer stays behind; with a fence
     reported before the processor has fetched the line, it is set to the read pointer.
     Either way it is not where the queue ends.
     */
    method LeaseOneLine(lastFence: bv32)
      requires Valid() && |Pending()| + RING_ALIGNMENT < RING_DWORDS
      modifies `writePointer, `wptr, `history, `starts, memory
      ensures CardValid() && !Valid() && writePointer != wptr
      ensures writePointer == if lastFence == 0 then old(writePointer) else rptr
    {
      HolderPublishesLine();
      AdoptFence(lastFence);
    }
  }

  /** Such a ring exists: a fresh one. */
  method LeasedRing(lastFence: bv32) returns (ring: Ring)
    ensures fresh(ring) && ring.CardValid() && !ring.Valid()
  {
    ring := new Ring();
    ring.LeaseOneLine(lastFence);
  }
}
