/**
 Private video memory (src/dma.c): blocks carved off the top of what Picasso96 may
 use, given back in the opposite order.
 */
module PrivateVram {
  import opened Words

  const ALIGNMENT: nat := 4096

  /** Rounded down, and up, to whole 4 KiB units. */
  function Floor(x: nat): (y: nat)
    ensures y <= x < y + ALIGNMENT && y % ALIGNMENT == 0
  {
    x - x % ALIGNMENT
  }

  function RoundUp(x: nat): (y: nat)
    ensures x <= y < x + ALIGNMENT && y % ALIGNMENT == 0
  {
    Floor(x + (ALIGNMENT - 1))
  }

  /** A size the two functions accept. */
  predicate Plausible(requested: u32) { 0 < requested <= TWO32 - 1 - (ALIGNMENT - 1) }

  /** Exactly those whose block is not empty and still fits 32 bits in whole units. */
  lemma PlausibleExactly(requested: u32)
    ensures Plausible(requested) <==> 0 < RoundUp(requested) < TWO32
  {
  }

  /** The new limit after a carve, which is also the block's offset. */
  function Carved(limit: nat, requested: nat): Option<nat> {
    if RoundUp(requested) > limit then None else Some(Floor(limit - RoundUp(requested)))
  }

  lemma CarveBounds(limit: nat, requested: nat)
    requires Carved(limit, requested).Some?
    ensures var offset := Carved(limit, requested).value;
      offset % ALIGNMENT == 0 && offset + RoundUp(requested) == Floor(limit)
  {
  }

  // ------------------------------------------------------------ a run of carves

  /**
   One carve of an initialisation: its size, whether the configuration asks for it at
   all, and whether its component then starts.  A component that does not, like a
   command processor that fails its self-test, gives its block back at once.
   */
  datatype Carve = Carve(requested: u32, wanted: bool, starts: bool)

  predicate Fits(limit: nat, c: Carve) { c.wanted && Plausible(c.requested) && Carved(limit, c.requested).Some? }

  /** The limit after the first n carves. */
  function LimitAfter(start: nat, carves: seq<Carve>, n: nat): (limit: nat)
    requires n <= |carves|
    ensures limit <= start
  {
    if n == 0 then start
    else
      var before := LimitAfter(start, carves, n - 1);
      if !Fits(before, carves[n - 1]) then before
      else if carves[n - 1].starts then Carved(before, carves[n - 1].requested).value
      else Floor(before)
  }

  /** A block was carved, if only to be given back at once. */
  predicate Tried(start: nat, carves: seq<Carve>, k: nat)
    requires k < |carves|
  {
    Fits(LimitAfter(start, carves, k), carves[k])
  }

  /** Carve k succeeded and stays; its block then starts at LimitAfter(k + 1). */
  predicate Got(start: nat, carves: seq<Carve>, k: nat)
    requires k < |carves|
  {
    Tried(start, carves, k) && carves[k].starts
  }

  predicate AnyTried(start: nat, carves: seq<Carve>, from: nat) {
    exists k :: from <= k < |carves| && Tried(start, carves, k)
  }

  lemma {:induction false} LimitFalls(start: nat, carves: seq<Carve>, m: nat, n: nat)
    requires m <= n <= |carves|
    ensures LimitAfter(start, carves, n) <= LimitAfter(start, carves, m)
    decreases n
  {
    if m < n { LimitFalls(start, carves, m, n - 1); }
  }

  /** Where block k lies: on 4 KiB boundaries, below everything carved earlier, above the limit. */
  lemma BlockPlace(start: nat, carves: seq<Carve>, k: nat)
    requires k < |carves| && Got(start, carves, k)
    ensures LimitAfter(start, carves, k + 1) % ALIGNMENT == 0
    ensures LimitAfter(start, carves, k + 1) + RoundUp(carves[k].requested) == Floor(LimitAfter(start, carves, k))
    ensures LimitAfter(start, carves, |carves|) <= LimitAfter(start, carves, k + 1)
    ensures LimitAfter(start, carves, k + 1) + RoundUp(carves[k].requested) <= start
  {
    CarveBounds(LimitAfter(start, carves, k), carves[k].requested);
    LimitFalls(start, carves, k + 1, |carves|);
  }

  /** Two carved blocks never overlap: the later one ends where, or before, the earlier one begins. */
  lemma BlocksApart(start: nat, carves: seq<Carve>, j: nat, k: nat)
    requires j < k < |carves| && Got(start, carves, j) && Got(start, carves, k)
    ensures LimitAfter(start, carves, k + 1) + RoundUp(carves[k].requested) <= LimitAfter(start, carves, j + 1)
  {
    BlockPlace(start, carves, k);
    LimitFalls(start, carves, j + 1, k);
  }

  /** The limit when everything carved from carve k on has been given back. */
  function Restored(start: nat, carves: seq<Carve>, k: nat): nat
    requires k <= |carves|
  {
    if AnyTried(start, carves, k) then Floor(LimitAfter(start, carves, k)) else LimitAfter(start, carves, k)
  }

  lemma AnyTriedStep(start: nat, carves: seq<Carve>, k: nat)
    requires k < |carves|
    ensures AnyTried(start, carves, k) <==> Tried(start, carves, k) || AnyTried(start, carves, k + 1)
  {
  }

  /** Before block k is freed the limit is exactly its offset, so the release is accepted. */
  lemma NextFree(start: nat, carves: seq<Carve>, k: nat)
    requires k < |carves|
    ensures Got(start, carves, k) ==>
      && Restored(start, carves, k + 1) == LimitAfter(start, carves, k + 1)
      && Restored(start, carves, k) == LimitAfter(start, carves, k + 1) + RoundUp(carves[k].requested)
    ensures !Got(start, carves, k) ==> Restored(start, carves, k) == Restored(start, carves, k + 1)
  {
    AnyTriedStep(start, carves, k);
    if Got(start, carves, k) { BlockPlace(start, carves, k); }
  }

  /**
   Initialise, then shut down: the limit is what it was exactly when it was a whole
   number of 4 KiB units to begin with, or nothing had been carved.
   */
  lemma RestoredExactly(start: nat, carves: seq<Carve>)
    ensures Restored(start, carves, 0) == start <==> start % ALIGNMENT == 0 || !AnyTried(start, carves, 0)
  {
  }

  /** The memory fields of BoardInfo. */
  class BoardInfo {
    const memoryBase: u32
    const memorySpaceSize: u32
    var memorySize: u32

    /** The aperture is mapped below 4 GiB, not at zero, and Picasso96 has no more than it. */
    predicate Valid()
      reads this
    {
      memoryBase != 0 && memoryBase + memorySpaceSize < TWO32 && memorySize <= memorySpaceSize
    }

    constructor (base: u32, size: u32)
      requires base != 0 && base + size < TWO32
      ensures Valid() && memorySize == memorySpaceSize == size && memoryBase == base
    {
      memoryBase, memorySpaceSize, memorySize := base, size, size;
    }

    /** RadeonAllocatePrivateVram; zero is the NULL of the source. */
    method Allocate(requested: u32) returns (memory: u32)
      requires Valid()
      modifies this
      ensures Valid()
      ensures memory != 0 <==> Plausible(requested) && Carved(old(memorySize), requested).Some?
      ensures memorySize == if memory != 0 then Carved(old(memorySize), requested).value else old(memorySize)
      ensures memory != 0 ==> memory == memoryBase + memorySize
    {
      if requested == 0 || requested > TWO32 - 1 - (ALIGNMENT - 1) {
        return 0;
      }
      var size := RoundUp(requested);
      if size > memorySize {
        return 0;
      }
      memorySize := Floor(memorySize - size);
      memory := memoryBase + memorySize;
    }

    /** RadeonFreePrivateVram: only the most recent carve is taken back. */
    method Free(memory: u32, requested: u32) returns (ok: bool)
      requires Valid()
      modifies this
      ensures Valid()
      ensures ok <==> memory == memoryBase + old(memorySize) && Plausible(requested)
                      && old(memorySize) + RoundUp(requested) <= memorySpaceSize
      ensures memorySize == if ok then old(memorySize) + RoundUp(requested) else old(memorySize)
    {
      if memory == 0 || requested == 0 || requested > TWO32 - 1 - (ALIGNMENT - 1) || memory < memoryBase {
        return false;
      }
      var offset: u32 := memory - memoryBase;
      var size := RoundUp(requested);
      if offset != memorySize || offset > memorySpaceSize || size > memorySpaceSize - offset {
        return false;
      }
      memorySize := memorySize + size;
      ok := true;
    }

    // ---------------------------------------------------------- attachment

    /** Carve after carve, as initialisation does; a block that does not fit stays zero. */
    method CarveAll(carves: seq<Carve>) returns (blocks: seq<u32>)
      requires Valid()
      modifies this
      ensures Valid() && |blocks| == |carves|
      ensures memorySize == LimitAfter(old(memorySize), carves, |carves|)
      ensures forall k :: 0 <= k < |carves| ==>
        blocks[k] == if Got(old(memorySize), carves, k) then memoryBase + LimitAfter(old(memorySize), carves, k + 1)
          else 0
    {
      blocks := [];
      for k := 0 to |carves|
        invariant Valid() && |blocks| == k
        invariant memorySize == LimitAfter(old(memorySize), carves, k)
        invariant forall i :: 0 <= i < k ==>
          blocks[i] == if Got(old(memorySize), carves, i) then memoryBase + LimitAfter(old(memorySize), carves, i + 1)
            else 0
      {
        var block := 0;
        if carves[k].wanted {
          block := Allocate(carves[k].requested);
          if block != 0 && !carves[k].starts {
            CarveBounds(LimitAfter(old(memorySize), carves, k), carves[k].requested);
            var freed := Free(block, carves[k].requested);
            assert freed;
            block := 0;
          }
        }
        blocks := blocks + [block];
      }
    }

    /** Shutdown: the last carve first, and only what was carved. */
    method FreeAll(carves: seq<Carve>, blocks: seq<u32>, ghost start: nat)
      requires Valid() && |blocks| == |carves| && start <= memorySpaceSize
      requires memorySize == LimitAfter(start, carves, |carves|)
      requires forall k :: 0 <= k < |carves| ==>
        blocks[k] == if Got(start, carves, k) then memoryBase + LimitAfter(start, carves, k + 1) else 0
      modifies this
      ensures Valid() && memorySize == Restored(start, carves, 0)
    {
      var k := |carves|;
      while k > 0
        invariant Valid() && 0 <= k <= |carves| && memorySize == Restored(start, carves, k)
      {
        k := k - 1;
        NextFree(start, carves, k);
        if blocks[k] != 0 {
          BlockPlace(start, carves, k);
          var ok := Free(blocks[k], carves[k].requested);
          assert ok;
        }
      }
    }

    /** RadeonInitializeAcceleration and the cursor, then RadeonFinishBoardRelease. */
    method AttachAndRelease(carves: seq<Carve>)
      requires Valid()
      modifies this
      ensures Valid()
      ensures memorySize == old(memorySize)
         <==> old(memorySize) % ALIGNMENT == 0 || !AnyTried(old(memorySize), carves, 0)
    {
      var blocks := CarveAll(carves);
      FreeAll(carves, blocks, old(memorySize));
      RestoredExactly(old(memorySize), carves);
    }
  }
}
