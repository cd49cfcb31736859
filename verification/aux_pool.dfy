/**
 The pool of auxiliary render surfaces (AuxPoolAlloc and AuxPoolFree in
 src/radeon3d_service.c): first fit over an unsorted table of eight blocks.
 */
module AuxPool {
  import opened Words
  import opened PrivateVram

  const MAX_BLOCKS: nat := 8
  const POOL_BYTES: nat := 4 * 1024 * 1024

  /** An entry of the table; zero bytes mean that it is free. */
  datatype Block = Block(offset: nat, bytes: nat)

  predicate Live(b: Block) { b.bytes > 0 }

  predicate Apart(a: Block, b: Block) { a.offset + a.bytes <= b.offset || b.offset + b.bytes <= a.offset }

  /** Live blocks are aligned, inside the pool, and pairwise disjoint. */
  predicate Sound(blocks: seq<Block>) {
    && (forall i :: 0 <= i < |blocks| && Live(blocks[i]) ==>
          blocks[i].offset % ALIGNMENT == 0 && blocks[i].bytes % ALIGNMENT == 0
          && blocks[i].offset + blocks[i].bytes <= POOL_BYTES)
    && forall i, j :: 0 <= i < j < |blocks| && Live(blocks[i]) && Live(blocks[j]) ==> Apart(blocks[i], blocks[j])
  }

  predicate Overlaps(b: Block, offset: nat, bytes: nat) {
    Live(b) && offset < b.offset + b.bytes && b.offset < offset + bytes
  }

  /** Which is to share a byte. */
  lemma OverlapsExactly(b: Block, offset: nat, bytes: nat)
    requires bytes > 0
    ensures Overlaps(b, offset, bytes) <==>
      exists byte: nat {:trigger Within(byte, offset, bytes)} ::
        Within(byte, offset, bytes) && Within(byte, b.offset, b.bytes)
  {
    if Overlaps(b, offset, bytes) {
      assert Within(if offset > b.offset then offset else b.offset, offset, bytes);
    }
  }

  predicate Within(byte: nat, offset: nat, bytes: nat) { offset <= byte < offset + bytes }

  /** A place for that many bytes: in the pool and clear of every live block. */
  predicate Place(blocks: seq<Block>, offset: nat, bytes: nat) {
    offset + bytes <= POOL_BYTES && forall i :: 0 <= i < |blocks| ==> !Overlaps(blocks[i], offset, bytes)
  }

  /** No place starts below the offset. */
  predicate NoneBelow(blocks: seq<Block>, offset: nat, bytes: nat) {
    forall lower :: 0 <= lower < offset ==> !Place(blocks, lower, bytes)
  }

  predicate Full(blocks: seq<Block>) { forall i :: 0 <= i < |blocks| ==> Live(blocks[i]) }

  /** A candidate that meets a block may be pushed past it without missing a place. */
  lemma PushedPast(blocks: seq<Block>, k: nat, candidate: nat, bytes: nat)
    requires k < |blocks| && Overlaps(blocks[k], candidate, bytes) && NoneBelow(blocks, candidate, bytes)
    ensures NoneBelow(blocks, blocks[k].offset + blocks[k].bytes, bytes)
  {
    forall lower | candidate <= lower < blocks[k].offset + blocks[k].bytes ensures !Place(blocks, lower, bytes) {
      assert Overlaps(blocks[k], lower, bytes);
    }
  }

  const EMPTY: Block := Block(0, 0)

  /** An empty table. */
  function EmptyTable(): (blocks: seq<Block>)
    ensures |blocks| == MAX_BLOCKS && Sound(blocks) && forall k :: 0 <= k < MAX_BLOCKS ==> !Live(blocks[k])
  {
    seq(MAX_BLOCKS, i => EMPTY)
  }

  /**
   What AuxPoolAlloc may answer, and what it leaves.  The rounded request goes to the
   least offset where it fits; an admissible request fails only when no offset fits or
   all entries are taken.
   */
  ghost predicate Allocates(before: seq<Block>, present: bool, requested: nat, got: Option<Block>, after: seq<Block>) {
    && (got.Some? <==> present && 0 < requested <= POOL_BYTES - (ALIGNMENT - 1) && !Full(before)
                       && exists o: nat :: Place(before, o, RoundUp(requested)))
    && (got.Some? ==>
          && got.value.bytes == RoundUp(requested) && got.value.offset % ALIGNMENT == 0
          && Place(before, got.value.offset, got.value.bytes) && NoneBelow(before, got.value.offset, got.value.bytes)
          && exists k :: 0 <= k < |before| && !Live(before[k]) && after == before[k := got.value])
    && (got == None ==> after == before)
  }

  /** The table without a block. */
  function Without(blocks: seq<Block>, block: Block): (after: seq<Block>)
    ensures |after| == |blocks|
    ensures forall i :: 0 <= i < |blocks| ==> after[i] == if blocks[i] == block then EMPTY else blocks[i]
  {
    seq(|blocks|, i requires 0 <= i < |blocks| => if blocks[i] == block then EMPTY else blocks[i])
  }

  class Pool {
    var present: bool
    const blocks: array<Block>

    predicate Valid()
      reads this, blocks
    {
      blocks.Length == MAX_BLOCKS && Sound(blocks[..])
    }

    constructor (carved: bool)
      ensures Valid() && fresh(blocks) && present == carved && blocks[..] == EmptyTable()
    {
      present := carved;
      blocks := new Block[MAX_BLOCKS](i => EMPTY);
    }

    /** Attaching: the table is cleared whoever still refers to it, and the pool carved again or not. */
    method Clear(carved: bool)
      requires Valid()
      modifies this, blocks
      ensures Valid() && present == carved && blocks[..] == EmptyTable()
    {
      for k := 0 to MAX_BLOCKS
        invariant forall i :: 0 <= i < k ==> blocks[i] == EMPTY
      {
        blocks[k] := EMPTY;
      }
      present := carved;
      assert blocks[..] == EmptyTable();
    }

    /** The search: the least offset that clears every block, if there is one at all. */
    method FindOffset(bytes: nat) returns (offset: Option<nat>)
      requires Valid() && 0 < bytes <= POOL_BYTES
      ensures offset.Some? ==> Place(blocks[..], offset.value, bytes) && NoneBelow(blocks[..], offset.value, bytes)
                               && offset.value % ALIGNMENT == 0
      ensures offset == None ==> forall o :: 0 <= o ==> !Place(blocks[..], o, bytes)
    {
      var candidate: nat := 0;
      var moved := true;
      while moved
        invariant candidate <= POOL_BYTES && candidate % ALIGNMENT == 0
        invariant NoneBelow(blocks[..], candidate, bytes)
        invariant !moved ==> Place(blocks[..], candidate, bytes)
        decreases POOL_BYTES - candidate, moved
      {
        moved := false;
        if candidate > POOL_BYTES || bytes > POOL_BYTES - candidate {
          return None;
        }
        candidate, moved := Pass(candidate, bytes);
      }
      offset := Some(candidate);
    }

    /** One pass over the table; a push makes the candidate strictly larger. */
    method Pass(start: nat, bytes: nat) returns (candidate: nat, moved: bool)
      requires Valid() && 0 < bytes && start + bytes <= POOL_BYTES && start % ALIGNMENT == 0
      requires NoneBelow(blocks[..], start, bytes)
      ensures candidate <= POOL_BYTES && candidate % ALIGNMENT == 0 && NoneBelow(blocks[..], candidate, bytes)
      ensures if moved then candidate > start else candidate == start && Place(blocks[..], candidate, bytes)
    {
      candidate, moved := start, false;
      for k := 0 to MAX_BLOCKS
        invariant candidate <= POOL_BYTES && candidate % ALIGNMENT == 0 && NoneBelow(blocks[..], candidate, bytes)
        invariant if moved then candidate > start
                  else candidate == start && forall i :: 0 <= i < k ==> !Overlaps(blocks[..][i], start, bytes)
      {
        var block := blocks[k];
        assert block == blocks[..][k];
        if block.bytes != 0 && candidate < block.offset + block.bytes && block.offset < candidate + bytes {
          PushedPast(blocks[..], k, candidate, bytes);
          candidate := block.offset + block.bytes;
          moved := true;
        }
      }
    }

    /** AuxPoolAlloc. */
    method Alloc(requested: nat) returns (got: Option<Block>)
      requires Valid()
      modifies blocks
      ensures Valid()
      ensures Allocates(old(blocks[..]), present, requested, got, blocks[..])
    {
      if !present || requested == 0 || requested > POOL_BYTES - (ALIGNMENT - 1) {
        return None;
      }
      var bytes := RoundUp(requested);
      var offset := FindOffset(bytes);
      if offset == None {
        return None;
      }
      for k := 0 to MAX_BLOCKS
        invariant forall i :: 0 <= i < k ==> Live(blocks[i])
        invariant blocks[..] == old(blocks[..])
      {
        if blocks[k].bytes == 0 {
          SoundWith(blocks[..], k, Block(offset.value, bytes));
          blocks[k] := Block(offset.value, bytes);
          assert blocks[..] == old(blocks[..])[k := Block(offset.value, bytes)];
          return Some(Block(offset.value, bytes));
        }
      }
      got := None;
    }

    /** AuxPoolFree: the entry with exactly this offset and size becomes free. */
    method Free(block: Block)
      requires Valid() && Live(block)
      modifies blocks
      ensures Valid()
      ensures blocks[..] == Without(old(blocks[..]), block)
    {
      for k := 0 to MAX_BLOCKS
        invariant blocks[..] == old(blocks[..])
        invariant forall i :: 0 <= i < k ==> blocks[..][i] != block
      {
        if blocks[k].bytes == block.bytes && blocks[k].offset == block.offset {
          OneCopy(blocks[..], k);
          blocks[k] := EMPTY;
          assert blocks[..] == Without(old(blocks[..]), block);
          return;
        }
      }
    }
  }

  /** A new block in a free entry keeps the table sound. */
  lemma SoundWith(blocks: seq<Block>, k: nat, block: Block)
    requires Sound(blocks) && k < |blocks| && Place(blocks, block.offset, block.bytes)
    requires block.offset % ALIGNMENT == 0 && block.bytes % ALIGNMENT == 0 && Live(block)
    ensures Sound(blocks[k := block])
  {
    forall i | 0 <= i < |blocks| && i != k && Live(blocks[i]) ensures Apart(blocks[i], block) {
      assert !Overlaps(blocks[i], block.offset, block.bytes);
    }
  }

  lemma RoundedUp(requested: nat)
    ensures RoundUp(requested) % ALIGNMENT == 0 && requested <= RoundUp(requested)
  {
  }

  /** What the allocator answered, put into a free entry. */
  lemma AllocatedSound(blocks: seq<Block>, requested: nat, block: Block, k: nat)
    requires Sound(blocks) && k < |blocks| && requested > 0 && block.bytes == RoundUp(requested)
    requires Place(blocks, block.offset, block.bytes) && block.offset % ALIGNMENT == 0
    ensures Sound(blocks[k := block])
  {
    RoundedUp(requested);
    SoundWith(blocks, k, block);
  }

  /** A live block occurs once in a sound table. */
  lemma OneCopy(blocks: seq<Block>, k: nat)
    requires Sound(blocks) && k < |blocks| && Live(blocks[k])
    ensures forall i :: 0 <= i < |blocks| && i != k ==> blocks[i] != blocks[k]
  {
    forall i | 0 <= i < |blocks| && i != k ensures blocks[i] != blocks[k] {
      if Live(blocks[i]) {
        assert Apart(blocks[if i < k then i else k], blocks[if i < k then k else i]);
      }
    }
  }
}
