/**
 Copying pixels one at a time in place, as the 2D engine does, compared with copying
 from a snapshot.  A walk is the list of cells read and the list of cells written;
 how it came about does not matter here.
 */
module Raster {
  type Pixel = bv32

  datatype Walk = Walk(from: seq<nat>, to: seq<nat>)
  {
    predicate Fits(size: nat) {
      |from| == |to| && forall k :: 0 <= k < |from| ==> from[k] < size && to[k] < size
    }

    /** No cell is written twice. */
    predicate Distinct() {
      forall j, k :: 0 <= j < k < |to| ==> to[j] != to[k]
    }

    /** No cell is read after it was written. */
    predicate HazardFree()
      requires |from| == |to|
    {
      forall j, k :: 0 <= j < k < |to| ==> to[j] != from[k]
    }
  }

  /** The engine mixes source and destination by the raster operation and the write mask. */
  type Mix = (Pixel, Pixel) -> Pixel

  /** The pixels after the first `count` steps of the walk. */
  function After(w: Walk, mix: Mix, pixels: seq<Pixel>, count: nat): (after: seq<Pixel>)
    requires w.Fits(|pixels|) && count <= |w.to|
    ensures |after| == |pixels|
  {
    if count == 0 then pixels
    else
      var before := After(w, mix, pixels, count - 1);
      var from, to := w.from[count - 1], w.to[count - 1];
      before[to := mix(before[from], before[to])]
  }

  lemma Stepped(w: Walk, mix: Mix, pixels: seq<Pixel>, n: nat, from: nat, to: nat)
    requires w.Fits(|pixels|) && n < |w.to| && w.from[n] == from && w.to[n] == to
    ensures var before := After(w, mix, pixels, n);
      After(w, mix, pixels, n + 1) == before[to := mix(before[from], before[to])]
  {
  }

  predicate Untouched(w: Walk, cell: nat, count: nat)
    requires count <= |w.to|
  {
    forall k :: 0 <= k < count ==> w.to[k] != cell
  }

  /** What copying from a snapshot means: every written cell mixes old values, every other cell is kept. */
  predicate SnapshotCopy(w: Walk, mix: Mix, old_: seq<Pixel>, new_: seq<Pixel>, count: nat)
    requires w.Fits(|old_|) && count <= |w.to| && |new_| == |old_|
  {
    && (forall k :: 0 <= k < count ==> new_[w.to[k]] == mix(old_[w.from[k]], old_[w.to[k]]))
    && (forall cell :: 0 <= cell < |old_| && Untouched(w, cell, count) ==> new_[cell] == old_[cell])
  }

  /** One step that reads and writes cells nothing has touched. */
  lemma FreshStep(w: Walk, mix: Mix, pixels: seq<Pixel>, before: seq<Pixel>, n: nat)
    requires w.Fits(|pixels|) && w.Distinct() && n < |w.to| && |before| == |pixels|
    requires SnapshotCopy(w, mix, pixels, before, n) && Untouched(w, w.from[n], n) && Untouched(w, w.to[n], n)
    ensures SnapshotCopy(w, mix, pixels, before[w.to[n] := mix(before[w.from[n]], before[w.to[n]])], n + 1)
  {
    var after := before[w.to[n] := mix(before[w.from[n]], before[w.to[n]])];
    assert before[w.from[n]] == pixels[w.from[n]] && before[w.to[n]] == pixels[w.to[n]];
    forall cell | 0 <= cell < |pixels| && Untouched(w, cell, n + 1) ensures after[cell] == pixels[cell] {
      assert Untouched(w, cell, n) && w.to[n] != cell;
    }
  }

  lemma {:induction false} HazardFreeCopies(w: Walk, mix: Mix, pixels: seq<Pixel>, count: nat)
    requires w.Fits(|pixels|) && w.Distinct() && w.HazardFree() && count <= |w.to|
    ensures SnapshotCopy(w, mix, pixels, After(w, mix, pixels, count), count)
  {
    if count > 0 {
      var n := count - 1;
      HazardFreeCopies(w, mix, pixels, n);
      assert Untouched(w, w.to[n], n) && Untouched(w, w.from[n], n);
      FreshStep(w, mix, pixels, After(w, mix, pixels, n), n);
    }
  }

  // ------------------------------------------------------------ the converse

  function Plain(): Mix { (source: Pixel, destination: Pixel) => source }

  /** Memory with a single marked cell. */
  function Marked(size: nat, mark: nat): (pixels: seq<Pixel>)
    ensures |pixels| == size
  {
    seq(size, i => if i == mark then 1 else 0)
  }

  /** With a constant displacement the mark only ever travels one way. */
  predicate MarkMovedOn(w: Walk, pixels: seq<Pixel>, mark: nat, forward: bool, count: nat)
    requires count <= |w.to|
  {
    forall cell: nat :: cell < |pixels| && pixels[cell] == 1 ==>
      && (if forward then cell >= mark else cell <= mark)
      && (cell == mark ==> Untouched(w, cell, count))
  }

  lemma {:induction false} MarkMoves(w: Walk, size: nat, mark: nat, shift: int, count: nat)
    requires w.Fits(size) && count <= |w.to| && shift != 0
    requires forall k :: 0 <= k < |w.to| ==> w.to[k] == w.from[k] + shift
    ensures MarkMovedOn(w, After(w, Plain(), Marked(size, mark), count), mark, shift > 0, count)
  {
    if count > 0 {
      var n := count - 1;
      MarkMoves(w, size, mark, shift, n);
      var before := After(w, Plain(), Marked(size, mark), n);
      var after := After(w, Plain(), Marked(size, mark), count);
      assert after == before[w.to[n] := before[w.from[n]]];
      forall cell: nat | cell < size && after[cell] == 1
        ensures (if shift > 0 then cell >= mark else cell <= mark) && (cell == mark ==> Untouched(w, cell, count))
      {
        if cell == w.to[n] { assert before[w.from[n]] == 1; } else { assert before[cell] == 1; }
      }
    }
  }

  lemma {:induction false} KeptAfter(w: Walk, mix: Mix, pixels: seq<Pixel>, k: nat, count: nat)
    requires w.Fits(|pixels|) && w.Distinct() && k < count <= |w.to|
    ensures After(w, mix, pixels, count)[w.to[k]] == After(w, mix, pixels, k + 1)[w.to[k]]
    decreases count
  {
    if count > k + 1 { KeptAfter(w, mix, pixels, k, count - 1); }
  }

  /**
   The exact condition for walks with one displacement: the engine copies like a
   snapshot, whatever the pixels, if and only if nothing is read after it is written.
   */
  lemma CopiesExactly(w: Walk, size: nat, shift: int)
    requires w.Fits(size) && w.Distinct()
    requires forall k :: 0 <= k < |w.to| ==> w.to[k] == w.from[k] + shift
    ensures w.HazardFree() <==>
      forall mix: Mix, pixels: seq<Pixel> :: |pixels| == size ==>
        SnapshotCopy(w, mix, pixels, After(w, mix, pixels, |w.to|), |w.to|)
  {
    if w.HazardFree() {
      forall mix: Mix, pixels: seq<Pixel> | |pixels| == size
        ensures SnapshotCopy(w, mix, pixels, After(w, mix, pixels, |w.to|), |w.to|)
      {
        HazardFreeCopies(w, mix, pixels, |w.to|);
      }
    } else {
      var j, k :| 0 <= j < k < |w.to| && w.to[j] == w.from[k];
      HazardShows(w, size, shift, j, k);
    }
  }

  lemma HazardShows(w: Walk, size: nat, shift: int, j: nat, k: nat)
    requires w.Fits(size) && w.Distinct()
    requires forall k :: 0 <= k < |w.to| ==> w.to[k] == w.from[k] + shift
    requires j < k < |w.to| && w.to[j] == w.from[k]
    ensures !SnapshotCopy(w, Plain(), Marked(size, w.from[k]),
                          After(w, Plain(), Marked(size, w.from[k]), |w.to|), |w.to|)
  {
    var mark := w.from[k];
    assert shift != 0;
    MarkMoves(w, size, mark, shift, k);
    assert !Untouched(w, mark, k);
    KeptAfter(w, Plain(), Marked(size, mark), k, |w.to|);
  }
}
