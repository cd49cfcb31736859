/**
 The cache of 2D state registers (EngineState in src/radeon_accel.c).  A write is left
 out when the cache says the register already holds the value; the cache is dropped
 when the engine comes back from the command processor, which the driver knows by
 AccelPending alone.
 */
module EngineState {
  import opened Words
  import Board

  const COUNT: nat := 11
  const MASTER: nat := 0
  const WRITE_MASK: nat := 1
  const DP_CNTL: nat := 2
  const DST_PITCH_OFFSET: nat := 3
  const SRC_PITCH_OFFSET: nat := 4
  const BRUSH_FG: nat := 5
  const BRUSH_BG: nat := 6
  const SRC_FG: nat := 7
  const SRC_BG: nat := 8
  const SC_TOP_LEFT: nat := 9
  const SC_BOTTOM_RIGHT: nat := 10

  const ALL_ONES: u32 := 0xffff_ffff
  const FORWARD: u32 := 3
  const SCISSOR_MAX: u32 := 0x1fff_1fff
  const SWAP_NONE: u32 := 0

  type File = f: seq<u32> | |f| == COUNT witness seq(COUNT, i => 0)

  datatype Setting = Setting(index: nat, value: u32)

  predicate Known(list: seq<Setting>) { forall k :: 0 <= k < |list| ==> list[k].index < COUNT }

  /** What writing every register of a list does. */
  function WriteAll(file: File, list: seq<Setting>): File
    requires Known(list)
  {
    if |list| == 0 then file
    else WriteAll(file, list[..|list| - 1])[list[|list| - 1].index := list[|list| - 1].value]
  }

  /** Writing what is there changes nothing. */
  lemma {:induction false} WriteNothing(file: File, list: seq<Setting>)
    requires Known(list) && forall k :: 0 <= k < |list| ==> file[list[k].index] == list[k].value
    ensures WriteAll(file, list) == file
  {
    if |list| > 0 {
      var last := list[|list| - 1];
      WriteNothing(file, list[..|list| - 1]);
      assert file[last.index := last.value] == file;
    }
  }

  /** Each register once: then every one holds its own value, and no other register changes. */
  predicate EachOnce(list: seq<Setting>) {
    forall j, k :: 0 <= j < k < |list| ==> list[j].index != list[k].index
  }

  lemma {:induction false} WritesLand(file: File, list: seq<Setting>)
    requires Known(list) && EachOnce(list)
    ensures forall k :: 0 <= k < |list| ==> WriteAll(file, list)[list[k].index] == list[k].value
    ensures forall i :: 0 <= i < COUNT && (forall k :: 0 <= k < |list| ==> list[k].index != i) ==>
      WriteAll(file, list)[i] == file[i]
  {
    if |list| > 0 {
      var rest := list[..|list| - 1];
      WritesLand(file, rest);
      forall i | 0 <= i < COUNT && (forall k :: 0 <= k < |list| ==> list[k].index != i)
        ensures WriteAll(file, list)[i] == file[i]
      {
        forall k | 0 <= k < |rest| ensures rest[k].index != i {
          assert list[k].index != i;
        }
        assert list[|list| - 1].index != i;
      }
    }
  }

  /** One card: the cached registers, host data swapping, and the hand-over fields of its board data. */
  datatype Card = Card(file: File, hostSwap: u32, accel: Board.AccelState, pending: Board.Pending,
                       need2DRestore: bool, recoveryTried: bool)
  {
    /** The registers are the driver's: nothing queued may be changing them and the engine works. */
    predicate Owned() { accel in {Board.Ready, Board.Fallback} && !need2DRestore }
  }

  /** What the hardware answers to one preparation or recovery. */
  datatype Answers = Answers(drains: bool, resets: bool, rearms: bool, file: File, hostSwap: u32)

  // ------------------------------------------------------------ the drawing paths

  function SolidRect(master: u32, pen: u32, writeMask: u32, pitchOffset: u32): seq<Setting> {
    [Setting(MASTER, master), Setting(BRUSH_FG, pen), Setting(WRITE_MASK, writeMask), Setting(DP_CNTL, FORWARD),
     Setting(DST_PITCH_OFFSET, pitchOffset)]
  }

  function Pattern(master: u32, writeMask: u32, fg: u32, bg: u32, pitchOffset: u32): seq<Setting> {
    [Setting(MASTER, master), Setting(WRITE_MASK, writeMask), Setting(BRUSH_FG, fg), Setting(BRUSH_BG, bg),
     Setting(DP_CNTL, FORWARD), Setting(DST_PITCH_OFFSET, pitchOffset)]
  }

  function Copy(master: u32, writeMask: u32, direction: u32, source: u32, destination: u32): seq<Setting> {
    [Setting(MASTER, master), Setting(WRITE_MASK, writeMask), Setting(DP_CNTL, direction),
     Setting(SRC_PITCH_OFFSET, source), Setting(DST_PITCH_OFFSET, destination)]
  }

  function Line(master: u32, pitchOffset: u32, writeMask: u32, pen: u32): seq<Setting> {
    [Setting(MASTER, master), Setting(DST_PITCH_OFFSET, pitchOffset), Setting(WRITE_MASK, writeMask),
     Setting(BRUSH_FG, pen), Setting(DP_CNTL, FORWARD), Setting(SC_TOP_LEFT, 0), Setting(SC_BOTTOM_RIGHT, SCISSOR_MAX)]
  }

  /** SubmitTemplate and SubmitPlanarPass. */
  function HostTemplate(master: u32, writeMask: u32, fg: u32, bg: u32, pitchOffset: u32, topLeft: u32,
                        bottomRight: u32): seq<Setting>
  {
    [Setting(MASTER, master), Setting(WRITE_MASK, writeMask), Setting(SRC_FG, fg), Setting(SRC_BG, bg),
     Setting(DP_CNTL, FORWARD), Setting(DST_PITCH_OFFSET, pitchOffset), Setting(SC_TOP_LEFT, topLeft),
     Setting(SC_BOTTOM_RIGHT, bottomRight)]
  }

  /** What RestoreEngineState leaves in the cached registers. */
  const BASELINE: seq<Setting> := [
    Setting(SC_TOP_LEFT, 0), Setting(SC_BOTTOM_RIGHT, SCISSOR_MAX), Setting(BRUSH_FG, ALL_ONES), Setting(BRUSH_BG, 0),
    Setting(SRC_FG, ALL_ONES), Setting(SRC_BG, 0), Setting(WRITE_MASK, ALL_ONES), Setting(DP_CNTL, FORWARD)]

  // ------------------------------------------------------------ what they leave, register by register

  /** Only these registers may differ. */
  predicate Kept(was: File, file: File, touched: set<nat>) {
    forall i :: 0 <= i < COUNT && i !in touched ==> file[i] == was[i]
  }

  /** The 2D baseline: everything open, white on black, drawing forward; master and surfaces as they were. */
  predicate Baseline(was: File, file: File) {
    && file[SC_TOP_LEFT] == 0 && file[SC_BOTTOM_RIGHT] == 0x1fff_1fff
    && file[BRUSH_FG] == file[SRC_FG] == 0xffff_ffff && file[BRUSH_BG] == file[SRC_BG] == 0
    && file[WRITE_MASK] == 0xffff_ffff && file[DP_CNTL] == 3
    && Kept(was, file, {SC_TOP_LEFT, SC_BOTTOM_RIGHT, BRUSH_FG, BRUSH_BG, SRC_FG, SRC_BG, WRITE_MASK, DP_CNTL})
  }

  predicate FilledBy(was: File, file: File, master: u32, pen: u32, writeMask: u32, pitchOffset: u32) {
    && file[MASTER] == master && file[BRUSH_FG] == pen && file[WRITE_MASK] == writeMask
    && file[DP_CNTL] == 3 && file[DST_PITCH_OFFSET] == pitchOffset
    && Kept(was, file, {MASTER, BRUSH_FG, WRITE_MASK, DP_CNTL, DST_PITCH_OFFSET})
  }

  predicate PatternedBy(was: File, file: File, master: u32, writeMask: u32, fg: u32, bg: u32, pitchOffset: u32) {
    && file[MASTER] == master && file[WRITE_MASK] == writeMask && file[BRUSH_FG] == fg && file[BRUSH_BG] == bg
    && file[DP_CNTL] == 3 && file[DST_PITCH_OFFSET] == pitchOffset
    && Kept(was, file, {MASTER, WRITE_MASK, BRUSH_FG, BRUSH_BG, DP_CNTL, DST_PITCH_OFFSET})
  }

  predicate CopiedBy(was: File, file: File, master: u32, writeMask: u32, direction: u32, source: u32,
                     destination: u32)
  {
    && file[MASTER] == master && file[WRITE_MASK] == writeMask && file[DP_CNTL] == direction
    && file[SRC_PITCH_OFFSET] == source && file[DST_PITCH_OFFSET] == destination
    && Kept(was, file, {MASTER, WRITE_MASK, DP_CNTL, SRC_PITCH_OFFSET, DST_PITCH_OFFSET})
  }

  predicate LinedBy(was: File, file: File, master: u32, pitchOffset: u32, writeMask: u32, pen: u32) {
    && file[MASTER] == master && file[DST_PITCH_OFFSET] == pitchOffset && file[WRITE_MASK] == writeMask
    && file[BRUSH_FG] == pen && file[DP_CNTL] == 3
    && file[SC_TOP_LEFT] == 0 && file[SC_BOTTOM_RIGHT] == 0x1fff_1fff
    && Kept(was, file, {MASTER, DST_PITCH_OFFSET, WRITE_MASK, BRUSH_FG, DP_CNTL, SC_TOP_LEFT, SC_BOTTOM_RIGHT})
  }

  predicate ExpandedBy(was: File, file: File, master: u32, writeMask: u32, fg: u32, bg: u32, pitchOffset: u32,
                       topLeft: u32, bottomRight: u32)
  {
    && file[MASTER] == master && file[WRITE_MASK] == writeMask && file[SRC_FG] == fg && file[SRC_BG] == bg
    && file[DP_CNTL] == 3 && file[DST_PITCH_OFFSET] == pitchOffset
    && file[SC_TOP_LEFT] == topLeft && file[SC_BOTTOM_RIGHT] == bottomRight
    && Kept(was, file, {MASTER, WRITE_MASK, SRC_FG, SRC_BG, DP_CNTL, DST_PITCH_OFFSET, SC_TOP_LEFT, SC_BOTTOM_RIGHT})
  }

  lemma Landed(was: File, list: seq<Setting>, touched: set<nat>)
    requires Known(list) && EachOnce(list)
    requires forall k :: 0 <= k < |list| ==> list[k].index in touched
    ensures Kept(was, WriteAll(was, list), touched)
    ensures forall k :: 0 <= k < |list| ==> WriteAll(was, list)[list[k].index] == list[k].value
  {
    WritesLand(was, list);
    forall i | 0 <= i < COUNT && i !in touched ensures WriteAll(was, list)[i] == was[i] {
      forall k | 0 <= k < |list| ensures list[k].index != i {
        assert list[k].index in touched;
      }
    }
  }

  lemma BaselineLands(was: File)
    ensures Baseline(was, WriteAll(was, BASELINE))
  {
    Landed(was, BASELINE, {SC_TOP_LEFT, SC_BOTTOM_RIGHT, BRUSH_FG, BRUSH_BG, SRC_FG, SRC_BG, WRITE_MASK, DP_CNTL});
    AtEach(WriteAll(was, BASELINE), BASELINE);
  }

  /** The registers of a list, written out. */
  lemma AtEach(file: File, list: seq<Setting>)
    requires Known(list) && forall k :: 0 <= k < |list| ==> file[list[k].index] == list[k].value
    ensures |list| > 0 ==> file[list[0].index] == list[0].value
    ensures |list| > 1 ==> file[list[1].index] == list[1].value
    ensures |list| > 2 ==> file[list[2].index] == list[2].value
    ensures |list| > 3 ==> file[list[3].index] == list[3].value
    ensures |list| > 4 ==> file[list[4].index] == list[4].value
    ensures |list| > 5 ==> file[list[5].index] == list[5].value
    ensures |list| > 6 ==> file[list[6].index] == list[6].value
    ensures |list| > 7 ==> file[list[7].index] == list[7].value
  {
  }

  lemma SolidRectLands(was: File, master: u32, pen: u32, writeMask: u32, pitchOffset: u32)
    ensures FilledBy(was, WriteAll(was, SolidRect(master, pen, writeMask, pitchOffset)),
                     master, pen, writeMask, pitchOffset)
  {
    var list := SolidRect(master, pen, writeMask, pitchOffset);
    Landed(was, list, {MASTER, BRUSH_FG, WRITE_MASK, DP_CNTL, DST_PITCH_OFFSET});
    AtEach(WriteAll(was, list), list);
  }

  lemma PatternLands(was: File, master: u32, writeMask: u32, fg: u32, bg: u32, pitchOffset: u32)
    ensures PatternedBy(was, WriteAll(was, Pattern(master, writeMask, fg, bg, pitchOffset)),
                        master, writeMask, fg, bg, pitchOffset)
  {
    var list := Pattern(master, writeMask, fg, bg, pitchOffset);
    Landed(was, list, {MASTER, WRITE_MASK, BRUSH_FG, BRUSH_BG, DP_CNTL, DST_PITCH_OFFSET});
    AtEach(WriteAll(was, list), list);
  }

  lemma CopyLands(was: File, master: u32, writeMask: u32, direction: u32, source: u32, destination: u32)
    ensures CopiedBy(was, WriteAll(was, Copy(master, writeMask, direction, source, destination)),
                     master, writeMask, direction, source, destination)
  {
    var list := Copy(master, writeMask, direction, source, destination);
    Landed(was, list, {MASTER, WRITE_MASK, DP_CNTL, SRC_PITCH_OFFSET, DST_PITCH_OFFSET});
    AtEach(WriteAll(was, list), list);
  }

  lemma LineLands(was: File, master: u32, pitchOffset: u32, writeMask: u32, pen: u32)
    ensures LinedBy(was, WriteAll(was, Line(master, pitchOffset, writeMask, pen)),
                    master, pitchOffset, writeMask, pen)
  {
    var list := Line(master, pitchOffset, writeMask, pen);
    Landed(was, list, {MASTER, DST_PITCH_OFFSET, WRITE_MASK, BRUSH_FG, DP_CNTL, SC_TOP_LEFT, SC_BOTTOM_RIGHT});
    AtEach(WriteAll(was, list), list);
  }

  lemma TemplateLands(was: File, master: u32, writeMask: u32, fg: u32, bg: u32, pitchOffset: u32, topLeft: u32,
                      bottomRight: u32)
    ensures ExpandedBy(was,
      WriteAll(was, HostTemplate(master, writeMask, fg, bg, pitchOffset, topLeft, bottomRight)),
      master, writeMask, fg, bg, pitchOffset, topLeft, bottomRight)
  {
    var list := HostTemplate(master, writeMask, fg, bg, pitchOffset, topLeft, bottomRight);
    Landed(was, list,
           {MASTER, WRITE_MASK, SRC_FG, SRC_BG, DP_CNTL, DST_PITCH_OFFSET, SC_TOP_LEFT, SC_BOTTOM_RIGHT});
    AtEach(WriteAll(was, list), list);
  }

  // ------------------------------------------------------------ elision

  datatype Cache = Cache(board: Option<nat>, valid: set<nat>, values: File, hostTemplateReady: bool)

  predicate Knows(k: Cache, i: nat) { i < COUNT && i in k.valid }

  /** Every valid value is the register's. */
  ghost predicate Exact(k: Cache, file: File) { forall i: nat :: Knows(k, i) ==> k.values[i] == file[i] }

  /** What the cache says about a card is so. */
  ghost predicate Truthful(k: Cache, b: nat, card: Card) {
    k.board == Some(b) ==> Exact(k, card.file) && (k.hostTemplateReady ==> card.hostSwap == SWAP_NONE)
  }

  predicate Hit(k: Cache, setting: Setting) {
    Knows(k, setting.index) && k.values[setting.index] == setting.value
  }

  /** SetEngineState: a hit writes nothing. */
  function Elide(k: Cache, file: File, setting: Setting): (Cache, File)
    requires setting.index < COUNT
  {
    if Hit(k, setting) then (k, file)
    else (k.(valid := k.valid + {setting.index}, values := k.values[setting.index := setting.value]),
          file[setting.index := setting.value])
  }

  function ElideAll(k: Cache, file: File, list: seq<Setting>): (Cache, File)
    requires Known(list)
  {
    if |list| == 0 then (k, file)
    else
      var (k1, file1) := ElideAll(k, file, list[..|list| - 1]);
      Elide(k1, file1, list[|list| - 1])
  }

  /** With an exact cache the elided writes do what unconditional writes do, and the cache stays exact. */
  lemma {:induction false} ElidedWrites(k: Cache, file: File, list: seq<Setting>)
    requires Known(list) && Exact(k, file)
    ensures var (k1, file1) := ElideAll(k, file, list);
      && file1 == WriteAll(file, list) && Exact(k1, file1)
      && k1.board == k.board && k1.hostTemplateReady == k.hostTemplateReady
  {
    if |list| > 0 {
      var rest, last := list[..|list| - 1], list[|list| - 1];
      ElidedWrites(k, file, rest);
      var (k1, file1) := ElideAll(k, file, rest);
      if Hit(k1, last) { assert file1[last.index := last.value] == file1; }
    }
  }

  /** Only then: the cache refines unconditional writes, for every list, if and only if it is exact. */
  lemma ElisionExactly(k: Cache, file: File)
    ensures (forall list :: Known(list) ==> ElideAll(k, file, list).1 == WriteAll(file, list)) <==> Exact(k, file)
  {
    if Exact(k, file) {
      forall list | Known(list) ensures ElideAll(k, file, list).1 == WriteAll(file, list) {
        ElidedWrites(k, file, list);
      }
    } else {
      var i: nat :| Knows(k, i) && k.values[i] != file[i];
      Missed(k, file, i);
    }
  }

  lemma Missed(k: Cache, file: File, i: nat)
    requires Knows(k, i) && k.values[i] != file[i]
    ensures var list := [Setting(i, k.values[i])]; Known(list) && ElideAll(k, file, list).1 != WriteAll(file, list)
  {
    var list := [Setting(i, k.values[i])];
    assert list[..|list| - 1] == [];
    assert ElideAll(k, file, list) == Elide(k, file, list[0]);
    assert WriteAll(file, list) == WriteAll(file, [])[i := k.values[i]];
    assert WriteAll(file, list)[i] == k.values[i];
  }

  /** The all-at-once shortcut: where everything hits, the chain would have written nothing. */
  lemma {:induction false} AllHit(k: Cache, file: File, list: seq<Setting>)
    requires Known(list) && forall j :: 0 <= j < |list| ==> Hit(k, list[j])
    ensures ElideAll(k, file, list) == (k, file)
  {
    if |list| > 0 { AllHit(k, file, list[..|list| - 1]); }
  }

  // ------------------------------------------------------------ the hand-over

  /** What every hardware operation marks at its end, whether or not it drew. */
  function Drawn(card: Card): Card { card.(pending := Board.Mmio) }

  /** The end of a successful drain. */
  function Drained(card: Card): Card { card.(pending := Board.Nothing, need2DRestore := false) }

  /** Queued work may put anything into any register. */
  function Worked(card: Card, file: File, hostSwap: u32): Card { card.(file := file, hostSwap := hostSwap) }

  /** A cache that says nothing about the card. */
  ghost predicate Silent(k: Cache, b: nat) {
    k.board != Some(b) || (!k.hostTemplateReady && forall i: nat :: !Knows(k, i))
  }

  /** Any file but this one. */
  lemma OtherFile(file: File, i: nat) returns (other: File)
    requires i < COUNT
    ensures other[i] != file[i]
  {
    other := file[i := if file[i] == 0 then 1 else 0];
  }

  /**
   A planar blit with no plane selected marks drawing pending, and the next preparation
   waits for drawing only.  The cache is then right about whatever queued work has left
   in the registers if and only if no restore was due, or it knows nothing of this card.
   */
  lemma EmptyBlitSurvives(k: Cache, b: nat, card: Card)
    requires card.accel == Board.Ready && (card.need2DRestore || Truthful(k, b, card))
    ensures (forall file: File, hostSwap: u32 ::
              (card.need2DRestore || (file == card.file && hostSwap == card.hostSwap)) ==>
                Truthful(k, b, Drained(Drawn(Worked(card, file, hostSwap)))))
       <==> !card.need2DRestore || Silent(k, b)
  {
    if card.need2DRestore && !Silent(k, b) {
      var file, hostSwap := card.file, SWAP_NONE + 1;
      if i: nat :| Knows(k, i) { file := OtherFile(k.values, i); }
      assert !Truthful(k, b, Drained(Drawn(Worked(card, file, hostSwap))));
    }
  }

  // ------------------------------------------------------------ the cache

  class Engine {
    var cards: map<nat, Card>
    var board: Option<nat>
    var valid: set<nat>
    var values: File
    var hostTemplateReady: bool

    function Cached(): Cache
      reads this
    {
      Cache(board, valid, values, hostTemplateReady)
    }

    /** While a card's 2D state is the driver's, what the cache says of it is so. */
    ghost predicate Coherent()
      reads this
    {
      forall b :: b in cards && cards[b].Owned() ==> Truthful(Cached(), b, cards[b])
    }

    /** Pending on the queue is the same as a restore being due. */
    ghost predicate Agreed()
      reads this
    {
      forall b :: b in cards ==> (cards[b].pending == Board.Queue <==> cards[b].need2DRestore)
    }

    ghost predicate Valid()
      reads this
    {
      Coherent() && Agreed()
    }

    /** Only this card has changed. */
    twostate predicate Only(b: nat)
      reads this
    {
      cards.Keys == old(cards.Keys) && b in cards && forall o :: o in cards && o != b ==> cards[o] == old(cards[o])
    }

    constructor ()
      ensures Valid() && cards == map[]
    {
      cards, board, valid, hostTemplateReady := map[], None, {}, false;
      values := seq(COUNT, i => 0);
    }

    /** InvalidateEngineState. */
    method Invalidate()
      modifies `board, `valid, `hostTemplateReady
      ensures board == None && valid == {} && !hostTemplateReady
    {
      board, valid, hostTemplateReady := None, {}, false;
    }

    /** BeginEnginePath: at most drops what the cache knows. */
    method Begin(b: nat, hostTemplate: bool)
      modifies `board, `valid, `hostTemplateReady
      ensures board == Some(b)
      ensures !hostTemplate ==> !hostTemplateReady
      ensures old(board) == Some(b) ==>
        valid == old(valid) && (hostTemplate ==> hostTemplateReady == old(hostTemplateReady))
      ensures old(board) != Some(b) ==> valid == {} && !hostTemplateReady
    {
      if board != Some(b) {
        Invalidate();
        board := Some(b);
      }
      if !hostTemplate {
        hostTemplateReady := false;
      }
    }

    /** SetEngineState. */
    method Set(b: nat, setting: Setting)
      requires b in cards && setting.index < COUNT
      modifies `cards, `valid, `values
      ensures b in cards && (Cached(), cards[b].file) == Elide(old(Cached()), old(cards[b].file), setting)
      ensures cards == old(cards)[b := old(cards[b]).(file := cards[b].file)]
      ensures old(Exact(Cached(), cards[b].file)) ==>
        Exact(Cached(), cards[b].file) && cards[b].file == old(cards[b].file)[setting.index := setting.value]
      ensures Hit(Cached(), setting)
    {
      if setting.index in valid && values[setting.index] == setting.value {
        assert cards[b].file == cards[b].file[setting.index := values[setting.index]] ||
               cards[b].file[setting.index] != values[setting.index];
        assert cards[b].(file := cards[b].file) == cards[b];
        assert cards[b := cards[b]] == cards;
        return;
      }
      cards := cards[b := cards[b].(file := cards[b].file[setting.index := setting.value])];
      values := values[setting.index := setting.value];
      valid := valid + {setting.index};
    }

    /** A chain of SetEngineState calls; with an exact cache, the same as writing every register. */
    method SetAll(b: nat, list: seq<Setting>)
      requires b in cards && Known(list)
      modifies `cards, `valid, `values
      ensures b in cards && (Cached(), cards[b].file) == ElideAll(old(Cached()), old(cards[b].file), list)
      ensures cards == old(cards)[b := old(cards[b]).(file := cards[b].file)]
      ensures old(Exact(Cached(), cards[b].file)) ==>
        Exact(Cached(), cards[b].file) && cards[b].file == WriteAll(old(cards[b].file), list)
    {
      ghost var k, start := Cached(), cards;
      assert start[b := start[b].(file := start[b].file)] == start;
      for n := 0 to |list|
        invariant b in cards && (Cached(), cards[b].file) == ElideAll(k, start[b].file, list[..n])
        invariant cards == start[b := start[b].(file := cards[b].file)]
      {
        assert list[..n + 1][..n] == list[..n];
        Set(b, list[n]);
      }
      assert list[..|list|] == list;
      if Exact(k, start[b].file) { ElidedWrites(k, start[b].file, list); }
    }

    /** The all-at-once shortcut: one comparison of everything instead of one per register. */
    method SetAllUnlessReady(b: nat, list: seq<Setting>)
      requires b in cards && Known(list)
      modifies `cards, `valid, `values
      ensures b in cards && (Cached(), cards[b].file) == ElideAll(old(Cached()), old(cards[b].file), list)
      ensures cards == old(cards)[b := old(cards[b]).(file := cards[b].file)]
      ensures old(Exact(Cached(), cards[b].file)) ==>
        Exact(Cached(), cards[b].file) && cards[b].file == WriteAll(old(cards[b].file), list)
    {
      var stateReady := true;
      for n := 0 to |list|
        invariant stateReady ==> forall j :: 0 <= j < n ==> Hit(Cached(), list[j])
      {
        stateReady := stateReady && list[n].index in valid && values[list[n].index] == list[n].value;
      }
      if stateReady {
        AllHit(Cached(), cards[b].file, list);
        assert cards[b := cards[b].(file := cards[b].file)] == cards;
        if Exact(Cached(), cards[b].file) { ElidedWrites(Cached(), cards[b].file, list); }
      } else {
        SetAll(b, list);
      }
    }

    // ---------------------------------------------------------- hand-over

    /** RestoreEngineState: the cache starts afresh from what is written here. */
    method Restore(b: nat)
      requires b in cards
      modifies this
      ensures b in cards && cards == old(cards)[b := old(cards[b]).(file := WriteAll(old(cards[b].file), BASELINE))]
      ensures Baseline(old(cards[b].file), cards[b].file)
      ensures board == Some(b) && !hostTemplateReady && Exact(Cached(), cards[b].file)
    {
      BaselineLands(cards[b].file);
      Invalidate();
      Begin(b, false);
      SetAll(b, BASELINE);
    }

    /** Attaching: reset and restore, or no hardware 2D at all. */
    method Attach(b: nat, o: Answers)
      modifies this
      ensures old(Valid()) ==> Valid()
      ensures b in cards && cards.Keys == old(cards.Keys) + {b} &&
        cards[b].accel == (if o.resets then Board.Ready else Board.Off)
      ensures cards[b].pending == Board.Nothing && !cards[b].need2DRestore && !cards[b].recoveryTried
      ensures o.resets ==> board == Some(b) && Baseline(o.file, cards[b].file)
    {
      Invalidate();
      cards := cards[b := Card(o.file, o.hostSwap, Board.Off, Board.Nothing, false, false)];
      if o.resets {
        Restore(b);
        cards := cards[b := cards[b].(accel := Board.Ready)];
      }
    }

    /** RecoverEngine: where it succeeds it also mends a cache that was wrong. */
    method Recover(b: nat, o: Answers) returns (ok: bool)
      requires b in cards
      modifies this
      ensures Only(b) && (old(Valid()) ==> Valid())
      ensures ok == (!old(cards[b].recoveryTried) && o.resets)
      ensures ok ==> cards[b].accel == (if o.rearms then Board.Ready else Board.Fallback)
      ensures ok ==> cards[b].recoveryTried == !o.rearms
      ensures ok ==> board == Some(b) && Coherent() && cards[b].Owned() && cards[b].pending == Board.Nothing
                     && cards[b].file == WriteAll(o.file, BASELINE) && Baseline(o.file, cards[b].file)
      ensures !ok ==> if old(cards[b].recoveryTried) then cards == old(cards) && Cached() == old(Cached())
                      else cards[b].accel == Board.Unsafe &&
                           cards[b].pending == Board.Nothing && !cards[b].need2DRestore
    {
      if cards[b].recoveryTried {
        return false;
      }
      cards := cards[b := Card(o.file, o.hostSwap, cards[b].accel, Board.Nothing, false, true)];
      if !o.resets {
        cards := cards[b := cards[b].(accel := Board.Unsafe)];
        return false;
      }
      Restore(b);
      cards := cards[b :=
        cards[b].(accel := if o.rearms then Board.Ready else Board.Fallback, recoveryTried := !o.rearms)];
      ok := true;
    }

    /**
     SynchronizeEngine.  Only the branch that waits for the queue restores the baseline
     and drops the cache; the one that waits for drawing clears the restore all the same.
     */
    method Synchronize(b: nat, o: Answers) returns (ok: bool)
      requires b in cards
      modifies this
      ensures Only(b) && (old(Valid()) ==> Valid())
      ensures old(cards[b].pending) == Board.Nothing ==>
        cards == old(cards) && Cached() == old(Cached()) && ok == (cards[b].accel != Board.Unsafe)
      ensures old(cards[b].pending) != Board.Nothing ==> ok == (o.drains || (!old(cards[b].recoveryTried) && o.resets))
      ensures ok && old(cards[b].pending) != Board.Nothing ==>
        cards[b].pending == Board.Nothing && !cards[b].need2DRestore
      ensures ok && old(cards[b].pending) == Board.Queue ==>
        board == Some(b) && Coherent() &&
          cards[b].file == WriteAll(if o.drains then old(cards[b].file) else o.file, BASELINE) &&
          Baseline(if o.drains then old(cards[b].file) else o.file, cards[b].file)
      ensures old(cards[b].pending) == Board.Mmio && o.drains ==>
        Cached() == old(Cached()) && cards == old(cards)[b := Drained(old(cards[b]))]
      ensures ok && old(cards[b].accel) in {Board.Ready, Board.Fallback} ==>
        cards[b].accel in {Board.Ready, Board.Fallback}
    {
      if cards[b].pending == Board.Nothing {
        return cards[b].accel != Board.Unsafe;
      }
      if cards[b].pending == Board.Queue && o.drains {
        Restore(b);
        cards := cards[b := Drained(cards[b])];
        return true;
      }
      if cards[b].pending == Board.Mmio && o.drains {
        cards := cards[b := Drained(cards[b])];
        return true;
      }
      ok := Recover(b, o);
    }

    /** RadeonPrepare3D and RadeonMark3DSubmitted around a submission. */
    method Submit3D(b: nat, o: Answers) returns (ok: bool)
      requires b in cards
      modifies this
      ensures Only(b) && (old(Valid()) ==> Valid())
      ensures ok ==> cards[b].pending == Board.Queue && cards[b].need2DRestore
      ensures ok == (match old(cards[b].pending)
        case Nothing => old(cards[b].accel) != Board.Unsafe
        case Queue => old(cards[b].accel) == Board.Ready || o.drains || (!old(cards[b].recoveryTried) && o.resets)
        case Mmio => o.drains || (!old(cards[b].recoveryTried) && o.resets))
      ensures old(cards[b].pending) == Board.Mmio && o.drains ==>
        ok && Cached() == old(Cached()) &&
          cards == old(cards)[b := Drained(old(cards[b])).(need2DRestore := true, pending := Board.Queue)]
    {
      ok := true;
      if cards[b].accel != Board.Ready || cards[b].pending != Board.Queue {
        ok := Synchronize(b, o);
      }
      if ok {
        cards := cards[b := cards[b].(need2DRestore := true, pending := Board.Queue)];
      }
    }

    /** Queued work runs, but only while the driver knows of it. */
    method ProcessorWorks(b: nat, file: File, hostSwap: u32)
      requires b in cards && cards[b].need2DRestore
      modifies `cards
      ensures cards == old(cards)[b := Worked(old(cards[b]), file, hostSwap)] && (old(Valid()) ==> Valid())
    {
      cards := cards[b := Worked(cards[b], file, hostSwap)];
    }

    /** PrepareMmioEngine for a card that is not leased. */
    method Prepare(b: nat, o: Answers) returns (ok: bool)
      requires b in cards
      modifies this
      ensures Only(b) && (old(Valid()) ==> Valid())
      ensures old(Valid()) ==> ok == Prepares(old(cards[b]), o)
      ensures old(Valid()) && ok ==> cards[b].Owned() && cards[b].file == Prepared(old(cards[b]), o)
      ensures o.drains && old(cards[b].accel == Board.Ready && cards[b].need2DRestore && cards[b].pending == Board.Mmio)
        ==>
        ok && Cached() == old(Cached()) && cards == old(cards)[b := Drained(old(cards[b]))]
    {
      if cards[b].accel != Board.Ready {
        return false;
      }
      if !cards[b].need2DRestore {
        return true;
      }
      ok := Synchronize(b, o);
    }

    /** The end of a hardware operation: pending, or recovery. */
    method Finish(b: nat, submitted: bool, o: Answers)
      requires b in cards
      modifies this
      ensures Only(b) && (old(Valid()) && (submitted ==> old(cards[b].Owned())) ==> Valid())
      ensures submitted ==> Cached() == old(Cached()) && cards == old(cards)[b := Drawn(old(cards[b]))]
      ensures !submitted && !old(cards[b].recoveryTried) ==>
        cards[b].pending == Board.Nothing && !cards[b].need2DRestore &&
          (if o.resets then Baseline(o.file, cards[b].file) else cards[b].accel == Board.Unsafe)
    {
      if submitted {
        cards := cards[b := Drawn(cards[b])];
      } else {
        var recovered := Recover(b, o);
      }
    }

    /**
     RadeonBlitPlanar2Chunky with a mask that selects no plane: nothing is prepared,
     and the pending state is overwritten.  The invariant survives exactly when 2D is
     not on the hardware or no restore is due.
     */
    method EmptyPlanarBlit(b: nat, o: Answers)
      requires b in cards
      modifies this
      ensures Only(b)
      ensures old(Valid()) ==> (Valid() <==> old(cards[b].accel) != Board.Ready || !old(cards[b].need2DRestore))
      ensures old(cards[b].accel) == Board.Ready ==>
        Cached() == old(Cached()) && cards == old(cards)[b := Drawn(old(cards[b]))]
    {
      if cards[b].accel != Board.Ready {
        var ok := Synchronize(b, o);
      } else {
        cards := cards[b := Drawn(cards[b])];
      }
    }

    // ---------------------------------------------------------- drawing

    /** SubmitSolidRect, SubmitPattern and SubmitStagedTemplate: one call per register. */
    method SubmitPlain(b: nat, list: seq<Setting>, o: Answers) returns (ok: bool)
      requires b in cards && Known(list)
      modifies this
      ensures Only(b)
      ensures ok ==> !hostTemplateReady
      ensures old(Valid()) ==> Valid() && ok == Prepares(old(cards[b]), o)
      ensures old(Valid()) && ok ==> cards[b].Owned() && cards[b].file == WriteAll(Prepared(old(cards[b]), o), list)
    {
      ok := Prepare(b, o);
      if ok {
        Begin(b, false);
        SetAll(b, list);
      }
    }

    /** SubmitCopy, SubmitLine and SubmitSolidAxisRect, with their shortcut and their wait for the FIFO. */
    method SubmitShortcut(b: nat, list: seq<Setting>, fifoReady: bool, o: Answers) returns (ok: bool)
      requires b in cards && Known(list)
      modifies this
      ensures Only(b)
      ensures ok ==> !hostTemplateReady
      ensures old(Valid()) ==> Valid() && ok == (Prepares(old(cards[b]), o) && fifoReady)
      ensures old(Valid()) && ok ==> cards[b].Owned() && cards[b].file == WriteAll(Prepared(old(cards[b]), o), list)
    {
      ok := Prepare(b, o);
      if ok {
        Begin(b, false);
        if !fifoReady {
          return false;
        }
        SetAllUnlessReady(b, list);
      }
    }

    /** SubmitTemplate and SubmitPlanarPass: the host data path is not set up again if it still is. */
    method SubmitHostTemplate(b: nat, list: seq<Setting>, fifoReady: bool, o: Answers) returns (ok: bool)
      requires b in cards && Known(list)
      modifies this
      ensures Only(b)
      ensures old(Valid()) ==> Valid() && ok == (Prepares(old(cards[b]), o) && fifoReady)
      ensures old(Valid()) && ok ==>
        && cards[b].Owned() && cards[b].hostSwap == SWAP_NONE
        && cards[b].file == WriteAll(Prepared(old(cards[b]), o), list)
    {
      ok := Prepare(b, o);
      if !ok {
        return;
      }
      Begin(b, true);
      ok := SendHostTemplate(b, list, fifoReady);
    }

    /** Host data and state registers, once the FIFO has room. */
    method SendHostTemplate(b: nat, list: seq<Setting>, fifoReady: bool) returns (ok: bool)
      requires b in cards && board == Some(b) && Known(list)
      modifies this
      ensures Only(b) && ok == fifoReady
      ensures old(Valid() && cards[b].Owned()) ==> Valid() && cards[b].Owned()
      ensures old(Valid() && cards[b].Owned()) && ok ==>
        cards[b].hostSwap == SWAP_NONE && cards[b].file == WriteAll(old(cards[b].file), list)
    {
      var ready := hostTemplateReady;
      hostTemplateReady := false;
      if !fifoReady {
        return false;
      }
      if !ready {
        cards := cards[b := cards[b].(hostSwap := SWAP_NONE)];
      }
      SetAll(b, list);
      hostTemplateReady := true;
      ok := true;
    }

    method SubmitSolidRect(b: nat, master: u32, pen: u32, writeMask: u32, pitchOffset: u32, o: Answers)
        returns (ok: bool)
      requires b in cards
      modifies this
      ensures Only(b)
      ensures ok ==> !hostTemplateReady
      ensures old(Valid()) ==> Valid() && ok == Prepares(old(cards[b]), o)
      ensures old(Valid()) && ok ==>
        cards[b].Owned() &&
          FilledBy(Prepared(old(cards[b]), o), cards[b].file, master, pen, writeMask, pitchOffset)
    {
      SolidRectLands(Prepared(cards[b], o), master, pen, writeMask, pitchOffset);
      ok := SubmitPlain(b, SolidRect(master, pen, writeMask, pitchOffset), o);
    }

    method SubmitPattern(b: nat, master: u32, writeMask: u32, fg: u32, bg: u32, pitchOffset: u32, o: Answers)
      returns (ok: bool)
      requires b in cards
      modifies this
      ensures Only(b)
      ensures ok ==> !hostTemplateReady
      ensures old(Valid()) ==> Valid() && ok == Prepares(old(cards[b]), o)
      ensures old(Valid()) && ok ==>
        cards[b].Owned() &&
          PatternedBy(Prepared(old(cards[b]), o), cards[b].file, master, writeMask, fg, bg, pitchOffset)
    {
      PatternLands(Prepared(cards[b], o), master, writeMask, fg, bg, pitchOffset);
      ok := SubmitPlain(b, Pattern(master, writeMask, fg, bg, pitchOffset), o);
    }

    method SubmitCopy(b: nat, master: u32, writeMask: u32, direction: u32, source: u32, destination: u32,
                      fifoReady: bool, o: Answers) returns (ok: bool)
      requires b in cards
      modifies this
      ensures Only(b)
      ensures ok ==> !hostTemplateReady
      ensures old(Valid()) ==> Valid() && ok == (Prepares(old(cards[b]), o) && fifoReady)
      ensures old(Valid()) && ok ==>
        cards[b].Owned() &&
          CopiedBy(Prepared(old(cards[b]), o), cards[b].file, master, writeMask, direction, source, destination)
    {
      CopyLands(Prepared(cards[b], o), master, writeMask, direction, source, destination);
      ok := SubmitShortcut(b, Copy(master, writeMask, direction, source, destination), fifoReady, o);
    }

    /** SubmitLine and SubmitSolidAxisRect differ only in what they draw. */
    method SubmitLine(b: nat, master: u32, pitchOffset: u32, writeMask: u32, pen: u32, fifoReady: bool, o: Answers)
      returns (ok: bool)
      requires b in cards
      modifies this
      ensures Only(b)
      ensures ok ==> !hostTemplateReady
      ensures old(Valid()) ==> Valid() && ok == (Prepares(old(cards[b]), o) && fifoReady)
      ensures old(Valid()) && ok ==>
        cards[b].Owned() &&
          LinedBy(Prepared(old(cards[b]), o), cards[b].file, master, pitchOffset, writeMask, pen)
    {
      LineLands(Prepared(cards[b], o), master, pitchOffset, writeMask, pen);
      ok := SubmitShortcut(b, Line(master, pitchOffset, writeMask, pen), fifoReady, o);
    }

    method SubmitTemplate(b: nat, master: u32, writeMask: u32, fg: u32, bg: u32, pitchOffset: u32, topLeft: u32,
                          bottomRight: u32, fifoReady: bool, o: Answers) returns (ok: bool)
      requires b in cards
      modifies this
      ensures Only(b)
      ensures old(Valid()) ==> Valid() && ok == (Prepares(old(cards[b]), o) && fifoReady)
      ensures old(Valid()) && ok ==>
        && cards[b].Owned() && cards[b].hostSwap == SWAP_NONE
        && ExpandedBy(Prepared(old(cards[b]), o), cards[b].file, master, writeMask, fg, bg, pitchOffset,
                      topLeft, bottomRight)
    {
      TemplateLands(Prepared(cards[b], o), master, writeMask, fg, bg, pitchOffset, topLeft, bottomRight);
      ok := SubmitHostTemplate(b, HostTemplate(master, writeMask, fg, bg, pitchOffset, topLeft, bottomRight),
        fifoReady, o);
    }
  }

  /** A card that has been drawn on once, with the master register in the cache. */
  method DrawnOnce(o: Answers) returns (e: Engine)
    requires o.resets
    ensures fresh(e) && 0 in e.cards && e.cards[0].accel == Board.Ready && e.cards[0].pending == Board.Mmio
    ensures Knows(e.Cached(), MASTER) && e.values[MASTER] == 1
  {
    e := new Engine();
    e.Attach(0, o);
    e.Begin(0, false);
    e.Set(0, Setting(MASTER, 1));
    e.Finish(0, true, o);
  }

  /**
   The run that goes stale: draw, submit 3D work that changes a register, blit with no
   plane selected, prepare to draw again.  A write of the cached value is now left out.
   */
  method EmptyBlitGoesStale() returns (e: Engine)
    ensures fresh(e) && 0 in e.cards && e.cards[0].Owned() && Knows(e.Cached(), MASTER)
    ensures e.values[MASTER] != e.cards[0].file[MASTER]
    ensures exists list ::
      Known(list) && ElideAll(e.Cached(), e.cards[0].file, list).1 != WriteAll(e.cards[0].file, list)
  {
    var zero: File := seq(COUNT, i => 0);
    var o := Answers(true, true, true, zero, SWAP_NONE);
    e := DrawnOnce(o);
    var submitted := e.Submit3D(0, o);
    e.ProcessorWorks(0, zero, SWAP_NONE);
    e.EmptyPlanarBlit(0, o);
    var prepared := e.Prepare(0, o);
    Missed(e.Cached(), e.cards[0].file, MASTER);
  }

  /** Preparing succeeds on a ready engine that needs no restore, drains, or recovers. */
  predicate Prepares(card: Card, o: Answers) {
    card.accel == Board.Ready && (!card.need2DRestore || o.drains || (!card.recoveryTried && o.resets))
  }

  /** The cached registers a drawing path starts from. */
  function Prepared(card: Card, o: Answers): (file: File)
    ensures if !card.need2DRestore then file == card.file
            else Baseline(if o.drains then card.file else o.file, file)
  {
    BaselineLands(if o.drains then card.file else o.file);
    if !card.need2DRestore then card.file else WriteAll(if o.drains then card.file else o.file, BASELINE)
  }
}
