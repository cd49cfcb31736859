/**
 Pixel clocks (src/radeon_mode.c): choosing PLL divisors, and the ladder of clocks
 that Picasso96 is offered.
 */
module Pll {
  import opened Words

  const DVI_MAX_HZ: nat := 165_000_000
  const VGA_MAX_HZ: nat := 230_000_000
  const DVI_LADDER_MAX_HZ: nat := 164_750_000
  const STEP_HZ: nat := 250_000
  const FEEDBACK_MASK: nat := 0x7ff

  /** Post divisors in the order they are tried, and their register codes. */
  const DIVISORS: seq<nat> := [16, 12, 8, 6, 4, 3, 2, 1]
  const CODES: seq<nat> := [5, 7, 3, 6, 2, 4, 1, 0]

  type u16 = x: int | 0 <= x < 0x1_0000

  datatype Config = Config(minPllKHz: u32, maxPllKHz: u32, refClockKHz: u32, refDivider: u16, dviActive: bool)

  /** The fields CalculatePll stores in the mode. */
  datatype Setting = Setting(numerator: nat, denominator: nat, pixelClock: u32)

  /** Everything a successful calculation has decided. */
  datatype Choice = Choice(index: nat, feedback: nat, actualHz: u32)

  // ------------------------------------------------------------ choosing divisors

  function TargetKHz(requested: u32): u32 { Wrap(requested + 500) / 1000 }

  function Divisor(k: nat): (d: nat)
    requires k < |DIVISORS|
    ensures 1 <= d <= 16
  {
    DIVISORS[k]
  }

  function Product(a: nat, b: nat): (p: nat)
    ensures p == a * b && (a > 0 && b > 0 ==> p > 0)
  {
    Positive(a, b);
    a * b
  }

  lemma Positive(a: nat, b: nat)
    ensures 0 <= a * b && (a > 0 && b > 0 ==> a * b > 0)
  {
    if a > 0 && b > 0 { assert a * b == (a - 1) * b + b; }
  }

  /** The post divider the card takes from a register code. */
  function PostDivider(code: nat): (d: nat)
    requires code < 8
    ensures 1 <= d <= 16
  {
    match code
    case 0 => 1
    case 1 => 2
    case 2 => 4
    case 3 => 8
    case 4 => 3
    case 5 => 16
    case 6 => 6
    case _ => 12
  }

  /** The table runs from the largest of the card's dividers to the smallest, each with its own code. */
  lemma TableOfDividers()
    ensures |CODES| == |DIVISORS| == 8
    ensures forall k :: 0 <= k < 8 ==> CODES[k] < 8 && PostDivider(CODES[k]) == DIVISORS[k]
    ensures forall j, k :: 0 <= j < k < 8 ==> DIVISORS[j] > DIVISORS[k]
  {
  }

  /** And there is no other code. */
  lemma EveryCode(code: nat) returns (k: nat)
    requires code < 8
    ensures k < 8 && CODES[k] == code
  {
    k := [7, 6, 4, 2, 5, 0, 3, 1][code];
  }

  /** With this divider the oscillator would run within its limits. */
  predicate InRange(c: Config, targetKHz: u32, d: nat) {
    c.minPllKHz <= Product(targetKHz, d) <= c.maxPllKHz
  }

  /** The largest divider the card has that does that. */
  predicate Largest(c: Config, targetKHz: u32, d: nat) {
    InRange(c, targetKHz, d) &&
    forall code {:trigger PostDivider(code)} :: 0 <= code < 8 && PostDivider(code) > d ==>
      !InRange(c, targetKHz, PostDivider(code))
  }

  predicate Feasible(c: Config, targetKHz: u32, k: nat)
    requires k < |DIVISORS|
  {
    targetKHz <= (TWO32 - 1) / Divisor(k) && c.minPllKHz <= Product(targetKHz, Divisor(k)) <= c.maxPllKHz
  }

  /** The first divisor of the table that puts the oscillator in range, or the length of the table. */
  function FirstFeasible(c: Config, targetKHz: u32, from: nat): (k: nat)
    requires from <= |DIVISORS|
    ensures from <= k <= |DIVISORS| && (k < |DIVISORS| ==> Feasible(c, targetKHz, k))
    ensures forall i :: from <= i < k ==> !Feasible(c, targetKHz, i)
    decreases |DIVISORS| - from
  {
    if from == |DIVISORS| || Feasible(c, targetKHz, from) then from else FirstFeasible(c, targetKHz, from + 1)
  }

  /** A quotient rounded to the nearest integer. */
  function Rounded(a: nat, b: nat): nat
    requires b > 0
  {
    QuotientNonNegative(a + b / 2, b);
    (a + b / 2) / b
  }

  lemma QuotientNonNegative(a: nat, b: nat)
    requires b > 0
    ensures a / b >= 0
  {
  }

  /** The feedback divider before and the output frequency before they are cut to 32 bits. */
  function Feedback(c: Config, requested: u32, d: nat): nat
    requires c.refClockKHz > 0
  {
    Rounded(Product(c.refDivider, Product(TargetKHz(requested), d)), c.refClockKHz)
  }

  function Frequency(c: Config, d: nat, feedback: nat): nat
    requires d > 0 && c.refDivider > 0
  {
    Rounded(Product(c.refClockKHz * 1000, feedback), Product(c.refDivider, d))
  }

  /** CalculatePll up to what it stores. */
  function Choose(c: Config, requested: u32, nearest: bool): Option<Choice> {
    if requested == 0 || c.refClockKHz == 0 || c.refDivider < 2 || (c.dviActive && requested > DVI_MAX_HZ) then None
    else
      var k := FirstFeasible(c, TargetKHz(requested), 0);
      if k == |DIVISORS| then None
      else
        var feedback := Wrap(Feedback(c, requested, Divisor(k)));
        if feedback == 0 || feedback > FEEDBACK_MASK then None else Finish(c, requested, nearest, k, feedback)
  }

  function Difference(a: u32, b: u32): u32 { if a > b then a - b else b - a }

  function Finish(c: Config, requested: u32, nearest: bool, k: nat, feedback: nat): Option<Choice>
    requires k < |DIVISORS| && c.refDivider > 0
  {
    var actualHz := Wrap(Frequency(c, Divisor(k), feedback));
    if (!nearest && Difference(actualHz, requested) * 200 > requested) || (c.dviActive && actualHz > DVI_MAX_HZ)
    then None
    else Some(Choice(k, feedback, actualHz))
  }

  /** The packing into the two bytes of the mode. */
  function Pack(choice: Choice): Setting
    requires choice.index < |DIVISORS| && choice.feedback <= FEEDBACK_MASK
  {
    Setting(choice.feedback % 256, choice.feedback / 256 % 8 + CODES[choice.index] * 8, choice.actualHz)
  }

  /** The loop over the table. */
  method FindDivisor(c: Config, targetKHz: u32) returns (index: nat)
    ensures index == FirstFeasible(c, targetKHz, 0)
  {
    index := 0;
    while index < |DIVISORS|
      invariant index <= |DIVISORS|
      invariant FirstFeasible(c, targetKHz, 0) == FirstFeasible(c, targetKHz, index)
    {
      if targetKHz <= (TWO32 - 1) / Divisor(index) {
        var vco := Product(targetKHz, Divisor(index));
        if vco >= c.minPllKHz && vco <= c.maxPllKHz {
          return;
        }
      }
      index := index + 1;
    }
  }

  // ------------------------------------------------------------ decoding

  /** DecodePll: feedback, code, and whether the feedback is usable. */
  function Decode(s: Setting): (nat, nat, bool) {
    var feedback := s.numerator + s.denominator % 8 * 256;
    (feedback, s.denominator / 8 % 8, feedback != 0 && feedback <= FEEDBACK_MASK)
  }

  /** The high bits of the feedback and the code share a byte without mixing. */
  lemma Fields(high: nat, code: nat)
    requires high < 8 && code < 8
    ensures (high + code * 8) % 8 == high && (high + code * 8) / 8 % 8 == code && high + code * 8 < 256
  {
  }

  /** What was packed is decoded. */
  lemma DecodesExactly(choice: Choice)
    requires choice.index < |DIVISORS| && 0 < choice.feedback <= FEEDBACK_MASK
    ensures Decode(Pack(choice)) == (choice.feedback, CODES[choice.index], true)
    ensures Pack(choice).numerator < 256 && Pack(choice).denominator < 256
  {
    Fields(choice.feedback / 256 % 8, CODES[choice.index]);
  }

  // ------------------------------------------------------------ accuracy

  /** Rounding is off by at most half a divisor. */
  lemma RoundedClose(a: nat, b: nat)
    requires b > 0
    ensures -(b as int) <= 2 * (Rounded(a, b) * b - a) <= b
  {
    var n := a + b / 2;
    assert n == n / b * b + n % b;
  }

  /** No quotient of the calculation is cut to 32 bits. */
  predicate Untruncated(c: Config, requested: u32, d: nat, feedback: nat)
    requires d > 0 && c.refClockKHz > 0 && c.refDivider > 0
  {
    requested + 500 < TWO32 && Feedback(c, requested, d) < TWO32 && Frequency(c, d, feedback) < TWO32
  }

  /** What is rounded to a feedback and from there to a frequency comes out near the request. */
  lemma Accuracy(c: Config, requested: u32, d: nat, feedback: nat, actualHz: u32)
    requires d > 0 && c.refClockKHz > 0 && c.refDivider > 0 && Untruncated(c, requested, d, feedback)
    requires feedback == Wrap(Feedback(c, requested, d)) && actualHz == Wrap(Frequency(c, d, feedback))
    ensures Near(c, requested, d, actualHz)
  {
    Whole(Feedback(c, requested, d));
    Whole(Frequency(c, d, feedback));
    Target(requested);
    ErrorBound(c.refClockKHz, c.refDivider, d, TargetKHz(requested), requested, feedback, actualHz,
               Product(c.refDivider, d));
  }

  /**
   |actual - requested| <= 500 * RefClockKHz / (RefDivider * divisor) + 500.5 Hz,
   both sides multiplied by 2 * RefDivider * divisor.
   */
  predicate Near(c: Config, requested: u32, d: nat, actualHz: u32) {
    var unit := Product(c.refDivider, d);
    2 * Product(unit, Difference(actualHz, requested)) <= 1000 * c.refClockKHz + 1001 * unit
  }

  lemma Whole(x: nat)
    requires x < TWO32
    ensures Wrap(x) == x
  {
  }

  lemma ErrorBound(ref: nat, refDivider: nat, divisor: nat, target: nat, requested: u32, feedback: nat, actual: u32,
                   unit: nat)
    requires ref > 0 && unit > 0 && unit == Product(refDivider, divisor)
    requires -500 <= 1000 * target - requested <= 500
    requires feedback == Rounded(Product(refDivider, Product(target, divisor)), ref)
    requires actual == Rounded(Product(ref * 1000, feedback), unit)
    ensures 2 * (unit * Difference(actual, requested)) <= 1000 * ref + 1001 * unit
  {
    RoundedClose(Product(refDivider, Product(target, divisor)), ref);
    RoundedClose(Product(ref * 1000, feedback), unit);
    Reordered(refDivider, target, divisor, unit);
    Thousand(ref, feedback);
    Combine(unit, ref, actual, target, requested, actual * unit, feedback * ref, target * unit);
  }

  lemma Target(requested: u32)
    requires requested + 500 < TWO32
    ensures -500 <= 1000 * TargetKHz(requested) - requested <= 500
  {
  }

  lemma Reordered(refDivider: nat, target: nat, divisor: nat, unit: nat)
    requires unit == refDivider * divisor
    ensures Product(refDivider, Product(target, divisor)) == target * unit
  {
  }

  lemma Thousand(ref: nat, feedback: nat)
    ensures Product(ref * 1000, feedback) == 1000 * (feedback * ref)
  {
  }

  lemma Scaled(unit: nat, x: int, bound: nat)
    requires -(bound as int) <= x <= bound
    ensures -(unit * bound) <= unit * x <= unit * bound
  {
    assert unit * (bound - x) >= 0 && unit * (bound + x) >= 0;
  }

  lemma Combine(unit: nat, ref: nat, actual: u32, target: nat, requested: u32, au: int, fr: int, tu: int)
    requires au == actual * unit && tu == target * unit
    requires -(ref as int) <= 2 * (fr - tu) <= ref
    requires -(unit as int) <= 2 * (au - 1000 * fr) <= unit
    requires -500 <= 1000 * target - requested <= 500
    ensures 2 * (unit * Difference(actual, requested)) <= 1000 * ref + 1001 * unit
  {
    Scaled(unit, 1000 * target - requested, 500);
    var ru := unit * requested;
    assert unit * (1000 * target - requested) == 1000 * tu - ru;
    assert unit * Difference(actual, requested) == if actual > requested then au - ru else ru - au;
  }

  /** The divisor is the first of the table that puts the oscillator in range; limits hold for what is returned. */
  lemma ChosenIsFirst(c: Config, requested: u32, nearest: bool)
    requires Choose(c, requested, nearest).Some?
    ensures var choice := Choose(c, requested, nearest).value;
      && choice.index < |DIVISORS| && Feasible(c, TargetKHz(requested), choice.index)
      && (forall i :: 0 <= i < choice.index ==> !Feasible(c, TargetKHz(requested), i))
      && 0 < choice.feedback <= FEEDBACK_MASK
      && (!nearest ==> Difference(choice.actualHz, requested) * 200 <= requested)
      && (c.dviActive ==> choice.actualHz <= DVI_MAX_HZ)
  {
  }

  /**
   What the two bytes of a setting make the card do, and the clock stored with them: the
   post divider decoded from them is the largest that keeps the oscillator in range, the
   feedback is the quotient rounded to the nearest integer and not cut by its field, and
   the clock is what both yield, within the limits asked for.
   */
  ghost predicate Meets(c: Config, requested: u32, nearest: bool, s: Setting) {
    var (feedback, code, usable) := Decode(s);
    && 0 < requested && c.refClockKHz > 0 && c.refDivider >= 2 && (c.dviActive ==> requested <= DVI_MAX_HZ)
    && usable && s.numerator < 256 && s.denominator < 64
    && Largest(c, TargetKHz(requested), PostDivider(code))
    && feedback == Wrap(Feedback(c, requested, PostDivider(code)))
    && s.pixelClock == Wrap(Frequency(c, PostDivider(code), feedback))
    && (!nearest ==> Difference(s.pixelClock, requested) * 200 <= requested)
    && (c.dviActive ==> s.pixelClock <= DVI_MAX_HZ)
  }

  /** The clock is near the request, by the divider that the card really uses, unless a quotient was cut. */
  lemma MeetsNear(c: Config, requested: u32, nearest: bool, s: Setting)
    requires Meets(c, requested, nearest, s)
    ensures var (feedback, code, _) := Decode(s);
      Untruncated(c, requested, PostDivider(code), feedback) ==>
        Near(c, requested, PostDivider(code), s.pixelClock)
  {
    var (feedback, code, _) := Decode(s);
    if Untruncated(c, requested, PostDivider(code), feedback) {
      Accuracy(c, requested, PostDivider(code), feedback, s.pixelClock);
    }
  }

  lemma QuotientBounds(x: nat, d: nat, top: nat)
    requires d > 0
    ensures x <= top / d <==> x * d <= top
  {
    var q, r := top / d, top % d;
    assert top == q * d + r;
    if x <= q {
      assert (q - x) * d >= 0;
    } else {
      assert (x - q - 1) * d >= 0;
    }
  }

  /** The overflow check in front of the multiplication never decides anything. */
  lemma FeasibleInRange(c: Config, targetKHz: u32, k: nat)
    requires k < |DIVISORS|
    ensures Feasible(c, targetKHz, k) <==> InRange(c, targetKHz, Divisor(k))
  {
    QuotientBounds(targetKHz, Divisor(k), TWO32 - 1);
  }

  /** The first feasible entry of the table is the largest divider that fits. */
  lemma FirstIsLargest(c: Config, targetKHz: u32, k: nat)
    requires k < |DIVISORS|
    ensures FirstFeasible(c, targetKHz, 0) == k <==> Largest(c, targetKHz, Divisor(k))
  {
    TableOfDividers();
    var first := FirstFeasible(c, targetKHz, 0);
    forall i | 0 <= i < |DIVISORS| ensures Feasible(c, targetKHz, i) <==> InRange(c, targetKHz, DIVISORS[i]) {
      FeasibleInRange(c, targetKHz, i);
    }
    if first == k {
      forall code {:trigger PostDivider(code)} | 0 <= code < 8 && PostDivider(code) > Divisor(k)
        ensures !InRange(c, targetKHz, PostDivider(code))
      {
        var i := EveryCode(code);
      }
    } else if first < k {
      assert PostDivider(CODES[first]) > Divisor(k) && InRange(c, targetKHz, PostDivider(CODES[first]));
    }
  }

  lemma ChoiceMeets(c: Config, requested: u32, nearest: bool)
    requires Choose(c, requested, nearest).Some?
    ensures var choice := Choose(c, requested, nearest).value;
      choice.index < |DIVISORS| && choice.feedback <= FEEDBACK_MASK && Meets(c, requested, nearest, Pack(choice))
  {
    ChosenIsFirst(c, requested, nearest);
    var choice := Choose(c, requested, nearest).value;
    TableOfDividers();
    FirstIsLargest(c, TargetKHz(requested), choice.index);
    DecodesExactly(choice);
  }

  /** Where some setting would do, one is chosen. */
  lemma MeetsChosen(c: Config, requested: u32, nearest: bool, s: Setting)
    requires Meets(c, requested, nearest, s)
    ensures Choose(c, requested, nearest).Some?
  {
    TableOfDividers();
    var (feedback, code, _) := Decode(s);
    var k := EveryCode(code);
    FirstIsLargest(c, TargetKHz(requested), k);
    WorthFinishing(c, requested, nearest, k, feedback, s.pixelClock);
  }

  lemma WorthFinishing(c: Config, requested: u32, nearest: bool, k: nat, feedback: nat, actualHz: u32)
    requires 0 < requested && c.refClockKHz > 0 && c.refDivider >= 2 && (c.dviActive ==> requested <= DVI_MAX_HZ)
    requires k < |DIVISORS| && FirstFeasible(c, TargetKHz(requested), 0) == k
    requires 0 < feedback <= FEEDBACK_MASK && feedback == Wrap(Feedback(c, requested, Divisor(k)))
    requires actualHz == Wrap(Frequency(c, Divisor(k), feedback))
    requires !nearest ==> Difference(actualHz, requested) * 200 <= requested
    requires c.dviActive ==> actualHz <= DVI_MAX_HZ
    ensures Choose(c, requested, nearest) == Some(Choice(k, feedback, actualHz))
  {
  }

  /** CalculatePll. */
  method CalculatePll(c: Config, requested: u32, nearest: bool) returns (setting: Option<Setting>)
    ensures setting.Some? ==> Meets(c, requested, nearest, setting.value)
    ensures setting.None? ==> forall s :: !Meets(c, requested, nearest, s)
    ensures setting.Some? <==> Choose(c, requested, nearest).Some?
    ensures Choose(c, requested, nearest).Some? ==>
      Choose(c, requested, nearest).value.index < |DIVISORS| &&
        Choose(c, requested, nearest).value.feedback <= FEEDBACK_MASK
      && setting == Some(Pack(Choose(c, requested, nearest).value))
  {
    if Choose(c, requested, nearest).Some? {
      ChoiceMeets(c, requested, nearest);
    } else {
      forall s ensures !Meets(c, requested, nearest, s) {
        if Meets(c, requested, nearest, s) { MeetsChosen(c, requested, nearest, s); }
      }
    }
    if requested == 0 || c.refClockKHz == 0 || c.refDivider < 2 || (c.dviActive && requested > DVI_MAX_HZ) {
      return None;
    }
    var index := FindDivisor(c, TargetKHz(requested));
    if index == |DIVISORS| {
      return None;
    }
    var feedback := Wrap(Feedback(c, requested, Divisor(index)));
    if feedback == 0 || feedback > FEEDBACK_MASK {
      return None;
    }
    var finished := Finish(c, requested, nearest, index, feedback);
    setting := match finished case None => None case Some(choice) => Some(Pack(choice));
  }

  /** The oscillator for 65 MHz is in range from the fourth divisor on. */
  lemma FourthDivisor(c: Config)
    requires c.minPllKHz == 200_000 && c.maxPllKHz == 400_000
    ensures FirstFeasible(c, 65_000, 0) == 3
  {
    assert Product(65_000, 16) == 1_040_000 && Product(65_000, 12) == 780_000;
    assert Product(65_000, 8) == 520_000 && Product(65_000, 6) == 390_000;
    assert !Feasible(c, 65_000, 0) && !Feasible(c, 65_000, 1) && !Feasible(c, 65_000, 2) && Feasible(c, 65_000, 3);
  }

  lemma SampleQuotients(c: Config)
    requires c.refClockKHz == 27_000 && c.refDivider == 12
    ensures TargetKHz(65_000_000) == 65_000
    ensures Feedback(c, 65_000_000, 6) == 173 && Frequency(c, 6, 173) == 64_875_000
  {
    assert Product(65_000, 6) == 390_000 && Product(12, 390_000) == 4_680_000;
    assert Product(27_000_000, 173) == 4_671_000_000 && Product(12, 6) == 72;
  }

  /** A 65 MHz request on a card with a 27 MHz reference: 64.875 MHz, nothing truncated. */
  lemma SixtyFiveMegahertz(c: Config)
    requires c == Config(200_000, 400_000, 27_000, 12, false)
    ensures Choose(c, 65_000_000, false) == Some(Choice(3, 173, 64_875_000))
    ensures Pack(Choice(3, 173, 64_875_000)) == Setting(173, 48, 64_875_000)
    ensures Untruncated(c, 65_000_000, 6, 173)
  {
    FourthDivisor(c);
    SampleQuotients(c);
    Whole(Feedback(c, 65_000_000, 6));
    Whole(Frequency(c, 6, 173));
  }

  // ------------------------------------------------------------ the clock ladder

  function ClockMinimum(c: Config): u32 {
    var minimum := if c.minPllKHz != 0 then Wrap(Wrap(c.minPllKHz * 1000) + 15) / 16 else 12_000_000;
    (minimum + STEP_HZ - 1) / STEP_HZ * STEP_HZ
  }

  function ClockMaximum(c: Config): u32 {
    var maximum := if c.maxPllKHz != 0 && Wrap(c.maxPllKHz * 1000) < VGA_MAX_HZ then Wrap(c.maxPllKHz * 1000)
      else VGA_MAX_HZ;
    if c.dviActive && maximum > DVI_LADDER_MAX_HZ then DVI_LADDER_MAX_HZ else maximum
  }

  /**
   The ladder begins at the first whole step that the largest divider can reach from the
   slowest oscillator, and ends at the tightest of the limits that apply.
   */
  lemma LadderEnds(c: Config)
    ensures ClockMinimum(c) % STEP_HZ == 0
    ensures c.minPllKHz == 0 ==> ClockMinimum(c) == 12_000_000
    ensures c.minPllKHz != 0 && c.minPllKHz * 1000 + 15 < TWO32 ==>
      16 * (ClockMinimum(c) - STEP_HZ) < c.minPllKHz * 1000 <= 16 * ClockMinimum(c)
    ensures ClockMaximum(c) <= VGA_MAX_HZ && (c.dviActive ==> ClockMaximum(c) <= DVI_LADDER_MAX_HZ)
    ensures c.maxPllKHz != 0 ==> ClockMaximum(c) <= Wrap(c.maxPllKHz * 1000)
    ensures ClockMaximum(c) == VGA_MAX_HZ || (c.dviActive && ClockMaximum(c) == DVI_LADDER_MAX_HZ)
            || (c.maxPllKHz != 0 && ClockMaximum(c) == Wrap(c.maxPllKHz * 1000))
  {
    if c.minPllKHz != 0 && c.minPllKHz * 1000 + 15 < TWO32 {
      Whole(c.minPllKHz * 1000);
      Whole(c.minPllKHz * 1000 + 15);
    }
  }

  function ClockCount(c: Config): nat {
    if ClockMaximum(c) >= ClockMinimum(c) then (ClockMaximum(c) - ClockMinimum(c)) / STEP_HZ + 1 else 0
  }

  /** RadeonGetPixelClock, for a format that scans out; zero is its error. */
  function GetPixelClock(c: Config, index: u32): u32 {
    if index >= ClockCount(c) then 0 else Wrap(ClockMinimum(c) + index * STEP_HZ)
  }

  /** The index that RadeonResolvePixelClock computes before it asks for the PLL. */
  function NearestIndex(c: Config, clock: u32): nat
    requires ClockCount(c) > 0
  {
    var minimum := ClockMinimum(c);
    var index := if clock <= minimum then 0 else Wrap(clock - minimum + STEP_HZ / 2) / STEP_HZ;
    if index >= ClockCount(c) then ClockCount(c) - 1 else index
  }

  /** RadeonResolvePixelClock; `modeOk` stands for the format and mode checks. */
  method ResolvePixelClock(c: Config, modeOk: bool, clock: u32) returns (index: int, setting: Option<Setting>)
    ensures index == -1 || 0 <= index < ClockCount(c)
    ensures index >= 0 <==>
      modeOk && ClockCount(c) > 0 && Choose(c, GetPixelClock(c, NearestIndex(c, clock)), true).Some?
    ensures index >= 0 ==> index == NearestIndex(c, clock) && setting.Some?
    ensures index >= 0 ==> Meets(c, GetPixelClock(c, index), true, setting.value)
  {
    var count := ClockCount(c);
    if !modeOk || count == 0 {
      return -1, None;
    }
    var nearest := NearestIndex(c, clock);
    LadderFits(c, nearest);
    var rung := Wrap(ClockMinimum(c) + nearest * STEP_HZ);
    assert rung == GetPixelClock(c, nearest);
    setting := CalculatePll(c, rung, true);
    index := if setting == None then -1 else nearest;
  }

  /** Every rung lies between the minimum and the maximum: nothing wraps. */
  lemma LadderFits(c: Config, index: nat)
    requires index < ClockCount(c)
    ensures ClockMinimum(c) + index * STEP_HZ <= ClockMaximum(c) <= VGA_MAX_HZ
    ensures GetPixelClock(c, index) == ClockMinimum(c) + index * STEP_HZ
  {
  }

  /** The ladder has every step that stays below the maximum, and asking for another answers zero. */
  lemma RungsExactly(c: Config, index: u32)
    ensures index < ClockCount(c) <==> ClockMinimum(c) + index * STEP_HZ <= ClockMaximum(c)
    ensures index >= ClockCount(c) ==> GetPixelClock(c, index) == 0
  {
  }

  function Distance(a: int, b: int): nat { if a > b then a - b else b - a }

  /** Rounding to a whole number of steps, held inside the ladder, finds the nearest step. */
  lemma NearestStep(distance: int, chosen: nat, other: nat, top: nat)
    requires other <= top
    requires chosen == if distance <= 0 then 0 else (distance + STEP_HZ / 2) / STEP_HZ
    ensures Distance(distance, (if chosen > top then top else chosen) * STEP_HZ) <= Distance(distance, other * STEP_HZ)
  {
  }

  /** No rung of the ladder is nearer to the request than the one chosen, unless the request itself wraps. */
  lemma NearestIsNearest(c: Config, clock: u32, other: nat)
    requires other < ClockCount(c) && clock - ClockMinimum(c) + STEP_HZ / 2 < TWO32
    ensures Distance(clock, ClockMinimum(c) + NearestIndex(c, clock) * STEP_HZ)
         <= Distance(clock, ClockMinimum(c) + other * STEP_HZ)
  {
    var distance := clock - ClockMinimum(c);
    if distance > 0 {
      Whole(distance + STEP_HZ / 2);
    }
    NearestStep(distance, if distance <= 0 then 0 else (distance + STEP_HZ / 2) / STEP_HZ, other, ClockCount(c) - 1);
  }

  /** Which needs a ladder that starts at zero and a request in the last eighth of a megahertz. */
  lemma WrapsOnlyAtZero(c: Config, clock: u32)
    ensures clock - ClockMinimum(c) + STEP_HZ / 2 >= TWO32 <==> ClockMinimum(c) == 0 && clock >= TWO32 - STEP_HZ / 2
  {
  }

  /**
   A wrapped request falls back to rung zero, so the choice is nearest exactly when
   nothing wraps or there is one rung.
   */
  lemma NearestExactly(c: Config, clock: u32)
    requires ClockCount(c) > 0
    ensures (forall other {:trigger Rung(c, other)} :: 0 <= other < ClockCount(c) ==>
               Distance(clock, Rung(c, NearestIndex(c, clock))) <= Distance(clock, Rung(c, other)))
       <==> (clock - ClockMinimum(c) + STEP_HZ / 2 < TWO32 || ClockCount(c) == 1)
  {
    if clock - ClockMinimum(c) + STEP_HZ / 2 < TWO32 {
      forall other {:trigger Rung(c, other)} | 0 <= other < ClockCount(c)
        ensures Distance(clock, Rung(c, NearestIndex(c, clock))) <= Distance(clock, Rung(c, other))
      {
        NearestIsNearest(c, clock, other);
      }
    } else if ClockCount(c) > 1 {
      LadderFits(c, 1);
      assert Distance(clock, Rung(c, 1)) < Distance(clock, Rung(c, NearestIndex(c, clock)));
    }
  }

  function Rung(c: Config, index: nat): int { ClockMinimum(c) + index * STEP_HZ }

  /** A rung resolves to itself. */
  lemma ResolvesToItself(c: Config, index: nat)
    requires index < ClockCount(c)
    ensures NearestIndex(c, GetPixelClock(c, index)) == index
  {
    LadderFits(c, index);
  }
}
