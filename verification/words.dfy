/**
 Fixed-width arithmetic used by the driver.  Where the width of a machine word
 matters the model keeps values in `u32` and wraps explicitly.
 */
module Words {
  const TWO32: int := 0x1_0000_0000

  datatype Option<+T> = None | Some(value: T)

  type u32 = x: int | 0 <= x < 0x1_0000_0000

  /** The value a 32-bit register holds after an unsigned operation. */
  function Wrap(x: int): u32 {
    x % TWO32
  }

  /** `(LONG)(a - b) >= 0`: the wrap-aware comparison of two 32-bit counters. */
  predicate AtLeast(a: u32, b: u32) {
    Wrap(a - b) < 0x8000_0000
  }

  /** The n-th value, counted from one, of a 32-bit counter that skips zero. */
  function SkipZero(n: nat): (v: u32)
    requires n >= 1
    ensures v != 0
  {
    (n - 1) % (TWO32 - 1) + 1
  }

  /** Two serials share an encoding exactly when they are whole cycles apart. */
  lemma SkipZeroCollides(m: nat, n: nat)
    requires 1 <= m <= n
    ensures SkipZero(m) == SkipZero(n) <==> (n - m) % (TWO32 - 1) == 0
  {
    var c := TWO32 - 1;
    var qm, rm, qn, rn := (m - 1) / c, (m - 1) % c, (n - 1) / c, (n - 1) % c;
    assert n - m == (qn - qm) * c + (rn - rm);
  }

  lemma ModUnique(x: int, q: int, r: int, n: int)
    requires n > 0 && 0 <= r < n && x == q * n + r
    ensures x % n == r && x / n == q
  {
    var d := x / n - q;
    assert d * n == r - x % n;
    assert -n < d * n < n;
    assert d == 0;
  }
}
