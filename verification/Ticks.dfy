/** Signed 32-bit tick arithmetic: how the C code compares times that wrap around. */
module Ticks {
  const HALF: int := 0x8000_0000
  const FULL: int := 0x1_0000_0000

  /** The value of a difference of times once it is stored in 32 signed bits. */
  function S32(d: int): (r: int)
    ensures -HALF <= r < HALF && (r - d) % FULL == 0
  {
    (d + HALF) % FULL - HALF
  }

  lemma Multiple(x: int, k: int)
    ensures (x + k * FULL) % FULL == x % FULL
  {
  }

  /** Whole turns of the clock do not change what is stored. */
  lemma S32Shift(d: int, k: int)
    ensures S32(d + k * FULL) == S32(d)
  {
    Multiple(d, k);
  }

  /** A signed difference orders two times correctly exactly when they are in one half-range window. */
  lemma OrderInWindow(a: int, b: int)
    requires -HALF <= a - b < HALF
    ensures S32(a - b) == a - b
  {
  }

  /** Outside the window the comparison gives the wrong answer for some distances of either sign. */
  lemma OrderOutsideWindow(a: int, b: int)
    requires HALF <= a - b < FULL
    ensures a > b && S32(a - b) < 0
    ensures b - a < -HALF ==> S32(b - a) > 0
  {
  }
}
