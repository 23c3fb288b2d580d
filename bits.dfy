/**
 * Bits of a 32-bit Wiegand word and the parity of a window of them.
 *
 * Both decoder generations check a received frame by XOR-ing the bits of
 * two windows.  The newer one tests `code0 & (1 << i)` for each position,
 * the older one takes `d & 1` and shifts `d` right.  Par is the one
 * reference definition both are proved against.  Bit positions and window
 * bounds are 32-bit words, like the shift amounts of the C code.
 */
module Bits {

  /** Bit i of w, counted from the least significant end. */
  function BitAt(w: bv32, i: bv32): bool
    requires i < 32
  {
    (w >> i) & 1 != 0
  }

  /** XOR of the bits of w at positions lo .. hi-1 (true = odd number of ones). */
  function Par(w: bv32, lo: bv32, hi: bv32): bool
    requires lo <= hi <= 32
    decreases hi - lo
  {
    if hi == lo then false else Par(w, lo, hi - 1) != BitAt(w, hi - 1)
  }

  /** A C truth value (0 or 1) as an unsigned word. */
  function B2W(b: bool): (r: bv32)
    ensures r == 0 || r == 1
    ensures (r != 0) == b
  {
    if b then 1 else 0
  }

  /** Extending a window by one position XORs in that bit. */
  lemma ParStep(w: bv32, lo: bv32, k: bv32)
    requires lo <= k < 32
    ensures Par(w, lo, k + 1) == (Par(w, lo, k) != BitAt(w, k))
  {
  }

  /** The parity of a window is the XOR of the parities of its two halves. */
  lemma {:induction false} ParSplit(w: bv32, lo: bv32, mid: bv32, hi: bv32)
    requires lo <= mid <= hi <= 32
    ensures Par(w, lo, hi) == (Par(w, lo, mid) != Par(w, mid, hi))
    decreases hi - mid
  {
    if hi > mid {
      ParSplit(w, lo, mid, hi - 1);
    }
  }

  /** A three-bit window written out, for evaluating the 6-bit key formats. */
  lemma Par3(w: bv32, lo: bv32)
    requires lo <= 29
    ensures Par(w, lo, lo + 3) == ((BitAt(w, lo) != BitAt(w, lo + 1)) != BitAt(w, lo + 2))
  {
    ParStep(w, lo, lo);
    ParStep(w, lo, lo + 1);
    ParStep(w, lo, lo + 2);
  }

  /** Shifting right by one moves every bit down one position. */
  lemma ShiftBit(x: bv32, j: bv32)
    requires j < 31
    ensures BitAt(x >> 1, j) == BitAt(x, j + 1)
  {
  }

  lemma {:induction false} ParShift1(x: bv32, hi: bv32)
    requires hi < 32
    ensures Par(x >> 1, 0, hi) == Par(x, 1, hi + 1)
  {
    if hi > 0 {
      ParShift1(x, hi - 1);
      ShiftBit(x, hi - 1);
    }
  }

  /** XOR of the low n bits of w, taken as the older decoders take it: bit 0, then shift right, n times. */
  function ShiftPar(w: bv32, n: nat): bool
  {
    if n == 0 then false else (w & 1 != 0) != ShiftPar(w >> 1, n - 1)
  }

  /** The loop count n and the bit position b denote the same number. */
  predicate SameCount(n: nat, b: bv32)
  {
    if n == 0 then b == 0 else b != 0 && SameCount(n - 1, b - 1)
  }

  /** Shifting out n bits one at a time computes the parity of the window 0 .. n-1. */
  lemma {:induction false} ShiftParIsPar(w: bv32, n: nat, b: bv32)
    requires b <= 32 && SameCount(n, b)
    ensures ShiftPar(w, n) == Par(w, 0, b)
  {
    if n > 0 {
      ShiftParIsPar(w >> 1, n - 1, b - 1);
      ParShift1(w, b - 1);
      ParSplit(w, 0, 1, b);
    }
  }
}
