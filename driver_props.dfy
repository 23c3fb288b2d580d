/**
 * Properties of the driver model: how a frame is captured edge by edge,
 * what the threaded handler then queues, how reads walk a record, the
 * single-open rule and the power-up cycle of the timer function.
 */
module DriverProps {
  import opened Bits
  import opened Text
  import opened Formats
  import opened Legacy
  import opened LegacyProps
  import opened Driver

  // ---------------------------------------------------------------- word operations

  // The C operators on 32-bit words, named, so that the proofs below
  // combine facts about them without unfolding them.

  function Or(a: bv32, b: bv32): bv32
  {
    a | b
  }

  function And(a: bv32, b: bv32): bv32
  {
    a & b
  }

  function Up(b: bv32): bv32
  {
    b << 1
  }

  /** For a single bit c, the bits below it. */
  function Under(c: bv32): bv32
  {
    c - 1
  }

  /** A word with at most one bit set. */
  predicate Pow2(c: bv32)
  {
    And(c, Under(c)) == 0
  }

  /** Every bit of a is a bit of b. */
  predicate Sub(a: bv32, b: bv32)
  {
    a & !b == 0
  }

  lemma DownPow2(c: bv32)
    requires Pow2(c)
    ensures Pow2(Down(c))
  {
  }

  lemma DownZero()
    ensures Down(0) == 0
  {
  }

  /** One bit lower, and everything below it, stays below a single bit. */
  lemma DownSub(c: bv32)
    requires Pow2(c) && Down(c) != 0
    ensures Sub(Down(c), Under(c)) && Sub(Under(Down(c)), Under(c))
  {
  }

  lemma SubTrans(a: bv32, b: bv32, c: bv32)
    requires Sub(a, b) && Sub(b, c)
    ensures Sub(a, c)
  {
  }

  /** A nonzero word below a single bit is not that bit. */
  lemma SubNotBit(x: bv32, m: bv32)
    requires Sub(x, Under(m)) && Pow2(m) && m != 0 && x != 0
    ensures x != m
  {
  }

  /** The bits below a single bit c are the next bit down and the bits below that. */
  lemma Fill(c: bv32)
    requires Pow2(c) && Down(c) != 0
    ensures Or(Down(c), Under(Down(c))) == Under(c)
  {
  }

  lemma OrAssoc(a: bv32, b: bv32, c: bv32)
    ensures Or(Or(a, b), c) == Or(a, Or(b, c))
  {
  }

  lemma OrZero(a: bv32)
    ensures Or(a, Under(1)) == a
  {
  }

  /** A single bit together with the bits below it, when the next bit up exists. */
  lemma TopFill(m: bv32)
    requires Pow2(m) && m != 0 && Up(m) != 0
    ensures Or(m, Under(m)) == Under(Up(m)) && Under(Up(m)) == 2 * m - 1
  {
  }

  lemma OrZeroLeft(a: bv32)
    ensures Or(0, a) == a
  {
  }

  /** The first bit of a frame, on an empty word: nothing below it. */
  lemma LatchFirst(high: bool, m: bv32)
    requires Pow2(m)
    ensures And(Latch(0, high, m), Under(m)) == 0
  {
  }

  /**
   * Latching one bit below a single bit c into a word with nothing below
   * c: the new bit was clear, and nothing is below it afterwards.
   */
  lemma LatchBelow(w: bv32, high: bool, c: bv32)
    requires Pow2(c) && Down(c) != 0 && And(w, Under(c)) == 0
    ensures And(w, Down(c)) == 0 && And(Latch(w, high, Down(c)), Under(Down(c))) == 0
  {
  }

  lemma ApartHigh(d0: bv32, d1: bv32, bit: bv32)
    requires d1 & bit == 0 && d0 & d1 == 0
    ensures (d0 | bit) & d1 == 0
  {
  }

  lemma ApartLow(d0: bv32, d1: bv32, bit: bv32)
    requires d0 & bit == 0 && d0 & d1 == 0
    ensures d0 & (d1 | bit) == 0
  {
  }

  lemma UnionHigh(d0: bv32, d1: bv32, bit: bv32)
    ensures (d0 | bit) | d1 == (d0 | d1) | bit
  {
  }

  lemma UnionLow(d0: bv32, d1: bv32, bit: bv32)
    ensures d0 | (d1 | bit) == (d0 | d1) | bit
  {
  }

  /** Latching a bit neither word has at complementary levels keeps the words disjoint. */
  lemma LatchApart(d0: bv32, d1: bv32, bit: bv32, high: bool)
    requires And(d0, bit) == 0 && And(d1, bit) == 0 && And(d0, d1) == 0
    ensures And(Latch(d0, high, bit), Latch(d1, !high, bit)) == 0
  {
    if high {
      ApartHigh(d0, d1, bit);
    } else {
      ApartLow(d0, d1, bit);
    }
  }

  /** Latching a bit at complementary levels adds it to the union of the words. */
  lemma LatchUnion(d0: bv32, d1: bv32, bit: bv32, high: bool)
    ensures Or(Latch(d0, high, bit), Latch(d1, !high, bit)) == Or(Or(d0, d1), bit)
  {
    if high {
      UnionHigh(d0, d1, bit);
    } else {
      UnionLow(d0, d1, bit);
    }
  }

  /** Disjoint words XOR to their union. */
  lemma XorDisjoint(a: bv32, b: bv32)
    requires And(a, b) == 0
    ensures a ^ b == Or(a, b)
  {
  }

  // ---------------------------------------------------------------- frame capture

  /** The frame after the hard handler has seen the edges ls, oldest first. */
  function Shifts(f: Frame, mask: bv32, ls: seq<Lines>): Frame
  {
    if ls == [] then f else Shift(Shifts(f, mask, ls[..|ls| - 1]), mask, ls[|ls| - 1])
  }

  /** The levels of D0 (D1) at each edge. */
  function D0(ls: seq<Lines>): seq<bool>
  {
    seq(|ls|, i requires 0 <= i < |ls| => ls[i].d0)
  }

  function D1(ls: seq<Lines>): seq<bool>
  {
    seq(|ls|, i requires 0 <= i < |ls| => ls[i].d1)
  }

  /** Exactly one of the two lines reads high at every edge. */
  predicate Complementary(ls: seq<Lines>)
  {
    forall i :: 0 <= i < |ls| ==> ls[i].d0 != ls[i].d1
  }

  /** The bit the edge k of a frame (counting from 0) latches: the mask, then one lower each edge. */
  function BitOf(mask: bv32, k: nat): bv32
  {
    if k == 0 then mask else Down(BitOf(mask, k - 1))
  }

  /** The word in which level k of bs sets the bit BitOf(mask, k). */
  function WordOf(bs: seq<bool>, mask: bv32): bv32
  {
    if bs == [] then 0 else Latch(WordOf(bs[..|bs| - 1], mask), bs[|bs| - 1], BitOf(mask, |bs| - 1))
  }

  /** The bits BitOf(mask, 0) .. BitOf(mask, n - 1): every bit of an n-edge frame. */
  function OnesOf(n: nat, mask: bv32): bv32
  {
    if n == 0 then 0 else Or(OnesOf(n - 1, mask), BitOf(mask, n - 1))
  }

  /** Every edge moves bitmsk one bit down, whether or not it starts a frame. */
  lemma {:induction false} BitmskAfter(f: Frame, mask: bv32, ls: seq<Lines>)
    ensures Shifts(f, mask, ls).bitmsk == BitOf(f.bitmsk, |ls|)
  {
    if ls != [] {
      BitmskAfter(f, mask, ls[..|ls| - 1]);
    }
  }

  lemma {:induction false} BitOfSplit(mask: bv32, k: nat, n: nat)
    ensures BitOf(BitOf(mask, k), n) == BitOf(mask, k + n)
  {
    if n > 0 {
      BitOfSplit(mask, k, n - 1);
    }
  }

  lemma {:induction false} BitOfZero(n: nat)
    ensures BitOf(0, n) == 0
  {
    if n > 0 {
      BitOfZero(n - 1);
      DownZero();
    }
  }

  /** Before a bit that is not zero, every bit is a single nonzero bit. */
  lemma BitOfNonzero(mask: bv32, k: nat, n: nat)
    requires k <= n && BitOf(mask, n) != 0
    ensures BitOf(mask, k) != 0
  {
    BitOfSplit(mask, k, n - k);
    if BitOf(mask, k) == 0 {
      BitOfZero(n - k);
    }
  }

  lemma {:induction false} BitOfPow2(mask: bv32, k: nat)
    requires Pow2(mask)
    ensures Pow2(BitOf(mask, k))
  {
    if k > 0 {
      BitOfPow2(mask, k - 1);
      DownPow2(BitOf(mask, k - 1));
    }
  }

  /** The bits after the first, as long as they are nonzero, lie below the mask. */
  lemma {:induction false} BitOfBelow(mask: bv32, k: nat)
    requires Pow2(mask) && 1 <= k && BitOf(mask, k) != 0
    ensures Sub(BitOf(mask, k), Under(mask)) && Sub(Under(BitOf(mask, k)), Under(mask))
  {
    var c := BitOf(mask, k - 1);
    BitOfPow2(mask, k - 1);
    DownSub(c);
    if k > 1 {
      BitOfNonzero(mask, k - 1, k);
      BitOfBelow(mask, k - 1);
      SubTrans(Down(c), Under(c), Under(mask));
      SubTrans(Under(Down(c)), Under(c), Under(mask));
    }
  }

  /** A word assembled up to a nonzero bit has nothing below that bit. */
  lemma {:induction false} WordLow(bs: seq<bool>, mask: bv32)
    requires Pow2(mask) && 1 <= |bs| && BitOf(mask, |bs| - 1) != 0
    ensures And(WordOf(bs, mask), Under(BitOf(mask, |bs| - 1))) == 0
  {
    var n := |bs| - 1;
    var pre := bs[..n];
    if n == 0 {
      assert WordOf(bs, mask) == Latch(0, bs[0], mask);
      LatchFirst(bs[0], mask);
    } else {
      BitOfNonzero(mask, n - 1, n);
      WordLow(pre, mask);
      BitOfPow2(mask, n - 1);
      LatchBelow(WordOf(pre, mask), bs[n], BitOf(mask, n - 1));
    }
  }

  /** The level the last edge latched lands on a bit the word did not have yet. */
  lemma WordClear(bs: seq<bool>, mask: bv32)
    requires Pow2(mask) && 1 <= |bs| && BitOf(mask, |bs|) != 0
    ensures And(WordOf(bs, mask), BitOf(mask, |bs|)) == 0
  {
    BitOfNonzero(mask, |bs| - 1, |bs|);
    WordLow(bs, mask);
    BitOfPow2(mask, |bs| - 1);
    LatchBelow(WordOf(bs, mask), true, BitOf(mask, |bs| - 1));
  }

  /** No bit after the first, as long as it is nonzero, is the mask again. */
  lemma BitOfLater(mask: bv32, k: nat)
    requires Pow2(mask) && 1 <= k && BitOf(mask, k) != 0
    ensures BitOf(mask, k) != mask
  {
    BitOfNonzero(mask, 0, k);
    BitOfBelow(mask, k);
    SubNotBit(BitOf(mask, k), mask);
  }

  /** An edge inside a frame latches both lines at the current bit. */
  lemma ShiftOn(f: Frame, mask: bv32, l: Lines)
    requires f.bitmsk != mask
    ensures Shift(f, mask, l).data0 == Latch(f.data0, l.d0, f.bitmsk)
    ensures Shift(f, mask, l).data1 == Latch(f.data1, l.d1, f.bitmsk)
  {
  }

  /**
   * The frame capture invariant: after the edges ls of a frame that
   * started at a single-bit mask, as long as the last edge latched a
   * nonzero bit, each word holds the level of its line at edge k in bit
   * BitOf(mask, k).
   */
  lemma {:induction false} Capture(f0: Frame, mask: bv32, ls: seq<Lines>)
    requires Starts(f0, mask) && Pow2(mask)
    requires 1 <= |ls| && BitOf(mask, |ls| - 1) != 0
    ensures Shifts(f0, mask, ls).data0 == WordOf(D0(ls), mask)
    ensures Shifts(f0, mask, ls).data1 == WordOf(D1(ls), mask)
  {
    var n := |ls| - 1;
    var pre := ls[..n];
    assert D0(ls)[..n] == D0(pre) && D1(ls)[..n] == D1(pre);
    if n == 0 {
      assert Shifts(f0, mask, pre) == f0;
    } else {
      BitOfNonzero(mask, n - 1, n);
      Capture(f0, mask, pre);
      BitmskAfter(f0, mask, pre);
      BitOfLater(mask, n);
      var f := Shifts(f0, mask, pre);
      ShiftOn(f, mask, ls[n]);
      assert Shifts(f0, mask, ls) == Shift(f, mask, ls[n]);
      assert WordOf(D0(ls), mask) == Latch(WordOf(D0(pre), mask), ls[n].d0, BitOf(mask, n));
      assert WordOf(D1(ls), mask) == Latch(WordOf(D1(pre), mask), ls[n].d1, BitOf(mask, n));
    }
  }

  /**
   * When the lines were complementary at every edge, the two words have
   * no bit in common and together hold every bit of the frame so far.
   */
  lemma {:induction false} CaptureSplits(ls: seq<Lines>, mask: bv32)
    requires Pow2(mask) && Complementary(ls)
    requires 1 <= |ls| && BitOf(mask, |ls| - 1) != 0
    ensures And(WordOf(D0(ls), mask), WordOf(D1(ls), mask)) == 0
    ensures Or(WordOf(D0(ls), mask), WordOf(D1(ls), mask)) == OnesOf(|ls|, mask)
  {
    var n := |ls| - 1;
    var pre := ls[..n];
    assert D0(ls)[..n] == D0(pre) && D1(ls)[..n] == D1(pre);
    if n == 0 {
      OrZeroLeft(mask);
      if ls[0].d0 {
        OrZeroLeft(mask);
      }
    } else {
      assert Complementary(pre) by {
        forall i | 0 <= i < |pre| ensures pre[i].d0 != pre[i].d1 {
          assert pre[i] == ls[i];
        }
      }
      BitOfNonzero(mask, n - 1, n);
      CaptureSplits(pre, mask);
      WordClear(D0(pre), mask);
      WordClear(D1(pre), mask);
      LatchApart(WordOf(D0(pre), mask), WordOf(D1(pre), mask), BitOf(mask, n), ls[n].d0);
      LatchUnion(WordOf(D0(pre), mask), WordOf(D1(pre), mask), BitOf(mask, n), ls[n].d0);
    }
  }

  /** Together with the bits below the last one, the bits of a frame fill every bit up to the mask. */
  lemma {:induction false} OnesFill(mask: bv32, k: nat)
    requires Pow2(mask) && Up(mask) != 0 && BitOf(mask, k) != 0
    ensures Or(OnesOf(k + 1, mask), Under(BitOf(mask, k))) == Under(Up(mask))
  {
    if k == 0 {
      OrZeroLeft(mask);
      TopFill(mask);
    } else {
      var c := BitOf(mask, k - 1);
      BitOfNonzero(mask, k - 1, k);
      OnesFill(mask, k - 1);
      BitOfPow2(mask, k - 1);
      Fill(c);
      OrAssoc(OnesOf(k, mask), Down(c), Under(Down(c)));
    }
  }

  // ---------------------------------------------------------------- whole frames

  /** `wiegandLength` as a count: a frame of mode m has EdgeBits(m) + 1 edges. */
  function EdgeBits(m: Mode): nat
    requires DriverMode(m)
  {
    match m
    case SKW06RF => 5
    case SKW06NP => 5
    case SKW08NC => 7
    case K4W26BF => 25
    case K5W26FC => 25
    case K6W26BCD => 25
    case SK3X4MX => 0
    case K8CDBCD => 0
  }

  lemma Bits5()
    ensures BitOf(0x20, 5) == 1
  {
    assert BitOf(0x20, 1) == 0x10;
    assert BitOf(0x20, 2) == 0x8;
    assert BitOf(0x20, 3) == 0x4;
    assert BitOf(0x20, 4) == 0x2;
    assert BitOf(0x20, 5) == 0x1;
  }

  lemma Bits7()
    ensures BitOf(0x80, 7) == 1
  {
    assert BitOf(0x80, 1) == 0x40;
    assert BitOf(0x80, 2) == 0x20;
    assert BitOf(0x80, 3) == 0x10;
    assert BitOf(0x80, 4) == 0x8;
    assert BitOf(0x80, 5) == 0x4;
    assert BitOf(0x80, 6) == 0x2;
    assert BitOf(0x80, 7) == 0x1;
  }

  lemma Bits25()
    ensures BitOf(0x200_0000, 25) == 1
  {
    assert BitOf(0x2000000, 1) == 0x1000000;
    assert BitOf(0x2000000, 2) == 0x800000;
    assert BitOf(0x2000000, 3) == 0x400000;
    assert BitOf(0x2000000, 4) == 0x200000;
    assert BitOf(0x2000000, 5) == 0x100000;
    assert BitOf(0x2000000, 6) == 0x80000;
    assert BitOf(0x2000000, 7) == 0x40000;
    assert BitOf(0x2000000, 8) == 0x20000;
    assert BitOf(0x2000000, 9) == 0x10000;
    assert BitOf(0x2000000, 10) == 0x8000;
    assert BitOf(0x2000000, 11) == 0x4000;
    assert BitOf(0x2000000, 12) == 0x2000;
    assert BitOf(0x2000000, 13) == 0x1000;
    assert BitOf(0x2000000, 14) == 0x800;
    assert BitOf(0x2000000, 15) == 0x400;
    assert BitOf(0x2000000, 16) == 0x200;
    assert BitOf(0x2000000, 17) == 0x100;
    assert BitOf(0x2000000, 18) == 0x80;
    assert BitOf(0x2000000, 19) == 0x40;
    assert BitOf(0x2000000, 20) == 0x20;
    assert BitOf(0x2000000, 21) == 0x10;
    assert BitOf(0x2000000, 22) == 0x8;
    assert BitOf(0x2000000, 23) == 0x4;
    assert BitOf(0x2000000, 24) == 0x2;
    assert BitOf(0x2000000, 25) == 0x1;
  }

  /**
   * The mask of every mode is a single bit with room above it, and the
   * edge EdgeBits(m) of a frame latches bit 0.
   */
  lemma ModeBits(m: Mode)
    requires DriverMode(m)
    ensures Pow2(MaskOf(m)) && MaskOf(m) != 0 && Up(MaskOf(m)) != 0
    ensures BitOf(MaskOf(m), EdgeBits(m)) == 1
  {
    match m
    case SKW06RF => Bits5();
    case SKW06NP => Bits5();
    case SKW08NC => Bits7();
    case K4W26BF => Bits25();
    case K5W26FC => Bits25();
    case K6W26BCD => Bits25();
    case SK3X4MX =>
    case K8CDBCD =>
  }

  /** The hard handler wakes the thread after exactly EdgeBits(m) + 1 edges of a frame. */
  lemma FrameLength(m: Mode, f0: Frame, ls: seq<Lines>)
    requires DriverMode(m) && Starts(f0, MaskOf(m))
    requires 1 <= |ls| <= EdgeBits(m) + 1
    ensures Wakes(Shifts(f0, MaskOf(m), ls)) <==> |ls| == EdgeBits(m) + 1
  {
    var mask := MaskOf(m);
    ModeBits(m);
    BitmskAfter(f0, mask, ls);
    if |ls| <= EdgeBits(m) {
      BitOfNonzero(mask, |ls|, EdgeBits(m));
    }
  }

  /** Complementary lines fill every bit of a frame between the two words. */
  lemma FrameSplits(mask: bv32, ls: seq<Lines>)
    requires Pow2(mask) && mask != 0 && Up(mask) != 0
    requires 1 <= |ls| && BitOf(mask, |ls| - 1) == 1 && Complementary(ls)
    ensures WordOf(D0(ls), mask) ^ WordOf(D1(ls), mask) == 2 * mask - 1
  {
    CaptureSplits(ls, mask);
    XorDisjoint(WordOf(D0(ls), mask), WordOf(D1(ls), mask));
    OnesFill(mask, |ls| - 1);
    OrZero(OnesOf(|ls|, mask));
    TopFill(mask);
  }

  lemma LatchOwnRaw(w: bv32, high: bool, c: bv32)
    requires w & c == 0 && c != 0
    ensures ((if high then w | c else w) & c != 0) == high
  {
  }

  lemma LatchOtherRaw(w: bv32, c: bv32, d: bv32)
    requires c & d == 0
    ensures (w | c) & d == w & d
  {
  }

  /** Latching a bit shows in that bit exactly when the line was high. */
  lemma LatchOwn(w: bv32, high: bool, c: bv32)
    requires And(w, c) == 0 && c != 0
    ensures (And(Latch(w, high, c), c) != 0) == high
  {
    LatchOwnRaw(w, high, c);
  }

  /** Latching a bit leaves every other bit as it was. */
  lemma LatchOther(w: bv32, high: bool, c: bv32, d: bv32)
    requires And(c, d) == 0
    ensures And(Latch(w, high, c), d) == And(w, d)
  {
    if high {
      LatchOtherRaw(w, c, d);
    }
  }

  /** A word below a single bit does not have that bit. */
  lemma SubApart(c: bv32, d: bv32)
    requires Sub(c, Under(d)) && Pow2(d)
    ensures And(c, d) == 0
  {
  }

  /** The bits of a frame are distinct. */
  lemma BitOfApart(mask: bv32, k: nat, n: nat)
    requires Pow2(mask) && k < n && BitOf(mask, n) != 0
    ensures And(BitOf(mask, n), BitOf(mask, k)) == 0
  {
    var d := BitOf(mask, k);
    BitOfSplit(mask, k, n - k);
    BitOfPow2(mask, k);
    BitOfBelow(d, n - k);
    SubApart(BitOf(mask, n), d);
  }

  /** Bit BitOf(mask, k) of a captured word is the level at edge k. */
  lemma {:induction false} WordBit(bs: seq<bool>, mask: bv32, k: nat)
    requires Pow2(mask) && k < |bs| && BitOf(mask, |bs| - 1) != 0
    ensures (And(WordOf(bs, mask), BitOf(mask, k)) != 0) == bs[k]
  {
    var n := |bs| - 1;
    var pre := bs[..n];
    var c := BitOf(mask, n);
    assert WordOf(bs, mask) == Latch(WordOf(pre, mask), bs[n], c);
    if k == n {
      if n == 0 {
        OrZeroLeft(mask);
        assert And(0, c) == 0;
      } else {
        WordClear(pre, mask);
      }
      LatchOwn(WordOf(pre, mask), bs[n], c);
    } else {
      BitOfNonzero(mask, n - 1, n);
      WordBit(pre, mask, k);
      assert pre[k] == bs[k];
      BitOfApart(mask, k, n);
      LatchOther(WordOf(pre, mask), bs[n], c, BitOf(mask, k));
    }
  }

  lemma XorSameRaw(a: bv32, b: bv32, c: bv32)
    requires c & (c - 1) == 0 && (a & c != 0) == (b & c != 0)
    ensures (a ^ b) & c == 0
  {
  }

  /** Two words that agree on a single bit XOR to a word without it. */
  lemma XorSame(a: bv32, b: bv32, c: bv32)
    requires Pow2(c) && (And(a, c) != 0) == (And(b, c) != 0)
    ensures And(a ^ b, c) == 0
  {
    XorSameRaw(a, b, c);
  }

  /** Every bit of a frame is a bit of the full frame value. */
  lemma FullHasBit(mask: bv32, k: nat)
    requires Pow2(mask) && mask != 0 && Up(mask) != 0 && BitOf(mask, k) != 0
    ensures And(2 * mask - 1, BitOf(mask, k)) != 0
  {
    TopFill(mask);
    if k >= 1 {
      BitOfBelow(mask, k);
    }
    FullHasRaw(mask, BitOf(mask, k));
  }

  lemma FullHasRaw(mask: bv32, d: bv32)
    requires d != 0 && (d == mask || d & !(mask - 1) == 0)
    ensures (mask | (mask - 1)) & d != 0
  {
  }

  /** An edge at which both lines read the same level leaves its bit out of the XOR of the words. */
  lemma FrameDisagrees(mask: bv32, ls: seq<Lines>, k: nat)
    requires Pow2(mask) && mask != 0 && Up(mask) != 0
    requires k < |ls| && BitOf(mask, |ls| - 1) != 0 && ls[k].d0 == ls[k].d1
    ensures WordOf(D0(ls), mask) ^ WordOf(D1(ls), mask) != 2 * mask - 1
  {
    var c := BitOf(mask, k);
    WordBit(D0(ls), mask, k);
    WordBit(D1(ls), mask, k);
    BitOfPow2(mask, k);
    XorSame(WordOf(D0(ls), mask), WordOf(D1(ls), mask), c);
    BitOfNonzero(mask, k, |ls| - 1);
    FullHasBit(mask, k);
  }

  /** The complement check of the older decoders: every bit of the frame differs between the words. */
  predicate Complements(a: bv32, b: bv32, mask: bv32)
  {
    a ^ b == 2 * mask - 1
  }

  /** The complement check passes exactly when the lines were complementary at every edge. */
  lemma FrameCheck(mask: bv32, ls: seq<Lines>)
    requires Pow2(mask) && mask != 0 && Up(mask) != 0
    requires 1 <= |ls| && BitOf(mask, |ls| - 1) == 1
    ensures Complementary(ls) <==> Complements(WordOf(D0(ls), mask), WordOf(D1(ls), mask), mask)
  {
    if Complementary(ls) {
      FrameSplits(mask, ls);
    } else {
      var k :| 0 <= k < |ls| && ls[k].d0 == ls[k].d1;
      FrameDisagrees(mask, ls, k);
    }
  }

  /** A whole frame, for any single-bit mask whose last edge latches bit 0. */
  lemma FrameAt(mask: bv32, f0: Frame, ls: seq<Lines>)
    requires Starts(f0, mask) && Pow2(mask) && mask != 0 && Up(mask) != 0
    requires 1 <= |ls| && BitOf(mask, |ls| - 1) == 1
    ensures Shifts(f0, mask, ls).data0 == WordOf(D0(ls), mask)
    ensures Shifts(f0, mask, ls).data1 == WordOf(D1(ls), mask)
    ensures Complementary(ls) <==> Complements(Shifts(f0, mask, ls).data0, Shifts(f0, mask, ls).data1, mask)
  {
    Capture(f0, mask, ls);
    FrameCheck(mask, ls);
  }

  /**
   * A whole frame of mode m: each word holds the levels its line had at
   * the edges, first edge in the mask bit, and the words pass the
   * complement check of the older decoders exactly when the lines were
   * complementary at every edge.
   */
  lemma FrameCapture(m: Mode, f0: Frame, ls: seq<Lines>)
    requires DriverMode(m) && Starts(f0, MaskOf(m)) && |ls| == EdgeBits(m) + 1
    ensures Shifts(f0, MaskOf(m), ls).data0 == WordOf(D0(ls), MaskOf(m))
    ensures Shifts(f0, MaskOf(m), ls).data1 == WordOf(D1(ls), MaskOf(m))
    ensures Complementary(ls) <==> Complements(Shifts(f0, MaskOf(m), ls).data0, Shifts(f0, MaskOf(m), ls).data1, MaskOf(m))
  {
    ModeBits(m);
    FrameAt(MaskOf(m), f0, ls);
  }

  /**
   * A frame whose lines read the same level at some edge gives the
   * threaded handler nothing to queue, in every mode that decodes.
   */
  lemma GarbledFrameDropped(m: Mode, f0: Frame, ls: seq<Lines>)
    requires DriverMode(m) && m != SK3X4MX && m != K8CDBCD
    requires Starts(f0, MaskOf(m)) && |ls| == EdgeBits(m) + 1 && !Complementary(ls)
    ensures OldDecode(m, Shifts(f0, MaskOf(m), ls).data0, Shifts(f0, MaskOf(m), ls).data1) == ""
  {
    var f := Shifts(f0, MaskOf(m), ls);
    FrameCapture(m, f0, ls);
    assert !Complements(f.data0, f.data1, MaskOf(m));
    NotComplementRejected(m, f.data0, f.data1);
  }

  // ---------------------------------------------------------------- the hard handler over a frame

  /** The state after the hard handler has run for each of the edges ls, oldest first. */
  function Samples(s: State, ls: seq<Lines>): State
  {
    if ls == [] then s else Sample(Samples(s, ls[..|ls| - 1]), ls[|ls| - 1])
  }

  /**
   * The hard handler touches only the frame and the timer: the frame
   * follows Shifts, and the queue, the power pin, the mode, the open
   * flag and the file position stay.
   */
  lemma {:induction false} SamplesShift(s: State, ls: seq<Lines>)
    ensures Samples(s, ls).frame == Shifts(s.frame, s.mask, ls)
    ensures Samples(s, ls).mask == s.mask && Samples(s, ls).mode == s.mode
    ensures Samples(s, ls).records == s.records && Samples(s, ls).power == s.power
    ensures Samples(s, ls).powerState == s.powerState
    ensures Samples(s, ls).isOpen == s.isOpen && Samples(s, ls).fpos == s.fpos
  {
    if ls != [] {
      SamplesShift(s, ls[..|ls| - 1]);
    }
  }

  /**
   * `bitmsk` starts at 0 rather than at the mask, so the first edge after
   * loading is a frame of its own: the thread is woken with both words
   * 0, and only the two unsupported modes queue a text for it.
   */
  lemma LoadedFirstEdge(m: Mode, l: Lines, memory: bool)
    requires DriverMode(m)
    ensures Wakes(Sample(Loaded(m), l).frame)
    ensures Sample(Loaded(m), l).frame == Frame(0, 0, 0) && Sample(Loaded(m), l).timer == Disarmed
    ensures Deliver(Sample(Loaded(m), l), memory).records ==
      if memory && (m == SK3X4MX || m == K8CDBCD) then [UnsupportedText(m) + "\n"] else []
  {
    ModeBits(m);
    var s := Sample(Loaded(m), l);
    assert s.frame == Frame(Down(0), Latch(0, l.d0, 0), Latch(0, l.d1, 0));
    DownZero();
    OrZeroLeft(0);
    if m == SK3X4MX || m == K8CDBCD {
      UnsupportedNonEmpty(m);
    } else {
      MaskCoversFrame(m);
      NotComplementRejected(m, 0, 0);
    }
  }

  lemma UnsupportedNonEmpty(m: Mode)
    ensures UnsupportedText(m) != ""
  {
  }

  // ---------------------------------------------------------------- the threaded handler

  /**
   * The thread queues a record exactly when the mode's decoder accepts
   * the frame and memory for it was found; the record is the decoder's
   * text and a newline, and queueing it cancels the frame timeout.
   */
  lemma DeliverQueues(s: State, memory: bool)
    requires Invariant(s)
    ensures |Deliver(s, memory).records| == |s.records| + 1 <==> memory && OldAccepts(s.mode, s.frame.data0, s.frame.data1)
    ensures memory && OldAccepts(s.mode, s.frame.data0, s.frame.data1) ==>
      Deliver(s, memory).records == s.records + [OldDecode(s.mode, s.frame.data0, s.frame.data1) + "\n"] &&
      Deliver(s, memory).timer == Disarmed
    ensures !(memory && OldAccepts(s.mode, s.frame.data0, s.frame.data1)) ==>
      Deliver(s, memory).records == s.records && Deliver(s, memory).timer == s.timer
  {
    OldEmptyIff(s.mode, s.frame.data0, s.frame.data1);
  }

  // ---------------------------------------------------------------- reads

  /**
   * On an empty queue a non-blocking read returns 0 and a blocking one
   * ends only by a signal; neither changes anything.
   */
  lemma ReadEmpty(s: State, nonblock: bool, interrupted: bool, count: nat)
    requires s.records == []
    ensures ReadStep(s, nonblock, interrupted, count, 0) ==
      (s, Reply(if !nonblock then -ERESTARTSYS else if interrupted then -EINTR else 0, []))
  {
  }

  /** A read from the start of the head record with room for all of it returns the whole record and drops it. */
  lemma ReadWhole(s: State, nonblock: bool, count: nat)
    requires s.records != [] && s.fpos == 0 && count >= |Stored(s.records[0])|
    ensures ReadStep(s, nonblock, false, count, 0) ==
      (s.(records := s.records[1..]), Reply(|Stored(s.records[0])|, Stored(s.records[0])))
  {
    var data := Stored(s.records[0]);
    assert data[0..|data|] == data;
  }

  /**
   * The bytes that reads of at most count bytes each return from the file
   * position on, until the head record is dropped, and the state then.
   */
  function Chunks(s: State, count: nat): (State, string)
    requires s.records != [] && s.fpos <= |s.records[0]| && count >= 1
    decreases |Stored(s.records[0])| - s.fpos
  {
    var p := ReadStep(s, true, false, count, 0);
    if |p.0.records| < |s.records| then (p.0, p.1.bytes)
    else
      var q := Chunks(p.0, count);
      (q.0, p.1.bytes + q.1)
  }

  /**
   * However small the reads, a reader that keeps reading gets the rest of
   * the head record, its NUL included, exactly once, and then the record is
   * dropped and the position is back at 0.
   */
  lemma {:induction false} ChunksDeliver(s: State, count: nat)
    requires s.records != [] && s.fpos <= |s.records[0]| && count >= 1
    ensures Chunks(s, count) == (s.(fpos := 0, records := s.records[1..]), Stored(s.records[0])[s.fpos..])
    decreases |Stored(s.records[0])| - s.fpos
  {
    var data := Stored(s.records[0]);
    var n := Min(|data| - s.fpos, count);
    var p := ReadStep(s, true, false, count, 0);
    assert p.1.bytes == data[s.fpos..s.fpos + n];
    if s.fpos + n <= |s.records[0]| {
      assert p.0 == s.(fpos := s.fpos + n);
      ChunksDeliver(p.0, count);
      assert data[s.fpos..] == data[s.fpos..s.fpos + n] + data[s.fpos + n..];
    } else {
      assert s.fpos + n == |data|;
      assert p.0 == s.(fpos := 0, records := s.records[1..]);
      assert data[s.fpos..s.fpos + n] == data[s.fpos..];
    }
  }

  /**
   * As written, a read that stops short of the end of the head record sets
   * the file position to the number of bytes it copied.
   */
  lemma ReadShortAsWritten(s: State, nonblock: bool, count: nat)
    requires s.records != [] && s.fpos == 0 && 1 <= count <= |s.records[0]|
    ensures ReadStepAsWritten(s, nonblock, false, count, 0) == (s.(fpos := count), Reply(count, Stored(s.records[0])[..count]))
  {
  }

  /**
   * As written, once the position equals the read size and two reads'
   * worth of bytes fit in the record, every further read returns the same
   * bytes and leaves the state as it is: the record is never dropped.
   */
  lemma ReadStuckAsWritten(s: State, nonblock: bool, count: nat)
    requires s.records != [] && 1 <= count && s.fpos == count && 2 * count <= |Stored(s.records[0])|
    ensures ReadStepAsWritten(s, nonblock, false, count, 0) == (s, Reply(count, Stored(s.records[0])[count..2 * count]))
  {
  }

  /**
   * The record of key 1 in mode 0, read 4 bytes at a time.  As written,
   * the first read returns "M=0," and the position becomes 4; from there
   * every read returns " K=1" and changes nothing.  With the position
   * advanced, the reads deliver the record and its NUL and drop it.
   */
  lemma ReadExample(s: State)
    requires s.records == ["M=0, K=1\n"] && s.fpos == 0
    ensures ReadStepAsWritten(s, true, false, 4, 0) == (s.(fpos := 4), Reply(4, "M=0,"))
    ensures ReadStepAsWritten(s.(fpos := 4), true, false, 4, 0) == (s.(fpos := 4), Reply(4, " K=1"))
    ensures Chunks(s, 4) == (s.(records := []), "M=0, K=1\n" + [NUL])
  {
    var data := Stored(s.records[0]);
    assert data == "M=0, K=1\n" + [NUL];
    assert data[..4] == "M=0,";
    assert data[4..8] == " K=1";
    assert data[0..] == data;
    ReadShortAsWritten(s, true, 4);
    ReadStuckAsWritten(s.(fpos := 4), true, 4);
    ChunksDeliver(s, 4);
  }

  // ---------------------------------------------------------------- open and release

  /** While the device is open, every further open is refused and changes nothing. */
  lemma SingleOpen(s: State, writable: bool, interrupted: bool)
    requires s.isOpen
    ensures OpenStep(s, writable, interrupted).0 == s
    ensures OpenStep(s, writable, interrupted).1 ==
      if writable then -EACCES else if interrupted then -EINTR else -EBUSY
  {
  }

  /** After a successful open, the next read-only open is busy. */
  lemma OpenTwice(s: State)
    requires !s.isOpen
    ensures OpenStep(OpenStep(s, false, false).0, false, false) == (OpenStep(s, false, false).0, -EBUSY)
  {
  }

  /**
   * A close that a signal interrupts leaves the device open, so the
   * device refuses opens until a later close gets through; a close that
   * gets through lets the next open succeed.
   */
  lemma ReleaseThenOpen(s: State, nonblock: bool, interrupted: bool)
    requires s.isOpen
    ensures OpenStep(ReleaseStep(s, nonblock, interrupted).0, false, false).1 == if interrupted then -EBUSY else 0
  {
  }

  /**
   * A non-blocking close keeps the queue and the power: the records are
   * still there for the next session.  A blocking close discards them all
   * and switches the keypad off.
   */
  lemma ReleaseKeeps(s: State, nonblock: bool)
    requires s.isOpen
    ensures nonblock ==> ReleaseStep(s, nonblock, false) == (s.(isOpen := false), 0)
    ensures !nonblock ==> ReleaseStep(s, nonblock, false) == (s.(isOpen := false, records := [], power := false), 0)
  {
  }

  // ---------------------------------------------------------------- the timer function

  /**
   * The timer function run for each of the read-back levels rs in turn,
   * for as long as the timer stays pending.
   */
  function Cycles(p: Supply, rs: seq<bool>): (q: Supply)
    requires p.state <= 5
    ensures q.state <= 5
    decreases |rs|
  {
    if rs == [] || p.timer == Disarmed then p else Cycles(Cycle(p, rs[0]), rs[1..])
  }

  /**
   * From state 0 the timer function switches the power on and then looks
   * at the pin three times: the first time it reads high the timer stops
   * in state 5 with the power on; when it reads low all three times the
   * function reaches state 4.
   */
  lemma PowerUp(p: Supply, r0: bool, r1: bool, r2: bool, r3: bool)
    requires p.state == 0 && p.timer != Disarmed
    ensures Cycles(p, [r0, r1, r2, r3]) ==
      if r1 || r2 || r3 then Supply(true, 5, Disarmed) else Supply(true, 4, After(Half))
  {
    var q1 := Supply(true, 1, After(Half));
    assert Cycles(p, [r0, r1, r2, r3]) == Cycles(q1, [r1, r2, r3]) by {
      assert [r0, r1, r2, r3][1..] == [r1, r2, r3];
    }
    var q2 := Cycle(q1, r1);
    assert Cycles(q1, [r1, r2, r3]) == Cycles(q2, [r2, r3]) by {
      assert [r1, r2, r3][1..] == [r2, r3];
    }
    if !r1 {
      var q3 := Cycle(q2, r2);
      assert Cycles(q2, [r2, r3]) == Cycles(q3, [r3]) by {
        assert [r2, r3][1..] == [r3];
      }
      if !r2 {
        assert Cycles(q3, [r3]) == Cycles(Cycle(q3, r3), []);
      }
    }
  }

  /** In state 4 the function gives up, keeping the power, and starts over at the absolute expiry 60*HZ. */
  lemma PowerGivesUp(p: Supply, readBack: bool)
    requires p.state == 4
    ensures Cycle(p, readBack) == Supply(p.power, 0, At(Minute))
  {
  }

  /**
   * A frame the thread does not queue (the decoder rejects it or there
   * is no memory) leaves the frame timeout pending; when it expires with
   * the power confirmed on (state 5), the keypad is switched off and the
   * power-up starts over a second later.
   */
  lemma UnqueuedFramePowerCycles(s: State, memory: bool, readBack: bool)
    requires Invariant(s) && s.powerState == 5 && s.timer == After(Tenth)
    requires !(memory && OldAccepts(s.mode, s.frame.data0, s.frame.data1))
    ensures Deliver(s, memory).timer == After(Tenth)
    ensures Expire(Deliver(s, memory), readBack).power == false
    ensures Expire(Deliver(s, memory), readBack).powerState == 0
    ensures Expire(Deliver(s, memory), readBack).timer == After(Second)
  {
    DeliverQueues(s, memory);
  }

  /** A queued frame cancels the frame timeout, so the power stays as it is. */
  lemma QueuedFrameKeepsPower(s: State, memory: bool)
    requires Invariant(s) && memory && OldAccepts(s.mode, s.frame.data0, s.frame.data1)
    ensures Deliver(s, memory).timer == Disarmed && Deliver(s, memory).power == s.power
  {
    DeliverQueues(s, memory);
  }
}
