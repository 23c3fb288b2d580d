/**
 * The older decoder generation inside ay-d19m.c.  The driver samples both
 * Wiegand lines into two words, `code0` (D0) and `code1` (D1); a decoder
 * first checks that the two are bitwise complements over the frame, then
 * checks parity by shifting two windows of `code0` right one bit at a
 * time, and prints a short text without result code or bit count.  A
 * rejected frame leaves the empty string.
 *
 * Each decoder is reached only through `ffmt[ay_d19m_mode]`, so the mode
 * it prints is its own index in `ffmt`, and the `wiegandMask` it reads is
 * `1 << wiegandLength[ay_d19m_mode]` for that same index.
 */
module Legacy {
  import opened Bits
  import opened Text
  import opened Formats
  import opened Decoder

  /** `wiegandLength`: the frame length minus one (the position of EP) for the modes 0..7. */
  const WiegandLength: seq<bv32> := [5, 5, 7, 25, 25, 25, 0, 0]

  /** The eight modes `ffmt` and `wiegandLength` are indexed by; WIEGAND26 belongs to the newer decoders only. */
  predicate DriverMode(m: Mode)
  {
    m != WIEGAND26
  }

  /** `wiegandMask`: the bit of the first (EP) line transition of a frame. */
  function MaskOf(m: Mode): bv32
    requires DriverMode(m)
  {
    (1 as bv32) << WiegandLength[m.Id()]
  }

  /**
   * The mask covers the whole frame: twice the mask minus one (every frame
   * bit set) is the value each decoder's complement check demands of
   * `code0 ^ code1`, and the two unsupported modes have one-bit frames.
   */
  lemma MaskCoversFrame(m: Mode)
    requires DriverMode(m)
    ensures m == SKW06RF || m == SKW06NP ==> 2 * MaskOf(m) - 1 == 0x3F
    ensures m == SKW08NC ==> 2 * MaskOf(m) - 1 == 0xFF
    ensures m == K4W26BF || m == K5W26FC || m == K6W26BCD ==> 2 * MaskOf(m) - 1 == 0x3FF_FFFF
    ensures m == SK3X4MX || m == K8CDBCD ==> MaskOf(m) == 1
  {
  }

  // ---------------------------------------------------------------- parity

  /**
   * The older check: EP (bit hi, the mask bit) equals the XOR of the k bits
   * below it, and OP (bit 0) equals 1 XOR the k bits above it.
   */
  predicate OldParityOk(code0: bv32, hi: bv32, k: bv32)
    requires k < hi < 32
  {
    BitAt(code0, hi) == Par(code0, hi - k, hi) && BitAt(code0, 0) == !Par(code0, 1, 1 + k)
  }

  /** On 6-bit frames the older check is the newer one. */
  lemma OldKeypadParity(code0: bv32)
    ensures OldParityOk(code0, 5, 2) <==> KeypadParityOk(code0)
  {
    ParSplit(code0, 0, 1, 3);
    ParStep(code0, 0, 0);
    ParStep(code0, 3, 5);
  }

  /** On 26-bit frames the older check is the newer one. */
  lemma OldCardParity(code0: bv32)
    ensures OldParityOk(code0, 25, 12) <==> CardParityOk(code0)
  {
    ParSplit(code0, 0, 1, 13);
    ParStep(code0, 0, 0);
    ParStep(code0, 13, 25);
  }

  /** XOR of two C truth values. */
  lemma XorB2W(a: bool, b: bool)
    ensures B2W(a) ^ B2W(b) == B2W(a != b)
  {
  }

  lemma LowBitB2W(x: bv32)
    ensures x & 1 == B2W(x & 1 != 0)
  {
  }

  /** One step of the loop: XOR-ing in bit 0 and shifting keeps "accumulator XOR rest = total". */
  lemma FoldStep(total: bool, x: bv32, rem: nat, c: bv32)
    requires rem != 0 && c == B2W(total != ShiftPar(x, rem))
    ensures c ^ (x & 1) == B2W(total != ShiftPar(x >> 1, rem - 1))
  {
    LowBitB2W(x);
    XorB2W(total != ShiftPar(x, rem), x & 1 != 0);
  }

  /**
   * The loop of the older decoders: `cep` starts at 0 and `cop` at 1, and
   * each of the k steps XORs in bit 0 of `dep` and `dop` and shifts both right.
   */
  method ShiftFold(dep0: bv32, dop0: bv32, k: nat) returns (cep: bv32, cop: bv32)
    ensures cep == B2W(ShiftPar(dep0, k)) && cop == B2W(!ShiftPar(dop0, k))
  {
    cep, cop := 0, 1;
    var dep, dop := dep0, dop0;
    for i := 0 to k
      invariant cep == B2W(ShiftPar(dep0, k) != ShiftPar(dep, k - i))
      invariant cop == B2W(!ShiftPar(dop0, k) != ShiftPar(dop, k - i))
    {
      FoldStep(ShiftPar(dep0, k), dep, k - i, cep);
      FoldStep(!ShiftPar(dop0, k), dop, k - i, cop);
      cep := cep ^ (dep & 1);
      cop := cop ^ (dop & 1);
      dep := dep >> 1;
      dop := dop >> 1;
    }
  }

  lemma HighKeyWindow(c: bv32)
    ensures Par(0x7 & (c >> 3), 0, 2) == Par(c, 3, 5)
  {
    ParStep(0x7 & (c >> 3), 0, 0);
    ParStep(0x7 & (c >> 3), 0, 1);
    ParStep(c, 3, 3);
    ParStep(c, 3, 4);
  }

  lemma LowKeyWindow(c: bv32)
    ensures Par(0x7 & (c >> 1), 0, 2) == Par(c, 1, 3)
  {
    ParStep(0x7 & (c >> 1), 0, 0);
    ParStep(0x7 & (c >> 1), 0, 1);
    ParStep(c, 1, 1);
    ParStep(c, 1, 2);
  }

  /** Bit i of the 12-bit window `0xFFF & (c >> 13)` is bit 13+i of c. */
  lemma HighWindowBit(c: bv32, i: bv32)
    requires i < 12
    ensures BitAt(0xFFF & (c >> 13), i) == BitAt(c, 13 + i)
  {
  }

  /** Bit i of the 12-bit window `0xFFF & (c >> 1)` is bit 1+i of c. */
  lemma LowWindowBit(c: bv32, i: bv32)
    requires i < 12
    ensures BitAt(0xFFF & (c >> 1), i) == BitAt(c, 1 + i)
  {
  }

  lemma {:induction false} HighWindowPar(c: bv32, k: bv32)
    requires k <= 12
    ensures Par(0xFFF & (c >> 13), 0, k) == Par(c, 13, 13 + k)
  {
    if k > 0 {
      HighWindowPar(c, k - 1);
      HighWindowBit(c, k - 1);
    }
  }

  lemma {:induction false} LowWindowPar(c: bv32, k: bv32)
    requires k <= 12
    ensures Par(0xFFF & (c >> 1), 0, k) == Par(c, 1, 1 + k)
  {
    if k > 0 {
      LowWindowPar(c, k - 1);
      LowWindowBit(c, k - 1);
    }
  }

  /** `ep == cep && op == cop` of the 6-bit decoders, with their windows and two steps, is the older check. */
  lemma KeypadFold(code0: bv32, cep: bv32, cop: bv32)
    requires cep == B2W(ShiftPar(0x7 & (code0 >> 3), 2)) && cop == B2W(!ShiftPar(0x7 & (code0 >> 1), 2))
    ensures (B2W(code0 & 0x20 != 0) == cep && code0 & 1 == cop) == OldParityOk(code0, 5, 2)
  {
    assert SameCount(2, 2);
    ShiftParIsPar(0x7 & (code0 >> 3), 2, 2);
    ShiftParIsPar(0x7 & (code0 >> 1), 2, 2);
    HighKeyWindow(code0);
    LowKeyWindow(code0);
    LowBitB2W(code0);
  }

  /** The same for the 26-bit decoders, with their 12-bit windows and twelve steps. */
  lemma CardFold(code0: bv32, cep: bv32, cop: bv32)
    requires cep == B2W(ShiftPar(0xFFF & (code0 >> 13), 12)) && cop == B2W(!ShiftPar(0xFFF & (code0 >> 1), 12))
    ensures (B2W(code0 & 0x200_0000 != 0) == cep && code0 & 1 == cop) == OldParityOk(code0, 25, 12)
  {
    assert SameCount(12, 12);
    ShiftParIsPar(0xFFF & (code0 >> 13), 12, 12);
    ShiftParIsPar(0xFFF & (code0 >> 1), 12, 12);
    HighWindowPar(code0, 12);
    LowWindowPar(code0, 12);
    LowBitB2W(code0);
  }

  /** `fmt_K6W26BCD` takes its windows from the 24 data bits; they are the same windows of the frame. */
  lemma BcdWindows(code0: bv32)
    ensures 0xFFF & (((code0 >> 1) & 0xFF_FFFF) >> 12) == 0xFFF & (code0 >> 13)
    ensures 0xFFF & ((code0 >> 1) & 0xFF_FFFF) == 0xFFF & (code0 >> 1)
  {
  }

  /** `ep == cep && op == cop` of `fmt_K6W26BCD`, with its windows of the data bits, is the older check. */
  lemma BcdFold(code0: bv32, code: bv32, cep: bv32, cop: bv32)
    requires code == (code0 >> 1) & 0xFF_FFFF
    requires cep == B2W(ShiftPar(0xFFF & (code >> 12), 12)) && cop == B2W(!ShiftPar(0xFFF & code, 12))
    ensures (B2W(code0 & 0x200_0000 != 0) == cep && code0 & 1 == cop) == OldParityOk(code0, 25, 12)
  {
    BcdWindows(code0);
    CardFold(code0, cep, cop);
  }

  // ---------------------------------------------------------------- texts

  /** The key the older SKW06RF decoder prints: 10 is '0', 11 is '*', 14 is '#', anything else `'0' + code`. */
  function OldRFKey(code: bv32): (c: char)
    requires code < 16
    ensures c != NUL
  {
    if code == 10 then '0' else if code == 11 then '*' else if code == 14 then '#' else DigitKey(code)
  }

  /** `"M=%d, K=%c"`. */
  function KeyText(m: Mode, key: char): string
  {
    "M=" + Dec(m.Id()) + ", K=" + [key]
  }

  /** `"M=%d, F=%d, C=%d\n"`. */
  function CardText(m: Mode, facility: nat, code: nat): string
  {
    "M=" + Dec(m.Id()) + ", F=" + Dec(facility) + ", C=" + Dec(code) + "\n"
  }

  /** `"M=%d,C=%6.6x\n"`: the 24 data bits in at least six lower-case hexadecimal digits. */
  function BcdText(m: Mode, code: nat): string
  {
    "M=" + Dec(m.Id()) + ",C=" + HexPad(code, 6, false) + "\n"
  }

  /** `"Error: Unsupported mode %d"`. */
  function UnsupportedText(m: Mode): string
  {
    "Error: Unsupported mode " + Dec(m.Id())
  }

  lemma KeyTextNoNul(m: Mode, key: char)
    requires key != NUL
    ensures NUL !in KeyText(m, key)
  {
    DecNoNul(m.Id());
  }

  lemma CardTextNoNul(m: Mode, facility: nat, code: nat)
    ensures NUL !in CardText(m, facility, code)
  {
    DecNoNul(m.Id());
    DecNoNul(facility);
    DecNoNul(code);
  }

  lemma BcdTextNoNul(m: Mode, code: nat)
    ensures NUL !in BcdText(m, code)
  {
    DecNoNul(m.Id());
    HexPadNoNul(code, 6, false);
  }

  lemma UnsupportedTextNoNul(m: Mode)
    ensures NUL !in UnsupportedText(m)
  {
    DecNoNul(m.Id());
  }

  /** What `fmt_SKW06RF` prints when the buffer is large enough; "" when it rejects the frame. */
  function RFDecode(code0: bv32, code1: bv32): string
  {
    if code0 ^ code1 == 0x3F && OldParityOk(code0, WiegandLength[0], 2) then KeyText(SKW06RF, OldRFKey(KeyCode(code0)))
    else ""
  }

  /** What `fmt_SKW06NP` prints. */
  function NPDecode(code0: bv32, code1: bv32): string
  {
    if code0 ^ code1 == 0x3F && OldParityOk(code0, WiegandLength[1], 2) then KeyText(SKW06NP, NCKey(KeyCode(code0)))
    else ""
  }

  /** What `fmt_SKW08NC` prints: no parity, only the complement of the two words and of the two nibbles. */
  function NCDecode(code0: bv32, code1: bv32): string
  {
    if code0 ^ code1 == 0xFF && (code0 & 0xF) ^ ((code0 >> 4) & 0xF) == 0xF then KeyText(SKW08NC, NCKey(code0 & 0xF))
    else ""
  }

  /** What `fmt_K4W26BF` (mode K4W26BF) and `fmt_K5W26FC` (mode K5W26FC) print. */
  function CardDecode(m: Mode, code0: bv32, code1: bv32): string
    requires m == K4W26BF || m == K5W26FC
  {
    if code0 ^ code1 == 0x3FF_FFFF && OldParityOk(code0, WiegandLength[m.Id()], 12)
    then CardText(m, ((code0 >> 17) & 0xFF) as nat, ((code0 >> 1) & 0xFFFF) as nat)
    else ""
  }

  /** What `fmt_K6W26BCD` prints. */
  function BcdDecode(code0: bv32, code1: bv32): string
  {
    if code0 ^ code1 == 0x3FF_FFFF && OldParityOk(code0, WiegandLength[5], 12) then BcdText(K6W26BCD, ((code0 >> 1) & 0xFF_FFFF) as nat)
    else ""
  }

  /** What `ffmt[m](code0, code1, ...)` prints when the buffer is large enough; "" when it rejects the frame. */
  function OldDecode(m: Mode, code0: bv32, code1: bv32): string
    requires DriverMode(m)
  {
    match m
    case SKW06RF => RFDecode(code0, code1)
    case SKW06NP => NPDecode(code0, code1)
    case SKW08NC => NCDecode(code0, code1)
    case K4W26BF => CardDecode(m, code0, code1)
    case K5W26FC => CardDecode(m, code0, code1)
    case K6W26BCD => BcdDecode(code0, code1)
    case SK3X4MX => UnsupportedText(m)
    case K8CDBCD => UnsupportedText(m)
  }

  /** Whether the decoder of mode m prints anything for the sampled words. */
  predicate OldAccepts(m: Mode, code0: bv32, code1: bv32)
    requires DriverMode(m)
  {
    match m
    case SKW06RF => code0 ^ code1 == 0x3F && OldParityOk(code0, WiegandLength[0], 2)
    case SKW06NP => code0 ^ code1 == 0x3F && OldParityOk(code0, WiegandLength[1], 2)
    case SKW08NC => code0 ^ code1 == 0xFF && (code0 & 0xF) ^ ((code0 >> 4) & 0xF) == 0xF
    case K4W26BF => code0 ^ code1 == 0x3FF_FFFF && OldParityOk(code0, WiegandLength[3], 12)
    case K5W26FC => code0 ^ code1 == 0x3FF_FFFF && OldParityOk(code0, WiegandLength[4], 12)
    case K6W26BCD => code0 ^ code1 == 0x3FF_FFFF && OldParityOk(code0, WiegandLength[5], 12)
    case SK3X4MX => true
    case K8CDBCD => true
  }

  /** What `fmt_SKW06RF` prints for a complemented pair whose loop outcome matches EP and OP. */
  lemma RFAccepted(code0: bv32, code1: bv32, cep: bv32, cop: bv32)
    requires code0 ^ code1 == 0x3F
    requires cep == B2W(ShiftPar(0x7 & (code0 >> 3), 2)) && cop == B2W(!ShiftPar(0x7 & (code0 >> 1), 2))
    requires B2W(code0 & MaskOf(SKW06RF) != 0) == cep && code0 & 1 == cop
    ensures RFDecode(code0, code1) == KeyText(SKW06RF, OldRFKey(KeyCode(code0)))
  {
    assert MaskOf(SKW06RF) == 0x20;
    KeypadFold(code0, cep, cop);
  }

  /** What `fmt_SKW06RF` prints nothing when the loop outcome differs from EP or OP. */
  lemma RFRejected(code0: bv32, code1: bv32, cep: bv32, cop: bv32)
    requires cep == B2W(ShiftPar(0x7 & (code0 >> 3), 2)) && cop == B2W(!ShiftPar(0x7 & (code0 >> 1), 2))
    requires !(B2W(code0 & MaskOf(SKW06RF) != 0) == cep && code0 & 1 == cop)
    ensures RFDecode(code0, code1) == ""
  {
    assert MaskOf(SKW06RF) == 0x20;
    KeypadFold(code0, cep, cop);
  }

  /** What `fmt_SKW06NP` prints for a complemented pair whose loop outcome matches EP and OP. */
  lemma NPAccepted(code0: bv32, code1: bv32, cep: bv32, cop: bv32)
    requires code0 ^ code1 == 0x3F
    requires cep == B2W(ShiftPar(0x7 & (code0 >> 3), 2)) && cop == B2W(!ShiftPar(0x7 & (code0 >> 1), 2))
    requires B2W(code0 & MaskOf(SKW06NP) != 0) == cep && code0 & 1 == cop
    ensures NPDecode(code0, code1) == KeyText(SKW06NP, NCKey(KeyCode(code0)))
  {
    assert MaskOf(SKW06NP) == 0x20;
    KeypadFold(code0, cep, cop);
  }

  /** What `fmt_SKW06NP` prints nothing when the loop outcome differs from EP or OP. */
  lemma NPRejected(code0: bv32, code1: bv32, cep: bv32, cop: bv32)
    requires cep == B2W(ShiftPar(0x7 & (code0 >> 3), 2)) && cop == B2W(!ShiftPar(0x7 & (code0 >> 1), 2))
    requires !(B2W(code0 & MaskOf(SKW06NP) != 0) == cep && code0 & 1 == cop)
    ensures NPDecode(code0, code1) == ""
  {
    assert MaskOf(SKW06NP) == 0x20;
    KeypadFold(code0, cep, cop);
  }

  /** What `fmt_K4W26BF` and `fmt_K5W26FC` print for a complemented pair whose loop outcome matches EP and OP. */
  lemma CardAccepted(m: Mode, code0: bv32, code1: bv32, cep: bv32, cop: bv32)
    requires m == K4W26BF || m == K5W26FC
    requires code0 ^ code1 == 0x3FF_FFFF
    requires cep == B2W(ShiftPar(0xFFF & (code0 >> 13), 12)) && cop == B2W(!ShiftPar(0xFFF & (code0 >> 1), 12))
    requires B2W(code0 & MaskOf(m) != 0) == cep && code0 & 1 == cop
    ensures CardDecode(m, code0, code1) == CardText(m, ((code0 >> 17) & 0xFF) as nat, ((code0 >> 1) & 0xFFFF) as nat)
  {
    assert MaskOf(m) == 0x200_0000;
    CardFold(code0, cep, cop);
  }

  /** What `fmt_K4W26BF` and `fmt_K5W26FC` print nothing when the loop outcome differs from EP or OP. */
  lemma CardRejected(m: Mode, code0: bv32, code1: bv32, cep: bv32, cop: bv32)
    requires m == K4W26BF || m == K5W26FC
    requires cep == B2W(ShiftPar(0xFFF & (code0 >> 13), 12)) && cop == B2W(!ShiftPar(0xFFF & (code0 >> 1), 12))
    requires !(B2W(code0 & MaskOf(m) != 0) == cep && code0 & 1 == cop)
    ensures CardDecode(m, code0, code1) == ""
  {
    assert MaskOf(m) == 0x200_0000;
    CardFold(code0, cep, cop);
  }

  /** What `fmt_K6W26BCD` prints for a complemented pair whose loop outcome matches EP and OP. */
  lemma BcdAccepted(code0: bv32, code1: bv32, code: bv32, cep: bv32, cop: bv32)
    requires code0 ^ code1 == 0x3FF_FFFF
    requires code == (code0 >> 1) & 0xFF_FFFF
    requires cep == B2W(ShiftPar(0xFFF & (code >> 12), 12)) && cop == B2W(!ShiftPar(0xFFF & code, 12))
    requires B2W(code0 & MaskOf(K6W26BCD) != 0) == cep && code0 & 1 == cop
    ensures BcdDecode(code0, code1) == BcdText(K6W26BCD, ((code0 >> 1) & 0xFF_FFFF) as nat)
  {
    assert MaskOf(K6W26BCD) == 0x200_0000;
    BcdFold(code0, code, cep, cop);
  }

  /** What `fmt_K6W26BCD` prints nothing when the loop outcome differs from EP or OP. */
  lemma BcdRejected(code0: bv32, code1: bv32, code: bv32, cep: bv32, cop: bv32)
    requires code == (code0 >> 1) & 0xFF_FFFF
    requires cep == B2W(ShiftPar(0xFFF & (code >> 12), 12)) && cop == B2W(!ShiftPar(0xFFF & code, 12))
    requires !(B2W(code0 & MaskOf(K6W26BCD) != 0) == cep && code0 & 1 == cop)
    ensures BcdDecode(code0, code1) == ""
  {
    assert MaskOf(K6W26BCD) == 0x200_0000;
    BcdFold(code0, code, cep, cop);
  }

  // ---------------------------------------------------------------- decoders

  /** `fmt_SKW06RF`. */
  method OldSKW06RF(code0: bv32, code1: bv32, buffer: array<char>, bsz: nat) returns (n: nat)
    requires 1 <= bsz <= buffer.Length
    modifies buffer
    ensures n < bsz && n == |Fit(RFDecode(code0, code1), bsz)|
    ensures buffer[..n] == Fit(RFDecode(code0, code1), bsz) && buffer[n] == NUL
    ensures buffer[n + 1..] == old(buffer[n + 1..])
  {
    if code0 ^ code1 == 0x3F {
      var ep := B2W(code0 & MaskOf(SKW06RF) != 0);
      var op := code0 & 1;
      var code := (code0 >> 1) & 0xF;
      var cep, cop := ShiftFold(0x7 & (code0 >> 3), 0x7 & (code0 >> 1), 2);
      if ep == cep && op == cop {
        RFAccepted(code0, code1, cep, cop);
        var key;
        if code == 10 {
          key := '0';
        } else if code == 11 {
          key := '*';
        } else if code == 14 {
          key := '#';
        } else {
          key := DigitKey(code);
        }
        KeyTextNoNul(SKW06RF, key);
        n := Emit(buffer, bsz, KeyText(SKW06RF, key));
      } else {
        RFRejected(code0, code1, cep, cop);
        n := Clear(buffer, bsz);
      }
    } else {
      n := Clear(buffer, bsz);
    }
  }

  /** `fmt_SKW06NP`. */
  method OldSKW06NP(code0: bv32, code1: bv32, buffer: array<char>, bsz: nat) returns (n: nat)
    requires 1 <= bsz <= buffer.Length
    modifies buffer
    ensures n < bsz && n == |Fit(NPDecode(code0, code1), bsz)|
    ensures buffer[..n] == Fit(NPDecode(code0, code1), bsz) && buffer[n] == NUL
    ensures buffer[n + 1..] == old(buffer[n + 1..])
  {
    if code0 ^ code1 == 0x3F {
      var ep := B2W(code0 & MaskOf(SKW06NP) != 0);
      var op := code0 & 1;
      var code := (code0 >> 1) & 0xF;
      var cep, cop := ShiftFold(0x7 & (code0 >> 3), 0x7 & (code0 >> 1), 2);
      if ep == cep && op == cop {
        NPAccepted(code0, code1, cep, cop);
        var key;
        if code == 10 {
          key := '*';
        } else if code == 11 {
          key := '#';
        } else {
          key := DigitKey(code);
        }
        KeyTextNoNul(SKW06NP, key);
        n := Emit(buffer, bsz, KeyText(SKW06NP, key));
      } else {
        NPRejected(code0, code1, cep, cop);
        n := Clear(buffer, bsz);
      }
    } else {
      n := Clear(buffer, bsz);
    }
  }

  /** `fmt_SKW08NC`: no parity, only the complement of the two words and of the two nibbles. */
  method OldSKW08NC(code0: bv32, code1: bv32, buffer: array<char>, bsz: nat) returns (n: nat)
    requires 1 <= bsz <= buffer.Length
    modifies buffer
    ensures n < bsz && n == |Fit(NCDecode(code0, code1), bsz)|
    ensures buffer[..n] == Fit(NCDecode(code0, code1), bsz) && buffer[n] == NUL
    ensures buffer[n + 1..] == old(buffer[n + 1..])
  {
    var code := code0 & 0xF;
    var icode := (code0 >> 4) & 0xF;
    if code0 ^ code1 == 0xFF && code ^ icode == 0xF {
      var key;
      if code == 10 {
        key := '*';
      } else if code == 11 {
        key := '#';
      } else {
        key := DigitKey(code);
      }
      KeyTextNoNul(SKW08NC, key);
      n := Emit(buffer, bsz, KeyText(SKW08NC, key));
    } else {
      n := Clear(buffer, bsz);
    }
  }

  /** `fmt_K4W26BF` (mode K4W26BF) and `fmt_K5W26FC` (mode K5W26FC), which differ only in the mode printed. */
  method OldCard(m: Mode, code0: bv32, code1: bv32, buffer: array<char>, bsz: nat) returns (n: nat)
    requires m == K4W26BF || m == K5W26FC
    requires 1 <= bsz <= buffer.Length
    modifies buffer
    ensures n < bsz && n == |Fit(CardDecode(m, code0, code1), bsz)|
    ensures buffer[..n] == Fit(CardDecode(m, code0, code1), bsz) && buffer[n] == NUL
    ensures buffer[n + 1..] == old(buffer[n + 1..])
  {
    if code0 ^ code1 == 0x3FF_FFFF {
      var ep := B2W(code0 & MaskOf(m) != 0);
      var op := code0 & 1;
      var code := (code0 >> 1) & 0xFFFF;
      var facility := (code0 >> 17) & 0xFF;
      var cep, cop := ShiftFold(0xFFF & (code0 >> 13), 0xFFF & (code0 >> 1), 12);
      if ep == cep && op == cop {
        CardAccepted(m, code0, code1, cep, cop);
        CardTextNoNul(m, facility as nat, code as nat);
        n := Emit(buffer, bsz, CardText(m, facility as nat, code as nat));
      } else {
        CardRejected(m, code0, code1, cep, cop);
        n := Clear(buffer, bsz);
      }
    } else {
      n := Clear(buffer, bsz);
    }
  }

  /** `fmt_K6W26BCD`. */
  method OldK6W26BCD(code0: bv32, code1: bv32, buffer: array<char>, bsz: nat) returns (n: nat)
    requires 1 <= bsz <= buffer.Length
    modifies buffer
    ensures n < bsz && n == |Fit(BcdDecode(code0, code1), bsz)|
    ensures buffer[..n] == Fit(BcdDecode(code0, code1), bsz) && buffer[n] == NUL
    ensures buffer[n + 1..] == old(buffer[n + 1..])
  {
    if code0 ^ code1 == 0x3FF_FFFF {
      var ep := B2W(code0 & MaskOf(K6W26BCD) != 0);
      var op := code0 & 1;
      var code := (code0 >> 1) & 0xFF_FFFF;
      var cep, cop := ShiftFold(0xFFF & (code >> 12), 0xFFF & code, 12);
      if ep == cep && op == cop {
        BcdAccepted(code0, code1, code, cep, cop);
        BcdTextNoNul(K6W26BCD, code as nat);
        n := Emit(buffer, bsz, BcdText(K6W26BCD, code as nat));
      } else {
        BcdRejected(code0, code1, code, cep, cop);
        n := Clear(buffer, bsz);
      }
    } else {
      n := Clear(buffer, bsz);
    }
  }

  /** `fmt_SK3X4MX` (mode SK3X4MX) and `fmt_K8CDBCD` (mode K8CDBCD): an error text whatever was received. */
  method OldUnsupported(m: Mode, code0: bv32, code1: bv32, buffer: array<char>, bsz: nat) returns (n: nat)
    requires m == SK3X4MX || m == K8CDBCD
    requires 1 <= bsz <= buffer.Length
    modifies buffer
    ensures n < bsz && n == |Fit(UnsupportedText(m), bsz)|
    ensures buffer[..n] == Fit(UnsupportedText(m), bsz) && buffer[n] == NUL
    ensures buffer[n + 1..] == old(buffer[n + 1..])
  {
    UnsupportedTextNoNul(m);
    n := Emit(buffer, bsz, UnsupportedText(m));
  }

  /** `ffmt[m](code0, code1, buffer, bsz)`. */
  method Ffmt(m: Mode, code0: bv32, code1: bv32, buffer: array<char>, bsz: nat) returns (n: nat)
    requires DriverMode(m)
    requires 1 <= bsz <= buffer.Length
    modifies buffer
    ensures n < bsz && n == |Fit(OldDecode(m, code0, code1), bsz)|
    ensures buffer[..n] == Fit(OldDecode(m, code0, code1), bsz) && buffer[n] == NUL
    ensures buffer[n + 1..] == old(buffer[n + 1..])
  {
    match m
    case SKW06RF => n := OldSKW06RF(code0, code1, buffer, bsz);
    case SKW06NP => n := OldSKW06NP(code0, code1, buffer, bsz);
    case SKW08NC => n := OldSKW08NC(code0, code1, buffer, bsz);
    case K4W26BF => n := OldCard(m, code0, code1, buffer, bsz);
    case K5W26FC => n := OldCard(m, code0, code1, buffer, bsz);
    case K6W26BCD => n := OldK6W26BCD(code0, code1, buffer, bsz);
    case SK3X4MX => n := OldUnsupported(m, code0, code1, buffer, bsz);
    case K8CDBCD => n := OldUnsupported(m, code0, code1, buffer, bsz);
  }
}
