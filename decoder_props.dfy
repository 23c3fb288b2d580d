/**
 * What the newer decoders promise about the frames described in the
 * decoder.h comments: each table row decodes to its key, the parity check
 * accepts exactly the frames laid out as the header says, one flipped bit
 * of a keypad frame is always reported as a parity error, and a record
 * fits MAX_READSZ.
 */
module DecoderProps {
  import opened Bits
  import opened Text
  import opened Formats
  import opened Decoder

  // ---------------------------------------------------------------- 6-bit frames

  /** The (EP) AAAA (OP) layout always passes the decoders' parity check, and its key code reads back. */
  lemma Frame6Passes(a: bv32)
    requires a < 16
    ensures KeypadParityOk(Frame6(a)) && KeyCode(Frame6(a)) == a
  {
    var w := Frame6(a);
    Par3(w, 0);
    Par3(w, 3);
  }

  /** Conversely, a 6-bit word that passes the check is the layout of its own key code. */
  lemma Frame6Unique(w: bv32)
    requires w < 64 && KeypadParityOk(w)
    ensures w == Frame6(KeyCode(w))
  {
    Par3(w, 0);
    Par3(w, 3);
  }

  /** The line printed for an accepted key. */
  lemma KeyLine(mode: Mode, k: char, bits: int)
    requires mode.Id() < 10 && 0 <= bits < 10
    ensures Render(Report(Ok, mode, Key(k), bits))
         == "R=0, M=" + [Digit(mode.Id(), true)] + ", K='" + [k] + "', L=" + [Digit(bits, true)]
  {
  }

  /** Each SKW06RF table row decodes to its key, printed as "R=0, M=0, K='<key>', L=6". */
  lemma RFTableDecodes(i: nat)
    requires i < 12
    ensures DecodeSKW06RF(SKW06RFTable[i], 6) == Report(Ok, SKW06RF, Key(Keys[i]), 6)
    ensures Render(DecodeSKW06RF(SKW06RFTable[i], 6)) == "R=0, M=0, K='" + [Keys[i]] + "', L=6"
  {
    RFTableFollowsLayout(i);
    Frame6Passes(RFCode(i));
    RFKeyOfRow(i);
    KeyLine(SKW06RF, Keys[i], 6);
  }

  lemma RFKeyOfRow(i: nat)
    requires i < 12
    ensures RFKey(RFCode(i)) == Some(Keys[i])
  {
  }

  lemma NPKeyOfRow(i: nat)
    requires i < 12
    ensures NPKey(i as bv32) == Some(Keys[i])
  {
  }

  /** Each SKW06NP table row decodes to its key, printed as "R=0, M=1, K='<key>', L=6". */
  lemma NPTableDecodes(i: nat)
    requires i < 12
    ensures DecodeSKW06NP(SKW06NPTable[i], 6) == Report(Ok, SKW06NP, Key(Keys[i]), 6)
    ensures Render(DecodeSKW06NP(SKW06NPTable[i], 6)) == "R=0, M=1, K='" + [Keys[i]] + "', L=6"
  {
    NPTableFollowsLayout(i);
    Frame6Passes(i as bv32);
    NPKeyOfRow(i);
    KeyLine(SKW06NP, Keys[i], 6);
  }

  /** The table row of an SKW06RF key code. */
  function RFRow(a: bv32): (i: nat)
    requires a < 16 && RFKey(a).Some?
    ensures i < 12 && RFCode(i) == a
  {
    if a == 10 then 0 else if a == 11 then 10 else if a == 14 then 11 else a as nat
  }

  /** SKW06RF accepts a 6-bit word only when it is a row of the table, and then reports that row's key. */
  lemma RFAcceptsOnlyTable(w: bv32, bits: int)
    requires w < 64 && DecodeSKW06RF(w, bits).result == Ok
    ensures var i := RFRow(KeyCode(w)); w == SKW06RFTable[i] && DecodeSKW06RF(w, bits).payload == Key(Keys[i])
  {
    var i := RFRow(KeyCode(w));
    Frame6Unique(w);
    RFTableFollowsLayout(i);
  }

  /** SKW06NP accepts a 6-bit word only when it is a row of the table, and then reports that row's key. */
  lemma NPAcceptsOnlyTable(w: bv32, bits: int)
    requires w < 64 && DecodeSKW06NP(w, bits).result == Ok
    ensures var i := KeyCode(w) as nat; i < 12 && w == SKW06NPTable[i] && DecodeSKW06NP(w, bits).payload == Key(Keys[i])
  {
    var i := KeyCode(w) as nat;
    Frame6Unique(w);
    NPTableFollowsLayout(i);
  }

  /** Inverting any one of the six bits of an accepted keypad frame is reported as R=1. */
  lemma KeypadBitError(w: bv32, k: bv32, bits: int)
    requires KeypadParityOk(w) && k < 6
    ensures DecodeSKW06RF(w ^ ((1 as bv32) << k), bits).result == ParityError
    ensures DecodeSKW06NP(w ^ ((1 as bv32) << k), bits).result == ParityError
  {
    var v := w ^ ((1 as bv32) << k);
    Par3(w, 0);
    Par3(w, 3);
    Par3(v, 0);
    Par3(v, 3);
  }

  // ---------------------------------------------------------------- 8-bit frames

  /** Each SKW08NC table row decodes to its key and prints "R=0, M=2, K='<key>', L=8". */
  lemma NCTableDecodes(i: nat)
    requires i < 12
    ensures DecodeSKW08NC(SKW08NCTable[i], 8) == Report(Ok, SKW08NC, Key(Keys[i]), 8)
    ensures Render(DecodeSKW08NC(SKW08NCTable[i], 8)) == "R=0, M=2, K='" + [Keys[i]] + "', L=8"
  {
    NCTableFollowsLayout(i);
    NCKeyOfRow(i);
    KeyLine(SKW08NC, Keys[i], 8);
  }

  lemma NCKeyOfRow(i: nat)
    requires i < 12
    ensures NCKey(i as bv32) == Keys[i]
  {
  }

  /**
   * SKW08NC accepts a word exactly when its low eight bits are the 8-bit
   * layout of its low nibble; the bits above bit 7 are not looked at.
   */
  lemma NCAcceptsIff(w: bv32, bits: int)
    ensures DecodeSKW08NC(w, bits).result == Ok <==> w & 0xFF == Frame8(w & 0xF)
  {
    NibblesOfLowByte(w);
  }

  /** The two nibbles of the low byte of w. */
  lemma NibblesOfLowByte(w: bv32)
    ensures w & 0xFF == (((w >> 4) & 0xF) << 4) | (w & 0xF)
  {
  }

  /** The missing range check: code 12 with its complement (0x3C) is accepted and printed as the key '<'. */
  lemma NCNoRangeCheck()
    ensures DecodeSKW08NC(0x3C, 8) == Report(Ok, SKW08NC, Key('<'), 8)
  {
  }

  // ---------------------------------------------------------------- 26-bit frames

  lemma Bit0Flip(w: bv32, j: bv32)
    requires 1 <= j < 32
    ensures BitAt(w ^ 1, j) == BitAt(w, j)
  {
  }

  lemma Bit25Flip(w: bv32, j: bv32)
    requires j < 25
    ensures BitAt(w ^ 0x200_0000, j) == BitAt(w, j)
  {
  }

  /** Inverting frame bit 0 leaves the parity of every window above it unchanged. */
  lemma {:induction false} Flip0Outside(w: bv32, lo: bv32, hi: bv32)
    requires 1 <= lo <= hi <= 32
    ensures Par(w ^ 1, lo, hi) == Par(w, lo, hi)
    decreases hi - lo
  {
    if hi > lo {
      Flip0Outside(w, lo, hi - 1);
      Bit0Flip(w, hi - 1);
      ParStep(w, lo, hi - 1);
      ParStep(w ^ 1, lo, hi - 1);
    }
  }

  /** Inverting frame bit 25 leaves the parity of every window below it unchanged. */
  lemma {:induction false} Flip25Outside(w: bv32, lo: bv32, hi: bv32)
    requires lo <= hi <= 25
    ensures Par(w ^ 0x200_0000, lo, hi) == Par(w, lo, hi)
    decreases hi - lo
  {
    if hi > lo {
      Flip25Outside(w, lo, hi - 1);
      Bit25Flip(w, hi - 1);
      ParStep(w, lo, hi - 1);
      ParStep(w ^ 0x200_0000, lo, hi - 1);
    }
  }

  /** Frame bit 0 is clear in a data word shifted up by one, and bit 25 is clear when the data has 24 bits. */
  lemma DataBitsClear(p: bv32)
    requires p < 0x100_0000
    ensures !BitAt(p << 1, 0) && !BitAt(p << 1, 25)
  {
  }

  /** The data bits of a laid-out word read back, whatever its parity bits. */
  lemma LayoutData(p: bv32, e: bool, o: bool)
    requires p < 0x100_0000
    ensures Layout26(p, e, o) < 0x400_0000 && (Layout26(p, e, o) >> 1) & 0xFF_FFFF == p
  {
  }

  lemma Flip0If(w: bv32, b: bool, lo: bv32, hi: bv32)
    requires 1 <= lo <= hi <= 32
    ensures Par(FlipIf(w, 1, b), lo, hi) == Par(w, lo, hi)
  {
    if b { Flip0Outside(w, lo, hi); }
  }

  lemma Flip25If(w: bv32, b: bool, lo: bv32, hi: bv32)
    requires lo <= hi <= 25
    ensures Par(FlipIf(w, 0x200_0000, b), lo, hi) == Par(w, lo, hi)
  {
    if b { Flip25Outside(w, lo, hi); }
  }

  /** A 26-bit word whose bits 25 and 0 are e and o is its data bits shifted up by one, with e and o put back. */
  lemma FrameRecompose(w: bv32, e: bool, o: bool)
    requires w < 0x400_0000 && BitAt(w, 25) == e && BitAt(w, 0) == o
    ensures w == Layout26((w >> 1) & 0xFF_FFFF, e, o)
  {
    if e { if o {} else {} } else { if o {} else {} }
  }

  lemma LayoutParityBits(p: bv32, e: bool, o: bool)
    requires p < 0x100_0000
    ensures BitAt(Layout26(p, e, o), 0) == o && BitAt(Layout26(p, e, o), 25) == e
  {
    if e { if o {} else {} } else { if o {} else {} }
  }

  /** The parity of frame bits 0..12 is bit 0 against the parity of the last twelve data bits. */
  lemma LayoutLow(p: bv32, e: bool, o: bool)
    requires p < 0x100_0000
    ensures Par(Layout26(p, e, o), 0, 13) == (o != Par(p << 1, 1, 13))
  {
    var d := p << 1;
    var w1 := FlipIf(d, 0x200_0000, e);
    var w := FlipIf(w1, 1, o);
    Flip0If(w1, o, 1, 13);
    Flip25If(d, e, 1, 13);
    ParSplit(w, 0, 1, 13);
    ParStep(w, 0, 0);
    LayoutParityBits(p, e, o);
  }

  /** The parity of frame bits 13..25 is bit 25 against the parity of the first twelve data bits. */
  lemma LayoutHigh(p: bv32, e: bool, o: bool)
    requires p < 0x100_0000
    ensures Par(Layout26(p, e, o), 13, 26) == (e != Par(p << 1, 13, 25))
  {
    var d := p << 1;
    var w1 := FlipIf(d, 0x200_0000, e);
    var w := FlipIf(w1, 1, o);
    Flip0If(w1, o, 13, 25);
    Flip25If(d, e, 13, 25);
    ParStep(w, 13, 25);
    LayoutParityBits(p, e, o);
  }

  /** Frame26 is Layout26 with the two parity bits it computes. */
  lemma Frame26Is(p: bv32, e: bool, o: bool)
    requires p < 0x100_0000 && e == Par(p << 1, 13, 25) && o == !Par(p << 1, 1, 13)
    ensures Frame26(p) == Layout26(p, e, o)
  {
  }

  /** Bits 0..12 of a laid-out frame have odd parity. */
  lemma Frame26Low(p: bv32)
    requires p < 0x100_0000
    ensures Par(Frame26(p), 0, 13)
  {
    var e, o := Par(p << 1, 13, 25), !Par(p << 1, 1, 13);
    Frame26Is(p, e, o);
    LayoutLow(p, e, o);
  }

  /** Bits 13..25 of a laid-out frame have even parity. */
  lemma Frame26High(p: bv32)
    requires p < 0x100_0000
    ensures !Par(Frame26(p), 13, 26)
  {
    var e, o := Par(p << 1, 13, 25), !Par(p << 1, 1, 13);
    Frame26Is(p, e, o);
    LayoutHigh(p, e, o);
  }

  /** The (EP) ... (OP) layout always passes the check. */
  lemma Frame26Passes(p: bv32)
    requires p < 0x100_0000
    ensures CardParityOk(Frame26(p))
  {
    Frame26Low(p);
    Frame26High(p);
  }

  /** The 24 data bits of a laid-out frame read back, and the frame has 26 bits. */
  lemma Frame26Data(p: bv32)
    requires p < 0x100_0000
    ensures Frame26(p) < 0x400_0000 && (Frame26(p) >> 1) & 0xFF_FFFF == p
  {
    var e, o := Par(p << 1, 13, 25), !Par(p << 1, 1, 13);
    Frame26Is(p, e, o);
    LayoutData(p, e, o);
  }

  /** In an accepted laid-out word, bit 25 is the parity of the first twelve data bits. */
  lemma UniqueHigh(q: bv32, e: bool, o: bool)
    requires q < 0x100_0000 && !Par(Layout26(q, e, o), 13, 26)
    ensures e == Par(q << 1, 13, 25)
  {
    LayoutHigh(q, e, o);
  }

  /** In an accepted laid-out word, bit 0 is the complement of the parity of the last twelve data bits. */
  lemma UniqueLow(q: bv32, e: bool, o: bool)
    requires q < 0x100_0000 && Par(Layout26(q, e, o), 0, 13)
    ensures o == !Par(q << 1, 1, 13)
  {
    LayoutLow(q, e, o);
  }

  /** Conversely, a 26-bit word that passes the check is the layout of its own data bits. */
  lemma Frame26Unique(w: bv32)
    requires w < 0x400_0000 && CardParityOk(w)
    ensures w == Frame26((w >> 1) & 0xFF_FFFF)
  {
    var q := (w >> 1) & 0xFF_FFFF;
    var e, o := BitAt(w, 25), BitAt(w, 0);
    FrameRecompose(w, e, o);
    UniqueHigh(q, e, o);
    UniqueLow(q, e, o);
    Frame26Is(q, e, o);
  }

  /** The facility the newer 26-bit decoders print for a frame of facility f and number n. */
  function ReportedFacility(f: bv32, n: bv32): bv32
  {
    ((f << 1) | (n >> 15)) & 0xFF
  }

  /**
   * An accepted 26-bit word whose facility field (bits 24..17) is f and
   * whose number field (bits 16..1) is n has its number read back exactly;
   * the facility printed is taken one bit too low (`>> 16` where the
   * layout puts it at bit 17), so it is f shifted up by one with the top
   * bit of the number below it.  Frame26Passes and Frame26Data show the
   * layout of CardData(f, n) is such a word, and Frame26Unique that every
   * accepted word is a layout.
   */
  lemma CardDecodes(mode: Mode, w: bv32, f: bv32, n: bv32, bits: int)
    requires mode == WIEGAND26 || mode == K4W26BF || mode == K5W26FC
    requires w < 0x400_0000 && CardParityOk(w) && (w >> 17) & 0xFF == f && (w >> 1) & 0xFFFF == n
    ensures DecodeCard(mode, w, bits) == Report(Ok, mode, Card(ReportedFacility(f, n) as nat, n as nat), bits)
  {
    FacilityField(w, f, n);
    CardWordDecodes(mode, w, ReportedFacility(f, n), n, bits);
  }

  /** What the card decoders make of an accepted word with the given fields. */
  lemma CardWordDecodes(mode: Mode, w: bv32, f: bv32, n: bv32, bits: int)
    requires mode == WIEGAND26 || mode == K4W26BF || mode == K5W26FC
    requires CardParityOk(w) && (w >> 16) & 0xFF == f && (w >> 1) & 0xFFFF == n
    ensures DecodeCard(mode, w, bits) == Report(Ok, mode, Card(f as nat, n as nat), bits)
  {
  }

  lemma FacilityField(w: bv32, f: bv32, n: bv32)
    requires w < 0x400_0000 && (w >> 17) & 0xFF == f && (w >> 1) & 0xFFFF == n
    ensures (w >> 16) & 0xFF == ReportedFacility(f, n)
  {
  }

  /** The facility and number fields of a 26-bit word are the top 8 and the low 16 of its 24 data bits. */
  lemma DataFields(w: bv32, p: bv32)
    requires w < 0x400_0000 && (w >> 1) & 0xFF_FFFF == p
    ensures (w >> 17) & 0xFF == p >> 16 && (w >> 1) & 0xFFFF == p & 0xFFFF
  {
  }

  /** For instance facility 1, number 0 is laid out as 0x2020001 and printed as F=2. */
  lemma FacilityOffByOne()
    ensures Frame26(CardData(1, 0)) == 0x202_0001
    ensures DecodeCard(WIEGAND26, 0x202_0001, 26).payload == Card(2, 0)
  {
    Frame26Passes(CardData(1, 0));
    CardDecodes(WIEGAND26, 0x202_0001, 1, 0, 26);
  }

  /**
   * The card decoders accept a word exactly when its low 26 bits are the
   * (EP) ... (OP) layout of its 24 data bits; the bits above bit 25 are
   * not looked at.
   */
  lemma CardAcceptsIff(mode: Mode, w: bv32, bits: int)
    requires mode == WIEGAND26 || mode == K4W26BF || mode == K5W26FC
    ensures DecodeCard(mode, w, bits).result == Ok <==> w & 0x3FF_FFFF == Frame26((w >> 1) & 0xFF_FFFF)
  {
    FrameBitsIff(w);
  }

  /** The same for K6W26BCD, which checks parity exactly as the card decoders do. */
  lemma BcdAcceptsIff(w: bv32, bits: int)
    ensures DecodeK6W26BCD(w, bits).result == Ok <==> w & 0x3FF_FFFF == Frame26((w >> 1) & 0xFF_FFFF)
  {
    FrameBitsIff(w);
  }

  /** A word passes the 26-bit check exactly when its low 26 bits are the layout of its data bits. */
  lemma FrameBitsIff(w: bv32)
    ensures CardParityOk(w) <==> w & 0x3FF_FFFF == Frame26((w >> 1) & 0xFF_FFFF)
  {
    var v := w & 0x3FF_FFFF;
    MaskedData(w);
    MaskedPar(w, 0, 13);
    MaskedPar(w, 13, 26);
    if CardParityOk(w) {
      Frame26Unique(v);
    } else if v == Frame26((w >> 1) & 0xFF_FFFF) {
      Frame26Passes((w >> 1) & 0xFF_FFFF);
      assert false;
    }
  }

  /** Cutting a word to 26 bits keeps its 24 data bits. */
  lemma MaskedData(w: bv32)
    ensures w & 0x3FF_FFFF < 0x400_0000
    ensures ((w & 0x3FF_FFFF) >> 1) & 0xFF_FFFF == (w >> 1) & 0xFF_FFFF
  {
  }

  /** Cutting a word to 26 bits keeps its bits below bit 26. */
  lemma MaskedBit(w: bv32, i: bv32)
    requires i < 26
    ensures BitAt(w & 0x3FF_FFFF, i) == BitAt(w, i)
  {
  }

  /** ... and so the parity of any range of them. */
  lemma {:induction false} MaskedPar(w: bv32, lo: bv32, hi: bv32)
    requires lo <= hi <= 26
    ensures Par(w & 0x3FF_FFFF, lo, hi) == Par(w, lo, hi)
    decreases hi - lo
  {
    if hi != lo {
      MaskedPar(w, lo, hi - 1);
      MaskedBit(w, hi - 1);
    }
  }

  /** K6W26BCD accepts every laid-out frame and prints its 24 data bits. */
  lemma BcdDecodes(p: bv32, bits: int)
    requires p < 0x100_0000
    ensures DecodeK6W26BCD(Frame26(p), bits) == Report(Ok, K6W26BCD, Bcd(p as nat), bits)
  {
    Frame26Passes(p);
    Frame26Data(p);
  }

  // ---------------------------------------------------------------- record size

  lemma DecLength(n: nat, k: nat)
    requires 1 <= k && n < Pow(10, k)
    ensures 1 <= |Dec(n)| <= k
  {
    DigitsLength(n, 10, true, k);
  }

  lemma HexLength(n: nat, k: nat)
    requires 1 <= k && n < Pow(16, k)
    ensures 1 <= |Hex(n, true)| <= k
  {
    DigitsLength(n, 16, true, k);
  }

  /** A line with a one-digit result and mode, a payload of at most m characters and a two-digit bit count. */
  lemma RenderLength(r: Report, m: nat)
    requires 0 <= r.bits < 100 && |PayloadText(r.mode, r.payload)| <= m
    ensures |Render(r)| <= m + 16
  {
    assert Pow(10, 1) == 10 && Pow(10, 2) == 100;
    DecLength(r.bits, 2);
    DecLength(r.result.Code(), 1);
    DecLength(r.mode.Id(), 1);
    RenderFields(r);
  }

  lemma RawLength(mode: Mode, code0: bv32)
    ensures |PayloadText(mode, Raw(code0))| == 10
  {
    assert Pow(16, 8) == 0x1_0000_0000;
    HexPadLength(code0 as nat, 8, true);
  }

  lemma KeypadFits(code0: bv32, bits: int)
    requires 0 <= bits < 100
    ensures |Render(DecodeSKW06RF(code0, bits))| < MAX_READSZ
    ensures |Render(DecodeSKW06NP(code0, bits))| < MAX_READSZ
    ensures |Render(DecodeSKW08NC(code0, bits))| < MAX_READSZ
    ensures |Render(DecodeUnsupported(SK3X4MX, code0, bits))| < MAX_READSZ
    ensures |Render(DecodeUnsupported(K8CDBCD, code0, bits))| < MAX_READSZ
  {
    RawLength(SKW06RF, code0);
    RawLength(SKW06NP, code0);
    RawLength(SKW08NC, code0);
    RawLength(SK3X4MX, code0);
    RawLength(K8CDBCD, code0);
    RenderLength(DecodeSKW06RF(code0, bits), 10);
    RenderLength(DecodeSKW06NP(code0, bits), 10);
    RenderLength(DecodeSKW08NC(code0, bits), 10);
    RenderLength(DecodeUnsupported(SK3X4MX, code0, bits), 10);
    RenderLength(DecodeUnsupported(K8CDBCD, code0, bits), 10);
  }

  lemma CardPayloadLength(mode: Mode, code0: bv32)
    ensures |PayloadText(mode, Card(((code0 >> 16) & 0xFF) as nat, ((code0 >> 1) & 0xFFFF) as nat))| <= 15
  {
    assert Pow(10, 3) == 1000 && Pow(10, 5) == 100000 && Pow(16, 4) == 0x1_0000;
    DecLength(((code0 >> 16) & 0xFF) as nat, 3);
    DecLength(((code0 >> 1) & 0xFFFF) as nat, 5);
    HexLength(((code0 >> 1) & 0xFFFF) as nat, 4);
  }

  lemma CardFits(mode: Mode, code0: bv32, bits: int)
    requires mode == WIEGAND26 || mode == K4W26BF || mode == K5W26FC
    requires 0 <= bits < 100
    ensures |Render(DecodeCard(mode, code0, bits))| < MAX_READSZ
  {
    if CardParityOk(code0) {
      CardPayloadLength(mode, code0);
      RenderLength(DecodeCard(mode, code0, bits), 15);
    } else {
      RawLength(mode, code0);
      RenderLength(DecodeCard(mode, code0, bits), 10);
    }
  }

  lemma BcdFits(code0: bv32, bits: int)
    requires 0 <= bits < 100
    ensures |Render(DecodeK6W26BCD(code0, bits))| < MAX_READSZ
  {
    assert Pow(16, 6) == 0x100_0000;
    if CardParityOk(code0) {
      HexLength(((code0 >> 1) & 0xFF_FFFF) as nat, 6);
    } else {
      RawLength(K6W26BCD, code0);
    }
    RenderLength(DecodeK6W26BCD(code0, bits), 10);
  }
}
