/**
 * What the older decoders of ay-d19m.c promise, and how they compare with
 * the newer generation of decoder.c: a pair of complementary words checks
 * the same parity as the newer check, the keypad table rows print their
 * keys, the 26-bit frames print the facility the layout holds, the text
 * always fits the driver's 28-character buffer, and the older decoders'
 * missing range checks let codes through that the newer ones reject.
 */
module LegacyProps {
  import opened Bits
  import opened Text
  import opened Formats
  import opened Decoder
  import opened DecoderProps
  import opened Legacy

  // ---------------------------------------------------------------- rejection

  lemma KeyTextNonEmpty(m: Mode, key: char)
    ensures KeyText(m, key) != ""
  {
    assert KeyText(m, key)[0] == 'M';
  }

  lemma CardTextNonEmpty(m: Mode, f: nat, c: nat)
    ensures CardText(m, f, c) != ""
  {
    assert CardText(m, f, c)[0] == 'M';
  }

  lemma BcdTextNonEmpty(m: Mode, c: nat)
    ensures BcdText(m, c) != ""
  {
    assert BcdText(m, c)[0] == 'M';
  }

  /** A decoder leaves the empty string exactly when it rejects the pair of words. */
  lemma OldEmptyIff(m: Mode, code0: bv32, code1: bv32)
    requires DriverMode(m)
    ensures OldDecode(m, code0, code1) == "" <==> !OldAccepts(m, code0, code1)
  {
    match m
    case SKW06RF => KeyTextNonEmpty(m, OldRFKey(KeyCode(code0)));
    case SKW06NP => KeyTextNonEmpty(m, NCKey(KeyCode(code0)));
    case SKW08NC => KeyTextNonEmpty(m, NCKey(code0 & 0xF));
    case K4W26BF => CardTextNonEmpty(m, ((code0 >> 17) & 0xFF) as nat, ((code0 >> 1) & 0xFFFF) as nat);
    case K5W26FC => CardTextNonEmpty(m, ((code0 >> 17) & 0xFF) as nat, ((code0 >> 1) & 0xFFFF) as nat);
    case K6W26BCD => BcdTextNonEmpty(m, ((code0 >> 1) & 0xFF_FFFF) as nat);
    case SK3X4MX => assert UnsupportedText(m)[0] == 'E';
    case K8CDBCD => assert UnsupportedText(m)[0] == 'E';
  }

  /** The complement check: a pair of words that are not complements over the frame prints nothing. */
  lemma NotComplementRejected(m: Mode, code0: bv32, code1: bv32)
    requires DriverMode(m) && m != SK3X4MX && m != K8CDBCD
    requires code0 ^ code1 != 2 * MaskOf(m) - 1
    ensures OldDecode(m, code0, code1) == ""
  {
    MaskCoversFrame(m);
  }

  // ---------------------------------------------------------------- keypad frames

  /** A frame and its complement pass the older SKW06RF check exactly when they pass the newer one, and print the same key. */
  lemma OldRFAgrees(w: bv32, bits: int)
    ensures OldAccepts(SKW06RF, w, w ^ 0x3F) <==> KeypadParityOk(w)
    ensures DecodeSKW06RF(w, bits).result == Ok ==>
      OldDecode(SKW06RF, w, w ^ 0x3F) == KeyText(SKW06RF, DecodeSKW06RF(w, bits).payload.key)
  {
    assert w ^ (w ^ 0x3F) == 0x3F;
    OldKeypadParity(w);
  }

  /** The same for SKW06NP. */
  lemma OldNPAgrees(w: bv32, bits: int)
    ensures OldAccepts(SKW06NP, w, w ^ 0x3F) <==> KeypadParityOk(w)
    ensures DecodeSKW06NP(w, bits).result == Ok ==>
      OldDecode(SKW06NP, w, w ^ 0x3F) == KeyText(SKW06NP, DecodeSKW06NP(w, bits).payload.key)
  {
    assert w ^ (w ^ 0x3F) == 0x3F;
    OldKeypadParity(w);
  }

  /** A frame and its complement pass the older SKW08NC check exactly when the newer decoder accepts the frame, with the same key. */
  lemma OldNCAgrees(w: bv32, bits: int)
    ensures OldAccepts(SKW08NC, w, w ^ 0xFF) <==> DecodeSKW08NC(w, bits).result == Ok
    ensures DecodeSKW08NC(w, bits).result == Ok ==>
      OldDecode(SKW08NC, w, w ^ 0xFF) == KeyText(SKW08NC, DecodeSKW08NC(w, bits).payload.key)
  {
    assert w ^ (w ^ 0xFF) == 0xFF;
  }

  /** Each SKW06RF table row, sent with its complement on the other line, prints "M=0, K=<key>". */
  lemma OldRFTable(i: nat)
    requires i < 12
    ensures OldDecode(SKW06RF, SKW06RFTable[i], SKW06RFTable[i] ^ 0x3F) == "M=0, K=" + [Keys[i]]
  {
    RFTableDecodes(i);
    OldRFAgrees(SKW06RFTable[i], 6);
  }

  /** Each SKW06NP table row prints "M=1, K=<key>". */
  lemma OldNPTable(i: nat)
    requires i < 12
    ensures OldDecode(SKW06NP, SKW06NPTable[i], SKW06NPTable[i] ^ 0x3F) == "M=1, K=" + [Keys[i]]
  {
    NPTableDecodes(i);
    OldNPAgrees(SKW06NPTable[i], 6);
  }

  /** Each SKW08NC table row prints "M=2, K=<key>". */
  lemma OldNCTable(i: nat)
    requires i < 12
    ensures OldDecode(SKW08NC, SKW08NCTable[i], SKW08NCTable[i] ^ 0xFF) == "M=2, K=" + [Keys[i]]
  {
    NCTableDecodes(i);
    OldNCAgrees(SKW08NCTable[i], 8);
  }

  /**
   * The older keypad decoders have no range check: the laid-out code 12
   * (0x19) prints the key '<' in both 6-bit modes, where the newer decoders
   * report a data error, and the older SKW06RF prints '0' for code 0 (0x01)
   * as well as for code 10 (0x34).
   */
  lemma OldKeypadNoRangeCheck()
    ensures Frame6(12) == 0x19 && Frame6(0) == 0x01
    ensures OldDecode(SKW06RF, 0x19, 0x26) == "M=0, K=<" && DecodeSKW06RF(0x19, 6).result == DataError
    ensures OldDecode(SKW06NP, 0x19, 0x26) == "M=1, K=<" && DecodeSKW06NP(0x19, 6).result == DataError
    ensures OldDecode(SKW06RF, 0x01, 0x3E) == OldDecode(SKW06RF, 0x34, 0x0B) == "M=0, K=0"
    ensures DecodeSKW06RF(0x01, 6).result == DataError
  {
    Frame6Passes(12);
    Frame6Passes(0);
    OldRFAgrees(0x19, 6);
    OldNPAgrees(0x19, 6);
    OldRFAgrees(0x01, 6);
    OldRFTable(0);
  }

  // ---------------------------------------------------------------- 26-bit frames

  /** A 26-bit frame and its complement pass the older check exactly when they pass the newer one. */
  lemma OldCardAgrees(m: Mode, w: bv32)
    requires m == K4W26BF || m == K5W26FC || m == K6W26BCD
    ensures OldAccepts(m, w, w ^ 0x3FF_FFFF) <==> CardParityOk(w)
  {
    assert w ^ (w ^ 0x3FF_FFFF) == 0x3FF_FFFF;
    OldCardParity(w);
  }

  /**
   * The older 26-bit decoders read the layout w of 24 data bits p back as
   * the header describes it: the facility is the top eight data bits and
   * the number the low sixteen (`>> 17`, unlike the newer decoders' `>> 16`).
   */
  lemma OldCardDecodes(m: Mode, p: bv32, w: bv32)
    requires m == K4W26BF || m == K5W26FC
    requires p < 0x100_0000 && w == Frame26(p)
    ensures CardDecode(m, w, w ^ 0x3FF_FFFF) == CardText(m, (p >> 16) as nat, (p & 0xFFFF) as nat)
  {
    Frame26Passes(p);
    Frame26Data(p);
    OldCardWord(m, w, p);
  }

  /** What the older card decoders print for an accepted 26-bit word with data bits p. */
  lemma OldCardWord(m: Mode, w: bv32, p: bv32)
    requires m == K4W26BF || m == K5W26FC
    requires w < 0x400_0000 && CardParityOk(w) && (w >> 1) & 0xFF_FFFF == p
    ensures CardDecode(m, w, w ^ 0x3FF_FFFF) == CardText(m, (p >> 16) as nat, (p & 0xFFFF) as nat)
  {
    OldCardAccepts(m, w);
    DataFields(w, p);
  }

  /** An accepted 26-bit word and its complement print the word's facility and number fields. */
  lemma OldCardAccepts(m: Mode, w: bv32)
    requires m == K4W26BF || m == K5W26FC
    requires CardParityOk(w)
    ensures CardDecode(m, w, w ^ 0x3FF_FFFF) == CardText(m, ((w >> 17) & 0xFF) as nat, ((w >> 1) & 0xFFFF) as nat)
  {
    OldCardAgrees(m, w);
  }

  /** For instance facility 1, number 0 (frame 0x2020001) prints F=1 in the older generation, F=2 in the newer. */
  lemma OldFacility()
    ensures CardDecode(K4W26BF, 0x202_0001, 0x202_0001 ^ 0x3FF_FFFF) == CardText(K4W26BF, 1, 0)
    ensures DecodeCard(K4W26BF, 0x202_0001, 26).payload == Card(2, 0)
  {
    FacilityOffByOne();
    OldCardDecodes(K4W26BF, CardData(1, 0), 0x202_0001);
    CardDecodes(K4W26BF, 0x202_0001, 1, 0, 26);
  }

  /** `fmt_K6W26BCD` prints the 24 data bits p of every laid-out frame w. */
  lemma OldBcdDecodes(p: bv32, w: bv32)
    requires p < 0x100_0000 && w == Frame26(p)
    ensures BcdDecode(w, w ^ 0x3FF_FFFF) == BcdText(K6W26BCD, p as nat)
  {
    Frame26Passes(p);
    Frame26Data(p);
    OldCardAgrees(K6W26BCD, w);
  }

  // ---------------------------------------------------------------- text size

  lemma ModeDigit(m: Mode)
    ensures |Dec(m.Id())| == 1
  {
    assert Pow(10, 1) == 10;
    DecLength(m.Id(), 1);
  }

  /**
   * Every text is at most 25 characters ("Error: Unsupported mode 7" is
   * the longest) and holds no NUL, so the 28-character buffer the driver
   * passes never cuts it and the text is what strlen measures.
   */
  lemma OldDecodeSize(m: Mode, code0: bv32, code1: bv32)
    requires DriverMode(m)
    ensures |OldDecode(m, code0, code1)| <= 25 && NUL !in OldDecode(m, code0, code1)
    ensures Fit(OldDecode(m, code0, code1), 28) == OldDecode(m, code0, code1)
  {
    match m
    case SKW06RF => KeyTextSize(m, OldRFKey(KeyCode(code0)));
    case SKW06NP => KeyTextSize(m, NCKey(KeyCode(code0)));
    case SKW08NC => KeyTextSize(m, NCKey(code0 & 0xF));
    case K4W26BF => CardDecodeSize(m, code0, code1);
    case K5W26FC => CardDecodeSize(m, code0, code1);
    case K6W26BCD => BcdDecodeSize(code0, code1);
    case SK3X4MX => UnsupportedTextSize(m);
    case K8CDBCD => UnsupportedTextSize(m);
  }

  lemma CardTextSize(m: Mode, f: nat, c: nat)
    requires f < 0x100 && c < 0x1_0000
    ensures |CardText(m, f, c)| <= 20 && NUL !in CardText(m, f, c)
  {
    assert Pow(10, 3) == 1000 && Pow(10, 5) == 100000;
    ModeDigit(m);
    DecLength(f, 3);
    DecLength(c, 5);
    CardTextNoNul(m, f, c);
  }

  lemma BcdTextSize(m: Mode, c: nat)
    requires c < 0x100_0000
    ensures |BcdText(m, c)| == 13 && NUL !in BcdText(m, c)
  {
    assert Pow(16, 6) == 0x100_0000;
    ModeDigit(m);
    HexPadLength(c, 6, false);
    BcdTextNoNul(m, c);
  }

  lemma KeyTextSize(m: Mode, key: char)
    requires key != NUL
    ensures |KeyText(m, key)| == 8 && NUL !in KeyText(m, key)
  {
    ModeDigit(m);
    KeyTextNoNul(m, key);
  }

  lemma UnsupportedTextSize(m: Mode)
    ensures |UnsupportedText(m)| == 25 && NUL !in UnsupportedText(m)
  {
    ModeDigit(m);
    UnsupportedTextNoNul(m);
  }

  lemma CardDecodeSize(m: Mode, code0: bv32, code1: bv32)
    requires m == K4W26BF || m == K5W26FC
    ensures |CardDecode(m, code0, code1)| <= 20 && NUL !in CardDecode(m, code0, code1)
  {
    CardTextSize(m, ((code0 >> 17) & 0xFF) as nat, ((code0 >> 1) & 0xFFFF) as nat);
  }

  lemma BcdDecodeSize(code0: bv32, code1: bv32)
    ensures |BcdDecode(code0, code1)| <= 13 && NUL !in BcdDecode(code0, code1)
  {
    BcdTextSize(K6W26BCD, ((code0 >> 1) & 0xFF_FFFF) as nat);
  }
}
