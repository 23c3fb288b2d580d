/**
 * The declarations of decoder.h: the result codes printed as `R=`, the
 * keypad transmission formats printed as `M=`, the record size, and the
 * bit layouts that the header comments give for each format.
 */
module Formats {
  import opened Bits

  /** Record size of the newer decoder generation. */
  const MAX_READSZ: nat := 35

  datatype Option<T> = None | Some(value: T)

  /** `ayd19m_result`: what a decoder concluded about a frame. */
  datatype ResultCode = Ok | ParityError | DataError | NotSupported
  {
    /** The number printed after `R=`. */
    function Code(): (n: nat)
      ensures n < 4
    {
      match this
      case Ok => 0
      case ParityError => 1
      case DataError => 2
      case NotSupported => 3
    }
  }

  function ResultOfCode(n: nat): (r: Option<ResultCode>)
    ensures r.Some? <==> n < 4
  {
    if n == 0 then Some(Ok)
    else if n == 1 then Some(ParityError)
    else if n == 2 then Some(DataError)
    else if n == 3 then Some(NotSupported)
    else None
  }

  /** `R=` identifies the result: the numbering is a bijection onto 0..3. */
  lemma ResultCodeRoundTrip(r: ResultCode, n: nat)
    ensures ResultOfCode(r.Code()) == Some(r)
    ensures n < 4 ==> ResultOfCode(n).value.Code() == n
  {
  }

  /** `ayd19m_mode_t`: the keypad transmission formats and the card format. */
  datatype Mode = SKW06RF | SKW06NP | SKW08NC | K4W26BF | K5W26FC | K6W26BCD | SK3X4MX | K8CDBCD | WIEGAND26
  {
    /** The number printed after `M=`: the enumerator's position. */
    function Id(): (n: nat)
      ensures n <= 8
    {
      match this
      case SKW06RF => 0
      case SKW06NP => 1
      case SKW08NC => 2
      case K4W26BF => 3
      case K5W26FC => 4
      case K6W26BCD => 5
      case SK3X4MX => 6
      case K8CDBCD => 7
      case WIEGAND26 => 8
    }
  }

  function ModeOfId(n: nat): (m: Option<Mode>)
    ensures m.Some? <==> n <= 8
  {
    if n == 0 then Some(SKW06RF)
    else if n == 1 then Some(SKW06NP)
    else if n == 2 then Some(SKW08NC)
    else if n == 3 then Some(K4W26BF)
    else if n == 4 then Some(K5W26FC)
    else if n == 5 then Some(K6W26BCD)
    else if n == 6 then Some(SK3X4MX)
    else if n == 7 then Some(K8CDBCD)
    else if n == 8 then Some(WIEGAND26)
    else None
  }

  /** `M=` identifies the format: the numbering is a bijection onto 0..8. */
  lemma ModeRoundTrip(m: Mode, n: nat)
    ensures ModeOfId(m.Id()) == Some(m)
    ensures n <= 8 ==> ModeOfId(n).value.Id() == n
  {
  }

  /**
   * The 6-bit keypad layout (EP) AAAA (OP), most significant bit first:
   * EP makes the first two code bits plus itself even, OP makes the last
   * two code bits plus itself odd.
   */
  function Frame6(a: bv32): (w: bv32)
    requires a < 16
    ensures w < 64 && (w >> 1) & 0xF == a
  {
    var d := a << 1;
    var ep := BitAt(d, 4) != BitAt(d, 3);
    var op := BitAt(d, 2) == BitAt(d, 1);
    d | (if ep then 0x20 else 0) | (if op then 1 else 0)
  }

  /**
   * The 8-bit keypad layout: the complement of the key nibble above the
   * key nibble.
   */
  function Frame8(a: bv32): (w: bv32)
    requires a < 16
    ensures w < 256 && w & 0xF == a && (w >> 4) & 0xF == a ^ 0xF
  {
    ((a ^ 0xF) << 4) | a
  }

  /** The 24 data bits of a card frame: an 8-bit facility above a 16-bit number. */
  function CardData(facility: bv32, number: bv32): (p: bv32)
    requires facility < 0x100 && number < 0x1_0000
    ensures p < 0x100_0000 && p >> 16 == facility && p & 0xFFFF == number
  {
    (facility << 16) | number
  }

  /**
   * The 26-bit layout (EP) FFFF FFFF AAAA AAAA AAAA AAAA (OP) of 24 data
   * bits p: EP is even parity over the first twelve data bits (frame bits
   * 24..13) and OP odd parity over the last twelve (frame bits 12..1).
   */
  function Frame26(p: bv32): bv32
    requires p < 0x100_0000
  {
    var d := p << 1;
    Layout26(p, Par(d, 13, 25), !Par(d, 1, 13))
  }

  /** Data bits p at frame bits 24..1, with bit 25 set to ep and bit 0 set to op. */
  function Layout26(p: bv32, ep: bool, op: bool): bv32
  {
    FlipIf(FlipIf(p << 1, 0x200_0000, ep), 1, op)
  }

  /** Word w with the bits of mask m inverted when b holds. */
  function FlipIf(w: bv32, m: bv32, b: bool): bv32
  {
    if b then w ^ m else w
  }

  /** The key printed for each table row of the keypad formats. */
  const Keys: seq<char> := ['0', '1', '2', '3', '4', '5', '6', '7', '8', '9', '*', '#']

  /** The SKW06RF table: the 6-bit pattern sent for each key of Keys, in the same order. */
  const SKW06RFTable: seq<bv32> := [0x34, 0x02, 0x04, 0x07, 0x29, 0x2A, 0x2C, 0x2F, 0x31, 0x32, 0x37, 0x1C]

  /** The SKW06NP table. */
  const SKW06NPTable: seq<bv32> := [0x01, 0x02, 0x04, 0x07, 0x29, 0x2A, 0x2C, 0x2F, 0x31, 0x32, 0x34, 0x37]

  /** The SKW08NC table. */
  const SKW08NCTable: seq<bv32> := [0xF0, 0xE1, 0xD2, 0xC3, 0xB4, 0xA5, 0x96, 0x87, 0x78, 0x69, 0x5A, 0x4B]

  /** The 4-bit key code of the SKW06RF table rows: 10 for '0', 11 for '*' and 14 for '#'. */
  function RFCode(i: nat): (a: bv32)
    requires i < 12
    ensures a < 16
  {
    if i == 0 then 10 else if i == 10 then 11 else if i == 11 then 14 else i as bv32
  }

  /** Every row of the SKW06RF table is its key code laid out as (EP) AAAA (OP). */
  lemma RFTableFollowsLayout(i: nat)
    requires i < 12
    ensures SKW06RFTable[i] == Frame6(RFCode(i))
  {
    if i == 0 {} else if i == 1 {} else if i == 2 {} else if i == 3 {}
    else if i == 4 {} else if i == 5 {} else if i == 6 {} else if i == 7 {}
    else if i == 8 {} else if i == 9 {} else if i == 10 {} else {}
  }

  /** Every row of the SKW06NP table is its key code laid out as (EP) AAAA (OP), '*' = 10, '#' = 11. */
  lemma NPTableFollowsLayout(i: nat)
    requires i < 12
    ensures SKW06NPTable[i] == Frame6(i as bv32)
  {
    if i == 0 {} else if i == 1 {} else if i == 2 {} else if i == 3 {}
    else if i == 4 {} else if i == 5 {} else if i == 6 {} else if i == 7 {}
    else if i == 8 {} else if i == 9 {} else if i == 10 {} else {}
  }

  /** Every row of the SKW08NC table is the complemented nibble above the key code, '*' = 10, '#' = 11. */
  lemma NCTableFollowsLayout(i: nat)
    requires i < 12
    ensures SKW08NCTable[i] == Frame8(i as bv32)
  {
    if i == 0 {} else if i == 1 {} else if i == 2 {} else if i == 3 {}
    else if i == 4 {} else if i == 5 {} else if i == 6 {} else if i == 7 {}
    else if i == 8 {} else if i == 9 {} else if i == 10 {} else {}
  }
}
