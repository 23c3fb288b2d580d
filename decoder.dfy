/**
 * The newer decoder generation of decoder.c.  Each decoder takes the
 * received frame `code0` (and, except `wiegand26`, its bit count), checks
 * the two parity windows in a loop, and writes a line
 * `R=<result>, M=<mode>, <payload>, L=<bits>` into the caller's buffer.
 *
 * The Decode* functions say what each decoder reports; the Format*
 * methods follow the C code step by step and are proved to write exactly
 * the rendering of that report, cut to the buffer size.
 */
module Decoder {
  import opened Bits
  import opened Text
  import opened Formats

  /** What follows `M=<mode>, ` in a line. */
  datatype Payload =
    | Key(key: char)                      // K='<key>'
    | Card(facility: nat, number: nat)    // F=<facility>, D=<number>
    | Bcd(code: nat)                      // D=<code in hex>
    | Raw(code0: bv32)                    // D=<frame as 8 hex digits>

  datatype Report = Report(result: ResultCode, mode: Mode, payload: Payload, bits: int)

  function PayloadText(mode: Mode, p: Payload): string
  {
    match p
    case Key(k) => "K='" + [k] + "'"
    case Card(f, n) => "F=" + Dec(f) + ", D=" + (if mode == WIEGAND26 then Hex(n, true) else Dec(n))
    case Bcd(c) => "D=" + Hex(c, true)
    case Raw(c0) => "D=" + HexPad(c0 as nat, 8, true)
  }

  /** The line a decoder prints for a report. */
  function Render(r: Report): string
  {
    "R=" + Dec(r.result.Code()) + ", M=" + Dec(r.mode.Id()) + ", " + PayloadText(r.mode, r.payload) + ", L=" + Dec(r.bits)
  }

  // ---------------------------------------------------------------- parity

  /** The keypad frames' check: bits 0..2 have odd parity and bits 3..5 even parity. */
  predicate KeypadParityOk(code0: bv32)
  {
    Par(code0, 0, 3) && !Par(code0, 3, 6)
  }

  /** The 26-bit frames' check: bits 0..12 have odd parity and bits 13..25 even parity. */
  predicate CardParityOk(code0: bv32)
  {
    Par(code0, 0, 13) && !Par(code0, 13, 26)
  }

  /** The three-step loop of the keypad decoders: `ep` starts at 0 and `op` at 1. */
  method Fold3(code0: bv32) returns (ep: bv32, op: bv32)
    ensures ep == B2W(Par(code0, 0, 3)) && op == B2W(!Par(code0, 3, 6))
    ensures (ep & op != 0) == KeypadParityOk(code0)
  {
    ep, op := 0, 1;
    var i: bv32 := 0;
    while i < 3
      invariant i <= 3
      invariant ep == B2W(Par(code0, 0, i)) && op == B2W(!Par(code0, 3, 3 + i))
    {
      ParStep(code0, 0, i);
      ParStep(code0, 3, 3 + i);
      ep := ep ^ (if code0 & (1 << i) != 0 then 1 else 0);
      op := op ^ (if code0 & (8 << i) != 0 then 1 else 0);
      i := i + 1;
    }
  }

  /** The thirteen-step loop of the 26-bit decoders. */
  method Fold13(code0: bv32) returns (ep: bv32, op: bv32)
    ensures ep == B2W(Par(code0, 0, 13)) && op == B2W(!Par(code0, 13, 26))
    ensures (ep & op != 0) == CardParityOk(code0)
  {
    ep, op := 0, 1;
    var i: bv32 := 0;
    while i < 13
      invariant i <= 13
      invariant ep == B2W(Par(code0, 0, i)) && op == B2W(!Par(code0, 13, 13 + i))
    {
      ParStep(code0, 0, i);
      ParStep(code0, 13, 13 + i);
      ep := ep ^ (if code0 & (1 << i) != 0 then 1 else 0);
      op := op ^ (if code0 & (0x2000 << i) != 0 then 1 else 0);
      i := i + 1;
    }
  }

  // ---------------------------------------------------------------- keys

  /** The 4-bit key code between the parity bits of a 6-bit frame. */
  function KeyCode(code0: bv32): (a: bv32)
    ensures a < 16
  {
    (code0 >> 1) & 0xF
  }

  /** `'0' + code`. */
  function DigitKey(code: bv32): (c: char)
    requires code < 16
    ensures c != NUL
  {
    ('0' as int + code as int) as char
  }

  /** SKW06RF accepts the codes 1..11 and 14: 10 is '0', 11 is '*', 14 is '#'. */
  function RFKey(code: bv32): Option<char>
    requires code < 16
  {
    if code != 0 && code != 12 && code != 13 && code < 15 then
      Some(if code == 10 then '0' else if code == 11 then '*' else if code == 14 then '#' else DigitKey(code))
    else None
  }

  /** SKW06NP accepts the codes below 12: 10 is '*', 11 is '#'. */
  function NPKey(code: bv32): Option<char>
    requires code < 16
  {
    if code < 12 then Some(if code == 10 then '*' else if code == 11 then '#' else DigitKey(code)) else None
  }

  /** SKW08NC maps 10 to '*', 11 to '#', anything else to `'0' + code`, with no range check. */
  function NCKey(code: bv32): (c: char)
    requires code < 16
    ensures c != NUL
  {
    if code == 10 then '*' else if code == 11 then '#' else DigitKey(code)
  }

  // ---------------------------------------------------------------- reports

  function DecodeSKW06RF(code0: bv32, bits: int): (r: Report)
    ensures r.mode == SKW06RF && r.bits == bits
    ensures r.result == Ok <==> KeypadParityOk(code0) && RFKey(KeyCode(code0)).Some?
    ensures r.result == Ok ==> r.payload == Key(RFKey(KeyCode(code0)).value)
    ensures !KeypadParityOk(code0) ==> r.result == ParityError && r.payload == Raw(code0)
    ensures KeypadParityOk(code0) && RFKey(KeyCode(code0)).None? ==> r.result == DataError && r.payload == Raw(code0)
  {
    if !KeypadParityOk(code0) then Report(ParityError, SKW06RF, Raw(code0), bits)
    else match RFKey(KeyCode(code0))
      case Some(k) => Report(Ok, SKW06RF, Key(k), bits)
      case None => Report(DataError, SKW06RF, Raw(code0), bits)
  }

  function DecodeSKW06NP(code0: bv32, bits: int): (r: Report)
    ensures r.mode == SKW06NP && r.bits == bits
    ensures r.result == Ok <==> KeypadParityOk(code0) && KeyCode(code0) < 12
    ensures r.result == Ok ==> r.payload == Key(NPKey(KeyCode(code0)).value)
    ensures !KeypadParityOk(code0) ==> r.result == ParityError && r.payload == Raw(code0)
    ensures KeypadParityOk(code0) && KeyCode(code0) >= 12 ==> r.result == DataError && r.payload == Raw(code0)
  {
    if !KeypadParityOk(code0) then Report(ParityError, SKW06NP, Raw(code0), bits)
    else match NPKey(KeyCode(code0))
      case Some(k) => Report(Ok, SKW06NP, Key(k), bits)
      case None => Report(DataError, SKW06NP, Raw(code0), bits)
  }

  function DecodeSKW08NC(code0: bv32, bits: int): (r: Report)
    ensures r.mode == SKW08NC && r.bits == bits
    ensures r.result == Ok <==> (code0 & 0xF) ^ ((code0 >> 4) & 0xF) == 0xF
    ensures r.result == Ok ==> r.payload == Key(NCKey(code0 & 0xF))
    ensures r.result != Ok ==> r.result == DataError && r.payload == Raw(code0)
  {
    var code := code0 & 0xF;
    var icode := (code0 >> 4) & 0xF;
    if code ^ icode == 0xF then Report(Ok, SKW08NC, Key(NCKey(code)), bits)
    else Report(DataError, SKW08NC, Raw(code0), bits)
  }

  /** `wiegand26`, `fmt_K4W26BF` and `fmt_K5W26FC`: facility and number of a 26-bit frame. */
  function DecodeCard(mode: Mode, code0: bv32, bits: int): (r: Report)
    requires mode == WIEGAND26 || mode == K4W26BF || mode == K5W26FC
    ensures r.mode == mode && r.bits == bits
    ensures r.result == Ok <==> CardParityOk(code0)
    ensures r.result == Ok ==> r.payload == Card(((code0 >> 16) & 0xFF) as nat, ((code0 >> 1) & 0xFFFF) as nat)
    ensures !CardParityOk(code0) ==> r.result == ParityError && r.payload == Raw(code0)
  {
    if CardParityOk(code0) then Report(Ok, mode, Card(((code0 >> 16) & 0xFF) as nat, ((code0 >> 1) & 0xFFFF) as nat), bits)
    else Report(ParityError, mode, Raw(code0), bits)
  }

  /** `fmt_K6W26BCD`: the 24 data bits of a 26-bit frame, printed in hex. */
  function DecodeK6W26BCD(code0: bv32, bits: int): (r: Report)
    ensures r.mode == K6W26BCD && r.bits == bits
    ensures r.result == Ok <==> CardParityOk(code0)
    ensures r.result == Ok ==> r.payload == Bcd(((code0 >> 1) & 0xFF_FFFF) as nat)
    ensures !CardParityOk(code0) ==> r.result == ParityError && r.payload == Raw(code0)
  {
    if CardParityOk(code0) then Report(Ok, K6W26BCD, Bcd(((code0 >> 1) & 0xFF_FFFF) as nat), bits)
    else Report(ParityError, K6W26BCD, Raw(code0), bits)
  }

  /** `fmt_SK3X4MX` and `fmt_K8CDBCD`: formats that are declared but not decoded. */
  function DecodeUnsupported(mode: Mode, code0: bv32, bits: int): (r: Report)
    requires mode == SK3X4MX || mode == K8CDBCD
    ensures r.mode == mode && r.bits == bits && r.result == NotSupported && r.payload == Raw(code0)
  {
    Report(NotSupported, mode, Raw(code0), bits)
  }

  // ---------------------------------------------------------------- rendering

  /** A report is printable as a C string when its key character is not NUL. */
  predicate Printable(r: Report)
  {
    r.payload.Key? ==> r.payload.key != NUL
  }

  lemma RenderNoNul(r: Report)
    requires Printable(r)
    ensures NUL !in Render(r)
  {
    DecNoNul(r.result.Code());
    DecNoNul(r.mode.Id());
    DecNoNul(r.bits);
    match r.payload
    case Key(k) =>
    case Card(f, n) => DecNoNul(f); DecNoNul(n); DigitsNoNul(n, 16, true);
    case Bcd(c) => DigitsNoNul(c, 16, true);
    case Raw(c0) => HexPadNoNul(c0 as nat, 8, true);
  }

  /** The result and mode digits stand at fixed places, where a reader of the line finds them. */
  lemma RenderFields(r: Report)
    ensures |Render(r)| > 8
    ensures Render(r)[..2] == "R=" && Render(r)[2] == Digit(r.result.Code(), true)
    ensures Render(r)[3..7] == ", M=" && Render(r)[7] == Digit(r.mode.Id(), true)
  {
    assert Dec(r.result.Code()) == [Digit(r.result.Code(), true)];
    assert Dec(r.mode.Id()) == [Digit(r.mode.Id(), true)];
  }

  // ---------------------------------------------------------------- decoders

  /** `wiegand26`: the H10301 card format; always prints L=26. */
  method Wiegand26(code0: bv32, buffer: array<char>, bsz: nat) returns (n: nat)
    requires 1 <= bsz <= buffer.Length
    modifies buffer
    ensures n < bsz && n == |Fit(Render(DecodeCard(WIEGAND26, code0, 26)), bsz)|
    ensures buffer[..n] == Fit(Render(DecodeCard(WIEGAND26, code0, 26)), bsz) && buffer[n] == NUL
    ensures buffer[n + 1..] == old(buffer[n + 1..])
  {
    var code := (code0 >> 1) & 0xFFFF;
    var facility := (code0 >> 16) & 0xFF;
    var ep, op := Fold13(code0);
    var r;
    if ep & op != 0 {
      r := Report(Ok, WIEGAND26, Card(facility as nat, code as nat), 26);
    } else {
      r := Report(ParityError, WIEGAND26, Raw(code0), 26);
    }
    RenderNoNul(r);
    n := Emit(buffer, bsz, Render(r));
  }

  method FormatSKW06RF(code0: bv32, bits: int, buffer: array<char>, bsz: nat) returns (n: nat)
    requires 1 <= bsz <= buffer.Length
    modifies buffer
    ensures n < bsz && n == |Fit(Render(DecodeSKW06RF(code0, bits)), bsz)|
    ensures buffer[..n] == Fit(Render(DecodeSKW06RF(code0, bits)), bsz) && buffer[n] == NUL
    ensures buffer[n + 1..] == old(buffer[n + 1..])
  {
    buffer[0] := NUL;
    var code := (code0 >> 1) & 0xF;
    var ep, op := Fold3(code0);
    var r;
    if ep & op != 0 {
      if code != 0 && code != 12 && code != 13 && code < 15 {
        var key;
        if code == 10 {
          key := '0';
        } else if code == 11 {
          key := '*';
        } else if code == 14 {
          key := '#';
        } else {
          key := DigitKey(code);
        }
        r := Report(Ok, SKW06RF, Key(key), bits);
      } else {
        r := Report(DataError, SKW06RF, Raw(code0), bits);
      }
    } else {
      r := Report(ParityError, SKW06RF, Raw(code0), bits);
    }
    RenderNoNul(r);
    n := Emit(buffer, bsz, Render(r));
  }

  method FormatSKW06NP(code0: bv32, bits: int, buffer: array<char>, bsz: nat) returns (n: nat)
    requires 1 <= bsz <= buffer.Length
    modifies buffer
    ensures n < bsz && n == |Fit(Render(DecodeSKW06NP(code0, bits)), bsz)|
    ensures buffer[..n] == Fit(Render(DecodeSKW06NP(code0, bits)), bsz) && buffer[n] == NUL
    ensures buffer[n + 1..] == old(buffer[n + 1..])
  {
    buffer[0] := NUL;
    var code := (code0 >> 1) & 0xF;
    var ep, op := Fold3(code0);
    var r;
    if ep & op != 0 {
      if code < 12 {
        var key;
        if code == 10 {
          key := '*';
        } else if code == 11 {
          key := '#';
        } else {
          key := DigitKey(code);
        }
        r := Report(Ok, SKW06NP, Key(key), bits);
      } else {
        r := Report(DataError, SKW06NP, Raw(code0), bits);
      }
    } else {
      r := Report(ParityError, SKW06NP, Raw(code0), bits);
    }
    RenderNoNul(r);
    n := Emit(buffer, bsz, Render(r));
  }

  method FormatSKW08NC(code0: bv32, bits: int, buffer: array<char>, bsz: nat) returns (n: nat)
    requires 1 <= bsz <= buffer.Length
    modifies buffer
    ensures n < bsz && n == |Fit(Render(DecodeSKW08NC(code0, bits)), bsz)|
    ensures buffer[..n] == Fit(Render(DecodeSKW08NC(code0, bits)), bsz) && buffer[n] == NUL
    ensures buffer[n + 1..] == old(buffer[n + 1..])
  {
    var code := code0 & 0xF;
    var icode := (code0 >> 4) & 0xF;
    var r;
    if code ^ icode == 0xF {
      var key;
      if code == 10 {
        key := '*';
      } else if code == 11 {
        key := '#';
      } else {
        key := DigitKey(code);
      }
      r := Report(Ok, SKW08NC, Key(key), bits);
    } else {
      r := Report(DataError, SKW08NC, Raw(code0), bits);
    }
    RenderNoNul(r);
    n := Emit(buffer, bsz, Render(r));
  }

  /** `fmt_K4W26BF` (mode K4W26BF) and `fmt_K5W26FC` (mode K5W26FC), which differ only in the mode printed. */
  method FormatCard(mode: Mode, code0: bv32, bits: int, buffer: array<char>, bsz: nat) returns (n: nat)
    requires mode == K4W26BF || mode == K5W26FC
    requires 1 <= bsz <= buffer.Length
    modifies buffer
    ensures n < bsz && n == |Fit(Render(DecodeCard(mode, code0, bits)), bsz)|
    ensures buffer[..n] == Fit(Render(DecodeCard(mode, code0, bits)), bsz) && buffer[n] == NUL
    ensures buffer[n + 1..] == old(buffer[n + 1..])
  {
    var code := (code0 >> 1) & 0xFFFF;
    var facility := (code0 >> 16) & 0xFF;
    var ep, op := Fold13(code0);
    var r;
    if ep & op != 0 {
      r := Report(Ok, mode, Card(facility as nat, code as nat), bits);
    } else {
      r := Report(ParityError, mode, Raw(code0), bits);
    }
    RenderNoNul(r);
    n := Emit(buffer, bsz, Render(r));
  }

  method FormatK6W26BCD(code0: bv32, bits: int, buffer: array<char>, bsz: nat) returns (n: nat)
    requires 1 <= bsz <= buffer.Length
    modifies buffer
    ensures n < bsz && n == |Fit(Render(DecodeK6W26BCD(code0, bits)), bsz)|
    ensures buffer[..n] == Fit(Render(DecodeK6W26BCD(code0, bits)), bsz) && buffer[n] == NUL
    ensures buffer[n + 1..] == old(buffer[n + 1..])
  {
    var code := (code0 >> 1) & 0xFF_FFFF;
    var ep, op := Fold13(code0);
    var r;
    if ep & op != 0 {
      r := Report(Ok, K6W26BCD, Bcd(code as nat), bits);
    } else {
      r := Report(ParityError, K6W26BCD, Raw(code0), bits);
    }
    RenderNoNul(r);
    n := Emit(buffer, bsz, Render(r));
  }

  /** `fmt_SK3X4MX` (mode SK3X4MX) and `fmt_K8CDBCD` (mode K8CDBCD). */
  method FormatUnsupported(mode: Mode, code0: bv32, bits: int, buffer: array<char>, bsz: nat) returns (n: nat)
    requires mode == SK3X4MX || mode == K8CDBCD
    requires 1 <= bsz <= buffer.Length
    modifies buffer
    ensures n < bsz && n == |Fit(Render(DecodeUnsupported(mode, code0, bits)), bsz)|
    ensures buffer[..n] == Fit(Render(DecodeUnsupported(mode, code0, bits)), bsz) && buffer[n] == NUL
    ensures buffer[n + 1..] == old(buffer[n + 1..])
  {
    var r := Report(NotSupported, mode, Raw(code0), bits);
    RenderNoNul(r);
    n := Emit(buffer, bsz, Render(r));
  }
}
