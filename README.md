# ay-d19m: a Wiegand keypad and card driver, modelled in Dafny

ay-d19m is a Linux character-device driver for the AY-D19M keypad, read over
two Wiegand lines, D0 and D1. Each key press or card produces a frame. The
hard interrupt handler shifts in one bit per falling edge. Once the frame is
complete, the threaded handler decodes it and queues one line of text. A
reader takes those lines from `/dev/ayd19m`. A kernel timer switches the
keypad's power on, checks that it came on, and power-cycles the keypad when a
frame does not complete.

The repository holds two generations of decoder:

- the older one, inside the driver (`fmt_*` of ay-d19m.c, dispatched through
  `ffmt`), which sees both line words, `code0` and `code1`;
- the newer one (decoder.c), which sees `code0` only and writes a line with a
  result code.

This project models:

- both decoder generations, as pure specification functions and as methods
  that follow the C loops and write into a `char` array;
- the vendor bit layouts and tables of the header comments;
- the driver's globals, as one `Driver` class whose methods are the interrupt
  handlers, the file operations and the timer function.

Each method's contract is a step function on an immutable `State` value. The
properties are proved as lemmas about those step functions.

Modules, in dependency order:

- `Bits` — bit parity over windows of a 32-bit word; the two ways the C code
  folds it.
- `Text` — `%d`, `%X`, `%x`, `%8.8X`/`%6.6x`, `snprintf` into a bounded buffer,
  and `strlen`.
- `Formats` — the result-code and mode enums, `MAX_READSZ` of decoder.h, and
  the header bit layouts and tables.
- `Decoder` and `DecoderProps` — decoder.c and what it promises.
- `Legacy` and `LegacyProps` — the older decoders of ay-d19m.c, `wiegandLength`
  and `wiegandMask`.
- `KernelList` — the ring of `todo_list` and `list_for_each_safe`.
- `Driver` and `DriverProps` — the handlers, the file operations, the timer
  function, and their properties.

Integers that the C code keeps in `uint32_t`, `unsigned` or `int` bit masks
are `bv32`. `bitmsk` is a signed `int` in the C code. It only ever holds a
single bit at position 25 or below, or 0, so `>>= 1` on it agrees with the
unsigned shift of the model.

## Model

| member | source | states |
|---|---|---|
| Bits.B2W | decoder.c:22-23 | the C truth value `? 1:0` is 0 or 1, and it is nonzero exactly when the condition holds |
| Bits.ParStep | decoder.c:20-24 | extending a parity window by one bit XORs that bit in, which is what one loop iteration does |
| Bits.ParSplit | decoder.c:20-24 | the parity of a window is the XOR of the parities of any two halves |
| Bits.Par3 | decoder.c:48-52 | the three-bit keypad window written out bit by bit |
| Bits.ShiftBit | ay-d19m.c:114-120 | shifting right by one moves every bit one position down |
| Bits.ParShift1 | ay-d19m.c:114-120 | the parity of the shifted word equals the parity of the original window one position up |
| Bits.ShiftParIsPar | ay-d19m.c:114-120 | taking `d & 1` and shifting right n times computes the parity of bits 0..n-1 |
| Text.Digit | decoder.c:28 | a printed digit is never NUL |
| Text.DigitValue | decoder.c:28 | reading a character back gives -1 or a digit value below 16 |
| Text.DigitRoundTrip | decoder.c:28 | reading back a printed digit gives back that digit |
| Text.ParseAppend | decoder.c:28 | reading a numeral one more digit long multiplies by the base and adds the digit |
| Text.DigitsRoundTrip | decoder.c:28 | the digits printed in any base read back to the number (`%d`, `%X`, `%x`) |
| Text.DecRoundTrip | decoder.c:28 | a signed `%d` reads back to the same integer, negative numbers included |
| Text.Zeros | decoder.c:32 | the zero padding of a precision is k characters, none of them NUL |
| Text.ParseZeros | decoder.c:32 | leading zeros do not change the value read back |
| Text.HexPadRoundTrip | decoder.c:32 | `%8.8X` reads back to the number |
| Text.DigitsLength | decoder.c:28 | a number below base^k prints in 1 to k digits, none of them NUL |
| Text.DigitsNoNul | decoder.c:28 | a numeral is never empty, holds no NUL and does not start with '-' |
| Text.DecNoNul | decoder.c:28 | `%d` output holds no NUL |
| Text.HexPadNoNul | decoder.c:32 | `%8.8X` output holds no NUL |
| Text.HexPadLength | decoder.c:32 | `%8.8X` of a number below 16^8 is exactly 8 characters |
| Text.Fit | decoder.c:28 | what `snprintf` keeps is a prefix of the text, shorter than the buffer size, and the whole text when it fits |
| Text.Snprintf | decoder.c:28-32 | the buffer holds the kept prefix followed by NUL, and nothing after it changes |
| Text.Strlen | decoder.c:35 | the result is the index of the first NUL |
| Text.Emit | decoder.c:28-35 | `snprintf` then `strlen` returns the length of the kept prefix, which is below the buffer size, and the buffer starts with that prefix and a NUL |
| Text.Clear | ay-d19m.c:138-141 | `*buffer = 0; return strlen(buffer)` returns 0 and leaves the empty string |
| Formats.ResultCode.Code | decoder.h:21-26 | RES_OK..RES_NOSUPORT are the numbers 0..3 printed after `R=` |
| Formats.ResultOfCode | decoder.h:21-26 | exactly the numbers below 4 name a result code |
| Formats.ResultCodeRoundTrip | decoder.h:21-26 | result codes and their numbers convert back and forth without loss |
| Formats.Mode.Id | decoder.h:30-41 | the modes SKW06RF..K8CDBCD and WIEGAND26 are the numbers 0..8 |
| Formats.ModeOfId | decoder.h:30-41 | exactly the numbers up to 8 name a mode |
| Formats.ModeRoundTrip | decoder.h:30-41 | modes and their numbers convert back and forth without loss |
| Formats.Frame6 | decoder.h:48-52 | the (EP) AAAA (OP) layout puts the 4-bit key code in bits 1..4 of a 6-bit word |
| Formats.Frame8 | decoder.h:94-98 | the 8-bit layout has the key in the low nibble and its complement in the high nibble |
| Formats.CardData | decoder.h:133-138 | the 24 data bits are the 8-bit facility above the 16-bit number |
| Formats.RFCode | decoder.h:53-64 | the SKW06RF key codes of the table are 4-bit values |
| Formats.RFTableFollowsLayout | decoder.h:53-64 | every SKW06RF table row is its key code laid out as (EP) AAAA (OP) |
| Formats.NPTableFollowsLayout | decoder.h:78-89 | every SKW06NP table row is its row number laid out as (EP) AAAA (OP) |
| Formats.NCTableFollowsLayout | decoder.h:99-110 | every SKW08NC table row has its high nibble equal to the complement of its low nibble |
| Decoder.Fold3 | decoder.c:48-52 | the loop leaves `ep` = XOR of bits 0..2 and `op` = 1 XOR bits 3..5, and `ep & op` is the keypad parity check |
| Decoder.Fold13 | decoder.c:20-24 | the loop leaves `ep` = XOR of bits 0..12 and `op` = 1 XOR bits 13..25, and `ep & op` is the card parity check |
| Decoder.KeyCode | decoder.c:46 | `(code0 >> 1) & 0xF` is below 16 |
| Decoder.DigitKey | decoder.c:63 | `'0' + code` is never NUL |
| Decoder.NCKey | decoder.c:122-124 | the SKW08NC and SKW06NP key is never NUL |
| Decoder.DecodeSKW06RF | decoder.c:40-75 | R=0 with the key of the code exactly when both parities hold and the code is one of 1..11 or 14; a parity failure gives R=1 and a parity-correct code outside the table R=2, both with the raw word; M=0 and L echoes bits |
| Decoder.DecodeSKW06NP | decoder.c:78-113 | R=0 with the key of the code exactly when both parities hold and the code is below 12; a parity failure gives R=1 and a parity-correct code of 12 or more R=2, both with the raw word; M=1 and L echoes bits |
| Decoder.DecodeSKW08NC | decoder.c:116-135 | R=0 with the key of the low nibble exactly when the high nibble is its complement; otherwise R=2 with the raw word, never a parity error |
| Decoder.DecodeCard | decoder.c:138-191 | `wiegand26` (decoder.c:11-37) and the 26-bit card decoders give R=0 with the facility at `>>16` and the number at `>>1` exactly when both parities hold, and R=1 with the raw word otherwise, with their own mode and bit count |
| Decoder.DecodeK6W26BCD | decoder.c:194-218 | R=0 with the 24 data bits exactly when both parities hold, R=1 with the raw word otherwise, in mode K6W26BCD |
| Decoder.DecodeUnsupported | decoder.c:220-230 | SK3X4MX and K8CDBCD report R=3 whatever the frame, with the raw word as payload and their own mode and bit count |
| Decoder.RenderNoNul | decoder.c:28-32 | a printed line holds no NUL when its key is not NUL |
| Decoder.RenderFields | decoder.c:65 | every line starts `R=<result>, M=<mode>` with one digit each |
| Decoder.Wiegand26 | decoder.c:11-37 | the buffer receives the rendering of the card report with L=26, cut to the buffer, and the return value is its length |
| Decoder.FormatSKW06RF | decoder.c:40-75 | the buffer receives the rendering of DecodeSKW06RF, cut to the buffer; the return value is its length |
| Decoder.FormatSKW06NP | decoder.c:78-113 | the same for DecodeSKW06NP |
| Decoder.FormatSKW08NC | decoder.c:116-135 | the same for DecodeSKW08NC |
| Decoder.FormatCard | decoder.c:138-191 | the same for K4W26BF and K5W26FC |
| Decoder.FormatK6W26BCD | decoder.c:194-218 | the same for DecodeK6W26BCD |
| Decoder.FormatUnsupported | decoder.c:220-230 | the same for SK3X4MX and K8CDBCD |
| DecoderProps.Frame6Passes | decoder.h:44-52 | every key code laid out as (EP) AAAA (OP) passes the parity check and reads back as that code |
| DecoderProps.Frame6Unique | decoder.h:44-52 | a 6-bit word passing the check is the layout of its own key code |
| DecoderProps.KeyLine | decoder.c:65 | an accepted key prints as `R=0, M=<m>, K='<k>', L=<bits>` |
| DecoderProps.RFKeyOfRow | decoder.c:58-63 | the SKW06RF key map sends each table code to its table key |
| DecoderProps.RFTableDecodes | decoder.h:53-64 | every SKW06RF table row decodes with bits=6 to R=0 and its key |
| DecoderProps.NPKeyOfRow | decoder.c:96-101 | the SKW06NP key map sends code i to key i of the table |
| DecoderProps.NPTableDecodes | decoder.h:78-89 | every SKW06NP table row decodes to R=0 and its key |
| DecoderProps.RFRow | decoder.h:53-64 | every accepted SKW06RF code names a table row |
| DecoderProps.RFAcceptsOnlyTable | decoder.c:56-64 | a frame SKW06RF accepts is exactly a table row, and its key is that row's key |
| DecoderProps.NPAcceptsOnlyTable | decoder.c:94-102 | a frame SKW06NP accepts is exactly a table row, and its key is that row's key |
| DecoderProps.KeypadBitError | decoder.c:48-72 | one flipped bit in an accepted keypad frame is always reported as R=1 |
| DecoderProps.NCTableDecodes | decoder.h:99-110 | every SKW08NC table row decodes to R=0 and its key |
| DecoderProps.NCKeyOfRow | decoder.c:122-124 | the SKW08NC key map sends code i to key i of the table |
| DecoderProps.NCAcceptsIff | decoder.c:118-131 | for every word, SKW08NC gives R=0 exactly when its low byte is the 8-bit layout of its low nibble |
| DecoderProps.NibblesOfLowByte | decoder.c:118-119 | the low byte of a word is its high nibble above its low nibble |
| DecoderProps.NCNoRangeCheck | decoder.c:120-125 | code 12 with its complement is accepted and printed as the key '<' |
| DecoderProps.Bit0Flip | decoder.c:22 | flipping bit 0 leaves every other bit unchanged |
| DecoderProps.Bit25Flip | decoder.c:23 | flipping bit 25 leaves every other bit unchanged |
| DecoderProps.Flip0Outside | decoder.c:20-24 | flipping bit 0 does not change the parity of a window that does not contain it |
| DecoderProps.Flip25Outside | decoder.c:20-24 | flipping bit 25 does not change the parity of a window that does not contain it |
| DecoderProps.DataBitsClear | decoder.h:133 | the data bits laid out in bits 1..24 leave bits 0 and 25 clear |
| DecoderProps.LayoutData | decoder.h:133-138 | the 26-bit layout keeps the 24 data bits in bits 1..24 |
| DecoderProps.LayoutParityBits | decoder.h:133-136 | the layout puts EP in bit 25 and OP in bit 0 |
| DecoderProps.LayoutLow | decoder.h:133-136 | the low window's parity is OP XOR the low data bits |
| DecoderProps.LayoutHigh | decoder.h:133-136 | the high window's parity is EP XOR the high data bits |
| DecoderProps.Frame26Is | decoder.h:133-136 | the frame of given data bits is the layout whose parity bits satisfy both checks |
| DecoderProps.Frame26Low | decoder.c:20-24 | in a laid-out frame bits 0..12 have odd parity |
| DecoderProps.Frame26High | decoder.c:20-24 | in a laid-out frame bits 13..25 have even parity |
| DecoderProps.Frame26Passes | decoder.h:133-138 | every laid-out 26-bit frame passes the decoders' parity check |
| DecoderProps.Frame26Data | decoder.h:133-138 | a laid-out frame is a 26-bit word whose bits 1..24 are the data |
| DecoderProps.Frame26Unique | decoder.c:20-26 | a word that passes the check is the layout of its own data bits |
| DecoderProps.CardDecodes | decoder.c:144-156 | a frame with facility f and number n decodes to R=0 with number n and the facility read from bits 16..23 |
| DecoderProps.CardWordDecodes | decoder.c:144-156 | a passing word decodes to R=0 with the facility and number it holds at `>>16` and `>>1` |
| DecoderProps.FacilityField | decoder.c:145 | the reported facility of a laid-out frame is `(code0 >> 16) & 0xFF` |
| DecoderProps.DataFields | decoder.c:144-145 | bits 17..24 of a laid-out frame are the facility and bits 1..16 the number |
| DecoderProps.FacilityOffByOne | decoder.c:18 | the frame of facility 1 and number 0 is reported as facility 2 |
| DecoderProps.CardAcceptsIff | decoder.c:144-159 | for every word, the card decoders give R=0 exactly when its low 26 bits are the (EP) ... (OP) layout of its data bits |
| DecoderProps.BcdAcceptsIff | decoder.c:199-214 | the same for K6W26BCD |
| DecoderProps.FrameBitsIff | decoder.c:20-26 | a word passes the 26-bit check exactly when its low 26 bits are the layout of its data bits |
| DecoderProps.MaskedData | decoder.c:144-145 | cutting a word to 26 bits keeps its data bits |
| DecoderProps.MaskedBit | decoder.c:22-23 | cutting a word to 26 bits keeps each bit below 26 |
| DecoderProps.MaskedPar | decoder.c:20-26 | cutting a word to 26 bits keeps the parity of any range below bit 26 |
| DecoderProps.BcdDecodes | decoder.c:194-214 | a laid-out BCD frame decodes to R=0 with its 24 data bits |
| DecoderProps.DecLength | decoder.c:28 | `%d` of a number below 10^k takes 1 to k characters |
| DecoderProps.HexLength | decoder.c:210 | `%X` of a number below 16^k takes 1 to k characters |
| DecoderProps.RenderLength | decoder.c:28 | for a bit count 0..99, a line is at most 16 characters longer than its payload |
| DecoderProps.RawLength | decoder.c:32 | the `D=%8.8X` payload is 10 characters |
| DecoderProps.KeypadFits | decoder.h:15 | for a bit count 0..99, every keypad and unsupported line is shorter than MAX_READSZ (35) |
| DecoderProps.CardPayloadLength | decoder.c:155 | a card payload takes at most 15 characters |
| DecoderProps.CardFits | decoder.h:15 | for a bit count 0..99, every card line is shorter than MAX_READSZ |
| DecoderProps.BcdFits | decoder.h:15 | for a bit count 0..99, every BCD line is shorter than MAX_READSZ |
| Legacy.MaskCoversFrame | ay-d19m.c:530 | `2*wiegandMask-1` is 0x3F, 0xFF or 0x3FFFFFF, the value each decoder demands of `code0 ^ code1`; the unsupported modes have a one-bit frame |
| Legacy.OldKeypadParity | ay-d19m.c:103-121 | the older keypad check (EP = XOR of bits 3..4, OP = 1 XOR bits 1..2) is the newer one |
| Legacy.OldCardParity | ay-d19m.c:225-242 | the older 26-bit check (12-bit windows beside EP and OP) is the newer one |
| Legacy.XorB2W | ay-d19m.c:114-115 | XOR of two C truth values is the truth value of their XOR |
| Legacy.LowBitB2W | ay-d19m.c:114-115 | `x & 1` is a C truth value |
| Legacy.FoldStep | ay-d19m.c:114-118 | one loop iteration moves one bit from `dep` into `cep` |
| Legacy.ShiftFold | ay-d19m.c:112-119 | the loop leaves `cep` = XOR of k bits of `dep` and `cop` = 1 XOR k bits of `dop` |
| Legacy.HighKeyWindow | ay-d19m.c:110 | `0x7 & (code0 >> 3)` holds bits 3..4 for the two-bit fold |
| Legacy.LowKeyWindow | ay-d19m.c:111 | `0x7 & (code0 >> 1)` holds bits 1..2 for the two-bit fold |
| Legacy.HighWindowBit | ay-d19m.c:232 | bit i of `0xFFF & (code0 >> 13)` is bit 13+i |
| Legacy.LowWindowBit | ay-d19m.c:233 | bit i of `0xFFF & (code0 >> 1)` is bit 1+i |
| Legacy.HighWindowPar | ay-d19m.c:232-241 | the fold over the high window is the parity of bits 13..24 |
| Legacy.LowWindowPar | ay-d19m.c:233-241 | the fold over the low window is the parity of bits 1..12 |
| Legacy.KeypadFold | ay-d19m.c:104-121 | `ep == cep && op == cop` holds exactly when the older keypad parity holds |
| Legacy.CardFold | ay-d19m.c:225-242 | the same for the 26-bit card decoders |
| Legacy.BcdWindows | ay-d19m.c:312-316 | K6W26BCD's windows of `code` are the same bits as the card windows of `code0` |
| Legacy.BcdFold | ay-d19m.c:309-325 | K6W26BCD's check holds exactly when the older 26-bit parity holds |
| Legacy.OldRFKey | ay-d19m.c:124-127 | the older SKW06RF key is never NUL |
| Legacy.KeyTextNoNul | ay-d19m.c:128 | `"M=%d, K=%c"` holds no NUL |
| Legacy.CardTextNoNul | ay-d19m.c:244 | `"M=%d, F=%d, C=%d\n"` holds no NUL |
| Legacy.BcdTextNoNul | ay-d19m.c:327 | `"M=%d,C=%6.6x\n"` holds no NUL |
| Legacy.UnsupportedTextNoNul | ay-d19m.c:344 | `"Error: Unsupported mode %d"` holds no NUL |
| Legacy.RFAccepted | ay-d19m.c:102-128 | a complemented pair whose loop result matches EP and OP prints its key |
| Legacy.RFRejected | ay-d19m.c:129-141 | otherwise SKW06RF leaves the empty string |
| Legacy.NPAccepted | ay-d19m.c:152-176 | the same acceptance for SKW06NP |
| Legacy.NPRejected | ay-d19m.c:178-190 | the same rejection for SKW06NP |
| Legacy.CardAccepted | ay-d19m.c:223-245 | an accepted 26-bit frame prints facility `(code0>>17)&0xFF` and code `(code0>>1)&0xFFFF` |
| Legacy.CardRejected | ay-d19m.c:246-254 | otherwise the card decoders leave the empty string |
| Legacy.BcdAccepted | ay-d19m.c:307-328 | an accepted BCD frame prints its 24 data bits in six hex digits |
| Legacy.BcdRejected | ay-d19m.c:329-337 | otherwise K6W26BCD leaves the empty string |
| Legacy.OldSKW06RF | ay-d19m.c:96-144 | the buffer receives RFDecode cut to the buffer, and the return value is its length |
| Legacy.OldSKW06NP | ay-d19m.c:146-193 | the same for NPDecode |
| Legacy.OldSKW08NC | ay-d19m.c:195-215 | the same for NCDecode |
| Legacy.OldCard | ay-d19m.c:217-299 | the same for the two 26-bit card decoders |
| Legacy.OldK6W26BCD | ay-d19m.c:301-340 | the same for BcdDecode |
| Legacy.OldUnsupported | ay-d19m.c:342-352 | the same for the unsupported-mode text |
| Legacy.Ffmt | ay-d19m.c:354-365 | `ffmt[mode]` writes OldDecode of that mode, cut to the buffer, and returns its length |
| LegacyProps.KeyTextNonEmpty | ay-d19m.c:128 | a key text is never empty |
| LegacyProps.CardTextNonEmpty | ay-d19m.c:244 | a card text is never empty |
| LegacyProps.BcdTextNonEmpty | ay-d19m.c:327 | a BCD text is never empty |
| LegacyProps.OldEmptyIff | ay-d19m.c:96-352 | a decoder leaves the empty string exactly when it rejects the frame |
| LegacyProps.NotComplementRejected | ay-d19m.c:96-340 | a pair that is not complementary over the frame is always rejected |
| LegacyProps.OldRFAgrees | ay-d19m.c:96-144 | with the complement as code1, the older SKW06RF accepts exactly the frames the newer one finds parity-correct, with the same key |
| LegacyProps.OldNPAgrees | ay-d19m.c:146-193 | the same for SKW06NP |
| LegacyProps.OldNCAgrees | ay-d19m.c:195-215 | the older SKW08NC accepts exactly what the newer one gives R=0, with the same key |
| LegacyProps.OldRFTable | ay-d19m.h:65-76 | each SKW06RF table row with its 6-bit complement prints `M=0, K=<key>` |
| LegacyProps.OldNPTable | ay-d19m.h:87-98 | each SKW06NP table row with its complement prints `M=1, K=<key>` |
| LegacyProps.OldNCTable | ay-d19m.h:105-116 | each SKW08NC table row with its 8-bit complement prints `M=2, K=<key>` |
| LegacyProps.OldKeypadNoRangeCheck | ay-d19m.c:122-128 | the older keypad decoders print any parity-correct code, e.g. code 12 as '<', where the newer ones report R=2 |
| LegacyProps.OldCardAgrees | ay-d19m.c:217-299 | with the complement as code1, the older card decoders accept exactly the frames with correct card parity |
| LegacyProps.OldCardDecodes | ay-d19m.h:136-141 | a correctly laid-out frame with facility f and number n prints `M=<m>, F=f, C=n` |
| LegacyProps.OldCardWord | ay-d19m.c:228-229 | the same stated for any accepted word holding f and n |
| LegacyProps.OldCardAccepts | ay-d19m.c:223-245 | an accepted word prints the fields at `>>17` and `>>1` |
| LegacyProps.OldFacility | ay-d19m.c:229 | the frame the newer decoder reports as facility 2 is printed by the older one as facility 1 |
| LegacyProps.OldBcdDecodes | ay-d19m.c:301-340 | a correctly laid-out BCD frame prints its 24 data bits |
| LegacyProps.ModeDigit | ay-d19m.h:44-53 | every mode prints as one digit |
| LegacyProps.OldDecodeSize | ay-d19m.c:632-635 | every decoder text is at most 25 characters without NUL, so `ffmt` with 28 bytes never cuts it |
| LegacyProps.CardTextSize | ay-d19m.c:244 | a card text takes at most 20 characters |
| LegacyProps.BcdTextSize | ay-d19m.c:327 | a BCD text takes 13 characters |
| LegacyProps.KeyTextSize | ay-d19m.c:128 | a key text takes 8 characters |
| LegacyProps.UnsupportedTextSize | ay-d19m.c:344 | the unsupported-mode text takes 25 characters |
| LegacyProps.CardDecodeSize | ay-d19m.c:217-299 | a card decoder prints at most 20 characters |
| LegacyProps.BcdDecodeSize | ay-d19m.c:301-340 | K6W26BCD prints at most 13 characters |
| KernelList.Next | ay-d19m.c:436-441 | `->next` stays inside the ring |
| KernelList.ForEachSafe | ay-d19m.c:436-441 | the loop visits the ring from the successor of the given node up to that node, excluded |
| KernelList.AroundTail | ay-d19m.c:436-441 | walking from record p to the list head visits p..k in order |
| KernelList.DrainFromFirst | ay-d19m.c:436 | given `todo_list.next`, the loop never frees the first record and hands the list head itself to `kfree` |
| KernelList.DrainFromFirstRound | ay-d19m.c:436 | the walk from the second record to the first passes records 2..k and then the list head |
| KernelList.AroundUpToEnd | ay-d19m.c:436 | the walk from record p to the first record passes p..k and then the list head |
| KernelList.DrainFromHead | ay-d19m.c:436-441 | given the list head, the loop visits every record once, in queue order, and never the head |
| Driver.Loaded | ay-d19m.c:68-72 | after loading, the state is valid and the next edge does not start a frame, because `bitmsk` is 0 |
| Driver.Restart | ay-d19m.c:656-657 | a restarted frame makes the next edge the first bit |
| Driver.Sample | ay-d19m.c:607-626 | one edge keeps the invariant and the records; the first bit of a frame arms the timer at HZ/10, later bits leave it |
| Driver.Deliver | ay-d19m.c:628-659 | a complete frame keeps the invariant, adds at most one record at the tail, and restarts the frame |
| Driver.Enqueue | ay-d19m.c:636-657 | the same for a given decoder text |
| Driver.ReadStepAsWritten | ay-d19m.c:370-419 | the read as written keeps the invariant, the open flag, the power and the timer; it removes the head record exactly when the read is not interrupted and the position is at or past the record's end, or the position is 0 and one copy takes the whole record with its NUL; a copy that keeps the record sets the position to the number of bytes copied (`*f_pos = n`); the bytes are the stored record from the old position on |
| Driver.ReadStep | ay-d19m.c:370-419 | the read with the position advanced (`*f_pos += n`) keeps the same frame facts; it removes the head record exactly when the read is not interrupted and the position is at or past the record's end, or this copy reaches the end of the stored record; a copy that keeps the record moves the position past the bytes copied |
| Driver.ReadHead | ay-d19m.c:388-415 | reading from a non-empty queue removes at most the head record |
| Driver.CopyOut | ay-d19m.c:391-407 | copying from the head record removes at most that record and keeps the invariant |
| Driver.Advance | ay-d19m.c:398-405 | advancing the position keeps the invariant and removes at most the head record |
| Driver.OpenStep | ay-d19m.c:454-479 | an open succeeds exactly when it is read-only, not interrupted and the device is not open; success sets `isOpen`, position 0 and the timer; failure changes nothing |
| Driver.ReleaseStep | ay-d19m.c:421-449 | an interrupted close changes nothing; any other close leaves the device closed, returns 0 exactly when it was open, and a blocking one switches the power off and empties the queue; the timer and `state` stay |
| Driver.Cycle | ay-d19m.c:661-700 | `state` stays within 0..5; with the power read back high, states 1..3 go to 5 and cancel the timer, and that is the only way the timer is cancelled |
| Driver.Expire | ay-d19m.c:661-703 | the timer function keeps the invariant, the records, the open flag and the position, and restarts the frame |
| Driver.Terminate | ay-d19m.c:641-648 | appending '\n' and NUL to the text in `rbuffer` gives the record `text + "\n"` |
| Driver.Driver.constructor | ay-d19m.c:527-530 | the object starts in the loaded state |
| Driver.Driver.IrqData | ay-d19m.c:607-626 | the handler performs Sample, and it wakes the thread exactly when `bitmsk` has become 0 |
| Driver.Driver.IrqThread | ay-d19m.c:628-659 | the handler performs Deliver |
| Driver.Driver.Format | ay-d19m.c:632-642 | `ffmt` into the 30-byte `rbuffer` returns the length of the decoder text, and a non-empty text becomes the text and '\n' |
| Driver.Driver.Queue | ay-d19m.c:644-657 | the queueing half performs Enqueue |
| Driver.Driver.Read | ay-d19m.c:370-419 | the read performs ReadStep |
| Driver.Driver.TakeHead | ay-d19m.c:388-414 | the part of the read that takes from the head record performs ReadHead |
| Driver.Driver.Copy | ay-d19m.c:391-407 | computing n the C way and copying performs CopyOut |
| Driver.Driver.MoveOn | ay-d19m.c:398-405 | moving the position performs Advance |
| Driver.Driver.Open | ay-d19m.c:454-479 | the open performs OpenStep |
| Driver.Driver.Release | ay-d19m.c:421-449 | the close performs ReleaseStep, freeing the records by walking the ring from the list head |
| Driver.Driver.TimeoutFunc | ay-d19m.c:661-703 | the timer function performs Expire |
| Driver.Driver.Switch | ay-d19m.c:666-700 | the switch performs Cycle on the power pin, `state` and the timer, and changes nothing else the file operations see |
| DriverProps.BitmskAfter | ay-d19m.c:623 | after n edges `bitmsk` has moved n bits down |
| DriverProps.BitOfPow2 | ay-d19m.c:623 | a bit mask shifted down stays a single bit or 0 |
| DriverProps.Capture | ay-d19m.c:610-623 | after a frame's edges from a restart, `data0` and `data1` hold, at each edge's bit, what D0 and D1 read there |
| DriverProps.CaptureSplits | ay-d19m.c:612-620 | when exactly one line reads high at every edge, the two words share no bit and together cover every bit of the frame |
| DriverProps.ModeBits | ay-d19m.c:530 | `wiegandMask` is a single bit, and wiegandLength[mode] shifts down from it leave bit 0 |
| DriverProps.FrameLength | ay-d19m.c:623-625 | from a restart the handler wakes the thread exactly at edge wiegandLength[mode]+1 |
| DriverProps.FrameSplits | ay-d19m.c:612-620 | a frame in which one line is high at every edge gives `data0 ^ data1 == 2*wiegandMask-1` |
| DriverProps.WordBit | ay-d19m.c:612-620 | the bit of edge k in a captured word is the level its line had at edge k |
| DriverProps.FrameDisagrees | ay-d19m.c:612-620 | a frame with an edge where both lines or neither are high does not give `2*wiegandMask-1` |
| DriverProps.FrameCheck | ay-d19m.c:612-620 | the complement check passes exactly when one line was high at every edge |
| DriverProps.FrameAt | ay-d19m.c:610-623 | the captured words, and the check on them, for any frame started at the mask |
| DriverProps.FrameCapture | ay-d19m.c:610-625 | a complete frame of a driver mode holds the lines' levels and passes the complement check exactly when one line was high at every edge |
| DriverProps.GarbledFrameDropped | ay-d19m.c:96-340 | a complete keypad or card frame with an edge where the lines do not differ is always rejected |
| DriverProps.SamplesShift | ay-d19m.c:607-626 | a run of edges changes only the frame (as Shifts computes it) and the timer: the mask, the mode, the records, the power, the power state, the open flag and the file position stay |
| DriverProps.LoadedFirstEdge | ay-d19m.c:607-626 | right after loading, the first edge wakes the thread with empty words; only the unsupported modes then queue anything |
| DriverProps.UnsupportedNonEmpty | ay-d19m.c:342-352 | the unsupported-mode text is never empty |
| DriverProps.DeliverQueues | ay-d19m.c:635-653 | the thread adds a record exactly when memory was found and the decoder accepted; that record is the text and '\n', and only then is the timer cancelled |
| DriverProps.ReadEmpty | ay-d19m.c:380-418 | on an empty queue a non-blocking read returns 0 and a blocking one ends only by a signal; neither changes anything |
| DriverProps.ReadWhole | ay-d19m.c:388-407 | a read at position 0 with room for the whole record returns it with its NUL and removes it |
| DriverProps.ChunksDeliver | ay-d19m.c:388-407 | reads of any size, repeated, return the rest of the head record with its NUL, then remove it and reset the position |
| DriverProps.ReadShortAsWritten | ay-d19m.c:392-398 | as written, a first read smaller than the record returns its first count bytes and sets the position to count |
| DriverProps.ReadStuckAsWritten | ay-d19m.c:392-400 | as written, a read at position count with count bytes left returns the same bytes again and changes nothing |
| DriverProps.ReadExample | ay-d19m.c:392-400 | "M=0, K=1\n" read 4 bytes at a time: as written it returns " K=1" forever; corrected it is delivered whole and removed |
| DriverProps.SingleOpen | ay-d19m.c:457-473 | while the device is open, every open fails and changes nothing |
| DriverProps.OpenTwice | ay-d19m.c:462-473 | a second read-only open gives -EBUSY |
| DriverProps.ReleaseThenOpen | ay-d19m.c:423-466 | after a completed close the next open succeeds; after an interrupted one it gives -EBUSY |
| DriverProps.ReleaseKeeps | ay-d19m.c:431-444 | a non-blocking close only clears `isOpen`; a blocking one also empties the queue and switches the power off |
| DriverProps.Cycles | ay-d19m.c:661-700 | the timer function run repeatedly never leaves `state` 0..5 |
| DriverProps.PowerUp | ay-d19m.c:668-688 | from state 0, the power is on and the timer stopped in state 5 as soon as one of three read-backs is high, else state 4 is reached |
| DriverProps.PowerGivesUp | ay-d19m.c:689-693 | state 4 gives up: `state` goes to 0 and the timer gets the absolute expiry 60*HZ |
| DriverProps.UnqueuedFramePowerCycles | ay-d19m.c:615-698 | in state 5, a frame that queues nothing leaves the frame timeout armed, and when it expires the power goes off and starts over a second later |
| DriverProps.QueuedFrameKeepsPower | ay-d19m.c:644-647 | a frame that queues a record cancels the timeout and keeps the power |

## Reference definitions

These functions carry no contract of their own. The rows above state their properties. Each one models these lines:

- Formats.SKW06RFTable, Formats.SKW06NPTable, Formats.SKW08NCTable: the key tables at decoder.h:53-64, decoder.h:78-89 and decoder.h:99-110.
- Decoder.PayloadText: the payload fields of the decoder.c format strings, `K='%c'` (decoder.c:65), `F=%d, D=%d` (decoder.c:155), `F=%d, D=%X` (decoder.c:28), `D=%X` (decoder.c:210) and `D=%8.8X` (decoder.c:68).
- Decoder.Render: the whole line `R=%d, M=%d, <payload>, L=%d` of decoder.c:65-72 and the other decoders' snprintf calls.
- Legacy.WiegandLength: the `wiegandLength` table at ay-d19m.c:68.
- Legacy.MaskOf: `wiegandMask = 1 << wiegandLength[mode]` at ay-d19m.c:530.
- Legacy.KeyText, Legacy.CardText, Legacy.BcdText, Legacy.UnsupportedText: the older format strings at ay-d19m.c:128, 244, 327 and 344.
- Legacy.RFDecode: the checks and key lookup of ay-d19m.c:96-144.
- Legacy.NPDecode: ay-d19m.c:146-193.
- Legacy.NCDecode: ay-d19m.c:195-215.
- Legacy.CardDecode: ay-d19m.c:217-299.
- Legacy.BcdDecode: ay-d19m.c:301-340.
- Legacy.OldDecode: the `ffmt` table at ay-d19m.c:354-365, with Legacy.UnsupportedText for the modes of ay-d19m.c:342-352.
- Driver.Latch: the update of one word at one edge, ay-d19m.c:610-621.
- Driver.Shift: one edge of the hard handler, both words and `bitmsk >>= 1`, ay-d19m.c:607-623.

## Left out

- Module init and cleanup beyond the driver's own state are not modelled: module parameters, GPIO, IRQ, chrdev, class and device registration. The mode is fixed at construction.
- `printk` logging: side output only.
- Concurrency between the hard handler, the threaded handler, the timer and the reader is not modelled. Each handler and file operation is one sequential step. The mutex, the wait queue and `wake_up` appear only as their outcomes: an interrupted lock or wait is a parameter that selects the error return.
- Driver.Driver.Read: a blocking read of an empty queue is modelled only by the outcome of a signal ending the wait (-ERESTARTSYS). A wait that ends because a record arrives is the same read issued again once the queue is non-empty.
- Real time and jiffies: each timer is a delay tag, either relative to now or absolute.
- The threaded handler may run when `bitmsk` reaches 0. Whether the timer is still pending at that moment (the handler races the timer) is not modelled.
- `kmalloc` failure is a boolean parameter. `kfree`, `list_del` and the `list_head` pointers are modelled through the node positions of a ring (KernelList), not as memory.
- `copy_to_user`'s shortfall is a parameter, bounded by what it was asked to copy.
- The GPIO levels read on D0, D1 and the power pin are parameters.
- `snprintf` is modelled only for the conversions the decoders use: decimal, upper- and lower-case hexadecimal, and precision padding.
- The SK3X4MX matrix protocol and the K8CDBCD clock-and-data protocol described in the headers are not modelled: the code implements neither and only prints an unsupported-mode message.
- The newer decoders of decoder.c are modelled standalone. The code that calls them is not part of this model.
- Driver.Driver.Read: performs the corrected read Driver.ReadStep (`*f_pos += n`), not ay-d19m.c:398's `*f_pos = n`; the read as written is Driver.ReadStepAsWritten, a function on the driver state, and the Findings table states how the two differ.
- Driver.Driver.TakeHead: performs the corrected Driver.ReadHead, for the same reason as Driver.Driver.Read.
- Driver.Driver.Copy: performs the corrected Driver.CopyOut, for the same reason as Driver.Driver.Read.
- Driver.Driver.MoveOn: advances the position by the bytes copied (Driver.Advance) where ay-d19m.c:398 sets it to them, for the same reason as Driver.Driver.Read.
- DecoderProps.RenderLength: proved only for a bit count 0..99. The decoders accept any `int bits`, and a wider count (1000000, or -2147483648) makes lines of 35 characters or more, so no bound is promised for those.
- DecoderProps.KeypadFits: the bound below MAX_READSZ holds only for a bit count 0..99, for the same reason.
- DecoderProps.CardFits: the bound below MAX_READSZ holds only for a bit count 0..99, for the same reason.
- DecoderProps.BcdFits: the bound below MAX_READSZ holds only for a bit count 0..99, for the same reason.
- Every decoder method, newer (Decoder.Format*, Decoder.Wiegand26) and older (Legacy.Old*, Legacy.Ffmt), requires a buffer size of at least 1. With a size of 0 the C writes the terminating NUL into a zero-size buffer or runs `strlen` over a buffer nothing wrote, which is undefined behaviour.
- DecoderProps.KeypadBitError: a single flipped bit is proved to be detected only for the 6-bit keypad frames. No such lemma is stated for the 26-bit frames.

## Findings

| source | as written | input that shows it | evidently intended | confidence | as-written member | corrected member |
|---|---|---|---|---|---|---|
| ay-d19m.c:436 | `list_for_each_safe(p, n, todo_list.next)` takes the first record as the loop head (also at line 506) | a queue of one record: the loop frees the static list head `todo_list` and never frees the record | `list_for_each_safe(p, n, &todo_list)`, which frees every record once | not executed | KernelList.DrainFromFirst | KernelList.DrainFromHead |
| ay-d19m.c:398 | `*f_pos = n` sets the file position to the number of bytes just copied | the record "M=0, K=1\n" read 4 bytes at a time: the first read returns "M=0,", every later read returns " K=1", and the record is never removed | `*f_pos += n`, so that successive reads deliver the record and its NUL, and then remove it | not executed | DriverProps.ReadStuckAsWritten | DriverProps.ChunksDeliver |

Driver.Driver.Release and Driver.Driver.Read follow the corrected behaviour. For the read this is Driver.ReadStep, with the record removed once the position has passed its last character. Driver.ReadStepAsWritten keeps the code as written. DriverProps.ReadExample states both behaviours on the input above.

## Source quirks

These behaviours are modelled as written and stated as lemmas.

- The newer card decoders read the facility as `(code0 >> 16) & 0xFF` (decoder.c:18, 145, 173). This overlaps the top bit of the 16-bit number. The older ones read `(code0 >> 17) & 0xFF` (ay-d19m.c:229, 271). See DecoderProps.FacilityOffByOne and LegacyProps.OldFacility.
- The newer SKW08NC decoder has no range check (decoder.c:120-125): see DecoderProps.NCNoRangeCheck. The older keypad decoders print every parity-correct code: see LegacyProps.OldKeypadNoRangeCheck.
- A frame ends when `bitmsk` reaches 0, after wiegandLength[mode]+1 edges (ay-d19m.c:623-625), not after a silence: see DriverProps.FrameLength.
- The frame timeout is armed only at the first bit of a frame (ay-d19m.c:610-616), not at every edge; the model follows the code: see Driver.Sample.
- `bitmsk` starts at 0 (ay-d19m.c:70), so until the timer function first runs, the first edge completes a frame of empty words: see DriverProps.LoadedFirstEdge.
- `mod_timer` is given `HZ/4` and `60*HZ` as absolute expiry times (ay-d19m.c:466, 692), not as delays from now; when such a timer fires depends on the current jiffies. The model tags them `At`, apart from the relative delays, which are tagged `After`, and gives neither any timing.
- In state 5, a frame that a decoder rejects leaves the 100 ms frame timeout armed. The keypad's power is then cycled (ay-d19m.c:694-698): see DriverProps.UnqueuedFramePowerCycles.
- A non-blocking close keeps the queued records and the power (ay-d19m.c:431): see DriverProps.ReleaseKeeps.
- The older 26-bit card texts already end in '\n', so their records end in two newlines (ay-d19m.c:244, 641).
