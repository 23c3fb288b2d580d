/**
 * The small part of the C library the decoders rely on: `%d`, `%X`/`%x`
 * with and without a precision, `snprintf` into a bounded buffer, and
 * `strlen`.  A C string is modelled as an `array<char>` holding the text
 * followed by a NUL character.
 */
module Text {

  const NUL: char := '\0'

  function Pow(b: nat, k: nat): nat
  {
    if k == 0 then 1 else b * Pow(b, k - 1)
  }

  /** The character for digit d (0 <= d < 16), in upper or lower case. */
  function Digit(d: nat, upper: bool): (c: char)
    requires d < 16
    ensures c != NUL
  {
    if d < 10 then ('0' as int + d) as char
    else if upper then ('A' as int + d - 10) as char
    else ('a' as int + d - 10) as char
  }

  /** The value of a digit character in the given base, if it is one. */
  function DigitValue(c: char, base: nat): (v: int)
    ensures -1 <= v < 16
  {
    if '0' <= c <= '9' && (c as int - '0' as int) < base then c as int - '0' as int
    else if base == 16 && 'A' <= c <= 'F' then c as int - 'A' as int + 10
    else if base == 16 && 'a' <= c <= 'f' then c as int - 'a' as int + 10
    else -1
  }

  /** `n` written in base 10 or 16 with no leading zeros ("0" for zero), as `%u` and `%X`/`%x` print it. */
  function Digits(n: nat, base: nat, upper: bool): string
    requires base == 10 || base == 16
    decreases n
  {
    if n < base then [Digit(n, upper)] else Digits(n / base, base, upper) + [Digit(n % base, upper)]
  }

  /** `%d` of a C `int`. */
  function Dec(i: int): string
  {
    if i < 0 then "-" + Digits(-i, 10, true) else Digits(i, 10, true)
  }

  /** `%X` (upper) or `%x` (lower) of an unsigned value. */
  function Hex(n: nat, upper: bool): string
  {
    Digits(n, 16, upper)
  }

  function Zeros(k: nat): (z: string)
    ensures |z| == k && NUL !in z
  {
    if k == 0 then "" else Zeros(k - 1) + "0"
  }

  /** `%w.wX` / `%w.wx`: at least w hexadecimal digits, padded with leading zeros. */
  function HexPad(n: nat, w: nat, upper: bool): string
  {
    var h := Hex(n, upper);
    if |h| < w then Zeros(w - |h|) + h else h
  }

  /** Reads back a digit string; -1 when some character is not a digit of the base. */
  function Parse(s: string, base: nat): int
    decreases |s|
  {
    if s == [] then 0
    else
      var p := Parse(s[..|s| - 1], base);
      var d := DigitValue(s[|s| - 1], base);
      if p < 0 || d < 0 then -1 else p * base + d
  }

  /** Reads back what `%d` prints. */
  function ParseDec(s: string): int
  {
    if |s| > 0 && s[0] == '-' then (if Parse(s[1..], 10) < 0 then 0 else -Parse(s[1..], 10)) else Parse(s, 10)
  }

  lemma DigitRoundTrip(d: nat, base: nat, upper: bool)
    requires d < base && (base == 10 || base == 16)
    ensures DigitValue(Digit(d, upper), base) == d
  {
  }

  lemma {:induction false} ParseAppend(s: string, c: char, base: nat)
    ensures Parse(s + [c], base) ==
      (if Parse(s, base) < 0 || DigitValue(c, base) < 0 then -1 else Parse(s, base) * base + DigitValue(c, base))
  {
    assert (s + [c])[..|s + [c]| - 1] == s;
  }

  /** Rendering in base 10 or 16 is undone by parsing: `%u`, `%X` and `%x` lose no information. */
  lemma {:induction false} DigitsRoundTrip(n: nat, base: nat, upper: bool)
    requires base == 10 || base == 16
    ensures Parse(Digits(n, base, upper), base) == n
    decreases n
  {
    if n < base {
      DigitRoundTrip(n, base, upper);
      ParseAppend([], Digit(n, upper), base);
    } else {
      DigitsRoundTrip(n / base, base, upper);
      DigitRoundTrip(n % base, base, upper);
      ParseAppend(Digits(n / base, base, upper), Digit(n % base, upper), base);
    }
  }

  /** `%d` is undone by ParseDec. */
  lemma DecRoundTrip(i: int)
    ensures ParseDec(Dec(i)) == i
  {
    if i < 0 {
      DigitsRoundTrip(-i, 10, true);
      assert Dec(i)[1..] == Digits(-i, 10, true);
    } else {
      DigitsRoundTrip(i, 10, true);
      DigitsNoNul(i, 10, true);
    }
  }

  /** Leading zeros do not change the value read back, so zero-padded hex round-trips too. */
  lemma {:induction false} ParseZeros(k: nat, s: string)
    ensures Parse(Zeros(k) + s, 16) == Parse(s, 16)
    decreases |s|, k
  {
    if s == [] {
      if k > 0 {
        assert Zeros(k) + s == Zeros(k - 1) + "0";
        ParseAppend(Zeros(k - 1), '0', 16);
        ParseZeros(k - 1, []);
        assert Zeros(k - 1) + [] == Zeros(k - 1);
      }
    } else {
      var t := s[..|s| - 1];
      var c := s[|s| - 1];
      assert s == t + [c];
      assert Zeros(k) + s == (Zeros(k) + t) + [c];
      ParseAppend(Zeros(k) + t, c, 16);
      ParseAppend(t, c, 16);
      ParseZeros(k, t);
    }
  }

  lemma HexPadRoundTrip(n: nat, w: nat, upper: bool)
    ensures Parse(HexPad(n, w, upper), 16) == n
  {
    DigitsRoundTrip(n, 16, upper);
    if |Hex(n, upper)| < w {
      ParseZeros(w - |Hex(n, upper)|, Hex(n, upper));
    }
  }

  /** A value below base^k needs at most k digits, and never more than one when below the base. */
  lemma {:induction false} DigitsLength(n: nat, base: nat, upper: bool, k: nat)
    requires base == 10 || base == 16
    requires 1 <= k && n < Pow(base, k)
    ensures 1 <= |Digits(n, base, upper)| <= k
    ensures NUL !in Digits(n, base, upper)
    decreases k
  {
    if n >= base {
      assert Pow(base, 1) == base;
      assert n / base < Pow(base, k - 1);
      DigitsLength(n / base, base, upper, k - 1);
    }
  }

  /** Every digit string is free of NUL characters. */
  lemma {:induction false} DigitsNoNul(n: nat, base: nat, upper: bool)
    requires base == 10 || base == 16
    ensures NUL !in Digits(n, base, upper) && |Digits(n, base, upper)| >= 1
    ensures Digits(n, base, upper)[0] != '-'
    decreases n
  {
    if n >= base {
      DigitsNoNul(n / base, base, upper);
      assert Digits(n, base, upper)[0] == Digits(n / base, base, upper)[0];
    }
  }

  lemma DecNoNul(i: int)
    ensures NUL !in Dec(i)
  {
    if i < 0 { DigitsNoNul(-i, 10, true); } else { DigitsNoNul(i, 10, true); }
  }

  lemma HexPadNoNul(n: nat, w: nat, upper: bool)
    ensures NUL !in HexPad(n, w, upper)
  {
    DigitsNoNul(n, 16, upper);
  }

  /** A value below 16^w is printed by `%w.wX` in exactly w digits. */
  lemma HexPadLength(n: nat, w: nat, upper: bool)
    requires 1 <= w && n < Pow(16, w)
    ensures |HexPad(n, w, upper)| == w
  {
    DigitsLength(n, 16, upper, w);
  }

  /** What `snprintf(buffer, bsz, ...)` keeps of a text: at most bsz-1 characters. */
  function Fit(text: string, bsz: nat): (t: string)
    requires bsz >= 1
    ensures |t| < bsz && t <= text
    ensures |text| < bsz ==> t == text
  {
    if |text| < bsz then text else text[..bsz - 1]
  }

  /** `snprintf`: the text, cut to bsz-1 characters, then a NUL; the rest of the buffer is untouched. */
  method Snprintf(buffer: array<char>, bsz: nat, text: string)
    requires 1 <= bsz <= buffer.Length
    modifies buffer
    ensures buffer[..|Fit(text, bsz)|] == Fit(text, bsz)
    ensures buffer[|Fit(text, bsz)|] == NUL
    ensures buffer[|Fit(text, bsz)| + 1..] == old(buffer[|Fit(text, bsz)| + 1..])
  {
    var t := Fit(text, bsz);
    var i := 0;
    while i < |t|
      invariant 0 <= i <= |t|
      invariant buffer[..i] == t[..i]
      invariant buffer[i..] == old(buffer[i..])
    {
      buffer[i] := t[i];
      i := i + 1;
    }
    buffer[|t|] := NUL;
  }

  /** `strlen`: the index of the first NUL. */
  method Strlen(buffer: array<char>) returns (n: nat)
    requires NUL in buffer[..]
    ensures n < buffer.Length && buffer[n] == NUL
    ensures NUL !in buffer[..n]
  {
    n := 0;
    while buffer[n] != NUL
      invariant n < buffer.Length
      invariant NUL !in buffer[..n]
      invariant NUL in buffer[n..]
      decreases buffer.Length - n
    {
      assert buffer[n..] == [buffer[n]] + buffer[n + 1..];
      assert buffer[..n + 1] == buffer[..n] + [buffer[n]];
      n := n + 1;
    }
  }

  /**
   * `snprintf(buffer, bsz, ...)` followed by `return strlen(buffer)`, the
   * ending every decoder shares: for a text without NUL characters the
   * result is the length of what was kept.
   */
  method Emit(buffer: array<char>, bsz: nat, text: string) returns (n: nat)
    requires 1 <= bsz <= buffer.Length
    requires NUL !in text
    modifies buffer
    ensures n == |Fit(text, bsz)| && n < bsz
    ensures buffer[..n] == Fit(text, bsz) && buffer[n] == NUL
    ensures buffer[n + 1..] == old(buffer[n + 1..])
  {
    Snprintf(buffer, bsz, text);
    var t := Fit(text, bsz);
    assert NUL in buffer[..] by { assert buffer[..][|t|] == NUL; }
    n := Strlen(buffer);
    assert forall i :: 0 <= i < |t| ==> buffer[i] == t[i] && buffer[i] != NUL;
    assert forall i :: 0 <= i < n ==> buffer[..n][i] != NUL;
  }

  /** `*buffer = 0` followed by `return strlen(buffer)`, the ending of every rejected frame. */
  method Clear(buffer: array<char>, bsz: nat) returns (n: nat)
    requires 1 <= bsz <= buffer.Length
    modifies buffer
    ensures n == |Fit("", bsz)| && n < bsz
    ensures buffer[..n] == Fit("", bsz) && buffer[n] == NUL
    ensures buffer[n + 1..] == old(buffer[n + 1..])
  {
    buffer[0] := NUL;
    assert buffer[..][0] == NUL;
    n := Strlen(buffer);
  }
}
