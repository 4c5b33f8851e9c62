/** The parser for `0x`-prefixed byte literals used by the 8-bit colour shapes
    (`de::parse_hex` in src/lib.rs). After the literal `0x` prefix is stripped,
    the rest is read as Rust's `u8::from_str_radix(_, 16)` reads it: an optional
    leading `+`, then one or more hexadecimal digits of either case, read left
    to right, failing on the first bad digit or as soon as the value passes 255. */
module Hex {
  import opened Wrappers
  import opened Iced

  /** The messages of the standard library's integer-parse errors. */
  const EmptyMessage := "cannot parse integer from empty string"
  const InvalidDigitMessage := "invalid digit found in string"
  const OverflowMessage := "number too large to fit in target type"

  predicate IsHexDigit(c: char) {
    ('0' <= c <= '9') || ('a' <= c <= 'f') || ('A' <= c <= 'F')
  }

  function DigitValue(c: char): (d: nat)
    requires IsHexDigit(c)
    ensures d < 16
  {
    if '0' <= c <= '9' then c as int - '0' as int
    else if 'a' <= c <= 'f' then c as int - 'a' as int + 10
    else c as int - 'A' as int + 10
  }

  predicate AllHexDigits(s: string) {
    forall i :: 0 <= i < |s| ==> IsHexDigit(s[i])
  }

  function Pow16(n: nat): (p: nat)
    ensures p >= 1
  {
    if n == 0 then 1 else 16 * Pow16(n - 1)
  }

  /** The positional value of a string of hexadecimal digits: the reference
      meaning against which the left-to-right parser is proved. */
  function HexValue(ds: string): nat
    requires AllHexDigits(ds)
  {
    if ds == [] then 0 else DigitValue(ds[0]) * Pow16(|ds| - 1) + HexValue(ds[1..])
  }

  /** The digit loop of `from_str_radix` for `u8`: multiply the running value by
      16 and add the next digit; a non-digit fails first, then an overflow. */
  function Accumulate(acc: uint8, ds: string): Result<uint8, string>
    decreases |ds|
  {
    if ds == [] then Success(acc)
    else if !IsHexDigit(ds[0]) then Failure(InvalidDigitMessage)
    else if acc * 16 + DigitValue(ds[0]) > 255 then Failure(OverflowMessage)
    else Accumulate(acc * 16 + DigitValue(ds[0]), ds[1..])
  }

  /** `u8::from_str_radix(s, 16)`. A lone sign is an invalid digit; a leading
      `+` is skipped; for an unsigned type a `-` is just an invalid digit. */
  function FromStrRadix16(s: string): Result<uint8, string>
  {
    if s == [] then Failure(EmptyMessage)
    else if (s[0] == '+' || s[0] == '-') && |s| == 1 then Failure(InvalidDigitMessage)
    else if s[0] == '+' then Accumulate(0, s[1..])
    else Accumulate(0, s)
  }

  predicate HasHexPrefix(s: string) {
    |s| >= 2 && s[..2] == "0x"
  }

  /** `parse_hex`: only the lower-case prefix `0x` is stripped; any other input
      fails with `invalid hex: <s>`. */
  function ParseHex(s: string): Result<uint8, string>
  {
    if HasHexPrefix(s) then FromStrRadix16(s[2..])
    else Failure("invalid hex: " + s)
  }

  /** The digits after the prefix, with one leading `+` removed. */
  function UnsignedDigits(t: string): string {
    if |t| > 0 && t[0] == '+' then t[1..] else t
  }

  /** The inputs `parse_hex` accepts, stated without reference to the parser. */
  predicate Accepted(s: string) {
    && HasHexPrefix(s)
    && var ds := UnsignedDigits(s[2..]);
       |ds| > 0 && AllHexDigits(ds) && HexValue(ds) <= 255
  }

  /** A string is all digits exactly when its head is a digit and its tail is. */
  lemma AllHexDigitsSplit(ds: string)
    requires ds != []
    ensures AllHexDigits(ds) <==> IsHexDigit(ds[0]) && AllHexDigits(ds[1..])
  {
    if IsHexDigit(ds[0]) && AllHexDigits(ds[1..]) {
      forall i | 0 <= i < |ds| ensures IsHexDigit(ds[i]) {
        if i > 0 { assert ds[i] == ds[1..][i - 1]; }
      }
    }
  }

  /** Regrouping one step of the digit loop: `(acc*16 + d)*p + h == acc*(16*p) + (d*p + h)`. */
  lemma Regroup(acc: nat, d: nat, p: nat, h: nat)
    requires p >= 1
    ensures (acc * 16 + d) * p + h == acc * (16 * p) + (d * p + h)
    ensures (acc * 16 + d) * p + h >= acc * 16 + d
  {
    assert (acc * 16 + d) * p == acc * 16 * p + d * p;
    assert (acc * 16 + d) * p >= (acc * 16 + d) * 1;
  }

  /** The digit loop succeeds exactly when every character is a digit and the
      positional value, shifted past the running value, fits in a byte. */
  lemma {:induction false} AccumulateMeaning(acc: uint8, ds: string)
    ensures Accumulate(acc, ds).Success? <==>
              AllHexDigits(ds) && acc * Pow16(|ds|) + HexValue(ds) <= 255
    ensures Accumulate(acc, ds).Success? ==>
              Accumulate(acc, ds).value == acc * Pow16(|ds|) + HexValue(ds)
    decreases |ds|
  {
    if ds != [] {
      AllHexDigitsSplit(ds);
      if IsHexDigit(ds[0]) {
        var d := DigitValue(ds[0]);
        var rest := ds[1..];
        var p := Pow16(|rest|);
        assert Pow16(|ds|) == 16 * p;
        if acc * 16 + d <= 255 {
          AccumulateMeaning(acc * 16 + d, rest);
        }
        if AllHexDigits(rest) {
          assert HexValue(ds) == d * p + HexValue(rest);
          Regroup(acc, d, p, HexValue(rest));
        }
      }
    }
  }

  /** `parse_hex` succeeds exactly on the accepted inputs, and then returns the
      positional value of the digits. */
  lemma ParseHexMeaning(s: string)
    ensures ParseHex(s).Success? <==> Accepted(s)
    ensures ParseHex(s).Success? ==> ParseHex(s).value == HexValue(UnsignedDigits(s[2..]))
  {
    if HasHexPrefix(s) {
      var t := s[2..];
      var ds := UnsignedDigits(t);
      if t != [] && !(t[0] in "+-" && |t| == 1) {
        AccumulateMeaning(0, ds);
      } else if t != [] && t[0] == '-' {
        assert !IsHexDigit(ds[0]);
      }
    }
  }

  /** Any input without the exact prefix `0x` is rejected, naming the input. */
  lemma MissingPrefixRejected(s: string)
    requires !HasHexPrefix(s)
    ensures ParseHex(s) == Failure("invalid hex: " + s)
  {
  }

  /** The upper-case prefix `0X` is not stripped. */
  lemma UpperCasePrefixRejected(t: string)
    ensures ParseHex("0X" + t) == Failure("invalid hex: 0X" + t)
  {
    assert ("0X" + t)[..2] == "0X";
    assert "invalid hex: " + ("0X" + t) == "invalid hex: 0X" + t;
  }

  /** A prefix with no digits is the empty-string error. */
  lemma NoDigitsRejected()
    ensures ParseHex("0x") == Failure(EmptyMessage)
  {
    assert "0x"[2..] == [];
  }

  /** `0x100` is one past the largest byte. */
  lemma ThreeDigitOverflow()
    ensures ParseHex("0x100") == Failure(OverflowMessage)
  {
    assert "0x100"[2..] == "100";
    assert "100"[1..] == "00";
    assert "00"[1..] == "0";
  }

  /** The digit character for a value below 16, in the chosen case. */
  function HexDigit(n: nat, upper: bool): (c: char)
    requires n < 16
    ensures IsHexDigit(c) && DigitValue(c) == n
  {
    if n < 10 then ('0' as int + n) as char
    else if upper then ('A' as int + n - 10) as char
    else ('a' as int + n - 10) as char
  }

  /** The two-digit rendering of a byte. */
  function HexByte(b: uint8, upper: bool): string {
    [HexDigit(b / 16, upper), HexDigit(b % 16, upper)]
  }

  /** Every byte, written as `0x` and two digits of either case, parses back to itself. */
  lemma {:induction false} ByteRoundTrip(b: uint8, upper: bool)
    ensures ParseHex("0x" + HexByte(b, upper)) == Success(b)
  {
    var s := "0x" + HexByte(b, upper);
    var ds := HexByte(b, upper);
    assert s[..2] == "0x";
    assert s[2..] == ds;
    assert ds[0] != '+' && ds[0] != '-';
    assert AllHexDigits(ds);
    assert HexValue(ds[1..]) == b % 16 by {
      assert ds[1..][1..] == [];
    }
    assert HexValue(ds) == (b / 16) * 16 + b % 16;
    AccumulateMeaning(0, ds);
  }
}
