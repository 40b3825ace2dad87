/**
 * Hexadecimal text as code.py handles it: `binascii.hexlify(...).decode()`
 * turns the bytes read from the MIDI port into lower-case hex digits, two per
 * byte, and `int(s, 16)` reads a two-digit slice back as a byte.
 */
module Hex {

  /** A byte value. */
  type Byte = x: int | 0 <= x < 256

  /** The digit characters `int(s, 16)` accepts. */
  predicate IsHexDigit(c: char)
  {
    ('0' <= c <= '9') || ('a' <= c <= 'f') || ('A' <= c <= 'F')
  }

  /** Every character is a hex digit. */
  predicate IsHex(s: string)
  {
    forall i :: 0 <= i < |s| ==> IsHexDigit(s[i])
  }

  /** The lower-case digit `hexlify` writes for a nibble. */
  function HexDigit(d: nat): (c: char)
    requires d < 16
    ensures IsHexDigit(c)
    ensures '0' <= c <= '9' || 'a' <= c <= 'f'
  {
    if d < 10 then ('0' as int + d) as char else ('a' as int + d - 10) as char
  }

  /** The digits `hexlify` writes: hex digits in lower case. */
  predicate IsLowerHex(s: string)
  {
    forall i :: 0 <= i < |s| ==> '0' <= s[i] <= '9' || 'a' <= s[i] <= 'f'
  }

  /** The value of one hex digit, either case; a lower-case digit is the one written for its value. */
  function DigitValue(c: char): (d: nat)
    requires IsHexDigit(c)
    ensures d < 16
    ensures ('0' <= c <= '9' || 'a' <= c <= 'f') ==> HexDigit(d) == c
    ensures ('0' <= c <= '9') <==> d < 10
  {
    if '0' <= c <= '9' then c as int - '0' as int
    else if 'a' <= c <= 'f' then c as int - 'a' as int + 10
    else c as int - 'A' as int + 10
  }

  /** Reading back a digit gives the nibble it was written for. */
  lemma DigitRoundTrip(d: nat)
    requires d < 16
    ensures DigitValue(HexDigit(d)) == d
  {
  }

  /** `int(s, 16)` on a two-digit string: the first digit is the high nibble, the second the low one. */
  function ParseByte(s: string): (b: Byte)
    requires |s| == 2 && IsHex(s)
    ensures b / 16 == DigitValue(s[0]) && b % 16 == DigitValue(s[1])
  {
    16 * DigitValue(s[0]) + DigitValue(s[1])
  }

  /** Lower-case digits are exactly those `hexlify` writes for the byte they parse to. */
  lemma ParseByteDigits(s: string)
    requires |s| == 2 && IsHex(s) && IsLowerHex(s)
    ensures ByteHex(ParseByte(s)) == s
  {
    var b := ParseByte(s);
    assert ByteHex(b) == [HexDigit(b / 16), HexDigit(b % 16)];
  }

  /** The two digits `hexlify` writes for one byte; `int(..., 16)` reads the byte back. */
  function ByteHex(b: Byte): (s: string)
    ensures |s| == 2 && IsHex(s)
    ensures ParseByte(s) == b
  {
    var hi, lo := b / 16, b % 16;
    DigitRoundTrip(hi);
    DigitRoundTrip(lo);
    [HexDigit(hi), HexDigit(lo)]
  }

  /** `binascii.hexlify(bytes).decode()`: two lower-case digits per byte, in order. */
  function Hexlify(bytes: seq<Byte>): (s: string)
    ensures |s| == 2 * |bytes|
    ensures IsHex(s)
  {
    if bytes == [] then "" else ByteHex(bytes[0]) + Hexlify(bytes[1..])
  }

  /** The digits at positions 2i and 2i + 1 are those of byte i, so reading them back gives that byte. */
  lemma {:induction false} HexlifyRoundTrip(bytes: seq<Byte>, i: nat)
    requires i < |bytes|
    ensures Hexlify(bytes)[2 * i..2 * i + 2] == ByteHex(bytes[i])
    ensures ParseByte(Hexlify(bytes)[2 * i..2 * i + 2]) == bytes[i]
    decreases i
  {
    var s := Hexlify(bytes);
    if i > 0 {
      HexlifyRoundTrip(bytes[1..], i - 1);
      var rest := Hexlify(bytes[1..]);
      assert s == ByteHex(bytes[0]) + rest;
      assert s[2 * i..2 * i + 2] == rest[2 * (i - 1)..2 * (i - 1) + 2];
    }
  }

  /** A slice of hex text is hex text. */
  lemma HexSlice(s: string, i: nat, j: nat)
    requires IsHex(s) && i <= j <= |s|
    ensures IsHex(s[i..j])
  {
  }
}
