/** Lower-case hexadecimal rendering of the HMAC tag: each byte is written in
    base 16, padded on the left to two places with '0', and the pieces are
    concatenated. */
module Hex {
  import opened Options

  type byte = x: int | 0 <= x < 256

  predicate IsLowerHexDigit(c: char) {
    '0' <= c <= '9' || 'a' <= c <= 'f'
  }

  /** The digit `Number.prototype.toString(16)` writes for a value below 16. */
  function DigitChar(d: int): (c: char)
    requires 0 <= d < 16
    ensures IsLowerHexDigit(c)
  {
    if d < 10 then ('0' as int + d) as char else ('a' as int + d - 10) as char
  }

  /** The inverse of DigitChar; None for any character toString(16) never writes. */
  function DigitValue(c: char): (r: Option<int>)
    ensures r.Some? <==> IsLowerHexDigit(c)
    ensures r.Some? ==> 0 <= r.value < 16 && DigitChar(r.value) == c
  {
    if '0' <= c <= '9' then Some(c as int - '0' as int)
    else if 'a' <= c <= 'f' then Some(c as int - 'a' as int + 10)
    else None
  }

  /** `n.toString(16)`: base-16 digits without leading zeros. */
  function Radix16(n: nat): (s: string)
    decreases n
  {
    if n < 16 then [DigitChar(n)] else Radix16(n / 16) + [DigitChar(n % 16)]
  }

  /** `s.padStart(width, fill)`. */
  function PadStart(s: string, width: nat, fill: char): string {
    if |s| >= width then s else seq(width - |s|, _ => fill) + s
  }

  /** The two characters one byte contributes. */
  function ByteHex(b: byte): string {
    PadStart(Radix16(b), 2, '0')
  }

  /** Padding toString(16) to two places always yields the high nibble then the low one. */
  lemma ByteHexDigits(b: byte)
    ensures ByteHex(b) == [DigitChar(b / 16), DigitChar(b % 16)]
  {
    if b >= 16 {
      assert Radix16(b / 16) == [DigitChar(b / 16)];
    }
  }

  /** The whole tag: every byte's two digits, joined with no separator. */
  function Encode(bs: seq<byte>): (s: string)
    ensures |s| == 2 * |bs|
    ensures forall i :: 0 <= i < |s| ==> IsLowerHexDigit(s[i])
  {
    if bs == [] then ""
    else
      ByteHexDigits(bs[0]);
      ByteHex(bs[0]) + Encode(bs[1..])
  }

  /** Reads back a string of lower-case digit pairs; None when the length is
      odd or some character is not a lower-case hex digit. */
  function Decode(s: string): (r: Option<seq<byte>>)
    ensures r.Some? ==> 2 * |r.value| == |s|
    ensures r.Some? ==> forall i :: 0 <= i < |s| ==> IsLowerHexDigit(s[i])
    decreases |s|
  {
    if s == [] then Some([])
    else if |s| == 1 then None
    else match (DigitValue(s[0]), DigitValue(s[1]), Decode(s[2..]))
      case (Some(hi), Some(lo), Some(rest)) => Some([hi * 16 + lo] + rest)
      case _ => None
  }

  lemma {:induction false} DecodeEncode(bs: seq<byte>)
    ensures Decode(Encode(bs)) == Some(bs)
  {
    if bs != [] {
      var s := Encode(bs);
      ByteHexDigits(bs[0]);
      assert s[2..] == Encode(bs[1..]);
      DecodeEncode(bs[1..]);
      assert DigitValue(s[0]) == Some(bs[0] / 16);
      assert DigitValue(s[1]) == Some(bs[0] % 16);
      assert [bs[0]] + bs[1..] == bs;
    }
  }

  lemma {:induction false} EncodeDecode(s: string, bs: seq<byte>)
    requires Decode(s) == Some(bs)
    ensures Encode(bs) == s
  {
    if s != [] {
      var hi, lo := DigitValue(s[0]).value, DigitValue(s[1]).value;
      EncodeDecode(s[2..], bs[1..]);
      ByteHexDigits(bs[0]);
      assert bs[0] / 16 == hi && bs[0] % 16 == lo;
      assert s == [s[0], s[1]] + s[2..];
    }
  }

  /** Distinct tags never render to the same string. */
  lemma EncodeInjective(a: seq<byte>, b: seq<byte>)
    requires Encode(a) == Encode(b)
    ensures a == b
  {
    DecodeEncode(a);
    DecodeEncode(b);
  }
}
