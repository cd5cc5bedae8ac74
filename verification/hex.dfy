/** Lower-case hexadecimal text, as produced by Go's `hex.EncodeToString`, and its inverse. */
module Hex {
  import opened Files

  /** The sixteen digits `0123456789abcdef`. */
  predicate IsHexDigit(c: char) {
    '0' <= c <= '9' || 'a' <= c <= 'f'
  }

  /** Text made of whole byte pairs of lower-case hex digits. */
  predicate IsHexString(s: string) {
    |s| % 2 == 0 && forall i :: 0 <= i < |s| ==> IsHexDigit(s[i])
  }

  /** The digit that writes nibble `n`. */
  function Digit(n: nat): (c: char)
    requires n < 16
    ensures IsHexDigit(c)
  {
    if n < 10 then ('0' as int + n) as char else ('a' as int + n - 10) as char
  }

  /** The nibble a digit stands for; inverse of `Digit`. */
  function DigitValue(c: char): (n: nat)
    requires IsHexDigit(c)
    ensures n < 16 && Digit(n) == c
  {
    if c <= '9' then c as int - '0' as int else c as int - 'a' as int + 10
  }

  /** Each byte becomes two digits, high nibble first. */
  function EncodeToString(b: Bytes): (s: string)
    ensures |s| == 2 * |b|
    ensures forall i :: 0 <= i < |s| ==> IsHexDigit(s[i])
  {
    if |b| == 0 then "" else [Digit(b[0] / 16), Digit(b[0] % 16)] + EncodeToString(b[1..])
  }

  /** Reads byte pairs back; the partner of `EncodeToString`. */
  function DecodeString(s: string): (b: Bytes)
    requires IsHexString(s)
    ensures 2 * |b| == |s|
  {
    if |s| == 0 then []
    else
      assert IsHexString(s[2..]) by {
        assert forall i :: 0 <= i < |s[2..]| ==> s[2..][i] == s[i + 2];
      }
      [DigitValue(s[0]) * 16 + DigitValue(s[1])] + DecodeString(s[2..])
  }

  lemma {:induction false} DecodeEncode(b: Bytes)
    ensures IsHexString(EncodeToString(b))
    ensures DecodeString(EncodeToString(b)) == b
  {
    var s := EncodeToString(b);
    if |b| > 0 {
      assert s[2..] == EncodeToString(b[1..]);
      DecodeEncode(b[1..]);
      assert DigitValue(s[0]) == b[0] / 16 && DigitValue(s[1]) == b[0] % 16;
    }
  }

  lemma {:induction false} EncodeDecode(s: string)
    requires IsHexString(s)
    ensures EncodeToString(DecodeString(s)) == s
  {
    if |s| > 0 {
      assert IsHexString(s[2..]) by {
        assert forall i :: 0 <= i < |s[2..]| ==> s[2..][i] == s[i + 2];
      }
      EncodeDecode(s[2..]);
      var b := DecodeString(s);
      assert b[1..] == DecodeString(s[2..]);
      var hi, lo := DigitValue(s[0]), DigitValue(s[1]);
      assert b[0] / 16 == hi && b[0] % 16 == lo;
      assert s == [s[0], s[1]] + s[2..];
    }
  }

  /** Distinct byte strings always give distinct hex text. */
  lemma EncodeInjective(a: Bytes, b: Bytes)
    ensures EncodeToString(a) == EncodeToString(b) <==> a == b
  {
    if EncodeToString(a) == EncodeToString(b) {
      DecodeEncode(a);
      DecodeEncode(b);
    }
  }
}
