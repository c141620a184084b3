/**
 * Node's `Buffer.toString("hex")`: every byte becomes two lowercase
 * hexadecimal digits, high nibble first. `Decode` is its inverse and is
 * used only to state that the encoding loses nothing.
 */
module Hex {
  import opened Wrappers

  newtype uint8 = x: int | 0 <= x < 256

  predicate IsHexDigit(c: char) {
    '0' <= c <= '9' || 'a' <= c <= 'f'
  }

  function Digit(d: nat): (c: char)
    requires d < 16
    ensures IsHexDigit(c)
  {
    if d < 10 then ('0' as int + d) as char else ('a' as int + d - 10) as char
  }

  function DigitValue(c: char): (d: nat)
    requires IsHexDigit(c)
    ensures d < 16 && Digit(d) == c
  {
    if c <= '9' then c as int - '0' as int else c as int - 'a' as int + 10
  }

  lemma DigitValueOfDigit(d: nat)
    requires d < 16
    ensures DigitValue(Digit(d)) == d
  {
  }

  /** The two characters of one byte. */
  function EncodeByte(b: uint8): (s: string)
    ensures |s| == 2 && IsHexDigit(s[0]) && IsHexDigit(s[1])
    ensures 16 * DigitValue(s[0]) + DigitValue(s[1]) == b as int
  {
    DigitValueOfDigit(b as int / 16);
    DigitValueOfDigit(b as int % 16);
    [Digit(b as int / 16), Digit(b as int % 16)]
  }

  function Encode(bs: seq<uint8>): (s: string)
    ensures |s| == 2 * |bs|
    ensures forall i :: 0 <= i < |s| ==> IsHexDigit(s[i])
  {
    if bs == [] then [] else EncodeByte(bs[0]) + Encode(bs[1..])
  }

  function Decode(s: string): (r: Option<seq<uint8>>)
    ensures r.Some? ==> 2 * |r.value| == |s|
  {
    if s == [] then Some([])
    else if |s| == 1 || !IsHexDigit(s[0]) || !IsHexDigit(s[1]) then None
    else
      match Decode(s[2..])
      case None => None
      case Some(rest) => Some([(16 * DigitValue(s[0]) + DigitValue(s[1])) as uint8] + rest)
  }

  /** Hex encoding loses nothing: decoding gives the bytes back. */
  lemma {:induction false} DecodeEncode(bs: seq<uint8>)
    ensures Decode(Encode(bs)) == Some(bs)
  {
    if bs != [] {
      var s := Encode(bs);
      assert s == EncodeByte(bs[0]) + Encode(bs[1..]);
      assert s[2..] == Encode(bs[1..]);
      DecodeEncode(bs[1..]);
      assert [bs[0]] + bs[1..] == bs;
    }
  }

  /** Conversely, every string that decodes is the encoding of what it decodes to. */
  lemma {:induction false} EncodeDecode(s: string, bs: seq<uint8>)
    requires Decode(s) == Some(bs)
    ensures Encode(bs) == s
  {
    if s != [] {
      var rest := Decode(s[2..]).value;
      EncodeDecode(s[2..], rest);
      var b := bs[0];
      assert bs[1..] == rest;
      var e := EncodeByte(b);
      assert DigitValue(e[0]) == DigitValue(s[0]) && DigitValue(e[1]) == DigitValue(s[1]) by {
        assert 16 * DigitValue(e[0]) + DigitValue(e[1]) == 16 * DigitValue(s[0]) + DigitValue(s[1]);
      }
      assert Digit(DigitValue(e[0])) == e[0] && Digit(DigitValue(s[0])) == s[0];
      assert Digit(DigitValue(e[1])) == e[1] && Digit(DigitValue(s[1])) == s[1];
      assert s == s[..2] + s[2..];
    }
  }

  /** Distinct byte strings give distinct hex strings. */
  lemma EncodeInjective(a: seq<uint8>, b: seq<uint8>)
    requires Encode(a) == Encode(b)
    ensures a == b
  {
    DecodeEncode(a);
    DecodeEncode(b);
  }
}
