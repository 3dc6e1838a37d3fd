/** The storage layer's own hex coding of contract identifiers. */
module Hex {
  import opened Prelude

  predicate CanonicalChar(c: char) { '0' <= c <= '9' || 'a' <= c <= 'f' }

  /** The lower-case hex digit of a value below sixteen. */
  function Digit(v: int): (c: char)
    requires 0 <= v < 16
    ensures CanonicalChar(c) && DigitValue(c) == Some(v)
  {
    if v < 10 then '0' + v as char else 'a' + (v - 10) as char
  }

  function DigitValue(c: char): (v: Option<int>)
    ensures v.Some? ==> 0 <= v.value < 16
    ensures CanonicalChar(c) ==> v.Some?
  {
    if '0' <= c <= '9' then Some(c as int - '0' as int)
    else if 'a' <= c <= 'f' then Some(c as int - 'a' as int + 10)
    else if 'A' <= c <= 'F' then Some(c as int - 'A' as int + 10)
    else None
  }

  lemma DigitOfValue(c: char)
    requires CanonicalChar(c)
    ensures Digit(DigitValue(c).value) == c
  {}

  function Pair(b: byte): (s: string)
    ensures |s| == 2
  {
    [Digit(b as int / 16), Digit(b as int % 16)]
  }

  function Encode(bytes: seq<byte>): string {
    if bytes == [] then "" else Pair(bytes[0]) + Encode(bytes[1..])
  }

  /** Reads two characters as a radix-16 number; the parser also takes a leading plus sign. */
  function PairValue(hi: char, lo: char): Option<byte> {
    if DigitValue(lo).None? then None
    else if DigitValue(hi).Some? then Some((16 * DigitValue(hi).value + DigitValue(lo).value) as byte)
    else if hi == '+' then Some(DigitValue(lo).value as byte)
    else None
  }

  /** Decoding slices the text in pairs, so it needs an even number of characters. */
  function Decode(s: string): Option<seq<byte>>
    requires |s| % 2 == 0
  {
    if s == "" then Some([])
    else
      var v, rest := PairValue(s[0], s[1]), Decode(s[2..]);
      if v.Some? && rest.Some? then Some([v.value] + rest.value) else None
  }

  lemma PairRoundTrip(b: byte)
    ensures CanonicalChar(Pair(b)[0]) && CanonicalChar(Pair(b)[1])
    ensures PairValue(Pair(b)[0], Pair(b)[1]) == Some(b)
  {}

  /** What the decoder takes beyond what the encoder writes: capitals, and a plus sign for a leading zero. */
  lemma DecoderIsLenient(hi: char, lo: char)
    ensures 'A' <= lo <= 'F' ==> DigitValue(lo) == DigitValue(lo + ('a' - 'A'))
    ensures PairValue('+', lo) == PairValue('0', lo)
    ensures hi != '+' && PairValue(hi, lo).Some? ==> DigitValue(hi).Some? && DigitValue(lo).Some?
  {}

  /** A pair comes back from its value exactly when both characters are ones the encoder writes. */
  lemma PairComesBack(hi: char, lo: char)
    requires PairValue(hi, lo).Some?
    ensures Pair(PairValue(hi, lo).value) == [hi, lo] <==> CanonicalChar(hi) && CanonicalChar(lo)
  {
    var b := PairValue(hi, lo).value;
    PairRoundTrip(b);
    if CanonicalChar(hi) && CanonicalChar(lo) {
      var h, l := DigitValue(hi).value, DigitValue(lo).value;
      assert b as int / 16 == h && b as int % 16 == l;
      DigitOfValue(hi);
      DigitOfValue(lo);
    }
  }

  /** Text of the characters the encoder writes. */
  predicate Canonical(s: string) {
    forall c :: c in s ==> CanonicalChar(c)
  }

  lemma {:induction false} EncodedText(bytes: seq<byte>)
    ensures |Encode(bytes)| == 2 * |bytes| && Canonical(Encode(bytes))
  {
    if bytes != [] {
      EncodedText(bytes[1..]);
      PairRoundTrip(bytes[0]);
    }
  }

  /** Decoding undoes encoding. */
  lemma {:induction false} DecodeEncode(bytes: seq<byte>)
    ensures |Encode(bytes)| % 2 == 0
    ensures Decode(Encode(bytes)) == Some(bytes)
  {
    EncodedText(bytes);
    if bytes != [] {
      PairRoundTrip(bytes[0]);
      DecodeEncode(bytes[1..]);
      assert Encode(bytes)[2..] == Encode(bytes[1..]);
      assert [bytes[0]] + bytes[1..] == bytes;
    }
  }

  lemma EncodeIsInjective(a: seq<byte>, b: seq<byte>)
    requires Encode(a) == Encode(b)
    ensures a == b
  {
    DecodeEncode(a);
    DecodeEncode(b);
  }

  /**
   Encoding undoes decoding exactly on canonical text: the decoder also reads capitals
   and a plus sign, and those come back different.
   */
  lemma {:induction false} EncodeDecode(s: string)
    requires |s| % 2 == 0 && Decode(s).Some?
    ensures Encode(Decode(s).value) == s <==> Canonical(s)
  {
    if s != "" {
      var v, rest := PairValue(s[0], s[1]).value, Decode(s[2..]).value;
      EncodeDecode(s[2..]);
      PairComesBack(s[0], s[1]);
      assert ([v] + rest)[1..] == rest;
      assert s == [s[0], s[1]] + s[2..];
      assert Pair(v) + Encode(rest) == s <==> Pair(v) == [s[0], s[1]] && Encode(rest) == s[2..] by {
        if Pair(v) + Encode(rest) == s {
          assert Pair(v) == s[..2] && Encode(rest) == s[2..];
        }
      }
    }
  }
}
