/** The hex helpers of extension/background.js; the Rust side's `hex` crate agrees with them. */
module Hex {
  import opened Prelude

  datatype HexError = OddLength | InvalidDigit

  predicate IsHexDigit(c: char) {
    '0' <= c <= '9' || 'a' <= c <= 'f' || 'A' <= c <= 'F'
  }

  /** `parseInt` of a single hex digit. */
  function DigitValue(c: char): (v: nat)
    requires IsHexDigit(c)
    ensures v < 16
  {
    if c <= '9' then c as int - '0' as int
    else if c <= 'F' then c as int - 'A' as int + 10
    else c as int - 'a' as int + 10
  }

  function DigitChar(v: nat): char
    requires v < 16
  {
    if v < 10 then ('0' as int + v) as char else ('a' as int + v - 10) as char
  }

  function LowerDigit(c: char): char {
    if 'A' <= c <= 'F' then (c as int + 32) as char else c
  }

  /** `b.toString(16)`: no leading zero. */
  function ToBase16(b: byte): string {
    if b < 16 then [DigitChar(b)] else [DigitChar(b / 16), DigitChar(b % 16)]
  }

  function PadStart(s: string): string {
    if |s| < 2 then "0" + s else s
  }

  function Encode(bytes: seq<byte>): (hex: string)
    ensures |hex| == 2 * |bytes|
  {
    if bytes == [] then "" else PadStart(ToBase16(bytes[0])) + Encode(bytes[1..])
  }

  predicate AllHex(hex: string) {
    forall i :: 0 <= i < |hex| ==> IsHexDigit(hex[i])
  }

  /** What decoding means: the i-th byte is read off the i-th pair of digits. */
  function Decode(hex: string): Result<seq<byte>, HexError> {
    if |hex| % 2 != 0 then Err(OddLength)
    else if !AllHex(hex) then Err(InvalidDigit)
    else Ok(seq(|hex| / 2, i requires 0 <= i < |hex| / 2 =>
                  16 * DigitValue(hex[2 * i]) + DigitValue(hex[2 * i + 1])))
  }

  method HexToBytes(hex: string) returns (r: Result<seq<byte>, HexError>)
    ensures r == Decode(hex)
  {
    if |hex| % 2 != 0 {
      return Err(OddLength);
    }
    if !AllHex(hex) {
      return Err(InvalidDigit);
    }
    var out := new byte[|hex| / 2];
    var i := 0;
    while i < out.Length
      invariant 0 <= i <= out.Length
      invariant forall k :: 0 <= k < i ==>
        out[k] == 16 * DigitValue(hex[2 * k]) + DigitValue(hex[2 * k + 1])
    {
      out[i] := 16 * DigitValue(hex[2 * i]) + DigitValue(hex[2 * i + 1]);
      i := i + 1;
    }
    assert out[..] == Decode(hex).value;
    r := Ok(out[..]);
  }

  lemma {:induction false} EncodeAt(bytes: seq<byte>, i: nat)
    requires i < |bytes|
    ensures Encode(bytes)[2 * i] == DigitChar(bytes[i] / 16)
    ensures Encode(bytes)[2 * i + 1] == DigitChar(bytes[i] % 16)
  {
    if i > 0 {
      EncodeAt(bytes[1..], i - 1);
    }
  }

  lemma DigitRoundTrip(v: nat)
    requires v < 16
    ensures IsHexDigit(DigitChar(v)) && DigitValue(DigitChar(v)) == v
  {
  }

  /** The sixteen digits, in either case. */
  lemma DigitsMean(v: nat, c: char)
    requires v < 16 && IsHexDigit(c)
    ensures DigitChar(v) == "0123456789abcdef"[v]
    ensures DigitValue(c) == v <==> c == "0123456789abcdef"[v] || c == "0123456789ABCDEF"[v]
  {
  }

  lemma {:induction false} DecodeEncode(bytes: seq<byte>)
    ensures Decode(Encode(bytes)) == Ok(bytes)
  {
    var hex := Encode(bytes);
    forall i | 0 <= i < |bytes|
      ensures Pair(hex, i, bytes[i])
    {
      EncodeAt(bytes, i);
      DigitRoundTrip(bytes[i] / 16);
      DigitRoundTrip(bytes[i] % 16);
    }
    forall k | 0 <= k < |hex|
      ensures IsHexDigit(hex[k])
    {
      assert Pair(hex, k / 2, bytes[k / 2]);
      assert k == 2 * (k / 2) || k == 2 * (k / 2) + 1;
    }
    forall i | 0 <= i < |bytes|
      ensures Decode(hex).value[i] == bytes[i]
    {
      assert Pair(hex, i, bytes[i]);
    }
    assert Decode(hex).value == bytes;
  }

  /** The i-th pair of digits spells the byte. */
  predicate Pair(hex: string, i: nat, b: byte) {
    && 2 * i + 1 < |hex| && IsHexDigit(hex[2 * i]) && IsHexDigit(hex[2 * i + 1])
    && b == 16 * DigitValue(hex[2 * i]) + DigitValue(hex[2 * i + 1])
  }

  function Lower(hex: string): string {
    seq(|hex|, i requires 0 <= i < |hex| => LowerDigit(hex[i]))
  }

  /** The two digits an encoder prints for a decoded pair. */
  lemma PairBack(hi: char, lo: char, b: byte)
    requires IsHexDigit(hi) && IsHexDigit(lo) && b == 16 * DigitValue(hi) + DigitValue(lo)
    ensures DigitChar(b / 16) == LowerDigit(hi) && DigitChar(b % 16) == LowerDigit(lo)
  {
    assert b / 16 == DigitValue(hi) && b % 16 == DigitValue(lo);
  }

  lemma DecodeAt(hex: string, bytes: seq<byte>, i: nat)
    requires Decode(hex) == Ok(bytes) && i < |bytes|
    ensures 2 * i + 1 < |hex| && IsHexDigit(hex[2 * i]) && IsHexDigit(hex[2 * i + 1])
    ensures bytes[i] == 16 * DigitValue(hex[2 * i]) + DigitValue(hex[2 * i + 1])
  {
  }

  lemma {:induction false} EncodePair(hex: string, bytes: seq<byte>, i: nat)
    requires 2 * i + 1 < |hex| && IsHexDigit(hex[2 * i]) && IsHexDigit(hex[2 * i + 1]) && i < |bytes|
    requires bytes[i] == 16 * DigitValue(hex[2 * i]) + DigitValue(hex[2 * i + 1])
    ensures Encode(bytes)[2 * i] == LowerDigit(hex[2 * i])
    ensures Encode(bytes)[2 * i + 1] == LowerDigit(hex[2 * i + 1])
  {
    PairBack(hex[2 * i], hex[2 * i + 1], bytes[i]);
    EncodeAt(bytes, i);
  }

  /** Encoding after decoding is lower-casing, so on lower-case text the two are inverse. */
  lemma {:induction false} EncodeDecode(hex: string, bytes: seq<byte>)
    requires Decode(hex) == Ok(bytes)
    ensures Encode(bytes) == Lower(hex)
  {
    assert |Encode(bytes)| == |hex|;
    forall k | 0 <= k < |hex|
      ensures Encode(bytes)[k] == LowerDigit(hex[k])
    {
      DecodeAt(hex, bytes, k / 2);
      EncodePair(hex, bytes, k / 2);
      assert k == 2 * (k / 2) || k == 2 * (k / 2) + 1;
    }
  }
}
