/** Upper-case hexadecimal text for raw bytes, as the font upload writes it:
    `BitConverter.ToString` with the '-' separators removed. */
module Hex {

  import opened Wrappers
  import opened Text

  newtype byte = x: int | 0 <= x < 256

  /** The two upper-case digits of one byte, high nibble first. */
  function ByteHex(b: byte): (r: string)
    ensures |r| == 2 && IsHexDigit(r[0]) && IsHexDigit(r[1])
  {
    [DigitChar(b as int / 16), DigitChar(b as int % 16)]
  }

  /** The hexadecimal form of the bytes, two digits per byte, no separators. */
  function Encode(bytes: seq<byte>): (r: string)
    ensures |r| == 2 * |bytes|
    ensures forall i :: 0 <= i < |r| ==> IsHexDigit(r[i])
  {
    if |bytes| == 0 then "" else ByteHex(bytes[0]) + Encode(bytes[1..])
  }

  /** Reads pairs of upper-case digits back into bytes; `None` for an odd
      length or any other character. */
  function Decode(s: string): (r: Option<seq<byte>>)
    ensures r.Some? ==> 2 * |r.value| == |s|
    decreases |s|
  {
    if |s| == 0 then Some([])
    else if |s| == 1 then None
    else
      match (HexDigitValue(s[0]), HexDigitValue(s[1]), Decode(s[2..]))
      case (Some(h), Some(l), Some(rest)) => Some([(h * 16 + l) as byte] + rest)
      case _ => None
  }

  lemma {:induction false} DecodeEncode(bytes: seq<byte>)
    ensures Decode(Encode(bytes)) == Some(bytes)
    decreases |bytes|
  {
    if |bytes| > 0 {
      DecodeEncode(bytes[1..]);
      DecodeGroup(bytes[0], Encode(bytes[1..]), bytes[1..]);
      assert bytes == [bytes[0]] + bytes[1..];
    }
  }

  /** A group of two digits in front adds its byte in front. */
  lemma DecodeGroup(b: byte, t: string, rest: seq<byte>)
    requires Decode(t) == Some(rest)
    ensures Decode(ByteHex(b) + t) == Some([b] + rest)
  {
    var s := ByteHex(b) + t;
    assert s[2..] == t;
    HexDigitValueOfDigit(b as int / 16);
    HexDigitValueOfDigit(b as int % 16);
    assert HexDigitValue(s[0]) == Some(b as int / 16);
    assert HexDigitValue(s[1]) == Some(b as int % 16);
  }

  lemma {:induction false} EncodeDecode(s: string)
    requires Decode(s).Some?
    ensures Encode(Decode(s).value) == s
    decreases |s|
  {
    if |s| > 0 {
      var h := HexDigitValue(s[0]).value;
      var l := HexDigitValue(s[1]).value;
      var rest := Decode(s[2..]).value;
      EncodeDecode(s[2..]);
      var b := (h * 16 + l) as byte;
      assert Decode(s).value == [b] + rest;
      assert ([b] + rest)[1..] == rest;
      assert b as int / 16 == h && b as int % 16 == l;
      assert ByteHex(b) == s[..2];
      assert s == s[..2] + s[2..];
    }
  }

  /** One two-digit group per byte. */
  function Groups(bytes: seq<byte>): (g: seq<string>)
    ensures |g| == |bytes|
    ensures forall i :: 0 <= i < |bytes| ==> g[i] == ByteHex(bytes[i])
  {
    seq(|bytes|, i requires 0 <= i < |bytes| => ByteHex(bytes[i]))
  }

  /** `BitConverter.ToString(bytes)`: the groups joined by '-'. */
  function BitConverterString(bytes: seq<byte>): string {
    Join("-", Groups(bytes))
  }

  /** `BitConverter.ToString(bytes).Replace("-", "")` is the plain encoding. */
  lemma {:induction false} SeparatorsRemoved(bytes: seq<byte>)
    ensures RemoveChar(BitConverterString(bytes), '-') == Encode(bytes)
    decreases |bytes|
  {
    if |bytes| > 0 {
      var g := ByteHex(bytes[0]);
      RemoveCharAbsent(g, '-');
      if |bytes| == 1 {
        assert Encode(bytes[1..]) == "";
      } else {
        assert Groups(bytes)[1..] == Groups(bytes[1..]);
        SeparatorsRemoved(bytes[1..]);
        RemoveCharAppend(g + "-", BitConverterString(bytes[1..]), '-');
        RemoveCharAppend(g, "-", '-');
      }
    }
  }
}
