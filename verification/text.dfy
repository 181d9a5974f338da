/** String helpers with the .NET semantics the printing library relies on.

    A string is a sequence of Unicode scalar values. Case mapping covers the
    ASCII letters; every other character maps to itself. Searching is ordinal. */
module Text {

  import opened Wrappers

  /** `string.IsNullOrEmpty` over a nullable string. */
  predicate IsNullOrEmpty(s: Option<string>) {
    s.None? || |s.value| == 0
  }

  /** What string interpolation prints for a nullable string: nothing for null. */
  function OrEmpty(s: Option<string>): string {
    s.GetOr("")
  }

  // ---------------------------------------------------------------------------
  // Case mapping

  predicate IsAsciiLower(c: char) { 'a' <= c <= 'z' }

  predicate IsAsciiUpper(c: char) { 'A' <= c <= 'Z' }

  function UpperChar(c: char): (u: char)
    ensures !IsAsciiLower(u)
    ensures IsAsciiLower(c) || u == c
  {
    if IsAsciiLower(c) then (c as int - 32) as char else c
  }

  function LowerChar(c: char): (l: char)
    ensures !IsAsciiUpper(l)
    ensures IsAsciiUpper(c) || l == c
  {
    if IsAsciiUpper(c) then (c as int + 32) as char else c
  }

  /** `string.ToUpper()`: the same length, character by character. */
  function ToUpper(s: string): (r: string)
    ensures |r| == |s|
    ensures forall i :: 0 <= i < |s| ==> r[i] == UpperChar(s[i])
  {
    seq(|s|, i requires 0 <= i < |s| => UpperChar(s[i]))
  }

  /** `string.ToLower()`: the same length, character by character. */
  function ToLower(s: string): (r: string)
    ensures |r| == |s|
    ensures forall i :: 0 <= i < |s| ==> r[i] == LowerChar(s[i])
  {
    seq(|s|, i requires 0 <= i < |s| => LowerChar(s[i]))
  }

  lemma ToUpperAppend(a: string, b: string)
    ensures ToUpper(a + b) == ToUpper(a) + ToUpper(b)
  {
  }

  lemma ToLowerIdempotent(s: string)
    ensures ToLower(ToLower(s)) == ToLower(s)
  {
  }

  // ---------------------------------------------------------------------------
  // Prefixes, suffixes and searching

  predicate StartsWith(s: string, prefix: string) {
    |prefix| <= |s| && s[..|prefix|] == prefix
  }

  predicate EndsWith(s: string, suffix: string) {
    |suffix| <= |s| && s[|s| - |suffix|..] == suffix
  }

  /** `sub` occurs in `s` starting at index `i`. */
  predicate OccursAt(s: string, sub: string, i: int) {
    0 <= i && i + |sub| <= |s| && s[i..i + |sub|] == sub
  }

  /** `s.IndexOf(sub, from)`: the first occurrence at or after `from`, or -1. */
  function IndexOfFrom(s: string, sub: string, from: nat): (r: int)
    ensures r == -1 || (from <= r && OccursAt(s, sub, r))
    ensures r == -1 <==> forall i :: from <= i ==> !OccursAt(s, sub, i)
    ensures forall i :: from <= i < r ==> !OccursAt(s, sub, i)
    decreases |s| - from
  {
    if from + |sub| > |s| then -1
    else if s[from..from + |sub|] == sub then from
    else IndexOfFrom(s, sub, from + 1)
  }

  /** `s.IndexOf(sub)`. */
  function IndexOf(s: string, sub: string): int {
    IndexOfFrom(s, sub, 0)
  }

  /** `s.Contains(sub)`. */
  predicate Contains(s: string, sub: string) {
    IndexOf(s, sub) >= 0
  }

  lemma ContainsIff(s: string, sub: string)
    ensures Contains(s, sub) <==> exists i :: OccursAt(s, sub, i)
  {
  }

  /** A one-character needle occurs exactly where that character is. */
  lemma OccursAtChar(s: string, c: char, i: int)
    ensures OccursAt(s, [c], i) <==> 0 <= i < |s| && s[i] == c
  {
    if 0 <= i < |s| {
      assert s[i..i + 1] == [s[i]];
    }
  }

  /** Searching for one character from `from` finds the first index at or
      after `from` that holds it. */
  lemma IndexOfFromChar(s: string, c: char, from: nat, k: nat)
    requires from <= k < |s| && s[k] == c
    requires forall j :: from <= j < k ==> s[j] != c
    ensures IndexOfFrom(s, [c], from) == k
  {
    OccursAtChar(s, c, k);
    var r := IndexOfFrom(s, [c], from);
    OccursAtChar(s, c, r);
  }

  /** The first occurrence of a needle that starts with a character absent from
      the prefix `pre` is the one right after `pre`. */
  lemma IndexOfAfterPrefix(pre: string, sub: string, rest: string)
    requires |sub| > 0
    requires sub[0] !in pre
    ensures IndexOf(pre + sub + rest, sub) == |pre|
  {
    var s := pre + sub + rest;
    assert s[|pre|..|pre| + |sub|] == sub;
    assert OccursAt(s, sub, |pre|);
    forall i | 0 <= i < |pre|
      ensures !OccursAt(s, sub, i)
    {
      assert s[i] == pre[i];
      assert pre[i] != sub[0];
    }
  }

  // ---------------------------------------------------------------------------
  // Editing

  /** `s.Replace(from, to)` for single characters. */
  function ReplaceChar(s: string, from: char, to: char): (r: string)
    ensures |r| == |s|
    ensures forall i :: 0 <= i < |s| ==> r[i] == (if s[i] == from then to else s[i])
  {
    seq(|s|, i requires 0 <= i < |s| => if s[i] == from then to else s[i])
  }

  /** `s.Replace(c.ToString(), string.Empty)`: every `c` removed. */
  function RemoveChar(s: string, c: char): (r: string)
    ensures c !in r
    ensures |r| <= |s|
  {
    if |s| == 0 then ""
    else if s[0] == c then RemoveChar(s[1..], c)
    else [s[0]] + RemoveChar(s[1..], c)
  }

  lemma RemoveCharAppend(a: string, b: string, c: char)
    ensures RemoveChar(a + b, c) == RemoveChar(a, c) + RemoveChar(b, c)
  {
    if |a| == 0 {
      assert a + b == b;
    } else {
      assert (a + b)[1..] == a[1..] + b;
    }
  }

  lemma RemoveCharAbsent(s: string, c: char)
    requires c !in s
    ensures RemoveChar(s, c) == s
  {
    if |s| > 0 {
      assert s == [s[0]] + s[1..];
    }
  }

  /** `s.PadLeft(width, c)`. */
  function PadLeft(s: string, width: int, c: char): (r: string)
    ensures |s| >= width ==> r == s
    ensures |s| < width ==> |r| == width && r[width - |s|..] == s
    ensures forall i :: 0 <= i < |r| - |s| ==> r[i] == c
  {
    if |s| >= width then s else seq(width - |s|, _ => c) + s
  }

  /** Every piece followed by the terminator `c`. */
  function Terminated(pieces: seq<string>, c: char): string
    decreases |pieces|
  {
    if |pieces| == 0 then "" else pieces[0] + [c] + Terminated(pieces[1..], c)
  }

  lemma {:induction false} TerminatedEnds(pieces: seq<string>, c: char)
    requires |pieces| > 0
    ensures |Terminated(pieces, c)| > 0 && Terminated(pieces, c)[|Terminated(pieces, c)| - 1] == c
    decreases |pieces|
  {
    if |pieces| > 1 {
      TerminatedEnds(pieces[1..], c);
    }
  }

  /** The pieces of `text` each ended by `c`; an unterminated rest is the last piece. */
  function Split(text: string, c: char): seq<string>
    decreases |text|
  {
    if |text| == 0 then []
    else
      var i := IndexOf(text, [c]);
      if i < 0 then [text] else [text[..i]] + Split(text[i + 1..], c)
  }

  /** Pieces free of the terminator are recovered from their concatenation. */
  lemma {:induction false} SplitTerminated(pieces: seq<string>, c: char)
    requires forall k :: 0 <= k < |pieces| ==> c !in pieces[k]
    ensures Split(Terminated(pieces, c), c) == pieces
    decreases |pieces|
  {
    if |pieces| > 0 {
      SplitFirst(pieces[0], c, Terminated(pieces[1..], c));
      SplitTerminated(pieces[1..], c);
      assert pieces == [pieces[0]] + pieces[1..];
    }
  }

  /** The first terminator ends the first piece. */
  lemma SplitFirst(piece: string, c: char, rest: string)
    requires c !in piece
    ensures Split(piece + [c] + rest, c) == [piece] + Split(rest, c)
  {
    var text := piece + [c] + rest;
    IndexOfAfterPrefix(piece, [c], rest);
    assert text[..|piece|] == piece;
    assert text[|piece| + 1..] == rest;
  }

  /** `string.Join(separator, parts)`. */
  function Join(separator: string, parts: seq<string>): string
    decreases |parts|
  {
    if |parts| == 0 then ""
    else if |parts| == 1 then parts[0]
    else parts[0] + separator + Join(separator, parts[1..])
  }

  // ---------------------------------------------------------------------------
  // Number formatting

  function DigitChar(d: nat): (c: char)
    requires d < 16
  {
    if d < 10 then ('0' as int + d) as char else ('A' as int + d - 10) as char
  }

  /** `n.ToString()`: decimal digits, no sign, no leading zeros. */
  function Decimal(n: nat): (r: string)
    ensures |r| > 0
    ensures forall i :: 0 <= i < |r| ==> '0' <= r[i] <= '9'
  {
    if n < 10 then [DigitChar(n)] else Decimal(n / 10) + [DigitChar(n % 10)]
  }

  /** An upper-case hexadecimal digit. */
  predicate IsHexDigit(c: char) {
    '0' <= c <= '9' || 'A' <= c <= 'F'
  }

  /** The value of an upper-case hexadecimal digit. */
  function HexDigitValue(c: char): (v: Option<nat>)
    ensures v.Some? <==> IsHexDigit(c)
    ensures v.Some? ==> v.value < 16 && DigitChar(v.value) == c
  {
    if '0' <= c <= '9' then Some(c as int - '0' as int)
    else if 'A' <= c <= 'F' then Some(c as int - 'A' as int + 10)
    else None
  }

  lemma HexDigitValueOfDigit(d: nat)
    requires d < 16
    ensures HexDigitValue(DigitChar(d)) == Some(d)
  {
  }

  predicate AllHexDigits(s: string) {
    forall i :: 0 <= i < |s| ==> IsHexDigit(s[i])
  }

  /** The number a string of upper-case hexadecimal digits denotes, most
      significant digit first; the empty string denotes 0. */
  function HexValue(s: string): nat
    requires AllHexDigits(s)
    decreases |s|
  {
    if |s| == 0 then 0
    else 16 * HexValue(s[..|s| - 1]) + HexDigitValue(s[|s| - 1]).value
  }

  /** `n.ToString("X")`: upper-case hexadecimal digits, no leading zeros. */
  function HexUpper(n: nat): (r: string)
    ensures |r| > 0
    ensures forall i :: 0 <= i < |r| ==> !IsAsciiLower(r[i])
    ensures AllHexDigits(r)
  {
    if n < 16 then [DigitChar(n)] else HexUpper(n / 16) + [DigitChar(n % 16)]
  }

  /** The digits `HexUpper` prints denote the number printed. */
  lemma {:induction false} HexValueOfHexUpper(n: nat)
    ensures HexValue(HexUpper(n)) == n
    decreases n
  {
    var r := HexUpper(n);
    HexDigitValueOfDigit(n % 16);
    if n >= 16 {
      HexValueOfHexUpper(n / 16);
      assert r[..|r| - 1] == HexUpper(n / 16);
    }
  }

  /** Leading zeros do not change the value of a hexadecimal number. */
  lemma {:induction false} HexValueOfZeros(k: nat, s: string)
    requires AllHexDigits(s)
    ensures AllHexDigits(seq(k, _ => '0') + s)
    ensures HexValue(seq(k, _ => '0') + s) == HexValue(s)
    decreases |s|
  {
    var z := seq(k, _ => '0') + s;
    if |s| == 0 {
      assert z == seq(k, _ => '0');
      ZerosAreZero(k);
    } else {
      HexValueOfZeros(k, s[..|s| - 1]);
      assert z[..|z| - 1] == seq(k, _ => '0') + s[..|s| - 1];
    }
  }

  lemma {:induction false} ZerosAreZero(k: nat)
    ensures AllHexDigits(seq(k, _ => '0'))
    ensures HexValue(seq(k, _ => '0')) == 0
    decreases k
  {
    if k > 0 {
      ZerosAreZero(k - 1);
      assert seq(k, _ => '0')[..k - 1] == seq(k - 1, _ => '0');
    }
  }

  /** `n.ToString("X").PadLeft(width, '0')`: hexadecimal digits that still
      denote `n`. */
  lemma PaddedHexValue(n: nat, width: int)
    ensures AllHexDigits(PadLeft(HexUpper(n), width, '0'))
    ensures HexValue(PadLeft(HexUpper(n), width, '0')) == n
  {
    var h := HexUpper(n);
    HexValueOfHexUpper(n);
    if |h| < width {
      var r := PadLeft(h, width, '0');
      assert r == seq(width - |h|, _ => '0') + h;
      HexValueOfZeros(width - |h|, h);
    }
  }

  /** Values below 16^4 print in at most four hexadecimal digits. */
  lemma HexUpperShort(n: nat)
    requires n < 0x1_0000
    ensures |HexUpper(n)| <= 4
  {
    assert Pow16(4) == 0x1_0000;
    HexUpperBelow(n, 4);
  }

  lemma HexUpperBelow(n: nat, digits: nat)
    requires digits >= 1
    requires n < Pow16(digits)
    ensures |HexUpper(n)| <= digits
  {
    if n >= 16 {
      assert digits >= 2;
      HexUpperBelow(n / 16, digits - 1);
    }
  }

  function Pow16(k: nat): nat {
    if k == 0 then 1 else 16 * Pow16(k - 1)
  }

  /** Values below 10^digits print in at most `digits` decimal digits. */
  lemma DecimalBelow(n: nat, digits: nat)
    requires digits >= 1
    requires n < Pow10(digits)
    ensures |Decimal(n)| <= digits
  {
    if n >= 10 {
      assert digits >= 2;
      DecimalBelow(n / 10, digits - 1);
    }
  }

  function Pow10(k: nat): nat {
    if k == 0 then 1 else 10 * Pow10(k - 1)
  }

  // ---------------------------------------------------------------------------
  // White space and trimming

  /** `char.IsWhiteSpace`: the Unicode White_Space characters. U+FEFF is not one. */
  predicate IsWhiteSpace(c: char) {
    || '\U{9}' <= c <= '\U{D}'
    || c == ' ' || c == '\U{85}' || c == '\U{A0}' || c == '\U{1680}'
    || '\U{2000}' <= c <= '\U{200A}'
    || c == '\U{2028}' || c == '\U{2029}' || c == '\U{202F}' || c == '\U{205F}' || c == '\U{3000}'
  }

  function TrimStart(s: string): (r: string)
    ensures |r| <= |s| && r == s[|s| - |r|..]
    ensures |r| > 0 ==> !IsWhiteSpace(r[0])
    ensures forall k :: 0 <= k < |s| - |r| ==> IsWhiteSpace(s[k])
  {
    if |s| > 0 && IsWhiteSpace(s[0]) then TrimStart(s[1..]) else s
  }

  function TrimEnd(s: string): (r: string)
    ensures |r| <= |s| && r == s[..|r|]
    ensures |r| > 0 ==> !IsWhiteSpace(r[|r| - 1])
    ensures forall k :: |r| <= k < |s| ==> IsWhiteSpace(s[k])
  {
    if |s| > 0 && IsWhiteSpace(s[|s| - 1]) then TrimEnd(s[..|s| - 1]) else s
  }

  /** `string.Trim()`: leading and trailing white space removed. */
  function Trim(s: string): (r: string)
    ensures |r| <= |s|
    ensures TrimmedSlice(s, r)
  {
    TrimIsSlice(s);
    TrimEnd(TrimStart(s))
  }

  lemma TrimIsSlice(s: string)
    ensures TrimmedSlice(s, TrimEnd(TrimStart(s)))
  {
    var t := TrimStart(s);
    var r := TrimEnd(t);
    var i := |s| - |t|;
    assert t == s[i..];
    if |r| > 0 {
      assert r[0] == t[0];
    }
    TrimBoth(s, t, r, i);
  }

  lemma TrimBoth(s: string, t: string, r: string, i: nat)
    requires i <= |s| && t == s[i..] && |r| <= |t| && r == t[..|r|]
    requires forall k :: 0 <= k < i ==> IsWhiteSpace(s[k])
    requires forall k :: |r| <= k < |t| ==> IsWhiteSpace(t[k])
    requires |r| > 0 ==> !IsWhiteSpace(t[0]) && !IsWhiteSpace(r[|r| - 1])
    ensures TrimmedSlice(s, r)
  {
    TrimTail(s, t, r, i);
    assert SliceAt(s, r, i);
  }

  lemma TrimTail(s: string, t: string, r: string, i: nat)
    requires i <= |s| && t == s[i..] && |r| <= |t| && r == t[..|r|]
    requires forall k :: |r| <= k < |t| ==> IsWhiteSpace(t[k])
    ensures r == s[i..i + |r|]
    ensures forall k :: i + |r| <= k < |s| ==> IsWhiteSpace(s[k])
  {
    forall k | i + |r| <= k < |s|
      ensures IsWhiteSpace(s[k])
    {
      assert s[k] == t[k - i];
    }
  }

  /** `r` is `s` with white space cut from both ends: a slice of `s` that
      starts and ends on a non-white character, with only white space
      around it. */
  ghost predicate TrimmedSlice(s: string, r: string) {
    && (|r| > 0 ==> !IsWhiteSpace(r[0]) && !IsWhiteSpace(r[|r| - 1]))
    && exists i :: SliceAt(s, r, i)
  }

  predicate SliceAt(s: string, r: string, i: int) {
    && 0 <= i <= |s| - |r|
    && r == s[i..i + |r|]
    && (forall k :: 0 <= k < i ==> IsWhiteSpace(s[k]))
    && (forall k :: i + |r| <= k < |s| ==> IsWhiteSpace(s[k]))
  }

  // ---------------------------------------------------------------------------
  // Encodings

  /** Bytes `Encoding.UTF8` produces for one scalar value. */
  function Utf8Width(c: char): (n: nat)
    ensures 1 <= n <= 4
  {
    if c as int < 0x80 then 1
    else if c as int < 0x800 then 2
    else if c as int < 0x1_0000 then 3
    else 4
  }

  /** `Encoding.UTF8.GetBytes(s).Length`. */
  function Utf8Length(s: string): (n: nat)
    ensures n >= |s|
  {
    if |s| == 0 then 0 else Utf8Width(s[0]) + Utf8Length(s[1..])
  }

  /** `Encoding.ASCII.GetBytes(s).Length`: one byte per character, a
      character outside ASCII becoming '?'. */
  function AsciiByteCount(s: string): nat {
    |s|
  }

  predicate IsAscii(s: string) {
    forall i :: 0 <= i < |s| ==> s[i] as int < 0x80
  }

  /** For ASCII text both encodings count one byte per character. */
  lemma {:induction false} Utf8LengthOfAscii(s: string)
    requires IsAscii(s)
    ensures Utf8Length(s) == AsciiByteCount(s)
  {
    if |s| > 0 {
      assert IsAscii(s[1..]) by {
        forall i | 0 <= i < |s| - 1 ensures s[1..][i] as int < 0x80 {
          assert s[1..][i] == s[i + 1];
        }
      }
      Utf8LengthOfAscii(s[1..]);
    }
  }
}
