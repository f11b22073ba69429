/** Hexadecimal text. */
module Hex {
  import opened Outcomes
  import opened Bytes

  const DIGITS: string := "0123456789abcdef"

  predicate IsHexDigit(c: char) {
    '0' <= c <= '9' || 'a' <= c <= 'f' || 'A' <= c <= 'F'
  }

  function DigitValue(c: char): (v: nat)
    requires IsHexDigit(c)
    ensures v < 16
  {
    if c <= '9' then c as nat - '0' as nat
    else if c <= 'F' then c as nat - 'A' as nat + 10
    else c as nat - 'a' as nat + 10
  }

  function UpperChar(c: char): char {
    if 'a' <= c <= 'z' then (c as nat - 'a' as nat + 'A' as nat) as char else c
  }

  function Upper(s: string): (r: string)
    ensures |r| == |s| && forall i :: 0 <= i < |s| ==> r[i] == UpperChar(s[i])
  {
    seq(|s|, i requires 0 <= i < |s| => UpperChar(s[i]))
  }

  function HexEncode(bytes: seq<byte>): (s: string)
    ensures |s| == 2 * |bytes|
  {
    if bytes == [] then [] else [DIGITS[bytes[0] / 16], DIGITS[bytes[0] % 16]] + HexEncode(bytes[1..])
  }

  predicate AllHex(s: string) {
    forall i :: 0 <= i < |s| ==> IsHexDigit(s[i])
  }

  /** Fails for an odd number of digits only, once everything else is filtered out. */
  function HexDecode(s: string): Option<seq<byte>>
    requires AllHex(s)
  {
    if s == [] then Some([])
    else if |s| == 1 then None
    else
      match HexDecode(s[2..])
      case None => None
      case Some(rest) => Some([16 * DigitValue(s[0]) + DigitValue(s[1])] + rest)
  }

  lemma DecodePair(a: char, b: char, rest: string)
    requires IsHexDigit(a) && IsHexDigit(b) && AllHex(rest)
    ensures AllHex([a, b] + rest)
    ensures HexDecode(rest).Some? ==>
              HexDecode([a, b] + rest) == Some([16 * DigitValue(a) + DigitValue(b)] + HexDecode(rest).value)
  {
    assert ([a, b] + rest)[2..] == rest;
    hide DigitValue;
  }

  /** Either case of the letters. */
  function Cased(s: string, upper: bool): (r: string)
    ensures |r| == |s|
  {
    if upper then Upper(s) else s
  }

  lemma UpperAppend(a: string, b: string)
    ensures Upper(a + b) == Upper(a) + Upper(b)
  {
    hide UpperChar;
    assert forall i :: 0 <= i < |a + b| ==> Upper(a + b)[i] == (Upper(a) + Upper(b))[i];
  }

  lemma EncodePair(bytes: seq<byte>, upper: bool)
    requires bytes != []
    ensures var b, rest := bytes[0], Cased(HexEncode(bytes[1..]), upper);
            Cased(HexEncode(bytes), upper) == Cased([DIGITS[b / 16], DIGITS[b % 16]], upper) + rest
  {
    var pair := [DIGITS[bytes[0] / 16], DIGITS[bytes[0] % 16]];
    assert HexEncode(bytes) == pair + HexEncode(bytes[1..]);
    hide HexEncode, Upper;
    UpperAppend(pair, HexEncode(bytes[1..]));
  }

  ghost predicate Decodes(s: string, bytes: seq<byte>) {
    AllHex(s) && HexDecode(s) == Some(bytes)
  }

  lemma DecodeByte(b: byte, upper: bool, rest: string, bytes: seq<byte>)
    requires Decodes(rest, bytes)
    ensures Decodes(Cased([DIGITS[b / 16], DIGITS[b % 16]], upper) + rest, [b] + bytes)
  {
    DigitRoundTrip(b / 16, upper);
    DigitRoundTrip(b % 16, upper);
    var s := Cased([DIGITS[b / 16], DIGITS[b % 16]], upper);
    DecodePair(s[0], s[1], rest);
    assert s == [s[0], s[1]];
    assert s[0] == Cased([DIGITS[b / 16]], upper)[0] && s[1] == Cased([DIGITS[b % 16]], upper)[0];
    hide HexDecode, DigitValue, UpperChar, IsHexDigit, AllHex;
  }

  lemma {:induction false} HexRoundTrip(bytes: seq<byte>, upper: bool)
    ensures Decodes(Cased(HexEncode(bytes), upper), bytes)
    decreases |bytes|
  {
    if bytes != [] {
      HexRoundTrip(bytes[1..], upper);
      EncodePair(bytes, upper);
      DecodeByte(bytes[0], upper, Cased(HexEncode(bytes[1..]), upper), bytes[1..]);
      hide *;
      assert bytes == [bytes[0]] + bytes[1..];
    }
  }

  lemma DigitRoundTrip(v: nat, upper: bool)
    requires v < 16
    ensures var c := Cased([DIGITS[v]], upper)[0]; IsHexDigit(c) && DigitValue(c) == v
  {
  }

  lemma {:induction false} DecodeParity(s: string)
    requires AllHex(s)
    ensures HexDecode(s).None? <==> |s| % 2 == 1
    ensures HexDecode(s).Some? ==> |HexDecode(s).value| == |s| / 2
    decreases |s|
  {
    if |s| >= 2 {
      DecodeParity(s[2..]);
    }
  }

  /** The character of a digit, in lower case. */
  function DigitChar(v: nat): char
    requires v < 16
  {
    if v < 10 then '0' + v as char else 'a' + (v - 10) as char
  }

  /** Each byte is two digits, the high one first. */
  lemma {:induction false} HexDigits(bytes: seq<byte>, k: nat)
    requires k < |bytes|
    ensures HexEncode(bytes)[2 * k] == DigitChar(bytes[k] / 16) && HexEncode(bytes)[2 * k + 1] == DigitChar(bytes[k] % 16)
    decreases |bytes|
  {
    if k > 0 {
      HexDigits(bytes[1..], k - 1);
    } else {
      DigitIsChar(bytes[0] / 16);
      DigitIsChar(bytes[0] % 16);
    }
  }

  lemma DigitIsChar(v: nat)
    requires v < 16
    ensures DIGITS[v] == DigitChar(v)
  {
  }
}
