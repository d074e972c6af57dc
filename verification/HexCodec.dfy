/** Hexadecimal text and bytes. */
module HexCodec {
  import opened Basics

  type nibble = x: int | 0 <= x < 16

  function CharToHex(c: char): Option<nibble> {
    if '0' <= c <= '9' then Some(c as int - '0' as int)
    else if 'a' <= c <= 'f' then Some(c as int - 'a' as int + 10)
    else if 'A' <= c <= 'F' then Some(c as int - 'A' as int + 10)
    else None
  }

  function HexChar(val: nibble): char {
    if val < 10 then '0' + val as char else 'a' + (val - 10) as char
  }

  predicate IsHex(c: char) {
    CharToHex(c).Some?
  }

  function HexValue(c: char): nibble
    requires IsHex(c)
  {
    CharToHex(c).value
  }

  function ByteOf(hi: nibble, lo: nibble): byte {
    16 * hi + lo
  }

  ghost predicate AllHex(str: string) {
    forall i :: 0 <= i < |str| ==> IsHex(str[i])
  }

  /** The bytes that `str` spells, read in pairs of digits. */
  ghost function Spelled(str: string): seq<byte>
    requires |str| % 2 == 0 && AllHex(str)
  {
    seq(|str| / 2, i requires 0 <= i < |str| / 2 => ByteOf(HexValue(str[2 * i]), HexValue(str[2 * i + 1])))
  }

  ghost function Spelling(data: seq<byte>): string {
    seq(2 * |data|, i requires 0 <= i < 2 * |data| =>
      HexChar(if i % 2 == 0 then data[i / 2] / 16 else data[i / 2] % 16))
  }

  function Lower(c: char): char {
    if 'A' <= c <= 'F' then c - 'A' + 'a' else c
  }

  method HexDecode(str: string, buf: array<byte>) returns (ok: bool)
    modifies buf
    ensures ok <==> |str| == 2 * buf.Length && AllHex(str)
    ensures ok ==> buf[..] == Spelled(str)
  {
    var p, at, slen, bufsize := 0, 0, |str|, buf.Length;
    while slen > 1
      invariant at == 2 * p && slen == |str| - at && bufsize == buf.Length - p
      invariant 0 <= p <= buf.Length && slen >= 0
      invariant forall i :: 0 <= i < at ==> IsHex(str[i])
      invariant forall i :: 0 <= i < p ==> buf[i] == ByteOf(HexValue(str[2 * i]), HexValue(str[2 * i + 1]))
    {
      var v1, v2 := CharToHex(str[at]), CharToHex(str[at + 1]);
      if v1 == None || v2 == None {
        return false;
      }
      if bufsize == 0 {
        return false;
      }
      buf[p] := ByteOf(v1.value, v2.value);
      p, at, slen, bufsize := p + 1, at + 2, slen - 2, bufsize - 1;
    }
    ok := slen == 0 && bufsize == 0;
  }

  method HexEncode(data: seq<byte>, dest: array<char>) returns (ok: bool)
    modifies dest
    ensures ok <==> dest.Length >= 2 * |data| + 1
    ensures ok ==> dest[..2 * |data|] == Spelling(data) && dest[2 * |data|] == '\0'
    ensures forall i :: (!ok || i > 2 * |data|) && 0 <= i < dest.Length ==> dest[i] == old(dest[i])
  {
    if dest.Length < 2 * |data| + 1 {
      return false;
    }
    var at := 0;
    for i := 0 to |data|
      invariant at == 2 * i
      invariant forall k :: 0 <= k < at ==> dest[k] == Spelling(data)[k]
      invariant forall k :: at <= k < dest.Length ==> dest[k] == old(dest[k])
    {
      var c := data[i];
      dest[at] := HexChar(c / 16);
      dest[at + 1] := HexChar(c % 16);
      at := at + 2;
    }
    dest[at] := '\0';
    return true;
  }

  /* ---- the digits, spelled out ---- */

  const LOWER_DIGITS := "0123456789abcdef"
  const UPPER_DIGITS := "0123456789ABCDEF"

  lemma DigitTable(v: nibble)
    ensures HexChar(v) == LOWER_DIGITS[v]
  {
  }

  /** A character stands for `v` if and only if it is digit `v`, in either case. */
  lemma DigitMeans(c: char, v: int)
    ensures CharToHex(c) == Some(v) <==> 0 <= v < 16 && (c == LOWER_DIGITS[v] || c == UPPER_DIGITS[v])
  {
    if 0 <= v < 16 {
      DigitValues(v);
    }
    if CharToHex(c).Some? {
      DigitValues(CharToHex(c).value);
    }
  }

  lemma DigitValues(v: nibble)
    ensures LOWER_DIGITS[v] as int == (if v < 10 then '0' as int + v else 'a' as int + v - 10)
    ensures UPPER_DIGITS[v] as int == (if v < 10 then '0' as int + v else 'A' as int + v - 10)
  {
  }

  /** The text of a byte is its high digit and then its low digit. */
  lemma SpellingInDigits(data: seq<byte>, i: nat)
    requires i < |data|
    ensures |Spelling(data)| == 2 * |data|
    ensures Spelling(data)[2 * i] == LOWER_DIGITS[data[i] / 16]
    ensures Spelling(data)[2 * i + 1] == LOWER_DIGITS[data[i] % 16]
  {
    hide HexChar;
    SpelledPair(data, i);
    DigitTable(data[i] / 16);
    DigitTable(data[i] % 16);
  }

  /** The byte that two digits spell is sixteen times the first and the second. */
  lemma SpelledFromDigits(str: string, i: nat, hi: nibble, lo: nibble)
    requires |str| % 2 == 0 && AllHex(str) && 2 * i < |str|
    requires str[2 * i] == LOWER_DIGITS[hi] || str[2 * i] == UPPER_DIGITS[hi]
    requires str[2 * i + 1] == LOWER_DIGITS[lo] || str[2 * i + 1] == UPPER_DIGITS[lo]
    ensures Spelled(str)[i] == 16 * hi + lo
  {
    hide CharToHex;
    DigitMeans(str[2 * i], hi);
    DigitMeans(str[2 * i + 1], lo);
  }

  lemma DigitReadsBack(v: int)
    requires 0 <= v < 16
    ensures CharToHex(HexChar(v)) == Some(v)
  {
  }

  lemma SpelledPair(data: seq<byte>, i: nat)
    requires i < |data|
    ensures Spelling(data)[2 * i] == HexChar(data[i] / 16) && Spelling(data)[2 * i + 1] == HexChar(data[i] % 16)
  {
    assert (2 * i) / 2 == i && (2 * i) % 2 == 0 && (2 * i + 1) / 2 == i && (2 * i + 1) % 2 == 1;
  }

  lemma SpellingIsHex(data: seq<byte>, k: nat)
    requires k < 2 * |data|
    ensures IsHex(Spelling(data)[k])
  {
    hide HexChar, CharToHex;
    DigitReadsBack(data[k / 2] / 16);
    DigitReadsBack(data[k / 2] % 16);
  }

  lemma DecodeAfterEncode(data: seq<byte>)
    ensures |Spelling(data)| == 2 * |data|
    ensures AllHex(Spelling(data))
    ensures Spelled(Spelling(data)) == data
  {
    hide HexChar, CharToHex;
    forall k | 0 <= k < 2 * |data|
      ensures IsHex(Spelling(data)[k])
    {
      SpellingIsHex(data, k);
    }
    forall i | 0 <= i < |data|
      ensures Spelled(Spelling(data))[i] == data[i]
    {
      SpelledPair(data, i);
      DigitReadsBack(data[i] / 16);
      DigitReadsBack(data[i] % 16);
    }
  }

  lemma DigitLowers(c: char)
    requires IsHex(c)
    ensures HexChar(HexValue(c)) == Lower(c)
  {
  }

  lemma DigitsOf(hi: nibble, lo: nibble)
    ensures ByteOf(hi, lo) / 16 == hi && ByteOf(hi, lo) % 16 == lo
  {
  }

  lemma PairLowers(str: string, j: nat)
    requires |str| % 2 == 0 && AllHex(str) && 2 * j < |str|
    ensures Spelling(Spelled(str))[2 * j] == Lower(str[2 * j])
    ensures Spelling(Spelled(str))[2 * j + 1] == Lower(str[2 * j + 1])
  {
    hide HexChar, CharToHex, ByteOf, Spelling, Lower;
    SpelledPair(Spelled(str), j);
    DigitsOf(HexValue(str[2 * j]), HexValue(str[2 * j + 1]));
    DigitLowers(str[2 * j]);
    DigitLowers(str[2 * j + 1]);
  }

  lemma EncodeAfterDecode(str: string)
    requires |str| % 2 == 0 && AllHex(str)
    ensures Spelling(Spelled(str)) == seq(|str|, i requires 0 <= i < |str| => Lower(str[i]))
  {
    hide HexChar, CharToHex, ByteOf, Lower;
    forall i | 0 <= i < |str|
      ensures Spelling(Spelled(str))[i] == Lower(str[i])
    {
      PairLowers(str, i / 2);
      assert i == 2 * (i / 2) || i == 2 * (i / 2) + 1;
    }
  }
}
