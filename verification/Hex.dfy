/** Bytes, and their hexadecimal text. */
module Hex {
  import opened Wrappers

  type Byte = b: nat | b < 256

  function DigitOf(d: nat): (c: char)
    requires d < 16
    ensures IsHexDigit(c) && ValueOf(c) == d
  {
    if d < 10 then '0' + d as char else 'a' + (d - 10) as char
  }

  predicate IsHexDigit(c: char) {
    '0' <= c <= '9' || 'a' <= c <= 'f' || 'A' <= c <= 'F'
  }

  function ValueOf(c: char): (d: nat)
    requires IsHexDigit(c)
    ensures d < 16
  {
    if c <= '9' then (c - '0') as nat
    else if c <= 'F' then 10 + (c - 'A') as nat
    else 10 + (c - 'a') as nat
  }

  predicate IsHex(s: string) { forall i :: 0 <= i < |s| ==> IsHexDigit(s[i]) }

  /** The `i`-th character of the text of `b`: the high half of a byte, or the low half. */
  function HexAt(b: seq<Byte>, i: nat): (c: char)
    requires i < 2 * |b|
    ensures IsHexDigit(c)
  {
    DigitOf(if i % 2 == 0 then b[i / 2] / 16 else b[i / 2] % 16)
  }

  /** Two lower-case digits for every byte. */
  function ToHex(b: seq<Byte>): string {
    seq(2 * |b|, i requires 0 <= i < 2 * |b| => HexAt(b, i))
  }

  /** The byte two characters spell. */
  function ByteAt(s: string, i: nat): Byte
    requires IsHex(s) && 2 * i + 1 < |s|
  {
    16 * ValueOf(s[2 * i]) + ValueOf(s[2 * i + 1])
  }

  function FromHex(s: string): Option<seq<Byte>> {
    if |s| % 2 != 0 || !IsHex(s) then None
    else Some(seq(|s| / 2, i requires 0 <= i < |s| / 2 => ByteAt(s, i)))
  }

  lemma EncodedIsHex(b: seq<Byte>)
    ensures IsHex(ToHex(b))
  {}

  lemma ByteOfEncoded(b: seq<Byte>, i: nat)
    requires i < |b| && IsHex(ToHex(b))
    ensures ByteAt(ToHex(b), i) == b[i]
  {}

  /** Decoding undoes encoding. */
  lemma FromToHex(b: seq<Byte>)
    ensures FromHex(ToHex(b)) == Some(b)
  {
    EncodedIsHex(b);
    forall i | 0 <= i < |b|
      ensures ByteAt(ToHex(b), i) == b[i]
    {
      ByteOfEncoded(b, i);
    }
    assert FromHex(ToHex(b)).value == b;
  }

  /** Distinct bytes have distinct texts. */
  lemma ToHexInjective(a: seq<Byte>, b: seq<Byte>)
    requires ToHex(a) == ToHex(b)
    ensures a == b
  {
    FromToHex(a);
    FromToHex(b);
  }

  /** The two ways to write a digit of sixteen. */
  predicate Spells(c: char, d: nat) { d < 16 && (c == "0123456789abcdef"[d] || c == "0123456789ABCDEF"[d]) }

  lemma LowerDigit(d: nat)
    requires d < 16
    ensures "0123456789abcdef"[d] == DigitOf(d)
  {}

  lemma UpperDigit(d: nat)
    requires d < 16
    ensures "0123456789ABCDEF"[d] == if d < 10 then '0' + d as char else 'A' + (d - 10) as char
  {}

  lemma SpellsDigit(c: char, d: nat)
    ensures Spells(c, d) <==> IsHexDigit(c) && ValueOf(c) == d
  {
    if d < 16 {
      LowerDigit(d);
      UpperDigit(d);
    }
  }

  ghost predicate SpellsByte(s: string, i: nat, b: Byte) {
    2 * i + 1 < |s| && Spells(s[2 * i], b / 16) && Spells(s[2 * i + 1], b % 16)
  }

  lemma SpelledByte(s: string, i: nat, b: Byte)
    requires 2 * i + 1 < |s| && IsHex(s)
    ensures ByteAt(s, i) == b <==> SpellsByte(s, i, b)
  {
    SpellsDigit(s[2 * i], b / 16);
    SpellsDigit(s[2 * i + 1], b % 16);
  }

  lemma SpelledIsHex(s: string, b: seq<Byte>)
    requires |s| == 2 * |b| && forall i :: 0 <= i < |b| ==> SpellsByte(s, i, b[i])
    ensures IsHex(s)
  {
    forall j | 0 <= j < |s|
      ensures IsHexDigit(s[j])
    {
      var i := j / 2;
      assert SpellsByte(s, i, b[i]);
      SpellsDigit(s[2 * i], b[i] / 16);
      SpellsDigit(s[2 * i + 1], b[i] % 16);
      assert j == 2 * i || j == 2 * i + 1;
    }
  }

  /** A text is read as some bytes if and only if it spells them, two digits a byte, the high half first. */
  lemma FromHexMeans(s: string, b: seq<Byte>)
    ensures FromHex(s) == Some(b) <==> |s| == 2 * |b| && forall i :: 0 <= i < |b| ==> SpellsByte(s, i, b[i])
  {
    if FromHex(s) == Some(b) {
      forall i | 0 <= i < |b|
        ensures SpellsByte(s, i, b[i])
      {
        SpelledByte(s, i, b[i]);
      }
    }
    if |s| == 2 * |b| && forall i :: 0 <= i < |b| ==> SpellsByte(s, i, b[i]) {
      SpelledIsHex(s, b);
      forall i | 0 <= i < |b|
        ensures ByteAt(s, i) == b[i]
      {
        SpelledByte(s, i, b[i]);
      }
      assert FromHex(s).value == b;
    }
  }

  /** Bytes are written in lower case. */
  lemma ToHexMeans(b: seq<Byte>, i: nat)
    requires i < |b|
    ensures |ToHex(b)| == 2 * |b|
    ensures ToHex(b)[2 * i] == "0123456789abcdef"[b[i] / 16] && ToHex(b)[2 * i + 1] == "0123456789abcdef"[b[i] % 16]
  {}
}
