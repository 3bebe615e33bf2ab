/**
 Mixed-case address checksums after EIP-55, and the check of a typed recipient.  The hash is any function from text to
 hex digits.
 */
module Eip55 {
  import opened Wrappers
  import opened Text
  import opened Hex

  /** The hash of a text, as the values of its hex digits. */
  type Hash = string -> seq<nat>

  predicate IsLower(c: char) { 'a' <= c <= 'z' }
  predicate IsUpper(c: char) { 'A' <= c <= 'Z' }

  function LowerChar(c: char): char { if IsUpper(c) then 'a' + (c - 'A') else c }
  function UpperChar(c: char): char { if IsLower(c) then 'A' + (c - 'a') else c }

  function Lower(s: string): string {
    seq(|s|, i requires 0 <= i < |s| => LowerChar(s[i]))
  }

  function Upper(s: string): string {
    seq(|s|, i requires 0 <= i < |s| => UpperChar(s[i]))
  }

  /** Letters and their capitals are 32 apart, and nothing else has a case. */
  lemma CasesAre(c: char)
    ensures LowerChar(c) as int == c as int + if 65 <= c as int <= 90 then 32 else 0
    ensures UpperChar(c) as int == c as int - if 97 <= c as int <= 122 then 32 else 0
  {}

  // ---------- the checksum ----------

  /** A letter is upper case exactly where the hash of the lower-case address has a digit of 8 or more. */
  function CasedChar(digits: seq<nat>, lower: string, i: nat): char
    requires i < |lower|
  {
    if i < |digits| && digits[i] >= 8 then UpperChar(lower[i]) else lower[i]
  }

  function Cased(digits: seq<nat>, lower: string): string {
    seq(|lower|, i requires 0 <= i < |lower| => CasedChar(digits, lower, i))
  }

  /** `eip55_checksum`. */
  function Checksum(hash: Hash, addr: string): string {
    var lower := Lower(StripPrefix(addr, "0x"));
    "0x" + Cased(hash(lower), lower)
  }

  // ---------- the check of a recipient ----------

  datatype Refusal = NotTwentyBytes | NotHex | BadChecksum

  /** The length of a text in UTF-8. */
  function Utf8Length(s: string): nat {
    if s == "" then 0
    else
      var c := s[0];
      (if c < '\U{80}' then 1 else if c < '\U{800}' then 2 else if c < '\U{10000}' then 3 else 4) + Utf8Length(s[1..])
  }

  function StripEither(t: string): string {
    if "0x" <= t then t[2..] else if "0X" <= t then t[2..] else t
  }

  predicate HasUpper(s: string) { exists i :: 0 <= i < |s| && IsUpper(s[i]) }
  predicate HasLower(s: string) { exists i :: 0 <= i < |s| && IsLower(s[i]) }

  /** `validate_recipient_address`. */
  function Validate(hash: Hash, input: string): Result<string, Refusal> {
    var hex := StripEither(Trim(input));
    if Utf8Length(hex) != 40 then Err(NotTwentyBytes)
    else if !IsHex(hex) then Err(NotHex)
    else if HasUpper(hex) && HasLower(hex) && Checksum(hash, hex) != "0x" + hex then Err(BadChecksum)
    else Ok("0x" + Lower(hex))
  }

  // ---------- what the checksum promises ----------

  lemma CasedIsOnlyCase(digits: seq<nat>, s: string)
    ensures Lower(Cased(digits, Lower(s))) == Lower(s)
  {}

  /** Only the case of letters is changed, as the hash of the lower-case text says: doing it again changes nothing. */
  lemma ChecksumIsIdempotent(hash: Hash, addr: string)
    ensures Checksum(hash, Checksum(hash, addr)) == Checksum(hash, addr)
  {
    var lower := Lower(StripPrefix(addr, "0x"));
    CasedIsOnlyCase(hash(lower), StripPrefix(addr, "0x"));
    assert ("0x" + Cased(hash(lower), lower))[2..] == Cased(hash(lower), lower);
  }

  /** Capitals stand exactly where a letter meets a hash digit of 8 or more. */
  lemma CapitalsAt(hash: Hash, addr: string, i: nat)
    requires i < |StripPrefix(addr, "0x")|
    ensures var text, c := Lower(StripPrefix(addr, "0x")), Checksum(hash, addr)[2 + i];
            && |Checksum(hash, addr)| == 2 + |text|
            && LowerChar(c) == text[i]
            && (IsUpper(c) <==> IsLower(text[i]) && i < |hash(text)| && hash(text)[i] >= 8)
  {}

  lemma ChecksumDetermines(hash: Hash, a: string, b: string)
    requires "0x" <= a && "0x" <= b && Checksum(hash, a) == Checksum(hash, b)
    ensures Lower(a) == Lower(b)
  {
    var x, y := a[2..], b[2..];
    assert a == "0x" + x && b == "0x" + y;
    CasedIsOnlyCase(hash(Lower(x)), x);
    CasedIsOnlyCase(hash(Lower(y)), y);
    assert Checksum(hash, a)[2..] == Cased(hash(Lower(x)), Lower(x));
    assert Checksum(hash, b)[2..] == Cased(hash(Lower(y)), Lower(y));
    assert Lower(a) == "0x" + Lower(x) && Lower(b) == "0x" + Lower(y);
  }

  // ---------- what the check accepts ----------

  lemma {:induction false} HexIsAscii(s: string)
    requires IsHex(s)
    ensures Utf8Length(s) == |s|
  {
    if s != "" {
      HexIsAscii(s[1..]);
    }
  }

  /** The three ways to write an address that are taken: small letters, capitals, or as the checksum has it. */
  ghost predicate AcceptedCasing(hash: Hash, hex: string) {
    && |hex| == 40
    && IsHex(hex)
    && (hex == Lower(hex) || hex == Upper(hex) || hex == Cased(hash(Lower(hex)), Lower(hex)))
  }

  lemma HexHasNoPrefix(hex: string)
    requires IsHex(hex)
    ensures StripEither(hex) == hex && StripPrefix(hex, "0x") == hex
  {
    if |hex| >= 2 {
      assert IsHexDigit(hex[1]);
    }
  }

  lemma ValidateBody(hash: Hash, input: string)
    ensures var hex := StripEither(Trim(input));
            && (Validate(hash, input).Ok? <==> AcceptedCasing(hash, hex))
            && (Validate(hash, input).Ok? ==> Validate(hash, input).value == "0x" + Lower(hex))
  {
    var hex := StripEither(Trim(input));
    if IsHex(hex) {
      HexIsAscii(hex);
      HexHasNoPrefix(hex);
      var cased := Cased(hash(Lower(hex)), Lower(hex));
      assert ("0x" + cased)[2..] == cased && ("0x" + hex)[2..] == hex;
    }
  }

  /** What is refused, and why: first the length, then the digits, then the checksum. */
  lemma RefusedBecause(hash: Hash, a: string, p: string, hex: string, b: string)
    requires AllSpace(a) && IsPrefix(p) && AllSpace(b) && hex != "" && Tight(p + hex) && StripEither(p + hex) == hex
    ensures Validate(hash, a + (p + hex) + b)
         == if Utf8Length(hex) != 40 then Err(NotTwentyBytes)
            else if exists i :: 0 <= i < 40 && i < |hex| && !IsHexDigit(hex[i]) then Err(NotHex)
            else if AcceptedCasing(hash, hex) then Ok("0x" + Lower(hex))
            else Err(BadChecksum)
  {
    TrimPadded(a, p + hex, b);
    ValidateBody(hash, a + (p + hex) + b);
    Utf8AtLeast(hex);
  }

  lemma {:induction false} Utf8AtLeast(s: string)
    ensures |s| <= Utf8Length(s)
  {
    if s != "" {
      Utf8AtLeast(s[1..]);
    }
  }

  predicate IsPrefix(p: string) { p == "" || p == "0x" || p == "0X" }

  ghost predicate Written(input: string, a: string, p: string, hex: string, b: string) {
    AllSpace(a) && IsPrefix(p) && AllSpace(b) && input == a + (p + hex) + b
  }

  /**
   Exactly the inputs that are taken, and what becomes of them: white space, a prefix or none, forty hex digits in one
   of the three casings, white space; the result is the address in small letters.
   */
  lemma AcceptedExactly(hash: Hash, input: string, v: string)
    ensures Validate(hash, input) == Ok(v)
       <==> exists a, p, hex, b :: Written(input, a, p, hex, b) && AcceptedCasing(hash, hex) && v == "0x" + Lower(hex)
  {
    ValidateBody(hash, input);
    if Validate(hash, input) == Ok(v) {
      var a := TrimStartSplits(input);
      var b := TrimEndSplits(TrimStart(input));
      var t, hex := Trim(input), StripEither(Trim(input));
      var p := t[..|t| - |hex|];
      assert t == p + hex;
      assert Written(input, a, p, hex, b);
    }
    if a, p, hex, b :| Written(input, a, p, hex, b) && AcceptedCasing(hash, hex) && v == "0x" + Lower(hex) {
      WrittenIsRead(input, a, p, hex, b);
    }
  }

  lemma WrittenIsRead(input: string, a: string, p: string, hex: string, b: string)
    requires Written(input, a, p, hex, b) && IsHex(hex) && hex != ""
    ensures StripEither(Trim(input)) == hex
  {
    var t := p + hex;
    assert t[0] == (if p == "" then hex[0] else p[0]) && t[|t| - 1] == hex[|hex| - 1];
    TrimPadded(a, t, b);
    if p == "" {
      assert t == hex;
      HexHasNoPrefix(hex);
    } else {
      assert t[..2] == p && t[2..] == hex;
    }
  }

  /** A checksummed address is always taken, however it is padded, and so is the result of a check. */
  lemma ChecksummedIsAccepted(hash: Hash, hex: string)
    requires |hex| == 40 && IsHex(hex)
    ensures Validate(hash, Checksum(hash, hex)) == Ok("0x" + Lower(hex))
    ensures Validate(hash, "0x" + Lower(hex)) == Ok("0x" + Lower(hex))
  {
    HexHasNoPrefix(hex);
    var cased := Cased(hash(Lower(hex)), Lower(hex));
    CasedIsOnlyCase(hash(Lower(hex)), hex);
    assert Lower(Lower(hex)) == Lower(hex);
    Lowered(hash, cased);
    Lowered(hash, Lower(hex));
  }

  lemma Lowered(hash: Hash, hex: string)
    requires AcceptedCasing(hash, hex)
    ensures Validate(hash, "0x" + hex) == Ok("0x" + Lower(hex))
  {
    assert "0x" + hex == "" + ("0x" + hex) + "";
    assert Written("0x" + hex, "", "0x", hex, "");
    AcceptedExactly(hash, "0x" + hex, "0x" + Lower(hex));
  }
}
