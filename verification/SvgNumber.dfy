/** The number lexer of the SVG path parser and the two-decimal number printer of the loader. */
module SvgNumber {
  import opened Wrappers
  import opened Pieces

  // ---------- characters ----------

  predicate IsDigit(c: char) { '0' <= c <= '9' }

  predicate IsAlpha(c: char) { 'a' <= c <= 'z' || 'A' <= c <= 'Z' }

  /** ASCII white space, or the comma SVG allows between numbers. */
  predicate IsSep(c: char) {
    c == ' ' || c == '\t' || c == '\n' || c == '\r' || c == 12 as char || c == ','
  }

  predicate IsSign(c: char) { c == '+' || c == '-' }

  predicate IsExp(c: char) { c == 'e' || c == 'E' }

  // ---------- what the lexer reads ----------

  function SkipSep(s: string, p: nat): (q: nat)
    requires p <= |s|
    ensures p <= q <= |s|
    decreases |s| - p
  {
    if p < |s| && IsSep(s[p]) then SkipSep(s, p + 1) else p
  }

  /** The end of the run of digits that starts at `p`. */
  function DigitsEnd(s: string, p: nat): (q: nat)
    requires p <= |s|
    ensures p <= q <= |s|
    decreases |s| - p
  {
    if p < |s| && IsDigit(s[p]) then DigitsEnd(s, p + 1) else p
  }

  function SignEnd(s: string, p: nat): (q: nat)
    requires p <= |s|
    ensures p <= q <= |s|
  {
    if p < |s| && IsSign(s[p]) then p + 1 else p
  }

  /** The end of a decimal point and the digits after it. */
  function FractionEnd(s: string, p: nat): (q: nat)
    requires p <= |s|
    ensures p <= q <= |s|
  {
    if p < |s| && s[p] == '.' then DigitsEnd(s, p + 1) else p
  }

  /** The end of an exponent: an exponent mark without digits is not part of the number. */
  function ExponentEnd(s: string, p: nat): (q: nat)
    requires p <= |s|
    ensures p <= q <= |s|
  {
    if p < |s| && IsExp(s[p]) then
      var d := SignEnd(s, p + 1);
      var q := DigitsEnd(s, d);
      if q > d then q else p
    else p
  }

  /** A number in the text: sign? digits? ('.' digits*)? exponent?, given by where each part ends. */
  datatype Span = Span(start: nat, sign: nat, whole: nat, frac: nat, end: nat)

  ghost predicate InText(s: string, n: Span) {
    n.start <= n.sign <= n.whole <= n.frac <= n.end <= |s|
  }

  /** At least one digit must come before the exponent. */
  function Scan(s: string, p: nat): (r: Option<Span>)
    requires p <= |s|
    ensures r.Some? ==> InText(s, r.value) && r.value.start == p < r.value.end
  {
    var sign := SignEnd(s, p);
    var whole := DigitsEnd(s, sign);
    var frac := FractionEnd(s, whole);
    if whole == sign && frac <= whole + 1 then None
    else Some(Span(p, sign, whole, frac, ExponentEnd(s, frac)))
  }

  // ---------- the value of a number ----------

  function DigitValue(c: char): (d: nat)
    ensures d < 10
  {
    if IsDigit(c) then (c - '0') as nat else 0
  }

  /** The number a run of digits denotes. */
  function NatOf(t: string): nat {
    if t == "" then 0 else 10 * NatOf(t[..|t| - 1]) + DigitValue(t[|t| - 1])
  }

  /** `v` times ten to the power `exp`. */
  function Scaled(v: real, exp: int): real
    decreases if exp < 0 then -exp else exp
  {
    if exp == 0 then v else if exp > 0 then Scaled(v * 10.0, exp - 1) else Scaled(v / 10.0, exp + 1)
  }

  function ExponentOf(s: string, n: Span): int
    requires InText(s, n)
  {
    if n.end == n.frac then 0 else
    var d := SignEnd(s, n.frac + 1);
    if d > n.end then 0 else
    var e: int := NatOf(s[d..n.end]);
    if d == n.frac + 2 && s[n.frac + 1] == '-' then -e else e
  }

  function FractionDigits(s: string, n: Span): string
    requires InText(s, n)
  {
    if n.frac == n.whole then "" else s[n.whole + 1..n.frac]
  }

  /** The exact value of the number: the decimal the characters spell, times its power of ten. */
  function Value(s: string, n: Span): real
    requires InText(s, n)
  {
    var frac := FractionDigits(s, n);
    var v := Scaled(NatOf(s[n.sign..n.whole] + frac) as real, ExponentOf(s, n) - |frac|);
    if n.sign > n.start && s[n.start] == '-' then -v else v
  }

  /** Skips separators and reads one number: its value and the position after it. */
  function ReadNumber(s: string, p: nat): (r: Option<(real, nat)>)
    requires p <= |s|
    ensures r.Some? ==> p < r.value.1 <= |s|
  {
    match Scan(s, SkipSep(s, p))
    case None => None
    case Some(n) => Some((Value(s, n), n.end))
  }

  // ---------- the lexer of the source: one cursor over the whole text ----------

  method SkipSeparators(s: string, pos: nat) returns (p: nat)
    requires pos <= |s|
    ensures p == SkipSep(s, pos)
  {
    p := pos;
    while p < |s| && IsSep(s[p])
      invariant pos <= p <= |s|
      invariant SkipSep(s, pos) == SkipSep(s, p)
    {
      p := p + 1;
    }
  }

  method SkipDigits(s: string, pos: nat) returns (p: nat)
    requires pos <= |s|
    ensures p == DigitsEnd(s, pos)
  {
    p := pos;
    while p < |s| && IsDigit(s[p])
      invariant pos <= p <= |s|
      invariant DigitsEnd(s, pos) == DigitsEnd(s, p)
    {
      p := p + 1;
    }
  }

  method SkipSign(s: string, pos: nat) returns (p: nat)
    requires pos <= |s|
    ensures p == SignEnd(s, pos)
  {
    p := pos;
    if p < |s| && IsSign(s[p]) {
      p := p + 1;
    }
  }

  method SkipFraction(s: string, pos: nat) returns (p: nat)
    requires pos <= |s|
    ensures p == FractionEnd(s, pos)
  {
    p := pos;
    if p < |s| && s[p] == '.' {
      p := SkipDigits(s, p + 1);
    }
  }

  method SkipExponent(s: string, pos: nat) returns (p: nat)
    requires pos <= |s|
    ensures p == ExponentEnd(s, pos)
  {
    p := pos;
    if p < |s| && IsExp(s[p]) {
      var digits := SkipSign(s, p + 1);
      var q := SkipDigits(s, digits);
      if q > digits {
        p := q;
      }
    }
  }

  /** `next_number`: moves the cursor past one number, or leaves it after the separators. */
  method NextNumber(s: string, pos: nat) returns (p: nat, v: Option<real>)
    requires pos <= |s|
    ensures pos <= p <= |s|
    ensures v.None? ==> ReadNumber(s, pos).None? && p == SkipSep(s, pos)
    ensures v.Some? ==> ReadNumber(s, pos) == Some((v.value, p))
  {
    var start := SkipSeparators(s, pos);
    var sign := SkipSign(s, start);
    var whole := SkipDigits(s, sign);
    var frac := SkipFraction(s, whole);
    if whole == sign && frac <= whole + 1 {
      return start, None;
    }
    p := SkipExponent(s, frac);
    v := Some(Value(s, Span(start, sign, whole, frac, p)));
  }

  // ---------- the printer: a number with two decimals ----------

  /** The nearest whole number of hundredths to a magnitude; halfway between two, the even one. */
  function Hundredths(x: real): (h: nat)
    requires x >= 0.0
    ensures -0.5 <= h as real - 100.0 * x <= 0.5
  {
    var up := (100.0 * x + 0.5).Floor;
    if up as real == 100.0 * x + 0.5 && up % 2 == 1 then up - 1 else up
  }

  function Magnitude(x: real): real {
    if x < 0.0 then -x else x
  }

  function Digit(d: nat): (c: char)
    requires d < 10
    ensures IsDigit(c) && DigitValue(c) == d
  {
    '0' + d as char
  }

  function Decimal(n: nat): (t: string)
    ensures t != ""
  {
    if n < 10 then [Digit(n)] else Decimal(n / 10) + [Digit(n % 10)]
  }

  function TwoDigits(h: nat): string
    requires h < 100
  {
    [Digit(h / 10), Digit(h % 10)]
  }

  function Sign(neg: bool): string { if neg then "-" else "" }

  /** A signed number of hundredths, as text and as a value. */
  function Signed(neg: bool, h: nat): string {
    Sign(neg) + Decimal(h / 100) + "." + TwoDigits(h % 100)
  }

  function SignedValue(neg: bool, h: nat): real {
    if neg then -(h as real / 100.0) else h as real / 100.0
  }

  /** The `{:.2}` format: a sign for negative numbers, the whole part, and two decimals. */
  function Fixed2(x: real): string {
    Signed(x < 0.0, Hundredths(Magnitude(x)))
  }

  /** What a coordinate becomes when it is printed with two decimals. */
  function Rounded(x: real): real {
    SignedValue(x < 0.0, Hundredths(Magnitude(x)))
  }

  // ---------- what a printed number looks like ----------

  lemma {:induction false} NoLeadingZero(n: nat)
    ensures |Decimal(n)| == 1 || Decimal(n)[0] != '0'
  {
    if n >= 10 {
      NoLeadingZero(n / 10);
    }
  }

  /** A sign for negative numbers, a whole part without needless zeros, a point, and two decimals. */
  lemma PrintedLooksLike(x: real, whole: string)
    requires whole == Decimal(Hundredths(Magnitude(x)) / 100)
    ensures var t := Fixed2(x);
            && t == (if x < 0.0 then "-" else "") + whole + "." + t[|t| - 2..]
            && '0' <= t[|t| - 2] <= '9' && '0' <= t[|t| - 1] <= '9'
    ensures AllDigits(whole)
    ensures |whole| == 1 || (|whole| > 1 && whole[0] != '0')
  {
    DecimalDigits(Hundredths(Magnitude(x)) / 100);
    NoLeadingZero(Hundredths(Magnitude(x)) / 100);
  }

  // ---------- printing, then reading ----------

  lemma RoundedIsClose(x: real)
    ensures -0.005 <= Rounded(x) - x <= 0.005
  {}

  /** A whole number of hundredths is printed exactly. */
  lemma RoundedIsExact(x: real, k: int)
    requires 100.0 * x == k as real
    ensures Rounded(x) == x
  {
    var m := Magnitude(x);
    var h := if x < 0.0 then -k else k;
    assert 100.0 * m == h as real;
    assert Hundredths(m) == h;
  }

  /** Halfway between two hundredths the even one is printed. */
  lemma TiesGoToEven(x: real, k: nat)
    requires 100.0 * x == k as real + 0.5
    ensures Hundredths(x) % 2 == 0 && (Hundredths(x) == k || Hundredths(x) == k + 1)
  {
    assert (100.0 * x + 0.5).Floor == k + 1;
  }

  predicate AllDigits(t: string) { forall i :: 0 <= i < |t| ==> IsDigit(t[i]) }

  lemma {:induction false} DigitsEndAt(s: string, p: nat, q: nat)
    requires p <= q <= |s|
    requires forall i :: p <= i < q ==> IsDigit(s[i])
    requires q < |s| ==> !IsDigit(s[q])
    ensures DigitsEnd(s, p) == q
    decreases q - p
  {
    if p < q {
      DigitsEndAt(s, p + 1, q);
    }
  }

  lemma {:induction false} DecimalDigits(n: nat)
    ensures AllDigits(Decimal(n)) && NatOf(Decimal(n)) == n
  {
    if n < 10 {
      assert [Digit(n)][..0] == "";
    } else {
      var d := Decimal(n / 10);
      DecimalDigits(n / 10);
      assert Decimal(n)[..|Decimal(n)| - 1] == d;
    }
  }

  lemma NatOfOneMore(a: string, c: char)
    ensures NatOf(a + [c]) == 10 * NatOf(a) + DigitValue(c)
  {}

  lemma NatOfTwoMore(a: string, b: string)
    requires |b| == 2
    ensures NatOf(a + b) == 100 * NatOf(a) + NatOf(b)
  {
    assert a + b == a + [b[0]] + [b[1]] && b == [] + [b[0]] + [b[1]];
    NatOfOneMore(a, b[0]);
    NatOfOneMore(a + [b[0]], b[1]);
    NatOfOneMore([], b[0]);
    NatOfOneMore([] + [b[0]], b[1]);
  }

  lemma TwoDigitsValue(h: nat)
    requires h < 100
    ensures AllDigits(TwoDigits(h)) && NatOf(TwoDigits(h)) == h
  {
    var t := TwoDigits(h);
    assert t[..1] == [t[0]] && t[..1][..0] == "";
    assert NatOf(t[..1]) == h / 10;
  }

  /** The text at `p` cannot extend a two-decimal number. */
  predicate EndsNumber(s: string, p: nat) {
    p >= |s| || !(IsDigit(s[p]) || IsExp(s[p]))
  }

  /** Where the parts of a printed number end. */
  ghost function PrintedSpan(p: nat, neg: bool, whole: string): Span {
    var sign := p + |Sign(neg)|;
    Span(p, sign, sign + |whole|, sign + |whole| + 3, sign + |whole| + 3)
  }

  /** The four parts of a printed number, each in its place. */
  ghost predicate PartsAt(s: string, n: Span, neg: bool, whole: string, frac: string) {
    && At(s, n.start, Sign(neg))
    && At(s, n.sign, whole)
    && At(s, n.whole, ".")
    && At(s, n.whole + 1, frac)
  }

  lemma PartsOf(s: string, p: nat, neg: bool, whole: string, frac: string)
    requires At(s, p, Sign(neg) + whole + "." + frac)
    ensures PartsAt(s, PrintedSpan(p, neg, whole), neg, whole, frac)
  {
    AtSplit(s, p, Sign(neg) + whole + ".", frac);
    AtSplit(s, p, Sign(neg) + whole, ".");
    AtSplit(s, p, Sign(neg), whole);
  }

  lemma DigitsAt(s: string, p: nat, t: string)
    requires At(s, p, t) && AllDigits(t)
    requires p + |t| < |s| ==> !IsDigit(s[p + |t|])
    ensures DigitsEnd(s, p) == p + |t|
  {
    forall i | p <= i < p + |t|
      ensures IsDigit(s[i])
    {
      ItemAt(s, p, t, i - p);
    }
    DigitsEndAt(s, p, p + |t|);
  }

  lemma ScanOf(s: string, n: Span, neg: bool, whole: string, frac: string)
    requires AllDigits(whole) && AllDigits(frac) && whole != "" && |frac| == 2
    requires n == PrintedSpan(n.start, neg, whole)
    requires PartsAt(s, n, neg, whole, frac)
    requires EndsNumber(s, n.end)
    ensures SkipSep(s, n.start) == n.start
    ensures Scan(s, n.start) == Some(n)
    ensures neg <==> s[n.start] == '-'
  {
    ItemAt(s, n.sign, whole, 0);
    ItemAt(s, n.whole, ".", 0);
    DigitsAt(s, n.sign, whole);
    DigitsAt(s, n.whole + 1, frac);
  }

  lemma ValueOf(s: string, n: Span, neg: bool, h: nat)
    requires InText(s, n) && n.end == n.frac
    requires s[n.sign..n.whole] == Decimal(h / 100) && FractionDigits(s, n) == TwoDigits(h % 100)
    requires neg <==> n.sign > n.start && s[n.start] == '-'
    ensures Value(s, n) == SignedValue(neg, h)
  {
    var whole, frac := Decimal(h / 100), TwoDigits(h % 100);
    DecimalDigits(h / 100);
    TwoDigitsValue(h % 100);
    NatOfTwoMore(whole, frac);
    assert NatOf(whole + frac) == h;
    assert Scaled(h as real, -2) == Scaled(h as real / 10.0, -1) == h as real / 100.0;
  }

  lemma ReadSigned(s: string, p: nat, neg: bool, h: nat)
    requires At(s, p, Signed(neg, h)) && EndsNumber(s, p + |Signed(neg, h)|)
    ensures ReadNumber(s, p) == Some((SignedValue(neg, h), p + |Signed(neg, h)|))
  {
    var whole, frac := Decimal(h / 100), TwoDigits(h % 100);
    var n := PrintedSpan(p, neg, whole);
    DecimalDigits(h / 100);
    TwoDigitsValue(h % 100);
    PartsOf(s, p, neg, whole, frac);
    ScanOf(s, n, neg, whole, frac);
    AtSlice(s, n.sign, whole);
    AtSlice(s, n.whole + 1, frac);
    ValueOf(s, n, neg, h);
  }

  /** The lexer reads back exactly the value that was printed, and stops where the print stopped. */
  lemma ReadPrinted(s: string, p: nat, x: real)
    requires At(s, p, Fixed2(x)) && EndsNumber(s, p + |Fixed2(x)|)
    ensures ReadNumber(s, p) == Some((Rounded(x), p + |Fixed2(x)|))
  {
    ReadSigned(s, p, x < 0.0, Hundredths(Magnitude(x)));
  }
}
