/** Numbers as a path may spell them: after separators, with a sign or none, a fraction or none, an exponent or none. */
module SvgSpelling {
  import opened Wrappers
  import opened Pieces
  import opened SvgNumber

  /** `frac` are the digits after the point, if there is one; `exp` the sign and the digits after the mark e or E. */
  datatype Spelling = Spelling(
    sep: string, sign: string, whole: string, frac: Option<string>, mark: char, exp: Option<(string, string)>)

  predicate IsSignText(t: string) { t == "" || t == "+" || t == "-" }

  predicate IsSeparatorText(t: string) {
    forall i :: 0 <= i < |t| ==> t[i] in [' ', ',', '\t', '\n', '\r', 12 as char]
  }

  predicate Correct(n: Spelling) {
    && IsSeparatorText(n.sep) && IsSignText(n.sign) && AllDigits(n.whole)
    && (n.frac.Some? ==> AllDigits(n.frac.value))
    && |n.whole| + |FractionOf(n)| > 0
    && (n.mark == 'e' || n.mark == 'E')
    && (n.exp.Some? ==> IsSignText(n.exp.value.0) && AllDigits(n.exp.value.1) && n.exp.value.1 != "")
  }

  function FractionOf(n: Spelling): string { if n.frac.Some? then n.frac.value else "" }

  function PointText(n: Spelling): string { if n.frac.Some? then "." + n.frac.value else "" }

  function ExponentText(n: Spelling): string {
    if n.exp.Some? then [n.mark] + n.exp.value.0 + n.exp.value.1 else ""
  }

  function TextOf(n: Spelling): string { n.sep + n.sign + n.whole + PointText(n) + ExponentText(n) }

  // ---------- what it means ----------

  /** Ten to the power `e`. */
  function Ten(e: int): real
    decreases if e < 0 then -e else e
  {
    if e == 0 then 1.0 else if e > 0 then 10.0 * Ten(e - 1) else Ten(e + 1) / 10.0
  }

  function ExponentNumber(n: Spelling): int {
    match n.exp
    case None => 0
    case Some((sign, digits)) => var e: int := NatOf(digits); if sign == "-" then -e else e
  }

  /** The digits as one whole number, times ten to the exponent less the number of digits after the point. */
  function Unsigned(n: Spelling): real {
    Scaled(NatOf(n.whole + FractionOf(n)) as real, ExponentNumber(n) - |FractionOf(n)|)
  }

  function Meaning(n: Spelling): real { if n.sign == "-" then -Unsigned(n) else Unsigned(n) }

  /** What the lexer scales by is a power of ten. */
  lemma {:induction false} ScaledIsTimes(v: real, e: int)
    ensures Scaled(v, e) == v * Ten(e)
    decreases if e < 0 then -e else e
  {
    if e > 0 {
      ScaledIsTimes(v * 10.0, e - 1);
    } else if e < 0 {
      ScaledIsTimes(v / 10.0, e + 1);
    }
  }

  // ---------- reading ----------

  /** Where each part stands. */
  ghost predicate Stands(s: string, n: Spelling, m: Span) {
    && At(s, m.start, n.sign) && m.sign == m.start + |n.sign|
    && At(s, m.sign, n.whole) && m.whole == m.sign + |n.whole|
    && At(s, m.whole, PointText(n)) && m.frac == m.whole + |PointText(n)|
    && At(s, m.frac, ExponentText(n)) && m.end == m.frac + |ExponentText(n)|
  }

  function SpanOf(p: nat, n: Spelling): Span {
    var start := p + |n.sep|;
    var sign := start + |n.sign|;
    var whole := sign + |n.whole|;
    var frac := whole + |PointText(n)|;
    Span(start, sign, whole, frac, frac + |ExponentText(n)|)
  }

  lemma PartsStand(s: string, p: nat, n: Spelling)
    requires At(s, p, TextOf(n))
    ensures At(s, p, n.sep) && Stands(s, n, SpanOf(p, n))
  {
    AtSplit(s, p, n.sep + n.sign + n.whole + PointText(n), ExponentText(n));
    AtSplit(s, p, n.sep + n.sign + n.whole, PointText(n));
    AtSplit(s, p, n.sep + n.sign, n.whole);
    AtSplit(s, p, n.sep, n.sign);
  }

  lemma {:induction false} SeparatorsEnd(s: string, p: nat, q: nat)
    requires p <= q <= |s| && (forall i :: p <= i < q ==> IsSep(s[i])) && (q < |s| ==> !IsSep(s[q]))
    ensures SkipSep(s, p) == q
    decreases q - p
  {
    if p < q {
      SeparatorsEnd(s, p + 1, q);
    }
  }

  /** The text goes on with nothing that the number could go on with. */
  predicate Ends(s: string, q: nat, n: Spelling) {
    q >= |s| || (!IsDigit(s[q]) && (n.exp.None? ==> !IsExp(s[q]) && (n.frac.None? ==> s[q] != '.')))
  }

  lemma FirstCharacter(s: string, n: Spelling, m: Span)
    requires Correct(n) && Stands(s, n, m)
    ensures m.start < |s| && !IsSep(s[m.start])
    ensures n.sign == "" ==> !IsSign(s[m.start])
    ensures n.sign != "" ==> s[m.start] == n.sign[0] && IsSign(s[m.start])
    ensures m.sign < |s| && (IsDigit(s[m.sign]) || s[m.sign] == '.')
  {
    if n.whole != "" {
      ItemAt(s, m.sign, n.whole, 0);
    } else {
      ItemAt(s, m.whole, PointText(n), 0);
    }
    if n.sign != "" {
      ItemAt(s, m.start, n.sign, 0);
    }
  }

  /** What comes after the digits: a point, a mark, or the end. */
  lemma AfterWhole(s: string, n: Spelling, m: Span)
    requires Correct(n) && Stands(s, n, m) && Ends(s, m.end, n)
    ensures m.whole < |s| ==> !IsDigit(s[m.whole]) && (s[m.whole] == '.' <==> n.frac.Some?)
    ensures m.frac < |s| ==> !IsDigit(s[m.frac]) && (n.exp.None? ==> !IsExp(s[m.frac]))
  {
    if n.exp.Some? {
      ItemAt(s, m.frac, ExponentText(n), 0);
    }
    if n.frac.Some? {
      ItemAt(s, m.whole, PointText(n), 0);
    }
  }

  lemma FractionStands(s: string, n: Spelling, m: Span)
    requires Correct(n) && Stands(s, n, m) && Ends(s, m.end, n)
    ensures FractionEnd(s, m.whole) == m.frac
    ensures m.frac == m.whole <==> n.frac.None?
    ensures n.frac.Some? ==> s[m.whole + 1..m.frac] == n.frac.value
  {
    AfterWhole(s, n, m);
    if n.frac.Some? {
      AtSplit(s, m.whole, ".", n.frac.value);
      DigitsAt(s, m.whole + 1, n.frac.value);
      AtSlice(s, m.whole + 1, n.frac.value);
    }
  }

  /** The mark, the sign and the digits of an exponent, each in its place. */
  lemma ExponentParts(s: string, q: nat, mark: char, sign: string, digits: string)
    requires At(s, q, [mark] + sign + digits) && IsSignText(sign) && AllDigits(digits) && digits != ""
    requires q + 1 + |sign| + |digits| < |s| ==> !IsDigit(s[q + 1 + |sign| + |digits|])
    ensures q + 1 + |sign| + |digits| <= |s| && s[q] == mark
    ensures SignEnd(s, q + 1) == q + 1 + |sign|
    ensures DigitsEnd(s, q + 1 + |sign|) == q + 1 + |sign| + |digits|
    ensures s[q + 1 + |sign|..q + 1 + |sign| + |digits|] == digits
    ensures sign != "" ==> s[q + 1] == sign[0]
  {
    AtSplit(s, q, [mark] + sign, digits);
    AtSplit(s, q, [mark], sign);
    ItemAt(s, q, [mark], 0);
    ItemAt(s, q + 1 + |sign|, digits, 0);
    if sign != "" {
      ItemAt(s, q + 1, sign, 0);
    }
    DigitsAt(s, q + 1 + |sign|, digits);
    AtSlice(s, q + 1 + |sign|, digits);
  }

  lemma ExponentStands(s: string, n: Spelling, m: Span)
    requires Correct(n) && Stands(s, n, m) && Ends(s, m.end, n) && InText(s, m)
    ensures ExponentEnd(s, m.frac) == m.end && ExponentOf(s, m) == ExponentNumber(n)
  {
    if n.exp.Some? {
      ExponentParts(s, m.frac, n.mark, n.exp.value.0, n.exp.value.1);
    } else {
      AfterWhole(s, n, m);
    }
  }

  lemma SignStands(s: string, n: Spelling, m: Span)
    requires Correct(n) && Stands(s, n, m)
    ensures SignEnd(s, m.start) == m.sign && DigitsEnd(s, m.sign) >= m.sign
    ensures m.start < |s| && !IsSep(s[m.start]) && (n.sign == "-" <==> m.sign > m.start && s[m.start] == '-')
  {
    FirstCharacter(s, n, m);
  }

  lemma WholeStands(s: string, n: Spelling, m: Span)
    requires Correct(n) && Stands(s, n, m) && Ends(s, m.end, n)
    ensures DigitsEnd(s, m.sign) == m.whole && s[m.sign..m.whole] == n.whole
  {
    AfterWhole(s, n, m);
    DigitsAt(s, m.sign, n.whole);
    AtSlice(s, m.sign, n.whole);
  }

  lemma SeparatorsStand(s: string, p: nat, sep: string)
    requires At(s, p, sep) && IsSeparatorText(sep) && p + |sep| < |s| && !IsSep(s[p + |sep|])
    ensures SkipSep(s, p) == p + |sep|
  {
    forall i | p <= i < p + |sep|
      ensures IsSep(s[i])
    {
      ItemAt(s, p, sep, i - p);
    }
    SeparatorsEnd(s, p, p + |sep|);
  }

  lemma SpanIsScanned(s: string, n: Spelling, m: Span)
    requires Correct(n) && Stands(s, n, m) && Ends(s, m.end, n) && InText(s, m)
    ensures Scan(s, m.start) == Some(m)
  {
    SignStands(s, n, m);
    WholeStands(s, n, m);
    FractionStands(s, n, m);
    ExponentStands(s, n, m);
  }

  lemma SpanIsValued(s: string, n: Spelling, m: Span)
    requires Correct(n) && Stands(s, n, m) && Ends(s, m.end, n) && InText(s, m)
    ensures Value(s, m) == Meaning(n)
  {
    SignStands(s, n, m);
    WholeStands(s, n, m);
    FractionStands(s, n, m);
    ExponentStands(s, n, m);
    ValueFrom(s, m, n.whole, FractionOf(n), ExponentNumber(n), n.sign == "-");
  }

  lemma ValueFrom(s: string, m: Span, whole: string, frac: string, e: int, neg: bool)
    requires InText(s, m) && s[m.sign..m.whole] == whole && FractionDigits(s, m) == frac && ExponentOf(s, m) == e
    requires neg <==> m.sign > m.start && s[m.start] == '-'
    ensures var v := Scaled(NatOf(whole + frac) as real, e - |frac|); Value(s, m) == if neg then -v else v
  {}

  /**
   Wherever a number stands in a text, however it is spelled, the lexer passes the separators before it, reads its exact
   value and stops where it ends.
   */
  lemma SpellingIsRead(s: string, p: nat, n: Spelling)
    requires Correct(n) && At(s, p, TextOf(n)) && Ends(s, p + |TextOf(n)|, n)
    ensures p <= |s| && ReadNumber(s, p) == Some((Meaning(n), p + |TextOf(n)|))
  {
    var m := SpanOf(p, n);
    PartsStand(s, p, n);
    SignStands(s, n, m);
    SeparatorsStand(s, p, n.sep);
    SpanIsScanned(s, n, m);
    SpanIsValued(s, n, m);
  }
}
