/**
 The identifier pass of the disk redaction: long hexadecimal words are cut down to their first six and last four
 characters.  The regular expression is specified match by match; a rewrite of whole words computes the same.
 */
module HexRedaction {
  import opened Hex
  import opened Pieces

  /** Which characters belong to words; the regular expression's class is larger than ASCII. */
  type WordClass = char -> bool

  const ELLIPSIS: char := '\U{2026}'

  ghost predicate IsWordClass(word: WordClass) {
    (forall c :: IsHexDigit(c) ==> word(c)) && word('x') && !word(ELLIPSIS)
  }

  /** `0x` and forty or more hexadecimal digits, or sixty-four or more digits without it. */
  predicate LongHex(w: string) {
    || (|w| >= 42 && w[0] == '0' && w[1] == 'x' && IsHex(w[2..]))
    || (|w| >= 64 && IsHex(w))
  }

  function Cut(w: string): string
    requires |w| >= 10
  {
    w[..6] + ([ELLIPSIS] + w[|w| - 4..])
  }

  // ---------- the regular expression ----------

  predicate WordBefore(word: WordClass, s: string, i: nat)
    requires i <= |s|
  {
    i > 0 && word(s[i - 1])
  }

  predicate WordAfter(word: WordClass, s: string, i: nat)
    requires i <= |s|
  {
    i < |s| && word(s[i])
  }

  /** `\b`: a word starts or ends here. */
  predicate Boundary(word: WordClass, s: string, i: nat)
    requires i <= |s|
  {
    WordBefore(word, s, i) != WordAfter(word, s, i)
  }

  /** The expression matches the text from `i` to `j`. */
  predicate IsMatch(word: WordClass, s: string, i: nat, j: nat) {
    i <= j <= |s| && Boundary(word, s, i) && Boundary(word, s, j) && LongHex(s[i..j])
  }

  ghost predicate MatchesAt(word: WordClass, s: string, i: nat) {
    exists j: nat :: IsMatch(word, s, i, j)
  }

  ghost function MatchEnd(word: WordClass, s: string, i: nat): (j: nat)
    requires MatchesAt(word, s, i)
    ensures IsMatch(word, s, i, j) && i + 10 <= j
  {
    var j: nat :| IsMatch(word, s, i, j);
    j
  }

  /** `replace_all`, from position `p` on: the leftmost match is replaced, and the search goes on behind it. */
  ghost function ReplaceAll(word: WordClass, s: string, p: nat): string
    requires p <= |s|
    decreases |s| - p
  {
    if p == |s| then ""
    else if MatchesAt(word, s, p) then
      var j := MatchEnd(word, s, p);
      Cut(s[p..j]) + ReplaceAll(word, s, j)
    else [s[p]] + ReplaceAll(word, s, p + 1)
  }

  // ---------- the rewrite of whole words ----------

  /** The length of the word at the start of `t`. */
  function WordLength(word: WordClass, t: string): (n: nat)
    ensures n <= |t|
  {
    if t == "" || !word(t[0]) then 0 else 1 + WordLength(word, t[1..])
  }

  function Shortened(w: string): string {
    if LongHex(w) then Cut(w) else w
  }

  function Rewrite(word: WordClass, t: string): string {
    if t == "" then "" else
    var n := WordLength(word, t);
    if n == 0 then [t[0]] + Rewrite(word, t[1..]) else Shortened(t[..n]) + Rewrite(word, t[n..])
  }

  predicate AllWord(word: WordClass, w: string) { forall i :: 0 <= i < |w| ==> word(w[i]) }

  /** Nothing that would continue a word. */
  predicate NoWordFirst(word: WordClass, t: string) { t == "" || !word(t[0]) }

  lemma {:induction false} WordLengthOf(word: WordClass, w: string, rest: string)
    requires AllWord(word, w) && NoWordFirst(word, rest)
    ensures WordLength(word, w + rest) == |w|
    decreases |w|
  {
    if w == "" {
      assert w + rest == rest;
    } else {
      assert (w + rest)[1..] == w[1..] + rest;
      WordLengthOf(word, w[1..], rest);
    }
  }

  lemma {:induction false} WordCharacter(word: WordClass, t: string, i: nat)
    requires i < WordLength(word, t)
    ensures word(t[i])
    decreases i
  {
    if i > 0 {
      WordCharacter(word, t[1..], i - 1);
    }
  }

  lemma {:induction false} WordStops(word: WordClass, t: string)
    ensures var n := WordLength(word, t); n < |t| ==> !word(t[n])
    decreases |t|
  {
    if WordLength(word, t) > 0 {
      WordStops(word, t[1..]);
    }
  }

  lemma WordLengthMeans(word: WordClass, t: string)
    ensures var n := WordLength(word, t); AllWord(word, t[..n]) && NoWordFirst(word, t[n..])
  {
    var n := WordLength(word, t);
    forall i | 0 <= i < n
      ensures word(t[i])
    {
      WordCharacter(word, t, i);
    }
    WordStops(word, t);
  }

  lemma RewriteWord(word: WordClass, w: string, rest: string)
    requires w != "" && AllWord(word, w) && NoWordFirst(word, rest)
    ensures Rewrite(word, w + rest) == Shortened(w) + Rewrite(word, rest)
  {
    WordLengthOf(word, w, rest);
    assert (w + rest)[..|w|] == w && (w + rest)[|w|..] == rest;
  }

  // ---------- the pass is a fixpoint ----------

  lemma RewriteCut(word: WordClass, w: string, rest: string)
    requires IsWordClass(word) && AllWord(word, w) && LongHex(w) && NoWordFirst(word, rest)
    ensures Rewrite(word, Cut(w) + rest) == Cut(w) + Rewrite(word, rest)
  {
    var a, b := w[..6], w[|w| - 4..];
    RewritePieces(word, a, b, rest);
    forall t: string
      ensures a + ([ELLIPSIS] + b) + t == a + ([ELLIPSIS] + (b + t))
    {
      Regroup(a, [ELLIPSIS] + b, t);
      Regroup([ELLIPSIS], b, t);
    }
  }

  lemma RewritePieces(word: WordClass, a: string, b: string, rest: string)
    requires IsWordClass(word) && AllWord(word, a) && AllWord(word, b) && 0 < |a| < 42 && 0 < |b| < 42
    requires NoWordFirst(word, rest)
    ensures Rewrite(word, a + ([ELLIPSIS] + (b + rest))) == a + ([ELLIPSIS] + (b + Rewrite(word, rest)))
  {
    RewriteWord(word, a, [ELLIPSIS] + (b + rest));
    RewriteWord(word, b, rest);
  }

  /** Redacting redacted text changes nothing. */
  lemma {:induction false} Idempotent(word: WordClass, t: string)
    requires IsWordClass(word)
    ensures Rewrite(word, Rewrite(word, t)) == Rewrite(word, t)
    decreases |t|
  {
    if t != "" {
      var n := WordLength(word, t);
      if n == 0 {
        Idempotent(word, t[1..]);
      } else {
        WordLengthMeans(word, t);
        Idempotent(word, t[n..]);
        if LongHex(t[..n]) {
          RewriteCut(word, t[..n], Rewrite(word, t[n..]));
        } else {
          RewriteWord(word, t[..n], Rewrite(word, t[n..]));
        }
      }
    }
  }

  // ---------- the regular expression and the rewrite agree ----------

  /** The word that starts at `p` ends at `e`. */
  predicate WholeWord(word: WordClass, s: string, p: nat, e: nat) {
    && p < e <= |s|
    && !WordBefore(word, s, p)
    && (forall k :: p <= k < e ==> word(s[k]))
    && !WordAfter(word, s, e)
  }

  lemma LongHexIsWord(word: WordClass, w: string, i: nat)
    requires IsWordClass(word) && LongHex(w) && i < |w|
    ensures word(w[i])
  {
    if i >= 2 && |w| >= 42 && w[0] == '0' && w[1] == 'x' && IsHex(w[2..]) {
      assert w[i] == w[2..][i - 2];
    } else if i == 0 {
      assert IsHexDigit('0');
    }
  }

  /** A match that starts where a word does ends where the word does. */
  lemma MatchIsWord(word: WordClass, s: string, p: nat, e: nat, j: nat)
    requires IsWordClass(word) && WholeWord(word, s, p, e) && IsMatch(word, s, p, j)
    ensures j == e
  {
    if j > e {
      LongHexIsWord(word, s[p..j], e - p);
    }
  }

  lemma MatchAtWord(word: WordClass, s: string, p: nat, e: nat)
    requires IsWordClass(word) && WholeWord(word, s, p, e)
    ensures MatchesAt(word, s, p) <==> LongHex(s[p..e])
    ensures MatchesAt(word, s, p) ==> MatchEnd(word, s, p) == e
  {
    if LongHex(s[p..e]) {
      assert IsMatch(word, s, p, e);
    }
    if MatchesAt(word, s, p) {
      MatchIsWord(word, s, p, e, MatchEnd(word, s, p));
    }
  }

  lemma {:induction false} InsideWord(word: WordClass, s: string, p: nat, e: nat)
    requires p <= e <= |s| && WordBefore(word, s, p) && forall k :: p <= k < e ==> word(s[k])
    ensures ReplaceAll(word, s, p) == s[p..e] + ReplaceAll(word, s, e)
    decreases e - p
  {
    if p < e {
      InsideWord(word, s, p + 1, e);
      Regroup([s[p]], s[p + 1..e], ReplaceAll(word, s, e));
      assert s[p..e] == [s[p]] + s[p + 1..e];
    }
  }

  lemma KeepWord(word: WordClass, s: string, p: nat, e: nat)
    requires WholeWord(word, s, p, e) && !MatchesAt(word, s, p)
    ensures ReplaceAll(word, s, p) == s[p..e] + ReplaceAll(word, s, e)
  {
    InsideWord(word, s, p + 1, e);
    Regroup([s[p]], s[p + 1..e], ReplaceAll(word, s, e));
    assert s[p..e] == [s[p]] + s[p + 1..e];
  }

  lemma ReplaceWord(word: WordClass, s: string, p: nat, e: nat)
    requires IsWordClass(word) && WholeWord(word, s, p, e)
    ensures ReplaceAll(word, s, p) == Shortened(s[p..e]) + ReplaceAll(word, s, e)
  {
    MatchAtWord(word, s, p, e);
    if !LongHex(s[p..e]) {
      KeepWord(word, s, p, e);
    }
  }

  lemma NextWord(word: WordClass, s: string, p: nat) returns (e: nat)
    requires p < |s| && !WordBefore(word, s, p) && word(s[p])
    ensures WholeWord(word, s, p, e) && e == p + WordLength(word, s[p..])
  {
    var n := WordLength(word, s[p..]);
    e := p + n;
    WordLengthMeans(word, s[p..]);
    forall k | p <= k < p + n
      ensures word(s[k])
    {
      assert s[p..][..n][k - p] == s[k];
    }
    assert p + n < |s| ==> s[p..][n..][0] == s[p + n];
  }

  /** From `p` on, replacing matches is rewriting words. */
  ghost predicate Agrees(word: WordClass, s: string, p: nat) {
    p <= |s| && ReplaceAll(word, s, p) == Rewrite(word, s[p..])
  }

  lemma SplitAt(s: string, p: nat, e: nat)
    requires p <= e <= |s|
    ensures s[p..] == s[p..e] + s[e..]
  {}

  lemma WholeWordStep(word: WordClass, s: string, p: nat, e: nat)
    requires IsWordClass(word) && WholeWord(word, s, p, e) && e == p + WordLength(word, s[p..])
    requires Agrees(word, s, e)
    ensures Agrees(word, s, p)
  {
    ReplaceWord(word, s, p, e);
    SplitAt(s, p, e);
  }

  lemma AgreeAtEnd(word: WordClass, s: string)
    ensures Agrees(word, s, |s|)
  {
    assert s[|s|..] == "";
  }

  /** Everywhere but inside a word, the expression's replacements are the rewrite of whole words. */
  lemma {:induction false} Agree(word: WordClass, s: string, p: nat)
    requires IsWordClass(word) && p <= |s| && !(WordBefore(word, s, p) && WordAfter(word, s, p))
    ensures Agrees(word, s, p)
    decreases |s| - p
  {
    if p < |s| {
      if !word(s[p]) {
        Agree(word, s, p + 1);
      } else {
        var e := NextWord(word, s, p);
        Agree(word, s, e);
        WholeWordStep(word, s, p, e);
      }
    } else {
      AgreeAtEnd(word, s);
    }
  }

  /** On every text, replacing all matches of the expression is rewriting its words. */
  lemma ExpressionIsRewrite(word: WordClass, s: string)
    requires IsWordClass(word)
    ensures ReplaceAll(word, s, 0) == Rewrite(word, s)
  {
    Agree(word, s, 0);
    assert s[0..] == s;
  }

  // ---------- nothing long is left ----------

  lemma MatchIsLong(word: WordClass, s: string, p: nat)
    requires MatchesAt(word, s, p)
    ensures MatchEnd(word, s, p) >= p + 42
  {}

  lemma {:induction false} Shrinks(word: WordClass, s: string, p: nat, i: nat)
    requires p <= |s|
    ensures |ReplaceAll(word, s, p)| <= |s| - p
    ensures p <= i && MatchesAt(word, s, i) ==> |ReplaceAll(word, s, p)| < |s| - p
    decreases |s| - p
  {
    if p < |s| {
      if MatchesAt(word, s, p) {
        var j := MatchEnd(word, s, p);
        MatchIsLong(word, s, p);
        Shrinks(word, s, j, j);
      } else {
        Shrinks(word, s, p + 1, i);
      }
    } else if p <= i && MatchesAt(word, s, i) {
      MatchIsLong(word, s, i);
    }
  }

  /** A text is left as it is if and only if it holds no long identifier. */
  lemma UnchangedIffClean(word: WordClass, s: string)
    requires IsWordClass(word)
    ensures Rewrite(word, s) == s <==> forall i: nat :: !MatchesAt(word, s, i)
  {
    ExpressionIsRewrite(word, s);
    if i: nat :| MatchesAt(word, s, i) {
      Shrinks(word, s, 0, i);
    } else {
      CleanIsCopied(word, s, 0);
      assert s[0..] == s;
    }
  }

  lemma {:induction false} CleanIsCopied(word: WordClass, s: string, p: nat)
    requires p <= |s| && forall i: nat :: !MatchesAt(word, s, i)
    ensures ReplaceAll(word, s, p) == s[p..]
    decreases |s| - p
  {
    if p < |s| {
      CleanIsCopied(word, s, p + 1);
      assert s[p..] == [s[p]] + s[p + 1..];
    }
  }

  /** What reaches the disk holds no long identifier, and redacting it again changes nothing. */
  lemma RedactedIsClean(word: WordClass, s: string)
    requires IsWordClass(word)
    ensures var out := ReplaceAll(word, s, 0);
            (forall i: nat :: !MatchesAt(word, out, i)) && ReplaceAll(word, out, 0) == out
  {
    var out := ReplaceAll(word, s, 0);
    ExpressionIsRewrite(word, s);
    Idempotent(word, s);
    ExpressionIsRewrite(word, out);
    UnchangedIffClean(word, out);
  }

  // ---------- one word of a text ----------

  lemma {:induction false} RewriteConcat(word: WordClass, a: string, b: string)
    requires NoWordFirst(word, b)
    ensures Rewrite(word, a + b) == Rewrite(word, a) + Rewrite(word, b)
    decreases |a|
  {
    if a == "" {
      assert a + b == b;
    } else {
      var n := WordLength(word, a);
      if n == 0 {
        RewriteConcat(word, a[1..], b);
        AfterOne(word, [a[0]], a[1..], b);
        assert a == [a[0]] + a[1..];
      } else {
        WordLengthMeans(word, a);
        RewriteConcat(word, a[n..], b);
        AfterWord(word, a[..n], a[n..], b);
        assert a == a[..n] + a[n..];
      }
    }
  }

  lemma AfterOne(word: WordClass, c: string, tail: string, b: string)
    requires |c| == 1 && !word(c[0]) && Rewrite(word, tail + b) == Rewrite(word, tail) + Rewrite(word, b)
    ensures Rewrite(word, c + tail + b) == Rewrite(word, c + tail) + Rewrite(word, b)
  {
    RewriteOne(word, c, tail);
    RewriteOne(word, c, tail + b);
    Regroup(c, tail, b);
    Regroup(c, Rewrite(word, tail), Rewrite(word, b));
  }

  lemma AfterWord(word: WordClass, w: string, tail: string, b: string)
    requires w != "" && AllWord(word, w) && NoWordFirst(word, tail) && NoWordFirst(word, b)
    requires Rewrite(word, tail + b) == Rewrite(word, tail) + Rewrite(word, b)
    ensures Rewrite(word, w + tail + b) == Rewrite(word, w + tail) + Rewrite(word, b)
  {
    WordInFront(word, w, tail, b);
    RewriteWord(word, w, tail);
    Regroup(Shortened(w), Rewrite(word, tail), Rewrite(word, b));
  }

  lemma WordInFront(word: WordClass, w: string, tail: string, b: string)
    requires w != "" && AllWord(word, w) && NoWordFirst(word, tail) && NoWordFirst(word, b)
    ensures Rewrite(word, w + tail + b) == Shortened(w) + Rewrite(word, tail + b)
  {
    FirstOfBoth(word, tail, b);
    RewriteWord(word, w, tail + b);
    Regroup(w, tail, b);
  }

  lemma FirstOfBoth(word: WordClass, tail: string, b: string)
    requires NoWordFirst(word, tail) && NoWordFirst(word, b)
    ensures NoWordFirst(word, tail + b)
  {
    if tail == "" {
      assert tail + b == b;
    }
  }

  /** No word runs on past the end of the text. */
  predicate NoWordLast(word: WordClass, t: string) { t == "" || !word(t[|t| - 1]) }

  lemma RewriteBehind(word: WordClass, a: string, b: string)
    requires NoWordLast(word, a)
    ensures Rewrite(word, a + b) == Rewrite(word, a) + Rewrite(word, b)
  {
    if a == "" {
      assert a + b == b;
    } else {
      assert a == a[..|a| - 1] + [a[|a| - 1]];
      RewriteBehindOne(word, a[..|a| - 1], [a[|a| - 1]], b);
    }
  }

  lemma RewriteBehindOne(word: WordClass, front: string, c: string, b: string)
    requires |c| == 1 && !word(c[0])
    ensures Rewrite(word, front + c + b) == Rewrite(word, front + c) + Rewrite(word, b)
  {
    RewriteConcat(word, front, c);
    RewriteConcat(word, front, c + b);
    RewriteOne(word, c, "");
    RewriteOne(word, c, b);
    assert c + "" == c;
    Regroup(front, c, b);
    Regroup(Rewrite(word, front), c, Rewrite(word, b));
  }

  lemma RewriteOne(word: WordClass, c: string, b: string)
    requires |c| == 1 && !word(c[0])
    ensures Rewrite(word, c + b) == c + Rewrite(word, b)
  {
    assert (c + b)[1..] == b;
  }

  lemma RewriteAround(word: WordClass, a: string, w: string, b: string)
    requires w != "" && AllWord(word, w) && NoWordLast(word, a) && NoWordFirst(word, b)
    ensures Rewrite(word, a + (w + b)) == Rewrite(word, a) + (Shortened(w) + Rewrite(word, b))
  {
    RewriteBehind(word, a, w + b);
    RewriteWord(word, w, b);
  }

  /**
   What becomes of any word of a text, whatever stands around it: one of `0x` and forty or more hexadecimal digits, or
   of sixty-four or more such digits, is cut down to its first six and last four characters; any other is kept.
   */
  lemma WordsAreCut(word: WordClass, a: string, w: string, b: string)
    requires IsWordClass(word) && w != "" && (forall i :: 0 <= i < |w| ==> word(w[i]))
    requires (a == "" || !word(a[|a| - 1])) && (b == "" || !word(b[0]))
    ensures var long := || (|w| >= 42 && w[0] == '0' && w[1] == 'x' && forall i :: 2 <= i < |w| ==> IsHexDigit(w[i]))
                        || (|w| >= 64 && forall i :: 0 <= i < |w| ==> IsHexDigit(w[i]));
            ReplaceAll(word, a + (w + b), 0)
              == ReplaceAll(word, a, 0)
                 + ((if long then w[..6] + (['\U{2026}'] + w[|w| - 4..]) else w) + ReplaceAll(word, b, 0))
  {
    RewriteAround(word, a, w, b);
    ExpressionIsRewrite(word, a + (w + b));
    ExpressionIsRewrite(word, a);
    ExpressionIsRewrite(word, b);
    LongHexMeans(w);
  }

  lemma LongHexMeans(w: string)
    ensures LongHex(w) <==>
              || (|w| >= 42 && w[0] == '0' && w[1] == 'x' && forall i :: 2 <= i < |w| ==> IsHexDigit(w[i]))
              || (|w| >= 64 && forall i :: 0 <= i < |w| ==> IsHexDigit(w[i]))
  {
    if |w| >= 2 && IsHex(w[2..]) {
      forall i | 2 <= i < |w|
        ensures IsHexDigit(w[i])
      {
        assert w[i] == w[2..][i - 2];
      }
    }
  }

  /** In the forms addresses and hashes have. */
  lemma IdentifiersAreCut(word: WordClass, a: string, h: string, b: string, w: string)
    requires IsWordClass(word) && IsHex(h) && (a == "" || !word(a[|a| - 1])) && (b == "" || !word(b[0]))
    requires (|h| >= 40 && w == "0x" + h) || (|h| >= 64 && w == h)
    ensures ReplaceAll(word, a + (w + b), 0)
         == ReplaceAll(word, a, 0) + (w[..6] + (['\U{2026}'] + w[|w| - 4..]) + ReplaceAll(word, b, 0))
  {
    forall i | 0 <= i < |w|
      ensures word(w[i])
      ensures w == h || i >= 2 ==> IsHexDigit(w[i])
    {
      assert i >= 2 && w != h ==> w[i] == h[i - 2];
    }
    WordsAreCut(word, a, w, b);
  }
}
