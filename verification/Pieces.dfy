/** Pieces of a sequence: what stands where in a text or a byte string. */
module Pieces {
  /** From its `i`-th element on, `t` is what `s` has at `p`. */
  ghost predicate Matches<T>(s: seq<T>, p: nat, t: seq<T>, i: nat)
    requires p + |t| <= |s|
    decreases |t| - i
  {
    i >= |t| || (s[p + i] == t[i] && Matches(s, p, t, i + 1))
  }

  /** The sequence has `t` at position `p`. */
  ghost predicate At<T>(s: seq<T>, p: nat, t: seq<T>) {
    p + |t| <= |s| && Matches(s, p, t, 0)
  }

  lemma {:induction false} MatchesElim<T>(s: seq<T>, p: nat, t: seq<T>, i: nat, k: nat)
    requires p + |t| <= |s| && i <= k < |t| && Matches(s, p, t, i)
    ensures s[p + k] == t[k]
    decreases k - i
  {
    if i < k {
      MatchesElim(s, p, t, i + 1, k);
    }
  }

  lemma {:induction false} MatchesIntro<T>(s: seq<T>, p: nat, t: seq<T>, i: nat)
    requires p + |t| <= |s| && forall k :: i <= k < |t| ==> s[p + k] == t[k]
    ensures Matches(s, p, t, i)
    decreases |t| - i
  {
    if i < |t| {
      MatchesIntro(s, p, t, i + 1);
    }
  }

  lemma ItemAt<T>(s: seq<T>, p: nat, t: seq<T>, i: nat)
    requires At(s, p, t) && i < |t|
    ensures s[p + i] == t[i]
  {
    MatchesElim(s, p, t, 0, i);
  }

  lemma AtSplit<T>(s: seq<T>, p: nat, a: seq<T>, b: seq<T>)
    requires At(s, p, a + b)
    ensures At(s, p, a) && At(s, p + |a|, b)
  {
    forall i | 0 <= i < |a|
      ensures s[p + i] == a[i]
    {
      ItemAt(s, p, a + b, i);
    }
    MatchesIntro(s, p, a, 0);
    forall i | 0 <= i < |b|
      ensures s[p + |a| + i] == b[i]
    {
      ItemAt(s, p, a + b, |a| + i);
    }
    MatchesIntro(s, p + |a|, b, 0);
  }

  lemma AtWhole<T>(t: seq<T>)
    ensures At(t, 0, t)
  {
    MatchesIntro(t, 0, t, 0);
  }

  lemma AtSlice<T>(s: seq<T>, p: nat, t: seq<T>)
    requires At(s, p, t)
    ensures s[p..p + |t|] == t
  {
    forall i | 0 <= i < |t|
      ensures s[p + i] == t[i]
    {
      ItemAt(s, p, t, i);
    }
  }

  lemma Regroup<T>(a: seq<T>, b: seq<T>, c: seq<T>)
    ensures a + (b + c) == a + b + c
  {}
}
