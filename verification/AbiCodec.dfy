/**
 The head/tail layout of the Solidity Contract ABI Specification ("Formal Specification of the Encoding", "Use of
 Dynamic Types"), as a generic encoder and a generic decoder for the parameter types the source uses.
 */
module AbiCodec {
  import opened Wrappers
  import opened Pieces
  import opened Hex
  import opened AbiWord

  /** The bytes of a string or of a bytes32 word. */
  type Bytes = seq<Byte>

  datatype Value = Uint(n: nat) | Fixed(word: Bytes) | Str(text: Bytes) | Words(items: seq<Bytes>)

  datatype Type = TUint | TFixed | TStr | TWords

  function TypeOf(v: Value): Type {
    match v
    case Uint(_) => TUint
    case Fixed(_) => TFixed
    case Str(_) => TStr
    case Words(_) => TWords
  }

  function Types(vs: seq<Value>): seq<Type> {
    seq(|vs|, i requires 0 <= i < |vs| => TypeOf(vs[i]))
  }

  /** Numbers and lengths fit a 32-byte word, and bytes32 values have 32 bytes. */
  predicate Valid(v: Value) {
    match v
    case Uint(n) => Fits(n, 32)
    case Fixed(word) => |word| == 32
    case Str(text) => Fits(|text|, 32)
    case Words(items) => Fits(|items|, 32) && forall i :: 0 <= i < |items| ==> |items[i]| == 32
  }

  predicate AllValid(vs: seq<Value>) { forall i :: 0 <= i < |vs| ==> Valid(vs[i]) }

  // ---------- encoding ----------

  function Padding(n: nat): (k: nat)
    ensures k < 32 && (n + k) % 32 == 0
  {
    (32 - n % 32) % 32
  }

  function Padded(b: Bytes): (r: Bytes)
    ensures |r| == |b| + Padding(|b|)
  {
    b + Zeros(Padding(|b|))
  }

  function Flat(items: seq<Bytes>): Bytes {
    if items == [] then [] else Flat(items[..|items| - 1]) + items[|items| - 1]
  }

  predicate IsDynamic(v: Value) { v.Str? || v.Words? }

  /** The tail of a dynamic value: its length, then its contents. */
  function Body(v: Value): Bytes {
    match v
    case Str(text) => BigEndian(|text|, 32) + Padded(text)
    case Words(items) => BigEndian(|items|, 32) + Flat(items)
    case _ => []
  }

  /** The head of a value: itself when static, the offset of its tail when dynamic. */
  function Head(v: Value, offset: nat): (h: Bytes)
    ensures Valid(v) ==> |h| == 32
  {
    match v
    case Uint(n) => BigEndian(n, 32)
    case Fixed(word) => word
    case _ => BigEndian(offset, 32)
  }

  /** The tails of the first `i` values. */
  function Tails(vs: seq<Value>, i: nat): Bytes
    requires i <= |vs|
  {
    if i == 0 then [] else Tails(vs, i - 1) + Body(vs[i - 1])
  }

  /** Where the tail of the `i`-th value starts, counted from the first head. */
  function Offset(vs: seq<Value>, i: nat): nat
    requires i <= |vs|
  {
    32 * |vs| + |Tails(vs, i)|
  }

  /** The heads of the first `i` values. */
  function Heads(vs: seq<Value>, i: nat): Bytes
    requires i <= |vs|
  {
    if i == 0 then [] else Heads(vs, i - 1) + Head(vs[i - 1], Offset(vs, i - 1))
  }

  function Encode(vs: seq<Value>): Bytes { Heads(vs, |vs|) + Tails(vs, |vs|) }

  // ---------- decoding ----------

  /** The 32-byte word at `p`. */
  function WordAt(data: Bytes, p: nat): (r: Option<Bytes>)
    ensures r.Some? ==> |r.value| == 32
  {
    if p + 32 <= |data| then Some(data[p..p + 32]) else None
  }

  function NumberAt(data: Bytes, p: nat): Option<nat> {
    match WordAt(data, p)
    case None => None
    case Some(w) => Some(Number(w))
  }

  function StrAt(data: Bytes, p: nat): Option<Value> {
    match NumberAt(data, p)
    case None => None
    case Some(len) => if p + 32 + len <= |data| then Some(Str(data[p + 32..p + 32 + len])) else None
  }

  function WordsAt(data: Bytes, p: nat): Option<Value> {
    match NumberAt(data, p)
    case None => None
    case Some(len) =>
      if p + 32 + 32 * len <= |data| then Some(Words(SplitWords(data, p + 32, len))) else None
  }

  function SplitWords(data: Bytes, p: nat, n: nat): (r: seq<Bytes>)
    requires p + 32 * n <= |data|
    ensures |r| == n
  {
    if n == 0 then [] else SplitWords(data, p, n - 1) + [data[p + 32 * (n - 1)..p + 32 * n]]
  }

  /** The `i`-th parameter of the tuple at `base`. */
  function Param(data: Bytes, base: nat, i: nat, t: Type): Option<Value> {
    var p := base + 32 * i;
    match t
    case TUint => (match NumberAt(data, p) case None => None case Some(n) => Some(Uint(n)))
    case TFixed => (match WordAt(data, p) case None => None case Some(w) => Some(Fixed(w)))
    case TStr => (match NumberAt(data, p) case None => None case Some(off) => StrAt(data, base + off))
    case TWords => (match NumberAt(data, p) case None => None case Some(off) => WordsAt(data, base + off))
  }

  /** The first `k` parameters of the tuple at `base`. */
  function Params(data: Bytes, base: nat, ts: seq<Type>, k: nat): Option<seq<Value>>
    requires k <= |ts|
  {
    if k == 0 then Some([]) else
    match (Params(data, base, ts, k - 1), Param(data, base, k - 1, ts[k - 1]))
    case (Some(vs), Some(v)) => Some(vs + [v])
    case _ => None
  }

  function Decode(data: Bytes, ts: seq<Type>): Option<seq<Value>> { Params(data, 0, ts, |ts|) }

  // ---------- layouts ----------

  /**
   The tuple at `base` holds `v` as its `i`-th parameter, with the tail of a dynamic value `offset` bytes after
   `base`.  Nothing is said about the order of tails, gaps between them, or padding.
   */
  ghost predicate LaidOut(data: Bytes, base: nat, i: nat, v: Value, offset: nat) {
    && Valid(v)
    && At(data, base + 32 * i, Head(v, offset))
    && (IsDynamic(v) ==> Fits(offset, 32) && TailAt(data, base + offset, v))
  }

  ghost predicate TailAt(data: Bytes, p: nat, v: Value) {
    match v
    case Str(text) => At(data, p, BigEndian(|text|, 32)) && At(data, p + 32, text)
    case Words(items) => At(data, p, BigEndian(|items|, 32)) && At(data, p + 32, Flat(items))
    case _ => true
  }

  ghost predicate AllLaidOut(data: Bytes, base: nat, vs: seq<Value>, offsets: seq<nat>) {
    |offsets| == |vs| && forall i :: 0 <= i < |vs| ==> LaidOut(data, base, i, vs[i], offsets[i])
  }

  // ---------- decoding a layout ----------

  lemma WordHere(data: Bytes, p: nat, w: Bytes)
    requires At(data, p, w) && |w| == 32
    ensures WordAt(data, p) == Some(w)
  {
    AtSlice(data, p, w);
  }

  lemma NumberHere(data: Bytes, p: nat, n: nat)
    requires At(data, p, BigEndian(n, 32)) && Fits(n, 32)
    ensures NumberAt(data, p) == Some(n)
  {
    WordHere(data, p, BigEndian(n, 32));
    NumberOfBigEndian(n, 32);
  }

  lemma StrHere(data: Bytes, p: nat, text: Bytes)
    requires Valid(Str(text)) && TailAt(data, p, Str(text))
    ensures StrAt(data, p) == Some(Str(text))
  {
    NumberHere(data, p, |text|);
    AtSlice(data, p + 32, text);
  }

  lemma {:induction false} FlatLength(items: seq<Bytes>)
    requires forall i :: 0 <= i < |items| ==> |items[i]| == 32
    ensures |Flat(items)| == 32 * |items|
  {
    if items != [] {
      FlatLength(items[..|items| - 1]);
    }
  }

  lemma {:induction false} SplitHere(data: Bytes, p: nat, items: seq<Bytes>)
    requires forall i :: 0 <= i < |items| ==> |items[i]| == 32
    requires At(data, p, Flat(items)) && p + 32 * |items| <= |data|
    ensures SplitWords(data, p, |items|) == items
  {
    if items != [] {
      var init, last := items[..|items| - 1], items[|items| - 1];
      FlatLength(init);
      AtSplit(data, p, Flat(init), last);
      SplitHere(data, p, init);
      AtSlice(data, p + 32 * |init|, last);
      assert items == init + [last];
    }
  }

  lemma WordsHere(data: Bytes, p: nat, items: seq<Bytes>)
    requires Valid(Words(items)) && TailAt(data, p, Words(items))
    ensures WordsAt(data, p) == Some(Words(items))
  {
    NumberHere(data, p, |items|);
    FlatLength(items);
    SplitHere(data, p + 32, items);
  }

  lemma ParamHere(data: Bytes, base: nat, i: nat, v: Value, offset: nat)
    requires LaidOut(data, base, i, v, offset)
    ensures Param(data, base, i, TypeOf(v)) == Some(v)
  {
    var p := base + 32 * i;
    match v {
      case Uint(n) => NumberHere(data, p, n);
      case Fixed(w) => WordHere(data, p, w);
      case Str(text) =>
        NumberHere(data, p, offset);
        StrHere(data, base + offset, text);
      case Words(items) =>
        NumberHere(data, p, offset);
        WordsHere(data, base + offset, items);
    }
  }

  lemma {:induction false} ParamsHere(data: Bytes, base: nat, vs: seq<Value>, offsets: seq<nat>, k: nat)
    requires AllLaidOut(data, base, vs, offsets) && k <= |vs|
    ensures Params(data, base, Types(vs), k) == Some(vs[..k])
  {
    if k > 0 {
      ParamsHere(data, base, vs, offsets, k - 1);
      ParamHere(data, base, k - 1, vs[k - 1], offsets[k - 1]);
      assert vs[..k] == vs[..k - 1] + [vs[k - 1]];
    }
  }

  /** Wherever the tails of a tuple lie, the decoder finds its values. */
  lemma DecodeLayout(data: Bytes, base: nat, vs: seq<Value>, offsets: seq<nat>)
    requires AllLaidOut(data, base, vs, offsets)
    ensures Params(data, base, Types(vs), |vs|) == Some(vs)
  {
    ParamsHere(data, base, vs, offsets, |vs|);
    assert vs[..|vs|] == vs;
  }

  // ---------- the canonical encoding is a layout ----------

  lemma OneMoreHead(heads: Bytes, v: Value, offset: nat)
    requires Valid(v)
    ensures |heads + Head(v, offset)| == |heads| + 32
  {}

  lemma {:induction false} HeadsLength(vs: seq<Value>, i: nat)
    requires AllValid(vs) && i <= |vs|
    ensures |Heads(vs, i)| == 32 * i
  {
    if i > 0 {
      HeadsLength(vs, i - 1);
      OneMoreHead(Heads(vs, i - 1), vs[i - 1], Offset(vs, i - 1));
    }
  }

  lemma {:induction false} HeadsAt(data: Bytes, vs: seq<Value>, k: nat, i: nat)
    requires AllValid(vs) && i < k <= |vs| && At(data, 0, Heads(vs, k))
    ensures At(data, 32 * i, Head(vs[i], Offset(vs, i)))
    decreases k
  {
    HeadsLength(vs, k - 1);
    AtSplit(data, 0, Heads(vs, k - 1), Head(vs[k - 1], Offset(vs, k - 1)));
    if i < k - 1 {
      HeadsAt(data, vs, k - 1, i);
    }
  }

  lemma {:induction false} TailsAt(data: Bytes, p: nat, vs: seq<Value>, k: nat, i: nat)
    requires i < k <= |vs| && At(data, p, Tails(vs, k))
    ensures At(data, p + |Tails(vs, i)|, Body(vs[i]))
    decreases k
  {
    AtSplit(data, p, Tails(vs, k - 1), Body(vs[k - 1]));
    if i < k - 1 {
      TailsAt(data, p, vs, k - 1, i);
    }
  }

  lemma BodyIsTail(data: Bytes, p: nat, v: Value)
    requires At(data, p, Body(v))
    ensures TailAt(data, p, v)
  {
    match v {
      case Str(text) =>
        AtSplit(data, p, BigEndian(|text|, 32), Padded(text));
        AtSplit(data, p + 32, text, Zeros(Padding(|text|)));
      case Words(items) => AtSplit(data, p, BigEndian(|items|, 32), Flat(items));
      case _ =>
    }
  }

  lemma {:induction false} OffsetsGrow(vs: seq<Value>, i: nat, k: nat)
    requires i <= k <= |vs|
    ensures Offset(vs, i) <= Offset(vs, k)
    decreases k
  {
    if i < k {
      OffsetsGrow(vs, i, k - 1);
    }
  }

  lemma BothAt(a: Bytes, b: Bytes)
    ensures At(a + b, 0, a) && At(a + b, |a|, b)
  {
    AtWhole(a + b);
    AtSplit(a + b, 0, a, b);
  }

  /** All heads at the start, and all tails right after them. */
  ghost predicate PartsAt(data: Bytes, vs: seq<Value>) {
    At(data, 0, Heads(vs, |vs|)) && At(data, 32 * |vs|, Tails(vs, |vs|))
  }

  lemma EncodedParts(vs: seq<Value>)
    requires AllValid(vs)
    ensures PartsAt(Encode(vs), vs) && |Encode(vs)| == 32 * |vs| + |Tails(vs, |vs|)|
  {
    HeadsLength(vs, |vs|);
    BothAt(Heads(vs, |vs|), Tails(vs, |vs|));
  }

  lemma HeadOf(data: Bytes, vs: seq<Value>, i: nat)
    requires AllValid(vs) && PartsAt(data, vs) && i < |vs|
    ensures At(data, 32 * i, Head(vs[i], Offset(vs, i)))
  {
    HeadsAt(data, vs, |vs|, i);
  }

  lemma TailOf(data: Bytes, vs: seq<Value>, i: nat)
    requires PartsAt(data, vs) && i < |vs|
    ensures TailAt(data, Offset(vs, i), vs[i])
  {
    TailsAt(data, 32 * |vs|, vs, |vs|, i);
    BodyIsTail(data, Offset(vs, i), vs[i]);
  }

  lemma EncodedOffset(vs: seq<Value>, i: nat)
    requires AllValid(vs) && i <= |vs|
    ensures Offset(vs, i) <= |Encode(vs)|
  {
    EncodedParts(vs);
    OffsetsGrow(vs, i, |vs|);
  }

  lemma EncodedLayout(vs: seq<Value>, i: nat)
    requires AllValid(vs) && Fits(|Encode(vs)|, 32) && i < |vs|
    ensures LaidOut(Encode(vs), 0, i, vs[i], Offset(vs, i))
  {
    EncodedParts(vs);
    HeadOf(Encode(vs), vs, i);
    TailOf(Encode(vs), vs, i);
    EncodedOffset(vs, i);
    FitsLess(|Encode(vs)|, Offset(vs, i), 32);
  }

  /** Decoding undoes encoding, for every list of values. */
  lemma RoundTrip(vs: seq<Value>)
    requires AllValid(vs) && Fits(|Encode(vs)|, 32)
    ensures Decode(Encode(vs), Types(vs)) == Some(vs)
  {
    var offsets := seq(|vs|, i requires 0 <= i < |vs| => Offset(vs, i));
    forall i | 0 <= i < |vs|
      ensures LaidOut(Encode(vs), 0, i, vs[i], offsets[i])
    {
      EncodedLayout(vs, i);
    }
    DecodeLayout(Encode(vs), 0, vs, offsets);
  }

  /** Equal calldata of equal types carries equal arguments. */
  lemma EncodeInjective(vs: seq<Value>, ws: seq<Value>)
    requires AllValid(vs) && AllValid(ws) && Fits(|Encode(vs)|, 32)
    requires Types(vs) == Types(ws) && Encode(vs) == Encode(ws)
    ensures vs == ws
  {
    RoundTrip(vs);
    RoundTrip(ws);
  }

  lemma BodyAligned(v: Value)
    requires Valid(v)
    ensures |Body(v)| % 32 == 0
  {
    match v
    case Str(text) => StringAligned(|text|);
    case Words(items) =>
      FlatLength(items);
      WordsAligned(1 + |items|);
    case _ =>
  }

  /** A length word, the bytes, and their padding. */
  lemma StringAligned(n: nat)
    ensures (32 + (n + Padding(n))) % 32 == 0
  {}

  lemma {:induction false} TailsAligned(vs: seq<Value>, i: nat)
    requires AllValid(vs) && i <= |vs|
    ensures |Tails(vs, i)| % 32 == 0
  {
    if i > 0 {
      TailsAligned(vs, i - 1);
      BodyAligned(vs[i - 1]);
      AlignedSum(|Tails(vs, i - 1)|, |Body(vs[i - 1])|);
    }
  }

  lemma AlignedSum(a: nat, b: nat)
    requires a % 32 == 0 && b % 32 == 0
    ensures (a + b) % 32 == 0
  {}

  /** An encoding consists of whole words. */
  lemma EncodeAligned(vs: seq<Value>)
    requires AllValid(vs)
    ensures |Encode(vs)| % 32 == 0
  {
    EncodedParts(vs);
    TailsAligned(vs, |vs|);
    WordsAligned(|vs|);
    AlignedSum(32 * |vs|, |Tails(vs, |vs|)|);
  }

  lemma WordsAligned(n: nat)
    ensures 32 * n % 32 == 0
  {}
}
