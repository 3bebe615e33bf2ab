/**
 The hand-written calldata encoders of the marketplace client and the model publisher.  Each appends words to a
 growing buffer; each is shown to build the canonical encoding of its arguments.
 */
module AbiEncoders {
  import opened Wrappers
  import opened Pieces
  import opened Hex
  import opened AbiWord
  import opened AbiCodec

  /** The hash that function selectors are cut from. */
  type Hash = string -> Bytes

  ghost predicate IsHash(hash: Hash) { forall s :: |hash(s)| == 32 }

  function Selector(hash: Hash, signature: string): Bytes
    requires IsHash(hash)
  {
    hash(signature)[..4]
  }

  const CREATE_POOL := "createPool(string,string,uint8,uint256)"
  const REGISTER_PROVIDER := "registerProvider(bytes32[])"
  const REGISTER_MODEL := "registerModel(bytes32,string)"

  /** The longest string or list the source's language can hold. */
  const MAX_LEN: nat := 0x7FFF_FFFF_FFFF_FFFF

  lemma FitsU64(n: nat)
    requires n < U64
    ensures Fits(n, 8) && Fits(n, 32)
  {
    Widths();
    FitsBelow(n, 8);
    FitsMore(n, 8, 32);
  }

  lemma FitsU128(n: nat)
    requires n < U128
    ensures Fits(n, 16) && Fits(n, 32)
  {
    Widths();
    FitsBelow(n, 16);
    FitsMore(n, 16, 32);
  }

  /** A word of zeros with the eight bytes of a u64 copied to its end. */
  function U64Word(n: nat): Bytes
    requires n < U64
  {
    Zeros(24) + BigEndian(n, 8)
  }

  lemma U64WordIsWord(n: nat)
    requires n < U64
    ensures U64Word(n) == BigEndian(n, 32)
  {
    FitsU64(n);
    LeadingZeros(n, 8, 24);
  }

  /** A word of zeros with the sixteen bytes of a u128 copied to its end. */
  function U128Word(n: nat): Bytes
    requires n < U128
  {
    Zeros(16) + BigEndian(n, 16)
  }

  lemma U128WordIsWord(n: nat)
    requires n < U128
    ensures U128Word(n) == BigEndian(n, 32)
  {
    FitsU128(n);
    LeadingZeros(n, 16, 16);
  }

  /** A word of zeros whose last byte is `n`. */
  function U8Word(n: nat): Bytes
    requires n < U8
  {
    Zeros(32)[31 := n]
  }

  lemma U8WordIsWord(n: nat)
    requires n < U8
    ensures U8Word(n) == BigEndian(n, 32) && Fits(n, 32)
  {
    FitsBelow(n, 1);
    FitsMore(n, 1, 32);
    LeadingZeros(n, 1, 31);
    assert BigEndian(n, 1) == BigEndian(n / 256, 0) + [n % 256];
    assert Zeros(31) + [n] == U8Word(n);
  }

  /** The length rounded up to whole words. */
  function PaddedLength(n: nat): (k: nat)
    ensures k == n + Padding(n)
  {
    (n + 31) / 32 * 32
  }

  /** Appends a string's length word, its bytes, and zeros up to a whole word. */
  method AppendString(out: Bytes, text: Bytes) returns (res: Bytes)
    requires |text| <= MAX_LEN
    ensures res == out + Body(Str(text))
  {
    U64WordIsWord(|text|);
    res := out + U64Word(|text|);
    res := res + text;
    res := res + Zeros(PaddedLength(|text|) - |text|);
  }

  // ---------- growing a canonical encoding ----------

  /** The buffer holds the selector and the first `i` heads. */
  ghost predicate HeadsDone(out: Bytes, sel: Bytes, vs: seq<Value>, i: nat) {
    i <= |vs| && out == sel + Heads(vs, i)
  }

  lemma HeadAppended(out: Bytes, sel: Bytes, vs: seq<Value>, i: nat, word: Bytes)
    requires HeadsDone(out, sel, vs, i) && i < |vs| && word == Head(vs[i], Offset(vs, i))
    ensures HeadsDone(out + word, sel, vs, i + 1)
  {}

  /** The buffer holds the selector, all heads and the first `i` tails. */
  ghost predicate TailsDone(out: Bytes, sel: Bytes, vs: seq<Value>, i: nat) {
    i <= |vs| && out == sel + (Heads(vs, |vs|) + Tails(vs, i))
  }

  lemma TailAppended(out: Bytes, sel: Bytes, vs: seq<Value>, i: nat, body: Bytes)
    requires TailsDone(out, sel, vs, i) && i < |vs| && body == Body(vs[i])
    ensures TailsDone(out + body, sel, vs, i + 1)
  {
    Regroup(sel, Heads(vs, |vs|) + Tails(vs, i), body);
    Regroup(Heads(vs, |vs|), Tails(vs, i), body);
  }

  // ---------- createPool ----------

  function PoolArgs(name: Bytes, description: Bytes, access: nat, minStake: nat): seq<Value> {
    [Str(name), Str(description), Uint(access), Uint(minStake)]
  }

  /** The offset of the first string is that of all heads; the second string lies right behind the first. */
  lemma PoolOffsetWords(vs: seq<Value>, headSize: nat, descOffset: nat)
    requires |vs| == 4 && vs[0].Str? && vs[1].Str? && |vs[0].text| <= MAX_LEN
    requires headSize == 4 * 32 && descOffset == headSize + 32 + PaddedLength(|vs[0].text|)
    ensures headSize < U64 && U64Word(headSize) == Head(vs[0], Offset(vs, 0))
    ensures descOffset < U64 && U64Word(descOffset) == Head(vs[1], Offset(vs, 1))
  {
    assert Tails(vs, 1) == Tails(vs, 0) + Body(vs[0]);
    U64WordIsWord(headSize);
    U64WordIsWord(descOffset);
  }

  /** The first two head words of `createPool`, in the order the source appends them: where the strings lie. */
  method PoolOffsets(sel: Bytes, name: Bytes, ghost vs: seq<Value>) returns (out: Bytes)
    requires |name| <= MAX_LEN && |vs| == 4 && vs[0] == Str(name) && vs[1].Str?
    ensures HeadsDone(out, sel, vs, 2)
  {
    var headSize := 4 * 32;
    var descOffset := headSize + 32 + PaddedLength(|name|);
    PoolOffsetWords(vs, headSize, descOffset);
    HeadAppended(sel, sel, vs, 0, U64Word(headSize));
    out := sel + U64Word(headSize);
    HeadAppended(out, sel, vs, 1, U64Word(descOffset));
    out := out + U64Word(descOffset);
  }

  /** The other two: the numbers. */
  method PoolNumbers(sel: Bytes, heads: Bytes, access: nat, minStakeWei: nat, ghost vs: seq<Value>)
    returns (out: Bytes)
    requires access < U8 && minStakeWei < U128
    requires |vs| == 4 && vs[2] == Uint(access) && vs[3] == Uint(minStakeWei) && HeadsDone(heads, sel, vs, 2)
    ensures HeadsDone(out, sel, vs, 4)
  {
    U8WordIsWord(access);
    HeadAppended(heads, sel, vs, 2, U8Word(access));
    out := heads + U8Word(access);
    U128WordIsWord(minStakeWei);
    HeadAppended(out, sel, vs, 3, U128Word(minStakeWei));
    out := out + U128Word(minStakeWei);
  }

  /** The tails of `createPool`, after its heads. */
  method PoolTexts(sel: Bytes, heads: Bytes, name: Bytes, description: Bytes, ghost vs: seq<Value>)
    returns (out: Bytes)
    requires |name| <= MAX_LEN && |description| <= MAX_LEN && |vs| == 4
    requires vs[0] == Str(name) && vs[1] == Str(description) && !IsDynamic(vs[2]) && !IsDynamic(vs[3])
    requires HeadsDone(heads, sel, vs, 4)
    ensures out == sel + Encode(vs)
  {
    assert TailsDone(heads, sel, vs, 0) by {
      assert Heads(vs, 4) + Tails(vs, 0) == Heads(vs, 4);
    }
    TailAppended(heads, sel, vs, 0, Body(Str(name)));
    out := AppendString(heads, name);
    TailAppended(out, sel, vs, 1, Body(Str(description)));
    out := AppendString(out, description);
    NoTail(vs, 2);
    NoTail(vs, 3);
  }

  lemma NoTail(vs: seq<Value>, i: nat)
    requires i < |vs| && !IsDynamic(vs[i])
    ensures Tails(vs, i + 1) == Tails(vs, i)
  {}

  /** `encode_create_pool`: the selector, and calldata that reads back as the four arguments in their order. */
  method EncodeCreatePool(hash: Hash, name: Bytes, description: Bytes, access: nat, minStakeWei: nat)
    returns (out: Bytes)
    requires IsHash(hash)
    requires |name| <= MAX_LEN && |description| <= MAX_LEN && access < U8 && minStakeWei < U128
    ensures out == Selector(hash, CREATE_POOL) + Encode(PoolArgs(name, description, access, minStakeWei))
    ensures |out| % 32 == 4 && out[..4] == hash("createPool(string,string,uint8,uint256)")[..4]
    ensures Decode(out[4..], [TStr, TStr, TUint, TUint])
              == Some([Str(name), Str(description), Uint(access), Uint(minStakeWei)])
  {
    var sel := Selector(hash, CREATE_POOL);
    ghost var vs := [Str(name), Str(description), Uint(access), Uint(minStakeWei)];
    out := PoolOffsets(sel, name, vs);
    out := PoolNumbers(sel, out, access, minStakeWei, vs);
    out := PoolTexts(sel, out, name, description, vs);
    CreatePoolReadsBack(hash, name, description, access, minStakeWei, out);
  }

  // ---------- registerProvider ----------

  lemma FlatAppended(out: Bytes, items: seq<Bytes>, k: nat)
    requires k < |items|
    ensures out + Flat(items[..k]) + items[k] == out + Flat(items[..k + 1])
  {
    assert items[..k + 1][..k] == items[..k];
    Regroup(out, Flat(items[..k]), items[k]);
  }

  /** `encode_register_provider`: one dynamic array of 32-byte model hashes. */
  method EncodeRegisterProvider(hash: Hash, models: seq<Bytes>) returns (out: Bytes)
    requires IsHash(hash) && |models| <= MAX_LEN && forall i :: 0 <= i < |models| ==> |models[i]| == 32
    ensures out == Selector(hash, REGISTER_PROVIDER) + Encode([Words(models)])
    ensures |out| % 32 == 4 && out[..4] == hash("registerProvider(bytes32[])")[..4]
    ensures Decode(out[4..], [TWords]) == Some([Words(models)])
  {
    var sel := Selector(hash, REGISTER_PROVIDER);
    ghost var vs := [Words(models)];
    U8WordIsWord(0x20);
    HeadAppended(sel, sel, vs, 0, U8Word(0x20));
    out := sel + U8Word(0x20);
    ghost var before := out;
    U64WordIsWord(|models|);
    out := out + U64Word(|models|);
    ghost var start := out;
    assert start + [] == start;
    for k := 0 to |models|
      invariant out == start + Flat(models[..k])
    {
      FlatAppended(start, models, k);
      out := out + models[k];
    }
    assert models[..|models|] == models;
    Regroup(before, U64Word(|models|), Flat(models));
    TailAppended(before, sel, vs, 0, Body(vs[0]));
    RegisterProviderReadsBack(hash, models, out);
  }

  // ---------- registerModel ----------

  /** `encode_register_model_calldata`: a bytes32 word and a string. */
  method EncodeRegisterModel(hash: Hash, modelHash: Bytes, cid: Bytes) returns (out: Bytes)
    requires IsHash(hash) && |modelHash| == 32 && |cid| <= MAX_LEN
    ensures out == Selector(hash, REGISTER_MODEL) + Encode([Fixed(modelHash), Str(cid)])
    ensures |out| % 32 == 4 && out[..4] == hash("registerModel(bytes32,string)")[..4]
    ensures Decode(out[4..], [TFixed, TStr]) == Some([Fixed(modelHash), Str(cid)])
  {
    var sel := Selector(hash, REGISTER_MODEL);
    ghost var vs := [Fixed(modelHash), Str(cid)];
    HeadAppended(sel, sel, vs, 0, modelHash);
    out := sel + modelHash;
    U8WordIsWord(0x40);
    assert Offset(vs, 1) == 0x40;
    HeadAppended(out, sel, vs, 1, U8Word(0x40));
    out := out + U8Word(0x40);
    TailAppended(out, sel, vs, 1, Body(Str(cid)));
    out := AppendString(out, cid);
    RegisterModelReadsBack(hash, modelHash, cid, out);
  }

  // ---------- reading calldata back ----------

  /** Calldata after its selector decodes to exactly the arguments, and is a selector and whole words. */
  ghost predicate ReadsBack(calldata: Bytes, sel: Bytes, ts: seq<Type>, vs: seq<Value>) {
    && |calldata| % 32 == 4
    && calldata[..4] == sel
    && Decode(calldata[4..], ts) == Some(vs)
  }

  lemma CalldataReadsBack(hash: Hash, signature: string, vs: seq<Value>)
    requires IsHash(hash) && AllValid(vs) && Fits(|Encode(vs)|, 32)
    ensures ReadsBack(Selector(hash, signature) + Encode(vs), Selector(hash, signature), Types(vs), vs)
  {
    var sel := Selector(hash, signature);
    RoundTrip(vs);
    EncodeAligned(vs);
    AfterSelector(sel, Encode(vs));
  }

  lemma AfterSelector(sel: Bytes, args: Bytes)
    requires |sel| == 4
    ensures (sel + args)[..4] == sel && (sel + args)[4..] == args
    ensures |args| % 32 == 0 ==> |sel + args| % 32 == 4
  {}

  lemma StringBodyLength(text: Bytes)
    requires |text| <= MAX_LEN
    ensures Valid(Str(text)) && |Body(Str(text))| <= 64 + MAX_LEN
  {
    FitsU64(|text|);
  }

  lemma FitsLength(n: nat)
    requires n < U128
    ensures Fits(n, 32)
  {
    FitsU128(n);
  }

  lemma CreatePoolReadsBack(
      hash: Hash, name: Bytes, description: Bytes, access: nat, minStakeWei: nat, calldata: Bytes)
    requires IsHash(hash)
    requires |name| <= MAX_LEN && |description| <= MAX_LEN && access < U8 && minStakeWei < U128
    requires calldata == Selector(hash, CREATE_POOL) + Encode(PoolArgs(name, description, access, minStakeWei))
    ensures |calldata| % 32 == 4 && calldata[..4] == hash("createPool(string,string,uint8,uint256)")[..4]
    ensures Decode(calldata[4..], [TStr, TStr, TUint, TUint])
              == Some([Str(name), Str(description), Uint(access), Uint(minStakeWei)])
  {
    var vs := PoolArgs(name, description, access, minStakeWei);
    StringBodyLength(name);
    StringBodyLength(description);
    U8WordIsWord(access);
    FitsU128(minStakeWei);
    PoolLength(vs);
    FitsLength(|Encode(vs)|);
    CalldataReadsBack(hash, CREATE_POOL, vs);
    assert Types(vs) == [TStr, TStr, TUint, TUint];
  }

  /** The calldata of `createPool`, word by word: where the strings lie, the numbers, and the two strings. */
  lemma CreatePoolLayout(name: Bytes, description: Bytes, access: nat, minStakeWei: nat, headSize: nat, word: nat)
    requires headSize == 128 && word == 32
    ensures Encode(PoolArgs(name, description, access, minStakeWei))
         == BigEndian(headSize, word) + BigEndian(headSize + word + |name| + Padding(|name|), word)
          + BigEndian(access, word) + BigEndian(minStakeWei, word)
          + BigEndian(|name|, word) + name + Zeros(Padding(|name|))
          + BigEndian(|description|, word) + description + Zeros(Padding(|description|))
  {
    var vs := PoolArgs(name, description, access, minStakeWei);
    var a, b := BigEndian(|name|, word), BigEndian(|description|, word);
    PoolParts(vs, BigEndian(headSize, word), BigEndian(headSize + word + |name| + Padding(|name|), word),
              BigEndian(access, word), BigEndian(minStakeWei, word), Body(vs[0]), Body(vs[1]));
    InPieces(Heads(vs, 4), a, name, Zeros(Padding(|name|)), Body(vs[0]));
    InPieces(Heads(vs, 4) + Body(vs[0]), b, description, Zeros(Padding(|description|)), Body(vs[1]));
  }

  lemma InPieces(front: Bytes, a: Bytes, b: Bytes, c: Bytes, whole: Bytes)
    requires whole == a + (b + c)
    ensures front + whole == front + a + b + c
  {}

  lemma PoolParts(vs: seq<Value>, w0: Bytes, w1: Bytes, w2: Bytes, w3: Bytes, t0: Bytes, t1: Bytes)
    requires |vs| == 4 && t0 == Body(vs[0]) && t1 == Body(vs[1]) && !IsDynamic(vs[2]) && !IsDynamic(vs[3])
    requires w0 == Head(vs[0], 128) && w1 == Head(vs[1], 128 + |t0|) && w2 == Head(vs[2], Offset(vs, 2))
    requires w3 == Head(vs[3], Offset(vs, 3))
    ensures Heads(vs, 4) == w0 + w1 + w2 + w3 && Encode(vs) == Heads(vs, 4) + t0 + t1
  {
    NoTail(vs, 2);
    NoTail(vs, 3);
    FourHeads(vs, t0);
    TwoTails(vs, t0, t1);
    Regroup(Heads(vs, 4), t0, t1);
  }

  lemma TwoTails(vs: seq<Value>, t0: Bytes, t1: Bytes)
    requires |vs| >= 2 && t0 == Body(vs[0]) && t1 == Body(vs[1])
    ensures Tails(vs, 2) == t0 + t1
  {
    assert Tails(vs, 1) == Tails(vs, 0) + t0 == t0;
  }

  lemma FourHeads(vs: seq<Value>, t0: Bytes)
    requires |vs| == 4 && t0 == Body(vs[0])
    ensures Heads(vs, 4) == Head(vs[0], 128) + Head(vs[1], 128 + |t0|) + Head(vs[2], Offset(vs, 2))
                          + Head(vs[3], Offset(vs, 3))
  {
    assert Tails(vs, 1) == Tails(vs, 0) + t0 == t0;
    assert Heads(vs, 1) == Heads(vs, 0) + Head(vs[0], 128) == Head(vs[0], 128);
    assert Heads(vs, 2) == Heads(vs, 1) + Head(vs[1], 128 + |t0|);
    assert Heads(vs, 3) == Heads(vs, 2) + Head(vs[2], Offset(vs, 2));
  }

  lemma PoolLength(vs: seq<Value>)
    requires AllValid(vs) && |vs| == 4 && !IsDynamic(vs[2]) && !IsDynamic(vs[3])
    ensures |Encode(vs)| == 128 + |Body(vs[0])| + |Body(vs[1])|
  {
    EncodedParts(vs);
    assert Tails(vs, 2) == Tails(vs, 1) + Body(vs[1]);
    assert Tails(vs, 3) == Tails(vs, 2) + Body(vs[2]);
  }

  lemma RegisterProviderReadsBack(hash: Hash, models: seq<Bytes>, calldata: Bytes)
    requires IsHash(hash) && |models| <= MAX_LEN && forall i :: 0 <= i < |models| ==> |models[i]| == 32
    requires calldata == Selector(hash, REGISTER_PROVIDER) + Encode([Words(models)])
    ensures |calldata| % 32 == 4 && calldata[..4] == hash("registerProvider(bytes32[])")[..4]
    ensures Decode(calldata[4..], [TWords]) == Some([Words(models)])
  {
    var vs := [Words(models)];
    FitsU64(|models|);
    FlatLength(models);
    EncodedParts(vs);
    assert Tails(vs, 1) == Tails(vs, 0) + Body(vs[0]);
    FitsLength(|Encode(vs)|);
    CalldataReadsBack(hash, REGISTER_PROVIDER, vs);
    assert Types(vs) == [TWords];
  }

  /** The calldata of `registerProvider`: where the list lies, its length, and its words one after the other. */
  lemma RegisterProviderLayout(models: seq<Bytes>, word: nat, k: nat)
    requires word == 32 && forall i :: 0 <= i < |models| ==> |models[i]| == 32
    ensures Encode([Words(models)]) == BigEndian(word, word) + BigEndian(|models|, word) + Flat(models)
    ensures |Flat(models)| == 32 * |models|
    ensures k < |models| ==> At(Flat(models), 32 * k, models[k])
  {
    var vs := [Words(models)];
    assert Tails(vs, 1) == Tails(vs, 0) + Body(vs[0]) == Body(vs[0]);
    assert Heads(vs, 1) == Heads(vs, 0) + Head(vs[0], word) == BigEndian(word, word);
    Regroup(BigEndian(word, word), BigEndian(|models|, word), Flat(models));
    FlatLength(models);
    if k < |models| {
      AtWhole(Flat(models));
      FlatAt(Flat(models), models, k);
    }
  }

  lemma {:induction false} FlatAt(data: Bytes, items: seq<Bytes>, k: nat)
    requires k < |items| && At(data, 0, Flat(items)) && forall i :: 0 <= i < |items| ==> |items[i]| == 32
    ensures At(data, 32 * k, items[k])
    decreases |items|
  {
    var init, last := items[..|items| - 1], items[|items| - 1];
    FlatLength(init);
    AtSplit(data, 0, Flat(init), last);
    if k < |init| {
      FlatAt(data, init, k);
    }
  }

  lemma RegisterModelReadsBack(hash: Hash, modelHash: Bytes, cid: Bytes, calldata: Bytes)
    requires IsHash(hash) && |modelHash| == 32 && |cid| <= MAX_LEN
    requires calldata == Selector(hash, REGISTER_MODEL) + Encode([Fixed(modelHash), Str(cid)])
    ensures |calldata| % 32 == 4 && calldata[..4] == hash("registerModel(bytes32,string)")[..4]
    ensures Decode(calldata[4..], [TFixed, TStr]) == Some([Fixed(modelHash), Str(cid)])
  {
    var vs := [Fixed(modelHash), Str(cid)];
    StringBodyLength(cid);
    EncodedParts(vs);
    assert Tails(vs, 2) == Tails(vs, 1) + Body(vs[1]);
    FitsLength(|Encode(vs)|);
    CalldataReadsBack(hash, REGISTER_MODEL, vs);
    assert Types(vs) == [TFixed, TStr];
  }

  /** The calldata of `registerModel`: the hash, where the string lies, and the string. */
  lemma RegisterModelLayout(modelHash: Bytes, cid: Bytes, headSize: nat, word: nat)
    requires headSize == 64 && word == 32
    ensures Encode([Fixed(modelHash), Str(cid)])
         == modelHash + BigEndian(headSize, word) + BigEndian(|cid|, word) + cid + Zeros(Padding(|cid|))
  {
    var vs := [Fixed(modelHash), Str(cid)];
    var heads := modelHash + BigEndian(headSize, word);
    assert Tails(vs, 1) == Tails(vs, 0) + Body(vs[0]) == [];
    assert Tails(vs, 2) == Tails(vs, 1) + Body(vs[1]) == Body(vs[1]);
    assert Heads(vs, 1) == Heads(vs, 0) + modelHash == modelHash;
    assert Heads(vs, 2) == Heads(vs, 1) + Head(vs[1], headSize) == heads;
    InPieces(heads, BigEndian(|cid|, word), cid, Zeros(Padding(|cid|)), Body(vs[1]));
  }
}
