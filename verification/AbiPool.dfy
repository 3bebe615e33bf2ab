/** `decode_pool_info`: a pool tuple read through its offsets, for every layout the ABI allows. */
module AbiPool {
  import opened Wrappers
  import opened Text
  import opened Pieces
  import opened Hex
  import opened AbiWord
  import opened AbiCodec
  import opened AbiEncoders

  /** The decoded pool.  Texts are the UTF-8 bytes of the source's strings. */
  datatype PoolInfo = PoolInfo(
    id: nat, name: Bytes, description: Bytes, creator: string, state: nat, access: nat,
    minStakeWei: nat, memberCount: nat, createdAt: nat)

  /** The lossy UTF-8 conversion of the standard library. */
  type Lossy = Bytes -> Bytes

  /** The last `k` bytes of the word at `p`, as a number. */
  function LowBytes(data: Bytes, p: nat, k: nat): nat
    requires k <= 32 && p + 32 <= |data|
  {
    Number(data[p + 32 - k..p + 32])
  }

  /** A length-prefixed string at `p`; the length is the last eight bytes of its word. */
  function ReadString(data: Bytes, p: nat): Option<Bytes> {
    if |data| < p + 32 then None else
    var len := LowBytes(data, p, 8);
    if |data| < p + 32 + len then None else Some(data[p + 32..p + 32 + len])
  }

  /** `decode_pool_info` on the bytes of the reply. */
  function DecodePool(data: Bytes, lossy: Lossy): Option<PoolInfo> {
    if |data| < 32 + 32 * 9 then None else
    var start := LowBytes(data, 0, 8);
    if |data| < start + 32 * 9 then None else
    var nameOffset := LowBytes(data, start + 32, 8);
    var descOffset := LowBytes(data, start + 64, 8);
    match (ReadString(data, start + nameOffset), ReadString(data, start + descOffset))
    case (Some(name), Some(description)) =>
      Some(PoolInfo(
        LowBytes(data, start, 8), lossy(name), lossy(description),
        "0x" + ToHex(data[start + 108..start + 128]),
        data[start + 159], data[start + 191],
        LowBytes(data, start + 192, 16), LowBytes(data, start + 224, 8), LowBytes(data, start + 256, 8)))
    case _ => None
  }

  /** `decode_pool_info` on the hexadecimal reply. */
  function DecodePoolInfo(hex: string, lossy: Lossy): Option<PoolInfo> {
    match FromHex(StripPrefix(hex, "0x"))
    case None => None
    case Some(data) => DecodePool(data, lossy)
  }

  // ---------- the tuple on the wire ----------

  /** A pool as the contract holds it; `creator` is the 20-byte address. */
  datatype Pool = Pool(
    id: nat, name: Bytes, description: Bytes, creator: Bytes, state: nat, access: nat,
    minStake: nat, memberCount: nat, createdAt: nat)

  /** Every field fits the type the source reads it into. */
  predicate FitsSource(p: Pool) {
    && p.id < U64 && p.memberCount < U64 && p.createdAt < U64 && p.minStake < U128
    && p.state < U8 && p.access < U8 && |p.creator| == 20
    && |p.name| < U64 && |p.description| < U64
  }

  function PoolTuple(p: Pool): seq<Value> {
    [ Uint(p.id), Str(p.name), Str(p.description), Fixed(Zeros(12) + p.creator), Uint(p.state), Uint(p.access),
      Uint(p.minStake), Uint(p.memberCount), Uint(p.createdAt) ]
  }

  /** What the source should make of a pool. */
  function Shown(p: Pool, lossy: Lossy): PoolInfo {
    PoolInfo(p.id, lossy(p.name), lossy(p.description), "0x" + ToHex(p.creator), p.state, p.access,
             p.minStake, p.memberCount, p.createdAt)
  }

  /**
   A reply that holds the pool: the first word points at a tuple, whose string tails may lie anywhere the tuple's
   own offsets say, in any order and with any gaps.
   */
  ghost predicate Holds(data: Bytes, p: Pool, start: nat, nameOffset: nat, descOffset: nat) {
    && |data| >= 32 + 32 * 9
    && start < U64 && nameOffset < U64 && descOffset < U64
    && At(data, 0, BigEndian(start, 32))
    && TupleAt(data, start, PoolTuple(p), nameOffset, descOffset)
  }

  ghost predicate TupleAt(data: Bytes, base: nat, vs: seq<Value>, nameOffset: nat, descOffset: nat) {
    |vs| == 9 && forall i :: 0 <= i < 9 ==> LaidOut(data, base, i, vs[i], if i == 1 then nameOffset else descOffset)
  }

  // ---------- reading words ----------

  lemma LowBytesAt(data: Bytes, p: nat, n: nat, k: nat)
    requires At(data, p, BigEndian(n, 32)) && Fits(n, k) && k <= 32
    ensures LowBytes(data, p, k) == n
  {
    LeadingZeros(n, k, 32 - k);
    AtSplit(data, p, Zeros(32 - k), BigEndian(n, k));
    AtSlice(data, p + 32 - k, BigEndian(n, k));
    NumberOfBigEndian(n, k);
  }

  lemma U64At(data: Bytes, p: nat, n: nat)
    requires At(data, p, BigEndian(n, 32)) && n < U64
    ensures LowBytes(data, p, 8) == n
  {
    FitsU64(n);
    LowBytesAt(data, p, n, 8);
  }

  lemma U128At(data: Bytes, p: nat, n: nat)
    requires At(data, p, BigEndian(n, 32)) && n < U128
    ensures LowBytes(data, p, 16) == n
  {
    FitsU128(n);
    LowBytesAt(data, p, n, 16);
  }

  lemma U8At(data: Bytes, p: nat, n: nat)
    requires At(data, p, BigEndian(n, 32)) && n < U8
    ensures p + 32 <= |data| && data[p + 31] == n
  {
    U8WordIsWord(n);
    ItemAt(data, p, BigEndian(n, 32), 31);
  }

  lemma AddressAt(data: Bytes, p: nat, creator: Bytes)
    requires At(data, p, Zeros(12) + creator) && |creator| == 20
    ensures p + 32 <= |data| && data[p + 12..p + 32] == creator
  {
    AtSplit(data, p, Zeros(12), creator);
    AtSlice(data, p + 12, creator);
  }

  lemma StringAt(data: Bytes, p: nat, text: Bytes)
    requires TailAt(data, p, Str(text)) && |text| < U64
    ensures ReadString(data, p) == Some(text)
  {
    U64At(data, p, |text|);
    AtSlice(data, p + 32, text);
  }

  // ---------- the theorem ----------

  lemma PoolNumbers(data: Bytes, p: Pool, start: nat, nameOffset: nat, descOffset: nat)
    requires FitsSource(p) && Holds(data, p, start, nameOffset, descOffset)
    ensures start + 288 <= |data| && LowBytes(data, 0, 8) == start
    ensures LowBytes(data, start, 8) == p.id && LowBytes(data, start + 192, 16) == p.minStake
    ensures LowBytes(data, start + 224, 8) == p.memberCount && LowBytes(data, start + 256, 8) == p.createdAt
  {
    var vs := PoolTuple(p);
    assert LaidOut(data, start, 0, vs[0], descOffset) && LaidOut(data, start, 6, vs[6], descOffset);
    assert LaidOut(data, start, 7, vs[7], descOffset) && LaidOut(data, start, 8, vs[8], descOffset);
    U64At(data, 0, start);
    U64At(data, start, p.id);
    U128At(data, start + 192, p.minStake);
    U64At(data, start + 224, p.memberCount);
    U64At(data, start + 256, p.createdAt);
  }

  lemma PoolBytes(data: Bytes, p: Pool, start: nat, nameOffset: nat, descOffset: nat)
    requires FitsSource(p) && Holds(data, p, start, nameOffset, descOffset) && start + 288 <= |data|
    ensures data[start + 108..start + 128] == p.creator
    ensures data[start + 159] == p.state && data[start + 191] == p.access
  {
    var vs := PoolTuple(p);
    assert LaidOut(data, start, 3, vs[3], descOffset);
    assert LaidOut(data, start, 4, vs[4], descOffset) && LaidOut(data, start, 5, vs[5], descOffset);
    AddressAt(data, start + 96, p.creator);
    U8At(data, start + 128, p.state);
    U8At(data, start + 160, p.access);
  }

  lemma TextParam(data: Bytes, start: nat, i: nat, text: Bytes, offset: nat)
    requires LaidOut(data, start, i, Str(text), offset) && |text| < U64 && offset < U64
    ensures start + 32 * i + 32 <= |data| && LowBytes(data, start + 32 * i, 8) == offset
    ensures ReadString(data, start + offset) == Some(text)
  {
    U64At(data, start + 32 * i, offset);
    StringAt(data, start + offset, text);
  }

  lemma PoolTexts(data: Bytes, p: Pool, start: nat, nameOffset: nat, descOffset: nat)
    requires FitsSource(p) && Holds(data, p, start, nameOffset, descOffset) && start + 288 <= |data|
    ensures LowBytes(data, start + 32, 8) == nameOffset && LowBytes(data, start + 64, 8) == descOffset
    ensures ReadString(data, start + nameOffset) == Some(p.name)
    ensures ReadString(data, start + descOffset) == Some(p.description)
  {
    var vs := PoolTuple(p);
    assert LaidOut(data, start, 1, vs[1], nameOffset) && LaidOut(data, start, 2, vs[2], descOffset);
    TextParam(data, start, 1, p.name, nameOffset);
    TextParam(data, start, 2, p.description, descOffset);
  }

  /** Every reply that holds a pool is decoded to that pool, wherever its strings lie. */
  lemma DecodeAnyLayout(data: Bytes, p: Pool, lossy: Lossy, start: nat, nameOffset: nat, descOffset: nat)
    requires FitsSource(p) && Holds(data, p, start, nameOffset, descOffset)
    ensures DecodePool(data, lossy) == Some(Shown(p, lossy))
  {
    PoolNumbers(data, p, start, nameOffset, descOffset);
    PoolBytes(data, p, start, nameOffset, descOffset);
    PoolTexts(data, p, start, nameOffset, descOffset);
    Assembled(data, p, lossy, start, nameOffset, descOffset);
  }

  /** The decoder's result, once every field is known. */
  lemma Assembled(data: Bytes, p: Pool, lossy: Lossy, start: nat, nameOffset: nat, descOffset: nat)
    requires |data| >= 320 && start + 288 <= |data| && LowBytes(data, 0, 8) == start
    requires LowBytes(data, start, 8) == p.id && LowBytes(data, start + 192, 16) == p.minStake
    requires LowBytes(data, start + 224, 8) == p.memberCount && LowBytes(data, start + 256, 8) == p.createdAt
    requires data[start + 108..start + 128] == p.creator
    requires data[start + 159] == p.state && data[start + 191] == p.access
    requires LowBytes(data, start + 32, 8) == nameOffset && LowBytes(data, start + 64, 8) == descOffset
    requires ReadString(data, start + nameOffset) == Some(p.name)
    requires ReadString(data, start + descOffset) == Some(p.description)
    ensures DecodePool(data, lossy) == Some(Shown(p, lossy))
  {}

  // ---------- the canonical reply ----------

  /** The reply of a contract: one dynamic tuple, encoded canonically. */
  function Reply(p: Pool): Bytes { U8Word(0x20) + Encode(PoolTuple(p)) }

  lemma Shifted(a: Bytes, b: Bytes, p: nat, t: Bytes)
    requires At(b, p, t)
    ensures At(a + b, |a| + p, t)
  {
    forall i | 0 <= i < |t|
      ensures (a + b)[|a| + p + i] == t[i]
    {
      ItemAt(b, p, t, i);
    }
    MatchesIntro(a + b, |a| + p, t, 0);
  }

  lemma ShiftedLayout(a: Bytes, b: Bytes, i: nat, v: Value, offset: nat)
    requires LaidOut(b, 0, i, v, offset)
    ensures LaidOut(a + b, |a|, i, v, offset)
  {
    Shifted(a, b, 32 * i, Head(v, offset));
    match v {
      case Str(text) =>
        Shifted(a, b, offset, BigEndian(|text|, 32));
        Shifted(a, b, offset + 32, text);
      case Words(items) =>
        Shifted(a, b, offset, BigEndian(|items|, 32));
        Shifted(a, b, offset + 32, Flat(items));
      case _ =>
    }
  }

  lemma PoolTupleValid(p: Pool)
    requires FitsSource(p)
    ensures AllValid(PoolTuple(p))
  {
    FitsU64(p.id);
    FitsU64(p.memberCount);
    FitsU64(p.createdAt);
    FitsU128(p.minStake);
    U8WordIsWord(p.state);
    U8WordIsWord(p.access);
    FitsU64(|p.name|);
    FitsU64(|p.description|);
  }

  /** The length of a canonical reply is that of its heads and its two strings. */
  lemma PoolTails(vs: seq<Value>)
    requires |vs| == 9 && !IsDynamic(vs[0]) && vs[1].Str? && vs[2].Str?
    requires forall i :: 3 <= i < 9 ==> !IsDynamic(vs[i])
    ensures Offset(vs, 1) == 288 && Offset(vs, 2) == 288 + |Body(vs[1])|
    ensures Offset(vs, 9) == 288 + |Body(vs[1])| + |Body(vs[2])|
  {
    assert Tails(vs, 1) == Tails(vs, 0) + Body(vs[0]);
    assert Tails(vs, 2) == Tails(vs, 1) + Body(vs[1]);
    assert Tails(vs, 3) == Tails(vs, 2) + Body(vs[2]);
    StaticTails(vs, 3, 9);
  }

  lemma {:induction false} StaticTails(vs: seq<Value>, i: nat, k: nat)
    requires i <= k <= |vs| && forall j :: i <= j < k ==> !IsDynamic(vs[j])
    ensures |Tails(vs, k)| == |Tails(vs, i)|
    decreases k
  {
    if i < k {
      StaticTails(vs, i, k - 1);
    }
  }

  /** Where the description of a canonical reply starts. */
  function DescOffset(p: Pool): nat { 288 + |Body(Str(p.name))| }

  lemma ReplyParam(p: Pool, start: nat, i: nat)
    requires FitsSource(p) && |Reply(p)| <= MAX_LEN && start == 32 && i < 9
    ensures LaidOut(Reply(p), start, i, PoolTuple(p)[i], if i == 1 then 288 else DescOffset(p))
  {
    var vs := PoolTuple(p);
    PoolTupleValid(p);
    PoolTails(vs);
    FitsU64(|Encode(vs)|);
    EncodedLayout(vs, i);
    ShiftedLayout(U8Word(0x20), Encode(vs), i, vs[i], Offset(vs, i));
    if i != 1 && i != 2 {
      StaticAnywhere(Reply(p), start, i, vs[i], Offset(vs, i), DescOffset(p));
    }
  }

  /** Where the tail of a value without one lies makes no difference. */
  lemma StaticAnywhere(data: Bytes, base: nat, i: nat, v: Value, a: nat, b: nat)
    requires LaidOut(data, base, i, v, a) && !IsDynamic(v)
    ensures LaidOut(data, base, i, v, b)
  {}

  lemma ReplyLength(p: Pool)
    requires FitsSource(p)
    ensures |Reply(p)| == 32 + DescOffset(p) + |Body(Str(p.description))|
  {
    PoolTupleValid(p);
    PoolTails(PoolTuple(p));
    EncodedParts(PoolTuple(p));
  }

  lemma ReplyStart(p: Pool, start: nat)
    requires start == 32
    ensures At(Reply(p), 0, BigEndian(start, 32))
  {
    U8WordIsWord(start);
    BothAt(U8Word(0x20), Encode(PoolTuple(p)));
  }

  lemma ReplyHolds(p: Pool, start: nat)
    requires FitsSource(p) && |Reply(p)| <= MAX_LEN && start == 32
    ensures Holds(Reply(p), p, start, 288, DescOffset(p))
  {
    ReplyLength(p);
    ReplyStart(p, start);
    forall i | 0 <= i < 9
      ensures LaidOut(Reply(p), start, i, PoolTuple(p)[i], if i == 1 then 288 else DescOffset(p))
    {
      ReplyParam(p, start, i);
    }
    assert |PoolTuple(p)| == 9;
  }

  lemma HexOfReply(data: Bytes)
    ensures FromHex(StripPrefix("0x" + ToHex(data), "0x")) == Some(data)
    ensures FromHex(StripPrefix(ToHex(data), "0x")) == Some(data)
  {
    FromToHex(data);
    assert ("0x" + ToHex(data))[2..] == ToHex(data);
    EncodedIsHex(data);
    assert |ToHex(data)| >= 2 ==> IsHexDigit(ToHex(data)[1]);
  }

  /**
   `decode_pool_info` is a left inverse of the canonical encoding, with or without the 0x prefix, for every pool
   whose fields fit the source's types.
   */
  lemma DecodeCanonicalReply(p: Pool, lossy: Lossy, reply: Bytes)
    requires FitsSource(p) && |reply| <= MAX_LEN
    requires reply == U8Word(0x20)
                      + Encode([ Uint(p.id), Str(p.name), Str(p.description), Fixed(Zeros(12) + p.creator),
                                 Uint(p.state), Uint(p.access), Uint(p.minStake), Uint(p.memberCount),
                                 Uint(p.createdAt) ])
    ensures var info := PoolInfo(p.id, lossy(p.name), lossy(p.description), "0x" + ToHex(p.creator), p.state, p.access,
                                 p.minStake, p.memberCount, p.createdAt);
            && DecodePoolInfo("0x" + ToHex(reply), lossy) == Some(info)
            && DecodePoolInfo(ToHex(reply), lossy) == Some(info)
  {
    assert reply == Reply(p);
    var start := 32;
    ReplyHolds(p, start);
    DecodeAnyLayout(Reply(p), p, lossy, start, 288, DescOffset(p));
    HexOfReply(Reply(p));
  }
}
