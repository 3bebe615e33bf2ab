/** The fixed-size replies: a single number, and a provider's profile. */
module AbiReplies {
  import opened Wrappers
  import opened Text
  import opened Pieces
  import opened Hex
  import opened AbiWord
  import opened AbiCodec
  import opened AbiEncoders
  import opened AbiPool

  // ---------- one number ----------

  predicate AllZero(b: seq<Byte>) { forall i :: 0 <= i < |b| ==> b[i] == 0 }

  /** `decode_uint256_u128` on the bytes of the reply. */
  function NumberReply(data: Bytes): Option<nat> {
    if |data| != 32 then None
    else if !AllZero(data[..16]) then Some(U128 - 1)
    else Some(Number(data[16..]))
  }

  /** `decode_uint256_u128`. */
  function DecodeUint256(hex: string): Option<nat> {
    match FromHex(StripPrefix(hex, "0x"))
    case None => None
    case Some(data) => NumberReply(data)
  }

  lemma {:induction false} ZeroMeansZeros(b: seq<Byte>)
    ensures Number(b) == 0 <==> AllZero(b)
  {
    if b != [] {
      var front, last := b[..|b| - 1], b[|b| - 1];
      ZeroMeansZeros(front);
      if AllZero(front) && last == 0 {
        forall i | 0 <= i < |b|
          ensures b[i] == 0
        {
          if i < |front| {
            assert b[i] == front[i];
          }
        }
      }
      if AllZero(b) {
        assert forall i :: 0 <= i < |front| ==> front[i] == b[i];
      }
    }
  }

  /** A wide word is its high part and its low part. */
  lemma {:induction false} WordSplits(n: nat, z: nat, k: nat)
    ensures BigEndian(n, z + k) == BigEndian(High(n, k), z) + BigEndian(n, k)
    decreases k
  {
    if k == 0 {
      assert BigEndian(n, z) + BigEndian(n, 0) == BigEndian(n, z);
    } else {
      WordSplits(n / 256, z, k - 1);
    }
  }

  lemma {:induction false} HighFits(n: nat, z: nat, k: nat)
    ensures Fits(n, z + k) ==> Fits(High(n, k), z)
    ensures Fits(n, k) <==> High(n, k) == 0
    decreases k
  {
    if k > 0 {
      HighFits(n / 256, z, k - 1);
    }
  }

  lemma FitsHalf(n: nat, k: nat)
    requires k == 16
    ensures Fits(n, k) <==> n < U128
  {
    Widths();
    FitsBelow(n, k);
  }

  lemma ReadSaturated(n: nat, k: nat)
    requires k == 16 && Fits(n, k + k)
    ensures DecodeUint256("0x" + ToHex(BigEndian(n, k + k))) == Some(if n < U128 then n else U128 - 1)
  {
    var data := BigEndian(n, k + k);
    HexOfReply(data);
    WordSplits(n, k, k);
    assert data[..k] == BigEndian(High(n, k), k) && data[k..] == BigEndian(n, k);
    HighFits(n, k, k);
    NumberOfBigEndian(High(n, k), k);
    ZeroMeansZeros(data[..k]);
    FitsHalf(n, k);
    if n < U128 {
      NumberOfBigEndian(n, k);
    }
  }

  /** A number that fits sixteen bytes is read exactly, a larger one as the greatest there is. */
  lemma DecodeUint256Saturates(n: nat)
    requires Fits(n, 32)
    ensures DecodeUint256("0x" + ToHex(BigEndian(n, 32)))
         == Some(if n < 0x1_0000_0000_0000_0000_0000_0000_0000_0000 then n
                 else 0xFFFF_FFFF_FFFF_FFFF_FFFF_FFFF_FFFF_FFFF)
  {
    var k := 16;
    ReadSaturated(n, k);
  }

  lemma {:induction false} NumberBelow(b: seq<Byte>)
    ensures Number(b) < Pow256(|b|)
  {
    if b != [] {
      NumberBelow(b[..|b| - 1]);
    }
  }

  /** The low half alone is what is left of a number when its high half is not looked at. */
  lemma {:induction false} NumberIsModulo(n: nat, k: nat)
    ensures Number(BigEndian(n, k)) + Pow256(k) * High(n, k) == n
  {
    if k > 0 {
      NumberIsModulo(n / 256, k - 1);
      assert BigEndian(n, k)[..k - 1] == BigEndian(n / 256, k - 1);
      Scaled(Pow256(k - 1), High(n, k));
    }
  }

  lemma Scaled(p: nat, h: nat)
    ensures (256 * p) * h == 256 * (p * h)
  {}

  // ---------- a provider's profile ----------

  datatype ProviderProfile = ProviderProfile(
    isRegistered: bool, stakeWei: nat, completed: nat, failed: nat, reputation: nat, active: nat, maxConcurrent: nat)

  /** `decode_provider_profile` on the bytes of the reply. */
  function ProfileReply(data: Bytes): Option<ProviderProfile> {
    if |data| < 32 * 7 then None
    else Some(ProviderProfile(data[31] != 0, LowBytes(data, 32, 16), LowBytes(data, 64, 8), LowBytes(data, 96, 8),
                              LowBytes(data, 128, 8), LowBytes(data, 160, 8), LowBytes(data, 192, 8)))
  }

  /** `decode_provider_profile`. */
  function DecodeProviderProfile(hex: string): Option<ProviderProfile> {
    match FromHex(StripPrefix(hex, "0x"))
    case None => None
    case Some(data) => ProfileReply(data)
  }

  predicate ProfileFits(p: ProviderProfile) {
    && p.stakeWei < U128 && p.completed < U64 && p.failed < U64 && p.reputation < U64 && p.active < U64
    && p.maxConcurrent < U64
  }

  function ProfileWords(p: ProviderProfile): seq<Value> {
    [ Uint(if p.isRegistered then 1 else 0), Uint(p.stakeWei), Uint(p.completed), Uint(p.failed), Uint(p.reputation),
      Uint(p.active), Uint(p.maxConcurrent) ]
  }

  lemma ProfileValid(p: ProviderProfile)
    requires ProfileFits(p)
    ensures AllValid(ProfileWords(p))
  {
    U8WordIsWord(if p.isRegistered then 1 else 0);
    FitsU128(p.stakeWei);
    FitsU64(p.completed);
    FitsU64(p.failed);
    FitsU64(p.reputation);
    FitsU64(p.active);
    FitsU64(p.maxConcurrent);
  }

  /** The `i`-th word of a profile's encoding holds its number. */
  lemma ProfileWord(p: ProviderProfile, i: nat, n: nat)
    requires AllValid(ProfileWords(p)) && i < 7 && ProfileWords(p)[i] == Uint(n)
    ensures At(Encode(ProfileWords(p)), 32 * i, BigEndian(n, 32))
    ensures |Encode(ProfileWords(p))| >= 224
  {
    EncodedParts(ProfileWords(p));
    HeadOf(Encode(ProfileWords(p)), ProfileWords(p), i);
  }

  lemma ProfileU64(p: ProviderProfile, i: nat, n: nat)
    requires AllValid(ProfileWords(p)) && i < 7 && ProfileWords(p)[i] == Uint(n) && n < U64
    ensures |Encode(ProfileWords(p))| >= 224 && LowBytes(Encode(ProfileWords(p)), 32 * i, 8) == n
  {
    ProfileWord(p, i, n);
    U64At(Encode(ProfileWords(p)), 32 * i, n);
  }

  lemma ProfileHead(p: ProviderProfile)
    requires AllValid(ProfileWords(p)) && p.stakeWei < U128
    ensures var data := Encode(ProfileWords(p));
            |data| >= 224 && (data[31] != 0 <==> p.isRegistered) && LowBytes(data, 32, 16) == p.stakeWei
  {
    ProfileWord(p, 0, if p.isRegistered then 1 else 0);
    U8At(Encode(ProfileWords(p)), 0, if p.isRegistered then 1 else 0);
    ProfileWord(p, 1, p.stakeWei);
    U128At(Encode(ProfileWords(p)), 32, p.stakeWei);
  }

  /** `decode_provider_profile` is a left inverse of the canonical encoding, for every profile that fits its types. */
  lemma DecodeCanonicalProfile(p: ProviderProfile, reply: Bytes)
    requires ProfileFits(p)
    requires reply == Encode([ Uint(if p.isRegistered then 1 else 0), Uint(p.stakeWei), Uint(p.completed),
                               Uint(p.failed), Uint(p.reputation), Uint(p.active), Uint(p.maxConcurrent) ])
    ensures DecodeProviderProfile("0x" + ToHex(reply)) == Some(p)
  {
    ProfileValid(p);
    ProfileHead(p);
    ProfileU64(p, 2, p.completed);
    ProfileU64(p, 3, p.failed);
    ProfileU64(p, 4, p.reputation);
    ProfileU64(p, 5, p.active);
    ProfileU64(p, 6, p.maxConcurrent);
    HexOfReply(Encode(ProfileWords(p)));
  }

  lemma StakeRemainder(data: Bytes, n: nat, k: nat)
    requires k == 16 && At(data, 32, BigEndian(n, k + k)) && |data| >= 224
    ensures ProfileReply(data).Some? && ProfileReply(data).value.stakeWei + U128 * High(n, k) == n
    ensures ProfileReply(data).value.stakeWei < U128
  {
    WordSplits(n, k, k);
    AtSplit(data, 32, BigEndian(High(n, k), k), BigEndian(n, k));
    AtSlice(data, 32 + k, BigEndian(n, k));
    NumberIsModulo(n, k);
    NumberBelow(data[48..64]);
    Widths();
  }

  /**
   The two readers differ on numbers of more than sixteen bytes: the profile keeps the remainder of division by 2 to the
   128, where the other gives the greatest number there is.  The stake is read as it is if and only if it fits.
   */
  lemma ProfileStakeWraps(data: Bytes, n: nat)
    requires At(data, 32, BigEndian(n, 32)) && |data| >= 224
    ensures ProfileReply(data).Some? && ProfileReply(data).value.stakeWei == n % U128
    ensures ProfileReply(data).value.stakeWei == n <==> n < U128
  {
    var k := 16;
    StakeRemainder(data, n, k);
    Remainder(ProfileReply(data).value.stakeWei, High(n, k), n);
  }

  lemma Remainder(low: nat, high: nat, n: nat)
    requires low < U128 && low + U128 * high == n
    ensures low == n % U128 && (low == n <==> n < U128)
  {}
}
