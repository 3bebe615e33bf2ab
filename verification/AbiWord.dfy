/** Big-endian words of the Solidity ABI. */
module AbiWord {
  import opened Hex

  /** `n` can be written with `k` bytes. */
  predicate Fits(n: nat, k: nat) {
    if k == 0 then n == 0 else Fits(n / 256, k - 1)
  }

  /** The last `k` bytes of `n`, most significant first. */
  function BigEndian(n: nat, k: nat): (b: seq<Byte>)
    ensures |b| == k
  {
    if k == 0 then [] else BigEndian(n / 256, k - 1) + [n % 256]
  }

  function Number(b: seq<Byte>): nat {
    if b == [] then 0 else 256 * Number(b[..|b| - 1]) + b[|b| - 1]
  }

  function Zeros(k: nat): seq<Byte> {
    seq(k, i => 0)
  }

  /** `n` without its last `k` bytes. */
  function High(n: nat, k: nat): nat {
    if k == 0 then n else High(n / 256, k - 1)
  }

  /** Byte `i` from the end of a word, in terms of the number. */
  lemma {:induction false} ByteOfWord(n: nat, k: nat, i: nat)
    requires i < k
    ensures BigEndian(n, k)[k - 1 - i] == High(n, i) % 256
  {
    if i > 0 {
      ByteOfWord(n / 256, k - 1, i - 1);
    }
  }

  lemma {:induction false} NumberOfBigEndian(n: nat, k: nat)
    requires Fits(n, k)
    ensures Number(BigEndian(n, k)) == n
  {
    if k > 0 {
      NumberOfBigEndian(n / 256, k - 1);
      assert BigEndian(n, k)[..k - 1] == BigEndian(n / 256, k - 1);
    }
  }

  lemma {:induction false} FitsMore(n: nat, k: nat, m: nat)
    requires Fits(n, k) && k <= m
    ensures Fits(n, m)
    decreases m
  {
    if m > 0 {
      FitsMore(n / 256, if k == 0 then 0 else k - 1, m - 1);
    }
  }

  lemma {:induction false} FitsLess(n: nat, m: nat, k: nat)
    requires Fits(n, k) && m <= n
    ensures Fits(m, k)
    decreases k
  {
    if k > 0 {
      FitsLess(n / 256, m / 256, k - 1);
    }
  }

  lemma {:induction false} LeadingZero(n: nat, k: nat)
    requires Fits(n, k)
    ensures BigEndian(n, k + 1) == [0] + BigEndian(n, k)
  {
    if k > 0 {
      LeadingZero(n / 256, k - 1);
    }
  }

  /** A small number in a wide word is its short form after zeros. */
  lemma {:induction false} LeadingZeros(n: nat, k: nat, z: nat)
    requires Fits(n, k)
    ensures BigEndian(n, z + k) == Zeros(z) + BigEndian(n, k)
    decreases z
  {
    if z > 0 {
      LeadingZeros(n, k, z - 1);
      FitsMore(n, k, z - 1 + k);
      LeadingZero(n, z - 1 + k);
      assert [0] + Zeros(z - 1) == Zeros(z);
    } else {
      assert Zeros(0) + BigEndian(n, k) == BigEndian(n, k);
    }
  }

  // ---------- the integers of the source ----------

  const U8: nat := 0x100
  const U64: nat := 0x1_0000_0000_0000_0000
  const U128: nat := 0x1_0000_0000_0000_0000_0000_0000_0000_0000

  function Pow256(k: nat): nat {
    if k == 0 then 1 else 256 * Pow256(k - 1)
  }

  lemma {:induction false} FitsBelow(n: nat, k: nat)
    ensures Fits(n, k) <==> n < Pow256(k)
    decreases k
  {
    if k > 0 {
      FitsBelow(n / 256, k - 1);
    }
  }

  /** The fixed-width integers of the source are those of 1, 8 and 16 bytes. */
  lemma Widths()
    ensures Pow256(1) == U8 && Pow256(8) == U64 && Pow256(16) == U128
  {}
}
