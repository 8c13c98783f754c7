/** The bit-packed frame headers of version 5 of the CQL binary protocol, with and without compression. */
module CassandraHeaders {
  import opened ByteOrder
  import opened Messages

  type Crc24 = x: int | 0 <= x < 0x100_0000
  type Crc32 = x: int | 0 <= x < 0x1_0000_0000

  /** PAYLOAD_SIZE_LIMIT, and one more than the largest length a 17-bit field holds. */
  const limit: nat := 0x2_0000

  /** Any two checksum functions; nothing depends on which. */
  datatype Checksums = Checksums(crc24: Bytes -> Crc24, crc32: Bytes -> Crc32)

  /** Any block compressor with its size bound. */
  datatype Lz4 = Lz4(compress: Bytes -> Bytes, decompress: (Bytes, nat) -> Option<Bytes>, maxOutput: nat -> nat)

  /** What the compressor owes: blocks decompress to what they were made from, and the bound is above the input. */
  ghost predicate Lawful(z: Lz4) {
    && (forall x: Bytes :: z.decompress(z.compress(x), |x|) == Some(x))
    && (forall n: nat :: z.maxOutput(n) > n)
  }

  datatype Codec = Plain(sums: Checksums) | Compressed(sums: Checksums, lz4: Lz4)

  // ---- packing fields with bitwise or -----------------------------------------------------

  function BitOr(a: nat, b: nat): (r: nat)
    decreases a + b
  {
    if a == 0 && b == 0 then 0
    else 2 * BitOr(a / 2, b / 2) + if a % 2 == 1 || b % 2 == 1 then 1 else 0
  }

  function Pow2(k: nat): (p: nat)
    ensures p > 0
  {
    if k == 0 then 1 else 2 * Pow2(k - 1)
  }

  lemma {:induction false} BitOrZero(b: nat)
    ensures BitOr(0, b) == b
  {
    if b != 0 {
      BitOrZero(b / 2);
    }
  }

  lemma {:induction false} BitOrSelf(a: nat)
    ensures BitOr(a, a) == a
  {
    if a != 0 {
      BitOrSelf(a / 2);
    }
  }

  /** Fields that do not overlap are simply added. */
  lemma {:induction false} BitOrDisjoint(a: nat, b: nat, k: nat)
    requires a < Pow2(k)
    ensures BitOr(a, b * Pow2(k)) == a + b * Pow2(k)
    decreases k
  {
    if k == 0 {
      BitOrZero(b);
    } else {
      var p := b * Pow2(k - 1);
      assert b * Pow2(k) == 2 * p by {
        calc {
          b * Pow2(k);
          b * (2 * Pow2(k - 1));
          2 * (b * Pow2(k - 1));
        }
      }
      BitOrDisjoint(a / 2, b, k - 1);
      if a == 0 && p == 0 {
      } else {
        assert 2 * p / 2 == p && 2 * p % 2 == 0;
      }
    }
  }

  lemma {:induction false} Powers()
    ensures Pow2(17) == 0x2_0000 && Pow2(34) == 0x4_0000_0000
  {
    assert Pow2(8) == 0x100;
    assert Pow2(16) == 0x1_0000;
    assert Pow2(24) == 0x100_0000;
    assert Pow2(32) == 0x1_0000_0000;
  }
}
