/** The OptionSet operations SnapKit uses, as bit operations on a 64-bit UInt. */
module BitSets {
  type Mask = bv64

  predicate Contains(m: Mask, n: Mask) {
    m & n == n
  }

  function Union(m: Mask, n: Mask): Mask {
    m | n
  }

  /** At most one bit is set. */
  predicate OneBit(b: Mask) {
    b & (b - 1) == 0
  }

  // Each fact is proved on the operators first; the solver does not see through the predicates cheaply.

  lemma RawUnionOnOneBit(m: Mask, n: Mask, b: Mask)
    requires b & (b - 1) == 0
    ensures (m | n) & b == b <==> m & b == b || n & b == b
  {
  }

  lemma UnionOnOneBit(m: Mask, n: Mask, b: Mask)
    requires OneBit(b)
    ensures Contains(Union(m, n), b) <==> Contains(m, b) || Contains(n, b)
  {
    RawUnionOnOneBit(m, n, b);
  }

  lemma RawUnionContains(m: Mask, n: Mask, g: Mask)
    requires m & g == g || g == n
    ensures (m | n) & g == g
  {
  }

  lemma UnionContains(m: Mask, n: Mask, g: Mask)
    requires Contains(m, g) || g == n
    ensures Contains(Union(m, n), g)
  {
    RawUnionContains(m, n, g);
  }

  lemma UnionWithin(m: Mask, n: Mask, g: Mask)
    requires Contains(g, m) && Contains(g, n)
    ensures Contains(g, Union(m, n))
  {
  }

  lemma UnionBelow(m: Mask, n: Mask, limit: Mask)
    requires m < limit && n < limit && OneBit(limit)
    ensures Union(m, n) < limit
  {
  }

  lemma Antisymmetric(m: Mask, n: Mask)
    requires Contains(m, n) && Contains(n, m)
    ensures m == n
  {
  }

  /** Two masks below 2^20 that agree on the twenty low bits are equal. */
  lemma DeterminedByBits(m: Mask, n: Mask)
    requires m < 0x10_0000 && n < 0x10_0000
    requires Contains(m, 1) == Contains(n, 1) && Contains(m, 2) == Contains(n, 2)
    requires Contains(m, 4) == Contains(n, 4) && Contains(m, 8) == Contains(n, 8)
    requires Contains(m, 16) == Contains(n, 16) && Contains(m, 32) == Contains(n, 32)
    requires Contains(m, 64) == Contains(n, 64) && Contains(m, 128) == Contains(n, 128)
    requires Contains(m, 256) == Contains(n, 256) && Contains(m, 512) == Contains(n, 512)
    requires Contains(m, 1024) == Contains(n, 1024) && Contains(m, 2048) == Contains(n, 2048)
    requires Contains(m, 4096) == Contains(n, 4096) && Contains(m, 8192) == Contains(n, 8192)
    requires Contains(m, 16384) == Contains(n, 16384) && Contains(m, 32768) == Contains(n, 32768)
    requires Contains(m, 65536) == Contains(n, 65536) && Contains(m, 131072) == Contains(n, 131072)
    requires Contains(m, 262144) == Contains(n, 262144) && Contains(m, 524288) == Contains(n, 524288)
    ensures m == n
  {
  }

  lemma UnionNone(m: Mask)
    ensures Union(m, 0) == m
  {
  }

  lemma AggregateBits()
    ensures Union(1, Union(2, Union(4, 8))) == 15
    ensures Union(2, Union(8, Union(16, 32))) == 58
    ensures Union(64, 128) == 192
    ensures Union(256, 512) == 768
    ensures Union(4096, Union(8192, Union(16384, 32768))) == 61440
    ensures Union(16384, Union(32768, Union(65536, 131072))) == 245760
    ensures Union(262144, 524288) == 786432
  {
  }
}
