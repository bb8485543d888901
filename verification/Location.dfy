/** `AtomicVec::get_location`: where an index lives in the chunked vector. */
module Location {
  import opened Machine

  const CHUNKS: nat := 15

  /** First index of each chunk, as the source's lookup table lists them. */
  const STARTS: seq<nat> := [
    0, 32, 160, 672, 2720, 10912, 43680, 174752, 699040, 2796192,
    11184800, 44739232, 178956960, 715827872, 2863311520
  ]

  function Pow2(n: nat): (p: nat)
    ensures p >= 1
  {
    if n == 0 then 1 else 2 * Pow2(n - 1)
  }

  /** `32_usize << (k * 2)` */
  function ChunkCapacity(k: nat): nat {
    32 * Pow2(2 * k)
  }

  /** `leading_zeros` of an n-bit word. */
  function LeadingZeros(x: nat, bits: nat): nat
    requires x < Pow2(bits)
    ensures LeadingZeros(x, bits) <= bits
    ensures x > 0 ==> LeadingZeros(x, bits) < bits
  {
    if bits == 0 then 0
    else if x >= Pow2(bits - 1) then 0
    else 1 + LeadingZeros(x, bits - 1)
  }

  lemma {:induction false} LeadingZerosBrackets(x: nat, bits: nat)
    requires 0 < x < Pow2(bits)
    ensures Pow2(bits - 1 - LeadingZeros(x, bits)) <= x < 2 * Pow2(bits - 1 - LeadingZeros(x, bits))
  {
    if x < Pow2(bits - 1) {
      LeadingZerosBrackets(x, bits - 1);
    }
  }

  lemma {:induction false} Pow2Mono(a: nat, b: nat)
    requires a <= b
    ensures Pow2(a) <= Pow2(b)
  {
    if a < b {
      Pow2Mono(a, b - 1);
    }
  }

  lemma Pow2Of64()
    ensures Pow2(64) == 0x1_0000_0000_0000_0000
    ensures Pow2(30) == 0x4000_0000
  {
    assert Pow2(8) == 256;
    assert Pow2(16) == 0x1_0000;
    assert Pow2(24) == 0x100_0000;
    assert Pow2(30) == 0x4000_0000;
    assert Pow2(32) == 0x1_0000_0000;
    assert Pow2(40) == 0x100_0000_0000;
    assert Pow2(48) == 0x1_0000_0000_0000;
    assert Pow2(56) == 0x100_0000_0000_0000;
  }

  /** The chunk the log2 formula selects. */
  function ChunkIndex(idx: u32): nat {
    Pow2Of64();
    (63 - LeadingZeros(3 * idx / 32 + 1, 64)) / 2
  }

  /** `get_location`: the subtraction below is the source's u32 subtraction, which must not underflow. */
  function GetLocation(idx: u32): (loc: (nat, nat))
    ensures loc.0 < CHUNKS
    ensures STARTS[loc.0] <= idx < STARTS[loc.0] + ChunkCapacity(loc.0)
    ensures loc.1 == idx - STARTS[loc.0]
  {
    ChunkIndexBrackets(idx);
    var chunk := ChunkIndex(idx);
    (chunk, idx - STARTS[chunk])
  }

  function ChunkOf(idx: u32): (chunk: nat)
    ensures chunk < CHUNKS
  {
    GetLocation(idx).0
  }

  /** The lookup table is the closed form 32 * (4^k - 1) / 3 of the chunk sizes' running sum. */
  lemma {:induction false} StartsTable(k: nat)
    requires k < CHUNKS
    ensures 3 * STARTS[k] == 32 * (Pow2(2 * k) - 1)
    ensures k + 1 < CHUNKS ==> STARTS[k + 1] == STARTS[k] + ChunkCapacity(k)
    ensures k + 1 == CHUNKS ==> STARTS[k] + ChunkCapacity(k) >= WORD
  {
    hide Pow2;
    if k == 0 {
      PowerOfFour(0);
    } else {
      StartsTable(k - 1);
      PowerOfFour(k - 1);
    }
  }

  lemma PowerOfFour(k: nat)
    ensures Pow2(2 * (k + 1)) == 4 * Pow2(2 * k) && Pow2(0) == 1
  {
    assert Pow2(2 * k + 1) == 2 * Pow2(2 * k);
  }

  /** The source's derivation: floor(3 * idx / 32) + 1 lies in [4^k, 4^(k+1)) exactly for chunk k. */
  lemma BracketArithmetic(idx: nat, power: nat, start: nat)
    requires 3 * start == 32 * (power - 1)
    ensures start <= idx < start + 32 * power <==> power <= 3 * idx / 32 + 1 < 4 * power
  {
  }

  lemma Log2Brackets(val: nat, bits: nat)
    requires bits > 30
    requires 0 < val < Pow2(30)
    requires val < Pow2(bits)
    ensures LeadingZeros(val, bits) < bits
    ensures var k := (bits - 1 - LeadingZeros(val, bits)) / 2;
            k < CHUNKS && Pow2(2 * k) <= val < 4 * Pow2(2 * k)
  {
    LeadingZerosBrackets(val, bits);
    var log2 := bits - 1 - LeadingZeros(val, bits);
    var k := log2 / 2;
    if log2 >= 30 {
      Pow2Mono(30, log2);
    }
    Pow2Mono(2 * k, log2);
    Pow2Mono(log2, 2 * k + 1);
    assert Pow2(2 * k + 1) == 2 * Pow2(2 * k);
  }

  lemma InBracket(idx: u32, k: nat)
    requires k < CHUNKS && Pow2(2 * k) <= 3 * idx / 32 + 1 < 4 * Pow2(2 * k)
    ensures STARTS[k] <= idx < STARTS[k] + ChunkCapacity(k)
  {
    hide Pow2;
    StartsTable(k);
    BracketArithmetic(idx, Pow2(2 * k), STARTS[k]);
  }

  lemma ChunkIndexBrackets(idx: u32)
    ensures ChunkIndex(idx) < CHUNKS
    ensures STARTS[ChunkIndex(idx)] <= idx < STARTS[ChunkIndex(idx)] + ChunkCapacity(ChunkIndex(idx))
  {
    hide Pow2, LeadingZeros, ChunkCapacity;
    Pow2Of64();
    Log2Brackets(3 * idx / 32 + 1, 64);
    InBracket(idx, ChunkIndex(idx));
  }

  /** Indices beyond the start of a later chunk never fall into an earlier one. */
  lemma StartBelow(j: nat, idx: u32)
    requires j < ChunkOf(idx)
    ensures STARTS[j] + ChunkCapacity(j) <= idx
  {
    var k := ChunkOf(idx);
    StartsOrdered(j, k);
  }

  lemma {:induction false} StartsOrdered(j: nat, k: nat)
    requires j < k < CHUNKS
    ensures STARTS[j] + ChunkCapacity(j) <= STARTS[k]
    decreases k - j
  {
    StartsTable(j);
    if j + 1 < k {
      StartsOrdered(j + 1, k);
    }
  }

  /** Different indices are stored at different places. */
  lemma LocationInjective(a: u32, b: u32)
    requires GetLocation(a) == GetLocation(b)
    ensures a == b
  {
  }

  /** Every place whose index fits in 32 bits is the location of exactly that index. */
  lemma LocationSurjective(chunk: nat, offset: nat)
    requires chunk < CHUNKS && offset < ChunkCapacity(chunk)
    requires STARTS[chunk] + offset < WORD
    ensures GetLocation(STARTS[chunk] + offset) == (chunk, offset)
  {
    var k := ChunkOf(STARTS[chunk] + offset);
    if k < chunk {
      StartsOrdered(k, chunk);
    } else if chunk < k {
      StartsOrdered(chunk, k);
    }
  }
}
