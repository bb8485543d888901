/** Machine words, packed words and keys. */
module Machine {

  const WORD: int := 0x1_0000_0000

  type u32 = x: int | 0 <= x < 0x1_0000_0000

  type u64 = x: int | 0 <= x < 0x1_0000_0000_0000_0000

  /** Index marking the end of the free list. */
  const SENTINEL: u32 := 0xFFFF_FFFF

  /** Reference counts above this make `acquire_guard` and `clone` panic. */
  const MAX_REFCOUNT: u32 := 0xFFFF_FF00

  /** `wrapping_add`, `wrapping_sub`, `fetch_add` and `fetch_sub` on a u32 reduce modulo 2^32. */
  function Wrap(x: int): u32 {
    x % 0x1_0000_0000
  }

  /** Addition of `usize` words, in a build that does not check for overflow. */
  function Wrap64(x: int): u64 {
    x % 0x1_0000_0000_0000_0000
  }

  lemma Fits64(x: nat)
    ensures x < 0x1_0000_0000_0000_0000 ==> Wrap64(x) == x
    ensures 0x1_0000_0000_0000_0000 <= x < 0x2_0000_0000_0000_0000 ==> Wrap64(x) == x - 0x1_0000_0000_0000_0000
  {
  }

  predicate Odd(x: int) {
    x % 2 == 1
  }

  /** `x | 1` */
  function OrOne(x: u32): u32 {
    if Odd(x) then x else x + 1
  }

  /** A client's key as `kd.idx()` and `kd.version()` read it: the version is forced odd. */
  datatype RawKey = RawKey(idx: u32, ver: u32)

  type Key = k: RawKey | Odd(k.ver) witness RawKey(0, 1)

  /** `KeyDataRead::{idx, version}` applied to any 64-bit key, forged or not. */
  function KeyFromFfi(ffi: u64): Key {
    RawKey(ffi % 0x1_0000_0000, OrOne(ffi / 0x1_0000_0000))
  }

  /** `KeyDataRead::new` */
  function KeyToFfi(idx: u32, ver: u32): u64 {
    ver * 0x1_0000_0000 + idx
  }

  /** `pack_free_head`: the two halves do not overlap, so `|` is `+`. */
  function PackFreeHead(tag: u32, idx: u32): u64 {
    tag * 0x1_0000_0000 + idx
  }

  /** `unpack_free_head` */
  function UnpackFreeHead(packed: u64): (u32, u32) {
    (packed / 0x1_0000_0000, packed % 0x1_0000_0000)
  }

  lemma UnpackPack(tag: u32, idx: u32)
    ensures UnpackFreeHead(PackFreeHead(tag, idx)) == (tag, idx)
  {
  }

  lemma KeyRoundTrip(idx: u32, ver: u32)
    requires Odd(ver)
    ensures KeyFromFfi(KeyToFfi(idx, ver)) == RawKey(idx, ver)
  {
  }
}
