/** `AtomicVec` as one thread runs it. */
module Vec {
  import opened Machine
  import opened Location
  import opened Protocol
  import opened SlotCells

  datatype ChunkPtr = Null | Chunk(slots: seq<SlotCell>)

  /** Capacity of the chunks below `k`: where chunk `k` starts. */
  function CapacityBelow(k: nat): nat {
    if k == 0 then 0 else CapacityBelow(k - 1) + ChunkCapacity(k - 1)
  }

  lemma {:induction false} CapacityIsStart(k: nat)
    requires k < CHUNKS
    ensures CapacityBelow(k) == STARTS[k]
  {
    if k > 0 {
      CapacityIsStart(k - 1);
      StartsTable(k - 1);
    }
  }

  function UpTo(last: nat): (chunks: set<nat>)
    ensures forall k: nat :: k in chunks <==> k <= last
  {
    if last == 0 then {0} else UpTo(last - 1) + {last}
  }

  /** The first chunk from `k` on that does not exist. */
  function Leading(present: set<nat>, k: nat): (n: nat)
    requires k <= CHUNKS
    ensures k <= n <= CHUNKS
    ensures forall j :: k <= j < n ==> j in present
    ensures n < CHUNKS ==> n !in present
    decreases CHUNKS - k
  {
    if k < CHUNKS && k in present then Leading(present, k + 1) else k
  }

  class AtomicVec {
    const chunks: array<ChunkPtr>
    var len: u32
    ghost var repr: set<object>

    ghost predicate Shaped()
      reads this, chunks
    {
      && this in repr && chunks in repr
      && chunks.Length == CHUNKS
      && (forall k :: 0 <= k < CHUNKS && chunks[k].Chunk? ==> |chunks[k].slots| == ChunkCapacity(k))
      && (forall k, i :: 0 <= k < CHUNKS && chunks[k].Chunk? && 0 <= i < |chunks[k].slots| ==> chunks[k].slots[i] in repr)
    }

    /** Different places hold different slots. */
    ghost predicate Separate()
      reads this, chunks
    {
      chunks.Length == CHUNKS
      && forall k, i, l, j |
           && 0 <= k < CHUNKS && chunks[k].Chunk? && 0 <= i < |chunks[k].slots|
           && 0 <= l < CHUNKS && chunks[l].Chunk? && 0 <= j < |chunks[l].slots|
           && chunks[k].slots[i] == chunks[l].slots[j]
           :: k == l && i == j
    }

    ghost predicate Valid()
      reads this, chunks
    {
      Shaped() && Separate()
    }

    /** The chunk `idx` lives in exists. */
    ghost predicate Has(idx: u32)
      requires Valid()
      reads this, chunks
    {
      chunks[ChunkOf(idx)].Chunk?
    }

    ghost function At(idx: u32): (slot: SlotCell)
      requires Valid() && Has(idx)
      reads this, chunks
      ensures slot in repr
    {
      var (chunk, offset) := GetLocation(idx);
      chunks[chunk].slots[offset]
    }

    lemma AtInjective(a: u32, b: u32)
      requires Valid() && Has(a) && Has(b) && At(a) == At(b)
      ensures a == b
    {
      LocationInjective(a, b);
    }

    constructor New()
      ensures Valid() && fresh(repr) && len == 0
      ensures forall k :: 0 <= k < CHUNKS ==> chunks[k] == Null
    {
      var nulls := new ChunkPtr[15](_ => Null);
      chunks := nulls;
      len := 0;
      repr := {this, nulls};
    }

    /** `alloc_zeroed` of one chunk. */
    static method AllocZeroed(cap: nat) returns (slots: seq<SlotCell>)
      ensures |slots| == cap
      ensures forall i :: 0 <= i < cap ==> fresh(slots[i]) && slots[i].Reads() == ZEROED
      ensures forall i, j :: 0 <= i < j < cap ==> slots[i] != slots[j]
    {
      slots := [];
      while |slots| < cap
        invariant |slots| <= cap
        invariant forall i :: 0 <= i < |slots| ==> fresh(slots[i]) && slots[i].Reads() == ZEROED
        invariant forall i, j :: 0 <= i < j < |slots| ==> slots[i] != slots[j]
      {
        var slot := new SlotCell.Zeroed();
        slots := slots + [slot];
      }
    }

    /** `ensure_chunk_exists`: an existing chunk is kept; a missing one becomes a block of zeroed slots. */
    method EnsureChunkExists(chunk: nat)
      requires Valid() && chunk < CHUNKS
      modifies this`repr, chunks
      ensures Valid() && fresh(repr - old(repr)) && old(repr) <= repr
      ensures chunks[chunk].Chunk? && (old(chunks[chunk].Chunk?) ==> repr == old(repr))
      ensures forall k :: 0 <= k < CHUNKS && (k != chunk || old(chunks[k].Chunk?)) ==> chunks[k] == old(chunks[k])
      ensures old(chunks[chunk].Null?) ==>
                forall i :: 0 <= i < |chunks[chunk].slots| ==> fresh(chunks[chunk].slots[i]) && chunks[chunk].slots[i].Reads() == ZEROED
    {
      if chunks[chunk].Chunk? {
        return;
      }
      var slots := AllocZeroed(ChunkCapacity(chunk));
      chunks[chunk] := Chunk(slots);
      repr := repr + set i | 0 <= i < |slots| :: slots[i];
    }

    /** `push_zeroed`; at 2^32 - 1 the index is the sentinel and the length wraps to 0. */
    method PushZeroed() returns (idx: u32)
      requires Valid()
      modifies this`len, this`repr, chunks
      ensures Valid() && fresh(repr - old(repr)) && old(repr) <= repr
      ensures idx == old(len) && len == Wrap(idx + 1) && Has(idx)
      ensures old(Has(len)) ==> repr == old(repr)
      ensures forall k :: 0 <= k < CHUNKS && (k != ChunkOf(idx) || old(chunks[k].Chunk?)) ==> chunks[k] == old(chunks[k])
      ensures old(chunks[ChunkOf(len)].Null?) ==>
                forall i :: 0 <= i < |chunks[ChunkOf(idx)].slots| ==>
                  fresh(chunks[ChunkOf(idx)].slots[i]) && chunks[ChunkOf(idx)].slots[i].Reads() == ZEROED
    {
      idx := len;
      len := Wrap(len + 1);
      var location := GetLocation(idx);
      EnsureChunkExists(location.0);
    }

    /** `get_unchecked`: run alone, `wait_for_chunk` finds the chunk at its first load. */
    method GetUnchecked(idx: u32) returns (slot: SlotCell)
      requires Valid() && Has(idx)
      ensures slot == At(idx)
    {
      var (chunk, offset) := GetLocation(idx);
      slot := chunks[chunk].slots[offset];
    }

    /** `get` */
    method Get(idx: u32) returns (slot: Option<SlotCell>)
      requires Valid() && (idx < len ==> Has(idx))
      ensures slot == if idx < len then Some(At(idx)) else None
    {
      if idx >= len {
        return None;
      }
      var found := GetUnchecked(idx);
      return Some(found);
    }

    /** `reserve`: every chunk up to the one of the last index wanted exists afterwards. */
    method Reserve(additional: u64) returns (overflowed: bool)
      requires Valid()
      modifies this`repr, chunks
      ensures Valid() && fresh(repr - old(repr)) && old(repr) <= repr
      ensures overflowed <==> Wrap64(len + additional) > WORD
      ensures overflowed || Wrap64(len + additional) == 0 ==> forall k :: 0 <= k < CHUNKS ==> chunks[k] == old(chunks[k])
      ensures forall k :: 0 <= k < CHUNKS && old(chunks[k].Chunk?) ==> chunks[k] == old(chunks[k])
      ensures var target := Wrap64(len + additional);
              0 < target <= WORD ==>
                && (forall k :: 0 <= k <= ChunkOf(target - 1) ==> chunks[k].Chunk?)
                && (forall k :: ChunkOf(target - 1) < k < CHUNKS ==> chunks[k] == old(chunks[k]))
      ensures forall k, i :: 0 <= k < CHUNKS && old(chunks[k].Null?) && chunks[k].Chunk? && 0 <= i < |chunks[k].slots| ==>
                fresh(chunks[k].slots[i]) && chunks[k].slots[i].Reads() == ZEROED
    {
      hide ChunkCapacity, Separate, Wrap64;
      var target := Wrap64(len + additional);
      if target == 0 {
        return false;
      }
      if target - 1 >= WORD {
        return true;
      }
      var last := GetLocation(target - 1).0;
      for chunk := 0 to last + 1
        invariant Valid() && fresh(repr - old(repr)) && old(repr) <= repr
        invariant forall k :: 0 <= k < chunk ==> chunks[k].Chunk?
        invariant forall k :: chunk <= k < CHUNKS ==> chunks[k] == old(chunks[k])
        invariant forall k :: 0 <= k < CHUNKS && old(chunks[k].Chunk?) ==> chunks[k] == old(chunks[k])
        invariant forall k, i :: 0 <= k < CHUNKS && old(chunks[k].Null?) && chunks[k].Chunk? && 0 <= i < |chunks[k].slots| ==>
                    fresh(chunks[k].slots[i]) && chunks[k].slots[i].Reads() == ZEROED
      {
        EnsureChunkExists(chunk);
      }
      return false;
    }

    /** The chunks that exist. */
    ghost function Present(): set<nat>
      requires chunks.Length == CHUNKS
      reads this, chunks
    {
      set k | 0 <= k < CHUNKS && chunks[k].Chunk?
    }

    /** `capacity`: the chunks before the first missing one, whole. */
    method Capacity() returns (total: nat)
      requires Valid()
      ensures total == CapacityBelow(Leading(Present(), 0))
      ensures forall idx: u32 :: idx < total ==> Has(idx)
    {
      hide ChunkCapacity, Separate;
      total := 0;
      var i := 0;
      while i < chunks.Length && chunks[i].Chunk?
        invariant 0 <= i <= CHUNKS
        invariant Leading(Present(), i) == Leading(Present(), 0)
        invariant total == CapacityBelow(i)
      {
        total := total + ChunkCapacity(i);
        i := i + 1;
      }
      forall idx: u32 | idx < total ensures Has(idx) {
        WithinCapacity(Present(), idx);
      }
    }

    /** The second loop of `drop`: each chunk that exists is freed once, with the size it was allocated with. */
    method FreeChunks() returns (freed: seq<(nat, nat)>)
      requires Valid()
      ensures forall i, j :: 0 <= i < j < |freed| ==> freed[i].0 < freed[j].0
      ensures forall k :: 0 <= k < CHUNKS ==> (chunks[k].Chunk? <==> exists i :: 0 <= i < |freed| && freed[i].0 == k)
      ensures forall i :: 0 <= i < |freed| ==>
                freed[i].0 < CHUNKS && chunks[freed[i].0].Chunk? && freed[i].1 == |chunks[freed[i].0].slots|
    {
      hide ChunkCapacity, Separate;
      freed := [];
      for k := 0 to CHUNKS
        invariant forall i, j :: 0 <= i < j < |freed| ==> freed[i].0 < freed[j].0
        invariant forall i :: 0 <= i < |freed| ==>
                    freed[i].0 < k && chunks[freed[i].0].Chunk? && freed[i].1 == |chunks[freed[i].0].slots|
        invariant forall l :: 0 <= l < k && chunks[l].Chunk? ==> exists i :: 0 <= i < |freed| && freed[i].0 == l
      {
        if chunks[k].Chunk? {
          ghost var before := freed;
          freed := freed + [(k, ChunkCapacity(k))];
          assert freed[|before|].0 == k;
          assert forall i :: 0 <= i < |before| ==> freed[i] == before[i];
        }
      }
    }
  }

  /** An index below the capacity lies in a chunk that exists. */
  lemma WithinCapacity(present: set<nat>, idx: u32)
    requires idx < CapacityBelow(Leading(present, 0))
    ensures ChunkOf(idx) in present
  {
    var n := Leading(present, 0);
    var k := ChunkOf(idx);
    if k >= n {
      CapacityIsStart(n);
      if n < k {
        StartBelow(n, idx);
      }
    }
  }

  /** Reserving guarantees the capacity asked for. */
  lemma CapacityAfterReserve(present: set<nat>, target: nat)
    requires 0 < target <= WORD
    requires forall k :: 0 <= k <= ChunkOf(target - 1) ==> k in present
    ensures CapacityBelow(Leading(present, 0)) >= target
  {
    hide ChunkCapacity, Leading;
    var last := ChunkOf(target - 1);
    CapacityIsStart(last);
    assert CapacityBelow(last + 1) == STARTS[last] + ChunkCapacity(last);
    CapacityMono(last + 1, Leading(present, 0));
  }

  /** Only the fifteen chunks matter. */
  lemma {:induction false} LeadingAgrees(p: set<nat>, q: set<nat>, k: nat)
    requires k <= CHUNKS && forall j :: 0 <= j < CHUNKS ==> (j in p <==> j in q)
    ensures Leading(p, k) == Leading(q, k)
    decreases CHUNKS - k
  {
    if k < CHUNKS && k in p {
      LeadingAgrees(p, q, k + 1);
    }
  }

  /** More chunks, no less capacity. */
  lemma CapacityGrows(p: set<nat>, q: set<nat>)
    requires p <= q
    ensures CapacityBelow(Leading(p, 0)) <= CapacityBelow(Leading(q, 0))
  {
    var n, m := Leading(p, 0), Leading(q, 0);
    assert n <= m;
    CapacityMono(n, m);
  }

  lemma {:induction false} CapacityMono(j: nat, k: nat)
    requires j <= k
    ensures CapacityBelow(j) <= CapacityBelow(k)
  {
    if j < k {
      CapacityMono(j, k - 1);
    }
  }
}
