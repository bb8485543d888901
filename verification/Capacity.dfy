/** What reserved capacity is worth: inserts that allocate nothing, up to the last usable index. */
module Capacity {
  import opened Machine
  import opened Location
  import opened Protocol
  import opened Invariant
  import opened Alone
  import opened Vec
  import opened SlotMap
  import L = Linearizability

  /** The map of the first `k` of `keys` added to `before`. */
  function Added(before: map<Key, Value>, keys: seq<Key>, values: seq<Value>, k: nat): map<Key, Value>
    requires k <= |keys| && k <= |values|
  {
    if k == 0 then before else Added(before, keys, values, k - 1)[keys[k - 1] := values[k - 1]]
  }

  /** Between calls, `m` holds what the first `k` inserts put there, nothing lingers, and there is room. */
  ghost predicate Filling(m: AtomicSlotMap, before: map<Key, Value>, keys: seq<Key>, values: seq<Value>, chunks: set<nat>)
    requires |keys| <= |values|
    reads m, m.vec, m.vec.chunks, m.vec.repr
  {
    && m.Valid() && NothingLingers(m.sys.c.slots)
    && m.Contents() == Added(before, keys, values, |keys|)
    && |m.Contents()| == |before| + |keys|
    && m.Chunks() == chunks
  }

  lemma FullAt(m: AtomicSlotMap)
    requires m.Valid() && NothingLingers(m.sys.c.slots)
    ensures |m.Contents()| <= 0xFFFF_FFFF
    ensures m.Full() <==> |m.Contents()| == 0xFFFF_FFFF
    ensures ChunkOf(m.NextSlot().idx) in m.Chunks() <==> |m.Contents()| < m.Room()
  {
    hide Inv, Solo, L.Contents, AtomicSlotMap.SlotsMatch, ChunkOf, Leading, NextKey, InUse, NothingLingers;
    FullWhenAllOccupied(m.sys);
    InUseWhenNothingLingers(m.sys);
    m.NextFitsIff();
  }

  /**
   * Inserting within the capacity. While nothing lingers, as many inserts as there is room for allocate no
   * chunk and lose nothing. The one that finds 2^32 - 1 keys takes the sentinel's index, and only that one; the
   * length is 0 after it.
   */
  method InsertAll(m: AtomicSlotMap, values: seq<Value>, spurious: nat) returns (keys: seq<Key>)
    requires m.Valid() && NothingLingers(m.sys.c.slots)
    requires |m.Contents()| + |values| <= m.Room() && |m.Contents()| + |values| <= WORD
    modifies m`freeHead, m`numElems, m`sys, m.vec.repr
    ensures |keys| == |values| && m.vec.repr == old(m.vec.repr)
    ensures forall k :: 0 <= k < |keys| ==> keys[k] !in Added(old(m.Contents()), keys, values, k)
    ensures forall k :: 0 <= k < |keys| ==> (keys[k].idx == SENTINEL <==> old(|m.Contents()|) + k == 0xFFFF_FFFF)
    ensures old(|m.Contents()|) + |values| < WORD ==> Filling(m, old(m.Contents()), keys, values, old(m.Chunks()))
    ensures old(|m.Contents()|) + |values| == WORD && values != [] ==> m.vec.len == 0
  {
    hide Inv, Solo, L.Contents, Leading, NextKey, AtomicSlotMap.SlotsMatch, NothingLingers, Added, Filling, CapacityBelow;
    ghost var before, chunks := m.Contents(), m.Chunks();
    keys := [];
    FillingBegun(m, values);
    while |keys| < |values|
      invariant |keys| <= |values| && m.vec.repr == old(m.vec.repr)
      invariant |before| + |keys| < WORD ==> Filling(m, before, keys, values, chunks)
      invariant |before| + |keys| == WORD && keys != [] ==> m.vec.len == 0
      invariant forall k :: 0 <= k < |keys| ==> keys[k] !in Added(before, keys, values, k)
      invariant forall k :: 0 <= k < |keys| ==> (keys[k].idx == SENTINEL <==> |before| + k == 0xFFFF_FFFF)
    {
      keys := InsertNext(m, before, keys, values, chunks, spurious);
    }
  }

  lemma FillingBegun(m: AtomicSlotMap, values: seq<Value>)
    requires m.Valid() && NothingLingers(m.sys.c.slots)
    ensures Filling(m, m.Contents(), [], values, m.Chunks()) && |m.Contents()| <= 0xFFFF_FFFF
  {
    hide Inv, Solo, L.Contents, Leading, AtomicSlotMap.SlotsMatch, NothingLingers;
    FullAt(m);
  }

  lemma AddedAlike(before: map<Key, Value>, keys: seq<Key>, more: seq<Key>, values: seq<Value>, k: nat)
    requires k <= |keys| <= |more| && k <= |values| && more[..|keys|] == keys
    ensures Added(before, more, values, k) == Added(before, keys, values, k)
  {
    if k > 0 {
      AddedAlike(before, keys, more, values, k - 1);
      assert more[k - 1] == more[..|keys|][k - 1];
    }
  }

  /** One of the inserts. */
  method InsertNext(
    m: AtomicSlotMap, ghost before: map<Key, Value>, keys: seq<Key>, values: seq<Value>, ghost chunks: set<nat>, spurious: nat)
    returns (more: seq<Key>)
    requires |keys| < |values| && |before| + |values| <= CapacityBelow(Leading(chunks, 0))
    requires Filling(m, before, keys, values, chunks)
    requires forall k :: 0 <= k < |keys| ==> keys[k] !in Added(before, keys, values, k)
    modifies m`freeHead, m`numElems, m`sys, m.vec.repr
    ensures |more| == |keys| + 1 && more[..|keys|] == keys && m.vec.repr == old(m.vec.repr)
    ensures forall k :: 0 <= k < |more| ==> more[k] !in Added(before, more, values, k)
    ensures more[|keys|].idx == SENTINEL <==> |before| + |keys| == 0xFFFF_FFFF
    ensures |before| + |keys| < 0xFFFF_FFFF ==> Filling(m, before, more, values, chunks)
    ensures |before| + |keys| == 0xFFFF_FFFF ==> m.vec.len == 0
  {
    hide Inv, Solo, L.Contents, Leading, NextKey, AtomicSlotMap.SlotsMatch, NothingLingers, Added, CapacityBelow, ChunkOf, Alone.References, InUse, Leaks;
    FullAt(m);
    var key := m.Insert(values[|keys|], spurious);
    more := keys + [key];
    forall k | 0 <= k < |more| ensures more[k] !in Added(before, more, values, k) {
      AddedAlike(before, keys, more, values, k);
    }
    AddedAlike(before, keys, more, values, |keys|);
    AddedNext(before, more, values, |keys|);
  }

  lemma AddedNext(before: map<Key, Value>, keys: seq<Key>, values: seq<Value>, k: nat)
    requires k < |keys| && k < |values|
    ensures Added(before, keys, values, k + 1) == Added(before, keys, values, k)[keys[k] := values[k]]
    ensures keys[k] !in Added(before, keys, values, k) ==>
              |Added(before, keys, values, k + 1)| == |Added(before, keys, values, k)| + 1
  {
  }

  /**
   * `reserve`, then inserts. Reserving room for some values and then inserting them allocates no chunk after
   * the reservation: the chunks at the end are the ones there were and those of the first indices wanted.
   */
  method ReserveThenInsert(m: AtomicSlotMap, values: seq<Value>, spurious: nat) returns (keys: seq<Key>, overflowed: bool)
    requires m.Valid() && NothingLingers(m.sys.c.slots) && |values| <= WORD
    modifies m`freeHead, m`numElems, m`sys, m.vec.repr
    ensures overflowed <==> old(|m.Contents()|) + |values| > WORD
    ensures overflowed ==> m.Valid() && m.Contents() == old(m.Contents())
    ensures !overflowed ==> |keys| == |values|
    ensures !overflowed ==> forall k :: 0 <= k < |keys| ==>
              && keys[k] !in Added(old(m.Contents()), keys, values, k)
              && (keys[k].idx == SENTINEL <==> old(|m.Contents()|) + k == 0xFFFF_FFFF)
    ensures old(|m.Contents()|) + |values| < WORD ==>
              Filling(m, old(m.Contents()), keys, values,
                      old(m.Chunks()) + Reaching(Max(old(m.vec.len), old(|m.Contents()|) + |values|)))
    ensures old(|m.Contents()|) + |values| == WORD && values != [] ==> m.vec.len == 0
  {
    hide Inv, Solo, L.Contents, Leading, NextKey, AtomicSlotMap.SlotsMatch, NothingLingers, Added, Filling, Reaching, Leaks, Wrap64, CapacityBelow;
    keys := [];
    Fits64(|m.Contents()| + |values|);
    m.VecValid(m.sys.c.slots, m.sys.c.chunks.Keys);
    FullAt(m);
    overflowed := m.Reserve(|values|);
    if !overflowed {
      ghost var reserved := m.vec.repr;
      keys := InsertAll(m, values, spurious);
      assert m.vec.repr == reserved;
    }
  }

  /** `with_capacity`, then inserts: nothing is allocated after the map was made. */
  method WithCapacityThenInsert(capacity: u64, values: seq<Value>, spurious: nat) returns (m: Option<AtomicSlotMap>, keys: seq<Key>)
    requires |values| <= capacity && |values| < WORD
    ensures m.None? <==> capacity > WORD
    ensures m.Some? ==> |keys| == |values| && Filling(m.value, map[], keys, values, Reaching(capacity))
    ensures m.Some? ==> forall k :: 0 <= k < |keys| ==> keys[k] !in Added(map[], keys, values, k)
  {
    hide Inv, Solo, L.Contents, Leading, NextKey, AtomicSlotMap.SlotsMatch, NothingLingers, Added, Filling, Reaching, Leaks, Wrap64, CapacityBelow;
    keys := [];
    m := AtomicSlotMap.WithCapacity(capacity);
    if m.Some? {
      ghost var made := m.value.vec.repr;
      m.value.VecValid(m.value.sys.c.slots, m.value.sys.c.chunks.Keys);
      keys := InsertAll(m.value, values, spurious);
      assert m.value.vec.repr == made;
    }
  }

  // --------------------------------------------------------------------------------------------
  // Values that linger take room
  // --------------------------------------------------------------------------------------------

  /** An empty map of one chunk, of whose slots `k` are held by guards. */
  ghost predicate Hoarded(m: AtomicSlotMap, k: nat)
    reads m, m.vec, m.vec.chunks, m.vec.repr
  {
    && m.Valid() && m.Contents() == map[] && m.Leaked() == NoLeaks()
    && |InUse(m.sys.c.slots)| == k && m.Chunks() == {0} && m.vec.len <= k
  }

  /** Insert a value and take a guard on it. */
  method Grab(m: AtomicSlotMap, k: nat, spurious: nat) returns (key: Key, guard: SlotGuard)
    requires Hoarded(m, k) && k < 32
    modifies m`freeHead, m`numElems, m`sys, m.vec.repr
    ensures m.Valid() && m.Contents() == map[key := 7] && m.Leaked() == NoLeaks() && m.Chunks() == {0} && m.vec.len <= k + 1
    ensures old(m.References(key.idx)) == 0
    ensures guard.home == m && guard.key == key && guard.gid !in old(m.Held())
    ensures m.Held() == old(m.Held())[guard.gid := Guard(key, 7)]
    ensures fresh(m.vec.repr - old(m.vec.repr)) && old(m.vec.repr) <= m.vec.repr
  {
    hide Inv, Solo, L.Contents, Leading, NextKey, AtomicSlotMap.SlotsMatch, NothingLingers, ChunkOf, Leaks, NoLeaks, InUse;
    hide Alone.References, Occupied;
    m.NextFitsIff();
    OneChunk();
    m.ReferencesAre(m.NextSlot().idx);
    key := m.Insert(7, spurious);
    m.ReferencesAre(key.idx);
    var got := m.Get(key, spurious);
    guard := got.guard;
  }

  /** Insert a value, take a guard on it, and remove its key. */
  method Hoard(m: AtomicSlotMap, k: nat, spurious: nat) returns (guard: SlotGuard)
    requires Hoarded(m, k) && k < 32
    modifies m`freeHead, m`numElems, m`sys, m.vec.repr
    ensures Hoarded(m, k + 1) && guard.home == m
    ensures guard.gid !in old(m.Held()) && m.Held() == old(m.Held())[guard.gid := Guard(guard.key, 7)]
    ensures fresh(m.vec.repr - old(m.vec.repr)) && old(m.vec.repr) <= m.vec.repr
  {
    hide Inv, Solo, L.Contents, Leading, NextKey, AtomicSlotMap.SlotsMatch, NothingLingers, ChunkOf, Leaks, NoLeaks, InUse;
    hide Alone.References, Occupied, Handles;
    ghost var before, held := m.sys.c.slots, m.Held();
    OnlyGuards(m);
    var key;
    key, guard := Grab(m, k, spurious);
    var removed := m.Remove(key, spurious);
    OnlyGuards(m);
    forall i: u32 ensures m.sys.c.slots[i].refs == before[i].refs + Bit(i == key.idx) {
      HandlesAdded(held, guard.gid, Guard(key, 7), i);
    }
    OneMoreInUse(before, m.sys.c.slots, key.idx);
  }

  lemma OnlyGuards(m: AtomicSlotMap)
    requires m.Valid() && m.Contents() == map[] && m.Leaked() == NoLeaks()
    ensures forall i: u32 :: m.References(i) == m.sys.c.slots[i].refs == |Handles(m.Held(), i)|
  {
    hide Inv, Solo, L.Contents, AtomicSlotMap.SlotsMatch, Leaks, Alone.References;
    forall i: u32 ensures m.References(i) == m.sys.c.slots[i].refs == |Handles(m.Held(), i)| {
      m.ReferencesAre(i);
    }
  }

  lemma OneChunk()
    ensures CapacityBelow(Leading({0}, 0)) == 32
  {
    assert Leading({0}, 0) == 1;
    assert CapacityBelow(1) == 32;
  }

  lemma OneMoreInUse(slots: Slots, slots': Slots, i: u32)
    requires slots[i].refs == 0 && forall j: u32 :: slots'[j].refs == slots[j].refs + Bit(j == i)
    ensures |InUse(slots')| == |InUse(slots)| + 1
  {
    assert InUse(slots') == InUse(slots) + {i};
  }

  /** A map made with room for 32 slots, in which 32 values were inserted and removed, one by one, while the
      guards on them stay: it has no key, and every slot is in use. */
  method HoldAll(spurious: nat) returns (m: AtomicSlotMap, guards: seq<SlotGuard>)
    ensures fresh(m) && fresh(m.vec.repr) && m.Valid() && m.vec in m.vec.repr && m.vec.chunks in m.vec.repr
    ensures m.Contents() == map[] && m.Room() == 32 && m.Chunks() == {0} && m.vec.len <= 32
    ensures |guards| == 32 && |InUse(m.sys.c.slots)| == 32
    ensures forall j :: 0 <= j < 32 ==> guards[j].home == m && guards[j].Alive()
  {
    hide Inv, Solo, L.Contents, Leading, NextKey, AtomicSlotMap.SlotsMatch, NothingLingers, ChunkOf, Leaks, NoLeaks, InUse, Hoarded;
    hide Alone.References, Reaching;
    var made := AtomicSlotMap.WithCapacity(32);
    m := made.value;
    guards := [];
    HoardBegun(m);
    m.VecValid(m.sys.c.slots, m.sys.c.chunks.Keys);
    while |guards| < 32
      invariant |guards| <= 32 && fresh(m) && fresh(m.vec.repr) && Hoarded(m, |guards|)
      invariant forall j :: 0 <= j < |guards| ==>
                  && guards[j].home == m && guards[j].gid in m.Held() && m.Held()[guards[j].gid].key == guards[j].key
    {
      var guard := Hoard(m, |guards|, spurious);
      guards := guards + [guard];
    }
    HoardFull(m);
  }

  /** An insert into a map whose slots in use are as many as it has room for allocates a chunk. */
  method InsertAllocates(m: AtomicSlotMap, spurious: nat) returns (key: Key)
    requires m.Valid() && |InUse(m.sys.c.slots)| >= m.Room() && !m.Full()
    modifies m`freeHead, m`numElems, m`sys, m.vec.repr
    ensures m.Valid() && m.Contents() == old(m.Contents())[key := 7] && key !in old(m.Contents())
    ensures m.Held() == old(m.Held()) && m.Chunks() > old(m.Chunks())
  {
    hide Inv, Solo, L.Contents, Leading, NextKey, AtomicSlotMap.SlotsMatch, NothingLingers, ChunkOf, Leaks, InUse, CapacityBelow;
    hide Alone.References;
    m.NextFitsIff();
    key := m.Insert(7, spurious);
  }

  /**
   * "Will never allocate if it contains less keys than `capacity`" does not count the values that guards keep
   * after their keys were removed: with room for 32 slots and no key, the next insert allocates. `contents`,
   * `room` and `chunks` are of the moment before that insert.
   */
  method HeldValuesForceAllocation(spurious: nat)
    returns (m: AtomicSlotMap, guards: seq<SlotGuard>, ghost contents: map<Key, Value>, ghost room: nat, ghost chunks: set<nat>)
    ensures contents == map[] && room == 32 && chunks == {0}
    ensures m.Valid() && |m.Contents()| == 1 && m.Chunks() > chunks
    ensures |guards| == 32 && forall j :: 0 <= j < 32 ==> guards[j].home == m && guards[j].Alive()
  {
    hide Inv, Solo, L.Contents, Leading, NextKey, AtomicSlotMap.SlotsMatch, NothingLingers, ChunkOf, Leaks, InUse, CapacityBelow;
    hide Alone.References;
    m, guards := HoldAll(spurious);
    contents, room, chunks := m.Contents(), m.Room(), m.Chunks();
    NotFull(m);
    var key := InsertAllocates(m, spurious);
  }

  lemma NotFull(m: AtomicSlotMap)
    requires m.Valid() && m.vec.len <= 32
    ensures !m.Full()
  {
    hide Inv, Solo, L.Contents, AtomicSlotMap.SlotsMatch;
  }

  lemma HoardBegun(m: AtomicSlotMap)
    requires m.Valid() && m.Contents() == map[] && m.Leaked() == NoLeaks() && NothingLingers(m.sys.c.slots)
    requires m.Chunks() == Reaching(32) && m.vec.len == 0
    ensures Hoarded(m, 0)
  {
    hide Inv, Solo, L.Contents, AtomicSlotMap.SlotsMatch, Leaks, NoLeaks, InUse, NothingLingers;
    InUseWhenNothingLingers(m.sys);
    LocationSurjective(0, 31);
    assert UpTo(0) == {0};
  }

  lemma HoardFull(m: AtomicSlotMap)
    requires Hoarded(m, 32)
    ensures m.Valid() && m.Contents() == map[] && m.Chunks() == {0}
    ensures m.Room() == 32 && m.vec in m.vec.repr && m.vec.chunks in m.vec.repr && |InUse(m.sys.c.slots)| == 32 && m.vec.len <= 32
  {
    hide Inv, Solo, L.Contents, AtomicSlotMap.SlotsMatch, Leaks, NoLeaks, InUse, NextKey, ChunkOf, Leading;
    m.VecValid(m.sys.c.slots, m.sys.c.chunks.Keys);
    OneChunk();
  }
}
