/**
 * `AtomicSlotMap` and its guards as one thread runs them, in place, on slots in chunks. The ghost field
 * `sys` is the protocol state the heap stands for: between calls, the end of a run of the protocol in which
 * only that thread moved.
 */
module SlotMap {
  import opened Machine
  import opened Location
  import opened Protocol
  import opened Invariant
  import opened SlotCells
  import opened Vec
  import opened Alone
  import L = Linearizability
  import T = Touching

  /** What `f` returned. */
  datatype Outcome = Made(value: Value) | Declined(error: int)

  datatype Inserting = Stored(key: Key) | Failed(error: int)

  /** What `get` may answer; the last is the assertion on the count. */
  datatype Getting = Guarded(guard: SlotGuard) | Missing | TooMany

  /** A key of the map is on slot `i`. */
  ghost predicate Occupied(m: map<Key, Value>, i: u32) {
    exists key :: key in m && key.idx == i
  }

  lemma OccupiedIs(slots: Slots, i: u32)
    ensures Occupied(L.Contents(slots), i) <==> Odd(slots[i].ver)
  {
    hide L.Contents;
    if Odd(slots[i].ver) {
      L.InContents(slots, RawKey(i, slots[i].ver));
    }
    if key :| key in L.Contents(slots) && key.idx == i {
      L.InContents(slots, key);
    }
  }

  function Max(a: nat, b: nat): nat {
    if a > b then a else b
  }

  /** The chunks of the first `target` indices. */
  function Reaching(target: nat): set<nat> {
    if 0 < target <= WORD then UpTo(ChunkOf(target - 1)) else {}
  }

  function Rest(keys: seq<Key>): seq<Key> {
    if keys == [] then [] else keys[1..]
  }

  /** The protocol's `reserve`, alone, up to a target number of slots. */
  lemma SoloRoom(s: Sys, target: nat) returns (s': Sys)
    requires 0 < target <= WORD && Now(s).Idle?
    requires Inv(s) && Solo(s)
    ensures s'.c == s.c.(pcs := s'.c.pcs, chunks := s'.c.chunks, serial := s'.c.serial)
    ensures s'.c.chunks.Keys == s.c.chunks.Keys + UpTo(ChunkOf(target - 1))
    ensures var room, room' := CapacityBelow(Leading(s.c.chunks.Keys, 0)), CapacityBelow(Leading(s'.c.chunks.Keys, 0));
            room' >= target && room' >= room
    ensures NextKey(s') == NextKey(s) && FreeKeys(s') == FreeKeys(s) && Leaks(s') == Leaks(s) && Now(s').Idle?
    ensures Inv(s') && Solo(s')
  {
    hide Inv, Solo, L.Contents, Leading, ChunkOf, Leaks;
    var last := ChunkOf(target - 1);
    s' := SoloReserve(s, last);
    assert s'.c.chunks.Keys == s.c.chunks.Keys + UpTo(last);
    CapacityAfterReserve(s'.c.chunks.Keys, target);
    CapacityGrows(s.c.chunks.Keys, s'.c.chunks.Keys);
  }

  class AtomicSlotMap {
    const vec: AtomicVec
    var freeHead: u64
    var numElems: u32
    ghost var sys: Sys

    // ------------------------------------------------------------------------------------------
    // Heap and protocol
    // ------------------------------------------------------------------------------------------

    /** Every slot in an existing chunk reads as the protocol says; the others are still zeroed. */
    ghost predicate SlotsMatch(slots: Slots, chunks: set<nat>)
      reads vec, vec.chunks, vec.repr
    {
      && vec.Valid()
      && (forall k :: 0 <= k < CHUNKS ==> (vec.chunks[k].Chunk? <==> k in chunks))
      && (forall i: u32 :: vec.Has(i) ==> vec.At(i).Reads() == slots[i])
      && (forall i: u32 :: !vec.Has(i) ==> slots[i] == ZEROED)
    }

    /** The heap is what a protocol state says. */
    ghost predicate CoupledTo(c: Conf)
      reads this, vec, vec.chunks, vec.repr
    {
      && SlotsMatch(c.slots, c.chunks.Keys) && this !in vec.repr
      && freeHead == PackFreeHead(c.head.tag, c.head.idx)
      && numElems == c.count && vec.len == c.len
    }

    /** Between calls. */
    ghost predicate Valid()
      reads this, vec, vec.chunks, vec.repr
    {
      CoupledTo(sys.c) && Inv(sys) && Solo(sys) && Now(sys) == Idle
    }

    /** The map a caller sees. */
    ghost function Contents(): map<Key, Value>
      reads this
    {
      L.Contents(sys.c.slots)
    }

    /** The guards alive, with the keys and values they hold. */
    ghost function Held(): map<Gid, Guard>
      reads this
    {
      sys.c.guards
    }

    /** The keys the free slots have next, from the top of the free list. */
    ghost function Free(): seq<Key>
      reads this
    {
      FreeKeys(sys)
    }

    /** The counts leaked on each slot by clones that panicked. */
    ghost function Leaked(): seq<nat>
      reads this
    {
      Leaks(sys)
    }

    /** Record the protocol state the heap has arrived at. */
    ghost method Commit(g: Sys)
      requires CoupledTo(g.c) && Inv(g) && Solo(g) && Now(g) == Idle
      modifies this`sys
      ensures sys == g && Valid()
    {
      hide Inv, Solo;
      sys := g;
    }

    /** `with_key` */
    constructor New()
      ensures Valid() && fresh(vec.repr)
      ensures Contents() == map[] && Held() == map[] && Leaked() == NoLeaks()
      ensures vec.len == 0 && Chunks() == {} && NextSlot() == RawKey(0, 1) && Free() == [] && NothingLingers(sys.c.slots)
    {
      vec := new AtomicVec.New();
      freeHead := PackFreeHead(0, SENTINEL);
      numElems := 0;
      sys := Fresh();
      new;
      hide Inv, Solo, L.Contents, Leaks, NoLeaks, NothingLingers, PackFreeHead, Fresh, NextKey, ChunkOf, GetLocation;
      FreshSound();
      FreshBlank();
    }

    lemma SlotMatches(slots: Slots, chunks: set<nat>, i: u32)
      requires SlotsMatch(slots, chunks) && ChunkOf(i) in chunks
      ensures vec.Valid() && vec.Has(i) && vec.At(i).Reads() == slots[i]
    {
    }

    lemma VecValid(slots: Slots, chunks: set<nat>)
      requires SlotsMatch(slots, chunks)
      ensures vec.Valid() && vec in vec.repr && vec.chunks in vec.repr
    {
    }

    lemma SlotsDistinct(i: u32)
      requires vec.Valid() && vec.Has(i)
      ensures forall j: u32 :: j != i && vec.Has(j) ==> vec.At(j) != vec.At(i)
    {
      forall j: u32 | j != i && vec.Has(j) ensures vec.At(j) != vec.At(i) {
        if vec.At(j) == vec.At(i) {
          vec.AtInjective(i, j);
        }
      }
    }

    // ------------------------------------------------------------------------------------------
    // The free list
    // ------------------------------------------------------------------------------------------

    /** `compare_exchange_weak` on the packed head; it may fail for no reason where `mayFail` says so. */
    method ExchangeHeadWeak(current: u64, desired: u64, mayFail: bool) returns (ok: bool, seen: u64)
      modifies this`freeHead
      ensures seen == old(freeHead)
      ensures ok ==> old(freeHead) == current && freeHead == desired
      ensures !ok ==> freeHead == old(freeHead) && (old(freeHead) == current ==> mayFail)
    {
      var spurious: bool := *;
      seen := freeHead;
      ok := freeHead == current && !(mayFail && spurious);
      if ok {
        freeHead := desired;
      }
    }

    /** `pop_free_index`: the head of the list, whose link becomes the head under the next tag. */
    method PopFreeIndex(spurious: nat) returns (popped: Option<u32>)
      requires vec.Valid() && this !in vec.repr
      requires var idx := UnpackFreeHead(freeHead).1;
               idx != SENTINEL ==> vec.Has(idx) && vec.At(idx).refCount == 0 && !Odd(vec.At(idx).version)
      modifies this`freeHead
      ensures var (tag, idx) := old(UnpackFreeHead(freeHead));
              if idx == SENTINEL then popped == None && freeHead == old(freeHead)
              else popped == Some(idx) && freeHead == PackFreeHead(Wrap(tag + 1), vec.At(idx).nextFree)
    {
      var oldHead := freeHead;
      var budget := spurious;
      while true
        invariant freeHead == oldHead == old(freeHead)
        decreases budget
      {
        var (tag, idx) := UnpackFreeHead(oldHead);
        if idx == SENTINEL {
          return None;
        }
        var slot := vec.GetUnchecked(idx);
        var nextFree := slot.nextFree;
        var newHead := PackFreeHead(Wrap(tag + 1), nextFree);
        var ok, seen := ExchangeHeadWeak(oldHead, newHead, budget > 0);
        if ok {
          assert slot.refCount == 0 && slot.version % 2 == 0;
          return Some(idx);
        }
        oldHead := seen;
        budget := budget - 1;
      }
    }

    /** `push_free_index`: the slot links to the old head and becomes the head under the next tag. */
    method PushFreeIndex(idx: u32, spurious: nat, ghost slots: Slots, ghost chunks: set<nat>)
      requires SlotsMatch(slots, chunks) && this !in vec.repr && ChunkOf(idx) in chunks
      requires slots[idx].refs == 0 && !Odd(slots[idx].ver)
      modifies this`freeHead, vec.repr
      ensures vec.repr == old(vec.repr) && vec.len == old(vec.len) && vec.Valid() && UnpackFreeHead(freeHead).1 == idx
      ensures var (tag, head) := old(UnpackFreeHead(freeHead));
              && freeHead == PackFreeHead(Wrap(tag + 1), idx)
              && SlotsMatch(slots[idx := slots[idx].(next := head)], chunks)
    {
      hide PackFreeHead, UnpackFreeHead, Wrap, ChunkOf, AtomicVec.Shaped, AtomicVec.Separate;
      UnpackPack(Wrap(UnpackFreeHead(freeHead).0 + 1), idx);
      SlotMatches(slots, chunks, idx);
      SlotsDistinct(idx);
      var slot: SlotCell := vec.GetUnchecked(idx);
      assert slot.refCount == 0 && slot.version % 2 == 0;
      var oldHead := freeHead;
      var budget := spurious;
      var linked := false;
      while !linked
        invariant oldHead == old(freeHead)
        invariant if linked then freeHead == PackFreeHead(Wrap(UnpackFreeHead(oldHead).0 + 1), idx)
                  else freeHead == oldHead
        invariant linked ==> slot.nextFree == UnpackFreeHead(oldHead).1
        invariant slot.Reads() == slots[idx].(next := slot.nextFree)
        decreases !linked, budget
        modifies this`freeHead, slot`nextFree
      {
        var (tag, oldNextFree) := UnpackFreeHead(oldHead);
        slot.nextFree := oldNextFree;
        var newHead := PackFreeHead(Wrap(tag + 1), idx);
        var seen;
        linked, seen := ExchangeHeadWeak(oldHead, newHead, budget > 0);
        if !linked {
          oldHead := seen;
          budget := budget - 1;
        }
      }
    }

    /** `dec_ref_count`, seen from the protocol. */
    method LowerCount(idx: u32, ghost slots: Slots, ghost chunks: set<nat>) returns (needsDrop: bool)
      requires SlotsMatch(slots, chunks) && ChunkOf(idx) in chunks
      modifies vec.repr
      ensures vec.repr == old(vec.repr) && vec.len == old(vec.len) && freeHead == old(freeHead)
      ensures needsDrop <==> slots[idx].refs == 1
      ensures SlotsMatch(slots[idx := slots[idx].(refs := Wrap(slots[idx].refs - 1))], chunks)
    {
      hide Wrap, ChunkOf, AtomicVec.Shaped, AtomicVec.Separate;
      SlotMatches(slots, chunks, idx);
      SlotsDistinct(idx);
      var slot := vec.GetUnchecked(idx);
      needsDrop := slot.DecRefCount();
    }

    /** `drop_inner_value`, seen from the protocol. */
    method DropValue(idx: u32, ghost slots: Slots, ghost chunks: set<nat>)
      requires SlotsMatch(slots, chunks) && ChunkOf(idx) in chunks
      requires slots[idx].data.Live?
      modifies vec.repr
      ensures vec.repr == old(vec.repr) && vec.len == old(vec.len) && freeHead == old(freeHead)
      ensures SlotsMatch(slots[idx := slots[idx].(data := Dropped)], chunks)
    {
      hide ChunkOf, AtomicVec.Shaped, AtomicVec.Separate;
      SlotMatches(slots, chunks, idx);
      SlotsDistinct(idx);
      var slot := vec.GetUnchecked(idx);
      slot.DropInnerValue();
    }

    /** `dec_ref_count` and what every caller does with its answer: the last one out drops the value, then
        recycles the slot. */
    method Release(idx: u32, spurious: nat, ghost slots: Slots, ghost chunks: set<nat>)
      requires SlotsMatch(slots, chunks) && this !in vec.repr && ChunkOf(idx) in chunks
      requires slots[idx].refs == 1 ==> slots[idx].data.Live? && !Odd(slots[idx].ver)
      modifies this`freeHead, vec.repr
      ensures vec.repr == old(vec.repr) && vec.len == old(vec.len)
      ensures var (tag, head) := old(UnpackFreeHead(freeHead));
              && freeHead == (if slots[idx].refs == 1 then PackFreeHead(Wrap(tag + 1), idx) else old(freeHead))
              && SlotsMatch(slots[idx := Released(slots[idx], head)], chunks)
    {
      hide SlotsMatch, PackFreeHead, UnpackFreeHead, ChunkOf;
      var needsDrop := LowerCount(idx, slots, chunks);
      if needsDrop {
        ghost var lowered := slots[idx := slots[idx].(refs := 0)];
        assert lowered == slots[idx := slots[idx].(refs := Wrap(slots[idx].refs - 1))];
        DropValue(idx, lowered, chunks);
        ghost var dropped := slots[idx := slots[idx].(refs := 0, data := Dropped)];
        assert dropped == lowered[idx := lowered[idx].(data := Dropped)];
        PushFreeIndex(idx, spurious, dropped, chunks);
        assert forall head: u32 :: dropped[idx := dropped[idx].(next := head)] == slots[idx := Released(slots[idx], head)];
      }
    }

    // ------------------------------------------------------------------------------------------
    // Insert
    // ------------------------------------------------------------------------------------------

    /** The key the next insert will use: the head of the free list under its next version, or a new index. */
    ghost function NextSlot(): Key
      reads this
    {
      NextKey(sys)
    }

    /** No slot is free and every index but the sentinel was handed out. */
    ghost predicate Full()
      reads this
    {
      sys.c.head.idx == SENTINEL && sys.c.len == 0xFFFF_FFFF
    }

    /** The next key, and whether the map is full, by what a caller sees. */
    lemma NextSlotIs()
      requires Valid()
      ensures NextSlot() == if Free() == [] then RawKey(vec.len, 1) else Free()[0]
      ensures Full() <==> Free() == [] && vec.len == 0xFFFF_FFFF
    {
      hide Inv, Solo, SlotsMatch, PackFreeHead, NextKey;
      NextIsTop(sys);
      ListEmptyIff(sys);
    }

    lemma HeadReads()
      requires Valid()
      ensures vec.Valid()
      ensures UnpackFreeHead(freeHead) == (sys.c.head.tag, sys.c.head.idx)
      ensures var idx := sys.c.head.idx;
              idx != SENTINEL ==>
                && ChunkOf(idx) in sys.c.chunks && vec.Has(idx) && vec.At(idx).Reads() == sys.c.slots[idx]
                && vec.At(idx).refCount == 0 && !Odd(vec.At(idx).version)
    {
      hide Inv, PackFreeHead, UnpackFreeHead, ChunkOf;
      UnpackPack(sys.c.head.tag, sys.c.head.idx);
      HeadUnused(sys);
      if sys.c.head.idx != SENTINEL {
        SlotMatches(sys.c.slots, sys.c.chunks.Keys, sys.c.head.idx);
      }
    }

    /** `push_zeroed`, seen from the protocol. */
    method PushSlot(ghost slots: Slots, ghost chunks: set<nat>) returns (idx: u32)
      requires SlotsMatch(slots, chunks) && this !in vec.repr
      modifies vec`len, vec`repr, vec.chunks
      ensures SlotsMatch(slots, chunks + {ChunkOf(idx)})
      ensures fresh(vec.repr - old(vec.repr)) && old(vec.repr) <= vec.repr
      ensures idx == old(vec.len) && vec.len == if idx < 0xFFFF_FFFF then idx + 1 else 0
      ensures ChunkOf(idx) in chunks ==> vec.repr == old(vec.repr)
    {
      idx := vec.PushZeroed();
      forall i: u32 | vec.Has(i) ensures vec.At(i).Reads() == slots[i] {
        if old(vec.Has(i)) {
          assert vec.At(i) == old(vec.At(i));
        }
      }
    }

    /** What `capacity` answers: the chunks before the first missing one, whole. */
    ghost function Room(): nat
      reads this
    {
      CapacityBelow(Leading(Chunks(), 0))
    }

    /** The chunks that exist. */
    ghost function Chunks(): set<nat>
      reads this
    {
      sys.c.chunks.Keys
    }

    /** The chunk of the next slot exists already if and only if fewer slots are in use than there is room for. */
    lemma NextFitsIff()
      requires Valid()
      ensures ChunkOf(NextSlot().idx) in Chunks() <==> |InUse(sys.c.slots)| < Room()
    {
      hide Inv, Solo, SlotsMatch, PackFreeHead, ChunkOf, Leading, InUse, L.Contents;
      var s, chunks := sys, sys.c.chunks.Keys;
      IdlePartition(s);
      ListEmptyIff(s);
      if s.c.len > 0 {
        SoloPublished(s, s.c.len - 1);
        ChunksInOrder(s, ChunkOf(s.c.len - 1));
        CapacityAfterReserve(chunks, s.c.len);
      }
      if s.c.head.idx != SENTINEL {
        HeadUnused(s);
      } else if s.c.len < Room() {
        WithinCapacity(chunks, s.c.len);
      } else if ChunkOf(s.c.len) in chunks {
        ChunksInOrder(s, ChunkOf(s.c.len));
        CapacityAfterReserve(chunks, s.c.len + 1);
      }
    }

    /** The first half of `try_insert_with_key`: a slot off the free list, or a new one. */
    method TakeSlot(spurious: nat) returns (key: Key, ghost chunks: set<nat>)
      requires Valid()
      modifies this`freeHead, vec`len, vec`repr, vec.chunks
      ensures fresh(vec.repr - old(vec.repr)) && old(vec.repr) <= vec.repr && this !in vec.repr
      ensures key == NextKey(sys) && ChunkOf(key.idx) in chunks && SlotsMatch(sys.c.slots, chunks)
      ensures if sys.c.head.idx == SENTINEL then
                && chunks == sys.c.chunks.Keys + {ChunkOf(key.idx)} && freeHead == old(freeHead)
                && vec.len == if key.idx < 0xFFFF_FFFF then key.idx + 1 else 0
              else
                && chunks == sys.c.chunks.Keys && vec.len == old(vec.len)
                && freeHead == PackFreeHead(Wrap(sys.c.head.tag + 1), sys.c.slots[sys.c.head.idx].next)
      ensures ChunkOf(key.idx) in sys.c.chunks ==> vec.repr == old(vec.repr)
    {
      hide Inv, Solo, SlotsMatch, ChunkOf, PackFreeHead, UnpackFreeHead, Wrap, AtomicVec.Shaped, AtomicVec.Separate;
      HeadReads();
      chunks := sys.c.chunks.Keys;
      var popped := PopFreeIndex(spurious);
      var slotIdx: u32, curVersion: u32 := 0, 0;
      if popped.Some? {
        slotIdx := popped.value;
        var slot := vec.GetUnchecked(slotIdx);
        curVersion := slot.version;
      } else {
        slotIdx := PushSlot(sys.c.slots, chunks);
        chunks := chunks + {ChunkOf(slotIdx)};
      }
      key := RawKey(slotIdx, OrOne(curVersion));
    }

    /** The same, seen from the protocol. */
    method Allocate(spurious: nat) returns (key: Key, ghost g: Sys, ghost chunks: set<nat>)
      requires Valid()
      modifies this`freeHead, vec`len, vec`repr, vec.chunks
      ensures fresh(vec.repr - old(vec.repr)) && old(vec.repr) <= vec.repr && this !in vec.repr
      ensures key == NextKey(sys)
      ensures SlotsMatch(sys.c.slots, chunks) && ChunkOf(key.idx) in chunks
      ensures !Full() ==>
                && sys.c.slots == g.c.slots && chunks == g.c.chunks.Keys && CoupledTo(g.c)
                && Inv(g) && Solo(g) && Now(g) == InsCall(key) && g.c.guards == sys.c.guards && Leaks(g) == Leaks(sys)
                && vec.len == old(vec.len) + Bit(FreeKeys(sys) == []) && FreeKeys(g) == Rest(FreeKeys(sys))
      ensures Full() ==> vec.len == 0
      ensures chunks == sys.c.chunks.Keys + {ChunkOf(key.idx)}
      ensures ChunkOf(key.idx) in sys.c.chunks ==> vec.repr == old(vec.repr)
    {
      hide Inv, Solo, SlotsMatch, ChunkOf, PackFreeHead, UnpackFreeHead, Wrap, L.Contents, Room, NothingLingers, Leaks, FreeKeys;
      g := sys;
      if !Full() {
        g := SoloAllocate(sys);
      }
      key, chunks := TakeSlot(spurious);
    }

    /** The three stores of `try_insert_with_key`, and the count, seen from the protocol. */
    method StoreValue(key: Key, value: Value, ghost slots: Slots, ghost chunks: set<nat>)
      requires SlotsMatch(slots, chunks) && ChunkOf(key.idx) in chunks && this !in vec.repr
      requires slots[key.idx].refs == 0 && !Odd(slots[key.idx].ver)
      modifies this`numElems, vec.repr
      ensures vec.repr == old(vec.repr) && vec.len == old(vec.len) && vec.Valid() && numElems == Wrap(old(numElems) + 1)
      ensures SlotsMatch(slots[key.idx := Slot(Live(value), slots[key.idx].next, 1, key.ver)], chunks)
    {
      hide ChunkOf, AtomicVec.Shaped, AtomicVec.Separate, Wrap;
      SlotMatches(slots, chunks, key.idx);
      SlotsDistinct(key.idx);
      var slot := vec.GetUnchecked(key.idx);
      assert slot.refCount == 0 && slot.version % 2 == 0;
      slot.data := Live(value);
      slot.refCount := 1;
      slot.version := key.ver;
      numElems := Wrap(numElems + 1);
    }

    /** The closure returned a value: it is stored, counted, and published under its version. */
    method Publish(key: Key, value: Value, ghost g: Sys, ghost full: bool, ghost slots: Slots, ghost chunks: set<nat>)
      requires SlotsMatch(slots, chunks) && ChunkOf(key.idx) in chunks && this !in vec.repr
      requires slots[key.idx].refs == 0 && !Odd(slots[key.idx].ver)
      requires !full ==>
                 && slots == g.c.slots && chunks == g.c.chunks.Keys && CoupledTo(g.c)
                 && Inv(g) && Solo(g) && Now(g) == InsCall(key)
      modifies this`numElems, this`sys, vec.repr
      ensures vec.repr == old(vec.repr) && vec.len == old(vec.len) && vec.Valid()
      ensures !full ==>
                && Valid() && Held() == g.c.guards && Leaked() == Leaks(g) && sys.c.chunks == g.c.chunks
                && Contents() == L.Contents(slots)[key := value] && Free() == FreeKeys(g)
                && (NothingLingers(slots) ==> NothingLingers(sys.c.slots))
    {
      hide Inv, Solo, SlotsMatch, PackFreeHead, Wrap, ChunkOf, L.Contents, Leaks, FreeKeys;
      ghost var g' := g;
      if !full {
        g' := SoloStore(g, key, value);
      }
      StoreValue(key, value, slots, chunks);
      if !full {
        Commit(g');
      }
    }

    /** The closure declined: the slot goes back. */
    method GiveBack(key: Key, spurious: nat, ghost g: Sys, ghost full: bool, ghost slots: Slots, ghost chunks: set<nat>)
      requires SlotsMatch(slots, chunks) && ChunkOf(key.idx) in chunks && this !in vec.repr
      requires slots[key.idx].refs == 0 && !Odd(slots[key.idx].ver)
      requires !full ==>
                 && slots == g.c.slots && chunks == g.c.chunks.Keys && CoupledTo(g.c)
                 && Inv(g) && Solo(g) && Now(g) == InsCall(key)
      modifies this`freeHead, this`sys, vec.repr
      ensures vec.repr == old(vec.repr) && vec.len == old(vec.len) && vec.Valid()
      ensures UnpackFreeHead(freeHead).1 == key.idx
      ensures !full ==>
                && Valid() && Held() == g.c.guards && Leaked() == Leaks(g) && sys.c.chunks == g.c.chunks
                && Contents() == L.Contents(slots) && NextSlot() == key && Free() == [key] + FreeKeys(g)
                && (NothingLingers(slots) ==> NothingLingers(sys.c.slots))
    {
      hide Inv, Solo, SlotsMatch, PackFreeHead, UnpackFreeHead, Wrap, ChunkOf, L.Contents, Leaks, NextKey, FreeKeys;
      ghost var g' := g;
      if !full {
        UnpackPack(g.c.head.tag, g.c.head.idx);
        g' := SoloGiveBack(g, key);
      }
      PushFreeIndex(key.idx, spurious, slots, chunks);
      if !full {
        Commit(g');
      }
    }

    /** `try_insert_with_key`: the closure is called once, on the key the next insert uses, whose index nothing
        refers to. What it returns is stored under that key; if it declines, the map is as before and the next
        insert is shown the same key. A chunk is allocated exactly if that index has none (see NextFitsIff).
        In a full map the code goes on: the key is the sentinel's, and the length becomes 0. */
    method TryInsertWithKey(f: Key -> Outcome, spurious: nat) returns (r: Inserting)
      requires Valid()
      modifies this`freeHead, this`numElems, this`sys, vec.repr
      ensures fresh(vec.repr - old(vec.repr)) && old(vec.repr) <= vec.repr
      ensures old(References(NextSlot().idx)) == 0 && old(NextSlot()) !in old(Contents())
      ensures old(NextSlot()).idx == SENTINEL <==> old(Full())
      ensures match f(old(NextSlot())) case Made(_) => r == Stored(old(NextSlot())) case Declined(error) => r == Failed(error)
      ensures old(!Full()) ==>
                && Valid() && Held() == old(Held()) && Leaked() == old(Leaked())
                && (match f(old(NextSlot()))
                    case Made(value) => Contents() == old(Contents())[old(NextSlot()) := value]
                    case Declined(_) => Contents() == old(Contents()) && NextSlot() == old(NextSlot()))
                && Free() == (if r.Stored? then Rest(old(Free())) else [old(NextSlot())] + Rest(old(Free())))
                && vec.len == old(vec.len) + Bit(old(Free()) == [])
                && (old(NothingLingers(sys.c.slots)) ==> NothingLingers(sys.c.slots))
                && Chunks() == old(Chunks()) + {ChunkOf(old(NextSlot()).idx)}
      ensures ChunkOf(old(NextSlot()).idx) in old(Chunks()) ==> vec.repr == old(vec.repr)
      ensures old(Full()) ==> old(NextSlot()) == RawKey(SENTINEL, 1) && vec.Valid() && vec.len == 0
      ensures old(Full()) && r.Failed? ==> UnpackFreeHead(freeHead).1 == SENTINEL
    {
      hide Inv, Solo, SlotsMatch, PackFreeHead, UnpackFreeHead, Wrap, ChunkOf, L.Contents, Leading, Alone.References, Leaks, NothingLingers, FreeKeys, Rest;
      VecValid(sys.c.slots, sys.c.chunks.Keys);
      NextUnused(sys);
      L.InContents(sys.c.slots, NextKey(sys));
      ghost var full := Full();
      ghost var slots := sys.c.slots;
      var key, g, chunks := Allocate(spurious);
      var outcome := f(key);
      if outcome.Made? {
        Publish(key, outcome.value, g, full, slots, chunks);
        return Stored(key);
      }
      GiveBack(key, spurious, g, full, slots, chunks);
      return Failed(outcome.error);
    }

    /** `insert` */
    method Insert(value: Value, spurious: nat) returns (key: Key)
      requires Valid()
      modifies this`freeHead, this`numElems, this`sys, vec.repr
      ensures fresh(vec.repr - old(vec.repr)) && old(vec.repr) <= vec.repr
      ensures key == old(NextSlot()) && key !in old(Contents()) && (key.idx == SENTINEL <==> old(Full()))
      ensures old(References(NextSlot().idx)) == 0
      ensures old(!Full()) ==>
                && Valid() && Contents() == old(Contents())[key := value]
                && Held() == old(Held()) && Leaked() == old(Leaked())
                && Free() == Rest(old(Free())) && vec.len == old(vec.len) + Bit(old(Free()) == [])
                && (old(NothingLingers(sys.c.slots)) ==> NothingLingers(sys.c.slots))
                && Chunks() == old(Chunks()) + {ChunkOf(old(NextSlot()).idx)}
      ensures ChunkOf(old(NextSlot()).idx) in old(Chunks()) ==> vec.repr == old(vec.repr)
      ensures old(Full()) ==> key == RawKey(SENTINEL, 1) && vec.Valid() && vec.len == 0
    {
      hide Inv, Solo, SlotsMatch, PackFreeHead, UnpackFreeHead, ChunkOf, L.Contents, Leading, Alone.References, Leaks, NothingLingers, NextKey, FreeKeys, Rest;
      var r := TryInsertWithKey(_ => Made(value), spurious);
      key := r.key;
    }

    /** References, by what a caller sees; between calls they are what the slot counts. */
    lemma ReferencesAre(i: u32)
      requires Valid()
      ensures References(i) == Bit(Occupied(Contents(), i)) + |Handles(Held(), i)| + Leaked()[i]
      ensures References(i) == sys.c.slots[i].refs
    {
      hide Inv, Solo, SlotsMatch, PackFreeHead, L.Contents, Occupied;
      IdleReferences(sys, i);
      OccupiedIs(sys.c.slots, i);
    }

    // ------------------------------------------------------------------------------------------
    // Lookups and remove
    // ------------------------------------------------------------------------------------------

    /** Every index below `len` has its chunk, and its slot reads as the protocol says. */
    lemma SlotExists(i: u32)
      requires Valid()
      ensures vec.Valid() && vec.len == sys.c.len
      ensures i < vec.len ==> ChunkOf(i) in sys.c.chunks && vec.Has(i) && vec.At(i).Reads() == sys.c.slots[i]
      ensures i >= vec.len ==> !Odd(sys.c.slots[i].ver) && sys.c.slots[i].refs == 0
    {
      hide Inv, Solo, PackFreeHead, ChunkOf;
      if i < vec.len {
        SoloPublished(sys, i);
        SlotMatches(sys.c.slots, sys.c.chunks.Keys, i);
      } else {
        IdleSlot(sys, i);
      }
    }

    /** `contains_key` */
    method ContainsKey(key: Key) returns (found: bool)
      requires Valid()
      ensures found <==> key in Contents()
    {
      hide Inv, Solo, SlotsMatch, PackFreeHead, ChunkOf, L.Contents;
      SlotExists(key.idx);
      L.InContents(sys.c.slots, key);
      var slot := vec.Get(key.idx);
      if slot.None? {
        return false;
      }
      found := slot.value.version == key.ver;
    }

    /** `lossy_len`: run alone it is not lossy. */
    method LossyLen() returns (n: nat)
      requires Valid()
      ensures n == |Contents()|
    {
      hide Inv, Solo, SlotsMatch, PackFreeHead, L.Contents;
      IdleCount(sys);
      n := numElems;
    }

    /** How many references slot `i` has: the map's if occupied, one a guard, and the leaked ones. */
    ghost function References(i: u32): nat
      reads this
    {
      Alone.References(sys, i)
    }

    /** The loop of `remove`, seen from the protocol. */
    method EndOccupancy(key: Key, ghost slots: Slots, ghost chunks: set<nat>) returns (won: bool)
      requires SlotsMatch(slots, chunks) && ChunkOf(key.idx) in chunks
      modifies vec.repr
      ensures vec.repr == old(vec.repr) && vec.len == old(vec.len) && freeHead == old(freeHead)
      ensures won <==> slots[key.idx].ver == key.ver
      ensures won ==> SlotsMatch(Ended(slots, key), chunks)
      ensures !won ==> SlotsMatch(slots, chunks)
    {
      hide Wrap, ChunkOf, AtomicVec.Shaped, AtomicVec.Separate;
      SlotMatches(slots, chunks, key.idx);
      SlotsDistinct(key.idx);
      var slot := vec.GetUnchecked(key.idx);
      won := slot.EndVersion(key.ver);
    }

    /** `remove` */
    method Remove(key: Key, spurious: nat) returns (removed: bool)
      requires Valid()
      modifies this`freeHead, this`numElems, this`sys, vec.repr
      ensures Valid() && vec.repr == old(vec.repr) && vec.len == old(vec.len)
      ensures Held() == old(Held()) && Leaked() == old(Leaked()) && Chunks() == old(Chunks())
      ensures removed <==> key in old(Contents())
      ensures removed && References(key.idx) == 0 ==> vec.Has(key.idx) && vec.At(key.idx).data == Dropped
      ensures Contents() == old(Contents()) - {key}
      ensures removed && References(key.idx) == 0 ==> NextSlot() == RawKey(key.idx, Wrap(key.ver + 2))
      ensures !(removed && References(key.idx) == 0) ==> NextSlot() == old(NextSlot())
      ensures Free() == if removed && References(key.idx) == 0 then [RawKey(key.idx, Wrap(key.ver + 2))] + old(Free()) else old(Free())
    {
      hide Inv, Solo, SlotsMatch, PackFreeHead, UnpackFreeHead, ChunkOf, L.Contents, NextKey, Wrap, Ended, Released, Alone.References, Leaks, FreeKeys;
      SlotExists(key.idx);
      L.InContents(sys.c.slots, key);
      ghost var g := sys;
      if sys.c.slots[key.idx].ver != key.ver {
        g := SoloRemoveMiss(sys, key);
      }
      var found := vec.Get(key.idx);
      if found.None? {
        Commit(g);
        return false;
      }
      ghost var slots, chunks := sys.c.slots, sys.c.chunks.Keys;
      removed := EndOccupancy(key, slots, chunks);
      if !removed {
        Commit(g);
        return;
      }
      g := SoloRemoval(sys, key);
      UnpackPack(sys.c.head.tag, sys.c.head.idx);
      Release(key.idx, spurious, Ended(slots, key), chunks);
      numElems := Wrap(numElems - 1);
      Commit(g);
      IdleReferences(g, key.idx);
      SlotExists(key.idx);
    }

    // ------------------------------------------------------------------------------------------
    // Guards
    // ------------------------------------------------------------------------------------------

    /** `acquire_guard`, seen from the protocol. */
    method Acquire(key: Key, spurious: nat, ghost slots: Slots, ghost chunks: set<nat>) returns (r: Acquired)
      requires SlotsMatch(slots, chunks) && ChunkOf(key.idx) in chunks
      modifies vec.repr
      ensures vec.repr == old(vec.repr) && vec.len == old(vec.len) && freeHead == old(freeHead)
      ensures var slot := slots[key.idx];
              && (r.Overflowed? <==> slot.refs > MAX_REFCOUNT)
              && (r.Granted? <==> 0 < slot.refs <= MAX_REFCOUNT && slot.ver == key.ver)
              && (r.Granted? ==> SlotsMatch(slots[key.idx := slot.(refs := Wrap(slot.refs + 1))], chunks))
      ensures !r.Granted? ==> SlotsMatch(slots, chunks)
    {
      hide Wrap, ChunkOf, AtomicVec.Shaped, AtomicVec.Separate;
      SlotMatches(slots, chunks, key.idx);
      SlotsDistinct(key.idx);
      var slot := vec.GetUnchecked(key.idx);
      r := slot.AcquireGuard(key.ver, spurious);
    }

    /** `inc_ref_count_for_clone`, seen from the protocol. */
    method RaiseCount(idx: u32, ghost slots: Slots, ghost chunks: set<nat>) returns (panicked: bool)
      requires SlotsMatch(slots, chunks) && ChunkOf(idx) in chunks
      modifies vec.repr
      ensures vec.repr == old(vec.repr) && vec.len == old(vec.len) && freeHead == old(freeHead)
      ensures panicked <==> slots[idx].refs > MAX_REFCOUNT
      ensures vec.Valid() && vec.Has(idx) && vec.At(idx).refCount == Wrap(slots[idx].refs + 1)
      ensures SlotsMatch(slots[idx := slots[idx].(refs := Wrap(slots[idx].refs + 1))], chunks)
    {
      hide Wrap, ChunkOf, AtomicVec.Shaped, AtomicVec.Separate;
      SlotMatches(slots, chunks, idx);
      SlotsDistinct(idx);
      var slot := vec.GetUnchecked(idx);
      panicked := slot.IncRefCountForClone();
    }

    /** `get`: a guard on the key's value. Run alone, an acquirer that backs out is never the last. */
    method Get(key: Key, spurious: nat) returns (r: Getting)
      requires Valid()
      modifies this`sys, vec.repr
      ensures Valid() && vec.repr == old(vec.repr) && vec.len == old(vec.len)
      ensures Contents() == old(Contents()) && NextSlot() == old(NextSlot()) && Free() == old(Free()) && Leaked() == old(Leaked())
      ensures Chunks() == old(Chunks())
      ensures r.TooMany? <==> old(References(key.idx)) > MAX_REFCOUNT
      ensures forall i: u32 :: References(i) == old(References(i)) + Bit(r.Guarded? && i == key.idx)
      ensures r.Missing? ==> key !in Contents()
      ensures if r.Guarded? then
                && fresh(r.guard) && r.guard.home == this && r.guard.key == key && r.guard.gid !in old(Held())
                && key in Contents() && Held() == old(Held())[r.guard.gid := Guard(key, Contents()[key])]
              else Held() == old(Held())
    {
      hide Inv, Solo, SlotsMatch, PackFreeHead, ChunkOf, L.Contents, NextKey, Alone.References, Wrap, Leaks, FreeKeys;
      SlotExists(key.idx);
      L.InContents(sys.c.slots, key);
      ghost var gid := sys.c.nextGid;
      ghost var g := SoloGet(sys, key);
      var found := vec.Get(key.idx);
      if found.None? {
        Commit(g);
        return Missing;
      }
      var acquired := Acquire(key, spurious, sys.c.slots, sys.c.chunks.Keys);
      if !acquired.Granted? {
        Commit(g);
        return if acquired.Overflowed? then TooMany else Missing;
      }
      Commit(g);
      var guard := new SlotGuard.Of(this, key, gid);
      return Guarded(guard);
    }

    // ------------------------------------------------------------------------------------------
    // Capacity
    // ------------------------------------------------------------------------------------------

    /** `capacity` */
    method Capacity() returns (total: nat)
      requires Valid()
      ensures total == Room()
    {
      hide Inv, Solo, Leading;
      total := vec.Capacity();
      LeadingAgrees(vec.Present(), sys.c.chunks.Keys, 0);
    }

    /** `AtomicVec::reserve` on the heap. */
    method ReserveChunks(additional: u64, ghost slots: Slots, ghost chunks: set<nat>) returns (overflowed: bool)
      requires SlotsMatch(slots, chunks) && this !in vec.repr
      modifies vec`repr, vec.chunks
      ensures fresh(vec.repr - old(vec.repr)) && old(vec.repr) <= vec.repr
      ensures overflowed <==> Wrap64(vec.len + additional) > WORD
      ensures SlotsMatch(slots, chunks + Reaching(Wrap64(vec.len + additional)))
    {
      hide GetLocation, Wrap64;
      overflowed := vec.Reserve(additional);
      forall i: u32 | vec.Has(i) ensures vec.At(i).Reads() == slots[i] {
        if old(vec.Has(i)) {
          assert vec.At(i) == old(vec.At(i));
        }
      }
    }

    /** `AtomicVec::reserve`, seen from the protocol. */
    method ReserveMore(additional: u64) returns (overflowed: bool)
      requires Valid()
      modifies this`sys, vec`repr, vec.chunks
      ensures Valid() && fresh(vec.repr - old(vec.repr)) && old(vec.repr) <= vec.repr
      ensures Contents() == old(Contents()) && Held() == old(Held()) && NextSlot() == old(NextSlot()) && Free() == old(Free())
      ensures Leaked() == old(Leaked()) && vec.len == old(vec.len) && sys.c.slots == old(sys.c.slots)
      ensures overflowed <==> Wrap64(vec.len + additional) > WORD
      ensures Room() >= old(Room()) && (!overflowed ==> Room() >= Wrap64(vec.len + additional))
      ensures Chunks() == old(Chunks()) + Reaching(Wrap64(vec.len + additional))
    {
      hide Inv, Solo, SlotsMatch, PackFreeHead, ChunkOf, L.Contents, Leading, Leaks, Wrap64, CapacityBelow, FreeKeys;
      ghost var target := Wrap64(vec.len + additional);
      overflowed := ReserveChunks(additional, sys.c.slots, sys.c.chunks.Keys);
      if 0 < target <= WORD {
        ghost var g := SoloRoom(sys, target);
        Commit(g);
      } else {
        assert sys.c.chunks.Keys + Reaching(target) == sys.c.chunks.Keys;
      }
    }

    /** `reserve`: there is room for `additional` more keys afterwards, unless the indices do not suffice. In a
        build that does not check the sum, one past 2^64 reserves nothing, and says nothing. */
    method Reserve(additional: u64) returns (overflowed: bool)
      requires Valid()
      modifies this`sys, vec`repr, vec.chunks
      ensures Valid() && fresh(vec.repr - old(vec.repr)) && old(vec.repr) <= vec.repr
      ensures Contents() == old(Contents()) && Held() == old(Held()) && NextSlot() == old(NextSlot()) && Free() == old(Free())
      ensures Leaked() == old(Leaked()) && vec.len == old(vec.len) && sys.c.slots == old(sys.c.slots)
      ensures |Contents()| + additional < 0x1_0000_0000_0000_0000 ==>
                && (overflowed <==> |Contents()| + additional > WORD)
                && (!overflowed ==> Room() >= |Contents()| + additional)
                && (!overflowed ==> Chunks() == old(Chunks()) + Reaching(Max(vec.len, |Contents()| + additional)))
      ensures |Contents()| + additional >= 0x1_0000_0000_0000_0000 ==>
                !overflowed && Chunks() == old(Chunks()) + Reaching(vec.len)
    {
      hide Inv, Solo, SlotsMatch, PackFreeHead, L.Contents, Leading, Leaks, Wrap64, CapacityBelow, Reaching, NextKey, CoupledTo;
      var n := LossyLen();
      HeldWithin();
      Fits64(n + additional);
      var wanted := Wrap64(n + additional);
      var needed: u64 := if wanted > vec.len then wanted - vec.len else 0;
      Fits64(vec.len + needed);
      overflowed := ReserveMore(needed);
    }

    lemma HeldWithin()
      requires Valid()
      ensures |Contents()| <= vec.len
    {
      hide Inv, Solo, SlotsMatch, PackFreeHead, L.Contents;
      KeysAreOddSlots(sys.c.slots);
      OddWithin(sys);
    }

    /** `with_capacity_and_key` */
    static method WithCapacity(capacity: u64) returns (m: Option<AtomicSlotMap>)
      ensures m.None? <==> capacity > WORD
      ensures m.Some? ==>
                && fresh(m.value) && m.value.Valid() && fresh(m.value.vec.repr)
                && m.value.Contents() == map[] && m.value.Held() == map[] && m.value.Leaked() == NoLeaks()
                && m.value.vec.len == 0 && m.value.NextSlot() == RawKey(0, 1) && m.value.Free() == []
                && NothingLingers(m.value.sys.c.slots) && m.value.Room() >= capacity && m.value.Chunks() == Reaching(capacity)
    {
      hide Inv, Solo, L.Contents, Leading, NothingLingers, Leaks, NoLeaks, NextKey, AtomicSlotMap.SlotsMatch, ChunkOf, Wrap64, CapacityBelow, Reaching;
      Fits64(capacity);
      var created := new AtomicSlotMap.New();
      created.VecValid(created.sys.c.slots, created.sys.c.chunks.Keys);
      var overflowed := created.Reserve(capacity);
      if overflowed {
        return None;
      }
      return Some(created);
    }

    // ------------------------------------------------------------------------------------------
    // The end
    // ------------------------------------------------------------------------------------------

    /** `AtomicVec::drop`, once no guard is left: exactly the values still in the map are dropped, each of them
        there to be dropped; only values whose clones leaked a count stay behind. Then every chunk is freed. */
    method Drop() returns (freed: seq<(nat, nat)>)
      requires Valid() && Held() == map[]
      modifies vec.repr
      ensures SlotsMatch(Swept(sys.c.slots, sys.c.len), sys.c.chunks.Keys)
      ensures forall key :: key in Contents() ==> Swept(sys.c.slots, sys.c.len)[key.idx].data == Dropped
      ensures forall i: u32 :: Swept(sys.c.slots, sys.c.len)[i].data.Live? <==>
                !Odd(sys.c.slots[i].ver) && sys.h.logs[i].leaks > 0
      ensures forall i, j :: 0 <= i < j < |freed| ==> freed[i].0 < freed[j].0
      ensures forall k :: 0 <= k < CHUNKS ==> (vec.chunks[k].Chunk? <==> exists i :: 0 <= i < |freed| && freed[i].0 == k)
      ensures forall i :: 0 <= i < |freed| ==>
                freed[i].0 < CHUNKS && vec.chunks[freed[i].0].Chunk? && freed[i].1 == |vec.chunks[freed[i].0].slots|
    {
      hide Inv, Solo, SlotsMatch, PackFreeHead, ChunkOf, L.Contents, Swept;
      SweptAll(sys);
      SweptNone(sys.c.slots);
      for i := 0 to vec.len
        invariant vec.repr == old(vec.repr)
        invariant SlotsMatch(Swept(sys.c.slots, i), sys.c.chunks.Keys)
      {
        SoloPublished(sys, i);
        SweptNext(sys.c.slots, i);
        SlotMatches(Swept(sys.c.slots, i), sys.c.chunks.Keys, i);
        IdleSlot(sys, i);
        var slot := vec.GetUnchecked(i);
        if slot.version % 2 == 1 {
          DropValue(i, Swept(sys.c.slots, i), sys.c.chunks.Keys);
        }
      }
      VecValid(Swept(sys.c.slots, sys.c.len), sys.c.chunks.Keys);
      freed := vec.FreeChunks();
    }
  }

  /** `SlotGuard`, and `OwningSlotGuard` apart from its `Arc`. */
  class SlotGuard {
    const home: AtomicSlotMap
    const key: Key
    ghost const gid: Gid

    constructor Of(home: AtomicSlotMap, key: Key, ghost gid: Gid)
      ensures this.home == home && this.key == key && this.gid == gid
    {
      this.home, this.key, this.gid := home, key, gid;
    }

    /** The guard was not dropped yet. */
    ghost predicate Alive()
      reads this, home, home.vec, home.vec.chunks, home.vec.repr
    {
      home.Valid() && gid in home.Held() && home.Held()[gid].key == key
    }

    /** `deref`: whatever was removed or inserted since, the guard shows the value it was made with. */
    method Deref() returns (value: Value)
      requires Alive()
      ensures value == home.Held()[gid].value
    {
      hide Inv, Solo;
      GuardFacts(home.sys, gid);
      home.SlotExists(key.idx);
      var slot := home.vec.GetUnchecked(key.idx);
      value := slot.data.value;
    }

    /** `drop`: the last reference to a removed value drops it and recycles its slot. */
    method Drop(spurious: nat)
      requires Alive()
      modifies home`freeHead, home`sys, home.vec.repr
      ensures home.Valid() && home.vec.repr == old(home.vec.repr) && home.vec.len == old(home.vec.len)
      ensures home.Contents() == old(home.Contents()) && home.Held() == old(home.Held()) - {gid}
      ensures home.Leaked() == old(home.Leaked()) && home.Chunks() == old(home.Chunks())
      ensures home.References(key.idx) == 0 ==> home.NextSlot() == RawKey(key.idx, Wrap(key.ver + 2))
      ensures home.References(key.idx) != 0 ==> home.NextSlot() == old(home.NextSlot())
      ensures home.Free() ==
              if home.References(key.idx) == 0 then [RawKey(key.idx, Wrap(key.ver + 2))] + old(home.Free()) else old(home.Free())
    {
      hide Inv, Solo, PackFreeHead, UnpackFreeHead, ChunkOf, L.Contents, NextKey, Wrap, Released, Alone.References, Leaks, FreeKeys;
      hide AtomicSlotMap.SlotsMatch;
      ghost var s := home.sys;
      ghost var g := SoloGuardDrop(s, gid);
      home.SlotExists(key.idx);
      UnpackPack(s.c.head.tag, s.c.head.idx);
      home.Release(key.idx, spurious, s.c.slots, s.c.chunks.Keys);
      home.Commit(g);
    }

    /** A clone would raise the slot's count by one: it is below 2^32 - 1. */
    ghost predicate MayClone()
      requires Alive()
      reads this, home, home.vec, home.vec.chunks, home.vec.repr
    {
      home.References(key.idx) < 0xFFFF_FFFF
    }

    lemma MayCloneIs()
      requires Alive()
      ensures MayClone() <==> Alone.MayClone(home.sys, gid)
      ensures !MayClone() ==> home.References(key.idx) > MAX_REFCOUNT
      ensures home.References(key.idx) == home.sys.c.slots[key.idx].refs && key.idx < home.sys.c.len
    {
      hide Inv, Solo, PackFreeHead, ChunkOf, L.Contents, NextKey, Alone.References, AtomicSlotMap.SlotsMatch;
      GuardFacts(home.sys, gid);
      IdleReferences(home.sys, key.idx);
    }

    /** The count is raised, and what that means is recorded unless it may have wrapped. */
    method Raise() returns (panicked: bool, ghost copied: Gid)
      requires Alive()
      modifies home`sys, home.vec.repr
      ensures home.vec.repr == old(home.vec.repr) && home.vec.len == old(home.vec.len)
      ensures home.Contents() == old(home.Contents()) && home.NextSlot() == old(home.NextSlot()) && home.Free() == old(home.Free())
      ensures home.Chunks() == old(home.Chunks())
      ensures panicked <==> old(home.References(key.idx)) > MAX_REFCOUNT
      ensures home.vec.Valid() && home.vec.Has(key.idx)
      ensures home.vec.At(key.idx).refCount == Wrap(old(home.References(key.idx)) + 1)
      ensures old(MayClone()) ==>
                && home.Valid() && home.References(key.idx) == old(home.References(key.idx)) + 1
                && home.Leaked() == old(home.Leaked())[key.idx := old(home.Leaked())[key.idx] + Bit(panicked)]
      ensures copied !in old(home.Held())
      ensures home.Held() == if panicked then old(home.Held()) else old(home.Held())[copied := old(home.Held())[gid]]
    {
      hide Inv, Solo, PackFreeHead, UnpackFreeHead, ChunkOf, L.Contents, NextKey, Wrap, Alone.References, Leaks, FreeKeys;
      hide AtomicSlotMap.SlotsMatch;
      hide MayClone, Alone.MayClone;
      ghost var s := home.sys;
      MayCloneIs();
      home.SlotExists(key.idx);
      ghost var may := MayClone();
      copied := s.c.nextGid;
      T.GuardIdsFresh(s);
      panicked := home.RaiseCount(key.idx, s.c.slots, s.c.chunks.Keys);
      if may {
        ghost var g := SoloClone(s, gid);
        home.Commit(g);
      }
    }

    /** `clone`: one more guard on the same value; above the limit the call panics with the count raised, and
        from the last count on, 2^32 - 1, the map is no longer what it should be: the count wraps. */
    method Clone() returns (guard: Option<SlotGuard>)
      requires Alive()
      modifies home`sys, home.vec.repr
      ensures home.vec.repr == old(home.vec.repr) && home.vec.len == old(home.vec.len)
      ensures home.Contents() == old(home.Contents()) && home.NextSlot() == old(home.NextSlot()) && home.Free() == old(home.Free())
      ensures home.Chunks() == old(home.Chunks())
      ensures guard.None? <==> old(home.References(key.idx)) > MAX_REFCOUNT
      ensures home.vec.Valid() && home.vec.Has(key.idx)
      ensures home.vec.At(key.idx).refCount == Wrap(old(home.References(key.idx)) + 1)
      ensures old(MayClone()) ==>
                && home.Valid() && home.References(key.idx) == old(home.References(key.idx)) + 1
                && home.Leaked() == old(home.Leaked())[key.idx := old(home.Leaked())[key.idx] + Bit(guard.None?)]
      ensures if guard.Some? then
                && fresh(guard.value) && guard.value.home == home && guard.value.key == key
                && guard.value.gid !in old(home.Held())
                && home.Held() == old(home.Held())[guard.value.gid := old(home.Held())[gid]]
              else home.Held() == old(home.Held())
    {
      hide Inv, Solo, PackFreeHead, UnpackFreeHead, ChunkOf, L.Contents, NextKey, Wrap, Alone.References, Leaks, FreeKeys;
      hide AtomicSlotMap.SlotsMatch, MayClone;
      var panicked: bool;
      ghost var copied: Gid;
      panicked, copied := Raise();
      if panicked {
        return None;
      }
      var copy := new SlotGuard.Of(home, key, copied);
      return Some(copy);
    }
  }
}
