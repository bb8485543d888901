/** What the invariant gives to callers: who has a slot, the free list, reclamation, guards. */
module Safety {
  import opened Machine
  import opened Location
  import opened Protocol
  import opened Invariant
  import opened Preservation
  import opened Touching

  // --------------------------------------------------------------------------------------------
  // Who has a slot
  // --------------------------------------------------------------------------------------------

  /** In every reachable state the count is exactly what can be pointed to. */
  lemma ReferencesAccounted(states: seq<Sys>, moves: seq<Move>, n: nat, i: u32)
    requires IsRun(states, moves) && n < |states|
    ensures var c, h := states[n].c, states[n].h;
            c.slots[i].refs == Bit(Odd(c.slots[i].ver)) + |Threads(c.pcs, Referring(i))| + |Handles(c.guards, i)| + h.logs[i].leaks
  {
    hide IsRun, LifeOk, PlaceOk, ThreadOk;
    Reachable(states, moves, n);
    assert SlotOk(states[n].c, states[n].h, i);
  }

  ghost predicate SomebodyOwns(c: Conf, i: u32) {
    exists t :: t in c.pcs && Owns(c.pcs[t], i)
  }

  /** In every reachable state a slot below `len` is free, owned by one thread, or referenced: exactly one of
      the three. */
  lemma SlotPartition(states: seq<Sys>, moves: seq<Move>, n: nat, i: u32)
    requires IsRun(states, moves) && n < |states| && i < states[n].c.len
    ensures var s := states[n];
            && ((i in s.h.free) || SomebodyOwns(s.c, i) || s.c.slots[i].refs > 0)
            && !(i in s.h.free && SomebodyOwns(s.c, i))
            && !(i in s.h.free && s.c.slots[i].refs > 0)
            && !(SomebodyOwns(s.c, i) && s.c.slots[i].refs > 0)
            && forall t, u :: t in s.c.pcs && u in s.c.pcs && Owns(s.c.pcs[t], i) && Owns(s.c.pcs[u], i) ==> t == u
  {
    hide IsRun;
    Reachable(states, moves, n);
    var s := states[n];
    hide ThreadOk, GuardOk, ChainOk, ChunksOk, CountOk, ChunkOf;
    assert SlotOk(s.c, s.h, i);
    forall t | t in s.c.pcs && Owns(s.c.pcs[t], i)
      ensures s.h.logs[i].owner == Some(t) && s.c.slots[i].refs == 0
    {
      At(s, t, i);
      KeeperFacts(s.c, s.h, t, i);
    }
    var owner := s.h.logs[i].owner;
    if owner.Some? {
      PublisherRefers(s.c, owner.value, i);
    }
  }

  lemma PublisherRefers(c: Conf, t: Tid, i: u32)
    requires t in c.pcs && Keeps(c.pcs[t], i)
    ensures Owns(c.pcs[t], i) || Threads(c.pcs, Referring(i)) != {}
  {
    assert !Owns(c.pcs[t], i) ==> t in Threads(c.pcs, Referring(i));
  }

  // --------------------------------------------------------------------------------------------
  // The free list, followed link by link
  // --------------------------------------------------------------------------------------------

  /** The indices met by following `next_free` from `idx`, for at most `n` links. */
  function Follow(slots: Slots, idx: u32, n: nat): seq<u32>
    decreases n
  {
    if n == 0 || idx == SENTINEL then [] else [idx] + Follow(slots, slots[idx].next, n - 1)
  }

  lemma {:induction false} FollowSuffix(slots: Slots, free: seq<u32>, k: nat, n: nat)
    requires forall j :: 0 <= j < |free| ==> free[j] != SENTINEL && slots[free[j]].next == LinkAfter(free, j + 1)
    requires k <= |free| && n >= |free| - k
    ensures Follow(slots, LinkAfter(free, k), n) == free[k..]
    decreases |free| - k
  {
    if k < |free| {
      FollowSuffix(slots, free, k + 1, n - 1);
      assert free[k..] == [free[k]] + free[k + 1..];
    }
  }

  function Elements(xs: seq<u32>): set<int> {
    set k: int | 0 <= k < |xs| :: xs[k]
  }

  lemma {:induction false} DistinctElements(xs: seq<u32>)
    requires NoDuplicates(xs)
    ensures |Elements(xs)| == |xs|
  {
    if xs == [] {
      assert Elements(xs) == {};
    } else {
      var front, last := xs[..|xs| - 1], xs[|xs| - 1];
      DistinctElements(front);
      assert xs == front + [last];
      assert Elements(xs) == Elements(front) + {last};
      assert forall k :: 0 <= k < |front| ==> front[k] == xs[k] != last;
    }
  }

  function Below(n: nat): (indices: set<int>)
    ensures forall i: int :: i in indices <==> 0 <= i < n
    ensures |indices| == n
  {
    if n == 0 then {} else Below(n - 1) + {n - 1}
  }

  lemma SubsetSize(a: set<int>, b: set<int>)
    requires a <= b
    ensures |a| <= |b|
  {
    assert b == a + (b - a);
  }

  /** In every reachable state the links from the head, at most `len` of them, list the free slots
      once each and end at SENTINEL. */
  lemma FreeListIsChain(s: Sys)
    requires Inv(s)
    ensures Follow(s.c.slots, s.c.head.idx, s.c.len) == s.h.free
    ensures forall n: nat :: n >= s.c.len ==> Follow(s.c.slots, s.c.head.idx, n) == s.h.free
    ensures NoDuplicates(s.h.free)
    ensures forall i :: i in s.h.free ==> i < s.c.len && s.c.slots[i].refs == 0 && !Odd(s.c.slots[i].ver)
  {
    hide ThreadOk, GuardOk, ChunksOk, CountOk, ChunkOf;
    forall i | i in s.h.free ensures i < s.c.len && s.c.slots[i].refs == 0 && !Odd(s.c.slots[i].ver) {
      assert SlotOk(s.c, s.h, i);
    }
    var xs := s.h.free;
    assert forall j :: 0 <= j < |xs| ==> xs[j] in xs;
    DistinctElements(xs);
    SubsetSize(Elements(xs), Below(s.c.len));
    assert xs[0..] == xs;
    forall n: nat | n >= s.c.len ensures Follow(s.c.slots, s.c.head.idx, n) == xs {
      FollowSuffix(s.c.slots, xs, 0, n);
    }
  }

  /** The free indices, as the links from the head list them. */
  function FreeList(c: Conf): seq<u32> {
    Follow(c.slots, c.head.idx, c.len)
  }

  /** How a step changes the recorded free list. */
  lemma FreeMoves(c: Conf, h: Hist, t: Tid, a: Choice)
    requires t in c.pcs && t in h.wins
    ensures var pc, free, free' := c.pcs[t], h.free, Record(c, h, t, a).free;
            if pc.PopCas? && a != Spurious && c.head == pc.prev then free' == if free == [] then [] else free[1..]
            else if pc.PushCas? && a != Spurious && c.head == pc.prev then free' == [pc.idx] + free
            else free' == free
  {
  }

  /**
   * The free stack. A pop's successful exchange takes exactly the head off the linked list, a push's puts
   * exactly its index on top, and no other step of any thread changes what the links list.
   */
  lemma HeadExchanges(states: seq<Sys>, moves: seq<Move>, n: nat)
    requires IsRun(states, moves) && n < |moves|
    ensures var c, c', t := states[n].c, states[n + 1].c, moves[n].t;
            && t in c.pcs
            && if c.pcs[t].PopCas? && moves[n].a != Spurious && c.head == c.pcs[t].prev then
                 FreeList(c) == [c.pcs[t].prev.idx] + FreeList(c')
               else if c.pcs[t].PushCas? && moves[n].a != Spurious && c.head == c.pcs[t].prev then
                 FreeList(c') == [c.pcs[t].idx] + FreeList(c)
               else FreeList(c') == FreeList(c)
  {
    hide Bounded, SlotOk, ThreadOk, GuardOk, ChunksOk, CountOk, Next, Record, Follow;
    var s, t, a := states[n], moves[n].t, moves[n].a;
    assert Step(s, t, a, states[n + 1]);
    hide IsRun;
    Reachable(states, moves, n);
    Reachable(states, moves, n + 1);
    FreeListIsChain(s);
    FreeListIsChain(states[n + 1]);
    FreeMoves(s.c, s.h, t, a);
    At(s, t, 0);
    PopperHead(s.c, s.h, t);
  }

  lemma SentinelWhenEmpty(s: Sys)
    requires Inv(s)
    ensures s.c.head.idx == SENTINEL <==> FreeList(s.c) == []
  {
    hide SlotOk, ThreadOk, GuardOk, ChunksOk, CountOk, Follow;
    FreeListIsChain(s);
    if s.h.free != [] {
      assert s.h.free[0] in s.h.free;
    }
  }

  /** The step reads the head for a pop: the first time, or by an exchange that fails. */
  predicate ReadsHead(c: Conf, t: Tid, a: Choice) {
    t in c.pcs && (c.pcs[t].PopLoad? || (c.pcs[t].PopCas? && !(a != Spurious && c.head == c.pcs[t].prev)))
  }

  lemma PopTurns(c: Conf, t: Tid, a: Choice)
    requires t in c.pcs
    ensures Next(c, t, a).pcs[t].InsLen? <==> ReadsHead(c, t, a) && c.head.idx == SENTINEL
  {
    hide IdleStep, GetStep, RemoveStep, PushStep, PopStep, InsertStep, VecStep, LookStep;
    var pc := c.pcs[t];
    if InPop(pc) {
      PopEnds(c, t, a);
    } else if pc.Idle? || InPush(pc) {
      NoPushFromList(c, t, a);
    } else {
      NoPushElsewhere(c, t, a);
    }
  }

  lemma PopEnds(c: Conf, t: Tid, a: Choice)
    requires t in c.pcs && InPop(c.pcs[t])
    ensures PopStep(c, t, a, c.pcs[t]).pcs[t].InsLen? <==> ReadsHead(c, t, a) && c.head.idx == SENTINEL
  {
  }

  lemma NoPushFromList(c: Conf, t: Tid, a: Choice)
    requires t in c.pcs
    ensures c.pcs[t].Idle? ==> !IdleStep(c, t, a).pcs[t].InsLen?
    ensures InPush(c.pcs[t]) ==> !PushStep(c, t, a, c.pcs[t]).pcs[t].InsLen?
  {
  }

  lemma NoPushElsewhere(c: Conf, t: Tid, a: Choice)
    requires t in c.pcs
    ensures InLook(c.pcs[t]) ==> !LookStep(c, t, c.pcs[t]).pcs[t].InsLen?
    ensures InGet(c.pcs[t]) ==> !GetStep(c, t, a, c.pcs[t]).pcs[t].InsLen?
    ensures InRemove(c.pcs[t]) ==> !RemoveStep(c, t, c.pcs[t]).pcs[t].InsLen?
    ensures InInsert(c.pcs[t]) ==> !InsertStep(c, t, a, c.pcs[t]).pcs[t].InsLen?
    ensures InVec(c.pcs[t]) ==> !VecStep(c, t, c.pcs[t]).pcs[t].InsLen?
  {
    hide ChunkOf;
  }

  /** In every bounded run a pop answers that there is no free slot exactly where it reads the head while the links
      from it list none; nothing else makes a thread ask for a new index. */
  lemma EmptyIffSeen(states: seq<Sys>, moves: seq<Move>, n: nat)
    requires IsRun(states, moves) && n < |moves|
    ensures var c, c', t := states[n].c, states[n + 1].c, moves[n].t;
            && t in c.pcs && t in c'.pcs
            && (c'.pcs[t].InsLen? <==> ReadsHead(c, t, moves[n].a) && FreeList(c) == [])
  {
    hide Bounded, Inv, Next, Record, Follow;
    assert Step(states[n], moves[n].t, moves[n].a, states[n + 1]);
    Reachable(states, moves, n);
    SentinelWhenEmpty(states[n]);
    PopTurns(states[n].c, moves[n].t, moves[n].a);
  }

  /** Hence an index is handed out only after the list was seen empty during that very call. */
  lemma {:induction false} PushedAfterEmpty(states: seq<Sys>, moves: seq<Move>, start: nat, n: nat, t: Tid) returns (k: nat)
    requires IsRun(states, moves) && start <= n < |states|
    requires t in states[start].c.pcs && states[start].c.pcs[t].Idle?
    requires t in states[n].c.pcs && states[n].c.pcs[t].InsLen?
    ensures start < k < n && moves[k].t == t && ReadsHead(states[k].c, t, moves[k].a) && FreeList(states[k].c) == []
    ensures forall j :: k < j <= n ==> t in states[j].c.pcs && states[j].c.pcs[t].InsLen?
    decreases n
  {
    hide Bounded, Inv, Next, Record, Follow;
    assert start < n;
    k := n - 1;
    assert Step(states[k], moves[k].t, moves[k].a, states[n]);
    EmptyIffSeen(states, moves, k);
    if moves[k].t != t {
      k := PushedAfterEmpty(states, moves, start, n - 1, t);
    }
  }

  // --------------------------------------------------------------------------------------------
  // Nothing in flight
  // --------------------------------------------------------------------------------------------

  /** No operation is running, no guard is alive and no count was leaked. */
  ghost predicate Quiescent(s: Sys) {
    && (forall t :: t in s.c.pcs ==> s.c.pcs[t] == Idle)
    && s.c.guards == map[]
    && (forall i: u32 :: s.h.logs[i].leaks == 0)
  }

  /** A slot of a quiescent map is occupied, free, or not pushed yet; its value is there exactly when it is
      occupied, and every earlier value was dropped once. */
  lemma QuiescentSlot(s: Sys, i: u32)
    requires Inv(s) && Quiescent(s)
    ensures Odd(s.c.slots[i].ver) <==> s.c.slots[i].data.Live?
    ensures i in s.h.free <==> i < s.c.len && !Odd(s.c.slots[i].ver)
    ensures Odd(s.c.slots[i].ver) ==> i < s.c.len
    ensures s.h.logs[i].died == s.h.logs[i].removed == s.h.logs[i].born - Bit(Odd(s.c.slots[i].ver))
  {
    hide ThreadOk, GuardOk, ChainOk, ChunksOk, CountOk, ChunkOf;
    assert SlotOk(s.c, s.h, i);
    assert Threads(s.c.pcs, Referring(i)) == {};
    assert Handles(s.c.guards, i) == {};
  }

  lemma QuiescentIndices(s: Sys)
    requires Inv(s) && Quiescent(s)
    ensures Below(s.c.len) == OddSlots(s.c.slots) + Elements(s.h.free)
    ensures OddSlots(s.c.slots) * Elements(s.h.free) == {}
  {
    hide Inv;
    var occupied, free := OddSlots(s.c.slots), Elements(s.h.free);
    forall i: int ensures i in Below(s.c.len) <==> i in occupied || i in free {
      if 0 <= i < 0x1_0000_0000 {
        QuiescentSlot(s, i);
      }
    }
    forall i: int | i in occupied ensures i !in free {
      QuiescentSlot(s, i);
    }
  }

  /** With nothing in flight, `len` is the occupied slots plus the free list, and `num_elems` is exact. */
  lemma QuiescentCounts(s: Sys)
    requires Inv(s) && Quiescent(s)
    ensures s.c.len == |OddSlots(s.c.slots)| + |s.h.free|
    ensures s.c.count == |OddSlots(s.c.slots)|
  {
    hide SlotOk, ThreadOk, GuardOk, ChunksOk, Below, OddSlots, Elements;
    QuiescentIndices(s);
    var occupied, free := OddSlots(s.c.slots), Elements(s.h.free);
    assert |occupied + free| == |occupied| + |free|;
    DistinctElements(s.h.free);
    assert Threads(s.c.pcs, Addings) == {};
    assert Threads(s.c.pcs, Removings) == {};
    SmallResidues(s.c.count, |occupied|);
  }

  lemma SmallResidues(a: nat, b: nat)
    requires a < WORD && b < WORD && (a - b) % 0x1_0000_0000 == 0
    ensures a == b
  {
  }

  /** In every reachable state `num_elems` is, modulo 2^32, the occupied slots less the inserts that have
      published and not yet counted themselves, plus the removes that have won and not yet done so. */
  lemma LengthConserved(states: seq<Sys>, moves: seq<Move>, n: nat)
    requires IsRun(states, moves) && n < |states|
    ensures var c := states[n].c;
            c.count == (|OddSlots(c.slots)| - |Threads(c.pcs, Addings)| + |Threads(c.pcs, Removings)|) % 0x1_0000_0000
  {
    hide IsRun, SlotOk, ThreadOk, GuardOk, ChainOk, ChunksOk, OddSlots, Threads;
    Reachable(states, moves, n);
  }

  // --------------------------------------------------------------------------------------------
  // Exclusive ownership and reclamation
  // --------------------------------------------------------------------------------------------

  /** After a pop, on entry to a push and before the value is written, the slot the thread has is
      unreferenced and unoccupied: the three calls of `debug_assert_exclusively_owned` pass. */
  lemma ExclusivelyOwned(s: Sys, t: Tid, i: u32)
    requires Inv(s) && t in s.c.pcs && Owns(s.c.pcs[t], i)
    ensures s.c.slots[i].refs == 0 && !Odd(s.c.slots[i].ver)
  {
    hide Inv, SlotOk, ThreadOk;
    At(s, t, i);
    KeeperFacts(s.c, s.h, t, i);
  }

  /** `drop_inner_value` always finds a value there, of an occupancy that was removed and whose value
      was not dropped before. */
  lemma DropsLiveValue(s: Sys, t: Tid)
    requires Inv(s) && t in s.c.pcs && s.c.pcs[t].Destroy?
    ensures var i := s.c.pcs[t].idx;
            && s.c.slots[i].data.Live?
            && s.h.logs[i].removed == s.h.logs[i].born == s.h.logs[i].died + 1
  {
    hide Inv, ThreadOk, PlaceOk;
    var i := s.c.pcs[t].idx;
    At(s, t, i);
    OwnerFacts(s.c, s.h, t, i);
  }

  /** The thread's next step lowers a count from one to zero on slot `i`: `needs_drop` is true. */
  predicate Zeroes(c: Conf, t: Tid, a: Choice, i: u32)
    requires t in c.pcs
  {
    && c.slots[i].refs == 1
    && match c.pcs[t]
       case GetBack(key) => key.idx == i
       case RemDec(key) => key.idx == i
       case Idle => a.DropGuard? && a.g in c.guards && c.guards[a.g].key.idx == i
       case _ => false
  }

  /** Slot `i` is between its last reference and the dropping of its value. */
  predicate Condemned(c: Conf, h: Hist, i: u32) {
    h.logs[i].owner.Some? && h.logs[i].owner.value in c.pcs && c.pcs[h.logs[i].owner.value].Destroy?
  }

  /** The thread that sees the count reach zero is the only one with the slot, the remove has
      already happened, and it goes on to drop the value. */
  lemma ZeroSeenOnce(s: Sys, t: Tid, a: Choice, s': Sys, i: u32)
    requires Inv(s) && Step(s, t, a, s') && Zeroes(s.c, t, a, i)
    ensures s.h.logs[i].owner == None && s.h.logs[i].removed == s.h.logs[i].born == s.h.logs[i].died + 1
    ensures s'.c.pcs[t].Destroy? && s'.c.pcs[t].idx == i
    ensures s'.h.logs[i] == s.h.logs[i].(owner := Some(t))
  {
    hide Inv, ThreadOk, PlaceOk;
    At(s, t, i);
    var pc := s.c.pcs[t];
    assert pc.Idle? ==> a.g in Handles(s.c.guards, i);
    assert !pc.Idle? ==> t in Threads(s.c.pcs, Referring(i));
    LastReference(s, t, i);
  }

  lemma Unowned(s: Sys, t: Tid)
    requires Inv(s) && t in s.c.pcs
    ensures s.h.logs[s.c.len].owner == None
    ensures s.c.pcs[t].PopCas? && s.c.head == s.c.pcs[t].prev ==> s.h.logs[s.c.head.idx].owner == None
  {
    hide ThreadOk, GuardOk, ChainOk, ChunksOk, CountOk, LifeOk, ChunkOf;
    assert SlotOk(s.c, s.h, s.c.len);
    HeadExists(s);
    assert SlotOk(s.c, s.h, s.c.head.idx);
    At(s, t, 0);
    PopperHead(s.c, s.h, t);
  }

  lemma PopperHead(c: Conf, h: Hist, t: Tid)
    requires t in c.pcs && t in h.wins && ThreadOk(c, h, t)
    ensures c.pcs[t].PopCas? ==> c.pcs[t].prev.idx != SENTINEL
  {
    hide ChunkOf;
  }

  /** How a step that lowers no count to zero may change who has slot `i`. */
  lemma OwnerMoves(s: Sys, t: Tid, a: Choice, s': Sys, i: u32)
    requires Inv(s) && Step(s, t, a, s') && !Zeroes(s.c, t, a, i)
    ensures || s'.h.logs[i].owner == s.h.logs[i].owner
            || (s.h.logs[i].owner == None && s'.h.logs[i].owner == Some(t) && (s.c.pcs[t].PopCas? || s.c.pcs[t].InsLen?))
            || (s'.h.logs[i].owner == None && (s.c.pcs[t].PushCas? || s.c.pcs[t].InsPub?) && Keeps(s.c.pcs[t], i))
    ensures s'.h.logs[i].died == s.h.logs[i].died + Bit(s.c.pcs[t].Destroy? && s.c.pcs[t].idx == i)
  {
    hide Inv, Next;
    Unowned(s, t);
  }

  /** The only way to be about to drop a value is to have seen its count reach zero. */
  lemma DestroyEntered(c: Conf, t: Tid, a: Choice)
    requires t in c.pcs && Next(c, t, a).pcs[t].Destroy? && !c.pcs[t].Destroy?
    ensures Zeroes(c, t, a, Next(c, t, a).pcs[t].idx)
  {
    hide ChunkOf, IdleStep, GetStep, RemoveStep, PushStep, PopStep, InsertStep, VecStep, LookStep;
    var pc := c.pcs[t];
    if pc.Idle? {
      DestroyFromIdle(c, t, a);
    } else if InGet(pc) || InRemove(pc) {
      DestroyFromLoss(c, t, a);
    } else {
      DestroyNotElsewhere(c, t, a);
    }
  }

  lemma DestroyFromIdle(c: Conf, t: Tid, a: Choice)
    requires t in c.pcs && c.pcs[t].Idle? && IdleStep(c, t, a).pcs[t].Destroy?
    ensures Zeroes(c, t, a, IdleStep(c, t, a).pcs[t].idx)
  {
  }

  lemma DestroyFromLoss(c: Conf, t: Tid, a: Choice)
    requires t in c.pcs
    ensures InGet(c.pcs[t]) && GetStep(c, t, a, c.pcs[t]).pcs[t].Destroy? ==>
              Zeroes(c, t, a, GetStep(c, t, a, c.pcs[t]).pcs[t].idx)
    ensures InRemove(c.pcs[t]) && RemoveStep(c, t, c.pcs[t]).pcs[t].Destroy? ==>
              Zeroes(c, t, a, RemoveStep(c, t, c.pcs[t]).pcs[t].idx)
  {
  }

  lemma DestroyNotElsewhere(c: Conf, t: Tid, a: Choice)
    requires t in c.pcs
    ensures InLook(c.pcs[t]) ==> !LookStep(c, t, c.pcs[t]).pcs[t].Destroy?
    ensures InPush(c.pcs[t]) ==> !PushStep(c, t, a, c.pcs[t]).pcs[t].Destroy?
    ensures InPop(c.pcs[t]) ==> !PopStep(c, t, a, c.pcs[t]).pcs[t].Destroy?
    ensures InInsert(c.pcs[t]) ==> !InsertStep(c, t, a, c.pcs[t]).pcs[t].Destroy?
    ensures InVec(c.pcs[t]) ==> !VecStep(c, t, c.pcs[t]).pcs[t].Destroy?
  {
    hide ChunkOf;
  }

  /** Drops made and drops due, against counts seen reaching zero. */
  lemma DropsMove(s: Sys, t: Tid, a: Choice, s': Sys, i: u32)
    requires Inv(s) && Step(s, t, a, s')
    ensures s'.h.logs[i].died + Bit(Condemned(s'.c, s'.h, i)) ==
            s.h.logs[i].died + Bit(Condemned(s.c, s.h, i)) + Bit(Zeroes(s.c, t, a, i))
  {
    hide Inv, Record, ThreadOk, SlotOk;
    At(s, t, i);
    if Zeroes(s.c, t, a, i) {
      hide Next;
      ZeroSeenOnce(s, t, a, s', i);
    } else {
      OwnerMoves(s, t, a, s', i);
      DropsKept(s, t, a, s', i);
    }
  }

  lemma DropsKept(s: Sys, t: Tid, a: Choice, s': Sys, i: u32)
    requires Inv(s) && Step(s, t, a, s') && !Zeroes(s.c, t, a, i)
    requires || s'.h.logs[i].owner == s.h.logs[i].owner
             || (s.h.logs[i].owner == None && s'.h.logs[i].owner == Some(t) && (s.c.pcs[t].PopCas? || s.c.pcs[t].InsLen?))
             || (s'.h.logs[i].owner == None && (s.c.pcs[t].PushCas? || s.c.pcs[t].InsPub?) && Keeps(s.c.pcs[t], i))
    ensures Bit(Condemned(s'.c, s'.h, i)) ==
            Bit(Condemned(s.c, s.h, i)) - Bit(s.c.pcs[t].Destroy? && s.c.pcs[t].idx == i)
  {
    hide Inv, Record, ThreadOk, SlotOk;
    At(s, t, i);
    var pc, pc' := s.c.pcs[t], s'.c.pcs[t];
    if Keeps(pc, i) {
      KeeperFacts(s.c, s.h, t, i);
    }
    if s.h.logs[i].owner == Some(t) {
      OwnerKeeps(s, t, i);
    }
    if pc'.Destroy? && !pc.Destroy? {
      DestroyEntered(s.c, t, a);
    }
    if pc.Destroy? {
      DestroyNotElsewhere(s.c, t, a);
    }
    hide IdleStep, GetStep, RemoveStep, PushStep, PopStep, InsertStep, VecStep, LookStep;
    if s.h.logs[i].owner == Some(t) {
      assert s'.h.logs[i].owner == Some(t) ==> !pc'.Destroy?;
      assert Condemned(s.c, s.h, i) == pc.Destroy?;
    } else if s.h.logs[i].owner.Some? {
      assert !Keeps(pc, i);
      assert !Condemned(s'.c, s'.h, i) || Condemned(s.c, s.h, i);
    }
  }

  lemma OwnerKeeps(s: Sys, t: Tid, i: u32)
    requires Inv(s) && s.h.logs[i].owner == Some(t)
    ensures t in s.c.pcs && Keeps(s.c.pcs[t], i)
  {
    hide ThreadOk, GuardOk, ChainOk, ChunksOk, CountOk, LifeOk, ChunkOf;
    assert SlotOk(s.c, s.h, i);
  }

  /** How often, in the first `n` moves, a thread saw the count of slot `i` reach zero. */
  function ZeroCount(states: seq<Sys>, moves: seq<Move>, i: u32, n: nat): nat
    requires n <= |moves| && |states| == |moves| + 1
  {
    if n == 0 then 0
    else
      var c, move := states[n - 1].c, moves[n - 1];
      ZeroCount(states, moves, i, n - 1) + Bit(move.t in c.pcs && Zeroes(c, move.t, move.a, i))
  }

  /**
   * Exactly-once reclamation. Over any bounded run, the threads that saw slot `i`'s count reach zero
   * are as many as the values dropped there plus the one about to be dropped, so never more than the
   * removes that succeeded there, and exactly as many once the slot is free.
   */
  lemma {:induction false} ReclaimedOnce(states: seq<Sys>, moves: seq<Move>, i: u32, n: nat)
    requires IsRun(states, moves) && n <= |moves|
    ensures var h := states[n].h;
            && ZeroCount(states, moves, i, n) == h.logs[i].died + Bit(Condemned(states[n].c, h, i))
            && ZeroCount(states, moves, i, n) <= h.logs[i].removed
            && (i in h.free ==> ZeroCount(states, moves, i, n) == h.logs[i].removed)
  {
    hide Inv, Bounded, Step, Condemned, Zeroes;
    Reachable(states, moves, n);
    DropsBound(states[n], i);
    if n == 0 {
      assert states[0].h.logs[i] == BLANK;
    } else {
      ReclaimedOnce(states, moves, i, n - 1);
      Reachable(states, moves, n - 1);
      var t, a := moves[n - 1].t, moves[n - 1].a;
      assert Step(states[n - 1], t, a, states[n]);
      StepThread(states[n - 1], t, a, states[n]);
      DropsMove(states[n - 1], t, a, states[n], i);
    }
  }

  lemma StepThread(s: Sys, t: Tid, a: Choice, s': Sys)
    requires Step(s, t, a, s')
    ensures t in s.c.pcs && t in s.h.wins
  {
    hide Next, Record;
  }

  lemma DropsBound(s: Sys, i: u32)
    requires Inv(s)
    ensures s.h.logs[i].died + Bit(Condemned(s.c, s.h, i)) <= s.h.logs[i].removed
    ensures i in s.h.free ==> s.h.logs[i].died == s.h.logs[i].removed && !Condemned(s.c, s.h, i)
    ensures s.h.logs[i] == BLANK ==> !Condemned(s.c, s.h, i)
  {
    hide ThreadOk, GuardOk, ChainOk, ChunksOk, CountOk, ChunkOf;
    assert SlotOk(s.c, s.h, i);
    if s.h.logs[i].owner.Some? {
      var t := s.h.logs[i].owner.value;
      OwnerKeeps(s, t, i);
      if Condemned(s.c, s.h, i) {
        DropsLiveValue(s, t);
      } else if Writing(s.c.pcs[t]) {
        WrittenIsLive(s, t, i);
      }
    }
  }

  lemma WrittenIsLive(s: Sys, t: Tid, i: u32)
    requires Inv(s) && t in s.c.pcs && Writing(s.c.pcs[t]) && Keeps(s.c.pcs[t], i)
    ensures s.c.slots[i].data.Live? && !Odd(s.c.slots[i].ver)
  {
    hide Inv, SlotOk, ThreadOk;
    At(s, t, i);
    KeeperFacts(s.c, s.h, t, i);
    if s.c.pcs[t].InsPub? {
      PublisherFacts(s.c, s.h, t);
    } else {
      OwnerFacts(s.c, s.h, t, i);
    }
  }

  /** Over any bounded run, once a count is zero only an inserter that owns the slot changes it, and it stores
      one over zero. */
  lemma ZeroIsSticky(states: seq<Sys>, moves: seq<Move>, n: nat, i: u32)
    requires IsRun(states, moves) && n < |moves| && states[n].c.slots[i].refs == 0
    ensures var c, t, refs' := states[n].c, moves[n].t, states[n + 1].c.slots[i].refs;
            && t in c.pcs
            && (refs' == 0 || (c.pcs[t].InsRefs? && c.pcs[t].key.idx == i && Owns(c.pcs[t], i) && refs' == 1))
  {
    hide Bounded, Next, Record;
    assert Step(states[n], moves[n].t, moves[n].a, states[n + 1]);
    hide IsRun, Inv;
    Reachable(states, moves, n);
    ZeroStays(states[n], moves[n].t, moves[n].a, i);
  }

  lemma ZeroStays(s: Sys, t: Tid, a: Choice, i: u32)
    requires Inv(s) && t in s.c.pcs && t in s.h.wins && s.c.slots[i].refs == 0
    ensures var refs' := Next(s.c, t, a).slots[i].refs;
            refs' == 0 || (s.c.pcs[t].InsRefs? && s.c.pcs[t].key.idx == i && Owns(s.c.pcs[t], i) && refs' == 1)
  {
    hide Inv, ThreadOk, SlotOk, Record, IdleStep, GetStep, RemoveStep, PushStep, PopStep, InsertStep, VecStep, LookStep;
    At(s, t, i);
    var pc := s.c.pcs[t];
    if pc.Idle? {
      ZeroNoGuards(s, t, a, i);
    } else if InGet(pc) {
      ZeroNotRaised(s, t, a, i);
    } else if InRemove(pc) {
      ZeroNotLowered(s, t, i);
    } else {
      ZeroElsewhere(s.c, t, a, i);
    }
  }

  lemma ZeroNoGuards(s: Sys, t: Tid, a: Choice, i: u32)
    requires Inv(s) && t in s.c.pcs && s.c.pcs[t].Idle? && s.c.slots[i].refs == 0
    ensures IdleStep(s.c, t, a).slots[i].refs == 0
  {
    hide Inv, SlotOk, ThreadOk;
    At(s, t, i);
    if (a.DropGuard? || a.CloneGuard?) && a.g in s.c.guards && s.c.guards[a.g].key.idx == i {
      assert a.g in Handles(s.c.guards, i);
      Referred(s.c, s.h, i);
    }
  }

  lemma ZeroNotRaised(s: Sys, t: Tid, a: Choice, i: u32)
    requires Inv(s) && t in s.c.pcs && InGet(s.c.pcs[t]) && s.c.slots[i].refs == 0
    ensures GetStep(s.c, t, a, s.c.pcs[t]).slots[i].refs == 0
  {
    hide Inv, SlotOk, ThreadOk;
    At(s, t, i);
    AcquirerFacts(s.c, s.h, t);
    if s.c.pcs[t].GetBack? && s.c.pcs[t].key.idx == i {
      assert t in Threads(s.c.pcs, Referring(i));
      Referred(s.c, s.h, i);
    }
  }

  lemma ZeroNotLowered(s: Sys, t: Tid, i: u32)
    requires Inv(s) && t in s.c.pcs && InRemove(s.c.pcs[t]) && s.c.slots[i].refs == 0
    ensures RemoveStep(s.c, t, s.c.pcs[t]).slots[i].refs == 0
  {
    hide Inv, SlotOk, ThreadOk;
    At(s, t, i);
    if s.c.pcs[t].RemDec? && s.c.pcs[t].key.idx == i {
      assert t in Threads(s.c.pcs, Referring(i));
      Referred(s.c, s.h, i);
    }
  }

  lemma ZeroElsewhere(c: Conf, t: Tid, a: Choice, i: u32)
    requires t in c.pcs && c.slots[i].refs == 0
    ensures InLook(c.pcs[t]) ==> LookStep(c, t, c.pcs[t]).slots[i].refs == 0
    ensures InPush(c.pcs[t]) ==> PushStep(c, t, a, c.pcs[t]).slots[i].refs == 0
    ensures InPop(c.pcs[t]) ==> PopStep(c, t, a, c.pcs[t]).slots[i].refs == 0
    ensures InVec(c.pcs[t]) ==> VecStep(c, t, c.pcs[t]).slots[i].refs == 0
    ensures InInsert(c.pcs[t]) ==>
              var refs := InsertStep(c, t, a, c.pcs[t]).slots[i].refs;
              refs == 0 || (c.pcs[t].InsRefs? && c.pcs[t].key.idx == i && refs == 1)
  {
    hide ChunkOf;
  }

  // --------------------------------------------------------------------------------------------
  // Guards
  // --------------------------------------------------------------------------------------------

  /** In every reachable state the slot of a guard holds the guard's value at the guard's version or just past
      it, and is neither free nor owned by anybody. */
  lemma GuardedSlot(states: seq<Sys>, moves: seq<Move>, n: nat, g: Gid)
    requires IsRun(states, moves) && n < |states| && g in states[n].c.guards
    ensures var s := states[n];
            var key := s.c.guards[g].key;
            && s.c.slots[key.idx].data == Live(s.c.guards[g].value)
            && (s.c.slots[key.idx].ver == key.ver || s.c.slots[key.idx].ver == Wrap(key.ver + 1))
            && key.idx !in s.h.free
            && forall t :: t in s.c.pcs ==> !Owns(s.c.pcs[t], key.idx)
  {
    hide IsRun, Inv, SlotOk, ThreadOk;
    Reachable(states, moves, n);
    var s := states[n];
    var i := s.c.guards[g].key.idx;
    CloneFacts(s, g);
    assert g in Handles(s.c.guards, i);
    GuardPlace(s, i);
    forall t | t in s.c.pcs && Owns(s.c.pcs[t], i) ensures false {
      At(s, t, i);
      KeeperFacts(s.c, s.h, t, i);
    }
  }

  lemma GuardPlace(s: Sys, i: u32)
    requires Inv(s) && Handles(s.c.guards, i) != {}
    ensures s.c.slots[i].refs > 0 && i !in s.h.free
  {
    hide ThreadOk, GuardOk, ChainOk, ChunksOk, CountOk, LifeOk, ChunkOf;
    assert SlotOk(s.c, s.h, i);
  }

  /** Guards may appear under new names and disappear; they never change. */
  predicate GuardsKeep(c: Conf, c': Conf, g: Gid) {
    && c.nextGid <= c'.nextGid
    && (g in c'.guards && g < c.nextGid ==> g in c.guards && c'.guards[g] == c.guards[g])
  }

  lemma GuardStep(c: Conf, t: Tid, a: Choice, g: Gid)
    requires t in c.pcs
    ensures GuardsKeep(c, Next(c, t, a), g)
  {
    hide IdleStep, GetStep, RemoveStep, PushStep, PopStep, InsertStep, VecStep, LookStep;
    var pc := c.pcs[t];
    if pc.Idle? {
      assert GuardsKeep(c, IdleStep(c, t, a), g) by { GuardFromIdle(c, t, a, g); }
    } else if InGet(pc) {
      assert GuardsKeep(c, GetStep(c, t, a, pc), g) by { GuardFromGet(c, t, a, g); }
    } else {
      GuardsElsewhere(c, t, a);
    }
  }

  lemma GuardFromIdle(c: Conf, t: Tid, a: Choice, g: Gid)
    requires t in c.pcs && c.pcs[t].Idle?
    ensures GuardsKeep(c, IdleStep(c, t, a), g)
  {
  }

  lemma GuardFromGet(c: Conf, t: Tid, a: Choice, g: Gid)
    requires t in c.pcs && InGet(c.pcs[t])
    ensures GuardsKeep(c, GetStep(c, t, a, c.pcs[t]), g)
  {
  }

  predicate SameGuards(c: Conf, c': Conf) {
    c'.guards == c.guards && c'.nextGid == c.nextGid
  }

  lemma GuardsElsewhere(c: Conf, t: Tid, a: Choice)
    requires t in c.pcs
    ensures InLook(c.pcs[t]) ==> SameGuards(c, LookStep(c, t, c.pcs[t]))
    ensures InRemove(c.pcs[t]) ==> SameGuards(c, RemoveStep(c, t, c.pcs[t]))
    ensures InPush(c.pcs[t]) ==> SameGuards(c, PushStep(c, t, a, c.pcs[t]))
    ensures InPop(c.pcs[t]) ==> SameGuards(c, PopStep(c, t, a, c.pcs[t]))
    ensures InInsert(c.pcs[t]) ==> SameGuards(c, InsertStep(c, t, a, c.pcs[t]))
    ensures InVec(c.pcs[t]) ==> SameGuards(c, VecStep(c, t, c.pcs[t]))
  {
    hide ChunkOf;
  }

  /**
   * Guard stability. A guard alive at two moments of a bounded run was alive in between, with the
   * same key and value, and its slot held that value all along, whatever the other threads did.
   */
  lemma {:induction false} GuardStable(states: seq<Sys>, moves: seq<Move>, g: Gid, n: nat, m: nat)
    requires IsRun(states, moves) && n <= m < |states|
    requires g in states[n].c.guards && g in states[m].c.guards
    ensures states[m].c.guards[g] == states[n].c.guards[g]
    ensures forall k :: n <= k <= m ==>
              && g in states[k].c.guards
              && states[k].c.slots[states[n].c.guards[g].key.idx].data == Live(states[n].c.guards[g].value)
    decreases m - n
  {
    hide Inv, Bounded, Record, Next;
    Reachable(states, moves, m);
    CloneFacts(states[m], g);
    if n < m {
      assert Step(states[m - 1], moves[m - 1].t, moves[m - 1].a, states[m]);
      GuardIdBelow(states, moves, g, n, m - 1);
      GuardStep(states[m - 1].c, moves[m - 1].t, moves[m - 1].a, g);
      GuardStable(states, moves, g, n, m - 1);
    }
  }

  lemma {:induction false} GuardIdBelow(states: seq<Sys>, moves: seq<Move>, g: Gid, n: nat, m: nat)
    requires IsRun(states, moves) && n <= m < |states|
    requires g in states[n].c.guards
    ensures g < states[m].c.nextGid
    decreases m - n
  {
    hide Inv, Bounded, Record, Next;
    if n == m {
      Reachable(states, moves, m);
      GuardBelow(states[m], g);
    } else {
      GuardIdBelow(states, moves, g, n, m - 1);
      assert Step(states[m - 1], moves[m - 1].t, moves[m - 1].a, states[m]);
      GuardStep(states[m - 1].c, moves[m - 1].t, moves[m - 1].a, g);
    }
  }

  lemma GuardBelow(s: Sys, g: Gid)
    requires Inv(s) && g in s.c.guards
    ensures g < s.c.nextGid
  {
    hide SlotOk, ThreadOk, ChainOk, ChunksOk, CountOk;
    assert GuardOk(s.c, g);
  }
}
