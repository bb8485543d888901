/** Steps that change shared memory keep the invariant, one lemma per kind of access. */
module Touching {
  import opened Machine
  import opened Location
  import opened Protocol
  import opened Invariant
  import opened Preservation

  // --------------------------------------------------------------------------------------------
  // Putting a step's parts together
  // --------------------------------------------------------------------------------------------

  /** The count moves exactly as the occupancy of slot `i` and thread `t`'s pending update do. */
  predicate Balanced(c: Conf, t: Tid, c': Conf, i: u32)
    requires t in c.pcs && t in c'.pcs
  {
    (c'.count - c.count - Bit(Odd(c'.slots[i].ver)) + Bit(Odd(c.slots[i].ver))
     + Bit(Adding(c'.pcs[t])) - Bit(Adding(c.pcs[t]))
     - Bit(Removing(c'.pcs[t])) + Bit(Removing(c.pcs[t]))) % 0x1_0000_0000 == 0
  }

  lemma SumOfMultiples(x: int, y: int)
    requires x % 0x1_0000_0000 == 0 && y % 0x1_0000_0000 == 0
    ensures (x + y) % 0x1_0000_0000 == 0
  {
  }

  lemma CountMoves(c: Conf, t: Tid, c': Conf, i: u32)
    requires CountOk(c) && t in c.pcs && t in c'.pcs && c'.pcs == c.pcs[t := c'.pcs[t]]
    requires c'.slots == c.slots[i := c'.slots[i]]
    requires Balanced(c, t, c', i)
    ensures CountOk(c')
  {
    hide OddSlots, Threads, Adding, Removing, Odd;
    OddSlotsUpdate(c.slots, i, c'.slots[i]);
    ThreadsUpdate(c.pcs, t, c'.pcs[t], Addings);
    ThreadsUpdate(c.pcs, t, c'.pcs[t], Removings);
    SumOfMultiples(
      c.count - |OddSlots(c.slots)| + |Threads(c.pcs, Addings)| - |Threads(c.pcs, Removings)|,
      c'.count - c.count - Bit(Odd(c'.slots[i].ver)) + Bit(Odd(c.slots[i].ver))
      + Bit(Adding(c'.pcs[t])) - Bit(Adding(c.pcs[t])) - Bit(Removing(c'.pcs[t])) + Bit(Removing(c.pcs[t])));
  }

  ghost predicate GuardsAlike(c: Conf, c': Conf, i: u32) {
    && c.nextGid <= c'.nextGid && c.len <= c'.len
    && (forall g :: g in c'.guards ==>
          || GuardOk(c', g)
          || (g in c.guards && c'.guards[g] == c.guards[g] && c.guards[g].key.idx != i))
    && (forall j: u32 :: j != i ==> c'.slots[j] == c.slots[j])
  }

  lemma GuardsKept(c: Conf, c': Conf, i: u32)
    requires GuardsAlike(c, c', i)
    requires forall g :: g in c.guards ==> GuardOk(c, g)
    ensures forall g :: g in c'.guards ==> GuardOk(c', g)
  {
  }

  lemma Assemble(s: Sys, t: Tid, s': Sys, i: u32)
    requires Inv(s) && Touches(s, t, s', i)
    requires Undisturbed(s, t, s', i)
    requires s'.c.slots == s.c.slots[i := s'.c.slots[i]]
    requires s'.c.len == s'.h.pushed
    requires SlotOk(s'.c, s'.h, i) && ThreadOk(s'.c, s'.h, t)
    requires GuardsAlike(s.c, s'.c, i)
    requires ChainOk(s'.c, s'.h) && ChunksOk(s'.c)
    requires Balanced(s.c, t, s'.c, i)
    ensures Inv(s')
  {
    hide SlotOk, ThreadOk, GuardOk, Undisturbed, ChainOk, ChunksOk, CountOk;
    Elsewhere(s, t, s', i);
    assert CountOk(s'.c) by {
      CountMoves(s.c, t, s'.c, i);
    }
    GuardsKept(s.c, s'.c, i);
  }

  /** A step that stores into slot `i` only, and may make or drop guards on slot `i` and count. */
  ghost predicate Stores(s: Sys, t: Tid, s': Sys, i: u32) {
    && t in s.c.pcs && t in s.h.wins && t in s'.c.pcs
    && s'.c == s.c.(slots := s.c.slots[i := s'.c.slots[i]], pcs := s.c.pcs[t := s'.c.pcs[t]],
                    guards := s'.c.guards, nextGid := s'.c.nextGid, count := s'.c.count)
    && s'.h == s.h.(logs := s.h.logs[i := s'.h.logs[i]])
    && s.c.nextGid <= s'.c.nextGid
    && (s'.c.slots[i].next == s.c.slots[i].next || s.c.head.idx != i)
  }

  /** Thread `t` has no business at any other slot, before or after. */
  ghost predicate OnlyAt(pc: PC, i: u32) {
    forall j: u32 :: j != i ==> !Refers(pc, j) && !Keeps(pc, j)
  }

  ghost predicate GuardsOnlyAt(c: Conf, c': Conf, i: u32) {
    forall j: u32 :: j != i ==> Handles(c'.guards, j) == Handles(c.guards, j)
  }

  lemma StoreTouches(s: Sys, t: Tid, s': Sys, i: u32)
    requires Stores(s, t, s', i)
    requires OnlyAt(s.c.pcs[t], i) && OnlyAt(s'.c.pcs[t], i) && GuardsOnlyAt(s.c, s'.c, i)
    ensures Touches(s, t, s', i)
  {
    hide ChunkOf;
  }

  lemma ChainFrame(c: Conf, h: Hist, c': Conf, h': Hist)
    requires ChainOk(c, h)
    requires c'.head == c.head && h'.free == h.free && h'.updates == h.updates
    requires forall i: u32 :: c'.slots[i].next == c.slots[i].next
    ensures ChainOk(c', h')
  {
  }

  /** All of a storing step but slot `i`, thread `t` and the guards on slot `i`. */
  lemma StoreStep(s: Sys, t: Tid, s': Sys, i: u32)
    requires Inv(s) && Stores(s, t, s', i)
    requires OnlyAt(s.c.pcs[t], i) && OnlyAt(s'.c.pcs[t], i) && GuardsOnlyAt(s.c, s'.c, i)
    requires s'.c.slots[i].next == s.c.slots[i].next || i !in s.h.free
    requires Undisturbed(s, t, s', i)
    requires SlotOk(s'.c, s'.h, i) && ThreadOk(s'.c, s'.h, t)
    requires GuardsAlike(s.c, s'.c, i)
    requires Balanced(s.c, t, s'.c, i)
    ensures Inv(s')
  {
    hide SlotOk, ThreadOk, GuardOk, Undisturbed, ChunksOk, CountOk, Touches, OnlyAt, GuardsOnlyAt, GuardsAlike;
    StoreTouches(s, t, s', i);
    assert ChainOk(s'.c, s'.h) by {
    }
    assert ChunksOk(s'.c) by {
      ChunksFrame(s.c, s'.c);
    }
    Assemble(s, t, s', i);
  }

  lemma ChunksFrame(c: Conf, c': Conf)
    requires ChunksOk(c)
    requires c'.chunks == c.chunks && c'.freed == c.freed && c'.serial == c.serial && c'.len == c.len
    ensures ChunksOk(c')
  {
  }

  // --------------------------------------------------------------------------------------------
  // Facts read off the invariant
  // --------------------------------------------------------------------------------------------

  lemma At(s: Sys, t: Tid, i: u32)
    requires Inv(s) && t in s.c.pcs
    ensures t in s.h.wins && ThreadOk(s.c, s.h, t) && SlotOk(s.c, s.h, i)
  {
    hide SlotOk, ThreadOk, GuardOk, ChainOk, ChunksOk, CountOk;
  }

  lemma KeeperFacts(c: Conf, h: Hist, u: Tid, i: u32)
    requires u in c.pcs && u in h.wins && ThreadOk(c, h, u) && Keeps(c.pcs[u], i)
    ensures h.logs[i].owner == Some(u) && !Odd(c.slots[i].ver)
    ensures Owns(c.pcs[u], i) ==> c.slots[i].refs == 0
    ensures !Owns(c.pcs[u], i) ==> Handles(c.guards, i) == {}
  {
    hide ChunkOf;
  }

  /** Program counters that rely on nothing but their own locals. */
  predicate Carefree(pc: PC) {
    || pc.Idle? || pc.Done? || pc.GetVer? || pc.GetBack? || pc.RemDec? || pc.RemCount?
    || pc.PopLoad? || pc.InsLen? || pc.InsCount?
  }

  lemma CarefreeOk(c: Conf, h: Hist, t: Tid, c': Conf, h': Hist)
    requires t in c.pcs && t in h.wins && ThreadOk(c, h, t)
    requires t in c'.pcs && t in h'.wins && Carefree(c'.pcs[t])
    requires h'.wins[t] == h.wins[t] && h'.updates >= h.updates
    ensures ThreadOk(c', h', t)
  {
  }

  lemma GuardsStay(s: Sys, c': Conf, i: u32)
    requires Inv(s)
    requires c'.guards == s.c.guards && c'.nextGid == s.c.nextGid && c'.len == s.c.len
    requires c'.slots == s.c.slots[i := c'.slots[i]]
    requires c'.slots[i].data == s.c.slots[i].data && c'.slots[i].ver == s.c.slots[i].ver
    ensures GuardsAlike(s.c, c', i)
  {
    hide SlotOk, ThreadOk, ChainOk, ChunksOk, CountOk;
    forall g | g in c'.guards ensures GuardOk(c', g) {
      assert GuardOk(s.c, g);
    }
  }

  // --------------------------------------------------------------------------------------------
  // Reference counts
  // --------------------------------------------------------------------------------------------

  /** Whoever keeps a slot that is referenced is about to publish it, and minds only its value and version. */
  lemma CountingUndisturbed(s: Sys, t: Tid, s': Sys, i: u32)
    requires Inv(s) && s.c.slots[i].refs > 0
    requires s'.c.slots[i].data == s.c.slots[i].data && s'.c.slots[i].ver == s.c.slots[i].ver
    requires s'.h.logs[i].owner == s.h.logs[i].owner || s.h.logs[i].owner in {None, Some(t)}
    requires Handles(s'.c.guards, i) == Handles(s.c.guards, i) || Handles(s.c.guards, i) != {} || Odd(s.c.slots[i].ver)
    ensures Undisturbed(s, t, s', i)
  {
    hide Inv, SlotOk, ThreadOk;
    forall u | u in s.c.pcs && u != t ensures KeptAlike(s.c, s.h, s'.c, s'.h, s.c.pcs[u], i) {
      At(s, u, i);
      if Keeps(s.c.pcs[u], i) {
        KeeperFacts(s.c, s.h, u, i);
      }
    }
  }

  lemma RaiseSlot(c: Conf, h: Hist, t: Tid, refs: u32, pc: PC, i: u32)
    requires t in c.pcs && SlotOk(c, h, i)
    requires !Refers(c.pcs[t], i) && Refers(pc, i) && !Keeps(c.pcs[t], i)
    requires refs == c.slots[i].refs && 0 < refs <= MAX_REFCOUNT
    ensures SlotOk(Goto(Store(c, i, c.slots[i].(refs := refs + 1)), t, pc), h, i)
  {
    hide ChunkOf, Threads, Handles;
    ThreadsUpdate(c.pcs, t, pc, Referring(i));
  }

  /** `acquire_guard`'s exchange succeeds. */
  lemma Raise(s: Sys, t: Tid, s': Sys)
    requires Inv(s) && t in s.c.pcs && t in s.h.wins
    requires s.c.pcs[t].GetCas? && s.c.slots[s.c.pcs[t].key.idx].refs == s.c.pcs[t].seen
    requires s' == Sys(GetStep(s.c, t, Tau, s.c.pcs[t]), s.h)
    ensures Inv(s')
  {
    hide Inv, SlotOk, ThreadOk, GuardsAlike, Undisturbed;
    var key := s.c.pcs[t].key;
    var i := key.idx;
    At(s, t, i);
    AcquirerFacts(s.c, s.h, t);
    RaiseSlot(s.c, s.h, t, s.c.slots[i].refs, GetVer(key), i);
    CountingUndisturbed(s, t, s', i);
    GuardsStay(s, s'.c, i);
    CarefreeOk(s.c, s.h, t, s'.c, s'.h);
    StoreStep(s, t, s', i);
  }

  lemma AcquirerFacts(c: Conf, h: Hist, t: Tid)
    requires t in c.pcs && t in h.wins && ThreadOk(c, h, t)
    ensures c.pcs[t].GetCas? ==> 0 < c.pcs[t].seen <= MAX_REFCOUNT
    ensures c.pcs[t].RemCas? ==> c.pcs[t].cur == c.pcs[t].key.ver
  {
    hide ChunkOf;
  }

  /** A slot somebody refers to has a positive count, and its value is there. */
  lemma Referred(c: Conf, h: Hist, i: u32)
    requires SlotOk(c, h, i)
    requires Handles(c.guards, i) != {} || Threads(c.pcs, Referring(i)) != {}
    ensures c.slots[i].refs > 0 && c.slots[i].data.Live? && i < c.len
    ensures h.logs[i].owner == None ==> i !in h.free && Published(c, i)
  {
    hide ChunkOf;
  }

  lemma GuardIdsFresh(s: Sys)
    requires Inv(s)
    ensures s.c.nextGid !in s.c.guards
  {
    hide SlotOk, ThreadOk, ChainOk, ChunksOk, CountOk;
    assert s.c.nextGid in s.c.guards ==> GuardOk(s.c, s.c.nextGid);
  }

  lemma GuardSlot(c: Conf, h: Hist, c': Conf, t: Tid, i: u32)
    requires SlotOk(c, h, i) && t in c.pcs && t in c'.pcs && c'.pcs == c.pcs[t := c'.pcs[t]]
    requires c'.slots == c.slots && c'.len == c.len && c'.chunks == c.chunks
    requires !Keeps(c.pcs[t], i)
    requires |Handles(c'.guards, i)| + Bit(Refers(c'.pcs[t], i)) == |Handles(c.guards, i)| + Bit(Refers(c.pcs[t], i))
    ensures SlotOk(c', h, i)
  {
    hide ChunkOf, Threads, Handles;
    ThreadsUpdate(c.pcs, t, c'.pcs[t], Referring(i));
  }

  /** The version matches: the acquirer's reference becomes a guard. */
  lemma MakeGuard(s: Sys, t: Tid, s': Sys)
    requires Inv(s) && t in s.c.pcs && t in s.h.wins
    requires s.c.pcs[t].GetVer? && s.c.slots[s.c.pcs[t].key.idx].ver == s.c.pcs[t].key.ver
    requires s' == Sys(GetStep(s.c, t, Tau, s.c.pcs[t]), s.h)
    ensures Inv(s')
  {
    hide Inv, SlotOk, ThreadOk, GuardOk, GuardsAlike, Undisturbed;
    var key := s.c.pcs[t].key;
    var i := key.idx;
    At(s, t, i);
    assert t in Threads(s.c.pcs, Referring(i));
    Referred(s.c, s.h, i);
    GuardIdsFresh(s);
    var guard := s'.c.guards[s.c.nextGid];
    forall j: u32 ensures Handles(s'.c.guards, j) == Handles(s.c.guards, j) + if i == j then {s.c.nextGid} else {} {
      HandlesAdded(s.c.guards, s.c.nextGid, guard, j);
    }
    HandlesAdded(s.c.guards, s.c.nextGid, guard, i);
    GuardSlot(s.c, s.h, s'.c, t, i);
    CountingUndisturbed(s, t, s', i);
    GuardAdded(s, s'.c, i, guard);
    CarefreeOk(s.c, s.h, t, s'.c, s'.h);
    StoreStep(s, t, s', i);
  }

  lemma GuardAdded(s: Sys, c': Conf, i: u32, guard: Guard)
    requires Inv(s) && guard.key.idx == i && i < s.c.len
    requires c'.guards == s.c.guards[s.c.nextGid := guard] && c'.nextGid == s.c.nextGid + 1 && c'.len == s.c.len
    requires c'.slots == s.c.slots[i := c'.slots[i]]
    requires c'.slots[i].data == s.c.slots[i].data == Live(guard.value) && c'.slots[i].ver == s.c.slots[i].ver
    requires s.c.slots[i].ver == guard.key.ver || s.c.slots[i].ver == Wrap(guard.key.ver + 1)
    ensures GuardsAlike(s.c, c', i)
  {
    hide SlotOk, ThreadOk, ChainOk, ChunksOk, CountOk;
    forall g | g in c'.guards ensures GuardOk(c', g) {
      assert g != s.c.nextGid ==> GuardOk(s.c, g);
    }
  }

  lemma Crowded(c: Conf, t: Tid, i: u32)
    requires t in Threads(c.pcs, Referring(i)) || Handles(c.guards, i) != {}
    ensures forall u :: u in c.pcs && u != t && Refers(c.pcs[u], i) ==>
              |Threads(c.pcs, Referring(i))| + |Handles(c.guards, i)| >= 2
  {
    var threads := Threads(c.pcs, Referring(i));
    forall u | u in c.pcs && u != t && Refers(c.pcs[u], i)
      ensures |threads| + |Handles(c.guards, i)| >= 2
    {
      assert u in threads;
      if t in threads {
        assert |threads - {t, u}| == |threads| - 2;
      }
    }
  }

  /** The last reference to a slot is held by somebody who does not keep it: nobody keeps it, and it is removed. */
  lemma LastReference(s: Sys, t: Tid, i: u32)
    requires Inv(s) && t in s.c.pcs && s.c.slots[i].refs == 1
    requires !Keeps(s.c.pcs[t], i)
    requires t in Threads(s.c.pcs, Referring(i)) || Handles(s.c.guards, i) != {}
    ensures s.h.logs[i].owner == None && !Odd(s.c.slots[i].ver) && s.h.logs[i].leaks == 0
    ensures |Threads(s.c.pcs, Referring(i))| + |Handles(s.c.guards, i)| == 1
  {
    hide Inv, ThreadOk, ChunkOf;
    At(s, t, i);
    Crowded(s.c, t, i);
    var owner := s.h.logs[i].owner;
    if owner.Some? {
      At(s, owner.value, i);
      KeeperFacts(s.c, s.h, owner.value, i);
    }
  }

  /** A reference goes away and others remain. */
  lemma LowerSlot(c: Conf, h: Hist, c': Conf, t: Tid, i: u32)
    requires SlotOk(c, h, i) && t in c.pcs && t in c'.pcs && c'.pcs == c.pcs[t := c'.pcs[t]]
    requires c.slots[i].refs > 1 && c'.slots[i] == c.slots[i].(refs := c.slots[i].refs - 1)
    requires c'.len == c.len && c'.chunks == c.chunks
    requires !Keeps(c.pcs[t], i)
    requires |Handles(c'.guards, i)| + Bit(Refers(c'.pcs[t], i)) == |Handles(c.guards, i)| + Bit(Refers(c.pcs[t], i)) - 1
    ensures SlotOk(c', h, i)
  {
    ThreadsUpdate(c.pcs, t, c'.pcs[t], Referring(i));
  }

  /** The last reference goes away: its holder now has the slot to itself. */
  lemma LastSlot(c: Conf, h: Hist, c': Conf, h': Hist, t: Tid, i: u32)
    requires SlotOk(c, h, i) && t in c.pcs && t in c'.pcs && c'.pcs == c.pcs[t := c'.pcs[t]]
    requires c.slots[i].refs == 1 && c'.slots[i] == c.slots[i].(refs := 0)
    requires c'.len == c.len && c'.chunks == c.chunks
    requires h.logs[i].owner == None && !Odd(c.slots[i].ver) && h.logs[i].leaks == 0
    requires h'.free == h.free && h'.logs[i] == h.logs[i].(owner := Some(t))
    requires !Keeps(c.pcs[t], i) && c'.pcs[t].Destroy? && c'.pcs[t].idx == i
    requires |Handles(c'.guards, i)| == |Handles(c.guards, i)| + Bit(Refers(c.pcs[t], i)) - 1
    ensures SlotOk(c', h', i)
    ensures t in h.wins && h'.wins == h.wins && h'.updates == h.updates && ThreadOk(c, h, t) ==> ThreadOk(c', h', t)
  {
    hide ChunkOf;
    ThreadsUpdate(c.pcs, t, c'.pcs[t], Referring(i));
  }

  /** `dec_ref_count` by a thread that gives up its own reference, or that of guard `g`. */
  lemma Lower(s: Sys, t: Tid, i: u32, after: After, guards: map<Gid, Guard>, s': Sys)
    requires Inv(s) && t in s.c.pcs && t in s.h.wins
    requires !Keeps(s.c.pcs[t], i) && OnlyAt(s.c.pcs[t], i) && GuardsOnlyAt(s.c, s.c.(guards := guards), i)
    requires |Handles(guards, i)| == |Handles(s.c.guards, i)| + Bit(Refers(s.c.pcs[t], i)) - 1
    requires Refers(s.c.pcs[t], i) || Handles(s.c.guards, i) != {}
    requires Handles(guards, i) == Handles(s.c.guards, i) || Handles(s.c.guards, i) != {}
    requires forall g :: g in guards ==> g in s.c.guards && guards[g] == s.c.guards[g]
    requires Adding(s.c.pcs[t]) == false && Removing(s.c.pcs[t]) == after.AfterRemove?
    requires s'.c == Dec(s.c.(guards := guards), t, i, after)
    requires s'.h == NoteDec(s.c, s.h, t, i)
    ensures Inv(s')
  {
    hide Inv, SlotOk, ThreadOk, GuardOk, GuardsAlike, Undisturbed;
    At(s, t, i);
    assert Refers(s.c.pcs[t], i) ==> t in Threads(s.c.pcs, Referring(i));
    Referred(s.c, s.h, i);
    LowerParts(s, t, i, after, guards, s');
    CountingUndisturbed(s, t, s', i);
    GuardsFewer(s, s'.c, i);
    StoreStep(s, t, s', i);
  }

  lemma LowerParts(s: Sys, t: Tid, i: u32, after: After, guards: map<Gid, Guard>, s': Sys)
    requires Inv(s) && t in s.c.pcs && t in s.h.wins
    requires !Keeps(s.c.pcs[t], i) && s.c.slots[i].refs > 0
    requires |Handles(guards, i)| == |Handles(s.c.guards, i)| + Bit(Refers(s.c.pcs[t], i)) - 1
    requires Refers(s.c.pcs[t], i) || Handles(s.c.guards, i) != {}
    requires s'.c == Dec(s.c.(guards := guards), t, i, after)
    requires s'.h == NoteDec(s.c, s.h, t, i)
    ensures SlotOk(s'.c, s'.h, i) && ThreadOk(s'.c, s'.h, t)
    ensures s'.h.logs[i].owner == s.h.logs[i].owner || s.h.logs[i].owner == None
  {
    hide Inv, SlotOk, ThreadOk;
    At(s, t, i);
    assert Refers(s.c.pcs[t], i) ==> t in Threads(s.c.pcs, Referring(i));
    if s.c.slots[i].refs == 1 {
      LastReference(s, t, i);
      LastSlot(s.c, s.h, s'.c, s'.h, t, i);
    } else {
      LowerSlot(s.c, s.h, s'.c, t, i);
      CarefreeOk(s.c, s.h, t, s'.c, s'.h);
    }
  }

  lemma GuardsFewer(s: Sys, c': Conf, i: u32)
    requires Inv(s)
    requires forall g :: g in c'.guards ==> g in s.c.guards && c'.guards[g] == s.c.guards[g]
    requires c'.nextGid == s.c.nextGid && c'.len == s.c.len
    requires c'.slots == s.c.slots[i := c'.slots[i]]
    requires c'.slots[i].data == s.c.slots[i].data && c'.slots[i].ver == s.c.slots[i].ver
    ensures GuardsAlike(s.c, c', i)
  {
    hide SlotOk, ThreadOk, ChainOk, ChunksOk, CountOk;
    forall g | g in c'.guards ensures GuardOk(c', g) {
      assert GuardOk(s.c, g);
    }
  }

  /** A thread gives up the reference it holds: a failed acquirer, or the remover with the map's share. */
  lemma LowerOwn(s: Sys, t: Tid, s': Sys)
    requires Inv(s) && t in s.c.pcs && t in s.h.wins
    requires s.c.pcs[t].GetBack? || s.c.pcs[t].RemDec?
    requires var pc := s.c.pcs[t];
             s'.c == Dec(s.c, t, pc.key.idx, if pc.GetBack? then AfterGet(pc.key) else AfterRemove(pc.key))
    requires s'.h == NoteDec(s.c, s.h, t, s.c.pcs[t].key.idx)
    ensures Inv(s')
  {
    hide Inv;
    var pc := s.c.pcs[t];
    Lower(s, t, pc.key.idx, if pc.GetBack? then AfterGet(pc.key) else AfterRemove(pc.key), s.c.guards, s');
  }

  /** A guard is dropped. */
  lemma LowerGuard(s: Sys, t: Tid, g: Gid, s': Sys)
    requires Inv(s) && t in s.c.pcs && t in s.h.wins && s.c.pcs[t].Idle? && g in s.c.guards
    requires s'.c == Dec(s.c.(guards := s.c.guards - {g}), t, s.c.guards[g].key.idx, AfterDrop)
    requires s'.h == NoteDec(s.c, s.h, t, s.c.guards[g].key.idx)
    ensures Inv(s')
  {
    hide Inv;
    var i := s.c.guards[g].key.idx;
    var guards := s.c.guards - {g};
    assert g in Handles(s.c.guards, i);
    HandlesDropped(s.c.guards, g, i);
    forall j: u32 | j != i ensures Handles(guards, j) == Handles(s.c.guards, j) {
    }
    Lower(s, t, i, AfterDrop, guards, s');
  }

  lemma RaiseForClone(c: Conf, h: Hist, c': Conf, h': Hist, t: Tid, i: u32)
    requires SlotOk(c, h, i) && t in c.pcs && c'.pcs == c.pcs
    requires 0 < c.slots[i].refs < 0xFFFF_FFFF && c'.slots[i] == c.slots[i].(refs := c.slots[i].refs + 1)
    requires c'.len == c.len && c'.chunks == c.chunks && h'.free == h.free
    requires h'.logs[i] == h.logs[i].(leaks := h'.logs[i].leaks)
    requires || (|Handles(c'.guards, i)| == |Handles(c.guards, i)| + 1
                 && h'.logs[i].leaks == h.logs[i].leaks && c.slots[i].refs <= MAX_REFCOUNT)
             || (|Handles(c'.guards, i)| == |Handles(c.guards, i)| && h'.logs[i].leaks == h.logs[i].leaks + 1)
    ensures SlotOk(c', h', i)
  {
    hide ChunkOf;
  }

  lemma CloneReady(s: Sys, t: Tid, g: Gid)
    requires Inv(s) && t in s.c.pcs && t in s.h.wins && g in s.c.guards
    ensures var guard := s.c.guards[g];
            var i := guard.key.idx;
            var guards := s.c.guards[s.c.nextGid := guard];
            && 0 < s.c.slots[i].refs <= MAX_REFCOUNT + 1 + s.h.logs[i].leaks
            && s.c.nextGid !in s.c.guards && Handles(s.c.guards, i) != {}
            && |Handles(guards, i)| == |Handles(s.c.guards, i)| + 1
            && (forall j: u32 :: Handles(guards, j) == Handles(s.c.guards, j) + if i == j then {s.c.nextGid} else {})
  {
    hide Inv, SlotOk, ThreadOk, GuardOk;
    var guard := s.c.guards[g];
    var i := guard.key.idx;
    At(s, t, i);
    assert g in Handles(s.c.guards, i);
    Referred(s.c, s.h, i);
    GuardIdsFresh(s);
    CountLimit(s.c, s.h, i);
    forall j: u32 ensures Handles(s.c.guards[s.c.nextGid := guard], j) == Handles(s.c.guards, j) + if i == j then {s.c.nextGid} else {} {
      HandlesAdded(s.c.guards, s.c.nextGid, guard, j);
    }
    HandlesAdded(s.c.guards, s.c.nextGid, guard, i);
  }

  /** A guard is cloned; above the limit the clone panics after raising the count. */
  lemma Clone(s: Sys, t: Tid, g: Gid, s': Sys)
    requires Inv(s) && t in s.c.pcs && t in s.h.wins && s.c.pcs[t].Idle? && g in s.c.guards
    requires s.c.slots[s.c.guards[g].key.idx].refs < 0xFFFF_FFFF
    requires s'.c == IdleStep(s.c, t, CloneGuard(g))
    requires s'.h == Record(s.c, s.h, t, CloneGuard(g))
    ensures Inv(s')
  {
    hide Inv, SlotOk, ThreadOk, GuardOk, GuardsAlike, Undisturbed, Handles, ChunkOf;
    var guard := s.c.guards[g];
    var i := guard.key.idx;
    At(s, t, i);
    CloneReady(s, t, g);
    CloneFacts(s, g);
    assert s.c.pcs == s.c.pcs[t := s.c.pcs[t]];
    RaiseForClone(s.c, s.h, s'.c, s'.h, t, i);
    CountingUndisturbed(s, t, s', i);
    CarefreeOk(s.c, s.h, t, s'.c, s'.h);
    if s.c.slots[i].refs <= MAX_REFCOUNT {
      GuardAdded(s, s'.c, i, guard);
    } else {
      GuardsStay(s, s'.c, i);
    }
    StoreStep(s, t, s', i);
  }

  lemma CountLimit(c: Conf, h: Hist, i: u32)
    requires SlotOk(c, h, i)
    ensures c.slots[i].refs <= MAX_REFCOUNT + 1 + h.logs[i].leaks
  {
  }

  lemma CloneFacts(s: Sys, g: Gid)
    requires Inv(s) && g in s.c.guards
    ensures var key := s.c.guards[g].key;
            && key.idx < s.c.len
            && s.c.slots[key.idx].data == Live(s.c.guards[g].value)
            && (s.c.slots[key.idx].ver == key.ver || s.c.slots[key.idx].ver == Wrap(key.ver + 1))
  {
    hide SlotOk, ThreadOk, ChainOk, ChunksOk, CountOk;
    assert GuardOk(s.c, g);
  }

  // --------------------------------------------------------------------------------------------
  // Versions and the element count
  // --------------------------------------------------------------------------------------------

  /** Nobody keeps an occupied slot, so nobody else minds. */
  lemma OccupiedUndisturbed(s: Sys, t: Tid, s': Sys, i: u32)
    requires Inv(s) && Odd(s.c.slots[i].ver)
    ensures Undisturbed(s, t, s', i)
  {
    hide Inv, SlotOk, ThreadOk;
    forall u | u in s.c.pcs && u != t ensures KeptAlike(s.c, s.h, s'.c, s'.h, s.c.pcs[u], i) {
      At(s, u, i);
      if Keeps(s.c.pcs[u], i) {
        KeeperFacts(s.c, s.h, u, i);
      }
    }
  }

  lemma EndOccupancy(c: Conf, h: Hist, c': Conf, h': Hist, t: Tid, i: u32)
    requires SlotOk(c, h, i) && t in c.pcs && t in c'.pcs && c'.pcs == c.pcs[t := c'.pcs[t]]
    requires Odd(c.slots[i].ver) && c'.slots[i] == c.slots[i].(ver := Wrap(c.slots[i].ver + 1))
    requires c'.len == c.len && c'.chunks == c.chunks && c'.guards == c.guards && h'.free == h.free
    requires h'.logs[i] == h.logs[i].(removed := h.logs[i].removed + 1)
    requires !Keeps(c.pcs[t], i) && !Refers(c.pcs[t], i) && Refers(c'.pcs[t], i)
    ensures SlotOk(c', h', i)
  {
    hide ChunkOf;
    ThreadsUpdate(c.pcs, t, c'.pcs[t], Referring(i));
  }

  lemma GuardsOutlive(s: Sys, c': Conf, i: u32)
    requires Inv(s)
    requires c'.guards == s.c.guards && c'.nextGid == s.c.nextGid && c'.len == s.c.len
    requires c'.slots == s.c.slots[i := s.c.slots[i].(ver := Wrap(s.c.slots[i].ver + 1))]
    requires Odd(s.c.slots[i].ver)
    ensures GuardsAlike(s.c, c', i)
  {
    hide SlotOk, ThreadOk, ChainOk, ChunksOk, CountOk;
    forall g | g in c'.guards ensures GuardOk(c', g) {
      assert GuardOk(s.c, g);
    }
  }

  /** `remove`'s exchange succeeds. */
  lemma RemoveWins(s: Sys, t: Tid, s': Sys)
    requires Inv(s) && t in s.c.pcs && t in s.h.wins
    requires s.c.pcs[t].RemCas? && s.c.slots[s.c.pcs[t].key.idx].ver == s.c.pcs[t].cur
    requires s'.c == RemoveStep(s.c, t, s.c.pcs[t])
    requires s'.h == Record(s.c, s.h, t, Tau)
    ensures Inv(s')
  {
    hide Inv, SlotOk, ThreadOk, GuardOk, GuardsAlike, Undisturbed;
    var i := s.c.pcs[t].key.idx;
    At(s, t, i);
    AcquirerFacts(s.c, s.h, t);
    EndOccupancy(s.c, s.h, s'.c, s'.h, t, i);
    OccupiedUndisturbed(s, t, s', i);
    GuardsOutlive(s, s'.c, i);
    CarefreeOk(s.c, s.h, t, s'.c, s'.h);
    StoreStep(s, t, s', i);
  }

  /** `num_elems` catches up with an insert or a remove. */
  lemma CatchUp(s: Sys, t: Tid, s': Sys)
    requires Inv(s) && t in s.c.pcs && t in s.h.wins
    requires s.c.pcs[t].RemCount? || s.c.pcs[t].InsCount?
    requires s'.h == s.h
    requires s'.c == if s.c.pcs[t].RemCount? then RemoveStep(s.c, t, s.c.pcs[t]) else InsertStep(s.c, t, Tau, s.c.pcs[t])
    ensures Inv(s')
  {
    hide Inv, SlotOk, ThreadOk, GuardOk, GuardsAlike, Undisturbed;
    var i := s.c.pcs[t].key.idx;
    At(s, t, i);
    assert s.c.slots == s.c.slots[i := s.c.slots[i]];
    assert s.h.logs == s.h.logs[i := s.h.logs[i]];
    GuardSlot(s.c, s.h, s'.c, t, i);
    UnchangedUndisturbed(s, t, s', i);
    GuardsStay(s, s'.c, i);
    CarefreeOk(s.c, s.h, t, s'.c, s'.h);
    StoreStep(s, t, s', i);
  }

  lemma UnchangedUndisturbed(s: Sys, t: Tid, s': Sys, i: u32)
    requires s'.c.slots[i] == s.c.slots[i] && s'.h.logs[i] == s.h.logs[i] && s'.c.guards == s.c.guards
    ensures Undisturbed(s, t, s', i)
  {
  }

  // --------------------------------------------------------------------------------------------
  // Exclusive owners
  // --------------------------------------------------------------------------------------------

  /** Nobody else keeps what thread `t` keeps. */
  lemma OwnerUndisturbed(s: Sys, t: Tid, s': Sys, i: u32)
    requires Inv(s) && s.h.logs[i].owner == Some(t)
    ensures Undisturbed(s, t, s', i)
  {
    hide Inv, SlotOk, ThreadOk;
    forall u | u in s.c.pcs && u != t ensures KeptAlike(s.c, s.h, s'.c, s'.h, s.c.pcs[u], i) {
      At(s, u, i);
      if Keeps(s.c.pcs[u], i) {
        KeeperFacts(s.c, s.h, u, i);
      }
    }
  }

  /** No guard names a slot with a count of zero. */
  lemma NoGuards(s: Sys, i: u32, c': Conf)
    requires Inv(s) && Handles(s.c.guards, i) == {}
    requires c'.guards == s.c.guards && c'.nextGid == s.c.nextGid && c'.len >= s.c.len
    requires forall j: u32 :: j != i ==> c'.slots[j] == s.c.slots[j]
    ensures GuardsAlike(s.c, c', i)
  {
    hide SlotOk, ThreadOk, ChainOk, ChunksOk, CountOk;
    forall g | g in c'.guards ensures s.c.guards[g].key.idx != i {
      assert g in Handles(s.c.guards, i) || s.c.guards[g].key.idx != i;
    }
  }

  lemma OwnedFacts(c: Conf, h: Hist, t: Tid, i: u32)
    requires SlotOk(c, h, i) && h.logs[i].owner == Some(t)
    ensures i !in h.free
    ensures c.slots[i].refs == 0 ==> Handles(c.guards, i) == {} && Threads(c.pcs, Referring(i)) == {} && h.logs[i].leaks == 0
  {
    hide ChunkOf;
  }

  /** An owner's private step: it keeps the slot, and the slot stays unreferenced and unoccupied. */
  lemma OwnedSlot(c: Conf, h: Hist, c': Conf, h': Hist, t: Tid, i: u32)
    requires SlotOk(c, h, i) && t in c.pcs && t in c'.pcs && c'.pcs == c.pcs[t := c'.pcs[t]]
    requires h.logs[i].owner == Some(t) && c.slots[i].refs == 0
    requires c'.slots[i].refs == 0 && c'.slots[i].ver == c.slots[i].ver
    requires Owns(c.pcs[t], i) && Owns(c'.pcs[t], i) && Growing(c.pcs[t]) == Growing(c'.pcs[t])
    requires c'.len == c.len && c'.chunks == c.chunks && c'.guards == c.guards && h'.free == h.free
    requires h'.logs[i] == h.logs[i].(born := h'.logs[i].born, died := h'.logs[i].died)
    requires h'.logs[i].born - Bit(Writing(c'.pcs[t])) == h.logs[i].born - Bit(Writing(c.pcs[t]))
    requires h'.logs[i].died == h.logs[i].died + h'.logs[i].born - h.logs[i].born + Bit(c.slots[i].data.Live?) - Bit(c'.slots[i].data.Live?)
    ensures SlotOk(c', h', i)
  {
    hide ChunkOf;
    ThreadsUpdate(c.pcs, t, c'.pcs[t], Referring(i));
  }

  /** What being at a program counter that owns slot `i` says about the slot. */
  lemma OwnerFacts(c: Conf, h: Hist, t: Tid, i: u32)
    requires t in c.pcs && t in h.wins && ThreadOk(c, h, t) && Owns(c.pcs[t], i)
    ensures OwnOk(c, h, t, i, c.pcs[t].Destroy? || c.pcs[t].InsRefs?)
    ensures c.pcs[t].InsWrite? || c.pcs[t].InsRefs? ==> c.pcs[t].key.ver == c.slots[i].ver + 1
    ensures c.pcs[t].InsRefs? ==> c.slots[i].data == Live(c.pcs[t].value)
    ensures c.pcs[t].PushCas? ==> c.slots[i].next == c.pcs[t].prev.idx
  {
    hide ChunkOf;
  }

  lemma PushThread(c: Conf, h: Hist, t: Tid, c': Conf, h': Hist)
    requires t in c.pcs && t in h.wins && ThreadOk(c, h, t)
    requires c.pcs[t].Destroy? || c.pcs[t].PushLink?
    requires c' == PushStep(c, t, Tau, c.pcs[t]) && h' == Record(c, h, t, Tau)
    ensures ThreadOk(c', h', t)
  {
    hide ChunkOf;
  }

  /** The value is dropped, or the next link is stored, by the thread that owns the slot. */
  lemma PrivatePush(s: Sys, t: Tid, s': Sys)
    requires Inv(s) && t in s.c.pcs && t in s.h.wins
    requires s.c.pcs[t].Destroy? || s.c.pcs[t].PushLink?
    requires s'.c == PushStep(s.c, t, Tau, s.c.pcs[t])
    requires s'.h == Record(s.c, s.h, t, Tau)
    ensures Inv(s')
  {
    hide Inv, SlotOk, ThreadOk, GuardOk, GuardsAlike, Undisturbed;
    var i := s.c.pcs[t].idx;
    At(s, t, i);
    OwnerFacts(s.c, s.h, t, i);
    OwnedFacts(s.c, s.h, t, i);
    assert s.h.logs == s.h.logs[i := s.h.logs[i]];
    OwnedSlot(s.c, s.h, s'.c, s'.h, t, i);
    OwnerUndisturbed(s, t, s', i);
    NoGuards(s, i, s'.c);
    PushThread(s.c, s.h, t, s'.c, s'.h);
    HeadElsewhere(s, i);
    StoreStep(s, t, s', i);
  }

  /** A slot that is not on the free list is not the head either. */
  lemma HeadElsewhere(s: Sys, i: u32)
    requires Inv(s) && i !in s.h.free && i < s.c.len
    ensures s.c.head.idx != i
  {
    hide SlotOk, ThreadOk;
    HeadExists(s);
  }

  lemma WriteThread(c: Conf, h: Hist, t: Tid, c': Conf, h': Hist)
    requires t in c.pcs && t in h.wins && ThreadOk(c, h, t) && c.pcs[t].InsWrite?
    requires c' == InsertStep(c, t, Tau, c.pcs[t]) && h' == Record(c, h, t, Tau)
    ensures ThreadOk(c', h', t)
  {
    hide ChunkOf;
  }

  /** The inserter writes the value into the slot it owns. */
  lemma WriteValue(s: Sys, t: Tid, s': Sys)
    requires Inv(s) && t in s.c.pcs && t in s.h.wins && s.c.pcs[t].InsWrite?
    requires s'.c == InsertStep(s.c, t, Tau, s.c.pcs[t])
    requires s'.h == Record(s.c, s.h, t, Tau)
    ensures Inv(s')
  {
    hide Inv, SlotOk, ThreadOk, GuardOk, GuardsAlike, Undisturbed;
    var i := s.c.pcs[t].key.idx;
    At(s, t, i);
    OwnerFacts(s.c, s.h, t, i);
    OwnedFacts(s.c, s.h, t, i);
    OwnedSlot(s.c, s.h, s'.c, s'.h, t, i);
    OwnerUndisturbed(s, t, s', i);
    NoGuards(s, i, s'.c);
    WriteThread(s.c, s.h, t, s'.c, s'.h);
    StoreStep(s, t, s', i);
  }

  lemma ShareSlot(c: Conf, h: Hist, c': Conf, t: Tid, i: u32)
    requires SlotOk(c, h, i) && t in c.pcs && t in c'.pcs && c'.pcs == c.pcs[t := c'.pcs[t]]
    requires h.logs[i].owner == Some(t) && c.slots[i].refs == 0 && c.slots[i].data.Live?
    requires c'.slots[i] == c.slots[i].(refs := 1)
    requires c.pcs[t].InsRefs? && c'.pcs[t].InsPub? && c.pcs[t].key.idx == i == c'.pcs[t].key.idx
    requires c'.len == c.len && c'.chunks == c.chunks && c'.guards == c.guards
    ensures SlotOk(c', h, i)
  {
    hide ChunkOf;
    ThreadsUpdate(c.pcs, t, c'.pcs[t], Referring(i));
  }

  lemma ShareThread(c: Conf, h: Hist, t: Tid)
    requires t in c.pcs && t in h.wins && ThreadOk(c, h, t) && c.pcs[t].InsRefs?
    requires Handles(c.guards, c.pcs[t].key.idx) == {}
    ensures ThreadOk(InsertStep(c, t, Tau, c.pcs[t]), h, t)
  {
    hide ChunkOf;
  }

  /** The inserter stores the count of one: the map's share, not yet backed by an odd version. */
  lemma StoreShare(s: Sys, t: Tid, s': Sys)
    requires Inv(s) && t in s.c.pcs && t in s.h.wins && s.c.pcs[t].InsRefs?
    requires s' == Sys(InsertStep(s.c, t, Tau, s.c.pcs[t]), s.h)
    ensures Inv(s')
  {
    hide Inv, SlotOk, ThreadOk, GuardOk, GuardsAlike, Undisturbed;
    var i := s.c.pcs[t].key.idx;
    At(s, t, i);
    OwnerFacts(s.c, s.h, t, i);
    OwnedFacts(s.c, s.h, t, i);
    assert s.h.logs == s.h.logs[i := s.h.logs[i]];
    ShareSlot(s.c, s.h, s'.c, t, i);
    OwnerUndisturbed(s, t, s', i);
    NoGuards(s, i, s'.c);
    ShareThread(s.c, s.h, t);
    StoreStep(s, t, s', i);
  }

  lemma PublisherFacts(c: Conf, h: Hist, t: Tid)
    requires t in c.pcs && t in h.wins && ThreadOk(c, h, t) && c.pcs[t].InsPub?
    ensures var key := c.pcs[t].key;
            && h.logs[key.idx].owner == Some(t)
            && key.ver == c.slots[key.idx].ver + 1 && c.slots[key.idx].data == Live(c.pcs[t].value)
            && Handles(c.guards, key.idx) == {}
  {
    hide ChunkOf;
  }

  lemma OccupySlot(c: Conf, h: Hist, c': Conf, h': Hist, t: Tid, i: u32)
    requires SlotOk(c, h, i) && t in c.pcs && t in c'.pcs && c'.pcs == c.pcs[t := c'.pcs[t]]
    requires h.logs[i].owner == Some(t) && c.pcs[t].InsPub? && c'.pcs[t].InsCount? && c.pcs[t].key.idx == i
    requires c.pcs[t].key.ver == c.slots[i].ver + 1
    requires c'.slots[i] == c.slots[i].(ver := c.slots[i].ver + 1)
    requires c'.len == c.len && c'.chunks == c.chunks && c'.guards == c.guards && h'.free == h.free
    requires h'.logs[i] == h.logs[i].(owner := None)
    ensures SlotOk(c', h', i)
  {
    hide ChunkOf, Handles;
    assert t in Threads(c.pcs, Referring(i));
    assert |Threads(c.pcs, Referring(i))| > 0;
    ThreadsUpdate(c.pcs, t, c'.pcs[t], Referring(i));
    hide Threads;
    OccupiedLife(c, h, c', h', t, i);
  }

  lemma OccupiedLife(c: Conf, h: Hist, c': Conf, h': Hist, t: Tid, i: u32)
    requires LifeOk(c, h, i) && t in c.pcs && h.logs[i].owner == Some(t) && c.pcs[t].InsPub? && !Odd(c.slots[i].ver)
    requires c'.slots[i] == c.slots[i].(ver := c.slots[i].ver + 1) && h'.logs[i] == h.logs[i].(owner := None)
    ensures LifeOk(c', h', i)
  {
  }

  /** The inserter stores the odd version: the slot is occupied. */
  lemma StoreVersion(s: Sys, t: Tid, s': Sys)
    requires Inv(s) && t in s.c.pcs && t in s.h.wins && s.c.pcs[t].InsPub?
    requires s'.c == InsertStep(s.c, t, Tau, s.c.pcs[t])
    requires s'.h == Record(s.c, s.h, t, Tau)
    ensures Inv(s')
  {
    hide Inv, SlotOk, ThreadOk, GuardOk, GuardsAlike, Undisturbed;
    var i := s.c.pcs[t].key.idx;
    At(s, t, i);
    PublisherFacts(s.c, s.h, t);
    OccupySlot(s.c, s.h, s'.c, s'.h, t, i);
    OwnerUndisturbed(s, t, s', i);
    NoGuards(s, i, s'.c);
    CarefreeOk(s.c, s.h, t, s'.c, s'.h);
    StoreStep(s, t, s', i);
  }

  // --------------------------------------------------------------------------------------------
  // The free list
  // --------------------------------------------------------------------------------------------

  /** Nobody keeps a slot without an owner. */
  lemma UnownedUndisturbed(s: Sys, t: Tid, s': Sys, i: u32)
    requires Inv(s) && s.h.logs[i].owner == None
    ensures Undisturbed(s, t, s', i)
  {
    hide Inv, SlotOk, ThreadOk;
    forall u | u in s.c.pcs && u != t ensures KeptAlike(s.c, s.h, s'.c, s'.h, s.c.pcs[u], i) {
      At(s, u, i);
      if Keeps(s.c.pcs[u], i) {
        KeeperFacts(s.c, s.h, u, i);
      }
    }
  }

  lemma NextTag(updates: nat)
    ensures Wrap(updates % 0x1_0000_0000 + 1) == (updates + 1) % 0x1_0000_0000
  {
  }

  lemma ChainPushed(c: Conf, h: Hist, c': Conf, h': Hist, i: u32)
    requires ChainOk(c, h) && i !in h.free
    requires c'.slots == c.slots && c.slots[i].next == c.head.idx
    requires c'.head == Head(Wrap(c.head.tag + 1), i)
    requires h'.free == [i] + h.free && h'.updates == h.updates + 1
    ensures ChainOk(c', h')
  {
    hide Wrap, NoDuplicates;
    NextTag(h.updates);
    PushedDiffer(h.free, i);
    LinksPushed(c.slots, h.free, i);
  }

  lemma LinksPushed(slots: Slots, free: seq<u32>, i: u32)
    requires forall k :: 0 <= k < |free| ==> slots[free[k]].next == LinkAfter(free, k + 1)
    requires slots[i].next == LinkAfter(free, 0)
    ensures forall k :: 0 <= k < |[i] + free| ==> slots[([i] + free)[k]].next == LinkAfter([i] + free, k + 1)
  {
  }

  lemma PushedDiffer(free: seq<u32>, i: u32)
    requires NoDuplicates(free) && i !in free
    ensures NoDuplicates([i] + free)
  {
    var longer := [i] + free;
    forall j, k | 0 <= j < k < |longer| ensures longer[j] != longer[k] {
      assert longer[k] == free[k - 1] && free[k - 1] in free;
    }
  }

  lemma ChainPopped(c: Conf, h: Hist, c': Conf, h': Hist)
    requires ChainOk(c, h) && h.free != []
    requires c'.slots == c.slots
    requires c'.head == Head(Wrap(c.head.tag + 1), c.slots[h.free[0]].next)
    requires h'.free == h.free[1..] && h'.updates == h.updates + 1
    ensures ChainOk(c', h')
    ensures h.free[0] !in h'.free
    ensures forall j: u32 :: j != h.free[0] ==> (j in h'.free <==> j in h.free)
  {
    hide Wrap;
    NextTag(h.updates);
    assert h.free == [h.free[0]] + h'.free;
    assert forall k :: 0 <= k < |h'.free| ==> h'.free[k] == h.free[k + 1];
  }

  lemma FreedSlot(c: Conf, h: Hist, c': Conf, h': Hist, t: Tid, i: u32)
    requires SlotOk(c, h, i) && t in c.pcs && t in c'.pcs && c'.pcs == c.pcs[t := c'.pcs[t]]
    requires h.logs[i].owner == Some(t) && c.slots[i].refs == 0 && !c.slots[i].data.Live?
    requires c.pcs[t].PushCas? && !Refers(c'.pcs[t], i)
    requires c'.slots == c.slots && c'.len == c.len && c'.chunks == c.chunks && c'.guards == c.guards
    requires i in h'.free && h'.logs[i] == h.logs[i].(owner := None)
    ensures SlotOk(c', h', i)
  {
    hide ChunkOf;
    ThreadsUpdate(c.pcs, t, c'.pcs[t], Referring(i));
  }

  /** What `push_free_index`'s successful exchange touches. */
  lemma PushTouches(s: Sys, t: Tid, s': Sys)
    requires t in s.c.pcs && t in s.h.wins && s.c.pcs[t].PushCas? && s.c.head == s.c.pcs[t].prev
    requires s'.c == PushStep(s.c, t, Tau, s.c.pcs[t])
    requires s'.h == Record(s.c, s.h, t, Tau)
    ensures Touches(s, t, s', s.c.pcs[t].idx)
  {
    hide ChunkOf, Handles;
    assert s.h.wins == s.h.wins[t := s.h.wins[t]];
  }

  /** `push_free_index`'s exchange succeeds. */
  lemma PushWins(s: Sys, t: Tid, s': Sys)
    requires Inv(s) && t in s.c.pcs && t in s.h.wins
    requires s.c.pcs[t].PushCas? && s.c.head == s.c.pcs[t].prev
    requires s'.c == PushStep(s.c, t, Tau, s.c.pcs[t])
    requires s'.h == Record(s.c, s.h, t, Tau)
    ensures Inv(s')
    ensures s'.h.free == [s.c.pcs[t].idx] + s.h.free
  {
    hide SlotOk, ThreadOk, GuardOk, GuardsAlike, Undisturbed, Touches, ChainOk, ChunksOk, CountOk;
    var i := s.c.pcs[t].idx;
    At(s, t, i);
    OwnerFacts(s.c, s.h, t, i);
    OwnedFacts(s.c, s.h, t, i);
    assert s.c.slots == s.c.slots[i := s.c.slots[i]];
    FreedSlot(s.c, s.h, s'.c, s'.h, t, i);
    OwnerUndisturbed(s, t, s', i);
    NoGuards(s, i, s'.c);
    CarefreeOk(s.c, s.h, t, s'.c, s'.h);
    ChainPushed(s.c, s.h, s'.c, s'.h, i);
    ChunksFrame(s.c, s'.c);
    PushTouches(s, t, s');
    Assemble(s, t, s', i);
  }

  lemma PopperFacts(c: Conf, h: Hist, t: Tid)
    requires t in c.pcs && t in h.wins && ThreadOk(c, h, t) && c.pcs[t].PopCas?
    ensures var pc := c.pcs[t];
            && pc.prev.idx != SENTINEL
            && pc.prev.tag == h.wins[t].seen % 0x1_0000_0000 && h.wins[t].seen <= h.updates
            && (h.wins[t].seen == h.updates ==> pc.next == c.slots[pc.prev.idx].next)
  {
    hide ChunkOf;
  }

  /** Tags that agree modulo 2^32 and lie less than 2^32 updates apart are the same tag. */
  lemma TagsAgree(seen: nat, updates: nat)
    requires seen <= updates && updates - seen < WORD
    requires seen % 0x1_0000_0000 == updates % 0x1_0000_0000
    ensures seen == updates
  {
  }

  lemma TakenSlot(c: Conf, h: Hist, c': Conf, h': Hist, t: Tid, i: u32)
    requires SlotOk(c, h, i) && t in c.pcs && t in c'.pcs && c'.pcs == c.pcs[t := c'.pcs[t]]
    requires t in h.wins && ThreadOk(c, h, t) && h'.wins == h.wins && h'.updates >= h.updates
    requires i in h.free && i !in h'.free
    requires c.pcs[t].PopCas? && c'.pcs[t] == InsVer(i)
    requires c'.slots == c.slots && c'.len == c.len && c'.chunks == c.chunks && c'.guards == c.guards
    requires h'.logs[i] == h.logs[i].(owner := Some(t))
    ensures SlotOk(c', h', i) && ThreadOk(c', h', t)
    ensures h.logs[i].owner == None && Handles(c.guards, i) == {}
  {
    hide ChunkOf;
    ThreadsUpdate(c.pcs, t, c'.pcs[t], Referring(i));
  }

  lemma PopTouches(s: Sys, t: Tid, s': Sys)
    requires t in s.c.pcs && t in s.h.wins && s.c.pcs[t].PopCas? && s.c.head == s.c.pcs[t].prev
    requires s'.c == PopStep(s.c, t, Tau, s.c.pcs[t])
    requires s'.h == Record(s.c, s.h, t, Tau)
    requires forall j: u32 :: j != s.c.head.idx ==> (j in s'.h.free <==> j in s.h.free)
    ensures Touches(s, t, s', s.c.head.idx)
  {
    hide ChunkOf, Handles;
    assert s.h.wins == s.h.wins[t := s.h.wins[t]];
  }

  /** `pop_free_index`'s exchange succeeds: under the tag bound it removes exactly the head. */
  lemma PopWins(s: Sys, t: Tid, s': Sys)
    requires Inv(s) && t in s.c.pcs && t in s.h.wins
    requires s.c.pcs[t].PopCas? && s.c.head == s.c.pcs[t].prev
    requires s.h.updates - s.h.wins[t].seen < WORD
    requires s'.c == PopStep(s.c, t, Tau, s.c.pcs[t])
    requires s'.h == Record(s.c, s.h, t, Tau)
    ensures Inv(s')
    ensures s.h.free == [s.c.pcs[t].prev.idx] + s'.h.free
  {
    hide SlotOk, ThreadOk, GuardOk, GuardsAlike, Undisturbed, Touches, ChunksOk, CountOk, HeadOk;
    var i := s.c.head.idx;
    At(s, t, i);
    PopperFacts(s.c, s.h, t);
    HeadExists(s);
    TagsAgree(s.h.wins[t].seen, s.h.updates);
    ChainPopped(s.c, s.h, s'.c, s'.h);
    hide ChainOk;
    assert s.c.slots == s.c.slots[i := s.c.slots[i]];
    TakenSlot(s.c, s.h, s'.c, s'.h, t, i);
    UnownedUndisturbed(s, t, s', i);
    NoGuards(s, i, s'.c);
    ChunksFrame(s.c, s'.c);
    PopTouches(s, t, s');
    Assemble(s, t, s', i);
  }

  // --------------------------------------------------------------------------------------------
  // Growth
  // --------------------------------------------------------------------------------------------

  lemma PushedSlot(c: Conf, h: Hist, c': Conf, h': Hist, t: Tid, i: u32)
    requires SlotOk(c, h, i) && t in c.pcs && t in c'.pcs && c'.pcs == c.pcs[t := c'.pcs[t]]
    requires t in h.wins && ThreadOk(c, h, t) && h'.wins == h.wins && h'.updates == h.updates
    requires i == c.len && c'.len == i + 1
    requires c.pcs[t].InsLen? && c'.pcs[t] == InsChunk(i)
    requires c'.slots == c.slots && c'.guards == c.guards && h'.free == h.free
    requires h'.logs[i] == h.logs[i].(owner := Some(t))
    ensures SlotOk(c', h', i) && ThreadOk(c', h', t)
    ensures h.logs[i].owner == None && Handles(c.guards, i) == {}
  {
    hide ChunkOf;
    ThreadsUpdate(c.pcs, t, c'.pcs[t], Referring(i));
  }

  lemma LenTouches(s: Sys, t: Tid, s': Sys)
    requires t in s.c.pcs && t in s.h.wins && s.c.pcs[t].InsLen? && s.c.len < 0xFFFF_FFFF
    requires s'.c == VecStep(s.c, t, s.c.pcs[t])
    requires s'.h == Record(s.c, s.h, t, Tau)
    ensures Touches(s, t, s', s.c.len)
  {
    hide ChunkOf, Handles;
    assert s.h.wins == s.h.wins[t := s.h.wins[t]];
  }

  /** `push_zeroed` raises `len`: the new index is the pusher's. */
  lemma RaiseLen(s: Sys, t: Tid, s': Sys)
    requires Inv(s) && t in s.c.pcs && t in s.h.wins && s.c.pcs[t].InsLen?
    requires s.c.len < 0xFFFF_FFFF
    requires s'.c == VecStep(s.c, t, s.c.pcs[t])
    requires s'.h == Record(s.c, s.h, t, Tau)
    ensures Inv(s')
  {
    hide SlotOk, ThreadOk, GuardOk, GuardsAlike, Undisturbed, Touches, CountOk;
    var i := s.c.len;
    At(s, t, i);
    PushedSlot(s.c, s.h, s'.c, s'.h, t, i);
    UnownedUndisturbed(s, t, s', i);
    NoGuards(s, i, s'.c);
    LenTouches(s, t, s');
    assert s.c.slots == s.c.slots[i := s.c.slots[i]];
    Assemble(s, t, s', i);
  }

  lemma ChunksPublished(c: Conf, c': Conf, chunk: nat, t: Tid, block: Block)
    requires ChunksOk(c) && BlockOk(c, t, block)
    requires c' == Publish(c, chunk, block).(pcs := c'.pcs)
    requires forall j: nat :: j < chunk && j < CHUNKS && j !in c.chunks ==> STARTS[j] < c.len
    ensures ChunksOk(c')
  {
    if chunk !in c.chunks {
      assert c'.chunks == c.chunks[chunk := block] && c'.freed == c.freed;
    } else {
      assert c'.chunks == c.chunks && c'.freed == c.freed + {block};
    }
  }

  lemma PublishGrows(c: Conf, c': Conf, chunk: nat, t: Tid, block: Block)
    requires block.maker == t
    requires c' == Publish(c, chunk, block).(pcs := c'.pcs)
    ensures Grows(c, t, c')
  {
    forall b: Block | b.maker != t && (b in c'.chunks.Values || b in c'.freed)
      ensures b in c.chunks.Values || b in c.freed
    {
      if b in c'.chunks.Values {
        var k :| k in c'.chunks && c'.chunks[k] == b;
        assert k in c.chunks;
      }
    }
  }

  lemma BlockFacts(c: Conf, h: Hist, t: Tid)
    requires t in c.pcs && t in h.wins && ThreadOk(c, h, t)
    requires c.pcs[t].InsChunkCas? || c.pcs[t].ResChunkCas?
    ensures BlockOk(c, t, c.pcs[t].block) && c.pcs[t].block.maker == t
    ensures c.pcs[t].ResChunkCas? ==> forall j: nat :: j < c.pcs[t].chunk ==> j in c.chunks
  {
    hide ChunkOf;
  }

  lemma PushChunkTouches(s: Sys, t: Tid, s': Sys, i: u32)
    requires t in s.c.pcs && t in s.h.wins && s.c.pcs[t].InsChunkCas? && s.c.pcs[t].idx == i
    requires s'.c == VecStep(s.c, t, s.c.pcs[t]) && s'.h == s.h
    requires Grows(s.c, t, s'.c)
    ensures Touches(s, t, s', i) && QuietAt(s'.c, s.c.pcs[t], s'.c.pcs[t], i)
  {
    hide GetLocation, Handles;
    assert s.h.wins == s.h.wins[t := s.h.wins[t]];
  }

  lemma ReserveTouches(s: Sys, t: Tid, s': Sys, i: u32)
    requires t in s.c.pcs && t in s.h.wins && s.c.pcs[t].ResChunkCas?
    requires s'.c == VecStep(s.c, t, s.c.pcs[t]) && s'.h == s.h
    requires Grows(s.c, t, s'.c)
    ensures Touches(s, t, s', i) && QuietAt(s'.c, s.c.pcs[t], s'.c.pcs[t], i)
  {
    hide ChunkOf, Handles;
    assert s.h.wins == s.h.wins[t := s.h.wins[t]];
  }

  lemma PublishThread(c: Conf, h: Hist, t: Tid)
    requires t in c.pcs && t in h.wins && ThreadOk(c, h, t)
    requires c.pcs[t].ResChunkCas? || c.pcs[t].InsChunkCas?
    ensures ThreadOk(VecStep(c, t, c.pcs[t]), h, t)
  {
    hide ChunkOf;
  }

  /** The slot whose chunk is published, where it matters whose it is. */
  function PublishedFor(pc: PC): u32 {
    if pc.InsChunkCas? then pc.idx else 0
  }

  lemma PublishTouches(s: Sys, t: Tid, s': Sys)
    requires Inv(s) && t in s.c.pcs && t in s.h.wins
    requires s.c.pcs[t].ResChunkCas? || s.c.pcs[t].InsChunkCas?
    requires s'.c == VecStep(s.c, t, s.c.pcs[t]) && s'.h == s.h
    ensures var i := PublishedFor(s.c.pcs[t]);
            && t in s'.c.pcs
            && ChunksOk(s'.c) && Grows(s.c, t, s'.c) && Touches(s, t, s', i) && QuietAt(s'.c, s.c.pcs[t], s'.c.pcs[t], i)
  {
    hide SlotOk, ThreadOk, GuardOk, Touches, ChainOk, ChunksOk, CountOk, BlockOk, ChunkOf, Grows, QuietAt;
    var pc := s.c.pcs[t];
    var i := PublishedFor(pc);
    At(s, t, i);
    BlockFacts(s.c, s.h, t);
    if pc.InsChunkCas? {
      OwnerFacts(s.c, s.h, t, i);
      forall j: nat | j < ChunkOf(i) ensures STARTS[j] < s.c.len {
        StartBelow(j, i);
      }
      ChunksPublished(s.c, s'.c, ChunkOf(i), t, pc.block);
      PublishGrows(s.c, s'.c, ChunkOf(i), t, pc.block);
      PushChunkTouches(s, t, s', i);
    } else {
      ChunksPublished(s.c, s'.c, pc.chunk, t, pc.block);
      PublishGrows(s.c, s'.c, pc.chunk, t, pc.block);
      ReserveTouches(s, t, s', i);
    }
  }

  /** A chunk pointer is exchanged from null, or the loser frees its own block. */
  lemma PublishChunk(s: Sys, t: Tid, s': Sys)
    requires Inv(s) && t in s.c.pcs && t in s.h.wins
    requires s.c.pcs[t].ResChunkCas? || s.c.pcs[t].InsChunkCas?
    requires s'.c == VecStep(s.c, t, s.c.pcs[t]) && s'.h == s.h
    ensures Inv(s')
  {
    hide SlotOk, ThreadOk, GuardOk, GuardsAlike, Undisturbed, Touches, ChainOk, ChunksOk, CountOk, BlockOk, ChunkOf, Grows, QuietAt;
    var i := PublishedFor(s.c.pcs[t]);
    PublishTouches(s, t, s');
    At(s, t, i);
    SlotFrame(s.c, s.h, t, s'.c, s'.h, i);
    assert s.c.slots == s.c.slots[i := s.c.slots[i]];
    assert s.h.logs == s.h.logs[i := s.h.logs[i]];
    UnchangedUndisturbed(s, t, s', i);
    GuardsStay(s, s'.c, i);
    PublishThread(s.c, s.h, t);
    ChainFrame(s.c, s.h, s'.c, s'.h);
    Assemble(s, t, s', i);
  }

  // --------------------------------------------------------------------------------------------
  // Every step
  // --------------------------------------------------------------------------------------------

  lemma Stutters(s: Sys, t: Tid, s': Sys)
    requires Inv(s) && s'.c == s.c && s'.h == s.h
    ensures Inv(s')
  {
  }

  lemma IdleKeeps(s: Sys, t: Tid, a: Choice, s': Sys)
    requires Inv(s) && t in s.c.pcs && t in s.h.wins && s.c.pcs[t].Idle?
    requires s'.c == IdleStep(s.c, t, a) && s'.h == Record(s.c, s.h, t, a)
    requires a.CloneGuard? && a.g in s.c.guards ==> s.c.slots[s.c.guards[a.g].key.idx].refs < 0xFFFF_FFFF
    ensures Inv(s')
  {
    hide Inv, ThreadOk, Quiet, Dec, NoteDec;
    At(s, t, 0);
    match a
    case Call(op) =>
      CallAndReturn(s.c, s.h, t, Begin(op));
      QuietStep(s, t, s');
    case DropGuard(g) =>
      if g in s.c.guards {
        LowerGuard(s, t, g, s');
      } else {
        Stutters(s, t, s');
      }
    case CloneGuard(g) =>
      if g in s.c.guards {
        Clone(s, t, g, s');
      } else {
        Stutters(s, t, s');
      }
    case _ => Stutters(s, t, s');
  }

  lemma GetKeeps(s: Sys, t: Tid, a: Choice, s': Sys)
    requires Inv(s) && t in s.c.pcs && t in s.h.wins && InGet(s.c.pcs[t])
    requires s'.c == GetStep(s.c, t, a, s.c.pcs[t]) && s'.h == Record(s.c, s.h, t, a)
    ensures Inv(s')
  {
    hide Inv, ThreadOk, Quiet;
    At(s, t, 0);
    var pc := s.c.pcs[t];
    var slot := s.c.slots[pc.key.idx];
    if pc.GetCas? && a != Spurious && slot.refs == pc.seen {
      Raise(s, t, s');
    } else if pc.GetVer? && slot.ver == pc.key.ver {
      MakeGuard(s, t, s');
    } else if pc.GetBack? {
      LowerOwn(s, t, s');
    } else {
      GetReads(s.c, s.h, t, a);
      QuietStep(s, t, s');
    }
  }

  lemma RemoveKeeps(s: Sys, t: Tid, a: Choice, s': Sys)
    requires Inv(s) && t in s.c.pcs && t in s.h.wins && InRemove(s.c.pcs[t])
    requires s'.c == RemoveStep(s.c, t, s.c.pcs[t]) && s'.h == Record(s.c, s.h, t, a)
    ensures Inv(s')
  {
    hide Inv, ThreadOk, Quiet;
    At(s, t, 0);
    var pc := s.c.pcs[t];
    if pc.RemCas? && s.c.slots[pc.key.idx].ver == pc.cur {
      RemoveWins(s, t, s');
    } else if pc.RemDec? {
      LowerOwn(s, t, s');
    } else if pc.RemCount? {
      CatchUp(s, t, s');
    } else {
      RemoveReads(s.c, s.h, t);
      QuietStep(s, t, s');
    }
  }

  lemma PushKeeps(s: Sys, t: Tid, a: Choice, s': Sys)
    requires Inv(s) && t in s.c.pcs && t in s.h.wins && InPush(s.c.pcs[t])
    requires s'.c == PushStep(s.c, t, a, s.c.pcs[t]) && s'.h == Record(s.c, s.h, t, a)
    ensures Inv(s')
  {
    hide Inv, ThreadOk, Quiet;
    At(s, t, 0);
    var pc := s.c.pcs[t];
    if pc.PushCas? && a != Spurious && s.c.head == pc.prev {
      PushWins(s, t, s');
    } else if pc.Destroy? || pc.PushLink? {
      PrivatePush(s, t, s');
    } else {
      PushReads(s.c, s.h, t, a);
      QuietStep(s, t, s');
    }
  }

  lemma PopKeeps(s: Sys, t: Tid, a: Choice, s': Sys)
    requires Inv(s) && t in s.c.pcs && t in s.h.wins && InPop(s.c.pcs[t])
    requires s.c.pcs[t].PopCas? ==> s.h.updates - s.h.wins[t].seen < WORD
    requires s'.c == PopStep(s.c, t, a, s.c.pcs[t]) && s'.h == Record(s.c, s.h, t, a)
    ensures Inv(s')
  {
    hide Inv, ThreadOk, Quiet, HeadOk;
    At(s, t, 0);
    var pc := s.c.pcs[t];
    if pc.PopCas? && a != Spurious && s.c.head == pc.prev {
      PopWins(s, t, s');
    } else {
      HeadExists(s);
      PopReads(s.c, s.h, t, a);
      QuietStep(s, t, s');
    }
  }

  lemma InsertKeeps(s: Sys, t: Tid, a: Choice, s': Sys)
    requires Inv(s) && t in s.c.pcs && t in s.h.wins && InInsert(s.c.pcs[t])
    requires s'.c == InsertStep(s.c, t, a, s.c.pcs[t]) && s'.h == Record(s.c, s.h, t, a)
    ensures Inv(s')
  {
    hide Inv, InsertStep, Record;
    if s.c.pcs[t].InsVer? || s.c.pcs[t].InsCall? {
      OfferKeeps(s, t, a, s');
    } else {
      StoreKeeps(s, t, a, s');
    }
  }

  lemma OfferKeeps(s: Sys, t: Tid, a: Choice, s': Sys)
    requires Inv(s) && t in s.c.pcs && t in s.h.wins && (s.c.pcs[t].InsVer? || s.c.pcs[t].InsCall?)
    requires s'.c == InsertStep(s.c, t, a, s.c.pcs[t]) && s'.h == Record(s.c, s.h, t, a)
    ensures Inv(s')
  {
    hide Inv, ThreadOk, SlotOk, Quiet;
    At(s, t, 0);
    if s.c.pcs[t].InsVer? {
      VersionReads(s.c, s.h, t, a);
      QuietStep(s, t, s');
    } else if a.FOk? || a.FErr? || a.FPanic? {
      ClosureReturns(s.c, s.h, t, a);
      QuietStep(s, t, s');
    } else {
      Stutters(s, t, s');
    }
  }

  lemma StoreKeeps(s: Sys, t: Tid, a: Choice, s': Sys)
    requires Inv(s) && t in s.c.pcs && t in s.h.wins && InInsert(s.c.pcs[t]) && !s.c.pcs[t].InsVer? && !s.c.pcs[t].InsCall?
    requires s'.c == InsertStep(s.c, t, a, s.c.pcs[t]) && s'.h == Record(s.c, s.h, t, a)
    ensures Inv(s')
  {
    hide Inv;
    match s.c.pcs[t]
    case InsWrite(_, _) => WriteValue(s, t, s');
    case InsRefs(_, _) => StoreShare(s, t, s');
    case InsPub(_, _) => StoreVersion(s, t, s');
    case InsCount(_, _) => CatchUp(s, t, s');
  }

  lemma VecKeeps(s: Sys, t: Tid, a: Choice, s': Sys)
    requires Inv(s) && t in s.c.pcs && t in s.h.wins && InVec(s.c.pcs[t])
    requires s.c.pcs[t].InsLen? ==> s.c.len < 0xFFFF_FFFF
    requires s'.c == VecStep(s.c, t, s.c.pcs[t]) && s'.h == Record(s.c, s.h, t, a)
    ensures Inv(s')
  {
    hide ThreadOk, Quiet, SlotOk, ChunksOk, ChainOk, CountOk, ChunkOf, GuardOk;
    At(s, t, 0);
    FreshBlock(s.c, t);
    match s.c.pcs[t]
    case InsLen => RaiseLen(s, t, s');
    case InsChunk(_) =>
      PushChunkReads(s.c, s.h, t);
      QuietStep(s, t, s');
    case ResChunk(_, _) =>
      ReserveReads(s.c, s.h, t);
      QuietStep(s, t, s');
    case _ => PublishChunk(s, t, s');
  }

  /** The bounds, at the only places where a step depends on them. */
  lemma BoundsUsed(s: Sys, t: Tid, a: Choice, s': Sys)
    requires Inv(s) && Bounded(s) && Bounded(s') && Step(s, t, a, s')
    ensures s.c.pcs[t].PopCas? ==> s.h.updates - s.h.wins[t].seen < WORD
    ensures s.c.pcs[t].InsLen? ==> s.c.len < 0xFFFF_FFFF
    ensures s.c.pcs[t].Idle? && a.CloneGuard? && a.g in s.c.guards ==>
              s.c.slots[s.c.guards[a.g].key.idx].refs < 0xFFFF_FFFF
  {
    hide SlotOk, ThreadOk, GuardOk, ChainOk, ChunksOk, CountOk, Next;
  }

  lemma LookKeeps(s: Sys, t: Tid, s': Sys)
    requires Inv(s) && t in s.c.pcs && t in s.h.wins && InLook(s.c.pcs[t])
    requires s'.c == LookStep(s.c, t, s.c.pcs[t]) && s'.h == s.h
    ensures Inv(s')
  {
    hide Inv, ThreadOk, Quiet;
    At(s, t, 0);
    LookSteps(s.c, s.h, t);
    QuietStep(s, t, s');
  }

  lemma ReturnKeeps(s: Sys, t: Tid, s': Sys)
    requires Inv(s) && t in s.c.pcs && t in s.h.wins && s.c.pcs[t].Done?
    requires s'.c == Goto(s.c, t, Idle) && s'.h == s.h
    ensures Inv(s')
  {
    hide Inv, ThreadOk, Quiet;
    At(s, t, 0);
    CallAndReturn(s.c, s.h, t, Idle);
    QuietStep(s, t, s');
  }

  /** Within the bounds, every step of every thread keeps the invariant. */
  lemma StepKeepsInv(s: Sys, t: Tid, a: Choice, s': Sys)
    requires Inv(s) && Bounded(s) && Bounded(s') && Step(s, t, a, s')
    ensures Inv(s')
  {
    hide Inv, Bounded, IdleStep, GetStep, RemoveStep, PushStep, PopStep, InsertStep, VecStep, LookStep, NoteDec, NoteFail;
    BoundsUsed(s, t, a, s');
    var pc := s.c.pcs[t];
    if pc.Idle? {
      IdleKeeps(s, t, a, s');
    } else if pc.Done? {
      ReturnKeeps(s, t, s');
    } else if InLook(pc) {
      LookKeeps(s, t, s');
    } else if InGet(pc) {
      GetKeeps(s, t, a, s');
    } else if InRemove(pc) {
      RemoveKeeps(s, t, a, s');
    } else if InPush(pc) {
      PushKeeps(s, t, a, s');
    } else if InPop(pc) {
      PopKeeps(s, t, a, s');
    } else if InInsert(pc) {
      InsertKeeps(s, t, a, s');
    } else if InVec(pc) {
      VecKeeps(s, t, a, s');
    } else {
      Stutters(s, t, s');
    }
  }

  /** Every state of every bounded run satisfies the invariant. */
  lemma {:induction false} Reachable(states: seq<Sys>, moves: seq<Move>, n: nat)
    requires IsRun(states, moves) && n < |states|
    ensures Inv(states[n])
  {
    hide Inv, Step, Bounded;
    if n == 0 {
      InitHolds(states[0]);
    } else {
      Reachable(states, moves, n - 1);
      var move := moves[n - 1];
      assert Step(states[n - 1], move.t, move.a, states[n]);
      StepKeepsInv(states[n - 1], move.t, move.a, states[n]);
    }
  }
}
