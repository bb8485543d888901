/** Where the code's own promises stop: what happens at the bounds, and in which states exactly. */
module Limits {
  import opened Machine
  import opened Protocol
  import opened Invariant
  import opened Touching

  // --------------------------------------------------------------------------------------------
  // Reference counts
  // --------------------------------------------------------------------------------------------

  /** After a clone the count is still the references there are, the leaked one included, if and only if it was
      below 2^32 - 1; the assertion in the code comes after the addition. */
  lemma CloneExactIff(states: seq<Sys>, moves: seq<Move>, n: nat, t: Tid, g: Gid)
    requires IsRun(states, moves) && n < |states|
    requires t in states[n].c.pcs && t in states[n].h.wins && states[n].c.pcs[t].Idle? && g in states[n].c.guards
    ensures var s, i := states[n], states[n].c.guards[g].key.idx;
            Accounted(Next(s.c, t, CloneGuard(g)), Record(s.c, s.h, t, CloneGuard(g)), i) <==> s.c.slots[i].refs < 0xFFFF_FFFF
  {
    hide IsRun, Inv, SlotOk, ThreadOk;
    Reachable(states, moves, n);
    var s, i := states[n], states[n].c.guards[g].key.idx;
    At(s, t, i);
    CountedNow(s.c, s.h, i);
    CloneReady(s, t, g);
    CloneCounts(s.c, s.h, t, g);
  }

  lemma CountedNow(c: Conf, h: Hist, i: u32)
    requires SlotOk(c, h, i)
    ensures Accounted(c, h, i)
  {
    hide Accounted;
  }

  lemma CloneCounts(c: Conf, h: Hist, t: Tid, g: Gid)
    requires t in c.pcs && t in h.wins && c.pcs[t].Idle? && g in c.guards && Accounted(c, h, c.guards[g].key.idx)
    requires |Handles(c.guards[c.nextGid := c.guards[g]], c.guards[g].key.idx)| == |Handles(c.guards, c.guards[g].key.idx)| + 1
    ensures var i := c.guards[g].key.idx;
            Accounted(Next(c, t, CloneGuard(g)), Record(c, h, t, CloneGuard(g)), i) <==> c.slots[i].refs < 0xFFFF_FFFF
  {
    hide Threads, Handles, GetStep, RemoveStep, PushStep, PopStep, InsertStep, VecStep, LookStep;
    assert c.pcs[t := c.pcs[t]] == c.pcs;
  }

  /** A get hits the assertion on the count exactly when it reads more references than the limit, and so many
      there are: the map's share, threads, guards and leaks together. */
  lemma GetPanicsIff(states: seq<Sys>, moves: seq<Move>, n: nat, t: Tid, a: Choice)
    requires IsRun(states, moves) && n < |states| && t in states[n].c.pcs && InGet(states[n].c.pcs[t])
    ensures var c, pc := states[n].c, states[n].c.pcs[t];
            var i := pc.key.idx;
            var references := Bit(Odd(c.slots[i].ver)) + |Threads(c.pcs, Referring(i))|
                              + |Handles(c.guards, i)| + states[n].h.logs[i].leaks;
            var pc' := Next(c, t, a).pcs[t];
            && (pc'.Done? && pc'.res.Panicked? <==>
                  && (pc.GetRefs? || (pc.GetCas? && (a == Spurious || c.slots[i].refs != pc.seen)))
                  && references > MAX_REFCOUNT)
            && (pc'.Done? && pc'.res.Panicked? ==> pc'.res.refs == references)
  {
    hide IsRun, ThreadOk, GuardOk, ChainOk, ChunksOk, CountOk, LifeOk, PlaceOk, Next;
    Reachable(states, moves, n);
    var s := states[n];
    assert SlotOk(s.c, s.h, s.c.pcs[t].key.idx);
    PanicStep(s.c, t, a);
  }

  lemma PanicStep(c: Conf, t: Tid, a: Choice)
    requires t in c.pcs && InGet(c.pcs[t])
    ensures var pc, refs := c.pcs[t], c.slots[c.pcs[t].key.idx].refs;
            var pc' := Next(c, t, a).pcs[t];
            && (pc'.Done? && pc'.res.Panicked? <==>
                  (pc.GetRefs? || (pc.GetCas? && (a == Spurious || refs != pc.seen))) && refs > MAX_REFCOUNT)
            && (pc'.Done? && pc'.res.Panicked? ==> pc'.res.refs == refs)
  {
    hide IdleStep, RemoveStep, PushStep, PopStep, InsertStep, VecStep, LookStep;
  }

  // --------------------------------------------------------------------------------------------
  // A tag that has gone all the way round
  // --------------------------------------------------------------------------------------------

  /** A pop's exchange finds the word it read if and only if the same slot is first and the updates since
      then are a multiple of 2^32. */
  lemma StaleExchangeIff(s: Sys, t: Tid)
    requires Inv(s) && t in s.c.pcs && t in s.h.wins && s.c.pcs[t].PopCas?
    ensures s.c.head == s.c.pcs[t].prev <==>
              s.c.head.idx == s.c.pcs[t].prev.idx && (s.h.updates - s.h.wins[t].seen) % 0x1_0000_0000 == 0
  {
    hide SlotOk, ThreadOk, GuardOk, ChunksOk, CountOk;
    At(s, t, 0);
    PopperFacts(s.c, s.h, t);
  }
}
