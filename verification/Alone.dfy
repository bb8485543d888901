/** Whole operations by a thread that is alone: the protocol run from call to return. */
module Alone {
  import opened Machine
  import opened Location
  import opened Protocol
  import opened Invariant
  import opened Preservation
  import opened Touching
  import opened Linearizability
  import Progress
  import Safety

  /** The state is the last one of a bounded run in which only thread 0 moved. */
  ghost predicate FromStart(s: Sys) {
    exists states: seq<Sys>, moves: seq<Move> ::
      IsRun(states, moves) && states[|moves|] == s && forall n :: 0 <= n < |moves| ==> moves[n].t == 0
  }

  /** Thread 0 is the only one, alone brought the map here, and has seen every update of the head since it
      last read it. */
  ghost predicate Solo(s: Sys) {
    && FromStart(s)
    && s.c.pcs.Keys == {0} && s.h.wins.Keys == {0}
    && s.h.wraps == 0
    && (Popping(s.c.pcs[0]) ==> UpToDate(s, 0))
  }

  /** A clone would raise the slot's count by one: it is below 2^32 - 1. */
  predicate MayClone(s: Sys, g: Gid)
    requires g in s.c.guards
  {
    s.c.slots[s.c.guards[g].key.idx].refs < 0xFFFF_FFFF
  }

  /** The step stays within the bounds. */
  ghost predicate Ready(s: Sys, a: Choice)
    requires Solo(s)
  {
    && (s.c.pcs[0].InsLen? ==> s.c.len < 0xFFFF_FFFF)
    && (s.c.pcs[0].Idle? && a.CloneGuard? && a.g in s.c.guards ==> MayClone(s, a.g))
  }

  function Moved(s: Sys, a: Choice): Sys
    requires 0 in s.c.pcs && 0 in s.h.wins
  {
    Sys(Next(s.c, 0, a), Record(s.c, s.h, 0, a))
  }

  lemma SoloRecord(s: Sys, a: Choice)
    requires Inv(s) && Solo(s) && Ready(s, a)
    ensures var h' := Record(s.c, s.h, 0, a);
            && h'.wins.Keys == {0}
            && h'.wraps == 0
            && (s.c.pcs[0].InsLen? || h'.pushed == s.h.pushed)
            && (s.c.pcs[0].InsLen? ==> h'.pushed == s.h.pushed + 1)
  {
    hide Inv, FromStart;
  }

  /** Where a thread alone is about to read a link or exchange the head, it has missed no update. */
  lemma SoloSeen(s: Sys, a: Choice)
    requires Inv(s) && Solo(s)
    ensures Popping(Now(Moved(s, a))) ==> UpToDate(Moved(s, a), 0)
  {
    hide Inv, FromStart;
    hide IdleStep, GetStep, RemoveStep, PushStep, PopStep, InsertStep, VecStep, LookStep, NoteDec;
    var pc := s.c.pcs[0];
    if InPop(pc) {
      SeenInPop(s.c, s.h, a);
    } else {
      NeverPopping(s.c, a);
      NeverPoppingOwners(s.c, a);
    }
  }

  lemma SeenInPop(c: Conf, h: Hist, a: Choice)
    requires 0 in c.pcs && 0 in h.wins && InPop(c.pcs[0])
    requires c.pcs[0].PopNext? || c.pcs[0].PopCas? ==> h.wins[0].seen == h.updates
    ensures var h', pc' := Record(c, h, 0, a), PopStep(c, 0, a, c.pcs[0]).pcs[0];
            0 in h'.wins && (pc'.PopNext? || pc'.PopCas? ==> h'.wins[0].seen == h'.updates)
  {
  }

  lemma NeverPopping(c: Conf, a: Choice)
    requires 0 in c.pcs
    ensures c.pcs[0].Idle? ==> !Popping(IdleStep(c, 0, a).pcs[0])
    ensures InLook(c.pcs[0]) ==> !Popping(LookStep(c, 0, c.pcs[0]).pcs[0])
    ensures InGet(c.pcs[0]) ==> !Popping(GetStep(c, 0, a, c.pcs[0]).pcs[0])
    ensures InRemove(c.pcs[0]) ==> !Popping(RemoveStep(c, 0, c.pcs[0]).pcs[0])
  {
    hide ChunkOf;
  }

  lemma NeverPoppingOwners(c: Conf, a: Choice)
    requires 0 in c.pcs
    ensures InPush(c.pcs[0]) ==> !Popping(PushStep(c, 0, a, c.pcs[0]).pcs[0])
    ensures InInsert(c.pcs[0]) ==> !Popping(InsertStep(c, 0, a, c.pcs[0]).pcs[0])
    ensures InVec(c.pcs[0]) ==> !Popping(VecStep(c, 0, c.pcs[0]).pcs[0])
  {
    hide ChunkOf;
  }

  /** A step of a thread that is alone stays within every bound, so it keeps the invariant and is a
      step of the atomic map. */
  lemma SoloStep(s: Sys, a: Choice)
    requires Inv(s) && Solo(s) && Ready(s, a)
    ensures Inv(Moved(s, a)) && Solo(Moved(s, a))
    ensures AnswersRightly(s.c, 0, Moved(s, a).c)
  {
    hide Record, IdleStep, GetStep, RemoveStep, PushStep, PopStep, InsertStep, VecStep, LookStep;
    hide SlotOk, ThreadOk, GuardOk, ChainOk, ChunksOk, CountOk, Simulates;
    var s' := Moved(s, a);
    SoloRecord(s, a);
    SoloSeen(s, a);
    assert s'.c.pcs.Keys == {0};
    assert Bounded(s) && Bounded(s');
    StepKeepsInv(s, 0, a, s');
    StepSimulates(s, 0, a, s');
    StepFromStart(s, a);
  }

  lemma StepFromStart(s: Sys, a: Choice)
    requires FromStart(s) && 0 in s.c.pcs && 0 in s.h.wins && Bounded(Moved(s, a))
    ensures FromStart(Moved(s, a))
  {
    hide Init, Bounded, Next, Record;
    var states: seq<Sys>, moves: seq<Move> :|
      IsRun(states, moves) && states[|moves|] == s && forall n :: 0 <= n < |moves| ==> moves[n].t == 0;
    RunExtended(states, moves, 0, a, Moved(s, a));
    var states', moves' := states + [Moved(s, a)], moves + [Move(0, a)];
    assert states'[|moves'|] == Moved(s, a);
    assert forall n :: 0 <= n < |moves'| ==> moves'[n].t == 0;
  }

  /** The counts leaked on each slot. */
  ghost function Leaks(s: Sys): (leaks: seq<nat>)
    ensures |leaks| == 0x1_0000_0000 && forall i: u32 :: leaks[i] == s.h.logs[i].leaks
  {
    seq(0x1_0000_0000, (i: nat) requires i < 0x1_0000_0000 => s.h.logs[i].leaks)
  }

  ghost function NoLeaks(): (leaks: seq<nat>)
    ensures |leaks| == 0x1_0000_0000 && forall i: u32 :: leaks[i] == 0
  {
    seq(0x1_0000_0000, (i: nat) => 0)
  }

  /** Only a clone that panics leaks a count. */
  lemma LeaksStay(s: Sys, a: Choice)
    requires 0 in s.c.pcs && 0 in s.h.wins && !(s.c.pcs[0].Idle? && a.CloneGuard?)
    ensures Leaks(Moved(s, a)) == Leaks(s)
  {
    hide Next;
    LeaksEach(s, a);
  }

  lemma LeaksEach(s: Sys, a: Choice)
    requires 0 in s.c.pcs && 0 in s.h.wins && !(s.c.pcs[0].Idle? && a.CloneGuard?)
    ensures forall i: u32 :: Moved(s, a).h.logs[i].leaks == s.h.logs[i].leaks
  {
    hide Next;
  }

  /** The protocol's initial state, with thread 0 alone. */
  ghost function Fresh(): Sys {
    Sys(
      Conf(seq(0x1_0000_0000, (i: nat) => ZEROED), Head(0, SENTINEL), 0, 0, map[], {}, 0, map[0 := Idle], map[], 0),
      Hist([], 0, 0, seq(0x1_0000_0000, (i: nat) => BLANK), map[0 := Window(0, 0, 0)], 0))
  }

  lemma FreshSound()
    ensures Init(Fresh()) && Inv(Fresh()) && Solo(Fresh())
    ensures Contents(Fresh().c.slots) == map[]
  {
    hide Inv;
    InitHolds(Fresh());
    StartsEmpty(Fresh());
    var states: seq<Sys>, moves: seq<Move> := [Fresh()], [];
    assert IsRun(states, moves) && states[|moves|] == Fresh();
  }


  // --------------------------------------------------------------------------------------------
  // Single steps, by kind
  // --------------------------------------------------------------------------------------------

  /** Every step of a thread alone moves only it, keeps the invariant, and is a step of the atomic map. */
  ghost predicate Follows(s: Sys, a: Choice, s': Sys) {
    && 0 in s.c.pcs && 0 in s.h.wins
    && s' == Moved(s, a)
    && Inv(s') && Solo(s')
    && AnswersRightly(s.c, 0, s'.c)
  }

  lemma Go(s: Sys, a: Choice) returns (s': Sys)
    requires Inv(s) && Solo(s) && Ready(s, a)
    ensures Follows(s, a, s')
    ensures !(Now(s).Idle? && a.CloneGuard?) ==> Leaks(s') == Leaks(s)
  {
    hide Inv, FromStart, Next, Record, AnswersRightly, Leaks;
    s' := Moved(s, a);
    SoloStep(s, a);
    if !(s.c.pcs[0].Idle? && a.CloneGuard?) {
      LeaksStay(s, a);
    }
  }

  /** Where thread 0 is. */
  function Now(s: Sys): PC {
    if 0 in s.c.pcs then s.c.pcs[0] else Idle
  }

  ghost predicate SameMap(s: Sys, s': Sys) {
    Contents(s'.c.slots) == Contents(s.c.slots)
  }

  /** What a phase change by an accepted step says about the map. */
  lemma MapMoves(s: Sys, a: Choice, s': Sys)
    requires Follows(s, a, s')
    ensures var p, p' := PhaseOf(Now(s)), PhaseOf(Now(s'));
            && (p' == p || !p'.Decided? ==> SameMap(s, s'))
            && ((p.Called? || p.Settled?) && p'.Decided? ==>
                  p'.op == OpIn(p) && Allowed(Contents(s.c.slots), p, p'.res, Contents(s'.c.slots)))
  {
    hide Inv, FromStart, Next, Record, Contents, PhaseOf, Allowed;
  }

  lemma NextByKind(c: Conf, t: Tid, a: Choice)
    requires t in c.pcs
    ensures var pc, c' := c.pcs[t], Next(c, t, a);
            && (pc.Idle? ==> c' == IdleStep(c, t, a))
            && (pc.Done? ==> c' == Goto(c, t, Idle))
            && (InLook(pc) ==> c' == LookStep(c, t, pc))
            && (InGet(pc) ==> c' == GetStep(c, t, a, pc))
            && (InRemove(pc) ==> c' == RemoveStep(c, t, pc))
            && (InPush(pc) ==> c' == PushStep(c, t, a, pc))
            && (InPop(pc) ==> c' == PopStep(c, t, a, pc))
            && (InInsert(pc) ==> c' == InsertStep(c, t, a, pc))
            && (InVec(pc) ==> c' == VecStep(c, t, pc))
  {
    hide IdleStep, LookStep, GetStep, RemoveStep, PushStep, PopStep, InsertStep, VecStep;
  }

  // --------------------------------------------------------------------------------------------
  // The free list
  // --------------------------------------------------------------------------------------------

  lemma PopMoves(s: Sys) returns (s': Sys)
    requires Inv(s) && Solo(s) && InPop(Now(s))
    ensures SameMap(s, s') && s'.h.pushed == s.h.pushed
    ensures var pc := Now(s);
            && (pc.PopLoad? ==>
                  s'.c == s.c.(pcs := s'.c.pcs) && Now(s') == OnHead(s.c.head) && s'.h.free == s.h.free)
            && (pc.PopNext? ==>
                  && s'.c == s.c.(pcs := s'.c.pcs) && s'.h.free == s.h.free
                  && Now(s') == PopCas(pc.prev, s.c.slots[pc.prev.idx].next))
            && (pc.PopCas? ==>
                  && s'.c == s.c.(pcs := s'.c.pcs, head := Head(Wrap(pc.prev.tag + 1), pc.next))
                  && Now(s') == InsVer(pc.prev.idx)
                  && s.h.free == [pc.prev.idx] + s'.h.free)
    ensures Leaks(s') == Leaks(s)
    ensures Inv(s') && Solo(s')
  {
    hide Inv, FromStart, Next, SameMap;
    s' := Go(s, Tau);
    NextByKind(s.c, 0, Tau);
    MapMoves(s, Tau, s');
    if Now(s).PopCas? {
      Progress.UncontendedExchange(s, 0);
      PopWins(s, 0, s');
    }
  }

  lemma EmptyList(s: Sys)
    requires Inv(s) && s.c.head.idx == SENTINEL
    ensures s.h.free == []
  {
    hide ThreadOk, GuardOk, ChunksOk, CountOk;
    assert s.h.free != [] ==> SlotOk(s.c, s.h, s.h.free[0]);
  }

  /** `pop_free_index` */
  lemma SoloPop(s: Sys) returns (s': Sys)
    requires Inv(s) && Solo(s) && Now(s).PopLoad?
    ensures SameMap(s, s') && s'.h.pushed == s.h.pushed
    ensures s.c.head.idx == SENTINEL ==>
              && s'.c == s.c.(pcs := s'.c.pcs) && Now(s') == InsLen
              && s.h.free == [] && s'.h.free == []
    ensures s.c.head.idx != SENTINEL ==>
              && s'.c == s.c.(pcs := s'.c.pcs, head := Head(Wrap(s.c.head.tag + 1), s.c.slots[s.c.head.idx].next))
              && Now(s') == InsVer(s.c.head.idx)
              && s.h.free == [s.c.head.idx] + s'.h.free
    ensures Leaks(s') == Leaks(s)
    ensures Inv(s') && Solo(s')
  {
    hide Inv, Solo;
    s' := PopMoves(s);
    if s.c.head.idx == SENTINEL {
      EmptyList(s);
    } else {
      s' := PopMoves(s');
      s' := PopMoves(s');
    }
  }

  lemma PushMoves(s: Sys) returns (s': Sys)
    requires Inv(s) && Solo(s) && InPush(Now(s))
    requires Now(s).PushLink? || Now(s).PushCas? ==> UpToDate(s, 0)
    ensures SameMap(s, s')
    ensures var pc, i := Now(s), Now(s).idx;
            && (pc.Destroy? ==>
                  && s'.c == s.c.(pcs := s'.c.pcs, slots := s.c.slots[i := s.c.slots[i].(data := Dropped)])
                  && Now(s') == PushLoad(i, pc.after) && s'.h.free == s.h.free)
            && (pc.PushLoad? ==>
                  && s'.c == s.c.(pcs := s'.c.pcs) && Now(s') == PushLink(i, s.c.head, pc.after)
                  && s'.h.free == s.h.free && UpToDate(s', 0))
            && (pc.PushLink? ==>
                  && s'.c == s.c.(pcs := s'.c.pcs, slots := s.c.slots[i := s.c.slots[i].(next := pc.prev.idx)])
                  && Now(s') == PushCas(i, pc.prev, pc.after)
                  && s'.h.free == s.h.free && UpToDate(s', 0))
            && (pc.PushCas? ==>
                  && s'.c == s.c.(pcs := s'.c.pcs, head := Head(Wrap(s.c.head.tag + 1), i))
                  && Now(s') == Finish(pc.after) && s'.h.free == [i] + s.h.free)
    ensures Leaks(s') == Leaks(s)
    ensures Inv(s') && Solo(s')
  {
    hide Inv, FromStart, Next, SameMap;
    s' := Go(s, Tau);
    NextByKind(s.c, 0, Tau);
    MapMoves(s, Tau, s');
    if Now(s).PushCas? {
      Progress.UncontendedExchange(s, 0);
    }
  }

  /** `push_free_index` */
  lemma SoloPush(s: Sys) returns (s': Sys)
    requires Inv(s) && Solo(s) && Now(s).PushLoad?
    ensures SameMap(s, s')
    ensures var i := Now(s).idx;
            && s'.c == s.c.(pcs := s'.c.pcs, head := Head(Wrap(s.c.head.tag + 1), i),
                            slots := s.c.slots[i := s.c.slots[i].(next := s.c.head.idx)])
            && Now(s') == Finish(Now(s).after)
            && s'.h.free == [i] + s.h.free
    ensures Leaks(s') == Leaks(s)
    ensures Inv(s') && Solo(s')
  {
    hide Inv, Solo;
    s' := PushMoves(s);
    s' := PushMoves(s');
    s' := PushMoves(s');
  }

  /** `drop_inner_value` and `push_free_index`, after the last reference went away. */
  lemma SoloReclaim(s: Sys) returns (s': Sys)
    requires Inv(s) && Solo(s) && Now(s).Destroy?
    ensures SameMap(s, s')
    ensures var i := Now(s).idx;
            && s'.c == s.c.(pcs := s'.c.pcs, head := Head(Wrap(s.c.head.tag + 1), i),
                            slots := s.c.slots[i := s.c.slots[i].(data := Dropped, next := s.c.head.idx)])
            && Now(s') == Finish(Now(s).after)
            && s'.h.free == [i] + s.h.free
    ensures Leaks(s') == Leaks(s)
    ensures Inv(s') && Solo(s')
  {
    hide Inv, Solo;
    s' := PushMoves(s);
    s' := SoloPush(s');
  }

  // --------------------------------------------------------------------------------------------
  // Insert
  // --------------------------------------------------------------------------------------------

  /** The key the next insert will use. */
  function NextKey(s: Sys): Key {
    if s.c.head.idx == SENTINEL then RawKey(s.c.len, 1)
    else RawKey(s.c.head.idx, OrOne(s.c.slots[s.c.head.idx].ver))
  }

  /** The keys the free slots have next, from the top of the free list. */
  function KeysOf(slots: Slots, free: seq<u32>): seq<Key> {
    seq(|free|, (k: nat) requires k < |free| => RawKey(free[k], OrOne(slots[free[k]].ver)))
  }

  function FreeKeys(s: Sys): seq<Key> {
    KeysOf(s.c.slots, s.h.free)
  }

  /** The next key is the top one, or the first of a new slot. */
  lemma NextIsTop(s: Sys)
    requires Inv(s)
    ensures NextKey(s) == if FreeKeys(s) == [] then RawKey(s.c.len, 1) else FreeKeys(s)[0]
  {
    hide SlotOk, ThreadOk, GuardOk, ChunksOk, CountOk;
    assert |FreeKeys(s)| == |s.h.free|;
    TopIsFree(s);
  }

  lemma TopIsFree(s: Sys)
    requires Inv(s)
    ensures s.h.free != [] ==> s.h.free[0] != SENTINEL
  {
    hide ThreadOk, GuardOk, ChainOk, ChunksOk, CountOk;
    assert s.h.free != [] ==> SlotOk(s.c, s.h, s.h.free[0]);
  }

  lemma KeysAlike(slots: Slots, slots': Slots, free: seq<u32>)
    requires forall i :: i in free ==> slots'[i].ver == slots[i].ver
    ensures KeysOf(slots', free) == KeysOf(slots, free)
  {
  }

  lemma KeysPushed(slots: Slots, slots': Slots, i: u32, free: seq<u32>)
    requires forall j :: j in free ==> slots'[j].ver == slots[j].ver
    ensures KeysOf(slots', [i] + free) == [RawKey(i, OrOne(slots'[i].ver))] + KeysOf(slots, free)
  {
  }

  /** A slot that is referenced, or that a thread keeps, is not free. */
  lemma NotFree(s: Sys, i: u32)
    requires Inv(s)
    ensures s.c.slots[i].refs > 0 || s.h.logs[i].owner.Some? ==> i !in s.h.free
  {
    hide ThreadOk, GuardOk, ChainOk, ChunksOk, CountOk, ChunkOf, Accounted, LifeOk;
    assert SlotOk(s.c, s.h, i);
  }

  /** A call or a return touches nothing. */
  lemma CallMoves(s: Sys, op: Op) returns (s': Sys)
    requires Inv(s) && Solo(s) && (Now(s).Idle? || Now(s).Done?)
    ensures SameMap(s, s')
    ensures s'.c == s.c.(pcs := s'.c.pcs) && s'.h == s.h
    ensures Now(s') == if Now(s).Idle? then Begin(op) else Idle
    ensures Leaks(s') == Leaks(s)
    ensures Inv(s') && Solo(s')
  {
    hide Inv, FromStart, Next, SameMap;
    s' := Go(s, Call(op));
    NextByKind(s.c, 0, Call(op));
    MapMoves(s, Call(op), s');
  }

  lemma LenMoves(s: Sys) returns (s': Sys)
    requires Inv(s) && Solo(s) && Now(s).InsLen? && s.c.len < 0xFFFF_FFFF
    ensures SameMap(s, s') && s'.h.free == s.h.free
    ensures s'.c == s.c.(pcs := s'.c.pcs, len := s.c.len + 1) && Now(s') == InsChunk(s.c.len)
    ensures Leaks(s') == Leaks(s)
    ensures Inv(s') && Solo(s')
  {
    hide Inv, Solo, Next, Contents, ChunkOf, AnswersRightly;
    s' := Go(s, Tau);
    NextByKind(s.c, 0, Tau);
  }

  predicate AtChunkCas(pc: PC, i: u32) {
    pc.InsChunkCas? && pc.idx == i
  }

  lemma ChunkMoves(s: Sys, i: u32) returns (s': Sys)
    requires Inv(s) && Solo(s)
    requires Now(s) == InsChunk(i) || (AtChunkCas(Now(s), i) && ChunkOf(i) !in s.c.chunks)
    ensures SameMap(s, s') && s'.h.free == s.h.free
    ensures if ChunkOf(i) in s.c.chunks then
              s'.c == s.c.(pcs := s'.c.pcs) && Now(s') == InsCall(RawKey(i, 1))
            else if Now(s).InsChunk? then
              s'.c == s.c.(pcs := s'.c.pcs, serial := s'.c.serial) && AtChunkCas(Now(s'), i)
            else
              && s'.c == s.c.(pcs := s'.c.pcs, chunks := s'.c.chunks)
              && s'.c.chunks.Keys == s.c.chunks.Keys + {ChunkOf(i)}
              && Now(s') == InsCall(RawKey(i, 1))
    ensures Leaks(s') == Leaks(s)
    ensures Inv(s') && Solo(s')
  {
    hide Inv, Solo, Next, Contents, ChunkOf, AnswersRightly;
    s' := Go(s, Tau);
    NextByKind(s.c, 0, Tau);
  }

  /** From the call to the closure: the slot comes off the free list, or is pushed. */
  lemma SoloAllocate(s: Sys) returns (s': Sys)
    requires Inv(s) && Solo(s) && Now(s).Idle?
    requires s.c.head.idx == SENTINEL ==> s.c.len < 0xFFFF_FFFF
    ensures SameMap(s, s')
    ensures Now(s') == InsCall(NextKey(s))
    ensures s.c.head.idx != SENTINEL ==>
              && s'.c == s.c.(pcs := s'.c.pcs, head := Head(Wrap(s.c.head.tag + 1), s.c.slots[s.c.head.idx].next))
              && s.h.free == [s.c.head.idx] + s'.h.free && FreeKeys(s) == [NextKey(s)] + FreeKeys(s')
    ensures s.c.head.idx == SENTINEL ==>
              && s'.c == s.c.(pcs := s'.c.pcs, len := s.c.len + 1, chunks := s'.c.chunks, serial := s'.c.serial)
              && s'.c.chunks.Keys == s.c.chunks.Keys + {ChunkOf(s.c.len)}
              && s.h.free == [] && s'.h.free == [] && FreeKeys(s) == [] && FreeKeys(s') == []
    ensures Leaks(s') == Leaks(s)
    ensures Inv(s') && Solo(s')
  {
    hide Inv, Solo, Contents, ChunkOf;
    s' := CallMoves(s, Insert);
    s' := SoloPop(s');
    if s.c.head.idx == SENTINEL {
      s' := LenMoves(s');
      s' := ChunkMoves(s', s.c.len);
      if AtChunkCas(Now(s'), s.c.len) {
        s' := ChunkMoves(s', s.c.len);
      }
      assert s.c.chunks.Keys + {ChunkOf(s.c.len)} == s'.c.chunks.Keys;
    } else {
      s' := InsertMoves(s', Tau);
      KeysPushed(s'.c.slots, s.c.slots, s.c.head.idx, s'.h.free);
    }
  }

  /** Only the version store of an insert changes the map. */
  ghost predicate InsertMap(s: Sys, s': Sys) {
    if Now(s).InsPub? then
      var key, v := Now(s).key, Now(s).value;
      key !in Contents(s.c.slots) && Contents(s'.c.slots) == Contents(s.c.slots)[key := v]
    else SameMap(s, s')
  }

  lemma InsertMaps(s: Sys, a: Choice, s': Sys)
    requires Follows(s, a, s') && InInsert(Now(s))
    ensures InsertMap(s, s')
  {
    hide Inv, FromStart, Next, Contents;
    NextByKind(s.c, 0, a);
    MapMoves(s, a, s');
  }

  /** Where a step of an insert leads. */
  ghost predicate InsertMoved(s: Sys, a: Choice, s': Sys) {
    match Now(s)
    case InsVer(i) => s'.c == s.c.(pcs := s'.c.pcs) && Now(s') == InsCall(RawKey(i, OrOne(s.c.slots[i].ver)))
    case InsCall(key) =>
      && s'.c == s.c.(pcs := s'.c.pcs)
      && (a.FOk? ==> Now(s') == InsWrite(key, a.value))
      && (a.FErr? ==> Now(s') == PushLoad(key.idx, AfterInsert))
    case InsWrite(key, v) =>
      && s'.c == s.c.(pcs := s'.c.pcs, slots := s.c.slots[key.idx := s.c.slots[key.idx].(data := Live(v))])
      && Now(s') == InsRefs(key, v)
    case InsRefs(key, v) =>
      && s'.c == s.c.(pcs := s'.c.pcs, slots := s.c.slots[key.idx := s.c.slots[key.idx].(refs := 1)])
      && Now(s') == InsPub(key, v)
    case InsPub(key, v) =>
      && s'.c == s.c.(pcs := s'.c.pcs, slots := s.c.slots[key.idx := s.c.slots[key.idx].(ver := key.ver)])
      && Now(s') == InsCount(key, v)
    case InsCount(key, v) =>
      s'.c == s.c.(pcs := s'.c.pcs, count := Wrap(s.c.count + 1)) && Now(s') == Done(Insert, Inserted(key, v))
    case _ => true
  }

  lemma InsertMoves(s: Sys, a: Choice) returns (s': Sys)
    requires Inv(s) && Solo(s) && InInsert(Now(s))
    ensures s'.h.free == s.h.free
    ensures InsertMap(s, s')
    ensures InsertMoved(s, a, s')
    ensures Leaks(s') == Leaks(s)
    ensures Inv(s') && Solo(s')
  {
    hide Inv, Solo, Next, InsertMap, InsertMoved, InsertStep, AnswersRightly;
    s' := Go(s, a);
    NextByKind(s.c, 0, a);
    InsertMaps(s, a, s');
    InsertMovesOn(s, a, s');
  }

  lemma InsertMovesOn(s: Sys, a: Choice, s': Sys)
    requires 0 in s.c.pcs && 0 in s.h.wins && InInsert(Now(s)) && s'.c == InsertStep(s.c, 0, a, Now(s))
    requires s'.h == Record(s.c, s.h, 0, a)
    ensures InsertMoved(s, a, s') && s'.h.free == s.h.free
  {
    hide Record, InsertMoved;
    InsertKeepsList(s.c, s.h, a);
    if Now(s).InsVer? || Now(s).InsCall? {
      hide Store;
      InsertOffers(s, a, s');
    } else {
      InsertStores(s, a, s');
    }
  }

  lemma InsertKeepsList(c: Conf, h: Hist, a: Choice)
    requires 0 in c.pcs && 0 in h.wins && InInsert(c.pcs[0])
    ensures Record(c, h, 0, a).free == h.free
  {
  }

  lemma InsertOffers(s: Sys, a: Choice, s': Sys)
    requires 0 in s.c.pcs && (Now(s).InsVer? || Now(s).InsCall?) && s'.c == InsertStep(s.c, 0, a, Now(s))
    ensures InsertMoved(s, a, s')
  {
  }

  lemma InsertStores(s: Sys, a: Choice, s': Sys)
    requires 0 in s.c.pcs && InInsert(Now(s)) && !Now(s).InsVer? && !Now(s).InsCall?
    requires s'.c == InsertStep(s.c, 0, a, Now(s))
    ensures InsertMoved(s, a, s')
  {
  }

  /** The closure returned a value: it is stored under the key it was shown. */
  lemma SoloStore(s: Sys, key: Key, v: Value) returns (s': Sys)
    requires Inv(s) && Solo(s) && Now(s) == InsCall(key)
    ensures Now(s') == Idle && s'.h.free == s.h.free && FreeKeys(s') == FreeKeys(s)
    ensures s'.c == s.c.(pcs := s'.c.pcs, count := Wrap(s.c.count + 1),
                         slots := s.c.slots[key.idx := Slot(Live(v), s.c.slots[key.idx].next, 1, key.ver)])
    ensures key !in Contents(s.c.slots) && Contents(s'.c.slots) == Contents(s.c.slots)[key := v]
    ensures Leaks(s') == Leaks(s)
    ensures Inv(s') && Solo(s')
  {
    hide Inv, Solo, Contents, KeysOf;
    OfferedNotFree(s, key);
    s' := SoloWrite(s, key, v);
    s' := InsertMoves(s', Tau);
    s' := InsertMoves(s', Tau);
    s' := CallMoves(s', Insert);
    KeysAlike(s.c.slots, s'.c.slots, s.h.free);
  }

  /** The value and the count are in place; the version is not stored yet. */
  lemma SoloWrite(s: Sys, key: Key, v: Value) returns (s': Sys)
    requires Inv(s) && Solo(s) && Now(s) == InsCall(key)
    ensures Now(s') == InsPub(key, v) && s'.h.free == s.h.free
    ensures s'.c == s.c.(pcs := s'.c.pcs, slots := s.c.slots[key.idx := s.c.slots[key.idx].(data := Live(v), refs := 1)])
    ensures SameMap(s, s')
    ensures Leaks(s') == Leaks(s)
    ensures Inv(s') && Solo(s')
  {
    hide Inv, Solo, Contents;
    s' := InsertMoves(s, FOk(v));
    s' := InsertMoves(s', Tau);
    s' := InsertMoves(s', Tau);
  }

  /** The closure declined: the slot goes to the top of the free list, its version untouched. */
  lemma SoloGiveBack(s: Sys, key: Key) returns (s': Sys)
    requires Inv(s) && Solo(s) && Now(s) == InsCall(key)
    ensures Now(s') == Idle && s'.h.free == [key.idx] + s.h.free
    ensures s'.c == s.c.(pcs := s'.c.pcs, head := Head(Wrap(s.c.head.tag + 1), key.idx),
                         slots := s.c.slots[key.idx := s.c.slots[key.idx].(next := s.c.head.idx)])
    ensures SameMap(s, s')
    ensures NextKey(s') == key && FreeKeys(s') == [key] + FreeKeys(s)
    ensures Leaks(s') == Leaks(s)
    ensures Inv(s') && Solo(s')
  {
    hide Inv, Solo, Contents, KeysOf;
    OfferedNext(s, key);
    s' := InsertMoves(s, FErr);
    s' := SoloPush(s');
    s' := CallMoves(s', Insert);
    KeysPushed(s.c.slots, s'.c.slots, key.idx, s.h.free);
  }

  /** The key shown to a closure is the one its slot's version gives the next insert into it. */
  lemma OfferedNext(s: Sys, key: Key)
    requires Inv(s) && Solo(s) && Now(s) == InsCall(key)
    ensures key.ver == OrOne(s.c.slots[key.idx].ver) && key.idx != SENTINEL
  {
    hide Inv, FromStart, SlotOk, ThreadOk;
    At(s, 0, key.idx);
    KeeperFacts(s.c, s.h, 0, key.idx);
    OfferedFacts(s.c, s.h);
  }

  lemma OfferedNotFree(s: Sys, key: Key)
    requires Inv(s) && Solo(s) && Now(s) == InsCall(key)
    ensures key.idx !in s.h.free
  {
    hide Inv, SlotOk, ThreadOk, FromStart;
    At(s, 0, key.idx);
    KeeperFacts(s.c, s.h, 0, key.idx);
    NotFree(s, key.idx);
  }

  lemma OfferedFacts(c: Conf, h: Hist)
    requires 0 in c.pcs && 0 in h.wins && ThreadOk(c, h, 0) && c.pcs[0].InsCall?
    ensures var key := c.pcs[0].key; key.ver == c.slots[key.idx].ver + 1 && key.idx < c.len
  {
    hide ChunkOf;
  }

  /** The head of the free list is a slot nobody references or occupies. */
  lemma HeadUnused(s: Sys)
    requires Inv(s)
    ensures var i := s.c.head.idx;
            i != SENTINEL ==> ChunkOf(i) in s.c.chunks && s.c.slots[i].refs == 0 && !Odd(s.c.slots[i].ver)
  {
    hide ThreadOk, GuardOk, ChunksOk, CountOk, ChunkOf;
    HeadExists(s);
    assert SlotOk(s.c, s.h, s.c.head.idx);
  }

  // --------------------------------------------------------------------------------------------
  // Lookups
  // --------------------------------------------------------------------------------------------

  /** Alone, and not in the middle of a push, a thread finds every chunk below `len` at once. */
  lemma SoloPublished(s: Sys, i: u32)
    requires Inv(s) && Solo(s) && !Growing(Now(s)) && i < s.c.len
    ensures ChunkOf(i) in s.c.chunks
  {
    hide Inv, FromStart, ChunkOf;
    if !Published(s.c, i) {
      Progress.NoCircularWaiting(s, i);
    }
  }

  lemma LookMoves(s: Sys, what: Lookup, key: Key) returns (s': Sys)
    requires Now(s) == LookLen(what, key) || (Now(s) == LookChunk(what, key) && ChunkOf(key.idx) in s.c.chunks)
    requires what != ForContains
    requires Inv(s) && Solo(s)
    ensures s'.c == s.c.(pcs := s'.c.pcs) && s'.h.free == s.h.free
    ensures Now(s') == if Now(s).LookChunk? then Located(what, key)
                       else if key.idx >= s.c.len then Done(OpOf(what, key), Miss(what))
                       else LookChunk(what, key)
    ensures Leaks(s') == Leaks(s)
    ensures Inv(s') && Solo(s')
  {
    hide Inv, FromStart, Next, AnswersRightly, ChunkOf;
    s' := Go(s, Tau);
    NextByKind(s.c, 0, Tau);
  }

  /** `AtomicVec::get` finds the slot, or the call has missed. */
  lemma SoloLook(s: Sys, what: Lookup, key: Key) returns (s': Sys)
    requires Now(s).Idle? && what != ForContains
    requires Inv(s) && Solo(s)
    ensures s'.c == s.c.(pcs := s'.c.pcs) && s'.h.free == s.h.free
    ensures Now(s') == if key.idx >= s.c.len then Done(OpOf(what, key), Miss(what)) else Located(what, key)
    ensures Leaks(s') == Leaks(s)
    ensures Inv(s') && Solo(s')
  {
    hide Inv, Solo, SameMap, ChunkOf;
    s' := CallMoves(s, OpOf(what, key));
    s' := LookMoves(s', what, key);
    if key.idx < s.c.len {
      SoloPublished(s', key.idx);
      s' := LookMoves(s', what, key);
    }
  }

  // --------------------------------------------------------------------------------------------
  // Remove
  // --------------------------------------------------------------------------------------------

  lemma RemoveMoves(s: Sys, key: Key) returns (s': Sys)
    requires Now(s) in {RemVer(key), RemCas(key, key.ver), RemDec(key), RemCount(key)}
    requires Now(s).RemCas? ==> s.c.slots[key.idx].ver == key.ver
    requires Inv(s) && Solo(s)
    ensures s'.h.free == s.h.free
    ensures var slot := s.c.slots[key.idx];
            if Now(s).RemVer? then
              s'.c == s.c.(pcs := s'.c.pcs) && Now(s') == OnVer(key, slot.ver)
            else if Now(s).RemCas? then
              && s'.c == s.c.(pcs := s'.c.pcs, slots := s.c.slots[key.idx := slot.(ver := Wrap(slot.ver + 1))])
              && Now(s') == RemDec(key)
            else if Now(s).RemDec? then
              && s'.c == s.c.(pcs := s'.c.pcs, slots := s.c.slots[key.idx := slot.(refs := Wrap(slot.refs - 1))])
              && Now(s') == if slot.refs == 1 then Destroy(key.idx, AfterRemove(key)) else RemCount(key)
            else
              s'.c == s.c.(pcs := s'.c.pcs, count := Wrap(s.c.count - 1)) && Now(s') == Done(Remove(key), Removed(true))
    ensures Leaks(s') == Leaks(s)
    ensures Inv(s') && Solo(s')
  {
    hide Inv, FromStart, Next, AnswersRightly;
    s' := Go(s, Tau);
    NextByKind(s.c, 0, Tau);
  }

  /** The key is not there: nothing changes. */
  lemma SoloRemoveMiss(s: Sys, key: Key) returns (s': Sys)
    requires Now(s).Idle? && s.c.slots[key.idx].ver != key.ver
    requires Inv(s) && Solo(s)
    ensures key !in Contents(s.c.slots) && NextKey(s') == NextKey(s) && FreeKeys(s') == FreeKeys(s)
    ensures s'.c == s.c.(pcs := s'.c.pcs) && s'.h.free == s.h.free && Now(s').Idle?
    ensures Leaks(s') == Leaks(s)
    ensures Inv(s') && Solo(s')
  {
    hide Inv, Solo, SameMap, Contents;
    InContents(s.c.slots, key);
    s' := SoloLook(s, ForRemove, key);
    if key.idx < s.c.len {
      s' := RemoveMoves(s', key);
    }
    s' := CallMoves(s', Remove(key));
  }

  /** An occupied slot exists, and is referenced at least by the map. */
  lemma OccupiedFacts(s: Sys, key: Key)
    requires Inv(s) && s.c.slots[key.idx].ver == key.ver
    ensures key.idx < s.c.len && s.c.slots[key.idx].refs > 0 && s.c.slots[key.idx].data.Live?
  {
    hide ThreadOk, GuardOk, ChainOk, ChunksOk, CountOk, ChunkOf;
    assert SlotOk(s.c, s.h, key.idx);
  }

  /** What giving up one reference leaves in a slot, if the free list begins at `head`. */
  function Released(slot: Slot, head: u32): Slot {
    if slot.refs == 1 then Slot(Dropped, head, 0, slot.ver) else slot.(refs := Wrap(slot.refs - 1))
  }

  function Ended(slots: Slots, key: Key): Slots {
    slots[key.idx := slots[key.idx].(ver := Wrap(key.ver + 1))]
  }

  /** What a winning remove leaves in the slot. */
  function AfterRemoval(slot: Slot, head: u32): Slot {
    Released(slot.(ver := Wrap(slot.ver + 1)), head)
  }

  lemma SoloRemoveHit(s: Sys, key: Key) returns (s': Sys)
    requires Now(s).Idle? && s.c.slots[key.idx].ver == key.ver
    requires Inv(s) && Solo(s)
    ensures key in Contents(s.c.slots) && Contents(s'.c.slots) == Contents(s.c.slots) - {key}
    ensures var slot := s.c.slots[key.idx];
            && s'.c == s.c.(pcs := s'.c.pcs, count := Wrap(s.c.count - 1),
                            slots := s.c.slots[key.idx := AfterRemoval(slot, s.c.head.idx)],
                            head := if slot.refs == 1 then Head(Wrap(s.c.head.tag + 1), key.idx) else s.c.head)
            && s'.h.free == if slot.refs == 1 then [key.idx] + s.h.free else s.h.free
    ensures Now(s').Idle?
    ensures Leaks(s') == Leaks(s)
    ensures Inv(s') && Solo(s')
  {
    hide Inv, Solo, SameMap, Contents, Leaks, LifeOk, PlaceOk;
    var slot := s.c.slots[key.idx];
    OccupiedFacts(s, key);
    s' := SoloMark(s, key);
    s' := RemoveMoves(s', key);
    if slot.refs == 1 {
      s' := SoloReclaim(s');
    }
    s' := RemoveMoves(s', key);
    s' := CallMoves(s', Remove(key));
    RemovalContents(s.c.slots, key, s.c.head.idx);
    assert s'.c.slots == s.c.slots[key.idx := AfterRemoval(slot, s.c.head.idx)];
  }

  /** The version is raised; the map's reference is not given up yet. */
  lemma SoloMark(s: Sys, key: Key) returns (s': Sys)
    requires Now(s).Idle? && s.c.slots[key.idx].ver == key.ver
    requires Inv(s) && Solo(s)
    ensures s'.c == s.c.(pcs := s'.c.pcs, slots := Ended(s.c.slots, key))
    ensures Now(s') == RemDec(key) && s'.h.free == s.h.free
    ensures Leaks(s') == Leaks(s)
    ensures Inv(s') && Solo(s')
  {
    hide Inv, Solo;
    OccupiedFacts(s, key);
    s' := SoloLook(s, ForRemove, key);
    s' := RemoveMoves(s', key);
    s' := RemoveMoves(s', key);
  }

  lemma RemovalContents(slots: Slots, key: Key, head: u32)
    requires slots[key.idx].ver == key.ver
    ensures key in Contents(slots)
    ensures Contents(slots[key.idx := AfterRemoval(slots[key.idx], head)]) == Contents(slots) - {key}
  {
    hide Contents;
    var slot := slots[key.idx];
    ContentsRemoved(slots, key);
    ContentsSame(slots[key.idx := slot.(ver := Wrap(key.ver + 1))], slots[key.idx := AfterRemoval(slot, head)]);
  }

  /** A remove that hits, end to end: the version is raised, then the map's reference is given up. */
  lemma SoloRemoval(s: Sys, key: Key) returns (s': Sys)
    requires Now(s).Idle? && s.c.slots[key.idx].ver == key.ver
    requires Inv(s) && Solo(s)
    ensures Contents(s'.c.slots) == Contents(s.c.slots) - {key}
    ensures var slot := Ended(s.c.slots, key)[key.idx];
            && (slot.refs == 1 ==> slot.data.Live? && !Odd(slot.ver))
            && s'.c == s.c.(pcs := s'.c.pcs, count := Wrap(s.c.count - 1),
                            slots := Ended(s.c.slots, key)[key.idx := Released(slot, s.c.head.idx)],
                            head := if slot.refs == 1 then Head(Wrap(s.c.head.tag + 1), key.idx) else s.c.head)
    ensures References(s', key.idx) == 0 ==> s'.c.slots[key.idx].data == Dropped
    ensures if References(s', key.idx) == 0 then NextKey(s') == RawKey(key.idx, Wrap(key.ver + 2)) else NextKey(s') == NextKey(s)
    ensures FreeKeys(s') == if References(s', key.idx) == 0 then [RawKey(key.idx, Wrap(key.ver + 2))] + FreeKeys(s) else FreeKeys(s)
    ensures Now(s').Idle?
    ensures Leaks(s') == Leaks(s)
    ensures Inv(s') && Solo(s')
  {
    hide Inv, Solo, Contents, NextKey, References, FreeKeys;
    OccupiedFacts(s, key);
    s' := SoloRemoveHit(s, key);
    NextAfterRemoval(s, key, s');
    IdleReferences(s', key.idx);
    FreeAfterRemoval(s, key, s');
    var slot := Ended(s.c.slots, key)[key.idx];
    assert s'.c.slots == Ended(s.c.slots, key)[key.idx := Released(slot, s.c.head.idx)];
  }

  lemma FreeAfterRemoval(s: Sys, key: Key, s': Sys)
    requires Inv(s) && s.c.slots[key.idx].ver == key.ver
    requires var slot := s.c.slots[key.idx];
             && s'.c.slots == s.c.slots[key.idx := AfterRemoval(slot, s.c.head.idx)]
             && s'.h.free == if slot.refs == 1 then [key.idx] + s.h.free else s.h.free
    ensures FreeKeys(s') ==
            if s'.c.slots[key.idx].refs == 0 then [RawKey(key.idx, Wrap(key.ver + 2))] + FreeKeys(s) else FreeKeys(s)
  {
    hide Inv, KeysOf;
    OccupiedFacts(s, key);
    NotFree(s, key.idx);
    KeysAlike(s.c.slots, s'.c.slots, s.h.free);
    KeysPushed(s.c.slots, s'.c.slots, key.idx, s.h.free);
  }

  lemma NextAfterRemoval(s: Sys, key: Key, s': Sys)
    requires Inv(s) && s.c.slots[key.idx].ver == key.ver
    requires var slot := s.c.slots[key.idx];
             s'.c == s.c.(pcs := s'.c.pcs, count := Wrap(s.c.count - 1),
                          slots := s.c.slots[key.idx := AfterRemoval(slot, s.c.head.idx)],
                          head := if slot.refs == 1 then Head(Wrap(s.c.head.tag + 1), key.idx) else s.c.head)
    ensures if s'.c.slots[key.idx].refs == 0 then NextKey(s') == RawKey(key.idx, Wrap(key.ver + 2)) else NextKey(s') == NextKey(s)
  {
    hide Inv, FromStart;
    OccupiedFacts(s, key);
    HeadUnused(s);
    assert s.c.slots[key.idx].refs > 0;
  }

  lemma IdleReferences(s: Sys, i: u32)
    requires Inv(s) && Solo(s) && Now(s).Idle?
    ensures s.c.slots[i].refs == References(s, i)
  {
    hide Inv, Solo;
    IdleSlot(s, i);
  }

  /** How many references slot `i` has: the map's if occupied, one a guard, and the leaked ones. */
  function References(s: Sys, i: u32): nat {
    Bit(Odd(s.c.slots[i].ver)) + |Handles(s.c.guards, i)| + s.h.logs[i].leaks
  }

  // --------------------------------------------------------------------------------------------
  // Guards
  // --------------------------------------------------------------------------------------------

  lemma GetMoves(s: Sys, key: Key) returns (s': Sys)
    requires Now(s) in {GetRefs(key), GetCas(key, s.c.slots[key.idx].refs), GetVer(key), GetBack(key)}
    requires Inv(s) && Solo(s)
    ensures s'.h.free == s.h.free
    ensures var slot := s.c.slots[key.idx];
            if Now(s).GetRefs? then
              s'.c == s.c.(pcs := s'.c.pcs) && Now(s') == OnRefs(key, slot.refs)
            else if Now(s).GetCas? then
              && s'.c == s.c.(pcs := s'.c.pcs, slots := s.c.slots[key.idx := slot.(refs := Wrap(slot.refs + 1))])
              && Now(s') == GetVer(key)
            else if Now(s).GetVer? then
              var value := ValueAt(s.c.slots, key.idx);
              if slot.ver == key.ver then
                && s'.c == s.c.(pcs := s'.c.pcs, guards := s.c.guards[s.c.nextGid := Guard(key, value)], nextGid := s.c.nextGid + 1)
                && Now(s') == Done(Get(key), Found(s.c.nextGid, value))
              else s'.c == s.c.(pcs := s'.c.pcs) && Now(s') == GetBack(key)
            else
              && s'.c == s.c.(pcs := s'.c.pcs, slots := s.c.slots[key.idx := slot.(refs := Wrap(slot.refs - 1))])
              && Now(s') == if slot.refs == 1 then Destroy(key.idx, AfterGet(key)) else Done(Get(key), NotFound)
    ensures Leaks(s') == Leaks(s)
    ensures Inv(s') && Solo(s')
  {
    hide Inv, FromStart, Next, AnswersRightly;
    s' := Go(s, Tau);
    NextByKind(s.c, 0, Tau);
  }

  /** A get of a key that is there, with the count below the limit, makes a guard with its value. */
  lemma SoloGetHit(s: Sys, key: Key) returns (s': Sys)
    requires Now(s).Idle? && s.c.slots[key.idx].ver == key.ver && s.c.slots[key.idx].refs <= MAX_REFCOUNT
    requires Inv(s) && Solo(s)
    ensures key in Contents(s.c.slots) && SameMap(s, s') && s.c.nextGid !in s.c.guards
    ensures var slot := s.c.slots[key.idx];
            s'.c == s.c.(pcs := s'.c.pcs, slots := s.c.slots[key.idx := slot.(refs := Wrap(slot.refs + 1))],
                         guards := s.c.guards[s.c.nextGid := Guard(key, Contents(s.c.slots)[key])], nextGid := s.c.nextGid + 1)
    ensures Now(s').Idle? && s'.h.free == s.h.free
    ensures Leaks(s') == Leaks(s)
    ensures Inv(s') && Solo(s')
  {
    hide Inv, Solo, Contents, SameMap;
    OccupiedFacts(s, key);
    InContents(s.c.slots, key);
    GuardIdsFresh(s);
    s' := SoloLook(s, ForGet, key);
    s' := GetMoves(s', key);
    s' := GetMoves(s', key);
    s' := GetMoves(s', key);
    s' := CallMoves(s', Get(key));
    assert SameMap(s, s') by { SameByVersions(s, s'); }
  }

  lemma SameByVersions(s: Sys, s': Sys)
    requires forall i: u32 :: s'.c.slots[i].ver == s.c.slots[i].ver && s'.c.slots[i].data == s.c.slots[i].data
    ensures SameMap(s, s')
  {
    hide Contents;
    ContentsSame(s.c.slots, s'.c.slots);
  }

  /** Any other get leaves everything as it was. */
  lemma SoloGetMiss(s: Sys, key: Key) returns (s': Sys)
    requires Now(s).Idle?
    requires s.c.slots[key.idx].ver != key.ver || s.c.slots[key.idx].refs > MAX_REFCOUNT
    requires Inv(s) && Solo(s)
    ensures s'.c == s.c.(pcs := s'.c.pcs) && Now(s').Idle? && s'.h.free == s.h.free
    ensures NextKey(s') == NextKey(s) && FreeKeys(s') == FreeKeys(s)
    ensures Leaks(s') == Leaks(s)
    ensures Inv(s') && Solo(s')
  {
    hide Inv, Solo, SameMap;
    s' := SoloLook(s, ForGet, key);
    if key.idx < s.c.len {
      s' := GetMoves(s', key);
      if Now(s').GetCas? {
        s' := GetMoves(s', key);
        s' := GetMoves(s', key);
        s' := GetMoves(s', key);
        assert s'.c.slots == s.c.slots;
      }
    }
    s' := CallMoves(s', Get(key));
  }

  /** A get, end to end. */
  lemma SoloGet(s: Sys, key: Key) returns (s': Sys)
    requires Now(s).Idle?
    requires Inv(s) && Solo(s)
    ensures var slot := s.c.slots[key.idx];
            if slot.ver == key.ver && slot.refs <= MAX_REFCOUNT then
              && key in Contents(s.c.slots) && s.c.nextGid !in s.c.guards
              && s'.c == s.c.(pcs := s'.c.pcs, slots := s.c.slots[key.idx := slot.(refs := Wrap(slot.refs + 1))],
                              guards := s.c.guards[s.c.nextGid := Guard(key, Contents(s.c.slots)[key])], nextGid := s.c.nextGid + 1)
            else s'.c == s.c.(pcs := s'.c.pcs)
    ensures var slot := s.c.slots[key.idx];
            && slot.refs == References(s, key.idx)
            && (forall i: u32 :: References(s', i) ==
                  References(s, i) + Bit(i == key.idx && slot.ver == key.ver && slot.refs <= MAX_REFCOUNT))
            && (slot.ver == key.ver ==> slot.refs > 0)
    ensures SameMap(s, s') && NextKey(s') == NextKey(s) && FreeKeys(s') == FreeKeys(s)
    ensures Now(s').Idle?
    ensures Leaks(s') == Leaks(s)
    ensures Inv(s') && Solo(s')
  {
    hide Inv, Solo, Contents, References, KeysOf;
    IdleReferences(s, key.idx);
    if s.c.slots[key.idx].ver == key.ver {
      OccupiedFacts(s, key);
    }
    if s.c.slots[key.idx].ver == key.ver && s.c.slots[key.idx].refs <= MAX_REFCOUNT {
      s' := SoloGetHit(s, key);
    } else {
      s' := SoloGetMiss(s, key);
    }
    forall i: u32 ensures s.c.slots[i].refs == References(s, i) && s'.c.slots[i].refs == References(s', i) {
      IdleReferences(s, i);
      IdleReferences(s', i);
    }
    KeysAlike(s.c.slots, s'.c.slots, s.h.free);
  }

  lemma IdleMoves(s: Sys, a: Choice, g: Gid) returns (s': Sys)
    requires Now(s).Idle? && g in s.c.guards && (a == DropGuard(g) || a == CloneGuard(g))
    requires a == CloneGuard(g) ==> MayClone(s, g)
    requires Inv(s) && Solo(s)
    ensures s'.h.free == s.h.free
    ensures a == DropGuard(g) ==> s'.c == Dec(s.c.(guards := s.c.guards - {g}), 0, s.c.guards[g].key.idx, AfterDrop)
    ensures a == CloneGuard(g) ==> s'.c == IdleStep(s.c, 0, a)
    ensures a == DropGuard(g) ==> Leaks(s') == Leaks(s)
    ensures a == CloneGuard(g) ==> s'.h == Record(s.c, s.h, 0, a)
    ensures Inv(s') && Solo(s')
  {
    hide Inv, FromStart, Next, AnswersRightly;
    s' := Go(s, a);
    NextByKind(s.c, 0, a);
  }

  /** Dropping a guard: the count falls, and at zero the value is dropped and the slot freed. */
  lemma SoloDrop(s: Sys, g: Gid) returns (s': Sys)
    requires Now(s).Idle? && g in s.c.guards
    requires Inv(s) && Solo(s)
    ensures var i := s.c.guards[g].key.idx;
            var slot := s.c.slots[i];
            && s'.c == s.c.(pcs := s'.c.pcs, guards := s.c.guards - {g},
                            slots := s.c.slots[i := if slot.refs == 1 then slot.(refs := 0, data := Dropped, next := s.c.head.idx)
                                                    else slot.(refs := Wrap(slot.refs - 1))],
                            head := if slot.refs == 1 then Head(Wrap(s.c.head.tag + 1), i) else s.c.head)
            && s'.h.free == if slot.refs == 1 then [i] + s.h.free else s.h.free
    ensures SameMap(s, s') && Now(s').Idle?
    ensures Leaks(s') == Leaks(s)
    ensures Inv(s') && Solo(s')
  {
    hide Inv, Solo, Contents;
    var i := s.c.guards[g].key.idx;
    var slot := s.c.slots[i];
    s' := IdleMoves(s, DropGuard(g), g);
    SameByVersions(s, s');
    if slot.refs == 1 {
      s' := SoloReclaim(s');
    }
  }

  /** What a live guard says about its slot between calls. */
  lemma GuardFacts(s: Sys, g: Gid)
    requires Inv(s) && Solo(s) && Now(s).Idle? && g in s.c.guards
    ensures var guard := s.c.guards[g];
            var slot := s.c.slots[guard.key.idx];
            && guard.key.idx < s.c.len
            && slot.data == Live(guard.value) && slot.refs > 0
            && (slot.ver == guard.key.ver || slot.ver == Wrap(guard.key.ver + 1))
            && (slot.refs == 1 ==> !Odd(slot.ver))
  {
    hide SlotOk, ThreadOk, ChainOk, ChunksOk, CountOk;
    var i := s.c.guards[g].key.idx;
    assert GuardOk(s.c, g);
    IdleSlot(s, i);
    assert g in Handles(s.c.guards, i);
    assert |Handles(s.c.guards, i)| >= 1;
  }

  /** Dropping a guard, end to end. */
  lemma SoloGuardDrop(s: Sys, g: Gid) returns (s': Sys)
    requires Now(s).Idle? && g in s.c.guards
    requires Inv(s) && Solo(s)
    ensures var key := s.c.guards[g].key;
            var slot := s.c.slots[key.idx];
            && s'.c == s.c.(pcs := s'.c.pcs, guards := s.c.guards - {g},
                            slots := s.c.slots[key.idx := Released(slot, s.c.head.idx)],
                            head := if slot.refs == 1 then Head(Wrap(s.c.head.tag + 1), key.idx) else s.c.head)
            && (if References(s', key.idx) == 0 then NextKey(s') == RawKey(key.idx, Wrap(key.ver + 2)) else NextKey(s') == NextKey(s))
            && FreeKeys(s') == if References(s', key.idx) == 0 then [RawKey(key.idx, Wrap(key.ver + 2))] + FreeKeys(s) else FreeKeys(s)
    ensures var slot := s.c.slots[s.c.guards[g].key.idx];
            s.c.guards[g].key.idx < s.c.len && (slot.refs == 1 ==> slot.data.Live? && !Odd(slot.ver))
    ensures SameMap(s, s') && Now(s').Idle?
    ensures Leaks(s') == Leaks(s)
    ensures Inv(s') && Solo(s')
  {
    hide Inv, Solo, SameMap, NextKey, References, FreeKeys;
    GuardFacts(s, g);
    s' := SoloDrop(s, g);
    var i := s.c.guards[g].key.idx;
    assert s'.c.slots == s.c.slots[i := Released(s.c.slots[i], s.c.head.idx)];
    IdleReferences(s', i);
    FreeAfterDrop(s, g, s');
    NextAfterDrop(s, g, s');
  }

  lemma FreeAfterDrop(s: Sys, g: Gid, s': Sys)
    requires Inv(s) && Solo(s) && Now(s).Idle? && g in s.c.guards
    requires var i := s.c.guards[g].key.idx;
             && s'.c.slots == s.c.slots[i := Released(s.c.slots[i], s.c.head.idx)]
             && s'.h.free == if s.c.slots[i].refs == 1 then [i] + s.h.free else s.h.free
    ensures var key := s.c.guards[g].key;
            FreeKeys(s') ==
            if s'.c.slots[key.idx].refs == 0 then [RawKey(key.idx, Wrap(key.ver + 2))] + FreeKeys(s) else FreeKeys(s)
  {
    hide Inv, Solo, KeysOf;
    var i := s.c.guards[g].key.idx;
    GuardFacts(s, g);
    NotFree(s, i);
    KeysAlike(s.c.slots, s'.c.slots, s.h.free);
    KeysPushed(s.c.slots, s'.c.slots, i, s.h.free);
  }

  lemma NextAfterDrop(s: Sys, g: Gid, s': Sys)
    requires Inv(s) && Solo(s) && Now(s).Idle? && g in s.c.guards
    requires var i := s.c.guards[g].key.idx;
             var slot := s.c.slots[i];
             && s'.c.len == s.c.len
             && s'.c.slots == s.c.slots[i := Released(slot, s.c.head.idx)]
             && s'.c.head == if slot.refs == 1 then Head(Wrap(s.c.head.tag + 1), i) else s.c.head
    ensures var key := s.c.guards[g].key;
            if s'.c.slots[key.idx].refs == 0 then NextKey(s') == RawKey(key.idx, Wrap(key.ver + 2)) else NextKey(s') == NextKey(s)
  {
    hide Inv, Solo;
    GuardFacts(s, g);
  }

  /** A clone below the limit is one more guard with the same key and value; above it, a count leaked. */
  lemma SoloClone(s: Sys, g: Gid) returns (s': Sys)
    requires Now(s).Idle? && g in s.c.guards && MayClone(s, g)
    requires Inv(s) && Solo(s)
    ensures var i := s.c.guards[g].key.idx;
            var slot := s.c.slots[i];
            var small := slot.refs <= MAX_REFCOUNT;
            && s'.c == s.c.(pcs := s'.c.pcs, slots := s.c.slots[i := slot.(refs := Wrap(slot.refs + 1))],
                            guards := if small then s.c.guards[s.c.nextGid := s.c.guards[g]] else s.c.guards,
                            nextGid := if small then s.c.nextGid + 1 else s.c.nextGid)
    ensures s.c.nextGid !in s.c.guards && NextKey(s') == NextKey(s) && FreeKeys(s') == FreeKeys(s)
    ensures var i := s.c.guards[g].key.idx;
            s.c.slots[i].refs == References(s, i) && References(s', i) == References(s, i) + 1
    ensures SameMap(s, s') && Now(s').Idle? && s'.h.free == s.h.free
    ensures var i := s.c.guards[g].key.idx;
            Leaks(s') == if s.c.slots[i].refs <= MAX_REFCOUNT then Leaks(s) else Leaks(s)[i := Leaks(s)[i] + 1]
    ensures Inv(s') && Solo(s')
  {
    hide Inv, Solo, Contents, References, KeysOf;
    GuardIdsFresh(s);
    var i := s.c.guards[g].key.idx;
    IdleReferences(s, i);
    s' := IdleMoves(s, CloneGuard(g), g);
    SameByVersions(s, s');
    IdleReferences(s', i);
    KeysAlike(s.c.slots, s'.c.slots, s.h.free);
  }

  // --------------------------------------------------------------------------------------------
  // Reserve
  // --------------------------------------------------------------------------------------------

  predicate Reserving(pc: PC, chunk: nat, last: nat) {
    pc == ResChunk(chunk, last) || (pc.ResChunkCas? && pc.chunk == chunk && pc.last == last)
  }

  lemma ReserveMoves(s: Sys, chunk: nat, last: nat) returns (s': Sys)
    requires Reserving(Now(s), chunk, last)
    requires Now(s).ResChunkCas? ==> chunk !in s.c.chunks
    requires Inv(s) && Solo(s)
    ensures SameMap(s, s') && s'.h.free == s.h.free
    ensures if chunk in s.c.chunks then
              s'.c == s.c.(pcs := s'.c.pcs) && Now(s') == NextChunk(chunk + 1, last)
            else if Now(s).ResChunk? then
              s'.c == s.c.(pcs := s'.c.pcs, serial := s'.c.serial) && Reserving(Now(s'), chunk, last) && Now(s').ResChunkCas?
            else
              && s'.c == s.c.(pcs := s'.c.pcs, chunks := s'.c.chunks)
              && s'.c.chunks.Keys == s.c.chunks.Keys + {chunk}
              && Now(s') == NextChunk(chunk + 1, last)
    ensures Leaks(s') == Leaks(s)
    ensures Inv(s') && Solo(s')
  {
    hide Inv, Solo, Next, Contents, AnswersRightly;
    s' := Go(s, Tau);
    NextByKind(s.c, 0, Tau);
  }

  /** `reserve`: every chunk from `chunk` to `last` exists afterwards, and nothing else changed. */
  lemma {:induction false} SoloReserveFrom(s: Sys, chunk: nat, last: nat) returns (s': Sys)
    requires last < CHUNKS && Now(s) == NextChunk(chunk, last)
    requires Inv(s) && Solo(s)
    ensures s'.c == s.c.(pcs := s'.c.pcs, chunks := s'.c.chunks, serial := s'.c.serial)
    ensures forall k: nat :: k in s'.c.chunks <==> k in s.c.chunks || chunk <= k <= last
    ensures SameMap(s, s') && Now(s') == Done(Reserve(last), Reserved) && s'.h.free == s.h.free
    ensures Leaks(s') == Leaks(s)
    ensures Inv(s') && Solo(s')
    decreases last + 1 - chunk
  {
    hide Inv, Solo, Contents;
    s' := s;
    if chunk <= last {
      s' := ReserveMoves(s, chunk, last);
      if chunk !in s.c.chunks {
        s' := ReserveMoves(s', chunk, last);
      }
      s' := SoloReserveFrom(s', chunk + 1, last);
    }
  }

  lemma SoloReserve(s: Sys, last: nat) returns (s': Sys)
    requires last < CHUNKS && Now(s).Idle?
    requires Inv(s) && Solo(s)
    ensures s'.c == s.c.(pcs := s'.c.pcs, chunks := s'.c.chunks, serial := s'.c.serial)
    ensures forall k: nat :: k in s'.c.chunks <==> k in s.c.chunks || k <= last
    ensures SameMap(s, s') && Now(s').Idle? && s'.h.free == s.h.free
    ensures Leaks(s') == Leaks(s)
    ensures Inv(s') && Solo(s')
  {
    hide Inv, Solo, Contents;
    s' := CallMoves(s, Reserve(last));
    s' := SoloReserveFrom(s', 0, last);
    s' := CallMoves(s', Reserve(last));
  }

  // --------------------------------------------------------------------------------------------
  // Between calls
  // --------------------------------------------------------------------------------------------

  /** Something still refers to slot `i`: the map, a guard, or a leaked count. */
  ghost predicate Wanted(s: Sys, i: u32) {
    Odd(s.c.slots[i].ver) || (exists g :: g in s.c.guards && s.c.guards[g].key.idx == i) || s.h.logs[i].leaks > 0
  }

  /** Between calls a slot holds a value exactly as long as something refers to it. */
  lemma IdleSlot(s: Sys, i: u32)
    requires Inv(s) && Solo(s) && Now(s).Idle?
    ensures s.c.slots[i].refs == Bit(Odd(s.c.slots[i].ver)) + |Handles(s.c.guards, i)| + s.h.logs[i].leaks
    ensures s.c.slots[i].data.Live? <==> s.c.slots[i].refs > 0
    ensures s.c.slots[i].refs > 0 <==> Wanted(s, i)
    ensures s.c.slots[i].refs > 0 ==> i < s.c.len
  {
    hide ThreadOk, GuardOk, ChainOk, ChunksOk, CountOk, ChunkOf;
    assert SlotOk(s.c, s.h, i);
    assert Threads(s.c.pcs, Referring(i)) == {};
    if g :| g in s.c.guards && s.c.guards[g].key.idx == i {
      assert g in Handles(s.c.guards, i);
    } else {
      assert Handles(s.c.guards, i) == {};
    }
  }

  /** Between calls `num_elems` is the number of keys. */
  lemma IdleCount(s: Sys)
    requires Inv(s) && Solo(s) && Now(s).Idle?
    ensures s.c.count == |Contents(s.c.slots)|
  {
    hide SlotOk, ThreadOk, GuardOk, ChainOk, ChunksOk, Contents;
    assert Threads(s.c.pcs, Addings) == {};
    assert Threads(s.c.pcs, Removings) == {};
    KeysAreOddSlots(s.c.slots);
    OddBelowLen(s);
    Safety.SmallResidues(s.c.count, |OddSlots(s.c.slots)|);
  }

  lemma OddBelowLen(s: Sys)
    requires Inv(s)
    ensures |OddSlots(s.c.slots)| < WORD
  {
    hide Inv, FromStart;
    OddWithin(s);
  }

  lemma KeysAreOddSlots(slots: Slots)
    ensures |Contents(slots)| == |OddSlots(slots)|
  {
    hide Contents;
    assert |Contents(slots)| == |Contents(slots).Keys|;
    forall key: Key ensures key in Contents(slots) <==> key in LiveKeys(slots) {
      InContents(slots, key);
    }
    assert Contents(slots).Keys == LiveKeys(slots);
    SameSize(slots, OddSlots(slots), LiveKeys(slots));
  }

  lemma AnyOf<T>(s: set<T>) returns (x: T)
    requires |s| > 0
    ensures x in s
  {
    x :| x in s;
  }

  /** Indices and the keys built on them are equally many. */
  lemma {:induction false} SameSize(slots: Slots, indices: set<int>, keys: set<Key>)
    requires forall i :: i in indices ==> 0 <= i < 0x1_0000_0000 && Odd(slots[i].ver)
    requires forall key: Key :: key in keys <==> key.idx in indices && key.ver == slots[key.idx].ver
    ensures |keys| == |indices|
    decreases indices
  {
    if |indices| > 0 {
      var i := AnyOf(indices);
      var key: Key := RawKey(i, slots[i].ver);
      assert key in keys;
      SameSize(slots, indices - {i}, keys - {key});
    } else {
      assert keys == {};
    }
  }

  // --------------------------------------------------------------------------------------------
  // Capacity
  // --------------------------------------------------------------------------------------------

  /** Every reference is to an occupied slot: no removed value is held by a guard or leaked. */
  ghost predicate NothingLingers(slots: Slots) {
    forall i: u32 :: slots[i].refs > 0 ==> Odd(slots[i].ver)
  }

  /** Then a map with an empty free list uses every slot it has: a push is never early. */
  lemma PushedOnlyWhenFull(s: Sys)
    requires Inv(s) && Solo(s) && Now(s).Idle? && NothingLingers(s.c.slots) && s.c.head.idx == SENTINEL
    ensures s.c.len == |Contents(s.c.slots)|
  {
    hide ThreadOk, GuardOk, ChainOk, ChunksOk, CountOk, ChunkOf, Contents;
    EmptyList(s);
    forall i | 0 <= i < 0x1_0000_0000 ensures i in OddSlots(s.c.slots) <==> i in Safety.Below(s.c.len) {
      assert SlotOk(s.c, s.h, i);
    }
    assert OddSlots(s.c.slots) == Safety.Below(s.c.len);
    KeysAreOddSlots(s.c.slots);
  }

  /** The slots something refers to: a key, a guard, or a leaked count. */
  function InUse(slots: Slots): set<int> {
    set i | 0 <= i < 0x1_0000_0000 && slots[i].refs > 0
  }

  /** Between calls every slot below `len` is in use or free. */
  lemma IdlePartition(s: Sys)
    requires Inv(s) && Solo(s) && Now(s).Idle?
    ensures s.c.len == |InUse(s.c.slots)| + |s.h.free|
  {
    hide ThreadOk, GuardOk, CountOk, ChunksOk, ChunkOf;
    var used, free := InUse(s.c.slots), Safety.Elements(s.h.free);
    forall i: int ensures i in Safety.Below(s.c.len) <==> i in used || i in free {
      if 0 <= i < 0x1_0000_0000 {
        assert SlotOk(s.c, s.h, i);
        IdlePlace(s, i);
      }
    }
    forall i: int | i in used ensures i !in free {
      IdlePlace(s, i);
    }
    assert Safety.Below(s.c.len) == used + free && used * free == {};
    Safety.DistinctElements(s.h.free);
  }

  lemma ListEmptyIff(s: Sys)
    requires Inv(s)
    ensures s.c.head.idx == SENTINEL <==> s.h.free == []
  {
    hide Inv;
    if s.c.head.idx == SENTINEL {
      EmptyList(s);
    } else {
      ListBegins(s);
    }
  }

  lemma ListBegins(s: Sys)
    requires Inv(s)
    ensures s.c.head.idx != SENTINEL ==> s.h.free != []
  {
    hide SlotOk, ThreadOk, GuardOk, ChunksOk, CountOk;
  }

  lemma IdlePlace(s: Sys, i: u32)
    requires Inv(s) && Solo(s) && Now(s).Idle?
    ensures i < s.c.len <==> s.c.slots[i].refs > 0 || i in s.h.free
    ensures !(s.c.slots[i].refs > 0 && i in s.h.free)
  {
    hide ThreadOk, GuardOk, CountOk, ChainOk, ChunksOk, ChunkOf, Accounted, LifeOk;
    assert SlotOk(s.c, s.h, i);
  }

  /** Between calls the chunks are the first few. */
  lemma ChunksInOrder(s: Sys, k: nat)
    requires Inv(s) && Solo(s) && Now(s).Idle? && k in s.c.chunks && k < CHUNKS
    ensures forall j: nat :: j < k ==> j in s.c.chunks
  {
    hide Inv, FromStart, ChunkOf;
    forall j: nat | j < k ensures j in s.c.chunks {
      if j !in s.c.chunks {
        Progress.ChunksInOrder(s, j, k);
      }
    }
  }

  lemma InUseWhenNothingLingers(s: Sys)
    requires Inv(s) && NothingLingers(s.c.slots)
    ensures |InUse(s.c.slots)| == |Contents(s.c.slots)|
  {
    hide Inv, Contents;
    forall i: u32 ensures Odd(s.c.slots[i].ver) ==> s.c.slots[i].refs > 0 {
      if Odd(s.c.slots[i].ver) {
        OccupiedFacts(s, RawKey(i, s.c.slots[i].ver));
      }
    }
    assert InUse(s.c.slots) == OddSlots(s.c.slots);
    KeysAreOddSlots(s.c.slots);
  }

  /** With nothing lingering, a map of 2^32 - 1 keys has used every index but the sentinel, and has none free;
      and only such a map has. */
  lemma FullWhenAllOccupied(s: Sys)
    requires Inv(s) && Solo(s) && Now(s).Idle? && NothingLingers(s.c.slots)
    ensures |Contents(s.c.slots)| <= s.c.len
    ensures |Contents(s.c.slots)| == 0xFFFF_FFFF <==> s.c.head.idx == SENTINEL && s.c.len == 0xFFFF_FFFF
  {
    hide Inv, Solo, Contents, NothingLingers;
    KeysAreOddSlots(s.c.slots);
    OddWithin(s);
    if s.c.head.idx == SENTINEL {
      PushedOnlyWhenFull(s);
    } else if |Contents(s.c.slots)| == 0xFFFF_FFFF {
      HeadUnused(s);
      IdleHead(s);
      Safety.SubsetSize(OddSlots(s.c.slots), Safety.Below(s.c.len) - {s.c.head.idx});
    }
  }

  lemma OddWithin(s: Sys)
    requires Inv(s)
    ensures OddSlots(s.c.slots) <= Safety.Below(s.c.len)
    ensures |OddSlots(s.c.slots)| <= s.c.len
  {
    hide ThreadOk, GuardOk, ChainOk, ChunksOk, CountOk, ChunkOf;
    forall i | i in OddSlots(s.c.slots) ensures i in Safety.Below(s.c.len) {
      assert SlotOk(s.c, s.h, i);
    }
    Safety.SubsetSize(OddSlots(s.c.slots), Safety.Below(s.c.len));
  }

  lemma IdleHead(s: Sys)
    requires Inv(s)
    ensures s.c.head.idx != SENTINEL ==> s.c.head.idx < s.c.len
  {
    hide ThreadOk, GuardOk, ChunksOk, CountOk, ChunkOf;
    assert SlotOk(s.c, s.h, s.c.head.idx);
  }

  /** When every guard is on a key still there and no count leaked, nothing lingers. */
  lemma NothingLingersWhen(s: Sys)
    requires Inv(s) && Solo(s) && Now(s).Idle?
    requires forall g :: g in s.c.guards ==> s.c.guards[g].key in Contents(s.c.slots)
    requires forall i: u32 :: s.h.logs[i].leaks == 0
    ensures NothingLingers(s.c.slots)
  {
    hide Inv, Solo, Contents;
    forall i: u32 | s.c.slots[i].refs > 0 ensures Odd(s.c.slots[i].ver) {
      IdleSlot(s, i);
      if g :| g in s.c.guards && s.c.guards[g].key.idx == i {
        InContents(s.c.slots, s.c.guards[g].key);
      }
    }
  }

  lemma FreshBlank()
    ensures Leaks(Fresh()) == NoLeaks()
    ensures NothingLingers(Fresh().c.slots) && NextKey(Fresh()) == RawKey(0, 1) && FreeKeys(Fresh()) == []
    ensures var c := Fresh().c;
            && c.guards == map[] && c.chunks == map[] && c.len == 0 && c.count == 0 && c.head == Head(0, SENTINEL)
            && (forall i: u32 :: c.slots[i] == ZEROED) && Now(Fresh()) == Idle
  {
  }

  /** The slot of the next key is unreferenced and unoccupied, even where it is the sentinel's. */
  lemma NextUnused(s: Sys)
    requires Inv(s) && Solo(s) && Now(s).Idle?
    ensures var i := NextKey(s).idx;
            References(s, i) == s.c.slots[i].refs == 0 && !Odd(s.c.slots[i].ver)
    ensures NextKey(s).idx == SENTINEL <==> s.c.head.idx == SENTINEL && s.c.len == 0xFFFF_FFFF
  {
    hide Inv, Solo, References;
    HeadUnused(s);
    IdleReferences(s, NextKey(s).idx);
    IdleSlot(s, NextKey(s).idx);
  }

  // --------------------------------------------------------------------------------------------
  // The end of the map
  // --------------------------------------------------------------------------------------------

  /** `Slot::drop` on the first `n` slots: the values of occupied ones are dropped. */
  function Swept(slots: Slots, n: nat): Slots {
    seq(0x1_0000_0000, (i: nat) requires i < 0x1_0000_0000 =>
      if i < n && Odd(slots[i].ver) then slots[i].(data := Dropped) else slots[i])
  }

  lemma SweptNone(slots: Slots)
    ensures Swept(slots, 0) == slots
  {
  }

  lemma SweptNext(slots: Slots, i: u32)
    ensures Swept(slots, i)[i] == slots[i]
    ensures Swept(slots, i + 1) ==
            if Odd(slots[i].ver) then Swept(slots, i)[i := slots[i].(data := Dropped)] else Swept(slots, i)
  {
  }

  /** What is swept is what the map holds; a value that stays was removed and is counted by leaks alone. */
  lemma SweptAll(s: Sys)
    requires Inv(s) && Solo(s) && Now(s).Idle? && s.c.guards == map[]
    ensures forall key :: key in Contents(s.c.slots) ==>
              s.c.slots[key.idx].data == Live(Contents(s.c.slots)[key]) && Swept(s.c.slots, s.c.len)[key.idx].data == Dropped
    ensures forall i: u32 :: Swept(s.c.slots, s.c.len)[i].data.Live? <==> !Odd(s.c.slots[i].ver) && s.h.logs[i].leaks > 0
  {
    hide Inv, Solo, Contents;
    forall key | key in Contents(s.c.slots)
      ensures s.c.slots[key.idx].data == Live(Contents(s.c.slots)[key]) && Swept(s.c.slots, s.c.len)[key.idx].data == Dropped
    {
      InContents(s.c.slots, key);
      OccupiedFacts(s, key);
    }
    forall i: u32
      ensures Swept(s.c.slots, s.c.len)[i].data.Live? <==> !Odd(s.c.slots[i].ver) && s.h.logs[i].leaks > 0
    {
      IdleSlot(s, i);
      assert Handles(s.c.guards, i) == {};
    }
  }
}
