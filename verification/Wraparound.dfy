/** A run in which 2^32 updates of the head fall inside one pop, and what that pop then does. */
module Wraparound {
  import opened Machine
  import opened Location
  import opened Protocol
  import opened Trips
  import A = Alone

  /** Three pushes, no wrapped count, and every thread's pops but thread 0's within the bound, all along the run. */
  const OTHERS: Bounds := Bounds({0}, 3, 0)

  /** Thread 0 is about to exchange a head it read long ago, expecting slot 1 to follow slot 0; slot 1 is
      thread 1's, and slot 0 is the only free one. */
  ghost predicate Stale(s: Sys, since: nat) {
    && s.c.pcs.Keys == s.h.wins.Keys == {0, 1, 2, 3}
    && s.c.pcs[0] == PopCas(Head(since % 0x1_0000_0000, 0), 1)
    && s.c.pcs[1] == InsCall(RawKey(1, 1)) && s.c.pcs[2] == Idle && !Popping(s.c.pcs[3])
    && s.c.head == Head(s.h.updates % 0x1_0000_0000, 0) && s.c.slots[0].next == SENTINEL
    && s.h.wins[0].seen == since <= s.h.updates
  }

  /** Thread 2 takes slot 0 and gives it back: two updates, and nothing else changed. */
  lemma Round(r: Trip, since: nat) returns (r': Trip)
    requires Sound(r) && r.b == OTHERS && Stale(r.now, since)
    ensures Sound(r') && r'.b == OTHERS && Stale(r'.now, since) && r'.now.h.updates == r.now.h.updates + 2
  {
    hide Ready, Wrap, Further;
    TagTwice(r.now.h.updates);
    StaleReady(r, since);
    hide Sound;
    r' := Take(r, 2);
    r' := GiveBack(r', 2);
    ReadyThreads(r', 2);
  }

  lemma StaleReady(r: Trip, since: nat)
    requires Sound(r) && r.b == OTHERS && Stale(r.now, since)
    ensures Ready(r, 2)
  {
    hide Sound;
  }

  lemma TagTwice(u: nat)
    ensures Wrap(Wrap(u % 0x1_0000_0000 + 1) + 1) == (u + 2) % 0x1_0000_0000
  {
  }

  lemma {:induction false} Rounds(r: Trip, since: nat, n: nat) returns (r': Trip)
    requires Sound(r) && r.b == OTHERS && Stale(r.now, since)
    ensures Sound(r') && r'.b == OTHERS && Stale(r'.now, since) && r'.now.h.updates == r.now.h.updates + 2 * n
  {
    hide Sound, Stale;
    r' := r;
    if n > 0 {
      r' := Rounds(r, since, n - 1);
      r' := Round(r', since);
    }
  }

  predicate NeverUsed(slots: Slots) {
    slots[0].ver == 0 && slots[1].ver == 0 && slots[2].ver == 0
  }

  /** What every stage of the run has in common. */
  ghost predicate Staged(r: Trip, updates: nat, pushed: nat) {
    && Sound(r) && r.b == OTHERS
    && r.now.c.pcs.Keys == {0, 1, 2, 3} && r.now.c.pcs[0] == Idle
    && (forall t :: t in r.now.c.pcs ==> !Popping(r.now.c.pcs[t]))
    && r.now.h.updates == updates && r.now.h.pushed == pushed && r.now.c.len == pushed
    && r.now.c.head.tag == updates && NeverUsed(r.now.c.slots)
  }

  /** A thread other than 0 takes a new index. */
  lemma StageNew(r: Trip, t: Tid, updates: nat, pushed: nat) returns (r': Trip)
    requires Staged(r, updates, pushed) && r.now.c.head.idx == SENTINEL && pushed < 3
    requires 0 < t < 4 && r.now.c.pcs[t] == Idle
    ensures Staged(r', updates, pushed + 1) && r'.now.c.head.idx == SENTINEL
    ensures r'.now.c.pcs == r.now.c.pcs[t := InsCall(RawKey(pushed, 1))]
  {
    hide Sound, Further, ChunkOf;
    r' := TakeNew(r, t);
    SoundThreads(r');
  }

  /** A thread other than 0 gives slot `i` back. */
  lemma StageBack(r: Trip, t: Tid, i: u32, updates: nat, pushed: nat) returns (r': Trip)
    requires Staged(r, updates, pushed) && updates < 10
    requires 0 < t < 4 && r.now.c.pcs[t] == InsCall(RawKey(i, 1))
    ensures Staged(r', updates + 1, pushed)
    ensures r'.now.c.pcs == r.now.c.pcs[t := Idle] && r'.now.c.head.idx == i
    ensures r'.now.c.slots == r.now.c.slots[i := r.now.c.slots[i].(next := r.now.c.head.idx)]
  {
    hide Further, NeverUsed;
    StagedReady(r, t, updates, pushed);
    hide Sound, Ready;
    r' := GiveBack(r, t);
    ReadyThreads(r', t);
    assert NeverUsed(r'.now.c.slots) by { StillNeverUsed(r.now.c.slots, r'.now.c.slots); }
  }

  lemma StagedReady(r: Trip, t: Tid, updates: nat, pushed: nat)
    requires Staged(r, updates, pushed) && 0 < t < 4
    ensures Ready(r, t)
  {
    hide Sound, NeverUsed;
  }

  lemma StillNeverUsed(slots: Slots, slots': Slots)
    requires NeverUsed(slots) && forall i: u32 :: slots'[i].ver == slots[i].ver
    ensures NeverUsed(slots')
  {
  }

  lemma ThreeTaken() returns (r: Trip)
    ensures Staged(r, 0, 3) && r.now.c.head.idx == SENTINEL
    ensures r.now.c.pcs == map[0 := Idle, 1 := InsCall(RawKey(0, 1)), 2 := InsCall(RawKey(1, 1)), 3 := InsCall(RawKey(2, 1))]
  {
    hide Sound;
    r := Begin4(OTHERS);
    AtFirst(r);
    hide NeverUsed, Init;
    r := StageNew(r, 1, 0, 0);
    r := StageNew(r, 2, 0, 1);
    r := StageNew(r, 3, 0, 2);
  }

  lemma AtFirst(r: Trip)
    requires Sound(r) && Init(r.now) && r.b == OTHERS
    requires r.now.c.pcs == map[0 := Idle, 1 := Idle, 2 := Idle, 3 := Idle]
    ensures Staged(r, 0, 0) && r.now.c.head.idx == SENTINEL
  {
    hide Sound;
  }

  /** Slots 0, 1 and 2 are free, in this order. */
  lemma ThreeFree() returns (r: Trip)
    ensures Staged(r, 3, 3)
    ensures r.now.c.pcs == map[0 := Idle, 1 := Idle, 2 := Idle, 3 := Idle]
    ensures r.now.c.head.idx == 0 && r.now.c.slots[0].next == 1 && r.now.c.slots[1].next == 2 && r.now.c.slots[2].next == SENTINEL
  {
    hide Sound, Staged;
    r := ThreeTaken();
    r := StageBack(r, 3, 2, 0, 3);
    r := StageBack(r, 2, 1, 1, 3);
    r := StageBack(r, 1, 0, 2, 3);
  }

  /** Thread 0 reads the head; then slots 0, 1 and 2 are taken and slot 0 is given back. */
  lemma GoneStale() returns (r: Trip)
    ensures Sound(r) && r.b == OTHERS && Stale(r.now, 3) && r.now.h.updates == 7
  {
    hide Sound, Further;
    r := ThreeFree();
    r := Peek(r, 0);
    r := Take(r, 2);
    r := Take(r, 1);
    r := Take(r, 3);
    r := GiveBack(r, 2);
    SoundThreads(r);
  }

  /**
   * The bound on head updates inside a pop cannot be dropped. A run within every other bound, in which exactly
   * 2^32 updates fall inside one pop, ends in that pop's stale exchange succeeding and making a slot the head of
   * the free list while another thread is about to store a value there.
   */
  lemma TagWrapBreaksPop() returns (r: Trip, r': Trip)
    ensures Sound(r) && r.b == OTHERS
    ensures r.now.c.pcs[0].PopCas? && r.now.h.updates - r.now.h.wins[0].seen == WORD
    ensures Sound(r') && r'.b == OTHERS && Further(r, r') && r'.now.c == Next(r.now.c, 0, Tau)
    ensures r'.now.c.pcs[0] == InsVer(0) && r'.now.c.head.idx == 1 && r'.now.c.pcs[1] == InsCall(RawKey(1, 1))
  {
    hide Sound, Further;
    r := GoneStale();
    r := Rounds(r, 3, 0x7FFF_FFFE);
    r' := StalePop(r);
  }

  lemma StalePop(r: Trip) returns (r': Trip)
    requires Sound(r) && r.b == OTHERS && Stale(r.now, 3) && r.now.h.updates == 3 + WORD
    ensures Sound(r') && r'.b == OTHERS && Further(r, r') && r'.now.c == Next(r.now.c, 0, Tau)
    ensures r'.now.c.pcs[0] == InsVer(0) && r'.now.c.head.idx == 1 && r'.now.c.pcs[1] == InsCall(RawKey(1, 1))
  {
    hide Sound, Further, Next, Wrap;
    assert (3 + WORD) % 0x1_0000_0000 == 3;
    A.NextByKind(r.now.c, 0, Tau);
    r' := GoOn(r, 0, Tau);
  }
}
