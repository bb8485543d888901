/** What the 2^32-th index does: the map does not notice that it is full. */
module FullMap {
  import opened Machine
  import opened Location
  import opened Protocol
  import opened Trips

  // --------------------------------------------------------------------------------------------
  // Which indices are usable, in every run
  // --------------------------------------------------------------------------------------------

  /** The indices `push_zeroed` handed out in the first `n` moves. */
  function Issued(states: seq<Sys>, moves: seq<Move>, n: nat): seq<u32>
    requires n <= |moves| && |states| == |moves| + 1
  {
    if n == 0 then []
    else
      var c, t := states[n - 1].c, moves[n - 1].t;
      Issued(states, moves, n - 1) + if t in c.pcs && c.pcs[t].InsLen? then [c.len] else []
  }

  lemma LenElsewhere(c: Conf, t: Tid, a: Choice)
    requires t in c.pcs
    ensures c.pcs[t].Idle? ==> IdleStep(c, t, a).len == c.len
    ensures InLook(c.pcs[t]) ==> LookStep(c, t, c.pcs[t]).len == c.len
    ensures InGet(c.pcs[t]) ==> GetStep(c, t, a, c.pcs[t]).len == c.len
    ensures InRemove(c.pcs[t]) ==> RemoveStep(c, t, c.pcs[t]).len == c.len
    ensures InPush(c.pcs[t]) ==> PushStep(c, t, a, c.pcs[t]).len == c.len
    ensures InPop(c.pcs[t]) ==> PopStep(c, t, a, c.pcs[t]).len == c.len
    ensures InInsert(c.pcs[t]) ==> InsertStep(c, t, a, c.pcs[t]).len == c.len
    ensures InVec(c.pcs[t]) ==> VecStep(c, t, c.pcs[t]).len == if c.pcs[t].InsLen? then Wrap(c.len + 1) else c.len
  {
    hide ChunkOf;
  }

  lemma LenMoves(c: Conf, t: Tid, a: Choice)
    requires t in c.pcs
    ensures Next(c, t, a).len == if c.pcs[t].InsLen? then Wrap(c.len + 1) else c.len
  {
    hide IdleStep, GetStep, RemoveStep, PushStep, PopStep, InsertStep, VecStep, LookStep;
    LenElsewhere(c, t, a);
  }

  /** The indices handed out count up from 0, modulo 2^32. */
  lemma {:induction false} IssuedInTurn(states: seq<Sys>, moves: seq<Move>, n: nat)
    requires IsPath(states, moves) && n <= |moves|
    ensures states[n].c.len == |Issued(states, moves, n)| % 0x1_0000_0000
    ensures |Issued(states, moves, n)| == states[n].h.pushed
    ensures forall k :: 0 <= k < |Issued(states, moves, n)| ==> Issued(states, moves, n)[k] == k % 0x1_0000_0000
  {
    hide Next, Record, Wrap, Exchanges;
    if n > 0 {
      hide Init;
      IssuedInTurn(states, moves, n - 1);
      var s, t, a := states[n - 1], moves[n - 1].t, moves[n - 1].a;
      assert Step(s, t, a, states[n]);
      LenMoves(s.c, t, a);
      Notes(s.c, s.h, t, a);
      WrapNext(|Issued(states, moves, n - 1)|);
    }
  }

  lemma WrapNext(u: nat)
    ensures Wrap(u % 0x1_0000_0000 + 1) == (u + 1) % 0x1_0000_0000
  {
  }

  ghost predicate UsableIndices(xs: seq<u32>) {
    && (forall k :: 0 <= k < |xs| ==> xs[k] != SENTINEL)
    && (forall j, k :: 0 <= j < k < |xs| ==> xs[j] != xs[k])
  }

  /**
   * In every run, the indices handed out are pairwise different and none is the sentinel, if and only if at most
   * 2^32 - 1 were handed out.
   */
  lemma UsableIff(states: seq<Sys>, moves: seq<Move>, n: nat)
    requires IsPath(states, moves) && n <= |moves|
    ensures UsableIndices(Issued(states, moves, n)) <==> states[n].h.pushed <= 0xFFFF_FFFF
  {
    hide Step, Init, Issued;
    IssuedInTurn(states, moves, n);
    var xs := Issued(states, moves, n);
    if |xs| > 0xFFFF_FFFF {
      assert xs[0xFFFF_FFFF] == SENTINEL;
    }
  }

  // --------------------------------------------------------------------------------------------
  // A run past the limit
  // --------------------------------------------------------------------------------------------

  /** Thread 1 inserts a value at a new index. */
  lemma FillOne(r: Trip) returns (r': Trip)
    requires Ready(r, 1) && r.now.c.pcs[1] == Idle && r.now.c.head.idx == SENTINEL && r.now.h.pushed < r.b.pushes
    ensures Ready(r', 1) && Further(r, r') && r'.b == r.b && r'.now.h.pushed == r.now.h.pushed + 1
    ensures var c, c' := r.now.c, r'.now.c;
            && c'.pcs == c.pcs && c'.head == c.head && c'.len == Wrap(c.len + 1)
            && c'.slots == c.slots[c.len := Slot(Live(7), c.slots[c.len].next, 1, 1)]
            && c.chunks.Keys <= c'.chunks.Keys && ChunkOf(c.len) in c'.chunks
  {
    hide Sound, Further, Wrap, ChunkOf;
    var r1 := TakeNew(r, 1);
    r' := Complete(r1, 1, 7);
    FurtherOn(r, r1, r');
    assert r'.now.c.pcs == r.now.c.pcs[1 := Idle] == r.now.c.pcs;
  }

  /** Thread 1 inserts until `n` indices were handed out. */
  lemma {:induction false} Fill(r: Trip, n: nat) returns (r': Trip)
    requires Ready(r, 1) && r.now.c.pcs[1] == Idle && r.now.c.head.idx == SENTINEL
    requires 1 <= r.now.c.len == r.now.h.pushed <= n <= 0xFFFF_FFFF <= r.b.pushes
    ensures Ready(r', 1) && Further(r, r') && r'.b == r.b && r'.now.c.len == r'.now.h.pushed == n
    ensures var c, c' := r.now.c, r'.now.c;
            && c'.pcs == c.pcs && c'.head == c.head && c'.slots[0] == c.slots[0] && c.chunks.Keys <= c'.chunks.Keys
    decreases n - r.now.c.len
  {
    hide Sound, ChunkOf;
    r' := r;
    if r.now.c.len < n {
      hide Further;
      var r1 := FillOne(r);
      r' := Fill(r1, n);
      FurtherOn(r, r1, r');
    }
  }

  /** All but the sentinel's index were handed out; slot 0 holds its first value. */
  ghost predicate AtLimit(r: Trip) {
    && Ready(r, 1) && r.b == Bounds({}, 0x1_0000_0001, 0)
    && r.now.h.pushed == r.now.c.len == 0xFFFF_FFFF && r.now.c.head.idx == SENTINEL
  }

  lemma FilledUp() returns (r: Trip)
    ensures AtLimit(r) && r.now.c.slots[0] == Slot(Live(7), 0, 1, 1)
    ensures r.now.c.pcs == map[0 := Idle, 1 := Idle, 2 := Idle, 3 := Idle]
  {
    hide Sound, Init, ChunkOf, Further;
    r := Begin4(Bounds({}, 0x1_0000_0001, 0));
    NothingYet(r);
    r := FillOne(r);
    r := Fill(r, 0xFFFF_FFFF);
  }

  lemma NothingYet(r: Trip)
    requires Sound(r) && Init(r.now)
    ensures r.now.h.pushed == r.now.c.len == 0 && r.now.c.head == Head(0, SENTINEL) && r.now.c.slots[0] == ZEROED
  {
  }

  /** A `get` by thread 3 that finds the index at or past the length. */
  lemma Miss(r: Trip, key: Key) returns (r': Trip)
    requires Ready(r, 3) && r.now.c.pcs[3] == Idle && key.idx >= r.now.c.len
    ensures Ready(r', 3) && Further(r, r') && r'.b == r.b && r'.now.c == r.now.c.(pcs := r'.now.c.pcs)
    ensures r'.now.h.pushed == r.now.h.pushed && Moved(r.now, 3, Done(Get(key), NotFound), 0, r'.now)
  {
    hide Sound, Further;
    var r1 := CallOne(r, 3, Get(key));
    r' := LookOne(r1, 3);
    FurtherOn(r, r1, r');
  }

  /**
   * The documented panic of a full map does not happen. After 2^32 - 1 inserts one more succeeds, on the
   * sentinel's index; from then on a `get` of a key that is in the map misses; and the next insert has slot 0 to
   * itself, under the key the slot already has, and writes over the value there without dropping it.
   */
  lemma FullMapOverwrites() returns (full: Trip, missed: Trip, owned: Trip, over: Trip)
    ensures AtLimit(full) && Maps(full.now.c, FIRST, 7) && full.now.c.pcs == map[0 := Idle, 1 := Idle, 2 := Idle, 3 := Idle]
    ensures Sound(missed) && Further(full, missed) && missed.now.h.pushed == WORD && Maps(missed.now.c, FIRST, 7)
    ensures 3 in missed.now.c.pcs && missed.now.c.pcs[3] == Done(Get(FIRST), NotFound)
    ensures Sound(owned) && Further(missed, owned) && owned.now.h.pushed == WORD + 1 && Maps(owned.now.c, FIRST, 7)
    ensures 2 in owned.now.c.pcs && owned.now.c.pcs[2] == InsCall(FIRST)
    ensures Sound(over) && Further(owned, over) && over.now.h.pushed == WORD + 1 && Maps(over.now.c, FIRST, 8)
    ensures 2 in over.now.c.pcs && over.now.c.pcs[2] == InsPub(FIRST, 8)
  {
    hide Sound, Further, Maps, ChunkOf, Moved;
    full := FilledUp();
    MapsWhen(full.now.c, FIRST, 7);
    var r1, m := OneMore(full);
    missed := m;
    FurtherOn(full, r1, missed);
    owned, over := Overwrite(missed);
  }

  lemma OneMore(full: Trip) returns (r1: Trip, missed: Trip)
    requires AtLimit(full) && full.now.c.slots[0] == Slot(Live(7), 0, 1, 1)
    requires full.now.c.pcs == map[0 := Idle, 1 := Idle, 2 := Idle, 3 := Idle]
    ensures Ready(missed, 2) && Further(full, r1) && Further(r1, missed) && missed.now.h.pushed == WORD && missed.b == full.b
    ensures missed.now.c.slots[0] == Slot(Live(7), 0, 1, 1) && missed.now.c.head.idx == SENTINEL && missed.now.c.len == 0
    ensures missed.now.c.pcs == map[0 := Idle, 1 := Idle, 2 := Idle, 3 := Done(Get(FIRST), NotFound)]
    ensures Maps(missed.now.c, FIRST, 7)
  {
    hide Sound, Maps, ChunkOf;
    r1 := FillOne(full);
    missed := Miss(r1, FIRST);
    MapsWhen(missed.now.c, FIRST, 7);
  }

  lemma Overwrite(missed: Trip) returns (owned: Trip, over: Trip)
    requires Ready(missed, 2) && missed.now.h.pushed == WORD && missed.b == Bounds({}, 0x1_0000_0001, 0)
    requires missed.now.c.slots[0] == Slot(Live(7), 0, 1, 1) && missed.now.c.head.idx == SENTINEL && missed.now.c.len == 0
    requires missed.now.c.pcs[2] == Idle
    ensures Sound(owned) && Further(missed, owned) && owned.now.h.pushed == WORD + 1 && Maps(owned.now.c, FIRST, 7)
    ensures 2 in owned.now.c.pcs && owned.now.c.pcs[2] == InsCall(FIRST)
    ensures Sound(over) && Further(owned, over) && over.now.h.pushed == WORD + 1 && Maps(over.now.c, FIRST, 8)
    ensures 2 in over.now.c.pcs && over.now.c.pcs[2] == InsPub(FIRST, 8)
  {
    hide Sound, Further, Maps, ChunkOf;
    owned := TakeNew(missed, 2);
    MapsWhen(owned.now.c, FIRST, 7);
    over := Write(owned, 2, 8);
    MapsWhen(over.now.c, FIRST, 8);
  }

  /** Neither referenced nor occupied, and the last of its list. */
  predicate Unused(slot: Slot) {
    slot.refs == 0 && !Odd(slot.ver) && slot.next == SENTINEL
  }

  /**
   * Giving the sentinel's slot back hides the free slots. Slot 0 is the free list; the closure that was given
   * the sentinel's key declines, so that the sentinel's slot links to slot 0 and is the head; then, with every
   * thread idle, the list reads as empty, and the next insert pushes a new index: 0, the free slot's.
   */
  lemma SentinelHidesFreeSlots() returns (free: Trip, hidden: Trip, next: Trip)
    ensures Sound(free) && free.now.h.pushed == WORD && free.now.c.head.idx == 0 && Unused(free.now.c.slots[0])
    ensures free.now.c.pcs == map[0 := Idle, 1 := Idle, 2 := InsCall(RawKey(SENTINEL, 1)), 3 := Idle]
    ensures Sound(hidden) && Further(free, hidden) && hidden.now.h.pushed == WORD
    ensures hidden.now.c.pcs == map[0 := Idle, 1 := Idle, 2 := Idle, 3 := Idle]
    ensures hidden.now.c.head.idx == SENTINEL && hidden.now.c.slots[SENTINEL].next == 0
    ensures OnHead(hidden.now.c.head) == InsLen && Unused(hidden.now.c.slots[0])
    ensures Sound(next) && Further(hidden, next) && next.now.h.pushed == WORD + 1
    ensures 2 in next.now.c.pcs && next.now.c.pcs[2] == InsCall(FIRST)
  {
    hide Sound, Further, ChunkOf;
    var r := SentinelGiven();
    free := GiveBack(r, 3);
    hidden := GiveBack(free, 2);
    next := TakeNew(hidden, 2);
  }

  /** Thread 3 was given slot 0, thread 1 filled the others, and thread 2 was given the sentinel's. */
  lemma SentinelGiven() returns (r: Trip)
    ensures Ready(r, 1) && r.b == Bounds({}, 0x1_0000_0001, 0) && r.now.h.pushed == WORD
    ensures r.now.c.head.idx == SENTINEL && r.now.c.len == 0 && r.now.c.slots[0] == ZEROED
    ensures r.now.c.pcs == map[0 := Idle, 1 := Idle, 2 := InsCall(RawKey(SENTINEL, 1)), 3 := InsCall(FIRST)]
  {
    hide Sound, Further, ChunkOf, Init;
    r := Begin4(Bounds({}, 0x1_0000_0001, 0));
    NothingYet(r);
    r := TakeNew(r, 3);
    r := Fill(r, 0xFFFF_FFFF);
    r := TakeNew(r, 2);
  }
}
