/** Building runs of four threads, call by call, that stay within chosen bounds. */
module Trips {
  import opened Machine
  import opened Location
  import opened Protocol
  import opened Invariant
  import A = Alone
  import L = Linearizability

  /** At most so many pushes, and so many clones that wrap a count; and fewer than 2^32 updates of the head within
      any pop, but for the threads in `lax`. */
  datatype Bounds = Bounds(lax: set<Tid>, pushes: nat, wraps: nat)

  /** The bounds the code relies on. */
  const RELIED: Bounds := Bounds({}, 0xFFFF_FFFF, 0)

  ghost predicate Within(s: Sys, b: Bounds) {
    && s.h.pushed <= b.pushes
    && (forall t :: t in s.c.pcs && t in s.h.wins && t !in b.lax && Popping(s.c.pcs[t]) ==>
          s.h.updates - s.h.wins[t].seen < WORD)
    && s.h.wraps <= b.wraps
  }

  /** Steps from the initial state, within no bounds at all. */
  ghost predicate IsPath(states: seq<Sys>, moves: seq<Move>) {
    && |states| == |moves| + 1
    && Init(states[0])
    && (forall n {:trigger moves[n]} :: 0 <= n < |moves| ==> Step(states[n], moves[n].t, moves[n].a, states[n + 1]))
  }

  /** Steps from the initial state, within the bounds all along. */
  ghost predicate IsTrip(states: seq<Sys>, moves: seq<Move>, b: Bounds) {
    IsPath(states, moves) && forall n :: 0 <= n < |states| ==> Within(states[n], b)
  }

  lemma TripIsRun(states: seq<Sys>, moves: seq<Move>)
    requires IsTrip(states, moves, RELIED)
    ensures IsRun(states, moves)
  {
    hide Step, Init;
  }

  /** A run, with the state it arrived at. */
  datatype Trip = Trip(states: seq<Sys>, moves: seq<Move>, now: Sys, b: Bounds)

  ghost predicate Sound(r: Trip) {
    && IsTrip(r.states, r.moves, r.b) && r.states[|r.moves|] == r.now
    && r.now.c.pcs.Keys == r.now.h.wins.Keys == {0, 1, 2, 3}
  }

  /** Thread `t` may go on: no other thread is inside a pop that must stay within the bound. */
  ghost predicate Ready(r: Trip, t: Tid) {
    && Sound(r) && t in r.now.c.pcs
    && forall u :: u in r.now.c.pcs && u != t && u !in r.b.lax ==> !Popping(r.now.c.pcs[u])
  }

  /** The second run continues the first. */
  ghost predicate Further(r: Trip, r': Trip) {
    r.states <= r'.states && r.moves <= r'.moves && r'.b == r.b
  }

  /** Only thread `t` moved; the head was updated `n` times, and no count leaked. */
  ghost predicate Moved(s: Sys, t: Tid, pc: PC, n: nat, s': Sys) {
    && t in s.c.pcs && s'.c.pcs == s.c.pcs[t := pc]
    && s'.h.updates == s.h.updates + n
    && (forall u :: u in s.h.wins && u != t ==> u in s'.h.wins && s'.h.wins[u] == s.h.wins[u])
    && (forall i: u32 :: s'.h.logs[i].leaks == s.h.logs[i].leaks) && s'.h.wraps == s.h.wraps
  }

  lemma Begin4(b: Bounds) returns (r: Trip)
    ensures Sound(r) && r.b == b && Init(r.now) && r.now.c.nextGid == 0
    ensures r.now.c.pcs == map[0 := Idle, 1 := Idle, 2 := Idle, 3 := Idle]
  {
    var pcs: map<Tid, PC> := map[0 := Idle, 1 := Idle, 2 := Idle, 3 := Idle];
    var none := Window(0, 0, 0);
    var s := Sys(
      Conf(seq(0x1_0000_0000, (i: nat) => ZEROED), Head(0, SENTINEL), 0, 0, map[], {}, 0, pcs, map[], 0),
      Hist([], 0, 0, seq(0x1_0000_0000, (i: nat) => BLANK), map[0 := none, 1 := none, 2 := none, 3 := none], 0));
    r := Trip([s], [], s, b);
  }

  lemma WinsKept(c: Conf, h: Hist, t: Tid, a: Choice)
    requires t in c.pcs && t in h.wins
    ensures Record(c, h, t, a).wins.Keys == h.wins.Keys
    ensures forall u :: u in h.wins && u != t ==> Record(c, h, t, a).wins[u] == h.wins[u]
    ensures h.updates <= Record(c, h, t, a).updates
  {
  }

  function Gone(s: Sys, t: Tid, a: Choice): Sys
    requires t in s.c.pcs && t in s.h.wins
  {
    Sys(Next(s.c, t, a), Record(s.c, s.h, t, a))
  }

  /** The step pushes and wraps no more than it may, and the thread, if it is inside a pop, has missed nothing. */
  ghost predicate Allowed(s: Sys, t: Tid, a: Choice, b: Bounds) {
    && t in s.c.pcs && t in s.h.wins
    && var s' := Gone(s, t, a);
       && s'.h.pushed <= b.pushes
       && s'.h.wraps <= b.wraps
       && (t in s'.c.pcs && Popping(s'.c.pcs[t]) && t !in b.lax ==> UpToDate(s', t))
  }

  lemma SoundThreads(r: Trip)
    requires Sound(r)
    ensures r.now.c.pcs.Keys == r.now.h.wins.Keys == {0, 1, 2, 3} && Within(r.now, r.b)
  {
  }

  lemma ReadyThreads(r: Trip, t: Tid)
    requires Ready(r, t)
    ensures Sound(r) && r.now.c.pcs.Keys == r.now.h.wins.Keys == {0, 1, 2, 3}
  {
    hide IsTrip;
  }

  /** One step, if where it leads is within the bounds as far as pushes, wraps and the thread's own pop go. */
  lemma Go(r: Trip, t: Tid, a: Choice) returns (r': Trip)
    requires Ready(r, t) && Allowed(r.now, t, a, r.b)
    ensures t in r.now.h.wins && Ready(r', t) && Further(r, r') && r'.b == r.b && r'.now == Gone(r.now, t, a)
  {
    hide Next, Record, IsTrip, Within;
    WinsKept(r.now.c, r.now.h, t, a);
    GoneWithin(r, t, a);
    r' := Trip(r.states + [Gone(r.now, t, a)], r.moves + [Move(t, a)], Gone(r.now, t, a), r.b);
    TripExtended(r.states, r.moves, r.b, t, a, r'.now);
  }

  lemma TripExtended(states: seq<Sys>, moves: seq<Move>, b: Bounds, t: Tid, a: Choice, s': Sys)
    requires IsTrip(states, moves, b) && Step(states[|moves|], t, a, s') && Within(s', b)
    ensures IsTrip(states + [s'], moves + [Move(t, a)], b)
    ensures (states + [s'])[|moves| + 1] == s'
  {
    hide Step, Within, Init;
    var moves' := moves + [Move(t, a)];
    forall n | 0 <= n < |moves'|
      ensures Step((states + [s'])[n], moves'[n].t, moves'[n].a, (states + [s'])[n + 1])
    {
      assert n < |moves| ==> Step(states[n], moves[n].t, moves[n].a, states[n + 1]);
    }
  }

  lemma GoneWithin(r: Trip, t: Tid, a: Choice)
    requires Ready(r, t) && Allowed(r.now, t, a, r.b)
    ensures t in r.now.h.wins && Within(Gone(r.now, t, a), r.b)
  {
    hide Next, Record, Init;
    WinsKept(r.now.c, r.now.h, t, a);
  }

  predicate Exchanges(c: Conf, pc: PC, a: Choice) {
    (pc.PopCas? || pc.PushCas?) && a != Spurious && c.head == pc.prev
  }

  /** What a step does to the history, but for owners, births, deaths and removals. */
  lemma Notes(c: Conf, h: Hist, t: Tid, a: Choice)
    requires t in c.pcs && t in h.wins
    ensures var h', pc := Record(c, h, t, a), c.pcs[t];
            && h'.pushed == h.pushed + Bit(pc.InsLen?)
            && h'.updates == h.updates + Bit(Exchanges(c, pc, a))
            && t in h'.wins
            && (h'.wins == h.wins || pc.PopLoad? || pc.PushLoad? || ((pc.PopCas? || pc.PushCas?) && !Exchanges(c, pc, a)))
            && (pc.PopLoad? ==> h'.wins[t].seen == h.updates)
  {
  }

  lemma LeaksNoted(c: Conf, h: Hist, t: Tid, a: Choice)
    requires t in c.pcs && t in h.wins && !(c.pcs[t].Idle? && a.CloneGuard?)
    ensures forall i: u32 :: Record(c, h, t, a).logs[i].leaks == h.logs[i].leaks
    ensures Record(c, h, t, a).wraps == h.wraps
  {
  }

  /** A step that is no call of clone, from where it may be taken: what it does beside the step itself. */
  lemma GoOn(r: Trip, t: Tid, a: Choice) returns (r': Trip)
    requires Ready(r, t) && !(r.now.c.pcs[t].Idle? && a.CloneGuard?)
    requires r.now.c.pcs[t].InsLen? ==> r.now.h.pushed < r.b.pushes
    requires Popping(Next(r.now.c, t, a).pcs[t]) ==> r.now.c.pcs[t].PopLoad? || (r.now.c.pcs[t].PopNext? && UpToDate(r.now, t))
    ensures t in r.now.h.wins && Ready(r', t) && Further(r, r') && r'.b == r.b && r'.now == Gone(r.now, t, a) && t in r'.now.c.pcs
    ensures Moved(r.now, t, r'.now.c.pcs[t], Bit(Exchanges(r.now.c, r.now.c.pcs[t], a)), r'.now)
    ensures r'.now.h.pushed == r.now.h.pushed + Bit(r.now.c.pcs[t].InsLen?)
    ensures Popping(r'.now.c.pcs[t]) ==> UpToDate(r'.now, t)
  {
    hide Sound, Further, Next, Record, Moved, Exchanges;
    SoundThreads(r);
    Effects(r.now, t, a);
    r' := Go(r, t, a);
  }

  /** What a step that is no call of clone does beside the step itself. */
  lemma Effects(s: Sys, t: Tid, a: Choice)
    requires t in s.c.pcs && t in s.h.wins && !(s.c.pcs[t].Idle? && a.CloneGuard?)
    ensures var s' := Gone(s, t, a);
            && t in s'.c.pcs && Moved(s, t, s'.c.pcs[t], Bit(Exchanges(s.c, s.c.pcs[t], a)), s')
            && s'.h.pushed == s.h.pushed + Bit(s.c.pcs[t].InsLen?) && s'.h.wraps == s.h.wraps
            && (s.c.pcs[t].PopLoad? || (s.c.pcs[t].PopNext? && UpToDate(s, t)) ==> UpToDate(s', t))
  {
    hide Next, Record;
    Notes(s.c, s.h, t, a);
    LeaksNoted(s.c, s.h, t, a);
    WinsKept(s.c, s.h, t, a);
  }

  // --------------------------------------------------------------------------------------------
  // Single steps, by kind
  // --------------------------------------------------------------------------------------------

  lemma CallOne(r: Trip, t: Tid, op: Op) returns (r': Trip)
    requires Ready(r, t) && (r.now.c.pcs[t] == Idle || r.now.c.pcs[t].Done?)
    ensures Ready(r', t) && Further(r, r') && r'.b == r.b && r'.now.c == r.now.c.(pcs := r'.now.c.pcs) && r'.now.h == r.now.h
    ensures Moved(r.now, t, if r.now.c.pcs[t].Idle? then Begin(op) else Idle, 0, r'.now)
  {
    hide Sound, Further, Next;
    A.NextByKind(r.now.c, t, Call(op));
    r' := GoOn(r, t, Call(op));
  }

  /** A pop's exchange is tried on the head as it is. */
  lemma PopOne(r: Trip, t: Tid) returns (r': Trip)
    requires Ready(r, t) && InPop(r.now.c.pcs[t])
    requires r.now.c.pcs[t].PopCas? ==> r.now.c.head == r.now.c.pcs[t].prev
    requires r.now.c.pcs[t].PopNext? ==> UpToDate(r.now, t)
    ensures Ready(r', t) && Further(r, r') && r'.b == r.b && r'.now.h.pushed == r.now.h.pushed
    ensures var c, pc := r.now.c, r.now.c.pcs[t];
            if pc.PopLoad? then
              && Moved(r.now, t, OnHead(c.head), 0, r'.now) && r'.now.c == c.(pcs := r'.now.c.pcs) && UpToDate(r'.now, t)
            else if pc.PopNext? then
              && Moved(r.now, t, PopCas(pc.prev, c.slots[pc.prev.idx].next), 0, r'.now) && r'.now.c == c.(pcs := r'.now.c.pcs)
              && UpToDate(r'.now, t)
            else
              && Moved(r.now, t, InsVer(pc.prev.idx), 1, r'.now)
              && r'.now.c == c.(pcs := r'.now.c.pcs, head := Head(Wrap(c.head.tag + 1), pc.next))
  {
    hide Sound, Further, Next;
    A.NextByKind(r.now.c, t, Tau);
    r' := GoOn(r, t, Tau);
  }

  lemma PushOne(r: Trip, t: Tid) returns (r': Trip)
    requires Ready(r, t) && InPush(r.now.c.pcs[t])
    requires r.now.c.pcs[t].PushCas? ==> r.now.c.head == r.now.c.pcs[t].prev
    ensures Ready(r', t) && Further(r, r') && r'.b == r.b && r'.now.h.pushed == r.now.h.pushed
    ensures var c, pc, i := r.now.c, r.now.c.pcs[t], r.now.c.pcs[t].idx;
            if pc.Destroy? then
              && Moved(r.now, t, PushLoad(i, pc.after), 0, r'.now)
              && r'.now.c == c.(pcs := r'.now.c.pcs, slots := c.slots[i := c.slots[i].(data := Dropped)])
            else if pc.PushLoad? then
              Moved(r.now, t, PushLink(i, c.head, pc.after), 0, r'.now) && r'.now.c == c.(pcs := r'.now.c.pcs)
            else if pc.PushLink? then
              && Moved(r.now, t, PushCas(i, pc.prev, pc.after), 0, r'.now)
              && r'.now.c == c.(pcs := r'.now.c.pcs, slots := c.slots[i := c.slots[i].(next := pc.prev.idx)])
            else
              && Moved(r.now, t, Finish(pc.after), 1, r'.now)
              && r'.now.c == c.(pcs := r'.now.c.pcs, head := Head(Wrap(c.head.tag + 1), i))
  {
    hide Sound, Further, Next;
    A.NextByKind(r.now.c, t, Tau);
    r' := GoOn(r, t, Tau);
  }

  lemma InsertOne(r: Trip, t: Tid, a: Choice) returns (r': Trip)
    requires Ready(r, t) && InInsert(r.now.c.pcs[t]) && (r.now.c.pcs[t].InsCall? ==> a.FOk? || a.FErr?)
    ensures Ready(r', t) && Further(r, r') && r'.b == r.b && r'.now.h.pushed == r.now.h.pushed
    ensures t in r'.now.c.pcs && Moved(r.now, t, r'.now.c.pcs[t], 0, r'.now)
    ensures r'.now.c == InsertStep(r.now.c, t, a, r.now.c.pcs[t])
  {
    hide Sound, Further, Next;
    A.NextByKind(r.now.c, t, a);
    r' := GoOn(r, t, a);
  }

  lemma GrowOne(r: Trip, t: Tid) returns (r': Trip)
    requires Ready(r, t) && ((r.now.c.pcs[t].InsLen? && r.now.h.pushed < r.b.pushes) || Growing(r.now.c.pcs[t]))
    ensures Ready(r', t) && Further(r, r') && r'.b == r.b && r'.now.h.pushed == r.now.h.pushed + Bit(r.now.c.pcs[t].InsLen?)
    ensures var c, pc := r.now.c, r.now.c.pcs[t];
            && r'.now.c == c.(pcs := r'.now.c.pcs, len := r'.now.c.len, chunks := r'.now.c.chunks,
                              freed := r'.now.c.freed, serial := r'.now.c.serial)
            && r'.now.c.len == (if pc.InsLen? then Wrap(c.len + 1) else c.len) && c.chunks.Keys <= r'.now.c.chunks.Keys
            && t in r'.now.c.pcs && Moved(r.now, t, r'.now.c.pcs[t], 0, r'.now)
            && if pc.InsLen? then r'.now.c.pcs[t] == InsChunk(c.len)
               else if r'.now.c.pcs[t] == InsCall(RawKey(pc.idx, 1)) then ChunkOf(pc.idx) in r'.now.c.chunks
               else pc.InsChunk? && r'.now.c.pcs[t].InsChunkCas? && r'.now.c.pcs[t].idx == pc.idx
  {
    hide Sound, Further, Next, GetLocation;
    A.NextByKind(r.now.c, t, Tau);
    r' := GoOn(r, t, Tau);
  }

  /** A load of a lookup that finds the chunk it looks for. */
  lemma LookOne(r: Trip, t: Tid) returns (r': Trip)
    requires Ready(r, t) && InLook(r.now.c.pcs[t])
    ensures Ready(r', t) && Further(r, r') && r'.b == r.b && r'.now.h == r.now.h && r'.now.c == LookStep(r.now.c, t, r.now.c.pcs[t])
    ensures t in r'.now.c.pcs && r'.now.c == r.now.c.(pcs := r'.now.c.pcs) && Moved(r.now, t, r'.now.c.pcs[t], 0, r'.now)
  {
    hide Sound, Further, Next, GetLocation;
    A.NextByKind(r.now.c, t, Tau);
    r' := GoOn(r, t, Tau);
  }

  lemma GetOne(r: Trip, t: Tid) returns (r': Trip)
    requires Ready(r, t) && InGet(r.now.c.pcs[t])
    ensures Ready(r', t) && Further(r, r') && r'.b == r.b && r'.now.h.pushed == r.now.h.pushed
    ensures t in r'.now.c.pcs && r'.now.c == GetStep(r.now.c, t, Tau, r.now.c.pcs[t]) && Moved(r.now, t, r'.now.c.pcs[t], 0, r'.now)
  {
    hide Sound, Further, Next;
    A.NextByKind(r.now.c, t, Tau);
    r' := GoOn(r, t, Tau);
  }

  lemma RemoveOne(r: Trip, t: Tid) returns (r': Trip)
    requires Ready(r, t) && InRemove(r.now.c.pcs[t])
    ensures Ready(r', t) && Further(r, r') && r'.b == r.b && r'.now.h.pushed == r.now.h.pushed
    ensures t in r'.now.c.pcs && r'.now.c == RemoveStep(r.now.c, t, r.now.c.pcs[t]) && Moved(r.now, t, r'.now.c.pcs[t], 0, r'.now)
  {
    hide Sound, Further, Next;
    A.NextByKind(r.now.c, t, Tau);
    r' := GoOn(r, t, Tau);
  }

  // --------------------------------------------------------------------------------------------
  // Parts of calls
  // --------------------------------------------------------------------------------------------

  lemma FurtherOn(r: Trip, m: Trip, r': Trip)
    requires Further(r, m) && Further(m, r')
    ensures Further(r, r') && r'.b == r.b
  {
  }

  /** A thread calls insert and reads the head and the link of its first slot. */
  lemma Peek(r: Trip, t: Tid) returns (r': Trip)
    requires Ready(r, t) && r.now.c.pcs[t] == Idle && r.now.c.head.idx != SENTINEL
    ensures Ready(r', t) && Further(r, r') && r'.b == r.b && r'.now.h.pushed == r.now.h.pushed
    ensures var c := r.now.c;
            && Moved(r.now, t, PopCas(c.head, c.slots[c.head.idx].next), 0, r'.now)
            && r'.now.c == c.(pcs := r'.now.c.pcs) && UpToDate(r'.now, t)
  {
    hide Sound, Further;
    var r1 := CallOne(r, t, Insert);
    var r2 := PopOne(r1, t);
    r' := PopOne(r2, t);
    FurtherOn(r, r1, r2);
    FurtherOn(r, r2, r');
  }

  /** A thread takes the first free slot and reaches its closure. */
  lemma Take(r: Trip, t: Tid) returns (r': Trip)
    requires Ready(r, t) && r.now.c.pcs[t] == Idle && r.now.c.head.idx != SENTINEL
    ensures Ready(r', t) && Further(r, r') && r'.b == r.b && r'.now.h.pushed == r.now.h.pushed
    ensures var c := r.now.c;
            && Moved(r.now, t, InsCall(RawKey(c.head.idx, OrOne(c.slots[c.head.idx].ver))), 1, r'.now)
            && r'.now.c == c.(pcs := r'.now.c.pcs, head := Head(Wrap(c.head.tag + 1), c.slots[c.head.idx].next))
  {
    hide Sound, Further;
    var r1 := Peek(r, t);
    var r2 := PopOne(r1, t);
    r' := InsertOne(r2, t, FErr);
    FurtherOn(r, r1, r2);
    FurtherOn(r, r2, r');
  }

  lemma Link(r: Trip, t: Tid) returns (r': Trip)
    requires Ready(r, t) && r.now.c.pcs[t].PushLoad?
    ensures Ready(r', t) && Further(r, r') && r'.b == r.b && r'.now.h.pushed == r.now.h.pushed
    ensures var c, i := r.now.c, r.now.c.pcs[t].idx;
            && Moved(r.now, t, Finish(r.now.c.pcs[t].after), 1, r'.now)
            && r'.now.c == c.(pcs := r'.now.c.pcs, head := Head(Wrap(c.head.tag + 1), i),
                              slots := c.slots[i := c.slots[i].(next := c.head.idx)])
  {
    hide Sound, Further;
    var r1 := PushOne(r, t);
    var r2 := PushOne(r1, t);
    r' := PushOne(r2, t);
    FurtherOn(r, r1, r2);
    FurtherOn(r, r2, r');
  }

  /** The closure declines, and the slot goes on top of the free list. */
  lemma GiveBack(r: Trip, t: Tid) returns (r': Trip)
    requires Ready(r, t) && r.now.c.pcs[t].InsCall?
    ensures Ready(r', t) && Further(r, r') && r'.b == r.b && r'.now.h.pushed == r.now.h.pushed
    ensures var c, i := r.now.c, r.now.c.pcs[t].key.idx;
            && Moved(r.now, t, Idle, 1, r'.now)
            && r'.now.c == c.(pcs := r'.now.c.pcs, head := Head(Wrap(c.head.tag + 1), i),
                              slots := c.slots[i := c.slots[i].(next := c.head.idx)])
  {
    hide Sound, Further;
    var r1 := InsertOne(r, t, FErr);
    var r2 := Link(r1, t);
    r' := CallOne(r2, t, Insert);
    FurtherOn(r, r1, r2);
    FurtherOn(r, r2, r');
  }

  lemma Grow(r: Trip, t: Tid) returns (r': Trip)
    requires Ready(r, t) && r.now.c.pcs[t] == InsLen && r.now.h.pushed < r.b.pushes
    ensures Ready(r', t) && Further(r, r') && r'.b == r.b && r'.now.h.pushed == r.now.h.pushed + 1
    ensures var c := r.now.c;
            && Moved(r.now, t, InsCall(RawKey(c.len, 1)), 0, r'.now)
            && r'.now.c == c.(pcs := r'.now.c.pcs, len := Wrap(c.len + 1), chunks := r'.now.c.chunks,
                              freed := r'.now.c.freed, serial := r'.now.c.serial)
            && c.chunks.Keys <= r'.now.c.chunks.Keys && ChunkOf(c.len) in r'.now.c.chunks
  {
    hide Sound, Further, GetLocation, Wrap, ChunkOf;
    var r1 := GrowOne(r, t);
    var r2 := GrowOne(r1, t);
    FurtherOn(r, r1, r2);
    r' := r2;
    if r2.now.c.pcs[t].InsChunkCas? {
      r' := GrowOne(r2, t);
      FurtherOn(r, r2, r');
      LastGrow(r2, t);
    }
  }

  /** The exchange on a chunk pointer leads to the closure. */
  lemma LastGrow(r: Trip, t: Tid)
    requires t in r.now.c.pcs && r.now.c.pcs[t].InsChunkCas?
    ensures VecStep(r.now.c, t, r.now.c.pcs[t]).pcs[t] == InsCall(RawKey(r.now.c.pcs[t].idx, 1))
  {
  }

  /** A thread finds no free slot, takes the next new index and reaches its closure. */
  lemma TakeNew(r: Trip, t: Tid) returns (r': Trip)
    requires Ready(r, t) && r.now.c.pcs[t] == Idle
    requires r.now.c.head.idx == SENTINEL && r.now.h.pushed < r.b.pushes
    ensures Ready(r', t) && Further(r, r') && r'.b == r.b && r'.now.h.pushed == r.now.h.pushed + 1
    ensures var c := r.now.c;
            && Moved(r.now, t, InsCall(RawKey(c.len, 1)), 0, r'.now)
            && r'.now.c == c.(pcs := r'.now.c.pcs, len := Wrap(c.len + 1), chunks := r'.now.c.chunks,
                              freed := r'.now.c.freed, serial := r'.now.c.serial)
            && c.chunks.Keys <= r'.now.c.chunks.Keys && ChunkOf(c.len) in r'.now.c.chunks
  {
    hide Sound, Further, GetLocation, Wrap, ChunkOf;
    var r1 := CallOne(r, t, Insert);
    var r2 := PopOne(r1, t);
    FurtherOn(r, r1, r2);
    r' := Grow(r2, t);
    FurtherOn(r, r2, r');
  }

  /** The closure returns a value, which is stored up to the version. */
  lemma Write(r: Trip, t: Tid, v: Value) returns (r': Trip)
    requires Ready(r, t) && r.now.c.pcs[t].InsCall?
    ensures Ready(r', t) && Further(r, r') && r'.b == r.b && r'.now.h.pushed == r.now.h.pushed
    ensures var c, key := r.now.c, r.now.c.pcs[t].key;
            && Moved(r.now, t, InsPub(key, v), 0, r'.now)
            && r'.now.c == c.(pcs := r'.now.c.pcs, slots := c.slots[key.idx := c.slots[key.idx].(data := Live(v), refs := 1)])
  {
    hide Sound, Further, Wrap;
    var r1 := InsertOne(r, t, FOk(v));
    var r2 := InsertOne(r1, t, FOk(v));
    r' := InsertOne(r2, t, FOk(v));
    FurtherOn(r, r1, r2);
    FurtherOn(r, r2, r');
  }

  /** The closure returns a value, and the insert is completed. */
  lemma Complete(r: Trip, t: Tid, v: Value) returns (r': Trip)
    requires Ready(r, t) && r.now.c.pcs[t].InsCall?
    ensures Ready(r', t) && Further(r, r') && r'.b == r.b && r'.now.h.pushed == r.now.h.pushed
    ensures var c, key := r.now.c, r.now.c.pcs[t].key;
            && Moved(r.now, t, Idle, 0, r'.now)
            && r'.now.c == c.(pcs := r'.now.c.pcs, count := Wrap(c.count + 1),
                              slots := c.slots[key.idx := Slot(Live(v), c.slots[key.idx].next, 1, key.ver)])
  {
    hide Sound, Further, Wrap;
    var r1 := Write(r, t, v);
    var r2 := InsertOne(r1, t, FOk(v));
    var r3 := InsertOne(r2, t, FOk(v));
    r' := CallOne(r3, t, Insert);
    FurtherOn(r, r1, r2);
    FurtherOn(r, r2, r3);
    FurtherOn(r, r3, r');
  }

  /** A lookup finds the slot of its key. */
  lemma Locate(r: Trip, t: Tid, what: Lookup, key: Key) returns (r': Trip)
    requires Ready(r, t) && r.now.c.pcs[t] == Idle && key.idx < r.now.c.len && ChunkOf(key.idx) in r.now.c.chunks
    ensures Ready(r', t) && Further(r, r') && r'.b == r.b && r'.now.h.pushed == r.now.h.pushed
    ensures r'.now.c == r.now.c.(pcs := r'.now.c.pcs) && Moved(r.now, t, Located(what, key), 0, r'.now)
  {
    hide Sound, Further, ChunkOf;
    var r1 := CallOne(r, t, OpOf(what, key));
    var r2 := LookOne(r1, t);
    r' := LookOne(r2, t);
    FurtherOn(r, r1, r2);
    FurtherOn(r, r2, r');
  }

  /** A remove up to the point where it gives up the map's reference, which is the only one. */
  lemma EndLast(r: Trip, t: Tid, key: Key) returns (r': Trip)
    requires Ready(r, t) && r.now.c.pcs[t] == RemVer(key)
    requires r.now.c.slots[key.idx].ver == key.ver && r.now.c.slots[key.idx].refs == 1
    ensures Ready(r', t) && Further(r, r') && r'.b == r.b && r'.now.h.pushed == r.now.h.pushed
    ensures var c := r.now.c;
            && Moved(r.now, t, Destroy(key.idx, AfterRemove(key)), 0, r'.now)
            && r'.now.c == c.(pcs := r'.now.c.pcs, slots := c.slots[key.idx := c.slots[key.idx].(refs := 0, ver := Wrap(key.ver + 1))])
  {
    hide Sound, Further;
    var r1 := RemoveOne(r, t);
    var r2 := RemoveOne(r1, t);
    r' := RemoveOne(r2, t);
    FurtherOn(r, r1, r2);
    FurtherOn(r, r2, r');
  }

  /** A remove of a key nothing else refers to, from call to return. */
  lemma TakeOut(r: Trip, t: Tid, key: Key) returns (r': Trip)
    requires Ready(r, t) && r.now.c.pcs[t] == Idle && key.idx < r.now.c.len && ChunkOf(key.idx) in r.now.c.chunks
    requires r.now.c.slots[key.idx].ver == key.ver && r.now.c.slots[key.idx].refs == 1
    ensures Ready(r', t) && Further(r, r') && r'.b == r.b && r'.now.h.pushed == r.now.h.pushed
    ensures var c := r.now.c;
            && Moved(r.now, t, Idle, 1, r'.now)
            && r'.now.c == c.(pcs := r'.now.c.pcs, head := Head(Wrap(c.head.tag + 1), key.idx), count := Wrap(c.count - 1),
                              slots := c.slots[key.idx := Slot(Dropped, c.head.idx, 0, Wrap(key.ver + 1))])
  {
    hide Sound, Further, ChunkOf, Wrap;
    var r1 := Locate(r, t, ForRemove, key);
    var r2 := EndLast(r1, t, key);
    var r3 := PushOne(r2, t);
    var r4 := Link(r3, t);
    var r5 := RemoveOne(r4, t);
    r' := CallOne(r5, t, Remove(key));
    FurtherOn(r, r1, r2);
    FurtherOn(r, r2, r3);
    FurtherOn(r, r3, r4);
    FurtherOn(r, r4, r5);
    FurtherOn(r, r5, r');
  }

  /** The first key a map ever hands out. */
  const FIRST: Key := RawKey(0, 1)

  /** The map has the value under the key. */
  ghost predicate Maps(c: Conf, key: Key, value: Value) {
    key in L.Contents(c.slots) && L.Contents(c.slots)[key] == value
  }

  lemma MapsWhen(c: Conf, key: Key, value: Value)
    requires c.slots[key.idx].ver == key.ver && c.slots[key.idx].data == Live(value)
    ensures Maps(c, key, value)
  {
    hide L.Contents;
    L.InContents(c.slots, key);
  }
}
