/** What the chunks are worth to callers among other threads: reservations that last, and the order they come in. */
module ChunkOrder {
  import opened Machine
  import opened Location
  import opened Protocol
  import opened Invariant
  import opened Touching
  import opened Progress
  import opened Linearizability
  import Safety

  // --------------------------------------------------------------------------------------------
  // Reservations
  // --------------------------------------------------------------------------------------------

  ghost predicate MadeUpTo(c: Conf, last: nat) {
    forall k: nat :: k <= last && k < CHUNKS ==> k in c.chunks
  }

  lemma ReservePhases(pc: PC, last: nat)
    ensures PhaseOf(pc) == Called(Reserve(last)) ==> (pc.ResChunk? || pc.ResChunkCas?) && pc.last == last
    ensures PhaseOf(pc) == Decided(Reserve(last), Reserved) ==> pc == Done(Reserve(last), Reserved)
  {
  }

  /** A `reserve` answers when its last chunk exists. */
  lemma ReserveAnswers(c: Conf, h: Hist, t: Tid, a: Choice, last: nat)
    requires t in c.pcs && t in h.wins && ThreadOk(c, h, t) && (c.pcs[t].ResChunk? || c.pcs[t].ResChunkCas?)
    requires Next(c, t, a).pcs[t] == Done(Reserve(last), Reserved)
    ensures MadeUpTo(Next(c, t, a), last)
  {
    hide ChunkOf, IdleStep, GetStep, RemoveStep, PushStep, PopStep, InsertStep, LookStep;
  }

  lemma ReserveStep(s: Sys, u: Tid, a: Choice, t: Tid, last: nat)
    requires Inv(s) && u in s.c.pcs && u in s.h.wins && t in s.c.pcs
    requires Next(s.c, u, a).pcs[t] == Done(Reserve(last), Reserved)
    ensures s.c.pcs[t] == Done(Reserve(last), Reserved) || MadeUpTo(Next(s.c, u, a), last)
  {
    hide Inv, Next, Record, Contents, SlotOk, ThreadOk, MadeUpTo;
    if u == t {
      var s' := Sys(Next(s.c, t, a), Record(s.c, s.h, t, a));
      ReservePhases(s.c.pcs[t], last);
      StepSimulates(s, t, a, s');
      if s.c.pcs[t].ResChunk? || s.c.pcs[t].ResChunkCas? {
        At(s, t, 0);
        ReserveAnswers(s.c, s.h, t, a, last);
      }
    }
  }

  lemma MadeStays(c: Conf, t: Tid, a: Choice, last: nat)
    requires t in c.pcs && MadeUpTo(c, last)
    ensures MadeUpTo(Next(c, t, a), last)
  {
    hide Next;
    ChunkPointersPermanent(c, t, a);
  }

  lemma {:induction false} ReserveMakes(states: seq<Sys>, moves: seq<Move>, n: nat, t: Tid, last: nat)
    requires IsRun(states, moves) && n < |states|
    requires t in states[n].c.pcs && states[n].c.pcs[t] == Done(Reserve(last), Reserved)
    ensures MadeUpTo(states[n].c, last)
  {
    hide Inv, Bounded, Next, Record, MadeUpTo;
    if n > 0 {
      var s, move := states[n - 1], moves[n - 1];
      assert Step(s, move.t, move.a, states[n]);
      ThreadsStay(states, moves, n);
      ThreadsStay(states, moves, n - 1);
      Reachable(states, moves, n - 1);
      ReserveStep(s, move.t, move.a, t, last);
      if s.c.pcs[t] == Done(Reserve(last), Reserved) {
        ReserveMakes(states, moves, n - 1, t, last);
        MadeStays(s.c, move.t, move.a, last);
      }
    }
  }

  /** Among any other threads: once a `reserve` has answered, its chunks exist, and from then on. */
  lemma {:induction false} ReservationsLast(states: seq<Sys>, moves: seq<Move>, n: nat, m: nat, t: Tid, last: nat)
    requires IsRun(states, moves) && n <= m < |states|
    requires t in states[n].c.pcs && states[n].c.pcs[t] == Done(Reserve(last), Reserved)
    ensures forall k: nat :: k <= last && k < CHUNKS ==> k in states[m].c.chunks
    decreases m - n
  {
    hide Inv, Bounded, Next, Record;
    if n == m {
      ReserveMakes(states, moves, n, t, last);
    } else {
      ReservationsLast(states, moves, n, m - 1, t, last);
      assert Step(states[m - 1], moves[m - 1].t, moves[m - 1].a, states[m]);
      MadeStays(states[m - 1].c, moves[m - 1].t, moves[m - 1].a, last);
    }
  }

  // --------------------------------------------------------------------------------------------
  // Few threads make the chunks in order
  // --------------------------------------------------------------------------------------------

  /** Chunk `k` exists while chunk `j` below it does not. */
  predicate OutOfOrder(c: Conf, j: nat, k: nat) {
    j < k < CHUNKS && k in c.chunks && j !in c.chunks
  }

  /** Every pushed index of a missing chunk has its own thread, still on its way to make the chunk. */
  lemma {:induction false} Waiting(s: Sys, j: nat, m: nat) returns (pushers: set<Tid>)
    requires Inv(s) && j < CHUNKS && j !in s.c.chunks && m <= ChunkCapacity(j) && STARTS[j] + m <= s.c.len
    ensures pushers <= s.c.pcs.Keys && |pushers| == m
    ensures forall u :: u in pushers ==> Growing(s.c.pcs[u]) && s.c.pcs[u].idx < STARTS[j] + m
  {
    hide Inv, ChunkOf, ChunkCapacity;
    if m == 0 {
      pushers := {};
    } else {
      var i: u32 := STARTS[j] + m - 1;
      var others := Waiting(s, j, m - 1);
      LocationSurjective(j, m - 1);
      ChunkIs(i);
      NoCircularWaiting(s, i);
      pushers := others + {s.h.logs[i].owner.value};
    }
  }

  lemma ChunkIs(i: u32)
    ensures ChunkOf(i) == GetLocation(i).0
  {
  }

  lemma PublishedBy(c: Conf, t: Tid, a: Choice, k: nat)
    requires t in c.pcs && k !in c.chunks && k in Next(c, t, a).chunks
    ensures (c.pcs[t].InsChunkCas? && ChunkOf(c.pcs[t].idx) == k) || (c.pcs[t].ResChunkCas? && c.pcs[t].chunk == k)
  {
    hide ChunkOf, IdleStep, GetStep, RemoveStep, PushStep, PopStep, InsertStep, LookStep;
    ChunksElsewhere(c, t, a);
  }

  /** A thread that makes a chunk while an earlier one is missing is not alone: each index of the earlier one has
      another thread. */
  lemma MakerNeedsOthers(s: Sys, t: Tid, a: Choice, j: nat, k: nat)
    requires Inv(s) && t in s.c.pcs && j < k < CHUNKS && j !in s.c.chunks
    requires k !in s.c.chunks && k in Next(s.c, t, a).chunks
    ensures |s.c.pcs.Keys| > ChunkCapacity(j)
  {
    hide Inv, SlotOk, ThreadOk, ChunkOf, ChunkCapacity, Next;
    PublishedBy(s.c, t, a, k);
    At(s, t, 0);
    BlockFacts(s.c, s.h, t);
    var i: u32 := s.c.pcs[t].idx;
    At(s, t, i);
    MakerBelowLen(s.c, s.h, t);
    ChunkIs(i);
    StartsOrdered(j, k);
    var pushers := Waiting(s, j, ChunkCapacity(j));
    Safety.SubsetSize(pushers + {t}, s.c.pcs.Keys);
  }

  lemma MakerBelowLen(c: Conf, h: Hist, t: Tid)
    requires t in c.pcs && t in h.wins && ThreadOk(c, h, t)
    ensures c.pcs[t].InsChunkCas? ==> c.pcs[t].idx < c.len
  {
    hide ChunkOf;
  }

  lemma {:induction false} ThreadsStay(states: seq<Sys>, moves: seq<Move>, n: nat)
    requires IsRun(states, moves) && n < |states|
    ensures states[n].c.pcs.Keys == states[0].c.pcs.Keys
  {
    hide Bounded, Record, Init;
    if n > 0 {
      ThreadsStay(states, moves, n - 1);
      assert Step(states[n - 1], moves[n - 1].t, moves[n - 1].a, states[n]);
      hide Next;
    }
  }

  /**
   * A chunk is missing below an existing one only in a run with more threads than the missing chunk has slots:
   * 32 * 4^j of them on their way to it, and the one that made the later chunk.
   */
  lemma {:induction false} OutOfOrderNeeds(states: seq<Sys>, moves: seq<Move>, n: nat, j: nat, k: nat)
    requires IsRun(states, moves) && n < |states| && OutOfOrder(states[n].c, j, k)
    ensures |states[0].c.pcs.Keys| > ChunkCapacity(j)
  {
    hide Inv, Bounded, Next, Record, ChunkCapacity;
    if n > 0 {
      var s, move := states[n - 1], moves[n - 1];
      assert Step(s, move.t, move.a, states[n]);
      ChunkPointersPermanent(s.c, move.t, move.a);
      if k in s.c.chunks {
        OutOfOrderNeeds(states, moves, n - 1, j, k);
      } else {
        hide Init;
        Reachable(states, moves, n - 1);
        MakerNeedsOthers(s, move.t, move.a, j, k);
        ThreadsStay(states, moves, n - 1);
      }
    }
  }

  // --------------------------------------------------------------------------------------------
  // Thirty-three threads can break it
  // --------------------------------------------------------------------------------------------

  /** The first `k` of the inserting threads have raised `len` and not yet looked at their chunk. */
  ghost function Pushers(threads: nat, k: nat): Sys
    requires k <= 33 <= threads
  {
    Sys(
      Conf(seq(0x1_0000_0000, (i: nat) => ZEROED), Head(0, SENTINEL), 0, k, map[], {}, 0,
           map t: nat | t < threads :: if t < k then InsChunk(t) else Idle, map[], 0),
      Hist([], 0, k,
           seq(0x1_0000_0000, (i: nat) => if i < k then Log(Some(i), 0, 0, 0, 0) else BLANK),
           map t: nat | t < threads :: Untouched(t), 0))
  }

  function Untouched(t: Tid): Window {
    Window(0, 0, 0)
  }

  ghost function Moved(s: Sys, k: nat, pc: PC): Sys {
    s.(c := Goto(s.c, k, pc))
  }

  lemma PusherStarts(threads: nat, k: nat)
    requires k < 33 <= threads
    ensures Step(Pushers(threads, k), k, Call(Insert), Moved(Pushers(threads, k), k, PopLoad))
    ensures Step(Moved(Pushers(threads, k), k, PopLoad), k, Tau, Moved(Pushers(threads, k), k, InsLen))
  {
    hide GetStep, RemoveStep, PushStep, InsertStep, VecStep, LookStep;
    assert Pushers(threads, k).h.wins == Pushers(threads, k).h.wins[k := Window(0, 0, 0)];
    assert Pushers(threads, k).c.pcs[k := PopLoad][k := InsLen] == Pushers(threads, k).c.pcs[k := InsLen];
  }

  lemma PusherRaisesLen(threads: nat, k: nat)
    requires k < 33 <= threads
    ensures Step(Moved(Pushers(threads, k), k, InsLen), k, Tau, Pushers(threads, k + 1))
  {
    hide GetStep, RemoveStep, PushStep, PopStep, InsertStep, LookStep, IdleStep;
    var s, s' := Moved(Pushers(threads, k), k, InsLen), Pushers(threads, k + 1);
    assert s'.c.pcs == s.c.pcs[k := InsChunk(k)];
    assert s'.h.logs == s.h.logs[k := Log(Some(k), 0, 0, 0, 0)];
  }

  lemma {:induction false} PushersRun(threads: nat, k: nat) returns (states: seq<Sys>, moves: seq<Move>)
    requires k <= 33 <= threads
    ensures IsRun(states, moves) && states[|moves|] == Pushers(threads, k) && states[0] == Pushers(threads, 0)
  {
    if k == 0 {
      states, moves := [Pushers(threads, 0)], [];
    } else {
      states, moves := PushersRun(threads, k - 1);
      hide Step;
      PusherStarts(threads, k - 1);
      PusherRaisesLen(threads, k - 1);
      RunExtended(states, moves, k - 1, Call(Insert), Moved(Pushers(threads, k - 1), k - 1, PopLoad));
      states, moves := states + [Moved(Pushers(threads, k - 1), k - 1, PopLoad)], moves + [Move(k - 1, Call(Insert))];
      RunExtended(states, moves, k - 1, Tau, Moved(Pushers(threads, k - 1), k - 1, InsLen));
      states, moves := states + [Moved(Pushers(threads, k - 1), k - 1, InsLen)], moves + [Move(k - 1, Tau)];
      RunExtended(states, moves, k - 1, Tau, Pushers(threads, k));
      states, moves := states + [Pushers(threads, k)], moves + [Move(k - 1, Tau)];
    }
  }

  lemma SecondChunk()
    ensures ChunkOf(32) == 1
  {
    assert Pow2(2) == 4;
    LocationSurjective(1, 0);
  }

  lemma PushersFacts(threads: nat)
    requires threads >= 33
    ensures var s := Pushers(threads, 33);
            && Bounded(s) && s.c.pcs.Keys == s.h.wins.Keys && 32 in s.c.pcs && s.c.pcs[32] == InsChunk(32)
            && s.c.chunks == map[] && s.c.serial == 0
  {
  }

  lemma LastPusherLoads(s: Sys) returns (s1: Sys)
    requires Bounded(s) && s.c.pcs.Keys == s.h.wins.Keys && 32 in s.c.pcs && s.c.pcs[32] == InsChunk(32)
    requires ChunkOf(32) == 1 && s.c.chunks == map[] && s.c.serial == 0
    ensures Step(s, 32, Tau, s1) && Bounded(s1)
    ensures s1.c.pcs.Keys == s1.h.wins.Keys && 32 in s1.c.pcs && s1.c.pcs[32] == InsChunkCas(32, Block(32, 0)) && s1.c.chunks == map[]
  {
    hide GetStep, RemoveStep, PushStep, PopStep, InsertStep, LookStep, IdleStep, ChunkOf;
    s1 := Sys(Next(s.c, 32, Tau), Record(s.c, s.h, 32, Tau));
  }

  lemma LastPusherExchanges(s1: Sys) returns (s2: Sys)
    requires Bounded(s1) && s1.c.pcs.Keys == s1.h.wins.Keys && 32 in s1.c.pcs && s1.c.pcs[32] == InsChunkCas(32, Block(32, 0))
    requires ChunkOf(32) == 1 && s1.c.chunks == map[]
    ensures Step(s1, 32, Tau, s2) && Bounded(s2)
    ensures 1 in s2.c.chunks && 0 !in s2.c.chunks
  {
    hide GetStep, RemoveStep, PushStep, PopStep, InsertStep, LookStep, IdleStep, ChunkOf;
    s2 := Sys(Next(s1.c, 32, Tau), Record(s1.c, s1.h, 32, Tau));
  }

  /** Any number of threads from 33 on: that many inserts started together can make chunk 1 before chunk 0, and
      `capacity`, which stops at the first missing chunk, then counts none of them. */
  lemma ChunksOutOfOrder(threads: nat) returns (states: seq<Sys>, moves: seq<Move>)
    requires threads >= 33
    ensures IsRun(states, moves) && |states[0].c.pcs.Keys| == threads
    ensures OutOfOrder(states[|moves|].c, 0, 1)
  {
    hide Step, Bounded, ChunkOf, Pushers;
    states, moves := PushersRun(threads, 33);
    PushersFacts(threads);
    SecondChunk();
    var s1 := LastPusherLoads(Pushers(threads, 33));
    var s2 := LastPusherExchanges(s1);
    RunExtended(states, moves, 32, Tau, s1);
    states, moves := states + [s1], moves + [Move(32, Tau)];
    RunExtended(states, moves, 32, Tau, s2);
    states, moves := states + [s2], moves + [Move(32, Tau)];
    ManyThreads(threads);
  }

  function Everyone(n: nat): (threads: set<Tid>)
    ensures forall t: Tid :: t in threads <==> t < n
    ensures |threads| == n
  {
    if n == 0 then {} else Everyone(n - 1) + {n - 1}
  }

  lemma ManyThreads(threads: nat)
    requires threads >= 33
    ensures |Pushers(threads, 0).c.pcs.Keys| == threads
  {
    assert Pushers(threads, 0).c.pcs.Keys == Everyone(threads);
  }

  /** A bounded run of so many threads has its chunks out of order at its end. */
  ghost predicate BreaksOrder(states: seq<Sys>, moves: seq<Move>, threads: nat) {
    IsRun(states, moves) && |states[0].c.pcs.Keys| == threads && exists j, k :: OutOfOrder(states[|moves|].c, j, k)
  }

  /** Chunks come to be out of order in some bounded run of `threads` threads if and only if there are at least 33. */
  lemma OrderBreaksIff(threads: nat)
    ensures (exists states: seq<Sys>, moves: seq<Move> :: BreaksOrder(states, moves, threads)) <==> threads >= 33
  {
    hide Step, Bounded, Init;
    if threads >= 33 {
      var states, moves := ChunksOutOfOrder(threads);
      assert BreaksOrder(states, moves, threads);
    }
    forall states: seq<Sys>, moves: seq<Move> | BreaksOrder(states, moves, threads) ensures threads >= 33 {
      var j, k :| OutOfOrder(states[|moves|].c, j, k);
      OutOfOrderNeeds(states, moves, |moves|, j, k);
      AtLeast32(j);
    }
  }

  lemma AtLeast32(j: nat)
    ensures ChunkCapacity(j) >= 32
  {
  }
}
