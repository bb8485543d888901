/** Waiting, retrying and growing. */
module Progress {
  import opened Machine
  import opened Location
  import opened Protocol
  import opened Invariant
  import opened Touching

  // --------------------------------------------------------------------------------------------
  // Retries
  // --------------------------------------------------------------------------------------------

  /** The failed exchanges of a pop or push, spurious ones aside, are at most the updates of the head
      since it began; its own update ends it, so these are other threads' updates. */
  lemma FailuresBounded(states: seq<Sys>, moves: seq<Move>, n: nat, t: Tid)
    requires IsRun(states, moves) && n < |states|
    requires t in states[n].c.pcs && t in states[n].h.wins
    ensures var w := states[n].h.wins[t]; w.fails <= w.seen - w.start <= states[n].h.updates - w.start
  {
    hide IsRun, Inv, SlotOk;
    Reachable(states, moves, n);
    At(states[n], t, 0);
  }

  /** While a pop or push has seen no update since its last reading of the head, its exchange cannot
      fail but spuriously. */
  lemma UncontendedExchange(s: Sys, t: Tid)
    requires Inv(s) && t in s.c.pcs && t in s.h.wins
    requires s.c.pcs[t].PopCas? || s.c.pcs[t].PushCas?
    requires s.h.wins[t].seen == s.h.updates
    ensures s.c.head == s.c.pcs[t].prev
  {
    hide Inv, SlotOk, ChunkOf;
    At(s, t, 0);
  }

  /** The thread is in one pop, or in one push. */
  predicate Exchanging(c: Conf, t: Tid, pushing: bool) {
    && t in c.pcs
    && if pushing then c.pcs[t].PushLoad? || c.pcs[t].PushLink? || c.pcs[t].PushCas? else InPop(c.pcs[t])
  }

  /** The head is not the word the thread last read. */
  predicate Stale(c: Conf, t: Tid) {
    && t in c.pcs
    && (c.pcs[t].PopNext? || c.pcs[t].PopCas? || c.pcs[t].PushLink? || c.pcs[t].PushCas?) && c.head != c.pcs[t].prev
  }

  /** The thread's exchange of the head fails, and not for no reason. */
  predicate LosesHead(c: Conf, t: Tid) {
    Stale(c, t) && (c.pcs[t].PopCas? || c.pcs[t].PushCas?)
  }

  function LossCount(states: seq<Sys>, moves: seq<Move>, t: Tid, from: nat, n: nat): nat
    requires n <= |moves| && |states| == |moves| + 1
  {
    if n <= from then 0
    else LossCount(states, moves, t, from, n - 1) + Bit(moves[n - 1].t == t && LosesHead(states[n - 1].c, t))
  }

  /** How often threads other than `t` changed the head. */
  function HeadChanges(states: seq<Sys>, moves: seq<Move>, t: Tid, from: nat, n: nat): nat
    requires n <= |moves| && |states| == |moves| + 1
  {
    if n <= from then 0
    else HeadChanges(states, moves, t, from, n - 1) + Bit(moves[n - 1].t != t && states[n - 1].c.head != states[n].c.head)
  }

  /** In every run, within no bounds, a pop or push loses its exchange, spurious failures aside, at most as often as
      other threads changed the head since it began. */
  lemma {:induction false} LossesBounded(states: seq<Sys>, moves: seq<Move>, t: Tid, pushing: bool, from: nat, n: nat)
    requires |states| == |moves| + 1 && from <= n <= |moves|
    requires forall j {:trigger moves[j]} :: 0 <= j < |moves| ==> Step(states[j], moves[j].t, moves[j].a, states[j + 1])
    requires Exchanging(states[from].c, t, pushing) && (states[from].c.pcs[t].PopLoad? || states[from].c.pcs[t].PushLoad?)
    requires forall j :: from <= j <= n ==> Exchanging(states[j].c, t, pushing)
    ensures LossCount(states, moves, t, from, n) + Bit(Stale(states[n].c, t)) <= HeadChanges(states, moves, t, from, n)
  {
    hide Next, Record, Exchanging;
    if from < n {
      LossesBounded(states, moves, t, pushing, from, n - 1);
      var s, u, a := states[n - 1], moves[n - 1].t, moves[n - 1].a;
      assert Step(s, u, a, states[n]);
      assert Exchanging(s.c, t, pushing) && Exchanging(states[n].c, t, pushing);
      if u == t {
        RereadsHead(s.c, t, a, pushing);
      }
    }
  }

  /** Still in its loop after its own step, the thread has the head as it is, unless it only went on from reading it. */
  lemma RereadsHead(c: Conf, t: Tid, a: Choice, pushing: bool)
    requires Exchanging(c, t, pushing) && Exchanging(Next(c, t, a), t, pushing)
    ensures var c' := Next(c, t, a);
            c'.head == c.head && (Stale(c', t) ==> Stale(c, t) && !LosesHead(c, t))
  {
    hide IdleStep, GetStep, RemoveStep, PushStep, PopStep, InsertStep, VecStep, LookStep, Stale;
    if pushing {
      RereadsInPush(c, t, a);
    } else {
      RereadsInPop(c, t, a);
    }
  }

  lemma RereadsInPush(c: Conf, t: Tid, a: Choice)
    requires t in c.pcs && InPush(c.pcs[t])
    ensures var c' := PushStep(c, t, a, c.pcs[t]);
            InPush(c'.pcs[t]) ==> c'.head == c.head && (Stale(c', t) ==> Stale(c, t) && !LosesHead(c, t))
  {
  }

  lemma RereadsInPop(c: Conf, t: Tid, a: Choice)
    requires t in c.pcs && InPop(c.pcs[t])
    ensures var c' := PopStep(c, t, a, c.pcs[t]);
            InPop(c'.pcs[t]) ==> c'.head == c.head && (Stale(c', t) ==> Stale(c, t) && !LosesHead(c, t))
  {
  }

  /** The thread is in `acquire_guard`'s loop. */
  predicate Acquiring(c: Conf, t: Tid, key: Key) {
    t in c.pcs && (c.pcs[t].GetRefs? || c.pcs[t].GetCas?) && c.pcs[t].key == key
  }

  /** The thread's exchange fails, and not for no reason. */
  predicate Retries(c: Conf, t: Tid) {
    t in c.pcs && c.pcs[t].GetCas? && c.slots[c.pcs[t].key.idx].refs != c.pcs[t].seen
  }

  function RetryCount(states: seq<Sys>, moves: seq<Move>, t: Tid, from: nat, n: nat): nat
    requires n <= |moves| && |states| == |moves| + 1
  {
    if n <= from then 0
    else RetryCount(states, moves, t, from, n - 1) + Bit(moves[n - 1].t == t && Retries(states[n - 1].c, t))
  }

  /** How often the count of slot `i` changed. */
  function ChangeCount(states: seq<Sys>, i: u32, from: nat, n: nat): nat
    requires n < |states|
  {
    if n <= from then 0
    else ChangeCount(states, i, from, n - 1) + Bit(states[n - 1].c.slots[i].refs != states[n].c.slots[i].refs)
  }

  /** `acquire_guard` retries, spurious failures aside, at most as often as the count changed since it began. */
  lemma {:induction false} AcquireRetriesBounded(states: seq<Sys>, moves: seq<Move>, t: Tid, key: Key, from: nat, n: nat)
    requires IsRun(states, moves) && from <= n <= |moves|
    requires t in states[from].c.pcs && states[from].c.pcs[t] == GetRefs(key)
    requires forall j :: from <= j <= n ==> Acquiring(states[j].c, t, key)
    ensures RetryCount(states, moves, t, from, n) + Bit(Retries(states[n].c, t)) <= ChangeCount(states, key.idx, from, n)
  {
    hide Bounded, Next, Record, Init;
    if from < n {
      AcquireRetriesBounded(states, moves, t, key, from, n - 1);
      var s, u, a := states[n - 1], moves[n - 1].t, moves[n - 1].a;
      assert Step(s, u, a, states[n]);
      assert Acquiring(s.c, t, key) && Acquiring(states[n].c, t, key);
      if u == t {
        RereadSees(s.c, t, a);
      }
    }
  }

  /** Still in the loop after its own step, the thread has just read the count as it is. */
  lemma RereadSees(c: Conf, t: Tid, a: Choice)
    requires t in c.pcs && (c.pcs[t].GetRefs? || c.pcs[t].GetCas?)
    requires Acquiring(Next(c, t, a), t, c.pcs[t].key)
    ensures Next(c, t, a).slots == c.slots && !Retries(Next(c, t, a), t)
  {
    hide IdleStep, RemoveStep, PushStep, PopStep, InsertStep, VecStep, LookStep;
  }

  /** A remove issues one exchange: when it fails, the remove answers false. */
  lemma RemoveNeverRetries(states: seq<Sys>, moves: seq<Move>, n: nat, t: Tid, a: Choice)
    requires IsRun(states, moves) && n < |states| && t in states[n].c.pcs && states[n].c.pcs[t].RemCas?
    ensures var key, pc' := states[n].c.pcs[t].key, Next(states[n].c, t, a).pcs[t];
            pc' == RemDec(key) || pc' == Done(Remove(key), Removed(false))
  {
    hide IsRun, Inv, SlotOk, ThreadOk;
    Reachable(states, moves, n);
    var s := states[n];
    At(s, t, 0);
    AcquirerFacts(s.c, s.h, t);
  }

  // --------------------------------------------------------------------------------------------
  // Chunks
  // --------------------------------------------------------------------------------------------

  /** Whenever an index below `len` has no chunk, the thread that pushed that very index is about to
      make it: a reader that spins never waits for another reader. */
  lemma NoCircularWaiting(s: Sys, i: u32)
    requires Inv(s) && i < s.c.len && !Published(s.c, i)
    ensures s.h.logs[i].owner.Some? && s.h.logs[i].owner.value in s.c.pcs
    ensures var u := s.h.logs[i].owner.value; Growing(s.c.pcs[u]) && s.c.pcs[u].idx == i
  {
    hide ThreadOk, GuardOk, ChainOk, ChunksOk, CountOk, LifeOk, Accounted, ChunkOf;
    assert SlotOk(s.c, s.h, i);
  }

  /** Only a lookup of an index below `len` ever spins, and only while that chunk is missing. */
  lemma OnlyLookupsSpin(states: seq<Sys>, moves: seq<Move>, n: nat, t: Tid)
    requires IsRun(states, moves) && n < |states| && t in states[n].c.pcs && states[n].c.pcs[t].LookChunk?
    ensures var c := states[n].c;
            c.pcs[t].key.idx < c.len && (Next(c, t, Tau) == c <==> !Published(c, c.pcs[t].key.idx))
  {
    hide IsRun, Inv, SlotOk, ChunkOf;
    Reachable(states, moves, n);
    var s := states[n];
    At(s, t, 0);
    assert s.c.pcs == s.c.pcs[t := s.c.pcs[t]];
  }

  /** The thread's next access, or the one that ends its exchange, is to slot `i` through `get_unchecked`. */
  predicate Unchecked(pc: PC, i: u32) {
    || ((pc.PopNext? || pc.PopCas?) && pc.prev.idx == i)
    || (InPush(pc) && pc.idx == i)
    || (pc.InsVer? && pc.idx == i)
    || ((pc.InsWrite? || pc.InsRefs? || pc.InsPub?) && pc.key.idx == i)
  }

  /** `get_unchecked` never waits: wherever a thread reads a slot through it, even a popper whose head is stale,
      or through a guard, the slot's chunk exists. */
  lemma UncheckedNeverSpins(states: seq<Sys>, moves: seq<Move>, n: nat, i: u32)
    requires IsRun(states, moves) && n < |states|
    ensures forall t :: t in states[n].c.pcs && Unchecked(states[n].c.pcs[t], i) ==> Published(states[n].c, i)
    ensures forall g :: g in states[n].c.guards && states[n].c.guards[g].key.idx == i ==> Published(states[n].c, i)
  {
    hide IsRun, Inv, SlotOk, ThreadOk, ChunkOf;
    Reachable(states, moves, n);
    var s := states[n];
    forall t | t in s.c.pcs && Unchecked(s.c.pcs[t], i) ensures Published(s.c, i) {
      At(s, t, i);
      PopperPublished(s.c, s.h, t);
      if Keeps(s.c.pcs[t], i) {
        KeeperFacts(s.c, s.h, t, i);
        OwnerPublished(s.c, s.h, i);
      }
    }
    forall g | g in s.c.guards && s.c.guards[g].key.idx == i ensures Published(s.c, i) {
      assert g in Handles(s.c.guards, i);
      GuardPublished(s, i);
    }
  }

  lemma PopperPublished(c: Conf, h: Hist, t: Tid)
    requires t in c.pcs && t in h.wins && ThreadOk(c, h, t)
    ensures c.pcs[t].PopNext? || c.pcs[t].PopCas? ==> Published(c, c.pcs[t].prev.idx)
  {
    hide ChunkOf;
  }

  lemma OwnerPublished(c: Conf, h: Hist, i: u32)
    requires SlotOk(c, h, i) && h.logs[i].owner.Some?
    ensures h.logs[i].owner.value in c.pcs
    ensures Published(c, i) || Growing(c.pcs[h.logs[i].owner.value])
  {
    hide ChunkOf, Accounted, LifeOk;
  }

  lemma GuardPublished(s: Sys, i: u32)
    requires Inv(s) && Handles(s.c.guards, i) != {}
    ensures Published(s.c, i)
  {
    hide ThreadOk, ChainOk, ChunksOk, CountOk, ChunkOf;
    assert SlotOk(s.c, s.h, i);
    var owner := s.h.logs[i].owner;
    if owner.Some? {
      At(s, owner.value, i);
      OwnersUnreferenced(s.c, s.h, owner.value, i);
    }
  }

  lemma OwnersUnreferenced(c: Conf, h: Hist, t: Tid, i: u32)
    requires t in c.pcs && t in h.wins && ThreadOk(c, h, t) && Keeps(c.pcs[t], i)
    ensures Growing(c.pcs[t]) ==> c.slots[i].refs == 0
  {
    hide ChunkOf;
  }

  /** Two steps of a pusher make its chunk exist, if it does not already. */
  lemma PusherPublishes(c: Conf, u: Tid)
    requires u in c.pcs && Growing(c.pcs[u])
    ensures var c1 := Next(c, u, Tau); Published(c1, c.pcs[u].idx) || Published(Next(c1, u, Tau), c.pcs[u].idx)
  {
    hide GetLocation;
    VecStepPublishes(c, u);
  }

  lemma VecStepPublishes(c: Conf, u: Tid)
    requires u in c.pcs && Growing(c.pcs[u])
    ensures var pc := c.pcs[u];
            var c1 := VecStep(c, u, pc);
            && (pc.InsChunkCas? ==> Published(c1, pc.idx))
            && (pc.InsChunk? ==> Published(c1, pc.idx) || (c1.pcs[u].InsChunkCas? && c1.pcs[u].idx == pc.idx))
  {
    hide GetLocation;
  }

  predicate ChunksKept(c: Conf, c': Conf) {
    && (forall k :: k in c.chunks ==> k in c'.chunks && c'.chunks[k] == c.chunks[k])
    && c.freed <= c'.freed
  }

  /** A chunk pointer goes from null to a block once and then never changes. */
  lemma ChunkPointersPermanent(c: Conf, t: Tid, a: Choice)
    requires t in c.pcs
    ensures ChunksKept(c, Next(c, t, a))
  {
    hide IdleStep, GetStep, RemoveStep, PushStep, PopStep, InsertStep, VecStep, LookStep;
    ChunksElsewhere(c, t, a);
    if InVec(c.pcs[t]) {
      ChunksInVec(c, t);
    }
  }

  lemma ChunksInVec(c: Conf, t: Tid)
    requires t in c.pcs && InVec(c.pcs[t])
    ensures ChunksKept(c, VecStep(c, t, c.pcs[t]))
  {
    hide GetLocation;
  }

  predicate SameChunks(c: Conf, c': Conf) {
    c'.chunks == c.chunks && c'.freed == c.freed
  }

  lemma ChunksElsewhere(c: Conf, t: Tid, a: Choice)
    requires t in c.pcs
    ensures c.pcs[t].Idle? ==> SameChunks(c, IdleStep(c, t, a))
    ensures InLook(c.pcs[t]) ==> SameChunks(c, LookStep(c, t, c.pcs[t]))
    ensures InGet(c.pcs[t]) ==> SameChunks(c, GetStep(c, t, a, c.pcs[t]))
    ensures InRemove(c.pcs[t]) ==> SameChunks(c, RemoveStep(c, t, c.pcs[t]))
    ensures InPush(c.pcs[t]) ==> SameChunks(c, PushStep(c, t, a, c.pcs[t]))
    ensures InPop(c.pcs[t]) ==> SameChunks(c, PopStep(c, t, a, c.pcs[t]))
    ensures InInsert(c.pcs[t]) ==> SameChunks(c, InsertStep(c, t, a, c.pcs[t]))
  {
    hide ChunkOf;
  }

  /** The block a losing allocator frees is its own, never published and never freed before. */
  lemma LoserFreesItsOwn(states: seq<Sys>, moves: seq<Move>, n: nat, t: Tid, a: Choice, b: Block)
    requires IsRun(states, moves) && n < |states| && t in states[n].c.pcs
    requires b in Next(states[n].c, t, a).freed && b !in states[n].c.freed
    ensures b.maker == t && b !in Next(states[n].c, t, a).chunks.Values
    ensures var pc := states[n].c.pcs[t]; (pc.InsChunkCas? || pc.ResChunkCas?) && pc.block == b
  {
    hide IsRun, Inv, SlotOk, ThreadOk, Next;
    Reachable(states, moves, n);
    At(states[n], t, 0);
    LoserFrees(states[n].c, states[n].h, t, a, b);
  }

  lemma LoserFrees(c: Conf, h: Hist, t: Tid, a: Choice, b: Block)
    requires t in c.pcs && t in h.wins && ThreadOk(c, h, t)
    requires b in Next(c, t, a).freed && b !in c.freed
    ensures b.maker == t && b !in Next(c, t, a).chunks.Values
    ensures (c.pcs[t].InsChunkCas? || c.pcs[t].ResChunkCas?) && c.pcs[t].block == b
  {
    hide ThreadOk, ChunkOf, IdleStep, GetStep, RemoveStep, PushStep, PopStep, InsertStep, LookStep;
    ChunksElsewhere(c, t, a);
    if c.pcs[t].InsChunkCas? || c.pcs[t].ResChunkCas? {
      BlockFacts(c, h, t);
    }
  }

  /** No published block is ever a freed one, and no two chunks share a block. */
  lemma BlocksSafe(states: seq<Sys>, moves: seq<Move>, n: nat)
    requires IsRun(states, moves) && n < |states|
    ensures states[n].c.chunks.Values !! states[n].c.freed
    ensures forall j, k :: j in states[n].c.chunks && k in states[n].c.chunks && states[n].c.chunks[j] == states[n].c.chunks[k] ==> j == k
  {
    hide IsRun, SlotOk, ThreadOk, GuardOk, ChainOk, CountOk;
    Reachable(states, moves, n);
  }

  /** The thread has allocated the block and neither published nor freed it yet. */
  predicate Holds(pc: PC, block: Block) {
    (pc.InsChunkCas? || pc.ResChunkCas?) && pc.block == block
  }

  /** The block is some chunk, or freed, or still with the thread that allocated it. */
  ghost predicate Placed(c: Conf, block: Block) {
    block in c.chunks.Values || block in c.freed || exists t :: t in c.pcs && Holds(c.pcs[t], block)
  }

  /** In every reachable state every block ever allocated, the serial numbers from 0 on, is accounted for: none leaks. */
  lemma {:induction false} NoBlockLeaks(states: seq<Sys>, moves: seq<Move>, n: nat, k: nat) returns (block: Block)
    requires IsRun(states, moves) && n < |states| && k < states[n].c.serial
    ensures block.serial == k && Placed(states[n].c, block)
    decreases n
  {
    hide Bounded, Next, Record, Placed;
    assert n > 0;
    var c, c', move := states[n - 1].c, states[n].c, moves[n - 1];
    assert Step(states[n - 1], move.t, move.a, states[n]);
    if k < c.serial {
      block := NoBlockLeaks(states, moves, n - 1, k);
      PlacedKept(c, move.t, move.a, block);
    } else {
      block := Block(move.t, k);
      BlockMade(c, move.t, move.a);
      HeldIsPlaced(c', move.t, block);
    }
  }

  lemma HeldIsPlaced(c: Conf, t: Tid, block: Block)
    requires t in c.pcs && Holds(c.pcs[t], block)
    ensures Placed(c, block)
  {
  }

  lemma PlacedKept(c: Conf, t: Tid, a: Choice, block: Block)
    requires t in c.pcs && Placed(c, block)
    ensures Placed(Next(c, t, a), block)
  {
    hide Next;
    ChunkPointersPermanent(c, t, a);
    if u :| u in c.pcs && Holds(c.pcs[u], block) {
      if u == t {
        HeldBlock(c, t, a, block);
      } else {
        assert Holds(Next(c, t, a).pcs[u], block);
      }
    } else if k :| k in c.chunks && c.chunks[k] == block {
      assert Next(c, t, a).chunks[k] == block;
    }
  }

  lemma HeldBlock(c: Conf, t: Tid, a: Choice, block: Block)
    requires t in c.pcs && Holds(c.pcs[t], block)
    ensures block in Next(c, t, a).chunks.Values || block in Next(c, t, a).freed
  {
    hide IdleStep, GetStep, RemoveStep, PushStep, PopStep, InsertStep, LookStep, ChunkOf, Publish;
    BlockGoes(c, if c.pcs[t].InsChunkCas? then ChunkOf(c.pcs[t].idx) else c.pcs[t].chunk, block);
  }

  lemma BlockGoes(c: Conf, chunk: nat, block: Block)
    ensures block in Publish(c, chunk, block).chunks.Values || block in Publish(c, chunk, block).freed
  {
    assert chunk !in c.chunks ==> Publish(c, chunk, block).chunks[chunk] == block;
  }

  /** The chunk the thread is about to look for, to make it if it is missing. */
  function Wanted(pc: PC): nat
    requires pc.InsChunk? || pc.ResChunk?
  {
    if pc.InsChunk? then ChunkOf(pc.idx) else pc.chunk
  }

  /** A step allocates a block exactly if it finds that the chunk it wants is missing, and then it has that block. */
  lemma BlockMade(c: Conf, t: Tid, a: Choice)
    requires t in c.pcs
    ensures var pc, c' := c.pcs[t], Next(c, t, a);
            if (pc.InsChunk? || pc.ResChunk?) && Wanted(pc) !in c.chunks
            then c'.serial == c.serial + 1 && Holds(c'.pcs[t], Block(t, c.serial))
            else c'.serial == c.serial
  {
    hide IdleStep, GetStep, RemoveStep, PushStep, PopStep, InsertStep, VecStep, LookStep, ChunkOf;
    NoBlockElsewhere(c, t, a);
    if InVec(c.pcs[t]) {
      BlockMadeInVec(c, t);
    }
  }

  lemma BlockMadeInVec(c: Conf, t: Tid)
    requires t in c.pcs && InVec(c.pcs[t])
    ensures var pc, c' := c.pcs[t], VecStep(c, t, c.pcs[t]);
            if (pc.InsChunk? || pc.ResChunk?) && Wanted(pc) !in c.chunks
            then c'.serial == c.serial + 1 && Holds(c'.pcs[t], Block(t, c.serial))
            else c'.serial == c.serial
  {
    hide ChunkOf;
  }

  lemma NoBlockElsewhere(c: Conf, t: Tid, a: Choice)
    requires t in c.pcs
    ensures c.pcs[t].Idle? ==> IdleStep(c, t, a).serial == c.serial
    ensures InLook(c.pcs[t]) ==> LookStep(c, t, c.pcs[t]).serial == c.serial
    ensures InGet(c.pcs[t]) ==> GetStep(c, t, a, c.pcs[t]).serial == c.serial
    ensures InRemove(c.pcs[t]) ==> RemoveStep(c, t, c.pcs[t]).serial == c.serial
    ensures InPush(c.pcs[t]) ==> PushStep(c, t, a, c.pcs[t]).serial == c.serial
    ensures InPop(c.pcs[t]) ==> PopStep(c, t, a, c.pcs[t]).serial == c.serial
    ensures InInsert(c.pcs[t]) ==> InsertStep(c, t, a, c.pcs[t]).serial == c.serial
  {
    hide ChunkOf;
  }

  /**
   * `capacity` counts chunks up to the first missing one because chunks are said to be made in
   * order. They are while nobody is pushing; a missing chunk below an existing one always has a
   * pusher on its way to it.
   */
  lemma ChunksInOrder(s: Sys, j: nat, k: nat)
    requires Inv(s) && k in s.c.chunks && j < k && j < CHUNKS && j !in s.c.chunks
    ensures STARTS[j] < WORD && s.h.logs[STARTS[j]].owner.Some?
    ensures var u := s.h.logs[STARTS[j]].owner.value;
            u in s.c.pcs && Growing(s.c.pcs[u]) && s.c.pcs[u].idx == STARTS[j]
  {
    hide SlotOk, ThreadOk, GuardOk, ChainOk, CountOk, ChunkOf;
    assert STARTS[j] < s.c.len;
    StartOfChunk(j);
    NoCircularWaiting(s, STARTS[j]);
  }

  lemma StartOfChunk(j: nat)
    requires j < CHUNKS && STARTS[j] < WORD
    ensures ChunkOf(STARTS[j]) == j
  {
    LocationSurjective(j, 0);
  }
}
