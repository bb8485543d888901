/**
 * `LossyIter` among other threads. Iterators are walked on top of the step system: between its accesses to
 * shared memory a walking thread is idle there, its own loads leave the system as it is, and the `get` it makes
 * is an ordinary call.
 */
module Walks {
  import opened Machine
  import opened Location
  import opened Protocol
  import opened Invariant
  import opened Touching
  import opened Linearizability
  import opened Keys

  type Iid = nat

  /** Where a thread stands in `next`; named after the next access. */
  datatype Walk =
    | Away
    | AtLen(i: Iid)
    | AtGetLen(i: Iid, idx: u32)
    | AtChunk(i: Iid, idx: u32)
    | AtVer(i: Iid, idx: u32)
    | AtCall(i: Iid, key: Key)
    | AtGet(i: Iid, key: Key)

  /** An iterator: its index, the keys it yielded so far, and the keys at which a `next` of it panicked. */
  datatype Iter = Iter(pos: u32, shown: seq<Key>, lost: set<Key>)

  datatype World = World(s: Sys, walks: map<Tid, Walk>, iters: map<Iid, Iter>)

  /** What a thread does: a step of the system, a new iterator, a call of `next`, or a step of that call. */
  datatype Act = Plain(a: Choice) | Open(i: Iid) | Enter(i: Iid)

  predicate On(walk: Walk, i: Iid) {
    !walk.Away? && walk.i == i
  }

  /** `next` borrows the iterator, so one thread at a time is in it. */
  ghost predicate Enabled(w: World, t: Tid, act: Act) {
    && t in w.s.c.pcs && t in w.s.h.wins && t in w.walks
    && match w.walks[t]
       case Away =>
         (match act
          case Plain(_) => true
          case Open(i) => w.s.c.pcs[t].Idle? && i !in w.iters
          case Enter(i) => w.s.c.pcs[t].Idle? && i in w.iters && forall u :: u in w.walks ==> !On(w.walks[u], i))
       case AtGet(i, _) => act.Plain? && i in w.iters
       case _ => act == Plain(Tau) && w.walks[t].i in w.iters
  }

  /** What the step is in the system: a thread that only loads does nothing there. */
  function Underneath(walk: Walk, act: Act): Choice {
    match walk
    case Away => if act.Plain? then act.a else Tau
    case AtCall(_, key) => Call(Get(key))
    case AtGet(_, _) => if act.Plain? then act.a else Tau
    case _ => Tau
  }

  /** The walk goes on to `walk`. */
  function Onward(w: World, t: Tid, walk: Walk): World {
    w.(walks := w.walks[t := walk])
  }

  /** `next`, on what thread `t` just read. */
  function Proceed(w: World, t: Tid, act: Act): World
    requires t in w.s.c.pcs && t in w.walks && (!w.walks[t].Away? ==> w.walks[t].i in w.iters)
  {
    var c := w.s.c;
    match w.walks[t]
    case Away =>
      (match act
       case Plain(_) => w
       case Open(i) => w.(iters := w.iters[i := Iter(0, [], {})])
       case Enter(i) => Onward(w, t, AtLen(i)))
    case AtLen(i) =>
      var it := w.iters[i];
      if it.pos >= c.len then Onward(w, t, Away)
      else Onward(w.(iters := w.iters[i := it.(pos := it.pos + 1)]), t, AtGetLen(i, it.pos))
    case AtGetLen(i, idx) => Onward(w, t, if idx >= c.len then AtLen(i) else AtChunk(i, idx))
    case AtChunk(i, idx) => if ChunkOf(idx) in c.chunks then Onward(w, t, AtVer(i, idx)) else w
    case AtVer(i, idx) =>
      var ver := c.slots[idx].ver;
      Onward(w, t, if Odd(ver) then AtCall(i, RawKey(idx, ver)) else AtLen(i))
    case AtCall(i, key) => Onward(w, t, AtGet(i, key))
    case AtGet(i, key) =>
      if c.pcs[t].Done? then
        var it := w.iters[i];
        (match c.pcs[t].res
         case Found(_, _) => Onward(w.(iters := w.iters[i := it.(shown := it.shown + [key])]), t, Away)
         case Panicked(_) => Onward(w.(iters := w.iters[i := it.(lost := it.lost + {key})]), t, Away)
         case _ => Onward(w, t, AtLen(i)))
      else w
  }

  ghost predicate WStep(w: World, t: Tid, act: Act, w': World) {
    && Enabled(w, t, act)
    && Step(w.s, t, Underneath(w.walks[t], act), w'.s)
    && w' == Proceed(w, t, act).(s := w'.s)
  }

  ghost predicate WInit(w: World) {
    Init(w.s) && w.walks.Keys == w.s.c.pcs.Keys && (forall t :: t in w.walks ==> w.walks[t] == Away) && w.iters == map[]
  }

  datatype WMove = WMove(t: Tid, act: Act)

  ghost predicate IsWalk(worlds: seq<World>, moves: seq<WMove>) {
    && |worlds| == |moves| + 1
    && WInit(worlds[0])
    && (forall n :: 0 <= n < |worlds| ==> Bounded(worlds[n].s))
    && (forall n {:trigger moves[n]} :: 0 <= n < |moves| ==> WStep(worlds[n], moves[n].t, moves[n].act, worlds[n + 1]))
  }

  // --------------------------------------------------------------------------------------------
  // The run underneath
  // --------------------------------------------------------------------------------------------

  function Systems(worlds: seq<World>): seq<Sys> {
    seq(|worlds|, (n: nat) requires n < |worlds| => worlds[n].s)
  }

  function Beneath(w: World, move: WMove): Move {
    Move(move.t, if move.t in w.walks then Underneath(w.walks[move.t], move.act) else Tau)
  }

  function Moves(worlds: seq<World>, moves: seq<WMove>): seq<Move>
    requires |worlds| == |moves| + 1
  {
    seq(|moves|, (n: nat) requires n < |moves| => Beneath(worlds[n], moves[n]))
  }

  /** A run with iterators is a run of the step system. */
  lemma Projects(worlds: seq<World>, moves: seq<WMove>)
    requires IsWalk(worlds, moves)
    ensures |worlds| == |moves| + 1 && IsRun(Systems(worlds), Moves(worlds, moves))
  {
    hide Bounded, Init, Step, Proceed, Underneath;
    var states, below := Systems(worlds), Moves(worlds, moves);
    forall n | 0 <= n < |below| ensures Step(states[n], below[n].t, below[n].a, states[n + 1]) {
      assert WStep(worlds[n], moves[n].t, moves[n].act, worlds[n + 1]);
    }
  }

  lemma WorldReachable(worlds: seq<World>, moves: seq<WMove>, n: nat)
    requires IsWalk(worlds, moves) && n < |worlds|
    ensures Inv(worlds[n].s)
  {
    hide IsWalk, IsRun, Inv;
    Projects(worlds, moves);
    Reachable(Systems(worlds), Moves(worlds, moves), n);
  }

  // --------------------------------------------------------------------------------------------
  // What iterators keep
  // --------------------------------------------------------------------------------------------

  /** The yielded indices strictly increase, and are below `upTo`. */
  ghost predicate Ascending(shown: seq<Key>, upTo: nat) {
    && (forall j, k :: 0 <= j < k < |shown| ==> shown[j].idx < shown[k].idx)
    && (forall j :: 0 <= j < |shown| ==> shown[j].idx < upTo)
  }

  /** What the iterator yielded, and what it panicked at, is below `upTo`. */
  ghost predicate Passed(it: Iter, upTo: nat) {
    Ascending(it.shown, upTo) && forall key :: key in it.lost ==> key.idx < upTo && key !in it.shown
  }

  /** The index thread `t` is looking at was just taken from its iterator, and nothing was yielded from it on. */
  ghost predicate Fresh(it: Iter, idx: u32) {
    it.pos == idx + 1 && Passed(it, idx)
  }

  ghost predicate WalkOk(w: World, t: Tid)
    requires t in w.walks && t in w.s.c.pcs
  {
    var pc := w.s.c.pcs[t];
    match w.walks[t]
    case Away => true
    case AtLen(i) => i in w.iters && pc.Idle?
    case AtGetLen(i, idx) => i in w.iters && pc.Idle? && Fresh(w.iters[i], idx)
    case AtChunk(i, idx) => i in w.iters && pc.Idle? && Fresh(w.iters[i], idx)
    case AtVer(i, idx) => i in w.iters && pc.Idle? && Fresh(w.iters[i], idx)
    case AtCall(i, key) => i in w.iters && pc.Idle? && Fresh(w.iters[i], key.idx)
    case AtGet(i, key) =>
      i in w.iters && Fresh(w.iters[i], key.idx) && Getting(PhaseOf(pc), key)
  }

  /** The thread is in a `get` of the key, called or decided. */
  predicate Getting(p: Phase, key: Key) {
    && (p.Called? || p.Decided?) && p.op == Get(key)
    && (p.Decided? ==> p.res.Found? || p.res.NotFound? || p.res.Panicked?)
  }

  ghost predicate WInv(w: World) {
    && w.walks.Keys == w.s.c.pcs.Keys
    && (forall t :: t in w.walks ==> WalkOk(w, t))
    && (forall t, u, i :: t in w.walks && u in w.walks && On(w.walks[t], i) && On(w.walks[u], i) ==> t == u)
    && (forall i :: i in w.iters ==> Passed(w.iters[i], w.iters[i].pos))
  }

  /** The thread's part of the system, as its own steps and others' leave it. */
  lemma PcsMove(w: World, t: Tid, act: Act, w': World)
    requires WStep(w, t, act, w')
    ensures t in w.s.c.pcs && t in w.walks && t in w'.s.c.pcs && w'.s.c.pcs == w.s.c.pcs[t := w'.s.c.pcs[t]]
    ensures InOrder(w.s.c.pcs[t], Underneath(w.walks[t], act), w'.s.c.pcs[t])
    ensures w.s.c.pcs[t].Idle? && Underneath(w.walks[t], act) == Tau ==> w'.s.c == w.s.c
    ensures w.s.c.pcs[t].Done? ==> w'.s.c.pcs[t] == Idle
  {
    hide Proceed, Record, InOrder;
    PhasesInOrder(w.s.c, t, Underneath(w.walks[t], act));
    assert w.s.c.pcs == w.s.c.pcs[t := w.s.c.pcs[t]];
  }

  /** Only the iterator thread `t` is on, or a new one, moves. */
  lemma ItersMove(w: World, t: Tid, act: Act, w': World)
    requires WStep(w, t, act, w')
    ensures t in w.walks && w'.walks == w.walks[t := w'.walks[t]]
    ensures forall i :: i in w.iters ==> i in w'.iters && (On(w.walks[t], i) || w'.iters[i] == w.iters[i])
    ensures forall i :: i in w'.iters && i !in w.iters ==> w'.iters[i] == Iter(0, [], {})
    ensures forall i :: On(w'.walks[t], i) ==> On(w.walks[t], i) || (w.walks[t].Away? && forall u :: u in w.walks ==> !On(w.walks[u], i))
  {
    hide Step, Underneath, ChunkOf;
    assert w.walks == w.walks[t := w.walks[t]];
  }

  /** In the middle of its `get` a walking thread stays in it until it returns. */
  lemma GetMovesOn(w: World, t: Tid, act: Act, w': World, key: Key)
    requires Inv(w.s) && WStep(w, t, act, w') && w.walks[t].AtGet? && !w.s.c.pcs[t].Done?
    requires Getting(PhaseOf(w.s.c.pcs[t]), key)
    ensures t in w'.s.c.pcs && Getting(PhaseOf(w'.s.c.pcs[t]), key)
  {
    hide Inv, Proceed, Next, Record, PhaseOf, Contents;
    PcsMove(w, t, act, w');
    StepSimulates(w.s, t, Underneath(w.walks[t], act), w'.s);
  }

  lemma OwnLoad(w: World, t: Tid, act: Act, w': World)
    requires WInv(w) && WStep(w, t, act, w') && !w.walks[t].AtGet?
    requires t in w.s.c.pcs && t in w'.s.c.pcs && InOrder(w.s.c.pcs[t], Underneath(w.walks[t], act), w'.s.c.pcs[t])
    requires w.s.c.pcs[t].Idle? && Underneath(w.walks[t], act) == Tau ==> w'.s.c.pcs[t].Idle?
    ensures t in w'.walks && WalkOk(w', t)
    ensures forall i :: i in w.iters && On(w.walks[t], i) ==> i in w'.iters && Passed(w'.iters[i], w'.iters[i].pos)
  {
    hide Step, ChunkOf, PhaseOf;
    assert WalkOk(w, t);
  }

  lemma OwnGet(w: World, t: Tid, act: Act, w': World)
    requires WInv(w) && Inv(w.s) && WStep(w, t, act, w') && w.walks[t].AtGet?
    ensures t in w'.walks && t in w'.s.c.pcs && WalkOk(w', t)
    ensures forall i :: i in w.iters && On(w.walks[t], i) ==> i in w'.iters && Passed(w'.iters[i], w'.iters[i].pos)
  {
    hide Inv, WStep, PhaseOf, InOrder, Getting, Passed;
    PcsMove(w, t, act, w');
    assert WalkOk(w, t);
    if w.s.c.pcs[t].Done? {
      GetEnds(w, t, act, w');
    } else {
      GetMovesOn(w, t, act, w', w.walks[t].key);
      GetGoesOn(w, t, act, w');
    }
  }

  lemma GetGoesOn(w: World, t: Tid, act: Act, w': World)
    requires WStep(w, t, act, w') && w.walks[t].AtGet? && !w.s.c.pcs[t].Done?
    ensures w'.walks == w.walks && w'.iters == w.iters
  {
    hide Step;
  }

  /** What a `get` inside `next` answered is noted. */
  lemma GetEnds(w: World, t: Tid, act: Act, w': World)
    requires WStep(w, t, act, w') && w.walks[t].AtGet? && w.s.c.pcs[t].Done? && WalkOk(w, t)
    requires t in w'.s.c.pcs && w'.s.c.pcs[t] == Idle
    ensures t in w'.walks && WalkOk(w', t)
    ensures var i := w.walks[t].i; i in w'.iters && Passed(w'.iters[i], w'.iters[i].pos)
  {
    hide Step, Underneath, Getting, PhaseOf;
  }

  lemma OwnWalk(w: World, t: Tid, act: Act, w': World)
    requires WInv(w) && Inv(w.s) && WStep(w, t, act, w')
    ensures t in w'.walks && t in w'.s.c.pcs && WalkOk(w', t)
    ensures forall i :: i in w.iters && On(w.walks[t], i) ==> i in w'.iters && Passed(w'.iters[i], w'.iters[i].pos)
  {
    hide Inv, WInv, WStep, WalkOk, Underneath;
    PcsMove(w, t, act, w');
    if w.walks[t].AtGet? {
      OwnGet(w, t, act, w');
    } else {
      OwnLoad(w, t, act, w');
    }
  }

  /** Every step, of any thread, keeps what holds of all iterators. */
  lemma WInvKept(w: World, t: Tid, act: Act, w': World)
    requires WInv(w) && Inv(w.s) && WStep(w, t, act, w')
    ensures WInv(w')
  {
    hide Inv, WStep, PhaseOf, Passed;
    PcsMove(w, t, act, w');
    ItersMove(w, t, act, w');
    OwnWalk(w, t, act, w');
    forall u | u in w'.walks && u != t ensures WalkOk(w', u) {
      assert WalkOk(w, u);
      if !w.walks[u].Away? {
        assert On(w.walks[u], w.walks[u].i);
        assert !On(w.walks[t], w.walks[u].i);
      }
    }
    forall i | i in w'.iters ensures Passed(w'.iters[i], w'.iters[i].pos) {
      NoneShown();
    }
  }

  lemma NoneShown()
    ensures Passed(Iter(0, [], {}), 0)
  {
  }

  lemma WInitOk(w: World)
    requires WInit(w)
    ensures WInv(w)
  {
    hide Init;
  }

  lemma {:induction false} WorldOk(worlds: seq<World>, moves: seq<WMove>, n: nat)
    requires IsWalk(worlds, moves) && n < |worlds|
    ensures WInv(worlds[n])
  {
    hide Inv, WStep, Bounded, WInv, WInit;
    if n == 0 {
      WInitOk(worlds[0]);
    } else {
      WorldOk(worlds, moves, n - 1);
      WorldReachable(worlds, moves, n - 1);
      assert WStep(worlds[n - 1], moves[n - 1].t, moves[n - 1].act, worlds[n]);
      WInvKept(worlds[n - 1], moves[n - 1].t, moves[n - 1].act, worlds[n]);
    }
  }

  // --------------------------------------------------------------------------------------------
  // Each index at most once, in ascending order
  // --------------------------------------------------------------------------------------------

  /** In every run, what an iterator yielded so far strictly ascends, whatever the other threads did. */
  lemma YieldsAscend(worlds: seq<World>, moves: seq<WMove>, n: nat, i: Iid)
    requires IsWalk(worlds, moves) && n < |worlds| && i in worlds[n].iters
    ensures Ascending(worlds[n].iters[i].shown, worlds[n].iters[i].pos)
    ensures forall key :: key in worlds[n].iters[i].lost ==> key.idx < worlds[n].iters[i].pos && key !in worlds[n].iters[i].shown
  {
    hide IsWalk, WalkOk, Ascending;
    WorldOk(worlds, moves, n);
  }

  /** What was yielded stays yielded: later keys are appended. */
  lemma {:induction false} YieldsKept(worlds: seq<World>, moves: seq<WMove>, n: nat, m: nat, i: Iid)
    requires IsWalk(worlds, moves) && n <= m < |worlds| && i in worlds[n].iters
    ensures i in worlds[m].iters && worlds[n].iters[i].shown <= worlds[m].iters[i].shown
    ensures worlds[n].iters[i].lost <= worlds[m].iters[i].lost
    decreases m - n
  {
    hide WStep, Bounded, WInit;
    if n < m {
      YieldsKept(worlds, moves, n, m - 1, i);
      assert WStep(worlds[m - 1], moves[m - 1].t, moves[m - 1].act, worlds[m]);
      YieldStep(worlds[m - 1], moves[m - 1].t, moves[m - 1].act, worlds[m], i);
    }
  }

  lemma YieldStep(w: World, t: Tid, act: Act, w': World, i: Iid)
    requires WStep(w, t, act, w') && i in w.iters
    ensures i in w'.iters && w.iters[i].shown <= w'.iters[i].shown && w.iters[i].lost <= w'.iters[i].lost
  {
    hide Step, Underneath, ChunkOf;
  }

  // --------------------------------------------------------------------------------------------
  // What is yielded was live during the call
  // --------------------------------------------------------------------------------------------

  /** The `get` of thread `t` found its key. */
  predicate FoundIn(w: World, t: Tid, key: Key, value: Value) {
    && t in w.walks && t in w.s.c.pcs && w.walks[t].AtGet? && w.walks[t].key == key
    && PhaseOf(w.s.c.pcs[t]).Decided? && PhaseOf(w.s.c.pcs[t]).res.Found? && PhaseOf(w.s.c.pcs[t]).res.value == value
  }

  ghost predicate LiveAt(w: World, key: Key, value: Value) {
    key in Contents(w.s.c.slots) && Contents(w.s.c.slots)[key] == value
  }

  /** A thread is in its `get` by having called it, for the same key. */
  lemma GetReached(w: World, t: Tid, act: Act, w': World)
    requires WStep(w, t, act, w') && t in w'.walks && w'.walks[t].AtGet?
    ensures w.walks[t] == w'.walks[t] || w.walks[t] == AtCall(w'.walks[t].i, w'.walks[t].key)
  {
    hide Step, Underneath, ChunkOf;
  }

  lemma FoundWhenLive(w: World, u: Tid, act: Act, w': World, t: Tid, key: Key, value: Value)
    requires WInv(w) && Inv(w.s) && WStep(w, u, act, w') && FoundIn(w', t, key, value)
    ensures t in w.walks && !w.walks[t].Away?
    ensures FoundIn(w, t, key, value) || LiveAt(w, key, value)
  {
    hide Inv, WInv, WStep, LiveAt, PhaseOf, InOrder;
    PcsMove(w, u, act, w');
    ItersMove(w, u, act, w');
    if u == t {
      GetReached(w, t, act, w');
      if w.walks[t].AtCall? {
        CallNotDecided(w, t, act, w');
      } else {
        OwnFind(w, t, act, w', key, value);
      }
    }
  }

  lemma OwnFind(w: World, t: Tid, act: Act, w': World, key: Key, value: Value)
    requires WInv(w) && Inv(w.s) && WStep(w, t, act, w') && FoundIn(w', t, key, value)
    requires t in w.walks && w.walks[t].AtGet? && w.walks[t].key == key
    ensures FoundIn(w, t, key, value) || LiveAt(w, key, value)
  {
    hide Inv, Contents, PhaseOf, Next, Record, Proceed;
    assert WalkOk(w, t);
    StepSimulates(w.s, t, Underneath(w.walks[t], act), w'.s);
  }

  lemma CallNotDecided(w: World, t: Tid, act: Act, w': World)
    requires WInv(w) && WStep(w, t, act, w') && w.walks[t].AtCall?
    ensures t in w'.s.c.pcs && !PhaseOf(w'.s.c.pcs[t]).Decided?
  {
    hide Step, PhaseOf, Proceed;
    assert WalkOk(w, t);
    PcsMove(w, t, act, w');
  }

  lemma {:induction false} FoundWasLive(
    worlds: seq<World>, moves: seq<WMove>, start: nat, n: nat, t: Tid, key: Key, value: Value) returns (k: nat)
    requires IsWalk(worlds, moves) && start <= n < |worlds|
    requires t in worlds[start].walks && worlds[start].walks[t].Away? && FoundIn(worlds[n], t, key, value)
    ensures start < k < n && LiveAt(worlds[k], key, value)
    decreases n
  {
    hide Inv, WInv, WStep, Bounded, WInit, LiveAt, PhaseOf;
    assert start < n;
    WorldOk(worlds, moves, n - 1);
    WorldReachable(worlds, moves, n - 1);
    assert WStep(worlds[n - 1], moves[n - 1].t, moves[n - 1].act, worlds[n]);
    FoundWhenLive(worlds[n - 1], moves[n - 1].t, moves[n - 1].act, worlds[n], t, key, value);
    if FoundIn(worlds[n - 1], t, key, value) {
      k := FoundWasLive(worlds, moves, start, n - 1, t, key, value);
    } else {
      k := n - 1;
    }
  }

  /** The step in which `next` yields a key. */
  predicate Yielding(w: World, t: Tid, i: Iid, key: Key) {
    && t in w.walks && t in w.s.c.pcs && w.walks[t] == AtGet(i, key)
    && w.s.c.pcs[t].Done? && w.s.c.pcs[t].res.Found?
  }

  /**
   * A key that `next` yields was in the map, with the value its guard shows, at some moment after the thread
   * entered that call and before it left.
   */
  lemma YieldedWasLive(worlds: seq<World>, moves: seq<WMove>, start: nat, n: nat, i: Iid, key: Key) returns (k: nat)
    requires IsWalk(worlds, moves) && start < n < |moves| && moves[start].t == moves[n].t
    requires moves[start].t in worlds[start].walks && worlds[start].walks[moves[start].t].Away?
    requires Yielding(worlds[n], moves[n].t, i, key)
    ensures start < k < n && LiveAt(worlds[k], key, worlds[n].s.c.pcs[moves[n].t].res.value)
    ensures i in worlds[n].iters && i in worlds[n + 1].iters
    ensures worlds[n + 1].iters[i].shown == worlds[n].iters[i].shown + [key]
  {
    hide Bounded, WInit, Step, LiveAt;
    var t := moves[n].t;
    assert WStep(worlds[n], t, moves[n].act, worlds[n + 1]);
    k := FoundWasLive(worlds, moves, start, n, t, key, worlds[n].s.c.pcs[t].res.value);
  }

  // --------------------------------------------------------------------------------------------
  // Where it panics, there were too many references during the call
  // --------------------------------------------------------------------------------------------

  /** The step in which `next` panics. */
  predicate Panicking(w: World, t: Tid, i: Iid, key: Key) {
    && t in w.walks && t in w.s.c.pcs && w.walks[t] == AtGet(i, key)
    && w.s.c.pcs[t].Done? && w.s.c.pcs[t].res.Panicked?
  }

  /** A `get` answers that it panicked only at a count above the limit. */
  lemma PanicReads(c: Conf, t: Tid, a: Choice, key: Key)
    requires t in c.pcs && PhaseOf(c.pcs[t]) == Called(Get(key))
    ensures var p' := PhaseOf(Next(c, t, a).pcs[t]);
            p'.Decided? && p'.res.Panicked? ==> p'.res.refs == c.slots[key.idx].refs > MAX_REFCOUNT
  {
    hide IdleStep, GetStep, RemoveStep, PushStep, PopStep, InsertStep, VecStep, LookStep, PhaseOf;
    GettingAt(c.pcs[t], key);
    if InGet(c.pcs[t]) {
      PanicInGet(c, t, a);
    } else {
      NoPanicInLook(c, t);
    }
  }

  lemma GettingAt(pc: PC, key: Key)
    requires PhaseOf(pc) == Called(Get(key))
    ensures (InGet(pc) && pc.key == key) || (InLook(pc) && !pc.ConVer?)
  {
  }

  lemma PanicInGet(c: Conf, t: Tid, a: Choice)
    requires t in c.pcs && InGet(c.pcs[t])
    ensures var p' := PhaseOf(GetStep(c, t, a, c.pcs[t]).pcs[t]);
            p'.Decided? && p'.res.Panicked? ==> p'.res.refs == c.slots[c.pcs[t].key.idx].refs > MAX_REFCOUNT
  {
  }

  lemma NoPanicInLook(c: Conf, t: Tid)
    requires t in c.pcs && InLook(c.pcs[t])
    ensures var p' := PhaseOf(LookStep(c, t, c.pcs[t]).pcs[t]); p'.Decided? ==> !p'.res.Panicked?
  {
    hide ChunkOf;
  }

  /** The `get` of thread `t` panicked at so many references. */
  predicate PanickedIn(w: World, t: Tid, key: Key, refs: u32) {
    && t in w.walks && t in w.s.c.pcs && w.walks[t].AtGet? && w.walks[t].key == key
    && PhaseOf(w.s.c.pcs[t]).Decided? && PhaseOf(w.s.c.pcs[t]).res == Panicked(refs)
  }

  lemma PanickedWhenRead(w: World, u: Tid, act: Act, w': World, t: Tid, key: Key, refs: u32)
    requires WInv(w) && Inv(w.s) && WStep(w, u, act, w') && PanickedIn(w', t, key, refs)
    ensures t in w.walks && !w.walks[t].Away?
    ensures PanickedIn(w, t, key, refs) || refs == w.s.c.slots[key.idx].refs > MAX_REFCOUNT
  {
    hide Inv, WInv, WStep, PhaseOf, InOrder;
    PcsMove(w, u, act, w');
    ItersMove(w, u, act, w');
    if u == t {
      GetReached(w, t, act, w');
      if w.walks[t].AtCall? {
        CallNotDecided(w, t, act, w');
      } else {
        OwnPanic(w, t, act, w', key, refs);
      }
    }
  }

  lemma OwnPanic(w: World, t: Tid, act: Act, w': World, key: Key, refs: u32)
    requires WInv(w) && Inv(w.s) && WStep(w, t, act, w') && PanickedIn(w', t, key, refs)
    requires t in w.walks && w.walks[t].AtGet? && w.walks[t].key == key
    ensures PanickedIn(w, t, key, refs) || refs == w.s.c.slots[key.idx].refs > MAX_REFCOUNT
  {
    hide Inv, Contents, PhaseOf, Next, Record, Proceed, Allowed;
    assert WalkOk(w, t);
    StepSimulates(w.s, t, Underneath(w.walks[t], act), w'.s);
    if PhaseOf(w.s.c.pcs[t]) == Called(Get(key)) {
      PanicReads(w.s.c, t, Underneath(w.walks[t], act), key);
    }
  }

  lemma {:induction false} PanickedWasCrowded(
    worlds: seq<World>, moves: seq<WMove>, start: nat, n: nat, t: Tid, key: Key, refs: u32) returns (k: nat)
    requires IsWalk(worlds, moves) && start <= n < |worlds|
    requires t in worlds[start].walks && worlds[start].walks[t].Away? && PanickedIn(worlds[n], t, key, refs)
    ensures start < k < n && worlds[k].s.c.slots[key.idx].refs == refs > MAX_REFCOUNT
    decreases n
  {
    hide Inv, WInv, WStep, Bounded, WInit, PhaseOf;
    assert start < n;
    WorldOk(worlds, moves, n - 1);
    WorldReachable(worlds, moves, n - 1);
    assert WStep(worlds[n - 1], moves[n - 1].t, moves[n - 1].act, worlds[n]);
    PanickedWhenRead(worlds[n - 1], moves[n - 1].t, moves[n - 1].act, worlds[n], t, key, refs);
    if PanickedIn(worlds[n - 1], t, key, refs) {
      k := PanickedWasCrowded(worlds, moves, start, n - 1, t, key, refs);
    } else {
      k := n - 1;
    }
  }

  /** A `next` that panics at a key read, at some moment after the thread entered that call and before it left, a count
      of that slot above the limit. */
  lemma PanicsWhenCrowded(worlds: seq<World>, moves: seq<WMove>, start: nat, n: nat, i: Iid, key: Key) returns (k: nat)
    requires IsWalk(worlds, moves) && start < n < |moves| && moves[start].t == moves[n].t
    requires moves[start].t in worlds[start].walks && worlds[start].walks[moves[start].t].Away?
    requires Panicking(worlds[n], moves[n].t, i, key)
    ensures start < k < n && worlds[k].s.c.slots[key.idx].refs == worlds[n].s.c.pcs[moves[n].t].res.refs > MAX_REFCOUNT
  {
    hide Bounded, WInit, WStep;
    k := PanickedWasCrowded(worlds, moves, start, n, moves[n].t, key, worlds[n].s.c.pcs[moves[n].t].res.refs);
  }

  // --------------------------------------------------------------------------------------------
  // The end of an iteration
  // --------------------------------------------------------------------------------------------

  lemma LenStep(s: Sys, t: Tid, a: Choice, s': Sys)
    requires Inv(s) && Inv(s') && Step(s, t, a, s')
    ensures s.c.len <= s'.c.len
  {
    hide SlotOk, ThreadOk, GuardOk, ChainOk, ChunksOk, CountOk, Next;
  }

  lemma {:induction false} LenGrows(worlds: seq<World>, moves: seq<WMove>, n: nat, m: nat)
    requires IsWalk(worlds, moves) && n <= m < |worlds|
    ensures worlds[n].s.c.len <= worlds[m].s.c.len
    decreases m - n
  {
    hide Inv, Bounded, WInit, Step, Proceed;
    if n < m {
      LenGrows(worlds, moves, n, m - 1);
      WorldReachable(worlds, moves, m - 1);
      WorldReachable(worlds, moves, m);
      assert WStep(worlds[m - 1], moves[m - 1].t, moves[m - 1].act, worlds[m]);
      LenStep(worlds[m - 1].s, moves[m - 1].t, Underneath(worlds[m - 1].walks[moves[m - 1].t], moves[m - 1].act), worlds[m].s);
    }
  }

  /** The step in which `next` reads a length at or below its index. */
  predicate Exhausted(w: World, t: Tid, i: Iid) {
    t in w.walks && i in w.iters && w.walks[t] == AtLen(i) && w.s.c.len <= w.iters[i].pos
  }

  /**
   * How `next` ends: in every run, a thread leaves its call exactly by yielding one key, by panicking at one, or by
   * reading a length at or below its index; the iterator changes by just that. From anywhere else it goes on.
   */
  lemma HowNextEnds(worlds: seq<World>, moves: seq<WMove>, n: nat, i: Iid)
    requires IsWalk(worlds, moves) && n < |moves|
    requires moves[n].t in worlds[n].walks && On(worlds[n].walks[moves[n].t], i)
    ensures i in worlds[n].iters && i in worlds[n + 1].iters && moves[n].t in worlds[n + 1].walks
    ensures var w, w', t := worlds[n], worlds[n + 1], moves[n].t;
            var it, it' := w.iters[i], w'.iters[i];
            && (w'.walks[t].Away? <==> (exists key :: Yielding(w, t, i, key) || Panicking(w, t, i, key)) || Exhausted(w, t, i))
            && (!w'.walks[t].Away? ==> On(w'.walks[t], i) && it'.shown == it.shown && it'.lost == it.lost)
            && (forall key :: Yielding(w, t, i, key) ==> it' == it.(shown := it.shown + [key]))
            && (forall key :: Panicking(w, t, i, key) ==> it' == it.(lost := it.lost + {key}))
            && (Exhausted(w, t, i) ==> it' == it)
  {
    hide Bounded, WInit, Step, ChunkOf;
    assert WStep(worlds[n], moves[n].t, moves[n].act, worlds[n + 1]);
    var walk := worlds[n].walks[moves[n].t];
    if walk.AtGet? && worlds[n].s.c.pcs[moves[n].t].Done? {
      assert worlds[n].s.c.pcs[moves[n].t].res.Found? ==> Yielding(worlds[n], moves[n].t, i, walk.key);
      assert worlds[n].s.c.pcs[moves[n].t].res.Panicked? ==> Panicking(worlds[n], moves[n].t, i, walk.key);
    }
  }

  lemma LenKept(w: World, t: Tid, act: Act, w': World)
    requires WStep(w, t, act, w') && Inv(w.s) && Inv(w'.s)
    ensures w.s.c.len <= w'.s.c.len
  {
    hide Inv, Step, Proceed;
    LenStep(w.s, t, Underneath(w.walks[t], act), w'.s);
  }

  /** The index of the `get` inside `next` is below the length it read before, and so below every later one. */
  lemma {:induction false} TakenBelowLen(worlds: seq<World>, moves: seq<WMove>, n: nat, t: Tid)
    requires IsWalk(worlds, moves) && n < |worlds|
    requires t in worlds[n].walks && worlds[n].walks[t].AtGetLen?
    ensures worlds[n].walks[t].idx < worlds[n].s.c.len
    decreases n
  {
    hide Inv, WStep, Bounded;
    assert n > 0;
    var w, w', move := worlds[n - 1], worlds[n], moves[n - 1];
    assert WStep(w, move.t, move.act, w');
    WorldReachable(worlds, moves, n - 1);
    WorldReachable(worlds, moves, n);
    LenKept(w, move.t, move.act, w');
    if move.t == t {
      JustTaken(w, t, move.act, w');
    } else {
      ItersMove(w, move.t, move.act, w');
      TakenBelowLen(worlds, moves, n - 1, t);
    }
  }

  lemma JustTaken(w: World, t: Tid, act: Act, w': World)
    requires WStep(w, t, act, w') && t in w'.walks && w'.walks[t].AtGetLen?
    ensures w'.walks[t].idx < w.s.c.len
  {
    hide Step, Underneath, ChunkOf;
  }

  /** The thread has read, in `next`, that there is no value at the index it took. */
  predicate NothingThere(w: World, t: Tid) {
    && t in w.walks && t in w.s.c.pcs
    && match w.walks[t]
       case AtVer(_, idx) => !Odd(w.s.c.slots[idx].ver)
       case AtGet(_, _) => w.s.c.pcs[t].Done? && !w.s.c.pcs[t].res.Found? && !w.s.c.pcs[t].res.Panicked?
       case _ => false
  }

  /**
   * How `next` passes an index without yielding: in every run it takes the next index exactly if it read an even
   * version or its `get` found nothing; while the index has no chunk it waits, and any other step goes on with the
   * same index.
   */
  lemma HowNextPasses(worlds: seq<World>, moves: seq<WMove>, n: nat, i: Iid)
    requires IsWalk(worlds, moves) && n < |moves|
    requires moves[n].t in worlds[n].walks && On(worlds[n].walks[moves[n].t], i) && !worlds[n].walks[moves[n].t].AtLen?
    ensures moves[n].t in worlds[n + 1].walks
    ensures var w, w', t := worlds[n], worlds[n + 1], moves[n].t;
            && (w'.walks[t] == AtLen(i) <==> NothingThere(w, t))
            && (w.walks[t].AtChunk? ==> (w'.walks[t] == w.walks[t] <==> !Published(w.s.c, w.walks[t].idx)))
            && (!w'.walks[t].Away? && !w'.walks[t].AtLen? ==> IndexOf(w'.walks[t]) == IndexOf(w.walks[t]))
  {
    hide Bounded, WInit, Step, ChunkOf, Underneath;
    assert WStep(worlds[n], moves[n].t, moves[n].act, worlds[n + 1]);
    if worlds[n].walks[moves[n].t].AtGetLen? {
      TakenBelowLen(worlds, moves, n, moves[n].t);
    }
  }

  /** The index the thread has taken from the iterator. */
  function IndexOf(walk: Walk): u32
    requires !walk.Away? && !walk.AtLen?
  {
    if walk.AtCall? || walk.AtGet? then walk.key.idx else walk.idx
  }

  /**
   * `next` answers that nothing is left exactly when it reads a length at or below its index, and then every
   * index handed out up to that moment has been passed.
   */
  lemma EndsPastEveryIndex(worlds: seq<World>, moves: seq<WMove>, n: nat, i: Iid)
    requires IsWalk(worlds, moves) && n < |moves|
    requires moves[n].t in worlds[n].walks && worlds[n].walks[moves[n].t] == AtLen(i)
    ensures i in worlds[n].iters && moves[n].t in worlds[n + 1].walks
    ensures worlds[n + 1].walks[moves[n].t].Away? <==> worlds[n].s.c.len <= worlds[n].iters[i].pos
    ensures worlds[n + 1].walks[moves[n].t].Away? ==>
              forall k :: 0 <= k <= n ==> worlds[k].s.c.len <= worlds[n].iters[i].pos
  {
    hide Bounded, WInit, Step;
    assert WStep(worlds[n], moves[n].t, moves[n].act, worlds[n + 1]);
    forall k | 0 <= k <= n ensures worlds[k].s.c.len <= worlds[n].s.c.len {
      LenGrows(worlds, moves, k, n);
    }
  }

  // --------------------------------------------------------------------------------------------
  // Nothing that stays is missed
  // --------------------------------------------------------------------------------------------

  /** A thread has taken the key's index from the iterator and not decided against it. */
  ghost predicate InHand(w: World, t: Tid, i: Iid, key: Key) {
    && t in w.walks && t in w.s.c.pcs
    && (|| w.walks[t] == AtGetLen(i, key.idx)
        || w.walks[t] == AtChunk(i, key.idx)
        || w.walks[t] == AtVer(i, key.idx)
        || w.walks[t] == AtCall(i, key)
        || (w.walks[t] == AtGet(i, key)
            && !(PhaseOf(w.s.c.pcs[t]).Decided? && PhaseOf(w.s.c.pcs[t]).res == NotFound)))
  }

  /** The iterator has yielded the key, or still comes to it, or panicked at it. */
  ghost predicate Covered(w: World, i: Iid, key: Key) {
    && i in w.iters
    && (|| key in w.iters[i].lost || key.idx >= w.iters[i].pos || key in w.iters[i].shown
        || exists t :: InHand(w, t, i, key))
  }

  lemma NamedBelowLen(s: Sys, key: Key)
    requires Inv(s) && Names(s.c, key)
    ensures key.idx < s.c.len && key in Contents(s.c.slots)
  {
    hide ThreadOk, GuardOk, ChainOk, ChunksOk, CountOk, ChunkOf, Contents;
    assert SlotOk(s.c, s.h, key.idx);
    InContents(s.c.slots, key);
  }

  /** A `get` of a key that is there does not come to answer that it is not. */
  lemma StaysInHand(w: World, t: Tid, act: Act, w': World, i: Iid, key: Key)
    requires WInv(w) && Inv(w.s) && WStep(w, t, act, w') && Names(w.s.c, key)
    requires InHand(w, t, i, key)
    ensures i in w'.iters && (InHand(w', t, i, key) || key in w'.iters[i].lost || key in w'.iters[i].shown)
  {
    hide Inv, Step, Contents, ChunkOf, Next, Record, PhaseOf;
    assert WalkOk(w, t);
    NamedBelowLen(w.s, key);
    PcsMove(w, t, act, w');
    if w.walks[t].AtGet? {
      DonePhase(w.s.c.pcs[t]);
      StepSimulates(w.s, t, Underneath(w.walks[t], act), w'.s);
    }
  }

  lemma DonePhase(pc: PC)
    ensures pc.Done? ==> PhaseOf(pc) == Decided(pc.op, pc.res)
  {
  }

  lemma PosMoves(w: World, t: Tid, act: Act, w': World, i: Iid)
    requires WStep(w, t, act, w') && i in w.iters
    ensures i in w'.iters && t in w'.walks
    ensures || w'.iters[i].pos == w.iters[i].pos
            || (w'.iters[i].pos == w.iters[i].pos + 1 && w'.walks[t] == AtGetLen(i, w.iters[i].pos))
  {
    hide Step, Underneath, ChunkOf;
  }

  lemma CoveredKept(w: World, u: Tid, act: Act, w': World, i: Iid, key: Key)
    requires WInv(w) && Inv(w.s) && WStep(w, u, act, w') && Names(w.s.c, key)
    requires Covered(w, i, key)
    ensures Covered(w', i, key)
  {
    hide Inv, WInv, WStep, PhaseOf, InOrder, Underneath;
    PcsMove(w, u, act, w');
    ItersMove(w, u, act, w');
    YieldStep(w, u, act, w', i);
    if t :| InHand(w, t, i, key) {
      if t == u {
        StaysInHand(w, u, act, w', i, key);
      } else {
        assert InHand(w', t, i, key);
      }
    } else {
      PosMoves(w, u, act, w', i);
      if w'.iters[i].pos > key.idx == w.iters[i].pos {
        assert InHand(w', u, i, key);
      }
    }
  }

  lemma {:induction false} CoveredThroughout(worlds: seq<World>, moves: seq<WMove>, o: nat, n: nat, i: Iid, key: Key)
    requires IsWalk(worlds, moves) && o <= n < |worlds|
    requires i in worlds[o].iters && worlds[o].iters[i].pos <= key.idx
    requires forall k :: o <= k < n ==> Names(worlds[k].s.c, key)
    ensures Covered(worlds[n], i, key)
    decreases n - o
  {
    hide Inv, WInv, WStep, Bounded, WInit, Covered;
    if o == n {
      assert Covered(worlds[n], i, key) by { CoveredAtFirst(worlds[n], i, key); }
    } else {
      CoveredThroughout(worlds, moves, o, n - 1, i, key);
      WorldOk(worlds, moves, n - 1);
      WorldReachable(worlds, moves, n - 1);
      assert WStep(worlds[n - 1], moves[n - 1].t, moves[n - 1].act, worlds[n]);
      CoveredKept(worlds[n - 1], moves[n - 1].t, moves[n - 1].act, worlds[n], i, key);
    }
  }

  lemma CoveredAtFirst(w: World, i: Iid, key: Key)
    requires i in w.iters && w.iters[i].pos <= key.idx
    ensures Covered(w, i, key)
  {
  }

  /**
   * An index is passed only for a reason. If a key is in the map from before its index is taken from the iterator,
   * moment `o`, until no thread is in `next` and the index is passed, moment `n`, then it was yielded, or `next`
   * panicked at it.
   */
  lemma NotPassedOver(worlds: seq<World>, moves: seq<WMove>, o: nat, n: nat, i: Iid, key: Key)
    requires IsWalk(worlds, moves) && o <= n < |worlds|
    requires i in worlds[o].iters && worlds[o].iters[i].pos <= key.idx
    requires forall k :: o <= k < n ==> Names(worlds[k].s.c, key)
    requires forall t :: t in worlds[n].walks ==> !On(worlds[n].walks[t], i)
    ensures i in worlds[n].iters
    ensures worlds[n].iters[i].pos <= key.idx || key in worlds[n].iters[i].shown || key in worlds[n].iters[i].lost
  {
    hide IsWalk;
    CoveredThroughout(worlds, moves, o, n, i, key);
    NoHand(worlds[n], i, key);
  }

  lemma NoHand(w: World, i: Iid, key: Key)
    requires forall t :: t in w.walks ==> !On(w.walks[t], i)
    ensures forall t :: !InHand(w, t, i, key)
  {
  }

  /** When a thread leaves its call, nobody is on the iterator. */
  lemma NobodyOn(w: World, t: Tid, act: Act, w': World, i: Iid)
    requires WInv(w) && WStep(w, t, act, w') && t in w.walks && On(w.walks[t], i)
    requires t in w'.walks && w'.walks[t].Away?
    ensures forall u :: u in w'.walks ==> !On(w'.walks[u], i)
  {
    hide WStep, WalkOk, Passed;
    ItersMove(w, t, act, w');
  }

  /**
   * Nothing that stays is missed. If a key is in the map all the time from an iterator's creation until a `next`
   * ends in whatever way, with nothing yielded and without a panic, then it was yielded, or `next` panicked at it.
   */
  lemma NothingMissed(worlds: seq<World>, moves: seq<WMove>, o: nat, n: nat, i: Iid, key: Key)
    requires IsWalk(worlds, moves) && o <= n < |moves|
    requires i in worlds[o].iters && worlds[o].iters[i].pos <= key.idx
    requires forall k :: o <= k <= n ==> Names(worlds[k].s.c, key)
    requires moves[n].t in worlds[n].walks && On(worlds[n].walks[moves[n].t], i)
    requires moves[n].t in worlds[n + 1].walks && worlds[n + 1].walks[moves[n].t].Away?
    requires i in worlds[n].iters && i in worlds[n + 1].iters
    requires worlds[n + 1].iters[i].shown == worlds[n].iters[i].shown
    requires worlds[n + 1].iters[i].lost == worlds[n].iters[i].lost
    ensures key in worlds[n + 1].iters[i].shown || key in worlds[n + 1].iters[i].lost
  {
    hide Bounded, WInit, WStep, WInv, On, Inv, Names;
    var t := moves[n].t;
    HowNextEnds(worlds, moves, n, i);
    WorldOk(worlds, moves, n);
    assert WStep(worlds[n], t, moves[n].act, worlds[n + 1]);
    NobodyOn(worlds[n], t, moves[n].act, worlds[n + 1], i);
    NotPassedOver(worlds, moves, o, n + 1, i, key);
    WorldReachable(worlds, moves, n);
    NamedBelowLen(worlds[n].s, key);
    NewlyLost(worlds[n], t, i);
  }

  /** A `next` does not panic again at a key it panicked at. */
  lemma NewlyLost(w: World, t: Tid, i: Iid)
    requires WInv(w) && t in w.walks
    ensures forall key :: Panicking(w, t, i, key) ==> i in w.iters && key !in w.iters[i].lost
  {
    assert WalkOk(w, t);
  }
}
