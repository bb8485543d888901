/**
 * The slot map as a step system. Any number of threads run the public operations; a step of a
 * thread is one atomic access to shared memory (load, store, compare-exchange, fetch-and-add), or
 * one access to a slot's data, together with the thread-local computation that follows it.
 */
module Protocol {
  import opened Machine
  import opened Location

  datatype Option<+T> = None | Some(value: T)

  type Value = int
  type Tid = nat
  type Gid = nat

  // --------------------------------------------------------------------------------------------
  // Shared memory
  // --------------------------------------------------------------------------------------------

  /** The `MaybeUninit` value of a slot: never written, holding a value, or a value already dropped. */
  datatype Cell = Uninit | Live(value: Value) | Dropped

  datatype Slot = Slot(data: Cell, next: u32, refs: u32, ver: u32)

  /** What `alloc_zeroed` provides. */
  const ZEROED := Slot(Uninit, 0, 0, 0)

  /** All slots any u32 index can name; those in chunks that do not exist yet are still zeroed. */
  type Slots = s: seq<Slot> | |s| == 0x1_0000_0000 ghost witness seq(0x1_0000_0000, _ => ZEROED)

  /** The unpacked `free_head`. */
  datatype Head = Head(tag: u32, idx: u32)

  /** A chunk allocation: who made it, and a serial number. */
  datatype Block = Block(maker: Tid, serial: nat)

  /** A `SlotGuard` or `OwningSlotGuard`, with the value it was handed when it was made. */
  datatype Guard = Guard(key: Key, value: Value)

  // --------------------------------------------------------------------------------------------
  // Operations and program counters
  // --------------------------------------------------------------------------------------------

  datatype Op =
    | Insert
    | Get(key: Key)
    | Remove(key: Key)
    | Contains(key: Key)
    | Reserve(last: nat)

  datatype Result =
    | Inserted(key: Key, value: Value)
    | InsertFailed
    | Found(gid: Gid, value: Value)
    | NotFound
    | Removed(was: bool)
    | Contained(found: bool)
    | Reserved
    | Panicked(refs: u32)

  /** The three operations that begin with `AtomicVec::get`. */
  datatype Lookup = ForGet | ForRemove | ForContains

  /** Who called `push_free_index`, hence what follows it. */
  datatype After = AfterInsert | AfterGet(key: Key) | AfterRemove(key: Key) | AfterDrop

  /** A program counter, with the local variables live at it; named after the next access. */
  datatype PC =
    | Idle
    | Done(op: Op, res: Result)
    // AtomicVec::get
    | LookLen(what: Lookup, key: Key)
    | LookChunk(what: Lookup, key: Key)
    // contains_key
    | ConVer(key: Key)
    // SlotGuard::new and Slot::acquire_guard
    | GetRefs(key: Key)
    | GetCas(key: Key, seen: u32)
    | GetVer(key: Key)
    | GetBack(key: Key)
    // remove
    | RemVer(key: Key)
    | RemCas(key: Key, cur: u32)
    | RemDec(key: Key)
    | RemCount(key: Key)
    // drop_inner_value and push_free_index
    | Destroy(idx: u32, after: After)
    | PushLoad(idx: u32, after: After)
    | PushLink(idx: u32, prev: Head, after: After)
    | PushCas(idx: u32, prev: Head, after: After)
    // pop_free_index
    | PopLoad
    | PopNext(prev: Head)
    | PopCas(prev: Head, next: u32)
    // try_insert_with_key and push_zeroed
    | InsVer(idx: u32)
    | InsLen
    | InsChunk(idx: u32)
    | InsChunkCas(idx: u32, block: Block)
    | InsCall(key: Key)
    | InsWrite(key: Key, value: Value)
    | InsRefs(key: Key, value: Value)
    | InsPub(key: Key, value: Value)
    | InsCount(key: Key, value: Value)
    // the closure panicked: the slot it was given is never given back
    | Abandoned(idx: u32)
    // AtomicVec::reserve
    | ResChunk(chunk: nat, last: nat)
    | ResChunkCas(chunk: nat, last: nat, block: Block)

  datatype Conf = Conf(
    slots: Slots,
    head: Head,
    count: u32,
    len: u32,
    chunks: map<nat, Block>,
    freed: set<Block>,
    serial: nat,
    pcs: map<Tid, PC>,
    guards: map<Gid, Guard>,
    nextGid: Gid
  )

  /** What the environment decides about a step; anything that does not apply leaves the state as it is. */
  datatype Choice =
    | Tau
    | Spurious
    | Call(op: Op)
    | DropGuard(g: Gid)
    | CloneGuard(g: Gid)
    | FOk(value: Value)
    | FErr
    | FPanic

  // --------------------------------------------------------------------------------------------
  // Thread-local decisions
  // --------------------------------------------------------------------------------------------

  function OpOf(what: Lookup, key: Key): Op {
    match what
    case ForGet => Get(key)
    case ForRemove => Remove(key)
    case ForContains => Contains(key)
  }

  function Miss(what: Lookup): Result {
    match what
    case ForGet => NotFound
    case ForRemove => Removed(false)
    case ForContains => Contained(false)
  }

  function Begin(op: Op): PC {
    match op
    case Insert => PopLoad
    case Get(key) => LookLen(ForGet, key)
    case Remove(key) => LookLen(ForRemove, key)
    case Contains(key) => LookLen(ForContains, key)
    case Reserve(last) => NextChunk(0, last)
  }

  function Located(what: Lookup, key: Key): PC {
    match what
    case ForGet => GetRefs(key)
    case ForRemove => RemVer(key)
    case ForContains => ConVer(key)
  }

  /** The head of `acquire_guard`'s loop, on the count just read. */
  function OnRefs(key: Key, refs: u32): PC {
    if refs > MAX_REFCOUNT then Done(Get(key), Panicked(refs))
    else if refs == 0 then Done(Get(key), NotFound)
    else GetCas(key, refs)
  }

  /** The head of `remove`'s loop, on the version just read. */
  function OnVer(key: Key, ver: u32): PC {
    if ver != key.ver then Done(Remove(key), Removed(false)) else RemCas(key, ver)
  }

  /** The head of `pop_free_index`'s loop, on the head just read. */
  function OnHead(head: Head): PC {
    if head.idx == SENTINEL then InsLen else PopNext(head)
  }

  /** The loop of `AtomicVec::reserve`, up to the last chunk wanted. */
  function NextChunk(chunk: nat, last: nat): PC {
    if chunk <= last && chunk < CHUNKS then ResChunk(chunk, last) else Done(Reserve(last), Reserved)
  }

  function Finish(after: After): PC {
    match after
    case AfterInsert => Done(Insert, InsertFailed)
    case AfterGet(key) => Done(Get(key), NotFound)
    case AfterRemove(key) => RemCount(key)
    case AfterDrop => Idle
  }

  // --------------------------------------------------------------------------------------------
  // Steps
  // --------------------------------------------------------------------------------------------

  /** No thread but `t` moves. */
  predicate MovesOnly(c: Conf, t: Tid, c': Conf) {
    t in c.pcs && t in c'.pcs && c'.pcs == c.pcs[t := c'.pcs[t]]
  }

  function Goto(c: Conf, t: Tid, pc: PC): Conf {
    c.(pcs := c.pcs[t := pc])
  }

  function Store(c: Conf, i: u32, slot: Slot): Conf {
    c.(slots := c.slots[i := slot])
  }

  /** `dec_ref_count`, and the branch its callers take on its result. */
  function Dec(c: Conf, t: Tid, i: u32, after: After): Conf {
    var slot := c.slots[i];
    Goto(Store(c, i, slot.(refs := Wrap(slot.refs - 1))), t,
         if slot.refs == 1 then Destroy(i, after) else Finish(after))
  }

  /** `compare_exchange(null, block)` on a chunk pointer: the loser frees the block it allocated. */
  function Publish(c: Conf, chunk: nat, block: Block): Conf {
    if chunk in c.chunks then c.(freed := c.freed + {block})
    else c.(chunks := c.chunks[chunk := block])
  }

  predicate InGet(pc: PC) {
    pc.GetRefs? || pc.GetCas? || pc.GetVer? || pc.GetBack?
  }

  predicate InRemove(pc: PC) {
    pc.RemVer? || pc.RemCas? || pc.RemDec? || pc.RemCount?
  }

  predicate InPush(pc: PC) {
    pc.Destroy? || pc.PushLoad? || pc.PushLink? || pc.PushCas?
  }

  predicate InPop(pc: PC) {
    pc.PopLoad? || pc.PopNext? || pc.PopCas?
  }

  predicate InInsert(pc: PC) {
    pc.InsVer? || pc.InsCall? || pc.InsWrite? || pc.InsRefs? || pc.InsPub? || pc.InsCount?
  }

  predicate InVec(pc: PC) {
    pc.InsLen? || pc.InsChunk? || pc.InsChunkCas? || pc.ResChunk? || pc.ResChunkCas?
  }

  predicate InLook(pc: PC) {
    pc.LookLen? || pc.LookChunk? || pc.ConVer?
  }

  function IdleStep(c: Conf, t: Tid, a: Choice): (c': Conf)
    requires t in c.pcs
    ensures MovesOnly(c, t, c')
  {
    assert c.pcs == c.pcs[t := c.pcs[t]];
    match a
    case Call(op) => Goto(c, t, Begin(op))
    case DropGuard(g) =>
      if g in c.guards then Dec(c.(guards := c.guards - {g}), t, c.guards[g].key.idx, AfterDrop) else c
    case CloneGuard(g) =>
      if g in c.guards then
        var i := c.guards[g].key.idx;
        var slot := c.slots[i];
        var c' := Store(c, i, slot.(refs := Wrap(slot.refs + 1)));
        if slot.refs <= MAX_REFCOUNT
        then c'.(guards := c.guards[c.nextGid := c.guards[g]], nextGid := c.nextGid + 1)
        else c'
      else c
    case _ => c
  }

  function GetStep(c: Conf, t: Tid, a: Choice, pc: PC): (c': Conf)
    requires t in c.pcs
    requires InGet(pc)
    ensures MovesOnly(c, t, c')
  {
    var key := pc.key;
    var slot := c.slots[key.idx];
    match pc
    case GetRefs(_) => Goto(c, t, OnRefs(key, slot.refs))
    case GetCas(_, seen) =>
      if a != Spurious && slot.refs == seen
      then Goto(Store(c, key.idx, slot.(refs := Wrap(seen + 1))), t, GetVer(key))
      else Goto(c, t, OnRefs(key, slot.refs))
    case GetVer(_) =>
      if slot.ver == key.ver then
        var value := if slot.data.Live? then slot.data.value else 0;
        Goto(c.(guards := c.guards[c.nextGid := Guard(key, value)], nextGid := c.nextGid + 1),
             t, Done(Get(key), Found(c.nextGid, value)))
      else Goto(c, t, GetBack(key))
    case GetBack(_) => Dec(c, t, key.idx, AfterGet(key))
  }

  function RemoveStep(c: Conf, t: Tid, pc: PC): (c': Conf)
    requires t in c.pcs
    requires InRemove(pc)
    ensures MovesOnly(c, t, c')
  {
    var key := pc.key;
    var slot := c.slots[key.idx];
    match pc
    case RemVer(_) => Goto(c, t, OnVer(key, slot.ver))
    case RemCas(_, cur) =>
      if slot.ver == cur
      then Goto(Store(c, key.idx, slot.(ver := Wrap(cur + 1))), t, RemDec(key))
      else Goto(c, t, OnVer(key, slot.ver))
    case RemDec(_) => Dec(c, t, key.idx, AfterRemove(key))
    case RemCount(_) => Goto(c.(count := Wrap(c.count - 1)), t, Done(Remove(key), Removed(true)))
  }

  function PushStep(c: Conf, t: Tid, a: Choice, pc: PC): (c': Conf)
    requires t in c.pcs
    requires InPush(pc)
    ensures MovesOnly(c, t, c')
  {
    var i := pc.idx;
    var slot := c.slots[i];
    match pc
    case Destroy(_, after) => Goto(Store(c, i, slot.(data := Dropped)), t, PushLoad(i, after))
    case PushLoad(_, after) => Goto(c, t, PushLink(i, c.head, after))
    case PushLink(_, prev, after) => Goto(Store(c, i, slot.(next := prev.idx)), t, PushCas(i, prev, after))
    case PushCas(_, prev, after) =>
      if a != Spurious && c.head == prev
      then Goto(c.(head := Head(Wrap(prev.tag + 1), i)), t, Finish(after))
      else Goto(c, t, PushLink(i, c.head, after))
  }

  function PopStep(c: Conf, t: Tid, a: Choice, pc: PC): (c': Conf)
    requires t in c.pcs
    requires InPop(pc)
    ensures MovesOnly(c, t, c')
  {
    match pc
    case PopLoad => Goto(c, t, OnHead(c.head))
    case PopNext(prev) => Goto(c, t, PopCas(prev, c.slots[prev.idx].next))
    case PopCas(prev, next) =>
      if a != Spurious && c.head == prev
      then Goto(c.(head := Head(Wrap(prev.tag + 1), next)), t, InsVer(prev.idx))
      else Goto(c, t, OnHead(c.head))
  }

  function InsertStep(c: Conf, t: Tid, a: Choice, pc: PC): (c': Conf)
    requires t in c.pcs
    requires InInsert(pc)
    ensures MovesOnly(c, t, c')
  {
    assert c.pcs == c.pcs[t := c.pcs[t]];
    match pc
    case InsVer(i) => Goto(c, t, InsCall(RawKey(i, OrOne(c.slots[i].ver))))
    case InsCall(key) =>
      (match a
       case FOk(v) => Goto(c, t, InsWrite(key, v))
       case FErr => Goto(c, t, PushLoad(key.idx, AfterInsert))
       case FPanic => Goto(c, t, Abandoned(key.idx))
       case _ => c)
    case InsWrite(key, v) => Goto(Store(c, key.idx, c.slots[key.idx].(data := Live(v))), t, InsRefs(key, v))
    case InsRefs(key, v) => Goto(Store(c, key.idx, c.slots[key.idx].(refs := 1)), t, InsPub(key, v))
    case InsPub(key, v) => Goto(Store(c, key.idx, c.slots[key.idx].(ver := key.ver)), t, InsCount(key, v))
    case InsCount(key, v) => Goto(c.(count := Wrap(c.count + 1)), t, Done(Insert, Inserted(key, v)))
  }

  /** `push_zeroed` and `ensure_chunk_exists`. */
  function VecStep(c: Conf, t: Tid, pc: PC): (c': Conf)
    requires t in c.pcs
    requires InVec(pc)
    ensures MovesOnly(c, t, c')
  {
    match pc
    case InsLen => Goto(c.(len := Wrap(c.len + 1)), t, InsChunk(c.len))
    case InsChunk(i) =>
      if ChunkOf(i) in c.chunks then Goto(c, t, InsCall(RawKey(i, OrOne(0))))
      else Goto(c.(serial := c.serial + 1), t, InsChunkCas(i, Block(t, c.serial)))
    case InsChunkCas(i, block) => Goto(Publish(c, ChunkOf(i), block), t, InsCall(RawKey(i, OrOne(0))))
    case ResChunk(chunk, last) =>
      if chunk in c.chunks then Goto(c, t, NextChunk(chunk + 1, last))
      else Goto(c.(serial := c.serial + 1), t, ResChunkCas(chunk, last, Block(t, c.serial)))
    case ResChunkCas(chunk, last, block) => Goto(Publish(c, chunk, block), t, NextChunk(chunk + 1, last))
  }

  function LookStep(c: Conf, t: Tid, pc: PC): (c': Conf)
    requires t in c.pcs
    requires InLook(pc)
    ensures MovesOnly(c, t, c')
  {
    assert c.pcs == c.pcs[t := c.pcs[t]];
    match pc
    case LookLen(what, key) =>
      Goto(c, t, if key.idx >= c.len then Done(OpOf(what, key), Miss(what)) else LookChunk(what, key))
    case LookChunk(what, key) => if ChunkOf(key.idx) in c.chunks then Goto(c, t, Located(what, key)) else c
    case ConVer(key) => Goto(c, t, Done(Contains(key), Contained(c.slots[key.idx].ver == key.ver)))
  }

  /** One step of thread `t`. */
  function Next(c: Conf, t: Tid, a: Choice): (c': Conf)
    requires t in c.pcs
    ensures MovesOnly(c, t, c')
  {
    assert c.pcs == c.pcs[t := c.pcs[t]];
    var pc := c.pcs[t];
    if pc.Idle? then IdleStep(c, t, a)
    else if pc.Done? then Goto(c, t, Idle)
    else if InLook(pc) then LookStep(c, t, pc)
    else if InGet(pc) then GetStep(c, t, a, pc)
    else if InRemove(pc) then RemoveStep(c, t, pc)
    else if InPush(pc) then PushStep(c, t, a, pc)
    else if InPop(pc) then PopStep(c, t, a, pc)
    else if InInsert(pc) then InsertStep(c, t, a, pc)
    else if InVec(pc) then VecStep(c, t, pc)
    else c
  }

  // --------------------------------------------------------------------------------------------
  // History: recorded beside the configuration, never read by a step
  // --------------------------------------------------------------------------------------------

  /** Per slot: the thread that holds it exclusively, and how often each thing happened to it. */
  datatype Log = Log(owner: Option<Tid>, removed: nat, born: nat, died: nat, leaks: nat)

  const BLANK := Log(None, 0, 0, 0, 0)

  type Logs = s: seq<Log> | |s| == 0x1_0000_0000 ghost witness seq(0x1_0000_0000, _ => BLANK)

  /** Head updates when the current pop or push began and when it last read the head, and its failed exchanges. */
  datatype Window = Window(start: nat, seen: nat, fails: nat)

  /** `wraps` counts the clones that raised a count past 2^32 - 1. */
  datatype Hist = Hist(free: seq<u32>, updates: nat, pushed: nat, logs: Logs, wins: map<Tid, Window>, wraps: nat)

  function Note(h: Hist, i: u32, log: Log): Hist {
    h.(logs := h.logs[i := log])
  }

  function NoteDec(c: Conf, h: Hist, t: Tid, i: u32): Hist {
    if c.slots[i].refs == 1 then Note(h, i, h.logs[i].(owner := Some(t))) else h
  }

  function NoteStart(h: Hist, t: Tid): Hist {
    h.(wins := h.wins[t := Window(h.updates, h.updates, 0)])
  }

  /** A failed exchange of the head; a spurious failure is not counted. */
  function NoteFail(c: Conf, h: Hist, t: Tid, prev: Head): Hist
    requires t in h.wins
  {
    var w := h.wins[t];
    h.(wins := h.wins[t := Window(w.start, h.updates, if c.head == prev then w.fails else w.fails + 1)])
  }

  /** A clone above the limit leaks the count it raised; past the last count, the count wraps as well. */
  function NoteClone(c: Conf, h: Hist, i: u32): Hist {
    var refs := c.slots[i].refs;
    var h1 := if refs > MAX_REFCOUNT then Note(h, i, h.logs[i].(leaks := h.logs[i].leaks + 1)) else h;
    if refs == 0xFFFF_FFFF then h1.(wraps := h.wraps + 1) else h1
  }

  function Record(c: Conf, h: Hist, t: Tid, a: Choice): Hist
    requires t in c.pcs && t in h.wins
  {
    match c.pcs[t]
    case Idle =>
      (match a
       case DropGuard(g) => if g in c.guards then NoteDec(c, h, t, c.guards[g].key.idx) else h
       case CloneGuard(g) =>
         if g in c.guards then NoteClone(c, h, c.guards[g].key.idx) else h
       case _ => h)
    case GetBack(key) => NoteDec(c, h, t, key.idx)
    case RemDec(key) => NoteDec(c, h, t, key.idx)
    case RemCas(key, cur) =>
      if c.slots[key.idx].ver == cur
      then Note(h, key.idx, h.logs[key.idx].(removed := h.logs[key.idx].removed + 1)) else h
    case Destroy(i, _) => Note(h, i, h.logs[i].(died := h.logs[i].died + 1))
    case PushLoad(_, _) => NoteStart(h, t)
    case PopLoad => NoteStart(h, t)
    case PushCas(i, prev, _) =>
      if a != Spurious && c.head == prev
      then Note(h, i, h.logs[i].(owner := None)).(free := [i] + h.free, updates := h.updates + 1)
      else NoteFail(c, h, t, prev)
    case PopCas(prev, _) =>
      if a != Spurious && c.head == prev
      then Note(h, prev.idx, h.logs[prev.idx].(owner := Some(t)))
           .(free := if h.free == [] then [] else h.free[1..], updates := h.updates + 1)
      else NoteFail(c, h, t, prev)
    case InsLen => Note(h, c.len, h.logs[c.len].(owner := Some(t))).(pushed := h.pushed + 1)
    case InsWrite(key, _) => Note(h, key.idx, h.logs[key.idx].(born := h.logs[key.idx].born + 1))
    case InsPub(key, _) => Note(h, key.idx, h.logs[key.idx].(owner := None))
    case _ => h
  }

  // --------------------------------------------------------------------------------------------
  // Runs
  // --------------------------------------------------------------------------------------------

  datatype Sys = Sys(c: Conf, h: Hist)

  /** A fresh map: `with_key`. Every thread is idle and no guard exists. */
  ghost predicate Init(s: Sys) {
    && (forall i: u32 :: s.c.slots[i] == ZEROED && s.h.logs[i] == BLANK)
    && s.c.head == Head(0, SENTINEL) && s.c.count == 0 && s.c.len == 0
    && s.c.chunks == map[] && s.c.freed == {} && s.c.serial == 0 && s.c.guards == map[] && s.c.nextGid == 0
    && s.h.free == [] && s.h.updates == 0 && s.h.pushed == 0 && s.h.wraps == 0
    && s.h.wins.Keys == s.c.pcs.Keys
    && (forall t :: t in s.c.pcs ==> s.c.pcs[t] == Idle && s.h.wins[t] == Window(0, 0, 0))
  }

  ghost predicate Step(s: Sys, t: Tid, a: Choice, s': Sys) {
    && t in s.c.pcs && t in s.h.wins
    && s'.c == Next(s.c, t, a)
    && s'.h == Record(s.c, s.h, t, a)
  }

  /** The thread has read the head and not yet exchanged it, for a pop. */
  predicate Popping(pc: PC) {
    pc.PopNext? || pc.PopCas?
  }

  /** The head was not updated since the thread last read it. */
  predicate UpToDate(s: Sys, t: Tid) {
    t in s.h.wins && s.h.wins[t].seen == s.h.updates
  }

  /**
   * The limits of the machine words the code relies on without checking them: at most 2^32 - 1
   * slots are ever pushed, fewer than 2^32 head updates fall between a pop's reading of the head
   * and its exchange, and no clone finds its slot's count at 2^32 - 1.
   */
  ghost predicate Bounded(s: Sys) {
    && s.h.pushed < WORD
    && (forall t :: t in s.c.pcs && t in s.h.wins && Popping(s.c.pcs[t])
          ==> s.h.updates - s.h.wins[t].seen < WORD)
    && s.h.wraps == 0
  }

  /** A finite run: the states visited, and who moved between them and how. */
  datatype Move = Move(t: Tid, a: Choice)

  ghost predicate IsRun(states: seq<Sys>, moves: seq<Move>) {
    && |states| == |moves| + 1
    && Init(states[0])
    && (forall n :: 0 <= n < |states| ==> Bounded(states[n]))
    && (forall n {:trigger moves[n]} :: 0 <= n < |moves| ==> Step(states[n], moves[n].t, moves[n].a, states[n + 1]))
  }

  lemma RunExtended(states: seq<Sys>, moves: seq<Move>, t: Tid, a: Choice, s': Sys)
    requires IsRun(states, moves) && Step(states[|moves|], t, a, s') && Bounded(s')
    ensures IsRun(states + [s'], moves + [Move(t, a)])
  {
    hide Step, Bounded, Init;
    var moves' := moves + [Move(t, a)];
    forall n | 0 <= n < |moves'|
      ensures Step((states + [s'])[n], moves'[n].t, moves'[n].a, (states + [s'])[n + 1])
    {
      assert n < |moves| ==> Step(states[n], moves[n].t, moves[n].a, states[n + 1]);
    }
  }
}
