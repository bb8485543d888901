/** The global invariant of the step system. */
module Invariant {
  import opened Machine
  import opened Location
  import opened Protocol

  function Bit(b: bool): nat {
    if b then 1 else 0
  }

  // --------------------------------------------------------------------------------------------
  // What a program counter says about slots
  // --------------------------------------------------------------------------------------------

  /** The thread holds one reference to slot `i`: an unresolved acquirer, an inserter about to
      publish, or a remover that has not yet given up the map's share. */
  predicate Refers(pc: PC, i: u32) {
    match pc
    case GetVer(key) => key.idx == i
    case GetBack(key) => key.idx == i
    case RemDec(key) => key.idx == i
    case InsPub(key, _) => key.idx == i
    case _ => false
  }

  /** The thread has slot `i` to itself: nobody else may read or write its data or version. */
  predicate Owns(pc: PC, i: u32) {
    match pc
    case Destroy(idx, _) => idx == i
    case PushLoad(idx, _) => idx == i
    case PushLink(idx, _, _) => idx == i
    case PushCas(idx, _, _) => idx == i
    case InsVer(idx) => idx == i
    case InsChunk(idx) => idx == i
    case InsChunkCas(idx, _) => idx == i
    case InsCall(key) => key.idx == i
    case InsWrite(key, _) => key.idx == i
    case InsRefs(key, _) => key.idx == i
    case Abandoned(idx) => idx == i
    case _ => false
  }

  /** The thread owns slot `i`, or has just made it reachable for counting but not yet occupied. */
  predicate Keeps(pc: PC, i: u32) {
    Owns(pc, i) || (pc.InsPub? && pc.key.idx == i)
  }

  /** The inserter has written a value that is not yet published. */
  predicate Writing(pc: PC) {
    pc.InsRefs? || pc.InsPub?
  }

  /** The pusher has raised `len` but may not have made its chunk yet. */
  predicate Growing(pc: PC) {
    pc.InsChunk? || pc.InsChunkCas?
  }

  /** The insert has taken effect and `num_elems` does not show it yet. */
  predicate Adding(pc: PC) {
    pc.InsCount?
  }

  /** The remove has taken effect and `num_elems` does not show it yet. */
  predicate Removing(pc: PC) {
    || pc.RemDec?
    || pc.RemCount?
    || ((pc.Destroy? || pc.PushLoad? || pc.PushLink? || pc.PushCas?) && pc.after.AfterRemove?)
  }

  // --------------------------------------------------------------------------------------------
  // Counting
  // --------------------------------------------------------------------------------------------

  datatype Tally = Referring(i: u32) | Addings | Removings

  predicate Counts(pc: PC, y: Tally) {
    match y
    case Referring(i) => Refers(pc, i)
    case Addings => Adding(pc)
    case Removings => Removing(pc)
  }

  function Threads(pcs: map<Tid, PC>, y: Tally): set<Tid> {
    set t | t in pcs && Counts(pcs[t], y)
  }

  /** The live guards on slot `i`. */
  function Handles(guards: map<Gid, Guard>, i: u32): set<Gid> {
    set g | g in guards && guards[g].key.idx == i
  }

  function OddSlots(slots: Slots): set<int> {
    set i | 0 <= i < 0x1_0000_0000 && Odd(slots[i].ver)
  }

  // --------------------------------------------------------------------------------------------
  // The invariant
  // --------------------------------------------------------------------------------------------

  predicate Published(c: Conf, i: u32) {
    ChunkOf(i) in c.chunks
  }

  /**
   * Exact reference accounting: the map's own share (an odd version), plus every thread holding a
   * reference in flight, plus every guard, plus the counts leaked by panicking clones.
   */
  ghost predicate Accounted(c: Conf, h: Hist, i: u32) {
    c.slots[i].refs ==
      Bit(Odd(c.slots[i].ver)) + |Threads(c.pcs, Referring(i))| + |Handles(c.guards, i)| + h.logs[i].leaks
  }

  ghost predicate LifeOk(c: Conf, h: Hist, i: u32) {
    var slot, log := c.slots[i], h.logs[i];
    && slot.ver == (2 * log.removed + Bit(Odd(slot.ver))) % 0x1_0000_0000
    && log.born == log.died + Bit(slot.data.Live?)
    && log.born == log.removed + Bit(Odd(slot.ver))
                   + Bit(log.owner.Some? && log.owner.value in c.pcs && Writing(c.pcs[log.owner.value]))
    && slot.refs <= MAX_REFCOUNT + 1 + log.leaks
    && (slot.refs > 0 ==> slot.data.Live?)
  }

  /** Every index below `len` is on the free list, kept by one thread, or referenced; never two of them. */
  ghost predicate PlaceOk(c: Conf, h: Hist, i: u32) {
    var slot, log := c.slots[i], h.logs[i];
    if i >= c.len then
      slot == ZEROED && log == BLANK && i !in h.free
    else
      match log.owner
      case Some(t) => t in c.pcs && Keeps(c.pcs[t], i) && i !in h.free && (Published(c, i) || Growing(c.pcs[t]))
      case None =>
        && Published(c, i)
        && (if i in h.free then slot.refs == 0 && !slot.data.Live? else slot.refs > 0)
  }

  ghost predicate SlotOk(c: Conf, h: Hist, i: u32) {
    Accounted(c, h, i) && LifeOk(c, h, i) && PlaceOk(c, h, i)
  }

  ghost predicate OwnOk(c: Conf, h: Hist, t: Tid, i: u32, live: bool) {
    && i < c.len
    && h.logs[i].owner == Some(t)
    && c.slots[i].refs == 0
    && !Odd(c.slots[i].ver)
    && c.slots[i].data.Live? == live
  }

  ghost predicate PopOk(c: Conf, h: Hist, t: Tid, prev: Head)
    requires t in h.wins
  {
    && prev.idx != SENTINEL && prev.idx < c.len && Published(c, prev.idx)
    && prev.tag == h.wins[t].seen % 0x1_0000_0000
    && (h.wins[t].seen == h.updates ==> c.head == prev)
  }

  ghost predicate BlockOk(c: Conf, t: Tid, block: Block) {
    && block.maker == t && block.serial < c.serial
    && block !in c.chunks.Values && block !in c.freed
  }

  ghost predicate ThreadOk(c: Conf, h: Hist, t: Tid)
    requires t in c.pcs && t in h.wins
  {
    var w := h.wins[t];
    && w.start + w.fails <= w.seen <= h.updates
    && match c.pcs[t]
       case LookChunk(_, key) => key.idx < c.len
       case ConVer(key) => key.idx < c.len && Published(c, key.idx)
       case GetRefs(key) => key.idx < c.len && Published(c, key.idx)
       case GetCas(key, seen) => key.idx < c.len && Published(c, key.idx) && 0 < seen <= MAX_REFCOUNT
       case RemVer(key) => key.idx < c.len && Published(c, key.idx)
       case RemCas(key, cur) => key.idx < c.len && Published(c, key.idx) && cur == key.ver
       case Destroy(i, _) => OwnOk(c, h, t, i, true)
       case PushLoad(i, _) => OwnOk(c, h, t, i, false)
       case PushLink(i, prev, _) => OwnOk(c, h, t, i, false) && (w.seen == h.updates ==> c.head == prev)
       case PushCas(i, prev, _) =>
         OwnOk(c, h, t, i, false) && (w.seen == h.updates ==> c.head == prev) && c.slots[i].next == prev.idx
       case PopNext(prev) => PopOk(c, h, t, prev)
       case PopCas(prev, next) =>
         PopOk(c, h, t, prev) && (w.seen == h.updates ==> next == c.slots[prev.idx].next)
       case InsVer(i) => OwnOk(c, h, t, i, false)
       case InsChunk(i) => OwnOk(c, h, t, i, false) && c.slots[i].ver == 0
       case InsChunkCas(i, block) => OwnOk(c, h, t, i, false) && c.slots[i].ver == 0 && BlockOk(c, t, block)
       case InsCall(key) => OwnOk(c, h, t, key.idx, false) && key.ver == c.slots[key.idx].ver + 1
       case InsWrite(key, _) => OwnOk(c, h, t, key.idx, false) && key.ver == c.slots[key.idx].ver + 1
       case InsRefs(key, v) =>
         OwnOk(c, h, t, key.idx, true) && key.ver == c.slots[key.idx].ver + 1 && c.slots[key.idx].data == Live(v)
       case InsPub(key, v) =>
         && h.logs[key.idx].owner == Some(t)
         && key.ver == c.slots[key.idx].ver + 1 && c.slots[key.idx].data == Live(v)
         && Handles(c.guards, key.idx) == {}
       case Abandoned(i) => OwnOk(c, h, t, i, false)
       case ResChunk(chunk, _) => forall j: nat :: j < chunk ==> j in c.chunks
       case ResChunkCas(chunk, _, block) => (forall j: nat :: j < chunk ==> j in c.chunks) && BlockOk(c, t, block)
       case _ => true
  }

  /** A guard's slot still holds the guard's value, at the guard's version or just removed from it. */
  ghost predicate GuardOk(c: Conf, g: Gid)
    requires g in c.guards
  {
    var key := c.guards[g].key;
    && g < c.nextGid
    && key.idx < c.len
    && c.slots[key.idx].data == Live(c.guards[g].value)
    && (c.slots[key.idx].ver == key.ver || c.slots[key.idx].ver == Wrap(key.ver + 1))
  }

  ghost predicate NoDuplicates(xs: seq<u32>) {
    forall j, k :: 0 <= j < k < |xs| ==> xs[j] != xs[k]
  }

  /** What the link after position `k` of the chain `xs` must be. */
  function LinkAfter(xs: seq<u32>, k: nat): u32 {
    if k < |xs| then xs[k] else SENTINEL
  }

  /** The chain from `free_head` through `next_free` is exactly `h.free` and ends at SENTINEL. */
  ghost predicate ChainOk(c: Conf, h: Hist) {
    && c.head == Head(h.updates % 0x1_0000_0000, LinkAfter(h.free, 0))
    && NoDuplicates(h.free)
    && (forall k :: 0 <= k < |h.free| ==> c.slots[h.free[k]].next == LinkAfter(h.free, k + 1))
  }

  ghost predicate ChunksOk(c: Conf) {
    && (forall k :: k in c.chunks ==> c.chunks[k].serial < c.serial && c.chunks[k] !in c.freed)
    && (forall b :: b in c.freed ==> b.serial < c.serial)
    && (forall j, k :: j in c.chunks && k in c.chunks && j != k ==> c.chunks[j] != c.chunks[k])
    && (forall j: nat, k :: k in c.chunks && j < k && j < CHUNKS && j !in c.chunks ==> STARTS[j] < c.len)
  }

  /** `num_elems` modulo 2^32, given the operations that have taken effect but not counted themselves. */
  ghost predicate CountOk(c: Conf) {
    (c.count - |OddSlots(c.slots)| + |Threads(c.pcs, Addings)| - |Threads(c.pcs, Removings)|) % 0x1_0000_0000 == 0
  }

  ghost predicate Inv(s: Sys) {
    && s.c.len == s.h.pushed
    && s.c.pcs.Keys == s.h.wins.Keys
    && (forall i: u32 :: SlotOk(s.c, s.h, i))
    && (forall t :: t in s.c.pcs ==> ThreadOk(s.c, s.h, t))
    && (forall g :: g in s.c.guards ==> GuardOk(s.c, g))
    && ChainOk(s.c, s.h)
    && ChunksOk(s.c)
    && CountOk(s.c)
  }

  // --------------------------------------------------------------------------------------------
  // Counting lemmas
  // --------------------------------------------------------------------------------------------

  lemma ThreadsUpdate(pcs: map<Tid, PC>, t: Tid, pc: PC, y: Tally)
    requires t in pcs
    ensures |Threads(pcs[t := pc], y)| == |Threads(pcs, y)| - Bit(Counts(pcs[t], y)) + Bit(Counts(pc, y))
  {
    var before, after := Threads(pcs, y), Threads(pcs[t := pc], y);
    assert after - {t} == before - {t};
    assert t in before <==> Counts(pcs[t], y);
    assert t in after <==> Counts(pc, y);
    if t in before { assert |before - {t}| == |before| - 1; } else { assert before - {t} == before; }
    if t in after { assert |after - {t}| == |after| - 1; } else { assert after - {t} == after; }
  }

  lemma HandlesAdded(guards: map<Gid, Guard>, g: Gid, guard: Guard, i: u32)
    requires g !in guards
    ensures |Handles(guards[g := guard], i)| == |Handles(guards, i)| + Bit(guard.key.idx == i)
    ensures Handles(guards[g := guard], i) == Handles(guards, i) + if guard.key.idx == i then {g} else {}
  {
    assert Handles(guards[g := guard], i) == Handles(guards, i) + if guard.key.idx == i then {g} else {};
  }

  lemma HandlesDropped(guards: map<Gid, Guard>, g: Gid, i: u32)
    requires g in guards
    ensures |Handles(guards - {g}, i)| == |Handles(guards, i)| - Bit(guards[g].key.idx == i)
  {
    var before, after := Handles(guards, i), Handles(guards - {g}, i);
    assert after == before - {g};
  }

  lemma OddSlotsUpdate(slots: Slots, i: u32, slot: Slot)
    ensures |OddSlots(slots[i := slot])| == |OddSlots(slots)| - Bit(Odd(slots[i].ver)) + Bit(Odd(slot.ver))
  {
    var before, after := OddSlots(slots), OddSlots(slots[i := slot]);
    assert after - {i} == before - {i};
    assert i in before <==> Odd(slots[i].ver);
    assert i in after <==> Odd(slot.ver);
    if i in before { assert |before - {i}| == |before| - 1; } else { assert before - {i} == before; }
    if i in after { assert |after - {i}| == |after| - 1; } else { assert after - {i} == after; }
  }

  lemma InitHolds(s: Sys)
    requires Init(s)
    ensures Inv(s)
  {
    forall i: u32 ensures SlotOk(s.c, s.h, i) {
      assert s.c.slots[i] == ZEROED && s.h.logs[i] == BLANK;
      assert Threads(s.c.pcs, Referring(i)) == {};
      assert Handles(s.c.guards, i) == {};
    }
    assert OddSlots(s.c.slots) == {} by {
      forall i: u32 ensures !Odd(s.c.slots[i].ver) {
        assert s.c.slots[i] == ZEROED;
      }
    }
    assert Threads(s.c.pcs, Addings) == {};
    assert Threads(s.c.pcs, Removings) == {};
  }
}
