/** Every step keeps the invariant, one lemma per kind of access. */
module Preservation {
  import opened Machine
  import opened Location
  import opened Protocol
  import opened Invariant

  // --------------------------------------------------------------------------------------------
  // What a step leaves alone
  // --------------------------------------------------------------------------------------------

  /** Moving from `pc` to `pc'` makes no difference to slot `i`. */
  predicate QuietAt(c': Conf, pc: PC, pc': PC, i: u32) {
    && Refers(pc', i) == Refers(pc, i)
    && (Keeps(pc, i) ==>
          && Keeps(pc', i) && Writing(pc') == Writing(pc)
          && (Growing(pc) ==> Growing(pc') || Published(c', i)))
  }

  lemma SlotFrame(c: Conf, h: Hist, t: Tid, c': Conf, h': Hist, i: u32)
    requires SlotOk(c, h, i)
    requires t in c.pcs && t in c'.pcs && c'.pcs == c.pcs[t := c'.pcs[t]]
    requires QuietAt(c', c.pcs[t], c'.pcs[t], i)
    requires c'.slots[i] == c.slots[i] && h'.logs[i] == h.logs[i]
    requires |Handles(c'.guards, i)| == |Handles(c.guards, i)|
    requires i in h'.free <==> i in h.free
    requires c'.len == c.len || (c'.len == c.len + 1 && i != c.len)
    requires Published(c, i) ==> Published(c', i)
    ensures SlotOk(c', h', i)
  {
    ThreadsUpdate(c.pcs, t, c'.pcs[t], Referring(i));
  }

  /** What thread `u` relies on at slot `i`, as long as it keeps it. */
  ghost predicate KeptAlike(c: Conf, h: Hist, c': Conf, h': Hist, pc: PC, i: u32) {
    && (Keeps(pc, i) ==>
          && c'.slots[i].data == c.slots[i].data && c'.slots[i].ver == c.slots[i].ver
          && h'.logs[i].owner == h.logs[i].owner && Handles(c'.guards, i) == Handles(c.guards, i))
    && (Owns(pc, i) ==> c'.slots[i].refs == c.slots[i].refs && c'.slots[i].next == c.slots[i].next)
  }

  /** `len`, the serial number and the chunks only grow; no other thread's block is published or freed. */
  ghost predicate Grows(c: Conf, t: Tid, c': Conf) {
    && (c'.len == c.len || c'.len == c.len + 1)
    && c.serial <= c'.serial
    && c.nextGid <= c'.nextGid
    && (forall k :: k in c.chunks ==> k in c'.chunks)
    && (forall b: Block :: b.maker != t && (b in c'.chunks.Values || b in c'.freed) ==> b in c.chunks.Values || b in c.freed)
  }

  /** Either the head was updated, or the head and the link below it are as before. */
  ghost predicate HeadAlike(c: Conf, h: Hist, c': Conf, h': Hist) {
    || h'.updates > h.updates
    || (h'.updates == h.updates && c'.head == c.head && c'.slots[c.head.idx].next == c.slots[c.head.idx].next)
  }

  lemma ThreadFrame(c: Conf, h: Hist, t: Tid, c': Conf, h': Hist, u: Tid)
    requires u != t && u in c.pcs && u in h.wins && u in c'.pcs && u in h'.wins
    requires ThreadOk(c, h, u)
    requires c'.pcs[u] == c.pcs[u] && h'.wins[u] == h.wins[u]
    requires forall i: u32 {:trigger c'.slots[i]} {:trigger h'.logs[i]} {:trigger Handles(c'.guards, i)} ::
               KeptAlike(c, h, c', h', c.pcs[u], i)
    requires Grows(c, t, c') && HeadAlike(c, h, c', h')
    ensures ThreadOk(c', h', u)
  {
  }

  /** The step moves thread `t` and touches no slot but `i`. */
  ghost predicate Touches(s: Sys, t: Tid, s': Sys, i: u32) {
    && t in s.c.pcs && t in s.h.wins
    && s'.c.pcs.Keys == s.c.pcs.Keys && t in s'.c.pcs && t in s'.h.wins
    && s'.c.pcs == s.c.pcs[t := s'.c.pcs[t]]
    && s'.h.wins == s.h.wins[t := s'.h.wins[t]]
    && (forall j: u32 :: j != i ==> s'.c.slots[j] == s.c.slots[j] && s'.h.logs[j] == s.h.logs[j])
    && (forall j: u32 :: j != i ==> QuietAt(s'.c, s.c.pcs[t], s'.c.pcs[t], j))
    && (forall j: u32 :: j != i ==> Handles(s'.c.guards, j) == Handles(s.c.guards, j))
    && (forall j: u32 :: j != i ==> (j in s'.h.free <==> j in s.h.free))
    && (s'.c.len == s.c.len + 1 ==> i == s.c.len)
    && Grows(s.c, t, s'.c) && HeadAlike(s.c, s.h, s'.c, s'.h)
  }

  /** If another thread keeps slot `i`, it does not notice the step. */
  ghost predicate Undisturbed(s: Sys, t: Tid, s': Sys, i: u32) {
    forall u :: u in s.c.pcs && u != t ==> KeptAlike(s.c, s.h, s'.c, s'.h, s.c.pcs[u], i)
  }

  /** Everything but slot `i`, thread `t`, the guards, the chain, the chunks and the count. */
  lemma Elsewhere(s: Sys, t: Tid, s': Sys, i: u32)
    requires Inv(s) && Touches(s, t, s', i)
    requires Undisturbed(s, t, s', i)
    ensures forall j: u32 :: j != i ==> SlotOk(s'.c, s'.h, j)
    ensures forall u :: u in s'.c.pcs && u != t ==> ThreadOk(s'.c, s'.h, u)
  {
    forall j: u32 | j != i ensures SlotOk(s'.c, s'.h, j) {
      assert SlotOk(s.c, s.h, j);
      SlotFrame(s.c, s.h, t, s'.c, s'.h, j);
    }
    forall u | u in s'.c.pcs && u != t ensures ThreadOk(s'.c, s'.h, u) {
      assert ThreadOk(s.c, s.h, u);
      forall j: u32 ensures KeptAlike(s.c, s.h, s'.c, s'.h, s.c.pcs[u], j) {
      }
      ThreadFrame(s.c, s.h, t, s'.c, s'.h, u);
    }
  }

  // --------------------------------------------------------------------------------------------
  // Steps that change no slot
  // --------------------------------------------------------------------------------------------

  /** Local computation, reading shared memory, or allocating a block nobody else can see. */
  ghost predicate Quiet(c: Conf, h: Hist, t: Tid, c': Conf, h': Hist) {
    && t in c.pcs && t in h.wins && t in c'.pcs && t in h'.wins
    && c' == c.(pcs := c.pcs[t := c'.pcs[t]], serial := c'.serial)
    && h' == h.(wins := h.wins[t := h'.wins[t]])
    && c'.serial >= c.serial
    && (forall j: u32 :: QuietAt(c', c.pcs[t], c'.pcs[t], j))
    && Adding(c'.pcs[t]) == Adding(c.pcs[t]) && Removing(c'.pcs[t]) == Removing(c.pcs[t])
    && ThreadOk(c', h', t)
  }

  lemma QuietStep(s: Sys, t: Tid, s': Sys)
    requires Inv(s) && Quiet(s.c, s.h, t, s'.c, s'.h)
    ensures Inv(s')
  {
    hide SlotOk, ThreadOk;
    QuietSlots(s, t, s');
    forall g | g in s'.c.guards ensures GuardOk(s'.c, g) {
      assert GuardOk(s.c, g);
    }
    ThreadsUpdate(s.c.pcs, t, s'.c.pcs[t], Addings);
    ThreadsUpdate(s.c.pcs, t, s'.c.pcs[t], Removings);
  }

  lemma QuietSlots(s: Sys, t: Tid, s': Sys)
    requires Inv(s) && Quiet(s.c, s.h, t, s'.c, s'.h)
    ensures forall j: u32 :: SlotOk(s'.c, s'.h, j)
    ensures forall u :: u in s'.c.pcs ==> ThreadOk(s'.c, s'.h, u)
  {
    forall j: u32 ensures SlotOk(s'.c, s'.h, j) {
      assert SlotOk(s.c, s.h, j);
      SlotFrame(s.c, s.h, t, s'.c, s'.h, j);
    }
    forall u | u in s'.c.pcs && u != t ensures ThreadOk(s'.c, s'.h, u) {
      assert ThreadOk(s.c, s.h, u);
      forall j: u32 ensures KeptAlike(s.c, s.h, s'.c, s'.h, s.c.pcs[u], j) {
      }
      ThreadFrame(s.c, s.h, t, s'.c, s'.h, u);
    }
  }

  lemma CallAndReturn(c: Conf, h: Hist, t: Tid, pc: PC)
    requires t in c.pcs && t in h.wins && ThreadOk(c, h, t)
    requires c.pcs[t].Idle? || c.pcs[t].Done?
    requires pc.Idle? || exists op :: pc == Begin(op)
    ensures Quiet(c, h, t, Goto(c, t, pc), h)
  {
  }

  lemma LookSteps(c: Conf, h: Hist, t: Tid)
    requires t in c.pcs && t in h.wins && ThreadOk(c, h, t)
    requires InLook(c.pcs[t])
    ensures Quiet(c, h, t, LookStep(c, t, c.pcs[t]), h)
  {
    assert c.pcs == c.pcs[t := c.pcs[t]];
  }

  lemma GetReads(c: Conf, h: Hist, t: Tid, a: Choice)
    requires t in c.pcs && t in h.wins && ThreadOk(c, h, t)
    requires var pc := c.pcs[t];
             || pc.GetRefs?
             || (pc.GetCas? && !(a != Spurious && c.slots[pc.key.idx].refs == pc.seen))
             || (pc.GetVer? && c.slots[pc.key.idx].ver != pc.key.ver)
    ensures Quiet(c, h, t, GetStep(c, t, a, c.pcs[t]), h)
  {
  }

  lemma RemoveReads(c: Conf, h: Hist, t: Tid)
    requires t in c.pcs && t in h.wins && ThreadOk(c, h, t)
    requires var pc := c.pcs[t]; pc.RemVer? || (pc.RemCas? && c.slots[pc.key.idx].ver != pc.cur)
    ensures Quiet(c, h, t, RemoveStep(c, t, c.pcs[t]), h)
  {
  }

  lemma PushReads(c: Conf, h: Hist, t: Tid, a: Choice)
    requires t in c.pcs && t in h.wins && ThreadOk(c, h, t)
    requires var pc := c.pcs[t]; pc.PushLoad? || (pc.PushCas? && !(a != Spurious && c.head == pc.prev))
    ensures Quiet(c, h, t, PushStep(c, t, a, c.pcs[t]), Record(c, h, t, a))
  {
  }

  /** The head names a slot that exists, or nothing. */
  ghost predicate HeadOk(c: Conf, h: Hist) {
    && c.head.tag == h.updates % 0x1_0000_0000
    && (c.head.idx != SENTINEL ==> c.head.idx < c.len && Published(c, c.head.idx))
  }

  lemma HeadExists(s: Sys)
    requires Inv(s)
    ensures HeadOk(s.c, s.h)
    ensures s.c.head.idx != SENTINEL ==> s.h.free != [] && s.c.head.idx == s.h.free[0]
  {
    hide ThreadOk;
    assert SlotOk(s.c, s.h, s.c.head.idx);
  }

  lemma PopReads(c: Conf, h: Hist, t: Tid, a: Choice)
    requires t in c.pcs && t in h.wins && ThreadOk(c, h, t) && HeadOk(c, h)
    requires var pc := c.pcs[t]; pc.PopLoad? || pc.PopNext? || (pc.PopCas? && !(a != Spurious && c.head == pc.prev))
    ensures Quiet(c, h, t, PopStep(c, t, a, c.pcs[t]), Record(c, h, t, a))
  {
    hide Handles, ChunkOf;
    if c.pcs[t].PopLoad? {
      hide NoteFail;
      PopBegins(c, h, t, a);
    } else if c.pcs[t].PopNext? {
      hide NoteFail, NoteStart;
    } else {
      PopFails(c, h, t, a);
    }
  }

  lemma PopBegins(c: Conf, h: Hist, t: Tid, a: Choice)
    requires t in c.pcs && t in h.wins && ThreadOk(c, h, t) && HeadOk(c, h) && c.pcs[t].PopLoad?
    ensures Quiet(c, h, t, PopStep(c, t, a, c.pcs[t]), Record(c, h, t, a))
  {
    hide Handles, ChunkOf;
  }

  lemma PopFails(c: Conf, h: Hist, t: Tid, a: Choice)
    requires t in c.pcs && t in h.wins && ThreadOk(c, h, t) && HeadOk(c, h)
    requires c.pcs[t].PopCas? && !(a != Spurious && c.head == c.pcs[t].prev)
    ensures Quiet(c, h, t, PopStep(c, t, a, c.pcs[t]), Record(c, h, t, a))
  {
    hide Handles, ChunkOf;
  }

  lemma VersionReads(c: Conf, h: Hist, t: Tid, a: Choice)
    requires t in c.pcs && t in h.wins && ThreadOk(c, h, t)
    requires c.pcs[t].InsVer?
    ensures Quiet(c, h, t, InsertStep(c, t, a, c.pcs[t]), h)
  {
    hide ChunkOf;
  }

  lemma ClosureReturns(c: Conf, h: Hist, t: Tid, a: Choice)
    requires t in c.pcs && t in h.wins && ThreadOk(c, h, t)
    requires c.pcs[t].InsCall? && (a.FOk? || a.FErr? || a.FPanic?)
    ensures Quiet(c, h, t, InsertStep(c, t, a, c.pcs[t]), h)
  {
    hide ChunkOf, Handles, Wrap, Accounted, LifeOk, PlaceOk;
  }

  lemma FreshBlock(c: Conf, t: Tid)
    requires ChunksOk(c)
    ensures Block(t, c.serial) !in c.chunks.Values && Block(t, c.serial) !in c.freed
  {
  }

  lemma PushChunkReads(c: Conf, h: Hist, t: Tid)
    requires t in c.pcs && t in h.wins && ThreadOk(c, h, t)
    requires Block(t, c.serial) !in c.chunks.Values && Block(t, c.serial) !in c.freed
    requires c.pcs[t].InsChunk?
    ensures Quiet(c, h, t, VecStep(c, t, c.pcs[t]), h)
  {
    hide ChunkOf;
  }

  lemma ReserveReads(c: Conf, h: Hist, t: Tid)
    requires t in c.pcs && t in h.wins && ThreadOk(c, h, t)
    requires Block(t, c.serial) !in c.chunks.Values && Block(t, c.serial) !in c.freed
    requires c.pcs[t].ResChunk?
    ensures Quiet(c, h, t, VecStep(c, t, c.pcs[t]), h)
  {
    hide ChunkOf;
  }
}
