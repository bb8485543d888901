/** Keys: which versions inserts hand out, and when an old key can name a new value. */
module Keys {
  import opened Machine
  import opened Location
  import opened Protocol
  import opened Invariant
  import opened Touching

  const HALF: int := 0x8000_0000

  lemma SameVersion(r1: nat, r2: nat)
    ensures (2 * r1 + 1) % 0x1_0000_0000 == (2 * r2 + 1) % 0x1_0000_0000 <==> (r1 - r2) % 0x8000_0000 == 0
  {
    if (r1 - r2) % 0x8000_0000 == 0 {
      var q := (r1 - r2) / 0x8000_0000;
      assert 2 * r1 + 1 == 2 * r2 + 1 + q * 0x1_0000_0000;
    }
    if (2 * r1 + 1) % 0x1_0000_0000 == (2 * r2 + 1) % 0x1_0000_0000 {
      var q := (2 * r1 + 1) / 0x1_0000_0000 - (2 * r2 + 1) / 0x1_0000_0000;
      assert r1 - r2 == q * 0x8000_0000;
    }
  }

  lemma VersionOf(s: Sys, i: u32)
    requires Inv(s)
    ensures s.c.slots[i].ver == (2 * s.h.logs[i].removed + Bit(Odd(s.c.slots[i].ver))) % 0x1_0000_0000
  {
    hide ThreadOk, GuardOk, ChainOk, ChunksOk, CountOk, Accounted, PlaceOk;
    assert SlotOk(s.c, s.h, i);
  }

  /** The key an insert shows its closure, and later publishes, is one past twice the removals so far. */
  lemma OfferedKey(s: Sys, t: Tid)
    requires Inv(s) && t in s.c.pcs
    requires s.c.pcs[t].InsCall? || s.c.pcs[t].InsWrite? || s.c.pcs[t].InsRefs? || s.c.pcs[t].InsPub?
    ensures var key := s.c.pcs[t].key;
            key.ver == (2 * s.h.logs[key.idx].removed + 1) % 0x1_0000_0000
  {
    hide Inv, SlotOk, ThreadOk;
    var key := s.c.pcs[t].key;
    At(s, t, key.idx);
    KeeperFacts(s.c, s.h, t, key.idx);
    OfferedVersion(s.c, s.h, t);
    VersionOf(s, key.idx);
  }

  lemma OfferedVersion(c: Conf, h: Hist, t: Tid)
    requires t in c.pcs && t in h.wins && ThreadOk(c, h, t)
    ensures c.pcs[t].InsCall? || c.pcs[t].InsWrite? || c.pcs[t].InsRefs? || c.pcs[t].InsPub? ==>
              c.pcs[t].key.ver == c.slots[c.pcs[t].key.idx].ver + 1
  {
    hide ChunkOf;
  }

  /** Two inserts into one slot publish the same key exactly when the removals before them differ by
      a multiple of 2^31. */
  lemma KeyFreshness(states: seq<Sys>, moves: seq<Move>, n: nat, t: Tid, m: nat, u: Tid)
    requires IsRun(states, moves) && n < |states| && m < |states|
    requires t in states[n].c.pcs && states[n].c.pcs[t].InsPub?
    requires u in states[m].c.pcs && states[m].c.pcs[u].InsPub?
    requires states[n].c.pcs[t].key.idx == states[m].c.pcs[u].key.idx
    ensures var i := states[n].c.pcs[t].key.idx;
            states[n].c.pcs[t].key == states[m].c.pcs[u].key
            <==> (states[n].h.logs[i].removed - states[m].h.logs[i].removed) % 0x8000_0000 == 0
  {
    hide IsRun, Inv;
    Reachable(states, moves, n);
    Reachable(states, moves, m);
    OfferedKey(states[n], t);
    OfferedKey(states[m], u);
    var i := states[n].c.pcs[t].key.idx;
    SameVersion(states[n].h.logs[i].removed, states[m].h.logs[i].removed);
  }

  /** A key names an occupied slot. */
  predicate Names(c: Conf, key: Key) {
    c.slots[key.idx].ver == key.ver
  }

  lemma RemovedStep(c: Conf, h: Hist, t: Tid, a: Choice, i: u32)
    requires t in c.pcs && t in h.wins
    ensures h.logs[i].removed <= Record(c, h, t, a).logs[i].removed <= h.logs[i].removed + 1
  {
  }

  lemma {:induction false} RemovedGrows(states: seq<Sys>, moves: seq<Move>, i: u32, n: nat, m: nat)
    requires IsRun(states, moves) && n <= m < |states|
    ensures states[n].h.logs[i].removed <= states[m].h.logs[i].removed
    decreases m - n
  {
    hide Bounded, Next, Record;
    if n < m {
      RemovedGrows(states, moves, i, n, m - 1);
      var move := moves[m - 1];
      assert Step(states[m - 1], move.t, move.a, states[m]);
      RemovedStep(states[m - 1].c, states[m - 1].h, move.t, move.a, i);
    }
  }

  /**
   * A key that named a value at some moment names one at a later moment exactly when the slot is
   * occupied then and the removals in between are a multiple of 2^31: none, as long as no fewer than
   * 2^31 happened. So a removed key is rejected until 2^31 removals of its slot later.
   */
  lemma RemovedKeyStaysGone(states: seq<Sys>, moves: seq<Move>, key: Key, n: nat, m: nat)
    requires IsRun(states, moves) && n <= m < |states| && Names(states[n].c, key)
    ensures var removals := states[m].h.logs[key.idx].removed - states[n].h.logs[key.idx].removed;
            && removals >= 0
            && (Names(states[m].c, key) <==> Odd(states[m].c.slots[key.idx].ver) && removals % 0x8000_0000 == 0)
            && (0 < removals < HALF ==> !Names(states[m].c, key))
  {
    hide IsRun, Inv;
    Reachable(states, moves, n);
    Reachable(states, moves, m);
    RemovedGrows(states, moves, key.idx, n, m);
    VersionOf(states[n], key.idx);
    VersionOf(states[m], key.idx);
    SameVersion(states[m].h.logs[key.idx].removed, states[n].h.logs[key.idx].removed);
  }
}
