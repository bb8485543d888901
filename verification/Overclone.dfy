/** A run in which a guard is cloned once too often, and what becomes of its slot's count. */
module Overclone {
  import opened Machine
  import opened Location
  import opened Protocol
  import opened Invariant
  import opened Trips

  /** One push, no pop out of bounds, and one clone of a guard whose slot's count is at its last value. */
  const ONE_MORE: Bounds := Bounds({}, 1, 1)

  /** How many of the references beyond the limit are leaked counts, if all came from clones. */
  function Excess(n: nat): nat {
    if n > 0xFFFF_FF01 then n - 0xFFFF_FF01 else 0
  }

  /** Slot 0 holds a value under the first key, referenced `n` times, once by guard 0. */
  ghost predicate Cloned(r: Trip, n: nat) {
    && Ready(r, 1) && r.b == ONE_MORE && (forall t :: t in r.now.c.pcs ==> r.now.c.pcs[t] == Idle)
    && r.now.c.len == 1 && ChunkOf(0) in r.now.c.chunks
    && r.now.c.slots[0].ver == 1 && r.now.c.slots[0].data == Live(7) && r.now.c.slots[0].refs == n % 0x1_0000_0000
    && (forall i: u32 :: r.now.h.logs[i].leaks == if i == 0 then Excess(n) else 0)
    && r.now.h.wraps == n / 0x1_0000_0000
    && 0 in r.now.c.guards && r.now.c.guards[0] == Guard(FIRST, 7) && r.now.c.nextGid > 0
  }

  lemma CloneNotes(c: Conf, h: Hist, t: Tid, g: Gid)
    requires t in c.pcs && t in h.wins && c.pcs[t] == Idle && g in c.guards
    ensures var h', i := Record(c, h, t, CloneGuard(g)), c.guards[g].key.idx;
            && h'.pushed == h.pushed && h'.wins == h.wins && h'.updates == h.updates
            && h'.wraps == h.wraps + Bit(c.slots[i].refs == 0xFFFF_FFFF)
            && forall j: u32 :: h'.logs[j].leaks == h.logs[j].leaks + Bit(j == i && c.slots[i].refs > MAX_REFCOUNT)
  {
  }

  lemma CloneOne(r: Trip, n: nat) returns (r': Trip)
    requires Cloned(r, n) && 1 < n < 0x1_0000_0000
    ensures Cloned(r', n + 1)
  {
    hide Sound, Further, ChunkOf, Next, Record;
    ReadyThreads(r, 1);
    SoundThreads(r);
    CloneNotes(r.now.c, r.now.h, 1, 0);
    CloneMoves(r.now.c);
    r' := Go(r, 1, CloneGuard(0));
  }

  lemma CloneMoves(c: Conf)
    requires 1 in c.pcs && c.pcs[1] == Idle && 0 in c.guards && c.guards[0].key.idx == 0 && c.nextGid > 0
    ensures var c' := Next(c, 1, CloneGuard(0));
            && c'.pcs == c.pcs && c'.len == c.len && c'.chunks == c.chunks && c'.nextGid >= c.nextGid
            && c'.slots[0] == c.slots[0].(refs := Wrap(c.slots[0].refs + 1))
            && 0 in c'.guards && c'.guards[0] == c.guards[0]
  {
    hide GetStep, RemoveStep, PushStep, PopStep, InsertStep, VecStep, LookStep;
  }

  lemma {:induction false} CloneMany(r: Trip, n: nat, k: nat) returns (r': Trip)
    requires Cloned(r, n) && 1 < n && n + k <= 0x1_0000_0000
    ensures Cloned(r', n + k)
  {
    hide Cloned;
    r' := r;
    if k > 0 {
      r' := CloneMany(r, n, k - 1);
      r' := CloneOne(r', n + k - 1);
    }
  }

  /** A `get` of the first key makes guard 0. */
  lemma FirstGuard() returns (r: Trip)
    ensures Cloned(r, 2)
  {
    hide Sound, Further, ChunkOf;
    r := Inserted7();
    var r1 := Locate(r, 1, ForGet, FIRST);
    var r2 := GetOne(r1, 1);
    var r3 := GetOne(r2, 1);
    var r4 := GetOne(r3, 1);
    r := CallOne(r4, 1, Get(FIRST));
  }

  lemma Inserted7() returns (r: Trip)
    ensures Ready(r, 1) && r.b == ONE_MORE && r.now.c.guards == map[] && r.now.c.nextGid == 0
    ensures r.now.c.pcs == map[0 := Idle, 1 := Idle, 2 := Idle, 3 := Idle]
    ensures r.now.c.len == 1 && ChunkOf(0) in r.now.c.chunks
    ensures r.now.c.slots[0].ver == 1 && r.now.c.slots[0].data == Live(7) && r.now.c.slots[0].refs == 1
    ensures r.now.h.wraps == 0 && forall i: u32 :: r.now.h.logs[i].leaks == 0
  {
    hide Sound, Further, ChunkOf, Init;
    r := Begin4(ONE_MORE);
    AtFirst(r);
    r := TakeNew(r, 1);
    r := Complete(r, 1, 7);
  }

  lemma AtFirst(r: Trip)
    requires Sound(r) && Init(r.now)
    ensures r.now.h.pushed == r.now.c.len == 0 && r.now.c.head.idx == SENTINEL && r.now.c.guards == map[]
    ensures r.now.h.wraps == 0 && forall i: u32 :: r.now.h.logs[i].leaks == 0
  {
  }

  /**
   * The bound on clones is sharp. With one clone of a guard whose slot counts 2^32 - 1 references, the 255th that
   * panics there, and within every other bound, the count of a value that is in the map and held by a guard comes
   * to be zero, and a `get` of its key misses.
   */
  lemma CountWraps() returns (r: Trip, r': Trip)
    ensures Sound(r) && r.b == ONE_MORE && r.now.h.logs[0].leaks == 255 && r.now.h.wraps == 1
    ensures r.now.c.slots[0].refs == 0 && Maps(r.now.c, FIRST, 7)
    ensures 0 in r.now.c.guards && r.now.c.guards[0] == Guard(FIRST, 7)
    ensures 2 in r.now.c.pcs && r.now.c.pcs[2] == Idle
    ensures Sound(r') && r'.b == ONE_MORE && Further(r, r') && Maps(r'.now.c, FIRST, 7)
    ensures 2 in r'.now.c.pcs && r'.now.c.pcs[2] == Done(Get(FIRST), NotFound)
  {
    hide Cloned, Sound, Further, Maps;
    r := FirstGuard();
    r := CloneMany(r, 2, 0xFFFF_FFFE);
    r' := MissAfter(r);
  }

  lemma MissAfter(r: Trip) returns (r': Trip)
    requires Cloned(r, 0x1_0000_0000)
    ensures Sound(r) && r.b == ONE_MORE && r.now.h.logs[0].leaks == 255 && r.now.h.wraps == 1
    ensures r.now.c.slots[0].refs == 0 && Maps(r.now.c, FIRST, 7)
    ensures 0 in r.now.c.guards && r.now.c.guards[0] == Guard(FIRST, 7)
    ensures 2 in r.now.c.pcs && r.now.c.pcs[2] == Idle
    ensures Sound(r') && r'.b == ONE_MORE && Further(r, r') && Maps(r'.now.c, FIRST, 7)
    ensures 2 in r'.now.c.pcs && r'.now.c.pcs[2] == Done(Get(FIRST), NotFound)
  {
    hide Sound, Further, Maps, ChunkOf;
    MapsWhen(r.now.c, FIRST, 7);
    ReadyThreads(r, 1);
    var r1 := Locate(r, 2, ForGet, FIRST);
    r' := GetOne(r1, 2);
    FurtherOn(r, r1, r');
    MapsWhen(r'.now.c, FIRST, 7);
  }
}
