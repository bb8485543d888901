/** A bounded run in which an old key comes to name a new value. */
module Reuse {
  import opened Machine
  import opened Location
  import opened Protocol
  import opened Trips
  import L = Linearizability

  /** Between calls: slot 0 is the only slot, is free, and has version `ver`. */
  ghost predicate Vacant(r: Trip, ver: u32) {
    && Ready(r, 1) && r.b == RELIED && r.now.c.pcs[1] == Idle
    && r.now.c.len == 1 && ChunkOf(0) in r.now.c.chunks && r.now.c.head.idx == 0
    && r.now.c.slots[0].ver == ver && ver % 2 == 0
  }

  /** Between calls: slot 0 is the only slot, and holds `value` under the odd version `ver`. */
  ghost predicate Taken(r: Trip, ver: u32, value: Value) {
    && Ready(r, 1) && r.b == RELIED && r.now.c.pcs[1] == Idle
    && r.now.c.len == 1 && ChunkOf(0) in r.now.c.chunks
    && r.now.c.slots[0].ver == ver && ver % 2 == 1 && r.now.c.slots[0].refs == 1 && r.now.c.slots[0].data == Live(value)
  }

  lemma PutIn(r: Trip, ver: u32, value: Value) returns (r': Trip)
    requires Vacant(r, ver)
    ensures Taken(r', ver + 1, value) && Further(r, r')
  {
    hide Sound, Further, ChunkOf, Wrap;
    var r1 := Take(r, 1);
    r' := Complete(r1, 1, value);
    FurtherOn(r, r1, r');
  }

  lemma PullOut(r: Trip, ver: u32, value: Value) returns (r': Trip)
    requires Taken(r, ver, value)
    ensures Vacant(r', Wrap(ver + 1)) && Further(r, r')
  {
    hide Sound, Further, ChunkOf;
    r' := TakeOut(r, 1, RawKey(0, ver));
  }

  /** After `k` rounds of an insert and a remove the version has gone up by twice as much. */
  lemma {:induction false} Rounds(r: Trip, ver: u32, k: nat) returns (r': Trip)
    requires Vacant(r, ver)
    ensures Vacant(r', Wrap(ver + 2 * k)) && Further(r, r')
  {
    hide Vacant, Taken;
    r' := r;
    if k == 0 {
      Stays(r);
    } else {
      hide Further;
      var r1 := Rounds(r, ver, k - 1);
      EvenVersion(r1, Wrap(ver + 2 * (k - 1)));
      var r2 := PutIn(r1, Wrap(ver + 2 * (k - 1)), 0);
      r' := PullOut(r2, Wrap(ver + 2 * (k - 1)) + 1, 0);
      FurtherOn(r, r1, r2);
      FurtherOn(r, r2, r');
    }
  }

  lemma Stays(r: Trip)
    ensures Further(r, r)
  {
  }

  lemma EvenVersion(r: Trip, ver: u32)
    requires Vacant(r, ver)
    ensures ver < 0xFFFF_FFFF
  {
    hide Ready, ChunkOf;
  }

  lemma FirstInsert() returns (r: Trip)
    ensures Taken(r, 1, 1)
  {
    hide Sound, Init, ChunkOf, Further;
    r := Begin4(RELIED);
    AtFirst(r);
    r := TakeNew(r, 1);
    r := Complete(r, 1, 1);
  }

  lemma AtFirst(r: Trip)
    requires Sound(r) && Init(r.now)
    ensures r.now.h.pushed == r.now.c.len == 0 && r.now.c.head.idx == SENTINEL
  {
  }

  lemma TakenMaps(r: Trip, value: Value)
    requires Taken(r, 1, value)
    ensures Maps(r.now.c, FIRST, value) && FIRST in L.Contents(r.now.c.slots)
    ensures Sound(r) && r.b == RELIED && |r.states| == |r.moves| + 1 && r.states[|r.moves|] == r.now
    ensures IsTrip(r.states, r.moves, RELIED)
  {
    hide Within, Step, Init, ChunkOf, L.Contents;
    MapsWhen(r.now.c, FIRST, value);
  }

  lemma VacantMaps(r: Trip, ver: u32)
    requires Vacant(r, ver)
    ensures FIRST !in L.Contents(r.now.c.slots) && Sound(r)
  {
    hide Sound, ChunkOf, L.Contents;
    L.InContents(r.now.c.slots, FIRST);
  }

  lemma Earlier(r: Trip, r': Trip)
    requires Sound(r) && Sound(r') && Further(r, r')
    ensures |r.moves| < |r'.states| && r'.states[|r.moves|] == r.now && |r.moves| <= |r'.moves|
  {
    hide Step, Init, Within;
  }

  /**
   * Keys are unique only so far. A bounded run in which the first key names a value, is removed, and, after
   * 2^31 - 1 further inserts and removes, names a value of a new insert.
   */
  lemma KeyComesBack() returns (states: seq<Sys>, moves: seq<Move>, n: nat, j: nat, m: nat)
    ensures IsRun(states, moves) && n < j < m < |states|
    ensures Maps(states[n].c, FIRST, 1) && FIRST !in L.Contents(states[j].c.slots) && Maps(states[m].c, FIRST, 2)
  {
    hide Vacant, Taken, Further, Maps, L.Contents, Sound, IsTrip, IsRun;
    var first := FirstInsert();
    var gone := PullOut(first, 1, 1);
    var round := Rounds(gone, 2, 0x7FFF_FFFF);
    var again := PutIn(round, 0, 2);
    TakenMaps(first, 1);
    VacantMaps(gone, 2);
    TakenMaps(again, 2);
    FurtherOn(gone, round, again);
    FurtherOn(first, gone, again);
    Earlier(first, again);
    Earlier(gone, again);
    Earlier(first, gone);
    states, moves := again.states, again.moves;
    n, j, m := |first.moves|, |gone.moves|, |again.moves|;
    TripIsRun(states, moves);
  }
}
