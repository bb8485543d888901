/** `LossyIter` as one thread runs it, with nobody else at work. */
module Iter {
  import opened Machine
  import opened Protocol
  import opened Invariant
  import opened Alone
  import opened SlotMap
  import L = Linearizability

  /** No key has an index in `[from, to)`. */
  ghost predicate NoneIn(contents: map<Key, Value>, from: nat, to: nat) {
    forall key :: key in contents ==> !(from <= key.idx < to)
  }

  /** What `next` answers on a map that holds `contents`, moving its index from `from` to `idx`: the next key in
      the order of indices, with one more guard on its value; or that no key is left; or that the next key
      has too many references. */
  ghost predicate Answers(
    r: Getting, home: AtomicSlotMap, contents: map<Key, Value>, was: map<Gid, Guard>, now: map<Gid, Guard>, from: nat, idx: nat)
  {
    match r
    case Guarded(guard) =>
      && guard.home == home && guard.key in contents && guard.gid !in was
      && now == was[guard.gid := Guard(guard.key, contents[guard.key])]
      && from <= guard.key.idx && idx == guard.key.idx + 1 && NoneIn(contents, from, guard.key.idx)
    case Missing => now == was && NoneIn(contents, from, WORD)
    case TooMany =>
      now == was && exists key :: key in contents && from <= key.idx && idx == key.idx + 1 && NoneIn(contents, from, key.idx)
  }

  class LossyIter {
    const home: AtomicSlotMap
    var currentIdx: u32

    constructor New(home: AtomicSlotMap)
      ensures this.home == home && currentIdx == 0
    {
      this.home, currentIdx := home, 0;
    }

    /** `next`: a guard on the key with the smallest index not yet passed, or the end. */
    method Next(spurious: nat) returns (r: Getting)
      requires home.Valid() && this !in home.vec.repr
      modifies this, home`sys, home.vec.repr
      ensures home.Valid() && home.vec.repr == old(home.vec.repr)
      ensures home.Contents() == old(home.Contents()) && home.NextSlot() == old(home.NextSlot())
      ensures Answers(r, home, home.Contents(), old(home.Held()), home.Held(), old(currentIdx), currentIdx)
      ensures r.Guarded? ==> fresh(r.guard)
      ensures home.Leaked() == old(home.Leaked())
      ensures forall i: u32 :: home.References(i) == old(home.References(i)) + Bit(r.Guarded? && i == r.guard.key.idx)
      ensures r.TooMany? ==> currentIdx > 0 && home.References(currentIdx - 1) > MAX_REFCOUNT
      ensures r.Guarded? ==> home.References(r.guard.key.idx) <= MAX_REFCOUNT + 1
    {
      hide Inv, Solo, L.Contents, NextKey, Alone.References, AtomicSlotMap.SlotsMatch;
      while true
        invariant home.Valid() && home.vec.repr == old(home.vec.repr)
        invariant home.Contents() == old(home.Contents()) && home.NextSlot() == old(home.NextSlot())
        invariant home.Held() == old(home.Held()) && home.Leaked() == old(home.Leaked())
        invariant forall i: u32 :: home.References(i) == old(home.References(i))
        invariant old(currentIdx) <= currentIdx && NoneIn(home.Contents(), old(currentIdx), currentIdx)
        decreases home.vec.len - currentIdx
      {
        var idx := currentIdx;
        home.SlotExists(idx);
        if idx >= home.vec.len {
          NothingBeyond();
          return Missing;
        }
        currentIdx := idx + 1;
        KeysAt(idx);
        var slot := home.vec.Get(idx);
        if slot.Some? && slot.value.version % 2 != 0 {
          var key: Key := RawKey(idx, slot.value.version);
          r := home.Get(key, spurious);
          if !r.Missing? {
            return;
          }
        }
      }
    }

    lemma KeysAt(idx: u32)
      ensures forall key :: key in home.Contents() && key.idx == idx ==> key.ver == home.sys.c.slots[idx].ver
      ensures var ver := home.sys.c.slots[idx].ver; Odd(ver) ==> RawKey(idx, ver) in home.Contents()
    {
      hide L.Contents;
      forall key: Key ensures key in home.Contents() <==> home.sys.c.slots[key.idx].ver == key.ver {
        L.InContents(home.sys.c.slots, key);
      }
    }

    lemma NothingBeyond()
      requires home.Valid()
      ensures forall key :: key in home.Contents() ==> key.idx < home.vec.len
    {
      hide Inv, Solo, L.Contents, AtomicSlotMap.SlotsMatch;
      forall key | key in home.Contents() ensures key.idx < home.vec.len {
        KeysAt(key.idx);
        home.SlotExists(key.idx);
      }
    }
  }

  /** An index is in one key at most. */
  ghost predicate OnePerIndex(contents: map<Key, Value>) {
    forall a, b :: a in contents && b in contents && a.idx == b.idx ==> a == b
  }

  lemma KeysDiffer(slots: Slots)
    ensures OnePerIndex(L.Contents(slots))
  {
    hide L.Contents;
    forall a, b | a in L.Contents(slots) && b in L.Contents(slots) && a.idx == b.idx ensures a == b {
      L.InContents(slots, a);
      L.InContents(slots, b);
    }
  }

  /** Each guard is on a key below `upTo` and on its value, in ascending order of indices. */
  ghost predicate Ascending(guards: seq<SlotGuard>, contents: map<Key, Value>, held: map<Gid, Guard>, upTo: nat) {
    && (forall i, j :: 0 <= i < j < |guards| ==> guards[i].key.idx < guards[j].key.idx)
    && (forall i :: 0 <= i < |guards| ==>
          && guards[i].key in contents && guards[i].key.idx < upTo
          && guards[i].gid in held && held[guards[i].gid] == Guard(guards[i].key, contents[guards[i].key]))
  }

  /** Each key below `upTo` has a guard. */
  ghost predicate Complete(guards: seq<SlotGuard>, contents: map<Key, Value>, upTo: nat) {
    forall key :: key in contents && key.idx < upTo ==> exists i :: 0 <= i < |guards| && guards[i].key == key
  }

  ghost predicate Walked(guards: seq<SlotGuard>, contents: map<Key, Value>, held: map<Gid, Guard>, upTo: nat) {
    Ascending(guards, contents, held, upTo) && Complete(guards, contents, upTo)
  }

  lemma CompleteOne(guards: seq<SlotGuard>, guard: SlotGuard, contents: map<Key, Value>, from: nat)
    requires Complete(guards, contents, from) && OnePerIndex(contents)
    requires guard.key in contents && NoneIn(contents, from, guard.key.idx)
    ensures Complete(guards + [guard], contents, guard.key.idx + 1)
  {
    var longer := guards + [guard];
    forall key | key in contents && key.idx < guard.key.idx + 1 ensures exists i :: 0 <= i < |longer| && longer[i].key == key {
      if key.idx < from {
        var i :| 0 <= i < |guards| && guards[i].key == key;
        assert longer[i].key == key;
      } else {
        assert longer[|guards|].key == key;
      }
    }
  }

  lemma AscendingOne(
    guards: seq<SlotGuard>, guard: SlotGuard, contents: map<Key, Value>, was: map<Gid, Guard>, now: map<Gid, Guard>, from: nat)
    requires Ascending(guards, contents, was, from) && from <= guard.key.idx
    requires guard.key in contents && guard.gid !in was && now == was[guard.gid := Guard(guard.key, contents[guard.key])]
    ensures Ascending(guards + [guard], contents, now, guard.key.idx + 1)
  {
  }

  lemma WalkOne(
    guards: seq<SlotGuard>, r: Getting, home: AtomicSlotMap, contents: map<Key, Value>,
    was: map<Gid, Guard>, now: map<Gid, Guard>, from: nat, idx: nat)
    requires Walked(guards, contents, was, from) && OnePerIndex(contents) && from <= WORD
    requires Answers(r, home, contents, was, now, from, idx)
    ensures r.Guarded? ==> Walked(guards + [r.guard], contents, now, idx) && from < idx
    ensures !r.Guarded? ==> now == was
    ensures r.Missing? ==> Walked(guards, contents, now, WORD)
    ensures r.TooMany? ==> idx > 0 && Walked(guards, contents, now, idx - 1) && exists key :: key in contents && key.idx == idx - 1
  {
    hide OnePerIndex, Complete, Ascending, NoneIn;
    if r.Guarded? {
      AscendingOne(guards, r.guard, contents, was, now, from);
      CompleteOne(guards, r.guard, contents, from);
    } else {
      WalkWider(guards, contents, was, from, if r.Missing? then WORD else idx - 1);
    }
  }

  lemma WalkWider(guards: seq<SlotGuard>, contents: map<Key, Value>, held: map<Gid, Guard>, from: nat, to: nat)
    requires Walked(guards, contents, held, from) && NoneIn(contents, from, to) && from <= to
    ensures Walked(guards, contents, held, to)
  {
    hide Ascending;
    assert Ascending(guards, contents, held, to) by { AscendingWider(guards, contents, held, from, to); }
  }

  lemma AscendingWider(guards: seq<SlotGuard>, contents: map<Key, Value>, held: map<Gid, Guard>, from: nat, to: nat)
    requires Ascending(guards, contents, held, from) && from <= to
    ensures Ascending(guards, contents, held, to)
  {
  }

  /** The guards held now are those held before and these. */
  ghost predicate Gained(guards: seq<SlotGuard>, was: map<Gid, Guard>, now: map<Gid, Guard>) {
    && (forall g :: g in was ==> g in now && now[g] == was[g])
    && (forall g :: g in now && g !in was ==> exists i :: 0 <= i < |guards| && guards[i].gid == g)
  }

  lemma GainedOne(guards: seq<SlotGuard>, guard: SlotGuard, was: map<Gid, Guard>, now: map<Gid, Guard>, on: Guard)
    requires Gained(guards, was, now) && guard.gid !in now
    ensures Gained(guards + [guard], was, now[guard.gid := on])
  {
    var longer := guards + [guard];
    forall g | g in now[guard.gid := on] && g !in was ensures exists i :: 0 <= i < |longer| && longer[i].gid == g {
      if g == guard.gid {
        assert longer[|guards|].gid == g;
      } else {
        var i :| 0 <= i < |guards| && guards[i].gid == g;
        assert longer[i].gid == g;
      }
    }
  }

  lemma GainedBy(
    guards: seq<SlotGuard>, r: Getting, home: AtomicSlotMap, contents: map<Key, Value>,
    first: map<Gid, Guard>, was: map<Gid, Guard>, now: map<Gid, Guard>, from: nat, idx: nat)
    requires Answers(r, home, contents, was, now, from, idx) && Gained(guards, first, was)
    ensures Gained(if r.Guarded? then guards + [r.guard] else guards, first, now)
  {
    hide NoneIn, Gained;
    if r.Guarded? {
      GainedOne(guards, r.guard, first, was, Guard(r.guard.key, contents[r.guard.key]));
    }
  }

  /** Only the key just passed, if any, has an index from `from` to before `idx`. */
  lemma KeysPassed(r: Getting, home: AtomicSlotMap, contents: map<Key, Value>, was: map<Gid, Guard>, now: map<Gid, Guard>, from: nat, idx: nat)
    requires Answers(r, home, contents, was, now, from, idx) && OnePerIndex(contents)
    ensures r.Guarded? ==> idx == r.guard.key.idx + 1 && forall key :: key in contents && from <= key.idx < idx ==> key == r.guard.key
    ensures r.Missing? ==> forall key :: key in contents ==> key.idx < from
    ensures r.TooMany? ==> forall key :: key in contents && from <= key.idx < idx ==> key.idx == idx - 1
    ensures !r.Missing? ==> from < idx
  {
  }

  /** A loop over a new iterator: every key once, in ascending order of indices, each with one new guard on its
      value. It panics exactly if some key has too many references, having yielded all keys before the first one. */
  method Collect(home: AtomicSlotMap, spurious: nat) returns (guards: seq<SlotGuard>, panicked: bool)
    requires home.Valid()
    modifies home`sys, home.vec.repr
    ensures home.Valid() && home.Contents() == old(home.Contents()) && home.NextSlot() == old(home.NextSlot())
    ensures home.Leaked() == old(home.Leaked()) && Gained(guards, old(home.Held()), home.Held())
    ensures panicked <==> exists key :: key in home.Contents() && old(home.References(key.idx)) > MAX_REFCOUNT
    ensures !panicked ==> Walked(guards, home.Contents(), home.Held(), WORD)
    ensures panicked ==> exists key ::
              && key in home.Contents() && old(home.References(key.idx)) > MAX_REFCOUNT
              && Walked(guards, home.Contents(), home.Held(), key.idx)
              && forall other :: other in home.Contents() && other.idx < key.idx ==> old(home.References(other.idx)) <= MAX_REFCOUNT
  {
    hide Inv, Solo, L.Contents, NextKey, Alone.References, AtomicSlotMap.SlotsMatch, Walked, Answers, OnePerIndex, Ascending, Complete, Gained;
    var walk := new LossyIter.New(home);
    guards := [];
    KeysDiffer(home.sys.c.slots);
    WalkNone(home.Contents(), home.Held());
    while true
      invariant home.Valid() && home.Contents() == old(home.Contents()) && fresh(walk) && walk.home == home
      invariant home.vec.repr == old(home.vec.repr) && home.NextSlot() == old(home.NextSlot())
      invariant home.Leaked() == old(home.Leaked()) && Gained(guards, old(home.Held()), home.Held())
      invariant Walked(guards, home.Contents(), home.Held(), walk.currentIdx)
      invariant forall i: u32 :: i >= walk.currentIdx ==> home.References(i) == old(home.References(i))
      invariant forall key :: key in home.Contents() && key.idx < walk.currentIdx ==> old(home.References(key.idx)) <= MAX_REFCOUNT
      decreases WORD - walk.currentIdx
    {
      ghost var was, from := home.Held(), walk.currentIdx;
      var r := walk.Next(spurious);
      WalkOne(guards, r, home, home.Contents(), was, home.Held(), from, walk.currentIdx);
      GainedBy(guards, r, home, home.Contents(), old(home.Held()), was, home.Held(), from, walk.currentIdx);
      KeysPassed(r, home, home.Contents(), was, home.Held(), from, walk.currentIdx);
      if !r.Guarded? {
        return guards, r.TooMany?;
      }
      guards := guards + [r.guard];
    }
  }

  lemma WalkNone(contents: map<Key, Value>, held: map<Gid, Guard>)
    ensures Walked([], contents, held, 0) && Gained([], held, held)
  {
  }
}
