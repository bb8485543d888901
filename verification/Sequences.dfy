/** Any sequence of calls by one thread, against a plain map and a bag of held values. */
module Sequences {
  import opened Machine
  import opened Protocol
  import opened Invariant
  import opened Alone
  import opened SlotMap
  import L = Linearizability

  // --------------------------------------------------------------------------------------------
  // The plain map and the bag
  // --------------------------------------------------------------------------------------------

  /** Calls on the map, and on the guards by the order in which they were handed out. */
  datatype Command =
    | Put(f: Key -> Outcome)
    | Take(key: Key)
    | Find(key: Key)
    | Has(key: Key)
    | Size
    | Look(n: nat)
    | Copy(n: nat)
    | Free(n: nat)

  datatype Answer =
    | Tried(result: Inserting)
    | Took(was: bool)
    | Saw(value: Option<Value>)
    | Told(yes: bool)
    | Counted(n: nat)
    | Copied
    | Freed
    | Skipped
    | Crowded

  /** A map, the values held, the counts leaked, the keys of the free slots as a stack, and how many slots there
      are. Nothing else decides what a call answers. */
  datatype Model = Model(m: map<Key, Value>, held: seq<Option<Guard>>, leaks: seq<nat>, free: seq<Key>, len: u32)

  predicate Usable(x: Model) {
    |x.leaks| == 0x1_0000_0000
  }

  /** How many held values are on slot `i`. */
  function Uses(held: seq<Option<Guard>>, i: u32): nat {
    if held == [] then 0
    else
      var last := held[|held| - 1];
      Uses(held[..|held| - 1], i) + Bit(last.Some? && last.value.key.idx == i)
  }

  /** How many references slot `i` has. */
  ghost function Refs(x: Model, i: u32): nat
    requires Usable(x)
  {
    Bit(Occupied(x.m, i)) + Uses(x.held, i) + x.leaks[i]
  }

  /** The key of the next insert: the top of the stack, or the first of a new slot. */
  function NextOf(x: Model): Key {
    if x.free == [] then RawKey(x.len, 1) else x.free[0]
  }

  /** The next key is taken. */
  function Advanced(x: Model): Model {
    x.(free := Rest(x.free), len := if x.free == [] then Wrap(x.len + 1) else x.len)
  }

  /** The slot a reference was given up on goes on the stack, under its next version, if that was the last. */
  ghost function Recycled(x: Model, key: Key): Model
    requires Usable(x)
  {
    if Refs(x, key.idx) == 0 then x.(free := [RawKey(key.idx, Wrap(key.ver + 2))] + x.free) else x
  }

  predicate Holds(x: Model, n: nat) {
    n < |x.held| && x.held[n].Some?
  }

  /** The closure is called on the next key, which is new and on a slot nothing refers to. */
  ghost predicate PutAs(x: Model, f: Key -> Outcome, r: Answer, x': Model)
    requires Usable(x)
  {
    var key := NextOf(x);
    && Refs(x, key.idx) == 0 && key.idx != SENTINEL && key !in x.m
    && match f(key)
       case Made(value) => r == Tried(Stored(key)) && x' == Advanced(x).(m := x.m[key := value])
       case Declined(error) => r == Tried(Failed(error)) && x' == Advanced(x).(free := [key] + Rest(x.free))
  }

  /** The command is beyond what the map can do: an insert when no slot is free and all indices were handed out, or
      a copy of a guard on a slot with 2^32 - 1 references. */
  ghost predicate Stops(x: Model, op: Command)
    requires Usable(x)
  {
    || (op.Put? && x.free == [] && x.len == 0xFFFF_FFFF)
    || (op.Copy? && Holds(x, op.n) && Refs(x, x.held[op.n].value.key.idx) == 0xFFFF_FFFF)
  }

  /** What a command answers, and does to the plain map and the bag. */
  ghost predicate Agrees(x: Model, op: Command, r: Answer, x': Model) {
    Usable(x) && match op
    case Put(f) => PutAs(x, f, r, x')
    case Take(key) =>
      && r == Took(key in x.m)
      && x' == if key in x.m then Recycled(x.(m := x.m - {key}), key) else x
    case Find(key) =>
      if Refs(x, key.idx) > MAX_REFCOUNT then r == Crowded && x' == x
      else if key in x.m then r == Saw(Some(x.m[key])) && x' == x.(held := x.held + [Some(Guard(key, x.m[key]))])
      else r == Saw(None) && x' == x
    case Has(key) => r == Told(key in x.m) && x' == x
    case Size => r == Counted(|x.m|) && x' == x
    case Look(n) => x' == x && r == if Holds(x, n) then Saw(Some(x.held[n].value.value)) else Skipped
    case Copy(n) =>
      if !Holds(x, n) then r == Skipped && x' == x
      else
        var i := x.held[n].value.key.idx;
        if Refs(x, i) > MAX_REFCOUNT then r == Crowded && x' == x.(leaks := x.leaks[i := x.leaks[i] + 1])
        else r == Copied && x' == x.(held := x.held + [x.held[n]])
    case Free(n) =>
      if !Holds(x, n) then r == Skipped && x' == x
      else r == Freed && x' == Recycled(x.(held := x.held[n := None]), x.held[n].value.key)
  }

  // --------------------------------------------------------------------------------------------
  // The bag, by the names of its guards
  // --------------------------------------------------------------------------------------------

  ghost predicate Distinct(held: seq<Option<Guard>>, gids: seq<Gid>) {
    && |held| == |gids|
    && forall i, j :: 0 <= i < j < |held| && held[i].Some? && held[j].Some? ==> gids[i] != gids[j]
  }

  function Bag(held: seq<Option<Guard>>, gids: seq<Gid>): map<Gid, Guard>
    requires |held| == |gids|
  {
    if held == [] then map[]
    else
      var k := |held| - 1;
      var rest := Bag(held[..k], gids[..k]);
      if held[k].Some? then rest[gids[k] := held[k].value] else rest
  }

  lemma {:induction false} BagHolds(held: seq<Option<Guard>>, gids: seq<Gid>)
    requires Distinct(held, gids)
    ensures forall g :: g in Bag(held, gids) <==> exists n :: 0 <= n < |held| && held[n].Some? && gids[n] == g
    ensures forall n :: 0 <= n < |held| && held[n].Some? ==> gids[n] in Bag(held, gids) && Bag(held, gids)[gids[n]] == held[n].value
  {
    if held != [] {
      var k := |held| - 1;
      BagHolds(held[..k], gids[..k]);
    }
  }

  lemma {:induction false} UsesCount(held: seq<Option<Guard>>, gids: seq<Gid>, i: u32)
    requires Distinct(held, gids)
    ensures |Handles(Bag(held, gids), i)| == Uses(held, i)
  {
    if held == [] {
      assert Handles(Bag(held, gids), i) == {};
    } else {
      var k := |held| - 1;
      UsesCount(held[..k], gids[..k], i);
      BagHolds(held[..k], gids[..k]);
      if held[k].Some? {
        HandlesAdded(Bag(held[..k], gids[..k]), gids[k], held[k].value, i);
      }
    }
  }

  lemma BagGrows(held: seq<Option<Guard>>, gids: seq<Gid>, guard: Guard, g: Gid)
    requires Distinct(held, gids) && g !in Bag(held, gids)
    ensures Distinct(held + [Some(guard)], gids + [g])
    ensures Bag(held + [Some(guard)], gids + [g]) == Bag(held, gids)[g := guard]
  {
    BagHolds(held, gids);
    assert (held + [Some(guard)])[..|held|] == held;
    assert (gids + [g])[..|gids|] == gids;
  }

  lemma BagShrinks(held: seq<Option<Guard>>, gids: seq<Gid>, n: nat)
    requires Distinct(held, gids) && n < |held| && held[n].Some?
    ensures Distinct(held[n := None], gids)
    ensures Bag(held[n := None], gids) == Bag(held, gids) - {gids[n]}
  {
    var fewer := held[n := None];
    BagHolds(held, gids);
    BagHolds(fewer, gids);
    forall g ensures g in Bag(fewer, gids) <==> g in Bag(held, gids) && g != gids[n] {
      if g in Bag(held, gids) && g != gids[n] {
        var k :| 0 <= k < |held| && held[k].Some? && gids[k] == g;
        assert fewer[k].Some?;
      }
    }
    forall g | g in Bag(fewer, gids) ensures Bag(fewer, gids)[g] == Bag(held, gids)[g] {
      var k :| 0 <= k < |fewer| && fewer[k].Some? && gids[k] == g;
      assert held[k] == fewer[k];
    }
  }

  // --------------------------------------------------------------------------------------------
  // The map and its guards stand for the plain map and the bag
  // --------------------------------------------------------------------------------------------

  ghost predicate Coupled(m: AtomicSlotMap, guards: seq<Option<SlotGuard>>, gids: seq<Gid>, x: Model)
    reads m, m.vec, m.vec.chunks, m.vec.repr
  {
    && m.Valid() && Usable(x)
    && m.Contents() == x.m && m.Leaked() == x.leaks
    && m.Free() == x.free && m.vec.len == x.len
    && Distinct(x.held, gids) && m.Held() == Bag(x.held, gids)
    && Same(m, guards, gids, x.held)
  }

  /** The guards in hand are those of the bag, one by one. */
  ghost predicate Same(m: AtomicSlotMap, guards: seq<Option<SlotGuard>>, gids: seq<Gid>, held: seq<Option<Guard>>)
    requires |held| == |gids|
  {
    && |guards| == |held|
    && forall n :: 0 <= n < |guards| ==>
         && (guards[n].Some? <==> held[n].Some?)
         && (guards[n].Some? ==>
               && guards[n].value.home == m && guards[n].value.gid == gids[n]
               && guards[n].value.key == held[n].value.key)
  }

  lemma RefsAgree(m: AtomicSlotMap, x: Model, gids: seq<Gid>, i: u32)
    requires m.Valid() && Usable(x) && Distinct(x.held, gids)
    requires m.Contents() == x.m && m.Leaked() == x.leaks && m.Held() == Bag(x.held, gids)
    ensures m.References(i) == Refs(x, i)
  {
    hide Inv, Solo, L.Contents, AtomicSlotMap.SlotsMatch, Leaks, Occupied;
    UsesCount(x.held, gids, i);
    m.ReferencesAre(i);
  }

  /** One more guard in hand, and in the bag. */
  lemma CoupledMore(
    m: AtomicSlotMap, guards: seq<Option<SlotGuard>>, gids: seq<Gid>, x: Model, guard: Guard, g: SlotGuard)
    requires m.Valid() && Usable(x) && m.Contents() == x.m && m.Leaked() == x.leaks
    requires m.Free() == x.free && m.vec.len == x.len
    requires Distinct(x.held, gids) && Same(m, guards, gids, x.held)
    requires g.home == m && g.key == guard.key && g.gid !in Bag(x.held, gids) && m.Held() == Bag(x.held, gids)[g.gid := guard]
    ensures Coupled(m, guards + [Some(g)], gids + [g.gid], x.(held := x.held + [Some(guard)]))
  {
    hide Inv, Solo, L.Contents, AtomicSlotMap.SlotsMatch, Leaks, NextKey, Bag, Distinct;
    BagGrows(x.held, gids, guard, g.gid);
  }

  lemma NextIsNew(m: AtomicSlotMap, guards: seq<Option<SlotGuard>>, gids: seq<Gid>, x: Model, f: Key -> Outcome)
    requires Coupled(m, guards, gids, x) && !Stops(x, Put(f))
    ensures NextOf(x) == m.NextSlot() && !m.Full()
    ensures Refs(x, NextOf(x).idx) == 0 && NextOf(x).idx != SENTINEL && NextOf(x) !in x.m
  {
    hide Inv, Solo, L.Contents, AtomicSlotMap.SlotsMatch, Leaks, NextKey, Bag, Distinct, Same, FreeKeys, Alone.References, Occupied;
    m.NextSlotIs();
    NextUnused(m.sys);
    RefsAgree(m, x, gids, NextOf(x).idx);
    L.InContents(m.sys.c.slots, NextOf(x));
  }

  lemma PutAgrees(x: Model, f: Key -> Outcome, result: Inserting) returns (x': Model)
    requires Usable(x) && !Stops(x, Put(f))
    requires Refs(x, NextOf(x).idx) == 0 && NextOf(x).idx != SENTINEL && NextOf(x) !in x.m
    requires match f(NextOf(x))
             case Made(_) => result == Stored(NextOf(x))
             case Declined(error) => result == Failed(error)
    ensures x'.held == x.held && x'.leaks == x.leaks && x'.len == x.len + Bit(x.free == [])
    ensures match f(NextOf(x))
            case Made(value) => x'.m == x.m[NextOf(x) := value] && x'.free == Rest(x.free)
            case Declined(_) => x'.m == x.m && x'.free == [NextOf(x)] + Rest(x.free)
    ensures Agrees(x, Put(f), Tried(result), x')
  {
    hide Refs, NextOf, Rest;
    x' := match f(NextOf(x))
          case Made(value) => Advanced(x).(m := x.m[NextOf(x) := value])
          case Declined(_) => Advanced(x).(free := [NextOf(x)] + Rest(x.free));
  }

  method DoPut(m: AtomicSlotMap, f: Key -> Outcome, spurious: nat,
               ghost guards: seq<Option<SlotGuard>>, ghost gids: seq<Gid>, ghost x: Model)
    returns (r: Answer, ghost x': Model)
    requires Coupled(m, guards, gids, x) && !Stops(x, Put(f))
    modifies m`freeHead, m`numElems, m`sys, m.vec.repr
    ensures Coupled(m, guards, gids, x') && Agrees(x, Put(f), r, x')
    ensures fresh(m.vec.repr - old(m.vec.repr)) && old(m.vec.repr) <= m.vec.repr
  {
    hide Inv, Solo, L.Contents, AtomicSlotMap.SlotsMatch, Leaks, NothingLingers, NextKey, Bag, Distinct, Same, Refs;
    hide Alone.References, FreeKeys, Rest, Occupied;
    NextIsNew(m, guards, gids, x, f);
    hide NextOf, Stops, AtomicSlotMap.Full, AtomicSlotMap.References, Agrees;
    var result := m.TryInsertWithKey(f, spurious);
    r := Tried(result);
    x' := PutAgrees(x, f, result);
  }

  lemma TakeAgrees(x: Model, key: Key) returns (x': Model)
    requires Usable(x)
    ensures x'.held == x.held && x'.leaks == x.leaks && x'.len == x.len && x'.m == x.m - {key}
    ensures x'.free == if key in x.m && Refs(x.(m := x.m - {key}), key.idx) == 0
                       then [RawKey(key.idx, Wrap(key.ver + 2))] + x.free else x.free
    ensures Agrees(x, Take(key), Took(key in x.m), x')
  {
    hide Refs, Wrap;
    x' := if key in x.m then Recycled(x.(m := x.m - {key}), key) else x;
    assert key !in x.m ==> x.m - {key} == x.m;
  }

  method DoTake(m: AtomicSlotMap, key: Key, spurious: nat,
                ghost guards: seq<Option<SlotGuard>>, ghost gids: seq<Gid>, ghost x: Model)
    returns (r: Answer, ghost x': Model)
    requires Coupled(m, guards, gids, x)
    modifies m`freeHead, m`numElems, m`sys, m.vec.repr
    ensures Coupled(m, guards, gids, x') && Agrees(x, Take(key), r, x')
    ensures m.vec.repr == old(m.vec.repr)
  {
    hide Inv, Solo, L.Contents, AtomicSlotMap.SlotsMatch, Leaks, NothingLingers, NextKey, Bag, Distinct, Same, Refs;
    hide Alone.References, Wrap, FreeKeys, Agrees, AtomicSlotMap.References;
    var was := m.Remove(key, spurious);
    r := Took(was);
    x' := TakeAgrees(x, key);
    RefsAgree(m, x.(m := x.m - {key}), gids, key.idx);
  }

  method DoFind(m: AtomicSlotMap, key: Key, spurious: nat,
                guards: seq<Option<SlotGuard>>, ghost gids: seq<Gid>, ghost x: Model)
    returns (r: Answer, guards': seq<Option<SlotGuard>>, ghost gids': seq<Gid>, ghost x': Model)
    requires Coupled(m, guards, gids, x)
    modifies m`sys, m.vec.repr
    ensures Coupled(m, guards', gids', x') && Agrees(x, Find(key), r, x')
    ensures m.vec.repr == old(m.vec.repr)
  {
    hide Inv, Solo, L.Contents, AtomicSlotMap.SlotsMatch, Leaks, NothingLingers, NextKey, Bag, Distinct, Refs, Same;
    hide Alone.References, FreeKeys;
    RefsAgree(m, x, gids, key.idx);
    var got := m.Get(key, spurious);
    guards', gids', x' := guards, gids, x;
    if got.Guarded? {
      var value := got.guard.Deref();
      CoupledMore(m, guards, gids, x, Guard(key, x.m[key]), got.guard);
      guards', gids' := guards + [Some(got.guard)], gids + [got.guard.gid];
      x' := x.(held := x.held + [Some(Guard(key, x.m[key]))]);
      r := Saw(Some(value));
    } else {
      r := if got.TooMany? then Crowded else Saw(None);
    }
  }

  method DoRead(m: AtomicSlotMap, op: Command, guards: seq<Option<SlotGuard>>, ghost gids: seq<Gid>, ghost x: Model)
    returns (r: Answer)
    requires Coupled(m, guards, gids, x) && (op.Has? || op.Size? || op.Look?)
    ensures Agrees(x, op, r, x)
  {
    hide Inv, Solo, L.Contents, AtomicSlotMap.SlotsMatch, Leaks, NextKey, Bag, Distinct, Refs;
    if op.Has? {
      var yes := m.ContainsKey(op.key);
      return Told(yes);
    }
    if op.Size? {
      var n := m.LossyLen();
      return Counted(n);
    }
    if op.n < |guards| && guards[op.n].Some? {
      BagHolds(x.held, gids);
      var value := guards[op.n].value.Deref();
      return Saw(Some(value));
    }
    return Skipped;
  }

  lemma CopyAgrees(x: Model, n: nat, leaks: seq<nat>)
    requires Usable(x) && Holds(x, n)
    requires var i := x.held[n].value.key.idx;
             leaks == x.leaks[i := x.leaks[i] + Bit(Refs(x, i) > MAX_REFCOUNT)]
    ensures if Refs(x, x.held[n].value.key.idx) > MAX_REFCOUNT then Agrees(x, Copy(n), Crowded, x.(leaks := leaks))
            else leaks == x.leaks && Agrees(x, Copy(n), Copied, x.(held := x.held + [x.held[n]]))
  {
    hide Refs;
  }

  method DoCopy(m: AtomicSlotMap, n: nat, guards: seq<Option<SlotGuard>>, ghost gids: seq<Gid>, ghost x: Model)
    returns (r: Answer, guards': seq<Option<SlotGuard>>, ghost gids': seq<Gid>, ghost x': Model)
    requires Coupled(m, guards, gids, x) && !Stops(x, Copy(n))
    modifies m`sys, m.vec.repr
    ensures Coupled(m, guards', gids', x') && Agrees(x, Copy(n), r, x')
    ensures m.vec.repr == old(m.vec.repr)
  {
    hide Inv, Solo, L.Contents, AtomicSlotMap.SlotsMatch, Leaks, NothingLingers, NextKey, Bag, Distinct, Refs;
    hide Alone.References, Wrap, Occupied, FreeKeys;
    guards', gids', x' := guards, gids, x;
    if n >= |guards| || guards[n].None? {
      return Skipped, guards', gids', x';
    }
    hide Agrees;
    var guard := guards[n].value;
    BagHolds(x.held, gids);
    RefsAgree(m, x, gids, guard.key.idx);
    m.ReferencesAre(guard.key.idx);
    var copy := guard.Clone();
    CopyAgrees(x, n, m.Leaked());
    hide Same;
    if copy.None? {
      x' := x.(leaks := m.Leaked());
      return Crowded, guards', gids', x';
    }
    CoupledMore(m, guards, gids, x, x.held[n].value, copy.value);
    guards', gids' := guards + [copy], gids + [copy.value.gid];
    x' := x.(held := x.held + [x.held[n]]);
    return Copied, guards', gids', x';
  }

  method DoFree(m: AtomicSlotMap, n: nat, spurious: nat, guards: seq<Option<SlotGuard>>, ghost gids: seq<Gid>, ghost x: Model)
    returns (r: Answer, guards': seq<Option<SlotGuard>>, ghost x': Model)
    requires Coupled(m, guards, gids, x)
    modifies m`freeHead, m`sys, m.vec.repr
    ensures Coupled(m, guards', gids, x') && Agrees(x, Free(n), r, x')
    ensures m.vec.repr == old(m.vec.repr)
  {
    hide Inv, Solo, L.Contents, AtomicSlotMap.SlotsMatch, Leaks, NothingLingers, NextKey, Bag, Distinct, Refs;
    hide Alone.References, Wrap, FreeKeys;
    guards', x' := guards, x;
    if n >= |guards| || guards[n].None? {
      return Skipped, guards', x';
    }
    var guard := guards[n].value;
    BagHolds(x.held, gids);
    BagShrinks(x.held, gids, n);
    guard.Drop(spurious);
    ghost var fewer := x.(held := x.held[n := None]);
    RefsAgree(m, fewer, gids, guard.key.idx);
    guards' := guards[n := None];
    x' := Recycled(fewer, guard.key);
    return Freed, guards', x';
  }

  // --------------------------------------------------------------------------------------------
  // Whole sequences
  // --------------------------------------------------------------------------------------------

  function Puts(ops: seq<Command>): nat {
    if ops == [] then 0 else Puts(ops[..|ops| - 1]) + Bit(ops[|ops| - 1].Put?)
  }

  /** One command. */
  method Do(m: AtomicSlotMap, op: Command, spurious: nat,
            guards: seq<Option<SlotGuard>>, ghost gids: seq<Gid>, ghost x: Model)
    returns (r: Answer, guards': seq<Option<SlotGuard>>, ghost gids': seq<Gid>, ghost x': Model)
    requires Coupled(m, guards, gids, x) && !Stops(x, op)
    modifies m`freeHead, m`numElems, m`sys, m.vec.repr
    ensures Coupled(m, guards', gids', x') && Usable(x') && Agrees(x, op, r, x')
    ensures fresh(m.vec.repr - old(m.vec.repr)) && old(m.vec.repr) <= m.vec.repr
  {
    hide Inv, Solo, L.Contents, AtomicSlotMap.SlotsMatch, Leaks, NextKey, Bag, Distinct, Refs, Agrees, Same, Stops, FreeKeys;
    m.VecValid(m.sys.c.slots, m.sys.c.chunks.Keys);
    guards', gids', x' := guards, gids, x;
    match op
    case Put(f) => r, x' := DoPut(m, f, spurious, guards, gids, x);
    case Take(key) => r, x' := DoTake(m, key, spurious, guards, gids, x);
    case Find(key) => r, guards', gids', x' := DoFind(m, key, spurious, guards, gids, x);
    case Copy(n) => r, guards', gids', x' := DoCopy(m, n, guards, gids, x);
    case Free(n) => r, guards', x' := DoFree(m, n, spurious, guards, gids, x);
    case Has(_) => r := DoRead(m, op, guards, gids, x);
    case Size => r := DoRead(m, op, guards, gids, x);
    case Look(_) => r := DoRead(m, op, guards, gids, x);
  }

  /** Whether the command is beyond what the map can do, as the map shows it. */
  method MustStop(m: AtomicSlotMap, op: Command, guards: seq<Option<SlotGuard>>, ghost gids: seq<Gid>, ghost x: Model)
    returns (stop: bool)
    requires Coupled(m, guards, gids, x)
    ensures stop <==> Stops(x, op)
  {
    hide Inv, Solo, L.Contents, AtomicSlotMap.SlotsMatch, Leaks, NextKey, Bag, Distinct, Refs, FreeKeys, PackFreeHead, UnpackFreeHead;
    hide Alone.References;
    if op.Put? {
      m.HeadReads();
      m.NextSlotIs();
      return m.vec.len == 0xFFFF_FFFF && UnpackFreeHead(m.freeHead).1 == SENTINEL;
    }
    if op.Copy? && op.n < |guards| && guards[op.n].Some? {
      var guard := guards[op.n].value;
      BagHolds(x.held, gids);
      RefsAgree(m, x, gids, guard.key.idx);
      m.ReferencesAre(guard.key.idx);
      GuardFacts(m.sys, guard.gid);
      m.SlotExists(guard.key.idx);
      var slot := m.vec.GetUnchecked(guard.key.idx);
      return slot.refCount == 0xFFFF_FFFF;
    }
    return false;
  }

  /** An empty map, nothing held, leaked or free. */
  ghost function Empty(): Model {
    Model(map[], [], NoLeaks(), [], 0)
  }

  /**
   * Sequential refinement. On a new map, any sequence of inserts (failing ones too), removes, lookups, and
   * copies and drops of guards answers, keys included, as the plain model determines, command by command. It
   * stops early exactly at a command beyond what the map can do: an insert with every index handed out and none
   * free, so after at least 2^32 - 1 others, or a copy on a slot with 2^32 - 1 references.
   */
  method Run(ops: seq<Command>, spurious: nat) returns (answers: seq<Answer>, ghost trail: seq<Model>)
    ensures |answers| <= |ops| && |trail| == |answers| + 1 && trail[0] == Empty()
    ensures forall k :: 0 <= k < |answers| ==> Agrees(trail[k], ops[k], answers[k], trail[k + 1]) && !Stops(trail[k], ops[k])
    ensures |answers| < |ops| ==>
              var op := ops[|answers|];
              && Usable(trail[|answers|]) && Stops(trail[|answers|], op)
              && (op.Put? ==> Puts(ops[..|answers|]) >= 0xFFFF_FFFF)
  {
    hide Inv, Solo, L.Contents, AtomicSlotMap.SlotsMatch, Leaks, NextKey, NothingLingers, Agrees, Stops, FreeKeys, Coupled, Usable;
    var m := new AtomicSlotMap.New();
    var guards: seq<Option<SlotGuard>> := [];
    ghost var gids: seq<Gid> := [];
    answers, trail := [], [Empty()];
    EmptyCoupled(m);
    while |answers| < |ops|
      invariant |answers| <= |ops| && |trail| == |answers| + 1 && trail[0] == Empty()
      invariant forall k :: 0 <= k <= |answers| ==> Usable(trail[k])
      invariant forall k :: 0 <= k < |answers| ==> Agrees(trail[k], ops[k], answers[k], trail[k + 1]) && !Stops(trail[k], ops[k])
      invariant fresh(m) && fresh(m.vec.repr) && Coupled(m, guards, gids, trail[|answers|])
      invariant trail[|answers|].len <= Puts(ops[..|answers|])
    {
      var k := |answers|;
      var stop := MustStop(m, ops[k], guards, gids, trail[k]);
      assert ops[..k + 1][..k] == ops[..k];
      StopsLate(trail[k], ops[k]);
      if stop {
        return;
      }
      var r;
      ghost var x';
      r, guards, gids, x' := Do(m, ops[k], spurious, guards, gids, trail[k]);
      LenGrows(trail[k], ops[k], r, x');
      answers, trail := answers + [r], trail + [x'];
    }
  }

  lemma StopsLate(x: Model, op: Command)
    requires Usable(x)
    ensures Stops(x, op) && op.Put? ==> x.len == 0xFFFF_FFFF
  {
  }

  lemma LenGrows(x: Model, op: Command, r: Answer, x': Model)
    requires Usable(x) && Agrees(x, op, r, x') && !Stops(x, op)
    ensures x'.len <= x.len + Bit(op.Put?)
  {
    hide Refs;
  }

  lemma EmptyCoupled(m: AtomicSlotMap)
    requires m.Valid() && m.Contents() == map[] && m.Held() == map[] && m.Leaked() == NoLeaks()
    requires m.Free() == [] && m.vec.len == 0
    ensures Coupled(m, [], [], Empty()) && Usable(Empty())
  {
    hide Inv, Solo, L.Contents, AtomicSlotMap.SlotsMatch, Leaks, NextKey, FreeKeys;
  }
}
