/** Every bounded run does what an atomic map from keys to values would do. */
module Linearizability {
  import opened Machine
  import opened Location
  import opened Protocol
  import opened Invariant
  import opened Touching

  // --------------------------------------------------------------------------------------------
  // The atomic map
  // --------------------------------------------------------------------------------------------

  /** Where a thread stands in its current call; an insert is settled once its closure has answered with a
      value, and stuck if the closure panicked. */
  datatype Phase = Out | Called(op: Op) | Settled(key: Key, value: Value) | Stuck | Decided(op: Op, res: Result)

  /** The map, where each thread stands, and the guards handed out and not dropped yet. */
  datatype Spec = Spec(m: map<Key, Value>, phases: map<Tid, Phase>, held: map<Gid, Guard>)

  datatype Event =
    | Begins(t: Tid, op: Op)
    | Settles(t: Tid, key: Key, value: Value)
    | Sticks(t: Tid)
    | Effect(t: Tid, op: Op, res: Result)
    | Returns(t: Tid, op: Op, res: Result)
    | Drops(t: Tid, gid: Gid)
    | Copies(t: Tid, gid: Gid, copy: Gid)

  /** The operation a thread is in the middle of. */
  function OpIn(p: Phase): Op
    requires p.Called? || p.Settled?
  {
    if p.Called? then p.op else Insert
  }

  /** What a call may answer from where it stands, and does to the map, when it happens all at once. */
  ghost predicate Allowed(m: map<Key, Value>, p: Phase, res: Result, m': map<Key, Value>)
    requires p.Called? || p.Settled?
  {
    match p
    case Settled(key, value) => res == Inserted(key, value) && key !in m && m' == m[key := value]
    case Called(op) =>
      match op
      case Insert => res == InsertFailed && m' == m
      case Get(key) =>
        && m' == m
        && (|| (res.Panicked? && res.refs > MAX_REFCOUNT)
            || (res.NotFound? && key !in m)
            || (res.Found? && key in m && m[key] == res.value))
      case Remove(key) => res == Removed(key in m) && m' == m - {key}
      case Contains(key) => res == Contained(key in m) && m' == m
      case Reserve(_) => res == Reserved && m' == m
  }

  /** A `get` that finds its key hands out one new guard on it; no other answer touches the guards. */
  ghost predicate HandsOut(held: map<Gid, Guard>, op: Op, res: Result, held': map<Gid, Guard>) {
    if op.Get? && res.Found? then res.gid !in held && held' == held[res.gid := Guard(op.key, res.value)]
    else held' == held
  }

  ghost predicate SpecStep(p: Spec, e: Event, p': Spec) {
    e.t in p.phases && match e
    case Begins(t, op) => p.phases[t] == Out && p' == p.(phases := p.phases[t := Called(op)])
    case Settles(t, key, value) =>
      p.phases[t] == Called(Insert) && key !in p.m && p' == p.(phases := p.phases[t := Settled(key, value)])
    case Sticks(t) => p.phases[t] == Called(Insert) && p' == p.(phases := p.phases[t := Stuck])
    case Effect(t, op, res) =>
      && (p.phases[t].Called? || p.phases[t].Settled?) && op == OpIn(p.phases[t])
      && Allowed(p.m, p.phases[t], res, p'.m) && HandsOut(p.held, op, res, p'.held)
      && p'.phases == p.phases[t := Decided(op, res)]
    case Returns(t, op, res) => p.phases[t] == Decided(op, res) && p' == p.(phases := p.phases[t := Out])
    case Drops(t, gid) => p.phases[t] == Out && gid in p.held && p' == p.(held := p.held - {gid})
    case Copies(t, gid, copy) =>
      p.phases[t] == Out && gid in p.held && copy !in p.held && p' == p.(held := p.held[copy := p.held[gid]])
  }

  ghost predicate SpecInit(p: Spec) {
    p.m == map[] && p.held == map[] && forall t :: t in p.phases ==> p.phases[t] == Out
  }

  /** The atomic map, starting empty with every thread out, can perform the events and end in `p`. */
  ghost predicate Accepts(trace: seq<Event>, p: Spec)
    decreases |trace|
  {
    if trace == [] then SpecInit(p)
    else
      var last, before := trace[|trace| - 1], trace[..|trace| - 1];
      exists p0 :: SpecStep(p0, last, p) && Accepts(before, p0)
  }

  // --------------------------------------------------------------------------------------------
  // What a configuration means
  // --------------------------------------------------------------------------------------------

  function LiveKeys(slots: Slots): set<Key> {
    set i: int | 0 <= i < 0x1_0000_0000 && Odd(slots[i].ver) :: RawKey(i, slots[i].ver)
  }

  function ValueAt(slots: Slots, i: u32): Value {
    if slots[i].data.Live? then slots[i].data.value else 0
  }

  /** The occupied slots, read as a map: `{(i, version[i]) -> data[i] | version[i] odd}`. */
  function Contents(slots: Slots): map<Key, Value> {
    map key | key in LiveKeys(slots) :: ValueAt(slots, key.idx)
  }

  function PhaseAfter(after: After): Phase {
    match after
    case AfterInsert => Decided(Insert, InsertFailed)
    case AfterGet(key) => Decided(Get(key), NotFound)
    case AfterRemove(key) => Decided(Remove(key), Removed(true))
    case AfterDrop => Out
  }

  /** Whether the thread's current operation has already taken effect. */
  function PhaseOf(pc: PC): Phase {
    match pc
    case Idle => Out
    case Done(op, res) => Decided(op, res)
    case LookLen(what, key) => Called(OpOf(what, key))
    case LookChunk(what, key) => Called(OpOf(what, key))
    case ConVer(key) => Called(Contains(key))
    case GetRefs(key) => Called(Get(key))
    case GetCas(key, _) => Called(Get(key))
    case GetVer(key) => Called(Get(key))
    case GetBack(key) => Decided(Get(key), NotFound)
    case RemVer(key) => Called(Remove(key))
    case RemCas(key, _) => Called(Remove(key))
    case RemDec(key) => Decided(Remove(key), Removed(true))
    case RemCount(key) => Decided(Remove(key), Removed(true))
    case Destroy(_, after) => PhaseAfter(after)
    case PushLoad(_, after) => PhaseAfter(after)
    case PushLink(_, _, after) => PhaseAfter(after)
    case PushCas(_, _, after) => PhaseAfter(after)
    case PopLoad => Called(Insert)
    case PopNext(_) => Called(Insert)
    case PopCas(_, _) => Called(Insert)
    case InsVer(_) => Called(Insert)
    case InsLen => Called(Insert)
    case InsChunk(_) => Called(Insert)
    case InsChunkCas(_, _) => Called(Insert)
    case InsCall(_) => Called(Insert)
    case InsWrite(key, v) => Settled(key, v)
    case InsRefs(key, v) => Settled(key, v)
    case InsPub(key, v) => Settled(key, v)
    case InsCount(key, v) => Decided(Insert, Inserted(key, v))
    case Abandoned(_) => Stuck
    case ResChunk(_, last) => Called(Reserve(last))
    case ResChunkCas(_, last, _) => Called(Reserve(last))
  }

  function Meaning(c: Conf): Spec {
    Spec(Contents(c.slots), map t | t in c.pcs :: PhaseOf(c.pcs[t]), c.guards)
  }

  /** The step drops the guard `a.g`. */
  predicate Dropping(c: Conf, t: Tid, a: Choice) {
    t in c.pcs && c.pcs[t].Idle? && a.DropGuard? && a.g in c.guards
  }

  /** The step copies the guard `a.g`: there are not too many references for that. */
  predicate Copying(c: Conf, t: Tid, a: Choice) {
    && t in c.pcs && c.pcs[t].Idle? && a.CloneGuard? && a.g in c.guards
    && c.slots[c.guards[a.g].key.idx].refs <= MAX_REFCOUNT
  }

  /** The event, if any, that a step of thread `t` is. */
  function EventsOf(c: Conf, t: Tid, a: Choice, c': Conf): seq<Event>
    requires t in c.pcs && t in c'.pcs
  {
    if Dropping(c, t, a) then [Drops(t, a.g)]
    else if Copying(c, t, a) then [Copies(t, a.g, c.nextGid)]
    else PhaseEvent(t, PhaseOf(c.pcs[t]), PhaseOf(c'.pcs[t]))
  }

  /** The event, if any, by which thread `t` goes from one phase to another. */
  function PhaseEvent(t: Tid, p: Phase, p': Phase): seq<Event> {
    if p == p' then []
    else match p'
         case Called(op) => [Begins(t, op)]
         case Settled(key, value) => [Settles(t, key, value)]
         case Stuck => [Sticks(t)]
         case Decided(op, res) => [Effect(t, op, res)]
         case Out => if p.Decided? then [Returns(t, p.op, p.res)] else []
  }

  // --------------------------------------------------------------------------------------------
  // Contents under stores
  // --------------------------------------------------------------------------------------------

  lemma InContents(slots: Slots, key: Key)
    ensures key in Contents(slots) <==> slots[key.idx].ver == key.ver
    ensures key in Contents(slots) ==> Contents(slots)[key] == ValueAt(slots, key.idx)
  {
    if slots[key.idx].ver == key.ver {
      assert Odd(slots[key.idx].ver) && key == RawKey(key.idx, slots[key.idx].ver);
    }
  }

  /** Stores that touch no occupied slot's value or version do not change the map. */
  lemma ContentsSame(slots: Slots, slots': Slots)
    requires forall i: u32 :: Odd(slots[i].ver) || Odd(slots'[i].ver) ==>
               slots'[i].ver == slots[i].ver && slots'[i].data == slots[i].data
    ensures Contents(slots') == Contents(slots)
  {
    hide Contents;
    forall key: Key ensures key in Contents(slots') <==> key in Contents(slots) {
      InContents(slots, key);
      InContents(slots', key);
    }
    forall key: Key | key in Contents(slots) ensures Contents(slots')[key] == Contents(slots)[key] {
      InContents(slots, key);
      InContents(slots', key);
    }
  }

  lemma ContentsInserted(slots: Slots, key: Key, value: Value)
    requires !Odd(slots[key.idx].ver) && slots[key.idx].data == Live(value)
    ensures key !in Contents(slots)
    ensures Contents(slots[key.idx := slots[key.idx].(ver := key.ver)]) == Contents(slots)[key := value]
  {
    hide Contents;
    var slots' := slots[key.idx := slots[key.idx].(ver := key.ver)];
    forall k: Key ensures k in Contents(slots') <==> k in Contents(slots) || k == key {
      InContents(slots, k);
      InContents(slots', k);
    }
    forall k: Key | k in Contents(slots') ensures Contents(slots')[k] == Contents(slots)[key := value][k] {
      InContents(slots, k);
      InContents(slots', k);
    }
    InContents(slots, key);
  }

  lemma ContentsRemoved(slots: Slots, key: Key)
    requires slots[key.idx].ver == key.ver
    ensures key in Contents(slots)
    ensures Contents(slots[key.idx := slots[key.idx].(ver := Wrap(key.ver + 1))]) == Contents(slots) - {key}
  {
    hide Contents;
    var slots' := slots[key.idx := slots[key.idx].(ver := Wrap(key.ver + 1))];
    forall k: Key ensures k in Contents(slots') <==> k in Contents(slots) && k != key {
      InContents(slots, k);
      InContents(slots', k);
    }
    forall k: Key | k in Contents(slots') ensures Contents(slots')[k] == Contents(slots)[k] {
      InContents(slots, k);
      InContents(slots', k);
    }
    InContents(slots, key);
  }

  // --------------------------------------------------------------------------------------------
  // Every step is an event of the atomic map, or nothing
  // --------------------------------------------------------------------------------------------

  /** The phase change of a step, and what it does to the map, are allowed. */
  ghost predicate Simulates(p: Phase, m: map<Key, Value>, p': Phase, m': map<Key, Value>) {
    || (p' == p && m' == m)
    || (p.Out? && p'.Called? && m' == m)
    || (p == Called(Insert) && p'.Settled? && p'.key !in m && m' == m)
    || (p == Called(Insert) && p'.Stuck? && m' == m)
    || ((p.Called? || p.Settled?) && p'.Decided? && p'.op == OpIn(p) && Allowed(m, p, p'.res, m'))
    || (p.Decided? && p'.Out? && m' == m)
  }

  /** Only thread `t` moved, and its answer, if it decided one, matches the map at that moment. */
  ghost predicate AnswersRightly(c: Conf, t: Tid, c': Conf) {
    && MovesOnly(c, t, c')
    && Simulates(PhaseOf(c.pcs[t]), Contents(c.slots), PhaseOf(c'.pcs[t]), Contents(c'.slots))
  }

  lemma Absent(s: Sys, key: Key)
    requires Inv(s)
    ensures key.idx >= s.c.len || s.c.slots[key.idx].refs == 0 || s.c.slots[key.idx].ver != key.ver ==>
              key !in Contents(s.c.slots)
    ensures s.c.slots[key.idx].ver == key.ver ==>
              key in Contents(s.c.slots) && s.c.slots[key.idx].data == Live(Contents(s.c.slots)[key])
  {
    hide ThreadOk, GuardOk, ChainOk, ChunksOk, CountOk, Contents, ChunkOf;
    assert SlotOk(s.c, s.h, key.idx);
    InContents(s.c.slots, key);
  }

  lemma LookAnswers(s: Sys, t: Tid)
    requires Inv(s) && t in s.c.pcs && InLook(s.c.pcs[t])
    ensures AnswersRightly(s.c, t, LookStep(s.c, t, s.c.pcs[t]))
  {
    hide Inv, Contents, ChunkOf;
    Absent(s, s.c.pcs[t].key);
    var m, key := Contents(s.c.slots), s.c.pcs[t].key;
    assert s.c.pcs == s.c.pcs[t := s.c.pcs[t]];
    assert key !in m ==> m - {key} == m;
  }

  lemma GetAnswers(s: Sys, t: Tid, a: Choice)
    requires Inv(s) && t in s.c.pcs && InGet(s.c.pcs[t])
    ensures AnswersRightly(s.c, t, GetStep(s.c, t, a, s.c.pcs[t]))
  {
    hide Inv, Contents;
    Absent(s, s.c.pcs[t].key);
    var c' := GetStep(s.c, t, a, s.c.pcs[t]);
    ContentsSame(s.c.slots, c'.slots);
  }

  lemma RemoveAnswers(s: Sys, t: Tid)
    requires Inv(s) && t in s.c.pcs && InRemove(s.c.pcs[t])
    ensures AnswersRightly(s.c, t, RemoveStep(s.c, t, s.c.pcs[t]))
  {
    hide Inv, Contents, ThreadOk, SlotOk;
    var pc := s.c.pcs[t];
    At(s, t, 0);
    AcquirerFacts(s.c, s.h, t);
    if pc.RemCas? && s.c.slots[pc.key.idx].ver == pc.cur {
      ContentsRemoved(s.c.slots, pc.key);
    } else {
      RemoveMisses(s, t);
    }
  }

  lemma RemoveMisses(s: Sys, t: Tid)
    requires Inv(s) && t in s.c.pcs && InRemove(s.c.pcs[t])
    requires s.c.pcs[t].RemCas? ==> s.c.slots[s.c.pcs[t].key.idx].ver != s.c.pcs[t].cur == s.c.pcs[t].key.ver
    ensures AnswersRightly(s.c, t, RemoveStep(s.c, t, s.c.pcs[t]))
  {
    hide Inv, Contents, ThreadOk, SlotOk;
    var pc := s.c.pcs[t];
    var m := Contents(s.c.slots);
    Absent(s, pc.key);
    ContentsSame(s.c.slots, RemoveStep(s.c, t, pc).slots);
    assert pc.key !in m ==> m - {pc.key} == m;
  }

  lemma PushAnswers(s: Sys, t: Tid, a: Choice)
    requires Inv(s) && t in s.c.pcs && InPush(s.c.pcs[t])
    ensures AnswersRightly(s.c, t, PushStep(s.c, t, a, s.c.pcs[t]))
  {
    hide Inv, Contents, ThreadOk, SlotOk;
    var pc := s.c.pcs[t];
    At(s, t, pc.idx);
    OwnerFacts(s.c, s.h, t, pc.idx);
    ContentsSame(s.c.slots, PushStep(s.c, t, a, pc).slots);
  }

  lemma InsertAnswers(s: Sys, t: Tid, a: Choice)
    requires Inv(s) && t in s.c.pcs && InInsert(s.c.pcs[t])
    ensures AnswersRightly(s.c, t, InsertStep(s.c, t, a, s.c.pcs[t]))
  {
    hide Inv, Contents, ThreadOk, SlotOk, Simulates;
    var pc := s.c.pcs[t];
    At(s, t, 0);
    assert s.c.pcs == s.c.pcs[t := pc];
    if pc.InsPub? {
      PublisherFacts(s.c, s.h, t);
      ContentsInserted(s.c.slots, pc.key, pc.value);
      PublishAnswers(s.c, t);
    } else {
      if pc.InsCall? || pc.InsWrite? {
        OwnerFacts(s.c, s.h, t, pc.key.idx);
        InContents(s.c.slots, pc.key);
      }
      ContentsSame(s.c.slots, InsertStep(s.c, t, a, pc).slots);
      InsertWaits(s.c, t, a);
    }
  }

  lemma PublishAnswers(c: Conf, t: Tid)
    requires t in c.pcs && c.pcs[t].InsPub?
    requires c.pcs[t].key !in Contents(c.slots)
    requires Contents(InsertStep(c, t, Tau, c.pcs[t]).slots) == Contents(c.slots)[c.pcs[t].key := c.pcs[t].value]
    ensures Simulates(PhaseOf(c.pcs[t]), Contents(c.slots),
                      PhaseOf(InsCount(c.pcs[t].key, c.pcs[t].value)), Contents(InsertStep(c, t, Tau, c.pcs[t]).slots))
  {
    hide Contents;
  }

  lemma InsertWaits(c: Conf, t: Tid, a: Choice)
    requires t in c.pcs && InInsert(c.pcs[t]) && !c.pcs[t].InsPub?
    requires c.pcs[t].InsCall? ==> c.pcs[t].key !in Contents(c.slots)
    requires Contents(InsertStep(c, t, a, c.pcs[t]).slots) == Contents(c.slots)
    ensures AnswersRightly(c, t, InsertStep(c, t, a, c.pcs[t]))
  {
    hide Contents;
    assert c.pcs == c.pcs[t := c.pcs[t]];
  }

  lemma IdleAnswers(c: Conf, t: Tid, a: Choice)
    requires t in c.pcs && c.pcs[t].Idle?
    ensures AnswersRightly(c, t, IdleStep(c, t, a))
  {
    hide Contents;
    assert c.pcs == c.pcs[t := c.pcs[t]];
    ContentsSame(c.slots, IdleStep(c, t, a).slots);
  }

  lemma PopAnswers(c: Conf, t: Tid, a: Choice)
    requires t in c.pcs && InPop(c.pcs[t])
    ensures AnswersRightly(c, t, PopStep(c, t, a, c.pcs[t]))
  {
    hide Contents;
  }

  lemma VecAnswers(c: Conf, t: Tid)
    requires t in c.pcs && InVec(c.pcs[t])
    ensures AnswersRightly(c, t, VecStep(c, t, c.pcs[t]))
  {
    hide Contents, Simulates, PhaseOf;
    var p, p' := PhaseOf(c.pcs[t]), PhaseOf(VecStep(c, t, c.pcs[t]).pcs[t]);
    VecPhases(c, t);
    assert Simulates(p, Contents(c.slots), p', Contents(c.slots)) by { ReservesRightly(p, Contents(c.slots), p'); }
    VecSlots(c, t);
  }

  lemma VecPhases(c: Conf, t: Tid)
    requires t in c.pcs && InVec(c.pcs[t])
    ensures var p, p' := PhaseOf(c.pcs[t]), PhaseOf(VecStep(c, t, c.pcs[t]).pcs[t]);
            p' == p || (p.Called? && p.op.Reserve? && p' == Decided(p.op, Reserved))
  {
    hide VecStep;
    if c.pcs[t].ResChunk? || c.pcs[t].ResChunkCas? {
      ReservingPhases(c, t);
    } else {
      GrowthPhases(c, t);
    }
  }

  lemma ReservingPhases(c: Conf, t: Tid)
    requires t in c.pcs && (c.pcs[t].ResChunk? || c.pcs[t].ResChunkCas?)
    ensures var p, p' := PhaseOf(c.pcs[t]), PhaseOf(VecStep(c, t, c.pcs[t]).pcs[t]);
            p' == p || (p.Called? && p.op.Reserve? && p' == Decided(p.op, Reserved))
  {
  }

  lemma GrowthPhases(c: Conf, t: Tid)
    requires t in c.pcs && (c.pcs[t].InsLen? || c.pcs[t].InsChunk? || c.pcs[t].InsChunkCas?)
    ensures PhaseOf(VecStep(c, t, c.pcs[t]).pcs[t]) == PhaseOf(c.pcs[t])
  {
    hide ChunkOf;
  }

  lemma VecSlots(c: Conf, t: Tid)
    requires t in c.pcs && InVec(c.pcs[t])
    ensures VecStep(c, t, c.pcs[t]).slots == c.slots
  {
    hide ChunkOf;
  }

  lemma ReservesRightly(p: Phase, m: map<Key, Value>, p': Phase)
    requires p' == p || (p.Called? && p.op.Reserve? && p' == Decided(p.op, Reserved))
    ensures Simulates(p, m, p', m)
  {
  }

  /** Forward simulation: a step is one event of the atomic map, or no event at all. */
  lemma StepSimulates(s: Sys, t: Tid, a: Choice, s': Sys)
    requires Inv(s) && Step(s, t, a, s')
    ensures AnswersRightly(s.c, t, s'.c)
  {
    hide Inv, Record, IdleStep, GetStep, RemoveStep, PushStep, PopStep, InsertStep, VecStep, LookStep;
    var pc := s.c.pcs[t];
    if pc.Idle? {
      IdleAnswers(s.c, t, a);
    } else if InLook(pc) {
      LookAnswers(s, t);
    } else if InGet(pc) {
      GetAnswers(s, t, a);
    } else if InRemove(pc) {
      RemoveAnswers(s, t);
    } else if InPush(pc) {
      PushAnswers(s, t, a);
    } else if InPop(pc) {
      PopAnswers(s.c, t, a);
    } else if InInsert(pc) {
      InsertAnswers(s, t, a);
    } else if InVec(pc) {
      VecAnswers(s.c, t);
    } else {
      assert s.c.pcs == s.c.pcs[t := s.c.pcs[t]];
    }
  }

  // --------------------------------------------------------------------------------------------
  // Who holds which guard
  // --------------------------------------------------------------------------------------------

  /** The step decides a `get` as found. */
  predicate Finding(c: Conf, t: Tid, c': Conf) {
    && t in c.pcs && t in c'.pcs
    && PhaseOf(c'.pcs[t]).Decided? && PhaseOf(c'.pcs[t]) != PhaseOf(c.pcs[t])
    && PhaseOf(c'.pcs[t]).op.Get? && PhaseOf(c'.pcs[t]).res.Found?
  }

  /** Guards are dropped one by one, copied under a new name, and made by a `get` that found its key, for that key
      and under the name it answers; nothing else changes them. */
  ghost predicate GuardsRightly(c: Conf, t: Tid, a: Choice, c': Conf) {
    if Dropping(c, t, a) then c'.guards == c.guards - {a.g}
    else if Copying(c, t, a) then c.nextGid !in c.guards && c'.guards == c.guards[c.nextGid := c.guards[a.g]]
    else if Finding(c, t, c') then
      var op, res := PhaseOf(c'.pcs[t]).op, PhaseOf(c'.pcs[t]).res;
      res.gid !in c.guards && c'.guards == c.guards[res.gid := Guard(op.key, res.value)]
    else c'.guards == c.guards
  }

  lemma GuardSteps(s: Sys, t: Tid, a: Choice, s': Sys)
    requires Inv(s) && Step(s, t, a, s')
    ensures GuardsRightly(s.c, t, a, s'.c)
  {
    hide Inv, Record, IdleStep, GetStep, RemoveStep, PushStep, PopStep, InsertStep, VecStep, LookStep, PhaseOf;
    GuardIdsFresh(s);
    var c, pc := s.c, s.c.pcs[t];
    if pc.Idle? {
      GuardsFromIdle(c, t, a);
    } else if InGet(pc) {
      GuardsFromGet(c, t, a);
    } else {
      GuardsElsewhere(c, t, a);
    }
  }

  lemma GuardsFromIdle(c: Conf, t: Tid, a: Choice)
    requires t in c.pcs && c.pcs[t].Idle? && c.nextGid !in c.guards
    ensures GuardsRightly(c, t, a, IdleStep(c, t, a))
  {
  }

  lemma GuardsFromGet(c: Conf, t: Tid, a: Choice)
    requires t in c.pcs && InGet(c.pcs[t]) && c.nextGid !in c.guards
    ensures GuardsRightly(c, t, a, GetStep(c, t, a, c.pcs[t]))
  {
  }

  /** Away from a `get`, and from an idle thread, a step neither finds a key nor touches a guard. */
  ghost predicate NoGuardMoves(c: Conf, t: Tid, c': Conf) {
    c'.guards == c.guards && !Finding(c, t, c')
  }

  lemma GuardsElsewhere(c: Conf, t: Tid, a: Choice)
    requires t in c.pcs && !c.pcs[t].Idle? && !InGet(c.pcs[t])
    ensures NoGuardMoves(c, t, Next(c, t, a))
  {
    hide IdleStep, GetStep, RemoveStep, PushStep, PopStep, InsertStep, VecStep, LookStep, NoGuardMoves;
    var pc := c.pcs[t];
    if InLook(pc) || InRemove(pc) {
      GuardsFromLookups(c, t);
    } else if InPush(pc) || InPop(pc) {
      GuardsFromFreeList(c, t, a);
    } else if InInsert(pc) {
      GuardsFromInsert(c, t, a);
    } else if InVec(pc) {
      GuardsFromVec(c, t);
    } else {
      GuardsOtherwise(c, t, a);
    }
  }

  lemma GuardsFromLookups(c: Conf, t: Tid)
    requires t in c.pcs
    ensures InLook(c.pcs[t]) ==> NoGuardMoves(c, t, LookStep(c, t, c.pcs[t]))
    ensures InRemove(c.pcs[t]) ==> NoGuardMoves(c, t, RemoveStep(c, t, c.pcs[t]))
  {
    hide ChunkOf;
  }

  lemma GuardsFromFreeList(c: Conf, t: Tid, a: Choice)
    requires t in c.pcs
    ensures InPush(c.pcs[t]) ==> NoGuardMoves(c, t, PushStep(c, t, a, c.pcs[t]))
    ensures InPop(c.pcs[t]) ==> NoGuardMoves(c, t, PopStep(c, t, a, c.pcs[t]))
  {
  }

  lemma GuardsFromInsert(c: Conf, t: Tid, a: Choice)
    requires t in c.pcs && InInsert(c.pcs[t])
    ensures NoGuardMoves(c, t, InsertStep(c, t, a, c.pcs[t]))
  {
  }

  lemma GuardsFromVec(c: Conf, t: Tid)
    requires t in c.pcs && InVec(c.pcs[t])
    ensures NoGuardMoves(c, t, VecStep(c, t, c.pcs[t]))
  {
    hide ChunkOf;
  }

  lemma GuardsOtherwise(c: Conf, t: Tid, a: Choice)
    requires t in c.pcs && (c.pcs[t].Done? || c.pcs[t].Abandoned?)
    ensures NoGuardMoves(c, t, Next(c, t, a))
  {
    hide IdleStep, GetStep, RemoveStep, PushStep, PopStep, InsertStep, VecStep, LookStep;
  }

  // --------------------------------------------------------------------------------------------
  // Whole runs
  // --------------------------------------------------------------------------------------------

  /** The events of move `j`: one or none. */
  function EventsAt(states: seq<Sys>, moves: seq<Move>, j: nat): seq<Event>
    requires j < |moves| && |states| == |moves| + 1
  {
    var t, c, c' := moves[j].t, states[j].c, states[j + 1].c;
    if t in c.pcs && t in c'.pcs then EventsOf(c, t, moves[j].a, c') else []
  }

  /** The calls, closures' answers, effects, returns, and drops and copies of guards of the first `n` moves, in the
      order they happened. */
  function Trace(states: seq<Sys>, moves: seq<Move>, n: nat): seq<Event>
    requires n <= |moves| && |states| == |moves| + 1
  {
    if n == 0 then [] else Trace(states, moves, n - 1) + EventsAt(states, moves, n - 1)
  }

  /** How a step moves its thread's phase: it enters a call only from outside, and leaves only by returning; an
      insert goes on as its closure answers. */
  ghost predicate InOrder(pc: PC, a: Choice, pc': PC) {
    var p, p' := PhaseOf(pc), PhaseOf(pc');
    && (pc.Idle? && a.Call? <==> p.Out? && !p'.Out?)
    && (pc.Idle? && a.Call? ==> p' == Called(a.op))
    && (pc.Done? <==> !p.Out? && p'.Out?)
    && (p'.Called? && p' != p ==> p.Out?)
    && (pc.InsCall? && a.FOk? <==> p' != p && p'.Settled?)
    && (pc.InsCall? && a.FOk? ==> p' == Settled(pc.key, a.value))
    && (pc.InsCall? && a.FErr? <==> p' != p && p' == Decided(Insert, InsertFailed))
    && (pc.InsCall? && a.FPanic? <==> p' != p && p'.Stuck?)
  }

  lemma PhasesInOrder(c: Conf, t: Tid, a: Choice)
    requires t in c.pcs
    ensures InOrder(c.pcs[t], a, Next(c, t, a).pcs[t])
  {
    hide IdleStep, GetStep, RemoveStep, PushStep, PopStep, InsertStep, VecStep, LookStep, InOrder;
    assert c.pcs[t].Idle? || c.pcs[t].Done? || c.pcs[t].Abandoned? ==> InOrder(c.pcs[t], a, Next(c, t, a).pcs[t]) by {
      FromOutside(c, t, a);
    }
    LookupsInOrder(c, t, a);
    GetsInOrder(c, t, a);
    RemovesInOrder(c, t, a);
    PopsInOrder(c, t, a);
    PushesInOrder(c, t, a);
    InsertsInOrder(c, t, a);
    GrowthInOrder(c, t, a);
  }

  lemma FromOutside(c: Conf, t: Tid, a: Choice)
    requires t in c.pcs
    ensures c.pcs[t].Idle? || c.pcs[t].Done? || c.pcs[t].Abandoned? ==> InOrder(c.pcs[t], a, Next(c, t, a).pcs[t])
  {
    hide GetStep, RemoveStep, PushStep, PopStep, InsertStep, VecStep, LookStep;
  }

  lemma LookupsInOrder(c: Conf, t: Tid, a: Choice)
    requires t in c.pcs
    ensures InLook(c.pcs[t]) ==> InOrder(c.pcs[t], a, LookStep(c, t, c.pcs[t]).pcs[t])
  {
    hide ChunkOf;
  }

  lemma GetsInOrder(c: Conf, t: Tid, a: Choice)
    requires t in c.pcs
    ensures InGet(c.pcs[t]) ==> InOrder(c.pcs[t], a, GetStep(c, t, a, c.pcs[t]).pcs[t])
  {
  }

  lemma RemovesInOrder(c: Conf, t: Tid, a: Choice)
    requires t in c.pcs
    ensures InRemove(c.pcs[t]) ==> InOrder(c.pcs[t], a, RemoveStep(c, t, c.pcs[t]).pcs[t])
  {
  }

  lemma PopsInOrder(c: Conf, t: Tid, a: Choice)
    requires t in c.pcs
    ensures InPop(c.pcs[t]) ==> InOrder(c.pcs[t], a, PopStep(c, t, a, c.pcs[t]).pcs[t])
  {
  }

  lemma PushesInOrder(c: Conf, t: Tid, a: Choice)
    requires t in c.pcs
    ensures InPush(c.pcs[t]) ==> InOrder(c.pcs[t], a, PushStep(c, t, a, c.pcs[t]).pcs[t])
  {
  }

  lemma InsertsInOrder(c: Conf, t: Tid, a: Choice)
    requires t in c.pcs
    ensures InInsert(c.pcs[t]) ==> InOrder(c.pcs[t], a, InsertStep(c, t, a, c.pcs[t]).pcs[t])
  {
    hide InOrder, InsertStep;
    if c.pcs[t].InsCall? {
      ClosureInOrder(c, t, a);
    } else if InInsert(c.pcs[t]) {
      StoresInOrder(c, t, a);
    }
  }

  lemma ClosureInOrder(c: Conf, t: Tid, a: Choice)
    requires t in c.pcs && c.pcs[t].InsCall?
    ensures InOrder(c.pcs[t], a, InsertStep(c, t, a, c.pcs[t]).pcs[t])
  {
  }

  lemma StoresInOrder(c: Conf, t: Tid, a: Choice)
    requires t in c.pcs && InInsert(c.pcs[t]) && !c.pcs[t].InsCall?
    ensures InOrder(c.pcs[t], a, InsertStep(c, t, a, c.pcs[t]).pcs[t])
  {
    hide InsertStep;
    StorePhases(c, t, a);
  }

  lemma StorePhases(c: Conf, t: Tid, a: Choice)
    requires t in c.pcs && InInsert(c.pcs[t]) && !c.pcs[t].InsCall?
    ensures var p, p' := PhaseOf(c.pcs[t]), PhaseOf(InsertStep(c, t, a, c.pcs[t]).pcs[t]);
            p' == p || (p.Settled? && p' == Decided(Insert, Inserted(p.key, p.value)))
  {
  }

  lemma GrowthInOrder(c: Conf, t: Tid, a: Choice)
    requires t in c.pcs
    ensures InVec(c.pcs[t]) ==> InOrder(c.pcs[t], a, VecStep(c, t, c.pcs[t]).pcs[t])
  {
    hide InOrder, VecStep;
    if InVec(c.pcs[t]) {
      VecPhases(c, t);
      GrownInOrder(c.pcs[t], a, VecStep(c, t, c.pcs[t]).pcs[t]);
    }
  }

  lemma GrownInOrder(pc: PC, a: Choice, pc': PC)
    requires InVec(pc)
    requires var p, p' := PhaseOf(pc), PhaseOf(pc');
             p' == p || (p.Called? && p.op.Reserve? && p' == Decided(p.op, Reserved))
    ensures InOrder(pc, a, pc')
  {
  }

  /** The trace shows exactly the calls made, the answers returned, the closures' outcomes, and the drops and copies
      of guards. */
  lemma CallsAndReturnsShown(c: Conf, t: Tid, a: Choice)
    requires t in c.pcs
    ensures var pc, events := c.pcs[t], EventsOf(c, t, a, Next(c, t, a));
            && (forall op :: events == [Begins(t, op)] <==> pc.Idle? && a == Call(op))
            && (forall op, res :: events == [Returns(t, op, res)] <==> pc == Done(op, res))
            && (forall key, value :: events == [Settles(t, key, value)] <==> pc == InsCall(key) && a == FOk(value))
            && (events == [Effect(t, Insert, InsertFailed)] <==> pc.InsCall? && a == FErr)
            && (events == [Sticks(t)] <==> pc.InsCall? && a == FPanic)
            && (forall g :: events == [Drops(t, g)] <==> pc.Idle? && a == DropGuard(g) && g in c.guards)
            && (forall g :: (exists copy :: events == [Copies(t, g, copy)]) <==>
                  pc.Idle? && a == CloneGuard(g) && g in c.guards && c.slots[c.guards[g].key.idx].refs <= MAX_REFCOUNT)
  {
    hide Next, PhaseOf;
    PhasesInOrder(c, t, a);
    ShownPhases(c.pcs[t]);
    assert Copying(c, t, a) ==> EventsOf(c, t, a, Next(c, t, a)) == [Copies(t, a.g, c.nextGid)];
  }

  lemma ShownPhases(pc: PC)
    ensures pc.Idle? ==> PhaseOf(pc) == Out
    ensures pc.Done? ==> PhaseOf(pc) == Decided(pc.op, pc.res)
    ensures pc.InsCall? ==> PhaseOf(pc) == Called(Insert)
  {
  }

  lemma MeaningMoves(c: Conf, t: Tid, a: Choice, c': Conf)
    requires AnswersRightly(c, t, c') && GuardsRightly(c, t, a, c')
    requires Dropping(c, t, a) || Copying(c, t, a) ==> PhaseOf(c'.pcs[t]) == PhaseOf(c.pcs[t]) == Out
    ensures var events := EventsOf(c, t, a, c');
            || (events == [] && Meaning(c') == Meaning(c))
            || (|events| == 1 && SpecStep(Meaning(c), events[0], Meaning(c')))
  {
    hide Contents, PhaseOf, Allowed;
    var p, p' := Meaning(c).phases, Meaning(c').phases;
    assert p' == p[t := PhaseOf(c'.pcs[t])];
    assert PhaseOf(c'.pcs[t]) == PhaseOf(c.pcs[t]) ==> p' == p;
  }

  /** A step is one event of the atomic map or none, and its guards are the map's guards. */
  lemma StepEvents(s: Sys, t: Tid, a: Choice, s': Sys)
    requires Inv(s) && Step(s, t, a, s')
    ensures AnswersRightly(s.c, t, s'.c) && GuardsRightly(s.c, t, a, s'.c)
    ensures t in s.c.pcs && t in s'.c.pcs
    ensures var events := EventsOf(s.c, t, a, s'.c);
            || (events == [] && Meaning(s'.c) == Meaning(s.c))
            || (|events| == 1 && SpecStep(Meaning(s.c), events[0], Meaning(s'.c)))
  {
    hide Inv, Next, Record, Contents, PhaseOf, Meaning, EventsOf, SpecStep, Simulates, GuardsRightly;
    StepSimulates(s, t, a, s');
    GuardSteps(s, t, a, s');
    PhasesInOrder(s.c, t, a);
    ShownPhases(s.c.pcs[t]);
    MeaningMoves(s.c, t, a, s'.c);
  }

  lemma {:induction false} AcceptsOne(trace: seq<Event>, p: Spec, e: Event, p': Spec)
    requires Accepts(trace, p) && SpecStep(p, e, p')
    ensures Accepts(trace + [e], p')
  {
    hide SpecStep, SpecInit;
    assert (trace + [e])[..|trace|] == trace;
  }

  /**
   * Linearizability. What any number of threads do in a bounded run is a run of the atomic map: each call has
   * exactly one effect, between its call and its return, and the answer returned is the one decided there; an insert
   * stores exactly what its closure answered, under the key offered to it, and fails exactly if the closure declined;
   * the occupied slots are always the atomic map, and the guards are those handed out and not dropped.
   */
  lemma {:induction false} Linearizable(states: seq<Sys>, moves: seq<Move>, n: nat)
    requires IsRun(states, moves) && n <= |moves|
    ensures Accepts(Trace(states, moves, n), Meaning(states[n].c))
  {
    hide Bounded, Step, Init, Meaning, SpecStep, SpecInit, EventsAt;
    if n == 0 {
      StartsEmpty(states[0]);
    } else {
      Linearizable(states, moves, n - 1);
      EventsAllowed(states, moves, n - 1);
      var trace, events := Trace(states, moves, n - 1), EventsAt(states, moves, n - 1);
      if events == [] {
        assert trace + events == trace;
      } else {
        AcceptsOne(trace, Meaning(states[n - 1].c), events[0], Meaning(states[n].c));
        assert [events[0]] == events;
      }
    }
  }

  lemma EventsAllowed(states: seq<Sys>, moves: seq<Move>, j: nat)
    requires IsRun(states, moves) && j < |moves|
    ensures var events := EventsAt(states, moves, j);
            || (events == [] && Meaning(states[j + 1].c) == Meaning(states[j].c))
            || (|events| == 1 && SpecStep(Meaning(states[j].c), events[0], Meaning(states[j + 1].c)))
  {
    hide Inv, Bounded, Next, Record, AnswersRightly, GuardsRightly, Meaning, SpecStep, EventsOf;
    Reachable(states, moves, j);
    assert Step(states[j], moves[j].t, moves[j].a, states[j + 1]);
    StepEvents(states[j], moves[j].t, moves[j].a, states[j + 1]);
  }

  lemma StartsEmpty(s: Sys)
    requires Init(s)
    ensures SpecInit(Meaning(s.c))
  {
    forall key: Key ensures key !in Contents(s.c.slots) {
      InContents(s.c.slots, key);
      assert s.c.slots[key.idx] == ZEROED;
    }
  }

  // --------------------------------------------------------------------------------------------
  // What an insert stores, and which guard a get answers
  // --------------------------------------------------------------------------------------------

  /** Thread `t` does not take effect in the moves from `from` to before `to`. */
  ghost predicate Waits(states: seq<Sys>, moves: seq<Move>, t: Tid, from: nat, to: nat)
    requires to <= |moves| && |states| == |moves| + 1
  {
    forall j :: from <= j < to && moves[j].t == t ==>
      forall op, res :: EventsAt(states, moves, j) != [Effect(t, op, res)]
  }

  lemma SettledMoves(s: Sys, t: Tid, a: Choice, s': Sys, u: Tid, key: Key, value: Value)
    requires Inv(s) && Step(s, u, a, s')
    requires t in s.c.pcs && PhaseOf(s.c.pcs[t]) == Settled(key, value)
    ensures t in s'.c.pcs
    ensures || PhaseOf(s'.c.pcs[t]) == Settled(key, value)
            || (u == t && EventsOf(s.c, t, a, s'.c) == [Effect(t, Insert, Inserted(key, value))]
                && key !in Contents(s.c.slots) && Contents(s'.c.slots) == Contents(s.c.slots)[key := value])
  {
    hide Inv, Next, Record, Contents, PhaseOf;
    StepSimulates(s, u, a, s');
    ShownPhases(s.c.pcs[u]);
  }

  lemma {:induction false} StaysSettled(states: seq<Sys>, moves: seq<Move>, t: Tid, key: Key, value: Value, n: nat, m: nat)
    requires IsRun(states, moves) && n < m <= |moves|
    requires moves[n].t == t && t in states[n].c.pcs && states[n].c.pcs[t] == InsCall(key) && moves[n].a == FOk(value)
    requires Waits(states, moves, t, n + 1, m)
    ensures t in states[m].c.pcs && PhaseOf(states[m].c.pcs[t]) == Settled(key, value)
    decreases m
  {
    hide Inv, Bounded, Next, Record, Contents, PhaseOf, EventsOf;
    assert Step(states[m - 1], moves[m - 1].t, moves[m - 1].a, states[m]);
    if m == n + 1 {
      PhasesInOrder(states[n].c, t, moves[n].a);
    } else {
      StaysSettled(states, moves, t, key, value, n, m - 1);
      Reachable(states, moves, m - 1);
      SettledMoves(states[m - 1], t, moves[m - 1].a, states[m], moves[m - 1].t, key, value);
    }
  }

  /** The value the closure answered, at move `n`, is the value stored: when the insert takes effect, at move `m`, the
      map gains exactly that value under the key the closure was given. */
  lemma StoresTheAnswer(states: seq<Sys>, moves: seq<Move>, t: Tid, key: Key, value: Value, n: nat, m: nat, op: Op, res: Result)
    requires IsRun(states, moves) && n < m < |moves|
    requires moves[n].t == t && t in states[n].c.pcs && states[n].c.pcs[t] == InsCall(key) && moves[n].a == FOk(value)
    requires Waits(states, moves, t, n + 1, m)
    requires moves[m].t == t && EventsAt(states, moves, m) == [Effect(t, op, res)]
    ensures op == Insert && res == Inserted(key, value)
    ensures key !in Contents(states[m].c.slots)
    ensures Contents(states[m + 1].c.slots) == Contents(states[m].c.slots)[key := value]
  {
    hide Inv, Bounded, Next, Record, Contents, PhaseOf;
    StaysSettled(states, moves, t, key, value, n, m);
    Reachable(states, moves, m);
    assert Step(states[m], t, moves[m].a, states[m + 1]);
    SettledMoves(states[m], t, moves[m].a, states[m + 1], t, key, value);
    ShownPhases(states[m].c.pcs[t]);
  }

  /** In every bounded run the guards are changed by these steps alone: a drop takes away exactly its guard, a copy
      within the limit adds the same guard under a new name, and the step that decides a `get` as found adds a guard
      on its key, with its value, under the new name that the `get` answers. */
  lemma GuardsMove(states: seq<Sys>, moves: seq<Move>, n: nat)
    requires IsRun(states, moves) && n < |moves|
    ensures GuardsRightly(states[n].c, moves[n].t, moves[n].a, states[n + 1].c)
  {
    hide Inv, Bounded, Next, Record, GuardsRightly;
    Reachable(states, moves, n);
    assert Step(states[n], moves[n].t, moves[n].a, states[n + 1]);
    GuardSteps(states[n], moves[n].t, moves[n].a, states[n + 1]);
  }

  // --------------------------------------------------------------------------------------------
  // Consequences for every accepted trace
  // --------------------------------------------------------------------------------------------

  predicate Inserts(e: Event, key: Key) {
    e.Effect? && e.res.Inserted? && e.res.key == key
  }

  predicate Removes(e: Event, key: Key) {
    e.Effect? && e.op == Remove(key) && e.res == Removed(true)
  }

  function InsertCount(trace: seq<Event>, key: Key): nat {
    if trace == [] then 0
    else InsertCount(trace[..|trace| - 1], key) + Bit(Inserts(trace[|trace| - 1], key))
  }

  function RemoveCount(trace: seq<Event>, key: Key): nat {
    if trace == [] then 0
    else RemoveCount(trace[..|trace| - 1], key) + Bit(Removes(trace[|trace| - 1], key))
  }

  /** Each insert of a key is ended by exactly one winning remove, or is still there. */
  lemma {:induction false} OneRemoverPerInsert(trace: seq<Event>, p: Spec, key: Key)
    requires Accepts(trace, p)
    ensures InsertCount(trace, key) == RemoveCount(trace, key) + Bit(key in p.m)
    decreases |trace|
  {
    hide SpecStep, Inserts, Removes;
    if trace != [] {
      var last, before := trace[|trace| - 1], trace[..|trace| - 1];
      var p0 :| SpecStep(p0, last, p) && Accepts(before, p0);
      OneRemoverPerInsert(before, p0, key);
      OccupancyMoves(p0, last, p, key);
    }
  }

  lemma OccupancyMoves(p: Spec, e: Event, p': Spec, key: Key)
    requires SpecStep(p, e, p')
    ensures Bit(key in p.m) + Bit(Inserts(e, key)) == Bit(key in p'.m) + Bit(Removes(e, key))
  {
  }
}
