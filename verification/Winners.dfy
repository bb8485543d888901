/** Concurrent removes of one occupancy: exactly one of them answers true. */
module Winners {
  import opened Machine
  import opened Location
  import opened Protocol
  import opened Invariant
  import opened Touching
  import opened Linearizability
  import opened Keys

  /** A named slot loses its name only to a remove. */
  lemma NameKept(s: Sys, t: Tid, a: Choice, s': Sys, key: Key)
    requires Inv(s) && Step(s, t, a, s') && Names(s.c, key)
    requires s'.h.logs[key.idx].removed == s.h.logs[key.idx].removed
    ensures Names(s'.c, key)
  {
    hide Inv, ThreadOk, SlotOk, IdleStep, GetStep, PushStep, PopStep, VecStep, LookStep, InsertStep, RemoveStep;
    var pc := s.c.pcs[t];
    At(s, t, key.idx);
    if InRemove(pc) {
      NameKeptByRemove(s.c, s.h, t, a, key);
    } else if InInsert(pc) {
      if pc.InsPub? && pc.key.idx == key.idx {
        KeeperFacts(s.c, s.h, t, key.idx);
      }
      VersionInInsert(s.c, t, a, key.idx);
    } else {
      VersionElsewhere(s.c, t, a, key.idx);
    }
  }

  lemma NameKeptByRemove(c: Conf, h: Hist, t: Tid, a: Choice, key: Key)
    requires t in c.pcs && t in h.wins && InRemove(c.pcs[t])
    requires Names(c, key) && Record(c, h, t, a).logs[key.idx].removed == h.logs[key.idx].removed
    ensures Names(RemoveStep(c, t, c.pcs[t]), key)
  {
  }

  lemma VersionInInsert(c: Conf, t: Tid, a: Choice, i: u32)
    requires t in c.pcs && InInsert(c.pcs[t]) && !(c.pcs[t].InsPub? && c.pcs[t].key.idx == i)
    ensures InsertStep(c, t, a, c.pcs[t]).slots[i].ver == c.slots[i].ver
  {
  }

  lemma VersionElsewhere(c: Conf, t: Tid, a: Choice, i: u32)
    requires t in c.pcs
    ensures c.pcs[t].Idle? ==> IdleStep(c, t, a).slots[i].ver == c.slots[i].ver
    ensures InLook(c.pcs[t]) ==> LookStep(c, t, c.pcs[t]).slots[i].ver == c.slots[i].ver
    ensures InGet(c.pcs[t]) ==> GetStep(c, t, a, c.pcs[t]).slots[i].ver == c.slots[i].ver
    ensures InPush(c.pcs[t]) ==> PushStep(c, t, a, c.pcs[t]).slots[i].ver == c.slots[i].ver
    ensures InPop(c.pcs[t]) ==> PopStep(c, t, a, c.pcs[t]).slots[i].ver == c.slots[i].ver
    ensures InVec(c.pcs[t]) ==> VecStep(c, t, c.pcs[t]).slots[i].ver == c.slots[i].ver
  {
    hide ChunkOf;
  }

  /** As long as nothing was removed from its slot, a key goes on naming it. */
  lemma {:induction false} StillNamed(states: seq<Sys>, moves: seq<Move>, key: Key, n: nat, m: nat)
    requires IsRun(states, moves) && n <= m < |states| && Names(states[n].c, key)
    requires states[m].h.logs[key.idx].removed == states[n].h.logs[key.idx].removed
    ensures Names(states[m].c, key)
    decreases m - n
  {
    hide Inv, Bounded, Next, Record;
    if n < m {
      RemovedGrows(states, moves, key.idx, n, m - 1);
      RemovedGrows(states, moves, key.idx, m - 1, m);
      StillNamed(states, moves, key, n, m - 1);
      Reachable(states, moves, m - 1);
      NameKept(states[m - 1], moves[m - 1].t, moves[m - 1].a, states[m], key);
    }
  }

  /** Fewer than 2^31 removals of its slot happened since the key was live. */
  ghost predicate Recent(states: seq<Sys>, key: Key, n: nat, m: nat)
    requires n < |states| && m < |states|
  {
    states[m].h.logs[key.idx].removed - states[n].h.logs[key.idx].removed < HALF
  }

  /** Until then, a key that was live stays live until it is removed, and does not come back. */
  lemma LiveOnce(states: seq<Sys>, moves: seq<Move>, key: Key, n: nat, j: nat, m: nat)
    requires IsRun(states, moves) && n <= j <= m < |states| && Recent(states, key, n, m)
    requires Names(states[n].c, key) && !Names(states[j].c, key)
    ensures !Names(states[m].c, key)
  {
    hide IsRun;
    RemovedGrows(states, moves, key.idx, n, j);
    RemovedGrows(states, moves, key.idx, j, m);
    if states[j].h.logs[key.idx].removed == states[n].h.logs[key.idx].removed {
      StillNamed(states, moves, key, n, j);
    } else {
      RemovedKeyStaysGone(states, moves, key, n, m);
    }
  }

  /** What an event of move `j` says about a key before and after it. */
  lemma EventFacts(states: seq<Sys>, moves: seq<Move>, key: Key, j: nat)
    requires IsRun(states, moves) && j < |moves|
    ensures |EventsAt(states, moves, j)| <= 1
    ensures EventsAt(states, moves, j) != [] ==>
              var e := EventsAt(states, moves, j)[0];
              && (Inserts(e, key) ==> !Names(states[j].c, key) && Names(states[j + 1].c, key))
              && (e.Effect? && e.op == Remove(key) ==> !Names(states[j + 1].c, key))
  {
    hide IsRun, EventsAt, Contents, PhaseOf, Meaning;
    RunShape(states, moves);
    EventsAllowed(states, moves, j);
    var s, s' := states[j], states[j + 1];
    InContents(s.c.slots, key);
    InContents(s'.c.slots, key);
    MeaningContents(s.c);
    MeaningContents(s'.c);
  }

  lemma MeaningContents(c: Conf)
    ensures Meaning(c).m == Contents(c.slots)
  {
    hide Contents, PhaseOf;
  }

  lemma TraceGrows(states: seq<Sys>, moves: seq<Move>, j: nat, key: Key)
    requires j < |moves| && |states| == |moves| + 1 && |EventsAt(states, moves, j)| <= 1
    ensures var events := EventsAt(states, moves, j);
            && InsertCount(Trace(states, moves, j + 1), key) ==
                 InsertCount(Trace(states, moves, j), key) + Bit(events != [] && Inserts(events[0], key))
  {
    hide PhaseOf, EventsOf;
    var before, events := Trace(states, moves, j), EventsAt(states, moves, j);
    assert Trace(states, moves, j + 1) == before + events;
    if events != [] {
      assert (before + events)[..|before|] == before;
    } else {
      assert before + events == before;
    }
  }

  lemma {:induction false} NotInsertedAgain(states: seq<Sys>, moves: seq<Move>, key: Key, n: nat, m: nat)
    requires IsRun(states, moves) && n <= m < |states| && Recent(states, key, n, m) && Names(states[n].c, key)
    ensures InsertCount(Trace(states, moves, m), key) == InsertCount(Trace(states, moves, n), key)
    decreases m - n
  {
    hide IsRun, EventsAt, Trace, InsertCount;
    if n < m {
      RunShape(states, moves);
      RemovedGrows(states, moves, key.idx, m - 1, m);
      NotInsertedAgain(states, moves, key, n, m - 1);
      EventFacts(states, moves, key, m - 1);
      TraceGrows(states, moves, m - 1, key);
      if !Names(states[m - 1].c, key) {
        LiveOnce(states, moves, key, n, m - 1, m);
      }
    }
  }

  lemma RunShape(states: seq<Sys>, moves: seq<Move>)
    requires IsRun(states, moves)
    ensures |states| == |moves| + 1
  {
    hide Bounded, Step, Init;
  }

  /**
   * The unique remover. A key is live at moment `n`; by moment `m`, fewer than 2^31 removals of its slot
   * later, at least one remove of it has taken effect, whatever it answered. Then exactly one remove of it
   * has answered true in between, however many ran and however they overlapped.
   */
  lemma ExactlyOneWinner(states: seq<Sys>, moves: seq<Move>, key: Key, n: nat, j: nat, m: nat)
    requires IsRun(states, moves) && n <= j < m < |states| && Recent(states, key, n, m)
    requires Names(states[n].c, key)
    requires EventsAt(states, moves, j) != [] && EventsAt(states, moves, j)[0].Effect?
    requires EventsAt(states, moves, j)[0].op == Remove(key)
    ensures RemoveCount(Trace(states, moves, m), key) == RemoveCount(Trace(states, moves, n), key) + 1
  {
    hide IsRun, EventsAt, Trace, InsertCount, RemoveCount, Contents, PhaseOf, Meaning, Accepts;
    RunShape(states, moves);
    EventFacts(states, moves, key, j);
    LiveOnce(states, moves, key, n, j + 1, m);
    NotInsertedAgain(states, moves, key, n, m);
    Linearizable(states, moves, n);
    Linearizable(states, moves, m);
    OneRemoverPerInsert(Trace(states, moves, n), Meaning(states[n].c), key);
    OneRemoverPerInsert(Trace(states, moves, m), Meaning(states[m].c), key);
    MeaningContents(states[n].c);
    MeaningContents(states[m].c);
    InContents(states[n].c.slots, key);
    InContents(states[m].c.slots, key);
  }
}
