/** The code never asks which thread runs it. */
module Anonymity {
  import opened Machine
  import opened Location
  import opened Protocol

  /** The same place in the code, with a block that thread `t` has just allocated. */
  function By(pc: PC, t: Tid): PC {
    match pc
    case InsChunkCas(i, block) => InsChunkCas(i, Block(t, block.serial))
    case ResChunkCas(chunk, last, block) => ResChunkCas(chunk, last, Block(t, block.serial))
    case _ => pc
  }

  /** Thread `u` of `d` does to the shared memory what thread `t` of `c` does, and arrives at the same place. */
  predicate Alike(c: Conf, t: Tid, d: Conf, u: Tid, c': Conf, d': Conf)
    requires t in c'.pcs && u in d.pcs
  {
    d' == c'.(pcs := d.pcs[u := By(c'.pcs[t], u)])
  }

  /**
   * A step depends on nothing but the shared memory, the thread's own place in the code and the choice made for it:
   * not on its number, and not on where any other thread is.
   */
  lemma StepsAlike(c: Conf, t: Tid, d: Conf, u: Tid, a: Choice)
    requires t in c.pcs && u in d.pcs && d.pcs[u] == c.pcs[t] && d == c.(pcs := d.pcs)
    ensures Alike(c, t, d, u, Next(c, t, a), Next(d, u, a))
  {
    hide IdleStep, GetStep, RemoveStep, PushStep, PopStep, InsertStep, VecStep, LookStep, Alike;
    var pc := c.pcs[t];
    if pc.Idle? {
      IdleAlike(c, t, d, u, a);
    } else if InLook(pc) {
      LookAlike(c, t, d, u);
    } else if InGet(pc) {
      GetAlike(c, t, d, u, a);
    } else if InRemove(pc) {
      RemoveAlike(c, t, d, u);
    } else if InPush(pc) {
      PushAlike(c, t, d, u, a);
    } else if InPop(pc) {
      PopAlike(c, t, d, u, a);
    } else if InInsert(pc) {
      InsertAlike(c, t, d, u, a);
    } else if InVec(pc) {
      VecAlike(c, t, d, u);
    } else {
      RestAlike(c, t, d, u, a);
    }
  }

  ghost predicate Twins(c: Conf, t: Tid, d: Conf, u: Tid) {
    t in c.pcs && u in d.pcs && d.pcs[u] == c.pcs[t] && d == c.(pcs := d.pcs)
  }

  lemma IdleAlike(c: Conf, t: Tid, d: Conf, u: Tid, a: Choice)
    requires Twins(c, t, d, u) && c.pcs[t].Idle?
    ensures Alike(c, t, d, u, IdleStep(c, t, a), IdleStep(d, u, a))
  {
    assert d.pcs == d.pcs[u := d.pcs[u]];
    if a.Call? {
      assert By(Begin(a.op), u) == Begin(a.op);
    }
  }

  lemma LookAlike(c: Conf, t: Tid, d: Conf, u: Tid)
    requires Twins(c, t, d, u) && InLook(c.pcs[t])
    ensures Alike(c, t, d, u, LookStep(c, t, c.pcs[t]), LookStep(d, u, d.pcs[u]))
  {
    hide ChunkOf;
    assert d.pcs == d.pcs[u := d.pcs[u]];
  }

  lemma GetAlike(c: Conf, t: Tid, d: Conf, u: Tid, a: Choice)
    requires Twins(c, t, d, u) && InGet(c.pcs[t])
    ensures Alike(c, t, d, u, GetStep(c, t, a, c.pcs[t]), GetStep(d, u, a, d.pcs[u]))
  {
  }

  lemma RemoveAlike(c: Conf, t: Tid, d: Conf, u: Tid)
    requires Twins(c, t, d, u) && InRemove(c.pcs[t])
    ensures Alike(c, t, d, u, RemoveStep(c, t, c.pcs[t]), RemoveStep(d, u, d.pcs[u]))
  {
  }

  lemma PushAlike(c: Conf, t: Tid, d: Conf, u: Tid, a: Choice)
    requires Twins(c, t, d, u) && InPush(c.pcs[t])
    ensures Alike(c, t, d, u, PushStep(c, t, a, c.pcs[t]), PushStep(d, u, a, d.pcs[u]))
  {
  }

  lemma PopAlike(c: Conf, t: Tid, d: Conf, u: Tid, a: Choice)
    requires Twins(c, t, d, u) && InPop(c.pcs[t])
    ensures Alike(c, t, d, u, PopStep(c, t, a, c.pcs[t]), PopStep(d, u, a, d.pcs[u]))
  {
  }

  lemma InsertAlike(c: Conf, t: Tid, d: Conf, u: Tid, a: Choice)
    requires Twins(c, t, d, u) && InInsert(c.pcs[t])
    ensures Alike(c, t, d, u, InsertStep(c, t, a, c.pcs[t]), InsertStep(d, u, a, d.pcs[u]))
  {
    assert d.pcs == d.pcs[u := d.pcs[u]];
  }

  lemma VecAlike(c: Conf, t: Tid, d: Conf, u: Tid)
    requires Twins(c, t, d, u) && InVec(c.pcs[t])
    ensures Alike(c, t, d, u, VecStep(c, t, c.pcs[t]), VecStep(d, u, d.pcs[u]))
  {
    hide ChunkOf;
  }

  lemma RestAlike(c: Conf, t: Tid, d: Conf, u: Tid, a: Choice)
    requires Twins(c, t, d, u) && (c.pcs[t].Done? || c.pcs[t].Abandoned?)
    ensures Alike(c, t, d, u, Next(c, t, a), Next(d, u, a))
  {
    hide IdleStep, GetStep, RemoveStep, PushStep, PopStep, InsertStep, VecStep, LookStep;
    assert d.pcs == d.pcs[u := d.pcs[u]];
  }
}
