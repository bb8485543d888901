/** `Slot` as one thread runs it. */
module SlotCells {
  import opened Machine
  import opened Protocol

  /** What `acquire_guard` answers: `Ok(())`, `Err(needs_drop)`, or the assertion's panic. */
  datatype Acquired = Granted | Refused(needsDrop: bool) | Overflowed

  class SlotCell {
    var data: Cell
    var nextFree: u32
    var refCount: u32
    var version: u32

    /** One slot of a block from `alloc_zeroed`. */
    constructor Zeroed()
      ensures Reads() == ZEROED
    {
      data, nextFree, refCount, version := Uninit, 0, 0, 0;
    }

    function Reads(): Slot
      reads this
    {
      Slot(data, nextFree, refCount, version)
    }

    /** `compare_exchange_weak` on the count; it may fail for no reason where `mayFail` says so. */
    method ExchangeRefsWeak(current: u32, desired: u32, mayFail: bool) returns (ok: bool, seen: u32)
      modifies this`refCount
      ensures seen == old(refCount)
      ensures ok ==> old(refCount) == current && refCount == desired
      ensures !ok ==> refCount == old(refCount) && (old(refCount) == current ==> mayFail)
    {
      var spurious: bool := *;
      seen := refCount;
      ok := refCount == current && !(mayFail && spurious);
      if ok {
        refCount := desired;
      }
    }

    /** `acquire_guard`: run alone, it takes a reference exactly when the slot is referenced, below the
        limit, and at the expected version; otherwise it leaves the count as it was, and nothing to drop. */
    method AcquireGuard(expected: u32, spurious: nat) returns (r: Acquired)
      modifies this`refCount
      ensures r == if old(refCount) > MAX_REFCOUNT then Overflowed
                   else if old(refCount) == 0 || version != expected then Refused(false)
                   else Granted
      ensures refCount == if r.Granted? then Wrap(old(refCount) + 1) else old(refCount)
    {
      var refs := refCount;
      var budget := spurious;
      var raised := false;
      while !raised
        invariant refs == old(refCount)
        invariant if raised then 0 < refs <= MAX_REFCOUNT && refCount == refs + 1 else refCount == refs
        decreases !raised, budget
      {
        if refs > MAX_REFCOUNT {
          return Overflowed;
        }
        if refs == 0 {
          return Refused(false);
        }
        var seen;
        raised, seen := ExchangeRefsWeak(refs, refs + 1, budget > 0);
        if !raised {
          refs := seen;
          budget := budget - 1;
        }
      }
      if version == expected {
        return Granted;
      }
      var needsDrop := DecRefCount();
      return Refused(needsDrop);
    }

    /** `compare_exchange` on the version. */
    method ExchangeVersion(current: u32, desired: u32) returns (ok: bool, seen: u32)
      modifies this`version
      ensures seen == old(version) && (ok <==> old(version) == current)
      ensures version == if ok then desired else old(version)
    {
      seen := version;
      ok := version == current;
      if ok {
        version := desired;
      }
    }

    /** The loop of `remove`: the version is raised exactly when it is the expected one. */
    method EndVersion(expected: u32) returns (won: bool)
      modifies this`version
      ensures won <==> old(version) == expected
      ensures version == if won then Wrap(expected + 1) else old(version)
    {
      var current: u32 := version;
      won := false;
      while !won
        invariant current == old(version)
        invariant won ==> current == expected
        invariant version == if won then Wrap(expected + 1) else current
        decreases !won
      {
        if current != expected {
          return false;
        }
        var seen: u32;
        won, seen := ExchangeVersion(current, Wrap(current + 1));
        if !won {
          current := seen;
        }
      }
    }

    /** `inc_ref_count_for_clone`: the limit is checked after the count was raised. */
    method IncRefCountForClone() returns (panicked: bool)
      modifies this`refCount
      ensures refCount == Wrap(old(refCount) + 1)
      ensures panicked <==> old(refCount) > MAX_REFCOUNT
    {
      var before := refCount;
      refCount := Wrap(refCount + 1);
      panicked := before > MAX_REFCOUNT;
    }

    /** `dec_ref_count` */
    method DecRefCount() returns (needsDrop: bool)
      modifies this`refCount
      ensures refCount == Wrap(old(refCount) - 1)
      ensures needsDrop <==> old(refCount) == 1
    {
      var before := refCount;
      refCount := Wrap(refCount - 1);
      needsDrop := before == 1;
    }

    /** `drop_inner_value` */
    method DropInnerValue()
      requires data.Live?
      modifies this`data
      ensures data == Dropped
    {
      data := Dropped;
    }
  }
}
