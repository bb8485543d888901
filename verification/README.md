# A lock-free slot map, modelled and proved

`AtomicSlotMap` hands out a key for every value stored, and lets any number of threads insert, look up,
remove and hold values at once without locks. It is a small memory manager made of three protocols over
shared atomics:

- the **slot life cycle**: a version (odd while occupied), a reference count (the map's share, guards, and
  lookups that have not finished) and the value itself, which the last reference drops;
- the **tagged free stack**: free slots linked through `next_free`, with a wrapping 32-bit tag in the head word;
- the **chunked vector**: chunks that grow by a factor of four, found by a logarithm, published by
  compare-and-swap.

The project has two layers.

**The step system** (`Protocol.dfy`) runs the public operations on any number of threads. A step is one atomic
load, store, exchange or fetch-and-add, or one access to a slot's value. `Sys` is the shared memory plus a
program counter with its local variables per thread (`Conf`) and a history no step reads (`Hist`: the free
list, who owns each slot, how often each slot was filled, dropped and removed from, and when each pop or push
read the head). `Invariant.Inv` is the one global invariant; `Touching.StepKeepsInv` is its induction step.
Everything about runs follows from it: linearizability, exact reference counts, reclamation, guards, keys,
chunks and progress.

Iterators are walked on top of it (`Walks.dfy`): between its loads a walking thread is idle in the step system, and
the `get` it makes is an ordinary call there. `Trips.dfy` builds concrete runs call by call; `Wraparound.dfy`,
`FullMap.dfy`, `Reuse.dfy` and `Overclone.dfy` use it for the runs that show where a bound is needed.

**The classes** (`SlotCells.dfy`, `Vec.dfy`, `SlotMap.dfy`, `Iter.dfy`) are the same code as one thread runs it,
in place, on slots in chunks, with its loops. A ghost field `sys` holds the protocol state the heap stands for.
`Valid()` says that the heap is coupled to it and that it ends a bounded run of the step system in which only that
thread moved (`Alone.FromStart`), between calls. What a caller sees is a plain map (`Contents`), the guards with
their values (`Held`), the leaked counts (`Leaked`), the key the next insert will use (`NextSlot`), the length and
the chunks; every method says what becomes of each of them. `Sequences.dfy` runs any list of calls against a plain
model that settles every answer and every key, and `Capacity.dfy` says what reserved room is worth.

## Assumptions

- Sequential consistency: every atomic access is one step, whatever ordering it names. A weak exchange may fail
  for no reason; a strong one may not. The closure of an insert is an arbitrary gap between two steps.
- `usize` has 64 bits, allocation succeeds, and the map outlives its guards.
- `Protocol.Bounded` states what the code relies on and does not check: at most 2^32 - 1 indices are pushed;
  fewer than 2^32 updates of the head fall between a pop's reading of the head and its exchange; no clone finds its
  slot's count at 2^32 - 1. Each of the three is shown to be needed by a run that breaks it alone (`FullMap.dfy`,
  `Wraparound.dfy`, `Overclone.dfy`).

## Where the code and its documentation differ

- "Panics if the slot map is full" (`src/lib.rs:266`, `292`, `323`): no check does. The indices handed out are usable
  exactly up to 2^32 - 1 of them (`FullMap.UsableIff`); then lookups miss and values are overwritten
  (`FullMap.FullMapOverwrites`, `FullMap.SentinelHidesFreeSlots`).
- "Will never allocate if it contains less keys than `capacity`" (`src/lib.rs:158`): values that guards keep count
  too. An insert allocates exactly if the slots in use fill the room (`SlotMap.AtomicSlotMap.NextFitsIff`,
  `Capacity.HeldValuesForceAllocation`).
- "Panics if the new allocation size overflows" (`src/lib.rs:693`): a sum past 2^64 reserves nothing and does not
  panic in a build without overflow checks (`SlotMap.AtomicSlotMap.Reserve`).
- "Chunks are allocated in order" (`src/vec.rs:205-206`): among at most 32 threads, always; among 33 or more, not in
  every run (`ChunkOrder.OrderBreaksIff`).
- The tag "completely" rules out ABA (`src/lib.rs:574-577`): up to 2^32 updates inside one pop
  (`Limits.StaleExchangeIff`, `Wraparound.TagWrapBreaksPop`).
- Keys are "unique" (`src/lib.rs:261`): up to 2^31 removals of one slot (`Keys.KeyFreshness`, `Reuse.KeyComesBack`).

## From code to steps

- `AtomicVec::get` (`src/vec.rs:107-126`, `319-331`): `LookLen`, `LookChunk`; `contains_key` (`src/lib.rs:254-259`): `ConVer`
- `SlotGuard::new`, `acquire_guard` (`src/guard.rs:23-51`, `src/slot.rs:61-103`): `GetRefs`, `GetCas`, `GetVer`, `GetBack`
- `remove` (`src/lib.rs:419-467`): `RemVer`, `RemCas`, `RemDec`, `RemCount`
- `drop_inner_value`, `push_free_index` (`src/slot.rs:144-151`, `src/lib.rs:603-629`): `Destroy`, `PushLoad`, `PushLink`, `PushCas`
- `pop_free_index` (`src/lib.rs:544-592`): `PopLoad`, `PopNext`, `PopCas`
- `try_insert_with_key` (`src/lib.rs:340-392`): `InsVer`, `InsCall`, `InsWrite`, `InsRefs`, `InsPub`, `InsCount`
- `push_zeroed`, `ensure_chunk_exists`, `reserve` (`src/vec.rs:89-100`, `171-189`, `272-314`): `InsLen`, `InsChunk`, `InsChunkCas`, `ResChunk`, `ResChunkCas`
- guard drop and clone (`src/guard.rs:119-138`, `src/owning_guard.rs:121-141`, `143-153`): the choices `DropGuard` and `CloneGuard` of an idle thread
- `LossyIter::next` (`src/iter.rs:36-63`): `AtLen`, `AtGetLen`, `AtChunk`, `AtVer`, `AtCall`, `AtGet` of `Walks.dfy`

## Model

| member | source | states |
|---|---|---|
| Touching.StepKeepsInv | src/lib.rs:340-629 | every step of every thread, within the bounds, keeps the global invariant: exact counts, slot ownership, the chain of free slots, guards, chunks and the element count together |
| Touching.Reachable | src/lib.rs:340-629 | the invariant holds in every state of every bounded run of any number of threads |
| Invariant.InitHolds | src/lib.rs:192-199 | a new map satisfies the invariant |
| Anonymity.StepsAlike | src/lib.rs:340-629 | what a step does depends on the shared memory, the place in the code and the choice alone: not on the thread's number, nor on where other threads are |
| Linearizability.StepSimulates | src/lib.rs:340-467 | forward simulation: each step changes nothing of the atomic map, or is one call, one answer of an insert's closure, one effect the atomic map allows at that moment, or one return |
| Linearizability.Linearizable | src/lib.rs:254-467 | any bounded run is a run of the atomic map, whose contents are always the occupied slots and whose guards are those handed out and not dropped: an insert stores, at the version store, exactly what its closure answered under the key offered to it, and fails exactly if the closure declined; remove takes effect at the version exchange, get at the matching version load, where it makes the one new guard it answers; a get may also panic, on a count above the limit |
| Linearizability.CallsAndReturnsShown | src/lib.rs:340-502 | a step shows a call, a return with an answer, a closure's value, refusal or panic, or a drop or copy of a guard if and only if it is that step |
| Linearizability.StoresTheAnswer | src/lib.rs:364-381 | in every bounded run, whichever thread inserts, when an insert whose closure answered a value takes effect, the map gains exactly that value under the key the closure was given |
| Linearizability.GuardsMove | src/guard.rs:23-51 | in every bounded run a drop takes away exactly its guard, a copy adds one equal guard, the step that decides a get as found adds a guard on its key under the new name it answers, and no other step changes the guards |
| Linearizability.ContentsInserted | src/lib.rs:381-387 | storing the odd version over a written value adds exactly that key and value to the map |
| Linearizability.ContentsRemoved | src/lib.rs:434-449 | raising a matching version takes exactly that key out of the map |
| Linearizability.OneRemoverPerInsert | src/lib.rs:419-467 | in every trace the atomic map accepts, a key's winning removes are its inserts, less one if it is still there |
| Winners.ExactlyOneWinner | tests/concurrent.rs:40-57 | once a remove of a key that was live has taken effect, exactly one remove of it answered true, however many overlapped, with fewer than 2^31 removals of its slot in between |
| Winners.LiveOnce | src/lib.rs:434-449 | within 2^31 removals of its slot a live key stays live until removed and then does not come back |
| Winners.StillNamed | src/lib.rs:434-449 | only a successful remove ends a key's life |
| Safety.ReferencesAccounted | src/slot.rs:26-29 | in every reachable state a slot's count is the map's share, plus unresolved acquirers, publishing inserters and removers past their exchange, plus guards, plus leaked counts |
| Safety.SlotPartition | src/lib.rs:344-460 | in every reachable state every index below `len` is free, owned by exactly one thread, or referenced, and never two of these |
| Safety.FreeListIsChain | src/lib.rs:544-629 | following `next_free` from the head lists exactly the free slots, once each, and ends at the sentinel within `len` links |
| Safety.HeadExchanges | src/lib.rs:580-591 | over any bounded run a pop's successful exchange takes exactly the head off the linked list, a push's puts exactly its index on it, and no other step changes the list, stale links and wrapping tags included |
| Safety.EmptyIffSeen | src/lib.rs:547-591 | in every bounded run a pop answers that no slot is free exactly where it reads the head, first or by a failed exchange, while the links from it list none; nothing else asks for a new index |
| Safety.PushedAfterEmpty | src/lib.rs:344-357 | a new index is asked for only after that very call saw the list empty |
| Safety.QuiescentSlot | src/lib.rs:451-460 | with nothing in flight a slot is occupied exactly when its value is alive, is free otherwise, and each earlier value was dropped once |
| Safety.QuiescentCounts | src/lib.rs:728-730 | with nothing in flight `len` is the occupied slots plus the free list, and `num_elems` is the number of occupied slots |
| Safety.LengthConserved | src/lib.rs:387-462 | in every reachable state `num_elems` is, modulo 2^32, the occupied slots less inserts not yet counted plus removes not yet counted |
| Safety.ExclusivelyOwned | src/slot.rs:155-167 | wherever a thread owns a slot (after a pop, before a push, before the write) it finds count zero and an even version |
| Safety.DropsLiveValue | src/slot.rs:136-151 | `drop_inner_value` always finds a live value, of an occupancy already removed and not dropped before |
| Safety.ZeroSeenOnce | src/slot.rs:117-134 | whoever lowers a count from one is alone with the slot, comes after the successful remove, and goes on to drop the value |
| Safety.DestroyEntered | src/guard.rs:119-131 | a thread comes to drop a value only by having seen the count reach zero |
| Safety.ReclaimedOnce | src/slot.rs:97-103 | over any bounded run, the times a slot's count was seen reaching zero are the values dropped there plus the one about to be, never more than its removes, and exactly as many once the slot is free |
| Safety.ZeroIsSticky | src/slot.rs:69-91 | over any bounded run a count at zero is changed only by the owning inserter's store of one |
| Safety.GuardedSlot | src/guard.rs:23-51 | in every reachable state the slot of a guard holds the guard's value, at the guard's version or the next, and is neither free nor owned |
| Safety.GuardStable | src/lib.rs:397-400 | over any bounded run a guard alive at two moments showed the same value all the time in between, whatever was removed or inserted |
| Keys.OfferedKey | src/lib.rs:359-361 | the version an insert offers is twice the removals of its slot plus one, modulo 2^32 |
| Keys.KeyFreshness | src/lib.rs:359-361 | two inserts into one slot publish the same key if and only if the removals before them differ by a multiple of 2^31 |
| Keys.RemovedKeyStaysGone | src/lib.rs:434-449 | a key that was live names a value later if and only if the slot is occupied then and the removals in between are a multiple of 2^31; so not between 1 and 2^31 - 1 of them |
| Reuse.KeyComesBack | src/lib.rs:359-361 | a bounded run in which a key names a value, is removed, and names the value of a later insert |
| Progress.FailuresBounded | src/lib.rs:547-591 | the failed exchanges of a pop or push, spurious ones aside, are at most the updates of the head since it began |
| Progress.LossesBounded | src/lib.rs:547-628 | in every run, within no bounds, the lost exchanges of a pop or push, spurious ones aside, are at most the changes other threads made to the head since it began |
| Progress.AcquireRetriesBounded | src/slot.rs:75-91 | the failed exchanges of `acquire_guard`, spurious ones aside, are at most the changes of that slot's count since it began |
| Progress.UncontendedExchange | src/lib.rs:610-628 | an exchange fails only spuriously if nobody updated the head since it was read |
| Progress.RemoveNeverRetries | src/lib.rs:430-449 | `remove` never issues a second exchange: a failed one leaves by the version mismatch |
| Progress.NoCircularWaiting | src/vec.rs:107-126 | an index below `len` without a chunk has its pusher still about to make the chunk |
| Progress.OnlyLookupsSpin | src/vec.rs:107-126 | a lookup spins exactly while the chunk of an index below `len` is missing |
| Progress.UncheckedNeverSpins | src/vec.rs:152-165 | in every reachable state the chunk exists for each slot a thread reads through `get_unchecked`, by a stale head or through a guard included, so only lookups ever wait |
| Progress.PusherPublishes | src/vec.rs:272-314 | two steps of that pusher make the chunk exist |
| Progress.ChunkPointersPermanent | src/vec.rs:297-312 | a chunk pointer goes from null to a block once and never changes |
| Progress.LoserFreesItsOwn | src/vec.rs:305-311 | a losing allocator frees its own unpublished block, and only that |
| Progress.NoBlockLeaks | src/vec.rs:272-314 | in every reachable state each block ever allocated is a chunk, or freed, or still with the thread that allocated it |
| Progress.BlockMade | src/vec.rs:272-287 | a step allocates a block if and only if it finds the chunk it wants missing |
| Progress.BlocksSafe | src/vec.rs:272-314 | in every reachable state no published block was freed and no two chunks share one |
| ChunkOrder.OrderBreaksIff | src/vec.rs:205-206 | some bounded run of a number of threads has a chunk missing below an existing one if and only if there are at least 33 threads |
| ChunkOrder.OutOfOrderNeeds | src/vec.rs:205-206 | if chunk j is missing below an existing one in a bounded run, the run has more threads than chunk j has slots, 32 * 4^j |
| ChunkOrder.ReservationsLast | src/vec.rs:171-189 | in every bounded run, once a `reserve` has answered, the chunks up to its last one exist, then and from then on |
| Progress.ChunksInOrder | src/vec.rs:196-213 | a missing chunk below an existing one has the pusher of its first index on its way to it |
| FullMap.IssuedInTurn | src/vec.rs:89-100 | in every run, within no bounds, the pushes return 0, 1, 2, ... modulo 2^32, and the length is their number modulo 2^32 |
| FullMap.UsableIff | src/lib.rs:266 | in every run the indices handed out are pairwise different and never the sentinel, if and only if at most 2^32 - 1 were handed out |
| FullMap.FullMapOverwrites | src/vec.rs:89-100 | a run of 2^32 - 1 inserts with every thread idle, after which one more takes the sentinel's index, a get of a key in the map misses, and the next owns slot 0 under that very key and writes over its live value |
| FullMap.SentinelHidesFreeSlots | src/lib.rs:603-629 | a run in which slot 0 is the free list, the sentinel's slot is given back on top of it, and then, with every thread idle, the list reads as empty and the next insert pushes index 0 anew |
| Limits.CloneExactIff | src/slot.rs:109-115 | in every reachable state, after a clone the count is still the references there are, the leaked one included, if and only if it was below 2^32 - 1 |
| Overclone.CountWraps | src/slot.rs:109-115 | a run within every other bound with one clone at the last count, after which the count of a value in the map and under a guard is zero and a get of its key, called then, misses |
| Limits.GetPanicsIff | src/slot.rs:75-76 | a get panics if and only if it reads more references than the limit, and then so many references exist |
| Limits.StaleExchangeIff | src/lib.rs:563-591 | a pop's exchange finds the word it read if and only if the same slot is first and the updates since are a multiple of 2^32 |
| ChunkOrder.ChunksOutOfOrder | src/vec.rs:205-206 | for each number of threads from 33 on, a bounded run in which chunk 1 exists before chunk 0 |
| Wraparound.TagWrapBreaksPop | src/lib.rs:563-591 | a run in which every state is within three pushes, no leaks and the window of every other thread's pop, with exactly 2^32 updates inside one pop, whose stale exchange makes another thread's slot the head of the free list |
| Location.StartsTable | src/vec.rs:246-262 | the table of chunk starts is 32 * (4^k - 1) / 3 and the running sum of the chunk sizes |
| Location.ChunkIndexBrackets | src/vec.rs:229-240 | for every 32-bit index the logarithm selects chunk k at most 14 with its start at most the index, below the start plus 32 * 4^k: no underflow in the offset |
| Location.LocationInjective | src/vec.rs:228-268 | different indices have different locations |
| Location.LocationSurjective | src/vec.rs:228-268 | every place whose index fits in 32 bits is the location of that index |
| Machine.KeyRoundTrip | src/util.rs:18-46 | a key packed with an odd version reads back as it was |
| Machine.UnpackPack | src/lib.rs:92-105 | the packed head reads back as it was |
| SlotCells.SlotCell.AcquireGuard | src/slot.rs:61-103 | run alone, takes one reference exactly if the count is positive and within the limit and the version matches; otherwise the count ends as it was and nothing is to drop |
| SlotCells.SlotCell.EndVersion | src/lib.rs:430-449 | raises the version if and only if it is the expected one |
| SlotCells.SlotCell.IncRefCountForClone | src/slot.rs:109-115 | adds one, wrapping, and panics exactly above the limit |
| SlotCells.SlotCell.DecRefCount | src/slot.rs:123-134 | subtracts one, and tells exactly whether it was the last |
| Vec.AtomicVec.EnsureChunkExists | src/vec.rs:272-314 | keeps an existing chunk; a missing one becomes the full number of zeroed slots, distinct from all others |
| Vec.AtomicVec.PushZeroed | src/vec.rs:89-100 | returns the old length and raises it by one modulo 2^32, and the index then has its chunk; older chunks are untouched |
| Vec.AtomicVec.Get | src/vec.rs:107-126 | the slot at the index's location if the index is below `len`, otherwise nothing |
| Vec.AtomicVec.AtInjective | src/vec.rs:228-268 | different indices are different slots |
| Vec.AtomicVec.Reserve | src/vec.rs:171-189 | panics exactly if the target, a 64-bit sum, passes 2^32; otherwise all chunks up to the last one wanted exist and no other changed |
| Vec.AtomicVec.FreeChunks | src/vec.rs:355-366 | each chunk that exists is freed once, with the size it was allocated with |
| Vec.AtomicVec.Capacity | src/vec.rs:196-213 | counts the chunks before the first missing one, whole; every index below the answer has its chunk |
| Vec.CapacityAfterReserve | src/vec.rs:171-213 | once all chunks up to a target's last index exist, the capacity is at least the target |
| Vec.WithinCapacity | src/vec.rs:196-213 | every index below the capacity has its chunk |
| SlotMap.AtomicSlotMap.New | src/lib.rs:192-199 | an empty map: no key, guard, leaked count, index or chunk, and the first key known |
| SlotMap.AtomicSlotMap.PopFreeIndex | src/lib.rs:544-592 | run alone, takes the head of the list under the next tag, or finds the list empty, through any spurious failures |
| SlotMap.AtomicSlotMap.PushFreeIndex | src/lib.rs:603-629 | run alone, links the slot to the old head and makes it the head under the next tag; no other slot changes |
| SlotMap.AtomicSlotMap.TryInsertWithKey | src/lib.rs:340-392 | calls the closure on the key the next insert uses, whose slot nothing refers to; stores its value under that new key, or, if it declines, leaves the map as it was with the very same key next; adds exactly the chunk of that index; in a full map it hands out the sentinel's key and the length becomes 0 |
| SlotMap.AtomicSlotMap.Insert | src/lib.rs:280-284 | the same with a value, which is always stored |
| SlotMap.AtomicSlotMap.NextFitsIff | src/lib.rs:158 | the next insert finds its chunk if and only if fewer slots are in use, by keys, guards or leaks, than there is room for |
| SlotMap.AtomicSlotMap.NextSlotIs | src/lib.rs:344-361 | the next key is the top of the stack of free keys, or the first of a new slot; the map is full exactly when the stack is empty and 2^32 - 1 slots are out |
| SlotMap.AtomicSlotMap.ReferencesAre | src/slot.rs:26-29 | between calls a slot counts its key if it has one, the guards on it and the leaked counts |
| SlotMap.AtomicSlotMap.Remove | src/lib.rs:419-467 | answers whether the key was there and takes exactly it out; guards and their values stay; if nothing refers to the slot its value is dropped and it is the next to be used, under its next version |
| SlotMap.AtomicSlotMap.Release | src/guard.rs:119-138 | lowers the count, and exactly at the last reference drops the value and then recycles the slot; no other slot changes |
| SlotMap.AtomicSlotMap.Get | src/guard.rs:23-51 | a new guard with the key's value exactly if the key is there and the references are within the limit; otherwise nothing changes |
| SlotMap.AtomicSlotMap.ContainsKey | src/lib.rs:254-259 | true exactly for the keys of the map |
| SlotMap.AtomicSlotMap.LossyLen | src/lib.rs:728-730 | run alone, the number of keys |
| SlotMap.AtomicSlotMap.Capacity | src/lib.rs:777-779 | the room in the chunks before the first missing one |
| SlotMap.AtomicSlotMap.Reserve | src/lib.rs:704-707 | room for the keys there are and `additional` more, by exactly the chunks of the first indices wanted, or a panic exactly if the indices do not suffice; slots, keys and guards unchanged; a sum past 2^64 reserves nothing |
| SlotMap.AtomicSlotMap.WithCapacity | src/lib.rs:228-235 | an empty map with at least the room asked for, nothing lingering, and exactly the chunks of that many indices; or a panic exactly above 2^32 |
| Capacity.InsertAll | src/lib.rs:344-357 | while nothing lingers, as many inserts as there is room for allocate no chunk and lose nothing, and an insert takes the sentinel's index exactly if it finds 2^32 - 1 keys |
| Capacity.ReserveThenInsert | src/lib.rs:704-707 | reserving for some values and inserting them leaves the chunks as the reservation left them |
| Capacity.WithCapacityThenInsert | src/lib.rs:156-158 | a map made with a capacity takes that many values without allocating |
| Capacity.HoldAll | src/lib.rs:158 | a map with room for 32 slots and no key, all of whose slots are in use by guards on removed values |
| Capacity.InsertAllocates | src/lib.rs:158 | an insert into a map with as many slots in use as it has room for allocates a chunk |
| Capacity.HeldValuesForceAllocation | src/lib.rs:158 | the two together: with no key, room for 32 and one chunk, the next insert allocates |
| SlotMap.AtomicSlotMap.Drop | src/vec.rs:334-367 | with no guard left, drops exactly the values still in the map, each of them alive until then, then frees every chunk once; only values with leaked counts stay |
| SlotMap.SlotGuard.Deref | src/guard.rs:103-110 | the value the guard was made with |
| SlotMap.SlotGuard.Drop | src/guard.rs:119-138 | one guard fewer, the map unchanged; if it was the last reference the slot is the next to be used |
| SlotMap.SlotGuard.Clone | src/owning_guard.rs:143-153 | one more guard on the same key and value, or, exactly above the limit, a panic; one more reference either way while there are fewer than 2^32 - 1, and otherwise the count is raised modulo 2^32 |
| Sequences.Run | tests/basic.rs:126-176 | any list of inserts, failing inserts, removes, lookups, and copies and drops of guards on a new map answers, keys included, as a plain map, a bag of held values and a stack of free keys determine; it ends early exactly at an insert with no slot free and 2^32 - 1 out, or a copy on a slot with 2^32 - 1 references |
| Alone.IdleSlot | src/slot.rs:26-31 | between calls a slot's value is alive exactly as long as the map, a guard or a leaked count refers to it |
| Alone.SoloAllocate | src/lib.rs:344-372 | the protocol from call to closure, alone: a slot off the list, or the next index with its chunk |
| Alone.SoloStore | src/lib.rs:376-391 | the protocol from closure to return, alone: the key is new, and the map gains exactly it |
| Alone.SoloGiveBack | src/lib.rs:363-372 | a declined insert, alone: the map is unchanged and the next insert gets the very same key |
| Alone.SoloRemoval | src/lib.rs:419-467 | a remove that hits, alone: version, count, value, free list and element count, and which key comes next |
| Alone.SoloGet | src/slot.rs:61-103 | a get, alone: one reference and one guard more, or nothing |
| Alone.SoloGuardDrop | src/guard.rs:119-138 | a guard's drop, alone, up to recycling |
| Alone.PushedOnlyWhenFull | src/lib.rs:344-357 | with no value lingering and no slot free, every slot there is holds a key |
| Alone.FullWhenAllOccupied | src/lib.rs:266 | with nothing lingering, the map is full if and only if it has 2^32 - 1 keys |
| Alone.NothingLingersWhen | src/slot.rs:26-29 | nothing lingers if every guard is on a key still there and no count leaked |
| Alone.SweptAll | src/slot.rs:188-199 | what the final drop drops is exactly what the map holds |
| Walks.Projects | src/iter.rs:36-63 | a run with iterators is a run of the step system |
| Walks.YieldsAscend | src/iter.rs:36-63 | in every run the indices one iterator yields strictly increase, whatever other threads do |
| Walks.YieldsKept | src/iter.rs:36-63 | what was yielded stays yielded; later keys are appended |
| Walks.YieldedWasLive | src/iter.rs:55-59 | every yielded key was in the map, with the value its guard shows, at a moment after the thread entered that `next` and before it left |
| Walks.PanicsWhenCrowded | src/slot.rs:75-76 | a `next` that panics at a key read a count of its slot above the limit at a moment after the thread entered that `next` and before it left |
| Walks.EndsPastEveryIndex | src/iter.rs:37-41 | `next` answers that nothing is left exactly when it reads a length at or below its index, and then every index handed out so far has been passed |
| Walks.HowNextEnds | src/iter.rs:36-63 | in every run a thread leaves `next` exactly by yielding one key, by panicking at one, or by reading a length at or below its index; the iterator changes by just that, and from anywhere else the call goes on |
| Walks.HowNextPasses | src/iter.rs:45-60 | in every run `next` goes on to another index exactly if it read an even version or its `get` found nothing; it waits exactly while the chunk is missing, and any other step keeps the index |
| Walks.TakenBelowLen | src/iter.rs:37-48 | an index taken from the iterator is below the length when `get` reads it |
| Walks.NotPassedOver | src/iter.rs:36-63 | a key in the map from before its index is taken until the index is passed was yielded, or `next` panicked at it |
| Walks.NothingMissed | src/iter.rs:36-63 | a key in the map all the time from before the iterator comes to its index until a `next` ends, in whatever way, yielding nothing and without a panic, was yielded, or `next` panicked at that very key |
| Iter.LossyIter.Next | src/iter.rs:36-63 | run alone, a guard on the key with the smallest index not yet passed, or the end exactly if none is left |
| Iter.Collect | src/iter.rs:36-63 | run alone, the iteration panics if and only if some key has more references than the limit, having yielded exactly the keys before the first such; otherwise it yields every key; each once, in ascending order of indices, with one new guard on its value |

## Left out

- Linearizability.Linearizable: assumes sequential consistency; acquire, release and relaxed orderings and the fence are not modelled.
- SlotMap.AtomicSlotMap.TryInsertWithKey: takes the closure as a function of the key; a closure that uses the map, or panics and abandons its slot, is in the step system only. Of a full map it says what the call returns and what becomes of the length and the head, and no more: the map is not `Valid()` after it.
- SlotMap.SlotGuard.Clone: after a clone on a slot with 2^32 - 1 references the map is not promised to be `Valid()`; `Overclone.CountWraps` shows why.
- SlotMap.AtomicSlotMap.Get: the branch where a lookup that backs out was the last reference cannot be taken by one thread alone; it is in the step system (`GetBack`, `Destroy`).
- SlotMap.AtomicSlotMap.Drop: the null check for a chunk whose allocation panicked, which allocation that succeeds never needs.
- Vec.AtomicVec.GetUnchecked: the waiting loop is in the step system (`LookChunk`); one thread alone finds the chunk at its first load, and `Progress.UncheckedNeverSpins` says that no thread waits there.
- Vec.AtomicVec.Reserve: in the step system `reserve` is called with the last chunk wanted; only the class computes it. A build with overflow checks panics on a sum past 2^64.
- Progress.FailuresBounded: a bound on retries, not a statement about schedules or fairness.
- `get_owning` and `OwningSlotGuard` are `get` and `SlotGuard` with an `Arc` on the map; the `Arc` is not modelled.
- Panics in a value's destructor, raw pointers, layouts, `Send` and `Sync`.
- Code under `cfg(loom)`, which repeats the same protocol for a test tool.
- `Display`, `Debug`, `Default`, `AsRef`, `insert_with_key` and `lossy_is_empty`, which forward to what is modelled.
