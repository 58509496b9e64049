# Memory stall software harvester: a verified model

This project models the runtime of the memory stall software harvester (MSH) and two of the programs around it, and proves properties of the models with Dafny 4.11. `dafny verify dfyconfig.toml` checks everything.

* **The scavenger allocator and coroutine scheduler** (`libmsh/msh.c`). Every primary thread owns a table of coroutine slots; slot 0 is the primary itself. A shared table says where each scavenger lives. Threads take scavengers from a pool, steal them from threads that are blocked in a pthread call, finish them, compact their slots, rebuild two link structures, and drain what is left at cleanup. Two mechanisms synchronise them: an xchg spinlock and a per-thread `reallocatable` flag taken by compare-and-swap.
* **The spinlock** (`libmsh/spinlock.h`), also by itself.
* **The pointer-chasing workload** (`apps/src/primary/ptrchase.cpp`): shuffle, successor cycle, linking loop, chase.
* **The branch-record aggregation** (`profile/scripts/compute_ld_prob.py`): cached symbol lookup, strided split over workers, summed dictionaries.

## How it is built

| file | content |
|---|---|
| `Tables.dfy`, `Wrappers.dfy`, `Modular.dfy` | the two tables as values, scans over slot lists, the two list macros, hole-free lists; remainders |
| `Scheduler.dfy` | swap, finish, compaction, both link structures, the walk over the links |
| `Allocator.dfy` | stealing, the pool, init calls, `_allocate_scav`, `allocate_scav` |
| `Events.dfy` | whole events of one thread: a coroutine finishes, a blockable call ends, cleanup |
| `Runtime.dfy` | the same operations on mutable arrays, loop by loop, each method proved equal to its function |
| `Protocol.dfy` | any number of threads interleaving: a program counter per thread, the lock byte, the flags |
| `Invariant.dfy`, `InvariantProof.dfy` | the invariant and its proof for every action |
| `RunTheorems.dfy`, `Refinement.dfy`, `Progress.dfy` | what follows for every run: safety, a refinement, absence of deadlock |
| `Commute.dfy` | actions on the own context commute with everything else |
| `BigStep.dfy` | uninterrupted actions compute the functions of the whole operations |
| `CleanupRuns.dfy` | cleanup in the middle of everything else |
| `Divergences.dfy`, `MarkedEnter.dfy` | runs on which the code misses what it promises |
| `Spinlock.dfy`, `PtrChase.dfy`, `LbrProfile.dfy` | the other three cores |

Table sizes are symbolic: any number of threads, slots and scavengers. A `yield_ctx` has 20 bytes (`libmsh/msh.h:42-49`); `normal_next`, `special_next` and `crt_pos` are byte offsets and are modelled as such.

An action of `Protocol` is one access to the lock byte or a flag, one round of a loop that runs under the lock, or one stretch of code on the thread's own context. That grain is enough: in no reachable state can two threads have the same context in hand (`ThreadsNeverCollide`), and a stretch on the own context commutes with every action of every other thread (`OwnActionsCommute`). The operations are told twice, as functions (which the methods of `Runtime` compute) and as actions; `BigStep` proves that an uninterrupted thread computes the functions. A finish event may carry *any* position, so the invariant also covers the events whose position the code decodes wrongly. One consequence is kept apart: a primary that such an event has marked finished can still enter a blockable call, and then the invariant ends (`WideRunBy`, `WideRunKeepsInv`).

## Where the code departs from its promises

The model follows the code. Each departure has an exact condition, and the first five have a witness that is the end of a run from freshly initialised tables.

* After a swap or a steal, `crt_pos` holds a slot number (`libmsh/msh.c:286`, `294`, `522`), but `tl_sched_next_crt` divides it by 20 (`libmsh/msh.c:403`). Over every run, a scavenger's finish event retires it exactly if it has not been moved since it left the pool (`FinishHitsIffNeverMoved`), and another one exactly if it has been moved and lives in slot 20 or above (`FinishHitsAnotherIff`); and cleanup terminates exactly if that holds of every remaining scavenger (`CleanupDrainsIff`). Witness: `StolenScavengerNeverRetires`.
* `set_special_next` reads one word behind `idx_list` for the last slot (`libmsh/msh.c:327-335`); in the structure that word is `scav_num`. The links form a ring exactly if the last slot is free (`SpecialNextClosesRingIff`). Witness, for every table size: `FullThreadHasNoRing`.
* A robbed thread that still has its cap of scavengers leaves the blockable call without setting its special links (`libmsh/msh.c:636-638`, `806-812`), and this is the only way to lose a ring (`StaleOnlyAfterTheft`, `ExitRestoresRingIff`). Witness, for every cap of at least 2: `RobbedThreadKeepsStaleLink`; with a smaller cap it cannot happen (`CapOneKeepsRing`).
* The rollback of a failed steal restores the donor exactly if its list has no hole (`FailedStealIff`). In every run without a call by a primary that was marked finished by mistake, no thread that can be robbed has one (`WideRunIsRun`, `RunKeepsInv`); with such a call the tables can break. Witness: `MarkedPrimaryLosesScavenger`.
* Every donor is asked for the full demand, not the remainder (`libmsh/msh.c:556`), so one call may hand out more than demanded: exactly if there is room and the threads in a call up to some donor have something but too little, and with that donor too much (`OverallocatesIff`). The worst case, twice the demand less one, is attained by a run for every cap (`AllocationBoundIsTight`).
* `tl_swap_crts` compares byte offsets with slot numbers (`libmsh/msh.c:264-267`). This can only hit the primary's own link, and every path rewrites that link before it is used (`SwapKeepsLiveSlots`, `FinishEvent`).
* `build_symbol_map` gives symbols an inclusive end of start plus length, so neighbours share an address, and then the one-entry cache can change the answer of a lookup (`NeighboursConflict`). The lookups, and the counts of all traces, are unaffected exactly if every symbol's range is apart from the earlier ones or wholly covered by them (`CacheIsTransparentIff`, `CountsAgreeIff`).

## Model

| member | source | states |
|---|---|---|
| RunTheorems.PlacementOverRuns | libmsh/msh.c:242-318 | in every state of every run of any number of threads, slot q of thread t lists scavenger i if and only if the scavenger's `yc` points to that slot; so no scavenger is in two places |
| RunTheorems.LifecycleIsPartition | libmsh/msh.c:567-588 | in every state of every run a loaded scavenger is in exactly one of pool, slot, finished |
| RunTheorems.FinishedForever | libmsh/msh.c:312-317 | once finished, a scavenger stays finished and is never hosted again, over any later run |
| RunTheorems.FinishedCountExact | libmsh/msh.c:409-419 | with no finish event in progress, `finished_scav_cnt` exceeds the number of finished scavengers by exactly the number of `Finish(pos)` actions of the run that named neither 0 nor a used slot; so the two are equal if and only if there was none |
| RunTheorems.FinishedCountOfScaled | libmsh/msh.c:403-419 | the count is exact over every run in which each finishing scavenger still has its position in bytes |
| RunTheorems.HostedBound | libmsh/msh.c:461-475 | no thread ever hosts more than 2 * max - 1 scavengers, and with a cap of 1 never more than 1 |
| RunTheorems.InitAtMostOnce | libmsh/msh.c:598-632 | no two actions of a run, by whatever threads, call the init function of the same scavenger |
| RunTheorems.InitedIsCalled | libmsh/msh.c:608-624 | in every state of every run a scavenger has had at most one call, and is marked inited if and only if an earlier action called it |
| RunTheorems.InitBeforeUse | libmsh/msh.c:634-648 | a scavenger with an init function in a thread that runs, drains or is in a call has had it called, exactly once, by an earlier action |
| RunTheorems.ScaledIffNeverMoved | libmsh/msh.c:221-231 | in every state of every run a hosted scavenger's `crt_pos` is in bytes if and only if no swap and no steal has moved it since an action took it from the pool |
| RunTheorems.FinishHitsIffNeverMoved | libmsh/msh.c:401-419 | in every state of every run the finish event of a hosted scavenger retires it if and only if it has never been moved |
| RunTheorems.FinishHitsAnotherIff | libmsh/msh.c:401-419 | the same in every state of every run, moved meaning swapped or stolen since the pool; on the list of a running thread slot q / 20 is always used |
| RunTheorems.LinksOverRuns | libmsh/msh.c:320-376 | whenever a live primary runs, its list is hole-free, its link names the least used slot, both scans find that slot, and with n >= 1 scavengers the walk visits each once and returns if and only if the special links are up to date and the last slot is free |
| RunTheorems.LivenessAgreement | libmsh/msh.c:302-376 | in every state of every run a slot is runnable if and only if it is used, live or in cleanup, but for the slot in the middle of finishing; slot 0 never lists a scavenger |
| RunTheorems.ThreadsNeverCollide | libmsh/msh.c:549-564 | the contexts that two threads' next actions may touch are disjoint in every state of every run, and nobody steals from itself |
| RunTheorems.ActionsStayInside | libmsh/msh.c:548-565 | an action changes no context outside that footprint, except a flag by compare-and-swap (that it reads none either is `Commute.FrameAction`) |
| Commute.OwnActionsCommute | libmsh/msh.c:548-565 | in every state of every run, an action on the own context (creation, return, finish, cleanup, save, compaction scan, init call) and any action of any other thread can be taken in either order, with the same state as result |
| Commute.FrameAction | libmsh/msh.c:548-565 | an action gives the same result whatever the context and program counter of a thread it does not reach for: it reads nothing outside its footprint |
| RunTheorems.TableIsGuarded | libmsh/msh.c:640-646 | the scavenger table is written only by the lock holder, or by a host about the init of its own scavenger |
| RunTheorems.PrimarySurvives | libmsh/msh.c:401-447 | between two points of a run at which a thread did not save its primary, the primary's saved stack pointer, instruction pointer and registers are the same |
| RunTheorems.BirthCounts | libmsh/msh.c:650-660 | a thread just created counts in `scav_num` the scavengers it hosts, has both flags down, and its link is 20 if there are any and else 0 |
| RunTheorems.HandshakeOverCall | libmsh/msh.c:793-814 | from entering a blockable call on: if `reallocated` is false the context is exactly what it was, else exactly a proper suffix of the scavengers is gone |
| RunTheorems.WorkConservation | libmsh/msh.c:567-595 | a thread that leaves the pool loop with less than it needs leaves no loaded scavenger in the pool, or has no free slot |
| RunTheorems.LockOverRuns | libmsh/msh.c:640-642 | at most one thread holds the scavenger-table lock, and its byte is 0 if and only if none does |
| RunTheorems.StaleOnlyAfterTheft | libmsh/msh.c:806-812 | in every state of every run, a running thread with scavengers and a free last slot has no ring if and only if some earlier action was its exit from a call, robbed but at or above the cap, and since then it has neither finished a coroutine nor allocated |
| RunTheorems.CapOneKeepsRing | libmsh/msh.c:461-475 | with a cap below 2 no running thread with a free last slot ever lacks its ring |
| RunTheorems.RunsMeetEvents | libmsh/msh.c:401-447 | every reachable state meets the assumptions of the event theorems: `FinishEvent` while a primary runs, `ExitRestoresRingIff` behind a successful compare-and-swap, `CleanupDrainsIff` in cleanup |
| InvariantProof.ActionKeepsInv | libmsh/msh.c:242-814 | every action of every thread keeps the whole invariant: placement, lock, flags, lists, links, bounds, init, counts |
| InvariantProof.RunKeepsInv | libmsh/msh.c:168-209 | the tables as initialised satisfy the invariant, and so does every state of every run |
| InvariantProof.WideRunKeepsInv | libmsh/msh.c:793-796 | also in runs in which a primary that was marked finished by mistake enters a blockable call, the invariant holds up to the first such call |
| InvariantProof.WideRunIsRun | libmsh/msh.c:793-796 | without such a call a wide run is a run, so that everything proved of runs holds of it |
| Invariant.RelocatingKeepsPlaced | libmsh/msh.c:242-318 | taking one scavenger from where it is to a free slot, or away, keeps index lists and `yc` pointers inverse to each other |
| Refinement.ActionSimulates | libmsh/msh.c:250-277 | every action is a step of an abstract machine that knows only each scavenger's saved context: swaps, compaction, steals, links and locks are invisible |
| Refinement.RunRefines | libmsh/msh.c:499-516 | every run is a run of that abstract machine, from nothing hosted and nothing finished, and its k-th abstract step is the one shown by the k-th action: silent for swaps, steals, links and locks, a save only for the scavenger that ran or was initialised |
| Refinement.ContextSurvives | libmsh/msh.c:499-516 | between two points of a run between which no action is a save, init call or finish of a scavenger, its stack pointer, instruction pointer and registers are the same, whoever stole it |
| Refinement.ContextIsLastSaved | libmsh/msh.c:250-277 | in every state of every run the context stored for a hosted scavenger is the one of its own last save, or its entry point if there was none since the pool |
| Progress.NoDeadlock | libmsh/msh.c:798-803 | a thread that finds the lock or its own flag taken waits for a lock holder that is not waiting itself; after a bounded number of that holder's own actions the lock is free, and the flag of a thread leaving its call is up again |
| Progress.LockIsReleased | libmsh/msh.c:544-596 | a lock holder left alone releases the lock within a number of actions known in advance |
| Progress.HolderIsBounded | libmsh/msh.c:544-596 | under any interleaving, while a thread holds the lock each of its actions uses up one of a number of actions known when it is first looked at; the other threads' actions use up none |
| Progress.HolderAdvances | libmsh/msh.c:552-593 | every action of a lock holder is enabled and brings it closer to the release |
| BigStep.StealsAlone | libmsh/msh.c:477-542 | the uninterrupted rounds of a thief compute `realloc_scav` and end with the flag given back |
| BigStep.DonorsAlone | libmsh/msh.c:548-565 | the uninterrupted donor loop of the protocol computes the donor loop of `_allocate_scav`, flag handling included |
| BigStep.PoolAlone | libmsh/msh.c:567-595 | the uninterrupted pool loop computes the pool loop of `_allocate_scav` and releases the lock |
| BigStep.AllocatesAlone | libmsh/msh.c:634-648 | a thread that finds the lock free and is not interrupted ends with the tables of `allocate_scav` |
| BigStep.CreatesAlone | libmsh/msh.c:723-751 | an uninterrupted creation is `msh_alloc_ctx` |
| BigStep.ExitsAlone | libmsh/msh.c:798-814 | an uninterrupted exit is `msh_exit_blockable_call` |
| BigStep.PacksAlone | libmsh/msh.c:378-399 | the uninterrupted scans, waits and swaps of a compaction compute the loop of `tl_pack_crts` |
| BigStep.FinishesAlone | libmsh/msh.c:401-447 | an uninterrupted finish event, with any position, live or draining, is `tl_sched_next_crt` |
| Spinlock.MutexOverRuns | libmsh/spinlock.h:29-47 | for any number of threads at most one is inside, and the byte is 0 if and only if none is, with `spin_trylock` in the mix |
| Spinlock.UnlockLetsIn | libmsh/spinlock.h:29-42 | after an unlock any spinning thread gets in with at most two steps of its own |
| Spinlock.InAndOut | libmsh/spinlock.h:29-47 | a thread is let in exactly by an exchange of its own that finds 0, and leaves by unlocking only, with the byte 0; a failed `spin_trylock` does not wait |
| SlotList.FirstFree | libmsh/msh.c:37-44 | the least free slot, or -1 if and only if there is none |
| SlotList.LastUsed | libmsh/msh.c:46-54 | the greatest used slot, or -1 if and only if there is none |
| SlotList.FirstUsed | libmsh/msh.c:367-376 | the least used slot, or 0 if and only if there is none |
| SlotList.FirstLive | libmsh/msh.c:339-350 | the least runnable slot, or 0 if and only if there is none |
| SlotList.CountIsCard | libmsh/msh.c:461-468 | the count of a list is the number of its used slots from 1 up |
| SlotList.PushKeepsPrefix | libmsh/msh.c:36-44 | pushing onto a hole-free list keeps it hole-free, lands behind the last entry, and fails if and only if the list is full |
| SlotList.PopKeepsPrefix | libmsh/msh.c:46-54 | popping takes the last entry, keeps the list hole-free, and fails if and only if the list is empty |
| SlotList.RollbackIffPrefix | libmsh/msh.c:489-496 | pushing a popped entry back restores the list if and only if the list had no hole |
| Scheduler.PackCompacts | libmsh/msh.c:378-399 | compaction turns any slot list into a hole-free one with the same scavengers in the same order, each with its saved context |
| Scheduler.ScansAgree | libmsh/msh.c:339-376 | the two scans find the same slot whenever runnable and used agree |
| Scheduler.SwapKeepsLiveSlots | libmsh/msh.c:261-269 | the mixed-unit rewriting leaves the scavengers' slots alone; only the primary's link may be rewritten |
| Scheduler.SpecialNextClosesRingIff | libmsh/msh.c:320-337 | on a hole-free list the links form a ring if and only if the last slot is free |
| Allocator.AllocateLocked | libmsh/msh.c:544-596 | one call hands out at most 2 * demands - 1 scavengers, for any donors; the exact number is that of `AllocationExact` |
| Events.AllocationExact | libmsh/msh.c:544-596 | one call hands out exactly what can be read off flags, counts and pool beforehand: each thread in a call gives the minimum of the full demand, what it has and what fits, until the demand is met, and then the pool gives the minimum of what is lacking, there, and fits |
| Events.OverallocatesIff | libmsh/msh.c:552-565 | it hands out more than demanded if and only if there is room for that and some thread in a call tips the scales: those before it have something but less than the demand, and with its own scavengers it is more |
| Allocator.TwoDonorsAttainBound | libmsh/msh.c:552-565 | with one donor of one less than demanded and then one of all of it, an allocation hands out 2 * demands - 1 and empties both |
| Allocator.PoolTakesExactly | libmsh/msh.c:567-595 | the pool loop takes exactly the minimum of demanded, in the pool, and accommodated, and the pool shrinks by that |
| Allocator.AllocationConservesWork | libmsh/msh.c:567-595 | fewer than demanded only if no loaded scavenger is left in the pool or the requester is full |
| Allocator.StealMovesLast | libmsh/msh.c:481-530 | a round moves the donor's last scavenger, context intact, to the end of the thief's list, or changes nothing; which of the two is decided by what is available and what fits |
| Allocator.FailedStealIff | libmsh/msh.c:489-496 | a steal that finds the thief full leaves the donor as it was if and only if its list had no hole |
| Allocator.ReallocExact | libmsh/msh.c:477-542 | `realloc_scav` moves exactly the minimum of demanded, available and accommodated; the donor keeps its front, the thief gains the tail back to front |
| Events.DecodeIffScaled | libmsh/msh.c:403-408 | a scavenger's position decodes to its slot if and only if it has not been moved; otherwise to a smaller slot |
| Events.FinishHitsIffScaled | libmsh/msh.c:301-318 | a finish event retires its scavenger if and only if it has not been moved; moved and below slot 20, it marks the primary finished instead |
| Events.RetiresAnotherIff | libmsh/msh.c:401-419 | a finish event retires a scavenger other than its own if and only if its own has been moved, is in slot 20 or above, and slot q / 20 is used; the victim is the one there |
| Events.MovesLosePosition | libmsh/msh.c:279-295 | every swap or steal leaves a position that does not decode to the new slot |
| Events.AllocateScavKeepsSteady | libmsh/msh.c:634-648 | `allocate_scav` keeps a live thread hole-free and live, hosts exactly the returned number more behind the ones it had, and changes nothing at or above the cap |
| Events.FinishEvent | libmsh/msh.c:401-447 | after a finish with a live primary, whatever its special links were, the primary is resumed, its link names the least used slot, the survivors move up in order, and the links form a ring if and only if the last slot is free |
| Events.ExitRestoresRingIff | libmsh/msh.c:798-814 | leaving a call restores the link always; after a theft there is a ring if and only if the thread was left below the cap and the last slot is free, without a theft if and only if there was one on entry; for a snapshot full or not, stale or not |
| Events.CleanupEventIsDrain | libmsh/msh.c:432-441 | in cleanup a scheduling event allocates nothing and moves nothing: it finishes one position and resumes the least used slot |
| Events.NextOfInWords | libmsh/msh.c:416-416 | the next slot as computed in machine words: the offset over 20 in 64 bits, truncated to 16 |
| Events.DrainEmpties | libmsh/msh.c:753-791 | with positions in bytes, n hosted scavengers take n events, and then exactly those are newly finished and every slot is empty |
| Events.CleanupDrainsIff | libmsh/msh.c:753-791 | cleanup terminates if and only if no remaining scavenger has been moved since it left the pool |
| CleanupRuns.CleanupOverRun | libmsh/msh.c:753-791 | under any interleaving, a thread in cleanup hosts what it hosted less its own finished ones, gets nothing and loses nothing to others; every scavenger left and not in the middle of finishing is its own successor in both links; the thread is back with link 0 if and only if its list is empty, and with all positions in bytes if and only if it has had as many finish events as scavengers |
| CleanupRuns.CleanupRelinks | libmsh/msh.c:764-771 | what cleanup writes before it resumes anything: every used slot q gets both links 20 * q and keeps its saved stack and instruction pointer; free slots, lists and register sets stay as they were |
| Divergences.StolenScavengerNeverRetires | libmsh/msh.c:518-522 | a run in which a thread has stolen a scavenger: its finish event marks the live primary finished, the scavenger stays hosted and unfinished, and no number of cleanup events removes it |
| Divergences.AllocationBoundIsTight | libmsh/msh.c:552-565 | for every cap there is a run in which a thread hosts 2 * cap - 1 scavengers, so the bounds of one allocation and of `HostedBound` are attained |
| Divergences.FullThreadHasNoRing | libmsh/msh.c:327-335 | for every table size a run in which a thread uses all its slots and has no ring |
| Divergences.RobbedThreadKeepsStaleLink | libmsh/msh.c:806-812 | for every cap of at least 2 a run in which a robbed thread leaves its call and runs on, last slot free, without a ring |
| MarkedEnter.MarkedPrimaryLosesScavenger | libmsh/msh.c:481-496 | a run with exactly one such call, after which a slot lists a scavenger whose `yc` points to another slot |
| Runtime.ThreadCtx.constructor | libmsh/msh.c:168-181 | a context as `init_prim_table` leaves it |
| Runtime.ThreadCtx.PushBack | libmsh/msh.c:37-44 | the loop takes the least free slot and nothing else changes |
| Runtime.ThreadCtx.PopBack | libmsh/msh.c:46-54 | the loop empties the greatest used slot and nothing else changes |
| Runtime.ThreadCtx.NextAvailable | libmsh/msh.c:339-350 | returns the least runnable slot, or 0 |
| Runtime.ThreadCtx.FindUnfinished | libmsh/msh.c:367-376 | returns the least used slot, or 0 |
| Runtime.ThreadCtx.NeedMore | libmsh/msh.c:461-475 | returns what the used slots lack to the cap |
| Runtime.ThreadCtx.UpdateNextMap | libmsh/msh.c:354-365 | the primary's link becomes the offset of the least runnable slot, unless the primary is finished |
| Runtime.ThreadCtx.SetSpecialNext | libmsh/msh.c:320-337 | every special link becomes 0 if the word behind its slot is the empty mark and else 20 * (q + 1); for the last slot that word is `scav_num`; nothing else changes |
| Runtime.ThreadCtx.Swap | libmsh/msh.c:241-299 | exchanges index, yield context and register set of two slots, exchanges their numbers in every `normal`, and tells both scavengers their slots |
| Runtime.ThreadCtx.Finish | libmsh/msh.c:301-318 | the slot is not runnable; a hosted scavenger is retired; on an empty slot nothing more |
| Runtime.ThreadCtx.Pack | libmsh/msh.c:378-399 | the nested loops compute the compaction that `PackCompacts` is about |
| Runtime.StealRound | libmsh/msh.c:481-530 | one round with its rollback, on two contexts that share only the scavenger table, slot by slot: which index, pointers, registers, links, position and `yc` it writes |
| Runtime.ReallocScav | libmsh/msh.c:477-542 | the loop of rounds that `ReallocExact` is about |
| Runtime.TakeFlagAndSteal | libmsh/msh.c:554-560 | taking the flag, stealing and giving it back computes `realloc_scav` on the context with the flag up |
| Runtime.TakeFromDonors | libmsh/msh.c:548-565 | the donor loop over the whole thread table, every other context unchanged |
| Runtime.TakeFromPool | libmsh/msh.c:567-595 | the pool loop |
| Runtime.AllocateLocked | libmsh/msh.c:544-596 | both loops; at most 2 * demands - 1 handed out; fewer than demanded only if the pool is exhausted or the list full |
| Runtime.RunInit | libmsh/msh.c:612-630 | whatever init saves into its slot, the yield context is what it was, and the call is counted once |
| Runtime.CallInit | libmsh/msh.c:598-632 | the loop calls init for exactly the hosted scavengers that still need it |
| Runtime.AllocateScav | libmsh/msh.c:634-648 | need, allocation, init calls and links, as the function the event theorems are about |
| Runtime.InitPrimaryCtx | libmsh/msh.c:650-660 | link, count and both flags of a new primary |
| Runtime.AllocCtx | libmsh/msh.c:723-751 | -1 and nothing changed if and only if the thread number is beyond the table, else the allocated and initialised context |
| Runtime.SchedNext | libmsh/msh.c:401-447 | finish, link, compaction, allocation and the choice of the resumed slot, as the function `FinishEvent` is about; the finish counter goes up by one unless the position decodes to 0 |
| Runtime.EnterBlockableCall | libmsh/msh.c:793-796 | only the flag goes up |
| Runtime.ExitBlockableCall | libmsh/msh.c:798-814 | the slow path behind the compare-and-swap, as the function `ExitRestoresRingIff` is about |
| Runtime.LinkToSelf | libmsh/msh.c:761-771 | both links of every runnable slot q become 20 * q, its pointers stay, and nothing else changes |
| Runtime.Cleanup | libmsh/msh.c:753-791 | watched for any number of events and with any positions: the tables are those of that many cleanup events, and every slot that was runnable and is still used has both links 20 * q and its old pointers; it is over, with every slot empty, the link 0 and exactly the hosted scavengers newly finished, if and only if every position is in bytes and the limit allows one event per scavenger |
| PtrChase.GenCycle | apps/src/primary/ptrchase.cpp:109-129 | for every random sequence the result follows the permutation that these draws shuffle to, cyclically, and is one cycle: from any index the first n steps reach every index exactly once and step n is back |
| PtrChase.Shuffle | apps/src/primary/ptrchase.cpp:115-125 | for every random sequence the result is reached from the identity by n rounds, round i exchanging entry i with entry rnd[i] % n, and it is a permutation |
| PtrChase.EveryPermutationIsDrawn | apps/src/primary/ptrchase.cpp:115-125 | every permutation is the result of some draws |
| PtrChase.EveryCycleIsDrawn | apps/src/primary/ptrchase.cpp:109-129 | every single cycle is generated by some draws |
| PtrChase.FollowingIsSingleCycle | apps/src/primary/ptrchase.cpp:127-128 | following any permutation cyclically is one single cycle |
| PtrChase.LinkNodes | apps/src/primary/ptrchase.cpp:143-149 | the do-while loop ends after exactly n rounds, having linked every node of the job and no other |
| PtrChase.InitRun | apps/src/primary/ptrchase.cpp:131-154 | the nodes of a job are linked along one single cycle, the one that its draws generate |
| PtrChase.InitJobs | apps/src/primary/ptrchase.cpp:131-154 | the nodes of every job are linked along one single cycle of their own |
| PtrChase.Chase | apps/src/primary/ptrchase.cpp:163-170 | the loop ends at the node reached by that many links, each link counted |
| PtrChase.ChaseIsUniform | apps/src/primary/ptrchase.cpp:189-189 | n * reps steps return to node 0 and follow every node's link exactly reps times |
| PtrChase.Run | apps/src/primary/ptrchase.cpp:181-194 | whatever the random numbers, the chase over arrLen * reps links ends at node 0 having followed the link of each node of its job exactly reps times, and no other |
| LbrProfile.First | profile/scripts/compute_ld_prob.py:23-27 | the first symbol that covers an address, or -1 if and only if none does |
| LbrProfile.ScanFinds | profile/scripts/compute_ld_prob.py:23-27 | the scan answers with the name of the first covering symbol and the address less its object start, and fails if and only if none covers it |
| LbrProfile.CacheIsTransparentIff | profile/scripts/compute_ld_prob.py:16-27 | whatever lookups came before, the cached lookup equals the linear scan, if and only if the ranges are layered |
| LbrProfile.DisjointIsLayered | profile/scripts/compute_ld_prob.py:16-27 | pairwise disjoint ranges under inclusive ends are layered |
| LbrProfile.NeighboursConflict | profile/scripts/compute_ld_prob.py:300-300 | two neighbouring symbols as the map is built make the cache visible |
| LbrProfile.CountsAgreeIff | profile/scripts/compute_ld_prob.py:131-151 | whatever its cache holds from before, and with or without the predecessor lookups, a worker counts every trace as one pass without a cache would, if and only if the ranges are layered |
| LbrProfile.Worker.SymbolMapLookup | profile/scripts/compute_ld_prob.py:17-27 | for every cache: a hit has the name of a symbol that covers the address, the cached one if that does and else the first, and its offset plus that symbol's object start is the address; that symbol is remembered; a miss exactly if no symbol covers it; on layered ranges the answer of the linear scan |
| LbrProfile.Worker.LocalizeAddress | profile/scripts/compute_ld_prob.py:29-48 | a block starts at the first address and ends at the second, each local to the object of the symbol its lookup goes by, both of the block's name; none only if an address is uncovered or the names differ |
| LbrProfile.BlockIsExecution | profile/scripts/compute_ld_prob.py:52-61 | a block is counted at branch i if and only if it starts at the target of branch i and ends at the source of branch i - 1, both covered first by symbols of its name |
| LbrProfile.TallyIsSum | profile/scripts/compute_ld_prob.py:63-68 | for every trace and block the count is the number of the block's executions among the first 32 branches of each record, and the cycles are the sum of their cycles |
| LbrProfile.Worker.Record | profile/scripts/compute_ld_prob.py:63-68 | count and executions of one block grow by 1, its cycles by the given ones, in both dictionaries; every other block stays |
| LbrProfile.Worker.CreateControlFlowTuples | profile/scripts/compute_ld_prob.py:50-70 | cache and both dictionaries after a record, on all ranges, as the function that `LineRunTallies` equates with plain counting on layered ones |
| LbrProfile.LineRunTallies | profile/scripts/compute_ld_prob.py:50-70 | on layered ranges a record adds exactly the blocks between its consecutive branches |
| LbrProfile.Worker.LookUpPredecessors | profile/scripts/compute_ld_prob.py:72-92 | the cache after the lookups of the predecessor profile |
| LbrProfile.PredecessorTrail | profile/scripts/compute_ld_prob.py:72-78 | the predecessor profile looks up the source and then the target of every branch in order |
| LbrProfile.Worker.SubProcessLbr | profile/scripts/compute_ld_prob.py:131-151 | cache and both dictionaries after a part of the trace, by a process with any cache, predecessor lookups included, on all ranges; on layered ones exactly the blocks of its lines, with counts and cycles |
| LbrProfile.SplitConserves | profile/scripts/compute_ld_prob.py:161-171 | for every number of workers and every trace the workers' tallies add up to those of one pass |
| LbrProfile.StridedAt | profile/scripts/compute_ld_prob.py:161-163 | record j of part i is record i + j * n of the trace |
| LbrProfile.ProcCacheIsOnePass | profile/scripts/compute_ld_prob.py:165-171 | a process that handles several parts has the cache that one pass over all their records leaves |
| LbrProfile.MergeCounts | profile/scripts/compute_ld_prob.py:99-104 | keys are united and counts added |
| LbrProfile.MergeLatencies | profile/scripts/compute_ld_prob.py:109-114 | keys are united, cycles and counts each added |
| LbrProfile.CountTrace | profile/scripts/compute_ld_prob.py:154-176 | for any pool in which a process may handle several parts with one cache: every count, and every total of cycles and executions, is the sum over the parts, on all ranges; on layered ones the dictionaries of one sequential pass without a cache |
| LbrProfile.ProcessLbr | profile/scripts/compute_ld_prob.py:94-117 | every block has the sum of the counts of the parts; on layered ranges the number of its executions, and in a scavenger profile a latency of the sum of their cycles over that number |

## Left out

- Runtime.ThreadCtx.Swap: the writes to the scavenger table at `libmsh/msh.c:258-259` are guarded against index -1 like those at 281 and 289; the write before the table's start is not modelled.
- Events.FinishEvent: about events whose position decodes to the scavenger's slot; `FinishHitsIffScaled` says exactly which these are, and the protocol invariant covers all others.
- LbrProfile.ProcessLbr: on ranges that are not layered the counts are stated as sums over the parts; they then depend on which process handled which part.
- InvariantProof.ActionKeepsInv: not about the call of a primary that was marked finished by mistake; `MarkedPrimaryLosesScavenger` shows that the invariant does not survive it, and nothing is said of what follows.
- Weak memory, compiler barriers and torn accesses: actions are atomic and sequentially consistent.
- Inline assembly, stack switching, the gs base, setjmp and longjmp: resuming is a slot number, finishing is an event with a position.
- Loading scavengers (`dlopen`, `dlsym`, `wordexp`, the pool file, environment variables): the scavenger table is given.
- `loop_counter` memory: neither swap nor steal moves it.
- The pthread wrappers of `libmsh/pthread.c` beyond distinct thread numbers and the enter/exit bracket; scavengers make no pthread calls, and threads without a context of their own, which share one dummy flag, are not modelled.
- The 16-bit width of the links: the largest offset is 129 * 20, so nothing wraps; and the 32-bit indices of the workload, which fit its array.
- The dictionary of the predecessor profile (its lookups are modelled), cache-miss dictionaries, probabilities and printing of `compute_ld_prob.py`, and the parsing of its input: they would only add more counting of the same kind.
- `profile/scripts/llc_missed_pcs_rfile.py`, `read_func.py`, `read_func_process.py`, `read_lats.py`, the scavenger workloads, Makefiles and shell scripts.
