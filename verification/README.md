# SysLink: remapping, lists, registry and reference counts

A Dafny model of the algorithms in the SysLink user-space code for TI OMAP4, with proofs.
`dafny verify dfyconfig.toml` checks the whole project.

What is modelled:

- **Intrusive rings** (`Rings.dfy`): the circular doubly linked lists of `list_utils.h` as objects on
  the heap. The macros take the two link fields as arguments, so the direction is a parameter. A ghost
  sequence says what the ring is; `RingUnique` shows that the links leave no choice of sequence. The
  reverse macros are the same methods on `Mirror(s)`, which `MirrorRing` justifies.
- **Page-width inference** (`WidthInference.dfy`): how the Ducati-to-Chiron remapper guesses the page
  width and height of a 2D block, when the guess is right, and what the documented limit is worth.
- **Remapping** (`RemapCache.dfy`, `Ledger.dfy`, `RemapProtocol.dfy`, `Remapper.dfy`): the list-backed
  cache; a state machine whose steps are single driver or cache calls by any number of threads, each of
  which may fail; and the two public functions as methods over the real cache, each shown to be a run of
  that machine. A ledger records, for registrations and for mappings, that each item is in the cache, in
  the hands of one thread, or given up.
- **Queue, stack and registry** (`Chains.dfy`, `Queue.dfy`, `Stack.dfy`, `Registry.dfy`): the generated
  containers and the generated create and delete functions, on heap chains. Allocation may fail.
- **Registry under interleaving** (`RegistryProtocol.dfy`, `RegistryHistory.dfy`): the same create and
  delete, one step at a time, by any number of threads that share only the system gate; and what becomes
  of every object, told from the trace of calls and answers.
- **Atomics** (`Atomics.dfy`): the lock-based operations one statement at a time, shown to refine atomic
  operations, and the reference-count protocol built on them.

Results where code and documentation differ:

- `phase1_d2c_remap.h:33-37` excludes 16-bit buffers wider than 73.148 times their height. For buffers of
  at most eight pages per row the true ratio is 14337/196, slightly less. Within the documented limit
  inference fails for exactly one geometry, 14337 by 196 pixels in an eight-page allocation
  (`DocumentedLimit`, `DocumentedLimitFails`). The 32-bit figure is safe.
- `list_utils.h:413` says that moving an element beside itself works. It does only for an element that
  is alone in its ring; otherwise no ring through its old neighbour is left (`MoveOntoItself`). With base and info different, moves are right, also when the
  element is already in place (`Move`, `MoveInPlace`).
- Remapping returns its pointer even when the cache record could not be allocated and the buffer has been
  unregistered. A returned pointer can be unmapped if and only if the record was allocated
  (`ReturnedPointerKnown`).
- `enqueue` and `push` bump `size` before they look at the allocation. The container stays sound if and
  only if the allocation succeeds, and both contracts say what is left otherwise.

## Model

| member | source | states |
|---|---|---|
| Rings.Info.constructor | syslink/d2c/list_utils.h:408-409 | an initialised head is linked to itself both ways and carries no element |
| Rings.Link | syslink/d2c/list_utils.h:348-349 | the generic link macro turns a ring into the ring of the sequence with `info` inserted beside `base`, where `base` reaches it in the given direction; only link fields of three infos are written |
| Rings.LinkAfter | syslink/d2c/list_utils.h:348-349 | the forward instance of the macro, assignment by assignment |
| Rings.LinkBefore | syslink/d2c/list_utils.h:348-349 | the backward instance, including insertion before the head, which appends |
| Rings.Add | syslink/d2c/list_utils.h:374-377 | DLIST_ADD_AFTER and DLIST_ADD_BEFORE: the ring is the sequence with the info inserted in the right place, and the info carries the element |
| Rings.AddMember | syslink/d2c/list_utils.h:392-395 | DLIST_MADD: besides, every info of the ring still belongs to the element that embeds it |
| Rings.Remove | syslink/d2c/list_utils.h:405 | the ring is the sequence without that element; the removed info keeps its own links |
| Rings.Move | syslink/d2c/list_utils.h:414-417 | the info leaves its ring and joins the target ring beside base; both stay rings, whether they are the same or different, nothing else is written, and infos still belong to the elements that embed them |
| Rings.RemoveMembers | syslink/d2c/list_utils.h:405-409 | taking an element out keeps every remaining info with the element that embeds it, so null-terminated walks still end at the head alone |
| Rings.MoveInPlace | syslink/d2c/list_utils.h:105-108 | moving an element to where it already stands leaves the order as it was, including around the head |
| Rings.MoveOntoItself | syslink/d2c/list_utils.h:411-417 | with base and info the same, the four links are as written out, and no ring in either direction passes through the old neighbour any more, unless the info was alone in its ring, which then stays |
| Rings.LinksInverse | syslink/d2c/list_utils.h:36-37 | next and last are inverse to each other at every element of a ring |
| Rings.RingUnique | syslink/d2c/list_utils.h:31-39 | two rings with the same head are the same sequence |
| Rings.MirrorRing | syslink/d2c/list_utils.h:437-438 | a ring read against its direction is again a ring, whose infos still belong to their elements, so the reverse loops see the reverse order |
| Rings.Ends | syslink/d2c/list_utils.h:369-369 | the emptiness test is true exactly of the bare head, and first and last deliver the end elements |
| Rings.Loop | syslink/d2c/list_utils.h:353-354 | the sentinel loop ends and visits every element once, in order |
| Rings.MemberLoop | syslink/d2c/list_utils.h:357-358 | the null-terminated loop ends and visits the elements of the same infos in the same order |
| Rings.RemoveIfDoomed | syslink/d2c/list_utils.h:340-343 | a body that removes and frees the current element leaves a ring of the others, wherever the loop stands, and no other info loses its element |
| Rings.SafeLoop | syslink/d2c/list_utils.h:359-361 | any subset may be removed and freed while looping: every original element is visited once, in order, the ring left holds exactly the others, and those keep their elements |
| Rings.SafeMemberLoop | syslink/d2c/list_utils.h:365-367 | the same for the null-terminated safe loop, and the survivors still belong to their elements |
| WidthInference.BoundsExact | syslink/d2c/phase1_d2c_remap.c:298-324 | the interval after both clamps holds exactly the page widths for which some admissible height and allocation explain the length |
| WidthInference.CheckExact | syslink/d2c/phase1_d2c_remap.c:325 | the code's check that minimum is at most maximum fails exactly when no page width is feasible |
| WidthInference.ComputeBounds | syslink/d2c/phase1_d2c_remap.c:298-324 | the two bounds with their clamps, computed step by step, are the interval that BoundsExact characterises |
| WidthInference.MinPositive | syslink/d2c/phase1_d2c_remap.c:300-333 | the chosen width is never zero, so the division by it is defined |
| WidthInference.TrueWidthInBounds | syslink/d2c/phase1_d2c_remap.c:300-325 | the true page width of a block survives both clamps, so the consistency check never fires for it |
| WidthInference.RecoveryExact | syslink/d2c/phase1_d2c_remap.c:298-335 | width and height are recovered always in 8-bit mode, and otherwise if and only if the stride shows a spare page or w(H-h) < H; when not, the interval is w-1 to w, so the warning has been given |
| WidthInference.InferBlock | syslink/d2c/phase1_d2c_remap.c:284-336 | the block fields as the loop body updates them: address and format stay, a page block takes the length, and a 2D block the smallest feasible stride, the whole rows of it that the length holds, and the pixels of one row at 1, 2 or 4 bytes |
| WidthInference.InferredBlock | syslink/d2c/phase1_d2c_remap.c:284-335 | the same of the inferred block for the laws, and the stride chosen is itself feasible whenever any is |
| WidthInference.SizeLaw | syslink/d2c/phase1_d2c_remap.c:337 | the inferred size falls short of the requested length by exactly the pages that do not fill a row, which is less than one stride, and by nothing in page mode |
| WidthInference.RecoveredSize | syslink/d2c/phase1_d2c_remap.c:337-340 | when the true width is recovered, the size equals the requested length |
| WidthInference.InferredSize | syslink/d2c/phase1_d2c_remap.c:223-228 | after inference the size of a 2D block is its height times its stride |
| WidthInference.PageStrideLeast | syslink/d2c/phase1_d2c_remap.c:141-144 | the default stride is the least number of whole pages that holds a row |
| WidthInference.FailuresAreWide | syslink/d2c/phase1_d2c_remap.h:33-43 | for at most eight pages per row, inference fails only for buffers at least as wide for their height as 14337 by 196 (16-bit) or 7169 by 196 (32-bit) |
| WidthInference.DocumentedLimit | syslink/d2c/phase1_d2c_remap.h:33-43 | within the documented width limits inference succeeds if and only if the buffer is not the 16-bit one of 14337 by 196 pixels with an eight-page stride |
| WidthInference.DocumentedLimitFails | syslink/d2c/phase1_d2c_remap.h:36-36 | that geometry is within the documented limit and is not recovered |
| RemapCache.AddIsEnqueue | syslink/d2c/phase1_d2c_remap.c:170-183 | seen as one queue of ids per pointer, adding a record enqueues on its own queue and touches no other |
| RemapCache.DelIsDequeue | syslink/d2c/phase1_d2c_remap.c:196-212 | deleting takes the oldest id of its pointer and touches no other queue |
| RemapCache.ZeroMeansAbsent | syslink/d2c/phase1_d2c_remap.c:194-211 | with non-zero ids only, deleting returns 0 if and only if the pointer is not recorded |
| RemapCache.Cache.Init | syslink/d2c/phase1_d2c_remap.c:151-158 | the list is initialised once and never emptied by a later call |
| RemapCache.Cache.Add | syslink/d2c/phase1_d2c_remap.c:170-183 | appends the record and returns 0 exactly when it could be allocated; otherwise the cache is unchanged |
| RemapCache.Cache.Del | syslink/d2c/phase1_d2c_remap.c:196-212 | returns the oldest id of the pointer, or 0, and leaves every other record in order |
| RemapProtocol.PointerBase | syslink/d2c/phase1_d2c_remap.c:355 | rounding the returned pointer down to a page gives the base of its mapping back |
| RemapProtocol.StepKeepsInv | syslink/d2c/phase1_d2c_remap.c:343-381 | every step of every thread keeps both ledgers balanced and every pointer matched with a registration and a mapping of its size |
| RemapProtocol.RunKeepsInv | syslink/d2c/phase1_d2c_remap.c:343-424 | the invariant holds at every moment of every interleaving |
| RemapProtocol.CachedAreLive | syslink/d2c/phase1_d2c_remap.c:347-376 | at every moment cached ids are distinct, non-zero and registered, and cached pointers lie in different mappings |
| RemapProtocol.RegistrationsConserved | syslink/d2c/phase1_d2c_remap.c:343-424 | with no call in progress, the cached ids are exactly the driver's registrations if and only if no QBUF or URBUF call failed |
| RemapProtocol.MappingsConserved | syslink/d2c/phase1_d2c_remap.c:350-422 | with no call in progress, the cached pointers are exactly the mappings if and only if no step stranded one: a failed query, record allocation or unmap, or a mapping whose pointer is NULL |
| RemapProtocol.UnregisterIsSafe | syslink/d2c/phase1_d2c_remap.c:359-412 | every URBUF names a live registration that neither the cache nor another thread refers to |
| RemapProtocol.UnmapIsExact | syslink/d2c/phase1_d2c_remap.c:415-422 | every munmap names exactly the base and the byte count of a mapping that remapping made |
| Remapper.PlanBlocks | syslink/d2c/phase1_d2c_remap.c:251-341 | refuses exactly when some length is not whole pages, some address cannot be translated or is 0, or some query fails; otherwise delivers one block for each query, in order, with its address, its format and its size, and their total; only blocks that it reaches have to be measurable |
| Remapper.PlanLaw | syslink/d2c/phase1_d2c_remap.c:252-340 | planned blocks keep the order, address and format of the queries, each has the size of its length less its own gap, and their sizes and gaps add up to the lengths |
| Remapper.TotalSizeLaw | syslink/d2c/phase1_d2c_remap.c:339-340 | the mapping is as long as the requested lengths together, less the rows that did not divide evenly, each less than one stride |
| Remapper.ReMapRuns | syslink/d2c/phase1_d2c_remap.c:343-381 | for every combination of answers the call is a run of the protocol, with the steps and the final state spelled out |
| Remapper.DeMapRuns | syslink/d2c/phase1_d2c_remap.c:396-424 | the same for unmapping |
| Remapper.ReturnedPointerKnown | syslink/d2c/phase1_d2c_remap.c:359-381 | a returned pointer can be found in the cache if and only if its record was allocated |
| Remapper.DeMapUndoesReMap | syslink/d2c/phase1_d2c_remap.h:67-86 | remapping and then unmapping the returned pointer restores the cache, the registrations and the mappings |
| Remapper.Remapper.ReMap | syslink/d2c/phase1_d2c_remap.c:230-382 | from the answers alone: the pointer returned, which is the mapping plus the page offset of the first query, and what the cache, the registrations and the mappings hold afterwards, for refusals and every failure exit; the call is a run of the protocol and keeps the invariant |
| Remapper.Remapper.MapPlanned | syslink/d2c/phase1_d2c_remap.c:343-381 | the same for the part that follows the checks |
| Remapper.Remapper.MapBlocks | syslink/d2c/phase1_d2c_remap.c:343-381 | from registration to return, with every failure exit |
| Remapper.Remapper.DeMap | syslink/d2c/phase1_d2c_remap.c:384-429 | returns 0 exactly when the pointer was recorded and all calls succeeded, 1 when there is no device or no record, and otherwise the error of QBUF, else of URBUF, else of munmap; the oldest record of the pointer, its registration and its mapping are gone as far as the calls succeeded; keeps the invariant |
| Remapper.Remapper.UnmapBlocks | syslink/d2c/phase1_d2c_remap.c:402-423 | unregisters and unmaps even after an error, returns the error of QBUF, else of URBUF, else of munmap, and meets the exactness that unmapping demands |
| Remapper.Remapper.AddSizes | syslink/d2c/phase1_d2c_remap.c:416-420 | the loop adds up the sizes of the queried blocks, the same sum that remapping mapped |
| Chains.ChainUnique | syslink/api/include/Queue.h:60-62 | following the next pointers from the first node determines nodes and values |
| Chains.ChainApart | syslink/api/include/Queue.h:81-86 | a null-terminated chain does not pass through a node twice |
| Chains.BypassChain | syslink/api/include/Queue.h:175-175 | bypassing a node leaves the chain of the others, in order |
| Queues.Fifo | syslink/api/include/Queue.h:106-110 | for every sequence of operations, what was handed out followed by what is left appears in the order in which it was enqueued, and handed out, dropped and left together are exactly what was enqueued |
| Queues.FifoExact | syslink/api/include/Queue.h:106-109 | without removals, handed out followed by left is exactly what went in |
| Queues.Queue.Enqueue | syslink/api/include/Queue.h:118-138 | appends at the true tail; the queue stays sound if and only if the allocation succeeds, and otherwise the tail is lost and the count too high |
| Queues.Queue.Dequeue | syslink/api/include/Queue.h:140-158 | delivers and removes the front element; on an empty queue delivers the null value and changes nothing |
| Queues.Queue.Search | syslink/api/include/Queue.h:162-171 | the three-pointer loop ends at the first node with the value, with its neighbours, or at the end |
| Queues.Queue.Bypass | syslink/api/include/Queue.h:173-178 | the chain and the count are those without that node |
| Queues.Queue.FixEnds | syslink/api/include/Queue.h:180-186 | front and back are right again in every position |
| Queues.Queue.Remove | syslink/api/include/Queue.h:160-187 | removes exactly the first match, between what stood before and after it, does nothing when there is none, and leaves front, back and count right |
| Queues.Queue.Run | syslink/api/include/Queue.h:113-187 | every sequence of operations on the linked queue, memory permitting, hands out and leaves what the same operations on a sequence do, in order |
| Stacks.Lifo | syslink/api/include/Stack.h:101-104 | once everything pushed after an element has been popped, the next pop hands out that element, after the others, and the stack is what it was before |
| Stacks.OldestStays | syslink/api/include/Stack.h:86-91 | the oldest element stays the oldest through every run that does not pop it |
| Stacks.Undisturbed | syslink/api/include/Stack.h:101-104 | a run does not depend on, or change, what lies below the elements it reaches |
| Stacks.Stack.Push | syslink/api/include/Stack.h:112-135 | puts the element on top and keeps the oldest node; the stack stays sound if and only if the allocation succeeds, and otherwise all nodes are out of reach |
| Stacks.Stack.Pop | syslink/api/include/Stack.h:137-152 | delivers and removes the top element; the bottom pointer changes only when the stack becomes empty |
| Stacks.Stack.Run | syslink/api/include/Stack.h:107-152 | every sequence of operations on the linked stack that never pops it empty, memory permitting, hands out and leaves what the same operations on a sequence do |
| Registries.Registry.Create | syslink/api/include/IObject.h:84-111 | a created object is linked in front of the others; on failure the chain is unchanged and NULL is returned |
| Registries.Registry.FindBefore | syslink/api/include/IObject.h:203-212 | the search ends, at the predecessor if the handle is in the chain and at NULL otherwise |
| Registries.Registry.Delete | syslink/api/include/IObject.h:187-223 | succeeds exactly for a handle in the chain, unlinks that object alone and keeps the order and the status of the others; otherwise nothing changes |
| RegistryProtocol.StepKeepsInv | syslink/api/include/IObject.h:84-150 | every statement of every thread keeps the chain, the gate, the ownership of objects and the history consistent |
| RegistryProtocol.ChainIsExact | syslink/api/include/IObject.h:84-145 | at every moment the chain in memory is acyclic and is exactly the objects linked and not yet unlinked, newest first |
| RegistryProtocol.FinalisedOnce | syslink/api/include/IObject.h:146-148 | no object is finalised twice; a finalised object is not linked, and is in memory only until the thread that finalised it frees it |
| RegistryProtocol.NoUseAfterFree | syslink/api/include/IObject.h:114-150 | no statement reads or writes an object that has been freed, even when deletes of one handle race |
| RegistryProtocol.DeleteVerdict | syslink/api/include/IObject.h:126-144 | the outcome of a delete is right at the moment its search ends: found means linked and now unlinked alone, missed means not linked and nothing changed |
| RegistryProtocol.SearchAdvances | syslink/api/include/IObject.h:130-139 | each round of the search moves on by exactly one linked object, and no step of another thread changes how many are left |
| RegistryProtocol.SearchEnds | syslink/api/include/IObject.h:130-139 | in every run, however other threads get in between, a search is over once its thread has taken as many steps as there were objects ahead of it, and one more |
| RegistryProtocol.NoDeadlock | syslink/api/include/IObject.h:95-145 | while any call is in progress, some thread can take its next statement |
| RegistryProtocol.NothingLeaks | syslink/api/include/IObject.h:84-150 | between calls the objects in memory are exactly the linked ones |
| RegistryProtocol.AnyCall | syslink/api/include/IObject.h:84-124 | nothing is assumed of callers: any handle may be deleted and init may give either answer |
| RegistryHistories.RefusedIsDropped | syslink/api/include/IObject.h:92-108 | over every run: what is linked was accepted by init, and an object that init refused is never linked or finalised and is freed by its thread's next step |
| RegistryHistories.AcceptedIsLinked | syslink/api/include/IObject.h:93-104 | over every run: an object that init accepted is first in the list when its list section ends, and is missing from the list only while its create is under way or after a delete that was asked for |
| RegistryHistories.FreedIsFinalised | syslink/api/include/IObject.h:145-148 | over every run: an accepted object is freed only after it has been finalised, and finalised only if its deletion was asked for; every object ever allocated is in memory, finalised or refused |
| RegistryHistories.AllAccountedFor | syslink/api/include/IObject.h:84-150 | between calls every object ever allocated is linked, finalised or refused, and only one of these |
| Atomics.Atomic.CmpMaskAndSetValue | syslink/api/include/Atomic_Ops.h:153-163 | the value is set exactly when some bit of the mask is not set in it; a stamped counter keeps its count, and one that is not stamped starts at none |
| Atomics.Atomic.IncReturn | syslink/api/include/Atomic_Ops.h:112-123 | the 32-bit increment, returned as stored; a stamped counter of n references with room for one more then says n + 1 |
| Atomics.Atomic.DecReturn | syslink/api/include/Atomic_Ops.h:132-143 | the 32-bit decrement, returned as stored; a stamped counter of n > 0 references then says n - 1 |
| Atomics.Atomic.Read | syslink/api/include/Atomic_Ops.h:79-89 | returns the value and changes nothing |
| Atomics.Atomic.SetUp | syslink/api/src/utils/MemoryOS.c:141-146 | stamping and incrementing says first if and only if no reference was held, whatever an unstamped counter contained, and leaves one reference more |
| Atomics.Atomic.TearDown | syslink/api/src/utils/MemoryOS.c:222-223 | decrementing says last if and only if one reference was held, and leaves one less |
| Atomics.MaskMatches | syslink/api/include/Atomic_Ops.h:159-159 | the bitwise comparison holds exactly when every bit of the mask is set in the value |
| Atomics.BitAndStamp | syslink/api/include/Atomic_Ops.h:159-159 | counting below a stamp whose low bits are zero never disturbs the mask comparison |
| Atomics.TickKeepsInv | syslink/api/include/Atomic_Ops.h:112-163 | as long as fewer than 2^k references are held before and after it, an operation of any thread keeps the value at stamp plus live references |
| Atomics.CountAlways | syslink/api/include/Atomic_Ops.h:112-163 | over every run that never has 2^k live references, by any number of threads, the value is the stamp plus the threads between increment and decrement, stamping writes at most once, and first-in and last-out results alternate |
| Atomics.IncrementsLessDecrements | syslink/api/include/Atomic_Ops.h:112-163 | for every run, with fewer than 2^k live references told by counting its operations, the value is the stamp plus the increments less the decrements |
| Atomics.FewThreads | syslink/api/include/Atomic_Ops.h:112-163 | fewer than 2^k threads never have that many live references |
| Atomics.BoundIsSharp | syslink/api/include/Atomic_Ops.h:159-161 | with an odd stamp and 2^k live references, the next stamping throws the count away |
| Atomics.StartExact | syslink/api/include/Atomic_Ops.h:153-163 | this needs, exactly, an initial value without the stamp or equal to it |
| Atomics.OneSetUp | syslink/api/include/Atomic_Ops.h:112-123 | before any tear-down at most one increment returns stamp plus one, and one has if any reference is held |
| Atomics.LockRefines | syslink/api/include/Atomic_Ops.h:66-163 | with the lock, every interleaving of statements has the effect of whole operations in the order of their stores, and each thread reads back its own result |
| Atomics.LockReturns | syslink/api/include/Atomic_Ops.h:112-143 | what increments and decrements return under any interleaving of statements are the results of the whole operations, in the same order |
| Atomics.FirstIsAlone | syslink/api/include/Atomic_Ops.h:112-123 | under any interleaving of statements that never has 2^k live references, an increment returns stamp plus one if and only if its thread is the only holder |

## Left out

- Machine integers of the remapper: lengths, sizes, addresses and block fields are unbounded naturals, because the headers that define their types are not part of this model; the claims hold where the C arithmetic does not wrap.
- PAGE_SIZE: taken as 4096, the page stride that the remapper's comments name; rounding with the mask is written as division by it.
- Blocks the C code divides by zero for: a 2D block needs a positive length and an allocated height above 63 rows (8-bit) or 31 (other); this is a precondition of the inference and of remapping.
- The limit of eight pages per row in FailuresAreWide and DocumentedLimit: the size of the tiler container comes from a header that is not part of this model; RecoveryExact has no such limit.
- The driver and the kernel: `open`, `ioctl`, `mmap`, `munmap` and the address translation are parameters. Assumed: a new registration has an unused id, a new mapping an unused page-aligned base, QBUF returns the blocks registered under the id, and an RBUF call that delivers id 0 has registered nothing.
- The fill loop for `blocks[ix].ptr`: it writes to a local structure that is discarded.
- DLIST_PADD, DLIST_PLOOP and the DZLIST variants: the same link and loop bodies with one more indirection or one less.
- NULL link fields of an info that is in no ring: a new info points at itself.
- IOBJECT_CREATE0 and IOBJECT_CREATE1 differ only in an argument passed to the module's init function; they are modelled once. The init and finalize functions of modules are a status value and a step.
- Reuse of memory addresses by the allocator: in RegistryProtocol every object has its own number for ever.
- A handle variable shared by two threads: each thread deletes through a variable of its own.
- Cache.Add: an allocation failure is a parameter, as in the other containers; memory contents of freed nodes matter only in the safe loops.
- Atomic_set, Atomic_cmpmask_and_lt and Atomic_cmpmask_and_gt: setting up and tearing down count without them (MemoryOS_destroy only guards against callers that hold no reference); the comments of the last two contradict their code where the mask does not match.
- Queues.Queue.Run: every allocation succeeds; what a failed one leaves behind is in the contract of Enqueue.
- Stacks.Stack.Run: likewise; see Push.
- Callers of Atomic_lock in different translation units: the lock is static in a header, so atomicity is claimed among callers that share it.
- Debug and trace macros, and every module of SysLink not named above.
