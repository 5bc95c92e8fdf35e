# A verified model of libsrpc's shared memory, queues and calls

libsrpc lets processes on one machine call each other's functions through shared memory. This project
models the parts that hold its difficult state and proves what they keep, for every input, every run and
every interleaving:

1. the transactional TLSF allocator (`libs/tlsf_txn`): one flat buffer tiled by blocks, free lists with two
   levels of bitmaps, split, two-sided coalescing, in-place realloc, an owner set per block, an undo log;
2. the cleanup after dead processes (`tlsf_free_uid_blocks` with the destructors of the daemon and of the
   garbage collector), which walks the heap while it frees;
3. the bounded multi-producer multi-consumer queue (`src/lf_mpmc_queue.c`), any number of threads, one atomic
   action at a time;
4. the RPC call protocol: response slots raced by executors, timeouts and cancellation, reuse of request
   blocks, and the hold that defers freeing a dead process's memory;
5. the chained pool of fixed-size blocks and the registry of executors.

`dafny verify dfyconfig.toml` checks everything.

## How it is laid out

| file | contents |
|---|---|
| Mapping, Heap | the size classes, and the allocator's operations as functions on a heap value |
| FreeLists, Invariant, Abstraction, Owners | the invariant, its parts, the client's view, the owner array |
| Malloc, Free, Realloc, Search, Outcomes | what each operation does to a well-formed heap, and when it is safe |
| Ownership, Refinement, Blocks, Runs | every operation as a step of the client's map; all runs |
| Headers, Unannounced, Reachable | single steps on the headers, a run in which a plain free scatters free space, which requests are always safe |
| Undo, LogBounds | crashes and recovery; the undo log never overflows |
| MallocSteps, FreeSteps | tlsf_malloc and the last owner's tlsf_free, store by store |
| CrashFacts, MallocCrash, FreeCrash, MoveCrash, GrowCrash, CutCrash | a crash between any two stores of malloc, of free and of the three ways of realloc |
| Tlsf | the class that updates the buffer in place, method by method, proved against Heap |
| Cleanup, TrashArray, Trash | the heap walk and its destructors, in place; freeing later what a hold deferred |
| Mpmc, MpmcRing | the queue as a transition system; its buffer and retry loops in place |
| Rpc, Hold | the call protocol; the hold against destruction |
| Pool, Registry, Arith | the block pool, the registry and round robin, arithmetic facts |

## Modelling choices

- The heap area is counted in 64-byte units, because every size and address in it is a multiple of 64. A
  unit (`Heap.Line`) has the eight words of `block_header_t`; payload units have the same type, so a stale
  header that coalescing turns into payload stays readable, and the footer of a free block is the last word
  of its last unit. Sizes and addresses wrap around at 2^64 bytes as `size_t` does.
- The pool is the control structure, which counts 6720 bytes as on x86-64, and the heap area. Accesses outside
  the heap area read zeros and write nothing; a `prev_size` that points in front of the heap counts as invalid.
- Bitmaps are sets of bit positions. Pointers handed to clients are one unit behind their header.
- A client's view of a heap (`Blocks.View`) maps each live header to size, owner set, type and dc mark.
  `Blocks.Good` is the invariant while the lock is free.
- Mutual exclusion by the pool's mutex is taken as given: one operation at a time. The queue and the protocols
  are transition systems over sequentially consistent atomic steps with unbounded counters; a semaphore
  wake-up may be spurious.
- An RPC's arguments are one opaque value. A process identity stands for `hp_proc` together with the uid
  stored beside it, and one call addresses each process at most once, as the registry lists it.
- A freshly allocated registry extension block is taken to be zero-filled; the code does not clear it.

## Where the code and its words differ

The model follows the code.

- The allocator's README says that finding a block yields a suitable one and that an unfinished operation is
  rolled back when its owner dies. The search does not round up and malloc does not compare sizes: for a block
  size that is not the lower bound of its class (1088 bytes is the first, `FirstUnaligned`) it can take a
  smaller block, in a heap that `tlsf_create` and legal steps reach, and then no tiling of the heap is possible any
  more (`MallocSafeExactly`, `AlwaysFitsExactly`). List and header updates are not journaled: a malloc, a moving
  realloc or an in-place growth that dies between its first store and its commit is never repaired, wherever it dies
  (`CrashedMalloc`, `CrashedMove`, `CrashedGrowth`); a last owner's free is, as long as only owner slots and
  used_bytes were written (`CrashedFree`); an in-place cut is, as long as only the block's own units were written,
  and the cut payload then stays overwritten (`CrashedCut`).
- A log with exactly 64 records is refused by recovery; with fewer, recovery is exact (`CrashRecovers`).
- `BLOCK_PREV_FREE` is a hint: a split sets it on a block whose left neighbour is allocated. What always holds is
  that a set flag comes with the right `prev_size`. Two further rules hold after creation and can be lost: no two
  adjacent blocks are free (`Separated`), and a free block is announced by PREV_FREE to the block behind it
  (`Announced`). A step breaks the first exactly when it cuts a block in place beside a free block, or gives a block
  back whose free left neighbour is not announced; it breaks the second exactly when it gives a block back that
  merges both ways and has a further free block in front of what it merged with, because the forward merge clears
  the flag that the backward merge had inherited (`ReleaseRule`, `StepCorrect`). In a heap that keeps both rules
  only the cut breaks anything (`TightBreaks`). Nine legal steps with class-aligned sizes reach a heap
  without adjacent free blocks in which a plain free, the tenth, leaves two (`PlainFreeScatters`).
- The walk's header comment lets any non-negative destructor result restart the walk; the code restarts for
  positive results only.
- The queue's compile-time check admits capacity 1, with which a full queue overwrites itself
  (`BoundsExactly`).
- When no process could be addressed, the caller reads its response block anyway (`NothingSentIsStale`). A value
  that is delivered belongs to its own call exactly when some process was addressed, and to an earlier call
  otherwise (`DeliveredIsOwn`).
- The scan that protects held blocks passes over processes that are being destroyed themselves: a pass over all
  threads frees exactly if no thread of a valid process lists the uid in a slot (`PassFreesExactly`), and with others
  at work in between exactly if none of its looks finds such a slot (`PassFreesBetween`). A slot that proc_lock
  returned protects as long as its holder's process is valid (`HeldIsNotFreed`) and by itself no longer
  (`DyingHolderIsPassedOver`).
- The daemon's destructor ignores that its trash array could not grow, and such a block is missing from the node.
  Deferred freeing equals immediate freeing exactly if as many growths are granted as the number of blocks to note
  needs, none up to 1024 (`CleanUpAfter`, `CleanedLater`).
- Registering refuses with empty entries left in the extension block when the counter, which covers both blocks,
  has reached that block's size and no allocation succeeds (`Insert`).
- Freeing a block of the fixed-size pool twice, or a pointer that is taken for an index that is not handed out,
  is accepted whenever the ring has room, and then the ring holds that index twice (`GiveTwice`, `Chain.Free`).
- The block pool's offset does not count its own header: the blocks stay clear of the index ring exactly when
  rounding leaves 48 bytes over, which it does for the 128 blocks that are used (`RingIsSafeExactly`).

## Model

| member | source | states |
|---|---|---|
| Search.ClassRange | libs/tlsf_txn/tlsf_txn.c:101-123 | below 2^41 a size of at least 16 bytes uses second levels 8 to 15 only, and its class is the quotient by 2^(fl-3) |
| Search.ClassMonotone | libs/tlsf_txn/tlsf_txn.c:101-123 | a larger block never has a smaller class |
| Search.AlignedSuffices | libs/tlsf_txn/tlsf_txn.c:110-123 | within one class, a request that is the class's lower bound is met by every size |
| Search.AlignedExactly | libs/tlsf_txn/tlsf_txn.c:110-123 | every size of the request's class is large enough if and only if the request is the class's lower bound |
| Search.SearchSpec | libs/tlsf_txn/tlsf_txn.c:162-174 | NULL means that no free block is large enough; otherwise the block comes from the least non-empty class at or above the request's, and is large enough if that class is higher or the request is its lower bound |
| Search.HugeFindsNothing | libs/tlsf_txn/tlsf_txn.c:101-107 | requests of 2^40 bytes or more, the largest pool, find nothing |
| FreeLists.RemoveKeepsLists | libs/tlsf_txn/tlsf_txn.c:129-146 | unlinking keeps all lists doubly linked and in their classes, and both bitmap levels exact |
| FreeLists.InsertKeepsLists | libs/tlsf_txn/tlsf_txn.c:148-159 | inserting a block at the head of its class keeps lists and bitmaps |
| Blocks.WalkIsTiling | libs/tlsf_txn/tlsf_txn.c:357-365 | a heap has at most one tiling: the walk by block sizes from the heap's start |
| Blocks.TilesExactly | libs/tlsf_txn/tlsf_txn.c:202-282 | blocks tile the heap exactly, are at least 128 bytes, carry the signature, and a set PREV_FREE comes with the left neighbour's size |
| Blocks.FreeListsExact | libs/tlsf_txn/tlsf_txn.c:129-159 | each class list holds exactly the free blocks of its class, each once, doubly linked, ending in NULL; bits are set exactly for non-empty lists and rows |
| Blocks.UsedIsTotal | libs/tlsf_txn/tlsf_txn.c:545-550 | used_bytes is the sum of the live payload sizes and no undo record is left |
| Blocks.EmptyIsWhole | libs/tlsf_txn/tlsf_txn.c:595-653 | a heap without adjacent free blocks and without live blocks is one free block with used_bytes 0 |
| Invariant.CarveSound | libs/tlsf_txn/tlsf_txn.c:202-222 | the header writes of a split keep the tiling and every prev_size |
| Invariant.MergeTiles | libs/tlsf_txn/tlsf_txn.c:232-246 | a block that swallows its right neighbour leaves a tiling |
| MallocProof.SplitSound | libs/tlsf_txn/tlsf_txn.c:202-229 | a split yields a well-formed heap with the rest on its list |
| FreeProof.BackSound | libs/tlsf_txn/tlsf_txn.c:261-282 | the backward merge keeps the structure, whatever the PREV_FREE hint says |
| FreeProof.ForwardSound | libs/tlsf_txn/tlsf_txn.c:232-246 | the forward merge keeps the structure |
| FreeProof.CoalescedSound | libs/tlsf_txn/tlsf_txn.c:630-642 | both merges and the insertion together give a sound heap again |
| OwnerSlots.FindIsMember | libs/tlsf_txn/tlsf_internal.h:242-248 | uid_find succeeds exactly for owners |
| OwnerSlots.CountIsSize | libs/tlsf_txn/tlsf_internal.h:258-264 | uid_count is the number of owners |
| OwnerSlots.FullIsTwelve | libs/tlsf_txn/tlsf_internal.h:250-256 | there is no empty slot exactly at twelve owners |
| OwnerSlots.FirstIsOwner | libs/tlsf_txn/tlsf_internal.h:267-273 | uid_get_first returns an owner, or 0 when the rest of the array is empty |
| OwnerSlots.DropUidEffect | libs/tlsf_txn/tlsf_txn.c:615-620 | the clearing loop removes exactly the uid and records one word per slot that held it |
| MallocProof.MallocWf | libs/tlsf_txn/tlsf_txn.c:486-553 | malloc on a large enough block keeps the invariant, records at most 5 words, and adds one entry owned by uid alone; nothing else changes for clients |
| MallocProof.MallocRules | libs/tlsf_txn/tlsf_txn.c:509-537 | malloc keeps free blocks separated and announced, each rule by itself |
| Outcomes.CreateWf | libs/tlsf_txn/tlsf_txn.c:372-430 | tlsf_create gives a well-formed heap of one free block and no live one |
| Outcomes.UnitsCoverRequest | libs/tlsf_txn/tlsf_txn.c:798-805 | the computed block size covers the request if and only if the request does not exceed 2^64 - 128 |
| Outcomes.UndersizedBreaks | libs/tlsf_txn/tlsf_txn.c:496-529 | malloc on a block that is too small leaves a heap that no tiling fits |
| Outcomes.MallocSafeExactly | libs/tlsf_txn/tlsf_txn.c:486-553 | malloc keeps the invariant if and only if the block found is large enough |
| Reachable.AlwaysFitsExactly | libs/tlsf_txn/tlsf_txn.c:372-515 | in every heap that legal steps reach from a pool that tlsf_create accepts a request size is safe if and only if its block size is a class lower bound (or exceeds every pool) |
| Reachable.FirstUnaligned | libs/tlsf_txn/tlsf_txn.c:101-123 | up to 17 units exactly the block size of 17 units, 1088 bytes, is no class lower bound |
| FreeProof.LastOwnerLeaves | libs/tlsf_txn/tlsf_txn.c:622-653 | the last owner's free removes the entry, keeps the invariant, touches no other payload, and breaks exactly the coalescing rules in BrokenBy |
| FreeProof.ReleaseRule | libs/tlsf_txn/tlsf_txn.c:232-282 | giving a block back breaks the separation of free blocks if and only if its free left neighbour is unannounced, and the announcement if and only if it merges both ways behind a further free block |
| FreeProof.FreeCorrect | libs/tlsf_txn/tlsf_txn.c:595-653 | free drops one owner, or the block with its last owner; at most 4 further undo records |
| ReallocProof.ShrinkSound | libs/tlsf_txn/tlsf_txn.c:813-821 | an in-place cut keeps the structure and the kept payload |
| ReallocProof.ExpandSound | libs/tlsf_txn/tlsf_txn.c:823-853 | absorbing the right neighbour, cut or whole, keeps the structure and the payload |
| ReallocProof.InPlaceCorrect | libs/tlsf_txn/tlsf_txn.c:807-854 | the in-place attempt succeeds exactly if the block, with a free right neighbour if needed, has room; then only its size changes |
| ReallocProof.ShrinkRules | libs/tlsf_txn/tlsf_txn.c:813-820 | an in-place cut leaves adjacent free blocks if and only if the right neighbour is free, and always announces its remainder |
| ReallocProof.ExpandRules | libs/tlsf_txn/tlsf_txn.c:823-853 | in-place growth keeps free blocks separated and announced, each rule by itself |
| ReallocProof.CopyCorrect | libs/tlsf_txn/tlsf_txn.c:911-912 | copying into the new block carries the payload over and disturbs nothing else |
| ReallocProof.MoveCorrect | libs/tlsf_txn/tlsf_txn.c:901-929 | the malloc, copy, free path keeps the invariant, moves the payload, and records at most 9 words |
| Ownership.LinkCorrect | libs/tlsf_txn/tlsf_txn.c:965-999 | link adds one distinct owner, up to twelve, with the exact error otherwise |
| Ownership.FreeRefines | libs/tlsf_txn/tlsf_txn.c:655-665 | free removes one owner and the block exactly with its last owner, with the exact error otherwise |
| Ownership.FreeDcCorrect | libs/tlsf_txn/tlsf_txn.c:686-737 | free_dc marks a block with one owner and detaches the caller from a shared one |
| Ownership.SetDcCorrect | libs/tlsf_txn/tlsf_txn.c:745-775 | setdc and cleardc change the mark of a live block and nothing else |
| Refinement.MallocRefines | libs/tlsf_txn/tlsf_txn.c:555-570 | malloc fails without effect exactly if the search finds nothing, and then no free block is large enough; otherwise it adds a block of the requested size owned by uid |
| Refinement.ReallocStays | libs/tlsf_txn/tlsf_txn.c:887-896 | in place: same pointer, only the size changes, payload kept; of the coalescing rules the separation is broken if and only if a cut is made beside a free block |
| Refinement.ReallocMoves | libs/tlsf_txn/tlsf_txn.c:898-930 | moved: the old block is gone, the new one has its owner, type and the first min(old, new) payload units, and the rules broken are those of giving the old block back; or refused without effect because nothing fits |
| Refinement.ReallocRefused | libs/tlsf_txn/tlsf_txn.c:865-884 | wrong, free, foreign or shared pointers are refused without effect |
| Runs.StepCorrect | libs/tlsf_txn/tlsf_txn.c:486-998 | every legal client step keeps the invariant, is a step of the client's map, leaves all other payloads alone, and of the two rules of a coalesced heap that hold breaks exactly those in Breaks, whichever of them holds before; memory is refused if and only if neither the block itself nor any free block has room |
| Runs.RunCorrect | libs/tlsf_txn/tlsf_txn.c:486-998 | every legal run keeps the invariant, is a run of the client's map with the same replies that refuses memory only and always when there is no room, and keeps each rule that no step breaks |
| Runs.TightBreaks | libs/tlsf_txn/tlsf_txn.c:486-998 | in a heap that keeps both rules a step breaks only the separation, and exactly when it cuts in place beside a free block |
| Unannounced.PlainFreeScatters | libs/tlsf_txn/tlsf_txn.c:232-246 | a legal run of class-aligned requests from a fresh heap of 64 units ends with a free that leaves two adjacent free blocks although there were none before it |
| Runs.FreshRunCorrect | libs/tlsf_txn/tlsf_txn.c:372-998 | the same from tlsf_create, with exact used_bytes, and full coalescing for runs that never cut beside a free block, in particular for runs without realloc |
| Runs.AlignedIsLegal | libs/tlsf_txn/tlsf_txn.c:110-123 | class-aligned requests are always legal |
| Runs.RunKeepsPayload | libs/tlsf_txn/tlsf_txn.c:486-930 | a block that its client leaves alone keeps its size and every payload byte through any run |
| Runs.ReleaseEverything | libs/tlsf_txn/tlsf_txn.c:595-653 | releasing every owner of every block, in any order, returns one free block and used_bytes 0 |
| UndoLog.CrashRecovers | libs/tlsf_txn/tlsf_txn.c:307-320 | a push-then-write transaction on words of the pool that dies anywhere, with recoveries that die and are repeated, is restored exactly if fewer than 64 words were recorded; with 64 nothing happens |
| UndoLog.LinkAtomic | libs/tlsf_txn/tlsf_txn.c:991-996 | a crash between any two steps of link leaves, after recovery, the state before or the state after |
| UndoLog.SharedFreeAtomic | libs/tlsf_txn/tlsf_txn.c:615-624 | the same for a free that leaves other owners |
| UndoLog.FreeDcAtomic | libs/tlsf_txn/tlsf_txn.c:713-735 | the same for free_dc |
| UndoLog.UnlinkIsNotRecovered | libs/tlsf_txn/tlsf_txn.c:129-146 | a free block that was unlinked, as malloc and in-place growth begin, is not put back by recovery |
| MallocCrash.StoresAreMalloc | libs/tlsf_txn/tlsf_txn.c:129-570 | the single stores and log records of a successful malloc, run in the order of the code and committed, are malloc |
| MallocCrash.CrashedMalloc | libs/tlsf_txn/tlsf_txn.c:486-570 | a crash after any number of those stores followed by recovery leaves a good heap if and only if there was none yet; after the commit the heap is good and recovery does nothing |
| FreeSteps.FreeRuns | libs/tlsf_txn/tlsf_txn.c:595-653 | the single stores and log records of a last owner's free, run in the order of the code, are tlsf_free_internal |
| FreeCrash.CrashedFree | libs/tlsf_txn/tlsf_txn.c:595-665 | a crash after any number of those stores followed by recovery leaves a good heap if and only if no unjournaled store was made yet, and then it is the heap from before the call |
| MoveCrash.CrashedMove | libs/tlsf_txn/tlsf_txn.c:898-930 | a crash after any store of the malloc, copy, free path of realloc leaves a good heap if and only if there was none yet |
| GrowCrash.CrashedGrowth | libs/tlsf_txn/tlsf_txn.c:823-896 | a crash after any store of an in-place growth leaves a good heap if and only if there was none yet |
| CutCrash.CrashedCut | libs/tlsf_txn/tlsf_txn.c:813-896 | a crash after any store of an in-place cut leaves a good heap if and only if only the block's own units were written, or also the right neighbour's flag while its prev_size happened to be right |
| LogBounds.NeverOverflows | libs/tlsf_txn/tlsf_txn.c:61-93 | on any heap, even a corrupted one, no operation overflows the log, and each leaves stack_top at 0 |
| LogBounds.FreeBound | libs/tlsf_txn/tlsf_txn.c:595-653 | free records at most 15 words and has no effect when it fails |
| LogBounds.MallocBound | libs/tlsf_txn/tlsf_txn.c:486-553 | malloc records at most 5 words, all inside the pool, and has no effect when it fails |
| Tlsf.Allocator.RecoverInternal | libs/tlsf_txn/tlsf_txn.c:289-320 | the rollback loop computes Recover: it stops at an address outside the pool with the log kept, and succeeds if and only if there is none and fewer than 64 records |
| Tlsf.Allocator.PushWord | libs/tlsf_txn/tlsf_txn.c:61-79 | a push records the old word or rolls the full log back |
| Tlsf.Allocator.RemoveFromFreeList | libs/tlsf_txn/tlsf_txn.c:129-146 | the in-place unlinking is RemoveFree |
| Tlsf.Allocator.InsertIntoFreeList | libs/tlsf_txn/tlsf_txn.c:148-159 | the in-place insertion is InsertFree |
| Tlsf.Allocator.FindSuitable | libs/tlsf_txn/tlsf_txn.c:162-174 | the bitmap search is Find |
| Tlsf.Allocator.SplitBlock | libs/tlsf_txn/tlsf_txn.c:202-229 | the in-place split is Split |
| Tlsf.Allocator.CoalesceWithNext | libs/tlsf_txn/tlsf_txn.c:232-246 | the in-place forward merge is CoalesceNext |
| Tlsf.Allocator.CoalesceWithPrev | libs/tlsf_txn/tlsf_txn.c:248-282 | the in-place backward merge is CoalescePrev, with its checks |
| Tlsf.Allocator.FindUid | libs/tlsf_txn/tlsf_internal.h:242-256 | the owner search loop is UidFind |
| Tlsf.Allocator.CountUids | libs/tlsf_txn/tlsf_internal.h:258-264 | the owner count loop is UidCount |
| Tlsf.Allocator.DropOwner | libs/tlsf_txn/tlsf_txn.c:615-620 | the journaled clearing loop is DropUid |
| Tlsf.Allocator.AllocateInternal | libs/tlsf_txn/tlsf_txn.c:486-553 | the body of malloc is MallocInternal, failures included |
| Tlsf.Allocator.Allocate | libs/tlsf_txn/tlsf_txn.c:555-570 | malloc in place, and on a good heap an allowed step of the client's map |
| Tlsf.Allocator.ReturnBlock | libs/tlsf_txn/tlsf_txn.c:626-653 | giving a block back is Release |
| Tlsf.Allocator.ReleaseOwner | libs/tlsf_txn/tlsf_txn.c:655-675 | free in place, and on a good heap an allowed step of the client's map |
| Tlsf.Allocator.LinkOwner | libs/tlsf_txn/tlsf_txn.c:965-999 | link in place, and on a good heap an allowed step of the client's map |
| Tlsf.Allocator.DeferFree | libs/tlsf_txn/tlsf_txn.c:686-737 | free_dc in place, and on a good heap an allowed step of the client's map |
| Tlsf.Allocator.MarkDc | libs/tlsf_txn/tlsf_txn.c:745-775 | setdc and cleardc in place, and on a good heap an allowed step of the client's map |
| Tlsf.Allocator.ResizeInPlace | libs/tlsf_txn/tlsf_txn.c:807-854 | realloc_try_inplace is TryInPlace and leaves the heap alone when it finds no room |
| Tlsf.Allocator.MoveBlock | libs/tlsf_txn/tlsf_txn.c:898-930 | the malloc, copy, free path is Move |
| Tlsf.Allocator.Reallocate | libs/tlsf_txn/tlsf_txn.c:857-930 | realloc in place, of NULL as malloc with type 0, and on a good heap an allowed step of the client's map |
| Tlsf.Allocator.constructor | libs/tlsf_txn/tlsf_txn.c:378-429 | the part of tlsf_create behind its checks builds Create(n) |
| Tlsf.Allocator.CreatePool | libs/tlsf_txn/tlsf_txn.c:372-430 | tlsf_create returns NULL exactly for a NULL buffer or a size outside 8 KiB to 1 TiB, with the error; otherwise the heap between the aligned start and the pool's end, good, coalesced and without live blocks |
| Cleanup.FreeKeepsTags | libs/tlsf_txn/tlsf_txn.c:595-653 | free leaves size, flag, signature, owners and type of every header behind the block as they were, current or stale |
| Cleanup.ReachedHeader | libs/tlsf_txn/tlsf_txn.c:1052-1067 | wherever the walk arrives it finds a block or an intact stale free header of the heap it started on, never a corrupted one, and ends at the heap's end |
| Cleanup.ReachedVisits | libs/tlsf_txn/tlsf_txn.c:1069-1084 | a visited block meets its fate and the walk goes on behind it with everything further on untouched |
| Cleanup.Destroy | src/libsrpc_proc.c:141-182 | the daemon's and the collector's destructor do to a block what ActOf says, with the result that stops or restarts the walk; a note is lost exactly if the full trash array cannot grow; a collector whose pool is full refuses and changes nothing |
| Cleanup.Sweep | libs/tlsf_txn/tlsf_txn.c:1046-1087 | one pass treats exactly the blocks below its end, each once, and ends at the heap's end, behind a released block or at a full pool |
| Cleanup.CleanUpAfter | libs/tlsf_txn/tlsf_txn.c:1037-1088 | after a dead process the passes end and the client's map is exactly Cleaned; under a hold each user block is noted once, in address order, instead of freed; the list kept is exactly what the growing array keeps of these notes, all of them if and only if the memory granted suffices for their number |
| TrashArray.FilledExactly | src/libsrpc_shm_gc.c:154-172 | adding notes one by one loses none if and only if the first growths that their number needs are all granted, and then the array has exactly the places of so many growths |
| TrashArray.GrowthsLeast | src/libsrpc_shm_gc.c:159-168 | the number of growths is the least that makes room, each by a quarter |
| Cleanup.CleanedMeaning | src/libsrpc_proc.c:141-182 | afterwards a block that still lists the uid is a process, registry or dc-marked request block, and no other owner has lost anything |
| Trash.DestroyNode | src/libsrpc_shm_gc.c:119-136 | the loop frees every note in order; on live blocks exactly the named ones lose the uid, and go with their last owner |
| Trash.NotedMeetsFate | src/libsrpc_shm_gc.c:119-136 | whatever happened in between, a noted block that is as it was meets the fate it was spared, and no other block changes |
| Trash.CleanedLater | src/libsrpc_shm_gc.c:119-136 | cleanup under a hold followed by the end of the trash node gives the map of a cleanup without a hold if and only if the memory answers grant the growths that the number of blocks to note needs; up to 1024 blocks need none |
| Cleanup.Collect | src/libsrpc_shm_gc.c:211-255 | the collector's single pass frees or pools each marked block once although freed blocks merge around it; only a full pool of 1024 ends it early |
| Mpmc.MoveInv | src/lf_mpmc_queue.c:7-113 | every atomic step of every thread keeps the queue's invariant |
| Mpmc.Bounds | src/lf_mpmc_queue.c:19-65 | tail <= head <= tail + capacity in every run |
| Mpmc.BoundsExactly | src/lf_mpmc_queue.c:19-41 | the bound holds in all runs if and only if the capacity is at least 2 |
| Mpmc.MoveRefines | src/lf_mpmc_queue.c:19-65 | the queue refines a bounded FIFO sequence; pushes and pops take effect at the successful compare-and-swap |
| Mpmc.FullExactly | src/lf_mpmc_queue.c:24-35 | FULL exactly if the queue holds capacity items or the cell's consumer has not released it |
| Mpmc.EmptyExactly | src/lf_mpmc_queue.c:48-59 | EMPTY exactly if there is no item or the first one's producer has not published it |
| Mpmc.ExactlyOnce | src/lf_mpmc_queue.c:43-65 | over any run each position is delivered at most once, with the value put there |
| Mpmc.FreshRunDelivers | src/lf_mpmc_queue.c:43-65 | once no consumer is under way, the first tail values put have been delivered, each once, and nothing else |
| Mpmc.FindSound | src/lf_mpmc_queue.c:84-110 | FOUND means published and unclaimed at that very step |
| Mpmc.FindComplete | src/lf_mpmc_queue.c:67-113 | a pointer published before the search and unclaimed when it returns is found, clamped range included |
| MpmcRing.SlotIsRemainder | src/lf_mpmc_queue.c:23 | the cell of a position is its remainder by the capacity, which the mask computes for powers of two |
| MpmcRing.Ring.constructor | src/lf_mpmc_queue.c:7-17 | initialisation builds the empty queue, for every capacity including 1 |
| MpmcRing.Ring.TryEnqueue | src/lf_mpmc_queue.c:19-41 | the retry loop is a run of the transition system among any moves of others, and ends when they rest |
| MpmcRing.Ring.TryDequeue | src/lf_mpmc_queue.c:43-65 | the same for dequeuing |
| MpmcRing.Ring.TryFindPtr | src/lf_mpmc_queue.c:67-113 | the same for searching |
| MpmcRing.Ring.Advance | src/lf_mpmc_queue.c:19-113 | one atomic action of any thread, in place |
| Rpc.StepInv | src/libsrpc.c:358-566 | every event of callers, executors and daemon keeps the protocol's invariant |
| Rpc.SlotLife | src/libsrpc_local.h:195-230 | during a call a sent slot leaves EMPTY once, to LOCK by an executor or to ERROR by timeout or cancellation, and then only LOCK becomes READY; checks and compare-and-swap are separate steps |
| Rpc.AtMostOnce | src/libsrpc.c:865-913 | in every run each process executes the function at most once per call |
| Rpc.DeliveredIsOwn | src/libsrpc.c:660-723 | a value delivered to a call was computed for that call, from its own arguments, if and only if some process was addressed; otherwise for an earlier call |
| Rpc.NothingSentIsStale | src/libsrpc.c:500-504 | such a call gets whatever earlier answer lies in the first slot of its reused block, for every number of slots |
| Rpc.CancelledNeverRuns | src/libsrpc.c:997-1022 | a cancelled slot's process never executes the function for that call, then or later |
| Rpc.ReuseIsQuiet | src/libsrpc.c:627-646 | a block is reused only when no request for it is still on its way |
| Rpc.FindsSlot | src/libsrpc.c:886-898 | the executor's search finds the slot that was sent to it |
| Hold.StepInv | src/libsrpc.c:208-273 | every step of lockers, destroyer and collector keeps the hold invariant |
| Hold.HeldIsNotFreed | src/libsrpc.c:244-273 | while a thread of a valid process holds a slot returned by proc_lock, the user blocks of the process it names are not freed |
| Hold.ScanSeesHolds | src/libsrpc.c:306-354 | a completed scan has seen every hold of every valid process, for the destroyer and for the trash list, also when threads start while it runs |
| Hold.PassFreesExactly | src/libsrpc.c:339-354 | an undisturbed pass frees the blocks of a process that is gone if and only if no thread of a valid process lists its uid in a slot |
| Hold.PassFreesBetween | src/libsrpc.c:339-354 | with any events of others in between, threads that start included, a complete pass frees if and only if none of its looks finds such a slot at its moment |
| Hold.DyingHolderIsPassedOver | src/libsrpc.c:339-354 | a witness: a slot that proc_lock returned, whose holder's process is being destroyed, does not keep the blocks from being freed |
| FixPool.CreateOk | src/libsrpc_fixblockalloc.c:9-33 | a new pool has every index free and none handed out |
| FixPool.TakeOk | src/libsrpc_fixblockalloc.c:67-71 | taking hands out a free index and keeps free and handed-out indices a partition |
| FixPool.GiveOk | src/libsrpc_fixblockalloc.c:97-107 | giving back a handed-out index never finds the ring full and makes it free again |
| FixPool.GiveTwice | src/libsrpc_fixblockalloc.c:97-104 | giving back an index that is not handed out, with room in the ring, destroys the partition |
| FixPool.IndexOf | src/libsrpc_fixblockalloc.c:94-95 | an address leads back, through 64-bit subtraction and a 32-bit cut, to the index it came from and lies inside its pool |
| FixPool.LiveApart | src/libsrpc_fixblockalloc.c:71 | blocks that are handed out never overlap, within a pool and across the chain |
| FixPool.RingIsSafeExactly | src/libsrpc_fixblockalloc.c:9-26 | blocks stay behind the index ring if and only if rounding leaves room for the header |
| FixPool.SlackOf128 | src/libsrpc_fixblockalloc.c:12-14 | the room is 60 bytes for 128 blocks and none for 15 |
| FixPool.Chain.Alloc | src/libsrpc_fixblockalloc.c:50-75 | the chain-walking loop ends and adds exactly one new live block, or fails because malloc does |
| FixPool.Chain.Free | src/libsrpc_fixblockalloc.c:77-111 | for every pointer the exact result and new chain; freeing a live block removes exactly that block, and the chain stays valid if and only if the call is refused or the index it computes is handed out |
| Registry.Function.Insert | src/libsrpc.c:1118-1156 | inserting adds one entry and keeps num_all exact; it succeeds if and only if the main block has an empty entry, or num_all is below the extension's size, or one of the first ten allocations is granted; a refusal leaves empty extension entries if and only if num_all is below both sizes together |
| Registry.Function.Grow | src/libsrpc.c:1076-1115 | growing keeps every entry and makes room, or without memory changes nothing |
| Registry.Function.Remove | src/libsrpc.c:1182-1205 | removing clears every entry of the process and no other, and keeps num_all exact |
| Registry.Function.SendInTurn | src/libsrpc.c:457-497 | the counting loops over main and extension block try exactly the entry whose number is the ticket modulo the counted entries, the chosen one if the count is current, and no other if that process refuses |
| Registry.RoundRobinIsFair | src/libsrpc.c:457-485 | with an unchanged registry of n entries any n consecutive tickets reach each entry once |

## Left out

- CutCrash.CrashedCut: speaks of the heap's structure; the payload in the part that was cut off is not given back.
- MoveCrash.CrashedMove: memcpy is taken unit by unit in ascending order.
- Which block of a class is chosen, and addresses beyond "a free block of the least class": the client's map leaves them open.
- txn_epoch, owner_pid, tlsf_errno after success and the debug fields, which no other code reads.
- tlsf_calloc, tlsf_get_block_size, tlsf_check_uid, getdc and the statistics getters: they add only easy members.
- Tlsf.Allocator.CoalesceWithPrev: a prev_size that leads into the control structure is refused at once, while the code first looks for a signature and a FREE flag there; in a good heap it never does (Blocks.TilesExactly).
- Tlsf.Allocator.CreatePool: up to 63 bytes between the last 64-byte boundary and the end of the pool, into which the code's pointer check and the header store behind the last block can reach, are not modelled.
- Tlsf.Allocator.RecoverInternal: addresses inside the control structure other than used_bytes, which no operation records.
- Cleanup.CleanUpAfter: when no trash node can be allocated at all, the daemon gives up before the walk; that exit is not modelled.
- Cleanup.Destroy: does not write the request's signature (libsrpc_req_destroy), which lies in payload.
- gc_pool_destroy's busy checks: they are separate unlocked steps, so nothing about hazard pointers follows; in Rpc, blocks are not recycled under an executor.
- Wrong pointers whose memory happens to look like an allocated header: legal steps name live blocks, or blocks that the header check refuses.
- Rpc.StepInv: a process that is registered twice for one function is not modelled, because a process registers its bitmap once.
- Rpc.DeliveredIsOwn: what an earlier call left in a reused block is taken to be that call's answers. When the new call's layout differs, bytes of old arguments can lie in the first slot and look READY, and then no call computed the value that a call without any addressed process delivers.
- Hold.StepInv: covers threads that start no further call while they hold, because a new request block inherits the holds only after it is published.
- In Rpc, which processes a call addresses (first, last, all, round robin) and the byte layout of a request block, whose size checks and bufsz bookkeeping only decide whether it fits.
- Memory orders weaker than sequential consistency, counter wrap-around of the queue, and uid reuse while a trash node waits.
- Lock-free walks over process and request lists during removal: the lists are taken as snapshots.
- FixPool.Chain.Alloc: the pools are a sequence of values in chain order; pointers between pools are not modelled.
- Registry.Function.Insert: only the daemon's thread registers, so competing insertions are not modelled.
- Sockets, epoll, memfd, process start, allocator interposition, printing and error strings.
