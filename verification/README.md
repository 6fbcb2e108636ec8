# Verified model of Anbox's binder driver, pipe-compat descriptor table and camera converters

The centre of this project is the legacy binder IPC driver, `anbox-modules/binder/binder.c`. The driver
does everything under one main lock, so each of its operations is one atomic step over shared state.
Each protocol is modelled the same way: the steps as functions on a state value, an invariant, a proof that
every step keeps it, a theorem over all runs from the empty state, and classes whose methods take the
driver's own loops and branches and are proved to be those steps. The allocator is a class whose `Valid()`
is the invariant that its constructor establishes and every method keeps. Where the driver has a `BUG` about
the modelled state, the method for that operation asserts the opposite at that place, or its specification
has no such case; the two about links between transactions and buffers (binder.c:1039 and 3069) are in `Links`.

| file | content |
|---|---|
| `SizeMath.dfy` | 64-bit size arithmetic with wrap-around |
| `Blocks.dfy`, `BlockIndex.dfy`, `Allocator.dfy` | the in-band best-fit allocator: address list, exact page map, two search trees, one-way budget |
| `Objects.dfy`, `Acceptance.dfy` | the object loop of a transaction: metadata, scattered sub-buffers, fixups; and which lists it accepts, told from the list alone |
| `CallChains.dfy`, `CallSteps.dfy`, `CallDriver.dfy` | synchronous calls: stacks, replies, failed replies, thread exit; what each step does, and that every call can end |
| `NodeRefs.dfy`, `NodeRuns.dfy` | nodes, references, counts and the INCREFS/ACQUIRE/RELEASE/DECREFS handshake |
| `NodeTalk.dfy` | the conversation between the driver and a node's owner over whole runs |
| `NodeEffects.dfy` | what each reference command, translated object and process exit does; no node outlives its use |
| `Unwind.dfy`, `UnwindExactly.dfy`, `Settled.dfy` | when releasing a failed transaction restores all references and counts, over all runs |
| `ByteMemory.dfy`, `FdUnwind.dfy` | the transaction buffer byte by byte: what the release reads back and which descriptors it closes |
| `FailedTransaction.dfy` | both halves together: one object list, one failure index, one pass over the buffer |
| `RefDriver.dfy` | choice of handle descriptors, release and exit loops over references |
| `OneWay.dfy` | serialization of one-way calls per node |
| `Death.dfy` | death notifications |
| `Links.dfy` | the links between transactions and buffers |
| `FdTable.dfy` | `gsi-vendor/pipe-compat/anbox_pipe_compat.c`: the table of address-space descriptors against the kernel's |
| `Chroma.dfy` | `anbox/android/camera/Converters.cpp`: the YUV 4:2:0 loops against their closed form |

## Assumptions about runs

- The machine is 64 bits wide: pointers and `size_t` have 8 bytes, a buffer header 88, a page 4096.
- Identities of transactions, nodes and records are not reused, and counters and descriptors do not wrap.
- A send whose search for a waiting thread ends at the sender itself is excluded from the runs of
  `CallChains` and `Links`: if its sender exits before reading the call, the driver unlinks the call from its buffer
  while it is in a work list. In `Links` this is the condition on `Unlinks`: `UnlinkKeeps` shows that it is exactly
  what the links need, `UnlinkedIsServed` that it holds in every state of `CallChains`, and
  `QueuedIsUnlinkedExactly` that such a send is exactly what breaks it. A send to another process never is one (`DistinctProcessesSuffice`); `SelfCallReachable`
  gives a run that gets there, and `SelfCallLoops` shows that this is exactly when a transaction becomes
  its own `to_parent`.
- No two nodes of one process have the same address in it (binder.c:1098-1136 keeps them in a tree by address), and
  the translated bytes of a binder or handle name the node or reference it was translated to.
- The kernel installs descriptors that are not open yet and fit 32 bits, and the addresses of a buffer in the
  receiving process do not wrap.
- In the runs of `NodeRuns` no exiting thread discards queued node work. `DiscardWorkKeeps` says
  exactly when that discarding would break the handshake, `DiscardingCanBreak` gives a run after which it does.

## Where the source does not do what it says

- The comment on `binder_validate_fixup` gives 16 as the least offset after returning from a child at
  offset 16; the code demands 24, the end of the child's pointer (binder.c:1563 and 1598). The model follows
  the code.
- `binder_translate_handle` ignores the result of `binder_inc_ref` (binder.c:1833). The increment fails for a weak
  handle of a dead node whose owner was never told of it, if the target holds no weak count of the node. Unless
  the target has a reference to the node already, or another object of the same list counts, a failed
  transaction then leaves a reference that counts nothing. `EveryUnwind` has the exact condition and
  `UnrestorableReachable` a run that meets it.
- A one-way call that an exiting thread discards unread blocks its node for good (`LostBlocksNode`).
  `LostIsReachable` is a run that gets there, and `ReadableExactly` shows that this is the only way: a node with unread
  calls can have its next one read if and only if none of its calls was discarded unread.
- A death notification that an exiting thread throws away unread is never delivered (binder.c:3203-3206 drops the
  record from the list and keeps it). `LostDeathIsReachable` is a run that gets there, and `AnnounceableExactly` has the
  exact condition.
- The buffer of a call that is dropped unread stays allocated until its process exits (`FreeableExactly`, `StaysInReach`).
- `YV12ToRGB565` places the chroma planes as in YU12 (Converters.cpp:92-93), unlike `YV12ToRGB32`.
- The descriptor table forgets an address-space descriptor that was duplicated through a number of 1024 or
  more, and never forgets one wrongly otherwise.
- The loops of the converters step by pairs of pixels: an odd width makes each row one pixel longer
  than the image.

## Model

| member | source | states |
|---|---|---|
| `SizeMath.CheckedSizeExact` | anbox-modules/binder/binder.c:873-886 | the two wrap checks accept exactly the size triples whose true aligned sum fits in 64 bits and then yield that sum; the unchecked recomputation on free yields the same number |
| `Blocks.CarvePages` | anbox-modules/binder/binder.c:924-938 | the page range of an allocation lies in the region, holds only absent pages, and mapping it makes the page map exact for the carved list |
| `Blocks.UnlinkPages` | anbox-modules/binder/binder.c:967-1020 | deleting a header gives back exactly the pages that only this header kept; each of them was present |
| `Blocks.MarkFreePages` | anbox-modules/binder/binder.c:1051-1056 | freeing a buffer's data gives back exactly the pages no header and no other buffer needs; each was present |
| `Blocks.ReleaseWellFormed` | anbox-modules/binder/binder.c:1055-1076 | freeing with coalescing keeps the tiling, the alignment and the absence of adjacent free blocks, and returns exactly the buffer's charge |
| `Blocks.CarveThenRelease` | anbox-modules/binder/binder.c:937-1076 | coalescing undoes carving: freeing the block just carved gives back the same list |
| `Blocks.NoneUsedIsFresh` | anbox-modules/binder/binder.c:3614-3624 | a well-formed list with nothing allocated is the freshly mapped one: one free block, one present page, nothing charged |
| `BlockIndex.PlaceBySize` | anbox-modules/binder/binder.c:664-695 | the descent finds the place that keeps the free tree ordered by size |
| `BlockIndex.FindBestFit` | anbox-modules/binder/binder.c:895-918 | the descent returns a smallest free block that is large enough, says whether it is exact, and fails only when none is large enough |
| `BlockIndex.FindByAddress` | anbox-modules/binder/binder.c:697-744 | the descent by address finds an entry exactly if it is there, and otherwise its place in the order |
| `Allocator.Proc.UpdatePageRange` | anbox-modules/binder/binder.c:746-851 | maps or releases exactly the range; succeeds exactly when the kernel maps every page; a failure part-way restores the page array exactly; no page is mapped twice or released when absent |
| `Allocator.Proc.InsertFree` | anbox-modules/binder/binder.c:664-695 | the free tree again holds exactly the free buffers in order of their list-derived sizes |
| `Allocator.Proc.InsertUsed` | anbox-modules/binder/binder.c:697-720 | the allocated tree again holds exactly the allocated buffers by address; the duplicate-address BUG cannot be reached |
| `Allocator.Proc.Mmap` | anbox-modules/binder/binder.c:3547-3632 | a second mapping is refused; a first one leaves one free block over at most four megabytes, one page, half the size as one-way budget; a failed first page leaves the process unmapped |
| `Allocator.Proc.CloseVma` | anbox-modules/binder/binder.c:3516-3529 | unmapping keeps every invariant of the region |
| `Allocator.Proc.Lookup` | anbox-modules/binder/binder.c:722-744 | finds a buffer exactly for the data addresses of live buffers |
| `Allocator.Proc.Choose` | anbox-modules/binder/binder.c:867-918 | either a smallest fitting free block for the true size within the one-way budget, or one of the reasons for refusal holds, even where size + header wraps |
| `Allocator.Proc.MapBlock` | anbox-modules/binder/binder.c:764-777 | the pages become the exact page map of the carved list, or are unchanged, because the region is unmapped, the process's memory is missing or another one, or the kernel refused a page |
| `Allocator.Proc.Commit` | anbox-modules/binder/binder.c:940-949 | list and both trees move together to the carved list |
| `Allocator.Proc.AllocBuf` | anbox-modules/binder/binder.c:853-965 | best fit, at most a header and four bytes wasted, exact page map, trees and budget after success; nothing at all changed after a failure: no region or memory, no fit, no budget, or a refused page that the new list needs |
| `Allocator.Proc.DeleteFree` | anbox-modules/binder/binder.c:977-1020 | unlinks one header and keeps the page map exact, whatever pages the neighbouring headers share |
| `Allocator.Proc.Coalesce` | anbox-modules/binder/binder.c:1057-1076 | both trees index the joined list although the predecessor grows before it is erased from the free tree |
| `Allocator.Proc.FreeBuf` | anbox-modules/binder/binder.c:1022-1077 | keeps every invariant; the recomputed size never exceeds the block; the budget gets back exactly the charge |
| `Allocator.Proc.AllocThenFree` | anbox-modules/binder/binder.c:853-1077 | allocation followed by free is the identity on blocks, pages and budget |
| `Allocator.Proc.ReleaseAll` | anbox-modules/binder/binder.c:3850-3867 | freeing every live buffer ends in the freshly mapped state |
| `Allocator.ReleaseInAnyOrder` | anbox-modules/binder/binder.c:3850-3867 | freeing all live buffers in any order leaves one free block |
| `Allocator.ReleaseLookups` | anbox-modules/binder/binder.c:1055-1076 | after a free exactly the other live buffers are still found |
| `Allocator.UnlinkIndexes` | anbox-modules/binder/binder.c:1061-1074 | erasing a deleted block from the free tree keeps the rest ordered, although the predecessor's key has changed |
| `Allocator.RecomputedSize` | anbox-modules/binder/binder.c:1027-1044 | the size recomputed on free is the size allocated and lies within the block |
| `Objects.ValidateObjectExact` | anbox-modules/binder/binder.c:1466-1503 | despite wrapping subtractions an object is accepted exactly if it is of a known type, 4-aligned and inside the data |
| `Objects.ValidateFixup` | anbox-modules/binder/binder.c:1579-1603 | the ancestor walk ends and allows a fixup exactly in the last buffer or one of its ancestors, at or above the open offset |
| `Objects.StepKeeps` | anbox-modules/binder/binder.c:2239-2363 | one turn of the object loop keeps all layout invariants: objects and sub-buffers disjoint, parents earlier, fixups ascending, and (last object, least offset) encoding a stack of open ancestors |
| `Objects.ProcessKeeps` | anbox-modules/binder/binder.c:2222-2363 | the same for every prefix of every accepted object list |
| `Objects.TranslateFdArray` | anbox-modules/binder/binder.c:1904-1958 | the array case with its overflow, bounds, alignment and order checks |
| `Objects.TranslatePtr` | anbox-modules/binder/binder.c:2322-2356 | the sub-buffer case with binder_fixup_parent; what it accepts is stated by Acceptance.StepExactly |
| `Objects.TranslateObjects` | anbox-modules/binder/binder.c:2239-2363 | the loop accepts exactly the lists whose every turn is accepted and otherwise stops at the first object refused |
| `Objects.AcceptedLayout` | anbox-modules/binder/binder.c:2204-2356 | in every accepted list sub-buffers are 8-aligned, disjoint and inside the extra area, the copy cursor never passes its end, and no two fixups share a byte |
| `Objects.ChildrenArePatched` | anbox-modules/binder/binder.c:1961-2006 | every accepted child has its fixup at its own offset of its own parent |
| `Acceptance.AllowedExactly` | anbox-modules/binder/binder.c:1579-1603 | the ancestor walk allows a write exactly if its place is in the sub-buffer dealt with last or one that contains it, behind everything written there so far |
| `Acceptance.StepExactly` | anbox-modules/binder/binder.c:2239-2363 | one turn of the loop accepts exactly an object that succeeds, is of a known type, aligned, inside the data and behind all earlier ones, and whose sub-buffer or fixup fits, in order |
| `Acceptance.StepReads` | anbox-modules/binder/binder.c:2239-2363 | every variable of the loop is a reading of the list: where the previous object ends, what earlier sub-buffers take, which was dealt with last and what has been written |
| `Acceptance.AcceptedExactly` | anbox-modules/binder/binder.c:2222-2363 | a list is accepted up to any object if and only if the sizes are aligned and each object before it is acceptable, told from the list alone |
| `ByteMemory.RoundTrip` | anbox-modules/binder/binder.c:1941-1947 | a word written little-endian is read back |
| `ByteMemory.PutAllEffect` | anbox-modules/binder/binder.c:1941-1947 | an array of descriptors written word by word is read back, and nothing outside it changes |
| `FdUnwind.CellsApart` | anbox-modules/binder/binder.c:2239-2363 | nothing that translating a later object can write, whether it succeeds or fails, lies in the metadata or the fixup of an earlier object |
| `FdUnwind.StepHolds` | anbox-modules/binder/binder.c:2254-2356 | after translating an object it reads as translated: the descriptor installed, the pointer to where the sub-buffer was copied, in its metadata and in its parent, the descriptors of an array; and so does every earlier object |
| `FdUnwind.BufferHolds` | anbox-modules/binder/binder.c:2239-2363 | the same for every object of every accepted prefix |
| `FdUnwind.ClosesWhatItReads` | anbox-modules/binder/binder.c:1626-1728 | the release of an object passes its own checks again, finds the array through the parent's pointer, and closes what was installed for the object; a single descriptor only when the transaction failed |
| `FdUnwind.ClosesInstalled` | anbox-modules/binder/binder.c:1626-1728 | releasing an accepted prefix closes exactly the descriptors installed for it, in order |
| `FdUnwind.FailedTransactionCloses` | anbox-modules/binder/binder.c:2393-2401 | for every object list and every failure index, whatever the failing object wrote: everything before it still reads as translated, exactly the descriptors installed are closed, and the open ones are those open before |
| `FdUnwind.DeliveredTransactionCloses` | anbox-modules/binder/binder.c:1674-1728 | freeing a delivered buffer closes the descriptors of its arrays and no single ones |
| `FdUnwind.TranslateFds` | anbox-modules/binder/binder.c:1941-1958 | the array loop in place: installs and stores all descriptors, or closes exactly those installed as read back, touching only the array |
| `FdUnwind.ReleaseFds` | anbox-modules/binder/binder.c:1626-1728 | the release loop with its checks, reading the buffer, closes what the specification says |
| `CallChains.CallerWaits` | anbox-modules/binder/binder.c:1388-1403 | the caller of an innermost call has it on top of its stack and a free error register, so the checks of pop cannot fail |
| `CallChains.ReplyFindsCaller` | anbox-modules/binder/binder.c:2040-2077 | a reply from the callee finds the caller's stack top equal to the answered transaction: the mismatch branch is unreachable |
| `CallChains.SendKeeps` | anbox-modules/binder/binder.c:2109-2154 | sending keeps chains, stacks and parents well formed |
| `CallChains.DeliverKeeps` | anbox-modules/binder/binder.c:3129-3134 | delivery keeps them |
| `CallChains.ReplyKeeps` | anbox-modules/binder/binder.c:2040-2077 | successful and failed replies keep them, and leave no innermost call without a receiver |
| `CallChains.ExitKeeps` | anbox-modules/binder/binder.c:3247-3286 | thread exit keeps them |
| `CallChains.ReleaseQueuedKeeps` | anbox-modules/binder/binder.c:3162-3176 | failing a queued call of an exiting process keeps them |
| `CallChains.FailedReplyWalk` | anbox-modules/binder/binder.c:1405-1456 | a failed reply frees exactly the consecutive calls whose caller is gone, up to the first live caller, who gets the error and is popped, or to the root |
| `CallChains.FailedReplySettles` | anbox-modules/binder/binder.c:1405-1456 | afterwards every innermost call is queued or being served |
| `CallChains.StepKeeps` | anbox-modules/binder/binder.c:2008-2432 | every step of the call protocol keeps the invariant |
| `CallChains.RunsKeep` | anbox-modules/binder/binder.c:2008-2432 | so does every run |
| `CallChains.EveryRun` | anbox-modules/binder/binder.c:1388-1456 | every state of every run from the empty driver has well-nested chains and no orphaned call |
| `CallChains.DistinctProcessesSuffice` | anbox-modules/binder/binder.c:2122-2126 | a send to another process is never the excluded self-targeted one |
| `CallChains.SelfCallLoops` | anbox-modules/binder/binder.c:3131-3134 | a call becomes its own to_parent when read exactly if the search for a thread ended at its sender |
| `CallChains.SelfCallReachable` | anbox-modules/binder/binder.c:2122-2126 | a run that reaches such a send |
| `CallSteps.SearchFindsOutermost` | anbox-modules/binder/binder.c:2122-2126 | the search ends at the caller of the outermost call, at or above the stack top in its chain, that a live thread of the target process made, and with nothing exactly if there is none |
| `CallSteps.SendQueues` | anbox-modules/binder/binder.c:2109-2154 | a call is queued for that thread, otherwise for the process, goes on top of the sender's stack, and changes nothing else |
| `CallSteps.ReplyReturns` | anbox-modules/binder/binder.c:2364-2366 | a successful reply gives both threads their stacks back, raises no error and frees exactly the answered call |
| `CallSteps.ReplyFails` | anbox-modules/binder/binder.c:2424-2430 | a reply that cannot be built raises an error in the replier and in the caller, who keeps an error it had, and pops the call all the same |
| `CallSteps.ReplyToNobody` | anbox-modules/binder/binder.c:2060-2066 | without a caller any reply fails, and so do the calls around it up to the first with a live caller |
| `CallSteps.DetachEffect` | anbox-modules/binder/binder.c:3255-3281 | the exiting thread is off every call; calls that do not involve it are as before |
| `CallSteps.ExitFailsOne` | anbox-modules/binder/binder.c:3247-3286 | exactly the call that lost its receiver by the exit gets a failed reply |
| `CallSteps.ReleaseFailsOne` | anbox-modules/binder/binder.c:3162-3176 | a call queued for an exiting process fails in the same way |
| `CallSteps.CallReturns` | anbox-modules/binder/binder.c:2040-2154 | a call that is sent, read and answered leaves no trace but its number |
| `CallSteps.CallEnds` | anbox-modules/binder/binder.c:2008-2432 | no call can get stuck: from every state threads that only read and answer can end any call, with its caller back where it was |
| `CallSteps.EveryCallEnds` | anbox-modules/binder/binder.c:2008-2432 | the same after every run from the empty driver |
| `CallDriver.StackIsExact` | anbox-modules/binder/binder.c:3247-3281 | following to_parent and from_parent from any point visits exactly the calls of the chain below it that involve the thread, innermost first |
| `CallDriver.StackOfThread` | anbox-modules/binder/binder.c:3247-3281 | a thread's stack is finite, without cycles, in a single chain, and lists exactly the calls that involve the thread |
| `CallDriver.FindTarget` | anbox-modules/binder/binder.c:2109-2127 | the from_parent walk ends at the outermost caller in the target process, told by positions in the chain |
| `CallDriver.Driver.SendCall` | anbox-modules/binder/binder.c:2109-2127 | a synchronous send as a step: queued for the outermost caller's thread in the target process, otherwise for the process |
| `CallDriver.Driver.ReadCall` | anbox-modules/binder/binder.c:3129-3134 | delivery as a step |
| `CallDriver.Driver.SendFailedReply` | anbox-modules/binder/binder.c:1405-1456 | the failure loop ends and computes the failed reply; its checks on stack top and error registers hold at every turn |
| `CallDriver.Driver.ReplyCall` | anbox-modules/binder/binder.c:2040-2077 | a reply as a step, with the stacks, errors and calls it leaves on success, on failure and without a caller; the mismatch check never fires |
| `CallDriver.Driver.WalkStack` | anbox-modules/binder/binder.c:3255-3281 | the walk takes the thread off both ends of exactly the calls that involve it; its BUG is unreachable |
| `CallDriver.Driver.FreeThread` | anbox-modules/binder/binder.c:3247-3286 | the call served by or queued for the thread fails, and no transaction mentions the thread afterwards |
| `CallDriver.UnlinkedIsServed` | anbox-modules/binder/binder.c:3259-3272 | every call that the walk of an exiting thread unlinks from its buffer has been read: none is in a work list |
| `CallDriver.QueuedIsUnlinkedExactly` | anbox-modules/binder/binder.c:3259-3272 | after a send, the walk of its sender would unlink the call while it is queued exactly if the search for a thread ended at the sender |
| `NodeRefs.DecNodeKeeps` | anbox-modules/binder/binder.c:1174-1215 | counting down queues the news or frees the node exactly when nothing else uses it |
| `NodeRefs.IncNodeShifts` | anbox-modules/binder/binder.c:1138-1172 | counting up changes exactly one count and queues the news when there is a list |
| `NodeRefs.DecRefKeeps` | anbox-modules/binder/binder.c:1357-1386 | dropping a count of a reference keeps counts, indexes and handshake |
| `NodeRefs.DeleteRefKeeps` | anbox-modules/binder/binder.c:1308-1331 | deleting a reference keeps them |
| `NodeRefs.AddRefKeeps` | anbox-modules/binder/binder.c:1333-1355 | handing out a reference keeps them, on success and on failure |
| `NodeRefs.HoldTargetKeeps` | anbox-modules/binder/binder.c:2199-2202 | a buffer that targets a node accounts for one local strong count |
| `NodeRefs.HoldNodeKeeps` | anbox-modules/binder/binder.c:1809-1817 | a handle turned back into a local object accounts for one local count |
| `NodeRefs.HoldRefKeeps` | anbox-modules/binder/binder.c:1823-1840 | a handle or object passed on accounts for one count of the target's reference |
| `NodeRefs.DropTargetKeeps` | anbox-modules/binder/binder.c:1617-1618 | releasing a buffer's target gives its count back |
| `NodeRefs.DropObjectKeeps` | anbox-modules/binder/binder.c:1626-1672 | releasing an object gives its count back |
| `NodeRefs.CloseBufferKeeps` | anbox-modules/binder/binder.c:2609-2611 | a buffer that holds nothing can be freed |
| `NodeRefs.DoneKeeps` | anbox-modules/binder/binder.c:2510-2565 | acknowledgements keep counts and handshake |
| `NodeRefs.NodeWorkKeeps` | anbox-modules/binder/binder.c:2959-3027 | each command to the owner, and the freeing of an unused node, keep them |
| `NodeRefs.DiscardWorkKeeps` | anbox-modules/binder/binder.c:3203-3206 | discarding a queued work item keeps the handshake exactly if the owner had nothing left to learn |
| `NodeRuns.DiscardingCanBreak` | anbox-modules/binder/binder.c:3203-3206 | a run after which discarding a queued work item breaks the handshake |
| `NodeRefs.NewNodeKeeps` | anbox-modules/binder/binder.c:1098-1136 | a new node counts nothing |
| `NodeRefs.NewManagerKeeps` | anbox-modules/binder/binder.c:3414-3422 | the context manager's node starts with one count of each kind, known to its owner |
| `NodeRefs.ExitNodesKeeps` | anbox-modules/binder/binder.c:3757-3769 | process exit frees unreferenced nodes, leaves the others dead with local counts zero, and keeps everyone else's counts |
| `NodeRuns.StepKeeps` | anbox-modules/binder/binder.c:2456-2565 | every reference command, acknowledgement, read, transaction step and process exit keeps the invariant |
| `NodeRuns.RunsKeep` | anbox-modules/binder/binder.c:1079-1386 | so does every run |
| `NodeRuns.EveryRun` | anbox-modules/binder/binder.c:1138-1215 | in every reachable state the owner knows what the counts say unless its work item is queued, and every count equals the number of its holders |
| `NodeRuns.NothingDangles` | anbox-modules/binder/binder.c:1174-1215 | no reference and no live buffer names a freed node; what a buffer holds has a positive count |
| `NodeRuns.OneRefPerNode` | anbox-modules/binder/binder.c:1241-1306 | a process has one reference per node, and the descriptor identifies it |
| `NodeRuns.RefUsesNode` | anbox-modules/binder/binder.c:1333-1386 | a reference keeps its node in use, a strong one strongly |
| `NodeTalk.Grammar` | anbox-modules/binder/binder.c:2959-3027 | consecutive commands about a node follow Increfs (Acquire Release)* Decrefs, repeated |
| `NodeTalk.FirstIsIncrefs` | anbox-modules/binder/binder.c:2977-2988 | the first command about a node its owner does not know is Increfs |
| `NodeTalk.NoSecondRequest` | anbox-modules/binder/binder.c:2510-2558 | between two requests of one kind the owner acknowledges the first and the driver takes it back, in this order |
| `NodeTalk.EventSpoken` | anbox-modules/binder/binder.c:2959-3027 | every step moves the driver's four flags as what it says to the owner, or hears from it, moves the owner's view; a node freed while its owner lives leaves nothing held or owed |
| `NodeTalk.EveryTalk` | anbox-modules/binder/binder.c:2959-3027 | in every run what has passed between driver and owner about a node keeps to the protocol, and the flags are the owner's view |
| `NodeTalk.EveryOwner` | anbox-modules/binder/binder.c:2510-2558 | in every run: the order of the commands, no second request before the first is acknowledged and taken back, and nothing left held or owed when a node is freed |
| `NodeEffects.DeleteRefsEffect` | anbox-modules/binder/binder.c:3838-3845 | deleting references removes exactly them, and frees a node exactly if they were all it had and nothing else keeps it |
| `NodeEffects.ExitEffect` | anbox-modules/binder/binder.c:3757-3845 | after a process exit: no reference and no buffer of the process, everyone else's untouched; its nodes stay, dead, exactly if another process refers to them, and any other node goes exactly with its last user |
| `NodeEffects.DeadGoWithLastRef` | anbox-modules/binder/binder.c:3838-3845 | a node whose owner is gone goes with the last process that refers to it |
| `NodeEffects.EveryDeadNode` | anbox-modules/binder/binder.c:1174-1215 | in every run a node whose owner is gone is there only as long as some process refers to it |
| `NodeEffects.UnusedGoes` | anbox-modules/binder/binder.c:2959-3027 | a node that nothing uses is freed once its owner has read all there is to be said about it |
| `NodeEffects.CallTargetExactly` | anbox-modules/binder/binder.c:2082-2097 | handle 0 is for the context manager, any other for the node of a strong reference under it |
| `NodeEffects.StartCallEffect` | anbox-modules/binder/binder.c:2189-2202 | a call's buffer belongs to the owner of that node and holds one local strong count of it |
| `NodeEffects.HandleMeansSame` | anbox-modules/binder/binder.c:1789-1842 | a handle passed on stands for the same node: as the node itself exactly in its owner's process, otherwise as that process's reference to it |
| `NodeEffects.BinderMeansSame` | anbox-modules/binder/binder.c:1737-1787 | a binder sent stands for the sender's node, as the receiver's reference to it |
| `NodeEffects.IncCommandEffect` | anbox-modules/binder/binder.c:2467-2492 | BC_INCREFS and BC_ACQUIRE raise exactly one count of one reference, or none where the increment is refused |
| `NodeEffects.DecCommandEffect` | anbox-modules/binder/binder.c:2493-2501 | BC_RELEASE and BC_DECREFS lower exactly one count, and end the reference at zero |
| `NodeEffects.IncThenDec` | anbox-modules/binder/binder.c:2456-2508 | acquiring and releasing a handle restores all references |
| `NodeEffects.FreeObjectEffect` | anbox-modules/binder/binder.c:1626-1672 | releasing an object lowers exactly the count it held |
| `Unwind.DecRefEffect` | anbox-modules/binder/binder.c:1357-1386 | dropping a count lowers one reference, deletes it exactly at zero and touches one node |
| `Unwind.AddRefEffect` | anbox-modules/binder/binder.c:1241-1355 | handing out a reference raises or creates exactly one |
| `Unwind.CountsExactly` | anbox-modules/binder/binder.c:1823-1834 | the unchecked increment fails exactly for a weak handle of a node whose owner is gone and was never told of it, if the target holds no weak count of the node |
| `Unwind.ReleaseRestores` | anbox-modules/binder/binder.c:1605-1672 | releasing everything translated restores references, indexes, counts and buffers exactly if every reference made counts something and none that counted nothing before has begun to |
| `UnwindExactly.PutTally` | anbox-modules/binder/binder.c:1737-1842 | what one object does to the target's references, counted or not |
| `UnwindExactly.KeptExactly` | anbox-modules/binder/binder.c:1333-1355 | that condition on references is one on the objects of the list |
| `UnwindExactly.UnwindRestores` | anbox-modules/binder/binder.c:2393-2401 | a transaction that fails at any object is undone exactly if and only if every node the target had no reference to is named by an object that counts, and no reference that counted nothing is named by one |
| `UnwindExactly.UnwindLeavesNode` | anbox-modules/binder/binder.c:1737-1787 | if the failing object had already made a node, that node and no other stays, under the same condition |
| `UnwindExactly.ForeseenIsResolved` | anbox-modules/binder/binder.c:1789-1842 | between distinct processes, what each object is and whether it counts can be told from the state before the transaction |
| `FailedTransaction.ReadsBack` | anbox-modules/binder/binder.c:1626-1672 | the bytes of a translated binder or handle are read back as the count the buffer holds |
| `FailedTransaction.DropsWhatItHolds` | anbox-modules/binder/binder.c:1626-1672 | releasing a binder or handle as the buffer reads drops exactly what was held for it, and leaves the rest of the buffer readable |
| `FailedTransaction.ReleasesAll` | anbox-modules/binder/binder.c:1605-1735 | one pass over the buffer, in the order of the objects, drops all that is held and closes all that was installed |
| `FailedTransaction.FailedTransactionIsUndone` | anbox-modules/binder/binder.c:2393-2401 | for every object list and every failure index, one pass of the release closes exactly the descriptors installed and restores every reference and count if and only if the binders and handles of the same list are restorable |
| `FailedTransaction.FailedTransactionLeavesNode` | anbox-modules/binder/binder.c:2393-2401 | the same when the failing object had already made a node, which then stays |
| `Settled.ManagerCounts` | anbox-modules/binder/binder.c:2467-2476 | counting up the context manager without a list never fails |
| `Settled.StepSettles` | anbox-modules/binder/binder.c:1333-1386 | no step whose unchecked increment succeeds leaves a reference that counts nothing |
| `Settled.RunsSettle` | anbox-modules/binder/binder.c:1333-1386 | nor does any run of such steps |
| `Settled.EveryUnwind` | anbox-modules/binder/binder.c:2393-2401 | after every run, unwinding any transaction that failed at any object restores the state exactly if and only if its list is restorable |
| `Settled.SureIsRestorable` | anbox-modules/binder/binder.c:1333-1386 | where every increment succeeds, and did so before, every list is restorable |
| `Settled.UnrestorableReachable` | anbox-modules/binder/binder.c:1823-1834 | a run that reaches a list that is not: a weak handle of a node whose owner exited before it read of it is passed on |
| `Settled.UncountedIsLeft` | anbox-modules/binder/binder.c:1823-1834 | if the last object translated makes a reference and its increment fails, releasing everything leaves that reference behind, counting nothing |
| `RefDriver.PickDescriptor` | anbox-modules/binder/binder.c:1271-1277 | the loop yields the least unused descriptor at or above its start |
| `RefDriver.Table.GetRefForNode` | anbox-modules/binder/binder.c:1241-1306 | an existing reference, or a new one under the least unused descriptor, unused before, in both indexes |
| `RefDriver.Table.ReleaseBuffer` | anbox-modules/binder/binder.c:1605-1672 | the release loop as a step that keeps the invariant |
| `RefDriver.Table.ExitProcess` | anbox-modules/binder/binder.c:3827-3845 | the reference loop of process exit: exactly the references of other processes are left, and the nodes they or their owners need |
| `OneWay.SendKeeps` | anbox-modules/binder/binder.c:2372-2382 | a one-way send keeps serialization and order |
| `OneWay.ReadKeeps` | anbox-modules/binder/binder.c:3129-3138 | reading keeps them |
| `OneWay.FreeKeeps` | anbox-modules/binder/binder.c:2602-2608 | freeing hands over to the next waiting call and keeps them |
| `OneWay.DiscardKeeps` | anbox-modules/binder/binder.c:3170-3185 | an exiting thread's discarded calls keep them |
| `OneWay.GoneKeeps` | anbox-modules/binder/binder.c:3757-3770 | a node that goes with its owner takes all its calls along, queued ones included |
| `OneWay.FreeFindsFlag` | anbox-modules/binder/binder.c:2602-2603 | the BUG on a missing has_async_transaction is unreachable |
| `OneWay.RunsKeep` | anbox-modules/binder/binder.c:2372-2382 | every run keeps them |
| `OneWay.EveryRun` | anbox-modules/binder/binder.c:2587-2611 | in every run at most one call per node is out with its buffer unreleased, the flag says exactly that, and calls are read in the order sent |
| `OneWay.StepInOrder` | anbox-modules/binder/binder.c:2382-2382 | what leaves a work list in one step and what stays in it was in it before or entered at its end, in this order |
| `OneWay.ListsAreQueues` | anbox-modules/binder/binder.c:2382-2382 | in every run a work list is read in the order it was filled, without the calls thrown away, and without exits it is all of them |
| `OneWay.GoneTakesAll` | anbox-modules/binder/binder.c:3757-3770 | a node that goes takes exactly its own calls out of every list |
| `OneWay.LostBlocksNode` | anbox-modules/binder/binder.c:3178-3185 | after an exiting thread has thrown away a call of a node unread, no later run without the node's end reads any call of it |
| `OneWay.ReadableExactly` | anbox-modules/binder/binder.c:2602-2608 | a node with unread calls has a run, without the node's end, that reads exactly its next one if and only if none of its calls was thrown away unread |
| `OneWay.LostIsReachable` | anbox-modules/binder/binder.c:3170-3185 | a run from the empty driver that throws a call away unread |
| `OneWay.Driver.SendAsync` | anbox-modules/binder/binder.c:2372-2382 | the send as a step |
| `OneWay.Driver.FreeAsync` | anbox-modules/binder/binder.c:2602-2611 | the release as a step; its BUG cannot fire |
| `Death.RequestKeeps` | anbox-modules/binder/binder.c:2707-2733 | a request keeps the life cycle of records |
| `Death.ClearKeeps` | anbox-modules/binder/binder.c:2734-2761 | a clear keeps it |
| `Death.ClearFindsDeath` | anbox-modules/binder/binder.c:2757-2760 | the BUG on the record's type in a clear is unreachable |
| `Death.ReadKeeps` | anbox-modules/binder/binder.c:3028-3063 | delivery keeps it |
| `Death.DoneKeeps` | anbox-modules/binder/binder.c:2790-2799 | an acknowledgement keeps it |
| `Death.DyingFindsIdle` | anbox-modules/binder/binder.c:3780-3787 | the BUG when a node dies is unreachable |
| `Death.NodeDiesKeeps` | anbox-modules/binder/binder.c:3772-3787 | the death of a node keeps it |
| `Death.DeleteRefKeeps` | anbox-modules/binder/binder.c:1321-1328 | deleting a reference frees its record exactly once |
| `Death.ReleaseWorkKeeps` | anbox-modules/binder/binder.c:3192-3206 | releasing a work list keeps it |
| `Death.ReleaseToldKeeps` | anbox-modules/binder/binder.c:3847-3848 | process exit frees every record still in the list of delivered deaths |
| `Death.OneOwner` | anbox-modules/binder/binder.c:1321-1328 | a record is owned by its reference until cleared and by exactly one list afterwards |
| `Death.NothingLeaks` | anbox-modules/binder/binder.c:3838-3848 | a process without references has only records that releasing its lists frees |
| `Death.StepKeeps` | anbox-modules/binder/binder.c:2674-2800 | every step keeps the life cycle |
| `Death.RunsKeep` | anbox-modules/binder/binder.c:2674-2800 | every run keeps it |
| `Death.EveryRun` | anbox-modules/binder/binder.c:3028-3063 | per request at most one BR_DEAD_BINDER; a clear is confirmed at most once and last, and after an announced or raced death only once that was announced and acknowledged |
| `Death.EveryDeathIsAnnounced` | anbox-modules/binder/binder.c:2722-2733 | in every run in which no exiting thread throws its list away, whoever asked to hear of a death and has not withdrawn has been told of it or can read it from a work list |
| `Death.AnnounceableExactly` | anbox-modules/binder/binder.c:3203-3206 | a death that is owed can still be announced if and only if its record is in a work list |
| `Death.LostDeathIsReachable` | anbox-modules/binder/binder.c:3203-3206 | a run after which it is in none |
| `Death.AskedThenTold` | anbox-modules/binder/binder.c:2707-2733 | a request waits, is queued when its node dies, and tells of the death when it is read |
| `Death.ToldThenOver` | anbox-modules/binder/binder.c:2734-2800 | a told death is acknowledged, withdrawn and confirmed, and only the account of it is left |
| `Death.WorkThrownAway` | anbox-modules/binder/binder.c:3192-3206 | an exiting thread frees exactly the records in its list that no reference holds |
| `Death.ToldAreGone` | anbox-modules/binder/binder.c:3847-3848 | process exit frees exactly the records delivered to it |
| `Death.Driver.RequestDeath` | anbox-modules/binder/binder.c:2707-2733 | the request as a step: refused without change if there is one, queued at once if the node is dead, otherwise waiting |
| `Death.Driver.ClearDeath` | anbox-modules/binder/binder.c:2734-2761 | the clear as a step; its BUG cannot fire |
| `Death.Driver.DeadBinderDone` | anbox-modules/binder/binder.c:2763-2800 | the search acknowledges the first delivered record with the cookie; an unknown cookie changes nothing |
| `Death.Driver.ReleaseNode` | anbox-modules/binder/binder.c:3772-3787 | the reference loop of a dying node queues every record it finds, each found in no list |
| `Links.StepKeeps` | anbox-modules/binder/binder.c:2189-2200 | sending, reading, freeing, answering, thread exit and process exit keep the links between transactions and buffers mutual |
| `Links.EveryRun` | anbox-modules/binder/binder.c:3069-3075 | in every run a transaction in a work list has its buffer, so the BUG on a missing one is unreachable, and the receiver cannot free it |
| `Links.UnlinkKeeps` | anbox-modules/binder/binder.c:3263-3272 | the unlinking of a thread exit keeps the links exactly if the call is not in a work list |
| `Links.ReadThenFree` | anbox-modules/binder/binder.c:3129-3138 | after a read its receiver may free the buffer; freeing it cuts it off the call and touches nothing else |
| `Links.SendThenRead` | anbox-modules/binder/binder.c:2189-2200 | a sent call can be read, and its buffer then freed, which leaves all other buffers and calls as they were |
| `Links.FreeableExactly` | anbox-modules/binder/binder.c:2573-2611 | while its process lives, a buffer can be freed if and only if its receiver may free it or is still to read its call |
| `Links.StaysInReach` | anbox-modules/binder/binder.c:3162-3185 | a buffer gets out of reach only when its call is dropped from a work list |
| `Links.Driver.ReadTxn` | anbox-modules/binder/binder.c:3129-3138 | the delivery as a step, with that BUG |
| `Links.Driver.FreeBuffer` | anbox-modules/binder/binder.c:2598-2611 | BC_FREE_BUFFER as a step; no transaction points to the buffer when it is freed, so the BUG at 1039 cannot fire |
| `Links.Driver.ReleaseBuffers` | anbox-modules/binder/binder.c:3850-3867 | the buffer loop of process exit as a step, with the same BUG |
| `FdTable.DupKeeps` | gsi-vendor/pipe-compat/anbox_pipe_compat.c:166-176 | duplication keeps the table equal to what the kernel's descriptors determine |
| `FdTable.CloseRangeKeeps` | gsi-vendor/pipe-compat/anbox_pipe_compat.c:412-426 | so does closing a range |
| `FdTable.StepKeeps` | gsi-vendor/pipe-compat/anbox_pipe_compat.c:405-469 | so does every wrapper |
| `FdTable.RunsKeep` | gsi-vendor/pipe-compat/anbox_pipe_compat.c:405-469 | so does every run of them |
| `FdTable.EveryRun` | gsi-vendor/pipe-compat/anbox_pipe_compat.c:152-164 | in every run a descriptor is taken for an address-space one exactly if it is open, descends from such an open, and every descriptor in between was below 1024; the identity check never fails |
| `FdTable.LowRunsAreExact` | gsi-vendor/pipe-compat/anbox_pipe_compat.c:99-104 | when no call makes a descriptor above 1023, the answer is exact |
| `FdTable.HighDupIsForgotten` | gsi-vendor/pipe-compat/anbox_pipe_compat.c:166-176 | a duplicate that passed through 1024 is not recognised |
| `FdTable.ReuseIsDetected` | gsi-vendor/pipe-compat/anbox_pipe_compat.c:95-98 | even when descriptors are closed or duplicated behind the table, only files with the identity of an address-space open are recognised |
| `FdTable.Library.Clear` | gsi-vendor/pipe-compat/anbox_pipe_compat.c:130-138 | clears one entry and nothing else |
| `FdTable.Library.Track` | gsi-vendor/pipe-compat/anbox_pipe_compat.c:140-150 | records the identity of an open descriptor below the limit |
| `FdTable.Library.IsAddressSpace` | gsi-vendor/pipe-compat/anbox_pipe_compat.c:152-164 | answers by activity and identity and clears an entry that no longer fits |
| `FdTable.Library.Duplicate` | gsi-vendor/pipe-compat/anbox_pipe_compat.c:166-176 | clears the target and copies an entry that still fits |
| `FdTable.Library.OpenAddressSpace` | gsi-vendor/pipe-compat/anbox_pipe_compat.c:346-351 | the open as a step, failed opens included |
| `FdTable.Library.CloseFd` | gsi-vendor/pipe-compat/anbox_pipe_compat.c:405-410 | the close as a step; a refused close changes nothing |
| `FdTable.Library.CloseFds` | gsi-vendor/pipe-compat/anbox_pipe_compat.c:412-426 | the clearing loop covers exactly the part of the range inside the table |
| `FdTable.Library.DupFd` | gsi-vendor/pipe-compat/anbox_pipe_compat.c:428-469 | the five duplicating calls as a step |
| `Chroma.Convert` | anbox/android/camera/Converters.cpp:58-86 | the pointer-stepping loop writes the closed form, for any width, height and chroma step, and nothing behind it; all reads stay inside the frame |
| `Chroma.OnePixel` | anbox/android/camera/Converters.cpp:69-85 | pixel (x, y) comes from luma y * w + x and the chroma sample at row y / 2, column x / 2 |
| `Chroma.SizesThatFit` | anbox/android/camera/Converters.cpp:88-113 | reads and writes stay inside a w * h * 3 / 2 frame and w * h pixels exactly for even width and height (and, planar, width two with odd height) |
| `Chroma.EveryFrameIsAnImage` | anbox/android/camera/Converters.cpp:106-113 | every frame of the right size is some image in any layout |
| `Chroma.ShowsImage` | anbox/android/camera/Converters.cpp:106-171 | a frame read with its own layout's offsets shows the image it stores |
| `Chroma.ToRGB` | anbox/android/camera/Converters.cpp:97-171 | each entry point renders the stored image, so the same image as YU12, YV12, NV12 or NV21 gives the same picture |
| `Chroma.YV12ToRGB565` | anbox/android/camera/Converters.cpp:88-95 | this entry point shows a YV12 frame with its chroma planes exchanged |

## Left out

- Kernel services (page allocation and mapping, user copies, wait queues, priorities, security hooks, memory for
  records): nondeterministic success or failure where a property depends on it, otherwise absent.
- Red-black balancing: trees of any shape with the right in-order sequence; only descents are modelled.
- Debugfs, tracing, statistics, device set-up and polling: they read the state or run before it exists, and change nothing that is modelled.
- Thread-pool spawning: the counters behind BR_SPAWN_LOOPER decide only how many threads a process is asked to start.
- The in-place form of nodes, references, transactions and records: they are values in maps held by the driver
  classes, so links between records are identities and aliasing of kernel objects is not captured.
- Lookup of nodes by user pointer and cookie: nodes are named by identity.
- Mappings on the user side: of a page only whether it is present in the driver's page array is modelled.
- The type, parent and length fields of metadata objects are taken as the object list says, not parsed from the buffer's bytes; the fields that translation rewrites are bytes, the types of translated binders and handles included.
- Allocator.Proc.Mmap: does not model the refusals before the first page (flags, address space, the page array), because they leave no state behind.
- Objects.TranslateObjects: does not say which error code a refused object yields, because all are reported as a failed reply.
- CallChains.EveryRun: does not include replies and one-way transactions in the work lists, because neither is ever on a stack.
- OneWay.EveryRun: does not order the release of an exiting process's lists against that of its nodes, because both happen in one step under the lock.
- Death.EveryRun: does not model the order inside a list or a read that fails while writing to user space, because every record may be read or acknowledged at any time in the model.
- FdUnwind.BufferHolds: does not say what the bytes of a sub-buffer outside all fixups are, because the release never reads them.
- FdTable.EveryRun: does not cover a close that fails after releasing the descriptor, because the wrapper cannot see it; that is a close behind the table's back, which `FdTable.ReuseIsDetected` covers.
- Concurrent use of the descriptor table by several threads: the source has no lock around it and promises nothing.
- Chroma.Convert: does not model 32-bit overflow of width times height or negative sizes, because no frame has them.
- Pixel arithmetic in Converters.h: any function of three bytes.
- The path, label, ioctl and power shims of anbox_pipe_compat.c return constants or forward to the C library;
  the HALs, the session manager and the scripts depend on devices, sockets and random numbers that have no
  specification here.
