# Proofs about an allocator, channels, a scheduling simulator and two harness algorithms

This project models four independent cores of the repository and proves what their code keeps and computes.

* **Boundary-tag allocator** (`mm.c`, `memlib.c`): `Words`, `Layout`, `Memory`, `Allocator`, `HeapRuns`,
  `HeapResults`, `SmallRequests`. The heap is an array of 64-bit words that the methods update with the code's own masks and
  toggles; `Layout` is the same heap as a map of blocks and a free list. Pointers are word indices, 0 is NULL.
* **Channels** (`channel.c`, `buffer.c`): `RingBuffer`, `ChannelSystem`, `ChannelProofs`, `PostProofs`,
  `SelectProofs`, `ChannelEnds`, `CallProofs`, `CallRecords`, `CallRuns` for buffered channels and select,
  `Rendezvous` for unbuffered ones.
  Threads, mutexes, condition variables and semaphores are steps of a state machine: one step is a stretch of code that runs under one mutex, one
  condition-variable operation, or one semaphore operation.
* **Discrete-event simulator** (`simulatorlab`): `LinkedList`, `EventQueue`, `Simulator`, `Trace` update the
  queue, the clock and each policy's state in place, callbacks and the loop included; `Scheduling` is the run as
  a function on values, about which `SchedulingProofs`, `MlfqProofs`, `SimulatedRuns`, `PolicyRuns` and
  `LevelOrder` prove the theorems.
* **Harness algorithms** (`stree.c`, `stress.c`): `SplayTree`, a class over nodes with parent
  links, on `SearchTree`, `TreeDepth` and `SplayPasses`; `Walks` and
  `FloydWarshall`, in place over a matrix of 32-bit numbers; `DistanceVector`, the routers' protocol as a state
  machine, and `RouterThread`, one router's own data in place.

Where code and documentation disagree, the model follows the code. Three cases matter:

* `coalesce` subtracts 7 from a `size_t*`, that is 56 bytes, where `mm_checkheap` subtracts 7 bytes. A free last
  block of 32 or 48 bytes is therefore not merged, and once the heap grows behind it a later free can write a wrong
  left-neighbour bit. The per-call contracts say exactly when (`FreeCoalescedIff`, `Heap.Free`), the lemmas of
  `SmallRequests` give failing runs for every size from 1 to 40 bytes, and the theorem about whole runs
  is for nonzero requests of at least 41 bytes.
* An unbuffered initiator that wakes spuriously and finishes while the channel is still in stage 1 returns SUCCESS
  without a partner. Spurious wakeups are steps of the model; `Rendezvous.RunUnpairedIff` says exactly when a run has
  such a call, and `Rendezvous.RunPairs` that there is none when no spurious wakeup hits an initiator.
* The simulator's README asks for round-robin order by the time of entering a level; the code puts a preempted job
  at the tail of its level again. `LevelOrder` gives a trace where that breaks the order and proves exactly which
  events do.

In the simulator a trace is assumed to be sorted by arrival, as the program asserts, and its final time to fit in
64 bits; every other time then fits too (`SimulatedRuns.TimesFit`).

## Model

| member | source | states |
|---|---|---|
| `Allocator.Heap.Sbrk` | assignment-2-malloclab-FreezeKickerz/memlib.c:31-50 | the break moves by the request exactly when that is not negative and the region has room, and the old break is returned; it never shrinks |
| `Allocator.Heap.Init` | assignment-2-malloclab-FreezeKickerz/mm.c:100-118 | succeeds exactly when 4112 bytes are there, and then memory represents one free block of 4096 bytes between prologue and epilogue, alone on the free list |
| `Layout.Need` | assignment-2-malloclab-FreezeKickerz/mm.c:74-77 | block size in words for a request: even, room for header and payload, and at most 15 bytes more than that unless it is the minimum of 32 bytes |
| `Words.TagBits` | assignment-2-malloclab-FreezeKickerz/mm.c:131-141 | on a header made of a size and two flags, each mask and toggle the code uses changes one flag and reads back what was put in; the toggle inverts only the left-neighbour flag |
| `Allocator.Heap.RemoveFromFreeList` | assignment-2-malloclab-FreezeKickerz/mm.c:82-86 | the words then link the list without that block, in both directions, and only link words of listed blocks changed |
| `Allocator.Heap.AddToFreeList` | assignment-2-malloclab-FreezeKickerz/mm.c:88-93 | the words then link the list with the block in front, in both directions |
| `Allocator.Heap.Search` | assignment-2-malloclab-FreezeKickerz/mm.c:223-235 | terminates and returns the first listed block that is large enough, or NULL when none is |
| `Allocator.Heap.UseWhole` | assignment-2-malloclab-FreezeKickerz/mm.c:134-143 | handing out a whole free block: its own bit and its right neighbour's bit end up right, the block leaves the list, no payload of a live block changes |
| `Allocator.Heap.SplitBlock` | assignment-2-malloclab-FreezeKickerz/mm.c:145-156 | splitting: the front stays free with the rest of the size, the tail is handed out, tags and list represent the new blocks, no payload changes |
| `Allocator.Heap.Grow` | assignment-2-malloclab-FreezeKickerz/mm.c:159-170 | heap extension: the old epilogue word becomes a right header for the new block, a new epilogue follows; or NULL and nothing changes |
| `Allocator.Heap.Malloc` | assignment-2-malloclab-FreezeKickerz/mm.c:124-172 | malloc on the words does what `Layout.Malloced` does on blocks and list, in every represented heap, coalesced or not, and changes no payload of a live block |
| `Layout.PlaceWellFormed` | assignment-2-malloclab-FreezeKickerz/mm.c:131-157 | serving a request from a listed block keeps the blocks tiling the heap and the list exactly the free blocks, and yields a used block of sufficient size |
| `Layout.MallocKeepsLive` | assignment-2-malloclab-FreezeKickerz/mm.c:124-172 | malloc leaves every live block in place with its size and hands out something that was not live |
| `Layout.MallocHandsOut` | assignment-2-malloclab-FreezeKickerz/mm.c:124-172 | what malloc returns is a newly live block with room for the request, or NULL with nothing changed |
| `HeapResults.MallocSucceedsIff` | assignment-2-malloclab-FreezeKickerz/mm.c:124-172 | a nonzero request succeeds if and only if some free block can hold it or the region has room to grow by the block it needs; a failure changes nothing |
| `HeapResults.MallocServes` | assignment-2-malloclab-FreezeKickerz/mm.c:129-157 | with a block that fits, the first in the list serves: with its tail of exactly the needed size, or with the whole of it when at most 32 bytes would remain; the rest stays free and listed, all other blocks are as they were |
| `HeapResults.MallocExtends` | assignment-2-malloclab-FreezeKickerz/mm.c:159-170 | otherwise the heap grows by exactly the needed block, which is handed out; list and other blocks are as they were |
| `Layout.MallocKeepsCoalesced` | assignment-2-malloclab-FreezeKickerz/mm.c:124-172 | malloc makes no two free neighbours |
| `HeapRuns.GrowsOnlyWhenNothingFits` | assignment-2-malloclab-FreezeKickerz/mm.c:129-171 | the heap grows only when every free block is too small for the request |
| `Layout.TilesCoverOnce` | assignment-2-malloclab-FreezeKickerz/mm.c:100-118 | in a tiled heap every word from the first header to the epilogue lies in exactly one block |
| `Allocator.Heap.TakeLeft` | assignment-2-malloclab-FreezeKickerz/mm.c:240-252 | the left step of coalesce finds the left neighbour through its footer and unlinks it exactly when it is free |
| `Allocator.Heap.TakeRight` | assignment-2-malloclab-FreezeKickerz/mm.c:254-261 | the right step unlinks the right neighbour exactly when it is free and passes the bounds test |
| `Allocator.Heap.PutMerged` | assignment-2-malloclab-FreezeKickerz/mm.c:263-269 | one header, one footer and one list insertion replace the merged blocks; every tag is right, except that the merged header always says its left neighbour is used |
| `Layout.RightTestFailsOnlyOnSmallLast` | assignment-2-malloclab-FreezeKickerz/mm.c:255-256 | the bounds test (56 bytes, not 7, below the top) rejects a free right neighbour if and only if that is the last block and has less than 64 bytes |
| `Layout.LeftTestPasses` | assignment-2-malloclab-FreezeKickerz/mm.c:246-247 | the same test never rejects a left neighbour |
| `Allocator.Heap.Coalesce` | assignment-2-malloclab-FreezeKickerz/mm.c:237-270 | coalesce yields the blocks and list of `Layout.Freed`; the words represent them if and only if a free left neighbour has a used block on its own left |
| `Allocator.Heap.Free` | assignment-2-malloclab-FreezeKickerz/mm.c:178-187 | free on any represented heap: blocks, list and all other payloads are as specified; the tags are right afterwards if and only if a free left neighbour of the block has a used block on its own left |
| `Memory.MergeTaggedIff` | assignment-2-malloclab-FreezeKickerz/mm.c:265-267 | the toggled header of a merged block is right exactly when what lies left of it is in use |
| `Layout.FreeWellFormed` | assignment-2-malloclab-FreezeKickerz/mm.c:178-187 | freeing keeps the blocks tiling the heap and the list exactly the free blocks, whatever is merged |
| `Layout.FreeCoalescedIff` | assignment-2-malloclab-FreezeKickerz/mm.c:237-270 | freeing keeps the heap coalesced if and only if the block to the right is not a free last block of 32 or 48 bytes |
| `HeapResults.FreeDoes` | assignment-2-malloclab-FreezeKickerz/mm.c:237-270 | free leaves one free block that spans the block, a free left neighbour and a free right neighbour that is not a last block under 64 bytes, first in the list; the rest of the list keeps its order and all other blocks are as they were |
| `Layout.CoalescedIsMergeSafe` | assignment-2-malloclab-FreezeKickerz/mm.c:237-270 | in a coalesced heap every block can be freed without a wrong tag |
| `Words.OverlayBytes` | assignment-2-malloclab-FreezeKickerz/memlib.c:194-210 | a partial word write replaces exactly the low bytes and keeps the others |
| `Allocator.Heap.MemCpy` | assignment-2-malloclab-FreezeKickerz/memlib.c:83-98 | the first n bytes of the target become those of the source, and no word outside the target changes |
| `Allocator.Heap.CopyOver` | assignment-2-malloclab-FreezeKickerz/mm.c:198-201 | although the byte count is that of the whole old block, the copy stays inside the new payload and carries over the first min(old payload, size) bytes |
| `Allocator.Heap.Realloc` | assignment-2-malloclab-FreezeKickerz/mm.c:192-205 | realloc follows `Layout.Realloced`; a success keeps the first min(old payload, size) bytes; other payloads are untouched; the tags stay right exactly when the final free is harmless |
| `HeapResults.ReallocDoes` | assignment-2-malloclab-FreezeKickerz/mm.c:192-205 | realloc to a nonzero size succeeds exactly when malloc would, with a block not live before; the old block is not live afterwards, every other live block is as it was |
| `HeapRuns.PayloadsAlignedInsideApart` | assignment-2-malloclab-FreezeKickerz/mm.c:124-172 | live payloads are 16-byte aligned, inside the heap and pairwise disjoint |
| `HeapRuns.MallocKeepsSafe` | assignment-2-malloclab-FreezeKickerz/mm.c:124-172 | requests of 41 bytes or more keep the run invariant: tiled, coalesced, no used block and no free last block under 64 bytes |
| `HeapRuns.FreeKeepsSafe` | assignment-2-malloclab-FreezeKickerz/mm.c:178-187 | free keeps the run invariant |
| `HeapRuns.ReallocKeepsSafe` | assignment-2-malloclab-FreezeKickerz/mm.c:192-205 | realloc to 0 or at least 41 bytes keeps the run invariant |
| `HeapRuns.RunKeepsSafe` | assignment-2-malloclab-FreezeKickerz/mm.c:124-205 | every run of malloc, free and realloc whose nonzero requests are at least 41 bytes keeps the run invariant |
| `HeapRuns.InitialIsSafe` | assignment-2-malloclab-FreezeKickerz/mm.c:100-118 | the state after mm_init satisfies the run invariant |
| `HeapRuns.FreeKeepsLive` | assignment-2-malloclab-FreezeKickerz/mm.c:178-187 | free leaves every other live block in place with its size |
| `HeapRuns.Perform` | assignment-2-malloclab-FreezeKickerz/mm.c:124-205 | one call on the words follows one step on the blocks, returns the payload the step hands out, and keeps every word of a live payload that the call does not free, reallocate or store to; the words represent the result if and only if the call is harmless |
| `HeapRuns.Replay` | assignment-2-malloclab-FreezeKickerz/mm.c:124-205 | a whole run on the words follows the run on the blocks and ends represented, coalesced and safe; a stored word reads back until its block is freed or reallocated or the word is stored again; words of live payloads that no call touches keep their place and value |
| `SmallRequests.SmallRequestsLeaveFreeNeighbours` | assignment-2-malloclab-FreezeKickerz/mm.c:254-261 | for every size from 1 to 40 bytes, two allocations freed in turn leave two free neighbours: no limit below 41 will do |
| `SmallRequests.SmallRequestsBreakFree` | assignment-2-malloclab-FreezeKickerz/mm.c:265-266 | for every such size, one extension later there is a free that writes a wrong left-neighbour bit |
| `SearchTree.LeftRotationShaped` | assignment-2-malloclab-FreezeKickerz/stree.c:164-176 | a left rotation keeps the tree a binary search tree on the same nodes with consistent parent links |
| `SearchTree.RightRotationShaped` | assignment-2-malloclab-FreezeKickerz/stree.c:178-190 | so does a right rotation |
| `SplayTree.Tree.LeftRotate` | assignment-2-malloclab-FreezeKickerz/stree.c:164-176 | the assignments carry out the left rotation |
| `SplayTree.Tree.RightRotate` | assignment-2-malloclab-FreezeKickerz/stree.c:178-190 | the assignments carry out the right rotation |
| `TreeDepth.RightRotationDepth` | assignment-2-malloclab-FreezeKickerz/stree.c:178-190 | a right rotation of x and y lifts y and what is left of it by one, lowers x and what is right of it by one, and moves nothing else |
| `TreeDepth.LeftRotationDepth` | assignment-2-malloclab-FreezeKickerz/stree.c:164-176 | the mirror image for a left rotation |
| `SplayPasses.ZigZigRightLinks` | assignment-2-malloclab-FreezeKickerz/stree.c:197-199 | grandparent first, then parent: x, parent and grandparent end on one right spine, and every other node keeps its children |
| `SplayPasses.ZigZigLeftLinks` | assignment-2-malloclab-FreezeKickerz/stree.c:200-202 | the mirror image |
| `SplayPasses.ZigZagRightLinks` | assignment-2-malloclab-FreezeKickerz/stree.c:203-205 | parent first, then grandparent: both end as children of x |
| `SplayPasses.ZigZagLeftLinks` | assignment-2-malloclab-FreezeKickerz/stree.c:206-209 | the mirror image |
| `TreeDepth.ZigZigRightRises` | assignment-2-malloclab-FreezeKickerz/stree.c:197-199 | x rises by two, its old subtree by one at least, parent and grandparent end at the old depth of x or above, nothing outside the grandparent's subtree moves |
| `TreeDepth.ZigZigLeftRises` | assignment-2-malloclab-FreezeKickerz/stree.c:200-202 | the mirror image |
| `TreeDepth.ZigZagRightRises` | assignment-2-malloclab-FreezeKickerz/stree.c:203-205 | the same of a zig-zag pass |
| `TreeDepth.ZigZagLeftRises` | assignment-2-malloclab-FreezeKickerz/stree.c:206-209 | the mirror image |
| `SplayPasses.RaisedHalves` | assignment-2-malloclab-FreezeKickerz/stree.c:192-211 | each pass keeps: nodes still above x have not moved, and the others are below x by half the path they have left behind, and two |
| `SplayTree.Tree.Splay` | assignment-2-malloclab-FreezeKickerz/stree.c:192-211 | ends with x at the root of a search tree on the same nodes; the trees it goes through are one pass (`SplayPasses.Pass`, by explicit links of x, parent and grandparent) apart; every node on the old path to x ends at half its old depth plus 3 at most |
| `SearchTree.InOrderLists` | assignment-2-malloclab-FreezeKickerz/stree.c:164-211 | in a search tree the in-order walk lists the keys in strictly increasing order, all of them |
| `SearchTree.SameOrder` | assignment-2-malloclab-FreezeKickerz/stree.c:164-211 | two search trees on the same nodes have the same in-order key sequence, so rotations and splay preserve it |
| `SearchTree.SearchStep` | assignment-2-malloclab-FreezeKickerz/stree.c:77-86 | a key that is in the current subtree is in the child the comparison picks |
| `SearchTree.AttachedShaped` | assignment-2-malloclab-FreezeKickerz/stree.c:63-69 | a new leaf hung where the search ended leaves a search tree |
| `SearchTree.DropLeftlessShaped` | assignment-2-malloclab-FreezeKickerz/stree.c:123-123 | removing a root without left child leaves a search tree on the remaining nodes |
| `SearchTree.DropRightlessShaped` | assignment-2-malloclab-FreezeKickerz/stree.c:124-124 | removing a root without right child leaves a search tree on the remaining nodes |
| `SearchTree.DropFullShaped` | assignment-2-malloclab-FreezeKickerz/stree.c:125-135 | putting the least node of the right subtree in the root's place leaves a search tree on the remaining nodes |
| `SplayTree.Tree.Replace` | assignment-2-malloclab-FreezeKickerz/stree.c:213-218 | v hangs where u hung, and nothing else changes |
| `SplayTree.Tree.SubtreeMinimum` | assignment-2-malloclab-FreezeKickerz/stree.c:220-223 | terminates at the node with no left child that shares the subtree's lower bound |
| `SplayTree.Tree.Find` | assignment-2-malloclab-FreezeKickerz/stree.c:75-88 | returns the record the map has for the key, or NULL |
| `SplayTree.Tree.FindNearest` | assignment-2-malloclab-FreezeKickerz/stree.c:90-107 | returns the record of the greatest key not above the query, NULL when there is none |
| `SplayTree.Tree.Insert` | assignment-2-malloclab-FreezeKickerz/stree.c:41-73 | adds the key if it is absent and changes nothing if it is present |
| `SplayTree.Tree.Remove` | assignment-2-malloclab-FreezeKickerz/stree.c:110-140 | deletes exactly that key and returns its record |
| `SplayTree.Tree.UnlinkRoot` | assignment-2-malloclab-FreezeKickerz/stree.c:123-135 | takes the splayed root out in each of the three cases |
| `SplayTree.Tree.CountIsMapSize` | assignment-2-malloclab-FreezeKickerz/stree.c:71-71 | node_count is the number of keys in the map |
| `Walks.LeastCostUnique` | concurrency-project-FreezeKickerz/stress.c:40-52 | a least cost, capped at infinity, is unique: the specification determines the matrix |
| `Walks.CostSplits` | concurrency-project-FreezeKickerz/stress.c:40-52 | the cost of a walk is the sum of the costs of its two parts at any node |
| `FloydWarshall.StartOk` | concurrency-project-FreezeKickerz/stress.c:42-42 | the copied topology holds least costs over walks without inner nodes |
| `FloydWarshall.ThroughCosts` | concurrency-project-FreezeKickerz/stress.c:46-47 | any walk through node k costs at least the sum of the two entries of row and column k |
| `FloydWarshall.RoundKeeps` | concurrency-project-FreezeKickerz/stress.c:43-51 | a round through k extends least costs from inner nodes below k to inner nodes up to k |
| `FloydWarshall.PivotUnchanged` | concurrency-project-FreezeKickerz/stress.c:43-51 | row and column k do not change during round k, which makes the update in place sound |
| `FloydWarshall.Round` | concurrency-project-FreezeKickerz/stress.c:44-50 | the two inner loops, in place and in 32-bit arithmetic that never wraps, carry out one round |
| `FloydWarshall.FloydWarshall` | concurrency-project-FreezeKickerz/stress.c:40-52 | every cell ends as the least cost of a walk of one or more finite links, capped at 0x7fffffff |
| `DistanceVector.RelaxOk` | concurrency-project-FreezeKickerz/stress.c:187-192 | relaxing keeps every finite entry the cost of some walk, and the 32-bit sum does not wrap |
| `DistanceVector.StartInv` | concurrency-project-FreezeKickerz/stress.c:146-151 | the routers' first vectors satisfy the protocol invariant |
| `DistanceVector.SendInv` | concurrency-project-FreezeKickerz/stress.c:200-228 | a send, with the restart that may follow, keeps the invariant |
| `DistanceVector.ReceiveInv` | concurrency-project-FreezeKickerz/stress.c:181-228 | a receive, with the restart that may follow, keeps the invariant |
| `DistanceVector.NextBounded` | concurrency-project-FreezeKickerz/stress.c:302-316 | no channel ever holds more than its capacity, 0 included, where a send and its receive are one rendezvous |
| `DistanceVector.RunInv` | concurrency-project-FreezeKickerz/stress.c:125-235 | every interleaving of sends, receives and rendezvous over channels of any capacity keeps the invariant |
| `DistanceVector.StuckMeansQuiescent` | concurrency-project-FreezeKickerz/stress.c:177-235 | no router can move if and only if nothing is unsent, in flight or unapplied: a full channel lets its router receive |
| `DistanceVector.QuiescentIsLeast` | concurrency-project-FreezeKickerz/stress.c:177-228 | in a quiescent state with links finite both ways or neither, every entry is the least cost |
| `DistanceVector.NeverBelowNeverUp` | concurrency-project-FreezeKickerz/stress.c:187-192 | in every step no entry rises, and none is ever below the least cost |
| `DistanceVector.AgreesWithFloydWarshall` | concurrency-project-FreezeKickerz/stress.c:106-117 | a quiescent router's vector is its row of the Floyd-Warshall matrix |
| `DistanceVector.StepDescends` | concurrency-project-FreezeKickerz/stress.c:177-235 | every step lowers the distances held, or keeps them and lowers the work left |
| `DistanceVector.RunsAreShort` | concurrency-project-FreezeKickerz/stress.c:177-235 | a run has at most as many steps as the potential of its first state |
| `DistanceVector.EveryRunSettles` | concurrency-project-FreezeKickerz/stress.c:177-235 | every run can be continued to a quiescent state |
| `RouterThread.Thread.constructor` | concurrency-project-FreezeKickerz/stress.c:126-176 | the buffers and the select list start as the protocol's initial router |
| `RouterThread.Thread.Received` | concurrency-project-FreezeKickerz/stress.c:181-193 | applying a neighbour's vector in place is the protocol's receive |
| `RouterThread.Thread.Sent` | concurrency-project-FreezeKickerz/stress.c:200-206 | dropping a served entry by swapping in the last one is the protocol's send |
| `RouterThread.Thread.MaybeRestart` | concurrency-project-FreezeKickerz/stress.c:207-228 | cycling the buffers restarts the broadcast exactly when everything is sent and news is there |
| `RingBuffer.Buffer.Add` | concurrency-project-FreezeKickerz/buffer.c:18-30 | appends to the queue, or reports that it is full and changes nothing |
| `RingBuffer.Buffer.Remove` | concurrency-project-FreezeKickerz/buffer.c:35-47 | takes the oldest element, or reports that the queue is empty and changes nothing |
| `ChannelSystem.NextTyped` | concurrency-project-FreezeKickerz/channel.c:168-499 | every step of every thread leads to a well-formed state |
| `ChannelProofs.StepFifo` | concurrency-project-FreezeKickerz/channel.c:182-190 | each step keeps sent equal to received followed by buffered, within capacity, and a closed channel closed |
| `CallProofs.StepTraffic` | concurrency-project-FreezeKickerz/channel.c:176-193 | a send that goes ahead and finds room appends exactly its own value; a receive takes the oldest value not yet received, and the call has it; no other step and no other channel sees any traffic; a channel is closed by channel_close alone |
| `ChannelProofs.StepNoLostWakeup` | concurrency-project-FreezeKickerz/channel.c:182-193 | each step keeps: while a receiver sleeps, buffered items are at most the woken threads that will retry plus the signals still to be issued; dually for senders and free slots |
| `ChannelProofs.StepClosedWakes` | concurrency-project-FreezeKickerz/channel.c:327-348 | each step keeps: a sleeper on a closed channel is still due a broadcast |
| `ChannelProofs.StepPosterKnown` | concurrency-project-FreezeKickerz/channel.c:43-63 | each step keeps: select_list_mutex is held across steps only by a thread walking a list |
| `PostProofs.StepPostsSafely` | concurrency-project-FreezeKickerz/channel.c:43-63 | each step keeps: at most one thread walks the lists of a channel, it holds the mutex, and what it has yet to post to is the end of the list as it stands |
| `ChannelProofs.StepListedRight` | concurrency-project-FreezeKickerz/channel.c:378-394 | each step keeps: a thread is on a selector list exactly as often as its progress through init_select and cleanup_select says, duplicate entries included |
| `SelectProofs.StepAttentive` | concurrency-project-FreezeKickerz/channel.c:413-499 | each step keeps: a select that found an entry not ready, and finds it ready now, has its semaphore up or is still owed a post |
| `SelectProofs.StepInv` | concurrency-project-FreezeKickerz/channel.c:168-499 | all of these together, in one step |
| `SelectProofs.StartInv` | concurrency-project-FreezeKickerz/channel.c:12-41 | fresh channels and idle threads satisfy the invariant |
| `SelectProofs.RunInv` | concurrency-project-FreezeKickerz/channel.c:168-499 | every interleaving of send, receive, their non-blocking forms, close and select on any number of buffered channels, spurious wakeups included, keeps the invariant |
| `CallRecords.AttemptNoted` | concurrency-project-FreezeKickerz/channel.c:168-320 | what is seen on the channels in a step that attempts a transfer: one move with the call's value or the oldest one when the attempt goes ahead and has room, and otherwise none |
| `CallRecords.StepAgrees` | concurrency-project-FreezeKickerz/channel.c:168-499 | each step keeps: what each call has moved and closed so far, as seen on the channels, is what its progress says |
| `CallRuns.StepMovesStand` | concurrency-project-FreezeKickerz/channel.c:168-499 | each step keeps: every recorded move has its own place in its channel's history |
| `CallRuns.StatusIsHonest` | concurrency-project-FreezeKickerz/channel.c:168-499 | in every run: SUCCESS means exactly one transfer in that call, of the entry and value handed back, or for close that it set the flag; WOULD_BLOCK means none, with no room at the attempt; CLOSED_ERROR means none and a closed channel |
| `CallRuns.SentByACall` | concurrency-project-FreezeKickerz/channel.c:168-499 | in every run each value in a channel's history was put there by an attempt of a call to send that value |
| `CallRuns.ReceivedWasSent` | concurrency-project-FreezeKickerz/channel.c:168-499 | in every run what a successful receive or select hands back is what a call sent on that channel, and no other call's record has that place |
| `SelectProofs.EnteringClosed` | concurrency-project-FreezeKickerz/channel.c:172-175 | a send, receive or close that enters a closed channel returns CLOSED_ERROR and leaves the channel as it was |
| `SelectProofs.ClosedForGood` | concurrency-project-FreezeKickerz/channel.c:336-348 | once close has broadcast to a side, nobody sleeps there, and no step changes that |
| `SelectProofs.StuckThreads` | concurrency-project-FreezeKickerz/channel.c:168-499 | when nothing can happen but new calls and spurious wakeups, every thread is out of calls, asleep, or at sem_wait with its semaphore at zero |
| `SelectProofs.StuckSleepersJustified` | concurrency-project-FreezeKickerz/channel.c:182-226 | in such a state a sender sleeps only on a full open channel and a receiver only on an empty open one, never both on one channel |
| `SelectProofs.StuckSelectJustified` | concurrency-project-FreezeKickerz/channel.c:499-499 | in such a state a select is blocked only when none of its entries is ready or closed |
| `SelectProofs.ReturnedIsUnlisted` | concurrency-project-FreezeKickerz/channel.c:386-394 | a thread outside channel_select is on no selector list |
| `SelectProofs.NoPostAfterReturn` | concurrency-project-FreezeKickerz/channel.c:45-51 | no pending post names a thread whose select has returned, so the local semaphore it names still exists |
| `ChannelEnds.StepDescends` | concurrency-project-FreezeKickerz/channel.c:168-499 | every step but a new call or a spurious wakeup lowers a measure of notices to give, posts and semaphore units, and work of each thread |
| `ChannelEnds.EveryRunGetsStuck` | concurrency-project-FreezeKickerz/channel.c:168-499 | every run can be continued, without new calls and spurious wakeups, to a stuck state as described above |
| `Rendezvous.StartInv` | concurrency-project-FreezeKickerz/channel.c:12-41 | a fresh unbuffered channel satisfies the rendezvous invariant |
| `Rendezvous.MeetInv` | concurrency-project-FreezeKickerz/channel.c:136-147 | the complementary operation keeps it: exactly one sleeping initiator is woken, the value moves, the two calls become partners |
| `Rendezvous.WaitInv` | concurrency-project-FreezeKickerz/channel.c:99-135 | becoming the initiator, or waiting in stage 1 or 2, keeps it |
| `Rendezvous.OnlyInitiatorWakes` | concurrency-project-FreezeKickerz/channel.c:144-144 | the signal wakes the initiator, if it sleeps, and nobody else |
| `Rendezvous.FinishInv` | concurrency-project-FreezeKickerz/channel.c:114-121 | the initiator's return keeps it: stage 0, and nobody is left asleep |
| `Rendezvous.SpuriousInv` | concurrency-project-FreezeKickerz/channel.c:112-151 | so does a spurious wakeup from either condition variable |
| `Rendezvous.NextCounts` | concurrency-project-FreezeKickerz/channel.c:124-157 | waiting_senders and waiting_receivers count the threads between the two updates around their wait |
| `Rendezvous.NextExtends` | concurrency-project-FreezeKickerz/channel.c:96-160 | no step undoes a pairing or a return |
| `Rendezvous.RunInv` | concurrency-project-FreezeKickerz/channel.c:96-160 | in every run on an open unbuffered channel, spurious wakeups included, each returned call met exactly one call of the other direction, which met it alone, and both end with the sender's value; or it is recorded as having met nobody |
| `Rendezvous.FinishPairedIff` | concurrency-project-FreezeKickerz/channel.c:112-118 | the initiator's call returns with a partner if and only if the channel has reached stage 2 by then |
| `Rendezvous.RunUnpairedIff` | concurrency-project-FreezeKickerz/channel.c:112-118 | in any run some call has returned SUCCESS without a partner if and only if an initiator has finished in stage 1 |
| `Rendezvous.RunPairs` | concurrency-project-FreezeKickerz/channel.c:96-160 | when no spurious wakeup hits an initiator, every returned call of the run met exactly one call |
| `Rendezvous.SpuriousInitiatorMeetsNobody` | concurrency-project-FreezeKickerz/channel.c:112-118 | from any fresh channel, one call and one spurious wakeup give a call that returns SUCCESS having met nobody |
| `Rendezvous.SpuriousInitiatorMayStillMeet` | concurrency-project-FreezeKickerz/channel.c:136-147 | a complementary call may still meet a spuriously woken initiator before that returns |
| `Rendezvous.StuckOnOneSide` | concurrency-project-FreezeKickerz/channel.c:96-160 | when no thread in a call can move, all that remain have one direction: a sender and a receiver are never both stuck |
| `Rendezvous.StepDescends` | concurrency-project-FreezeKickerz/channel.c:96-160 | without new calls and spurious wakeups a run is finite, so the calls at hand do reach such a state |
| `LinkedList.InsertsAtTheEnds` | simulatorlab-FreezeKickerz/linked_list.c:131-160 | without a comparison elements go to the head; with one that is always less, to the tail |
| `LinkedList.List.Find` | simulatorlab-FreezeKickerz/linked_list.c:94-109 | the first node with the data, or null exactly when there is none |
| `LinkedList.List.FindPlace` | simulatorlab-FreezeKickerz/linked_list.c:143-146 | the first node whose data is not below the new data |
| `LinkedList.List.Insert` | simulatorlab-FreezeKickerz/linked_list.c:113-168 | relinks so that both directions run along the list with the new element in its place |
| `LinkedList.List.Remove` | simulatorlab-FreezeKickerz/linked_list.c:171-200 | relinks so that exactly that node is gone; null is ignored |
| `EventQueue.CompareOrders` | simulatorlab-FreezeKickerz/simulator.c:6-29 | comparing by time, then type, then id is a strict total order |
| `EventQueue.InsertHolds` | simulatorlab-FreezeKickerz/simulator.c:65-83 | scheduling adds exactly the new event to a queue that stays strictly sorted with distinct ids |
| `EventQueue.WithoutHolds` | simulatorlab-FreezeKickerz/simulator.c:88-92 | removing by reference takes exactly that event |
| `EventQueue.HeadFirst` | simulatorlab-FreezeKickerz/simulator.c:98-99 | the head of the queue comes before every other event |
| `Simulator.Simulator.Schedule` | simulatorlab-FreezeKickerz/simulator.c:65-83 | the event goes to its sorted place, with a fresh id as its reference |
| `Simulator.Simulator.RemoveEvent` | simulatorlab-FreezeKickerz/simulator.c:88-92 | the referenced event goes, and nothing else |
| `Trace.Trace.ScheduleNextCompletion` | simulatorlab-FreezeKickerz/scheduler.c:75-87 | refused when a completion is pending; otherwise that completion is pending |
| `Trace.Trace.CancelNextCompletion` | simulatorlab-FreezeKickerz/scheduler.c:91-100 | afterwards no completion is pending; true exactly when one was |
| `Trace.Trace.FcfsScheduleJob` | simulatorlab-FreezeKickerz/schedulerFCFS.c:46-58 | FCFS arrival, against the step function |
| `Trace.Trace.FcfsCompleteJob` | simulatorlab-FreezeKickerz/schedulerFCFS.c:65-88 | FCFS completion, against the step function |
| `Trace.Trace.LcfsScheduleJob` | simulatorlab-FreezeKickerz/schedulerLCFS.c:54-67 | LCFS arrival, against the step function |
| `Trace.Trace.LcfsCompleteJob` | simulatorlab-FreezeKickerz/schedulerLCFS.c:74-99 | LCFS completion, against the step function |
| `Trace.Trace.SjfScheduleJob` | simulatorlab-FreezeKickerz/schedulerSJF.c:45-55 | SJF arrival, against the step function |
| `Trace.Trace.ShortestJob` | simulatorlab-FreezeKickerz/schedulerSJF.c:70-83 | the scan loop computes the specified minimum |
| `Trace.Trace.SjfCompleteJob` | simulatorlab-FreezeKickerz/schedulerSJF.c:62-94 | SJF completion, against the step function |
| `Trace.Trace.ScheduleNext` | simulatorlab-FreezeKickerz/schedulerMLFQ.c:24-42 | schedule_next, against the step function |
| `Trace.Trace.MlfqScheduleJob` | simulatorlab-FreezeKickerz/schedulerMLFQ.c:76-110 | MLFQ arrival with preemption, the partial-slice branch included, against the step function |
| `Trace.Trace.MlfqCompleteJob` | simulatorlab-FreezeKickerz/schedulerMLFQ.c:113-134 | MLFQ timer event, against the step function |
| `Trace.Trace.ScheduleNextArrival` | simulatorlab-FreezeKickerz/trace.c:62-75 | at most one arrival is pending: the next line's, if there is one |
| `Trace.Trace.ArrivalCallback` | simulatorlab-FreezeKickerz/trace.c:79-84 | an arrival event does what the step function says while its own event is still queued |
| `Trace.Trace.CompletionCallback` | simulatorlab-FreezeKickerz/scheduler.c:62-71 | a completion event likewise, with the output line for a finished job |
| `Trace.Trace.HeadIsNext` | simulatorlab-FreezeKickerz/simulator.c:97-99 | the queue's head is the completion or the arrival that is next: completions first at equal times; the queue is empty exactly when the run is over |
| `Trace.Trace.Turn` | simulatorlab-FreezeKickerz/simulator.c:97-104 | one pass of the loop is one step of the abstract run |
| `Trace.Trace.SimulatorRun` | simulatorlab-FreezeKickerz/simulator.c:95-105 | the loop terminates, its queue holds exactly the pending events in strict order throughout, and it ends where the abstract run ends |
| `Trace.TraceRun` | simulatorlab-FreezeKickerz/trace.c:16-58 | the whole program: output and final time are those of the abstract run, with the properties below |
| `SchedulingProofs.FcfsCompletes` | simulatorlab-FreezeKickerz/schedulerFCFS.c:65-88 | an FCFS completion serves the running job to its end and starts the next at once |
| `SchedulingProofs.LcfsCompletes` | simulatorlab-FreezeKickerz/schedulerLCFS.c:74-99 | an LCFS completion likewise |
| `SchedulingProofs.SjfCompletes` | simulatorlab-FreezeKickerz/schedulerSJF.c:62-94 | an SJF completion likewise |
| `SchedulingProofs.BestIsLeast` | simulatorlab-FreezeKickerz/schedulerSJF.c:70-83 | the scan returns a job no other is below in (size, id), and none exactly when every job ties with its starting values |
| `MlfqProofs.DispatchDispatches` | simulatorlab-FreezeKickerz/schedulerMLFQ.c:24-42 | schedule_next runs the head of the best non-empty level for at most one unit, and nothing exactly when nothing waits |
| `MlfqProofs.PreemptionSeesNoProgress` | simulatorlab-FreezeKickerz/schedulerMLFQ.c:91-101 | whoever arrives while a task runs arrives at the very time its slice began: the partial-slice branch never executes |
| `MlfqProofs.PreemptedGoesLast` | simulatorlab-FreezeKickerz/schedulerMLFQ.c:102-107 | a preempted task is put behind every task of its level and a level-0 task runs |
| `LevelOrder.KeepsEntryOrderIff` | simulatorlab-FreezeKickerz/schedulerMLFQ.c:76-134 | in every reachable state whose levels are in order of entry, an event keeps the order if and only if it is not an arrival while a task runs below level 0 with others waiting on its level |
| `LevelOrder.OrderedRunIff` | simulatorlab-FreezeKickerz/schedulerMLFQ.c:76-134 | a run serves every level in order of entry up to its n-th event if and only if none of those events is such an arrival |
| `LevelOrder.ThirdArrivalOvertakes` | simulatorlab-FreezeKickerz/schedulerMLFQ.c:91-107 | jobs of sizes 3 and 3 at time 0 and 1 at time 2 reach such an arrival, which puts the first job behind the second |
| `MlfqProofs.MlfqArrives` | simulatorlab-FreezeKickerz/schedulerMLFQ.c:76-110 | an MLFQ arrival adds the job, takes no service from anyone and loses none |
| `MlfqProofs.MlfqCompletes` | simulatorlab-FreezeKickerz/schedulerMLFQ.c:113-134 | an MLFQ completion gives the running job one unit, or its end |
| `SimulatedRuns.InitialInv` | simulatorlab-FreezeKickerz/trace.c:43-51 | the state before the first event satisfies the run invariant |
| `SimulatedRuns.ScanSeesAll` | simulatorlab-FreezeKickerz/schedulerSJF.c:71-72 | when the final time fits in 64 bits, no waiting job ties with the scan's starting values |
| `SimulatedRuns.ArrivalHorizon` | simulatorlab-FreezeKickerz/simulator.c:95-105 | an arrival moves the time at which all arrived work ends from H to max(H, arrival) + size, for every policy |
| `SimulatedRuns.CompletionHorizon` | simulatorlab-FreezeKickerz/simulator.c:95-105 | a completion leaves that time alone |
| `SimulatedRuns.StepKeeps` | simulatorlab-FreezeKickerz/simulator.c:97-104 | every event keeps the run invariant, for every policy |
| `SimulatedRuns.StepAdvances` | simulatorlab-FreezeKickerz/simulator.c:97-104 | every event lowers the measure, and the clock never goes back |
| `SimulatedRuns.RunEndsWithin` | simulatorlab-FreezeKickerz/simulator.c:95-105 | a run takes at most the measure's number of events: 1 + max(1, size) for each job |
| `SimulatedRuns.FinalTimeIsPolicyIndependent` | simulatorlab-FreezeKickerz/simulator.c:95-105 | the clock ends at the fold c := max(c, arrival) + size from 0, whatever the policy |
| `SimulatedRuns.EveryJobOnce` | simulatorlab-FreezeKickerz/trace.c:88-93 | every job is written exactly once, no earlier than arrival + size, in order of time |
| `SimulatedRuns.TimesFit` | simulatorlab-FreezeKickerz/simulator.c:65-83 | no time in the run exceeds 64 bits if the final time does not |
| `SimulatedRuns.MlfqAlways` | simulatorlab-FreezeKickerz/schedulerMLFQ.c:24-134 | between any two events: a job runs exactly when a completion is pending, the running level is at most every waiting job's, each level is min(9, service so far) |
| `PolicyRuns.FcfsClosedForm` | simulatorlab-FreezeKickerz/schedulerFCFS.c:46-88 | FCFS writes the jobs in order of arrival with C_i = max(a_i, C_(i-1)) + s_i, zero sizes and equal times included |
| `PolicyRuns.LcfsStartsNewest` | simulatorlab-FreezeKickerz/schedulerLCFS.c:54-99 | whenever LCFS starts a job, at a completion or at an arrival, no job in the system arrived after it |
| `PolicyRuns.SjfStartsShortest` | simulatorlab-FreezeKickerz/schedulerSJF.c:45-94 | whenever SJF starts a job, at a completion or at an arrival and with or without arrivals to come, every job in the system is larger, or as large with an id not below |
| `PolicyRuns.MoveToFront` | simulatorlab-FreezeKickerz/schedulerSJF.c:66-93 | the exchange step: moving a job no longer than the others to the front does not raise the sum of completion times |
| `PolicyRuns.ScanOrderPermutes` | simulatorlab-FreezeKickerz/schedulerSJF.c:66-93 | the repeated scan serves every waiting job once |
| `PolicyRuns.ScanOrderIsOptimal` | simulatorlab-FreezeKickerz/schedulerSJF.c:66-93 | no permutation of the waiting jobs has a smaller sum of completion times than the repeated scan |
| `PolicyRuns.DrainFollowsScan` | simulatorlab-FreezeKickerz/schedulerSJF.c:62-94 | with no arrivals left the run writes exactly the scan order |
| `PolicyRuns.SjfIsOptimal` | simulatorlab-FreezeKickerz/schedulerSJF.c:62-94 | so the completion times of the run itself are optimal in sum |

## Left out

- mm.c: debug printing, `mm_checkheap`, `calloc` and `memset`; `size_t` wrap-around on huge requests (request sizes are unbounded numbers).
- Heap addresses are word indices; alignment is proved for any 16-byte aligned region (`PayloadsAlignedInsideApart`).
- HeapRuns.RunKeepsSafe: is about nonzero requests of at least 41 bytes; for every smaller size it is false, as the lemmas of SmallRequests show, and the per-call contracts give the exact condition.
- Allocator.Heap.MemCpy: is for word-aligned, disjoint areas, which is how realloc calls it; unaligned or overlapping copies are not modelled.
- memlib.c: `mmap`, `munmap`, probes and error printing.
- SplayTree.Tree.LeftRotate: is for a node with a right child; without one the code detaches the node, and splay never calls it so.
- SplayTree.Tree.RightRotate: is for a node with a left child, for the same reason.
- stree.c: `tree_show`, `tree_free` and `subtree_maximum`; keys are bounded integers and records are values.
- mdriver.c: all of it (the range list beside the tree does not agree with it when there is no predecessor).
- stress.c: thread creation, the convergence probes (`check_done`, lines 194 to 199), printing and the recycling of buffers by pointer; messages are snapshots, and select picks any enabled operation. The matrix is two-dimensional instead of a flat array.
- channel.c: unbuffered close, unbuffered non-blocking operations, select over unbuffered channels, `channel_destroy`, allocation and locking failures, and an interrupted `sem_wait`.
- In the channel state machines the buffer is a sequence and the selector lists are sequences of threads; the ring buffer and the linked list themselves are proved in `RingBuffer` and `LinkedList`.
- A receive that was already waiting may still succeed after close, since the loop tries the buffer first; nothing is claimed to the contrary.
- Simulator: file reading and writing, the final sort by `sort`, list and scheduler destruction, allocation failure. Function pointers are a case distinction over the policies, and the event queue of `Simulator` is a sequence whose insertion is specified by `LinkedList.Inserted`.
- Simulator jobs are named by their position in the trace, which stands for the job pointer.
- Mini-shell, homework-1, timing code, grading scripts and the trace files.
