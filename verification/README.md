# Verified models of faultloggerd

Faultloggerd is a crash-log daemon with the libraries that crashing processes link. This project models
six of its stateful components in Dafny and proves what they keep over every run.

- **Signal-safe allocator** (`AllocatorLayout`, `AllocatorModel`, `AllocatorInvariant`, `AllocatorChunks`,
  `AllocatorSteps`, `Allocator`, `AllocatorClient`). Memory is a map from addresses to 8-byte words. Page
  headers, free lists inside free blocks and doubly linked page lists are read and written as words; ghost
  state says which regions they stand for. `AllocatorClient.Execute` shows that any run of malloc, free,
  realloc and client writes behaves like an ideal heap that hands out private zeroed arrays, and that memory
  which is not the allocator's stays as it is.
- **Unique stack table** (`StackTableModel`, `StackTablePuts`, `StackTableRuns`, `StackTable`). Puts are a
  state machine with one compare-and-swap per step, so runs interleave any number of them with resizes.
  The class gives the undisturbed loops over an array.
- **Timer scheduler and coredump sessions** (`TimerModel`, `PeriodicModel`, `PeriodicTurns`,
  `PeriodicAccount`, `CoredumpModel`, `LoopModel`, `EventLoop`, `LoopCases`). One `Daemon` object holds the
  delay queue with its timer, the periodic queue on top of it and the session table whose removal timers sit
  in the queue. Callbacks are scripts of calls to the two queues and run while the queues are being worked
  on. The methods on the periodic queue are proved equal to functions on values (`ScriptP`, `TurnP`, `ExecP`,
  `WorksP`), about which the account of all periodic tasks is proved. Ghost ledgers record what was added and
  when, ran, was called and was removed, and a trace records what was asked and done for each session.
- **Async context pool** (`ContextPoolModel`, `ContextPool`, `ContextPoolRuns`). The free list threaded
  through an array, validity flags, per-thread stacks, and the chains of submitter stacks.
- **Kernel snapshot splitter** (`SnapshotTrie`, `SnapshotParser`). The keyword trie against a scan of all
  keys, and the section-cutting loops against the list of heading lines.

`Common` holds two helpers that the models share.

## What the code does not promise after all

Some expected properties fail. The code is modelled as it is; the exact condition is proved, and an input
or a run that fails is given.

- A newly acquired async context carries its own entry and the thread's current chain exactly unless the
  thread's top is a stale pointer to the very context being issued (and there is something to copy); then
  its own entry is repeated. `ContextPoolModel.ChainInherited`; a run that gets there, with the least pool
  that goes with its layer limit, is `ContextPoolRuns.StaleTop`.
- The 30-second cap on a session's removal timer holds exactly while the remaining seconds, cast to 32 bits,
  are not negative. `CoredumpModel.RemovalDelayCapped`, with an input in `CoredumpModel.RemovalDelayUncapped`.
- Delay task ids tell tasks apart exactly unless two tasks of one microsecond were added a multiple of 16
  apart. `TimerModel.IdsCollide`; in the run `LoopCases.Collision` ending a session takes out another
  component's task and leaves the session's timer. Claims that rest on distinct ids are stated for runs in
  which tasks pending for one microsecond were always issued within 16 consecutive ids (`crowded` is false).
- Every periodic task stays queued until it is removed or answers false exactly while no callback removes the
  task it is called for. After such a callback Execute pops the next task uncalled; when the callback answered
  true, or no task is left, it uses a list entry that is gone, which is undefined.
  `PeriodicAccount.NoneDiscarded`; in the run `LoopCases.Discarded` a due task disappears uncalled.
- A refused external buffer leaves the stack table alone exactly when a table has been put aside already;
  otherwise the table is lost. `StackTable.UniqueStackTable.InitWithExternalBuffer`, with eight bytes in
  `StackTable.BufferRefused`.
- A resized stack table stays within 25-bit indices exactly while the old table is below 0x4000004 bytes.
  `StackTableRuns.ResizeFitsIndex`, with the size itself in `StackTableRuns.ResizeOverflows`.
- Switching the stack table to an external buffer and back restores it exactly while it was never resized;
  otherwise the number of tries starts over and later Puts probe other slots.
  `StackTableRuns.RestoredExactly`, `StackTableRuns.RestoredProbesElsewhere`, with a one-megabyte table in
  `StackTableRuns.RestoredDiffers`. Stacks stored before still decode: `StackTable.SwitchAndBack`.
- A snapshot unit stops at its first transaction end exactly unless that is its first heading.
  `SnapshotParser.StopsAtFirstEnd`, with two lines in `SnapshotParser.EndComesFirst`.
- The client of a coredump is always told code 0 for a reported result: the report's return code selects
  the event and never reaches the session. `EventLoop.Daemon.HandleReport`.

## Modelling decisions

- The allocator is the LP64 build: a page header has 48 bytes, a block head 16. `mmap` gives the zeroed,
  page-aligned region at an address chosen by the environment (parameter `os`), or fails when that place is
  unusable. Other memory may be mapped from the start. Frees and reallocs are of null, live pointers and
  mapped addresses whose page does not begin with the allocator's tag, in foreign memory or in a direct mapping.
- The stack table takes pcs below 2^39 (`FitsPc`); `DecodedFits` shows that wider ones cannot be read back.
- The event loop reads one monotonic clock once per operation, below 2^59 microseconds. Timer file
  descriptors and listener registration work. Components remove only their own delay tasks, and a delay
  callback whose own task is taken out while it runs is taken to run to its end. Where the code
  uses an entry of the periodic queue that is gone, the model sets `undefined` and leaves the queue as it is;
  what is proved of later states is then not about the code.
- The async context pool is driven under its lock, one operation at a time. The layer limit is a parameter
  of the calls that read it. Context pointers are indices; an index past the end is an address outside the pool.

## Model

| member | source | states |
|---|---|---|
| AllocatorLayout.PoolGeometry | frameworks/allocator/dfx_allocator.c:121-148 | For every pool the blocks start after the header, tile the page to its very end and are multiples of 16 |
| AllocatorLayout.BlockBounds | frameworks/allocator/dfx_allocator.c:53-70 | Every block of a page lies after the header and inside the page, is aligned to 16 and to its own size, and both page computations of the source lead back to its page |
| AllocatorLayout.DirectTests | frameworks/allocator/dfx_allocator.c:280-289 | The two overflow tests in wrapping arithmetic pass exactly when header, payload and rounding fit 64 bits, and then give whole pages |
| AllocatorLayout.CapacityIsLeast | frameworks/allocator/dfx_allocator.c:314-332 | The chunk given for a request of at most 1024 bytes is the least of 16, 32 and so on up to 1024 that holds it; for a larger one whole pages less the 48-byte header, large enough and less than a page too large |
| AllocatorLayout.ExponentPool | frameworks/allocator/dfx_allocator.c:326-330 | The clamped exponent names the pool with the smallest sufficient blocks |
| Allocator.SelectMempoolType | frameworks/allocator/dfx_allocator.c:235-247 | The shift loop finds the least power of two that holds the size |
| Allocator.DfxAllocator.AddPage | frameworks/allocator/dfx_allocator.c:72-83 | The linked list in memory becomes the page followed by the old list; only link words change |
| Allocator.DfxAllocator.RemovePage | frameworks/allocator/dfx_allocator.c:85-101 | The linked list in memory loses exactly that page, wherever it stands; only link words change |
| Allocator.DfxAllocator.InitDfxAllocator | frameworks/allocator/dfx_allocator.c:249-260 | The invariant holds with seven empty pools |
| Allocator.DfxAllocator.MempoolAllocPage | frameworks/allocator/dfx_allocator.c:121-148 | A fresh page becomes one untouched run at the head of the list, no chunk changes; when the kernel refuses nothing changes |
| Allocator.DfxAllocator.MempoolFreePage | frameworks/allocator/dfx_allocator.c:150-159 | An entirely free page leaves list and memory, and no live chunk changes |
| Allocator.DfxAllocator.UnlinkBlock | frameworks/allocator/dfx_allocator.c:175-187 | The head of the free list is handed out and the list starts at the rest of the run or at the next freed block |
| Allocator.DfxAllocator.PopBlock | frameworks/allocator/dfx_allocator.c:175-203 | The block handed out is the first free one, its count is taken off and its bytes are cleared |
| Allocator.DfxAllocator.AllocFrom | frameworks/allocator/dfx_allocator.c:190-203 | Keeps the whole invariant: a page that became full leaves its list |
| Allocator.DfxAllocator.MempoolAlloc | frameworks/allocator/dfx_allocator.c:161-204 | Fails exactly when no listed page has room and the kernel refuses one; otherwise a new zeroed chunk and every other chunk untouched |
| Allocator.DfxAllocator.PushBlock | frameworks/allocator/dfx_allocator.c:215-222 | The freed block is cleared and becomes the head of the page's list |
| Allocator.DfxAllocator.MempoolFree | frameworks/allocator/dfx_allocator.c:206-233 | The chunk is gone, all others are untouched, and the page is unmapped exactly when this was its last live block |
| Allocator.DfxAllocator.AllocMmap | frameworks/allocator/dfx_allocator.c:278-312 | Fails exactly on overflow or kernel refusal; otherwise a new zeroed chunk with its own mapping |
| Allocator.DfxAllocator.DfxAlloc | frameworks/allocator/dfx_allocator.c:314-341 | Above 1024 bytes it answers 0 exactly when 48 + size + 4095 reaches 2^64 or the kernel refuses those whole pages; up to 1024 bytes (0 counts as 1) exactly when no page of the pool with the smallest sufficient blocks has a free block and the kernel refuses a page. Otherwise a zero-filled chunk of the least capacity, and no other chunk gained, lost, resized or written |
| Allocator.DfxAllocator.GetPage | frameworks/allocator/dfx_allocator.c:262-276 | From any live pointer the signed header of its region is found; an untagged address gives null |
| Allocator.DfxAllocator.GetChunkSize | frameworks/allocator/dfx_allocator.c:343-359 | The usable size of a live chunk; 0 for null and for an untagged address |
| Allocator.DfxAllocator.DfxFree | frameworks/allocator/dfx_allocator.c:361-381 | The chunk is gone and every other chunk untouched; its region stays exactly while it is a pool page with another live block; null and untagged addresses change nothing |
| Allocator.DfxAllocator.FreeDirect | frameworks/allocator/dfx_allocator.c:374-376 | A direct mapping leaves list and memory |
| Allocator.DfxAllocator.DfxRealloc | frameworks/allocator/dfx_allocator.c:383-409 | Moves exactly when the chunk is too small and a larger one is to be had; then the old bytes are kept, the rest is zero and no other chunk changes; for null it allocates or is refused exactly as malloc, for an untagged address it returns null |
| AllocatorSteps.TakeStep | frameworks/allocator/dfx_allocator.c:175-203 | The writes of handing out a block keep the invariant of all regions and lists and touch no other chunk and no foreign word |
| AllocatorSteps.GiveStep | frameworks/allocator/dfx_allocator.c:206-222 | The writes of taking back a block keep the invariant of all regions and lists, end that chunk and touch no other and no foreign word |
| AllocatorSteps.PushStep | frameworks/allocator/dfx_allocator.c:72-83 | Linking a page keeps the invariant and all chunks |
| AllocatorSteps.UnlinkStep | frameworks/allocator/dfx_allocator.c:85-101 | Unlinking a page keeps the invariant and all chunks |
| AllocatorSteps.ClientWrite | frameworks/allocator/dfx_allocator.c:121-233 | Whatever a client writes into its own chunk keeps the invariant, all other chunks and all foreign words |
| AllocatorSteps.MoveSteps | frameworks/allocator/dfx_allocator.c:398-408 | Allocate, copy and free compose to one move of the chunk |
| AllocatorSteps.PlaceableIs | frameworks/allocator/dfx_allocator.c:121-126 | A region can be mapped exactly at a positive page-aligned place below 2^64 where nothing is mapped |
| AllocatorSteps.LargeRefused | frameworks/allocator/dfx_allocator.c:278-324 | A request above 1024 bytes is refused exactly on overflow of 64 bits or refusal by the kernel |
| AllocatorSteps.SmallRefused | frameworks/allocator/dfx_allocator.c:161-204 | A request of at most 1024 bytes is refused exactly when every page of the pool with the smallest sufficient blocks is full and the kernel refuses a page |
| AllocatorSteps.TakeBalance | frameworks/allocator/dfx_allocator.c:190-202 | After an allocation the lists again hold exactly the pages they should |
| AllocatorSteps.GiveBalance | frameworks/allocator/dfx_allocator.c:223-232 | After a free that leaves live blocks the lists again hold exactly the pages they should |
| AllocatorSteps.ShrinkBalance | frameworks/allocator/dfx_allocator.c:150-159 | After a page is unmapped the lists and the free-page counters are right again |
| AllocatorChunks.LiveChunksDisjoint | frameworks/allocator/dfx_allocator.c:121-233 | In every state of the invariant two live chunks never overlap |
| AllocatorChunks.LiveChunkPlaced | frameworks/allocator/dfx_allocator.c:278-332 | A live chunk is 16-byte aligned, mapped, and meets no page header |
| AllocatorChunks.LiveChunkMissesFreeList | frameworks/allocator/dfx_allocator.c:175-203 | A live chunk meets no freed block and no untouched run of any page |
| AllocatorChunks.FreeListInMemory | frameworks/allocator/dfx_allocator.c:139-222 | The free list read from memory is finite and repeats no node; it is the freed blocks, each counting 1, then at most one run with its length, which ends at the page end; the counts sum to the page's counter, which with the live blocks makes up the page |
| AllocatorChunks.PoolListExact | frameworks/allocator/dfx_allocator.c:72-159 | A pool's page list read from memory holds exactly its pages that are neither full nor free, the free-page counter is 0 and every mapped page has a live block |
| AllocatorChunks.ChunksAfterMap | frameworks/allocator/dfx_allocator.c:121-148 | A new region changes no chunk and no foreign word |
| AllocatorChunks.ChunksAfterUnmap | frameworks/allocator/dfx_allocator.c:150-159 | A region that goes takes only its own chunk along and no foreign word |
| AllocatorClient.Perform | frameworks/allocator/dfx_allocator.c:314-409 | One client step on the real memory has the effect the ideal heap prescribes and none outside the allocator's regions; what is asked for is given unless refused, with the size asked for |
| AllocatorClient.HeapLaws | frameworks/allocator/dfx_allocator.c:314-409 | What the ideal heap is, law by law: malloc adds a zeroed array large enough, free takes it out, a realloc that moves keeps all words, zeroes the rest and frees the old place, one that stays changes nothing, a write changes one word, and nothing else changes |
| AllocatorClient.Execute | frameworks/allocator/dfx_allocator.c:314-409 | After any run, whatever the kernel answers, the chunks held are aligned, disjoint and hold word for word what the ideal heap says, every step was answered with 0 exactly when refused, and all memory that is not the allocator's is as before |
| StackTableModel.PackInjective | interfaces/innerkits/async_stack/include/unique_stack_table.h:46-58 | The 64-bit value compared by the compare-and-swap determines pc and index, and is 0 only for the empty slot |
| StackTableModel.TriesFit | interfaces/innerkits/async_stack/unique_stack_table.cpp:176-190 | The number of tries never outgrows the 8-bit counter, however often the table grows |
| StackTableModel.NextInRegion | interfaces/innerkits/async_stack/unique_stack_table.cpp:202-210 | Despite the uneven steps no probe leaves the current region |
| StackTableModel.NextMoves | interfaces/innerkits/async_stack/unique_stack_table.cpp:202-210 | Each try looks at another slot than the one before, in regions of at least four slots |
| StackTableModel.DecodeStack | interfaces/innerkits/async_stack/unique_stack_table.cpp:275-302 | Decoding an id follows its links to exactly the stack they spell |
| StackTablePuts.SettledStackUnique | interfaces/innerkits/async_stack/unique_stack_table.cpp:176-240 | A stack has at most one id between resizes |
| StackTablePuts.FillKeepsTable | interfaces/innerkits/async_stack/unique_stack_table.cpp:190-201 | A compare-and-swap that fills a slot keeps the invariant of the table for all nodes |
| StackTablePuts.FillSettles | interfaces/innerkits/async_stack/unique_stack_table.cpp:190-201 | Filling the first empty slot that the tries reach settles the node there and keeps the table sound, and exact (every node of the region where its tries find it) when it was |
| StackTablePuts.StepKeepsPut | interfaces/innerkits/async_stack/unique_stack_table.cpp:176-240 | Every step of a Put keeps what it has stored so far and where it has looked; it ends with 0 only when its stack has no pc but 0 or a node all of whose tries found other nodes |
| StackTablePuts.OtherKeepsPut | interfaces/innerkits/async_stack/unique_stack_table.cpp:190-201 | A Put's view survives the slots that others fill meanwhile |
| StackTableRuns.InitInv | interfaces/innerkits/async_stack/unique_stack_table.cpp:34-67 | A table set up by Init satisfies the invariant |
| StackTableRuns.InitSucceeds | interfaces/innerkits/async_stack/unique_stack_table.cpp:34-67 | Init succeeds exactly when the mapping works and the size is from 16 bytes to below 0x10000010, with an empty table of 22 tries from slot 1 |
| StackTableRuns.ResizeFitsIndex | interfaces/innerkits/async_stack/unique_stack_table.cpp:138-160 | A resized table fits 25-bit indices exactly while the old one has fewer than 0x4000004 bytes; always when its size is a multiple of 16 |
| StackTableRuns.ResizeOverflows | interfaces/innerkits/async_stack/unique_stack_table.cpp:138-160 | A table of 0x4000004 bytes passes the test and is resized to 0x2000002 nodes |
| StackTableRuns.ResizeInv | interfaces/innerkits/async_stack/unique_stack_table.cpp:125-174 | Resizing a table below 0x4000004 bytes keeps it sound and every old slot and opens an empty region; a resize that succeeds makes the table exact again |
| StackTableRuns.ResizeSucceeds | interfaces/innerkits/async_stack/unique_stack_table.cpp:125-174 | A resize succeeds exactly when the mapping works and four times the nodes are at most 2^25; the table is then four times as large, with three more tries, and starts behind the old nodes |
| StackTableRuns.RunKeeps | interfaces/innerkits/async_stack/unique_stack_table.cpp:125-240 | Over every interleaving of Puts and resizes nothing filled is overwritten, no finished Put changes, and each Put keeps its stack |
| StackTableRuns.DecodeForever | interfaces/innerkits/async_stack/unique_stack_table.cpp:275-302 | An id keeps decoding to its stack, zero pcs removed, after any further interleaving of Puts and resizes |
| StackTableRuns.RunsDecode | interfaces/innerkits/async_stack/unique_stack_table.cpp:214-302 | In every reachable state every returned id decodes to exactly its stack |
| StackTableRuns.RunsNeverDuplicate | interfaces/innerkits/async_stack/unique_stack_table.cpp:176-212 | In every reachable state no two slots filled since the last resize hold the same node |
| StackTableRuns.RunsIdentify | interfaces/innerkits/async_stack/unique_stack_table.cpp:176-240 | Equal ids mean equal stacks; Puts of equal stacks that end between the same resizes have the same answer, 0 included |
| StackTableRuns.RunsRefuse | interfaces/innerkits/async_stack/unique_stack_table.cpp:176-240 | In every reachable state, of a Put that ended with 0 since the last resize though it has a pc other than 0: its callers up to some such pc are stored, and that pc's node finds every one of its slots taken by another node |
| StackTableRuns.NonZeroIs | interfaces/innerkits/async_stack/unique_stack_table.cpp:224-230 | What the table keeps of a stack is exactly its pcs other than 0, and the stack itself when none is 0 |
| StackTableRuns.NonZeroAppend | interfaces/innerkits/async_stack/unique_stack_table.cpp:224-230 | They are kept in order |
| StackTableRuns.RePutWritesNothing | interfaces/innerkits/async_stack/unique_stack_table.cpp:176-240 | Putting a stack stored since the last resize writes nothing and cannot run out of tries |
| StackTableRuns.PutProgress | interfaces/innerkits/async_stack/unique_stack_table.cpp:176-240 | Each own step of a Put brings it closer to its end, whatever the others do |
| StackTableRuns.AlwaysEnabled | interfaces/innerkits/async_stack/unique_stack_table.cpp:176-240 | In every sound state a Put can take its next step, a new one can begin, and the table can be resized while no Put is under way |
| StackTableRuns.LinksEnd | interfaces/innerkits/async_stack/unique_stack_table.cpp:176-240 | Link chains are finite: each slot was filled after the slot it links to |
| StackTableRuns.DecodedFits | interfaces/innerkits/async_stack/include/unique_stack_table.h:46-58 | What is decoded always fits 39 bits |
| StackTableRuns.ExternalInv | interfaces/innerkits/async_stack/unique_stack_table.cpp:85-123 | A zeroed external buffer of any accepted size satisfies the invariant, with the tries computed from its size |
| StackTableRuns.ExternalTriesIs | interfaces/innerkits/async_stack/unique_stack_table.cpp:85-123 | An external buffer of up to a megabyte has 22 tries, a larger one as many more as the logarithm of the cube of its megabytes |
| StackTableRuns.RestoredExactly | interfaces/innerkits/async_stack/unique_stack_table.cpp:69-81 | Switching back restores the geometry exactly when the table was never resized |
| StackTableRuns.RestoredSound | interfaces/innerkits/async_stack/unique_stack_table.cpp:69-81 | A table that is switched back, also a resized one, keeps its probes in the region and its nodes decodable |
| StackTableRuns.RestoredDecodes | interfaces/innerkits/async_stack/unique_stack_table.cpp:69-81 | Every id of a table that is switched back decodes as before |
| StackTableRuns.RestoredDiffers | interfaces/innerkits/async_stack/unique_stack_table.cpp:69-81 | A one-megabyte table resized once comes back with 22 tries instead of 25, and its second probe of a node is slot 292984 instead of 316114 |
| StackTableRuns.RestoredProbesElsewhere | interfaces/innerkits/async_stack/unique_stack_table.cpp:69-81 | For a resized table the second probe of every node is another slot than before, exactly when the table is large enough for a step |
| StackTable.UniqueStackTable.Init | interfaces/innerkits/async_stack/unique_stack_table.cpp:34-67 | Sets up the specified empty table or refuses exactly when it would be empty, too large or unmappable |
| StackTable.UniqueStackTable.Resize | interfaces/innerkits/async_stack/unique_stack_table.cpp:125-174 | The specified larger table that starts with the old one, or no change |
| StackTable.UniqueStackTable.SwitchExternalBuffer | interfaces/innerkits/async_stack/unique_stack_table.cpp:69-83 | Puts the table aside for a buffer, or takes it back sound with the number of tries reset, exact when it was never resized; a second switch in and a switch back without a switch in change nothing; a buffer of a refused size loses the table |
| StackTable.UniqueStackTable.InitWithExternalBuffer | interfaces/innerkits/async_stack/unique_stack_table.cpp:85-123 | Taken exactly when no table is put aside and the size is accepted: then the buffer is a sound table, exact when zeroed, and the old one is kept as it was; refused for its size, the old table is gone; refused for the other reason, nothing changes |
| StackTable.UniqueStackTable.PutPcInSlot | interfaces/innerkits/async_stack/unique_stack_table.cpp:176-212 | Returns the node's one settled slot, filling at most that slot; 0 exactly when every try finds another node |
| StackTable.UniqueStackTable.PutPcsInTable | interfaces/innerkits/async_stack/unique_stack_table.cpp:214-240 | A nonzero id heads the stack without its zero pcs; the answer is 0 exactly when all pcs are 0 or some node of the stack finds every try blocked; a stack already stored gets its old id and nothing is written |
| StackTable.UniqueStackTable.GetPcsByStackId | interfaces/innerkits/async_stack/unique_stack_table.cpp:259-302 | Appends exactly the decoded frames, or refuses |
| StackTable.PutThenGet | interfaces/innerkits/async_stack/unique_stack_table.cpp:214-302 | Putting a stack and reading its id gives the stack without its zero pcs, unless the answer is 0 |
| StackTable.SwitchAndBack | interfaces/innerkits/async_stack/unique_stack_table.cpp:69-123 | Whatever is put while a buffer is in use and after the table is back, every stack stored before still decodes to itself |
| StackTable.BufferRefused | interfaces/innerkits/async_stack/unique_stack_table.cpp:85-107 | A buffer of eight bytes is refused and a one-megabyte table is gone |
| TimerModel.PackedDue | services/epoll_manager.cpp:78-93 | An id gives back the execution time and the low four bits of the sequence number |
| TimerModel.IdsDiffer | services/epoll_manager.cpp:78-93 | Tasks of one microsecond issued within 16 consecutive ids have different ids |
| TimerModel.IdsCollide | services/epoll_manager.cpp:78-93 | Ids are equal exactly for tasks of one microsecond whose sequence numbers agree modulo 16 |
| TimerModel.InsertSorted | services/epoll_manager.cpp:369-378 | Inserting before the first later task keeps execution order with insertion order among equals |
| TimerModel.InsertDistinct | services/epoll_manager.cpp:377-379 | Insertion keeps ids distinct under the 16-id window |
| EventLoop.Daemon.AddDelayTask | services/epoll_manager.cpp:341-380 | The task is put in its place for now plus the delay, refused exactly for delay 0 or a clock at 0; the timer is set for it when it comes first and is left alone otherwise |
| EventLoop.Daemon.Enqueue | services/epoll_manager.cpp:369-379 | The task stands before the first later one, the timer is set for exactly its time when it is the first and left alone otherwise, and it is on record as added |
| EventLoop.Daemon.RemoveDelayTask | services/epoll_manager.cpp:382-397 | Exactly the first task with that id goes, or nothing; the timer fires at once when the last task went and is left alone otherwise, and the task is on record as removed unless it is running |
| EventLoop.Daemon.RunFront | services/epoll_manager.cpp:407-422 | The front task runs and leaves the queue whatever its callback did; the periodic queue is what its work makes of it; without id collisions what was removed meanwhile was removed at a callback's request before its turn |
| EventLoop.Daemon.RunScript | services/epoll_manager.cpp:341-525 | A callback's calls take effect: the periodic queue as its script says; one delay task for each order, in order, for now plus its delay, and no other; only callbacks it names are removed, and without id collisions all of them |
| EventLoop.Daemon.RunWork | services/epoll_manager.cpp:418-419 | The periodic queue becomes what the work of the task makes of it (a script, an execution, or nothing) and its books stay right; tasks it adds lie ahead; without id collisions it removes only tasks of other components and only those it asks for, a removal timer ends exactly its own session and no other task ends any; every delay task its callbacks ask for is added, one for each call and no other, for the time asked, and without id collisions every callback they remove is gone |
| EventLoop.Daemon.RunTask | services/epoll_manager.cpp:418-420 | The work runs, then the task is taken out unless its work has done so, and nothing else changes |
| EventLoop.Daemon.FireRemoval | services/coredump/coredump_task_scheduler.cpp:32-35 | Without id collisions a removal timer ends exactly its own session and takes out no task but itself |
| EventLoop.Daemon.OnTimer | services/epoll_manager.cpp:399-422 | Runs due tasks only, each queued at the start, in order and once, and stops; every task that was due ran or was removed; the periodic queue is exactly what the tasks run, one after the other, make of it; nothing due is left and the timer is set for the front or the executor goes; without id collisions a removed task was removed at the request of a callback whose turn came before its own, exactly the due tasks ran in queue order when no callback asked, sessions leave exactly when their time has come, and no periodic task is a second or more behind; the callbacks added are those that callbacks asked for, and without id collisions those they removed are gone or ran |
| EventLoop.Daemon.RunDue | services/epoll_manager.cpp:409-421 | The loop ends with nothing due left and the timer set for the front, and what its turns kept, of both queues, sessions and trace, holds of all of them together |
| LoopModel.OrdersAre | services/epoll_manager.cpp:341-380 | The orders in a script are its calls that add a delay task with a delay that is not 0 modulo 2^32 |
| LoopModel.OrderedOn | services/epoll_manager.cpp:341-380 | Scripts compose: the tasks added are one for each order, in order, and no others |
| LoopModel.CmdStruck | services/epoll_manager.cpp:382-397 | Without id collisions a pending callback named in a removal is removed, unless it is running |
| LoopModel.ObeyedOn | services/epoll_manager.cpp:407-422 | Over any number of turns the callbacks added are those asked for, and those removed are gone or ran |
| LoopModel.SinceOn | services/epoll_manager.cpp:407-422 | What holds of one turn of the loop holds of any number of them |
| LoopModel.FrontDone | services/epoll_manager.cpp:407-422 | One turn keeps order, timers and sessions in step, the delivery of cancels and the account of both queues |
| LoopModel.AllSettled | services/epoll_manager.cpp:407-422 | A task that was due ran or was removed; without id collisions, when no callback removed any, the tasks run are exactly the due tasks in queue order |
| LoopModel.Behind | services/epoll_manager.cpp:407-422 | Whatever a running task removes comes behind it in the queue |
| LoopModel.AccountAdded | services/epoll_manager.cpp:377-379 | Adding keeps the account: every task added waits, ran or was removed, and what was removed neither waits nor ran |
| LoopModel.AccountRemoved | services/epoll_manager.cpp:382-397 | Removing the first task with an id keeps the account |
| LoopCases.Collision | services/epoll_manager.cpp:89-93 | A run in which ending a session takes out another component's task and leaves the session's timer |
| LoopCases.Discarded | services/epoll_manager.cpp:437-463 | Two tasks are due; the callback of the first removes its own task, and the second is neither called nor removed and is gone |
| EventLoop.Daemon.ScheduleNextTask | services/epoll_manager.cpp:468-483 | A wakeup is queued at the first whole second from now at which the front is due, a second from now when it is due already; nothing when the queue is empty |
| EventLoop.Daemon.AddPeriodicTask | services/epoll_manager.cpp:485-504 | The queue gains exactly one task, with the number returned, for now plus the interval, with that interval and callback, before the first later one, and every other task is as before; when it comes first a wakeup is queued for it, otherwise the delay queue is untouched; interval 0 changes nothing |
| EventLoop.Daemon.RemovePeriodicTask | services/epoll_manager.cpp:506-525 | Exactly that task goes and is on record as removed, when it was the front a wakeup is queued for the next one, otherwise the delay queue is untouched |
| EventLoop.Daemon.MoveFront | services/epoll_manager.cpp:448-462 | The front goes exactly behind all that are not later than its next time, or out; all others keep their places |
| EventLoop.Daemon.CallFront | services/epoll_manager.cpp:437-463 | One turn is the turn function: the call is on record, its callback does to both queues what its script says, then whatever is the front by then moves or goes; wakeups and the delay queue's account are kept |
| EventLoop.Daemon.Execute | services/epoll_manager.cpp:437-466 | The execution function, which serves the queue: due tasks are called once each and in queue order, none after a callback removed it, all but those removed before their turn or discarded; a called task is queued an interval on exactly when it answered true, no callback from its own on removed it and it was not discarded; a task not due stays exactly unless a callback removed it or it was discarded; afterwards nothing is due, the books are right and a new wakeup is queued for the first whole second at which the front is due; the delay tasks that callbacks asked for are added and no others |
| LoopModel.NothingOverdue | services/epoll_manager.cpp:437-483 | When every pending delay task lies ahead, no periodic task is a second or more behind its due time |
| PeriodicModel.InsertKeepsP | services/epoll_manager.cpp:493-499 | Inserting a periodic task before the first later one keeps the queue sorted and ids distinct |
| PeriodicModel.WaitSeconds | services/epoll_manager.cpp:473-480 | The rounded-up wait ends at or after the due time and less than a second late |
| PeriodicModel.ThinsOn | services/epoll_manager.cpp:437-525 | Scripts compose: exactly the tasks they name are missing, new ones are for later, and the due ones left keep their order |
| PeriodicModel.ScriptKeeps | services/epoll_manager.cpp:485-525 | Whatever calls a callback makes, the queue stays sorted and numbered, loses exactly the tasks they name and gains tasks for later only |
| PeriodicModel.ScriptBears | services/epoll_manager.cpp:485-504 | Of the tasks a script adds it is on record when and with what; tasks on record before keep their record |
| PeriodicModel.MoveKeeps | services/epoll_manager.cpp:448-462 | Moving the front behind all tasks not later than its next time, or out, keeps the queue sorted and numbered and all others in it |
| PeriodicModel.FrontAfter | services/epoll_manager.cpp:443-449 | After its callback a task is still the front exactly when the callback has not removed it |
| PeriodicModel.TurnKeeps | services/epoll_manager.cpp:440-463 | A turn keeps the queue in order and makes strictly fewer tasks due, so executions end |
| PeriodicModel.WorksOn | services/epoll_manager.cpp:407-422 | Running delay tasks one after the other composes |
| PeriodicTurns.TakeTurn | services/epoll_manager.cpp:437-463 | One turn, whatever the callback adds or removes, its own task included, keeps the account of the execution: called in order so far, waiting in order, removed before their turn, or discarded, and everyone else where they were |
| PeriodicTurns.NobodyLost | services/epoll_manager.cpp:437-463 | A due task is called, waits for its turn, was removed before it by a callback already called, or is the one discarded |
| PeriodicTurns.AllCalled | services/epoll_manager.cpp:437-466 | When no callback removes a periodic task, the calls are exactly the due tasks in queue order, exactly those that answered true are queued again, and the tasks not due stay |
| PeriodicTurns.Serves | services/epoll_manager.cpp:437-466 | Execute's function serves every queue, and discards only after a callback that removed its own task and answered false |
| PeriodicAccount.BooksScript | services/epoll_manager.cpp:485-525 | Adding and removing keeps the books: a task is queued exactly when it was added and neither removed nor discarded nor has answered false |
| PeriodicAccount.BooksTurn | services/epoll_manager.cpp:437-463 | A turn keeps the books: a call is due an interval after the last call of its task, or after the task was added, and is not early; it does what the task was added to do that time; none follows a removal or an answer of false; a callback that removed its own task cost the next task its place or left defined ground |
| PeriodicAccount.CallsOnTime | services/epoll_manager.cpp:437-504 | The first call of a task is due its interval after the task was added, each later one its interval after the call before it, none comes sooner, and the n-th call does what the task was added to do n-th |
| PeriodicAccount.BooksWorks | services/epoll_manager.cpp:407-422 | Running any delay tasks keeps the books |
| PeriodicAccount.NoneDiscarded | services/epoll_manager.cpp:443-462 | No task is discarded and nothing undefined done exactly while no callback removes the task it is called for |
| PeriodicAccount.TaskStays | services/epoll_manager.cpp:407-525 | Over any delay tasks run, a periodic task stays queued exactly unless a callback removes it, it answers false or it is discarded |
| CoredumpModel.OneReply | services/coredump/coredump_session_service.cpp:60-99 | In every sound trace a session is answered at most once |
| CoredumpModel.ToldOn | services/coredump/coredump_session_state.cpp:46-104 | Every request keeps: the status of a session is told by its events (waiting until a worker is seen, running until a result or a cancel comes), and every request is answered as the trace demands |
| CoredumpModel.EffectsAre | services/coredump/coredump_session_state.cpp:46-104 | Status by status and event by event, in literals: what is signalled, replied and removed, and the next status |
| CoredumpModel.ReportDoes | services/coredump/coredump_callback_service.cpp:57-66 | A report for a running session, with a name below 256 characters, is the reply with code 0 and the end of the session, whatever its return code; for any other it is only noted |
| CoredumpModel.CancelDoes | services/coredump/coredump_session_state.cpp:55-86 | A cancel of a running session is the signal to its worker, the reply and its end; a pending one keeps it; others only note it |
| CoredumpModel.WorkerDoes | services/coredump/coredump_session_state.cpp:46-104 | A worker seen starts a pending session; where a cancel is kept it is the signal, the reply and the end |
| CoredumpModel.TimeoutDoes | services/coredump/coredump_session_state.cpp:46-104 | A timeout answers a waiting session with -1 and ends it, and leaves any other alone |
| CoredumpModel.NoteAnswered | services/coredump/coredump_session_state.cpp:46-104 | What a request asks for follows it at once on the trace, and nothing that it does not ask for |
| CoredumpModel.ResultIsReply | services/coredump/coredump_session_state.cpp:66-78 | Over every trace the first result a worker reports, with a name that fits and no cancel before, is at once the reply and the end of the session |
| CoredumpModel.CancelIsSignal | services/coredump/coredump_session_state.cpp:79-86 | Over every trace the first cancel that comes while a worker is dumping is at once a signal to the worker seen last, then the reply and the end |
| CoredumpModel.LateWorkerIsStopped | services/coredump/coredump_session_state.cpp:88-104 | Over every trace the first worker seen after a cancel is at once told to stop |
| CoredumpModel.UpdateTable | services/coredump/coredump_session_service.cpp:30-58 | Changing one session keeps table and trace in step for all sessions |
| CoredumpModel.RemoveFromTable | services/coredump/coredump_session_manager.cpp:57-64 | Removing a session keeps table and trace in step: live means created and not removed |
| CoredumpModel.CreateInTable | services/coredump/coredump_session_manager.cpp:31-45 | A new session whose process is told to start keeps table and trace in step |
| CoredumpModel.MatchAfterRemove | services/coredump/coredump_session_manager.cpp:57-64 | Removing a session with its timer keeps sessions and removal timers one to one |
| CoredumpModel.MatchAfterAdd | services/coredump/coredump_task_scheduler.cpp:41-46 | A session that gets its timer keeps sessions and removal timers one to one |
| CoredumpModel.RemovalDelayIs | services/coredump/coredump_task_scheduler.cpp:37-41 | The smaller of the remaining whole seconds and 30, 0 when the end has come; remaining seconds whose cast to 32 bits is negative count modulo 2^32 |
| CoredumpModel.RemovalDelayCapped | services/coredump/coredump_task_scheduler.cpp:37-41 | The delay is at most 30 seconds exactly while the remaining seconds, cast to 32 bits, are not negative |
| CoredumpModel.RemovalDelayUncapped | services/coredump/coredump_task_scheduler.cpp:37-41 | An end time for which the cast turns the cap into a delay of 2147483648 seconds |
| EventLoop.Daemon.RemoveSession | services/coredump/coredump_session_manager.cpp:57-64 | The session goes, and without id collisions exactly its removal timer goes with it |
| EventLoop.Daemon.Reply | services/coredump/coredump_session_service.cpp:88-99 | One reply, then the session is out of the table and, without id collisions, exactly its removal timer is out of the queue |
| EventLoop.Daemon.WriteResult | services/coredump/coredump_session_service.cpp:68-86 | The recorded result is sent and the session removed with, without id collisions, exactly its timer, unless the file name is too long; then nothing is sent and nothing changes |
| EventLoop.Daemon.HandleEvent | services/coredump/coredump_session_state.cpp:22-44 | In every status, effects and next status are those that EffectsAre lists; a report for a running session is the reply and its end, a cancel the signal, the reply and its end; the delay queue changes only when the session ends, and then, without id collisions, by exactly its timer |
| EventLoop.Daemon.PendingOnEvent | services/coredump/coredump_session_state.cpp:46-64 | A pending session starts running, remembers a cancel, or times out with one reply; the delay queue changes only with the end of the session |
| EventLoop.Daemon.RunningOnEvent | services/coredump/coredump_session_state.cpp:66-86 | A running session whose file name fits answers on a report of either kind and ends; on a cancel it signals its worker first; the delay queue changes only with the end of the session |
| EventLoop.Daemon.CancelPendingOnEvent | services/coredump/coredump_session_state.cpp:88-104 | A cancel that came first is delivered when the worker reports; the delay queue changes only with the end of the session |
| EventLoop.Daemon.HandleCreateEvent | services/coredump/coredump_manager_service.cpp:50-67 | One session per pid at a time; the process is told to start; with one to thirty seconds left its one removal task is due that many whole seconds from now, with more (below 2^31) thirty, and with less than a second the session is removed at once |
| EventLoop.Daemon.CreateCoredump | services/coredump/coredump_facade.cpp:21-28 | The session is created as new, its process is told to start, and its removal is scheduled by the delay that RemovalDelayIs gives, or done when that is 0; all other sessions untouched |
| EventLoop.Daemon.ScheduleCancelTime | services/coredump/coredump_task_scheduler.cpp:25-47 | The new session gets exactly one removal timer at its time, or is removed when none can be set |
| EventLoop.Daemon.HandleCancelEvent | services/coredump/coredump_manager_service.cpp:69-79 | Without a session an error and no change; a running session whose name fits gets exactly the request, the signal to its worker, the reply and the removal on the trace, and its timer goes; a pending one keeps the cancel; any other only records it |
| EventLoop.Daemon.HandleUpdateWorkerPid | services/coredump/coredump_callback_service.cpp:44-55 | Only a positive worker pid of a live session is recorded; a pending session runs; where a cancel waits exactly the signal to this worker, the reply and the removal follow and its timer goes |
| EventLoop.Daemon.HandleReport | services/coredump/coredump_callback_service.cpp:57-66 | A report for a running session with a name below 256 characters, whatever its return code, appends exactly the report, the reply with code 0 and the path, and the removal, and the session and its timer go; for a session that is not running, or with a longer name, only the report is on record; for no session nothing changes |
| EventLoop.Daemon.OnTimeout | services/coredump/coredump_facade.cpp:66-73 | A session that waits gets exactly the reply with -1 and the removal, and its timer goes; any other is left alone |
| EventLoop.Daemon.Receive | services/coredump/coredump_session_service.cpp:30-58 | Any request: noted, then the effects of its event and nothing else, with the whole invariant kept |
| EventLoop.Daemon.Call | services/epoll_manager.cpp:357-525 | Other components' calls change no session, no trace and no removal timer; both queues change exactly as their script says |
| EventLoop.Daemon.Step | services/epoll_manager.cpp:357-525 | Every request, call and timer expiry keeps the whole invariant; history only grows |
| LoopModel.RunStory | services/coredump/coredump_session_state.cpp:46-104 | From the invariant: one reply per session; signals only to a positive pid reported for it after a cancel request; the first result of a worker with a name that fits is at once the reply; the first cancel while a worker is dumping is at once a signal to it, the reply and the end; the first worker after a cancel is at once told to stop; and removed means not live |
| EventLoop.Run | services/epoll_manager.cpp:341-525 | After every run of a fresh daemon: all of that; every delay task ever added waits, ran or was removed, and a removed one never ran; tasks ran in order and once; a periodic task is queued exactly when it was added and neither removed nor discarded nor has answered false, and none is discarded and nothing undefined done exactly while no callback removes the task it is called for; periodic calls are never early, the first an interval after the task was added, the others an interval after the call before, and none follows a removal or an answer of false; a nonempty queue has an armed timer in time; and without id collisions sessions and removal timers match one to one |
| LoopModel.AllExpired | services/coredump/coredump_task_scheduler.cpp:32-47 | After a timer step a session is there exactly when its removal time lies ahead |
| ContextPoolModel.TakeFirst | interfaces/innerkits/async_stack/async_context_manager.cpp:221-225 | Acquiring takes the head and keeps the list of exactly the invalid contexts |
| ContextPoolModel.PutLast | interfaces/innerkits/async_stack/async_context_manager.cpp:117-121 | Releasing appends at the tail and keeps the list of exactly the invalid, emptied contexts |
| ContextPoolModel.FreePlusOutstanding | interfaces/innerkits/async_stack/async_context_manager.cpp:105-122 | Free plus held contexts make up the pool and at least one is free |
| ContextPoolModel.ReissuedInTurn | interfaces/innerkits/async_stack/async_context_manager.cpp:105-225 | A released context is issued again right after all contexts that were free before it |
| ContextPoolModel.CurrentChainIs | interfaces/innerkits/async_stack/async_context_manager.cpp:246-275 | The current chain is the array of the context on top of the thread's stack while that is held, and empty when it is not |
| ContextPoolModel.NoCurrentChain | interfaces/innerkits/async_stack/async_context_manager.cpp:246-262 | A thread that is not held or has an empty stack carries nothing |
| ContextPoolModel.OneHolder | interfaces/innerkits/async_stack/async_context_manager.cpp:202-225 | A context was issued once more than returned exactly while it is valid, so it never has two holders |
| ContextPoolModel.ChainInherited | interfaces/innerkits/async_stack/async_context_manager.cpp:210-244 | The new context carries its own entry and the current chain exactly unless the top is the context being issued and there is something to copy |
| ContextPoolModel.InheritedChain | interfaces/innerkits/async_stack/async_context_manager.cpp:236-275 | Reading the new context gives the first layers of its own entry before the current chain |
| ContextPool.AsyncContextPool.Init | interfaces/innerkits/async_stack/async_context_manager.cpp:42-85 | All contexts and thread contexts free and empty, in pool order; fails exactly for size 0 or a failed mapping |
| ContextPool.AsyncContextPool.DeInit | interfaces/innerkits/async_stack/async_context_manager.cpp:87-103 | A set-up pool is gone and no longer set up; otherwise nothing changes |
| ContextPool.AsyncContextPool.ReleaseAsyncContext | interfaces/innerkits/async_stack/async_context_manager.cpp:105-122 | A held context is emptied and becomes the last free one; a second release changes nothing |
| ContextPool.AsyncContextPool.AcquireAndInitAsyncContext | interfaces/innerkits/async_stack/async_context_manager.cpp:210-244 | Refuses exactly when one context is left; otherwise the first free one with the specified chain and zeros after it, all others untouched |
| ContextPool.AsyncContextPool.CopyChain | interfaces/innerkits/async_stack/async_context_manager.cpp:236-242 | The copying loop, also when it reads what it writes |
| ContextPool.AsyncContextPool.GetCurrentChainedContext | interfaces/innerkits/async_stack/async_context_manager.cpp:246-275 | The buffer gets exactly the current chain as far as it and the layer limit go |
| ContextPool.AsyncContextPool.AcquireThreadContext | interfaces/innerkits/async_stack/async_context_manager.cpp:124-140 | The first free thread context with an empty stack, or none exactly when all are held |
| ContextPool.AsyncContextPool.ReleaseThreadContext | interfaces/innerkits/async_stack/async_context_manager.cpp:142-160 | A held thread context becomes the first free one; anything else is ignored |
| ContextPool.AsyncContextPool.PushContextToThread | interfaces/innerkits/async_stack/async_context_manager.cpp:286-305 | Pushes exactly when thread and context are held and the stack has fewer than 64 entries |
| ContextPool.AsyncContextPool.PopContextFromThread | interfaces/innerkits/async_stack/async_context_manager.cpp:307-319 | Drops the top exactly when there is one |
| ContextPool.AsyncContextPool.PopContextFromThreadIfMatch | interfaces/innerkits/async_stack/async_context_manager.cpp:321-339 | Undoes the push of the context exactly when it is on top |
| ContextPool.AsyncContextPool.ClearThreadContext | interfaces/innerkits/async_stack/async_context_manager.cpp:341-355 | Empties the stack of a held thread context |
| ContextPoolRuns.Run | interfaces/innerkits/async_stack/async_context_manager.cpp:105-355 | After every run of a new pool, with any set-ups and tear-downs on the way, a pool that is set up has: free plus held is the pool, at least one free, no two holders, and issues plus free list are the pool plus returns in order |
| ContextPoolRuns.StaleTop | interfaces/innerkits/async_stack/async_context_manager.cpp:210-244 | A run of a pool of three with two layers after which a new context repeats its own entry |
| SnapshotTrie.ScanFinds | services/snapshot/kernel_snapshot_trie.cpp:44-59 | The reference scan finds the last type of the shortest inserted key that begins the line, or that there is none |
| SnapshotTrie.LatestIs | services/snapshot/kernel_snapshot_trie.cpp:39-41 | A key inserted again takes the later type |
| SnapshotTrie.AddLeaf | services/snapshot/kernel_snapshot_trie.cpp:31-36 | A new child keeps the trie in step with the inserted keys |
| SnapshotTrie.MarkEnd | services/snapshot/kernel_snapshot_trie.cpp:39-41 | Marking a node inserts its string with the new type |
| SnapshotTrie.KernelSnapshotTrie.Insert | services/snapshot/kernel_snapshot_trie.cpp:25-42 | The key joins what was inserted; the empty key is refused |
| SnapshotTrie.KernelSnapshotTrie.MatchPrefix | services/snapshot/kernel_snapshot_trie.cpp:44-59 | Agrees with the scan of everything inserted so far, for every line |
| SnapshotParser.PrefixFree | services/snapshot/kernel_snapshot_data.h:66-81 | No section keyword begins another |
| SnapshotParser.HeadingIs | services/snapshot/kernel_snapshot_data.h:66-81 | A line is a section's heading exactly when it begins with that section's keyword |
| SnapshotParser.StartLine | services/snapshot/kernel_snapshot_parser.cpp:224-240 | The line that starts a transaction, literally |
| SnapshotParser.UnitTiles | services/snapshot/kernel_snapshot_parser.cpp:242-271 | In a unit that stops at a transaction end the cells tile the lines from the first heading to it; otherwise up to the last heading |
| SnapshotParser.UnitTiled | services/snapshot/kernel_snapshot_parser.cpp:242-271 | The cells of a unit: the start line, then from the first heading on and without a gap each section from its heading to the line before the next, up to the transaction end, or up to the last heading of all |
| SnapshotParser.CellHoldsSection | services/snapshot/kernel_snapshot_parser.cpp:252-269 | A cell begins with its heading, holds no other, and only the first can be named after a transaction end |
| SnapshotParser.StopsAtFirstEnd | services/snapshot/kernel_snapshot_parser.cpp:257-268 | A unit stops at its first transaction end exactly unless that is its first heading |
| SnapshotParser.EndComesFirst | services/snapshot/kernel_snapshot_parser.cpp:257-268 | Two lines, a start and an end, whose unit does not stop at the end |
| SnapshotParser.UnitsOrdered | services/snapshot/kernel_snapshot_parser.cpp:273-285 | Over all units the cells are in order and disjoint |
| SnapshotParser.StartsKept | services/snapshot/kernel_snapshot_parser.cpp:224-285 | Every transaction start begins a cell unless it is the last heading of all |
| SnapshotParser.KernelSnapshotParser.constructor | services/snapshot/kernel_snapshot_parser.cpp:207-212 | The trie holds exactly the keyword table |
| SnapshotParser.KernelSnapshotParser.ProcessTransStart | services/snapshot/kernel_snapshot_parser.cpp:224-240 | Goes to the next transaction start, or to the end when there is none |
| SnapshotParser.KernelSnapshotParser.ParseSections | services/snapshot/kernel_snapshot_parser.cpp:249-270 | The one-pass loop cuts exactly at the headings |
| SnapshotParser.KernelSnapshotParser.ParseSnapshotUnit | services/snapshot/kernel_snapshot_parser.cpp:242-271 | The unit of the next transaction start; its cells, the start line and then the sections without a gap, tile the lines up to the end of the unit or the last heading; always advances |
| SnapshotParser.KernelSnapshotParser.ParseSameSeqSnapshot | services/snapshot/kernel_snapshot_parser.cpp:273-285 | Terminates with exactly the units of the lines, ordered, disjoint, and with no transaction start lost |

## Left out

- Sockets, file descriptor passing, epoll, inotify, ptrace, fork and exec, signals and `/proc`: only the recorded effect is modelled, for example that a worker was signalled.
- Unwinding, symbolisation, ELF and minidump parsing, JSON and text formatting, event reporting, logging, configuration and command lines.
- The section parsers behind a snapshot cell, and so which units yield an empty crash map; grouping lines by sequence number and reordering time stamps.
- The stack table's `ImportNode`, `GetWriteSize`, the Put for profilers and resizing an external buffer.
- `HookCalloc`, the dispatch table and the atomics around the allocator; realloc's effect on size 0 beyond returning null.
- Allocator.DfxAllocator.DfxFree: addresses inside a page of the allocator that are no live chunk, and unmapped ones, are not covered, because the code takes the first for blocks and faults on the second.
- Allocator.DfxAllocator.GetPage: the same addresses, for the same reason.
- Allocator.DfxAllocator.GetChunkSize: the same addresses, for the same reason.
- Allocator.DfxAllocator.DfxRealloc: the same addresses, for the same reason.
- StackTable.UniqueStackTable.Resize: keeps the invariant only below 0x4000004 bytes, because above that the code itself lets indices outgrow their 25 bits.
- StackTableRuns.ResizeInv: the same bound, for the same reason.
- StackTable.UniqueStackTable.PutPcInSlot: takes pcs below 2^39, because the bit field cuts wider ones to another pc.
- StackTable.UniqueStackTable.PutPcsInTable: takes pcs below 2^39, for the same reason.
- StackTable.UniqueStackTable.SwitchExternalBuffer: accepted buffers hold a sound table (zeroed ones do), because the code takes over whatever else they hold; sizes are below 32 GiB, because the node count is then cut to 32 bits.
- StackTable.UniqueStackTable.InitWithExternalBuffer: the same buffers, for the same reason.
- StackTable.SwitchAndBack: the same buffers, for the same reason.
- EventLoop.Daemon.CallFront: after a callback that removed its own task and answered true, or left the queue empty, the model leaves the queue as it is, because what the code does then is undefined.
- EventLoop.Daemon.OnTimer: one clock reading serves the whole call, while the code reads the clock again before each task.
- EventLoop.Daemon.RunScript: that every callback named in a removal is gone is stated for runs without id collisions, because colliding ids make a removal hit another task.
- EventLoop.Run: the correspondence of sessions and timers is stated for runs without id collisions, because colliding ids make a removal hit another task.
- The reader/writer lock and the memory orders of the async context pool; contexts are exercised one operation at a time.
- Caller checks in the coredump services, temporary-file retention, connection counters, pipe registries and perf limits.
