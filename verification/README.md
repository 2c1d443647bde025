# Verification of the Sexain memory controller

A Dafny model of the address translation controller of a hybrid DRAM + NVM memory, with proofs that it
behaves as a plain memory that can always be rolled back, and of the sentinel red-black tree that its
benchmarks exercise.

The controller keeps a table of block translations (the ATT, with four intrusive queues and a tag index),
two version buffers (NVM and DRAM slots), and a page table of the pages moved to DRAM (the PTT). A store
may hide, buffer, evict or loan a block; an epoch ends by migrating pages, flushing the ATT and starting a
checkpoint; the checkpoint ends by aging the backup slots.

The model has four layers.

- **Functions** (`VersionBuffer`, `TranslationTable`, `PageTable`, `Controller`). Every operation is a function
  from states to `Outcome<State>`. Each assertion of the source is an `Assert` that yields `Abort` when it fails,
  so "the call is `Ok`" means that no assertion fails.
- **Invariants and runs** (`ControllerInvariant` to `RunProofs`). The state invariant, what each operation keeps,
  and whole runs against a flat memory and the images taken at the last two begins. `Ordering`, `Recency`,
  `Marks` and `Selection` follow the order of the queues, the entry of each block and the choices of the migration
  loops. `Theorems`, `Usage`, `Tenures`, `Rebalancing`, `Residence`, `DataMoves`, `Eviction`, `Progress`, `Latency` and
  `Witnesses` state the results.
- **Objects** (`IndexQueue`, `AddrTransTable`, `SlotBuffer`, `MigrationController`, `QueueWalk`,
  `AddrTransController`, `MemoryDriver`). The source's classes with their fields, loops and link walks. Each
  method of `AddrTransController` is proved to do to the represented state what the function of the same name
  does. For most of them that equation follows the body step by step. The work is in the doubly linked queues, in
  the two walks that change the queue they follow (`CleanEntries`, `RevokeLoans`), in the loops, and in the driver
  `SimpleMemory`, whose contracts speak of the memory clients see; only these have rows below.
- **Red-black tree** (`SearchTree`, `TreeCells`, `RedBlackTree`). The C functions on an arena of cells with parent
  links and two sentinels, proved against a ghost tree and its in-order items.

Some definitions read `forall u :: Unlocked(u) ==> P`, which is `P` with a handle that keeps it folded inside a
proof. The theorems below state plain equations.

## Model

| member | source | states |
|---|---|---|
| Theorems.RunsAreGood | addr_trans_controller.cc:31-378 | In every run that respects the driver's protocol, from any fresh controller and memory, no assertion of the controller, the tables or the buffers fails, and the state agrees with the flat memory, the retained images and the write counters |
| Theorems.Transparency | gem5-stable/src/mem/abstract_mem.cc:393-423 | After any run a load of any byte succeeds and returns the byte that the last store of the run covering it wrote, or the initial one, through every eviction, checkpoint and migration in between: the shadow memory check never fires on a read |
| Theorems.StoreThenLoad | gem5-stable/src/mem/abstract_mem.cc:413-423 | In every reachable state, if a store has room it completes, and a load right after it returns the machine block the store returned: the shadow check after a write never fires |
| Theorems.ImagesRetained | addr_trans_controller.cc:356-378 | At every point of every run each block covered by the image of the last begin has an intact copy, at home or in an NVM slot that is not free, in a place no other block uses; while checkpointing the same holds of the image before. The images are the flat memory at the last two begins of the run, and cover exactly the blocks whose page has not been in DRAM since |
| Histories.FlatIsLast | gem5-stable/src/mem/abstract_mem.cc:504-511 | Every byte of the flat memory that runs are compared with is the byte of the last store covering it |
| Theorems.StoresComplete | addr_trans_controller.cc:57-166 | In every reachable state a store completes if and only if there is room: a hit, a free or clean entry, or, while running, a loan to revoke or a page in DRAM |
| Theorems.ProbeSound | addr_trans_controller.cc:168-187 | In every reachable state, where Probe asked by tag answers REG_WRITE, the store completes and the new state shows the flat memory with exactly these bytes written; when it answers so is ProbeAnswers |
| Residence.ProbeAnswers | addr_trans_controller.cc:168-187 | In every reachable state all three answers of Probe by tag: while checkpointing WAIT_CKPT if and only if there is no room, otherwise REG_WRITE; while running never WAIT_CKPT, and NEW_EPOCH if and only if the page is in NVM, the block has no entry, and either no entry is free, clean or on loan, or as many resident pages were stored to in this epoch by the calls of the run as the page table is long |
| Residence.LiteralProbeAnswers | addr_trans_table.h:107-110 | The same for Probe as written, with the address in place of the tag |
| Theorems.LiteralProbeSound | addr_trans_table.h:107-110 | In every reachable state, where Probe asked by address, as written, answers REG_WRITE, the store fails an assertion if and only if the address is a live tag, its block has no entry, and no entry can be had |
| Witnesses.LiteralProbeFails | addr_trans_controller.cc:176-176 | A one-store run of four 2-byte blocks after which Probe as written answers REG_WRITE at address 2, Probe by tag answers NEW_EPOCH, and the store to block 1 fails an assertion |
| Theorems.TranslationInjective | addr_trans_table.h:133-137 | In every reachable state two different physical addresses translate to different machine addresses |
| Theorems.SlotsAreOwned | version_buffer.cc:8-35 | In every reachable state the slots in use of each buffer are exactly the bases of the entries whose state keeps its block there |
| Theorems.MappedBlocks | addr_trans_controller.cc:442-489 | In every reachable state an entry is a loan if and only if its page is in DRAM, a hidden block is at home, and while checkpointing nothing is dirty or hidden |
| Residence.PageFates | addr_trans_controller.cc:197-204 | In every reachable state, from the calls of the run and its migrations alone: a page is in DRAM if and only if a migration brought it in and none took it out since, it counts the stores of this epoch and is dirty if and only if there are any, and it is direct if and only if it arrived direct, with at most half its blocks written, and was stored to in an even number of epochs since, or arrived static and in an odd number |
| Tenures.BlockTenures | addr_trans_controller.cc:93-166 | In every reachable state, but for those between a migration and the begin after it, from the calls of the run: the entry of a block counts exactly the stores made to it in this epoch while its page was in NVM; before the first of them it is clean, on loan or absent; then it is TEMP, and HIDDEN once stored to while running, if the block had an entry before the first, and otherwise STAINED and then DIRTY |
| Tenures.StepMark | addr_trans_controller.cc:31-378 | What each call does to the state and count of the entry of every block: a load and a finish change none, a begin leaves the dirty, stained and clean ones clean and no other, a store changes its own and, only if it needs an entry and none is free, at most one other, which had no stores and goes |
| Tenures.WeighedByStores | migration_controller.cc:44-60 | Whenever a migration may be called, the blocks by which it weighs a page are exactly as many as the blocks of that page the run stored to in this epoch |
| Theorems.BackupLifetime | version_buffer.cc:37-54 | A slot backed up in the young generation is still there at the next finish, is in the old generation up to the one after it, and is free after that one |
| Progress.RetryAdmitted | gem5-stable/src/mem/simple_mem.cc:203-219 | In every run: a write refused for a new epoch is let through when it is retried after the migration, the begin and, with nothing to flush, the finish, if and only if the table has entries and either the checkpoint is still under way or the page table has pages |
| Progress.FinishAdmits | gem5-stable/src/mem/simple_mem.cc:326-335 | In every run that ends with a begin and an immediate finish: Probe answers REG_WRITE if and only if the page is in DRAM, the block has an entry, or there are both an entry and a page to be had |
| Progress.BeforeAnyStore | addr_trans_controller.cc:181-183 | In every run without stores, while running: Probe answers NEW_EPOCH for any block if and only if the table has no entries or the page table no pages, so then, with nothing to flush, the first write is refused for ever |
| Witnesses.RefusedAgain | gem5-stable/configs/thnvm-se.py:121-122 | A run with a page table of length zero in which the first write is refused for a new epoch and, after that epoch, refused again |
| Theorems.NewEpochAdmits | gem5-stable/src/mem/simple_mem.cc:309-309 | In the state right after a begin Probe answers REG_WRITE, for any block, if and only if the table has entries |
| Theorems.MigrationBound | addr_trans_controller.cc:341-353 | With a page table of at least 16 pages, a run returns at most a 16th of its length to NVM per migration |
| Residence.MigrationsRebalance | gem5-stable/src/mem/simple_mem.cc:203-206 | Every migration of every run does what MigrateRebalances states, by the two ratios it is called with |
| Rebalancing.MigrateRebalances | addr_trans_controller.cc:309-354 | In terms of the entries and pages before the call: a page comes in only from NVM with at least the given ratio of blocks written, the most written first, clean, and static if and only if more than half its blocks were written; all such pages come in unless the table is full of written pages. An unwritten page leaves only if the table was full; a written page leaves only if its ratio of writes is at most the given one; direct before static, fewer writes first; and written pages go on leaving until as many have left as the spare capacity or none is left but static ones behind a direct one that was written too much. Pages that stay are unchanged, and both counters of moves grow by exactly the pages moved |
| Theorems.ReturnLimitExact | addr_trans_controller.cc:309-354 | For every migration in every reachable state: it returns no more pages than the spare capacity if and only if the page table has 16 pages or the second loop does not move its first page |
| Migration.ReturnBoundExact | addr_trans_controller.cc:341-353 | For every heap, first page and limit: the loop stays within its limit if and only if the limit is positive or the first page is not one it moves |
| Witnesses.ReturnLimitExceeded | migration_controller.h:141-157 | A six-call run with a page table of one page, whose limit is zero, in which MigratePages returns a page to NVM |
| Theorems.BooksBalance | gem5-stable/src/mem/simple_mem.cc:294-301 | In every driven run the three counter equations asserted before a checkpoint hold: the totals of the migration controller are the driver's write counts, and these add up to hits and misses |
| Eviction.OldestRecycled | addr_trans_controller.cc:57-166 | In every reachable state the table comes from a fresh one by table operations, and a store that must evict reuses, for its block, the one entry of the loan or clean queue that table operations used longest ago, changing no other entry; which calls those are is LeastRecentlyUsed |
| Usage.LeastRecentlyUsed | addr_trans_controller.cc:57-166 | In every reachable state a store that must evict takes the entry of a block in the state of the victim, a loan if there is one and running, else clean, and the calls of the run used every other block in that state after it; no other entry changes. Use is read off the calls: a load or store of the block, or the begin that flushes its entry, and among blocks of one begin their use before it |
| Usage.QueuesByUse | addr_trans_table.cc:12-70 | In every reachable state each queue but the free one is in the order in which the calls of the run last used its blocks |
| Usage.LastTouchIs | addr_trans_table.cc:12-25 | The last use by which blocks are compared is the greatest position of the run whose call used the block, or none |
| Eviction.StepMade | addr_trans_table.cc:12-70 | Every load, store, migration, begin and finish changes the table by a sequence of table operations alone, and only a store gives an entry to a new tag; the order each call leaves is StepOrder |
| Usage.StepOrder | addr_trans_controller.cc:31-378 | After any call one block stands before another in a queue only if the call used the second and not the first, or used both or neither and they stood so before: a load or store moves its block last, a begin appends what it flushes, a migration and a finish keep the order |
| Lru.FrontIsOldest | addr_trans_table.h:128-131 | After any sequence of table operations on a fresh table, the front of each queue was used longest ago |
| Lru.LastUseIs | addr_trans_table.cc:12-25 | The last use by which queues are compared is the greatest step that looked the entry up or queued it |
| Latency.ChargesExact | gem5-stable/src/mem/simple_mem.cc:395-413 | In every reachable state a load names to the latency model a block of the memory it claims, and a store that has room does if and only if it does not write again to a loaned block while checkpointing |
| Witnesses.LoanChargeFails | addr_trans_controller.cc:63-65 | A four-call run after which one more store to a loaned block, while checkpointing, names its physical block as one in the DRAM buffer |
| Runs.StepOk | gem5-stable/src/mem/simple_mem.cc:201-226 | One call from any state that agrees with its history: it meets every assertion, the agreement holds again, backups move only as specified, and counters grow by exactly what was stored: a store is a miss if and only if it is not made in place in a DRAM page, its block has no entry and none is free |
| Stores.StoreBlockOk | addr_trans_controller.cc:57-209 | A store with room completes, shows every other block unchanged, and its own unless overwritten whole, keeps both images, returns where the block then is, and is counted exactly once: as a write to NVM or DRAM by where its page is, and as a miss if and only if it is not made in place in a DRAM page, its block has no entry and none is free |
| Stores.StoreExact | addr_trans_controller.cc:93-166 | From any state meeting the invariant a store completes if and only if there is room |
| Stores.LiteralProbeExact | addr_trans_controller.cc:168-187 | The exact condition of LiteralProbeSound, for any state meeting the invariant |
| Stores.LoadBlockOk | addr_trans_controller.cc:31-55 | A load never fails, changes no block, image or counter of stores, returns the block's machine address, makes the block's entry the last of its queue with all others in order, and counts one read, in the entry if there is one, else in its page in DRAM |
| DataMoves.WholeBlock | addr_trans_controller.h:148-150 | In every reachable state a store of a whole block that evicts nothing writes the given bytes to one machine block and copies no other data |
| Checkpoints.WalkOk | addr_trans_controller.cc:211-224 | The flush over any pending part of the dirty queue succeeds, settles exactly the entries of that part and leaves the others as they were, although some visits append to the queue |
| Checkpoints.FlushOk | addr_trans_controller.cc:360-364 | The whole flush empties the dirty queue, with clean and free entries adding up to the table length |
| Checkpoints.BeginOk | addr_trans_controller.cc:356-371 | A begin succeeds, changes no block, retains the memory of that moment as the new image and the previous image as the old one, clears the read and write counters of entries and pages, and makes every dirty page clean, direct if and only if it was direct |
| Checkpoints.FinishOk | addr_trans_controller.cc:373-378 | A finish succeeds, changes no block, keeps the current image and ages the backups |
| Checkpoints.BegunAdmits | addr_trans_controller.cc:168-187 | With every entry clean or free while checkpointing, Probe admits every write if and only if there is an entry |
| Translation.NvmSuffices | addr_trans_controller.cc:14-29 | Twice the table length of NVM slots suffices: whenever some entry holds none, the buffer has a free slot |
| Translation.DramSuffices | addr_trans_controller.cc:14-29 | One DRAM slot per entry suffices |
| Translation.NoAlias | addr_trans_controller.cc:31-55 | No two blocks share a machine block, and no block sits in the home of another |
| Migration.MigratePagesOk | addr_trans_controller.cc:309-354 | For all ratios and iteration orders MigratePages ends, meets every assertion, changes no block's value, revokes all loans, keeps the page table within capacity, counts the epoch's stores, and respects the return limit if the table has 16 pages; which pages it moves is MigrateRebalances |
| Migration.MigrateNvmOk | addr_trans_controller.cc:257-307 | Moving a page in empties the table of its blocks, changes no block's value and adds exactly that page |
| Migration.EvictBlocksOk | addr_trans_controller.cc:263-297 | The loop over the page's blocks leaves no entry for any of them and brings each value home |
| Migration.RevokeAllOk | addr_trans_controller.cc:226-230 | Revoking every loan succeeds, leaves no loan and changes no block |
| PageTableInvariants.InputBlocksOk | migration_controller.cc:43-65 | Whatever the iteration orders, exactly the recorded writes are added to the totals, the heaps hold exactly the active and the resident pages, and each NVM page is weighed by its written blocks and their writes |
| PageTableInvariants.CollectCredits | migration_controller.cc:45-60 | A page is credited with a block if and only if some entry in use holds that block, lies in the page and was written this epoch, with the sum of the writes of its entries and with the sum of their reads |
| PageTableInvariants.SlotsPartition | migration_controller.h:200-230 | The free slots and the slots of resident pages partition the capacity |
| PageTableInvariants.ClearOk | migration_controller.cc:101-123 | Clear meets its assertions, leaves nothing collected, and keeps exactly the pages, each with its frame, unread, unwritten and clean, and direct if and only if it was direct |
| TranslationTables.QueueLengths | addr_trans_table.h:123-126 | The four queues together hold every entry exactly once |
| TranslationTables.SetupOk | addr_trans_table.cc:27-41 | Setup succeeds if and only if the tag is new and an entry is free, and keeps index and queues coherent |
| TranslationTables.ShiftStateOk | addr_trans_table.cc:43-54 | A live entry shifts if and only if its state changes; a freed entry leaves the index; index and queues stay coherent |
| TranslationTables.LookupOk | addr_trans_table.cc:12-25 | A lookup never fails and keeps index and queues coherent |
| VersionBuffers.AllocStep | version_buffer.cc:8-15 | Allocation succeeds if and only if fewer slots are taken than there are, and hands out the lowest free slot |
| VersionBuffers.BackupStep | version_buffer.cc:26-35 | A backup succeeds if and only if the slot is in use, and moves it to the chosen generation |
| VersionBuffers.ReleaseStep | version_buffer.cc:17-24 | A release succeeds if and only if the slot is in use |
| VersionBuffers.ClearBackupStep | version_buffer.cc:37-54 | ClearBackup always meets its size assertion and keeps the four sets a partition |
| VersionBuffers.PartitionCardinality | version_buffer.cc:52-53 | The sizes of the four slot sets add up to the length |
| IndexQueues.IndexQueue.Remove | index_queue.cc:8-31 | Unlinking removes exactly that index, clears its links, and touches no node outside the queue |
| IndexQueues.IndexQueue.PushBack | index_queue.cc:33-46 | Linking appends the index and touches no node outside the queue |
| IndexQueues.IndexQueue.PopFront | index_queue.h:75-80 | The front index, or none, is unlinked; the rest keeps its order |
| IndexQueues.IndexQueue.Walk | index_queue.cc:48-56 | With a visitor that leaves the queue alone, following the links from the front visits the contents in order and returns their number; the walks with the two visitors that change the queue are CleanEntries and RevokeLoans |
| AddrTransTables.AddrTransTable.Lookup | addr_trans_table.cc:12-25 | On the linked queues: a hit becomes the most recent of its queue, with all four queues still threaded through the shared nodes |
| AddrTransTables.AddrTransTable.Setup | addr_trans_table.cc:27-41 | On the linked queues: the first free entry is moved to the queue of its new state |
| AddrTransTables.AddrTransTable.ShiftState | addr_trans_table.cc:43-54 | On the linked queues: the entry is moved to the back of the queue of its new state |
| QueueWalks.CleanedQueue | addr_trans_controller.cc:211-224 | A visit of the first dirty entry, which may append it to the same queue, ends with exactly that entry gone from the queue |
| AddrTransControllers.AddrTransController.CleanEntries | addr_trans_controller.cc:360-362 | Following next links, read before each visit, through a queue the visits change does what visiting the original queue in order does |
| AddrTransControllers.AddrTransController.RevokeLoans | addr_trans_controller.cc:313-315 | The same of the walk over the loan queue |
| AddrTransControllers.AddrTransController.EvictBlocks | addr_trans_controller.cc:263-297 | The loop over a page's blocks computes the recursive specification |
| AddrTransControllers.AddrTransController.ExchangePages | addr_trans_controller.cc:322-339 | The first migration loop, with its break and return, computes the recursive specification and ends |
| AddrTransControllers.AddrTransController.ReturnPages | addr_trans_controller.cc:342-353 | The do-while loop, with its continue and break, computes the recursive specification and ends; which pages that returns, and when it may stop, is MigrateRebalances |
| MigrationControllers.MigrationController.GatherPages | migration_controller.cc:44-60 | The loop over the table computes the collection by page whose contents CollectCredits gives |
| MigrationControllers.MigrationController.FillNvmPageHeap | migration_controller.cc:12-24 | The loop over the hash table, in any order, fills the heap along that order and totals its writes |
| MigrationControllers.MigrationController.FillDramPageHeap | migration_controller.cc:26-41 | The same for the pages in DRAM, with the dirty count as asserted |
| MigrationControllers.MigrationController.ExtractNvmPage | migration_controller.cc:67-78 | None if and only if the heap is empty; otherwise a page of the heap with at least the dirty blocks of every other, and the heap loses exactly that one |
| MigrationControllers.MigrationController.ExtractDramPage | migration_controller.cc:80-91 | None if and only if the heap is empty; otherwise a page of the heap taken by clean before dirty, then direct before static, then fewer writes first, and the heap loses exactly that one |
| MemoryDrivers.SimpleMemory.Read | gem5-stable/src/mem/simple_mem.cc:194-199 | A read outside a freeze returns the byte last written there, whatever the controller did since, and leaves the controller as that one load does |
| MemoryDrivers.SimpleMemory.Write | gem5-stable/src/mem/simple_mem.cc:201-226 | A write is served if and only if the memory is not frozen and Probe answers REG_WRITE, and then does to the controller exactly that store; it starts a freeze if and only if Probe answers NEW_EPOCH, after pages moved by its two ratios as MigrateRebalances states; otherwise it changes nothing. The client's memory changes only when it is served |
| MemoryDrivers.SimpleMemory.Freeze | gem5-stable/src/mem/simple_mem.cc:293-336 | The freeze event meets its counter assertions, begins the checkpoint, ends it at once if and only if there is nothing to flush, does nothing else, and leaves the client's memory unchanged. For the retry it sends last: with blocks to flush Probe admits every write if and only if the table has entries, otherwise exactly those that FinishAdmits gives |
| MemoryDrivers.SimpleMemory.Unfreeze | gem5-stable/src/mem/simple_mem.cc:338-360 | The unfreeze event ends the checkpoint, changing nothing but the ages of NVM slots, and leaves the client's memory unchanged |
| RedBlackTrees.RedBlackTree.Insert | benchmarks/rb_tree/red_black_tree.c:224-278 | The tree stays a red-black search tree; the new node stands after all keys not greater and before all greater ones, the others keep their order |
| RedBlackTrees.RedBlackTree.Delete | benchmarks/rb_tree/red_black_tree.c:581-630 | The tree stays a red-black search tree and exactly the given node leaves it, also when its successor is spliced out and takes its place after the fix-up |
| RedBlackTrees.RedBlackTree.DeleteFixUp | benchmarks/rb_tree/red_black_tree.c:502-562 | From a subtree one black node short the result is a red-black tree with the same items in the same order, with the root read only once, before the rotations |
| RedBlackTrees.RedBlackTree.InsertFixUp | benchmarks/rb_tree/red_black_tree.c:235-277 | From a tree whose only fault is one red node under a red parent the result is a red-black tree with the same items in the same order |
| RedBlackTrees.RedBlackTree.Rotate | benchmarks/rb_tree/red_black_tree.c:68-157 | In place, with every parent link right: the subtree becomes its rotation, cells outside the tree are untouched |
| RedBlackTrees.RedBlackTree.Successor | benchmarks/rb_tree/red_black_tree.c:294-313 | The next node in order, or nil for the last |
| RedBlackTrees.RedBlackTree.Predecessor | benchmarks/rb_tree/red_black_tree.c:329-348 | The previous node in order, or nil for the first |
| RedBlackTrees.RedBlackTree.ExactQuery | benchmarks/rb_tree/red_black_tree.c:467-483 | A node with the key whose subtree holds all such nodes, or none if no node has it, after at most twice the binary logarithm of n + 1 steps in a tree of n nodes |
| RedBlackTrees.RedBlackTree.Enumerate | benchmarks/rb_tree/red_black_tree.c:644-664 | The stack holds exactly the nodes with keys in the closed range, in order from its top |
| SearchTrees.HeightBound | benchmarks/rb_tree/red_black_tree.c:467-483 | The colour and level invariants that insertion and deletion keep bound the height, and so the search loop: a tree of n nodes is at most twice the binary logarithm of n + 1 high |

## Findings

- Probe asks the ATT for the byte address itself, while the index holds tags, which are addresses without their
  block bits (addr_trans_controller.cc:171 and 176, addr_trans_table.h:107-110). Taken literally, its REG_WRITE is
  not sound. `LiteralProbeFails` gives a run: one store to address 4 of a controller with 2-byte blocks and one ATT
  entry; then Probe at address 2 takes the address for the live tag 2, answers REG_WRITE, and the store to block 1
  fails an assertion. `LiteralProbeSound` gives the exact condition in every reachable state: after a literal
  REG_WRITE the store fails if and only if the address is a live tag, its block has no entry, the free and clean
  queues are empty, and, unless checkpointing, the page is in NVM and there is no loan. `ProbeSound`
  and the driver use Probe by tag. Runs allow every store that has room (`HasRoom`, `StoresComplete`), so the other
  results cover every store that completes, however Probe was asked.
- The limit on pages returned to NVM is the capacity of the PTT beyond its length, a 16th of the length rounded
  down, and is tested after each move (addr_trans_controller.cc:341-353). With fewer than 16 pages it is zero, and
  the loop then decrements past it. `ReturnBoundExact` gives the exact condition, `ReturnLimitExceeded` a run that
  exceeds the limit, `MigrationBound` the bound for 16 pages and more.
- The driver answers NEW_EPOCH by migrating and beginning a checkpoint, and retries the write at the end of the freeze
  event (gem5-stable/src/mem/simple_mem.cc:326-335). With nothing to flush the checkpoint is then already over, and a
  page table of length zero, which the default DRAM size of the repository's script gives
  (gem5-stable/configs/thnvm-se.py:121-122), makes Probe answer NEW_EPOCH again, since zero dirty pages are not fewer
  than zero (addr_trans_controller.cc:181-183). `RefusedAgain` gives the run, `BeforeAnyStore` shows that this goes
  on for as long as nothing is flushed, and `RetryAdmitted` gives the exact condition: the retry is let through if and only if the ATT has entries and
  either the checkpoint is still under way or the PTT has pages.
- A second store to a block on loan, while checkpointing, asks for the write latency of the physical address as one in
  the DRAM buffer (addr_trans_controller.cc:64), which fails the assertion at gem5-stable/src/mem/simple_mem.cc:399.
  The store itself goes where it should. `LoanChargeFails` gives the run, and `ChargesExact` shows that in reachable
  states this is the only access that does. These assertions belong to the latency model, which is otherwise left
  out: the runs of the other results go on after such a store.
- A clean static page becomes dirty direct and a clean direct page dirty static on its first write
  (addr_trans_controller.cc:198-204), while a begin keeps it direct or static. The model follows the code: `PageFates`
  shows that a resident page therefore turns from one to the other with every epoch in which it is written, and
  `MigrateRebalances` that direct pages are the first to be returned.
- RBDeleteFixUp reads the root once, before its rotations, and compares against it afterwards
  (benchmarks/rb_tree/red_black_tree.c:502-562). `DeleteFixUp` shows that this is harmless: the loop ends with a
  red-black tree all the same.

## Left out

- Addresses are block numbers plus offsets and do not overflow; the physical range is a whole number of blocks and
  holds the page frames of the PTT.
- Iteration orders of the hash tables are parameters of a migration, so results hold for every order. Of equal
  heap elements the model takes the first, where the standard library's heap may take another.
- Ratios are exact reals, compared as block counts (`RatioCounts`); rounding of doubles is not modelled.
- Runs call MigratePages at most once per epoch and BeginCheckpointing only with no loan outstanding, as the driver
  does: it migrates, which revokes the loans, and serves no write before the begin.
- A fresh ATTEntry has no initial state in the source; the model starts entries as FREE, which is the queue they are
  put in.
- Pages in DRAM are written in place, in the frame they are mapped to, so an image covers the blocks of pages in NVM;
  write-back of pages is only the timing of `ckpt_blocks`, which is not modelled.
- SwapReq packets and functional writes, which go through LoadAddr.
- Profiler, latencies (other than the address assertions of `Latency`), banks and bus utilisation; whether blocks remain to be flushed is a parameter of `Freeze`.
- The dirty_nvm_blocks, dirty_nvm_pages and dirty_dram_pages statistics.
- Checks compiled only for debugging, other than the shadow memory comparison.
- RedBlackTrees.RedBlackTree.Insert: keys are integers compared directly; the comparison callback, info pointers, and
  freeing nodes are not modelled. A deleted cell keeps its index and is never reused.
- Left and right forms of the tree code are one method with a side parameter; printing and destroying a tree are not
  modelled.
- AddrTransControllers.AddrTransController.StoreBlock: the remaining handlers of this class (entry transitions, loads,
  stores, begin, finish) have no row, because each restates the function it refines; the results about them are the
  lemmas on those functions.
