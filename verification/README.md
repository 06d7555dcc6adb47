# Index structures, allocators, scheduler and device rings of an SMP kernel

This project models the parts of the kernel on which the rest stands, in layers, and proves what
they promise over every input and every run.

- **Red-black tree** (`rbshape.dfy`, `rblinks.dfy`, `rbtree.dfy`). Nodes are objects whose `left`,
  `right`, `par` and `black` fields the methods rewrite. A ghost shape says how the nodes hang together,
  and a zipper (`Ctx`) describes the way from any node to the root, so that each round of the two fix-up
  loops is a local change. The packed word `unionParCol` is two fields. Every comparator of the kernel
  compares one or two integers; a key is such a pair. The scheduler rewrites keys of nodes that are in a
  tree, so links, colours, the set of nodes and the cached left are treated without asking that the keys
  are in order, and what order adds is stated beside it. Line 221 of `kernel/lib/rbtree.c` never fires
  and has no counterpart.
- **mmap region manager** (`mmapspec.dfy`, `mmap.dfy`), a client of the tree. Addresses are 64-bit words
  and additions wrap. The object remembers its calls, and its blocks are what they leave.
- **Buddy allocator** (`buddyspec.dfy`, `buddytrees.dfy`, `buddyforest.dfy`, `buddyinit.dfy`,
  `buddy.dfy`, `buddylaws.dfy`, `powers.dfy`, `products.dfy`). The state is the descriptor array, the
  bit of every pair of buddies and the free lists; a ghost tree per root says which blocks exist.
  `Valid` ties the three together: heap numbers and orders in the descriptors, a pair bit that is set
  exactly when one of the two is a whole free block, lists that hold exactly the free blocks, and
  `totUsage` as the bytes in allocated blocks. `Clean` adds that no page carries a stale mark of an
  allocated block, and every method keeps it. Pages are named by frame numbers; `zones.dfy` shows that
  inside a zone this is the same as pointer arithmetic on descriptors.
- **Page-table frame cache** (`tblcache.dfy`), a client of the buddy allocator that divides allocated
  groups without telling it and later frees single frames. `Marked` adds that every managed page marked
  as a page table is one in use.
- **Slab allocator** (`slabspec.dfy`, `slab.dfy`), another client of the buddy allocator, and the
  private objects of a process (`records.dfy`), recorded in a red-black tree whose records are slab
  objects themselves. `memory.dfy` puts cache, slab allocator and processes over one buddy allocator:
  they stay right in whatever order their functions are called.
- **Scheduler and wait protocol** (`schedspec.dfy`, `schedinv.dfy`, `schedruns.dfy`, `schedwake.dfy`,
  `schedfair.dfy`, `schedtidy.dfy`, `schedlaws.dfy`, `sched.dfy`, `runtree.dfy`). A state machine whose
  steps are what one CPU does without another being able to tell its parts apart: an atomic instruction,
  one test of a shared counter, or work on the CPU's own lists. `sched.dfy` has the functions as code
  over arrays and proves that they do these steps; `schedlaws.dfy` says what the steps do to states,
  counters, lists and messages without naming their definitions. The run tree appears as the sequence of
  its nodes and its cached left, in every state: waking a thread that already runs rewrites its key in
  place and leaves the tree out of order. While the tree is in order, a thread is inserted at its sorted
  place; while it is not, the place depends on the tree's shape and is any place at all (the step `Stir`
  says which). `runtree.dfy` shows that the linked tree does exactly this.
- **Generation-bit rings** (`ringspec.dfy`, `rings.dfy`): the xHCI transfer and event rings (sections
  4.9.2 and 4.9.4 of the xHCI 1.1 specification) and the NVMe completion queue (section 4.6 of NVMe
  1.4).
- **Lists and options** (`sequences.dfy`, `wrappers.dfy`) are shared by all of them.
- **Interrupt vectors** (`intr.dfy`), **HID report parser** (`hidspec.dfy`, `hid.dfy`) and **CRC-32**
  (`crc.dfy`, `crcdetect.dfy`). `hidtrip.dfy` defines descriptors on its own, as trees of fields and
  collections written out by section 6.2.2 of the HID 1.11 specification, with every item's first byte
  as that section gives it, and proves that parsing undoes writing.

Throughout, a region under a spinlock with interrupts masked is one atomic step, and a bitmap word
is a run of its bits. Where the kernel spins for ever because memory is exhausted or a pointer is
bad, the method returns `None` or `false`. Inductions are written out: `{:induction false}` stands on
the lemmas to which Dafny would otherwise apply induction of its own.

## What turned out false, and the exact conditions

- *Wakeups.* With two requests of one thread outstanding, both finishers may decrement before either
  tests; each then reads a negative counter and nobody wakes the sleeper. `SchedWake.BothTestsTooLate`
  is that run, and `SchedWake.LostExactlyWithTwo` says that no run loses a wakeup if and only if threads
  keep to one outstanding request.
- *Full test of the transfer ring.* The test counts the slot of the link. `RingSpec.OneTooMany` is a run
  that it lets through and that hides an entry; `RingSpec.QueueExactly` says that the ring is a queue in
  all runs if and only if at most `size - 1` entries are outstanding.
- *mmap.* Wrapping additions let some requests overlap other blocks. `MmapSpec.RunGuardExact` says that
  a call keeps the blocks non-empty, disjoint and in user space after every run of guarded calls, if and
  only if its hint and size meet the guard themselves; `MmapSpec.GuardExact` says so for any list.
- *Large mmap requests.* The increment of the `for` loop discards the aligned address that the body
  computed, so 2M alignment is lost after a block with a 4K end. `MmapSpec.LargeAligned` says for
  exactly which lists of blocks large requests always come out aligned.
- *Run tree.* Once a key was rewritten in place, an insertion can leave a cached left that is not the
  first node: `RunTrees.StaleLeft` on the linked tree, and `SchedTidy.StaleRun` is a run of the whole
  state machine from boot. `RBTrees.RBTree.Ins` says exactly when that happens: if the new key is less
  than that of the old left, but not less than every key on the way from the root down the left side.
  `SchedTidy.TidyRun` says for all runs that only waking a thread of the tree brings it about: every
  other step keeps the tree in order and its left right.
- *Event rings and completion queues.* They have no test of their own. `RingSpec.FeedExactly` says that
  the driver takes every entry once and in order, in all runs, if and only if the controller keeps at
  most as many entries outstanding as there are slots; `RingSpec.Overrun` is a run beyond that.
- *Slab.* Freeing an address in a slot that nobody holds breaks counters or headers:
  `SlabSpec.ClearedExact`, and if the block is given back then, something in it is still in use:
  `SlabSpec.ReleasedInUse`. *Interrupt vectors.* The same for vectors that are not in use:
  `Intr.Vectors.Free`.
- *HID values.* A value that reaches into a fifth byte is cut off: `Hids.SliceExactly`. *HID usages.* A
  usage range that ends at 0xffffffff is never accepted, since the counter starts over at 0:
  `HidSpec.AddUsagesOk`.

## Model

| member | source | states |
|---|---|---|
| RBTrees.RBTree.constructor | kernel/lib/rbtree.c:51-56 | an empty valid tree |
| RBTrees.RBTree.RotLeft | kernel/lib/rbtree.c:20-30 | the rotation rewrites exactly the links of the node, its right child, that child's left child and the parent |
| RBTrees.RBTree.RotRight | kernel/lib/rbtree.c:32-42 | its mirror image |
| RBTrees.RBTree.RotLeftAt | kernel/lib/rbtree.c:20-30 | on any place of any linked tree, those link changes turn the subtree's shape into the rotated one and leave the rest as it is |
| RBTrees.RBTree.RotRightAt | kernel/lib/rbtree.c:32-42 | the same for the mirror image |
| RBShape.RotInOrder | kernel/lib/rbtree.c:20-42 | a rotation keeps the in-order sequence |
| RBTrees.RBTree.LinkNode | kernel/lib/rbtree.c:44-49 | a new red leaf in an empty place: tree links and node set afterwards |
| RBTrees.RBTree.Descend | kernel/includes/lib/rbtree.h:40-47 | the walk ends at an empty place, and in a tree in order at the one behind every node that is not greater and before every node that is |
| RBTrees.RBTree.FixAfterIns | kernel/lib/rbtree.c:58-103 | from a red leaf under a possibly red parent to a red-black tree with the same in-order sequence; it terminates |
| RBShape.InsRecolour | kernel/lib/rbtree.c:64-72 | with a red uncle, recolouring moves the one violation two levels up |
| RBShape.InsInner | kernel/lib/rbtree.c:73-77 | an inner node becomes an outer one by one rotation |
| RBShape.InsOuter | kernel/lib/rbtree.c:78-80 | an outer node is settled by one rotation |
| RBTrees.RBTree.Ins | kernel/lib/rbtree.c:105-117 | insertion into any linked tree, in order or not, keeps links and balance and adds exactly this node, where the walk over the keys ends; the cached left moves to it if it compares as less, and stays the first node if and only if a key less than that of the old left is also less than every key down the left side. In a tree in order the node goes just before the first node it is strictly less than, and the cached left is right |
| RBTrees.RBTree.FixAfterDel | kernel/lib/rbtree.c:119-180 | from a subtree one black node short to a red-black tree with the same in-order sequence; it terminates |
| RBShape.DelRedSibling | kernel/lib/rbtree.c:124-129 | a red sibling is raised, and the shortage stays where it is with a black sibling |
| RBShape.DelBlackNephews | kernel/lib/rbtree.c:130-134 | with black nephews the shortage moves up to the parent |
| RBShape.DelNearNephew | kernel/lib/rbtree.c:136-142 | a red near nephew becomes the sibling, with a red far nephew |
| RBShape.DelFarNephew | kernel/lib/rbtree.c:143-148 | with a red far nephew one rotation ends the shortage |
| RBTrees.RBTree.TakeSuccessor | kernel/lib/rbtree.c:188-212 | the successor leaves its place and takes over place, links and colour of the deleted node |
| RBTrees.RBTree.Del | kernel/lib/rbtree.c:182-225 | deleting any node of any linked tree keeps links and balance; the sequence loses exactly that node, and the cached left, if it was that node, moves to the one behind it or null, so that a right one stays right |
| RBTrees.RBTree.GetNext | kernel/lib/rbtree.c:233-243 | the node behind this one in the in-order sequence, null after the last |
| RBTrees.RBTree.Walk | kernel/lib/rbtree.c:233-243 | starting at the cached left, repeated calls visit exactly the in-order sequence, each node once, and end with null |
| RBTrees.RBTree.GetRight | kernel/lib/rbtree.c:227-231 | the last node of the sequence |
| RBTrees.RBTree.FindFloor | kernel/includes/lib/rbtree.h:51-64 | null if every key is above the wanted one; otherwise a node not above it, such that every greater node is |
| RBShape.HeightBound | kernel/lib/rbtree.c:58-225 | a red-black tree of n nodes has height at most 2 log2(n + 1) |
| RBShape.WalkBound | kernel/includes/lib/rbtree.h:40-62 | so has every walk down from the root, like those of find and insert |
| Mmap.MapInfo.constructor | kernel/mm/mgr.c:15-31 | no blocks are mapped at first |
| Mmap.MapInfo.FindMap | kernel/mm/mgr.c:60-69 | the tree walk finds the first block, in order of ends, that ends above the address |
| Mmap.MapInfo.FindPlace | kernel/mm/mgr.c:86-95 | the loop over tree searches stops where the naive search over the list of blocks stops |
| Mmap.MapInfo.Map | kernel/mm/mgr.c:80-116 | result and new list of blocks for every hint and size, wrapping included: exactly one block more, with the start, end, size class and physical address of the request; the blocks are what the calls so far leave, and a guarded call keeps them non-empty, disjoint, in user space and on pages |
| Mmap.MapInfo.Unmap | kernel/mm/mgr.c:118-136 | succeeds exactly if the block found has this start and end; that block alone goes, of equal ones just one, and the others stay non-empty, disjoint, in user space and on pages |
| MmapSpec.RunNeat | kernel/mm/mgr.c:80-136 | after every run of guarded mappings and any unmappings the blocks are non-empty, disjoint, below the user limit and on page boundaries |
| MmapSpec.RunLowest | kernel/mm/mgr.c:86-99 | after every such run a guarded request lands at the lowest address at or above the hint where it fits, page-aligned, and fails exactly when there is none |
| MmapSpec.RunGuardExact | kernel/mm/mgr.c:80-136 | a call leaves the blocks so after every such run if and only if it is guarded |
| MmapSpec.GuardExact | kernel/mm/mgr.c:83-105 | blocks on page boundaries stay non-empty, disjoint, below the user limit and on page boundaries for every such list of blocks, if and only if hint and size meet the guard |
| MmapSpec.UnmapExact | kernel/mm/mgr.c:123-124 | the test succeeds if and only if that very block is mapped |
| MmapSpec.MapThenUnmap | kernel/mm/mgr.c:80-136 | unmapping what was just mapped finds it and restores the list |
| MmapSpec.LargeAligned | kernel/mm/mgr.c:79-95 | large requests always come out 2M-aligned if and only if every block followed by a gap of 2M ends on a 2M boundary |
| Zones.GetDesc | kernel/mm/mm.c:129-137 | the descriptor of the page's zone; null exactly if no zone holds the address |
| Zones.GetPhyAddr | kernel/mm/mm.c:139-147 | the page-aligned address whose descriptor this is; 0 if it is in no array |
| Zones.AddrAgain | kernel/mm/mm.c:129-147 | the address of the descriptor of a page is that page's address |
| Zones.DescOnce | kernel/mm/mm.c:129-147 | different pages have different descriptors |
| Zones.Moves | kernel/mm/buddy.c:33-35 | inside a zone, descriptor arithmetic is page arithmetic |
| BuddyInit.FindOrd | kernel/mm/buddy.c:59-60 | the largest naturally aligned order, at most 15, that fits before the zone's end |
| Buddies.Buddy.constructor | kernel/mm/buddy.c:37-72 | the available pages of every zone are tiled by free roots, each the largest block that may start where it does; lists in address order, all bits clear, nothing allocated |
| Buddies.Buddy.GetBit | kernel/mm/buddy.c:20-24 | for the block at the end of any path: true if it is a root, otherwise the bit of the pair that it forms with its buddy |
| Buddies.Buddy.RevBitOf | kernel/mm/buddy.c:26-31 | flips exactly the bit of the block's pair |
| Buddies.Buddy.GetBuddy | kernel/mm/buddy.c:33-35 | for the block at the end of any path: the first page of the other half of its parent |
| BuddySpec.BitTells | kernel/mm/buddy.c:148-150 | after the flip, the bit says whether the buddy is a whole free block |
| Buddies.BlockBits | kernel/mm/buddy.c:20-35 | the shifted address is the index of the block's pair, and parity of the heap number tells left from right |
| Buddies.Buddy.DivPageGrp | kernel/mm/mm.c:98-107 | two descriptors with the children's heap numbers and orders, or null for a single page |
| Buddies.Buddy.AllocPages | kernel/mm/buddy.c:89-132 | every invariant of `Valid`; fails exactly if no list of that order or above has a block; takes the first block of the first such list; exactly one block more is allocated; no allocated descriptor changes; no stale mark of an allocated block is left on any page |
| Buddies.Buddy.FreePages | kernel/mm/buddy.c:134-174 | every invariant of `Valid`; exactly that block is no longer allocated, it is merged as far up as buddies are free; other descriptors stay; a pointer to a managed page that heads no allocated block is refused, since no stale marks are left |
| Buddies.Buddy.Divide | kernel/mm/mm.c:98-107 | dividing an allocated block keeps every invariant, bits included, and leaves two allocated blocks that can be freed one by one |
| BuddySpec.DivStep | kernel/mm/mm.c:98-107 | pair bits and descriptors stay right without any bit changing |
| BuddySpec.SplitStep | kernel/mm/buddy.c:113-117 | one round of splitting keeps descriptors and bits right |
| BuddySpec.MergeStep | kernel/mm/buddy.c:147-168 | one round of merging keeps descriptors and bits right |
| BuddyLaws.PageInOneBlock | kernel/mm/buddy.c:89-174 | each managed page lies in exactly one block, free or allocated |
| BuddyLaws.AllApart | kernel/mm/buddy.c:89-174 | blocks never overlap, and none is both free and allocated |
| BuddyLaws.AllFreed | kernel/mm/buddy.c:147-169 | whenever nothing is allocated, the lists hold exactly the roots set up at boot |
| BuddyLaws.OnlyAllocatedMatters | kernel/mm/buddy.c:147-169 | the set of allocated blocks determines the state of all blocks, whatever the order of calls |
| BuddyTrees.Canonical | kernel/mm/buddy.c:147-169 | for one root: two coalesced states with the same allocated blocks are the same |
| BuddyLaws.AllocatedDescriptor | kernel/mm/buddy.c:20-35 | order and heap number in 16 bits; the address is aligned to the order |
| BuddyLaws.FreeDescriptor | kernel/mm/buddy.c:100-105 | a page on list k heads a free, aligned block of order k |
| BuddyLaws.AllocThenFree | kernel/mm/buddy.c:89-174 | freeing a block straight after allocating it restores every list, order included |
| BuddyTrees.Tiles | kernel/mm/buddy.c:89-174 | allocated and free pages of a root add up to its size |
| TblCaches.TblCache.InitCache | kernel/mm/map.c:29-34 | an empty stack gets a fresh group of 1024 tables, or nothing changes |
| TblCaches.TblCache.AllocTbl | kernel/mm/map.c:45-66 | a table that was not out before, in an allocated block of its own; counters and everybody else's blocks stay right |
| TblCaches.TblCache.FreeTbl | kernel/mm/map.c:91-117 | the table goes to the stack, or to the buddy allocator when the stack holds 1024; while no page carries a stale mark, any managed page may be given, and one that heads no table in use is refused |
| TblCaches.TblCache.SplitToTable | kernel/mm/map.c:51-53 | the splitting loop ends with a single table on top and never overflows the stack |
| TblCaches.GroupsFewer | kernel/mm/map.c:20-23 | there are never more groups than tables, at most 1024 |
| TblCaches.CacheFrame | kernel/mm/map.c:45-117 | the cache depends on its own blocks and their descriptors only |
| Memories.CacheStays | kernel/mm/map.c:45-117 | whatever keeps other clients' blocks, as every function of the slab allocator and of the process records does, keeps the cache right and its blocks its own |
| Memories.SlabsStay | kernel/mm/slab.c:136-290 | whatever keeps other clients' blocks, as every function of the cache does, keeps the slab allocator right and its page groups its own |
| Memories.Start | kernel/mm/slab.c:62-107 | succeeds exactly if the free lists hold the pages for the boot headers and a group for each class; then both clients are right, hold no block in common, and no stale marks exist |
| Memories.Memory.MmKmalloc | kernel/mm/slab.c:249-273 | an allocation for a process, shared or private, keeps both clients and the process right, at any point of any order of calls; it fails exactly as the process's own does |
| Memories.Memory.MmKfree | kernel/mm/slab.c:274-290 | likewise a release: shared exactly that object goes, private that address is no longer the process's, and nothing but its own objects go; when it tells success |
| Memories.Memory.SlabClear | kernel/mm/slab.c:292-308 | likewise the end of a process's private memory; each object is destroyed once |
| Memories.Memory.AllocTbl | kernel/mm/map.c:45-66 | a new table keeps both clients right and every slab object held; none exactly if the stack is empty and no group is left |
| Memories.Memory.FreeTbl | kernel/mm/map.c:91-117 | for any managed page: accepted exactly if it heads a table in use, and both clients stay right |
| Slabs.SlabAlloc.Init | kernel/mm/slab.c:62-107 | succeeds exactly if the free lists hold eight pages for the headers and sixteen groups; then one empty block per class, its header in memory of its own |
| Slabs.SlabAlloc.BootPages | kernel/mm/slab.c:66-75 | the headers need 2^3 pages |
| Slabs.SlabAlloc.NewSlabBlk | kernel/mm/slab.c:136-174 | a block with free slots joins the class, no object of a client changes, other large classes are untouched, and blocks of other users of the page allocator stay with their descriptors; for every class, takes exactly as many groups as slots and header need, and fails exactly if fewer are left; the recursion ends |
| Slabs.SlabAlloc.FreeSlabBlk | kernel/mm/slab.c:176-185 | the empty block leaves its class, its header's slot is freed, no object of a client changes, and blocks of other users of the page allocator stay; the code tells success exactly unless the header of a large class is one from boot; the recursion ends |
| Slabs.SlabAlloc.Kmalloc | kernel/mm/slab.c:187-220 | exactly one object more, of the smallest sufficient class; counters match bitmaps; for every class, the groups taken are exactly those a block needs if the class was full, and failure exactly if they cannot be had; blocks of other users of the page allocator stay with their descriptors |
| BuddyLaws.RoomAfter | kernel/mm/buddy.c:100-118 | counting the blocks of an order that the free lists could still give, split or not: every allocation takes exactly one |
| BuddyLaws.RoomAbove | kernel/mm/buddy.c:100-118 | and of any larger order one if it had to split a block at least that large, otherwise none |
| Slabs.FreeSlot | kernel/mm/slab.c:209-216 | the scan over full words always ends at the lowest free slot, so the endless loop behind it is never reached |
| Slabs.FirstWithFree | kernel/mm/slab.c:191-195 | a positive class counter means that some block has a free slot; the first one is found |
| Slabs.SlabAlloc.FindBlk | kernel/mm/slab.c:225-234 | the block that covers the address; none only if no block does |
| Slabs.SlabAlloc.Kfree | kernel/mm/slab.c:222-247 | whatever address inside a held object is given, exactly that object goes; its block is given back only if empty, not the last, and with half its slots' number still free in the class, and kept only if one of the conditions fails; an address that no block covers is refused; blocks of other users of the page allocator stay |
| Slabs.SlabAlloc.MmKmalloc | kernel/mm/slab.c:249-262 | shared objects are at least as large as asked for, in the smallest such class; failure exactly if the size is too large, or the class is full and cannot grow |
| Records.TaskMem.FindRecord | kernel/mm/slab.c:45-54 | the walk finds the record of this very address, and none exactly if there is none |
| Records.TaskMem.AddRecord | kernel/mm/slab.c:34-43 | succeeds exactly if there is memory for a record: one object more for it, and the address enters the tree; otherwise nothing changes |
| Records.TaskMem.MmKmalloc | kernel/mm/slab.c:249-273 | shared: one object more, and failure exactly as above; private: the object and its record, and failure exactly if the object cannot be had or, once it is taken, the record cannot, where both may want slots of one class or the last groups of pages; everything is then as before |
| Records.TaskMem.MmKfree | kernel/mm/slab.c:274-290 | private: an address without a record is refused and changes nothing, any other loses object and record; shared: exactly the object that holds the address; for both, exactly when success is told |
| Records.TaskMem.Clear | kernel/mm/slab.c:292-308 | the loop ends with exactly the process's private objects and their records freed, and each object's destructor called once |
| Records.OthersRecords | kernel/mm/slab.c:34-60 | whatever happens to objects that are not a process's own leaves its records right |
| SlabSpec.ClearedExact | kernel/mm/slab.c:235-240 | clearing any slot of a block keeps counters, bitmaps, objects and headers in agreement if and only if the slot is in use and holds no block header |
| SlabSpec.ReleasedInUse | kernel/mm/slab.c:235-243 | if a clearing outside that condition empties the block's count, so that the block may be given back, another object or a header in it is still in use |
| SlabSpec.LiveClear | kernel/mm/slab.c:187-247 | objects and slab-allocated headers never overlap |
| SlabSpec.HeldClear | kernel/mm/slab.c:136-247 | no object of a client overlaps any block header, embedded, slab-allocated or set up at boot |
| SlabSpec.SmallHeaders | kernel/mm/slab.c:152-163 | headers of classes 5 and up take at most 320 bytes and come from classes 2 to 4 |
| SlabSpec.EmbeddedFits | kernel/mm/slab.c:144-151 | as many slots as fit beside the embedded header, at least one, and not one more; the header's bitmap is long enough |
| SlabSpec.BootTotal | kernel/mm/slab.c:66-71 | the boot-time headers take 17440 bytes |
| RunTrees.RunTree.Ins | kernel/task/schedule.c:49-54 | the linked tree does the state machine's insertion, sequence and cached left alike: at the sorted place if the tree is in order, and at some place otherwise |
| RunTrees.StaleLeft | kernel/lib/rbtree.c:105-117 | a tree of two nodes, one with its key rewritten in place, and an insertion after which the cached left is neither the first node nor the least |
| SchedTidy.StaleRun | kernel/task/schedule.c:88-124 | a run from boot, of ticks, switches, one wake of a thread in the tree and one launch, after which the cached left is neither the first thread nor the least |
| SchedTidy.StepTidy | kernel/task/schedule.c:88-235 | every step but a wake of a thread that stands in the tree keeps the tree in order and its cached left right: preemptions, other CPUs' steps and any number of ticks included |
| SchedTidy.TidyRun | kernel/task/schedule.c:88-235 | so in every run from boot without such a wake the tree is in order and its cached left is the first thread |
| SchedTidy.LeastChosen | kernel/task/schedule.c:216-232 | at every scheduling point of such a run at which no preempted thread waits, the thread that goes on has the least vRuntime of all that could |
| RunTrees.RunTree.Del | kernel/task/schedule.c:107 | the linked tree does the state machine's removal, of any thread, in order or not |
| RunTrees.RunTree.Rekey | kernel/task/inner.h:21 | rewriting a thread's key, in the tree or outside, changes the thread's run time and neither sequence nor cached left |
| SchedFair.PutTidy | kernel/task/schedule.c:49-54 | into a tree in order with the first thread as cached left, insertion adds the thread once and keeps both |
| SchedFair.InsertOrdered | kernel/task/schedule.c:49-54 | sorted insertion keeps the order by run time and pid |
| Scheds.Scheduler.constructor | kernel/task/schedule.c:56-67 | each CPU runs its boot thread, all lists empty |
| Scheds.Scheduler.SyncVRuntime | kernel/task/inner.h:21 | the thread takes over the running thread's vRuntime |
| Scheds.Scheduler.Wake | kernel/task/schedule.c:88-97 | does the step of the state machine: a sleeper leaves the sleep list, stands in the run tree once and is Idle, with the current thread's vRuntime; a thread in any other state keeps state and place; no other thread changes |
| Scheds.Scheduler.Preempt | kernel/task/schedule.c:101-117 | an idle thread or a sleeper leaves its place for the end of the preempt list; any other keeps state and place |
| Scheds.Scheduler.Launch | kernel/task/schedule.c:119-124 | a new thread stands in the run tree once and is known to the scheduler |
| Scheds.Scheduler.UpdCurThdState | kernel/task/schedule.c:69-73 | the tick's step of the state machine, with the partition kept |
| Scheds.Scheduler.HangCur | kernel/task/schedule.c:195-213 | after the test: the current thread goes to the sleep list if so decided, to the free list if it is to be freed, otherwise into the run tree as Idle; the chosen one runs |
| Scheds.Scheduler.Decide | kernel/task/schedule.c:216-232 | a thread goes on next exactly if one preempts or the tree's left has run no longer than the current one; it leaves its list and is Running, and the current one is to sleep exactly if its counter is positive and it runs no signal handler; if none goes on, the current one runs on |
| Scheds.Scheduler.TrySche | kernel/task/schedule.c:216-235 | the whole function when nothing of another CPU comes in between: `Decide` and, if a thread was chosen, `HangCur` |
| SchedLaws.ChoiceStays | kernel/task/schedule.c:195-232 | whatever other CPUs do between that test and the switch, the switch to the chosen thread, with the answer of the test, is what the CPU does next |
| Scheds.Scheduler.HandleReq | kernel/task/schedule.c:168-192 | all messages in order, each served as `SchedLaws.HandleMoves` says, then all of the free list |
| SchedLaws.WakeMoves | kernel/task/schedule.c:88-97 | in every sane state the wake step does to states, vRuntimes and lists what is said above of the method, and nothing else |
| SchedLaws.PreemptMoves | kernel/task/schedule.c:101-117 | so does the preempt step |
| SchedLaws.LaunchMoves | kernel/task/schedule.c:119-124 | and the launch step |
| SchedLaws.HandleMoves | kernel/task/schedule.c:169-185 | the first message is taken off and served by its kind, the others wait in their order |
| SchedLaws.StepAsks | kernel/task/schedule.c:127-165 | wake, preempt, launch and a finisher's send serve the thread at once on its own CPU, and from any other only add a message at the end of that CPU's mail |
| SchedLaws.MailInOrder | kernel/task/schedule.c:127-185 | in every run no message is lost or overtaken: a CPU's mail is what was there and what was posted since, in order, less as many as were handled |
| SchedLaws.StepState | kernel/task/schedule.c:88-235 | in every step exactly the thread switched away as a sleeper falls asleep, and a sleeper gets up exactly if its own CPU wakes or preempts it |
| SchedLaws.SwitchedAway | kernel/task/schedule.c:195-235 | over a whole scheduling point, with any steps of other CPUs between its parts: the thread switched away goes to the sleep list exactly if at the test its counter was positive and it was in no handler; otherwise to the free list or, once, into the run tree |
| SchedLaws.RequestsCounted | kernel/task/schedule.c:27-35 | in every run a thread's counter is its waits less the answers to it; each answer is one finisher, which is on its way, has read another value than zero, or has sent |
| SchedLaws.HandlersCounted | kernel/task/signal.c:35-40 | in every run the counter of a thread's handlers is those it entered and did not leave |
| SchedLaws.AsleepNoHandler | kernel/task/schedule.c:197 | in no run from boot does a thread sleep inside a signal handler |
| SchedLaws.StepClock | kernel/task/schedule.c:69-120 | every step advances a vRuntime by its weight at the thread's tick, sets it to that of the running thread at a wake, preemption or launch, and otherwise leaves it |
| SchedLaws.ClockCounts | kernel/task/schedule.c:69-73 | so over a run without those a vRuntime grows by the thread's weight times its ticks |
| SchedLaws.WeightsFall | kernel/task/schedule.c:8-17 | weights fall with the priority, each step by a factor between 1.2 and 1.28 (`SchedLaws.NextWeight`) |
| SchedRuns.StepSane | kernel/task/schedule.c:88-235 | no step loses or duplicates a thread, and states keep saying where threads are |
| SchedRuns.OnePlace | kernel/task/schedule.c:88-235 | in every reachable state a launched, unfreed thread is in exactly one place of its own CPU, in none of another, and its state tells which list it is on |
| SchedRuns.OnlyLaunchAdds | kernel/task/schedule.c:119-192 | only a launch adds a thread, only the loop over the free list removes one |
| SchedWake.StepWait | kernel/task/schedule.c:27-35 | every step keeps, for every thread, the counter equal to what its unanswered requests make it |
| SchedWake.NoneLost | kernel/task/request.c:12-24 | with one outstanding request per thread, in every run on any number of CPUs, a sleeper whose counter is not positive has a preempt message waiting or a finisher before its send |
| SchedWake.BothTestsTooLate | kernel/task/schedule.c:32-35 | a run with two outstanding requests that loses the wakeup |
| SchedWake.LostExactlyWithTwo | kernel/task/schedule.c:27-35 | no run loses a wakeup if and only if the limit on outstanding requests is at most one |
| SchedWake.MessageWakes | kernel/task/schedule.c:168-185 | handling the preempt message moves the sleeper to the preempt list |
| SchedFair.FairnessBound | kernel/task/schedule.c:69-73 | without preempt requests and with at most k ticks between scheduling points, vRuntimes of two runnable threads of a CPU differ by at most k times 88761 |
| SchedFair.LeastGoesOn | kernel/task/schedule.c:216-235 | at every scheduling point of such a run the thread that goes on has the least vRuntime |
| Rings.TransferRing.constructor | kernel/hardware/usb/xhci/api.c:68-102 | an empty ring with cycle bit 1 |
| Rings.TransferRing.TryInsReq | kernel/hardware/usb/xhci/api.c:116-143 | accepted exactly if the load stays within the size; then the entries are appended in order, across the link |
| RingSpec.InsertAllOk | kernel/hardware/usb/xhci/api.c:127-140 | every slot carries entry and bit of its lap, over any number of laps |
| RingSpec.FetchExact | kernel/hardware/usb/xhci/api.c:88-96 | a consumer that follows the link and its toggle finds the entry that is due, or nothing when all are taken, if and only if at most a lap is outstanding (given at most one entry more than that) |
| RingSpec.QueueExactly | kernel/hardware/usb/xhci/api.c:116-143 | in every run of inserting, taking and answering, the ring is a first-in first-out queue, if and only if at most size - 1 entries are outstanding |
| RingSpec.OneTooMany | kernel/hardware/usb/xhci/api.c:119-124 | a run that the driver's own test allows and that hides an entry |
| RingSpec.FeedExactly | kernel/hardware/usb/xhci/mgr.c:16-21 | from the zeroed ring, in every run of posting and polling, interleaved in any way, what the driver took is the first part of what was posted, in order, and it sees the next entry exactly when one is due, if and only if at most as many entries are outstanding as there are slots |
| RingSpec.Overrun | kernel/hardware/usb/xhci/mgr.c:16-21 | a run with more entries outstanding in which the driver goes wrong |
| RingSpec.SeesDue | kernel/hardware/usb/xhci/mgr.c:16-21 | one step: the expected bit shows exactly when an entry is due, and it is the right one; posting keeps this so exactly within the capacity |
| Rings.EventRing.constructor | kernel/hardware/usb/xhci/api.c:205-231 | the reader starts at the first entry of the first zeroed segment with bit 1, in step with the controller |
| Rings.EventRing.PollOne | kernel/hardware/usb/xhci/mgr.c:16-21 | one round of the loop is the driver's step of such a run, on the segments as they are then |
| Rings.EventRing.StepOn | kernel/hardware/usb/xhci/mgr.c:17-21 | the three increments go to the next entry of the segments laid end to end, with the bit flipped after the last |
| Rings.EventRing.Poll | kernel/hardware/usb/xhci/mgr.c:16-21 | while the controller goes on posting, within its capacity, the loop takes every event once, in order, and stops behind the last that is there at its last test |
| Rings.CompletionQueue.constructor | kernel/hardware/nvme/api.c:28-44 | the zeroed queue and its reader start in step |
| Rings.CompletionQueue.PollOne | kernel/hardware/nvme/init.c:13-15 | one round of the loop is the driver's step of such a run |
| Rings.CompletionQueue.Poll | kernel/hardware/nvme/init.c:13-15 | the loop for completions and the phase tag, likewise with entries posted while it runs |
| Intr.Vectors.constructor | kernel/hal/x86_64/interrupt/interrupt.c:94-100 | vectors 64 to 127 are free, no run is handed out, and the counts say so |
| Intr.Vectors.BestCpu | kernel/interrupt/intr.c:35-38 | the first CPU with the most free vectors |
| Intr.Vectors.FindRun | kernel/interrupt/intr.c:43-54 | the scan that skips finds what the naive scan finds: the lowest start below 256 - num with a free run, nothing only if there is none |
| Intr.Vectors.Alloc | kernel/interrupt/intr.c:32-69 | that run on that CPU, exactly those bits set, counts equal to the clear bits; as long as only runs handed out are freed, runs lie in 64 to 127 and do not meet, and it fails exactly if no run of that length is free at any start |
| Intr.Vectors.Free | kernel/interrupt/intr.c:71-81 | for any run: exactly those bits cleared, the counts changed by its length as 32-bit words; masks and counts go on agreeing if and only if all vectors of the run were in use, as they are for a run handed out |
| Intr.Vectors.AllocThenFree | kernel/interrupt/intr.c:32-81 | masks and counts are as before |
| Intr.RunNeedsFree | kernel/interrupt/intr.c:39-42 | the early test on the count turns no possible request away |
| Intr.FreeUndoes | kernel/interrupt/intr.c:60-75 | clearing the run restores the mask |
| Intr.NoneMissed | kernel/interrupt/intr.c:43-54 | the start 256 - num, which the scan leaves out, is never that of a free run while the vectors are accounted for |
| HidSpec.FetchEncode | kernel/hardware/hid/parse.c:77-118 | fetching undoes encoding, for every short item with a tag below 15 |
| HidSpec.EncodeFetch | kernel/hardware/hid/parse.c:77-118 | and encoding undoes fetching |
| HidSpec.SignedRange | kernel/hardware/hid/parse.c:67-75 | the signed reading is the data modulo its size, within the signed range of that size |
| HidSpec.AddFieldOk | kernel/hardware/hid/parse.c:355-422 | a field is laid behind the fields of its report; an accepted one keeps the report within 131064 bits |
| HidSpec.StepGoing | kernel/hardware/hid/parse.c:120-450 | every accepted item keeps layout, stacks and limits |
| HidSpec.ParseGoing | kernel/hardware/hid/parse.c:451-474 | after any descriptor the fields of each report are in order, disjoint and inside it, and no report of an accepted one exceeds 131064 bits |
| HidSpec.ValuesFill | kernel/hardware/hid/parse.c:505-506 | the values of a field are disjoint and fill exactly its bits |
| Hids.HidParser.constructor | kernel/hardware/hid/parse.c:16-29 | no reports, and every limit kept: the state from which `HidTrip.RoundTrip` starts |
| Hids.HidParser.Parse | kernel/hardware/hid/parse.c:451-474 | the loop ends on every input, with the result of parsing item by item |
| HidTrip.RoundTrip | kernel/hardware/hid/parse.c:77-474 | for any tree of collections and fields, with any type, id, size, count, limits, unit, usages (listed, a range, or delimited sets) and flags, written in any nesting of Push and Pop scopes and in short or full items: parsing its bytes gives exactly those collections and reports, fields in order at their offsets, each with its own values, and nothing else |
| HidTrip.ItemAccepted | kernel/hardware/hid/parse.c:120-450 | for every main, global and local item: accepted if and only if its listed condition holds (stack depths, sizes, counts, ids, ranges, room in the report) |
| Hids.HidParser.AddUsageRange | kernel/hardware/hid/parse.c:245-249 | the loop over a usage range with its 32-bit counter, up to the limit on usages; it ends on every range |
| HidSpec.AddUsagesOk | kernel/hardware/hid/parse.c:245-249 | a range is accepted, and then added as a whole, if and only if it is empty, or fits and does not end at 0xffffffff |
| Hids.UDataIsSlice | kernel/hardware/hid/parse.c:505-510 | bit k of the value is the report's bit at the value's offset plus k, and the rest is zero, for every value that lies in the report and in four bytes, whatever follows the report |
| Hids.SDataIsSlice | kernel/hardware/hid/parse.c:512-519 | the same slice with its top bit repeated upward |
| Hids.SliceExactly | kernel/hardware/hid/parse.c:505-510 | for sizes 1 to 31 the value is the slice for every report that holds it and whatever follows, if and only if offset mod 8 plus size is at most 32 |
| Crc.InitTable | kernel/lib/crc32.c:25-34 | entry i is eight shift steps from i; which steps these are, `CrcDetect.Residue` tells |
| Crc.ShiftsLinear | kernel/lib/crc32.c:14-17 | any number of shift steps is linear over exclusive or |
| Crc.EightShifts | kernel/lib/crc32.c:36-38 | eight steps are a table look-up of the low byte and a shift of the rest |
| Crc.ByteSame | kernel/lib/crc32.c:36-38 | one byte by table or bit by bit |
| Crc.FoldSame | kernel/lib/crc32.c:36-38 | for every byte sequence the table-driven fold is the bit-by-bit one |
| Crc.WordsSame | kernel/lib/crc32.c:40-45 | four bytes at a time in little-endian order make no difference |
| Crc.Ieee802 | kernel/lib/crc32.c:10-20 | the loop computes the complement of the bit-by-bit fold from all ones |
| CrcDetect.FoldBits | kernel/lib/crc32.c:12-18 | the fold over bytes is the register fed with the message's bits, low bit first |
| CrcDetect.BytesWhole | kernel/lib/crc32.c:10-20 | the four bytes of a word make it up |
| CrcDetect.BurstDetected | kernel/lib/crc32.c:10-20 | any two messages of one length that differ, but only within 32 consecutive bits, have different checksums |
| CrcDetect.Residue | kernel/lib/crc32.c:10-20 | for every message, the register after it and its checksum in little-endian order is 0xdebb20e3 |
| CrcDetect.CheckValue | kernel/lib/crc32.c:10-20 | the checksum of the digits 1 to 9 is 0xcbf43926 |

## Left out

- Buddies.Buddy.constructor: zone discovery and the pages that hold the bitmaps (`mm_init`,
  `mm_init_allocPage`) come in as the zones' first available pages; of the descriptors inside blocks
  only what the allocator writes is known.
- Buddies.Buddy.FreePages: asks that the page is a managed one, or heads an allocated block if it is
  marked so. The pages that `mm_init_allocPage` takes at boot carry both marks and lie in no root.
- Buddies.Buddy.DivPageGrp: descriptors are reached by frame number, inside one zone.
- BuddySpec: unlinking from a free list is removal from a sequence; the links themselves are not
  modelled.
- RBTrees.RBTree.Ins: the comparators are taken as less-than on pairs of integers.
- Mmap.MapInfo.Map: the memory for a block is always there; the kernel does not test for it either.
- Mmap.MapInfo.Unmap: the release of pages and mappings in `_delMap` is not modelled.
- MmapSpec.GuardExact: sizes are whole pages, as `mm_mmap` makes them.
- TblCaches.TblCache.AllocTbl: the table's zeroed contents are not modelled. In `_initCache` the
  counters are set before the allocation, which nobody can observe.
- Slabs.SlabAlloc.NewSlabBlk: when the header of a block cannot be had, its page group stays
  allocated, as in the kernel.
- Records.TaskMem.Clear: what destructors do; they are taken to leave slabs and records alone.
- Records.TaskMem.MmKfree: a shared release of an object that is recorded as private.
- Slabs.SlabAlloc.Kfree: what is freed is an address in a held object, or one that no block covers.
  What any other address does is `SlabSpec.ClearedExact`, that the cleared slot breaks the allocator,
  and `SlabSpec.ReleasedInUse` for the release that may follow.
- Rings.TransferRing.constructor: rings of one slot, which would have room for the link only.
- Rings.TransferRing.TryInsReq: an entry's data stands for the TRB and the request recorded beside
  it; matching an event to its request by address (`hw_usb_xhci_response`) appears as the answer
  step, which lowers the load.
- TblCaches.TblCache.FreeTbl: like FreePages, nothing about pages outside the managed ones whose
  descriptors carry both bits of a table.
- Rings.CompletionQueue.Poll: the submission side and the slot-indexed command identifiers of NVMe.
- Intr.Vectors.Free: all descriptors of a run name the CPU of the first.
- SchedFair.FairnessBound: excludes waking a thread that is already in the run tree, which gives it a
  new key in place, since afterwards the cached left need not be the least.
- SchedSpec: a run of `task_sche_yield` in the wait loop, the enable flag and the per-CPU scheduling
  mask, the context switch itself and the reuse of a freed thread's memory are not modelled. Nothing
  is claimed about the end of an exiting thread, since `no_switch` overwrites its mark. Requests
  without the abort flag poll `stage` and take no part in the counter protocol.
- Scheds.Scheduler.TrySche: is `Decide` and `HangCur` with nothing of another CPU in between; what can
  come between is `SchedLaws.ChoiceStays`.
- HidSpec.ParseGoing: collection indices of usages, printing and failing memory allocations. Items
  of the reserved type 3, for which the kernel's table has no entry, end the model's parse.
- Hids.SliceExactly: fields of 32 bits, whose mask is an undefined shift in C.
- Crc.FoldSame: `crc32()`, which folds some bytes twice, and the SSE4.2 variant with its other
  polynomial.
- Page-table walking, page faults, FAT32, GPT and VFS, byte rings, soft interrupts, semaphores, boot
  code, traps, device registers, address-space switching, screen output and USB initialisation.
- Spinlock and interrupt masking mechanics.
