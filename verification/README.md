# A model of the MIPS machine, its paging kernel and its server

The repository holds a virtual machine with a TLB and an instruction cache, a small kernel that gives each process an
address space on it, and a server in which worker threads step several machines. This project models the parts with
state that is hard to keep right, and proves what they promise.

- `Heap.dfy`, `FreeList.dfy`, `HeapRuns.dfy`: the kernel heap, as a list of blocks, as header words in memory, and over
  whole runs with callers that write into what they hold.
- `Tlb.dfy`, `Frames.dfy`, `AddressSpaces.dfy`, `Isolation.dfy`, `HeapPages.dfy`: the TLB and its instructions, physical
  frames, page tables, ASIDs, all address spaces together as one transition system, and the pages of their heaps.
- `Lru.dfy`, `Machine.dfy`, `Instructions.dfy`, `PageFrames.dfy`, `Paging.dfy`, `Forks.dfy`: the LRU cache, the core and
  its cache of decoded instructions, what every instruction word does to registers and bytes, memory by frames and the
  copies fork makes, the theorem that paging cannot be seen by a program, and what forks do to everybody's pages.
- `Processes.dfy`, `Traps.dfy`, `KernelSteps.dfy`, `KernelRuns.dfy`: reference-counted process control blocks, PIDs, the
  ready queue and the trap handler, the handler together with the address spaces, and runs of it that go wrong.
- `Workers.dfy`, `WorkerQueues.dfy`, `VmOwnership.dfy`: the server's task queue, the order in which it serves, and the
  hand-over of a machine between threads, as interleavings of atomic, sequentially consistent steps.
- `UnorderedMap.dfy`, `LinkedList.dfy`, `Bits.dfy`, `Bitset.dfy`, `WebSocket.dfy`: containers and framing against the
  simple things they stand for; `Multisets.dfy`: what two of them share.

Objects whose methods change fields are classes; each such method is specified by a function on values, and the
properties are proved about those functions. Containers of nodes or buckets are fields of sequence type except for the
linked list, which keeps its nodes, and the bitset, which keeps its array. A failed kernel assertion is a `None` result
or a `halted` flag. Input and output, clocks and allocation addresses are parameters.

Places where the code does not do what it seems to intend are kept and stated, each with its exact condition and, where
it takes a run, a run that gets there: a stale `last_visited` (`RunValid`, `StaleRun`), the missing `ptr` of a split
remainder (`TakeAccepts`, `ReuseRun`), TLB entries that outlive `exec` and exit (`RunConsistent`, `ReissueRun`,
`ExecRun`), a copying loop in fork that runs on for three more frames (`ForkIsCopy`, `CallSparesExactly`,
`ForkOverwrites`), an uninitialised `brk` (every theorem holds for all its values), a `brk` that `exec` keeps although
the heap is gone (`RunHeaps`, `ForgottenRun`), a jump target of which one bit is dropped (`TargetKept`), a boost that
hides tasks from a scan (`MissedMeansBoost`, `ScanCanMiss`), a time-slice index one past its table (`QuantaIndex`,
`QuantaRun`), a second kill that drops a pointer nobody gave up (`RunCounted`, `RunReturned`, `StrayRun`), and a length
field that wraps (`ParseThrows`). The `present` flag of an entry is taken from the user flag, `emplace` on a mapped page
loses the frame just reserved (`BrkLoses`), and the dirty and writable flags are never consulted; the model does the
same.

A comment in the source has it that disconnecting could free a machine while a task steps it, but for the lock
(`network/Server.cpp:221`). `RunOneStepper` shows that the machine is safe even when the lock fails; what the lock
protects is the connection.

## Model

| member | source | states |
|---|---|---|
| `HeapBlocks.MallocShape` | kernel/SharedResources/HeapManager.cpp:17-69 | malloc keeps the shape: blocks tile the range up to the break, no two neighbours are free, the last block is busy |
| `HeapBlocks.MallocLive` | kernel/SharedResources/HeapManager.cpp:50-69 | malloc hands out one new range, 4-aligned, at least the request and less than a block more; every other live range stays as it was |
| `HeapBlocks.FreeShape` | kernel/SharedResources/HeapManager.cpp:93-105 | free keeps the shape and never raises the break |
| `HeapBlocks.FreeLive` | kernel/SharedResources/HeapManager.cpp:84-105 | free takes back exactly the range of its block, whatever it joins or releases |
| `HeapBlocks.FreeTwice` | kernel/SharedResources/HeapManager.cpp:93-105 | freeing a block that is already free leaves the block list as it is |
| `HeapBlocks.FreeUndoesMalloc` | kernel/SharedResources/HeapManager.cpp:39-105 | on the block list, releasing the block malloc just took restores the very same list, for a split, an exact reuse and an extension |
| `HeapBlocks.PayloadsDisjoint` | kernel/SharedResources/HeapManager.cpp:26-48 | headers and payloads of different blocks share no byte, and payloads are 4-aligned |
| `HeapStates.TakeValid` | kernel/SharedResources/HeapManager.cpp:50-69 | malloc keeps list, header words, head and break right if and only if it meets no stale `last_visited` on an empty list and stays below 2^32, both known before the call |
| `HeapStates.TakeSame` | kernel/SharedResources/HeapManager.cpp:26-69 | malloc writes no word of a live payload and no `ptr` word below one |
| `HeapStates.TakeAccepts` | kernel/SharedResources/HeapManager.cpp:13-15 | free will take the pointer malloc returns if and only if it is a new block that is not empty, or a free one whose `ptr` word is right already |
| `HeapStates.RemainderAccepted` | kernel/SharedResources/HeapManager.cpp:39-48 | a split leaves the `ptr` word of the remainder unwritten: free will take its pointer if and only if the old payload held that value there and it is not an empty block at the end |
| `HeapStates.GiveValid` | kernel/SharedResources/HeapManager.cpp:93-105 | free keeps the heap right, never raises the break and writes no word that stays live |
| `HeapStates.GiveReleases` | kernel/SharedResources/HeapManager.cpp:93-105 | a live pointer is given back, and nothing else with it, if and only if its `ptr` word names it; otherwise free does nothing at all |
| `HeapStates.TakeGive` | kernel/SharedResources/HeapManager.cpp:50-105 | freeing what malloc just returned restores the block list if and only if the address check takes the pointer |
| `HeapStates.FreeLinked` | kernel/SharedResources/HeapManager.cpp:93-105 | the words free writes spell the block list after the release |
| `HeapStates.FreeSpares` | kernel/SharedResources/HeapManager.cpp:93-105 | free writes no word of a payload that stays live |
| `HeapStates.FreeEnds` | kernel/SharedResources/HeapManager.cpp:99-104 | break and head afterwards are those of the block list after the release |
| `HeapStates.AlignKeepsRequest` | kernel/SharedResources/HeapManager.h:10 | rounding up keeps the request exactly for sizes up to 2^32 - 4; the last three wrap to zero |
| `HeapRuns.StepValid` | kernel/SharedResources/HeapManager.cpp:50-105 | a request, a return or a caller's own store keeps the heap right if and only if it is not such a request |
| `HeapRuns.RunValid` | kernel/SharedResources/HeapManager.cpp:50-105 | over whole runs with callers that write what they hold: the heap is right all through if and only if no request comes upon an empty list with a stale `last_visited` or passes 2^32 |
| `HeapRuns.RunServes` | kernel/SharedResources/HeapManager.cpp:13-105 | along such runs each request adds one new aligned range, apart from all others, each return removes exactly its own if the address check takes the pointer and does nothing if not, and words of other holders keep their values |
| `HeapRuns.WrittenStays` | kernel/SharedResources/HeapManager.cpp:50-105 | what a caller wrote stays as long as it holds the word, whatever is requested and returned meanwhile |
| `HeapRuns.StaleRun` | kernel/SharedResources/HeapManager.cpp:30-34 | a legal run from the empty heap, two blocks taken and returned and one more taken, after which the block links to itself |
| `HeapRuns.ReuseRun` | kernel/SharedResources/HeapManager.cpp:39-48 | a legal run from the empty heap, heap right all through, whose last pointer sits on a remainder and is ignored by free |
| `HeapRuns.NothingRun` | kernel/SharedResources/HeapManager.cpp:13-15 | a request for no bytes at the end of the heap cannot be given back |
| `HeapBlocks.FirstFit` | kernel/SharedResources/HeapManager.cpp:17-24 | the first free block that is large enough, and no earlier block would do |
| `HeapMemory.ExtendLinked` | kernel/SharedResources/HeapManager.cpp:26-37 | after extending, the header words spell the longer block list, links both ways included |
| `HeapMemory.ExtendSpares` | kernel/SharedResources/HeapManager.cpp:26-37 | extending writes no word of a live payload |
| `HeapMemory.SplitLinked` | kernel/SharedResources/HeapManager.cpp:39-48 | after a split the header words spell the split block list |
| `HeapMemory.SplitSpares` | kernel/SharedResources/HeapManager.cpp:39-48 | splitting writes no word of a live payload |
| `HeapMemory.FuseLinked` | kernel/SharedResources/HeapManager.cpp:84-91 | after fusing, the header words spell the fused block list |
| `HeapMemory.FuseSpares` | kernel/SharedResources/HeapManager.cpp:84-91 | fusing writes no word of a live payload |
| `KernelHeap.FreeList.FindBlock` | kernel/SharedResources/HeapManager.cpp:17-24 | the walk finds the first fit or none, and leaves `last_visited` at the last block when there is none |
| `KernelHeap.FreeList.ExtendHeap` | kernel/SharedResources/HeapManager.cpp:26-37 | the break moves past the new block, in 32 bits, and the words written are those of ExtendMem, whose effect ExtendLinked and ExtendSpares prove |
| `KernelHeap.FreeList.SplitBlock` | kernel/SharedResources/HeapManager.cpp:39-48 | the words written are those of SplitMem |
| `KernelHeap.FreeList.Fusion` | kernel/SharedResources/HeapManager.cpp:84-91 | the words written are those of FusionMem |
| `KernelHeap.FreeList.Malloc` | kernel/SharedResources/HeapManager.cpp:50-69 | for every size: the abstract step on heap and pointer; valid afterwards, and freeable afterwards, exactly under conditions known before the call; no live word changes |
| `KernelHeap.FreeList.Free` | kernel/SharedResources/HeapManager.cpp:93-105 | for every pointer: the abstract step; a pointer that fails the address check changes nothing, and one that names a block keeps the heap valid |
| `KernelHeap.StaleLastVisited` | kernel/SharedResources/HeapManager.cpp:30-34 | that run on the object itself: the new block links to itself |
| `Tlb.DecodeEncode` | kernel/SharedResources/VirtualMemory.cpp:25-30 | the hardware decodes the kernel's two words to the entry the kernel meant if and only if page and frame numbers fit their fields; otherwise exactly their low bits |
| `Tlb.ReadBack` | machine/Memory.cpp:8-30 | an entry read back after a write has the same words less bits 8 to 10 of hi and bit 0 of lo |
| `Tlb.OrIsPlus` | kernel/SharedResources/VirtualMemory.cpp:28 | the shifted fields do not overlap, so or-ing them is adding them |
| `Tlb.WordFields` | machine/Memory.cpp:8-17 | where page, global bit, ASID, frame, cache bits, dirty and valid bit stand in the two words |
| `Tlb.TranslatesDirect` | machine/Memory.cpp:49-50 | from 0x80000000 to 0xC0000000 an address is its physical address less 0x80000000, whatever the TLB holds |
| `Tlb.TranslatesFirst` | machine/Memory.cpp:32-56 | elsewhere it is the offset in the frame of the first valid entry for the page that is global or has the ASID, and a miss exactly without one |
| `Tlb.TlbUnit.Lookup` | machine/Memory.cpp:32-47 | the first entry that matches page, ASID or global, and valid; a load or store trap exactly when none does |
| `Tlb.TlbUnit.Probe` | machine/instructions/KInstructions.cpp:31-43 | the index of an entry for page and ASID, valid or not, or the no-match value exactly when there is none; a trap without privilege |
| `Tlb.TlbUnit.ReadIndexed` | machine/instructions/KInstructions.cpp:48-56 | the two words of the indexed entry, or a trap without privilege |
| `Tlb.TlbUnit.WriteAt` | machine/instructions/KInstructions.cpp:61-67 | the indexed entry becomes what the two words decode to, no other changes, or a trap |
| `Tlb.TlbUnit.WriteRandom` | machine/instructions/KInstructions.cpp:72-76 | the slot named by the register is replaced and the register moves on by one round robin |
| `Tlb.RoundRobin` | machine/instructions/KInstructions.cpp:72-76 | after k refills the register stands k slots further, modulo 64 |
| `Tlb.RefillHits` | machine/Memory.cpp:32-56 | after a miss, refilling any slot makes the missing address translate to the new frame |
| `Tlb.RefillKeepsOthers` | machine/Memory.cpp:32-56 | a refill changes no translation except those of the entry it replaces |
| `Frames.MemoryManager.ReserveFrame` | kernel/SharedResources/VirtualMemory.cpp:9-19 | the lowest clear frame at or above the kernel boundary, then marked; nothing changes when there is none |
| `Frames.MemoryManager.FreeFrame` | kernel/SharedResources/VirtualMemory.cpp:21-23 | exactly the given frame is cleared |
| `PageTables.MapHolds` | kernel/KernelObjects/PageTables.cpp:130-183 | mapping pages in order gives the table frames of its own: distinct, reserved, at or above the boundary, held by nobody else, and releases none |
| `PageTables.MapEntries` | kernel/KernelObjects/PageTables.cpp:130-183 | old entries are untouched and the new ones are exactly the wanted pages with the wanted flags |
| `PageTables.MapConsumes` | kernel/KernelObjects/PageTables.cpp:130-159 | each page wanted takes a frame of its own |
| `PageTables.MapExact` | kernel/KernelObjects/PageTables.cpp:130-183 | when the pages are new, the frames reserved are exactly the frames of the new entries |
| `PageTables.MapAppend` | kernel/SharedResources/VirtualMemory.cpp:176-197 | mapping one list after another is mapping them as one list, so several loops and one are the same |
| `AddressSpaces.HashPageTable.Create` | kernel/KernelObjects/PageTables.cpp:130-160 | four loops map text, static, stack and dynamic pages in that order into fresh frames, or fail when frames run out |
| `AddressSpaces.HashPageTable.CreateFrom` | kernel/KernelObjects/PageTables.cpp:162-183 | the fork copy has the parent's pages with their flags in fresh frames, and memory is what copying 4096 ints for each of them leaves, in order and to the frames that are next in line before the fork |
| `AddressSpaces.HashPageTable.CopyFrame` | kernel/KernelObjects/PageTables.cpp:172-177 | the loop over 4096 ints computes CopyInts |
| `AddressSpaces.CopiesAscend` | kernel/KernelObjects/PageTables.cpp:164-167 | the targets of the copies go up with the order of the copies |
| `AddressSpaces.ChildFrame` | kernel/KernelObjects/PageTables.cpp:164-167 | the child's i-th page is the parent's entry in the i-th clear frame, which is where the i-th copy goes |
| `PageFrames.CopyIntsAt` | kernel/KernelObjects/PageTables.cpp:172-177 | what every frame holds after the loop, whatever overlaps: the page its source had before it, repeating when the target starts inside the source |
| `PageFrames.ForkPage` | kernel/KernelObjects/PageTables.cpp:162-183 | what every user frame holds after a fork: the page its origin had before, whatever the copies overlap and whatever the kernel writes to its own frames in between |
| `PageFrames.OriginOnly` | kernel/KernelObjects/PageTables.cpp:162-183 | a frame gets another's page for every memory if and only if that one is its origin |
| `PageFrames.TargetOrigin` | kernel/KernelObjects/PageTables.cpp:172-177 | the page of the child is what the copies before it left in the parent's frame |
| `PageFrames.OutOfReach` | kernel/KernelObjects/PageTables.cpp:172-177 | a frame that is neither a target nor one of the three after it is its own origin |
| `AddressSpaces.HashPageTable.WalkTable` | kernel/KernelObjects/PageTables.cpp:192-198 | an entry exactly for mapped pages |
| `AddressSpaces.HashPageTable.MapPte` | kernel/KernelObjects/PageTables.cpp:200-207 | adds the entry if and only if the page is a user page not mapped yet |
| `AddressSpaces.HashPageTable.Destroy` | kernel/KernelObjects/PageTables.cpp:209-213 | clears exactly the frames of the table's entries |
| `AddressSpaces.AsidPool.Take` | kernel/SharedResources/VirtualMemory.cpp:154-164 | the lowest ASID not in use, then marked; nothing when all are |
| `AddressSpaces.AddressSpace.Translate` | kernel/SharedResources/VirtualMemory.cpp:166-174 | the words of the refill entry exactly for present pages |
| `AddressSpaces.AddressSpace.UpdateBrk` | kernel/SharedResources/VirtualMemory.cpp:176-197 | for every start value of brk: refuses exactly requests outside the heap; when it grants one, brk is the page after the one asked for, unless it was higher, the table has every page from the old brk to the new one, exactly the missing ones are added, as user pages, present and writable, and every other entry is as it was |
| `AddressSpaces.RefillDecodes` | kernel/SharedResources/VirtualMemory.cpp:98-107 | the hardware decodes the refill words to the intended page, frame and ASID |
| `HeapPages.NewTable` | kernel/KernelObjects/PageTables.cpp:130-160 | the table of a new process has exactly the text pages from 0x400000 on, static ones from 0x10000000, stack pages down from 0x80000000 and dynamic ones from 0x10008000; all user and present, all but text writable |
| `HeapPages.BrkGrants` | kernel/SharedResources/VirtualMemory.cpp:176-197 | a brk request changes one process only, adds exactly the missing pages up to the new boundary, and never lowers it |
| `HeapPages.BrkLoses` | kernel/KernelObjects/PageTables.cpp:200-207 | a granted break loses a frame to nobody if and only if one of its pages was mapped before |
| `HeapPages.StepHeaps` | kernel/SharedResources/VirtualMemory.cpp:176-197 | a kernel step keeps every page of every granted break mapped if and only if the break a process starts or goes on with lies within its new table |
| `HeapPages.RunHeaps` | kernel/SharedResources/VirtualMemory.cpp:176-197 | over whole runs every page of every granted break is mapped all through if and only if all breaks fit in this sense |
| `HeapPages.ZeroBreaksFit` | kernel/SharedResources/VirtualMemory.h:150 | they do when every process starts with break 0 and nobody execs |
| `HeapPages.GrantStays` | kernel/SharedResources/VirtualMemory.cpp:176-197 | along such runs a process that has been granted a break and has not exited has every page from 0x10008000 to it |
| `HeapPages.ExecTakes` | kernel/SharedResources/Process.cpp:51-67 | exec gives a process the pages of the new program and keeps its ASID and break; the ASID of the temporary process is free again, and no other process changes |
| `HeapPages.ExecFrees` | kernel/SharedResources/Process.cpp:61 | exec gives every frame of the old table back |
| `HeapPages.ExecForgetsHeap` | kernel/SharedResources/Process.cpp:61 | the break that exec keeps: asking for it again is granted, maps nothing, and the kernel stops when the page is touched |
| `Isolation.OpenOwned` | kernel/KernelObjects/PageTables.cpp:130-183 | creating or forking a process keeps frame ownership: no frame in two live entries, every held frame reserved, above the boundary and not the kernel's |
| `Isolation.GrowOwned` | kernel/SharedResources/VirtualMemory.cpp:176-197 | so does growing the heap, whatever brk was |
| `Isolation.CloseOwned` | kernel/KernelObjects/PageTables.cpp:209-213 | so does exit, which releases exactly the frames of the process |
| `Isolation.ExecOwned` | kernel/SharedResources/Process.cpp:51-67 | so does exec, which swaps in the new table and drops the old one |
| `Isolation.OpenConsistent` | kernel/SharedResources/VirtualMemory.cpp:154-164 | the TLB still agrees with all tables after a new process if and only if every valid entry left over for its ASID gives the page the frame next in line for it, which is known before the call |
| `Isolation.GrowConsistent` | kernel/SharedResources/VirtualMemory.cpp:176-197 | growing a table keeps every TLB entry right |
| `Isolation.RefillConsistent` | kernel/SharedResources/VirtualMemory.cpp:166-174 | a refill writes an entry that agrees with the table of its process |
| `Isolation.RefillServes` | kernel/trap.cpp:52-63 | after a refill the address translates to the frame of its own page, and no table changes |
| `Isolation.KernelRefillServes` | kernel/SharedResources/VirtualMemory.cpp:98-174 | a refilled page of the kernel heap is there for every ASID |
| `Isolation.CloseConsistent` | kernel/SharedResources/VirtualMemory.cpp:200-202 | exit leaves no entry that contradicts a live table |
| `Isolation.CloseLeavesStale` | kernel/SharedResources/VirtualMemory.cpp:200-202 | exit leaves entries of a dead process behind if and only if the TLB held one for its ASID |
| `Isolation.ExecConsistent` | kernel/SharedResources/Process.cpp:61 | after exec TLB and tables agree if and only if no valid entry carried the process's ASID |
| `Isolation.ReissueConsistent` | kernel/SharedResources/VirtualMemory.cpp:154-202 | an ASID given up by exit and issued again leaves the TLB right if and only if the entries left behind fit the new table, whether it has the page or maps it elsewhere |
| `PageTables.MapFrame` | kernel/KernelObjects/PageTables.cpp:130-183 | a new page gets the frame next in line for its first mention |
| `Isolation.StepOwned` | kernel/KernelObjects/PageTables.cpp:130-213 | every kernel step keeps frame ownership |
| `Isolation.StepConsistent` | kernel/SharedResources/VirtualMemory.cpp:98-202 | a kernel step keeps the TLB right if and only if the leftovers it meets fit |
| `Isolation.RunOwned` | kernel/KernelObjects/PageTables.cpp:130-213 | frame ownership over every run of creation, fork, growth, refill, exec and exit |
| `Isolation.RunConsistent` | kernel/SharedResources/VirtualMemory.cpp:98-202 | over whole runs the TLB is right throughout if and only if every step's leftovers fit |
| `Isolation.UserTranslation` | machine/Memory.cpp:32-56 | a user address the TLB translates goes to the frame its own table gives |
| `Isolation.RunIsolates` | machine/Memory.cpp:49-56 | along such runs a user access below 0x80000000 reaches no frame of another process or of the kernel heap |
| `Isolation.BootOwned` | kernel/SharedResources/VirtualMemory.cpp:118-125 | the state after boot satisfies both invariants, with the kernel heap in the first frames |
| `LruSpec.RunMostRecent` | machine/LRUCache.h:65-133 | after every run from empty, for every capacity, the list holds exactly the most recently touched distinct keys, most recent first, each with its last value |
| `LruSpec.ApplyKeeps` | machine/LRUCache.h:70-133 | each operation keeps that description |
| `Lru.TrackerFinds` | machine/LRUCache.h:70-76 | tracker and list describe the same entries: a tracked key is at the tracked place, an untracked one nowhere |
| `Lru.LruCache.Emplace` | machine/LRUCache.h:70-91 | overwrites and moves to the front, or evicts the last entry when full and inserts; reports which |
| `Lru.LruCache.Index` | machine/LRUCache.h:106-124 | the entry at the front, created with the default when missing; throws exactly when the capacity is zero and the key is missing |
| `Lru.LruCache.At` | machine/LRUCache.h:126-133 | the value, moved to the front; out of range exactly for a missing key, and then nothing changes |
| `Lru.LruCache.Pop` | machine/LRUCache.h:159-163 | drops the least recently touched entry, if any |
| `Lru.LruCache.Clear` | machine/LRUCache.h:46-49 | leaves the empty cache |
| `Machine.DecodeWellFormed` | machine/Processors.cpp:192-322 | decoded instructions name existing registers and sizes; words in no table trap as reserved |
| `InstructionSet.DecodesLoad` | machine/Processors.cpp:299-305 | for all registers and 16-bit immediates the words with opcodes 0x20, 0x21, 0x23, 0x24 and 0x25 decode to LB, LH, LW, LBU and LHU with those registers and the immediate in two's complement |
| `InstructionSet.DecodesStore` | machine/Processors.cpp:300-306 | so do 0x28, 0x29 and 0x2b to SB, SH and SW |
| `InstructionSet.DecodesBranch` | machine/Processors.cpp:307-308 | 0x04 is BEQ and 0x05 is BNE |
| `InstructionSet.DecodesAdd` | machine/Processors.cpp:293 | 0x09 is ADDIU |
| `InstructionSet.DecodesJump` | machine/instructions/SpecialInstruction.cpp:6-14 | 0x02 is J and 0x03 is JAL, to an address in the region of pc + 4 at four times the target, of which 25 bits are kept |
| `InstructionSet.TargetKept` | machine/Processors.cpp:214 | a jump goes where its 26-bit target says if and only if the highest bit of the target is clear |
| `InstructionSet.DecodesRegister` | machine/Processors.cpp:277-281 | with opcode 0 the function codes 0x08 and 0x0c are JR and SYSCALL, whatever the other fields hold |
| `InstructionSet.DecodesReserved` | machine/Processors.cpp:250-322 | which opcodes and function codes are reserved, as ranges, both directions; the four opcodes with tables of their own apart |
| `InstructionSet.AddRuns` | machine/instructions/IInstruction.cpp:12 | a cycle on an ADDIU word leaves regs[rs] + imm modulo 2^32 in rt, pc + 4, and nothing else changes |
| `InstructionSet.BranchRuns` | machine/instructions/IInstruction.cpp:31-32 | a cycle on BEQ or BNE goes to pc + 4 + 4 * imm exactly when the registers are equal, respectively differ, and to pc + 4 otherwise |
| `InstructionSet.JumpRuns` | machine/instructions/SpecialInstruction.cpp:6-14 | a cycle on J or JAL goes to the target; JAL leaves pc + 4 in register 31 |
| `InstructionSet.JumpRegisterRuns` | machine/instructions/SpecialInstruction.cpp:16-17 | a cycle on JR goes to the address in the register |
| `InstructionSet.SyscallRuns` | machine/instructions/SpecialInstruction.cpp:42 | a cycle on SYSCALL traps and changes nothing |
| `InstructionSet.LoadByteRuns` | machine/instructions/IInstruction.cpp:20-21 | LB and LBU: the byte at regs[rs] + imm, made negative by LB from 128 on; or a miss on that address |
| `InstructionSet.LoadHalfRuns` | machine/instructions/IInstruction.cpp:22-23 | LH and LHU: two bytes, the higher first, made negative by LH from 2^15 on; a miss, or a failed assertion on an odd physical address |
| `InstructionSet.LoadWordRuns` | machine/instructions/IInstruction.cpp:24 | LW: four bytes, the highest first; a miss, or a failed assertion on an unaligned one |
| `InstructionSet.StoreRuns` | machine/instructions/IInstruction.cpp:25-27 | SB, SH and SW: the low bytes of the register at regs[rs] + imm, the highest first, no other byte and no register changes; a store miss, or a failed assertion |
| `Machine.StoreLoad` | machine/Memory.cpp:60-110 | a load from an address just stored to gives the low bytes stored, extended as the load says, and the word itself for a whole word |
| `Machine.LoadElsewhere` | machine/Memory.cpp:60-110 | a load whose bytes do not meet those of a store is not affected by it |
| `Machine.CacheTransparent` | machine/Processors.cpp:150-178 | a cycle through the instruction cache does what fetching and decoding would, empty slots and evictions included, and keeps the cache right, as long as fetches at cached addresses give what is cached |
| `Machine.CachedIsDirect` | machine/Processors.cpp:150-178 | the cached cycle behind the TLB does what the direct cycle through the page table does, traps and assertions included, or misses on a mapped page |
| `Machine.StoreKeepsCoherent` | machine/Processors.cpp:163-164 | a store keeps the cache right when fetches at the cached addresses do not change |
| `Machine.MissSlot` | machine/Processors.cpp:163-166 | after a miss the slot of the current address is in front, empty after a fetch miss, decoded after a data miss |
| `Cores.Core.constructor` | machine/Processors.cpp:148 | the core before its first instruction, with an empty cache |
| `Cores.Core.RaiseTrap` | machine/Processors.cpp:180-190 | the program counter is saved, kernel mode entered, interrupts off, cause and address recorded, and execution goes on at the trap entry |
| `Cores.Core.Prepare` | machine/Processors.cpp:163-164 | the slot of the program counter, decoded now if it was empty; the slot stays empty when fetching or decoding traps |
| `Cores.Core.Run` | machine/instructions/IInstruction.cpp:12-32 | the instruction step by step, address, translation, alignment, bytes, register or program counter, is Execute, of which the lemmas of InstructionSet say what it does; where it throws, nothing has changed |
| `Cores.Core.GetBytes` | machine/Memory.cpp:60-82 | bytes put together one by one are the big-endian number |
| `Cores.Core.SetBytes` | machine/Memory.cpp:84-110 | bytes taken apart one by one are the value's low bytes, big-endian, and no other byte changes |
| `Cores.Core.RunInstr` | machine/Processors.cpp:166-177 | a trap is recorded with the program counter still on the instruction and registers and memory as before it; an interrupt comes after a completed one, and only when interrupts are on |
| `Cores.Core.Cycle` | machine/Processors.cpp:150-178 | a cycle of the core is CoreCycle, seen from registers, memory, coprocessor 0 and instruction cache, and keeps the core valid |
| `PrivateMachine.ReadAgrees` | machine/Memory.cpp:60-82 | reading through the page table is reading the process's own page |
| `PrivateMachine.WriteAgrees` | machine/Memory.cpp:84-110 | writing through the page table changes the process's own page there and no frame outside its table |
| `PrivateMachine.MaskPlan` | machine/Processors.cpp:150-178 | an instruction that does not name k0 and k1 computes the same whatever they hold |
| `PrivateMachine.DirectIsPrivate` | machine/Processors.cpp:150-178 | one cycle through the page table is one instruction on private memory |
| `PrivateMachine.DirectAsks` | machine/Processors.cpp:150-178 | outside the direct range it asks for the kernel exactly when private memory says so; in that range private memory has no code |
| `PagedMachine.TlbAgrees` | machine/Memory.cpp:32-56 | the TLB never contradicts the running process's table |
| `PagedMachine.OutcomeIs` | machine/Processors.cpp:150-178 | a cycle does what the page table alone would give, or misses on a mapped page |
| `PagedMachine.InterruptKeepsViews` | kernel/trap.cpp:165-189 | an interrupt and the switch after it, wherever they land, change no process's registers or pages |
| `PagedMachine.DoneViews` | machine/Processors.cpp:163-167 | a completed cycle is one private instruction for the running process and nothing for the others |
| `PagedMachine.MissViews` | kernel/trap.cpp:52-63 | a miss and its refill change nothing anybody sees: the same instruction starts again |
| `PagedMachine.CycleViews` | machine/Processors.cpp:150-190 | the two above for a cycle of a process on its own pages |
| `PagedMachine.OtherCycle` | machine/Processors.cpp:150-190 | whatever instruction another process completes or misses on, as long as it stores below 0x80000000, a bystander keeps registers and pages |
| `PagedMachine.AtMostTwoRefills` | kernel/trap.cpp:165-170 | an instruction on mapped, aligned addresses completes after at most two refills when no interrupt comes in between |
| `PagedMachine.CallOk` | kernel/trap.cpp:65-189 | a system call, whatever the kernel does for its caller and whoever it dispatches, keeps the invariants |
| `PagedMachine.ServesKeeps` | kernel/trap.cpp:65-146 | what the kernel writes for its caller, its own frames, the caller's pages, the pages of a program it loads and the copies of a fork, leaves a bystander's pages alone if every frame of the bystander is its own origin under the copies, which is known before the fork |
| `PagedMachine.CallKeepsView` | kernel/trap.cpp:65-189 | so a system call of another process leaves a bystander's registers and pages as they are; how exact the condition is, CallSparesExactly says |
| `Forks.ForkSparesExactly` | kernel/KernelObjects/PageTables.cpp:162-183 | a fork leaves a bystander, or the parent, its pages for every memory if and only if every frame of it is its own origin |
| `Forks.CallSparesExactly` | kernel/trap.cpp:65-146 | over a whole call with a fork among its acts, a bystander keeps its pages whatever memory holds and whatever is written if and only if the fork spares it, a condition on the state before the fork |
| `Forks.ForkIsCopy` | kernel/KernelObjects/PageTables.cpp:162-183 | the child gets the parent's pages for every memory if and only if no copy reads a page that an earlier one has changed |
| `PagedMachine.ActOk` | kernel/trap.cpp:110-139 | a kernel step keeps frame ownership, a consistent TLB, and the address space of every process it is not for |
| `PagedMachine.MoveViews` | kernel/asmglue.asm:106-217 | one step of a run is one private instruction of p, or nothing |
| `PagedMachine.RunIsPrivate` | kernel/trap.cpp:36-191 | over whole runs of cycles, misses, interrupts, switches and other processes' calls, a process is exactly where running its completed instructions on private memory would put it: none lost, repeated or half done |
| `PagedMachine.FirstOk` | kernel/SharedResources/VirtualMemory.cpp:150-164 | the run invariant holds for the first process on a booted machine |
| `CopyOrder.HashOrder` | kernel/KernelObjects/PageTables.cpp:130-131 | the order in which the page table of a program with one page of text lists its pages: integer hash, 12 buckets, each bucket in order of arrival |
| `Processes.BorrowInv` | kernel/SharedResources/Process.cpp:35-39 | borrow keeps the counts, slots and PID discipline |
| `Processes.ResetInv` | kernel/SharedResources/Process.cpp:10-18 | so does reset, freeing included; no guard is left dangling |
| `Processes.ResetFrees` | kernel/SharedResources/Process.cpp:10-18 | a PCB is freed by a reset if and only if it is a zombie and that guard was its last |
| `Processes.MoveInv` | kernel/SharedResources/Process.cpp:20-23 | moving a guard hands the reference over and changes no PCB |
| `Processes.MoveAssignInv` | kernel/SharedResources/Process.cpp:24-30 | move assignment keeps the counts, self-assignment included |
| `Processes.DoomInv` | kernel/SharedResources/Process.cpp:46-49 | a doomed PCB lives on as long as it is held |
| `Processes.InstallInv` | kernel/SharedResources/Process.cpp:253-265 | a new process takes an empty slot, so the slot assertion holds, and its PID is its index |
| `Processes.FreeProcessInv` | kernel/SharedResources/Process.cpp:296-310 | freeing pops the last slot or empties the slot and frees the PID, keeping the discipline |
| `Processes.BorrowReset` | kernel/SharedResources/Process.cpp:35-39 | borrowing and letting go leaves no trace |
| `Processes.DoomReset` | kernel/SharedResources/Process.cpp:46-49 | a doomed process held by one guard is freed, slot and PID included, when the guard lets go |
| `Scheduler.MultiLevelQueue.Enqueue` | kernel/KernelObjects/Scheduler.cpp:5-11 | the PID goes to the back of its level and the size stays the number queued |
| `Scheduler.MultiLevelQueue.Dequeue` | kernel/KernelObjects/Scheduler.cpp:13-24 | the front of the first level in use, or nothing |
| `Scheduler.MultiLevelQueue.Drain` | kernel/KernelObjects/Scheduler.cpp:28-31 | one level is emptied from the back into level 0 |
| `Scheduler.MultiLevelQueue.Boost` | kernel/KernelObjects/Scheduler.cpp:26-33 | everything moves to level 0, each lower level in reverse, and the size does not change |
| `Scheduler.BoostKeeps` | kernel/KernelObjects/Scheduler.cpp:26-33 | boost keeps the multiset of queued PIDs |
| `Scheduler.ReverseAt` | kernel/KernelObjects/Scheduler.cpp:28-31 | the reversed level: the k-th from the back comes k-th |
| `TrapSpec.HandleGood` | kernel/trap.cpp:36-191 | after every trap either the system halts, on a failed assertion inside a call as on a fault, or every live PID but the running one is queued exactly once and empty slots are exactly the free PIDs |
| `TrapSpec.HandleStops` | kernel/trap.cpp:36-191 | the kernel stops exactly at an unmapped pointer or page, a call that runs out of frames, a fault, and when the last process goes |
| `TrapSpec.HandleRemoves` | kernel/trap.cpp:109-129 | exit and a bad brk request remove the running process and nobody else, and the front of the queue runs |
| `TrapSpec.HandleForks` | kernel/trap.cpp:130-139 | a fork adds one process, which waits right before its parent, behind everyone else |
| `TrapSpec.HandleRotates` | kernel/trap.cpp:165-189 | every other trap that dispatches, an exec that finds no program included, leaves everybody alive and the caller last in line |
| `TrapSpec.HandleMiss` | kernel/trap.cpp:165-170 | a page miss goes back to the running process |
| `TrapSpec.PidReused` | kernel/SharedResources/Process.cpp:281-308 | the child of a fork after an exit has the PID of the one that exited, if and only if that was not the highest or no other PID is free |
| `TrapSpec.RunGood` | kernel/trap.cpp:36-191 | the same over every run of traps |
| `TrapSpec.MovesUp` | kernel/trap.cpp:172-189 | every dispatch moves a waiting process up by exactly one, whatever the trap |
| `TrapSpec.StillWaiting` | kernel/trap.cpp:172-189 | with k processes ahead, it does not run before the (k+1)-th dispatch |
| `TrapSpec.BoundedWaiting` | kernel/trap.cpp:172-189 | and the (k+1)-th dispatch runs it, whatever forks, exits and calls happen meanwhile |
| `KernelSteps.TrapStops` | kernel/trap.cpp:36-191 | the handler over PIDs and queue and the address spaces stop together: no step the handler orders is ever refused |
| `KernelSteps.TrapCoupled` | kernel/trap.cpp:36-191 | after every trap the live PIDs are the processes with an address space, queue and PID discipline hold, and every frame has one owner |
| `KernelSteps.TrapsRun` | kernel/trap.cpp:36-191 | a run of traps is at once a run of the handler and a run of the address-space steps, so that what is proved of either holds of it |
| `KernelSteps.FirstCoupled` | kernel/boot.cpp:37-46 | the first program on a booted machine satisfies the joint invariant |
| `KernelSteps.TrapsIsolate` | kernel/trap.cpp:36-191 | from boot, whatever programs trap for, as long as leftover entries fit: what the running process accesses below 0x80000000 is in no frame of another live process or of the kernel heap |
| `KernelRuns.ForkOverwrites` | kernel/KernelObjects/PageTables.cpp:172-177 | a run of eight traps from boot, a program that forks twice and a first child that exits, after which one more fork puts the program's deepest stack page into the text page of the other child, whatever memory held |
| `KernelRuns.ReissueRun` | kernel/SharedResources/VirtualMemory.cpp:154-202 | a run of ten traps from boot: a child grows its heap, touches it and exits; the next child has its ASID and no heap, and its heap address translates to the text page of the one after |
| `KernelRuns.ExecRun` | kernel/SharedResources/Process.cpp:51-67 | a run of two traps from boot: a program fetches one instruction and execs, and the new program's text page still translates to the old frame, which is free |
| `KernelRuns.ForgottenRun` | kernel/SharedResources/Process.cpp:51-67 | a run of three traps from boot: a program asks for a page of heap, execs, and the new program is granted the same page, at whose first touch the kernel stops |
| `KernelTraps.Kernel.constructor` | kernel/SharedResources/Process.cpp:75-79 | no process, no guard, the kernel running |
| `KernelTraps.Kernel.StartFirst` | kernel/boot.cpp:37-46 | the first process is current and the invariant holds |
| `KernelTraps.Kernel.Borrow` | kernel/SharedResources/Process.cpp:35-39 | does what the abstract borrow does, and the counts stay right |
| `KernelTraps.Kernel.Reset` | kernel/SharedResources/Process.cpp:10-18 | does what the abstract reset does; when it frees, the three asserted conditions hold |
| `KernelTraps.Kernel.FreeProcess` | kernel/SharedResources/Process.cpp:296-310 | the slot is popped or emptied and its PID freed |
| `KernelTraps.Kernel.MarkForDeath` | kernel/SharedResources/Process.cpp:46-49 | the held PCB becomes a zombie and stays allocated |
| `KernelTraps.Kernel.MoveGuard` | kernel/SharedResources/Process.cpp:20-23 | the reference changes hands, the source becomes null, no count changes |
| `KernelTraps.Kernel.AssignGuard` | kernel/SharedResources/Process.cpp:24-30 | the old reference is dropped, the new one taken over; self-assignment does nothing |
| `KernelTraps.Kernel.InstallProcess` | kernel/SharedResources/Process.cpp:192-197 | the PID and slot of a new process; the slot was empty |
| `KernelTraps.Kernel.Index` | kernel/trap.cpp:132 | a guard on the process with this PID, or none |
| `KernelTraps.Kernel.ExecProcess` | kernel/SharedResources/Process.cpp:51-67 | exec installs a process, and its guard frees it again |
| `KernelTraps.Kernel.ForkProcess` | kernel/trap.cpp:130-139 | the child is installed and queued, and no guard is left |
| `KernelTraps.Kernel.Kill` | kernel/trap.cpp:110-114 | the thread is doomed and let go |
| `KernelTraps.Kernel.Requeue` | kernel/trap.cpp:172-174 | a surviving thread goes to the back of its level |
| `KernelTraps.Kernel.DispatchNext` | kernel/trap.cpp:185-189 | the next process becomes current, and its PID is live |
| `KernelTraps.Kernel.HandleTrap` | kernel/trap.cpp:36-191 | the handler over PCBs, guards and queue does what the abstract step says, of which the lemmas of TrapSpec say who lives, waits and runs; it halts exactly when that does, and leaves no guard and a live current process |
| `Workers.InitialInv` | network/Workers.cpp:5 | the empty queue with idle threads satisfies the invariant |
| `Workers.ExecInv` | network/Workers.cpp:7-82 | every atomic action of every thread keeps the invariant |
| `Workers.ExecBalance` | network/Workers.cpp:15-41 | every action keeps counter, pushes not yet counted and pops not yet counted in balance with the tasks queued |
| `Workers.ExecCounter` | network/Workers.cpp:31-43 | the counter never goes below zero |
| `Workers.ExecExclusive` | network/Workers.cpp:15-17 | no lock is held by two threads |
| `Workers.ExecConserves` | network/Workers.cpp:7-82 | no action loses or doubles a task |
| `Workers.RunInv` | network/Workers.cpp:7-82 | counter law, lock discipline and sorted levels over every interleaving of enqueuers, dequeuers and boosters |
| `Workers.RunConserves` | network/Workers.cpp:7-82 | over every interleaving the tasks there and the tasks finished are, as multisets, the tasks there before and the tasks submitted |
| `WorkerQueues.RunFifo` | network/Workers.cpp:17-40 | first in, first out, in every interleaving: what stood in a level and what came to it, less what boosts took back from its end, is what was served, in this order, and what stands there; nothing is ever taken back from level 0 |
| `WorkerQueues.FirstComesFirst` | network/Workers.cpp:17-40 | of two tasks that come to a level without a boost of it, the first is served before the second |
| `WorkerQueues.RunDrains` | network/Workers.cpp:67-81 | in every interleaving, after n moves of a boost the last n tasks of its level stand at the end of level 0 in reverse, with priority 0 |
| `WorkerQueues.RunLevels` | network/Workers.cpp:9-17 | from the empty queue, in every interleaving: a task is pushed to level 0 when a boost was due, else to the level of its priority, which is one more than the level it was last served from |
| `WorkerQueues.RunBoosts` | network/Workers.cpp:51-81 | from the empty queue, in every interleaving: a thread that has claimed a boost pushes or waits only after it has found every lower level empty |
| `Workers.RunOnePlace` | network/Workers.cpp:7-49 | from the empty queue a task submitted once is in exactly one level position or one thread's hands until it is finished, and nowhere otherwise |
| `Workers.MissedMeansBoost` | network/Workers.cpp:34-45 | from the empty queue, in every interleaving: a scan has no task ahead of it if and only if a boost took the last one and nothing was added ahead of it since; so it ends empty-handed only after that |
| `Workers.ScanCanMiss` | network/Workers.cpp:34-45 | a run from the empty queue in which a dequeuer saw a task counted and finds nothing |
| `Workers.QuantaIndex` | network/Server.cpp:432 | the level used to look up the time slice is within bounds if and only if the task did not come from the last level |
| `Workers.QuantaRun` | network/Server.cpp:425-438 | a run from the empty queue in which a task uses up every level and a worker comes to index five time slices with five |
| `Workers.NoDeadlock` | network/Workers.cpp:16-81 | whenever a thread is blocked, some thread holding a lock can act |
| `Workers.LocksAscend` | network/Workers.cpp:31-35 | locks are taken in the order emptyMtx, level 0, a higher level |
| `VmOwnership.ExecPlaces` | network/Server.cpp:183-200 | every action of every thread keeps each machine in exactly as many places as before, deletions counted |
| `VmOwnership.CommandServed` | network/Server.cpp:327-341 | a command on an open connection with its machine at home makes a new ready task of it and leaves the pointer count as it was |
| `VmOwnership.CommandIdle` | network/Server.cpp:331-336 | with the machine out, or the connection gone, a command changes nothing |
| `VmOwnership.TaskRounds` | network/Server.cpp:279-296 | a task that is to go on steps its own machine and is ready again, its connection as it was |
| `VmOwnership.TaskReturns` | network/Server.cpp:183-192 | one that is not gives its machine back to an open connection, which is otherwise as it was |
| `VmOwnership.TaskDeletes` | network/Server.cpp:194-197 | once the connection is gone it deletes the machine |
| `VmOwnership.ExecGuests` | network/Server.cpp:33-48 | shared pointers to a connection are created and dropped in step with its count, strays set aside |
| `VmOwnership.SlotFree` | network/Server.cpp:188-192 | a task's destructor that gives the machine back overwrites no other pointer |
| `VmOwnership.ExecInv` | network/Server.cpp:87-158 | every action keeps the ownership invariant, events for a connection already killed included |
| `VmOwnership.RunInv` | network/Server.cpp:315-348 | and so does every run |
| `VmOwnership.RunHeldOnce` | network/Server.cpp:183-200 | in every interleaving, second kills included, a machine is in exactly one of connection, handling thread, task, destructor, or deleted, and deleted at most once |
| `VmOwnership.RunOneStepper` | network/Server.cpp:279-296 | in every interleaving, second kills included, at most one task steps a machine, and it is not deleted while it does |
| `VmOwnership.RunCounted` | network/Server.cpp:45-48 | the count of a connection is the number of its shared pointers if and only if no event killed again after a kill dropped one of them, and it is open exactly while it has more pointers than such strays |
| `VmOwnership.RunKeepsOpen` | network/Server.cpp:221-225 | a worker that has locked a connection finds it open if and only if repeated kills have dropped fewer pointers to it than there are, so always when there was none |
| `VmOwnership.StrayRun` | network/Server.cpp:87-105 | a run with one such event: the connection is destroyed while a worker that has locked it steps its machine, which then is never deleted |
| `VmOwnership.RunReturned` | network/Server.cpp:38-44 | once no task or command is left the machine is back with an open connection; when the connection is gone it was deleted, once, if and only if no task left it there after the connection's destructor had looked, which takes such an event |
| `VmOwnership.RunningTask` | network/Server.h:54-63 | while an open connection has no machine, outside the hand-over itself, its running task exists, is its own and is not dead |
| `IntegerHash.MixUndone` | kernel/kstl/UnorderedMap.h:14-24 | the integer hash is one to one and onto the 32-bit words |
| `HashBags.MissingKey` | kernel/kstl/UnorderedMap.h:331-338 | a key missing from the bucket its hash selects is missing from the map |
| `HashBags.FoundKey` | kernel/kstl/UnorderedMap.h:283-285 | every stored entry is a binding of the map |
| `HashBags.DistinctKeys` | kernel/kstl/UnorderedMap.h:283-288 | no bucket holds a key twice |
| `UnorderedMaps.UnorderedMap.constructor` | kernel/kstl/UnorderedMap.h:111-112 | the empty map |
| `UnorderedMaps.UnorderedMap.Rehash` | kernel/kstl/UnorderedMap.h:256-274 | changes no binding; the bucket count becomes the request unless that is below the number of entries |
| `UnorderedMaps.UnorderedMap.Emplace` | kernel/kstl/UnorderedMap.h:277-290 | adds the binding, last in its bucket, unless the key has one, returns its position and whether it was new; the table doubles when full, so entries never exceed buckets |
| `UnorderedMaps.UnorderedMap.Index` | kernel/kstl/UnorderedMap.h:304-315 | the position of the key's binding, made with the default value when missing |
| `UnorderedMaps.UnorderedMap.Assign` | kernel/kstl/UnorderedMap.h:304-315 | writing through the reference changes that one binding |
| `UnorderedMaps.UnorderedMap.Find` | kernel/kstl/UnorderedMap.h:331-338 | the key's entry, or the end exactly when it has none |
| `UnorderedMaps.UnorderedMap.Contains` | kernel/kstl/UnorderedMap.h:349-356 | whether the key is bound |
| `UnorderedMaps.UnorderedMap.SkipEmpty` | kernel/kstl/UnorderedMap.h:166-171 | moves past ends of buckets without passing an entry |
| `UnorderedMaps.UnorderedMap.Walk` | kernel/kstl/UnorderedMap.h:176-181 | from begin to end every binding is visited exactly once, bucket after bucket |
| `LinkedLists.List.EmplaceBack` | kernel/kstl/Queue.h:199-211 | the value is appended and all links stay right |
| `LinkedLists.List.EmplaceFront` | kernel/kstl/Queue.h:222-234 | the value is prepended |
| `LinkedLists.List.PopBack` | kernel/kstl/Queue.h:244-258 | the last value goes |
| `LinkedLists.List.PopFront` | kernel/kstl/Queue.h:260-274 | the first value goes |
| `LinkedLists.List.Forward` | kernel/kstl/Queue.h:301-304 | following next from the head gives every value once, in order |
| `LinkedLists.List.Backward` | kernel/kstl/Queue.h:312-315 | following prev from the tail gives them in reverse |
| `LinkedLists.List.MoveFrom` | kernel/kstl/Queue.h:81-89 | the nodes change hands and the other list is empty |
| `LinkedLists.List.CopyAll` | kernel/kstl/Queue.h:61-78 | the values are copied into nodes of the list's own and the other list is unchanged |
| `LinkedLists.List.Copy` | kernel/kstl/Queue.h:61-78 | a list of its own with the same values |
| `LinkedLists.List.Resize` | kernel/kstl/Queue.h:281-284 | cut or filled up to the given size |
| `Bits.ClearLowest` | kernel/kstl/Bitset.h:90-93 | and-ing a number with its predecessor clears exactly one set bit |
| `Bits.XorTwice` | network/WebSocket.cpp:123 | exclusive-oring twice with the same number changes nothing |
| `BitSpec.ShlSet` | kernel/kstl/Bitset.h:132-152 | a left shift adds to every member and drops those that leave the range, for every size and amount |
| `BitSpec.ShrSet` | kernel/kstl/Bitset.h:154-171 | a right shift subtracts from every member and drops those below |
| `BitSpec.FlipSet` | kernel/kstl/Bitset.h:75-83 | flipping all bits is the complement within the range |
| `BitSpec.SetAtSet` | kernel/kstl/Bitset.h:47-55 | setting or clearing a position adds or removes exactly that member, padding stays clear |
| `BitSpec.FlipBlock` | kernel/kstl/Bitset.h:68-73 | flipping one position is setting it to what it was not |
| `BitSpec.CombineSet` | kernel/kstl/Bitset.h:99-116 | and, or and exclusive or are intersection, union and symmetric difference |
| `BitSpec.CountIsSize` | kernel/kstl/Bitset.h:86-96 | the population counts add up to the size of the set |
| `BitSpec.SameSet` | kernel/kstl/Bitset.h:174-181 | equal blocks if and only if equal sets |
| `BitSpec.HighMaskBit` | kernel/kstl/Bitset.h:19-24 | the mask keeps exactly the bits of the last block that are in range |
| `Bitsets.Bitset.Test` | kernel/kstl/Bitset.h:31-35 | whether the position is a member |
| `Bitsets.Bitset.Set` | kernel/kstl/Bitset.h:47-55 | adds or removes one member |
| `Bitsets.Bitset.FlipAt` | kernel/kstl/Bitset.h:68-73 | moves one position in or out |
| `Bitsets.Bitset.FlipAll` | kernel/kstl/Bitset.h:75-83 | complements the set |
| `Bitsets.Bitset.CountBits` | kernel/kstl/Bitset.h:86-96 | the loop that clears lowest bits stops with the exact size |
| `Bitsets.Bitset.ShiftLeft` | kernel/kstl/Bitset.h:132-152 | the shifted set in a new bitset; the source is unchanged |
| `Bitsets.Bitset.ShiftRight` | kernel/kstl/Bitset.h:154-171 | the same to the right |
| `Bitsets.Bitset.CombineWith` | kernel/kstl/Bitset.h:99-116 | the combined set, also when both operands are one object |
| `Bitsets.Bitset.Equals` | kernel/kstl/Bitset.h:174-181 | true if and only if the sets are equal |
| `WireFormat.ParseEncode` | network/WebSocket.cpp:79-125 | any frame of section 5.2 of RFC 6455, in any length form, masked or not, whatever follows it, parses to its own fields and unmasked payload |
| `WireFormat.FrameBytes` | network/WebSocket.cpp:79-125 | a frame byte by byte: mask bit and length code, length bytes, key, and each payload byte with the bits of its key byte turned over |
| `WireFormat.LengthBytes` | network/WebSocket.cpp:89-108 | the length in each form: in the code up to 125, in two bytes after code 126, in eight after code 127, the highest first |
| `WireFormat.ParseSound` | network/WebSocket.cpp:79-125 | whatever the parser accepts is such a frame followed by bytes it ignores |
| `WireFormat.ParseTruncated` | network/WebSocket.cpp:90-119 | a frame cut short anywhere is a failed parse with no payload |
| `WireFormat.ParseThrows` | network/WebSocket.cpp:119-121 | the resize throws if and only if a whole header is there and its 64-bit length wraps the frame's size |
| `WireFormat.MaskedTwice` | network/WebSocket.cpp:122-124 | masking as in section 5.3 of RFC 6455 undoes itself |
| `WireFormat.MinimalShortest` | network/WebSocket.cpp:134-149 | the printer's length form is the shortest that fits |
| `WireFormat.RoundTrip` | network/WebSocket.cpp:127-154 | parsing what the printer prints gives the same payload, final, text, not masked, in all three length forms |
| `WebSocket.ConvertToPacket` | network/WebSocket.cpp:127-154 | the bytes pushed are the frame with opcode text, final, unmasked, in the minimal form |
| `WebSocket.ReadLength` | network/WebSocket.cpp:86-108 | payload length and offset in each form, or failure exactly when the bytes stop short |
| `WebSocket.ReadHead` | network/WebSocket.cpp:79-115 | length, payload offset and mask key, or failure exactly when the bytes stop before the payload |
| `WebSocket.ReadKey` | network/WebSocket.cpp:113-115 | the four key bytes |
| `WebSocket.ReadPayload` | network/WebSocket.cpp:121-124 | the unmasked payload |
| `WebSocket.ParsePacket` | network/WebSocket.cpp:79-125 | the parser's loops compute Parse |

## Left out

- KernelHeap.FreeList.Malloc: the 64 pages of the kernel heap are not modelled, so `sbrk` never fails before 2^32; neither is `calloc`.
- KernelHeap.FreeList.Free: promises validity only for pointers that name a block; what a forged `ptr` word inside a payload does is computed but nothing is promised about it.
- AddressSpaces.HashPageTable.CreateFrom: a copy that would run past the end of physical memory is a failed fork.
- AddressSpaces.HashPageTable.Destroy: walks the entries in any order; `SegmentedPageTable` and `KernelPageTable::mapPTE` are not modelled.
- PagedMachine.RunIsPrivate: the process itself stays on mapped, aligned addresses, leaves k0, k1 and register 0 alone and does not store into instructions already cached; others store below 0x80000000, as does the kernel for them, meet only leftover TLB entries that fit, and make no fork under which one of its frames has another origin. Kernel code in the instruction cache is not modelled.
- Isolation.RunConsistent: between exec and exit no entry is ever invalidated, since `invalidate` and `fromProbe` have no caller; those two are not modelled.
- Machine.CacheTransparent: covers loads, stores, branches on equality, jumps, add-immediate, system calls and reserved instructions; the other instructions, floating point and the `VMTunnel` device are one unmodelled case.
- InstructionSet.LoadByteRuns: the conversion from `char` is taken as signed, which the language leaves to the compiler.
- Cores.Core.Cycle: a failed alignment assertion, an address outside physical memory or an unmodelled instruction stops the core as it is.
- Processes.InstallInv: PIDs are below 2^32 - 1 and reference counts below 65535.
- KernelTraps.Kernel.HandleTrap: nested traps, the kernel's own page misses while it handles a trap, console calls, privilege and the loading of program files are not modelled; whether a pointer is mapped, frames are left and exec finds its file are inputs.
- KernelSteps.TrapsIsolate: privilege is not modelled, and the code's differs from its intent: `eret` does not clear EXL (`machine/instructions/KInstructions.cpp:22-26`, set at `machine/Processors.cpp:184`), though the kernel counts on it (`kernel/asmglue.asm:146`), so a program keeps kernel privilege; one that writes the TLB or accesses addresses from 0x80000000 on is outside this theorem.
- KernelRuns.ForkOverwrites: the kernel's own misses, whose entries are global, are not among the traps of these runs; `brk`, which is uninitialised, starts at zero in them.
- Workers.RunInv: the queue is a state of values stepped by threads rather than an object; the condition variable is a retry, time is a choice, and memory is sequentially consistent.
- VmOwnership.RunInv: connections and tasks are values stepped by threads. For a connection already killed the code is undefined in three places, and the model says what it does there: erasing the dead list node drops one pointer to some open connection, which is what the freed or reused node holds; making a weak pointer from that node (`network/Server.cpp:348`) makes one to the connection as before; and an event for a destroyed connection does nothing with its command. Sockets, the HTTP upgrade and the nested lock of the output device are not modelled; a connection's destructor may be interleaved with everything.
- UnorderedMaps.UnorderedMap.Emplace: for every hash function; buckets are sequences rather than linked nodes, and an empty bucket table, on which the code divides by zero, is excluded.
- LinkedLists.List.CopyAll: the source's copy treats the first node apart, which appending to an empty list also does; `erase` is not modelled because it does not keep the size.
- Bitsets.Bitset.Set: positions are below the size, as nothing in the code checks them; blocks are natural numbers with bitwise operations defined on them.
- WebSocket.ParsePacket: bytes are numbers below 256; the handshake and the compile-time printer are not modelled.
- LRU copy construction, copy assignment and `insert`: the copied tracker points into the other list.
- The user-space heap under `programs/`, `vector`, `string`, `optional` and `unique_ptr`.
