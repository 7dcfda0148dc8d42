# rix-os kernel: a Dafny model of threading, paging and PCI configuration

The project models three parts of the kernel and proves what they promise.

**Preemptive threading** (`Scheduling`, `Machine`, `Registry`, `Sections`, `Kernel`, `KernelSteps`,
`Runs`, `Guarantees`, `Scenarios`, `Starvation`, `Windows`, `Objects`, `Calls`). The state is the
thread table, the process table with the process calls that are under way, the registers, rflags,
word-addressed memory, a phase, and the timer's in-service bit. Its steps are: boot or thread code
doing anything to registers, flags and memory outside other threads' stacks; each section of
create_process and of exit_process; interrupt delivery; end of interrupt; tick with or without a
stack switch; handler return; entry of a fresh thread. A run is any sequence of enabled steps from a
state satisfying the invariant, in particular from boot, so the timer may strike between any two
sections of a process call. `Scheduling` holds the round-robin policy on thread states alone;
`Guarantees.RunIsHistory` carries its results over to whole runs. `Scenarios` puts runs together;
`Starvation` and `Windows` use it for runs from boot that show the waiting bound needs its spawn term,
that interrupted threads do come back, and what a timer interrupt inside exit_process or
create_process can do. `Objects` and `Calls` are the kernel's own structures updated in place, each
method proved against the value functions the runs are made of.

**Frames, page tables and the heap** (`Frames`, `Paging`, `Mapping`, `PageMapper`, `Heap`). The frame allocator
is a cursor over the list recomputed on each call; the four-level walk is a radix lookup; `map_to`
is given an explicit model that draws zeroed tables from the same allocator as the page frames.

**PCI configuration space** (`PciConfig`, `PciEnumeration`). The address word, the sub-doubleword
writes on plain-storage configuration space, and the bus scan.

Assumptions, apart from what the contracts say:

- One CPU. A section the kernel runs under a lock, and a tick, is one step. create_process is four:
  insert, TID draw, add with the stack it has set up, record. exit_process is the Zombie mark and one
  mark for each TID listed then; marks still to be made may be made in any order, by any thread.
- Stacks are disjoint and the interrupted stack has room for the handler (`Enabled` of `Deliver`);
  thread code leaves other threads' stacks and the two tables alone.
- PIDs and TIDs do not reach 2^64; region ends stay below 2^52, where the crate's physical
  addresses end.
- The compiled handler keeps to the psABI: it saves the scratch registers, leaves the callee-saved
  ones alone, and uses a fixed number of stack words (`Image.pad`). The target has no red zone.
- No table on the way to a heap page is also used as one of a higher level (`LowHeap`). Tables may
  otherwise be shared and may be seen from lower levels; whether other addresses then change is
  decided by `ClearHeap`, and both hold whenever root entry 320 is unused and the root is not also a
  table of a lower level (`FreeEntry`).
- An unused page-table entry is all zero; non-zero entries without the present bit do not occur.

Where the code and its comments differ the model follows the code: `Task::new` in the comment on
`context_switch` is `ThreadControlBlock::new`, and `stack_top` is rounded down, so up to 15 bytes of
an unaligned stack stay unused.

## Model

| member | source | states |
|---|---|---|
| `Scheduling.NextReadyIsNearest` | kernel/src/scheduler.rs:105-117 | the round-robin scan finds a thread exactly when another one is Ready, and the one it finds is the Ready thread that comes first on the ring |
| `Scheduling.RingIsModular` | kernel/src/scheduler.rs:110-111 | the division-free ring arithmetic of the proofs is the source's `(current + i) % n` and its inverse |
| `Scheduling.TickSwitches` | kernel/src/scheduler.rs:119-133 | a tick switches exactly when somebody else is Ready, to the nearest, never to itself; only the two threads involved change state |
| `Scheduling.MoveKeepsOneRunner` | kernel/src/scheduler.rs:100-153 | at most one thread is Running and it is `current`; `current` is Running or Exited, all others Ready or Exited, after ticks, spawns and exits |
| `Scheduling.ExitIsFinal` | kernel/src/scheduler.rs:105-153 | over every history an Exited thread stays Exited and, once not current, is never current again |
| `Scheduling.ExitedCurrentLeavesForGood` | kernel/src/scheduler.rs:105-133 | an Exited current thread is left for good by the first tick that finds someone Ready |
| `Scheduling.WaitingStep` | kernel/src/scheduler.rs:105-133 | each tick brings a waiting thread nearer, only a spawn can push it back, by one slot at most |
| `Scheduling.BoundedWaiting` | kernel/src/scheduler.rs:105-127 | a Ready thread that does not exit becomes current within (ring distance + spawns meanwhile) ticks |
| `Scheduling.SpawnsStarve` | kernel/src/scheduler.rs:100-102 | the spawn term is needed: for every k there is a history of k spawn-then-tick pairs in which a Ready thread never runs |
| `Scheduling.BootQueueStarves` | kernel/src/scheduler.rs:100-127 | such a history exists from the queue of `Scenarios.InitQueue`: after its first tick the idle thread waits for any number of pairs |
| `Scenarios.InitQueue` | kernel/src/scheduler.rs:237-270 | the state `Calls.InitScheduler` leaves has the run queue Running, Ready, Ready with the idle thread current |
| `Scenarios.CreateRun` | kernel/src/process.rs:69-106 | the four sections of create_process, when they follow each other, are enabled one after the other and amount to `Created` |
| `Scenarios.ExitRun` | kernel/src/process.rs:109-127 | the Zombie mark and the marks of exit_process, when they follow each other, are enabled one after the other and amount to `ExitProcess` |
| `Scenarios.TurnRun` | kernel/src/interrupts.rs:185-196 | interrupt, acknowledge, tick and trampoline take an interruptible thread to the fresh thread whose turn it is, which is interruptible in its turn; the thread left returns to its tick, other fresh threads stay fresh, the process table does not change |
| `Starvation.IdleStarves` | kernel/src/scheduler.rs:100-127 | for every number k of newcomers whose stacks fit into the address space there is a kernel run from boot with k + 2 ticks in which, from the first tick on, the idle thread is Ready and never current: the bound of `ThreadsWaitBoundedly` needs its spawn term |
| `Scheduling.RoundRobin` | kernel/src/scheduler.rs:105-127 | after k ticks of a period the k-th live thread of the ring runs and nothing else has changed |
| `Scheduling.RoundRobinPeriod` | kernel/src/scheduler.rs:105-127 | L ticks with L live threads run each of them exactly once in ring order and restore the whole queue |
| `Machine.SwitchOutLeavesFrame` | kernel/src/context.rs:34-41 | switching out leaves an intact seven-word frame below rsp, r15 lowest, rbx highest and the return address above it, and touches nothing else |
| `Machine.SwitchRoundTrip` | kernel/src/context.rs:34-53 | the two halves of the switch are inverse: whatever the processor did in between, if the seven words are untouched, switching in gives back the callee-saved registers, the return address and rsp of the switch out |
| `Kernel.InitialFrame` | kernel/src/scheduler.rs:35-73 | for every stack base, aligned or not, the seven initial words lie inside the 16 KiB stack and are the frame the first switch pops; the entry is 32 bytes and the trampoline 8 bytes below the aligned top, and every other word of the stack is 0 |
| `Kernel.BootInv` | kernel/src/scheduler.rs:237-266 | the state with the idle thread only, empty context and all, satisfies the machine's invariant |
| `Registry.ListedOnce` | kernel/src/process.rs:91-98 | a TID a process lists names exactly one thread, which carries that PID and is listed by no other process |
| `Sections.AddAccounts` | kernel/src/scheduler.rs:176-181 | a new thread, even of a process exited meanwhile, keeps the account: a thread is Exited only in a Zombie not exited while being created, and there it is Exited or still to be marked |
| `Sections.ZombieAccounts` | kernel/src/process.rs:110-119 | so does the Zombie mark, whatever create_process or other exits are under way |
| `Sections.MarkAccounts` | kernel/src/process.rs:122-124 | so does each single thread mark |
| `Sections.StoppedExactly` | kernel/src/process.rs:108-127 | all threads of a Zombie are Exited if and only if the marks still to be made have all been made to them already and its last exit did not come while it was being created |
| `Sections.AddProcessAgrees` | kernel/src/process.rs:69-99 | run to its end, create_process adds exactly one process with PID 0 for parent and one Ready thread, under a PID and a TID nobody had, and the tables agree |
| `Registry.MarkFirstMarksOne` | kernel/src/scheduler.rs:146-153 | marking stops at the first match and with distinct TIDs that is the only one |
| `Sections.ExitProcessIsExact` | kernel/src/process.rs:109-124 | run to its end, exit_process changes the state of exactly the recorded threads of that PID; an unknown PID changes nothing |
| `Sections.ExitProcessAgrees` | kernel/src/process.rs:109-124 | run to its end, exit_process keeps the tables in agreement and the account of Zombies and their threads |
| `Sections.PrepareSwitchAgrees` | kernel/src/scheduler.rs:119-133 | ticks keep the tables in agreement and the account of Zombies and their threads |
| `KernelSteps.EnterHandlerParks` | kernel/src/interrupts.rs:185-196 | entering the handler goes to its address, parks the interrupted registers below rsp, with interrupts on in the saved flags and the code and stack segments in their words, and touches nothing else |
| `KernelSteps.TickSwapsStacks` | kernel/src/scheduler.rs:161-172 | a tick that switches parks the running thread in a seven-word frame and pops the frame of the thread it switches to |
| `KernelSteps.StepSpares` | kernel/src/context.rs:31-54 | no step of any kind touches the saved rsp or the stack of a thread that is not running |
| `KernelSteps.StepKeepsInv` | kernel/src/scheduler.rs:161-172 | every step (thread code, each section of a create or exit, interrupt, acknowledge, tick, handler return, thread entry) keeps the invariant |
| `Runs.RunKeepsInv` | kernel/src/scheduler.rs:161-172 | every state of every run satisfies the invariant, also with the timer striking between the sections of process calls |
| `Runs.Undisturbed` | kernel/src/context.rs:31-54 | however many steps others take, a thread that is away keeps its saved rsp and its whole stack |
| `Runs.SwitchPopsOwnFrame` | kernel/src/context.rs:13-15 | every switch pops a frame inside the stack of the thread switched to, so the idle thread's empty rsp is never loaded |
| `Runs.SwitchRestores` | kernel/src/context.rs:33-53 | each resumption restores exactly rbx, rbp, r12 to r15, rsp, the return address and the stack of the last switch-out, whatever ran in between |
| `Runs.FirstSwitchIn` | kernel/src/scheduler.rs:95-127 | the first switch to a new thread reaches the trampoline with r12 = entry, the other registers 0 and rsp at its own aligned stack top |
| `Runs.FirstEntry` | kernel/src/scheduler.rs:80-83 | the entry function starts with interrupts on, rsp + 8 a multiple of 16 (section 3.2.2 of the psABI) and the trampoline's return address on top of the stack |
| `Guarantees.InterruptIsTransparent` | kernel/src/interrupts.rs:185-196 | when the handler of an interrupted thread returns, all registers, rip, rsp, rflags and the stack are as they were when the timer struck |
| `Guarantees.CodeIsPreemptible` | kernel/src/interrupts.rs:185-196 | from entry until a thread itself masks interrupts, IF is set and the timer is not in service, whether entered at boot, fresh or resumed |
| `Guarantees.TailNeverStuck` | kernel/src/scheduler.rs:80-83 | after any tick exactly one continuation is open, the handler's return or the trampoline, with the interrupt already acknowledged |
| `Guarantees.RunIsHistory` | kernel/src/scheduler.rs:161-172 | every run of the kernel moves its run queue by the policy's moves only |
| `Guarantees.TicksSwitchToNearest` | kernel/src/scheduler.rs:105-133 | in every run a tick switches exactly when another thread is Ready, to the nearest one |
| `Guarantees.OthersAlwaysParked` | kernel/src/scheduler.rs:53-72 | in every reachable state each thread but the current one has its saved rsp at an intact frame in its own stack |
| `Guarantees.ThreadsWaitBoundedly` | kernel/src/scheduler.rs:105-127 | bounded waiting for whole kernel runs, under any interleaving of thread code, interrupts, creations and exits |
| `Guarantees.ThreadsTakeTurns` | kernel/src/scheduler.rs:105-127 | in runs without creations and exits the k-th tick runs the k-th live thread of the ring and a full period restores the queue |
| `Guarantees.ExitedThreadsStayOut` | kernel/src/scheduler.rs:146-153 | in every run an Exited thread stays Exited and, once switched out, never runs again |
| `Guarantees.ExitedCurrentNeverReturns` | kernel/src/scheduler.rs:119-127 | in every run an Exited current thread is left for good by the first tick that finds another thread Ready |
| `Guarantees.ZombiesStayStopped` | kernel/src/process.rs:108-127 | a Zombie process stays one; in every later state of the run all its threads are Exited if and only if the marks of the exits under way have reached them and its last exit did not come while it was being created |
| `Guarantees.OrphansExitedTooSoon` | kernel/src/process.rs:110-119 | which processes those are can be read off the run: some exit found the process still being created and no later one found it recorded |
| `Guarantees.ExitsComplete` | kernel/src/process.rs:108-127 | with no exit_process under way, a Zombie's threads are all Exited if and only if it was not exited too soon in that sense |
| `Guarantees.OrphansRunOn` | kernel/src/process.rs:93-99 | a process exited too soon is never stopped: until it is exited once more none of its threads is Exited |
| `Windows.ZombieRuns` | kernel/src/process.rs:119-124 | a run from boot in which the timer strikes between the Zombie mark and the thread marks: the Zombie's thread is given the processor and runs |
| `Windows.OrphanIsNeverMarked` | kernel/src/process.rs:87-99 | a run from boot in which a new thread exits its own process before it is recorded: both calls return, no mark is pending, and the Zombie keeps a Ready thread |
| `Guarantees.TablesAlwaysAgree` | kernel/src/process.rs:42-50 | in every state of every run the thread table and the process table agree: a thread is listed by its process exactly unless create_process has still to record it; IDs are unique, the next PID and TID are unused, TID 0 is the idle thread's |
| `Windows.FirstPreemption` | kernel/src/scheduler.rs:237-270 | the machine does preempt: from boot, one timer interrupt enters the first new thread at its entry function with interrupts on |
| `Windows.IdleComesBack` | kernel/src/interrupts.rs:185-196 | and it does return: a run from boot in which the interrupted idle thread, after another thread has run, goes on with the registers, flags and stack it had |
| `Objects.Scheduler.NextReadyThread` | kernel/src/scheduler.rs:105-117 | the loop returns None exactly when nobody else is Ready and otherwise the nearest Ready index |
| `Objects.Scheduler.PrepareSwitch` | kernel/src/scheduler.rs:119-133 | the in-place update rotates the queue, changes no other field, and names the two contexts |
| `Objects.Scheduler.MarkExited` | kernel/src/scheduler.rs:146-153 | the loop marks the first thread with the TID and leaves the table alone if there is none |
| `Objects.Scheduler.SpawnThread` | kernel/src/scheduler.rs:35-73 | the stack words written one by one on a zeroed stack make the initial frame, every other word of the 16 KiB is 0 whatever was there before, and nothing outside changes; the new thread is Ready with the next TID and rsp at the frame |
| `Objects.ContextSwitch` | kernel/src/context.rs:31-54 | the pushes, the two moves and the pops, instruction by instruction, amount to one frame stored and one frame loaded, also when both contexts are the same |
| `Calls.Tick` | kernel/src/scheduler.rs:161-172 | the in-place tick is the machine's tick step, and may only run once the interrupt is acknowledged |
| `Calls.TimerInterruptHandler` | kernel/src/interrupts.rs:185-196 | the handler is the acknowledge step followed by the tick step, in that order |
| `Calls.HandlerMayRun` | kernel/src/context.rs:24-29 | the invariant meets the demands the safety comment of context_switch makes of its callers |
| `Calls.InsertSection` | kernel/src/process.rs:70-87 | the first locked section is the machine's insert step |
| `Calls.SpawnSection` | kernel/src/scheduler.rs:176-181 | spawn_thread is the TID draw and the add step, with the initial frame on the new stack |
| `Calls.RecordSection` | kernel/src/process.rs:94-99 | the last locked section is the machine's record step |
| `Calls.CreateProcess` | kernel/src/process.rs:69-106 | create_process is those steps in that order, which amount to one new process with one new thread, and returns its PID |
| `Calls.ZombieSection` | kernel/src/process.rs:110-119 | the locked section of exit_process is the machine's Zombie mark and clones the TIDs to be marked, or finds no such process |
| `Calls.MarkSection` | kernel/src/scheduler.rs:184-186 | mark_thread_exited is the machine's mark step |
| `Calls.ExitProcess` | kernel/src/process.rs:109-127 | exit_process is the Zombie mark followed by one mark for each TID listed then, in order, each its own locked section |
| `Calls.InitScheduler` | kernel/src/scheduler.rs:237-270 | scheduler::init amounts to the boot state followed by two whole create_process calls: it leaves exactly the kernel process with the running idle thread and processes 1 and 2, "demo_a" and "demo_b", with one Ready thread each, whose stacks start at the entry function of their own demo task |
| `Frames.AbyssFrameAllocator.AllocateFrame` | kernel/src/memory/page_allocator.rs:33-37 | each call gives the frame the closed form names for its cursor and moves the cursor even on None |
| `Frames.RegionIsClosedForm` | kernel/src/memory/page_allocator.rs:20-29 | stepping and filtering one usable region gives consecutive frames from the first grid address at or above 1 MiB |
| `Frames.KthCallIsClosedForm` | kernel/src/memory/page_allocator.rs:20-37 | for every memory map the k-th call agrees with the closed form from per-region counts |
| `Frames.GivenInMapOrder` | kernel/src/memory/page_allocator.rs:20-37 | on a map with aligned region ends a later call gives a frame of the same usable region, higher up, or of a later one |
| `Frames.NoneIsForever` | kernel/src/memory/page_allocator.rs:33-37 | after the first None every later call is None |
| `Frames.FramesAboveOneMiB` | kernel/src/memory/page_allocator.rs:21-27 | for every memory map, every frame starts at or above 0x100000, a multiple of 4096 |
| `Frames.NeverTwice` | kernel/src/memory/page_allocator.rs:20-37 | no frame is handed out twice if and only if the frame spans of the regions do not overlap |
| `Frames.AlignedNeverTwice` | kernel/src/memory/page_allocator.rs:20-37 | disjoint usable regions with aligned starts never give a frame twice |
| `Frames.ExactlyTheUsableFrames` | kernel/src/memory/page_allocator.rs:20-37 | with aligned ends too, the frames handed out are exactly those lying wholly in a usable region at or above 1 MiB |
| `Frames.EachUsableFrameOnce` | kernel/src/memory/page_allocator.rs:20-37 | on a well-formed memory map the successful calls enumerate every usable frame at or above 1 MiB exactly once |
| `Frames.FramesInsideRegions` | kernel/src/memory/page_allocator.rs:20-37 | for every disjoint memory map, aligned or not, each frame handed out lies wholly in a usable region if and only if both ends of each region's span lie in that region |
| `Frames.SpanInsideRegion` | kernel/src/memory/page_allocator.rs:24-28 | the step for one region: all frames of its span lie in it if and only if both ends of the span do |
| `Frames.UnalignedGivesTwice` | kernel/src/memory/page_allocator.rs:28 | two disjoint unaligned regions give the same frame twice, and it lies in neither |
| `Paging.IndicesRebuildAddress` | kernel/src/memory/mod.rs:41-46 | the four indices and the page offset rebuild the low 48 bits of the address |
| `Paging.BuiltAddressPath` | kernel/src/memory/mod.rs:41-46 | the inverse: an address built from four indices and an offset is walked by those indices, highest level first |
| `Paging.SamePageSamePath` | kernel/src/memory/mod.rs:41-46 | two addresses share all four indices exactly when they share the page of the low 48 bits |
| `Paging.VirtualToPhysical` | kernel/src/memory/mod.rs:35-63 | the iterative walk with early return is the recursive four-level radix lookup, for every table graph, a huge entry being the panic |
| `Paging.NotMappedIffLevelMissing` | kernel/src/memory/mod.rs:55-57 | the walk gives None exactly when the table of some level has no entry for its index |
| `Paging.TranslateKeepsOffset` | kernel/src/memory/mod.rs:62 | a translation keeps the low 12 bits, and addresses of one page go to one frame |
| `Mapping.LinkKeeps` | kernel/src/memory/heap_allocator.rs:45 | adding a table or a page never changes a walk that already led somewhere |
| `Mapping.LinkTables` | kernel/src/memory/heap_allocator.rs:45 | the only new table a link can add is the one drawn for it |
| `Mapping.LinkExact` | kernel/src/memory/heap_allocator.rs:45 | a link changes the walk through the new entry and no other if and only if the table it is made in is reached in one way only |
| `Mapping.NewTableIsEmpty` | kernel/src/memory/heap_allocator.rs:45 | a new table, even linked into a shared one, changes no walk but those that end at it through the new entry |
| `Mapping.LinkKeepsClear` | kernel/src/memory/heap_allocator.rs:45 | a link made where the way is sole leaves clear every way that was |
| `PageMapper.Mapper.MapTo` | kernel/src/memory/heap_allocator.rs:45 | the page is mapped exactly when it was free and the allocator had a frame for every missing table; tables come from the allocator, nothing is overwritten; each of the three errors comes exactly when the tables before the call, with the frames left, say so; new tables change no translation if those on the way are used on their own level only, and no other page changes if the way is clear |
| `Heap.HeapPaths` | kernel/src/memory/heap_allocator.rs:13-38 | a heap address has the path of its own page and of no other heap page |
| `Heap.PagePathsDiffer` | kernel/src/memory/heap_allocator.rs:13-38 | the 8192 heap pages have pairwise different paths |
| `Heap.PagePathIs` | kernel/src/memory/heap_allocator.rs:13-38 | page k is walked by 320, 0, k / 512, k % 512: one level-3, one level-2 and sixteen level-1 tables |
| `Heap.HeapInit` | kernel/src/memory/heap_allocator.rs:28-60 | Ok means the whole 32 MiB from 0xffff_a000_0000_0000 are mapped: byte off to byte off % 4096 of frame off / 4096; each error names its cause in the tables; in every case exactly the prefix `frames` is mapped, frames differ, none is a page table, none is handed out again; on Ok, and in every case when the tables on the way are used on their own level only, all other addresses translate as before if and only if the ways to the mapped pages were clear; with root entry 320 unused and no recursive root they always do, and Ok comes exactly when the allocator had 8192 + 18 frames |
| `Heap.MissingForPage` | kernel/src/memory/heap_allocator.rs:40-46 | below a free root entry, mapping page n needs 3 new tables for the first page, 1 for the first page of each further 512, and none otherwise |
| `Heap.HeapIsMapped` | kernel/src/memory/heap_allocator.rs:40-46 | what the loop's invariant means for every address, mapped or not |
| `Heap.OthersKeptIffClear` | kernel/src/memory/heap_allocator.rs:40-46 | the condition: each table on the way to a mapped page was reached in no other way, except from a lower level where the next table of the way was there already |
| `Heap.FreeEntryIsClear` | kernel/src/memory/heap_allocator.rs:13-14 | an unused root entry 320, in a root that is no table of a lower level, implies that condition and all demands on the tables, whatever the other tables share |
| `Heap.SharedGraphIsUnclear` | kernel/src/memory/heap_allocator.rs:45 | tables whose root entries 0 and 320 share one table meet all demands of HeapInit but the ways to the heap are not clear |
| `Heap.BootFramesAvailable` | kernel/src/memory/page_allocator.rs:33-37 | a well-formed memory map meets HeapInit's demands on the allocator as long as no usable frame holds a boot page table |
| `Heap.SharedTableMapsTwice` | kernel/src/memory/heap_allocator.rs:45 | on those tables, map_to of the first heap page succeeds and also maps address 0, which was not mapped |
| `Heap.RecursiveGraphIsUnclear` | kernel/src/memory/heap_allocator.rs:45 | tables with a recursive root entry meet the demands of HeapInit too, but although entry 320 is unused the way to the first heap page is not clear |
| `Heap.RecursiveRootShowsTable` | kernel/src/memory/heap_allocator.rs:45 | on those tables map_to of the first heap page succeeds and its level-3 table is seen at an address that was not mapped |
| `PciConfig.AddressesNeverAlias` | kernel/src/acpi/handler.rs:271-277 | address words are equal exactly when bus, device, function and doubleword are |
| `PciConfig.AddressWord` | kernel/src/acpi/handler.rs:271-277 | the word latched is, as a number, the enable bit plus bus, device, function and doubleword offset in their places, with every reserved bit 0 |
| `PciConfig.MergeByteLanes` | kernel/src/acpi/handler.rs:105-111 | the read-modify-write of a byte replaces that byte and keeps the other three |
| `PciConfig.MergeHalfLanes` | kernel/src/acpi/handler.rs:113-119 | the read-modify-write of a half replaces the two bytes of the aligned half and keeps the others |
| `PciConfig.WriteIsByteWrite` | kernel/src/acpi/handler.rs:105-123 | one write changes exactly the bytes it names of the function it names |
| `PciConfig.WritesRefineByteArray` | kernel/src/acpi/handler.rs:105-123 | any sequence of writes refines a little-endian byte array observed through doubleword reads |
| `PciConfig.DwordIsItsBytes` | kernel/src/acpi/handler.rs:279-285 | a doubleword read is the four bytes of the array, lowest first |
| `PciConfig.ByteReadBack` | kernel/src/acpi/handler.rs:92-94 | read_pci_u8 gives the lowest byte of the doubleword that holds the offset, so it gives back a byte just written if and only if the offset is doubleword-aligned or the lowest byte happens to be equal |
| `PciConfig.HalfReadBack` | kernel/src/acpi/handler.rs:96-98 | read_pci_u16 gives the lowest two bytes of the doubleword that holds the offset, so it gives back a half just written if and only if it was written to the lower half of its doubleword or the lower half happens to be equal |
| `PciConfig.ConfigPorts.WriteU8` | kernel/src/acpi/handler.rs:105-111 | the port sequence latches the address word of the offset and performs the byte write on configuration space |
| `PciConfig.ConfigPorts.WriteU16` | kernel/src/acpi/handler.rs:113-119 | the port sequence latches the address word of the offset and performs the half write on configuration space |
| `PciConfig.ConfigPorts.WriteU32` | kernel/src/acpi/handler.rs:121-123 | the port sequence latches the address word of the offset and performs the doubleword write on configuration space |
| `PciEnumeration.EnumeratePci` | kernel/src/pcie.rs:40-79 | for every configuration space the three loops log exactly the functions to be found, each once and in order, with their registers' fields |
| `PciEnumeration.ScanDevice` | kernel/src/pcie.rs:43-76 | the inner loop with its continue and break handles exactly one device |
| `PciEnumeration.ScanFindsExactlyThem` | kernel/src/pcie.rs:40-79 | in bytes of configuration space: a function is logged if and only if one of its first four bytes is not 0xFF and it has f = 0 or a function 0 that is absent or has bit 7 of byte 14 set; its vendor is bytes 0 and 1, its device bytes 2 and 3, its programming interface, subclass and class bytes 9, 10 and 11; entries are distinct and in lexicographic order |

## Left out

- Deadlock freedom of the spin locks: tick takes the scheduler lock in interrupt context while threads take it with interrupts on, so the code does not guarantee progress there.
- Who makes the marks of an exit: a thread that is itself marked before it has marked the others never finishes its exit; the model does not say which thread a pending mark waits for.
- Lifetimes of the raw context pointers prepare_switch returns: contexts are named by thread index.
- The timer, keyboard, error and exception handlers other than the timer's, the IDT and GDT contents, and the local APIC beyond its in-service bit.
- The Blocked thread state is never entered by this code; the invariant says so.
- Calls.CreateProcess: reads of CR3 become a constant, as all processes share the kernel page table, and the stack base is a parameter standing for the heap allocator's answer.
- PageMapper.Mapper.MapTo: models the crate's map_to and its table creation; flags and TLB flushes are not modelled, nor the initialisation of linked_list_allocator after the loop.
- Paging.VirtualToPhysical: physical memory is read as tables directly instead of through the physical-memory offset.
- PciConfig.WritesRefineByteArray: is about plain storage; registers that change value on their own or ignore writes are not modelled, and the segment number is dropped as in the source.
- PciEnumeration.EnumeratePci: the log line's description text is not modelled.
- Console, BGA, logo, serial, logging, QEMU exit, ACPI and APIC set-up, and the allocation self-test: display, device set-up and a boot self-test.
