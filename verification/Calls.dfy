/** The timer handler and the process calls, over the objects of `Objects`. */
module Calls {
  import opened Common
  import opened Machine
  import opened Scheduling
  import opened Registry
  import opened Sections
  import opened Kernel
  import opened Scenarios
  import opened Objects

  /** The local APIC, as far as the timer goes. */
  class LocalApic {
    var inService: bool

    constructor ()
      ensures !inService
    {
      inService := false;
    }

    method EndInterrupt()
      modifies this
      ensures !inService
    {
      inService := false;
    }
  }

  class ProcessTable {
    var processes: map<nat, Process>
    var nextPid: nat

    constructor ()
      ensures processes == map[] && nextPid == 0
    {
      processes, nextPid := map[], 0;
    }

    method AllocPid() returns (pid: nat)
      modifies this`nextPid
      ensures pid == old(nextPid) && nextPid == old(nextPid) + 1
    {
      pid := nextPid;
      nextPid := nextPid + 1;
    }

    method Insert(p: Process)
      modifies this`processes
      ensures processes == old(processes)[p.pid := p]
    {
      processes := processes[p.pid := p];
    }
  }

  /** The two tables, with the calls that are pending on them. */
  function TablesOf(sched: Scheduler, table: ProcessTable, p: Pending): Tables
    reads sched, table
  {
    Tables(sched.threads, sched.current, sched.nextTid, table.processes, table.nextPid, p)
  }

  function SysOf(i: Image, sched: Scheduler, table: ProcessTable, p: Pending, cpu: Processor, lapic: LocalApic,
                 phase: Phase): Sys
    reads sched, table, cpu, lapic
  {
    Sys(i, TablesOf(sched, table, p), cpu.View(), phase, lapic.inService)
  }

  /** Every saved context can be popped, as the safety comment of `context_switch` asks. */
  ghost predicate ContextsPoppable(sched: Scheduler)
    reads sched
  {
    forall k | 0 <= k < |sched.threads| && k != sched.current ::
      sched.threads[k].context.rsp + 56 < WORD_LIMIT
  }

  lemma {:induction false} PushedFrame(m: Memory, rsp: int, c: Callee, ret: Word)
    ensures StoreBlock(m[rsp - 8 := ret], rsp - 56, FrameWords(c, ret)) == StoreBlock(m, rsp - 56, FrameWords(c, ret))
  {
    SevenPushes(m[rsp - 8 := ret], rsp - 56, c, ret);
    SevenPushes(m, rsp - 56, c, ret);
    assert m[rsp - 8 := ret][rsp - 8 := ret] == m[rsp - 8 := ret];
  }

  /** `call context_switch`: pushes the return address, then switches. */
  method CallContextSwitch(cpu: Processor, sched: Scheduler, from: nat, to: nat, ret: Word)
    requires from < |sched.threads| && to < |sched.threads|
    requires 56 <= cpu.rsp
    requires to != from ==> sched.threads[to].context.rsp + 56 < WORD_LIMIT
    modifies cpu, sched`threads
    ensures sched.threads ==
      old(sched.threads)[from := old(sched.threads)[from].(context := TaskContext(old(cpu.rsp) - 56))]
    ensures cpu.View() == SwitchIn(old(cpu.View()).(mem := SwitchOutMemory(old(cpu.View()), ret)),
                                   sched.threads[to].context.rsp)
  {
    PushedFrame(cpu.mem, cpu.rsp, cpu.View().callee, ret);
    cpu.Push(ret);
    ContextSwitch(cpu, sched, from, to);
  }

  lemma {:induction false} SwitchedIsTick(s: Sys, s': Sys)
    requires s.tables.current < |s.tables.threads| && 56 <= s.cpu.rsp
    requires PrepareSwitch(s.tables).current != s.tables.current
    requires |PrepareSwitch(s.tables).threads| == |s.tables.threads|
    requires s'.tables == SaveContext(PrepareSwitch(s.tables), s.tables.current, s.cpu.rsp - 56)
    requires s'.tables.current < |s'.tables.threads|
    requires s'.cpu == SwitchIn(s.cpu.(mem := SwitchOutMemory(s.cpu, s.image.tickResume)),
                                s'.tables.threads[s'.tables.current].context.rsp)
    requires s' == s.(tables := s'.tables, cpu := s'.cpu, phase := Tail)
    ensures s' == ApplyTick(s)
  {
  }

  /** `tick`, which may only be reached once the interrupt has been acknowledged: afterwards
      the processor may be deep inside another thread. */
  method Tick(cpu: Processor, sched: Scheduler, table: ProcessTable, lapic: LocalApic, i: Image, ghost p: Pending)
    requires sched.Valid() && !lapic.inService
    requires 56 <= cpu.rsp && ContextsPoppable(sched)
    modifies cpu, sched
    ensures SysOf(i, sched, table, p, cpu, lapic, Tail) ==
      ApplyTick(old(SysOf(i, sched, table, p, cpu, lapic, Acknowledged)))
  {
    ghost var s := SysOf(i, sched, table, p, cpu, lapic, Acknowledged);
    if s.tables.threads != [] {
      PrepareSwitchRotates(s.tables);
      NextReadyIsNearest(Queue(s.tables));
    }
    var switch := sched.PrepareSwitch();
    assert TablesOf(sched, table, p) == PrepareSwitch(s.tables);
    if switch.Some? {
      assert Nearest(Queue(s.tables), sched.current);
      CallContextSwitch(cpu, sched, switch.value.0, switch.value.1, i.tickResume);
      SwitchedIsTick(s, SysOf(i, sched, table, p, cpu, lapic, Tail));
    } else {
      cpu.rip := i.tickResume;
    }
  }

  /** Wherever the machine can be in the handler, the calls below may be made. */
  lemma {:induction false} HandlerMayRun(s: Sys)
    requires Inv(s) && s.phase in {Handler, Acknowledged}
    ensures s.tables.current < |s.tables.threads| && 56 <= s.cpu.rsp
    ensures forall k | 0 <= k < |s.tables.threads| && k != s.tables.current ::
      s.tables.threads[k].context.rsp + 56 < WORD_LIMIT
    ensures s.phase == Acknowledged ==> !s.inService
  {
    forall k | 0 <= k < |s.tables.threads| && k != s.tables.current
      ensures s.tables.threads[k].context.rsp + 56 < WORD_LIMIT
    {
      assert FrameIntact(s.image, s.tables.threads[k], s.cpu.mem);
    }
  }

  /** The handler acknowledges first, then ticks: the two steps of the machine, in that order. */
  method TimerInterruptHandler(cpu: Processor, sched: Scheduler, table: ProcessTable, lapic: LocalApic, i: Image,
                               ghost p: Pending)
    requires sched.current < |sched.threads|
    requires 56 <= cpu.rsp && ContextsPoppable(sched)
    modifies cpu, sched, lapic
    ensures SysOf(i, sched, table, p, cpu, lapic, Tail)
         == Apply(Apply(old(SysOf(i, sched, table, p, cpu, lapic, Handler)), Acknowledge), TimerTick)
  {
    lapic.EndInterrupt();
    Tick(cpu, sched, table, lapic, i, p);
  }

  // ---------------------------------------------------------------------
  // create_process
  // ---------------------------------------------------------------------

  /** The first locked section: a PID and an entry without threads. */
  method InsertSection(ghost sched: Scheduler, table: ProcessTable, i: Image, name: string, ghost p: Pending)
      returns (pid: nat, ghost q: Pending)
    modifies table
    ensures pid == old(table.nextPid)
    ensures TablesOf(sched, table, q) == InsertProcess(old(TablesOf(sched, table, p)), name, i.pageTable)
  {
    q := InsertProcess(TablesOf(sched, table, p), name, i.pageTable).pending;
    pid := table.AllocPid();
    var parent := if pid == 0 then None else Some(0);
    table.Insert(Process(pid, name, Alive, parent, [], None, i.pageTable));
  }

  /** `spawn_thread`: a TID is drawn, the stack set up, and the thread added under the lock. */
  method SpawnSection(cpu: Processor, sched: Scheduler, ghost table: ProcessTable, i: Image, pid: nat, entry: Word,
                      base: int,
                      ghost p: Pending) returns (tid: nat, ghost q: Pending)
    requires 0 < base && base + KERNEL_STACK_SIZE < WORD_LIMIT
    modifies sched, cpu`mem
    ensures tid == old(sched.nextTid)
    ensures TablesOf(sched, table, q) ==
      AddThread(DrawTid(old(TablesOf(sched, table, p)), pid), pid,
                TaskContext(StackTop(base) - 56), Stack(base, base + KERNEL_STACK_SIZE))
    ensures q.creating == p.creating[pid := Spawned(tid)]
    ensures cpu.mem == InitialMemory(old(cpu.mem), base, entry, i.trampoline)
  {
    q := AddThread(DrawTid(TablesOf(sched, table, p), pid), pid,
                   TaskContext(StackTop(base) - 56), Stack(base, base + KERNEL_STACK_SIZE)).pending;
    tid := sched.SpawnThread(cpu, i, pid, entry, base);
    assert p.creating[pid := Drawn(tid)][pid := Spawned(tid)] == p.creating[pid := Spawned(tid)];
  }

  /** The last locked section: the TID is pushed if the process is still there. */
  method RecordSection(ghost sched: Scheduler, table: ProcessTable, pid: nat, tid: nat, ghost p: Pending)
      returns (ghost q: Pending)
    requires pid in p.creating && p.creating[pid] == Spawned(tid)
    modifies table`processes
    ensures TablesOf(sched, table, q) == RecordThread(old(TablesOf(sched, table, p)), pid)
  {
    q := RecordThread(TablesOf(sched, table, p), pid).pending;
    if pid in table.processes {
      var pcb := table.processes[pid];
      table.processes := table.processes[pid := pcb.(threads := pcb.threads + [tid])];
    }
  }

  /** A process with a main thread on the fresh stack at `base`: the four steps of the machine, in
      that order. */
  method CreateProcess(cpu: Processor, sched: Scheduler, table: ProcessTable, i: Image,
                       name: string, entry: Word, base: int, ghost p: Pending) returns (pid: nat, ghost q: Pending)
    requires 0 < base && base + KERNEL_STACK_SIZE < WORD_LIMIT
    modifies sched, table, cpu`mem
    ensures pid == old(table.nextPid)
    ensures TablesOf(sched, table, q) ==
      AddProcess(old(TablesOf(sched, table, p)), name, TaskContext(StackTop(base) - 56),
                 Stack(base, base + KERNEL_STACK_SIZE), i.pageTable)
    ensures cpu.mem == InitialMemory(old(cpu.mem), base, entry, i.trampoline)
  {
    var tid;
    pid, q := InsertSection(sched, table, i, name, p);
    tid, q := SpawnSection(cpu, sched, table, i, pid, entry, base, q);
    q := RecordSection(sched, table, pid, tid, q);
  }

  // ---------------------------------------------------------------------
  // exit_process
  // ---------------------------------------------------------------------

  /** The Zombie mark, and the TIDs to be marked after it; None for an unknown PID. */
  method ZombieSection(ghost sched: Scheduler, table: ProcessTable, pid: nat, code: int, ghost p: Pending)
      returns (threadIds: Option<seq<nat>>, ghost q: Pending)
    modifies table`processes
    ensures TablesOf(sched, table, q) == MarkZombie(old(TablesOf(sched, table, p)), pid, code)
    ensures threadIds == if pid in old(table.processes) then Some(old(table.processes)[pid].threads) else None
  {
    q := MarkZombie(TablesOf(sched, table, p), pid, code).pending;
    if pid !in table.processes {
      return None, q;
    }
    var pcb := table.processes[pid];
    table.processes := table.processes[pid := pcb.(state := Zombie, exitCode := Some(code))];
    return Some(pcb.threads), q;
  }

  /** `mark_thread_exited`. */
  method MarkSection(sched: Scheduler, ghost table: ProcessTable, tid: nat, ghost p: Pending) returns (ghost q: Pending)
    modifies sched`threads
    ensures TablesOf(sched, table, q) == MarkThread(old(TablesOf(sched, table, p)), tid)
  {
    q := MarkThread(TablesOf(sched, table, p), tid).pending;
    sched.MarkExited(tid);
  }

  /** The Zombie mark, then one mark for each TID listed at that time, in order. */
  method ExitProcess(sched: Scheduler, table: ProcessTable, pid: nat, code: int, ghost p: Pending)
      returns (ghost q: Pending)
    modifies sched`threads, table`processes
    ensures TablesOf(sched, table, q) == Registry.ExitProcess(old(TablesOf(sched, table, p)), pid, code)
  {
    var threadIds;
    threadIds, q := ZombieSection(sched, table, pid, code, p);
    if threadIds == None {
      return;
    }
    var tids := threadIds.value;
    ghost var marked := TablesOf(sched, table, q);
    var k := 0;
    assert tids[0..] == tids;
    while k < |tids|
      invariant k <= |tids|
      invariant MarkEach(TablesOf(sched, table, q), tids[k..]) == MarkEach(marked, tids)
    {
      assert tids[k..][1..] == tids[k + 1..];
      q := MarkSection(sched, table, tids[k], q);
      k := k + 1;
    }
    assert tids[k..] == [];
  }

  /** The first switch to the thread on the stack at `base` goes through the trampoline to `entry`. */
  ghost predicate StartsAt(m: Memory, base: int, entry: Word, trampoline: Word) {
    && FrameAt(m, StackTop(base) - 56, InitialCallee(entry), trampoline)
    && Load(m, StackTop(base) - 8) == trampoline && Load(m, StackTop(base) - 32) == entry
  }

  lemma {:induction false} DemoTables(boot: Stack, pageTable: Word, a: TaskContext, stackA: Stack,
                                      b: TaskContext, stackB: Stack)
    ensures
      var t := AddProcess(BootTables(boot, pageTable), "demo_a", a, stackA, pageTable);
      AddProcess(t, "demo_b", b, stackB, pageTable) ==
        Tables([Thread(0, 0, Running, TaskContext(0), boot), Thread(1, 1, Ready, a, stackA),
                Thread(2, 2, Ready, b, stackB)],
               0, 3,
               map[0 := Process(0, "kernel", Alive, None, [0], None, pageTable),
                   1 := Process(1, "demo_a", Alive, Some(0), [1], None, pageTable),
                   2 := Process(2, "demo_b", Alive, Some(0), [2], None, pageTable)], 3, NO_CALLS)
  {
    var t := BootTables(boot, pageTable);
    AddProcessIs(t, "demo_a", a, stackA, pageTable);
    AddProcessIs(AddProcess(t, "demo_a", a, stackA, pageTable), "demo_b", b, stackB, pageTable);
  }

  /** `scheduler::init`: the kernel process, the idle thread on the boot stack, then the two
      demo processes. */
  method InitScheduler(cpu: Processor, sched: Scheduler, table: ProcessTable, lapic: LocalApic, i: Image,
                       boot: Stack, demoA: Word, stackA: int, demoB: Word, stackB: int)
    requires sched.threads == [] && sched.current == 0 && sched.nextTid == 1
    requires table.processes == map[] && table.nextPid == 0
    requires 0 < stackA && stackA + KERNEL_STACK_SIZE < WORD_LIMIT
    requires 0 < stackB && stackB + KERNEL_STACK_SIZE < WORD_LIMIT
    modifies sched, table, cpu`mem
    ensures SysOf(i, sched, table, NO_CALLS, cpu, lapic, Boot) ==
      InitSys(i, old(cpu.View()), boot, lapic.inService, demoA, stackA, demoB, stackB)
    ensures table.processes ==
      map[0 := Process(0, "kernel", Alive, None, [0], None, i.pageTable),
          1 := Process(1, "demo_a", Alive, Some(0), [1], None, i.pageTable),
          2 := Process(2, "demo_b", Alive, Some(0), [2], None, i.pageTable)]
    ensures sched.threads ==
      [Thread(0, 0, Running, TaskContext(0), boot),
       Thread(1, 1, Ready, TaskContext(StackTop(stackA) - 56), Stack(stackA, stackA + 16384)),
       Thread(2, 2, Ready, TaskContext(StackTop(stackB) - 56), Stack(stackB, stackB + 16384))]
    ensures sched.current == 0 && sched.nextTid == 3 && table.nextPid == 3
    ensures stackA + 16384 <= stackB || stackB + 16384 <= stackA ==> StartsAt(cpu.mem, stackA, demoA, i.trampoline)
    ensures StartsAt(cpu.mem, stackB, demoB, i.trampoline)
    ensures forall a | (a < stackA || stackA + 16384 <= a) && (a < stackB || stackB + 16384 <= a) ::
      Load(cpu.mem, a) == Load(old(cpu.mem), a)
  {
    InitialFrame(cpu.mem, stackA, demoA, i.trampoline);
    InitialFrame(InitialMemory(cpu.mem, stackA, demoA, i.trampoline), stackB, demoB, i.trampoline);
    DemoTables(boot, i.pageTable, TaskContext(StackTop(stackA) - 56), Stack(stackA, stackA + 16384),
               TaskContext(StackTop(stackB) - 56), Stack(stackB, stackB + 16384));
    var pid := table.AllocPid();
    table.Insert(Process(pid, "kernel", Alive, None, [0], None, i.pageTable));
    sched.AddThread(Thread(0, 0, Running, TaskContext(0), boot));
    assert TablesOf(sched, table, NO_CALLS) == BootTables(boot, i.pageTable);
    ghost var p;
    ghost var s0 := SysOf(i, sched, table, NO_CALLS, cpu, lapic, Boot);
    var a, b;
    a, p := CreateProcess(cpu, sched, table, i, "demo_a", demoA, stackA, NO_CALLS);
    ghost var s1 := SysOf(i, sched, table, p, cpu, lapic, Boot);
    MethodCreates(s0, s1, "demo_a", demoA, stackA);
    b, p := CreateProcess(cpu, sched, table, i, "demo_b", demoB, stackB, p);
    MethodCreates(s1, SysOf(i, sched, table, p, cpu, lapic, Boot), "demo_b", demoB, stackB);
  }

  /** What `CreateProcess` ensures of the objects makes the machine's state `Created`. */
  lemma {:induction false} MethodCreates(s: Sys, s': Sys, name: string, entry: Word, base: int)
    requires 0 < base && base + KERNEL_STACK_SIZE < WORD_LIMIT && s.tables.nextPid !in s.tables.pending.creating
    requires s'.tables == AddProcess(s.tables, name, TaskContext(StackTop(base) - 56),
                                     Stack(base, base + KERNEL_STACK_SIZE), s.image.pageTable)
    requires s' == s.(tables := s'.tables,
                      cpu := s.cpu.(mem := InitialMemory(s.cpu.mem, base, entry, s.image.trampoline)))
    ensures s' == Created(s, name, entry, base) && s'.tables.pending == s.tables.pending
  {
    CreatedIs(s, name, entry, base);
    AddProcessIs(s.tables, name, TaskContext(StackTop(base) - 56), Stack(base, base + KERNEL_STACK_SIZE),
                 s.image.pageTable);
  }
}
