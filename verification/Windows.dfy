/** Runs from boot of one process: its first preemption, its return, and the two windows in which
    a timer interrupt leaves a Zombie process with a thread that runs. */
module Windows {
  import opened Machine
  import opened Scheduling
  import opened Registry
  import opened Sections
  import opened Kernel
  import opened KernelSteps
  import opened Runs
  import opened Guarantees
  import opened Scenarios

  const IDLE_RUNS := RunQueue([Running, Ready], 0)
  const OTHER_RUNS := RunQueue([Ready, Running], 1)

  lemma {:induction false} TwoTakeTurns()
    ensures Rotate(IDLE_RUNS) == OTHER_RUNS && Rotate(OTHER_RUNS) == IDLE_RUNS
  {
  }

  /** Where a run from boot starts. */
  ghost predicate Boots(i: Image, cpu: Cpu, boot: Stack, base: int) {
    && i.trampoline != i.tickResume && |cpu.scratch| == SCRATCH_COUNT && !InterruptsOn(cpu.rflags)
    && 0 < boot.base && boot.base + HandlerRoom(i) <= cpu.rsp <= boot.limit < WORD_LIMIT
    && FreshStack(BootSys(i, cpu, boot), base)
  }

  /** Process 1 exists, its thread 1 is fresh, and the idle thread runs. */
  ghost predicate OneProcess(s: Sys) {
    && Interruptible(s) && Queue(s.tables) == IDLE_RUNS && Fresh(s, 1)
    && s.tables.threads[1].tid == 1 && s.tables.threads[1].pid == 1 && 1 in s.tables.processes
  }

  // ---------------------------------------------------------------------
  // First preemption and return
  // ---------------------------------------------------------------------

  lemma {:induction false} OneCreated(i: Image, cpu: Cpu, boot: Stack, name: string, entry: Word, base: int)
      returns (ts: seq<Sys>)
    requires Boots(i, cpu, boot, base)
    ensures |ts| == 5 && Steps(ts, CreateCall(1, name, entry, base)) && ts[0] == BootSys(i, cpu, boot)
    ensures ts[4] == Created(ts[0], name, entry, base) && Booting(ts[4]) && Fresh(ts[4], 1) && ts[4].image == i
    ensures ts[3].tables.current == 0 && |ts[2].tables.threads| == 1
  {
    BootFacts(i, cpu, boot, boot.limit);
    ts := BootCreates(BootSys(i, cpu, boot), name, entry, base);
    assert |Queue(ts[2].tables).states| == |Queue(ts[0].tables).states|;
  }

  lemma {:induction false} OneCreatedTables(i: Image, cpu: Cpu, boot: Stack, name: string, entry: Word, base: int)
    requires Boots(i, cpu, boot, base)
    ensures var t := Created(BootSys(i, cpu, boot), name, entry, base).tables;
      && Queue(t) == IDLE_RUNS && t.threads[1].tid == 1 && t.threads[1].pid == 1
      && 1 in t.processes && t.processes[1].threads == [1] && t.pending == NO_CALLS
  {
    var s := BootSys(i, cpu, boot);
    BootFacts(i, cpu, boot, boot.limit);
    CreatedIs(s, name, entry, base);
    AddProcessAgrees(s.tables, name, TaskContext(Wrap(StackTop(base) - 56)),
                     Stack(base, base + KERNEL_STACK_SIZE), i.pageTable);
    assert Queue(Created(s, name, entry, base).tables).states == [Running, Ready];
  }

  lemma {:induction false} OneProcessRun(i: Image, cpu: Cpu, boot: Stack, name: string, entry: Word, base: int)
      returns (ts: seq<Sys>)
    requires Boots(i, cpu, boot, base)
    ensures |ts| == 6 && ts[0] == BootSys(i, cpu, boot)
    ensures Steps(ts, CreateCall(1, name, entry, base) + [EnableInterrupts])
    ensures OneProcess(ts[5]) && ts[5].image == i
    ensures ts[5].tables.processes[1].threads == [1] && ts[5].tables.pending == NO_CALLS
    ensures ts[3].tables.current == ts[4].tables.current == 0 && |ts[2].tables.threads| == 1
  {
    var first := OneCreated(i, cpu, boot, name, entry, base);
    OneCreatedTables(i, cpu, boot, name, entry, base);
    var n := BootEnables(first[4]);
    StepsJoin(first, CreateCall(1, name, entry, base), [first[4], n], [EnableInterrupts]);
    ts := first + [first[4], n][1..];
  }

  function PreemptionEvents(name: string, entry: Word, base: int): seq<Event> {
    CreateCall(1, name, entry, base) + [EnableInterrupts] + [Deliver, Acknowledge] + [TimerTick]
  }

  lemma {:induction false} TickToOther(a: Sys) returns (k: Sys)
    requires Inv(a) && a.phase == Acknowledged && Queue(a.tables) == IDLE_RUNS
    ensures Steps([a, k], [TimerTick]) && k.tables.current == 1
  {
    k := Apply(a, TimerTick);
    OneStep(a, TimerTick);
    TwoTakeTurns();
    TickQueue(a);
  }

  lemma {:induction false} PreemptionSteps(i: Image, cpu: Cpu, boot: Stack, name: string, entry: Word,
                                         base: int) returns (ss: seq<Sys>)
    requires Boots(i, cpu, boot, base)
    ensures |ss| == 9 && Steps(ss, PreemptionEvents(name, entry, base)) && ss[0] == BootSys(i, cpu, boot)
    ensures AwayBetween(ss, 1, 3, 8) && ss[8].tables.current == 1 && |ss[2].tables.threads| == 1
  {
    var first := OneProcessRun(i, cpu, boot, name, entry, base);
    var es := CreateCall(1, name, entry, base) + [EnableInterrupts];
    var into := IntoHandler(first[5]);
    StepsJoin(first, es, into, [Deliver, Acknowledge]);
    var k := TickToOther(into[2]);
    StepsJoin(first + into[1..], es + [Deliver, Acknowledge], [into[2], k], [TimerTick]);
    ss := first + into[1..] + [into[2], k][1..];
  }

  /** The machine does preempt: from boot, one process created, interrupts enabled and one timer
      interrupt later the new thread is entered at its entry function with interrupts on, while
      the idle thread is parked. */
  lemma {:induction false} FirstPreemption(i: Image, cpu: Cpu, boot: Stack, name: string, entry: Word,
                                         base: int) returns (ss: seq<Sys>)
    requires Boots(i, cpu, boot, base)
    ensures Run(ss, PreemptionEvents(name, entry, base)) && |ss| == 9 && ss[0] == BootSys(i, cpu, boot)
    ensures ss[8].tables.current == 1 && Enabled(ss[8], EnterThread)
    ensures Apply(ss[8], EnterThread).cpu.rip == entry && InterruptsOn(Apply(ss[8], EnterThread).cpu.rflags)
  {
    BootFacts(i, cpu, boot, boot.limit);
    ss := PreemptionSteps(i, cpu, boot, name, entry, base);
    var es := PreemptionEvents(name, entry, base);
    assert es[2] == Add(1, entry, base);
    FirstEntry(ss, es, 2, 7);
  }

  /** The new thread runs and, at the next interrupt, gives way to the idle thread again. */
  lemma {:induction false} ThereAndBack(s: Sys) returns (there: seq<Sys>, back: seq<Sys>)
    requires OneProcess(s) && Preemptible(s)
    ensures |there| == 5 && Steps(there, Turn()) && there[0] == s
    ensures there[1].tables.current == there[2].tables.current == 0
    ensures there[3].tables.current == there[4].tables.current == 1
    ensures |back| == 5 && Steps(back, TurnBack()) && back[0] == there[4]
    ensures back[1].tables.current == back[2].tables.current == 1
    ensures back[3].tables.current == back[4].tables.current == 0
  {
    TwoTakeTurns();
    there := TurnRun(s, 1);
    back := TurnBackRun(there[4], 0);
  }

  function ReturnEvents(name: string, entry: Word, base: int): seq<Event> {
    CreateCall(1, name, entry, base) + [EnableInterrupts] + Turn() + TurnBack()
  }

  lemma {:induction false} ReturnSteps(i: Image, cpu: Cpu, boot: Stack, name: string, entry: Word, base: int)
      returns (ss: seq<Sys>)
    requires Boots(i, cpu, boot, base) && HandlerRoom(i) + 24 <= KERNEL_STACK_SIZE
    ensures |ss| == 14 && Steps(ss, ReturnEvents(name, entry, base)) && ss[0] == BootSys(i, cpu, boot)
    ensures forall m | 5 <= m < 14 :: ss[m].tables.current == if 8 <= m < 12 then 1 else 0
  {
    var first := OneProcessRun(i, cpu, boot, name, entry, base);
    var there, back := ThereAndBack(first[5]);
    StepsJoin(first, CreateCall(1, name, entry, base) + [EnableInterrupts], there, Turn());
    StepsJoin(first + there[1..], CreateCall(1, name, entry, base) + [EnableInterrupts] + Turn(), back, TurnBack());
    ss := first + there[1..] + back[1..];
  }

  /** An interrupted thread does come back: two interrupts after the timer struck it, and with
      another thread run in between, the idle thread goes on where it was. */
  lemma {:induction false} IdleComesBack(i: Image, cpu: Cpu, boot: Stack, name: string, entry: Word, base: int)
      returns (ss: seq<Sys>)
    requires Boots(i, cpu, boot, base) && HandlerRoom(i) + 24 <= KERNEL_STACK_SIZE
    ensures |ss| == 14 && Run(ss, ReturnEvents(name, entry, base)) && ss[0] == BootSys(i, cpu, boot)
    ensures ss[5].tables.current == 0 && ss[9].tables.current == 1 && ss[13].tables.current == 0
    ensures ss[13].phase == Code && ss[13].cpu == ss[5].cpu.(mem := ss[13].cpu.mem)
    ensures SameRange(ss[5].cpu.mem, ss[13].cpu.mem, ss[5].cpu.rsp, ss[12].tables.threads[0].stack.limit)
    ensures ss[12].cpu.callee == ss[7].cpu.callee && ss[12].cpu.rsp == ss[7].cpu.rsp
  {
    BootFacts(i, cpu, boot, boot.limit);
    ss := ReturnSteps(i, cpu, boot, name, entry, base);
    var es := ReturnEvents(name, entry, base);
    ReturnEventsAre(name, entry, base);
    InterruptIsTransparent(ss, es, 5, 12);
    SwitchRestores(ss, es, 0, 7, 11);
  }

  lemma {:induction false} ReturnEventsAre(name: string, entry: Word, base: int)
    ensures var es := ReturnEvents(name, entry, base);
      && |es| == 13 && es[5] == Deliver && es[12] == Resume
      && forall m | 6 <= m < 12 :: es[m] != Resume
  {
  }

  // ---------------------------------------------------------------------
  // A timer interrupt inside exit_process
  // ---------------------------------------------------------------------

  function ExitWindowEvents(name: string, entry: Word, base: int, code: int): seq<Event> {
    CreateCall(1, name, entry, base) + [EnableInterrupts] + [BeginExit(1, code)] + Turn()
  }

  /** The idle thread begins to exit process 1. */
  lemma {:induction false} ExitBegins(s: Sys, code: int) returns (b: Sys)
    requires OneProcess(s) && Preemptible(s) && s.tables.processes[1].threads == [1] && s.tables.pending == NO_CALLS
    ensures Steps([s, b], [BeginExit(1, code)]) && OneProcess(b) && Preemptible(b)
    ensures IsZombie(b.tables, 1) && b.tables.pending == Pending(map[], multiset{1}, {})
  {
    var e := BeginExit(1, code);
    OneStep(s, e);
    CallInterruptible(s, e);
    StaysFresh(s, e, 1);
    b := Apply(s, e);
    assert multiset{} + multiset([1]) == multiset{1};
  }

  lemma {:induction false} ZombieTurn(s: Sys) returns (ts: seq<Sys>)
    requires OneProcess(s) && Preemptible(s) && IsZombie(s.tables, 1)
    ensures |ts| == 5 && Steps(ts, Turn()) && ts[0] == s && ts[4].phase == Code && OnlyThreads(s, ts[4])
    ensures IsZombie(ts[4].tables, 1) && Queue(ts[4].tables) == OTHER_RUNS
    ensures |ts[4].tables.threads| == 2 && ts[4].tables.threads[1].pid == 1 && ts[4].tables.threads[1].state == Running
  {
    TwoTakeTurns();
    ts := TurnRun(s, 1);
    assert KeepsThread(s, ts[4], 1);
    assert Queue(ts[4].tables).states[1] == Running;
  }

  /** exit_process does not stop a process at once: when the timer strikes between its Zombie mark
      and its thread marks, the thread of the Zombie is given the processor and runs. */
  lemma {:induction false} ZombieRuns(i: Image, cpu: Cpu, boot: Stack, name: string, entry: Word, base: int, code: int)
      returns (ss: seq<Sys>)
    requires Boots(i, cpu, boot, base) && HandlerRoom(i) + 24 <= KERNEL_STACK_SIZE
    ensures |ss| == 11 && Run(ss, ExitWindowEvents(name, entry, base, code)) && ss[0] == BootSys(i, cpu, boot)
    ensures var z := ss[10];
      && IsZombie(z.tables, 1) && z.tables.pending == Pending(map[], multiset{1}, {})
      && z.phase == Code && z.tables.current == 1 < |z.tables.threads|
      && z.tables.threads[1].pid == 1 && z.tables.threads[1].state == Running
  {
    BootFacts(i, cpu, boot, boot.limit);
    var first := OneProcessRun(i, cpu, boot, name, entry, base);
    var b := ExitBegins(first[5], code);
    var turn := ZombieTurn(b);
    var es := CreateCall(1, name, entry, base) + [EnableInterrupts];
    StepsJoin(first, es, [first[5], b], [BeginExit(1, code)]);
    StepsJoin(first + [first[5], b][1..], es + [BeginExit(1, code)], turn, Turn());
    ss := first + [first[5], b][1..] + turn[1..];
  }

  // ---------------------------------------------------------------------
  // A timer interrupt inside create_process
  // ---------------------------------------------------------------------

  /** Interrupts are enabled, then create_process gets as far as its new thread. */
  function SpawnEvents(name: string, entry: Word, base: int): seq<Event> {
    [EnableInterrupts] + [Insert(name), Draw(1)] + [Add(1, entry, base)]
  }

  /** The new thread runs and exits its own process, then the creator goes on and records it. */
  function CreateWindowEvents(name: string, entry: Word, base: int, code: int): seq<Event> {
    SpawnEvents(name, entry, base) + Turn() + [BeginExit(1, code)] + TurnBack() + [Record(1)]
  }

  /** Process 1 has a thread that is not recorded yet. */
  ghost predicate Spawning(s: Sys) {
    && 1 in s.tables.processes && s.tables.processes[1].threads == []
    && s.tables.pending == Pending(map[1 := Spawned(1)], multiset{}, {})
  }

  /** Process 1 has a TID but no thread. */
  ghost predicate AboutToSpawn(s: Sys) {
    && Interruptible(s) && Queue(s.tables) == RunQueue([Running], 0)
    && 1 in s.tables.processes && s.tables.processes[1].threads == []
    && s.tables.pending == Pending(map[1 := Drawn(1)], multiset{}, {})
  }

  lemma {:induction false} StartedSpawns(s: Sys, name: string)
    requires Interruptible(s) && Inv(Started(s, name)) && Queue(s.tables) == RunQueue([Running], 0)
    requires s.tables.nextPid == 1 == s.tables.nextTid && s.tables.pending == NO_CALLS
    ensures AboutToSpawn(Started(s, name))
  {
  }

  lemma {:induction false} SpawnAdds(c: Sys, entry: Word, base: int) returns (n: Sys)
    requires AboutToSpawn(c) && FreshStack(c, base)
    ensures Steps([c, n], [Add(1, entry, base)]) && OneProcess(n) && Spawning(n) && n.image == c.image
  {
    var e := Add(1, entry, base);
    OneStep(c, e);
    CallInterruptible(c, e);
    AddedIs(c, entry, base);
    n := Apply(c, e);
  }

  lemma {:induction false} SpawnHalf(s: Sys, name: string, entry: Word, base: int) returns (ts: seq<Sys>)
    requires Interruptible(s) && FreshStack(s, base) && Queue(s.tables) == RunQueue([Running], 0)
    requires s.tables.nextPid == 1 == s.tables.nextTid && s.tables.pending == NO_CALLS
    ensures |ts| == 4 && Steps(ts, [Insert(name), Draw(1)] + [Add(1, entry, base)]) && ts[0] == s
    ensures OneProcess(ts[3]) && Spawning(ts[3]) && ts[3].image == s.image
  {
    ts := InsertAndDraw(s, name, base);
    StartedSpawns(s, name);
    var n := SpawnAdds(ts[2], entry, base);
    StepsJoin(ts, [Insert(name), Draw(1)], [ts[2], n], [Add(1, entry, base)]);
    ts := ts + [ts[2], n][1..];
  }

  lemma {:induction false} AddedIs(c: Sys, entry: Word, base: int)
    requires AboutToSpawn(c) && FreshStack(c, base)
    ensures var n := Apply(c, Add(1, entry, base));
      && Queue(n.tables) == IDLE_RUNS && Fresh(n, 1) && Spawning(n)
      && n.tables.threads[1].tid == 1 && n.tables.threads[1].pid == 1
  {
    var n := Apply(c, Add(1, entry, base));
    assert |c.tables.threads| == |Queue(c.tables).states| == 1;
    assert Queue(n.tables).states == [Running, Ready];
    InitialFrame(c.cpu.mem, base, entry, c.image.trampoline);
  }

  /** The new thread, not recorded yet, has the processor. */
  ghost predicate UnrecordedRuns(s: Sys) {
    && Interruptible(s) && Queue(s.tables) == OTHER_RUNS && Returns(s, 0) && Spawning(s)
    && s.tables.threads[1].pid == 1
  }

  lemma {:induction false} UnrecordedTurn(s: Sys) returns (ts: seq<Sys>)
    requires OneProcess(s) && Preemptible(s) && Spawning(s)
    ensures |ts| == 5 && Steps(ts, Turn()) && ts[0] == s && UnrecordedRuns(ts[4])
  {
    TwoTakeTurns();
    ts := TurnRun(s, 1);
    assert KeepsThread(s, ts[4], 1);
  }

  /** It has exited its own process, which lists no thread to be marked. */
  ghost predicate OrphanRuns(s: Sys) {
    && IsZombie(s.tables, 1) && s.tables.processes[1].threads == []
    && s.tables.pending == Pending(map[1 := Spawned(1)], multiset{}, {1})
    && |s.tables.threads| == 2 && s.tables.threads[1].pid == 1
  }

  lemma {:induction false} ExitsTooSoon(s: Sys, code: int) returns (b: Sys)
    requires UnrecordedRuns(s)
    ensures Steps([s, b], [BeginExit(1, code)]) && OrphanRuns(b)
    ensures Interruptible(b) && Queue(b.tables) == OTHER_RUNS && Returns(b, 0)
  {
    var e := BeginExit(1, code);
    OneStep(s, e);
    CallInterruptible(s, e);
    StaysReturning(s, e, 0);
    b := Apply(s, e);
    assert |s.tables.threads| == |Queue(s.tables).states| == 2;
    assert multiset{} + multiset(s.tables.processes[1].threads) == multiset{} && {} + {1} == {1};
  }

  lemma {:induction false} OrphanTurn(s: Sys) returns (ts: seq<Sys>)
    requires Interruptible(s) && Queue(s.tables) == OTHER_RUNS && Returns(s, 0) && OrphanRuns(s)
    ensures |ts| == 5 && Steps(ts, TurnBack()) && ts[0] == s && OrphanRuns(ts[4])
    ensures Inv(ts[4]) && ts[4].phase == Code && Queue(ts[4].tables) == IDLE_RUNS
  {
    TwoTakeTurns();
    ts := TurnBackRun(s, 0);
    assert |ts[4].tables.threads| == |Queue(ts[4].tables).states| == 2;
    assert KeepsThread(s, ts[4], 1);
  }

  /** The creator goes on: create_process and exit_process have both returned. */
  lemma {:induction false} RecordsTooLate(s: Sys) returns (z: Sys)
    requires OrphanRuns(s) && Inv(s) && s.phase == Code && Queue(s.tables) == IDLE_RUNS
    ensures Steps([s, z], [Record(1)])
    ensures IsZombie(z.tables, 1) && z.tables.processes[1].threads == [1]
    ensures z.tables.pending == Pending(map[], multiset{}, {1})
    ensures |z.tables.threads| == 2 && z.tables.threads[1].pid == 1 && z.tables.threads[1].state == Ready
  {
    OneStep(s, Record(1));
    z := Apply(s, Record(1));
    assert Queue(s.tables).states[1] == Ready;
    assert map[1 := Spawned(1)] - {1} == map[];
    assert [] + [1] == [1];
  }

  lemma {:induction false} SpawnedFromBoot(i: Image, cpu: Cpu, boot: Stack, name: string, entry: Word,
                                         base: int) returns (ts: seq<Sys>)
    requires Boots(i, cpu, boot, base)
    ensures |ts| == 5 && Steps(ts, SpawnEvents(name, entry, base)) && ts[0] == BootSys(i, cpu, boot)
    ensures OneProcess(ts[4]) && Spawning(ts[4]) && ts[4].image == i
  {
    var s := BootSys(i, cpu, boot);
    BootFacts(i, cpu, boot, boot.limit);
    var n := BootEnables(s);
    assert Queue(s.tables).states == [Running];
    var half := SpawnHalf(n, name, entry, base);
    StepsJoin([s, n], [EnableInterrupts], half, [Insert(name), Draw(1)] + [Add(1, entry, base)]);
    ts := [s, n] + half[1..];
    assert SpawnEvents(name, entry, base) == [EnableInterrupts] + ([Insert(name), Draw(1)] + [Add(1, entry, base)]);
  }

  lemma {:induction false} OrphanFrom(s: Sys, code: int) returns (ts: seq<Sys>)
    requires OneProcess(s) && Preemptible(s) && Spawning(s)
    ensures |ts| == 10 && Steps(ts, Turn() + [BeginExit(1, code)] + TurnBack()) && ts[0] == s
    ensures OrphanRuns(ts[9]) && Inv(ts[9]) && ts[9].phase == Code && Queue(ts[9].tables) == IDLE_RUNS
  {
    var there := UnrecordedTurn(s);
    var b := ExitsTooSoon(there[4], code);
    var back := OrphanTurn(b);
    StepsJoin(there, Turn(), [there[4], b], [BeginExit(1, code)]);
    StepsJoin(there + [there[4], b][1..], Turn() + [BeginExit(1, code)], back, TurnBack());
    ts := there + [there[4], b][1..] + back[1..];
  }

  /** A thread that exits its own process before create_process has recorded it is not stopped: both
      calls return, no mark is left to be made, and the Zombie has a Ready thread. By
      `Guarantees.OrphansRunOn` it stays so. */
  lemma {:induction false} OrphanIsNeverMarked(i: Image, cpu: Cpu, boot: Stack, name: string, entry: Word, base: int,
                                         code: int)
      returns (ss: seq<Sys>)
    requires Boots(i, cpu, boot, base) && HandlerRoom(i) + 24 <= KERNEL_STACK_SIZE
    ensures |ss| == 15 && ss[0] == BootSys(i, cpu, boot) && Run(ss, CreateWindowEvents(name, entry, base, code))
    ensures var z := ss[14];
      && IsZombie(z.tables, 1) && z.tables.processes[1].threads == [1]
      && z.tables.pending == Pending(map[], multiset{}, {1})
      && |z.tables.threads| == 2 && z.tables.threads[1].pid == 1 && z.tables.threads[1].state == Ready
  {
    BootFacts(i, cpu, boot, boot.limit);
    var first := SpawnedFromBoot(i, cpu, boot, name, entry, base);
    var next := OrphanFrom(first[4], code);
    var z := RecordsTooLate(next[9]);
    JoinWindow(first, next, z, name, entry, base, code);
    ss := first + next[1..] + [next[9], z][1..];
  }

  lemma {:induction false} JoinWindow(first: seq<Sys>, next: seq<Sys>, z: Sys, name: string, entry: Word, base: int,
                                      code: int)
    requires |first| == 5 && Steps(first, SpawnEvents(name, entry, base))
    requires |next| == 10 && Steps(next, Turn() + [BeginExit(1, code)] + TurnBack()) && next[0] == first[4]
    requires Steps([next[9], z], [Record(1)])
    ensures Steps(first + next[1..] + [next[9], z][1..], CreateWindowEvents(name, entry, base, code))
  {
    var es, fs := SpawnEvents(name, entry, base), Turn() + [BeginExit(1, code)] + TurnBack();
    StepsJoin(first, es, next, fs);
    StepsJoin(first + next[1..], es + fs, [next[9], z], [Record(1)]);
    assert CreateWindowEvents(name, entry, base, code) == es + fs + [Record(1)];
  }
}
