/**
 The preemptive kernel as a step machine on one processor: thread code, the timer
 interrupt (kernel/src/interrupts.rs), the tick and its stack switch
 (kernel/src/scheduler.rs, kernel/src/context.rs), process creation and exit
 (kernel/src/process.rs). Each section the kernel runs under a lock, or with
 interrupts off, is one step: create_process and exit_process are several, between
 which the timer may strike.
 */
module Kernel {
  import opened Common
  import opened Machine
  import opened Scheduling
  import opened Registry
  import opened Sections

  const KERNEL_STACK_SIZE := 16384

  /** Addresses and sizes fixed by the compiled kernel: the trampoline, the return address of
      its `call r12`, the return address of the `call context_switch` in tick, the handler,
      the segment selectors, and the words of locals and return addresses the handler and
      tick keep on the stack while they run. */
  datatype Image = Image(
    trampoline: Word, trampolineReturn: Word, tickResume: Word, handler: Word,
    cs: Word, ss: Word, pad: nat, pageTable: Word)

  /** Boot: before interrupts are enabled. Code: a thread runs its own code. Handler and
      Acknowledged: the timer handler before and after it signals end of interrupt.
      Tail: after tick, wherever rip then points. */
  datatype Phase = Boot | Code | Handler | Acknowledged | Tail

  /** `inService` is the timer's in-service bit of the local APIC. */
  datatype Sys = Sys(image: Image, tables: Tables, cpu: Cpu, phase: Phase, inService: bool)

  datatype Event =
    | EnableInterrupts
    | Own(cpu: Cpu)
    | Insert(name: string)
    | Draw(pid: nat)
    | Add(pid: nat, entry: Word, base: int)
    | Record(pid: nat)
    | BeginExit(pid: nat, code: int)
    | Mark(tid: nat)
    | Deliver
    | Acknowledge
    | TimerTick
    | Resume
    | EnterThread

  // ---------------------------------------------------------------------
  // Initial stack of a thread
  // ---------------------------------------------------------------------

  function StackTop(base: int): (top: int)
    ensures top % 16 == 0 && base + 16384 - 16 < top <= base + 16384
  {
    var top := base + KERNEL_STACK_SIZE;
    top - top % 16
  }

  function InitialCallee(entry: Word): Callee {
    Callee(0, 0, entry, 0, 0, 0)
  }

  function InitialMemory(m: Memory, base: int, entry: Word, trampoline: Word): Memory {
    StoreBlock(Zeroed(m, base, base + KERNEL_STACK_SIZE), StackTop(base) - 56,
               FrameWords(InitialCallee(entry), trampoline))
  }

  /** For any base, aligned or not, the seven initial words lie inside the new stack and form
      the frame the first switch pops, with the entry function in r12 and the trampoline to return
      to; all other words of the stack are zero, and none outside it changes. */
  lemma {:induction false} InitialFrame(m: Memory, base: int, entry: Word, trampoline: Word)
    ensures base < StackTop(base) - 56 && StackTop(base) <= base + 16384
    ensures FrameAt(InitialMemory(m, base, entry, trampoline), StackTop(base) - 56, InitialCallee(entry), trampoline)
    ensures var z, top := InitialMemory(m, base, entry, trampoline), StackTop(base);
      && Load(z, top - 8) == trampoline && Load(z, top - 32) == entry
      && forall a | base <= a < base + 16384 && a !in {top - 8, top - 32} && (a < top - 56 || a >= top || a % 8 == 0) ::
        Load(z, a) == 0
    ensures forall a | a < base || base + 16384 <= a ::
      Load(InitialMemory(m, base, entry, trampoline), a) == Load(m, a)
  {
    StoredFrame(Zeroed(m, base, base + KERNEL_STACK_SIZE), StackTop(base) - 56, InitialCallee(entry), trampoline);
  }

  // ---------------------------------------------------------------------
  // Interrupt entry and return
  // ---------------------------------------------------------------------

  const INTERRUPT_BYTES := 112

  /** Interrupt entry aligns rsp to 16 bytes and pushes ss, rsp, rflags, cs and rip; the
      handler then saves the scratch registers. Lowest address first. */
  function InterruptWords(i: Image, cpu: Cpu): seq<Word> {
    cpu.scratch + [cpu.rip, i.cs, cpu.rflags, cpu.rsp, i.ss]
  }

  function InterruptBase(cpu: Cpu): int {
    cpu.rsp - cpu.rsp % 16 - INTERRUPT_BYTES
  }

  function EnterHandler(i: Image, cpu: Cpu): Cpu {
    cpu.(mem := StoreBlock(cpu.mem, InterruptBase(cpu), InterruptWords(i, cpu)),
         rsp := Wrap(InterruptBase(cpu) - 8 * i.pad),
         rip := i.handler,
         rflags := ClearIf(cpu.rflags))
  }

  function ScratchAt(m: Memory, a: int): seq<Word> {
    [Load(m, a), Load(m, a + 8), Load(m, a + 16), Load(m, a + 24), Load(m, a + 32),
     Load(m, a + 40), Load(m, a + 48), Load(m, a + 56), Load(m, a + 64)]
  }

  /** The words parked at `a` are those of the interrupted processor. */
  ghost predicate InterruptedAt(m: Memory, a: int, cpu: Cpu) {
    && ScratchAt(m, a) == cpu.scratch
    && Load(m, a + 72) == cpu.rip
    && Load(m, a + 88) == cpu.rflags
    && Load(m, a + 96) == cpu.rsp
  }

  /** The handler's epilogue and `iretq`. */
  function LeaveHandler(i: Image, cpu: Cpu): Cpu {
    var a := cpu.rsp + 8 * i.pad;
    cpu.(scratch := ScratchAt(cpu.mem, a),
         rip := Load(cpu.mem, a + 72),
         rflags := Load(cpu.mem, a + 88),
         rsp := Load(cpu.mem, a + 96))
  }

  /** The stack room a thread must have left when the timer strikes. */
  function HandlerRoom(i: Image): nat {
    15 + INTERRUPT_BYTES + 8 * i.pad + 56
  }

  // ---------------------------------------------------------------------
  // Steps
  // ---------------------------------------------------------------------

  ghost predicate Disjoint(a: Stack, b: Stack) {
    a.limit <= b.base || b.limit <= a.base
  }

  ghost predicate FreshStack(s: Sys, base: int) {
    && 0 < base && base + KERNEL_STACK_SIZE < WORD_LIMIT
    && forall i | 0 <= i < |s.tables.threads| ::
      Disjoint(s.tables.threads[i].stack, Stack(base, base + KERNEL_STACK_SIZE))
  }

  /** Thread code may do anything to the registers and to memory outside other stacks. */
  ghost predicate LeavesOtherStacks(s: Sys, mem: Memory) {
    forall i | 0 <= i < |s.tables.threads| && i != s.tables.current ::
      SameRange(s.cpu.mem, mem, s.tables.threads[i].stack.base, s.tables.threads[i].stack.limit)
  }

  ghost predicate Enabled(s: Sys, e: Event)
    requires s.tables.current < |s.tables.threads|
  {
    match e
    case EnableInterrupts => s.phase == Boot
    case Own(cpu) =>
      && s.phase in {Boot, Code}
      && |cpu.scratch| == SCRATCH_COUNT
      && LeavesOtherStacks(s, cpu.mem)
      && (s.phase == Boot ==> !InterruptsOn(cpu.rflags))
    case Insert(_) => s.phase in {Boot, Code}
    case Draw(pid) => s.phase in {Boot, Code} && IsInserted(s.tables, pid)
    case Add(pid, _, base) => s.phase in {Boot, Code} && IsDrawn(s.tables, pid) && FreshStack(s, base)
    case Record(pid) => s.phase in {Boot, Code} && IsSpawned(s.tables, pid)
    case BeginExit(_, _) => s.phase in {Boot, Code}
    case Mark(tid) => s.phase in {Boot, Code} && tid in s.tables.pending.leaving
    case Deliver =>
      var k := s.tables.threads[s.tables.current].stack;
      && s.phase == Code && InterruptsOn(s.cpu.rflags) && !s.inService
      && k.base + HandlerRoom(s.image) <= s.cpu.rsp <= k.limit
    case Acknowledge => s.phase == Handler
    case TimerTick => s.phase == Acknowledged
    case Resume => s.phase == Tail && s.cpu.rip == s.image.tickResume
    case EnterThread => s.phase == Tail && s.cpu.rip == s.image.trampoline
  }

  /** `tick`: prepare the switch and, if there is one, swap stacks. */
  function ApplyTick(s: Sys): Sys
    requires s.tables.threads == [] || s.tables.current < |s.tables.threads|
  {
    var t := PrepareSwitch(s.tables);
    if t.current == s.tables.current then
      s.(phase := Tail, cpu := s.cpu.(rip := s.image.tickResume))
    else
      RotateKeepsLength(Queue(s.tables));
      var cpu := s.cpu.(mem := SwitchOutMemory(s.cpu, s.image.tickResume));
      var saved := SaveContext(t, s.tables.current, Wrap(s.cpu.rsp - 56));
      s.(phase := Tail, tables := saved,
         cpu := SwitchIn(cpu, saved.threads[saved.current].context.rsp))
  }

  /** `sti; call r12`. */
  function CallEntry(i: Image, cpu: Cpu): Cpu {
    cpu.(rflags := SetIf(cpu.rflags),
         mem := cpu.mem[cpu.rsp - 8 := i.trampolineReturn],
         rsp := Wrap(cpu.rsp - 8),
         rip := cpu.callee.r12)
  }

  function Apply(s: Sys, e: Event): Sys
    requires s.tables.current < |s.tables.threads|
  {
    match e
    case EnableInterrupts =>
      s.(phase := Code, cpu := s.cpu.(rflags := SetIf(s.cpu.rflags)))
    case Own(cpu) => s.(cpu := cpu)
    case Insert(name) => s.(tables := InsertProcess(s.tables, name, s.image.pageTable))
    case Draw(pid) => s.(tables := DrawTid(s.tables, pid))
    case Add(pid, entry, base) =>
      s.(tables := AddThread(s.tables, pid, TaskContext(Wrap(StackTop(base) - 56)),
                             Stack(base, base + KERNEL_STACK_SIZE)),
         cpu := s.cpu.(mem := InitialMemory(s.cpu.mem, base, entry, s.image.trampoline)))
    case Record(pid) => s.(tables := RecordThread(s.tables, pid))
    case BeginExit(pid, code) => s.(tables := MarkZombie(s.tables, pid, code))
    case Mark(tid) => s.(tables := MarkThread(s.tables, tid))
    case Deliver => s.(cpu := EnterHandler(s.image, s.cpu), phase := Handler, inService := true)
    case Acknowledge => s.(phase := Acknowledged, inService := false)
    case TimerTick => ApplyTick(s)
    case Resume => s.(cpu := LeaveHandler(s.image, s.cpu), phase := Code)
    case EnterThread => s.(cpu := CallEntry(s.image, s.cpu), phase := Code)
  }

  // ---------------------------------------------------------------------
  // What every step keeps
  // ---------------------------------------------------------------------

  ghost predicate StacksOk(t: Tables) {
    && (forall i | 0 <= i < |t.threads| ::
      0 < t.threads[i].stack.base <= t.threads[i].stack.limit < WORD_LIMIT)
    && (forall i, j | 0 <= i < |t.threads| && 0 <= j < |t.threads| && i != j ::
      Disjoint(t.threads[i].stack, t.threads[j].stack))
  }

  /** An interrupted computation is parked on `k` above rsp, with interrupts on. */
  ghost predicate Parked(i: Image, k: Stack, m: Memory, rsp: int) {
    && k.base <= rsp && rsp + 8 * i.pad + INTERRUPT_BYTES <= k.limit && rsp % 8 == 0
    && InterruptsOn(Load(m, rsp + 8 * i.pad + 88))
  }

  /** A thread that has never run: its whole stack below the frame is free. */
  ghost predicate FreshFrame(i: Image, th: Thread, m: Memory) {
    && th.stack.base < th.context.rsp && th.context.rsp + 56 <= th.stack.limit
    && (th.context.rsp + 56) % 16 == 0
    && Load(m, th.context.rsp + 48) == i.trampoline
  }

  /** A thread that was switched out in tick. */
  ghost predicate SwitchedFrame(i: Image, th: Thread, m: Memory) {
    && th.stack.base <= th.context.rsp
    && Load(m, th.context.rsp + 48) == i.tickResume
    && Parked(i, th.stack, m, th.context.rsp + 56)
  }

  /** The saved rsp of a thread that is not running points at a seven-word frame inside its
      own stack: the entry frame or the one its last switch saved. */
  ghost predicate FrameIntact(i: Image, th: Thread, m: Memory) {
    FreshFrame(i, th, m) || SwitchedFrame(i, th, m)
  }

  ghost predicate OthersIntact(s: Sys) {
    forall i | 0 <= i < |s.tables.threads| && i != s.tables.current ::
      FrameIntact(s.image, s.tables.threads[i], s.cpu.mem)
  }

  ghost predicate RunningOk(s: Sys)
    requires s.tables.current < |s.tables.threads|
  {
    var k := s.tables.threads[s.tables.current].stack;
    match s.phase
    case Boot => !InterruptsOn(s.cpu.rflags) && !s.inService
    case Code => !s.inService
    case Handler =>
      s.inService && !InterruptsOn(s.cpu.rflags)
      && k.base + 56 <= s.cpu.rsp && Parked(s.image, k, s.cpu.mem, s.cpu.rsp)
    case Acknowledged =>
      !s.inService && !InterruptsOn(s.cpu.rflags)
      && k.base + 56 <= s.cpu.rsp && Parked(s.image, k, s.cpu.mem, s.cpu.rsp)
    case Tail =>
      !s.inService && !InterruptsOn(s.cpu.rflags)
      && ((s.cpu.rip == s.image.tickResume && Parked(s.image, k, s.cpu.mem, s.cpu.rsp))
        || (s.cpu.rip == s.image.trampoline && k.base + 56 < s.cpu.rsp <= k.limit && s.cpu.rsp % 16 == 0))
  }

  /** Where the processor and the stacks are. */
  ghost predicate MachineOk(s: Sys) {
    && s.tables.current < |s.tables.threads|
    && s.image.trampoline != s.image.tickResume
    && |s.cpu.scratch| == SCRATCH_COUNT
    && StacksOk(s.tables) && OthersIntact(s) && RunningOk(s)
  }

  /** What the scheduler's and the process table say. */
  ghost predicate TablesOk(t: Tables) {
    OneRunner(Queue(t)) && Agree(t) && Accounted(t)
  }

  ghost predicate Inv(s: Sys) {
    TablesOk(s.tables) && MachineOk(s)
  }

  // ---------------------------------------------------------------------
  // Boot
  // ---------------------------------------------------------------------

  /** The tables after `scheduler::init` has entered the kernel process and the idle thread;
      the demo processes it then creates are steps of the boot phase. */
  function BootTables(boot: Stack, pageTable: Word): Tables {
    Tables([Thread(0, 0, Running, TaskContext(0), boot)], 0, 1,
           map[0 := Process(0, "kernel", Alive, None, [0], None, pageTable)], 1, NO_CALLS)
  }

  function BootSys(i: Image, cpu: Cpu, boot: Stack): Sys {
    Sys(i, BootTables(boot, i.pageTable), cpu, Boot, false)
  }

  lemma {:induction false} BootInv(i: Image, cpu: Cpu, boot: Stack)
    requires i.trampoline != i.tickResume
    requires |cpu.scratch| == SCRATCH_COUNT && !InterruptsOn(cpu.rflags)
    requires 0 < boot.base <= boot.limit < WORD_LIMIT
    ensures Inv(BootSys(i, cpu, boot))
  {
    var t := BootTables(boot, i.pageTable);
    assert Queue(t).states == [Running];
    assert t.threads[0].tid == t.processes[0].threads[0];
  }
}
