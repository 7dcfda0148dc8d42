/** Every step of the kernel keeps `Inv` and spares the stacks of the threads that are not running. */
module KernelSteps {
  import opened Machine
  import opened Scheduling
  import opened Registry
  import opened Sections
  import opened Kernel

  /** Thread `i` is where it was: same identity, same saved rsp, same stack contents. */
  ghost predicate Spared(s: Sys, s': Sys, i: nat) {
    && i < |s.tables.threads| && i < |s'.tables.threads|
    && s'.tables.threads[i] == s.tables.threads[i].(state := s'.tables.threads[i].state)
    && SameRange(s.cpu.mem, s'.cpu.mem, s.tables.threads[i].stack.base, s.tables.threads[i].stack.limit)
  }

  lemma {:induction false} IntactIsLocal(i: Image, th: Thread, th': Thread, m: Memory, m': Memory)
    requires FrameIntact(i, th, m)
    requires th'.stack == th.stack && th'.context == th.context
    requires SameRange(m, m', th.stack.base, th.stack.limit)
    ensures FrameIntact(i, th', m')
  {
    if FreshFrame(i, th, m) {
      assert FreshFrame(i, th', m');
    } else {
      assert SwitchedFrame(i, th', m');
    }
  }

  // ---------------------------------------------------------------------
  // Interrupt entry
  // ---------------------------------------------------------------------

  lemma {:induction false} AlignDown(x: int, pad: nat)
    ensures (x - x % 16 - INTERRUPT_BYTES - 8 * pad) % 8 == 0
  {
    assert x - x % 16 == 16 * (x / 16);
    assert x - x % 16 - INTERRUPT_BYTES - 8 * pad == 8 * (2 * (x / 16) - 14 - pad);
  }

  lemma {:induction false} InterruptStored(i: Image, cpu: Cpu)
    requires |cpu.scratch| == SCRATCH_COUNT
    ensures InterruptedAt(EnterHandler(i, cpu).mem, InterruptBase(cpu), cpu)
    ensures Load(EnterHandler(i, cpu).mem, InterruptBase(cpu) + 80) == i.cs
    ensures Load(EnterHandler(i, cpu).mem, InterruptBase(cpu) + 104) == i.ss
    ensures forall a | a < InterruptBase(cpu) || InterruptBase(cpu) + INTERRUPT_BYTES <= a ::
      Load(EnterHandler(i, cpu).mem, a) == Load(cpu.mem, a)
  {
    var ws, base := InterruptWords(i, cpu), InterruptBase(cpu);
    StoreBlockLoads(cpu.mem, base, ws);
    StoreBlockAt(cpu.mem, base, ws, 9);
    StoreBlockAt(cpu.mem, base, ws, 10);
    StoreBlockAt(cpu.mem, base, ws, 11);
    StoreBlockAt(cpu.mem, base, ws, 12);
    StoreBlockAt(cpu.mem, base, ws, 13);
    ScratchStored(cpu.mem, base, ws, cpu.scratch);
  }

  lemma {:induction false} ScratchStored(m: Memory, base: int, ws: seq<Word>, scratch: seq<Word>)
    requires |scratch| == SCRATCH_COUNT && scratch <= ws
    ensures ScratchAt(StoreBlock(m, base, ws), base) == scratch
  {
    StoreBlockAt(m, base, ws, 0);
    StoreBlockAt(m, base, ws, 1);
    StoreBlockAt(m, base, ws, 2);
    StoreBlockAt(m, base, ws, 3);
    StoreBlockAt(m, base, ws, 4);
    StoreBlockAt(m, base, ws, 5);
    StoreBlockAt(m, base, ws, 6);
    StoreBlockAt(m, base, ws, 7);
    StoreBlockAt(m, base, ws, 8);
  }

  /** Entering the handler parks the interrupted computation below rsp and changes nothing
      at or above the interrupted rsp. */
  lemma {:induction false} EnterHandlerParks(s: Sys)
    requires MachineOk(s) && Enabled(s, Deliver)
    ensures var k, cpu := s.tables.threads[s.tables.current].stack, EnterHandler(s.image, s.cpu);
      && cpu.rsp == InterruptBase(s.cpu) - 8 * s.image.pad && cpu.rip == s.image.handler
      && Load(cpu.mem, InterruptBase(s.cpu) + 80) == s.image.cs
      && Load(cpu.mem, InterruptBase(s.cpu) + 104) == s.image.ss
      && k.base + 56 <= cpu.rsp
      && Parked(s.image, k, cpu.mem, cpu.rsp)
      && InterruptedAt(cpu.mem, cpu.rsp + 8 * s.image.pad, s.cpu)
      && forall a | a < InterruptBase(s.cpu) || InterruptBase(s.cpu) + INTERRUPT_BYTES <= a ::
        Load(cpu.mem, a) == Load(s.cpu.mem, a)
  {
    InterruptStored(s.image, s.cpu);
    AlignDown(s.cpu.rsp, s.image.pad);
  }

  // ---------------------------------------------------------------------
  // The tick
  // ---------------------------------------------------------------------

  /** The tick rotates the queue; apart from states it writes one saved rsp at most. */
  lemma {:induction false} TickQueue(s: Sys)
    requires OneRunner(Queue(s.tables))
    ensures |ApplyTick(s).tables.threads| == |s.tables.threads|
    ensures Queue(ApplyTick(s).tables) == Rotate(Queue(s.tables))
    ensures ApplyTick(s).tables.current == s.tables.current ==> ApplyTick(s).tables == s.tables
    ensures forall i | 0 <= i < |s.tables.threads| && i != s.tables.current ::
      ApplyTick(s).tables.threads[i] == s.tables.threads[i].(state := ApplyTick(s).tables.threads[i].state)
    ensures var c := s.tables.current;
      ApplyTick(s).tables.threads[c] ==
        s.tables.threads[c].(state := ApplyTick(s).tables.threads[c].state,
                             context := ApplyTick(s).tables.threads[c].context)
  {
    TickSwitches(Queue(s.tables));
    PrepareSwitchRotates(s.tables);
    var t := PrepareSwitch(s.tables);
    if t.current != s.tables.current {
      assert States(ApplyTick(s).tables.threads) == States(t.threads);
    }
  }

  /** A tick that switches parks the running thread in a seven-word frame and pops the frame
      of the thread it switches to. */
  lemma {:induction false} TickSwapsStacks(s: Sys)
    requires OneRunner(Queue(s.tables))
    requires ApplyTick(s).tables.current != s.tables.current
    requires 56 <= s.cpu.rsp
    ensures var s', c := ApplyTick(s), s.tables.current;
      var th := s.tables.threads[s'.tables.current];
      && s'.tables.threads[c].context.rsp == s.cpu.rsp - 56
      && FrameAt(s'.cpu.mem, s.cpu.rsp - 56, s.cpu.callee, s.image.tickResume)
      && (forall a | a < s.cpu.rsp - 56 || s.cpu.rsp <= a :: Load(s'.cpu.mem, a) == Load(s.cpu.mem, a))
      && s'.cpu == SwitchIn(s.cpu.(mem := s'.cpu.mem), th.context.rsp)
  {
    TickSwitches(Queue(s.tables));
    PrepareSwitchRotates(s.tables);
    SwitchOutLeavesFrame(s.cpu, s.image.tickResume);
  }

  // ---------------------------------------------------------------------
  // Other threads are spared
  // ---------------------------------------------------------------------

  lemma {:induction false} TickSpares(s: Sys, i: nat)
    requires OneRunner(Queue(s.tables)) && MachineOk(s) && Enabled(s, TimerTick)
    requires i < |s.tables.threads| && i != s.tables.current
    ensures Spared(s, ApplyTick(s), i)
  {
    TickQueue(s);
    if ApplyTick(s).tables.current != s.tables.current {
      TickSwapsStacks(s);
      assert Disjoint(s.tables.threads[s.tables.current].stack, s.tables.threads[i].stack);
    }
  }

  lemma {:induction false} AddSpares(s: Sys, e: Event, i: nat)
    requires e.Add? && FreshStack(s, e.base) && s.tables.current < |s.tables.threads|
    requires i < |s.tables.threads|
    ensures Spared(s, Apply(s, e), i)
  {
    InitialFrame(s.cpu.mem, e.base, e.entry, s.image.trampoline);
    assert Disjoint(s.tables.threads[i].stack, Stack(e.base, e.base + KERNEL_STACK_SIZE));
  }

  /** No step touches the saved rsp or the stack of a thread that is not running. */
  lemma {:induction false} StepSpares(s: Sys, e: Event, i: nat)
    requires Inv(s) && Enabled(s, e)
    requires i < |s.tables.threads| && i != s.tables.current
    ensures Spared(s, Apply(s, e), i)
  {
    var k := s.tables.threads[s.tables.current].stack;
    assert Disjoint(k, s.tables.threads[i].stack);
    match e {
      case EnableInterrupts =>
      case Own(_) =>
      case Insert(_) =>
      case Draw(_) =>
      case Add(_, _, _) =>
        AddSpares(s, e, i);
      case Record(_) =>
      case BeginExit(_, _) =>
      case Mark(tid) =>
        MarkFirstMarksOne(s.tables.threads, tid);
      case Deliver =>
        EnterHandlerParks(s);
      case Acknowledge =>
      case TimerTick =>
        TickSpares(s, i);
      case Resume =>
      case EnterThread =>
    }
  }

  // ---------------------------------------------------------------------
  // The invariant, part by part
  // ---------------------------------------------------------------------

  lemma {:induction false} TickKeepsTables(s: Sys)
    requires TablesOk(s.tables)
    ensures TablesOk(ApplyTick(s).tables)
  {
    var t, t' := PrepareSwitch(s.tables), ApplyTick(s).tables;
    TickQueue(s);
    TickSwitches(Queue(s.tables));
    PrepareSwitchAgrees(s.tables);
    AgreeIgnoresStates(t, t');
    forall i: nat
      ensures SameExits(t, t', i)
    {
    }
    ExitsAccount(t, t');
  }

  lemma {:induction false} AddKeepsTables(t: Tables, pid: nat, context: TaskContext, stack: Stack)
    requires TablesOk(t) && IsDrawn(t, pid)
    ensures TablesOk(AddThread(t, pid, context, stack))
    ensures Queue(AddThread(t, pid, context, stack)) == RunQueue(Queue(t).states + [Ready], t.current)
  {
    var t' := AddThread(t, pid, context, stack);
    AddAgrees(t, pid, context, stack);
    AddAccounts(t, pid, context, stack);
    assert States(t'.threads) == States(t.threads) + [Ready];
    MoveKeepsOneRunner(Queue(t), Spawn, Queue(t'));
  }

  lemma {:induction false} MarkKeepsTables(t: Tables, tid: nat)
    requires TablesOk(t) && tid in t.pending.leaving
    ensures TablesOk(MarkThread(t, tid)) && Moves(Queue(t), Retire, Queue(MarkThread(t, tid)))
  {
    MarkAgrees(t, tid);
    MarkAccounts(t, tid);
    MarkFirstMarksOne(t.threads, tid);
    MoveKeepsOneRunner(Queue(t), Retire, Queue(MarkThread(t, tid)));
  }

  lemma {:induction false} RecordKeepsTables(t: Tables, pid: nat)
    requires TablesOk(t) && IsSpawned(t, pid)
    ensures TablesOk(RecordThread(t, pid))
  {
    RecordAgrees(t, pid);
    RecordAccounts(t, pid);
  }

  lemma {:induction false} StepKeepsTables(s: Sys, e: Event)
    requires TablesOk(s.tables) && Enabled(s, e)
    ensures TablesOk(Apply(s, e).tables)
  {
    match e {
      case Insert(name) =>
        InsertAgrees(s.tables, name, s.image.pageTable);
        InsertAccounts(s.tables, name, s.image.pageTable);
      case Draw(pid) =>
        DrawAgrees(s.tables, pid);
        SameAccounts(s.tables, DrawTid(s.tables, pid));
      case Add(pid, _, base) =>
        AddKeepsTables(s.tables, pid, TaskContext(Wrap(StackTop(base) - 56)), Stack(base, base + KERNEL_STACK_SIZE));
      case Record(pid) => RecordKeepsTables(s.tables, pid);
      case BeginExit(pid, code) =>
        ZombieAgrees(s.tables, pid, code);
        ZombieAccounts(s.tables, pid, code);
      case Mark(tid) => MarkKeepsTables(s.tables, tid);
      case TimerTick => TickKeepsTables(s);
      case _ =>
    }
  }

  lemma {:induction false} SameStacks(t: Tables, t': Tables)
    requires StacksOk(t) && |t'.threads| == |t.threads|
    requires forall i | 0 <= i < |t.threads| :: t'.threads[i].stack == t.threads[i].stack
    ensures StacksOk(t')
  {
  }

  lemma {:induction false} AddKeepsStacks(s: Sys, e: Event)
    requires StacksOk(s.tables) && e.Add? && FreshStack(s, e.base)
    requires s.tables.current < |s.tables.threads|
    ensures StacksOk(Apply(s, e).tables)
  {
    var t, t' := s.tables, Apply(s, e).tables;
    assert forall i | 0 <= i < |t.threads| :: t'.threads[i] == t.threads[i];
  }

  lemma {:induction false} StepKeepsStacks(s: Sys, e: Event)
    requires Inv(s) && Enabled(s, e)
    ensures StacksOk(Apply(s, e).tables)
  {
    match e {
      case Add(_, _, _) => AddKeepsStacks(s, e);
      case Mark(tid) =>
        MarkFirstMarksOne(s.tables.threads, tid);
        SameStacks(s.tables, Apply(s, e).tables);
      case TimerTick =>
        TickQueue(s);
        SameStacks(s.tables, Apply(s, e).tables);
      case _ =>
    }
  }

  lemma {:induction false} StepKeepsFrames(s: Sys, e: Event)
    requires Inv(s) && Enabled(s, e)
    ensures OthersIntact(Apply(s, e))
  {
    var s' := Apply(s, e);
    forall i | 0 <= i < |s'.tables.threads| && i != s'.tables.current
      ensures FrameIntact(s'.image, s'.tables.threads[i], s'.cpu.mem)
    {
      if i < |s.tables.threads| && i != s.tables.current {
        StepSpares(s, e, i);
        IntactIsLocal(s.image, s.tables.threads[i], s'.tables.threads[i], s.cpu.mem, s'.cpu.mem);
      } else {
        NewlyParked(s, e, i);
      }
    }
  }

  /** A thread that has just been created or just been switched out has an intact frame. */
  lemma {:induction false} NewlyParked(s: Sys, e: Event, i: nat)
    requires Inv(s) && Enabled(s, e)
    requires i < |Apply(s, e).tables.threads| && i != Apply(s, e).tables.current
    requires i >= |s.tables.threads| || i == s.tables.current
    ensures FrameIntact(s.image, Apply(s, e).tables.threads[i], Apply(s, e).cpu.mem)
  {
    match e {
      case Add(_, _, _) => AddParks(s, e);
      case TimerTick => TickParks(s);
      case Mark(tid) => MarkFirstMarksOne(s.tables.threads, tid);
      case _ =>
    }
  }

  lemma {:induction false} AddParks(s: Sys, e: Event)
    requires MachineOk(s) && e.Add? && Enabled(s, e)
    ensures var s', i := Apply(s, e), |s.tables.threads|;
      && |s'.tables.threads| == i + 1
      && FreshFrame(s.image, s'.tables.threads[i], s'.cpu.mem)
  {
    InitialFrame(s.cpu.mem, e.base, e.entry, s.image.trampoline);
  }

  lemma {:induction false} TickParks(s: Sys)
    requires OneRunner(Queue(s.tables)) && RunningOk(s) && s.phase == Acknowledged
    requires StacksOk(s.tables)
    ensures ApplyTick(s).tables.current != s.tables.current ==>
      SwitchedFrame(s.image, ApplyTick(s).tables.threads[s.tables.current], ApplyTick(s).cpu.mem)
    ensures |ApplyTick(s).tables.threads| == |s.tables.threads|
  {
    TickQueue(s);
    if ApplyTick(s).tables.current != s.tables.current {
      TickSwapsStacks(s);
      ParkedFrame(s, ApplyTick(s));
    }
  }

  lemma {:induction false} ParkedFrame(s: Sys, s': Sys)
    requires s.tables.current < |s.tables.threads| == |s'.tables.threads|
    requires RunningOk(s) && s.phase == Acknowledged
    requires s'.tables.threads[s.tables.current].stack == s.tables.threads[s.tables.current].stack
    requires s'.tables.threads[s.tables.current].context.rsp == s.cpu.rsp - 56
    requires FrameAt(s'.cpu.mem, s.cpu.rsp - 56, s.cpu.callee, s.image.tickResume)
    requires forall a | s.cpu.rsp <= a :: Load(s'.cpu.mem, a) == Load(s.cpu.mem, a)
    ensures SwitchedFrame(s.image, s'.tables.threads[s.tables.current], s'.cpu.mem)
  {
  }

  /** Popping an intact frame lands in the trampoline or back in tick. */
  lemma {:induction false} FrameLands(i: Image, th: Thread, cpu: Cpu)
    requires FrameIntact(i, th, cpu.mem) && 0 < th.stack.base && th.stack.limit < WORD_LIMIT
    ensures var cpu' := SwitchIn(cpu, th.context.rsp);
      || (cpu'.rip == i.tickResume && Parked(i, th.stack, cpu'.mem, cpu'.rsp))
      || (cpu'.rip == i.trampoline && th.stack.base + 56 < cpu'.rsp <= th.stack.limit && cpu'.rsp % 16 == 0)
  {
  }

  lemma {:induction false} TickLands(s: Sys)
    requires OneRunner(Queue(s.tables)) && MachineOk(s) && Enabled(s, TimerTick)
    ensures RunningOk(ApplyTick(s))
  {
    TickQueue(s);
    var s' := ApplyTick(s);
    if s'.tables.current != s.tables.current {
      var th := s.tables.threads[s'.tables.current];
      TickSwapsStacks(s);
      TickSpares(s, s'.tables.current);
      IntactIsLocal(s.image, th, th, s.cpu.mem, s'.cpu.mem);
      FrameLands(s.image, th, s.cpu.(mem := s'.cpu.mem));
    }
  }

  lemma {:induction false} StepKeepsRunning(s: Sys, e: Event)
    requires TablesOk(s.tables) && MachineOk(s) && Enabled(s, e)
    ensures RunningOk(Apply(s, e))
  {
    match e {
      case Deliver => EnterHandlerParks(s);
      case Mark(tid) => MarkFirstMarksOne(s.tables.threads, tid);
      case TimerTick => TickLands(s);
      case _ =>
    }
  }

  /** The invariant is kept by every enabled step. */
  lemma {:induction false} StepKeepsInv(s: Sys, e: Event)
    requires Inv(s) && Enabled(s, e)
    ensures Inv(Apply(s, e))
  {
    StepKeepsTables(s, e);
    StepKeepsStacks(s, e);
    StepKeepsFrames(s, e);
    StepKeepsRunning(s, e);
    if e.TimerTick? {
      TickQueue(s);
    }
  }
}
