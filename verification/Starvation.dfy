/** Why the waiting bound of `Guarantees` counts the processes created: runs of the kernel from
    boot in which the idle thread waits for as long as newcomers keep arriving. */
module Starvation {
  import opened Machine
  import opened Scheduling
  import opened Registry
  import opened Kernel
  import opened KernelSteps
  import opened Runs
  import opened Guarantees
  import opened Scenarios

  // ---------------------------------------------------------------------
  // Newcomers
  // ---------------------------------------------------------------------

  ghost predicate IdleWaits(ss: seq<Sys>) {
    forall m | 0 <= m < |ss| :: Waiting(Queue(ss[m].tables), 0)
  }

  /** The newest of `n` threads runs, the idle thread waits, and memory from `edge` up is free. */
  ghost predicate NewestRuns(s: Sys, n: nat, edge: int) {
    && Preemptible(s) && |s.tables.threads| == n == s.tables.nextPid && s.tables.current == n - 1
    && Waiting(Queue(s.tables), 0) && Below(s.tables, edge) && 0 < edge
  }

  /** One thread has been added to those and has the next turn. */
  ghost predicate NewcomerWaits(c: Sys, n: nat, edge: int) {
    && Preemptible(c) && |c.tables.threads| == n + 1 == c.tables.nextPid && c.tables.current != n && Fresh(c, n)
    && Below(c.tables, edge) && 0 < edge
    && Rotate(Queue(c.tables)).current == n
    && Waiting(Queue(c.tables), 0) && Waiting(Rotate(Queue(c.tables)), 0)
  }

  /** A newcomer is next when the newest thread is current. */
  lemma {:induction false} NewcomerIsNext(q: RunQueue, q': RunQueue)
    requires OneRunner(q) && q.current == |q.states| - 1 && Waiting(q, 0)
    requires q' == RunQueue(q.states + [Ready], q.current)
    ensures OneRunner(q') && Waiting(q', 0)
    ensures Rotate(q').current == |q.states| && Waiting(Rotate(q'), 0)
  {
    MoveKeepsOneRunner(q, Spawn, q');
    NextReadyIsNearest(q');
    assert Nearest(q', |q.states|);
    TickSwitches(q');
  }

  lemma {:induction false} NewcomerTurn(c: Sys, n: nat, edge: int) returns (ts: seq<Sys>)
    requires NewcomerWaits(c, n, edge)
    ensures |ts| == 5 && Steps(ts, Turn()) && ts[0] == c && IdleWaits(ts) && NewestRuns(ts[4], n + 1, edge)
  {
    ts := TurnRun(c, n);
    BelowStays(c, ts[4], edge);
    TurnWaits(ts);
  }

  lemma {:induction false} TurnWaits(ts: seq<Sys>)
    requires |ts| == 5 && Waiting(Queue(ts[0].tables), 0) && Waiting(Queue(ts[4].tables), 0)
    requires ts[1].tables == ts[2].tables == ts[0].tables && ts[3].tables == ts[4].tables
    ensures IdleWaits(ts)
  {
  }

  lemma {:induction false} WaitsJoin(ss: seq<Sys>, ts: seq<Sys>)
    requires ts != [] && IdleWaits(ss) && IdleWaits(ts)
    ensures IdleWaits(ss + ts[1..])
  {
    forall m | 0 <= m < |ss + ts[1..]|
      ensures Waiting(Queue((ss + ts[1..])[m].tables), 0)
    {
      assert (ss + ts[1..])[m] == if m < |ss| then ss[m] else ts[m - |ss| + 1];
    }
  }

  lemma {:induction false} CreatedIsNext(s: Sys, n: nat, entry: Word, base: int)
    requires NewestRuns(s, n, base) && FreshStack(s, base)
    ensures var q := Queue(Created(s, "", entry, base).tables);
      OneRunner(q) && Waiting(q, 0) && Rotate(q).current == n && Waiting(Rotate(q), 0)
  {
    CreatedQueue(s, "", entry, base);
    NewcomerIsNext(Queue(s.tables), Queue(Created(s, "", entry, base).tables));
  }

  lemma {:induction false} CreatedWaits(s: Sys, n: nat, entry: Word, base: int)
    requires NewestRuns(s, n, base) && base + KERNEL_STACK_SIZE < WORD_LIMIT
    ensures FreshStack(s, base) && NewcomerWaits(Created(s, "", entry, base), n, base + KERNEL_STACK_SIZE)
  {
    CreatedAbove(s, "", entry, base);
    CreatedPreemptible(s, "", entry, base);
    CreatedThreads(s, "", entry, base);
    CreatedIsNext(s, n, entry, base);
  }

  function NewcomerEvents(n: nat, entry: Word, base: int): seq<Event> {
    CreateCall(n, "", entry, base) + Turn()
  }

  lemma {:induction false} NewcomerCreated(s: Sys, n: nat, entry: Word, base: int) returns (ts: seq<Sys>)
    requires NewestRuns(s, n, base) && base + KERNEL_STACK_SIZE < WORD_LIMIT
    ensures |ts| == 5 && Steps(ts, CreateCall(n, "", entry, base)) && ts[0] == s && IdleWaits(ts)
    ensures NewcomerWaits(ts[4], n, base + KERNEL_STACK_SIZE)
  {
    CreatedWaits(s, n, entry, base);
    ts := CreateRun(s, "", entry, base);
    FiveWait(ts);
  }

  lemma {:induction false} FiveWait(ts: seq<Sys>)
    requires |ts| == 5 && Waiting(Queue(ts[0].tables), 0) && Waiting(Queue(ts[4].tables), 0)
    requires SameQueue(ts[0], ts[1]) && SameQueue(ts[0], ts[2]) && SameQueue(ts[4], ts[3])
    ensures IdleWaits(ts)
  {
  }

  /** One process is created and at the next interrupt runs, before the idle thread. */
  lemma {:induction false} NewcomerRun(s: Sys, n: nat, entry: Word, base: int) returns (ts: seq<Sys>)
    requires NewestRuns(s, n, base) && base + KERNEL_STACK_SIZE < WORD_LIMIT
    ensures |ts| == 9 && Steps(ts, NewcomerEvents(n, entry, base)) && ts[0] == s && IdleWaits(ts)
    ensures NewestRuns(ts[8], n + 1, base + KERNEL_STACK_SIZE)
  {
    var first := NewcomerCreated(s, n, entry, base);
    var turn := NewcomerTurn(first[4], n, base + KERNEL_STACK_SIZE);
    StepsJoin(first, CreateCall(n, "", entry, base), turn, Turn());
    WaitsJoin(first, turn);
    ts := first + turn[1..];
  }

  /** `k` times over a process is created, on the next free stack, and interrupted into. */
  function Newcomers(n: nat, entry: Word, start: int, k: nat): seq<Event> {
    if k == 0 then []
    else Newcomers(n, entry, start, k - 1) + NewcomerEvents(n + k - 1, entry, start + KERNEL_STACK_SIZE * (k - 1))
  }

  ghost predicate NewcomersDone(s: Sys, n: nat, entry: Word, start: int, k: nat, ts: seq<Sys>, z: Sys) {
    && Steps(ts, Newcomers(n, entry, start, k)) && ts[0] == s && ts[|ts| - 1] == z && IdleWaits(ts)
    && NewestRuns(z, n + k, start + KERNEL_STACK_SIZE * k)
  }

  lemma {:induction false} OneMore(s: Sys, n: nat, entry: Word, start: int, k: nat, k': nat, ts: seq<Sys>, z: Sys)
      returns (ts': seq<Sys>, z': Sys)
    requires NewcomersDone(s, n, entry, start, k, ts, z) && k' == k + 1
    requires start + KERNEL_STACK_SIZE * k' < WORD_LIMIT
    ensures NewcomersDone(s, n, entry, start, k', ts', z')
  {
    var base := start + KERNEL_STACK_SIZE * k;
    var more := NewcomerRun(z, n + k, entry, base);
    JoinNewcomer(n, entry, start, k, k', ts, more);
    ts', z' := ts + more[1..], more[8];
  }

  lemma {:induction false} JoinNewcomer(n: nat, entry: Word, start: int, k: nat, k': nat, ts: seq<Sys>, more: seq<Sys>)
    requires Steps(ts, Newcomers(n, entry, start, k)) && IdleWaits(ts) && k' == k + 1
    requires Steps(more, NewcomerEvents(n + k, entry, start + KERNEL_STACK_SIZE * k)) && IdleWaits(more)
    requires more[0] == ts[|ts| - 1]
    ensures Steps(ts + more[1..], Newcomers(n, entry, start, k')) && IdleWaits(ts + more[1..])
  {
    StepsJoin(ts, Newcomers(n, entry, start, k), more, NewcomerEvents(n + k, entry, start + KERNEL_STACK_SIZE * k));
    WaitsJoin(ts, more);
  }

  lemma {:induction false} NewcomersRun(s: Sys, n: nat, entry: Word, start: int, k: nat) returns (ts: seq<Sys>, z: Sys)
    requires NewestRuns(s, n, start) && start + KERNEL_STACK_SIZE * k < WORD_LIMIT
    ensures NewcomersDone(s, n, entry, start, k, ts, z)
  {
    if k == 0 {
      ts, z := [s], s;
    } else {
      ts, z := NewcomersRun(s, n, entry, start, k - 1);
      ts, z := OneMore(s, n, entry, start, k - 1, k, ts, z);
    }
  }

  // ---------------------------------------------------------------------
  // From boot
  // ---------------------------------------------------------------------

  function DemoEvents(entry: Word, start: int): seq<Event> {
    CreateCall(1, "demo_a", entry, start) + CreateCall(2, "demo_b", entry, start + KERNEL_STACK_SIZE)
  }

  lemma {:induction false} TwoDemos(s: Sys, entry: Word, start: int) returns (ts: seq<Sys>)
    requires Booting(s) && |s.tables.threads| == 1 == s.tables.nextPid && Below(s.tables, start)
    requires 0 < start && start + KERNEL_STACK_SIZE * 2 < WORD_LIMIT
    ensures |ts| == 9 && Steps(ts, DemoEvents(entry, start)) && ts[0] == s
    ensures var c := ts[8];
      && c == Created(Created(s, "demo_a", entry, start), "demo_b", entry, start + KERNEL_STACK_SIZE)
      && Booting(c) && Below(c.tables, start + KERNEL_STACK_SIZE * 2)
      && Fresh(c, 1) && Fresh(c, 2) && c.image == s.image && c.tables.nextPid == 3
  {
    CreatedAbove(s, "demo_a", entry, start);
    var first := BootCreates(s, "demo_a", entry, start);
    CreatedAbove(first[4], "demo_b", entry, start + KERNEL_STACK_SIZE);
    var second := BootCreates(first[4], "demo_b", entry, start + KERNEL_STACK_SIZE);
    StepsJoin(first, CreateCall(1, "demo_a", entry, start),
              second, CreateCall(2, "demo_b", entry, start + KERNEL_STACK_SIZE));
    ts := first + second[1..];
  }

  /** Three threads, two of them fresh, and memory from `edge` up free. */
  ghost predicate DemosReady(s: Sys, edge: int) {
    && Queue(s.tables) == RunQueue([Running, Ready, Ready], 0) && s.tables.nextPid == 3
    && Fresh(s, 1) && Fresh(s, 2) && Below(s.tables, edge)
  }

  lemma {:induction false} DemosRun(i: Image, cpu: Cpu, boot: Stack, entry: Word, start: int) returns (ts: seq<Sys>)
    requires i.trampoline != i.tickResume && HandlerRoom(i) + 24 <= KERNEL_STACK_SIZE
    requires |cpu.scratch| == SCRATCH_COUNT && !InterruptsOn(cpu.rflags)
    requires 0 < boot.base && boot.base + HandlerRoom(i) <= cpu.rsp <= boot.limit <= start
    requires start + KERNEL_STACK_SIZE * 2 < WORD_LIMIT
    ensures |ts| == 9 && Steps(ts, DemoEvents(entry, start)) && ts[0] == BootSys(i, cpu, boot)
    ensures DemosReady(ts[8], start + KERNEL_STACK_SIZE * 2) && Booting(ts[8]) && ts[8].image == i
  {
    BootFacts(i, cpu, boot, start);
    ts := TwoDemos(BootSys(i, cpu, boot), entry, start);
    InitQueue(i, cpu, boot, false, entry, start, entry, start + KERNEL_STACK_SIZE);
  }

  /** The demo threads are set up and interrupts enabled. */
  lemma {:induction false} BootRun(i: Image, cpu: Cpu, boot: Stack, entry: Word, start: int) returns (ts: seq<Sys>)
    requires i.trampoline != i.tickResume && HandlerRoom(i) + 24 <= KERNEL_STACK_SIZE
    requires |cpu.scratch| == SCRATCH_COUNT && !InterruptsOn(cpu.rflags)
    requires 0 < boot.base && boot.base + HandlerRoom(i) <= cpu.rsp <= boot.limit <= start
    requires start + KERNEL_STACK_SIZE * 2 < WORD_LIMIT
    ensures |ts| == 10 && Steps(ts, DemoEvents(entry, start) + [EnableInterrupts]) && ts[0] == BootSys(i, cpu, boot)
    ensures Preemptible(ts[9]) && DemosReady(ts[9], start + KERNEL_STACK_SIZE * 2)
  {
    var first := DemosRun(i, cpu, boot, entry, start);
    var n := BootEnables(first[8]);
    StepsJoin(first, DemoEvents(entry, start), [first[8], n], [EnableInterrupts]);
    ts := first + [first[8], n][1..];
  }

  const DEMO_FIRST := RunQueue([Ready, Running, Ready], 1)

  lemma {:induction false} DemoTurns()
    ensures Rotate(RunQueue([Running, Ready, Ready], 0)) == DEMO_FIRST
    ensures Rotate(DEMO_FIRST) == RunQueue([Ready, Ready, Running], 2)
  {
  }

  /** The first interrupt runs the first demo thread; from its tick on the idle thread waits. */
  lemma {:induction false} FirstTurn(s: Sys, edge: int) returns (ts: seq<Sys>)
    requires Preemptible(s) && DemosReady(s, edge)
    ensures |ts| == 5 && Steps(ts, Turn()) && ts[0] == s && ts[4].tables.nextPid == 3
    ensures Queue(ts[3].tables) == Queue(ts[4].tables) == DEMO_FIRST
    ensures Preemptible(ts[4]) && Fresh(ts[4], 2) && Below(ts[4].tables, edge)
  {
    DemoTurns();
    ts := TurnRun(s, 1);
    assert KeepsFresh(s, ts[4], 2);
    BelowStays(s, ts[4], edge);
  }

  /** From then on: the second demo thread, then `k` newcomers. */
  lemma {:induction false} LaterTurns(s: Sys, entry: Word, edge: int, k: nat) returns (ts: seq<Sys>)
    requires Preemptible(s) && Queue(s.tables) == DEMO_FIRST && Fresh(s, 2) && Below(s.tables, edge)
    requires s.tables.nextPid == 3 && 0 < edge && edge + KERNEL_STACK_SIZE * k < WORD_LIMIT
    ensures Steps(ts, Turn() + Newcomers(3, entry, edge, k)) && ts[0] == s && IdleWaits(ts)
  {
    DemoTurns();
    assert |s.tables.threads| == |Queue(s.tables).states| == 3;
    var second := NewcomerTurn(s, 2, edge);
    var rest, z := NewcomersRun(second[4], 3, entry, edge, k);
    StepsJoin(second, Turn(), rest, Newcomers(3, entry, edge, k));
    WaitsJoin(second, rest);
    ts := second + rest[1..];
  }

  /** The first interrupt after boot. */
  lemma {:induction false} BootAndFirstTurn(i: Image, cpu: Cpu, boot: Stack, entry: Word, start: int)
      returns (ts: seq<Sys>)
    requires i.trampoline != i.tickResume && HandlerRoom(i) + 24 <= KERNEL_STACK_SIZE
    requires |cpu.scratch| == SCRATCH_COUNT && !InterruptsOn(cpu.rflags)
    requires 0 < boot.base && boot.base + HandlerRoom(i) <= cpu.rsp <= boot.limit <= start
    requires start + KERNEL_STACK_SIZE * 2 < WORD_LIMIT
    ensures |ts| == 14 && ts[0] == BootSys(i, cpu, boot)
    ensures Steps(ts, DemoEvents(entry, start) + [EnableInterrupts] + Turn())
    ensures IdleWaits(ts[12..]) && Queue(ts[13].tables) == DEMO_FIRST && ts[13].tables.nextPid == 3
    ensures Preemptible(ts[13]) && Fresh(ts[13], 2) && Below(ts[13].tables, start + KERNEL_STACK_SIZE * 2)
  {
    var before := BootRun(i, cpu, boot, entry, start);
    var first := FirstTurn(before[9], start + KERNEL_STACK_SIZE * 2);
    StepsJoin(before, DemoEvents(entry, start) + [EnableInterrupts], first, Turn());
    ts := before + first[1..];
    assert ts[12..] == [first[3], first[4]];
  }

  ghost function TicksIn(es: seq<Event>): nat {
    Count(MovesOf(es), |es|, Tick)
  }

  lemma {:induction false} TickLast(es: seq<Event>, e: Event)
    ensures TicksIn(es + [e]) == TicksIn(es) + if e == TimerTick then 1 else 0
  {
    var es' := es + [e];
    assert MovesOf(es') == MovesOf(es) + [MoveOf(e)] && es'[|es|] == e;
    SameCount(MovesOf(es), MoveOf(e), |es|);
  }

  lemma {:induction false} SameCount(ms: seq<Move>, m: Move, k: nat)
    requires k <= |ms|
    ensures Count(ms + [m], k, Tick) == Count(ms, k, Tick)
  {
    if k > 0 {
      SameCount(ms, m, k - 1);
    }
  }

  lemma {:induction false} TicksJoin(es: seq<Event>, fs: seq<Event>)
    ensures TicksIn(es + fs) == TicksIn(es) + TicksIn(fs)
    decreases |fs|
  {
    if fs == [] {
      assert es + fs == es;
    } else {
      var init, last := fs[..|fs| - 1], fs[|fs| - 1];
      assert es + fs == (es + init) + [last] && fs == init + [last];
      TicksJoin(es, init);
      TickLast(es + init, last);
      TickLast(init, last);
    }
  }

  lemma {:induction false} CallTicks(pid: nat, name: string, entry: Word, base: int)
    ensures TicksIn(CreateCall(pid, name, entry, base)) == 0 && TicksIn(Turn()) == 1
  {
    var a, b, c, d := Insert(name), Draw(pid), Add(pid, entry, base), Record(pid);
    FourTicks(a, b, c, d);
    FourTicks(Deliver, Acknowledge, TimerTick, EnterThread);
  }

  lemma {:induction false} FourTicks(a: Event, b: Event, c: Event, d: Event)
    ensures TicksIn([a, b, c, d]) == TicksIn([a]) + TicksIn([b]) + TicksIn([c]) + TicksIn([d])
    ensures TicksIn([a]) == if a == TimerTick then 1 else 0
    ensures TicksIn([b]) == if b == TimerTick then 1 else 0
    ensures TicksIn([c]) == if c == TimerTick then 1 else 0
    ensures TicksIn([d]) == if d == TimerTick then 1 else 0
  {
    OneTick(a);
    OneTick(b);
    OneTick(c);
    OneTick(d);
    TicksJoin([a, b], [c, d]);
    TicksJoin([a], [b]);
    TicksJoin([c], [d]);
    assert [a, b, c, d] == [a, b] + [c, d] && [a, b] == [a] + [b] && [c, d] == [c] + [d];
  }

  lemma {:induction false} OneTick(e: Event)
    ensures TicksIn([e]) == if e == TimerTick then 1 else 0
  {
    TickLast([], e);
    assert [] + [e] == [e];
  }

  lemma {:induction false} NewcomerTicks(pid: nat, entry: Word, start: int, k: nat)
    ensures TicksIn(Newcomers(pid, entry, start, k)) == k
  {
    if k > 0 {
      var base := start + KERNEL_STACK_SIZE * (k - 1);
      NewcomerTicks(pid, entry, start, k - 1);
      CallTicks(pid + k - 1, "", entry, base);
      TicksJoin(CreateCall(pid + k - 1, "", entry, base), Turn());
      TicksJoin(Newcomers(pid, entry, start, k - 1), NewcomerEvents(pid + k - 1, entry, base));
    }
  }

  lemma {:induction false} StarvingTicks(entry: Word, start: int, k: nat)
    ensures TicksIn(StarvingEvents(entry, start, k)) == k + 2
  {
    var edge := start + KERNEL_STACK_SIZE * 2;
    CallTicks(1, "demo_a", entry, start);
    CallTicks(2, "demo_b", entry, start + KERNEL_STACK_SIZE);
    NewcomerTicks(3, entry, edge, k);
    OneTick(EnableInterrupts);
    TicksJoin(CreateCall(1, "demo_a", entry, start), CreateCall(2, "demo_b", entry, start + KERNEL_STACK_SIZE));
    TicksJoin(DemoEvents(entry, start), [EnableInterrupts]);
    TicksJoin(DemoEvents(entry, start) + [EnableInterrupts], Turn());
    TicksJoin(Turn(), Newcomers(3, entry, edge, k));
    TicksJoin(DemoEvents(entry, start) + [EnableInterrupts] + Turn(), Turn() + Newcomers(3, entry, edge, k));
  }

  lemma {:induction false} WaitsFrom(before: seq<Sys>, rest: seq<Sys>)
    requires |before| == 14 && IdleWaits(before[12..]) && rest != [] && IdleWaits(rest)
    ensures forall m | 12 <= m < |before + rest[1..]| :: Waiting(Queue((before + rest[1..])[m].tables), 0)
  {
    forall m | 12 <= m < |before + rest[1..]|
      ensures Waiting(Queue((before + rest[1..])[m].tables), 0)
    {
      assert (before + rest[1..])[m] == if m < 14 then before[12..][m - 12] else rest[m - 13];
    }
  }

  /** Two demo processes, then an interrupt into each of them and `k` newcomers. */
  function StarvingEvents(entry: Word, start: int, k: nat): seq<Event> {
    DemoEvents(entry, start) + [EnableInterrupts] + Turn()
      + (Turn() + Newcomers(3, entry, start + KERNEL_STACK_SIZE * 2, k))
  }

  lemma {:induction false} StarvingSteps(i: Image, cpu: Cpu, boot: Stack, entry: Word, start: int, k: nat)
      returns (ss: seq<Sys>)
    requires i.trampoline != i.tickResume && HandlerRoom(i) + 24 <= KERNEL_STACK_SIZE
    requires |cpu.scratch| == SCRATCH_COUNT && !InterruptsOn(cpu.rflags)
    requires 0 < boot.base && boot.base + HandlerRoom(i) <= cpu.rsp <= boot.limit <= start
    requires start + KERNEL_STACK_SIZE * (k + 2) < WORD_LIMIT
    ensures Steps(ss, StarvingEvents(entry, start, k)) && ss[0] == BootSys(i, cpu, boot)
    ensures forall m | 12 <= m < |ss| :: Waiting(Queue(ss[m].tables), 0)
  {
    var edge := start + KERNEL_STACK_SIZE * 2;
    var before := BootAndFirstTurn(i, cpu, boot, entry, start);
    var rest := LaterTurns(before[13], entry, edge, k);
    StepsJoin(before, DemoEvents(entry, start) + [EnableInterrupts] + Turn(),
              rest, Turn() + Newcomers(3, entry, edge, k));
    ss := before + rest[1..];
    WaitsFrom(before, rest);
  }

  /** The processes created cannot be left out of the waiting bound: in these runs, one for every
      number of newcomers whose stacks the address space holds, the idle thread is Ready and
      never current from the first tick on, although `k + 1` more ticks follow. */
  lemma {:induction false} IdleStarves(i: Image, cpu: Cpu, boot: Stack, entry: Word, start: int, k: nat)
      returns (ss: seq<Sys>)
    requires i.trampoline != i.tickResume && HandlerRoom(i) + 24 <= KERNEL_STACK_SIZE
    requires |cpu.scratch| == SCRATCH_COUNT && !InterruptsOn(cpu.rflags)
    requires 0 < boot.base && boot.base + HandlerRoom(i) <= cpu.rsp <= boot.limit <= start
    requires start + KERNEL_STACK_SIZE * (k + 2) < WORD_LIMIT
    ensures var es := StarvingEvents(entry, start, k);
      && Run(ss, es) && ss[0] == BootSys(i, cpu, boot) && Count(MovesOf(es), |es|, Tick) == k + 2
      && forall m | 12 <= m < |ss| :: Waiting(Queue(ss[m].tables), 0)
  {
    BootInv(i, cpu, boot);
    ss := StarvingSteps(i, cpu, boot, entry, start, k);
    StarvingTicks(entry, start, k);
  }
}
