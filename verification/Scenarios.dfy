/** Building blocks for runs: steps and runs put together, the process calls from end to end, one
    timer interrupt into a fresh thread. */
module Scenarios {
  import opened Machine
  import opened Scheduling
  import opened Registry
  import opened Sections
  import opened Kernel
  import opened KernelSteps
  import opened Runs
  import opened Guarantees

  // ---------------------------------------------------------------------
  // Joining runs
  // ---------------------------------------------------------------------

  /** Two sequences of steps of which the second starts where the first ends are one. */
  lemma {:induction false} StepsJoin(ss: seq<Sys>, es: seq<Event>, ts: seq<Sys>, fs: seq<Event>)
    requires Steps(ss, es) && Steps(ts, fs) && ts[0] == ss[|es|]
    ensures Steps(ss + ts[1..], es + fs)
  {
    var ss', es' := ss + ts[1..], es + fs;
    forall i | 0 <= i < |ss'|
      ensures ss'[i].tables.current < |ss'[i].tables.threads|
    {
      assert ss'[i] == if i < |ss| then ss[i] else ts[i - |es|];
    }
    forall i {:trigger es'[i]} | 0 <= i < |es'|
      ensures Enabled(ss'[i], es'[i]) && ss'[i + 1] == Apply(ss'[i], es'[i])
    {
      if i < |es| {
        assert es'[i] == es[i] && ss'[i] == ss[i] && ss'[i + 1] == ss[i + 1];
      } else {
        assert es'[i] == fs[i - |es|] && ss'[i] == ts[i - |es|] && ss'[i + 1] == ts[i - |es| + 1];
      }
    }
  }

  lemma {:induction false} NextInRange(s: Sys, e: Event)
    requires Inv(s) && Enabled(s, e)
    ensures var n := Apply(s, e); n.tables.current < |n.tables.threads|
  {
    StepKeepsInv(s, e);
  }

  lemma {:induction false} OneStep(s: Sys, e: Event)
    requires Inv(s) && Enabled(s, e)
    ensures Steps([s, Apply(s, e)], [e])
  {
    NextInRange(s, e);
  }

  lemma {:induction false} ThenStep(s: Sys, e: Event, b: Sys, f: Event)
    requires Steps([s, b], [e]) && Inv(b) && Enabled(b, f)
    ensures Steps([s, b, Apply(b, f)], [e, f])
  {
    OneStep(b, f);
    StepsJoin([s, b], [e], [b, Apply(b, f)], [f]);
    assert [s, b, Apply(b, f)] == [s, b] + [b, Apply(b, f)][1..] && [e, f] == [e] + [f];
  }

  // ---------------------------------------------------------------------
  // Fresh threads
  // ---------------------------------------------------------------------

  /** Thread `u` still has the stack and the frame it was created with. */
  ghost predicate Fresh(s: Sys, u: nat) {
    && u < |s.tables.threads|
    && var th := s.tables.threads[u];
       && th.stack.limit == th.stack.base + KERNEL_STACK_SIZE
       && th.context.rsp == StackTop(th.stack.base) - 56
       && Load(s.cpu.mem, th.context.rsp + 48) == s.image.trampoline
  }

  ghost predicate Below(t: Tables, edge: int) {
    forall u | 0 <= u < |t.threads| :: t.threads[u].stack.limit <= edge
  }

  /** The timer may strike. */
  ghost predicate Interruptible(s: Sys) {
    Inv(s) && Enabled(s, Deliver)
  }

  /** And any new thread will have room for the handler too. */
  ghost predicate Preemptible(s: Sys) {
    Interruptible(s) && HandlerRoom(s.image) + 24 <= KERNEL_STACK_SIZE
  }

  lemma {:induction false} StepKeepsImage(s: Sys, e: Event)
    requires s.tables.current < |s.tables.threads|
    ensures Apply(s, e).image == s.image
  {
  }

  lemma {:induction false} SparedIsFresh(s: Sys, s': Sys, u: nat)
    requires Spared(s, s', u) && s'.image == s.image && Fresh(s, u)
    ensures Fresh(s', u)
  {
  }

  lemma {:induction false} StaysFresh(s: Sys, e: Event, u: nat)
    requires Inv(s) && Enabled(s, e) && Fresh(s, u) && u != s.tables.current
    ensures Fresh(Apply(s, e), u)
  {
    StepSpares(s, e, u);
    StepKeepsImage(s, e);
    SparedIsFresh(s, Apply(s, e), u);
  }

  /** Thread `u` was switched out in tick: its frame leads back there. */
  ghost predicate Returns(s: Sys, u: nat) {
    u < |s.tables.threads| && Load(s.cpu.mem, s.tables.threads[u].context.rsp + 48) == s.image.tickResume
  }

  lemma {:induction false} SparedReturns(s: Sys, s': Sys, u: nat)
    requires Spared(s, s', u) && s'.image == s.image && Returns(s, u)
    requires FrameIntact(s.image, s.tables.threads[u], s.cpu.mem)
    ensures Returns(s', u)
  {
  }

  lemma {:induction false} StaysReturning(s: Sys, e: Event, u: nat)
    requires Inv(s) && Enabled(s, e) && Returns(s, u) && u != s.tables.current
    ensures Returns(Apply(s, e), u)
  {
    StepSpares(s, e, u);
    StepKeepsImage(s, e);
    SparedReturns(s, Apply(s, e), u);
  }

  /** A tick that switches makes the thread it leaves one that returns. */
  lemma {:induction false} TickLeaves(s: Sys)
    requires OneRunner(Queue(s.tables)) && 56 <= s.cpu.rsp && ApplyTick(s).tables.current != s.tables.current
    ensures Returns(ApplyTick(s), s.tables.current)
  {
    TickQueue(s);
    TickSwapsStacks(s);
  }

  lemma {:induction false} SwitchesBack(s: Sys, u: nat)
    requires OneRunner(Queue(s.tables)) && 56 <= s.cpu.rsp && u != s.tables.current
    requires Rotate(Queue(s.tables)).current == u && Returns(s, u) && Spared(s, ApplyTick(s), u)
    requires FrameIntact(s.image, s.tables.threads[u], s.cpu.mem)
    ensures var k := ApplyTick(s); k.tables.current == u && Enabled(k, Resume)
  {
    TickQueue(s);
    TickSwapsStacks(s);
  }

  /** A tick that goes to such a thread goes on in its tick. */
  lemma {:induction false} TickIntoReturning(s: Sys, u: nat)
    requires Inv(s) && s.phase == Acknowledged && Returns(s, u) && u != s.tables.current
    requires Rotate(Queue(s.tables)).current == u
    ensures var k := ApplyTick(s); k.tables.current == u && Enabled(k, Resume)
  {
    StepSpares(s, TimerTick, u);
    assert FrameIntact(s.image, s.tables.threads[u], s.cpu.mem);
    SwitchesBack(s, u);
  }

  /** A tick that goes to a fresh thread leaves it at the trampoline with its stack empty. */
  lemma {:induction false} TickIntoFresh(s: Sys, u: nat)
    requires Inv(s) && s.phase == Acknowledged && Fresh(s, u) && u != s.tables.current
    requires Rotate(Queue(s.tables)).current == u
    ensures var k := ApplyTick(s);
      && k.tables.current == u && k.phase == Tail && !k.inService
      && k.cpu.rip == s.image.trampoline && k.cpu.rsp == StackTop(s.tables.threads[u].stack.base)
      && k.tables.threads[u].stack == s.tables.threads[u].stack
  {
    TickQueue(s);
    TickSwapsStacks(s);
    StaysFresh(s, TimerTick, u);
    StepSpares(s, TimerTick, u);
  }

  /** Entering it makes it preemptible again. */
  lemma {:induction false} EnterFresh(k: Sys)
    requires Inv(k) && k.phase == Tail && !k.inService && k.cpu.rip == k.image.trampoline
    requires HandlerRoom(k.image) + 24 <= KERNEL_STACK_SIZE
    requires var stack := k.tables.threads[k.tables.current].stack;
      k.cpu.rsp == StackTop(stack.base) && stack.limit == stack.base + KERNEL_STACK_SIZE
    ensures Enabled(k, EnterThread) && Preemptible(Apply(k, EnterThread))
  {
    StepKeepsInv(k, EnterThread);
  }

  // ---------------------------------------------------------------------
  // One timer interrupt
  // ---------------------------------------------------------------------

  function Turn(): seq<Event> {
    [Deliver, Acknowledge, TimerTick, EnterThread]
  }

  ghost predicate KeepsFresh(s: Sys, n: Sys, u: nat) {
    u != s.tables.current && u != n.tables.current && Fresh(s, u) ==> Fresh(n, u)
  }

  ghost predicate KeepsThread(s: Sys, n: Sys, u: nat) {
    u < |s.tables.threads| && u < |n.tables.threads| ==>
      var a, b := s.tables.threads[u], n.tables.threads[u];
      b.stack == a.stack && b.tid == a.tid && b.pid == a.pid
  }

  /** The process table, and what is pending there, have not changed. */
  ghost predicate OnlyThreads(s: Sys, n: Sys) {
    n.tables == s.tables.(threads := n.tables.threads, current := n.tables.current)
  }

  /** What one interrupt that enters the fresh thread `t` makes of `s`. */
  ghost predicate Turned(s: Sys, n: Sys, t: nat) {
    && Preemptible(n) && n.image == s.image && n.tables.current == t
    && InRange(Queue(s.tables)) && Queue(n.tables) == Rotate(Queue(s.tables))
    && |n.tables.threads| == |s.tables.threads| && OnlyThreads(s, n) && Returns(n, s.tables.current)
    && (forall u: nat {:trigger KeepsThread(s, n, u)} :: KeepsThread(s, n, u))
    && (forall u: nat {:trigger KeepsFresh(s, n, u)} :: KeepsFresh(s, n, u))
  }

  /** The interrupt and its acknowledgement change no table. */
  lemma {:induction false} IntoHandler(s: Sys) returns (ts: seq<Sys>)
    requires Interruptible(s)
    ensures |ts| == 3 && Steps(ts, [Deliver, Acknowledge]) && ts[0] == s
    ensures ts[1].tables == ts[2].tables == s.tables
    ensures ts[2].image == s.image && Inv(ts[2]) && ts[2].phase == Acknowledged
    ensures forall u: nat | u != s.tables.current && Fresh(s, u) :: Fresh(ts[2], u)
    ensures forall u: nat | u != s.tables.current && Returns(s, u) :: Returns(ts[2], u)
  {
    var d := Apply(s, Deliver);
    StepKeepsInv(s, Deliver);
    var a := Apply(d, Acknowledge);
    StepKeepsInv(d, Acknowledge);
    OneStep(s, Deliver);
    ThenStep(s, Deliver, Apply(s, Deliver), Acknowledge);
    ts := [s, d, a];
    forall u: nat | u != s.tables.current && Fresh(s, u)
      ensures Fresh(a, u)
    {
      StaysFresh(s, Deliver, u);
      StaysFresh(d, Acknowledge, u);
    }
    forall u: nat | u != s.tables.current && Returns(s, u)
      ensures Returns(a, u)
    {
      StaysReturning(s, Deliver, u);
      StaysReturning(d, Acknowledge, u);
    }
  }

  lemma {:induction false} TickThreads(s: Sys, u: nat)
    requires OneRunner(Queue(s.tables))
    ensures KeepsThread(s, ApplyTick(s), u) && OnlyThreads(s, ApplyTick(s))
  {
    TickQueue(s);
  }

  /** From `a` a tick goes to another thread, which is entered for the first time. */
  ghost predicate Enters(a: Sys) {
    && Inv(a) && a.phase == Acknowledged && ApplyTick(a).tables.current != a.tables.current
    && Inv(ApplyTick(a)) && Enabled(ApplyTick(a), EnterThread)
  }

  lemma {:induction false} TickKeepsFresh(a: Sys, u: nat)
    requires Inv(a) && a.phase == Acknowledged
    ensures KeepsThread(a, ApplyTick(a), u) && KeepsFresh(a, ApplyTick(a), u)
  {
    TickThreads(a, u);
    if u != a.tables.current && Fresh(a, u) {
      StaysFresh(a, TimerTick, u);
    }
  }

  lemma {:induction false} EnterKeepsFresh(k: Sys, u: nat)
    requires Inv(k) && Enabled(k, EnterThread)
    ensures KeepsThread(k, Apply(k, EnterThread), u) && KeepsFresh(k, Apply(k, EnterThread), u)
  {
    if u != k.tables.current && Fresh(k, u) {
      StaysFresh(k, EnterThread, u);
    }
  }

  lemma {:induction false} KeepsChain(a: Sys, k: Sys, n: Sys, u: nat)
    requires KeepsThread(a, k, u) && KeepsThread(k, n, u) && KeepsFresh(a, k, u) && KeepsFresh(k, n, u)
    requires |a.tables.threads| == |k.tables.threads| && k.tables == n.tables
    ensures KeepsThread(a, n, u) && KeepsFresh(a, n, u)
  {
  }

  lemma {:induction false} EnteredTurned(a: Sys)
    ensures Enters(a) && Preemptible(Apply(ApplyTick(a), EnterThread)) ==>
      Turned(a, Apply(ApplyTick(a), EnterThread), ApplyTick(a).tables.current)
  {
    if Enters(a) && Preemptible(Apply(ApplyTick(a), EnterThread)) {
      TickQueue(a);
      TickLeaves(a);
      StaysReturning(ApplyTick(a), EnterThread, a.tables.current);
      forall u: nat
        ensures OnlyThreads(a, ApplyTick(a))
        ensures var n := Apply(ApplyTick(a), EnterThread); KeepsThread(a, n, u) && KeepsFresh(a, n, u)
      {
        TickThreads(a, u);
        TickKeepsFresh(a, u);
        EnterKeepsFresh(ApplyTick(a), u);
        KeepsChain(a, ApplyTick(a), Apply(ApplyTick(a), EnterThread), u);
      }
    }
  }

  /** The tick and the trampoline take the processor into the fresh thread `t`. */
  lemma {:induction false} OutOfTick(a: Sys, t: nat) returns (ts: seq<Sys>)
    requires Inv(a) && a.phase == Acknowledged && Fresh(a, t) && t != a.tables.current
    requires Rotate(Queue(a.tables)).current == t && HandlerRoom(a.image) + 24 <= KERNEL_STACK_SIZE
    ensures |ts| == 3 && Steps(ts, [TimerTick, EnterThread]) && ts[0] == a
    ensures ts[1].tables == ts[2].tables && Turned(a, ts[2], t)
  {
    var k := Apply(a, TimerTick);
    StepKeepsInv(a, TimerTick);
    TickIntoFresh(a, t);
    StepKeepsImage(a, TimerTick);
    EnterFresh(k);
    EnteredTurned(a);
    OneStep(a, TimerTick);
    ThenStep(a, TimerTick, Apply(a, TimerTick), EnterThread);
    ts := [a, k, Apply(k, EnterThread)];
  }

  lemma {:induction false} TurnedFrom(s: Sys, a: Sys, n: Sys, t: nat)
    requires Turned(a, n, t) && a.tables == s.tables && a.image == s.image
    requires forall u: nat | u != s.tables.current && Fresh(s, u) :: Fresh(a, u)
    ensures Turned(s, n, t)
  {
    forall u: nat
      ensures KeepsThread(s, n, u) && KeepsFresh(s, n, u)
    {
      assert KeepsThread(a, n, u) && KeepsFresh(a, n, u);
    }
  }

  /** One interrupt that enters the fresh thread whose turn it is. */
  lemma {:induction false} TurnRun(s: Sys, t: nat) returns (ts: seq<Sys>)
    requires Preemptible(s) && Fresh(s, t) && t != s.tables.current
    requires Rotate(Queue(s.tables)).current == t
    ensures |ts| == 5 && Steps(ts, Turn()) && ts[0] == s
    ensures ts[1].tables == ts[2].tables == s.tables && ts[3].tables == ts[4].tables
    ensures Turned(s, ts[4], t)
  {
    var into := IntoHandler(s);
    var out := OutOfTick(into[2], t);
    StepsJoin(into, [Deliver, Acknowledge], out, [TimerTick, EnterThread]);
    ts := into + out[1..];
    assert Turn() == [Deliver, Acknowledge] + [TimerTick, EnterThread];
    TurnedFrom(s, into[2], ts[4], t);
  }

  function TurnBack(): seq<Event> {
    [Deliver, Acknowledge, TimerTick, Resume]
  }

  lemma {:induction false} BackOutOfTick(a: Sys, t: nat) returns (ts: seq<Sys>)
    requires Inv(a) && a.phase == Acknowledged && Returns(a, t) && t != a.tables.current
    requires Rotate(Queue(a.tables)).current == t
    ensures |ts| == 3 && Steps(ts, [TimerTick, Resume]) && ts[0] == a && ts[1].tables == ts[2].tables
    ensures Inv(ts[2]) && ts[2].phase == Code && ts[2].tables.current == t
    ensures InRange(Queue(a.tables)) && Queue(ts[2].tables) == Rotate(Queue(a.tables)) && OnlyThreads(a, ts[2])
    ensures forall u: nat {:trigger KeepsThread(a, ts[2], u)} :: KeepsThread(a, ts[2], u)
  {
    var k := Apply(a, TimerTick);
    StepKeepsInv(a, TimerTick);
    TickIntoReturning(a, t);
    StepKeepsInv(k, Resume);
    OneStep(a, TimerTick);
    ThenStep(a, TimerTick, Apply(a, TimerTick), Resume);
    TickQueue(a);
    ts := [a, k, Apply(k, Resume)];
    forall u: nat
      ensures OnlyThreads(a, ts[2]) && KeepsThread(a, ts[2], u)
    {
      TickThreads(a, u);
    }
  }

  /** One interrupt that goes back to a thread switched out before. */
  lemma {:induction false} TurnBackRun(s: Sys, t: nat) returns (ts: seq<Sys>)
    requires Interruptible(s) && Returns(s, t) && t != s.tables.current
    requires Rotate(Queue(s.tables)).current == t
    ensures |ts| == 5 && Steps(ts, TurnBack()) && ts[0] == s
    ensures ts[1].tables == ts[2].tables == s.tables && ts[3].tables == ts[4].tables
    ensures Inv(ts[4]) && ts[4].phase == Code && ts[4].tables.current == t
    ensures InRange(Queue(s.tables)) && Queue(ts[4].tables) == Rotate(Queue(s.tables)) && OnlyThreads(s, ts[4])
    ensures forall u: nat {:trigger KeepsThread(s, ts[4], u)} :: KeepsThread(s, ts[4], u)
  {
    var into := IntoHandler(s);
    var out := BackOutOfTick(into[2], t);
    StepsJoin(into, [Deliver, Acknowledge], out, [TimerTick, Resume]);
    ts := into + out[1..];
    assert TurnBack() == [Deliver, Acknowledge] + [TimerTick, Resume];
    forall u: nat
      ensures KeepsThread(s, ts[4], u)
    {
      assert KeepsThread(into[2], out[2], u);
    }
  }

  lemma {:induction false} BelowStays(s: Sys, n: Sys, edge: int)
    requires Below(s.tables, edge) && |n.tables.threads| == |s.tables.threads|
    requires forall u: nat {:trigger KeepsThread(s, n, u)} :: KeepsThread(s, n, u)
    ensures Below(n.tables, edge)
  {
    forall u: nat | u < |n.tables.threads|
      ensures n.tables.threads[u].stack.limit <= edge
    {
      assert KeepsThread(s, n, u);
    }
  }

  // ---------------------------------------------------------------------
  // The process calls from end to end
  // ---------------------------------------------------------------------

  function CreateCall(pid: nat, name: string, entry: Word, base: int): seq<Event> {
    [Insert(name), Draw(pid), Add(pid, entry, base), Record(pid)]
  }

  /** The first two sections of create_process. */
  function Started(s: Sys, name: string): Sys {
    s.(tables := DrawTid(InsertProcess(s.tables, name, s.image.pageTable), s.tables.nextPid))
  }

  /** The last two. */
  function Finished(s: Sys, pid: nat, entry: Word, base: int): Sys {
    s.(tables := RecordThread(AddThread(s.tables, pid, TaskContext(Wrap(StackTop(base) - 56)),
                                        Stack(base, base + KERNEL_STACK_SIZE)), pid),
       cpu := s.cpu.(mem := InitialMemory(s.cpu.mem, base, entry, s.image.trampoline)))
  }

  /** What create_process makes of the machine when nothing comes in between. */
  function Created(s: Sys, name: string, entry: Word, base: int): Sys {
    Finished(Started(s, name), s.tables.nextPid, entry, base)
  }

  lemma {:induction false} CreatedIs(s: Sys, name: string, entry: Word, base: int)
    ensures Created(s, name, entry, base) ==
      s.(tables := AddProcess(s.tables, name, TaskContext(Wrap(StackTop(base) - 56)),
                              Stack(base, base + KERNEL_STACK_SIZE), s.image.pageTable),
         cpu := s.cpu.(mem := InitialMemory(s.cpu.mem, base, entry, s.image.trampoline)))
  {
  }

  ghost predicate SameQueue(s: Sys, s': Sys) {
    Queue(s'.tables) == Queue(s.tables)
  }

  ghost predicate CanFinish(s: Sys, pid: nat, base: int) {
    Inv(s) && s.phase in {Boot, Code} && IsDrawn(s.tables, pid) && FreshStack(s, base)
  }

  lemma {:induction false} CreateCallHalves(pid: nat, name: string, entry: Word, base: int)
    ensures CreateCall(pid, name, entry, base) == [Insert(name), Draw(pid)] + [Add(pid, entry, base), Record(pid)]
  {
  }

  lemma {:induction false} LastInv(ss: seq<Sys>, es: seq<Event>)
    requires Steps(ss, es) && Inv(ss[0])
    ensures Inv(ss[|es|])
  {
    RunKeepsInv(ss, es, |es|);
  }

  lemma {:induction false} InsertAndDraw(s: Sys, name: string, base: int) returns (ts: seq<Sys>)
    requires Inv(s) && s.phase in {Boot, Code} && FreshStack(s, base)
    ensures |ts| == 3 && Steps(ts, [Insert(name), Draw(s.tables.nextPid)]) && ts[0] == s
    ensures SameQueue(s, ts[1]) && SameQueue(s, ts[2])
    ensures ts[2] == Started(s, name)
    ensures CanFinish(ts[2], s.tables.nextPid, base)
  {
    var b, pid := Apply(s, Insert(name)), s.tables.nextPid;
    StepKeepsInv(s, Insert(name));
    StepKeepsInv(b, Draw(pid));
    OneStep(s, Insert(name));
    ThenStep(s, Insert(name), Apply(s, Insert(name)), Draw(pid));
    ts := [s, b, Apply(b, Draw(pid))];
  }

  lemma {:induction false} AddAndRecord(s: Sys, pid: nat, entry: Word, base: int) returns (ts: seq<Sys>)
    requires CanFinish(s, pid, base)
    ensures |ts| == 3 && Steps(ts, [Add(pid, entry, base), Record(pid)]) && ts[0] == s
    ensures SameQueue(ts[2], ts[1])
    ensures ts[2] == Finished(s, pid, entry, base)
  {
    var e := Add(pid, entry, base);
    var b := Apply(s, e);
    StepKeepsInv(s, e);
    OneStep(s, e);
    ThenStep(s, e, Apply(s, e), Record(pid));
    ts := [s, b, Apply(b, Record(pid))];
  }

  lemma {:induction false} CreateHalves(s: Sys, name: string, entry: Word, base: int) returns (ts: seq<Sys>,
                                        us: seq<Sys>)
    requires Inv(s) && s.phase in {Boot, Code} && FreshStack(s, base)
    ensures |ts| == 3 && Steps(ts, [Insert(name), Draw(s.tables.nextPid)]) && ts[0] == s
    ensures |us| == 3 && Steps(us, [Add(s.tables.nextPid, entry, base), Record(s.tables.nextPid)]) && us[0] == ts[2]
    ensures us[2] == Created(s, name, entry, base)
    ensures SameQueue(s, ts[1]) && SameQueue(s, ts[2]) && SameQueue(us[2], us[1])
  {
    ts := InsertAndDraw(s, name, base);
    us := AddAndRecord(ts[2], s.tables.nextPid, entry, base);
  }

  /** create_process is its four sections; when they follow each other they amount to `Created`. */
  lemma {:induction false} CreateRun(s: Sys, name: string, entry: Word, base: int) returns (ts: seq<Sys>)
    requires Inv(s) && s.phase in {Boot, Code} && FreshStack(s, base)
    ensures |ts| == 5 && Steps(ts, CreateCall(s.tables.nextPid, name, entry, base))
    ensures ts[0] == s && ts[4] == Created(s, name, entry, base)
    ensures SameQueue(s, ts[1]) && SameQueue(s, ts[2]) && SameQueue(ts[4], ts[3])
  {
    var pid := s.tables.nextPid;
    var first, second := CreateHalves(s, name, entry, base);
    CreateCallHalves(pid, name, entry, base);
    StepsJoin(first, [Insert(name), Draw(pid)], second, [Add(pid, entry, base), Record(pid)]);
    ts := first + second[1..];
  }

  lemma {:induction false} CreatedThreads(s: Sys, name: string, entry: Word, base: int)
    requires Inv(s) && FreshStack(s, base)
    ensures var c, n := Created(s, name, entry, base), |s.tables.threads|;
      && c == s.(tables := c.tables, cpu := s.cpu.(mem := c.cpu.mem))
      && c.tables.current == s.tables.current && c.tables.nextPid == s.tables.nextPid + 1
      && c.tables.threads == s.tables.threads + [c.tables.threads[n]] && |c.tables.threads| == n + 1
      && c.tables.threads[n].stack == Stack(base, base + KERNEL_STACK_SIZE)
      && c.tables.threads[n].state == Ready && Fresh(c, n)
  {
    CreatedIs(s, name, entry, base);
    AddProcessAgrees(s.tables, name, TaskContext(Wrap(StackTop(base) - 56)),
                     Stack(base, base + KERNEL_STACK_SIZE), s.image.pageTable);
    InitialFrame(s.cpu.mem, base, entry, s.image.trampoline);
  }

  lemma {:induction false} CreatedQueue(s: Sys, name: string, entry: Word, base: int)
    requires Inv(s) && FreshStack(s, base)
    ensures Queue(Created(s, name, entry, base).tables) == RunQueue(Queue(s.tables).states + [Ready], s.tables.current)
  {
    CreatedThreads(s, name, entry, base);
    var c := Created(s, name, entry, base);
    assert States(c.tables.threads) == States(s.tables.threads) + [Ready];
  }

  lemma {:induction false} CreatedInv(s: Sys, name: string, entry: Word, base: int)
    requires Inv(s) && s.phase in {Boot, Code} && FreshStack(s, base)
    ensures Inv(Created(s, name, entry, base))
  {
    var ts := CreateRun(s, name, entry, base);
    LastInv(ts, CreateCall(s.tables.nextPid, name, entry, base));
  }

  lemma {:induction false} CreatedStaysFresh(s: Sys, name: string, entry: Word, base: int, u: nat)
    requires Inv(s)
    ensures FreshStack(s, base) && Fresh(s, u) ==> Fresh(Created(s, name, entry, base), u)
  {
    if FreshStack(s, base) && Fresh(s, u) {
      CreatedThreads(s, name, entry, base);
      CreatedIs(s, name, entry, base);
      InitialFrame(s.cpu.mem, base, entry, s.image.trampoline);
      assert Disjoint(s.tables.threads[u].stack, Stack(base, base + KERNEL_STACK_SIZE));
    }
  }

  /** A process created on memory above all stacks disturbs nothing. */
  lemma {:induction false} CreatedAbove(s: Sys, name: string, entry: Word, base: int)
    requires Inv(s) && s.phase in {Boot, Code} && Below(s.tables, base)
    requires 0 < base && base + KERNEL_STACK_SIZE < WORD_LIMIT
    ensures FreshStack(s, base) && Inv(Created(s, name, entry, base))
    ensures Below(Created(s, name, entry, base).tables, base + KERNEL_STACK_SIZE)
  {
    assert FreshStack(s, base);
    CreatedInv(s, name, entry, base);
    CreatedThreads(s, name, entry, base);
  }

  lemma {:induction false} CreatedPreemptible(s: Sys, name: string, entry: Word, base: int)
    requires Preemptible(s) && FreshStack(s, base) && Inv(Created(s, name, entry, base))
    ensures Preemptible(Created(s, name, entry, base))
  {
    CreatedThreads(s, name, entry, base);
  }

  function Marks(tids: seq<nat>): (es: seq<Event>)
    ensures |es| == |tids| && forall i | 0 <= i < |tids| :: es[i] == Mark(tids[i])
  {
    seq(|tids|, i requires 0 <= i < |tids| => Mark(tids[i]))
  }

  ghost predicate CanMark(s: Sys, tids: seq<nat>) {
    Inv(s) && s.phase in {Boot, Code} && multiset(tids) <= s.tables.pending.leaving
  }

  lemma {:induction false} MarkStep(s: Sys, tids: seq<nat>) returns (b: Sys)
    requires CanMark(s, tids) && tids != []
    ensures Steps([s, b], [Mark(tids[0])]) && CanMark(b, tids[1..])
    ensures b == s.(tables := MarkThread(s.tables, tids[0]))
  {
    MarksHeadTail(tids);
    b := Apply(s, Mark(tids[0]));
    OneStep(s, Mark(tids[0]));
    StepKeepsInv(s, Mark(tids[0]));
  }

  ghost predicate Marked(s: Sys, tids: seq<nat>, ts: seq<Sys>, z: Sys) {
    && Steps(ts, Marks(tids)) && ts[0] == s && ts[|ts| - 1] == z
    && z == s.(tables := MarkEach(s.tables, tids))
  }

  lemma {:induction false} MarkedFrom(s: Sys, b: Sys, tids: seq<nat>, rest: seq<Sys>, z: Sys)
    requires tids != [] && Steps([s, b], [Mark(tids[0])]) && b == s.(tables := MarkThread(s.tables, tids[0]))
    requires Marked(b, tids[1..], rest, z)
    ensures Marked(s, tids, [s] + rest, z)
  {
    StepsJoin([s, b], [Mark(tids[0])], rest, Marks(tids[1..]));
    MarksHeadTail(tids);
    assert [s, b] + rest[1..] == [s] + rest;
  }

  lemma {:induction false} MarksRun(s: Sys, tids: seq<nat>) returns (ts: seq<Sys>, z: Sys)
    requires CanMark(s, tids)
    ensures Marked(s, tids, ts, z)
    decreases |tids|
  {
    if tids == [] {
      ts, z := [s], s;
    } else {
      var b := MarkStep(s, tids);
      ts, z := MarksRun(b, tids[1..]);
      MarkedFrom(s, b, tids, ts, z);
      ts := [s] + ts;
    }
  }

  lemma {:induction false} MarksHeadTail(tids: seq<nat>)
    requires tids != []
    ensures Marks(tids) == [Mark(tids[0])] + Marks(tids[1..])
    ensures multiset(tids) == multiset{tids[0]} + multiset(tids[1..])
  {
    assert tids == [tids[0]] + tids[1..];
  }

  lemma {:induction false} BeginExitStep(s: Sys, pid: nat, code: int) returns (b: Sys)
    requires Inv(s) && s.phase in {Boot, Code}
    ensures Steps([s, b], [BeginExit(pid, code)]) && Inv(b) && b == s.(tables := MarkZombie(s.tables, pid, code))
  {
    b := Apply(s, BeginExit(pid, code));
    OneStep(s, BeginExit(pid, code));
    StepKeepsInv(s, BeginExit(pid, code));
  }

  /** exit_process is the Zombie mark and one mark for each TID listed; when they follow each other
      they amount to `ExitProcess`. */
  lemma {:induction false} ExitRun(s: Sys, pid: nat, code: int) returns (ts: seq<Sys>)
    requires Inv(s) && s.phase in {Boot, Code} && pid in s.tables.processes
    ensures Steps(ts, [BeginExit(pid, code)] + Marks(s.tables.processes[pid].threads)) && ts[0] == s
    ensures ts[|ts| - 1] == s.(tables := ExitProcess(s.tables, pid, code))
  {
    var tids := s.tables.processes[pid].threads;
    var b := BeginExitStep(s, pid, code);
    var rest, z := MarksRun(b, tids);
    StepsJoin([s, b], [BeginExit(pid, code)], rest, Marks(tids));
    ts := [s, b] + rest[1..];
  }

  // ---------------------------------------------------------------------
  // From boot
  // ---------------------------------------------------------------------

  /** The machine boots, with room for the handler on the idle thread's stack. */
  ghost predicate Booting(s: Sys) {
    && Inv(s) && s.phase == Boot
    && var k := s.tables.threads[s.tables.current].stack;
       k.base + HandlerRoom(s.image) <= s.cpu.rsp <= k.limit
  }

  lemma {:induction false} BootFacts(i: Image, cpu: Cpu, boot: Stack, start: int)
    requires i.trampoline != i.tickResume && |cpu.scratch| == SCRATCH_COUNT && !InterruptsOn(cpu.rflags)
    requires 0 < boot.base && boot.base + HandlerRoom(i) <= cpu.rsp <= boot.limit <= start && boot.limit < WORD_LIMIT
    ensures var s := BootSys(i, cpu, boot);
      Booting(s) && |s.tables.threads| == 1 == s.tables.nextPid && Below(s.tables, start)
  {
    BootInv(i, cpu, boot);
  }

  lemma {:induction false} BootEnables(s: Sys) returns (n: Sys)
    requires Booting(s)
    ensures Steps([s, n], [EnableInterrupts]) && Interruptible(n) && n.tables == s.tables && n.image == s.image
    ensures forall u: nat | Fresh(s, u) :: Fresh(n, u)
  {
    StepKeepsInv(s, EnableInterrupts);
    OneStep(s, EnableInterrupts);
    n := Apply(s, EnableInterrupts);
  }

  /** A process created while the machine boots. */
  lemma {:induction false} BootCreates(s: Sys, name: string, entry: Word, base: int) returns (ts: seq<Sys>)
    requires Booting(s) && FreshStack(s, base)
    ensures |ts| == 5 && Steps(ts, CreateCall(s.tables.nextPid, name, entry, base)) && ts[0] == s
    ensures var c := ts[4];
      && c == Created(s, name, entry, base) && Booting(c) && SameQueue(s, ts[2]) && SameQueue(c, ts[3])
      && Fresh(c, |s.tables.threads|) && (forall u: nat | Fresh(s, u) :: Fresh(c, u))
      && c.image == s.image && c.tables.current == s.tables.current
      && s.tables.threads <= c.tables.threads && |c.tables.threads| == |s.tables.threads| + 1
      && c.tables.nextPid == s.tables.nextPid + 1
  {
    CreatedInv(s, name, entry, base);
    CreatedThreads(s, name, entry, base);
    ts := CreateRun(s, name, entry, base);
    forall u: nat | Fresh(s, u)
      ensures Fresh(ts[4], u)
    {
      CreatedStaysFresh(s, name, entry, base, u);
    }
  }

  /** What `scheduler::init` makes of the boot state. */
  function InitSys(i: Image, cpu: Cpu, boot: Stack, inService: bool, demoA: Word, stackA: int, demoB: Word,
                   stackB: int): Sys {
    Created(Created(BootSys(i, cpu, boot).(inService := inService), "demo_a", demoA, stackA), "demo_b", demoB, stackB)
  }

  /** The queue `scheduler::init` leaves: the idle thread current, two demo threads ready. */
  lemma {:induction false} InitQueue(i: Image, cpu: Cpu, boot: Stack, inService: bool, demoA: Word, stackA: int,
                                     demoB: Word, stackB: int)
    ensures Queue(InitSys(i, cpu, boot, inService, demoA, stackA, demoB, stackB).tables) ==
      RunQueue([Running, Ready, Ready], 0)
  {
    var s := BootSys(i, cpu, boot).(inService := inService);
    CreatedIs(s, "demo_a", demoA, stackA);
    CreatedIs(Created(s, "demo_a", demoA, stackA), "demo_b", demoB, stackB);
    var z := InitSys(i, cpu, boot, inService, demoA, stackA, demoB, stackB);
    assert Queue(z.tables).states == [Running, Ready, Ready];
  }

  predicate IsCall(e: Event) {
    e.Insert? || e.Draw? || e.Add? || e.Record? || e.BeginExit? || e.Mark?
  }

  /** The process calls leave the thread that makes them interruptible. */
  lemma {:induction false} CallInterruptible(s: Sys, e: Event)
    requires Interruptible(s) && Enabled(s, e) && IsCall(e)
    ensures Interruptible(Apply(s, e)) && Apply(s, e).image == s.image && Apply(s, e).tables.current == s.tables.current
  {
    StepKeepsInv(s, e);
    if e.Mark? {
      MarkFirstMarksOne(s.tables.threads, e.tid);
    }
  }
}
