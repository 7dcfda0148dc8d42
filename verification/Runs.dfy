/** What holds over whole runs of the kernel, whatever the threads do and however they interleave. */
module Runs {
  import opened Machine
  import opened Scheduling
  import opened Registry
  import opened Kernel
  import opened KernelSteps

  /** Each event is enabled where it happens and makes the next state. */
  ghost predicate Steps(ss: seq<Sys>, es: seq<Event>) {
    && |ss| == |es| + 1
    && (forall i | 0 <= i < |ss| :: ss[i].tables.current < |ss[i].tables.threads|)
    && (forall i {:trigger es[i]} | 0 <= i < |es| :: Enabled(ss[i], es[i]) && ss[i + 1] == Apply(ss[i], es[i]))
  }

  ghost predicate Run(ss: seq<Sys>, es: seq<Event>) {
    Steps(ss, es) && Inv(ss[0])
  }

  /** Every state of every run satisfies the invariant. */
  lemma {:induction false} RunKeepsInv(ss: seq<Sys>, es: seq<Event>, k: nat)
    requires Run(ss, es) && k < |ss|
    ensures Inv(ss[k])
  {
    if k > 0 {
      RunKeepsInv(ss, es, k - 1);
      assert ss[k] == Apply(ss[k - 1], es[k - 1]);
      StepKeepsInv(ss[k - 1], es[k - 1]);
    }
  }

  lemma {:induction false} RunStep(ss: seq<Sys>, es: seq<Event>, k: nat)
    requires Run(ss, es) && k < |es|
    ensures Inv(ss[k]) && Enabled(ss[k], es[k]) && ss[k + 1] == Apply(ss[k], es[k]) && Inv(ss[k + 1])
  {
    RunKeepsInv(ss, es, k);
    RunKeepsInv(ss, es, k + 1);
  }

  // ---------------------------------------------------------------------
  // Stacks and registers
  // ---------------------------------------------------------------------

  ghost predicate AwayBetween(ss: seq<Sys>, t: nat, i: nat, k: nat)
    requires k <= |ss|
  {
    forall m | i <= m < k :: ss[m].tables.current != t
  }

  lemma {:induction false} SparedChains(a: Sys, b: Sys, c: Sys, t: nat)
    requires Spared(a, b, t) && Spared(b, c, t)
    ensures Spared(a, c, t)
  {
  }

  lemma {:induction false} RunSpares(ss: seq<Sys>, es: seq<Event>, k: nat, t: nat)
    requires Run(ss, es) && k < |es|
    requires t < |ss[k].tables.threads| && t != ss[k].tables.current
    ensures Spared(ss[k], ss[k + 1], t)
  {
    RunStep(ss, es, k);
    StepSpares(ss[k], es[k], t);
  }

  /** However many steps other threads take, a thread that is not running keeps its saved rsp
      and its whole stack. */
  lemma {:induction false} Undisturbed(ss: seq<Sys>, es: seq<Event>, t: nat, i: nat, k: nat)
    requires Run(ss, es) && i <= k < |ss|
    requires t < |ss[i].tables.threads| && AwayBetween(ss, t, i, k)
    ensures Spared(ss[i], ss[k], t)
    decreases k
  {
    if i < k {
      Undisturbed(ss, es, t, i, k - 1);
      RunSpares(ss, es, k - 1, t);
      SparedChains(ss[i], ss[k - 1], ss[k], t);
    }
  }

  lemma {:induction false} OtherEventsStay(s: Sys, e: Event)
    requires s.tables.current < |s.tables.threads| && e != TimerTick
    ensures Apply(s, e).tables.current == s.tables.current
  {
  }

  /** `current` changes only in a tick that switches, and the thread switched to was waiting. */
  lemma {:induction false} OnlyTicksSwitch(s: Sys, e: Event)
    requires Inv(s) && Enabled(s, e)
    requires Apply(s, e).tables.current != s.tables.current
    ensures e == TimerTick && s.phase == Acknowledged && Apply(s, e).phase == Tail
    ensures Nearest(Queue(s.tables), Apply(s, e).tables.current)
  {
    if e == TimerTick {
      TickQueue(s);
      TickSwitches(Queue(s.tables));
    } else {
      OtherEventsStay(s, e);
    }
  }

  /** Switching to a thread pops the frame its saved rsp points at, in its own stack: the empty
      context of the idle thread is never loaded. */
  lemma {:induction false} SwitchPopsOwnFrame(ss: seq<Sys>, es: seq<Event>, k: nat)
    requires Run(ss, es) && k < |es|
    requires ss[k + 1].tables.current != ss[k].tables.current
    ensures es[k] == TimerTick && ss[k + 1].tables.current < |ss[k].tables.threads|
    ensures var th := ss[k].tables.threads[ss[k + 1].tables.current];
      && FrameIntact(ss[k].image, th, ss[k].cpu.mem)
      && 0 < th.stack.base <= th.context.rsp && th.context.rsp + 56 <= th.stack.limit < WORD_LIMIT
      && ss[k + 1].cpu == SwitchIn(ss[k].cpu.(mem := ss[k + 1].cpu.mem), th.context.rsp)
  {
    RunStep(ss, es, k);
    OnlyTicksSwitch(ss[k], es[k]);
    TickQueue(ss[k]);
    TickSwapsStacks(ss[k]);
  }

  lemma {:induction false} PoppedFrame(s: Sys, s': Sys, t: nat, c: Callee, ret: Word)
    requires Spared(s, s', t)
    requires var th := s.tables.threads[t];
      && th.stack.base <= th.context.rsp && th.context.rsp + 56 <= th.stack.limit < WORD_LIMIT
      && FrameAt(s.cpu.mem, th.context.rsp, c, ret)
      && s'.cpu == SwitchIn(s.cpu.(mem := s'.cpu.mem), th.context.rsp)
    ensures s'.cpu.callee == c && s'.cpu.rip == ret && s'.cpu.rsp == s.tables.threads[t].context.rsp + 56
  {
    SwitchInRestores(s.cpu.(mem := s'.cpu.mem), s.tables.threads[t].context.rsp, c, ret);
  }

  lemma {:induction false} SameFrame(a: Sys, b: Sys, t: nat, c: Callee, ret: Word)
    requires Spared(a, b, t)
    requires var th := a.tables.threads[t];
      && th.stack.base <= th.context.rsp && th.context.rsp + 56 <= th.stack.limit
      && FrameAt(a.cpu.mem, th.context.rsp, c, ret)
    ensures FrameAt(b.cpu.mem, b.tables.threads[t].context.rsp, c, ret)
  {
  }

  /** What being switched in gives a thread, from what it left on its stack before. */
  lemma {:induction false} ComesBack(ss: seq<Sys>, es: seq<Event>, t: nat, i: nat, j: nat, c: Callee, ret: Word)
    requires Run(ss, es) && i <= j < |es|
    requires t < |ss[i].tables.threads| && AwayBetween(ss, t, i, j + 1) && ss[j + 1].tables.current == t
    requires FrameAt(ss[i].cpu.mem, ss[i].tables.threads[t].context.rsp, c, ret)
    ensures ss[j + 1].cpu.callee == c && ss[j + 1].cpu.rip == ret
    ensures ss[j + 1].cpu.rsp == ss[i].tables.threads[t].context.rsp + 56
    ensures Spared(ss[i], ss[j + 1], t)
  {
    Undisturbed(ss, es, t, i, j);
    Undisturbed(ss, es, t, i, j + 1);
    RunSpares(ss, es, j, t);
    SwitchPopsOwnFrame(ss, es, j);
    SameFrame(ss[i], ss[j], t, c, ret);
    PoppedFrame(ss[j], ss[j + 1], t, c, ret);
  }

  /** The running thread of `s` was parked: its saved rsp points at a frame with its registers
      just below where its rsp was, and its stack from there up is untouched. */
  ghost predicate ParkedBy(s: Sys, s': Sys) {
    var t := s.tables.current;
    && t < |s.tables.threads| && t < |s'.tables.threads|
    && s'.tables.threads[t].stack == s.tables.threads[t].stack
    && s'.tables.threads[t].context.rsp == s.cpu.rsp - 56
    && FrameAt(s'.cpu.mem, s.cpu.rsp - 56, s.cpu.callee, s.image.tickResume)
    && SameRange(s.cpu.mem, s'.cpu.mem, s.cpu.rsp, s.tables.threads[t].stack.limit)
    && s.tables.threads[t].stack.base <= s.cpu.rsp - 56
  }

  lemma {:induction false} SwitchedOut(s: Sys)
    requires OneRunner(Queue(s.tables)) && RunningOk(s) && s.phase == Acknowledged
    requires 0 <= s.tables.threads[s.tables.current].stack.base
    requires ApplyTick(s).tables.current != s.tables.current
    ensures ParkedBy(s, ApplyTick(s))
  {
    TickQueue(s);
    TickSwapsStacks(s);
  }

  /** The frame a new thread starts from. */
  lemma {:induction false} CreatedWith(s: Sys, e: Event)
    requires Inv(s) && e.Add? && Enabled(s, e)
    ensures var s', t := Apply(s, e), |s.tables.threads|;
      && t < |s'.tables.threads|
      && s'.tables.threads[t].context.rsp == StackTop(e.base) - 56
      && FrameAt(s'.cpu.mem, StackTop(e.base) - 56, InitialCallee(e.entry), s.image.trampoline)
  {
    InitialFrame(s.cpu.mem, e.base, e.entry, s.image.trampoline);
  }

  lemma {:induction false} SwitchEvent(ss: seq<Sys>, es: seq<Event>, k: nat)
    requires Run(ss, es) && k < |es| && ss[k + 1].tables.current != ss[k].tables.current
    ensures es[k] == TimerTick && ss[k + 1] == ApplyTick(ss[k])
    ensures ss[k + 1].phase == Tail
  {
    RunStep(ss, es, k);
    OnlyTicksSwitch(ss[k], es[k]);
  }

  lemma {:induction false} RunSwitchedOut(ss: seq<Sys>, es: seq<Event>, k: nat)
    requires Run(ss, es) && k < |es| && ss[k + 1].tables.current != ss[k].tables.current
    ensures ParkedBy(ss[k], ss[k + 1])
  {
    SwitchEvent(ss, es, k);
    RunStep(ss, es, k);
    SwitchedOut(ss[k]);
  }

  /** Each resumption restores exactly the callee-saved registers, rsp and return address the
      thread had when it was last switched out, and everything it had on its stack. */
  lemma {:induction false} SwitchRestores(ss: seq<Sys>, es: seq<Event>, t: nat, i: nat, j: nat)
    requires Run(ss, es) && i < j < |es|
    requires ss[i].tables.current == t && AwayBetween(ss, t, i + 1, j + 1) && ss[j + 1].tables.current == t
    ensures ss[j + 1].cpu.callee == ss[i].cpu.callee
    ensures ss[j + 1].cpu.rsp == ss[i].cpu.rsp
    ensures ss[j + 1].cpu.rip == ss[i].image.tickResume
    ensures SameRange(ss[i].cpu.mem, ss[j + 1].cpu.mem, ss[i].cpu.rsp, ss[i].tables.threads[t].stack.limit)
  {
    SwitchEvent(ss, es, i);
    RunSwitchedOut(ss, es, i);
    ComesBack(ss, es, t, i + 1, j, ss[i].cpu.callee, ss[i].image.tickResume);
  }

  lemma {:induction false} RunCreated(ss: seq<Sys>, es: seq<Event>, k: nat)
    requires Run(ss, es) && k < |es| && es[k].Add?
    ensures var t := |ss[k].tables.threads|;
      && t < |ss[k + 1].tables.threads|
      && ss[k + 1].tables.threads[t].context.rsp == StackTop(es[k].base) - 56
      && FrameAt(ss[k + 1].cpu.mem, StackTop(es[k].base) - 56, InitialCallee(es[k].entry), ss[k].image.trampoline)
  {
    RunStep(ss, es, k);
    CreatedWith(ss[k], es[k]);
  }

  lemma {:induction false} FrameComesBack(ss: seq<Sys>, es: seq<Event>, t: nat, i: nat, j: nat, c: Callee, ret: Word,
                                         a: int)
    requires Run(ss, es) && i <= j < |es|
    requires t < |ss[i].tables.threads| && AwayBetween(ss, t, i, j + 1) && ss[j + 1].tables.current == t
    requires ss[i].tables.threads[t].context.rsp == a && FrameAt(ss[i].cpu.mem, a, c, ret)
    ensures ss[j + 1].cpu.callee == c && ss[j + 1].cpu.rip == ret && ss[j + 1].cpu.rsp == a + 56
    ensures ss[j + 1].phase == Tail
  {
    SwitchEvent(ss, es, j);
    ComesBack(ss, es, t, i, j, c, ret);
  }

  /** A new thread first reaches the trampoline with r12 = entry on its own aligned stack top. */
  lemma {:induction false} FirstSwitchIn(ss: seq<Sys>, es: seq<Event>, i: nat, j: nat)
    requires Run(ss, es) && i < j < |es| && es[i].Add?
    requires var t := |ss[i].tables.threads|; AwayBetween(ss, t, i + 1, j + 1) && ss[j + 1].tables.current == t
    ensures ss[j + 1].cpu.rip == ss[i].image.trampoline
    ensures ss[j + 1].cpu.callee == InitialCallee(es[i].entry)
    ensures ss[j + 1].cpu.rsp == StackTop(es[i].base)
    ensures ss[j + 1].phase == Tail
  {
    RunCreated(ss, es, i);
    FrameComesBack(ss, es, |ss[i].tables.threads|, i + 1, j, InitialCallee(es[i].entry), ss[i].image.trampoline,
                   StackTop(es[i].base) - 56);
  }

  /** The entry function then starts with interrupts on and rsp + 8 a multiple of 16, as
      section 3.2.2 of the psABI asks, whether or not the stack's base was aligned. */
  lemma {:induction false} FirstEntry(ss: seq<Sys>, es: seq<Event>, i: nat, j: nat)
    requires Run(ss, es) && i < j < |es| && es[i].Add?
    requires var t := |ss[i].tables.threads|; AwayBetween(ss, t, i + 1, j + 1) && ss[j + 1].tables.current == t
    ensures Enabled(ss[j + 1], EnterThread)
    ensures var s := Apply(ss[j + 1], EnterThread);
      && s.phase == Code && s.cpu.rip == es[i].entry && (s.cpu.rsp + 8) % 16 == 0 && InterruptsOn(s.cpu.rflags)
      && Load(s.cpu.mem, s.cpu.rsp) == s.image.trampolineReturn
  {
    FirstSwitchIn(ss, es, i, j);
    ImageFixed(ss, es, j + 1);
    ImageFixed(ss, es, i);
    assert StackTop(es[i].base) > 8 by {
      assert Enabled(ss[i], es[i]);
    }
  }

  lemma {:induction false} ImageFixed(ss: seq<Sys>, es: seq<Event>, k: nat)
    requires Run(ss, es) && k < |ss|
    ensures ss[k].image == ss[0].image
  {
    if k > 0 {
      ImageFixed(ss, es, k - 1);
      assert ss[k] == Apply(ss[k - 1], es[k - 1]);
    }
  }

  // ---------------------------------------------------------------------
  // An interrupted thread does not notice
  // ---------------------------------------------------------------------

  /** Thread `t`, interrupted as `c`, is still on its way back to it. */
  ghost predicate Remembers(s: Sys, t: nat, c: Cpu) {
    && t < |s.tables.threads|
    && SameRange(c.mem, s.cpu.mem, c.rsp, s.tables.threads[t].stack.limit)
    && InterruptedAt(s.cpu.mem, InterruptBase(c), c)
    && (if t == s.tables.current then
        && s.phase in {Handler, Acknowledged, Tail}
        && (s.phase == Tail ==> s.cpu.rip == s.image.tickResume)
        && s.cpu.callee == c.callee && s.cpu.rsp == InterruptBase(c) - 8 * s.image.pad
      else
        && s.tables.threads[t].context.rsp == InterruptBase(c) - 8 * s.image.pad - 56
        && FrameAt(s.cpu.mem, s.tables.threads[t].context.rsp, c.callee, s.image.tickResume))
  }

  lemma {:induction false} RemembersDelivered(s: Sys)
    requires Inv(s) && Enabled(s, Deliver)
    ensures Remembers(Apply(s, Deliver), s.tables.current, s.cpu)
  {
    EnterHandlerParks(s);
  }

  /** While the thread is away nothing on its stack moves. */
  lemma {:induction false} RemembersAway(s: Sys, s': Sys, t: nat, c: Cpu)
    requires Remembers(s, t, c) && Spared(s, s', t)
    requires t != s.tables.current && t != s'.tables.current
    requires InterruptFits(s, t, c) && s'.image == s.image
    ensures Remembers(s', t, c)
  {
  }

  /** The interrupt frame and the switch frame of `t` lie in its own stack. */
  ghost predicate InterruptFits(s: Sys, t: nat, c: Cpu) {
    && t < |s.tables.threads|
    && 0 < s.tables.threads[t].stack.base <= InterruptBase(c) - 8 * s.image.pad - 56
    && c.rsp <= s.tables.threads[t].stack.limit < WORD_LIMIT
  }

  lemma {:induction false} RemembersBack(s: Sys, s': Sys, t: nat, c: Cpu)
    requires Remembers(s, t, c) && Spared(s, s', t)
    requires t != s.tables.current && t == s'.tables.current
    requires InterruptFits(s, t, c) && s'.image == s.image
    requires s'.phase == Tail
    requires s'.cpu == SwitchIn(s.cpu.(mem := s'.cpu.mem), s.tables.threads[t].context.rsp)
    ensures Remembers(s', t, c)
  {
    PoppedFrame(s, s', t, c.callee, s.image.tickResume);
  }

  lemma {:induction false} RemembersParked(s: Sys, s': Sys, t: nat, c: Cpu)
    requires Remembers(s, t, c) && ParkedBy(s, s')
    requires t == s.tables.current && t != s'.tables.current
    requires InterruptFits(s, t, c) && s'.image == s.image
    ensures Remembers(s', t, c)
  {
    assert forall a | s.cpu.rsp <= a < s.tables.threads[t].stack.limit ::
      Load(s'.cpu.mem, a) == Load(s.cpu.mem, a);
  }

  /** While its handler is still to switch, only the acknowledge and the tick can happen. */
  lemma {:induction false} RemembersRunning(s: Sys, e: Event, t: nat, c: Cpu)
    requires Inv(s) && Enabled(s, e) && Remembers(s, t, c) && InterruptFits(s, t, c)
    requires t == s.tables.current && e != Resume
    ensures Remembers(Apply(s, e), t, c)
  {
    if e == TimerTick {
      TickQueue(s);
      if ApplyTick(s).tables.current != s.tables.current {
        SwitchedOut(s);
        RemembersParked(s, ApplyTick(s), t, c);
      }
    }
  }
}
