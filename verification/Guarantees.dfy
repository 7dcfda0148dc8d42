/** The kernel's promises over whole runs, put together from `Runs` and `Scheduling`. */
module Guarantees {
  import opened Machine
  import opened Scheduling
  import opened Registry
  import opened Sections
  import opened Kernel
  import opened KernelSteps
  import opened Runs

  // ---------------------------------------------------------------------
  // Interrupted code goes on as if nothing had happened
  // ---------------------------------------------------------------------

  ghost predicate NoResumeOf(ss: seq<Sys>, es: seq<Event>, t: nat, i: nat, j: nat)
    requires |ss| == |es| + 1 && j <= |es|
  {
    forall m {:trigger es[m]} | i <= m < j && es[m] == Resume :: ss[m].tables.current != t
  }

  lemma {:induction false} StepRemembers(ss: seq<Sys>, es: seq<Event>, t: nat, c: Cpu, k: nat)
    requires Run(ss, es) && k < |es|
    requires Remembers(ss[k], t, c) && InterruptFits(ss[k], t, c)
    requires es[k] == Resume ==> ss[k].tables.current != t
    ensures Remembers(ss[k + 1], t, c) && InterruptFits(ss[k + 1], t, c)
  {
    var s, s' := ss[k], ss[k + 1];
    if t == s.tables.current {
      RunStep(ss, es, k);
      RemembersRunning(s, es[k], t, c);
      TickOnlyInHandler(s, es[k], t, c);
    } else {
      RunSpares(ss, es, k, t);
      assert s' == Apply(s, es[k]);
      if t == s'.tables.current {
        SwitchEvent(ss, es, k);
        SwitchPopsOwnFrame(ss, es, k);
        RemembersBack(s, s', t, c);
      } else {
        RemembersAway(s, s', t, c);
      }
    }
  }

  lemma {:induction false} TickOnlyInHandler(s: Sys, e: Event, t: nat, c: Cpu)
    requires Inv(s) && Enabled(s, e) && Remembers(s, t, c) && InterruptFits(s, t, c)
    requires t == s.tables.current
    ensures InterruptFits(Apply(s, e), t, c)
  {
    if e == TimerTick {
      TickQueue(s);
    }
  }

  lemma {:induction false} DeliveryRemembers(ss: seq<Sys>, es: seq<Event>, i: nat)
    requires Run(ss, es) && i < |es| && es[i] == Deliver
    ensures Remembers(ss[i + 1], ss[i].tables.current, ss[i].cpu)
    ensures InterruptFits(ss[i + 1], ss[i].tables.current, ss[i].cpu)
  {
    RunStep(ss, es, i);
    RemembersDelivered(ss[i]);
  }

  ghost predicate RemembersAt(ss: seq<Sys>, k: nat, t: nat, c: Cpu) {
    k < |ss| && Remembers(ss[k], t, c) && InterruptFits(ss[k], t, c)
  }

  lemma {:induction false} NextRemembers(ss: seq<Sys>, es: seq<Event>, t: nat, c: Cpu, i: nat, k: nat)
    requires Run(ss, es) && i < k < |ss| && NoResumeOf(ss, es, t, i, k) && RemembersAt(ss, k - 1, t, c)
    ensures RemembersAt(ss, k, t, c)
  {
    StepRemembers(ss, es, t, c, k - 1);
  }

  lemma {:induction false} StillRemembers(ss: seq<Sys>, es: seq<Event>, t: nat, c: Cpu, i: nat, k: nat)
    requires Run(ss, es) && i <= k < |ss| && NoResumeOf(ss, es, t, i, k) && RemembersAt(ss, i, t, c)
    ensures RemembersAt(ss, k, t, c)
    decreases k
  {
    if i < k {
      StillRemembers(ss, es, t, c, i, k - 1);
      NextRemembers(ss, es, t, c, i, k);
    }
  }

  /** When the handler of an interrupted thread at last returns, however many other threads ran
      in between, every register, rip, rsp, rflags and the whole stack from rsp up are as they
      were when the timer struck. */
  lemma {:induction false} InterruptIsTransparent(ss: seq<Sys>, es: seq<Event>, i: nat, j: nat)
    requires Run(ss, es) && i < j < |es| && es[i] == Deliver
    requires es[j] == Resume && ss[j].tables.current == ss[i].tables.current
    requires NoResumeOf(ss, es, ss[i].tables.current, i + 1, j)
    ensures ss[j + 1].phase == Code && ss[j + 1].tables.current == ss[i].tables.current
    ensures ss[j + 1].cpu == ss[i].cpu.(mem := ss[j + 1].cpu.mem)
    ensures SameRange(ss[i].cpu.mem, ss[j + 1].cpu.mem, ss[i].cpu.rsp,
                      ss[j].tables.threads[ss[i].tables.current].stack.limit)
  {
    DeliveryRemembers(ss, es, i);
    StillRemembers(ss, es, ss[i].tables.current, ss[i].cpu, i + 1, j);
    assert Enabled(ss[j], es[j]) && ss[j + 1] == Apply(ss[j], es[j]);
    assert ss[j + 1].cpu == LeaveHandler(ss[j].image, ss[j].cpu);
  }

  // ---------------------------------------------------------------------
  // Preemption stays possible
  // ---------------------------------------------------------------------

  /** Since its code was entered at step `j` the thread has not turned interrupts off itself. */
  ghost predicate NeverMasks(ss: seq<Sys>, es: seq<Event>, j: nat, k: nat)
    requires |ss| == |es| + 1 && k < |ss|
  {
    && (forall m | j < m <= k :: ss[m].phase == Code)
    && (forall m {:trigger es[m]} | j < m < k && es[m].Own? :: InterruptsOn(es[m].cpu.rflags))
  }

  lemma {:induction false} StepKeepsInterrupts(s: Sys, e: Event)
    requires Inv(s) && Enabled(s, e) && Apply(s, e).phase == Code && Inv(Apply(s, e))
    requires s.phase == Code ==> InterruptsOn(s.cpu.rflags) && (e.Own? ==> InterruptsOn(e.cpu.rflags))
    ensures InterruptsOn(Apply(s, e).cpu.rflags) && !Apply(s, e).inService
  {
  }

  lemma {:induction false} CodeKeepsInterrupts(ss: seq<Sys>, es: seq<Event>, k: nat)
    requires Run(ss, es) && k < |es| && ss[k + 1].phase == Code
    requires ss[k].phase == Code ==> InterruptsOn(ss[k].cpu.rflags)
    requires ss[k].phase == Code && es[k].Own? ==> InterruptsOn(es[k].cpu.rflags)
    ensures InterruptsOn(ss[k + 1].cpu.rflags) && !ss[k + 1].inService
  {
    RunStep(ss, es, k);
    StepKeepsInterrupts(ss[k], es[k]);
  }

  /** Whichever way thread code is entered — enabled at boot, fresh through `sti`, or resumed
      through the handler's return — interrupts are on and the timer is not in service for as
      long as the thread itself leaves interrupts on. */
  lemma {:induction false} CodeIsPreemptible(ss: seq<Sys>, es: seq<Event>, j: nat, k: nat)
    requires Run(ss, es) && j < k < |ss|
    requires ss[j].phase != Code && NeverMasks(ss, es, j, k)
    ensures InterruptsOn(ss[k].cpu.rflags) && !ss[k].inService
  {
    if j + 1 < k {
      CodeIsPreemptible(ss, es, j, k - 1);
    }
    assert es[k - 1].Own? && j < k - 1 ==> InterruptsOn(es[k - 1].cpu.rflags);
    CodeKeepsInterrupts(ss, es, k - 1);
  }

  /** Every switch happens with the timer already acknowledged and interrupts off, and after
      any tick exactly one way on is open: back through the handler or into a fresh thread. */
  lemma {:induction false} TailNeverStuck(ss: seq<Sys>, es: seq<Event>, k: nat)
    requires Run(ss, es) && k < |ss| && ss[k].phase == Tail
    ensures Enabled(ss[k], Resume) != Enabled(ss[k], EnterThread)
    ensures !ss[k].inService && !InterruptsOn(ss[k].cpu.rflags)
  {
    RunKeepsInv(ss, es, k);
  }

  // ---------------------------------------------------------------------
  // The kernel moves its queue by the policy's moves
  // ---------------------------------------------------------------------

  function MoveOf(e: Event): Move {
    match e
    case TimerTick => Tick
    case Add(_, _, _) => Spawn
    case _ => Retire
  }

  lemma {:induction false} StepMoves(s: Sys, e: Event)
    requires Inv(s) && Enabled(s, e)
    ensures Moves(Queue(s.tables), MoveOf(e), Queue(Apply(s, e).tables))
    ensures MoveOf(e) == Retire && !e.Mark? ==> Queue(Apply(s, e).tables) == Queue(s.tables)
  {
    match e {
      case Add(pid, _, base) =>
        AddKeepsTables(s.tables, pid, TaskContext(Wrap(StackTop(base) - 56)), Stack(base, base + KERNEL_STACK_SIZE));
      case Mark(tid) => MarkKeepsTables(s.tables, tid);
      case TimerTick => TickQueue(s);
      case _ =>
    }
  }

  lemma {:induction false} RunMoves(ss: seq<Sys>, es: seq<Event>, k: nat)
    requires Run(ss, es) && k < |es|
    ensures Moves(Queue(ss[k].tables), MoveOf(es[k]), Queue(ss[k + 1].tables))
    ensures MoveOf(es[k]) == Retire && !es[k].Mark? ==> Queue(ss[k + 1].tables) == Queue(ss[k].tables)
  {
    RunStep(ss, es, k);
    StepMoves(ss[k], es[k]);
  }

  ghost function QueuesOf(ss: seq<Sys>): (qs: seq<RunQueue>)
    ensures |qs| == |ss| && forall i | 0 <= i < |ss| :: qs[i] == Queue(ss[i].tables)
  {
    seq(|ss|, i requires 0 <= i < |ss| => Queue(ss[i].tables))
  }

  ghost function MovesOf(es: seq<Event>): (ms: seq<Move>)
    ensures |ms| == |es| && forall i | 0 <= i < |es| :: ms[i] == MoveOf(es[i])
  {
    seq(|es|, i requires 0 <= i < |es| => MoveOf(es[i]))
  }

  /** Every run of the kernel is a history of its run queue. */
  lemma {:induction false} RunIsHistory(ss: seq<Sys>, es: seq<Event>)
    requires Run(ss, es)
    ensures History(QueuesOf(ss), MovesOf(es))
    ensures OneRunner(QueuesOf(ss)[0])
  {
    forall i | 0 <= i < |es|
      ensures Moves(QueuesOf(ss)[i], MovesOf(es)[i], QueuesOf(ss)[i + 1])
    {
      RunMoves(ss, es, i);
    }
  }

  ghost predicate ThreadNeverExits(ss: seq<Sys>, t: nat) {
    forall k | 0 <= k < |ss| && t < |ss[k].tables.threads| :: ss[k].tables.threads[t].state != Exited
  }

  /** The first `k` events hold at least as many ticks as the ring distance to `t` plus the
      processes created. */
  ghost predicate EnoughTicks(ss: seq<Sys>, es: seq<Event>, t: nat, k: nat)
    requires k <= |es| && |ss| > 0
    requires t < |ss[0].tables.threads| && ss[0].tables.current < |ss[0].tables.threads|
  {
    Count(MovesOf(es), k, Tick) >=
      Distance(ss[0].tables.current, t, |ss[0].tables.threads|) + Count(MovesOf(es), k, Spawn)
  }

  /** A Ready thread runs within (its ring distance + the processes created meanwhile) ticks,
      under any interleaving of thread code, interrupts and exits of other processes. */
  lemma {:induction false} ThreadsWaitBoundedly(ss: seq<Sys>, es: seq<Event>, t: nat) returns (i: nat)
    requires Run(ss, es) && Waiting(Queue(ss[0].tables), t) && ThreadNeverExits(ss, t)
    ensures EnoughTicks(ss, es, t, |es|) ==>
      && 0 < i < |ss| && ss[i].tables.current == t && AwayBetween(ss, t, 0, i)
      && Count(MovesOf(es), i, Tick) <=
        Distance(ss[0].tables.current, t, |ss[0].tables.threads|) + Count(MovesOf(es), i, Spawn)
  {
    i := 0;
    if EnoughTicks(ss, es, t, |es|) {
      RunIsHistory(ss, es);
      NeverExitsInQueues(ss, t);
      i := BoundedWaiting(QueuesOf(ss), MovesOf(es), t);
      forall m | 0 <= m < i
        ensures ss[m].tables.current != t
      {
        assert QueuesOf(ss)[m].current != t;
      }
    }
  }

  lemma {:induction false} NeverExitsInQueues(ss: seq<Sys>, t: nat)
    requires ThreadNeverExits(ss, t)
    ensures NeverExits(QueuesOf(ss), t)
  {
    forall k | 0 <= k < |ss| && t < |QueuesOf(ss)[k].states|
      ensures QueuesOf(ss)[k].states[t] != Exited
    {
      assert ss[k].tables.threads[t].state != Exited;
    }
  }

  ghost predicate Quiet(es: seq<Event>) {
    forall i {:trigger es[i]} | 0 <= i < |es| :: !es[i].Add? && !es[i].Mark?
  }

  lemma {:induction false} QuietStep(ss: seq<Sys>, es: seq<Event>, k: nat)
    requires Run(ss, es) && k < |es| && Quiet(es)
    ensures Queue(ss[k + 1].tables) ==
      if MoveOf(es[k]) == Tick then Rotate(Queue(ss[k].tables)) else Queue(ss[k].tables)
  {
    assert !es[k].Add? && !es[k].Mark?;
    RunMoves(ss, es, k);
  }

  /** With nobody created or exiting, a run with as many ticks as there are live threads brings
      the run queue back to where it was, and the k-th tick on the way runs the k-th live thread
      of the ring. */
  lemma {:induction false} ThreadsTakeTurns(ss: seq<Sys>, es: seq<Event>) returns (order: seq<nat>)
    requires Run(ss, es) && Quiet(es)
    requires var q := Queue(ss[0].tables); q.states[q.current] == Running
    ensures var q := Queue(ss[0].tables);
      Elements(order) == LiveSet(q) && |order| == |LiveSet(q)| && RingOrdered(q, order)
    ensures forall k: nat | k < |ss| && Count(MovesOf(es), k, Tick) < |order| ::
      ss[k].tables.current == order[Count(MovesOf(es), k, Tick)]
    ensures forall k: nat | k < |ss| && Count(MovesOf(es), k, Tick) == |order| ::
      Queue(ss[k].tables) == Queue(ss[0].tables)
  {
    var qs, ms := QueuesOf(ss), MovesOf(es);
    order := RoundRobinPeriod(qs[0]);
    forall i | 0 <= i < |ms|
      ensures qs[i + 1] == if ms[i] == Tick then Rotate(qs[i]) else qs[i]
    {
      QuietStep(ss, es, i);
    }
    forall k: nat | k < |ss|
      ensures qs[k] == Ticks(qs[0], Count(ms, k, Tick))
    {
      QuietIsTicks(qs, ms, k);
    }
  }

  /** In every state exactly one thread may be Running and it is the current one; a tick switches
      exactly when another thread is Ready, and then to the one that comes first on the ring. */
  lemma {:induction false} TicksSwitchToNearest(ss: seq<Sys>, es: seq<Event>, k: nat)
    requires Run(ss, es) && k < |es| && es[k] == TimerTick
    ensures OneRunner(Queue(ss[k].tables))
    ensures ss[k + 1].tables.current != ss[k].tables.current <==> exists t :: Waiting(Queue(ss[k].tables), t)
    ensures ss[k + 1].tables.current != ss[k].tables.current ==>
      Nearest(Queue(ss[k].tables), ss[k + 1].tables.current)
  {
    RunKeepsInv(ss, es, k);
    RunMoves(ss, es, k);
    TickSwitches(Queue(ss[k].tables));
  }

  /** Every thread that is not running has its saved rsp at an intact frame in its own stack. */
  lemma {:induction false} OthersAlwaysParked(ss: seq<Sys>, es: seq<Event>, k: nat, t: nat)
    requires Run(ss, es) && k < |ss| && t < |ss[k].tables.threads| && t != ss[k].tables.current
    ensures var th := ss[k].tables.threads[t];
      && FrameIntact(ss[k].image, th, ss[k].cpu.mem)
      && 0 < th.stack.base <= th.context.rsp && th.context.rsp + 56 <= th.stack.limit
  {
    RunKeepsInv(ss, es, k);
    assert FrameIntact(ss[k].image, ss[k].tables.threads[t], ss[k].cpu.mem);
  }

  /** An Exited current thread is left for good by the first tick that finds another one Ready. */
  lemma {:induction false} ExitedCurrentNeverReturns(ss: seq<Sys>, es: seq<Event>, i: nat, k: nat)
    requires Run(ss, es) && i < k < |ss| && es[i] == TimerTick
    requires ss[i].tables.threads[ss[i].tables.current].state == Exited
    requires exists t :: Waiting(Queue(ss[i].tables), t)
    ensures ss[k].tables.current != ss[i].tables.current
  {
    RunIsHistory(ss, es);
    ExitedCurrentLeavesForGood(QueuesOf(ss), MovesOf(es), i, k);
  }

  /** An Exited thread stays Exited and once switched out never runs again. */
  lemma {:induction false} ExitedThreadsStayOut(ss: seq<Sys>, es: seq<Event>, i: nat, k: nat, t: nat)
    requires Run(ss, es) && i <= k < |ss|
    requires t < |ss[i].tables.threads| && ss[i].tables.threads[t].state == Exited
    ensures t < |ss[k].tables.threads| && ss[k].tables.threads[t].state == Exited
    ensures ss[i].tables.current != t ==> ss[k].tables.current != t
  {
    RunIsHistory(ss, es);
    ExitIsFinal(QueuesOf(ss), MovesOf(es), i, k, t);
  }

  // ---------------------------------------------------------------------
  // Processes
  // ---------------------------------------------------------------------

  lemma {:induction false} StepKeepsZombie(s: Sys, e: Event, pid: nat)
    requires Inv(s) && Enabled(s, e)
    requires IsZombie(s.tables, pid)
    ensures IsZombie(Apply(s, e).tables, pid)
  {
    match e {
      case Insert(name) => InsertAgrees(s.tables, name, s.image.pageTable);
      case TimerTick => PrepareSwitchRotates(s.tables);
      case _ =>
    }
  }

  lemma {:induction false} ZombieStays(ss: seq<Sys>, es: seq<Event>, i: nat, k: nat, pid: nat)
    requires Run(ss, es) && i <= k < |ss|
    ensures IsZombie(ss[i].tables, pid) ==> IsZombie(ss[k].tables, pid)
    decreases k
  {
    if i < k && IsZombie(ss[i].tables, pid) {
      ZombieStays(ss, es, i, k - 1, pid);
      RunKeepsZombie(ss, es, k - 1, pid);
    }
  }

  lemma {:induction false} RunKeepsZombie(ss: seq<Sys>, es: seq<Event>, k: nat, pid: nat)
    requires Run(ss, es) && k < |es|
    ensures IsZombie(ss[k].tables, pid) ==> IsZombie(ss[k + 1].tables, pid)
  {
    if IsZombie(ss[k].tables, pid) {
      RunStep(ss, es, k);
      StepKeepsZombie(ss[k], es[k], pid);
    }
  }

  /** Once a process is a Zombie it stays one. In each later state all its threads are Exited if
      and only if the marks of the exits under way have reached them and its last exit did not
      come while it was still being created. */
  lemma {:induction false} ZombiesStayStopped(ss: seq<Sys>, es: seq<Event>, i: nat, k: nat, pid: nat)
    requires Run(ss, es) && i <= k < |ss|
    ensures IsZombie(ss[i].tables, pid) ==>
      && IsZombie(ss[k].tables, pid)
      && (AllExited(ss[k].tables, pid) <==>
           MarksDone(ss[k].tables, pid) && (pid in ss[k].tables.pending.orphans ==> !HasThread(ss[k].tables, pid)))
  {
    ZombieStays(ss, es, i, k, pid);
    RunKeepsInv(ss, es, k);
    if IsZombie(ss[i].tables, pid) {
      StoppedExactly(ss[k].tables, pid);
    }
  }

  /** Event `j` is an exit of the process `pid`, which is still being created or not. */
  ghost predicate ExitFinds(ss: seq<Sys>, es: seq<Event>, j: nat, pid: nat, creating: bool)
    requires |ss| == |es| + 1 && j < |es|
  {
    && es[j].BeginExit? && es[j].pid == pid && pid in ss[j].tables.processes
    && (pid in ss[j].tables.pending.creating <==> creating)
  }

  ghost predicate NoFullExit(ss: seq<Sys>, es: seq<Event>, j: nat, k: nat, pid: nat)
    requires |ss| == |es| + 1 && k <= |es|
  {
    forall m: nat | j < m < k :: !ExitFinds(ss, es, m, pid, false)
  }

  /** Some exit of `pid` came while it was being created, and none after that found it recorded. */
  ghost predicate ExitedTooSoon(ss: seq<Sys>, es: seq<Event>, k: nat, pid: nat)
    requires |ss| == |es| + 1 && k <= |es|
  {
    exists j: nat :: j < k && ExitFinds(ss, es, j, pid, true) && NoFullExit(ss, es, j, k, pid)
  }

  lemma {:induction false} TooSoonNext(ss: seq<Sys>, es: seq<Event>, k: nat, k': nat, pid: nat)
    requires |ss| == |es| + 1 && k < |es| && k' == k + 1
    ensures ExitedTooSoon(ss, es, k', pid) <==>
      ExitFinds(ss, es, k, pid, true) || (ExitedTooSoon(ss, es, k, pid) && !ExitFinds(ss, es, k, pid, false))
  {
    if ExitFinds(ss, es, k, pid, true) {
      assert NoFullExit(ss, es, k, k', pid);
    } else if ExitedTooSoon(ss, es, k, pid) && !ExitFinds(ss, es, k, pid, false) {
      var j: nat :| j < k && ExitFinds(ss, es, j, pid, true) && NoFullExit(ss, es, j, k, pid);
      assert NoFullExit(ss, es, j, k', pid);
    }
    if ExitedTooSoon(ss, es, k', pid) && !ExitFinds(ss, es, k, pid, true) {
      var j: nat :| j < k' && ExitFinds(ss, es, j, pid, true) && NoFullExit(ss, es, j, k', pid);
      assert NoFullExit(ss, es, j, k, pid);
    }
  }

  lemma {:induction false} StepOrphans(ss: seq<Sys>, es: seq<Event>, k: nat, pid: nat)
    requires Run(ss, es) && k < |es|
    ensures pid in ss[k + 1].tables.pending.orphans <==>
      ExitFinds(ss, es, k, pid, true) || (pid in ss[k].tables.pending.orphans && !ExitFinds(ss, es, k, pid, false))
  {
    assert ss[k + 1] == Apply(ss[k], es[k]);
  }

  /** Which processes those are can be read off the run. */
  lemma {:induction false} OrphansExitedTooSoon(ss: seq<Sys>, es: seq<Event>, k: nat, pid: nat)
    requires Run(ss, es) && k <= |es| && pid !in ss[0].tables.pending.orphans
    ensures pid in ss[k].tables.pending.orphans <==> ExitedTooSoon(ss, es, k, pid)
  {
    if k > 0 {
      OrphansExitedTooSoon(ss, es, k - 1, pid);
      StepOrphans(ss, es, k - 1, pid);
      TooSoonNext(ss, es, k - 1, k, pid);
    }
  }

  lemma {:induction false} OrphanStays(ss: seq<Sys>, es: seq<Event>, i: nat, k: nat, pid: nat)
    requires Run(ss, es) && i <= k <= |es| && pid in ss[i].tables.pending.orphans
    requires forall m: nat | i <= m < k :: !ExitFinds(ss, es, m, pid, false)
    ensures pid in ss[k].tables.pending.orphans
    decreases k
  {
    if i < k {
      OrphanStays(ss, es, i, k - 1, pid);
      StepOrphans(ss, es, k - 1, pid);
    }
  }

  /** And such a process is never stopped, unless it is exited once more: none of its threads is
      ever Exited. */
  lemma {:induction false} OrphansRunOn(ss: seq<Sys>, es: seq<Event>, i: nat, k: nat, pid: nat)
    requires Run(ss, es) && i <= k <= |es| && pid in ss[i].tables.pending.orphans
    requires forall m: nat | i <= m < k :: !ExitFinds(ss, es, m, pid, false)
    ensures IsZombie(ss[k].tables, pid)
    ensures forall t: nat | t < |ss[k].tables.threads| && ss[k].tables.threads[t].pid == pid ::
      ss[k].tables.threads[t].state != Exited
  {
    OrphanStays(ss, es, i, k, pid);
    RunKeepsInv(ss, es, k);
    assert ProcessAccounted(ss[k].tables, pid);
    forall t: nat | t < |ss[k].tables.threads| && ss[k].tables.threads[t].pid == pid
      ensures ss[k].tables.threads[t].state != Exited
    {
      assert ThreadAccounted(ss[k].tables, t);
    }
  }

  /** So exit_process keeps its promise in every state where none is under way, as long as no
      exit came before its process was recorded. */
  lemma {:induction false} ExitsComplete(ss: seq<Sys>, es: seq<Event>, k: nat, pid: nat)
    requires Run(ss, es) && k <= |es| && pid !in ss[0].tables.pending.orphans
    requires IsZombie(ss[k].tables, pid) && ss[k].tables.pending.leaving == multiset{}
    ensures HasThread(ss[k].tables, pid) ==> (AllExited(ss[k].tables, pid) <==> !ExitedTooSoon(ss, es, k, pid))
  {
    ZombiesStayStopped(ss, es, k, k, pid);
    OrphansExitedTooSoon(ss, es, k, pid);
  }

  /** In every state of every run the two tables agree: whatever TID a process lists names one
      thread, which carries that PID and is listed nowhere else; every thread is listed, unless the
      create_process that spawned it has still to record it; the next PID and TID are unused; TID 0
      is the idle thread's. */
  lemma {:induction false} TablesAlwaysAgree(ss: seq<Sys>, es: seq<Event>, k: nat)
    requires Run(ss, es) && k < |ss|
    ensures var t := ss[k].tables;
      && (forall i | 0 <= i < |t.threads| ::
        t.threads[i].pid in t.processes && (IsListed(t, t.threads[i]) <==> !AwaitsRecord(t, t.threads[i])))
      && (forall p, i | p in t.processes && 0 <= i < |t.threads| && t.threads[i].tid in t.processes[p].threads ::
        t.threads[i].pid == p)
      && (forall i, j | 0 <= i < j < |t.threads| :: t.threads[i].tid != t.threads[j].tid)
      && (forall p, tid | p in t.processes && tid in t.processes[p].threads :: Names(t.threads, tid, p))
      && t.nextPid !in t.processes
      && (forall i | 0 <= i < |t.threads| :: t.threads[i].tid != t.nextTid)
      && t.threads[0].tid == 0
  {
    RunKeepsInv(ss, es, k);
    var t := ss[k].tables;
    forall i | 0 <= i < |t.threads|
      ensures t.threads[i].pid in t.processes && (IsListed(t, t.threads[i]) <==> !AwaitsRecord(t, t.threads[i]))
    {
      assert StageOk(t, t.threads[i].pid);
    }
    forall p, tid | p in t.processes && tid in t.processes[p].threads
      ensures Names(t.threads, tid, p)
    {
      var i := ListedOnce(t, p, tid);
    }
    forall p, i | p in t.processes && 0 <= i < |t.threads| && t.threads[i].tid in t.processes[p].threads
      ensures t.threads[i].pid == p
    {
      var j := ListedOnce(t, p, t.threads[i].tid);
    }
  }
}
