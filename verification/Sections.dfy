/**
 What each locked section of create_process and exit_process keeps of the two tables,
 whatever other sections and ticks come in between (kernel/src/process.rs).
 */
module Sections {
  import opened Common
  import opened Machine
  import opened Scheduling
  import opened Registry

  // ---------------------------------------------------------------------
  // Zombies and their threads
  // ---------------------------------------------------------------------

  predicate IsZombie(t: Tables, p: nat) {
    p in t.processes && t.processes[p].state == Zombie
  }

  /** A Zombie whose last exit found its creation finished. */
  predicate Stopped(t: Tables, p: nat) {
    IsZombie(t, p) && p !in t.pending.orphans
  }

  /** A thread is Exited only in such a process, and in such a process it is Exited or still to
      be marked. */
  ghost predicate ThreadAccounted(t: Tables, i: nat) {
    i < |t.threads| ==>
      && (t.threads[i].state == Exited ==> Stopped(t, t.threads[i].pid))
      && (Stopped(t, t.threads[i].pid) ==> t.threads[i].state == Exited || t.threads[i].tid in t.pending.leaving)
  }

  ghost predicate ListedByStopped(t: Tables, tid: nat) {
    exists p :: Stopped(t, p) && tid in t.processes[p].threads
  }

  ghost predicate LeaverOk(t: Tables, tid: nat) {
    tid in t.pending.leaving ==> ListedByStopped(t, tid)
  }

  ghost predicate ProcessAccounted(t: Tables, p: nat) {
    && (p in t.pending.orphans ==> IsZombie(t, p))
    && (p in t.pending.creating && IsZombie(t, p) ==> p in t.pending.orphans)
  }

  ghost predicate Accounted(t: Tables) {
    && (forall i: nat {:trigger ThreadAccounted(t, i)} :: ThreadAccounted(t, i))
    && (forall tid: nat {:trigger LeaverOk(t, tid)} :: LeaverOk(t, tid))
    && (forall p: nat {:trigger ProcessAccounted(t, p)} :: ProcessAccounted(t, p))
  }

  ghost predicate AllExited(t: Tables, p: nat) {
    forall i | 0 <= i < |t.threads| && t.threads[i].pid == p :: t.threads[i].state == Exited
  }

  ghost predicate MarksDone(t: Tables, p: nat) {
    forall i | 0 <= i < |t.threads| && t.threads[i].pid == p && t.threads[i].tid in t.pending.leaving ::
      t.threads[i].state == Exited
  }

  ghost predicate HasThread(t: Tables, p: nat) {
    exists i :: 0 <= i < |t.threads| && t.threads[i].pid == p
  }

  /** All threads of a Zombie are Exited if and only if the marks of its exits are done and its
      last exit did not come while it was being created. */
  lemma {:induction false} StoppedExactly(t: Tables, p: nat)
    requires Accounted(t) && IsZombie(t, p)
    ensures AllExited(t, p) <==> MarksDone(t, p) && (p in t.pending.orphans ==> !HasThread(t, p))
  {
    if AllExited(t, p) && HasThread(t, p) {
      var i: nat :| i < |t.threads| && t.threads[i].pid == p;
      assert ThreadAccounted(t, i);
    }
    if MarksDone(t, p) && (p in t.pending.orphans ==> !HasThread(t, p)) {
      forall i: nat | i < |t.threads| && t.threads[i].pid == p
        ensures t.threads[i].state == Exited
      {
        assert ThreadAccounted(t, i);
      }
    }
  }

  lemma {:induction false} LeaverKept(t: Tables, t': Tables, tid: nat)
    requires LeaverOk(t, tid) && (tid in t'.pending.leaving ==> tid in t.pending.leaving)
    requires forall p | Stopped(t, p) :: Stopped(t', p) && t.processes[p].threads <= t'.processes[p].threads
    ensures LeaverOk(t', tid)
  {
    if tid in t'.pending.leaving {
      var p :| Stopped(t, p) && tid in t.processes[p].threads;
      assert Stopped(t', p) && tid in t'.processes[p].threads;
    }
  }

  // ---------------------------------------------------------------------
  // Sections that leave the threads as they are
  // ---------------------------------------------------------------------

  lemma {:induction false} InsertAgrees(t: Tables, name: string, pageTable: Word)
    requires Agree(t)
    ensures Agree(InsertProcess(t, name, pageTable))
    ensures t.nextPid !in t.processes && t.nextPid !in t.pending.creating
  {
    var t', pid := InsertProcess(t, name, pageTable), t.nextPid;
    assert StageOk(t, pid);
    forall p, k | p in t'.processes && 0 <= k < |t'.processes[p].threads|
      ensures Names(t'.threads, t'.processes[p].threads[k], p)
    {
      assert Names(t.threads, t.processes[p].threads[k], p);
    }
    forall p: nat
      ensures StageOk(t', p)
    {
      assert StageOk(t, p);
    }
    forall p: nat, q: nat
      ensures DrawnApart(t', p, q)
    {
      assert DrawnApart(t, p, q);
    }
  }

  lemma {:induction false} InsertAccounts(t: Tables, name: string, pageTable: Word)
    requires Agree(t) && Accounted(t)
    ensures Accounted(InsertProcess(t, name, pageTable))
  {
    var t', pid := InsertProcess(t, name, pageTable), t.nextPid;
    assert ProcessAccounted(t, pid);
    forall i: nat
      ensures ThreadAccounted(t', i) && LeaverOk(t', i) && ProcessAccounted(t', i)
    {
      assert ThreadAccounted(t, i) && LeaverOk(t, i) && ProcessAccounted(t, i);
      LeaverKept(t, t', i);
    }
  }

  lemma {:induction false} DrawAgrees(t: Tables, pid: nat)
    requires Agree(t) && IsInserted(t, pid)
    ensures Agree(DrawTid(t, pid))
  {
    var t' := DrawTid(t, pid);
    assert StageOk(t, pid);
    forall p, k | p in t'.processes && 0 <= k < |t'.processes[p].threads|
      ensures Names(t'.threads, t'.processes[p].threads[k], p)
    {
      assert Names(t.threads, t.processes[p].threads[k], p);
    }
    forall p: nat
      ensures StageOk(t', p)
    {
      assert StageOk(t, p);
    }
    forall p: nat, q: nat
      ensures DrawnApart(t', p, q)
    {
      assert StageOk(t, p) && StageOk(t, q) && DrawnApart(t, p, q);
    }
  }

  lemma {:induction false} SameAccounts(t: Tables, t': Tables)
    requires Accounted(t) && t'.threads == t.threads && t'.processes == t.processes
    requires t'.pending.leaving == t.pending.leaving && t'.pending.orphans == t.pending.orphans
    requires t'.pending.creating.Keys == t.pending.creating.Keys
    ensures Accounted(t')
  {
    forall i: nat
      ensures ThreadAccounted(t', i) && LeaverOk(t', i) && ProcessAccounted(t', i)
    {
      assert ThreadAccounted(t, i) && LeaverOk(t, i) && ProcessAccounted(t, i);
      LeaverKept(t, t', i);
    }
  }

  // ---------------------------------------------------------------------
  // The new thread
  // ---------------------------------------------------------------------

  lemma {:induction false} AddAgrees(t: Tables, pid: nat, context: TaskContext, stack: Stack)
    requires Agree(t) && IsDrawn(t, pid)
    ensures Agree(AddThread(t, pid, context, stack))
  {
    var t', tid := AddThread(t, pid, context, stack), t.pending.creating[pid].tid;
    assert StageOk(t, pid);
    forall p, k | p in t'.processes && 0 <= k < |t'.processes[p].threads|
      ensures Names(t'.threads, t'.processes[p].threads[k], p)
    {
      assert Names(t.threads, t.processes[p].threads[k], p);
      NamesStill(t, t', t.processes[p].threads[k], p);
    }
    forall p: nat
      ensures StageOk(t', p)
    {
      assert StageOk(t, p) && DrawnApart(t, p, pid);
      if p == pid {
        assert t'.threads[|t.threads|].tid == tid;
      } else if IsSpawned(t, p) {
        NamesStill(t, t', t.pending.creating[p].tid, p);
      }
    }
    forall p: nat, q: nat
      ensures DrawnApart(t', p, q)
    {
      assert DrawnApart(t, p, q);
    }
  }

  lemma {:induction false} AddAccounts(t: Tables, pid: nat, context: TaskContext, stack: Stack)
    requires Agree(t) && Accounted(t) && IsDrawn(t, pid)
    ensures Accounted(AddThread(t, pid, context, stack))
  {
    var t' := AddThread(t, pid, context, stack);
    forall i: nat
      ensures ThreadAccounted(t', i) && LeaverOk(t', i) && ProcessAccounted(t', i)
    {
      assert ThreadAccounted(t, i) && LeaverOk(t, i) && ProcessAccounted(t, i) && ProcessAccounted(t, pid);
      LeaverKept(t, t', i);
    }
  }

  lemma {:induction false} RecordAgrees(t: Tables, pid: nat)
    requires Agree(t) && IsSpawned(t, pid)
    ensures Agree(RecordThread(t, pid))
  {
    var t', tid := RecordThread(t, pid), t.pending.creating[pid].tid;
    assert StageOk(t, pid);
    assert t'.processes[pid].threads == [tid];
    forall p, k | p in t'.processes && 0 <= k < |t'.processes[p].threads|
      ensures Names(t'.threads, t'.processes[p].threads[k], p)
    {
      if p != pid {
        assert Names(t.threads, t.processes[p].threads[k], p);
      }
    }
    forall p: nat
      ensures StageOk(t', p)
    {
      assert StageOk(t, p);
    }
    forall p: nat, q: nat
      ensures DrawnApart(t', p, q)
    {
      assert DrawnApart(t, p, q);
    }
  }

  lemma {:induction false} RecordAccounts(t: Tables, pid: nat)
    requires Agree(t) && Accounted(t) && IsSpawned(t, pid)
    ensures Accounted(RecordThread(t, pid))
  {
    var t' := RecordThread(t, pid);
    assert StageOk(t, pid);
    forall i: nat
      ensures ThreadAccounted(t', i) && LeaverOk(t', i) && ProcessAccounted(t', i)
    {
      assert ThreadAccounted(t, i) && LeaverOk(t, i) && ProcessAccounted(t, i);
      LeaverKept(t, t', i);
    }
  }

  // ---------------------------------------------------------------------
  // The Zombie mark and the thread marks
  // ---------------------------------------------------------------------

  lemma {:induction false} ZombieAgrees(t: Tables, pid: nat, code: int)
    requires Agree(t)
    ensures Agree(MarkZombie(t, pid, code))
  {
    AgreeIgnoresStates(t, MarkZombie(t, pid, code));
  }

  /** Before it exits no thread of a process being created is Exited. */
  lemma {:induction false} CreatingRuns(t: Tables, pid: nat, i: nat)
    requires Accounted(t) && pid in t.pending.creating && i < |t.threads| && t.threads[i].pid == pid
    ensures t.threads[i].state != Exited
  {
    assert ThreadAccounted(t, i) && ProcessAccounted(t, pid);
  }

  lemma {:induction false} ZombieAccounts(t: Tables, pid: nat, code: int)
    requires Agree(t) && Accounted(t)
    ensures Accounted(MarkZombie(t, pid, code))
  {
    var t' := MarkZombie(t, pid, code);
    if pid in t.processes {
      assert StageOk(t, pid);
      forall i: nat
        ensures ThreadAccounted(t', i)
      {
        assert ThreadAccounted(t, i);
        if i < |t.threads| && t.threads[i].pid == pid && pid in t.pending.creating {
          CreatingRuns(t, pid, i);
        }
      }
      forall tid: nat
        ensures LeaverOk(t', tid)
      {
        LeaverStays(t, pid, code, tid);
      }
      forall p: nat
        ensures ProcessAccounted(t', p)
      {
        assert ProcessAccounted(t, p);
      }
    }
  }

  lemma {:induction false} LeaverStays(t: Tables, pid: nat, code: int, tid: nat)
    requires Agree(t) && Accounted(t) && pid in t.processes
    ensures LeaverOk(MarkZombie(t, pid, code), tid)
  {
    var t' := MarkZombie(t, pid, code);
    assert StageOk(t, pid) && LeaverOk(t, tid);
    if tid in t'.pending.leaving {
      if tid in t.processes[pid].threads {
        assert Stopped(t', pid) && tid in t'.processes[pid].threads;
      } else {
        var p :| Stopped(t, p) && tid in t.processes[p].threads;
        assert Stopped(t', p) && tid in t'.processes[p].threads;
      }
    }
  }

  lemma {:induction false} MarkAgrees(t: Tables, tid: nat)
    requires Agree(t)
    ensures Agree(MarkThread(t, tid))
  {
    MarkFirstMarksOne(t.threads, tid);
    AgreeIgnoresStates(t, MarkThread(t, tid));
  }

  lemma {:induction false} MarkAccounts(t: Tables, tid: nat)
    requires Agree(t) && Accounted(t) && tid in t.pending.leaving
    ensures Accounted(MarkThread(t, tid))
  {
    var t' := MarkThread(t, tid);
    MarkFirstMarksOne(t.threads, tid);
    assert LeaverOk(t, tid);
    var p0 :| Stopped(t, p0) && tid in t.processes[p0].threads;
    var k := ListedOnce(t, p0, tid);
    forall i: nat
      ensures ThreadAccounted(t', i) && LeaverOk(t', i) && ProcessAccounted(t', i)
    {
      assert ThreadAccounted(t, i) && LeaverOk(t, i) && ProcessAccounted(t, i);
      LeaverKept(t, t', i);
    }
  }

  // ---------------------------------------------------------------------
  // Ticks
  // ---------------------------------------------------------------------

  /** Accounts do not care which threads run or where their contexts are. */
  ghost predicate SameExits(t: Tables, t': Tables, i: nat) {
    i < |t.threads| && i < |t'.threads| ==>
      && t'.threads[i].tid == t.threads[i].tid && t'.threads[i].pid == t.threads[i].pid
      && (t'.threads[i].state == Exited <==> t.threads[i].state == Exited)
  }

  lemma {:induction false} ExitsAccount(t: Tables, t': Tables)
    requires Accounted(t) && |t'.threads| == |t.threads| && t'.processes == t.processes && t'.pending == t.pending
    requires forall i: nat {:trigger SameExits(t, t', i)} :: SameExits(t, t', i)
    ensures Accounted(t')
  {
    forall i: nat
      ensures ThreadAccounted(t', i) && LeaverOk(t', i) && ProcessAccounted(t', i)
    {
      assert ThreadAccounted(t, i) && LeaverOk(t, i) && ProcessAccounted(t, i) && SameExits(t, t', i);
      LeaverKept(t, t', i);
    }
  }

  lemma {:induction false} SwitchKeepsExits(t: Tables, i: nat)
    requires OneRunner(Queue(t))
    ensures |PrepareSwitch(t).threads| == |t.threads| && SameExits(t, PrepareSwitch(t), i)
  {
    PrepareSwitchRotates(t);
    TickSwitches(Queue(t));
    if i < |t.threads| {
      assert Queue(t).states[i] == t.threads[i].state;
      assert Queue(PrepareSwitch(t)).states[i] == PrepareSwitch(t).threads[i].state;
    }
  }

  lemma {:induction false} PrepareSwitchAgrees(t: Tables)
    requires Agree(t) && Accounted(t) && OneRunner(Queue(t))
    ensures Agree(PrepareSwitch(t)) && Accounted(PrepareSwitch(t))
  {
    PrepareSwitchRotates(t);
    AgreeIgnoresStates(t, PrepareSwitch(t));
    forall i: nat
      ensures SameExits(t, PrepareSwitch(t), i)
    {
      SwitchKeepsExits(t, i);
    }
    ExitsAccount(t, PrepareSwitch(t));
  }

  // ---------------------------------------------------------------------
  // The two calls with nothing in between
  // ---------------------------------------------------------------------

  /** Run to its end, create_process adds one thread and one process that lists it, and leaves no
      call pending. */
  lemma {:induction false} AddProcessIs(t: Tables, name: string, context: TaskContext, stack: Stack, pageTable: Word)
    requires t.nextPid !in t.pending.creating
    ensures var pid, tid := t.nextPid, t.nextTid;
      var parent := if pid == 0 then None else Some(0);
      AddProcess(t, name, context, stack, pageTable) ==
        Tables(t.threads + [Thread(tid, pid, Ready, context, stack)], t.current, tid + 1,
               t.processes[pid := Process(pid, name, Alive, parent, [tid], None, pageTable)], pid + 1, t.pending)
  {
    var c, pid, tid := t.pending.creating, t.nextPid, t.nextTid;
    assert c[pid := Inserted][pid := Drawn(tid)][pid := Spawned(tid)] - {pid} == c;
    assert [] + [tid] == [tid];
  }

  /** That PID and TID nobody had before, and the tables go on agreeing. */
  lemma {:induction false} AddProcessAgrees(t: Tables, name: string, context: TaskContext, stack: Stack,
                                         pageTable: Word)
    requires Agree(t)
    ensures var t', pid, tid := AddProcess(t, name, context, stack, pageTable), t.nextPid, t.nextTid;
      && t' == Tables(t.threads + [Thread(tid, pid, Ready, context, stack)], t.current, tid + 1,
                      t.processes[pid := Process(pid, name, Alive, Some(0), [tid], None, pageTable)],
                      pid + 1, t.pending)
      && pid !in t.processes && Agree(t')
    ensures forall i | 0 <= i < |t.threads| :: t.threads[i].tid != t.nextTid && t.threads[i].pid != t.nextPid
  {
    var pid, tid := t.nextPid, t.nextTid;
    InsertAgrees(t, name, pageTable);
    var inserted := InsertProcess(t, name, pageTable);
    DrawAgrees(inserted, pid);
    var drawn := DrawTid(inserted, pid);
    AddAgrees(drawn, pid, context, stack);
    RecordAgrees(AddThread(drawn, pid, context, stack), pid);
    AddProcessIs(t, name, context, stack, pageTable);
  }

  lemma {:induction false} MarkEachIsMarkAll(t: Tables, tids: seq<nat>)
    ensures MarkEach(t, tids) ==
      t.(threads := MarkAll(t.threads, tids), pending := t.pending.(leaving := t.pending.leaving - multiset(tids)))
    decreases |tids|
  {
    if tids != [] {
      MarkEachIsMarkAll(MarkThread(t, tids[0]), tids[1..]);
      TakeOneByOne(t.pending.leaving, tids);
    }
  }

  lemma {:induction false} TakeOneByOne(m: multiset<nat>, tids: seq<nat>)
    requires tids != []
    ensures m - multiset{tids[0]} - multiset(tids[1..]) == m - multiset(tids)
  {
    assert tids == [tids[0]] + tids[1..];
    assert multiset(tids) == multiset{tids[0]} + multiset(tids[1..]);
  }

  lemma {:induction false} MarkEachKeeps(t: Tables, tids: seq<nat>)
    requires Agree(t) && Accounted(t) && multiset(tids) <= t.pending.leaving
    ensures Agree(MarkEach(t, tids)) && Accounted(MarkEach(t, tids))
    decreases |tids|
  {
    if tids != [] {
      assert tids == [tids[0]] + tids[1..];
      MarkAgrees(t, tids[0]);
      MarkAccounts(t, tids[0]);
      MarkEachKeeps(MarkThread(t, tids[0]), tids[1..]);
    }
  }

  /** Run to its end, and although marking stops at the first match, exit_process changes the state
      of exactly the recorded threads of the process. */
  lemma {:induction false} ExitProcessIsExact(t: Tables, pid: nat, code: int)
    requires Agree(t)
    ensures SameThreads(t.threads, ExitProcess(t, pid, code).threads)
    ensures forall i | 0 <= i < |t.threads| ::
      ExitProcess(t, pid, code).threads[i].state ==
        if t.threads[i].pid == pid && IsListed(t, t.threads[i]) then Exited else t.threads[i].state
    ensures ExitProcess(t, pid, code).processes ==
      if pid in t.processes then t.processes[pid := t.processes[pid].(state := Zombie, exitCode := Some(code))]
      else t.processes
    ensures ExitProcess(t, pid, code).pending.leaving == t.pending.leaving
  {
    if pid in t.processes {
      var tids := t.processes[pid].threads;
      MarkEachIsMarkAll(MarkZombie(t, pid, code), tids);
      MarkAllMarksListed(t.threads, tids);
      forall i | 0 <= i < |t.threads|
        ensures t.threads[i].tid in tids <==> t.threads[i].pid == pid && IsListed(t, t.threads[i])
      {
        if t.threads[i].tid in tids {
          var j := ListedOnce(t, pid, t.threads[i].tid);
        }
      }
    }
  }

  lemma {:induction false} ExitProcessAgrees(t: Tables, pid: nat, code: int)
    requires Agree(t) && Accounted(t)
    ensures Agree(ExitProcess(t, pid, code)) && Accounted(ExitProcess(t, pid, code))
  {
    if pid in t.processes {
      ZombieAgrees(t, pid, code);
      ZombieAccounts(t, pid, code);
      MarkEachKeeps(MarkZombie(t, pid, code), t.processes[pid].threads);
    }
  }
}
