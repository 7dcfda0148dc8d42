/**
 The two tables of the kernel: the scheduler's thread control blocks
 (kernel/src/scheduler.rs) and the process control blocks that list them by TID
 (kernel/src/process.rs). `Agree` is what ties the two together whenever no lock is held.
 */
module Registry {
  import opened Common
  import opened Machine
  import opened Scheduling

  datatype TaskContext = TaskContext(rsp: Word)

  /** The bytes [base, limit) a thread runs on: its kernel_stack, or the boot stack of the
      idle thread, whose kernel_stack is empty. */
  datatype Stack = Stack(base: int, limit: int)

  datatype Thread = Thread(tid: nat, pid: nat, state: ThreadState, context: TaskContext, stack: Stack)

  /** The source's Running, Zombie and Exited, renamed to keep them apart from thread states. */
  datatype ProcessState = Alive | Zombie | Reaped

  datatype Process = Process(
    pid: nat, name: string, state: ProcessState, parent: Option<nat>,
    threads: seq<nat>, exitCode: Option<int>, pageTable: Word)

  /** How far a `create_process` that has not returned yet has come. */
  datatype Stage = Inserted | Drawn(tid: nat) | Spawned(tid: nat)

  /** The calls that are between two of their locked sections: the processes being created, the
      TIDs `exit_process` still has to mark, and the processes whose last exit found them still
      being created. */
  datatype Pending = Pending(creating: map<nat, Stage>, leaving: multiset<nat>, orphans: set<nat>)

  const NO_CALLS := Pending(map[], multiset{}, {})

  datatype Tables = Tables(
    threads: seq<Thread>, current: nat, nextTid: nat,
    processes: map<nat, Process>, nextPid: nat, pending: Pending)

  // ---------------------------------------------------------------------
  // Operations
  // ---------------------------------------------------------------------

  function States(threads: seq<Thread>): (r: seq<ThreadState>)
    ensures |r| == |threads|
  {
    seq(|threads|, i requires 0 <= i < |threads| => threads[i].state)
  }

  function Queue(t: Tables): RunQueue {
    RunQueue(States(t.threads), t.current)
  }

  function WithStates(threads: seq<Thread>, states: seq<ThreadState>): (r: seq<Thread>)
    requires |threads| == |states|
    ensures |r| == |threads| && States(r) == states
  {
    seq(|threads|, i requires 0 <= i < |threads| => threads[i].(state := states[i]))
  }

  lemma {:induction false} RotateKeepsLength(q: RunQueue)
    requires InRange(q) || q.states == []
    ensures |Rotate(q).states| == |q.states|
  {
  }

  /** `prepare_switch`: only states and `current` change. */
  function PrepareSwitch(t: Tables): Tables
    requires t.threads == [] || t.current < |t.threads|
  {
    var q := Rotate(Queue(t));
    RotateKeepsLength(Queue(t));
    t.(threads := WithStates(t.threads, q.states), current := q.current)
  }

  /** `mov [rdi], rsp` on the context of thread `i`. */
  function SaveContext(t: Tables, i: nat, rsp: Word): Tables
    requires i < |t.threads|
  {
    t.(threads := t.threads[i := t.threads[i].(context := TaskContext(rsp))])
  }

  // ---------------------------------------------------------------------
  // create_process, section by section
  // ---------------------------------------------------------------------

  function AtStage(t: Tables, pid: nat, g: Stage): Tables {
    t.(pending := t.pending.(creating := t.pending.creating[pid := g]))
  }

  /** `alloc_pid` and `insert`, under one lock. */
  function InsertProcess(t: Tables, name: string, pageTable: Word): Tables {
    var pid := t.nextPid;
    var parent := if pid == 0 then None else Some(0);
    AtStage(t.(processes := t.processes[pid := Process(pid, name, Alive, parent, [], None, pageTable)],
               nextPid := pid + 1), pid, Inserted)
  }

  /** `NEXT_TID.fetch_add`. */
  function DrawTid(t: Tables, pid: nat): Tables {
    AtStage(t.(nextTid := t.nextTid + 1), pid, Drawn(t.nextTid))
  }

  predicate IsInserted(t: Tables, pid: nat) {
    pid in t.pending.creating && t.pending.creating[pid].Inserted?
  }

  predicate IsDrawn(t: Tables, pid: nat) {
    pid in t.pending.creating && t.pending.creating[pid].Drawn?
  }

  predicate IsSpawned(t: Tables, pid: nat) {
    pid in t.pending.creating && t.pending.creating[pid].Spawned?
  }

  /** `add_thread` with the TID drawn before. */
  function AddThread(t: Tables, pid: nat, context: TaskContext, stack: Stack): Tables {
    if !IsDrawn(t, pid) then t
    else
      var tid := t.pending.creating[pid].tid;
      AtStage(t.(threads := t.threads + [Thread(tid, pid, Ready, context, stack)]), pid, Spawned(tid))
  }

  /** The TID is pushed to the list of the process, if that is still there. */
  function RecordThread(t: Tables, pid: nat): Tables {
    if !IsSpawned(t, pid) then t
    else
      var tid := t.pending.creating[pid].tid;
      var processes := if pid !in t.processes then t.processes
                       else t.processes[pid := t.processes[pid].(threads := t.processes[pid].threads + [tid])];
      t.(processes := processes, pending := t.pending.(creating := t.pending.creating - {pid}))
  }

  /** All of `create_process` with nothing in between. */
  function AddProcess(t: Tables, name: string, context: TaskContext, stack: Stack, pageTable: Word): Tables {
    var pid := t.nextPid;
    RecordThread(AddThread(DrawTid(InsertProcess(t, name, pageTable), pid), pid, context, stack), pid)
  }

  // ---------------------------------------------------------------------
  // exit_process, section by section
  // ---------------------------------------------------------------------

  /** `mark_exited`: the first thread carrying the TID, if any. */
  function MarkFirst(threads: seq<Thread>, tid: nat): (r: seq<Thread>)
    ensures |r| == |threads|
  {
    if threads == [] then []
    else if threads[0].tid == tid then [threads[0].(state := Exited)] + threads[1..]
    else [threads[0]] + MarkFirst(threads[1..], tid)
  }

  function MarkAll(threads: seq<Thread>, tids: seq<nat>): (r: seq<Thread>)
    decreases |tids|
    ensures |r| == |threads|
  {
    if tids == [] then threads else MarkAll(MarkFirst(threads, tids[0]), tids[1..])
  }

  /** The process becomes a Zombie and its TIDs are to be marked; an unknown PID changes nothing. */
  function MarkZombie(t: Tables, pid: nat, code: int): Tables {
    if pid !in t.processes then t
    else
      var p := t.processes[pid];
      t.(processes := t.processes[pid := p.(state := Zombie, exitCode := Some(code))],
         pending := t.pending.(leaving := t.pending.leaving + multiset(p.threads),
                               orphans := if pid in t.pending.creating then t.pending.orphans + {pid}
                                          else t.pending.orphans - {pid}))
  }

  /** `mark_thread_exited` for one of those TIDs. */
  function MarkThread(t: Tables, tid: nat): Tables {
    t.(threads := MarkFirst(t.threads, tid), pending := t.pending.(leaving := t.pending.leaving - multiset{tid}))
  }

  function MarkEach(t: Tables, tids: seq<nat>): Tables
    decreases |tids|
  {
    if tids == [] then t else MarkEach(MarkThread(t, tids[0]), tids[1..])
  }

  /** All of `exit_process` with nothing in between. */
  function ExitProcess(t: Tables, pid: nat, code: int): Tables {
    if pid !in t.processes then t else MarkEach(MarkZombie(t, pid, code), t.processes[pid].threads)
  }

  // ---------------------------------------------------------------------
  // The tables agree
  // ---------------------------------------------------------------------

  ghost predicate DistinctTids(threads: seq<Thread>) {
    forall i, j | 0 <= i < j < |threads| :: threads[i].tid != threads[j].tid
  }

  predicate IsListed(t: Tables, th: Thread) {
    th.pid in t.processes && th.tid in t.processes[th.pid].threads
  }

  predicate AwaitsRecord(t: Tables, th: Thread) {
    th.pid in t.pending.creating && t.pending.creating[th.pid] == Spawned(th.tid)
  }

  /** Every thread is listed by the process it belongs to, or about to be. */
  ghost predicate Listed(t: Tables) {
    forall i | 0 <= i < |t.threads| ::
      && t.threads[i].tid < t.nextTid && t.threads[i].pid in t.processes
      && (IsListed(t, t.threads[i]) || AwaitsRecord(t, t.threads[i]))
  }

  ghost predicate Names(threads: seq<Thread>, tid: nat, pid: nat) {
    exists i :: 0 <= i < |threads| && threads[i].tid == tid && threads[i].pid == pid
  }

  /** Every listed TID names a thread of the listing process. */
  ghost predicate Resolved(t: Tables) {
    forall p, k | p in t.processes && 0 <= k < |t.processes[p].threads| ::
      Names(t.threads, t.processes[p].threads[k], p)
  }

  ghost predicate PidsFresh(t: Tables) {
    forall p | p in t.processes :: t.processes[p].pid == p && p < t.nextPid
  }

  ghost predicate NoRepeats(t: Tables) {
    forall p, a, b | p in t.processes && 0 <= a < b < |t.processes[p].threads| ::
      t.processes[p].threads[a] != t.processes[p].threads[b]
  }

  /** TID 0 belongs to the idle thread at index 0. */
  ghost predicate IdleReserved(t: Tables) {
    t.threads != [] && t.threads[0].tid == 0 && t.threads[0].pid == 0 && 0 < t.nextTid
  }

  ghost predicate FreeTid(t: Tables, tid: nat) {
    tid < t.nextTid && forall i | 0 <= i < |t.threads| :: t.threads[i].tid != tid
  }

  /** A process being created lists no TID yet, and the TID drawn for it is nobody else's. */
  ghost predicate StageOk(t: Tables, p: nat) {
    p in t.pending.creating ==>
      && p in t.processes && t.processes[p].threads == []
      && match t.pending.creating[p]
         case Inserted => true
         case Drawn(tid) => FreeTid(t, tid)
         case Spawned(tid) => Names(t.threads, tid, p)
  }

  ghost predicate DrawnApart(t: Tables, p: nat, q: nat) {
    p != q && IsDrawn(t, p) && IsDrawn(t, q) ==> t.pending.creating[p].tid != t.pending.creating[q].tid
  }

  ghost predicate StagesOk(t: Tables) {
    && (forall p: nat {:trigger StageOk(t, p)} :: StageOk(t, p))
    && (forall p: nat, q: nat {:trigger DrawnApart(t, p, q)} :: DrawnApart(t, p, q))
  }

  ghost predicate Agree(t: Tables) {
    && DistinctTids(t.threads) && Listed(t) && Resolved(t)
    && PidsFresh(t) && NoRepeats(t) && IdleReserved(t) && StagesOk(t)
  }

  /** A TID listed anywhere names exactly one thread, and that thread carries the PID of the
      listing process: so a thread is listed by one process only. */
  lemma {:induction false} ListedOnce(t: Tables, p: nat, tid: nat) returns (i: nat)
    requires Agree(t) && p in t.processes && tid in t.processes[p].threads
    ensures i < |t.threads| && t.threads[i].tid == tid && t.threads[i].pid == p
    ensures forall j | 0 <= j < |t.threads| && t.threads[j].tid == tid :: j == i
    ensures forall p' | p' in t.processes && tid in t.processes[p'].threads :: p' == p
  {
    var k :| 0 <= k < |t.processes[p].threads| && t.processes[p].threads[k] == tid;
    assert Names(t.threads, t.processes[p].threads[k], p);
    i :| 0 <= i < |t.threads| && t.threads[i].tid == tid && t.threads[i].pid == p;
    forall p' | p' in t.processes && tid in t.processes[p'].threads
      ensures p' == p
    {
      var k' :| 0 <= k' < |t.processes[p'].threads| && t.processes[p'].threads[k'] == tid;
      assert Names(t.threads, t.processes[p'].threads[k'], p');
    }
  }

  // ---------------------------------------------------------------------
  // States of threads
  // ---------------------------------------------------------------------

  /** Same threads, possibly in other states. */
  ghost predicate SameThreads(a: seq<Thread>, b: seq<Thread>) {
    && |a| == |b|
    && forall i | 0 <= i < |a| :: b[i] == a[i].(state := b[i].state)
  }

  lemma {:induction false} MarkFirstMarksOne(threads: seq<Thread>, tid: nat)
    requires DistinctTids(threads)
    ensures SameThreads(threads, MarkFirst(threads, tid))
    ensures forall i | 0 <= i < |threads| ::
      MarkFirst(threads, tid)[i].state == if threads[i].tid == tid then Exited else threads[i].state
  {
    if threads != [] && threads[0].tid != tid {
      MarkFirstMarksOne(threads[1..], tid);
      forall i | 0 <= i < |threads|
        ensures MarkFirst(threads, tid)[i] ==
          threads[i].(state := if threads[i].tid == tid then Exited else threads[i].state)
      {
        if i > 0 {
          assert MarkFirst(threads, tid)[i] == MarkFirst(threads[1..], tid)[i - 1];
          assert threads[1..][i - 1] == threads[i];
        }
      }
    }
  }

  lemma {:induction false} MarkAllMarksListed(threads: seq<Thread>, tids: seq<nat>)
    requires DistinctTids(threads)
    ensures SameThreads(threads, MarkAll(threads, tids))
    ensures forall i | 0 <= i < |threads| ::
      MarkAll(threads, tids)[i].state == if threads[i].tid in tids then Exited else threads[i].state
    decreases |tids|
  {
    if tids != [] {
      MarkFirstMarksOne(threads, tids[0]);
      MarkAllMarksListed(MarkFirst(threads, tids[0]), tids[1..]);
      assert forall x :: x in tids <==> x == tids[0] || x in tids[1..];
    }
  }

  /** Agreement speaks only of TIDs, PIDs and lists. */
  lemma {:induction false} AgreeIgnoresStates(t: Tables, t': Tables)
    requires Agree(t)
    requires |t'.threads| == |t.threads| && t'.nextTid == t.nextTid && t'.nextPid == t.nextPid
    requires t'.pending.creating == t.pending.creating
    requires forall i | 0 <= i < |t.threads| ::
      t'.threads[i].tid == t.threads[i].tid && t'.threads[i].pid == t.threads[i].pid
    requires t'.processes.Keys == t.processes.Keys
    requires forall p | p in t.processes ::
      t'.processes[p].pid == t.processes[p].pid && t'.processes[p].threads == t.processes[p].threads
    ensures Agree(t')
  {
    forall p, k | p in t'.processes && 0 <= k < |t'.processes[p].threads|
      ensures Names(t'.threads, t'.processes[p].threads[k], p)
    {
      assert Names(t.threads, t.processes[p].threads[k], p);
      NamesStill(t, t', t.processes[p].threads[k], p);
    }
    forall p: nat
      ensures StageOk(t', p)
    {
      assert StageOk(t, p);
      if IsSpawned(t, p) {
        NamesStill(t, t', t.pending.creating[p].tid, p);
      }
    }
    forall p: nat, q: nat
      ensures DrawnApart(t', p, q)
    {
      assert DrawnApart(t, p, q);
    }
  }

  lemma {:induction false} NamesStill(t: Tables, t': Tables, tid: nat, p: nat)
    requires Names(t.threads, tid, p) && |t'.threads| >= |t.threads|
    requires forall i | 0 <= i < |t.threads| ::
      t'.threads[i].tid == t.threads[i].tid && t'.threads[i].pid == t.threads[i].pid
    ensures Names(t'.threads, tid, p)
  {
    var i :| 0 <= i < |t.threads| && t.threads[i].tid == tid && t.threads[i].pid == p;
    assert t'.threads[i].tid == tid;
  }

  /** Preparing a switch rotates the queue and touches no other field of any thread. */
  lemma {:induction false} PrepareSwitchRotates(t: Tables)
    requires InRange(Queue(t))
    ensures SameThreads(t.threads, PrepareSwitch(t).threads)
    ensures Queue(PrepareSwitch(t)) == Rotate(Queue(t))
  {
    RotateKeepsLength(Queue(t));
  }
}
