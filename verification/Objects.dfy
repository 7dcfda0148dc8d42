/**
 The kernel's own objects, updated in place as the source updates them, each method
 proved against the value functions that `Registry` and `Kernel` reason about.
 */
module Objects {
  import opened Common
  import opened Machine
  import opened Scheduling
  import opened Registry
  import opened Kernel

  // ---------------------------------------------------------------------
  // Block stores, word by word
  // ---------------------------------------------------------------------

  lemma {:induction false} SevenStores(m: Memory, a: int, w0: Word, w1: Word, w2: Word, w3: Word, w4: Word, w5: Word,
                                       w6: Word)
    ensures StoreBlock(m, a, [w0, w1, w2, w3, w4, w5, w6]) ==
      m[a := w0][a + 8 := w1][a + 16 := w2][a + 24 := w3][a + 32 := w4][a + 40 := w5][a + 48 := w6]
  {
    StoreFirst(m, a, w0, [w1, w2, w3, w4, w5, w6]);
    var m1 := m[a := w0];
    StoreFirst(m1, a + 8, w1, [w2, w3, w4, w5, w6]);
    var m2 := m1[a + 8 := w1];
    StoreFirst(m2, a + 16, w2, [w3, w4, w5, w6]);
    var m3 := m2[a + 16 := w2];
    StoreFirst(m3, a + 24, w3, [w4, w5, w6]);
    var m4 := m3[a + 24 := w3];
    StoreFirst(m4, a + 32, w4, [w5, w6]);
    var m5 := m4[a + 32 := w4];
    StoreFirst(m5, a + 40, w5, [w6]);
    StoreFirst(m5[a + 40 := w5], a + 48, w6, []);
  }

  lemma {:induction false} StoreFirst(m: Memory, a: int, w: Word, ws: seq<Word>)
    ensures StoreBlock(m, a, [w] + ws) == StoreBlock(m[a := w], a + 8, ws)
    ensures [w] + ws == [w] ==> StoreBlock(m, a, [w] + ws) == m[a := w]
  {
    assert ([w] + ws)[1..] == ws;
  }

  /** Pushing six words and the return address before them makes the same block. */
  lemma {:induction false} SevenPushes(m: Memory, a: int, c: Callee, ret: Word)
    ensures StoreBlock(m, a, FrameWords(c, ret)) ==
      m[a + 48 := ret][a + 40 := c.rbx][a + 32 := c.rbp][a + 24 := c.r12][a + 16 := c.r13][a + 8 := c.r14][a := c.r15]
  {
    assert FrameWords(c, ret) == [c.r15, c.r14, c.r13, c.r12, c.rbp, c.rbx, ret];
    SevenStores(m, a, c.r15, c.r14, c.r13, c.r12, c.rbp, c.rbx, ret);
  }

  lemma {:induction false} PushesMakeBlock(m: Memory, rsp: int, c: Callee, ret: Word)
    requires rsp in m && m[rsp] == ret
    ensures StoreBlock(m, rsp - 48, FrameWords(c, ret)) ==
      m[rsp - 8 := c.rbx][rsp - 16 := c.rbp][rsp - 24 := c.r12][rsp - 32 := c.r13][rsp - 40 := c.r14][rsp - 48 := c.r15]
  {
    SevenPushes(m, rsp - 48, c, ret);
    assert m[rsp := ret] == m;
  }

  // ---------------------------------------------------------------------
  // The processor
  // ---------------------------------------------------------------------

  class Processor {
    var rbx: Word
    var rbp: Word
    var r12: Word
    var r13: Word
    var r14: Word
    var r15: Word
    var scratch: seq<Word>
    var rsp: Word
    var rip: Word
    var rflags: Word
    var mem: Memory

    constructor (cpu: Cpu)
      ensures View() == cpu
    {
      rbx, rbp, r12 := cpu.callee.rbx, cpu.callee.rbp, cpu.callee.r12;
      r13, r14, r15 := cpu.callee.r13, cpu.callee.r14, cpu.callee.r15;
      scratch, rsp, rip, rflags, mem := cpu.scratch, cpu.rsp, cpu.rip, cpu.rflags, cpu.mem;
    }

    function View(): Cpu
      reads this
    {
      Cpu(Callee(rbx, rbp, r12, r13, r14, r15), scratch, rsp, rip, rflags, mem)
    }

    method Push(w: Word)
      requires 8 <= rsp
      modifies this`rsp, this`mem
      ensures rsp == old(rsp) - 8 && mem == old(mem)[old(rsp) - 8 := w]
    {
      rsp := rsp - 8;
      mem := mem[rsp := w];
    }

    method Pop() returns (w: Word)
      requires rsp + 8 < WORD_LIMIT
      modifies this`rsp
      ensures w == Load(mem, old(rsp)) && rsp == old(rsp) + 8
    {
      w := Load(mem, rsp);
      rsp := rsp + 8;
    }

    /** The six pushes of `context_switch`. */
    method PushCallee()
      requires 48 <= rsp
      modifies this`rsp, this`mem
      ensures rsp == old(rsp) - 48
      ensures var a := old(rsp);
        mem == old(mem)[a - 8 := rbx][a - 16 := rbp][a - 24 := r12][a - 32 := r13][a - 40 := r14][a - 48 := r15]
    {
      Push(rbx);
      Push(rbp);
      Push(r12);
      Push(r13);
      Push(r14);
      Push(r15);
    }

    /** The six pops of `context_switch`. */
    method PopCallee()
      requires rsp + 48 < WORD_LIMIT
      modifies this`r15, this`r14, this`r13, this`r12, this`rbp, this`rbx, this`rsp
      ensures Callee(rbx, rbp, r12, r13, r14, r15) == CalleeAt(mem, old(rsp)) && rsp == old(rsp) + 48
    {
      r15 := Pop();
      r14 := Pop();
      r13 := Pop();
      r12 := Pop();
      rbp := Pop();
      rbx := Pop();
    }

    /** The stack change, the six pops and `ret`: the second half of `context_switch`. */
    method Resume(a: Word)
      requires a + 56 < WORD_LIMIT
      modifies this`r15, this`r14, this`r13, this`r12, this`rbp, this`rbx, this`rsp, this`rip
      ensures View() == SwitchIn(old(View()), a)
    {
      rsp := a;
      PopCallee();
      rip := Pop();
    }
  }

  lemma {:induction false} MarkFirstAt(threads: seq<Thread>, tid: nat, i: nat)
    requires i <= |threads| && forall k | 0 <= k < i :: threads[k].tid != tid
    requires i < |threads| ==> threads[i].tid == tid
    ensures MarkFirst(threads, tid) ==
      if i < |threads| then threads[i := threads[i].(state := Exited)] else threads
    decreases i
  {
    if i > 0 {
      assert forall k | 0 <= k < i - 1 :: threads[1..][k] == threads[k + 1];
      MarkFirstAt(threads[1..], tid, i - 1);
    }
  }

  // ---------------------------------------------------------------------
  // The scheduler
  // ---------------------------------------------------------------------

  class Scheduler {
    var threads: seq<Thread>
    var current: nat
    var nextTid: nat

    constructor ()
      ensures threads == [] && current == 0 && nextTid == 1
    {
      threads, current, nextTid := [], 0, 1;
    }

    ghost predicate Valid()
      reads this
    {
      threads == [] || current < |threads|
    }

    function Slots(): RunQueue
      reads this
    {
      RunQueue(States(threads), current)
    }

    method AddThread(tcb: Thread)
      modifies this`threads
      ensures threads == old(threads) + [tcb]
    {
      threads := threads + [tcb];
    }

    /** Round robin: scans the other slots in ring order, starting after `current`. */
    method NextReadyThread() returns (r: Option<nat>)
      requires Valid()
      ensures r == NextReady(Slots())
      ensures r == None <==> forall j :: !Waiting(Slots(), j)
      ensures r.Some? ==> InRange(Slots()) && Nearest(Slots(), r.value)
    {
      var n := |threads|;
      if n <= 1 {
        return None;
      }
      NextReadyIsNearest(Slots());
      var i := 1;
      while i < n
        invariant 1 <= i <= n
        invariant NextReady(Slots()) == ReadyFrom(Slots(), i)
      {
        var idx := (current + i) % n;
        RingIsModular(current, i, current, n);
        if threads[idx].state == Ready {
          return Some(idx);
        }
        i := i + 1;
      }
      return None;
    }

    /** Returns the indices of the contexts to switch between, if there is a switch. */
    method PrepareSwitch() returns (r: Option<(nat, nat)>)
      requires Valid()
      modifies this`threads, this`current
      ensures Valid() && |threads| == |old(threads)|
      ensures Slots() == Rotate(old(Slots()))
      ensures threads == WithStates(old(threads), Rotate(old(Slots())).states)
      ensures r == None <==> NextReady(old(Slots())) == None
      ensures r.Some? ==> r.value == (old(current), current) && current < |threads| && old(current) < |threads|
    {
      ghost var q := Slots();
      ghost var before := threads;
      var next := NextReadyThread();
      if next == None {
        assert threads == WithStates(before, Rotate(q).states);
        return None;
      }
      var nextIdx, currentIdx := next.value, current;
      if threads[currentIdx].state == Running {
        threads := threads[currentIdx := threads[currentIdx].(state := Ready)];
      }
      threads := threads[nextIdx := threads[nextIdx].(state := Running)];
      current := nextIdx;
      assert States(threads) == Rotate(q).states;
      assert threads == WithStates(before, Rotate(q).states);
      return Some((currentIdx, nextIdx));
    }

    /** Marks the first thread carrying `tid`, if there is one. */
    method MarkExited(tid: nat)
      modifies this`threads
      ensures threads == MarkFirst(old(threads), tid)
    {
      var i := 0;
      while i < |threads|
        invariant i <= |threads| && threads == old(threads)
        invariant forall k | 0 <= k < i :: threads[k].tid != tid
      {
        if threads[i].tid == tid {
          MarkFirstAt(threads, tid, i);
          threads := threads[i := threads[i].(state := Exited)];
          return;
        }
        i := i + 1;
      }
      MarkFirstAt(threads, tid, i);
    }

    /** A new thread on the zeroed stack at `base`, and its TID. */
    method SpawnThread(cpu: Processor, i: Image, pid: nat, entry: Word, base: int) returns (tid: nat)
      requires 0 < base && base + KERNEL_STACK_SIZE < WORD_LIMIT
      modifies this`threads, this`nextTid, cpu`mem
      ensures tid == old(nextTid) && nextTid == old(nextTid) + 1
      ensures threads == old(threads) + [Thread(tid, pid, Ready, TaskContext(StackTop(base) - 56),
                                                Stack(base, base + 16384))]
      ensures cpu.mem == InitialMemory(old(cpu.mem), base, entry, i.trampoline)
      ensures Load(cpu.mem, StackTop(base) - 32) == entry && Load(cpu.mem, StackTop(base) - 8) == i.trampoline
      ensures forall a | base <= a < base + 16384 && !(StackTop(base) - 56 <= a < StackTop(base)) ::
        Load(cpu.mem, a) == 0
      ensures forall a | a < base || base + 16384 <= a :: Load(cpu.mem, a) == Load(old(cpu.mem), a)
    {
      InitialFrame(cpu.mem, base, entry, i.trampoline);
      tid := nextTid;
      nextTid := nextTid + 1;
      cpu.mem := Zeroed(cpu.mem, base, base + KERNEL_STACK_SIZE);
      ghost var zeroed := cpu.mem;

      var stackTop := base + KERNEL_STACK_SIZE;
      stackTop := stackTop - stackTop % 16;
      var rsp := stackTop - 7 * 8;
      cpu.mem := cpu.mem[rsp := 0];                   // r15
      cpu.mem := cpu.mem[rsp + 8 := 0];               // r14
      cpu.mem := cpu.mem[rsp + 16 := 0];              // r13
      cpu.mem := cpu.mem[rsp + 24 := entry];          // r12
      cpu.mem := cpu.mem[rsp + 32 := 0];              // rbp
      cpu.mem := cpu.mem[rsp + 40 := 0];              // rbx
      cpu.mem := cpu.mem[rsp + 48 := i.trampoline];   // return address
      SevenStores(zeroed, rsp, 0, 0, 0, entry, 0, 0, i.trampoline);
      assert FrameWords(InitialCallee(entry), i.trampoline) == [0, 0, 0, entry, 0, 0, i.trampoline];

      AddThread(Thread(tid, pid, Ready, TaskContext(rsp), Stack(base, base + KERNEL_STACK_SIZE)));
    }
  }

  // ---------------------------------------------------------------------
  // Switching and ticking
  // ---------------------------------------------------------------------

  /** The thirteen instructions of `context_switch`, entered with the return address on the
      stack. Saves into the context of thread `from`, loads that of thread `to`; the two may be
      the same. */
  method ContextSwitch(cpu: Processor, sched: Scheduler, from: nat, to: nat)
    requires from < |sched.threads| && to < |sched.threads|
    requires 48 <= cpu.rsp && cpu.rsp + 8 < WORD_LIMIT && cpu.rsp in cpu.mem
    requires to != from ==> sched.threads[to].context.rsp + 56 < WORD_LIMIT
    modifies cpu, sched`threads
    ensures sched.threads ==
      old(sched.threads)[from := old(sched.threads)[from].(context := TaskContext(old(cpu.rsp) - 48))]
    ensures cpu.mem == StoreBlock(old(cpu.mem), old(cpu.rsp) - 48,
                                  FrameWords(old(cpu.View()).callee, old(cpu.mem[cpu.rsp])))
    ensures cpu.View() == SwitchIn(old(cpu.View()).(mem := cpu.mem), sched.threads[to].context.rsp)
  {
    PushesMakeBlock(cpu.mem, cpu.rsp, cpu.View().callee, cpu.mem[cpu.rsp]);
    cpu.PushCallee();
    sched.threads := sched.threads[from := sched.threads[from].(context := TaskContext(cpu.rsp))];
    cpu.Resume(sched.threads[to].context.rsp);
  }
}
