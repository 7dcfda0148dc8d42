/**
 The round-robin policy of kernel/src/scheduler.rs, seen only through the
 states of the threads and the `current` index. Everything the policy promises
 (nearest Ready thread, fair period, bounded waiting, exits are final) is
 proved here for every queue; `Kernel` and `Runs` show that the whole kernel
 moves its queue by these moves and no others.
 */
module Scheduling {
  import opened Arithmetic
  import opened Common

  datatype ThreadState = Ready | Running | Blocked | Exited

  datatype RunQueue = RunQueue(states: seq<ThreadState>, current: nat)

  // ---------------------------------------------------------------------
  // Cyclic arithmetic without division
  // ---------------------------------------------------------------------

  /** The slot `d` places after `c` on a ring of `n` slots. */
  function Ahead(c: nat, d: nat, n: nat): (j: nat)
    requires c < n && d <= n
    ensures j < n
  {
    if c + d < n then c + d else c + d - n
  }

  /** How many places after `c` the slot `j` comes. */
  function Distance(c: nat, j: nat, n: nat): (d: nat)
    requires c < n && j < n
    ensures d < n && Ahead(c, d, n) == j
  {
    if c <= j then j - c else j + n - c
  }

  /** The two functions above are the modular sum and difference of the source. */
  lemma {:induction false} RingIsModular(c: nat, d: nat, j: nat, n: nat)
    requires c < n && d < n && j < n
    ensures Ahead(c, d, n) == (c + d) % n
    ensures Distance(c, j, n) == (j - c) % n
  {
    ModOnce(c + d, n);
    ModOnce(j + n - c, n);
    if c <= j {
      ModOnce(j - c, n);
    } else {
      ModShift(j - c, n);
    }
  }

  lemma {:induction false} ModOnce(x: nat, n: nat)
    requires 0 < n && x < 2 * n
    ensures x % n == if x < n then x else x - n
  {
    if x >= n {
      assert x == n * 1 + (x - n);
      DivModUnique(x, n, 1, x - n);
    }
  }

  lemma {:induction false} ModShift(x: int, n: nat)
    requires 0 < n && 0 <= x + n < n
    ensures x % n == x + n
  {
    DivModUnique(x, n, -1, x + n);
  }

  /** Distances measured from another slot of the ring. */
  lemma {:induction false} Rebase(o: nat, c: nat, j: nat, n: nat)
    requires o < n && c < n && j < n
    ensures var dc, dj := Distance(o, c, n), Distance(o, j, n);
      Distance(c, j, n) == if dc <= dj then dj - dc else dj + n - dc
  {
  }

  // ---------------------------------------------------------------------
  // The policy
  // ---------------------------------------------------------------------

  predicate InRange(q: RunQueue) {
    q.current < |q.states|
  }

  /** The first Ready slot at distance `d` or more after `current`. */
  function ReadyFrom(q: RunQueue, d: nat): (r: Option<nat>)
    requires InRange(q) && 1 <= d <= |q.states|
    decreases |q.states| - d
    ensures r == None ==>
      forall k | d <= k < |q.states| :: q.states[Ahead(q.current, k, |q.states|)] != Ready
    ensures r.Some? ==> r.value < |q.states| && q.states[r.value] == Ready
    ensures r.Some? ==> d <= Distance(q.current, r.value, |q.states|)
    ensures r.Some? ==> forall k | d <= k < Distance(q.current, r.value, |q.states|) ::
      q.states[Ahead(q.current, k, |q.states|)] != Ready
  {
    var n := |q.states|;
    if d == n then None
    else
      var j := Ahead(q.current, d, n);
      if q.states[j] == Ready then Some(j) else ReadyFrom(q, d + 1)
  }

  function NextReady(q: RunQueue): Option<nat>
    requires InRange(q) || q.states == []
  {
    if |q.states| <= 1 then None else ReadyFrom(q, 1)
  }

  /** The effect of one tick on the queue. */
  function Rotate(q: RunQueue): RunQueue
    requires InRange(q) || q.states == []
  {
    match NextReady(q)
    case None => q
    case Some(j) =>
      var parked := if q.states[q.current] == Running then q.states[q.current := Ready] else q.states;
      RunQueue(parked[j := Running], j)
  }

  ghost predicate Waiting(q: RunQueue, j: nat) {
    j < |q.states| && j != q.current && q.states[j] == Ready
  }

  /** `j` is the waiting slot that comes first after `current` on the ring. */
  ghost predicate Nearest(q: RunQueue, j: nat)
    requires InRange(q)
  {
    && Waiting(q, j)
    && forall k | Waiting(q, k) ::
      Distance(q.current, j, |q.states|) <= Distance(q.current, k, |q.states|)
  }

  /** The scan finds a thread exactly when one is waiting, and it is the nearest one. */
  lemma {:induction false} NextReadyIsNearest(q: RunQueue)
    requires InRange(q)
    ensures NextReady(q) == None <==> forall j :: !Waiting(q, j)
    ensures forall j: nat :: NextReady(q) == Some(j) <==> Nearest(q, j)
  {
    var n, c := |q.states|, q.current;
    forall j | Waiting(q, j)
      ensures NextReady(q).Some?
      ensures Distance(c, NextReady(q).value, n) <= Distance(c, j, n)
    {
      assert q.states[Ahead(c, Distance(c, j, n), n)] == Ready;
    }
    if NextReady(q).Some? {
      var r := NextReady(q).value;
      assert Nearest(q, r);
      forall j | Nearest(q, j)
        ensures j == r
      {
        assert Distance(c, j, n) == Distance(c, r, n);
        assert Ahead(c, Distance(c, j, n), n) == Ahead(c, Distance(c, r, n), n);
      }
    }
  }

  // ---------------------------------------------------------------------
  // What every move keeps
  // ---------------------------------------------------------------------

  /** At most one Running thread and it is `current`; nobody is ever Blocked. */
  ghost predicate OneRunner(q: RunQueue) {
    && InRange(q)
    && q.states[q.current] in {Running, Exited}
    && forall j | 0 <= j < |q.states| && j != q.current :: q.states[j] in {Ready, Exited}
  }

  datatype Move = Tick | Spawn | Retire

  /** `Retire` also covers every kernel step that leaves the queue alone. */
  ghost predicate Moves(a: RunQueue, m: Move, b: RunQueue)
    requires InRange(a)
  {
    match m
    case Tick => b == Rotate(a)
    case Spawn => b == RunQueue(a.states + [Ready], a.current)
    case Retire =>
      && b.current == a.current
      && |b.states| == |a.states|
      && forall j | 0 <= j < |a.states| :: b.states[j] in {a.states[j], Exited}
  }

  ghost predicate History(qs: seq<RunQueue>, ms: seq<Move>) {
    && |qs| == |ms| + 1
    && (forall i | 0 <= i < |qs| :: InRange(qs[i]))
    && (forall i {:trigger ms[i]} | 0 <= i < |ms| :: Moves(qs[i], ms[i], qs[i + 1]))
  }

  /** A tick switches exactly when someone waits, to the nearest one, never to itself;
      every state but those of the two threads involved stays as it was. */
  lemma {:induction false} TickSwitches(q: RunQueue)
    requires OneRunner(q)
    ensures OneRunner(Rotate(q))
    ensures Rotate(q).current != q.current <==> exists j :: Waiting(q, j)
    ensures Rotate(q).current == q.current ==> Rotate(q) == q
    ensures Rotate(q).current != q.current ==>
      && Nearest(q, Rotate(q).current)
      && Rotate(q).states[Rotate(q).current] == Running
      && Rotate(q).states[q.current] == (if q.states[q.current] == Running then Ready else Exited)
      && forall j | 0 <= j < |q.states| && j != q.current && j != Rotate(q).current ::
        Rotate(q).states[j] == q.states[j]
  {
    NextReadyIsNearest(q);
    if NextReady(q).Some? {
      assert Nearest(q, NextReady(q).value);
    }
  }

  lemma {:induction false} MoveKeepsOneRunner(a: RunQueue, m: Move, b: RunQueue)
    requires OneRunner(a) && Moves(a, m, b)
    ensures OneRunner(b) && |a.states| <= |b.states|
  {
    if m == Tick {
      TickSwitches(a);
    }
  }

  lemma {:induction false} MoveKeepsExited(a: RunQueue, m: Move, b: RunQueue, j: nat)
    requires OneRunner(a) && Moves(a, m, b)
    requires j < |a.states| && a.states[j] == Exited
    ensures j < |b.states| && b.states[j] == Exited && (a.current != j ==> b.current != j)
  {
    if m == Tick {
      TickSwitches(a);
    }
  }

  lemma {:induction false} AlwaysOneRunner(qs: seq<RunQueue>, ms: seq<Move>, k: nat)
    requires History(qs, ms) && OneRunner(qs[0]) && k < |qs|
    ensures OneRunner(qs[k])
  {
    if k > 0 {
      AlwaysOneRunner(qs, ms, k - 1);
      assert Moves(qs[k - 1], ms[k - 1], qs[k]);
      MoveKeepsOneRunner(qs[k - 1], ms[k - 1], qs[k]);
    }
  }

  /** In every later queue an Exited thread is still Exited and, once it is not current,
      it is never current again. */
  lemma {:induction false} ExitIsFinal(qs: seq<RunQueue>, ms: seq<Move>, i: nat, k: nat, j: nat)
    requires History(qs, ms) && OneRunner(qs[0])
    requires i <= k < |qs| && j < |qs[i].states| && qs[i].states[j] == Exited
    ensures j < |qs[k].states| && qs[k].states[j] == Exited
    ensures qs[i].current != j ==> qs[k].current != j
    decreases k
  {
    if i < k {
      ExitIsFinal(qs, ms, i, k - 1, j);
      AlwaysOneRunner(qs, ms, k - 1);
      assert Moves(qs[k - 1], ms[k - 1], qs[k]);
      MoveKeepsExited(qs[k - 1], ms[k - 1], qs[k], j);
    }
  }

  /** An Exited current thread is left for good by the first tick that finds someone waiting. */
  lemma {:induction false} ExitedCurrentLeavesForGood(qs: seq<RunQueue>, ms: seq<Move>, i: nat, k: nat)
    requires History(qs, ms) && OneRunner(qs[0])
    requires i < k < |qs|
    requires ms[i] == Tick && qs[i].states[qs[i].current] == Exited
    requires exists j :: Waiting(qs[i], j)
    ensures qs[k].current != qs[i].current
  {
    AlwaysOneRunner(qs, ms, i);
    assert Moves(qs[i], ms[i], qs[i + 1]);
    TickSwitches(qs[i]);
    MoveKeepsExited(qs[i], ms[i], qs[i + 1], qs[i].current);
    ExitIsFinal(qs, ms, i + 1, k, qs[i].current);
  }

  // ---------------------------------------------------------------------
  // Bounded waiting
  // ---------------------------------------------------------------------

  /** How many of the first `k` moves are `m`. */
  function Count(ms: seq<Move>, k: nat, m: Move): nat
    requires k <= |ms|
  {
    if k == 0 then 0 else Count(ms, k - 1, m) + if ms[k - 1] == m then 1 else 0
  }

  /** One move of the waiting argument: a tick brings `j` nearer, only a spawn can push it
      away, and by one slot at most. */
  lemma {:induction false} WaitingStep(a: RunQueue, m: Move, b: RunQueue, j: nat)
    requires OneRunner(a) && Waiting(a, j) && Moves(a, m, b)
    requires b.current != j
    requires j < |b.states| ==> b.states[j] != Exited
    ensures OneRunner(b) && Waiting(b, j)
    ensures Distance(b.current, j, |b.states|) + (if m == Tick then 1 else 0)
         <= Distance(a.current, j, |a.states|) + (if m == Spawn then 1 else 0)
  {
    MoveKeepsOneRunner(a, m, b);
    if m == Tick {
      TickSwitches(a);
      Rebase(a.current, b.current, j, |a.states|);
    }
  }

  /** The distance left plus the ticks used never exceeds the first distance plus the spawns. */
  lemma {:induction false} WaitingBudget(qs: seq<RunQueue>, ms: seq<Move>, j: nat, k: nat)
    requires History(qs, ms) && OneRunner(qs[0]) && Waiting(qs[0], j)
    requires k < |qs|
    requires forall i | 0 <= i <= k :: qs[i].current != j
    requires forall i | 0 <= i <= k && j < |qs[i].states| :: qs[i].states[j] != Exited
    ensures OneRunner(qs[k]) && Waiting(qs[k], j)
    ensures Distance(qs[k].current, j, |qs[k].states|) + Count(ms, k, Tick)
         <= Distance(qs[0].current, j, |qs[0].states|) + Count(ms, k, Spawn)
  {
    if k > 0 {
      WaitingBudget(qs, ms, j, k - 1);
      assert Moves(qs[k - 1], ms[k - 1], qs[k]);
      WaitingStep(qs[k - 1], ms[k - 1], qs[k], j);
    }
  }

  lemma {:induction false} FirstTurn(qs: seq<RunQueue>, j: nat, from: nat) returns (i: nat)
    requires exists k :: from <= k < |qs| && qs[k].current == j
    ensures from <= i < |qs| && qs[i].current == j
    ensures forall k | from <= k < i :: qs[k].current != j
    decreases |qs| - from
  {
    i := from;
    if qs[from].current != j {
      i := FirstTurn(qs, j, from + 1);
    }
  }

  ghost predicate NeverExits(qs: seq<RunQueue>, j: nat) {
    forall k | 0 <= k < |qs| && j < |qs[k].states| :: qs[k].states[j] != Exited
  }

  lemma {:induction false} SomeTurn(qs: seq<RunQueue>, ms: seq<Move>, j: nat)
    requires History(qs, ms) && OneRunner(qs[0]) && Waiting(qs[0], j) && NeverExits(qs, j)
    requires Count(ms, |ms|, Tick) >= Distance(qs[0].current, j, |qs[0].states|) + Count(ms, |ms|, Spawn)
    ensures exists k :: 0 <= k < |qs| && qs[k].current == j
  {
    if forall k | 0 <= k < |qs| :: qs[k].current != j {
      WaitingBudget(qs, ms, j, |ms|);
    }
  }

  lemma {:induction false} TurnInTime(qs: seq<RunQueue>, ms: seq<Move>, j: nat, i: nat)
    requires History(qs, ms) && OneRunner(qs[0]) && Waiting(qs[0], j) && NeverExits(qs, j)
    requires i < |qs| && qs[i].current == j
    requires forall k | 0 <= k < i :: qs[k].current != j
    ensures 0 < i
    ensures Count(ms, i, Tick) <= Distance(qs[0].current, j, |qs[0].states|) + Count(ms, i, Spawn)
  {
    WaitingBudget(qs, ms, j, i - 1);
  }

  /** A waiting thread that does not exit becomes current within its ring distance plus
      the number of spawns, counted in ticks, whatever else exits or spawns meanwhile. */
  lemma {:induction false} BoundedWaiting(qs: seq<RunQueue>, ms: seq<Move>, j: nat) returns (i: nat)
    requires History(qs, ms) && OneRunner(qs[0]) && Waiting(qs[0], j) && NeverExits(qs, j)
    requires Count(ms, |ms|, Tick) >= Distance(qs[0].current, j, |qs[0].states|) + Count(ms, |ms|, Spawn)
    ensures 0 < i < |qs| && qs[i].current == j
    ensures forall k | 0 <= k < i :: qs[k].current != j
    ensures Count(ms, i, Tick) <= Distance(qs[0].current, j, |qs[0].states|) + Count(ms, i, Spawn)
  {
    SomeTurn(qs, ms, j);
    i := FirstTurn(qs, j, 0);
    TurnInTime(qs, ms, j, i);
  }

  function SpawnTickPairs(k: nat): (ms: seq<Move>)
    ensures |ms| == 2 * k
  {
    if k == 0 then [] else SpawnTickPairs(k - 1) + [Spawn, Tick]
  }

  /** The spawn term is needed: from any queue whose last slot is current, any number of
      spawn-then-tick pairs runs only the newcomers. */
  lemma {:induction false} SpawnsStarve(q: RunQueue, j: nat, k: nat) returns (qs: seq<RunQueue>)
    requires OneRunner(q) && q.current == |q.states| - 1 && j < q.current
    ensures History(qs, SpawnTickPairs(k)) && qs[0] == q
    ensures forall i | 0 <= i < |qs| :: qs[i].current != j
    ensures var z := qs[|qs| - 1]; OneRunner(z) && z.current == |z.states| - 1 && j < z.current
  {
    if k == 0 {
      qs := [q];
    } else {
      var before := SpawnsStarve(q, j, k - 1);
      var z := before[|before| - 1];
      var spawned := RunQueue(z.states + [Ready], z.current);
      MoveKeepsOneRunner(z, Spawn, spawned);
      NextReadyIsNearest(spawned);
      assert Nearest(spawned, |z.states|);
      TickSwitches(spawned);
      qs := before + [spawned, Rotate(spawned)];
      var ms := SpawnTickPairs(k);
      forall i | 0 <= i < |ms|
        ensures Moves(qs[i], ms[i], qs[i + 1])
      {
        if i < 2 * k - 2 {
          assert Moves(before[i], SpawnTickPairs(k - 1)[i], before[i + 1]);
        }
      }
    }
  }

  /** Such a queue is reached from boot: after two ticks the idle thread waits for ever
      while spawn-then-tick pairs go on. */
  lemma {:induction false} BootQueueStarves(k: nat) returns (qs: seq<RunQueue>)
    ensures History(qs, [Tick, Tick] + SpawnTickPairs(k))
    ensures qs[0] == RunQueue([Running, Ready, Ready], 0)
    ensures Waiting(qs[1], 0)
    ensures forall i | 1 <= i < |qs| :: qs[i].current != 0
  {
    var q0 := RunQueue([Running, Ready, Ready], 0);
    var q1 := RunQueue([Ready, Running, Ready], 1);
    var q2 := RunQueue([Ready, Ready, Running], 2);
    assert Rotate(q0) == q1;
    assert Rotate(q1) == q2;
    var rest := SpawnsStarve(q2, 0, k);
    qs := [q0, q1] + rest;
    var ms := [Tick, Tick] + SpawnTickPairs(k);
    forall i | 0 <= i < |ms|
      ensures Moves(qs[i], ms[i], qs[i + 1])
    {
      if i >= 2 {
        assert Moves(rest[i - 2], SpawnTickPairs(k)[i - 2], rest[i - 1]);
      }
    }
  }

  // ---------------------------------------------------------------------
  // The round-robin period
  // ---------------------------------------------------------------------

  function Ticks(q: RunQueue, k: nat): (r: RunQueue)
    requires InRange(q)
    ensures InRange(r)
  {
    if k == 0 then q else Rotate(Ticks(q, k - 1))
  }

  ghost function LiveSet(q: RunQueue): set<nat> {
    set j: nat | j < |q.states| && q.states[j] != Exited
  }

  /** The slots of `r` come one after the other on the ring, starting from `current`. */
  ghost predicate RingOrdered(q: RunQueue, r: seq<nat>)
    requires InRange(q)
  {
    && (forall a | 0 <= a < |r| :: r[a] < |q.states|)
    && forall a, b | 0 <= a < b < |r| ::
      Distance(q.current, r[a], |q.states|) < Distance(q.current, r[b], |q.states|)
  }

  /** The live slots at distance `d` or more after `current`, in ring order. */
  function LiveFrom(q: RunQueue, d: nat): seq<nat>
    requires InRange(q) && d <= |q.states|
    decreases |q.states| - d
  {
    if d == |q.states| then []
    else
      var j := Ahead(q.current, d, |q.states|);
      if q.states[j] != Exited then [j] + LiveFrom(q, d + 1) else LiveFrom(q, d + 1)
  }

  lemma {:induction false} LiveFromOrdered(q: RunQueue, d: nat)
    requires InRange(q) && d <= |q.states|
    ensures RingOrdered(q, LiveFrom(q, d))
    ensures forall a | 0 <= a < |LiveFrom(q, d)| ::
      q.states[LiveFrom(q, d)[a]] != Exited && d <= Distance(q.current, LiveFrom(q, d)[a], |q.states|)
    decreases |q.states| - d
  {
    if d < |q.states| {
      LiveFromOrdered(q, d + 1);
    }
  }

  lemma {:induction false} LiveFromComplete(q: RunQueue, d: nat, j: nat)
    requires InRange(q) && d <= |q.states|
    requires j < |q.states| && q.states[j] != Exited && d <= Distance(q.current, j, |q.states|)
    ensures j in LiveFrom(q, d)
    decreases |q.states| - d
  {
    if d < Distance(q.current, j, |q.states|) {
      LiveFromComplete(q, d + 1, j);
    }
  }

  ghost function Elements(s: seq<nat>): set<nat> {
    set x | x in s
  }

  lemma {:induction false} DistinctCount(s: seq<nat>)
    requires forall a, b | 0 <= a < b < |s| :: s[a] != s[b]
    ensures |Elements(s)| == |s|
  {
    if s != [] {
      var init, last := s[..|s| - 1], s[|s| - 1];
      DistinctCount(init);
      assert s == init + [last];
      assert Elements(s) == Elements(init) + {last};
      assert last !in Elements(init);
    }
  }

  /** Along a ring-ordered list the next entry, wrapping at the end, is the nearest other one. */
  lemma {:induction false} NextInOrder(q: RunQueue, order: seq<nat>, k: nat, a: nat)
    requires InRange(q) && RingOrdered(q, order)
    requires k < |order| && a < |order| && a != k
    ensures var next := order[if k + 1 < |order| then k + 1 else 0];
      && next != order[k]
      && Distance(order[k], next, |q.states|) <= Distance(order[k], order[a], |q.states|)
  {
    var z := if k + 1 < |order| then k + 1 else 0;
    Rebase(q.current, order[k], order[a], |q.states|);
    Rebase(q.current, order[k], order[z], |q.states|);
    assert a == z || a < k || k < z < a || z < a < k || (z < k && a < k);
  }

  lemma {:induction false} NearestRotates(q: RunQueue, next: nat)
    requires InRange(q) && Nearest(q, next) && q.states[q.current] == Running
    ensures Rotate(q) == RunQueue(q.states[q.current := Ready][next := Running], next)
  {
    NextReadyIsNearest(q);
    assert NextReady(q) == Some(next);
  }

  lemma {:induction false} NobodyWaits(q: RunQueue)
    requires InRange(q) && forall j :: !Waiting(q, j)
    ensures Rotate(q) == q
  {
    NextReadyIsNearest(q);
  }

  /** `order` lists exactly the live slots, in ring order from `current`. */
  ghost predicate ListsLive(q: RunQueue, order: seq<nat>)
    requires InRange(q)
  {
    && RingOrdered(q, order)
    && (forall a | 0 <= a < |order| :: q.states[order[a]] != Exited)
    && (forall j: nat | j < |q.states| && q.states[j] != Exited :: j in order)
  }

  /** The queue in the middle of a period: slot `c` runs, every other live slot is Ready. */
  function Midway(q: RunQueue, c: nat): RunQueue
    requires InRange(q) && c < |q.states|
  {
    RunQueue(q.states[q.current := Ready][c := Running], c)
  }

  lemma {:induction false} WaitersAreListed(q: RunQueue, order: seq<nat>, k: nat, j: nat) returns (a: nat)
    requires OneRunner(q) && q.states[q.current] == Running
    requires ListsLive(q, order) && k < |order|
    requires Waiting(Midway(q, order[k]), j)
    ensures a < |order| && a != k && order[a] == j
  {
    assert q.states[j] != Exited;
    assert j in order;
    a :| 0 <= a < |order| && order[a] == j;
  }

  lemma {:induction false} NextIsNearest(q: RunQueue, order: seq<nat>, k: nat)
    requires OneRunner(q) && q.states[q.current] == Running
    requires ListsLive(q, order) && k < |order| && |order| > 1
    ensures Nearest(Midway(q, order[k]), order[if k + 1 < |order| then k + 1 else 0])
  {
    var here := Midway(q, order[k]);
    var next := order[if k + 1 < |order| then k + 1 else 0];
    NextInOrder(q, order, k, if k == 0 then 1 else 0);
    assert q.states[next] != Exited;
    forall j | Waiting(here, j)
      ensures Distance(here.current, next, |here.states|) <= Distance(here.current, j, |here.states|)
    {
      var a := WaitersAreListed(q, order, k, j);
      NextInOrder(q, order, k, a);
    }
  }

  /** One tick of the period: from the k-th live slot to the next, wrapping at the end. */
  lemma {:induction false} PeriodStep(q: RunQueue, order: seq<nat>, k: nat)
    requires OneRunner(q) && q.states[q.current] == Running
    requires ListsLive(q, order) && k < |order|
    ensures Rotate(Midway(q, order[k])) == Midway(q, order[if k + 1 < |order| then k + 1 else 0])
  {
    var here := Midway(q, order[k]);
    if |order| == 1 {
      forall j | Waiting(here, j)
        ensures false
      {
        var a := WaitersAreListed(q, order, k, j);
      }
      NobodyWaits(here);
    } else {
      NextIsNearest(q, order, k);
      NearestRotates(here, order[if k + 1 < |order| then k + 1 else 0]);
      assert here.states[here.current := Ready] == q.states[q.current := Ready];
    }
  }

  /** After k ticks of a period the k-th live thread in ring order runs and nothing else
      has changed; a full period brings the whole queue back. */
  lemma {:induction false} RoundRobin(q: RunQueue, order: seq<nat>, k: nat)
    requires OneRunner(q) && q.states[q.current] == Running
    requires ListsLive(q, order) && k <= |order|
    ensures |order| > 0 && order[0] == q.current
    ensures k < |order| ==> Ticks(q, k) == Midway(q, order[k])
    ensures k == |order| ==> Ticks(q, k) == q
  {
    assert q.current in order;
    var z :| 0 <= z < |order| && order[z] == q.current;
    assert !(Distance(q.current, order[0], |q.states|) < Distance(q.current, order[z], |q.states|));
    assert q.states[q.current := Ready][q.current := Running] == q.states;
    if k > 0 {
      RoundRobin(q, order, k - 1);
      PeriodStep(q, order, k - 1);
    }
  }

  lemma {:induction false} LiveOrder(q: RunQueue) returns (order: seq<nat>)
    requires InRange(q)
    ensures ListsLive(q, order)
    ensures Elements(order) == LiveSet(q) && |order| == |LiveSet(q)|
  {
    order := LiveFrom(q, 0);
    LiveFromOrdered(q, 0);
    forall j: nat | j < |q.states| && q.states[j] != Exited
      ensures j in order
    {
      LiveFromComplete(q, 0, j);
    }
    DistinctCount(order);
    assert Elements(order) == LiveSet(q);
  }

  /** With L live threads and a Running current one, L ticks run each live thread exactly
      once, in ring order, and end in the very same queue. */
  lemma {:induction false} RoundRobinPeriod(q: RunQueue) returns (order: seq<nat>)
    requires OneRunner(q) && q.states[q.current] == Running
    ensures Elements(order) == LiveSet(q) && |order| == |LiveSet(q)|
    ensures RingOrdered(q, order)
    ensures forall k | 0 <= k < |order| :: Ticks(q, k).current == order[k]
    ensures forall a, b | 0 <= a < b < |order| :: order[a] != order[b]
    ensures Ticks(q, |LiveSet(q)|) == q
  {
    order := LiveOrder(q);
    RoundRobin(q, order, |order|);
    forall k | 0 <= k < |order|
      ensures Ticks(q, k).current == order[k]
    {
      RoundRobin(q, order, k);
    }
  }

  /** A history in which nothing but ticks changes the queue. */
  ghost predicate QuietHistory(qs: seq<RunQueue>, ms: seq<Move>) {
    && |qs| == |ms| + 1
    && (forall i | 0 <= i < |qs| :: InRange(qs[i]))
    && (forall i {:trigger ms[i]} | 0 <= i < |ms| :: qs[i + 1] == if ms[i] == Tick then Rotate(qs[i]) else qs[i])
  }

  lemma {:induction false} QuietIsTicks(qs: seq<RunQueue>, ms: seq<Move>, k: nat)
    requires QuietHistory(qs, ms) && k < |qs|
    ensures qs[k] == Ticks(qs[0], Count(ms, k, Tick))
  {
    if k > 0 {
      QuietIsTicks(qs, ms, k - 1);
      assert qs[k] == if ms[k - 1] == Tick then Rotate(qs[k - 1]) else qs[k - 1];
    }
  }
}
