/** Condition variables over whole runs: no lost wake-up, and what a waiter holds while it waits and when it is back. */
module KernelCond {
  import opened KernelState
  import opened KernelPlaces
  import opened KernelLocks
  import opened KernelSteps
  import opened KernelActs
  import opened KernelRuns
  import opened KernelOrder
  import opened KernelQueues
  import opened KernelMutex

  // ---------------------------------------------------------------- condition variables

  /** A waiter is in the condition variable's queue from the very step that lets the mutex go, so a wake-up by any
      thread that has had the mutex since then finds it there: with `p` older waiters, the (p+1)-th wake-up makes it
      ready. */
  lemma NoLostWakeup(ks: seq<Kernel>, es: seq<Event>, c: nat, m: nat, i: nat, j: nat)
    requires IsRun(ks, es) && i < j <= |es| && es[i] == CondWait(c, m)
    requires WakeUps(ks, es, CondQueue(c), i + 1, j) <= |Waiting(ks[i], CondQueue(c))|
    ensures var t, q := ks[i].current, CondQueue(c);
      var p := |Waiting(ks[i], q)| - WakeUps(ks, es, q, i + 1, j);
      && p < |Waiting(ks[j], q)| && Waiting(ks[j], q)[p] == t && At(ks[j], t).status == Blocked
      && (j < |es| && p < Wakes(ks[j], es[j], q) ==> At(ks[j + 1], t).status in {Ready, Running})
  {
    hide Inv, Stepped, Act, Step, Enabled, Init, Yields, At;
    RunStep(ks, es, i);
    StepQueue(ks[i], es[i], CondQueue(c));
    WaitJoins(ks[i], c, m);
    hide QueueAfter, Wakes, Waiting;
    ServedInOrder(ks, es, CondQueue(c), i + 1, j, |Waiting(ks[i], CondQueue(c))|, ks[i].current);
  }

  lemma WaitJoins(k: Kernel, c: nat, m: nat)
    ensures QueueAfter(k, CondWait(c, m), CondQueue(c)) == Waiting(k, CondQueue(c)) + [k.current]
  {
  }

  /** Inside `condvar_wait` on `c`, called at recursion count `d`: the mutex is let go if `d` is 1, else held
      at `d - 1`. */
  ghost predicate InWait(k: Kernel, t: Tcb, c: nat, m: nat, d: nat) {
    && PcOf(k.threads, t) == InCond(c, m) && m in k.mutexes
    && if d <= 1 then Lock(k, m).owner != t else Lock(k, m) == Mutex(t, d - 1, t)
  }

  lemma InWaitStep(k: Kernel, e: Event, t: Tcb, c: nat, m: nat, d: nat)
    requires Inv(k) && Enabled(k, e) && InWait(k, t, c, m, d) && d >= 1 && t != 0
    requires !(t == k.current && e == CondReturn)
    ensures InWait(Step(k, e), t, c, m, d)
  {
    PcStep(k, e, t);
    StepLock(k, e, m);
    OwnerStep(k, e, m);
    HeirNotInWait(k, t, c, m);
    StepInv(k, e);
    CallKnown(Step(k, e), t, c, m);
    hide Inv, Step, LetsGo;
    if t == k.current { assert LockAfter(k, Irq, m) == Lock(k, m); }
    else { hide Enabled, LockAfter; }
  }

  lemma HeirNotInWait(k: Kernel, t: Tcb, c: nat, m: nat)
    requires Inv(k) && PcOf(k.threads, t) == InCond(c, m) && t != 0
    ensures Heir(k, MutexQueue(m)) != t
  {
    hide Sched, SyncOk;
    if MutexQueue(m) in k.queues { QueueFacts(k, MutexQueue(m)); }
  }

  lemma CallKnown(k: Kernel, t: Tcb, c: nat, m: nat)
    requires Inv(k) && PcOf(k.threads, t) == InCond(c, m)
    ensures m in k.mutexes
  {
    assert Known(k.mutexes, PcOf(k.threads, t));
    hide Sched, LocksOk, SemsOk;
  }

  lemma WaitEntered(k: Kernel, c: nat, m: nat)
    requires Inv(k) && Enabled(k, CondWait(c, m))
    ensures Lock(k, m).depth >= 1 && InWait(Step(k, CondWait(c, m)), k.current, c, m, Lock(k, m).depth)
  {
    hide Inv, Step, Heir, Waiting, PcOf, Contended;
    var k' := Step(k, CondWait(c, m));
    StepInv(k, CondWait(c, m));
    StepLock(k, CondWait(c, m), m);
    RunnerSees(k, m);
    HeirNotRunner(k, MutexQueue(m));
    WaitPc(k, c, m);
    CallKnown(k', k.current, c, m);
  }

  lemma HeirNotRunner(k: Kernel, q: QueueId)
    requires Inv(k)
    ensures Heir(k, q) != k.current
  {
    SettledFacts(k);
    hide Sched, SyncOk;
    if q in k.queues { RunnerNotQueued(k, q); }
  }

  lemma WaitPc(k: Kernel, c: nat, m: nat)
    requires Inv(k) && Enabled(k, CondWait(c, m))
    ensures PcOf(Step(k, CondWait(c, m)).threads, k.current) == InCond(c, m)
  {
    hide Sched, SyncOk, Block, Release, Reschedule;
    SchedCurrent(k);
    CondBlocked(k, c, m);
    var k1 := Block(k, CondQueue(c), InCond(c, m));
    ReleaseSync(k1, m);
    RescheduleSync(Release(k1, m));
    SchedCurrent(Release(k1, m));
  }

  /** The end of the wait: the mutex is acquired again, to the recursion count of the call, or asked for. */
  lemma WaitLeft(k: Kernel, c: nat, m: nat, d: nat)
    requires Inv(k) && Enabled(k, CondReturn) && InWait(k, k.current, c, m, d) && d >= 1
    ensures var k' := Step(k, CondReturn);
      if d > 1 || Lock(k, m).owner == 0 then Lock(k', m) == Mutex(k.current, d, k.current)
        && PcOf(k'.threads, k.current) == Client
      else PcOf(k'.threads, k.current) == InAcquire(m) && Lock(k', m) == Lock(k, m)
  {
    hide Inv, Step, Contended, Waiting, PcOf;
    RunnerPc(k);
    StepLock(k, CondReturn, m);
    RunnerSees(k, m);
    LeftPc(k);
  }

  lemma LeftPc(k: Kernel)
    requires Inv(k) && Enabled(k, CondReturn)
    ensures var m := At(k, k.current).pc.lock;
      PcOf(Step(k, CondReturn).threads, k.current) == if Contended(k, m) then InAcquire(m) else Client
  {
    hide Inv, Step, Reschedule;
    StepPcs(k, CondReturn, k.current);
    var k1, m := SetPc(k, k.current, Client), At(k, k.current).pc.lock;
    assert Contended(k1, m) == Contended(k, m);
    RequestPc(k1, m);
  }

  /** During `condvar_wait` the mutex is let go exactly if it was held once, else it is held one level less; the return
      from the wait brings it back to the recursion count of the call, or blocks when another thread has the mutex. */
  lemma {:induction false} WaitKeepsRecursion(ks: seq<Kernel>, es: seq<Event>, c: nat, m: nat, i: nat, j: nat)
    requires IsRun(ks, es) && i < j <= |es| && es[i] == CondWait(c, m)
    requires forall l :: i < l < j && ks[l].current == ks[i].current ==> es[l] != CondReturn
    ensures var t, d := ks[i].current, Lock(ks[i], m).depth;
      && d >= 1 && t != 0 && InWait(ks[j], t, c, m, d)
      && (j < |es| && es[j] == CondReturn && ks[j].current == t ==>
            if d > 1 || Lock(ks[j], m).owner == 0
            then Lock(ks[j + 1], m) == Mutex(t, d, t) && PcOf(ks[j + 1].threads, t) == Client
            else PcOf(ks[j + 1].threads, t) == InAcquire(m))
  {
    hide Inv, Stepped, Act, Step, Enabled, Init, Yields, InWait, Lock, PcOf;
    var t, d := ks[i].current, Lock(ks[i], m).depth;
    RunStep(ks, es, j - 1);
    RunStep(ks, es, i);
    SettledThere(ks[i]);
    if j == i + 1 {
      WaitEntered(ks[i], c, m);
    } else {
      WaitKeepsRecursion(ks, es, c, m, i, j - 1);
      InWaitStep(ks[j - 1], es[j - 1], t, c, m, d);
    }
    if j < |es| && es[j] == CondReturn && ks[j].current == t {
      RunStep(ks, es, j);
      WaitLeft(ks[j], c, m, d);
    }
  }

  lemma {:induction false} WaitEnds(ks: seq<Kernel>, es: seq<Event>, c: nat, m: nat, t: Tcb, d: nat, i: nat, j: nat)
    requires IsRun(ks, es) && i < j <= |es| && InWait(ks[i], t, c, m, d) && d >= 1 && t != 0 && CallEnds(ks, t, i, j)
    ensures Lock(ks[j], m) == Mutex(t, d, t) && ks[j].current == t
    decreases j - i
  {
    hide Inv, Stepped, Act, Step, Enabled, Init, Yields, InWait, Lock, PcOf;
    RunStep(ks, es, i);
    InWaitPc(ks[i], t, c, m, d);
    if t == ks[i].current && es[i] == CondReturn {
      WaitLeft(ks[i], c, m, d);
      if PcOf(ks[i + 1].threads, t) == Client {
        assert j == i + 1;
        ReturnKeepsCurrent(ks[i], c, m, d);
      } else {
        AcquireEnds(ks, es, t, m, i + 1, j);
      }
    } else {
      InWaitStep(ks[i], es[i], t, c, m, d);
      InWaitPc(ks[i + 1], t, c, m, d);
      WaitEnds(ks, es, c, m, t, d, i + 1, j);
    }
  }

  lemma InWaitPc(k: Kernel, t: Tcb, c: nat, m: nat, d: nat)
    requires InWait(k, t, c, m, d)
    ensures PcOf(k.threads, t) == InCond(c, m)
  {
  }

  lemma ReturnKeepsCurrent(k: Kernel, c: nat, m: nat, d: nat)
    requires Inv(k) && Enabled(k, CondReturn) && InWait(k, k.current, c, m, d)
    requires PcOf(Step(k, CondReturn).threads, k.current) == Client
    ensures Step(k, CondReturn).current == k.current
  {
    hide Inv, Step, Act, Reschedule, Contended, PcOf;
    LeftPc(k);
    StepSplits(k, CondReturn);
    ActKeeps(k, CondReturn);
    RunnerPc(k);
    ReturnYields(k);
  }

  lemma ReturnYields(k: Kernel)
    requires At(k, k.current).pc.InCond?
    ensures Yields(k, CondReturn) <==> Contended(k, At(k, k.current).pc.lock)
  {
  }

  /** However the wait ends, with the mutex free, still held or taken by another thread in the meantime: when the caller
      of `condvar_wait` is back in its own code it holds the mutex at the recursion count it called with. */
  lemma WaitEndsHolding(ks: seq<Kernel>, es: seq<Event>, c: nat, m: nat, i: nat, j: nat)
    requires IsRun(ks, es) && i < j <= |es| && es[i] == CondWait(c, m) && CallEnds(ks, ks[i].current, i + 1, j)
    ensures Lock(ks[j], m) == Mutex(ks[i].current, Lock(ks[i], m).depth, ks[i].current)
      && ks[j].current == ks[i].current
  {
    hide Inv, Stepped, Act, Step, Enabled, Init, Yields, InWait, Lock, PcOf;
    RunStep(ks, es, i);
    SettledThere(ks[i]);
    WaitEntered(ks[i], c, m);
    InWaitPc(ks[i + 1], ks[i].current, c, m, Lock(ks[i], m).depth);
    assert j > i + 1;
    WaitEnds(ks, es, c, m, ks[i].current, Lock(ks[i], m).depth, i + 1, j);
  }

  /** `condvar_wait` lets the mutex go exactly if the caller holds it once: it releases one level only. */
  lemma WaitReleasesIffHeldOnce(k: Kernel, c: nat, m: nat)
    requires Inv(k) && Enabled(k, CondWait(c, m))
    ensures Lock(Step(k, CondWait(c, m)), m).owner != k.current <==> Lock(k, m).depth == 1
  {
    hide Inv, Step, Enabled, PcOf;
    WaitEntered(k, c, m);
  }

  /** The main thread with one mutex, held `depth` times, and one condition variable. */
  function Example(k: Kernel, depth: nat): Kernel {
    k.(queues := map[MutexQueue(1) := [], CondQueue(2) := []],
      counts := map[MutexQueue(1) := if depth == 0 then 1 else 0],
       mutexes := map[1 := if depth == 0 then Mutex(0, 0, 0) else Mutex(k.current, depth, k.current)])
  }

  lemma ExampleMade(k: Kernel)
    requires Init(k)
    ensures Enabled(k, NewMutex(1)) && Enabled(Step(k, NewMutex(1)), NewCond(2))
    ensures Step(Step(k, NewMutex(1)), NewCond(2)) == Example(k, 0)
  {
    var k1 := Step(k, NewMutex(1));
    assert k1 == k.(queues := map[MutexQueue(1) := []], counts := map[MutexQueue(1) := 1],
      mutexes := map[1 := Mutex(0, 0, 0)]);
  }

  lemma ExampleHeld(k: Kernel, depth: nat)
    requires Init(k)
    ensures Enabled(Example(k, depth), MutexAcquire(1))
    ensures Step(Example(k, depth), MutexAcquire(1)) == Example(k, depth + 1)
  {
    hide Block, Reschedule;
    var x := Example(k, depth);
    assert At(x, x.current).pc == Client;
    assert Lock(x, 1) == x.mutexes[1] && CountOf(x, MutexQueue(1)) == x.counts[MutexQueue(1)];
  }

  lemma ExampleInv(k: Kernel)
    requires Init(k)
    ensures Inv(Example(k, 2))
  {
    hide Step, Inv, Enabled, Example, Init;
    InitInv(k);
    ExampleMade(k);
    StepInv(k, NewMutex(1));
    StepInv(Step(k, NewMutex(1)), NewCond(2));
    ExampleHeld(k, 0);
    StepInv(Example(k, 0), MutexAcquire(1));
    ExampleHeld(k, 1);
    StepInv(Example(k, 1), MutexAcquire(1));
  }

  lemma ExampleWaits(k: Kernel)
    requires Init(k)
    ensures Enabled(Example(k, 2), CondWait(2, 1))
    ensures var k' := Step(Example(k, 2), CondWait(2, 1));
      Lock(k', 1).holder == k.current && k.current in Waiting(k', CondQueue(2))
  {
    var x := Example(k, 2);
    assert Enabled(x, CondWait(2, 1)) && Lock(x, 1).depth == 2 && x.current == k.current;
    ExampleInv(k);
    hide Step, Inv, Enabled, Example, Init;
    WaitEntered(x, 2, 1);
    StepQueue(x, CondWait(2, 1), CondQueue(2));
    WaitJoins(x, 2, 1);
  }

  /** A run that ends with a thread asleep on a condition variable and still holding the mutex. */
  lemma WaitMayKeepMutex(k: Kernel)
    requires Init(k)
    ensures var es := [NewMutex(1), NewCond(2), MutexAcquire(1), MutexAcquire(1), CondWait(2, 1)];
      exists ks :: IsRun(ks, es) && Lock(ks[5], 1).holder == k.current && k.current in Waiting(ks[5], CondQueue(2))
  {
    hide Step, Enabled, Example, Init, Lock, Waiting;
    ExampleMade(k);
    ExampleHeld(k, 0);
    ExampleHeld(k, 1);
    ExampleWaits(k);
    var ks := [k, Step(k, NewMutex(1)), Example(k, 0), Example(k, 1), Example(k, 2),
      Step(Example(k, 2), CondWait(2, 1))];
    assert IsRun(ks, [NewMutex(1), NewCond(2), MutexAcquire(1), MutexAcquire(1), CondWait(2, 1)]);
  }
}
