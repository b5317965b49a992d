/** Scheduling over whole runs: who runs when, who is reclaimed when, and that no assertion fails. */
module KernelOrder {
  import opened KernelState
  import opened KernelPlaces
  import opened KernelLocks
  import opened KernelSteps
  import opened KernelActs
  import opened KernelInterrupt
  import opened KernelRuns

  /** How many of the steps `i` up to `j` go through the scheduler. */
  ghost function Switches(ks: seq<Kernel>, es: seq<Event>, i: nat, j: nat): nat
    requires i <= j <= |es| && |es| < |ks|
  {
    if i == j then 0 else Switches(ks, es, i, j - 1) + if Yields(ks[j - 1], es[j - 1]) then 1 else 0
  }

  /** What every step does, seen through its two halves. */
  ghost predicate Stepped(k: Kernel, a: Kernel, k': Kernel, switch: bool) {
    && Keeps(k, a) && Sched(a) && Inv(k')
    && (if switch then Rescheduled(a, k') && SameSync(a, k') else k' == a)
  }

  lemma StepExact(k: Kernel, e: Event)
    requires Inv(k) && Enabled(k, e)
    ensures Stepped(k, Act(k, e), Step(k, e), Yields(k, e))
  {
    hide Inv, Sched, Keeps, SyncOk, Act, Step, Yields, Rescheduled, SameSync, Reschedule, Enabled;
    StepSplits(k, e);
    StepInv(k, e);
    ActSound(k, e);
    ActKeeps(k, e);
    if Yields(k, e) {
      RescheduleExact(Act(k, e));
      RescheduleSync(Act(k, e));
    }
  }

  lemma RunStep(ks: seq<Kernel>, es: seq<Event>, i: nat)
    requires IsRun(ks, es) && i < |es|
    ensures Inv(ks[i]) && Enabled(ks[i], es[i]) && ks[i + 1] == Step(ks[i], es[i])
    ensures Stepped(ks[i], Act(ks[i], es[i]), ks[i + 1], Yields(ks[i], es[i]))
  {
    hide Inv, Act, Step, Enabled, Yields, Stepped, Init;
    RunInv(ks, es, i);
    StepExact(ks[i], es[i]);
  }

  /** The clock counts the passes through the scheduler. */
  lemma {:induction false} TicksCountSwitches(ks: seq<Kernel>, es: seq<Event>, i: nat, j: nat)
    requires IsRun(ks, es) && i <= j <= |es|
    ensures ks[j].ticks == ks[i].ticks + Switches(ks, es, i, j)
  {
    hide Act, Step, Enabled, Yields, Init, Stepped;
    if i < j {
      TicksCountSwitches(ks, es, i, j - 1);
      RunStep(ks, es, j - 1);
      StepTicks(ks[j - 1], Act(ks[j - 1], es[j - 1]), ks[j], Yields(ks[j - 1], es[j - 1]));
    }
  }

  lemma StepTicks(k: Kernel, a: Kernel, k': Kernel, switch: bool)
    requires Stepped(k, a, k', switch)
    ensures k'.ticks == k.ticks + if switch then 1 else 0
  {
    hide Inv, Sched, SameSync;
  }

  // ---------------------------------------------------------------- fairness

  /** `t` is ready with `b` threads nearer the tail of the ready list. */
  predicate Behind(k: Kernel, t: Tcb, b: nat) {
    b < |k.ready| && k.ready[|k.ready| - 1 - b] == t
  }

  lemma ReadyStep(k: Kernel, a: Kernel, k': Kernel, switch: bool, t: Tcb, b: nat)
    requires Stepped(k, a, k', switch) && Behind(k, t, b)
    ensures !switch ==> Behind(k', t, b)
    ensures switch && b > 0 ==> Behind(k', t, b - 1)
    ensures switch && b == 0 ==> k'.current == t
  {
    hide Inv, Sched, SameSync, KeepsThread;
    SuffixAt(a.ready, k.ready, b);
    if switch && b > 0 {
      var front := a.ready[..|a.ready| - 1];
      assert front[|front| - b] == t;
      SuffixAt(k'.ready, front, b - 1);
    }
  }

  lemma SuffixAt<T>(s: seq<T>, t: seq<T>, b: nat)
    requires EndsWith(s, t) && b < |t|
    ensures s[|s| - 1 - b] == t[|t| - 1 - b]
  {
    assert t[|t| - 1 - b] == s[|s| - |t|..][|t| - 1 - b];
  }

  /** A ready thread with `b` threads nearer the tail is dispatched by exactly the (b+1)-th following pass through the
      scheduler: until then it is in the ready list, moved up once by each pass, whatever else happens. */
  lemma {:induction false} DispatchedInOrder(ks: seq<Kernel>, es: seq<Event>, i: nat, j: nat, t: Tcb, b: nat)
    requires IsRun(ks, es) && i <= j <= |es| && Behind(ks[i], t, b)
    ensures Switches(ks, es, i, j) <= b ==> Behind(ks[j], t, b - Switches(ks, es, i, j)) && ks[j].current != t
    ensures j < |es| && Switches(ks, es, i, j) == b && Yields(ks[j], es[j]) ==>
      ks[j + 1].current == t && At(ks[j + 1], t).status == Running
  {
    hide Inv, Stepped, Act, Step, Enabled, Yields, Init, Behind;
    if i < j {
      DispatchedInOrder(ks, es, i, j - 1, t, b);
      RunStep(ks, es, j - 1);
      if Switches(ks, es, i, j) <= b {
        ReadyStep(ks[j - 1], Act(ks[j - 1], es[j - 1]), ks[j], Yields(ks[j - 1], es[j - 1]), t,
          b - Switches(ks, es, i, j - 1));
      }
    }
    RunInv(ks, es, j);
    if Switches(ks, es, i, j) <= b { ReadyNotCurrent(ks[j], t, b - Switches(ks, es, i, j)); }
    if j < |es| && Switches(ks, es, i, j) == b && Yields(ks[j], es[j]) {
      RunStep(ks, es, j);
      ReadyStep(ks[j], Act(ks[j], es[j]), ks[j + 1], true, t, 0);
      YieldRuns(ks[j], es[j]);
    }
  }

  lemma ReadyNotCurrent(k: Kernel, t: Tcb, b: nat)
    requires Inv(k) && Behind(k, t, b)
    ensures k.current != t
  {
    hide QueuesOk, BirthsOk, PlacesOk, AllOk, NoDup, SyncOk;
    assert t in k.ready;
  }

  lemma YieldRuns(k: Kernel, e: Event)
    requires Inv(k) && Enabled(k, e) && Yields(k, e)
    ensures At(Step(k, e), Step(k, e).current).status == Running
  {
    hide Inv, Sched, SyncOk, Act, Step, Reschedule, Enabled, Yields, At;
    StepSplits(k, e);
    ActSound(k, e);
    RescheduleSched(Act(k, e));
  }

  // ---------------------------------------------------------------- dead threads

  /** Only `thread_exit` makes the running thread a zombie. */
  lemma ActZombie(k: Kernel, e: Event)
    requires Inv(k) && Enabled(k, e) && Yields(k, e)
    ensures At(Act(k, e), k.current).status == Zombie <==> e.Exit?
  {
    hide Sched, SyncOk, Release, WakeFirst, Reschedule, Acquire;
    SettledFacts(k);
    if e.CondWait? {
      hide Block;
      CondBlocked(k, e.cond, e.lock);
      ReleaseSync(Block(k, CondQueue(e.cond), InCond(e.cond, e.lock)), e.lock);
      BlockStatus(k, CondQueue(e.cond), InCond(e.cond, e.lock));
    }
  }

  lemma BlockStatus(k: Kernel, q: QueueId, pc: Pc)
    ensures At(Block(k, q, pc), k.current).status == Blocked
  {
  }

  /** The zombie list is the thread whose exit led to the last pass through the scheduler, if an exit did. */
  lemma ZombieStep(k: Kernel, e: Event)
    requires Inv(k) && Enabled(k, e)
    ensures !Yields(k, e) ==> Step(k, e).zombies == k.zombies && forall t :: t in k.threads ==> t in Step(k, e).threads
    ensures Yields(k, e) ==> Step(k, e).zombies == if e.Exit? then [k.current] else []
    ensures Yields(k, e) ==> forall t :: t in k.threads ==> (t in Step(k, e).threads <==> t !in k.zombies)
  {
    hide Inv, Sched, Act, Step, Enabled, Yields, SameSync, At;
    StepExact(k, e);
    if Yields(k, e) { ActZombie(k, e); }
  }

  /** Thread `t` exited in step `i`, and no step from then up to `j` went through the scheduler again. */
  ghost predicate ExitedAt(ks: seq<Kernel>, es: seq<Event>, i: nat, j: nat, t: Tcb)
    requires |es| < |ks| && j <= |es|
  {
    i < j && es[i] == Exit && ks[i].current == t && Switches(ks, es, i + 1, j) == 0
  }

  /** From its exit to the next pass through the scheduler a thread is the one zombie, and not running; that pass
      reclaims it. */
  lemma {:induction false} ExitedIsReclaimedNext(ks: seq<Kernel>, es: seq<Event>, i: nat, j: nat, t: Tcb)
    requires IsRun(ks, es) && j <= |es| && ExitedAt(ks, es, i, j, t)
    ensures ks[j].zombies == [t] && t in ks[j].all && t != ks[j].current && At(ks[j], t).status == Zombie
    ensures j < |es| && Yields(ks[j], es[j]) ==> t !in ks[j + 1].all && t !in ks[j + 1].threads
  {
    hide Inv, Stepped, Act, Step, Enabled, Init, Yields;
    RunStep(ks, es, j - 1);
    ZombieStep(ks[j - 1], es[j - 1]);
    if i + 1 < j {
      assert Switches(ks, es, i + 1, j - 1) == 0;
      ExitedIsReclaimedNext(ks, es, i, j - 1, t);
    } else {
      ExitYields(ks[i]);
    }
    RunInv(ks, es, j);
    ZombieThere(ks[j], t);
    if j < |es| && Yields(ks[j], es[j]) {
      RunStep(ks, es, j);
      ZombieStep(ks[j], es[j]);
      RunInv(ks, es, j + 1);
      AllAreThreads(ks[j + 1]);
    }
  }

  lemma ExitYields(k: Kernel)
    ensures Yields(k, Exit)
  {
  }

  lemma ZombieThere(k: Kernel, t: Tcb)
    requires Inv(k) && k.zombies == [t]
    ensures t in k.threads && t in k.all && t != k.current && At(k, t).status == Zombie
  {
    hide QueuesOk, BirthsOk, PlacesOk, NoDup, SyncOk;
    assert t in k.zombies;
  }

  lemma AllAreThreads(k: Kernel)
    requires Inv(k)
    ensures forall t :: t in k.all <==> t in k.threads
  {
    hide QueuesOk, BirthsOk, PlacesOk, NoDup, SyncOk, ListsOk;
  }

  /** There is never more than one zombie, and each one exited since the scheduler last ran before. */
  lemma {:induction false} ZombieExited(ks: seq<Kernel>, es: seq<Event>, j: nat)
    requires IsRun(ks, es) && j <= |es|
    ensures |ks[j].zombies| <= 1
    ensures forall t :: t in ks[j].zombies ==> exists i: nat :: ExitedAt(ks, es, i, j, t)
  {
    hide Inv, Stepped, Act, Step, Enabled, Yields;
    if j > 0 {
      RunStep(ks, es, j - 1);
      ZombieStep(ks[j - 1], es[j - 1]);
      ZombieExited(ks, es, j - 1);
      forall t | t in ks[j].zombies ensures exists i: nat :: ExitedAt(ks, es, i, j, t) {
        if Yields(ks[j - 1], es[j - 1]) {
          assert ExitedAt(ks, es, j - 1, j, t);
        } else {
          var i: nat :| ExitedAt(ks, es, i, j - 1, t);
          assert ExitedAt(ks, es, i, j, t);
        }
      }
    }
  }

  /** A thread's block is given back only by the pass through the scheduler that follows the thread's exit. */
  lemma ReclaimedHadExited(ks: seq<Kernel>, es: seq<Event>, j: nat, t: Tcb)
    requires IsRun(ks, es) && j < |es| && t in ks[j].threads && t !in ks[j + 1].threads
    ensures Yields(ks[j], es[j]) && exists i: nat :: ExitedAt(ks, es, i, j, t)
  {
    hide Inv, Stepped, Act, Step, Enabled, Init, Yields;
    RunStep(ks, es, j);
    ZombieStep(ks[j], es[j]);
    ZombieExited(ks, es, j);
  }

  // ---------------------------------------------------------------- the kernel's assertions

  /** What the kernel asserts of its lists: zombies are zombies and never idle, sleepers sleep, whoever can be woken
      from a queue is blocked, the thread to switch to is ready or is the current one and running, and the current
      thread has a status the scheduler knows how to park. */
  ghost predicate Asserted(k: Kernel) {
    && (forall t :: t in k.zombies ==> At(k, t).status == Zombie && t != k.idle)
    && (forall t :: t in k.sleeping ==> At(k, t).status == Sleeping)
    && (forall q, t :: t in Waiting(k, q) ==> At(k, t).status == Blocked)
    && k.current != 0 && At(k, k.current).status != Ready
    && At(k, Pick(k)).status == if Pick(k) == k.current then Running else Ready
  }

  lemma SchedAsserted(k: Kernel)
    requires Sched(k)
    ensures Asserted(k)
  {
    forall q, t | t in Waiting(k, q) ensures At(k, t).status == Blocked { WaitersBlocked(k, q); }
    PickAsserted(k);
    CurrentBorn(k);
    SchedCurrent(k);
    ReapFacts(k);
    ListsAsserted(k);
    hide Sched, Pick;
  }

  lemma ListsAsserted(k: Kernel)
    requires Sched(k)
    ensures forall t :: t in k.zombies ==> At(k, t).status == Zombie && t != k.idle
    ensures forall t :: t in k.sleeping ==> At(k, t).status == Sleeping
  {
    hide QueuesOk, BirthsOk, PlacesOk, NoDup;
  }

  /** No assertion of the scheduler or the primitives fails in any run: they hold between steps, before the tick, before
      the zombies are walked, and at the switch; and a release always has a level to give back. */
  lemma NoAssertionFails(ks: seq<Kernel>, es: seq<Event>, i: nat)
    requires IsRun(ks, es) && i < |es|
    ensures Asserted(ks[i])
    ensures var a := Act(ks[i], es[i]);
      Yields(ks[i], es[i]) ==> Asserted(a) && Asserted(Tick(a)) && Asserted(Reap(Tick(a), Tick(a).zombies))
    ensures es[i].MutexRelease? ==> Lock(ks[i], es[i].mutex).depth >= 1
    ensures es[i].CondWait? ==> Lock(ks[i], es[i].lock).depth >= 1
  {
    hide Init, Act, Step, Yields, Asserted, Sched, SyncOk, Stepped, Tick, Reap, Lock;
    RunStep(ks, es, i);
    SchedAsserted(ks[i]);
    var a := Act(ks[i], es[i]);
    ActSound(ks[i], es[i]);
    SchedAsserted(a);
    TickSched(a);
    SchedAsserted(Tick(a));
    ReapAllSched(Tick(a));
    SchedAsserted(Reap(Tick(a), Tick(a).zombies));
    ReleaseHasLevel(ks[i], es[i]);
  }

  lemma ReleaseHasLevel(k: Kernel, e: Event)
    requires Inv(k) && Enabled(k, e)
    ensures e.MutexRelease? ==> Lock(k, e.mutex).depth >= 1
    ensures e.CondWait? ==> Lock(k, e.lock).depth >= 1
  {
    hide Sched, SemsOk, CallsOk, LockOk;
    SettledFacts(k);
    if e.MutexRelease? {
      LockAt(k, e.mutex);
      LockRecurse(k.threads, k.queues[MutexQueue(e.mutex)], k.counts[MutexQueue(e.mutex)], e.mutex, k.mutexes[e.mutex]);
    } else if e.CondWait? {
      LockAt(k, e.lock);
      LockRecurse(k.threads, k.queues[MutexQueue(e.lock)], k.counts[MutexQueue(e.lock)], e.lock, k.mutexes[e.lock]);
    }
  }
}
