/** Mutexes against the lives of threads. A thread is known by the address of its control block, and an address is used
    again once its thread has been reclaimed: what a new thread finds under its address. */
module KernelLives {
  import opened KernelState
  import opened KernelPlaces
  import opened KernelLocks
  import opened KernelSteps
  import opened KernelActs
  import opened KernelOrder
  import opened KernelMutex

  // ---------------------------------------------------------------- who is there

  lemma BlockAll(k: Kernel, q: QueueId, pc: Pc)
    ensures Block(k, q, pc).all == k.all
  {
  }

  lemma WakeFirstAll(k: Kernel, q: QueueId)
    ensures WakeFirst(k, q).all == k.all
  {
  }

  lemma ReleaseAll(k: Kernel, m: nat)
    ensures Release(k, m).all == k.all
  {
    hide WakeFirst;
    WakeFirstAll(AddCount(SetLock(k, m, Mutex(0, 0, Heir(k, MutexQueue(m)))), MutexQueue(m), 1), MutexQueue(m));
  }

  lemma RequestAll(k: Kernel, m: nat)
    ensures Request(k, m).all == k.all
  {
    hide Block, Reschedule;
    BlockAll(AddCount(k, MutexQueue(m), -1), MutexQueue(m), InAcquire(m));
  }

  lemma SemAll(k: Kernel, s: nat)
    ensures Act(k, SemDown(s)).all == k.all && Act(k, SemUp(s)).all == k.all
  {
    hide Block, WakeFirst;
    BlockAll(AddCount(k, SemQueue(s), -1), SemQueue(s), InSem(s));
    WakeFirstAll(AddCount(k, SemQueue(s), 1), SemQueue(s));
  }

  lemma CondAll(k: Kernel, c: nat, m: nat)
    ensures Act(k, CondWait(c, m)).all == k.all && Act(k, CondSignal(c)).all == k.all
  {
    hide Block, WakeFirst, Release;
    BlockAll(k, CondQueue(c), InCond(c, m));
    ReleaseAll(Block(k, CondQueue(c), InCond(c, m)), m);
    WakeFirstAll(k, CondQueue(c));
  }

  lemma BroadcastAll(k: Kernel, c: nat)
    ensures Act(k, CondBroadcast(c)).all == k.all
  {
    hide WakeAll, At, Waiting, Reversed;
    WakeAllOrder(k, CondQueue(c));
  }

  lemma MutexAll(k: Kernel, m: nat)
    ensures Act(k, MutexAcquire(m)).all == k.all && Act(k, MutexRelease(m)).all == k.all
  {
    hide Request, Release;
    RequestAll(k, m);
    ReleaseAll(k, m);
  }

  lemma ReturnAll(k: Kernel)
    ensures Act(k, CondReturn).all == k.all
  {
    hide Request;
    if At(k, k.current).pc.InCond? { RequestAll(SetPc(k, k.current, Client), At(k, k.current).pc.lock); }
  }

  lemma PublishAll(k: Kernel)
    ensures Act(k, Publish).all == k.all
  {
  }

  /** Only creation adds to all_threads before the interrupt. */
  lemma ActAll(k: Kernel, e: Event)
    requires !e.Create? && k.current in k.threads
    ensures Act(k, e).all == k.all
  {
    hide Act;
    match e {
      case SemDown(s) => SemAll(k, s);
      case SemUp(s) => SemAll(k, s);
      case CondWait(c, m) => CondAll(k, c, m);
      case CondSignal(c) => CondAll(k, c, 0);
      case CondBroadcast(c) => BroadcastAll(k, c);
      case CondReturn => ReturnAll(k);
      case MutexAcquire(m) => MutexAll(k, m);
      case MutexRelease(m) => MutexAll(k, m);
      case Publish => PublishAll(k);
      case _ => LocalActs(k, e);
    }
  }

  lemma ThreadsOf(k: Kernel)
    requires Sched(k)
    ensures forall t :: t in k.all <==> t in k.threads
  {
    hide QueuesOk, BirthsOk, PlacesOk, NoDup, ListsOk;
  }

  /** An address comes to life only by `thread_create`. */
  lemma OnlyCreated(k: Kernel, e: Event, t: Tcb)
    requires Inv(k) && Enabled(k, e) && t !in k.threads && t in Step(k, e).threads
    ensures e == Create(t)
  {
    if e.Create? {
      hide Inv;
    } else {
      hide Sched, SyncOk, Act, Step, Enabled, Yields, Keeps, SameSync;
      StepExact(k, e);
      SchedCurrent(k);
      ActAll(k, e);
      ThreadsOf(k);
      ThreadsOf(Act(k, e));
    }
  }

  // ---------------------------------------------------------------- recursion counts since creation

  /** Completed acquires of `m` by `t` less its releases, in the steps `i` up to `j`. */
  ghost function Gained(ks: seq<Kernel>, es: seq<Event>, t: Tcb, m: nat, i: nat, j: nat): int
    requires i <= j <= |es| < |ks|
  {
    if i == j then 0 else Gained(ks, es, t, m, i, j - 1) + Gain(ks[j - 1], es[j - 1], t, m)
  }

  lemma {:induction false} LevelSince(ks: seq<Kernel>, es: seq<Event>, t: Tcb, m: nat, i: nat, j: nat)
    requires IsRun(ks, es) && i <= j <= |es| && t != 0
    ensures Level(Lock(ks[j], m), t) == Level(Lock(ks[i], m), t) + Gained(ks, es, t, m, i, j)
  {
    hide Inv, Stepped, Act, Step, Enabled, Init, Yields, Gain, Level;
    if i < j {
      LevelSince(ks, es, t, m, i, j - 1);
      RunStep(ks, es, j - 1);
      LevelStep(ks[j - 1], es[j - 1], t, m);
    }
  }

  /** A dead holder's mutex is held, at least once. */
  lemma DeadHolderLevel(k: Kernel, t: Tcb, m: nat)
    requires Inv(k) && t !in k.threads && t != 0
    ensures Level(Lock(k, m), t) == 0 <==> Lock(k, m).holder != t
  {
    hide Sched, SemsOk, CallsOk;
    if m in k.mutexes { LockAt(k, m); }
  }

  lemma CreateLeavesLocks(k: Kernel, t: Tcb, m: nat)
    requires Inv(k) && Enabled(k, Create(t))
    ensures Lock(Step(k, Create(t)), m) == Lock(k, m) && t != 0 && t !in k.threads
  {
    hide Inv, Step;
    StepLock(k, Create(t), m);
  }

  /** From its creation on, a thread's recursion count is its completed acquires less its releases if and only if the
      mutex did not name its address as holder already. */
  lemma BalancedSinceCreation(ks: seq<Kernel>, es: seq<Event>, t: Tcb, m: nat, i: nat, j: nat)
    requires IsRun(ks, es) && i < j <= |es| && es[i] == Create(t)
    ensures Gained(ks, es, t, m, i + 1, j) == Level(Lock(ks[j], m), t) <==> Lock(ks[i], m).holder != t
  {
    hide Inv, Stepped, Act, Step, Enabled, Init, Yields, Lock, Level;
    RunStep(ks, es, i);
    CreateLeavesLocks(ks[i], t, m);
    DeadHolderLevel(ks[i], t, m);
    LevelSince(ks, es, t, m, i + 1, j);
  }

  // ---------------------------------------------------------------- threads that die holding

  /** Thread `t` exits in step `d` while it holds `m`, and its address is not used again up to step `i`. */
  ghost predicate DiedHolding(ks: seq<Kernel>, es: seq<Event>, t: Tcb, m: nat, d: nat, i: nat)
    requires i <= |es| < |ks|
  {
    && d < i && es[d] == Exit && ks[d].current == t && Lock(ks[d], m).holder == t
    && forall l :: d < l < i ==> es[l] != Create(t)
  }

  /** Others neither make a thread the holder nor take that away. */
  lemma HolderStep(k: Kernel, e: Event, t: Tcb, m: nat)
    requires Inv(k) && Enabled(k, e) && t != 0 && t != k.current
    ensures Lock(k, m).holder == t <==> Lock(Step(k, e), m).holder == t
  {
    hide Inv, Step, Enabled, Lock, LockAfter;
    StepLock(k, e, m);
    if Lock(Step(k, e), m).holder == t { HolderAfter(k, e, t, m); }
    if Lock(k, m).holder == t {
      HolderOwns(k, m);
      OwnerStep(k, e, m);
    }
  }

  lemma HolderAfter(k: Kernel, e: Event, t: Tcb, m: nat)
    requires t != 0 && t != k.current && LockAfter(k, e, m).holder == t
    ensures Lock(k, m).holder == t
  {
    hide Contended, Heir, At;
  }

  lemma HolderOwns(k: Kernel, m: nat)
    requires Inv(k) && Lock(k, m).holder != 0
    ensures m in k.mutexes && Lock(k, m).owner == Lock(k, m).holder
  {
    hide Sched, SemsOk, CallsOk;
    LockAt(k, m);
  }

  lemma ExitLeavesLocks(k: Kernel, m: nat)
    requires Inv(k) && Enabled(k, Exit)
    ensures Lock(Step(k, Exit), m) == Lock(k, m)
  {
    hide Inv, Step, Enabled;
    StepLock(k, Exit, m);
  }

  /** Dead: the one zombie, or already reclaimed. */
  ghost predicate Dead(k: Kernel, t: Tcb) {
    t != k.current && (k.zombies == [t] || t !in k.threads)
  }

  lemma DeadStep(k: Kernel, e: Event, t: Tcb)
    requires Inv(k) && Enabled(k, e) && Dead(k, t) && e != Create(t)
    ensures Dead(Step(k, e), t)
  {
    hide Inv, Step, Enabled, Act, Yields;
    StepInv(k, e);
    if t in Step(k, e).threads {
      if t !in k.threads { OnlyCreated(k, e, t); }
      ZombieStep(k, e);
      ZombieNotCurrent(Step(k, e));
    } else {
      RunnerThere(Step(k, e));
    }
  }

  lemma ZombieNotCurrent(k: Kernel)
    requires Inv(k)
    ensures k.current !in k.zombies
  {
    hide QueuesOk, BirthsOk, PlacesOk, NoDup, SyncOk, AllOk;
  }

  lemma RunnerThere(k: Kernel)
    requires Inv(k)
    ensures k.current in k.threads && k.current != 0
  {
    SettledFacts(k);
  }

  lemma ExitDead(k: Kernel)
    requires Inv(k) && Enabled(k, Exit)
    ensures Dead(Step(k, Exit), k.current)
  {
    hide Inv, Step, Enabled;
    StepInv(k, Exit);
    ZombieStep(k, Exit);
    ExitYields(k);
    ZombieNotCurrent(Step(k, Exit));
  }

  /** As long as its address is not used again a thread that died holding stays the holder. */
  lemma {:induction false} DeadStaysHolder(ks: seq<Kernel>, es: seq<Event>, t: Tcb, m: nat, d: nat, i: nat)
    requires IsRun(ks, es) && i <= |es| && DiedHolding(ks, es, t, m, d, i)
    ensures Lock(ks[i], m).holder == t && Dead(ks[i], t) && t != 0
  {
    hide Inv, Stepped, Act, Step, Enabled, Init, Yields, Lock, Dead;
    RunStep(ks, es, i - 1);
    RunStep(ks, es, d);
    RunnerThere(ks[d]);
    if i == d + 1 {
      ExitLeavesLocks(ks[d], m);
      ExitDead(ks[d]);
    } else {
      DeadStaysHolder(ks, es, t, m, d, i - 1);
      DeadElsewhere(ks[i - 1], t);
      HolderStep(ks[i - 1], es[i - 1], t, m);
      DeadStep(ks[i - 1], es[i - 1], t);
    }
  }

  lemma DeadElsewhere(k: Kernel, t: Tcb)
    requires Dead(k, t)
    ensures t != k.current
  {
  }

  /** Who holds at `j` held at `i` if it did not run in between. */
  lemma {:induction false} HeldBefore(ks: seq<Kernel>, es: seq<Event>, t: Tcb, m: nat, i: nat, j: nat)
    requires IsRun(ks, es) && i <= j <= |es| && t != 0 && Lock(ks[j], m).holder == t
    requires forall l :: i <= l < j ==> ks[l].current != t
    ensures Lock(ks[i], m).holder == t
  {
    hide Inv, Stepped, Act, Step, Enabled, Init, Yields, Lock;
    if i < j {
      RunStep(ks, es, j - 1);
      HolderStep(ks[j - 1], es[j - 1], t, m);
      HeldBefore(ks, es, t, m, i, j - 1);
    }
  }

  /** The thread reclaimed in step `j` had died, holding whatever its address holds afterwards. */
  lemma ReclaimedDiedHolding(ks: seq<Kernel>, es: seq<Event>, t: Tcb, m: nat, j: nat) returns (d: nat)
    requires IsRun(ks, es) && j < |es| && t in ks[j].threads && t !in ks[j + 1].threads
    requires t != 0 && Lock(ks[j + 1], m).holder == t
    ensures DiedHolding(ks, es, t, m, d, j + 1)
  {
    hide Inv, Stepped, Act, Step, Enabled, Init, Yields, Lock;
    ReclaimedHadExited(ks, es, j, t);
    d :| ExitedAt(ks, es, d, j, t);
    forall l | d < l <= j ensures ks[l].current != t && es[l] != Create(t) {
      NoSwitchesBefore(ks, es, d + 1, l, j);
      ExitedIsReclaimedNext(ks, es, d, l, t);
      RunStep(ks, es, l);
      ThereNotCreated(ks[l], es[l], t);
    }
    HeldBefore(ks, es, t, m, d + 1, j + 1);
    RunStep(ks, es, d);
    ExitLeavesLocks(ks[d], m);
  }

  lemma ThereNotCreated(k: Kernel, e: Event, t: Tcb)
    requires Inv(k) && Enabled(k, e) && t in k.all
    ensures e != Create(t)
  {
    AllAreThreads(k);
    hide Inv;
  }

  lemma {:induction false} NoSwitchesBefore(ks: seq<Kernel>, es: seq<Event>, i: nat, l: nat, j: nat)
    requires i <= l <= j <= |es| < |ks| && Switches(ks, es, i, j) == 0
    ensures Switches(ks, es, i, l) == 0
  {
    hide Yields;
    if l < j { NoSwitchesBefore(ks, es, i, l, j - 1); }
  }

  lemma {:induction false} DeadHolderDied(ks: seq<Kernel>, es: seq<Event>, t: Tcb, m: nat, j: nat) returns (d: nat)
    requires IsRun(ks, es) && j <= |es| && t !in ks[j].threads && t != 0 && Lock(ks[j], m).holder == t
    ensures DiedHolding(ks, es, t, m, d, j)
  {
    hide Inv, Stepped, Act, Step, Enabled, Yields, Init, Lock;
    NobodyHoldsAtFirst(ks[0], m);
    assert j > 0;
    if t in ks[j - 1].threads {
      d := ReclaimedDiedHolding(ks, es, t, m, j - 1);
    } else {
      RunStep(ks, es, j - 1);
      RunnerThere(ks[j - 1]);
      HolderStep(ks[j - 1], es[j - 1], t, m);
      d := DeadHolderDied(ks, es, t, m, j - 1);
      CreatedThere(ks[j - 1], es[j - 1], t);
    }
  }

  lemma NobodyHoldsAtFirst(k: Kernel, m: nat)
    requires Init(k)
    ensures Lock(k, m).holder == 0
  {
  }

  lemma CreatedThere(k: Kernel, e: Event, t: Tcb)
    requires t !in Step(k, e).threads
    ensures e != Create(t)
  {
  }

  /** A new thread finds its address named as the holder of `m` if and only if the last thread at that address exited
      while it held `m`. */
  lemma InheritsIffDiedHolding(ks: seq<Kernel>, es: seq<Event>, t: Tcb, m: nat, i: nat)
    requires IsRun(ks, es) && i < |es| && es[i] == Create(t)
    ensures Lock(ks[i], m).holder == t <==> exists d: nat :: DiedHolding(ks, es, t, m, d, i)
  {
    hide Inv, Stepped, Act, Step, Enabled, Init, Yields, Lock, DiedHolding, Dead;
    RunStep(ks, es, i);
    CreateLeavesLocks(ks[i], t, m);
    if Lock(ks[i], m).holder == t { var d := DeadHolderDied(ks, es, t, m, i); }
    forall d: nat | DiedHolding(ks, es, t, m, d, i) ensures Lock(ks[i], m).holder == t {
      DeadStaysHolder(ks, es, t, m, d, i);
    }
  }

  /** No thread calls `thread_exit` while it holds a mutex. */
  ghost predicate ExitsClean(ks: seq<Kernel>, es: seq<Event>) {
    |es| < |ks| && forall i, m :: 0 <= i < |es| && es[i] == Exit ==> Lock(ks[i], m).holder != ks[i].current
  }

  /** Under that condition every thread's recursion count is its own acquires less its own releases, from its creation
      to its death. */
  lemma CleanExitsBalanced(ks: seq<Kernel>, es: seq<Event>, t: Tcb, m: nat, i: nat, j: nat)
    requires IsRun(ks, es) && ExitsClean(ks, es) && i < j <= |es| && es[i] == Create(t)
    ensures Gained(ks, es, t, m, i + 1, j) == Level(Lock(ks[j], m), t)
  {
    hide Init, Step, Enabled, Lock, Level;
    InheritsIffDiedHolding(ks, es, t, m, i);
    BalancedSinceCreation(ks, es, t, m, i, j);
  }
}
