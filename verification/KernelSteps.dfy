/** Every step keeps the invariant. */
module KernelSteps {
  import opened KernelState
  import opened KernelPlaces
  import opened KernelLocks

  lemma SettledFacts(k: Kernel)
    requires Sched(k) && Settled(k)
    ensures k.current in k.threads && 0 !in k.threads && At(k, k.current).status != Blocked
    ensures At(k, k.current).pc == PcOf(k.threads, k.current)
    ensures !At(k, k.current).pc.SleepMarked? ==> At(k, k.current).status == Running
  {
    SchedCurrent(k);
  }

  /** The current thread moves on in its own call, in a way no mutex sees. */
  lemma QuietChange(k: Kernel, th: Thread)
    requires Sched(k) && Settled(k) && SyncOk(k) && k.current != k.idle
    requires Quiet(At(k, k.current).pc) && Quiet(th.pc) && !th.pc.Unborn? && !th.pc.Creating? && !th.pc.InCond?
    requires th.status != Ready && th.status != Blocked && (th.status == Zombie ==> th.pc.Client?)
    ensures var k' := k.(threads := k.threads[k.current := th]); Sched(k') && SyncOk(k')
  {
    hide Sched, LockOk;
    SettledFacts(k);
    ChangeCurrent(k, th);
    LocksFrame(k, k.(threads := k.threads[k.current := th]));
  }

  lemma IrqInv(k: Kernel)
    requires Inv(k)
    ensures Inv(Step(k, Irq))
  {
    hide Sched, SyncOk, Reschedule;
    RescheduleInv(k);
  }

  lemma SleepInv(k: Kernel, e: Event)
    requires Inv(k) && Enabled(k, e) && (e.SleepArm? || e.SleepMark? || e.SleepYield? || e.Exit? || e.SemReturn?)
    ensures Inv(Step(k, e))
  {
    hide Sched, SyncOk, Reschedule;
    SettledFacts(k);
    var th := At(k, k.current);
    match e {
      case SleepArm(n) => QuietChange(k, th.(wakeup := k.ticks + n, pc := SleepArmed));
      case SleepMark =>
        QuietChange(k, th.(status := Sleeping, pc := SleepMarked));
        assert Step(k, e).threads == k.threads[k.current := th.(status := Sleeping, pc := SleepMarked)];
      case SleepYield => QuietChange(k, th.(pc := Client)); RescheduleInv(SetPc(k, k.current, Client));
      case Exit => QuietChange(k, th.(status := Zombie)); RescheduleInv(SetStatus(k, k.current, Zombie));
      case SemReturn => QuietChange(k, th.(pc := Client));
    }
  }

  lemma CreateInv(k: Kernel, e: Event)
    requires Inv(k) && Enabled(k, e) && (e.Create? || e.Publish?)
    ensures Inv(Step(k, e))
  {
    hide Inv;
    if e.Create? { BirthInv(k, e.child); } else { PublishInv(k); }
  }

  lemma BirthInv(k: Kernel, t: Tcb)
    requires Inv(k) && Enabled(k, Create(t))
    ensures Inv(Step(k, Create(t)))
  {
    hide Sched, LockOk;
    SettledFacts(k);
    CreateSched(k, t);
    LocksFrame(k, Step(k, Create(t)));
  }

  lemma PublishInv(k: Kernel)
    requires Inv(k) && Enabled(k, Publish)
    ensures Inv(Step(k, Publish))
  {
    hide Sched, LockOk;
    SettledFacts(k);
    PublishedBorn(k);
    PublishSched(k);
    LocksFrame(k, Step(k, Publish));
  }

  lemma PublishedBorn(k: Kernel)
    requires Sched(k) && k.current in k.threads && k.threads[k.current].pc.Creating?
    ensures UnbornAt(k.threads, k.threads[k.current].pc.child) && k.threads[k.current].pc.child != k.current
  {
  }

  lemma NewInv(k: Kernel, e: Event)
    requires Inv(k) && Enabled(k, e) && (e.NewSem? || e.NewMutex? || e.NewCond?)
    ensures Inv(Step(k, e))
  {
    hide Inv;
    var k' := Step(k, e);
    match e {
      case NewSem(s, n) => NewQueueInv(k, SemQueue(s), k');
      case NewMutex(m) => NewMutexInv(k, m);
      case NewCond(c) => NewQueueInv(k, CondQueue(c), k');
    }
  }

  lemma NewQueueInv(k: Kernel, q: QueueId, k': Kernel)
    requires Inv(k) && q !in k.queues && !q.MutexQueue?
    requires q.SemQueue? ==> q in k'.counts && k'.counts == k.counts[q := k'.counts[q]] && k'.counts[q] >= 0
    requires !q.SemQueue? ==> k'.counts == k.counts
    requires k' == k.(queues := k.queues[q := []], counts := k'.counts)
    ensures Inv(k')
  {
    hide Sched, LockOk;
    NewQueueSched(k, q);
    SameThreads(k.(queues := k.queues[q := []]), k');
    LocksFrame(k, k');
  }

  lemma NewMutexInv(k: Kernel, m: nat)
    requires Inv(k) && Enabled(k, NewMutex(m))
    ensures Inv(Step(k, NewMutex(m)))
  {
    var k' := Step(k, NewMutex(m));
    assert Sched(k') by {
      hide Sched;
      NewQueueSched(k, MutexQueue(m));
      SameThreads(k.(queues := k.queues[MutexQueue(m) := []]), k');
    }
    hide Sched;
    NewLockOk(k, m);
    hide LockOk;
    LocksFrameBut(k, k', m);
  }

  lemma NewLockOk(k: Kernel, m: nat)
    requires Inv(k) && m !in k.mutexes
    ensures LockOk(k.threads, [], 1, m, Mutex(0, 0, 0))
  {
  }

  // ---------------------------------------------------------------- semaphores

  lemma SemDownInv(k: Kernel, s: nat)
    requires Inv(k) && Enabled(k, SemDown(s))
    ensures Inv(Step(k, SemDown(s)))
  {
    hide Sched, LockOk, Reschedule;
    SettledFacts(k);
    var q := SemQueue(s);
    var k1 := AddCount(k, q, -1);
    SameThreads(k, k1);
    if CountOf(k1, q) < 0 {
      var k2 := Block(k1, q, InSem(s));
      BlockSched(k1, q, InSem(s));
      BlockedThreads(k1, q, InSem(s));
      LocksFrame(k, k2);
      RescheduleInv(k2);
    } else {
      LocksFrame(k, k1);
    }
  }

  lemma BlockedThreads(k: Kernel, q: QueueId, pc: Pc)
    ensures var k' := Block(k, q, pc); Moves(k.threads, k'.threads, k.current, pc)
    ensures Block(k, q, pc).queues == k.queues[q := Waiting(k, q) + [k.current]]
  {
  }

  lemma SemTryInv(k: Kernel, s: nat)
    requires Inv(k) && Enabled(k, SemTry(s))
    ensures Inv(Step(k, SemTry(s)))
  {
    hide Sched, LockOk;
    var k' := Step(k, SemTry(s));
    SameThreads(k, k');
    LocksFrame(k, k');
  }

  lemma SemUpInv(k: Kernel, s: nat)
    requires Inv(k) && Enabled(k, SemUp(s))
    ensures Inv(Step(k, SemUp(s)))
  {
    hide Sched, LockOk, WakeFirst;
    SettledFacts(k);
    var q := SemQueue(s);
    var k1 := AddCount(k, q, 1);
    SameThreads(k, k1);
    RunnerNotQueued(k1, q);
    WakeFirstSched(k1, q);
    WakeFirstSync(k1, q);
    LocksFrame(k, WakeFirst(k1, q));
  }

  // ---------------------------------------------------------------- condition variables

  lemma SignalInv(k: Kernel, c: nat)
    requires Inv(k) && CondQueue(c) in k.queues
    ensures Inv(WakeFirst(k, CondQueue(c))) && WakeFirst(k, CondQueue(c)).current == k.current
    ensures CondQueue(c) in WakeFirst(k, CondQueue(c)).queues
    ensures Waiting(WakeFirst(k, CondQueue(c)), CondQueue(c)) ==
      if Waiting(k, CondQueue(c)) == [] then [] else Waiting(k, CondQueue(c))[1..]
  {
    hide Sched, LockOk, WakeFirst;
    SettledFacts(k);
    var q := CondQueue(c);
    RunnerNotQueued(k, q);
    WakeFirstSched(k, q);
    WakeFirstSync(k, q);
    LocksFrame(k, WakeFirst(k, q));
  }

  lemma {:induction false} BroadcastInv(k: Kernel, c: nat)
    requires Inv(k) && CondQueue(c) in k.queues
    ensures Inv(WakeAll(k, CondQueue(c)))
    decreases |Waiting(k, CondQueue(c))|
  {
    hide Inv, WakeFirst;
    if Waiting(k, CondQueue(c)) != [] {
      SignalInv(k, c);
      BroadcastInv(WakeFirst(k, CondQueue(c)), c);
    }
  }

  // ---------------------------------------------------------------- mutexes

  lemma LockAt(k: Kernel, m: nat)
    requires LocksOk(k) && m in k.mutexes
    ensures MutexQueue(m) in k.queues && MutexQueue(m) in k.counts
    ensures LockOk(k.threads, k.queues[MutexQueue(m)], k.counts[MutexQueue(m)], m, k.mutexes[m])
  {
    hide LockOk;
  }

  /** Writing a mutex that then satisfies its invariant, with at most the current thread moving. */
  lemma LockWritten(k: Kernel, k': Kernel, m: nat, t: Tcb)
    requires SyncOk(k) && m in k.mutexes && MutexQueue(m) in k'.counts
    requires k'.mutexes == k.mutexes[m := Lock(k', m)]
      && k'.counts == k.counts[MutexQueue(m) := CountOf(k', MutexQueue(m))]
    requires k'.queues == k.queues[MutexQueue(m) := Waiting(k', MutexQueue(m))]
    requires forall u :: u != t ==> PcOf(k'.threads, u) == PcOf(k.threads, u)
    requires PcOf(k'.threads, t) == PcOf(k.threads, t)
      || ((Quiet(PcOf(k.threads, t)) || About(PcOf(k.threads, t), m))
        && (PcOf(k'.threads, t).Client? || About(PcOf(k'.threads, t), m)))
    requires LockOk(k'.threads, Waiting(k', MutexQueue(m)), CountOf(k', MutexQueue(m)), m, Lock(k', m))
    ensures SyncOk(k')
  {
    hide LockOk;
    LocksFrameBut(k, k', m);
    forall u ensures Known(k'.mutexes, PcOf(k'.threads, u)) {
      assert Known(k.mutexes, PcOf(k.threads, u));
    }
  }

  /** In a call of its own, not blocked, and not idle. */
  ghost predicate Calling(k: Kernel) {
    Sched(k) && SyncOk(k) && k.current != k.idle && At(k, k.current).status == Running && At(k, k.current).pc.Client?
  }

  lemma CallingFacts(k: Kernel)
    requires Calling(k)
    ensures k.current in k.threads && k.current != 0 && PcOf(k.threads, k.current) == Client
      && PcOf(k.threads, 0) == Client
  {
    SchedCurrent(k);
  }

  lemma AcquireRecursive(k: Kernel, m: nat)
    requires Calling(k) && m in k.mutexes && k.mutexes[m].holder == k.current
    ensures Inv(Acquire(k, m)) && k.mutexes[m].depth >= 1
  {
    hide Sched, LockOk;
    CallingFacts(k);
    LockAt(k, m);
    var q := MutexQueue(m);
    var k' := Acquire(k, m);
    LockRecurse(k.threads, k.queues[q], k.counts[q], m, k.mutexes[m]);
    SameThreads(k, k');
    LockWritten(k, k', m, k.current);
  }

  lemma AcquireFree(k: Kernel, m: nat)
    requires Calling(k) && m in k.mutexes && k.mutexes[m].holder != k.current && CountOf(k, MutexQueue(m)) > 0
    ensures Inv(Acquire(k, m)) && Acquire(k, m).mutexes[m] == Mutex(k.current, 1, k.current) && k.mutexes[m].owner == 0
  {
    hide Sched, LockOk;
    CallingFacts(k);
    LockAt(k, m);
    var q := MutexQueue(m);
    var k' := Acquire(k, m);
    LockFree(k.threads, k.queues[q], k.counts[q], m, k.mutexes[m]);
    LockTake(k.threads, k.queues[q], k.counts[q], m, k.mutexes[m], k.current);
    SameThreads(k, k');
    LockWritten(k, k', m, k.current);
  }

  /** The state just before a blocking acquire yields. */
  lemma AcquireQueued(k: Kernel, m: nat)
    requires Calling(k) && m in k.mutexes && k.mutexes[m].holder != k.current && CountOf(k, MutexQueue(m)) <= 0
    ensures var k2 := Block(AddCount(k, MutexQueue(m), -1), MutexQueue(m), InAcquire(m)); Sched(k2) && SyncOk(k2)
  {
    hide Sched, LockOk;
    CallingFacts(k);
    LockAt(k, m);
    var q := MutexQueue(m);
    var k1 := AddCount(k, q, -1);
    SameThreads(k, k1);
    var k2 := Block(k1, q, InAcquire(m));
    BlockSched(k1, q, InAcquire(m));
    BlockedThreads(k1, q, InAcquire(m));
    LockEnqueue(k.threads, k2.threads, k.queues[q], k.counts[q], m, k.mutexes[m], k.current);
    LockWritten(k, k2, m, k.current);
  }

  lemma AcquireInv(k: Kernel, m: nat)
    requires Calling(k) && m in k.mutexes
    ensures Inv(Acquire(k, m))
  {
    hide Calling, Inv, Sched, SyncOk, Reschedule, Block;
    if k.mutexes[m].holder == k.current {
      AcquireRecursive(k, m);
    } else if CountOf(k, MutexQueue(m)) > 0 {
      AcquireFree(k, m);
    } else {
      AcquireQueued(k, m);
      RescheduleInv(Block(AddCount(k, MutexQueue(m), -1), MutexQueue(m), InAcquire(m)));
    }
  }

  lemma MutexReturnInv(k: Kernel)
    requires Inv(k) && Enabled(k, MutexReturn)
    ensures Inv(Step(k, MutexReturn))
    ensures Lock(k, At(k, k.current).pc.mutex) == Mutex(0, 0, k.current)
  {
    hide Sched, LockOk;
    SettledFacts(k);
    var t, m := k.current, At(k, k.current).pc.mutex;
    assert Known(k.mutexes, PcOf(k.threads, t));
    LockAt(k, m);
    var q := MutexQueue(m);
    RunnerNotQueued(k, q);
    var k' := Step(k, MutexReturn);
    LockGranted(k.threads, k'.threads, k.queues[q], k.counts[q], m, k.mutexes[m], t);
    LockFree'(k.threads, k.queues[q], k.counts[q], m, k.mutexes[m]);
    var k1 := Hold(k, m);
    SameThreads(k, k1);
    ChangeCurrent(k1, At(k, t).(pc := Client));
    LockWritten(k, k', m, t);
  }

  lemma LockFree'(threads: Threads, s: seq<Tcb>, c: int, m: nat, lock: Mutex)
    requires LockOk(threads, s, c, m, lock) && lock.holder == 0
    ensures lock.depth == 0
  {
  }

  lemma MutexTryInv(k: Kernel, m: nat)
    requires Inv(k) && Enabled(k, MutexTry(m))
    ensures Inv(Step(k, MutexTry(m)))
  {
    hide Sched, LockOk;
    SettledFacts(k);
    var t, q := k.current, MutexQueue(m);
    LockAt(k, m);
    var k' := Step(k, MutexTry(m));
    if k.mutexes[m].holder == t {
      AcquireRecursive(k, m);
    } else if k.counts[q] > 0 {
      LockTryTake(k.threads, k'.threads, k.queues[q], k.counts[q], m, k.mutexes[m], t);
      var k1 := SetLock(AddCount(k, q, -1), m, k.mutexes[m].(owner := t));
      SameThreads(k, k1);
      ChangeCurrent(k1, At(k, t).(pc := TryTaken(m)));
      LockWritten(k, k', m, t);
    }
  }

  lemma MutexTryHolderInv(k: Kernel)
    requires Inv(k) && Enabled(k, MutexTryHolder)
    ensures Inv(Step(k, MutexTryHolder))
    ensures Lock(k, At(k, k.current).pc.mutex) == Mutex(0, 0, k.current)
  {
    hide Sched, LockOk;
    SettledFacts(k);
    var t, m := k.current, At(k, k.current).pc.mutex;
    assert Known(k.mutexes, PcOf(k.threads, t));
    LockAt(k, m);
    var q := MutexQueue(m);
    RunnerNotQueued(k, q);
    var k' := Step(k, MutexTryHolder);
    LockTryHold(k.threads, k'.threads, k.queues[q], k.counts[q], m, k.mutexes[m], t);
    LockFree'(k.threads, k.queues[q], k.counts[q], m, k.mutexes[m]);
    var k1 := SetLock(k, m, k.mutexes[m].(holder := t));
    SameThreads(k, k1);
    ChangeCurrent(k1, At(k, t).(pc := TryHolding(m)));
    LockWritten(k, k', m, t);
  }

  lemma MutexTryDepthInv(k: Kernel)
    requires Inv(k) && Enabled(k, MutexTryDepth)
    ensures Inv(Step(k, MutexTryDepth))
    ensures Lock(k, At(k, k.current).pc.mutex) == Mutex(k.current, 0, k.current)
  {
    hide Sched, LockOk;
    SettledFacts(k);
    var t, m := k.current, At(k, k.current).pc.mutex;
    assert Known(k.mutexes, PcOf(k.threads, t));
    LockAt(k, m);
    var q := MutexQueue(m);
    RunnerNotQueued(k, q);
    var k' := Step(k, MutexTryDepth);
    LockTryDepth(k.threads, k'.threads, k.queues[q], k.counts[q], m, k.mutexes[m], t);
    var k1 := SetLock(k, m, k.mutexes[m].(depth := 1));
    SameThreads(k, k1);
    ChangeCurrent(k1, At(k, t).(pc := Client));
    LockWritten(k, k', m, t);
  }

  // ---------------------------------------------------------------- release and wait

  /** A release by the holder, which is in its own code or already on a condition variable's queue. */
  lemma ReleaseSync(k: Kernel, m: nat)
    requires Sched(k) && SyncOk(k) && m in k.mutexes && k.mutexes[m].holder == k.current && k.current != k.idle
    requires Quiet(At(k, k.current).pc) && k.current !in Waiting(k, MutexQueue(m))
    ensures Sched(Release(k, m)) && SyncOk(Release(k, m))
    ensures Release(k, m).current == k.current && Release(k, m).idle == k.idle
      && At(Release(k, m), k.current) == At(k, k.current)
    ensures k.mutexes[m].depth >= 1
  {
    hide Sched, LockOk, WakeFirst;
    SchedCurrent(k);
    LockAt(k, m);
    var q := MutexQueue(m);
    var lock, s, c := k.mutexes[m], k.queues[q], k.counts[q];
    LockRecurse(k.threads, s, c, m, lock);
    var k' := Release(k, m);
    if lock.depth != 1 {
      LockUnwind(k.threads, s, c, m, lock);
      SameThreads(k, k');
      LockWritten(k, k', m, k.current);
    } else {
      QueueFacts(k, q);
      forall t | t in s ensures PcOf(k.threads, t) == InAcquire(m) {}
      LockHandoff(k.threads, s, c, m, lock);
      var k1 := AddCount(SetLock(k, m, Mutex(0, 0, Heir(k, q))), q, 1);
      SameThreads(k, k1);
      WakeFirstSched(k1, q);
      WakeFirstSync(k1, q);
      LockFrame(k.threads, k'.threads, if s == [] then [] else s[1..], c + 1, m, Mutex(0, 0, Heir(k, q)));
      LockWritten(k, k', m, k.current);
    }
  }

  lemma MutexReleaseInv(k: Kernel, m: nat)
    requires Inv(k) && Enabled(k, MutexRelease(m))
    ensures Inv(Step(k, MutexRelease(m)))
  {
    hide Sched, LocksOk, SemsOk, CallsOk, Release;
    SettledFacts(k);
    HasQueue(k, m);
    RunnerNotQueued(k, MutexQueue(m));
    ReleaseSync(k, m);
  }

  lemma HasQueue(k: Kernel, m: nat)
    requires LocksOk(k) && m in k.mutexes
    ensures MutexQueue(m) in k.queues && MutexQueue(m) in k.counts
  {
    LockAt(k, m);
  }

  /** The waiter joins the condition variable's queue before it lets the mutex go. */
  lemma CondBlocked(k: Kernel, c: nat, m: nat)
    requires Inv(k) && Enabled(k, CondWait(c, m))
    ensures var k1 := Block(k, CondQueue(c), InCond(c, m));
      && Sched(k1) && SyncOk(k1) && k1.current == k.current && k1.idle == k.idle && k1.mutexes == k.mutexes
      && At(k1, k.current).pc == InCond(c, m) && k.current !in Waiting(k1, MutexQueue(m))
  {
    hide Sched, LockOk;
    SettledFacts(k);
    HasQueue(k, m);
    RunnerNotQueued(k, MutexQueue(m));
    var k1 := Block(k, CondQueue(c), InCond(c, m));
    BlockSched(k, CondQueue(c), InCond(c, m));
    BlockedThreads(k, CondQueue(c), InCond(c, m));
    LocksFrame(k, k1);
  }

  lemma CondWaitInv(k: Kernel, c: nat, m: nat)
    requires Inv(k) && Enabled(k, CondWait(c, m))
    ensures Inv(Step(k, CondWait(c, m)))
  {
    hide Sched, SyncOk, Settled, Release, Reschedule, Block;
    CondBlocked(k, c, m);
    var k1 := Block(k, CondQueue(c), InCond(c, m));
    ReleaseSync(k1, m);
    RescheduleInv(Release(k1, m));
  }

  lemma CondReturnInv(k: Kernel)
    requires Inv(k) && Enabled(k, CondReturn)
    ensures Inv(Step(k, CondReturn))
  {
    hide Sched, LocksOk, SemsOk, Acquire;
    SettledFacts(k);
    assert Known(k.mutexes, PcOf(k.threads, k.current));
    QuietChange(k, At(k, k.current).(pc := Client));
    AcquireInv(SetPc(k, k.current, Client), At(k, k.current).pc.lock);
  }

  // ---------------------------------------------------------------- every step

  lemma StepInv(k: Kernel, e: Event)
    requires Inv(k) && Enabled(k, e)
    ensures Inv(Step(k, e))
  {
    hide Inv, Sched, SyncOk, Acquire, WakeFirst, WakeAll, Reschedule, Release, Down, Up;
    match e {
      case Irq => IrqInv(k);
      case SleepArm(_) => SleepInv(k, e);
      case SleepMark => SleepInv(k, e);
      case SleepYield => SleepInv(k, e);
      case Exit => SleepInv(k, e);
      case SemReturn => SleepInv(k, e);
      case Create(_) => CreateInv(k, e);
      case Publish => CreateInv(k, e);
      case NewSem(_, _) => NewInv(k, e);
      case NewMutex(_) => NewInv(k, e);
      case NewCond(_) => NewInv(k, e);
      case SemDown(s) => SemDownInv(k, s);
      case SemTry(s) => SemTryInv(k, s);
      case SemUp(s) => SemUpInv(k, s);
      case MutexAcquire(m) => ClientCalls(k); AcquireInv(k, m);
      case MutexReturn => MutexReturnInv(k);
      case MutexTry(m) => MutexTryInv(k, m);
      case MutexTryHolder => MutexTryHolderInv(k);
      case MutexTryDepth => MutexTryDepthInv(k);
      case MutexRelease(m) => MutexReleaseInv(k, m);
      case CondWait(c, m) => CondWaitInv(k, c, m);
      case CondReturn => CondReturnInv(k);
      case CondSignal(c) => SignalInv(k, c);
      case CondBroadcast(c) => BroadcastInv(k, c);
    }
  }

  lemma ClientCalls(k: Kernel)
    requires Inv(k) && k.current != k.idle && At(k, k.current).pc.Client?
    ensures Calling(k)
  {
    hide Sched, SyncOk;
    SettledFacts(k);
  }
}
