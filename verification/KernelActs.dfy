/** A step is an act of the running thread, followed, when the act yields, by the timer interrupt. What each half
    does. */
module KernelActs {
  import opened KernelState
  import opened KernelPlaces
  import opened KernelLocks
  import opened KernelSteps

  // ---------------------------------------------------------------- the two halves of a step

  function Enqueue(k: Kernel, q: QueueId, pc: Pc): Kernel {
    var k1 := AddCount(k, q, -1);
    if CountOf(k1, q) < 0 then Block(k1, q, pc) else k1
  }

  /** An acquire would block. */
  predicate Contended(k: Kernel, m: nat) {
    Lock(k, m).holder != k.current && CountOf(k, MutexQueue(m)) <= 0
  }

  /** An acquire up to its yield. */
  function Request(k: Kernel, m: nat): Kernel {
    if Contended(k, m) then Enqueue(k, MutexQueue(m), InAcquire(m)) else Acquire(k, m)
  }

  function Act(k: Kernel, e: Event): Kernel {
    var me := k.current;
    var pc := At(k, me).pc;
    match e
    case Irq => k
    case SleepYield => SetPc(k, me, Client)
    case Exit => SetStatus(k, me, Zombie)
    case SemDown(s) => Enqueue(k, SemQueue(s), InSem(s))
    case MutexAcquire(m) => Request(k, m)
    case CondWait(c, m) => Release(Block(k, CondQueue(c), InCond(c, m)), m)
    case CondReturn => if pc.InCond? then Request(SetPc(k, me, Client), pc.lock) else k
    case _ => Step(k, e)
  }

  /** The step passes through the timer interrupt, hence the scheduler. */
  predicate Yields(k: Kernel, e: Event) {
    match e
    case Irq => true
    case SleepYield => true
    case Exit => true
    case CondWait(_, _) => true
    case SemDown(s) => CountOf(k, SemQueue(s)) <= 0
    case MutexAcquire(m) => Contended(k, m)
    case CondReturn => At(k, k.current).pc.InCond? && Contended(SetPc(k, k.current, Client), At(k, k.current).pc.lock)
    case _ => false
  }

  lemma StepSplits(k: Kernel, e: Event)
    ensures Step(k, e) == if Yields(k, e) then Reschedule(Act(k, e)) else Act(k, e)
  {
    hide Reschedule, Block, Release, WakeAll, WakeFirst, Hold;
  }

  /** The invariant but for the running thread, which may have marked itself. */
  lemma ActSound(k: Kernel, e: Event)
    requires Inv(k) && Enabled(k, e)
    ensures Sched(Act(k, e)) && SyncOk(Act(k, e))
  {
    hide Sched, SyncOk, Reschedule, Block, Release, Acquire, Enqueue;
    StepSplits(k, e);
    StepInv(k, e);
    if Yields(k, e) { YieldingActSound(k, e); }
  }

  lemma YieldingActSound(k: Kernel, e: Event)
    requires Inv(k) && Enabled(k, e) && Yields(k, e)
    ensures Sched(Act(k, e)) && SyncOk(Act(k, e))
  {
    hide Sched, SyncOk, Reschedule, Block, Release, Acquire, Enqueue;
    SettledFacts(k);
    var th := At(k, k.current);
    match e {
      case Irq =>
      case SleepYield => QuietChange(k, th.(pc := Client));
      case Exit => QuietChange(k, th.(status := Zombie));
      case SemDown(s) => SemQueued(k, s);
      case MutexAcquire(m) => ClientCalls(k); AcquireQueued(k, m); EnqueueBlocks(k, MutexQueue(m), InAcquire(m));
      case CondWait(c, m) => CondBlocked(k, c, m); ReleaseSync(Block(k, CondQueue(c), InCond(c, m)), m);
      case CondReturn => ReturnQueued(k);
    }
  }

  lemma EnqueueBlocks(k: Kernel, q: QueueId, pc: Pc)
    requires CountOf(k, q) <= 0
    ensures Enqueue(k, q, pc) == Block(AddCount(k, q, -1), q, pc)
  {
    hide Block;
  }

  lemma SemQueued(k: Kernel, s: nat)
    requires Inv(k) && Enabled(k, SemDown(s)) && CountOf(k, SemQueue(s)) <= 0
    ensures Sched(Enqueue(k, SemQueue(s), InSem(s))) && SyncOk(Enqueue(k, SemQueue(s), InSem(s)))
  {
    hide Sched, LockOk;
    SettledFacts(k);
    var q := SemQueue(s);
    var k1 := AddCount(k, q, -1);
    SameThreads(k, k1);
    BlockSched(k1, q, InSem(s));
    BlockedThreads(k1, q, InSem(s));
    LocksFrame(k, Block(k1, q, InSem(s)));
  }

  lemma ReturnQueued(k: Kernel)
    requires Inv(k) && Enabled(k, CondReturn) && Contended(SetPc(k, k.current, Client), At(k, k.current).pc.lock)
    ensures Sched(Act(k, CondReturn)) && SyncOk(Act(k, CondReturn))
  {
    hide Sched, LocksOk, SemsOk, Acquire, Enqueue;
    SettledFacts(k);
    assert Known(k.mutexes, PcOf(k.threads, k.current));
    QuietChange(k, At(k, k.current).(pc := Client));
    var k1, m := SetPc(k, k.current, Client), At(k, k.current).pc.lock;
    AcquireQueued(k1, m);
    EnqueueBlocks(k1, MutexQueue(m), InAcquire(m));
  }

  // ---------------------------------------------------------------- the act

  function Reversed<T>(s: seq<T>): seq<T> {
    if s == [] then [] else Reversed(s[1..]) + [s[0]]
  }

  /** `s` is `t` with something put in front. */
  ghost predicate EndsWith<T>(s: seq<T>, t: seq<T>) {
    |t| <= |s| && s[|s| - |t|..] == t
  }

  lemma PrependEndsWith<T>(p: seq<T>, t: seq<T>)
    ensures EndsWith(p + t, t)
  {
  }

  /** Broadcast: all waiters become ready; the longest waiter is nearest the tail, where the scheduler takes threads
      from. */
  lemma {:induction false} WakeAllOrder(k: Kernel, q: QueueId)
    ensures WakeAll(k, q).ready == Reversed(Waiting(k, q)) + k.ready
    ensures Waiting(WakeAll(k, q), q) == []
    ensures WakeAll(k, q) == k.(ready := WakeAll(k, q).ready, threads := WakeAll(k, q).threads,
      queues := WakeAll(k, q).queues)
    ensures forall p :: p != q ==> Waiting(WakeAll(k, q), p) == Waiting(k, p)
    ensures forall t :: At(WakeAll(k, q), t).pc == At(k, t).pc && At(WakeAll(k, q), t).wakeup == At(k, t).wakeup
    ensures forall t :: At(WakeAll(k, q), t).status == if t in Waiting(k, q) then Ready else At(k, t).status
    ensures forall t :: t in WakeAll(k, q).threads <==> t in k.threads || t in Waiting(k, q)
    ensures forall p :: p in k.queues ==> p in WakeAll(k, q).queues
    decreases |Waiting(k, q)|
  {
    var s := Waiting(k, q);
    if s != [] {
      assert s == [s[0]] + s[1..];
      WakeAllOrder(WakeFirst(k, q), q);
      calc {
        WakeAll(k, q).ready;
        Reversed(s[1..]) + ([s[0]] + k.ready);
        Reversed(s) + k.ready;
      }
    }
  }

  /** What no act changes: the clock, who runs, the sleeping and zombie lists, the order of the ready list, and the
      other threads, except that blocked ones may become ready and an unborn one may be published. */
  ghost predicate Keeps(k: Kernel, k': Kernel) {
    && k'.current == k.current && k'.idle == k.idle && k'.ticks == k.ticks
    && k'.sleeping == k.sleeping && k'.zombies == k.zombies && EndsWith(k'.ready, k.ready)
    && (forall q :: q in k.queues ==> q in k'.queues)
    && forall t :: t in k.threads ==> t in k'.threads && (t != k.current ==> KeepsThread(k.threads[t], k'.threads[t]))
  }

  predicate KeepsThread(th: Thread, th': Thread) {
    && th'.wakeup == th.wakeup && (th'.pc == th.pc || th.pc.Unborn?)
    && (th'.status == th.status || (th.status == Blocked && th'.status == Ready))
  }

  lemma KeepsTransitive(k: Kernel, k1: Kernel, k2: Kernel)
    requires Keeps(k, k1) && Keeps(k1, k2)
    ensures Keeps(k, k2)
  {
    forall t | t in k.threads ensures t in k2.threads && (t != k.current ==> KeepsThread(k.threads[t], k2.threads[t])) {
      assert t in k1.threads;
    }
  }

  lemma BlockKeeps(k: Kernel, q: QueueId, pc: Pc)
    requires k.current in k.threads
    ensures Keeps(k, Block(k, q, pc))
  {
  }

  lemma EnqueueKeeps(k: Kernel, q: QueueId, pc: Pc)
    requires k.current in k.threads
    ensures Keeps(k, Enqueue(k, q, pc))
  {
    hide Block;
    BlockKeeps(AddCount(k, q, -1), q, pc);
  }

  lemma WakeFirstKeeps(k: Kernel, q: QueueId)
    requires forall t :: t in Waiting(k, q) ==> At(k, t).status == Blocked
    ensures Keeps(k, WakeFirst(k, q))
  {
    if Waiting(k, q) != [] {
      assert Waiting(k, q)[0] in Waiting(k, q);
      PrependEndsWith([Waiting(k, q)[0]], k.ready);
    }
  }

  lemma ReleaseKeeps(k: Kernel, m: nat)
    requires forall t :: t in Waiting(k, MutexQueue(m)) ==> At(k, t).status == Blocked
    ensures Keeps(k, Release(k, m))
  {
    hide WakeFirst;
    WakeFirstKeeps(AddCount(SetLock(k, m, Mutex(0, 0, Heir(k, MutexQueue(m)))), MutexQueue(m), 1), MutexQueue(m));
  }

  lemma RequestKeeps(k: Kernel, m: nat)
    requires k.current in k.threads
    ensures Keeps(k, Request(k, m))
  {
    hide Enqueue, Reschedule;
    EnqueueKeeps(k, MutexQueue(m), InAcquire(m));
  }

  lemma WakeAllKeeps(k: Kernel, q: QueueId)
    requires forall t :: t in Waiting(k, q) ==> At(k, t).status == Blocked
    ensures Keeps(k, WakeAll(k, q))
  {
    hide WakeAll;
    WakeAllOrder(k, q);
    PrependEndsWith(Reversed(Waiting(k, q)), k.ready);
    var k' := WakeAll(k, q);
    forall t | t in k.threads ensures t in k'.threads && KeepsThread(k.threads[t], k'.threads[t]) {
      assert k'.threads[t] == At(k', t);
    }
  }

  lemma WaitersBlocked(k: Kernel, q: QueueId)
    requires Sched(k)
    ensures forall t :: t in Waiting(k, q) ==> At(k, t).status == Blocked && t in k.threads
  {
    hide BirthsOk, PlacesOk, ListsOk, NoDup;
    if q in k.queues { assert QueueOk(k.threads, k.idle, q, k.queues[q]); }
  }

  lemma PublishKeeps(k: Kernel)
    requires Sched(k) && At(k, k.current).pc.Creating?
    ensures Keeps(k, Step(k, Publish))
  {
    hide ListsOk, QueuesOk, NoDup, PlacesOk;
    var child := At(k, k.current).pc.child;
    assert UnbornAt(k.threads, child);
    PrependEndsWith([child], k.ready);
  }

  lemma CreateKeeps(k: Kernel, t: Tcb)
    requires Sched(k) && t !in k.threads
    ensures Keeps(k, Step(k, Create(t)))
  {
    hide ListsOk, QueuesOk, NoDup, PlacesOk, BirthsOk;
  }

  lemma CondWaitKeeps(k: Kernel, c: nat, m: nat)
    requires Inv(k) && Enabled(k, CondWait(c, m))
    ensures Keeps(k, Act(k, CondWait(c, m)))
  {
    hide Sched, SyncOk, Block, Release, Keeps;
    SchedCurrent(k);
    CondBlocked(k, c, m);
    var k1 := Block(k, CondQueue(c), InCond(c, m));
    BlockKeeps(k, CondQueue(c), InCond(c, m));
    WaitersBlocked(k1, MutexQueue(m));
    ReleaseKeeps(k1, m);
    KeepsTransitive(k, k1, Release(k1, m));
  }

  lemma CondReturnKeeps(k: Kernel)
    requires k.current in k.threads
    ensures Keeps(k, Act(k, CondReturn))
  {
    hide Request;
    if At(k, k.current).pc.InCond? {
      var k1 := SetPc(k, k.current, Client);
      RequestKeeps(k1, At(k, k.current).pc.lock);
    }
  }

  /** The acts that touch only the running thread's block, a count or a mutex. */
  predicate Local(e: Event) {
    e.Irq? || e.SleepArm? || e.SleepMark? || e.SleepYield? || e.Exit? || e.NewSem? || e.NewMutex? || e.NewCond?
    || e.SemTry? || e.SemReturn? || e.MutexReturn? || e.MutexTry? || e.MutexTryHolder? || e.MutexTryDepth?
  }

  ghost predicate LocalShape(k: Kernel, k': Kernel) {
    && k' == k.(threads := k.threads[k.current := At(k', k.current)], queues := k'.queues, counts := k'.counts,
      mutexes := k'.mutexes)
    && (forall q :: q in k.queues ==> q in k'.queues)
  }

  /** Only the running thread's block. */
  predicate OwnStep(e: Event) {
    e.Irq? || e.SleepArm? || e.SleepMark? || e.SleepYield? || e.Exit? || e.SemReturn?
  }

  /** Only that, a count and a mutex. */
  predicate LockStep(e: Event) {
    e.SemTry? || e.MutexReturn? || e.MutexTry? || e.MutexTryHolder? || e.MutexTryDepth?
  }

  lemma OwnActs(k: Kernel, e: Event)
    requires OwnStep(e) && k.current in k.threads
    ensures var k' := Act(k, e); k' == k.(threads := k.threads[k.current := At(k', k.current)])
  {
    assert k.threads == k.threads[k.current := k.threads[k.current]];
    match e {
      case Irq =>
      case SleepArm(_) =>
      case SleepMark =>
      case SleepYield =>
      case Exit =>
      case SemReturn =>
    }
  }

  lemma TryActs(k: Kernel, m: nat)
    requires k.current in k.threads
    ensures var k' := Act(k, MutexTry(m));
      k' == k.(threads := k.threads[k.current := At(k', k.current)], counts := k'.counts, mutexes := k'.mutexes)
  {
    hide CountOf, Lock;
    assert k.threads == k.threads[k.current := k.threads[k.current]];
  }

  lemma LockActs(k: Kernel, e: Event)
    requires LockStep(e) && k.current in k.threads
    ensures var k' := Act(k, e);
      k' == k.(threads := k.threads[k.current := At(k', k.current)], counts := k'.counts, mutexes := k'.mutexes)
  {
    if e.MutexTry? {
      hide Act, At;
      TryActs(k, e.mutex);
    } else {
      hide CountOf, Lock;
      assert k.threads == k.threads[k.current := k.threads[k.current]];
      match e {
        case SemTry(_) =>
        case MutexReturn =>
        case MutexTryHolder =>
        case MutexTryDepth =>
      }
    }
  }

  lemma NewActs(k: Kernel, e: Event)
    requires e.NewSem? || e.NewMutex? || e.NewCond?
    ensures var k' := Act(k, e);
      && k' == k.(queues := k'.queues, counts := k'.counts, mutexes := k'.mutexes)
      && forall q :: q in k.queues ==> q in k'.queues
  {
    match e {
      case NewSem(_, _) =>
      case NewMutex(_) =>
      case NewCond(_) =>
    }
  }

  lemma LocalActs(k: Kernel, e: Event)
    requires Local(e) && k.current in k.threads
    ensures LocalShape(k, Act(k, e))
  {
    hide Act;
    assert k.threads == k.threads[k.current := k.threads[k.current]];
    if OwnStep(e) { OwnActs(k, e); } else if LockStep(e) { LockActs(k, e); } else { NewActs(k, e); }
  }

  lemma LocalKeeps(k: Kernel, e: Event)
    requires Local(e) && k.current in k.threads
    ensures Keeps(k, Act(k, e)) && Act(k, e).ready == k.ready
  {
    LocalActs(k, e);
    hide Act;
  }

  lemma ActKeeps(k: Kernel, e: Event)
    requires Inv(k) && Enabled(k, e)
    ensures Keeps(k, Act(k, e))
  {
    hide Sched, SyncOk, Settled, Keeps, Release, Request, Enqueue, WakeFirst, WakeAll, Block, Reschedule, SetPc,
      SetStatus, Acquire;
    SchedCurrent(k);
    match e {
      case Create(t) => CreateKeeps(k, t);
      case Publish => PublishKeeps(k);
      case SemDown(s) => EnqueueKeeps(k, SemQueue(s), InSem(s));
      case SemUp(s) => WaitersBlocked(k, SemQueue(s)); UpKeeps(k, SemQueue(s));
      case MutexAcquire(m) => RequestKeeps(k, m);
      case MutexRelease(m) => WaitersBlocked(k, MutexQueue(m)); ReleaseKeeps(k, m);
      case CondWait(c, m) => CondWaitKeeps(k, c, m);
      case CondReturn => CondReturnKeeps(k);
      case CondSignal(c) => WaitersBlocked(k, CondQueue(c)); WakeFirstKeeps(k, CondQueue(c));
      case CondBroadcast(c) => WaitersBlocked(k, CondQueue(c)); WakeAllKeeps(k, CondQueue(c));
      case _ => LocalKeeps(k, e);
    }
  }

  lemma UpKeeps(k: Kernel, q: QueueId)
    requires forall t :: t in Waiting(k, q) ==> At(k, t).status == Blocked
    ensures Keeps(k, Up(k, q))
  {
    hide WakeFirst;
    assert Waiting(AddCount(k, q, 1), q) == Waiting(k, q);
    WakeFirstKeeps(AddCount(k, q, 1), q);
  }
}
