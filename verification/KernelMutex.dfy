/** Mutexes over whole runs: mutual exclusion, handoff, recursion. */
module KernelMutex {
  import opened KernelState
  import opened KernelPlaces
  import opened KernelLocks
  import opened KernelSteps
  import opened KernelActs
  import opened KernelInterrupt
  import opened KernelRuns
  import opened KernelOrder
  import opened KernelQueues

  // ---------------------------------------------------------------- one step, one mutex

  /** The mutex after the running thread asked for it. */
  function Asked(k: Kernel, m: nat): Mutex {
    if Lock(k, m).holder == k.current then Lock(k, m).(depth := Lock(k, m).depth + 1)
    else if Contended(k, m) then Lock(k, m)
    else Mutex(k.current, 1, k.current)
  }

  /** The mutex after its holder released it once. */
  function Released(k: Kernel, m: nat): Mutex {
    if Lock(k, m).depth == 1 then Mutex(0, 0, Heir(k, MutexQueue(m)))
    else Lock(k, m).(depth := if Lock(k, m).depth == 0 then 0 else Lock(k, m).depth - 1)
  }

  function Tried(k: Kernel, m: nat): Mutex {
    if Lock(k, m).holder == k.current then Lock(k, m).(depth := Lock(k, m).depth + 1)
    else if Contended(k, m) then Lock(k, m)
    else Lock(k, m).(owner := k.current)
  }

  function LockAfter(k: Kernel, e: Event, m: nat): Mutex {
    var me, lock := k.current, Lock(k, m);
    var pc := At(k, me).pc;
    match e
    case MutexAcquire(x) => if x == m then Asked(k, m) else lock
    case CondReturn => if pc.InCond? && pc.lock == m then Asked(k, m) else lock
    case MutexReturn => if pc == InAcquire(m) then Mutex(me, 1, me) else lock
    case MutexTry(x) => if x == m then Tried(k, m) else lock
    case MutexTryHolder => if pc == TryTaken(m) then lock.(holder := me) else lock
    case MutexTryDepth => if pc == TryHolding(m) then lock.(depth := 1) else lock
    case MutexRelease(x) => if x == m then Released(k, m) else lock
    case CondWait(_, x) => if x == m then Released(k, m) else lock
    case _ => lock
  }

  lemma RequestLock(k: Kernel, x: nat, m: nat)
    ensures Lock(Request(k, x), m) == if x == m then Asked(k, m) else Lock(k, m)
  {
    hide Block, Reschedule;
    BlockWaiting(AddCount(k, MutexQueue(x), -1), MutexQueue(x), InAcquire(x), MutexQueue(x));
  }

  lemma ReleaseLock(k: Kernel, x: nat, m: nat)
    ensures Lock(Release(k, x), m) == if x == m then Released(k, m) else Lock(k, m)
  {
    hide WakeFirst;
    var k1 := AddCount(SetLock(k, x, Mutex(0, 0, Heir(k, MutexQueue(x)))), MutexQueue(x), 1);
    WakeFirstWaiting(k1, MutexQueue(x), MutexQueue(x));
  }

  lemma CondWaitLock(k: Kernel, c: nat, x: nat, m: nat)
    ensures Lock(Act(k, CondWait(c, x)), m) == LockAfter(k, CondWait(c, x), m)
  {
    hide Block, Release;
    var k1 := Block(k, CondQueue(c), InCond(c, x));
    BlockWaiting(k, CondQueue(c), InCond(c, x), MutexQueue(m));
    ReleaseLock(k1, x, m);
    assert Lock(k1, m) == Lock(k, m) && Heir(k1, MutexQueue(m)) == Heir(k, MutexQueue(m));
  }

  lemma CondReturnLock(k: Kernel, m: nat)
    requires At(k, k.current).pc.InCond?
    ensures Lock(Act(k, CondReturn), m) == LockAfter(k, CondReturn, m)
  {
    hide Request;
    RequestLock(SetPc(k, k.current, Client), At(k, k.current).pc.lock, m);
  }

  lemma AcquireLock(k: Kernel, x: nat, m: nat)
    ensures Lock(Act(k, MutexAcquire(x)), m) == LockAfter(k, MutexAcquire(x), m)
  {
    hide Request, Asked;
    RequestLock(k, x, m);
  }

  lemma MutexReleaseLock(k: Kernel, x: nat, m: nat)
    ensures Lock(Act(k, MutexRelease(x)), m) == LockAfter(k, MutexRelease(x), m)
  {
    hide Release, Released;
    ReleaseLock(k, x, m);
  }

  lemma TryLock(k: Kernel, x: nat, m: nat)
    ensures Lock(Act(k, MutexTry(x)), m) == LockAfter(k, MutexTry(x), m)
  {
  }

  lemma WrittenLock(k: Kernel, m: nat)
    ensures At(k, k.current).pc.InAcquire? ==> Lock(Act(k, MutexReturn), m) == LockAfter(k, MutexReturn, m)
    ensures At(k, k.current).pc.TryTaken? ==> Lock(Act(k, MutexTryHolder), m) == LockAfter(k, MutexTryHolder, m)
    ensures At(k, k.current).pc.TryHolding? ==> Lock(Act(k, MutexTryDepth), m) == LockAfter(k, MutexTryDepth, m)
  {
  }

  lemma SemLock(k: Kernel, s: nat, m: nat)
    ensures Lock(Act(k, SemUp(s)), m) == Lock(k, m) && Lock(Act(k, SemDown(s)), m) == Lock(k, m)
  {
    hide Block, WakeFirst;
    WakeFirstWaiting(AddCount(k, SemQueue(s), 1), SemQueue(s), SemQueue(s));
    BlockWaiting(AddCount(k, SemQueue(s), -1), SemQueue(s), InSem(s), SemQueue(s));
  }

  lemma SignalLock(k: Kernel, c: nat, m: nat)
    ensures Lock(Act(k, CondSignal(c)), m) == Lock(k, m)
  {
    hide WakeFirst;
    WakeFirstWaiting(k, CondQueue(c), CondQueue(c));
  }

  lemma BroadcastLock(k: Kernel, c: nat, m: nat)
    ensures Lock(Act(k, CondBroadcast(c)), m) == Lock(k, m)
  {
    hide WakeAll, At, Waiting, Reversed;
    WakeAllOrder(k, CondQueue(c));
  }

  lemma NoLock(k: Kernel, e: Event, m: nat)
    requires Enabled(k, e) && k.current in k.threads
    requires OwnStep(e) || e.Create? || e.Publish? || e.SemTry? || e.NewSem? || e.NewMutex? || e.NewCond?
    ensures Lock(Act(k, e), m) == Lock(k, m)
  {
    hide At, CountOf;
    if OwnStep(e) {
      OwnActs(k, e);
    } else {
      match e {
        case Create(_) =>
        case Publish =>
        case SemTry(_) =>
        case NewSem(_, _) =>
        case NewMutex(_) =>
        case NewCond(_) =>
      }
    }
  }

  lemma ActLock(k: Kernel, e: Event, m: nat)
    requires Enabled(k, e) && k.current in k.threads
    ensures Lock(Act(k, e), m) == LockAfter(k, e, m)
  {
    hide Act, Asked, Released, Tried, Lock;
    match e {
      case SemDown(s) => SemLock(k, s, m);
      case SemUp(s) => SemLock(k, s, m);
      case MutexAcquire(x) => AcquireLock(k, x, m);
      case MutexReturn => WrittenLock(k, m);
      case MutexTry(x) => TryLock(k, x, m);
      case MutexTryHolder => WrittenLock(k, m);
      case MutexTryDepth => WrittenLock(k, m);
      case MutexRelease(x) => MutexReleaseLock(k, x, m);
      case CondWait(c, x) => CondWaitLock(k, c, x, m);
      case CondReturn => CondReturnLock(k, m);
      case CondSignal(c) => SignalLock(k, c, m);
      case CondBroadcast(c) => BroadcastLock(k, c, m);
      case _ => NoLock(k, e, m);
    }
  }

  lemma StepLock(k: Kernel, e: Event, m: nat)
    requires Inv(k) && Enabled(k, e)
    ensures Lock(Step(k, e), m) == LockAfter(k, e, m)
  {
    hide Inv, Act, Step, Enabled, Yields, LockAfter, Keeps, Sched, Rescheduled, PcOf;
    RunnerIsThere(k);
    ActLock(k, e, m);
    StepExact(k, e);
  }

  // ---------------------------------------------------------------- mutual exclusion and handoff

  /** Thread `t` holds mutex `m`, or has been let through to it and has not yet written `holder`. */
  ghost predicate Has(k: Kernel, t: Tcb, m: nat) {
    t != 0 && (Lock(k, m).holder == t || (About(PcOf(k.threads, t), m) && t !in Waiting(k, MutexQueue(m))))
  }

  lemma HasIsOwner(k: Kernel, t: Tcb, m: nat)
    requires Inv(k) && m in k.mutexes
    ensures Has(k, t, m) <==> t != 0 && t == Lock(k, m).owner
  {
    hide Sched, CallsOk, SemsOk;
    LockAt(k, m);
  }

  /** At most one thread has a mutex, counting the one it was granted to before `holder` is written. */
  lemma MutualExclusion(ks: seq<Kernel>, es: seq<Event>, n: nat, m: nat, t: Tcb, u: Tcb)
    requires IsRun(ks, es) && n < |ks| && m in ks[n].mutexes
    requires Has(ks[n], t, m) && Has(ks[n], u, m)
    ensures t == u
  {
    hide Inv, Has, Init, Enabled, Step;
    RunInv(ks, es, n);
    HasIsOwner(ks[n], t, m);
    HasIsOwner(ks[n], u, m);
  }

  /** What the invariant says of the running thread and a mutex. */
  ghost predicate Seen(k: Kernel, m: nat) {
    var me, lock, pc := k.current, Lock(k, m), At(k, k.current).pc;
    && me != 0 && lock.owner !in Waiting(k, MutexQueue(m))
    && (Contended(k, m) <==> lock.owner != 0 && lock.holder != me)
    && (lock.owner == 0 ==> lock == Mutex(0, 0, 0))
    && (lock.holder == me ==> lock.owner == me && (lock.depth == 0 <==> pc == TryHolding(m)))
    && (pc == InAcquire(m) || pc == TryTaken(m) ==> lock == Mutex(0, 0, me))
    && (pc == TryHolding(m) ==> lock == Mutex(me, 0, me))
    && (lock.holder != 0 ==> lock.holder == lock.owner)
  }

  lemma RunnerSees(k: Kernel, m: nat)
    requires Inv(k) && m in k.mutexes
    ensures Seen(k, m)
  {
    SettledFacts(k);
    LockAt(k, m);
    RunnerNotQueued(k, MutexQueue(m));
    LockFree(k.threads, k.queues[MutexQueue(m)], k.counts[MutexQueue(m)], m, k.mutexes[m]);
    hide Sched, SyncOk;
  }

  /** How a mutex may change hands. */
  ghost predicate HandsOver(k: Kernel, e: Event, m: nat, lock': Mutex) {
    && (if LetsGo(k, e, m) then Lock(k, m).owner == k.current && lock'.owner == Heir(k, MutexQueue(m))
        else lock'.owner == Lock(k, m).owner || (Lock(k, m).owner == 0 && lock'.owner == k.current))
    && (Lock(k, m).owner != 0 && Lock(k, m).owner != k.current ==> lock' == Lock(k, m))
  }

  lemma AskedHandsOver(k: Kernel, e: Event, m: nat)
    requires Seen(k, m) && (e.MutexAcquire? || e.CondReturn? || e.MutexTry?)
    ensures HandsOver(k, e, m, LockAfter(k, e, m))
  {
    hide Contended, Heir, Waiting;
    match e {
      case MutexAcquire(_) =>
      case CondReturn =>
      case MutexTry(_) =>
    }
  }

  lemma WrittenHandsOver(k: Kernel, e: Event, m: nat)
    requires Seen(k, m) && (e.MutexReturn? || e.MutexTryHolder? || e.MutexTryDepth?)
    ensures HandsOver(k, e, m, LockAfter(k, e, m))
  {
    hide Contended, Heir, Waiting;
    match e {
      case MutexReturn =>
      case MutexTryHolder =>
      case MutexTryDepth =>
    }
  }

  lemma ReleasedHandsOver(k: Kernel, e: Event, m: nat)
    requires Seen(k, m) && Enabled(k, e) && m in k.mutexes && (e.MutexRelease? || e.CondWait?)
    ensures HandsOver(k, e, m, LockAfter(k, e, m))
  {
    hide Contended, Heir, Waiting;
    match e {
      case MutexRelease(_) =>
      case CondWait(_, _) =>
    }
  }

  /** The events that can change a mutex. */
  predicate TouchesLocks(e: Event) {
    e.MutexAcquire? || e.CondReturn? || e.MutexTry? || e.MutexReturn? || e.MutexTryHolder? || e.MutexTryDepth?
    || e.MutexRelease? || e.CondWait?
  }

  lemma UntouchedLock(k: Kernel, e: Event, t: Tcb, m: nat)
    requires !TouchesLocks(e)
    ensures LockAfter(k, e, m) == Lock(k, m) && !LetsGo(k, e, m) && Gain(k, e, t, m) == 0
  {
    hide At, Contended, Lock;
  }

  lemma OwnerAfter(k: Kernel, e: Event, m: nat)
    requires Seen(k, m) && Enabled(k, e) && m in k.mutexes
    ensures HandsOver(k, e, m, LockAfter(k, e, m))
  {
    if !TouchesLocks(e) {
      hide Enabled, Seen, LockAfter, LetsGo;
      UntouchedLock(k, e, 0, m);
    } else if e.MutexAcquire? || e.CondReturn? || e.MutexTry? {
      AskedHandsOver(k, e, m);
    } else if e.MutexRelease? || e.CondWait? {
      ReleasedHandsOver(k, e, m);
    } else {
      WrittenHandsOver(k, e, m);
    }
  }

  /** A mutex gets a new owner only by the running thread taking it while it is free, or by its owner's release of the
      outermost hold, which passes it to the longest waiter; and nobody but its owner changes a mutex that has one. */
  lemma OwnerStep(k: Kernel, e: Event, m: nat)
    requires Inv(k) && Enabled(k, e) && m in k.mutexes
    ensures var o, o' := Lock(k, m).owner, Lock(Step(k, e), m).owner;
      if LetsGo(k, e, m) then o == k.current && o' == Heir(k, MutexQueue(m))
      else o' == o || (o == 0 && o' == k.current)
    ensures Lock(k, m).owner != 0 && Lock(k, m).owner != k.current ==> Lock(Step(k, e), m) == Lock(k, m)
  {
    hide Inv, Step, Seen, LockAfter, Enabled, Lock, Heir, LetsGo;
    StepLock(k, e, m);
    RunnerSees(k, m);
    OwnerAfter(k, e, m);
  }

  /** Thread `t` has not let `m` go in the steps `i` up to `j`. */
  ghost predicate HeldOn(ks: seq<Kernel>, es: seq<Event>, m: nat, t: Tcb, i: nat, j: nat)
    requires j <= |es| < |ks|
  {
    forall l :: i <= l < j && ks[l].current == t ==> !LetsGo(ks[l], es[l], m)
  }

  lemma {:induction false} OwnedUntilLetGo(ks: seq<Kernel>, es: seq<Event>, m: nat, t: Tcb, i: nat, j: nat)
    requires IsRun(ks, es) && i <= j <= |es| && m in ks[i].mutexes
    requires Lock(ks[i], m).owner == t && t != 0 && HeldOn(ks, es, m, t, i, j)
    ensures Lock(ks[j], m).owner == t && m in ks[j].mutexes
  {
    hide Inv, Stepped, Act, Step, Enabled, Init, Yields, LetsGo;
    if i < j {
      OwnedUntilLetGo(ks, es, m, t, i, j - 1);
      RunStep(ks, es, j - 1);
      OwnerStep(ks[j - 1], es[j - 1], m);
      MutexThere(ks[j], m);
    }
  }

  lemma MutexThere(k: Kernel, m: nat)
    requires Lock(k, m).owner != 0
    ensures m in k.mutexes
  {
  }

  /** Handoff without barging: when the outermost hold is let go while threads wait, the longest waiter has the mutex
      from that very step until it lets it go itself, and no other thread has it in between, not even before it runs
      again. */
  lemma HandedToLongestWaiter(ks: seq<Kernel>, es: seq<Event>, m: nat, i: nat, j: nat, u: Tcb)
    requires IsRun(ks, es) && i < j <= |es| && m in ks[i].mutexes
    requires LetsGo(ks[i], es[i], m) && Waiting(ks[i], MutexQueue(m)) != []
    requires HeldOn(ks, es, m, Waiting(ks[i], MutexQueue(m))[0], i + 1, j)
    ensures Has(ks[j], u, m) <==> u == Waiting(ks[i], MutexQueue(m))[0]
  {
    hide Inv, Stepped, Act, Step, Enabled, Init, Yields, LetsGo, Lock, Has;
    var t := Waiting(ks[i], MutexQueue(m))[0];
    RunStep(ks, es, i);
    OwnerStep(ks[i], es[i], m);
    WaiterNotNull(ks[i], MutexQueue(m));
    MutexThere(ks[i + 1], m);
    OwnedUntilLetGo(ks, es, m, t, i + 1, j);
    RunInv(ks, es, j);
    HasIsOwner(ks[j], u, m);
  }

  lemma WaiterNotNull(k: Kernel, q: QueueId)
    requires Inv(k)
    ensures 0 !in Waiting(k, q)
  {
    hide SyncOk, Sched;
    if q in k.queues { QueueFacts(k, q); }
  }

  // ---------------------------------------------------------------- recursion

  /** How often `t` holds `m`. */
  function Level(lock: Mutex, t: Tcb): nat {
    if lock.holder == t then lock.depth else 0
  }

  /** An acquire of `m` by `t` completes with the event (1), a release by `t` is made (-1), or neither. */
  function Gain(k: Kernel, e: Event, t: Tcb, m: nat): int {
    var pc := At(k, t).pc;
    if k.current != t then 0
    else match e
      case MutexAcquire(x) => if x == m && !Contended(k, m) then 1 else 0
      case MutexTry(x) => if x == m && Lock(k, m).holder == t then 1 else 0
      case MutexReturn => if pc == InAcquire(m) then 1 else 0
      case MutexTryDepth => if pc == TryHolding(m) then 1 else 0
      case CondReturn => if pc.InCond? && pc.lock == m && !Contended(k, m) then 1 else 0
      case MutexRelease(x) => if x == m then -1 else 0
      case CondWait(_, x) => if x == m then -1 else 0
      case _ => 0
  }

  lemma AskedLevel(k: Kernel, e: Event, t: Tcb, m: nat)
    requires Seen(k, m) && t != 0 && (e.MutexAcquire? || e.CondReturn? || e.MutexTry?)
    ensures Level(LockAfter(k, e, m), t) == Level(Lock(k, m), t) + Gain(k, e, t, m)
  {
    hide Contended, Heir, Waiting;
    match e {
      case MutexAcquire(_) =>
      case CondReturn =>
      case MutexTry(_) =>
    }
  }

  lemma WrittenLevel(k: Kernel, e: Event, t: Tcb, m: nat)
    requires Seen(k, m) && t != 0 && (e.MutexReturn? || e.MutexTryHolder? || e.MutexTryDepth?)
    ensures Level(LockAfter(k, e, m), t) == Level(Lock(k, m), t) + Gain(k, e, t, m)
  {
    hide Contended, Heir, Waiting;
    match e {
      case MutexReturn =>
      case MutexTryHolder =>
      case MutexTryDepth =>
    }
  }

  lemma ReleasedLevel(k: Kernel, e: Event, t: Tcb, m: nat)
    requires Seen(k, m) && Enabled(k, e) && t != 0 && (e.MutexRelease? || e.CondWait?)
    ensures Level(LockAfter(k, e, m), t) == Level(Lock(k, m), t) + Gain(k, e, t, m)
  {
    hide Contended, Heir, Waiting;
    match e {
      case MutexRelease(_) =>
      case CondWait(_, _) =>
    }
  }

  lemma LevelAfter(k: Kernel, e: Event, t: Tcb, m: nat)
    requires Seen(k, m) && Enabled(k, e) && t != 0
    ensures Level(LockAfter(k, e, m), t) == Level(Lock(k, m), t) + Gain(k, e, t, m)
  {
    hide Enabled, Seen, LockAfter, Gain, Lock;
    if !TouchesLocks(e) {
      UntouchedLock(k, e, t, m);
    } else if e.MutexAcquire? || e.CondReturn? || e.MutexTry? {
      AskedLevel(k, e, t, m);
    } else if e.MutexRelease? || e.CondWait? {
      ReleasedLevel(k, e, t, m);
    } else {
      WrittenLevel(k, e, t, m);
    }
  }

  /** The running thread's call names another mutex, or none. */
  ghost predicate Elsewhere(pc: Pc, m: nat) {
    !About(pc, m) && !(pc.InCond? && pc.lock == m)
  }

  lemma CallsElsewhere(k: Kernel, m: nat)
    requires Inv(k) && m !in k.mutexes
    ensures Elsewhere(At(k, k.current).pc, m)
  {
    SettledFacts(k);
    assert Known(k.mutexes, PcOf(k.threads, k.current));
  }

  lemma UnknownLock(k: Kernel, e: Event, t: Tcb, m: nat)
    requires Enabled(k, e) && m !in k.mutexes && Elsewhere(At(k, k.current).pc, m) && TouchesLocks(e)
    ensures LockAfter(k, e, m) == Lock(k, m) && Gain(k, e, t, m) == 0
  {
    hide Contended, Heir, Lock;
    match e {
      case MutexAcquire(_) =>
      case CondReturn =>
      case MutexReturn =>
      case MutexTry(_) =>
      case MutexTryHolder =>
      case MutexTryDepth =>
      case MutexRelease(_) =>
      case CondWait(_, _) =>
    }
  }

  lemma NoMutexNoLevel(k: Kernel, e: Event, t: Tcb, m: nat)
    requires Inv(k) && Enabled(k, e) && m !in k.mutexes
    ensures LockAfter(k, e, m) == Lock(k, m) && Gain(k, e, t, m) == 0
  {
    hide Inv, Enabled, LockAfter, Gain, Lock, Elsewhere;
    CallsElsewhere(k, m);
    if TouchesLocks(e) { UnknownLock(k, e, t, m); } else { UntouchedLock(k, e, t, m); }
  }

  lemma LevelStep(k: Kernel, e: Event, t: Tcb, m: nat)
    requires Inv(k) && Enabled(k, e) && t != 0
    ensures Level(Lock(Step(k, e), m), t) == Level(Lock(k, m), t) + Gain(k, e, t, m)
  {
    hide Inv, Step, Seen, LockAfter, Enabled, Lock, Gain;
    StepLock(k, e, m);
    if m in k.mutexes {
      RunnerSees(k, m);
      LevelAfter(k, e, t, m);
    } else {
      NoMutexNoLevel(k, e, t, m);
    }
  }

  /** Completed acquires of `m` by `t` less its releases, in the first `n` steps. */
  ghost function Balance(ks: seq<Kernel>, es: seq<Event>, t: Tcb, m: nat, n: nat): int
    requires n <= |es| < |ks|
  {
    if n == 0 then 0 else Balance(ks, es, t, m, n - 1) + Gain(ks[n - 1], es[n - 1], t, m)
  }

  /** By control block address: the recursion count of the holder is the completed acquires less the releases made at
      its address, and at any other address as many of one as of the other have been made. */
  lemma {:induction false} RecursionBalanced(ks: seq<Kernel>, es: seq<Event>, t: Tcb, m: nat, n: nat)
    requires IsRun(ks, es) && n <= |es| && t != 0
    ensures Balance(ks, es, t, m, n) == Level(Lock(ks[n], m), t)
  {
    hide Inv, Stepped, Act, Step, Enabled, Yields, Gain;
    if n > 0 {
      RecursionBalanced(ks, es, t, m, n - 1);
      RunStep(ks, es, n - 1);
      LevelStep(ks[n - 1], es[n - 1], t, m);
    }
  }

  // ---------------------------------------------------------------- a blocked acquire to its end

  /** The interrupt moves no thread in its call. */
  lemma StepPcs(k: Kernel, e: Event, t: Tcb)
    requires Inv(k) && Enabled(k, e)
    ensures PcOf(Step(k, e).threads, t) == PcOf(Act(k, e).threads, t)
  {
    hide Inv, Sched, Step, Act, Enabled, Yields, Rescheduled, Keeps, PcOf;
    StepExact(k, e);
  }

  lemma RunnerPc(k: Kernel)
    requires Inv(k)
    ensures At(k, k.current).pc == PcOf(k.threads, k.current)
  {
    SettledFacts(k);
  }

  lemma RequestPc(k: Kernel, m: nat)
    requires PcOf(k.threads, k.current) == Client
    ensures PcOf(Request(k, m).threads, k.current) == if Contended(k, m) then InAcquire(m) else Client
  {
    hide Reschedule;
  }

  lemma SettledThere(k: Kernel)
    requires Inv(k)
    ensures k.current != 0
  {
    SettledFacts(k);
  }

  /** The grant that ends a blocked acquire. */
  lemma GrantedHoldsOnce(k: Kernel, m: nat)
    requires Inv(k) && Enabled(k, MutexReturn) && At(k, k.current).pc == InAcquire(m)
    ensures Lock(k, m) == Mutex(0, 0, k.current)
    ensures Lock(Step(k, MutexReturn), m) == Mutex(k.current, 1, k.current)
  {
    hide Inv, Step, Enabled;
    StepLock(k, MutexReturn, m);
    MutexReturnInv(k);
  }

  /** The step with which a thread leaves a call it was blocked in. */
  function ReturnOf(pc: Pc): Event {
    if pc.InCond? then CondReturn else MutexReturn
  }

  /** A thread inside a call moves only by its own steps. */
  lemma PcStep(k: Kernel, e: Event, t: Tcb)
    requires Inv(k) && Enabled(k, e)
    requires PcOf(k.threads, t).InCond? || PcOf(k.threads, t).InAcquire?
    requires !(t == k.current && e == ReturnOf(PcOf(k.threads, t)))
    ensures PcOf(Step(k, e).threads, t) == PcOf(k.threads, t)
    ensures t == k.current ==> e == Irq
  {
    hide Inv, Step, Enabled;
    StepPcs(k, e, t);
    if t == k.current {
      IdleOutside(k);
      RunnerPc(k);
      OnlyReturn(k, e);
      IrqPc(k, t);
    } else {
      hide Act;
      ActKeeps(k, e);
    }
  }

  lemma IrqPc(k: Kernel, t: Tcb)
    ensures PcOf(Act(k, Irq).threads, t) == PcOf(k.threads, t)
  {
  }

  lemma OnlyReturn(k: Kernel, e: Event)
    requires Enabled(k, e) && k.current != k.idle
    requires At(k, k.current).pc.InCond? || At(k, k.current).pc.InAcquire?
    ensures e == Irq || e == ReturnOf(At(k, k.current).pc)
  {
  }

  lemma IdleOutside(k: Kernel)
    requires Inv(k)
    ensures k.current == k.idle ==> At(k, k.current).pc.Client?
  {
  }

  /** While a thread is in a blocked acquire it waits in the queue, or the mutex is its and nobody else's. */
  lemma GrantedAlone(k: Kernel, t: Tcb, u: Tcb, m: nat)
    requires Inv(k) && PcOf(k.threads, t) == InAcquire(m) && t !in Waiting(k, MutexQueue(m))
    ensures Has(k, u, m) <==> u == t
  {
    hide Sched, LocksOk, SemsOk;
    assert Known(k.mutexes, PcOf(k.threads, t));
    SchedCurrent(k);
    HasIsOwner(k, t, m);
    HasIsOwner(k, u, m);
  }

  /** The call that `t` is in at `i` ends at `j`. */
  ghost predicate CallEnds(ks: seq<Kernel>, t: Tcb, i: nat, j: nat)
    requires i <= j < |ks|
  {
    PcOf(ks[j].threads, t) == Client && forall l :: i <= l < j ==> PcOf(ks[l].threads, t) != Client
  }

  /** A blocked acquire ends with the caller holding the mutex once; until then the caller is in the queue, or has
      been granted the mutex, and then no other thread has it. */
  lemma {:induction false} AcquireEnds(ks: seq<Kernel>, es: seq<Event>, t: Tcb, m: nat, i: nat, j: nat)
    requires IsRun(ks, es) && i < j <= |es| && PcOf(ks[i].threads, t) == InAcquire(m) && CallEnds(ks, t, i, j)
    ensures Lock(ks[j], m) == Mutex(t, 1, t) && ks[j].current == t
    ensures forall l, u :: i <= l < j && t !in Waiting(ks[l], MutexQueue(m)) ==> (Has(ks[l], u, m) <==> u == t)
    decreases j - i
  {
    hide Inv, Stepped, Act, Step, Enabled, Init, Yields, Lock, PcOf, Has, Waiting;
    RunStep(ks, es, i);
    RunnerPc(ks[i]);
    if t == ks[i].current && es[i] == MutexReturn {
      GrantedHoldsOnce(ks[i], m);
      GrantedClient(ks[i]);
      assert j == i + 1;
    } else {
      PcStep(ks[i], es[i], t);
      AcquireEnds(ks, es, t, m, i + 1, j);
    }
    forall u | t !in Waiting(ks[i], MutexQueue(m)) ensures Has(ks[i], u, m) <==> u == t {
      GrantedAlone(ks[i], t, u, m);
    }
  }

  lemma GrantedClient(k: Kernel)
    requires At(k, k.current).pc.InAcquire?
    ensures PcOf(Step(k, MutexReturn).threads, k.current) == Client && Step(k, MutexReturn).current == k.current
  {
  }

  /** A call of `mutex_acquire` that blocks, from the call to its end. */
  lemma BlockedAcquireHolds(ks: seq<Kernel>, es: seq<Event>, m: nat, i: nat, j: nat)
    requires IsRun(ks, es) && i < j <= |es| && es[i] == MutexAcquire(m) && Contended(ks[i], m)
    requires CallEnds(ks, ks[i].current, i + 1, j)
    ensures var t := ks[i].current;
      && Lock(ks[j], m) == Mutex(t, 1, t) && ks[j].current == t
      && forall l, u :: i < l < j && t !in Waiting(ks[l], MutexQueue(m)) ==> (Has(ks[l], u, m) <==> u == t)
  {
    hide Inv, Stepped, Act, Step, Init, Yields, Lock, PcOf, Has, Waiting, Contended;
    RunStep(ks, es, i);
    AskedPc(ks[i], m);
    assert j > i + 1;
    AcquireEnds(ks, es, ks[i].current, m, i + 1, j);
  }

  lemma AskedPc(k: Kernel, m: nat)
    requires Inv(k) && Enabled(k, MutexAcquire(m)) && Contended(k, m)
    ensures PcOf(Step(k, MutexAcquire(m)).threads, k.current) == InAcquire(m)
  {
    hide Step, Inv, Contended, Request, PcOf;
    StepPcs(k, MutexAcquire(m), k.current);
    RunnerPc(k);
    RequestPc(k, m);
  }
}
