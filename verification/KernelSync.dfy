/** Semaphores over whole runs. */
module KernelSync {
  import opened KernelState
  import opened KernelPlaces
  import opened KernelLocks
  import opened KernelActs
  import opened KernelInterrupt
  import opened KernelRuns
  import opened KernelOrder
  import opened KernelQueues

  // ---------------------------------------------------------------- semaphore counts

  /** What an event adds to the count of semaphore `s`. */
  function Change(k: Kernel, e: Event, s: nat): int {
    match e
    case NewSem(x, n) => if x == s then n else 0
    case SemUp(x) => if x == s then 1 else 0
    case SemDown(x) => if x == s then -1 else 0
    case SemTry(x) => if x == s && CountOf(k, SemQueue(s)) > 0 then -1 else 0
    case _ => 0
  }

  ghost predicate SameSemCounts(k: Kernel, k': Kernel) {
    forall s :: (SemQueue(s) in k.counts <==> SemQueue(s) in k'.counts)
      && CountOf(k', SemQueue(s)) == CountOf(k, SemQueue(s))
  }

  lemma ReleaseCounts(k: Kernel, m: nat)
    ensures SameSemCounts(k, Release(k, m))
  {
    hide WakeFirst;
    var k1 := AddCount(SetLock(k, m, Mutex(0, 0, Heir(k, MutexQueue(m)))), MutexQueue(m), 1);
    WakeFirstWaiting(k1, MutexQueue(m), MutexQueue(m));
  }

  lemma RequestCounts(k: Kernel, m: nat)
    ensures SameSemCounts(k, Request(k, m))
  {
    hide Block, Reschedule;
    BlockWaiting(AddCount(k, MutexQueue(m), -1), MutexQueue(m), InAcquire(m), MutexQueue(m));
  }

  lemma CondWaitCounts(k: Kernel, c: nat, m: nat)
    ensures SameSemCounts(k, Act(k, CondWait(c, m)))
  {
    hide Block, Release;
    BlockWaiting(k, CondQueue(c), InCond(c, m), CondQueue(c));
    ReleaseCounts(Block(k, CondQueue(c), InCond(c, m)), m);
  }

  lemma CondReturnCounts(k: Kernel)
    requires At(k, k.current).pc.InCond?
    ensures SameSemCounts(k, Act(k, CondReturn))
  {
    hide Request;
    RequestCounts(SetPc(k, k.current, Client), At(k, k.current).pc.lock);
  }

  lemma WakeCounts(k: Kernel, c: nat)
    ensures SameSemCounts(k, Act(k, CondSignal(c))) && SameSemCounts(k, Act(k, CondBroadcast(c)))
  {
    hide WakeFirst, WakeAll, SameSemCounts, Waiting, At, Reversed;
    WakeFirstWaiting(k, CondQueue(c), CondQueue(c));
    WakeAllOrder(k, CondQueue(c));
    SameCounts(k, WakeFirst(k, CondQueue(c)));
    SameCounts(k, WakeAll(k, CondQueue(c)));
  }

  lemma LockCounts(k: Kernel, m: nat)
    ensures SameSemCounts(k, Act(k, MutexAcquire(m))) && SameSemCounts(k, Act(k, MutexRelease(m)))
  {
    hide Request, Release, SameSemCounts;
    RequestCounts(k, m);
    ReleaseCounts(k, m);
  }

  lemma UpCounts(k: Kernel, x: nat, s: nat)
    ensures CountOf(Act(k, SemUp(x)), SemQueue(s)) == CountOf(k, SemQueue(s)) + Change(k, SemUp(x), s)
    ensures SemQueue(s) in k.counts ==> SemQueue(s) in Act(k, SemUp(x)).counts
  {
    hide WakeFirst;
    WakeFirstWaiting(AddCount(k, SemQueue(x), 1), SemQueue(x), SemQueue(x));
  }

  lemma DownCounts(k: Kernel, x: nat, s: nat)
    ensures CountOf(Act(k, SemDown(x)), SemQueue(s)) == CountOf(k, SemQueue(s)) + Change(k, SemDown(x), s)
    ensures SemQueue(s) in k.counts ==> SemQueue(s) in Act(k, SemDown(x)).counts
  {
    hide Block;
    BlockWaiting(AddCount(k, SemQueue(x), -1), SemQueue(x), InSem(x), SemQueue(x));
  }

  lemma TryCounts(k: Kernel, x: nat, s: nat)
    ensures CountOf(Act(k, SemTry(x)), SemQueue(s)) == CountOf(k, SemQueue(s)) + Change(k, SemTry(x), s)
    ensures SemQueue(s) in k.counts ==> SemQueue(s) in Act(k, SemTry(x)).counts
  {
  }

  lemma NewCounts(k: Kernel, x: nat, n: nat, s: nat)
    requires SemQueue(x) !in k.counts
    ensures CountOf(Act(k, NewSem(x, n)), SemQueue(s)) == CountOf(k, SemQueue(s)) + Change(k, NewSem(x, n), s)
    ensures SemQueue(s) in k.counts ==> SemQueue(s) in Act(k, NewSem(x, n)).counts
  {
  }

  lemma SameCounts(k: Kernel, k': Kernel)
    requires k'.counts == k.counts
    ensures SameSemCounts(k, k')
  {
  }

  lemma WrittenCounts(k: Kernel, e: Event)
    requires e.MutexReturn? || e.MutexTryHolder? || e.MutexTryDepth? || e.Create? || e.Publish? || e.NewCond?
    ensures Act(k, e).counts == k.counts
  {
    hide Lock;
    match e {
      case MutexReturn =>
      case MutexTryHolder =>
      case MutexTryDepth =>
      case Create(_) =>
      case Publish =>
      case NewCond(_) =>
    }
  }

  lemma MutexOnlyCounts(k: Kernel, m: nat)
    ensures SameSemCounts(k, Act(k, MutexTry(m))) && SameSemCounts(k, Act(k, NewMutex(m)))
  {
  }

  /** The acts that are no semaphore calls leave semaphore counts alone. */
  lemma OtherCounts(k: Kernel, e: Event)
    requires k.current in k.threads && Enabled(k, e) && !e.SemUp? && !e.SemDown? && !e.SemTry? && !e.NewSem?
    ensures SameSemCounts(k, Act(k, e))
  {
    hide Act, SameSemCounts;
    match e {
      case MutexAcquire(m) => LockCounts(k, m);
      case MutexRelease(m) => LockCounts(k, m);
      case CondReturn => CondReturnCounts(k);
      case CondWait(c, m) => CondWaitCounts(k, c, m);
      case CondSignal(c) => WakeCounts(k, c);
      case CondBroadcast(c) => WakeCounts(k, c);
      case MutexTry(m) => MutexOnlyCounts(k, m);
      case NewMutex(m) => MutexOnlyCounts(k, m);
      case _ =>
        if OwnStep(e) { OwnActs(k, e); } else { WrittenCounts(k, e); }
        SameCounts(k, Act(k, e));
    }
  }

  lemma ActCounts(k: Kernel, e: Event, s: nat)
    requires k.current in k.threads && Enabled(k, e)
    ensures CountOf(Act(k, e), SemQueue(s)) == CountOf(k, SemQueue(s)) + Change(k, e, s)
    ensures SemQueue(s) in k.counts ==> SemQueue(s) in Act(k, e).counts
  {
    hide Act, CountOf;
    match e {
      case SemUp(x) => UpCounts(k, x, s);
      case SemDown(x) => DownCounts(k, x, s);
      case SemTry(x) => TryCounts(k, x, s);
      case NewSem(x, n) => NewCounts(k, x, n, s);
      case _ => OtherCounts(k, e);
    }
  }

  lemma CountStep(k: Kernel, e: Event, s: nat)
    requires Inv(k) && Enabled(k, e)
    ensures CountOf(Step(k, e), SemQueue(s)) == CountOf(k, SemQueue(s)) + Change(k, e, s)
    ensures SemQueue(s) in k.counts ==> SemQueue(s) in Step(k, e).counts
  {
    hide Inv, Act, Step, Yields, Keeps, Sched, Rescheduled, PcOf, Enabled, Change;
    RunnerIsThere(k);
    StepExact(k, e);
    ActCounts(k, e, s);
  }

  // ---------------------------------------------------------------- semaphore accounting over a run

  datatype Kind = Ups | Downs | Tries | Passes

  /** An up; a down; a successful try; a thread let through by a down, a try, or an up that finds a waiter. */
  predicate IsA(kind: Kind, k: Kernel, e: Event, s: nat) {
    match kind
    case Ups => e == SemUp(s)
    case Downs => e == SemDown(s)
    case Tries => e == SemTry(s) && CountOf(k, SemQueue(s)) > 0
    case Passes =>
      ((e == SemDown(s) || e == SemTry(s)) && CountOf(k, SemQueue(s)) > 0)
        || (e == SemUp(s) && Waiting(k, SemQueue(s)) != [])
  }

  ghost function Tally(kind: Kind, ks: seq<Kernel>, es: seq<Event>, s: nat, i: nat, j: nat): nat
    requires i <= j <= |es| && |es| < |ks|
  {
    if i == j then 0 else Tally(kind, ks, es, s, i, j - 1) + One(IsA(kind, ks[j - 1], es[j - 1], s))
  }

  function Max(a: int, b: int): int {
    if a < b then b else a
  }

  lemma SemWaiters(k: Kernel, s: nat)
    requires Inv(k) && SemQueue(s) in k.queues
    ensures |Waiting(k, SemQueue(s))| == Max(0, -CountOf(k, SemQueue(s)))
  {
    hide Sched, LocksOk;
  }

  function One(b: bool): nat {
    if b then 1 else 0
  }

  lemma ChangeIs(k: Kernel, e: Event, s: nat)
    requires !(e.NewSem? && e.sem == s)
    ensures Change(k, e, s) == One(e == SemUp(s)) - One(e == SemDown(s)) - One(e == SemTry(s)
      && CountOf(k, SemQueue(s)) > 0)
  {
    hide CountOf;
  }

  /** Every event on a semaphore keeps the number of threads let through equal to the resources handed out. */
  lemma PassStep(k: Kernel, e: Event, s: nat)
    requires Inv(k) && SemQueue(s) in k.queues && !(e.NewSem? && e.sem == s)
    ensures One(IsA(Passes, k, e, s)) + Max(CountOf(k, SemQueue(s)) + Change(k, e, s), 0)
      == One(IsA(Ups, k, e, s)) + Max(CountOf(k, SemQueue(s)), 0)
    ensures Change(k, e, s) == One(IsA(Ups, k, e, s)) - One(IsA(Downs, k, e, s)) - One(IsA(Tries, k, e, s))
  {
    hide Inv, CountOf, Waiting, Change;
    SemWaiters(k, s);
    ChangeIs(k, e, s);
  }

  /** For a semaphore started at `n`: the count is `n` plus ups less downs and successful tries; the queue is as long
      as the count is negative; and the threads let through are `n` plus ups less what is left, so never more than `n`
      plus ups. */
  lemma {:induction false} SemaphoreAccounts(ks: seq<Kernel>, es: seq<Event>, s: nat, n: nat, i: nat, j: nat)
    requires IsRun(ks, es) && i < j <= |es| && es[i] == NewSem(s, n)
    ensures var c := CountOf(ks[j], SemQueue(s));
      && c == n + Tally(Ups, ks, es, s, i + 1, j) - Tally(Downs, ks, es, s, i + 1, j) - Tally(Tries, ks, es, s, i + 1,
        j)
      && |Waiting(ks[j], SemQueue(s))| == Max(0, -c)
      && Tally(Passes, ks, es, s, i + 1, j) == n + Tally(Ups, ks, es, s, i + 1, j) - Max(c, 0)
    ensures Tally(Passes, ks, es, s, i + 1, j) <= n + Tally(Ups, ks, es, s, i + 1, j)
    ensures SemQueue(s) in ks[j].counts && SemQueue(s) in ks[j].queues
  {
    hide Inv, Act, Enabled, Init, Yields, Stepped, Step, CountOf, Waiting, IsA, Change;
    RunStep(ks, es, j - 1);
    CountStep(ks[j - 1], es[j - 1], s);
    RunInv(ks, es, j);
    if j == i + 1 {
      NewSemFresh(ks[i], s, n);
    } else {
      SemaphoreAccounts(ks, es, s, n, i, j - 1);
      QueueStays(ks[j - 1], es[j - 1], SemQueue(s));
      NewSemOnce(ks[j - 1], es[j - 1], s);
      PassStep(ks[j - 1], es[j - 1], s);
    }
    SemWaiters(ks[j], s);
  }

  lemma NewSemOnce(k: Kernel, e: Event, s: nat)
    requires Enabled(k, e) && SemQueue(s) in k.counts
    ensures !(e.NewSem? && e.sem == s)
  {
  }

  lemma NewSemFresh(k: Kernel, s: nat, n: nat)
    requires Enabled(k, NewSem(s, n))
    ensures CountOf(k, SemQueue(s)) == 0 && Change(k, NewSem(s, n), s) == n
    ensures SemQueue(s) in Step(k, NewSem(s, n)).counts && SemQueue(s) in Step(k, NewSem(s, n)).queues
  {
  }

  lemma QueueStays(k: Kernel, e: Event, q: QueueId)
    requires Inv(k) && Enabled(k, e) && q in k.queues
    ensures q in Step(k, e).queues
  {
    hide Inv, Step, Act, Enabled, Yields, Sched, Rescheduled, PcOf;
    StepExact(k, e);
  }
}
