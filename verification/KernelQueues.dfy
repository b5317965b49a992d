/** Wait queues, counts and mutexes: what each step does to them, and the order in which waiters are served. */
module KernelQueues {
  import opened KernelState
  import opened KernelPlaces
  import opened KernelLocks
  import opened KernelSteps
  import opened KernelActs
  import opened KernelInterrupt
  import opened KernelRuns
  import opened KernelOrder

  // ---------------------------------------------------------------- one step, one queue

  /** The event lets the outermost hold on `m` go. */
  predicate LetsGo(k: Kernel, e: Event, m: nat) {
    (e == MutexRelease(m) || (e.CondWait? && e.lock == m)) && Lock(k, m).depth == 1
  }

  /** How many waiters of `q` the event wakes, if there are that many. */
  function Wakes(k: Kernel, e: Event, q: QueueId): nat {
    match q
    case SemQueue(s) => if e == SemUp(s) then 1 else 0
    case MutexQueue(m) => if LetsGo(k, e, m) then 1 else 0
    case CondQueue(c) => if e == CondSignal(c) then 1 else if e == CondBroadcast(c) then |Waiting(k, q)| else 0
  }

  /** The event makes the running thread join `q`. */
  predicate Joins(k: Kernel, e: Event, q: QueueId) {
    match e
    case SemDown(s) => q == SemQueue(s) && CountOf(k, q) <= 0
    case MutexAcquire(m) => q == MutexQueue(m) && Contended(k, m)
    case CondWait(c, _) => q == CondQueue(c)
    case CondReturn => At(k, k.current).pc.InCond? && q == MutexQueue(At(k, k.current).pc.lock) && Yields(k, e)
    case _ => false
  }

  function Drop<T>(s: seq<T>, n: nat): seq<T> {
    if n <= |s| then s[n..] else []
  }

  function QueueAfter(k: Kernel, e: Event, q: QueueId): seq<Tcb> {
    Drop(Waiting(k, q), Wakes(k, e, q)) + if Joins(k, e, q) then [k.current] else []
  }

  lemma WakeFirstWaiting(k: Kernel, q: QueueId, p: QueueId)
    ensures Waiting(WakeFirst(k, q), p) == if p == q then Drop(Waiting(k, q), 1) else Waiting(k, p)
    ensures WakeFirst(k, q).mutexes == k.mutexes && WakeFirst(k, q).counts == k.counts
  {
  }

  lemma BlockWaiting(k: Kernel, q: QueueId, pc: Pc, p: QueueId)
    ensures Waiting(Block(k, q, pc), p) == if p == q then Waiting(k, q) + [k.current] else Waiting(k, p)
    ensures Block(k, q, pc).mutexes == k.mutexes && Block(k, q, pc).counts == k.counts
  {
  }

  lemma ReleaseWaiting(k: Kernel, m: nat, p: QueueId)
    ensures Waiting(Release(k, m), p) == Drop(Waiting(k, p), if p == MutexQueue(m) && Lock(k, m).depth == 1 then 1
      else 0)
  {
    hide WakeFirst;
    var q := MutexQueue(m);
    var k1 := AddCount(SetLock(k, m, Mutex(0, 0, Heir(k, q))), q, 1);
    WakeFirstWaiting(k1, q, p);
    assert Waiting(k1, p) == Waiting(k, p);
  }

  lemma RequestWaiting(k: Kernel, m: nat, p: QueueId)
    ensures Waiting(Request(k, m), p) == Waiting(k, p) + if p == MutexQueue(m) && Contended(k, m) then [k.current]
      else []
  {
    hide Block, Reschedule;
    BlockWaiting(AddCount(k, MutexQueue(m), -1), MutexQueue(m), InAcquire(m), p);
  }

  /** A new queue is empty. */
  lemma NewQueueEmpty(k: Kernel, e: Event, q: QueueId)
    requires Enabled(k, e) && (e.NewSem? || e.NewMutex? || e.NewCond?)
    ensures Waiting(Act(k, e), q) == Waiting(k, q)
  {
    hide At, CountOf, Lock;
    match e {
      case NewSem(_, _) =>
      case NewMutex(_) =>
      case NewCond(_) =>
    }
  }

  lemma BirthQueues(k: Kernel, e: Event)
    requires e.Create? || e.Publish?
    ensures Act(k, e).queues == k.queues
  {
    match e {
      case Create(_) =>
      case Publish =>
    }
  }

  /** Acts that touch no queue. */
  lemma NoQueue(k: Kernel, e: Event, q: QueueId)
    requires Enabled(k, e) && k.current in k.threads && (Local(e) || e.Create? || e.Publish?)
    ensures Waiting(Act(k, e), q) == Waiting(k, q)
  {
    hide Act, Enabled, At;
    if OwnStep(e) {
      OwnActs(k, e);
    } else if LockStep(e) {
      LockActs(k, e);
    } else if e.Create? || e.Publish? {
      BirthQueues(k, e);
    } else {
      NewQueueEmpty(k, e, q);
    }
  }

  lemma NoWakes(k: Kernel, e: Event, q: QueueId)
    requires Local(e) || e.Create? || e.Publish?
    ensures Wakes(k, e, q) == 0
  {
    hide Waiting, Lock;
  }

  lemma NoJoins(k: Kernel, e: Event, q: QueueId)
    requires Local(e) || e.Create? || e.Publish?
    ensures !Joins(k, e, q)
  {
    hide Contended, Yields, At, CountOf;
  }

  lemma NoQueueAfter(k: Kernel, e: Event, q: QueueId)
    requires Local(e) || e.Create? || e.Publish?
    ensures QueueAfter(k, e, q) == Waiting(k, q)
  {
    hide Waiting, Wakes, Joins, Local;
    NoWakes(k, e, q);
    NoJoins(k, e, q);
    assert Waiting(k, q)[0..] + [] == Waiting(k, q);
  }

  lemma DownQueueAfter(k: Kernel, s: nat, q: QueueId)
    ensures Waiting(Act(k, SemDown(s)), q) == QueueAfter(k, SemDown(s), q)
  {
    hide Block;
    BlockWaiting(AddCount(k, SemQueue(s), -1), SemQueue(s), InSem(s), q);
  }

  lemma UpQueueAfter(k: Kernel, s: nat, q: QueueId)
    ensures Waiting(Act(k, SemUp(s)), q) == QueueAfter(k, SemUp(s), q)
  {
    hide WakeFirst;
    WakeFirstWaiting(AddCount(k, SemQueue(s), 1), SemQueue(s), q);
  }

  lemma SignalQueueAfter(k: Kernel, c: nat, q: QueueId)
    ensures Waiting(Act(k, CondSignal(c)), q) == QueueAfter(k, CondSignal(c), q)
  {
    hide WakeFirst;
    WakeFirstWaiting(k, CondQueue(c), q);
  }

  lemma BroadcastQueueAfter(k: Kernel, c: nat, q: QueueId)
    ensures Waiting(Act(k, CondBroadcast(c)), q) == QueueAfter(k, CondBroadcast(c), q)
  {
    hide WakeAll;
    WakeAllOrder(k, CondQueue(c));
  }

  lemma AcquireQueueAfter(k: Kernel, m: nat, q: QueueId)
    ensures Waiting(Act(k, MutexAcquire(m)), q) == QueueAfter(k, MutexAcquire(m), q)
  {
    hide Request, Contended;
    RequestWaiting(k, m, q);
  }

  lemma ReleaseQueueAfter(k: Kernel, m: nat, q: QueueId)
    ensures Waiting(Act(k, MutexRelease(m)), q) == QueueAfter(k, MutexRelease(m), q)
  {
    hide Release;
    ReleaseWaiting(k, m, q);
  }

  lemma ReturnQueueAfter(k: Kernel, q: QueueId)
    requires At(k, k.current).pc.InCond?
    ensures Waiting(Act(k, CondReturn), q) == QueueAfter(k, CondReturn, q)
  {
    hide Request, Contended;
    RequestWaiting(SetPc(k, k.current, Client), At(k, k.current).pc.lock, q);
  }

  lemma ActQueue(k: Kernel, e: Event, q: QueueId)
    requires Enabled(k, e) && k.current in k.threads
    ensures Waiting(Act(k, e), q) == QueueAfter(k, e, q)
  {
    hide Act, QueueAfter, Waiting;
    match e {
      case SemDown(s) => DownQueueAfter(k, s, q);
      case SemUp(s) => UpQueueAfter(k, s, q);
      case CondSignal(c) => SignalQueueAfter(k, c, q);
      case MutexAcquire(m) => AcquireQueueAfter(k, m, q);
      case MutexRelease(m) => ReleaseQueueAfter(k, m, q);
      case CondReturn => ReturnQueueAfter(k, q);
      case CondWait(c, m) => CondWaitQueue(k, c, m, q);
      case CondBroadcast(c) => BroadcastQueueAfter(k, c, q);
      case _ => NoQueue(k, e, q); NoQueueAfter(k, e, q);
    }
  }

  lemma CondWaitQueue(k: Kernel, c: nat, m: nat, q: QueueId)
    ensures Waiting(Act(k, CondWait(c, m)), q) == QueueAfter(k, CondWait(c, m), q)
  {
    hide Release, Block;
    var k1 := Block(k, CondQueue(c), InCond(c, m));
    BlockWaiting(k, CondQueue(c), InCond(c, m), q);
    ReleaseWaiting(k1, m, q);
    assert Lock(k1, m) == Lock(k, m);
  }

  lemma RunnerIsThere(k: Kernel)
    requires Inv(k)
    ensures k.current in k.threads
  {
    SettledFacts(k);
  }

  /** Every step serves every queue first in, first out. */
  lemma StepQueue(k: Kernel, e: Event, q: QueueId)
    requires Inv(k) && Enabled(k, e)
    ensures Waiting(Step(k, e), q) == QueueAfter(k, e, q)
  {
    hide Inv, Act, Step, Enabled, Yields, QueueAfter, Keeps, Sched, Rescheduled, PcOf;
    RunnerIsThere(k);
    ActQueue(k, e, q);
    StepExact(k, e);
  }

  // ---------------------------------------------------------------- served first in, first out

  /** The act makes a waiter it wakes ready. */
  lemma WokenReady(k: Kernel, e: Event, q: QueueId, p: nat)
    requires Inv(k) && Enabled(k, e) && p < |Waiting(k, q)| && p < Wakes(k, e, q)
    ensures var t := Waiting(k, q)[p]; t in Act(k, e).threads && At(Act(k, e), t).status == Ready
  {
    hide Act, Enabled, SyncOk, Wakes, Joins;
    var t, a := Waiting(k, q)[p], Act(k, e);
    RunnerIsThere(k);
    ActQueue(k, e, q);
    ActKeeps(k, e);
    ActSound(k, e);
    WaiterFacts(k, q, p);
    assert t !in Waiting(a, q);
    WokenPlaced(k, a, q, t);
  }

  lemma WaiterFacts(k: Kernel, q: QueueId, p: nat)
    requires Inv(k) && p < |Waiting(k, q)|
    ensures var t := Waiting(k, q)[p];
      && t in k.threads && k.threads[t].status == Blocked && k.threads[t].pc.WaitsOn() == OnQueue(q) && t != k.current
      && forall n: nat :: p < n ==> t !in Drop(Waiting(k, q), n)
  {
    hide BirthsOk, PlacesOk, ListsOk, SyncOk;
    assert QueueOk(k.threads, k.idle, q, k.queues[q]);
    assert Waiting(k, q)[p] in Waiting(k, q);
  }

  /** A thread that left its queue and was blocked is ready. */
  lemma WokenPlaced(k: Kernel, a: Kernel, q: QueueId, t: Tcb)
    requires Keeps(k, a) && Sched(a) && t in k.threads && t != k.current && t !in Waiting(a, q)
    requires k.threads[t].status == Blocked && k.threads[t].pc.WaitsOn() == OnQueue(q)
    ensures t in a.threads && At(a, t).status == Ready
  {
    hide BirthsOk, QueuesOk, ListsOk;
    assert KeepsThread(k.threads[t], a.threads[t]);
    assert Placed(a, t, a.threads[t]);
  }

  lemma ServedStep(k: Kernel, e: Event, q: QueueId, p: nat)
    requires Inv(k) && Enabled(k, e) && p < |Waiting(k, q)|
    ensures p < Wakes(k, e, q) ==> At(Step(k, e), Waiting(k, q)[p]).status in {Ready, Running}
    ensures p >= Wakes(k, e, q) ==> p - Wakes(k, e, q) < |Waiting(Step(k, e), q)|
                                    && Waiting(Step(k, e), q)[p - Wakes(k, e, q)] == Waiting(k, q)[p]
  {
    hide Inv, Act, Step, Enabled, Yields, Joins, Wakes, Waiting, At, Keeps, SameSync;
    StepQueue(k, e, q);
    if p < Wakes(k, e, q) {
      WokenReady(k, e, q, p);
      StepExact(k, e);
      ReadyNotZombie(Act(k, e), Waiting(k, q)[p]);
    }
  }

  lemma ReadyNotZombie(k: Kernel, t: Tcb)
    requires Sched(k) && At(k, t).status == Ready
    ensures t !in k.zombies
  {
    hide BirthsOk, QueuesOk, PlacesOk, NoDup;
  }

  /** How many wake-ups queue `q` gets in the steps `i` up to `j`. */
  ghost function WakeUps(ks: seq<Kernel>, es: seq<Event>, q: QueueId, i: nat, j: nat): nat
    requires i <= j <= |es| && |es| < |ks|
  {
    if i == j then 0 else WakeUps(ks, es, q, i, j - 1) + Wakes(ks[j - 1], es[j - 1], q)
  }

  /** A waiter with `p` threads before it keeps its place behind them, moves up once for each wake-up, and is made
      ready by exactly the (p+1)-th: no wake-up is lost, none overtakes. This holds for semaphores, mutexes and
      condition variables. */
  lemma {:induction false} ServedInOrder(ks: seq<Kernel>, es: seq<Event>, q: QueueId, i: nat, j: nat, p: nat, t: Tcb)
    requires IsRun(ks, es) && i <= j <= |es| && p < |Waiting(ks[i], q)| && Waiting(ks[i], q)[p] == t
    requires WakeUps(ks, es, q, i, j) <= p
    ensures var p' := p - WakeUps(ks, es, q, i, j);
      && p' < |Waiting(ks[j], q)| && Waiting(ks[j], q)[p'] == t && At(ks[j], t).status == Blocked
      && (j < |es| && p' < Wakes(ks[j], es[j], q) ==> At(ks[j + 1], t).status in {Ready, Running})
  {
    hide Inv, Stepped, Act, Step, Enabled, Init, Yields, Wakes, Waiting, At;
    if i < j {
      ServedInOrder(ks, es, q, i, j - 1, p, t);
      RunStep(ks, es, j - 1);
      ServedStep(ks[j - 1], es[j - 1], q, p - WakeUps(ks, es, q, i, j - 1));
    }
    var p' := p - WakeUps(ks, es, q, i, j);
    RunInv(ks, es, j);
    WaiterBlocked(ks[j], q, p');
    if j < |es| {
      RunStep(ks, es, j);
      ServedStep(ks[j], es[j], q, p');
    }
  }

  lemma WaiterBlocked(k: Kernel, q: QueueId, p: nat)
    requires Inv(k) && p < |Waiting(k, q)|
    ensures At(k, Waiting(k, q)[p]).status == Blocked
  {
    WaiterFacts(k, q, p);
  }
}
