/** Mutual exclusion: what every step keeps about mutexes and semaphores. */
module KernelLocks {
  import opened KernelState
  import opened KernelPlaces

  function PcOf(threads: Threads, t: Tcb): Pc {
    if t in threads then threads[t].pc else Client
  }

  /** The thread is on its way to mutex `m`, past the client's call and before the call's end. */
  predicate About(pc: Pc, m: nat) {
    pc == InAcquire(m) || pc == TryTaken(m) || pc == TryHolding(m)
  }

  /** A mutex, its wait queue `s` and its semaphore count `c`. The threads that hold it, have been let through by its
      semaphore, or have taken it by a try, are all the one thread `owner`. */
  ghost predicate LockOk(threads: Threads, s: seq<Tcb>, c: int, m: nat, lock: Mutex) {
    && c == (if lock.owner == 0 then 1 else 0) - |s|
    && (s != [] ==> lock.owner != 0)
    && lock.owner !in s
    && (lock.holder != 0 ==> lock.holder == lock.owner)
    && (forall t :: About(PcOf(threads, t), m) && t !in s ==> t == lock.owner)
    && (lock.holder == 0 && lock.owner != 0 ==>
          PcOf(threads, lock.owner) == InAcquire(m) || PcOf(threads, lock.owner) == TryTaken(m))
    && (lock.holder != 0 ==> PcOf(threads, lock.holder) != InAcquire(m) && PcOf(threads, lock.holder) != TryTaken(m))
    && (lock.depth == 0 <==> lock.holder == 0 || PcOf(threads, lock.holder) == TryHolding(m))
  }

  ghost predicate LocksOk(k: Kernel) {
    forall m :: m in k.mutexes ==>
      MutexQueue(m) in k.queues && MutexQueue(m) in k.counts
      && LockOk(k.threads, k.queues[MutexQueue(m)], k.counts[MutexQueue(m)], m, k.mutexes[m])
  }

  /** A semaphore's count, when negative, is the number of its waiters. */
  ghost predicate SemsOk(k: Kernel) {
    forall s :: SemQueue(s) in k.queues ==>
      SemQueue(s) in k.counts
      && |k.queues[SemQueue(s)]| == if k.counts[SemQueue(s)] < 0 then -k.counts[SemQueue(s)] else 0
  }

  /** A call names only a mutex that exists. */
  predicate Known(mutexes: map<nat, Mutex>, pc: Pc) {
    match pc
    case InAcquire(m) => m in mutexes
    case TryTaken(m) => m in mutexes
    case TryHolding(m) => m in mutexes
    case InCond(_, m) => m in mutexes
    case _ => true
  }

  ghost predicate CallsOk(threads: Threads, mutexes: map<nat, Mutex>) {
    forall t :: Known(mutexes, PcOf(threads, t))
  }

  /** What holds between steps, but for the current thread being settled. */
  ghost predicate SyncOk(k: Kernel) {
    LocksOk(k) && SemsOk(k) && CallsOk(k.threads, k.mutexes)
  }

  ghost predicate Inv(k: Kernel) {
    Sched(k) && Settled(k) && SyncOk(k)
  }

  // ---------------------------------------------------------------- frames

  lemma LockFrame(threads: Threads, threads': Threads, s: seq<Tcb>, c: int, m: nat, lock: Mutex)
    requires LockOk(threads, s, c, m, lock)
    requires forall t ::
      PcOf(threads', t) == PcOf(threads, t) || (!About(PcOf(threads', t), m) && !About(PcOf(threads, t), m))
    ensures LockOk(threads', s, c, m, lock)
  {
  }

  /** Threads whose call is about no mutex may come, go and change. */
  ghost predicate QuietPcs(threads: Threads, threads': Threads) {
    forall t :: PcOf(threads', t) == PcOf(threads, t) || (Quiet(PcOf(threads', t)) && Quiet(PcOf(threads, t)))
  }

  predicate Quiet(pc: Pc) {
    !pc.InAcquire? && !pc.TryTaken? && !pc.TryHolding?
  }

  lemma LocksFrame(k: Kernel, k': Kernel)
    requires LocksOk(k) && QuietPcs(k.threads, k'.threads) && k'.mutexes == k.mutexes
    requires forall m :: m in k.mutexes ==>
      MutexQueue(m) in k'.queues && MutexQueue(m) in k'.counts
        && Waiting(k', MutexQueue(m)) == Waiting(k, MutexQueue(m))
      && CountOf(k', MutexQueue(m)) == CountOf(k, MutexQueue(m))
    ensures LocksOk(k')
  {
    hide LockOk;
    forall m | m in k.mutexes ensures MutexQueue(m) in k'.queues && MutexQueue(m) in k'.counts
      && LockOk(k'.threads, k'.queues[MutexQueue(m)], k'.counts[MutexQueue(m)], m, k'.mutexes[m])
    {
      LockFrame(k.threads, k'.threads, k.queues[MutexQueue(m)], k.counts[MutexQueue(m)], m, k.mutexes[m]);
    }
  }

  /** Only mutex `m` and calls about it changed. */
  lemma LocksFrameBut(k: Kernel, k': Kernel, m: nat)
    requires LocksOk(k) && k'.mutexes.Keys == k.mutexes.Keys + {m}
    requires MutexQueue(m) in k'.queues && MutexQueue(m) in k'.counts
    requires LockOk(k'.threads, k'.queues[MutexQueue(m)], k'.counts[MutexQueue(m)], m, k'.mutexes[m])
    requires forall t, n :: n != m && About(PcOf(k'.threads, t), n) ==> PcOf(k'.threads, t) == PcOf(k.threads, t)
    requires forall t, n :: n != m && About(PcOf(k.threads, t), n) ==> PcOf(k'.threads, t) == PcOf(k.threads, t)
    requires forall n :: n in k.mutexes && n != m ==>
      k'.mutexes[n] == k.mutexes[n]
      && MutexQueue(n) in k'.queues && MutexQueue(n) in k'.counts
        && Waiting(k', MutexQueue(n)) == Waiting(k, MutexQueue(n))
      && CountOf(k', MutexQueue(n)) == CountOf(k, MutexQueue(n))
    ensures LocksOk(k')
  {
    hide LockOk;
    forall n | n in k'.mutexes ensures MutexQueue(n) in k'.queues && MutexQueue(n) in k'.counts
      && LockOk(k'.threads, k'.queues[MutexQueue(n)], k'.counts[MutexQueue(n)], n, k'.mutexes[n])
    {
      if n != m {
        LockFrame(k.threads, k'.threads, k.queues[MutexQueue(n)], k.counts[MutexQueue(n)], n, k.mutexes[n]);
      }
    }
  }

  // ---------------------------------------------------------------- the interrupt leaves locks alone

  /** The interrupt changes no queue, count or mutex and no thread's place in a call; blocks it frees were in their
      own code. */
  ghost predicate SameSync(k: Kernel, k': Kernel) {
    && k'.queues == k.queues && k'.counts == k.counts && k'.mutexes == k.mutexes && k'.idle == k.idle
    && forall t :: PcOf(k'.threads, t) == PcOf(k.threads, t)
  }

  lemma {:induction false} WakeDueSync(k: Kernel, pending: seq<Tcb>)
    requires forall t :: t in pending ==> t in k.threads
    ensures SameSync(k, WakeDue(k, pending))
    decreases |pending|
  {
    if pending != [] {
      var t := pending[0];
      assert t in pending && forall u :: u in pending[1..] ==> u in pending;
      if At(k, t).wakeup <= k.ticks {
        WakeDueSync(WakeSleeper(k, t), pending[1..]);
      } else {
        WakeDueSync(k, pending[1..]);
      }
    }
  }

  lemma {:induction false} ReapSync(k: Kernel, pending: seq<Tcb>)
    requires forall t :: t in pending ==> PcOf(k.threads, t) == Client
    ensures SameSync(k, Reap(k, pending))
    decreases |pending|
  {
    if pending != [] {
      var t := pending[0];
      assert t in pending && forall u :: u in pending[1..] ==> u in pending;
      if t != k.current {
        ReapSync(Reclaim(k, t), pending[1..]);
      } else {
        ReapSync(k, pending[1..]);
      }
    }
  }

  lemma StatusSync(k: Kernel, t: Tcb, status: Status)
    requires t in k.threads
    ensures SameSync(k, SetStatus(k, t, status))
  {
  }

  lemma ParkSync(k: Kernel)
    requires k.current in k.threads
    ensures SameSync(k, Park(k)) && forall t :: t in Park(k).threads <==> t in k.threads
  {
    StatusSync(k, k.current, Ready);
    StatusSync(k.(ready := [k.current] + k.ready), k.current, Ready);
    hide PcOf;
  }

  lemma DispatchSync(k: Kernel)
    requires k.current in k.threads && Pick(k) in k.threads
    ensures SameSync(k, Dispatch(k))
  {
    hide Pick, Park, SetStatus, PcOf;
    var k1 := if k.ready == [] then k else k.(ready := k.ready[..|k.ready| - 1]);
    ParkSync(k1);
    StatusSync(Park(k1).(current := Pick(k)), Pick(k), Running);
  }

  lemma ZombiesQuiet(k: Kernel)
    requires Sched(k)
    ensures forall t :: t in k.zombies ==> PcOf(k.threads, t) == Client
  {
    hide QueuesOk, BirthsOk, NoDup;
    forall t | t in k.zombies ensures PcOf(k.threads, t) == Client {
      assert Placed(k, t, k.threads[t]);
    }
  }

  lemma SleepersThere(k: Kernel)
    requires Sched(k)
    ensures forall t :: t in k.sleeping ==> t in k.threads
  {
  }

  lemma SchedCurrent(k: Kernel)
    requires Sched(k)
    ensures k.current in k.threads && k.idle in k.threads && 0 !in k.threads
  {
  }

  lemma TickSync(k: Kernel)
    requires Sched(k)
    ensures SameSync(k, Tick(k))
  {
    var k0 := k.(ticks := k.ticks + 1);
    SleepersThere(k);
    hide Sched, PcOf;
    WakeDueSync(k0, k0.sleeping);
  }

  lemma RescheduleSync(k: Kernel)
    requires Sched(k)
    ensures SameSync(k, Reschedule(k))
  {
    hide Sched, Tick, Reap, Dispatch, PcOf;
    var k1 := Tick(k);
    TickSync(k);
    TickSched(k);
    ZombiesQuiet(k1);
    ReapSync(k1, k1.zombies);
    ReapAllSched(k1);
    var k2 := Reap(k1, k1.zombies);
    SchedCurrent(k2);
    PickAsserted(k2);
    DispatchSync(k2);
  }

  lemma RescheduleInv(k: Kernel)
    requires Sched(k) && SyncOk(k)
    ensures Inv(Reschedule(k)) && SameSync(k, Reschedule(k))
  {
    hide Sched, LockOk, Reschedule, PcOf;
    RescheduleSched(k);
    RescheduleSync(k);
    LocksFrame(k, Reschedule(k));
  }

  // ---------------------------------------------------------------- one mutex, one operation

  /** Only thread `t` moves, to `pc`. */
  ghost predicate Moves(threads: Threads, threads': Threads, t: Tcb, pc: Pc) {
    PcOf(threads', t) == pc && forall u :: u != t ==> PcOf(threads', u) == PcOf(threads, u)
  }

  lemma LockRecurse(threads: Threads, s: seq<Tcb>, c: int, m: nat, lock: Mutex)
    requires LockOk(threads, s, c, m, lock) && lock.holder != 0 && !About(PcOf(threads, lock.holder), m)
    ensures LockOk(threads, s, c, m, lock.(depth := lock.depth + 1)) && lock.depth >= 1
  {
  }

  /** A mutex whose count is positive is nobody's. */
  lemma LockFree(threads: Threads, s: seq<Tcb>, c: int, m: nat, lock: Mutex)
    requires LockOk(threads, s, c, m, lock)
    ensures c > 0 <==> lock.owner == 0
    ensures lock.owner == 0 ==> c == 1 && s == [] && lock.holder == 0 && lock.depth == 0
    ensures |s| == if c < 0 then -c else 0
  {
  }

  lemma LockTake(threads: Threads, s: seq<Tcb>, c: int, m: nat, lock: Mutex, t: Tcb)
    requires LockOk(threads, s, c, m, lock) && c > 0 && t != 0 && !About(PcOf(threads, t), m)
      && !About(PcOf(threads, 0), m)
    ensures LockOk(threads, s, c - 1, m, Mutex(t, 1, t))
  {
    LockFree(threads, s, c, m, lock);
  }

  lemma LockEnqueue(threads: Threads, threads': Threads, s: seq<Tcb>, c: int, m: nat, lock: Mutex, t: Tcb)
    requires LockOk(threads, s, c, m, lock) && c <= 0 && lock.holder != t && !About(PcOf(threads, t), m) && t != 0
    requires Moves(threads, threads', t, InAcquire(m))
    ensures LockOk(threads', s + [t], c - 1, m, lock)
  {
    LockFree(threads, s, c, m, lock);
    assert lock.owner != t;
    forall u | About(PcOf(threads', u), m) && u !in s + [t] ensures u == lock.owner {
      assert u != t && u !in s;
    }
  }

  lemma LockGranted(threads: Threads, threads': Threads, s: seq<Tcb>, c: int, m: nat, lock: Mutex, t: Tcb)
    requires LockOk(threads, s, c, m, lock) && PcOf(threads, t) == InAcquire(m) && t !in s && t != 0
    requires Moves(threads, threads', t, Client)
    ensures lock.owner == t && lock.holder == 0 && LockOk(threads', s, c, m, Mutex(t, 1, t))
  {
  }

  lemma LockTryTake(threads: Threads, threads': Threads, s: seq<Tcb>, c: int, m: nat, lock: Mutex, t: Tcb)
    requires LockOk(threads, s, c, m, lock) && c > 0 && t != 0 && !About(PcOf(threads, t), m)
      && !About(PcOf(threads, 0), m)
    requires Moves(threads, threads', t, TryTaken(m))
    ensures LockOk(threads', s, c - 1, m, lock.(owner := t))
  {
    LockFree(threads, s, c, m, lock);
  }

  lemma LockTryHold(threads: Threads, threads': Threads, s: seq<Tcb>, c: int, m: nat, lock: Mutex, t: Tcb)
    requires LockOk(threads, s, c, m, lock) && PcOf(threads, t) == TryTaken(m) && t !in s && t != 0
    requires Moves(threads, threads', t, TryHolding(m))
    ensures lock.owner == t && lock.holder == 0 && LockOk(threads', s, c, m, lock.(holder := t))
  {
  }

  lemma LockTryDepth(threads: Threads, threads': Threads, s: seq<Tcb>, c: int, m: nat, lock: Mutex, t: Tcb)
    requires LockOk(threads, s, c, m, lock) && PcOf(threads, t) == TryHolding(m) && t !in s && t != 0
    requires Moves(threads, threads', t, Client)
    ensures lock.owner == t && LockOk(threads', s, c, m, lock.(depth := 1))
    ensures lock.holder == t && lock.depth == 0
  {
  }

  lemma LockUnwind(threads: Threads, s: seq<Tcb>, c: int, m: nat, lock: Mutex)
    requires LockOk(threads, s, c, m, lock) && lock.holder != 0 && lock.depth > 1
    ensures LockOk(threads, s, c, m, lock.(depth := lock.depth - 1))
  {
  }

  /** The outermost release hands the mutex to the longest waiter, or frees it. */
  lemma LockHandoff(threads: Threads, s: seq<Tcb>, c: int, m: nat, lock: Mutex)
    requires LockOk(threads, s, c, m, lock) && lock.holder != 0 && lock.depth == 1 && NoDup(s) && 0 !in s
    requires forall t :: t in s ==> PcOf(threads, t) == InAcquire(m)
    requires !About(PcOf(threads, lock.holder), m)
    ensures s == [] ==> LockOk(threads, [], c + 1, m, Mutex(0, 0, 0))
    ensures s != [] ==> LockOk(threads, s[1..], c + 1, m, Mutex(0, 0, s[0]))
  {
    if s != [] {
      TailElements(s);
      assert s[0] in s;
      forall t | About(PcOf(threads, t), m) && t !in s[1..] ensures t == s[0] {
        assert t != lock.owner;
        assert t in s;
      }
    }
  }

  // ---------------------------------------------------------------- waking leaves the rest alone

  lemma WakeFirstSync(k: Kernel, q: QueueId)
    requires Sched(k) && q in k.queues
    ensures var k' := WakeFirst(k, q);
      && k'.counts == k.counts && k'.mutexes == k.mutexes && k'.idle == k.idle && k'.current == k.current
      && (forall t :: PcOf(k'.threads, t) == PcOf(k.threads, t))
      && k'.queues == k.queues[q := if k.queues[q] == [] then [] else k.queues[q][1..]]
      && (forall t :: t !in k.queues[q] ==> At(k', t) == At(k, t))
  {
    hide BirthsOk, AllOk, PlacesOk, ListsOk, NoDup;
    assert QueueOk(k.threads, k.idle, q, k.queues[q]);
    if k.queues[q] == [] {
      assert k.queues == k.queues[q := []];
    } else {
      assert k.queues[q][0] in k.queues[q];
    }
  }

  /** A running thread is in no queue. */
  lemma RunnerNotQueued(k: Kernel, q: QueueId)
    requires Sched(k) && At(k, k.current).status != Blocked && q in k.queues
    ensures k.current !in k.queues[q]
  {
    NotQueued(k, k.current);
  }

  lemma QueueFacts(k: Kernel, q: QueueId)
    requires Sched(k) && q in k.queues
    ensures NoDup(k.queues[q]) && 0 !in k.queues[q]
    ensures forall t :: t in k.queues[q] ==> PcOf(k.threads, t).WaitsOn() == OnQueue(q)
  {
    hide BirthsOk, PlacesOk, ListsOk, NoDup;
    assert QueueOk(k.threads, k.idle, q, k.queues[q]);
  }
}
