/** Threads, the scheduler and the synchronization primitives as one state machine. */
module KernelState {

  /** Address of a thread control block; 0 is NULL. */
  type Tcb = nat

  datatype Status = Ready | Running | Blocked | Sleeping | Zombie

  /** A wait queue, named by the primitive that owns it. */
  datatype QueueId = SemQueue(sem: nat) | MutexQueue(mutex: nat) | CondQueue(cond: nat)

  datatype MaybeQueue = NoQueue | OnQueue(queue: QueueId)

  /** Where a thread is inside a kernel call that is not one atomic step. */
  datatype Pc =
    | Client                       // in its own code
    | InSem(sem: nat)              // inside semaphore_down, blocked or let through
    | InAcquire(mutex: nat)        // inside mutex_acquire, blocked or let through, holder not yet written
    | TryTaken(mutex: nat)         // mutex_try_acquire took the semaphore, holder not yet written
    | TryHolding(mutex: nat)       // holder written, recursion count not yet
    | InCond(cond: nat, lock: nat) // inside condvar_wait, before the mutex is acquired again
    | SleepArmed                   // wake-up time written
    | SleepMarked                  // status written, yield to come
    | Creating(child: Tcb)         // child in all_threads, not yet in the ready list
    | Unborn                       // the child during that time
  {
    function WaitsOn(): MaybeQueue {
      match this
      case InSem(s) => OnQueue(SemQueue(s))
      case InAcquire(m) => OnQueue(MutexQueue(m))
      case InCond(c, _) => OnQueue(CondQueue(c))
      case _ => NoQueue
    }
  }

  datatype Thread = Thread(status: Status, wakeup: nat, pc: Pc)

  /** `owner` is an auxiliary variable: the thread the mutex's semaphore has let through, whether or not it has
      written `holder` yet. */
  datatype Mutex = Mutex(holder: Tcb, depth: nat, owner: Tcb)

  datatype Kernel = Kernel(
    all: seq<Tcb>,
    ready: seq<Tcb>,
    sleeping: seq<Tcb>,
    zombies: seq<Tcb>,
    current: Tcb,
    idle: Tcb,
    threads: map<Tcb, Thread>,
    queues: map<QueueId, seq<Tcb>>,
    counts: map<QueueId, int>,
    mutexes: map<nat, Mutex>,
    ticks: nat
  )

  // ---------------------------------------------------------------- sequences

  ghost predicate NoDup<T>(s: seq<T>) {
    forall i, j :: 0 <= i < j < |s| ==> s[i] != s[j]
  }

  /** `s` without the first occurrence of `x`. */
  function Without<T(==)>(s: seq<T>, x: T): seq<T> {
    if s == [] then [] else if s[0] == x then s[1..] else [s[0]] + Without(s[1..], x)
  }

  function Last<T>(s: seq<T>): T
    requires s != []
  {
    s[|s| - 1]
  }

  // ---------------------------------------------------------------- look-ups and small updates

  const GONE := Thread(Zombie, 0, Client)

  /** The control block at `t`; the invariants show that no step looks up a block that is gone. */
  function At(k: Kernel, t: Tcb): Thread {
    if t in k.threads then k.threads[t] else GONE
  }

  function Waiting(k: Kernel, q: QueueId): seq<Tcb> {
    if q in k.queues then k.queues[q] else []
  }

  function CountOf(k: Kernel, q: QueueId): int {
    if q in k.counts then k.counts[q] else 0
  }

  function Lock(k: Kernel, m: nat): Mutex {
    if m in k.mutexes then k.mutexes[m] else Mutex(0, 0, 0)
  }

  function SetStatus(k: Kernel, t: Tcb, status: Status): Kernel {
    k.(threads := k.threads[t := At(k, t).(status := status)])
  }

  function SetPc(k: Kernel, t: Tcb, pc: Pc): Kernel {
    k.(threads := k.threads[t := At(k, t).(pc := pc)])
  }

  function SetWaiting(k: Kernel, q: QueueId, s: seq<Tcb>): Kernel {
    k.(queues := k.queues[q := s])
  }

  function AddCount(k: Kernel, q: QueueId, n: int): Kernel {
    k.(counts := k.counts[q := CountOf(k, q) + n])
  }

  function SetLock(k: Kernel, m: nat, lock: Mutex): Kernel {
    k.(mutexes := k.mutexes[m := lock])
  }

  /** Append the running thread to a wait queue. */
  function Block(k: Kernel, q: QueueId, pc: Pc): Kernel {
    SetWaiting(SetPc(SetStatus(k, k.current, Blocked), k.current, pc), q, Waiting(k, q) + [k.current])
  }

  /** Make a blocked thread ready: it goes to the head of the ready list. */
  function Unblock(k: Kernel, t: Tcb): Kernel {
    SetStatus(k.(ready := [t] + k.ready), t, Ready)
  }

  /** Wake the longest waiter of a queue, if there is one. */
  function WakeFirst(k: Kernel, q: QueueId): Kernel {
    if Waiting(k, q) == [] then k
    else Unblock(SetWaiting(k, q, Waiting(k, q)[1..]), Waiting(k, q)[0])
  }

  /** Wake all waiters of a queue, longest first. */
  function WakeAll(k: Kernel, q: QueueId): Kernel
    decreases |Waiting(k, q)|
  {
    if Waiting(k, q) == [] then k else WakeAll(WakeFirst(k, q), q)
  }

  // ---------------------------------------------------------------- the timer interrupt

  /** Move one sleeper to the ready list. */
  function WakeSleeper(k: Kernel, t: Tcb): Kernel {
    Unblock(k.(sleeping := Without(k.sleeping, t)), t)
  }

  /** Walk `pending`, waking the threads that are due. */
  function WakeDue(k: Kernel, pending: seq<Tcb>): Kernel
    decreases |pending|
  {
    if pending == [] then k
    else if At(k, pending[0]).wakeup <= k.ticks then WakeDue(WakeSleeper(k, pending[0]), pending[1..])
    else WakeDue(k, pending[1..])
  }

  /** One timer tick. */
  function Tick(k: Kernel): Kernel {
    WakeDue(k.(ticks := k.ticks + 1), k.sleeping)
  }

  /** Give back a dead thread's control block and stack. */
  function Reclaim(k: Kernel, t: Tcb): Kernel {
    k.(zombies := Without(k.zombies, t), all := Without(k.all, t), threads := k.threads - {t})
  }

  /** Walk `pending`, reclaiming every thread but the current one. */
  function Reap(k: Kernel, pending: seq<Tcb>): Kernel
    decreases |pending|
  {
    if pending == [] then k
    else if pending[0] != k.current then Reap(Reclaim(k, pending[0]), pending[1..])
    else Reap(k, pending[1..])
  }

  /** The thread the scheduler picks: the tail of the ready list, else the running thread, else idle. */
  function Pick(k: Kernel): Tcb {
    if k.ready != [] then Last(k.ready)
    else if At(k, k.current).status == Running then k.current
    else k.idle
  }

  /** Put the thread that stops running where its status says. */
  function Park(k: Kernel): Kernel {
    var t := k.current;
    if t == k.idle then SetStatus(k, t, Ready)
    else if At(k, t).status == Running then Unblock(k, t)
    else if At(k, t).status == Sleeping then k.(sleeping := [t] + k.sleeping)
    else if At(k, t).status == Zombie then k.(zombies := [t] + k.zombies)
    else k
  }

  /** Switch to `next`, if it is another thread. */
  function SwitchTo(k: Kernel, next: Tcb): Kernel {
    if next == k.current then k
    else SetStatus(Park(k).(current := next), next, Running)
  }

  /** Take the next thread off the ready list and switch to it. */
  function Dispatch(k: Kernel): Kernel {
    SwitchTo(if k.ready == [] then k else k.(ready := k.ready[..|k.ready| - 1]), Pick(k))
  }

  /** The whole interrupt: tick, reclaim dead threads, switch. */
  function Reschedule(k: Kernel): Kernel {
    var ticked := Tick(k);
    Dispatch(Reap(ticked, ticked.zombies))
  }

  // ---------------------------------------------------------------- semaphores and mutexes

  /** Down on a semaphore: block, remembering `pc`, when the count goes below zero. */
  function Down(k: Kernel, q: QueueId, pc: Pc): Kernel {
    var k1 := AddCount(k, q, -1);
    if CountOf(k1, q) < 0 then Reschedule(Block(k1, q, pc)) else k1
  }

  function Up(k: Kernel, q: QueueId): Kernel {
    WakeFirst(AddCount(k, q, 1), q)
  }

  /** The running thread has the mutex from now on. */
  function Hold(k: Kernel, m: nat): Kernel {
    SetLock(k, m, Mutex(k.current, 1, k.current))
  }

  function Acquire(k: Kernel, m: nat): Kernel {
    var q := MutexQueue(m);
    if Lock(k, m).holder == k.current then SetLock(k, m, Lock(k, m).(depth := Lock(k, m).depth + 1))
    else if CountOf(k, q) - 1 < 0 then Down(k, q, InAcquire(m))
    else Hold(Down(k, q, InAcquire(m)), m)
  }

  /** The first waiter, 0 if there is none. */
  function Heir(k: Kernel, q: QueueId): Tcb {
    if Waiting(k, q) == [] then 0 else Waiting(k, q)[0]
  }

  function Release(k: Kernel, m: nat): Kernel {
    var lock := Lock(k, m);
    if lock.depth != 1 then SetLock(k, m, lock.(depth := if lock.depth == 0 then 0 else lock.depth - 1))
    else Up(SetLock(k, m, Mutex(0, 0, Heir(k, MutexQueue(m)))), MutexQueue(m))
  }

  // ---------------------------------------------------------------- steps

  datatype Event =
    | Irq
    | SleepArm(n: nat) | SleepMark | SleepYield
    | Exit
    | Create(child: Tcb) | Publish
    | NewSem(sem: nat, n: nat) | NewMutex(mutex: nat) | NewCond(cond: nat)
    | SemDown(sem: nat) | SemTry(sem: nat) | SemUp(sem: nat) | SemReturn
    | MutexAcquire(mutex: nat) | MutexReturn | MutexRelease(mutex: nat)
    | MutexTry(mutex: nat) | MutexTryHolder | MutexTryDepth
    | CondWait(cond: nat, lock: nat) | CondReturn | CondSignal(cond: nat) | CondBroadcast(cond: nat)

  /** What a thread may do next. The idle thread only gets interrupted; a call needs the thread to be in its own code,
      a primitive that exists and, where the kernel asserts it, the mutex. Primitives are initialised once. */
  predicate Enabled(k: Kernel, e: Event) {
    var pc := At(k, k.current).pc;
    e.Irq? || (k.current != k.idle && match e
      case SleepMark => pc.SleepArmed?
      case SleepYield => pc.SleepMarked?
      case Create(t) => pc.Client? && t != 0 && t !in k.threads
      case Publish => pc.Creating?
      case NewSem(s, _) => pc.Client? && SemQueue(s) !in k.queues && SemQueue(s) !in k.counts
      case NewMutex(m) => pc.Client? && MutexQueue(m) !in k.queues && MutexQueue(m) !in k.counts && m !in k.mutexes
      case NewCond(c) => pc.Client? && CondQueue(c) !in k.queues
      case SemDown(s) => pc.Client? && SemQueue(s) in k.queues
      case SemTry(s) => pc.Client? && SemQueue(s) in k.queues
      case SemUp(s) => pc.Client? && SemQueue(s) in k.queues
      case SemReturn => pc.InSem?
      case MutexAcquire(m) => pc.Client? && m in k.mutexes
      case MutexReturn => pc.InAcquire?
      case MutexTry(m) => pc.Client? && m in k.mutexes
      case MutexTryHolder => pc.TryTaken?
      case MutexTryDepth => pc.TryHolding?
      case MutexRelease(m) => pc.Client? && m in k.mutexes && k.mutexes[m].holder == k.current
      case CondWait(c, m) => pc.Client? && CondQueue(c) in k.queues && m in k.mutexes
        && k.mutexes[m].holder == k.current
      case CondReturn => pc.InCond?
      case CondSignal(c) => pc.Client? && CondQueue(c) in k.queues
      case CondBroadcast(c) => pc.Client? && CondQueue(c) in k.queues
      case _ => pc.Client?)
  }

  function Step(k: Kernel, e: Event): Kernel {
    var me := k.current;
    var pc := At(k, me).pc;
    match e
    case Irq => Reschedule(k)
    case SleepArm(n) => k.(threads := k.threads[me := At(k, me).(wakeup := k.ticks + n, pc := SleepArmed)])
    case SleepMark => SetPc(SetStatus(k, me, Sleeping), me, SleepMarked)
    case SleepYield => Reschedule(SetPc(k, me, Client))
    case Exit => Reschedule(SetStatus(k, me, Zombie))
    case Create(t) =>
      SetPc(k.(all := [t] + k.all, threads := k.threads[t := Thread(Ready, 0, Unborn)]), me, Creating(t))
    case Publish =>
      if pc.Creating? then SetPc(SetPc(k.(ready := [pc.child] + k.ready), pc.child, Client), me, Client) else k
    case NewSem(s, n) => k.(queues := k.queues[SemQueue(s) := []], counts := k.counts[SemQueue(s) := n])
    case NewMutex(m) =>
      k.(queues := k.queues[MutexQueue(m) := []], counts := k.counts[MutexQueue(m) := 1],
         mutexes := k.mutexes[m := Mutex(0, 0, 0)])
    case NewCond(c) => k.(queues := k.queues[CondQueue(c) := []])
    case SemDown(s) => Down(k, SemQueue(s), InSem(s))
    case SemTry(s) => if CountOf(k, SemQueue(s)) > 0 then AddCount(k, SemQueue(s), -1) else k
    case SemUp(s) => Up(k, SemQueue(s))
    case SemReturn => SetPc(k, me, Client)
    case MutexAcquire(m) => Acquire(k, m)
    case MutexReturn => if pc.InAcquire? then SetPc(Hold(k, pc.mutex), me, Client) else k
    case MutexTry(m) =>
      if Lock(k, m).holder == me then SetLock(k, m, Lock(k, m).(depth := Lock(k, m).depth + 1))
      else if CountOf(k, MutexQueue(m)) > 0 then
        SetPc(SetLock(AddCount(k, MutexQueue(m), -1), m, Lock(k, m).(owner := me)), me, TryTaken(m))
      else k
    case MutexTryHolder =>
      if pc.TryTaken? then SetPc(SetLock(k, pc.mutex, Lock(k, pc.mutex).(holder := me)), me, TryHolding(pc.mutex))
        else k
    case MutexTryDepth =>
      if pc.TryHolding? then SetPc(SetLock(k, pc.mutex, Lock(k, pc.mutex).(depth := 1)), me, Client) else k
    case MutexRelease(m) => Release(k, m)
    case CondWait(c, m) => Reschedule(Release(Block(k, CondQueue(c), InCond(c, m)), m))
    case CondReturn => if pc.InCond? then Acquire(SetPc(k, me, Client), pc.lock) else k
    case CondSignal(c) => WakeFirst(k, CondQueue(c))
    case CondBroadcast(c) => WakeAll(k, CondQueue(c))
  }

  /** After initialisation: the main thread runs, the idle thread waits, nothing else exists. */
  ghost predicate Init(k: Kernel) {
    && k.idle != 0 && k.current != 0 && k.idle != k.current
    && k.all == [k.idle, k.current]
    && k.ready == [] && k.sleeping == [] && k.zombies == []
    && k.threads == map[k.current := Thread(Running, 0, Client), k.idle := Thread(Ready, 0, Client)]
    && k.queues == map[] && k.counts == map[] && k.mutexes == map[] && k.ticks == 0
  }

  /** `ks` are the states a run goes through under the events `es`. */
  ghost predicate IsRun(ks: seq<Kernel>, es: seq<Event>) {
    && |ks| == |es| + 1 && Init(ks[0])
    && forall i :: 0 <= i < |es| ==> Enabled(ks[i], es[i]) && ks[i + 1] == Step(ks[i], es[i])
  }
}
