/** Every thread is in exactly one place, the one its status names; every step keeps it so. */
module KernelPlaces {
  import opened KernelState

  type Threads = map<Tcb, Thread>

  /** A list of threads of one status, none of them idle. */
  ghost predicate ListOk(threads: Threads, idle: Tcb, s: seq<Tcb>, status: Status) {
    NoDup(s) && forall t :: t in s ==> t in threads && threads[t].status == status && t != idle
  }

  ghost predicate AllOk(all: seq<Tcb>, threads: Threads) {
    NoDup(all) && 0 !in all && forall t :: t in all <==> t in threads
  }

  ghost predicate ListsOk(k: Kernel) {
    && ListOk(k.threads, k.idle, k.ready, Ready)
    && ListOk(k.threads, k.idle, k.sleeping, Sleeping)
    && ListOk(k.threads, k.idle, k.zombies, Zombie)
    && k.current !in k.ready && k.current !in k.sleeping && k.current !in k.zombies
  }

  ghost predicate QueueOk(threads: Threads, idle: Tcb, q: QueueId, s: seq<Tcb>) {
    ListOk(threads, idle, s, Blocked) && forall t :: t in s ==> t in threads && threads[t].pc.WaitsOn() == OnQueue(q)
  }

  ghost predicate QueuesOk(threads: Threads, idle: Tcb, queues: map<QueueId, seq<Tcb>>) {
    forall q :: q in queues ==> QueueOk(threads, idle, q, queues[q])
  }

  /** A block `th` at address `t` is where its status says. */
  ghost predicate Placed(k: Kernel, t: Tcb, th: Thread) {
    match th.status
    case Ready => t != k.current && (t == k.idle || th.pc.Unborn? || t in k.ready)
    case Running => t == k.current
    case Sleeping => t == k.current || t in k.sleeping
    case Zombie => (t == k.current || t in k.zombies) && th.pc.Client?
    case Blocked => th.pc.WaitsOn().OnQueue? && t in Waiting(k, th.pc.WaitsOn().queue)
  }

  ghost predicate PlacesOk(k: Kernel) {
    forall t :: t in k.threads ==> Placed(k, t, k.threads[t])
  }

  /** A child is unborn, ready but in no list, until its one creator publishes it. */
  ghost predicate BirthsOk(threads: Threads, idle: Tcb, ready: seq<Tcb>) {
    && (forall t :: t in threads && threads[t].pc.Unborn? ==> threads[t].status == Ready && t != idle && t !in ready)
    && (forall u :: u in threads && threads[u].pc.Creating? ==> UnbornAt(threads, threads[u].pc.child))
    && (forall u, v :: u in threads && v in threads && threads[u].pc.Creating? && threads[v].pc == threads[u].pc ==>
      u == v)
  }

  predicate UnbornAt(threads: Threads, t: Tcb) {
    t in threads && threads[t].pc.Unborn?
  }

  ghost predicate IdleOk(k: Kernel) {
    && k.current in k.threads && k.idle in k.threads && k.threads[k.idle].pc.Client?
    && k.threads[k.idle].status == if k.current == k.idle then Running else Ready
  }

  /** The invariant in the middle of a step, when the running thread may already be marked for leaving. */
  ghost predicate Sched(k: Kernel) {
    && AllOk(k.all, k.threads) && ListsOk(k) && QueuesOk(k.threads, k.idle, k.queues) && PlacesOk(k)
    && BirthsOk(k.threads, k.idle, k.ready) && IdleOk(k)
  }

  /** Between steps the current thread runs, or has just marked itself sleeping and not yet yielded. */
  ghost predicate Settled(k: Kernel) {
    var th := At(k, k.current);
    th.status == Running || (th.status == Sleeping && th.pc.SleepMarked?)
  }

  // ---------------------------------------------------------------- sequences and single lists

  lemma {:induction false} WithoutElements<T>(s: seq<T>, x: T)
    requires NoDup(s)
    ensures NoDup(Without(s, x)) && forall y :: y in Without(s, x) <==> y in s && y != x
  {
    if s != [] {
      var tail := s[1..];
      assert s == [s[0]] + tail;
      assert s[0] !in tail;
      if s[0] != x {
        WithoutElements(tail, x);
        ConsNoDup(s[0], Without(tail, x));
      }
    }
  }

  lemma ConsNoDup<T>(x: T, s: seq<T>)
    requires NoDup(s) && x !in s
    ensures NoDup([x] + s)
  {
  }

  lemma SnocNoDup<T>(s: seq<T>, x: T)
    requires NoDup(s) && x !in s
    ensures NoDup(s + [x])
  {
  }

  lemma TailElements<T>(s: seq<T>)
    requires NoDup(s) && s != []
    ensures NoDup(s[1..]) && forall y :: y in s[1..] <==> y in s && y != s[0]
  {
    assert s == [s[0]] + s[1..];
  }

  lemma FrontElements<T>(s: seq<T>)
    requires NoDup(s) && s != []
    ensures NoDup(s[..|s| - 1]) && forall y :: y in s[..|s| - 1] <==> y in s && y != Last(s)
  {
    assert s == s[..|s| - 1] + [Last(s)];
  }

  lemma ListUpdate(threads: Threads, idle: Tcb, s: seq<Tcb>, status: Status, t: Tcb, th: Thread)
    requires ListOk(threads, idle, s, status) && t !in s
    ensures ListOk(threads[t := th], idle, s, status)
  {
  }

  lemma ListRemove(threads: Threads, idle: Tcb, s: seq<Tcb>, status: Status, t: Tcb)
    requires ListOk(threads, idle, s, status) && t !in s
    ensures ListOk(threads - {t}, idle, s, status)
  {
  }

  lemma ListCons(threads: Threads, idle: Tcb, s: seq<Tcb>, status: Status, t: Tcb)
    requires ListOk(threads, idle, s, status) && t !in s && t in threads && threads[t].status == status && t != idle
    ensures ListOk(threads, idle, [t] + s, status)
  {
  }

  lemma QueuesUpdate(threads: Threads, idle: Tcb, queues: map<QueueId, seq<Tcb>>, t: Tcb, th: Thread)
    requires QueuesOk(threads, idle, queues) && forall q :: q in queues ==> t !in queues[q]
    ensures QueuesOk(threads[t := th], idle, queues)
  {
    forall q | q in queues ensures QueueOk(threads[t := th], idle, q, queues[q]) {
      hide ListOk;
      ListUpdate(threads, idle, queues[q], Blocked, t, th);
    }
  }

  /** A thread that is not blocked is in no queue. */
  lemma NotQueued(k: Kernel, t: Tcb)
    requires QueuesOk(k.threads, k.idle, k.queues) && At(k, t).status != Blocked
    ensures forall q :: q in k.queues ==> t !in k.queues[q]
  {
    forall q | q in k.queues ensures t !in k.queues[q] {
      assert QueueOk(k.threads, k.idle, q, k.queues[q]);
    }
  }

  /** A thread is in no list of another status. */
  lemma NotListed(k: Kernel, t: Tcb)
    requires ListsOk(k)
    ensures At(k, t).status != Ready ==> t !in k.ready
    ensures At(k, t).status != Sleeping ==> t !in k.sleeping
    ensures At(k, t).status != Zombie ==> t !in k.zombies
  {
  }

  // ---------------------------------------------------------------- the primitive changes

  /** Counts, mutexes and the clock do not matter for the places. */
  lemma SameThreads(k: Kernel, k': Kernel)
    requires Sched(k) && k' == k.(counts := k'.counts, mutexes := k'.mutexes, ticks := k'.ticks)
    ensures Sched(k')
  {
    hide AllOk, ListOk, QueuesOk, BirthsOk;
  }

  lemma BirthsUpdate(threads: Threads, idle: Tcb, ready: seq<Tcb>, t: Tcb, th: Thread)
    requires BirthsOk(threads, idle, ready) && t in threads && !threads[t].pc.Unborn?
    requires !th.pc.Unborn? && !th.pc.Creating?
    ensures BirthsOk(threads[t := th], idle, ready)
  {
  }

  /** The current thread, in no list and no queue, changes its own block. */
  lemma ChangeCurrent(k: Kernel, th: Thread)
    requires Sched(k) && At(k, k.current).status != Blocked
    requires !th.pc.Unborn? && !th.pc.Creating? && th.status != Ready && th.status != Blocked
    requires th.status == Zombie ==> th.pc.Client?
    requires k.current == k.idle ==> th.pc.Client? && th.status == Running
    ensures Sched(k.(threads := k.threads[k.current := th]))
  {
    hide ListOk, QueuesOk, BirthsOk, NoDup;
    var t := k.current;
    CurrentBorn(k);
    NotQueued(k, t);
    QueuesUpdate(k.threads, k.idle, k.queues, t, th);
    BirthsUpdate(k.threads, k.idle, k.ready, t, th);
    ListUpdate(k.threads, k.idle, k.ready, Ready, t, th);
    ListUpdate(k.threads, k.idle, k.sleeping, Sleeping, t, th);
    ListUpdate(k.threads, k.idle, k.zombies, Zombie, t, th);
  }

  lemma CurrentBorn(k: Kernel)
    requires Sched(k)
    ensures k.current in k.threads && !k.threads[k.current].pc.Unborn? && k.threads[k.current].status != Ready
  {
    hide ListOk, QueuesOk, NoDup;
    assert Placed(k, k.current, k.threads[k.current]);
  }

  /** The running thread joins a wait queue. */
  lemma BlockSched(k: Kernel, q: QueueId, pc: Pc)
    requires Sched(k) && At(k, k.current).status == Running && k.current != k.idle && !At(k, k.current).pc.Creating?
    requires q in k.queues && pc.WaitsOn() == OnQueue(q)
    ensures Sched(Block(k, q, pc))
  {
    hide ListOk, QueuesOk, BirthsOk, NoDup;
    var t, th := k.current, At(k, k.current).(status := Blocked, pc := pc);
    var threads := k.threads[t := th];
    var k' := Block(k, q, pc);
    assert k'.threads == threads;
    CurrentBorn(k);
    NotQueued(k, t);
    QueuesUpdate(k.threads, k.idle, k.queues, t, th);
    QueueSnoc(threads, k.idle, k.queues, q, t);
    BirthsUpdate(k.threads, k.idle, k.ready, t, th);
    ListUpdate(k.threads, k.idle, k.ready, Ready, t, th);
    ListUpdate(k.threads, k.idle, k.sleeping, Sleeping, t, th);
    ListUpdate(k.threads, k.idle, k.zombies, Zombie, t, th);
    forall u | u in k'.threads ensures Placed(k', u, k'.threads[u]) {
      assert u != t ==> Placed(k, u, k.threads[u]);
    }
  }

  lemma QueueSnoc(threads: Threads, idle: Tcb, queues: map<QueueId, seq<Tcb>>, q: QueueId, t: Tcb)
    requires QueuesOk(threads, idle, queues) && q in queues && t !in queues[q] && t in threads && t != idle
    requires threads[t].status == Blocked && threads[t].pc.WaitsOn() == OnQueue(q)
    ensures QueuesOk(threads, idle, queues[q := queues[q] + [t]])
  {
    var s := queues[q] + [t];
    assert QueueOk(threads, idle, q, queues[q]);
    SnocNoDup(queues[q], t);
    assert QueueOk(threads, idle, q, s);
  }

  /** A thread of the right status, in no list, becomes ready at the head of the ready list. */
  lemma UnblockSched(k: Kernel, t: Tcb)
    requires AllOk(k.all, k.threads) && ListsOk(k) && QueuesOk(k.threads, k.idle, k.queues)
    requires BirthsOk(k.threads, k.idle, k.ready) && IdleOk(k)
    requires t in k.threads && k.threads[t].status != Ready && !k.threads[t].pc.Unborn? && t != k.idle && t != k.current
    requires t !in k.sleeping && t !in k.zombies && forall q :: q in k.queues ==> t !in k.queues[q]
    requires forall u :: u in k.threads && u != t ==> Placed(k, u, k.threads[u])
    ensures Sched(Unblock(k, t))
  {
    hide ListOk, QueuesOk, NoDup, BirthsOk;
    NotListed'(k, t);
    var th := k.threads[t].(status := Ready);
    var k' := Unblock(k, t);
    assert k'.threads == k.threads[t := th];
    QueuesUpdate(k.threads, k.idle, k.queues, t, th);
    ListUpdate(k.threads, k.idle, k.ready, Ready, t, th);
    ListCons(k'.threads, k.idle, k.ready, Ready, t);
    ListUpdate(k.threads, k.idle, k.sleeping, Sleeping, t, th);
    ListUpdate(k.threads, k.idle, k.zombies, Zombie, t, th);
    BirthsUnblock(k.threads, k.idle, k.ready, t, th);
  }

  lemma BirthsUnblock(threads: Threads, idle: Tcb, ready: seq<Tcb>, t: Tcb, th: Thread)
    requires BirthsOk(threads, idle, ready) && t in threads && !threads[t].pc.Unborn? && th.pc == threads[t].pc
    ensures BirthsOk(threads[t := th], idle, [t] + ready)
  {
    var threads' := threads[t := th];
    forall u | u in threads' && threads'[u].pc.Creating? ensures UnbornAt(threads', threads'[u].pc.child) {
      assert UnbornAt(threads, threads[u].pc.child);
    }
  }

  lemma NotListed'(k: Kernel, t: Tcb)
    requires ListOk(k.threads, k.idle, k.ready, Ready) && At(k, t).status != Ready
    ensures t !in k.ready
  {
  }

  /** The other threads' places do not change when the first waiter is taken off its queue. */
  lemma PoppedPlaces(k: Kernel, q: QueueId, t: Tcb)
    requires PlacesOk(k) && q in k.queues && k.queues[q] != [] && t == k.queues[q][0]
    requires forall u :: u in k.queues[q] && u != t ==> u in k.queues[q][1..]
    ensures var k1 := SetWaiting(k, q, k.queues[q][1..]);
      forall u :: u in k1.threads && u != t ==> Placed(k1, u, k1.threads[u])
  {
    var k1 := SetWaiting(k, q, k.queues[q][1..]);
    forall u | u in k1.threads && u != t ensures Placed(k1, u, k1.threads[u]) {
      assert Placed(k, u, k.threads[u]);
    }
  }

  lemma WakeFirstSched(k: Kernel, q: QueueId)
    requires Sched(k) && q in k.queues && (k.queues[q] != [] ==> k.queues[q][0] != k.current)
    ensures Sched(WakeFirst(k, q))
  {
    hide ListOk, QueuesOk, BirthsOk, NoDup, PlacesOk, AllOk;
    if k.queues[q] != [] {
      var t := k.queues[q][0];
      var k1 := SetWaiting(k, q, k.queues[q][1..]);
      QueuePop(k.threads, k.idle, k.queues, q);
      PoppedPlaces(k, q, t);
      NotListed(k, t);
      WaiterBorn(k, t);
      UnblockSched(k1, t);
    }
  }

  lemma WaiterBorn(k: Kernel, t: Tcb)
    requires Sched(k) && At(k, t).status == Blocked && t in k.threads
    ensures !k.threads[t].pc.Unborn? && t != k.idle
  {
    hide ListOk, QueuesOk, NoDup;
    assert Placed(k, t, k.threads[t]);
  }

  lemma QueuePop(threads: Threads, idle: Tcb, queues: map<QueueId, seq<Tcb>>, q: QueueId)
    requires QueuesOk(threads, idle, queues) && q in queues && queues[q] != []
    ensures var t, queues' := queues[q][0], queues[q := queues[q][1..]];
      && QueuesOk(threads, idle, queues') && t in threads && threads[t].status == Blocked
      && (forall p :: p in queues' ==> t !in queues'[p])
      && (forall u :: u in queues[q] && u != t ==> u in queues'[q])
  {
    var t, queues' := queues[q][0], queues[q := queues[q][1..]];
    assert QueueOk(threads, idle, q, queues[q]);
    TailElements(queues[q]);
    assert QueueOk(threads, idle, q, queues[q][1..]);
    forall p | p in queues' ensures t !in queues'[p] {
      if p != q { assert QueueOk(threads, idle, p, queues[p]); }
    }
  }

  lemma WakeSleeperSched(k: Kernel, t: Tcb)
    requires Sched(k) && t in k.sleeping
    ensures Sched(WakeSleeper(k, t))
  {
    var k1 := k.(sleeping := Without(k.sleeping, t));
    WithoutElements(k.sleeping, t);
    assert ListOk(k.threads, k.idle, k1.sleeping, Sleeping) && k.threads[t].status == Sleeping && t != k.idle;
    hide ListOk, QueuesOk, BirthsOk, NoDup, Without;
    NotListed(k, t);
    NotQueued(k, t);
    SleeperBorn(k, t);
    forall u | u in k1.threads && u != t ensures Placed(k1, u, k1.threads[u]) {
      assert Placed(k, u, k.threads[u]);
    }
    UnblockSched(k1, t);
  }

  lemma SleeperBorn(k: Kernel, t: Tcb)
    requires Sched(k) && t in k.threads && k.threads[t].status != Ready
    ensures !k.threads[t].pc.Unborn?
  {
    hide ListOk, QueuesOk, NoDup;
  }

  lemma ReclaimSched(k: Kernel, t: Tcb)
    requires Sched(k) && t in k.zombies
    ensures Sched(Reclaim(k, t)) && t != k.current && t != k.idle
  {
    hide ListOk, QueuesOk, NoDup, Without, AllOk, BirthsOk;
    ZombieFacts(k, t);
    AllRemove(k.all, k.threads, t);
    NotListed(k, t);
    NotQueued(k, t);
    QueuesRemove(k.threads, k.idle, k.queues, t);
    ListRemove(k.threads, k.idle, k.ready, Ready, t);
    ListRemove(k.threads, k.idle, k.sleeping, Sleeping, t);
    ListRemove(k.threads, k.idle, Without(k.zombies, t), Zombie, t);
    SleeperBorn(k, t);
    BirthsRemove(k.threads, k.idle, k.ready, t);
    var k' := Reclaim(k, t);
    forall u | u in k'.threads ensures Placed(k', u, k'.threads[u]) {
      assert Placed(k, u, k.threads[u]);
    }
  }

  lemma ZombieFacts(k: Kernel, t: Tcb)
    requires ListsOk(k) && t in k.zombies
    ensures t in k.threads && k.threads[t].status == Zombie && t != k.idle && t != k.current
    ensures ListOk(k.threads, k.idle, Without(k.zombies, t), Zombie)
    ensures forall u :: u in Without(k.zombies, t) <==> u in k.zombies && u != t
  {
    WithoutElements(k.zombies, t);
  }

  lemma AllRemove(all: seq<Tcb>, threads: Threads, t: Tcb)
    requires AllOk(all, threads)
    ensures AllOk(Without(all, t), threads - {t})
  {
    WithoutElements(all, t);
  }

  lemma BirthsRemove(threads: Threads, idle: Tcb, ready: seq<Tcb>, t: Tcb)
    requires BirthsOk(threads, idle, ready) && t in threads && !threads[t].pc.Unborn?
    ensures BirthsOk(threads - {t}, idle, ready)
  {
    assert forall u :: u in threads && threads[u].pc.Creating? ==> UnbornAt(threads - {t}, threads[u].pc.child);
  }

  lemma QueuesRemove(threads: Threads, idle: Tcb, queues: map<QueueId, seq<Tcb>>, t: Tcb)
    requires QueuesOk(threads, idle, queues) && forall q :: q in queues ==> t !in queues[q]
    ensures QueuesOk(threads - {t}, idle, queues)
  {
    forall q | q in queues ensures QueueOk(threads - {t}, idle, q, queues[q]) {
      hide ListOk;
      assert QueueOk(threads, idle, q, queues[q]);
      ListRemove(threads, idle, queues[q], Blocked, t);
    }
  }

  lemma {:induction false} WakeDueSched(k: Kernel, pending: seq<Tcb>)
    requires Sched(k) && NoDup(pending) && forall t :: t in pending ==> t in k.sleeping
    ensures Sched(WakeDue(k, pending))
    decreases |pending|
  {
    if pending != [] {
      var t := pending[0];
      TailElements(pending);
      hide Sched;
      if At(k, t).wakeup <= k.ticks {
        WakeSleeperSched(k, t);
        SleepingWithout(k, t);
        WakeDueSched(WakeSleeper(k, t), pending[1..]);
      } else {
        WakeDueSched(k, pending[1..]);
      }
    }
  }

  lemma SleepingWithout(k: Kernel, t: Tcb)
    requires Sched(k)
    ensures forall u :: u in k.sleeping && u != t ==> u in WakeSleeper(k, t).sleeping
  {
    WithoutElements(k.sleeping, t);
  }

  lemma {:induction false} ReapSched(k: Kernel, pending: seq<Tcb>)
    requires Sched(k) && NoDup(pending) && forall t :: t in pending ==> t in k.zombies
    ensures Sched(Reap(k, pending))
    decreases |pending|
  {
    if pending != [] {
      var t := pending[0];
      TailElements(pending);
      hide Sched;
      ReclaimSched(k, t);
      ZombiesWithout(k, t);
      ReapSched(Reclaim(k, t), pending[1..]);
    }
  }

  lemma ZombiesWithout(k: Kernel, t: Tcb)
    requires Sched(k)
    ensures forall u :: u in k.zombies && u != t ==> u in Reclaim(k, t).zombies
  {
    WithoutElements(k.zombies, t);
  }

  // ---------------------------------------------------------------- switching threads

  /** The ready thread `next`, taken out of the list, is the one block not where its status says. */
  ghost predicate Chosen(k: Kernel, next: Tcb) {
    && AllOk(k.all, k.threads) && ListsOk(k) && QueuesOk(k.threads, k.idle, k.queues)
    && BirthsOk(k.threads, k.idle, k.ready) && IdleOk(k)
    && next in k.threads && k.threads[next].status == Ready && !k.threads[next].pc.Unborn?
    && next !in k.ready && next != k.current
    && forall u :: u in k.threads && u != next ==> Placed(k, u, k.threads[u])
  }

  /** The thread that stops running, parked, is where its status says once it is no longer current. */
  ghost predicate Parked(k: Kernel, next: Tcb) {
    && AllOk(k.all, k.threads)
    && ListOk(k.threads, k.idle, k.ready, Ready) && ListOk(k.threads, k.idle, k.sleeping, Sleeping)
    && ListOk(k.threads, k.idle, k.zombies, Zombie) && next !in k.ready && next !in k.sleeping && next !in k.zombies
    && QueuesOk(k.threads, k.idle, k.queues) && BirthsOk(k.threads, k.idle, k.ready)
    && next in k.threads && k.threads[next].status == Ready && !k.threads[next].pc.Unborn?
    && k.idle in k.threads && k.threads[k.idle].pc.Client? && k.threads[k.idle].status == Ready
    && forall u :: u in k.threads && u != next ==> Placed(k.(current := next), u, k.threads[u])
  }

  lemma ParkIdle(k: Kernel, next: Tcb)
    requires Chosen(k, next) && k.current == k.idle
    ensures Parked(Park(k), next)
  {
    hide ListOk, QueuesOk, BirthsOk, NoDup;
    var t, th := k.current, k.threads[k.current].(status := Ready);
    NotListed(k, t);
    NotListed(k, next);
    NotQueued(k, t);
    QueuesUpdate(k.threads, k.idle, k.queues, t, th);
    BirthsUpdate(k.threads, k.idle, k.ready, t, th);
    ListUpdate(k.threads, k.idle, k.ready, Ready, t, th);
    ListUpdate(k.threads, k.idle, k.sleeping, Sleeping, t, th);
    ListUpdate(k.threads, k.idle, k.zombies, Zombie, t, th);
    var k' := Park(k);
    forall u | u in k'.threads && u != next ensures Placed(k'.(current := next), u, k'.threads[u]) {
      assert Placed(k, u, k.threads[u]);
    }
  }

  lemma ParkRunning(k: Kernel, next: Tcb)
    requires Chosen(k, next) && k.current != k.idle && At(k, k.current).status == Running
    ensures Parked(Park(k), next)
  {
    hide ListOk, QueuesOk, BirthsOk, NoDup;
    var t, th := k.current, k.threads[k.current].(status := Ready);
    assert Placed(k, t, k.threads[t]);
    RunningBorn(k);
    NotListed(k, t);
    NotListed(k, next);
    NotQueued(k, t);
    QueuesUpdate(k.threads, k.idle, k.queues, t, th);
    BirthsUnblock(k.threads, k.idle, k.ready, t, th);
    ListUpdate(k.threads, k.idle, k.ready, Ready, t, th);
    ListCons(k.threads[t := th], k.idle, k.ready, Ready, t);
    ListUpdate(k.threads, k.idle, k.sleeping, Sleeping, t, th);
    ListUpdate(k.threads, k.idle, k.zombies, Zombie, t, th);
    var k' := Park(k);
    forall u | u in k'.threads && u != next ensures Placed(k'.(current := next), u, k'.threads[u]) {
      assert u != t ==> Placed(k, u, k.threads[u]);
    }
  }

  lemma RunningBorn(k: Kernel)
    requires BirthsOk(k.threads, k.idle, k.ready) && k.current in k.threads && k.threads[k.current].status != Ready
    ensures !k.threads[k.current].pc.Unborn?
  {
  }

  lemma ParkOther(k: Kernel, next: Tcb)
    requires Chosen(k, next) && k.current != k.idle && At(k, k.current).status != Running
    ensures Parked(Park(k), next)
  {
    hide ListOk, QueuesOk, BirthsOk, NoDup;
    var t := k.current;
    assert Placed(k, t, k.threads[t]);
    NotListed(k, t);
    NotListed(k, next);
    if k.threads[t].status == Sleeping { ListCons(k.threads, k.idle, k.sleeping, Sleeping, t); }
    if k.threads[t].status == Zombie { ListCons(k.threads, k.idle, k.zombies, Zombie, t); }
    var k' := Park(k);
    forall u | u in k'.threads && u != next ensures Placed(k'.(current := next), u, k'.threads[u]) {
      assert Placed(k, u, k.threads[u]);
    }
  }

  lemma RunParked(k: Kernel, next: Tcb)
    requires Parked(k, next)
    ensures Sched(SetStatus(k.(current := next), next, Running))
  {
    hide ListOk, QueuesOk, BirthsOk, NoDup;
    var k1 := k.(current := next);
    var th := k.threads[next].(status := Running);
    NotQueued(k1, next);
    QueuesUpdate(k.threads, k.idle, k.queues, next, th);
    BirthsRun(k.threads, k.idle, k.ready, next, th);
    ListUpdate(k.threads, k.idle, k.ready, Ready, next, th);
    ListUpdate(k.threads, k.idle, k.sleeping, Sleeping, next, th);
    ListUpdate(k.threads, k.idle, k.zombies, Zombie, next, th);
    var k' := SetStatus(k1, next, Running);
    forall u | u in k'.threads ensures Placed(k', u, k'.threads[u]) {
      assert u != next ==> Placed(k1, u, k.threads[u]);
    }
  }

  lemma BirthsRun(threads: Threads, idle: Tcb, ready: seq<Tcb>, t: Tcb, th: Thread)
    requires BirthsOk(threads, idle, ready) && t in threads && !threads[t].pc.Unborn? && th.pc == threads[t].pc
    ensures BirthsOk(threads[t := th], idle, ready)
  {
    var threads' := threads[t := th];
    forall u | u in threads' && threads'[u].pc.Creating? ensures UnbornAt(threads', threads'[u].pc.child) {
      assert UnbornAt(threads, threads[u].pc.child);
    }
  }

  lemma SwitchSched(k: Kernel, next: Tcb)
    requires Chosen(k, next)
    ensures Sched(SwitchTo(k, next)) && At(SwitchTo(k, next), next).status == Running
  {
    if k.current == k.idle { ParkIdle(k, next); }
    else if At(k, k.current).status == Running { ParkRunning(k, next); }
    else { ParkOther(k, next); }
    assert next != k.current;
    hide Parked, Chosen, Park, Sched;
    RunParked(Park(k), next);
  }

  /** The kernel's assertions on a switch: the thread picked is ready, or it is the current one and runs. */
  lemma PickAsserted(k: Kernel)
    requires Sched(k)
    ensures Pick(k) in k.threads
    ensures At(k, Pick(k)).status == if Pick(k) == k.current then Running else Ready
  {
    hide QueuesOk, BirthsOk, NoDup;
    if k.ready != [] { assert Last(k.ready) in k.ready; }
    else { assert Placed(k, k.current, k.threads[k.current]); }
  }

  lemma ChooseLast(k: Kernel)
    requires Sched(k) && k.ready != []
    ensures Chosen(k.(ready := k.ready[..|k.ready| - 1]), Last(k.ready))
  {
    var next, k1 := Last(k.ready), k.(ready := k.ready[..|k.ready| - 1]);
    assert next in k.ready;
    FrontElements(k.ready);
    assert ListOk(k.threads, k.idle, k1.ready, Ready) && k.threads[next].status == Ready && next != k.idle
      && next != k.current;
    hide ListOk, QueuesOk, NoDup;
    assert !k.threads[next].pc.Unborn? && BirthsOk(k.threads, k.idle, k1.ready);
    hide BirthsOk;
    forall u | u in k.threads && u != next ensures Placed(k1, u, k.threads[u]) {
      assert Placed(k, u, k.threads[u]);
    }
  }

  lemma ChooseIdle(k: Kernel)
    requires Sched(k) && k.ready == [] && At(k, k.current).status != Running
    ensures Chosen(k, k.idle)
  {
    hide ListOk, QueuesOk, NoDup, BirthsOk;
  }

  lemma DispatchSched(k: Kernel)
    requires Sched(k)
    ensures Sched(Dispatch(k)) && At(Dispatch(k), Dispatch(k).current).status == Running
      && Dispatch(k).current == Pick(k)
  {
    hide Sched, Chosen;
    if k.ready != [] {
      ChooseLast(k);
      var k1 := k.(ready := k.ready[..|k.ready| - 1]);
      SwitchSched(k1, Last(k.ready));
      SwitchCurrent(k1, Last(k.ready));
    } else if At(k, k.current).status != Running {
      ChooseIdle(k);
      SwitchSched(k, k.idle);
      SwitchCurrent(k, k.idle);
    }
  }

  lemma SwitchCurrent(k: Kernel, next: Tcb)
    ensures SwitchTo(k, next).current == next
  {
  }

  lemma TickSched(k: Kernel)
    requires Sched(k)
    ensures Sched(Tick(k))
  {
    hide NoDup, QueuesOk, BirthsOk, AllOk;
    var k0 := k.(ticks := k.ticks + 1);
    SameThreads(k, k0);
    assert NoDup(k0.sleeping) by { assert ListOk(k0.threads, k0.idle, k0.sleeping, Sleeping); }
    WakeDueSched(k0, k0.sleeping);
  }

  lemma ReapAllSched(k: Kernel)
    requires Sched(k)
    ensures Sched(Reap(k, k.zombies))
  {
    hide NoDup, QueuesOk, BirthsOk, AllOk;
    assert NoDup(k.zombies) by { assert ListOk(k.threads, k.idle, k.zombies, Zombie); }
    ReapSched(k, k.zombies);
  }

  lemma RescheduleSched(k: Kernel)
    requires Sched(k)
    ensures Sched(Reschedule(k)) && At(Reschedule(k), Reschedule(k).current).status == Running
  {
    hide Sched, Tick, Reap, Dispatch, At;
    TickSched(k);
    ReapAllSched(Tick(k));
    DispatchSched(Reap(Tick(k), Tick(k).zombies));
  }

  // ---------------------------------------------------------------- new threads and new queues

  lemma CreateSched(k: Kernel, t: Tcb)
    requires Sched(k) && t != 0 && t !in k.threads && At(k, k.current).status == Running && k.current != k.idle
    requires At(k, k.current).pc.Client?
    ensures Sched(Step(k, Create(t)))
  {
    hide ListOk, QueuesOk, NoDup, BirthsOk, AllOk;
    var me, th := k.current, At(k, k.current).(pc := Creating(t));
    var k' := Step(k, Create(t));
    var born := k.threads[t := Thread(Ready, 0, Unborn)];
    assert k'.threads == born[me := th];
    AllAdd(k.all, k.threads, t, me, th);
    NewNotListed(k, t);
    NotListed(k, me);
    NotQueued(k, me);
    QueuesUpdate(k.threads, k.idle, k.queues, t, born[t]);
    QueuesUpdate(born, k.idle, k.queues, me, th);
    ListUpdate(k.threads, k.idle, k.ready, Ready, t, born[t]);
    ListUpdate(born, k.idle, k.ready, Ready, me, th);
    ListUpdate(k.threads, k.idle, k.sleeping, Sleeping, t, born[t]);
    ListUpdate(born, k.idle, k.sleeping, Sleeping, me, th);
    ListUpdate(k.threads, k.idle, k.zombies, Zombie, t, born[t]);
    ListUpdate(born, k.idle, k.zombies, Zombie, me, th);
    BirthsAdd(k.threads, k.idle, k.ready, t, me, th);
    forall u | u in k'.threads ensures Placed(k', u, k'.threads[u]) {
      if u != t && u != me { assert Placed(k, u, k.threads[u]); }
    }
  }

  lemma AllAdd(all: seq<Tcb>, threads: Threads, t: Tcb, me: Tcb, th: Thread)
    requires AllOk(all, threads) && t != 0 && t !in threads && me in threads
    ensures AllOk([t] + all, threads[t := Thread(Ready, 0, Unborn)][me := th])
  {
    ConsNoDup(t, all);
  }

  lemma NewNotListed(k: Kernel, t: Tcb)
    requires ListsOk(k) && QueuesOk(k.threads, k.idle, k.queues) && t !in k.threads
    ensures t !in k.ready && t !in k.sleeping && t !in k.zombies && forall q :: q in k.queues ==> t !in k.queues[q]
  {
    forall q | q in k.queues ensures t !in k.queues[q] {
      assert QueueOk(k.threads, k.idle, q, k.queues[q]);
    }
  }

  lemma BirthsAdd(threads: Threads, idle: Tcb, ready: seq<Tcb>, t: Tcb, me: Tcb, th: Thread)
    requires BirthsOk(threads, idle, ready) && t !in threads && me in threads && t !in ready && t != idle && me != t
    requires threads[me].pc.Client? && th.pc == Creating(t)
    ensures BirthsOk(threads[t := Thread(Ready, 0, Unborn)][me := th], idle, ready)
  {
    var threads' := threads[t := Thread(Ready, 0, Unborn)][me := th];
    forall u | u in threads' && threads'[u].pc.Creating? ensures UnbornAt(threads', threads'[u].pc.child) {
      if u != me { assert UnbornAt(threads, threads[u].pc.child); }
    }
    forall u, v | u in threads' && v in threads' && threads'[u].pc.Creating? && threads'[v].pc == threads'[u].pc
      ensures u == v
    {
      if u != me { assert UnbornAt(threads, threads[u].pc.child); }
      if v != me { assert UnbornAt(threads, threads[v].pc.child); }
    }
  }

  /** The two blocks `Publish` changes, the child's first. */
  function Published(k: Kernel, t: Tcb): Threads
    requires t in k.threads && k.current in k.threads
  {
    k.threads[t := k.threads[t].(pc := Client)][k.current := k.threads[k.current].(pc := Client)]
  }

  lemma PublishLists(k: Kernel, t: Tcb)
    requires ListsOk(k) && QueuesOk(k.threads, k.idle, k.queues) && At(k, k.current).status == Running
      && k.current in k.threads
    requires t in k.threads && k.threads[t].status == Ready && t !in k.ready && t != k.idle && t != k.current
    ensures ListsOk(k.(ready := [t] + k.ready, threads := Published(k, t)))
    ensures QueuesOk(Published(k, t), k.idle, k.queues)
  {
    hide ListOk, QueuesOk, NoDup;
    var me := k.current;
    var th, me' := k.threads[t].(pc := Client), k.threads[me].(pc := Client);
    var born := k.threads[t := th];
    NotListed(k, t);
    NotListed(k, me);
    NotQueued(k, me);
    NotQueued(k, t);
    QueuesUpdate(k.threads, k.idle, k.queues, t, th);
    QueuesUpdate(born, k.idle, k.queues, me, me');
    ListUpdate(k.threads, k.idle, k.ready, Ready, t, th);
    ListCons(born, k.idle, k.ready, Ready, t);
    ListUpdate(born, k.idle, [t] + k.ready, Ready, me, me');
    ListUpdate(k.threads, k.idle, k.sleeping, Sleeping, t, th);
    ListUpdate(born, k.idle, k.sleeping, Sleeping, me, me');
    ListUpdate(k.threads, k.idle, k.zombies, Zombie, t, th);
    ListUpdate(born, k.idle, k.zombies, Zombie, me, me');
  }

  lemma PublishPlaces(k: Kernel, t: Tcb)
    requires PlacesOk(k) && IdleOk(k) && At(k, k.current).status == Running && k.current != k.idle
    requires t in k.threads && k.threads[t].status == Ready && t != k.idle && t != k.current
    ensures var k' := k.(ready := [t] + k.ready, threads := Published(k, t)); PlacesOk(k') && IdleOk(k')
  {
    var k' := k.(ready := [t] + k.ready, threads := Published(k, t));
    forall u | u in k'.threads ensures Placed(k', u, k'.threads[u]) {
      if u != t && u != k.current { assert Placed(k, u, k.threads[u]); }
    }
  }

  lemma ChildFacts(k: Kernel)
    requires Sched(k) && At(k, k.current).pc.Creating? && k.current in k.threads
    ensures var t := At(k, k.current).pc.child;
      && t in k.threads && k.threads[t].status == Ready && t !in k.ready && t != k.idle && t != k.current
      && UnbornAt(k.threads, t)
  {
    hide ListOk, QueuesOk, NoDup, AllOk;
    assert UnbornAt(k.threads, At(k, k.current).pc.child);
    CurrentBorn(k);
  }

  lemma PublishSched(k: Kernel)
    requires Sched(k) && At(k, k.current).status == Running && k.current != k.idle && At(k, k.current).pc.Creating?
    ensures Sched(Step(k, Publish))
  {
    hide ListsOk, QueuesOk, AllOk, BirthsOk, PlacesOk;
    var t := At(k, k.current).pc.child;
    ChildFacts(k);
    assert Step(k, Publish) == k.(ready := [t] + k.ready, threads := Published(k, t));
    PublishLists(k, t);
    PublishPlaces(k, t);
    BirthsPublish(k.threads, k.idle, k.ready, t, k.current);
    AllSame(k.all, k.threads, Published(k, t));
  }

  lemma AllSame(all: seq<Tcb>, threads: Threads, threads': Threads)
    requires AllOk(all, threads) && threads'.Keys == threads.Keys
    ensures AllOk(all, threads')
  {
  }

  lemma BirthsPublish(threads: Threads, idle: Tcb, ready: seq<Tcb>, t: Tcb, me: Tcb)
    requires BirthsOk(threads, idle, ready) && me in threads && threads[me].pc == Creating(t) && UnbornAt(threads, t)
    ensures BirthsOk(threads[t := threads[t].(pc := Client)][me := threads[me].(pc := Client)], idle, [t] + ready)
  {
    var threads' := threads[t := threads[t].(pc := Client)][me := threads[me].(pc := Client)];
    forall u | u in threads' && threads'[u].pc.Creating? ensures UnbornAt(threads', threads'[u].pc.child) {
      assert UnbornAt(threads, threads[u].pc.child);
      assert threads[u].pc.child != t;
    }
  }

  lemma NewQueueSched(k: Kernel, q: QueueId)
    requires Sched(k) && q !in k.queues
    ensures Sched(k.(queues := k.queues[q := []]))
  {
    hide ListOk, BirthsOk, NoDup, AllOk;
    var k' := k.(queues := k.queues[q := []]);
    assert QueueOk(k.threads, k.idle, q, []) by { EmptyListOk(k.threads, k.idle); }
    forall u | u in k'.threads ensures Placed(k', u, k'.threads[u]) {
      assert Placed(k, u, k.threads[u]);
    }
  }

  lemma EmptyListOk(threads: Threads, idle: Tcb)
    ensures ListOk(threads, idle, [], Blocked)
  {
  }
}
