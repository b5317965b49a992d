/** Theorems over whole runs of the kernel: the invariant, the places of threads, and their number. */
module KernelRuns {
  import opened KernelState
  import opened KernelPlaces
  import opened KernelLocks
  import opened KernelSteps

  // ---------------------------------------------------------------- the invariant holds in every reachable state

  lemma InitInv(k: Kernel)
    requires Init(k)
    ensures Inv(k)
  {
    InitPlaces(k);
    hide Sched;
  }

  lemma InitPlaces(k: Kernel)
    requires Init(k)
    ensures Sched(k)
  {
    assert k.threads.Keys == {k.current, k.idle};
  }

  lemma {:induction false} RunInv(ks: seq<Kernel>, es: seq<Event>, n: nat)
    requires IsRun(ks, es) && n < |ks|
    ensures Inv(ks[n])
  {
    hide Inv, Init, Enabled, Step;
    if n == 0 {
      InitInv(ks[0]);
    } else {
      RunInv(ks, es, n - 1);
      StepInv(ks[n - 1], es[n - 1]);
    }
  }

  // ---------------------------------------------------------------- every thread is in one place

  datatype Place = OnCpu | InReady | InSleeping | InZombies | InQueue(queue: QueueId) | IdleAside | Unpublished

  ghost predicate Sits(k: Kernel, t: Tcb, p: Place) {
    match p
    case OnCpu => t == k.current
    case InReady => t in k.ready
    case InSleeping => t in k.sleeping
    case InZombies => t in k.zombies
    case InQueue(q) => q in k.queues && t in k.queues[q]
    case IdleAside => t == k.idle && t != k.current
    case Unpublished => t in k.threads && k.threads[t].pc.Unborn?
  }

  /** The place a thread's status stands for. */
  function PlaceOf(k: Kernel, t: Tcb): Place {
    var th := At(k, t);
    match th.status
    case Running => OnCpu
    case Ready => if t == k.idle then IdleAside else if th.pc.Unborn? then Unpublished else InReady
    case Sleeping => if th.pc.SleepMarked? && t == k.current then OnCpu else InSleeping
    case Zombie => InZombies
    case Blocked => if th.pc.WaitsOn().OnQueue? then InQueue(th.pc.WaitsOn().queue) else OnCpu
  }

  lemma PlaceUnique(k: Kernel, t: Tcb, p: Place)
    requires Inv(k) && t in k.threads
    ensures Sits(k, t, p) <==> p == PlaceOf(k, t)
  {
    hide NoDup, SyncOk;
    assert Placed(k, t, k.threads[t]);
    if p.InQueue? && p.queue in k.queues { assert QueueOk(k.threads, k.idle, p.queue, k.queues[p.queue]); }
  }

  /** In every reachable state each thread is in exactly one place, the one its status stands for, and no list or
      queue holds it twice. */
  lemma OnePlace(ks: seq<Kernel>, es: seq<Event>, n: nat, t: Tcb)
    requires IsRun(ks, es) && n < |ks| && t in ks[n].all
    ensures forall p :: Sits(ks[n], t, p) <==> p == PlaceOf(ks[n], t)
    ensures NoDup(ks[n].all) && NoDup(ks[n].ready) && NoDup(ks[n].sleeping) && NoDup(ks[n].zombies)
    ensures forall q :: q in ks[n].queues ==> NoDup(ks[n].queues[q])
  {
    RunInv(ks, es, n);
    ListsNoDup(ks[n]);
    hide Sits, PlaceOf, Inv, IsRun;
    forall p ensures Sits(ks[n], t, p) <==> p == PlaceOf(ks[n], t) {
      PlaceUnique(ks[n], t, p);
    }
  }

  lemma ListsNoDup(k: Kernel)
    requires Inv(k)
    ensures NoDup(k.all) && NoDup(k.ready) && NoDup(k.sleeping) && NoDup(k.zombies)
    ensures forall q :: q in k.queues ==> NoDup(k.queues[q])
    ensures forall t :: t in k.all <==> t in k.threads
  {
    hide NoDup, SyncOk, BirthsOk, PlacesOk;
    forall q | q in k.queues ensures NoDup(k.queues[q]) {
      assert QueueOk(k.threads, k.idle, q, k.queues[q]);
    }
  }

  // ---------------------------------------------------------------- counting threads

  ghost function Elems(s: seq<Tcb>): set<Tcb> {
    set t | t in s
  }

  lemma {:induction false} ElemsCount(s: seq<Tcb>)
    requires NoDup(s)
    ensures |Elems(s)| == |s|
  {
    if s != [] {
      TailElements(s);
      ElemsCount(s[1..]);
      assert Elems(s) == {s[0]} + Elems(s[1..]);
    }
  }

  ghost function SomeQueue(queues: map<QueueId, seq<Tcb>>): QueueId
    requires queues != map[]
  {
    var q :| q in queues; q
  }

  /** The lengths of all wait queues together. */
  ghost function TotalWaiting(queues: map<QueueId, seq<Tcb>>): nat {
    if queues == map[] then 0
    else
      var q := SomeQueue(queues);
      |queues[q]| + TotalWaiting(queues - {q})
  }

  ghost function AllWaiting(queues: map<QueueId, seq<Tcb>>): set<Tcb> {
    set q, t | q in queues && t in queues[q] :: t
  }

  lemma {:induction false} AllWaitingCount(queues: map<QueueId, seq<Tcb>>)
    requires forall q :: q in queues ==> NoDup(queues[q])
    requires forall q, p, t :: q in queues && p in queues && t in queues[q] && t in queues[p] ==> q == p
    ensures |AllWaiting(queues)| == TotalWaiting(queues)
  {
    if queues == map[] {
      assert AllWaiting(queues) == {};
    } else {
      var q := SomeQueue(queues);
      var rest := queues - {q};
      AllWaitingCount(rest);
      ElemsCount(queues[q]);
      OneQueueMore(queues, q);
    }
  }

  lemma OneQueueMore(queues: map<QueueId, seq<Tcb>>, q: QueueId)
    requires q in queues
    requires forall q, p, t :: q in queues && p in queues && t in queues[q] && t in queues[p] ==> q == p
    ensures AllWaiting(queues) == Elems(queues[q]) + AllWaiting(queues - {q})
      && Elems(queues[q]) !! AllWaiting(queues - {q})
  {
    var rest := queues - {q};
    forall t | t in AllWaiting(queues) ensures t in Elems(queues[q]) + AllWaiting(rest) {
      var p :| p in queues && t in queues[p];
      assert p != q ==> p in rest && t in rest[p];
    }
  }

  ghost function UnbornThreads(k: Kernel): set<Tcb> {
    set t | t in k.threads && k.threads[t].pc.Unborn?
  }

  lemma QueuesDisjoint(k: Kernel)
    requires Sched(k)
    ensures forall q, p, t :: q in k.queues && p in k.queues && t in k.queues[q] && t in k.queues[p] ==> q == p
  {
    hide NoDup, BirthsOk, PlacesOk, ListsOk, AllOk, IdleOk;
    forall q, p, t | q in k.queues && p in k.queues && t in k.queues[q] && t in k.queues[p] ensures q == p {
      assert QueueOk(k.threads, k.idle, q, k.queues[q]) && QueueOk(k.threads, k.idle, p, k.queues[p]);
    }
  }

  function Kind(p: Place): nat {
    match p
    case OnCpu => 0
    case InReady => 1
    case InSleeping => 2
    case InZombies => 3
    case InQueue(_) => 4
    case IdleAside => 5
    case Unpublished => 6
  }

  ghost function Part(k: Kernel, i: nat): set<Tcb> {
    set t | t in k.threads && Kind(PlaceOf(k, t)) == i
  }

  ghost function PartsBelow(k: Kernel, i: nat): set<Tcb> {
    set t | t in k.threads && Kind(PlaceOf(k, t)) < i
  }

  lemma OnePartMore(k: Kernel, i: nat)
    ensures |PartsBelow(k, i + 1)| == |PartsBelow(k, i)| + |Part(k, i)|
  {
    assert PartsBelow(k, i + 1) == PartsBelow(k, i) + Part(k, i);
  }

  lemma PartsEnds(k: Kernel)
    ensures PartsBelow(k, 0) == {} && PartsBelow(k, 7) == k.threads.Keys
  {
  }

  lemma PartsSum(k: Kernel)
    ensures |k.threads.Keys| == |Part(k, 0)| + |Part(k, 1)| + |Part(k, 2)| + |Part(k, 3)| + |Part(k, 4)| + |Part(k,
      5)| + |Part(k, 6)|
  {
    hide PartsBelow, Part;
    PartsEnds(k);
    OnePartMore(k, 0);
    OnePartMore(k, 1);
    OnePartMore(k, 2);
    OnePartMore(k, 3);
    OnePartMore(k, 4);
    OnePartMore(k, 5);
    OnePartMore(k, 6);
  }

  lemma ListMembers(k: Kernel)
    requires Inv(k)
    ensures k.current in k.threads && k.idle in k.threads
    ensures forall t :: t in k.ready || t in k.sleeping || t in k.zombies ==> t in k.threads
    ensures forall q, t :: q in k.queues && t in k.queues[q] ==> t in k.threads
  {
    hide NoDup, BirthsOk, PlacesOk, SyncOk;
    forall q, t | q in k.queues && t in k.queues[q] ensures t in k.threads {
      assert QueueOk(k.threads, k.idle, q, k.queues[q]);
    }
  }

  /** The threads of one kind of place are the members of the lists of that kind. */
  lemma PartsAre(k: Kernel)
    requires Inv(k)
    ensures Part(k, 0) == {k.current}
    ensures Part(k, 1) == Elems(k.ready) && Part(k, 2) == Elems(k.sleeping) && Part(k, 3) == Elems(k.zombies)
    ensures Part(k, 5) == if k.current == k.idle then {} else {k.idle}
    ensures Part(k, 6) == UnbornThreads(k)
  {
    ListMembers(k);
    hide Inv, PlaceOf;
    forall t | t in k.threads
      ensures Sits(k, t, OnCpu) <==> Kind(PlaceOf(k, t)) == 0
      ensures Sits(k, t, InReady) <==> Kind(PlaceOf(k, t)) == 1
      ensures Sits(k, t, InSleeping) <==> Kind(PlaceOf(k, t)) == 2
      ensures Sits(k, t, InZombies) <==> Kind(PlaceOf(k, t)) == 3
      ensures Sits(k, t, IdleAside) <==> Kind(PlaceOf(k, t)) == 5
      ensures Sits(k, t, Unpublished) <==> Kind(PlaceOf(k, t)) == 6
    {
      hide Sits;
      PlaceUnique(k, t, OnCpu);
      PlaceUnique(k, t, InReady);
      PlaceUnique(k, t, InSleeping);
      PlaceUnique(k, t, InZombies);
      PlaceUnique(k, t, IdleAside);
      PlaceUnique(k, t, Unpublished);
    }
  }

  lemma QueuedPart(k: Kernel)
    requires Inv(k)
    ensures Part(k, 4) == AllWaiting(k.queues)
  {
    ListMembers(k);
    hide Inv, PlaceOf;
    forall t | t in Part(k, 4) ensures t in AllWaiting(k.queues) {
      PlaceUnique(k, t, PlaceOf(k, t));
      assert t in k.queues[PlaceOf(k, t).queue];
    }
    forall t | t in AllWaiting(k.queues) ensures t in Part(k, 4) {
      var q :| q in k.queues && t in k.queues[q];
      PlaceUnique(k, t, InQueue(q));
    }
  }

  /** The number of threads in `all_threads` is the sum of the parts. */
  lemma ThreadCountIsSum(ks: seq<Kernel>, es: seq<Event>, n: nat)
    requires IsRun(ks, es) && n < |ks|
    ensures var k := ks[n];
      |k.all| == 1 + (if k.current == k.idle then 0 else 1) + |k.ready| + |k.sleeping| + |k.zombies|
                 + TotalWaiting(k.queues) + |UnbornThreads(k)|
  {
    RunInv(ks, es, n);
    var k := ks[n];
    ListsNoDup(k);
    hide IsRun, Sched, SyncOk, NoDup, TotalWaiting, AllWaiting, UnbornThreads, Part;
    QueuesDisjoint(k);
    ElemsCount(k.all);
    assert Elems(k.all) == k.threads.Keys;
    hide Elems;
    ElemsCount(k.ready);
    ElemsCount(k.sleeping);
    ElemsCount(k.zombies);
    AllWaitingCount(k.queues);
    PartsAre(k);
    QueuedPart(k);
    PartsSum(k);
  }
}
