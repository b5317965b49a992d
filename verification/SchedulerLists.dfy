/** All lists that share the one `local_list` node of each thread, and how they stay apart. */
module SchedulerLists {
  import opened KernelState
  import opened KernelPlaces
  import opened ThreadLists

  datatype ListId = ReadyList | SleepingList | ZombieList | WaitList(queue: QueueId)

  datatype Lists = Lists(ready: seq<Tcb>, sleeping: seq<Tcb>, zombies: seq<Tcb>, queues: map<QueueId, seq<Tcb>>)

  function ListsOf(k: Kernel): Lists {
    Lists(k.ready, k.sleeping, k.zombies, k.queues)
  }

  function Relisted(k: Kernel, ls: Lists): Kernel {
    k.(ready := ls.ready, sleeping := ls.sleeping, zombies := ls.zombies, queues := ls.queues)
  }

  function Members(ls: Lists, l: ListId): seq<Tcb> {
    match l
    case ReadyList => ls.ready
    case SleepingList => ls.sleeping
    case ZombieList => ls.zombies
    case WaitList(q) => if q in ls.queues then ls.queues[q] else []
  }

  function WithList(ls: Lists, l: ListId, s: seq<Tcb>): Lists {
    match l
    case ReadyList => ls.(ready := s)
    case SleepingList => ls.(sleeping := s)
    case ZombieList => ls.(zombies := s)
    case WaitList(q) => ls.(queues := ls.queues[q := s])
  }

  /** No thread is in two lists. */
  ghost predicate Apart(ls: Lists) {
    forall l, l', t :: t in Members(ls, l) && t in Members(ls, l') ==> l == l'
  }

  ghost predicate Loose(ls: Lists, t: Tcb) {
    forall l :: t !in Members(ls, l)
  }

  ghost predicate Exists(ls: Lists, l: ListId) {
    l.WaitList? ==> l.queue in ls.queues
  }

  /** Every list is spelt by the shared links; wait queues also know their tail. */
  ghost predicate Wired(next: Links, prev: Links, heads: map<ListId, Tcb>, tails: map<QueueId, Tcb>, ls: Lists) {
    && (forall l :: Exists(ls, l) ==> l in heads && Linked(next, prev, heads[l], Members(ls, l)))
    && (forall q :: q in ls.queues ==> q in tails && tails[q] == Final(ls.queues[q]))
  }

  lemma ListWired(next: Links, prev: Links, heads: map<ListId, Tcb>, tails: map<QueueId, Tcb>, ls: Lists, l: ListId)
    requires Wired(next, prev, heads, tails, ls) && Exists(ls, l)
    ensures l in heads && Linked(next, prev, heads[l], Members(ls, l))
    ensures l.WaitList? ==> l.queue in tails && tails[l.queue] == Final(Members(ls, l))
  {
    hide Linked;
  }

  /** One list changes, with links of its own nodes and of nodes in no list. */
  lemma WiredChange(next: Links, prev: Links, heads: map<ListId, Tcb>, tails: map<QueueId, Tcb>, ls: Lists,
                    next': Links, prev': Links, l: ListId, head: Tcb, tails': map<QueueId, Tcb>, s: seq<Tcb>,
                      touched: seq<Tcb>)
    requires Wired(next, prev, heads, tails, ls) && Exists(ls, l) && OnlyAt(next, prev, next', prev', touched)
    requires Linked(next', prev', head, s)
    requires tails' == if l.WaitList? then tails[l.queue := Final(s)] else tails
    requires forall l', t :: l' != l && t in touched ==> t !in Members(ls, l')
    ensures Wired(next', prev', heads[l := head], tails', WithList(ls, l, s))
  {
    hide Linked, OnlyAt, Wired;
    var ls' := WithList(ls, l, s);
    forall l' | Exists(ls', l')
      ensures l' in heads[l := head] && Linked(next', prev', heads[l := head][l'], Members(ls', l')) {
      if l' != l {
        assert Exists(ls, l') && Members(ls', l') == Members(ls, l');
        ListWired(next, prev, heads, tails, ls, l');
        LinkedElsewhere(next, prev, next', prev', touched, heads[l'], Members(ls, l'));
      }
    }
    TailsChange(next, prev, heads, tails, ls, l, tails', s);
    assert Wired(next', prev', heads[l := head], tails',
      ls') by { WiredFrom(next', prev', heads[l := head], tails', ls'); }
  }

  lemma TailsChange(next: Links, prev: Links, heads: map<ListId, Tcb>, tails: map<QueueId, Tcb>, ls: Lists, l: ListId,
                    tails': map<QueueId, Tcb>, s: seq<Tcb>)
    requires Wired(next, prev, heads, tails, ls) && Exists(ls, l)
    requires tails' == if l.WaitList? then tails[l.queue := Final(s)] else tails
    ensures forall q :: q in WithList(ls, l, s).queues ==>
      q in tails' && tails'[q] == Final(WithList(ls, l, s).queues[q])
  {
    hide Linked;
  }

  lemma WiredFrom(next: Links, prev: Links, heads: map<ListId, Tcb>, tails: map<QueueId, Tcb>, ls: Lists)
    requires forall l :: Exists(ls, l) ==> l in heads && Linked(next, prev, heads[l], Members(ls, l))
    requires forall q :: q in ls.queues ==> q in tails && tails[q] == Final(ls.queues[q])
    ensures Wired(next, prev, heads, tails, ls)
  {
  }

  /** A new, empty wait queue. */
  lemma WiredNew(next: Links, prev: Links, heads: map<ListId, Tcb>, tails: map<QueueId, Tcb>, ls: Lists, q: QueueId)
    requires Wired(next, prev, heads, tails, ls) && q !in ls.queues
    ensures Wired(next, prev, heads[WaitList(q) := 0], tails[q := 0], ls.(queues := ls.queues[q := []]))
  {
    hide Linked, Wired;
    var ls', heads', tails' := ls.(queues := ls.queues[q := []]), heads[WaitList(q) := 0], tails[q := 0];
    forall l | Exists(ls', l) ensures l in heads' && Linked(next, prev, heads'[l], Members(ls', l)) {
      if l == WaitList(q) {
        EmptyLinked(next, prev);
      } else {
        assert Members(ls', l) == Members(ls, l);
        ListWired(next, prev, heads, tails, ls, l);
      }
    }
    forall p | p in ls'.queues ensures p in tails' && tails'[p] == Final(ls'.queues[p]) {
      if p != q { ListWired(next, prev, heads, tails, ls, WaitList(p)); }
    }
    WiredFrom(next, prev, heads', tails', ls');
  }

  lemma EmptyLinked(next: Links, prev: Links)
    ensures Linked(next, prev, 0, [])
  {
  }

  lemma EmptyWired(next: Links, prev: Links, heads: map<ListId, Tcb>, tails: map<QueueId, Tcb>)
    requires heads == map[ReadyList := 0, SleepingList := 0, ZombieList := 0]
    ensures Wired(next, prev, heads, tails, Lists([], [], [], map[]))
  {
    EmptyLinked(next, prev);
    hide Linked;
  }

  // ---------------------------------------------------------------- from the invariant

  lemma SchedApart(k: Kernel)
    requires Sched(k)
    ensures Apart(ListsOf(k))
  {
    hide BirthsOk, PlacesOk, NoDup, AllOk, IdleOk;
    var ls := ListsOf(k);
    forall l, l', t | t in Members(ls, l) && t in Members(ls, l') ensures l == l' {
      MemberStatus(k, l, t);
      MemberStatus(k, l', t);
    }
  }

  /** The status, and for a queue the call, that puts a thread in list `l`. */
  predicate Belongs(th: Thread, l: ListId) {
    match l
    case ReadyList => th.status == Ready
    case SleepingList => th.status == Sleeping
    case ZombieList => th.status == Zombie
    case WaitList(q) => th.status == Blocked && th.pc.WaitsOn() == OnQueue(q)
  }

  lemma MemberStatus(k: Kernel, l: ListId, t: Tcb)
    requires Sched(k) && t in Members(ListsOf(k), l)
    ensures t in k.threads && Belongs(k.threads[t], l) && t != k.idle && t != 0
    ensures !l.WaitList? ==> t != k.current
  {
    hide BirthsOk, PlacesOk, NoDup, IdleOk;
    if l.WaitList? { assert QueueOk(k.threads, k.idle, l.queue, k.queues[l.queue]); }
  }

  lemma SchedLoose(k: Kernel, t: Tcb)
    requires Sched(k) && t == k.current && At(k, t).status != Blocked
    ensures Loose(ListsOf(k), t) && t != 0 && t in k.threads
  {
    CurrentThere(k);
    hide Sched;
    forall l ensures t !in Members(ListsOf(k), l) {
      if t in Members(ListsOf(k), l) { MemberStatus(k, l, t); }
    }
  }

  lemma CurrentThere(k: Kernel)
    requires Sched(k)
    ensures k.current in k.threads && k.current != 0 && k.idle in k.threads && k.idle != 0
  {
  }

  /** Taken out of its list, a thread is in none; the others stay apart. */
  lemma TakenLoose(ls: Lists, l: ListId, t: Tcb, s: seq<Tcb>)
    requires Apart(ls) && t in Members(ls, l) && Exists(ls, l)
    requires forall u :: u in s <==> u in Members(ls, l) && u != t
    ensures Apart(WithList(ls, l, s)) && Loose(WithList(ls, l, s), t)
  {
    var ls' := WithList(ls, l, s);
    forall l', u | u in Members(ls', l') ensures u in Members(ls, l') && u != t {
      assert l' == l || Members(ls', l') == Members(ls, l');
    }
    hide WithList, Members;
  }
}
