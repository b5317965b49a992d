/** The scheduler and the primitives on linked lists, refining the state machine step by step. */
module SchedulerImpl {
  import opened KernelState
  import opened KernelPlaces
  import opened KernelLocks
  import opened KernelSteps
  import opened ThreadLists
  import opened SchedulerLists

  /** A cursor on a list walked from the front: `kept` is behind it, `pending` ahead. */
  lemma CursorNext(next: Links, prev: Links, head: Tcb, kept: seq<Tcb>, pending: seq<Tcb>, cursor: Tcb)
    requires Linked(next, prev, head, kept + pending) && cursor == First(pending) && cursor != 0
    ensures pending != [] && Link(next, cursor) == First(pending[1..]) && cursor in kept + pending
    ensures Without(kept + pending, cursor) == kept + pending[1..]
    ensures (kept + [cursor]) + pending[1..] == kept + pending
  {
    var s := kept + pending;
    assert s[|kept|] == cursor && Joint(next, prev, s, |kept|);
    WithoutAt(s, |kept|);
    assert s[..|kept|] == kept && s[|kept| + 1..] == pending[1..];
  }

  lemma CursorEnd(next: Links, prev: Links, head: Tcb, kept: seq<Tcb>, pending: seq<Tcb>)
    requires Linked(next, prev, head, kept + pending) && First(pending) == 0
    ensures pending == []
  {
    assert forall t :: t in pending ==> t in kept + pending;
    FirstNull(pending);
  }

  /** What waking a sleeper needs. */
  lemma SleeperTaken(k: Kernel, t: Tcb)
    requires Sched(k) && t in k.sleeping
    ensures t in k.threads && t != 0 && k.threads[t].status == Sleeping && Apart(ListsOf(k))
    ensures var ls := WithList(ListsOf(k), SleepingList, Without(k.sleeping, t)); Apart(ls) && Loose(ls, t)
    ensures Sched(WakeSleeper(k, t))
  {
    SchedApart(k);
    MemberStatus(k, SleepingList, t);
    WakeSleeperSched(k, t);
    SleepersDiffer(k, t);
    hide Sched, Apart, Loose, Without;
    TakenLoose(ListsOf(k), SleepingList, t, Without(k.sleeping, t));
  }

  lemma SleepersDiffer(k: Kernel, t: Tcb)
    requires Sched(k)
    ensures forall u :: u in Without(k.sleeping, t) <==> u in k.sleeping && u != t
  {
    WithoutElements(k.sleeping, t);
  }

  /** What reclaiming a dead thread needs. */
  lemma ZombieTaken(k: Kernel, t: Tcb)
    requires Sched(k) && t in k.zombies
    ensures t in k.threads && k.threads[t].status == Zombie && t != k.idle && t != k.current && t in k.all
    ensures Apart(ListsOf(k)) && Sched(Reclaim(k, t))
  {
    SchedApart(k);
    MemberStatus(k, ZombieList, t);
    ReclaimSched(k, t);
    assert t in k.all;
    hide Sched;
  }

  /** What waking the longest waiter needs. */
  lemma WaiterTaken(k: Kernel, q: QueueId)
    requires Sched(k) && q in k.queues && k.queues[q] != []
    ensures var t, ls := k.queues[q][0], WithList(ListsOf(k), WaitList(q), k.queues[q][1..]);
      t in k.threads && t != 0 && k.threads[t].status == Blocked && Apart(ListsOf(k)) && Apart(ls) && Loose(ls, t)
  {
    var t := k.queues[q][0];
    SchedApart(k);
    assert t in k.queues[q];
    MemberStatus(k, WaitList(q), t);
    QueueFacts(k, q);
    TailElements(k.queues[q]);
    hide Sched, Apart, Loose, NoDup;
    TakenLoose(ListsOf(k), WaitList(q), t, k.queues[q][1..]);
  }

  class Scheduler {
    const local: Nodes              // the local_list nodes
    const registry: Nodes           // the all_list nodes
    const idle: Tcb
    var heads: map<ListId, Tcb>     // ready_threads, sleeping_threads, zombie_threads, and each wait_queue_head
    var tails: map<QueueId, Tcb>    // wait_queue_tail of each primitive
    var all: Tcb                    // all_threads
    var threads: map<Tcb, Thread>
    var counts: map<QueueId, int>
    var mutexes: map<nat, Mutex>
    var current: Tcb
    var ticks: nat
    ghost var view: Kernel

    /** The links spell the lists of `view`, and the other fields are those of `view`. */
    ghost predicate Valid()
      reads this, local, registry
    {
      && local != registry
      && Wired(local.next, local.prev, heads, tails, ListsOf(view))
      && Linked(registry.next, registry.prev, all, view.all)
      && view.threads == threads && view.counts == counts && view.mutexes == mutexes
      && view.current == current && view.idle == idle && view.ticks == ticks
    }

    /** The thread that runs becomes the main thread, and the idle thread is made; no list but all_threads has a
        member. */
    constructor (main: Tcb, idle: Tcb)
      requires main != 0 && idle != 0 && main != idle
      ensures Valid() && fresh(local) && fresh(registry) && Init(view) && view.current == main && view.idle == idle
    {
      local := new Nodes();
      registry := new Nodes();
      this.idle := idle;
      heads, tails := map[ReadyList := 0, SleepingList := 0, ZombieList := 0], map[];
      threads := map[main := Thread(Running, 0, Client), idle := Thread(Ready, 0, Client)];
      counts, mutexes, current, ticks := map[], map[], main, 0;
      new;
      EmptyWired(local.next, local.prev, heads, tails);
      EmptyLinked(registry.next, registry.prev);
      hide Linked, Wired;
      all := registry.Add(0, main, []);
      assert [main] + [] == [main];
      all := registry.Add(all, idle, [main]);
      assert [idle] + [main] == [idle, main];
      view := Kernel([idle, main], [], [], [], main, idle, threads, map[], map[], map[], 0);
    }

    // -------------------------------------------------------------- list operations in place

    method Push(l: ListId, node: Tcb)
      requires Valid() && !l.WaitList? && node != 0 && Loose(ListsOf(view), node) && Apart(ListsOf(view))
      modifies this, local
      ensures Valid()
      ensures view == Relisted(old(view), WithList(ListsOf(old(view)), l, [node] + Members(ListsOf(old(view)), l)))
    {
      hide Linked, Wired, OnlyAt;
      ghost var ls, next0, prev0 := ListsOf(view), local.next, local.prev;
      ListWired(local.next, local.prev, heads, tails, ls, l);
      ghost var s := Members(ls, l);
      assert node !in s;
      var head := local.Add(heads[l], node, s);
      WiredChange(next0, prev0, heads, tails, ls, local.next, local.prev, l, head, tails, [node] + s, [node] + s);
      heads := heads[l := head];
      view := Relisted(view, WithList(ls, l, [node] + s));
    }

    method Unlink(l: ListId, node: Tcb)
      requires Valid() && !l.WaitList? && node in Members(ListsOf(view), l) && Apart(ListsOf(view))
      modifies this, local
      ensures Valid()
      ensures view == Relisted(old(view),
        WithList(ListsOf(old(view)), l, Without(Members(ListsOf(old(view)), l), node)))
    {
      hide Linked, Wired, OnlyAt;
      ghost var ls, next0, prev0 := ListsOf(view), local.next, local.prev;
      ListWired(local.next, local.prev, heads, tails, ls, l);
      ghost var s := Members(ls, l);
      var head := local.Remove(heads[l], node, s);
      WiredChange(next0, prev0, heads, tails, ls, local.next, local.prev, l, head, tails, Without(s, node), s);
      heads := heads[l := head];
      view := Relisted(view, WithList(ls, l, Without(s, node)));
    }

    method Enlist(q: QueueId, node: Tcb)
      requires Valid() && q in view.queues && node != 0 && Loose(ListsOf(view), node) && Apart(ListsOf(view))
      modifies this, local
      ensures Valid()
      ensures view == SetWaiting(old(view), q, Waiting(old(view), q) + [node])
    {
      hide Linked, Wired, OnlyAt;
      ghost var ls, l, next0, prev0 := ListsOf(view), WaitList(q), local.next, local.prev;
      ListWired(local.next, local.prev, heads, tails, ls, l);
      ghost var s := Members(ls, l);
      assert node !in s;
      var head, tail := local.Append(heads[WaitList(q)], tails[q], node, s);
      WiredChange(next0, prev0, heads, tails, ls, local.next, local.prev, l, head, tails[q := tail], s + [node],
        [node] + s);
      heads, tails := heads[WaitList(q) := head], tails[q := tail];
      view := SetWaiting(view, q, s + [node]);
    }

    method Delist(q: QueueId) returns (node: Tcb)
      requires Valid() && q in view.queues && view.queues[q] != [] && Apart(ListsOf(view))
      modifies this, local
      ensures Valid()
      ensures view == SetWaiting(old(view), q, Waiting(old(view), q)[1..]) && node == old(view).queues[q][0]
    {
      hide Linked, Wired, OnlyAt;
      ghost var ls, l, next0, prev0 := ListsOf(view), WaitList(q), local.next, local.prev;
      ListWired(local.next, local.prev, heads, tails, ls, l);
      ghost var s := Members(ls, l);
      var head, tail;
      head, tail, node := local.PopFront(heads[WaitList(q)], tails[q], s);
      WiredChange(next0, prev0, heads, tails, ls, local.next, local.prev, l, head, tails[q := tail], s[1..], s);
      heads, tails := heads[WaitList(q) := head], tails[q := tail];
      view := SetWaiting(view, q, s[1..]);
    }

    method SetThreadStatus(t: Tcb, status: Status)
      requires Valid() && t in threads
      modifies this
      ensures Valid() && view == SetStatus(old(view), t, status)
    {
      hide Linked, Wired;
      threads := threads[t := threads[t].(status := status)];
      view := SetStatus(view, t, status);
    }

    /** Make a blocked thread ready. */
    method ThreadUnblock(t: Tcb)
      requires Valid() && t != 0 && Loose(ListsOf(view), t) && Apart(ListsOf(view)) && t in threads
      requires threads[t].status == Blocked
      modifies this, local
      ensures Valid() && view == Unblock(old(view), t)
    {
      hide Linked, Wired;
      assert threads[t].status == Blocked;         // the kernel's assertion
      SetThreadStatus(t, Ready);
      Push(ReadyList, t);
    }

    /** Pop the longest waiter, if there is one, and make it ready. */
    method WakeWaiter(q: QueueId)
      requires Valid() && Sched(view) && q in view.queues
      modifies this, local
      ensures Valid() && view == WakeFirst(old(view), q)
    {
      hide Linked, Wired, Sched, Apart, Loose;
      ghost var k := view;
      HeadTells(q);
      if heads[WaitList(q)] != 0 {
        WaiterTaken(k, q);
        var t := Delist(q);
        assert ListsOf(view) == WithList(ListsOf(k), WaitList(q), k.queues[q][1..]);
        ThreadUnblock(t);
      }
    }

    /** A queue's head pointer is NULL exactly if nobody waits. */
    lemma HeadTells(q: QueueId)
      requires Valid() && q in view.queues
      ensures WaitList(q) in heads && (heads[WaitList(q)] == 0 <==> view.queues[q] == [])
        && heads[WaitList(q)] == Heir(view, q)
    {
      ListWired(local.next, local.prev, heads, tails, ListsOf(view), WaitList(q));
      hide Wired;
      FirstNull(view.queues[q]);
    }

    // -------------------------------------------------------------- the timer interrupt

    /** Wake every sleeper that is due, unlinking nodes from the list being walked. */
    method ThreadTimerTick()
      requires Valid() && Sched(view)
      modifies this, local
      ensures Valid() && Sched(view) && view == WakeDue(old(view), old(view).sleeping)
    {
      hide Linked, Wired, Sched, Apart, Loose, Without, WakeDue;
      ListWired(local.next, local.prev, heads, tails, ListsOf(view), SleepingList);
      var cursor := heads[SleepingList];
      SleepingHead();
      ghost var kept, pending := [], view.sleeping;
      while cursor != 0
        invariant Valid() && Sched(view)
        invariant view.sleeping == kept + pending && cursor == First(pending)
        invariant WakeDue(view, pending) == WakeDue(old(view), old(view).sleeping)
        decreases |pending|
      {
        ghost var k := view;
        var t := cursor;
        ListWired(local.next, local.prev, heads, tails, ListsOf(view), SleepingList);
        CursorNext(local.next, local.prev, heads[SleepingList], kept, pending, cursor);
        cursor := Link(local.next, cursor);
        SleeperTaken(k, t);
        assert threads[t].status == Sleeping;      // the kernel's assertion
        WakeDueNext(k, pending);
        if threads[t].wakeup <= ticks {
          Unlink(SleepingList, t);
          SetThreadStatus(t, Ready);
          Push(ReadyList, t);
          assert view == WakeSleeper(k, t);
        } else {
          kept := kept + [t];
        }
        pending := pending[1..];
      }
      ListWired(local.next, local.prev, heads, tails, ListsOf(view), SleepingList);
      CursorEnd(local.next, local.prev, heads[SleepingList], kept, pending);
      WakeDueNone(view);
    }

    lemma SleepingHead()
      requires Valid()
      ensures SleepingList in heads && heads[SleepingList] == First(view.sleeping)
        && view.sleeping == [] + view.sleeping
    {
      ListWired(local.next, local.prev, heads, tails, ListsOf(view), SleepingList);
    }

    /** Take a dead thread out of both lists and give its block and stack back. */
    method FreeThread(t: Tcb)
      requires Valid() && t in view.zombies && t in view.all && Apart(ListsOf(view))
      modifies this, local, registry
      ensures Valid() && view == Reclaim(old(view), t) && view.zombies == Without(old(view).zombies, t)
    {
      hide Linked, Wired, Apart, Without;
      Unlink(ZombieList, t);
      all := registry.Remove(all, t, view.all);
      threads := threads - {t};
      view := view.(all := Without(view.all, t), threads := threads);
    }

    /** Reclaim every dead thread but the current one. */
    method CleanZombies()
      requires Valid() && Sched(view)
      modifies this, local, registry
      ensures Valid() && Sched(view) && view == Reap(old(view), old(view).zombies)
    {
      hide Linked, Wired, Sched, Apart, Loose, Without, Reap, Reclaim;
      ZombieHead();
      var cursor := heads[ZombieList];
      ghost var kept, pending := [], view.zombies;
      while cursor != 0
        invariant Valid() && Sched(view)
        invariant view.zombies == kept + pending && cursor == First(pending)
        invariant Reap(view, pending) == Reap(old(view), old(view).zombies)
        decreases |pending|
      {
        ghost var k := view;
        var t := cursor;
        ListWired(local.next, local.prev, heads, tails, ListsOf(view), ZombieList);
        CursorNext(local.next, local.prev, heads[ZombieList], kept, pending, cursor);
        cursor := Link(local.next, cursor);
        ZombieTaken(k, t);
        assert threads[t].status == Zombie && t != idle;   // the kernel's assertions
        ReapNext(k, pending);
        if t != current {
          FreeThread(t);
        } else {
          kept := kept + [t];
        }
        pending := pending[1..];
      }
      ListWired(local.next, local.prev, heads, tails, ListsOf(view), ZombieList);
      CursorEnd(local.next, local.prev, heads[ZombieList], kept, pending);
      ReapNone(view);
    }

    lemma ZombieHead()
      requires Valid()
      ensures ZombieList in heads && heads[ZombieList] == First(view.zombies) && view.zombies == [] + view.zombies
    {
      ListWired(local.next, local.prev, heads, tails, ListsOf(view), ZombieList);
    }

    /** The thread to run next, taken out of the ready list. */
    method FindReadyThread() returns (next: Tcb)
      requires Valid() && Sched(view)
      modifies this, local, registry
      ensures Valid()
      ensures var k := Reap(old(view), old(view).zombies);
        next == Pick(k) && Sched(k) && view == if k.ready == [] then k else k.(ready := k.ready[..|k.ready| - 1])
    {
      hide Linked, Wired, Sched, Apart, Loose, Without, Reap;
      CleanZombies();
      CurrentThere(view);
      ListWired(local.next, local.prev, heads, tails, ListsOf(view), ReadyList);
      ReadyHead();
      if heads[ReadyList] == 0 {
        next := if threads[current].status == Running then current else idle;
        return;
      }
      next := local.FindLast(heads[ReadyList], view.ready);
      SchedApart(view);
      Unlink(ReadyList, next);
    }

    lemma ReadyHead()
      requires Valid()
      ensures ReadyList in heads && (heads[ReadyList] == 0 <==> view.ready == [])
      ensures view.ready != [] ==> Without(view.ready, Last(view.ready)) == view.ready[..|view.ready| - 1]
    {
      ListWired(local.next, local.prev, heads, tails, ListsOf(view), ReadyList);
      hide Wired;
      FirstNull(view.ready);
      if view.ready != [] { WithoutAt(view.ready, |view.ready| - 1); }
    }

    /** Switch to `next`: park the current thread where its status says. */
    method Schedule(next: Tcb)
      requires Valid() && Parkable(view) && next in threads
      requires threads[next].status == if next == current then Running else Ready
      modifies this, local
      ensures Valid() && view == SwitchTo(old(view), next)
    {
      hide Linked, Wired, Apart, Loose;
      if current == next {
        assert threads[current].status == Running;         // the kernel's assertion
        return;
      }
      if current == idle {
        SetThreadStatus(current, Ready);
      } else {
        match threads[current].status
        case Running =>
          SetThreadStatus(current, Ready);
          Push(ReadyList, current);
        case Sleeping => Push(SleepingList, current);
        case Zombie => Push(ZombieList, current);
        case Blocked =>
      }
      assert view == Park(old(view));
      assert threads[next].status == Ready;                // the kernel's assertion
      current := next;
      view := view.(current := next);
      SetThreadStatus(current, Running);
    }

    method SchedulerNext()
      requires Valid() && Sched(view)
      modifies this, local, registry
      ensures Valid() && view == Dispatch(Reap(old(view), old(view).zombies))
    {
      hide Linked, Wired, Sched, Apart, Loose, Reap, SwitchTo, Pick;
      ghost var k := Reap(view, view.zombies);
      var next := FindReadyThread();
      PickedParkable(k);
      Schedule(next);
    }

    /** The timer interrupt, taken by the clock or asked for by a thread that yields. */
    method TimerInterrupt()
      requires Valid() && Sched(view)
      modifies this, local, registry
      ensures Valid() && view == Reschedule(old(view))
    {
      hide Linked, Wired, Sched, Apart, Loose, Reap, WakeDue, Dispatch;
      ghost var k := view;
      ticks := ticks + 1;
      view := view.(ticks := ticks);
      SameThreads(k, view);
      ThreadTimerTick();
      SchedulerNext();
    }

    // -------------------------------------------------------------- threads

    method SetCurrent(th: Thread)
      requires Valid()
      modifies this
      ensures Valid() && view == old(view).(threads := old(view).threads[current := th])
    {
      hide Linked, Wired;
      threads := threads[current := th];
      view := view.(threads := threads);
    }

    /** thread_sleep, in the three stores an interrupt may fall between. */
    method SleepArm(n: nat)
      requires Valid() && Inv(view) && Enabled(view, KernelState.SleepArm(n))
      modifies this
      ensures Valid() && view == Step(old(view), KernelState.SleepArm(n))
    {
      hide Linked, Wired, Sched, SyncOk;
      SettledFacts(view);
      SetCurrent(threads[current].(wakeup := ticks + n, pc := SleepArmed));
    }

    method SleepMark()
      requires Valid() && Inv(view) && Enabled(view, KernelState.SleepMark)
      modifies this
      ensures Valid() && view == Step(old(view), KernelState.SleepMark)
    {
      hide Linked, Wired, Sched, SyncOk;
      SettledFacts(view);
      SetCurrent(threads[current].(status := Sleeping, pc := SleepMarked));
    }

    method SleepYield()
      requires Valid() && Inv(view) && Enabled(view, KernelState.SleepYield)
      modifies this, local, registry
      ensures Valid() && view == Step(old(view), KernelState.SleepYield)
    {
      hide Linked, Wired, Sched, SyncOk, Reschedule;
      SettledFacts(view);
      QuietChange(view, At(view, view.current).(pc := Client));
      SetCurrent(threads[current].(pc := Client));
      TimerInterrupt();
    }

    method ThreadExit()
      requires Valid() && Inv(view) && Enabled(view, Exit)
      modifies this, local, registry
      ensures Valid() && view == Step(old(view), Exit)
    {
      hide Linked, Wired, Sched, SyncOk, Reschedule;
      SettledFacts(view);
      assert current != idle;                              // the kernel's assertion
      QuietChange(view, At(view, view.current).(status := Zombie));
      SetCurrent(threads[current].(status := Zombie));
      TimerInterrupt();
    }

    /** thread_create: the new thread joins all_threads, */
    method CreateThread(t: Tcb)
      requires Valid() && Inv(view) && Enabled(view, Create(t))
      modifies this, registry
      ensures Valid() && view == Step(old(view), Create(t))
    {
      hide Linked, Wired, SyncOk, Sched;
      NewToAll(view, t);
      SettledFacts(view);
      all := registry.Add(all, t, view.all);
      threads := threads[t := Thread(Ready, 0, Unborn)];
      threads := threads[current := threads[current].(pc := Creating(t))];
      view := Step(view, Create(t));
    }

    /** and then the ready list. */
    method PublishThread()
      requires Valid() && Inv(view) && Enabled(view, Publish)
      modifies this, local
      ensures Valid() && view == Step(old(view), Publish)
    {
      hide Linked, Wired, SyncOk, Sched, Apart, Loose;
      SettledFacts(view);
      var child := threads[current].pc.child;
      PublishLoose(view);
      Push(ReadyList, child);
      threads := threads[child := threads[child].(pc := Client)];
      threads := threads[current := threads[current].(pc := Client)];
      view := view.(threads := threads);
    }

    method ThreadCount() returns (n: nat)
      requires Valid()
      ensures n == |view.all|
    {
      n := registry.Count(all, view.all);
    }

    // -------------------------------------------------------------- semaphores

    method NewQueue(q: QueueId)
      requires Valid() && q !in view.queues
      modifies this
      ensures Valid() && view == old(view).(queues := old(view).queues[q := []])
    {
      hide Linked, Wired;
      WiredNew(local.next, local.prev, heads, tails, ListsOf(view), q);
      heads, tails := heads[WaitList(q) := 0], tails[q := 0];
      view := view.(queues := view.queues[q := []]);
    }

    method SetCount(q: QueueId, n: int)
      requires Valid()
      modifies this
      ensures Valid() && view == old(view).(counts := old(view).counts[q := n])
    {
      hide Linked, Wired;
      counts := counts[q := n];
      view := view.(counts := counts);
    }

    method SemaphoreInit(s: nat, n: nat)
      requires Valid() && Inv(view) && Enabled(view, NewSem(s, n))
      modifies this
      ensures Valid() && view == Step(old(view), NewSem(s, n))
    {
      hide Linked, Wired, Inv;
      NewQueue(SemQueue(s));
      SetCount(SemQueue(s), n);
    }

    /** The running thread joins a wait queue. */
    method BlockCurrent(q: QueueId, pc: Pc)
      requires Valid() && q in view.queues && current in threads && current != 0
      requires Apart(ListsOf(view)) && Loose(ListsOf(view), current)
      modifies this, local
      ensures Valid() && view == Block(old(view), q, pc)
    {
      hide Linked, Wired, Apart, Loose;
      SetCurrent(threads[current].(status := Blocked, pc := pc));
      Enlist(q, current);
    }

    /** semaphore_down up to its yield or its end; `pc` says where the caller goes on when it is let through later. */
    method Down(q: QueueId, pc: Pc) returns (blocked: bool)
      requires Valid() && Sched(view) && q in view.queues && q in view.counts && pc.WaitsOn() == OnQueue(q)
      requires At(view, view.current).status == Running && At(view, view.current).pc.Client?
        && view.current != view.idle
      modifies this, local, registry
      ensures Valid() && view == KernelState.Down(old(view), q, pc) && blocked == (CountOf(old(view), q) - 1 < 0)
    {
      hide Linked, Wired, Sched, Apart, Loose, Reschedule;
      ghost var k := view;
      SetCount(q, counts[q] - 1);
      SameThreads(k, view);
      blocked := counts[q] < 0;
      if blocked {
        SchedApart(view);
        SchedLoose(view, view.current);
        BlockSched(view, q, pc);
        BlockCurrent(q, pc);
        TimerInterrupt();
      }
    }

    method TryDown(q: QueueId) returns (success: bool)
      requires Valid() && q in view.counts
      modifies this
      ensures Valid() && success == (CountOf(old(view), q) > 0)
      ensures view == if success then AddCount(old(view), q, -1) else old(view)
    {
      hide Linked, Wired;
      success := false;
      if counts[q] > 0 {
        SetCount(q, counts[q] - 1);
        success := true;
      }
    }

    method Up(q: QueueId)
      requires Valid() && Sched(view) && q in view.queues && q in view.counts
      modifies this, local
      ensures Valid() && view == KernelState.Up(old(view), q)
    {
      hide Linked, Wired, Sched, WakeFirst;
      ghost var k := view;
      SetCount(q, counts[q] + 1);
      SameThreads(k, view);
      WakeWaiter(q);
    }

    method SemaphoreDown(s: nat)
      requires Valid() && Inv(view) && Enabled(view, SemDown(s))
      modifies this, local, registry
      ensures Valid() && view == Step(old(view), SemDown(s))
    {
      hide Linked, Wired, Sched, LocksOk, CallsOk, Reschedule;
      SettledFacts(view);
      var _ := Down(SemQueue(s), InSem(s));
    }

    method SemaphoreTryDown(s: nat) returns (success: bool)
      requires Valid() && Inv(view) && Enabled(view, SemTry(s))
      modifies this
      ensures Valid() && view == Step(old(view), SemTry(s)) && success == (CountOf(old(view), SemQueue(s)) > 0)
    {
      hide Linked, Wired, Sched, LocksOk, CallsOk;
      success := TryDown(SemQueue(s));
    }

    method SemaphoreUp(s: nat)
      requires Valid() && Inv(view) && Enabled(view, SemUp(s))
      modifies this, local
      ensures Valid() && view == Step(old(view), SemUp(s))
    {
      hide Linked, Wired, Sched, LocksOk, CallsOk, WakeFirst;
      Up(SemQueue(s));
    }

    /** A thread that was blocked in semaphore_down is let through and returns. */
    method SemaphoreReturn()
      requires Valid() && Inv(view) && Enabled(view, SemReturn)
      modifies this
      ensures Valid() && view == Step(old(view), SemReturn)
    {
      hide Linked, Wired, Sched, SyncOk;
      SettledFacts(view);
      SetCurrent(threads[current].(pc := Client));
    }

    // -------------------------------------------------------------- mutexes

    method SetMutex(m: nat, lock: Mutex)
      requires Valid()
      modifies this
      ensures Valid() && view == SetLock(old(view), m, lock)
    {
      hide Linked, Wired;
      mutexes := mutexes[m := lock];
      view := view.(mutexes := mutexes);
    }

    method MutexInit(m: nat)
      requires Valid() && Inv(view) && Enabled(view, NewMutex(m))
      modifies this
      ensures Valid() && view == Step(old(view), NewMutex(m))
    {
      hide Linked, Wired, Inv;
      NewQueue(MutexQueue(m));
      SetCount(MutexQueue(m), 1);
      SetMutex(m, Mutex(0, 0, 0));
    }

    /** mutex_acquire up to its yield or its end. */
    method Acquire(m: nat)
      requires Valid() && Calling(view) && m in view.mutexes
      modifies this, local, registry
      ensures Valid() && view == KernelState.Acquire(old(view), m)
    {
      hide Linked, Wired, Sched, LockOk, SemsOk, CallsOk, Reschedule;
      HasQueue(view, m);
      if mutexes[m].holder == current {
        SetMutex(m, mutexes[m].(depth := mutexes[m].depth + 1));
        return;
      }
      var blocked := Down(MutexQueue(m), InAcquire(m));
      if !blocked {
        SetMutex(m, Mutex(current, 1, current));
      }
    }

    method MutexAcquire(m: nat)
      requires Valid() && Inv(view) && Enabled(view, KernelState.MutexAcquire(m))
      modifies this, local, registry
      ensures Valid() && view == Step(old(view), KernelState.MutexAcquire(m))
    {
      hide Linked, Wired, Inv, Calling, Reschedule;
      ClientCalls(view);
      Acquire(m);
    }

    /** A thread that was blocked in mutex_acquire is let through and writes itself down as holder. */
    method MutexReturn()
      requires Valid() && Inv(view) && Enabled(view, KernelState.MutexReturn)
      modifies this
      ensures Valid() && view == Step(old(view), KernelState.MutexReturn)
    {
      hide Linked, Wired, Sched, SyncOk;
      SettledFacts(view);
      SetMutex(threads[current].pc.mutex, Mutex(current, 1, current));
      SetCurrent(threads[current].(pc := Client));
    }

    /** mutex_try_acquire, in the three steps an interrupt may fall between. */
    method MutexTry(m: nat) returns (taken: bool)
      requires Valid() && Inv(view) && Enabled(view, KernelState.MutexTry(m))
      modifies this
      ensures Valid() && view == Step(old(view), KernelState.MutexTry(m))
      ensures taken == (old(view).mutexes[m].holder == old(view).current || CountOf(old(view), MutexQueue(m)) > 0)
    {
      hide Linked, Wired, Sched, LockOk, SemsOk, CallsOk;
      SettledFacts(view);
      HasQueue(view, m);
      if mutexes[m].holder == current {
        SetMutex(m, mutexes[m].(depth := mutexes[m].depth + 1));
        return true;
      }
      taken := TryDown(MutexQueue(m));
      if taken {
        SetMutex(m, mutexes[m].(owner := current));
        SetCurrent(threads[current].(pc := TryTaken(m)));
      }
    }

    method MutexTryHolder()
      requires Valid() && Inv(view) && Enabled(view, KernelState.MutexTryHolder)
      modifies this
      ensures Valid() && view == Step(old(view), KernelState.MutexTryHolder)
    {
      hide Linked, Wired, Sched, LocksOk, SemsOk;
      SettledFacts(view);
      assert Known(view.mutexes, PcOf(view.threads, view.current));
      var m := threads[current].pc.mutex;
      SetMutex(m, mutexes[m].(holder := current));
      SetCurrent(threads[current].(pc := TryHolding(m)));
    }

    method MutexTryDepth()
      requires Valid() && Inv(view) && Enabled(view, KernelState.MutexTryDepth)
      modifies this
      ensures Valid() && view == Step(old(view), KernelState.MutexTryDepth)
    {
      hide Linked, Wired, Sched, LocksOk, SemsOk;
      SettledFacts(view);
      assert Known(view.mutexes, PcOf(view.threads, view.current));
      var m := threads[current].pc.mutex;
      SetMutex(m, mutexes[m].(depth := 1));
      SetCurrent(threads[current].(pc := Client));
    }

    /** mutex_release by the holder. */
    method Release(m: nat)
      requires Valid() && Sched(view) && m in view.mutexes && MutexQueue(m) in view.queues
        && MutexQueue(m) in view.counts
      requires view.mutexes[m].holder == view.current && view.mutexes[m].depth >= 1
      modifies this, local
      ensures Valid() && view == KernelState.Release(old(view), m)
    {
      hide Linked, Wired, Sched, WakeFirst;
      ghost var k := view;
      assert mutexes[m].holder == current && mutexes[m].depth - 1 >= 0;   // the kernel's assertions
      var depth := mutexes[m].depth - 1;
      HeadTells(MutexQueue(m));
      if depth == 0 {
        SetMutex(m, Mutex(0, 0, heads[WaitList(MutexQueue(m))]));
        SameThreads(k, view);
        Up(MutexQueue(m));
      } else {
        SetMutex(m, mutexes[m].(depth := depth));
      }
    }

    method MutexRelease(m: nat)
      requires Valid() && Inv(view) && Enabled(view, KernelState.MutexRelease(m))
      modifies this, local
      ensures Valid() && view == Step(old(view), KernelState.MutexRelease(m))
    {
      hide Linked, Wired, Sched, SyncOk, KernelState.Release;
      ReleaseReady(view, m);
      Release(m);
    }

    // -------------------------------------------------------------- condition variables

    method CondvarInit(c: nat)
      requires Valid() && Inv(view) && Enabled(view, NewCond(c))
      modifies this
      ensures Valid() && view == Step(old(view), NewCond(c))
    {
      hide Linked, Wired, Inv;
      NewQueue(CondQueue(c));
    }

    /** condvar_wait up to its yield: the caller is in the queue before it lets the mutex go. */
    method CondvarWait(c: nat, m: nat)
      requires Valid() && Inv(view) && Enabled(view, CondWait(c, m))
      modifies this, local, registry
      ensures Valid() && view == Step(old(view), CondWait(c, m))
    {
      hide Linked, Wired, Sched, SyncOk, Apart, Loose, KernelState.Release, Reschedule, Block;
      SettledFacts(view);
      SchedApart(view);
      SchedLoose(view, view.current);
      CondBlocked(view, c, m);
      BlockCurrent(CondQueue(c), InCond(c, m));
      ReleaseSync(view, m);
      BlockedReady(view, m);
      Release(m);
      TimerInterrupt();
    }

    /** The rest of condvar_wait, after the wake-up: the mutex is acquired again. */
    method CondvarReturn()
      requires Valid() && Inv(view) && Enabled(view, CondReturn)
      modifies this, local, registry
      ensures Valid() && view == Step(old(view), CondReturn)
    {
      hide Linked, Wired, Inv, Sched, SyncOk, Calling, KernelState.Acquire;
      ReturnCalls(view);
      var m := threads[current].pc.lock;
      SetCurrent(threads[current].(pc := Client));
      Acquire(m);
    }

    method CondvarSignal(c: nat)
      requires Valid() && Inv(view) && Enabled(view, CondSignal(c))
      modifies this, local
      ensures Valid() && view == Step(old(view), CondSignal(c))
    {
      hide Linked, Wired, Sched, SyncOk, WakeFirst;
      WakeWaiter(CondQueue(c));
    }

    method CondvarBroadcast(c: nat)
      requires Valid() && Inv(view) && Enabled(view, CondBroadcast(c))
      modifies this, local
      ensures Valid() && view == Step(old(view), CondBroadcast(c))
    {
      hide Linked, Wired, Inv, Sched, WakeFirst, WakeAll;
      HeadTells(CondQueue(c));
      while heads[WaitList(CondQueue(c))] != 0
        invariant Valid() && Inv(view) && CondQueue(c) in view.queues && WaitList(CondQueue(c)) in heads
        invariant heads[WaitList(CondQueue(c))] == 0 <==> view.queues[CondQueue(c)] == []
        invariant WakeAll(view, CondQueue(c)) == WakeAll(old(view), CondQueue(c))
        decreases |Waiting(view, CondQueue(c))|
      {
        ghost var k := view;
        SignalInv(k, c);
        WakeAllNext(k, CondQueue(c));
        InvSched(k);
        WakeWaiter(CondQueue(c));
        HeadTells(CondQueue(c));
      }
      WakeAllNext(view, CondQueue(c));
    }

    // -------------------------------------------------------------- the simulation

    /** Whatever happens next in a run, the linked structures take the same step and keep the invariant. */
    method Perform(e: Event)
      requires Valid() && Inv(view) && Enabled(view, e)
      modifies this, local, registry
      ensures Valid() && Inv(view) && view == Step(old(view), e)
    {
      hide Inv, Step, Linked, Wired, Enabled, Valid;
      StepInv(view, e);
      match e
      case Irq => Interrupt();
      case SleepArm(n) => SleepArm(n);
      case SleepMark => SleepMark();
      case SleepYield => SleepYield();
      case Exit => ThreadExit();
      case Create(t) => CreateThread(t);
      case Publish => PublishThread();
      case NewSem(s, n) => SemaphoreInit(s, n);
      case NewMutex(m) => MutexInit(m);
      case NewCond(c) => CondvarInit(c);
      case SemDown(s) => SemaphoreDown(s);
      case SemTry(s) => var _ := SemaphoreTryDown(s);
      case SemUp(s) => SemaphoreUp(s);
      case SemReturn => SemaphoreReturn();
      case MutexAcquire(m) => MutexAcquire(m);
      case MutexReturn => MutexReturn();
      case MutexTry(m) => var _ := MutexTry(m);
      case MutexTryHolder => MutexTryHolder();
      case MutexTryDepth => MutexTryDepth();
      case MutexRelease(m) => MutexRelease(m);
      case CondWait(c, m) => CondvarWait(c, m);
      case CondReturn => CondvarReturn();
      case CondSignal(c) => CondvarSignal(c);
      case CondBroadcast(c) => CondvarBroadcast(c);
    }

    method Interrupt()
      requires Valid() && Inv(view)
      modifies this, local, registry
      ensures Valid() && view == Step(old(view), Irq)
    {
      hide Linked, Wired, Sched, SyncOk, Reschedule;
      TimerInterrupt();
    }
  }

  lemma InvSched(k: Kernel)
    requires Inv(k)
    ensures Sched(k)
  {
  }

  lemma WakeAllNext(k: Kernel, q: QueueId)
    ensures WakeAll(k, q) == if Waiting(k, q) == [] then k else WakeAll(WakeFirst(k, q), q)
  {
    hide WakeFirst;
  }

  /** The kernel's assertions in mutex_release. */
  lemma ReleaseReady(k: Kernel, m: nat)
    requires Inv(k) && Enabled(k, MutexRelease(m))
    ensures MutexQueue(m) in k.queues && MutexQueue(m) in k.counts && Lock(k, m).depth >= 1 && m in k.mutexes
    ensures Lock(k, m).holder == k.current
  {
    hide Sched, SemsOk, CallsOk, LockOk, Release;
    SettledFacts(k);
    HasQueue(k, m);
    RunnerNotQueued(k, MutexQueue(m));
    ReleaseSync(k, m);
  }

  lemma BlockedReady(k: Kernel, m: nat)
    requires SyncOk(k) && m in k.mutexes
    ensures MutexQueue(m) in k.queues && MutexQueue(m) in k.counts
  {
    HasQueue(k, m);
  }

  lemma ReturnCalls(k: Kernel)
    requires Inv(k) && Enabled(k, CondReturn)
    ensures k.current in k.threads && At(k, k.current).pc.lock in k.mutexes && Calling(SetPc(k, k.current, Client))
  {
    hide Sched, LocksOk, SemsOk;
    SettledFacts(k);
    assert Known(k.mutexes, PcOf(k.threads, k.current));
    QuietChange(k, At(k, k.current).(pc := Client));
  }

  lemma NewToAll(k: Kernel, t: Tcb)
    requires Inv(k) && t !in k.threads
    ensures t !in k.all
  {
  }

  lemma PublishLoose(k: Kernel)
    requires Inv(k) && At(k, k.current).pc.Creating?
    ensures var t := At(k, k.current).pc.child;
      t in k.threads && t != 0 && t != k.current && Apart(ListsOf(k)) && Loose(ListsOf(k), t)
  {
    var t := At(k, k.current).pc.child;
    SettledFacts(k);
    SchedApart(k);
    assert UnbornAt(k.threads, t);
    assert k.threads[t].status == Ready && t !in k.ready;
    CurrentBorn(k);
    hide Sched, SyncOk, Apart;
    forall l ensures t !in Members(ListsOf(k), l) {
      if t in Members(ListsOf(k), l) { MemberStatus(k, l, t); }
    }
  }

  /** The current thread can be put into a list, if its status asks for one. */
  ghost predicate Parkable(k: Kernel) {
    && k.current in k.threads && k.current != 0 && Apart(ListsOf(k))
    && k.threads[k.current].status != Ready && (k.threads[k.current].status != Blocked ==> Loose(ListsOf(k), k.current))
  }

  lemma PickedParkable(k: Kernel)
    requires Sched(k)
    ensures var k' := if k.ready == [] then k else k.(ready := k.ready[..|k.ready| - 1]);
      Parkable(k') && Pick(k) in k.threads && At(k, Pick(k)).status == if Pick(k) == k.current then Running else Ready
  {
    PickAsserted(k);
    CurrentBorn(k);
    SchedApart(k);
    CurrentThere(k);
    if At(k, k.current).status != Blocked { SchedLoose(k, k.current); }
    hide Sched, Pick;
    if k.ready != [] {
      var ls := WithList(ListsOf(k), ReadyList, k.ready[..|k.ready| - 1]);
      SmallerApart(ListsOf(k), ReadyList, k.ready[..|k.ready| - 1], k.current);
    }
  }

  lemma SmallerApart(ls: Lists, l: ListId, s: seq<Tcb>, t: Tcb)
    requires Apart(ls) && Exists(ls, l) && forall u :: u in s ==> u in Members(ls, l)
    ensures Apart(WithList(ls, l, s)) && (Loose(ls, t) ==> Loose(WithList(ls, l, s), t))
  {
    var ls' := WithList(ls, l, s);
    forall l', u | u in Members(ls', l') ensures u in Members(ls, l') {
      assert l' == l || Members(ls', l') == Members(ls, l');
    }
    hide WithList, Members;
  }

  lemma WakeDueNext(k: Kernel, pending: seq<Tcb>)
    requires pending != []
    ensures WakeDue(k, pending) ==
      if At(k, pending[0]).wakeup <= k.ticks then WakeDue(WakeSleeper(k, pending[0]), pending[1..])
        else WakeDue(k, pending[1..])
  {
    hide WakeSleeper, At;
  }

  lemma WakeDueNone(k: Kernel)
    ensures WakeDue(k, []) == k
  {
  }

  lemma ReapNext(k: Kernel, pending: seq<Tcb>)
    requires pending != []
    ensures Reap(k, pending) == if pending[0] != k.current then Reap(Reclaim(k, pending[0]), pending[1..])
      else Reap(k, pending[1..])
  {
    hide Reclaim;
  }

  lemma ReapNone(k: Kernel)
    ensures Reap(k, []) == k
  {
  }
}
