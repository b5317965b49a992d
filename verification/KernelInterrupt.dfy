/** What one timer interrupt does: exactly who wakes up, who is reclaimed and who runs next. */
module KernelInterrupt {
  import opened KernelState
  import opened KernelPlaces
  import opened KernelActs

  // ---------------------------------------------------------------- the tick

  /** The threads of `s` whose time has come, in the order of `s`. */
  function Due(k: Kernel, s: seq<Tcb>): seq<Tcb> {
    if s == [] then [] else (if At(k, s[0]).wakeup <= k.ticks then [s[0]] else []) + Due(k, s[1..])
  }

  lemma {:induction false} DueElements(k: Kernel, s: seq<Tcb>)
    ensures forall t :: t in Due(k, s) <==> t in s && At(k, t).wakeup <= k.ticks
  {
    if s != [] {
      assert s == [s[0]] + s[1..];
      DueElements(k, s[1..]);
    }
  }

  lemma {:induction false} DueSame(k: Kernel, k': Kernel, s: seq<Tcb>)
    requires k'.ticks == k.ticks && forall t :: At(k', t).wakeup == At(k, t).wakeup
    ensures Due(k', s) == Due(k, s)
  {
    if s != [] {
      DueSame(k, k', s[1..]);
    }
  }

  /** The walk that unlinks nodes from the list it walks wakes exactly the due threads, in order. */
  ghost predicate Woken(k: Kernel, k': Kernel, due: seq<Tcb>) {
    && k' == k.(ready := Reversed(due) + k.ready, sleeping := k'.sleeping, threads := k'.threads)
    && NoDup(k'.sleeping) && (forall t :: t in k'.sleeping <==> t in k.sleeping && t !in due)
    && (forall t :: t in k'.threads <==> t in k.threads)
    && (forall t :: t in k.threads ==> At(k', t) == At(k, t).(status := if t in due then Ready else At(k, t).status))
  }

  lemma {:induction false} WakeDueExact(k: Kernel, pending: seq<Tcb>)
    requires NoDup(k.sleeping) && forall t :: t in pending ==> t in k.threads
    ensures Woken(k, WakeDue(k, pending), Due(k, pending))
    decreases |pending|
  {
    if pending != [] {
      var t, rest := pending[0], pending[1..];
      assert pending == [t] + rest;
      assert t in pending && forall u :: u in rest ==> u in pending;
      if At(k, t).wakeup <= k.ticks {
        var k1 := WakeSleeper(k, t);
        WithoutElements(k.sleeping, t);
        DueSame(k, k1, rest);
        WakeDueExact(k1, rest);
        WokenOne(k, t, WakeDue(k1, rest), Due(k, rest));
      } else {
        WakeDueExact(k, rest);
        assert Due(k, pending) == Due(k, rest);
      }
    } else {
      assert Reversed<Tcb>([]) + k.ready == k.ready;
    }
  }

  lemma WokenOne(k: Kernel, t: Tcb, k': Kernel, due: seq<Tcb>)
    requires NoDup(k.sleeping) && t in k.threads && Woken(WakeSleeper(k, t), k', due)
    ensures Woken(k, k', [t] + due)
  {
    WithoutElements(k.sleeping, t);
    assert Reversed([t] + due) == Reversed(due) + [t];
    assert Reversed(due) + ([t] + k.ready) == Reversed([t] + due) + k.ready;
    forall u | u in k.threads
      ensures At(k', u) == At(k, u).(status := if u in [t] + due then Ready else At(k, u).status)
    {
      assert u in WakeSleeper(k, t).threads;
    }
  }

  /** After a tick no due thread sleeps, and no other thread was woken. */
  lemma TickExact(k: Kernel)
    requires Sched(k)
    ensures var k0 := k.(ticks := k.ticks + 1); Woken(k0, Tick(k), Due(k0, k.sleeping))
    ensures forall t :: t in Tick(k).sleeping <==> t in k.sleeping && At(k, t).wakeup > k.ticks + 1
  {
    hide QueuesOk, BirthsOk, PlacesOk, AllOk, NoDup;
    var k0 := k.(ticks := k.ticks + 1);
    assert ListOk(k.threads, k.idle, k.sleeping, Sleeping);
    WakeDueExact(k0, k.sleeping);
    DueElements(k0, k.sleeping);
    forall t ensures At(k0, t) == At(k, t) {}
  }

  // ---------------------------------------------------------------- reclaiming

  /** Every zombie is gone, and nothing else. */
  ghost predicate Reaped(k: Kernel, k': Kernel) {
    && k' == k.(zombies := [], all := k'.all, threads := k'.threads)
    && NoDup(k'.all) && (forall t :: t in k'.all <==> t in k.all && t !in k.zombies)
    && (forall t :: t in k'.threads <==> t in k.threads && t !in k.zombies)
    && (forall t :: t in k'.threads ==> k'.threads[t] == k.threads[t])
  }

  lemma {:induction false} ReapExact(k: Kernel)
    requires NoDup(k.zombies) && NoDup(k.all) && k.current !in k.zombies
    ensures Reaped(k, Reap(k, k.zombies))
    decreases |k.zombies|
  {
    if k.zombies != [] {
      var t := k.zombies[0];
      assert t in k.zombies;
      TailElements(k.zombies);
      WithoutElements(k.all, t);
      var k1 := Reclaim(k, t);
      assert k1.zombies == k.zombies[1..];
      hide NoDup, Without;
      ReapExact(k1);
    }
  }

  // ---------------------------------------------------------------- switching

  lemma DispatchNext(k: Kernel)
    requires Sched(k)
    ensures Dispatch(k).current == Pick(k)
    ensures k.ready != [] ==> EndsWith(Dispatch(k).ready, k.ready[..|k.ready| - 1])
    ensures k.ready != [] ==> Pick(k) == Last(k.ready)
  {
    hide QueuesOk, BirthsOk, PlacesOk, AllOk, NoDup;
    if k.ready != [] {
      var front := k.ready[..|k.ready| - 1];
      assert Last(k.ready) in k.ready;
      PrependEndsWith([k.current], front);
      assert EndsWith(front, front);
    }
  }

  /** The thread that stops running goes where its status says; threads other than it and `next` stay as they were. */
  ghost predicate Switched(k: Kernel, next: Tcb, k': Kernel) {
    var me := k.current;
    && k' == k.(current := next, ready := k'.ready, sleeping := k'.sleeping, zombies := k'.zombies,
      threads := k'.threads)
    && k'.sleeping == (if At(k, me).status == Sleeping then [me] + k.sleeping else k.sleeping)
    && k'.zombies == (if At(k, me).status == Zombie then [me] + k.zombies else k.zombies)
    && (forall t :: t in k'.threads <==> t in k.threads)
    && (forall t :: t in k.threads ==> At(k', t) == At(k, t).(status := At(k', t).status))
    && (forall t :: t in k.threads && t != next && t != me ==> At(k', t) == At(k, t))
    && At(k', next).status == Running
    && (next != me ==> At(k', me).status == if At(k, me).status == Running then Ready else At(k, me).status)
  }

  lemma SwitchExact(k: Kernel, ready: seq<Tcb>, next: Tcb)
    requires k.current in k.threads && next in k.threads && At(k, k.current).status != Ready
    requires next == k.current ==> At(k, next).status == Running
    requires k.current == k.idle ==> At(k, k.idle).status == Running
    ensures Switched(k, next, SwitchTo(k.(ready := ready), next))
  {
  }

  lemma DispatchSwitches(k: Kernel)
    requires Sched(k)
    ensures Switched(k, Pick(k), Dispatch(k))
  {
    PickAsserted(k);
    CurrentBorn(k);
    CurrentIdle(k);
    hide Sched, Pick, SwitchTo;
    var ready := if k.ready == [] then [] else k.ready[..|k.ready| - 1];
    hide Switched, At;
    assert Dispatch(k) == SwitchTo(k.(ready := ready), Pick(k));
    SwitchExact(k, ready, Pick(k));
  }

  lemma CurrentIdle(k: Kernel)
    requires Sched(k)
    ensures k.current == k.idle ==> At(k, k.idle).status == Running
  {
  }

  // ---------------------------------------------------------------- the whole interrupt

  /** The sleeping list: due threads leave, and the thread that went to sleep joins. */
  predicate StillAsleep(k: Kernel, t: Tcb) {
    t in k.sleeping && At(k, t).wakeup > k.ticks + 1
  }

  ghost predicate Rescheduled(k: Kernel, k': Kernel) {
    && k'.ticks == k.ticks + 1 && k'.idle == k.idle
    && (k.ready != [] ==> k'.current == Last(k.ready) && EndsWith(k'.ready, k.ready[..|k.ready| - 1]))
    && k'.zombies == (if At(k, k.current).status == Zombie then [k.current] else [])
    && (forall t :: t in k'.threads <==> t in k.threads && t !in k.zombies)
    && (forall t :: t in k'.sleeping <==> StillAsleep(k, t) || (t == k.current && At(k, t).status == Sleeping))
    && (forall t :: t in k'.threads ==> At(k', t) == At(k, t).(status := At(k', t).status))
    && (forall t :: StillAsleep(k, t) ==> t in k'.threads && At(k', t) == At(k, t))
    && (forall t :: t in k.sleeping && !StillAsleep(k, t) ==> t in k'.threads && At(k', t).status in {Ready, Running})
    && (forall t :: t in k'.threads && At(k, t).status == Ready ==> At(k', t).status in {Ready, Running})
  }

  lemma RescheduleExact(k: Kernel)
    requires Sched(k)
    ensures Rescheduled(k, Reschedule(k))
  {
    hide Sched, Tick, Reap, Dispatch, NoDup, Due, Reversed, At, Woken, Reaped, Switched, Prepared;
    var due := Due(k.(ticks := k.ticks + 1), k.sleeping);
    var k1 := Tick(k);
    TickExact(k);
    DueSleepers(k);
    TickSched(k);
    var k2 := Reap(k1, k1.zombies);
    ReapFacts(k1);
    ReapExact(k1);
    ReapAllSched(k1);
    DispatchNext(k2);
    DispatchSwitches(k2);
    ReapFacts(k);
    RescheduleReady(k, due, k1, k2, Dispatch(k2));
    PreparedBy(k, due, k1, k2);
    RescheduleThreads(k, k2, Dispatch(k2));
    RescheduleStatus(k, k2, Dispatch(k2));
  }

  lemma ReapFacts(k: Kernel)
    requires Sched(k)
    ensures NoDup(k.zombies) && NoDup(k.all) && k.current !in k.zombies && k.current !in k.sleeping
      && k.current in k.threads
    ensures forall t :: t in k.sleeping ==> t !in k.zombies && t in k.threads
  {
  }

  lemma DueSleepers(k: Kernel)
    ensures forall t :: t in Due(k.(ticks := k.ticks + 1), k.sleeping) <==>
      t in k.sleeping && At(k, t).wakeup <= k.ticks + 1
  {
    var k0 := k.(ticks := k.ticks + 1);
    DueElements(k0, k.sleeping);
    forall t ensures At(k0, t) == At(k, t) {}
  }

  /** Threads woken by the tick go in front, so the tail of the ready list is what it was. */
  lemma RescheduleReady(k: Kernel, due: seq<Tcb>, k1: Kernel, k2: Kernel, k3: Kernel)
    requires Woken(k.(ticks := k.ticks + 1), k1, due) && Reaped(k1, k2)
    requires k2.ready != [] ==> k3.current == Last(k2.ready) && EndsWith(k3.ready, k2.ready[..|k2.ready| - 1])
    ensures k.ready != [] ==> k3.current == Last(k.ready) && EndsWith(k3.ready, k.ready[..|k.ready| - 1])
  {
    assert k2.ready == Reversed(due) + k.ready;
    if k.ready != [] {
      assert k2.ready[..|k2.ready| - 1] == Reversed(due) + k.ready[..|k.ready| - 1];
      PrependEndsWith(Reversed(due), k.ready[..|k.ready| - 1]);
      EndsWithTransitive(k3.ready, k2.ready[..|k2.ready| - 1], k.ready[..|k.ready| - 1]);
    }
  }

  lemma EndsWithTransitive<T>(s: seq<T>, t: seq<T>, u: seq<T>)
    requires EndsWith(s, t) && EndsWith(t, u)
    ensures EndsWith(s, u)
  {
    assert s[|s| - |u|..] == s[|s| - |t|..][|t| - |u|..];
  }

  /** The state at the switch: tick and reclaiming done. */
  ghost predicate Prepared(k: Kernel, k2: Kernel) {
    && k2.ticks == k.ticks + 1 && k2.idle == k.idle && k2.current == k.current && k2.zombies == []
    && (forall t :: t in k2.threads <==> t in k.threads && t !in k.zombies)
    && (forall t :: t in k2.sleeping <==> StillAsleep(k, t))
    && (forall t :: t in k2.threads ==>
          At(k2, t) == At(k, t).(status := if t in k.sleeping && !StillAsleep(k, t) then Ready else At(k, t).status))
  }

  lemma PreparedBy(k: Kernel, due: seq<Tcb>, k1: Kernel, k2: Kernel)
    requires Woken(k.(ticks := k.ticks + 1), k1, due) && Reaped(k1, k2)
    requires forall t :: t in due <==> t in k.sleeping && At(k, t).wakeup <= k.ticks + 1
    ensures Prepared(k, k2)
  {
    hide Reversed;
    forall t | t in k2.threads
      ensures At(k2, t) == At(k, t).(status := if t in k.sleeping && !StillAsleep(k, t) then Ready else At(k, t).status)
    {
      assert t in k1.threads && t in k.threads;
    }
  }

  lemma RescheduleThreads(k: Kernel, k2: Kernel, k3: Kernel)
    requires Prepared(k, k2) && Switched(k2, Pick(k2), k3) && Sched(k2)
    requires k.current !in k.zombies && k.current !in k.sleeping && k.current in k.threads
    requires forall t :: t in k.sleeping ==> t !in k.zombies && t in k.threads
    ensures k3.ticks == k.ticks + 1 && k3.idle == k.idle
    ensures k3.zombies == (if At(k, k.current).status == Zombie then [k.current] else [])
    ensures forall t :: t in k3.threads <==> t in k.threads && t !in k.zombies
    ensures forall t :: t in k3.sleeping <==> StillAsleep(k, t) || (t == k.current && At(k, t).status == Sleeping)
    ensures forall t :: t in k3.threads ==> At(k3, t) == At(k, t).(status := At(k3, t).status)
  {
    hide Sched, Pick, StillAsleep, At;
    assert k.current in k2.threads && At(k2, k.current) == At(k, k.current);
    forall t | t in k3.threads ensures At(k3, t) == At(k, t).(status := At(k3, t).status) {
      assert t in k2.threads;
    }
  }

  lemma RescheduleStatus(k: Kernel, k2: Kernel, k3: Kernel)
    requires Prepared(k, k2) && Switched(k2, Pick(k2), k3) && Sched(k2)
    requires forall t :: t in k.sleeping ==> t !in k.zombies && t in k.threads
    ensures forall t :: StillAsleep(k, t) ==> t in k3.threads && At(k3, t) == At(k, t)
    ensures forall t :: t in k.sleeping && !StillAsleep(k, t) ==>
      t in k3.threads && At(k3, t).status in {Ready, Running}
    ensures forall t :: t in k3.threads && At(k, t).status == Ready ==> At(k3, t).status in {Ready, Running}
  {
    CurrentBorn(k2);
    hide Sched, Pick, At;
    forall t | t in k.sleeping && !StillAsleep(k, t) ensures t in k3.threads && At(k3, t).status in {Ready, Running} {
      assert t in k2.threads && At(k2, t).status == Ready;
      ReadyStays(k2, k3, t);
    }
    forall t | t in k3.threads && At(k, t).status == Ready ensures At(k3, t).status in {Ready, Running} {
      assert t in k2.threads && At(k2, t).status == Ready;
      ReadyStays(k2, k3, t);
    }
    forall t | StillAsleep(k, t) ensures t in k3.threads && At(k3, t) == At(k, t) {
      assert t in k2.sleeping;
      PickAwake(k2, t);
      assert t in k2.threads && At(k2, t) == At(k, t);
    }
  }

  /** A switch leaves a ready thread ready, or runs it. */
  lemma ReadyStays(k: Kernel, k': Kernel, t: Tcb)
    requires Switched(k, Pick(k), k') && Sched(k) && t in k.threads && At(k, t).status == Ready
    ensures t in k'.threads && At(k', t).status in {Ready, Running}
  {
    CurrentBorn(k);
    hide Sched, Pick;
  }

  lemma PickAwake(k: Kernel, t: Tcb)
    requires Sched(k) && t in k.sleeping
    ensures Pick(k) != t && k.current != t
  {
    PickAsserted(k);
    hide QueuesOk, BirthsOk, PlacesOk, AllOk, NoDup, Pick;
  }
}
