/** Who runs when the ready list is empty, and when the idle thread runs. */
module KernelIdle {
  import opened KernelState
  import opened KernelPlaces
  import opened KernelLocks
  import opened KernelSteps
  import opened KernelActs
  import opened KernelInterrupt
  import opened KernelRuns
  import opened KernelOrder

  /** The coming tick wakes nobody. */
  ghost predicate NobodyDue(k: Kernel) {
    forall t :: t in k.sleeping ==> At(k, t).wakeup > k.ticks + 1
  }

  lemma NothingDue(k: Kernel)
    ensures NobodyDue(k) <==> Due(k.(ticks := k.ticks + 1), k.sleeping) == []
  {
    var due := Due(k.(ticks := k.ticks + 1), k.sleeping);
    DueSleepers(k);
    hide Due;
    if due != [] {
      assert due[0] in due;
      assert due[0] in k.sleeping && At(k, due[0]).wakeup <= k.ticks + 1;
    } else {
      forall t | t in k.sleeping ensures At(k, t).wakeup > k.ticks + 1 {
        assert t !in due;
      }
    }
  }

  /** The state in which the next thread is chosen. */
  lemma BeforeChoice(k: Kernel)
    requires Sched(k)
    ensures var k1 := Tick(k); var k2 := Reap(k1, k1.zombies);
      && Reschedule(k) == Dispatch(k2) && Sched(k2) && k2.current == k.current && k2.idle == k.idle
      && k2.ready == Reversed(Due(k.(ticks := k.ticks + 1), k.sleeping)) + k.ready
      && At(k2, k.current).status == At(k, k.current).status
  {
    hide Sched, Tick, Reap, Dispatch, NoDup, Due, Reversed, At, Woken, Reaped, Prepared;
    var due := Due(k.(ticks := k.ticks + 1), k.sleeping);
    var k1 := Tick(k);
    TickExact(k);
    TickSched(k);
    DueSleepers(k);
    ReapFacts(k1);
    ReapExact(k1);
    ReapAllSched(k1);
    ReapFacts(k);
    PreparedBy(k, due, k1, Reap(k1, k1.zombies));
    ChoiceFacts(k, due, k1, Reap(k1, k1.zombies));
  }

  lemma ChoiceFacts(k: Kernel, due: seq<Tcb>, k1: Kernel, k2: Kernel)
    requires Woken(k.(ticks := k.ticks + 1), k1, due) && Reaped(k1, k2) && Prepared(k, k2)
    requires k.current in k.threads && k.current !in k.zombies && k.current !in k.sleeping
    ensures k2.ready == Reversed(due) + k.ready && k2.current == k.current && k2.idle == k.idle
    ensures At(k2, k.current).status == At(k, k.current).status
  {
    hide Reversed;
    assert k.current in k2.threads;
  }

  /** With nobody ready and nobody due the running thread goes on; a thread that may not go on leaves the processor to
      idle. */
  lemma NobodyReady(k: Kernel)
    requires Sched(k) && k.ready == [] && NobodyDue(k)
    ensures Reschedule(k).current == if At(k, k.current).status == Running then k.current else k.idle
    ensures Reschedule(k).ready == []
  {
    hide Sched, Tick, Reap, Dispatch, Reschedule, Due, NobodyDue, At;
    NothingDue(k);
    BeforeChoice(k);
    var k2 := Reap(Tick(k), Tick(k).zombies);
    assert Reversed<Tcb>([]) + [] == [];
    IdleDispatch(k2);
  }

  lemma IdleDispatch(k: Kernel)
    requires Sched(k) && k.ready == []
    ensures Dispatch(k).current == if At(k, k.current).status == Running then k.current else k.idle
    ensures Dispatch(k).ready == []
  {
    CurrentIdle(k);
    hide Sched;
  }

  /** With nobody ready and somebody due, the first sleeper of the list that is due runs next. */
  lemma SleeperNext(k: Kernel) returns (i: nat)
    requires Sched(k) && k.ready == [] && !NobodyDue(k)
    ensures i < |k.sleeping| && Reschedule(k).current == k.sleeping[i] && At(k, k.sleeping[i]).wakeup <= k.ticks + 1
    ensures forall j :: 0 <= j < i ==> At(k, k.sleeping[j]).wakeup > k.ticks + 1
  {
    hide Sched, Tick, Reap, Dispatch, Reschedule, Due, NobodyDue;
    var k0 := k.(ticks := k.ticks + 1);
    var due := Due(k0, k.sleeping);
    NothingDue(k);
    BeforeChoice(k);
    DispatchNext(Reap(Tick(k), Tick(k).zombies));
    assert Reversed(due) + [] == Reversed(due) && Last(Reversed(due)) == due[0];
    i := FirstDue(k0, k.sleeping);
    forall t ensures At(k0, t) == At(k, t) {}
  }

  lemma {:induction false} FirstDue(k: Kernel, s: seq<Tcb>) returns (i: nat)
    requires Due(k, s) != []
    ensures i < |s| && Due(k, s)[0] == s[i] && At(k, s[i]).wakeup <= k.ticks
    ensures forall j :: 0 <= j < i ==> At(k, s[j]).wakeup > k.ticks
  {
    if At(k, s[0]).wakeup <= k.ticks {
      i := 0;
    } else {
      assert Due(k, s) == Due(k, s[1..]);
      i := FirstDue(k, s[1..]);
      forall j | 0 <= j < i + 1 ensures At(k, s[j]).wakeup > k.ticks {
        assert j > 0 ==> s[j] == s[1..][j - 1];
      }
      i := i + 1;
    }
  }

  lemma ListedNotIdle(k: Kernel)
    requires Sched(k)
    ensures k.idle !in k.ready && k.idle !in k.sleeping
  {
    hide QueuesOk, BirthsOk, PlacesOk, AllOk, NoDup;
  }

  /** The processor goes to idle exactly when, after the tick, nobody is ready and the thread that had it may not go
      on. */
  lemma IdleIff(k: Kernel)
    requires Sched(k)
    ensures Reschedule(k).current == k.idle <==>
      k.ready == [] && NobodyDue(k) && (k.current == k.idle || At(k, k.current).status != Running)
  {
    hide Sched, Reschedule, NobodyDue;
    ListedNotIdle(k);
    CurrentIdle(k);
    if k.ready != [] {
      RescheduleExact(k);
      assert Last(k.ready) in k.ready;
    } else if NobodyDue(k) {
      NobodyReady(k);
    } else {
      var i := SleeperNext(k);
    }
  }

  // ---------------------------------------------------------------- over runs

  lemma IdleOnlyWaits(k: Kernel, e: Event)
    requires Enabled(k, e) && k.current == k.idle
    ensures e == Irq && Act(k, e) == k && Yields(k, e)
  {
  }

  lemma IdleStep(k: Kernel, e: Event)
    requires Inv(k) && Enabled(k, e) && (k.current == k.idle ==> k.ready == [])
    ensures Step(k, e).current == Step(k, e).idle ==> Step(k, e).ready == []
  {
    hide Inv, Sched, Act, Step, Enabled, Yields, Reschedule, SameSync, NobodyDue, At;
    var a := Act(k, e);
    StepSplits(k, e);
    StepExact(k, e);
    ActSound(k, e);
    if k.current == k.idle { IdleOnlyWaits(k, e); }
    if Yields(k, e) {
      IdleIff(a);
      if a.ready == [] && NobodyDue(a) { NobodyReady(a); }
    }
  }

  /** The idle thread runs only while no thread is waiting to run: every ready thread but itself is one that is still
      being created. */
  lemma {:induction false} IdleRunsAlone(ks: seq<Kernel>, es: seq<Event>, n: nat)
    requires IsRun(ks, es) && n <= |es| && ks[n].current == ks[n].idle
    ensures ks[n].ready == []
    ensures forall t :: t in ks[n].threads && ks[n].threads[t].status == Ready ==> ks[n].threads[t].pc.Unborn?
  {
    hide Step, Enabled;
    RunInv(ks, es, n);
    IdleReadyEmpty(ks, es, n);
    hide IsRun;
    ReadyIsListed(ks[n]);
  }

  lemma {:induction false} IdleReadyEmpty(ks: seq<Kernel>, es: seq<Event>, n: nat)
    requires IsRun(ks, es) && n <= |es|
    ensures ks[n].current == ks[n].idle ==> ks[n].ready == []
  {
    hide Inv, Act, Step, Enabled, Yields, Stepped;
    if n > 0 {
      IdleReadyEmpty(ks, es, n - 1);
      RunStep(ks, es, n - 1);
      IdleStep(ks[n - 1], es[n - 1]);
    }
  }

  lemma ReadyIsListed(k: Kernel)
    requires Inv(k) && k.ready == [] && k.current == k.idle
    ensures forall t :: t in k.threads && k.threads[t].status == Ready ==> k.threads[t].pc.Unborn?
  {
    hide QueuesOk, BirthsOk, AllOk, NoDup, SyncOk;
    forall t | t in k.threads && k.threads[t].status == Ready ensures k.threads[t].pc.Unborn? {
      assert Placed(k, t, k.threads[t]);
    }
  }

  // ---------------------------------------------------------------- newcomers wait for their turn

  /** A thread just created is dispatched after all that were ready before it. */
  lemma CreatedIsLast(ks: seq<Kernel>, es: seq<Event>, i: nat)
    requires IsRun(ks, es) && i < |es| && es[i] == Publish
    ensures Behind(ks[i + 1], At(ks[i], ks[i].current).pc.child, |ks[i].ready|)
  {
    hide Init;
  }

  /** So is a waiter just woken, */
  lemma WokenIsLast(k: Kernel, q: QueueId)
    requires Waiting(k, q) != []
    ensures Behind(WakeFirst(k, q), Waiting(k, q)[0], |k.ready|)
  {
  }

  /** and a thread that the interrupt takes the processor from. */
  lemma PreemptedIsLast(k: Kernel)
    requires Sched(k) && At(k, k.current).status == Running && k.current != k.idle && Reschedule(k).current != k.current
    ensures Reschedule(k).ready != [] && Behind(Reschedule(k), k.current, |Reschedule(k).ready| - 1)
  {
    hide Sched, Tick, Reap, Dispatch, Reschedule, Due, At;
    BeforeChoice(k);
    ParkedInFront(Reap(Tick(k), Tick(k).zombies));
  }

  lemma ParkedInFront(k: Kernel)
    requires At(k, k.current).status == Running && k.current != k.idle && Dispatch(k).current != k.current
    ensures Dispatch(k).ready != [] && Dispatch(k).ready[0] == k.current
  {
  }
}
