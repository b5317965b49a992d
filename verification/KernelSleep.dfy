/** Sleeping over whole runs: never woken early, never left asleep once due. */
module KernelSleep {
  import opened KernelState
  import opened KernelPlaces
  import opened KernelLocks
  import opened KernelSteps
  import opened KernelActs
  import opened KernelInterrupt
  import opened KernelRuns
  import opened KernelOrder

  lemma SleeperFacts(k: Kernel, t: Tcb)
    requires Inv(k) && t in k.sleeping
    ensures t in k.threads && t != k.current && At(k, t).status == Sleeping && !At(k, t).pc.Unborn?
  {
    hide QueuesOk, PlacesOk, NoDup, SyncOk;
  }

  lemma SleeperStep(k: Kernel, a: Kernel, k': Kernel, switch: bool, t: Tcb)
    requires Inv(k) && Stepped(k, a, k', switch) && t in k.sleeping
    ensures k'.ticks == k.ticks + if switch then 1 else 0
    ensures !switch || k.ticks + 1 < At(k, t).wakeup ==> t in k'.sleeping && At(k', t) == At(k, t)
    ensures switch && k.ticks + 1 >= At(k, t).wakeup ==> t !in k'.sleeping && At(k', t).status in {Ready, Running}
  {
    SleeperFacts(k, t);
    hide Inv, Sched, SameSync;
    assert At(a, t) == At(k, t);
  }

  /** A thread in the sleeping list stays there, untouched, while the clock has not moved on or not reached its time;
      the tick that brings the clock to its time makes it ready. */
  lemma {:induction false} WakesExactlyWhenDue(ks: seq<Kernel>, es: seq<Event>, i: nat, j: nat, t: Tcb)
    requires IsRun(ks, es) && i <= j <= |es| && t in ks[i].sleeping
    requires ks[j].ticks == ks[i].ticks || ks[j].ticks < At(ks[i], t).wakeup
    ensures t in ks[j].sleeping && At(ks[j], t) == At(ks[i], t)
    ensures j < |es| && ks[j + 1].ticks > ks[i].ticks && ks[j + 1].ticks >= At(ks[i], t).wakeup ==>
      t !in ks[j + 1].sleeping && At(ks[j + 1], t).status in {Ready, Running}
  {
    hide Inv, Stepped, Act, Step, Enabled, Init, Yields, At;
    if i < j {
      TicksCountSwitches(ks, es, i, j - 1);
      RunStep(ks, es, j - 1);
      StepTicks(ks[j - 1], Act(ks[j - 1], es[j - 1]), ks[j], Yields(ks[j - 1], es[j - 1]));
      WakesExactlyWhenDue(ks, es, i, j - 1, t);
      SleeperStep(ks[j - 1], Act(ks[j - 1], es[j - 1]), ks[j], Yields(ks[j - 1], es[j - 1]), t);
    }
    if j < |es| {
      TicksCountSwitches(ks, es, i, j);
      RunStep(ks, es, j);
      SleeperStep(ks[j], Act(ks[j], es[j]), ks[j + 1], Yields(ks[j], es[j]), t);
    }
  }

  // ---------------------------------------------------------------- a whole call of thread_sleep

  /** Thread `t` is still inside a call that must last until tick `w`, or that time has come. */
  ghost predicate Asleep(k: Kernel, t: Tcb, w: nat) {
    k.ticks >= w || (t in k.threads && k.threads[t].wakeup == w && Dozing(k.threads[t]))
  }

  predicate Dozing(th: Thread) {
    th.pc.SleepArmed? || ((th.pc.SleepMarked? || th.pc.Client?) && th.status == Sleeping)
  }

  /** A sleeper can only be interrupted or go on with its call. */
  lemma SleeperMoves(k: Kernel, e: Event)
    requires Enabled(k, e) && Settled(k) && Dozing(At(k, k.current))
      && (k.current == k.idle ==> At(k, k.current).pc.Client?)
    requires k.current == k.idle ==> At(k, k.current).status == Running
    ensures e.Irq? || (e.SleepMark? && At(k, k.current).pc.SleepArmed?)
      || (e.SleepYield? && At(k, k.current).pc.SleepMarked?)
  {
  }

  lemma IdleRuns(k: Kernel)
    requires Inv(k)
    ensures k.current in k.threads && Settled(k)
    ensures k.current == k.idle ==> At(k, k.current).pc.Client? && At(k, k.current).status == Running
  {
    SettledFacts(k);
  }

  /** The sleeper's own steps. */
  lemma DozingAct(k: Kernel, e: Event)
    requires Inv(k) && Enabled(k, e) && Dozing(At(k, k.current))
    ensures var th := At(Act(k, e), k.current);
      Dozing(th) && th.wakeup == At(k, k.current).wakeup && th.status != Zombie
    ensures k.current in k.threads && k.current in Act(k, e).threads
  {
    hide Inv, Enabled;
    IdleRuns(k);
    SleeperMoves(k, e);
    match e {
      case Irq =>
      case SleepMark =>
      case SleepYield =>
    }
  }

  lemma DozingOtherAct(k: Kernel, a: Kernel, t: Tcb)
    requires Keeps(k, a) && t != k.current && t in k.threads && Dozing(k.threads[t])
    ensures t in a.threads && Dozing(a.threads[t]) && a.threads[t].wakeup == k.threads[t].wakeup
  {
  }

  lemma DozingSwitch(a: Kernel, k': Kernel, t: Tcb)
    requires Sched(a) && Inv(k') && Rescheduled(a, k') && t in a.threads && Dozing(a.threads[t])
    ensures Asleep(k', t, a.threads[t].wakeup)
  {
    DozingPlace(a, t);
    hide Sched, Inv;
    assert At(k', t) == At(a, t).(status := At(k', t).status);
    if !a.threads[t].pc.SleepArmed? {
      if t in k'.sleeping { SleeperFacts(k', t); }
    }
  }

  lemma DozingPlace(a: Kernel, t: Tcb)
    requires Sched(a) && t in a.threads && Dozing(a.threads[t])
    ensures t !in a.zombies && (a.threads[t].status == Sleeping ==> t == a.current || t in a.sleeping)
  {
    hide QueuesOk, BirthsOk, NoDup, AllOk;
    assert Placed(a, t, a.threads[t]);
  }

  lemma DozingStep(k: Kernel, e: Event, t: Tcb, w: nat)
    requires Inv(k) && Enabled(k, e) && Asleep(k, t, w)
    ensures Asleep(Step(k, e), t, w)
  {
    var a := Act(k, e);
    StepExact(k, e);
    if k.ticks < w {
      if t == k.current { DozingAct(k, e); }
      hide Inv, Sched, Act, Step, Enabled, Yields, SameSync, Rescheduled, Dozing, Keeps;
      if t != k.current { DozingOtherAct(k, a, t); }
      ActTicks(k, a);
      if Yields(k, e) { DozingSwitch(a, Step(k, e), t); }
    } else {
      hide Inv, Sched, Act, Step, Enabled, Yields, SameSync, Dozing, Stepped;
      StepTicks(k, a, Step(k, e), Yields(k, e));
    }
  }

  lemma ActTicks(k: Kernel, a: Kernel)
    requires Keeps(k, a)
    ensures a.ticks == k.ticks
  {
  }

  lemma {:induction false} AsleepThroughout(ks: seq<Kernel>, es: seq<Event>, i: nat, j: nat, t: Tcb, w: nat)
    requires IsRun(ks, es) && i <= j <= |es| && Asleep(ks[i], t, w)
    ensures Asleep(ks[j], t, w)
  {
    hide Inv, Act, Step, Enabled, Init, Yields, Stepped, Asleep;
    if i < j {
      AsleepThroughout(ks, es, i, j - 1, t, w);
      RunStep(ks, es, j - 1);
      DozingStep(ks[j - 1], es[j - 1], t, w);
    }
  }

  /** A thread that called `thread_sleep(n)` is not back in its own code before `n` ticks have passed. */
  lemma SleepLastsLongEnough(ks: seq<Kernel>, es: seq<Event>, i: nat, j: nat, n: nat)
    requires IsRun(ks, es) && i < j <= |es| && es[i] == SleepArm(n)
    requires ks[j].current == ks[i].current && At(ks[j], ks[j].current).pc.Client?
    ensures ks[j].ticks >= ks[i].ticks + n
  {
    var t := ks[i].current;
    ArmedAsleep(ks, es, i, n);
    AsleepThroughout(ks, es, i + 1, j, t, ks[i].ticks + n);
    RunInv(ks, es, j);
    hide IsRun;
    RunnerAwake(ks[j], ks[i].ticks + n);
  }

  lemma ArmedAsleep(ks: seq<Kernel>, es: seq<Event>, i: nat, n: nat)
    requires IsRun(ks, es) && i < |es| && es[i] == SleepArm(n)
    ensures Asleep(ks[i + 1], ks[i].current, ks[i].ticks + n)
    ensures At(ks[i + 1], ks[i].current).wakeup == ks[i].ticks + n
  {
  }

  lemma RunnerAwake(k: Kernel, w: nat)
    requires Inv(k) && Asleep(k, k.current, w) && At(k, k.current).pc.Client?
    ensures k.ticks >= w
  {
    hide Sched, SyncOk;
  }

  // ---------------------------------------------------------------- which call a sleeper is in

  /** In a call of `thread_sleep`. */
  predicate InSleep(th: Thread) {
    th.pc.SleepArmed? || th.pc.SleepMarked? || th.status == Sleeping
  }

  lemma BlockAwake(k: Kernel, q: QueueId, pc: Pc, t: Tcb)
    requires !InSleep(At(k, t)) && pc.WaitsOn().OnQueue?
    ensures !InSleep(At(Block(k, q, pc), t))
  {
  }

  lemma EnqueueAwake(k: Kernel, q: QueueId, pc: Pc, t: Tcb)
    requires !InSleep(At(k, t)) && pc.WaitsOn().OnQueue?
    ensures !InSleep(At(Enqueue(k, q, pc), t))
  {
    hide Block, InSleep;
    BlockAwake(AddCount(k, q, -1), q, pc, t);
  }

  lemma WakeFirstAwake(k: Kernel, q: QueueId, t: Tcb)
    requires !InSleep(At(k, t))
    ensures !InSleep(At(WakeFirst(k, q), t))
  {
  }

  lemma {:induction false} WakeAllAwake(k: Kernel, q: QueueId, t: Tcb)
    requires !InSleep(At(k, t))
    ensures !InSleep(At(WakeAll(k, q), t))
    decreases |Waiting(k, q)|
  {
    if Waiting(k, q) != [] {
      assert Waiting(WakeFirst(k, q), q) == Waiting(k, q)[1..];
      hide InSleep, WakeFirst, Waiting;
      WakeFirstAwake(k, q, t);
      WakeAllAwake(WakeFirst(k, q), q, t);
    }
  }

  lemma ReleaseAwake(k: Kernel, m: nat, t: Tcb)
    requires !InSleep(At(k, t))
    ensures !InSleep(At(Release(k, m), t))
  {
    hide InSleep, WakeFirst;
    WakeFirstAwake(AddCount(SetLock(k, m, Mutex(0, 0, Heir(k, MutexQueue(m)))), MutexQueue(m), 1), MutexQueue(m), t);
  }

  lemma RequestAwake(k: Kernel, m: nat, t: Tcb)
    requires !InSleep(At(k, t))
    ensures !InSleep(At(Request(k, m), t))
  {
    hide InSleep, Enqueue, Reschedule;
    EnqueueAwake(k, MutexQueue(m), InAcquire(m), t);
  }

  lemma OwnAwake(k: Kernel, e: Event, t: Tcb)
    requires Enabled(k, e) && OwnStep(e) && !e.SleepArm? && !InSleep(At(k, t))
    ensures !InSleep(At(Act(k, e), t))
  {
    match e {
      case Irq =>
      case SleepMark =>
      case SleepYield =>
      case Exit =>
      case SemReturn =>
    }
  }

  lemma LockAwake(k: Kernel, e: Event, t: Tcb)
    requires LockStep(e) && !InSleep(At(k, t))
    ensures !InSleep(At(Act(k, e), t))
  {
    hide CountOf, Lock;
    if e.MutexTry? {
      hide Act;
      TryAwake(k, e.mutex, t);
    } else {
      match e {
        case SemTry(_) =>
        case MutexReturn =>
        case MutexTryHolder =>
        case MutexTryDepth =>
      }
    }
  }

  lemma TryAwake(k: Kernel, m: nat, t: Tcb)
    requires !InSleep(At(k, t))
    ensures !InSleep(At(Act(k, MutexTry(m)), t))
  {
    hide CountOf, Lock;
  }

  lemma LocalAwake(k: Kernel, e: Event, t: Tcb)
    requires Enabled(k, e) && Local(e) && !e.SleepArm? && !InSleep(At(k, t))
    ensures !InSleep(At(Act(k, e), t))
  {
    hide Enabled, Act, InSleep, At;
    if OwnStep(e) {
      OwnAwake(k, e, t);
    } else if LockStep(e) {
      LockAwake(k, e, t);
    } else {
      NewActs(k, e);
      ThreadsSame(k, Act(k, e), t);
    }
  }

  lemma ThreadsSame(k: Kernel, k': Kernel, t: Tcb)
    requires k'.threads == k.threads
    ensures At(k', t) == At(k, t)
  {
  }

  lemma WaitAwake(k: Kernel, e: Event, t: Tcb)
    requires (e.CondWait? || e.CondReturn?) && !InSleep(At(k, t))
    ensures !InSleep(At(Act(k, e), t))
  {
    hide Block, Release, Request, Reschedule;
    if e.CondWait? {
      BlockAwake(k, CondQueue(e.cond), InCond(e.cond, e.lock), t);
      ReleaseAwake(Block(k, CondQueue(e.cond), InCond(e.cond, e.lock)), e.lock, t);
    } else if At(k, k.current).pc.InCond? {
      RequestAwake(SetPc(k, k.current, Client), At(k, k.current).pc.lock, t);
    }
  }

  lemma BirthAwake(k: Kernel, e: Event, t: Tcb)
    requires (e.Create? || e.Publish?) && !InSleep(At(k, t))
    ensures !InSleep(At(Act(k, e), t))
  {
  }

  /** Nothing but arming puts a thread into such a call. */
  lemma ActAwake(k: Kernel, e: Event, t: Tcb)
    requires Enabled(k, e) && !e.SleepArm? && !InSleep(At(k, t))
    ensures !InSleep(At(Act(k, e), t))
  {
    if Local(e) {
      LocalAwake(k, e, t);
    } else {
      hide Enabled, InSleep, Release, Request, Enqueue, WakeFirst, WakeAll, Block, Reschedule, SetPc, SetStatus,
        Acquire;
      match e {
        case SemDown(s) => EnqueueAwake(k, SemQueue(s), InSem(s), t);
        case SemUp(s) => WakeFirstAwake(AddCount(k, SemQueue(s), 1), SemQueue(s), t);
        case MutexAcquire(m) => RequestAwake(k, m, t);
        case MutexRelease(m) => ReleaseAwake(k, m, t);
        case CondSignal(c) => WakeFirstAwake(k, CondQueue(c), t);
        case CondBroadcast(c) => WakeAllAwake(k, CondQueue(c), t);
        case CondWait(_, _) => WaitAwake(k, e, t);
        case CondReturn => WaitAwake(k, e, t);
        case Create(_) => BirthAwake(k, e, t);
        case Publish => BirthAwake(k, e, t);
      }
    }
  }

  /** The interrupt puts no thread into such a call either, */
  lemma SwitchAwake(a: Kernel, k': Kernel, t: Tcb)
    requires Rescheduled(a, k') && Inv(k') && InSleep(At(k', t))
    ensures InSleep(At(a, t)) && At(a, t).wakeup == At(k', t).wakeup
  {
    if At(k', t).status == Sleeping { SleepingListed(k', t); }
    hide Inv;
    assert t in k'.threads && At(k', t) == At(a, t).(status := At(k', t).status);
  }

  lemma SleepingListed(k: Kernel, t: Tcb)
    requires Inv(k) && At(k, t).status == Sleeping
    ensures t in k.sleeping || At(k, t).pc.SleepMarked?
  {
    SettledFacts(k);
    hide QueuesOk, BirthsOk, AllOk, NoDup, SyncOk;
    assert Placed(k, t, k.threads[t]);
  }

  /** and a thread in such a call keeps its wake-up time. */
  lemma InSleepAct(k: Kernel, e: Event, t: Tcb)
    requires Inv(k) && Enabled(k, e) && Keeps(k, Act(k, e)) && InSleep(At(k, t))
    requires !(t == k.current && e.SleepArm?)
    ensures At(Act(k, e), t).wakeup == At(k, t).wakeup
  {
    hide Act, Enabled, Inv;
    if t == k.current { InSleepOwn(k, e); }
  }

  lemma InSleepOwn(k: Kernel, e: Event)
    requires Inv(k) && Enabled(k, e) && InSleep(At(k, k.current)) && !e.SleepArm?
    ensures At(Act(k, e), k.current).wakeup == At(k, k.current).wakeup
  {
    SettledFacts(k);
    IdleRuns(k);
    hide Inv;
    var pc := At(k, k.current).pc;
    assert pc.SleepArmed? || pc.SleepMarked?;
    InSleepMoves(k, e);
    match e {
      case Irq =>
      case SleepMark =>
      case SleepYield =>
    }
  }

  lemma InSleepMoves(k: Kernel, e: Event)
    requires Enabled(k, e) && (At(k, k.current).pc.SleepArmed? || At(k, k.current).pc.SleepMarked?)
    ensures e.Irq? || e.SleepMark? || e.SleepYield?
  {
  }

  lemma InSleepStep(k: Kernel, e: Event, t: Tcb)
    requires Inv(k) && Enabled(k, e) && InSleep(At(Step(k, e), t)) && !(t == k.current && e.SleepArm?)
    ensures InSleep(At(k, t)) && At(Step(k, e), t).wakeup == At(k, t).wakeup
  {
    hide Inv, Enabled, Act, Step, Yields, Sched, SameSync, Rescheduled, Keeps, InSleep;
    StepExact(k, e);
    var a := Act(k, e);
    if Yields(k, e) { SwitchAwake(a, Step(k, e), t); }
    if e.SleepArm? { OthersUnarmed(k, e, t); } else if !InSleep(At(k, t)) { ActAwake(k, e, t); }
    InSleepAct(k, e, t);
  }

  lemma OthersUnarmed(k: Kernel, e: Event, t: Tcb)
    requires e.SleepArm? && t != k.current
    ensures At(Act(k, e), t) == At(k, t)
  {
  }

  /** A thread in such a call armed its wake-up time at the start of it. */
  lemma {:induction false} SleeperArmed(ks: seq<Kernel>, es: seq<Event>, j: nat, t: Tcb) returns (i: nat, n: nat)
    requires IsRun(ks, es) && j <= |es| && InSleep(At(ks[j], t))
    ensures i < j && es[i] == SleepArm(n) && ks[i].current == t && At(ks[j], t).wakeup == ks[i].ticks + n
    ensures forall l :: i < l <= j ==> InSleep(At(ks[l], t))
  {
    hide Inv, Stepped, Act, Step, Enabled, Yields, Init, InSleep;
    NobodySleepsAtFirst(ks[0], t);
    assert j > 0;
    RunStep(ks, es, j - 1);
    if ks[j - 1].current == t && es[j - 1].SleepArm? {
      i, n := j - 1, es[j - 1].n;
      ArmedAsleep(ks, es, i, n);
    } else {
      InSleepStep(ks[j - 1], es[j - 1], t);
      i, n := SleeperArmed(ks, es, j - 1, t);
    }
  }

  lemma NobodySleepsAtFirst(k: Kernel, t: Tcb)
    requires Init(k)
    ensures !InSleep(At(k, t))
  {
  }

  /** Every thread in the sleeping list armed its wake-up time in the call it is in, `n` ticks after the clock of that
      step for every `n`, and the next pass through the scheduler leaves it there if and only if it does not reach that
      time; otherwise the thread is ready, or running again. */
  lemma SleepsUntilDue(ks: seq<Kernel>, es: seq<Event>, j: nat, t: Tcb) returns (i: nat, n: nat)
    requires IsRun(ks, es) && j < |es| && t in ks[j].sleeping && Yields(ks[j], es[j])
    ensures i < j && es[i] == SleepArm(n) && ks[i].current == t && forall l :: i < l <= j ==> InSleep(At(ks[l], t))
    ensures t in ks[j + 1].sleeping <==> ks[j].ticks + 1 < ks[i].ticks + n
    ensures t !in ks[j + 1].sleeping ==> At(ks[j + 1], t).status in {Ready, Running}
  {
    hide Inv, Stepped, Act, Step, Enabled, Yields, Init;
    RunStep(ks, es, j);
    SleeperFacts(ks[j], t);
    i, n := SleeperArmed(ks, es, j, t);
    SleeperStep(ks[j], Act(ks[j], es[j]), ks[j + 1], true, t);
  }
}
