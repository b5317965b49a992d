/** A run of scheduler and heap together in which a new thread is given the control block address of a thread that
    exited holding a mutex, and so runs as the holder of a mutex it never acquired. */
module AddressReuse {
  import opened KernelState
  import opened KernelActs
  import opened KernelMutex
  import opened KernelLives
  import opened Intervals
  import opened HeapModel
  import opened ThreadMemory
  import Calls = HeapTheorems

  // ---------------------------------------------------------------- the kernel's side

  /** The addresses of the main thread, of a thread that comes and goes, and of the idle thread. */
  datatype Trio = Trio(main: Tcb, t: Tcb, idle: Tcb) {
    ghost predicate Distinct() {
      main != 0 && t != 0 && idle != 0 && main != t && main != idle && t != idle
    }
  }

  const RUNNING := Thread(Running, 0, Client)
  const READY := Thread(Ready, 0, Client)
  const MQ := MutexQueue(1)

  /** The main thread runs, the idle thread is aside, and there is no other. */
  function MainOnly(c: Trio, ticks: nat, queues: map<QueueId, seq<Tcb>>, counts: map<QueueId, int>,
    mutexes: map<nat, Mutex>): Kernel
  {
    Kernel([c.idle, c.main], [], [], [], c.main, c.idle, map[c.main := RUNNING, c.idle := READY], queues, counts,
      mutexes, ticks)
  }

  /** With the child in all_threads, and then in the ready list. */
  function ChildRegistered(c: Trio, k: Kernel): Kernel {
    k.(all := [c.t] + k.all,
       threads := map[c.main := Thread(Running, 0, Creating(c.t)), c.idle := READY, c.t := Thread(Ready, 0, Unborn)])
  }

  function ChildReady(c: Trio, k: Kernel): Kernel {
    k.(all := [c.t] + k.all, ready := [c.t], threads := map[c.main := RUNNING, c.idle := READY, c.t := READY])
  }

  /** With the child running. */
  function ChildRunning(c: Trio, k: Kernel): Kernel {
    k.(all := [c.t] + k.all, ready := [c.main], current := c.t,
       threads := map[c.main := READY, c.idle := READY, c.t := RUNNING])
  }

  lemma CreateStep(c: Trio, k: Kernel)
    requires c.Distinct() && k == MainOnly(c, k.ticks, k.queues, k.counts, k.mutexes)
    ensures Enabled(k, Create(c.t)) && Step(k, Create(c.t)) == ChildRegistered(c, k)
  {
  }

  lemma PublishStep(c: Trio, k: Kernel)
    requires c.Distinct() && k == MainOnly(c, k.ticks, k.queues, k.counts, k.mutexes)
    ensures Enabled(ChildRegistered(c, k), Publish) && Step(ChildRegistered(c, k), Publish) == ChildReady(c, k)
  {
  }

  lemma CreateThenPublish(c: Trio, k: Kernel)
    requires c.Distinct() && k == MainOnly(c, k.ticks, k.queues, k.counts, k.mutexes)
    ensures Enabled(k, Create(c.t)) && Step(k, Create(c.t)) == ChildRegistered(c, k)
    ensures Enabled(ChildRegistered(c, k), Publish) && Step(ChildRegistered(c, k), Publish) == ChildReady(c, k)
  {
    hide Step, Enabled;
    CreateStep(c, k);
    PublishStep(c, k);
  }

  lemma QuietTick(k: Kernel)
    requires k.sleeping == []
    ensures Tick(k) == k.(ticks := k.ticks + 1)
  {
  }

  lemma DispatchStep(c: Trio, k: Kernel)
    requires c.Distinct() && k == MainOnly(c, k.ticks, k.queues, k.counts, k.mutexes)
    ensures Enabled(ChildReady(c, k), Irq) && Step(ChildReady(c, k), Irq) == ChildRunning(c, k).(ticks := k.ticks + 1)
  {
    hide Tick;
    QuietTick(ChildReady(c, k));
  }

  lemma ExitStep(c: Trio, k: Kernel)
    requires c.Distinct() && k == MainOnly(c, k.ticks, k.queues, k.counts, k.mutexes)
    ensures Enabled(ChildRunning(c, k), Exit)
    ensures Step(ChildRunning(c, k), Exit) ==
      k.(all := [c.t] + k.all, zombies := [c.t], ticks := k.ticks + 1,
         threads := map[c.main := RUNNING, c.idle := READY, c.t := Thread(Zombie, 0, Client)])
  {
    hide Tick;
    QuietTick(SetStatus(ChildRunning(c, k), c.t, Zombie));
  }

  lemma ReclaimStep(c: Trio, k: Kernel, k': Kernel)
    requires c.Distinct() && k == MainOnly(c, k.ticks, k.queues, k.counts, k.mutexes)
    requires k' == k.(all := [c.t] + k.all, zombies := [c.t],
                      threads := map[c.main := RUNNING, c.idle := READY, c.t := Thread(Zombie, 0, Client)])
    ensures Enabled(k', Irq) && Step(k', Irq) == k.(ticks := k.ticks + 1)
  {
    hide Tick;
    QuietTick(k');
    var k1 := Tick(k');
    var k2 := Reclaim(k1, c.t);
    assert Without([c.t], c.t) == [] && Without([c.t] + k.all, c.t) == k.all;
    assert k2.threads == k.threads && k2 == k.(ticks := k.ticks + 1);
    assert [c.t][1..] == [];
    assert Reap(k1, [c.t]) == k2 by { assert Reap(k2, []) == k2; }
    assert Dispatch(k2) == k2;
  }

  /** The mutex the child takes. */
  lemma AcquireStep(c: Trio, k: Kernel)
    requires c.Distinct() && k == MainOnly(c, k.ticks, map[MQ := []], map[MQ := 1], map[1 := Mutex(0, 0, 0)])
    ensures Enabled(ChildRunning(c, k), MutexAcquire(1))
    ensures Step(ChildRunning(c, k), MutexAcquire(1)) ==
      ChildRunning(c, k.(counts := map[MQ := 0], mutexes := map[1 := Mutex(c.t, 1, c.t)]))
  {
    hide Block, Reschedule;
    var x := ChildRunning(c, k);
    assert Lock(x, 1) == Mutex(0, 0, 0) && CountOf(x, MQ) == 1 && x.current == c.t;
  }

  /** The ten events of the run: the first child dies with the mutex, and the second gets its address. */
  function ReuseEvents(t: Tcb): seq<Event> {
    [NewMutex(1), Create(t), Publish, Irq, MutexAcquire(1), Exit, Irq, Create(t), Publish, Irq]
  }

  function FreeState(c: Trio, ticks: nat): Kernel {
    MainOnly(c, ticks, map[MQ := []], map[MQ := 1], map[1 := Mutex(0, 0, 0)])
  }

  function HeldState(c: Trio, ticks: nat): Kernel {
    MainOnly(c, ticks, map[MQ := []], map[MQ := 0], map[1 := Mutex(c.t, 1, c.t)])
  }

  function ChildDead(c: Trio): Kernel {
    var k := HeldState(c, 2);
    k.(all := [c.t] + k.all, zombies := [c.t],
       threads := map[c.main := RUNNING, c.idle := READY, c.t := Thread(Zombie, 0, Client)])
  }

  /** Step `e` leads from `k` to `k'`. */
  ghost predicate Leads(k: Kernel, e: Event, k': Kernel) {
    Enabled(k, e) && Step(k, e) == k'
  }

  lemma MutexMade(k: Kernel, c: Trio)
    requires Init(k) && c == Trio(k.current, c.t, k.idle) && c.Distinct()
    ensures Leads(k, NewMutex(1), FreeState(c, 0))
  {
  }

  lemma ToFirstRun(c: Trio)
    requires c.Distinct()
    ensures Leads(FreeState(c, 0), Create(c.t), ChildRegistered(c, FreeState(c, 0)))
    ensures Leads(ChildRegistered(c, FreeState(c, 0)), Publish, ChildReady(c, FreeState(c, 0)))
    ensures Leads(ChildReady(c, FreeState(c, 0)), Irq, ChildRunning(c, FreeState(c, 1)))
  {
    hide Step, Enabled;
    CreateThenPublish(c, FreeState(c, 0));
    DispatchStep(c, FreeState(c, 0));
    assert ChildRunning(c, FreeState(c, 0)).(ticks := 1) == ChildRunning(c, FreeState(c, 1));
  }

  lemma ToReclaim(c: Trio)
    requires c.Distinct()
    ensures Leads(ChildRunning(c, FreeState(c, 1)), MutexAcquire(1), ChildRunning(c, HeldState(c, 1)))
    ensures Leads(ChildRunning(c, HeldState(c, 1)), Exit, ChildDead(c))
    ensures Leads(ChildDead(c), Irq, HeldState(c, 3))
  {
    hide Step, Enabled, ChildRunning;
    AcquireStep(c, FreeState(c, 1));
    ExitStep(c, HeldState(c, 1));
    ReclaimStep(c, HeldState(c, 2), ChildDead(c));
  }

  lemma ToSecondRun(c: Trio)
    requires c.Distinct()
    ensures Leads(HeldState(c, 3), Create(c.t), ChildRegistered(c, HeldState(c, 3)))
    ensures Leads(ChildRegistered(c, HeldState(c, 3)), Publish, ChildReady(c, HeldState(c, 3)))
    ensures Leads(ChildReady(c, HeldState(c, 3)), Irq, ChildRunning(c, HeldState(c, 4)))
  {
    hide Step, Enabled;
    CreateThenPublish(c, HeldState(c, 3));
    DispatchStep(c, HeldState(c, 3));
    assert ChildRunning(c, HeldState(c, 3)).(ticks := 4) == ChildRunning(c, HeldState(c, 4));
  }

  lemma SecondRuns(c: Trio)
    requires c.Distinct()
    ensures var k := ChildRunning(c, HeldState(c, 4));
      k.current == c.t && Lock(k, 1) == Mutex(c.t, 1, c.t) && Enabled(k, MutexRelease(1))
  {
  }

  /** A new thread that never acquired mutex 1 runs as its holder, and may release it. */
  lemma ReusedAddressHolds(k: Kernel, t: Tcb) returns (ks: seq<Kernel>)
    requires Init(k) && Trio(k.current, t, k.idle).Distinct()
    ensures IsRun(ks, ReuseEvents(t)) && ks[0] == k
    ensures ks[10].current == t && Lock(ks[10], 1) == Mutex(t, 1, t) && Enabled(ks[10], MutexRelease(1))
    ensures Gained(ks, ReuseEvents(t), t, 1, 8, 10) == 0
  {
    hide Step, Enabled, Init, FreeState, HeldState, ChildDead, ChildRunning, ChildReady, ChildRegistered, Lock, Gain;
    var c := Trio(k.current, t, k.idle);
    MutexMade(k, c);
    ToFirstRun(c);
    ToReclaim(c);
    ToSecondRun(c);
    SecondRuns(c);
    ks := [k, FreeState(c, 0), ChildRegistered(c, FreeState(c, 0)), ChildReady(c, FreeState(c, 0)),
      ChildRunning(c, FreeState(c, 1)),
      ChildRunning(c, HeldState(c, 1)),
           ChildDead(c), HeldState(c, 3), ChildRegistered(c, HeldState(c, 3)), ChildReady(c, HeldState(c, 3)),
             ChildRunning(c, HeldState(c, 4))];
    NoGain(ks[8], Publish, t);
    NoGain(ks[9], Irq, t);
    assert Gained(ks, ReuseEvents(t), t, 1, 8, 9) == 0;
  }

  lemma NoGain(k: Kernel, e: Event, t: Tcb)
    requires e == Publish || e == Irq
    ensures Gain(k, e, t, 1) == 0
  {
  }

  // ---------------------------------------------------------------- the heap's side

  /** Block sizes: 65552 bytes for a stack, 80 for a control block, 32 for a one-byte request. */
  lemma Sizes()
    ensures Target(STACK) == 65552 && Target(BLOCK) == 80 && Target(1) == 32
    ensures RoundUp(65552, PAGE) == 69632 && AlignUp(65552, PAGE) == 69632
  {
  }

  /** The main thread's control block is the first block of the heap at `b`. */
  function HeapMain(b: nat): Heap {
    Heap(b, b + 16384, [Interval(b + 80, 16304)], map[b := 80], Stats(1, 80, 0, 0))
  }

  /** With the first child's stack, for which the heap has grown, */
  function HeapStack(b: nat): Heap {
    Heap(b, b + 86016, [Interval(b + 80, 16304), Interval(b + 81936, 4080)], map[b := 80, b + 16384 := 65552],
         Stats(2, 65632, 0, 0))
  }

  /** its control block, */
  function HeapChild(b: nat): Heap {
    Heap(b, b + 86016, [Interval(b + 160, 16224), Interval(b + 81936, 4080)],
         map[b := 80, b + 16384 := 65552, b + 80 := 80], Stats(3, 65712, 0, 0))
  }

  /** and a small block behind that. */
  function HeapSmall(b: nat): Heap {
    Heap(b, b + 86016, [Interval(b + 192, 16192), Interval(b + 81936, 4080)],
         map[b := 80, b + 16384 := 65552, b + 80 := 80, b + 160 := 32], Stats(4, 65744, 0, 0))
  }

  /** The first child's memory has been given back; the small block keeps the two parts of it apart. */
  function HeapReclaimed(b: nat): Heap {
    Heap(b, b + 86016, [Interval(b + 80, 80), Interval(b + 192, 85824)], map[b := 80, b + 160 := 32],
         Stats(4, 65744, 2, 65632))
  }

  /** The second child's stack goes behind the small block, */
  function HeapStackAgain(b: nat): Heap {
    Heap(b, b + 86016, [Interval(b + 80, 80), Interval(b + 65744, 20272)],
         map[b := 80, b + 160 := 32, b + 192 := 65552], Stats(5, 131296, 2, 65632))
  }

  /** and its control block where the first one was. */
  function HeapChildAgain(b: nat): Heap {
    Heap(b, b + 86016, [Interval(b + 65744, 20272)],
         map[b := 80, b + 160 := 32, b + 192 := 65552, b + 80 := 80], Stats(6, 131376, 2, 65632))
  }

  /** A request served from free block `i`. */
  lemma MallocFrom(h: Heap, max: nat, size: nat, i: nat, h': Heap)
    requires i < |h.frees| && h.frees[i].size >= Target(size) > 0 && forall j :: 0 <= j < i ==>
      h.frees[j].size < Target(size)
    requires h' == Take(h.(stats := Count(h.stats, Target(size)), frees := Remove(h.frees, i)), h.frees[i],
      Target(size))
    ensures Fits(h, size) && Malloc(h, max, size) == Done(h', h.frees[i].lo + HEADER)
  {
    hide Target, Take, Remove, Count;
    FirstFitAt(h.frees, Target(size), i);
  }

  lemma {:induction false} FirstFitAt(fs: seq<Interval>, t: nat, i: nat)
    requires i < |fs| && fs[i].size >= t && forall j :: 0 <= j < i ==> fs[j].size < t
    ensures FirstFit(fs, t) == i
  {
    if i > 0 { FirstFitAt(fs[1..], t, i - 1); }
  }

  lemma StartHeap(b: nat, max: nat)
    requires 0 < b
    ensures Fits(Calls.Initial(b), BLOCK) && Malloc(Calls.Initial(b), max, BLOCK) == Done(HeapMain(b), b + HEADER)
  {
    Sizes();
    hide Target, AlignUp, RoundUp, Malloc, Fits;
    var h := Calls.Initial(b);
    assert Remove(h.frees, 0) == [];
    assert Insert([], Interval(b + 80, 16304)) == [Interval(b + 80, 16304)];
    assert h.live[b := 80] == map[b := 80];
    MallocFrom(h, max, BLOCK, 0, HeapMain(b));
  }

  lemma FirstStack(b: nat, max: nat)
    requires b + 86016 <= max < WORD
    ensures Fits(HeapMain(b), STACK) && Malloc(HeapMain(b), max, STACK) == Done(HeapStack(b), b + 16400)
  {
    Sizes();
    hide Target, AlignUp, RoundUp;
    var h := HeapMain(b);
    assert FirstFit(h.frees, 65552) == 1;
    assert Insert(h.frees, Interval(b + 81936, 4080)) == [Interval(b + 80, 16304), Interval(b + 81936, 4080)];
    assert h.live[b + 16384 := 65552] == map[b := 80, b + 16384 := 65552];
  }

  lemma FirstBlock(b: nat, max: nat)
    ensures Fits(HeapStack(b), BLOCK) && Malloc(HeapStack(b), max, BLOCK) == Done(HeapChild(b), b + 96)
  {
    Sizes();
    hide Target, AlignUp, RoundUp, Malloc, Fits;
    var h := HeapStack(b);
    assert Remove(h.frees, 0) == [Interval(b + 81936, 4080)];
    assert Insert([Interval(b + 81936, 4080)], Interval(b + 160, 16224)) == HeapChild(b).frees;
    MallocFrom(h, max, BLOCK, 0, HeapChild(b));
  }

  lemma SmallBlock(b: nat, max: nat)
    ensures Fits(HeapChild(b), 1) && Malloc(HeapChild(b), max, 1) == Done(HeapSmall(b), b + 176)
  {
    Sizes();
    hide Target, AlignUp, RoundUp, Malloc, Fits;
    var h := HeapChild(b);
    assert Remove(h.frees, 0) == [Interval(b + 81936, 4080)];
    assert Insert([Interval(b + 81936, 4080)], Interval(b + 192, 16192)) == HeapSmall(b).frees;
    MallocFrom(h, max, 1, 0, HeapSmall(b));
  }

  /** The heap between the two frees. */
  function HeapStackFreed(b: nat): Heap {
    Heap(b, b + 86016, [Interval(b + 192, 85824)], map[b := 80, b + 80 := 80, b + 160 := 32], Stats(4, 65744, 1, 65552))
  }

  lemma StackGivenBack(b: nat)
    ensures GiveBack(HeapSmall(b), b + 16400) == HeapStackFreed(b)
  {
    var h := HeapSmall(b);
    var tail := [Interval(b + 81936, 4080)];
    assert h.frees[1..] == tail;
    assert Insert(tail, Interval(b + 192, 81744)) == [Interval(b + 192, 85824)];
    assert h.live - {b + 16384} == HeapStackFreed(b).live;
  }

  lemma BlockGivenBack(b: nat)
    ensures GiveBack(HeapStackFreed(b), b + 96) == HeapReclaimed(b)
  {
    var h := HeapStackFreed(b);
    assert Insert(h.frees, Interval(b + 80, 80)) == HeapReclaimed(b).frees;
    assert h.live - {b + 80} == HeapReclaimed(b).live;
  }

  lemma SecondStack(b: nat, max: nat)
    ensures Fits(HeapReclaimed(b), STACK) && Malloc(HeapReclaimed(b), max, STACK) == Done(HeapStackAgain(b), b + 208)
  {
    Sizes();
    hide Target, AlignUp, RoundUp, Malloc, Fits;
    var h := HeapReclaimed(b);
    assert Remove(h.frees, 1) == [Interval(b + 80, 80)];
    assert Insert([Interval(b + 80, 80)], Interval(b + 65744, 20272)) == HeapStackAgain(b).frees;
    MallocFrom(h, max, STACK, 1, HeapStackAgain(b));
  }

  lemma SecondBlock(b: nat, max: nat)
    ensures Fits(HeapStackAgain(b), BLOCK) && Malloc(HeapStackAgain(b), max, BLOCK) == Done(HeapChildAgain(b), b + 96)
  {
    Sizes();
    hide Target, AlignUp, RoundUp, Malloc, Fits;
    var h := HeapStackAgain(b);
    assert Remove(h.frees, 0) == [Interval(b + 65744, 20272)];
    MallocFrom(h, max, BLOCK, 0, HeapChildAgain(b));
  }

  // ---------------------------------------------------------------- both sides together

  /** A turn in which nothing is reclaimed. */
  lemma QuietTurn(max: nat, s: Machine, e: Event, k': Kernel, esp: nat)
    requires Leads(s.k, e, k') && !e.Create? && s.k.zombies == [] && OnStack(k', s.h, Base(s, k'.current), esp)
    requires k'.current == s.k.current ==> esp == s.esp
    ensures Goes(max, s, Turn(e), s.(k := k', esp := esp))
  {
    hide Step, Enabled, Yields, OnStack;
    assert GiveBackAll(s, s.h, []) == s.h;
  }

  lemma Allocation(max: nat, s: Machine, size: nat, h': Heap, p: nat)
    requires Fits(s.h, size) && Malloc(s.h, max, size) == Done(h', p)
    ensures Goes(max, s, Call(Calls.MallocOp(size)), s.(h := h'))
  {
    hide Fits, Malloc;
  }

  /** The main thread, the only one but idle, makes two of its blocks a thread. */
  lemma BirthMove(max: nat, c: Trio, s: Machine, base: nat, k': Kernel)
    requires c.Distinct() && s.k == MainOnly(c, s.k.ticks, s.k.queues, s.k.counts, s.k.mutexes)
      && Leads(s.k, Create(c.t), k')
    requires Owned(s.h, c.t) && s.h.live[c.t - HEADER] == Target(BLOCK)
    requires Owned(s.h, base) && s.h.live[base - HEADER] == Target(STACK)
    requires base != c.t && base != c.main && base != 0 && Base(s, c.main) == 0
    ensures Goes(max, s, Birth(c.t, base), s.(k := k', stack := s.stack[c.t := base]))
  {
    hide Target, Step;
    assert !Used(s, c.t) && !Used(s, base);
  }

  /** The pointers of the first child's stack and the second one's, and the place of the children's control block. */
  function FirstBase(b: nat): nat { b + 16400 }

  function SecondBase(b: nat): nat { b + 208 }

  function Names(b: nat, idle: Tcb): Trio { Trio(b + HEADER, b + 96, idle) }

  /** Stack bases before the first child, with it, and with the second. */
  function NoChild(c: Trio): map<Tcb, nat> { map[c.main := 0] }

  function WithChild(c: Trio, base: nat): map<Tcb, nat> { map[c.main := 0, c.t := base] }

  /** The moves of the run, one by one. */
  function MoveAt(b: nat, i: nat): Move {
    match i
    case 0 => Turn(NewMutex(1))
    case 1 => Call(Calls.MallocOp(STACK))
    case 2 => Call(Calls.MallocOp(BLOCK))
    case 3 => Birth(b + 96, FirstBase(b))
    case 4 => Call(Calls.MallocOp(1))
    case 5 => Turn(Publish)
    case 6 => Turn(Irq)
    case 7 => Turn(MutexAcquire(1))
    case 8 => Turn(Exit)
    case 9 => Turn(Irq)
    case 10 => Call(Calls.MallocOp(STACK))
    case 11 => Call(Calls.MallocOp(BLOCK))
    case 12 => Birth(b + 96, SecondBase(b))
    case 13 => Turn(Publish)
    case _ => Turn(Irq)
  }

  function ReuseMoves(b: nat): seq<Move> {
    seq(15, i requires 0 <= i < 15 => MoveAt(b, i))
  }

  /** The states they go through. */
  function StateAt(b: nat, k: Kernel, c: Trio, esp: nat, i: nat): Machine {
    var st0, st1, st2 := NoChild(c), WithChild(c, FirstBase(b)), WithChild(c, SecondBase(b));
    var free, held := FreeState(c, 0), HeldState(c, 3);
    match i
    case 0 => Machine(k, HeapMain(b), st0, esp)
    case 1 => Machine(free, HeapMain(b), st0, esp)
    case 2 => Machine(free, HeapStack(b), st0, esp)
    case 3 => Machine(free, HeapChild(b), st0, esp)
    case 4 => Machine(ChildRegistered(c, free), HeapChild(b), st1, esp)
    case 5 => Machine(ChildRegistered(c, free), HeapSmall(b), st1, esp)
    case 6 => Machine(ChildReady(c, free), HeapSmall(b), st1, esp)
    case 7 => Machine(ChildRunning(c, FreeState(c, 1)), HeapSmall(b), st1, FirstBase(b) + STACK)
    case 8 => Machine(ChildRunning(c, HeldState(c, 1)), HeapSmall(b), st1, FirstBase(b) + STACK)
    case 9 => Machine(ChildDead(c), HeapSmall(b), st1, esp)
    case 10 => Machine(held, HeapReclaimed(b), st1, esp)
    case 11 => Machine(held, HeapStackAgain(b), st1, esp)
    case 12 => Machine(held, HeapChildAgain(b), st1, esp)
    case 13 => Machine(ChildRegistered(c, held), HeapChildAgain(b), st2, esp)
    case 14 => Machine(ChildReady(c, held), HeapChildAgain(b), st2, esp)
    case _ => Machine(ChildRunning(c, HeldState(c, 4)), HeapChildAgain(b), st2, SecondBase(b) + STACK)
  }

  /** The first child is created. */
  lemma FirstCreated(max: nat, b: nat, c: Trio, esp: nat)
    requires 0 < b && b + 86016 <= max < WORD && c == Names(b, c.idle) && c.Distinct() && FRAME <= esp <= b
    ensures var k, k' := FreeState(c, 0), ChildRegistered(c, FreeState(c, 0));
      && Goes(max, Machine(k, HeapMain(b), NoChild(c), esp), Call(Calls.MallocOp(STACK)),
              Machine(k, HeapStack(b), NoChild(c), esp))
      && Goes(max, Machine(k, HeapStack(b), NoChild(c), esp), Call(Calls.MallocOp(BLOCK)),
              Machine(k, HeapChild(b), NoChild(c), esp))
      && Goes(max, Machine(k, HeapChild(b), NoChild(c), esp), Birth(c.t, FirstBase(b)),
              Machine(k', HeapChild(b), WithChild(c, FirstBase(b)), esp))
      && Goes(max, Machine(k', HeapChild(b), WithChild(c, FirstBase(b)), esp), Call(Calls.MallocOp(1)),
              Machine(k', HeapSmall(b), WithChild(c, FirstBase(b)), esp))
  {
    hide Goes, Fits, Malloc, Leads, ChildRegistered;
    var k, k' := FreeState(c, 0), ChildRegistered(c, FreeState(c, 0));
    FirstStack(b, max);
    Allocation(max, Machine(k, HeapMain(b), NoChild(c), esp), STACK, HeapStack(b), b + 16400);
    FirstBlock(b, max);
    Allocation(max, Machine(k, HeapStack(b), NoChild(c), esp), BLOCK, HeapChild(b), b + 96);
    ToFirstRun(c);
    Sizes();
    BirthMove(max, c, Machine(k, HeapChild(b), NoChild(c), esp), FirstBase(b), k');
    assert NoChild(c)[c.t := FirstBase(b)] == WithChild(c, FirstBase(b));
    SmallBlock(b, max);
    Allocation(max, Machine(k', HeapChild(b), WithChild(c, FirstBase(b)), esp), 1, HeapSmall(b), b + 176);
  }

  /** It runs, acquires the mutex and exits. */
  lemma FirstRunsAndExits(max: nat, b: nat, c: Trio, esp: nat)
    requires c == Names(b, c.idle) && c.Distinct() && FRAME <= esp <= b
    ensures var h, st, sp := HeapSmall(b), WithChild(c, FirstBase(b)), FirstBase(b) + STACK;
      && Goes(max, Machine(ChildRegistered(c, FreeState(c, 0)), h, st, esp), Turn(Publish),
              Machine(ChildReady(c, FreeState(c, 0)), h, st, esp))
      && Goes(max, Machine(ChildReady(c, FreeState(c, 0)), h, st, esp), Turn(Irq),
              Machine(ChildRunning(c, FreeState(c, 1)), h, st, sp))
      && Goes(max, Machine(ChildRunning(c, FreeState(c, 1)), h, st, sp), Turn(MutexAcquire(1)),
              Machine(ChildRunning(c, HeldState(c, 1)), h, st, sp))
      && Goes(max, Machine(ChildRunning(c, HeldState(c, 1)), h, st, sp), Turn(Exit), Machine(ChildDead(c), h, st, esp))
  {
    hide Goes, Leads;
    var h, st, sp := HeapSmall(b), WithChild(c, FirstBase(b)), FirstBase(b) + STACK;
    ToFirstRun(c);
    ToReclaim(c);
    QuietTurn(max, Machine(ChildRegistered(c, FreeState(c, 0)), h, st, esp), Publish, ChildReady(c, FreeState(c, 0)),
      esp);
    QuietTurn(max, Machine(ChildReady(c, FreeState(c, 0)), h, st, esp), Irq, ChildRunning(c, FreeState(c, 1)), sp);
    QuietTurn(max, Machine(ChildRunning(c, FreeState(c, 1)), h, st, sp), MutexAcquire(1),
              ChildRunning(c, HeldState(c, 1)), sp);
    QuietTurn(max, Machine(ChildRunning(c, HeldState(c, 1)), h, st, sp), Exit, ChildDead(c), esp);
  }

  /** The interrupt that reclaims it gives its memory back. */
  lemma FirstReclaimed(max: nat, b: nat, c: Trio, esp: nat)
    requires c == Names(b, c.idle) && c.Distinct() && FRAME <= esp <= b
    ensures var st := WithChild(c, FirstBase(b));
      Goes(max, Machine(ChildDead(c), HeapSmall(b), st, esp), Turn(Irq),
        Machine(HeldState(c, 3), HeapReclaimed(b), st, esp))
  {
    hide Step, Enabled, HeapSmall, HeapReclaimed, HeapStackFreed;
    ToReclaim(c);
    var s := Machine(ChildDead(c), HeapSmall(b), WithChild(c, FirstBase(b)), esp);
    StackGivenBack(b);
    BlockGivenBack(b);
    hide GiveBack;
    OneGivenBack(s, s.h, [c.t]);
    HeapBegins(b);
    IrqYields(s.k);
  }

  lemma HeapBegins(b: nat)
    ensures HeapReclaimed(b).begin == b && HeapSmall(b).begin == b
  {
  }

  lemma IrqYields(k: Kernel)
    ensures Yields(k, Irq)
  {
  }

  /** The second child is created, at the first one's address, and runs. */
  lemma SecondCreated(max: nat, b: nat, c: Trio, esp: nat)
    requires 0 < b && c == Names(b, c.idle) && c.Distinct() && FRAME <= esp <= b
    ensures var k, k', st := HeldState(c, 3), ChildRegistered(c, HeldState(c, 3)), WithChild(c, FirstBase(b));
      && Goes(max, Machine(k, HeapReclaimed(b), st, esp), Call(Calls.MallocOp(STACK)),
        Machine(k, HeapStackAgain(b), st, esp))
      && Goes(max, Machine(k, HeapStackAgain(b), st, esp), Call(Calls.MallocOp(BLOCK)),
        Machine(k, HeapChildAgain(b), st, esp))
      && Goes(max, Machine(k, HeapChildAgain(b), st, esp), Birth(c.t, SecondBase(b)),
              Machine(k', HeapChildAgain(b), WithChild(c, SecondBase(b)), esp))
  {
    hide Goes, Fits, Malloc, Leads, ChildRegistered;
    var k, k', st := HeldState(c, 3), ChildRegistered(c, HeldState(c, 3)), WithChild(c, FirstBase(b));
    SecondStack(b, max);
    Allocation(max, Machine(k, HeapReclaimed(b), st, esp), STACK, HeapStackAgain(b), b + 208);
    SecondBlock(b, max);
    Allocation(max, Machine(k, HeapStackAgain(b), st, esp), BLOCK, HeapChildAgain(b), b + 96);
    ToSecondRun(c);
    Sizes();
    BirthMove(max, c, Machine(k, HeapChildAgain(b), st, esp), SecondBase(b), k');
    assert st[c.t := SecondBase(b)] == WithChild(c, SecondBase(b));
  }

  lemma SecondDispatched(max: nat, b: nat, c: Trio, esp: nat)
    requires c == Names(b, c.idle) && c.Distinct() && FRAME <= esp <= b
    ensures var h, st, sp := HeapChildAgain(b), WithChild(c, SecondBase(b)), SecondBase(b) + STACK;
      && Goes(max, Machine(ChildRegistered(c, HeldState(c, 3)), h, st, esp), Turn(Publish),
              Machine(ChildReady(c, HeldState(c, 3)), h, st, esp))
      && Goes(max, Machine(ChildReady(c, HeldState(c, 3)), h, st, esp), Turn(Irq),
              Machine(ChildRunning(c, HeldState(c, 4)), h, st, sp))
  {
    hide Goes, Leads;
    var h, st, sp := HeapChildAgain(b), WithChild(c, SecondBase(b)), SecondBase(b) + STACK;
    ToSecondRun(c);
    QuietTurn(max, Machine(ChildRegistered(c, HeldState(c, 3)), h, st, esp), Publish, ChildReady(c, HeldState(c, 3)),
      esp);
    QuietTurn(max, Machine(ChildReady(c, HeldState(c, 3)), h, st, esp), Irq, ChildRunning(c, HeldState(c, 4)), sp);
  }

  lemma MutexMadeFirst(max: nat, b: nat, k: Kernel, c: Trio, esp: nat)
    requires 0 < b && b % PAGE == 0 && Init(k) && c == Trio(k.current, c.t, k.idle) && c == Names(b, k.idle)
      && c.Distinct()
    requires k.idle < b && FRAME <= esp <= b
    ensures Start(max, Machine(k, HeapMain(b), NoChild(c), esp))
    ensures Goes(max, Machine(k, HeapMain(b), NoChild(c), esp), Turn(NewMutex(1)),
                 Machine(FreeState(c, 0), HeapMain(b), NoChild(c), esp))
  {
    hide Leads, Malloc, Fits, Goes;
    StartHeap(b, max);
    MutexMade(k, c);
    QuietTurn(max, Machine(k, HeapMain(b), NoChild(c), esp), NewMutex(1), FreeState(c, 0), esp);
  }

  lemma OneMove(max: nat, b: nat, k: Kernel, c: Trio, esp: nat, i: nat)
    requires 0 < b && b % PAGE == 0 && b + 86016 <= max < WORD && k.idle < b && FRAME <= esp <= b && i < 15
    requires Init(k) && c == Trio(k.current, c.t, k.idle) && c == Names(b, k.idle) && c.Distinct()
    ensures Goes(max, StateAt(b, k, c, esp, i), MoveAt(b, i), StateAt(b, k, c, esp, i + 1))
  {
    hide Goes, Start, Init, FreeState, HeldState, ChildRegistered, ChildReady, ChildRunning, ChildDead, HeapMain,
      HeapStack,
      HeapChild, HeapSmall, HeapReclaimed, HeapStackAgain, HeapChildAgain, WithChild, NoChild;
    if i == 0 {
      MutexMadeFirst(max, b, k, c, esp);
    } else if i < 5 {
      FirstCreated(max, b, c, esp);
    } else if i < 9 {
      FirstRunsAndExits(max, b, c, esp);
    } else if i == 9 {
      FirstReclaimed(max, b, c, esp);
    } else if i < 13 {
      SecondCreated(max, b, c, esp);
    } else {
      SecondDispatched(max, b, c, esp);
    }
  }

  /** On every heap with room, wherever it starts: after these fifteen moves the second child, which has made no call
      since its creation but to be dispatched, runs as the holder of mutex 1, and may release it. */
  lemma NewThreadHolds(max: nat, b: nat, k: Kernel, esp: nat) returns (ss: seq<Machine>)
    requires 0 < b && b % PAGE == 0 && b + 86016 <= max < WORD && k.idle < b && FRAME <= esp <= b
    requires Init(k) && k.current == b + HEADER
    ensures IsHistory(max, ss, ReuseMoves(b)) && ss[0].k == k
    ensures Fits(ss[11].h, BLOCK) && Malloc(ss[11].h, max, BLOCK) == Done(ss[12].h, b + 96)
    ensures ss[15].k.current == b + 96 && Lock(ss[15].k, 1) == Mutex(b + 96, 1, b + 96)
    ensures Enabled(ss[15].k, MutexRelease(1))
  {
    hide Goes, Start, Init, Fits, Malloc, Enabled, Lock, MoveAt, StateAt, Names;
    var c := Names(b, k.idle);
    AddressesDistinct(b, k, c);
    ss := seq(16, i requires 0 <= i < 16 => StateAt(b, k, c, esp, i));
    FirstAndLast(max, b, k, c, esp);
    forall i | 0 <= i < 15 ensures Goes(max, ss[i], ReuseMoves(b)[i], ss[i + 1]) {
      OneMove(max, b, k, c, esp, i);
    }
  }

  lemma FirstAndLast(max: nat, b: nat, k: Kernel, c: Trio, esp: nat)
    requires 0 < b && b % PAGE == 0 && k.idle < b && FRAME <= esp <= b
    requires Init(k) && c == Trio(k.current, c.t, k.idle) && c == Names(b, k.idle) && c.Distinct()
    ensures Start(max, StateAt(b, k, c, esp, 0)) && StateAt(b, k, c, esp, 0).k == k
    ensures var h, h' := StateAt(b, k, c, esp, 11).h, StateAt(b, k, c, esp, 12).h;
      Fits(h, BLOCK) && Malloc(h, max, BLOCK) == Done(h', b + 96)
    ensures var k' := StateAt(b, k, c, esp, 15).k;
      k'.current == b + 96 && Lock(k', 1) == Mutex(b + 96, 1, b + 96) && Enabled(k', MutexRelease(1))
  {
    hide Goes, Start, Init, Fits, Malloc, Enabled, Lock, FreeState, HeldState, ChildRegistered, ChildReady,
      ChildRunning,
      ChildDead, HeapMain, HeapStack, HeapChild, HeapSmall, HeapReclaimed, HeapStackAgain, HeapChildAgain, WithChild,
        NoChild;
    MutexMadeFirst(max, b, k, c, esp);
    SecondBlock(b, max);
    SecondRuns(c);
  }

  lemma AddressesDistinct(b: nat, k: Kernel, c: Trio)
    requires Init(k) && k.current == b + HEADER && k.idle < b && c == Names(b, k.idle)
    ensures c.Distinct() && c == Trio(k.current, c.t, k.idle)
  {
  }
}
