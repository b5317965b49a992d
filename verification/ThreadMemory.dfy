/** Scheduler, heap and stack pointer together: where the control blocks and stacks of threads live, and when they are
    given back. */
module ThreadMemory {
  import opened KernelState
  import opened KernelPlaces
  import opened KernelLocks
  import opened KernelSteps
  import opened KernelActs
  import Runs = KernelRuns
  import opened KernelOrder
  import opened KernelLives
  import opened Intervals
  import opened HeapModel
  import Calls = HeapTheorems

  const STACK: nat := 65536     // bytes of stack a thread is created with
  const BLOCK: nat := 56        // bytes of a control block
  const FRAME: nat := 56        // bytes the timer interrupt pushes

  /** `stack` has each thread's stack_base; the boot stack of the main thread is not on the heap, and its entry NULL. */
  datatype Machine = Machine(k: Kernel, h: Heap, stack: map<Tcb, nat>, esp: nat)

  // ---------------------------------------------------------------- moves

  datatype Move =
    | Turn(e: Event)                  // a kernel step that creates no thread
    | Birth(t: Tcb, base: nat)        // thread_create: blocks of the creator become block and stack of a thread
    | Call(op: Calls.HeapOp)          // a client's own call of the allocator
    | Compute(esp: nat)               // the running thread moves its stack pointer

  /** `p` is the control block or the stack of a thread. */
  ghost predicate Used(s: Machine, p: nat) {
    exists t :: t in s.k.threads && t != s.k.idle && (p == t || p == Base(s, t))
  }

  function Base(s: Machine, t: Tcb): nat {
    if t in s.stack then s.stack[t] else 0
  }

  /** kfree: NULL is ignored; the invariant shows that nothing else is. */
  function GiveBack(h: Heap, p: nat): Heap {
    if Owned(h, p) then Free(h, p - HEADER) else h
  }

  /** The zombie walk frees the stack and then the control block of each zombie. */
  function GiveBackAll(s: Machine, h: Heap, zombies: seq<Tcb>): Heap
    decreases |zombies|
  {
    if zombies == [] then h
    else GiveBackAll(s, GiveBack(GiveBack(h, Base(s, zombies[0])), zombies[0]), zombies[1..])
  }

  /** The stack pointer, with room for an interrupt, is in the running thread's stack; the stacks that are not on the
      heap lie below it. */
  predicate OnStack(k: Kernel, h: Heap, base: nat, esp: nat) {
    if k.current == k.idle || base == 0 then FRAME <= esp <= h.begin
    else base + FRAME <= esp <= base + STACK
  }

  /** A block of the heap for `size` bytes, in use by no thread. */
  ghost predicate Spare(s: Machine, p: nat, size: nat) {
    Owned(s.h, p) && s.h.live[p - HEADER] == Target(size) && !Used(s, p)
  }

  ghost predicate Goes(max: nat, s: Machine, mv: Move, s': Machine) {
    match mv
    case Turn(e) =>
      && Enabled(s.k, e) && !e.Create?
      && s'.k == Step(s.k, e) && s'.stack == s.stack
      && s'.h == GiveBackAll(s, s.h, if Yields(s.k, e) then s.k.zombies else [])
      && OnStack(s'.k, s'.h, Base(s', s'.k.current), s'.esp) && (s'.k.current == s.k.current ==> s'.esp == s.esp)
    case Birth(t, base) =>
      && s.k.current != s.k.idle && At(s.k, s.k.current).pc.Client?
      && Spare(s, t, BLOCK) && Spare(s, base, STACK) && t != base
      && s' == s.(k := Step(s.k, Create(t)), stack := s.stack[t := base])
    case Call(op) =>
      && Calls.Legal(s.h, op) && (op.MallocOp? || !Used(s, op.ptr))
      && Calls.StepTo(s.h, max, op, s'.h) && s' == s.(h := s'.h)
    case Compute(esp) =>
      s' == s.(esp := esp) && OnStack(s.k, s.h, Base(s, s.k.current), esp)
  }

  // ---------------------------------------------------------------- the invariant

  /** The control block and the stack of `t` are live heap blocks of their sizes. */
  ghost predicate Housed(s: Machine, t: Tcb) {
    && t in s.stack && Owned(s.h, t) && s.h.live[t - HEADER] == Target(BLOCK)
    && (s.stack[t] != 0 ==>
          Owned(s.h, s.stack[t]) && s.h.live[s.stack[t] - HEADER] == Target(STACK) && s.stack[t] != t)
  }

  /** No block serves two threads. */
  ghost predicate Separate(s: Machine, t: Tcb, u: Tcb) {
    Base(s, t) != u && Base(s, u) != t && (Base(s, t) != 0 ==> Base(s, t) != Base(s, u))
  }

  ghost predicate Sound(s: Machine) {
    && Inv(s.k) && |s.k.zombies| <= 1 && WF(s.h) && s.k.idle < s.h.begin
    && (forall t :: t in s.k.threads && t != s.k.idle ==> Housed(s, t))
    && (forall t, u :: t in s.k.threads && u in s.k.threads && t != s.k.idle && u != s.k.idle && t != u ==>
      Separate(s, t, u))
    && OnStack(s.k, s.h, Base(s, s.k.current), s.esp)
  }

  /** A block in use by no thread is not a thread. */
  lemma SpareNoThread(s: Machine, t: Tcb, size: nat)
    requires Sound(s) && Spare(s, t, size)
    ensures t !in s.k.threads && t != 0 && t != s.k.idle
  {
    hide Inv;
    assert Inside(s.h.begin, s.h.end, LiveIv(s.h.live, t - HEADER));
    assert t in s.k.threads && t != s.k.idle ==> Used(s, t);
  }

  /** The address of a new thread is not that of an old one, as creation in the kernel model asks. */
  lemma BirthEnabled(max: nat, s: Machine, t: Tcb, base: nat, s': Machine)
    requires Sound(s) && Goes(max, s, Birth(t, base), s')
    ensures Enabled(s.k, Create(t))
  {
    hide Inv, WF;
    SpareNoThread(s, t, BLOCK);
  }

  // ---------------------------------------------------------------- calls of the allocator

  /** A call leaves blocks other than its own alone. */
  lemma CallKeeps(h: Heap, max: nat, op: Calls.HeapOp, h': Heap, b: nat)
    requires WF(h) && Calls.Legal(h, op) && Calls.StepTo(h, max, op, h') && b in h.live
    requires op.MallocOp? || op.ptr != b + HEADER
    ensures b in h'.live && h'.live[b] == h.live[b]
  {
    hide WF, Malloc, Realloc, Fits, InPlace, Target;
    match op {
      case MallocOp(size) => MallocKeeps(h, max, size, b);
      case FreeOp(ptr) =>
      case ReallocOp(ptr, size) =>
        if ptr == 0 {
          ReallocOfNull(h, max, size);
          MallocKeeps(h, max, size, b);
        } else if size != 0 {
          ReallocKeeps(h, max, ptr, size, b);
        } else {
          ReallocToNothing(h, max, ptr);
        }
    }
  }

  lemma ReallocOfNull(h: Heap, max: nat, size: nat)
    requires Fits(h, size)
    ensures Realloc(h, max, 0, size) == Malloc(h, max, size)
  {
    hide Malloc, Fits;
  }

  lemma ReallocToNothing(h: Heap, max: nat, ptr: nat)
    requires Owned(h, ptr) && ptr != 0
    ensures Realloc(h, max, ptr, 0) == Done(Free(h, ptr - HEADER), 0)
  {
    hide Malloc, Fits;
  }

  lemma MallocKeeps(h: Heap, max: nat, size: nat, b: nat)
    requires WF(h) && Fits(h, size) && Malloc(h, max, size).Done? && b in h.live
    ensures var h' := Malloc(h, max, size).heap; b in h'.live && h'.live[b] == h.live[b]
  {
    var c := Calls.MallocPtr(h, max, size);
    Calls.MallocBlock(h, max, size, Malloc(h, max, size).heap, c);
    hide WF, Malloc, Fits;
  }

  lemma MallocBegin(h: Heap, max: nat, size: nat)
    requires Fits(h, size) && Malloc(h, max, size).Done?
    ensures Malloc(h, max, size).heap.begin == h.begin
  {
  }

  lemma CallBegin(h: Heap, max: nat, op: Calls.HeapOp, h': Heap)
    requires Calls.Legal(h, op) && Calls.StepTo(h, max, op, h')
    ensures h'.begin == h.begin
  {
    hide Malloc, Fits, InPlace, Target, Insert;
    match op {
      case MallocOp(size) => MallocBegin(h, max, size);
      case FreeOp(ptr) =>
      case ReallocOp(ptr, size) =>
        if ptr == 0 {
          MallocBegin(h, max, size);
        } else if size != 0 && !InPlace(h, ptr - HEADER, size) {
          hide Realloc;
          Calls.ReallocMovedTo(h, max, ptr, size);
          MallocBegin(h, max, size);
        }
    }
  }

  lemma ReallocKeeps(h: Heap, max: nat, ptr: nat, size: nat, b: nat)
    requires WF(h) && ptr != 0 && size != 0 && ReallocFits(h, ptr, size) && Realloc(h, max, ptr, size).Done?
    requires b in h.live && b != ptr - HEADER
    ensures var h' := Realloc(h, max, ptr, size).heap; b in h'.live && h'.live[b] == h.live[b]
  {
    hide WF, Malloc, Fits, InPlace, Target;
    if InPlace(h, ptr - HEADER, size) {
      Calls.ReallocInPlace(h, max, ptr, size, Realloc(h, max, ptr, size));
    } else {
      hide Realloc;
      Calls.ReallocMovedTo(h, max, ptr, size);
      MallocKeeps(h, max, size, b);
    }
  }

  // ---------------------------------------------------------------- what each move keeps

  /** Blocks of threads are live before and after, with the same size. */
  ghost predicate StillLive(h: Heap, h': Heap, p: nat) {
    Owned(h, p) ==> Owned(h', p) && h'.live[p - HEADER] == h.live[p - HEADER]
  }

  lemma HousedStill(s: Machine, s': Machine, t: Tcb)
    requires Housed(s, t) && t in s'.stack && s'.stack[t] == s.stack[t]
    requires StillLive(s.h, s'.h, t) && StillLive(s.h, s'.h, s.stack[t])
    ensures Housed(s', t)
  {
  }

  lemma CallSound(max: nat, s: Machine, op: Calls.HeapOp, s': Machine)
    requires Sound(s) && Goes(max, s, Call(op), s')
    ensures Sound(s')
  {
    hide Inv, WF, Calls.Legal, Calls.StepTo;
    Calls.StepKeepsWF(s.h, max, op, s'.h);
    CallBegin(s.h, max, op, s'.h);
    forall t | t in s'.k.threads && t != s'.k.idle ensures Housed(s', t) {
      assert Used(s, t) && Used(s, Base(s, t));
      CallStillLive(max, s, op, s', t);
      CallStillLive(max, s, op, s', Base(s, t));
      hide Housed;
      HousedHas(s, t);
      HousedStill(s, s', t);
    }
    SeparateStill(s, s');
  }

  lemma HousedHas(s: Machine, t: Tcb)
    requires Housed(s, t)
    ensures t in s.stack && Base(s, t) == s.stack[t] && Owned(s.h, t)
  {
  }

  lemma CallStillLive(max: nat, s: Machine, op: Calls.HeapOp, s': Machine, p: nat)
    requires WF(s.h) && Goes(max, s, Call(op), s') && Used(s, p)
    ensures StillLive(s.h, s'.h, p)
  {
    hide WF, Calls.Legal, Calls.StepTo;
    if Owned(s.h, p) { CallKeeps(s.h, max, op, s'.h, p - HEADER); }
  }

  /** Fewer threads with the same stacks are as separate as before. */
  lemma SeparateStill(s: Machine, s': Machine)
    requires s'.stack == s.stack && s'.k.idle == s.k.idle && forall t :: t in s'.k.threads ==> t in s.k.threads
    requires forall t, u :: t in s.k.threads && u in s.k.threads && t != s.k.idle && u != s.k.idle && t != u ==>
      Separate(s, t, u)
    ensures forall t, u :: t in s'.k.threads && u in s'.k.threads && t != s'.k.idle && u != s'.k.idle && t != u ==>
      Separate(s', t, u)
  {
    forall t, u | t in s'.k.threads && u in s'.k.threads && t != s'.k.idle && u != s'.k.idle && t != u
      ensures Separate(s', t, u) {
      assert Separate(s, t, u);
    }
  }

  /** What creation does to the kernel state. */
  lemma BirthKernel(k: Kernel, t: Tcb)
    requires Inv(k) && Enabled(k, Create(t))
    ensures var k' := Step(k, Create(t));
      && k'.idle == k.idle && k'.current == k.current && k'.zombies == k.zombies && t in k'.threads
      && forall u :: u in k'.threads <==> u in k.threads || u == t
  {
    SettledFacts(k);
    hide Inv;
  }

  lemma BirthSound(max: nat, s: Machine, t: Tcb, base: nat, s': Machine)
    requires Sound(s) && Goes(max, s, Birth(t, base), s')
    ensures Sound(s')
  {
    hide Inv, WF, Enabled, Step, Housed, Separate, Used;
    BirthEnabled(max, s, t, base, s');
    SpareNoThread(s, t, BLOCK);
    StepInv(s.k, Create(t));
    BirthKernel(s.k, t);
    RunnerThere(s.k);
    forall u | u in s'.k.threads && u != s'.k.idle ensures Housed(s', u) {
      if u == t { SpareHouses(s, t, base, s'); } else { HousedBeside(s, t, base, s', u); }
    }
    forall u, v | u in s'.k.threads && v in s'.k.threads && u != s'.k.idle && v != s'.k.idle && u != v
      ensures Separate(s', u, v) {
      BirthSeparate(s, t, base, s', u, v);
    }
  }

  lemma SpareHouses(s: Machine, t: Tcb, base: nat, s': Machine)
    requires Spare(s, t, BLOCK) && Spare(s, base, STACK) && t != base && s'.h == s.h && s'.stack == s.stack[t := base]
    ensures Housed(s', t)
  {
  }

  lemma HousedBeside(s: Machine, t: Tcb, base: nat, s': Machine, u: Tcb)
    requires Housed(s, u) && u != t && s'.h == s.h && s'.stack == s.stack[t := base]
    ensures Housed(s', u)
  {
  }

  lemma BirthSeparate(s: Machine, t: Tcb, base: nat, s': Machine, u: Tcb, v: Tcb)
    requires s'.stack == s.stack[t := base] && u != v && u != s.k.idle && v != s.k.idle
    requires (u in s.k.threads || u == t) && (v in s.k.threads || v == t)
    requires !Used(s, t) && !Used(s, base) && Owned(s.h, base) && t !in s.k.threads
    requires u != t && v != t ==> Separate(s, u, v)
    ensures Separate(s', u, v)
  {
    assert u in s.k.threads ==> Used(s, u) && Used(s, Base(s, u));
    assert v in s.k.threads ==> Used(s, v) && Used(s, Base(s, v));
  }

  // ---------------------------------------------------------------- turns of the kernel

  /** A turn that creates nothing keeps all threads but the zombies the scheduler reclaims. */
  lemma TurnKernel(k: Kernel, e: Event)
    requires Inv(k) && Enabled(k, e) && !e.Create?
    ensures var k' := Step(k, e);
      && k'.idle == k.idle && (|k.zombies| <= 1 ==> |k'.zombies| <= 1)
      && forall t :: t in k'.threads <==> t in k.threads && !(Yields(k, e) && t in k.zombies)
  {
    hide Inv, Step, Enabled, Act, Yields;
    ZombieStep(k, e);
    TurnIdle(k, e);
    forall t | t in Step(k, e).threads && t !in k.threads ensures false { OnlyCreated(k, e, t); }
  }

  lemma TurnIdle(k: Kernel, e: Event)
    requires Inv(k) && Enabled(k, e)
    ensures Step(k, e).idle == k.idle
  {
    hide Inv, Sched, Step, Enabled, Act, Yields, SameSync, At;
    StepExact(k, e);
  }

  lemma GiveBackKeeps(h: Heap, p: nat)
    requires WF(h)
    ensures var h' := GiveBack(h, p); WF(h') && h'.begin == h.begin && !Owned(h', p) && forall q :: q != p ==>
      StillLive(h, h', q)
  {
    hide WF, Insert;
    if Owned(h, p) { Calls.FreeBytes(h, p - HEADER); }
  }

  /** What the zombie walk gives back. */
  lemma TurnHeap(max: nat, s: Machine, e: Event, s': Machine)
    requires Sound(s) && Goes(max, s, Turn(e), s')
    ensures WF(s'.h) && s'.h.begin == s.h.begin
    ensures forall p :: !Gone(s, e, p) ==> StillLive(s.h, s'.h, p)
    ensures forall p :: Gone(s, e, p) ==> !Owned(s'.h, p)
  {
    hide Inv, WF, Enabled, Step, GiveBack, Housed, Separate, StillLive;
    var zs := if Yields(s.k, e) then s.k.zombies else [];
    if zs == [] {
      forall p ensures StillLive(s.h, s'.h, p) { LiveSame(s.h, p); }
    } else {
      var z := zs[0];
      assert zs == [z] && zs[1..] == [];
      var h1 := GiveBack(s.h, Base(s, z));
      assert s'.h == GiveBack(h1, z) by { OneGivenBack(s, s.h, zs); }
      GiveBackKeeps(s.h, Base(s, z));
      GiveBackKeeps(h1, z);
      forall p | p != z && p != Base(s, z) ensures StillLive(s.h, s'.h, p) { LiveTwice(s.h, h1, s'.h, p); }
      if Base(s, z) != z { GoneStays(s.h, z, Base(s, z)); }
    }
  }

  /** `p` is block or stack of a zombie that the turn reclaims. */
  ghost predicate Gone(s: Machine, e: Event, p: nat) {
    Yields(s.k, e) && exists z :: z in s.k.zombies && (p == z || p == Base(s, z))
  }

  lemma OneGivenBack(s: Machine, h: Heap, zs: seq<Tcb>)
    requires |zs| == 1
    ensures GiveBackAll(s, h, zs) == GiveBack(GiveBack(h, Base(s, zs[0])), zs[0])
  {
    hide GiveBack;
    assert zs[1..] == [];
  }

  lemma LiveSame(h: Heap, p: nat)
    ensures StillLive(h, h, p)
  {
  }

  lemma LiveTwice(h: Heap, h1: Heap, h2: Heap, p: nat)
    requires StillLive(h, h1, p) && StillLive(h1, h2, p)
    ensures StillLive(h, h2, p)
  {
  }

  lemma GoneStays(h: Heap, z: nat, p: nat)
    ensures !Owned(GiveBack(GiveBack(h, p), z), p)
  {
  }

  lemma ZombieHoused(s: Machine, z: Tcb)
    requires Sound(s) && z in s.k.zombies
    ensures z in s.k.threads && z != s.k.idle && z != s.k.current
  {
    hide WF, Housed, Separate, OnStack, SyncOk, Settled;
    ZombieFacts(s.k, z);
  }

  /** The blocks of a thread that stays are not given back. */
  lemma StayingNotGone(s: Machine, e: Event, t: Tcb)
    requires Sound(s) && t in s.k.threads && t != s.k.idle && !(Yields(s.k, e) && t in s.k.zombies)
    ensures !Gone(s, e, t) && (Base(s, t) != 0 ==> !Gone(s, e, Base(s, t)))
  {
    hide Inv, WF, OnStack, Housed;
    forall z | z in s.k.zombies && Yields(s.k, e)
      ensures t != z && t != Base(s, z) && (Base(s, t) != 0 ==> Base(s, t) != z && Base(s, t) != Base(s, z))
    {
      ZombieHoused(s, z);
      assert Separate(s, t, z);
    }
  }

  lemma TurnSound(max: nat, s: Machine, e: Event, s': Machine)
    requires Sound(s) && Goes(max, s, Turn(e), s')
    ensures Sound(s')
  {
    hide Inv, WF, Enabled, Step, Housed, Separate, Gone, StillLive, Yields, GiveBackAll;
    StepInv(s.k, e);
    TurnKernel(s.k, e);
    TurnHeap(max, s, e, s');
    forall t | t in s'.k.threads && t != s'.k.idle ensures Housed(s', t) {
      StayingNotGone(s, e, t);
      HousedHas(s, t);
      if Base(s, t) == 0 { NullOwnsNothing(s.h, s'.h); }
      HousedStill(s, s', t);
    }
    SeparateStill(s, s');
  }

  lemma NullOwnsNothing(h: Heap, h': Heap)
    ensures StillLive(h, h', 0)
  {
  }

  lemma MoveSound(max: nat, s: Machine, mv: Move, s': Machine)
    requires Sound(s) && Goes(max, s, mv, s')
    ensures Sound(s')
  {
    match mv {
      case Turn(e) => hide Sound, Goes; TurnSound(max, s, e, s');
      case Birth(t, base) => hide Sound, Goes; BirthSound(max, s, t, base, s');
      case Call(op) => hide Sound, Goes; CallSound(max, s, op, s');
      case Compute(esp) => ComputeSound(max, s, esp, s');
    }
  }

  lemma ComputeSound(max: nat, s: Machine, esp: nat, s': Machine)
    requires Sound(s) && Goes(max, s, Compute(esp), s')
    ensures Sound(s')
  {
    hide Inv, WF;
    forall t | t in s'.k.threads && t != s'.k.idle ensures Housed(s', t) { assert Housed(s, t); }
    SeparateStill(s, s');
  }

  // ---------------------------------------------------------------- histories

  /** After initialisation: the main thread's control block is the first block of the heap, the idle thread's and both
      stacks lie below the heap. */
  ghost predicate Start(max: nat, s: Machine) {
    && Init(s.k) && 0 < s.h.begin && s.h.begin % PAGE == 0 && s.k.idle < s.h.begin
    && Fits(Calls.Initial(s.h.begin), BLOCK)
    && Malloc(Calls.Initial(s.h.begin), max, BLOCK) == Done(s.h, s.k.current)
    && s.stack == map[s.k.current := 0] && FRAME <= s.esp <= s.h.begin
  }

  ghost predicate IsHistory(max: nat, ss: seq<Machine>, mvs: seq<Move>) {
    && |ss| == |mvs| + 1 && Start(max, ss[0])
    && forall i :: 0 <= i < |mvs| ==> Goes(max, ss[i], mvs[i], ss[i + 1])
  }

  lemma StartSound(max: nat, s: Machine)
    requires Start(max, s)
    ensures Sound(s)
  {
    hide Malloc, WF, Inv;
    KernelRunsInit(s.k);
    var h := Calls.Initial(s.h.begin);
    Calls.InitialWF(s.h.begin);
    var b := Calls.MallocPtr(h, max, BLOCK);
    Calls.MallocBlock(h, max, BLOCK, s.h, b);
    MallocBegin(h, max, BLOCK);
    forall t | t in s.k.threads && t != s.k.idle ensures Housed(s, t) { assert t == s.k.current; }
  }

  lemma KernelRunsInit(k: Kernel)
    requires Init(k)
    ensures Inv(k)
  {
    hide Init, Inv;
    Runs.InitInv(k);
  }

  lemma {:induction false} HistorySound(max: nat, ss: seq<Machine>, mvs: seq<Move>, n: nat)
    requires IsHistory(max, ss, mvs) && n < |ss|
    ensures Sound(ss[n])
  {
    hide Sound, Start, Goes;
    if n == 0 {
      StartSound(max, ss[0]);
    } else {
      HistorySound(max, ss, mvs, n - 1);
      MoveSound(max, ss[n - 1], mvs[n - 1], ss[n]);
    }
  }

  /** Byte `a` lies in the live block with payload `p`. */
  ghost predicate Occupies(h: Heap, p: nat, a: nat) {
    Owned(h, p) && LiveIv(h.live, p - HEADER).Contains(a)
  }

  lemma OwnBytes(h: Heap, p: nat, q: nat, a: nat)
    requires WF(h) && p != q
    ensures !(Occupies(h, p, a) && Occupies(h, q, a))
  {
    hide Canonical, FreesInside, Unmixed, Filled, LiveInside;
    if Owned(h, p) && Owned(h, q) {
      assert LiveIv(h.live, p - HEADER).Disjoint(LiveIv(h.live, q - HEADER));
    }
  }

  lemma SoundThreads(s: Machine, t: Tcb)
    requires Sound(s) && t in s.k.all && t != s.k.idle
    ensures Housed(s, t)
  {
    AllAreThreads(s.k);
    hide Inv, WF, Housed;
  }

  /** At every point of every history the control block and the stack of every thread but idle are live heap blocks of
      their full sizes, no block serves two threads, and no two of these blocks share a byte. */
  lemma ThreadsHoused(max: nat, ss: seq<Machine>, mvs: seq<Move>, n: nat)
    requires IsHistory(max, ss, mvs) && n < |ss|
    ensures forall t :: t in ss[n].k.all && t != ss[n].k.idle ==> Housed(ss[n], t)
    ensures forall t, u :: t in ss[n].k.all && u in ss[n].k.all && t != ss[n].k.idle && u != ss[n].k.idle && t != u ==>
      Separate(ss[n], t, u)
    ensures forall p, q, a :: Used(ss[n], p) && Used(ss[n], q) && p != q ==>
      !(Occupies(ss[n].h, p, a) && Occupies(ss[n].h, q, a))
  {
    hide Start, Goes, Sound, Housed, Used, Occupies, Separate;
    HistorySound(max, ss, mvs, n);
    var s := ss[n];
    forall t | t in s.k.all && t != s.k.idle ensures Housed(s, t) { SoundThreads(s, t); }
    forall t, u | t in s.k.all && u in s.k.all && t != s.k.idle && u != s.k.idle && t != u ensures Separate(s, t, u) {
      SoundSeparate(s, t, u);
    }
    SoundHeap(s);
    forall p, q, a | Used(s, p) && Used(s, q) && p != q ensures !(Occupies(s.h, p, a) && Occupies(s.h, q, a)) {
      OwnBytes(s.h, p, q, a);
    }
  }

  lemma SoundSeparate(s: Machine, t: Tcb, u: Tcb)
    requires Sound(s) && t in s.k.all && u in s.k.all && t != s.k.idle && u != s.k.idle && t != u
    ensures Separate(s, t, u)
  {
    AllAreThreads(s.k);
    hide Inv, WF, Housed, Separate;
  }

  lemma SoundHeap(s: Machine)
    requires Sound(s)
    ensures WF(s.h)
  {
  }

  /** The bytes of the stack in use: on the heap, or below it. */
  ghost predicate InStack(s: Machine, a: nat) {
    if s.k.current == s.k.idle || Base(s, s.k.current) == 0 then a < s.h.begin
    else Base(s, s.k.current) <= a < Base(s, s.k.current) + STACK
  }

  /** A thread is reclaimed while it does not run, and not on its own stack: its block and stack were live, are given
      back by that very turn, and neither holds a byte of the stack the processor works on, the interrupt's frame
      included. */
  lemma ReclaimGivesBack(max: nat, s: Machine, mv: Move, s': Machine, t: Tcb)
    requires Sound(s) && Goes(max, s, mv, s') && t in s.k.threads && t !in s'.k.threads
    ensures t != s.k.idle && t != s.k.current && Housed(s, t)
    ensures !Owned(s'.h, t) && !Owned(s'.h, Base(s, t))
    ensures forall a: nat :: InStack(s, a) ==> !Occupies(s.h, t, a) && !Occupies(s.h, Base(s, t), a)
    ensures forall a: nat :: s.esp - FRAME <= a < s.esp ==> InStack(s, a)
  {
    hide Inv, WF, Enabled, Step, Separate, StillLive, Yields, GiveBackAll, Housed, Used, Gone, Occupies;
    assert mv.Turn? by { OnlyTurnsReclaim(max, s, mv, s', t); }
    TurnKernel(s.k, mv.e);
    ZombieHoused(s, t);
    TurnHeap(max, s, mv.e, s');
    ZombieGone(s, mv.e, t);
    forall a: nat | InStack(s, a) ensures !Occupies(s.h, t, a) && !Occupies(s.h, Base(s, t), a) {
      hide InStack, OnStack;
      NotUnderfoot(s, t, a);
    }
  }

  lemma ZombieGone(s: Machine, e: Event, z: Tcb)
    requires Yields(s.k, e) && z in s.k.zombies
    ensures Gone(s, e, z) && Gone(s, e, Base(s, z))
  {
    hide Yields;
  }

  lemma OnlyTurnsReclaim(max: nat, s: Machine, mv: Move, s': Machine, t: Tcb)
    requires Sound(s) && Goes(max, s, mv, s') && t in s.k.threads && t !in s'.k.threads
    ensures mv.Turn?
  {
    hide Inv, WF, Step, Enabled;
    if mv.Birth? {
      BirthEnabled(max, s, mv.t, mv.base, s');
      BirthKernel(s.k, mv.t);
    }
  }

  lemma NotUnderfoot(s: Machine, t: Tcb, a: nat)
    requires Sound(s) && t in s.k.threads && t != s.k.idle && t != s.k.current && InStack(s, a)
    ensures !Occupies(s.h, t, a) && !Occupies(s.h, Base(s, t), a)
  {
    hide WF, Housed, Separate, Occupies, Inv;
    var cur, base := s.k.current, Base(s, s.k.current);
    if cur == s.k.idle || base == 0 {
      BlockAbove(s.h, t, a);
      BlockAbove(s.h, Base(s, t), a);
    } else {
      RunnerThere(s.k);
      StackOccupied(s, cur, a);
      StacksDiffer(s, t, cur);
      OwnBytes(s.h, base, t, a);
      OwnBytes(s.h, base, Base(s, t), a);
    }
  }

  lemma StacksDiffer(s: Machine, t: Tcb, cur: Tcb)
    requires Separate(s, t, cur)
    ensures Base(s, cur) != 0 ==> Base(s, cur) != t && Base(s, cur) != Base(s, t)
  {
  }

  lemma BlockAbove(h: Heap, p: nat, a: nat)
    requires WF(h) && a < h.begin
    ensures !Occupies(h, p, a)
  {
    hide Canonical, FreesInside, Unmixed, Filled, LiveApart;
    if Owned(h, p) { assert Inside(h.begin, h.end, LiveIv(h.live, p - HEADER)); }
  }

  lemma StackOccupied(s: Machine, t: Tcb, a: nat)
    requires Housed(s, t) && Base(s, t) != 0 && Base(s, t) <= a < Base(s, t) + STACK
    ensures Occupies(s.h, Base(s, t), a)
  {
    assert Target(STACK) == STACK + HEADER;
  }

  /** As long as a thread is there its block and stack stay where they are, and live: they are given back by no other
      move. */
  lemma KeptWhileThere(max: nat, s: Machine, mv: Move, s': Machine, t: Tcb)
    requires Sound(s) && Goes(max, s, mv, s') && t in s.k.threads && t in s'.k.threads && t != s.k.idle
    ensures t in s.stack && t in s'.stack && s'.stack[t] == s.stack[t]
    ensures Owned(s'.h, t) && (s.stack[t] != 0 ==> Owned(s'.h, s.stack[t]))
  {
    hide Inv, WF, Step, Enabled, Yields, GiveBackAll, Separate, OnStack;
    MoveSound(max, s, mv, s');
    assert Housed(s, t);
    if mv.Turn? {
      TurnKernel(s.k, mv.e);
    } else if mv.Birth? {
      BirthEnabled(max, s, mv.t, mv.base, s');
      BirthKernel(s.k, mv.t);
      SpareNoThread(s, mv.t, BLOCK);
    }
    assert Housed(s', t);
  }
}
