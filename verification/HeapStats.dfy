/** What the allocator's counters say about the live blocks, over every run. */
module HeapStats {
  import opened Intervals
  import opened HeapModel
  import opened HeapTheorems

  /** Bytes of all live blocks, headers included. */
  ghost function LiveBytes(live: map<nat, nat>): nat
    decreases |live|
  {
    if live == map[] then 0
    else var a :| a in live; live[a] + LiveBytes(live - {a})
  }

  lemma {:induction false} LiveBytesWithout(live: map<nat, nat>, b: nat)
    requires b in live
    ensures LiveBytes(live) == live[b] + LiveBytes(live - {b})
    decreases |live|
  {
    var a :| a in live && LiveBytes(live) == live[a] + LiveBytes(live - {a});
    if a != b {
      LiveBytesWithout(live - {a}, b);
      LiveBytesWithout(live - {b}, a);
      assert live - {a} - {b} == live - {b} - {a};
    }
  }

  lemma LiveBytesWith(live: map<nat, nat>, b: nat, t: nat)
    ensures LiveBytes(live[b := t]) == t + LiveBytes(live) - (if b in live then live[b] else 0)
    ensures |live[b := t]| == |live| + (if b in live then 0 else 1)
  {
    hide LiveBytes;
    var live' := live[b := t];
    LiveBytesWithout(live', b);
    if b in live {
      LiveBytesWithout(live, b);
      assert live' - {b} == live - {b};
      assert live'.Keys == live.Keys;
    } else {
      assert live' - {b} == live;
      assert live'.Keys == live.Keys + {b};
    }
  }

  predicate Congruent(a: int, b: int) { (a - b) % WORD == 0 }

  /** The change of size made by a call that resizes a block in place; no counter sees it. */
  function InPlaceDelta(h: Heap, op: HeapOp): int {
    if op.ReallocOp? && Owned(h, op.ptr) && op.size > 0 && InPlace(h, op.ptr - HEADER, op.size)
    then Target(op.size) - h.live[op.ptr - HEADER] else 0
  }

  /** Sum of the in-place changes of the first `n` calls of a run. */
  function InPlaceSum(hs: seq<Heap>, ops: seq<HeapOp>, n: nat): int
    requires n <= |ops| <= |hs|
  {
    if n == 0 then 0 else InPlaceSum(hs, ops, n - 1) + InPlaceDelta(hs[n - 1], ops[n - 1])
  }

  /** Counters against live blocks, `drift` being the in-place changes so far. */
  ghost predicate Balanced(h: Heap, drift: int) {
    && Congruent(h.stats.allocCnt - h.stats.freeCnt, |h.live|)
    && Congruent(h.stats.allocBytes - h.stats.freeBytes + drift, LiveBytes(h.live))
  }

  lemma CongruentPlus(c: int, d: int, l: int, n: nat)
    requires Congruent(c - d, l)
    ensures Congruent((c + n) % WORD - d, l + n)
  {
  }

  lemma CongruentMinus(c: int, d: int, l: int, n: nat)
    requires Congruent(c - d, l)
    ensures Congruent(c - (d + n) % WORD, l - n)
  {
  }

  lemma CountBalanced(h: Heap, h': Heap, t: nat, drift: int)
    requires Balanced(h, drift) && h'.stats == Count(h.stats, t)
    requires |h'.live| == |h.live| + 1 && LiveBytes(h'.live) == t + LiveBytes(h.live)
    ensures Balanced(h', drift)
  {
    hide LiveBytes, Congruent;
    CongruentPlus(h.stats.allocCnt, h.stats.freeCnt, |h.live|, 1);
    CongruentPlus(h.stats.allocBytes, h.stats.freeBytes - drift, LiveBytes(h.live), t);
  }

  lemma MallocStats(h: Heap, max: nat, size: nat, h': Heap, b: nat)
    requires Fits(h, size) && Malloc(h, max, size) == Done(h', b + HEADER)
    ensures h'.stats == Count(h.stats, Target(size))
  {
  }

  lemma MallocBalanced(h: Heap, max: nat, size: nat, h': Heap, b: nat, drift: int)
    requires WF(h) && Fits(h, size) && Malloc(h, max, size) == Done(h', b + HEADER) && Balanced(h, drift)
    ensures Balanced(h', drift)
  {
    hide *;
    MallocStats(h, max, size, h', b);
    MallocBlock(h, max, size, h', b);
    LiveBytesWith(h.live, b, Target(size));
    CountBalanced(h, h', Target(size), drift);
  }

  lemma UncountBalanced(h: Heap, h': Heap, t: nat, drift: int)
    requires Balanced(h, drift) && h'.stats == Uncount(h.stats, t)
    requires |h'.live| == |h.live| - 1 && LiveBytes(h'.live) == LiveBytes(h.live) - t
    ensures Balanced(h', drift)
  {
    hide LiveBytes, Congruent;
    CongruentMinus(h.stats.allocCnt, h.stats.freeCnt, |h.live|, 1);
    CongruentMinus(h.stats.allocBytes + drift, h.stats.freeBytes, LiveBytes(h.live), t);
  }

  lemma FreeBalanced(h: Heap, b: nat, drift: int)
    requires b in h.live && Balanced(h, drift)
    ensures Balanced(Free(h, b), drift)
  {
    hide LiveBytes, Insert, Balanced;
    LiveBytesWithout(h.live, b);
    assert (h.live - {b}).Keys == h.live.Keys - {b};
    UncountBalanced(h, Free(h, b), h.live[b], drift);
  }

  lemma ReallocBalanced(h: Heap, max: nat, ptr: nat, size: nat, r: Outcome, drift: int)
    requires WF(h) && ReallocFits(h, ptr, size) && r == Realloc(h, max, ptr, size) && r.Done? && Balanced(h, drift)
    ensures Balanced(r.heap, drift + InPlaceDelta(h, ReallocOp(ptr, size)))
  {
    hide WF, Balanced, Fits, Malloc, Target, InPlace;
    if ptr == 0 {
      var b := MallocPtr(h, max, size);
      MallocBalanced(h, max, size, r.heap, b, drift);
    } else if size == 0 {
      FreeBalanced(h, ptr - HEADER, drift);
    } else if InPlace(h, ptr - HEADER, size) {
      InPlaceBalanced(h, max, ptr, size, r, drift);
    } else {
      ReallocMovedTo(h, max, ptr, size);
      var b := MallocPtr(h, max, size);
      var m := Malloc(h, max, size).heap;
      MallocBalanced(h, max, size, m, b, drift);
      FreeBalanced(m, ptr - HEADER, drift);
    }
  }

  lemma StepBalanced(h: Heap, max: nat, op: HeapOp, h': Heap, drift: int)
    requires WF(h) && Legal(h, op) && StepTo(h, max, op, h') && Balanced(h, drift)
    ensures Balanced(h', drift + InPlaceDelta(h, op))
  {
    hide WF, Balanced, Fits, Malloc, Realloc;
    match op {
      case MallocOp(size) =>
        var b := MallocPtr(h, max, size);
        MallocBalanced(h, max, size, h', b, drift);
      case FreeOp(ptr) =>
        if ptr != 0 { FreeBalanced(h, ptr - HEADER, drift); }
      case ReallocOp(ptr, size) =>
        ReallocBalanced(h, max, ptr, size, Realloc(h, max, ptr, size), drift);
    }
  }

  lemma InPlaceStats(h: Heap, max: nat, ptr: nat, size: nat)
    requires Owned(h, ptr) && size > 0 && Target(size) > 0 && InPlace(h, ptr - HEADER, size)
    ensures Realloc(h, max, ptr, size).Done? && Realloc(h, max, ptr, size).heap.stats == h.stats
  {
  }

  lemma DriftBalanced(h: Heap, h': Heap, delta: int, drift: int)
    requires Balanced(h, drift) && h'.stats == h.stats && |h'.live| == |h.live|
    requires LiveBytes(h'.live) == delta + LiveBytes(h.live)
    ensures Balanced(h', drift + delta)
  {
    hide LiveBytes;
  }

  lemma InPlaceBalanced(h: Heap, max: nat, ptr: nat, size: nat, r: Outcome, drift: int)
    requires WF(h) && Owned(h, ptr) && size > 0 && Target(size) > 0 && InPlace(h, ptr - HEADER, size)
    requires r == Realloc(h, max, ptr, size) && Balanced(h, drift)
    ensures r.Done? && Balanced(r.heap, drift + (Target(size) - h.live[ptr - HEADER]))
  {
    hide WF, InPlace, Realloc, Target, LiveBytes, Balanced;
    InPlaceStats(h, max, ptr, size);
    ReallocInPlace(h, max, ptr, size, r);
    LiveBytesWith(h.live, ptr - HEADER, Target(size));
    DriftBalanced(h, r.heap, Target(size) - h.live[ptr - HEADER], drift);
  }

  lemma InitialBalanced(begin: nat)
    ensures Balanced(Initial(begin), 0)
  {
  }

  /** Over every run: allocations less frees count the live blocks, and allocated less freed bytes
      together with the in-place changes give the live bytes, modulo 2^32. */
  lemma {:induction false} RunBalanced(max: nat, hs: seq<Heap>, ops: seq<HeapOp>, n: nat)
    requires IsRun(max, hs, ops) && n < |hs|
    ensures Balanced(hs[n], InPlaceSum(hs, ops, n))
  {
    hide WF, Balanced, Legal, StepTo, Initial, InPlaceDelta;
    if n == 0 {
      InitialBalanced(hs[0].begin);
    } else {
      RunBalanced(max, hs, ops, n - 1);
      RunKeepsWF(max, hs, ops, n - 1);
      assert StepTo(hs[n - 1], max, ops[n - 1], hs[n]);
      StepBalanced(hs[n - 1], max, ops[n - 1], hs[n], InPlaceSum(hs, ops, n - 1));
    }
  }

  lemma CongruentShift(a: int, d: int, l: int)
    requires Congruent(a + d, l)
    ensures Congruent(a, l) <==> Congruent(d, 0)
  {
  }

  /** The byte counters alone give the live bytes exactly when the in-place changes cancel out. */
  lemma CountersExact(max: nat, hs: seq<Heap>, ops: seq<HeapOp>, n: nat)
    requires IsRun(max, hs, ops) && n < |hs|
    ensures Congruent(hs[n].stats.allocBytes - hs[n].stats.freeBytes, LiveBytes(hs[n].live)) <==>
      Congruent(InPlaceSum(hs, ops, n), 0)
  {
    hide Legal, StepTo, Initial, LiveBytes, InPlaceSum, Congruent;
    RunBalanced(max, hs, ops, n);
    CongruentShift(hs[n].stats.allocBytes - hs[n].stats.freeBytes, InPlaceSum(hs, ops, n), LiveBytes(hs[n].live));
  }

  /** They do not always: allocate 100 bytes, then shrink the block to 10. */
  lemma CountersDrift() returns (hs: seq<Heap>, ops: seq<HeapOp>)
    ensures IsRun(WORD - 1, hs, ops) && |hs| == 3 && ops == [MallocOp(100), ReallocOp(PAGE + HEADER, 10)]
    ensures hs[2].stats == Stats(1, 128, 0, 0)
    ensures !Congruent(hs[2].stats.allocBytes - hs[2].stats.freeBytes, LiveBytes(hs[2].live))
  {
    var h0 := Initial(PAGE);
    var h1 := Heap(PAGE, 5 * PAGE, [Interval(PAGE + 128, 4 * PAGE - 128)], map[PAGE := 128], Stats(1, 128, 0, 0));
    var h2 := h1.(frees := [Interval(PAGE + 32, 4 * PAGE - 32)], live := map[PAGE := 32]);
    hs, ops := [h0, h1, h2], [MallocOp(100), ReallocOp(PAGE + HEADER, 10)];
    assert StepTo(h0, WORD - 1, ops[0], h1) by { DriftMalloc(h0, h1); }
    assert StepTo(h1, WORD - 1, ops[1], h2) && InPlaceDelta(h1, ops[1]) == -96 by { DriftShrink(h1, h2); }
    hide Legal, StepTo, InPlaceDelta, LiveBytes;
    CountersExact(WORD - 1, hs, ops, 2);
    assert InPlaceDelta(h0, ops[0]) == 0;
    assert InPlaceSum(hs, ops, 1) == InPlaceSum(hs, ops, 0);
    assert InPlaceSum(hs, ops, 2) == -96;
  }

  lemma DriftMalloc(h0: Heap, h1: Heap)
    requires h0 == Initial(PAGE)
    requires h1 == Heap(PAGE, 5 * PAGE, [Interval(PAGE + 128, 4 * PAGE - 128)], map[PAGE := 128], Stats(1, 128, 0, 0))
    ensures Fits(h0, 100) && Malloc(h0, WORD - 1, 100) == Done(h1, PAGE + HEADER)
  {
    assert Target(100) == 128;
    assert Remove(h0.frees, 0) == [];
    assert h0.live[PAGE := 128] == map[PAGE := 128];
  }

  lemma DriftShrink(h1: Heap, h2: Heap)
    requires h1.live == map[PAGE := 128] && h1.frees == [Interval(PAGE + 128, 4 * PAGE - 128)]
    requires h2 == h1.(frees := [Interval(PAGE + 32, 4 * PAGE - 32)], live := map[PAGE := 32])
    ensures ReallocFits(h1, PAGE + HEADER, 10) && Realloc(h1, WORD - 1, PAGE + HEADER, 10) == Done(h2, PAGE + HEADER)
    ensures InPlaceDelta(h1, ReallocOp(PAGE + HEADER, 10)) == -96
  {
    assert Target(10) == 32;
    assert h1.live[PAGE := 32] == map[PAGE := 32];
    assert h1.frees[1..] == [];
  }
}
