/** The allocator's counters against their documented meaning: calls made and bytes requested. */
module HeapCounters {
  import opened HeapModel
  import opened HeapTheorems
  import opened HeapStats

  // ---------------------------------------------------------------- what one call adds

  /** A call of kmalloc, kcalloc or krealloc. */
  predicate Asks(op: HeapOp) {
    op.MallocOp? || op.ReallocOp?
  }

  /** A reallocation that frees its block, or resizes it in place: no allocation is made. */
  predicate Spares(h: Heap, op: HeapOp) {
    op.ReallocOp? && op.ptr != 0 && (op.size == 0 || (Owned(h, op.ptr) && InPlace(h, op.ptr - HEADER, op.size)))
  }

  predicate Allocates(h: Heap, op: HeapOp) {
    Asks(op) && !Spares(h, op)
  }

  /** A reallocation that gives its block back: with size zero, or because it moves. */
  predicate ReallocFrees(h: Heap, op: HeapOp) {
    op.ReallocOp? && op.ptr != 0 && (op.size == 0 || !Spares(h, op))
  }

  /** A call that gives a block back. */
  predicate GivesBack(h: Heap, op: HeapOp) {
    (op.FreeOp? && op.ptr != 0) || ReallocFrees(h, op)
  }

  /** The size, header included, of the block a call gives back. */
  function GivenBack(h: Heap, op: HeapOp): nat {
    if GivesBack(h, op) && Owned(h, op.ptr) then h.live[op.ptr - HEADER] else 0
  }

  function Requested(op: HeapOp): nat {
    if Asks(op) then op.size else 0
  }

  function One(b: bool): nat {
    if b then 1 else 0
  }

  /** The counters after a call, from the counters before it. */
  ghost predicate Counts(h: Heap, op: HeapOp, h': Heap) {
    && h'.stats.allocCnt == (h.stats.allocCnt + One(Allocates(h, op))) % WORD
    && h'.stats.allocBytes == (h.stats.allocBytes + if Allocates(h, op) then Target(op.size) else 0) % WORD
    && h'.stats.freeCnt == (h.stats.freeCnt + One(GivesBack(h, op))) % WORD
    && h'.stats.freeBytes == (h.stats.freeBytes + GivenBack(h, op)) % WORD
  }

  /** Counters are 32-bit words. */
  predicate Words(s: Stats) {
    s.allocCnt < WORD && s.allocBytes < WORD && s.freeCnt < WORD && s.freeBytes < WORD
  }

  lemma MallocCounts(h: Heap, max: nat, size: nat)
    requires Fits(h, size) && Malloc(h, max, size).Done?
    ensures Malloc(h, max, size).heap.stats == Count(h.stats, Target(size))
  {
    var b := MallocPtr(h, max, size);
    MallocStats(h, max, size, Malloc(h, max, size).heap, b);
  }

  lemma ReallocCounts(h: Heap, max: nat, ptr: nat, size: nat)
    requires WF(h) && ptr != 0 && size != 0 && ReallocFits(h, ptr, size) && Realloc(h, max, ptr, size).Done?
    ensures var s := Realloc(h, max, ptr, size).heap.stats;
      if InPlace(h, ptr - HEADER, size) then s == h.stats
      else s == Uncount(Count(h.stats, Target(size)), h.live[ptr - HEADER])
  {
    hide Malloc, Target, InPlace, Realloc, WF;
    if InPlace(h, ptr - HEADER, size) {
      InPlaceStats(h, max, ptr, size);
    } else {
      ReallocMovedTo(h, max, ptr, size);
      MallocCounts(h, max, size);
      var b := MallocPtr(h, max, size);
      MallocBlock(h, max, size, Malloc(h, max, size).heap, b);
    }
  }

  /** What the three kinds of change do to the counters. */
  lemma StatsCount(s: Stats, t: nat, f: nat)
    requires Words(s)
    ensures Words(Count(s, t)) && Words(Uncount(s, f)) && Words(Uncount(Count(s, t), f))
    ensures s.allocCnt % WORD == s.allocCnt && s.allocBytes % WORD == s.allocBytes
    ensures s.freeCnt % WORD == s.freeCnt && s.freeBytes % WORD == s.freeBytes
  {
  }

  lemma MallocCall(h: Heap, max: nat, op: HeapOp, h': Heap)
    requires Legal(h, op) && StepTo(h, max, op, h') && Words(h.stats)
      && (op.MallocOp? || (op.ReallocOp? && op.ptr == 0))
    ensures Counts(h, op, h') && Words(h'.stats)
  {
    hide Malloc, Target, Fits;
    MallocCounts(h, max, op.size);
    StatsCount(h.stats, Target(op.size), 0);
  }

  lemma FreeCall(h: Heap, max: nat, op: HeapOp, h': Heap)
    requires Legal(h, op) && StepTo(h, max, op, h') && Words(h.stats)
    requires op.FreeOp? || (op.ReallocOp? && op.ptr != 0 && op.size == 0)
    ensures Counts(h, op, h') && Words(h'.stats)
  {
    hide Malloc, Target, Fits, InPlace;
    StatsCount(h.stats, 0, if op.ptr == 0 then 0 else h.live[op.ptr - HEADER]);
  }

  lemma ReallocCall(h: Heap, max: nat, op: HeapOp, h': Heap)
    requires WF(h)
    requires Legal(h, op) && StepTo(h, max, op, h') && Words(h.stats) && op.ReallocOp? && op.ptr != 0 && op.size != 0
    ensures Counts(h, op, h') && Words(h'.stats)
  {
    hide Malloc, Target, Fits, InPlace, Realloc, WF;
    ReallocCounts(h, max, op.ptr, op.size);
    StatsCount(h.stats, Target(op.size), h.live[op.ptr - HEADER]);
  }

  lemma CallCounts(h: Heap, max: nat, op: HeapOp, h': Heap)
    requires WF(h) && Legal(h, op) && StepTo(h, max, op, h') && Words(h.stats)
    ensures Counts(h, op, h') && Words(h'.stats)
  {
    hide Legal, StepTo, Counts, WF;
    if op.MallocOp? || (op.ReallocOp? && op.ptr == 0) {
      MallocCall(h, max, op, h');
    } else if op.FreeOp? || op.size == 0 {
      FreeCall(h, max, op, h');
    } else {
      ReallocCall(h, max, op, h');
    }
  }

  // ---------------------------------------------------------------- over a run

  /** What is counted: calls that ask, those of them that allocate, those that do not; kfree calls, those of them with
      NULL, and reallocations that free; and allocations whose size wraps. */
  datatype Kind = Asked | Served | Spared | FreeCalls | NullFrees | FreedByRealloc | Wrapped

  predicate IsA(kind: Kind, h: Heap, op: HeapOp) {
    match kind
    case Asked => Asks(op)
    case Served => Allocates(h, op)
    case Spared => Spares(h, op)
    case FreeCalls => op.FreeOp?
    case NullFrees => op.FreeOp? && op.ptr == 0
    case FreedByRealloc => ReallocFrees(h, op)
    case Wrapped => Allocates(h, op) && op.size + HEADER + 15 >= WORD
  }

  /** How many of the first `n` calls are of a kind. */
  function Tally(kind: Kind, hs: seq<Heap>, ops: seq<HeapOp>, n: nat): nat
    requires n <= |ops| <= |hs|
  {
    if n == 0 then 0 else Tally(kind, hs, ops, n - 1) + One(IsA(kind, hs[n - 1], ops[n - 1]))
  }

  /** Bytes asked for by the calls of a kind. */
  function Bytes(kind: Kind, hs: seq<Heap>, ops: seq<HeapOp>, n: nat): nat
    requires n <= |ops| <= |hs|
  {
    if n == 0 then 0
    else Bytes(kind, hs, ops, n - 1) + if IsA(kind, hs[n - 1], ops[n - 1]) then Requested(ops[n - 1]) else 0
  }

  /** Header and padding of the blocks allocated. */
  function Overhead(hs: seq<Heap>, ops: seq<HeapOp>, n: nat): int
    requires n <= |ops| <= |hs|
  {
    if n == 0 then 0
    else Overhead(hs, ops, n - 1)
         + if Allocates(hs[n - 1], ops[n - 1]) then Target(ops[n - 1].size) - ops[n - 1].size else 0
  }

  /** Blocks freed by the first `n` calls. */
  function Freed(hs: seq<Heap>, ops: seq<HeapOp>, n: nat): int
    requires n <= |ops| <= |hs|
  {
    Tally(FreeCalls, hs, ops, n) - Tally(NullFrees, hs, ops, n) + Tally(FreedByRealloc, hs, ops, n)
  }

  /** Their sizes, headers included. */
  function FreedBytes(hs: seq<Heap>, ops: seq<HeapOp>, n: nat): nat
    requires n <= |ops| <= |hs|
  {
    if n == 0 then 0 else FreedBytes(hs, ops, n - 1) + GivenBack(hs[n - 1], ops[n - 1])
  }

  /** The counters of a run are these tallies. */
  ghost predicate Tallied(s: Stats, hs: seq<Heap>, ops: seq<HeapOp>, n: nat)
    requires n <= |ops| <= |hs|
  {
    && Congruent(s.allocCnt, Tally(Served, hs, ops, n))
    && Congruent(s.allocBytes, Bytes(Served, hs, ops, n) + Overhead(hs, ops, n))
    && Congruent(s.freeCnt, Freed(hs, ops, n))
    && Congruent(s.freeBytes, FreedBytes(hs, ops, n))
  }

  lemma CongruentAdd(c: int, l: int, n: nat)
    requires Congruent(c, l)
    ensures Congruent((c + n) % WORD, l + n)
  {
    CongruentPlus(c, 0, l, n);
  }

  lemma TalliedStep(hs: seq<Heap>, ops: seq<HeapOp>, n: nat)
    requires 0 < n <= |ops| < |hs| && Tallied(hs[n - 1].stats, hs, ops, n - 1) && Counts(hs[n - 1], ops[n - 1], hs[n])
    ensures Tallied(hs[n].stats, hs, ops, n)
  {
    hide Congruent, Target, Allocates, ReallocFrees, Spares, GivenBack;
    var h, op, s := hs[n - 1], ops[n - 1], hs[n - 1].stats;
    AllocatesAsks(h, op);
    var freed := One(GivesBack(h, op));
    CongruentAdd(s.freeBytes, FreedBytes(hs, ops, n - 1), GivenBack(h, op));
    CongruentAdd(s.allocCnt, Tally(Served, hs, ops, n - 1), One(Allocates(h, op)));
    CongruentAdd(s.allocBytes, Bytes(Served, hs, ops, n - 1) + Overhead(hs, ops, n - 1),
                 if Allocates(h, op) then Target(op.size) else 0);
    CongruentAdd(s.freeCnt, Freed(hs, ops, n - 1), freed);
    ReallocNotFree(h, op);
  }

  lemma ReallocNotFree(h: Heap, op: HeapOp)
    ensures ReallocFrees(h, op) ==> !op.FreeOp?
  {
  }

  lemma AllocatesAsks(h: Heap, op: HeapOp)
    ensures Allocates(h, op) ==> Asks(op)
    ensures One(Asks(op)) == One(Allocates(h, op)) + One(Spares(h, op))
  {
  }

  /** Over every run, modulo 2^32: the allocation count is the calls that allocate; the allocated bytes are what those
      calls asked for with header and padding; the free count is the kfree calls with a block and the reallocations that
      freed or moved, and the freed bytes are the sizes of their blocks, headers included. */
  lemma {:induction false} CountersAre(max: nat, hs: seq<Heap>, ops: seq<HeapOp>, n: nat)
    requires IsRun(max, hs, ops) && n < |hs|
    ensures Tallied(hs[n].stats, hs, ops, n) && Words(hs[n].stats)
  {
    hide Legal, StepTo, Counts, Congruent, Tally, Bytes, Overhead, WF, FreedBytes, Freed;
    if n == 0 {
      NothingTallied(hs, ops);
    } else {
      CountersAre(max, hs, ops, n - 1);
      RunKeepsWF(max, hs, ops, n - 1);
      CallCounts(hs[n - 1], max, ops[n - 1], hs[n]);
      hide Tallied;
      TalliedStep(hs, ops, n);
    }
  }

  lemma NothingTallied(hs: seq<Heap>, ops: seq<HeapOp>)
    requires |ops| <= |hs|
    ensures Tallied(Stats(0, 0, 0, 0), hs, ops, 0)
  {
  }

  lemma {:induction false} AskedSplits(hs: seq<Heap>, ops: seq<HeapOp>, n: nat)
    requires n <= |ops| <= |hs|
    ensures Tally(Asked, hs, ops, n) == Tally(Served, hs, ops, n) + Tally(Spared, hs, ops, n)
    ensures Bytes(Asked, hs, ops, n) == Bytes(Served, hs, ops, n) + Bytes(Spared, hs, ops, n)
  {
    hide Asks, Allocates, Spares, Requested;
    if n > 0 {
      AskedSplits(hs, ops, n - 1);
      AllocatesAsks(hs[n - 1], ops[n - 1]);
    }
  }

  /** The documented meanings hold if and only if, modulo 2^32, no call was served without allocating; header and
      padding weigh as much as what those calls asked for; and NULL was freed as often as a reallocation freed. */
  lemma DocumentedIff(max: nat, hs: seq<Heap>, ops: seq<HeapOp>, n: nat)
    requires IsRun(max, hs, ops) && n < |hs|
    ensures Congruent(hs[n].stats.allocCnt, Tally(Asked, hs, ops, n)) <==> Congruent(Tally(Spared, hs, ops, n), 0)
    ensures Congruent(hs[n].stats.allocBytes, Bytes(Asked, hs, ops, n)) <==>
      Congruent(Overhead(hs, ops, n), Bytes(Spared, hs, ops, n))
    ensures Congruent(hs[n].stats.freeCnt, Tally(FreeCalls, hs, ops, n)) <==>
      Congruent(Tally(FreedByRealloc, hs, ops, n), Tally(NullFrees, hs, ops, n))
  {
    hide Legal, StepTo, Congruent, Tally, Bytes, Overhead;
    CountersAre(max, hs, ops, n);
    AskedSplits(hs, ops, n);
    var s := hs[n].stats;
    CongruentOff(s.allocCnt, Tally(Served, hs, ops, n), Tally(Asked, hs, ops, n), 0 - Tally(Spared, hs, ops, n));
    CongruentSign(Tally(Spared, hs, ops, n));
    CongruentOff(s.allocBytes, Bytes(Served, hs, ops, n) + Overhead(hs, ops, n), Bytes(Asked, hs, ops, n),
                 Overhead(hs, ops, n) - Bytes(Spared, hs, ops, n));
    CongruentDiff(Overhead(hs, ops, n), Bytes(Spared, hs, ops, n));
    var net := Tally(FreedByRealloc, hs, ops, n) - Tally(NullFrees, hs, ops, n);
    CongruentOff(s.freeCnt, Tally(FreeCalls, hs, ops, n) + net, Tally(FreeCalls, hs, ops, n), net);
    CongruentDiff(Tally(FreedByRealloc, hs, ops, n), Tally(NullFrees, hs, ops, n));
  }

  lemma CongruentOff(c: int, l: int, documented: int, off: int)
    requires Congruent(c, l) && l == documented + off
    ensures Congruent(c, documented) <==> Congruent(off, 0)
  {
  }

  lemma CongruentSign(x: int)
    ensures Congruent(0 - x, 0) <==> Congruent(x, 0)
  {
  }

  lemma CongruentDiff(x: int, y: int)
    ensures Congruent(x - y, 0) <==> Congruent(x, y)
  {
  }

  lemma AllocatesBytes(h: Heap, op: HeapOp)
    requires Legal(h, op) && Allocates(h, op)
    ensures Asks(op) && Target(op.size) > 0
  {
    hide Target, FirstFit;
  }

  /** Modulo 2^32, header and padding are 16 to 31 bytes for every allocation; an allocation whose size wraps is given
      that much more than its size less 2^32. */
  lemma {:induction false} OverheadBounds(max: nat, hs: seq<Heap>, ops: seq<HeapOp>, n: nat)
    requires IsRun(max, hs, ops) && n < |hs| && forall i :: 0 <= i < n ==> Requested(ops[i]) < WORD
    ensures var total := Overhead(hs, ops, n) + WORD * Tally(Wrapped, hs, ops, n);
      HEADER * Tally(Served, hs, ops, n) <= total <= 31 * Tally(Served, hs, ops, n)
  {
    hide Target, Allocates, Legal, StepTo, Initial;
    if n > 0 {
      OverheadBounds(max, hs, ops, n - 1);
      OverheadOfOne(hs[n - 1], ops[n - 1]);
    }
  }

  lemma OverheadOfOne(h: Heap, op: HeapOp)
    requires Legal(h, op) && Requested(op) < WORD
    ensures Allocates(h, op) ==> Asks(op)
    ensures Allocates(h, op) ==>
      16 <= Target(op.size) - op.size + (if op.size + HEADER + 15 >= WORD then WORD else 0) <= 31
  {
    hide Target, Legal, Allocates;
    if Allocates(h, op) {
      AllocatesBytes(h, op);
      if op.size + HEADER + 15 < WORD { TargetFacts(op.size); } else { TargetWraps(op.size); }
    }
  }

  /** Two calls for 110 bytes leave an allocation count of 1 and 128 bytes; a kfree of NULL leaves a free count of 0. */
  lemma DocumentedFails() returns (hs: seq<Heap>, ops: seq<HeapOp>)
    ensures IsRun(WORD - 1, hs, ops) && |hs| == 4 && Tally(Asked, hs, ops, 3) == 2 && Tally(FreeCalls, hs, ops, 3) == 1
    ensures hs[3].stats.allocCnt == 1 && hs[3].stats.allocBytes == 128 && hs[3].stats.freeCnt == 0
    ensures Bytes(Asked, hs, ops, 3) == 110
  {
    hide Legal, StepTo, Target, Congruent, IsRun, Tally, Bytes;
    hs, ops := CountersDrift();
    ThenFreeNull(hs, ops);
    CallsMade(hs + [hs[2]], ops + [FreeOp(0)]);
    hs, ops := hs + [hs[2]], ops + [FreeOp(0)];
  }

  lemma ThenFreeNull(hs: seq<Heap>, ops: seq<HeapOp>)
    requires IsRun(WORD - 1, hs, ops) && |hs| == 3
    ensures IsRun(WORD - 1, hs + [hs[2]], ops + [FreeOp(0)])
  {
    hide Legal, StepTo;
    var hs', ops' := hs + [hs[2]], ops + [FreeOp(0)];
    FreeNullStep(hs[2]);
    assert ops'[2] == FreeOp(0) && hs'[3] == hs[2] && hs'[2] == hs[2] && |ops| == 2;
    forall i | 0 <= i < |ops'| ensures Legal(hs'[i], ops'[i]) && StepTo(hs'[i], WORD - 1, ops'[i], hs'[i + 1]) {
      if i < 2 {
        assert ops'[i] == ops[i] && hs'[i] == hs[i] && hs'[i + 1] == hs[i + 1];
        assert Legal(hs[i], ops[i]) && StepTo(hs[i], WORD - 1, ops[i], hs[i + 1]);
      }
    }
  }

  lemma FreeNullStep(h: Heap)
    ensures Legal(h, FreeOp(0)) && StepTo(h, WORD - 1, FreeOp(0), h)
  {
  }

  lemma TallyStart(hs: seq<Heap>, ops: seq<HeapOp>)
    requires |ops| <= |hs|
    ensures Tally(Asked, hs, ops, 0) == 0 && Tally(FreeCalls, hs, ops, 0) == 0 && Bytes(Asked, hs, ops, 0) == 0
  {
  }

  /** What one call adds to the tallies that depend on the calls alone. */
  lemma OneCall(hs: seq<Heap>, ops: seq<HeapOp>, n: nat)
    requires 0 < n <= |ops| <= |hs|
    ensures Tally(Asked, hs, ops, n) == Tally(Asked, hs, ops, n - 1) + One(Asks(ops[n - 1]))
    ensures Tally(FreeCalls, hs, ops, n) == Tally(FreeCalls, hs, ops, n - 1) + One(ops[n - 1].FreeOp?)
    ensures Bytes(Asked, hs, ops, n) == Bytes(Asked, hs, ops, n - 1) + Requested(ops[n - 1])
  {
  }

  lemma CallsMade(hs: seq<Heap>, ops: seq<HeapOp>)
    requires |hs| == 4 && ops == [MallocOp(100), ReallocOp(PAGE + HEADER, 10)] + [FreeOp(0)]
    ensures Tally(Asked, hs, ops, 3) == 2 && Tally(FreeCalls, hs, ops, 3) == 1 && Bytes(Asked, hs, ops, 3) == 110
  {
    hide Tally, Bytes;
    assert ops[0] == MallocOp(100) && ops[1] == ReallocOp(PAGE + HEADER, 10) && ops[2] == FreeOp(0);
    TallyStart(hs, ops);
    OneCall(hs, ops, 1);
    OneCall(hs, ops, 2);
    OneCall(hs, ops, 3);
  }
}
