/** The kernel heap as a value: live blocks, the free list, and the counters. */
module HeapModel {
  import opened Intervals

  const WORD: nat := 0x1_0000_0000   // 32-bit arithmetic wraps here
  const HEADER: nat := 16
  const PAGE: nat := 4096

  function RoundDown(x: nat, align: nat): nat
    requires align > 0
  {
    x / align * align
  }

  /** Least multiple of `align` that is at least `x`, without wrap-around. */
  function RoundUp(x: nat, align: nat): nat
    requires align > 0
  {
    RoundDown(x + align - 1, align)
  }

  /** The alignment macro as 32-bit arithmetic computes it. */
  function AlignUp(x: nat, align: nat): nat
    requires align > 0
  {
    RoundDown((x + align - 1) % WORD, align)
  }

  /** Block size used for a request of `size` payload bytes. */
  function Target(size: nat): nat {
    AlignUp((size + HEADER) % WORD, HEADER)
  }

  /** Counters kept by the allocator, all modulo 2^32. */
  datatype Stats = Stats(allocCnt: nat, allocBytes: nat, freeCnt: nat, freeBytes: nat)

  /** `live` maps the address of each allocated block's header to its size (header included). */
  datatype Heap = Heap(begin: nat, end: nat, frees: seq<Interval>, live: map<nat, nat>, stats: Stats)

  /** Out of memory halts the machine. */
  datatype Outcome = Panic | Done(heap: Heap, ptr: nat)

  // ---------------------------------------------------------------- well-formedness

  function LiveIv(live: map<nat, nat>, a: nat): Interval
    requires a in live
  {
    Interval(a, live[a])
  }

  ghost predicate LiveAt(live: map<nat, nat>, x: int) {
    exists a :: a in live && LiveIv(live, a).Contains(x)
  }

  /** A non-empty block on 16-byte boundaries inside `[begin, end)`. */
  predicate Inside(begin: nat, end: nat, iv: Interval) {
    begin <= iv.lo && iv.Hi() <= end && iv.lo % HEADER == 0 && iv.size % HEADER == 0 && iv.size > 0
  }

  ghost predicate FreesInside(begin: nat, end: nat, frees: seq<Interval>) {
    forall i :: 0 <= i < |frees| ==> Inside(begin, end, frees[i])
  }

  ghost predicate LiveInside(begin: nat, end: nat, live: map<nat, nat>) {
    forall a :: a in live ==> Inside(begin, end, LiveIv(live, a))
  }

  ghost predicate LiveApart(live: map<nat, nat>) {
    forall a, b :: a in live && b in live && a != b ==> LiveIv(live, a).Disjoint(LiveIv(live, b))
  }

  /** No live block shares a byte with `iv`. */
  ghost predicate ClearOf(live: map<nat, nat>, iv: Interval) {
    forall a :: a in live ==> LiveIv(live, a).Disjoint(iv)
  }

  ghost predicate Unmixed(live: map<nat, nat>, frees: seq<Interval>) {
    forall i :: 0 <= i < |frees| ==> ClearOf(live, frees[i])
  }

  /** Every byte of `[begin, end)` belongs to a free block, a live block or the gap. */
  ghost predicate Filled(begin: nat, end: nat, frees: seq<Interval>, live: map<nat, nat>, gap: Interval) {
    forall x :: begin <= x < end ==> Covers(frees, x) || LiveAt(live, x) || gap.Contains(x)
  }

  /** Free and live blocks are aligned, inside the heap and pairwise disjoint; the free list is canonical. */
  ghost predicate Separated(h: Heap) {
    && 0 < h.begin <= h.end && h.begin % HEADER == 0 && h.end % HEADER == 0
    && Canonical(h.frees) && FreesInside(h.begin, h.end, h.frees)
    && LiveInside(h.begin, h.end, h.live) && LiveApart(h.live)
    && Unmixed(h.live, h.frees)
  }

  const NOGAP := Interval(0, 0)

  /** The blocks tile `[begin, end)` exactly and the free list is canonical. */
  ghost predicate WF(h: Heap) {
    Separated(h) && Filled(h.begin, h.end, h.frees, h.live, NOGAP)
  }

  /** As `WF`, but for one block `gap` that is neither free nor live. */
  ghost predicate WithGap(h: Heap, gap: Interval) {
    && Separated(h) && Filled(h.begin, h.end, h.frees, h.live, gap)
    && Inside(h.begin, h.end, gap) && Apart(h.frees, gap) && ClearOf(h.live, gap)
  }

  // ---------------------------------------------------------------- operations

  /** Index of the first interval of at least `t` bytes, or the length of the list. */
  function FirstFit(fs: seq<Interval>, t: nat): (i: nat)
    ensures i <= |fs|
    ensures i < |fs| ==> fs[i].size >= t
    ensures forall j :: 0 <= j < i ==> fs[j].size < t
  {
    if fs == [] || fs[0].size >= t then 0 else 1 + FirstFit(fs[1..], t)
  }

  /** Index of the interval that starts at `lo`, or the length of the list. */
  function IndexAt(fs: seq<Interval>, lo: nat): (i: nat)
    ensures i <= |fs|
    ensures i < |fs| ==> fs[i].lo == lo
    ensures forall j :: 0 <= j < i ==> fs[j].lo != lo
  {
    if fs == [] || fs[0].lo == lo then 0 else 1 + IndexAt(fs[1..], lo)
  }

  function Remove(fs: seq<Interval>, i: nat): seq<Interval>
    requires i < |fs|
  {
    fs[..i] + fs[i + 1..]
  }

  /** The free list once the first `t` bytes of block `iv` are kept and the rest is given back. */
  function SplitOff(fs: seq<Interval>, iv: Interval, t: nat): seq<Interval>
    requires t <= iv.size
  {
    if iv.size == t then fs else Insert(fs, Interval(iv.lo + t, iv.size - t))
  }

  function Count(s: Stats, bytes: nat): Stats {
    s.(allocCnt := (s.allocCnt + 1) % WORD, allocBytes := (s.allocBytes + bytes) % WORD)
  }

  function Uncount(s: Stats, bytes: nat): Stats {
    s.(freeCnt := (s.freeCnt + 1) % WORD, freeBytes := (s.freeBytes + bytes) % WORD)
  }

  /** Turn the first `t` bytes of the gap `iv` into a live block. */
  function Take(h: Heap, iv: Interval, t: nat): Heap
    requires t <= iv.size
  {
    h.(frees := SplitOff(h.frees, iv, t), live := h.live[iv.lo := t])
  }

  /** A request the allocator survives: the block has bytes, and the end of a needed extension does not wrap. */
  predicate Fits(h: Heap, size: nat) {
    && Target(size) > 0
    && (FirstFit(h.frees, Target(size)) < |h.frees| || h.end + RoundUp(Target(size), PAGE) < WORD)
  }

  function Malloc(h: Heap, max: nat, size: nat): Outcome
    requires Fits(h, size)
  {
    var t := Target(size);
    var i := FirstFit(h.frees, t);
    var counted := h.(stats := Count(h.stats, t));
    if i < |h.frees| then
      Done(Take(counted.(frees := Remove(h.frees, i)), h.frees[i], t), h.frees[i].lo + HEADER)
    else
      var n := AlignUp(t, PAGE);
      RoundFacts(t, PAGE);
      if h.end + n > max then Panic
      else Done(Take(counted.(end := h.end + n), Interval(h.end, n), t), h.end + HEADER)
  }

  function Free(h: Heap, b: nat): Heap
    requires b in h.live
  {
    Heap(h.begin, h.end, Insert(h.frees, LiveIv(h.live, b)), h.live - {b}, Uncount(h.stats, h.live[b]))
  }

  /** The block at `b` together with the free block right behind it, if there is one. */
  function Reach(h: Heap, b: nat): Interval
    requires b in h.live
  {
    var i := IndexAt(h.frees, b + h.live[b]);
    if i < |h.frees| then Interval(b, h.live[b] + h.frees[i].size) else LiveIv(h.live, b)
  }

  /** Whether a reallocation of block `b` to `size` is served in place. */
  predicate InPlace(h: Heap, b: nat, size: nat)
    requires b in h.live
  {
    Reach(h, b).size >= Target(size)
  }

  predicate Owned(h: Heap, ptr: nat) {
    ptr >= HEADER && ptr - HEADER in h.live
  }

  predicate ReallocFits(h: Heap, ptr: nat, size: nat) {
    if ptr == 0 then Fits(h, size)
    else Owned(h, ptr) && (size == 0 || (Target(size) > 0 && (InPlace(h, ptr - HEADER, size) || Fits(h, size))))
  }

  function Realloc(h: Heap, max: nat, ptr: nat, size: nat): Outcome
    requires ReallocFits(h, ptr, size)
  {
    if ptr == 0 then Malloc(h, max, size)
    else if size == 0 then Done(Free(h, ptr - HEADER), 0)
    else
      var b, t := ptr - HEADER, Target(size);
      if h.live[b] >= t then Done(Take(h, LiveIv(h.live, b), t), ptr)
      else if InPlace(h, b, size) then
        Done(Take(h.(frees := Remove(h.frees, IndexAt(h.frees, b + h.live[b]))), Reach(h, b), t), ptr)
      else
        match Malloc(h, max, size)
        case Panic => Panic
        case Done(h1, q) => assert b in h1.live; Done(Free(h1, b), q)
  }

  // ---------------------------------------------------------------- arithmetic

  lemma RoundFacts(x: nat, align: nat)
    requires align > 0
    ensures RoundUp(x, align) % align == 0 && x <= RoundUp(x, align) < x + align
    ensures x + align - 1 < WORD ==> AlignUp(x, align) == RoundUp(x, align)
    ensures align == PAGE && RoundUp(x, align) < WORD ==> AlignUp(x, align) == RoundUp(x, align)
  {
    hide RoundDown, RoundUp, AlignUp;
    UpFacts(x, align);
    NoWrap(x, align);
    if align == PAGE { PageFacts(x); }
  }

  lemma UpFacts(x: nat, align: nat)
    requires align > 0
    ensures RoundUp(x, align) % align == 0 && x <= RoundUp(x, align) < x + align
  {
    hide RoundDown;
    DownFacts(x + align - 1, align);
  }

  lemma NoWrap(x: nat, align: nat)
    requires align > 0
    ensures x + align - 1 < WORD ==> AlignUp(x, align) == RoundUp(x, align)
  {
    hide RoundDown;
  }

  lemma DownFacts(y: nat, align: nat)
    requires align > 0
    ensures RoundDown(y, align) % align == 0 && RoundDown(y, align) <= y < RoundDown(y, align) + align
  {
    DivMod(y, align);
    MulMod(y / align, align);
  }

  lemma DivMod(y: nat, n: nat)
    requires n > 0
    ensures y == y / n * n + y % n && y % n < n
  {
  }

  /** A page-rounded size below 2^32 is computed without wrap. */
  lemma PageFacts(x: nat)
    ensures RoundUp(x, PAGE) < WORD ==> x + PAGE - 1 < WORD
  {
  }

  lemma MulMod(q: nat, n: nat)
    requires n > 0
    ensures (q * n) % n == 0
  {
    DivMod(q * n, n);
    var d, r := (q * n) / n, (q * n) % n;
    assert (q - d) * n == r;
    MulBound(q - d, n);
  }

  lemma MulBound(k: int, n: nat)
    ensures k >= 1 ==> k * n >= n
    ensures k <= -1 ==> k * n <= 0 - n
  {
  }

  lemma TargetFacts(size: nat)
    requires size + HEADER + 15 < WORD
    ensures Target(size) == RoundUp(size + HEADER, HEADER)
    ensures Target(size) % HEADER == 0 && size + HEADER <= Target(size) < size + 2 * HEADER
  {
    hide RoundDown, RoundUp, AlignUp;
    assert (size + HEADER) % WORD == size + HEADER;
    RoundFacts(size + HEADER, HEADER);
  }

  lemma TargetAligned(size: nat)
    ensures Target(size) % HEADER == 0 && Target(size) < WORD
  {
    hide RoundDown;
    DownFacts(((size + HEADER) % WORD + HEADER - 1) % WORD, HEADER);
  }

  /** The computed block holds the requested payload exactly when the size does not wrap. */
  lemma TargetExact(size: nat)
    requires size < WORD
    ensures Target(size) >= size + HEADER <==> size + HEADER + 15 < WORD
  {
  }

  /** Of the sizes that wrap, the sixteen from 2^32 - 31 on get a block of no bytes at all, and the others one of
      sixteen bytes, which is all header. */
  lemma TargetWraps(size: nat)
    requires WORD - 31 <= size < WORD
    ensures Target(size) == if size <= WORD - 16 then 0 else HEADER
  {
  }

  /** A zeroing allocation has room for all its elements exactly when neither their product nor the block wraps. */
  lemma CallocExact(nelems: nat, elemsize: nat)
    ensures Target(nelems * elemsize % WORD) >= nelems * elemsize + HEADER <==> nelems * elemsize + HEADER + 15 < WORD
  {
    hide Target;
    WrappedTarget(nelems * elemsize);
  }

  lemma WrappedTarget(n: nat)
    ensures Target(n % WORD) >= n + HEADER <==> n + HEADER + 15 < WORD
  {
    hide Target;
    if n < WORD {
      SmallMod(n);
      TargetExact(n);
    } else {
      TargetAligned(n % WORD);
    }
  }

  lemma SmallMod(n: nat)
    requires n < WORD
    ensures n % WORD == n
  {
  }

  function Smaller(a: nat, b: nat): nat {
    if a < b then a else b
  }

  /** A reallocation of a block of `n` bytes has room for the smaller of the old payload and the new size exactly when
      the size does not wrap, or the old payload is empty. */
  lemma ReallocRoomExact(n: nat, size: nat)
    requires n >= HEADER && 0 < size < WORD && Target(size) > 0
    ensures Smaller(n, Target(size)) - HEADER >= Smaller(n - HEADER, size) <==> size + HEADER + 15 < WORD || n == HEADER
  {
    hide Target;
    if size + HEADER + 15 < WORD { TargetFacts(size); } else { TargetWraps(size); }
  }

  /** 65536 elements of 65536 bytes are given a block that is all header; one element of 2^32 - 31 bytes, though its
      size does not wrap, one of no bytes. */
  lemma CallocWraps()
    ensures Target(65536 * 65536 % WORD) == HEADER
    ensures 1 * (WORD - 31) < WORD && Target(1 * (WORD - 31) % WORD) == 0
  {
  }

  /** The out-of-memory test is right exactly when the new end does not wrap. */
  lemma ExtendTestExact(end: nat, max: nat, t: nat)
    requires end <= max < WORD && t < WORD
    ensures ((end + AlignUp(t, PAGE)) % WORD > max <==> end + RoundUp(t, PAGE) > max) <==> end + RoundUp(t, PAGE) < WORD
  {
    hide RoundDown, RoundUp, AlignUp;
    RoundFacts(t, PAGE);
    if t + PAGE - 1 >= WORD {
      PageWraps(t);
      WrapTest(end, max, 0);
    } else {
      WrapTest(end, max, RoundUp(t, PAGE));
    }
  }

  lemma WrapTest(end: nat, max: nat, n: nat)
    requires end <= max < WORD && n < WORD
    ensures (end + n) % WORD == if end + n < WORD then end + n else end + n - WORD
    ensures ((end + n) % WORD > max <==> end + n > max) <==> end + n < WORD
  {
  }

  lemma PageIsAligned(n: nat)
    requires n % PAGE == 0
    ensures n % HEADER == 0
  {
  }

  lemma PagesAligned(size: nat)
    ensures AlignUp(size, PAGE) % HEADER == 0 && AlignUp(size, PAGE) < WORD
  {
    hide RoundDown;
    DownFacts((size + PAGE - 1) % WORD, PAGE);
    PageIsAligned(AlignUp(size, PAGE));
  }

  /** Close to 2^32 the page rounding itself wraps, to zero. */
  lemma PageWraps(t: nat)
    requires t < WORD <= t + PAGE - 1
    ensures AlignUp(t, PAGE) == 0 && RoundUp(t, PAGE) == WORD
  {
  }

  /** A wrapped end is not above the old one. */
  lemma EndWraps(end: nat, size: nat)
    requires end < WORD && size < WORD && (size == 0 || end + RoundUp(size, PAGE) >= WORD)
    ensures (end + AlignUp(size, PAGE)) % WORD <= end
  {
    hide RoundDown, RoundUp, AlignUp;
    RoundFacts(size, PAGE);
    if size == 0 {
      NothingRounds();
    } else if size + PAGE - 1 >= WORD {
      PageWraps(size);
    } else {
      WrapTest(end, end, RoundUp(size, PAGE));
    }
  }

  lemma NothingRounds()
    ensures AlignUp(0, PAGE) == 0
  {
  }

  /** Heap end and limit at 0xF000_0000: a request for 0x1000_0000 bytes passes the test, and one for 2^32 - 16 does. */
  lemma ExtendTestFails()
    ensures (0xF000_0000 + AlignUp(0x1000_0000, PAGE)) % WORD <= 0xF000_0000 < 0xF000_0000 + RoundUp(0x1000_0000, PAGE)
    ensures (0xF000_0000 + AlignUp(WORD - 16, PAGE)) % WORD <= 0xF000_0000 < 0xF000_0000 + RoundUp(WORD - 16, PAGE)
  {
  }
}
