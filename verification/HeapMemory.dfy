/** What memory holds for a heap, and how the allocator's writes preserve it. */
module HeapMemory {
  import opened Intervals
  import opened HeapModel
  import opened HeapTheorems
  import opened Headers

  // ---------------------------------------------------------------- values of memory

  /** An allocated block's header: size, allocation bit and magic number. */
  ghost predicate LiveNode(m: seq<byte>, a: nat, size: nat) {
    && a + HEADER <= |m|
    && var h := HeaderAt(m, a);
       h.Size() == size && h.Alloc() && h.magic == MAGIC
  }

  ghost predicate LiveHeaders(m: seq<byte>, live: map<nat, nat>) {
    forall a :: a in live ==> LiveNode(m, a, live[a])
  }

  /** Address 0 is NULL; memory holds the free list and the headers of the live blocks of `h`. */
  ghost predicate Holds(m: seq<byte>, head: nat, h: Heap) {
    Listed(m, head, h.frees) && LiveHeaders(m, h.live)
  }

  /** The free blocks of a heap have room for their headers and keep clear of a gap. */
  lemma GapSpaced(h: Heap, limit: nat)
    requires Separated(h) && h.end <= limit
    ensures Spaced(h.frees, limit)
  {
    hide LiveInside, LiveApart, Unmixed;
    forall i | 0 <= i < |h.frees|
      ensures 0 < h.frees[i].lo && h.frees[i].size >= HEADER && h.frees[i].Hi() <= limit
        && h.frees[i].size % HEADER == 0
    {
      assert Inside(h.begin, h.end, h.frees[i]);
    }
  }

  /** Both memories hold the same bytes in `iv`. */
  ghost predicate SameBytes(m: seq<byte>, m': seq<byte>, iv: Interval) {
    iv.Hi() <= |m| && iv.Hi() <= |m'| && m'[iv.lo..iv.Hi()] == m[iv.lo..iv.Hi()]
  }

  /** Every block of `live` keeps all its bytes, header and payload. */
  ghost predicate Kept(m: seq<byte>, m': seq<byte>, live: map<nat, nat>) {
    forall a :: a in live ==> SameBytes(m, m', LiveIv(live, a))
  }

  /** A live block outside everything that changed keeps all its bytes. */
  lemma BlockKept(m: seq<byte>, m': seq<byte>, h: Heap, r: Interval, q: Interval, a: nat)
    requires ChangedOnly(m, m', h.frees, r, q) && Unmixed(h.live, h.frees) && a in h.live
    requires LiveIv(h.live, a).Disjoint(r) && LiveIv(h.live, a).Disjoint(q)
    ensures forall x :: a <= x < a + h.live[a] && x < |m| ==> m'[x] == m[x]
  {
    forall x | a <= x < a + h.live[a] && x < |m| ensures m'[x] == m[x] {
      hide ClearOf;
      NotCovered(h, a, x);
    }
  }

  lemma NotCovered(h: Heap, a: nat, x: int)
    requires Unmixed(h.live, h.frees) && a in h.live && LiveIv(h.live, a).Contains(x)
    ensures !Covers(h.frees, x)
  {
    forall i | 0 <= i < |h.frees| ensures !h.frees[i].Contains(x) {
      assert ClearOf(h.live, h.frees[i]);
    }
  }

  lemma LiveNodeKept(m: seq<byte>, m': seq<byte>, a: nat, size: nat)
    requires LiveNode(m, a, size) && |m'| == |m|
    requires forall x :: a <= x < a + HEADER ==> m'[x] == m[x]
    ensures LiveNode(m', a, size)
  {
    HeaderFrame(m, m', a);
  }

  /** Live blocks other than those in the changed intervals keep their headers. */
  lemma LiveHeadersKept(m: seq<byte>, m': seq<byte>, h: Heap, r: Interval, q: Interval, keep: map<nat, nat>)
    requires ChangedOnly(m, m', h.frees, r, q) && Separated(h) && LiveHeaders(m, h.live)
    requires forall a :: a in keep ==> a in h.live && keep[a] == h.live[a]
    requires forall a :: a in keep ==> LiveIv(h.live, a).Disjoint(r) && LiveIv(h.live, a).Disjoint(q)
    ensures LiveHeaders(m', keep)
  {
    hide LiveNode, Unmixed, ChangedOnly, Canonical, FreesInside, LiveApart;
    forall a | a in keep ensures LiveNode(m', a, keep[a]) {
      assert Inside(h.begin, h.end, LiveIv(h.live, a));
      assert LiveNode(m, a, h.live[a]);
      NodeRoom(m, a, h.live[a]);
      BlockKept(m, m', h, r, q, a);
      SameLength(m, m', h.frees, r, q);
      LiveNodeKept(m, m', a, h.live[a]);
    }
  }

  lemma NodeRoom(m: seq<byte>, a: nat, size: nat)
    requires LiveNode(m, a, size)
    ensures a + HEADER <= |m|
  {
  }

  lemma SameLength(m: seq<byte>, m': seq<byte>, fs: seq<Interval>, r: Interval, q: Interval)
    requires ChangedOnly(m, m', fs, r, q)
    ensures |m'| == |m|
  {
  }

  lemma SpacedPut(fs: seq<Interval>, k: nat, iv: Interval, limit: nat)
    requires Spaced(fs, limit) && Belongs(fs, k, iv)
    requires 0 < iv.lo && iv.size >= HEADER && iv.Hi() <= limit && iv.size % HEADER == 0
    ensures Spaced(PutAt(fs, k, iv), limit)
  {
    var gs := PutAt(fs, k, iv);
    PutElements(fs, k, iv);
    hide PutAt;
  }

  lemma PutElements(fs: seq<Interval>, k: nat, iv: Interval)
    requires k <= |fs|
    ensures |PutAt(fs, k, iv)| == |fs| + 1
    ensures forall i :: 0 <= i <= |fs| ==>
      PutAt(fs, k, iv)[i] == if i < k then fs[i] else if i == k then iv else fs[i - 1]
  {
  }

  lemma SpacedFuse(fs: seq<Interval>, k: nat, limit: nat)
    requires Spaced(fs, limit) && k < |fs|
    ensures Spaced(Fuse(fs, k), limit)
  {
    if Fuse(fs, k) != fs {
      SpacedFused(fs, k, limit);
    }
  }

  lemma SpacedFused(fs: seq<Interval>, k: nat, limit: nat)
    requires Spaced(fs, limit) && k < |fs| && Fuse(fs, k) != fs
    ensures Spaced(Fuse(fs, k), limit)
  {
    hide Fuse;
    FuseElements(fs, k);
    var gs := Fuse(fs, k);
    SpacedSize(fs, limit, k);
    SpacedSize(fs, limit, k + 1);
    forall i | 0 <= i < |gs|
      ensures 0 < gs[i].lo && gs[i].size >= HEADER && gs[i].Hi() <= limit && gs[i].size % HEADER == 0
    {
      hide Spaced;
      SpacedSize(fs, limit, if i <= k then i else i + 1);
    }
    forall i, j | 0 <= i < j < |gs| ensures gs[i].Hi() <= gs[j].lo {
      if i == k { assert fs[k + 1].Hi() <= fs[j + 1].lo; }
    }
  }

  lemma SpacedSize(fs: seq<Interval>, limit: nat, i: nat)
    requires Spaced(fs, limit) && i < |fs|
    ensures 0 < fs[i].lo && fs[i].size >= HEADER && fs[i].Hi() <= limit && fs[i].size % HEADER == 0
  {
  }

  lemma FuseElements(fs: seq<Interval>, k: nat)
    requires k < |fs| && Fuse(fs, k) != fs
    ensures k + 1 < |fs| && |Fuse(fs, k)| == |fs| - 1
    ensures Fuse(fs, k)[k] == Interval(fs[k].lo, fs[k].size + fs[k + 1].size) && fs[k].Hi() == fs[k + 1].lo
    ensures forall i :: 0 <= i < k ==> Fuse(fs, k)[i] == fs[i]
    ensures forall i :: k < i < |fs| - 1 ==> Fuse(fs, k)[i] == fs[i + 1]
  {
  }

  /** A block apart from the list, behind block `k - 1` and before block `k`, belongs at `k`. */
  lemma BelongsAt(fs: seq<Interval>, k: nat, iv: Interval)
    requires Canonical(fs) && Apart(fs, iv) && k <= |fs|
    requires k > 0 ==> fs[k - 1].lo < iv.lo
    requires k < |fs| ==> iv.lo <= fs[k].lo
    ensures Belongs(fs, k, iv)
  {
    forall i | 0 <= i < k ensures fs[i].Hi() <= iv.lo {
      assert fs[i].Disjoint(iv);
      assert i < k - 1 ==> fs[i].Hi() < fs[k - 1].lo;
    }
    forall i | k <= i < |fs| ensures iv.Hi() <= fs[i].lo {
      assert fs[i].Disjoint(iv);
      assert k < i ==> fs[k].Hi() < fs[i].lo;
    }
  }

  lemma Digits16(v: nat, q: nat, r: nat)
    requires v == 16 * q + r && r < 16
    ensures v % 16 == r && v - v % 16 == 16 * q
  {
  }

  lemma Parity(v: nat, s: nat, p: nat)
    requires v == 2 * s + p && p < 2
    ensures v % 2 == p
  {
  }

  /** Replacing the size keeps the four flag bits. */
  lemma MetaBits(w: nat, size: nat)
    requires size % HEADER == 0 && size < WORD
    ensures var v := size + w % 16; v < WORD && v - v % 16 == size && v % 16 == w % 16 && v % 2 == w % 2
  {
    var r, q := w % 16, size / 16;
    Digits16(size + r, q, r);
    Parity(r, r / 2, r % 2);
    Parity(size + r, 8 * q + r / 2, r % 2);
    Parity(w, 8 * (w / 16) + r / 2, r % 2);
  }

  /** Writing the allocation bit keeps the size. */
  lemma FlagBits(w: nat)
    requires w < WORD
    ensures var v := w - w % 2; v % 2 == 0 && v - v % 16 == w - w % 16
    ensures var v := w - w % 2 + 1; v < WORD && v % 2 == 1 && v - v % 16 == w - w % 16
  {
    var q, r := w / 16, w % 16;
    var s, p := r / 2, r % 2;
    Parity(w, 8 * q + s, p);
    Digits16(w, q, r);
    Digits16(16 * q + 2 * s, q, 2 * s);
    Digits16(16 * q + 2 * s + 1, q, 2 * s + 1);
    Parity(16 * q + 2 * s, 8 * q + s, 0);
    Parity(16 * q + 2 * s + 1, 8 * q + s, 1);
  }


  lemma InitialRound()
    ensures AlignUp(4 * PAGE, PAGE) == 4 * PAGE
  {
  }

  /** The answer of a reallocation: `ok` unless the kernel halts, and then the heap and the pointer. */
  ghost predicate ReallocDone(h: Heap, max: nat, ptr: nat, size: nat, ok: bool, h': Heap, newPtr: nat) {
    && ReallocFits(h, ptr, size) && ok == Realloc(h, max, ptr, size).Done?
    && (ok ==> Realloc(h, max, ptr, size) == Done(h', newPtr))
  }

  /** Neither the block nor the free run behind it is large enough. */
  ghost predicate MustMove(h: Heap, ptr: nat, size: nat) {
    Owned(h, ptr) && !InPlace(h, ptr - HEADER, size)
  }

  /** The whole payload at `ptr` has been copied to `newPtr`, and the other live blocks are as before. */
  ghost predicate Moved(m: seq<byte>, live: map<nat, nat>, ptr: nat, newPtr: nat, m': seq<byte>) {
    && ptr >= HEADER && ptr - HEADER in live && Kept(m, m', live - {ptr - HEADER})
    && CopiedFrom(m, m', ptr, newPtr, live[ptr - HEADER] - HEADER)
  }

  /** What a reallocation keeps of a block of `n` bytes: what fits the new block, which is the whole of the smaller
      payload unless the size wraps. */
  ghost predicate KeepsPayload(m: seq<byte>, m': seq<byte>, n: nat, ptr: nat, newPtr: nat, size: nat) {
    && CopiedFrom(m, m', ptr, newPtr, Smaller(n, Target(size)) - HEADER)
    && (size + HEADER + 15 < WORD ==> HEADER <= n && CopiedFrom(m, m', ptr, newPtr, Smaller(n - HEADER, size)))
  }

  lemma PayloadKeeps(m: seq<byte>, m': seq<byte>, n: nat, ptr: nat, newPtr: nat, size: nat)
    requires n >= HEADER && CopiedFrom(m, m', ptr, newPtr, Smaller(n, Target(size)) - HEADER)
    ensures KeepsPayload(m, m', n, ptr, newPtr, size)
  {
    hide Target, CopiedFrom;
    if size + HEADER + 15 < WORD {
      TargetFacts(size);
      CopiedLess(m, m', ptr, newPtr, Smaller(n, Target(size)) - HEADER, Smaller(n - HEADER, size));
    }
  }

  lemma CopiedLess(m: seq<byte>, m': seq<byte>, from: nat, to: nat, n: int, k: nat)
    requires CopiedFrom(m, m', from, to, n) && k <= n
    ensures CopiedFrom(m, m', from, to, k)
  {
    var a, b, a', b' := m[from..from + n], m'[to..to + n], m[from..from + k], m'[to..to + k];
    forall i | 0 <= i < k ensures a'[i] == b'[i] {
      assert a[i] == b[i];
    }
  }

  /** What a free does to heap and memory; NULL is ignored. */
  ghost predicate FreedTo(h: Heap, m: seq<byte>, ptr: nat, h': Heap, m': seq<byte>) {
    if ptr == 0 then h' == h && m' == m
    else Owned(h, ptr) && h' == Free(h, ptr - HEADER) && Kept(m, m', h.live - {ptr - HEADER})
  }

  /** A header written over the first bytes of the gap leaves the list as it was, and the gap can go into it. */
  lemma GapReady(m0: seq<byte>, m1: seq<byte>, head: nat, h: Heap, gap: Interval, limit: nat)
    requires WithGap(h, gap) && Holds(m0, head, h) && |m0| == limit && h.end <= limit
    requires OnlyIn(m0, m1, Interval(gap.lo, HEADER))
    ensures Canonical(h.frees) && Spaced(h.frees, limit) && Listed(m1, head, h.frees) && Apart(h.frees, gap)
    ensures gap.size >= HEADER && gap.size % HEADER == 0 && gap.Hi() <= limit && gap.lo > 0
  {
    hide WithGap, Listed, LiveHeaders, OnlyIn, Canonical, Spaced, Apart;
    GapPositive(h, gap);
    GapSeparated(h, gap);
    GapSpaced(h, limit);
    AllocKept(m0, m1, head, h, gap);
  }

  lemma GapSeparated(h: Heap, gap: Interval)
    requires WithGap(h, gap)
    ensures Separated(h) && Canonical(h.frees) && Apart(h.frees, gap)
  {
  }

  /** Whatever heap it is, the first block of its free list is not allocated. */
  lemma HeadUnallocated(m: seq<byte>, head: nat, h: Heap)
    requires Holds(m, head, h) && head != 0
    ensures head + HEADER <= |m| && !HeaderAt(m, head).Alloc()
  {
    hide HeaderAt, LiveHeaders;
    assert |h.frees| > 0 && Node(m, h.frees[0], Lo(h.frees, 1));
  }

  /** The block made at initialisation can go into the empty list. */
  lemma FirstReady(m: seq<byte>, start: nat)
    requires start + 4 * PAGE <= |m| && 0 < start
    requires HeaderAt(m, start).Size() == 4 * PAGE && HeaderAt(m, start).magic == MAGIC && !HeaderAt(m, start).Alloc()
    ensures var first := Interval(start, 4 * PAGE);
      && Canonical([]) && Spaced([], |m|) && Listed(m, 0, []) && Apart([], first) && Insert([], first) == [first]
      && Node(m, first, HeaderAt(m, start).next)
  {
    hide HeaderAt;
  }

  lemma FirstHolds(m: seq<byte>, head: nat, start: nat)
    requires Listed(m, head, [Interval(start, 4 * PAGE)])
    ensures Holds(m, head, Initial(start))
  {
    hide Listed;
  }

  /** The `n` bytes at `from` in the old memory are at `to` in the new one. */
  ghost predicate CopiedFrom(m: seq<byte>, m': seq<byte>, from: nat, to: nat, n: int) {
    && 0 <= n && from + n <= |m| && to + n <= |m'|
    && m'[to..to + n] == m[from..from + n]
  }

  lemma SameIsCopied(m: seq<byte>, m': seq<byte>, ptr: nat, n: nat)
    requires SameBytes(m, m', Interval(ptr, n))
    ensures CopiedFrom(m, m', ptr, ptr, n)
  {
  }

  lemma KeptOne(m: seq<byte>, m': seq<byte>, live: map<nat, nat>, a: nat)
    requires Kept(m, m', live) && a in live
    ensures SameBytes(m, m', LiveIv(live, a))
  {
  }

  lemma BlocksApart(h: Heap, a: nat, b: nat)
    requires WF(h) && a in h.live && b in h.live && a != b
    ensures LiveIv(h.live, a).Disjoint(LiveIv(h.live, b))
  {
    hide Filled, Canonical, FreesInside, LiveInside, Unmixed;
  }

  /** Reading the header behind a live block: it is a live block or the free block that starts there. */
  lemma NextHeader(m: seq<byte>, head: nat, h: Heap, b: nat)
    requires WF(h) && Holds(m, head, h) && b in h.live && h.end <= |m|
    ensures b + h.live[b] < h.end ==>
      var x, i := b + h.live[b], IndexAt(h.frees, b + h.live[b]);
      && x + HEADER <= |m|
      && (HeaderAt(m, x).Alloc() <==> i == |h.frees|)
      && (i < |h.frees| ==> HeaderAt(m, x).Size() == h.frees[i].size && HeaderAt(m, x).magic == MAGIC)
    ensures b + h.live[b] >= h.end ==> IndexAt(h.frees, b + h.live[b]) == |h.frees|
  {
    hide WF, HeaderAt, IndexAt, Holds;
    var x := b + h.live[b];
    var i := IndexAt(h.frees, x);
    if x < h.end {
      NextIsBlock(h, b);
      if i < |h.frees| { FreeHeaderAt(m, head, h, i); } else { LiveHeaderAt(m, head, h, x); }
    } else {
      FreeBelowEnd(h, i);
    }
  }

  lemma FreeHeaderAt(m: seq<byte>, head: nat, h: Heap, i: nat)
    requires WF(h) && Holds(m, head, h) && i < |h.frees| && h.end <= |m|
    ensures var x := h.frees[i].lo;
      x + HEADER <= |m| && !HeaderAt(m, x).Alloc() && HeaderAt(m, x).Size() == h.frees[i].size
        && HeaderAt(m, x).magic == MAGIC
  {
    hide WF, HeaderAt, Spaced, LiveHeaders;
    HeapSpaced(h, |m|);
    ListNode(m, head, h.frees, |m|, i);
  }

  lemma LiveHeaderAt(m: seq<byte>, head: nat, h: Heap, x: nat)
    requires Holds(m, head, h) && x in h.live
    ensures x + HEADER <= |m| && HeaderAt(m, x).Alloc()
  {
    hide HeaderAt, Listed;
    assert LiveNode(m, x, h.live[x]);
  }

  lemma FreeBelowEnd(h: Heap, i: nat)
    requires WF(h)
    ensures i < |h.frees| ==> h.frees[i].lo < h.end
  {
    hide Filled, Canonical, LiveInside, LiveApart, Unmixed;
    if i < |h.frees| { assert Inside(h.begin, h.end, h.frees[i]); }
  }

  /** Allocating, copying and freeing leave the other blocks alone and move the payload. */
  lemma CopyKeeps(m0: seq<byte>, m1: seq<byte>, m2: seq<byte>, m3: seq<byte>, live: map<nat, nat>, b: nat, c: nat,
    v: nat, n: nat)
    requires Kept(m0, m1, live) && b in live && live[b] == n + HEADER && c !in live
    requires n + HEADER <= v && ClearOf(live, Interval(c, v))
    requires |m2| == |m1| && c + v <= |m1| && b + live[b] <= |m1|
    requires forall x :: c + HEADER <= x < c + HEADER + n ==> m2[x] == m1[b + HEADER + (x - (c + HEADER))]
    requires forall x :: 0 <= x < |m1| && !(c + HEADER <= x < c + HEADER + n) ==> m2[x] == m1[x]
    requires Kept(m2, m3, live[c := v] - {b})
    ensures Kept(m0, m3, live - {b})
    ensures CopiedFrom(m0, m3, b + HEADER, c + HEADER, n)
  {
    hide Kept, SameBytes;
    KeptApart(m0, m1, m2, live, Interval(c, v));
    var live1 := live[c := v] - {b};
    KeptBoth(m0, m2, m3, live, live1, live - {b});
    KeptOne(m2, m3, live1, c);
    KeptOne(m0, m1, live, b);
    SameBytesPart(m2, m3, LiveIv(live1, c), Interval(c + HEADER, n));
    SameBytesPart(m0, m1, LiveIv(live, b), Interval(b + HEADER, n));
    CopiedVia(m0, m1, m2, m3, b + HEADER, c + HEADER, n);
  }

  lemma SameBytesPart(m: seq<byte>, m': seq<byte>, iv: Interval, part: Interval)
    requires SameBytes(m, m', iv) && iv.lo <= part.lo && part.Hi() <= iv.Hi()
    ensures SameBytes(m, m', part)
  {
    forall x | part.lo <= x < part.Hi() ensures m'[x] == m[x] {
      assert m'[x] == m'[iv.lo..iv.Hi()][x - iv.lo] && m[x] == m[iv.lo..iv.Hi()][x - iv.lo];
    }
  }

  lemma CopiedVia(m0: seq<byte>, m1: seq<byte>, m2: seq<byte>, m3: seq<byte>, from: nat, to: nat, n: nat)
    requires SameBytes(m0, m1, Interval(from, n)) && SameBytes(m2, m3, Interval(to, n))
    requires |m2| == |m1| && to + n <= |m1|
    requires forall x :: to <= x < to + n ==> m2[x] == m1[from + (x - to)]
    ensures CopiedFrom(m0, m3, from, to, n)
  {
    assert m2[to..to + n] == m1[from..from + n];
  }

  /** A reallocation that is not served in place halts when its allocation does, and otherwise frees the old block. */
  lemma ReallocBy(h: Heap, max: nat, ptr: nat, size: nat)
    requires Owned(h, ptr) && size > 0 && !InPlace(h, ptr - HEADER, size) && Fits(h, size)
    ensures Realloc(h, max, ptr, size).Done? == Malloc(h, max, size).Done?
    ensures Malloc(h, max, size).Done? ==> ptr - HEADER in Malloc(h, max, size).heap.live
    ensures Malloc(h, max, size).Done? ==>
      Realloc(h, max, ptr, size) == Done(Free(Malloc(h, max, size).heap, ptr - HEADER), Malloc(h, max, size).ptr)
    ensures h.live[ptr - HEADER] < Target(size)
  {
    hide Target, Insert, Fits;
  }

  lemma KeptBoth(m0: seq<byte>, m1: seq<byte>, m2: seq<byte>, live0: map<nat, nat>, live1: map<nat, nat>,
    live: map<nat, nat>)
    requires Kept(m0, m1, live0) && Kept(m1, m2, live1)
    requires forall a :: a in live ==> a in live0 && a in live1 && live0[a] == live[a] && live1[a] == live[a]
    ensures Kept(m0, m2, live)
  {
    forall a | a in live ensures SameBytes(m0, m2, LiveIv(live, a)) {
      assert SameBytes(m0, m1, LiveIv(live0, a)) && SameBytes(m1, m2, LiveIv(live1, a));
    }
  }

  lemma LosDistinct(fs: seq<Interval>, i: nat, j: nat)
    requires Canonical(fs) && i < |fs| && j < |fs| && fs[i].lo == fs[j].lo
    ensures i == j
  {
  }

  /** Resizing inside `gap` touches the header, the bytes given back and free bytes: `kept` bytes of payload stay. */
  lemma ResizeKeeps(m: seq<byte>, m': seq<byte>, h: Heap, gap: Interval, n: nat, size: nat)
    requires WithGap(h, gap) && h.end <= |m| && HEADER <= n <= gap.size && HEADER <= size <= gap.size
    requires ChangedOnly(m, m', h.frees, Interval(gap.lo, HEADER), Interval(gap.lo + size, gap.size - size))
    ensures Kept(m, m', h.live)
    ensures var k := if n < size then n else size;
      k >= HEADER && SameBytes(m, m', Interval(gap.lo + HEADER, k - HEADER))
  {
    hide WithGap, Covers;
    var r, q := Interval(gap.lo, HEADER), Interval(gap.lo + size, gap.size - size);
    GapPositive(h, gap);
    GapPieces(h, gap, r, q);
    SeparatedUnmixed(h);
    SameLength(m, m', h.frees, r, q);
    hide Separated, Unmixed;
    forall a | a in h.live ensures SameBytes(m, m', LiveIv(h.live, a)) {
      hide ChangedOnly;
      SeparatedInside(h, a);
      BlockKept(m, m', h, r, q, a);
    }
    var k := if n < size then n else size;
    forall x | gap.lo + HEADER <= x < gap.lo + k ensures m'[x] == m[x] {
      GapUncovered(h, gap, x);
    }
  }

  lemma SeparatedInside(h: Heap, a: nat)
    requires Separated(h) && a in h.live
    ensures a + h.live[a] <= h.end
  {
    hide Canonical, FreesInside, Unmixed, LiveApart;
    assert Inside(h.begin, h.end, LiveIv(h.live, a));
  }

  /** Linking past the next block leaves the block's own header alone. */
  lemma AbsorbOpen(m0: seq<byte>, m1: seq<byte>, head': nat, h: Heap, b: nat, i: nat)
    requires WF(h) && b in h.live && i < |h.frees| && h.end <= |m0| && LiveHeaders(m1, h.live)
    requires ChangedOnly(m0, m1, h.frees, NOGAP, NOGAP)
    ensures |m1| == |m0| && b + HEADER <= |m0| && HeaderAt(m1, b) == HeaderAt(m0, b) && LiveHeaders(m1, h.live - {b})
  {
    hide WF, HeaderAt, LiveHeaders, ChangedOnly;
    LiveHeadersWithout(m1, h.live, b);
    SameLength(m0, m1, h.frees, NOGAP, NOGAP);
    PayloadInside(h, b);
    WFSeparated(h);
    SeparatedUnmixed(h);
    hide Separated, Unmixed;
    BlockKept(m0, m1, h, NOGAP, NOGAP, b);
    HeaderFrame(m0, m1, b);
  }

  lemma AbsorbKeeps(m0: seq<byte>, m1: seq<byte>, m2: seq<byte>, m3: seq<byte>, h: Heap, fs2: seq<Interval>, b: nat,
    i: nat, size: nat)
    requires WF(h) && b in h.live && i < |h.frees| && h.frees[i].lo == b + h.live[b] && h.end <= |m0|
    requires h.live[b] < size <= h.live[b] + h.frees[i].size
    requires ChangedOnly(m0, m1, h.frees, NOGAP, NOGAP) && OnlyIn(m1, m2, Interval(b, HEADER))
    requires forall x :: Covers(fs2, x) ==> Covers(h.frees, x)
    requires ChangedOnly(m2, m3, fs2, Interval(b, HEADER), Interval(b + size, h.live[b] + h.frees[i].size - size))
    ensures Kept(m0, m3, h.live - {b})
    ensures h.live[b] >= HEADER && SameBytes(m0, m3, Interval(b + HEADER, h.live[b] - HEADER))
  {
    hide WF, Covers;
    var r, q := Interval(b, HEADER), Interval(b + size, h.live[b] + h.frees[i].size - size);
    MemberCovered(h.frees, i);
    assert ChangedOnly(m0, m3, h.frees, r, r);
    hide OnlyIn;
    PayloadInside(h, b);
    WFSeparated(h);
    SeparatedUnmixed(h);
    FreedClear(h, b);
    SameLength(m0, m3, h.frees, r, r);
    hide Separated, Unmixed;
    var live' := h.live - {b};
    forall a | a in live' ensures SameBytes(m0, m3, LiveIv(live', a)) {
      hide ChangedOnly;
      PayloadInside(h, a);
      BlockKept(m0, m3, h, r, r, a);
    }
    forall x | b + HEADER <= x < b + h.live[b] ensures m3[x] == m0[x] {
      NotCovered(h, b, x);
    }
  }

  /** The header of a live block, as the checks on a client's pointer read it. */
  lemma LiveHeader(m: seq<byte>, head: nat, h: Heap, b: nat)
    requires Holds(m, head, h) && b in h.live && WF(h)
    ensures b + HEADER <= |m| && HeaderAt(m, b).Size() == h.live[b] && HeaderAt(m, b).Alloc()
      && HeaderAt(m, b).magic == MAGIC
    ensures h.live[b] >= HEADER && h.live[b] % HEADER == 0 && b + h.live[b] <= h.end && 0 < b
  {
    hide HeaderAt, Filled, Canonical, FreesInside, LiveApart, Unmixed, Listed;
    assert LiveNode(m, b, h.live[b]);
    assert Inside(h.begin, h.end, LiveIv(h.live, b));
  }

  lemma PayloadInside(h: Heap, b: nat)
    requires WF(h) && b in h.live
    ensures h.begin <= b && b + h.live[b] <= h.end && h.live[b] >= HEADER
  {
    hide Filled, Canonical, FreesInside, LiveApart, Unmixed;
    assert Inside(h.begin, h.end, LiveIv(h.live, b));
  }

  /** A byte of a payload belongs to no header. */
  lemma PayloadKept(m: seq<byte>, m': seq<byte>, head: nat, h: Heap, b: nat, x: nat)
    requires WF(h) && Holds(m, head, h) && b in h.live && b + HEADER <= x < b + h.live[b] && h.end <= |m| && x < |m|
    requires OnlyIn(m, m', Interval(x, 1))
    ensures Holds(m', head, h)
  {
    hide WF, Listed, LiveNode, OnlyIn;
    PayloadClear(h, b, x, |m|);
    ListedFrame(m, m', head, h.frees, Interval(x, 1));
    OnlyInMeans(m, m', Interval(x, 1));
    forall a | a in h.live ensures LiveNode(m', a, h.live[a]) {
      NodeRoom(m, a, h.live[a]);
      assert Interval(a, HEADER).Disjoint(Interval(x, 1));
      LiveNodeKept(m, m', a, h.live[a]);
    }
  }

  lemma PayloadClear(h: Heap, b: nat, x: nat, limit: nat)
    requires WF(h) && b in h.live && b + HEADER <= x < b + h.live[b] && h.end <= limit
    ensures forall i :: 0 <= i < |h.frees| ==> Interval(h.frees[i].lo, HEADER).Disjoint(Interval(x, 1))
    ensures forall a :: a in h.live ==> Interval(a, HEADER).Disjoint(Interval(x, 1))
  {
    hide Filled, Canonical, Covers;
    forall i | 0 <= i < |h.frees| ensures Interval(h.frees[i].lo, HEADER).Disjoint(Interval(x, 1)) {
      assert Inside(h.begin, h.end, h.frees[i]);
      assert ClearOf(h.live, h.frees[i]);
      assert LiveIv(h.live, b).Disjoint(h.frees[i]);
    }
    forall a | a in h.live ensures Interval(a, HEADER).Disjoint(Interval(x, 1)) {
      assert Inside(h.begin, h.end, LiveIv(h.live, a));
      assert a != b ==> LiveIv(h.live, a).Disjoint(LiveIv(h.live, b));
    }
  }

  lemma LiveHeadersWithout(m: seq<byte>, live: map<nat, nat>, b: nat)
    requires LiveHeaders(m, live)
    ensures LiveHeaders(m, live - {b})
  {
  }

  /** With its allocation bit cleared, a block that was live can go into the list. */
  lemma FreeReady(m0: seq<byte>, m1: seq<byte>, head: nat, h: Heap, b: nat, limit: nat)
    requires WF(h) && Holds(m0, head, h) && b in h.live && h.end <= limit == |m0|
    requires OnlyIn(m0, m1, Interval(b, HEADER))
    ensures Canonical(h.frees) && Spaced(h.frees, limit) && Listed(m1, head, h.frees)
      && Apart(h.frees, LiveIv(h.live, b))
    ensures Holds(m1, head, h.(live := h.live - {b}))
  {
    hide WF, WithGap, Listed, LiveHeaders, OnlyIn, Spaced, Canonical, Apart;
    HeapSpaced(h, limit);
    GapFromLive(h, b);
    LiveHeadersWithout(m0, h.live, b);
    AllocKept(m0, m1, head, h.(live := h.live - {b}), LiveIv(h.live, b));
    GapApart(h.(live := h.live - {b}), LiveIv(h.live, b));
  }

  lemma GapApart(h: Heap, gap: Interval)
    requires WithGap(h, gap)
    ensures Apart(h.frees, gap)
  {
  }

  /** Freeing touches free bytes and the header of the freed block only. */
  lemma FreeHolds(m0: seq<byte>, m1: seq<byte>, m2: seq<byte>, h: Heap, b: nat)
    requires WF(h) && b in h.live && h.end <= |m0| && LiveHeaders(m0, h.live)
    requires OnlyIn(m0, m1, Interval(b, HEADER))
    requires ChangedOnly(m1, m2, h.frees, Interval(b, HEADER), Interval(b, HEADER))
    ensures LiveHeaders(m2, h.live - {b}) && Kept(m0, m2, h.live - {b})
  {
    hide WF, Covers, LiveHeaders;
    var r := Interval(b, HEADER);
    assert ChangedOnly(m0, m2, h.frees, r, r);
    hide ChangedOnly, OnlyIn;
    SameLength(m0, m2, h.frees, r, r);
    WFSeparated(h);
    FreedClear(h, b);
    hide Separated;
    LiveHeadersKept(m0, m2, h, r, r, h.live - {b});
    var live' := h.live - {b};
    forall a | a in live' ensures SameBytes(m0, m2, LiveIv(live', a)) {
      PayloadInside(h, a);
      SeparatedUnmixed(h);
      BlockKept(m0, m2, h, r, r, a);
    }
  }

  lemma SeparatedUnmixed(h: Heap)
    requires Separated(h)
    ensures Unmixed(h.live, h.frees)
  {
  }

  lemma FreedClear(h: Heap, b: nat)
    requires Separated(h) && b in h.live
    ensures forall a :: a in h.live && a != b ==> LiveIv(h.live, a).Disjoint(Interval(b, HEADER))
  {
    hide Canonical, FreesInside, Unmixed;
    assert Inside(h.begin, h.end, LiveIv(h.live, b));
    forall a | a in h.live && a != b ensures LiveIv(h.live, a).Disjoint(Interval(b, HEADER)) {
      assert LiveIv(h.live, a).Disjoint(LiveIv(h.live, b));
    }
  }

  /** Blocks clear of the interval that changed keep their bytes. */
  lemma KeptApart(m0: seq<byte>, m1: seq<byte>, m2: seq<byte>, live: map<nat, nat>, r: Interval)
    requires Kept(m0, m1, live) && |m2| == |m1| && ClearOf(live, r)
    requires forall x :: 0 <= x < |m1| && !r.Contains(x) ==> m2[x] == m1[x]
    ensures Kept(m0, m2, live)
  {
    forall a | a in live ensures SameBytes(m0, m2, LiveIv(live, a)) {
      var iv := LiveIv(live, a);
      assert SameBytes(m0, m1, iv);
      assert m2[iv.lo..iv.Hi()] == m1[iv.lo..iv.Hi()];
    }
  }

  lemma GapIsClear(h: Heap, gap: Interval)
    requires WithGap(h, gap)
    ensures ClearOf(h.live, gap)
  {
  }

  lemma AndHeader(m0: seq<byte>, m1: seq<byte>, m2: seq<byte>, fs: seq<Interval>, r: Interval, q: Interval)
    requires ChangedOnly(m0, m1, fs, r, q) && OnlyIn(m1, m2, r)
    ensures ChangedOnly(m0, m2, fs, r, q)
  {
    hide Covers;
  }

  /** A write to the header of the gap leaves the list and the live blocks alone. */
  lemma AllocKept(m: seq<byte>, m': seq<byte>, head: nat, h: Heap, gap: Interval)
    requires Holds(m, head, h) && WithGap(h, gap) && OnlyIn(m, m', Interval(gap.lo, HEADER)) && h.end <= |m|
    ensures Holds(m', head, h)
  {
    hide WithGap, Listed, LiveHeaders, Covers;
    var r := Interval(gap.lo, HEADER);
    GapPositive(h, gap);
    assert ChangedOnly(m, m', h.frees, r, r);
    hide ChangedOnly, OnlyIn;
    GapHeaders(h, gap, |m|);
    ListedFrame(m, m', head, h.frees, r);
    GapPieces(h, gap, r, r);
    LiveHeadersKept(m, m', h, r, r, h.live);
  }

  /** An allocation touches free bytes and the new block only. */
  lemma MallocKeeps(m0: seq<byte>, m1: seq<byte>, m2: seq<byte>, h: Heap, fs1: seq<Interval>, gap: Interval, t: nat)
    requires WF(h) && h.end <= |m0| && ClearOf(h.live, gap) && HEADER <= t <= gap.size
    requires ChangedOnly(m0, m1, h.frees, gap, gap)
    requires forall x :: Covers(fs1, x) ==> Covers(h.frees, x)
    requires ChangedOnly(m1, m2, fs1, Interval(gap.lo, HEADER), Interval(gap.lo + t, gap.size - t))
    ensures Kept(m0, m2, h.live)
  {
    hide WF, Covers, Canonical, FreesInside, LiveApart, Unmixed;
    assert ChangedOnly(m0, m2, h.frees, gap, gap);
    hide ChangedOnly;
    WFSeparated(h);
    SameLength(m0, m2, h.frees, gap, gap);
    forall a | a in h.live ensures SameBytes(m0, m2, LiveIv(h.live, a)) {
      assert Inside(h.begin, h.end, LiveIv(h.live, a));
      BlockKept(m0, m2, h, gap, gap, a);
    }
  }

  lemma HeapSpaced(h: Heap, limit: nat)
    requires WF(h) && h.end <= limit
    ensures Spaced(h.frees, limit) && Canonical(h.frees)
  {
    hide Spaced, Filled;
    GapSpaced(h, limit);
  }

  lemma FirstFitIs(fs: seq<Interval>, t: nat, i: nat)
    requires i <= |fs| && (forall j :: 0 <= j < i ==> fs[j].size < t) && (i < |fs| ==> fs[i].size >= t)
    ensures FirstFit(fs, t) == i
  {
    hide FirstFit;
    var k := FirstFit(fs, t);
    assert !(k < i) && !(i < k);
  }

  lemma ExtendHolds(m0: seq<byte>, m1: seq<byte>, head: nat, h: Heap, gap: Interval)
    requires WF(h) && WithGap(h.(end := gap.Hi()), gap) && gap.lo == h.end && gap.Hi() <= |m0|
    requires Holds(m0, head, h) && OnlyIn(m0, m1, Interval(gap.lo, HEADER))
    ensures Holds(m1, head, h.(end := gap.Hi())) && ChangedOnly(m0, m1, h.frees, gap, gap)
  {
    hide WF, WithGap, Listed, LiveHeaders, Covers;
    var h' := h.(end := gap.Hi());
    var r := Interval(gap.lo, HEADER);
    GapPositive(h', gap);
    assert ChangedOnly(m0, m1, h.frees, gap, gap);
    hide ChangedOnly, OnlyIn;
    GapHeaders(h', gap, |m0|);
    ListedFrame(m0, m1, head, h.frees, r);
    GapPieces(h', gap, gap, gap);
    LiveHeadersKept(m0, m1, h', gap, gap, h.live);
  }

  lemma ThenHeader(m0: seq<byte>, m1: seq<byte>, m2: seq<byte>, fs: seq<Interval>, h: Heap, gap: Interval)
    requires ChangedOnly(m0, m1, fs, NOGAP, NOGAP) && OnlyIn(m1, m2, Interval(gap.lo, HEADER)) && WithGap(h, gap)
    ensures ChangedOnly(m0, m2, fs, gap, gap)
  {
    hide Covers, WithGap;
    GapPositive(h, gap);
  }

  /** One link write, or a new head, takes block `i` out of the list in memory. */
  lemma UnlinkHolds(m0: seq<byte>, m1: seq<byte>, head: nat, head': nat, h: Heap, i: nat)
    requires WF(h) && h.end <= |m0| && Listed(m0, head, h.frees) && i < |h.frees|
    requires i == 0 ==> m1 == m0 && head' == Lo(h.frees, 1)
    requires i > 0 ==> head' == head && OnlyIn(m0, m1, Interval(h.frees[i - 1].lo, HEADER))
    requires i > 0 ==> Node(m1, h.frees[i - 1], Lo(h.frees, i + 1))
    ensures Listed(m1, head', Remove(h.frees, i))
  {
    hide WF, Listed, Node, OnlyIn, Spaced;
    var fs := h.frees;
    HeapSpaced(h, |m0|);
    ListedTail(m0, head, fs, i + 1);
    var tail := fs[i + 1..];
    assert Lo(tail, 0) == Lo(fs, i + 1);
    if i == 0 {
      assert Remove(fs, 0) == tail;
    } else {
      SpacedTail(fs, tail, i, |m0|);
      ListedFrame(m0, m1, Lo(fs, i + 1), tail, Interval(fs[i - 1].lo, HEADER));
      Relink(m0, m1, head, fs, i - 1, fs[i - 1], tail, |m0|);
      assert fs[..i - 1] + [fs[i - 1]] + tail == Remove(fs, i);
    }
  }

  lemma SpacedTail(fs: seq<Interval>, tail: seq<Interval>, i: nat, limit: nat)
    requires Spaced(fs, limit) && 0 < i < |fs| && tail == fs[i + 1..]
    ensures forall j :: 0 <= j < |tail| ==> Interval(tail[j].lo, HEADER).Disjoint(Interval(fs[i - 1].lo, HEADER))
    ensures Interval(fs[i].lo, HEADER).Disjoint(Interval(fs[i - 1].lo, HEADER))
  {
    forall j | 0 <= j < |tail| ensures Interval(tail[j].lo, HEADER).Disjoint(Interval(fs[i - 1].lo, HEADER)) {
      assert tail[j] == fs[i + 1 + j];
      assert fs[i - 1].Hi() <= fs[i + 1 + j].lo;
    }
    assert fs[i - 1].Hi() <= fs[i].lo;
  }

  /** Taking block `i` out leaves its own header and the live blocks alone. */
  lemma UnlinkKeeps(m0: seq<byte>, m1: seq<byte>, h: Heap, i: nat)
    requires WF(h) && h.end <= |m0| && i < |h.frees| && Node(m0, h.frees[i], Lo(h.frees, i + 1))
      && LiveHeaders(m0, h.live)
    requires i == 0 ==> m1 == m0
    requires i > 0 ==> OnlyIn(m0, m1, Interval(h.frees[i - 1].lo, HEADER))
    ensures Node(m1, h.frees[i], Lo(h.frees, i + 1)) && LiveHeaders(m1, h.live)
    ensures ChangedOnly(m0, m1, h.frees, NOGAP, NOGAP)
  {
    hide WF, Node, Spaced, Covers, LiveHeaders;
    HeapSpaced(h, |m0|);
    if i > 0 {
      SpacedTail(h.frees, h.frees[i + 1..], i, |m0|);
      NodeFrame(m0, m1, h.frees[i], Lo(h.frees, i + 1), Interval(h.frees[i - 1].lo, HEADER));
      SpacedSize(h.frees, |m0|, i - 1);
      HeaderCovered(h.frees, i - 1);
    }
    assert ChangedOnly(m0, m1, h.frees, NOGAP, NOGAP);
    hide OnlyIn, ChangedOnly;
    WFSeparated(h);
    hide Separated;
    LiveHeadersKept(m0, m1, h, NOGAP, NOGAP, h.live);
  }

  lemma WFSeparated(h: Heap)
    requires WF(h)
    ensures Separated(h)
  {
  }

  lemma NoChange(m: seq<byte>, fs: seq<Interval>, r: Interval, q: Interval)
    ensures ChangedOnly(m, m, fs, r, q)
  {
  }

  /** The header of the rest of a gap can be written without touching the list, and the list can then take it. */
  lemma SplitReady(m0: seq<byte>, m1: seq<byte>, head: nat, h: Heap, gap: Interval, size: nat, limit: nat)
    requires WithGap(h, gap) && Holds(m0, head, h) && |m0| == limit && h.end <= limit
    requires 0 < size < gap.size && size % HEADER == 0
    requires OnlyIn(m0, m1, Interval(gap.lo + size, HEADER))
    ensures var rest := Interval(gap.lo + size, gap.size - size);
      && Canonical(h.frees) && Spaced(h.frees, limit) && Listed(m1, head, h.frees) && Apart(h.frees, rest)
      && rest.size >= HEADER && rest.size % HEADER == 0 && rest.Hi() <= limit && rest.lo > 0
  {
    hide Canonical, Spaced, Listed, Apart, ClearOf, Filled, LiveHeaders, OnlyIn, Covers;
    GapPositive(h, gap);
    var rest := Interval(gap.lo + size, gap.size - size);
    PieceClear(h, gap, rest);
    GapSpaced(h, limit);
    ApartHeaders(h.frees, rest, limit);
    ListedFrame(m0, m1, head, h.frees, Interval(rest.lo, HEADER));
  }

  lemma OnlyInMeans(m: seq<byte>, m': seq<byte>, r: Interval)
    requires OnlyIn(m, m', r)
    ensures |m'| == |m| && forall x :: 0 <= x < |m| && m'[x] != m[x] ==> r.Contains(x)
  {
  }

  /** Bytes of a gap are not free. */
  lemma GapUncovered(h: Heap, gap: Interval, x: int)
    requires WithGap(h, gap) && gap.Contains(x)
    ensures !Covers(h.frees, x)
  {
    hide Separated, Filled, ClearOf, Inside;
  }

  /** Inserting the rest does not touch the header of the block itself. */
  lemma SplitKeepsHeader(m0: seq<byte>, m1: seq<byte>, m2: seq<byte>, h: Heap, gap: Interval, size: nat)
    requires WithGap(h, gap) && 0 < size < gap.size && size % HEADER == 0 && gap.lo + HEADER <= |m0|
    requires OnlyIn(m0, m1, Interval(gap.lo + size, HEADER))
    requires ChangedOnly(m1, m2, h.frees, Interval(gap.lo + size, HEADER), Interval(gap.lo + size, HEADER))
    ensures |m2| == |m0| && HeaderAt(m2, gap.lo) == HeaderAt(m0, gap.lo)
  {
    hide HeaderAt, Covers, WithGap;
    OnlyInMeans(m0, m1, Interval(gap.lo + size, HEADER));
    forall x | gap.lo <= x < gap.lo + HEADER ensures m2[x] == m0[x] {
      GapUncovered(h, gap, x);
    }
    HeaderFrame(m0, m2, gap.lo);
  }

  /** After the split, memory holds the new free list and the old live blocks. */
  lemma SplitHolds(m0: seq<byte>, m1: seq<byte>, m2: seq<byte>, m3: seq<byte>, head: nat, h: Heap, gap: Interval,
    size: nat)
    requires WithGap(h, gap) && LiveHeaders(m0, h.live) && 0 < size < gap.size && size % HEADER == 0
    requires OnlyIn(m0, m1, Interval(gap.lo + size, HEADER)) && h.end <= |m0|
    requires ChangedOnly(m1, m2, h.frees, Interval(gap.lo + size, HEADER), Interval(gap.lo + size, HEADER))
    requires OnlyIn(m2, m3, Interval(gap.lo, HEADER)) && Listed(m2, head, SplitOff(h.frees, gap, size))
    requires WithGap(h.(frees := SplitOff(h.frees, gap, size)), Interval(gap.lo, size))
    ensures Holds(m3, head, h.(frees := SplitOff(h.frees, gap, size)))
    ensures ChangedOnly(m0, m3, h.frees, Interval(gap.lo, HEADER), Interval(gap.lo + size, gap.size - size))
  {
    hide WithGap, LiveHeaders, Listed, SplitOff, Covers;
    var h' := h.(frees := SplitOff(h.frees, gap, size));
    var r, q := Interval(gap.lo, HEADER), Interval(gap.lo + size, gap.size - size);
    GapPositive(h, gap);
    assert ChangedOnly(m0, m3, h.frees, r, q);
    hide ChangedOnly, OnlyIn;
    GapHeaders(h', Interval(gap.lo, size), |m0|);
    ListedFrame(m2, m3, head, h'.frees, r);
    GapPieces(h, gap, r, q);
    LiveHeadersKept(m0, m3, h, r, q, h.live);
  }

  lemma GapHeaders(h: Heap, gap: Interval, limit: nat)
    requires WithGap(h, gap) && h.end <= limit
    ensures Spaced(h.frees, limit)
    ensures forall i :: 0 <= i < |h.frees| ==> Interval(h.frees[i].lo, HEADER).Disjoint(Interval(gap.lo, HEADER))
  {
    hide Spaced, Filled, ClearOf, Apart;
    GapPositive(h, gap);
    GapSpaced(h, limit);
    ApartHeaders(h.frees, gap, limit);
  }

  lemma GapPieces(h: Heap, gap: Interval, r: Interval, q: Interval)
    requires WithGap(h, gap) && gap.lo <= r.lo && r.Hi() <= gap.Hi() && gap.lo <= q.lo && q.Hi() <= gap.Hi()
    ensures Separated(h) && forall a :: a in h.live ==> LiveIv(h.live, a).Disjoint(r) && LiveIv(h.live, a).Disjoint(q)
  {
    PieceClear(h, gap, r);
    PieceClear(h, gap, q);
  }

  /** The header of a listed block lies inside the free bytes. */
  lemma HeaderCovered(fs: seq<Interval>, j: nat)
    requires j < |fs| && fs[j].size >= HEADER
    ensures forall x :: fs[j].lo <= x < fs[j].lo + HEADER ==> Covers(fs, x)
  {
    forall x | fs[j].lo <= x < fs[j].lo + HEADER ensures Covers(fs, x) {
      assert fs[j].Contains(x);
    }
  }

  lemma InsertChanges(m0: seq<byte>, m1: seq<byte>, m2: seq<byte>, m3: seq<byte>, fs: seq<Interval>, j: nat, b: nat)
    requires j < |fs| && fs[j].size >= HEADER
    requires ChangedOnly(m0, m1, [], Interval(b, HEADER), Interval(fs[j].lo, HEADER))
    requires OnlyIn(m1, m2, Interval(b, HEADER)) && OnlyIn(m2, m3, Interval(fs[j].lo, HEADER))
    ensures ChangedOnly(m0, m3, fs, Interval(b, HEADER), Interval(b, HEADER))
  {
    assert forall x :: !Covers([], x);
    HeaderCovered(fs, j);
    hide Covers;
  }

  lemma ApartAt(fs: seq<Interval>, iv: Interval, i: nat)
    requires Apart(fs, iv) && i < |fs|
    ensures fs[i].Disjoint(iv)
  {
  }

  lemma SpacedHead(fs: seq<Interval>, limit: nat)
    requires Spaced(fs, limit)
    ensures fs != [] ==> 0 < fs[0].lo <= limit
  {
  }

  lemma ListHead(m: seq<byte>, head: nat, fs: seq<Interval>)
    requires Listed(m, head, fs)
    ensures head == Lo(fs, 0)
  {
  }

  /** What a walk of the list finds at block `k`. */
  lemma ListNode(m: seq<byte>, head: nat, fs: seq<Interval>, limit: nat, k: nat)
    requires Listed(m, head, fs) && Spaced(fs, limit) && limit == |m| && k < |fs|
    ensures Node(m, fs[k], Lo(fs, k + 1)) && 0 < fs[k].lo && HEADER <= fs[k].size && fs[k].Hi() <= limit
    ensures fs[k].size % HEADER == 0
    ensures Lo(fs, k + 1) <= limit && (Lo(fs, k + 1) == 0 <==> k + 1 == |fs|)
    ensures k + 1 < |fs| ==> fs[k].Hi() <= fs[k + 1].lo
  {
    hide Node;
  }

  lemma ApartHeaders(fs: seq<Interval>, iv: Interval, limit: nat)
    requires Spaced(fs, limit) && Apart(fs, iv) && iv.size >= HEADER
    ensures forall i :: 0 <= i < |fs| ==> Interval(fs[i].lo, HEADER).Disjoint(Interval(iv.lo, HEADER))
  {
    forall i | 0 <= i < |fs| ensures Interval(fs[i].lo, HEADER).Disjoint(Interval(iv.lo, HEADER)) {
      assert fs[i].Disjoint(iv);
    }
  }

  lemma PutFront(m: seq<byte>, m': seq<byte>, head: nat, fs: seq<Interval>, iv: Interval)
    requires Listed(m, head, fs) && OnlyIn(m, m', Interval(iv.lo, HEADER)) && Node(m', iv, head)
    requires forall i :: 0 <= i < |fs| ==> Interval(fs[i].lo, HEADER).Disjoint(Interval(iv.lo, HEADER))
    ensures Listed(m', iv.lo, PutAt(fs, 0, iv)) && |PutAt(fs, 0, iv)| > 0 && PutAt(fs, 0, iv)[0] == iv
  {
    hide Listed, Node, OnlyIn;
    LinkFront(m, m', head, fs, iv);
    assert PutAt(fs, 0, iv) == [iv] + fs;
  }

  lemma BelongsBetween(fs: seq<Interval>, j: nat, iv: Interval)
    requires Belongs(fs, j + 1, iv)
    ensures fs[j].Hi() <= iv.lo && (j + 1 < |fs| ==> iv.Hi() <= fs[j + 1].lo)
  {
  }

  lemma PutIndex(fs: seq<Interval>, j: nat, iv: Interval)
    requires j < |fs|
    ensures |PutAt(fs, j + 1, iv)| == |fs| + 1 && PutAt(fs, j + 1, iv)[j + 1] == iv && PutAt(fs, j + 1, iv)[j] == fs[j]
  {
  }

  lemma FuseIndex(fs: seq<Interval>, k: nat, i: nat)
    requires i < k < |fs|
    ensures k < |Fuse(fs, k)| && Fuse(fs, k)[i] == fs[i]
  {
  }

  /** One header write merges block `k` with the next. */
  lemma Fused(m: seq<byte>, m': seq<byte>, head: nat, fs: seq<Interval>, k: nat, limit: nat)
    requires Listed(m, head, fs) && Spaced(fs, limit) && limit == |m| && k + 1 < |fs| && fs[k].Hi() == fs[k + 1].lo
    requires OnlyIn(m, m', Interval(fs[k].lo, HEADER))
    requires Node(m', Interval(fs[k].lo, fs[k].size + fs[k + 1].size), Lo(fs, k + 2))
    ensures Listed(m', head, Fuse(fs, k))
  {
    hide Node, OnlyIn, Listed;
    var tail := fs[k + 2..];
    ListedTail(m, head, fs, k + 2);
    ListedFrame(m, m', Lo(fs, k + 2), tail, Interval(fs[k].lo, HEADER));
    assert Lo(tail, 0) == Lo(fs, k + 2);
    Relink(m, m', head, fs, k, Interval(fs[k].lo, fs[k].size + fs[k + 1].size), tail, limit);
  }

  /** Two writes link a block in behind block `j`: its own link first, then the link of its predecessor. */
  lemma PutLinked(m0: seq<byte>, m1: seq<byte>, m2: seq<byte>, head: nat, fs: seq<Interval>, j: nat, iv: Interval,
    limit: nat)
    requires Listed(m0, head, fs) && Spaced(fs, limit) && j < |fs| && limit == |m0|
    requires Belongs(fs, j + 1, iv) && iv.size >= HEADER
    requires OnlyIn(m0, m1, Interval(iv.lo, HEADER)) && Node(m1, iv, Lo(fs, j + 1))
    requires OnlyIn(m1, m2, Interval(fs[j].lo, HEADER)) && Node(m2, fs[j], iv.lo)
    ensures Listed(m2, head, PutAt(fs, j + 1, iv))
  {
    hide Node, OnlyIn, Listed;
    var back := fs[j + 1..];
    var tail := [iv] + back;
    ListedTail(m0, head, fs, j + 1);
    BackHeaders(fs, j, iv, limit);
    LinkFront(m0, m1, Lo(fs, j + 1), back, iv);
    ListedFrame(m1, m2, iv.lo, tail, Interval(fs[j].lo, HEADER));
    ListedFrame(m0, m1, head, fs, Interval(iv.lo, HEADER));
    assert |m1| == |m0| by { OnlyInLength(m0, m1, Interval(iv.lo, HEADER)); }
    hide Spaced, Belongs;
    Relink(m1, m2, head, fs, j, fs[j], tail, limit);
    assert fs[..j] + [fs[j]] + tail == PutAt(fs, j + 1, iv);
  }

  lemma OnlyInLength(m: seq<byte>, m': seq<byte>, r: Interval)
    requires OnlyIn(m, m', r)
    ensures |m'| == |m|
  {
  }

  lemma BackHeaders(fs: seq<Interval>, j: nat, iv: Interval, limit: nat)
    requires Spaced(fs, limit) && Belongs(fs, j + 1, iv) && iv.size >= HEADER
    ensures forall i :: 0 <= i < |fs| ==> Interval(fs[i].lo, HEADER).Disjoint(Interval(iv.lo, HEADER))
    ensures var tail := [iv] + fs[j + 1..];
      forall i :: 0 <= i < |tail| ==> Interval(tail[i].lo, HEADER).Disjoint(Interval(fs[j].lo, HEADER))
  {
    var tail := [iv] + fs[j + 1..];
    assert forall i :: 0 < i < |tail| ==> tail[i] == fs[i + j];
  }
}
