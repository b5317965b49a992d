/** The kernel allocator as it works on memory: headers in band, links chased by address. */
module KernelHeap {
  import opened Intervals
  import opened HeapModel
  import opened HeapTheorems
  import opened Headers
  import opened HeapMemory

  class KHeap {
    const ram: array<byte>
    const begin: nat
    const maxEnd: nat
    var heapEnd: nat
    var freeList: nat
    var stats: Stats
    ghost var frees: seq<Interval>
    ghost var live: map<nat, nat>

    /** The heap this object stands for. */
    ghost function Abs(): Heap
      reads this
    {
      Heap(begin, heapEnd, frees, live, stats)
    }

    /** Every address fits a 32-bit word and the heap lies inside memory. */
    ghost predicate Bounded()
      reads this
    {
      ram.Length == maxEnd < WORD && heapEnd <= maxEnd
    }

    ghost predicate Valid()
      reads this, ram
    {
      Bounded() && WF(Abs()) && Holds(ram[..], freeList, Abs())
    }

    /** One block, `gap`, has been cut out: it is neither in the free list nor live. */
    ghost predicate Cut(gap: Interval)
      reads this, ram
    {
      && Bounded() && WithGap(Abs(), gap) && Holds(ram[..], freeList, Abs())
      && gap.lo + HEADER <= ram.Length
      && HeaderAt(ram[..], gap.lo).Size() == gap.size && HeaderAt(ram[..], gap.lo).magic == MAGIC
    }

    // -------------------------------------------------------------- words and headers

    function LoadWord(a: nat): (v: nat)
      requires a + 4 <= ram.Length
      reads ram
      ensures v == Word(ram[..], a)
    {
      Compose(ram[a], ram[a + 1], ram[a + 2], ram[a + 3])
    }

    method StoreWord(a: nat, v: nat)
      requires a + 4 <= ram.Length && v < WORD
      modifies ram
      ensures Word(ram[..], a) == v
      ensures OnlyIn(old(ram[..]), ram[..], Interval(a, 4))
    {
      ram[a] := v % 0x100;
      ram[a + 1] := v / 0x100 % 0x100;
      ram[a + 2] := v / 0x1_0000 % 0x100;
      ram[a + 3] := v / 0x100_0000;
      assert v / 0x1_0000 == v / 0x100 / 0x100 && v / 0x100_0000 == v / 0x1_0000 / 0x100;
    }

    function GetMeta(a: nat): (w: nat)
      requires a + HEADER <= ram.Length
      reads ram
      ensures w == HeaderAt(ram[..], a).meta && w < WORD
    {
      LoadWord(a)
    }

    function GetSize(a: nat): (n: nat)
      requires a + HEADER <= ram.Length
      reads ram
      ensures n == HeaderAt(ram[..], a).Size()
    {
      GetMeta(a) - GetMeta(a) % 16
    }

    function GetNext(a: nat): (n: nat)
      requires a + HEADER <= ram.Length
      reads ram
      ensures n == HeaderAt(ram[..], a).next
    {
      LoadWord(a + 4)
    }

    predicate IsAlloc(a: nat)
      requires a + HEADER <= ram.Length
      reads ram
      ensures IsAlloc(a) <==> HeaderAt(ram[..], a).Alloc()
    {
      GetMeta(a) % 2 == 1
    }

    predicate CheckMagic(a: nat)
      requires a + HEADER <= ram.Length
      reads ram
      ensures CheckMagic(a) <==> HeaderAt(ram[..], a).magic == MAGIC
    {
      LoadWord(a + 8) == MAGIC
    }

    method SetMeta(a: nat, v: nat)
      requires a + HEADER <= ram.Length && v < WORD
      modifies ram
      ensures HeaderAt(ram[..], a) == old(HeaderAt(ram[..], a)).(meta := v)
      ensures OnlyIn(old(ram[..]), ram[..], Interval(a, HEADER))
    {
      StoreWord(a, v);
    }

    method SetNext(a: nat, next: nat)
      requires a + HEADER <= ram.Length && next < WORD
      modifies ram
      ensures HeaderAt(ram[..], a) == old(HeaderAt(ram[..], a)).(next := next)
      ensures OnlyIn(old(ram[..]), ram[..], Interval(a, HEADER))
    {
      StoreWord(a + 4, next);
    }

    method SetMagic(a: nat)
      requires a + HEADER <= ram.Length
      modifies ram
      ensures HeaderAt(ram[..], a) == old(HeaderAt(ram[..], a)).(magic := MAGIC)
      ensures OnlyIn(old(ram[..]), ram[..], Interval(a, HEADER))
    {
      StoreWord(a + 8, MAGIC);
    }

    method SetSize(a: nat, size: nat)
      requires a + HEADER <= ram.Length && size % HEADER == 0 && size < WORD
      modifies ram
      ensures HeaderAt(ram[..], a) == old(HeaderAt(ram[..], a)).(meta := size + old(HeaderAt(ram[..], a)).Flags())
      ensures HeaderAt(ram[..], a).Size() == size
      ensures HeaderAt(ram[..], a).Alloc() == old(HeaderAt(ram[..], a)).Alloc()
      ensures OnlyIn(old(ram[..]), ram[..], Interval(a, HEADER))
    {
      hide HeaderAt, OnlyIn;
      MetaBits(GetMeta(a), size);
      SetMeta(a, size + GetMeta(a) % 16);
    }

    method SetAlloc(a: nat, alloc: bool)
      requires a + HEADER <= ram.Length
      modifies ram
      ensures HeaderAt(ram[..], a).Alloc() == alloc
      ensures HeaderAt(ram[..], a).Size() == old(HeaderAt(ram[..], a)).Size()
      ensures HeaderAt(ram[..], a).next == old(HeaderAt(ram[..], a)).next
      ensures HeaderAt(ram[..], a).magic == old(HeaderAt(ram[..], a)).magic
      ensures OnlyIn(old(ram[..]), ram[..], Interval(a, HEADER))
    {
      hide HeaderAt, OnlyIn;
      var w := GetMeta(a);
      FlagBits(w);
      SetMeta(a, w - w % 2 + (if alloc then 1 else 0));
    }

    /** Initialise a header over whatever bytes were there: only the size, the allocation bit and the magic are set. */
    method InitBlock(a: nat, size: nat)
      requires a + HEADER <= ram.Length && size % HEADER == 0 && size < WORD
      modifies ram
      ensures HeaderAt(ram[..], a).Size() == size && !HeaderAt(ram[..], a).Alloc()
      ensures HeaderAt(ram[..], a).magic == MAGIC
      ensures OnlyIn(old(ram[..]), ram[..], Interval(a, HEADER))
    {
      hide HeaderAt;
      SetSize(a, size);
      SetAlloc(a, false);
      SetMagic(a);
    }

    // -------------------------------------------------------------- the free list

    /** Merge a listed block with the next one when they touch. */
    method KmCoalesce(a: nat, ghost fs: seq<Interval>, ghost k: nat)
      requires ram.Length < WORD && Spaced(fs, ram.Length) && Listed(ram[..], freeList, fs)
      requires k < |fs| && fs[k].lo == a
      modifies ram
      ensures Listed(ram[..], freeList, Fuse(fs, k))
      ensures OnlyIn(old(ram[..]), ram[..], Interval(a, HEADER))
    {
      hide HeaderAt, Listed, Spaced, GetSize, GetNext;
      ghost var m0 := ram[..];
      ListNode(m0, freeList, fs, ram.Length, k);
      var next := GetNext(a);
      if next != 0 && a + GetSize(a) == next {
        ListNode(m0, freeList, fs, ram.Length, k + 1);
        var size, behind := GetSize(a) + GetSize(next), GetNext(next);
        SetSize(a, size);
        SetNext(a, behind);
        Fused(m0, ram[..], freeList, fs, k, ram.Length);
      }
    }

    /** Put a block into the free list, which stays sorted, and merge it with its neighbours. */
    method KmInsert(b: nat, ghost iv: Interval)
      requires b != 0 ==> InsertReady(b, iv)
      modifies ram, this`freeList, this`frees
      ensures b == 0 ==> unchanged(this) && ram[..] == old(ram[..])
      ensures b != 0 ==> frees == Insert(old(frees), iv) && Listed(ram[..], freeList, frees)
      ensures b != 0 ==> ChangedOnly(old(ram[..]), ram[..], old(frees), Interval(b, HEADER), Interval(b, HEADER))
    {
      hide HeaderAt, Listed, Spaced, Canonical, Apart, Insert, GetSize, GetNext, Node, ChangedOnly;
      if b == 0 {
        return;
      }
      ListHead(ram[..], freeList, frees);
      if freeList == 0 || b < freeList {
        InsertFront(b, iv);
        return;
      }
      var prev := freeList;
      ghost var j := 0;
      ListStep(0);
      ApartAt(frees, iv, 0);
      var next := GetNext(prev);
      while next != 0 && next < b
        invariant j < |frees| && prev == frees[j].lo < b && next == Lo(frees, j + 1)
        invariant next != 0 ==> j + 1 < |frees|
        invariant ram[..] == old(ram[..])
        decreases |frees| - j
        modifies {}
      {
        j := j + 1;
        ListStep(j);
        prev := next;
        next := GetNext(next);
      }
      InsertBehind(b, iv, j, prev, next);
    }

    /** What the walk finds at block `k` of the list. */
    lemma ListStep(k: nat)
      requires Spaced(frees, ram.Length) && Listed(ram[..], freeList, frees) && k < |frees|
      ensures 0 < frees[k].lo && frees[k].lo + HEADER <= ram.Length && GetNext(frees[k].lo) == Lo(frees, k + 1)
      ensures GetSize(frees[k].lo) == frees[k].size >= HEADER
      ensures Lo(frees, k + 1) <= ram.Length && (Lo(frees, k + 1) == 0 <==> k + 1 == |frees|)
    {
      hide HeaderAt, Listed, Spaced, GetSize, GetNext;
      ListNode(ram[..], freeList, frees, ram.Length, k);
    }

    method InsertFront(b: nat, ghost iv: Interval)
      requires InsertReady(b, iv) && (freeList == 0 || b < freeList)
      modifies ram, this`freeList, this`frees
      ensures frees == Insert(old(frees), iv) && Listed(ram[..], freeList, frees)
      ensures ChangedOnly(old(ram[..]), ram[..], old(frees), Interval(b, HEADER), Interval(b, HEADER))
    {
      hide HeaderAt, Listed, Spaced, Canonical, Apart, Covers, Insert, Fuse, PutAt, Belongs;
      ghost var m0, fs := ram[..], frees;
      ListHead(m0, freeList, fs);
      SpacedHead(fs, ram.Length);
      SetNext(b, freeList);
      ApartHeaders(fs, iv, ram.Length);
      BelongsAt(fs, 0, iv);
      PutFront(m0, ram[..], freeList, fs, iv);
      freeList := b;
      SpacedPut(fs, 0, iv, ram.Length);
      KmCoalesce(b, PutAt(fs, 0, iv), 0);
      FuseFront(fs, iv);
      frees := Insert(fs, iv);
    }

    method InsertBehind(b: nat, ghost iv: Interval, ghost j: nat, prev: nat, next: nat)
      requires InsertReady(b, iv) && j < |frees| && prev == frees[j].lo < b && next == Lo(frees, j + 1)
      requires next == 0 || b <= next
      modifies ram, this`freeList, this`frees
      ensures frees == Insert(old(frees), iv) && Listed(ram[..], freeList, frees)
      ensures ChangedOnly(old(ram[..]), ram[..], old(frees), Interval(b, HEADER), Interval(b, HEADER))
    {
      hide HeaderAt, Listed, Spaced, Canonical, Apart, Covers, Insert, Fuse, PutAt, Belongs, GetSize, GetNext, OnlyIn,
        ChangedOnly;
      ghost var m0, fs := ram[..], frees;
      ListNode(m0, freeList, fs, ram.Length, j);
      BelongsAt(fs, j + 1, iv);
      BelongsBetween(fs, j, iv);
      assert GetNext(prev) == next;
      assert prev + GetSize(prev) <= b;
      assert next == 0 || b + GetSize(b) <= next;
      LinkBetween(b, iv, j, prev, next);
      ghost var m1 := ram[..];
      ghost var ps := PutAt(fs, j + 1, iv);
      SpacedPut(fs, j + 1, iv, ram.Length);
      PutIndex(fs, j, iv);
      KmCoalesce(b, ps, j + 1);
      ghost var m2 := ram[..];
      SpacedFuse(ps, j + 1, ram.Length);
      FuseMiddle(fs, j + 1, iv);
      FuseIndex(ps, j + 1, j);
      KmCoalesce(prev, Fuse(ps, j + 1), j);
      frees := Insert(fs, iv);
      InsertChanges(m0, m1, m2, ram[..], fs, j, b);
    }

    /** The two link writes of an insertion behind block `j`. */
    method LinkBetween(b: nat, ghost iv: Interval, ghost j: nat, prev: nat, next: nat)
      requires InsertReady(b, iv) && j < |frees| && prev == frees[j].lo && next == Lo(frees, j + 1)
      requires Belongs(frees, j + 1, iv) && frees[j].Hi() <= b && (next != 0 ==> iv.Hi() <= next)
      modifies ram
      ensures Listed(ram[..], freeList, PutAt(frees, j + 1, iv))
      ensures ChangedOnly(old(ram[..]), ram[..], [], Interval(b, HEADER), Interval(prev, HEADER))
    {
      hide HeaderAt, Listed, Spaced, Canonical, Apart, Covers, PutAt, Belongs;
      ghost var m0 := ram[..];
      ListNode(m0, freeList, frees, ram.Length, j);
      SetNext(b, next);
      ghost var m1 := ram[..];
      NodeFrame(m0, m1, frees[j], Lo(frees, j + 1), Interval(b, HEADER));
      SetNext(prev, b);
      PutLinked(m0, m1, ram[..], freeList, frees, j, iv, ram.Length);
    }

    ghost predicate InsertReady(b: nat, iv: Interval)
      reads this, ram
    {
      && ram.Length < WORD && Canonical(frees) && Spaced(frees, ram.Length) && Listed(ram[..], freeList, frees)
      && iv.lo == b > 0 && iv.size >= HEADER && iv.size % HEADER == 0 && iv.Hi() <= ram.Length && Apart(frees, iv)
      && Node(ram[..], iv, HeaderAt(ram[..], b).next)
    }

    // -------------------------------------------------------------- splitting

    /** Keep the first `size` bytes of the cut-out block and give the rest back to the free list. */
    method KmSplit(b: nat, size: nat, ghost gap: Interval)
      requires Cut(gap) && gap.lo == b && 0 < size <= gap.size && size % HEADER == 0
      modifies ram, this`freeList, this`frees
      ensures frees == SplitOff(old(frees), gap, size) && Cut(Interval(b, size))
      ensures HeaderAt(ram[..], b).Alloc() == old(HeaderAt(ram[..], b)).Alloc()
      ensures ChangedOnly(old(ram[..]), ram[..], old(frees), Interval(b, HEADER), Interval(b + size, gap.size - size))
    {
      hide HeaderAt, GetSize, Listed, LiveHeaders, WithGap, ChangedOnly, OnlyIn, Insert, Covers, Canonical, Spaced,
        Apart;
      GapPositive(Abs(), gap);
      if GetSize(b) < size + 16 {
        assert size == gap.size;
        NoChange(ram[..], frees, Interval(b, HEADER), Interval(b + size, gap.size - size));
        return;
      }
      ghost var rest := Interval(b + size, gap.size - size);
      ghost var m0, h0 := ram[..], Abs();
      var splitBlock := b + size;
      InitBlock(splitBlock, GetSize(b) - size);
      ghost var m1 := ram[..];
      SplitReady(m0, m1, freeList, h0, gap, size, ram.Length);
      KmInsert(splitBlock, rest);
      ghost var m2 := ram[..];
      SplitKeepsHeader(m0, m1, m2, h0, gap, size);
      SetSize(b, size);
      GapSplit(h0, gap, size);
      SplitHolds(m0, m1, m2, ram[..], freeList, h0, gap, size);
    }

    // -------------------------------------------------------------- finding a block

    /** Grow the heap by whole pages, in the 32-bit arithmetic of the code; `ok` is false when the new end passes the
        limit and the kernel halts. A new end that wraps passes the test, and then the header must lie in memory. */
    method KmExtend(size: nat) returns (ok: bool, block: nat)
      requires Bounded() && ((heapEnd + AlignUp(size, PAGE)) % WORD <= maxEnd ==> heapEnd + HEADER <= ram.Length)
      modifies ram, this`heapEnd
      ensures block == old(heapEnd) && heapEnd == (old(heapEnd) + AlignUp(size, PAGE)) % WORD
      ensures ok <==> heapEnd <= maxEnd
      ensures !ok ==> ram[..] == old(ram[..])
      ensures ok ==> HeaderAt(ram[..], block).Size() == AlignUp(size, PAGE) && HeaderAt(ram[..], block).magic == MAGIC
      ensures ok ==> !HeaderAt(ram[..], block).Alloc() && OnlyIn(old(ram[..]), ram[..], Interval(block, HEADER))
    {
      hide HeaderAt, OnlyIn, AlignUp;
      PagesAligned(size);
      var blockSize := AlignUp(size, PAGE);
      block := heapEnd;
      heapEnd := (heapEnd + blockSize) % WORD;
      if heapEnd > maxEnd {
        ok := false;
        return;
      }
      InitBlock(block, blockSize);
      ok := true;
    }

    /** A new block behind the heap, when no free one is large enough. */
    method Extension(size: nat) returns (ok: bool, cur: nat, ghost gap: Interval)
      requires Valid() && size > 0 && size % HEADER == 0 && heapEnd + RoundUp(size, PAGE) < WORD
      modifies ram, this`heapEnd
      ensures gap == Interval(old(heapEnd), RoundUp(size, PAGE)) && heapEnd == old(heapEnd) + RoundUp(size, PAGE)
      ensures (ok <==> heapEnd <= maxEnd) && gap.lo == cur
      ensures ok ==> Cut(gap) && !HeaderAt(ram[..], cur).Alloc()
      ensures ok ==> ChangedOnly(old(ram[..]), ram[..], frees, gap, gap)
    {
      hide HeaderAt, OnlyIn, RoundUp, AlignUp, WF, WithGap, Listed, LiveHeaders, ChangedOnly, Covers;
      ghost var m0, h0 := ram[..], Abs();
      gap := Interval(heapEnd, RoundUp(size, PAGE));
      RoundFacts(size, PAGE);
      PageIsAligned(RoundUp(size, PAGE));
      GapFromGrowth(h0, RoundUp(size, PAGE));
      assert AlignUp(size, PAGE) == RoundUp(size, PAGE) >= PAGE;
      ok, cur := KmExtend(size);
      if ok { ExtendHolds(m0, ram[..], freeList, h0, gap); }
    }

    /** What becomes of a search that finds no block and extends by nothing, or past 2^32: the limit is not noticed,
        and the block handed out lies behind the end of the heap. */
    method ExtensionBeyond(size: nat) returns (ok: bool, cur: nat)
      requires Valid() && size < WORD && (size == 0 || heapEnd + RoundUp(size, PAGE) >= WORD)
      requires heapEnd + HEADER <= ram.Length
      modifies ram, this`heapEnd
      ensures ok && cur == old(heapEnd) >= heapEnd
    {
      hide HeaderAt, OnlyIn, AlignUp, RoundUp, WF, Listed, LiveHeaders;
      EndWraps(heapEnd, size);
      ok, cur := KmExtend(size);
    }

    /** The first free block of at least `size` bytes, taken out of the list, or a new one behind the heap. */
    method KmFind(size: nat) returns (ok: bool, cur: nat, ghost gap: Interval)
      requires Valid() && size % HEADER == 0
      requires FirstFit(frees, size) < |frees| || (size > 0 && heapEnd + RoundUp(size, PAGE) < WORD)
      modifies ram, this`freeList, this`frees, this`heapEnd
      ensures ok && FirstFit(old(frees), size) < |old(frees)| ==>
        && gap == old(frees)[FirstFit(old(frees), size)] && frees == Remove(old(frees), FirstFit(old(frees), size))
        && heapEnd == old(heapEnd)
      ensures FirstFit(old(frees), size) == |old(frees)| ==>
        && gap == Interval(old(heapEnd), RoundUp(size, PAGE)) && frees == old(frees)
        && heapEnd == old(heapEnd) + RoundUp(size, PAGE)
        && (ok <==> heapEnd <= maxEnd)
      ensures FirstFit(old(frees), size) < |old(frees)| ==> ok
      ensures ok ==> gap.lo == cur && Cut(gap) && !HeaderAt(ram[..], cur).Alloc()
      ensures ok ==> ChangedOnly(old(ram[..]), ram[..], old(frees), gap, gap)
      ensures ok ==> forall x :: Covers(frees, x) ==> Covers(old(frees), x)
    {
      hide HeaderAt, OnlyIn, RoundUp, WF, WithGap, Listed, LiveHeaders, Spaced, GetSize, GetNext, ChangedOnly, Covers,
        FirstFit, Remove, Canonical;
      ghost var m0, fs, h0 := ram[..], frees, Abs();
      HeapSpaced(h0, ram.Length);
      ListHead(m0, freeList, fs);
      var prev := 0;
      cur := freeList;
      ghost var i := 0;
      if |fs| > 0 { ListStep(0); }
      while cur != 0 && GetSize(cur) < size
        invariant i <= |fs| && cur == Lo(fs, i) && prev == (if i == 0 then 0 else fs[i - 1].lo)
        invariant forall j :: 0 <= j < i ==> fs[j].size < size
        invariant cur != 0 ==> i < |fs| && cur + HEADER <= ram.Length && GetSize(cur) == fs[i].size
        invariant cur == 0 ==> i == |fs|
        invariant ram[..] == m0
        decreases |fs| - i
        modifies {}
      {
        ListStep(i);
        prev := cur;
        cur := GetNext(cur);
        i := i + 1;
        if i < |fs| { ListStep(i); }
      }
      FirstFitIs(fs, size, i);
      if cur == 0 {
        ok, cur, gap := Extension(size);
        return;
      }
      gap := fs[i];
      Bypass(i, prev, cur);
      ghost var m1 := ram[..];
      SetNext(cur, 0);
      AllocKept(m1, ram[..], freeList, Abs(), gap);
      ThenHeader(m0, m1, ram[..], fs, Abs(), gap);
      ok := true;
    }

    /** Link past block `i` of the free list, whose address is `cur`. */
    method Bypass(ghost i: nat, prev: nat, cur: nat)
      requires Valid() && i < |frees| && cur == frees[i].lo && prev == (if i == 0 then 0 else frees[i - 1].lo)
      modifies ram, this`freeList, this`frees
      ensures frees == Remove(old(frees), i) && Cut(old(frees)[i]) && !HeaderAt(ram[..], cur).Alloc()
      ensures ChangedOnly(old(ram[..]), ram[..], old(frees), NOGAP, NOGAP)
      ensures forall x :: Covers(frees, x) ==> Covers(old(frees), x)
    {
      hide HeaderAt, OnlyIn, WF, WithGap, Listed, LiveHeaders, Spaced, GetSize, GetNext, ChangedOnly, Covers, Remove,
        Canonical;
      ghost var m0, fs, h0 := ram[..], frees, Abs();
      HeapSpaced(h0, ram.Length);
      GapFromFree(h0, i);
      RemoveCovers(fs, i);
      ListHead(m0, freeList, fs);
      ListNode(m0, freeList, fs, ram.Length, i);
      var next := GetNext(cur);
      if prev == 0 {
        ListNode(m0, freeList, fs, ram.Length, if i == 0 then 0 else i - 1);
        freeList := next;
      } else {
        ListNode(m0, freeList, fs, ram.Length, i - 1);
        SetNext(prev, next);
      }
      UnlinkHolds(m0, ram[..], old(freeList), freeList, h0, i);
      UnlinkKeeps(m0, ram[..], h0, i);
      frees := Remove(frees, i);
    }

    // -------------------------------------------------------------- the entry points

    /** Make the cut-out block live: the last step of every path that hands out memory. */
    ghost method Close(gap: Interval)
      requires Cut(gap) && HeaderAt(ram[..], gap.lo).Alloc()
      modifies this`live
      ensures live == old(live)[gap.lo := gap.size] && gap.lo !in old(live) && Valid()
    {
      hide HeaderAt, WithGap, Listed, WF;
      GapClosed(Abs(), gap);
      live := live[gap.lo := gap.size];
    }

    /** Split the cut-out block to `size` and mark the kept part allocated. */
    method Carve(block: nat, size: nat, ghost gap: Interval)
      requires Cut(gap) && gap.lo == block && 0 < size <= gap.size && size % HEADER == 0
      modifies ram, this`freeList, this`frees, this`live
      ensures Valid() && frees == SplitOff(old(frees), gap, size) && live == old(live)[block := size]
      ensures block + HEADER <= ram.Length && GetSize(block) == size
      ensures ChangedOnly(old(ram[..]), ram[..], old(frees), Interval(block, HEADER),
        Interval(block + size, gap.size - size))
    {
      hide HeaderAt, WithGap, Listed, LiveHeaders, WF, ChangedOnly, SplitOff, OnlyIn, GetSize;
      ghost var m0, fs0 := ram[..], frees;
      KmSplit(block, size, gap);
      ghost var m1 := ram[..];
      SetAlloc(block, true);
      AllocKept(m1, ram[..], freeList, Abs(), Interval(block, size));
      Close(Interval(block, size));
      AndHeader(m0, m1, ram[..], fs0, Interval(block, HEADER), Interval(block + size, gap.size - size));
    }

    /** Allocate; `ok` is false when the kernel halts for want of memory. */
    method KmallocUnsafe(size: nat) returns (ok: bool, ptr: nat)
      requires Valid() && Fits(Abs(), size)
      modifies this, ram
      ensures ok == Malloc(old(Abs()), maxEnd, size).Done?
      ensures ok ==> Malloc(old(Abs()), maxEnd, size) == Done(Abs(), ptr) && Valid()
      ensures ok ==> Kept(old(ram[..]), ram[..], old(live))
    {
      hide HeaderAt, Listed, LiveHeaders, WithGap, WF, Target, RoundUp, AlignUp, FirstFit, ChangedOnly, Insert, Remove,
        ClearOf, Covers, Kept;
      ghost var m0, h0 := ram[..], Abs();
      FitsFacts(h0, size);
      var targetSize := Target(size);
      var block;
      ghost var gap;
      ok, block, gap := KmFind(targetSize);
      if !ok {
        ptr := 0;
        return;
      }
      ghost var m1, fs1 := ram[..], frees;
      GapIsClear(Abs(), gap);
      Carve(block, targetSize, gap);
      MallocKeeps(m0, m1, ram[..], h0, fs1, gap, targetSize);
      CountedWF(Abs(), targetSize);
      stats := Count(stats, GetSize(block));
      ptr := block + HEADER;
    }

    /** What becomes of a request that wraps to a block of no bytes: the first free block goes back into the list, its
        size is set to zero and it is marked allocated, so that memory no longer holds any heap. */
    method KmallocOfNothing(size: nat) returns (ptr: nat)
      requires Valid() && Target(size) == 0 && frees != []
      modifies this, ram
      ensures freeList != 0 && freeList + HEADER <= ram.Length && ptr == freeList + HEADER
      ensures HeaderAt(ram[..], freeList).Alloc() && HeaderAt(ram[..], freeList).Size() == 0
      ensures forall h :: !Holds(ram[..], freeList, h)
    {
      hide HeaderAt, GetSize, Listed, LiveHeaders, WithGap, WF, ChangedOnly, OnlyIn, Insert, Covers, Canonical, Spaced,
        Apart,
        Remove, Target;
      ghost var fs := frees;
      WFCanonical(Abs());
      ghost var gap;
      var ok, block;
      ok, block, gap := KmFind(0);
      GapPositive(Abs(), gap);
      ghost var m0, h0 := ram[..], Abs();
      assert GetSize(block) >= 0 + 16;
      InitBlock(block + 0, GetSize(block) - 0);
      GapReady(m0, ram[..], freeList, h0, gap, ram.Length);
      KmInsert(block + 0, gap);
      BackInFront(fs);
      HeadIs(ram[..], freeList, fs);
      SetSize(block, 0);
      SetAlloc(block, true);
      forall h ensures !Holds(ram[..], freeList, h) {
        if Holds(ram[..], freeList, h) { HeadUnallocated(ram[..], freeList, h); }
      }
      ptr := block + HEADER;
    }

    /** Clients write inside the payload of their own blocks only. */
    method StoreByte(ghost b: nat, x: nat, v: byte)
      requires Valid() && b in live && b + HEADER <= x < b + live[b]
      modifies ram
      ensures Valid() && x < ram.Length && ram[..] == old(ram[..])[x := v]
    {
      hide WF, Listed, LiveHeaders;
      PayloadInside(Abs(), b);
      ghost var m0 := ram[..];
      ram[x] := v;
      assert ram[..] == m0[x := v];
      PayloadKept(m0, ram[..], freeList, Abs(), b, x);
    }

    /** Free; NULL is ignored. */
    method KfreeUnsafe(ptr: nat)
      requires Valid() && (ptr == 0 || Owned(Abs(), ptr))
      modifies this, ram
      ensures Valid() && FreedTo(old(Abs()), old(ram[..]), ptr, Abs(), ram[..])
    {
      hide HeaderAt, WF, WithGap, Listed, LiveHeaders, Kept, Insert, GetSize, IsAlloc, CheckMagic, OnlyIn, ChangedOnly,
        Canonical, Spaced, Apart, Covers;
      if ptr == 0 {
        return;
      }
      var block := ptr - HEADER;
      ghost var m0, h0 := ram[..], Abs();
      LiveHeader(m0, freeList, h0, block);
      assert CheckMagic(block);
      assert IsAlloc(block);
      ghost var gap := LiveIv(live, block);
      GapFromLive(h0, block);
      FreeBytes(h0, block);
      stats := Uncount(stats, GetSize(block));
      SetAlloc(block, false);
      live := live - {block};
      ghost var m1 := ram[..];
      FreeReady(m0, m1, freeList, h0, block, ram.Length);
      KmInsert(block, gap);
      FreeHolds(m0, m1, ram[..], h0, block);
    }

    /** Allocate and zero `nelems * elemsize` bytes; the product wraps as 32-bit arithmetic does. */
    method KcallocUnsafe(nelems: nat, elemsize: nat) returns (ok: bool, ptr: nat)
      requires Valid() && Fits(Abs(), nelems * elemsize % WORD) && nelems * elemsize % WORD + HEADER + 15 < WORD
      modifies this, ram
      ensures ok == Malloc(old(Abs()), maxEnd, nelems * elemsize % WORD).Done?
      ensures ok ==> Malloc(old(Abs()), maxEnd, nelems * elemsize % WORD) == Done(Abs(), ptr) && Valid()
      ensures ok ==> ptr + nelems * elemsize % WORD <= ram.Length
      ensures ok ==> forall i :: ptr <= i < ptr + nelems * elemsize % WORD ==> ram[i] == 0
      ensures ok ==> Kept(old(ram[..]), ram[..], old(live))
    {
      hide WF, Holds, Fits, Malloc, Kept, Target;
      var bytes := nelems * elemsize % WORD;
      ghost var m0, h0 := ram[..], Abs();
      ok, ptr := KmallocUnsafe(bytes);
      if !ok {
        return;
      }
      ghost var m1 := ram[..];
      ghost var b := MallocPtr(h0, maxEnd, bytes);
      MallocBlock(h0, maxEnd, bytes, Abs(), b);
      PayloadInside(Abs(), b);
      for i := 0 to bytes
        invariant Valid() && ok && Malloc(h0, maxEnd, bytes) == Done(Abs(), ptr)
        invariant forall j :: ptr <= j < ptr + i ==> ram[j] == 0
        invariant forall x :: 0 <= x < ram.Length && !(ptr <= x < ptr + i) ==> ram[x] == m1[x]
      {
        StoreByte(b, ptr + i, 0);
      }
      KeptApart(m0, m1, ram[..], h0.live, Interval(b, Target(bytes)));
    }

    /** Resize a block that is still marked allocated to the first `size` bytes of `gap`. */
    method Resize(block: nat, size: nat, ghost gap: Interval)
      requires Cut(gap) && gap.lo == block && 0 < size <= gap.size && size % HEADER == 0
        && HeaderAt(ram[..], block).Alloc()
      modifies ram, this`freeList, this`frees, this`live
      ensures Valid() && frees == SplitOff(old(frees), gap, size) && live == old(live)[block := size]
      ensures ChangedOnly(old(ram[..]), ram[..], old(frees), Interval(block, HEADER),
        Interval(block + size, gap.size - size))
    {
      hide HeaderAt, WithGap, Holds, WF, ChangedOnly, SplitOff;
      KmSplit(block, size, gap);
      Close(Interval(block, size));
    }

    /** The block is large enough: keep its first bytes. */
    method ReallocShrink(block: nat, size: nat)
      requires Valid() && block in live && 0 < size <= live[block] && size % HEADER == 0
      modifies ram, this`freeList, this`frees, this`live
      ensures Valid() && Abs() == Take(old(Abs()), LiveIv(old(live), block), size)
      ensures Kept(old(ram[..]), ram[..], old(live) - {block})
      ensures HEADER <= size && SameBytes(old(ram[..]), ram[..], Interval(block + HEADER, size - HEADER))
    {
      hide HeaderAt, WithGap, Listed, LiveHeaders, WF, ChangedOnly, SplitOff, Kept, SameBytes;
      ghost var m0, h0, gap := ram[..], Abs(), LiveIv(live, block);
      LiveHeader(m0, freeList, h0, block);
      GapFromLive(h0, block);
      LiveHeadersWithout(m0, live, block);
      live := live - {block};
      Resize(block, size, gap);
      assert live == h0.live[block := size];
      ResizeKeeps(m0, ram[..], h0.(live := h0.live - {block}), gap, h0.live[block], size);
    }

    /** The block and the free block `i` right behind it are large enough together. */
    method ReallocAbsorb(block: nat, size: nat, ghost i: nat)
      requires Valid() && block in live && live[block] < size && size % HEADER == 0
      requires i < |frees| && frees[i].lo == block + live[block] && size <= live[block] + frees[i].size
      modifies ram, this`freeList, this`frees, this`live
      ensures Valid()
      ensures Abs() == Take(old(Abs()).(frees := Remove(old(frees), i)),
        Interval(block, old(live)[block] + old(frees)[i].size), size)
      ensures Kept(old(ram[..]), ram[..], old(live) - {block})
      ensures old(live)[block] >= HEADER
        && SameBytes(old(ram[..]), ram[..], Interval(block + HEADER, old(live)[block] - HEADER))
    {
      hide HeaderAt, WithGap, Listed, LiveHeaders, WF, ChangedOnly, SplitOff, Kept, SameBytes, GetSize, GetNext,
        CheckMagic,
        Spaced, Canonical, Remove, Covers, OnlyIn;
      ghost var m0, h0 := ram[..], Abs();
      ghost var n, gap := live[block], Interval(block, live[block] + frees[i].size);
      LiveHeader(m0, freeList, h0, block);
      HeapSpaced(h0, ram.Length);
      ListHead(m0, freeList, frees);
      var nextBlock := block + GetSize(block);
      ListNode(m0, freeList, frees, ram.Length, i);
      assert CheckMagic(nextBlock);
      GapFromPair(h0, block, i);
      UnlinkNext(nextBlock, i);
      ghost var m1 := ram[..];
      AbsorbOpen(m0, m1, freeList, h0, block, i);
      live := live - {block};
      SetSize(block, GetSize(block) + GetSize(nextBlock));
      ghost var m2 := ram[..];
      AllocKept(m1, m2, freeList, Abs(), gap);
      ghost var fs2 := frees;
      Resize(block, size, gap);
      assert live == h0.live[block := size];
      AbsorbKeeps(m0, m1, m2, ram[..], h0, fs2, block, i, size);
    }

    /** Take the adjacent block out of the free list, as its head or behind the block that links to it. */
    method UnlinkNext(nextBlock: nat, ghost i: nat)
      requires Valid() && i < |frees| && nextBlock == frees[i].lo
      modifies ram, this`freeList, this`frees
      ensures frees == Remove(old(frees), i) && Cut(old(frees)[i]) && !HeaderAt(ram[..], nextBlock).Alloc()
      ensures ChangedOnly(old(ram[..]), ram[..], old(frees), NOGAP, NOGAP)
      ensures forall x :: Covers(frees, x) ==> Covers(old(frees), x)
    {
      hide HeaderAt, WithGap, Listed, LiveHeaders, WF, ChangedOnly, Spaced, Canonical, Remove, Covers;
      HeapSpaced(Abs(), ram.Length);
      ListHead(ram[..], freeList, frees);
      var prev := 0;
      if freeList != nextBlock {
        prev := FindLink(nextBlock, i);
        assert prev != 0;
      } else {
        LosDistinct(frees, 0, i);
      }
      Bypass(i, prev, nextBlock);
    }

    /** The block whose link points at `target`; the search cannot run off the list. */
    method FindLink(target: nat, ghost i: nat) returns (cur: nat)
      requires Spaced(frees, ram.Length) && Canonical(frees) && Listed(ram[..], freeList, frees)
      requires i < |frees| && frees[i].lo == target && freeList != target
      ensures i > 0 && cur == frees[i - 1].lo && cur != 0
    {
      hide HeaderAt, Listed, Spaced, GetSize, GetNext;
      ListHead(ram[..], freeList, frees);
      ListStep(0);
      cur := freeList;
      ghost var j := 0;
      while cur != 0 && GetNext(cur) != target
        invariant j < i && cur == frees[j].lo && cur != 0
        invariant cur + HEADER <= ram.Length && GetNext(cur) == Lo(frees, j + 1)
        decreases i - j
      {
        j := j + 1;
        ListStep(j);
        cur := GetNext(cur);
      }
    }

    /** Allocate a new block, copy the whole old payload, free the old block. */
    method ReallocMove(ptr: nat, size: nat) returns (ok: bool, newPtr: nat)
      requires Valid() && ReallocFits(Abs(), ptr, size) && size > 0 && MustMove(Abs(), ptr, size)
      modifies this, ram
      ensures ReallocDone(old(Abs()), maxEnd, ptr, size, ok, Abs(), newPtr) && (ok ==> Valid())
      ensures ok ==> Moved(old(ram[..]), old(live), ptr, newPtr, ram[..])
    {
      hide WF, Holds, Fits, Malloc, Realloc, Kept, Target, GetSize, HeaderAt, InPlace, CopiedFrom, SameBytes, ClearOf,
        Insert;
      ghost var m0, h0 := ram[..], Abs();
      var block := ptr - HEADER;
      PayloadInside(h0, block);
      ReallocBy(h0, maxEnd, ptr, size);
      ok, newPtr := KmallocUnsafe(size);
      if !ok {
        return;
      }
      ghost var m1, h1 := ram[..], Abs();
      ghost var c := MallocPtr(h0, maxEnd, size);
      MallocBlock(h0, maxEnd, size, h1, c);
      PayloadInside(h1, c);
      LiveHeader(m1, freeList, h1, block);
      BlocksApart(h1, block, c);
      var n := GetSize(block) - HEADER;
      CopyPayload(block, c, newPtr, n);
      ghost var m2 := ram[..];
      KfreeUnsafe(ptr);
      CopyKeeps(m0, m1, m2, ram[..], h0.live, block, c, Target(size), n);
    }

    /** The byte loop of a move: the payload of `block` is copied to the start of the payload of block `c`. */
    method CopyPayload(block: nat, ghost c: nat, newPtr: nat, n: nat)
      requires Valid() && block in live && c in live && live[block] == n + HEADER <= live[c] && newPtr == c + HEADER
      requires LiveIv(live, block).Disjoint(LiveIv(live, c))
      requires block + live[block] <= ram.Length && c + live[c] <= ram.Length
      modifies ram
      ensures Valid()
      ensures forall x :: newPtr <= x < newPtr + n ==> ram[x] == old(ram[block + HEADER + (x - newPtr)])
      ensures forall x :: 0 <= x < ram.Length && !(newPtr <= x < newPtr + n) ==> ram[x] == old(ram[x])
    {
      hide WF, Holds;
      for i := 0 to n
        invariant Valid()
        invariant forall x :: newPtr <= x < newPtr + i ==> ram[x] == old(ram[block + HEADER + (x - newPtr)])
        invariant forall x :: 0 <= x < ram.Length && !(newPtr <= x < newPtr + i) ==> ram[x] == old(ram[x])
      {
        StoreByte(c, newPtr + i, ram[block + HEADER + i]);
      }
    }

    /** Reallocate; NULL allocates, size 0 frees. `ok` is false when the kernel halts for want of memory. */
    method KreallocUnsafe(ptr: nat, size: nat) returns (ok: bool, newPtr: nat)
      requires Valid() && ReallocFits(Abs(), ptr, size)
      modifies this, ram
      ensures ok == Realloc(old(Abs()), maxEnd, ptr, size).Done?
      ensures ok ==> Realloc(old(Abs()), maxEnd, ptr, size) == Done(Abs(), newPtr) && Valid()
      ensures ok && ptr == 0 ==> Kept(old(ram[..]), ram[..], old(live))
      ensures ok && ptr != 0 ==> Kept(old(ram[..]), ram[..], old(live) - {ptr - HEADER})
      ensures ok && ptr != 0 && size != 0 ==>
        KeepsPayload(old(ram[..]), ram[..], old(live)[ptr - HEADER], ptr, newPtr, size)
    {
      hide HeaderAt, WF, Listed, LiveHeaders, Kept, Target, Malloc, GetSize, IsAlloc, CheckMagic, Fits, Insert,
        SplitOff, Remove, Take, IndexAt, SameBytes, CopiedFrom, KeepsPayload;
      if ptr == 0 {
        ok, newPtr := KmallocUnsafe(size);
        return;
      } else if size == 0 {
        KfreeUnsafe(ptr);
        ok, newPtr := true, 0;
        return;
      }
      ghost var h0 := Abs();
      TargetAligned(size);
      var targetSize := Target(size);
      var block: nat := ptr - HEADER;
      ghost var n := live[block];
      LiveHasHeader(h0, block);
      LiveHeader(ram[..], freeList, h0, block);
      assert CheckMagic(block);
      assert IsAlloc(block);
      if GetSize(block) >= targetSize {
        ReallocShrink(block, targetSize);
        ok, newPtr := true, ptr;
        SameIsCopied(old(ram[..]), ram[..], ptr, targetSize - HEADER);
        PayloadKeeps(old(ram[..]), ram[..], n, ptr, newPtr, size);
        return;
      }
      var nextBlock := block + GetSize(block);
      NextHeader(ram[..], freeList, h0, block);
      if nextBlock < heapEnd && !IsAlloc(nextBlock) && GetSize(block) + GetSize(nextBlock) >= targetSize {
        ghost var i := IndexAt(frees, nextBlock);
        ReallocAbsorb(block, targetSize, i);
        ok, newPtr := true, ptr;
        SameIsCopied(old(ram[..]), ram[..], ptr, h0.live[block] - HEADER);
        PayloadKeeps(old(ram[..]), ram[..], n, ptr, newPtr, size);
        return;
      }
      ok, newPtr := ReallocMove(ptr, size);
      if ok { PayloadKeeps(old(ram[..]), ram[..], n, ptr, newPtr, size); }
    }

    /** Four free pages make the first block. */
    method FirstPages()
      requires Bounded() && 0 < begin == heapEnd && begin % PAGE == 0 && begin + 4 * PAGE <= ram.Length
      requires freeList == 0 && frees == [] && live == map[] && stats == Stats(0, 0, 0, 0)
      modifies this, ram
      ensures Valid() && Abs() == Initial(begin)
    {
      hide HeaderAt, OnlyIn, AlignUp, WF, Listed, Spaced, Canonical, Node, Insert, Apart, Holds, ChangedOnly;
      InitialRound();
      var ok, block := KmExtend(4 * PAGE);
      FirstReady(ram[..], begin);
      KmInsert(block, Interval(begin, 4 * PAGE));
      InitialWF(begin);
      FirstHolds(ram[..], freeList, begin);
    }

    /** A heap from `start` on, over whatever bytes memory held. */
    constructor (memory: array<byte>, start: nat)
      requires 0 < start && start % PAGE == 0 && start + 4 * PAGE <= memory.Length < WORD
      modifies memory
      ensures Valid() && ram == memory && Abs() == Initial(start)
    {
      ram := memory;
      begin := start;
      maxEnd := memory.Length;
      heapEnd := start;
      freeList := 0;
      stats := Stats(0, 0, 0, 0);
      frees := [];
      live := map[];
      new;
      FirstPages();
    }
  }

  lemma BackInFront(fs: seq<Interval>)
    requires Canonical(fs) && fs != []
    ensures Insert(Remove(fs, 0), fs[0]) == fs
  {
    InsertRemoved(fs, 0);
  }

  lemma HeadIs(m: seq<byte>, head: nat, fs: seq<Interval>)
    requires Listed(m, head, fs) && fs != []
    ensures head == fs[0].lo
  {
  }
}
