/** What the heap operations promise, over every heap and every run. */
module HeapTheorems {
  import opened Intervals
  import opened HeapModel

  // ---------------------------------------------------------------- opening and closing a gap

  lemma RemoveAt(fs: seq<Interval>, i: nat)
    requires i < |fs|
    ensures |Remove(fs, i)| == |fs| - 1
    ensures forall j :: 0 <= j < |fs| - 1 ==> Remove(fs, i)[j] == fs[if j < i then j else j + 1]
  {
  }

  lemma RemoveCovers(fs: seq<Interval>, i: nat)
    requires Canonical(fs) && i < |fs|
    ensures Canonical(Remove(fs, i)) && Apart(Remove(fs, i), fs[i])
    ensures forall x :: Covers(Remove(fs, i), x) <==> Covers(fs, x) && !fs[i].Contains(x)
  {
    hide Remove, Covers;
    RemoveAt(fs, i);
    forall x ensures Covers(Remove(fs, i), x) <==> Covers(fs, x) && !fs[i].Contains(x) {
      RemoveCoversAt(fs, i, x);
    }
  }

  lemma RemoveCoversAt(fs: seq<Interval>, i: nat, x: int)
    requires Canonical(fs) && i < |fs|
    ensures Covers(Remove(fs, i), x) <==> Covers(fs, x) && !fs[i].Contains(x)
  {
    hide Remove, Covers, Canonical;
    if Covers(fs, x) && !fs[i].Contains(x) { RemoveKeeps(fs, i, x); }
    if Covers(Remove(fs, i), x) { RemoveFrom(fs, i, x); }
  }

  lemma RemoveKeeps(fs: seq<Interval>, i: nat, x: int)
    requires i < |fs| && Covers(fs, x) && !fs[i].Contains(x)
    ensures Covers(Remove(fs, i), x)
  {
    hide Remove;
    RemoveAt(fs, i);
    var j :| 0 <= j < |fs| && fs[j].Contains(x);
    var l := if j < i then j else j - 1;
    assert Remove(fs, i)[l] == fs[j];
  }

  lemma RemoveFrom(fs: seq<Interval>, i: nat, x: int)
    requires Canonical(fs) && i < |fs| && Covers(Remove(fs, i), x)
    ensures Covers(fs, x) && !fs[i].Contains(x)
  {
    hide Remove;
    RemoveAt(fs, i);
    var j :| 0 <= j < |Remove(fs, i)| && Remove(fs, i)[j].Contains(x);
    var l := if j < i then j else j + 1;
    assert fs[l] == Remove(fs, i)[j] && l != i;
  }

  /** A well-formed heap with one free block taken out of the list. */
  lemma GapFromFree(h: Heap, i: nat)
    requires WF(h) && i < |h.frees|
    ensures WithGap(h.(frees := Remove(h.frees, i)), h.frees[i])
  {
    hide Covers, Canonical, LiveAt, LiveApart, LiveInside, ClearOf, Inside, Apart;
    RemoveCovers(h.frees, i);
    RemoveAt(h.frees, i);
    hide Remove;
  }

  /** A well-formed heap grown by `n` bytes. */
  lemma GapFromGrowth(h: Heap, n: nat)
    requires WF(h) && n % HEADER == 0 && n > 0
    ensures WithGap(h.(end := h.end + n), Interval(h.end, n))
  {
    hide LiveApart, Unmixed, Canonical, Covers, LiveAt;
    forall i | 0 <= i < |h.frees| ensures h.frees[i].Disjoint(Interval(h.end, n)) {
      assert Inside(h.begin, h.end, h.frees[i]);
    }
    forall a | a in h.live ensures LiveIv(h.live, a).Disjoint(Interval(h.end, n)) {
      assert Inside(h.begin, h.end, LiveIv(h.live, a));
    }
  }

  lemma LiveWithout(live: map<nat, nat>, b: nat)
    requires b in live && LiveApart(live)
    ensures LiveApart(live - {b}) && ClearOf(live - {b}, LiveIv(live, b))
    ensures forall a :: a in live && a != b ==> LiveIv(live - {b}, a) == LiveIv(live, a)
    ensures forall x :: LiveAt(live, x) <==> LiveAt(live - {b}, x) || LiveIv(live, b).Contains(x)
  {
    forall x ensures LiveAt(live, x) <==> LiveAt(live - {b}, x) || LiveIv(live, b).Contains(x) {
      if LiveAt(live, x) && !LiveIv(live, b).Contains(x) {
        var a :| a in live && LiveIv(live, a).Contains(x);
        assert LiveIv(live - {b}, a).Contains(x);
      }
      if LiveAt(live - {b}, x) {
        var a :| a in live - {b} && LiveIv(live - {b}, a).Contains(x);
        assert LiveIv(live, a).Contains(x);
      }
    }
  }

  /** A well-formed heap with one live block no longer live. */
  lemma GapFromLive(h: Heap, b: nat)
    requires WF(h) && b in h.live
    ensures WithGap(h.(live := h.live - {b}), LiveIv(h.live, b))
  {
    LiveWithout(h.live, b);
    hide LiveApart, Canonical, Covers, LiveAt;
    forall i | 0 <= i < |h.frees|
      ensures ClearOf(h.live - {b}, h.frees[i]) && h.frees[i].Disjoint(LiveIv(h.live, b))
    {
      assert ClearOf(h.live, h.frees[i]);
    }
  }

  /** A live block together with the free block right behind it. */
  lemma GapFromPair(h: Heap, b: nat, i: nat)
    requires WF(h) && b in h.live && i < |h.frees| && h.frees[i].lo == b + h.live[b]
    ensures WithGap(h.(live := h.live - {b}, frees := Remove(h.frees, i)), Interval(b, h.live[b] + h.frees[i].size))
  {
    hide LiveApart, Canonical, Covers, LiveAt, LiveInside, ClearOf, Apart, Inside, Remove;
    GapFromLive(h, b);
    RemoveCovers(h.frees, i);
    RemoveAt(h.frees, i);
    PairClear(h, b, i);
    PairApart(h, b, i);
  }

  /** The joined block is aligned, inside the heap and clear of the other live blocks. */
  lemma PairClear(h: Heap, b: nat, i: nat)
    requires WF(h) && b in h.live && i < |h.frees| && h.frees[i].lo == b + h.live[b]
    ensures var gap := Interval(b, h.live[b] + h.frees[i].size);
      Inside(h.begin, h.end, gap) && ClearOf(h.live - {b}, gap)
  {
    hide Canonical, Covers, LiveAt, Filled, Apart, ClearOf;
    var gap := Interval(b, h.live[b] + h.frees[i].size);
    assert Inside(h.begin, h.end, LiveIv(h.live, b)) && Inside(h.begin, h.end, h.frees[i]);
    JoinInside(h.begin, h.end, LiveIv(h.live, b), h.frees[i]);
    assert ClearOf(h.live, h.frees[i]);
    LiveWithout(h.live, b);
    ClearOfFewer(h.live, b, h.frees[i]);
    forall a | a in h.live - {b} ensures h.live[a] > 0 { assert Inside(h.begin, h.end, LiveIv(h.live, a)); }
    JoinClear(h.live - {b}, LiveIv(h.live, b), h.frees[i]);
  }

  lemma JoinInside(begin: nat, end: nat, a: Interval, c: Interval)
    requires Inside(begin, end, a) && Inside(begin, end, c) && c.lo == a.Hi()
    ensures Inside(begin, end, Interval(a.lo, a.size + c.size))
  {
  }

  lemma ClearOfFewer(live: map<nat, nat>, b: nat, iv: Interval)
    requires ClearOf(live, iv)
    ensures ClearOf(live - {b}, iv)
  {
    var live' := live - {b};
    forall a | a in live' ensures LiveIv(live', a).Disjoint(iv) {
      assert LiveIv(live', a) == LiveIv(live, a);
    }
  }

  /** Clear of two touching intervals is clear of their union. */
  lemma JoinClear(live: map<nat, nat>, a: Interval, c: Interval)
    requires ClearOf(live, a) && ClearOf(live, c) && c.lo == a.Hi() && forall b :: b in live ==> live[b] > 0
    ensures ClearOf(live, Interval(a.lo, a.size + c.size))
  {
    var joined := Interval(a.lo, a.size + c.size);
    forall b | b in live ensures LiveIv(live, b).Disjoint(joined) {
      assert LiveIv(live, b).Disjoint(a) && LiveIv(live, b).Disjoint(c);
    }
  }

  lemma PairApart(h: Heap, b: nat, i: nat)
    requires WF(h) && b in h.live && i < |h.frees| && h.frees[i].lo == b + h.live[b]
    ensures Apart(Remove(h.frees, i), Interval(b, h.live[b] + h.frees[i].size))
  {
    hide Covers, LiveAt, Filled, LiveApart, LiveInside, Remove;
    RemoveAt(h.frees, i);
    var r := Remove(h.frees, i);
    assert Inside(h.begin, h.end, h.frees[i]);
    forall j | 0 <= j < |r| ensures r[j].Disjoint(Interval(b, h.live[b] + h.frees[i].size)) {
      assert r[j] == h.frees[if j < i then j else j + 1];
      assert ClearOf(h.live, r[j]);
      assert LiveIv(h.live, b).Disjoint(r[j]);
    }
  }

  /** Closing the gap with a free block: the bytes of the gap join the free bytes. */
  lemma GapFreed(h: Heap, gap: Interval)
    requires WithGap(h, gap)
    ensures WF(h.(frees := Insert(h.frees, gap)))
    ensures forall x :: Covers(Insert(h.frees, gap), x) <==> Covers(h.frees, x) || gap.Contains(x)
  {
    hide Covers, LiveAt, LiveApart, LiveInside, Apart, Insert;
    InsertCanonical(h.frees, gap);
    assert OnBoundaries(h.frees) && OnBoundary(gap);
    InsertAligned(h.frees, gap);
    var fs := Insert(h.frees, gap);
    forall i | 0 <= i < |fs| ensures Inside(h.begin, h.end, fs[i]) && ClearOf(h.live, fs[i]) {
      hide ClearOf, Unmixed, Filled;
      MemberCovered(fs, i);
      assert Covers(fs, fs[i].lo) && Covers(fs, fs[i].Hi() - 1);
      CoveredInside(h, gap, fs[i].lo);
      CoveredInside(h, gap, fs[i].Hi() - 1);
      DisjointFromCovered(h, gap, fs[i]);
    }
    hide ClearOf, Inside, Canonical;
  }

  lemma MemberCovered(fs: seq<Interval>, i: nat)
    requires i < |fs|
    ensures forall x :: fs[i].Contains(x) ==> Covers(fs, x)
  {
  }

  lemma CoveredInside(h: Heap, gap: Interval, x: int)
    requires FreesInside(h.begin, h.end, h.frees) && Inside(h.begin, h.end, gap)
      && (Covers(h.frees, x) || gap.Contains(x))
    ensures h.begin <= x < h.end
  {
  }

  lemma DisjointFromCovered(h: Heap, gap: Interval, iv: Interval)
    requires Unmixed(h.live, h.frees) && LiveInside(h.begin, h.end, h.live) && ClearOf(h.live, gap) && iv.size > 0
    requires forall x :: iv.Contains(x) ==> Covers(h.frees, x) || gap.Contains(x)
    ensures ClearOf(h.live, iv)
  {
    forall a | a in h.live ensures LiveIv(h.live, a).Disjoint(iv) {
      var lv := LiveIv(h.live, a);
      assert lv.size > 0 by { assert Inside(h.begin, h.end, lv); }
      LiveNotFree(h, gap, a, if iv.lo <= lv.lo then lv.lo else iv.lo);
    }
  }

  lemma LiveNotFree(h: Heap, gap: Interval, a: nat, x: int)
    requires Unmixed(h.live, h.frees) && ClearOf(h.live, gap) && a in h.live
    ensures LiveIv(h.live, a).Contains(x) ==> !Covers(h.frees, x) && !gap.Contains(x)
  {
    forall i | 0 <= i < |h.frees| ensures LiveIv(h.live, a).Contains(x) ==> !h.frees[i].Contains(x) {
      assert ClearOf(h.live, h.frees[i]);
    }
  }

  predicate OnBoundary(iv: Interval) { iv.lo % HEADER == 0 && iv.size % HEADER == 0 }

  ghost predicate OnBoundaries(fs: seq<Interval>) {
    forall i :: 0 <= i < |fs| ==> OnBoundary(fs[i])
  }

  lemma JoinAligned(a: Interval, b: Interval)
    requires OnBoundary(a) && OnBoundary(b)
    ensures OnBoundary(Interval(a.lo, a.size + b.size))
  {
  }

  lemma {:induction false} InsertAligned(fs: seq<Interval>, iv: Interval)
    requires OnBoundary(iv) && OnBoundaries(fs)
    ensures OnBoundaries(Insert(fs, iv))
    decreases |fs|
  {
    hide OnBoundary;
    if fs != [] {
      JoinAligned(fs[0], iv);
      JoinAligned(iv, fs[0]);
      if iv.Hi() > fs[0].lo {
        InsertAligned(fs[1..], if fs[0].Hi() == iv.lo then Interval(fs[0].lo, fs[0].size + iv.size) else iv);
      }
    }
  }

  lemma LiveWith(live: map<nat, nat>, b: nat, t: nat)
    requires LiveApart(live) && b !in live && ClearOf(live, Interval(b, t))
    ensures LiveApart(live[b := t])
    ensures forall a :: a in live ==> LiveIv(live[b := t], a) == LiveIv(live, a)
    ensures forall x :: LiveAt(live[b := t], x) <==> LiveAt(live, x) || b <= x < b + t
  {
    var live' := live[b := t];
    assert LiveIv(live', b) == Interval(b, t);
    forall x ensures LiveAt(live', x) <==> LiveAt(live, x) || b <= x < b + t {
      if LiveAt(live, x) {
        var a :| a in live && LiveIv(live, a).Contains(x);
        assert LiveIv(live', a).Contains(x);
      } else if b <= x < b + t {
        assert LiveIv(live', b).Contains(x);
      }
      if LiveAt(live', x) {
        var a :| a in live' && LiveIv(live', a).Contains(x);
        assert a == b || LiveIv(live, a).Contains(x);
      }
    }
  }

  /** Part of a gap, `piece`, is as clear of the blocks as the gap is. */
  lemma PieceClear(h: Heap, gap: Interval, piece: Interval)
    requires WithGap(h, gap) && gap.lo <= piece.lo && piece.Hi() <= gap.Hi()
    ensures ClearOf(h.live, piece) && (piece.size > 0 ==> Apart(h.frees, piece))
  {
    hide LiveApart, Canonical, Covers, LiveAt, Unmixed, Filled, LiveInside, FreesInside;
  }

  lemma ClearOfWith(live: map<nat, nat>, b: nat, t: nat, iv: Interval)
    requires ClearOf(live, iv) && Interval(b, t).Disjoint(iv)
    ensures ClearOf(live[b := t], iv)
  {
    var live' := live[b := t];
    forall a | a in live' ensures LiveIv(live', a).Disjoint(iv) {
      assert a != b ==> LiveIv(live', a) == LiveIv(live, a);
    }
  }

  lemma LiveInsideWith(h: Heap, gap: Interval, t: nat)
    requires LiveInside(h.begin, h.end, h.live) && Inside(h.begin, h.end, gap) && 0 < t <= gap.size && t % HEADER == 0
    ensures LiveInside(h.begin, h.end, h.live[gap.lo := t])
    ensures t < gap.size ==> Inside(h.begin, h.end, Interval(gap.lo + t, gap.size - t))
  {
    var live' := h.live[gap.lo := t];
    assert Inside(h.begin, h.end, Interval(gap.lo, t));
    forall a | a in live' ensures Inside(h.begin, h.end, LiveIv(live', a)) {
      assert a != gap.lo ==> LiveIv(live', a) == LiveIv(h.live, a);
    }
  }

  lemma UnmixedWith(h: Heap, gap: Interval, t: nat)
    requires Unmixed(h.live, h.frees) && Apart(h.frees, gap) && t <= gap.size
    ensures Unmixed(h.live[gap.lo := t], h.frees)
  {
    forall i | 0 <= i < |h.frees| ensures ClearOf(h.live[gap.lo := t], h.frees[i]) {
      hide ClearOf;
      ClearOfWith(h.live, gap.lo, t, h.frees[i]);
    }
  }

  lemma GapNotLive(h: Heap, gap: Interval)
    requires WithGap(h, gap)
    ensures gap.lo !in h.live
  {
    hide Covers, Canonical, LiveAt, LiveApart, Unmixed, FreesInside, Filled, Apart;
    assert gap.lo in h.live ==> Inside(h.begin, h.end, LiveIv(h.live, gap.lo));
  }

  lemma FilledWith(h: Heap, gap: Interval, t: nat)
    requires Filled(h.begin, h.end, h.frees, h.live, gap) && t <= gap.size
    requires LiveApart(h.live) && gap.lo !in h.live && ClearOf(h.live, Interval(gap.lo, t))
    ensures Filled(h.begin, h.end, h.frees, h.live[gap.lo := t], Interval(gap.lo + t, gap.size - t))
    ensures t == gap.size ==> Filled(h.begin, h.end, h.frees, h.live[gap.lo := t], NOGAP)
  {
    hide Covers, LiveAt, LiveApart, ClearOf;
    LiveWith(h.live, gap.lo, t);
    forall x | h.begin <= x < h.end
      ensures Covers(h.frees, x) || LiveAt(h.live[gap.lo := t], x) || gap.lo + t <= x < gap.Hi()
    {
      assert Covers(h.frees, x) || LiveAt(h.live, x) || gap.Contains(x);
    }
  }

  /** The block of `t` bytes at the start of the gap, and what is left of the gap. */
  lemma GapUsed(h: Heap, gap: Interval, t: nat)
    requires WithGap(h, gap) && 0 < t <= gap.size && t % HEADER == 0
    ensures gap.lo !in h.live
    ensures var used := h.(live := h.live[gap.lo := t]);
      if t == gap.size then WF(used) else WithGap(used, Interval(gap.lo + t, gap.size - t))
  {
    hide LiveApart, Canonical, Covers, LiveAt, ClearOf, Unmixed, LiveInside, FreesInside, Apart, Inside, Filled;
    PieceClear(h, gap, Interval(gap.lo, t));
    PieceClear(h, gap, Interval(gap.lo + t, gap.size - t));
    GapNotLive(h, gap);
    LiveWith(h.live, gap.lo, t);
    FilledWith(h, gap, t);
    ClearOfWith(h.live, gap.lo, t, Interval(gap.lo + t, gap.size - t));
    LiveInsideWith(h, gap, t);
    UnmixedWith(h, gap, t);
  }

  /** Closing the gap with a live block of `t` bytes: the rest of the gap joins the free bytes. */
  lemma GapTaken(h: Heap, gap: Interval, t: nat)
    requires WithGap(h, gap) && 0 < t <= gap.size && t % HEADER == 0
    ensures WF(Take(h, gap, t)) && gap.lo !in h.live
    ensures forall x :: Covers(Take(h, gap, t).frees, x) <==> Covers(h.frees, x) || gap.lo + t <= x < gap.Hi()
  {
    hide WithGap, WF, Covers, Insert;
    GapUsed(h, gap, t);
    if t < gap.size {
      GapFreed(h.(live := h.live[gap.lo := t]), Interval(gap.lo + t, gap.size - t));
    }
  }

  /** Giving back all but the first `t` bytes of the gap leaves a gap of `t` bytes. */
  lemma GapSplit(h: Heap, gap: Interval, t: nat)
    requires WithGap(h, gap) && 0 < t <= gap.size && t % HEADER == 0
    ensures WithGap(h.(frees := SplitOff(h.frees, gap, t)), Interval(gap.lo, t))
  {
    hide WithGap, WF, Insert;
    if t < gap.size {
      GapTaken(h, gap, t);
      GapFromLive(Take(h, gap, t), gap.lo);
      assert h.live[gap.lo := t] - {gap.lo} == h.live;
      assert Take(h, gap, t).(live := h.live) == h.(frees := SplitOff(h.frees, gap, t));
    } else {
      assert Interval(gap.lo, t) == gap;
      assert h.(frees := SplitOff(h.frees, gap, t)) == h;
    }
  }

  /** Making the whole gap live closes it. */
  lemma GapClosed(h: Heap, gap: Interval)
    requires WithGap(h, gap)
    ensures WF(h.(live := h.live[gap.lo := gap.size])) && gap.lo !in h.live
  {
    GapPositive(h, gap);
    hide WithGap, WF, Insert;
    GapTaken(h, gap, gap.size);
    assert Take(h, gap, gap.size) == h.(live := h.live[gap.lo := gap.size]);
  }

  lemma GapPositive(h: Heap, gap: Interval)
    requires WithGap(h, gap)
    ensures 0 < h.begin <= gap.lo && gap.Hi() <= h.end && gap.size >= HEADER
    ensures gap.size % HEADER == 0 && gap.lo % HEADER == 0
  {
    hide Separated, Filled, Apart, ClearOf;
    GapBegin(h, gap);
  }

  lemma GapBegin(h: Heap, gap: Interval)
    requires WithGap(h, gap)
    ensures 0 < h.begin
  {
  }

  // ---------------------------------------------------------------- malloc

  /** `t` consecutive free bytes from `lo`. */
  ghost predicate FreeRun(h: Heap, lo: int, t: nat) {
    forall x :: lo <= x < lo + t ==> Covers(h.frees, x)
  }

  lemma FitsFacts(h: Heap, size: nat)
    requires Fits(h, size)
    ensures var t := Target(size); 0 < t && t % HEADER == 0
    ensures size + HEADER + 15 < WORD ==> size + HEADER <= Target(size) < size + 2 * HEADER
    ensures var n := RoundUp(Target(size), PAGE);
      n % PAGE == 0 && n % HEADER == 0 && Target(size) <= n < Target(size) + PAGE
    ensures FirstFit(h.frees, Target(size)) == |h.frees| ==> AlignUp(Target(size), PAGE) == RoundUp(Target(size), PAGE)
  {
    hide FirstFit, RoundUp, AlignUp, Target;
    TargetAligned(size);
    if size + HEADER + 15 < WORD { TargetFacts(size); }
    RoundFacts(Target(size), PAGE);
    PageIsAligned(RoundUp(Target(size), PAGE));
  }

  /** Every allocation keeps the heap well-formed and adds exactly one block of the target size. */
  lemma MallocBlock(h: Heap, max: nat, size: nat, h': Heap, b: nat)
    requires WF(h) && Fits(h, size) && Malloc(h, max, size) == Done(h', b + HEADER)
    ensures WF(h') && b % HEADER == 0 && b !in h.live
    ensures h'.live == h.live[b := Target(size)] && ClearOf(h.live, Interval(b, Target(size)))
    ensures size + HEADER + 15 < WORD ==> size + HEADER <= Target(size) < size + 2 * HEADER
  {
    hide WF, WithGap, RoundUp, AlignUp, Target, Insert, ClearOf, Fits;
    FitsFacts(h, size);
    var t := Target(size);
    var c := h.(stats := Count(h.stats, t));
    CountedWF(h, t);
    var i := FirstFit(h.frees, t);
    if i < |h.frees| {
      GapFromFree(c, i);
      GapBlock(c.(frees := Remove(h.frees, i)), h.frees[i], t);
      GapTaken(c.(frees := Remove(h.frees, i)), h.frees[i], t);
    } else {
      var n := RoundUp(t, PAGE);
      GapFromGrowth(c, n);
      GapBlock(c.(end := h.end + n), Interval(h.end, n), t);
      GapTaken(c.(end := h.end + n), Interval(h.end, n), t);
    }
  }

  lemma CountedWF(h: Heap, t: nat)
    requires WF(h)
    ensures WF(h.(stats := Count(h.stats, t)))
  {
    hide Canonical, FreesInside, LiveInside, LiveApart, Unmixed, Filled;
  }

  lemma GapBlock(h: Heap, gap: Interval, t: nat)
    requires WithGap(h, gap) && t <= gap.size
    ensures gap.lo % HEADER == 0 && ClearOf(h.live, Interval(gap.lo, t))
  {
    PieceClear(h, gap, Interval(gap.lo, t));
    hide ClearOf, Separated, Filled, Apart;
  }

  /** First fit: the heap keeps its size iff some run of free bytes is long enough; the lowest such run is used. */
  lemma MallocFirstFit(h: Heap, max: nat, size: nat)
    requires WF(h) && Fits(h, size)
    ensures (exists lo: nat :: FreeRun(h, lo, Target(size))) <==>
      Malloc(h, max, size).Done? && Malloc(h, max, size).heap.end == h.end
    ensures forall lo: nat :: FreeRun(h, lo, Target(size)) ==>
      Malloc(h, max, size).Done? && Malloc(h, max, size).ptr - HEADER <= lo
      && FreeRun(h, Malloc(h, max, size).ptr - HEADER, Target(size))
  {
    hide WF, RoundUp, AlignUp, Target, Insert, Fits, FreeRun;
    FitsFacts(h, size);
    var t := Target(size);
    var i := FirstFit(h.frees, t);
    if i < |h.frees| {
      FitIsRun(h, i, t);
    }
    forall lo: nat | FreeRun(h, lo, t) ensures i < |h.frees| && h.frees[i].lo <= lo {
      RunIsFit(h, lo, t);
    }
  }

  lemma FitIsRun(h: Heap, i: nat, t: nat)
    requires i < |h.frees| && h.frees[i].size >= t
    ensures FreeRun(h, h.frees[i].lo, t)
  {
    forall x | h.frees[i].lo <= x < h.frees[i].lo + t ensures Covers(h.frees, x) {
      assert h.frees[i].Contains(x);
    }
  }

  lemma RunIsFit(h: Heap, lo: nat, t: nat)
    requires WF(h) && FreeRun(h, lo, t) && t > 0
    ensures FirstFit(h.frees, t) < |h.frees| && h.frees[FirstFit(h.frees, t)].lo <= lo
  {
    hide Covers, FreesInside, LiveInside, LiveApart, Unmixed, Filled;
    var j := RunInOneInterval(h.frees, lo, t);
    var i := FirstFit(h.frees, t);
    assert i <= j;
    assert i < j ==> h.frees[i].Hi() < h.frees[j].lo;
  }

  /** Otherwise it grows by the target rounded to whole pages, and halts iff that passes the limit. */
  lemma MallocGrows(h: Heap, max: nat, size: nat)
    requires WF(h) && Fits(h, size)
    requires !exists lo: nat :: FreeRun(h, lo, Target(size))
    ensures Malloc(h, max, size).Panic? <==> h.end + RoundUp(Target(size), PAGE) > max
    ensures Malloc(h, max, size).Done? ==>
      Malloc(h, max, size).ptr == h.end + HEADER && Malloc(h, max, size).heap.end == h.end + RoundUp(Target(size), PAGE)
    ensures RoundUp(Target(size), PAGE) % PAGE == 0 && Target(size) <= RoundUp(Target(size), PAGE) < Target(size) + PAGE
  {
    hide WF, RoundUp, AlignUp, Target, Insert, Fits, FreeRun;
    FitsFacts(h, size);
    var i := FirstFit(h.frees, Target(size));
    if i < |h.frees| { FitIsRun(h, i, Target(size)); }
  }

  // ---------------------------------------------------------------- free

  lemma FreeBytes(h: Heap, b: nat)
    requires WF(h) && b in h.live
    ensures WF(Free(h, b))
    ensures forall x :: Covers(Free(h, b).frees, x) <==> Covers(h.frees, x) || LiveIv(h.live, b).Contains(x)
  {
    hide WF, WithGap, Covers, Insert;
    GapFromLive(h, b);
    GapFreed(h.(live := h.live - {b}), LiveIv(h.live, b));
    UncountedWF(h.(live := h.live - {b}, frees := Insert(h.frees, LiveIv(h.live, b))), h.live[b]);
  }

  lemma UncountedWF(h: Heap, t: nat)
    requires WF(h)
    ensures WF(h.(stats := Uncount(h.stats, t)))
  {
    hide Canonical, FreesInside, LiveInside, LiveApart, Unmixed, Filled;
  }

  /** Allocating and freeing at once restores the free list, up to the pages the heap grew by. */
  lemma FreeUndoesMalloc(h: Heap, max: nat, size: nat, h': Heap, b: nat)
    requires WF(h) && Fits(h, size) && Malloc(h, max, size) == Done(h', b + HEADER)
    ensures b in h'.live && Free(h', b).live == h.live
    ensures h'.end == h.end ==> Free(h', b).frees == h.frees
    ensures h'.end != h.end ==> Free(h', b).frees == Insert(h.frees, Interval(h.end, RoundUp(Target(size), PAGE)))
  {
    hide WithGap, WF, Covers, Canonical, RoundUp, AlignUp, Target, Insert, Fits;
    FitsFacts(h, size);
    var t := Target(size);
    var i := FirstFit(h.frees, t);
    var c := h.(stats := Count(h.stats, t));
    CountedWF(h, t);
    if i < |h.frees| {
      GapFromFree(c, i);
      FreeUndoesTake(c.(frees := Remove(h.frees, i)), h.frees[i], t);
      WFCanonical(h);
      InsertRemoved(h.frees, i);
    } else {
      var n := RoundUp(t, PAGE);
      GapFromGrowth(c, n);
      FreeUndoesTake(c.(end := h.end + n), Interval(h.end, n), t);
    }
  }

  lemma WFCanonical(h: Heap)
    requires WF(h)
    ensures Canonical(h.frees)
  {
  }

  lemma FreeUndoesTake(h: Heap, gap: Interval, t: nat)
    requires WithGap(h, gap) && 0 < t <= gap.size && t % HEADER == 0
    ensures gap.lo !in h.live && Free(Take(h, gap, t), gap.lo).frees == Insert(h.frees, gap)
    ensures Free(Take(h, gap, t), gap.lo).live == h.live
  {
    hide WithGap, WF, Covers, Canonical, Insert;
    var h' := Take(h, gap, t);
    GapTaken(h, gap, t);
    FreeBytes(h', gap.lo);
    GapFreed(h, gap);
    WFCanonical(Free(h', gap.lo));
    WFCanonical(h.(frees := Insert(h.frees, gap)));
    CanonicalUnique(Free(h', gap.lo).frees, Insert(h.frees, gap));
  }

  lemma InsertRemoved(fs: seq<Interval>, i: nat)
    requires Canonical(fs) && i < |fs|
    ensures Insert(Remove(fs, i), fs[i]) == fs
  {
    hide Canonical, Insert, Remove;
    RemoveCovers(fs, i);
    InsertCanonical(Remove(fs, i), fs[i]);
    forall x ensures Covers(Insert(Remove(fs, i), fs[i]), x) <==> Covers(fs, x) {
      assert fs[i].Contains(x) ==> Covers(fs, x);
    }
    CanonicalUnique(Insert(Remove(fs, i), fs[i]), fs);
  }

  /** Live blocks, each listed once. */
  predicate Freeable(live: map<nat, nat>, order: seq<nat>) {
    && (forall i :: 0 <= i < |order| ==> order[i] in live)
    && (forall i, j :: 0 <= i < j < |order| ==> order[i] != order[j])
  }

  /** Free the blocks of `order` one after the other. */
  function FreeAll(h: Heap, order: seq<nat>): Heap
    requires Freeable(h.live, order)
    decreases |order|
  {
    if order == [] then h else FreeAll(Free(h, order[0]), order[1..])
  }

  /** Freeing every live block, in any order, leaves one free block that covers the whole heap. */
  lemma {:induction false} FreeAllInAnyOrder(h: Heap, order: seq<nat>)
    requires WF(h) && h.begin < h.end && Freeable(h.live, order) && forall a :: a in h.live ==> a in order
    ensures FreeAll(h, order).live == map[]
    ensures FreeAll(h, order).frees == [Interval(h.begin, h.end - h.begin)]
    decreases |order|
  {
    hide WF, Insert, Freeable, FreeAll;
    FreeAllNext(h, order);
    if order == [] {
      assert h.live == map[];
      AllFree(h);
    } else {
      FirstFreed(h.live, order);
      FreeBytes(h, order[0]);
      FreeAllInAnyOrder(Free(h, order[0]), order[1..]);
    }
  }

  lemma FreeAllNext(h: Heap, order: seq<nat>)
    requires Freeable(h.live, order)
    ensures order == [] ==> FreeAll(h, order) == h
    ensures order != [] ==> order[0] in h.live && Freeable(Free(h, order[0]).live, order[1..])
    ensures order != [] ==> FreeAll(h, order) == FreeAll(Free(h, order[0]), order[1..])
  {
    hide Insert;
  }

  /** What is left to free after the first of `order`. */
  lemma FirstFreed(live: map<nat, nat>, order: seq<nat>)
    requires order != [] && Freeable(live, order) && forall a :: a in live ==> a in order
    ensures order[0] in live && Freeable(live - {order[0]}, order[1..])
    ensures forall a :: a in live - {order[0]} ==> a in order[1..]
  {
    forall a | a in live - {order[0]} ensures a in order[1..] {
      var i :| 0 <= i < |order| && order[i] == a;
      assert order[1..][i - 1] == a;
    }
  }

  /** A heap with no live block has a single free block. */
  lemma AllFree(h: Heap)
    requires WF(h) && h.begin < h.end && h.live == map[]
    ensures h.frees == [Interval(h.begin, h.end - h.begin)]
  {
    var whole := [Interval(h.begin, h.end - h.begin)];
    forall x ensures Covers(whole, x) <==> Covers(h.frees, x) {
      assert Covers(whole, x) <==> whole[0].Contains(x);
      assert !LiveAt(h.live, x);
    }
    CanonicalUnique(h.frees, whole);
  }

  // ---------------------------------------------------------------- realloc

  /** The block behind a live block is where the bytes say it is: the byte after a live block starts a block. */
  lemma NextIsBlock(h: Heap, b: nat)
    requires WF(h) && b in h.live && b + h.live[b] < h.end
    ensures b + h.live[b] in h.live || IndexAt(h.frees, b + h.live[b]) < |h.frees|
    ensures b + h.live[b] in h.live ==> IndexAt(h.frees, b + h.live[b]) == |h.frees|
  {
    var x := b + h.live[b];
    var lv := LiveIv(h.live, b);
    assert lv.Contains(x - 1);
    if Covers(h.frees, x) {
      var i :| 0 <= i < |h.frees| && h.frees[i].Contains(x);
      assert lv.Disjoint(h.frees[i]);
      assert h.frees[i].lo == x;
    } else {
      assert LiveAt(h.live, x);
      var a :| a in h.live && LiveIv(h.live, a).Contains(x);
      assert a != b && lv.Disjoint(LiveIv(h.live, a));
    }
    assert x in h.live ==> Inside(h.begin, h.end, LiveIv(h.live, x));
  }

  /** In place iff the bytes missing to the target are all free: the whole free run behind the block counts. */
  lemma InPlaceIffRunFree(h: Heap, b: nat, size: nat)
    requires WF(h) && b in h.live
    ensures InPlace(h, b, size) <==> forall x :: b + h.live[b] <= x < b + Target(size) ==> Covers(h.frees, x)
  {
    var x, t := b + h.live[b], Target(size);
    var i := IndexAt(h.frees, x);
    if h.live[b] < t {
      if InPlace(h, b, size) {
        forall y | x <= y < b + t ensures Covers(h.frees, y) { assert h.frees[i].Contains(y); }
      }
      if FreeRun(h, x, t - h.live[b]) {
        var j := RunInOneInterval(h.frees, x, t - h.live[b]);
        assert LiveIv(h.live, b).Disjoint(h.frees[j]);
        assert h.frees[j].lo == x;
        assert i == j;
      }
    }
  }

  /** Resizing a live block inside the bytes of `span`, cut out of the heap as a gap. */
  lemma Resized(h: Heap, b: nat, cut: Heap, span: Interval, t: nat)
    requires b in h.live && cut == h.(live := h.live - {b}, frees := cut.frees) && span.lo == b
    requires WithGap(cut, span) && 0 < t <= span.size && t % HEADER == 0
    ensures WF(Take(h.(frees := cut.frees), span, t))
  {
    hide WithGap, WF, Insert;
    GapTaken(cut, span, t);
    assert (h.live - {b})[b := t] == h.live[b := t];
    assert Take(cut, span, t) == Take(h.(frees := cut.frees), span, t);
  }

  /** Shrinking or growing in place keeps the heap well-formed and resizes just that block. */
  lemma ReallocInPlace(h: Heap, max: nat, ptr: nat, size: nat, r: Outcome)
    requires WF(h) && Owned(h, ptr) && size > 0 && Target(size) > 0 && InPlace(h, ptr - HEADER, size)
    requires r == Realloc(h, max, ptr, size)
    ensures r.Done? && r.ptr == ptr && WF(r.heap)
    ensures r.heap.live == h.live[ptr - HEADER := Target(size)]
  {
    hide WithGap, WF, Target, Insert, IndexAt;
    var b, t := ptr - HEADER, Target(size);
    TargetAligned(size);
    if h.live[b] >= t {
      GapFromLive(h, b);
      Resized(h, b, h.(live := h.live - {b}), LiveIv(h.live, b), t);
    } else {
      var i := IndexAt(h.frees, b + h.live[b]);
      GapFromPair(h, b, i);
      Resized(h, b, h.(live := h.live - {b}, frees := Remove(h.frees, i)), Reach(h, b), t);
    }
  }

  /** A size from 2^32 - 15 on cuts any live block down to its header, and the whole payload goes to the free list. */
  lemma ReallocTruncates(h: Heap, max: nat, ptr: nat, size: nat)
    requires WF(h) && Owned(h, ptr) && WORD - 15 <= size < WORD
    ensures ReallocFits(h, ptr, size)
    ensures var r := Realloc(h, max, ptr, size);
      r.Done? && r.ptr == ptr && r.heap.live == h.live[ptr - HEADER := HEADER]
  {
    TargetWraps(size);
    LiveHasHeader(h, ptr - HEADER);
    hide WF, Target;
    ReallocInPlace(h, max, ptr, size, Realloc(h, max, ptr, size));
  }

  lemma LiveHasHeader(h: Heap, b: nat)
    requires WF(h) && b in h.live
    ensures h.live[b] >= HEADER
  {
    assert Inside(h.begin, h.end, LiveIv(h.live, b));
  }

  /** Moving allocates a new block beside the old one, then frees the old one. */
  lemma ReallocMoves(h: Heap, max: nat, ptr: nat, size: nat, h': Heap, c: nat)
    requires WF(h) && Owned(h, ptr) && size > 0 && !InPlace(h, ptr - HEADER, size) && Fits(h, size)
    requires Realloc(h, max, ptr, size) == Done(h', c + HEADER)
    ensures WF(h') && c !in h.live
    ensures h'.live == (h.live - {ptr - HEADER})[c := Target(size)]
  {
    hide WF, Fits;
    var b := ptr - HEADER;
    assert h.live[b] < Target(size);
    hide InPlace, Target;
    var m := Malloc(h, max, size);
    assert m.Done? && m.ptr == c + HEADER;
    hide Malloc;
    MallocBlock(h, max, size, m.heap, c);
    FreeBytes(m.heap, b);
    assert h.live[c := Target(size)] - {b} == (h.live - {b})[c := Target(size)];
  }

  /** Reallocation keeps the address iff the block and the whole free run right behind it reach the target size. */
  lemma ReallocKeepsAddress(h: Heap, max: nat, ptr: nat, size: nat)
    requires WF(h) && Owned(h, ptr) && size > 0 && ReallocFits(h, ptr, size)
    ensures (Realloc(h, max, ptr, size).Done? && Realloc(h, max, ptr, size).ptr == ptr) <==>
      forall x :: ptr - HEADER + h.live[ptr - HEADER] <= x < ptr - HEADER + Target(size) ==> Covers(h.frees, x)
  {
    hide WF, Covers, Malloc;
    InPlaceIffRunFree(h, ptr - HEADER, size);
    if InPlace(h, ptr - HEADER, size) {
      ReallocInPlace(h, max, ptr, size, Realloc(h, max, ptr, size));
    } else {
      var r := Realloc(h, max, ptr, size);
      if r.Done? {
        var c := MallocPtr(h, max, size);
        ReallocMoves(h, max, ptr, size, r.heap, c);
      }
    }
  }

  // ---------------------------------------------------------------- runs

  /** One call into the allocator; a zeroing allocation is `MallocOp` of the product. */
  datatype HeapOp = MallocOp(size: nat) | ReallocOp(ptr: nat, size: nat) | FreeOp(ptr: nat)

  /** Clients pass live pointers or NULL, and requests the allocator survives. */
  predicate Legal(h: Heap, op: HeapOp) {
    match op
    case MallocOp(size) => Fits(h, size)
    case ReallocOp(ptr, size) => ReallocFits(h, ptr, size)
    case FreeOp(ptr) => ptr == 0 || Owned(h, ptr)
  }

  function Apply(h: Heap, max: nat, op: HeapOp): Outcome
    requires Legal(h, op)
  {
    match op
    case MallocOp(size) => Malloc(h, max, size)
    case ReallocOp(ptr, size) => Realloc(h, max, ptr, size)
    case FreeOp(ptr) => if ptr == 0 then Done(h, 0) else Done(Free(h, ptr - HEADER), 0)
  }

  /** The heap right after initialisation: four free pages. */
  function Initial(begin: nat): Heap {
    Heap(begin, begin + 4 * PAGE, [Interval(begin, 4 * PAGE)], map[], Stats(0, 0, 0, 0))
  }

  /** `hs` is the sequence of heaps a run of calls goes through without halting. */
  ghost predicate IsRun(max: nat, hs: seq<Heap>, ops: seq<HeapOp>) {
    && |hs| == |ops| + 1
    && 0 < hs[0].begin && hs[0].begin % PAGE == 0 && hs[0] == Initial(hs[0].begin)
    && forall i :: 0 <= i < |ops| ==> Legal(hs[i], ops[i]) && StepTo(hs[i], max, ops[i], hs[i + 1])
  }

  predicate StepTo(h: Heap, max: nat, op: HeapOp, h': Heap)
    requires Legal(h, op)
  {
    Apply(h, max, op).Done? && Apply(h, max, op).heap == h'
  }

  lemma MallocPtr(h: Heap, max: nat, size: nat) returns (b: nat)
    requires Fits(h, size) && Malloc(h, max, size).Done?
    ensures Malloc(h, max, size).ptr == b + HEADER
  {
    b := Malloc(h, max, size).ptr - HEADER;
  }

  lemma ReallocKeepsWF(h: Heap, max: nat, ptr: nat, size: nat)
    requires WF(h) && ReallocFits(h, ptr, size) && Realloc(h, max, ptr, size).Done?
    ensures WF(Realloc(h, max, ptr, size).heap)
  {
    hide WF, Fits, Malloc, Target, InPlace, Insert;
    var r := Realloc(h, max, ptr, size);
    if ptr == 0 {
      var b := MallocPtr(h, max, size);
      MallocBlock(h, max, size, r.heap, b);
    } else if size == 0 {
      FreeBytes(h, ptr - HEADER);
    } else if InPlace(h, ptr - HEADER, size) {
      ReallocInPlace(h, max, ptr, size, r);
    } else {
      ReallocMovedTo(h, max, ptr, size);
      var b := MallocPtr(h, max, size);
      ReallocMoves(h, max, ptr, size, r.heap, b);
    }
  }

  lemma ReallocMovedTo(h: Heap, max: nat, ptr: nat, size: nat)
    requires Owned(h, ptr) && size > 0 && !InPlace(h, ptr - HEADER, size) && Fits(h, size)
    requires Realloc(h, max, ptr, size).Done?
    ensures Malloc(h, max, size).Done? && ptr - HEADER in Malloc(h, max, size).heap.live
    ensures Realloc(h, max, ptr, size) == Done(Free(Malloc(h, max, size).heap, ptr - HEADER), Malloc(h, max, size).ptr)
  {
    hide Target, Insert, Fits;
  }

  lemma StepKeepsWF(h: Heap, max: nat, op: HeapOp, h': Heap)
    requires WF(h) && Legal(h, op) && StepTo(h, max, op, h')
    ensures WF(h')
  {
    hide WF, Fits, Malloc, Realloc, ReallocFits, Insert;
    match op {
      case MallocOp(size) =>
        var b := MallocPtr(h, max, size);
        MallocBlock(h, max, size, h', b);
      case FreeOp(ptr) =>
        if ptr != 0 { FreeBytes(h, ptr - HEADER); }
      case ReallocOp(ptr, size) =>
        ReallocKeepsWF(h, max, ptr, size);
    }
  }

  lemma InitialWF(begin: nat)
    requires 0 < begin && begin % PAGE == 0
    ensures WF(Initial(begin))
  {
    var h := Initial(begin);
    forall x | h.begin <= x < h.end ensures Covers(h.frees, x) { assert h.frees[0].Contains(x); }
  }

  /** Every heap of every run is tiled by its blocks and has a canonical free list. */
  lemma {:induction false} RunKeepsWF(max: nat, hs: seq<Heap>, ops: seq<HeapOp>, n: nat)
    requires IsRun(max, hs, ops) && n < |hs|
    ensures WF(hs[n])
  {
    hide WF, Legal, StepTo, Initial;
    if n == 0 {
      InitialWF(hs[0].begin);
    } else {
      RunKeepsWF(max, hs, ops, n - 1);
      assert StepTo(hs[n - 1], max, ops[n - 1], hs[n]);
      StepKeepsWF(hs[n - 1], max, ops[n - 1], hs[n]);
    }
  }
}
