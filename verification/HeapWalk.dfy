/** Walking the heap from header to header by arithmetic visits exactly its blocks. */
module HeapWalk {
  import opened Intervals
  import opened HeapModel
  import opened Headers
  import opened HeapMemory

  /** A block of the heap starts at `a`, `size` bytes long. */
  ghost predicate Block(h: Heap, a: nat, size: nat) {
    (a in h.live && h.live[a] == size) || Interval(a, size) in h.frees
  }

  ghost predicate Starts(h: Heap, a: nat) {
    exists size :: Block(h, a, size)
  }

  /** Addresses met by stepping from header to header, starting at `a`. */
  function Walk(m: seq<byte>, a: nat, end: nat): seq<nat>
    decreases end - a
  {
    if a >= end || a + HEADER > |m| || HeaderAt(m, a).Size() == 0 then []
    else [a] + Walk(m, a + HeaderAt(m, a).Size(), end)
  }

  /** Where the walk stops. */
  function WalkStop(m: seq<byte>, a: nat, end: nat): nat
    decreases end - a
  {
    if a >= end || a + HEADER > |m| || HeaderAt(m, a).Size() == 0 then a
    else WalkStop(m, a + HeaderAt(m, a).Size(), end)
  }

  lemma BlockOfByte(h: Heap, x: nat) returns (c: nat, size: nat)
    requires WF(h) && h.begin <= x < h.end
    ensures Block(h, c, size) && c <= x < c + size
  {
    hide Separated;
    if Covers(h.frees, x) {
      var i :| 0 <= i < |h.frees| && h.frees[i].Contains(x);
      c, size := h.frees[i].lo, h.frees[i].size;
      assert h.frees[i] == Interval(c, size);
    } else {
      assert LiveAt(h.live, x);
      var a :| a in h.live && LiveIv(h.live, a).Contains(x);
      c, size := a, h.live[a];
    }
  }

  lemma BlockInside(h: Heap, a: nat, size: nat)
    requires WF(h) && Block(h, a, size)
    ensures h.begin <= a && a + size <= h.end && size >= HEADER
  {
    hide Canonical, LiveApart, Unmixed, Filled;
    assert Inside(h.begin, h.end, Interval(a, size)) by {
      if Interval(a, size) in h.frees {
        var i :| 0 <= i < |h.frees| && h.frees[i] == Interval(a, size);
      } else {
        assert LiveIv(h.live, a) == Interval(a, size);
      }
    }
  }

  lemma BlocksDisjoint(h: Heap, a: nat, n: nat, b: nat, k: nat)
    requires WF(h) && Block(h, a, n) && Block(h, b, k) && a < b
    ensures a + n <= b
  {
    hide Filled;
    BlockInside(h, a, n);
    BlockInside(h, b, k);
    if Interval(a, n) in h.frees {
      var i :| 0 <= i < |h.frees| && h.frees[i] == Interval(a, n);
      if Interval(b, k) in h.frees {
        var j :| 0 <= j < |h.frees| && h.frees[j] == Interval(b, k);
        assert i < j || j < i;
      } else {
        assert ClearOf(h.live, h.frees[i]);
        assert LiveIv(h.live, b).Disjoint(h.frees[i]);
      }
    } else if Interval(b, k) in h.frees {
      var j :| 0 <= j < |h.frees| && h.frees[j] == Interval(b, k);
      assert ClearOf(h.live, h.frees[j]);
      assert LiveIv(h.live, a).Disjoint(h.frees[j]);
    } else {
      assert LiveIv(h.live, a).Disjoint(LiveIv(h.live, b));
    }
  }

  /** The header found at a block's address tells its size. */
  lemma BlockHeader(m: seq<byte>, head: nat, h: Heap, a: nat, size: nat)
    requires WF(h) && Holds(m, head, h) && Block(h, a, size) && h.end <= |m|
    ensures a + HEADER <= |m| && HeaderAt(m, a).Size() == size && HeaderAt(m, a).magic == MAGIC
    ensures HeaderAt(m, a).Alloc() <==> a in h.live
  {
    hide WF, HeaderAt;
    BlockInside(h, a, size);
    if a in h.live && h.live[a] == size {
      assert LiveNode(m, a, h.live[a]);
    } else {
      var i :| 0 <= i < |h.frees| && h.frees[i] == Interval(a, size);
      assert Node(m, h.frees[i], Lo(h.frees, i + 1));
      FreeNotLive(h, i);
    }
  }

  lemma FreeNotLive(h: Heap, i: nat)
    requires WF(h) && i < |h.frees|
    ensures h.frees[i].lo !in h.live
  {
    hide Filled, Canonical, LiveApart;
    assert ClearOf(h.live, h.frees[i]) && Inside(h.begin, h.end, h.frees[i]);
    assert h.frees[i].lo in h.live ==> Inside(h.begin, h.end, LiveIv(h.live, h.frees[i].lo));
  }

  /** From the start of a block, or of the heap, the walk lands exactly on the end and visits every block from there
      on. */
  lemma {:induction false} WalkFrom(m: seq<byte>, head: nat, h: Heap, a: nat)
    requires WF(h) && Holds(m, head, h) && h.end <= |m| && h.begin <= a <= h.end
    requires a < h.end ==> Starts(h, a)
    ensures WalkStop(m, a, h.end) == h.end
    ensures forall c: nat :: c in Walk(m, a, h.end) <==> a <= c && Starts(h, c)
    decreases h.end - a
  {
    hide WF, Holds, HeaderAt, Block;
    if a < h.end {
      var size :| Block(h, a, size);
      BlockHeader(m, head, h, a, size);
      BlockInside(h, a, size);
      var next := a + size;
      if next < h.end {
        var c, k := BlockOfByte(h, next);
        if c < next {
          StartNotInside(h, a, size, c, k);
        }
      }
      WalkFrom(m, head, h, next);
      forall c: nat ensures c in Walk(m, a, h.end) <==> a <= c && Starts(h, c) {
        if a < c && Starts(h, c) {
          var k :| Block(h, c, k);
          BlocksDisjoint(h, a, size, c, k);
        }
      }
    } else {
      forall c: nat | Starts(h, c) ensures c < a {
        var k :| Block(h, c, k);
        BlockInside(h, c, k);
      }
    }
  }

  /** A block that covers the byte behind block `a` does not start before that byte. */
  lemma StartNotInside(h: Heap, a: nat, n: nat, c: nat, k: nat)
    requires WF(h) && Block(h, a, n) && Block(h, c, k) && c <= a + n < c + k
    ensures c == a + n
  {
    hide WF;
    BlockInside(h, a, n);
    if c < a { BlocksDisjoint(h, c, k, a, n); }
    if a < c { BlocksDisjoint(h, a, n, c, k); }
    if a == c { SameStart(h, a, n, k); }
  }

  lemma SameStart(h: Heap, a: nat, n: nat, k: nat)
    requires WF(h) && Block(h, a, n) && Block(h, a, k)
    ensures n == k
  {
    hide Filled, LiveApart;
    forall i | 0 <= i < |h.frees| ensures h.frees[i].lo !in h.live {
      FreeNotLive(h, i);
    }
    if Interval(a, n) in h.frees {
      var i :| 0 <= i < |h.frees| && h.frees[i] == Interval(a, n);
      var j :| 0 <= j < |h.frees| && h.frees[j] == Interval(a, k);
      assert i == j || i < j || j < i;
    }
  }

  /** The headers tile the heap: the walk from its start visits exactly its blocks, live and free, and stops on its
      end. */
  lemma WalkTiles(m: seq<byte>, head: nat, h: Heap)
    requires WF(h) && Holds(m, head, h) && h.end <= |m|
    ensures WalkStop(m, h.begin, h.end) == h.end
    ensures forall c: nat :: c in Walk(m, h.begin, h.end) <==> Starts(h, c)
  {
    hide Holds, Separated;
    assert h.begin <= h.end by { WFSeparated(h); BeginBeforeEnd(h); }
    hide WF;
    if h.begin < h.end {
      var c, k := BlockOfByte(h, h.begin);
      BlockInside(h, c, k);
    }
    WalkFrom(m, head, h, h.begin);
    forall c: nat | Starts(h, c) ensures h.begin <= c {
      var size :| Block(h, c, size);
      BlockInside(h, c, size);
    }
  }

  lemma BeginBeforeEnd(h: Heap)
    requires Separated(h)
    ensures h.begin <= h.end
  {
  }
}
