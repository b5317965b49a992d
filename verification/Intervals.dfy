/** Address intervals and the canonical (sorted, maximal) form of a set of free bytes. */
module Intervals {

  /** A block of memory: `size` bytes from `lo`, header included. */
  datatype Interval = Interval(lo: nat, size: nat) {
    function Hi(): nat { lo + size }

    predicate Contains(x: int) { lo <= x < Hi() }

    predicate Disjoint(other: Interval) { Hi() <= other.lo || other.Hi() <= lo }
  }

  /** Byte `x` lies in one of the intervals. */
  ghost predicate Covers(fs: seq<Interval>, x: int) {
    exists i :: 0 <= i < |fs| && fs[i].Contains(x)
  }

  /** Sorted, disjoint and with a gap between neighbours: every interval is a maximal run. */
  ghost predicate Canonical(fs: seq<Interval>) {
    && (forall i :: 0 <= i < |fs| ==> fs[i].size > 0)
    && (forall i, j :: 0 <= i < j < |fs| ==> fs[i].Hi() < fs[j].lo)
  }

  lemma CoversHead(fs: seq<Interval>, x: int)
    requires fs != []
    ensures Covers(fs, x) <==> fs[0].Contains(x) || Covers(fs[1..], x)
  {
    if Covers(fs[1..], x) {
      var i :| 0 <= i < |fs[1..]| && fs[1..][i].Contains(x);
      assert fs[i + 1].Contains(x);
    }
    if Covers(fs, x) && !fs[0].Contains(x) {
      var i :| 0 <= i < |fs| && fs[i].Contains(x);
      assert fs[1..][i - 1].Contains(x);
    }
  }

  /** In a canonical list the first interval ends at an uncovered byte, and it starts at the least covered one. */
  lemma CanonicalEdges(fs: seq<Interval>)
    requires Canonical(fs) && fs != []
    ensures Covers(fs, fs[0].lo) && !Covers(fs, fs[0].Hi())
    ensures forall x :: Covers(fs, x) ==> fs[0].lo <= x
    ensures forall x :: fs[0].lo <= x < fs[0].Hi() ==> Covers(fs, x)
    ensures forall x :: Covers(fs[1..], x) <==> Covers(fs, x) && x >= fs[0].Hi()
  {
    assert fs[0].Contains(fs[0].lo);
    forall x ensures Covers(fs[1..], x) <==> Covers(fs, x) && x >= fs[0].Hi() {
      CoversHead(fs, x);
    }
  }

  /** A set of bytes has exactly one canonical list. */
  lemma {:induction false} CanonicalUnique(fs: seq<Interval>, gs: seq<Interval>)
    requires Canonical(fs) && Canonical(gs)
    requires forall x :: Covers(fs, x) <==> Covers(gs, x)
    ensures fs == gs
  {
    assert forall x :: !Covers([], x);
    hide Covers;
    if fs == [] {
      if gs != [] { CanonicalEdges(gs); }
    } else if gs == [] {
      CanonicalEdges(fs);
    } else {
      CanonicalEdges(fs);
      CanonicalEdges(gs);
      assert fs[0].lo == gs[0].lo;
      assert fs[0].Hi() == gs[0].Hi();
      CanonicalUnique(fs[1..], gs[1..]);
      assert fs == [fs[0]] + fs[1..] && gs == [gs[0]] + gs[1..];
    }
  }

  /** Right behind every interval of a canonical list is an uncovered byte. */
  lemma EndUncovered(fs: seq<Interval>, i: nat)
    requires Canonical(fs) && i < |fs|
    ensures !Covers(fs, fs[i].Hi())
  {
    forall j | 0 <= j < |fs| ensures !fs[j].Contains(fs[i].Hi()) {
      assert j == i || j < i || i < j;
    }
  }

  /** A contiguous run of covered bytes lies inside a single interval of a canonical list. */
  lemma RunInOneInterval(fs: seq<Interval>, lo: int, n: nat) returns (i: nat)
    requires Canonical(fs) && n > 0
    requires forall x :: lo <= x < lo + n ==> Covers(fs, x)
    ensures i < |fs| && fs[i].lo <= lo && lo + n <= fs[i].Hi()
  {
    assert Covers(fs, lo);
    i :| 0 <= i < |fs| && fs[i].Contains(lo);
    EndUncovered(fs, i);
  }

  /** Insert `iv` keeping the list canonical: merge with every neighbour it touches. */
  function Insert(fs: seq<Interval>, iv: Interval): seq<Interval> {
    if fs == [] then [iv]
    else if iv.Hi() < fs[0].lo then [iv] + fs
    else if iv.Hi() == fs[0].lo then [Interval(iv.lo, iv.size + fs[0].size)] + fs[1..]
    else if fs[0].Hi() == iv.lo then Insert(fs[1..], Interval(fs[0].lo, fs[0].size + iv.size))
    else [fs[0]] + Insert(fs[1..], iv)
  }

  /** `iv` shares no byte with the list. */
  ghost predicate Apart(fs: seq<Interval>, iv: Interval) {
    iv.size > 0 && forall i :: 0 <= i < |fs| ==> fs[i].Disjoint(iv)
  }

  /** Prepending an interval that ends before everything the list covers keeps the list canonical. */
  lemma ConsCanonical(iv: Interval, fs: seq<Interval>)
    requires Canonical(fs) && iv.size > 0
    requires forall x :: Covers(fs, x) ==> iv.Hi() < x
    ensures Canonical([iv] + fs)
    ensures forall x :: Covers([iv] + fs, x) <==> iv.Contains(x) || Covers(fs, x)
  {
    forall i | 0 <= i < |fs| ensures iv.Hi() < fs[i].lo {
      assert fs[i].Contains(fs[i].lo);
      assert Covers(fs, fs[i].lo);
    }
    assert ([iv] + fs)[1..] == fs;
    forall x ensures Covers([iv] + fs, x) <==> iv.Contains(x) || Covers(fs, x) {
      CoversHead([iv] + fs, x);
    }
  }

  /** Splitting a canonical list at its head. */
  lemma CanonicalTail(fs: seq<Interval>)
    requires Canonical(fs) && fs != []
    ensures Canonical(fs[1..])
    ensures forall x :: Covers(fs[1..], x) ==> fs[0].Hi() < x
    ensures forall x :: Covers(fs, x) <==> fs[0].Contains(x) || Covers(fs[1..], x)
  {
    forall x ensures Covers(fs, x) <==> fs[0].Contains(x) || Covers(fs[1..], x) {
      CoversHead(fs, x);
    }
  }

  /** `Insert` yields the canonical list of the old bytes together with the bytes of `iv`. */
  lemma {:induction false} InsertCanonical(fs: seq<Interval>, iv: Interval)
    requires Canonical(fs) && Apart(fs, iv)
    ensures Canonical(Insert(fs, iv))
    ensures forall x :: Covers(Insert(fs, iv), x) <==> Covers(fs, x) || iv.Contains(x)
    decreases |fs|
  {
    if fs == [] {
      ConsCanonical(iv, []);
      assert [iv] + [] == [iv];
    } else {
      CanonicalTail(fs);
      InsertTail(fs, iv);
    }
  }

  lemma ApartTail(fs: seq<Interval>, iv: Interval)
    requires Canonical(fs) && Apart(fs, iv) && fs != []
    ensures Apart(fs[1..], iv) && fs[0].Disjoint(iv) && fs[0].size > 0 && iv.size > 0
    ensures fs[0].Hi() == iv.lo ==> Apart(fs[1..], Interval(fs[0].lo, fs[0].size + iv.size))
  {
  }

  lemma InsertTail(fs: seq<Interval>, iv: Interval)
    requires Canonical(fs) && Apart(fs, iv) && fs != []
    requires Canonical(fs[1..])
    requires forall x :: Covers(fs[1..], x) ==> fs[0].Hi() < x
    requires forall x :: Covers(fs, x) <==> fs[0].Contains(x) || Covers(fs[1..], x)
    ensures Canonical(Insert(fs, iv))
    ensures forall x :: Covers(Insert(fs, iv), x) <==> Covers(fs, x) || iv.Contains(x)
    decreases |fs|, 0
  {
    hide Covers, Canonical, Apart;
    var tail := fs[1..];
    var joined := Interval(fs[0].lo, fs[0].size + iv.size);
    ApartTail(fs, iv);
    if iv.Hi() < fs[0].lo {
      ConsCanonical(iv, fs);
    } else if iv.Hi() == fs[0].lo {
      ConsCanonical(Interval(iv.lo, iv.size + fs[0].size), tail);
    } else if fs[0].Hi() == iv.lo {
      InsertCanonical(tail, joined);
    } else {
      InsertCanonical(tail, iv);
      ConsCanonical(fs[0], Insert(tail, iv));
    }
  }
}
