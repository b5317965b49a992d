/** Block headers as bytes of memory, and the free list threaded through them. */
module Headers {
  import opened Intervals
  import opened HeapModel

  type byte = x: int | 0 <= x < 256

  const MAGIC: nat := 0xF00B_A700

  /** The little-endian 32-bit word at address `a`. */
  function Word(m: seq<byte>, a: nat): nat
    requires a + 4 <= |m|
  {
    Compose(m[a], m[a + 1], m[a + 2], m[a + 3])
  }

  function Compose(b0: nat, b1: nat, b2: nat, b3: nat): nat {
    b0 + 0x100 * b1 + 0x1_0000 * b2 + 0x100_0000 * b3
  }

  /** The first three words of a header; the fourth is padding that is never written. */
  datatype Header = Header(meta: nat, next: nat, magic: nat) {
    function Size(): nat { meta - meta % 16 }

    predicate Alloc() { meta % 2 == 1 }

    /** The four low bits of the metadata word. */
    function Flags(): nat { meta % 16 }
  }

  function HeaderAt(m: seq<byte>, a: nat): Header
    requires a + HEADER <= |m|
  {
    Header(Word(m, a), Word(m, a + 4), Word(m, a + 8))
  }

  /** Memory changed only inside `iv`. */
  ghost predicate OnlyIn(m: seq<byte>, m': seq<byte>, iv: Interval) {
    |m'| == |m| && forall x :: 0 <= x < |m| && !iv.Contains(x) ==> m'[x] == m[x]
  }

  /** Memory changed only inside free blocks and the intervals `r` and `q`. */
  ghost predicate ChangedOnly(m: seq<byte>, m': seq<byte>, fs: seq<Interval>, r: Interval, q: Interval) {
    |m'| == |m| && forall x :: 0 <= x < |m| && m'[x] != m[x] ==> Covers(fs, x) || r.Contains(x) || q.Contains(x)
  }

  lemma HeaderFrame(m: seq<byte>, m': seq<byte>, a: nat)
    requires |m'| == |m| && a + HEADER <= |m|
    requires forall x :: a <= x < a + HEADER ==> m'[x] == m[x]
    ensures HeaderAt(m', a) == HeaderAt(m, a)
  {
  }

  // ---------------------------------------------------------------- the free list in memory

  /** A free block's header: size, clear allocation bit, magic number, and link. */
  ghost predicate Node(m: seq<byte>, iv: Interval, next: nat) {
    && iv.lo + HEADER <= |m|
    && var h := HeaderAt(m, iv.lo);
       h.Size() == iv.size && !h.Alloc() && h.magic == MAGIC && h.next == next
  }

  /** Address of the `i`-th block, 0 behind the end. */
  function Lo(fs: seq<Interval>, i: nat): nat {
    if i < |fs| then fs[i].lo else 0
  }

  /** Memory holds the list `fs`, reached from `head`. */
  ghost predicate Listed(m: seq<byte>, head: nat, fs: seq<Interval>) {
    head == Lo(fs, 0) && forall i :: 0 <= i < |fs| ==> Node(m, fs[i], Lo(fs, i + 1))
  }

  /** Sorted blocks that each have room for a header and end inside `limit`. */
  ghost predicate Spaced(fs: seq<Interval>, limit: nat) {
    && (forall i :: 0 <= i < |fs| ==>
      0 < fs[i].lo && fs[i].size >= HEADER && fs[i].Hi() <= limit && fs[i].size % HEADER == 0)
    && (forall i, j :: 0 <= i < j < |fs| ==> fs[i].Hi() <= fs[j].lo)
  }

  lemma NodeFrame(m: seq<byte>, m': seq<byte>, iv: Interval, next: nat, r: Interval)
    requires Node(m, iv, next) && OnlyIn(m, m', r) && Interval(iv.lo, HEADER).Disjoint(r)
    ensures Node(m', iv, next)
  {
    HeaderFrame(m, m', iv.lo);
  }

  lemma ListedFrame(m: seq<byte>, m': seq<byte>, head: nat, fs: seq<Interval>, r: Interval)
    requires Listed(m, head, fs) && OnlyIn(m, m', r)
    requires forall i :: 0 <= i < |fs| ==> Interval(fs[i].lo, HEADER).Disjoint(r)
    ensures Listed(m', head, fs)
  {
    hide Node;
    forall i | 0 <= i < |fs| ensures Node(m', fs[i], Lo(fs, i + 1)) {
      NodeFrame(m, m', fs[i], Lo(fs, i + 1), r);
    }
  }

  /** A node that touches no header of the list becomes its new head. */
  lemma LinkFront(m: seq<byte>, m': seq<byte>, head: nat, fs: seq<Interval>, iv: Interval)
    requires Listed(m, head, fs) && OnlyIn(m, m', Interval(iv.lo, HEADER)) && Node(m', iv, head)
    requires forall i :: 0 <= i < |fs| ==> Interval(fs[i].lo, HEADER).Disjoint(Interval(iv.lo, HEADER))
    ensures Listed(m', iv.lo, [iv] + fs)
  {
    hide Node, OnlyIn;
    ListedFrame(m, m', head, fs, Interval(iv.lo, HEADER));
    var gs := [iv] + fs;
    forall i | 0 <= i < |gs| ensures Node(m', gs[i], Lo(gs, i + 1)) {
      assert Lo(gs, i + 1) == Lo(fs, i);
      if i > 0 { assert Node(m', fs[i - 1], Lo(fs, i)); }
    }
  }

  /** Redirect the link of node `k`: what follows it is then `tail`. */
  lemma Relink(m: seq<byte>, m': seq<byte>, head: nat, fs: seq<Interval>, k: nat, kth: Interval, tail: seq<Interval>,
    limit: nat)
    requires Listed(m, head, fs) && Spaced(fs, limit) && k < |fs| && limit <= |m|
    requires OnlyIn(m, m', Interval(fs[k].lo, HEADER)) && kth.lo == fs[k].lo && Node(m', kth, Lo(tail, 0))
    requires Listed(m', Lo(tail, 0), tail)
    ensures Listed(m', head, fs[..k] + [kth] + tail)
  {
    hide Node, OnlyIn, Spaced;
    var gs := fs[..k] + [kth] + tail;
    forall i | 0 <= i < |gs| ensures Node(m', gs[i], Lo(gs, i + 1)) {
      if i < k {
        assert Node(m, fs[i], Lo(fs, i + 1));
        SpacedApart(fs, limit, i, k);
        NodeFrame(m, m', fs[i], Lo(fs, i + 1), Interval(fs[k].lo, HEADER));
        LoBefore(fs, k, kth, tail, i);
      } else if i == k {
        LoAt(fs, k, kth, tail);
      } else {
        LoBehind(fs, k, kth, tail, i);
        assert Node(m', tail[i - k - 1], Lo(tail, i - k));
      }
    }
    LoFirst(fs, k, kth, tail);
  }

  lemma SpacedApart(fs: seq<Interval>, limit: nat, i: nat, k: nat)
    requires Spaced(fs, limit) && i < k < |fs|
    ensures Interval(fs[i].lo, HEADER).Disjoint(Interval(fs[k].lo, HEADER))
  {
  }

  /** Where the nodes of a relinked list come from. */
  lemma LoBefore(fs: seq<Interval>, k: nat, kth: Interval, tail: seq<Interval>, i: nat)
    requires i < k < |fs| && kth.lo == fs[k].lo
    ensures var gs := fs[..k] + [kth] + tail; gs[i] == fs[i] && Lo(gs, i + 1) == Lo(fs, i + 1)
  {
  }

  lemma LoAt(fs: seq<Interval>, k: nat, kth: Interval, tail: seq<Interval>)
    requires k < |fs|
    ensures var gs := fs[..k] + [kth] + tail; gs[k] == kth && Lo(gs, k + 1) == Lo(tail, 0)
  {
  }

  lemma LoBehind(fs: seq<Interval>, k: nat, kth: Interval, tail: seq<Interval>, i: nat)
    requires k < |fs| && k < i < k + 1 + |tail|
    ensures var gs := fs[..k] + [kth] + tail; gs[i] == tail[i - k - 1] && Lo(gs, i + 1) == Lo(tail, i - k)
  {
  }

  lemma LoFirst(fs: seq<Interval>, k: nat, kth: Interval, tail: seq<Interval>)
    requires k < |fs| && kth.lo == fs[k].lo
    ensures Lo(fs[..k] + [kth] + tail, 0) == Lo(fs, 0)
  {
  }

  /** Every tail of a list in memory is a list in memory. */
  lemma ListedTail(m: seq<byte>, head: nat, fs: seq<Interval>, k: nat)
    requires Listed(m, head, fs) && k <= |fs|
    ensures Listed(m, Lo(fs, k), fs[k..])
  {
    hide Node;
    var gs := fs[k..];
    forall i | 0 <= i < |gs| ensures Node(m, gs[i], Lo(gs, i + 1)) {
      assert Node(m, fs[i + k], Lo(fs, i + k + 1));
      assert Lo(gs, i + 1) == Lo(fs, i + k + 1);
    }
  }

  // ---------------------------------------------------------------- coalescing

  /** Merge block `k` with its successor if they touch. */
  function Fuse(fs: seq<Interval>, k: nat): seq<Interval>
    requires k < |fs|
  {
    if k + 1 < |fs| && fs[k].Hi() == fs[k + 1].lo
    then fs[..k] + [Interval(fs[k].lo, fs[k].size + fs[k + 1].size)] + fs[k + 2..]
    else fs
  }

  lemma FuseCovers(fs: seq<Interval>, k: nat)
    requires k < |fs|
    ensures forall x :: Covers(Fuse(fs, k), x) <==> Covers(fs, x)
  {
    var gs := Fuse(fs, k);
    if gs != fs {
      forall x ensures Covers(gs, x) <==> Covers(fs, x) {
        if Covers(fs, x) {
          var i :| 0 <= i < |fs| && fs[i].Contains(x);
          assert gs[if i <= k then i else i - 1].Contains(x);
        }
        if Covers(gs, x) {
          var i :| 0 <= i < |gs| && gs[i].Contains(x);
          assert fs[if i < k then i else if i == k then (if fs[k].Contains(x) then k else k + 1)
            else i + 1].Contains(x);
        }
      }
    }
  }

  /** The list with `iv` put in at position `k`. */
  function PutAt(fs: seq<Interval>, k: nat, iv: Interval): seq<Interval>
    requires k <= |fs|
  {
    fs[..k] + [iv] + fs[k..]
  }

  lemma PutCovers(fs: seq<Interval>, k: nat, iv: Interval)
    requires k <= |fs|
    ensures forall x :: Covers(PutAt(fs, k, iv), x) <==> Covers(fs, x) || iv.Contains(x)
  {
    var gs := PutAt(fs, k, iv);
    forall x ensures Covers(gs, x) <==> Covers(fs, x) || iv.Contains(x) {
      if Covers(fs, x) {
        var i :| 0 <= i < |fs| && fs[i].Contains(x);
        assert gs[if i < k then i else i + 1].Contains(x);
      }
      if iv.Contains(x) { assert gs[k].Contains(x); }
      if Covers(gs, x) {
        var i :| 0 <= i < |gs| && gs[i].Contains(x);
        assert i == k || fs[if i < k then i else i - 1].Contains(x);
      }
    }
  }

  /** Position `k` is where `iv` belongs. */
  ghost predicate Belongs(fs: seq<Interval>, k: nat, iv: Interval) {
    && k <= |fs| && iv.size > 0
    && (forall i :: 0 <= i < k ==> fs[i].Hi() <= iv.lo)
    && (forall i :: k <= i < |fs| ==> iv.Hi() <= fs[i].lo)
  }

  /** Put in and coalesced with its successor, the block is inserted into the rest of the list. */
  lemma FusePut(fs: seq<Interval>, k: nat, iv: Interval)
    requires Canonical(fs) && Belongs(fs, k, iv)
    ensures Fuse(PutAt(fs, k, iv), k) == fs[..k] + Insert(fs[k..], iv)
  {
    if k < |fs| { FusePutInside(fs, k, iv); } else { FusePutEnd(fs, iv); }
  }

  lemma FusePutEnd(fs: seq<Interval>, iv: Interval)
    requires Canonical(fs) && Belongs(fs, |fs|, iv)
    ensures Fuse(PutAt(fs, |fs|, iv), |fs|) == fs[..|fs|] + Insert(fs[|fs|..], iv)
  {
    hide Canonical, Belongs;
    var k := |fs|;
    var ps := PutAt(fs, k, iv);
    assert ps == fs[..k] + [iv] && Insert(fs[k..], iv) == [iv];
  }

  lemma FusePutInside(fs: seq<Interval>, k: nat, iv: Interval)
    requires Canonical(fs) && Belongs(fs, k, iv) && k < |fs|
    ensures Fuse(PutAt(fs, k, iv), k) == fs[..k] + Insert(fs[k..], iv)
  {
    BelongsBefore(fs, k, iv);
    if iv.Hi() == fs[k].lo { FusePutTouching(fs, k, iv); } else { FusePutApart(fs, k, iv); }
  }

  lemma BelongsBefore(fs: seq<Interval>, k: nat, iv: Interval)
    requires Belongs(fs, k, iv) && k < |fs|
    ensures iv.Hi() <= fs[k].lo
  {
  }

  /** The pieces of a list with a block put in. */
  lemma PutParts(fs: seq<Interval>, k: nat, iv: Interval)
    requires k < |fs|
    ensures var ps := PutAt(fs, k, iv);
      |ps| == |fs| + 1 && ps[k] == iv && ps[k + 1] == fs[k] && ps[..k] == fs[..k] && ps[k + 2..] == fs[k + 1..]
  {
  }

  lemma InsertBefore(fs: seq<Interval>, k: nat, iv: Interval)
    requires k < |fs| && iv.Hi() <= fs[k].lo
    ensures Insert(fs[k..], iv) ==
      if iv.Hi() < fs[k].lo then [iv] + fs[k..] else [Interval(iv.lo, iv.size + fs[k].size)] + fs[k + 1..]
  {
    assert fs[k..][0] == fs[k] && fs[k..][1..] == fs[k + 1..];
  }

  lemma FusePutTouching(fs: seq<Interval>, k: nat, iv: Interval)
    requires k < |fs| && iv.Hi() == fs[k].lo
    ensures Fuse(PutAt(fs, k, iv), k) == fs[..k] + Insert(fs[k..], iv)
  {
    hide PutAt, Insert;
    PutParts(fs, k, iv);
    InsertBefore(fs, k, iv);
    var joined := [Interval(iv.lo, iv.size + fs[k].size)];
    assert fs[..k] + joined + fs[k + 1..] == fs[..k] + (joined + fs[k + 1..]);
  }

  lemma FusePutApart(fs: seq<Interval>, k: nat, iv: Interval)
    requires k < |fs| && iv.Hi() < fs[k].lo
    ensures Fuse(PutAt(fs, k, iv), k) == fs[..k] + Insert(fs[k..], iv)
  {
    hide Insert;
    PutParts(fs, k, iv);
    InsertBefore(fs, k, iv);
    assert fs[..k] + [iv] + fs[k..] == fs[..k] + ([iv] + fs[k..]);
  }

  lemma FuseFront(fs: seq<Interval>, iv: Interval)
    requires Canonical(fs) && Belongs(fs, 0, iv)
    ensures Fuse(PutAt(fs, 0, iv), 0) == Insert(fs, iv)
  {
    FusePut(fs, 0, iv);
    assert fs[..0] == [] && fs[0..] == fs;
  }

  /** Coalescing where two canonical lists meet makes one canonical list. */
  lemma FuseGlue(front: seq<Interval>, back: seq<Interval>)
    requires Canonical(front) && Canonical(back) && front != [] && back != []
    requires front[|front| - 1].Hi() <= back[0].lo
    ensures Canonical(Fuse(front + back, |front| - 1))
  {
    var k := |front| - 1;
    var gs := front + back;
    var r := Fuse(gs, k);
    assert gs[k] == front[k] && gs[k + 1] == back[0];
    if r == gs {
      GlueCanonical(front, back);
    } else {
      var mid := Interval(front[k].lo, front[k].size + back[0].size);
      assert r == front[..k] + ([mid] + back[1..]);
      GlueCanonical(front[..k], [mid] + back[1..]);
    }
  }

  lemma GlueCanonical(front: seq<Interval>, back: seq<Interval>)
    requires Canonical(front) && Canonical(back) && back != []
    requires front == [] || front[|front| - 1].Hi() < back[0].lo
    ensures Canonical(front + back)
  {
  }

  /** Put in behind a block and coalesced on both sides, the block is inserted. */
  lemma FuseMiddle(fs: seq<Interval>, k: nat, iv: Interval)
    requires Canonical(fs) && 0 < k && Belongs(fs, k, iv)
    ensures k < |Fuse(PutAt(fs, k, iv), k)|
    ensures Fuse(Fuse(PutAt(fs, k, iv), k), k - 1) == Insert(fs, iv)
  {
    var front, back := fs[..k], Insert(fs[k..], iv);
    FusePut(fs, k, iv);
    BelongsParts(fs, k, iv);
    hide Covers, Canonical, Fuse, PutAt, Insert, Apart, Belongs;
    FuseGlue(front, back);
    PutCovers(fs, k, iv);
    FuseCovers(PutAt(fs, k, iv), k);
    FuseCovers(front + back, k - 1);
    InsertCanonical(fs, iv);
    CanonicalUnique(Fuse(front + back, k - 1), Insert(fs, iv));
  }

  lemma BelongsParts(fs: seq<Interval>, k: nat, iv: Interval)
    requires Canonical(fs) && 0 < k && Belongs(fs, k, iv)
    ensures Apart(fs, iv) && Canonical(fs[..k]) && |fs[..k]| == k
    ensures var back := Insert(fs[k..], iv); Canonical(back) && back != [] && fs[k - 1].Hi() <= back[0].lo
  {
    assert Apart(fs[k..], iv) && Canonical(fs[k..]);
    InsertCanonical(fs[k..], iv);
    assert Insert(fs[k..], iv)[0].lo == iv.lo;
  }
}
