/** The intrusive doubly linked thread lists, and that their pointer operations refine sequences. */
module ThreadLists {
  import opened KernelState
  import opened KernelPlaces

  /** One direction of links; a thread without an entry has a NULL link. */
  type Links = map<Tcb, Tcb>

  function Link(links: Links, t: Tcb): Tcb {
    if t in links then links[t] else 0
  }

  function First(s: seq<Tcb>): Tcb {
    if s == [] then 0 else s[0]
  }

  function Final(s: seq<Tcb>): Tcb {
    if s == [] then 0 else s[|s| - 1]
  }

  ghost predicate Joint(next: Links, prev: Links, s: seq<Tcb>, i: nat)
    requires i < |s|
  {
    && Link(next, s[i]) == (if i + 1 < |s| then s[i + 1] else 0)
    && Link(prev, s[i]) == (if i > 0 then s[i - 1] else 0)
  }

  /** From `head` the links spell `s`, forwards and backwards. */
  ghost predicate Linked(next: Links, prev: Links, head: Tcb, s: seq<Tcb>) {
    && NoDup(s) && 0 !in s && head == First(s)
    && forall i :: 0 <= i < |s| ==> Joint(next, prev, s, i)
  }

  /** Only nodes in `touched` have other links. */
  ghost predicate OnlyAt(next: Links, prev: Links, next': Links, prev': Links, touched: seq<Tcb>) {
    forall t :: t !in touched ==> Link(next', t) == Link(next, t) && Link(prev', t) == Link(prev, t)
  }

  lemma LinkedElsewhere(next: Links, prev: Links, next': Links, prev': Links, touched: seq<Tcb>, head: Tcb, s: seq<Tcb>)
    requires Linked(next, prev, head, s) && OnlyAt(next, prev, next', prev', touched)
    requires forall t :: t in s ==> t !in touched
    ensures Linked(next', prev', head, s)
  {
    hide NoDup;
    forall i | 0 <= i < |s| ensures Joint(next', prev', s, i) {
      assert s[i] in s && Joint(next, prev, s, i);
    }
  }

  /** The same links spell only one list from a given head. */
  lemma {:induction false} LinkedUnique(next: Links, prev: Links, head: Tcb, s: seq<Tcb>, s': seq<Tcb>, n: nat)
    requires Linked(next, prev, head, s) && Linked(next, prev, head, s') && n <= |s|
    ensures n <= |s'| && s[..n] == s'[..n]
  {
    hide NoDup;
    if n > 0 {
      LinkedUnique(next, prev, head, s, s', n - 1);
      assert s[n - 1] in s;
      if n > 1 {
        assert Joint(next, prev, s, n - 2) && Joint(next, prev, s', n - 2);
        assert s[n - 2] == s[..n - 1][n - 2] && s'[n - 2] == s'[..n - 1][n - 2];
      }
      assert s[..n] == s[..n - 1] + [s[n - 1]] && n <= |s'|;
      assert s'[..n] == s'[..n - 1] + [s'[n - 1]];
    }
  }

  // ---------------------------------------------------------------- pointer surgery on values

  lemma AddLinked(next: Links, prev: Links, head: Tcb, s: seq<Tcb>, node: Tcb, prev1: Links)
    requires Linked(next, prev, head, s) && node != 0 && node !in s
    requires prev1 == if head != 0 then prev[head := node] else prev
    ensures Linked(next[node := head], prev1[node := 0], node, [node] + s)
  {
    var s', next', prev' := [node] + s, next[node := head], prev1[node := 0];
    ConsNoDup(node, s);
    hide NoDup;
    forall i | 0 <= i < |s'| ensures Joint(next', prev', s', i) {
      if i > 0 {
        assert Joint(next, prev, s, i - 1) && s[i - 1] in s;
        if i > 1 { Distinct(s, i - 1); }
      }
    }
  }

  lemma Distinct(s: seq<Tcb>, i: nat)
    requires NoDup(s) && 0 < i < |s|
    ensures s[i] != s[0]
  {
  }

  lemma AppendLinked(next: Links, prev: Links, head: Tcb, s: seq<Tcb>, node: Tcb)
    requires Linked(next, prev, head, s) && node != 0 && node !in s && s != []
    ensures Linked(next[Final(s) := node][node := 0], prev[node := Final(s)], head, s + [node])
  {
    var s' := s + [node];
    SnocNoDup(s, node);
    var next', prev' := next[Final(s) := node][node := 0], prev[node := Final(s)];
    forall i | 0 <= i < |s'| ensures Joint(next', prev', s', i) {
      if i < |s| { assert Joint(next, prev, s, i) && s[i] in s; }
    }
  }

  lemma PopLinked(next: Links, prev: Links, head: Tcb, s: seq<Tcb>, prev1: Links)
    requires Linked(next, prev, head, s) && s != []
    requires prev1 == if Link(next, head) != 0 then prev[Link(next, head) := 0] else prev
    ensures Link(next, head) == First(s[1..]) && Linked(next[head := 0], prev1, First(s[1..]), s[1..])
    ensures OnlyAt(next, prev, next[head := 0], prev1, s)
  {
    var s', next' := s[1..], next[head := 0];
    assert Joint(next, prev, s, 0);
    TailElements(s);
    forall i | 0 <= i < |s'| ensures Joint(next', prev1, s', i) {
      assert Joint(next, prev, s, i + 1) && s[i + 1] == s'[i] && s'[i] in s';
    }
  }

  lemma {:induction false} WithoutAt(s: seq<Tcb>, k: nat)
    requires NoDup(s) && k < |s|
    ensures Without(s, s[k]) == s[..k] + s[k + 1..]
  {
    if k > 0 {
      var tail := s[1..];
      assert s[0] != s[k] && tail[k - 1] == s[k];
      assert NoDup(tail);
      hide NoDup;
      WithoutAt(tail, k - 1);
      assert [s[0]] + tail[..k - 1] == s[..k] && tail[k..] == s[k + 1..];
      assert [s[0]] + (tail[..k - 1] + tail[k..]) == s[..k] + s[k + 1..];
    }
  }

  /** The links around node `k` of `s` jump over it. */
  ghost predicate Jumped(next: Links, prev: Links, s: seq<Tcb>, k: nat, next': Links, prev': Links)
    requires k < |s|
  {
    && next' == (if k > 0 then next[s[k - 1] := Link(next, s[k])] else next)[s[k] := 0]
    && prev' == (if k + 1 < |s| then prev[s[k + 1] := Link(prev, s[k])] else prev)[s[k] := 0]
  }

  lemma JumpedNext(next: Links, prev: Links, s: seq<Tcb>, k: nat, next': Links, prev': Links, i: nat)
    requires NoDup(s) && k < |s| && i < |s| && i != k && Jumped(next, prev, s, k, next', prev')
    requires Joint(next, prev, s, i) && Joint(next, prev, s, k)
    ensures Link(next', s[i]) == (if i + 1 == k then if k + 1 < |s| then s[k + 1] else 0 else if i + 1 < |s|
      then s[i + 1] else 0)
    ensures Link(prev', s[i]) == (if i == k + 1 then if k > 0 then s[k - 1] else 0 else if i > 0 then s[i - 1] else 0)
  {
    assert s[i] != s[k];
    assert k > 0 && i != k - 1 ==> s[i] != s[k - 1];
    assert k + 1 < |s| && i != k + 1 ==> s[i] != s[k + 1];
  }

  lemma RemoveLinked(next: Links, prev: Links, head: Tcb, s: seq<Tcb>, k: nat, next': Links, prev': Links)
    requires Linked(next, prev, head, s) && k < |s| && Jumped(next, prev, s, k, next', prev')
    ensures Linked(next', prev', if k > 0 then head else Link(next, head), Without(s, s[k]))
  {
    WithoutAt(s, k);
    WithoutElements(s, s[k]);
    var s' := Without(s, s[k]);
    assert Joint(next, prev, s, k);
    assert head == s[0] && Link(next, s[k]) == if k + 1 < |s| then s[k + 1] else 0;
    hide NoDup, Jumped, Without, Joint, Link;
    forall i | 0 <= i < |s'| ensures Joint(next', prev', s', i) {
      assert Joint(next, prev, s, if i < k then i else i + 1);
      JumpedJoint(next, prev, s, k, next', prev', s', i);
    }
    assert First(s') == if k > 0 then s[0] else if k + 1 < |s| then s[k + 1] else 0;
  }

  lemma JumpedJoint(next: Links, prev: Links, s: seq<Tcb>, k: nat, next': Links, prev': Links, s': seq<Tcb>, i: nat)
    requires NoDup(s) && k < |s| && Jumped(next, prev, s, k, next', prev') && s' == s[..k] + s[k + 1..] && i < |s'|
    requires Joint(next, prev, s, if i < k then i else i + 1) && Joint(next, prev, s, k)
    ensures Joint(next', prev', s', i)
  {
    hide NoDup, Jumped;
    JumpedNext(next, prev, s, k, next', prev', if i < k then i else i + 1);
  }

  lemma AroundNode(s: seq<Tcb>, k: nat)
    requires NoDup(s) && 0 !in s && k < |s|
    ensures k > 0 ==> s[k - 1] in s && s[k - 1] != 0 && s[k - 1] != s[k]
    ensures k + 1 < |s| ==> s[k + 1] in s && s[k + 1] != 0 && s[k + 1] != s[k]
    ensures k > 0 && k + 1 < |s| ==> s[k - 1] != s[k + 1]
  {
  }

  lemma NextNull(s: seq<Tcb>, i: nat)
    requires 0 !in s && i < |s|
    ensures (if i + 1 < |s| then s[i + 1] else 0) == 0 <==> i == |s| - 1
  {
    if i + 1 < |s| { assert s[i + 1] in s; }
  }

  lemma FirstNull(s: seq<Tcb>)
    requires 0 !in s
    ensures First(s) == 0 <==> s == []
  {
    if s != [] { assert s[0] in s; }
  }

  // ---------------------------------------------------------------- the nodes

  /** One list node for each thread: `local_list` in one object, `all_list` in another. */
  class Nodes {
    var next: Links
    var prev: Links

    constructor ()
      ensures next == map[] && prev == map[]
    {
      next, prev := map[], map[];
    }

    /** Add `node` at the head. */
    method Add(head: Tcb, node: Tcb, ghost s: seq<Tcb>) returns (head': Tcb)
      requires Linked(next, prev, head, s) && node != 0 && node !in s
      modifies this
      ensures Linked(next, prev, head', [node] + s)
      ensures OnlyAt(old(next), old(prev), next, prev, [node] + s)
    {
      ghost var next0, prev0 := next, prev;
      if head != 0 {
        prev := prev[head := node];
      }
      AddLinked(next0, prev0, head, s, node, prev);
      next := next[node := head];
      prev := prev[node := 0];
      head' := node;
    }

    /** Take `node` out, wherever it is. */
    method Remove(head: Tcb, node: Tcb, ghost s: seq<Tcb>) returns (head': Tcb)
      requires Linked(next, prev, head, s) && node in s
      modifies this
      ensures Linked(next, prev, head', Without(s, node))
      ensures OnlyAt(old(next), old(prev), next, prev, s)
      ensures Link(next, node) == 0 && Link(prev, node) == 0
    {
      ghost var next0, prev0 := next, prev;
      ghost var k: nat :| k < |s| && s[k] == node;
      assert Joint(next, prev, s, k);
      AroundNode(s, k);
      head' := head;
      if Link(prev, node) == 0 {
        assert head == node;                       // the kernel's assertion
        head' := Link(next, node);
        if head' != 0 {
          prev := prev[head' := 0];
        }
      } else {
        next := next[Link(prev, node) := Link(next, node)];
      }
      if Link(next, node) != 0 {
        prev := prev[Link(next, node) := Link(prev, node)];
      }
      next := next[node := 0];
      prev := prev[node := 0];
      assert Jumped(next0, prev0, s, k, next, prev);
      RemoveLinked(next0, prev0, head, s, k, next, prev);
    }

    /** Append `node` at the tail. */
    method Append(head: Tcb, tail: Tcb, node: Tcb, ghost s: seq<Tcb>) returns (head': Tcb, tail': Tcb)
      requires Linked(next, prev, head, s) && tail == Final(s) && node != 0 && node !in s
      modifies this
      ensures Linked(next, prev, head', s + [node]) && tail' == node
      ensures OnlyAt(old(next), old(prev), next, prev, [node] + s)
    {
      if head == 0 {
        FirstNull(s);
        head', tail' := node, node;
        next := next[node := 0];
        prev := prev[node := 0];
        return;
      }
      AppendLinked(next, prev, head, s, node);
      next := next[tail := node];
      next := next[node := 0];
      prev := prev[node := tail];
      head', tail' := head, node;
    }

    /** Take the first node. */
    method PopFront(head: Tcb, tail: Tcb, ghost s: seq<Tcb>) returns (head': Tcb, tail': Tcb, node: Tcb)
      requires Linked(next, prev, head, s) && tail == Final(s) && s != []
      modifies this
      ensures node == s[0] && Linked(next, prev, head', s[1..]) && tail' == Final(s[1..])
      ensures OnlyAt(old(next), old(prev), next, prev, s)
    {
      ghost var next0, prev0 := next, prev;
      assert Joint(next, prev, s, 0) && s[0] in s;
      assert head != 0 && Link(prev, head) == 0;   // the kernel's assertions
      node, tail' := head, tail;
      head' := Link(next, head);
      if head' == 0 {
        tail' := 0;
      } else {
        prev := prev[head' := 0];
      }
      PopLinked(next0, prev0, head, s, prev);
      next := next[node := 0];
      assert head' != 0 ==> Final(s[1..]) == Final(s);
    }

    /** Walk to the tail. */
    method FindLast(head: Tcb, ghost s: seq<Tcb>) returns (node: Tcb)
      requires Linked(next, prev, head, s) && s != []
      ensures node == Last(s)
    {
      node := head;
      ghost var i := 0;
      assert Joint(next, prev, s, 0);
      while Link(next, node) != 0
        invariant i < |s| && node == s[i] && Joint(next, prev, s, i)
        decreases |s| - i
      {
        assert Joint(next, prev, s, i + 1) && s[i + 1] in s;
        assert Link(prev, Link(next, node)) == node;   // the kernel's assertion
        node := Link(next, node);
        i := i + 1;
      }
      NextNull(s, i);
    }

    /** Walk the list and count. */
    method Count(head: Tcb, ghost s: seq<Tcb>) returns (n: nat)
      requires Linked(next, prev, head, s)
      ensures n == |s|
    {
      n := 0;
      var cursor := head;
      while cursor != 0
        invariant n <= |s| && cursor == First(s[n..])
        decreases |s| - n
      {
        assert Joint(next, prev, s, n);
        cursor := Link(next, cursor);
        n := n + 1;
      }
      FirstNull(s[n..]);
    }
  }
}
