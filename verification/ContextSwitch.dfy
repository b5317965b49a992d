/** The context switch: registers saved on one thread's stack and reloaded from another's. */
module ContextSwitch {
  import opened KernelState

  /** What an interrupted thread must get back. `esp` is the stack pointer before the interrupt. */
  datatype Regs = Regs(eax: nat, ecx: nat, edx: nat, ebx: nat, ebp: nat, esi: nat, edi: nat,
                       ds: nat, es: nat, fs: nat, gs: nat, eip: nat, cs: nat, eflags: nat, esp: nat)

  type Memory = map<nat, nat>

  /** The stack memory of a thread, in bytes. */
  datatype Stack = Stack(lo: nat, hi: nat)

  const FRAME := 56      // fourteen words

  function Peek(mem: Memory, a: nat): nat {
    if a in mem then mem[a] else 0
  }

  /** At `a` are the words of `f` from word `k` on. */
  ghost predicate WordsAt(mem: Memory, a: nat, f: seq<nat>, k: nat) {
    forall i: nat :: k <= i < |f| ==> Peek(mem, a + 4 * (i - k)) == f[i]
  }

  /** A saved frame, lowest address first: what the handler pushed last comes first. */
  function Frame(r: Regs): (ws: seq<nat>)
    ensures 4 * |ws| == FRAME
  {
    [r.gs, r.fs, r.es, r.ds, r.edi, r.esi, r.ebp, r.ebx, r.edx, r.ecx, r.eax, r.eip, r.cs, r.eflags]
  }

  ghost predicate FrameAt(mem: Memory, a: nat, r: Regs) {
    r.esp == a + FRAME && WordsAt(mem, a, Frame(r), 0)
  }

  /** The words of a frame, one by one. */
  ghost predicate Lists(f: seq<nat>, r: Regs) {
    && |f| == 14 && f[0] == r.gs && f[1] == r.fs && f[2] == r.es && f[3] == r.ds && f[4] == r.edi && f[5] == r.esi
      && f[6] == r.ebp
    && f[7] == r.ebx && f[8] == r.edx && f[9] == r.ecx && f[10] == r.eax && f[11] == r.eip && f[12] == r.cs
      && f[13] == r.eflags
  }

  lemma FrameLists(r: Regs)
    ensures Lists(Frame(r), r)
  {
  }

  /** Where each register lies above the saved stack pointer. The three words on top are the processor's own order. */
  lemma FrameLayout(mem: Memory, a: nat, r: Regs)
    ensures FrameAt(mem, a, r) <==>
      && r.esp == a + 56
      && Peek(mem, a + 52) == r.eflags && Peek(mem, a + 48) == r.cs && Peek(mem, a + 44) == r.eip
      && Peek(mem, a + 40) == r.eax && Peek(mem, a + 36) == r.ecx && Peek(mem, a + 32) == r.edx
        && Peek(mem, a + 28) == r.ebx
      && Peek(mem, a + 24) == r.ebp && Peek(mem, a + 20) == r.esi && Peek(mem, a + 16) == r.edi
      && Peek(mem, a + 12) == r.ds && Peek(mem, a + 8) == r.es && Peek(mem, a + 4) == r.fs && Peek(mem, a) == r.gs
  {
    FrameLists(r);
    var f := Frame(r);
    hide Frame;
    if FrameAt(mem, a, r) { Offsets(mem, a, f); }
    if r.esp == a + 56 && forall i: nat :: i < 14 ==> Peek(mem, a + 4 * (i - 0)) == f[i] { assert FrameAt(mem, a, r); }
  }

  lemma Offsets(mem: Memory, a: nat, f: seq<nat>)
    requires |f| == 14 && WordsAt(mem, a, f, 0)
    ensures Peek(mem, a) == f[0] && Peek(mem, a + 4) == f[1] && Peek(mem, a + 8) == f[2] && Peek(mem, a + 12) == f[3]
    ensures Peek(mem, a + 16) == f[4] && Peek(mem, a + 20) == f[5] && Peek(mem, a + 24) == f[6]
      && Peek(mem, a + 28) == f[7]
    ensures Peek(mem, a + 32) == f[8] && Peek(mem, a + 36) == f[9] && Peek(mem, a + 40) == f[10]
    ensures Peek(mem, a + 44) == f[11] && Peek(mem, a + 48) == f[12] && Peek(mem, a + 52) == f[13]
  {
    assert Peek(mem, a + 4 * (0 - 0)) == f[0] && Peek(mem, a + 4 * (1 - 0)) == f[1]
      && Peek(mem, a + 4 * (2 - 0)) == f[2];
    assert Peek(mem, a + 4 * (3 - 0)) == f[3] && Peek(mem, a + 4 * (4 - 0)) == f[4]
      && Peek(mem, a + 4 * (5 - 0)) == f[5];
    assert Peek(mem, a + 4 * (6 - 0)) == f[6] && Peek(mem, a + 4 * (7 - 0)) == f[7]
      && Peek(mem, a + 4 * (8 - 0)) == f[8];
    assert Peek(mem, a + 4 * (9 - 0)) == f[9] && Peek(mem, a + 4 * (10 - 0)) == f[10];
    assert Peek(mem, a + 4 * (11 - 0)) == f[11] && Peek(mem, a + 4 * (12 - 0)) == f[12]
      && Peek(mem, a + 4 * (13 - 0)) == f[13];
  }

  /** A frame determines the registers. */
  lemma FrameUnique(mem: Memory, a: nat, r: Regs, r': Regs)
    requires FrameAt(mem, a, r) && FrameAt(mem, a, r')
    ensures r == r'
  {
    FrameLists(r);
    FrameLists(r');
    var f, f' := Frame(r), Frame(r');
    hide Frame;
    forall i: nat | i < 14 ensures f[i] == f'[i] { assert Peek(mem, a + 4 * (i - 0)) == f[i]; }
  }

  /** Words from `lo` up to `hi` are the same. */
  ghost predicate SameIn(mem: Memory, mem': Memory, lo: nat, hi: nat) {
    forall a: nat :: lo <= a < hi ==> Peek(mem', a) == Peek(mem, a)
  }

  lemma FrameKept(mem: Memory, mem': Memory, lo: nat, hi: nat, a: nat, r: Regs)
    requires FrameAt(mem, a, r) && SameIn(mem, mem', lo, hi) && lo <= a && a + FRAME <= hi
    ensures FrameAt(mem', a, r)
  {
    var f := Frame(r);
    hide Frame;
    forall i: nat | 0 <= i < |f| ensures Peek(mem', a + 4 * (i - 0)) == f[i] {
      assert Peek(mem, a + 4 * (i - 0)) == f[i];
    }
  }

  /** Thread `t`, not running, has its registers in a frame on its stack. */
  ghost predicate Rests(mem: Memory, esp: map<Tcb, nat>, saved: map<Tcb, Regs>, stack: Stack, t: Tcb) {
    && t in esp && t in saved && FrameAt(mem, esp[t], saved[t])
    && stack.lo <= esp[t] && esp[t] + FRAME <= stack.hi
  }

  /** It still has if its stack and its entries are untouched. */
  lemma RestsOn(mem: Memory, esp: map<Tcb, nat>, saved: map<Tcb, Regs>, stack: Stack, t: Tcb,
                mem': Memory, esp': map<Tcb, nat>, saved': map<Tcb, Regs>)
    requires Rests(mem, esp, saved, stack, t) && SameIn(mem, mem', stack.lo, stack.hi)
    requires t in esp' && esp'[t] == esp[t] && t in saved' && saved'[t] == saved[t]
    ensures Rests(mem', esp', saved', stack, t)
  {
    hide FrameAt, SameIn;
    FrameKept(mem, mem', stack.lo, stack.hi, esp[t], saved[t]);
  }

  ghost predicate Disjoint(s: Stack, s': Stack) {
    s.hi <= s'.lo || s'.hi <= s.lo
  }

  ghost predicate AllApart(stacks: map<Tcb, Stack>) {
    forall t, u :: t in stacks && u in stacks && t != u ==> Disjoint(stacks[t], stacks[u])
  }

  lemma OneStackMore(stacks: map<Tcb, Stack>, t: Tcb, stack: Stack)
    requires AllApart(stacks) && t !in stacks && forall u :: u in stacks ==> Disjoint(stack, stacks[u])
    ensures AllApart(stacks[t := stack])
  {
  }

  /** Memory `mem` is `mem0` with the words of `f` from word `k` on pushed below `top`; `sp` is where they start. */
  ghost predicate Pushed(mem0: Memory, mem: Memory, sp: nat, top: nat, f: seq<nat>, k: nat) {
    && k <= |f| && top == sp + 4 * (|f| - k) && WordsAt(mem, sp, f, k)
    && forall a: nat :: a < sp || a >= top ==> Peek(mem, a) == Peek(mem0, a)
  }

  lemma PushOne(mem0: Memory, mem: Memory, sp: nat, top: nat, f: seq<nat>, k: nat)
    requires k < |f| && Pushed(mem0, mem, sp, top, f, k + 1) && sp >= 4
    ensures Pushed(mem0, mem[sp - 4 := f[k]], sp - 4, top, f, k)
  {
    var mem' := mem[sp - 4 := f[k]];
    forall i: nat | k <= i < |f| ensures Peek(mem', sp - 4 + 4 * (i - k)) == f[i] {
      if i > k { assert Peek(mem, sp + 4 * (i - (k + 1))) == f[i]; }
    }
  }

  lemma PushNone(mem: Memory, sp: nat, f: seq<nat>)
    ensures Pushed(mem, mem, sp, sp, f, |f|)
  {
  }

  /** What a new thread starts with: all registers zero, the entry point next, and the return address on the stack. */
  function Starting(entry: nat, code: nat, data: nat, flags: nat, hi: nat): Regs
    requires hi >= 8
  {
    Regs(0, 0, 0, 0, 0, 0, 0, data, data, data, data, entry, code, flags, hi - 8)
  }

  /** How a thread is to be entered: as a call of `entry` with `arg` that returns to `exit`, with these segment
      selectors and flags. */
  datatype Entry = Entry(entry: nat, arg: nat, exit: nat, code: nat, data: nat, flags: nat)

  /** The processor enters the thread. */
  ghost predicate Enters(r: Regs, mem: Memory, e: Entry) {
    && r.eip == e.entry && r.cs == e.code && r.eflags == e.flags
    && r.ds == e.data && r.es == e.data && r.fs == e.data && r.gs == e.data
    && r.eax == 0 && r.ecx == 0 && r.edx == 0 && r.ebx == 0 && r.ebp == 0 && r.esi == 0 && r.edi == 0
    && Peek(mem, r.esp) == e.exit && Peek(mem, r.esp + 4) == e.arg
  }

  lemma StartEnters(mem: Memory, e: Entry, hi: nat)
    requires hi >= 8 && Peek(mem, hi - 8) == e.exit && Peek(mem, hi - 4) == e.arg
    ensures Enters(Starting(e.entry, e.code, e.data, e.flags, hi), mem, e)
  {
  }

  lemma EntersOn(r: Regs, mem: Memory, mem': Memory, stack: Stack, e: Entry)
    requires Enters(r, mem, e) && SameIn(mem, mem', stack.lo, stack.hi) && stack.lo <= r.esp && r.esp + 8 <= stack.hi
    ensures Enters(r, mem', e)
  {
  }

  lemma StartWords(start: Regs, exit: nat, arg: nat, f: seq<nat>)
    requires Lists(Frame(start), start) && f == Frame(start) + [exit, arg]
    ensures |f| == 16 && Lists(f[..14], start) && f[14] == exit && f[15] == arg
    ensures forall i :: 0 <= i < 14 ==> f[i] == Frame(start)[i]
  {
    hide Frame;
    assert f[..14] == Frame(start);
  }

  class Cpu {
    var r: Regs
    var mem: Memory
    var esp: map<Tcb, nat>               // the esp field of each control block
    var current: Tcb
    ghost var stacks: map<Tcb, Stack>
    ghost var saved: map<Tcb, Regs>      // what each thread had when it was last interrupted, or starts with

    /** A thread that does not run has its registers in a frame on its own stack, and the stacks do not overlap. */
    ghost predicate Valid()
      reads this
    {
      && current in stacks && stacks[current].lo <= r.esp <= stacks[current].hi
      && AllApart(stacks)
      && (forall t :: t in stacks && t != current ==> Rests(mem, esp, saved, stacks[t], t))
    }

    /** Thread `t` has not run yet and is to be entered as `e` says. */
    ghost predicate Fresh(t: Tcb, e: Entry)
      reads this
    {
      && t in stacks && t != current && t in saved && Enters(saved[t], mem, e)
      && stacks[t].lo <= saved[t].esp && saved[t].esp + 8 <= stacks[t].hi
    }

    /** Threads that have not run yet are as fresh as before, but for `t`. */
    twostate predicate FreshKept(t: Tcb)
      reads this
    {
      forall u, e :: u != t && old(Fresh(u, e)) ==> Fresh(u, e)
    }

    /** The stacks of threads other than `me` are untouched. */
    twostate predicate OthersKept(me: Tcb)
      reads this
    {
      forall t :: t in old(stacks) && t != me ==> SameIn(old(mem), mem, old(stacks)[t].lo, old(stacks)[t].hi)
    }

    constructor (main: Tcb, start: Regs, lo: nat, hi: nat)
      requires lo <= start.esp <= hi
      ensures Valid() && current == main && r == start && stacks == map[main := Stack(lo, hi)]
    {
      r, mem, esp, current := start, map[], map[], main;
      stacks, saved := map[main := Stack(lo, hi)], map[];
    }

    /** Store word `k` of `f` below `sp`; the words after it are there already. */
    method Store(sp: nat, w: nat, ghost mem0: Memory, ghost top: nat, ghost f: seq<nat>,
      ghost k: nat) returns (sp': nat)
      requires sp >= 4 && k < |f| && w == f[k] && Pushed(mem0, mem, sp, top, f, k + 1)
      modifies this`mem
      ensures sp' == sp - 4 && Pushed(mem0, mem, sp', top, f, k)
    {
      PushOne(mem0, mem, sp, top, f, k);
      sp' := sp - 4;
      mem := mem[sp' := w];
    }

    method Push(w: nat, ghost mem0: Memory, ghost top: nat, ghost f: seq<nat>, ghost k: nat)
      requires r.esp >= 4 && k < |f| && w == f[k] && Pushed(mem0, mem, r.esp, top, f, k + 1)
      modifies this`r, this`mem
      ensures r == old(r).(esp := old(r).esp - 4) && Pushed(mem0, mem, r.esp, top, f, k)
    {
      var sp := Store(r.esp, w, mem0, top, f, k);
      r := r.(esp := sp);
    }

    method Pop(ghost f: seq<nat>, ghost k: nat) returns (w: nat)
      requires k < |f| && WordsAt(mem, r.esp, f, k)
      modifies this`r
      ensures r == old(r).(esp := old(r).esp + 4) && w == f[k] && WordsAt(mem, r.esp, f, k + 1)
    {
      assert Peek(mem, r.esp + 4 * (k - k)) == f[k];
      w := Peek(mem, r.esp);
      ghost var sp := r.esp;
      r := r.(esp := r.esp + 4);
      forall i: nat | k + 1 <= i < |f| ensures Peek(mem, r.esp + 4 * (i - (k + 1))) == f[i] {
        assert Peek(mem, sp + 4 * (i - k)) == f[i];
      }
    }

    /** What the processor pushes when it takes the interrupt. */
    method PushReturn(ghost m: Memory, ghost top: nat, ghost f: seq<nat>)
      requires r.esp >= 12 && Lists(f, r) && Pushed(m, mem, r.esp, top, f, 14)
      modifies this`r, this`mem
      ensures r == old(r).(esp := old(r).esp - 12) && Pushed(m, mem, r.esp, top, f, 11)
    {
      hide Pushed;
      Push(r.eflags, m, top, f, 13);
      Push(r.cs, m, top, f, 12);
      Push(r.eip, m, top, f, 11);
    }

    /** The general registers. */
    method PushGeneral(ghost m: Memory, ghost top: nat, ghost f: seq<nat>)
      requires r.esp >= 28 && Lists(f, r) && Pushed(m, mem, r.esp, top, f, 11)
      modifies this`r, this`mem
      ensures r == old(r).(esp := old(r).esp - 28) && Pushed(m, mem, r.esp, top, f, 4)
    {
      hide Pushed;
      Push(r.eax, m, top, f, 10);
      Push(r.ecx, m, top, f, 9);
      Push(r.edx, m, top, f, 8);
      Push(r.ebx, m, top, f, 7);
      Push(r.ebp, m, top, f, 6);
      Push(r.esi, m, top, f, 5);
      Push(r.edi, m, top, f, 4);
    }

    /** The segment registers. */
    method PushSegments(ghost m: Memory, ghost top: nat, ghost f: seq<nat>)
      requires r.esp >= 16 && Lists(f, r) && Pushed(m, mem, r.esp, top, f, 4)
      modifies this`r, this`mem
      ensures r == old(r).(esp := old(r).esp - 16) && Pushed(m, mem, r.esp, top, f, 0)
    {
      hide Pushed;
      Push(r.ds, m, top, f, 3);
      Push(r.es, m, top, f, 2);
      Push(r.fs, m, top, f, 1);
      Push(r.gs, m, top, f, 0);
    }

    /** What the processor and then the handler push. */
    method Save()
      requires r.esp >= FRAME
      modifies this`r, this`mem
      ensures r == old(r).(esp := old(r).esp - FRAME) && Pushed(old(mem), mem, r.esp, old(r).esp, Frame(old(r)), 0)
    {
      hide Pushed, Frame;
      ghost var m, top, f := mem, r.esp, Frame(r);
      FrameLists(r);
      PushNone(m, top, f);
      PushReturn(m, top, f);
      PushGeneral(m, top, f);
      PushSegments(m, top, f);
    }

    /** The segment registers come back first, */
    method PopSegments(ghost was: Regs, ghost f: seq<nat>)
      requires Lists(f, was) && WordsAt(mem, r.esp, f, 0)
      modifies this`r
      ensures r == old(r).(gs := was.gs, fs := was.fs, es := was.es, ds := was.ds, esp := old(r).esp + 16)
        && WordsAt(mem, r.esp, f, 4)
    {
      hide WordsAt;
      var w := Pop(f, 0);
      r := r.(gs := w);
      w := Pop(f, 1);
      r := r.(fs := w);
      w := Pop(f, 2);
      r := r.(es := w);
      w := Pop(f, 3);
      r := r.(ds := w);
    }

    /** then the general registers, */
    method PopGeneral(ghost was: Regs, ghost f: seq<nat>)
      requires Lists(f, was) && WordsAt(mem, r.esp, f, 4)
      modifies this`r
      ensures r == old(r).(edi := was.edi, esi := was.esi, ebp := was.ebp, ebx := was.ebx, edx := was.edx,
        ecx := was.ecx, eax := was.eax, esp := old(r).esp + 28) && WordsAt(mem, r.esp, f, 11)
    {
      hide WordsAt;
      var w := Pop(f, 4);
      r := r.(edi := w);
      w := Pop(f, 5);
      r := r.(esi := w);
      w := Pop(f, 6);
      r := r.(ebp := w);
      w := Pop(f, 7);
      r := r.(ebx := w);
      w := Pop(f, 8);
      r := r.(edx := w);
      w := Pop(f, 9);
      r := r.(ecx := w);
      w := Pop(f, 10);
      r := r.(eax := w);
    }

    /** and `iret` takes the rest. */
    method PopReturn(ghost was: Regs, ghost f: seq<nat>)
      requires Lists(f, was) && WordsAt(mem, r.esp, f, 11)
      modifies this`r
      ensures r == old(r).(eip := was.eip, cs := was.cs, eflags := was.eflags, esp := old(r).esp + 12)
        && WordsAt(mem, r.esp, f, 14)
    {
      hide WordsAt;
      var w := Pop(f, 11);
      r := r.(eip := w);
      w := Pop(f, 12);
      r := r.(cs := w);
      w := Pop(f, 13);
      r := r.(eflags := w);
    }

    /** What the handler pops, and then the processor on `iret`. */
    method Restore(ghost was: Regs)
      requires FrameAt(mem, r.esp, was)
      modifies this`r
      ensures r == was
    {
      hide WordsAt, Frame;
      ghost var f := Frame(was);
      FrameLists(was);
      hide Lists;
      PopSegments(was, f);
      PopGeneral(was, f);
      PopReturn(was, f);
    }

    /** The first half of the handler: registers pushed, stack pointer stored, and the calls made. They may change any
        register but the stack pointer, and memory other than the stack in use above it and the other threads'
        stacks. */
    method SwitchOut(clobbered: Regs, scratch: Memory)
      requires Valid() && r.esp >= stacks[current].lo + FRAME && Harmless(scratch)
      modifies this`r, this`mem, this`esp, this`saved
      ensures saved == old(saved)[current := old(r)] && OthersKept(current)
      ensures forall t :: t in stacks ==> Rests(mem, esp, saved, stacks[t], t)
    {
      hide WordsAt, Pushed, SameIn, Frame, FrameAt, Rests;
      ghost var m0, r0, me, esp0, saved0 := mem, r, current, esp, saved;
      Save();
      ghost var m1 := mem;
      esp := esp[current := r.esp];
      saved := saved[current := r0];
      mem := mem + scratch;
      r := clobbered.(esp := r.esp);
      OwnFrame(m0, m1, mem, scratch, esp[me], r0);
      RestsNow(mem, esp, saved, stacks[me], me);
      forall t | t in stacks && t != me
        ensures Rests(mem, esp, saved, stacks[t], t) && SameIn(m0, mem, stacks[t].lo, stacks[t].hi)
      {
        assert Disjoint(stacks[t], stacks[me]);
        OtherKept(m0, m1, mem, scratch, esp[me], r0, stacks[t]);
        RestsStay(m0, esp0, saved0, stacks[t], t, me, mem, esp[me], r0);
      }
    }

    /** The timer interrupt, with `next` as the scheduler's choice: `next` goes on with exactly the registers it had
        when it was last interrupted. */
    method IsrIrq0(next: Tcb, clobbered: Regs, scratch: Memory)
      requires Valid() && next in stacks && r.esp >= stacks[current].lo + FRAME && Harmless(scratch)
      modifies this
      ensures Valid() && current == next && stacks == old(stacks) && OthersKept(old(current))
      ensures saved == old(saved)[old(current) := old(r)]
      ensures r == if next == old(current) then old(r) else old(saved)[next]
      ensures FreshKept(next) && forall e :: old(Fresh(next, e)) ==> Enters(r, mem, e)
    {
      hide WordsAt, Frame, SameIn, Enters;
      ghost var mem0, saved0, stacks0, me := mem, saved, stacks, current;
      SwitchOut(clobbered, scratch);
      assert Rests(mem, esp, saved, stacks[next], next);
      current := next;
      r := r.(esp := esp[current]);
      Restore(saved[next]);
      forall u, e | u != me && u in stacks0 && u in saved0 && Enters(saved0[u], mem0, e)
          && stacks0[u].lo <= saved0[u].esp && saved0[u].esp + 8 <= stacks0[u].hi
        ensures Enters(saved0[u], mem, e)
      {
        EntersOn(saved0[u], mem0, mem, stacks0[u], e);
      }
    }

    /** The handler's calls write neither to the frame just saved, nor above it, nor to another thread's stack. */
    ghost predicate Harmless(scratch: Memory)
      requires current in stacks
      reads this
    {
      && (forall a :: a in scratch ==> a + FRAME < r.esp || a >= stacks[current].hi)
      && (forall a, t :: a in scratch && t in stacks && t != current ==> a < stacks[t].lo || a >= stacks[t].hi)
    }

    /** The running thread computes: any register, and memory outside the other threads' stacks. */
    method Run(r': Regs, writes: Memory)
      requires Valid() && stacks[current].lo <= r'.esp <= stacks[current].hi
      requires forall a, t :: a in writes && t in stacks && t != current ==> a < stacks[t].lo || a >= stacks[t].hi
      modifies this`r, this`mem
      ensures Valid() && r == r' && OthersKept(current) && FreshKept(current)
    {
      hide Rests, Enters;
      ghost var m0 := mem;
      r, mem := r', mem + writes;
      forall u, e | u in stacks && u != current && u in saved && Enters(saved[u], m0, e)
          && stacks[u].lo <= saved[u].esp && saved[u].esp + 8 <= stacks[u].hi
        ensures Enters(saved[u], mem, e)
      {
        EntersOn(saved[u], m0, mem, stacks[u], e);
      }
      forall t | t in stacks && t != current ensures Rests(mem, esp, saved, stacks[t], t) {
        RestsStill(m0, esp, saved, stacks[t], t, mem);
      }
    }

    /** A thread has been reclaimed: its block and its stack may be used for others from now on. */
    method Retire(t: Tcb)
      requires Valid() && t in stacks && t != current
      modifies this`esp, this`stacks, this`saved
      ensures Valid() && t !in stacks && stacks == old(stacks) - {t} && saved == old(saved) - {t} && FreshKept(t)
    {
      hide Rests, Enters;
      ghost var esp0, saved0 := esp, saved;
      esp := esp - {t};
      stacks := stacks - {t};
      saved := saved - {t};
      forall u | u in stacks && u != current ensures Rests(mem, esp, saved, stacks[u], u) {
        RestsWithout(mem, esp0, saved0, stacks[u], u, t);
      }
    }

    /** Word by word, from the top of the new stack down. */
    method WriteFrame(entry: nat, arg: nat, exit: nat, code: nat, data: nat, flags: nat, hi: nat) returns (sp: nat)
      requires hi >= FRAME + 8
      modifies this`mem
      ensures sp == hi - FRAME - 8
      ensures Pushed(old(mem), mem, sp, hi, Frame(Starting(entry, code, data, flags, hi)) + [exit, arg], 0)
    {
      hide WordsAt, Pushed, Frame;
      ghost var m, start := mem, Starting(entry, code, data, flags, hi);
      ghost var f := Frame(start) + [exit, arg];
      FrameLists(start);
      StartWords(start, exit, arg, f);
      PushNone(m, hi, f);
      sp := hi;
      sp := Store(sp, arg, m, hi, f, 15);
      sp := Store(sp, exit, m, hi, f, 14);
      sp := Store(sp, flags, m, hi, f, 13);
      sp := Store(sp, code, m, hi, f, 12);
      sp := Store(sp, entry, m, hi, f, 11);
      sp := Store(sp, 0, m, hi, f, 10);
      sp := Store(sp, 0, m, hi, f, 9);
      sp := Store(sp, 0, m, hi, f, 8);
      sp := Store(sp, 0, m, hi, f, 7);
      sp := Store(sp, 0, m, hi, f, 6);
      sp := Store(sp, 0, m, hi, f, 5);
      sp := Store(sp, 0, m, hi, f, 4);
      sp := Store(sp, data, m, hi, f, 3);
      sp := Store(sp, data, m, hi, f, 2);
      sp := Store(sp, data, m, hi, f, 1);
      sp := Store(sp, data, m, hi, f, 0);
    }

    /** internal_thread_init: the frame a new thread starts from. The switch to it enters `entry` as if called with
        `arg` and with `exit` as return address, on an otherwise empty stack. */
    method InitThread(t: Tcb, entry: nat, arg: nat, exit: nat, code: nat, data: nat, flags: nat, lo: nat, hi: nat)
      requires Valid() && t !in stacks && lo + FRAME + 8 <= hi
      requires forall u :: u in stacks ==> Disjoint(Stack(lo, hi), stacks[u])
      modifies this
      ensures Valid() && stacks == old(stacks)[t := Stack(lo, hi)] && current == old(current) && r == old(r)
      ensures saved == old(saved)[t := Starting(entry, code, data, flags, hi)]
      ensures Peek(mem, hi - 8) == exit && Peek(mem, hi - 4) == arg
      ensures Fresh(t, Entry(entry, arg, exit, code, data, flags)) && saved[t].esp == hi - 8 && FreshKept(t)
    {
      hide WordsAt, Pushed, SameIn, Frame, FrameAt, Rests, AllApart, Enters;
      ghost var m, start := mem, Starting(entry, code, data, flags, hi);
      var sp := WriteFrame(entry, arg, exit, code, data, flags, hi);
      StartFrame(m, mem, sp, hi, start, exit, arg);
      StartEnters(mem, Entry(entry, arg, exit, code, data, flags), hi);
      ghost var esp0, saved0 := esp, saved;
      esp := esp[t := sp];
      saved := saved[t := start];
      OneStackMore(stacks, t, Stack(lo, hi));
      ghost var stacks0 := stacks;
      stacks := stacks[t := Stack(lo, hi)];
      RestsNow(mem, esp, saved, stacks[t], t);
      forall u | u in stacks && u != current && u != t ensures Rests(mem, esp, saved, stacks[u], u) {
        assert u in stacks0 && Disjoint(Stack(lo, hi), stacks0[u]);
        PushedElsewhere(m, mem, sp, hi, Frame(start) + [exit, arg], stacks[u]);
        RestsStay(m, esp0, saved0, stacks[u], u, t, mem, sp, start);
      }
      forall u, e | u in stacks0 && u in saved0 && Enters(saved0[u], m, e)
          && stacks0[u].lo <= saved0[u].esp && saved0[u].esp + 8 <= stacks0[u].hi
        ensures Enters(saved0[u], mem, e)
      {
        PushedElsewhere(m, mem, sp, hi, Frame(start) + [exit, arg], stacks0[u]);
        EntersOn(saved0[u], m, mem, stacks0[u], e);
      }
    }
  }

  lemma RestsNow(mem: Memory, esp: map<Tcb, nat>, saved: map<Tcb, Regs>, stack: Stack, t: Tcb)
    requires t in esp && t in saved && FrameAt(mem, esp[t], saved[t])
    requires stack.lo <= esp[t] && esp[t] + FRAME <= stack.hi
    ensures Rests(mem, esp, saved, stack, t)
  {
    hide FrameAt;
  }

  lemma RestsStill(mem: Memory, esp: map<Tcb, nat>, saved: map<Tcb, Regs>, stack: Stack, t: Tcb, mem': Memory)
    requires Rests(mem, esp, saved, stack, t) && SameIn(mem, mem', stack.lo, stack.hi)
    ensures Rests(mem', esp, saved, stack, t)
  {
    hide FrameAt, SameIn;
    RestsOn(mem, esp, saved, stack, t, mem', esp, saved);
  }

  /** Another thread's entries may change. */
  lemma RestsStay(mem: Memory, esp: map<Tcb, nat>, saved: map<Tcb, Regs>, stack: Stack, t: Tcb, u: Tcb,
                  mem': Memory, sp: nat, r: Regs)
    requires Rests(mem, esp, saved, stack, t) && SameIn(mem, mem', stack.lo, stack.hi) && t != u
    ensures Rests(mem', esp[u := sp], saved[u := r], stack, t)
  {
    hide FrameAt, SameIn;
    RestsOn(mem, esp, saved, stack, t, mem', esp[u := sp], saved[u := r]);
  }

  lemma RestsWithout(mem: Memory, esp: map<Tcb, nat>, saved: map<Tcb, Regs>, stack: Stack, t: Tcb, u: Tcb)
    requires Rests(mem, esp, saved, stack, t) && t != u
    ensures Rests(mem, esp - {u}, saved - {u}, stack, t)
  {
    hide FrameAt;
  }

  /** A push below `top` does not reach a stack elsewhere. */
  lemma PushedElsewhere(m0: Memory, m1: Memory, sp: nat, top: nat, ws: seq<nat>, stack: Stack)
    requires Pushed(m0, m1, sp, top, ws, 0) && (top <= stack.lo || stack.hi <= sp)
    ensures SameIn(m0, m1, stack.lo, stack.hi)
  {
    hide WordsAt;
  }

  /** The frame survives the handler's calls. */
  lemma OwnFrame(m0: Memory, m1: Memory, m2: Memory, scratch: Memory, sp: nat, r: Regs)
    requires Pushed(m0, m1, sp, r.esp, Frame(r), 0) && m2 == m1 + scratch
    requires forall a :: a in scratch ==> a < sp || a >= r.esp
    ensures FrameAt(m2, sp, r)
  {
    FrameKept(m1, m2, sp, r.esp, sp, r);
  }

  lemma OtherKept(m0: Memory, m1: Memory, m2: Memory, scratch: Memory, sp: nat, r: Regs, stack: Stack)
    requires Pushed(m0, m1, sp, r.esp, Frame(r), 0) && m2 == m1 + scratch && (r.esp <= stack.lo || stack.hi <= sp)
    requires forall a :: a in scratch ==> a < stack.lo || a >= stack.hi
    ensures SameIn(m0, m2, stack.lo, stack.hi)
  {
    hide WordsAt, Frame;
  }

  lemma StartFrame(m0: Memory, m1: Memory, sp: nat, top: nat, r: Regs, exit: nat, arg: nat)
    requires Pushed(m0, m1, sp, top, Frame(r) + [exit, arg], 0) && r.esp == sp + FRAME
    ensures FrameAt(m1, sp, r) && Peek(m1, sp + FRAME) == exit && Peek(m1, sp + FRAME + 4) == arg
  {
    var f := Frame(r) + [exit, arg];
    FrameLists(r);
    hide Frame;
    assert Peek(m1, sp + 4 * (14 - 0)) == f[14] && Peek(m1, sp + 4 * (15 - 0)) == f[15];
    forall i: nat | 0 <= i < |Frame(r)| ensures Peek(m1, sp + 4 * (i - 0)) == Frame(r)[i] {
      assert Peek(m1, sp + 4 * (i - 0)) == f[i];
    }
  }
}
