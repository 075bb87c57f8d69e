/** Interrupt entry and exit in recompiled code (src/recomp_exec.c), and why a handler is
    invisible to the code it interrupts. */
module Interrupts {
  import opened Bytes
  import opened Cpu
  import opened Runtime
  import Emit
  import Interp

  /** Entry to a handler: the return address, then P with B clear. Recompiled code keeps no PC,
      and `lynx_irq_deliver` pushes zeros; the interpreter pushes its own. */
  function IrqEntry(st: State, ret: u16): State {
    Push(Push(Push(st, ret / 0x100), ret % 0x100), And(PPack(st), 0xEF)).(i := true, d := false)
  }

  method LynxIrqEnter(cpu: LynxCpu) returns (vec: u16)
    requires cpu.Valid()
    modifies cpu, cpu.ram
    ensures vec == Read16(old(cpu.View()), 0xFFFE)
    ensures cpu.View() == IrqEntry(old(cpu.View()), 0)
  {
    vec := cpu.MemRead16(0xFFFE);
    var p := cpu.LynxPPack();
    cpu.LynxPush(0x00);
    cpu.LynxPush(0x00);
    cpu.LynxPush(And(p, 0xEF));
    cpu.i := true;
    cpu.d := false;
  }

  // ---- handlers ----

  /** What a handler does to the machine, one access at a time. Nested deliveries are pushes,
      pulls and flag changes like any other. */
  datatype Op =
    | PushOp(v: u8)
    | PullOp
    | WriteOp(a: u16, v: u8)
    | RegsOp(r: Regs)

  /** Everything but S and memory. */
  datatype Regs = Regs(a: u8, x: u8, y: u8, n: bool, v: bool, d: bool, i: bool, z: bool, c: bool)

  function Do(op: Op, st: State): State {
    match op
    case PushOp(v) => Push(st, v)
    case PullOp => Pull(st).0
    case WriteOp(a, v) => Write(st, a, v)
    case RegsOp(r) => State(r.a, r.x, r.y, st.s, r.n, r.v, r.d, r.i, r.z, r.c, st.mem)
  }

  function RunOps(ops: seq<Op>, st: State): State
    decreases |ops|
  {
    if ops == [] then st else RunOps(ops[1..], Do(ops[0], st))
  }

  lemma RunCons(op: Op, rest: seq<Op>, st: State)
    ensures RunOps([op] + rest, st) == RunOps(rest, Do(op, st))
  {
    hide Do;
    assert ([op] + rest)[1..] == rest;
  }

  lemma RunNone(st: State)
    ensures RunOps([], st) == st
  {
    hide Do;
  }

  /** Starting `h` pushes deep, the handler never pulls more than it pushed, never goes deeper
      than `max`, and ends `end` deep. */
  predicate Balanced(ops: seq<Op>, h: nat, max: nat, end: nat)
    decreases |ops|
  {
    if ops == [] then h == end
    else match ops[0]
      case PushOp(_) => h < max && Balanced(ops[1..], h + 1, max, end)
      case PullOp => h > 0 && Balanced(ops[1..], h - 1, max, end)
      case _ => Balanced(ops[1..], h, max, end)
  }

  /** The stack byte `k` pushes below stack pointer `s`, wrapping within page 1. */
  function Slot(s: u8, k: nat): u16 { 0x100 + Byte(s - k) }

  /** Address `a` is one of the first `n` stack bytes below `s`. */
  predicate Dead(s: u8, n: nat, a: u16) { exists k: nat :: k < n && a == Slot(s, k) }

  predicate Writes(ops: seq<Op>, a: u16) { exists op :: op in ops && op.WriteOp? && op.a == a }

  /** The handler leaves the saved P alone. */
  predicate SparesSavedP(ops: seq<Op>, s: u8) { !Writes(ops, Slot(s, 2)) }

  lemma SlotsDiffer(s: u8, j: nat, k: nat)
    requires j < k < j + 0x100
    ensures Slot(s, j) != Slot(s, k)
  {
  }

  /** A push at a known depth. */
  lemma PushAt(st: State, v: u8, s0: u8, h: nat)
    requires st.s == Byte(s0 - h)
    ensures Push(st, v).s == Byte(s0 - (h + 1)) && Push(st, v).mem == st.mem[Slot(s0, h) := v]
  {
  }

  lemma PullAt(st: State, s0: u8, h: nat)
    requires st.s == Byte(s0 - h) && h > 0
    ensures Pull(st).0.s == Byte(s0 - (h - 1)) && Pull(st).0.mem == st.mem
  {
  }

  /** A balanced run returns S to where it was, and only touches the stack bytes it may push
      to and the bytes it writes. */
  lemma {:induction false} BalancedRun(ops: seq<Op>, st: State, s0: u8, h: nat, max: nat, end: nat)
    requires Balanced(ops, h, max, end) && st.s == Byte(s0 - h)
    ensures RunOps(ops, st).s == Byte(s0 - end)
    ensures forall a: u16 :: !Dead(s0, max, a) && !Writes(ops, a) ==> RunOps(ops, st).mem[a] == st.mem[a]
    decreases |ops|
  {
    hide Slot, Push, Pull;
    if ops != [] {
      var op, rest, t := ops[0], ops[1..], Do(ops[0], st);
      var h' := match op case PushOp(_) => h + 1 case PullOp => h - 1 case _ => h;
      match op {
        case PushOp(v) => PushAt(st, v, s0, h);
        case PullOp => PullAt(st, s0, h);
        case _ =>
      }
      BalancedRun(rest, t, s0, h', max, end);
      forall a: u16 | !Dead(s0, max, a) && !Writes(ops, a)
        ensures t.mem[a] == st.mem[a] && !Writes(rest, a)
      {
        assert op in ops;
        if op.PushOp? {
          assert a != Slot(s0, h);
        }
      }
    }
  }

  // ---- the saved status ----

  /** Masking bit 4 out of a byte that has it. */
  lemma ClearBit4(hi: nat, lo: nat)
    requires hi < 8 && lo < 16
    ensures And(0x20 * hi + 0x10 + lo, 0xEF) == 0x20 * hi + lo
  {
    var p := 0x20 * hi + 0x10 + lo;
    assert p / 2 / 2 / 2 / 2 == 2 * hi + 1;
    assert Has(2 * hi + 1, 0);
    assert Has(p / 2 / 2, 2);
    assert Exp2(4) == 0x10 && Exp2(8) == 0x100;
    AndClear(p, 4, 8);
  }

  /** P as a hardware interrupt pushes it. */
  lemma SavedP(st: State)
    ensures And(PPack(st), 0xEF) == PPack(st) - 0x10
  {
    var hi, lo := 4 * Num(st.n) + 2 * Num(st.v) + 1, 8 * Num(st.d) + 4 * Num(st.i) + 2 * Num(st.z) + Num(st.c);
    assert PPack(st) == 0x20 * hi + 0x10 + lo;
    ClearBit4(hi, lo);
  }

  /** Unpacking the pushed P restores all six flags, whatever happened to them since. */
  lemma UnpackRestores(st: State, t: State)
    ensures var u := PUnpack(t, And(PPack(st), 0xEF));
            u == t.(n := st.n, v := st.v, d := st.d, i := st.i, z := st.z, c := st.c)
  {
    SavedP(st);
  }

  // ---- transparency ----

  /** The state after delivery, a handler of the given accesses, and the return from it. */
  function Interrupted(st: State, ret: u16, handler: seq<Op>): State { Rti(RunOps(handler, IrqEntry(st, ret))) }

  lemma EntryFrame(st: State, ret: u16)
    ensures var t := IrqEntry(st, ret);
            && t.s == Byte(st.s - 3) && t.mem[Slot(st.s, 2)] == And(PPack(st), 0xEF)
            && t.mem[Slot(st.s, 1)] == ret % 0x100 && t.mem[Slot(st.s, 0)] == ret / 0x100
            && forall a: u16 :: !Dead(st.s, 3, a) ==> t.mem[a] == st.mem[a]
  {
    hide PPack, And, Push, Slot;
    SlotsDiffer(st.s, 0, 1);
    SlotsDiffer(st.s, 0, 2);
    SlotsDiffer(st.s, 1, 2);
    var hi: u8, lo: u8 := ret / 0x100, ret % 0x100;
    PushAt(st, hi, st.s, 0);
    PushAt(Push(st, hi), lo, st.s, 1);
    PushAt(Push(Push(st, hi), lo), And(PPack(st), 0xEF), st.s, 2);
    var t := IrqEntry(st, ret);
    forall a: u16 | !Dead(st.s, 3, a)
      ensures t.mem[a] == st.mem[a]
    {
      assert a != Slot(st.s, 0) && a != Slot(st.s, 1) && a != Slot(st.s, 2);
    }
  }

  /** The stack bytes below the pushed frame are below the interrupted code's S as well. */
  lemma DeadBelow(s: u8, e: u8, n: nat, a: u16)
    requires e == Byte(s - 3)
    ensures Dead(e, n, a) ==> Dead(s, n + 3, a)
    ensures Dead(s, 3, a) ==> Dead(s, n + 3, a)
  {
    hide Slot;
    if Dead(e, n, a) {
      var k: nat :| k < n && a == Slot(e, k);
      SlotBelow(s, e, k);
    }
    if Dead(s, 3, a) {
      var k: nat :| k < 3 && a == Slot(s, k);
    }
  }

  lemma SlotBelow(s: u8, e: u8, k: nat)
    requires e == Byte(s - 3)
    ensures Slot(e, k) == Slot(s, k + 3)
  {
  }

  /** The saved P is out of reach of 255 pushes. */
  lemma FrameIsSpared(s: u8, e: u8, max: nat)
    requires e == Byte(s - 3) && max <= 255
    ensures !Dead(e, max, Slot(s, 2))
  {
    hide Exp2, And, Or;
    forall k: nat | k < max
      ensures Slot(s, 2) != Slot(e, k)
    {
      hide Slot;
      SlotBelow(s, e, k);
      SlotsDiffer(s, 2, k + 3);
    }
  }

  /** What `lynx_rti` finds and leaves, if the saved P is still there. */
  lemma RtiRestores(st: State, u: State)
    requires u.s == Byte(st.s - 3) && u.mem[Slot(st.s, 2)] == And(PPack(st), 0xEF)
    ensures var t := Rti(u);
            && t.s == st.s && t.mem == u.mem
            && t.n == st.n && t.v == st.v && t.d == st.d && t.i == st.i && t.z == st.z && t.c == st.c
  {
    hide PUnpack, Exp2;
    UnpackRestores(st, Pull(u).0);
    assert Pull(u).1 == u.mem[Slot(st.s, 2)];
  }

  /** An interrupt is invisible to the interrupted code: S and the six flags come back, and
      memory differs only in the stack bytes the delivery and the handler used and in what the
      handler wrote. The handler may be 255 pushes deep; S may wrap. */
  lemma Transparent(st: State, ret: u16, handler: seq<Op>, max: nat)
    requires Balanced(handler, 0, max, 0) && max <= 255 && SparesSavedP(handler, st.s)
    ensures var t := Interrupted(st, ret, handler);
            && t.s == st.s
            && t.n == st.n && t.v == st.v && t.d == st.d && t.i == st.i && t.z == st.z && t.c == st.c
            && forall a: u16 :: !Dead(st.s, max + 3, a) && !Writes(handler, a) ==> t.mem[a] == st.mem[a]
  {
    hide Slot, PPack, And, IrqEntry, Rti, RunOps, Balanced, Writes, Dead;
    EntryFrame(st, ret);
    var e := IrqEntry(st, ret);
    BalancedRun(handler, e, e.s, 0, max, 0);
    FrameIsSpared(st.s, e.s, max);
    RtiRestores(st, RunOps(handler, e));
    forall a: u16 | !Dead(st.s, max + 3, a) && !Writes(handler, a)
      ensures RunOps(handler, e).mem[a] == st.mem[a]
    {
      DeadBelow(st.s, e.s, max, a);
    }
  }

  // ---- how deep is too deep ----

  /** `n` pushes of one byte, then as many pulls. */
  function PushesAndPulls(v: u8, n: nat, m: nat): seq<Op>
    decreases 2 * n + m
  {
    if n > 0 then [PushOp(v)] + PushesAndPulls(v, n - 1, m + 1)
    else if m > 0 then [PullOp] + PushesAndPulls(v, 0, m - 1)
    else []
  }

  lemma {:induction false} PushesAndPullsBalanced(v: u8, n: nat, m: nat, max: nat)
    requires n + m <= max
    ensures Balanced(PushesAndPulls(v, n, m), m, max, 0)
    decreases 2 * n + m
  {
    if n > 0 {
      PushesAndPullsBalanced(v, n - 1, m + 1, max);
    } else if m > 0 {
      PushesAndPullsBalanced(v, 0, m - 1, max);
    }
  }

  /** After `m` pushes below `s0`: the last of `n` more is what its stack byte keeps. */
  lemma {:induction false} LastPushStays(st: State, s0: u8, v: u8, n: nat, m: nat, a: u16)
    requires st.s == Byte(s0 - m)
    requires if n == 0 then st.mem[a] == v else a == Slot(s0, m + n - 1)
    ensures RunOps(PushesAndPulls(v, n, m), st).mem[a] == v
    decreases 2 * n + m
  {
    hide Slot, Push, Pull, RunOps;
    if n > 0 {
      PushAt(st, v, s0, m);
      RunCons(PushOp(v), PushesAndPulls(v, n - 1, m + 1), st);
      LastPushStays(Push(st, v), s0, v, n - 1, m + 1, a);
    } else if m > 0 {
      PullAt(st, s0, m);
      RunCons(PullOp, PushesAndPulls(v, 0, m - 1), st);
      LastPushStays(Pull(st).0, s0, v, 0, m - 1, a);
    } else {
      RunNone(st);
    }
  }

  /** The bytes of the stack page. */
  const PAGE: nat := 256

  /** The bound of `Transparent` is exact: a balanced handler 256 pushes deep can leave any
      flags, since its last push reaches the saved P around the page. */
  lemma DeeperLosesFlags(st: State, ret: u16, v: u8)
    ensures var handler := PushesAndPulls(v, PAGE, 0);
            && Balanced(handler, 0, PAGE, 0) && SparesSavedP(handler, st.s)
            && var t := Interrupted(st, ret, handler);
               t == t.(n := Bit(v, 7), v := Bit(v, 6), d := Bit(v, 3), i := Bit(v, 2), z := Bit(v, 1), c := Bit(v, 0))
  {
    hide PPack, And, Dead, Writes, Rti, Slot, IrqEntry, RunOps, PushesAndPulls, Balanced;
    var e, handler := IrqEntry(st, ret), PushesAndPulls(v, PAGE, 0);
    EntryFrame(st, ret);
    PushesAndPullsBalanced(v, PAGE, 0, PAGE);
    NoWrites(v, PAGE, 0, Slot(st.s, 2));
    SlotBelow(st.s, e.s, 255);
    SlotWraps(st.s, 2);
    assert st.s - 0 == st.s && e.s == Byte(e.s - 0);
    LastPushStays(e, e.s, v, PAGE, 0, Slot(st.s, 2));
    BalancedRun(handler, e, e.s, 0, PAGE, 0);
    RtiTakes(RunOps(handler, e), v);
  }

  lemma SlotWraps(s: u8, k: nat)
    ensures Slot(s, k + 256) == Slot(s, k)
  {
  }

  /** The byte on top is what `lynx_rti` takes for the flags. */
  lemma RtiTakes(u: State, v: u8)
    requires u.mem[Slot(u.s, 255)] == v
    ensures var t := Rti(u);
            t == t.(n := Bit(v, 7), v := Bit(v, 6), d := Bit(v, 3), i := Bit(v, 2), z := Bit(v, 1), c := Bit(v, 0))
  {
    hide Bit;
  }

  lemma {:induction false} NoWrites(v: u8, n: nat, m: nat, a: u16)
    ensures !Writes(PushesAndPulls(v, n, m), a)
    decreases 2 * n + m
  {
    if n > 0 {
      NoWrites(v, n - 1, m + 1, a);
    } else if m > 0 {
      NoWrites(v, 0, m - 1, a);
    }
  }

  /** Bytes the interrupted code has on the stack are safe from a handler that fits below. */
  lemma LiveBytesAreSafe(s: u8, live: nat, max: nat, j: nat)
    requires 1 <= j <= live && live + max + 3 <= 0x100
    ensures !Dead(s, max + 3, 0x100 + Byte(s + j))
  {
    forall k: nat | k < max + 3
      ensures 0x100 + Byte(s + j) != Slot(s, k)
    {
    }
  }

  // ---- nesting ----

  function FlagsOf(st: State): Regs { Regs(st.a, st.x, st.y, st.n, st.v, st.d, st.i, st.z, st.c) }

  /** A delivery in state `st`, as accesses. */
  function DeliveryOps(st: State, ret: u16): seq<Op> {
    var p := And(PPack(st), 0xEF);
    [PushOp(ret / 0x100), PushOp(ret % 0x100), PushOp(p), RegsOp(FlagsOf(st).(i := true, d := false))]
  }

  /** A return from interrupt in state `st`, as accesses. */
  function ReturnOps(st: State): seq<Op> { [PullOp, PullOp, PullOp, RegsOp(FlagsOf(Rti(st)))] }

  lemma RunFour(a: Op, b: Op, c: Op, d: Op, st: State)
    ensures RunOps([a, b, c, d], st) == Do(d, Do(c, Do(b, Do(a, st))))
  {
    hide Do, RunOps;
    assert [a, b, c, d] == [a] + [b, c, d] && [b, c, d] == [b] + [c, d] && [c, d] == [c] + [d] && [d] == [d] + [];
    RunCons(a, [b, c, d], st);
    RunCons(b, [c, d], Do(a, st));
    RunCons(c, [d], Do(b, Do(a, st)));
    RunCons(d, [], Do(c, Do(b, Do(a, st))));
    RunNone(Do(d, Do(c, Do(b, Do(a, st)))));
  }

  lemma DeliveryIsOps(st: State, ret: u16)
    ensures RunOps(DeliveryOps(st, ret), st) == IrqEntry(st, ret)
  {
    var p := And(PPack(st), 0xEF);
    RunFour(PushOp(ret / 0x100), PushOp(ret % 0x100), PushOp(p), RegsOp(FlagsOf(st).(i := true, d := false)), st);
  }

  lemma ReturnIsOps(st: State)
    ensures RunOps(ReturnOps(st), st) == Rti(st)
  {
    RunFour(PullOp, PullOp, PullOp, RegsOp(FlagsOf(Rti(st))), st);
  }

  lemma {:induction false} BalancedConcat(l: seq<Op>, m: seq<Op>, h: nat, max: nat, mid: nat, end: nat)
    requires Balanced(l, h, max, mid) && Balanced(m, mid, max, end)
    ensures Balanced(l + m, h, max, end)
    decreases |l|
  {
    if l == [] {
      assert l + m == m;
    } else {
      assert (l + m)[1..] == l[1..] + m;
      var h' := match l[0] case PushOp(_) => h + 1 case PullOp => h - 1 case _ => h;
      BalancedConcat(l[1..], m, h', max, mid, end);
    }
  }

  lemma {:induction false} BalancedDeeper(l: seq<Op>, h: nat, max: nat, end: nat, more: nat)
    requires Balanced(l, h, max, end)
    ensures Balanced(l, h + more, max + more, end + more)
    decreases |l|
  {
    if l != [] {
      var h' := match l[0] case PushOp(_) => h + 1 case PullOp => h - 1 case _ => h;
      BalancedDeeper(l[1..], h', max, end, more);
    }
  }

  /** One delivery, its handler and the return are a balanced run of accesses, three bytes deeper
      than the handler. */
  lemma NestedDelivery(st: State, ret: u16, inner: seq<Op>, st': State, max: nat)
    requires Balanced(inner, 0, max, 0)
    ensures Balanced(DeliveryOps(st, ret) + inner + ReturnOps(st'), 0, max + 3, 0)
  {
    var d, r := DeliveryOps(st, ret), ReturnOps(st');
    assert d[1..][1..] == d[2..] && d[2..][1..] == d[3..] && d[3..][1..] == [];
    assert r[1..][1..] == r[2..] && r[2..][1..] == r[3..] && r[3..][1..] == [];
    assert Balanced(d[3..], 3, max + 3, 3) && Balanced(d[2..], 2, max + 3, 3) && Balanced(d[1..], 1, max + 3, 3);
    assert Balanced(r[3..], 0, max + 3, 0) && Balanced(r[2..], 1, max + 3, 0) && Balanced(r[1..], 2, max + 3, 0);
    BalancedDeeper(inner, 0, max, 0, 3);
    BalancedConcat(d, inner, 0, max + 3, 3, 3);
    BalancedConcat(d + inner, r, 0, max + 3, 3, 0);
  }

  /** What a handler does when it may itself be interrupted: after CLI, any tick can deliver. `at` is
      the return address that is pushed. */
  datatype Act = Access(op: Op) | Interrupt(at: u16, handler: seq<Act>)

  /** A run in which every nested delivery happens in the state that has been reached. */
  function RunActs(acts: seq<Act>, st: State): State {
    if acts == [] then st
    else match acts[0]
      case Access(op) => RunActs(acts[1..], Do(op, st))
      case Interrupt(at, handler) => RunActs(acts[1..], Rti(RunActs(handler, IrqEntry(st, at))))
  }

  /** Starting `h` pushes deep, the handler and all it nests stay within `max` and end `end` deep;
      a nested handler starts three bytes down and takes its pushes back. */
  predicate Nested(acts: seq<Act>, h: nat, max: nat, end: nat) {
    if acts == [] then h == end
    else match acts[0]
      case Access(PushOp(_)) => h < max && Nested(acts[1..], h + 1, max, end)
      case Access(PullOp) => h > 0 && Nested(acts[1..], h - 1, max, end)
      case Access(_) => Nested(acts[1..], h, max, end)
      case Interrupt(_, handler) =>
        h + 3 <= max && Nested(handler, 0, max - h - 3, 0) && Nested(acts[1..], h, max, end)
  }

  /** Some access writes address `a`, at whatever level. */
  predicate ActsWrite(acts: seq<Act>, a: u16) {
    acts != [] &&
    ((match acts[0]
      case Access(op) => op.WriteOp? && op.a == a
      case Interrupt(_, handler) => ActsWrite(handler, a))
     || ActsWrite(acts[1..], a))
  }

  /** The accesses of such a run, the deliveries and returns among them. */
  function Flatten(acts: seq<Act>, st: State): seq<Op> {
    if acts == [] then []
    else match acts[0]
      case Access(op) => [op] + Flatten(acts[1..], Do(op, st))
      case Interrupt(at, handler) =>
        var inner := Flatten(handler, IrqEntry(st, at));
        var u := RunActs(handler, IrqEntry(st, at));
        DeliveryOps(st, at) + inner + ReturnOps(u) + Flatten(acts[1..], Rti(u))
  }

  lemma {:induction false} RunOpsConcat(l: seq<Op>, m: seq<Op>, st: State)
    ensures RunOps(l + m, st) == RunOps(m, RunOps(l, st))
    decreases |l|
  {
    if l == [] {
      assert l + m == m;
    } else {
      assert (l + m)[1..] == l[1..] + m;
      RunOpsConcat(l[1..], m, Do(l[0], st));
    }
  }

  /** The accesses are those of the run. */
  lemma {:induction false} FlattenRuns(acts: seq<Act>, st: State)
    ensures RunOps(Flatten(acts, st), st) == RunActs(acts, st)
  {
    hide Do, IrqEntry, Rti, DeliveryOps, ReturnOps;
    if acts != [] {
      match acts[0]
      case Access(op) => FlattenRuns(acts[1..], Do(op, st));
      case Interrupt(at, handler) =>
        var e := IrqEntry(st, at);
        var inner, u, rest := Flatten(handler, e), RunActs(handler, e), acts[1..];
        FlattenRuns(handler, e);
        FlattenRuns(rest, Rti(u));
        DeliveryIsOps(st, at);
        ReturnIsOps(u);
        RunOpsConcat(DeliveryOps(st, at), inner, st);
        RunOpsConcat(DeliveryOps(st, at) + inner, ReturnOps(u), st);
        RunOpsConcat(DeliveryOps(st, at) + inner + ReturnOps(u), Flatten(rest, Rti(u)), st);
    }
  }

  /** They are balanced, deliveries included, whatever the state they start from. */
  lemma {:induction false} FlattenBalanced(acts: seq<Act>, st: State, h: nat, max: nat, end: nat)
    requires Nested(acts, h, max, end)
    ensures Balanced(Flatten(acts, st), h, max, end)
  {
    hide Do, IrqEntry, Rti, DeliveryOps, ReturnOps, RunActs;
    if acts != [] {
      var rest := acts[1..];
      match acts[0]
      case Access(op) =>
        var h' := match op case PushOp(_) => h + 1 case PullOp => h - 1 case _ => h;
        FlattenBalanced(rest, Do(op, st), h', max, end);
        assert ([op] + Flatten(rest, Do(op, st)))[1..] == Flatten(rest, Do(op, st));
      case Interrupt(at, handler) =>
        var inner, u := Flatten(handler, IrqEntry(st, at)), RunActs(handler, IrqEntry(st, at));
        FlattenBalanced(handler, IrqEntry(st, at), 0, max - h - 3, 0);
        FlattenBalanced(rest, Rti(u), h, max, end);
        NestedDelivery(st, at, inner, u, max - h - 3);
        BalancedDeeper(DeliveryOps(st, at) + inner + ReturnOps(u), 0, max - h, 0, h);
        BalancedConcat(DeliveryOps(st, at) + inner + ReturnOps(u), Flatten(rest, Rti(u)), h, max, h, end);
    }
  }

  /** They write what some level writes, and nothing else. */
  lemma {:induction false} FlattenWrites(acts: seq<Act>, st: State, a: u16)
    requires !ActsWrite(acts, a)
    ensures !Writes(Flatten(acts, st), a)
  {
    hide Do, IrqEntry, Rti, RunActs, PPack, And, FlagsOf;
    if acts != [] {
      match acts[0]
      case Access(op) => FlattenWrites(acts[1..], Do(op, st), a);
      case Interrupt(at, handler) =>
        FlattenWrites(handler, IrqEntry(st, at), a);
        FlattenWrites(acts[1..], Rti(RunActs(handler, IrqEntry(st, at))), a);
    }
  }

  /** An interrupt is invisible to the interrupted code even when its handler is interrupted, to
      any depth of nesting that fits in 255 bytes: S and the six flags come back, and memory
      differs only in the dead stack bytes and in what some level wrote. */
  lemma NestedTransparent(st: State, at: u16, handler: seq<Act>, max: nat)
    requires Nested(handler, 0, max, 0) && max <= 255 && !ActsWrite(handler, Slot(st.s, 2))
    ensures var t := RunActs([Interrupt(at, handler)], st);
            && t.s == st.s
            && t.n == st.n && t.v == st.v && t.d == st.d && t.i == st.i && t.z == st.z && t.c == st.c
            && forall a: u16 :: !Dead(st.s, max + 3, a) && !ActsWrite(handler, a) ==> t.mem[a] == st.mem[a]
  {
    hide IrqEntry, Rti, Flatten, Balanced, Writes, Dead, RunOps;
    var e := IrqEntry(st, at);
    var ops := Flatten(handler, e);
    assert RunActs([], Rti(RunActs(handler, e))) == Rti(RunActs(handler, e));
    FlattenRuns(handler, e);
    FlattenBalanced(handler, e, 0, max, 0);
    FlattenWrites(handler, e, Slot(st.s, 2));
    Transparent(st, at, ops, max);
    forall a: u16 | !Dead(st.s, max + 3, a) && !ActsWrite(handler, a)
      ensures !Writes(ops, a)
    {
      FlattenWrites(handler, e, a);
    }
  }

  /** Handlers that each go at most `d` deep, nested at most `n` levels down. */
  predicate Shallow(acts: seq<Act>, h: nat, d: nat, end: nat, n: nat) {
    if acts == [] then h == end
    else match acts[0]
      case Access(PushOp(_)) => h < d && Shallow(acts[1..], h + 1, d, end, n)
      case Access(PullOp) => h > 0 && Shallow(acts[1..], h - 1, d, end, n)
      case Access(_) => Shallow(acts[1..], h, d, end, n)
      case Interrupt(_, handler) => n > 0 && Shallow(handler, 0, d, 0, n - 1) && Shallow(acts[1..], h, d, end, n)
  }

  /** The stack that `n` levels below a handler `d` deep can take: `d + n * (d + 3)`. */
  function Room(d: nat, n: nat): (r: nat)
    ensures r == d + n * (d + 3)
  {
    if n == 0 then d else d + 3 + Room(d, n - 1)
  }

  lemma {:induction false} ShallowIsNested(acts: seq<Act>, h: nat, d: nat, end: nat, n: nat, max: nat)
    requires Shallow(acts, h, d, end, n) && h <= d && Room(d, n) <= max
    ensures Nested(acts, h, max, end)
  {
    if acts != [] {
      assert Room(d, n) >= d;
      match acts[0]
      case Access(PushOp(_)) => ShallowIsNested(acts[1..], h + 1, d, end, n, max);
      case Access(PullOp) => ShallowIsNested(acts[1..], h - 1, d, end, n, max);
      case Access(_) => ShallowIsNested(acts[1..], h, d, end, n, max);
      case Interrupt(_, handler) =>
        assert Room(d, n) == d + 3 + Room(d, n - 1);
        ShallowIsNested(handler, 0, d, 0, n - 1, max - h - 3);
        ShallowIsNested(acts[1..], h, d, end, n, max);
    }
  }

  /** The interpreter enters a handler and returns from it likewise. */
  lemma EntryAgrees(st: State, pc: u16)
    ensures IrqEntry(st, pc) == Interp.Irq(Interp.Config(st, pc)).st
  {
  }

  /** The address on the stack is what the interpreter returns to. */
  lemma PcReturns(st: State, pc: u16, u: State)
    requires u.s == Byte(st.s - 3) && u.mem[Slot(st.s, 1)] == pc % 0x100 && u.mem[Slot(st.s, 0)] == pc / 0x100
    ensures Interp.TopWord(Interp.Dropped(u)) == pc
  {
  }

  /** The return address is out of reach of 253 pushes. */
  lemma PcIsSpared(s: u8, e: u8, max: nat)
    requires e == Byte(s - 3) && max <= 253
    ensures !Dead(e, max, Slot(s, 0)) && !Dead(e, max, Slot(s, 1))
  {
    forall k: nat | k < max
      ensures Slot(s, 0) != Slot(e, k) && Slot(s, 1) != Slot(e, k)
    {
      hide Slot;
      SlotBelow(s, e, k);
      SlotsDiffer(s, 0, k + 3);
      SlotsDiffer(s, 1, k + 3);
    }
  }

  /** Interrupted at `pc`, the interpreter enters its handler, runs it and comes back: at `pc`
      again, in the state that `NestedTransparent` describes. */
  lemma InterpreterComesBack(st: State, pc: u16, handler: seq<Act>, max: nat)
    requires Nested(handler, 0, max, 0) && max <= 253
    requires !ActsWrite(handler, Slot(st.s, 0)) && !ActsWrite(handler, Slot(st.s, 1))
    ensures var u := RunActs(handler, Interp.Irq(Interp.Config(st, pc)).st);
            && Interp.FromIrq(u) == RunActs([Interrupt(pc, handler)], st)
            && Interp.TopWord(Interp.Dropped(u)) == pc
  {
    hide IrqEntry, Rti, Flatten, Balanced, Writes, Dead, RunOps, Slot, Nested, ActsWrite;
    hide Interp.Irq, Interp.FromIrq, Interp.TopWord;
    var e := IrqEntry(st, pc);
    var u, ops := RunActs(handler, e), Flatten(handler, e);
    EntryAgrees(st, pc);
    Emit.RtiAgrees(u);
    EntryFrame(st, pc);
    FlattenRuns(handler, e);
    FlattenBalanced(handler, e, 0, max, 0);
    FlattenWrites(handler, e, Slot(st.s, 0));
    FlattenWrites(handler, e, Slot(st.s, 1));
    BalancedRun(ops, e, e.s, 0, max, 0);
    PcIsSpared(st.s, e.s, max);
    PcReturns(st, pc, u);
    assert RunActs([], Rti(u)) == Rti(u);
  }

  function Accesses(ops: seq<Op>): seq<Act> {
    if ops == [] then [] else [Access(ops[0])] + Accesses(ops[1..])
  }

  /** A handler that is not interrupted. */
  lemma {:induction false} AccessesAre(ops: seq<Op>, st: State, h: nat, max: nat, end: nat, a: u16)
    ensures RunActs(Accesses(ops), st) == RunOps(ops, st)
    ensures Nested(Accesses(ops), h, max, end) == Balanced(ops, h, max, end)
    ensures ActsWrite(Accesses(ops), a) == Writes(ops, a)
    decreases |ops|
  {
    hide Do;
    if ops != [] {
      var op, rest := ops[0], ops[1..];
      assert Accesses(ops)[1..] == Accesses(rest);
      var h' := if op.PushOp? then h + 1 else if op.PullOp? && h > 0 then h - 1 else h;
      AccessesAre(rest, Do(op, st), h', max, end, a);
    }
  }

  /** The pushes that `InterpreterComesBack` cannot allow. */
  const TOO_DEEP: nat := 254

  /** Its bound is exact: a handler 254 pushes deep, which writes nothing else, overwrites the high
      byte of the return address, and the interpreter comes back somewhere else. */
  lemma DeeperLosesPc(st: State, pc: u16, v: u8)
    ensures var handler := Accesses(PushesAndPulls(v, TOO_DEEP, 0));
            var u := RunActs(handler, Interp.Irq(Interp.Config(st, pc)).st);
            && Nested(handler, 0, TOO_DEEP, 0)
            && !ActsWrite(handler, Slot(st.s, 0)) && !ActsWrite(handler, Slot(st.s, 1))
            && Interp.TopWord(Interp.Dropped(u)) == 0x100 * v + pc % 0x100
  {
    hide PPack, And, Dead, Writes, ActsWrite, Slot, IrqEntry, RunOps, RunActs, PushesAndPulls;
    hide Balanced, Nested, Accesses, Interp.Irq, Interp.TopWord;
    var e, ops := IrqEntry(st, pc), PushesAndPulls(v, TOO_DEEP, 0);
    var u := RunOps(ops, e);
    EntryAgrees(st, pc);
    EntryFrame(st, pc);
    PushesAndPullsBalanced(v, TOO_DEEP, 0, TOO_DEEP);
    AccessesAre(ops, e, 0, TOO_DEEP, 0, Slot(st.s, 0));
    AccessesAre(ops, e, 0, TOO_DEEP, 0, Slot(st.s, 1));
    NoWrites(v, TOO_DEEP, 0, Slot(st.s, 0));
    NoWrites(v, TOO_DEEP, 0, Slot(st.s, 1));
    SlotBelow(st.s, e.s, 253);
    SlotWraps(st.s, 0);
    assert e.s == Byte(e.s - 0);
    LastPushStays(e, e.s, v, TOO_DEEP, 0, Slot(st.s, 0));
    BalancedRun(ops, e, e.s, 0, TOO_DEEP, 0);
    LowByteIsSpared(st.s, e.s);
    PcReturns(st, 0x100 * v + pc % 0x100, u);
  }

  /** The low byte of the return address is out of reach of 254 pushes. */
  lemma LowByteIsSpared(s: u8, e: u8)
    requires e == Byte(s - 3)
    ensures !Dead(e, TOO_DEEP, Slot(s, 1))
  {
    forall k: nat | k < TOO_DEEP
      ensures Slot(s, 1) != Slot(e, k)
    {
      hide Slot;
      SlotBelow(s, e, k);
      SlotsDiffer(s, 1, k + 3);
    }
  }
}
