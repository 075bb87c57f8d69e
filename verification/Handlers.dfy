/** Interrupts whose handlers are recompiled code: a tick calls the emitted function at the IRQ vector,
    its statements run like any others, and its RTI returns to the function that was interrupted. The
    program follows the interpreter, interrupted at the same instructions. */
module Handlers {
  import opened Bytes
  import opened Cpu
  import opened Translate
  import opened StackFrame
  import opened Simulation
  import opened Runs
  import opened Interrupts
  import AudioUnit
  import Interp
  import Lockstep
  import R = Runtime
  import Tick
  import TickedRuns
  import TimerUnit
  import Timers

  const IRQ_VECTOR: u16 := 0xFFFE

  function VectorOf(st: State): u16 { Read16(st, IRQ_VECTOR) }

  function StatusOf(st: State): u8 { And(R.PPack(st), 0xEF) }

  /** `lynx_irq_deliver` with the handler's function at `vec`: to come back to where `c` is. */
  function Entered(c: CConf, vec: u16): CConf { CConf(IrqEntry(c.st, 0), Frame(vec, 0), [c.at] + c.callers) }

  lemma EntryKeepsStack(st: State, pc: u16, bytes: seq<u8>, base: u8)
    requires StackIs(st, bytes, base) && st.s >= 3
    ensures var t := IrqEntry(st, pc);
            && StackIs(t, [StatusOf(st)] + ([pc % 0x100] + ([pc / 0x100] + bytes)), base)
            && OffPage(st.mem, t.mem) && t == With(st.(i := true, d := false), t.s, t.mem)
  {
    hide StackIs, OffPage, And, R.PPack;
    var hi: u8, lo: u8, status := pc / 0x100, pc % 0x100, StatusOf(st);
    var s1 := R.Push(st, hi);
    var s2 := R.Push(s1, lo);
    var s3 := R.Push(s2, status);
    PushedOn(st, hi, bytes, base);
    PushedOn(s1, lo, [hi] + bytes, base);
    PushedOn(s2, status, [lo] + ([hi] + bytes), base);
    OffPageChain(st.mem, s1.mem, s2.mem, s3.mem);
    StackSame(s3, IrqEntry(st, pc), [status] + ([lo] + ([hi] + bytes)), base);
  }

  lemma PushedOn(st: State, b: u8, bytes: seq<u8>, base: u8)
    requires StackIs(st, bytes, base) && st.s >= 1
    ensures var t := R.Push(st, b);
            && StackIs(t, [b] + bytes, base) && OffPage(st.mem, t.mem) && t == With(st, t.s, t.mem) && t.s == st.s - 1
  {
    PushKeepsStack(st, b, bytes, base);
  }

  lemma OffPageChain(m: Mem, n: Mem, o: Mem, q: Mem)
    requires OffPage(m, n) && OffPage(n, o) && OffPage(o, q)
    ensures OffPage(m, q)
  {
  }

  lemma StatusAlike(s: State, k: u8, m: Mem)
    ensures StatusOf(With(s, k, m)) == StatusOf(s)
  {
  }

  /** The vector is outside the stack page. */
  lemma VectorAlike(s: State, t: State)
    requires OffPage(s.mem, t.mem)
    ensures VectorOf(t) == VectorOf(s)
  {
  }

  lemma VectorAfterEntry(i: Interp.Config)
    requires OffPage(i.st.mem, Interp.Irq(i).st.mem)
    ensures Interp.Irq(i).pc == VectorOf(i.st)
  {
    VectorAlike(i.st, Interp.Irq(i).st);
  }

  lemma FramesOnTop(p: Prog, f: Frame, callers: seq<Frame>, a: u16, rets: seq<u16>)
    requires FramesMatch(p, callers, rets) && Position(p, f) && AddrOf(p, f) == ReturnPc(a)
    ensures FramesMatch(p, [f] + callers, [a] + rets)
  {
    hide Position, AddrOf, ReturnPc;
  }

  /** Delivery keeps the machines related: the interpreter at its vector, the C program at the first
      statement of the function there, with one more frame on the stack of each. */
  lemma EntryRelated(p: Prog, i: Interp.Config, c: CConf, items: seq<Item>, base: u8)
    requires Related(p, i, c, items, base) && i.st.s >= 3
    requires VectorOf(i.st) in p.starts && CodeIntact(p, Interp.Irq(i).st.mem)
    ensures Related(p, Interp.Irq(i), Entered(c, VectorOf(c.st)), [IrqFrame(i.pc, StatusOf(i.st))] + items, base)
  {
    hide CodeIntact, Position, AddrOf, FramesMatch, StackIs, IrqEntry, Interp.Irq, VectorOf, StatusOf;
    var status: u8, pc: u16 := StatusOf(i.st), i.pc;
    var e, vec := IrqEntry(i.st, pc), VectorOf(i.st);
    EntryAgrees(i.st, pc);
    FrameOnTop(pc, status, items);
    EntryKeepsStack(i.st, pc, BytesOf(items), base);
    OnAndAbove(i.st, c.st, items, base);
    StatusAlike(i.st, c.st.s, c.st.mem);
    EntryKeepsStack(c.st, 0, Erased(items), base);
    EntriesAlike(i.st, c.st, pc);
    VectorAlike(i.st, c.st);
    VectorAfterEntry(i);
    StartAddr(p, vec);
    BackToPc(pc);
    FramesOnTop(p, c.at, c.callers, Word(pc - 1), Returns(items));
  }

  lemma EntriesAlike(s: State, t: State, pc: u16)
    requires t == With(s, t.s, t.mem) && OffPage(s.mem, t.mem)
    ensures var s', t' := IrqEntry(s, pc), IrqEntry(t, 0); t' == With(s', t'.s, t'.mem) && OffPage(s'.mem, t'.mem)
  {
    TickedRuns.EntryAlike(s, t, pc, 0);
  }

  lemma OnAndAbove(s: State, t: State, items: seq<Item>, base: u8)
    requires StackIs(s, BytesOf(items), base) && StackIs(t, Erased(items), base)
    ensures t.s >= s.s
  {
    ErasedIsShorter(items);
  }

  // ---- runs ----

  /** The tick of this step finds an interrupt pending in the timers it advances, and not masked. */
  ghost predicate Delivers(p: Prog, c: CConf, clocks: Timers.Clocks) {
    && StepTicks(p, c) && CStep(p, c).Next? && !CStep(p, c).c.st.i
    && TickedRuns.Pending(Timers.Step(clocks, Tick.TICK_US))
  }

  /** One statement, with the timers that its tick finds. A vector to code that was not recompiled
      goes to a hook. */
  ghost function ServedStep(p: Prog, c: CConf, clocks: Timers.Clocks): Outcome {
    if Delivers(p, c, clocks) then
      var d := CStep(p, c).c;
      var vec := VectorOf(d.st);
      if vec in p.starts then Next(Entered(d, vec)) else Halted(IrqEntry(d.st, 0), Escape(vec))
    else CStep(p, c)
  }

  ghost function ServedRun(p: Prog, c: CConf, cs: seq<Timers.Clocks>, k: nat): Outcome
    requires k <= |cs|
  {
    if k == 0 then Next(c)
    else
      match ServedRun(p, c, cs, k - 1)
      case Next(d) => ServedStep(p, d, cs[k - 1])
      case Halted(t, w) => Halted(t, w)
  }

  /** The interpreter after its next instruction and, if there is one, the interrupt. */
  function Interrupted(a: Traced, delivered: bool): Traced {
    var b := TickedRuns.Stepped(a);
    if delivered then Traced(Interp.Irq(b.i), [IrqFrame(b.i.pc, StatusOf(b.i.st))] + b.items) else b
  }

  ghost predicate DeliversAt(p: Prog, c: CConf, cs: seq<Timers.Clocks>, k: nat)
    requires k < |cs|
  {
    match ServedRun(p, c, cs, k) case Next(d) => Delivers(p, d, cs[k]) case _ => false
  }

  /** The interpreter after `k` instructions, interrupted where the C program was. */
  ghost function InterruptedRun(p: Prog, a: Traced, c: CConf, cs: seq<Timers.Clocks>, k: nat): Traced
    requires k <= |cs|
  {
    if k == 0 then a
    else Interrupted(InterruptedRun(p, a, c, cs, k - 1), DeliversAt(p, c, cs, k - 1))
  }

  /** An interrupt has room on the stack, and what it pushes spares the code. */
  ghost predicate RoomForIrq(p: Prog, i: Interp.Config) { i.st.s >= 3 && CodeIntact(p, Interp.Irq(i).st.mem) }

  ghost predicate CleanServedAt(p: Prog, a: Traced, c: CConf, cs: seq<Timers.Clocks>, k: nat)
    requires k < |cs|
  {
    var b := InterruptedRun(p, a, c, cs, k);
    Clean(p, b.i, b.items) && (DeliversAt(p, c, cs, k) ==> RoomForIrq(p, TickedRuns.Stepped(b).i))
  }

  /** Every instruction is well behaved, those of the handlers included. */
  ghost predicate CleanServed(p: Prog, a: Traced, c: CConf, cs: seq<Timers.Clocks>) {
    forall k: nat :: k < |cs| ==> CleanServedAt(p, a, c, cs, k)
  }

  ghost predicate ServedTracks(p: Prog, a: Traced, c: CConf, base: u8, cs: seq<Timers.Clocks>, k: nat)
    requires k <= |cs|
  {
    var o, b := ServedRun(p, c, cs, k), InterruptedRun(p, a, c, cs, k);
    o.Next? && Related(p, b.i, o.c, b.items, base)
  }

  ghost predicate ServedTracksTo(p: Prog, a: Traced, c: CConf, base: u8, cs: seq<Timers.Clocks>, n: nat)
    requires n <= |cs|
  {
    forall k: nat :: k <= n ==> ServedTracks(p, a, c, base, cs, k)
  }

  /** The next step goes to a hook, in the state and at the address the interpreter then has. */
  ghost predicate LeavesServed(p: Prog, b: Traced, c: CConf, clocks: Timers.Clocks) {
    var o, next := ServedStep(p, c, clocks), Interrupted(b, Delivers(p, c, clocks)).i;
    o.Halted? && o.why == Escape(next.pc) && Alike(next.st, o.st)
  }

  /** One step of both. */
  lemma ServedGoes(p: Prog, b: Traced, c: CConf, base: u8, clocks: Timers.Clocks) returns (leaves: bool)
    requires Loaded(p) && Closed(p) && Related(p, b.i, c, b.items, base) && Clean(p, b.i, b.items)
    requires !Parts(p, b.i, c) && (Delivers(p, c, clocks) ==> RoomForIrq(p, TickedRuns.Stepped(b).i))
    ensures if leaves then LeavesServed(p, b, c, clocks)
            else
              var o, next := ServedStep(p, c, clocks), Interrupted(b, Delivers(p, c, clocks));
              o.Next? && Related(p, next.i, o.c, next.items, base)
  {
    hide Related, Clean, Parts, CStep, StepTicks, Interp.Step, Interp.Irq, IrqEntry, VectorOf, StatusOf, CodeIntact;
    leaves := StepGoes(p, b.i, c, b.items, base);
    if leaves {
      assert !Delivers(p, c, clocks);
    } else if Delivers(p, c, clocks) {
      var d, next := CStep(p, c).c, TickedRuns.Stepped(b);
      SameVector(p, next.i, d, next.items, base);
      if VectorOf(d.st) in p.starts {
        EntryRelated(p, next.i, d, next.items, base);
      } else {
        leaves := true;
        EntryAlikeOf(p, next.i, d, next.items, base);
      }
    }
  }

  lemma SameVector(p: Prog, i: Interp.Config, c: CConf, items: seq<Item>, base: u8)
    requires Related(p, i, c, items, base)
    ensures VectorOf(c.st) == VectorOf(i.st)
  {
    VectorAlike(i.st, c.st);
  }

  lemma EntryAlikeOf(p: Prog, i: Interp.Config, c: CConf, items: seq<Item>, base: u8)
    requires Related(p, i, c, items, base) && i.st.s >= 3
    ensures Alike(Interp.Irq(i).st, IrqEntry(c.st, 0)) && Interp.Irq(i).pc == VectorOf(i.st)
  {
    hide CodeIntact, Position, AddrOf, FramesMatch, StackIs, IrqEntry, Interp.Irq, VectorOf, StatusOf, OffPage;
    EntryAgrees(i.st, i.pc);
    EntryKeepsStack(i.st, i.pc, BytesOf(items), base);
    EntriesAlike(i.st, c.st, i.pc);
    VectorAfterEntry(i);
  }

  lemma ServedStart(p: Prog, a: Traced, c: CConf, base: u8, cs: seq<Timers.Clocks>)
    requires Related(p, a.i, c, a.items, base)
    ensures ServedTracksTo(p, a, c, base, cs, 0)
  {
    hide Related;
  }

  lemma ServedOneMore(p: Prog, a: Traced, c: CConf, base: u8, cs: seq<Timers.Clocks>, k: nat)
    requires k < |cs| && ServedTracksTo(p, a, c, base, cs, k) && ServedTracks(p, a, c, base, cs, k + 1)
    ensures ServedTracksTo(p, a, c, base, cs, k + 1)
  {
    hide ServedTracks;
  }

  lemma ServedAt(p: Prog, a: Traced, c: CConf, base: u8, cs: seq<Timers.Clocks>, k: nat)
    requires k <= |cs| && ServedTracksTo(p, a, c, base, cs, k)
    ensures ServedTracks(p, a, c, base, cs, k) && ServedRun(p, c, cs, k).Next?
  {
    hide Related, InterruptedRun, ServedRun;
  }

  lemma CleanOne(p: Prog, a: Traced, c: CConf, cs: seq<Timers.Clocks>, k: nat)
    requires CleanServed(p, a, c, cs) && k < |cs|
    ensures CleanServedAt(p, a, c, cs, k)
  {
    hide CleanServedAt;
  }

  lemma ServedMore(p: Prog, a: Traced, c: CConf, base: u8, cs: seq<Timers.Clocks>, k: nat) returns (leaves: bool)
    requires Loaded(p) && Closed(p) && k < |cs| && ServedTracks(p, a, c, base, cs, k) && CleanServedAt(p, a, c, cs, k)
    requires !Parts(p, InterruptedRun(p, a, c, cs, k).i, ServedRun(p, c, cs, k).c)
    ensures if leaves then LeavesServed(p, InterruptedRun(p, a, c, cs, k), ServedRun(p, c, cs, k).c, cs[k])
            else ServedTracks(p, a, c, base, cs, k + 1)
  {
    hide Related, Clean, Parts, CStep, Delivers, ServedStep, Interrupted, LeavesServed, RoomForIrq;
    leaves := ServedGoes(p, InterruptedRun(p, a, c, cs, k), ServedRun(p, c, cs, k).c, base, cs[k]);
  }

  /** Simulation with recompiled handlers: for any timers its ticks find, the program follows the
      interrupted interpreter through handlers and interrupts of handlers, with equal registers,
      flags and memory outside the stack page, to the end of the run, or until it leaves by a hook
      or runs off the end of a body where the interpreter does not return. */
  lemma {:induction false} HandlersSimulate(p: Prog, a: Traced, c: CConf, base: u8, cs: seq<Timers.Clocks>, n: nat)
    returns (k: nat)
    requires Loaded(p) && Closed(p) && Related(p, a.i, c, a.items, base) && CleanServed(p, a, c, cs) && n <= |cs|
    ensures k <= n && ServedTracksTo(p, a, c, base, cs, k) && ServedRun(p, c, cs, k).Next?
    ensures var b, d := InterruptedRun(p, a, c, cs, k), ServedRun(p, c, cs, k).c;
            k == n || LeavesServed(p, b, d, cs[k]) || Parts(p, b.i, d)
  {
    hide Related, Parts, LeavesServed, CleanServed, CleanServedAt, ServedTracks, ServedTracksTo;
    hide ServedRun, InterruptedRun;
    k := 0;
    ServedStart(p, a, c, base, cs);
    if n > 0 {
      k := HandlersSimulate(p, a, c, base, cs, n - 1);
      ServedAt(p, a, c, base, cs, k);
      if k == n - 1 && !Parts(p, InterruptedRun(p, a, c, cs, k).i, ServedRun(p, c, cs, k).c) {
        CleanOne(p, a, c, cs, k);
        var leaves := ServedMore(p, a, c, base, cs, k);
        if !leaves {
          ServedOneMore(p, a, c, base, cs, k);
          k := n;
        }
      }
    }
    ServedAt(p, a, c, base, cs, k);
  }

  // ---- a step in place ----

  /** One statement on the CPU object, RAM, timers and audio channels, with `lynx_tick` where it is
      planted: the step of the runs above. */
  method ServedInPlace(p: Prog, cpu: R.LynxCpu, timers: TimerUnit.MikeyTimers, audio: AudioUnit.AudioChannels,
                       at: Frame, callers: seq<Frame>) returns (q: Lockstep.Point)
    requires cpu.Valid() && timers.Valid() && audio.Valid() && audio.reg == timers.reg && cpu.ram != timers.reg
    modifies cpu, cpu.ram, timers.reg, timers.phase, timers`irqLatch, audio.ch
    ensures Lockstep.OutcomeOf(q, cpu.View())
            == ServedStep(p, CConf(old(cpu.View()), at, callers), old(timers.View()))
    ensures timers.View() ==
            if StepTicks(p, CConf(old(cpu.View()), at, callers)) && CStep(p, CConf(old(cpu.View()), at, callers)).Next?
            then Timers.Step(old(timers.View()), Tick.TICK_US) else old(timers.View())
  {
    hide CStep, StepTicks, IrqEntry, Timers.Step;
    var ticks := Lockstep.TicksInPlace(p, cpu, at);
    q := Lockstep.StepInPlace(p, cpu, at, callers);
    if ticks && q.At? {
      var delivered: bool, vec: u16;
      delivered, vec := Tick.LynxTick(cpu, timers, audio);
      Tick.PendingIsSomeTimer(timers.reg[..], timers.irqLatch);
      if delivered {
        q := if vec in p.starts then Lockstep.At(Frame(vec, 0), [q.at] + q.callers) else Lockstep.Stopped(Escape(vec));
      }
    }
  }
}
