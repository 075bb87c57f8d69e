/** Runs with interrupts: the emitted program ticks at its back-edges, the timers advance, and a
    pending interrupt runs its handler. It still follows the interpreter, interrupted by the same
    handlers at the same instructions. */
module TickedRuns {
  import opened Bytes
  import opened Cpu
  import opened Target
  import opened Translate
  import opened StackFrame
  import opened Simulation
  import opened Runs
  import opened Interrupts
  import opened R = Runtime
  import AudioUnit
  import Interp
  import Lockstep
  import Tick
  import Timers
  import TimerUnit

  // ---- a handler on both machines ----

  /** A handler as recompiled code runs it: no return addresses are kept. */
  function Forget(acts: seq<Act>): seq<Act> {
    if acts == [] then []
    else
      var first := match acts[0]
        case Access(op) => Access(op)
        case Interrupt(_, handler) => Interrupt(0, Forget(handler));
      [first] + Forget(acts[1..])
  }

  lemma {:induction false} ForgetNested(acts: seq<Act>, h: nat, max: nat, end: nat)
    ensures Nested(Forget(acts), h, max, end) == Nested(acts, h, max, end)
  {
    if acts != [] {
      var rest := acts[1..];
      assert Forget(acts)[1..] == Forget(rest);
      match acts[0]
      case Access(PushOp(_)) => ForgetNested(rest, h + 1, max, end);
      case Access(PullOp) => if h > 0 { ForgetNested(rest, h - 1, max, end); }
      case Access(_) => ForgetNested(rest, h, max, end);
      case Interrupt(_, handler) =>
        if h + 3 <= max {
          ForgetNested(handler, 0, max - h - 3, 0);
          ForgetNested(rest, h, max, end);
        }
    }
  }

  lemma {:induction false} ForgetWrites(acts: seq<Act>, a: u16)
    ensures ActsWrite(Forget(acts), a) == ActsWrite(acts, a)
  {
    if acts != [] {
      assert Forget(acts)[1..] == Forget(acts[1..]);
      ForgetWrites(acts[1..], a);
      match acts[0]
      case Access(_) =>
      case Interrupt(_, handler) => ForgetWrites(handler, a);
    }
  }

  /** Only pushes touch the stack page. */
  ghost predicate AvoidsPage(acts: seq<Act>) { forall a: u16 :: ActsWrite(acts, a) ==> !InStackPage(a) }

  lemma DoAlike(op: Op, s: State, t: State)
    requires Alike(s, t) && (op.WriteOp? ==> !InStackPage(op.a))
    ensures Alike(Do(op, s), Do(op, t))
  {
  }

  lemma EntryAlike(s: State, t: State, pc: u16, pc': u16)
    requires Alike(s, t)
    ensures Alike(IrqEntry(s, pc), IrqEntry(t, pc'))
  {
    hide PPack, And;
  }

  /** Returning with the flags of two machines that were alike. */
  lemma RtiAlike(s: State, t: State, u: State, w: State)
    requires Alike(s, t) && Alike(u, w) && Restored(s, Rti(u)) && Restored(t, Rti(w))
    ensures Alike(Rti(u), Rti(w))
  {
    hide Bit;
  }

  predicate Restored(s: State, t: State) {
    t.n == s.n && t.v == s.v && t.d == s.d && t.i == s.i && t.z == s.z && t.c == s.c
  }

  /** A handler leaves two machines alike, whatever return addresses each pushes. */
  lemma {:induction false} ActsAlike(acts: seq<Act>, s: State, t: State, h: nat, max: nat, end: nat)
    requires Alike(s, t) && Nested(acts, h, max, end) && max <= 255 && AvoidsPage(acts)
    ensures Alike(RunActs(acts, s), RunActs(Forget(acts), t))
    decreases acts, 0
  {
    hide Alike, Do, Rti, IrqEntry;
    if acts != [] {
      var rest := acts[1..];
      assert Forget(acts)[1..] == Forget(rest);
      RestAvoids(acts);
      match acts[0]
      case Access(op) =>
        DoAlike(op, s, t);
        var h' := match op case PushOp(_) => h + 1 case PullOp => h - 1 case _ => h;
        ActsAlike(rest, Do(op, s), Do(op, t), h', max, end);
      case Interrupt(at, handler) =>
        ServedAlike(at, handler, s, t, max - h - 3);
        var s', t' := Rti(RunActs(handler, IrqEntry(s, at))), Rti(RunActs(Forget(handler), IrqEntry(t, 0)));
        ActsAlike(rest, s', t', h, max, end);
    }
  }

  lemma RestAvoids(acts: seq<Act>)
    requires acts != [] && AvoidsPage(acts)
    ensures AvoidsPage(acts[1..])
    ensures match acts[0]
            case Access(op) => op.WriteOp? ==> !InStackPage(op.a)
            case Interrupt(_, handler) => AvoidsPage(handler)
  {
    match acts[0]
    case Access(op) => if op.WriteOp? { assert ActsWrite(acts, op.a); }
    case Interrupt(_, handler) =>
  }

  lemma {:induction false} ServedAlike(at: u16, handler: seq<Act>, s: State, t: State, max: nat)
    requires Alike(s, t) && Nested(handler, 0, max, 0) && max <= 255 && AvoidsPage(handler)
    ensures Alike(Rti(RunActs(handler, IrqEntry(s, at))), Rti(RunActs(Forget(handler), IrqEntry(t, 0))))
    decreases handler, 1
  {
    hide Alike, Rti, IrqEntry, Restored;
    EntryAlike(s, t, at, 0);
    ActsAlike(handler, IrqEntry(s, at), IrqEntry(t, 0), 0, max, 0);
    ForgetNested(handler, 0, max, 0);
    ForgetAvoids(handler);
    FlagsComeBack(s, at, handler, max);
    FlagsComeBack(t, 0, Forget(handler), max);
    RtiAlike(s, t, RunActs(handler, IrqEntry(s, at)), RunActs(Forget(handler), IrqEntry(t, 0)));
  }

  lemma FlagsComeBack(st: State, at: u16, handler: seq<Act>, max: nat)
    requires Nested(handler, 0, max, 0) && max <= 255 && AvoidsPage(handler)
    ensures Restored(st, Rti(RunActs(handler, IrqEntry(st, at))))
  {
    hide Rti, IrqEntry;
    var u := RunActs(handler, IrqEntry(st, at));
    assert RunActs([], Rti(u)) == Rti(u);
    NestedTransparent(st, at, handler, max);
  }

  // ---- an interrupt between two steps ----

  /** A machine after an interrupt: delivery, handler and return. */
  function Served(st: State, at: u16, handler: seq<Act>): State { RunActs([Interrupt(at, handler)], st) }

  lemma ServedIs(st: State, at: u16, handler: seq<Act>)
    ensures Served(st, at, handler) == Rti(RunActs(handler, IrqEntry(st, at)))
  {
    hide Rti, IrqEntry;
    var acts, u := [Interrupt(at, handler)], RunActs(handler, IrqEntry(st, at));
    assert acts[1..] == [] && RunActs([], Rti(u)) == Rti(u);
  }

  /** What is on the stack stays there while all fits in the page. */
  lemma StackSpared(st: State, at: u16, handler: seq<Act>, max: nat, bytes: seq<u8>, base: u8)
    requires StackIs(st, bytes, base) && |bytes| + max + 3 <= 0x100
    requires Nested(handler, 0, max, 0) && AvoidsPage(handler)
    ensures StackIs(Served(st, at, handler), bytes, base)
  {
    hide RunActs, Nested, ActsWrite, Dead;
    NestedTransparent(st, at, handler, max);
    var t := Served(st, at, handler);
    forall k | 0 <= k < |bytes|
      ensures t.mem[0x100 + t.s + 1 + k] == bytes[k]
    {
      LiveBytesAreSafe(st.s, |bytes|, max, k + 1);
      assert st.mem[0x100 + st.s + 1 + k] == bytes[k];
    }
  }

  /** What serving an interrupt does: the handler's accesses, how deep they go, and the timers
      it leaves. */
  datatype Service = Service(acts: seq<Act>, max: nat, clocks: Timers.Clocks)

  /** The handler fits on the stack, stays off what is not its own there, and spares the code. */
  ghost predicate HandlerFits(p: Prog, i: Interp.Config, items: seq<Item>, v: Service) {
    && Nested(v.acts, 0, v.max, 0) && |BytesOf(items)| + v.max + 3 <= 0x100 && AvoidsPage(v.acts)
    && CodeIntact(p, Served(i.st, i.pc, v.acts).mem)
  }

  /** Both machines served by the same handler are related as they were: the interpreter comes
      back to its program counter, the C program to its statement. */
  lemma InterruptRelated(p: Prog, i: Interp.Config, c: CConf, items: seq<Item>, base: u8, v: Service)
    requires Related(p, i, c, items, base) && HandlerFits(p, i, items, v)
    ensures var s, t := Served(i.st, i.pc, v.acts), Served(c.st, 0, Forget(v.acts));
            Related(p, Interp.Config(s, i.pc), c.(st := t), items, base)
  {
    hide CodeIntact, Served, Position, AddrOf, FramesMatch, StackIs, OffPage;
    hide Nested, IrqEntry, Rti, AvoidsPage, RunActs;
    var forgot := Forget(v.acts);
    ServedAlike(i.pc, v.acts, i.st, c.st, v.max);
    ServedIs(i.st, i.pc, v.acts);
    ServedIs(c.st, 0, forgot);
    StackSpared(i.st, i.pc, v.acts, v.max, BytesOf(items), base);
    ErasedIsShorter(items);
    ForgetNested(v.acts, 0, v.max, 0);
    ForgetAvoids(v.acts);
    StackSpared(c.st, 0, forgot, v.max, Erased(items), base);
  }

  /** On the interpreter that is an interrupt request, the handler, and RTI back to where it was. */
  lemma ServedByIrq(p: Prog, i: Interp.Config, items: seq<Item>, v: Service)
    requires HandlerFits(p, i, items, v)
    ensures var u := RunActs(v.acts, Interp.Irq(i).st);
            Interp.Config(Interp.FromIrq(u), Interp.TopWord(Interp.Dropped(u)))
            == Interp.Config(Served(i.st, i.pc, v.acts), i.pc)
  {
    hide RunActs, Nested, CodeIntact, Interp.Irq, Interp.FromIrq, Interp.TopWord;
    assert !ActsWrite(v.acts, Slot(i.st.s, 0)) && !ActsWrite(v.acts, Slot(i.st.s, 1));
    InterpreterComesBack(i.st, i.pc, v.acts, v.max);
  }

  lemma ForgetAvoids(acts: seq<Act>)
    requires AvoidsPage(acts)
    ensures AvoidsPage(Forget(acts))
  {
    forall a: u16 | ActsWrite(Forget(acts), a)
      ensures !InStackPage(a)
    {
      ForgetWrites(acts, a);
    }
  }

  // ---- runs ----

  /** The emitted program and the timers it drives. */
  datatype Timed = Timed(c: CConf, clocks: Timers.Clocks)

  datatype TimedOutcome = On(x: Timed) | Off(st: State, why: Why)

  ghost predicate Pending(t: Timers.Clocks) { exists k: Timers.Index :: t.bank[k].irq }

  /** The tick of this step finds an interrupt pending, and not masked. */
  ghost predicate Delivers(p: Prog, x: Timed) {
    && StepTicks(p, x.c) && CStep(p, x.c).Next? && !CStep(p, x.c).c.st.i
    && Pending(Timers.Step(x.clocks, Tick.TICK_US))
  }

  /** One statement; `v` is what an interrupt does, should one be delivered. */
  ghost function TimedStep(p: Prog, x: Timed, v: Service): TimedOutcome {
    match CStep(p, x.c)
    case Halted(t, w) => Off(t, w)
    case Next(d) =>
      if Delivers(p, x) then On(Timed(d.(st := Served(d.st, 0, Forget(v.acts))), v.clocks))
      else On(Timed(d, if StepTicks(p, x.c) then Timers.Step(x.clocks, Tick.TICK_US) else x.clocks))
  }

  ghost function TimedRun(p: Prog, x: Timed, vs: seq<Service>, k: nat): TimedOutcome
    requires k <= |vs|
  {
    if k == 0 then On(x)
    else
      match TimedRun(p, x, vs, k - 1)
      case On(y) => TimedStep(p, y, vs[k - 1])
      case Off(t, w) => Off(t, w)
  }

  /** The interpreter after its next instruction, and after the interrupt if there is one. */
  function Stepped(a: Traced): Traced { Traced(Interp.Step(a.i), ItemsAfter(Interp.Fetch(a.i), a.i.st, a.items)) }

  function Handled(a: Traced, v: Service): Traced {
    a.(i := Interp.Config(Served(a.i.st, a.i.pc, v.acts), a.i.pc))
  }

  ghost predicate DeliversAt(p: Prog, x: Timed, vs: seq<Service>, k: nat)
    requires k <= |vs|
  {
    TimedRun(p, x, vs, k).On? && Delivers(p, TimedRun(p, x, vs, k).x)
  }

  /** The interpreter after `k` instructions, interrupted where the C program was. */
  ghost function HandledRun(p: Prog, a: Traced, x: Timed, vs: seq<Service>, k: nat): Traced
    requires k <= |vs|
  {
    if k == 0 then a
    else
      var b := Stepped(HandledRun(p, a, x, vs, k - 1));
      if DeliversAt(p, x, vs, k - 1) then Handled(b, vs[k - 1]) else b
  }

  ghost predicate CleanHandledAt(p: Prog, a: Traced, x: Timed, vs: seq<Service>, k: nat)
    requires k < |vs|
  {
    var b := HandledRun(p, a, x, vs, k);
    && Clean(p, b.i, b.items)
    && (DeliversAt(p, x, vs, k) ==> HandlerFits(p, Stepped(b).i, Stepped(b).items, vs[k]))
  }

  /** Every instruction of the interrupted run is well behaved, and every handler fits. */
  ghost predicate CleanHandled(p: Prog, a: Traced, x: Timed, vs: seq<Service>) {
    forall k: nat :: k < |vs| ==> CleanHandledAt(p, a, x, vs, k)
  }

  ghost predicate TimedTracks(p: Prog, a: Traced, x: Timed, base: u8, vs: seq<Service>, k: nat)
    requires k <= |vs|
  {
    var o, b := TimedRun(p, x, vs, k), HandledRun(p, a, x, vs, k);
    o.On? && Related(p, b.i, o.x.c, b.items, base)
  }

  lemma TimedTracksMore(p: Prog, a: Traced, x: Timed, base: u8, vs: seq<Service>, k: nat) returns (leaves: bool)
    requires Loaded(p) && Closed(p) && k < |vs| && TimedTracks(p, a, x, base, vs, k) && CleanHandledAt(p, a, x, vs, k)
    requires !Parts(p, HandledRun(p, a, x, vs, k).i, TimedRun(p, x, vs, k).x.c)
    ensures if leaves then Leaves(p, HandledRun(p, a, x, vs, k).i, TimedRun(p, x, vs, k).x.c)
            else TimedTracks(p, a, x, base, vs, k + 1)
  {
    hide Related, Clean, Parts, Leaves, CStep, HandlerFits, StepTicks, Served, Interp.Step;
    var b, y := HandledRun(p, a, x, vs, k), TimedRun(p, x, vs, k).x;
    leaves := StepGoes(p, b.i, y.c, b.items, base);
    if !leaves && Delivers(p, y) {
      InterruptRelated(p, Stepped(b).i, CStep(p, y.c).c, Stepped(b).items, base, vs[k]);
    }
  }

  ghost predicate TimedTracksTo(p: Prog, a: Traced, x: Timed, base: u8, vs: seq<Service>, n: nat)
    requires n <= |vs|
  {
    forall k: nat :: k <= n ==> TimedTracks(p, a, x, base, vs, k)
  }

  lemma TimedStart(p: Prog, a: Traced, x: Timed, base: u8, vs: seq<Service>)
    requires Related(p, a.i, x.c, a.items, base)
    ensures TimedTracksTo(p, a, x, base, vs, 0)
  {
    hide Related;
  }

  lemma TimedOneMore(p: Prog, a: Traced, x: Timed, base: u8, vs: seq<Service>, k: nat)
    requires k < |vs| && TimedTracksTo(p, a, x, base, vs, k) && TimedTracks(p, a, x, base, vs, k + 1)
    ensures TimedTracksTo(p, a, x, base, vs, k + 1)
  {
    hide TimedTracks;
  }

  lemma TimedAt(p: Prog, a: Traced, x: Timed, base: u8, vs: seq<Service>, k: nat)
    requires k <= |vs| && TimedTracksTo(p, a, x, base, vs, k)
    ensures TimedTracks(p, a, x, base, vs, k) && TimedRun(p, x, vs, k).On?
  {
    hide Related, HandledRun, TimedRun;
  }

  lemma CleanOne(p: Prog, a: Traced, x: Timed, vs: seq<Service>, k: nat)
    requires CleanHandled(p, a, x, vs) && k < |vs|
    ensures CleanHandledAt(p, a, x, vs, k)
  {
    hide CleanHandledAt;
  }

  /** Simulation with time: the program that ticks and is interrupted follows the interpreter that
      is interrupted by the same handlers, with equal registers, flags and memory outside the
      stack page, to the end of the run, or until it leaves by a hook or runs off the end of a
      body where the interpreter does not return. */
  lemma {:induction false} TickedRunSimulates(p: Prog, a: Traced, x: Timed, base: u8, vs: seq<Service>, n: nat)
    returns (k: nat)
    requires Loaded(p) && Closed(p) && Related(p, a.i, x.c, a.items, base) && CleanHandled(p, a, x, vs) && n <= |vs|
    ensures k <= n && TimedTracksTo(p, a, x, base, vs, k) && TimedRun(p, x, vs, k).On?
    ensures var i, c := HandledRun(p, a, x, vs, k).i, TimedRun(p, x, vs, k).x.c;
            k == n || Leaves(p, i, c) || Parts(p, i, c)
  {
    hide Related, Parts, Leaves, CleanHandled, CleanHandledAt, TimedTracks, TimedTracksTo, TimedRun, HandledRun;
    k := 0;
    TimedStart(p, a, x, base, vs);
    if n > 0 {
      k := TickedRunSimulates(p, a, x, base, vs, n - 1);
      TimedAt(p, a, x, base, vs, k);
      if k == n - 1 && !Parts(p, HandledRun(p, a, x, vs, k).i, TimedRun(p, x, vs, k).x.c) {
        CleanOne(p, a, x, vs, k);
        var leaves := TimedTracksMore(p, a, x, base, vs, k);
        if !leaves {
          TimedOneMore(p, a, x, base, vs, k);
          k := n;
        }
      }
    }
    TimedAt(p, a, x, base, vs, k);
  }

  // ---- the tick in place ----

  method DoInPlace(cpu: LynxCpu, op: Op)
    requires cpu.Valid()
    modifies cpu, cpu.ram
    ensures cpu.View() == Do(op, old(cpu.View()))
  {
    match op
    case PushOp(v) => cpu.LynxPush(v);
    case PullOp => var v := cpu.LynxPull();
    case WriteOp(a, v) => cpu.MemWrite(a, v);
    case RegsOp(r) =>
      cpu.a, cpu.x, cpu.y := r.a, r.x, r.y;
      cpu.n, cpu.v, cpu.d, cpu.i, cpu.z, cpu.c := r.n, r.v, r.d, r.i, r.z, r.c;
  }

  /** A handler in place, with the deliveries that interrupt it. */
  method RunHandler(cpu: LynxCpu, acts: seq<Act>)
    requires cpu.Valid()
    modifies cpu, cpu.ram
    ensures cpu.View() == RunActs(Forget(acts), old(cpu.View()))
  {
    hide Do, IrqEntry, Rti;
    if acts == [] { return; }
    assert Forget(acts)[1..] == Forget(acts[1..]);
    match acts[0] {
      case Access(op) => DoInPlace(cpu, op);
      case Interrupt(_, handler) =>
        var vec := LynxIrqEnter(cpu);
        RunHandler(cpu, handler);
        cpu.LynxRti();
    }
    RunHandler(cpu, acts[1..]);
  }

  /** `lynx_tick` with its handler: time advances, and the machine is as `TimedStep` has it. */
  method TickAndServe(cpu: LynxCpu, timers: TimerUnit.MikeyTimers, audio: AudioUnit.AudioChannels, acts: seq<Act>)
    returns (delivered: bool)
    requires cpu.Valid() && timers.Valid() && audio.Valid() && audio.reg == timers.reg && cpu.ram != timers.reg
    modifies cpu, cpu.ram, timers.reg, timers.phase, timers`irqLatch, audio.ch
    ensures timers.View() == Timers.Step(old(timers.View()), Tick.TICK_US)
    ensures delivered <==> Pending(Timers.Step(old(timers.View()), Tick.TICK_US)) && !old(cpu.i)
    ensures cpu.View() == if delivered then Served(old(cpu.View()), 0, Forget(acts)) else old(cpu.View())
  {
    hide Served, IrqEntry, Rti, Timers.Step;
    var vec: u16;
    delivered, vec := Tick.LynxTick(cpu, timers, audio);
    Tick.PendingIsSomeTimer(timers.reg[..], timers.irqLatch);
    ghost var was := old(cpu.View());
    ServedIs(was, 0, Forget(acts));
    if delivered {
      RunHandler(cpu, acts);
      cpu.LynxRti();
    }
  }

  /** A step of these runs in place: statement, tick, and the handler if there is an interrupt. */
  method TimedInPlace(p: Prog, cpu: LynxCpu, timers: TimerUnit.MikeyTimers, audio: AudioUnit.AudioChannels,
                      at: Frame, callers: seq<Frame>, v: Service) returns (q: Lockstep.Point, delivered: bool)
    requires cpu.Valid() && timers.Valid() && audio.Valid() && audio.reg == timers.reg && cpu.ram != timers.reg
    modifies cpu, cpu.ram, timers.reg, timers.phase, timers`irqLatch, audio.ch
    ensures match TimedStep(p, Timed(CConf(old(cpu.View()), at, callers), old(timers.View())), v)
            case On(y) =>
              && Lockstep.OutcomeOf(q, cpu.View()) == Next(y.c)
              && y.clocks == if delivered then v.clocks else timers.View()
            case Off(st, why) => Lockstep.OutcomeOf(q, cpu.View()) == Halted(st, why) && !delivered
  {
    hide CStep, StepTicks, Served, Timers.Step;
    var ticks := Lockstep.TicksInPlace(p, cpu, at);
    q := Lockstep.StepInPlace(p, cpu, at, callers);
    delivered := false;
    if ticks && q.At? {
      delivered := TickAndServe(cpu, timers, audio, v.acts);
    }
  }
}
