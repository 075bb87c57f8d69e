/** The interpreter and the recompiled program run in place, side by side: whole runs of module
    Runs on the two CPU objects and their memories. */
module Lockstep {
  import opened Bytes
  import opened Cpu
  import opened Sweep
  import opened Target
  import opened Translate
  import opened StackFrame
  import opened Simulation
  import opened Runs
  import opened Runtime
  import opened Icpu
  import Exec
  import Interp

  ghost function ConfigOf(icpu: InterpCpu): Interp.Config
    requires icpu.Valid()
    reads icpu, icpu.ram
  {
    Interp.Config(icpu.View(), icpu.pc)
  }

  /** The interpreter's loop, `n` instructions in place. */
  method InterpRun(icpu: InterpCpu, n: nat)
    requires icpu.Valid()
    modifies icpu, icpu.ram
    ensures ConfigOf(icpu) == Interp.Steps(old(ConfigOf(icpu)), n)
  {
    hide Interp.Step;
    var k := 0;
    while k < n
      invariant 0 <= k <= n && ConfigOf(icpu) == Interp.Steps(old(ConfigOf(icpu)), k)
    {
      icpu.InterpStep();
      k := k + 1;
    }
  }

  /** Where the C program is, apart from the machine, or why it stopped. */
  datatype Point = At(at: Frame, callers: seq<Frame>) | Stopped(why: Why)

  function OutcomeOf(q: Point, st: State): Outcome {
    match q
    case At(at, callers) => Next(CConf(st, at, callers))
    case Stopped(why) => Halted(st, why)
  }

  /** Hands control on. */
  method ResumeAt(p: Prog, at: Frame, callers: seq<Frame>, ctl: Ctl, ghost st: State) returns (q: Point)
    ensures OutcomeOf(q, st) == Resume(p, at, callers, st, ctl)
  {
    hide Code;
    match ctl
    case Fall => q := At(Frame(at.fn, at.idx + 1), callers);
    case Jump(l, _) =>
      var lines := Code(p, at.fn);
      var j := LabelLine(lines, l, 0);
      q := if j < |lines| then At(Frame(at.fn, j), callers) else Stopped(Other);
    case Enter(f) => q := At(Frame(f, 0), [Frame(at.fn, at.idx + 1)] + callers);
    case Tail(f) => q := At(Frame(f, 0), callers);
    case Indirect(to) => q := if to in p.starts then At(Frame(to, 0), callers) else Stopped(Escape(to));
    case Ext(to) => q := Stopped(Escape(to));
    case Boot(to) => q := Stopped(Escape(to));
    case Back | BackFromIrq => q := if callers == [] then Stopped(Finished) else At(callers[0], callers[1..]);
    case Trap => q := Stopped(Other);
  }

  /** One emitted statement, in place. */
  method StepInPlace(p: Prog, cpu: LynxCpu, at: Frame, callers: seq<Frame>) returns (q: Point)
    requires cpu.Valid()
    modifies cpu, cpu.ram
    ensures OutcomeOf(q, cpu.View()) == CStep(p, CConf(old(cpu.View()), at, callers))
  {
    hide Resume, Run, After, Code;
    var lines := Code(p, at.fn);
    if at.idx >= |lines| {
      q := ResumeAt(p, at, callers, Back, cpu.View());
    } else {
      var s := lines[at.idx].stmt;
      var ctl := Exec.RunControl(cpu, s);
      Exec.RunStmt(cpu, s);
      q := ResumeAt(p, at, callers, ctl, cpu.View());
    }
  }

  /** Does the statement at `at` tick? */
  method TicksInPlace(p: Prog, cpu: LynxCpu, at: Frame) returns (ticks: bool)
    requires cpu.Valid()
    ensures forall callers :: ticks == StepTicks(p, CConf(cpu.View(), at, callers))
  {
    var lines := Code(p, at.fn);
    ticks := false;
    if at.idx < |lines| {
      var ctl := Exec.RunControl(cpu, lines[at.idx].stmt);
      match ctl
      case Jump(_, ticked) => ticks := ticked;
      case _ =>
    }
  }

  /** The next steps of both: either they stay together or the C program leaves by a hook. */
  lemma StaysAlike(p: Prog, a: Traced, c: CConf, base: u8, n: nat, k: nat)
    requires Loaded(p) && Closed(p) && CleanRun(p, a, n) && Related(p, a.i, c, a.items, base)
    requires EndsWellFor(p, a, n) && Inside(p, c) && k < n && CRun(p, c, k).Next?
    ensures var o, next := CRun(p, c, k + 1), IRun(a, k + 1).i;
            if o.Next? then Alike(next.st, o.c.st) else o.why == Escape(next.pc) && Alike(next.st, o.st)
  {
    hide Related, Loaded, Closed, CleanRun, EndsWellFor, Inside, CStep, TracksTo, Tracks, Leaves, Alike, CRun, IRun;
    var j := CompleteRunSimulates(p, a, c, base, n);
    if k < j {
      TracksAt(p, a, c, base, j, k + 1);
      TracksAlike(p, a, c, base, k + 1);
    } else {
      LeavesAlike(p, a, c, j);
      if j < k { StaysStopped(p, c, j, k); }
    }
  }

  lemma LeavesAlike(p: Prog, a: Traced, c: CConf, k: nat)
    requires CRun(p, c, k).Next? && Leaves(p, IRun(a, k).i, CRun(p, c, k).c)
    ensures var o, next := CRun(p, c, k + 1), IRun(a, k + 1).i;
            o.Halted? && o.why == Escape(next.pc) && Alike(next.st, o.st)
  {
    hide CStep, Interp.Step, OffPage, With;
    OneMore(p, a, c, k);
  }

  lemma OneMore(p: Prog, a: Traced, c: CConf, k: nat)
    ensures IRun(a, k + 1).i == Interp.Step(IRun(a, k).i)
    ensures match CRun(p, c, k) case Next(d) => CRun(p, c, k + 1) == CStep(p, d) case _ => true
  {
    hide CStep, Interp.Step;
  }

  lemma NoneYet(p: Prog, a: Traced, c: CConf)
    ensures IRun(a, 0) == a && CRun(p, c, 0) == Next(c)
  {
  }

  lemma TracksAlike(p: Prog, a: Traced, c: CConf, base: u8, k: nat)
    requires Tracks(p, a, c, base, k)
    ensures Alike(IRun(a, k).i.st, CRun(p, c, k).c.st)
  {
    hide CRun, IRun;
  }

  /** A program that goes on at step `k` went on at step `j + 1` before it. */
  lemma {:induction false} StaysStopped(p: Prog, c: CConf, j: nat, k: nat)
    requires j < k && CRun(p, c, k).Next?
    ensures CRun(p, c, j + 1).Next?
    decreases k
  {
    hide CStep;
    if j + 1 < k { StaysStopped(p, c, j, k - 1); }
  }

  /** The function `f` on both machines, step by step, from equal states: over a clean run of the
      interpreter, the C program ends with equal registers, flags and memory outside the stack
      page, after all `n` steps, or where it leaves with the interpreter's program counter. */
  method RunBoth(p: Prog, cpu: LynxCpu, icpu: InterpCpu, f: u16, n: nat) returns (k: nat, q: Point)
    requires cpu.Valid() && icpu.Valid() && cpu.ram != icpu.ram && cpu.View() == icpu.View() && icpu.pc == f
    requires Loaded(p) && Closed(p) && f in p.starts && CodeIntact(p, icpu.View().mem)
    requires CleanRun(p, Traced(ConfigOf(icpu), []), n) && EndsWellFor(p, Traced(ConfigOf(icpu), []), n)
    modifies cpu, cpu.ram, icpu, icpu.ram
    ensures k <= n && ConfigOf(icpu) == Interp.Steps(old(ConfigOf(icpu)), k)
    ensures Alike(icpu.View(), cpu.View())
    ensures if q.At? then k == n else q.why == Escape(icpu.pc)
  {
    hide Related, Loaded, Closed, CleanRun, EndsWellFor, Inside, CStep, Interp.Step, CodeIntact, Alike, CRun, IRun;
    ghost var a, c := Traced(ConfigOf(icpu), []), CConf(cpu.View(), Frame(f, 0), []);
    EntryIsRelated(p, cpu.View(), f);
    EntryIsInside(p, c, f);
    SameIsAlike(cpu.View());
    NoneYet(p, a, c);
    k, q := 0, At(Frame(f, 0), []);
    while k < n && q.At?
      invariant k <= n && ConfigOf(icpu) == Interp.Steps(a.i, k) == IRun(a, k).i
      invariant CRun(p, c, k) == OutcomeOf(q, cpu.View()) && Alike(icpu.View(), cpu.View())
      invariant q.Stopped? ==> q.why == Escape(icpu.pc)
      decreases n - k
    {
      StaysAlike(p, a, c, c.st.s, n, k);
      OneMore(p, a, c, k);
      q := StepInPlace(p, cpu, q.at, q.callers);
      icpu.InterpStep();
      k := k + 1;
    }
  }

  lemma EntryIsInside(p: Prog, c: CConf, f: u16)
    requires f in p.starts && c.at == Frame(f, 0) && c.callers == []
    ensures Inside(p, c)
  {
    hide Emitted;
  }

  lemma SameIsAlike(st: State)
    ensures Alike(st, st)
  {
  }
}
