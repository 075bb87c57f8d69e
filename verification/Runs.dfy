/** Whole runs of recompiled code: it follows a clean interpreter run to the end, unless it leaves
    through a hook or runs off the end of a body; when that can happen. */
module Runs {
  import opened Bytes
  import opened Cpu
  import opened Decode
  import opened Sweep
  import opened Target
  import opened Emit
  import opened Translate
  import opened StackFrame
  import opened Simulation
  import Analyze
  import Interp

  // ---- progress ----

  /** Every target inside a body has its label: what `GotosClosedExactly` asks of the image. */
  ghost predicate Closed(p: Prog) { forall f :: f in p.starts ==> AllLabelled(p.img, f) }

  /** The program goes on in C, or hands an address to a hook. */
  predicate GoesOn(o: Outcome) { o.Next? || o.why.Escape? }

  /** A goto finds its label. */
  lemma LabelFound(p: Prog, f: u16, k: nat, l: u16)
    requires Closed(p) && f in p.starts && k < |Code(p, f)| && GotoOf(Code(p, f)[k].stmt) == Some(l)
    ensures LabelLine(Code(p, f), l, 0) < |Code(p, f)|
  {
    hide Lines, AllLabelled, LabelAt, GotoOf;
    GotosClosedExactly(p.img, FuncOf(p, f), p.starts);
    var j :| LabelAt(Code(p, f), j, l);
    LabelIsLine(Code(p, f), j, l);
  }

  lemma LabelIsLine(lines: seq<Line>, j: int, l: u16)
    requires LabelAt(lines, j, l)
    ensures LabelLine(lines, l, 0) < |lines|
  {
  }

  lemma JumpIsGoto(s: Stmt, st: State)
    ensures match After(s, st) case Jump(l, _) => GotoOf(s) == Some(l) case _ => true
  {
  }

  /** A local statement never stops the program. */
  lemma LocalProgress(p: Prog, c: CConf, r: Insn)
    requires Closed(p) && AtStatement(p, c, r) && Local(r)
    ensures GoesOn(CStep(p, c))
  {
    hide Code, Run, EmitInsn, LabelLine, AllLabelled, Emitted;
    var s := EmitInsn(r, ScopeOf(p, c.at.fn));
    StepsBy(p, c, r, s);
    LocalLine(r, ScopeOf(p, c.at.fn), c.st);
    JumpIsGoto(s, c.st);
    match After(s, c.st)
    case Jump(l, _) => LabelFound(p, c.at.fn, c.at.idx, l);
    case _ =>
  }

  lemma CleanProgress(p: Prog, i: Interp.Config, c: CConf, items: seq<Item>, base: u8, r: Insn)
    requires Closed(p) && Related(p, i, c, items, base) && CleanAt(p, r, i.st, items) && AtStatement(p, c, r)
    ensures GoesOn(CStep(p, c))
  {
    hide CStep, AtStatement, CodeIntact, AvoidsStack, StatesMatch, AddrOf, Position, Interp.Effect;
    if r.mn.JSR? {
      CallSteps(p, c, r);
    } else if r.mn.RTS? {
      assert items == [items[0]] + items[1..];
      ReturnOnTop(items[0].a, items[1..]);
      ReturnSteps(p, c, r);
    } else if r.mn.RTI? {
      assert items == [items[0]] + items[1..];
      FrameOnTop(items[0].pc, items[0].status, items[1..]);
      RtiSteps(p, c, r);
    } else {
      LocalProgress(p, c, r);
    }
  }

  /** While the interpreter's run is clean, the C program does not stop: short of the end of a
      body it takes a step or hands an address to a hook. */
  lemma Progress(p: Prog, i: Interp.Config, c: CConf, items: seq<Item>, base: u8)
    requires Loaded(p) && Closed(p) && Related(p, i, c, items, base) && Clean(p, i, items) && !AtEnd(p, c)
    ensures GoesOn(CStep(p, c))
  {
    hide CStep, StatesMatch, FramesMatch, CleanAt, Emitted, GoesOn, CodeIntact, AtEnd, AddrOf, Position;
    AtItsStatement(p, i, c);
    CleanProgress(p, i, c, items, base, Interp.Fetch(i));
  }

  // ---- at the end of a body ----

  lemma EndSteps(p: Prog, c: CConf)
    requires AtEnd(p, c)
    ensures CStep(p, c) == if c.callers == [] then Halted(c.st, Finished)
                           else Next(CConf(c.st, c.callers[0], c.callers[1..]))
  {
    hide Emitted;
    assert |Code(p, c.at.fn)| == |Emitted(p.img, c.at.fn)|;
  }

  /** The C program goes on to where the interpreter goes. */
  ghost predicate Continues(p: Prog, i: Interp.Config, c: CConf, items: seq<Item>, base: u8) {
    && CStep(p, c).Next?
    && Related(p, Interp.Step(i), CStep(p, c).c, ItemsAfter(Interp.Fetch(i), i.st, items), base)
  }

  /** Short of a return, no return address leaves the stack. */
  lemma ReturnsStay(p: Prog, r: Insn, st: State, items: seq<Item>)
    requires CleanAt(p, r, st, items) && !r.mn.RTS? && !r.mn.RTI?
    ensures |Returns(ItemsAfter(r, st, items))| >= |Returns(items)|
  {
    hide Interp.Effect, CodeIntact, AvoidsStack;
    if r.mn.Stack? {
      if Pushes(r.mn.stack) {
        DatumOnTop(PushedByte(r.mn.stack, st), items);
      }
    } else if r.mn.JSR? {
      ReturnOnTop(Word(r.pc + 2), items);
    }
  }

  /** At the end of a body the C function returns to its caller, or the program is over, with the
      interpreter at the address after the last instruction. The two go on alike exactly when the
      instruction there is a return. */
  lemma EndReturns(p: Prog, i: Interp.Config, c: CConf, items: seq<Item>, base: u8)
    requires Related(p, i, c, items, base) && AtEnd(p, c)
    ensures i.pc == EndFrom(c.at.fn, Emitted(p.img, c.at.fn))
    ensures CStep(p, c) == if c.callers == [] then Halted(c.st, Finished)
                           else Next(CConf(c.st, c.callers[0], c.callers[1..]))
    ensures Clean(p, i, items) ==> (Continues(p, i, c, items, base) <==> Interp.Fetch(i).mn.RTS?)
  {
    hide Emitted, StatesMatch, CodeIntact, CStep, CleanAt, Continues;
    EndSteps(p, c);
    EndAddr(p, c);
    if Clean(p, i, items) {
      StepIsDone(i);
      EndContinues(p, i, c, items, base, Interp.Fetch(i));
    }
  }

  lemma EndContinues(p: Prog, i: Interp.Config, c: CConf, items: seq<Item>, base: u8, r: Insn)
    requires Related(p, i, c, items, base) && CleanAt(p, r, i.st, items) && r == Interp.Fetch(i)
    requires Interp.Step(i) == Done(i, r)
    requires CStep(p, c) == if c.callers == [] then Halted(c.st, Finished)
                            else Next(CConf(c.st, c.callers[0], c.callers[1..]))
    ensures Continues(p, i, c, items, base) <==> r.mn.RTS?
  {
    hide Emitted, StatesMatch, CodeIntact, CStep, Interp.Effect, AddrOf, Position, AvoidsStack;
    hide Interp.Step, Interp.Fetch, Done;
    if r.mn.RTS? {
      assert items == [items[0]] + items[1..];
      ReturnOnTop(items[0].a, items[1..]);
      ReturnStep(p, i, c, CStep(p, c).c, items, base, r);
    } else if r.mn.RTI? {
      StackStays(i.st, Interp.Step(i).st, c.st, items, base);
    } else {
      ReturnsStay(p, r, i.st, items);
    }
  }

  /** A plain return leaves what an interrupt pushed on the C program's stack. */
  lemma StackStays(s: State, s': State, t: State, items: seq<Item>, base: u8)
    requires items != [] && items[0].IrqFrame? && StatesMatch(s, t, items, base)
    ensures !StatesMatch(s', t, items[1..], base)
  {
  }

  lemma EndAddr(p: Prog, c: CConf)
    requires AtEnd(p, c)
    ensures AddrOf(p, c.at) == EndFrom(c.at.fn, Emitted(p.img, c.at.fn))
  {
    hide Emitted;
  }

  // ---- whole runs ----

  /** The interpreter after `n` steps, with the history of its stack. */
  datatype Traced = Traced(i: Interp.Config, items: seq<Item>)

  function IRun(a: Traced, n: nat): Traced {
    if n == 0 then a
    else
      var b := IRun(a, n - 1);
      Traced(Interp.Step(b.i), ItemsAfter(Interp.Fetch(b.i), b.i.st, b.items))
  }

  /** The C program after `n` statements, or where it stopped. */
  function CRun(p: Prog, c: CConf, n: nat): Outcome {
    if n == 0 then Next(c)
    else
      match CRun(p, c, n - 1)
      case Next(d) => CStep(p, d)
      case Halted(t, w) => Halted(t, w)
  }

  /** The next statement ticks, and jumps. */
  predicate StepTicks(p: Prog, c: CConf) { Translate.Ticks(Code(p, c.at.fn), c.at.idx, c.st) }

  /** Each of the interpreter's next `n` steps is well behaved. */
  ghost predicate CleanRun(p: Prog, a: Traced, n: nat) {
    forall k: nat :: k < n ==> Clean(p, IRun(a, k).i, IRun(a, k).items)
  }

  /** After `k` statements the C program is where the interpreter is after `k` instructions. */
  ghost predicate Tracks(p: Prog, a: Traced, c: CConf, base: u8, k: nat) {
    CRun(p, c, k).Next? && Related(p, IRun(a, k).i, CRun(p, c, k).c, IRun(a, k).items, base)
  }

  /** The next statement leaves for code that was not recompiled, with the interpreter's next
      program counter, registers, flags and memory outside the stack page. */
  ghost predicate Leaves(p: Prog, i: Interp.Config, c: CConf) {
    var o, next := CStep(p, c), Interp.Step(i);
    o.Halted? && o.why == Escape(next.pc) && o.st == With(next.st, o.st.s, o.st.mem) && OffPage(next.st.mem, o.st.mem)
  }

  /** It was there at every step up to `n`. */
  ghost predicate TracksTo(p: Prog, a: Traced, c: CConf, base: u8, n: nat) {
    forall k: nat :: k <= n ==> Tracks(p, a, c, base, k)
  }

  /** The C function has run off its end, and the interpreter does not return there. */
  ghost predicate Parts(p: Prog, i: Interp.Config, c: CConf) { AtEnd(p, c) && !Interp.Fetch(i).mn.RTS? }

  lemma TracksMore(p: Prog, a: Traced, c: CConf, base: u8, k: nat) returns (leaves: bool)
    requires Loaded(p) && Closed(p) && Tracks(p, a, c, base, k) && Clean(p, IRun(a, k).i, IRun(a, k).items)
    requires !Parts(p, IRun(a, k).i, CRun(p, c, k).c)
    ensures if leaves then Leaves(p, IRun(a, k).i, CRun(p, c, k).c) else Tracks(p, a, c, base, k + 1)
  {
    hide Related, Clean, Parts, Leaves, CStep;
    var b, d := IRun(a, k), CRun(p, c, k).c;
    leaves := StepGoes(p, b.i, d, b.items, base);
  }

  /** One clean step: the C program goes where the interpreter goes, or leaves by a hook, unless
      they part. */
  lemma StepGoes(p: Prog, i: Interp.Config, c: CConf, items: seq<Item>, base: u8) returns (leaves: bool)
    requires Loaded(p) && Closed(p) && Related(p, i, c, items, base) && Clean(p, i, items) && !Parts(p, i, c)
    ensures if leaves then Leaves(p, i, c) else Continues(p, i, c, items, base)
  {
    hide Related, Clean, AtEnd, CStep, Leaves;
    leaves := false;
    if AtEnd(p, c) {
      EndReturns(p, i, c, items, base);
    } else {
      Progress(p, i, c, items, base);
      leaves := CStep(p, c).Halted?;
      if leaves {
        EscapeLeaves(p, i, c, items, base);
      } else {
        StepSimulates(p, i, c, CStep(p, c).c, items, base);
      }
    }
  }

  lemma EscapeLeaves(p: Prog, i: Interp.Config, c: CConf, items: seq<Item>, base: u8)
    requires Loaded(p) && Related(p, i, c, items, base) && Clean(p, i, items) && !AtEnd(p, c)
    requires CStep(p, c).Halted? && CStep(p, c).why.Escape?
    ensures Leaves(p, i, c)
  {
    hide CStep, StatesMatch, FramesMatch, CleanAt, Emitted, OffPage, CodeIntact, AtEnd, AddrOf, Position;
    AtItsStatement(p, i, c);
    StepIsDone(i);
    EscapeAgrees(p, i, c, items, base, Interp.Fetch(i), CStep(p, c).st, CStep(p, c).why.to);
  }

  lemma TracksStart(p: Prog, a: Traced, c: CConf, base: u8)
    requires Related(p, a.i, c, a.items, base)
    ensures TracksTo(p, a, c, base, 0)
  {
    hide Related;
  }

  lemma TracksOneMore(p: Prog, a: Traced, c: CConf, base: u8, k: nat)
    requires TracksTo(p, a, c, base, k) && Tracks(p, a, c, base, k + 1)
    ensures TracksTo(p, a, c, base, k + 1)
  {
    hide Tracks;
  }

  lemma TracksAt(p: Prog, a: Traced, c: CConf, base: u8, n: nat, k: nat)
    requires TracksTo(p, a, c, base, n) && k <= n
    ensures Tracks(p, a, c, base, k) && CRun(p, c, k).Next?
  {
    hide Related, IRun, CRun;
  }

  lemma CleanShorter(p: Prog, a: Traced, n: nat)
    requires CleanRun(p, a, n) && n > 0
    ensures CleanRun(p, a, n - 1) && Clean(p, IRun(a, n - 1).i, IRun(a, n - 1).items)
  {
    hide Clean, IRun;
  }

  /** Call-level simulation, from a clean interpreter run alone: the C program follows it for `k`
      steps, with the same registers, flags and memory outside the stack page and its nested
      calls in place of the return addresses. It follows to the end of the run, unless it leaves
      by a hook that is handed the interpreter's state, or runs off the end of a body where the
      interpreter does not return. */
  lemma {:induction false} RunSimulates(p: Prog, a: Traced, c: CConf, base: u8, n: nat) returns (k: nat)
    requires Loaded(p) && Closed(p) && CleanRun(p, a, n) && Related(p, a.i, c, a.items, base)
    ensures k <= n && TracksTo(p, a, c, base, k) && CRun(p, c, k).Next?
    ensures k == n || Leaves(p, IRun(a, k).i, CRun(p, c, k).c) || Parts(p, IRun(a, k).i, CRun(p, c, k).c)
  {
    hide Related, Clean, Leaves, Parts, CStep, CleanRun, Tracks, TracksTo, IRun, CRun;
    k := 0;
    TracksStart(p, a, c, base);
    if n > 0 {
      CleanShorter(p, a, n);
      k := RunSimulates(p, a, c, base, n - 1);
      TracksAt(p, a, c, base, k, k);
      if k == n - 1 && !Parts(p, IRun(a, k).i, CRun(p, c, k).c) {
        var leaves := TracksMore(p, a, c, base, k);
        if !leaves {
          TracksOneMore(p, a, c, base, k);
          k := n;
        }
      }
    }
    TracksAt(p, a, c, base, k, k);
  }

  /** The C program is where the interpreter is all through the run, or until it leaves by a hook. */
  ghost predicate Follows(p: Prog, a: Traced, c: CConf, base: u8, n: nat) {
    exists k: nat :: k <= n && FollowsTo(p, a, c, base, n, k)
  }

  ghost predicate FollowsTo(p: Prog, a: Traced, c: CConf, base: u8, n: nat, k: nat) {
    TracksTo(p, a, c, base, k) && (k == n || LeavesAt(p, a, c, k))
  }

  ghost predicate LeavesAt(p: Prog, a: Traced, c: CConf, k: nat) {
    CRun(p, c, k).Next? && Leaves(p, IRun(a, k).i, CRun(p, c, k).c)
  }

  /** Wherever the C program comes to the end of a body, the interpreter comes to a return. */
  ghost predicate EndsAtReturns(p: Prog, a: Traced, c: CConf, base: u8, n: nat) {
    forall k: nat :: k < n && TracksTo(p, a, c, base, k) ==> !PartsAt(p, a, c, k)
  }

  ghost predicate PartsAt(p: Prog, a: Traced, c: CConf, k: nat) {
    CRun(p, c, k).Next? && Parts(p, IRun(a, k).i, CRun(p, c, k).c)
  }

  /** Where they part, the C program neither goes on alike nor leaves by a hook. */
  lemma PartsForGood(p: Prog, a: Traced, c: CConf, base: u8, k: nat)
    requires Tracks(p, a, c, base, k) && PartsAt(p, a, c, k) && Clean(p, IRun(a, k).i, IRun(a, k).items)
    ensures !Tracks(p, a, c, base, k + 1) && !LeavesAt(p, a, c, k)
  {
    hide Related, Clean, AtEnd, CStep;
    var b, d := IRun(a, k), CRun(p, c, k).c;
    EndReturns(p, b.i, d, b.items, base);
  }

  /** A hook ends the run of the C program. */
  lemma LeavesForGood(p: Prog, a: Traced, c: CConf, base: u8, k: nat)
    requires LeavesAt(p, a, c, k)
    ensures !Tracks(p, a, c, base, k + 1)
  {
    hide Related, CStep, IRun;
    assert CRun(p, c, k + 1) == CStep(p, CRun(p, c, k).c);
  }

  lemma CleanStep(p: Prog, a: Traced, n: nat, k: nat)
    requires CleanRun(p, a, n) && k < n
    ensures Clean(p, IRun(a, k).i, IRun(a, k).items)
  {
    hide Clean, IRun;
  }

  /** The C program follows a clean run, or leaves by a hook, exactly when every end of a body it
      comes to on the way has a return behind it. */
  lemma FollowsExactly(p: Prog, a: Traced, c: CConf, base: u8, n: nat)
    requires Loaded(p) && Closed(p) && CleanRun(p, a, n) && Related(p, a.i, c, a.items, base)
    ensures Follows(p, a, c, base, n) <==> EndsAtReturns(p, a, c, base, n)
  {
    hide Related, Clean, CStep, CleanRun, Tracks, TracksTo, LeavesAt, PartsAt, IRun, CRun;
    if Follows(p, a, c, base, n) {
      var k: nat :| k <= n && FollowsTo(p, a, c, base, n, k);
      forall j: nat | j < n && TracksTo(p, a, c, base, j)
        ensures !PartsAt(p, a, c, j)
      {
        CleanStep(p, a, n, j);
        TracksAt(p, a, c, base, j, j);
        if j < k {
          TracksAt(p, a, c, base, k, j + 1);
        } else if j > k {
          TracksAt(p, a, c, base, j, k + 1);
          LeavesForGood(p, a, c, base, k);
        }
        if PartsAt(p, a, c, j) { PartsForGood(p, a, c, base, j); }
      }
    } else {
      var k := RunSimulates(p, a, c, base, n);
      RunEnds(p, a, c, base, n, k);
      assert !FollowsTo(p, a, c, base, n, k);
    }
  }

  lemma RunEnds(p: Prog, a: Traced, c: CConf, base: u8, n: nat, k: nat)
    requires k <= n && TracksTo(p, a, c, base, k) && CRun(p, c, k).Next?
    requires k == n || Leaves(p, IRun(a, k).i, CRun(p, c, k).c) || Parts(p, IRun(a, k).i, CRun(p, c, k).c)
    ensures k == n || LeavesAt(p, a, c, k) || PartsAt(p, a, c, k)
  {
  }

  // ---- bodies that run off their end ----

  /** The body ends with an instruction that does not pass control on. */
  predicate Complete(vs: seq<Visit>) { vs != [] && Terminates(vs[|vs| - 1].insn) }

  /** Control comes to the statement after, now or when the callee returns. */
  predicate PassesOn(ctl: Ctl) { ctl.Fall? || ctl.Enter? || ctl.Boot? }

  function Uniform(on: bool): State {
    State(0, 0, 0, 0, on, on, on, on, on, on, seq(0x1_0000, _ => if on then 0xFF else 0))
  }

  const BYTE_BITS: nat := 8

  lemma MaskedOnes(b: nat)
    requires b < BYTE_BITS
    ensures And(0xFF, Mask(b)) != 0 && And(0, Mask(b)) == 0
  {
    hide Mask, AndBits, Has, Exp2;
    MaskIsExp2(b);
    EightBits();
    HasAnd(0xFF, Mask(b), BYTE_BITS, b);
    HasExp2(b, b);
    HasZero(b);
    HasNot(0, BYTE_BITS, b);
    AndOfZero(Mask(b), BYTE_BITS);
  }

  lemma EightBits()
    ensures Exp2(BYTE_BITS) == 0x100
  {
  }

  lemma {:induction false} AndOfZero(x: nat, n: nat)
    ensures AndBits(0, x, n) == 0
  {
    if n > 0 {
      AndOfZero(x / 2, n - 1);
    }
  }

  /** In some state the statement passes control on. */
  ghost predicate MayPass(s: Stmt) { exists st :: PassesOn(After(s, st)) }

  lemma BranchMayPass(r: Insn, sc: Scope)
    requires WellFormed(r) && r.flow.Branch?
    ensures MayPass(EmitInsn(r, sc))
  {
    hide And, Mask;
    var on := match r.mn case FlagBranch(op) => !BranchCond(op).on case BBR(_) => true case _ => false;
    match r.mn {
      case BBR(b) => MaskedOnes(b);
      case BBS(b) => MaskedOnes(b);
      case _ =>
    }
    assert PassesOn(After(EmitInsn(r, sc), Uniform(on)));
  }

  lemma OtherMayPass(r: Insn, sc: Scope)
    requires WellFormed(r) && (r.flow.Normal? || r.flow.CallTo?)
    ensures MayPass(EmitInsn(r, sc))
  {
    assert PassesOn(After(EmitInsn(r, sc), Uniform(false)));
  }

  lemma TerminatorPasses(r: Insn, sc: Scope, st: State)
    requires WellFormed(r) && Terminates(r)
    ensures !PassesOn(After(EmitInsn(r, sc), st))
  {
  }

  /** It does so in some state unless its instruction is a terminator. */
  lemma PassesOnExactly(r: Insn, sc: Scope)
    requires WellFormed(r)
    ensures MayPass(EmitInsn(r, sc)) <==> !Terminates(r)
  {
    hide EmitInsn, After, PassesOn, WellFormed;
    if Terminates(r) {
      forall st { TerminatorPasses(r, sc, st); }
    } else if r.flow.Branch? {
      BranchMayPass(r, sc);
    } else {
      OtherMayPass(r, sc);
    }
  }

  /** A C function can reach its end exactly when its body is empty or its last instruction is no
      terminator, as when the 0x1000-byte limit or the end of the image cuts the sweep. */
  lemma MayRunOffExactly(p: Prog, f: u16)
    ensures var lines := Code(p, f);
            lines == [] || MayPass(lines[|lines| - 1].stmt) <==> !Complete(Emitted(p.img, f))
  {
    hide EmitInsn, Emitted, MayPass, Terminates;
    var vs := Emitted(p.img, f);
    if vs != [] {
      EmittedIsGenuine(p.img, f, vs[|vs| - 1]);
      PassesOnExactly(vs[|vs| - 1].insn, ScopeOf(p, f));
    }
  }

  /** A body that is complete, or is followed by a return in memory `m`. */
  predicate EndsWell(p: Prog, m: Mem, f: u16) {
    Complete(Emitted(p.img, f)) || m[EndFrom(f, Emitted(p.img, f))] == RTS_CODE
  }

  const RTS_CODE: u8 := 0x60

  ghost predicate AllEndWell(p: Prog, m: Mem) { forall f :: f in p.starts ==> EndsWell(p, m, f) }

  /** At a statement, or at the end of a body that is not complete. */
  predicate InsideAt(p: Prog, at: Frame) {
    at.fn in p.starts && (at.idx < |Emitted(p.img, at.fn)| || !Complete(Emitted(p.img, at.fn)))
  }

  /** The program and all its callers are at statements, or at such ends. */
  predicate Inside(p: Prog, c: CConf) { InsideAt(p, c.at) && forall f :: f in c.callers ==> InsideAt(p, f) }

  /** A step never leads past a complete body. */
  lemma StepInside(p: Prog, c: CConf, d: CConf)
    requires Inside(p, c) && CStep(p, c) == Next(d)
    ensures Inside(p, d)
  {
    hide EmitInsn, Emitted, Terminates, LabelLine, Run, After;
    var vs := Emitted(p.img, c.at.fn);
    assert |Code(p, c.at.fn)| == |vs|;
    if c.at.idx < |vs| {
      var r, sc := vs[c.at.idx].insn, ScopeOf(p, c.at.fn);
      StatementIs(p, c.at);
      EmittedIsGenuine(p.img, c.at.fn, vs[c.at.idx]);
      TransferInside(r, sc, c.st);
      if PassesOn(After(EmitInsn(r, sc), c.st)) {
        PassesOnExactly(r, sc);
        assert InsideAt(p, Frame(c.at.fn, c.at.idx + 1));
      }
    }
  }

  lemma TransferInside(r: Insn, sc: Scope, st: State)
    ensures match After(EmitInsn(r, sc), st)
            case Enter(f) => f in sc.starts
            case Tail(f) => f in sc.starts
            case _ => true
  {
  }

  lemma {:induction false} RunInside(p: Prog, c: CConf, k: nat)
    requires Inside(p, c) && CRun(p, c, k).Next?
    ensures Inside(p, CRun(p, c, k).c)
  {
    hide Inside, CStep;
    if k > 0 {
      RunInside(p, c, k - 1);
      StepInside(p, CRun(p, c, k - 1).c, CRun(p, c, k).c);
    }
  }

  /** Memory keeps a return behind every incomplete body all through the run. */
  ghost predicate EndsWellFor(p: Prog, a: Traced, n: nat) {
    forall k: nat :: k < n ==> AllEndWell(p, IRun(a, k).i.st.mem)
  }

  lemma ReturnRow(b1: u8, b2: u8, pc: u16)
    ensures DecodeAt(RTS_CODE, b1, b2, pc).mn.RTS?
  {
  }

  lemma EndIsReturn(p: Prog, i: Interp.Config, c: CConf, items: seq<Item>, base: u8)
    requires Related(p, i, c, items, base) && AtEnd(p, c) && Inside(p, c) && AllEndWell(p, i.st.mem)
    ensures Interp.Fetch(i).mn.RTS?
  {
    hide StatesMatch, FramesMatch, CodeIntact, Emitted, DecodeAt, CStep;
    EndReturns(p, i, c, items, base);
    assert EndsWell(p, i.st.mem, c.at.fn);
    ReturnRow(i.st.mem[Word(i.pc + 1)], i.st.mem[Word(i.pc + 2)], i.pc);
  }

  /** With every body complete or followed by a return, as far as memory says during the run, the C
      program follows the whole clean run or leaves by a hook. */
  lemma CompleteRunSimulates(p: Prog, a: Traced, c: CConf, base: u8, n: nat) returns (k: nat)
    requires Loaded(p) && Closed(p) && CleanRun(p, a, n) && Related(p, a.i, c, a.items, base)
    requires EndsWellFor(p, a, n) && Inside(p, c)
    ensures k <= n && TracksTo(p, a, c, base, k) && CRun(p, c, k).Next?
    ensures k == n || Leaves(p, IRun(a, k).i, CRun(p, c, k).c)
  {
    hide Related, CStep, Leaves, AllEndWell, AtEnd, CRun, IRun, Inside, CleanRun;
    k := RunSimulates(p, a, c, base, n);
    RunInside(p, c, k);
    TracksAt(p, a, c, base, k, k);
    if k < n && AtEnd(p, CRun(p, c, k).c) {
      EndIsReturn(p, IRun(a, k).i, CRun(p, c, k).c, IRun(a, k).items, base);
    }
  }

  // ---- an image whose function runs off ----

  /** A lone NOP. */
  const LONE_NOP: seq<u8> := [0xEA]

  lemma NopDecodes(base: u16)
    ensures var r := DecodeRom(base, LONE_NOP, 0); r.mn.NOP? && r.len == 1 && r.flow.Normal?
  {
    hide DecodeAt, Optab, WellFormed;
    NopRow(0, 0, base);
  }

  lemma NopRow(b1: u8, b2: u8, pc: u16)
    ensures var r := DecodeAt(0xEA, b1, b2, pc); r.mn.NOP? && r.len == 1 && r.flow.Normal?
  {
  }

  /** One instruction that fills the image is the whole sweep. */
  lemma LoneInsn(img: Image, fs: u16, r: Insn)
    requires Decodes(img, fs, fs) && r == InsnAt(img, fs) && !Wraps(r) && !InImage(img, Following(r))
    ensures Body(img, fs) == [Visit(r, Following(r))]
  {
    hide Pending, Stops;
    var end := Max(fs, Following(r));
    assert end == Following(r) && SweepFrom(img, fs, end, Pending(img, r, fs, end), end) == [];
  }

  lemma NopImage(img: Image, fs: u16)
    requires img == Load(fs, LONE_NOP) && fs < 0xFFFF
    ensures InImage(img, fs) && InsnAt(img, fs) == DecodeRom(fs, LONE_NOP, 0) && Avail(img, fs) == 1
    ensures !InImage(img, fs + 1)
  {
    hide DecodeRom;
  }

  lemma NopBody(img: Image, fs: u16) returns (v: Visit)
    requires img == Load(fs, LONE_NOP) && fs < 0xFFFF
    ensures v.insn.mn.NOP? && v.insn.len == 1 && v.insn.flow.Normal? && v.insn.pc == fs && Emitted(img, fs) == [v]
    ensures WellFormed(v.insn)
  {
    hide Load, DecodeRom, SweepFrom, Body;
    NopDecodes(fs);
    NopImage(img, fs);
    var r := InsnAt(img, fs);
    LoneInsn(img, fs, r);
    v := Visit(r, Following(r));
    UnwrappedCons(v, []);
  }

  /** The function of a lone NOP returns after it, while the interpreter goes on behind it. */
  lemma NopRunsOff(p: Prog, fs: u16, st: State)
    requires p == Prog(Load(fs, LONE_NOP), {fs}) && fs < 0xFFFF && Read(st, fs) == 0xEA
    ensures !Complete(Emitted(p.img, fs))
    ensures CRun(p, CConf(st, Frame(fs, 0), []), 1) == Next(CConf(st, Frame(fs, 1), []))
    ensures CRun(p, CConf(st, Frame(fs, 0), []), 2) == Halted(st, Finished)
    ensures Interp.Step(Interp.Config(st, fs)) == Interp.Config(st, fs + 1)
  {
    hide Load, Emitted, Optab, DecodeAt, CStep, CRun, WellFormed, Interp.Step;
    var v := NopBody(p.img, fs);
    var c, d := CConf(st, Frame(fs, 0), []), CConf(st, Frame(fs, 1), []);
    NopSteps(p, c, d, v);
    NopInterpreted(Interp.Config(st, fs));
    TwoSteps(p, c, d);
  }

  lemma TwoSteps(p: Prog, c: CConf, d: CConf)
    requires CStep(p, c) == Next(d)
    ensures CRun(p, c, 1) == Next(d) && CRun(p, c, 2) == CStep(p, d)
  {
    hide CStep;
    assert CRun(p, c, 1) == CStep(p, CRun(p, c, 0).c) && CRun(p, c, 2) == CStep(p, CRun(p, c, 1).c);
  }

  lemma NopSteps(p: Prog, c: CConf, d: CConf, v: Visit)
    requires Emitted(p.img, c.at.fn) == [v] && v.insn.mn.NOP? && WellFormed(v.insn) && c.at.fn in p.starts
    requires c.at.idx == 0 && c.callers == [] && d == c.(at := Frame(c.at.fn, 1))
    ensures CStep(p, c) == Next(d) && CStep(p, d) == Halted(c.st, Finished)
  {
    hide Emitted, Code, CStep, EmitInsn;
    var r := v.insn;
    EndSteps(p, d);
    StepsBy(p, c, r, EmitInsn(r, ScopeOf(p, c.at.fn)));
    NopIsEmpty(r, ScopeOf(p, c.at.fn));
  }

  lemma NopIsEmpty(r: Insn, sc: Scope)
    requires r.mn.NOP?
    ensures EmitInsn(r, sc) == Nop
  {
  }

  lemma NopInterpreted(i: Interp.Config)
    requires Read(i.st, i.pc) == 0xEA
    ensures Interp.Step(i) == Interp.Config(i.st, Word(i.pc + 1))
  {
    var r := Interp.Fetch(i);
    assert r.mn.NOP? && r.len == 1;
  }

  // ---- inside one function, over equal states ----

  /** Equal machines at the same point. */
  ghost predicate Same(p: Prog, i: Interp.Config, c: CConf) {
    i.st == c.st && Position(p, c.at) && AddrOf(p, c.at) == i.pc && CodeIntact(p, i.st.mem)
  }

  /** Each of the next `n` instructions is no call, return or halt, and writes no code. */
  ghost predicate LocalRun(p: Prog, i: Interp.Config, n: nat) {
    forall k: nat :: k < n ==> LocalAt(p, Interp.Steps(i, k))
  }

  ghost predicate LocalAt(p: Prog, i: Interp.Config) {
    Local(Interp.Fetch(i)) && CodeIntact(p, Interp.Step(i).st.mem)
  }

  /** The next statement hands the interpreter's whole next state to a hook. */
  ghost predicate LeavesEqual(p: Prog, i: Interp.Config, c: CConf) {
    CStep(p, c) == Halted(Interp.Step(i).st, Escape(Interp.Step(i).pc))
  }

  ghost predicate Agrees(p: Prog, i: Interp.Config, c: CConf, k: nat) {
    CRun(p, c, k).Next? && Same(p, Interp.Steps(i, k), CRun(p, c, k).c) && CRun(p, c, k).c.callers == c.callers
  }

  /** From equal states, any number of local instructions, TSX and TXS included, leave equal
      registers, flags and all of memory, at the interpreter's program counter, with no condition
      on the stack; a hook gets exactly the interpreter's state. */
  lemma {:induction false} LocalRunAgrees(p: Prog, i: Interp.Config, c: CConf, n: nat) returns (k: nat)
    requires Loaded(p) && Closed(p) && Same(p, i, c) && LocalRun(p, i, n)
    ensures k <= n && Agrees(p, i, c, k)
    ensures k == n || LeavesEqual(p, Interp.Steps(i, k), CRun(p, c, k).c) || AtEnd(p, CRun(p, c, k).c)
  {
    hide Same, LocalAt, LeavesEqual, AtEnd, CStep, Loaded, Closed, Interp.Step, Interp.Steps, CRun;
    assert Agrees(p, i, c, 0) by { AgreesAtStart(p, i, c); }
    k := 0;
    if n > 0 {
      k := LocalRunAgrees(p, i, c, n - 1);
      if k == n - 1 && !AtEnd(p, CRun(p, c, k).c) {
        var leaves := AgreesMore(p, i, c, k);
        if !leaves { k := n; }
      }
    }
  }

  lemma AgreesAtStart(p: Prog, i: Interp.Config, c: CConf)
    requires Same(p, i, c)
    ensures Agrees(p, i, c, 0)
  {
    hide Same, Interp.Step, CStep;
  }

  lemma AgreesMore(p: Prog, i: Interp.Config, c: CConf, k: nat) returns (leaves: bool)
    requires Loaded(p) && Closed(p) && Agrees(p, i, c, k) && LocalAt(p, Interp.Steps(i, k))
    requires !AtEnd(p, CRun(p, c, k).c)
    ensures if leaves then LeavesEqual(p, Interp.Steps(i, k), CRun(p, c, k).c) else Agrees(p, i, c, k + 1)
  {
    hide Same, LocalAt, LeavesEqual, AtEnd, CStep, Loaded, Closed, Interp.Step;
    leaves := LocalMore(p, Interp.Steps(i, k), CRun(p, c, k).c);
  }

  lemma LocalMore(p: Prog, i: Interp.Config, c: CConf) returns (leaves: bool)
    requires Loaded(p) && Closed(p) && Same(p, i, c) && LocalAt(p, i) && !AtEnd(p, c)
    ensures if leaves then LeavesEqual(p, i, c)
            else CStep(p, c).Next? && Same(p, Interp.Step(i), CStep(p, c).c) && CStep(p, c).c.callers == c.callers
  {
    hide CStep, Emitted, AddrOf, Position, CodeIntact, AtEnd;
    var r := Interp.Fetch(i);
    StepIsDone(i);
    AtItsStatement(p, i, c);
    LocalProgress(p, c, r);
    leaves := CStep(p, c).Halted?;
    if leaves {
      EscapeByJump(p, c, r, CStep(p, c).st, CStep(p, c).why.to);
    } else {
      LocalC(p, c, r, CStep(p, c).c);
    }
  }

  // ---- the recompiler end to end ----

  /** Discovery, then emission of every function found: the program is the one that the runs
      above are about. */
  method Recompile(base: u16, rom: seq<u8>, seeds: seq<u16>) returns (table: seq<Func>, bodies: seq<seq<Line>>)
    ensures Analyze.Answers(Load(base, rom), seeds, table) && |bodies| == |table|
    ensures var p := Prog(Load(base, rom), Analyze.Starts(table));
            Loaded(p) && forall k :: 0 <= k < |table| ==> bodies[k] == Code(p, table[k].start)
  {
    hide Load, Lines, Analyze.Least, Analyze.Closed, Analyze.Minimal, FuncAt, Loaded;
    var img := Load(base, rom);
    table := Analyze.AnalyzeDiscover(img, seeds);
    LoadIsLoaded(base, rom, Analyze.Starts(table));
    var boundary := new bool[0x1_0000](_ => false);
    bodies := [];
    while |bodies| < |table|
      invariant |bodies| <= |table|
      invariant forall k :: 0 <= k < |bodies| ==> bodies[k] == Code(Prog(img, Analyze.Starts(table)), table[k].start)
    {
      var fn := table[|bodies|];
      var lines := EmitFunction(img, fn, table, boundary);
      bodies := bodies + [lines];
    }
  }
}
