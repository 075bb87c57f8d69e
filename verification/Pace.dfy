/** How long the emitted program can run without a tick. A body alone ticks in time; a program does
    if its functions do not enter one another in a cycle, and a cycle of tail calls never ticks. */
module Pace {
  import opened Bytes
  import opened Cpu
  import opened Decode
  import opened Sweep
  import opened Target
  import opened Emit
  import opened Translate
  import opened Simulation
  import opened Runs
  import Analyze

  const REACH: nat := 0x1000

  /** The bytes left to a sweep at `addr`. */
  function Span(fs: u16, addr: u16): nat { if Word(addr - fs) < REACH then REACH - Word(addr - fs) else 0 }

  lemma SpanShrinks(fs: u16, r: Insn)
    requires Word(r.pc - fs) < REACH && 1 <= r.len <= 3
    ensures Span(fs, Following(r)) < Span(fs, r.pc)
  {
  }

  /** A sweep has at most as many instructions as it may span bytes. */
  lemma {:induction false} SweepIsShort(img: Image, fs: u16, addr: u16, maxt: u16, end: u16)
    ensures |SweepFrom(img, fs, addr, maxt, end)| <= Span(fs, addr)
    decreases 0x1000 - Word(addr - fs)
  {
    hide Pending, Stops, InImage, Span, Following;
    if Decodes(img, fs, addr) {
      var r := InsnAt(img, addr);
      var end' := Max(end, Following(r));
      var maxt' := Pending(img, r, maxt, end');
      SpanShrinks(fs, r);
      if !Stops(r, maxt') {
        Advances(fs, r);
        SweepIsShort(img, fs, Following(r), maxt', end');
      }
    }
  }

  lemma CodeIsShort(p: Prog, f: u16)
    ensures |Code(p, f)| <= REACH
  {
    hide SweepFrom, Unwrapped, EmitInsn;
    SweepIsShort(p.img, f, f, f, f);
    assert |Code(p, f)| == |Emitted(p.img, f)|;
  }

  /** The paths inside a body are those of the program: a step in the body, or a call that comes back,
      passes to the line it leads to. */
  lemma StepPasses(p: Prog, c: CConf, d: CConf, back: Frame)
    requires c.at.idx < |Code(p, c.at.fn)| && CStep(p, c) == Next(d) && back.idx < |Code(p, c.at.fn)|
    requires match After(Code(p, c.at.fn)[c.at.idx].stmt, c.st)
             case Fall => back == d.at
             case Jump(_, _) => back == d.at
             case Enter(_) => d.callers != [] && back == d.callers[0]
             case _ => false
    ensures back.fn == c.at.fn
    ensures Passes(Code(p, c.at.fn), c.at.idx, After(Code(p, c.at.fn)[c.at.idx].stmt, c.st), back.idx)
  {
    hide Code, After, Run;
  }

  // ---- programs whose functions are ranked ----

  /** A function that line `k` of `f` enters in state `st` ranks below `f`. */
  ghost predicate EntersBelow(p: Prog, rank: map<u16, nat>, f: u16, k: nat, st: State)
    requires k < |Code(p, f)| && f in rank && p.starts <= rank.Keys
  {
    match After(Code(p, f)[k].stmt, st)
    case Enter(g) => g in p.starts ==> rank[g] < rank[f]
    case Tail(g) => g in p.starts ==> rank[g] < rank[f]
    case Indirect(g) => g in p.starts ==> rank[g] < rank[f]
    case _ => true
  }

  /** So does the one that the next statement enters, if it enters one. */
  ghost predicate StepsDown(p: Prog, rank: map<u16, nat>, c: CConf) {
    && c.at.fn in rank && p.starts <= rank.Keys
    && (c.at.idx < |Code(p, c.at.fn)| ==> EntersBelow(p, rank, c.at.fn, c.at.idx, c.st))
  }

  /** Functions enter only functions of lower rank, in whatever state: no recursion, no cycle of tail
      calls, and no computed jumps, which may go anywhere. */
  ghost predicate Ranked(p: Prog, rank: map<u16, nat>) {
    && p.starts <= rank.Keys
    && forall f, k: nat, st :: f in p.starts && k < |Code(p, f)| ==> EntersBelow(p, rank, f, k, st)
  }

  /** The statements that a line of a function of rank `r` stands for. */
  function Weight(r: nat): (w: nat)
    ensures w >= 1
  {
    if r == 0 then 1 else 1 + (REACH + 1) * Weight(r - 1)
  }

  lemma {:induction false} WeightGrows(q: nat, r: nat)
    requires q < r
    ensures (REACH + 1) * Weight(q) < Weight(r)
    decreases r
  {
    if q < r - 1 {
      WeightGrows(q, r - 1);
    }
  }

  /** The lines from a position on, and the end of the body. */
  function LinesLeft(p: Prog, at: Frame): (n: nat)
    ensures n >= 1
  {
    if at.idx < |Code(p, at.fn)| then |Code(p, at.fn)| - at.idx + 1 else 1
  }

  function FrameRoom(p: Prog, rank: map<u16, nat>, at: Frame): nat {
    if at.fn in rank then Product(LinesLeft(p, at), Weight(rank[at.fn])) else 1
  }

  function Product(n: nat, w: nat): nat { n * w }

  function CallersRoom(p: Prog, rank: map<u16, nat>, callers: seq<Frame>): nat {
    if callers == [] then 0 else FrameRoom(p, rank, callers[0]) + CallersRoom(p, rank, callers[1..])
  }

  /** The statements the program can execute without a tick. */
  function Room(p: Prog, rank: map<u16, nat>, c: CConf): nat {
    FrameRoom(p, rank, c.at) + CallersRoom(p, rank, c.callers)
  }

  predicate InStarts(p: Prog, c: CConf) { c.at.fn in p.starts && forall f :: f in c.callers ==> f.fn in p.starts }

  lemma StepInStarts(p: Prog, c: CConf, d: CConf)
    requires InStarts(p, c) && CStep(p, c) == Next(d)
    ensures InStarts(p, d)
  {
    hide EmitInsn, Emitted, LabelLine, Run, After;
    if c.at.idx < |Code(p, c.at.fn)| {
      var r := Emitted(p.img, c.at.fn)[c.at.idx].insn;
      StatementIs(p, c.at);
      TransferInside(r, ScopeOf(p, c.at.fn), c.st);
    }
  }

  lemma {:induction false} RunInStarts(p: Prog, c: CConf, k: nat)
    requires InStarts(p, c) && CRun(p, c, k).Next?
    ensures InStarts(p, CRun(p, c, k).c)
  {
    hide InStarts, CStep;
    if k > 0 {
      RunInStarts(p, c, k - 1);
      StepInStarts(p, CRun(p, c, k - 1).c, CRun(p, c, k).c);
    }
  }

  /** Later in the same body there is less room, by at least the weight of a line. */
  lemma LaterHasLess(p: Prog, rank: map<u16, nat>, at: Frame, j: nat)
    requires at.fn in rank && at.idx < |Code(p, at.fn)| && j > at.idx
    ensures FrameRoom(p, rank, Frame(at.fn, j)) + Weight(rank[at.fn]) <= FrameRoom(p, rank, at)
  {
    hide Code, Weight;
    var w, m, n := Weight(rank[at.fn]), LinesLeft(p, Frame(at.fn, j)), LinesLeft(p, at);
    assert m + 1 <= n;
    Times(m, n, w);
  }

  lemma Times(m: nat, n: nat, w: nat)
    requires m + 1 <= n
    ensures m * w + w <= n * w
  {
    assert (n - m - 1) * w >= 0;
    assert n * w == m * w + w + (n - m - 1) * w;
  }

  /** A function of lower rank has less room, entered at its start, than one line. */
  lemma EntryHasLess(p: Prog, rank: map<u16, nat>, f: u16, g: u16)
    requires f in rank && g in rank && rank[g] < rank[f]
    ensures FrameRoom(p, rank, Frame(g, 0)) < Weight(rank[f])
  {
    hide Code, Weight;
    var w, n := Weight(rank[g]), LinesLeft(p, Frame(g, 0));
    CodeIsShort(p, g);
    WeightGrows(rank[g], rank[f]);
    assert n <= REACH + 1;
    if n < REACH + 1 { Times(n, REACH + 1, w); }
  }

  lemma RoomIsPositive(p: Prog, rank: map<u16, nat>, at: Frame)
    ensures FrameRoom(p, rank, at) >= 1
    ensures at.fn in rank ==> FrameRoom(p, rank, at) >= Weight(rank[at.fn])
  {
    hide Code, Weight;
    if at.fn in rank && LinesLeft(p, at) > 1 { Times(1, LinesLeft(p, at), Weight(rank[at.fn])); }
  }

  /** A step without a tick uses up room. */
  lemma QuietStep(p: Prog, rank: map<u16, nat>, c: CConf, d: CConf)
    requires StepsDown(p, rank, c) && CStep(p, c) == Next(d) && !StepTicks(p, c)
    ensures Room(p, rank, d) < Room(p, rank, c)
  {
    hide Code, After, Run, FrameRoom, Weight, LabelLine, EntersBelow;
    var lines, f := Code(p, c.at.fn), c.at.fn;
    RoomIsPositive(p, rank, c.at);
    if c.at.idx < |lines| {
      EntersLower(p, rank, f, c.at.idx, c.st);
      match After(lines[c.at.idx].stmt, c.st) {
        case Fall => LaterHasLess(p, rank, c.at, c.at.idx + 1);
        case Jump(l, _) =>
          QuietJump(p, c, l);
          LaterHasLess(p, rank, c.at, d.at.idx);
        case Enter(g) =>
          LaterHasLess(p, rank, c.at, c.at.idx + 1);
          EntryHasLess(p, rank, f, g);
          assert d.callers[1..] == c.callers;
        case Tail(g) => EntryHasLess(p, rank, f, g);
        case Indirect(g) => EntryHasLess(p, rank, f, g);
        case _ =>
      }
    }
  }

  lemma EntersLower(p: Prog, rank: map<u16, nat>, f: u16, k: nat, st: State)
    requires k < |Code(p, f)| && f in rank && p.starts <= rank.Keys && EntersBelow(p, rank, f, k, st)
    ensures match After(Code(p, f)[k].stmt, st)
            case Enter(g) => g in p.starts && rank[g] < rank[f]
            case Tail(g) => g in p.starts && rank[g] < rank[f]
            case Indirect(g) => g in p.starts ==> rank[g] < rank[f]
            case _ => true
  {
    hide Code, After;
    EntersStart(p, f, k, st);
  }

  lemma EntersStart(p: Prog, f: u16, k: nat, st: State)
    requires k < |Code(p, f)|
    ensures match After(Code(p, f)[k].stmt, st)
            case Enter(g) => g in p.starts
            case Tail(g) => g in p.starts
            case _ => true
  {
    hide EmitInsn, Emitted, After;
    assert |Code(p, f)| == |Emitted(p.img, f)|;
    StatementIs(p, Frame(f, k));
    TransferInside(Emitted(p.img, f)[k].insn, ScopeOf(p, f), st);
  }

  lemma QuietJump(p: Prog, c: CConf, l: u16)
    requires c.at.idx < |Code(p, c.at.fn)| && !StepTicks(p, c) && CStep(p, c).Next?
    requires match After(Code(p, c.at.fn)[c.at.idx].stmt, c.st) case Jump(to, _) => to == l case _ => false
    ensures CStep(p, c).c.at.fn == c.at.fn && CStep(p, c).c.callers == c.callers && CStep(p, c).c.at.idx > c.at.idx
  {
    hide Code, After, Run;
    var lines := Code(p, c.at.fn);
    var j := LabelLine(lines, l, 0);
    assert LabelAt(lines, j, l);
    assert Passes(lines, c.at.idx, After(lines[c.at.idx].stmt, c.st), j);
    LaterLine(p, c, j);
  }

  lemma LaterLine(p: Prog, c: CConf, j: nat)
    requires c.at.idx < |Code(p, c.at.fn)| && !StepTicks(p, c)
    requires var lines := Code(p, c.at.fn); Passes(lines, c.at.idx, After(lines[c.at.idx].stmt, c.st), j)
    ensures j > c.at.idx
  {
    hide After, Lines, Passes, Ticks;
    QuietMovesForward(p.img, FuncOf(p, c.at.fn), p.starts, c.at.idx, c.st, j);
  }

  /** The program goes on through the next `n` statements, and none of them ticks. */
  ghost predicate Quiet(p: Prog, c: CConf, n: nat) {
    forall k: nat :: k < n ==> QuietAt(p, c, k)
  }

  ghost predicate QuietAt(p: Prog, c: CConf, k: nat) {
    CRun(p, c, k).Next? && !StepTicks(p, CRun(p, c, k).c) && CRun(p, c, k + 1).Next?
  }

  /** Each of the next `n` statements that enters a function enters one of lower rank. */
  ghost predicate Descends(p: Prog, rank: map<u16, nat>, c: CConf, n: nat) {
    forall k: nat :: k < n ==> DescendsAt(p, rank, c, k)
  }

  ghost predicate DescendsAt(p: Prog, rank: map<u16, nat>, c: CConf, k: nat) {
    match CRun(p, c, k) case Next(d) => StepsDown(p, rank, d) case _ => true
  }

  lemma {:induction false} QuietUsesRoom(p: Prog, rank: map<u16, nat>, c: CConf, n: nat)
    requires Quiet(p, c, n) && Descends(p, rank, c, n)
    ensures CRun(p, c, n).Next? && n + Room(p, rank, CRun(p, c, n).c) <= Room(p, rank, c)
  {
    hide StepsDown, CStep, StepTicks, Room;
    if n > 0 {
      QuietUsesRoom(p, rank, c, n - 1);
      assert QuietAt(p, c, n - 1) && DescendsAt(p, rank, c, n - 1);
      QuietStep(p, rank, CRun(p, c, n - 1).c, CRun(p, c, n).c);
    }
  }

  /** However functions are ranked: within `Room` statements, through calls, returns, tail calls and
      computed jumps, the program ticks, stops, or enters a function of no lower rank. */
  lemma TicksOrClimbs(p: Prog, rank: map<u16, nat>, c: CConf)
    ensures !Quiet(p, c, Room(p, rank, c)) || !Descends(p, rank, c, Room(p, rank, c))
  {
    hide Descends, Quiet, CRun;
    if Quiet(p, c, Room(p, rank, c)) && Descends(p, rank, c, Room(p, rank, c)) {
      QuietUsesRoom(p, rank, c, Room(p, rank, c));
      RoomIsPositive(p, rank, CRun(p, c, Room(p, rank, c)).c.at);
    }
  }

  lemma RankedDescends(p: Prog, rank: map<u16, nat>, c: CConf, n: nat)
    requires Ranked(p, rank) && InStarts(p, c)
    ensures Descends(p, rank, c, n)
  {
    hide InStarts, CRun, Code, EntersBelow;
    forall k: nat | k < n
      ensures DescendsAt(p, rank, c, k)
    {
      if CRun(p, c, k).Next? {
        RunInStarts(p, c, k);
        StartsDescend(p, rank, CRun(p, c, k).c);
      }
    }
  }

  lemma StartsDescend(p: Prog, rank: map<u16, nat>, c: CConf)
    requires Ranked(p, rank) && InStarts(p, c)
    ensures StepsDown(p, rank, c)
  {
    hide Code, EntersBelow;
    if c.at.idx < |Code(p, c.at.fn)| { assert EntersBelow(p, rank, c.at.fn, c.at.idx, c.st); }
  }

  /** A program whose functions are ranked ticks, or stops, within `Room` statements, wherever it is. */
  lemma TicksInTime(p: Prog, rank: map<u16, nat>, c: CConf)
    requires Ranked(p, rank) && InStarts(p, c)
    ensures !Quiet(p, c, Room(p, rank, c))
  {
    hide Ranked, InStarts, Quiet, Descends, Room;
    RankedDescends(p, rank, c, Room(p, rank, c));
    TicksOrClimbs(p, rank, c);
  }

  /** From the start of a function: at most 4097 statements for a function that enters no other, and
      4097 times as much, and 4097 more, for every further rank. */
  lemma RoomAtStart(p: Prog, rank: map<u16, nat>, c: CConf)
    requires c.at.fn in rank && c.at.idx == 0 && c.callers == []
    ensures Room(p, rank, c) <= (REACH + 1) * Weight(rank[c.at.fn])
  {
    hide Code, Weight;
    CodeIsShort(p, c.at.fn);
    var n, w := LinesLeft(p, c.at), Weight(rank[c.at.fn]);
    if n < REACH + 1 { Times(n, REACH + 1, w); }
  }

  // ---- a cycle of tail calls ----

  const PING: u16 := 0x0300
  const PONG: u16 := 0x0304

  /** Two functions, a byte apart, that jump to each other. */
  const PING_PONG: seq<u8> := [0x4C, 0x04, 0x03, 0xEA, 0x4C, 0x00, 0x03]

  function PingImage(): Image { Load(PING, PING_PONG) }

  function Other(f: u16): u16 { if f == PING then PONG else PING }

  lemma JumpRow(lo: u8, pc: u16)
    ensures var r := DecodeAt(0x4C, lo, 0x03, pc);
            r.mn.JMP? && r.mode == ABS && r.target == 0x300 + lo && r.len == 3 && r.flow.Jump? && r.pc == pc
  {
  }

  lemma PingInsn(f: u16)
    requires f == PING || f == PONG
    ensures var img := PingImage();
            && InImage(img, f) && Avail(img, f) >= 3
            && InsnAt(img, f) == DecodeAt(0x4C, Other(f) - 0x300, 0x03, f)
  {
    hide DecodeAt, WellFormed;
  }

  /** Each is a body of one jump to the other. */
  lemma PingBody(f: u16) returns (v: Visit)
    requires f == PING || f == PONG
    ensures Body(PingImage(), f) == [v] && Emitted(PingImage(), f) == [v]
    ensures v.insn.mn.JMP? && v.insn.mode == ABS && v.insn.flow.Jump? && v.insn.target == Other(f)
    ensures v.insn.pc == f && v.end == f + 3 && WellFormed(v.insn)
  {
    hide SweepFrom, PingImage, DecodeAt, InImage, InsnAt;
    JumpRow(Other(f) - 0x300, f);
    PingInsn(f);
    var r := InsnAt(PingImage(), f);
    LoneJump(PingImage(), f, r);
    v := Visit(r, Following(r));
    UnwrappedCons(v, []);
    assert v in Emitted(PingImage(), f);
    EmittedIsGenuine(PingImage(), f, v);
  }

  /** Discovery finds both from the first. */
  lemma PingsAreFound()
    ensures Analyze.Common(PingImage(), [PING]) == {PING, PONG}
  {
    hide Body, PingImage, InImage;
    var v := PingBody(PING);
    var w := PingBody(PONG);
    PingInsn(PING);
    PingInsn(PONG);
    var s, least := {PING, PONG}, Analyze.Common(PingImage(), [PING]);
    assert EdgesOf(PingImage(), v) == [PONG] && EdgesOf(PingImage(), w) == [];
    assert Analyze.EdgesIn(PingImage(), PING, s) && Analyze.EdgesIn(PingImage(), PONG, s);
    assert Analyze.Closed(PingImage(), [PING], s);
    Analyze.LeastExists(PingImage(), [PING]);
    assert Analyze.EdgesIn(PingImage(), PING, least);
    assert v in Body(PingImage(), PING) && PONG in EdgesOf(PingImage(), v);
  }

  lemma PingStep(p: Prog, st: State, f: u16)
    requires p == Prog(PingImage(), {PING, PONG}) && (f == PING || f == PONG)
    ensures var c := CConf(st, Frame(f, 0), []);
            CStep(p, c) == Next(CConf(st, Frame(Other(f), 0), [])) && !StepTicks(p, c)
  {
    hide Emitted, PingImage, Code, CStep, EmitInsn;
    var c := CConf(st, Frame(f, 0), []);
    var v := PingBody(f);
    StepsBy(p, c, v.insn, EmitInsn(v.insn, ScopeOf(p, f)));
    TailJump(v.insn, ScopeOf(p, f));
  }

  lemma TailJump(r: Insn, sc: Scope)
    requires r.mn.JMP? && r.mode == ABS && r.target !in sc.boundaries && r.target in sc.starts
    ensures EmitInsn(r, sc) == Leave(TailCall(r.target))
  {
  }

  /** The emitted program of these two functions runs for ever, from any state, and never ticks. */
  lemma {:induction false} CycleNeverTicks(p: Prog, st: State, n: nat)
    requires p == Prog(PingImage(), {PING, PONG})
    ensures CRun(p, CConf(st, Frame(PING, 0), []), n)
            == Next(CConf(st, Frame(if n % 2 == 0 then PING else PONG, 0), []))
    ensures Quiet(p, CConf(st, Frame(PING, 0), []), n)
  {
    hide CStep, StepTicks, PingImage;
    var c := CConf(st, Frame(PING, 0), []);
    if n > 0 {
      CycleNeverTicks(p, st, n - 1);
      PingStep(p, st, if (n - 1) % 2 == 0 then PING else PONG);
      assert QuietAt(p, c, n - 1);
    }
  }
}
