/** Recompiled code against the interpreter, over whole runs: nested C calls and returns do
    what JSR and RTS do, and the C program's stack is the interpreter's without the return
    addresses. */
module Simulation {
  import opened Bytes
  import opened Cpu
  import opened Decode
  import opened Sweep
  import opened Target
  import opened Emit
  import opened Translate
  import opened StackFrame
  import Analyze
  import Interp
  import R = Runtime

  // ---- running the emitted program ----

  /** A code image with the starts of its discovered functions. */
  datatype Prog = Prog(img: Image, starts: set<u16>)

  function FuncOf(p: Prog, f: u16): Func { Analyze.Sorted(FuncAt(p.img, f)) }

  function Code(p: Prog, f: u16): seq<Line> { Lines(p.img, FuncOf(p, f), p.starts) }

  /** A position in a body, to return to. */
  datatype Frame = Frame(fn: u16, idx: nat)

  /** The C program: machine state, position, and the callers' positions. */
  datatype CConf = CConf(st: State, at: Frame, callers: seq<Frame>)

  /** Why recompiled code stops running on its own. */
  datatype Why = Finished | Escape(to: u16) | Other

  datatype Outcome = Next(c: CConf) | Halted(st: State, why: Why)

  /** The line that carries the label `l`, from line `k` on; the line count if there is none. */
  function LabelLine(lines: seq<Line>, l: u16, k: nat): (j: nat)
    requires k <= |lines|
    ensures k <= j <= |lines|
    ensures j < |lines| ==> LabelAt(lines, j, l)
    ensures j == |lines| ==> forall i :: k <= i < |lines| ==> !LabelAt(lines, i, l)
    decreases |lines| - k
  {
    if k == |lines| || LabelAt(lines, k, l) then k else LabelLine(lines, l, k + 1)
  }

  /** Hands control on from position `at`, in state `st`. A call in tail position replaces
      the caller's frame. */
  function Resume(p: Prog, at: Frame, callers: seq<Frame>, st: State, ctl: Ctl): Outcome {
    match ctl
    case Fall => Next(CConf(st, Frame(at.fn, at.idx + 1), callers))
    case Jump(l, _) =>
      var j := LabelLine(Code(p, at.fn), l, 0);
      if j < |Code(p, at.fn)| then Next(CConf(st, Frame(at.fn, j), callers)) else Halted(st, Other)
    case Enter(f) => Next(CConf(st, Frame(f, 0), [Frame(at.fn, at.idx + 1)] + callers))
    case Tail(f) => Next(CConf(st, Frame(f, 0), callers))
    case Indirect(to) =>
      if to in p.starts then Next(CConf(st, Frame(to, 0), callers)) else Halted(st, Escape(to))
    case Ext(to) => Halted(st, Escape(to))
    case Boot(to) => Halted(st, Escape(to))
    case Back | BackFromIrq =>
      if callers == [] then Halted(st, Finished) else Next(CConf(st, callers[0], callers[1..]))
    case Trap => Halted(st, Other)
  }

  /** Runs one emitted statement; past the last one, the C function returns. */
  function CStep(p: Prog, c: CConf): Outcome {
    var lines := Code(p, c.at.fn);
    if c.at.idx >= |lines| then Resume(p, c.at, c.callers, c.st, Back)
    else
      var s := lines[c.at.idx].stmt;
      Resume(p, c.at, c.callers, Run(s, c.st), After(s, c.st))
  }

  // ---- the interpreter's stack, as a history of pushes ----

  /** One entry of the interpreter's stack: a pushed byte, a return address, or what an interrupt
      pushed: the program counter, and the status above it. */
  datatype Item = Datum(b: u8) | ReturnTo(a: u16) | IrqFrame(pc: u16, status: u8)

  function ItemBytes(item: Item): seq<u8> {
    match item
    case Datum(b) => [b]
    case ReturnTo(a) => [a % 0x100, a / 0x100]
    case IrqFrame(pc, status) => [status, pc % 0x100, pc / 0x100]
  }

  /** What the C program has of it: no return address, and zeros for an interrupt's. */
  function ErasedBytes(item: Item): seq<u8> {
    match item
    case Datum(b) => [b]
    case ReturnTo(_) => []
    case IrqFrame(_, status) => [status, 0, 0]
  }

  /** The address a C caller corresponds to, as RTS would find it. */
  function ItemReturns(item: Item): seq<u16> {
    match item
    case Datum(_) => []
    case ReturnTo(a) => [a]
    case IrqFrame(pc, _) => [Word(pc - 1)]
  }

  /** The bytes on the interpreter's stack, top first. */
  function BytesOf(items: seq<Item>): seq<u8> {
    if items == [] then [] else ItemBytes(items[0]) + BytesOf(items[1..])
  }

  /** The bytes on the C program's stack. */
  function Erased(items: seq<Item>): seq<u8> {
    if items == [] then [] else ErasedBytes(items[0]) + Erased(items[1..])
  }

  function Returns(items: seq<Item>): seq<u16> {
    if items == [] then [] else ItemReturns(items[0]) + Returns(items[1..])
  }

  /** `bytes` lie above the stack pointer, up to `base`. */
  predicate StackIs(st: State, bytes: seq<u8>, base: u8) {
    st.s + |bytes| == base && forall k :: 0 <= k < |bytes| ==> st.mem[0x100 + st.s + 1 + k] == bytes[k]
  }

  function PushedByte(op: StackOp, st: State): u8 {
    match op
    case PHA => st.a
    case PHX => st.x
    case PHY => st.y
    case _ => Interp.PackP(st)
  }

  function StackAfter(op: StackOp, st: State, items: seq<Item>): seq<Item> {
    if Pushes(op) then [Datum(PushedByte(op, st))] + items
    else if items == [] then items
    else items[1..]
  }

  /** The stack after an instruction. */
  function ItemsAfter(r: Insn, st: State, items: seq<Item>): seq<Item> {
    match r.mn
    case Stack(op) => StackAfter(op, st, items)
    case JSR => [ReturnTo(Word(r.pc + 2))] + items
    case RTS | RTI => if items == [] then items else items[1..]
    case _ => items
  }

  // ---- code ----

  /** Memory holds the image's `n`-th byte from `pc` on. */
  predicate HoldsByte(img: Image, m: Mem, pc: u16, n: nat) {
    InImage(img, pc) && pc + n < 0x1_0000 && n < Avail(img, pc) && m[pc + n] == img.rom[pc - img.base + n]
  }

  predicate HoldsInsn(img: Image, m: Mem, r: Insn) {
    forall n: nat :: n < r.len ==> HoldsByte(img, m, r.pc, n)
  }

  /** The bytes of every discovered instruction are still those of the image. */
  ghost predicate CodeIntact(p: Prog, m: Mem) {
    forall f, v :: f in p.starts && v in Emitted(p.img, f) ==> HoldsInsn(p.img, m, v.insn)
  }

  predicate DecodedAt(img: Image, a: u16) {
    InImage(img, a) ==> InsnAt(img, a) == DecodeRom(img.base, img.rom, a - img.base)
  }

  /** The image lists what the decoder makes of its bytes. */
  ghost predicate Loaded(p: Prog) { forall a: u16 :: DecodedAt(p.img, a) }

  lemma LoadIsLoaded(base: u16, rom: seq<u8>, starts: set<u16>)
    ensures Loaded(Prog(Load(base, rom), starts))
  {
    hide DecodeRom;
    forall a: u16
      ensures DecodedAt(Load(base, rom), a)
    {
    }
  }

  /** The address of a position: of its statement, or the end of the body. */
  function AddrOf(p: Prog, at: Frame): u16 {
    var vs := Emitted(p.img, at.fn);
    if at.idx <= |vs| then PcAt(at.fn, vs, at.idx) else 0
  }

  predicate Position(p: Prog, at: Frame) { at.fn in p.starts && at.idx <= |Emitted(p.img, at.fn)| }

  /** Where RTS resumes for a pushed return address. */
  function ReturnPc(a: u16): u16 { Word(a + 1) }

  /** The C program's frames are the return addresses, each just before its position. */
  predicate FramesMatch(p: Prog, callers: seq<Frame>, rets: seq<u16>) {
    && |callers| == |rets|
    && forall k :: 0 <= k < |rets| ==> Position(p, callers[k]) && AddrOf(p, callers[k]) == ReturnPc(rets[k])
  }

  /** Equal registers, flags and memory outside the stack page; the C program's stack is the
      interpreter's with the return addresses erased. */
  predicate StatesMatch(s: State, t: State, items: seq<Item>, base: u8) {
    && t == With(s, t.s, t.mem) && OffPage(s.mem, t.mem)
    && StackIs(s, BytesOf(items), base) && StackIs(t, Erased(items), base)
  }

  /** Interpreter and C program at the same point of the same run. */
  ghost predicate Related(p: Prog, i: Interp.Config, c: CConf, items: seq<Item>, base: u8) {
    && StatesMatch(i.st, c.st, items, base)
    && Position(p, c.at) && AddrOf(p, c.at) == i.pc
    && FramesMatch(p, c.callers, Returns(items))
    && CodeIntact(p, i.st.mem)
  }

  /** The run is well behaved at its next instruction `r`: pulls and returns find what was
      pushed for them, the stack does not wrap, and neither the stack page nor code is written
      or read as data. */
  ghost predicate CleanAt(p: Prog, r: Insn, st: State, items: seq<Item>) {
    && AvoidsStack(r, st)
    && CodeIntact(p, Interp.Effect(r, st).mem)
    && match r.mn
       case Stack(op) => if Pushes(op) then st.s >= 1 else items != [] && items[0].Datum?
       case JSR => st.s >= 2
       case RTS =>
         items != [] && items[0].ReturnTo?
       case RTI =>
         items != [] && items[0].IrqFrame?
       case _ => Plain(r)
  }

  predicate Pushes(op: StackOp) { op.PHA? || op.PHX? || op.PHY? || op.PHP? }

  ghost predicate Clean(p: Prog, i: Interp.Config, items: seq<Item>) {
    CleanAt(p, Interp.Fetch(i), i.st, items)
  }

  // ---- one step ----

  /** Bytes that agree with the image on an instruction's length decode to it. */
  lemma DecodesTo(p: Prog, pc: u16, c0: u8, c1: u8, c2: u8)
    requires Loaded(p) && InImage(p.img, pc)
    requires var off, n := pc - p.img.base, InsnAt(p.img, pc).len;
             && c0 == p.img.rom[off] && off + n <= |p.img.rom|
             && (n >= 2 ==> c1 == p.img.rom[off + 1]) && (n >= 3 ==> c2 == p.img.rom[off + 2])
    ensures DecodeAt(c0, c1, c2, pc) == InsnAt(p.img, pc)
  {
    var rom, off := p.img.rom, pc - p.img.base;
    assert DecodedAt(p.img, pc);
    var b1: u8 := if off + 1 < |rom| then rom[off + 1] else 0;
    var b2: u8 := if off + 2 < |rom| then rom[off + 2] else 0;
    DecodeReadsOnlyItsLength(rom[off], b1, b2, c1, c2, pc);
  }

  /** Fetching from memory that holds the bytes of a listed instruction. */
  lemma FetchAgrees(p: Prog, i: Interp.Config)
    requires Loaded(p) && InImage(p.img, i.pc) && HoldsInsn(p.img, i.st.mem, InsnAt(p.img, i.pc))
    ensures Interp.Fetch(i) == InsnAt(p.img, i.pc)
  {
    var img, m, r := p.img, i.st.mem, InsnAt(p.img, i.pc);
    assert HoldsByte(img, m, i.pc, 0);
    assert r.len >= 2 ==> HoldsByte(img, m, i.pc, 1);
    assert r.len >= 3 ==> HoldsByte(img, m, i.pc, 2);
    DecodesTo(p, i.pc, m[i.pc], m[Word(i.pc + 1)], m[Word(i.pc + 2)]);
  }

  lemma ListedAt(p: Prog, m: Mem, f: u16, k: nat)
    requires f in p.starts && CodeIntact(p, m) && k < |Emitted(p.img, f)|
    ensures var r := Emitted(p.img, f)[k].insn;
            InImage(p.img, r.pc) && InsnAt(p.img, r.pc) == r && HoldsInsn(p.img, m, r)
  {
    assert Emitted(p.img, f)[k] in Emitted(p.img, f);
    NextPcAt(p.img, f, k);
  }

  /** The interpreter fetches the very instruction the statement was made from. */
  lemma FetchIsListed(p: Prog, i: Interp.Config, f: u16, k: nat)
    requires Loaded(p) && f in p.starts && CodeIntact(p, i.st.mem)
    requires k < |Emitted(p.img, f)| && i.pc == Emitted(p.img, f)[k].insn.pc
    ensures Interp.Fetch(i) == Emitted(p.img, f)[k].insn
  {
    ListedAt(p, i.st.mem, f, k);
    FetchAgrees(p, i);
  }

  // -- control --

  function ScopeOf(p: Prog, f: u16): Scope { Scope(Boundaries(Emitted(p.img, f)), p.starts) }

  /** Calls only enter discovered functions. */
  lemma EntersStarts(r: Insn, sc: Scope, st: State)
    ensures match After(EmitInsn(r, sc), st)
            case Enter(f) => f in sc.starts && r.mn.JSR? && f == r.target
            case Tail(f) => f in sc.starts
            case Boot(_) => r.mn.JSR?
            case _ => true
  {
  }

  lemma StartAddr(p: Prog, f: u16)
    requires f in p.starts
    ensures Position(p, Frame(f, 0)) && AddrOf(p, Frame(f, 0)) == f
  {
    BodyIsConsecutive(p.img, f);
  }

  /** The line with label `l` is at address `l`. */
  lemma LabelLands(p: Prog, f: u16, j: nat, l: u16)
    requires f in p.starts && j < |Code(p, f)| && LabelAt(Code(p, f), j, l)
    ensures Position(p, Frame(f, j)) && AddrOf(p, Frame(f, j)) == l
  {
  }

  lemma ResumeLands(p: Prog, at: Frame, callers: seq<Frame>, st: State, ctl: Ctl)
    requires Position(p, at) && at.idx < |Emitted(p.img, at.fn)|
    requires Resume(p, at, callers, st, ctl).Next?
    requires Staying(ctl, p.starts)
    ensures var c' := Resume(p, at, callers, st, ctl).c;
            && c'.st == st && c'.callers == callers && Position(p, c'.at)
            && AddrOf(p, c'.at) == Destination(ctl, AddrOf(p, Frame(at.fn, at.idx + 1)))
  {
    match ctl
    case Jump(l, _) => LabelLands(p, at.fn, LabelLine(Code(p, at.fn), l, 0), l);
    case Tail(g) => StartAddr(p, g);
    case Indirect(g) => StartAddr(p, g);
    case _ =>
  }

  lemma FollowingAddr(p: Prog, at: Frame)
    requires Position(p, at) && at.idx < |Emitted(p.img, at.fn)|
    ensures var r := Emitted(p.img, at.fn)[at.idx].insn;
            AddrOf(p, Frame(at.fn, at.idx + 1)) == Word(r.pc + r.len) == r.pc + r.len
  {
    NextPcAt(p.img, at.fn, at.idx);
  }

  /** Control that stays inside C: no return, and a tail call only to a function. */
  predicate Staying(ctl: Ctl, starts: set<u16>) {
    match ctl
    case Enter(_) | Back | BackFromIrq | Trap => false
    case Tail(f) => f in starts
    case _ => true
  }

  /** Everything the statement of a local instruction does. */
  lemma LocalLine(r: Insn, sc: Scope, st: State)
    requires WellFormed(r) && Local(r)
    ensures var s := EmitInsn(r, sc);
            && Run(s, st) == Interp.Effect(r, st)
            && Destination(After(s, st), Word(r.pc + r.len)) == Interp.NextPc(r, st)
            && Staying(After(s, st), sc.starts)
  {
    StateAgrees(r, sc, st);
    ControlAgrees(r, sc, st);
    EntersStarts(r, sc, st);
    LocalStays(r, sc, st);
  }

  lemma LocalStays(r: Insn, sc: Scope, st: State)
    requires Local(r)
    ensures match After(EmitInsn(r, sc), st) case Enter(_) | Back | BackFromIrq | Trap => false case _ => true
  {
  }

  /** A step that stays in C lands at the interpreter's next program counter. */
  lemma ControlLands(p: Prog, c: CConf, s: Stmt, next: u16)
    requires Position(p, c.at) && c.at.idx < |Emitted(p.img, c.at.fn)|
    requires s == Code(p, c.at.fn)[c.at.idx].stmt && Staying(After(s, c.st), p.starts)
    requires Destination(After(s, c.st), AddrOf(p, Frame(c.at.fn, c.at.idx + 1))) == next
    requires CStep(p, c).Next?
    ensures var c' := CStep(p, c).c;
            && c'.st == Run(s, c.st) && c'.callers == c.callers
            && Position(p, c'.at) && AddrOf(p, c'.at) == next
  {
    ResumeLands(p, c.at, c.callers, Run(s, c.st), After(s, c.st));
  }

  // -- stacks --

  lemma {:induction false} ErasedIsShorter(items: seq<Item>)
    ensures |Erased(items)| <= |BytesOf(items)|
  {
    if items != [] {
      ErasedIsShorter(items[1..]);
    }
  }

  lemma PushKeepsStack(st: State, b: u8, bytes: seq<u8>, base: u8)
    requires StackIs(st, bytes, base) && st.s >= 1
    ensures var t := Interp.Push(st, b);
            StackIs(t, [b] + bytes, base) && OffPage(st.mem, t.mem) && t == With(st, t.s, t.mem)
  {
  }

  lemma PullFindsTop(st: State, b: u8, bytes: seq<u8>, base: u8)
    requires StackIs(st, [b] + bytes, base)
    ensures Interp.Top(st) == b && StackIs(Interp.Dropped(st), bytes, base)
  {
    assert ([b] + bytes)[0] == b;
    assert forall k :: 0 <= k < |bytes| ==> bytes[k] == ([b] + bytes)[k + 1];
  }

  lemma StackKept(st: State, t: State, bytes: seq<u8>, base: u8)
    requires StackIs(st, bytes, base) && t.s == st.s && OnPage(st.mem, t.mem)
    ensures StackIs(t, bytes, base)
  {
  }

  // -- instructions by kind --

  lemma PushOpIsPush(op: StackOp, s: State)
    requires Pushes(op)
    ensures Interp.DoStack(op, s) == Interp.Push(s, PushedByte(op, s))
  {
    if op.PHP? {
      PackHasBit4(s);
    }
  }

  lemma PushBoth(b: u8, s: State, k: u8, m: Mem, items: seq<Item>, base: u8)
    requires s.s >= 1 && OffPage(s.mem, m)
    requires StackIs(s, BytesOf(items), base) && StackIs(With(s, k, m), Erased(items), base)
    ensures var s', t' := Interp.Push(s, b), Interp.Push(With(s, k, m), b);
            && t' == With(s', t'.s, t'.mem) && OffPage(s'.mem, t'.mem)
            && StackIs(s', [b] + BytesOf(items), base) && StackIs(t', [b] + Erased(items), base)
  {
    ErasedIsShorter(items);
    PushKeepsStack(s, b, BytesOf(items), base);
    PushKeepsStack(With(s, k, m), b, Erased(items), base);
  }

  lemma PushesAlike(op: StackOp, s: State, k: u8, m: Mem)
    ensures PushedByte(op, With(s, k, m)) == PushedByte(op, s)
  {
  }

  /** A pushed byte appears on both stacks. */
  lemma PushOps(op: StackOp, s: State, k: u8, m: Mem, items: seq<Item>, base: u8)
    requires Pushes(op) && s.s >= 1 && OffPage(s.mem, m)
    requires StackIs(s, BytesOf(items), base) && StackIs(With(s, k, m), Erased(items), base)
    ensures var s', t' := Interp.DoStack(op, s), Interp.DoStack(op, With(s, k, m));
            var items' := StackAfter(op, s, items);
            && t' == With(s', t'.s, t'.mem) && OffPage(s'.mem, t'.mem)
            && StackIs(s', BytesOf(items'), base) && StackIs(t', Erased(items'), base)
            && Returns(items') == Returns(items)
  {
    hide Interp.DoStack, Interp.Push, Interp.PackP, OffPage, StackIs, Erased, BytesOf, Returns, Bytes.Or, PushedByte;
    var b := PushedByte(op, s);
    PushesAlike(op, s, k, m);
    PushOpIsPush(op, s);
    PushOpIsPush(op, With(s, k, m));
    PushBoth(b, s, k, m, items, base);
    DatumOnTop(b, items);
  }

  lemma DatumOnTop(b: u8, items: seq<Item>)
    ensures BytesOf([Datum(b)] + items) == [b] + BytesOf(items)
    ensures Erased([Datum(b)] + items) == [b] + Erased(items)
    ensures Returns([Datum(b)] + items) == Returns(items)
  {
    assert ([Datum(b)] + items)[1..] == items;
  }

  /** A pulled byte is the same on both stacks. */
  lemma PullOps(op: StackOp, s: State, k: u8, m: Mem, items: seq<Item>, base: u8)
    requires !Pushes(op) && items != [] && items[0].Datum? && OffPage(s.mem, m)
    requires StackIs(s, BytesOf(items), base) && StackIs(With(s, k, m), Erased(items), base)
    ensures var s', t' := Interp.DoStack(op, s), Interp.DoStack(op, With(s, k, m));
            && t' == With(s', t'.s, t'.mem) && OffPage(s'.mem, t'.mem)
            && StackIs(s', BytesOf(items[1..]), base) && StackIs(t', Erased(items[1..]), base)
            && Returns(items[1..]) == Returns(items)
  {
    hide StackIs, Interp.Top, Interp.Dropped, Interp.DoStack;
    var t, rest := With(s, k, m), items[1..];
    PullFindsTop(s, items[0].b, BytesOf(rest), base);
    PullFindsTop(t, items[0].b, Erased(rest), base);
    PullsAlike(op, s, k, m);
    StackSame(Interp.Dropped(s), Interp.DoStack(op, s), BytesOf(rest), base);
    StackSame(Interp.Dropped(t), Interp.DoStack(op, t), Erased(rest), base);
  }

  /** A pull moves S and changes a register or the flags, as the byte on top says. */
  lemma PullsAlike(op: StackOp, s: State, k: u8, m: Mem)
    requires !Pushes(op) && Interp.Top(s) == Interp.Top(With(s, k, m))
    ensures var t := With(s, k, m);
            && Interp.DoStack(op, s).s == Interp.Dropped(s).s && Interp.DoStack(op, s).mem == s.mem
            && Interp.DoStack(op, t) == With(Interp.DoStack(op, s), Interp.Dropped(t).s, m)
            && Interp.Dropped(s).mem == s.mem && Interp.Dropped(t).mem == m
  {
    hide Interp.Top, Interp.SetNz, Interp.UnpackP, Interp.Push, Byte;
    var d, v, k' := Interp.Dropped(s), Interp.Top(s), Interp.Dropped(With(s, k, m)).s;
    assert Interp.Dropped(With(s, k, m)) == With(d, k', m);
    match op {
      case PLA => FlagsAlike(d.(a := v), v, k', m);
      case PLX => FlagsAlike(d.(x := v), v, k', m);
      case PLY => FlagsAlike(d.(y := v), v, k', m);
      case _ => FlagsAlike(d, v, k', m);
    }
  }

  lemma FlagsAlike(st: State, v: u8, k: u8, m: Mem)
    ensures Interp.SetNz(With(st, k, m), v) == With(Interp.SetNz(st, v), k, m)
    ensures Interp.UnpackP(With(st, k, m), v) == With(Interp.UnpackP(st, v), k, m)
    ensures Interp.SetNz(st, v).s == Interp.UnpackP(st, v).s == st.s
    ensures Interp.SetNz(st, v).mem == Interp.UnpackP(st, v).mem == st.mem
  {
  }

  lemma StackSame(st: State, t: State, bytes: seq<u8>, base: u8)
    requires StackIs(st, bytes, base) && t.s == st.s && t.mem == st.mem
    ensures StackIs(t, bytes, base)
  {
  }

  /** Plain instructions and pushes and pulls of data keep the machines related. */
  lemma LocalStates(p: Prog, r: Insn, s: State, t: State, items: seq<Item>, base: u8)
    requires WellFormed(r) && StatesMatch(s, t, items, base) && CleanAt(p, r, s, items)
    requires !r.mn.JSR? && !r.mn.RTS? && !r.mn.RTI?
    ensures var items' := ItemsAfter(r, s, items);
            && StatesMatch(Interp.Effect(r, s), Interp.Effect(r, t), items', base)
            && Returns(items') == Returns(items)
  {
    if r.mn.Stack? {
      if Pushes(r.mn.stack) {
        PushOps(r.mn.stack, s, t.s, t.mem, items, base);
      } else {
        PullOps(r.mn.stack, s, t.s, t.mem, items, base);
      }
    } else {
      var s', t' := Interp.Effect(r, s), Interp.Effect(r, t);
      PlainEffect(r, s, t.s, t.mem);
      StackKept(s, s', BytesOf(items), base);
      StackKept(t, t', Erased(items), base);
    }
  }

  lemma ReturnOnTop(a: u16, items: seq<Item>)
    ensures BytesOf([ReturnTo(a)] + items) == [a % 0x100, a / 0x100] + BytesOf(items)
    ensures Erased([ReturnTo(a)] + items) == Erased(items)
    ensures Returns([ReturnTo(a)] + items) == [a] + Returns(items)
  {
    assert ([ReturnTo(a)] + items)[1..] == items;
  }

  /** JSR pushes two bytes that the C program does not have. */
  lemma CallStates(s: State, t: State, a: u16, items: seq<Item>, base: u8)
    requires StatesMatch(s, t, items, base) && s.s >= 2
    ensures StatesMatch(Interp.PushWord(s, a), t, [ReturnTo(a)] + items, base)
  {
    var bytes := BytesOf(items);
    PushKeepsStack(s, a / 0x100, bytes, base);
    var u := Interp.Push(s, a / 0x100);
    PushKeepsStack(u, a % 0x100, [a / 0x100] + bytes, base);
    ReturnOnTop(a, items);
    assert [a % 0x100] + ([a / 0x100] + bytes) == [a % 0x100, a / 0x100] + bytes;
  }

  /** RTS drops them and finds the address its JSR pushed. */
  lemma ReturnStates(s: State, t: State, items: seq<Item>, base: u8)
    requires StatesMatch(s, t, items, base) && items != [] && items[0].ReturnTo?
    ensures StatesMatch(Interp.Dropped(Interp.Dropped(s)), t, items[1..], base)
    ensures Interp.TopWord(s) == items[0].a
  {
    var a, rest := items[0].a, items[1..];
    assert items == [ReturnTo(a)] + rest;
    ReturnOnTop(a, rest);
    var bytes := BytesOf(rest);
    assert [a % 0x100, a / 0x100] + bytes == [a % 0x100] + ([a / 0x100] + bytes);
    PullFindsTop(s, a % 0x100, [a / 0x100] + bytes, base);
    PullFindsTop(Interp.Dropped(s), a / 0x100, bytes, base);
  }

  lemma FrameOnTop(pc: u16, status: u8, items: seq<Item>)
    ensures BytesOf([IrqFrame(pc, status)] + items) == [status] + ([pc % 0x100] + ([pc / 0x100] + BytesOf(items)))
    ensures Erased([IrqFrame(pc, status)] + items) == [status] + ([0] + ([0] + Erased(items)))
    ensures Returns([IrqFrame(pc, status)] + items) == [Word(pc - 1)] + Returns(items)
  {
    hide BytesOf, Erased, Returns;
    ItemOnTop(IrqFrame(pc, status), items);
    assert [status, pc % 0x100, pc / 0x100] == [status] + ([pc % 0x100] + [pc / 0x100]);
    assert [status, 0, 0] == [status] + ([0] + [0]);
  }

  lemma ItemOnTop(item: Item, items: seq<Item>)
    ensures BytesOf([item] + items) == ItemBytes(item) + BytesOf(items)
    ensures Erased([item] + items) == ErasedBytes(item) + Erased(items)
    ensures Returns([item] + items) == ItemReturns(item) + Returns(items)
  {
    hide ItemBytes, ErasedBytes, ItemReturns;
    assert ([item] + items)[1..] == items;
  }

  /** Three pulls, the first into the flags. */
  lemma FrameIsPulled(st: State, status: u8, lo: u8, hi: u8, bytes: seq<u8>, base: u8)
    requires StackIs(st, [status] + ([lo] + ([hi] + bytes)), base)
    ensures var t := Interp.FromIrq(st);
            && StackIs(t, bytes, base) && t == With(Interp.UnpackP(st, status), t.s, st.mem)
    ensures Interp.TopWord(Interp.Dropped(st)) == LoHi(lo, hi)
  {
    hide StackIs, Interp.UnpackP, Interp.Top, Interp.Dropped, Interp.FromIrq;
    var d := Interp.Dropped(st);
    PullFindsTop(st, status, [lo] + ([hi] + bytes), base);
    PullFindsTop(d, lo, [hi] + bytes, base);
    PullFindsTop(Interp.Dropped(d), hi, bytes, base);
    FromIrqIs(st);
    StackSame(Interp.Dropped(Interp.Dropped(d)), Interp.FromIrq(st), bytes, base);
  }

  lemma FromIrqIs(st: State)
    ensures var d := Interp.Dropped(Interp.Dropped(Interp.Dropped(st)));
            d.mem == st.mem && Interp.FromIrq(st) == With(Interp.UnpackP(st, Interp.Top(st)), d.s, st.mem)
  {
  }

  /** RTI restores the same flags on both machines, and the interpreter's program counter. */
  lemma RtiStates(s: State, t: State, items: seq<Item>, base: u8)
    requires StatesMatch(s, t, items, base) && items != [] && items[0].IrqFrame?
    ensures StatesMatch(Interp.FromIrq(s), R.Rti(t), items[1..], base)
    ensures Interp.TopWord(Interp.Dropped(s)) == items[0].pc
  {
    hide StackIs, Interp.UnpackP, Interp.FromIrq, Interp.TopWord;
    var pc, status, rest := items[0].pc, items[0].status, items[1..];
    assert items == [IrqFrame(pc, status)] + rest;
    FrameOnTop(pc, status, rest);
    FrameIsPulled(s, status, pc % 0x100, pc / 0x100, BytesOf(rest), base);
    FrameIsPulled(t, status, 0, 0, Erased(rest), base);
    FlagsAlike(s, status, t.s, t.mem);
    RtiAgrees(t);
  }

  // -- a step of the program --

  /** The configuration after `r`. */
  function Done(i: Interp.Config, r: Insn): Interp.Config {
    Interp.Config(Interp.Effect(r, i.st), Interp.NextPc(r, i.st))
  }

  lemma StatementIs(p: Prog, at: Frame)
    requires at.idx < |Emitted(p.img, at.fn)|
    ensures at.idx < |Code(p, at.fn)|
    ensures Code(p, at.fn)[at.idx].stmt == EmitInsn(Emitted(p.img, at.fn)[at.idx].insn, ScopeOf(p, at.fn))
  {
  }

  /** `c` is at the statement of `r`. */
  ghost predicate AtStatement(p: Prog, c: CConf, r: Insn) {
    && Position(p, c.at) && c.at.idx < |Emitted(p.img, c.at.fn)|
    && r == Emitted(p.img, c.at.fn)[c.at.idx].insn && WellFormed(r)
  }

  function NextFrame(c: CConf): Frame { Frame(c.at.fn, c.at.idx + 1) }

  lemma StepsBy(p: Prog, c: CConf, r: Insn, s: Stmt)
    requires AtStatement(p, c, r) && s == EmitInsn(r, ScopeOf(p, c.at.fn))
    ensures c.at.idx < |Code(p, c.at.fn)| && s == Code(p, c.at.fn)[c.at.idx].stmt
    ensures CStep(p, c) == Resume(p, c.at, c.callers, Run(s, c.st), After(s, c.st))
  {
    StatementIs(p, c.at);
  }

  /** The statement at `c`, and everything it does. */
  lemma LocalStatement(p: Prog, c: CConf, r: Insn) returns (s: Stmt)
    requires AtStatement(p, c, r) && Local(r)
    ensures c.at.idx < |Code(p, c.at.fn)| && s == Code(p, c.at.fn)[c.at.idx].stmt
    ensures Run(s, c.st) == Interp.Effect(r, c.st) && Staying(After(s, c.st), p.starts)
    ensures Destination(After(s, c.st), Word(r.pc + r.len)) == Interp.NextPc(r, c.st)
  {
    s := EmitInsn(r, ScopeOf(p, c.at.fn));
    LocalLine(r, ScopeOf(p, c.at.fn), c.st);
    StatementIs(p, c.at);
  }

  lemma LocalC(p: Prog, c: CConf, r: Insn, c': CConf)
    requires AtStatement(p, c, r) && Local(r) && CStep(p, c) == Next(c')
    ensures c'.st == Interp.Effect(r, c.st) && c'.callers == c.callers
    ensures Position(p, c'.at) && AddrOf(p, c'.at) == Interp.NextPc(r, c.st)
  {
    hide CStep, Run, After, EmitInsn, Emitted, Interp.Effect, Interp.NextPc, Code, Staying, Destination;
    var s := LocalStatement(p, c, r);
    FollowingAddr(p, c.at);
    ControlLands(p, c, s, Interp.NextPc(r, c.st));
  }

  lemma CallTransfers(r: Insn, sc: Scope, st: State)
    requires r.mn.JSR?
    ensures Run(EmitInsn(r, sc), st) == st
    ensures After(EmitInsn(r, sc), st) == if r.target in sc.starts then Enter(r.target) else Boot(r.target)
  {
  }

  lemma ReturnTransfers(r: Insn, sc: Scope, st: State)
    requires r.mn.RTS?
    ensures Run(EmitInsn(r, sc), st) == st && After(EmitInsn(r, sc), st) == Back
  {
  }

  lemma CallSteps(p: Prog, c: CConf, r: Insn)
    requires AtStatement(p, c, r) && r.mn.JSR?
    ensures CStep(p, c) == if r.target !in p.starts then Halted(c.st, Escape(r.target))
                           else Next(CConf(c.st, Frame(r.target, 0), [NextFrame(c)] + c.callers))
  {
    hide CStep, Code, Emitted, EmitInsn, Run, After;
    StepsBy(p, c, r, EmitInsn(r, ScopeOf(p, c.at.fn)));
    CallTransfers(r, ScopeOf(p, c.at.fn), c.st);
  }

  lemma ReturnSteps(p: Prog, c: CConf, r: Insn)
    requires AtStatement(p, c, r) && r.mn.RTS?
    ensures CStep(p, c) == if c.callers == [] then Halted(c.st, Finished)
                           else Next(CConf(c.st, c.callers[0], c.callers[1..]))
  {
    hide CStep, Code, Emitted, EmitInsn, Run, After;
    StepsBy(p, c, r, EmitInsn(r, ScopeOf(p, c.at.fn)));
    ReturnTransfers(r, ScopeOf(p, c.at.fn), c.st);
  }

  lemma RtiSteps(p: Prog, c: CConf, r: Insn)
    requires AtStatement(p, c, r) && r.mn.RTI?
    ensures CStep(p, c) == if c.callers == [] then Halted(R.Rti(c.st), Finished)
                           else Next(CConf(R.Rti(c.st), c.callers[0], c.callers[1..]))
  {
    hide CStep, Code, Emitted, EmitInsn, Run, After, R.Rti, Interp.FromIrq;
    StepsBy(p, c, r, EmitInsn(r, ScopeOf(p, c.at.fn)));
    ReturnFromIrqAgrees(r, ScopeOf(p, c.at.fn), c.st);
    RtiAgrees(c.st);
  }

  lemma CallC(p: Prog, c: CConf, r: Insn, c': CConf)
    requires AtStatement(p, c, r) && r.mn.JSR? && CStep(p, c) == Next(c')
    ensures r.target in p.starts && c' == CConf(c.st, Frame(r.target, 0), [NextFrame(c)] + c.callers)
  {
    hide CStep, AtStatement;
    CallSteps(p, c, r);
  }

  lemma ReturnC(p: Prog, c: CConf, r: Insn, c': CConf)
    requires AtStatement(p, c, r) && r.mn.RTS? && CStep(p, c) == Next(c')
    ensures c.callers != [] && c' == CConf(c.st, c.callers[0], c.callers[1..])
  {
    hide CStep, AtStatement;
    ReturnSteps(p, c, r);
  }

  lemma CallEffect(r: Insn, st: State)
    requires WellFormed(r) && r.mn.JSR?
    ensures r.len == 3
    ensures Done(Interp.Config(st, r.pc), r) == Interp.Config(Interp.PushWord(st, Word(r.pc + 2)), r.target)
  {
  }

  lemma ReturnEffect(r: Insn, st: State)
    requires r.mn.RTS?
    ensures Done(Interp.Config(st, r.pc), r) ==
              Interp.Config(Interp.Dropped(Interp.Dropped(st)), ReturnPc(Interp.TopWord(st)))
  {
  }

  lemma LocalStep(p: Prog, i: Interp.Config, c: CConf, c': CConf, items: seq<Item>, base: u8, r: Insn)
    requires Related(p, i, c, items, base) && CleanAt(p, r, i.st, items) && WellFormed(r) && Local(r)
    requires c'.st == Interp.Effect(r, c.st) && c'.callers == c.callers
    requires Position(p, c'.at) && AddrOf(p, c'.at) == Interp.NextPc(r, c.st)
    ensures Related(p, Done(i, r), c', ItemsAfter(r, i.st, items), base)
  {
    NextPcMatches(p, r, i.st, c.st, items);
    LocalStates(p, r, i.st, c.st, items, base);
  }

  lemma NextPcMatches(p: Prog, r: Insn, s: State, t: State, items: seq<Item>)
    requires WellFormed(r) && CleanAt(p, r, s, items) && t == With(s, t.s, t.mem) && OffPage(s.mem, t.mem)
    requires !r.mn.RTS? && !r.mn.RTI?
    ensures Interp.NextPc(r, t) == Interp.NextPc(r, s)
  {
    PlainNextPc(r, s, t.s, t.mem);
  }

  lemma CallStep(p: Prog, i: Interp.Config, c: CConf, c': CConf, items: seq<Item>, base: u8, r: Insn)
    requires Related(p, i, c, items, base) && CleanAt(p, r, i.st, items) && AtStatement(p, c, r)
    requires r.mn.JSR? && r.target in p.starts && i.pc == r.pc
    requires c' == CConf(c.st, Frame(r.target, 0), [NextFrame(c)] + c.callers)
    ensures Related(p, Done(i, r), c', ItemsAfter(r, i.st, items), base)
  {
    hide Code, Run, Emitted, CodeIntact, LabelLine, AddrOf;
    hide Interp.Effect, Interp.NextPc, Interp.PushWord, StatesMatch, Position, AvoidsStack, BytesOf, Erased;
    var a := Word(r.pc + 2);
    CallReturnsTo(p, c, r);
    CallEffect(r, i.st);
    StartAddr(p, r.target);
    CallStates(i.st, c.st, a, items, base);
    ReturnOnTop(a, items);
    FramesPush(p, c, a, Returns(items));
  }

  /** The return address of a call is just before the statement after it. */
  lemma CallReturnsTo(p: Prog, c: CConf, r: Insn)
    requires AtStatement(p, c, r) && r.mn.JSR?
    ensures Position(p, NextFrame(c)) && AddrOf(p, NextFrame(c)) == ReturnPc(Word(r.pc + 2))
  {
    hide Emitted, AddrOf;
    FollowingAddr(p, c.at);
  }

  lemma FramesPush(p: Prog, c: CConf, a: u16, rets: seq<u16>)
    requires FramesMatch(p, c.callers, rets)
    requires Position(p, NextFrame(c)) && AddrOf(p, NextFrame(c)) == ReturnPc(a)
    ensures FramesMatch(p, [NextFrame(c)] + c.callers, [a] + rets)
  {
  }

  lemma ReturnStep(p: Prog, i: Interp.Config, c: CConf, c': CConf, items: seq<Item>, base: u8, r: Insn)
    requires Related(p, i, c, items, base) && CleanAt(p, r, i.st, items)
    requires r.mn.RTS? && i.pc == r.pc && c.callers != [] && c' == CConf(c.st, c.callers[0], c.callers[1..])
    ensures Related(p, Done(i, r), c', ItemsAfter(r, i.st, items), base)
  {
    ReturnEffect(r, i.st);
    ReturnStates(i.st, c.st, items, base);
    assert items == [ReturnTo(items[0].a)] + items[1..];
    ReturnOnTop(items[0].a, items[1..]);
    FramesPop(p, c, items[0].a, Returns(items[1..]));
  }

  /** RTI in a handler returns to the C function that was interrupted. */
  lemma RtiStep(p: Prog, i: Interp.Config, c: CConf, c': CConf, items: seq<Item>, base: u8, r: Insn)
    requires Related(p, i, c, items, base) && CleanAt(p, r, i.st, items)
    requires r.mn.RTI? && c.callers != [] && c' == CConf(R.Rti(c.st), c.callers[0], c.callers[1..])
    ensures Related(p, Done(i, r), c', ItemsAfter(r, i.st, items), base)
  {
    hide StatesMatch, Interp.FromIrq, Interp.TopWord, R.Rti, CodeIntact, Position, AddrOf;
    var pc: u16, rest := items[0].pc, items[1..];
    RtiStates(i.st, c.st, items, base);
    assert items == [IrqFrame(pc, items[0].status)] + rest;
    FrameOnTop(pc, items[0].status, rest);
    FramesPop(p, c, Word(pc - 1), Returns(rest));
    BackToPc(pc);
  }

  lemma BackToPc(pc: u16)
    ensures ReturnPc(Word(pc - 1)) == pc
  {
  }

  lemma FramesPop(p: Prog, c: CConf, a: u16, rets: seq<u16>)
    requires c.callers != [] && FramesMatch(p, c.callers, [a] + rets)
    ensures FramesMatch(p, c.callers[1..], rets)
    ensures Position(p, c.callers[0]) && AddrOf(p, c.callers[0]) == ReturnPc(a)
  {
    hide Position, AddrOf, ReturnPc;
    assert ([a] + rets)[0] == a;
    assert forall k :: 0 <= k < |rets| ==> rets[k] == ([a] + rets)[k + 1];
  }

  lemma LocalSimulates(p: Prog, i: Interp.Config, c: CConf, c': CConf, items: seq<Item>, base: u8, r: Insn)
    requires Related(p, i, c, items, base) && CleanAt(p, r, i.st, items) && AtStatement(p, c, r)
    requires Local(r) && CStep(p, c) == Next(c')
    ensures Related(p, Done(i, r), c', ItemsAfter(r, i.st, items), base)
  {
    LocalC(p, c, r, c');
    LocalStep(p, i, c, c', items, base, r);
  }

  lemma CallSimulates(p: Prog, i: Interp.Config, c: CConf, c': CConf, items: seq<Item>, base: u8, r: Insn)
    requires Related(p, i, c, items, base) && CleanAt(p, r, i.st, items) && AtStatement(p, c, r)
    requires r.mn.JSR? && CStep(p, c) == Next(c')
    ensures Related(p, Done(i, r), c', ItemsAfter(r, i.st, items), base)
  {
    CallC(p, c, r, c');
    CallStep(p, i, c, c', items, base, r);
  }

  lemma ReturnSimulates(p: Prog, i: Interp.Config, c: CConf, c': CConf, items: seq<Item>, base: u8, r: Insn)
    requires Related(p, i, c, items, base) && CleanAt(p, r, i.st, items) && AtStatement(p, c, r)
    requires r.mn.RTS? && CStep(p, c) == Next(c')
    ensures Related(p, Done(i, r), c', ItemsAfter(r, i.st, items), base)
  {
    ReturnC(p, c, r, c');
    ReturnStep(p, i, c, c', items, base, r);
  }

  lemma RtiSimulates(p: Prog, i: Interp.Config, c: CConf, c': CConf, items: seq<Item>, base: u8, r: Insn)
    requires Related(p, i, c, items, base) && CleanAt(p, r, i.st, items) && AtStatement(p, c, r)
    requires r.mn.RTI? && CStep(p, c) == Next(c')
    ensures Related(p, Done(i, r), c', ItemsAfter(r, i.st, items), base)
  {
    hide CStep, AtStatement, Related, CleanAt, Done, ItemsAfter;
    RtiSteps(p, c, r);
    RtiStep(p, i, c, c', items, base, r);
  }

  /** One statement, given its instruction. */
  lemma InsnSimulates(p: Prog, i: Interp.Config, c: CConf, c': CConf, items: seq<Item>, base: u8, r: Insn)
    requires Related(p, i, c, items, base) && CleanAt(p, r, i.st, items) && AtStatement(p, c, r)
    requires CStep(p, c) == Next(c')
    ensures Related(p, Done(i, r), c', ItemsAfter(r, i.st, items), base)
  {
    if r.mn.JSR? {
      CallSimulates(p, i, c, c', items, base, r);
    } else if r.mn.RTS? {
      ReturnSimulates(p, i, c, c', items, base, r);
    } else if r.mn.RTI? {
      RtiSimulates(p, i, c, c', items, base, r);
    } else {
      LocalSimulates(p, i, c, c', items, base, r);
    }
  }

  /** The C function has run past its last statement. */
  predicate AtEnd(p: Prog, c: CConf) { c.at.idx == |Emitted(p.img, c.at.fn)| }

  /** Short of the end, the C program is at the statement of the instruction fetched. */
  lemma AtItsStatement(p: Prog, i: Interp.Config, c: CConf)
    requires Loaded(p) && CodeIntact(p, i.st.mem) && Position(p, c.at) && AddrOf(p, c.at) == i.pc && !AtEnd(p, c)
    ensures AtStatement(p, c, Interp.Fetch(i)) && i.pc == Interp.Fetch(i).pc
  {
    hide Emitted, CodeIntact;
    FetchIsListed(p, i, c.at.fn, c.at.idx);
  }

  /** One emitted statement does one interpreted instruction. */
  lemma StepSimulates(p: Prog, i: Interp.Config, c: CConf, c': CConf, items: seq<Item>, base: u8)
    requires Loaded(p) && Related(p, i, c, items, base) && Clean(p, i, items)
    requires CStep(p, c) == Next(c') && !AtEnd(p, c)
    ensures Related(p, Interp.Step(i), c', ItemsAfter(Interp.Fetch(i), i.st, items), base)
  {
    hide CStep, Emitted, StatesMatch, FramesMatch, CleanAt, ItemsAfter, Done, PcAt;
    AtItsStatement(p, i, c);
    StepIsDone(i);
    InsnSimulates(p, i, c, c', items, base, Interp.Fetch(i));
  }

  lemma StepIsDone(i: Interp.Config)
    ensures Interp.Step(i) == Done(i, Interp.Fetch(i))
  {
  }

  /** A function entered with nothing of its caller on the stack starts related. */
  lemma EntryIsRelated(p: Prog, st: State, f: u16)
    requires f in p.starts && CodeIntact(p, st.mem)
    ensures Related(p, Interp.Config(st, f), CConf(st, Frame(f, 0), []), [], st.s)
  {
    StartAddr(p, f);
  }

  /** Leaving for code that was not recompiled, the C program passes on the interpreter's
      program counter, registers, flags and memory outside the stack page. */
  lemma EscapeAgrees(p: Prog, i: Interp.Config, c: CConf, items: seq<Item>, base: u8, r: Insn, t: State, to: u16)
    requires Related(p, i, c, items, base) && CleanAt(p, r, i.st, items) && AtStatement(p, c, r)
    requires CStep(p, c) == Halted(t, Escape(to))
    ensures Interp.NextPc(r, i.st) == to
    ensures t == With(Interp.Effect(r, i.st), t.s, t.mem) && OffPage(Interp.Effect(r, i.st).mem, t.mem)
  {
    if r.mn.JSR? {
      EscapeByCall(p, c, r, t, to);
      CallEffect(r, i.st);
      CallStates(i.st, c.st, Word(r.pc + 2), items, base);
    } else {
      EscapeByJump(p, c, r, t, to);
      NextPcMatches(p, r, i.st, c.st, items);
      LocalStates(p, r, i.st, c.st, items, base);
    }
  }

  lemma EscapeByCall(p: Prog, c: CConf, r: Insn, t: State, to: u16)
    requires AtStatement(p, c, r) && r.mn.JSR? && CStep(p, c) == Halted(t, Escape(to))
    ensures t == c.st && to == r.target
  {
    hide Code;
    var sc := ScopeOf(p, c.at.fn);
    StepsBy(p, c, r, EmitInsn(r, sc));
    EscapeControl(r, sc, c.st);
  }

  lemma EscapeByJump(p: Prog, c: CConf, r: Insn, t: State, to: u16)
    requires AtStatement(p, c, r) && !r.mn.JSR? && CStep(p, c) == Halted(t, Escape(to))
    ensures Local(r) && t == Interp.Effect(r, c.st) && Interp.NextPc(r, c.st) == to
  {
    hide Code;
    var sc := ScopeOf(p, c.at.fn);
    StepsBy(p, c, r, EmitInsn(r, sc));
    EscapeIsLocal(r, sc, c.st);
    LocalLine(r, sc, c.st);
  }

  /** Only jumps and branches hand an address to a hook, calls aside. */
  lemma EscapeIsLocal(r: Insn, sc: Scope, st: State)
    requires !r.mn.JSR?
    ensures match After(EmitInsn(r, sc), st) case Ext(_) | Boot(_) | Indirect(_) => Local(r) case _ => true
  {
  }

  lemma EscapeControl(r: Insn, sc: Scope, st: State)
    ensures match After(EmitInsn(r, sc), st) case Back => !Local(r) && !r.mn.JSR? case _ => true
    ensures r.mn.JSR? ==> Run(EmitInsn(r, sc), st) == st && After(EmitInsn(r, sc), st) != Fall
    ensures r.mn.JSR? && After(EmitInsn(r, sc), st).Boot? ==> After(EmitInsn(r, sc), st).to == r.target
  {
  }
}
