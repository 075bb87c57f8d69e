/** Lowering one instruction to C (tools/m65c02recomp/emit.c), and the proof that the
    statement does what the interpreter does. */
module Emit {
  import opened Bytes
  import opened Cpu
  import opened Decode
  import opened Target
  import Interp
  import R = Runtime

  /** What the emitter knows about the function around an instruction: which addresses are
      goto targets (`in_func_range`) and which start a function (`is_func`). */
  datatype Scope = Scope(boundaries: set<u16>, starts: set<u16>)

  function AddrExpr(r: Insn): Expr {
    match r.mode
    case ZP => Lit(r.operand)
    case ZPX => U8(Plus(Lit(r.operand), RegX))
    case ZPY => U8(Plus(Lit(r.operand), RegY))
    case ABS => Lit(r.operand)
    case ABX => U16(Plus(Lit(r.operand), RegX))
    case ABY => U16(Plus(Lit(r.operand), RegY))
    case IZX => ZpPtr(U8(Plus(Lit(r.operand), RegX)))
    case IZY => U16(Plus(ZpPtr(Lit(r.operand)), RegY))
    case IZP => ZpPtr(Lit(r.operand))
    case _ => Lit(0)
  }

  function RdExpr(r: Insn): Expr {
    if r.mode == IMM then Lit(r.operand) else MemRead(AddrExpr(r))
  }

  /** A goto that does not move forward plants a tick. */
  predicate TickIfBack(r: Insn) { r.target <= r.pc }

  /** Where a taken branch or a direct jump goes. */
  function JumpExit(r: Insn, sc: Scope): Exit {
    if r.target in sc.boundaries then Goto(r.target, TickIfBack(r))
    else if r.target in sc.starts then TailCall(r.target)
    else ExtJmp(r.target)
  }

  function BranchCond(op: BranchOp): Cond {
    match op
    case BPL => FlagIs(FN, false)
    case BMI => FlagIs(FN, true)
    case BVC => FlagIs(FV, false)
    case BVS => FlagIs(FV, true)
    case BCC => FlagIs(FC, false)
    case BCS => FlagIs(FC, true)
    case BNE => FlagIs(FZ, false)
    case BEQ => FlagIs(FZ, true)
  }

  function EmitImplied(op: ImpliedOp): Stmt {
    match op
    case CLC => SetFlag(FC, false)
    case SEC => SetFlag(FC, true)
    case CLI => SetFlag(FI, false)
    case SEI => SetFlag(FI, true)
    case CLD => SetFlag(FD, false)
    case SED => SetFlag(FD, true)
    case CLV => SetFlag(FV, false)
    case INX => Call0(Inx)
    case INY => Call0(Iny)
    case DEX => Call0(Dex)
    case DEY => Call0(Dey)
    case TAX => Call0(Tax)
    case TAY => Call0(Tay)
    case TXA => Call0(Txa)
    case TYA => Call0(Tya)
    case TSX => Call0(Tsx)
    case TXS => Call0(Txs)
  }

  function StackHelper(op: StackOp): Helper {
    match op
    case PHA => Pha
    case PHX => Phx
    case PHY => Phy
    case PHP => Php
    case PLA => Pla
    case PLX => Plx
    case PLY => Ply
    case PLP => Plp
  }

  function HelperOf(op: ValueOp, imm: bool): ByteHelper {
    match op
    case LDA => Lda
    case LDX => Ldx
    case LDY => Ldy
    case ORA => Ora
    case AND => AndA
    case EOR => Eor
    case ADC => Adc
    case SBC => Sbc
    case CMP => Cmp
    case CPX => Cpx
    case CPY => Cpy
    case BIT => if imm then BitImm else BitV
  }

  function EmitStore(op: StoreOp, r: Insn): Stmt {
    MemWrite(AddrExpr(r), match op
                          case STA => RegA
                          case STX => RegX
                          case STY => RegY
                          case STZ => Lit(0))
  }

  function AluOf(op: StepOp): Alu {
    match op
    case INC => AluInc
    case DEC => AluDec
    case ASL => AluAsl
    case LSR => AluLsr
    case ROL => AluRol
    case ROR => AluRor
  }

  function EmitStep(op: StepOp, r: Insn): Stmt {
    if r.mode != ACC then AluOnMem(AluOf(op), AddrExpr(r))
    else if op.INC? then Call0(IncA)
    else if op.DEC? then Call0(DecA)
    else AluOnA(AluOf(op))
  }

  /** `emit_insn`. */
  function EmitInsn(r: Insn, sc: Scope): Stmt {
    match r.mn
    case NOP => Nop
    case Implied(op) => EmitImplied(op)
    case Stack(op) => Call0(StackHelper(op))
    case Value(op) => Call1(HelperOf(op, r.mode == IMM), RdExpr(r))
    case Store(op) => EmitStore(op, r)
    case Step(op) => EmitStep(op, r)
    case BitTest(op) => AluOnMem(if op.TSB? then AluTsb else AluTrb, AddrExpr(r))
    case RMB(b) => ClearBit(Byte(r.operand), b)
    case SMB(b) => RaiseBit(Byte(r.operand), b)
    case BBR(b) => If(BitIs(Byte(r.operand), b, false), JumpExit(r, sc))
    case BBS(b) => If(BitIs(Byte(r.operand), b, true), JumpExit(r, sc))
    case FlagBranch(op) => If(BranchCond(op), JumpExit(r, sc))
    case BRA => Leave(JumpExit(r, sc))
    case JMP =>
      if r.mode == IND then Leave(JmpIndirect(MemRead16(Lit(r.operand))))
      else if r.mode == IAX then Leave(JmpIndirect(MemRead16(U16(Plus(Lit(r.operand), RegX)))))
      else Leave(JumpExit(r, sc))
    case JSR => if r.target in sc.starts then CallFunc(r.target) else BootCall(r.target)
    case RTS => Leave(Return)
    case RTI => Leave(RtiReturn)
    case BRK => Leave(Unimpl)
    case WAI | STP => Leave(Return)
  }

  // ---- one instruction: the emitted statement against the interpreter ----

  /** Instructions whose lowering keeps the machine state; calls, returns and the halting
      instructions are related in module Simulation or are not (BRK, WAI, STP, RTI). */
  predicate Local(r: Insn) {
    match r.mn
    case JSR | RTS | RTI | BRK | WAI | STP => false
    case _ => true
  }

  /** The instruction has a memory operand, in zero page if it is two bytes long. */
  predicate Addressed(r: Insn) {
    MemoryMode(r.mode) && (ModeLen(r.mode) == 2 ==> r.operand < 0x100)
  }

  lemma WordIsItself(e: Expr, st: State, w: u16)
    requires Eval(e, st) == w
    ensures Word(Eval(e, st)) == w
  {
    hide Eval;
  }

  lemma IndexedIsEa(r: Insn, st: State)
    requires r.mode == ZPX || r.mode == ZPY || r.mode == ABX || r.mode == ABY
    ensures Word(Eval(AddrExpr(r), st)) == Interp.Ea(r, st)
  {
    assert Eval(Plus(Lit(r.operand), RegX), st) == r.operand + st.x;
    assert Eval(Plus(Lit(r.operand), RegY), st) == r.operand + st.y;
    WordIsItself(AddrExpr(r), st, Interp.Ea(r, st));
  }

  lemma PointerIsEa(r: Insn, st: State)
    requires Addressed(r) && (r.mode == IZX || r.mode == IZP)
    ensures Word(Eval(AddrExpr(r), st)) == Interp.Ea(r, st)
  {
    hide LoHi, Word;
    if r.mode == IZX {
      assert Eval(Plus(Lit(r.operand), RegX), st) == r.operand + st.x;
      assert Eval(U8(Plus(Lit(r.operand), RegX)), st) == Byte(r.operand + st.x);
    }
    WordIsItself(AddrExpr(r), st, Interp.Ea(r, st));
  }

  lemma IndexedPointerIsEa(r: Insn, st: State)
    requires Addressed(r) && r.mode == IZY
    ensures Word(Eval(AddrExpr(r), st)) == Interp.Ea(r, st)
  {
    var p := ZpPtr(Lit(r.operand));
    assert Eval(p, st) == R.ZpPtr(st, Byte(r.operand));
    assert Eval(Plus(p, RegY), st) == Eval(p, st) + st.y;
    WordIsItself(AddrExpr(r), st, Interp.Ea(r, st));
  }

  lemma AddrExprIsEa(r: Insn, st: State)
    requires Addressed(r)
    ensures Word(Eval(AddrExpr(r), st)) == Interp.Ea(r, st)
  {
    match r.mode
    case ZPX | ZPY | ABX | ABY => IndexedIsEa(r, st);
    case IZX | IZP => PointerIsEa(r, st);
    case IZY => IndexedPointerIsEa(r, st);
    case _ =>
  }

  lemma RdExprIsRdVal(r: Insn, st: State)
    requires WellFormed(r) && (r.mode == IMM || MemoryMode(r.mode))
    ensures Byte(Eval(RdExpr(r), st)) == Interp.RdVal(r, st)
  {
    if r.mode != IMM {
      AddrExprIsEa(r, st);
    }
  }

  lemma AddAgrees(a: u8, b: u8, c: nat)
    ensures var x := R.AddBinary(a, b, c);
            Interp.Carried(a, b, c, false) == Interp.Arith(x.r, x.carry, x.overflow)
    ensures var x := R.AddDecimal(a, b, c);
            Interp.Carried(a, b, c, true) == Interp.Arith(x.r, x.carry, x.overflow)
  {
  }

  lemma SubAgrees(a: u8, b: u8, c: nat)
    ensures var x := R.SubBinary(a, b, c);
            Interp.Borrowed(a, b, c, false) == Interp.Arith(x.r, x.carry, x.overflow)
    ensures var x := R.SubDecimal(a, b, c);
            Interp.Borrowed(a, b, c, true) == Interp.Arith(x.r, x.carry, x.overflow)
  {
  }

  lemma ValueHelperAgrees(op: ValueOp, imm: bool, v: u8, st: State)
    ensures CallByteHelper(HelperOf(op, imm), v, st) == Interp.DoValue(op, imm, v, st)
  {
    match op
    case ADC => AddAgrees(st.a, v, Num(st.c));
    case SBC => SubAgrees(st.a, v, Num(st.c));
    case _ =>
  }

  lemma AluAgrees(op: StepOp, v: u8, st: State)
    ensures CallAlu(AluOf(op), v, st) == Interp.DoStep(op, v, st)
  {
    hide Bit;
  }

  lemma PackAgrees(st: State)
    ensures Interp.PackP(st) == R.PPack(st)
  {
  }

  lemma OrSetBit4(hi: nat, lo: nat)
    requires hi < 8 && lo < 16
    ensures Or(0x20 * hi + 0x10 + lo, 0x10) == 0x20 * hi + 0x10 + lo
  {
    var p := 0x20 * hi + 0x10 + lo;
    assert p / 2 / 2 / 2 / 2 == 2 * hi + 1;
    assert Has(2 * hi + 1, 0);
    assert Has(p / 2 / 2, 2);
    assert Exp2(4) == 0x10 && Exp2(8) == 0x100;
    OrSet(p, 4, 8);
  }

  lemma PackHasBit4(st: State)
    ensures Or(Interp.PackP(st), 0x10) == Interp.PackP(st)
  {
    OrSetBit4(4 * Num(st.n) + 2 * Num(st.v) + 1, 8 * Num(st.d) + 4 * Num(st.i) + 2 * Num(st.z) + Num(st.c));
  }

  lemma UnpackAgrees(st: State, p: u8)
    ensures Interp.UnpackP(st, p) == R.PUnpack(st, p)
  {
  }

  lemma StackAgrees(op: StackOp, st: State)
    ensures CallHelper(StackHelper(op), st) == Interp.DoStack(op, st)
  {
    match op
    case PHP => PackAgrees(st); PackHasBit4(st);
    case PLP => UnpackAgrees(Interp.Dropped(st), Interp.Top(st));
    case _ =>
  }

  lemma ImpliedAgrees(op: ImpliedOp, st: State)
    ensures Run(EmitImplied(op), st) == Interp.DoImplied(op, st)
  {
  }

  lemma StepOnMemoryAgrees(op: StepOp, r: Insn, st: State)
    requires Addressed(r) && r.mn == Step(op)
    ensures Run(AluOnMem(AluOf(op), AddrExpr(r)), st) == Interp.Effect(r, st)
  {
    AddrExprIsEa(r, st);
    AluAgrees(op, Read(st, Interp.Ea(r, st)), st);
  }

  lemma AluOnAAgrees(op: StepOp, r: Insn, st: State)
    requires r.mode == ACC && r.mn == Step(op)
    ensures Run(AluOnA(AluOf(op)), st) == Interp.Effect(r, st)
  {
    hide CallAlu, Interp.DoStep, AluOf;
    AluAgrees(op, st.a, st);
  }

  lemma CountsOnA(r: Insn, st: State)
    requires r.mode == ACC
    ensures r.mn == Step(INC) ==> Run(Call0(IncA), st) == Interp.Effect(r, st)
    ensures r.mn == Step(DEC) ==> Run(Call0(DecA), st) == Interp.Effect(r, st)
  {
    hide Bit;
  }

  lemma StepOnAAgrees(op: StepOp, r: Insn, st: State)
    requires r.mode == ACC && r.mn == Step(op)
    ensures Run(EmitStep(op, r), st) == Interp.Effect(r, st)
  {
    hide Run, Interp.Effect;
    if op.INC? || op.DEC? { CountsOnA(r, st); } else { AluOnAAgrees(op, r, st); }
  }

  lemma StepAgrees(op: StepOp, r: Insn, sc: Scope, st: State)
    requires WellFormed(r) && r.mn == Step(op)
    ensures Run(EmitInsn(r, sc), st) == Interp.Effect(r, st)
  {
    if r.mode == ACC {
      StepOnAAgrees(op, r, st);
    } else {
      StepOnMemoryAgrees(op, r, st);
    }
  }

  lemma ValueAgrees(op: ValueOp, r: Insn, sc: Scope, st: State)
    requires WellFormed(r) && r.mn == Value(op)
    ensures Run(EmitInsn(r, sc), st) == Interp.Effect(r, st)
  {
    RdExprIsRdVal(r, st);
    ValueHelperAgrees(op, r.mode == IMM, Interp.RdVal(r, st), st);
  }

  lemma StoreAgrees(r: Insn, sc: Scope, st: State)
    requires WellFormed(r) && r.mn.Store?
    ensures Run(EmitInsn(r, sc), st) == Interp.Effect(r, st)
  {
    AddrExprIsEa(r, st);
  }

  lemma TestAluAgrees(op: TestOp, v: u8, st: State)
    ensures CallAlu(if op.TSB? then AluTsb else AluTrb, v, st) == Interp.DoTest(op, v, st)
  {
  }

  lemma TestAgrees(r: Insn, sc: Scope, st: State)
    requires WellFormed(r) && r.mn.BitTest?
    ensures Run(EmitInsn(r, sc), st) == Interp.Effect(r, st)
  {
    hide CallAlu, Interp.DoTest, Eval, Interp.Ea, R.Rti, And, Or;
    AddrExprIsEa(r, st);
    TestAluAgrees(r.mn.test, Read(st, Interp.Ea(r, st)), st);
  }

  lemma NoOperandAgrees(r: Insn, sc: Scope, st: State)
    requires WellFormed(r) && (r.mn.Implied? || r.mn.Stack? || r.mn.RMB? || r.mn.SMB?)
    ensures Run(EmitInsn(r, sc), st) == Interp.Effect(r, st)
  {
    match r.mn
    case Implied(op) => ImpliedAgrees(op, st);
    case Stack(op) => StackAgrees(op, st);
    case _ =>
  }

  lemma TransferKeepsState(r: Insn, sc: Scope, st: State)
    requires WellFormed(r) && (r.flow.Branch? || r.flow.Jump? || r.mn.NOP?)
    ensures Run(EmitInsn(r, sc), st) == Interp.Effect(r, st)
  {
  }

  /** Registers, flags and memory after the emitted statement are the interpreter's. */
  lemma StateAgrees(r: Insn, sc: Scope, st: State)
    requires WellFormed(r) && Local(r)
    ensures Run(EmitInsn(r, sc), st) == Interp.Effect(r, st)
  {
    match r.mn
    case Value(op) => ValueAgrees(op, r, sc, st);
    case Store(_) => StoreAgrees(r, sc, st);
    case BitTest(_) => TestAgrees(r, sc, st);
    case Step(op) => StepAgrees(op, r, sc, st);
    case Implied(_) => NoOperandAgrees(r, sc, st);
    case Stack(_) => NoOperandAgrees(r, sc, st);
    case RMB(_) => NoOperandAgrees(r, sc, st);
    case SMB(_) => NoOperandAgrees(r, sc, st);
    case _ => TransferKeepsState(r, sc, st);
  }

  /** The runtime's return from interrupt is the interpreter's, but for where it goes. */
  lemma RtiAgrees(st: State)
    ensures Interp.FromIrq(st) == R.Rti(st)
  {
    hide Bit, Interp.UnpackP, R.PUnpack;
    UnpackAgrees(R.Pull(st).0, R.Pull(st).1);
  }

  /** RTI: the statement leaves the interpreter's registers, flags, stack pointer and memory, and
      control leaves the handler. */
  lemma ReturnFromIrqAgrees(r: Insn, sc: Scope, st: State)
    requires r.mn.RTI?
    ensures Run(EmitInsn(r, sc), st) == Interp.Effect(r, st) && After(EmitInsn(r, sc), st) == BackFromIrq
  {
    RtiAgrees(st);
  }

  /** Which instructions end the C function: RTI through `lynx_rti`, BRK through the hook for what is
      not implemented, RTS, WAI and STP at once; and no other. */
  lemma EndsExactly(r: Insn, sc: Scope, st: State)
    requires WellFormed(r)
    ensures var c := After(EmitInsn(r, sc), st);
            && (c == BackFromIrq <==> r.mn.RTI?) && (c == Trap <==> r.mn.BRK?)
            && (c == Back <==> r.mn.RTS? || r.mn.WAI? || r.mn.STP?)
    ensures r.mn.RTS? || r.mn.WAI? || r.mn.STP? || r.mn.BRK? || r.mn.JSR? ==> Run(EmitInsn(r, sc), st) == st
  {
    hide R.Rti, AddrExpr, Holds, Eval, CallHelper, CallByteHelper, CallAlu;
  }

  /** A goto ticks exactly when it does not go forward. */
  lemma TicksExactly(r: Insn, sc: Scope, st: State)
    ensures match After(EmitInsn(r, sc), st) case Jump(l, ticked) => ticked <==> l <= r.pc case _ => true
  {
  }

  /** The address a way of continuing stands for, given the address of the next statement. */
  function Destination(c: Ctl, next: u16): u16 {
    match c
    case Fall => next
    case Jump(l, _) => l
    case Enter(f) => f
    case Boot(to) => to
    case Tail(f) => f
    case Ext(to) => to
    case Indirect(to) => to
    case Back | BackFromIrq | Trap => 0
  }

  lemma TakenGoesToTarget(r: Insn, sc: Scope, c: Cond, st: State, next: u16)
    ensures Destination(ExitTo(JumpExit(r, sc), st), next) == r.target
    ensures Destination(After(If(c, JumpExit(r, sc)), st), next) == if Holds(c, st) then r.target else next
  {
  }

  lemma FlagBranchAgrees(r: Insn, sc: Scope, st: State)
    requires r.mn.FlagBranch?
    ensures Destination(After(EmitInsn(r, sc), st), Word(r.pc + r.len)) == Interp.NextPc(r, st)
  {
    var cond := BranchCond(r.mn.branch);
    TakenGoesToTarget(r, sc, cond, st, Word(r.pc + r.len));
    assert Holds(cond, st) == Interp.FlagTaken(r.mn.branch, st);
  }

  lemma BitBranchAgrees(r: Insn, sc: Scope, st: State)
    requires r.mn.BBR? || r.mn.BBS?
    ensures Destination(After(EmitInsn(r, sc), st), Word(r.pc + r.len)) == Interp.NextPc(r, st)
  {
    TakenGoesToTarget(r, sc, BitIs(Byte(r.operand), r.mn.bit, r.mn.BBS?), st, Word(r.pc + r.len));
  }

  lemma IndexedIsWord(n: u16, st: State)
    ensures Eval(U16(Plus(Lit(n), RegX)), st) == Word(n + st.x)
  {
    assert Eval(Plus(Lit(n), RegX), st) == n + st.x;
  }

  lemma IndirectJumpAgrees(r: Insn, st: State)
    ensures Word(Eval(MemRead16(Lit(r.operand)), st)) == Read16(st, r.operand)
  {
    hide LoHi;
    WordIsItself(MemRead16(Lit(r.operand)), st, Read16(st, r.operand));
  }

  lemma IndexedJumpAgrees(r: Insn, st: State)
    ensures var e := MemRead16(U16(Plus(Lit(r.operand), RegX)));
            Word(Eval(e, st)) == Read16(st, Word(r.operand + st.x))
  {
    hide LoHi;
    IndexedIsWord(r.operand, st);
    WordIsItself(MemRead16(U16(Plus(Lit(r.operand), RegX))), st, Read16(st, Word(r.operand + st.x)));
  }

  lemma DirectJumpAgrees(r: Insn, sc: Scope, st: State)
    requires r.mn.BRA? || (r.mn.JMP? && r.mode == ABS && r.target == r.operand)
    ensures Destination(After(EmitInsn(r, sc), st), Word(r.pc + r.len)) == Interp.NextPc(r, st)
  {
    TakenGoesToTarget(r, sc, FlagIs(FC, true), st, Word(r.pc + r.len));
  }

  lemma ComputedJumpAgrees(r: Insn, sc: Scope, st: State)
    requires r.mn.JMP? && (r.mode == IND || r.mode == IAX)
    ensures Destination(After(EmitInsn(r, sc), st), Word(r.pc + r.len)) == Interp.NextPc(r, st)
  {
    if r.mode == IND {
      IndirectJumpAgrees(r, st);
    } else {
      IndexedJumpAgrees(r, st);
    }
  }

  /** Control continues at the interpreter's program counter: at a label, at the next
      statement, in the function called or at the address handed to a hook. */
  lemma ControlAgrees(r: Insn, sc: Scope, st: State)
    requires WellFormed(r) && (Local(r) || r.mn.JSR?)
    ensures Destination(After(EmitInsn(r, sc), st), Word(r.pc + r.len)) == Interp.NextPc(r, st)
  {
    match r.flow
    case Branch =>
      if r.mn.FlagBranch? {
        FlagBranchAgrees(r, sc, st);
      } else {
        BitBranchAgrees(r, sc, st);
      }
    case Jump =>
      if r.mode == IND || r.mode == IAX {
        ComputedJumpAgrees(r, sc, st);
      } else {
        DirectJumpAgrees(r, sc, st);
      }
    case _ =>
  }
}
