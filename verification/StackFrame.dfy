/** What one interpreted instruction does to two machines that differ only in their stacks:
    the step needed to relate recompiled code, whose stack holds no return addresses. */
module StackFrame {
  import opened Bytes
  import opened Cpu
  import opened Decode
  import opened Interp

  /** The same registers and flags over another stack pointer and memory. */
  function With(st: State, k: u8, m: Mem): State { st.(s := k, mem := m) }

  /** Two memories agree outside the stack page. */
  predicate OffPage(m: Mem, m': Mem) { forall a: u16 :: !InStackPage(a) ==> m[a] == m'[a] }

  /** Equal registers, flags and memory outside the stack page. */
  predicate Alike(s: State, t: State) { t == With(s, t.s, t.mem) && OffPage(s.mem, t.mem) }

  /** Two memories agree on the stack page. */
  predicate OnPage(m: Mem, m': Mem) { forall a: u16 :: InStackPage(a) ==> m[a] == m'[a] }

  /** No pushes, pulls, calls or returns, and no view of the stack pointer. */
  predicate Plain(r: Insn) {
    match r.mn
    case Stack(_) | JSR | RTS | RTI | BRK | WAI | STP => false
    case Implied(op) => !op.TSX? && !op.TXS?
    case _ => true
  }

  /** Data the instruction reads or writes, or jumps through, lies outside the stack page. */
  predicate AvoidsStack(r: Insn, st: State) {
    match r.mn
    case Value(_) => r.mode == IMM || !InStackPage(Ea(r, st))
    case Store(_) => !InStackPage(Ea(r, st))
    case Step(_) => r.mode == ACC || !InStackPage(Ea(r, st))
    case BitTest(_) => !InStackPage(Ea(r, st))
    case JMP =>
      if r.mode == IND then !InStackPage(r.operand) && !InStackPage(Word(r.operand + 1))
      else if r.mode == IAX then
        !InStackPage(Word(r.operand + st.x)) && !InStackPage(Word(Word(r.operand + st.x) + 1))
      else true
    case _ => true
  }

  lemma NzFrame(st: State, r: u8, k: u8, m: Mem)
    ensures SetNz(With(st, k, m), r) == With(SetNz(st, r), k, m)
    ensures SetNz(st, r).s == st.s && SetNz(st, r).mem == st.mem
  {
    hide Bit;
  }

  lemma ValueFrame(op: ValueOp, imm: bool, v: u8, st: State, k: u8, m: Mem)
    ensures DoValue(op, imm, v, With(st, k, m)) == With(DoValue(op, imm, v, st), k, m)
    ensures DoValue(op, imm, v, st).s == st.s && DoValue(op, imm, v, st).mem == st.mem
  {
    hide DoValue;
    match op
    case LDA | LDX | LDY => LoadFrame(op, imm, v, st, k, m);
    case ORA | AND | EOR => LogicFrame(op, imm, v, st, k, m);
    case ADC | SBC => SumFrame(op, imm, v, st, k, m);
    case CMP | CPX | CPY => CompareFrame(op, imm, v, st, k, m);
    case BIT => BitTestFrame(imm, v, st, k, m);
  }

  lemma LoadFrame(op: ValueOp, imm: bool, v: u8, st: State, k: u8, m: Mem)
    requires op.LDA? || op.LDX? || op.LDY?
    ensures DoValue(op, imm, v, With(st, k, m)) == With(DoValue(op, imm, v, st), k, m)
    ensures DoValue(op, imm, v, st).s == st.s && DoValue(op, imm, v, st).mem == st.mem
  {
    hide SetNz;
    match op
    case LDA => NzFrame(st.(a := v), v, k, m);
    case LDX => NzFrame(st.(x := v), v, k, m);
    case LDY => NzFrame(st.(y := v), v, k, m);
  }

  lemma LogicFrame(op: ValueOp, imm: bool, v: u8, st: State, k: u8, m: Mem)
    requires op.ORA? || op.AND? || op.EOR?
    ensures DoValue(op, imm, v, With(st, k, m)) == With(DoValue(op, imm, v, st), k, m)
    ensures DoValue(op, imm, v, st).s == st.s && DoValue(op, imm, v, st).mem == st.mem
  {
    hide SetNz, And, Or, Xor;
    var r := if op.ORA? then Or(st.a, v) else if op.AND? then And(st.a, v) else Xor(st.a, v);
    NzFrame(st.(a := r), r, k, m);
  }

  lemma SumFrame(op: ValueOp, imm: bool, v: u8, st: State, k: u8, m: Mem)
    requires op.ADC? || op.SBC?
    ensures DoValue(op, imm, v, With(st, k, m)) == With(DoValue(op, imm, v, st), k, m)
    ensures DoValue(op, imm, v, st).s == st.s && DoValue(op, imm, v, st).mem == st.mem
  {
    hide Store8, Carried, Borrowed;
    var c := Num(st.c);
    ArithFrame(st, if op.ADC? then Carried(st.a, v, c, st.d) else Borrowed(st.a, v, c, st.d), k, m);
  }

  lemma CompareFrame(op: ValueOp, imm: bool, v: u8, st: State, k: u8, m: Mem)
    requires op.CMP? || op.CPX? || op.CPY?
    ensures DoValue(op, imm, v, With(st, k, m)) == With(DoValue(op, imm, v, st), k, m)
    ensures DoValue(op, imm, v, st).s == st.s && DoValue(op, imm, v, st).mem == st.mem
  {
    hide SetNz, Byte;
    var r := if op.CMP? then st.a else if op.CPX? then st.x else st.y;
    NzFrame(st.(c := r >= v), Byte(r - v), k, m);
  }

  lemma BitTestFrame(imm: bool, v: u8, st: State, k: u8, m: Mem)
    ensures DoValue(BIT, imm, v, With(st, k, m)) == With(DoValue(BIT, imm, v, st), k, m)
    ensures DoValue(BIT, imm, v, st).s == st.s && DoValue(BIT, imm, v, st).mem == st.mem
  {
    hide Bit, And;
  }

  lemma ArithFrame(st: State, r: Arith, k: u8, m: Mem)
    ensures Store8(With(st, k, m), r) == With(Store8(st, r), k, m)
    ensures Store8(st, r).s == st.s && Store8(st, r).mem == st.mem
  {
    hide Bit;
  }

  lemma StepFrame(op: StepOp, v: u8, st: State, k: u8, m: Mem)
    ensures var (t, w) := DoStep(op, v, st);
            DoStep(op, v, With(st, k, m)) == (With(t, k, m), w) && t.s == st.s && t.mem == st.mem
  {
  }

  lemma ImpliedFrame(op: ImpliedOp, st: State, k: u8, m: Mem)
    requires !op.TSX? && !op.TXS?
    ensures DoImplied(op, With(st, k, m)) == With(DoImplied(op, st), k, m)
    ensures DoImplied(op, st).s == st.s && DoImplied(op, st).mem == st.mem
  {
    hide DoImplied;
    match op
    case INX | INY | DEX | DEY => IndexFrame(op, st, k, m);
    case TAX | TAY | TXA | TYA => MoveFrame(op, st, k, m);
    case _ => FlagFrame(op, st, k, m);
  }

  lemma IndexFrame(op: ImpliedOp, st: State, k: u8, m: Mem)
    requires op.INX? || op.INY? || op.DEX? || op.DEY?
    ensures DoImplied(op, With(st, k, m)) == With(DoImplied(op, st), k, m)
    ensures DoImplied(op, st).s == st.s && DoImplied(op, st).mem == st.mem
  {
    hide SetNz, Byte;
    match op
    case INX => NzFrame(st.(x := Byte(st.x + 1)), Byte(st.x + 1), k, m);
    case INY => NzFrame(st.(y := Byte(st.y + 1)), Byte(st.y + 1), k, m);
    case DEX => NzFrame(st.(x := Byte(st.x - 1)), Byte(st.x - 1), k, m);
    case DEY => NzFrame(st.(y := Byte(st.y - 1)), Byte(st.y - 1), k, m);
  }

  lemma MoveFrame(op: ImpliedOp, st: State, k: u8, m: Mem)
    requires op.TAX? || op.TAY? || op.TXA? || op.TYA?
    ensures DoImplied(op, With(st, k, m)) == With(DoImplied(op, st), k, m)
    ensures DoImplied(op, st).s == st.s && DoImplied(op, st).mem == st.mem
  {
    hide SetNz;
    match op
    case TAX => NzFrame(st.(x := st.a), st.a, k, m);
    case TAY => NzFrame(st.(y := st.a), st.a, k, m);
    case TXA => NzFrame(st.(a := st.x), st.x, k, m);
    case TYA => NzFrame(st.(a := st.y), st.y, k, m);
  }

  lemma FlagFrame(op: ImpliedOp, st: State, k: u8, m: Mem)
    requires op.CLC? || op.SEC? || op.CLI? || op.SEI? || op.CLD? || op.SED? || op.CLV?
    ensures DoImplied(op, With(st, k, m)) == With(DoImplied(op, st), k, m)
    ensures DoImplied(op, st).s == st.s && DoImplied(op, st).mem == st.mem
  {
  }

  /** Effective addresses only depend on registers and zero page. */
  lemma EaFrame(r: Insn, st: State, k: u8, m: Mem)
    requires OffPage(st.mem, m) && WellFormed(r)
    ensures Ea(r, With(st, k, m)) == Ea(r, st)
  {
    assert forall a: u8 :: !InStackPage(a) && st.mem[a] == m[a];
  }

  /** The outcome of a plain instruction on a machine with another stack. */
  predicate Framed(s: State, s': State, k: u8, m: Mem, t': State) {
    && t' == With(s', k, t'.mem) && s'.s == s.s
    && OffPage(s'.mem, t'.mem) && OnPage(s.mem, s'.mem) && OnPage(m, t'.mem)
  }

  lemma WriteFrame(s: State, s1: State, k: u8, m: Mem, a: u16, v: u8)
    requires OffPage(s.mem, m) && !InStackPage(a) && s1.s == s.s && s1.mem == s.mem
    ensures Framed(s, Write(s1, a, v), k, m, Write(With(s1, k, m), a, v))
  {
  }

  lemma StepEffect(op: StepOp, r: Insn, s: State, k: u8, m: Mem)
    requires WellFormed(r) && r.mn == Step(op) && AvoidsStack(r, s) && OffPage(s.mem, m)
    ensures Framed(s, Effect(r, s), k, m, Effect(r, With(s, k, m)))
  {
    hide DoStep;
    if r.mode == ACC {
      StepFrame(op, s.a, s, k, m);
    } else {
      EaFrame(r, s, k, m);
      var (t, w) := DoStep(op, Read(s, Ea(r, s)), s);
      StepFrame(op, Read(s, Ea(r, s)), s, k, m);
      WriteFrame(s, t, k, m, Ea(r, s), w);
    }
  }

  lemma TestEffect(op: TestOp, r: Insn, s: State, k: u8, m: Mem)
    requires WellFormed(r) && r.mn == BitTest(op) && AvoidsStack(r, s) && OffPage(s.mem, m)
    ensures Framed(s, Effect(r, s), k, m, Effect(r, With(s, k, m)))
  {
    hide And, Or, Ea, Framed, WellFormed;
    EaFrame(r, s, k, m);
    var (t, w) := DoTest(op, Read(s, Ea(r, s)), s);
    WriteFrame(s, t, k, m, Ea(r, s), w);
  }

  lemma BitFrame(z: u8, b: nat, on: bool, s: State, k: u8, m: Mem)
    requires OffPage(s.mem, m)
    ensures Framed(s, DoBit(z, b, on, s), k, m, DoBit(z, b, on, With(s, k, m)))
  {
    if b < 8 {
      var v := if on then Or(Read(s, z), Mask(b)) else And(Read(s, z), 0xFF - Mask(b));
      assert !InStackPage(z) && m[z] == s.mem[z];
      WriteFrame(s, s, k, m, z, v);
    }
  }

  lemma OperandEffect(r: Insn, s: State, k: u8, m: Mem)
    requires WellFormed(r) && (r.mn.Value? || r.mn.Store?) && AvoidsStack(r, s) && OffPage(s.mem, m)
    ensures Framed(s, Effect(r, s), k, m, Effect(r, With(s, k, m)))
  {
    EaFrame(r, s, k, m);
    match r.mn
    case Value(op) => ValueFrame(op, r.mode == IMM, RdVal(r, s), s, k, m);
    case Store(op) => WriteFrame(s, s, k, m, Ea(r, s), StoredByte(op, s));
  }

  lemma PlainEffect(r: Insn, s: State, k: u8, m: Mem)
    requires WellFormed(r) && Plain(r) && AvoidsStack(r, s) && OffPage(s.mem, m)
    ensures Framed(s, Effect(r, s), k, m, Effect(r, With(s, k, m)))
  {
    match r.mn
    case Value(_) => OperandEffect(r, s, k, m);
    case Store(_) => OperandEffect(r, s, k, m);
    case Step(op) => StepEffect(op, r, s, k, m);
    case BitTest(op) => TestEffect(op, r, s, k, m);
    case RMB(b) => BitFrame(Byte(r.operand), b, false, s, k, m);
    case SMB(b) => BitFrame(Byte(r.operand), b, true, s, k, m);
    case Implied(op) => ImpliedFrame(op, s, k, m);
    case _ =>
  }

  /** The program counter after a plain instruction or a call does not depend on the stack. */
  lemma PlainNextPc(r: Insn, s: State, k: u8, m: Mem)
    requires WellFormed(r) && (Plain(r) || r.mn.JSR? || r.mn.Stack?) && AvoidsStack(r, s) && OffPage(s.mem, m)
    ensures NextPc(r, With(s, k, m)) == NextPc(r, s)
  {
  }
}
