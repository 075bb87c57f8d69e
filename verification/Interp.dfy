/** The 65SC02 interpreter (tools/m65c02recomp/interp.c): the source semantics. The bus is
    flat RAM. */
module Interp {
  import opened Bytes
  import opened Cpu
  import opened Decode

  function SetNz(st: State, v: u8): State { st.(z := v == 0, n := Bit(v, 7)) }

  function PackP(st: State): u8 {
    0x80 * Num(st.n) + 0x40 * Num(st.v) + 0x30 +
    0x08 * Num(st.d) + 0x04 * Num(st.i) + 0x02 * Num(st.z) + Num(st.c)
  }

  function UnpackP(st: State, p: u8): State {
    st.(n := (p / 0x80) % 2 == 1, v := (p / 0x40) % 2 == 1, d := (p / 8) % 2 == 1,
        i := (p / 4) % 2 == 1, z := (p / 2) % 2 == 1, c := p % 2 == 1)
  }

  /** Result, carry and overflow of `op_adc` and `op_sbc`. */
  datatype Arith = Arith(r: u8, c: bool, v: bool)

  function Carried(a: u8, b: u8, c: nat, dec: bool): Arith {
    var s0 := a + b + c;
    var v := Bit(a, 7) == Bit(b, 7) && Bit(a, 7) != Bit(s0, 7);
    if !dec then Arith(Byte(s0), s0 > 0xFF, v)
    else
      var lo, hi := a % 16 + b % 16 + c, a / 16 + b / 16;
      var lo', hi' := if lo > 9 then lo + 6 else lo, if lo > 9 then hi + 1 else hi;
      var hi'' := if hi' > 9 then hi' + 6 else hi';
      Arith(Byte(hi'' * 16 + lo' % 16), hi'' > 15, v)
  }

  function Borrowed(a: u8, b: u8, c: nat, dec: bool): Arith {
    var d0: u32 := (a - b - (1 - c)) % 0x1_0000_0000;
    var v := Bit(a, 7) != Bit(b, 7) && Bit(a, 7) != Bit(d0, 7);
    if !dec then Arith(Byte(d0), d0 < 0x100, v)
    else
      var lo, hi := a % 16 - b % 16 - (1 - c), a / 16 - b / 16;
      var lo', hi' := if lo < 0 then lo - 6 else lo, if lo < 0 then hi - 1 else hi;
      var hi'' := if hi' < 0 then hi' - 6 else hi';
      Arith(Byte(hi'' * 16 + lo' % 16), d0 < 0x100, v)
  }

  function Store8(st: State, r: Arith): State {
    SetNz(st.(v := r.v, c := r.c, a := r.r), r.r)
  }

  function Compare(st: State, r: u8, v: u8): State { SetNz(st.(c := r >= v), Byte(r - v)) }

  function Push(st: State, v: u8): State { Write(st, 0x100 + st.s, v).(s := Byte(st.s - 1)) }

  function Dropped(st: State): State { st.(s := Byte(st.s + 1)) }

  /** The byte the next pull returns. */
  function Top(st: State): u8 { Read(st, 0x100 + Byte(st.s + 1)) }

  /** `ea`: the effective address of a memory operand. */
  function Ea(r: Insn, st: State): u16 {
    match r.mode
    case ZP => r.operand
    case ZPX => Byte(r.operand + st.x)
    case ZPY => Byte(r.operand + st.y)
    case ABS => r.operand
    case ABX => Word(r.operand + st.x)
    case ABY => Word(r.operand + st.y)
    case IZX => var p := Byte(r.operand + st.x); LoHi(Read(st, p), Read(st, Byte(p + 1)))
    case IZY => var p := Byte(r.operand); Word(LoHi(Read(st, p), Read(st, Byte(p + 1))) + st.y)
    case IZP => var p := Byte(r.operand); LoHi(Read(st, p), Read(st, Byte(p + 1)))
    case _ => 0
  }

  function RdVal(r: Insn, st: State): u8 {
    if r.mode == IMM then Byte(r.operand) else Read(st, Ea(r, st))
  }

  function DoValue(op: ValueOp, imm: bool, v: u8, st: State): State {
    match op
    case LDA => SetNz(st.(a := v), v)
    case LDX => SetNz(st.(x := v), v)
    case LDY => SetNz(st.(y := v), v)
    case ORA => var r := Or(st.a, v); SetNz(st.(a := r), r)
    case AND => var r := And(st.a, v); SetNz(st.(a := r), r)
    case EOR => var r := Xor(st.a, v); SetNz(st.(a := r), r)
    case ADC => Store8(st, Carried(st.a, v, Num(st.c), st.d))
    case SBC => Store8(st, Borrowed(st.a, v, Num(st.c), st.d))
    case CMP => Compare(st, st.a, v)
    case CPX => Compare(st, st.x, v)
    case CPY => Compare(st, st.y, v)
    case BIT =>
      var t := st.(z := And(st.a, v) == 0);
      if imm then t else t.(n := Bit(v, 7), v := Bit(v, 6))
  }

  function StoredByte(op: StoreOp, st: State): u8 {
    match op
    case STA => st.a
    case STX => st.x
    case STY => st.y
    case STZ => 0
  }

  /** A read-modify-write: the new byte, and the state with the flags it leaves. */
  function DoStep(op: StepOp, v: u8, st: State): (State, u8) {
    match op
    case INC => var r := Byte(v + 1); (SetNz(st, r), r)
    case DEC => var r := Byte(v - 1); (SetNz(st, r), r)
    case ASL => var r := Byte(v * 2); (SetNz(st.(c := Bit(v, 7)), r), r)
    case LSR => var r := v / 2; (SetNz(st.(c := Bit(v, 0)), r), r)
    case ROL => var r := Byte(v * 2 + Num(st.c)); (SetNz(st.(c := Bit(v, 7)), r), r)
    case ROR => var r := Byte(v / 2 + 0x80 * Num(st.c)); (SetNz(st.(c := Bit(v, 0)), r), r)
  }

  function DoTest(op: TestOp, v: u8, st: State): (State, u8) {
    (st.(z := And(st.a, v) == 0), if op.TSB? then Or(v, st.a) else And(v, 0xFF - st.a))
  }

  /** RMB and SMB on the zero-page byte `z`. */
  function DoBit(z: u8, b: nat, on: bool, st: State): State {
    if b >= 8 then st
    else Write(st, z, if on then Or(Read(st, z), Mask(b)) else And(Read(st, z), 0xFF - Mask(b)))
  }

  function DoImplied(op: ImpliedOp, st: State): State {
    match op
    case INX => var r := Byte(st.x + 1); SetNz(st.(x := r), r)
    case INY => var r := Byte(st.y + 1); SetNz(st.(y := r), r)
    case DEX => var r := Byte(st.x - 1); SetNz(st.(x := r), r)
    case DEY => var r := Byte(st.y - 1); SetNz(st.(y := r), r)
    case TAX => SetNz(st.(x := st.a), st.a)
    case TAY => SetNz(st.(y := st.a), st.a)
    case TXA => SetNz(st.(a := st.x), st.x)
    case TYA => SetNz(st.(a := st.y), st.y)
    case TSX => SetNz(st.(x := st.s), st.s)
    case TXS => st.(s := st.x)
    case CLC => st.(c := false)
    case SEC => st.(c := true)
    case CLI => st.(i := false)
    case SEI => st.(i := true)
    case CLD => st.(d := false)
    case SED => st.(d := true)
    case CLV => st.(v := false)
  }

  function DoStack(op: StackOp, st: State): State {
    match op
    case PHA => Push(st, st.a)
    case PHX => Push(st, st.x)
    case PHY => Push(st, st.y)
    case PHP => Push(st, Or(PackP(st), 0x10))
    case PLA => SetNz(Dropped(st).(a := Top(st)), Top(st))
    case PLX => SetNz(Dropped(st).(x := Top(st)), Top(st))
    case PLY => SetNz(Dropped(st).(y := Top(st)), Top(st))
    case PLP => UnpackP(Dropped(st), Top(st))
  }

  function PushWord(st: State, w: u16): State { Push(Push(st, w / 0x100), w % 0x100) }

  /** The word the next two pulls return. */
  function TopWord(st: State): u16 { LoHi(Top(st), Top(Dropped(st))) }

  /** RTI: P and the return address are dropped from the stack. */
  function FromIrq(st: State): State { Dropped(Dropped(UnpackP(Dropped(st), Top(st)))) }

  /** Entry to a handler: return address and status pushed, IRQs masked, binary mode. */
  function HandlerEntry(st: State, ret: u16, p: u8): State {
    Push(PushWord(st, ret), p).(i := true, d := false)
  }

  /** BRK at `pc`. */
  function BrkEntry(st: State, pc: u16): State { HandlerEntry(st, Word(pc + 2), Or(PackP(st), 0x10)) }

  /** Registers, flags and memory after the instruction. */
  function Effect(r: Insn, st: State): State {
    match r.mn
    case Value(op) => DoValue(op, r.mode == IMM, RdVal(r, st), st)
    case Store(op) => Write(st, Ea(r, st), StoredByte(op, st))
    case Step(op) =>
      if r.mode == ACC then var (t, v) := DoStep(op, st.a, st); t.(a := v)
      else var (t, v) := DoStep(op, Read(st, Ea(r, st)), st); Write(t, Ea(r, st), v)
    case BitTest(op) => var (t, v) := DoTest(op, Read(st, Ea(r, st)), st); Write(t, Ea(r, st), v)
    case RMB(b) => DoBit(Byte(r.operand), b, false, st)
    case SMB(b) => DoBit(Byte(r.operand), b, true, st)
    case Implied(op) => DoImplied(op, st)
    case Stack(op) => DoStack(op, st)
    case JSR => PushWord(st, Word(r.pc + 2))
    case RTS => Dropped(Dropped(st))
    case RTI => FromIrq(st)
    case BRK => BrkEntry(st, r.pc)
    case _ => st
  }

  predicate FlagTaken(op: BranchOp, st: State) {
    match op
    case BPL => !st.n
    case BMI => st.n
    case BVC => !st.v
    case BVS => st.v
    case BCC => !st.c
    case BCS => st.c
    case BNE => !st.z
    case BEQ => st.z
  }

  /** Is the tested zero-page bit set? */
  predicate ZpBit(r: Insn, b: nat, st: State) {
    b < 8 && And(Read(st, Byte(r.operand)), Mask(b)) != 0
  }

  /** The program counter after the instruction. */
  function NextPc(r: Insn, st: State): u16 {
    var next := Word(r.pc + r.len);
    match r.mn
    case FlagBranch(op) => if FlagTaken(op, st) then r.target else next
    case BBR(b) => if !ZpBit(r, b, st) then r.target else next
    case BBS(b) => if ZpBit(r, b, st) then r.target else next
    case BRA => r.target
    case JMP =>
      if r.mode == IND then Read16(st, r.operand)
      else if r.mode == IAX then Read16(st, Word(r.operand + st.x))
      else r.operand
    case JSR => r.operand
    case RTS => Word(TopWord(st) + 1)
    case RTI => TopWord(Dropped(st))
    case BRK => Read16(BrkEntry(st, r.pc), 0xFFFE)
    case _ => next
  }

  datatype Config = Config(st: State, pc: u16)

  function Fetch(c: Config): (r: Insn)
    ensures r.pc == c.pc && 1 <= r.len <= 3 && WellFormed(r)
  {
    var r := DecodeAt(Read(c.st, c.pc), Read(c.st, Word(c.pc + 1)), Read(c.st, Word(c.pc + 2)), c.pc);
    DecodedIsWellFormed(Read(c.st, c.pc), Read(c.st, Word(c.pc + 1)), Read(c.st, Word(c.pc + 2)), c.pc);
    r
  }

  /** `interp_step`. */
  function Step(c: Config): Config {
    var r := Fetch(c);
    Config(Effect(r, c.st), NextPc(r, c.st))
  }

  /** `n` steps. */
  function Steps(c: Config, n: nat): Config { if n == 0 then c else Step(Steps(c, n - 1)) }

  /** `interp_irq`. */
  function Irq(c: Config): Config {
    var st := HandlerEntry(c.st, c.pc, And(PackP(c.st), 0xEF));
    Config(st, Read16(st, 0xFFFE))
  }
}
