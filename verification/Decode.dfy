/** The 65SC02 opcode table and instruction decoder (tools/m65c02recomp/decode.c). */
module Decode {
  import opened Bytes

  datatype Mode =
    | IMP | ACC | IMM | ZP | ZPX | ZPY | IZX | IZY | IZP | REL
    | ABS | ABX | ABY | IND | IAX | ZPREL

  datatype Flow = Normal | Branch | Jump | CallTo | Ret | Break | Stop

  // The mnemonics, grouped by what the instruction does.
  datatype ValueOp = LDA | LDX | LDY | ORA | AND | EOR | ADC | SBC | CMP | CPX | CPY | BIT
  datatype StoreOp = STA | STX | STY | STZ
  datatype StepOp = INC | DEC | ASL | LSR | ROL | ROR
  datatype TestOp = TSB | TRB
  datatype StackOp = PHA | PHX | PHY | PHP | PLA | PLX | PLY | PLP
  datatype BranchOp = BPL | BMI | BVC | BVS | BCC | BCS | BNE | BEQ
  datatype ImpliedOp =
    | CLC | SEC | CLI | SEI | CLD | SED | CLV
    | INX | INY | DEX | DEY
    | TAX | TAY | TXA | TYA | TSX | TXS

  /** The four Rockwell families carry the bit index of their mnemonic. */
  datatype Mnemonic =
    | Value(value: ValueOp)          // operand value into a register or the flags
    | Store(store: StoreOp)
    | Step(step: StepOp)             // on A or on memory
    | BitTest(test: TestOp)
    | Implied(implied: ImpliedOp)    // registers and flags only
    | Stack(stack: StackOp)
    | FlagBranch(branch: BranchOp)
    | RMB(bit: nat) | SMB(bit: nat)
    | BBR(bit: nat) | BBS(bit: nat)
    | BRA | JMP | JSR | RTS | RTI | BRK | WAI | STP | NOP

  datatype OpInfo = Op(mn: Mnemonic, mode: Mode, flow: Flow)

  /** The modes that name a memory operand. */
  predicate MemoryMode(m: Mode) {
    match m
    case ZP | ZPX | ZPY | ABS | ABX | ABY | IZX | IZY | IZP => true
    case _ => false
  }

  /** What every entry of the table satisfies: mode and flow class fit the mnemonic. */
  predicate Fits(o: OpInfo) {
    match o.mn
    case Value(_) => (o.mode == IMM || MemoryMode(o.mode)) && o.flow == Normal
    case Store(_) => MemoryMode(o.mode) && o.flow == Normal
    case Step(_) => (o.mode == ACC || MemoryMode(o.mode)) && o.flow == Normal
    case BitTest(_) => MemoryMode(o.mode) && o.flow == Normal
    case RMB(b) => b < 8 && o.mode == ZP && o.flow == Normal
    case SMB(b) => b < 8 && o.mode == ZP && o.flow == Normal
    case Implied(_) => o.mode == IMP && o.flow == Normal
    case Stack(_) => o.mode == IMP && o.flow == Normal
    case FlagBranch(_) => o.mode == REL && o.flow == Branch
    case BBR(b) => b < 8 && o.mode == ZPREL && o.flow == Branch
    case BBS(b) => b < 8 && o.mode == ZPREL && o.flow == Branch
    case BRA => o.mode == REL && o.flow == Jump
    case JMP => (o.mode == ABS || o.mode == IND || o.mode == IAX) && o.flow == Jump
    case JSR => o.mode == ABS && o.flow == CallTo
    case RTS => o.mode == IMP && o.flow == Ret
    case RTI => o.mode == IMP && o.flow == Ret
    case BRK => o.mode == IMP && o.flow == Break
    case WAI => o.mode == IMP && o.flow == Stop
    case STP => o.mode == IMP && o.flow == Stop
    case NOP => (o.mode == IMP || o.mode == IMM || MemoryMode(o.mode)) && o.flow == Normal
  }

  function Row0(lo: nat): OpInfo
    requires lo < 16
  {
    match lo
    case 0 => Op(BRK, IMP, Break)
    case 1 => Op(Value(ORA), IZX, Normal)
    case 2 => Op(NOP, IMM, Normal)
    case 3 => Op(NOP, IMP, Normal)
    case 4 => Op(BitTest(TSB), ZP, Normal)
    case 5 => Op(Value(ORA), ZP, Normal)
    case 6 => Op(Step(ASL), ZP, Normal)
    case 7 => Op(RMB(0), ZP, Normal)
    case 8 => Op(Stack(PHP), IMP, Normal)
    case 9 => Op(Value(ORA), IMM, Normal)
    case 10 => Op(Step(ASL), ACC, Normal)
    case 11 => Op(NOP, IMP, Normal)
    case 12 => Op(BitTest(TSB), ABS, Normal)
    case 13 => Op(Value(ORA), ABS, Normal)
    case 14 => Op(Step(ASL), ABS, Normal)
    case _ => Op(BBR(0), ZPREL, Branch)
  }

  function Row1(lo: nat): OpInfo
    requires lo < 16
  {
    match lo
    case 0 => Op(FlagBranch(BPL), REL, Branch)
    case 1 => Op(Value(ORA), IZY, Normal)
    case 2 => Op(Value(ORA), IZP, Normal)
    case 3 => Op(NOP, IMP, Normal)
    case 4 => Op(BitTest(TRB), ZP, Normal)
    case 5 => Op(Value(ORA), ZPX, Normal)
    case 6 => Op(Step(ASL), ZPX, Normal)
    case 7 => Op(RMB(1), ZP, Normal)
    case 8 => Op(Implied(CLC), IMP, Normal)
    case 9 => Op(Value(ORA), ABY, Normal)
    case 10 => Op(Step(INC), ACC, Normal)
    case 11 => Op(NOP, IMP, Normal)
    case 12 => Op(BitTest(TRB), ABS, Normal)
    case 13 => Op(Value(ORA), ABX, Normal)
    case 14 => Op(Step(ASL), ABX, Normal)
    case _ => Op(BBR(1), ZPREL, Branch)
  }

  function Row2(lo: nat): OpInfo
    requires lo < 16
  {
    match lo
    case 0 => Op(JSR, ABS, CallTo)
    case 1 => Op(Value(AND), IZX, Normal)
    case 2 => Op(NOP, IMM, Normal)
    case 3 => Op(NOP, IMP, Normal)
    case 4 => Op(Value(BIT), ZP, Normal)
    case 5 => Op(Value(AND), ZP, Normal)
    case 6 => Op(Step(ROL), ZP, Normal)
    case 7 => Op(RMB(2), ZP, Normal)
    case 8 => Op(Stack(PLP), IMP, Normal)
    case 9 => Op(Value(AND), IMM, Normal)
    case 10 => Op(Step(ROL), ACC, Normal)
    case 11 => Op(NOP, IMP, Normal)
    case 12 => Op(Value(BIT), ABS, Normal)
    case 13 => Op(Value(AND), ABS, Normal)
    case 14 => Op(Step(ROL), ABS, Normal)
    case _ => Op(BBR(2), ZPREL, Branch)
  }

  function Row3(lo: nat): OpInfo
    requires lo < 16
  {
    match lo
    case 0 => Op(FlagBranch(BMI), REL, Branch)
    case 1 => Op(Value(AND), IZY, Normal)
    case 2 => Op(Value(AND), IZP, Normal)
    case 3 => Op(NOP, IMP, Normal)
    case 4 => Op(Value(BIT), ZPX, Normal)
    case 5 => Op(Value(AND), ZPX, Normal)
    case 6 => Op(Step(ROL), ZPX, Normal)
    case 7 => Op(RMB(3), ZP, Normal)
    case 8 => Op(Implied(SEC), IMP, Normal)
    case 9 => Op(Value(AND), ABY, Normal)
    case 10 => Op(Step(DEC), ACC, Normal)
    case 11 => Op(NOP, IMP, Normal)
    case 12 => Op(Value(BIT), ABX, Normal)
    case 13 => Op(Value(AND), ABX, Normal)
    case 14 => Op(Step(ROL), ABX, Normal)
    case _ => Op(BBR(3), ZPREL, Branch)
  }

  function Row4(lo: nat): OpInfo
    requires lo < 16
  {
    match lo
    case 0 => Op(RTI, IMP, Ret)
    case 1 => Op(Value(EOR), IZX, Normal)
    case 2 => Op(NOP, IMM, Normal)
    case 3 => Op(NOP, IMP, Normal)
    case 4 => Op(NOP, ZP, Normal)
    case 5 => Op(Value(EOR), ZP, Normal)
    case 6 => Op(Step(LSR), ZP, Normal)
    case 7 => Op(RMB(4), ZP, Normal)
    case 8 => Op(Stack(PHA), IMP, Normal)
    case 9 => Op(Value(EOR), IMM, Normal)
    case 10 => Op(Step(LSR), ACC, Normal)
    case 11 => Op(NOP, IMP, Normal)
    case 12 => Op(JMP, ABS, Jump)
    case 13 => Op(Value(EOR), ABS, Normal)
    case 14 => Op(Step(LSR), ABS, Normal)
    case _ => Op(BBR(4), ZPREL, Branch)
  }

  function Row5(lo: nat): OpInfo
    requires lo < 16
  {
    match lo
    case 0 => Op(FlagBranch(BVC), REL, Branch)
    case 1 => Op(Value(EOR), IZY, Normal)
    case 2 => Op(Value(EOR), IZP, Normal)
    case 3 => Op(NOP, IMP, Normal)
    case 4 => Op(NOP, ZPX, Normal)
    case 5 => Op(Value(EOR), ZPX, Normal)
    case 6 => Op(Step(LSR), ZPX, Normal)
    case 7 => Op(RMB(5), ZP, Normal)
    case 8 => Op(Implied(CLI), IMP, Normal)
    case 9 => Op(Value(EOR), ABY, Normal)
    case 10 => Op(Stack(PHY), IMP, Normal)
    case 11 => Op(NOP, IMP, Normal)
    case 12 => Op(NOP, ABS, Normal)
    case 13 => Op(Value(EOR), ABX, Normal)
    case 14 => Op(Step(LSR), ABX, Normal)
    case _ => Op(BBR(5), ZPREL, Branch)
  }

  function Row6(lo: nat): OpInfo
    requires lo < 16
  {
    match lo
    case 0 => Op(RTS, IMP, Ret)
    case 1 => Op(Value(ADC), IZX, Normal)
    case 2 => Op(NOP, IMM, Normal)
    case 3 => Op(NOP, IMP, Normal)
    case 4 => Op(Store(STZ), ZP, Normal)
    case 5 => Op(Value(ADC), ZP, Normal)
    case 6 => Op(Step(ROR), ZP, Normal)
    case 7 => Op(RMB(6), ZP, Normal)
    case 8 => Op(Stack(PLA), IMP, Normal)
    case 9 => Op(Value(ADC), IMM, Normal)
    case 10 => Op(Step(ROR), ACC, Normal)
    case 11 => Op(NOP, IMP, Normal)
    case 12 => Op(JMP, IND, Jump)
    case 13 => Op(Value(ADC), ABS, Normal)
    case 14 => Op(Step(ROR), ABS, Normal)
    case _ => Op(BBR(6), ZPREL, Branch)
  }

  function Row7(lo: nat): OpInfo
    requires lo < 16
  {
    match lo
    case 0 => Op(FlagBranch(BVS), REL, Branch)
    case 1 => Op(Value(ADC), IZY, Normal)
    case 2 => Op(Value(ADC), IZP, Normal)
    case 3 => Op(NOP, IMP, Normal)
    case 4 => Op(Store(STZ), ZPX, Normal)
    case 5 => Op(Value(ADC), ZPX, Normal)
    case 6 => Op(Step(ROR), ZPX, Normal)
    case 7 => Op(RMB(7), ZP, Normal)
    case 8 => Op(Implied(SEI), IMP, Normal)
    case 9 => Op(Value(ADC), ABY, Normal)
    case 10 => Op(Stack(PLY), IMP, Normal)
    case 11 => Op(NOP, IMP, Normal)
    case 12 => Op(JMP, IAX, Jump)
    case 13 => Op(Value(ADC), ABX, Normal)
    case 14 => Op(Step(ROR), ABX, Normal)
    case _ => Op(BBR(7), ZPREL, Branch)
  }

  function Row8(lo: nat): OpInfo
    requires lo < 16
  {
    match lo
    case 0 => Op(BRA, REL, Jump)
    case 1 => Op(Store(STA), IZX, Normal)
    case 2 => Op(NOP, IMM, Normal)
    case 3 => Op(NOP, IMP, Normal)
    case 4 => Op(Store(STY), ZP, Normal)
    case 5 => Op(Store(STA), ZP, Normal)
    case 6 => Op(Store(STX), ZP, Normal)
    case 7 => Op(SMB(0), ZP, Normal)
    case 8 => Op(Implied(DEY), IMP, Normal)
    case 9 => Op(Value(BIT), IMM, Normal)
    case 10 => Op(Implied(TXA), IMP, Normal)
    case 11 => Op(NOP, IMP, Normal)
    case 12 => Op(Store(STY), ABS, Normal)
    case 13 => Op(Store(STA), ABS, Normal)
    case 14 => Op(Store(STX), ABS, Normal)
    case _ => Op(BBS(0), ZPREL, Branch)
  }

  function Row9(lo: nat): OpInfo
    requires lo < 16
  {
    match lo
    case 0 => Op(FlagBranch(BCC), REL, Branch)
    case 1 => Op(Store(STA), IZY, Normal)
    case 2 => Op(Store(STA), IZP, Normal)
    case 3 => Op(NOP, IMP, Normal)
    case 4 => Op(Store(STY), ZPX, Normal)
    case 5 => Op(Store(STA), ZPX, Normal)
    case 6 => Op(Store(STX), ZPY, Normal)
    case 7 => Op(SMB(1), ZP, Normal)
    case 8 => Op(Implied(TYA), IMP, Normal)
    case 9 => Op(Store(STA), ABY, Normal)
    case 10 => Op(Implied(TXS), IMP, Normal)
    case 11 => Op(NOP, IMP, Normal)
    case 12 => Op(Store(STZ), ABS, Normal)
    case 13 => Op(Store(STA), ABX, Normal)
    case 14 => Op(Store(STZ), ABX, Normal)
    case _ => Op(BBS(1), ZPREL, Branch)
  }

  function RowA(lo: nat): OpInfo
    requires lo < 16
  {
    match lo
    case 0 => Op(Value(LDY), IMM, Normal)
    case 1 => Op(Value(LDA), IZX, Normal)
    case 2 => Op(Value(LDX), IMM, Normal)
    case 3 => Op(NOP, IMP, Normal)
    case 4 => Op(Value(LDY), ZP, Normal)
    case 5 => Op(Value(LDA), ZP, Normal)
    case 6 => Op(Value(LDX), ZP, Normal)
    case 7 => Op(SMB(2), ZP, Normal)
    case 8 => Op(Implied(TAY), IMP, Normal)
    case 9 => Op(Value(LDA), IMM, Normal)
    case 10 => Op(Implied(TAX), IMP, Normal)
    case 11 => Op(NOP, IMP, Normal)
    case 12 => Op(Value(LDY), ABS, Normal)
    case 13 => Op(Value(LDA), ABS, Normal)
    case 14 => Op(Value(LDX), ABS, Normal)
    case _ => Op(BBS(2), ZPREL, Branch)
  }

  function RowB(lo: nat): OpInfo
    requires lo < 16
  {
    match lo
    case 0 => Op(FlagBranch(BCS), REL, Branch)
    case 1 => Op(Value(LDA), IZY, Normal)
    case 2 => Op(Value(LDA), IZP, Normal)
    case 3 => Op(NOP, IMP, Normal)
    case 4 => Op(Value(LDY), ZPX, Normal)
    case 5 => Op(Value(LDA), ZPX, Normal)
    case 6 => Op(Value(LDX), ZPY, Normal)
    case 7 => Op(SMB(3), ZP, Normal)
    case 8 => Op(Implied(CLV), IMP, Normal)
    case 9 => Op(Value(LDA), ABY, Normal)
    case 10 => Op(Implied(TSX), IMP, Normal)
    case 11 => Op(NOP, IMP, Normal)
    case 12 => Op(Value(LDY), ABX, Normal)
    case 13 => Op(Value(LDA), ABX, Normal)
    case 14 => Op(Value(LDX), ABY, Normal)
    case _ => Op(BBS(3), ZPREL, Branch)
  }

  function RowC(lo: nat): OpInfo
    requires lo < 16
  {
    match lo
    case 0 => Op(Value(CPY), IMM, Normal)
    case 1 => Op(Value(CMP), IZX, Normal)
    case 2 => Op(NOP, IMM, Normal)
    case 3 => Op(NOP, IMP, Normal)
    case 4 => Op(Value(CPY), ZP, Normal)
    case 5 => Op(Value(CMP), ZP, Normal)
    case 6 => Op(Step(DEC), ZP, Normal)
    case 7 => Op(SMB(4), ZP, Normal)
    case 8 => Op(Implied(INY), IMP, Normal)
    case 9 => Op(Value(CMP), IMM, Normal)
    case 10 => Op(Implied(DEX), IMP, Normal)
    case 11 => Op(WAI, IMP, Stop)
    case 12 => Op(Value(CPY), ABS, Normal)
    case 13 => Op(Value(CMP), ABS, Normal)
    case 14 => Op(Step(DEC), ABS, Normal)
    case _ => Op(BBS(4), ZPREL, Branch)
  }

  function RowD(lo: nat): OpInfo
    requires lo < 16
  {
    match lo
    case 0 => Op(FlagBranch(BNE), REL, Branch)
    case 1 => Op(Value(CMP), IZY, Normal)
    case 2 => Op(Value(CMP), IZP, Normal)
    case 3 => Op(NOP, IMP, Normal)
    case 4 => Op(NOP, ZPX, Normal)
    case 5 => Op(Value(CMP), ZPX, Normal)
    case 6 => Op(Step(DEC), ZPX, Normal)
    case 7 => Op(SMB(5), ZP, Normal)
    case 8 => Op(Implied(CLD), IMP, Normal)
    case 9 => Op(Value(CMP), ABY, Normal)
    case 10 => Op(Stack(PHX), IMP, Normal)
    case 11 => Op(STP, IMP, Stop)
    case 12 => Op(NOP, ABS, Normal)
    case 13 => Op(Value(CMP), ABX, Normal)
    case 14 => Op(Step(DEC), ABX, Normal)
    case _ => Op(BBS(5), ZPREL, Branch)
  }

  function RowE(lo: nat): OpInfo
    requires lo < 16
  {
    match lo
    case 0 => Op(Value(CPX), IMM, Normal)
    case 1 => Op(Value(SBC), IZX, Normal)
    case 2 => Op(NOP, IMM, Normal)
    case 3 => Op(NOP, IMP, Normal)
    case 4 => Op(Value(CPX), ZP, Normal)
    case 5 => Op(Value(SBC), ZP, Normal)
    case 6 => Op(Step(INC), ZP, Normal)
    case 7 => Op(SMB(6), ZP, Normal)
    case 8 => Op(Implied(INX), IMP, Normal)
    case 9 => Op(Value(SBC), IMM, Normal)
    case 10 => Op(NOP, IMP, Normal)
    case 11 => Op(NOP, IMP, Normal)
    case 12 => Op(Value(CPX), ABS, Normal)
    case 13 => Op(Value(SBC), ABS, Normal)
    case 14 => Op(Step(INC), ABS, Normal)
    case _ => Op(BBS(6), ZPREL, Branch)
  }

  function RowF(lo: nat): OpInfo
    requires lo < 16
  {
    match lo
    case 0 => Op(FlagBranch(BEQ), REL, Branch)
    case 1 => Op(Value(SBC), IZY, Normal)
    case 2 => Op(Value(SBC), IZP, Normal)
    case 3 => Op(NOP, IMP, Normal)
    case 4 => Op(NOP, ZPX, Normal)
    case 5 => Op(Value(SBC), ZPX, Normal)
    case 6 => Op(Step(INC), ZPX, Normal)
    case 7 => Op(SMB(7), ZP, Normal)
    case 8 => Op(Implied(SED), IMP, Normal)
    case 9 => Op(Value(SBC), ABY, Normal)
    case 10 => Op(Stack(PLX), IMP, Normal)
    case 11 => Op(NOP, IMP, Normal)
    case 12 => Op(NOP, ABS, Normal)
    case 13 => Op(Value(SBC), ABX, Normal)
    case 14 => Op(Step(INC), ABX, Normal)
    case _ => Op(BBS(7), ZPREL, Branch)
  }

  /** `m65c02_optab`. */
  function Optab(op: u8): OpInfo {
    var lo := op % 16;
    match op / 16
    case 0 => Row0(lo)
    case 1 => Row1(lo)
    case 2 => Row2(lo)
    case 3 => Row3(lo)
    case 4 => Row4(lo)
    case 5 => Row5(lo)
    case 6 => Row6(lo)
    case 7 => Row7(lo)
    case 8 => Row8(lo)
    case 9 => Row9(lo)
    case 10 => RowA(lo)
    case 11 => RowB(lo)
    case 12 => RowC(lo)
    case 13 => RowD(lo)
    case 14 => RowE(lo)
    case _ => RowF(lo)
  }

  function ModeLen(mode: Mode): (n: nat)
    ensures 1 <= n <= 3
  {
    match mode
    case IMP | ACC => 1
    case IMM | ZP | ZPX | ZPY | IZX | IZY | IZP | REL => 2
    case ABS | ABX | ABY | IND | IAX | ZPREL => 3
  }

  /** One decoded instruction. `target` is 0 where the decoder resolves none. */
  datatype Insn = Insn(pc: u16, opcode: u8, len: nat, mode: Mode, flow: Flow,
                       mn: Mnemonic, operand: u16, target: u16)

  /** `(int8_t)b`. */
  function Signed(b: u8): int { if b < 0x80 then b else b - 0x100 }

  /** `m65c02_decode` on the three bytes at `pc`. */
  function DecodeAt(b0: u8, b1: u8, b2: u8, pc: u16): (r: Insn)
    ensures 1 <= r.len <= 3 && r.pc == pc
  {
    var oi := Optab(b0);
    var operand: u16 := match oi.mode
      case IMM | ZP | ZPX | ZPY | IZX | IZY | IZP | REL | ZPREL => b1
      case ABS | ABX | ABY | IND | IAX => LoHi(b1, b2)
      case IMP | ACC => 0;
    var target: u16 := match oi.mode
      case REL => Word(pc + 2 + Signed(b1))
      case ZPREL => Word(pc + 3 + Signed(b2))
      case ABS => if oi.flow.Jump? || oi.flow.CallTo? then operand else 0
      case _ => 0;
    Insn(pc, b0, ModeLen(oi.mode), oi.mode, oi.flow, oi.mn, operand, target)
  }

  // ---- every entry fits ----

  lemma Rows01Fit(lo: nat)
    requires lo < 16
    ensures Fits(Row0(lo)) && Fits(Row1(lo))
  {
  }

  lemma Rows23Fit(lo: nat)
    requires lo < 16
    ensures Fits(Row2(lo)) && Fits(Row3(lo))
  {
  }

  lemma Rows45Fit(lo: nat)
    requires lo < 16
    ensures Fits(Row4(lo)) && Fits(Row5(lo))
  {
  }

  lemma Rows67Fit(lo: nat)
    requires lo < 16
    ensures Fits(Row6(lo)) && Fits(Row7(lo))
  {
  }

  lemma Rows89Fit(lo: nat)
    requires lo < 16
    ensures Fits(Row8(lo)) && Fits(Row9(lo))
  {
  }

  lemma RowsABFit(lo: nat)
    requires lo < 16
    ensures Fits(RowA(lo)) && Fits(RowB(lo))
  {
  }

  lemma RowsCDFit(lo: nat)
    requires lo < 16
    ensures Fits(RowC(lo)) && Fits(RowD(lo))
  {
  }

  lemma RowsEFFit(lo: nat)
    requires lo < 16
    ensures Fits(RowE(lo)) && Fits(RowF(lo))
  {
  }

  lemma OptabFits(op: u8)
    ensures Fits(Optab(op))
  {
    var lo := op % 16;
    match op / 16
    case 0 | 1 => Rows01Fit(lo);
    case 2 | 3 => Rows23Fit(lo);
    case 4 | 5 => Rows45Fit(lo);
    case 6 | 7 => Rows67Fit(lo);
    case 8 | 9 => Rows89Fit(lo);
    case 10 | 11 => RowsABFit(lo);
    case 12 | 13 => RowsCDFit(lo);
    case _ => RowsEFFit(lo);
  }

  /** What the decoder guarantees of an instruction, beyond the table entry. */
  predicate WellFormed(r: Insn) {
    && Fits(Op(r.mn, r.mode, r.flow))
    && r.len == ModeLen(r.mode)
    && (r.flow.CallTo? ==> r.target == r.operand)
    && (r.mode == ABS && r.flow.Jump? ==> r.target == r.operand)
    && (r.mode == IND || r.mode == IAX ==> r.target == 0)
    && (r.len == 2 || r.mode == ZPREL ==> r.operand < 0x100)
  }

  lemma DecodedIsWellFormed(b0: u8, b1: u8, b2: u8, pc: u16)
    ensures WellFormed(DecodeAt(b0, b1, b2, pc))
  {
    OptabFits(b0);
  }

  /** The decoder looks at no byte past the instruction's own length. */
  lemma DecodeReadsOnlyItsLength(b0: u8, b1: u8, b2: u8, c1: u8, c2: u8, pc: u16)
    requires var r := DecodeAt(b0, b1, b2, pc);
             (r.len >= 2 ==> c1 == b1) && (r.len >= 3 ==> c2 == b2)
    ensures DecodeAt(b0, c1, c2, pc) == DecodeAt(b0, b1, b2, pc)
  {
  }
}
