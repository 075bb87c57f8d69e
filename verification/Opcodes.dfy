/** The instruction set by its encoding scheme, column by column, against the opcode table of
    tools/m65c02recomp/decode.c, which lists it row by row; and what the decoder reads from the
    bytes after the opcode. */
module Opcodes {
  import opened Bytes
  import opened Decode

  const BRANCHES: seq<BranchOp> := [BPL, BMI, BVC, BVS, BCC, BCS, BNE, BEQ]

  /** The accumulator group, by the top three bits of the opcode. */
  const GROUP_A: seq<Mnemonic> :=
    [Value(ORA), Value(AND), Value(EOR), Value(ADC), Store(STA), Value(LDA), Value(CMP), Value(SBC)]

  /** Its modes, by the next three. */
  const MODES_A: seq<Mode> := [IZX, ZP, IMM, ABS, IZY, ZPX, ABY, ABX]

  /** The group of shifts and of X, by the top three bits. */
  const GROUP_X: seq<Mnemonic> :=
    [Step(ASL), Step(ROL), Step(LSR), Step(ROR), Store(STX), Value(LDX), Step(DEC), Step(INC)]

  /** One-byte instructions of columns 8 and 10, and control transfers of column 0, by row. */
  const COLUMN_8: seq<Mnemonic> :=
    [Stack(PHP), Implied(CLC), Stack(PLP), Implied(SEC), Stack(PHA), Implied(CLI), Stack(PLA), Implied(SEI),
     Implied(DEY), Implied(TYA), Implied(TAY), Implied(CLV), Implied(INY), Implied(CLD), Implied(INX), Implied(SED)]

  const COLUMN_10: seq<Mnemonic> :=
    [Step(ASL), Step(INC), Step(ROL), Step(DEC), Step(LSR), Stack(PHY), Step(ROR), Stack(PLY),
     Implied(TXA), Implied(TXS), Implied(TAX), Implied(TSX), Implied(DEX), Stack(PHX), NOP, Stack(PLX)]

  /** The bit, test and index-register group of columns 4 and 12, by row. */
  const GROUP_Y: seq<Mnemonic> :=
    [BitTest(TSB), BitTest(TRB), Value(BIT), Value(BIT), NOP, NOP, Store(STZ), Store(STZ),
     Store(STY), Store(STY), Value(LDY), Value(LDY), Value(CPY), NOP, Value(CPX), NOP]

  /** Even rows use the plain modes and odd rows the indexed ones, by Y for the X register. */
  function IndexedBy(m: Mnemonic, odd: bool, wide: bool): Mode {
    var byY := m == Store(STX) || m == Value(LDX);
    if wide then (if !odd then ABS else if byY then ABY else ABX)
    else if !odd then ZP else if byY then ZPY else ZPX
  }

  function Plain(m: Mnemonic, mode: Mode): OpInfo { Op(m, mode, Normal) }

  function Column0(hi: nat): OpInfo
    requires hi < 16
  {
    if hi % 2 == 1 then Op(FlagBranch(BRANCHES[hi / 2]), REL, Branch)
    else match hi
      case 0 => Op(BRK, IMP, Break)
      case 2 => Op(JSR, ABS, CallTo)
      case 4 => Op(RTI, IMP, Ret)
      case 6 => Op(RTS, IMP, Ret)
      case 8 => Op(BRA, REL, Jump)
      case 10 => Plain(Value(LDY), IMM)
      case 12 => Plain(Value(CPY), IMM)
      case _ => Plain(Value(CPX), IMM)
  }

  /** Column 4, zero page; TRB has no indexed form. */
  function Column4(hi: nat): OpInfo
    requires hi < 16
  {
    var m := GROUP_Y[hi];
    Plain(m, if hi == 1 then ZP else IndexedBy(m, hi % 2 == 1, false))
  }

  /** Column 12, absolute, with the two computed jumps and STZ out of line. */
  function Column12(hi: nat): OpInfo
    requires hi < 16
  {
    match hi
    case 1 => Plain(BitTest(TRB), ABS)
    case 4 => Op(JMP, ABS, Jump)
    case 5 => Plain(NOP, ABS)
    case 6 => Op(JMP, IND, Jump)
    case 7 => Op(JMP, IAX, Jump)
    case 9 => Plain(Store(STZ), ABS)
    case 13 => Plain(NOP, ABS)
    case 15 => Plain(NOP, ABS)
    case _ => Plain(GROUP_Y[hi], IndexedBy(GROUP_Y[hi], hi % 2 == 1, true))
  }

  /** The instruction set. */
  function ByColumn(op: u8): OpInfo {
    var hi, lo := op / 16, op % 16;
    if lo % 4 == 1 then
      if op == 0x89 then Plain(Value(BIT), IMM) else Plain(GROUP_A[hi / 2], MODES_A[op / 4 % 8])
    else if lo == 2 then
      if hi % 2 == 1 then Plain(GROUP_A[hi / 2], IZP)
      else if hi == 10 then Plain(Value(LDX), IMM)
      else Plain(NOP, IMM)
    else if lo == 6 || lo == 14 then
      if op == 0x9E then Plain(Store(STZ), ABX)
      else Plain(GROUP_X[hi / 2], IndexedBy(GROUP_X[hi / 2], hi % 2 == 1, lo == 14))
    else if lo == 7 then Plain(if hi < 8 then RMB(hi) else SMB(hi - 8), ZP)
    else if lo == 15 then Op(if hi < 8 then BBR(hi) else BBS(hi - 8), ZPREL, Branch)
    else if lo == 3 then Plain(NOP, IMP)
    else if lo == 11 then
      if hi == 12 then Op(WAI, IMP, Stop) else if hi == 13 then Op(STP, IMP, Stop) else Plain(NOP, IMP)
    else if lo == 8 then Plain(COLUMN_8[hi], IMP)
    else if lo == 10 then Plain(COLUMN_10[hi], if COLUMN_10[hi].Step? then ACC else IMP)
    else if lo == 0 then Column0(hi)
    else if lo == 4 then Column4(hi)
    else Column12(hi)
  }

  /** How long an instruction is, by its column: two bytes up to column 7, one or three after it. */
  function LengthByColumn(op: u8): nat {
    var hi, lo := op / 16, op % 16;
    if lo == 0 then if hi == 2 then 3 else if hi == 0 || hi == 4 || hi == 6 then 1 else 2
    else if lo == 3 || lo == 8 || lo == 10 || lo == 11 then 1
    else if lo < 8 then 2
    else if lo == 9 then if hi % 2 == 0 then 2 else 3
    else 3
  }

  lemma Row0IsScheme(lo: nat)
    requires lo < 16
    ensures Row0(lo) == ByColumn(0 + lo) && ModeLen(Row0(lo).mode) == LengthByColumn(0 + lo)
  {
  }

  lemma Row1IsScheme(lo: nat)
    requires lo < 16
    ensures Row1(lo) == ByColumn(16 + lo) && ModeLen(Row1(lo).mode) == LengthByColumn(16 + lo)
  {
  }

  lemma Row2IsScheme(lo: nat)
    requires lo < 16
    ensures Row2(lo) == ByColumn(32 + lo) && ModeLen(Row2(lo).mode) == LengthByColumn(32 + lo)
  {
  }

  lemma Row3IsScheme(lo: nat)
    requires lo < 16
    ensures Row3(lo) == ByColumn(48 + lo) && ModeLen(Row3(lo).mode) == LengthByColumn(48 + lo)
  {
  }

  lemma Row4IsScheme(lo: nat)
    requires lo < 16
    ensures Row4(lo) == ByColumn(64 + lo) && ModeLen(Row4(lo).mode) == LengthByColumn(64 + lo)
  {
  }

  lemma Row5IsScheme(lo: nat)
    requires lo < 16
    ensures Row5(lo) == ByColumn(80 + lo) && ModeLen(Row5(lo).mode) == LengthByColumn(80 + lo)
  {
  }

  lemma Row6IsScheme(lo: nat)
    requires lo < 16
    ensures Row6(lo) == ByColumn(96 + lo) && ModeLen(Row6(lo).mode) == LengthByColumn(96 + lo)
  {
  }

  lemma Row7IsScheme(lo: nat)
    requires lo < 16
    ensures Row7(lo) == ByColumn(112 + lo) && ModeLen(Row7(lo).mode) == LengthByColumn(112 + lo)
  {
  }

  lemma Row8IsScheme(lo: nat)
    requires lo < 16
    ensures Row8(lo) == ByColumn(128 + lo) && ModeLen(Row8(lo).mode) == LengthByColumn(128 + lo)
  {
  }

  lemma Row9IsScheme(lo: nat)
    requires lo < 16
    ensures Row9(lo) == ByColumn(144 + lo) && ModeLen(Row9(lo).mode) == LengthByColumn(144 + lo)
  {
  }

  lemma RowAIsScheme(lo: nat)
    requires lo < 16
    ensures RowA(lo) == ByColumn(160 + lo) && ModeLen(RowA(lo).mode) == LengthByColumn(160 + lo)
  {
  }

  lemma RowBIsScheme(lo: nat)
    requires lo < 16
    ensures RowB(lo) == ByColumn(176 + lo) && ModeLen(RowB(lo).mode) == LengthByColumn(176 + lo)
  {
  }

  lemma RowCIsScheme(lo: nat)
    requires lo < 16
    ensures RowC(lo) == ByColumn(192 + lo) && ModeLen(RowC(lo).mode) == LengthByColumn(192 + lo)
  {
  }

  lemma RowDIsScheme(lo: nat)
    requires lo < 16
    ensures RowD(lo) == ByColumn(208 + lo) && ModeLen(RowD(lo).mode) == LengthByColumn(208 + lo)
  {
  }

  lemma RowEIsScheme(lo: nat)
    requires lo < 16
    ensures RowE(lo) == ByColumn(224 + lo) && ModeLen(RowE(lo).mode) == LengthByColumn(224 + lo)
  {
  }

  lemma RowFIsScheme(lo: nat)
    requires lo < 16
    ensures RowF(lo) == ByColumn(240 + lo) && ModeLen(RowF(lo).mode) == LengthByColumn(240 + lo)
  {
  }

  /** Row by row or column by column, the table is the same: all 256 opcodes. */
  lemma OptabIsScheme(op: u8)
    ensures Optab(op) == ByColumn(op) && ModeLen(Optab(op).mode) == LengthByColumn(op)
  {
    hide ByColumn, LengthByColumn, ModeLen;
    var lo := op % 16;
    assert op == 16 * (op / 16) + lo;
    match op / 16
    case 0 => Row0IsScheme(lo);
    case 1 => Row1IsScheme(lo);
    case 2 => Row2IsScheme(lo);
    case 3 => Row3IsScheme(lo);
    case 4 => Row4IsScheme(lo);
    case 5 => Row5IsScheme(lo);
    case 6 => Row6IsScheme(lo);
    case 7 => Row7IsScheme(lo);
    case 8 => Row8IsScheme(lo);
    case 9 => Row9IsScheme(lo);
    case 10 => RowAIsScheme(lo);
    case 11 => RowBIsScheme(lo);
    case 12 => RowCIsScheme(lo);
    case 13 => RowDIsScheme(lo);
    case 14 => RowEIsScheme(lo);
    case _ => RowFIsScheme(lo);
  }

  // ---- operands ----

  /** Operands: little-endian words, zero-extended bytes, and 0 where there is none. */
  lemma DecodedFields(b0: u8, b1: u8, b2: u8, pc: u16)
    ensures var r := DecodeAt(b0, b1, b2, pc);
            && r.opcode == b0 && r.pc == pc && r.mn == ByColumn(b0).mn && r.mode == ByColumn(b0).mode
            && r.len == LengthByColumn(b0)
            && r.operand == (if r.len == 1 then 0 else if r.len == 2 || r.mode == ZPREL then b1 else b1 + 256 * b2)
  {
    hide Optab, ByColumn, LengthByColumn;
    OptabIsScheme(b0);
  }

  /** Targets: a signed distance from the next instruction, for the branch on a bit from its third
      byte; the operand of a direct jump or call; 0 otherwise. */
  lemma DecodedTargets(b0: u8, b1: u8, b2: u8, pc: u16)
    ensures var r := DecodeAt(b0, b1, b2, pc);
            && (r.mode == REL ==> (r.target - (pc + 2)) % 0x1_0000 == if b1 < 0x80 then b1 else 0xFF00 + b1)
            && (r.mode == ZPREL ==> (r.target - (pc + 3)) % 0x1_0000 == if b2 < 0x80 then b2 else 0xFF00 + b2)
    ensures var r := DecodeAt(b0, b1, b2, pc);
            && (r.mn.JSR? || (r.mn.JMP? && r.mode == ABS) ==> r.target == b1 + 256 * b2)
            && (r.mode != REL && r.mode != ZPREL && !r.mn.JSR? && !r.mn.JMP? ==> r.target == 0)
            && (r.mode == IND || r.mode == IAX ==> r.target == 0)
  {
    hide Optab;
    OptabFits(b0);
  }
}
