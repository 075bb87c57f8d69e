/** The interpreter as the source has it (tools/m65c02recomp/interp.c): the global CPU state
    `icpu`, updated in place, each operation proved against its meaning in module Interp. */
module Icpu {
  import opened Bytes
  import opened Cpu
  import opened Decode
  import opened Interp

  class InterpCpu {
    var a: u8
    var x: u8
    var y: u8
    var s: u8
    var n: bool
    var v: bool
    var d: bool
    var i: bool
    var z: bool
    var c: bool
    var pc: u16
    const ram: array<u8>

    ghost predicate Valid() { ram.Length == 0x1_0000 }

    ghost function View(): State
      requires Valid()
      reads this, ram
    {
      State(a, x, y, s, n, v, d, i, z, c, ram[..])
    }

    /** `interp_reset_pc`. */
    constructor Reset(ram: array<u8>, pc: u16)
      requires ram.Length == 0x1_0000
      ensures Valid() && this.ram == ram && this.pc == pc
      ensures View() == State(0, 0, 0, 0xFF, false, false, false, true, false, false, ram[..])
    {
      a, x, y, s := 0, 0, 0, 0xFF;
      n, v, d, i, z, c := false, false, false, true, false, false;
      this.ram, this.pc := ram, pc;
    }

    method BusWrite(addr: u16, val: u8)
      requires Valid()
      modifies ram
      ensures View() == Write(old(View()), addr, val)
    {
      ram[addr] := val;
    }

    method Rd16(addr: u16) returns (w: u16)
      requires Valid()
      ensures w == Read16(View(), addr)
    {
      w := LoHi(ram[addr], ram[Word(addr + 1)]);
    }

    method SetFlagsNz(r: u8)
      requires Valid()
      modifies `z, `n
      ensures View() == SetNz(old(View()), r)
    {
      z := r == 0;
      n := Bit(r, 7);
    }

    method PushByte(r: u8)
      requires Valid()
      modifies `s, ram
      ensures View() == Push(old(View()), r)
    {
      BusWrite(0x100 + s, r);
      s := Byte(s - 1);
    }

    method PullByte() returns (r: u8)
      requires Valid()
      modifies `s
      ensures View() == Dropped(old(View())) && r == Top(old(View()))
    {
      s := Byte(s + 1);
      r := ram[0x100 + s];
    }

    method Unpack(p: u8)
      requires Valid()
      modifies this
      ensures View() == UnpackP(old(View()), p) && pc == old(pc)
    {
      n, v, d := (p / 0x80) % 2 == 1, (p / 0x40) % 2 == 1, (p / 8) % 2 == 1;
      i, z, c := (p / 4) % 2 == 1, (p / 2) % 2 == 1, p % 2 == 1;
    }

    method EaOf(r: Insn) returns (e: u16)
      requires Valid()
      ensures e == Ea(r, View())
    {
      match r.mode
      case ZP => e := r.operand;
      case ZPX => e := Byte(r.operand + x);
      case ZPY => e := Byte(r.operand + y);
      case ABS => e := r.operand;
      case ABX => e := Word(r.operand + x);
      case ABY => e := Word(r.operand + y);
      case IZX =>
        var p: int := Byte(r.operand + x);
        e := LoHi(ram[p], ram[Byte(p + 1)]);
      case IZY =>
        var p: int := Byte(r.operand);
        e := Word(LoHi(ram[p], ram[Byte(p + 1)]) + y);
      case IZP =>
        var p: int := Byte(r.operand);
        e := LoHi(ram[p], ram[Byte(p + 1)]);
      case _ => e := 0;
    }

    method OpAdc(r: u8)
      requires Valid()
      modifies this
      ensures View() == DoValue(ADC, false, r, old(View())) && pc == old(pc)
    {
      var sum := Carried(a, r, Num(c), d);
      v, c, a := sum.v, sum.c, sum.r;
      SetFlagsNz(a);
    }

    method OpSbc(r: u8)
      requires Valid()
      modifies this
      ensures View() == DoValue(SBC, false, r, old(View())) && pc == old(pc)
    {
      var diff := Borrowed(a, r, Num(c), d);
      v, c, a := diff.v, diff.c, diff.r;
      SetFlagsNz(a);
    }

    method CompareWith(reg: u8, r: u8)
      requires Valid()
      modifies this
      ensures View() == Compare(old(View()), reg, r) && pc == old(pc)
    {
      c := reg >= r;
      SetFlagsNz(Byte(reg - r));
    }

    method OnLogic(op: ValueOp, r: u8)
      requires Valid() && (op.ORA? || op.AND? || op.EOR?)
      modifies this
      ensures View() == DoValue(op, false, r, old(View())) && pc == old(pc)
    {
      a := if op.ORA? then Or(a, r) else if op.AND? then And(a, r) else Xor(a, r);
      SetFlagsNz(a);
    }

    method OnBit(imm: bool, r: u8)
      requires Valid()
      modifies this
      ensures View() == DoValue(BIT, imm, r, old(View())) && pc == old(pc)
    {
      z := And(a, r) == 0;
      if !imm { n, v := Bit(r, 7), Bit(r, 6); }
    }

    method OnValue(op: ValueOp, imm: bool, r: u8)
      requires Valid()
      modifies this
      ensures View() == DoValue(op, imm, r, old(View())) && pc == old(pc)
    {
      match op
      case LDA => a := r; SetFlagsNz(a);
      case LDX => x := r; SetFlagsNz(x);
      case LDY => y := r; SetFlagsNz(y);
      case ORA | AND | EOR => OnLogic(op, r);
      case ADC => OpAdc(r);
      case SBC => OpSbc(r);
      case CMP => CompareWith(a, r);
      case CPX => CompareWith(x, r);
      case CPY => CompareWith(y, r);
      case BIT => OnBit(imm, r);
    }

    method OnStep(op: StepOp, r: u8) returns (w: u8)
      requires Valid()
      modifies this
      ensures View() == DoStep(op, r, old(View())).0 && w == DoStep(op, r, old(View())).1 && pc == old(pc)
    {
      match op {
        case INC => w := Byte(r + 1);
        case DEC => w := Byte(r - 1);
        case ASL => c, w := Bit(r, 7), Byte(r * 2);
        case LSR => c, w := Bit(r, 0), r / 2;
        case ROL => c, w := Bit(r, 7), Byte(r * 2 + Num(c));
        case ROR => c, w := Bit(r, 0), Byte(r / 2 + 0x80 * Num(c));
      }
      SetFlagsNz(w);
    }

    method OnTest(op: TestOp, r: u8) returns (w: u8)
      requires Valid()
      modifies `z
      ensures View() == DoTest(op, r, old(View())).0 && w == DoTest(op, r, old(View())).1
    {
      z := And(a, r) == 0;
      w := if op.TSB? then Or(r, a) else And(r, 0xFF - a);
    }

    method OnIndex(op: ImpliedOp)
      requires Valid() && (op.INX? || op.INY? || op.DEX? || op.DEY?)
      modifies this
      ensures View() == DoImplied(op, old(View())) && pc == old(pc)
    {
      match op
      case INX => x := Byte(x + 1); SetFlagsNz(x);
      case INY => y := Byte(y + 1); SetFlagsNz(y);
      case DEX => x := Byte(x - 1); SetFlagsNz(x);
      case DEY => y := Byte(y - 1); SetFlagsNz(y);
    }

    method OnMove(op: ImpliedOp)
      requires Valid() && (op.TAX? || op.TAY? || op.TXA? || op.TYA? || op.TSX? || op.TXS?)
      modifies this
      ensures View() == DoImplied(op, old(View())) && pc == old(pc)
    {
      hide SetNz;
      match op
      case TAX => x := a; SetFlagsNz(x);
      case TAY => y := a; SetFlagsNz(y);
      case TXA => a := x; SetFlagsNz(a);
      case TYA => a := y; SetFlagsNz(a);
      case TSX => x := s; SetFlagsNz(x);
      case TXS => s := x;
    }

    method OnImplied(op: ImpliedOp)
      requires Valid()
      modifies this
      ensures View() == DoImplied(op, old(View())) && pc == old(pc)
    {
      match op
      case INX | INY | DEX | DEY => OnIndex(op);
      case TAX | TAY | TXA | TYA | TSX | TXS => OnMove(op);
      case CLC => c := false;
      case SEC => c := true;
      case CLI => i := false;
      case SEI => i := true;
      case CLD => d := false;
      case SED => d := true;
      case CLV => v := false;
    }

    method OnStack(op: StackOp)
      requires Valid()
      modifies this, ram
      ensures View() == DoStack(op, old(View())) && pc == old(pc)
    {
      match op
      case PHA => PushByte(a);
      case PHX => PushByte(x);
      case PHY => PushByte(y);
      case PHP => PushByte(Or(Packed(), 0x10));
      case PLA => a := PullByte(); SetFlagsNz(a);
      case PLX => x := PullByte(); SetFlagsNz(x);
      case PLY => y := PullByte(); SetFlagsNz(y);
      case PLP => var p := PullByte(); Unpack(p);
    }

    /** `pack_p`. */
    function Packed(): (p: u8)
      requires Valid()
      reads this, ram
      ensures p == PackP(View())
    {
      0x80 * Num(n) + 0x40 * Num(v) + 0x30 + 0x08 * Num(d) + 0x04 * Num(i) + 0x02 * Num(z) + Num(c)
    }

    method PushWord16(w: u16)
      requires Valid()
      modifies `s, ram
      ensures View() == PushWord(old(View()), w)
    {
      PushByte(w / 0x100);
      PushByte(w % 0x100);
    }

    method PullWord() returns (w: u16)
      requires Valid()
      modifies `s
      ensures View() == Dropped(Dropped(old(View()))) && w == TopWord(old(View()))
    {
      var lo := PullByte();
      var hi := PullByte();
      w := LoHi(lo, hi);
    }

    /** Instructions with a memory operand or on A. */
    method OnOperand(r: Insn)
      requires Valid() && (r.mn.Value? || r.mn.Store? || r.mn.Step? || r.mn.BitTest?)
      modifies this, ram
      ensures View() == Effect(r, old(View())) && pc == old(pc)
    {
      var e := EaOf(r);
      match r.mn {
        case Value(op) =>
          OnValue(op, r.mode == IMM, if r.mode == IMM then Byte(r.operand) else ram[e]);
        case Store(op) =>
          BusWrite(e, match op case STA => a case STX => x case STY => y case STZ => 0);
        case Step(op) =>
          if r.mode == ACC {
            a := OnStep(op, a);
          } else {
            var w := OnStep(op, ram[e]);
            BusWrite(e, w);
          }
        case BitTest(op) =>
          var w := OnTest(op, ram[e]);
          BusWrite(e, w);
      }
    }

    /** Is the zero-page bit of a Rockwell instruction set? */
    method TestZpBit(r: Insn, b: nat) returns (on: bool)
      requires Valid()
      ensures on == ZpBit(r, b, View())
    {
      on := b < 8 && And(ram[Byte(r.operand)], Mask(b)) != 0;
    }

    method OnRti() returns (next: u16)
      requires Valid()
      modifies this
      ensures View() == FromIrq(old(View())) && next == TopWord(Dropped(old(View()))) && pc == old(pc)
    {
      var p := PullByte();
      Unpack(p);
      next := PullWord();
    }

    method EnterHandler(ret: u16, p: u8)
      requires Valid()
      modifies this, ram
      ensures View() == HandlerEntry(old(View()), ret, p) && pc == old(pc)
    {
      PushWord16(ret);
      PushByte(p);
      i, d := true, false;
    }

    method OnBrk(at: u16) returns (next: u16)
      requires Valid()
      modifies this, ram
      ensures View() == BrkEntry(old(View()), at) && next == Read16(View(), 0xFFFE) && pc == old(pc)
    {
      EnterHandler(Word(at + 2), Or(Packed(), 0x10));
      next := Rd16(0xFFFE);
    }

    /** `interp_irq`. */
    method InterpIrq()
      requires Valid()
      modifies this, ram
      ensures Config(View(), pc) == Interp.Irq(old(Config(View(), pc)))
    {
      EnterHandler(pc, And(Packed(), 0xEF));
      pc := Rd16(0xFFFE);
    }

    method OnJump(r: Insn) returns (next: u16)
      requires Valid() && r.mn.JMP?
      ensures View() == Effect(r, View()) && next == NextPc(r, View())
    {
      if r.mode == IND { next := Rd16(r.operand); }
      else if r.mode == IAX { next := Rd16(Word(r.operand + x)); }
      else { next := r.operand; }
    }

    method OnSubroutine(r: Insn) returns (next: u16)
      requires Valid() && (r.mn.JSR? || r.mn.RTS?)
      modifies this, ram
      ensures View() == Effect(r, old(View())) && next == NextPc(r, old(View())) && pc == old(pc)
    {
      if r.mn.JSR? {
        PushWord16(Word(r.pc + 2));
        next := r.operand;
      } else {
        var w: int := PullWord();
        next := Word(w + 1);
      }
    }

    method OnBranch(r: Insn) returns (next: u16)
      requires Valid() && (r.mn.FlagBranch? || r.mn.BBR? || r.mn.BBS? || r.mn.BRA?)
      ensures View() == Effect(r, View()) && next == NextPc(r, View())
    {
      hide ZpBit;
      var taken := true;
      match r.mn {
        case FlagBranch(op) => taken := Taken(op);
        case BBR(b) => taken := TestZpBit(r, b); taken := !taken;
        case BBS(b) => taken := TestZpBit(r, b);
        case BRA =>
      }
      next := if taken then r.target else Word(r.pc + r.len);
    }

    method Taken(op: BranchOp) returns (b: bool)
      requires Valid()
      ensures b == FlagTaken(op, View())
    {
      match op
      case BPL => b := !n;
      case BMI => b := n;
      case BVC => b := !v;
      case BVS => b := v;
      case BCC => b := !c;
      case BCS => b := c;
      case BNE => b := !z;
      case BEQ => b := z;
    }

    method OnZpBit(r: Insn)
      requires Valid() && (r.mn.RMB? || r.mn.SMB?)
      modifies ram
      ensures View() == Effect(r, old(View()))
    {
      hide Mask, And, Or;
      var zp, b := Byte(r.operand), r.mn.bit;
      if b < 8 {
        BusWrite(zp, if r.mn.SMB? then Or(ram[zp], Mask(b)) else And(ram[zp], 0xFF - Mask(b)));
      }
    }

    /** Runs a decoded instruction and returns the next program counter. */
    method Perform(r: Insn) returns (next: u16)
      requires Valid()
      modifies this, ram
      ensures View() == Effect(r, old(View())) && next == NextPc(r, old(View())) && pc == old(pc)
    {
      next := Word(r.pc + r.len);
      match r.mn {
        case Value(_) => OnOperand(r);
        case Store(_) => OnOperand(r);
        case Step(_) => OnOperand(r);
        case BitTest(_) => OnOperand(r);
        case RMB(_) => OnZpBit(r);
        case SMB(_) => OnZpBit(r);
        case Implied(op) => OnImplied(op);
        case Stack(op) => OnStack(op);
        case FlagBranch(_) => next := OnBranch(r);
        case BBR(_) => next := OnBranch(r);
        case BBS(_) => next := OnBranch(r);
        case BRA => next := OnBranch(r);
        case JMP => next := OnJump(r);
        case JSR => next := OnSubroutine(r);
        case RTS => next := OnSubroutine(r);
        case RTI => next := OnRti();
        case BRK => next := OnBrk(r.pc);
        case WAI | STP | NOP =>
      }
    }

    method FetchInsn() returns (r: Insn)
      requires Valid()
      ensures r == Fetch(Config(View(), pc))
    {
      r := DecodeAt(ram[pc], ram[Word(pc + 1)], ram[Word(pc + 2)], pc);
    }

    /** `interp_step`. */
    method InterpStep()
      requires Valid()
      modifies this, ram
      ensures Config(View(), pc) == Interp.Step(old(Config(View(), pc)))
    {
      var r := FetchInsn();
      pc := Perform(r);
    }
  }
}
