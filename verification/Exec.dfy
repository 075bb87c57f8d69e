/** The statements of a recompiled function run in place on `lynx_cpu` by the helpers of
    include/lynxrecomp/recomp_rt.h, and leave the machine as the interpreter would. */
module Exec {
  import opened Bytes
  import opened Cpu
  import opened Decode
  import opened Runtime
  import opened Target
  import opened Emit
  import Interp

  method EvalExpr(cpu: LynxCpu, e: Expr) returns (r: int)
    requires cpu.Valid()
    ensures r == Eval(e, cpu.View())
  {
    match e
    case Lit(n) => r := n;
    case RegA => r := cpu.a;
    case RegX => r := cpu.x;
    case RegY => r := cpu.y;
    case U8(t) => r := EvalExpr(cpu, t); r := Byte(r);
    case U16(t) => r := EvalExpr(cpu, t); r := Word(r);
    case Plus(t, u) =>
      r := EvalExpr(cpu, t);
      var q := EvalExpr(cpu, u);
      r := r + q;
    case ZpPtr(t) => r := EvalExpr(cpu, t); r := cpu.ZpPtrOf(Byte(r));
    case MemRead(t) => r := EvalExpr(cpu, t); r := cpu.MemRead(Word(r));
    case MemRead16(t) => r := EvalExpr(cpu, t); r := cpu.MemRead16(Word(r));
  }

  method RunIndex(cpu: LynxCpu, h: Helper)
    requires cpu.Valid() && (h.Inx? || h.Iny? || h.Dex? || h.Dey? || h.IncA? || h.DecA?)
    modifies cpu
    ensures cpu.View() == CallHelper(h, old(cpu.View()))
  {
    hide SetNz;
    match h
    case Inx => cpu.x := Byte(cpu.x + 1); cpu.LynxSetNz(cpu.x);
    case Iny => cpu.y := Byte(cpu.y + 1); cpu.LynxSetNz(cpu.y);
    case Dex => cpu.x := Byte(cpu.x - 1); cpu.LynxSetNz(cpu.x);
    case Dey => cpu.y := Byte(cpu.y - 1); cpu.LynxSetNz(cpu.y);
    case IncA => cpu.a := Byte(cpu.a + 1); cpu.LynxSetNz(cpu.a);
    case DecA => cpu.a := Byte(cpu.a - 1); cpu.LynxSetNz(cpu.a);
  }

  method RunMove(cpu: LynxCpu, h: Helper)
    requires cpu.Valid() && (h.Tax? || h.Tay? || h.Txa? || h.Tya? || h.Tsx? || h.Txs?)
    modifies cpu
    ensures cpu.View() == CallHelper(h, old(cpu.View()))
  {
    hide SetNz;
    match h
    case Tax => cpu.x := cpu.a; cpu.LynxSetNz(cpu.x);
    case Tay => cpu.y := cpu.a; cpu.LynxSetNz(cpu.y);
    case Txa => cpu.a := cpu.x; cpu.LynxSetNz(cpu.a);
    case Tya => cpu.a := cpu.y; cpu.LynxSetNz(cpu.a);
    case Tsx => cpu.x := cpu.s; cpu.LynxSetNz(cpu.x);
    case Txs => cpu.s := cpu.x;
  }

  method RunPush(cpu: LynxCpu, h: Helper)
    requires cpu.Valid() && (h.Pha? || h.Phx? || h.Phy? || h.Php?)
    modifies cpu, cpu.ram
    ensures cpu.View() == CallHelper(h, old(cpu.View()))
  {
    hide Push, PPack;
    match h
    case Pha => cpu.LynxPush(cpu.a);
    case Phx => cpu.LynxPush(cpu.x);
    case Phy => cpu.LynxPush(cpu.y);
    case Php => var p := cpu.LynxPPack(); cpu.LynxPush(p);
  }

  method RunPull(cpu: LynxCpu, h: Helper)
    requires cpu.Valid() && (h.Pla? || h.Plx? || h.Ply? || h.Plp?)
    modifies cpu
    ensures cpu.View() == CallHelper(h, old(cpu.View()))
  {
    hide Pull, SetNz, PUnpack;
    var r := cpu.LynxPull();
    match h
    case Pla => cpu.LynxLda(r);
    case Plx => cpu.LynxLdx(r);
    case Ply => cpu.LynxLdy(r);
    case Plp => cpu.LynxPUnpack(r);
  }

  method RunHelper(cpu: LynxCpu, h: Helper)
    requires cpu.Valid()
    modifies cpu, cpu.ram
    ensures cpu.View() == CallHelper(h, old(cpu.View()))
  {
    hide CallHelper;
    match h
    case Inx | Iny | Dex | Dey | IncA | DecA => RunIndex(cpu, h);
    case Tax | Tay | Txa | Tya | Tsx | Txs => RunMove(cpu, h);
    case Pha | Phx | Phy | Php => RunPush(cpu, h);
    case _ => RunPull(cpu, h);
  }

  method RunByteHelper(cpu: LynxCpu, g: ByteHelper, r: u8)
    requires cpu.Valid()
    modifies cpu
    ensures cpu.View() == CallByteHelper(g, r, old(cpu.View()))
  {
    hide Runtime.Lda, Runtime.Ldx, Runtime.Ldy, Runtime.Ora, Runtime.AndA, Runtime.Eor, Runtime.Adc,
         Runtime.Sbc, Runtime.CmpReg, Runtime.BitMem;
    match g
    case Lda => cpu.LynxLda(r);
    case Ldx => cpu.LynxLdx(r);
    case Ldy => cpu.LynxLdy(r);
    case Ora => cpu.LynxOra(r);
    case AndA => cpu.LynxAnd(r);
    case Eor => cpu.LynxEor(r);
    case Adc => cpu.LynxAdc(r);
    case Sbc => cpu.LynxSbc(r);
    case Cmp => cpu.LynxCmpReg(cpu.a, r);
    case Cpx => cpu.LynxCmpReg(cpu.x, r);
    case Cpy => cpu.LynxCmpReg(cpu.y, r);
    case BitV => cpu.LynxBit(r);
    case BitImm => cpu.z := And(cpu.a, r) == 0;
  }

  /** The value transformers: flags in place, the new value returned. */
  method RunAlu(cpu: LynxCpu, alu: Alu, r: u8) returns (w: u8)
    requires cpu.Valid()
    modifies cpu
    ensures (cpu.View(), w) == CallAlu(alu, r, old(cpu.View()))
  {
    hide SetNz, And, Or;
    match alu
    case AluInc => w := Byte(r + 1); cpu.LynxSetNz(w);
    case AluDec => w := Byte(r - 1); cpu.LynxSetNz(w);
    case AluAsl => cpu.c, w := Bit(r, 7), Byte(2 * r); cpu.LynxSetNz(w);
    case AluLsr => cpu.c, w := Bit(r, 0), r / 2; cpu.LynxSetNz(w);
    case AluRol => w := cpu.LynxAluRol(r);
    case AluRor => w := cpu.LynxAluRor(r);
    case AluTsb => cpu.z, w := And(cpu.a, r) == 0, Or(r, cpu.a);
    case AluTrb => cpu.z, w := And(cpu.a, r) == 0, And(r, 0xFF - cpu.a);
  }

  method RunSetFlag(cpu: LynxCpu, f: Flag, on: bool)
    requires cpu.Valid()
    modifies cpu
    ensures cpu.View() == Run(SetFlag(f, on), old(cpu.View()))
  {
    match f
    case FN => cpu.n := on;
    case FV => cpu.v := on;
    case FD => cpu.d := on;
    case FI => cpu.i := on;
    case FZ => cpu.z := on;
    case FC => cpu.c := on;
  }

  method RunStmt(cpu: LynxCpu, s: Stmt)
    requires cpu.Valid()
    modifies cpu, cpu.ram
    ensures cpu.View() == Run(s, old(cpu.View()))
  {
    hide CallHelper, CallByteHelper, CallAlu, Eval, Mask, And, Or, Holds, Rti;
    match s
    case SetFlag(f, on) => RunSetFlag(cpu, f, on);
    case Call0(h) => RunHelper(cpu, h);
    case Call1(g, e) =>
      var r := EvalExpr(cpu, e);
      RunByteHelper(cpu, g, Byte(r));
    case MemWrite(at, e) =>
      var ea := EvalExpr(cpu, at);
      var r := EvalExpr(cpu, e);
      cpu.MemWrite(Word(ea), Byte(r));
    case AluOnA(alu) =>
      cpu.a := RunAlu(cpu, alu, cpu.a);
    case AluOnMem(alu, at) =>
      var ea := EvalExpr(cpu, at);
      var r := cpu.MemRead(Word(ea));
      var w := RunAlu(cpu, alu, r);
      cpu.MemWrite(Word(ea), w);
    case ClearBit(zp, b) =>
      if b < 8 {
        var r := cpu.MemRead(zp);
        cpu.MemWrite(zp, And(r, 0xFF - Mask(b)));
      }
    case RaiseBit(zp, b) =>
      if b < 8 {
        var r := cpu.MemRead(zp);
        cpu.MemWrite(zp, Or(r, Mask(b)));
      }
    case If(k, t) =>
      var b := TestCond(cpu, k);
      if b && t.RtiReturn? { cpu.LynxRti(); }
    case Leave(t) => if t.RtiReturn? { cpu.LynxRti(); }
    case Nop | CallFunc(_) | BootCall(_) =>
  }

  method TestCond(cpu: LynxCpu, c: Cond) returns (b: bool)
    requires cpu.Valid()
    ensures b == Holds(c, cpu.View())
  {
    match c
    case FlagIs(f, on) =>
      match f {
        case FN => b := cpu.n == on;
        case FV => b := cpu.v == on;
        case FD => b := cpu.d == on;
        case FI => b := cpu.i == on;
        case FZ => b := cpu.z == on;
        case FC => b := cpu.c == on;
      }
    case BitIs(zp, k, on) =>
      var r := cpu.MemRead(zp);
      b := (k < 8 && And(r, Mask(k)) != 0) == on;
  }

  method TakeExit(cpu: LynxCpu, t: Exit) returns (c: Ctl)
    requires cpu.Valid()
    ensures c == ExitTo(t, cpu.View())
  {
    match t
    case Goto(l, tick) => c := Ctl.Jump(l, tick);
    case TailCall(f) => c := Tail(f);
    case ExtJmp(to) => c := Ext(to);
    case JmpIndirect(e) => var to := EvalExpr(cpu, e); c := Indirect(Word(to));
    case Return => c := Back;
    case RtiReturn => c := BackFromIrq;
    case Unimpl => c := Trap;
  }

  /** Where control goes after a statement, tested in the state it finds. */
  method RunControl(cpu: LynxCpu, s: Stmt) returns (c: Ctl)
    requires cpu.Valid()
    ensures c == After(s, cpu.View())
  {
    match s
    case If(k, t) =>
      var b := TestCond(cpu, k);
      if b { c := TakeExit(cpu, t); } else { c := Fall; }
    case Leave(t) => c := TakeExit(cpu, t);
    case CallFunc(f) => c := Enter(f);
    case BootCall(to) => c := Boot(to);
    case _ => c := Fall;
  }

  /** The emitted statement of an instruction, run in place: registers, flags and RAM end as the
      interpreter leaves them, and control goes where its program counter goes. */
  method RunInsn(cpu: LynxCpu, r: Insn, sc: Scope) returns (c: Ctl)
    requires cpu.Valid() && WellFormed(r) && Local(r)
    modifies cpu, cpu.ram
    ensures cpu.View() == Interp.Effect(r, old(cpu.View()))
    ensures Destination(c, Word(r.pc + r.len)) == Interp.NextPc(r, old(cpu.View()))
  {
    hide Run, After, EmitInsn, Destination, Interp.Effect, Interp.NextPc, Local, WellFormed;
    var s := EmitInsn(r, sc);
    StateAgrees(r, sc, cpu.View());
    ControlAgrees(r, sc, cpu.View());
    c := RunControl(cpu, s);
    RunStmt(cpu, s);
  }
}
