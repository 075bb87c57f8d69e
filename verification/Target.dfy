/** The fragment of C that the emitter writes, and what it means: expressions and statements
    over `lynx_cpu`, and the way a statement hands control on. */
module Target {
  import opened Bytes
  import opened Cpu
  import R = Runtime

  datatype Expr =
    | Lit(n: u16)
    | RegA | RegX | RegY
    | U8(e: Expr) | U16(e: Expr)   // casts
    | Plus(l: Expr, r: Expr)
    | ZpPtr(e: Expr)               // lynx_zp_ptr(uint8_t)
    | MemRead(e: Expr)             // lynx_mem_read(uint16_t)
    | MemRead16(e: Expr)           // lynx_mem_read16(uint16_t)

  function Eval(e: Expr, st: State): int {
    match e
    case Lit(n) => n
    case RegA => st.a
    case RegX => st.x
    case RegY => st.y
    case U8(x) => Byte(Eval(x, st))
    case U16(x) => Word(Eval(x, st))
    case Plus(l, r) => Eval(l, st) + Eval(r, st)
    case ZpPtr(x) => R.ZpPtr(st, Byte(Eval(x, st)))
    case MemRead(x) => Read(st, Word(Eval(x, st)))
    case MemRead16(x) => Read16(st, Word(Eval(x, st)))
  }

  /** Helpers without an argument. */
  datatype Helper =
    | Inx | Iny | Dex | Dey | IncA | DecA | Tax | Tay | Txa | Tya | Tsx | Txs
    | Pha | Phx | Phy | Php | Pla | Plx | Ply | Plp

  /** Helpers of one byte. */
  datatype ByteHelper = Lda | Ldx | Ldy | Ora | AndA | Eor | Adc | Sbc | Cmp | Cpx | Cpy | BitV | BitImm

  /** The `lynx_alu_*` value transformers. */
  datatype Alu = AluInc | AluDec | AluAsl | AluLsr | AluRol | AluRor | AluTsb | AluTrb

  datatype Cond =
    | FlagIs(f: Flag, on: bool)
    | BitIs(zp: u8, bit: nat, on: bool)   // (lynx_mem_read(zp) & (1u << bit)) != 0, or == 0

  /** A control transfer that ends a straight run of statements. */
  datatype Exit =
    | Goto(l: u16, tick: bool)     // [lynx_tick();] goto L_l;
    | TailCall(fn: u16)            // lynx_func_f(); return;
    | ExtJmp(to: u16)              // lynx_ext_jmp(to); return;
    | JmpIndirect(e: Expr)         // lynx_jmp_indirect(e); return;
    | Return                       // return;
    | RtiReturn                    // lynx_rti(); return;
    | Unimpl                       // lynx_unimpl(0); return;

  datatype Stmt =
    | Nop
    | SetFlag(f: Flag, on: bool)
    | Call0(h: Helper)
    | Call1(g: ByteHelper, e: Expr)
    | MemWrite(at: Expr, e: Expr)
    | AluOnA(alu: Alu)                     // lynx_cpu.a = alu(lynx_cpu.a);
    | AluOnMem(alu: Alu, at: Expr)         // { _ea = at; lynx_mem_write(_ea, alu(lynx_mem_read(_ea))); }
    | ClearBit(zp: u8, bit: nat)
    | RaiseBit(zp: u8, bit: nat)
    | If(cond: Cond, exit: Exit)
    | Leave(exit: Exit)
    | CallFunc(fn: u16)                    // lynx_func_f();
    | BootCall(to: u16)                    // lynx_boot_call(to);

  /** How control continues after a statement. */
  datatype Ctl =
    | Fall
    | Jump(l: u16, ticked: bool)
    | Enter(f: u16)        // call, to come back to the next statement
    | Boot(to: u16)
    | Tail(f: u16)         // call, then return
    | Ext(to: u16)
    | Indirect(to: u16)
    | Back                 // return
    | BackFromIrq
    | Trap

  function CallHelper(h: Helper, st: State): State {
    match h
    case Inx => var r := Byte(st.x + 1); R.SetNz(st.(x := r), r)
    case Iny => var r := Byte(st.y + 1); R.SetNz(st.(y := r), r)
    case Dex => var r := Byte(st.x - 1); R.SetNz(st.(x := r), r)
    case Dey => var r := Byte(st.y - 1); R.SetNz(st.(y := r), r)
    case IncA => var r := Byte(st.a + 1); R.SetNz(st.(a := r), r)
    case DecA => var r := Byte(st.a - 1); R.SetNz(st.(a := r), r)
    case Tax => R.SetNz(st.(x := st.a), st.a)
    case Tay => R.SetNz(st.(y := st.a), st.a)
    case Txa => R.SetNz(st.(a := st.x), st.x)
    case Tya => R.SetNz(st.(a := st.y), st.y)
    case Tsx => R.SetNz(st.(x := st.s), st.s)
    case Txs => st.(s := st.x)
    case Pha => R.Push(st, st.a)
    case Phx => R.Push(st, st.x)
    case Phy => R.Push(st, st.y)
    case Php => R.Push(st, R.PPack(st))
    case Pla => R.Pla(st)
    case Plx => R.Plx(st)
    case Ply => R.Ply(st)
    case Plp => R.Plp(st)
  }

  function CallByteHelper(g: ByteHelper, v: u8, st: State): State {
    match g
    case Lda => R.Lda(st, v)
    case Ldx => R.Ldx(st, v)
    case Ldy => R.Ldy(st, v)
    case Ora => R.Ora(st, v)
    case AndA => R.AndA(st, v)
    case Eor => R.Eor(st, v)
    case Adc => R.Adc(st, v)
    case Sbc => R.Sbc(st, v)
    case Cmp => R.CmpReg(st, st.a, v)
    case Cpx => R.CmpReg(st, st.x, v)
    case Cpy => R.CmpReg(st, st.y, v)
    case BitV => R.BitMem(st, v)
    case BitImm => R.BitImm(st, v)
  }

  function CallAlu(alu: Alu, v: u8, st: State): (State, u8) {
    match alu
    case AluInc => R.AluInc(st, v)
    case AluDec => R.AluDec(st, v)
    case AluAsl => R.AluAsl(st, v)
    case AluLsr => R.AluLsr(st, v)
    case AluRol => R.AluRol(st, v)
    case AluRor => R.AluRor(st, v)
    case AluTsb => R.AluTsb(st, v)
    case AluTrb => R.AluTrb(st, v)
  }

  predicate Holds(c: Cond, st: State) {
    match c
    case FlagIs(f, on) => Get(st, f) == on
    case BitIs(zp, b, on) => (b < 8 && And(Read(st, zp), Mask(b)) != 0) == on
  }

  function ExitTo(x: Exit, st: State): Ctl {
    match x
    case Goto(l, tick) => Jump(l, tick)
    case TailCall(f) => Tail(f)
    case ExtJmp(to) => Ext(to)
    case JmpIndirect(e) => Indirect(Word(Eval(e, st)))
    case Return => Back
    case RtiReturn => BackFromIrq
    case Unimpl => Trap
  }

  /** What a transfer does to the machine before control is gone. */
  function ExitEffect(x: Exit, st: State): State { if x.RtiReturn? then R.Rti(st) else st }

  /** The state a statement leaves; the hooks are not part of the fragment. */
  function Run(s: Stmt, st: State): State {
    match s
    case SetFlag(f, on) =>
      (match f
       case FN => st.(n := on)
       case FV => st.(v := on)
       case FD => st.(d := on)
       case FI => st.(i := on)
       case FZ => st.(z := on)
       case FC => st.(c := on))
    case Call0(h) => CallHelper(h, st)
    case Call1(g, e) => CallByteHelper(g, Byte(Eval(e, st)), st)
    case MemWrite(at, e) => Write(st, Word(Eval(at, st)), Byte(Eval(e, st)))
    case AluOnA(alu) => var (t, v) := CallAlu(alu, st.a, st); t.(a := v)
    case AluOnMem(alu, at) =>
      var ea := Word(Eval(at, st));
      var (t, v) := CallAlu(alu, Read(st, ea), st);
      Write(t, ea, v)
    case ClearBit(zp, b) => if b < 8 then Write(st, zp, And(Read(st, zp), 0xFF - Mask(b))) else st
    case RaiseBit(zp, b) => if b < 8 then Write(st, zp, Or(Read(st, zp), Mask(b))) else st
    case If(c, x) => if Holds(c, st) then ExitEffect(x, st) else st
    case Leave(x) => ExitEffect(x, st)
    case Nop | CallFunc(_) | BootCall(_) => st
  }

  function After(s: Stmt, st: State): Ctl {
    match s
    case If(c, x) => if Holds(c, st) then ExitTo(x, st) else Fall
    case Leave(x) => ExitTo(x, st)
    case CallFunc(f) => Enter(f)
    case BootCall(to) => Boot(to)
    case _ => Fall
  }
}
