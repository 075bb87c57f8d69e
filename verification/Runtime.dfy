/** The runtime helpers that recompiled code calls (include/lynxrecomp/recomp_rt.h and
    src/cpu.c): first what each does to the machine state, then the helpers themselves. */
module Runtime {
  import opened Bytes
  import opened Cpu

  // ---- src/cpu.c ----

  /** P as pushed: N V 1 B D I Z C. */
  function PPack(st: State): u8 {
    (if st.n then 0x80 else 0) + (if st.v then 0x40 else 0) + 0x20 + 0x10 +
    (if st.d then 0x08 else 0) + (if st.i then 0x04 else 0) +
    (if st.z then 0x02 else 0) + (if st.c then 0x01 else 0)
  }

  function PUnpack(st: State, p: u8): State {
    st.(n := Bit(p, 7), v := Bit(p, 6), d := Bit(p, 3), i := Bit(p, 2), z := Bit(p, 1), c := Bit(p, 0))
  }

  // ---- recomp_rt.h: the effect of each helper ----

  function SetNz(st: State, v: u8): State { st.(z := v == 0, n := Bit(v, 7)) }

  /** Zero-page pointer, its high byte read with zero-page wrap. */
  function ZpPtr(st: State, zp: u8): u16 { LoHi(Read(st, zp), Read(st, Byte(zp + 1))) }

  function Lda(st: State, v: u8): State { SetNz(st.(a := v), v) }
  function Ldx(st: State, v: u8): State { SetNz(st.(x := v), v) }
  function Ldy(st: State, v: u8): State { SetNz(st.(y := v), v) }
  function Ora(st: State, v: u8): State { var r := Or(st.a, v); SetNz(st.(a := r), r) }
  function AndA(st: State, v: u8): State { var r := And(st.a, v); SetNz(st.(a := r), r) }
  function Eor(st: State, v: u8): State { var r := Xor(st.a, v); SetNz(st.(a := r), r) }
  function BitImm(st: State, v: u8): State { st.(z := And(st.a, v) == 0) }
  function BitMem(st: State, v: u8): State { BitImm(st, v).(n := Bit(v, 7), v := Bit(v, 6)) }

  /** A byte result with the carry and overflow it leaves. */
  datatype Sum = Sum(r: u8, carry: bool, overflow: bool)

  /** Overflow of `a + b`: equal signs in, the other sign in the sum. */
  predicate AddOverflow(a: u8, b: u8, sum: int) { Bit(a, 7) == Bit(b, 7) && Bit(a, 7) != Bit(sum, 7) }

  predicate SubOverflow(a: u8, b: u8, diff: int) { Bit(a, 7) != Bit(b, 7) && Bit(a, 7) != Bit(diff, 7) }

  function AddBinary(a: u8, b: u8, c: nat): Sum {
    var sum := a + b + c;
    Sum(Byte(sum), sum > 0xFF, AddOverflow(a, b, sum))
  }

  function AddDecimal(a: u8, b: u8, c: nat): Sum {
    var lo0, hi0 := a % 16 + b % 16 + c, a / 16 + b / 16;
    var lo, hi1 := if lo0 > 9 then lo0 + 6 else lo0, if lo0 > 9 then hi0 + 1 else hi0;
    var hi := if hi1 > 9 then hi1 + 6 else hi1;
    Sum(Byte(hi * 16 + lo % 16), hi > 0x0F, AddOverflow(a, b, a + b + c))
  }

  /** `A - v - (1 - c)` in unsigned 32-bit arithmetic: a borrow leaves it far above 0xFF. */
  function Difference(a: u8, b: u8, c: nat): u32 { (a - b - (1 - c)) % 0x1_0000_0000 }

  function SubBinary(a: u8, b: u8, c: nat): Sum {
    var diff := Difference(a, b, c);
    Sum(Byte(diff), diff < 0x100, SubOverflow(a, b, diff))
  }

  function SubDecimal(a: u8, b: u8, c: nat): Sum {
    var diff := Difference(a, b, c);
    var lo0, hi0 := a % 16 - b % 16 - (1 - c), a / 16 - b / 16;
    var lo, hi1 := if lo0 < 0 then lo0 - 6 else lo0, if lo0 < 0 then hi0 - 1 else hi0;
    var hi := if hi1 < 0 then hi1 - 6 else hi1;
    Sum(Byte(hi * 16 + lo % 16), diff < 0x100, SubOverflow(a, b, diff))
  }

  function Take(st: State, sum: Sum): State {
    SetNz(st.(v := sum.overflow, c := sum.carry, a := sum.r), sum.r)
  }

  function Adc(st: State, b: u8): State {
    Take(st, if st.d then AddDecimal(st.a, b, Num(st.c)) else AddBinary(st.a, b, Num(st.c)))
  }

  function Sbc(st: State, b: u8): State {
    Take(st, if st.d then SubDecimal(st.a, b, Num(st.c)) else SubBinary(st.a, b, Num(st.c)))
  }

  function CmpReg(st: State, reg: u8, v: u8): State {
    SetNz(st.(c := reg >= v), Byte(reg - v))
  }

  // A value transformer returns the flags it leaves and the new value.

  function AluInc(st: State, v: u8): (State, u8) { var r := Byte(v + 1); (SetNz(st, r), r) }
  function AluDec(st: State, v: u8): (State, u8) { var r := Byte(v - 1); (SetNz(st, r), r) }
  function AluAsl(st: State, v: u8): (State, u8) { var r := Byte(2 * v); (SetNz(st.(c := Bit(v, 7)), r), r) }
  function AluLsr(st: State, v: u8): (State, u8) { var r := v / 2; (SetNz(st.(c := Bit(v, 0)), r), r) }
  function AluRol(st: State, v: u8): (State, u8) {
    var r := Byte(2 * v + Num(st.c)); (SetNz(st.(c := Bit(v, 7)), r), r)
  }
  function AluRor(st: State, v: u8): (State, u8) {
    var r := v / 2 + 0x80 * Num(st.c); (SetNz(st.(c := Bit(v, 0)), r), r)
  }
  function AluTsb(st: State, v: u8): (State, u8) { (st.(z := And(st.a, v) == 0), Or(v, st.a)) }
  function AluTrb(st: State, v: u8): (State, u8) { (st.(z := And(st.a, v) == 0), And(v, 0xFF - st.a)) }

  function Push(st: State, v: u8): State { Write(st, 0x100 + st.s, v).(s := Byte(st.s - 1)) }
  function Pull(st: State): (State, u8) {
    var st' := st.(s := Byte(st.s + 1));
    (st', Read(st', 0x100 + st'.s))
  }
  function Pla(st: State): State { var (t, v) := Pull(st); SetNz(t.(a := v), v) }
  function Plx(st: State): State { var (t, v) := Pull(st); SetNz(t.(x := v), v) }
  function Ply(st: State): State { var (t, v) := Pull(st); SetNz(t.(y := v), v) }
  function Plp(st: State): State { var (t, v) := Pull(st); PUnpack(t, v) }

  /** `lynx_rti` (src/recomp_exec.c): P, then the return address, which is discarded. */
  function Rti(st: State): State {
    var (t, p) := Pull(st);
    var (u, _) := Pull(PUnpack(t, p));
    var (w, _) := Pull(u);
    w
  }

  /** `lynx_cpu` and the RAM behind `lynx_mem_read`/`lynx_mem_write`. */
  class LynxCpu {
    var a: u8
    var x: u8
    var y: u8
    var s: u8
    var n: bool
    var v: bool
    var d: bool
    var i: bool
    var z: bool
    var c: bool
    const ram: array<u8>

    ghost predicate Valid() { ram.Length == 0x1_0000 }

    ghost function View(): State
      requires Valid()
      reads this, ram
    {
      State(a, x, y, s, n, v, d, i, z, c, ram[..])
    }

    constructor (ram: array<u8>)
      requires ram.Length == 0x1_0000
      ensures Valid() && this.ram == ram
      ensures View() == State(0, 0, 0, 0, false, false, false, false, false, false, ram[..])
    {
      a, x, y, s := 0, 0, 0, 0;
      n, v, d, i, z, c := false, false, false, false, false, false;
      this.ram := ram;
    }

    method MemRead(addr: u16) returns (r: u8)
      requires Valid()
      ensures r == Read(View(), addr)
    {
      r := ram[addr];
    }

    method MemWrite(addr: u16, val: u8)
      requires Valid()
      modifies ram
      ensures View() == Write(old(View()), addr, val)
    {
      ram[addr] := val;
    }

    method MemRead16(addr: u16) returns (r: u16)
      requires Valid()
      ensures r == Read16(View(), addr)
    {
      var lo := MemRead(addr);
      var hi := MemRead(Word(addr + 1));
      r := LoHi(lo, hi);
    }

    method ZpPtrOf(zp: u8) returns (r: u16)
      requires Valid()
      ensures r == ZpPtr(View(), zp)
    {
      var lo := MemRead(zp);
      var hi := MemRead(Byte(zp + 1));
      r := LoHi(lo, hi);
    }

    method LynxPPack() returns (p: u8)
      requires Valid()
      ensures p == PPack(View())
    {
      p := 0x30;
      if n { p := p + 0x80; }
      if v { p := p + 0x40; }
      if d { p := p + 0x08; }
      if i { p := p + 0x04; }
      if z { p := p + 0x02; }
      if c { p := p + 0x01; }
    }

    method LynxPUnpack(p: u8)
      requires Valid()
      modifies this
      ensures View() == PUnpack(old(View()), p)
    {
      n, v, d := Bit(p, 7), Bit(p, 6), Bit(p, 3);
      i, z, c := Bit(p, 2), Bit(p, 1), Bit(p, 0);
    }

    method LynxSetNz(r: u8)
      requires Valid()
      modifies this
      ensures View() == SetNz(old(View()), r)
    {
      z := r == 0;
      n := Bit(r, 7);
    }

    method LynxLda(r: u8)
      requires Valid()
      modifies this
      ensures View() == Lda(old(View()), r)
    {
      a := r;
      LynxSetNz(r);
    }

    method LynxLdx(r: u8)
      requires Valid()
      modifies this
      ensures View() == Ldx(old(View()), r)
    {
      x := r;
      LynxSetNz(r);
    }

    method LynxLdy(r: u8)
      requires Valid()
      modifies this
      ensures View() == Ldy(old(View()), r)
    {
      y := r;
      LynxSetNz(r);
    }

    method LynxOra(r: u8)
      requires Valid()
      modifies this
      ensures View() == Ora(old(View()), r)
    {
      a := Or(a, r);
      LynxSetNz(a);
    }

    method LynxAnd(r: u8)
      requires Valid()
      modifies this
      ensures View() == AndA(old(View()), r)
    {
      a := And(a, r);
      LynxSetNz(a);
    }

    method LynxEor(r: u8)
      requires Valid()
      modifies this
      ensures View() == Eor(old(View()), r)
    {
      a := Xor(a, r);
      LynxSetNz(a);
    }

    method LynxBit(r: u8)
      requires Valid()
      modifies this
      ensures View() == BitMem(old(View()), r)
    {
      z := And(a, r) == 0;
      n := Bit(r, 7);
      v := Bit(r, 6);
    }

    method LynxAdc(r: u8)
      requires Valid()
      modifies this
      ensures View() == Adc(old(View()), r)
    {
      var carry := Num(c);
      var sum := a + r + carry;
      v := AddOverflow(a, r, sum);
      if !d {
        c := sum > 0xFF;
        a := Byte(sum);
      } else {
        a, c := DecimalSum(a, r, carry);
      }
      LynxSetNz(a);
    }

    static method DecimalSum(p: u8, r: u8, carry: nat) returns (w: u8, carryOut: bool)
      ensures w == AddDecimal(p, r, carry).r && carryOut == AddDecimal(p, r, carry).carry
    {
      var lo, hi := p % 16 + r % 16 + carry, p / 16 + r / 16;
      if lo > 9 { lo, hi := lo + 6, hi + 1; }
      if hi > 9 { hi := hi + 6; }
      w, carryOut := Byte(hi * 16 + lo % 16), hi > 0x0F;
    }

    method LynxSbc(r: u8)
      requires Valid()
      modifies this
      ensures View() == Sbc(old(View()), r)
    {
      var carry := Num(c);
      var diff := Difference(a, r, carry);
      v := SubOverflow(a, r, diff);
      c := diff < 0x100;
      if !d {
        a := Byte(diff);
      } else {
        a := DecimalDifference(a, r, carry);
      }
      LynxSetNz(a);
    }

    static method DecimalDifference(p: u8, r: u8, carry: nat) returns (w: u8)
      ensures w == SubDecimal(p, r, carry).r
    {
      var lo, hi := p % 16 - r % 16 - (1 - carry), p / 16 - r / 16;
      if lo < 0 { lo, hi := lo - 6, hi - 1; }
      if hi < 0 { hi := hi - 6; }
      w := Byte(hi * 16 + lo % 16);
    }

    method LynxCmpReg(reg: u8, r: u8)
      requires Valid()
      modifies this
      ensures View() == CmpReg(old(View()), reg, r)
    {
      c := reg >= r;
      LynxSetNz(Byte(reg - r));
    }

    method LynxAluRol(r: u8) returns (w: u8)
      requires Valid()
      modifies this
      ensures (View(), w) == AluRol(old(View()), r)
    {
      var carry := Bit(r, 7);
      w := Byte(2 * r + Num(c));
      c := carry;
      LynxSetNz(w);
    }

    method LynxAluRor(r: u8) returns (w: u8)
      requires Valid()
      modifies this
      ensures (View(), w) == AluRor(old(View()), r)
    {
      var carry := Bit(r, 0);
      w := r / 2 + 0x80 * Num(c);
      c := carry;
      LynxSetNz(w);
    }

    method LynxPush(r: u8)
      requires Valid()
      modifies this, ram
      ensures View() == Push(old(View()), r)
    {
      MemWrite(0x100 + s, r);
      s := Byte(s - 1);
    }

    method LynxPull() returns (r: u8)
      requires Valid()
      modifies this
      ensures (View(), r) == Pull(old(View()))
    {
      s := Byte(s + 1);
      r := MemRead(0x100 + s);
    }

    method LynxRti()
      requires Valid()
      modifies this
      ensures View() == Rti(old(View()))
    {
      hide PUnpack;
      var p := LynxPull();
      LynxPUnpack(p);
      var lo := LynxPull();
      var hi := LynxPull();
    }
  }
}
