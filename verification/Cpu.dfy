/** The programmer's model shared by the interpreter and the recompiled code: registers,
    flags and a flat 64 KiB address space. */
module Cpu {
  import opened Bytes

  type Mem = m: seq<u8> | |m| == 0x1_0000 witness seq(0x1_0000, _ => 0)

  datatype State = State(a: u8, x: u8, y: u8, s: u8,
                         n: bool, v: bool, d: bool, i: bool, z: bool, c: bool,
                         mem: Mem)

  function Read(st: State, a: u16): u8 { st.mem[a] }

  function Write(st: State, a: u16, v: u8): State { st.(mem := st.mem[a := v]) }

  /** The word at `a`, its high byte read at `a + 1` modulo 2^16. */
  function Read16(st: State, a: u16): u16 { LoHi(Read(st, a), Read(st, Word(a + 1))) }

  /** The six flags. */
  datatype Flag = FN | FV | FD | FI | FZ | FC

  function Get(st: State, f: Flag): bool {
    match f
    case FN => st.n
    case FV => st.v
    case FD => st.d
    case FI => st.i
    case FZ => st.z
    case FC => st.c
  }

  predicate InStackPage(a: u16) { 0x100 <= a < 0x200 }
}
