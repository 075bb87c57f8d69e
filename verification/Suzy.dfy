/** The Suzy sprite blitter (src/suzy.c) as a function: the walk over sprite control blocks, the
    bit reader and the packet decoder, on memory that is read and painted at the same time. */
module Suzy {
  import opened Bytes
  import opened Screen

  /** A blit in progress. Its RAM is the starting RAM with the dots painted so far. A frozen
      canvas decodes from the starting RAM instead. `clear` says that no byte read so far lies
      in the frame buffer. */
  datatype Canvas = Canvas(base: u16, frozen: bool, start: Ram, dots: seq<Dot>, clear: bool)

  function Painted(c: Canvas): Ram { Paint(c.start, c.base, c.dots) }

  function Peek(c: Canvas, a: u16): u8 { if c.frozen then c.start[a] else Painted(c)[a] }

  function Look(c: Canvas, a: u16): Canvas { c.(clear := c.clear && !InWindow(c.base, a)) }

  function Put(c: Canvas, d: Dot): Canvas { c.(dots := c.dots + [d]) }

  /** `r` is `c` after more reading and painting. */
  predicate Extends(c: Canvas, r: Canvas) {
    r.base == c.base && r.start == c.start && r.frozen == c.frozen && (r.clear ==> c.clear)
  }

  // ---- the bit reader, most significant bit first ----

  datatype Reader = Reader(addr: u16, bit: BitNo)
  type BitNo = k: int | 0 <= k < 8

  function NextBit(br: Reader): Reader {
    if br.bit == 7 then Reader(Word(br.addr + 1), 0) else Reader(br.addr, br.bit + 1)
  }

  datatype Bits = Bits(c: Canvas, br: Reader, v: nat)

  /** `bits_get`: `n` more bits below those already in `v`. */
  function GetBits(c: Canvas, br: Reader, n: nat, v: nat): (r: Bits)
    ensures Extends(c, r.c) && r.c.dots == c.dots
    decreases n
  {
    if n == 0 then Bits(c, br, v)
    else GetBits(Look(c, br.addr), NextBit(br), n - 1, 2 * v + Num(Bit(Peek(c, br.addr), 7 - br.bit)))
  }

  // ---- one line ----

  type Pens = p: seq<Nibble> | |p| == 16 witness seq(16, _ => 0)

  /** What is fixed along a line. */
  datatype Row = Row(sx: int, y: int, hflip: bool, bpp: nat, kind: nat, pens: Pens)

  /** Where the decoder is in a line: bits left and columns drawn. */
  datatype Cursor = Cursor(c: Canvas, br: Reader, left: int, col: nat)

  function DotAt(row: Row, col: nat, px: Nibble): Dot {
    Dot(if row.hflip then row.sx - col else row.sx + col, row.y, px, row.kind)
  }

  /** Reads one raw pen and draws it. */
  function DrawOne(row: Row, s: Cursor): (r: Cursor)
    ensures Extends(s.c, r.c)
  {
    var b := GetBits(s.c, s.br, row.bpp, 0);
    Cursor(Put(b.c, DotAt(row, s.col, row.pens[b.v % 16])), b.br, s.left - row.bpp, s.col + 1)
  }

  /** A totally literal line. */
  function Literal(row: Row, s: Cursor): (r: Cursor)
    requires row.bpp > 0
    ensures Extends(s.c, r.c)
    decreases if s.left > 0 then s.left else 0
  {
    if s.left >= row.bpp then Literal(row, DrawOne(row, s)) else s
  }

  /** A literal packet: up to `cnt` pixels, as far as the line has bits. */
  function LiteralRun(row: Row, s: Cursor, cnt: nat): (r: Cursor)
    ensures r.left <= s.left && Extends(s.c, r.c)
    decreases cnt
  {
    if cnt > 0 && s.left >= row.bpp then LiteralRun(row, DrawOne(row, s), cnt - 1) else s
  }

  /** `cnt` copies of one pen. */
  function Copies(row: Row, s: Cursor, px: Nibble, cnt: nat): (r: Cursor)
    ensures r.left == s.left && Extends(s.c, r.c)
    decreases cnt
  {
    if cnt == 0 then s else Copies(row, s.(c := Put(s.c, DotAt(row, s.col, px)), col := s.col + 1), px, cnt - 1)
  }

  /** One packet, and whether the line goes on after it. */
  function Packet(row: Row, s: Cursor): (r: (Cursor, bool))
    ensures r.0.left <= s.left - 5 && Extends(s.c, r.0.c)
  {
    var flag := GetBits(s.c, s.br, 1, 0);
    var count := GetBits(flag.c, flag.br, 4, 0);
    var t := Cursor(count.c, count.br, s.left - 5, s.col);
    if flag.v == 1 then (LiteralRun(row, t, count.v + 1), true)
    else if count.v == 0 || t.left < row.bpp then (t, false)
    else
      var b := GetBits(t.c, t.br, row.bpp, 0);
      (Copies(row, Cursor(b.c, b.br, t.left - row.bpp, t.col), row.pens[b.v % 16], count.v + 1), true)
  }

  /** A packed line. */
  function Packed(row: Row, s: Cursor): (r: Cursor)
    ensures Extends(s.c, r.c)
    decreases if s.left > 0 then s.left else 0
  {
    if s.left <= 0 then s
    else
      var (t, more) := Packet(row, s);
      if more then Packed(row, t) else t
  }

  // ---- one sprite ----

  datatype Sprite = Sprite(sx: int, sy: int, hflip: bool, vflip: bool, literal: bool, bpp: nat, kind: nat, pens: Pens)

  const MAX_LINES := 204   // LYNX_SCREEN_H * 2

  function RowOf(sp: Sprite, line: nat): Row {
    Row(sp.sx, if sp.vflip then sp.sy - line else sp.sy + line, sp.hflip, sp.bpp, sp.kind, sp.pens)
  }

  /** The data of one line after its offset byte; offset 1 is a blank line. */
  function LineData(sp: Sprite, c: Canvas, dp: u16, offset: u8, line: nat): (r: Canvas)
    requires sp.bpp > 0
    ensures Extends(c, r)
  {
    if offset == 1 then c
    else
      var s := Cursor(c, Reader(Word(dp + 1), 0), (offset - 1) * 8, 0);
      (if sp.literal then Literal(RowOf(sp, line), s) else Packed(RowOf(sp, line), s)).c
  }

  /** One line from its offset byte on, where the next line is, and whether there was a line:
      offset 0 ends the sprite. */
  function LineStep(sp: Sprite, c: Canvas, dp: u16, line: nat): (r: (Canvas, u16, bool))
    requires sp.bpp > 0
    ensures Extends(c, r.0)
  {
    var offset, c1 := Peek(c, dp), Look(c, dp);
    (if offset == 0 then c1 else LineData(sp, c1, dp, offset, line), Word(dp + offset), offset != 0)
  }

  /** All lines from `line` on. */
  function Lines(sp: Sprite, c: Canvas, dp: u16, line: nat): (r: Canvas)
    requires sp.bpp > 0
    ensures Extends(c, r)
    decreases MAX_LINES - line
  {
    if line >= MAX_LINES then c
    else
      var (c1, next, more) := LineStep(sp, c, dp, line);
      if more then Lines(sp, c1, next, line + 1) else c1
  }

  /** Pens i to n of the palette, two to a byte. */
  function LoadPens(c: Canvas, f: u16, pens: Pens, i: nat, n: nat): (r: (Canvas, Pens))
    requires n <= 16 && i % 2 == 0 && n % 2 == 0
    ensures Extends(c, r.0)
    decreases n - i
  {
    if i >= n then (c, pens)
    else
      var b := Peek(c, f);
      LoadPens(Look(c, f), Word(f + 1), pens[i := b / 16][i + 1 := b % 16], i + 2, n)
  }

  // ---- the chain of control blocks ----

  const MAX_SPRITES := 256

  /** The `n` bytes from `a` on, and the canvas after reading them. */
  function ReadBytes(c: Canvas, a: u16, n: nat): (r: (Canvas, seq<u8>))
    ensures Extends(c, r.0) && r.0.dots == c.dots && |r.1| == n
    decreases n
  {
    if n == 0 then (c, [])
    else
      var (c1, rest) := ReadBytes(Look(c, a), Word(a + 1), n - 1);
      (c1, [Peek(c, a)] + rest)
  }

  /** `(int16_t)x`. */
  function Signed16(x: u16): int { if x < 0x8000 then x else x - 0x1_0000 }

  /** The fixed part of a control block. */
  datatype Block = Block(ctl0: u8, ctl1: u8, next: u16, data: u16, hpos: u16, vpos: u16)

  /** The block at `p`: two control bytes, the collision byte, which is not read, then words. */
  function ReadBlock(c: Canvas, p: u16): (r: (Canvas, Block))
    ensures Extends(c, r.0)
  {
    var (c1, ctl) := ReadBytes(c, p, 2);
    var (c2, w) := ReadBytes(c1, Word(p + 3), 8);
    (c2, Block(ctl[0], ctl[1], LoHi(w[0], w[1]), LoHi(w[2], w[3]), LoHi(w[4], w[5]), LoHi(w[6], w[7])))
  }

  /** Bits per pixel: the top two bits of SPRCTL0, plus one. */
  function Depth(ctl0: u8): nat { ctl0 / 64 + 1 }

  /** Number of pens: `1 << bpp`. */
  function PenCount(ctl0: u8): (n: nat)
    ensures 0 < n <= 16 && n % 2 == 0
  {
    match ctl0 / 64
    case 0 => 2
    case 1 => 4
    case 2 => 8
    case _ => 16
  }

  /** Where the palette of a block is: after the size words its reload depth asks for. */
  function PaletteAddress(p: u16, ctl1: u8): u16 { Word(p + 11 + ctl1 / 16 % 4 * 4) }

  datatype Origin = Origin(hoff: int, voff: int)

  function SpriteOf(b: Block, o: Origin, pens: Pens): Sprite {
    Sprite(Signed16(b.hpos) - o.hoff, Signed16(b.vpos) - o.voff, Bit(b.ctl0, 5), Bit(b.ctl0, 4), Bit(b.ctl1, 7),
           Depth(b.ctl0), b.ctl0 % 8, pens)
  }

  /** The palette step of a block: loaded unless the previous one is kept. */
  function PensStep(c: Canvas, p: u16, b: Block, pens: Pens): (r: (Canvas, Pens))
    ensures Extends(c, r.0)
  {
    if Bit(b.ctl1, 3) then (c, pens)
    else LoadPens(c, PaletteAddress(p, b.ctl1), pens, 0, PenCount(b.ctl0))
  }

  /** One control block: the canvas, the pens and the next block after it. */
  function BlockStep(c: Canvas, p: u16, o: Origin, pens: Pens): (r: (Canvas, Pens, u16))
    ensures Extends(c, r.0)
  {
    var (c1, b) := ReadBlock(c, p);
    var (c2, pens2) := PensStep(c1, p, b, pens);
    (if Bit(b.ctl1, 2) then c2 else Lines(SpriteOf(b, o, pens2), c2, b.data, 0), pens2, b.next)
  }

  /** The chain from the block at `scb` on, after `n` blocks. */
  function Chain(c: Canvas, scb: u16, o: Origin, pens: Pens, n: nat): (r: Canvas)
    ensures Extends(c, r)
    decreases MAX_SPRITES - n
  {
    if scb == 0 || n >= MAX_SPRITES then c
    else
      var (c1, pens1, next) := BlockStep(c, scb, o, pens);
      Chain(c1, next, o, pens1, n + 1)
  }

  const IDENTITY: Pens := [0, 1, 2, 3, 4, 5, 6, 7, 8, 9, 10, 11, 12, 13, 14, 15]

  /** The blitter's registers: VIDBAS, the screen origin and SCBNEXT. */
  datatype Registers = Registers(vidbas: u16, origin: Origin, scbnext: u16)

  /** A whole blit. With `frozen`, everything is decoded from the RAM at the start. */
  function Blit(regs: Registers, ram: Ram, frozen: bool): Canvas {
    Chain(Canvas(regs.vidbas, frozen, ram, [], true), regs.scbnext, regs.origin, IDENTITY, 0)
  }
}
