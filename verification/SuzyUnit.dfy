/** The blitter's loops (src/suzy.c) working in place on RAM, proved to leave what the function
    of module Suzy says. A ghost canvas records what has been painted so far. */
module SuzyUnit {
  import opened Bytes
  import opened Screen
  import opened Suzy

  const VIDBASL := 0x08
  const HOFFL := 0x04
  const VOFFL := 0x06
  const SCBNEXTL := 0x10

  /** A sixteen-bit register. */
  function RegWord(reg: seq<u8>, off: nat): u16
    requires |reg| == 0x100 && off < 0xFF
  {
    LoHi(reg[off], reg[off + 1])
  }

  function RegistersOf(reg: seq<u8>): Registers
    requires |reg| == 0x100
  {
    Registers(RegWord(reg, VIDBASL), Origin(Signed16(RegWord(reg, HOFFL)), Signed16(RegWord(reg, VOFFL))),
              RegWord(reg, SCBNEXTL))
  }

  class SuzyBlitter {
    const reg: array<u8>
    const ram: array<u8>
    var busy: bool

    ghost predicate Valid() { reg.Length == 0x100 && ram.Length == 0x1_0000 && reg != ram }

    /** RAM is what the canvas says. */
    ghost predicate Shows(c: Canvas)
      requires Valid()
      reads ram
    {
      !c.frozen && ram[..] == Painted(c)
    }

    constructor (reg: array<u8>, ram: array<u8>)
      requires reg.Length == 0x100 && ram.Length == 0x1_0000 && reg != ram
      ensures Valid() && this.reg == reg && this.ram == ram && !busy
    {
      this.reg, this.ram, busy := reg, ram, false;
    }

    /** `blit_pixel`, on a canvas. */
    method BlitPixelAt(vidbas: u16, d: Dot, ghost c: Canvas) returns (ghost c': Canvas)
      requires Valid() && Shows(c) && vidbas == c.base
      modifies ram
      ensures c' == Put(c, d) && Shows(c')
    {
      c' := Put(c, d);
      assert c'.dots[..|c.dots|] == c.dots;
      if d.kind > 1 {
        if d.pen == 0 { return; }
        if d.kind == 3 && d.pen == 0x0F { return; }
        if d.kind == 5 && (d.pen == 0x0E || d.pen == 0x0F) { return; }
      }
      if d.x < 0 || d.x >= WIDTH || d.y < 0 || d.y >= HEIGHT { return; }
      var a := Word(vidbas + d.y * PITCH + d.x / 2);
      var cur := ram[a];
      var under := if d.x % 2 == 1 then cur % 16 else cur / 16;
      var nw := if d.kind == 7 then XorPens(under, d.pen) else d.pen;
      ram[a] := WithNibble(cur, d.x, nw);
    }

    /** `bits_get`. */
    method BitsGet(br: Reader, n: nat, ghost c: Canvas) returns (br': Reader, v: nat, ghost c': Canvas)
      requires Valid() && Shows(c)
      ensures GetBits(c, br, n, 0) == Bits(c', br', v) && Shows(c')
    {
      br', v, c' := br, 0, c;
      var k := n;
      while k > 0
        invariant Shows(c') && GetBits(c', br', k, v) == GetBits(c, br, n, 0)
      {
        v := 2 * v + Num(Bit(ram[br'.addr], 7 - br'.bit));
        c', br', k := Look(c', br'.addr), NextBit(br'), k - 1;
      }
    }

    /** Reads one raw pen and draws it at the next column. */
    method DrawPixel(row: Row, vidbas: u16, br: Reader, left: int, col: nat, ghost c: Canvas)
      returns (br': Reader, left': int, col': nat, ghost c': Canvas)
      requires Valid() && Shows(c) && vidbas == c.base
      modifies ram
      ensures Cursor(c', br', left', col') == DrawOne(row, Cursor(c, br, left, col)) && Shows(c')
    {
      var v;
      br', v, c' := BitsGet(br, row.bpp, c);
      left', col' := left - row.bpp, col + 1;
      c' := BlitPixelAt(vidbas, DotAt(row, col, row.pens[v % 16]), c');
    }

    /** The loop over a totally literal line. */
    method LiteralLine(row: Row, vidbas: u16, br0: Reader, bits: int, ghost c: Canvas) returns (ghost c': Canvas)
      requires Valid() && Shows(c) && vidbas == c.base && row.bpp > 0
      modifies ram
      ensures c' == Literal(row, Cursor(c, br0, bits, 0)).c && Shows(c')
    {
      var br, left, col := br0, bits, 0;
      c' := c;
      while left >= row.bpp
        invariant Shows(c') && c'.base == c.base
        invariant Literal(row, Cursor(c', br, left, col)) == Literal(row, Cursor(c, br0, bits, 0))
        decreases left
      {
        br, left, col, c' := DrawPixel(row, vidbas, br, left, col, c');
      }
    }

    /** The loop over a literal packet. */
    method LiteralPacket(row: Row, vidbas: u16, br: Reader, left: int, col: nat, cnt: nat, ghost c: Canvas)
      returns (br': Reader, left': int, col': nat, ghost c': Canvas)
      requires Valid() && Shows(c) && vidbas == c.base
      modifies ram
      ensures Cursor(c', br', left', col') == LiteralRun(row, Cursor(c, br, left, col), cnt) && Shows(c')
    {
      br', left', col', c' := br, left, col, c;
      var k := 0;
      while k < cnt && left' >= row.bpp
        invariant k <= cnt && Shows(c') && c'.base == c.base
        invariant LiteralRun(row, Cursor(c', br', left', col'), cnt - k)
                  == LiteralRun(row, Cursor(c, br, left, col), cnt)
      {
        br', left', col', c' := DrawPixel(row, vidbas, br', left', col', c');
        k := k + 1;
      }
    }

    /** The loop over a repeat packet. */
    method RepeatPacket(row: Row, vidbas: u16, col: nat, px: Nibble, cnt: nat, ghost s: Cursor)
      returns (col': nat, ghost c': Canvas)
      requires Valid() && Shows(s.c) && vidbas == s.c.base && s.col == col
      modifies ram
      ensures Cursor(c', s.br, s.left, col') == Copies(row, s, px, cnt) && Shows(c')
    {
      col', c' := col, s.c;
      var k := 0;
      while k < cnt
        invariant k <= cnt && Shows(c') && c'.base == s.c.base
        invariant Copies(row, Cursor(c', s.br, s.left, col'), px, cnt - k) == Copies(row, s, px, cnt)
      {
        c' := BlitPixelAt(vidbas, DotAt(row, col', px), c');
        col', k := col' + 1, k + 1;
      }
    }

    /** One packet of a packed line, and whether the line goes on. */
    method OnePacket(row: Row, vidbas: u16, br: Reader, left: int, col: nat, ghost c: Canvas)
      returns (br': Reader, left': int, col': nat, more: bool, ghost c': Canvas)
      requires Valid() && Shows(c) && vidbas == c.base
      modifies ram
      ensures (Cursor(c', br', left', col'), more) == Packet(row, Cursor(c, br, left, col)) && Shows(c')
    {
      hide GetBits, LiteralRun, Copies;
      var flag, cnt, v;
      br', flag, c' := BitsGet(br, 1, c);
      br', cnt, c' := BitsGet(br', 4, c');
      left', col', more := left - 5, col, true;
      if flag == 1 {
        br', left', col', c' := LiteralPacket(row, vidbas, br', left', col', cnt + 1, c');
      } else if cnt == 0 || left' < row.bpp {
        more := false;
      } else {
        br', v, c' := BitsGet(br', row.bpp, c');
        left' := left' - row.bpp;
        col', c' := RepeatPacket(row, vidbas, col', row.pens[v % 16], cnt + 1, Cursor(c', br', left', col'));
      }
    }

    /** The loop over the packets of a line. */
    method PackedLine(row: Row, vidbas: u16, br0: Reader, bits: int, ghost c: Canvas) returns (ghost c': Canvas)
      requires Valid() && Shows(c) && vidbas == c.base
      modifies ram
      ensures c' == Packed(row, Cursor(c, br0, bits, 0)).c && Shows(c')
    {
      hide Packet;
      var br, left, col, more := br0, bits, 0, true;
      c' := c;
      while more && left > 0
        invariant Shows(c') && c'.base == c.base
        invariant Packed(row, Cursor(c, br0, bits, 0)) ==
                  if more then Packed(row, Cursor(c', br, left, col)) else Cursor(c', br, left, col)
        decreases left
      {
        br, left, col, more, c' := OnePacket(row, vidbas, br, left, col, c');
      }
    }

    /** One line from its offset byte on. */
    method OneLine(sp: Sprite, vidbas: u16, dp: u16, line: nat, ghost c: Canvas)
      returns (next: u16, more: bool, ghost c': Canvas)
      requires Valid() && Shows(c) && vidbas == c.base && sp.bpp > 0
      modifies ram
      ensures (c', next, more) == LineStep(sp, c, dp, line) && Shows(c')
    {
      hide Literal, Packed;
      var offset: int := ram[dp];
      c' := Look(c, dp);
      next, more := Word(dp + offset), offset != 0;
      if offset > 1 {
        var bits: int := (offset - 1) * 8;
        if sp.literal {
          c' := LiteralLine(RowOf(sp, line), vidbas, Reader(Word(dp + 1), 0), bits, c');
        } else {
          c' := PackedLine(RowOf(sp, line), vidbas, Reader(Word(dp + 1), 0), bits, c');
        }
      }
    }

    /** The loop over the lines of a sprite. */
    method SpriteLines(sp: Sprite, vidbas: u16, data: u16, ghost c: Canvas) returns (ghost c': Canvas)
      requires Valid() && Shows(c) && vidbas == c.base && sp.bpp > 0
      modifies ram
      ensures c' == Lines(sp, c, data, 0) && Shows(c')
    {
      hide LineStep;
      var line, dp, more := 0, data, true;
      c' := c;
      while more && line < MAX_LINES
        invariant line <= MAX_LINES && Shows(c') && c'.base == c.base
        invariant Lines(sp, c, data, 0) == if more then Lines(sp, c', dp, line) else c'
      {
        dp, more, c' := OneLine(sp, vidbas, dp, line, c');
        line := line + 1;
      }
    }

    /** The loop over the palette bytes. */
    method LoadPalette(pen: array<Nibble>, f0: u16, npens: nat, ghost c: Canvas) returns (ghost c': Canvas)
      requires Valid() && Shows(c) && pen.Length == 16 && npens <= 16 && npens % 2 == 0
      modifies pen
      ensures (c', pen[..]) == LoadPens(c, f0, old(pen[..]), 0, npens) && Shows(c')
    {
      hide Painted;
      c' := c;
      var i: nat, f: u16 := 0, f0;
      while i < npens
        invariant i <= npens && i % 2 == 0 && Shows(c')
        invariant LoadPens(c', f, pen[..], i, npens) == LoadPens(c, f0, old(pen[..]), 0, npens)
      {
        var hi: Nibble, lo: Nibble := ram[f] / 16, ram[f] % 16;
        ghost var was: seq<Nibble> := pen[..];
        pen[i], pen[i + 1] := hi, lo;
        assert pen[..] == was[i := hi][i + 1 := lo];
        SamePainted(c', Look(c', f));
        c', f, i := Look(c', f), Word(f + 1), i + 2;
      }
    }

    /** The fixed part of a control block. */
    method ReadHeader(p: u16, ghost c: Canvas) returns (b: Block, ghost c': Canvas)
      requires Valid() && Shows(c)
      ensures (c', b) == ReadBlock(c, p) && Shows(c')
    {
      b := Block(ram[p], ram[Word(p + 1)], LoHi(ram[Word(p + 3)], ram[Word(p + 4)]),
                 LoHi(ram[Word(p + 5)], ram[Word(p + 6)]), LoHi(ram[Word(p + 7)], ram[Word(p + 8)]),
                 LoHi(ram[Word(p + 9)], ram[Word(p + 10)]));
      c' := ReadBlock(c, p).0;
      HeaderBytes(c, p);
    }

    /** One control block of the chain. */
    method OneBlock(p: u16, vidbas: u16, o: Origin, pen: array<Nibble>, ghost c: Canvas)
      returns (next: u16, ghost c': Canvas)
      requires Valid() && Shows(c) && vidbas == c.base && pen.Length == 16
      modifies ram, pen
      ensures (c', pen[..], next) == BlockStep(c, p, o, old(pen[..])) && Shows(c')
    {
      hide ReadBlock, LoadPens, Lines;
      var b;
      b, c' := ReadHeader(p, c);
      next := b.next;
      if !Bit(b.ctl1, 3) {
        c' := LoadPalette(pen, PaletteAddress(p, b.ctl1), PenCount(b.ctl0), c');
      }
      if !Bit(b.ctl1, 2) {
        c' := SpriteLines(SpriteOf(b, o, pen[..]), vidbas, b.data, c');
      }
    }

    /** `lynx_suzy_blit`. */
    method SuzyBlit()
      requires Valid()
      modifies this, ram
      ensures ram[..] == Painted(Blit(RegistersOf(reg[..]), old(ram[..]), false)) && !busy
    {
      hide BlockStep;
      var regs := RegistersOf(reg[..]);
      var scb := regs.scbnext;
      var pen := new Nibble[16](i requires 0 <= i < 16 => i);
      ghost var start := Canvas(regs.vidbas, false, ram[..], [], true);
      ghost var c := start;
      assert pen[..] == IDENTITY;
      var guard := 0;
      while scb != 0 && guard < MAX_SPRITES
        invariant guard <= MAX_SPRITES && Shows(c) && c.base == regs.vidbas && fresh(pen)
        invariant Chain(c, scb, regs.origin, pen[..], guard) == Chain(start, regs.scbnext, regs.origin, IDENTITY, 0)
        decreases MAX_SPRITES - guard
      {
        scb, c := OneBlock(scb, regs.vidbas, regs.origin, pen, c);
        guard := guard + 1;
      }
      busy := false;
    }
  }

  lemma HeaderBytes(c: Canvas, p: u16)
    ensures var b := ReadBlock(c, p).1;
            && b.ctl0 == Peek(c, p) && b.ctl1 == Peek(c, Word(p + 1))
            && b.next == LoHi(Peek(c, Word(p + 3)), Peek(c, Word(p + 4)))
            && b.data == LoHi(Peek(c, Word(p + 5)), Peek(c, Word(p + 6)))
            && b.hpos == LoHi(Peek(c, Word(p + 7)), Peek(c, Word(p + 8)))
            && b.vpos == LoHi(Peek(c, Word(p + 9)), Peek(c, Word(p + 10)))
            && Painted(ReadBlock(c, p).0) == Painted(c) && ReadBlock(c, p).0.frozen == c.frozen
  {
    hide ReadBytes, Peek, Painted;
    ByteRead(c, p, 2, 0);
    ByteRead(c, p, 2, 1);
    BodyByte(c, p, 0);
    BodyByte(c, p, 1);
    BodyByte(c, p, 2);
    BodyByte(c, p, 3);
    BodyByte(c, p, 4);
    BodyByte(c, p, 5);
    BodyByte(c, p, 6);
    BodyByte(c, p, 7);
    SamePainted(c, ReadBlock(c, p).0);
  }

  lemma SamePainted(c: Canvas, d: Canvas)
    requires Extends(c, d) && c.dots == d.dots
    ensures Painted(c) == Painted(d) && forall a :: Peek(c, a) == Peek(d, a)
  {
  }

  lemma BodyByte(c: Canvas, p: u16, k: nat)
    requires k < 8
    ensures ReadBytes(ReadBytes(c, p, 2).0, Word(p + 3), 8).1[k] == Peek(c, Word(p + 3 + k))
  {
    hide ReadBytes, Peek;
    SamePainted(c, ReadBytes(c, p, 2).0);
    ByteRead(ReadBytes(c, p, 2).0, Word(p + 3), 8, k);
    assert Word(Word(p + 3) + k) == Word(p + 3 + k);
  }

  lemma {:induction false} ByteRead(c: Canvas, a: u16, n: nat, k: nat)
    requires k < n
    ensures ReadBytes(c, a, n).1[k] == Peek(c, Word(a + k))
    decreases n
  {
    if k > 0 {
      ByteRead(Look(c, a), Word(a + 1), n - 1, k - 1);
      assert Word(Word(a + 1) + k - 1) == Word(a + k);
    }
  }
}
