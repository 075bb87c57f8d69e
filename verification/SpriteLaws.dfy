/** What a blit does, stated on the pixel grid and on RAM: it paints the decoded pixels in order,
    decoding does not depend on the painting when the data lies outside the frame buffer, and an
    XOR blit undoes itself. */
module SpriteLaws {
  import opened Bytes
  import opened Screen
  import opened Suzy

  // ---- decoding depends on memory outside the frame buffer only ----

  predicate SameAt(base: u16, r: Ram, s: Ram, a: u16) { !InWindow(base, a) ==> r[a] == s[a] }

  ghost predicate SameOutside(base: u16, r: Ram, s: Ram) { forall a: u16 :: SameAt(base, r, s, a) }

  /** The same blit on RAMs that agree outside the frame buffer, frozen or not. */
  ghost predicate Twin(c: Canvas, d: Canvas) {
    c.base == d.base && c.dots == d.dots && c.clear == d.clear && SameOutside(c.base, c.start, d.start)
  }

  lemma PeekOutside(c: Canvas, a: u16)
    requires !InWindow(c.base, a)
    ensures Peek(c, a) == c.start[a]
  {
    PaintInWindow(c.start, c.base, c.dots, a);
  }

  lemma LookTwin(c: Canvas, d: Canvas, a: u16)
    requires Twin(c, d) && Look(c, a).clear
    ensures c.clear && Twin(Look(c, a), Look(d, a)) && Peek(c, a) == Peek(d, a)
  {
    PeekOutside(c, a);
    PeekOutside(d, a);
    assert SameAt(c.base, c.start, d.start, a);
  }

  lemma {:induction false} GetBitsTwin(c: Canvas, d: Canvas, br: Reader, n: nat, v: nat)
    requires Twin(c, d) && GetBits(c, br, n, v).c.clear
    ensures var r, q := GetBits(c, br, n, v), GetBits(d, br, n, v);
            Twin(r.c, q.c) && r.br == q.br && r.v == q.v
    decreases n
  {
    if n > 0 {
      LookTwin(c, d, br.addr);
      var v' := 2 * v + Num(Bit(Peek(c, br.addr), 7 - br.bit));
      GetBitsTwin(Look(c, br.addr), Look(d, br.addr), NextBit(br), n - 1, v');
    }
  }

  ghost predicate TwinCursors(s: Cursor, t: Cursor) {
    Twin(s.c, t.c) && s.br == t.br && s.left == t.left && s.col == t.col
  }

  lemma DrawOneTwin(row: Row, s: Cursor, t: Cursor)
    requires TwinCursors(s, t) && DrawOne(row, s).c.clear
    ensures TwinCursors(DrawOne(row, s), DrawOne(row, t))
  {
    GetBitsTwin(s.c, t.c, s.br, row.bpp, 0);
  }

  lemma {:induction false} LiteralTwin(row: Row, s: Cursor, t: Cursor)
    requires row.bpp > 0 && TwinCursors(s, t) && Literal(row, s).c.clear
    ensures TwinCursors(Literal(row, s), Literal(row, t))
    decreases if s.left > 0 then s.left else 0
  {
    if s.left >= row.bpp {
      DrawOneTwin(row, s, t);
      LiteralTwin(row, DrawOne(row, s), DrawOne(row, t));
    }
  }

  lemma {:induction false} LiteralRunTwin(row: Row, s: Cursor, t: Cursor, cnt: nat)
    requires TwinCursors(s, t) && LiteralRun(row, s, cnt).c.clear
    ensures TwinCursors(LiteralRun(row, s, cnt), LiteralRun(row, t, cnt))
    decreases cnt
  {
    if cnt > 0 && s.left >= row.bpp {
      DrawOneTwin(row, s, t);
      LiteralRunTwin(row, DrawOne(row, s), DrawOne(row, t), cnt - 1);
    }
  }

  lemma {:induction false} CopiesTwin(row: Row, s: Cursor, t: Cursor, px: Nibble, cnt: nat)
    requires TwinCursors(s, t)
    ensures TwinCursors(Copies(row, s, px, cnt), Copies(row, t, px, cnt))
    decreases cnt
  {
    if cnt > 0 {
      var d := DotAt(row, s.col, px);
      CopiesTwin(row, s.(c := Put(s.c, d), col := s.col + 1), t.(c := Put(t.c, d), col := t.col + 1), px, cnt - 1);
    }
  }

  lemma PacketTwin(row: Row, s: Cursor, t: Cursor)
    requires TwinCursors(s, t) && Packet(row, s).0.c.clear
    ensures TwinCursors(Packet(row, s).0, Packet(row, t).0) && Packet(row, s).1 == Packet(row, t).1
  {
    hide GetBits, LiteralRun, Copies;
    var flag, flag' := GetBits(s.c, s.br, 1, 0), GetBits(t.c, t.br, 1, 0);
    var count := GetBits(flag.c, flag.br, 4, 0);
    var u := Cursor(count.c, count.br, s.left - 5, s.col);
    GetBitsTwin(s.c, t.c, s.br, 1, 0);
    GetBitsTwin(flag.c, flag'.c, flag.br, 4, 0);
    var count' := GetBits(flag'.c, flag'.br, 4, 0);
    var u' := Cursor(count'.c, count'.br, t.left - 5, t.col);
    if flag.v == 1 {
      LiteralRunTwin(row, u, u', count.v + 1);
    } else if count.v != 0 && u.left >= row.bpp {
      var b, b' := GetBits(u.c, u.br, row.bpp, 0), GetBits(u'.c, u'.br, row.bpp, 0);
      GetBitsTwin(u.c, u'.c, u.br, row.bpp, 0);
      CopiesTwin(row, Cursor(b.c, b.br, u.left - row.bpp, u.col), Cursor(b'.c, b'.br, u.left - row.bpp, u.col),
                 row.pens[b.v % 16], count.v + 1);
    }
  }

  lemma {:induction false} PackedTwin(row: Row, s: Cursor, t: Cursor)
    requires TwinCursors(s, t) && Packed(row, s).c.clear
    ensures TwinCursors(Packed(row, s), Packed(row, t))
    decreases if s.left > 0 then s.left else 0
  {
    if s.left > 0 {
      var (u, more) := Packet(row, s);
      PacketTwin(row, s, t);
      if more {
        PackedTwin(row, u, Packet(row, t).0);
      }
    }
  }

  lemma LineDataTwin(sp: Sprite, c: Canvas, d: Canvas, dp: u16, offset: u8, line: nat)
    requires sp.bpp > 0 && Twin(c, d) && LineData(sp, c, dp, offset, line).clear
    ensures Twin(LineData(sp, c, dp, offset, line), LineData(sp, d, dp, offset, line))
  {
    if offset != 1 {
      var br, left := Reader(Word(dp + 1), 0), (offset - 1) * 8;
      if sp.literal {
        LiteralTwin(RowOf(sp, line), Cursor(c, br, left, 0), Cursor(d, br, left, 0));
      } else {
        PackedTwin(RowOf(sp, line), Cursor(c, br, left, 0), Cursor(d, br, left, 0));
      }
    }
  }

  lemma LineStepTwin(sp: Sprite, c: Canvas, d: Canvas, dp: u16, line: nat)
    requires sp.bpp > 0 && Twin(c, d) && LineStep(sp, c, dp, line).0.clear
    ensures Twin(LineStep(sp, c, dp, line).0, LineStep(sp, d, dp, line).0)
    ensures LineStep(sp, c, dp, line).1 == LineStep(sp, d, dp, line).1
    ensures LineStep(sp, c, dp, line).2 == LineStep(sp, d, dp, line).2
  {
    hide LineData;
    LookTwin(c, d, dp);
    var offset := Peek(c, dp);
    if offset != 0 {
      LineDataTwin(sp, Look(c, dp), Look(d, dp), dp, offset, line);
    }
  }

  lemma {:induction false} LinesTwin(sp: Sprite, c: Canvas, d: Canvas, dp: u16, line: nat)
    requires sp.bpp > 0 && Twin(c, d) && Lines(sp, c, dp, line).clear
    ensures Twin(Lines(sp, c, dp, line), Lines(sp, d, dp, line))
    decreases MAX_LINES - line
  {
    hide LineStep;
    if line < MAX_LINES {
      var (c1, next, more) := LineStep(sp, c, dp, line);
      LineStepTwin(sp, c, d, dp, line);
      if more {
        LinesTwin(sp, c1, LineStep(sp, d, dp, line).0, next, line + 1);
      }
    }
  }

  lemma {:induction false} LoadPensTwin(c: Canvas, d: Canvas, f: u16, pens: Pens, i: nat, n: nat)
    requires n <= 16 && i % 2 == 0 && n % 2 == 0
    requires Twin(c, d) && LoadPens(c, f, pens, i, n).0.clear
    ensures Twin(LoadPens(c, f, pens, i, n).0, LoadPens(d, f, pens, i, n).0)
    ensures LoadPens(c, f, pens, i, n).1 == LoadPens(d, f, pens, i, n).1
    decreases n - i
  {
    if i < n {
      LookTwin(c, d, f);
      var b := Peek(c, f);
      LoadPensTwin(Look(c, f), Look(d, f), Word(f + 1), pens[i := b / 16][i + 1 := b % 16], i + 2, n);
    }
  }

  lemma {:induction false} ReadBytesTwin(c: Canvas, d: Canvas, a: u16, n: nat)
    requires Twin(c, d) && ReadBytes(c, a, n).0.clear
    ensures Twin(ReadBytes(c, a, n).0, ReadBytes(d, a, n).0) && ReadBytes(c, a, n).1 == ReadBytes(d, a, n).1
    decreases n
  {
    if n > 0 {
      LookTwin(c, d, a);
      ReadBytesTwin(Look(c, a), Look(d, a), Word(a + 1), n - 1);
    }
  }

  lemma BlockStepTwin(c: Canvas, d: Canvas, p: u16, o: Origin, pens: Pens)
    requires Twin(c, d) && BlockStep(c, p, o, pens).0.clear
    ensures var r, q := BlockStep(c, p, o, pens), BlockStep(d, p, o, pens);
            Twin(r.0, q.0) && r.1 == q.1 && r.2 == q.2
  {
    hide ReadBytes, LoadPens, Lines, SameOutside, PenCount, PaletteAddress;
    var (c1, b) := ReadBlock(c, p);
    var d1 := ReadBlock(d, p).0;
    ReadBytesTwin(c, d, p, 2);
    ReadBytesTwin(ReadBytes(c, p, 2).0, ReadBytes(d, p, 2).0, Word(p + 3), 8);
    if !Bit(b.ctl1, 3) {
      LoadPensTwin(c1, d1, PaletteAddress(p, b.ctl1), pens, 0, PenCount(b.ctl0));
    }
    var (c2, pens2) := PensStep(c1, p, b, pens);
    if !Bit(b.ctl1, 2) {
      LinesTwin(SpriteOf(b, o, pens2), c2, PensStep(d1, p, b, pens).0, b.data, 0);
    }
  }

  lemma {:induction false} ChainTwin(c: Canvas, d: Canvas, scb: u16, o: Origin, pens: Pens, n: nat)
    requires Twin(c, d) && Chain(c, scb, o, pens, n).clear
    ensures Twin(Chain(c, scb, o, pens, n), Chain(d, scb, o, pens, n))
    decreases MAX_SPRITES - n
  {
    hide BlockStep, SameOutside;
    if scb != 0 && n < MAX_SPRITES {
      var (c1, pens1, next) := BlockStep(c, scb, o, pens);
      BlockStepTwin(c, d, scb, o, pens);
      ChainTwin(c1, BlockStep(d, scb, o, pens).0, next, o, pens1, n + 1);
    }
  }

  // ---- the blit as painting ----

  /** The pixels a blit decodes from the RAM at its start. */
  function Decoded(regs: Registers, ram: Ram): seq<Dot> { Blit(regs, ram, true).dots }

  /** Every control block, palette and line byte that decoding reads lies outside the frame buffer. */
  predicate DataOutside(regs: Registers, ram: Ram) { Blit(regs, ram, true).clear }

  /** RAM after the blit. */
  function Blitted(regs: Registers, ram: Ram): Ram { Painted(Blit(regs, ram, false)) }

  /** Whatever the data, a blit changes no byte outside the frame buffer. */
  lemma BlitStaysInWindow(regs: Registers, ram: Ram, a: u16)
    requires (a - regs.vidbas) % 0x1_0000 >= 8160
    ensures Blitted(regs, ram)[a] == ram[a]
  {
    hide Chain;
    PaintInWindow(ram, regs.vidbas, Blit(regs, ram, false).dots, a);
  }

  /** A blit of `s` decodes what a blit of `r` does, if the RAMs agree outside the frame buffer. */
  lemma SameDots(regs: Registers, r: Ram, s: Ram)
    requires DataOutside(regs, r) && SameOutside(regs.vidbas, r, s)
    ensures Blit(regs, s, false).dots == Decoded(regs, r)
  {
    hide Chain;
    ChainTwin(Canvas(regs.vidbas, true, r, [], true), Canvas(regs.vidbas, false, s, [], true),
              regs.scbnext, regs.origin, IDENTITY, 0);
  }

  /** With its data outside the frame buffer, a blit paints the decoded pixels in order: each
      pixel of the screen holds its old pen under all of them. */
  lemma BlitPaintsDecoded(regs: Registers, ram: Ram, x: int, y: int)
    requires DataOutside(regs, ram) && OnScreen(x, y)
    ensures Blitted(regs, ram) == Paint(ram, regs.vidbas, Decoded(regs, ram))
    ensures PenAt(Blitted(regs, ram), regs.vidbas, x, y) ==
            Layered(Decoded(regs, ram), x, y, PenAt(ram, regs.vidbas, x, y))
  {
    hide Chain;
    SameDots(regs, ram, ram);
    PaintOnGrid(ram, regs.vidbas, Decoded(regs, ram), x, y);
  }

  // ---- XOR sprites ----

  /** All pixels of `r` not in `c` are of one type. */
  ghost predicate Adds(c: Canvas, r: Canvas, kind: nat) {
    forall d :: d in r.dots ==> d in c.dots || d.kind == kind
  }

  lemma DrawOneAdds(row: Row, s: Cursor)
    ensures Adds(s.c, DrawOne(row, s).c, row.kind)
  {
  }

  lemma {:induction false} LiteralAdds(row: Row, s: Cursor)
    requires row.bpp > 0
    ensures Adds(s.c, Literal(row, s).c, row.kind)
    decreases if s.left > 0 then s.left else 0
  {
    if s.left >= row.bpp {
      DrawOneAdds(row, s);
      LiteralAdds(row, DrawOne(row, s));
    }
  }

  lemma {:induction false} LiteralRunAdds(row: Row, s: Cursor, cnt: nat)
    ensures Adds(s.c, LiteralRun(row, s, cnt).c, row.kind)
    decreases cnt
  {
    if cnt > 0 && s.left >= row.bpp {
      DrawOneAdds(row, s);
      LiteralRunAdds(row, DrawOne(row, s), cnt - 1);
    }
  }

  lemma {:induction false} CopiesAdds(row: Row, s: Cursor, px: Nibble, cnt: nat)
    ensures Adds(s.c, Copies(row, s, px, cnt).c, row.kind)
    decreases cnt
  {
    if cnt > 0 {
      CopiesAdds(row, s.(c := Put(s.c, DotAt(row, s.col, px)), col := s.col + 1), px, cnt - 1);
    }
  }

  lemma PacketAdds(row: Row, s: Cursor)
    ensures Adds(s.c, Packet(row, s).0.c, row.kind)
  {
    hide GetBits, LiteralRun, Copies;
    var flag := GetBits(s.c, s.br, 1, 0);
    var count := GetBits(flag.c, flag.br, 4, 0);
    var t := Cursor(count.c, count.br, s.left - 5, s.col);
    var b := GetBits(t.c, t.br, row.bpp, 0);
    LiteralRunAdds(row, t, count.v + 1);
    CopiesAdds(row, Cursor(b.c, b.br, t.left - row.bpp, t.col), row.pens[b.v % 16], count.v + 1);
  }

  lemma {:induction false} PackedAdds(row: Row, s: Cursor)
    ensures Adds(s.c, Packed(row, s).c, row.kind)
    decreases if s.left > 0 then s.left else 0
  {
    hide Packet;
    if s.left > 0 {
      var (t, more) := Packet(row, s);
      PacketAdds(row, s);
      if more { PackedAdds(row, t); }
    }
  }

  lemma LineStepAdds(sp: Sprite, c: Canvas, dp: u16, line: nat)
    requires sp.bpp > 0
    ensures Adds(c, LineStep(sp, c, dp, line).0, sp.kind)
  {
    hide Literal, Packed, Peek;
    var offset: int, row := Peek(c, dp), RowOf(sp, line);
    var s := Cursor(Look(c, dp), Reader(Word(dp + 1), 0), (offset - 1) * 8, 0);
    LiteralAdds(row, s);
    PackedAdds(row, s);
  }

  lemma {:induction false} LinesAdds(sp: Sprite, c: Canvas, dp: u16, line: nat)
    requires sp.bpp > 0
    ensures Adds(c, Lines(sp, c, dp, line), sp.kind)
    decreases MAX_LINES - line
  {
    hide LineStep;
    if line < MAX_LINES {
      var (c1, next, more) := LineStep(sp, c, dp, line);
      LineStepAdds(sp, c, dp, line);
      if more { LinesAdds(sp, c1, next, line + 1); }
    }
  }

  lemma {:induction false} LoadPensAdds(c: Canvas, f: u16, pens: Pens, i: nat, n: nat)
    requires n <= 16 && i % 2 == 0 && n % 2 == 0
    ensures LoadPens(c, f, pens, i, n).0.dots == c.dots
    decreases n - i
  {
    if i < n {
      var b := Peek(c, f);
      LoadPensAdds(Look(c, f), Word(f + 1), pens[i := b / 16][i + 1 := b % 16], i + 2, n);
    }
  }

  lemma BlockStepAdds(c: Canvas, p: u16, o: Origin, pens: Pens)
    ensures Adds(c, BlockStep(c, p, o, pens).0, ReadBlock(c, p).1.ctl0 % 8)
  {
    hide ReadBytes, LoadPens, Lines;
    var (c1, b) := ReadBlock(c, p);
    LoadPensAdds(c1, PaletteAddress(p, b.ctl1), pens, 0, PenCount(b.ctl0));
    var (c2, pens2) := PensStep(c1, p, b, pens);
    LinesAdds(SpriteOf(b, o, pens2), c2, b.data, 0);
  }

  /** Every control block of the chain is of the XOR type. */
  predicate XorChain(c: Canvas, scb: u16, o: Origin, pens: Pens, n: nat)
    decreases MAX_SPRITES - n
  {
    scb == 0 || n >= MAX_SPRITES ||
    (ReadBlock(c, scb).1.ctl0 % 8 == 7 &&
     var (c1, pens1, next) := BlockStep(c, scb, o, pens); XorChain(c1, next, o, pens1, n + 1))
  }

  lemma {:induction false} ChainAdds(c: Canvas, scb: u16, o: Origin, pens: Pens, n: nat)
    requires AllXor(c.dots) && XorChain(c, scb, o, pens, n)
    ensures AllXor(Chain(c, scb, o, pens, n).dots)
    decreases MAX_SPRITES - n
  {
    hide BlockStep, ReadBlock;
    if scb != 0 && n < MAX_SPRITES {
      var (c1, pens1, next) := BlockStep(c, scb, o, pens);
      BlockStepAdds(c, scb, o, pens);
      ChainAdds(c1, next, o, pens1, n + 1);
    }
  }

  /** All sprites of the blit are XOR sprites. */
  predicate XorBlit(regs: Registers, ram: Ram) {
    XorChain(Canvas(regs.vidbas, true, ram, [], true), regs.scbnext, regs.origin, IDENTITY, 0)
  }

  /** An XOR blit with its data outside the frame buffer, done twice, restores all of RAM. */
  lemma XorBlitTwice(regs: Registers, ram: Ram)
    requires DataOutside(regs, ram) && XorBlit(regs, ram)
    ensures Blitted(regs, Blitted(regs, ram)) == ram
  {
    hide Chain, XorChain;
    var once, dots := Blitted(regs, ram), Decoded(regs, ram);
    ChainAdds(Canvas(regs.vidbas, true, ram, [], true), regs.scbnext, regs.origin, IDENTITY, 0);
    forall a: u16 ensures SameAt(regs.vidbas, ram, once, a) {
      if !InWindow(regs.vidbas, a) { BlitStaysInWindow(regs, ram, a); }
    }
    SameDots(regs, ram, ram);
    SameDots(regs, ram, once);
    XorPaintsBack(ram, regs.vidbas, dots);
  }
}
