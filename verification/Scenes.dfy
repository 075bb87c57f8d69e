/** Stored scenes: a chain of sprite control blocks with sprite data in memory, and the pixels
    the blitter of src/suzy.c draws for it, on the RAM it is painting. */
module Scenes {
  import opened Bytes
  import opened Screen
  import opened Suzy
  import opened Packets
  import opened SpriteLaws

  /** A control block at address `at`, with the pens it loads and the lines it points to. */
  datatype Scb = Scb(at: u16, ctl0: u8, ctl1: u8, data: u16, hpos: u16, vpos: u16,
                     pens: seq<Nibble>, lines: seq<Line>)

  // The fields of the two control bytes.

  predicate KeepsPens(s: Scb) { Bit(s.ctl1, 3) }
  predicate Skipped(s: Scb) { Bit(s.ctl1, 2) }
  predicate TotallyLiteral(s: Scb) { Bit(s.ctl1, 7) }
  function BitsPerPixel(s: Scb): nat { s.ctl0 / 64 + 1 }

  /** Two, four, eight or sixteen pens. */
  function PensToLoad(s: Scb): nat {
    if s.ctl0 < 64 then 2 else if s.ctl0 < 128 then 4 else if s.ctl0 < 192 then 8 else 16
  }

  /** Four bytes of size words for each reload step lie before the palette. */
  function PaletteOf(s: Scb): u16 { Word(s.at + 11 + 4 * (s.ctl1 / 16 % 4)) }

  function PackPens(ps: seq<Nibble>): (s: seq<u8>)
    requires |ps| % 2 == 0
    decreases |ps|
  {
    if ps == [] then []
    else
      var hi: nat, lo: nat := ps[0], ps[1];
      [16 * hi + lo] + PackPens(ps[2..])
  }

  function Split(w: u16): (s: seq<u8>)
    ensures |s| == 2 && LoHi(s[0], s[1]) == w
  {
    [w % 0x100, w / 0x100]
  }

  /** The block in memory: two control bytes, four words after the collision byte, its palette
      unless it keeps the pens, its lines unless it is skipped. */
  predicate ScbAt(m: Memory, s: Scb, next: u16) {
    && Stored(m, s.at, [s.ctl0, s.ctl1])
    && Stored(m, Word(s.at + 3), Split(next) + Split(s.data) + Split(s.hpos) + Split(s.vpos))
    && (!KeepsPens(s) ==>
          |s.pens| == PensToLoad(s) && Stored(m, PaletteOf(s), PackPens(s.pens)))
    && (!Skipped(s) ==>
          SpriteAt(m, s.data, s.lines, TotallyLiteral(s), BitsPerPixel(s)))
  }

  /** The address of the first block, 0 for none. */
  function Head(scene: seq<Scb>): u16 { if scene == [] then 0 else scene[0].at }

  /** Block `k` of a scene, linked to the next one. */
  predicate BlockAt(m: Memory, scene: seq<Scb>, k: nat)
    requires k < |scene|
  {
    scene[k].at != 0 && ScbAt(m, scene[k], Head(scene[k + 1..]))
  }

  predicate SceneAt(m: Memory, scene: seq<Scb>) { forall k: nat :: k < |scene| ==> BlockAt(m, scene, k) }

  /** The first block, and the scene behind it. */
  lemma SceneTail(m: Memory, scene: seq<Scb>)
    requires SceneAt(m, scene) && scene != []
    ensures scene[0].at != 0 && ScbAt(m, scene[0], Head(scene[1..])) && SceneAt(m, scene[1..])
  {
    hide ScbAt;
    assert BlockAt(m, scene, 0);
    var rest := scene[1..];
    forall k: nat | k < |rest|
      ensures BlockAt(m, rest, k)
    {
      assert BlockAt(m, scene, k + 1);
      assert rest[k + 1..] == scene[k + 2..];
    }
  }

  // ---- what it shows ----

  function PensAfter(s: Scb, was: Pens): Pens {
    if KeepsPens(s) || |s.pens| > 16 then was else s.pens + was[|s.pens|..]
  }

  function BlockOf(s: Scb, next: u16): Block { Block(s.ctl0, s.ctl1, next, s.data, s.hpos, s.vpos) }

  /** The lines that are drawn: the first 204. */
  function Shown(s: Scb): seq<Line> { if Skipped(s) then [] else FirstOf(s.lines, 204) }

  function ScbDots(s: Scb, o: Origin, was: Pens): seq<Dot> {
    SpriteDots(SpriteFor(s, o, PensAfter(s, was)), 0, Shown(s))
  }

  /** The pixels of all sprites in order, the pens carried from block to block. */
  function SceneDots(scene: seq<Scb>, o: Origin, pens: Pens): seq<Dot>
    decreases |scene|
  {
    if scene == [] then []
    else ScbDots(scene[0], o, pens) + SceneDots(scene[1..], o, PensAfter(scene[0], pens))
  }

  // ---- reading a block ----

  lemma {:induction false} StoredIsRead(c: Canvas, a: u16, bytes: seq<u8>)
    requires Stored(MemoryOf(c), a, bytes)
    ensures ReadBytes(c, a, |bytes|).1 == bytes
    ensures MemoryOf(ReadBytes(c, a, |bytes|).0) == MemoryOf(c)
    decreases |bytes|
  {
    if bytes != [] {
      LegibleByte(c, a);
      StoredIsRead(Look(c, a), Word(a + 1), bytes[1..]);
    }
  }

  lemma BlockIsRead(c: Canvas, s: Scb, next: u16)
    requires ScbAt(MemoryOf(c), s, next)
    ensures ReadBlock(c, s.at).1 == BlockOf(s, next)
    ensures MemoryOf(ReadBlock(c, s.at).0) == MemoryOf(c) && ReadBlock(c, s.at).0.dots == c.dots
  {
    hide Stored, ReadBytes, SpriteAt, PackPens, MemoryOf;
    var ctl, words := [s.ctl0, s.ctl1], Split(next) + Split(s.data) + Split(s.hpos) + Split(s.vpos);
    StoredIsRead(c, s.at, ctl);
    StoredIsRead(ReadBytes(c, s.at, 2).0, Word(s.at + 3), words);
  }

  /** The palette bytes replace the pens from i to n. */
  lemma {:induction false} PensAreLoaded(c: Canvas, f: u16, pens: Pens, ps: seq<Nibble>, i: nat, n: nat)
    requires n <= 16 && i % 2 == 0 && n % 2 == 0 && i <= n && |ps| == n - i
    requires Stored(MemoryOf(c), f, PackPens(ps))
    ensures var (d, loaded) := LoadPens(c, f, pens, i, n);
            MemoryOf(d) == MemoryOf(c) && d.dots == c.dots && loaded == pens[..i] + ps + pens[n..]
    decreases n - i
  {
    hide Peek, Legible;
    if i < n {
      LegibleByte(c, f);
      var b := Peek(c, f);
      assert b / 16 == ps[0] && b % 16 == ps[1];
      var next: Pens := pens[i := b / 16][i + 1 := b % 16];
      PensAreLoaded(Look(c, f), Word(f + 1), next, ps[2..], i + 2, n);
      TwoPens(pens, next, ps, i, n);
    } else {
      assert ps == [] && pens[..i] + [] + pens[n..] == pens;
    }
  }

  lemma TwoPens(pens: Pens, next: Pens, ps: seq<Nibble>, i: nat, n: nat)
    requires i + 2 <= n <= 16 && |ps| == n - i && next == pens[i := ps[0]][i + 1 := ps[1]]
    ensures next[..i + 2] + ps[2..] + next[n..] == pens[..i] + ps + pens[n..]
  {
    assert next[..i + 2] == pens[..i] + [ps[0], ps[1]] && next[n..] == pens[n..];
    assert [ps[0], ps[1]] + ps[2..] == ps;
  }

  lemma PenCountIs(s: Scb)
    ensures PensToLoad(s) == PenCount(s.ctl0) == Exp2(BitsPerPixel(s))
  {
    assert Exp2(1) == 2;
    assert Exp2(2) == 4;
    assert Exp2(3) == 8;
    assert Exp2(4) == 16;
  }

  lemma PensStepReads(c: Canvas, s: Scb, next: u16, pens: Pens)
    requires ScbAt(MemoryOf(c), s, next)
    ensures var (d, after) := PensStep(c, s.at, BlockOf(s, next), pens);
            MemoryOf(d) == MemoryOf(c) && d.dots == c.dots && after == PensAfter(s, pens)
  {
    hide Stored, LoadPens, SpriteAt, PackPens;
    PenCountIs(s);
    if !KeepsPens(s) {
      PensAreLoaded(c, PaletteAddress(s.at, s.ctl1), pens, s.pens, 0, PenCount(s.ctl0));
      assert pens[..0] + s.pens + pens[|s.pens|..] == s.pens + pens[|s.pens|..];
    }
  }

  /** The sprite of a block does not depend on the next block. */
  function SpriteFor(s: Scb, o: Origin, pens: Pens): (sp: Sprite)
    ensures sp.bpp == BitsPerPixel(s) && sp.literal == TotallyLiteral(s)
  {
    SpriteOf(BlockOf(s, 0), o, pens)
  }

  lemma SpriteForAny(s: Scb, next: u16, o: Origin, pens: Pens)
    ensures SpriteOf(BlockOf(s, next), o, pens) == SpriteFor(s, o, pens)
  {
  }

  lemma NoneShown(s: Scb, o: Origin, was: Pens)
    requires Skipped(s)
    ensures ScbDots(s, o, was) == []
  {
  }

  /** One stored block draws its dots and leads to the next. */
  lemma ScbDraws(c: Canvas, s: Scb, next: u16, o: Origin, pens: Pens)
    requires ScbAt(MemoryOf(c), s, next)
    ensures var (d, after, to) := BlockStep(c, s.at, o, pens);
            && MemoryOf(d) == MemoryOf(c) && d.dots == c.dots + ScbDots(s, o, pens)
            && after == PensAfter(s, pens) && to == next
  {
    hide ReadBlock, PensStep, Lines, SpriteDots, MemoryOf, SpriteOf, SpriteFor, PensAfter, SpriteAt, Stored;
    var c1 := ReadBlock(c, s.at).0;
    BlockIsRead(c, s, next);
    PensStepReads(c1, s, next, pens);
    var c2 := PensStep(c1, s.at, BlockOf(s, next), pens).0;
    SpriteForAny(s, next, o, PensAfter(s, pens));
    if Skipped(s) {
      NoneShown(s, o, pens);
    } else {
      SpriteDraws(SpriteFor(s, o, PensAfter(s, pens)), c2, s.data, 0, s.lines);
    }
  }

  /** A stored chain is drawn block by block, up to the 256th. */
  lemma {:induction false} ChainDraws(c: Canvas, scene: seq<Scb>, o: Origin, pens: Pens, n: nat)
    requires SceneAt(MemoryOf(c), scene) && n <= 256
    ensures Chain(c, Head(scene), o, pens, n).dots == c.dots + SceneDots(FirstOf(scene, 256 - n), o, pens)
    decreases |scene|
  {
    hide BlockStep, ScbAt, ScbDots, PensAfter, MemoryOf, SceneAt;
    if scene != [] && n < 256 {
      var s, rest := scene[0], scene[1..];
      SceneTail(MemoryOf(c), scene);
      ScbDraws(c, s, Head(rest), o, pens);
      var (d, after, to) := BlockStep(c, s.at, o, pens);
      ChainDraws(d, rest, o, after, n + 1);
      assert FirstOf(scene, 256 - n)[1..] == FirstOf(rest, 256 - (n + 1));
    }
  }

  /** A whole blit of a stored scene, of which 256 sprites are drawn: with its bytes outside the frame
      buffer, the blitter, reading the RAM it is painting, draws exactly the scene's pixels; so does
      a decoder of the starting RAM. */
  lemma SceneIsDrawn(regs: Registers, ram: Ram, scene: seq<Scb>)
    requires regs.scbnext == Head(scene) && SceneAt(Memory(regs.vidbas, false, ram), scene)
    ensures var dots := SceneDots(FirstOf(scene, 256), regs.origin, IDENTITY);
            Blitted(regs, ram) == Paint(ram, regs.vidbas, dots) && Decoded(regs, ram) == dots
  {
    hide Chain, SceneAt;
    var live, frozen := Canvas(regs.vidbas, false, ram, [], true), Canvas(regs.vidbas, true, ram, [], true);
    var dots := SceneDots(FirstOf(scene, 256), regs.origin, IDENTITY);
    ChainDraws(live, scene, regs.origin, IDENTITY, 0);
    assert Keeps(Memory(regs.vidbas, false, ram), Memory(regs.vidbas, true, ram));
    KeepsScene(Memory(regs.vidbas, false, ram), Memory(regs.vidbas, true, ram), scene);
    ChainDraws(frozen, scene, regs.origin, IDENTITY, 0);
    assert [] + dots == dots;
  }

  // ---- where the pixels lie ----

  /** The pixels of the lines before line `l`. */
  function Before(lines: seq<Line>, l: nat): nat
    requires l <= |lines|
  {
    if l == 0 then 0 else |LinePixels(lines[0])| + Before(lines[1..], l - 1)
  }

  /** A 16-bit register or word as a signed number. */
  function Signed(w: u16): int { if w >= 32768 then w - 65536 else w }

  function Towards(back: bool, k: int): int { if back then -k else k }

  /** The pixel at place `k` of line `l`, from the bytes of its block. */
  predicate IsPixel(s: Scb, o: Origin, was: Pens, l: nat, k: nat, d: Dot)
    requires l < |Shown(s)| && k < |LinePixels(Shown(s)[l])|
  {
    var value := LinePixels(Shown(s)[l])[k] % 16;
    && d.x == Signed(s.hpos) - o.hoff + Towards(s.ctl0 / 32 % 2 == 1, k)
    && d.y == Signed(s.vpos) - o.voff + Towards(s.ctl0 / 16 % 2 == 1, l)
    && d.kind == s.ctl0 % 8
    && d.pen == if KeepsPens(s) || |s.pens| > 16 || value >= |s.pens| then was[value] else s.pens[value]
  }

  lemma {:induction false} DotsForAt(row: Row, col: nat, ps: seq<nat>, k: nat)
    requires k < |ps|
    ensures DotsFor(row, col, ps)[k] ==
            Dot(row.sx + Towards(row.hflip, col + k), row.y, row.pens[ps[k] % 16], row.kind)
    decreases k
  {
    if k > 0 { DotsForAt(row, col + 1, ps[1..], k - 1); }
  }

  lemma {:induction false} SpriteDotAt(sp: Sprite, line: nat, lines: seq<Line>, l: nat, k: nat)
    requires l < |lines| && k < |LinePixels(lines[l])|
    ensures Before(lines, l) + k < |SpriteDots(sp, line, lines)|
    ensures SpriteDots(sp, line, lines)[Before(lines, l) + k]
            == DotsFor(RowOf(sp, line + l), 0, LinePixels(lines[l]))[k]
    decreases l
  {
    hide DotsFor, RowOf, LinePixels;
    if l > 0 {
      SpriteDotAt(sp, line + 1, lines[1..], l - 1, k);
    }
  }

  /** Every pixel of a block lies where its position, its flips and its place in the data put it, in
      the pen its value selects from the block's palette. */
  lemma PixelPlace(s: Scb, o: Origin, was: Pens, l: nat, k: nat)
    requires l < |Shown(s)| && k < |LinePixels(Shown(s)[l])|
    ensures Before(Shown(s), l) + k < |ScbDots(s, o, was)|
    ensures IsPixel(s, o, was, l, k, ScbDots(s, o, was)[Before(Shown(s), l) + k])
  {
    hide SpriteDots, DotsFor, LinePixels, Before, Shown;
    var sp := SpriteFor(s, o, PensAfter(s, was));
    SpriteDotAt(sp, 0, Shown(s), l, k);
    DotsForAt(RowOf(sp, l), 0, LinePixels(Shown(s)[l]), k);
    SpriteFields(s, o, PensAfter(s, was));
  }

  lemma SpriteFields(s: Scb, o: Origin, pens: Pens)
    ensures var sp := SpriteFor(s, o, pens);
            && sp.sx == Signed(s.hpos) - o.hoff && sp.sy == Signed(s.vpos) - o.voff && sp.pens == pens
            && sp.hflip == (s.ctl0 / 32 % 2 == 1) && sp.vflip == (s.ctl0 / 16 % 2 == 1) && sp.kind == s.ctl0 % 8
  {
  }

  /** There are no other pixels. */
  lemma {:induction false} PixelCount(sp: Sprite, line: nat, lines: seq<Line>)
    ensures |SpriteDots(sp, line, lines)| == Before(lines, |lines|)
    decreases |lines|
  {
    if lines != [] {
      PixelCount(sp, line + 1, lines[1..]);
    }
  }

  function PixelsOf(s: Scb): nat { Before(Shown(s), |Shown(s)|) }

  /** The pixels of the blocks before block `b`, and the pens that they leave. */
  function BeforeBlock(scene: seq<Scb>, b: nat): nat
    requires b <= |scene|
  {
    if b == 0 then 0 else PixelsOf(scene[0]) + BeforeBlock(scene[1..], b - 1)
  }

  function PensOf(scene: seq<Scb>, pens: Pens, b: nat): Pens
    requires b <= |scene|
  {
    if b == 0 then pens else PensOf(scene[1..], PensAfter(scene[0], pens), b - 1)
  }

  /** Every pixel of a scene, block by block and line by line. */
  lemma {:induction false} ScenePixel(scene: seq<Scb>, o: Origin, pens: Pens, b: nat, l: nat, k: nat)
    requires b < |scene| && l < |Shown(scene[b])| && k < |LinePixels(Shown(scene[b])[l])|
    ensures var n, dots := BeforeBlock(scene, b) + Before(Shown(scene[b]), l) + k, SceneDots(scene, o, pens);
            n < |dots| && IsPixel(scene[b], o, PensOf(scene, pens, b), l, k, dots[n])
    decreases b
  {
    hide IsPixel, ScbDots, PensAfter, Before, LinePixels, Shown;
    if b == 0 {
      PixelPlace(scene[0], o, pens, l, k);
    } else {
      BlockSize(scene[0], o, pens);
      ScenePixel(scene[1..], o, PensAfter(scene[0], pens), b - 1, l, k);
    }
  }

  lemma BlockSize(s: Scb, o: Origin, was: Pens)
    ensures |ScbDots(s, o, was)| == PixelsOf(s)
  {
    hide SpriteDots, Before;
    PixelCount(SpriteFor(s, o, PensAfter(s, was)), 0, Shown(s));
  }

  // ---- memory that keeps the legible bytes ----

  /** What is legible in `m` is legible in `w`, and the same. */
  ghost predicate Keeps(m: Memory, w: Memory) { forall a: u16 :: KeepsAt(m, w, a) }

  predicate KeepsAt(m: Memory, w: Memory, a: u16) { Legible(m, a) ==> Legible(w, a) && w.ram[a] == m.ram[a] }

  lemma {:induction false} KeepsBytes(m: Memory, w: Memory, a: u16, bytes: seq<u8>)
    requires Keeps(m, w) && Stored(m, a, bytes)
    ensures Stored(w, a, bytes)
    decreases |bytes|
  {
    hide Legible;
    if bytes != [] {
      assert KeepsAt(m, w, a);
      KeepsBytes(m, w, Word(a + 1), bytes[1..]);
    }
  }

  lemma {:induction false} KeepsSprite(m: Memory, w: Memory, dp: u16, lines: seq<Line>, literal: bool, bpp: nat)
    requires Keeps(m, w) && SpriteAt(m, dp, lines, literal, bpp)
    ensures SpriteAt(w, dp, lines, literal, bpp)
    decreases |lines|
  {
    hide Stored, LineBits, PackBytes, LineFits, Legible, Keeps;
    KeepsHere(m, w, dp);
    if lines != [] {
      var bytes := LineBytes(lines[0], bpp);
      KeepsBytes(m, w, Word(dp + 1), bytes);
      KeepsSprite(m, w, Word(dp + 1 + |bytes|), lines[1..], literal, bpp);
    }
  }

  lemma KeepsHere(m: Memory, w: Memory, a: u16)
    requires Keeps(m, w)
    ensures KeepsAt(m, w, a)
  {
  }

  lemma KeepsScb(m: Memory, w: Memory, s: Scb, next: u16)
    requires Keeps(m, w) && ScbAt(m, s, next)
    ensures ScbAt(w, s, next)
  {
    hide Stored, SpriteAt, PackPens, Keeps;
    KeepsBytes(m, w, s.at, [s.ctl0, s.ctl1]);
    KeepsBytes(m, w, Word(s.at + 3), Split(next) + Split(s.data) + Split(s.hpos) + Split(s.vpos));
    if !KeepsPens(s) { KeepsBytes(m, w, PaletteOf(s), PackPens(s.pens)); }
    if !Skipped(s) { KeepsSprite(m, w, s.data, s.lines, TotallyLiteral(s), BitsPerPixel(s)); }
  }

  lemma KeepsScene(m: Memory, w: Memory, scene: seq<Scb>)
    requires Keeps(m, w) && SceneAt(m, scene)
    ensures SceneAt(w, scene)
  {
    hide ScbAt, Keeps;
    forall k: nat | k < |scene|
      ensures BlockAt(w, scene, k)
    {
      assert BlockAt(m, scene, k);
      KeepsScb(m, w, scene[k], Head(scene[k + 1..]));
    }
  }

  // ---- a scene drawn twice ----

  /** A stored scene outlives its own blit. */
  lemma SceneStays(regs: Registers, ram: Ram, scene: seq<Scb>)
    requires SceneAt(Memory(regs.vidbas, false, ram), scene)
    ensures SceneAt(Memory(regs.vidbas, false, Blitted(regs, ram)), scene)
  {
    hide SceneAt, Blitted;
    var m, w := Memory(regs.vidbas, false, ram), Memory(regs.vidbas, false, Blitted(regs, ram));
    forall a: u16
      ensures KeepsAt(m, w, a)
    {
      if Legible(m, a) { BlitStaysInWindow(regs, ram, a); }
    }
    KeepsScene(m, w, scene);
  }

  /** A scene of XOR sprites, its bytes outside the frame buffer, drawn twice restores all of RAM. */
  lemma XorSceneTwice(regs: Registers, ram: Ram, scene: seq<Scb>)
    requires regs.scbnext == Head(scene) && SceneAt(Memory(regs.vidbas, false, ram), scene)
    requires forall s :: s in scene ==> XorScb(s)
    ensures Blitted(regs, Blitted(regs, ram)) == ram
  {
    hide SceneAt, Blitted, Decoded, SceneDots, XorScb;
    SceneStays(regs, ram, scene);
    SceneIsDrawn(regs, ram, scene);
    SceneIsDrawn(regs, Blitted(regs, ram), scene);
    var shown := FirstOf(scene, 256);
    assert forall s :: s in shown ==> s in scene;
    XorDots(shown, regs.origin, IDENTITY);
    XorPaintsBack(ram, regs.vidbas, SceneDots(shown, regs.origin, IDENTITY));
  }

  /** The sprite type is 7, or nothing is drawn. */
  predicate XorScb(s: Scb) { Skipped(s) || s.ctl0 % 8 == 7 }

  lemma {:induction false} XorDots(scene: seq<Scb>, o: Origin, pens: Pens)
    requires forall s :: s in scene ==> XorScb(s)
    ensures AllXor(SceneDots(scene, o, pens))
    decreases |scene|
  {
    hide XorScb, ScbDots, PensAfter;
    if scene != [] {
      assert scene[0] in scene && forall s :: s in scene[1..] ==> s in scene;
      XorScbDots(scene[0], o, pens);
      XorDots(scene[1..], o, PensAfter(scene[0], pens));
    }
  }

  lemma XorScbDots(s: Scb, o: Origin, pens: Pens)
    requires XorScb(s)
    ensures AllXor(ScbDots(s, o, pens))
  {
    hide SpriteDots, PensAfter;
    if Skipped(s) {
      NoneShown(s, o, pens);
    } else {
      XorSpriteDots(SpriteFor(s, o, PensAfter(s, pens)), 0, Shown(s));
    }
  }

  lemma {:induction false} XorSpriteDots(sp: Sprite, line: nat, lines: seq<Line>)
    requires sp.kind == 7
    ensures AllXor(SpriteDots(sp, line, lines))
    decreases |lines|
  {
    if lines != [] {
      XorRowDots(RowOf(sp, line), 0, LinePixels(lines[0]));
      XorSpriteDots(sp, line + 1, lines[1..]);
    }
  }

  lemma {:induction false} XorRowDots(row: Row, col: nat, ps: seq<nat>)
    requires row.kind == 7
    ensures AllXor(DotsFor(row, col, ps))
    decreases |ps|
  {
    if ps != [] { XorRowDots(row, col + 1, ps[1..]); }
  }
}
