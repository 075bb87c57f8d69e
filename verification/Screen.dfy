/** The frame buffer: what one blitted pixel does to RAM (src/suzy.c) and what the video reader
    makes of RAM (src/video.c). */
module Screen {
  import opened Bytes

  const WIDTH := 160
  const HEIGHT := 102
  const PITCH := 80

  type Ram = r: seq<u8> | |r| == 0x1_0000 witness seq(0x1_0000, _ => 0)
  type Nibble = v: int | 0 <= v < 16

  /** A pixel the blitter is asked for: place, pen and sprite type. */
  datatype Dot = Dot(x: int, y: int, pen: Nibble, kind: nat)

  /** Pens a sprite type leaves transparent. */
  predicate Transparent(kind: nat, pen: Nibble) {
    kind > 1 && (pen == 0 || (kind == 3 && pen == 0x0F) || (kind == 5 && (pen == 0x0E || pen == 0x0F)))
  }

  predicate OnScreen(x: int, y: int) { 0 <= x < WIDTH && 0 <= y < HEIGHT }

  /** Is the pixel drawn at all? */
  predicate Drawn(d: Dot) { !Transparent(d.kind, d.pen) && OnScreen(d.x, d.y) }

  /** The byte of a pixel: addresses wrap at 16 bits. */
  function Address(base: u16, x: int, y: int): u16 { Word(base + y * PITCH + x / 2) }

  /** The left pixel of a byte is its high nibble. */
  function NibbleOf(b: u8, x: int): Nibble { if x % 2 == 1 then b % 16 else b / 16 }

  function WithNibble(b: u8, x: int, v: Nibble): u8 {
    if x % 2 == 1 then b / 16 * 16 + v else b % 16 + v * 16
  }

  /** The pen left in a pixel that held `under`: XOR sprites combine, others replace. */
  function NewPen(kind: nat, under: Nibble, pen: Nibble): Nibble {
    if kind == 7 then XorPens(under, pen) else pen
  }

  function XorPens(a: Nibble, b: Nibble): Nibble
  {
    assert Exp2(4) == 16;
    XorBits(a, b, 4)
  }

  /** `blit_pixel`. */
  function BlitPixel(ram: Ram, base: u16, d: Dot): Ram {
    if Drawn(d) then
      var a := Address(base, d.x, d.y);
      ram[a := WithNibble(ram[a], d.x, NewPen(d.kind, NibbleOf(ram[a], d.x), d.pen))]
    else ram
  }

  /** The pen the video reader finds at a pixel. */
  function PenAt(ram: Ram, base: u16, x: int, y: int): Nibble { NibbleOf(ram[Address(base, x, y)], x) }

  /** The bytes of the frame buffer. */
  predicate InWindow(base: u16, a: u16) { (a - base) % 0x1_0000 < PITCH * HEIGHT }

  // ---- the pixel grid ----

  /** Two pixels share a byte only if they are the two pixels of one byte. */
  lemma AddressInjective(base: u16, x: int, y: int, x': int, y': int)
    requires OnScreen(x, y) && OnScreen(x', y') && Address(base, x, y) == Address(base, x', y')
    ensures y == y' && x / 2 == x' / 2
  {
    var p: int, q: int := y * PITCH + x / 2, y' * PITCH + x' / 2;
    assert 0 <= p < 0x1_0000 && 0 <= q < 0x1_0000 && (base + p) % 0x1_0000 == (base + q) % 0x1_0000;
  }

  lemma AddressInWindow(base: u16, x: int, y: int)
    requires OnScreen(x, y)
    ensures InWindow(base, Address(base, x, y))
  {
  }

  lemma NibbleFacts(b: u8, x: int, v: Nibble, x': int)
    ensures NibbleOf(WithNibble(b, x, v), x') == if x' % 2 == x % 2 then v else NibbleOf(b, x')
  {
  }

  /** A byte is its two nibbles. */
  lemma ByteOfNibbles(b: u8, c: u8)
    requires NibbleOf(b, 0) == NibbleOf(c, 0) && NibbleOf(b, 1) == NibbleOf(c, 1)
    ensures b == c
  {
  }

  /** The pen of a pixel under one dot. */
  function Under(d: Dot, x: int, y: int, pen: Nibble): Nibble {
    if d.x == x && d.y == y && !Transparent(d.kind, d.pen) then NewPen(d.kind, pen, d.pen) else pen
  }

  /** Blitting one pixel changes that pixel of the grid as its type says, and no other. */
  lemma PixelOnGrid(ram: Ram, base: u16, d: Dot, x: int, y: int)
    requires OnScreen(x, y)
    ensures PenAt(BlitPixel(ram, base, d), base, x, y) == Under(d, x, y, PenAt(ram, base, x, y))
  {
    if Drawn(d) {
      var a := Address(base, d.x, d.y);
      var v := NewPen(d.kind, NibbleOf(ram[a], d.x), d.pen);
      NibbleFacts(ram[a], d.x, v, x);
      if Address(base, x, y) == a {
        AddressInjective(base, x, y, d.x, d.y);
      }
    }
  }

  /** It leaves all memory outside the frame buffer. */
  lemma PixelInWindow(ram: Ram, base: u16, d: Dot, a: u16)
    requires !InWindow(base, a)
    ensures BlitPixel(ram, base, d)[a] == ram[a]
  {
    if Drawn(d) {
      AddressInWindow(base, d.x, d.y);
    }
  }

  // ---- many pixels ----

  /** The dots painted in order. */
  function Paint(ram: Ram, base: u16, dots: seq<Dot>): Ram {
    if dots == [] then ram else BlitPixel(Paint(ram, base, dots[..|dots| - 1]), base, dots[|dots| - 1])
  }

  /** The pen of a pixel under all of them. */
  function Layered(dots: seq<Dot>, x: int, y: int, pen: Nibble): Nibble {
    if dots == [] then pen else Under(dots[|dots| - 1], x, y, Layered(dots[..|dots| - 1], x, y, pen))
  }

  lemma {:induction false} PaintOnGrid(ram: Ram, base: u16, dots: seq<Dot>, x: int, y: int)
    requires OnScreen(x, y)
    ensures PenAt(Paint(ram, base, dots), base, x, y) == Layered(dots, x, y, PenAt(ram, base, x, y))
  {
    if dots != [] {
      var front := dots[..|dots| - 1];
      PaintOnGrid(ram, base, front, x, y);
      PixelOnGrid(Paint(ram, base, front), base, dots[|dots| - 1], x, y);
    }
  }

  lemma {:induction false} PaintInWindow(ram: Ram, base: u16, dots: seq<Dot>, a: u16)
    requires !InWindow(base, a)
    ensures Paint(ram, base, dots)[a] == ram[a]
  {
    if dots != [] {
      var front := dots[..|dots| - 1];
      PaintInWindow(ram, base, front, a);
      PixelInWindow(Paint(ram, base, front), base, dots[|dots| - 1], a);
    }
  }

  // ---- XOR ----

  lemma {:induction false} XorTwice(a: nat, b: nat, n: nat)
    requires a < Exp2(n)
    ensures XorBits(XorBits(a, b, n), b, n) == a
  {
    if n > 0 {
      XorTwice(a / 2, b / 2, n - 1);
    }
  }

  lemma {:induction false} XorSwap(a: nat, b: nat, c: nat, n: nat)
    ensures XorBits(XorBits(a, b, n), c, n) == XorBits(XorBits(a, c, n), b, n)
  {
    if n > 0 {
      XorSwap(a / 2, b / 2, c / 2, n - 1);
    }
  }

  lemma XorPensFacts(a: Nibble, b: Nibble, c: Nibble)
    ensures XorPens(XorPens(a, b), b) == a && XorPens(XorPens(a, b), c) == XorPens(XorPens(a, c), b)
  {
    var n := 4;
    assert Exp2(n) == 16;
    XorTwice(a, b, n);
    XorSwap(a, b, c, n);
  }

  ghost predicate AllXor(dots: seq<Dot>) { forall d :: d in dots ==> d.kind == 7 }

  /** XOR dots can be painted in any order. */
  lemma {:induction false} XorCommutes(dots: seq<Dot>, d: Dot, x: int, y: int, pen: Nibble)
    requires AllXor(dots) && d.kind == 7
    ensures Layered(dots, x, y, Under(d, x, y, pen)) == Under(d, x, y, Layered(dots, x, y, pen))
  {
    if dots != [] {
      var front, e := dots[..|dots| - 1], dots[|dots| - 1];
      assert e in dots && AllXor(front);
      XorCommutes(front, d, x, y, pen);
      XorPensFacts(Layered(front, x, y, pen), d.pen, e.pen);
    }
  }

  /** Painting XOR dots twice restores every pixel, overlapping or clipped as they may be. */
  lemma {:induction false} XorRestores(dots: seq<Dot>, x: int, y: int, pen: Nibble)
    requires AllXor(dots)
    ensures Layered(dots, x, y, Layered(dots, x, y, pen)) == pen
  {
    if dots != [] {
      var front, d := dots[..|dots| - 1], dots[|dots| - 1];
      assert d in dots && AllXor(front);
      var once := Layered(front, x, y, pen);
      XorCommutes(front, d, x, y, once);
      XorRestores(front, x, y, pen);
      XorPensFacts(pen, d.pen, 0);
    }
  }

  /** RAM is determined by its bytes outside the frame buffer and the pixel grid. */
  lemma GridDetermines(r: Ram, s: Ram, base: u16)
    requires forall a: u16 :: !InWindow(base, a) ==> r[a] == s[a]
    requires forall x: int, y: int :: OnScreen(x, y) ==> PenAt(r, base, x, y) == PenAt(s, base, x, y)
    ensures r == s
  {
    forall a: u16 ensures r[a] == s[a] {
      if InWindow(base, a) {
        var k := (a - base) % 0x1_0000;
        var x, y := 2 * (k % PITCH), k / PITCH;
        assert Address(base, x, y) == a == Address(base, x + 1, y);
        assert OnScreen(x, y) && OnScreen(x + 1, y);
        ByteOfNibbles(r[a], s[a]);
      }
    }
  }

  /** Painted twice, XOR dots leave all of RAM as it was. */
  lemma XorPaintsBack(ram: Ram, base: u16, dots: seq<Dot>)
    requires AllXor(dots)
    ensures Paint(Paint(ram, base, dots), base, dots) == ram
  {
    var once := Paint(ram, base, dots);
    var twice := Paint(once, base, dots);
    forall a: u16 | !InWindow(base, a) ensures twice[a] == ram[a] {
      PaintInWindow(ram, base, dots, a);
      PaintInWindow(once, base, dots, a);
    }
    forall x: int, y: int | OnScreen(x, y) ensures PenAt(twice, base, x, y) == PenAt(ram, base, x, y) {
      PaintOnGrid(ram, base, dots, x, y);
      PaintOnGrid(once, base, dots, x, y);
      XorRestores(dots, x, y, PenAt(ram, base, x, y));
    }
    GridDetermines(twice, ram, base);
  }
}
