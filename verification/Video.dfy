/** The video reader (src/video.c): frame buffer and palette to 32-bit colours, and what it shows
    after a blit. */
module Video {
  import opened Bytes
  import opened Screen
  import opened Suzy
  import opened SpriteLaws
  import Packets
  import Scenes

  const DISPADRL := 0x94
  const PALGREEN := 0xA0
  const PALBLURD := 0xB0

  /** A four-bit component as eight bits. */
  function Exp4(v: u8): (r: u8) { v % 16 * 17 }

  /** Opaque colour of a palette entry: red, green and blue bytes from the top down. */
  function PaletteColor(reg: seq<u8>, index: Nibble): u32
    requires |reg| == 0x100
  {
    var green, bluered := reg[PALGREEN + index], reg[PALBLURD + index];
    0xFF00_0000 + 0x1_0000 * Exp4(bluered % 16) + 0x100 * Exp4(green) + Exp4(bluered / 16)
  }

  /** DISPADR. */
  function FrameBase(reg: seq<u8>): u16
    requires |reg| == 0x100
  {
    LoHi(reg[DISPADRL], reg[DISPADRL + 1])
  }

  /** The three components of a colour are the palette's nibbles, seventeen times. */
  lemma ColorComponents(reg: seq<u8>, index: Nibble)
    requires |reg| == 0x100
    ensures var c := PaletteColor(reg, index);
            && c / 0x1_0000 % 0x100 == 17 * (reg[0xB0 + index] % 16)
            && c / 0x100 % 0x100 == 17 * (reg[0xA0 + index] % 16)
            && c % 0x100 == 17 * (reg[0xB0 + index] / 16) && c / 0x100_0000 == 0xFF
  {
    var r: nat, g: nat, b: nat :=
      Exp4(reg[PALBLURD + index] % 16), Exp4(reg[PALGREEN + index]), Exp4(reg[PALBLURD + index] / 16);
    ColorBytes(r, g, b);
  }

  lemma ColorBytes(r: nat, g: nat, b: nat)
    requires r < 0x100 && g < 0x100 && b < 0x100
    ensures var c := 0xFF00_0000 + 0x1_0000 * r + 0x100 * g + b;
            c / 0x1_0000 % 0x100 == r && c / 0x100 % 0x100 == g && c % 0x100 == b && c / 0x100_0000 == 0xFF
  {
    var c := 0xFF00_0000 + 0x1_0000 * r + 0x100 * g + b;
    assert c / 0x1_0000 == 0xFF00 + r;
    assert c / 0x100 == 0xFF_0000 + 0x100 * r + g;
  }

  /** The colour of pixel k of the frame, counted row by row. */
  function FrameColor(reg: seq<u8>, ram: Ram, k: nat): u32
    requires |reg| == 0x100
  {
    PaletteColor(reg, PenAt(ram, FrameBase(reg), k % WIDTH, k / WIDTH))
  }

  /** `lynx_video_render`. */
  method VideoRender(reg: array<u8>, ram: array<u8>, out: array<u32>)
    requires reg.Length == 0x100 && ram.Length == 0x1_0000 && out.Length == 16320
    modifies out
    ensures forall k :: 0 <= k < 16320 ==> out[k] == FrameColor(reg[..], ram[..], k)
  {
    var base := LoHi(reg[DISPADRL], reg[DISPADRL + 1]);
    var row := 0;
    while row < HEIGHT
      invariant 0 <= row <= HEIGHT && reg[..] == old(reg[..]) && ram[..] == old(ram[..])
      invariant forall k :: 0 <= k < row * WIDTH ==> out[k] == FrameColor(reg[..], ram[..], k)
    {
      RenderRow(reg, ram, out, base, row);
      row := row + 1;
    }
  }

  /** One row of the frame. */
  method RenderRow(reg: array<u8>, ram: array<u8>, out: array<u32>, base: u16, row: nat)
    requires reg.Length == 0x100 && ram.Length == 0x1_0000 && out.Length == WIDTH * HEIGHT
    requires row < HEIGHT && base == FrameBase(reg[..])
    modifies out
    ensures forall k :: 0 <= k < row * WIDTH ==> out[k] == old(out[k])
    ensures forall k :: row * WIDTH <= k < (row + 1) * WIDTH ==> out[k] == FrameColor(reg[..], ram[..], k)
  {
    hide FrameColor, PaletteColor, FrameBase;
    ghost var regs, mem := reg[..], ram[..];
    var line := Word(base + row * PITCH);
    var col := 0;
    while col < WIDTH
      invariant 0 <= col <= WIDTH && reg[..] == regs && ram[..] == mem
      invariant forall k :: 0 <= k < row * WIDTH ==> out[k] == old(out[k])
      invariant forall k :: row * WIDTH <= k < row * WIDTH + col ==> out[k] == FrameColor(regs, mem, k)
    {
      var byte := ram[Word(line + col / 2)];
      var pen: Nibble := if col % 2 == 1 then byte % 16 else byte / 16;
      var c := ColorOf(reg, pen);
      PixelIndex(regs, mem, base, line, row, col, pen);
      out[row * WIDTH + col] := c;
      col := col + 1;
    }
  }

  /** `lynx_palette_color`. */
  method ColorOf(reg: array<u8>, index: Nibble) returns (c: u32)
    requires reg.Length == 0x100
    ensures c == PaletteColor(reg[..], index)
  {
    var green, bluered := reg[PALGREEN + index], reg[PALBLURD + index];
    var r: int, g: int, b: int := Exp4(bluered % 16), Exp4(green % 16), Exp4(bluered / 16);
    c := 0xFF00_0000 + r * 0x1_0000 + g * 0x100 + b;
  }

  lemma IndexSplits(row: nat, col: nat)
    requires col < WIDTH
    ensures (row * WIDTH + col) / WIDTH == row && (row * WIDTH + col) % WIDTH == col
  {
  }

  lemma LineAddress(base: u16, line: u16, row: nat, col: nat)
    requires line == Word(base + row * PITCH)
    ensures Word(line + col / 2) == Address(base, col, row)
  {
  }

  lemma PixelIndex(reg: seq<u8>, ram: Ram, base: u16, line: u16, row: nat, col: nat, pen: Nibble)
    requires |reg| == 0x100 && row < HEIGHT && col < WIDTH && base == FrameBase(reg) && line == Word(base + row * PITCH)
    requires pen == NibbleOf(ram[Word(line + col / 2)], col)
    ensures FrameColor(reg, ram, row * WIDTH + col) == PaletteColor(reg, pen)
  {
    hide PaletteColor, Address, NibbleOf, FrameBase, Word;
    IndexSplits(row, col);
    LineAddress(base, line, row, col);
  }

  /** What the screen shows after a blit into the displayed buffer, its data outside it: at each
      pixel, the palette's colour of the old pen under all decoded pixels in order. */
  lemma FrameAfterBlit(regs: Registers, ram: Ram, mikey: seq<u8>, k: nat)
    requires |mikey| == 0x100 && FrameBase(mikey) == regs.vidbas && DataOutside(regs, ram) && k < WIDTH * HEIGHT
    ensures var x, y := k % WIDTH, k / WIDTH;
            FrameColor(mikey, Blitted(regs, ram), k) ==
            PaletteColor(mikey, Layered(Decoded(regs, ram), x, y, PenAt(ram, regs.vidbas, x, y)))
  {
    hide Chain;
    BlitPaintsDecoded(regs, ram, k % WIDTH, k / WIDTH);
  }

  /** For a stored scene outside the displayed buffer, the frame shows its pixels. */
  lemma FrameOfScene(regs: Registers, ram: Ram, scene: seq<Scenes.Scb>, mikey: seq<u8>, k: nat)
    requires |mikey| == 0x100 && (mikey[0x94] as int) + 256 * (mikey[0x95] as int) == regs.vidbas && k < 16320
    requires regs.scbnext == Scenes.Head(scene)
    requires Scenes.SceneAt(Packets.Memory(regs.vidbas, false, ram), scene)
    ensures var x, y, dots := k % 160, k / 160, Scenes.SceneDots(Packets.FirstOf(scene, 256), regs.origin, IDENTITY);
            FrameColor(mikey, Blitted(regs, ram), k) ==
            PaletteColor(mikey, Layered(dots, x, y, PenAt(ram, regs.vidbas, x, y)))
  {
    hide Chain, Scenes.SceneAt, Scenes.SceneDots, PenAt, PaletteColor;
    Scenes.SceneIsDrawn(regs, ram, scene);
    PaintOnGrid(ram, regs.vidbas, Scenes.SceneDots(Packets.FirstOf(scene, 256), regs.origin, IDENTITY),
                k % WIDTH, k / WIDTH);
  }
}
