/** The packed and literal line formats of sprite data, and the decoder of src/suzy.c as its inverse. */
module Packets {
  import opened Bytes
  import opened Screen
  import opened Suzy

  /** A run of a packed line: pixels given one by one, or one pixel and how often. */
  datatype Run = Raw(pixels: seq<nat>) | Repeat(pixel: nat, count: nat)

  predicate Fits(r: Run, bpp: nat) {
    match r
    case Raw(ps) => 1 <= |ps| <= 16 && forall p :: p in ps ==> p < Exp2(bpp)
    case Repeat(p, n) => 2 <= n <= 16 && p < Exp2(bpp)
  }

  /** The pixels a run stands for. */
  function Pixels(r: Run): (ps: seq<nat>)
  {
    match r
    case Raw(ps) => ps
    case Repeat(p, n) => seq(n, _ => p)
  }

  function Flatten(rs: seq<Run>): seq<nat> {
    if rs == [] then [] else Pixels(rs[0]) + Flatten(rs[1..])
  }

  // ---- serialisation ----

  /** The low `n` bits of `v`, most significant first. */
  function BitsOf(v: nat, n: nat): (s: seq<bool>)
    ensures |s| == n
  {
    if n == 0 then []
    else
      var p := Exp2(n - 1);
      [v >= p] + BitsOf(if v >= p then v - p else v, n - 1)
  }

  function RawBits(ps: seq<nat>, bpp: nat): (s: seq<bool>)
    ensures |s| == |ps| * bpp
  {
    if ps == [] then [] else BitsOf(ps[0], bpp) + RawBits(ps[1..], bpp)
  }

  /** The bits of a packet's length. */
  const COUNT_BITS: nat := 4

  /** A flag, four bits of length, and the pixels. */
  function Encode(r: Run, bpp: nat): (s: seq<bool>)
    requires Fits(r, bpp)
    ensures |s| >= 5
  {
    match r
    case Raw(ps) => [true] + BitsOf(|ps| - 1, COUNT_BITS) + RawBits(ps, bpp)
    case Repeat(p, n) => [false] + BitsOf(n - 1, COUNT_BITS) + BitsOf(p, bpp)
  }

  function EncodeAll(rs: seq<Run>, bpp: nat): seq<bool>
    requires forall r :: r in rs ==> Fits(r, bpp)
  {
    if rs == [] then [] else Encode(rs[0], bpp) + EncodeAll(rs[1..], bpp)
  }

  // ---- reading bits that memory holds ----

  /** What a blit reads from, apart from what it has painted. */
  datatype Memory = Memory(base: u16, frozen: bool, ram: Ram)

  function MemoryOf(c: Canvas): Memory { Memory(c.base, c.frozen, c.start) }

  /** Painting cannot change the byte: it lies outside the frame buffer, or the canvas is frozen. */
  predicate Legible(m: Memory, a: u16) { m.frozen || !InWindow(m.base, a) }

  /** A legible byte is read as it was at the start. */
  lemma LegibleByte(c: Canvas, a: u16)
    requires Legible(MemoryOf(c), a)
    ensures Peek(c, a) == c.start[a]
  {
    if !c.frozen {
      PaintInWindow(c.start, c.base, c.dots, a);
    }
  }

  /** Memory legibly holds these bits from the reader on. */
  predicate Holds(m: Memory, br: Reader, bits: seq<bool>)
    decreases |bits|
  {
    bits == [] ||
    (Legible(m, br.addr) && Bit(m.ram[br.addr], 7 - br.bit) == bits[0] && Holds(m, NextBit(br), bits[1..]))
  }

  function Skip(br: Reader, n: nat): Reader
    decreases n
  {
    if n == 0 then br else Skip(NextBit(br), n - 1)
  }

  lemma {:induction false} HoldsConcat(m: Memory, br: Reader, s: seq<bool>, t: seq<bool>)
    ensures Holds(m, br, s + t) <==> Holds(m, br, s) && Holds(m, Skip(br, |s|), t)
    decreases |s|
  {
    if s == [] {
      assert s + t == t;
    } else {
      assert (s + t)[1..] == s[1..] + t;
      HoldsConcat(m, NextBit(br), s[1..], t);
    }
  }

  /** Reading `n` bits that serialise `v` yields `v`. */
  lemma {:induction false} GetBitsReads(c: Canvas, br: Reader, v: nat, n: nat, acc: nat)
    requires v < Exp2(n) && Holds(MemoryOf(c), br, BitsOf(v, n))
    ensures var b := GetBits(c, br, n, acc);
            b.v == acc * Exp2(n) + v && b.br == Skip(br, n) && b.c.dots == c.dots
    decreases n
  {
    if n > 0 {
      var p := Exp2(n - 1);
      var v' := if v >= p then v - p else v;
      assert BitsOf(v, n)[1..] == BitsOf(v', n - 1);
      LegibleByte(c, br.addr);
      GetBitsReads(Look(c, br.addr), NextBit(br), v', n - 1, 2 * acc + Num(v >= p));
      Horner(acc, p, Num(v >= p));
    }
  }

  lemma Horner(acc: nat, p: nat, bit: nat)
    ensures (2 * acc + bit) * p == acc * (2 * p) + bit * p
  {
  }

  // ---- runs ----

  /** The dots of pixels drawn at consecutive columns. */
  function DotsFor(row: Row, col: nat, ps: seq<nat>): (s: seq<Dot>)
    ensures |s| == |ps|
    decreases |ps|
  {
    if ps == [] then [] else [DotAt(row, col, row.pens[ps[0] % 16])] + DotsFor(row, col + 1, ps[1..])
  }

  lemma {:induction false} DotsForConcat(row: Row, col: nat, ps: seq<nat>, qs: seq<nat>)
    ensures DotsFor(row, col, ps + qs) == DotsFor(row, col, ps) + DotsFor(row, col + |ps|, qs)
    decreases |ps|
  {
    if ps == [] {
      assert ps + qs == qs;
    } else {
      assert (ps + qs)[1..] == ps[1..] + qs;
      DotsForConcat(row, col + 1, ps[1..], qs);
    }
  }

  /** The decoder went from `s` to `t` over `n` bits, drawing `ps`. */
  ghost predicate Drew(row: Row, s: Cursor, t: Cursor, n: nat, ps: seq<nat>) {
    && MemoryOf(t.c) == MemoryOf(s.c) && t.br == Skip(s.br, n) && t.left == s.left - n
    && t.col == s.col + |ps| && t.c.dots == s.c.dots + DotsFor(row, s.col, ps)
  }

  lemma DrawOneReads(row: Row, s: Cursor, p: nat)
    requires p < Exp2(row.bpp) && Holds(MemoryOf(s.c), s.br, BitsOf(p, row.bpp))
    ensures Drew(row, s, DrawOne(row, s), row.bpp, [p])
  {
    GetBitsReads(s.c, s.br, p, row.bpp, 0);
  }

  lemma {:induction false} SkipSum(br: Reader, m: nat, n: nat)
    ensures Skip(Skip(br, m), n) == Skip(br, m + n)
    decreases m
  {
    if m > 0 {
      SkipSum(NextBit(br), m - 1, n);
    }
  }

  lemma DrewMore(row: Row, s: Cursor, t: Cursor, u: Cursor, m: nat, n: nat, ps: seq<nat>, qs: seq<nat>)
    requires Drew(row, s, t, m, ps) && Drew(row, t, u, n, qs)
    ensures Drew(row, s, u, m + n, ps + qs)
  {
    SkipSum(s.br, m, n);
    DotsForConcat(row, s.col, ps, qs);
  }

  lemma {:induction false} LiteralRunReads(row: Row, s: Cursor, ps: seq<nat>)
    requires (forall p :: p in ps ==> p < Exp2(row.bpp)) && s.left >= |ps| * row.bpp
    requires Holds(MemoryOf(s.c), s.br, RawBits(ps, row.bpp))
    ensures Drew(row, s, LiteralRun(row, s, |ps|), |ps| * row.bpp, ps)
    decreases |ps|
  {
    hide DrawOne, BitsOf;
    if ps != [] {
      var rest, t := ps[1..], DrawOne(row, s);
      var m := |rest| * row.bpp;
      assert |ps| * row.bpp == row.bpp + m && m >= 0;
      assert ps[0] in ps && forall p :: p in rest ==> p in ps;
      HoldsConcat(MemoryOf(s.c), s.br, BitsOf(ps[0], row.bpp), RawBits(rest, row.bpp));
      DrawOneReads(row, s, ps[0]);
      LiteralRunReads(row, t, rest);
      DrewMore(row, s, t, LiteralRun(row, t, |rest|), row.bpp, m, [ps[0]], rest);
      assert [ps[0]] + rest == ps;
    }
  }

  lemma {:induction false} CopiesDraw(row: Row, s: Cursor, p: nat, n: nat)
    ensures Drew(row, s, Copies(row, s, row.pens[p % 16], n), 0, seq(n, _ => p))
    decreases n
  {
    var ps := seq(n, _ => p);
    if n > 0 {
      var px := row.pens[p % 16];
      var t := s.(c := Put(s.c, DotAt(row, s.col, px)), col := s.col + 1);
      CopiesDraw(row, t, p, n - 1);
      DrewMore(row, s, t, Copies(row, t, px, n - 1), 0, 0, [p], seq(n - 1, _ => p));
      assert [p] + seq(n - 1, _ => p) == ps;
    }
  }

  lemma CountBits()
    ensures Exp2(COUNT_BITS) == 16
  {
  }

  /** Decoding the flag and the length of a packet. */
  lemma HeaderReads(row: Row, s: Cursor, flag: bool, k: nat)
    requires k < Exp2(COUNT_BITS) && Holds(MemoryOf(s.c), s.br, [flag] + BitsOf(k, COUNT_BITS))
    ensures var f := GetBits(s.c, s.br, 1, 0);
            var count := GetBits(f.c, f.br, COUNT_BITS, 0);
            f.v == Num(flag) && count.v == k && Drew(row, s, Cursor(count.c, count.br, s.left - 5, s.col), 5, [])
  {
    hide GetBits, Exp2;
    OneBit(flag);
    HoldsConcat(MemoryOf(s.c), s.br, [flag], BitsOf(k, COUNT_BITS));
    GetBitsReads(s.c, s.br, Num(flag), 1, 0);
    var f := GetBits(s.c, s.br, 1, 0);
    GetBitsReads(f.c, f.br, k, COUNT_BITS, 0);
    SkipSum(s.br, 1, COUNT_BITS);
  }

  lemma OneBit(flag: bool)
    ensures Exp2(1) == 2 && BitsOf(Num(flag), 1) == [flag]
  {
  }

  lemma RawPacketReads(row: Row, s: Cursor, ps: seq<nat>)
    requires Fits(Raw(ps), row.bpp) && s.left >= 5 + |ps| * row.bpp
    requires Holds(MemoryOf(s.c), s.br, [true] + BitsOf(|ps| - 1, COUNT_BITS) + RawBits(ps, row.bpp))
    ensures Packet(row, s).1 && Drew(row, s, Packet(row, s).0, 5 + |ps| * row.bpp, ps)
  {
    hide GetBits, LiteralRun, Copies, BitsOf, Holds, Skip, DotsFor, RawBits, Exp2;
    CountBits();
    var flag := GetBits(s.c, s.br, 1, 0);
    var count := GetBits(flag.c, flag.br, COUNT_BITS, 0);
    var t := Cursor(count.c, count.br, s.left - 5, s.col);
    HoldsConcat(MemoryOf(s.c), s.br, [true] + BitsOf(|ps| - 1, COUNT_BITS), RawBits(ps, row.bpp));
    HeaderReads(row, s, true, |ps| - 1);
    LiteralRunReads(row, t, ps);
    DrewMore(row, s, t, LiteralRun(row, t, |ps|), 5, |ps| * row.bpp, [], ps);
    assert [] + ps == ps;
  }

  lemma RepeatPacketReads(row: Row, s: Cursor, p: nat, k: nat)
    requires Fits(Repeat(p, k), row.bpp) && s.left >= 5 + row.bpp
    requires Holds(MemoryOf(s.c), s.br, [false] + BitsOf(k - 1, COUNT_BITS) + BitsOf(p, row.bpp))
    ensures Packet(row, s).1 && Drew(row, s, Packet(row, s).0, 5 + row.bpp, Pixels(Repeat(p, k)))
  {
    hide GetBits, LiteralRun, Copies, BitsOf, Holds, Skip, DotsFor, Exp2;
    CountBits();
    var flag := GetBits(s.c, s.br, 1, 0);
    var count := GetBits(flag.c, flag.br, COUNT_BITS, 0);
    var t := Cursor(count.c, count.br, s.left - 5, s.col);
    HoldsConcat(MemoryOf(s.c), s.br, [false] + BitsOf(k - 1, COUNT_BITS), BitsOf(p, row.bpp));
    HeaderReads(row, s, false, k - 1);
    RepeatReads(row, t, p, k);
    DrewMore(row, s, t, Packet(row, s).0, 5, row.bpp, [], seq(k, _ => p));
    assert [] + seq(k, _ => p) == seq(k, _ => p);
  }

  /** A serialised run is decoded as one packet, and draws its pixels. */
  lemma PacketReads(row: Row, s: Cursor, r: Run)
    requires Fits(r, row.bpp)
    requires Holds(MemoryOf(s.c), s.br, Encode(r, row.bpp)) && s.left >= |Encode(r, row.bpp)|
    ensures Packet(row, s).1 && Drew(row, s, Packet(row, s).0, |Encode(r, row.bpp)|, Pixels(r))
  {
    hide Packet, BitsOf, RawBits, Holds, Exp2, Drew;
    match r
    case Raw(ps) => RawPacketReads(row, s, ps);
    case Repeat(p, k) => RepeatPacketReads(row, s, p, k);
  }

  lemma RepeatReads(row: Row, t: Cursor, p: nat, k: nat)
    requires p < Exp2(row.bpp) && Holds(MemoryOf(t.c), t.br, BitsOf(p, row.bpp))
    ensures var b := GetBits(t.c, t.br, row.bpp, 0);
            b.v == p &&
            Drew(row, t, Copies(row, Cursor(b.c, b.br, t.left - row.bpp, t.col), row.pens[b.v % 16], k), row.bpp,
                 seq(k, _ => p))
  {
    GetBitsReads(t.c, t.br, p, row.bpp, 0);
    var b := GetBits(t.c, t.br, row.bpp, 0);
    var u := Cursor(b.c, b.br, t.left - row.bpp, t.col);
    CopiesDraw(row, u, p, k);
    assert Drew(row, t, u, row.bpp, []);
    DrewMore(row, t, u, Copies(row, u, row.pens[p % 16], k), row.bpp, 0, [], seq(k, _ => p));
    assert [] + seq(k, _ => p) == seq(k, _ => p);
  }

  // ---- a line ----

  function Zeros(n: nat): seq<bool> { seq(n, _ => false) }

  /** Fewer than eight zero bits at the end of a line draw nothing, whatever follows them. */
  lemma PaddingDraws(row: Row, s: Cursor)
    requires row.bpp > 0 && 0 <= s.left < 8 && Holds(MemoryOf(s.c), s.br, Zeros(s.left))
    ensures Packed(row, s).c.dots == s.c.dots
  {
    hide GetBits;
    if s.left > 0 {
      var flag := GetBits(s.c, s.br, 1, 0);
      assert Zeros(s.left) == BitsOf(0, 1) + Zeros(s.left - 1);
      HoldsConcat(MemoryOf(s.c), s.br, BitsOf(0, 1), Zeros(s.left - 1));
      GetBitsReads(s.c, s.br, 0, 1, 0);
      if s.left >= 5 {
        ZeroBits(COUNT_BITS);
        assert Zeros(s.left - 1) == BitsOf(0, COUNT_BITS) + Zeros(s.left - 1 - COUNT_BITS);
        HoldsConcat(MemoryOf(s.c), flag.br, BitsOf(0, COUNT_BITS), Zeros(s.left - 1 - COUNT_BITS));
        GetBitsReads(flag.c, flag.br, 0, COUNT_BITS, 0);
      }
      assert !Packet(row, s).1;
    }
  }

  lemma {:induction false} ZeroBits(n: nat)
    ensures BitsOf(0, n) == Zeros(n)
  {
    if n > 0 {
      ZeroBits(n - 1);
    }
  }

  /** The decoder inverts serialisation: a line of runs, padded with fewer than eight zero bits,
      draws exactly the pixels of the runs, at consecutive columns. */
  lemma {:induction false} PackedReads(row: Row, s: Cursor, rs: seq<Run>, pad: nat)
    requires row.bpp > 0 && pad < 8 && forall r :: r in rs ==> Fits(r, row.bpp)
    requires s.left == |EncodeAll(rs, row.bpp)| + pad
    requires Holds(MemoryOf(s.c), s.br, EncodeAll(rs, row.bpp) + Zeros(pad))
    ensures Packed(row, s).c.dots == s.c.dots + DotsFor(row, s.col, Flatten(rs))
    decreases |rs|
  {
    hide Packet, Encode, DotAt, Holds, Skip, Fits, DotsFor, MemoryOf, Zeros, Pixels;
    if rs == [] {
      assert EncodeAll(rs, row.bpp) + Zeros(pad) == Zeros(pad);
      PaddingDraws(row, s);
    } else {
      var r, rest := rs[0], rs[1..];
      assert r in rs && forall q :: q in rest ==> q in rs;
      var head, tail := Encode(r, row.bpp), EncodeAll(rest, row.bpp) + Zeros(pad);
      assert EncodeAll(rs, row.bpp) + Zeros(pad) == head + tail;
      HoldsConcat(MemoryOf(s.c), s.br, head, tail);
      PacketReads(row, s, r);
      var t := Packet(row, s).0;
      PackedReads(row, t, rest, pad);
      DotsForConcat(row, s.col, Pixels(r), Flatten(rest));
    }
  }

  /** A totally literal line draws its pixels, and no more if what is left is less than a pixel. */
  lemma {:induction false} LiteralReads(row: Row, s: Cursor, ps: seq<nat>, pad: nat)
    requires 0 <= pad < row.bpp && (forall p :: p in ps ==> p < Exp2(row.bpp))
    requires s.left == |RawBits(ps, row.bpp)| + pad && Holds(MemoryOf(s.c), s.br, RawBits(ps, row.bpp))
    ensures Literal(row, s).c.dots == s.c.dots + DotsFor(row, s.col, ps)
    decreases |ps|
  {
    hide DrawOne, BitsOf, DotsFor;
    if ps != [] {
      var rest, t := ps[1..], DrawOne(row, s);
      assert ps[0] in ps && forall p :: p in rest ==> p in ps;
      HoldsConcat(MemoryOf(s.c), s.br, BitsOf(ps[0], row.bpp), RawBits(rest, row.bpp));
      DrawOneReads(row, s, ps[0]);
      LiteralReads(row, t, rest, pad);
      DotsForConcat(row, s.col, [ps[0]], rest);
      assert [ps[0]] + rest == ps;
    } else {
      NoDots(row, s.col);
    }
  }

  lemma NoDots(row: Row, col: nat)
    ensures DotsFor(row, col, []) == []
  {
  }

  // ---- bytes ----

  /** Bits as a number, most significant first. */
  function ValueOf(bits: seq<bool>): (v: nat)
    ensures v < Exp2(|bits|)
  {
    if bits == [] then 0 else 2 * ValueOf(bits[..|bits| - 1]) + Num(bits[|bits| - 1])
  }

  function ByteOf(bits: seq<bool>): u8
    requires |bits| == 8
  {
    assert Exp2(8) == 0x100;
    ValueOf(bits)
  }

  function PackBytes(bits: seq<bool>): (s: seq<u8>)
    requires |bits| % 8 == 0
    ensures 8 * |s| == |bits|
    decreases |bits|
  {
    if bits == [] then [] else [ByteOf(bits[..8])] + PackBytes(bits[8..])
  }

  /** Memory legibly holds these bytes from `a` on, addresses wrapping at 16 bits. */
  predicate Stored(m: Memory, a: u16, bytes: seq<u8>)
    decreases |bytes|
  {
    bytes == [] || (Legible(m, a) && m.ram[a] == bytes[0] && Stored(m, Word(a + 1), bytes[1..]))
  }

  lemma {:induction false} BitOfValue(bits: seq<bool>, k: nat)
    requires |bits| <= 8 && k < |bits|
    ensures Bit(ValueOf(bits), |bits| - 1 - k) == bits[k]
  {
    var front := bits[..|bits| - 1];
    if k < |front| {
      BitOfValue(front, k);
      BitOfHalf(ValueOf(bits), |bits| - 1 - k);
      assert ValueOf(bits) / 2 == ValueOf(front);
    }
  }

  lemma {:induction false} ByteHolds(m: Memory, a: u16, bits: seq<bool>, k: nat)
    requires |bits| == 8 && Legible(m, a) && m.ram[a] == ByteOf(bits) && k <= 8
    ensures k < 8 ==> Holds(m, Reader(a, k), bits[k..]) && Skip(Reader(a, k), 8 - k) == Reader(Word(a + 1), 0)
    decreases 8 - k
  {
    hide ValueOf;
    if k < 8 {
      BitOfValue(bits, k);
      ByteHolds(m, a, bits, k + 1);
      assert bits[k..][1..] == bits[k + 1..];
      if k == 7 {
        assert Skip(Reader(a, 7), 1) == Skip(NextBit(Reader(a, 7)), 0);
      }
    }
  }

  /** Bytes in memory are their bits to the reader. */
  lemma {:induction false} BytesHold(m: Memory, a: u16, bits: seq<bool>)
    requires |bits| % 8 == 0 && Stored(m, a, PackBytes(bits))
    ensures Holds(m, Reader(a, 0), bits)
    decreases |bits|
  {
    hide ByteOf, ValueOf;
    if bits != [] {
      var head, tail := bits[..8], bits[8..];
      ByteHolds(m, a, head, 0);
      BytesHold(m, Word(a + 1), tail);
      assert head[0..] == head && bits == head + tail;
      HoldsConcat(m, Reader(a, 0), head, tail);
    }
  }

  /** Zero bits up to the next byte. */
  function Padding(n: nat): (p: nat)
    ensures p < 8 && (n + p) % 8 == 0
  {
    (8 - n % 8) % 8
  }

  /** A line of sprite data: runs, or the pixels of a totally literal line. */
  datatype Line = Runs(runs: seq<Run>) | Plain(pixels: seq<nat>)

  function LinePixels(l: Line): seq<nat> {
    match l
    case Runs(rs) => Flatten(rs)
    case Plain(ps) => ps
  }

  predicate AllFit(rs: seq<Run>, bpp: nat) { forall r :: r in rs ==> Fits(r, bpp) }

  /** A literal line must fill its bytes to within one pixel: a longer padding is drawn. */
  predicate LineFits(l: Line, bpp: nat) {
    match l
    case Runs(rs) => AllFit(rs, bpp)
    case Plain(ps) => (forall p :: p in ps ==> p < Exp2(bpp)) && Padding(|RawBits(ps, bpp)|) < bpp
  }

  function LineBits(l: Line, bpp: nat): seq<bool>
    requires LineFits(l, bpp)
  {
    match l
    case Runs(rs) => EncodeAll(rs, bpp)
    case Plain(ps) => RawBits(ps, bpp)
  }

  /** A line as stored, padded to bytes. */
  function LineBytes(l: Line, bpp: nat): seq<u8>
    requires LineFits(l, bpp)
  {
    var bits := LineBits(l, bpp);
    PackBytes(bits + Zeros(Padding(|bits|)))
  }

  /** A line in memory: its offset byte, then its bytes. */
  predicate LineAt(m: Memory, dp: u16, bytes: seq<u8>) {
    |bytes| <= 254 && Legible(m, dp) && m.ram[dp] == 1 + |bytes| && Stored(m, Word(dp + 1), bytes)
  }

  /** The line loop of either kind draws the pixels. */
  lemma LineReads(sp: Sprite, s: Cursor, line: nat, l: Line, pad: nat)
    requires sp.bpp > 0 && sp.literal == l.Plain? && LineFits(l, sp.bpp)
    requires pad == Padding(|LineBits(l, sp.bpp)|) && s.left == |LineBits(l, sp.bpp)| + pad
    requires Holds(MemoryOf(s.c), s.br, LineBits(l, sp.bpp) + Zeros(pad))
    ensures (if sp.literal then Literal(RowOf(sp, line), s) else Packed(RowOf(sp, line), s)).c.dots
            == s.c.dots + DotsFor(RowOf(sp, line), s.col, LinePixels(l))
  {
    hide Packed, Literal, Holds, RawBits, EncodeAll, DotsFor, MemoryOf;
    match l
    case Runs(rs) => PackedReads(RowOf(sp, line), s, rs, pad);
    case Plain(ps) =>
      HoldsConcat(MemoryOf(s.c), s.br, RawBits(ps, sp.bpp), Zeros(pad));
      LiteralReads(RowOf(sp, line), s, ps, pad);
  }

  /** A line stored in memory, whatever follows it, draws exactly its pixels. */
  lemma LineDraws(sp: Sprite, c: Canvas, dp: u16, line: nat, l: Line)
    requires sp.bpp > 0 && sp.literal == l.Plain? && LineFits(l, sp.bpp)
    requires LineAt(MemoryOf(c), dp, LineBytes(l, sp.bpp))
    ensures var (r, next, more) := LineStep(sp, c, dp, line);
            && more && next == Word(dp + 1 + |LineBytes(l, sp.bpp)|) && MemoryOf(r) == MemoryOf(c)
            && r.dots == c.dots + DotsFor(RowOf(sp, line), 0, LinePixels(l))
  {
    hide Packed, Literal, PackBytes, Stored, LineBits, LinePixels, LineFits;
    var bits := LineBits(l, sp.bpp);
    var pad := Padding(|bits|);
    var s := Cursor(Look(c, dp), Reader(Word(dp + 1), 0), |bits| + pad, 0);
    LegibleByte(c, dp);
    BytesHold(MemoryOf(c), Word(dp + 1), bits + Zeros(pad));
    LineReads(sp, s, line, l, pad);
    if |bits| + pad == 0 {
      NoBitsNoPixels(l, sp.bpp);
    }
  }

  lemma NoBitsNoPixels(l: Line, bpp: nat)
    requires bpp > 0 && LineFits(l, bpp) && |LineBits(l, bpp)| == 0
    ensures LinePixels(l) == []
  {
  }

  // ---- a sprite ----

  /** Lines one after the other, and the zero byte that ends them. */
  predicate SpriteAt(m: Memory, dp: u16, lines: seq<Line>, literal: bool, bpp: nat)
    decreases |lines|
  {
    if lines == [] then Legible(m, dp) && m.ram[dp] == 0
    else
      && lines[0].Plain? == literal && LineFits(lines[0], bpp) && LineAt(m, dp, LineBytes(lines[0], bpp))
      && SpriteAt(m, Word(dp + 1 + |LineBytes(lines[0], bpp)|), lines[1..], literal, bpp)
  }

  function SpriteDots(sp: Sprite, line: nat, lines: seq<Line>): seq<Dot>
    decreases |lines|
  {
    if lines == [] then [] else
      DotsFor(RowOf(sp, line), 0, LinePixels(lines[0])) + SpriteDots(sp, line + 1, lines[1..])
  }

  lemma EndOfSprite(sp: Sprite, c: Canvas, dp: u16, line: nat)
    requires sp.bpp > 0 && Legible(MemoryOf(c), dp) && c.start[dp] == 0
    ensures Lines(sp, c, dp, line).dots == c.dots
  {
    hide LineData;
    LegibleByte(c, dp);
    assert !LineStep(sp, c, dp, line).2;
  }

  /** The first `n` elements. */
  function FirstOf<T>(s: seq<T>, n: nat): seq<T> { if |s| <= n then s else s[..n] }

  lemma FirstRest<T>(s: seq<T>, n: nat)
    requires s != [] && n > 0
    ensures FirstOf(s, n) == [s[0]] + FirstOf(s[1..], n - 1)
  {
  }

  lemma DotsCons(sp: Sprite, line: nat, l: Line, rest: seq<Line>)
    ensures SpriteDots(sp, line, [l] + rest) ==
            DotsFor(RowOf(sp, line), 0, LinePixels(l)) + SpriteDots(sp, line + 1, rest)
  {
    assert ([l] + rest)[1..] == rest;
  }

  lemma NoLines(sp: Sprite, line: nat)
    ensures SpriteDots(sp, line, []) == []
  {
  }

  /** A stored sprite is drawn line by line, up to its 204th line, and nothing else is. */
  lemma {:induction false} SpriteDraws(sp: Sprite, c: Canvas, dp: u16, line: nat, lines: seq<Line>)
    requires sp.bpp > 0 && line <= 204 && SpriteAt(MemoryOf(c), dp, lines, sp.literal, sp.bpp)
    ensures Lines(sp, c, dp, line).dots == c.dots + SpriteDots(sp, line, FirstOf(lines, 204 - line))
    ensures MemoryOf(Lines(sp, c, dp, line)) == MemoryOf(c)
    decreases |lines|
  {
    hide LineStep, LineAt, LineBytes, DotsFor, LinePixels, RowOf, LineFits, SpriteDots;
    NoLines(sp, line);
    if lines == [] {
      EndOfSprite(sp, c, dp, line);
    } else if line < 204 {
      FirstRest(lines, 204 - line);
      DotsCons(sp, line, lines[0], FirstOf(lines[1..], 203 - line));
      LineDraws(sp, c, dp, line, lines[0]);
      var (r, next, _) := LineStep(sp, c, dp, line);
      SpriteDraws(sp, r, next, line + 1, lines[1..]);
    }
  }
}
