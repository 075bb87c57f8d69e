/** The boot-block decryptor (tools/m65c02recomp/lynxdec.c): cubing modulo the public modulus,
    the RSAEP primitive of section 5.1.1 of RFC 8017 with exponent 3, and the byte stream
    recovered from the results. */
module Lynxdec {
  import opened Bytes
  import opened Division
  import opened Bignum

  /** The public modulus, most significant byte first. */
  const NMOD: seq<u8> := [
    0x35, 0xB5, 0xA3, 0x94, 0x28, 0x06, 0xD8, 0xA2, 0x26, 0x95, 0xD7, 0x71, 0xB2, 0x3C, 0xFD, 0x56,
    0x1C, 0x4A, 0x19, 0xB6, 0xA3, 0xB0, 0x26, 0x00, 0x36, 0x5A, 0x30, 0x6E, 0x3C, 0x4D, 0x63, 0x38,
    0x1B, 0xD4, 0x1C, 0x13, 0x64, 0x89, 0x36, 0x4C, 0xF2, 0xBA, 0x2A, 0x58, 0xF4, 0xFE, 0xE1, 0xFD,
    0xAC, 0x7E, 0x79
  ]

  const PLAIN := 50   // plaintext bytes of a block

  function Reverse(s: seq<u8>): (r: seq<u8>)
    ensures |r| == |s| && forall k :: 0 <= k < |s| ==> r[k] == s[|s| - 1 - k]
  {
    if s == [] then [] else [s[|s| - 1]] + Reverse(s[..|s| - 1])
  }

  /** The number an encrypted block stands for: its bytes are least significant first. */
  function Number(block: seq<u8>): nat { Val(Reverse(block)) }

  /** RSA with exponent 3. */
  function Cube(x: nat, n: nat): nat
    requires n > 0
  {
    (x * x * x) % n
  }

  /** The shortest big-endian bytes of `v`. */
  function MinBytes(v: nat): (s: seq<u8>)
    ensures Val(s) == v
    ensures s != [] ==> s[0] != 0
  {
    if v == 0 then []
    else
      var s := MinBytes(v / 0x100) + [v % 0x100];
      assert s[..|s| - 1] == MinBytes(v / 0x100);
      s
  }

  function Zeros(n: nat): (s: seq<u8>)
    ensures |s| == n && forall k :: 0 <= k < n ==> s[k] == 0
  {
    seq(n, _ => 0)
  }

  /** The result left-aligned in KLEN bytes. */
  function Buffer(v: nat): seq<u8> {
    var s := MinBytes(v);
    if |s| <= KLEN then s + Zeros(KLEN - |s|) else s[..KLEN]
  }

  /** The buffer bytes that enter the stream: all but the first, last to first. */
  function Raw(v: nat): seq<u8> { Reverse(Buffer(v)[1..]) }

  /** Running sums modulo 256, from `acc` on. */
  function Sums(raw: seq<u8>, acc: u8): (s: seq<u8>)
    ensures |s| == |raw|
    decreases |raw|
  {
    if raw == [] then [] else var a := Byte(acc + raw[0]); [a] + Sums(raw[1..], a)
  }

  /** The last running sum. */
  function Last(raw: seq<u8>, acc: u8): u8
    decreases |raw|
  {
    if raw == [] then acc else Last(raw[1..], Byte(acc + raw[0]))
  }

  // ---- modular facts ----

  /** Squaring then multiplying, each reduced, is cubing. */
  lemma CubeMod(x: nat, n: nat)
    requires n > 0
    ensures (((x % n) * (x % n)) % n * (x % n)) % n == Cube(x, n)
  {
    var r := x % n;
    MulMod(r * r, r, n);
    MulMod(x, r * r, n);
    assert r * r * r == r * (r * r);
    assert x * (r * r) == r * (x * r);
    MulMod(x, x * r, n);
    assert x * (x * r) == r * (x * x);
    MulMod(x, x * x, n);
    assert x * (x * x) == x * x * x;
  }

  // ---- trailing and leading bytes ----

  lemma LastByte(s: seq<u8>)
    requires s != []
    ensures Val(s) / 0x100 == Val(s[..|s| - 1]) && Val(s) % 0x100 == s[|s| - 1]
  {
  }

  lemma {:induction false} MinBytesOf(s: seq<u8>)
    requires s != [] ==> s[0] != 0
    ensures MinBytes(Val(s)) == s
  {
    if s != [] {
      hide Val;
      var t := s[..|s| - 1];
      MinBytesOf(t);
      LastByte(s);
      NonzeroVal(s);
      assert s == t + [s[|s| - 1]];
    }
  }

  lemma {:induction false} NonzeroVal(s: seq<u8>)
    requires s != [] && s[0] != 0
    ensures Val(s) > 0
  {
    if |s| > 1 {
      NonzeroVal(s[..|s| - 1]);
    }
  }

  lemma LeadingZeros(s: seq<u8>, k: nat)
    requires k <= |s| && forall i :: 0 <= i < k ==> s[i] == 0
    ensures Val(s[k..]) == Val(s)
  {
    assert s == s[..k] + s[k..];
    ZeroVal(s[..k]);
    ValConcat(s[..k], s[k..]);
  }

  /** Left alignment multiplies by 256 for each byte of padding. */
  lemma BufferValue(v: nat)
    requires |MinBytes(v)| <= KLEN
    ensures |Buffer(v)| == KLEN && Val(Buffer(v)) == v * Pow256(KLEN - |MinBytes(v)|)
  {
    hide MinBytes, Val, Pow256;
    var s := MinBytes(v);
    var z := Zeros(KLEN - |s|);
    ZeroVal(z);
    ValConcat(s, z);
  }

  // ---- the stream ----

  /** The byte differences of a stream. */
  function Differences(s: seq<u8>, acc: u8): seq<u8>
    decreases |s|
  {
    if s == [] then [] else [Byte(s[0] - acc)] + Differences(s[1..], s[0])
  }

  /** The buffer bytes are recovered from the stream: nothing is lost. */
  lemma {:induction false} DifferencesRecover(raw: seq<u8>, acc: u8)
    ensures Differences(Sums(raw, acc), acc) == raw
    decreases |raw|
  {
    if raw != [] {
      var a := Byte(acc + raw[0]);
      assert Sums(raw, acc)[1..] == Sums(raw[1..], a);
      DifferencesRecover(raw[1..], a);
      assert Byte(a - acc) == raw[0];
    }
  }

  /** Streams of consecutive blocks: the accumulator is carried over. */
  lemma {:induction false} SumsConcat(r: seq<u8>, t: seq<u8>, acc: u8)
    ensures Sums(r + t, acc) == Sums(r, acc) + Sums(t, Last(r, acc))
    ensures Last(r + t, acc) == Last(t, Last(r, acc))
    decreases |r|
  {
    if r == [] {
      assert r + t == t;
    } else {
      assert (r + t)[1..] == r[1..] + t;
      SumsConcat(r[1..], t, Byte(acc + r[0]));
    }
  }

  // ---- one block ----

  /** The 51 bytes at `from`, reversed behind a zero guard byte. */
  method LoadReverse(enc: array<u8>, from: nat) returns (blk: array<u8>)
    requires from + KLEN <= enc.Length
    ensures fresh(blk) && blk.Length == KLEN + 1 && Val(blk[1..]) == Number(enc[from..from + KLEN])
  {
    blk := new u8[KLEN + 1](_ => 0);
    ghost var block := enc[from..from + KLEN];
    ghost var rev := Reverse(block);
    var i := 0;
    while i < KLEN
      invariant 0 <= i <= KLEN && forall k :: 0 <= k < i ==> blk[1 + k] == rev[k]
    {
      assert rev[i] == block[KLEN - 1 - i];
      blk[1 + i] := enc[from + KLEN - 1 - i];
      i := i + 1;
    }
    assert blk[1..] == rev;
  }

  /** Reduces, squares and multiplies: the cube of the block's number modulo `m`. */
  method CubeBlock(blk: array<u8>, m: array<u8>) returns (res: array<u8>)
    requires 0 < blk.Length == m.Length && m[0] == 0 && Val(m[..]) > 1
    ensures fresh(res) && res.Length == m.Length
    ensures Val(res[..]) == Cube(Val(blk[1..]), Val(m[..]))
  {
    var r := NewZero(m.Length);
    var t := NewZero(m.Length);
    res := NewZero(m.Length);
    ghost var x, n := Val(blk[1..]), Val(m[..]);
    BnReduce(r, blk, m);
    BnMulmod(t, r, r, m);
    BnMulmod(res, t, r, m);
    CubeMod(x, n);
  }

  /** The index of the first significant byte. */
  method FirstSignificant(res: array<u8>) returns (first: nat)
    ensures first <= res.Length && res[first..] == MinBytes(Val(res[..]))
    ensures res.Length > 0 && res[0] == 0 ==> first > 0
  {
    first := 0;
    while first < res.Length && res[first] == 0
      invariant 0 <= first <= res.Length && forall k :: 0 <= k < first ==> res[k] == 0
    {
      first := first + 1;
    }
    LeadingZeros(res[..], first);
    assert res[..][first..] == res[first..];
    MinBytesOf(res[first..]);
  }

  /** The significant bytes of a result below `m`, left-aligned in KLEN bytes. */
  method LeftAlign(res: array<u8>) returns (buf: array<u8>)
    requires res.Length == KLEN + 1 && res[0] == 0
    ensures fresh(buf) && |MinBytes(Val(res[..]))| <= KLEN && buf[..] == Buffer(Val(res[..]))
  {
    var first := FirstSignificant(res);
    var nbytes := res.Length - first;
    if nbytes > KLEN { nbytes := KLEN; }
    ghost var s := res[first..];
    buf := new u8[KLEN](_ => 0);
    var i := 0;
    while i < nbytes
      invariant 0 <= i <= nbytes && buf[..i] == s[..i] && buf[i..] == Zeros(KLEN - i)
    {
      assert buf[i + 1..] == buf[i..][1..];
      buf[i] := res[res.Length - nbytes + i];
      i := i + 1;
    }
    assert buf[..] == buf[..i] + buf[i..] && s[..i] == s;
  }

  /** Some of the running sums are done, the rest of the bytes is to come. */
  ghost predicate PartSummed(done: seq<u8>, rest: seq<u8>, now: u8, raw: seq<u8>, acc: u8) {
    done + Sums(rest, now) == Sums(raw, acc) && Last(rest, now) == Last(raw, acc)
  }

  lemma SumOne(done: seq<u8>, rest: seq<u8>, now: u8, raw: seq<u8>, acc: u8)
    requires PartSummed(done, rest, now, raw, acc) && rest != []
    ensures var a := Byte(now + rest[0]); PartSummed(done + [a], rest[1..], a, raw, acc)
  {
    var a := Byte(now + rest[0]);
    assert done + Sums(rest, now) == (done + [a]) + Sums(rest[1..], a);
  }

  lemma AllSummed(done: seq<u8>, rest: seq<u8>, now: u8, raw: seq<u8>, acc: u8)
    requires PartSummed(done, rest, now, raw, acc) && rest == []
    ensures done == Sums(raw, acc) && now == Last(raw, acc)
  {
    assert done + Sums(rest, now) == done;
  }

  /** The accumulator over buffer bytes 50 to 1, written to `out` from `at` on. */
  method Accumulate(out: array<u8>, at: nat, buf: array<u8>, acc: u8) returns (acc': u8)
    requires at + PLAIN <= out.Length && buf.Length == KLEN && out != buf
    modifies out
    ensures out[..at] == old(out[..at]) && out[at + PLAIN..] == old(out[at + PLAIN..])
    ensures var raw := Reverse(old(buf[1..])); out[at..at + PLAIN] == Sums(raw, acc) && acc' == Last(raw, acc)
  {
    hide Reverse, PartSummed, Sums;
    ghost var raw := Reverse(buf[1..]);
    acc' := acc;
    var i := PLAIN;
    assert PartSummed(out[at..at], raw, acc, raw, acc) by { NoneSummed(out[at..at], raw, acc); }
    assert raw[0..] == raw;
    while i > 0
      invariant 0 <= i <= PLAIN
      invariant out[..at] == old(out[..at]) && out[at + PLAIN..] == old(out[at + PLAIN..])
      invariant PartSummed(out[at..at + PLAIN - i], raw[PLAIN - i..], acc', raw, acc)
    {
      ghost var done, rest, now := out[at..at + PLAIN - i], raw[PLAIN - i..], acc';
      SumOne(done, rest, now, raw, acc);
      assert rest[0] == buf[i];
      acc' := Byte(acc' + buf[i]);
      out[at + PLAIN - i] := acc';
      i := i - 1;
      assert out[at..at + PLAIN - i] == done + [acc'];
      assert rest[1..] == raw[PLAIN - i..];
    }
    AllSummed(out[at..at + PLAIN], raw[PLAIN..], acc', raw, acc);
  }

  lemma NoneSummed(done: seq<u8>, raw: seq<u8>, acc: u8)
    requires done == []
    ensures PartSummed(done, raw, acc, raw, acc)
  {
    assert done + Sums(raw, acc) == Sums(raw, acc);
  }

  /** The cube of an encrypted block. */
  function Decoded(block: seq<u8>, n: nat): nat
    requires n > 0
  {
    Cube(Number(block), n)
  }

  /** `decrypt_block`: the stream of one block, continuing from `acc`. */
  method DecryptBlock(out: array<u8>, at: nat, enc: array<u8>, from: nat, acc: u8, m: array<u8>) returns (acc': u8)
    requires at + PLAIN <= out.Length && from + KLEN <= enc.Length
    requires m.Length == KLEN + 1 && m[0] == 0 && Val(m[..]) > 1
    modifies out
    ensures var raw := Raw(Decoded(old(enc[from..from + KLEN]), Val(old(m[..]))));
            out[at..at + PLAIN] == Sums(raw, acc) && acc' == Last(raw, acc)
    ensures out[..at] == old(out[..at]) && out[at + PLAIN..] == old(out[at + PLAIN..])
  {
    var blk := LoadReverse(enc, from);
    var res := CubeBlock(blk, m);
    ResultFits(res[..], m[..], Val(blk[1..]));
    var buf := LeftAlign(res);
    assert buf[..][1..] == buf[1..];
    acc' := Accumulate(out, at, buf, acc);
  }

  lemma ResultFits(res: seq<u8>, m: seq<u8>, x: nat)
    requires 0 < |res| == |m| && m[0] == 0 && Val(m) > 1 && Val(res) == Cube(x, Val(m))
    ensures res[0] == 0
  {
    TopByteZero(res, m);
  }

  // ---- the whole frame ----

  /** The modulus as a number. */
  function Modulus(): (n: nat)
    ensures n > 0xFF && n % 2 == 1
  {
    ModulusFacts([0] + NMOD);
    Val(NMOD)
  }

  lemma ModulusFacts(m: seq<u8>)
    requires |m| == KLEN + 1 && m[0] == 0 && m[1..] == NMOD
    ensures Val(m) == Val(NMOD) > 0xFF && Val(NMOD) % 2 == 1
  {
    LeadingZeros(m, 1);
    var front := m[..KLEN];
    assert front[1..] == m[1..][..KLEN - 1];
    assert m[1] == m[1..][0] == 0x35 && m[KLEN] == m[1..][KLEN - 1] == 0x79;
    LeadingZeros(front, 1);
    NonzeroVal(front[1..]);
  }

  /** `bn_set(Nbe, NMOD)`. */
  method LoadModulus() returns (m: array<u8>)
    ensures fresh(m) && m.Length == KLEN + 1 && m[0] == 0 && Val(m[..]) == Modulus() > 0xFF
  {
    m := new u8[KLEN + 1](_ => 0);
    var nmod := NMOD;
    var i := 0;
    while i < KLEN
      invariant 0 <= i <= KLEN && m[0] == 0 && m[1..1 + i] == nmod[..i]
    {
      m[1 + i] := nmod[i];
      i := i + 1;
    }
    assert nmod[..i] == nmod && m[..][1..] == m[1..1 + i];
    ModulusFacts(m[..]);
  }

  function BlockCount(head: u8): u8 { Byte(0x100 - head) }

  /** The buffer bytes of the first `b` blocks of a frame under modulus `n`, in stream order. */
  function FrameRaw(rom: seq<u8>, b: nat, n: nat): seq<u8>
    requires 1 + b * KLEN <= |rom| && n > 0
  {
    if b == 0 then [] else FrameRaw(rom, b - 1, n) + Raw(Decoded(Block(rom, b - 1), n))
  }

  function Block(rom: seq<u8>, b: nat): seq<u8>
    requires 1 + (b + 1) * KLEN <= |rom|
  {
    rom[1 + b * KLEN..1 + b * KLEN + KLEN]
  }

  /** A frame of `k` blocks, one to five, whose first byte counts them down from 256, with its blocks
      in `rom` and 50 bytes of room for each. */
  predicate FrameOf(rom: seq<u8>, cap: nat, k: nat) {
    1 <= k <= 5 && |rom| >= 1 + 51 * k && rom[0] + k == 256 && cap >= 50 * k
  }

  /** The first `b` blocks are decrypted: their stream is in `out`, its last sum in `acc`. */
  ghost predicate Done(frame: seq<u8>, out: seq<u8>, b: nat, n: nat, acc: u8) {
    && n > 0 && 1 + b * KLEN <= |frame| && b * PLAIN <= |out|
    && out[..b * PLAIN] == Sums(FrameRaw(frame, b, n), 0) && acc == Last(FrameRaw(frame, b, n), 0)
  }

  /** A write of PLAIN bytes at `at`: what comes before and after it stays. */
  ghost predicate Spliced(before: seq<u8>, after: seq<u8>, at: nat, s: seq<u8>) {
    && at + PLAIN <= |before| == |after| && after[at..at + PLAIN] == s
    && after[..at] == before[..at] && after[at + PLAIN..] == before[at + PLAIN..]
  }

  lemma RawNext(frame: seq<u8>, b: nat, n: nat)
    requires 1 + (b + 1) * KLEN <= |frame| && n > 0
    ensures FrameRaw(frame, b + 1, n) == FrameRaw(frame, b, n) + Raw(Decoded(Block(frame, b), n))
  {
    hide Raw, Decoded, Block;
  }

  lemma NoneDone(frame: seq<u8>, out: seq<u8>, n: nat)
    requires n > 0 && 1 <= |frame|
    ensures Done(frame, out, 0, n, 0)
  {
  }

  lemma AllDone(frame: seq<u8>, out: seq<u8>, b: nat, n: nat, acc: u8)
    requires Done(frame, out, b, n, acc)
    ensures n > 0 && 1 + b * KLEN <= |frame| && b * PLAIN <= |out|
    ensures out[..b * PLAIN] == Sums(FrameRaw(frame, b, n), 0)
  {
  }

  /** One more block done: its stream follows the earlier blocks'. */
  lemma NextDone(frame: seq<u8>, before: seq<u8>, after: seq<u8>, b: nat, n: nat, acc: u8, next: seq<u8>)
    requires Done(frame, before, b, n, acc) && 1 + (b + 1) * KLEN <= |frame|
    requires next == Raw(Decoded(Block(frame, b), n))
    requires Spliced(before, after, b * PLAIN, Sums(next, acc))
    ensures Done(frame, after, b + 1, n, Last(next, acc))
  {
    hide Raw, Decoded, Block, Sums, FrameRaw;
    var raw := FrameRaw(frame, b, n);
    SumsConcat(raw, next, 0);
    RawNext(frame, b, n);
    assert after[..(b + 1) * PLAIN] == after[..b * PLAIN] + after[b * PLAIN..b * PLAIN + PLAIN];
  }

  lemma TailKept(before: seq<u8>, after: seq<u8>, at: nat, s: seq<u8>, end: nat)
    requires Spliced(before, after, at, s) && at + PLAIN <= end <= |before|
    ensures after[end..] == before[end..]
  {
    assert after[end..] == after[at + PLAIN..][end - at - PLAIN..];
    assert before[end..] == before[at + PLAIN..][end - at - PLAIN..];
  }

  /** One turn of the loop: block `b` is decrypted behind the earlier ones. */
  method DecryptNext(rom: array<u8>, out: array<u8>, b: nat, acc: u8, m: array<u8>, ghost end: nat) returns (acc': u8)
    requires rom != out && m != out && 1 + (b + 1) * KLEN <= rom.Length && (b + 1) * PLAIN <= end <= out.Length
    requires m.Length == KLEN + 1 && m[0] == 0 && Val(m[..]) > 1
    requires Done(rom[..], out[..], b, Val(m[..]), acc)
    modifies out
    ensures Done(rom[..], out[..], b + 1, Val(m[..]), acc') && out[end..] == old(out[end..])
  {
    ghost var before, next := out[..], Raw(Decoded(Block(rom[..], b), Val(m[..])));
    assert rom[1 + b * KLEN..1 + b * KLEN + KLEN] == Block(rom[..], b);
    acc' := DecryptBlock(out, b * PLAIN, rom, 1 + b * KLEN, acc, m);
    assert Spliced(before, out[..], b * PLAIN, Sums(next, acc));
    NextDone(rom[..], before, out[..], b, Val(m[..]), acc, next);
    TailKept(before, out[..], b * PLAIN, Sums(next, acc), end);
  }

  /** The loop over the blocks. */
  method DecryptFrame(rom: array<u8>, out: array<u8>, blocks: nat, m: array<u8>)
    requires rom != out && m != out && 1 + blocks * KLEN <= rom.Length && blocks * PLAIN <= out.Length
    requires m.Length == KLEN + 1 && m[0] == 0 && Val(m[..]) > 1
    modifies out
    ensures out[..blocks * PLAIN] == Sums(FrameRaw(rom[..], blocks, Val(m[..])), 0)
    ensures out[blocks * PLAIN..] == old(out[blocks * PLAIN..])
  {
    hide Done, Sums, FrameRaw, Val;
    ghost var end, n := blocks * PLAIN, Val(m[..]);
    var acc: u8, b: nat := 0, 0;
    NoneDone(rom[..], out[..], n);
    while b < blocks
      invariant b <= blocks && Val(m[..]) == n && m[0] == 0
      invariant Done(rom[..], out[..], b, n, acc) && out[end..] == old(out[end..])
    {
      acc := DecryptNext(rom, out, b, acc, m, end);
      b := b + 1;
    }
    AllDone(rom[..], out[..], b, n, acc);
  }

  /** `lynx_decrypt_loader`: exactly 50 bytes for each block are written, the running sums of
      all buffer bytes; anything that is no frame, or does not fit, leaves `out` alone. */
  method DecryptLoader(rom: array<u8>, out: array<u8>) returns (n: int)
    requires rom != out
    modifies out
    ensures forall k: nat :: FrameOf(rom[..], out.Length, k) ==>
              && n == 50 * k && out[..n] == Sums(FrameRaw(rom[..], k, Modulus()), 0) && out[n..] == old(out[n..])
    ensures (forall k: nat :: !FrameOf(rom[..], out.Length, k)) ==> n == -1 && out[..] == old(out[..])
  {
    if rom.Length < 1 { return -1; }
    var blocks := BlockCount(rom[0]);
    ghost var frame, cap := rom[..], out.Length;
    assert forall k: nat :: FrameOf(frame, cap, k) ==> k == blocks;
    if blocks < 1 || blocks > 5 { return -1; }
    if 1 + blocks * KLEN > rom.Length { return -1; }
    if out.Length < blocks * PLAIN { return -1; }
    assert FrameOf(frame, cap, blocks);
    var m := LoadModulus();
    DecryptFrame(rom, out, blocks, m);
    n := blocks * PLAIN;
  }
}
