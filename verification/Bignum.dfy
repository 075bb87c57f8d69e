/** The big-endian byte arithmetic of the boot-block decryptor (tools/m65c02recomp/lynxdec.c),
    in place on arrays of any one length; the decryptor's is BLEN. */
module Bignum {
  import opened Bytes
  import opened Division

  const KLEN := 51
  const BLEN := 52

  function Pow256(n: nat): (p: nat)
    ensures p >= 1
  {
    if n == 0 then 1 else 0x100 * Pow256(n - 1)
  }

  /** The value of big-endian bytes. */
  function Val(s: seq<u8>): nat {
    if s == [] then 0 else Val(s[..|s| - 1]) * 0x100 + s[|s| - 1]
  }

  lemma {:induction false} ValBound(s: seq<u8>)
    ensures Val(s) < Pow256(|s|)
  {
    if s != [] {
      ValBound(s[..|s| - 1]);
    }
  }

  /** Splitting off the most significant byte. */
  lemma {:induction false} ValCons(b: u8, s: seq<u8>)
    ensures Val([b] + s) == b * Pow256(|s|) + Val(s)
  {
    if s == [] {
      assert [b] + s == [b] && [b][..0] == [];
    } else {
      var t := s[..|s| - 1];
      ValCons(b, t);
      assert ([b] + s)[..|s|] == [b] + t;
      assert b * Pow256(|s|) == 0x100 * (b * Pow256(|t|));
    }
  }

  lemma {:induction false} ValConcat(s: seq<u8>, t: seq<u8>)
    ensures Val(s + t) == Val(s) * Pow256(|t|) + Val(t)
  {
    if t == [] {
      assert s + t == s;
    } else {
      var u := t[..|t| - 1];
      ValConcat(s, u);
      assert (s + t)[..|s + t| - 1] == s + u;
      assert Val(s) * Pow256(|t|) == 0x100 * (Val(s) * Pow256(|u|));
    }
  }

  // ---- integer facts ----

  /** One column of an addition: the digit `d` and the carry `q` out of it. */
  lemma AddColumn(x: int, y: int, c: int, d: int, q: int, p: int, low: int, lows: int)
    requires d + 0x100 * q == x + y + c && low + c * p == lows
    ensures d * p + low + q * (0x100 * p) == x * p + y * p + lows
  {
    assert (d + 0x100 * q) * p == d * p + q * (0x100 * p);
    assert (x + y + c) * p == x * p + y * p + c * p;
  }

  /** One column of a subtraction: the digit `d` and the borrow `q` out of it. */
  lemma SubColumn(x: int, y: int, c: int, d: int, q: int, p: int, low: int, lows: int)
    requires d - 0x100 * q == x - y - c && low - c * p == lows
    ensures d * p + low - q * (0x100 * p) == x * p - y * p + lows
  {
    assert (d - 0x100 * q) * p == d * p - q * (0x100 * p);
    assert (x - y - c) * p == x * p - y * p - c * p;
  }

  // ---- addition and subtraction ----

  /** The weight of byte `i` of `n`. */
  function Weight(n: nat, i: int): nat
    requires i < n
  {
    Pow256(n - 1 - i)
  }

  lemma SuffixCons(s: seq<u8>, i: nat)
    requires i < |s|
    ensures Val(s[i..]) == s[i] * Weight(|s|, i) + Val(s[i + 1..])
  {
    assert s[i..] == [s[i]] + s[i + 1..];
    ValCons(s[i], s[i + 1..]);
  }

  /** Columns above `i` of `r` hold the sum of those of `x` and `y`, up to the carry. */
  ghost predicate Summed(r: seq<u8>, x: seq<u8>, y: seq<u8>, i: int, carry: int)
    requires |r| == |x| == |y| && -1 <= i < |r|
  {
    Val(r[i + 1..]) + carry * Weight(|r|, i) == Val(x[i + 1..]) + Val(y[i + 1..])
  }

  lemma SumStep(r: seq<u8>, x: seq<u8>, y: seq<u8>, i: nat, carry: int, d: u8, q: int)
    requires |r| == |x| == |y| && i < |r| && Summed(r, x, y, i, carry)
    requires d + 0x100 * q == x[i] + y[i] + carry
    ensures Summed(r[i := d], x, y, i - 1, q)
  {
    var t := r[i := d];
    assert t[i + 1..] == r[i + 1..];
    SuffixCons(x, i);
    SuffixCons(y, i);
    SuffixCons(t, i);
    AddColumn(x[i], y[i], carry, d, q, Weight(|r|, i), Val(r[i + 1..]), Val(x[i + 1..]) + Val(y[i + 1..]));
  }

  lemma SumDone(r: seq<u8>, x: seq<u8>, y: seq<u8>, carry: int)
    requires |r| == |x| == |y| && Summed(r, x, y, -1, carry)
    ensures Val(r) == (Val(x) + Val(y)) % Pow256(|r|)
  {
    assert r[0..] == r && x[0..] == x && y[0..] == y;
    ValBound(r);
    ModUnique(Val(x) + Val(y), Pow256(|r|), carry, Val(r));
  }

  /** `r += a`, with the carry out of the top byte lost; `a` may be `r` itself. */
  method BnAdd(r: array<u8>, a: array<u8>)
    requires r.Length == a.Length
    modifies r
    ensures Val(r[..]) == (Val(old(r[..])) + Val(old(a[..]))) % Pow256(r.Length)
  {
    ghost var x, y := r[..], a[..];
    var carry: int, i: int := 0, r.Length - 1;
    while i >= 0
      invariant -1 <= i < r.Length && 0 <= carry <= 1
      invariant forall k :: 0 <= k <= i ==> r[k] == x[k] && a[k] == y[k]
      invariant Summed(r[..], x, y, i, carry)
    {
      var v: int := r[i] + a[i] + carry;
      SumStep(r[..], x, y, i, carry, v % 0x100, v / 0x100);
      carry := v / 0x100;
      r[i] := v % 0x100;
      i := i - 1;
    }
    SumDone(r[..], x, y, carry);
  }

  /** Columns above `i` of `r` hold the difference of those of `x` and `y`, up to the borrow. */
  ghost predicate Reduced(r: seq<u8>, x: seq<u8>, y: seq<u8>, i: int, borrow: int)
    requires |r| == |x| == |y| && -1 <= i < |r|
  {
    Val(r[i + 1..]) - borrow * Weight(|r|, i) == Val(x[i + 1..]) - Val(y[i + 1..])
  }

  lemma DifferenceStep(r: seq<u8>, x: seq<u8>, y: seq<u8>, i: nat, borrow: int, d: u8, q: int)
    requires |r| == |x| == |y| && i < |r| && Reduced(r, x, y, i, borrow)
    requires d - 0x100 * q == x[i] - y[i] - borrow
    ensures Reduced(r[i := d], x, y, i - 1, q)
  {
    var t := r[i := d];
    assert t[i + 1..] == r[i + 1..];
    SuffixCons(x, i);
    SuffixCons(y, i);
    SuffixCons(t, i);
    SubColumn(x[i], y[i], borrow, d, q, Weight(|r|, i), Val(r[i + 1..]), Val(x[i + 1..]) - Val(y[i + 1..]));
  }

  lemma DifferenceDone(r: seq<u8>, x: seq<u8>, y: seq<u8>, borrow: int)
    requires |r| == |x| == |y| && Reduced(r, x, y, -1, borrow) && 0 <= borrow <= 1
    ensures Val(x) >= Val(y) ==> Val(r) == Val(x) - Val(y)
  {
    assert r[0..] == r && x[0..] == x && y[0..] == y;
    ValBound(r);
  }

  /** `r -= m`. */
  method BnSub(r: array<u8>, m: array<u8>)
    requires r.Length == m.Length
    modifies r
    ensures Val(old(r[..])) >= Val(old(m[..])) ==> Val(r[..]) == Val(old(r[..])) - Val(old(m[..]))
  {
    ghost var x, y := r[..], m[..];
    var borrow: int, i: int := 0, r.Length - 1;
    while i >= 0
      invariant -1 <= i < r.Length && 0 <= borrow <= 1
      invariant forall k :: 0 <= k <= i ==> r[k] == x[k] && m[k] == y[k]
      invariant Reduced(r[..], x, y, i, borrow)
    {
      var v: int := r[i] - m[i] - borrow;
      borrow := if v < 0 then 1 else 0;
      DifferenceStep(r[..], x, y, i, x[i] - y[i] - v, v % 0x100, borrow);
      r[i] := v % 0x100;
      i := i - 1;
    }
    DifferenceDone(r[..], x, y, borrow);
  }

  // ---- comparison ----

  /** At the first difference, the greater byte decides. */
  lemma FirstDifference(a: seq<u8>, b: seq<u8>, i: nat)
    requires |a| == |b| && i < |a| && a[..i] == b[..i] && a[i] < b[i]
    ensures Val(a) < Val(b)
  {
    assert a == a[..i] + a[i..] && b == b[..i] + b[i..];
    assert a[i..] == [a[i]] + a[i + 1..] && b[i..] == [b[i]] + b[i + 1..];
    ValConcat(a[..i], a[i..]);
    ValConcat(b[..i], b[i..]);
    ValCons(a[i], a[i + 1..]);
    ValCons(b[i], b[i + 1..]);
    ValBound(a[i + 1..]);
    Scaled(a[i], b[i], Pow256(|a| - i - 1));
  }

  lemma Scaled(x: int, y: int, p: nat)
    requires x < y
    ensures x * p + p <= y * p
  {
    assert (y - x) * p == y * p - x * p;
    if p > 0 {
      MulAtLeast(y - x, p);
    }
  }

  /** `bn_cmp`: byte order is numeric order. */
  method BnCmp(a: array<u8>, b: array<u8>) returns (c: int)
    requires a.Length == b.Length
    ensures c < 0 <==> Val(a[..]) < Val(b[..])
    ensures c == 0 <==> Val(a[..]) == Val(b[..])
    ensures c > 0 <==> Val(a[..]) > Val(b[..])
  {
    var i := 0;
    while i < a.Length && a[i] == b[i]
      invariant 0 <= i <= a.Length && a[..i] == b[..i]
    {
      i := i + 1;
    }
    if i == a.Length {
      assert a[..] == a[..i] && b[..] == b[..i];
      return 0;
    }
    assert a[..][..i] == a[..i] && b[..][..i] == b[..i];
    if a[i] < b[i] {
      FirstDifference(a[..], b[..], i);
    } else {
      FirstDifference(b[..], a[..], i);
    }
    c := if a[i] < b[i] then -1 else 1;
  }

  // ---- modular addition ----

  /** A zero top byte leaves room for twice the number. */
  lemma GuardByte(m: seq<u8>)
    requires m != [] && m[0] == 0
    ensures 2 * Val(m) <= Pow256(|m|)
  {
    assert m == [m[0]] + m[1..];
    ValCons(m[0], m[1..]);
    ValBound(m[1..]);
  }

  /** `bn_addmod`: `r = (r + a) mod m` for `r` and `a` below `m`; `a` may be `r` itself. */
  method BnAddmod(r: array<u8>, a: array<u8>, m: array<u8>)
    requires 0 < r.Length == a.Length == m.Length && r != m && m[0] == 0
    requires Val(r[..]) < Val(m[..]) && Val(a[..]) < Val(m[..])
    modifies r
    ensures Val(r[..]) == (Val(old(r[..])) + Val(old(a[..]))) % Val(m[..])
  {
    ghost var sum := Val(r[..]) + Val(a[..]);
    GuardByte(m[..]);
    ModSmall(sum, Pow256(r.Length));
    BnAdd(r, a);
    var c := BnCmp(r, m);
    if c >= 0 {
      ModOnce(sum, Val(m[..]));
      BnSub(r, m);
    } else {
      ModSmall(sum, Val(m[..]));
    }
  }

  // ---- bits ----

  /** `v >> k`. */
  function Shr(v: nat, k: nat): nat
    decreases k
  {
    if k == 0 then v else Shr(v / 2, k - 1)
  }

  lemma {:induction false} ShrAdd(v: nat, j: nat, k: nat)
    ensures Shr(v, j + k) == Shr(Shr(v, j), k)
    decreases j
  {
    if j > 0 {
      ShrAdd(v / 2, j - 1, k);
    }
  }

  /** Shifting down one more place. */
  lemma ShrStep(v: nat, k: nat)
    ensures Shr(v, k) == 2 * Shr(v, k + 1) + Shr(v, k) % 2
  {
    ShrAdd(v, k, 1);
    assert Shr(Shr(v, k), 1) == Shr(v, k) / 2;
  }

  lemma {:induction false} ShrSmall(v: nat, k: nat)
    requires v < Exp2(k)
    ensures Shr(v, k) == 0
    decreases k
  {
    if k > 0 {
      ShrSmall(v / 2, k - 1);
    }
  }

  /** Eight places are one byte. */
  lemma ShrByte(v: nat)
    ensures Shr(v, 8) == v / 0x100
  {
    assert Shr(v, 8) == Shr(v / 2 / 2 / 2 / 2, 4) by {
      assert Shr(v, 8) == Shr(v / 2, 7) == Shr(v / 2 / 2, 6) == Shr(v / 2 / 2 / 2, 5);
    }
    var w := v / 2 / 2 / 2 / 2;
    assert Shr(w, 4) == Shr(w / 2, 3) == Shr(w / 2 / 2, 2) == Shr(w / 2 / 2 / 2, 1) == w / 2 / 2 / 2 / 2;
    assert w == v / 16 && w / 2 / 2 / 2 / 2 == w / 16;
  }

  lemma {:induction false} ShrBytes(s: seq<u8>, k: nat)
    requires k <= |s|
    ensures Shr(Val(s), 8 * k) == Val(s[..|s| - k])
    decreases k
  {
    if k == 0 {
      assert s[..|s|] == s;
    } else {
      ShrAdd(Val(s), 8, 8 * (k - 1));
      ShrByte(Val(s));
      var t := s[..|s| - 1];
      assert Val(s) / 0x100 == Val(t);
      ShrBytes(t, k - 1);
      assert t[..|t| - (k - 1)] == s[..|s| - k];
    }
  }

  /** The low bits of a number are the bits of its low byte. */
  lemma {:induction false} LowBits(t: nat, b: nat, j: nat)
    ensures Shr(Exp2(j + 1) * t + b, j) % 2 == Shr(b, j) % 2
    decreases j
  {
    if j == 0 {
      assert Exp2(1) == 2;
    } else {
      assert Exp2(j + 1) * t == 2 * (Exp2(j) * t);
      LowBits(t, b / 2, j - 1);
    }
  }

  /** `bn_bit`: bit `bit` of the number, counted from the least significant. */
  method BnBit(x: array<u8>, bit: nat) returns (on: bool)
    requires bit < 8 * x.Length
    ensures on <==> Shr(Val(x[..]), bit) % 2 == 1
  {
    var byte := x.Length - 1 - bit / 8;
    on := Shr(x[byte], bit % 8) % 2 == 1;
    ghost var s := x[..];
    ShrAdd(Val(s), 8 * (bit / 8), bit % 8);
    ShrBytes(s, bit / 8);
    ghost var p := s[..|s| - bit / 8];
    assert p[|p| - 1] == x[byte];
    ByteBit(Val(p[..|p| - 1]), x[byte], bit % 8);
  }

  lemma ByteBit(q: nat, b: u8, j: nat)
    requires j < 8
    ensures Shr(0x100 * q + b, j) % 2 == Shr(b, j) % 2
  {
    Exp2Sum(j + 1, 7 - j);
    assert Exp2(8) == 0x100;
    assert 0x100 * q == Exp2(j + 1) * (Exp2(7 - j) * q);
    LowBits(Exp2(7 - j) * q, b, j);
  }

  lemma {:induction false} Exp2Sum(j: nat, k: nat)
    ensures Exp2(j + k) == Exp2(j) * Exp2(k)
  {
    if j > 0 {
      Exp2Sum(j - 1, k);
    }
  }

  // ---- modular multiplication and reduction ----

  /** A number below one with a zero top byte has a zero top byte. */
  lemma TopByteZero(b: seq<u8>, m: seq<u8>)
    requires 0 < |b| == |m| && m[0] == 0 && Val(b) < Val(m)
    ensures b[0] == 0
  {
    assert b == [b[0]] + b[1..] && m == [m[0]] + m[1..];
    ValCons(b[0], b[1..]);
    ValCons(m[0], m[1..]);
    ValBound(m[1..]);
    if b[0] > 0 {
      MulAtLeast(b[0], Pow256(|b| - 1));
    }
  }

  /** Above its top byte a number with a zero top byte has no bits. */
  lemma NoHighBits(b: seq<u8>)
    requires |b| > 0 && b[0] == 0
    ensures Shr(Val(b), 8 * (|b| - 1)) == 0
  {
    ShrBytes(b, |b| - 1);
    assert b[..1] == [0] && [0][..0] == [];
  }

  /** Doubling and adding on residues. */
  lemma MulStep(a: nat, h: nat, c: nat, n: nat)
    requires n > 0 && c <= 1
    ensures (((a * h) % n + (a * h) % n) % n + c * a % n) % n == (a * (2 * h + c)) % n
  {
    ModAdd(a * h, a * h, n);
    ModMod(2 * (a * h), n);
    ModAdd(2 * (a * h), c * a, n);
    assert 2 * (a * h) + c * a == a * (2 * h + c);
  }

  method CopyTo(p: array<u8>, q: array<u8>)
    requires p.Length == q.Length && p != q
    modifies p
    ensures p[..] == q[..]
  {
    var i := 0;
    while i < p.Length
      invariant 0 <= i <= p.Length && p[..i] == q[..i]
    {
      p[i] := q[i];
      i := i + 1;
    }
    assert p[..] == p[..i] && q[..] == q[..i];
  }

  /** The accumulator over one more bit of the multiplier. */
  lemma MulInvariant(a: nat, b: nat, bit: nat, n: nat, acc: nat, acc': nat)
    requires a < n && acc == (a * Shr(b, bit + 1)) % n
    requires acc' == if Shr(b, bit) % 2 == 1 then ((acc + acc) % n + a) % n else (acc + acc) % n
    ensures acc' == (a * Shr(b, bit)) % n
  {
    ShrStep(b, bit);
    var h, c := Shr(b, bit + 1), Shr(b, bit) % 2;
    MulStep(a, h, c, n);
    ModSmall(a, n);
    ModMod(acc + acc, n);
    if c == 0 {
      assert c * a == 0;
      ModSmall(0, n);
    } else {
      assert c * a == a;
    }
  }

  /** `acc` holds `a` times the multiplier's bits above `bit`, reduced. */
  predicate Accumulated(acc: nat, a: nat, y: nat, bit: int, n: nat)
    requires bit >= -1 && n > 0
  {
    acc == (a * Shr(y, bit + 1)) % n
  }

  /** One bit of a multiplication: doubles `acc` modulo `m`, then adds `a` if the bit is on. */
  method MulBit(acc: array<u8>, a: array<u8>, m: array<u8>, on: bool, ghost y: nat, bit: nat)
    requires 0 < acc.Length == a.Length == m.Length && acc != m && acc != a && m[0] == 0
    requires Val(acc[..]) < Val(m[..]) && Val(a[..]) < Val(m[..])
    requires Accumulated(Val(acc[..]), Val(a[..]), y, bit, Val(m[..])) && (on <==> Shr(y, bit) % 2 == 1)
    modifies acc
    ensures Val(acc[..]) < Val(m[..]) && Accumulated(Val(acc[..]), Val(a[..]), y, bit - 1, Val(m[..]))
  {
    ghost var before := Val(acc[..]);
    BnAddmod(acc, acc, m);
    if on {
      BnAddmod(acc, a, m);
    }
    MulInvariant(Val(a[..]), y, bit, Val(m[..]), before, Val(acc[..]));
  }

  lemma StartsAtZero(a: nat, y: nat, bit: int, n: nat)
    requires bit >= -1 && n > 0 && Shr(y, bit + 1) == 0
    ensures Accumulated(0, a, y, bit, n)
  {
    assert a * 0 == 0;
    ModSmall(0, n);
  }

  lemma EndsAtProduct(acc: nat, a: nat, y: nat, n: nat)
    requires n > 0 && Accumulated(acc, a, y, -1, n)
    ensures acc == (a * y) % n
  {
  }

  method NewZero(n: nat) returns (r: array<u8>)
    ensures fresh(r) && r.Length == n && Val(r[..]) == 0
    ensures forall k :: 0 <= k < n ==> r[k] == 0
  {
    r := new u8[n](_ => 0);
    ZeroVal(r[..]);
  }

  lemma {:induction false} ZeroVal(s: seq<u8>)
    requires forall k :: 0 <= k < |s| ==> s[k] == 0
    ensures Val(s) == 0
  {
    if s != [] {
      ZeroVal(s[..|s| - 1]);
    }
  }

  /** `bn_mulmod`: `p = a * b mod m` for `a` and `b` below `m`; `p` may be either of them. */
  method BnMulmod(p: array<u8>, a: array<u8>, b: array<u8>, m: array<u8>)
    requires 0 < p.Length == a.Length == b.Length == m.Length && p != m && m[0] == 0
    requires Val(a[..]) < Val(m[..]) && Val(b[..]) < Val(m[..])
    modifies p
    ensures Val(p[..]) == (Val(old(a[..])) * Val(old(b[..]))) % Val(m[..])
  {
    ghost var x, y, n := Val(a[..]), Val(b[..]), Val(m[..]);
    TopByteZero(b[..], m[..]);
    NoHighBits(b[..]);
    var acc := NewZero(a.Length);
    var bit := 8 * (a.Length - 1) - 1;
    StartsAtZero(x, y, bit, n);
    while bit >= 0
      invariant -1 <= bit < 8 * (a.Length - 1)
      invariant Val(a[..]) == x && Val(b[..]) == y && Val(m[..]) == n
      invariant Val(acc[..]) < n && Accumulated(Val(acc[..]), x, y, bit, n)
    {
      var on := BnBit(b, bit);
      MulBit(acc, a, m, on, y, bit);
      bit := bit - 1;
    }
    EndsAtProduct(Val(acc[..]), x, y, n);
    CopyTo(p, acc);
  }

  lemma {:induction false} Pow256IsExp2(n: nat)
    ensures Pow256(n) == Exp2(8 * n)
  {
    if n > 0 {
      Pow256IsExp2(n - 1);
      Exp2Sum(8, 8 * (n - 1));
      assert Exp2(8) == 0x100;
    }
  }

  lemma BitsBelow(top: nat, k: nat, tail: nat, bit: nat)
    requires bit < k
    ensures Shr(top * Exp2(k) + tail, bit) % 2 == Shr(tail, bit) % 2
  {
    var rest := Exp2(k - bit - 1);
    Exp2Sum(bit + 1, k - bit - 1);
    assert top * (Exp2(bit + 1) * rest) == Exp2(bit + 1) * (top * rest);
    LowBits(top * rest, tail, bit);
  }

  /** Below the top byte, a number and its tail have the same bits. */
  lemma TailBits(s: seq<u8>, bit: nat)
    requires |s| > 0 && bit < 8 * (|s| - 1)
    ensures Shr(Val(s), bit) % 2 == Shr(Val(s[1..]), bit) % 2
  {
    assert s == [s[0]] + s[1..];
    ValCons(s[0], s[1..]);
    Pow256IsExp2(|s| - 1);
    BitsBelow(s[0], 8 * (|s| - 1), Val(s[1..]), bit);
  }

  method NewOne(n: nat) returns (r: array<u8>)
    requires n > 0
    ensures fresh(r) && r.Length == n && Val(r[..]) == 1
  {
    r := NewZero(n);
    r[n - 1] := 1;
    ZeroVal(r[..n - 1]);
    assert r[..][..n - 1] == r[..n - 1];
  }

  /** `bn_reduce`: `r` is `x` without its top byte, reduced modulo `m`. */
  method BnReduce(r: array<u8>, x: array<u8>, m: array<u8>)
    requires 0 < r.Length == x.Length == m.Length && r != m && m[0] == 0 && Val(m[..]) > 1
    modifies r
    ensures Val(r[..]) == Val(old(x[1..])) % Val(m[..])
  {
    ghost var y := Val(x[1..]);
    var acc := NewZero(r.Length);
    var one := NewOne(r.Length);
    ShrSmallTail(x[..]);
    assert x[..][1..] == x[1..];
    var bit := 8 * (r.Length - 1) - 1;
    StartsAtZero(1, y, bit, Val(m[..]));
    while bit >= 0
      invariant -1 <= bit < 8 * (r.Length - 1) && Val(one[..]) == 1 && Val(x[1..]) == y
      invariant Val(acc[..]) < Val(m[..]) && Accumulated(Val(acc[..]), Val(one[..]), y, bit, Val(m[..]))
    {
      var on := BnBit(x, bit);
      TailBits(x[..], bit);
      assert x[..][1..] == x[1..];
      MulBit(acc, one, m, on, y, bit);
      bit := bit - 1;
    }
    EndsAtProduct(Val(acc[..]), 1, y, Val(m[..]));
    CopyTo(r, acc);
  }

  lemma ShrSmallTail(x: seq<u8>)
    requires |x| > 0
    ensures Shr(Val(x[1..]), 8 * (|x| - 1)) == 0
  {
    ValBound(x[1..]);
    Pow256IsExp2(|x| - 1);
    ShrSmall(Val(x[1..]), 8 * (|x| - 1));
  }

  // ---- when the reduction is a reduction ----

  /** An odd modulus that divides twice a number divides the number. */
  lemma HalveMultiple(t: nat, n: nat)
    requires n % 2 == 1 && (2 * t) % n == 0
    ensures t % n == 0
  {
    var q := (2 * t) / n;
    assert 2 * t == q * n;
    assert q % 2 == 0 by {
      var h := n / 2;
      assert q * n == 2 * (q * h) + q;
    }
    assert (q / 2) * n * 2 == q * n;
    ModUnique(t, n, q / 2, 0);
  }

  lemma {:induction false} OddDividesFactor(c: nat, k: nat, n: nat)
    requires n % 2 == 1 && (c * Exp2(k)) % n == 0
    ensures c % n == 0
  {
    if k > 0 {
      assert c * Exp2(k) == 2 * (c * Exp2(k - 1));
      HalveMultiple(c * Exp2(k - 1), n);
      OddDividesFactor(c, k - 1, n);
    } else {
      assert c * 1 == c;
    }
  }

  /** Adding `d` keeps the residue exactly when the modulus divides `d`. */
  lemma SameResidue(d: nat, y: nat, n: nat)
    requires n > 0
    ensures (d + y) % n == y % n <==> d % n == 0
  {
    ModAdd(d, y, n);
    if d % n == 0 {
      ModMod(y, n);
    } else if d % n + y % n < n {
      ModSmall(d % n + y % n, n);
    } else {
      ModOnce(d % n + y % n, n);
    }
  }

  /** `bn_reduce` is documented for any 52-byte number; it drops the top byte, so for an odd
      modulus above 255 it computes `x mod m` exactly for the numbers whose top byte is 0. */
  lemma ReduceIsModExactly(x: seq<u8>, n: nat)
    requires |x| > 0 && n > 0xFF && n % 2 == 1
    ensures Val(x[1..]) % n == Val(x) % n <==> x[0] == 0
  {
    assert x == [x[0]] + x[1..];
    ValCons(x[0], x[1..]);
    Pow256IsExp2(|x| - 1);
    TopMatters(x[0], 8 * (|x| - 1), Val(x[1..]), Val(x), n);
  }

  lemma TopMatters(b: u8, k: nat, y: nat, v: nat, n: nat)
    requires n > 0xFF && n % 2 == 1 && v == b * Exp2(k) + y
    ensures y % n == v % n <==> b == 0
  {
    SameResidue(b * Exp2(k), y, n);
    TopResidue(b, k, n);
  }

  lemma TopResidue(b: u8, k: nat, n: nat)
    requires n > 0xFF && n % 2 == 1
    ensures (b * Exp2(k)) % n == 0 <==> b == 0
  {
    if b == 0 {
      assert 0 * Exp2(k) == 0;
      ModSmall(0, n);
    } else if (b * Exp2(k)) % n == 0 {
      ModSmall(b, n);
      OddDividesFactor(b, k, n);
    }
  }
}
