/** Multi-byte arithmetic with the ADC and SBC helpers of include/lynxrecomp/recomp_rt.h: the
    carry threaded through byte after byte, least significant first. */
module Arithmetic {
  import opened Bytes
  import opened Cpu
  import opened Division
  import opened Runtime

  /** Radix of one byte: 256 in binary mode, 100 in decimal mode. */
  function Base(decimal: bool): nat { if decimal then 100 else 256 }

  /** What a byte stands for: itself, or two decimal digits. */
  function Digits(b: u8, decimal: bool): nat { if decimal then 10 * (b / 16) + b % 16 else b }

  predicate IsBcd(b: u8) { b / 16 <= 9 && b % 16 <= 9 }

  /** Usable in the mode: any byte in binary, two decimal digits in decimal. */
  predicate Usable(b: u8, decimal: bool) { decimal ==> IsBcd(b) }

  ghost predicate AllUsable(s: seq<u8>, decimal: bool) { forall b :: b in s ==> Usable(b, decimal) }

  function Value(s: seq<u8>, decimal: bool): nat {
    if s == [] then 0 else Digits(s[0], decimal) + Base(decimal) * Value(s[1..], decimal)
  }

  function Power(n: nat, decimal: bool): (p: nat)
    ensures p > 0
  {
    if n == 0 then 1 else Base(decimal) * Power(n - 1, decimal)
  }

  /** Load, add with carry, and store, byte after byte: the state after and the bytes stored. */
  function AdcAll(st: State, xs: seq<u8>, ys: seq<u8>): (r: (State, seq<u8>))
    requires |xs| == |ys|
    ensures |r.1| == |xs|
    decreases |xs|
  {
    if xs == [] then (st, [])
    else
      var s := Adc(Lda(st, xs[0]), ys[0]);
      var (t, rest) := AdcAll(s, xs[1..], ys[1..]);
      (t, [s.a] + rest)
  }

  function SbcAll(st: State, xs: seq<u8>, ys: seq<u8>): (r: (State, seq<u8>))
    requires |xs| == |ys|
    ensures |r.1| == |xs|
    decreases |xs|
  {
    if xs == [] then (st, [])
    else
      var s := Sbc(Lda(st, xs[0]), ys[0]);
      var (t, rest) := SbcAll(s, xs[1..], ys[1..]);
      (t, [s.a] + rest)
  }

  // ---- one byte ----

  /** Packing a low digit with a high one that is a multiple of 16 off. */
  lemma PackDigits(hi: int, high: nat, low: nat)
    requires high <= 9 && low <= 9 && (hi == high || hi == high + 16 || hi == high - 16)
    ensures var r := Byte(hi * 16 + low); r / 16 == high && r % 16 == low
  {
    assert Byte(hi * 16 + low) == high * 16 + low;
  }

  /** The decimal adjustment on digits: the packed result and its carry. */
  lemma AddDigits(xh: nat, xl: nat, yh: nat, yl: nat, c: nat)
    requires xh <= 9 && xl <= 9 && yh <= 9 && yl <= 9 && c <= 1
    ensures var lo0, hi0 := xl + yl + c, xh + yh;
            var lo, hi1 := if lo0 > 9 then lo0 + 6 else lo0, if lo0 > 9 then hi0 + 1 else hi0;
            var hi := if hi1 > 9 then hi1 + 6 else hi1;
            var r, carry := Byte(hi * 16 + lo % 16), hi > 0x0F;
            && r / 16 <= 9 && r % 16 <= 9
            && 10 * (r / 16) + r % 16 + 100 * Num(carry) == 10 * xh + xl + (10 * yh + yl) + c
  {
    hide Byte;
    var lo0 := xl + yl + c;
    var low, up := if lo0 > 9 then lo0 - 10 else lo0, Num(lo0 > 9);
    var top := xh + yh + up;
    var high, carry := if top > 9 then top - 10 else top, top > 9;
    assert low <= 9 && high <= 9;
    var lo := if lo0 > 9 then lo0 + 6 else lo0;
    var hi := if top > 9 then top + 6 else top;
    assert lo % 16 == low;
    PackDigits(hi, high, low);
  }

  lemma SubDigits(xh: nat, xl: nat, yh: nat, yl: nat, c: nat)
    requires xh <= 9 && xl <= 9 && yh <= 9 && yl <= 9 && c <= 1
    ensures var lo0, hi0 := xl - yl - (1 - c), xh - yh;
            var lo, hi1 := if lo0 < 0 then lo0 - 6 else lo0, if lo0 < 0 then hi0 - 1 else hi0;
            var hi := if hi1 < 0 then hi1 - 6 else hi1;
            var r, borrow := Byte(hi * 16 + lo % 16), hi1 < 0;
            && r / 16 <= 9 && r % 16 <= 9
            && 10 * (r / 16) + r % 16 - 100 * Num(borrow) == 10 * xh + xl - (10 * yh + yl) - (1 - c)
            && (borrow <==> 16 * xh + xl - (16 * yh + yl) - (1 - c) < 0)
  {
    hide Byte;
    var lo0 := xl - yl - (1 - c);
    var low, down := if lo0 < 0 then lo0 + 10 else lo0, Num(lo0 < 0);
    var top := xh - yh - down;
    var high, borrow := if top < 0 then top + 10 else top, top < 0;
    assert 0 <= low <= 9 && 0 <= high <= 9;
    var lo := if lo0 < 0 then lo0 - 6 else lo0;
    var hi := if top < 0 then top - 6 else top;
    assert lo % 16 == low;
    PackDigits(hi, high, low);
  }

  lemma AddByte(x: u8, y: u8, c: nat, decimal: bool)
    requires c <= 1 && Usable(x, decimal) && Usable(y, decimal)
    ensures var s := if decimal then AddDecimal(x, y, c) else AddBinary(x, y, c);
            && Usable(s.r, decimal)
            && Digits(s.r, decimal) + Base(decimal) * Num(s.carry) == Digits(x, decimal) + Digits(y, decimal) + c
  {
    hide AddOverflow;
    if decimal {
      AddDigits(x / 16, x % 16, y / 16, y % 16, c);
    }
  }

  lemma SubByte(x: u8, y: u8, c: nat, decimal: bool)
    requires c <= 1 && Usable(x, decimal) && Usable(y, decimal)
    ensures var s := if decimal then SubDecimal(x, y, c) else SubBinary(x, y, c);
            && Usable(s.r, decimal)
            && Digits(s.r, decimal) - Base(decimal) * Num(!s.carry) == Digits(x, decimal) - Digits(y, decimal) - (1 - c)
  {
    hide SubOverflow;
    DifferenceFacts(x, y, c);
    if decimal {
      SubDigits(x / 16, x % 16, y / 16, y % 16, c);
    }
  }

  /** The unsigned difference of two bytes is small exactly when nothing is borrowed. */
  lemma DifferenceFacts(x: u8, y: u8, c: nat)
    requires c <= 1
    ensures var d := x - y - (1 - c);
            && (Difference(x, y, c) < 0x100 <==> d >= 0)
            && Byte(Difference(x, y, c)) == if d >= 0 then d else d + 0x100
  {
  }

  lemma AdcFacts(st: State, x: u8, y: u8)
    ensures var s, sum := Adc(Lda(st, x), y), if st.d then AddDecimal(x, y, Num(st.c)) else AddBinary(x, y, Num(st.c));
            s.a == sum.r && s.c == sum.carry && s.v == sum.overflow && s.d == st.d
  {
    hide AddDecimal, AddBinary;
  }

  lemma SbcFacts(st: State, x: u8, y: u8)
    ensures var s, sum := Sbc(Lda(st, x), y), if st.d then SubDecimal(x, y, Num(st.c)) else SubBinary(x, y, Num(st.c));
            s.a == sum.r && s.c == sum.carry && s.v == sum.overflow && s.d == st.d
  {
    hide SubDecimal, SubBinary;
  }

  // ---- any number of bytes ----

  lemma {:induction false} ValueBound(s: seq<u8>, decimal: bool)
    requires AllUsable(s, decimal)
    ensures Value(s, decimal) < Power(|s|, decimal)
  {
    if s != [] {
      assert s[0] in s && Usable(s[0], decimal) && forall b :: b in s[1..] ==> b in s;
      ValueBound(s[1..], decimal);
      Bound(Base(decimal), Digits(s[0], decimal), Value(s[1..], decimal), Power(|s| - 1, decimal));
    }
  }

  lemma Bound(base: nat, d: nat, v: nat, p: nat)
    requires d < base && v < p
    ensures d + base * v < base * p
  {
    MulAtLeast(p - v, base);
    assert base * p == base * v + (p - v) * base;
  }

  lemma Column(base: nat, d: int, x: int, y: int, c: int, carry: int, r: int, vx: int, vy: int, p: nat, out: bool)
    requires d + base * carry == x + y + c && r + Once(p, out) == vx + vy + carry
    ensures (d + base * r) + Once(base * p, out) == (x + base * vx) + (y + base * vy) + c
  {
    assert base * (r + Once(p, out)) == base * r + Once(base * p, out);
    assert base * (vx + vy + carry) == base * vx + base * vy + base * carry;
  }

  /** `p` if it is carried or borrowed. */
  function Once(p: nat, out: bool): nat { if out then p else 0 }

  /** The bytes stored and the final carry are the sum. */
  lemma {:induction false} AdcSums(st: State, xs: seq<u8>, ys: seq<u8>)
    requires |xs| == |ys| && AllUsable(xs, st.d) && AllUsable(ys, st.d)
    ensures var (t, rs) := AdcAll(st, xs, ys);
            && t.d == st.d && AllUsable(rs, st.d)
            && Value(rs, st.d) + Once(Power(|xs|, st.d), t.c) == Value(xs, st.d) + Value(ys, st.d) + Num(st.c)
    decreases |xs|
  {
    hide Adc, Lda, Digits, Base;
    if xs != [] {
      var s := Adc(Lda(st, xs[0]), ys[0]);
      var (t, rest) := AdcAll(s, xs[1..], ys[1..]);
      assert xs[0] in xs && ys[0] in ys;
      assert forall b :: b in xs[1..] ==> b in xs;
      assert forall b :: b in ys[1..] ==> b in ys;
      AdcFacts(st, xs[0], ys[0]);
      AddByte(xs[0], ys[0], Num(st.c), st.d);
      AdcSums(s, xs[1..], ys[1..]);
      assert ([s.a] + rest)[1..] == rest;
      Column(Base(st.d), Digits(s.a, st.d), Digits(xs[0], st.d), Digits(ys[0], st.d), Num(st.c), Num(s.c),
             Value(rest, st.d), Value(xs[1..], st.d), Value(ys[1..], st.d), Power(|xs| - 1, st.d), t.c);
    }
  }

  /** The bytes stored and the final carry, taken as no-borrow, are the difference. */
  lemma {:induction false} SbcSubtracts(st: State, xs: seq<u8>, ys: seq<u8>)
    requires |xs| == |ys| && AllUsable(xs, st.d) && AllUsable(ys, st.d)
    ensures var (t, rs) := SbcAll(st, xs, ys);
            && t.d == st.d && AllUsable(rs, st.d)
            && Value(rs, st.d) - Once(Power(|xs|, st.d), !t.c) == Value(xs, st.d) - Value(ys, st.d) - Num(!st.c)
    decreases |xs|
  {
    hide Sbc, Lda, Digits, Base;
    if xs != [] {
      var s := Sbc(Lda(st, xs[0]), ys[0]);
      var (t, rest) := SbcAll(s, xs[1..], ys[1..]);
      assert xs[0] in xs && ys[0] in ys;
      assert forall b :: b in xs[1..] ==> b in xs;
      assert forall b :: b in ys[1..] ==> b in ys;
      SbcFacts(st, xs[0], ys[0]);
      SubByte(xs[0], ys[0], Num(st.c), st.d);
      SbcSubtracts(s, xs[1..], ys[1..]);
      assert ([s.a] + rest)[1..] == rest;
      Borrow(Base(st.d), Digits(s.a, st.d), Digits(xs[0], st.d), Digits(ys[0], st.d), Num(!st.c), Num(!s.c),
             Value(rest, st.d), Value(xs[1..], st.d), Value(ys[1..], st.d), Power(|xs| - 1, st.d), !t.c);
    }
  }

  lemma Borrow(base: nat, d: int, x: int, y: int, c: int, carry: int, r: int, vx: int, vy: int, p: nat, out: bool)
    requires d - base * carry == x - y - c && r - Once(p, out) == vx - vy - carry
    ensures (d + base * r) - Once(base * p, out) == (x + base * vx) - (y + base * vy) - c
  {
    assert base * (r - Once(p, out)) == base * r - Once(base * p, out);
    assert base * (vx - vy - carry) == base * vx - base * vy - base * carry;
  }

  lemma Carried(sum: nat, p: nat, v: nat, carry: bool)
    requires v < p && v + Once(p, carry) == sum
    ensures v == sum % p && (carry <==> sum >= p)
  {
    ModUnique(sum, p, Num(carry), v);
  }

  lemma Borrowed(diff: int, p: nat, v: nat, carry: bool)
    requires v < p && v == diff + Once(p, !carry)
    ensures v == diff % p && (carry <==> diff >= 0)
  {
    ModUnique(diff, p, if carry then 0 else -1, v);
  }

  /** What an addition should yield. */
  function SumOf(st: State, xs: seq<u8>, ys: seq<u8>): nat { Value(xs, st.d) + Value(ys, st.d) + Num(st.c) }

  /** In either mode: the sum modulo the power of the radix, and the true carry. */
  lemma AdcIsAddition(st: State, xs: seq<u8>, ys: seq<u8>)
    requires |xs| == |ys| && AllUsable(xs, st.d) && AllUsable(ys, st.d)
    ensures var ((t, rs), sum, p) := (AdcAll(st, xs, ys), SumOf(st, xs, ys), Power(|xs|, st.d));
            && AllUsable(rs, st.d) && Value(rs, st.d) == sum % p && (t.c <==> sum >= p)
  {
    hide AdcAll, Value, Power, AllUsable, SumOf;
    var (t, rs) := AdcAll(st, xs, ys);
    SumStored(st, xs, ys);
    Carried(SumOf(st, xs, ys), Power(|xs|, st.d), Value(rs, st.d), t.c);
  }

  lemma SumStored(st: State, xs: seq<u8>, ys: seq<u8>)
    requires |xs| == |ys| && AllUsable(xs, st.d) && AllUsable(ys, st.d)
    ensures var (t, rs) := AdcAll(st, xs, ys);
            && AllUsable(rs, st.d) && Value(rs, st.d) < Power(|xs|, st.d)
            && Value(rs, st.d) + Once(Power(|xs|, st.d), t.c) == SumOf(st, xs, ys)
  {
    hide AdcAll, Value, Power, AllUsable;
    AdcSums(st, xs, ys);
    ValueBound(AdcAll(st, xs, ys).1, st.d);
  }

  /** The difference modulo the power of the radix, and carry set exactly when nothing is borrowed. */
  lemma SbcIsSubtraction(st: State, xs: seq<u8>, ys: seq<u8>)
    requires |xs| == |ys| && AllUsable(xs, st.d) && AllUsable(ys, st.d)
    ensures var ((t, rs), diff, p) := (SbcAll(st, xs, ys), DifferenceOf(st, xs, ys), Power(|xs|, st.d));
            && AllUsable(rs, st.d) && Value(rs, st.d) == diff % p && (t.c <==> diff >= 0)
  {
    hide SbcAll, Value, Power, AllUsable, DifferenceOf;
    var (t, rs) := SbcAll(st, xs, ys);
    DifferenceStored(st, xs, ys);
    Borrowed(DifferenceOf(st, xs, ys), Power(|xs|, st.d), Value(rs, st.d), t.c);
  }

  /** What a subtraction should yield: carry set on entry means nothing was borrowed before. */
  function DifferenceOf(st: State, xs: seq<u8>, ys: seq<u8>): int {
    Value(xs, st.d) - Value(ys, st.d) - Num(!st.c)
  }

  lemma DifferenceStored(st: State, xs: seq<u8>, ys: seq<u8>)
    requires |xs| == |ys| && AllUsable(xs, st.d) && AllUsable(ys, st.d)
    ensures var (t, rs) := SbcAll(st, xs, ys);
            && AllUsable(rs, st.d) && Value(rs, st.d) < Power(|xs|, st.d)
            && Value(rs, st.d) == DifferenceOf(st, xs, ys) + Once(Power(|xs|, st.d), !t.c)
  {
    hide SbcAll, Value, Power, AllUsable;
    SbcSubtracts(st, xs, ys);
    ValueBound(SbcAll(st, xs, ys).1, st.d);
  }

  // ---- the overflow flag ----

  /** A two's-complement number, most significant byte last. */
  function Signed(s: seq<u8>): int
    requires s != []
  {
    var b: int := s[0];
    if |s| > 1 then b + 0x100 * Signed(s[1..]) else if b < 0x80 then b else b - 0x100
  }

  /** Fits in as many bytes, signed. */
  predicate InSignedRange(v: int, p: int) { -p <= 2 * v < p }

  lemma OverflowByte(x: u8, y: u8, c: nat)
    requires c <= 1
    ensures AddBinary(x, y, c).overflow <==> !InSignedRange(Signed([x]) + Signed([y]) + c, 0x100)
    ensures SubBinary(x, y, c).overflow <==> !InSignedRange(Signed([x]) - Signed([y]) - (1 - c), 0x100)
  {
    TopBit(x);
    TopBit(y);
    TopBitOfSum(x + y + c);
    TopBitOfDifference(x, y, c);
  }

  lemma TopBit(x: u8)
    ensures Bit(x, 7) <==> x >= 0x80
  {
  }

  lemma TopBitOfSum(v: nat)
    requires v < 0x200
    ensures Bit(v, 7) <==> 0x80 <= v < 0x100 || v >= 0x180
  {
  }

  lemma TopBitOfDifference(x: u8, y: u8, c: nat)
    requires c <= 1
    ensures var d := x - y - (1 - c); Bit(Difference(x, y, c), 7) <==> d >= 0x80 || -0x80 <= d < 0
  {
    var d := x - y - (1 - c);
    if d < 0 {
      assert Difference(x, y, c) == d + 0x1_0000_0000;
      assert (d + 0x1_0000_0000) / 0x80 == 0x200_0000 + (if d >= -0x80 then -1 else if d >= -0x100 then -2 else -3);
    }
  }

  lemma RangeUp(low: nat, v: int, p: nat)
    requires low < 0x100 && p % 2 == 0
    ensures InSignedRange(low + 0x100 * v, 0x100 * p) <==> InSignedRange(v, p)
  {
  }

  lemma PowerEven(n: nat)
    requires n > 0
    ensures Power(n, false) % 2 == 0 && Power(n + 1, false) == 0x100 * Power(n, false)
  {
    assert Power(n, false) == 2 * (128 * Power(n - 1, false));
  }

  /** In binary mode V after a multi-byte ADC is signed overflow of the whole number. */
  lemma {:induction false} AdcOverflows(st: State, xs: seq<u8>, ys: seq<u8>)
    requires |xs| == |ys| > 0 && !st.d
    ensures AdcAll(st, xs, ys).0.v <==>
            !InSignedRange(Signed(xs) + Signed(ys) + Num(st.c), Power(|xs|, false))
    decreases |xs|
  {
    hide Adc, Lda, AddBinary, AddDecimal;
    var s := Adc(Lda(st, xs[0]), ys[0]);
    AdcFacts(st, xs[0], ys[0]);
    if |xs| == 1 {
      OverflowByte(xs[0], ys[0], Num(st.c));
      assert xs == [xs[0]] && ys == [ys[0]] && Power(1, false) == 0x100;
    } else {
      AdcOverflows(s, xs[1..], ys[1..]);
      AddByte(xs[0], ys[0], Num(st.c), false);
      PowerEven(|xs| - 1);
      RangeUp(s.a, Signed(xs[1..]) + Signed(ys[1..]) + Num(s.c), Power(|xs| - 1, false));
    }
  }

  lemma {:induction false} SbcOverflows(st: State, xs: seq<u8>, ys: seq<u8>)
    requires |xs| == |ys| > 0 && !st.d
    ensures SbcAll(st, xs, ys).0.v <==>
            !InSignedRange(Signed(xs) - Signed(ys) - Num(!st.c), Power(|xs|, false))
    decreases |xs|
  {
    hide Sbc, Lda, SubBinary, SubDecimal;
    var s := Sbc(Lda(st, xs[0]), ys[0]);
    SbcFacts(st, xs[0], ys[0]);
    if |xs| == 1 {
      OverflowByte(xs[0], ys[0], Num(st.c));
      assert xs == [xs[0]] && ys == [ys[0]] && Power(1, false) == 0x100;
    } else {
      SbcOverflows(s, xs[1..], ys[1..]);
      SubByte(xs[0], ys[0], Num(st.c), false);
      PowerEven(|xs| - 1);
      RangeUp(s.a, Signed(xs[1..]) - Signed(ys[1..]) - Num(!s.c), Power(|xs| - 1, false));
    }
  }
}
