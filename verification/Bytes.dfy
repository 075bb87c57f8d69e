/** Machine integers of the C sources, as ranges of `int`, and the byte operations
    that are not plain arithmetic. */
module Bytes {

  type u8 = x: int | 0 <= x < 0x100
  type u16 = x: int | 0 <= x < 0x1_0000
  type u32 = x: int | 0 <= x < 0x1_0000_0000

  /** `(uint8_t)x`: truncation, also of a negative `int`. */
  function Byte(x: int): u8 { x % 0x100 }

  /** `(uint16_t)x`. */
  function Word(x: int): u16 { x % 0x1_0000 }

  /** A little-endian 16-bit word. */
  function LoHi(lo: u8, hi: u8): u16 { lo + 0x100 * hi }

  /** A flag as the 0 or 1 the sources store. */
  function Num(b: bool): (n: int)
    ensures 0 <= n <= 1
  {
    if b then 1 else 0
  }

  function Exp2(n: nat): (p: nat)
    ensures p >= 1
  {
    if n == 0 then 1 else 2 * Exp2(n - 1)
  }

  /** `1u << k`, for a bit number of a byte. */
  function Mask(k: nat): u8
    requires k < 8
  {
    match k
    case 0 => 1
    case 1 => 2
    case 2 => 4
    case 3 => 8
    case 4 => 16
    case 5 => 32
    case 6 => 64
    case _ => 128
  }

  /** `(x >> k) & 1`, for the bit number of a byte; `x` may be wider than a byte. */
  predicate Bit(x: int, k: nat)
    requires k < 8
  {
    match k
    case 0 => x % 2 == 1
    case 1 => (x / 2) % 2 == 1
    case 2 => (x / 4) % 2 == 1
    case 3 => (x / 8) % 2 == 1
    case 4 => (x / 16) % 2 == 1
    case 5 => (x / 32) % 2 == 1
    case 6 => (x / 64) % 2 == 1
    case _ => (x / 128) % 2 == 1
  }

  // Bitwise operations on the low n bits, from the lowest bit up.

  function AndBits(a: nat, b: nat, n: nat): (r: nat)
    ensures r < Exp2(n)
  {
    if n == 0 then 0 else Num(a % 2 == 1 && b % 2 == 1) + 2 * AndBits(a / 2, b / 2, n - 1)
  }

  function OrBits(a: nat, b: nat, n: nat): (r: nat)
    ensures r < Exp2(n)
  {
    if n == 0 then 0 else Num(a % 2 == 1 || b % 2 == 1) + 2 * OrBits(a / 2, b / 2, n - 1)
  }

  function XorBits(a: nat, b: nat, n: nat): (r: nat)
    ensures r < Exp2(n)
  {
    if n == 0 then 0 else Num((a % 2 == 1) != (b % 2 == 1)) + 2 * XorBits(a / 2, b / 2, n - 1)
  }

  function And(a: u8, b: u8): u8
  {
    assert Exp2(8) == 0x100;
    AndBits(a, b, 8)
  }

  function Or(a: u8, b: u8): u8
  {
    assert Exp2(8) == 0x100;
    OrBits(a, b, 8)
  }

  function Xor(a: u8, b: u8): u8
  {
    assert Exp2(8) == 0x100;
    XorBits(a, b, 8)
  }

  // ---- setting and clearing one bit ----

  lemma OrZero(a: nat, n: nat)
    requires a < Exp2(n)
    ensures OrBits(a, 0, n) == a
  {
  }

  predicate Has(p: nat, k: nat) {
    if k == 0 then p % 2 == 1 else Has(p / 2, k - 1)
  }

  /** Setting a bit that is set changes nothing. */
  lemma {:induction false} OrSet(p: nat, k: nat, n: nat)
    requires k < n && p < Exp2(n) && Has(p, k)
    ensures OrBits(p, Exp2(k), n) == p
  {
    if k == 0 {
      OrZero(p / 2, n - 1);
    } else {
      OrSet(p / 2, k - 1, n - 1);
      assert Exp2(k) == 2 * Exp2(k - 1);
    }
  }

  lemma {:induction false} AndOnes(p: nat, n: nat)
    requires p < Exp2(n)
    ensures AndBits(p, Exp2(n) - 1, n) == p
  {
    if n > 0 {
      AndOnes(p / 2, n - 1);
      assert (Exp2(n) - 1) / 2 == Exp2(n - 1) - 1;
    }
  }

  lemma {:induction false} Exp2Grows(k: nat, n: nat)
    requires k < n
    ensures 2 * Exp2(k) <= Exp2(n)
    decreases n
  {
    if k < n - 1 {
      Exp2Grows(k, n - 1);
    }
  }

  /** Masking one bit out of a number that has it subtracts it. */
  lemma {:induction false} AndClear(p: nat, k: nat, n: nat)
    requires k < n && p < Exp2(n) && Has(p, k)
    ensures Exp2(k) < Exp2(n) && AndBits(p, Exp2(n) - 1 - Exp2(k), n) == p - Exp2(k)
  {
    Exp2Grows(k, n);
    if k == 0 {
      AndOnes(p / 2, n - 1);
      assert (Exp2(n) - 2) / 2 == Exp2(n - 1) - 1;
    } else {
      AndClear(p / 2, k - 1, n - 1);
      assert (Exp2(n) - 1 - Exp2(k)) / 2 == Exp2(n - 1) - 1 - Exp2(k - 1);
    }
  }

  // ---- single bits of a byte ----

  lemma {:induction false} HasOr(a: nat, b: nat, n: nat, k: nat)
    requires k < n
    ensures Has(OrBits(a, b, n), k) == (Has(a, k) || Has(b, k))
  {
    if k > 0 {
      HasOr(a / 2, b / 2, n - 1, k - 1);
    }
  }

  lemma {:induction false} HasAnd(a: nat, b: nat, n: nat, k: nat)
    requires k < n
    ensures Has(AndBits(a, b, n), k) == (Has(a, k) && Has(b, k))
  {
    if k > 0 {
      HasAnd(a / 2, b / 2, n - 1, k - 1);
    }
  }

  lemma {:induction false} HasExp2(j: nat, k: nat)
    ensures Has(Exp2(j), k) == (j == k)
  {
    if k > 0 && j > 0 {
      HasExp2(j - 1, k - 1);
    } else if k > 0 {
      HasZero(k - 1);
    }
  }

  lemma {:induction false} HasZero(k: nat)
    ensures !Has(0, k)
  {
    if k > 0 {
      HasZero(k - 1);
    }
  }

  /** Numbers of n bits with the same bits are equal. */
  lemma {:induction false} SameBits(a: nat, b: nat, n: nat)
    requires a < Exp2(n) && b < Exp2(n) && forall k :: 0 <= k < n ==> Has(a, k) == Has(b, k)
    ensures a == b
  {
    if n > 0 {
      assert Has(a, 0) == Has(b, 0);
      forall k | 0 <= k < n - 1 ensures Has(a / 2, k) == Has(b / 2, k) {
        assert Has(a, k + 1) == Has(b, k + 1);
      }
      SameBits(a / 2, b / 2, n - 1);
    }
  }

  lemma {:induction false} BitIsHas(x: nat, k: nat)
    requires k < 8
    ensures Bit(x, k) == Has(x, k)
  {
    if k > 0 {
      BitOfHalf(x, k);
      BitIsHas(x / 2, k - 1);
    }
  }

  lemma BitOfHalf(x: nat, k: nat)
    requires 0 < k < 8
    ensures Bit(x, k) == Bit(x / 2, k - 1)
  {
    Halves(x);
  }

  lemma Halves(x: nat)
    ensures x / 2 / 2 == x / 4 && x / 4 / 2 == x / 8 && x / 8 / 2 == x / 16
    ensures x / 16 / 2 == x / 32 && x / 32 / 2 == x / 64 && x / 64 / 2 == x / 128
  {
  }

  lemma MaskIsExp2(k: nat)
    requires k < 8
    ensures Mask(k) == Exp2(k)
  {
    match k
    case 0 => case 1 => case 2 => case 3 => case 4 => case 5 => case 6 => case _ =>
  }

  /** Raising one bit of a byte raises that bit and no other. */
  lemma BitOfOrMask(x: u8, j: nat, k: nat)
    requires j < 8 && k < 8
    ensures Bit(Or(x, Mask(j)), k) == (Bit(x, k) || j == k)
  {
    MaskIsExp2(j);
    HasOr(x, Mask(j), 8, k);
    HasExp2(j, k);
    BitIsHas(x, k);
    BitIsHas(Or(x, Mask(j)), k);
  }

  /** A byte is determined by its bits. */
  lemma ByteOfBits(a: u8, b: u8)
    requires forall k :: 0 <= k < 8 ==> Bit(a, k) == Bit(b, k)
    ensures a == b
  {
    var n := 8;
    assert Exp2(8) == 0x100;
    forall k | 0 <= k < n ensures Has(a, k) == Has(b, k) {
      BitIsHas(a, k);
      BitIsHas(b, k);
    }
    SameBits(a, b, n);
  }

  lemma BitOfOr(x: u8, y: u8, k: nat)
    requires k < 8
    ensures Bit(Or(x, y), k) == (Bit(x, k) || Bit(y, k))
  {
    HasOr(x, y, 8, k);
    BitIsHas(x, k);
    BitIsHas(y, k);
    BitIsHas(Or(x, y), k);
  }

  /** Masking with a complement clears the bits of the mask. */
  lemma BitOfAndNot(x: u8, mask: u8, k: nat)
    requires k < 8
    ensures Bit(And(x, 0xFF - mask), k) == (Bit(x, k) && !Bit(mask, k))
  {
    assert Exp2(8) == 0x100;
    HasNot(mask, 8, k);
    HasAnd(x, 0xFF - mask, 8, k);
    BitIsHas(x, k);
    BitIsHas(mask, k);
    BitIsHas(And(x, 0xFF - mask), k);
  }

  lemma {:induction false} HasNot(a: nat, n: nat, k: nat)
    requires a < Exp2(n) && k < n
    ensures Has(Exp2(n) - 1 - a, k) == !Has(a, k)
  {
    HalfOfNot(a, Exp2(n - 1));
    if k > 0 {
      HasNot(a / 2, n - 1, k - 1);
    }
  }

  lemma HalfOfNot(a: nat, e: nat)
    requires a < 2 * e
    ensures (2 * e - 1 - a) / 2 == e - 1 - a / 2 && (2 * e - 1 - a) % 2 == 1 - a % 2
  {
  }
}
