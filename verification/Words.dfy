/** 64-bit words as integers, with the wrap-around multiplication and the exclusive or
    that the hash kernels use. */
module Words {
  const TWO_64: int := 0x1_0000_0000_0000_0000
  const TWO_63: int := 0x8000_0000_0000_0000

  /** A bit pattern of 64 bits. */
  type Word = w: int | 0 <= w < 0x1_0000_0000_0000_0000

  /** Product modulo 2^64. */
  function Times(a: Word, b: Word): Word {
    (a * b) % TWO_64
  }

  /** Bitwise exclusive or of the `bits` low bits. */
  function XorBits(a: nat, b: nat, bits: nat): (x: nat) {
    if bits == 0 then 0
    else (if a % 2 != b % 2 then 1 else 0) + 2 * XorBits(a / 2, b / 2, bits - 1)
  }

  function Pow2(n: nat): nat {
    if n == 0 then 1 else 2 * Pow2(n - 1)
  }

  lemma {:induction false} XorBitsFits(a: nat, b: nat, bits: nat)
    ensures XorBits(a, b, bits) < Pow2(bits)
  {
    if bits > 0 {
      XorBitsFits(a / 2, b / 2, bits - 1);
    }
  }

  lemma {:induction false} XorBitsWithZero(a: nat, bits: nat)
    requires a < Pow2(bits)
    ensures XorBits(a, 0, bits) == a
  {
    if bits > 0 {
      XorBitsWithZero(a / 2, bits - 1);
    }
  }

  lemma WordWidth()
    ensures Pow2(64) == TWO_64
  {
    assert Pow2(4) == 16;
    Pow2Adds(4, 4);
    Pow2Adds(8, 8);
    Pow2Adds(16, 16);
    Pow2Adds(32, 32);
  }

  lemma {:induction false} Pow2Adds(m: nat, n: nat)
    ensures Pow2(m + n) == Pow2(m) * Pow2(n)
  {
    if m > 0 {
      Pow2Adds(m - 1, n);
      DoubleProduct(Pow2(m - 1), Pow2(n));
    }
  }

  lemma DoubleProduct(a: nat, b: nat)
    ensures (2 * a) * b == 2 * (a * b)
  {
  }

  function Xor(a: Word, b: Word): Word {
    XorBitsFits(a, b, 64);
    WordWidth();
    XorBits(a, b, 64)
  }

  /** Mixing in a zero term changes nothing. */
  lemma XorZero(a: Word)
    ensures Xor(a, 0) == a
  {
    WordWidth();
    XorBitsWithZero(a, 64);
  }

  /** A word read as a signed 64-bit integer. */
  function Signed(w: Word): int {
    if w < TWO_63 then w else w - TWO_64
  }

  /** Remainder that takes the sign of the dividend, as the GPU computes it. */
  function TruncRem(a: int, n: int): int
    requires n >= 1
  {
    if a >= 0 then a % n else -((-a) % n)
  }

  /** The kernel's table slot of a signed hash. */
  function Slot(a: int, n: int): (r: int)
    requires n >= 1
    ensures 0 <= r < n
  {
    var rem := TruncRem(a, n);
    if rem < 0 then rem + n else rem
  }

  lemma ProductAtLeast(k: int, n: int)
    requires k >= 1 && n >= 1
    ensures k * n >= n
  {
  }

  lemma UniqueRemainder(a: int, n: int, q: int, r: int)
    requires n >= 1 && 0 <= r < n && a == q * n + r
    ensures a % n == r
  {
    var p := a / n;
    assert a == p * n + a % n;
    assert (p - q) * n == r - a % n;
    if p - q >= 1 {
      ProductAtLeast(p - q, n);
    } else if p - q <= -1 {
      ProductAtLeast(q - p, n);
    }
  }

  /** Adding the size back turns the truncated remainder into the floored one that
      `torch.remainder` computes, for negative hashes too. */
  lemma SlotIsFlooredRemainder(a: int, n: int)
    requires n >= 1
    ensures Slot(a, n) == a % n
  {
    if a < 0 {
      var q, r := (-a) / n, (-a) % n;
      assert a == -(q * n) - r;
      if r == 0 {
        UniqueRemainder(a, n, -q, 0);
      } else {
        UniqueRemainder(a, n, -q - 1, n - r);
      }
    }
  }
}
