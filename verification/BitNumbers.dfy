/** Masks, shifts and bits of natural numbers. */
module BitNumbers {

  /** `1 << n` */
  function Pow2(n: nat): (r: nat)
    ensures r > 0
  {
    if n == 0 then 1 else 2 * Pow2(n - 1)
  }

  /** Bit `k` of `x`, the lowest being bit 0. */
  predicate Bit(x: nat, k: nat) {
    if k == 0 then x % 2 == 1 else Bit(x / 2, k - 1)
  }

  /** `x & ((1 << m) - 1)` */
  function Low(x: nat, m: nat): nat {
    if m == 0 then 0 else x % 2 + 2 * Low(x / 2, m - 1)
  }

  /** `x >> m` */
  function High(x: nat, m: nat): nat {
    if m == 0 then x else High(x / 2, m - 1)
  }

  /** `x << m` */
  function Shl(x: nat, m: nat): nat {
    if m == 0 then x else 2 * Shl(x, m - 1)
  }

  /** `a | (b << m)`, for an `a` below `1 << m` */
  function Join(a: nat, b: nat, m: nat): nat { a + Shl(b, m) }

  /** `x | y` */
  function Or(x: nat, y: nat): nat {
    if x == 0 then y
    else (if x % 2 == 1 || y % 2 == 1 then 1 else 0) + 2 * Or(x / 2, y / 2)
  }

  lemma {:induction false} BitOr(x: nat, y: nat, k: nat)
    ensures Bit(Or(x, y), k) == (Bit(x, k) || Bit(y, k))
  {
    if x == 0 { ZeroBits(k); }
    else if k > 0 { BitOr(x / 2, y / 2, k - 1); }
  }

  lemma {:induction false} PowGrows(m: nat, n: nat)
    requires m <= n
    ensures Pow2(m) <= Pow2(n)
  {
    if m < n { PowGrows(m, n - 1); }
  }

  lemma {:induction false} LowSmall(x: nat, m: nat)
    ensures Low(x, m) < Pow2(m)
  {
    if m > 0 { LowSmall(x / 2, m - 1); }
  }

  lemma {:induction false} HighSmall(x: nat, m: nat, n: nat)
    requires m <= n && x < Pow2(n)
    ensures High(x, m) < Pow2(n - m)
  {
    if m > 0 { HighSmall(x / 2, m - 1, n - 1); }
  }

  lemma {:induction false} ShlSmall(b: nat, m: nat, n: nat)
    requires m <= n && b < Pow2(n - m)
    ensures Shl(b, m) + Pow2(m) <= Pow2(n)
  {
    if m > 0 { ShlSmall(b, m - 1, n - 1); }
    else { }
  }

  lemma JoinSmall(a: nat, b: nat, m: nat, n: nat)
    requires m <= n && a < Pow2(m) && b < Pow2(n - m)
    ensures Join(a, b, m) < Pow2(n)
  {
    ShlSmall(b, m, n);
  }

  /** The bits of a number put together from a low part and a high part. */
  lemma {:induction false} BitJoin(a: nat, b: nat, m: nat, k: nat)
    requires a < Pow2(m)
    ensures Bit(Join(a, b, m), k) == if k < m then Bit(a, k) else Bit(b, k - m)
  {
    if m > 0 {
      assert Join(a, b, m) % 2 == a % 2 && Join(a, b, m) / 2 == Join(a / 2, b, m - 1);
      if k > 0 { BitJoin(a / 2, b, m - 1, k - 1); }
    }
  }

  lemma {:induction false} BitLow(x: nat, m: nat, k: nat)
    ensures Bit(Low(x, m), k) == (k < m && Bit(x, k))
  {
    if m == 0 { ZeroBits(k); }
    else if k > 0 { BitLow(x / 2, m - 1, k - 1); }
  }

  lemma {:induction false} BitHigh(x: nat, m: nat, k: nat)
    ensures Bit(High(x, m), k) == Bit(x, k + m)
  {
    if m > 0 { BitHigh(x / 2, m - 1, k); }
  }

  lemma {:induction false} HighZero(x: nat, m: nat, k: nat)
    requires x < Pow2(m) && m <= k
    ensures !Bit(x, k)
  {
    if m == 0 { ZeroBits(k); }
    else { HighZero(x / 2, m - 1, k - 1); }
  }

  lemma {:induction false} ZeroBits(k: nat)
    ensures !Bit(0, k)
  {
    if k > 0 { ZeroBits(k - 1); }
  }

  lemma BitShl(x: nat, m: nat, k: nat)
    ensures Bit(Shl(x, m), k) == (k >= m && Bit(x, k - m))
  {
    BitJoin(0, x, m, k);
    if k < m { ZeroBits(k); }
  }

  /** Numbers below 2^n with the same first `n` bits are equal. */
  lemma {:induction false} SameBits(x: nat, y: nat, n: nat)
    requires x < Pow2(n) && y < Pow2(n) && forall k :: 0 <= k < n ==> Bit(x, k) == Bit(y, k)
    ensures x == y
  {
    if n > 0 {
      assert Bit(x, 0) == Bit(y, 0);
      forall k | 0 <= k < n - 1 ensures Bit(x / 2, k) == Bit(y / 2, k) { assert Bit(x, k + 1) == Bit(y, k + 1); }
      SameBits(x / 2, y / 2, n - 1);
    }
  }

  lemma {:induction false} HighHigh(x: nat, m: nat, n: nat)
    ensures High(High(x, m), n) == High(x, m + n)
  {
    if m > 0 { HighHigh(x / 2, m - 1, n); }
  }

  /** `x >> n` and `x & ((1 << n) - 1)` are quotient and remainder. */
  lemma {:induction false} Parts(x: nat, n: nat)
    ensures x == Low(x, n) + Pow2(n) * High(x, n)
  {
    if n > 0 {
      Parts(x / 2, n - 1);
      Doubled(Pow2(n - 1), High(x / 2, n - 1));
    }
  }

  lemma {:induction false} ShlTimes(x: nat, n: nat)
    ensures Shl(x, n) == Pow2(n) * x
  {
    if n > 0 {
      ShlTimes(x, n - 1);
      Doubled(Pow2(n - 1), x);
    }
  }

  lemma Doubled(p: nat, x: nat)
    ensures 2 * p * x == 2 * (p * x)
  {
  }

  lemma PowSmall()
    ensures Pow2(8) == 0x100
  {
    assert Pow2(4) == 16;
  }

  /** All ones. */
  function Ones(n: nat): nat { Pow2(n) - 1 }

  lemma {:induction false} OnesBit(n: nat, k: nat)
    ensures Bit(Ones(n), k) == (k < n)
  {
    if n == 0 { ZeroBits(k); }
    else {
      assert Ones(n) == 2 * Ones(n - 1) + 1;
      if k > 0 { OnesBit(n - 1, k - 1); }
    }
  }

  lemma {:induction false} PowBits(n: nat, k: nat)
    ensures Bit(Pow2(n), k) <==> k == n
  {
    if n == 0 {
      if k > 0 { ZeroBits(k - 1); }
    } else if k > 0 { PowBits(n - 1, k - 1); }
  }

  lemma {:induction false} PowLess(m: nat, n: nat)
    requires m < n
    ensures Pow2(m) < Pow2(n)
  {
    if m < n - 1 { PowLess(m, n - 1); }
  }

  lemma {:induction false} OrSmall(x: nat, y: nat, n: nat)
    requires x < Pow2(n) && y < Pow2(n)
    ensures Or(x, y) < Pow2(n)
  {
    if n > 0 && x > 0 { OrSmall(x / 2, y / 2, n - 1); }
  }

  lemma LowSame(val: nat, m: nat)
    requires val < Pow2(m)
    ensures Low(val, m) == val
  {
    forall k | 0 <= k < m ensures Bit(Low(val, m), k) == Bit(val, k) { BitLow(val, m, k); }
    LowSmall(val, m);
    SameBits(Low(val, m), val, m);
  }

  lemma PowByte(n: nat)
    ensures Pow2(n + 8) == 0x100 * Pow2(n)
  {
    assert Pow2(n + 2) == 4 * Pow2(n) && Pow2(n + 4) == 4 * Pow2(n + 2);
    assert Pow2(n + 6) == 4 * Pow2(n + 4) && Pow2(n + 8) == 4 * Pow2(n + 6);
  }

  lemma PowWide()
    ensures Pow2(16) == 0x1_0000 && Pow2(32) == 0x1_0000_0000 && Pow2(64) == 0x1_0000_0000_0000_0000
  {
    PowByte(0); PowByte(8); PowByte(16); PowByte(24);
    PowByte(32); PowByte(40); PowByte(48); PowByte(56);
  }
}
