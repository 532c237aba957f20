/** Finite sums of reals over the switch numbers below `n`. */
module OfflineSums {

  function Sum(n: nat, f: int -> real): real {
    if n == 0 then 0.0 else Sum(n - 1, f) + f(n - 1)
  }

  lemma {:induction false} SumMonotone(n: nat, f: int -> real, g: int -> real)
    requires forall i :: 0 <= i < n ==> f(i) <= g(i)
    ensures Sum(n, f) <= Sum(n, g)
  {
    if n > 0 { SumMonotone(n - 1, f, g); }
  }

  lemma {:induction false} SumEqual(n: nat, f: int -> real, g: int -> real)
    requires forall i :: 0 <= i < n ==> f(i) == g(i)
    ensures Sum(n, f) == Sum(n, g)
  {
    if n > 0 { SumEqual(n - 1, f, g); }
  }

  lemma {:induction false} SumPlus(n: nat, f: int -> real, g: int -> real)
    ensures Sum(n, i => f(i) + g(i)) == Sum(n, f) + Sum(n, g)
  {
    if n > 0 { SumPlus(n - 1, f, g); }
  }

  lemma {:induction false} SumDifference(n: nat, f: int -> real, g: int -> real, h: int -> real)
    requires forall i :: 0 <= i < n ==> h(i) == f(i) - g(i)
    ensures Sum(n, h) == Sum(n, f) - Sum(n, g)
  {
    if n > 0 { SumDifference(n - 1, f, g, h); }
  }

  lemma {:induction false} SumScale(n: nat, c: real, f: int -> real)
    ensures Sum(n, i => c * f(i)) == c * Sum(n, f)
  {
    if n > 0 { SumScale(n - 1, c, f); }
  }

  lemma {:induction false} SumZero(n: nat)
    ensures Sum(n, _ => 0.0) == 0.0
  {
    if n > 0 { SumZero(n - 1); }
  }

  /** Changing one term changes the sum by as much. */
  lemma {:induction false} SumUpdate(n: nat, k: int, f: int -> real, g: int -> real)
    requires 0 <= k < n && forall i :: 0 <= i < n && i != k ==> f(i) == g(i)
    ensures Sum(n, g) == Sum(n, f) + g(k) - f(k)
  {
    if k == n - 1 { SumEqual(n - 1, f, g); }
    else { SumUpdate(n - 1, k, f, g); }
  }

  lemma SumNonNegative(n: nat, f: int -> real)
    requires forall i :: 0 <= i < n ==> f(i) >= 0.0
    ensures Sum(n, f) >= 0.0
  {
    SumZero(n);
    SumMonotone(n, _ => 0.0, f);
  }

  // ------------------------------------------------------------ double sums

  function Row(n: nat, g: (int, int) -> real, i: int): real { Sum(n, j => g(i, j)) }

  function Column(n: nat, g: (int, int) -> real, j: int): real { Sum(n, i => g(i, j)) }

  function Sum2(n: nat, m: nat, g: (int, int) -> real): real { Sum(n, i => Row(m, g, i)) }

  lemma Sum2Monotone(n: nat, m: nat, g: (int, int) -> real, h: (int, int) -> real)
    requires forall i, j :: 0 <= i < n && 0 <= j < m ==> g(i, j) <= h(i, j)
    ensures Sum2(n, m, g) <= Sum2(n, m, h)
  {
    forall i | 0 <= i < n ensures Row(m, g, i) <= Row(m, h, i) { SumMonotone(m, j => g(i, j), j => h(i, j)); }
    SumMonotone(n, i => Row(m, g, i), i => Row(m, h, i));
  }

  lemma Sum2Equal(n: nat, m: nat, g: (int, int) -> real, h: (int, int) -> real)
    requires forall i, j :: 0 <= i < n && 0 <= j < m ==> g(i, j) == h(i, j)
    ensures Sum2(n, m, g) == Sum2(n, m, h)
  {
    Sum2Monotone(n, m, g, h);
    Sum2Monotone(n, m, h, g);
  }

  lemma Sum2Plus(n: nat, m: nat, g: (int, int) -> real, h: (int, int) -> real)
    ensures Sum2(n, m, (i, j) => g(i, j) + h(i, j)) == Sum2(n, m, g) + Sum2(n, m, h)
  {
    var both := (i, j) => g(i, j) + h(i, j);
    forall i | 0 <= i < n ensures Row(m, both, i) == Row(m, g, i) + Row(m, h, i) {
      SumPlus(m, j => g(i, j), j => h(i, j));
      SumEqual(m, j => both(i, j), j => (j => g(i, j))(j) + (j => h(i, j))(j));
    }
    SumPlus(n, i => Row(m, g, i), i => Row(m, h, i));
    SumEqual(n, i => Row(m, both, i), i => (i => Row(m, g, i))(i) + (i => Row(m, h, i))(i));
  }

  /** The order of summation does not matter. */
  lemma {:induction false} SumSwap(n: nat, m: nat, g: (int, int) -> real)
    ensures Sum2(n, m, g) == Sum(m, j => Column(n, g, j))
  {
    if n == 0 {
      SumZero(m);
      SumEqual(m, j => Column(0, g, j), _ => 0.0);
    } else {
      SumSwap(n - 1, m, g);
      assert Sum2(n, m, g) == Sum2(n - 1, m, g) + Row(m, g, n - 1) by {
        SumEqual(n - 1, i => Row(m, g, i), i => Row(m, g, i));
      }
      SumPlus(m, j => Column(n - 1, g, j), j => g(n - 1, j));
      forall j ensures Column(n, g, j) == Column(n - 1, g, j) + g(n - 1, j) {
        SumEqual(n - 1, i => g(i, j), i => g(i, j));
      }
      SumEqual(m, j => Column(n, g, j), j => (j => Column(n - 1, g, j))(j) + (j => g(n - 1, j))(j));
    }
  }

  /** A sum with a single term. */
  lemma {:induction false} SumSingle(n: nat, u: int, f: int -> real)
    requires forall i :: 0 <= i < n && i != u ==> f(i) == 0.0
    ensures Sum(n, f) == if 0 <= u < n then f(u) else 0.0
  {
    if n > 0 { SumSingle(n - 1, u, f); }
  }

  lemma MulMonotone(t: real, x: real, y: real)
    requires t >= 0.0 && x <= y
    ensures t * x <= t * y
  {
  }

  lemma ZeroTimes(x: real)
    ensures 0.0 * x == 0.0
  {
  }
}
