/** Numbers as bytes, the highest first. */
module BigEndian {
  type U8 = x: int | 0 <= x < 0x100

  function Be(x: nat, n: nat): (s: seq<U8>)
    ensures |s| == n
  {
    if n == 0 then [] else Be(x / 0x100, n - 1) + [x % 0x100]
  }

  function FromBe(s: seq<U8>): nat {
    if s == [] then 0 else FromBe(s[..|s| - 1]) * 0x100 + s[|s| - 1]
  }

  function Pow256(n: nat): nat { if n == 0 then 1 else 0x100 * Pow256(n - 1) }

  lemma {:induction false} BeRoundTrip(x: nat, n: nat)
    requires x < Pow256(n)
    ensures FromBe(Be(x, n)) == x
  {
    if n > 0 {
      BeRoundTrip(x / 0x100, n - 1);
      assert Be(x, n)[..n - 1] == Be(x / 0x100, n - 1);
    }
  }

  lemma {:induction false} FromBeRoundTrip(s: seq<U8>)
    ensures Be(FromBe(s), |s|) == s
  {
    if s != [] {
      var n := |s| - 1;
      FromBeRoundTrip(s[..n]);
      assert FromBe(s) / 0x100 == FromBe(s[..n]) && FromBe(s) % 0x100 == s[n];
      assert s == s[..n] + [s[n]];
    }
  }

  /** Byte `i` of a number, the lowest being byte 0. */
  function ByteAt(x: nat, i: nat): U8 { if i == 0 then x % 0x100 else ByteAt(x / 0x100, i - 1) }

  /** The lowest byte comes last. */
  lemma {:induction false} BeByte(x: nat, n: nat, i: nat)
    requires i < n
    ensures Be(x, n)[n - 1 - i] == ByteAt(x, i)
  {
    if i > 0 { BeByte(x / 0x100, n - 1, i - 1); }
  }

  lemma {:induction false} FromBeBound(s: seq<U8>)
    ensures FromBe(s) < Pow256(|s|)
  {
    if s != [] { FromBeBound(s[..|s| - 1]); }
  }
}
