/** The integer logarithm of ccan: the number of bits in a value, from a de Bruijn sequence,
    without branches, from two halves, and as a constant expression. */
module Ilog {

  /** The reference: the highest bit set is bit r - 1. */
  predicate Length32(v: bv32, r: bv32) {
    if v == 0 then r == 0 else 0 < r <= 32 && (v >> (r - 1)) == 1
  }

  predicate Length64(v: bv64, r: bv64) {
    if v == 0 then r == 0 else 0 < r <= 64 && (v >> (r - 1)) == 1
  }

  /** No two numbers are the length of one value. */
  lemma LengthUnique32(v: bv32, r: bv32, s: bv32)
    requires Length32(v, r) && Length32(v, s)
    ensures r == s
  {
  }

  lemma LengthUnique64(v: bv64, r: bv64, s: bv64)
    requires Length64(v, r) && Length64(v, s)
    ensures r == s
  {
  }

  /** The length of a value, from that of its upper or lower half. */
  lemma UpperHalf(v: bv64, s: bv32)
    requires v > 0xFFFF_FFFF && Length32((v >> 32) as bv32, s)
    ensures Length64(v, (32 + s) as bv64)
  {
  }

  lemma LowerHalf(v: bv64, s: bv32)
    requires v <= 0xFFFF_FFFF && Length32(v as bv32, s)
    ensures Length64(v, s as bv64)
  {
  }

  lemma UpperNonZero(v: bv64)
    requires v > 0xFFFF_FFFF
    ensures (v >> 32) as bv32 != 0
  {
  }

  // ------------------------------------------------------------ de Bruijn

  /** DEBRUIJN_IDX32 */
  function Index32(i: bv32): bv32 {
    if i < 4 then (if i < 2 then (if i < 1 then 0 else 1) else (if i < 3 then 28 else 2))
    else if i < 8 then (if i < 6 then (if i < 5 then 29 else 14) else (if i < 7 then 24 else 3))
    else if i < 12 then (if i < 10 then (if i < 9 then 30 else 22) else (if i < 11 then 20 else 15))
    else if i < 16 then (if i < 14 then (if i < 13 then 25 else 17) else (if i < 15 then 4 else 8))
    else if i < 20 then (if i < 18 then (if i < 17 then 31 else 27) else (if i < 19 then 13 else 23))
    else if i < 24 then (if i < 22 then (if i < 21 then 21 else 19) else (if i < 23 then 16 else 7))
    else if i < 28 then (if i < 26 then (if i < 25 then 26 else 12) else (if i < 27 then 18 else 6))
    else if i < 30 then (if i < 29 then 11 else 5) else (if i < 31 then 10 else 9)
  }

  /** DEBRUIJN_IDX64 */
  function Index64(i: bv64): bv64 {
    if i < 4 then (if i < 2 then (if i < 1 then 0 else 1) else (if i < 3 then 2 else 7))
    else if i < 8 then (if i < 6 then (if i < 5 then 3 else 13) else (if i < 7 then 8 else 19))
    else if i < 12 then (if i < 10 then (if i < 9 then 4 else 25) else (if i < 11 then 14 else 28))
    else if i < 16 then (if i < 14 then (if i < 13 then 9 else 34) else (if i < 15 then 20 else 40))
    else if i < 20 then (if i < 18 then (if i < 17 then 5 else 17) else (if i < 19 then 26 else 38))
    else if i < 24 then (if i < 22 then (if i < 21 then 15 else 46) else (if i < 23 then 29 else 48))
    else if i < 28 then (if i < 26 then (if i < 25 then 10 else 31) else (if i < 27 then 35 else 54))
    else if i < 32 then (if i < 30 then (if i < 29 then 21 else 50) else (if i < 31 then 41 else 57))
    else if i < 36 then (if i < 34 then (if i < 33 then 63 else 6) else (if i < 35 then 12 else 18))
    else if i < 40 then (if i < 38 then (if i < 37 then 24 else 27) else (if i < 39 then 33 else 39))
    else if i < 44 then (if i < 42 then (if i < 41 then 16 else 37) else (if i < 43 then 45 else 47))
    else if i < 48 then (if i < 46 then (if i < 45 then 30 else 53) else (if i < 47 then 49 else 56))
    else if i < 52 then (if i < 50 then (if i < 49 then 62 else 11) else (if i < 51 then 23 else 32))
    else if i < 56 then (if i < 54 then (if i < 53 then 36 else 44) else (if i < 55 then 52 else 55))
    else if i < 60 then (if i < 58 then (if i < 57 then 61 else 22) else (if i < 59 then 43 else 51))
    else if i < 62 then (if i < 61 then 60 else 42) else (if i < 63 then 59 else 58)
  }

  /** A power of two. */
  predicate Power32(p: bv32) { p != 0 && (p & (p - 1)) == 0 }

  predicate Highest32(v: bv32, p: bv32) { Power32(p) && p <= v && v - p < p }

  /** The smearing of ilog32: the highest power of two in a value, or one. */
  method Smear32(v0: bv32) returns (p: bv32)
    ensures if v0 == 0 then p == 1 else Highest32(v0, p)
  {
    var v := v0;
    v := v | (v >> 1);
    v := v | (v >> 2);
    v := v | (v >> 4);
    v := v | (v >> 8);
    v := v | (v >> 16);
    p := (v >> 1) + 1;
  }

  /** The multiplication and the table: every power of two has a place of its own. */
  method Place32(p: bv32) returns (i: bv32)
    requires Power32(p)
    ensures i < 32 && (p >> i) == 1
  {
    i := Index32(((p * 0x77CB531) >> 27) & 0x1F);
  }

  lemma PowerLength32(v: bv32, p: bv32, i: bv32)
    requires Highest32(v, p) && i < 32 && (p >> i) == 1
    ensures Length32(v, 1 + i)
  {
  }

  lemma OnePlace32(i: bv32)
    requires i < 32 && (1 >> i) == 1 as bv32
    ensures i == 0
  {
  }

  /** Smearing and the table. */
  method Table32(v: bv32) returns (i: bv32)
    ensures if v == 0 then i == 0 else Length32(v, 1 + i)
  {
    var p := Smear32(v);
    i := Place32(p);
    if v != 0 { PowerLength32(v, p, i); } else { OnePlace32(i); }
  }

  /** ilog32, with a multiplication. */
  method Ilog32(v: bv32) returns (ret: bv32)
    ensures Length32(v, ret)
  {
    ret := if v > 0 then 1 else 0;
    var i := Table32(v);
    ret := ret + i;
  }

  /** A power of two. */
  predicate Power64(p: bv64) { p != 0 && (p & (p - 1)) == 0 }

  predicate Highest64(v: bv64, p: bv64) { Power64(p) && p <= v && v - p < p }

  /** The smearing of ilog64: the highest power of two in a value, or one. */
  method Smear64(v0: bv64) returns (p: bv64)
    ensures if v0 == 0 then p == 1 else Highest64(v0, p)
  {
    var v := v0;
    v := v | (v >> 1);
    v := v | (v >> 2);
    v := v | (v >> 4);
    v := v | (v >> 8);
    v := v | (v >> 16);
    v := v | (v >> 32);
    p := (v >> 1) + 1;
  }

  /** The multiplication and the table: every power of two has a place of its own. */
  method Place64(p: bv64) returns (i: bv64)
    requires Power64(p)
    ensures i < 64 && (p >> i) == 1
  {
    i := Index64(((p * 0x218A392CD3D5DBF) >> 58) & 0x3F);
  }

  lemma PowerLength64(v: bv64, p: bv64, i: bv64)
    requires Highest64(v, p) && i < 64 && (p >> i) == 1
    ensures Length64(v, 1 + i)
  {
  }

  lemma OnePlace64(i: bv64)
    requires i < 64 && (1 >> i) == 1 as bv64
    ensures i == 0
  {
  }

  /** ilog64, with a multiplication. */
  method Ilog64(v: bv64) returns (ret: bv64)
    ensures Length64(v, ret)
  {
    ret := if v > 0 then 1 else 0;
    var p := Smear64(v);
    var i := Place64(p);
    if v != 0 { PowerLength64(v, p, i); } else { OnePlace64(i); }
    ret := ret + i;
  }

  /** ilog64 where there is no 64-bit multiplication: a half and the 32-bit table. */
  method Ilog64Halves(v: bv64) returns (ret: bv32)
    ensures Length64(v, ret as bv64)
  {
    if v > 0xFFFF_FFFF {
      UpperNonZero(v);
      var i := Table32((v >> 32) as bv32);
      ret := (1 | 32) + i;
      Regroup(i);
      UpperHalf(v, 1 + i);
    } else {
      var i := Table32(v as bv32);
      ret := ((if v > 0 then 1 else 0) | 0) + i;
      LowerHalf(v, ret);
    }
  }

  lemma Regroup(i: bv32)
    ensures (1 | 32) + i == 32 + (1 + i)
  {
  }

  // ------------------------------------------------------------ no branches

  function Step(v: bv32, limit: bv32, m: bv32): bv32 { if v > limit then m else 0 }

  /** ilog32, without a multiplication. */
  method Branchless32(v0: bv32) returns (ret: bv32)
    ensures Length32(v0, ret)
  {
    var v := v0;
    ret := if v > 0 then 1 else 0;
    var m := Step(v, 0xFFFF, 16);
    v, ret := v >> m, ret | m;
    m := Step(v, 0xFF, 8);
    v, ret := v >> m, ret | m;
    m := Step(v, 0xF, 4);
    v, ret := v >> m, ret | m;
    m := Step(v, 3, 2);
    v, ret := v >> m, ret | m;
    ret := ret + if v > 1 then 1 else 0;
  }

  /** The same steps, when the upper half has been counted already. */
  method BranchlessUpper(v0: bv32) returns (ret: bv32, ghost s: bv32)
    requires v0 != 0
    ensures ret == 32 + s && Length32(v0, s)
  {
    var v := v0;
    ret := 1 | 32;
    var m := Step(v, 0xFFFF, 16);
    v, ret := v >> m, ret | m;
    m := Step(v, 0xFF, 8);
    v, ret := v >> m, ret | m;
    m := Step(v, 0xF, 4);
    v, ret := v >> m, ret | m;
    m := Step(v, 3, 2);
    v, ret := v >> m, ret | m;
    ret := ret + if v > 1 then 1 else 0;
    s := ret - 32;
  }

  /** ilog64, without a multiplication. */
  method Branchless64(v: bv64) returns (ret: bv32)
    ensures Length64(v, ret as bv64)
  {
    if v > 0xFFFF_FFFF {
      UpperNonZero(v);
      ghost var s: bv32;
      ret, s := BranchlessUpper((v >> 32) as bv32);
      UpperHalf(v, s);
    } else {
      ret := Branchless32(v as bv32);
      LowerHalf(v, ret);
    }
  }

  // ------------------------------------------------------------ constants

  function Static0(v: bv32): bv32 { if v != 0 then 1 else 0 }

  function Static1(v: bv32): bv32 { if (v & 0x2) != 0 then 2 else Static0(v) }

  function Static2(v: bv32): bv32 { if (v & 0xC) != 0 then 2 + Static1(v >> 2) else Static1(v) }

  function Static3(v: bv32): bv32 { if (v & 0xF0) != 0 then 4 + Static2(v >> 4) else Static2(v) }

  function Static4(v: bv32): (r: bv32)
    ensures v <= 0xFFFF ==> Length32(v, r)
  {
    if (v & 0xFF00) != 0 then 8 + Static3(v >> 8) else Static3(v)
  }

  /** STATIC_ILOG_32 */
  function Static5(v: bv32): (r: bv32)
    ensures Length32(v, r)
  {
    if (v & 0xFFFF_0000) != 0 then 16 + Static4(v >> 16) else Static4(v)
  }

  /** STATIC_ILOG_64 */
  function Static6(v: bv64): (r: bv32)
    ensures Length64(v, r as bv64)
  {
    if (v & 0xFFFF_FFFF_0000_0000) != 0 then
      var s := Static5((v >> 32) as bv32); UpperHalf(v, s); 32 + s
    else
      var s := Static5(v as bv32); LowerHalf(v, s); s
  }

  // ------------------------------------------------------------ all forms

  method Constant32(v: bv32) returns (r: bv32)
    ensures Length32(v, r)
  {
    r := Static5(v);
  }

  method Constant64(v: bv64) returns (r: bv32)
    ensures Length64(v, r as bv64)
  {
    r := Static6(v);
  }

  /** The three forms agree on every 32-bit value. */
  method FormsAgree32(v: bv32) returns (table: bv32, branchless: bv32, constant: bv32)
    ensures table == branchless == constant && Length32(v, table)
  {
    table := Ilog32(v);
    branchless := Branchless32(v);
    constant := Constant32(v);
    LengthUnique32(v, table, branchless);
    LengthUnique32(v, table, constant);
  }

  /** The four forms agree on every 64-bit value. */
  method FormsAgree64(v: bv64) returns (table: bv64, halves: bv32, branchless: bv32, constant: bv32)
    ensures table == halves as bv64 == branchless as bv64 == constant as bv64 && Length64(v, table)
  {
    table, halves, branchless := FirstThree64(v);
    constant := Constant64(v);
    LengthUnique64(v, table, constant as bv64);
  }

  method FirstThree64(v: bv64) returns (table: bv64, halves: bv32, branchless: bv32)
    ensures table == halves as bv64 == branchless as bv64 && Length64(v, table)
  {
    table, halves := FirstTwo64(v);
    branchless := Branchless64(v);
    LengthUnique64(v, table, branchless as bv64);
  }

  method FirstTwo64(v: bv64) returns (table: bv64, halves: bv32)
    ensures table == halves as bv64 && Length64(v, table)
  {
    table := Ilog64(v);
    halves := Ilog64Halves(v);
    LengthUnique64(v, table, halves as bv64);
  }
}
