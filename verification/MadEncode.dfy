/** Encoding a management datagram: word-swapped bit fields, raw big-endian 64-bit fields
    and byte arrays written one after the other into one buffer. */
module MadEncode {
  import opened BigEndian
  import opened BitNumbers
  import opened MadFields

  // ---------------------------------------------------- 64-bit fields, arrays

  /** The copy that _set_field64 and _set_array make. */
  function CopyAt(buf: Buf, at: nat, data: seq<U8>): (r: Buf)
    requires at + |data| <= |buf|
    ensures |r| == |buf| && r[at..at + |data|] == data
    ensures forall i :: 0 <= i < |buf| && !(at <= i < at + |data|) ==> r[i] == buf[i]
  {
    buf[..at] + data + buf[at + |data|..]
  }

  /** _set_field64 */
  function PutBe(buf: Buf, at: nat, n: nat, val: nat): (r: Buf)
    requires at + n <= |buf|
    ensures |r| == |buf| && forall i :: 0 <= i < |buf| && !(at <= i < at + n) ==> r[i] == buf[i]
  {
    CopyAt(buf, at, Be(val, n))
  }

  /** _get_field64 */
  function GetBe(buf: Buf, at: nat, n: nat): nat
    requires at + n <= |buf|
  {
    FromBe(buf[at..at + n])
  }

  lemma BeReadsBack(buf: Buf, at: nat, n: nat, val: nat)
    requires at + n <= |buf|
    ensures GetBe(PutBe(buf, at, n, val), at, n) == Low(val, 8 * n)
  {
    BeLow(val, n);
  }

  /** Bytes that are put together again give the value, cut to their number. */
  lemma {:induction false} BeLow(x: nat, n: nat)
    ensures FromBe(Be(x, n)) == Low(x, 8 * n)
  {
    if n > 0 {
      BeLow(x / 0x100, n - 1);
      assert Be(x, n)[..n - 1] == Be(x / 0x100, n - 1);
      LowByte(x, 8 * (n - 1));
    }
  }

  lemma LowByte(x: nat, n: nat)
    ensures Low(x, 8 + n) == Low(x / 0x100, n) * 0x100 + x % 0x100
  {
    ByteOf(x);
    LowJoin(x, 8, n);
    ShlByte(Low(x / 0x100, n));
  }

  lemma ByteOf(x: nat)
    ensures Low(x, 8) == x % 0x100 && High(x, 8) == x / 0x100
  {
    Parts(x, 8);
    LowSmall(x, 8);
    PowSmall();
  }

  lemma ShlByte(x: nat)
    ensures Shl(x, 8) == 0x100 * x
  {
    ShlTimes(x, 8);
    PowSmall();
  }

  lemma {:induction false} LowJoin(x: nat, m: nat, n: nat)
    ensures Low(x, m + n) == Join(Low(x, m), Low(High(x, m), n), m)
  {
    if m > 0 { LowJoin(x / 2, m - 1, n); }
  }

  /** An array is a whole number of bytes; a short one keeps to one word. */
  predicate IsArray(f: Field) {
    f.offs % 8 == 0 && f.len % 8 == 0 && (f.len < 32 ==> f.offs % 32 + f.len <= 32)
  }

  /** Where it is copied to: the offset of a short one is turned back inside its word. */
  function ArrayAt(f: Field): nat
    requires IsArray(f)
  {
    (if f.len < 32 then BitsOffs(f.offs, f.len).offs else f.offs) / 8
  }

  // ----------------------------------------------------------------- writes

  /** One write, in one of the three storage conventions. */
  datatype Op = Bits(f: Field, val: nat) | Wide(at: nat, val: nat) | Block(at: nat, data: seq<U8>) {

    /** A write that stays inside a buffer of `n` bytes. */
    predicate Ok(n: nat) {
      n % 4 == 0 &&
      match this
      case Bits(f, val) => f.Regular() && f.len <= 32 && f.End() <= n
      case Wide(at, _) => at + 8 <= n
      case Block(at, data) => at + |data| <= n
    }

    /** The bytes that an unswapped write covers. */
    function Size(): nat {
      match this
      case Bits(_, _) => 0
      case Wide(_, _) => 8
      case Block(_, data) => |data|
    }

    /** The bits that hold the value. */
    predicate Reads(n: nat) {
      if Bits? then f.offs <= n < f.offs + f.len else at <= Swap(n / 8) < at + Size()
    }

    /** The bits that the write can change: those, and the ones that a value too long for
        its field spills into. */
    predicate Writes(n: nat) {
      Reads(n) || (Bits? && f.offs + f.len <= n < f.offs + f.len + Beyond(f) && Bit(val, n - f.offs))
    }
  }

  function Do(buf: Buf, op: Op): (r: Buf)
    requires op.Ok(|buf|)
    ensures |r| == |buf|
  {
    match op
    case Bits(f, val) => SetField(buf, f, val)
    case Wide(at, val) => PutBe(buf, at, 8, val)
    case Block(at, data) => CopyAt(buf, at, data)
  }

  /** What was written reads back. */
  predicate Holds(buf: Buf, op: Op)
    requires op.Ok(|buf|)
  {
    match op
    case Bits(f, val) => GetField(buf, f) == Low(val, f.len)
    case Wide(at, val) => GetBe(buf, at, 8) == Low(val, 64)
    case Block(at, data) => buf[at..at + |data|] == data
  }

  lemma DoHolds(buf: Buf, op: Op)
    requires op.Ok(|buf|)
    ensures Holds(Do(buf, op), op)
  {
    match op
    case Bits(f, val) => RoundTrip(buf, f, val);
    case Wide(at, val) => BeReadsBack(buf, at, 8, val);
    case Block(_, _) =>
  }

  /** A write changes no other bit. */
  lemma DoKeeps(buf: Buf, op: Op, n: nat)
    requires op.Ok(|buf|) && !op.Writes(n)
    ensures BufBit(Do(buf, op), n) == BufBit(buf, n)
  {
    if op.Bits? { SetSpan(buf, op.f, op.val, n); }
    else {
      BitOf(buf, n);
      BitOf(Do(buf, op), n);
    }
  }

  /** The bits of the byte at `i`. */
  ghost predicate SameByte(buf: Buf, buf': Buf, i: nat) {
    forall n: nat :: n / 8 == Swap(i) ==> BufBit(buf, n) == BufBit(buf', n)
  }

  lemma ByteByBits(buf: Buf, buf': Buf, i: nat)
    requires i < |buf| == |buf'| && SameByte(buf, buf', i)
    ensures buf[i] == buf'[i]
  {
    SwapTwice(i);
    PowSmall();
    forall b | 0 <= b < 8 ensures Bit(buf[i], b) == Bit(buf'[i], b) {
      var n := 8 * Swap(i) + b;
      assert n / 8 == Swap(i) && BufBit(buf, n) == BufBit(buf', n);
      BitAt(buf, Swap(i), b);
      BitAt(buf', Swap(i), b);
    }
    SameBits(buf[i], buf'[i], 8);
  }

  ghost predicate SameWhereRead(buf: Buf, buf': Buf, op: Op) {
    forall n: nat :: op.Reads(n) ==> BufBit(buf', n) == BufBit(buf, n)
  }

  lemma FieldByBits(buf: Buf, buf': Buf, op: Op)
    requires |buf| == |buf'| && op.Bits? && op.Ok(|buf|) && SameWhereRead(buf, buf', op)
    ensures GetField(buf', op.f) == GetField(buf, op.f)
  {
    forall k | 0 <= k < 32 ensures Bit(GetField(buf', op.f), k) == Bit(GetField(buf, op.f), k) {
      GetBits(buf', op.f, k);
      GetBits(buf, op.f, k);
      assert k < op.f.len ==> op.Reads(op.f.offs + k);
    }
    GetSmall(buf', op.f);
    GetSmall(buf, op.f);
    SameBits(GetField(buf', op.f), GetField(buf, op.f), 32);
  }

  lemma BytesByBits(buf: Buf, buf': Buf, op: Op, i: nat)
    requires |buf| == |buf'| && !op.Bits? && op.Ok(|buf|) && SameWhereRead(buf, buf', op)
    requires op.at <= i < op.at + op.Size()
    ensures buf'[i] == buf[i]
  {
    SwapTwice(i);
    forall n: nat | n / 8 == Swap(i) ensures BufBit(buf, n) == BufBit(buf', n) {
      assert op.Reads(n);
    }
    ByteByBits(buf, buf', i);
  }

  /** Reading depends on the bits that hold the value alone. */
  lemma HoldsByBits(buf: Buf, buf': Buf, op: Op)
    requires |buf| == |buf'| && op.Ok(|buf|) && Holds(buf, op) && SameWhereRead(buf, buf', op)
    ensures Holds(buf', op)
  {
    if op.Bits? { FieldByBits(buf, buf', op); }
    else {
      forall i | op.at <= i < op.at + op.Size() ensures buf'[i] == buf[i] { BytesByBits(buf, buf', op, i); }
      assert buf'[op.at..op.at + op.Size()] == buf[op.at..op.at + op.Size()];
    }
  }

  /** The later write leaves the value of the earlier one alone. */
  ghost predicate Separate(op: Op, later: Op) {
    forall n: nat :: !(op.Reads(n) && later.Writes(n))
  }

  lemma StillHolds(buf: Buf, op: Op, later: Op)
    requires op.Ok(|buf|) && later.Ok(|buf|) && Holds(buf, op) && Separate(op, later)
    ensures Holds(Do(buf, later), op)
  {
    forall n: nat | op.Reads(n) ensures BufBit(Do(buf, later), n) == BufBit(buf, n) {
      assert !later.Writes(n);
      DoKeeps(buf, later, n);
    }
    HoldsByBits(buf, Do(buf, later), op);
  }

  // ------------------------------------------------------ a sequence of writes

  predicate AllOk(ops: seq<Op>, n: nat) { forall i :: 0 <= i < |ops| ==> ops[i].Ok(n) }

  function Run(buf: Buf, ops: seq<Op>): (r: Buf)
    requires AllOk(ops, |buf|)
    ensures |r| == |buf|
  {
    if ops == [] then buf else Do(Run(buf, ops[..|ops| - 1]), ops[|ops| - 1])
  }

  /** After a sequence of writes each one reads back that no later one covers. */
  lemma {:induction false} RunHolds(buf: Buf, ops: seq<Op>, i: nat)
    requires AllOk(ops, |buf|) && i < |ops| && forall j :: i < j < |ops| ==> Separate(ops[i], ops[j])
    ensures Holds(Run(buf, ops), ops[i])
  {
    var n := |ops| - 1;
    var before := Run(buf, ops[..n]);
    if i == n { DoHolds(before, ops[i]); }
    else {
      RunHolds(buf, ops[..n], i);
      StillHolds(before, ops[i], ops[n]);
    }
  }

  lemma {:induction false} RunKeeps(buf: Buf, ops: seq<Op>, n: nat)
    requires AllOk(ops, |buf|) && forall op :: op in ops ==> !op.Writes(n)
    ensures BufBit(Run(buf, ops), n) == BufBit(buf, n)
  {
    if ops != [] {
      var last := |ops| - 1;
      RunKeeps(buf, ops[..last], n);
      DoKeeps(Run(buf, ops[..last]), ops[last], n);
    }
  }

  /** The range of bits that holds the value of a write that starts and ends with a word,
      or of a bit field. */
  function Lo(op: Op): nat { if op.Bits? then op.f.offs else 8 * op.at }

  function Hi(op: Op): nat { if op.Bits? then op.f.offs + op.f.len else 8 * (op.at + op.Size()) }

  predicate Aligned(op: Op) { op.Bits? || (op.at % 4 == 0 && op.Size() % 4 == 0) }

  /** Swapping keeps every byte in its word. */
  lemma AlignedRange(op: Op, n: nat)
    requires Aligned(op)
    ensures op.Reads(n) <==> Lo(op) <= n < Hi(op)
  {
    assert Swap(n / 8) / 4 == n / 8 / 4;
  }

  /** An array, if it is short or made of whole words, lies on the bits of the field of the
      same offset and length. */
  lemma ArrayCovers(f: Field, data: seq<U8>, n: nat)
    requires IsArray(f) && |data| == f.len / 8 && (f.len < 32 || (f.offs % 32 == 0 && f.len % 32 == 0))
    ensures Block(ArrayAt(f), data).Reads(n) <==> f.offs <= n < f.offs + f.len
  {
    if f.len < 32 {
      var word, lo := f.offs / 8 / 4, f.offs / 8 % 4;
      InWord(word, 8 * lo, f.offs);
      ShortArray(f, data, n, word, lo, f.len / 8);
    } else {
      LongAt(f);
      AlignedRange(Block(ArrayAt(f), data), n);
    }
  }

  lemma LongAt(f: Field)
    requires IsArray(f) && f.len >= 32 && f.offs % 32 == 0 && f.len % 32 == 0
    ensures ArrayAt(f) % 4 == 0 && 8 * ArrayAt(f) == f.offs && f.len / 8 % 4 == 0
  {
  }

  lemma ShortArray(f: Field, data: seq<U8>, n: nat, word: nat, lo: nat, size: nat)
    requires f == Field(8 * (4 * word + lo), 8 * size) && lo < 4 && size < 4 && lo + size <= 4 && |data| == size
    ensures IsArray(f) && (Block(ArrayAt(f), data).Reads(n) <==> f.offs <= n < f.offs + f.len)
  {
    ShortAt(f, word, lo, size);
    ShortCovers(word, lo, size, n / 8);
    ByteRange(4 * word + lo, 4 * word + lo + size, n);
  }

  lemma ShortAt(f: Field, word: nat, lo: nat, size: nat)
    requires f == Field(8 * (4 * word + lo), 8 * size) && lo < 4 && size < 4 && lo + size <= 4
    ensures IsArray(f) && ArrayAt(f) == 4 * word + (4 - lo - size)
  {
    Eighths(4 * word + lo);
    Eighths(size);
    InWord(word, 8 * lo, f.offs);
    assert BitsOffs(f.offs, f.len).offs == 8 * (4 * word + (4 - lo - size));
    Eighths(4 * word + (4 - lo - size));
  }

  lemma Eighths(x: nat)
    ensures 8 * x % 8 == 0 && 8 * x / 8 == x
  {
  }

  lemma InWord(word: nat, low: nat, o: nat)
    requires low < 32 && o == 32 * word + low
    ensures o / 32 == word && o % 32 == low
  {
  }

  lemma ShortCovers(word: nat, lo: nat, size: nat, i: nat)
    requires lo + size <= 4
    ensures 4 * word + (4 - lo - size) <= Swap(i) < 4 * word + (4 - lo) <==> 4 * word + lo <= i < 4 * word + lo + size
  {
  }

  lemma ByteRange(first: nat, end: nat, n: nat)
    ensures 8 * first <= n < 8 * end <==> first <= n / 8 < end
  {
  }

  lemma InOrder(op: Op, later: Op)
    requires Aligned(op) && Aligned(later) && Hi(op) <= Lo(later)
    ensures Separate(op, later)
  {
    forall n: nat ensures !(op.Reads(n) && later.Writes(n)) {
      AlignedRange(op, n);
      AlignedRange(later, n);
    }
  }

  /** Writes at rising offsets, all between two bits. */
  predicate Rising(ops: seq<Op>, lo: nat, hi: nat) {
    (forall i :: 0 <= i < |ops| ==> Aligned(ops[i]) && lo <= Lo(ops[i]) && Hi(ops[i]) <= hi) &&
    (forall i, j :: 0 <= i < j < |ops| ==> Hi(ops[i]) <= Lo(ops[j]))
  }

  lemma RisingJoin(a: seq<Op>, b: seq<Op>, lo: nat, mid: nat, hi: nat)
    requires Rising(a, lo, mid) && Rising(b, mid, hi) && lo <= mid <= hi
    ensures Rising(a + b, lo, hi)
  {
    var c := a + b;
    forall i | 0 <= i < |c| ensures Aligned(c[i]) && lo <= Lo(c[i]) && Hi(c[i]) <= hi {
      assert c[i] == if i < |a| then a[i] else b[i - |a|];
    }
    forall i, j | 0 <= i < j < |c| ensures Hi(c[i]) <= Lo(c[j]) {
      if i < |a| <= j { assert c[i] == a[i] && c[j] == b[j - |a|]; }
    }
  }
}
