/** The bit-field codec of libibmad.  A field is a range of bits; bit `n` of the buffer is
    bit n % 8 of the byte that a byte-swapped 32-bit word keeps as byte n / 8.

    Masks and shifts are written as remainders and quotients by powers of two. */
module MadFields {
  import BigEndian
  import opened BitNumbers

  type U8 = BigEndian.U8
  type Buf = seq<U8>

  /** ib_field_t: the normalised offset and the length, in bits. */
  datatype Field = Field(offs: nat, len: nat) {

    /** Bits in the first byte, whole bytes and bits in the last byte, as _set_field
        and _get_field count them. */
    function Pre(): (r: nat)
      ensures r < 8
    {
      (8 - offs % 8) % 8
    }

    function Post(): (r: nat)
      ensures r < 8
    {
      (offs + len) % 8
    }

    function Bytes(): nat { len / 8 }

    /** The field lies inside one byte and leaves its top bit alone. */
    predicate InByte() { Bytes() == 0 && offs % 8 + len < 8 }

    /** The three counts add up to the length. */
    predicate Regular() { InByte() || Pre() + 8 * Bytes() + Post() == len }

    /** One past the last byte that is touched. */
    function End(): nat {
      if InByte() then offs / 8 + 1
      else offs / 8 + (if Pre() > 0 then 1 else 0) + Bytes() + (if Post() > 0 then 1 else 0)
    }

    predicate Fits(buf: Buf) { |buf| % 4 == 0 && End() <= |buf| }

    /** A last byte that is shared with other fields is written without a mask. */
    predicate Unmasked() { !InByte() && Post() > 0 }

    /** No part of the value lands beyond the field's last bit. */
    predicate Takes(val: nat) { Unmasked() ==> val < Pow2(len) }
  }

  /** BITSOFFS: an offset counted from the top of its 32-bit word. */
  function BitsOffs(o: nat, w: nat): Field
    requires o % 32 + w <= 32
  {
    Field(o / 32 * 32 + (32 - o % 32 - w), w)
  }

  /** Normalising turns a field round inside its word, so fields that share no bit still
      share none. */
  lemma BitsOffsApart(o: nat, w: nat, o': nat, w': nat)
    requires o % 32 + w <= 32 && o' % 32 + w' <= 32 && w > 0 && w' > 0
    ensures Apart(BitsOffs(o, w), BitsOffs(o', w')) <==> o + w <= o' || o' + w' <= o
  {
    var q, q', r, r' := o / 32, o' / 32, o % 32, o' % 32;
    assert o == 32 * q + r && o' == 32 * q' + r';
    if q < q' { assert 32 * q + 32 <= 32 * q'; }
    if q' < q { assert 32 * q' + 32 <= 32 * q; }
  }

  /** `3 ^ idx` */
  function Swap(idx: nat): (r: nat)
    ensures r / 4 == idx / 4
  {
    idx / 4 * 4 + (3 - idx % 4)
  }

  lemma SwapTwice(idx: nat)
    ensures Swap(Swap(idx)) == idx
  {
  }

  lemma SwapInside(idx: nat, n: nat)
    requires idx < n && n % 4 == 0
    ensures Swap(idx) < n
  {
  }

  /** Byte `idx` of the unswapped buffer. */
  function Byte(buf: Buf, idx: nat): U8 {
    if Swap(idx) < |buf| then buf[Swap(idx)] else 0
  }

  predicate BufBit(buf: Buf, n: nat) { BitFrom(buf, 0, n) }

  /** Bit `n`, counted from byte `i`. */
  predicate BitFrom(buf: Buf, i: nat, n: nat)
    decreases n
  {
    if n < 8 then Bit(Byte(buf, i), n) else BitFrom(buf, i + 1, n - 8)
  }

  function PutByte(buf: Buf, idx: nat, x: nat): (r: Buf)
    requires |buf| % 4 == 0 && idx < |buf|
    ensures |r| == |buf| && Byte(r, idx) == x % 0x100
    ensures forall i: nat :: i != idx ==> Byte(r, i) == Byte(buf, i)
  {
    SwapInside(idx, |buf|);
    assert forall i: nat :: i != idx ==> Swap(i) != Swap(idx) by {
      forall i: nat | i != idx ensures Swap(i) != Swap(idx) { SwapTwice(i); SwapTwice(idx); }
    }
    buf[Swap(idx) := x % 0x100]
  }

  // ---------------------------------------------------------------- _set_field

  function PutBytes(buf: Buf, idx: nat, n: nat, val: nat): (r: Buf)
    requires |buf| % 4 == 0 && idx + n <= |buf|
    ensures |r| == |buf|
    decreases n
  {
    if n == 0 then buf else PutBytes(PutByte(buf, idx, Low(val, 8)), idx + 1, n - 1, High(val, 8))
  }

  /** The byte of a field that lies inside one. */
  function Within(x: nat, lo: nat, len: nat, val: nat): nat {
    Join(Low(x, lo), Join(Low(val, len), High(x, lo + len), len), lo)
  }

  /** The low bits of the value in the top bits of a byte. */
  function Top(x: nat, pre: nat, val: nat): nat
    requires pre <= 8
  {
    Join(Low(x, 8 - pre), Low(val, pre), 8 - pre)
  }

  /** The high bits of the value over the low bits of a byte; what is too long for them
      is or-ed into the rest of the byte. */
  function Bottom(x: nat, post: nat, val: nat): nat {
    Low(Or(Shl(High(x, post), post), val), 8)
  }

  function SetField(buf: Buf, f: Field, val: nat): (r: Buf)
    requires f.Fits(buf)
    ensures |r| == |buf|
  {
    var idx := f.offs / 8;
    if f.InByte() then PutByte(buf, idx, Within(Byte(buf, idx), f.offs % 8, f.len, val))
    else SetParts(buf, idx, f.Pre(), f.Bytes(), f.Post(), val)
  }

  /** The first byte, and the others. */
  function SetParts(buf: Buf, idx: nat, pre: nat, bytes: nat, post: nat, val: nat): (r: Buf)
    requires |buf| % 4 == 0 && pre < 8
    requires idx + (if pre > 0 then 1 else 0) + bytes + (if post > 0 then 1 else 0) <= |buf|
    ensures |r| == |buf|
  {
    if pre > 0 then SetRest(PutByte(buf, idx, Top(Byte(buf, idx), pre, val)), idx + 1, bytes, post, High(val, pre))
    else SetRest(buf, idx, bytes, post, val)
  }

  /** The whole bytes and the last one. */
  function SetRest(buf: Buf, idx: nat, bytes: nat, post: nat, val: nat): (r: Buf)
    requires |buf| % 4 == 0 && idx + bytes + (if post > 0 then 1 else 0) <= |buf|
    ensures |r| == |buf|
  {
    var buf' := PutBytes(buf, idx, bytes, val);
    if post > 0 then PutByte(buf', idx + bytes, Bottom(Byte(buf', idx + bytes), post, High(val, 8 * bytes))) else buf'
  }

  // ---------------------------------------------------------------- _get_field

  /** The loop from the highest byte down, in 32 bits. */
  function GetBytes(buf: Buf, idx: nat, n: nat, val: nat): nat {
    if n == 0 then val
    else GetBytes(buf, idx, n - 1, Low(Join(Byte(buf, idx + n - 1), val, 8), 32))
  }

  function GetField(buf: Buf, f: Field): nat {
    var idx := f.offs / 8;
    if f.InByte() then Low(High(Byte(buf, idx), f.offs % 8), f.len)
    else GetParts(buf, idx, f.Pre(), f.Bytes(), f.Post(), (f.offs + f.len) / 8)
  }

  /** The bits from the first byte, the whole bytes and the bits from the last one. */
  function GetParts(buf: Buf, idx: nat, pre: nat, bytes: nat, post: nat, last: nat): nat
    requires pre < 8
  {
    var high := if post > 0 then Low(Byte(buf, last), post) else 0;
    if pre > 0 then Low(Join(High(Byte(buf, idx), 8 - pre), GetBytes(buf, idx + 1, bytes, high), pre), 32)
    else Low(Join(0, GetBytes(buf, idx, bytes, high), 0), 32)
  }

  // ----------------------------------------------------------- bits of a byte

  lemma WithinSmall(x: U8, lo: nat, len: nat, val: nat)
    requires lo + len < 8
    ensures Within(x, lo, len, val) < 0x100
  {
    PowSmall();
    LowSmall(x, lo); LowSmall(val, len); HighSmall(x, lo + len, 8);
    JoinSmall(Low(val, len), High(x, lo + len), len, 8 - lo);
    JoinSmall(Low(x, lo), Join(Low(val, len), High(x, lo + len), len), lo, 8);
  }

  lemma WithinBits(x: U8, lo: nat, len: nat, val: nat, k: nat)
    requires lo + len < 8
    ensures Bit(Within(x, lo, len, val), k) == if lo <= k < lo + len then Bit(val, k - lo) else Bit(x, k)
  {
    LowSmall(x, lo);
    LowSmall(val, len);
    BitLow(x, lo, k);
    BitJoin(Low(x, lo), Join(Low(val, len), High(x, lo + len), len), lo, k);
    if k >= lo {
      BitJoin(Low(val, len), High(x, lo + len), len, k - lo);
      BitLow(val, len, k - lo);
      if k >= lo + len { BitHigh(x, lo + len, k - lo - len); }
    }
  }

  lemma TopBits(x: U8, pre: nat, val: nat, k: nat)
    requires 0 < pre < 8
    ensures Top(x, pre, val) < 0x100
    ensures k < 8 ==> Bit(Top(x, pre, val), k) == if k >= 8 - pre then Bit(val, k - (8 - pre)) else Bit(x, k)
  {
    PowSmall();
    LowSmall(x, 8 - pre); LowSmall(val, pre);
    JoinSmall(Low(x, 8 - pre), Low(val, pre), 8 - pre, 8);
    BitJoin(Low(x, 8 - pre), Low(val, pre), 8 - pre, k);
    BitLow(x, 8 - pre, k);
    if k >= 8 - pre { BitLow(val, pre, k - (8 - pre)); }
  }

  lemma BottomBits(x: U8, post: nat, val: nat, k: nat)
    requires k < 8
    ensures Bottom(x, post, val) < 0x100
    ensures Bit(Bottom(x, post, val), k) == (Bit(val, k) || (k >= post && Bit(x, k)))
  {
    var kept := Shl(High(x, post), post);
    PowSmall();
    LowSmall(Or(kept, val), 8);
    BitLow(Or(kept, val), 8, k);
    BitOr(kept, val, k);
    BitShl(High(x, post), post, k);
    if k >= post { BitHigh(x, post, k - post); }
  }

  // ------------------------------------------------------- bits of the buffer

  lemma BitAt(buf: Buf, i: nat, b: nat)
    requires b < 8
    ensures BufBit(buf, 8 * i + b) == Bit(Byte(buf, i), b)
  {
    BitAtFrom(buf, 0, i, b);
  }

  lemma {:induction false} BitAtFrom(buf: Buf, j: nat, i: nat, b: nat)
    requires b < 8
    ensures BitFrom(buf, j, 8 * i + b) == Bit(Byte(buf, j + i), b)
    decreases i
  {
    if i > 0 { BitAtFrom(buf, j + 1, i - 1, b); }
  }

  lemma BitOf(buf: Buf, n: nat)
    ensures BufBit(buf, n) == Bit(Byte(buf, n / 8), n % 8)
  {
    BitAt(buf, n / 8, n % 8);
  }

  lemma PutByteBits(buf: Buf, idx: nat, x: nat, n: nat)
    requires |buf| % 4 == 0 && idx < |buf| && x < 0x100
    ensures BufBit(PutByte(buf, idx, x), n)
         == if 8 * idx <= n < 8 * idx + 8 then Bit(x, n - 8 * idx) else BufBit(buf, n)
  {
    BitOf(buf, n);
    BitOf(PutByte(buf, idx, x), n);
    assert n / 8 == idx <==> 8 * idx <= n < 8 * idx + 8;
  }

  lemma {:induction false} PutBytesBits(buf: Buf, idx: nat, c: nat, val: nat, n: nat)
    requires |buf| % 4 == 0 && idx + c <= |buf|
    ensures BufBit(PutBytes(buf, idx, c, val), n)
         == if 8 * idx <= n < 8 * (idx + c) then Bit(val, n - 8 * idx) else BufBit(buf, n)
    decreases c
  {
    if c > 0 {
      PowSmall();
      LowSmall(val, 8);
      var buf' := PutByte(buf, idx, Low(val, 8));
      PutBytesBits(buf', idx + 1, c - 1, High(val, 8), n);
      PutByteBits(buf, idx, Low(val, 8), n);
      if 8 * idx <= n < 8 * idx + 8 { BitLow(val, 8, n - 8 * idx); }
      else if 8 * (idx + 1) <= n { BitHigh(val, 8, n - 8 * (idx + 1)); }
    }
  }

  /** The bit `n` that a write of `val` must leave: the value's inside the span that starts
      at `start`, the old one outside, with what is too long or-ed into the slack. */
  predicate Written(buf: Buf, start: nat, span: nat, slack: nat, val: nat, n: nat) {
    if start <= n < start + span then Bit(val, n - start)
    else BufBit(buf, n) || (start + span <= n < start + span + slack && Bit(val, n - start))
  }

  /** The rest of a last byte. */
  function Slack(post: nat): nat
    requires post < 8
  {
    if post > 0 then 8 - post else 0
  }

  lemma SetRestBits(buf: Buf, idx: nat, bytes: nat, post: nat, val: nat, n: nat)
    requires |buf| % 4 == 0 && idx + bytes + (if post > 0 then 1 else 0) <= |buf| && post < 8
    ensures BufBit(SetRest(buf, idx, bytes, post, val), n)
         == Written(buf, 8 * idx, 8 * bytes + post, Slack(post), val, n)
  {
    PutBytesBits(buf, idx, bytes, val, n);
    if post > 0 {
      var last := idx + bytes;
      LastByteBits(PutBytes(buf, idx, bytes, val), last, post, High(val, 8 * bytes), n);
      if 8 * last <= n { BitHigh(val, 8 * bytes, n - 8 * last); }
    }
  }

  lemma LastByteBits(buf: Buf, last: nat, post: nat, val: nat, n: nat)
    requires |buf| % 4 == 0 && last < |buf| && 0 < post < 8
    ensures BufBit(PutByte(buf, last, Bottom(Byte(buf, last), post, val)), n)
         == Written(buf, 8 * last, post, Slack(post), val, n)
  {
    var x := Byte(buf, last);
    BottomBits(x, post, val, 0);
    PutByteBits(buf, last, Bottom(x, post, val), n);
    if 8 * last <= n < 8 * last + 8 {
      BottomBits(x, post, val, n - 8 * last);
      BitAt(buf, last, n - 8 * last);
    }
  }

  lemma SetTopBits(buf: Buf, idx: nat, pre: nat, val: nat, n: nat)
    requires |buf| % 4 == 0 && idx < |buf| && 0 < pre < 8
    ensures BufBit(PutByte(buf, idx, Top(Byte(buf, idx), pre, val)), n)
         == Written(buf, 8 * idx + 8 - pre, pre, 0, val, n)
  {
    var x := Byte(buf, idx);
    TopBits(x, pre, val, 0);
    PutByteBits(buf, idx, Top(x, pre, val), n);
    if 8 * idx <= n < 8 * idx + 8 {
      TopBits(x, pre, val, n - 8 * idx);
      BitAt(buf, idx, n - 8 * idx);
    }
  }

  /** The first bit of a field that has `pre` bits in byte `idx`. */
  function First(idx: nat, pre: nat): nat
    requires pre < 8
  {
    if pre > 0 then 8 * idx + 8 - pre else 8 * idx
  }

  lemma SetPartsBits(buf: Buf, idx: nat, pre: nat, bytes: nat, post: nat, val: nat, n: nat, out: Buf)
    requires |buf| % 4 == 0 && pre < 8 && post < 8
    requires idx + (if pre > 0 then 1 else 0) + bytes + (if post > 0 then 1 else 0) <= |buf|
    requires out == SetParts(buf, idx, pre, bytes, post, val)
    ensures BufBit(out, n) == Written(buf, First(idx, pre), pre + 8 * bytes + post, Slack(post), val, n)
  {
    if pre > 0 {
      SetTopBits(buf, idx, pre, val, n);
      WriteOn(buf, PutByte(buf, idx, Top(Byte(buf, idx), pre, val)), idx, pre, bytes, post, val, n, out);
    } else { SetRestBits(buf, idx, bytes, post, val, n); }
  }

  lemma WriteOn(buf: Buf, first: Buf, idx: nat, pre: nat, bytes: nat, post: nat, val: nat, n: nat, out: Buf)
    requires |first| % 4 == 0 && 0 < pre < 8 && post < 8 && idx + 1 + bytes + (if post > 0 then 1 else 0) <= |first|
    requires BufBit(first, n) == Written(buf, 8 * idx + 8 - pre, pre, 0, val, n)
    requires out == SetRest(first, idx + 1, bytes, post, High(val, pre))
    ensures BufBit(out, n) == Written(buf, 8 * idx + 8 - pre, pre + 8 * bytes + post, Slack(post), val, n)
  {
    SetRestBits(first, idx + 1, bytes, post, High(val, pre), n);
    if n >= 8 * (idx + 1) { BitHigh(val, pre, n - 8 * (idx + 1)); }
  }

  // ------------------------------------------------------- what a write does

  /** The bits that a write covers: those of the field, if the counts add up. */
  function Span(f: Field): nat {
    if f.InByte() then f.len else f.Pre() + 8 * f.Bytes() + f.Post()
  }

  /** The bits after the span that a value can spill into. */
  function Beyond(f: Field): nat { if f.InByte() then 0 else Slack(f.Post()) }

  lemma StartOfBytes(f: Field)
    ensures First(f.offs / 8, f.Pre()) == f.offs && (f.Pre() > 0 ==> f.Pre() == 8 - f.offs % 8)
  {
  }

  /** The counts fail to add up in one way only: the field starts inside a byte, has a
      whole byte's length and too few bits beyond that to fill its first byte.  It is then
      written and read as if it were eight bits longer. */
  lemma RegularOrLonger(f: Field)
    ensures f.Regular() <==> f.offs % 8 == 0 || f.len % 8 >= 8 - f.offs % 8 || f.offs % 8 + f.len < 8
    ensures !f.Regular() ==> Span(f) == f.len + 8 && f.Pre() > 0 && f.Post() > 0 && f.Bytes() > 0
                             && (f.offs + f.len) / 8 == f.offs / 8 + f.Bytes()
  {
    var lo, m, b := f.offs % 8, f.len % 8, f.len / 8;
    assert f.offs == 8 * (f.offs / 8) + lo && f.len == 8 * b + m;
    if lo + m < 8 { assert (f.offs + f.len) / 8 == f.offs / 8 + b && f.Post() == lo + m; }
    else { assert f.Post() == lo + m - 8; }
  }

  /** Every bit after a write. */
  lemma SetSpan(buf: Buf, f: Field, val: nat, n: nat)
    requires f.Fits(buf)
    ensures BufBit(SetField(buf, f, val), n) == Written(buf, f.offs, Span(f), Beyond(f), val, n)
  {
    if f.InByte() { SetWithin(buf, f, val, n); }
    else {
      StartOfBytes(f);
      SetPartsBits(buf, f.offs / 8, f.Pre(), f.Bytes(), f.Post(), val, n, SetField(buf, f, val));
    }
  }

  lemma SetWithin(buf: Buf, f: Field, val: nat, n: nat)
    requires f.Fits(buf) && f.InByte()
    ensures BufBit(SetField(buf, f, val), n) == Written(buf, f.offs, f.len, 0, val, n)
  {
    assert 8 * (f.offs / 8) + f.offs % 8 == f.offs;
    SetWithinAt(buf, f.offs / 8, f.offs % 8, f.len, val, n);
  }

  lemma SetWithinAt(buf: Buf, idx: nat, lo: nat, len: nat, val: nat, n: nat)
    requires |buf| % 4 == 0 && idx < |buf| && lo + len < 8
    ensures BufBit(PutByte(buf, idx, Within(Byte(buf, idx), lo, len, val)), n)
         == Written(buf, 8 * idx + lo, len, 0, val, n)
  {
    var x := Byte(buf, idx);
    WithinSmall(x, lo, len, val);
    PutByteBits(buf, idx, Within(x, lo, len, val), n);
    if 8 * idx <= n < 8 * idx + 8 {
      WithinBits(x, lo, len, val, n - 8 * idx);
      BitAt(buf, idx, n - 8 * idx);
    }
  }

  lemma SetCovered(buf: Buf, f: Field, val: nat, n: nat)
    requires f.Fits(buf) && f.offs <= n < f.offs + Span(f)
    ensures BufBit(SetField(buf, f, val), n) == Bit(val, n - f.offs)
  {
    SetSpan(buf, f, val, n);
  }

  /** A value that the field takes changes nothing outside the span. */
  lemma SetInside(buf: Buf, f: Field, val: nat, n: nat)
    requires f.Fits(buf) && f.Takes(val) && !(f.offs <= n < f.offs + Span(f))
    ensures BufBit(SetField(buf, f, val), n) == BufBit(buf, n)
  {
    SetSpan(buf, f, val, n);
    RegularOrLonger(f);
    if f.Unmasked() && n >= f.offs + Span(f) { HighZero(val, f.len, n - f.offs); }
  }

  // ------------------------------------------------------- what a read gives

  lemma {:induction false} GetBytesBits(buf: Buf, idx: nat, c: nat, val: nat, k: nat)
    requires k < 32
    ensures Bit(GetBytes(buf, idx, c, val), k) == if k < 8 * c then BufBit(buf, 8 * idx + k) else Bit(val, k - 8 * c)
    decreases c
  {
    if c > 0 {
      var x := Byte(buf, idx + c - 1);
      GetBytesBits(buf, idx, c - 1, Low(Join(x, val, 8), 32), k);
      if k >= 8 * (c - 1) {
        var b := k - 8 * (c - 1);
        PowSmall();
        BitLow(Join(x, val, 8), 32, b);
        BitJoin(x, val, 8, b);
        if b < 8 { BitAt(buf, idx + c - 1, b); }
      }
    }
  }

  lemma FirstBits(buf: Buf, i: nat, pre: nat, k: nat)
    requires 0 < pre < 8
    ensures High(Byte(buf, i), 8 - pre) < Pow2(pre)
    ensures k < pre ==> Bit(High(Byte(buf, i), 8 - pre), k) == BufBit(buf, 8 * i + 8 - pre + k)
  {
    PowSmall();
    HighSmall(Byte(buf, i), 8 - pre, 8);
    if k < pre {
      BitHigh(Byte(buf, i), 8 - pre, k);
      BitAt(buf, i, 8 - pre + k);
    }
  }

  lemma LastBits(buf: Buf, i: nat, post: nat, k: nat)
    requires post < 8
    ensures Bit(if post > 0 then Low(Byte(buf, i), post) else 0, k) == (k < post && BufBit(buf, 8 * i + k))
  {
    if post > 0 {
      BitLow(Byte(buf, i), post, k);
      if k < post { BitAt(buf, i, k); }
    } else { ZeroBits(k); }
  }

  /** The bits that the whole bytes and the last one give. */
  lemma RestBits(buf: Buf, idx: nat, bytes: nat, post: nat, last: nat, k: nat)
    requires post < 8 && k < 32
    ensures var high := if post > 0 then Low(Byte(buf, last), post) else 0;
            Bit(GetBytes(buf, idx, bytes, high), k) ==
            if k < 8 * bytes then BufBit(buf, 8 * idx + k)
            else k - 8 * bytes < post && BufBit(buf, 8 * last + (k - 8 * bytes))
  {
    var high := if post > 0 then Low(Byte(buf, last), post) else 0;
    GetBytesBits(buf, idx, bytes, high, k);
    if k >= 8 * bytes { LastBits(buf, last, post, k - 8 * bytes); }
  }

  /** The bit `k` of what is read: of a span that starts at `start`, then of the last byte. */
  predicate Read(buf: Buf, start: nat, span: nat, post: nat, last: nat, k: nat) {
    k < 32 && if k < span then BufBit(buf, start + k) else k - span < post && BufBit(buf, 8 * last + (k - span))
  }

  lemma GetPartsBits(buf: Buf, idx: nat, pre: nat, bytes: nat, post: nat, last: nat, k: nat, out: nat)
    requires pre < 8 && post < 8 && out == GetParts(buf, idx, pre, bytes, post, last)
    ensures Bit(out, k) == Read(buf, First(idx, pre), pre + 8 * bytes, post, last, k)
  {
    var high := if post > 0 then Low(Byte(buf, last), post) else 0;
    if pre > 0 {
      var v, val := High(Byte(buf, idx), 8 - pre), GetBytes(buf, idx + 1, bytes, high);
      FirstBits(buf, idx, pre, k);
      ReadJoined(buf, idx, pre, bytes, post, last, k, v, val, out);
    } else {
      ReadWhole(buf, idx, bytes, post, last, k, GetBytes(buf, idx, bytes, high), out);
    }
  }

  lemma ReadWhole(buf: Buf, idx: nat, bytes: nat, post: nat, last: nat, k: nat, val: nat, out: nat)
    requires post < 8 && out == Low(Join(0, val, 0), 32)
    requires val == GetBytes(buf, idx, bytes, if post > 0 then Low(Byte(buf, last), post) else 0)
    ensures Bit(out, k) == Read(buf, 8 * idx, 8 * bytes, post, last, k)
  {
    JoinedBits(0, val, 0, k, out);
    if k < 32 { RestBits(buf, idx, bytes, post, last, k); }
  }

  lemma ReadJoined(buf: Buf, idx: nat, pre: nat, bytes: nat, post: nat, last: nat, k: nat, v: nat, val: nat, out: nat)
    requires 0 < pre < 8 && post < 8 && v == High(Byte(buf, idx), 8 - pre) && out == Low(Join(v, val, pre), 32)
    requires val == GetBytes(buf, idx + 1, bytes, if post > 0 then Low(Byte(buf, last), post) else 0) && v < Pow2(pre)
    ensures Bit(out, k) == Read(buf, 8 * idx + 8 - pre, pre + 8 * bytes, post, last, k)
  {
    JoinedBits(v, val, pre, k, out);
    ReadOn(buf, idx, pre, bytes, post, last, k, v, val, Bit(out, k));
  }

  lemma ReadOn(buf: Buf, idx: nat, pre: nat, bytes: nat, post: nat, last: nat, k: nat, v: nat, val: nat, bit: bool)
    requires 0 < pre < 8 && post < 8 && v == High(Byte(buf, idx), 8 - pre)
    requires val == GetBytes(buf, idx + 1, bytes, if post > 0 then Low(Byte(buf, last), post) else 0)
    requires bit == (k < 32 && if k < pre then Bit(v, k) else Bit(val, k - pre))
    ensures bit == Read(buf, 8 * idx + 8 - pre, pre + 8 * bytes, post, last, k)
  {
    FirstBits(buf, idx, pre, k);
    if pre <= k < 32 {
      RestBits(buf, idx + 1, bytes, post, last, k - pre);
      assert 8 * (idx + 1) + (k - pre) == 8 * idx + 8 - pre + k;
    }
  }

  lemma JoinedBits(v: nat, val: nat, pre: nat, k: nat, out: nat)
    requires v < Pow2(pre) && out == Low(Join(v, val, pre), 32)
    ensures Bit(out, k) == (k < 32 && if k < pre then Bit(v, k) else Bit(val, k - pre))
  {
    BitLow(Join(v, val, pre), 32, k);
    BitJoin(v, val, pre, k);
  }

  /** The bits that are read before the last byte. */
  function Straight(f: Field): (r: nat)
    ensures r <= Span(f)
  {
    if f.InByte() then f.len else f.Pre() + 8 * f.Bytes()
  }

  /** Every bit that a read gives. */
  lemma GetSpan(buf: Buf, f: Field, k: nat)
    ensures Bit(GetField(buf, f), k)
         == Read(buf, f.offs, Straight(f), Span(f) - Straight(f), (f.offs + f.len) / 8, k)
  {
    if f.InByte() { InByteBits(buf, f, k); }
    else {
      StartOfBytes(f);
      GetPartsBits(buf, f.offs / 8, f.Pre(), f.Bytes(), f.Post(), (f.offs + f.len) / 8, k, GetField(buf, f));
    }
  }

  lemma InByteBits(buf: Buf, f: Field, k: nat)
    requires f.InByte()
    ensures Bit(GetField(buf, f), k) == (k < f.len && BufBit(buf, f.offs + k))
  {
    var i, lo := f.offs / 8, f.offs % 8;
    BitLow(High(Byte(buf, i), lo), f.len, k);
    BitHigh(Byte(buf, i), lo, k);
    if k < f.len {
      BitAt(buf, i, lo + k);
      assert 8 * i + (lo + k) == f.offs + k;
    }
  }

  /** A regular field reads as its bits. */
  lemma GetBits(buf: Buf, f: Field, k: nat)
    requires f.Regular() && f.len <= 32
    ensures Bit(GetField(buf, f), k) == (k < f.len && BufBit(buf, f.offs + k))
  {
    GetSpan(buf, f, k);
    EndOfField(f);
  }

  /** A normalised field is the `w` bits of the buffer from bit `o`, where bit 0 is the top bit
      of byte 0 and the top bit of the value comes first. */
  lemma BitsOffsReads(buf: Buf, o: nat, w: nat, k: nat)
    requires o % 32 + w <= 32 && BitsOffs(o, w).Regular() && k < w && o / 32 * 4 + 4 <= |buf|
    ensures (o + k) / 8 < |buf|
    ensures Bit(GetField(buf, BitsOffs(o, w)), w - 1 - k) == Bit(buf[(o + k) / 8], 7 - (o + k) % 8)
  {
    var q, b, c := o / 32, (o % 32 + k) / 8, (o % 32 + k) % 8;
    FromTop(o, w, k, q, b, c);
    GetBits(buf, BitsOffs(o, w), w - 1 - k);
    BitFromTop(buf, q, b, c);
    assert (o + k) / 8 == 4 * q + b && (o + k) % 8 == c;
  }

  lemma BitFromTop(buf: Buf, q: nat, b: nat, c: nat)
    requires b < 4 && c < 8 && 4 * q + 4 <= |buf|
    ensures BufBit(buf, 8 * (4 * q + 3 - b) + (7 - c)) == Bit(buf[4 * q + b], 7 - c)
  {
    BitAt(buf, 4 * q + 3 - b, 7 - c);
    TopDown(q, b);
  }

  lemma FromTop(o: nat, w: nat, k: nat, q: nat, b: nat, c: nat)
    requires o % 32 + w <= 32 && k < w && q == o / 32 && b == (o % 32 + k) / 8 && c == (o % 32 + k) % 8
    ensures o + k == 8 * (4 * q + b) + c && b < 4
    ensures BitsOffs(o, w).offs + (w - 1 - k) == 8 * (4 * q + 3 - b) + (7 - c)
  {
  }

  lemma TopDown(q: nat, b: nat)
    requires b < 4
    ensures Swap(4 * q + 3 - b) == 4 * q + b
  {
  }

  lemma EndOfField(f: Field)
    ensures 8 * ((f.offs + f.len) / 8) == f.offs + f.len - f.Post()
  {
  }

  lemma GetSmall(buf: Buf, f: Field)
    requires f.len <= 32
    ensures GetField(buf, f) < Pow2(32)
  {
    if f.InByte() { LowSmall(High(Byte(buf, f.offs / 8), f.offs % 8), f.len); PowGrows(f.len, 32); }
    else { PartsSmall(buf, f.offs / 8, f.Pre(), f.Bytes(), f.Post(), (f.offs + f.len) / 8); }
  }

  lemma PartsSmall(buf: Buf, idx: nat, pre: nat, bytes: nat, post: nat, last: nat)
    requires pre < 8
    ensures GetParts(buf, idx, pre, bytes, post, last) < Pow2(32)
  {
    var high := if post > 0 then Low(Byte(buf, last), post) else 0;
    if pre > 0 { LowSmall(Join(High(Byte(buf, idx), 8 - pre), GetBytes(buf, idx + 1, bytes, high), pre), 32); }
    else { LowSmall(Join(0, GetBytes(buf, idx, bytes, high), 0), 32); }
  }

  // ------------------------------------------------------------ main theorems

  /** The bits of the field hold the value. */
  ghost predicate Covered(buf: Buf, f: Field, val: nat) {
    forall n: nat :: f.offs <= n < f.offs + f.len ==> BufBit(buf, n) == Bit(val, n - f.offs)
  }

  lemma WriteCovers(buf: Buf, f: Field, val: nat)
    requires f.Fits(buf)
    ensures Covered(SetField(buf, f, val), f, val)
  {
    RegularOrLonger(f);
    forall n: nat | f.offs <= n < f.offs + f.len ensures BufBit(SetField(buf, f, val), n) == Bit(val, n - f.offs) {
      SetCovered(buf, f, val, n);
    }
  }

  lemma ReadCovered(buf: Buf, f: Field, val: nat)
    requires f.Regular() && f.len <= 32 && Covered(buf, f, val)
    ensures GetField(buf, f) == Low(val, f.len)
  {
    forall k | 0 <= k < 32 ensures Bit(GetField(buf, f), k) == Bit(Low(val, f.len), k) {
      GetBits(buf, f, k);
      BitLow(val, f.len, k);
    }
    GetSmall(buf, f);
    LowSmall(val, f.len);
    PowGrows(f.len, 32);
    SameBits(GetField(buf, f), Low(val, f.len), 32);
  }

  /** Set then get: a regular field gives back any value, cut to its length. */
  lemma RoundTrip(buf: Buf, f: Field, val: nat)
    requires f.Fits(buf) && f.Regular() && f.len <= 32
    ensures GetField(SetField(buf, f, val), f) == Low(val, f.len)
  {
    WriteCovers(buf, f, val);
    ReadCovered(SetField(buf, f, val), f, val);
  }

  predicate Apart(f: Field, g: Field) {
    f.offs + f.len <= g.offs || g.offs + g.len <= f.offs
  }

  /** Writing a value that fits a regular field disturbs no regular field on other bits. */
  lemma NoInterference(buf: Buf, f: Field, val: nat, g: Field)
    requires f.Fits(buf) && f.Regular() && f.Takes(val) && g.Regular() && g.len <= 32 && Apart(f, g)
    ensures GetField(SetField(buf, f, val), g) == GetField(buf, g)
  {
    var buf' := SetField(buf, f, val);
    forall k | 0 <= k < 32 ensures Bit(GetField(buf', g), k) == Bit(GetField(buf, g), k) {
      GetBits(buf', g, k);
      GetBits(buf, g, k);
      if k < g.len { SetInside(buf, f, val, g.offs + k); }
    }
    GetSmall(buf', g);
    GetSmall(buf, g);
    SameBits(GetField(buf', g), GetField(buf, g), 32);
  }

  /** Two fields side by side, holding the parts of a value, read as one field. */
  lemma Adjacent(buf: Buf, f: Field, g: Field, val: nat)
    requires f.Regular() && g.Regular() && Field(f.offs, f.len + g.len).Regular()
    requires g.offs == f.offs + f.len && f.len + g.len <= 32
    requires GetField(buf, f) == Low(val, f.len) && GetField(buf, g) == Low(High(val, f.len), g.len)
    ensures GetField(buf, Field(f.offs, f.len + g.len)) == Low(val, f.len + g.len)
  {
    var h := Field(f.offs, f.len + g.len);
    AdjacentAs(buf, f, g, h, GetField(buf, f), GetField(buf, g), GetField(buf, h), val);
  }

  lemma AdjacentAs(buf: Buf, f: Field, g: Field, h: Field, x: nat, y: nat, z: nat, val: nat)
    requires f.Regular() && g.Regular() && h.Regular() && h == Field(f.offs, f.len + g.len) && h.len <= 32
    requires g.offs == f.offs + f.len && z == GetField(buf, h)
    requires x == GetField(buf, f) == Low(val, f.len) && y == GetField(buf, g) == Low(High(val, f.len), g.len)
    ensures z == Low(val, f.len + g.len)
  {
    AllSideBySide(buf, f, g, h);
    GetSmall(buf, h);
    PutTogether(x, y, z, f.len, g.len, val);
  }

  /** The bits of `z` are the lowest `m` of `x`, and then those of `y`. */
  ghost predicate OneAfterOther(x: nat, y: nat, z: nat, m: nat) {
    forall k: nat :: Bit(z, k) == if k < m then Bit(x, k) else Bit(y, k - m)
  }

  lemma AllSideBySide(buf: Buf, f: Field, g: Field, h: Field)
    requires f.Regular() && g.Regular() && h.Regular()
    requires h == Field(f.offs, f.len + g.len) && g.offs == f.offs + f.len && h.len <= 32
    ensures OneAfterOther(GetField(buf, f), GetField(buf, g), GetField(buf, h), f.len)
  {
    forall k: nat
      ensures Bit(GetField(buf, h), k)
           == if k < f.len then Bit(GetField(buf, f), k) else Bit(GetField(buf, g), k - f.len)
    {
      SideBySide(buf, f, g, h, k);
    }
  }

  lemma SideBySide(buf: Buf, f: Field, g: Field, h: Field, k: nat)
    requires f.Regular() && g.Regular() && h.Regular()
    requires h == Field(f.offs, f.len + g.len) && g.offs == f.offs + f.len && h.len <= 32
    ensures Bit(GetField(buf, h), k) == if k < f.len then Bit(GetField(buf, f), k) else Bit(GetField(buf, g), k - f.len)
  {
    GetBits(buf, h, k);
    if k < f.len { GetBits(buf, f, k); }
    else {
      GetBits(buf, g, k - f.len);
      assert g.offs + (k - f.len) == f.offs + k;
    }
  }

  lemma PutTogether(x: nat, y: nat, z: nat, m: nat, n: nat, val: nat)
    requires x == Low(val, m) && y == Low(High(val, m), n) && z < Pow2(32) && m + n <= 32
    requires OneAfterOther(x, y, z, m)
    ensures z == Low(val, m + n)
  {
    forall k | 0 <= k < 32 ensures Bit(z, k) == Bit(Low(val, m + n), k) {
      BitLow(val, m + n, k);
      if k < m { BitLow(val, m, k); }
      else {
        BitLow(High(val, m), n, k - m);
        BitHigh(val, m, k - m);
      }
    }
    LowSmall(val, m + n);
    PowGrows(m + n, 32);
    SameBits(z, Low(val, m + n), 32);
  }

  function Filled(n: nat, x: U8): (b: Buf)
    ensures |b| == n && forall i :: 0 <= i < n ==> b[i] == x
  {
    seq(n, _ => x)
  }

  /** A buffer with room for the field, with the same in every byte. */
  function Room(f: Field, x: U8): (b: Buf)
    ensures f.Fits(b)
  {
    Filled(4 * (f.End() + 1), x)
  }

  lemma RoomBits(f: Field, n: nat)
    requires n / 8 < f.End()
    ensures BufBit(Room(f, 0xff), n)
  {
    BitOf(Room(f, 0xff), n);
    SwapInside(n / 8, |Room(f, 0xff)|);
    PowSmall();
    OnesBit(8, n % 8);
  }

  ghost predicate WritesOnlyItself(f: Field) {
    forall buf: Buf, val: nat, n: nat :: f.Fits(buf) && val < Pow2(f.len) && !(f.offs <= n < f.offs + f.len)
                          ==> BufBit(SetField(buf, f, val), n) == BufBit(buf, n)
  }

  /** Regular fields, and no others, leave every bit outside them alone. */
  lemma WritesOnlyItselfExactly(f: Field)
    ensures WritesOnlyItself(f) <==> f.Regular()
  {
    if f.Regular() {
      forall buf: Buf, val: nat, n: nat | f.Fits(buf) && val < Pow2(f.len) && !(f.offs <= n < f.offs + f.len)
        ensures BufBit(SetField(buf, f, val), n) == BufBit(buf, n)
      {
        SetInside(buf, f, val, n);
      }
    } else {
      IrregularClears(Room(f, 0xff), f);
      AfterIrregular(f);
      RoomBits(f, f.offs + f.len);
      PowGrows(0, f.len);
    }
  }

  /** Writing zero to an irregular field clears the bit after it. */
  lemma IrregularClears(buf: Buf, f: Field)
    requires f.Fits(buf) && !f.Regular()
    ensures !BufBit(SetField(buf, f, 0), f.offs + f.len)
  {
    RegularOrLonger(f);
    var n := f.offs + f.len;
    ZeroBits(n - f.offs);
    SetCovered(buf, f, 0, n);
  }

  lemma AfterIrregular(f: Field)
    requires !f.Regular()
    ensures (f.offs + f.len) / 8 < f.End()
  {
    RegularOrLonger(f);
  }

  ghost predicate MasksEverything(f: Field) {
    forall buf: Buf, val: nat, n: nat :: f.Fits(buf) && val < Pow2(32) && !(f.offs <= n < f.offs + f.len)
                          ==> BufBit(SetField(buf, f, val), n) == BufBit(buf, n)
  }

  /** Exactly the fields that end with a byte, or inside a single one, are safe against
      values that are too long. */
  lemma MasksEverythingExactly(f: Field)
    requires f.len <= 32
    ensures MasksEverything(f) <==> f.Regular() && !f.Unmasked()
  {
    RegularOrLonger(f);
    if f.Regular() && !f.Unmasked() {
      forall buf: Buf, val: nat, n: nat | f.Fits(buf) && val < Pow2(32) && !(f.offs <= n < f.offs + f.len)
        ensures BufBit(SetField(buf, f, val), n) == BufBit(buf, n)
      {
        SetSpan(buf, f, val, n);
      }
    } else if !f.Regular() {
      WritesOnlyItselfExactly(f);
      PowGrows(f.len, 32);
    } else {
      TooLongSpills(f);
    }
  }

  lemma UnmaskedShort(f: Field)
    requires f.len <= 32 && f.Regular() && f.Unmasked()
    ensures f.len < 32 && Span(f) == f.len && Beyond(f) > 0
  {
    RegularOrLonger(f);
  }

  /** The bit above the length lands in the neighbour. */
  lemma SpillsOver(f: Field, buf: Buf)
    requires f.Fits(buf) && Span(f) == f.len && Beyond(f) > 0
    ensures BufBit(SetField(buf, f, Pow2(f.len)), f.offs + f.len)
  {
    SetSpan(buf, f, Pow2(f.len), f.offs + f.len);
    PowBits(f.len, f.len);
  }

  lemma EmptyBits(f: Field, n: nat)
    ensures !BufBit(Room(f, 0), n)
  {
    BitOf(Room(f, 0), n);
    ZeroBits(n % 8);
  }

  lemma TooLongSpills(f: Field)
    requires f.len <= 32 && f.Regular() && f.Unmasked()
    ensures !MasksEverything(f)
  {
    UnmaskedShort(f);
    PowLess(f.len, 32);
    SpillsOver(f, Room(f, 0));
    EmptyBits(f, f.offs + f.len);
    NotMasked(f, Room(f, 0), Pow2(f.len), f.offs + f.len);
  }

  lemma NotMasked(f: Field, buf: Buf, val: nat, n: nat)
    requires f.Fits(buf) && val < Pow2(32) && n >= f.offs + f.len && BufBit(SetField(buf, f, val), n) && !BufBit(buf, n)
    ensures !MasksEverything(f)
  {
  }

  ghost predicate ReadsBack(f: Field) {
    forall buf: Buf, val: nat :: f.Fits(buf) && val < Pow2(f.len) ==> GetField(SetField(buf, f, val), f) == val
  }

  /** Of the fields of at most 32 bits exactly the regular ones, and those of 32 bits,
      read back every value.  (An irregular one of 32 bits still spoils eight bits.) */
  lemma ReadsBackExactly(f: Field)
    requires f.len <= 32
    ensures ReadsBack(f) <==> f.Regular() || f.len == 32
  {
    if f.Regular() {
      forall buf: Buf, val: nat | f.Fits(buf) && val < Pow2(f.len) ensures GetField(SetField(buf, f, val), f) == val {
        RoundTrip(buf, f, val);
        LowSame(val, f.len);
      }
    } else if f.len == 32 {
      forall buf: Buf, val: nat | f.Fits(buf) && val < Pow2(32) ensures GetField(SetField(buf, f, val), f) == val {
        WriteCovers(buf, f, val);
        LongReadsBack(SetField(buf, f, val), f, val);
      }
    } else {
      WriteCovers(Room(f, 0), f, Pow2(f.len) - 1);
      IrregularMisreads(SetField(Room(f, 0), f, Pow2(f.len) - 1), f, Pow2(f.len) - 1);
    }
  }

  lemma LongReadsBack(buf: Buf, f: Field, val: nat)
    requires val < Pow2(32) && f.len == 32 && !f.Regular() && Covered(buf, f, val)
    ensures GetField(buf, f) == val
  {
    forall k | 0 <= k < 32 ensures Bit(GetField(buf, f), k) == Bit(val, k) { LongerBits(buf, f, k); }
    GetSmall(buf, f);
    SameBits(GetField(buf, f), val, 32);
  }

  /** An irregular field is read past its end, and the last byte of it again. */
  lemma LongerBits(buf: Buf, f: Field, k: nat)
    requires !f.Regular() && k < 32
    ensures Span(f) == f.len + 8 && f.Pre() + 8 * f.Bytes() > f.len && f.len < f.Pre() + 8 * f.Bytes() + f.Post()
    ensures k < f.Pre() + 8 * f.Bytes() ==> Bit(GetField(buf, f), k) == BufBit(buf, f.offs + k)
    ensures k == f.Pre() + 8 * f.Bytes() ==> Bit(GetField(buf, f), k) == BufBit(buf, f.offs + k - 8)
  {
    RegularOrLonger(f);
    StartOfBytes(f);
    EndOfField(f);
    GetSpan(buf, f, k);
  }

  /** The largest value of an irregular field comes back with a bit too many. */
  lemma IrregularMisreads(buf: Buf, f: Field, val: nat)
    requires !f.Regular() && f.len < 32 && val == Pow2(f.len) - 1 && Covered(buf, f, val)
    ensures GetField(buf, f) != val
  {
    var k := f.Pre() + 8 * f.Bytes();
    LongerEnd(f);
    LongerBits(buf, f, k);
    MisreadAt(buf, f, val, GetField(buf, f), k);
  }

  lemma LongerEnd(f: Field)
    requires !f.Regular()
    ensures 8 <= f.Pre() + 8 * f.Bytes() < f.len + 8 && (f.len < 32 ==> f.Pre() + 8 * f.Bytes() < 32)
  {
    RegularOrLonger(f);
  }

  lemma MisreadAt(buf: Buf, f: Field, val: nat, out: nat, k: nat)
    requires val == Pow2(f.len) - 1 && Covered(buf, f, val) && 8 <= k && k - 8 < f.len <= k
    requires Bit(out, k) == BufBit(buf, f.offs + k - 8)
    ensures out != val
  {
    OnesBit(f.len, k - 8);
    HighZero(val, f.len, k);
  }
}
