/** The bytes that mad_encode leaves alone, and what it leaves behind when it refuses. */
module MadFrame {
  import opened BigEndian
  import opened Options
  import opened BitNumbers
  import opened MadFields
  import opened MadEncode
  import opened MadHeader
  import opened MadLayout

  // ---------------------------------------------------------- bytes left alone

  ghost predicate Leaves(op: Op, n: nat) { forall m: nat | m / 8 == Swap(n) :: !op.Writes(m) }

  lemma RunBit(buf: Buf, ops: seq<Op>, m: nat, c: nat)
    requires AllOk(ops, |buf|) && c < 8 && forall op :: op in ops ==> !op.Writes(8 * m + c)
    ensures Bit(Byte(Run(buf, ops), m), c) == Bit(Byte(buf, m), c)
  {
    RunKeeps(buf, ops, 8 * m + c);
    BitAt(buf, m, c);
    BitAt(Run(buf, ops), m, c);
  }

  lemma RunByte(buf: Buf, ops: seq<Op>, n: nat)
    requires AllOk(ops, |buf|) && |buf| % 4 == 0 && n < |buf| && forall op :: op in ops ==> Leaves(op, n)
    ensures Run(buf, ops)[n] == buf[n]
  {
    var m := Swap(n);
    forall c | 0 <= c < 8 ensures Bit(Byte(Run(buf, ops), m), c) == Bit(Byte(buf, m), c) {
      assert (8 * m + c) / 8 == m;
      RunBit(buf, ops, m, c);
    }
    SwapTwice(n);
    PowSmall();
    SameBits(Byte(Run(buf, ops), m), Byte(buf, m), 8);
  }

  /** A field leaves the bytes before and after it alone, however long the value. */
  lemma FieldLeaves(f: Field, val: nat, n: nat, lo: nat, hi: nat)
    requires 8 * lo <= f.offs && f.offs + f.len <= 8 * hi && !(lo <= Swap(n) < hi)
    ensures Leaves(Bits(f, val), n)
  {
    assert f.offs + f.len + Beyond(f) <= 8 * hi;
  }

  lemma CopyLeaves(op: Op, n: nat)
    requires !op.Bits? && !(op.at <= n < op.at + op.Size())
    ensures Leaves(op, n)
  {
    SwapTwice(n);
  }

  lemma FirstLeaves(rpc: Rpc, n: nat, op: Op)
    requires n >= 4 && op in FirstWord(rpc)
    ensures Leaves(op, n)
  {
    FieldLeaves(op.f, op.val, n, 0, 4);
  }

  lemma SecondLeaves(rpc: Rpc, path: Option<DrPath>, n: nat, op: Op)
    requires Routed(rpc, path) && n >= 8 && op in SecondWord(rpc, path)
    ensures Leaves(op, n)
  {
    FieldLeaves(op.f, op.val, n, 4, 8);
  }

  lemma MiddleLeaves(rpc: Rpc, trid: U64, n: nat, op: Op)
    requires n >= 18 && !(20 <= n < 24) && op in MiddleWords(rpc, trid)
    ensures Leaves(op, n)
  {
    if op.Wide? { CopyLeaves(op, n); }
    else if op.f == ATTR_ID { FieldLeaves(op.f, op.val, n, 18, 20); }
    else { FieldLeaves(op.f, op.val, n, 20, 24); }
  }

  /** The bytes that a class adds. */
  predicate ClassTouches(rpc: Rpc, n: nat) {
    var c := rpc.mgtClass % 0x100;
    || (c == 0x81 && (32 <= n < 36 || (if Response(rpc) then 192 <= n < 256 else 128 <= n < 192)))
    || (c == 0x03 && 48 <= n < 56)
    || (c == 0x21 && 24 <= n < 32)
  }

  lemma ClassLeaves(rpc: Rpc, path: Option<DrPath>, n: nat, op: Op)
    requires Routed(rpc, path) && (path.Some? ==> path.value.Ok()) && op in ClassPart(rpc, path)
    requires !ClassTouches(rpc, n)
    ensures Leaves(op, n)
  {
    BitSeven(rpc.methodCode);
    if op.Bits? { FieldLeaves(op.f, op.val, n, 32, 36); } else { CopyLeaves(op, n); }
  }

  lemma VendorLeaves(rpc: Rpc, n: nat, op: Op)
    requires op in Vendor(rpc) && !(37 <= n < 40)
    ensures Leaves(op, n)
  {
    FieldLeaves(op.f, op.val, n, 36, 39);
  }

  /** Byte `n` is neither in the header of its class nor in the payload. */
  predicate Spare(rpc: Rpc, data: Option<seq<U8>>, n: nat) {
    && 18 <= n && !(20 <= n < 32) && !ClassTouches(rpc, n)
    && (0x30 <= rpc.mgtClass % 0x100 <= 0x4f ==> !(37 <= n < 40))
    && (data.Some? ==> !(rpc.dataOffs <= n < rpc.dataOffs + |data.value|))
  }

  ghost predicate SparesKept(was: Buf, out: Buf, rpc: Rpc, data: Option<seq<U8>>) {
    |out| == |was| && forall n :: 0 <= n < |was| && Spare(rpc, data, n) ==> out[n] == was[n]
  }

  lemma DatagramLeaves(rpc: Rpc, trid: U64, path: Option<DrPath>, data: Option<seq<U8>>, n: nat, op: Op)
    requires Routed(rpc, path) && Fit(rpc, path, data) && Spare(rpc, data, n) && op in Datagram(rpc, trid, path, data)
    ensures Leaves(op, n)
  {
    if op in FirstWord(rpc) { FirstLeaves(rpc, n, op); }
    else if op in SecondWord(rpc, path) { SecondLeaves(rpc, path, n, op); }
    else if op in MiddleWords(rpc, trid) { MiddleLeaves(rpc, trid, n, op); }
    else if op in ClassPart(rpc, path) { ClassLeaves(rpc, path, n, op); }
    else if op in Vendor(rpc) { VendorLeaves(rpc, n, op); }
    else { CopyLeaves(op, n); }
  }

  /** Every other byte of the buffer stays as it was. */
  lemma EncodedSpares(buf: Buf, rpc: Rpc, trid: U64, path: Option<DrPath>, data: Option<seq<U8>>)
    requires |buf| == MAD_SIZE && Routed(rpc, path) && Fit(rpc, path, data)
    ensures SparesKept(buf, Encoded(buf, rpc, trid, path, data), rpc, data)
  {
    DatagramOk(rpc, trid, path, data);
    forall n | 0 <= n < 256 && Spare(rpc, data, n) ensures Encoded(buf, rpc, trid, path, data)[n] == buf[n] {
      forall op | op in Datagram(rpc, trid, path, data) ensures Leaves(op, n) {
        DatagramLeaves(rpc, trid, path, data, n, op);
      }
      RunByte(buf, Datagram(rpc, trid, path, data), n);
    }
  }

  // ------------------------------------------------------------------ refused

  /** Writes that rise through the first word. */
  predicate Starts(ops: seq<Op>) { AllOk(ops, 256) && Rising(ops, 0, 32) }

  lemma StartReads(buf: Buf, ops: seq<Op>, f: Field, val: nat)
    requires |buf| == 256 && Starts(ops) && Bits(f, val) in ops
    ensures GetField(Run(buf, ops), f) == Low(val, f.len)
  {
    var i :| 0 <= i < |ops| && ops[i] == Bits(f, val);
    forall j | i < j < |ops| ensures Separate(ops[i], ops[j]) { InOrder(ops[i], ops[j]); }
    RunHolds(buf, ops, i);
  }

  lemma StartWritten(buf: Buf, ops: seq<Op>)
    requires |buf| == 256 && Starts(ops)
    ensures FirstWritten(Run(buf, ops), ops)
  {
    forall f, val: nat | Bits(f, val) in ops ensures Reads(Run(buf, ops), f, val) { StartReads(buf, ops, f, val); }
    ReadIsWritten(Run(buf, ops), ops);
  }

  lemma StartFlag(buf: Buf, ops: seq<Op>, f: Field, g: Field, h: Field, val: nat, flag: nat)
    requires |buf| == 256 && Starts(ops) && Bits(f, val) in ops && Bits(g, flag) in ops
    requires f.Regular() && g.Regular() && h.Regular() && h == Field(f.offs, f.len + 1)
    requires g == Field(f.offs + f.len, 1) && f.len < 32 && flag == Flag(Bit(val, f.len))
    ensures GetField(Run(buf, ops), h) == Low(val, h.len)
  {
    StartReads(buf, ops, f, val);
    StartReads(buf, ops, g, flag);
    FlagReads(Run(buf, ops), f, g, h, val, flag);
  }

  lemma StartTogether(buf: Buf, ops: seq<Op>, f: Field, g: Field, h: Field, n: nat, val: nat, flag: nat)
    requires |buf| == 256 && Starts(ops) && Bits(f, val) in ops && Bits(g, flag) in ops
    requires f.Regular() && g.Regular() && h.Regular() && f.offs == 0 && h == Field(0, f.len + 1)
    requires f.len + 1 == 8 * n && n <= 4 && g == Field(f.len, 1) && flag == Flag(Bit(val, f.len))
    ensures Run(buf, ops)[4 - n..4] == Be(val, n)
  {
    StartFlag(buf, ops, f, g, h, val, flag);
    WordLaid(Run(buf, ops), h, 0, 0, n, val);
  }

  lemma RefusedMethod(buf: Buf, rpc: Rpc, ops: seq<Op>)
    requires |buf| == 256 && Starts(ops) && ops == FirstWord(rpc)
    ensures Run(buf, ops)[3] == rpc.methodCode % 0x100
  {
    MethodWrites(rpc);
    MethodOk(0);
    ResponseOk(0);
    WholeBytes(Field(0, 8), 0, 0, 1);
    StartTogether(buf, ops, METHOD, RESPONSE, Field(0, 8), 1, rpc.methodCode, Flag(Bit(rpc.methodCode, METHOD.len)));
    SmallBe(Run(buf, ops), 3, rpc.methodCode);
  }

  lemma RefusedRest(buf: Buf, rpc: Rpc, ops: seq<Op>, n: nat)
    requires |buf| == 256 && Starts(ops) && ops == FirstWord(rpc) && 4 <= n < 256
    ensures Run(buf, ops)[n] == buf[n]
  {
    forall op | op in ops ensures Leaves(op, n) { FirstLeaves(rpc, n, op); }
    RunByte(buf, ops, n);
  }

  /** All but the first four bytes are as they were. */
  predicate RestKept(was: Buf, out: Buf) { |out| == |was| && forall n :: 4 <= n < |was| ==> out[n] == was[n] }

  /** A refused datagram has its first four bytes, and nothing else is written. */
  lemma RefusedLaid(buf: Buf, rpc: Rpc, ops: seq<Op>)
    requires |buf| == 256 && ops == FirstWord(rpc) && AllOk(ops, 256)
    ensures FirstBytes(Run(buf, ops), rpc) && RestKept(buf, Run(buf, ops))
  {
    FirstRising(rpc);
    StartWritten(buf, ops);
    RefusedMethod(buf, rpc, ops);
    FirstLaid(Run(buf, ops), rpc);
    forall n | 4 <= n < 256 ensures Run(buf, ops)[n] == buf[n] { RefusedRest(buf, rpc, ops, n); }
  }
}
