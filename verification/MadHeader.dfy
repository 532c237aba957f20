/** mad_encode: the writes that make up a management datagram. */
module MadHeader {
  import opened Options
  import opened BitNumbers
  import opened MadFields
  import opened MadEncode

  type U32 = x: int | 0 <= x < 0x1_0000_0000
  type U64 = x: int | 0 <= x < 0x1_0000_0000_0000_0000

  const MAD_SIZE := 256
  const HOPS_MAX := 64
  const DIRECT_CLASS := 0x81
  const SA_CLASS := 0x03
  const CC_CLASS := 0x21

  /** ib_rpc_t, with the key that ib_rpc_cc_t adds. */
  class Rpc {
    const mgtClass: nat
    const methodCode: nat
    const attrId: U32
    const attrMod: U32
    const rstatus: U32
    const dataOffs: nat
    const mkey: U64
    const mask: U64
    const cckey: U64
    const oui: U32
    var trid: U64

    function Class(): nat { mgtClass % 0x100 }

    predicate IsResponse() { Bit(methodCode, 7) }

    predicate Vendor2() { 0x30 <= Class() <= 0x4f }
  }

  /** ib_dr_path_t */
  datatype DrPath = DrPath(cnt: int, p: seq<U8>, drslid: U32, drdlid: U32) {
    predicate Ok() { |p| == HOPS_MAX && drslid < 0x1_0000 && drdlid < 0x1_0000 }
  }

  /** An int passed as an uint32_t. */
  function ToU32(x: int): U32 { x % 0x1_0000_0000 }

  const METHOD := Field(0, 7)
  const RESPONSE := Field(7, 1)
  const CLASS_VERSION := Field(8, 8)
  const MGMT_CLASS := Field(16, 8)
  const BASE_VERSION := Field(24, 8)
  const STATUS := Field(48, 16)
  const HOP_CNT := Field(32, 8)
  const HOP_PTR := Field(40, 8)
  const DR_STATUS := Field(48, 15)
  const DIRECTION := Field(63, 1)
  const TRID_AT := 8
  const ATTR_ID := Field(144, 16)
  const ATTR_MOD := Field(160, 32)
  const KEY_AT := 24
  const DR_DLID := Field(256, 16)
  const DR_SLID := Field(272, 16)
  const COMP_MASK_AT := 48
  const PATH_AT := 128
  const RETURN_PATH_AT := 192
  const OUI := Field(288, 24)

  function FirstWord(rpc: Rpc): seq<Op> {
    [Bits(METHOD, rpc.methodCode), Bits(RESPONSE, if rpc.IsResponse() then 1 else 0),
     Bits(CLASS_VERSION, if rpc.Class() == SA_CLASS || rpc.Class() == CC_CLASS then 2 else 1),
     Bits(MGMT_CLASS, rpc.Class()), Bits(BASE_VERSION, 1)]
  }

  /** A directed route is needed for a directed class, and must not be too long. */
  predicate Routed(rpc: Rpc, path: Option<DrPath>) {
    rpc.Class() == DIRECT_CLASS ==> path.Some? && path.value.cnt < HOPS_MAX
  }

  function SecondWord(rpc: Rpc, path: Option<DrPath>): seq<Op>
    requires Routed(rpc, path)
  {
    if rpc.Class() == DIRECT_CLASS then
      [Bits(HOP_CNT, ToU32(path.value.cnt)), Bits(HOP_PTR, if rpc.IsResponse() then ToU32(path.value.cnt + 1) else 0),
       Bits(DR_STATUS, rpc.rstatus), Bits(DIRECTION, if rpc.IsResponse() then 1 else 0)]
    else [Bits(STATUS, rpc.rstatus)]
  }

  function MiddleWords(rpc: Rpc, trid: U64): seq<Op> {
    [Wide(TRID_AT, trid), Bits(ATTR_ID, rpc.attrId), Bits(ATTR_MOD, rpc.attrMod)]
  }

  function Lid(x: U32): U32 { if x != 0 then x else 0xffff }

  /** What the class adds after the management key. */
  function ClassPart(rpc: Rpc, path: Option<DrPath>): seq<Op>
    requires Routed(rpc, path)
  {
    if rpc.Class() == DIRECT_CLASS then
      [Bits(DR_DLID, Lid(path.value.drdlid)), Bits(DR_SLID, Lid(path.value.drslid)),
       Block(if rpc.IsResponse() then RETURN_PATH_AT else PATH_AT, path.value.p)]
    else if rpc.Class() == SA_CLASS then [Wide(COMP_MASK_AT, rpc.mask)]
    else if rpc.Class() == CC_CLASS then [Wide(KEY_AT, rpc.cckey)]
    else []
  }

  function Payload(rpc: Rpc, data: Option<seq<U8>>): seq<Op> {
    if data.Some? then [Block(rpc.dataOffs, data.value)] else []
  }

  function Vendor(rpc: Rpc): seq<Op> { if rpc.Vendor2() then [Bits(OUI, rpc.oui)] else [] }

  function Before(rpc: Rpc, trid: U64, path: Option<DrPath>): seq<Op>
    requires Routed(rpc, path)
  {
    FirstWord(rpc) + SecondWord(rpc, path) + MiddleWords(rpc, trid)
  }

  /** All the writes of a datagram, in order. */
  function Datagram(rpc: Rpc, trid: U64, path: Option<DrPath>, data: Option<seq<U8>>): seq<Op>
    requires Routed(rpc, path)
  {
    Before(rpc, trid, path) + [Wide(KEY_AT, rpc.mkey)] + ClassPart(rpc, path) + Payload(rpc, data) + Vendor(rpc)
  }

  /** What the caller must see to: room for the payload, and a whole path. */
  predicate Fit(rpc: Rpc, path: Option<DrPath>, data: Option<seq<U8>>) {
    (path.Some? ==> path.value.Ok()) && (data.Some? ==> rpc.dataOffs + |data.value| <= MAD_SIZE)
  }

  // ------------------------------------------------------------ layout

  /** A field of whole bytes. */
  lemma WholeBytes(f: Field, val: nat, b: nat, k: nat)
    requires f == Field(8 * b, 8 * k) && 0 < k <= 4 && b + k <= MAD_SIZE
    ensures Bits(f, val).Ok(MAD_SIZE)
  {
    assert f.Pre() == 0 && f.Post() == 0 && f.Bytes() == k;
  }

  lemma MethodOk(val: nat)
    ensures Bits(METHOD, val).Ok(MAD_SIZE)
  {
    assert METHOD.InByte();
  }

  lemma ResponseOk(val: nat)
    ensures Bits(RESPONSE, val).Ok(MAD_SIZE)
  {
    assert RESPONSE.Pre() == 1 && RESPONSE.Post() == 0 && RESPONSE.Bytes() == 0;
  }

  lemma FirstOk(rpc: Rpc)
    ensures AllOk(FirstWord(rpc), MAD_SIZE)
  {
    var ops := FirstWord(rpc);
    forall i | 0 <= i < |ops| ensures ops[i].Ok(MAD_SIZE) {
      if i == 0 { MethodOk(ops[0].val); }
      else if i == 1 { ResponseOk(ops[1].val); }
      else { WholeBytes(ops[i].f, ops[i].val, i - 1, 1); }
    }
  }

  lemma FirstRising(rpc: Rpc)
    ensures Rising(FirstWord(rpc), 0, 32)
  {
    var ops := FirstWord(rpc);
    assert Rising(ops[..1], 0, 7) && Rising(ops[1..2], 7, 8) && Rising(ops[2..], 8, 32);
    RisingJoin(ops[..1], ops[1..2], 0, 7, 8);
    RisingJoin(ops[..1] + ops[1..2], ops[2..], 0, 8, 32);
    assert ops == ops[..1] + ops[1..2] + ops[2..];
  }

  lemma SecondRising(rpc: Rpc, path: Option<DrPath>)
    requires Routed(rpc, path)
    ensures Rising(SecondWord(rpc, path), 32, 64)
  {
    var ops := SecondWord(rpc, path);
    if rpc.Class() == DIRECT_CLASS {
      assert Rising(ops[..2], 32, 48) && Rising(ops[2..], 48, 64);
      RisingJoin(ops[..2], ops[2..], 32, 48, 64);
      assert ops == ops[..2] + ops[2..];
    }
  }

  lemma SecondOk(rpc: Rpc, path: Option<DrPath>)
    requires Routed(rpc, path)
    ensures AllOk(SecondWord(rpc, path), MAD_SIZE)
  {
    var ops := SecondWord(rpc, path);
    forall i | 0 <= i < |ops| ensures ops[i].Ok(MAD_SIZE) {
      if rpc.Class() != DIRECT_CLASS { WholeBytes(STATUS, ops[0].val, 6, 2); }
      else if i < 2 { WholeBytes(ops[i].f, ops[i].val, 4 + i, 1); }
      else if i == 2 { DrStatusOk(ops[2].val); }
      else { DirectionOk(ops[3].val); }
    }
  }

  /** The status shares its last byte with the direction. */
  lemma DrStatusOk(val: nat)
    ensures Bits(DR_STATUS, val).Ok(MAD_SIZE)
  {
    assert DR_STATUS.Pre() == 0 && DR_STATUS.Post() == 7 && DR_STATUS.Bytes() == 1;
  }

  lemma DirectionOk(val: nat)
    ensures Bits(DIRECTION, val).Ok(MAD_SIZE)
  {
    assert DIRECTION.Pre() == 1 && DIRECTION.Post() == 0 && DIRECTION.Bytes() == 0;
  }

  lemma MiddleRising(rpc: Rpc, trid: U64)
    ensures AllOk(MiddleWords(rpc, trid), MAD_SIZE) && Rising(MiddleWords(rpc, trid), 64, 192)
  {
  }

  lemma BeforeRising(rpc: Rpc, trid: U64, path: Option<DrPath>)
    requires Routed(rpc, path)
    ensures AllOk(Before(rpc, trid, path), MAD_SIZE) && Rising(Before(rpc, trid, path), 0, 192)
  {
    FirstOk(rpc);
    FirstRising(rpc);
    SecondOk(rpc, path);
    SecondRising(rpc, path);
    MiddleRising(rpc, trid);
    RisingJoin(FirstWord(rpc), SecondWord(rpc, path), 0, 32, 64);
    RisingJoin(FirstWord(rpc) + SecondWord(rpc, path), MiddleWords(rpc, trid), 0, 64, 192);
  }

  lemma ClassOk(rpc: Rpc, path: Option<DrPath>)
    requires Routed(rpc, path) && (path.Some? ==> path.value.Ok())
    ensures AllOk(ClassPart(rpc, path), MAD_SIZE)
  {
    var ops := ClassPart(rpc, path);
    forall i | 0 <= i < |ops| ensures ops[i].Ok(MAD_SIZE) {
      if ops[i].Bits? { WholeBytes(ops[i].f, ops[i].val, 32 + 2 * i, 2); }
    }
  }

  lemma ClassRising(rpc: Rpc, path: Option<DrPath>)
    requires Routed(rpc, path) && (path.Some? ==> path.value.Ok())
    ensures Rising(ClassPart(rpc, path), if rpc.Class() == CC_CLASS then 192 else 256, 2048)
  {
    var ops := ClassPart(rpc, path);
    if rpc.Class() == DIRECT_CLASS {
      assert Rising(ops[..2], 256, 288) && Rising(ops[2..], 288, 2048);
      RisingJoin(ops[..2], ops[2..], 256, 288, 2048);
      assert ops == ops[..2] + ops[2..];
    }
  }

  lemma AllOkJoin(a: seq<Op>, b: seq<Op>, n: nat)
    requires AllOk(a, n) && AllOk(b, n)
    ensures AllOk(a + b, n)
  {
  }

  lemma VendorOk(rpc: Rpc)
    ensures AllOk(Vendor(rpc), MAD_SIZE) && Rising(Vendor(rpc), 256, 2048)
  {
    if rpc.Vendor2() { WholeBytes(OUI, rpc.oui, 36, 3); }
  }

  lemma DatagramOk(rpc: Rpc, trid: U64, path: Option<DrPath>, data: Option<seq<U8>>)
    requires Routed(rpc, path) && Fit(rpc, path, data)
    ensures AllOk(Datagram(rpc, trid, path, data), MAD_SIZE)
  {
    BeforeRising(rpc, trid, path);
    ClassOk(rpc, path);
    VendorOk(rpc);
    var ops := Before(rpc, trid, path) + [Wide(KEY_AT, rpc.mkey)];
    AllOkJoin(ops, ClassPart(rpc, path), MAD_SIZE);
    AllOkJoin(ops + ClassPart(rpc, path), Payload(rpc, data), MAD_SIZE);
    AllOkJoin(ops + ClassPart(rpc, path) + Payload(rpc, data), Vendor(rpc), MAD_SIZE);
  }

  // ------------------------------------------------------- reading it back

  /** The header, without what a later write replaces. */
  function Header(rpc: Rpc, trid: U64, path: Option<DrPath>): seq<Op>
    requires Routed(rpc, path)
  {
    Before(rpc, trid, path) + (if rpc.Class() == CC_CLASS then [] else [Wide(KEY_AT, rpc.mkey)])
      + ClassPart(rpc, path) + Vendor(rpc)
  }

  /** The writes up to the payload. */
  function Front(rpc: Rpc, trid: U64, path: Option<DrPath>): seq<Op>
    requires Routed(rpc, path)
  {
    Before(rpc, trid, path) + [Wide(KEY_AT, rpc.mkey)] + ClassPart(rpc, path)
  }

  /** The payload leaves the header alone, and the vendor's number the payload. */
  ghost predicate Clear(rpc: Rpc, trid: U64, path: Option<DrPath>, data: Option<seq<U8>>)
    requires Routed(rpc, path)
  {
    data.Some? ==>
      var block := Block(rpc.dataOffs, data.value);
      (forall op :: op in Front(rpc, trid, path) ==> Separate(op, block)) &&
      (rpc.Vendor2() ==> Separate(block, Bits(OUI, rpc.oui)))
  }

  /** The congestion control key is written over the management key; nothing else in the
      header is written twice. */
  lemma FrontInOrder(rpc: Rpc, trid: U64, path: Option<DrPath>, i: nat, j: nat)
    requires Routed(rpc, path) && (path.Some? ==> path.value.Ok())
    requires i < j < |Front(rpc, trid, path)| && !(rpc.Class() == CC_CLASS && i == |Before(rpc, trid, path)|)
    ensures var ops := Front(rpc, trid, path);
            Aligned(ops[i]) && Aligned(ops[j]) && Hi(ops[i]) <= Lo(ops[j])
  {
    var before, key, more := Before(rpc, trid, path), [Wide(KEY_AT, rpc.mkey)], ClassPart(rpc, path);
    BeforeRising(rpc, trid, path);
    ClassRising(rpc, path);
    KeyRising(rpc);
    if rpc.Class() == CC_CLASS { KeysLast(before, key[0], more[0], i, j); }
    else {
      RisingJoin(before, key, 0, 192, 256);
      RisingJoin(before + key, more, 0, 256, 2048);
    }
  }

  lemma KeyRising(rpc: Rpc)
    ensures Rising([Wide(KEY_AT, rpc.mkey)], 192, 256)
  {
  }

  lemma KeysLast(before: seq<Op>, key: Op, more: Op, i: nat, j: nat)
    requires Rising(before, 0, 192) && Rising([key], 192, 256) && Rising([more], 192, 256)
    requires i < j < |before| + 2 && i != |before|
    ensures var ops := before + [key] + [more];
            Aligned(ops[i]) && Aligned(ops[j]) && Hi(ops[i]) <= Lo(ops[j])
  {
    var ops := before + [key] + [more];
    assert ops[i] == before[i];
    assert [key][0] == key && [more][0] == more;
    if j < |before| { assert ops[j] == before[j]; }
  }

  /** A vendor's header ends before its number. */
  lemma FrontBelowVendor(rpc: Rpc, trid: U64, path: Option<DrPath>, i: nat)
    requires Routed(rpc, path) && rpc.Vendor2() && i < |Front(rpc, trid, path)|
    ensures Aligned(Front(rpc, trid, path)[i]) && Hi(Front(rpc, trid, path)[i]) <= Lo(Bits(OUI, rpc.oui))
  {
    var before := Before(rpc, trid, path);
    BeforeRising(rpc, trid, path);
    if i < |before| { assert Front(rpc, trid, path)[i] == before[i]; }
  }

  lemma LaterApart(rpc: Rpc, trid: U64, path: Option<DrPath>, data: Option<seq<U8>>, i: nat, j: nat)
    requires Routed(rpc, path) && Fit(rpc, path, data) && Clear(rpc, trid, path, data)
    requires i < j < |Datagram(rpc, trid, path, data)|
    requires !(rpc.Class() == CC_CLASS && i == |Before(rpc, trid, path)|)
    ensures Separate(Datagram(rpc, trid, path, data)[i], Datagram(rpc, trid, path, data)[j])
  {
    var ops, front := Datagram(rpc, trid, path, data), Front(rpc, trid, path);
    assert ops == front + Payload(rpc, data) + Vendor(rpc);
    if j < |front| {
      FrontInOrder(rpc, trid, path, i, j);
      InOrder(ops[i], ops[j]);
    } else if j < |front + Payload(rpc, data)| {
      assert ops[i] == front[i];
    } else if i < |front| {
      FrontBelowVendor(rpc, trid, path, i);
      InOrder(ops[i], ops[j]);
    }
  }

  /** Every header field and the payload read back from the encoded datagram. */
  lemma EncodeReadsBack(buf: Buf, rpc: Rpc, trid: U64, path: Option<DrPath>, data: Option<seq<U8>>, op: Op)
    requires |buf| == MAD_SIZE && Routed(rpc, path) && Fit(rpc, path, data) && Clear(rpc, trid, path, data)
    requires op in Header(rpc, trid, path) + Payload(rpc, data)
    ensures AllOk(Datagram(rpc, trid, path, data), MAD_SIZE) && op.Ok(MAD_SIZE)
    ensures Holds(Run(buf, Datagram(rpc, trid, path, data)), op)
  {
    var ops := Datagram(rpc, trid, path, data);
    DatagramOk(rpc, trid, path, data);
    var i := Position(rpc, trid, path, data, op);
    forall j | i < j < |ops| ensures Separate(ops[i], ops[j]) { LaterApart(rpc, trid, path, data, i, j); }
    RunHolds(buf, ops, i);
  }

  lemma Position(rpc: Rpc, trid: U64, path: Option<DrPath>, data: Option<seq<U8>>, op: Op) returns (i: nat)
    requires Routed(rpc, path) && op in Header(rpc, trid, path) + Payload(rpc, data)
    ensures i < |Datagram(rpc, trid, path, data)| && Datagram(rpc, trid, path, data)[i] == op
    ensures !(rpc.Class() == CC_CLASS && i == |Before(rpc, trid, path)|)
  {
    i := PositionIn(Before(rpc, trid, path), [Wide(KEY_AT, rpc.mkey)], ClassPart(rpc, path),
                    Payload(rpc, data), Vendor(rpc), rpc.Class() == CC_CLASS, op);
  }

  lemma PositionIn(a: seq<Op>, b: seq<Op>, c: seq<Op>, d: seq<Op>, e: seq<Op>, skip: bool, op: Op) returns (i: nat)
    requires op in a + (if skip then [] else b) + c + e + d && |b| == 1
    ensures i < |a + b + c + d + e| && (a + b + c + d + e)[i] == op && !(skip && i == |a|)
  {
    if op in a { i :| 0 <= i < |a| && a[i] == op; }
    else if op in c { var k :| 0 <= k < |c| && c[k] == op; i := |a + b| + k; }
    else if op in d { var k :| 0 <= k < |d| && d[k] == op; i := |a + b + c| + k; }
    else if op in e { var k :| 0 <= k < |e| && e[k] == op; i := |a + b + c + d| + k; }
    else { i := |a|; }
  }

  /** What the management key reads as where the class has a key of its own. */
  lemma KeyReplaced(buf: Buf, rpc: Rpc, trid: U64, path: Option<DrPath>, data: Option<seq<U8>>)
    requires |buf| == MAD_SIZE && rpc.Class() == CC_CLASS
    requires Fit(rpc, path, data) && Clear(rpc, trid, path, data)
    ensures AllOk(Datagram(rpc, trid, path, data), MAD_SIZE)
    ensures Holds(Run(buf, Datagram(rpc, trid, path, data)), Wide(KEY_AT, rpc.mkey)) <==> rpc.mkey == rpc.cckey
  {
    EncodeReadsBack(buf, rpc, trid, path, data, Wide(KEY_AT, rpc.cckey));
    PowWide();
    LowSame(rpc.mkey, 64);
    LowSame(rpc.cckey, 64);
  }

  /** Nothing else in the buffer changes. */
  lemma EncodeKeeps(buf: Buf, rpc: Rpc, trid: U64, path: Option<DrPath>, data: Option<seq<U8>>, n: nat)
    requires |buf| == MAD_SIZE && Routed(rpc, path) && Fit(rpc, path, data)
    requires forall op :: op in Datagram(rpc, trid, path, data) ==> !op.Writes(n)
    ensures AllOk(Datagram(rpc, trid, path, data), MAD_SIZE)
    ensures BufBit(Run(buf, Datagram(rpc, trid, path, data)), n) == BufBit(buf, n)
  {
    DatagramOk(rpc, trid, path, data);
    RunKeeps(buf, Datagram(rpc, trid, path, data), n);
  }

  /** The first byte after the header of each class. */
  function HeaderEnd(rpc: Rpc): nat {
    if rpc.Vendor2() then 40 else if rpc.Class() == SA_CLASS then 56 else if rpc.Class() == DIRECT_CLASS then 36 else 32
  }

  /** A payload of whole words after the header, and before a directed route. */
  predicate InPlace(rpc: Rpc, data: seq<U8>) {
    rpc.dataOffs % 4 == 0 && |data| % 4 == 0 && HeaderEnd(rpc) <= rpc.dataOffs &&
    (rpc.Class() == DIRECT_CLASS ==> rpc.dataOffs + |data| <= PATH_AT)
  }

  lemma BlockApart(op: Op, at: nat, data: seq<U8>)
    requires Aligned(op) && Aligned(Block(at, data))
    requires Hi(op) <= 8 * at || 8 * (at + |data|) <= Lo(op)
    ensures Separate(op, Block(at, data))
  {
    forall n: nat ensures !(op.Reads(n) && Block(at, data).Writes(n)) {
      AlignedRange(op, n);
      AlignedRange(Block(at, data), n);
    }
  }

  lemma VendorApart(rpc: Rpc, at: nat, data: seq<U8>)
    requires Aligned(Block(at, data)) && at >= 40
    ensures Separate(Block(at, data), Bits(OUI, rpc.oui))
  {
    assert Beyond(OUI) == 0;
    forall n: nat ensures !(Block(at, data).Reads(n) && Bits(OUI, rpc.oui).Writes(n)) {
      AlignedRange(Block(at, data), n);
    }
  }

  /** The header is clear of a payload in its usual place. */
  lemma UsualPlace(rpc: Rpc, trid: U64, path: Option<DrPath>, data: seq<U8>)
    requires Routed(rpc, path) && Fit(rpc, path, Some(data)) && InPlace(rpc, data)
    ensures Clear(rpc, trid, path, Some(data))
  {
    var front := Front(rpc, trid, path);
    forall op | op in front ensures Separate(op, Block(rpc.dataOffs, data)) {
      FrontEnds(rpc, trid, path, op);
      BlockApart(op, rpc.dataOffs, data);
    }
    if rpc.Vendor2() { VendorApart(rpc, rpc.dataOffs, data); }
  }

  lemma FrontEnds(rpc: Rpc, trid: U64, path: Option<DrPath>, op: Op)
    requires Routed(rpc, path) && (path.Some? ==> path.value.Ok()) && op in Front(rpc, trid, path)
    ensures Aligned(op)
    ensures Hi(op) <= 8 * HeaderEnd(rpc) || (rpc.Class() == DIRECT_CLASS && Lo(op) >= 8 * PATH_AT)
  {
    BeforeRising(rpc, trid, path);
    var before, more := Before(rpc, trid, path), ClassPart(rpc, path);
    if op in before { var i :| 0 <= i < |before| && before[i] == op; }
    else if op in more {
      ClassRising(rpc, path);
      var i :| 0 <= i < |more| && more[i] == op;
    }
  }

  // ---------------------------------------------------- the datagram, by field

  function Encoded(buf: Buf, rpc: Rpc, trid: U64, path: Option<DrPath>, data: Option<seq<U8>>): (r: Buf)
    requires |buf| == MAD_SIZE && Routed(rpc, path) && Fit(rpc, path, data)
    ensures |r| == MAD_SIZE
  {
    DatagramOk(rpc, trid, path, data);
    Run(buf, Datagram(rpc, trid, path, data))
  }

  ghost predicate Sound(buf: Buf, rpc: Rpc, trid: U64, path: Option<DrPath>, data: Option<seq<U8>>) {
    |buf| == MAD_SIZE && Routed(rpc, path) && Fit(rpc, path, data) && Clear(rpc, trid, path, data)
  }

  lemma FieldReads(buf: Buf, rpc: Rpc, trid: U64, path: Option<DrPath>, data: Option<seq<U8>>, f: Field, val: nat)
    requires Sound(buf, rpc, trid, path, data)
    requires Bits(f, val) in Before(rpc, trid, path)
             || Bits(f, val) in ClassPart(rpc, path) || Bits(f, val) in Vendor(rpc)
    ensures GetField(Encoded(buf, rpc, trid, path, data), f) == Low(val, f.len)
  {
    assert Bits(f, val) in Header(rpc, trid, path) + Payload(rpc, data);
    EncodeReadsBack(buf, rpc, trid, path, data, Bits(f, val));
  }

  lemma WideReads(buf: Buf, rpc: Rpc, trid: U64, path: Option<DrPath>, data: Option<seq<U8>>, at: nat, val: U64)
    requires Sound(buf, rpc, trid, path, data) && at + 8 <= MAD_SIZE && Wide(at, val) in Header(rpc, trid, path)
    ensures GetBe(Encoded(buf, rpc, trid, path, data), at, 8) == val
  {
    assert Wide(at, val) in Header(rpc, trid, path) + Payload(rpc, data);
    EncodeReadsBack(buf, rpc, trid, path, data, Wide(at, val));
    PowWide();
    LowSame(val, 64);
  }

  function Flag(b: bool): nat { if b then 1 else 0 }

  lemma OneBit(val: nat, n: nat, flag: nat)
    requires flag == Flag(Bit(val, n))
    ensures Low(High(val, n), 1) == Low(flag, 1)
  {
    BitHigh(val, n, 0);
  }

  /** A flag that repeats bit `n` of a value, next to the bits below it. */
  lemma FlagReads(out: Buf, f: Field, g: Field, h: Field, val: nat, flag: nat)
    requires f.Regular() && g.Regular() && h.Regular() && h == Field(f.offs, f.len + 1)
    requires g == Field(f.offs + f.len, 1) && f.len < 32
    requires flag == Flag(Bit(val, f.len))
    requires GetField(out, f) == Low(val, f.len) && GetField(out, g) == Low(flag, 1)
    ensures GetField(out, h) == Low(val, h.len)
  {
    OneBit(val, f.len, flag);
    Adjacent(out, f, g, val);
  }

  lemma FlagEncoded(buf: Buf, rpc: Rpc, trid: U64, path: Option<DrPath>, data: Option<seq<U8>>,
                    f: Field, g: Field, h: Field, val: nat, flag: nat)
    requires Sound(buf, rpc, trid, path, data)
    requires Bits(f, val) in FirstWord(rpc) && Bits(g, flag) in FirstWord(rpc) && flag == Flag(Bit(val, f.len))
    requires f.Regular() && g.Regular() && h.Regular() && h == Field(f.offs, f.len + 1)
    requires g == Field(f.offs + f.len, 1) && f.len < 32
    ensures GetField(Encoded(buf, rpc, trid, path, data), h) == Low(val, h.len)
  {
    FieldReads(buf, rpc, trid, path, data, f, val);
    FieldReads(buf, rpc, trid, path, data, g, flag);
    FlagReads(Encoded(buf, rpc, trid, path, data), f, g, h, val, flag);
  }

  lemma MethodWrites(rpc: Rpc)
    ensures Bits(METHOD, rpc.methodCode) in FirstWord(rpc)
    ensures Bits(RESPONSE, Flag(Bit(rpc.methodCode, METHOD.len))) in FirstWord(rpc)
  {
    var ops := FirstWord(rpc);
    assert ops[0] == Bits(METHOD, rpc.methodCode) && ops[1] == Bits(RESPONSE, Flag(rpc.IsResponse()));
  }

  /** Bits 0 to 6 and bit 7 are written apart, and together give the method back. */
  lemma MethodReads(buf: Buf, rpc: Rpc, trid: U64, path: Option<DrPath>, data: Option<seq<U8>>)
    requires Sound(buf, rpc, trid, path, data)
    ensures GetField(Encoded(buf, rpc, trid, path, data), Field(0, 8)) == Low(rpc.methodCode, 8)
  {
    MethodWrites(rpc);
    MethodOk(0);
    ResponseOk(0);
    WholeBytes(Field(0, 8), 0, 0, 1);
    FlagEncoded(buf, rpc, trid, path, data, METHOD, RESPONSE, Field(0, 8), rpc.methodCode,
                Flag(Bit(rpc.methodCode, METHOD.len)));
  }

  /** The common header, as any class reads it. */
  lemma CommonReads(buf: Buf, rpc: Rpc, trid: U64, path: Option<DrPath>, data: Option<seq<U8>>)
    requires Sound(buf, rpc, trid, path, data)
    ensures var out := Encoded(buf, rpc, trid, path, data);
            GetField(out, MGMT_CLASS) == Low(rpc.Class(), 8) && GetField(out, BASE_VERSION) == Low(1, 8)
            && GetField(out, CLASS_VERSION) == Low(if rpc.Class() in {SA_CLASS, CC_CLASS} then 2 else 1, 8)
  {
    var ops := FirstWord(rpc);
    assert Bits(ops[2].f, ops[2].val) == ops[2] && Bits(ops[3].f, ops[3].val) == ops[3];
    assert Bits(ops[4].f, ops[4].val) == ops[4];
    FieldReads(buf, rpc, trid, path, data, CLASS_VERSION, ops[2].val);
    FieldReads(buf, rpc, trid, path, data, MGMT_CLASS, rpc.Class());
    FieldReads(buf, rpc, trid, path, data, BASE_VERSION, 1);
  }

  lemma MiddleReads(buf: Buf, rpc: Rpc, trid: U64, path: Option<DrPath>, data: Option<seq<U8>>)
    requires Sound(buf, rpc, trid, path, data)
    ensures var out := Encoded(buf, rpc, trid, path, data);
            GetBe(out, TRID_AT, 8) == trid
            && GetBe(out, KEY_AT, 8) == (if rpc.Class() == CC_CLASS then rpc.cckey else rpc.mkey)
            && GetField(out, ATTR_ID) == Low(rpc.attrId, 16) && GetField(out, ATTR_MOD) == Low(rpc.attrMod, 32)
  {
    var ops := MiddleWords(rpc, trid);
    assert ops[0] == Wide(TRID_AT, trid);
    assert ops[1] == Bits(ATTR_ID, rpc.attrId) && ops[2] == Bits(ATTR_MOD, rpc.attrMod);
    WideReads(buf, rpc, trid, path, data, TRID_AT, trid);
    FieldReads(buf, rpc, trid, path, data, ATTR_ID, rpc.attrId);
    FieldReads(buf, rpc, trid, path, data, ATTR_MOD, rpc.attrMod);
    if rpc.Class() == CC_CLASS {
      assert ClassPart(rpc, path)[0] == Wide(KEY_AT, rpc.cckey);
      WideReads(buf, rpc, trid, path, data, KEY_AT, rpc.cckey);
    } else {
      WideReads(buf, rpc, trid, path, data, KEY_AT, rpc.mkey);
    }
  }

  /** A directed route: the hop counts, and the direction whatever the status. */
  lemma RouteReads(buf: Buf, rpc: Rpc, trid: U64, path: Option<DrPath>, data: Option<seq<U8>>)
    requires Sound(buf, rpc, trid, path, data) && rpc.Class() == DIRECT_CLASS
    ensures var out := Encoded(buf, rpc, trid, path, data);
            GetField(out, HOP_CNT) == Low(ToU32(path.value.cnt), 8)
            && GetField(out, HOP_PTR) == Low(if rpc.IsResponse() then ToU32(path.value.cnt + 1) else 0, 8)
            && GetField(out, DR_STATUS) == Low(rpc.rstatus, 15)
            && GetField(out, DIRECTION) == Low(Flag(rpc.IsResponse()), 1)
  {
    var ops := SecondWord(rpc, path);
    assert ops[0] == Bits(HOP_CNT, ToU32(path.value.cnt)) && ops[2] == Bits(DR_STATUS, rpc.rstatus);
    assert ops[1] == Bits(HOP_PTR, ops[1].val) && ops[3] == Bits(DIRECTION, Flag(rpc.IsResponse()));
    FieldReads(buf, rpc, trid, path, data, HOP_CNT, ToU32(path.value.cnt));
    FieldReads(buf, rpc, trid, path, data, HOP_PTR, ops[1].val);
    FieldReads(buf, rpc, trid, path, data, DR_STATUS, rpc.rstatus);
    FieldReads(buf, rpc, trid, path, data, DIRECTION, Flag(rpc.IsResponse()));
  }

  lemma PathReads(buf: Buf, rpc: Rpc, trid: U64, path: Option<DrPath>, data: Option<seq<U8>>)
    requires Sound(buf, rpc, trid, path, data) && rpc.Class() == DIRECT_CLASS
    ensures var out := Encoded(buf, rpc, trid, path, data);
            var at := if rpc.IsResponse() then RETURN_PATH_AT else PATH_AT;
            out[at..at + HOPS_MAX] == path.value.p
            && GetField(out, DR_DLID) == Low(Lid(path.value.drdlid), 16)
            && GetField(out, DR_SLID) == Low(Lid(path.value.drslid), 16)
  {
    var ops := ClassPart(rpc, path);
    assert ops[0] == Bits(DR_DLID, Lid(path.value.drdlid)) && ops[1] == Bits(DR_SLID, Lid(path.value.drslid));
    FieldReads(buf, rpc, trid, path, data, DR_DLID, Lid(path.value.drdlid));
    FieldReads(buf, rpc, trid, path, data, DR_SLID, Lid(path.value.drslid));
    assert ops[2] in Header(rpc, trid, path) + Payload(rpc, data);
    EncodeReadsBack(buf, rpc, trid, path, data, ops[2]);
  }

  /** The other classes, and the payload. */
  lemma RestReads(buf: Buf, rpc: Rpc, trid: U64, path: Option<DrPath>, data: Option<seq<U8>>)
    requires Sound(buf, rpc, trid, path, data)
    ensures var out := Encoded(buf, rpc, trid, path, data);
            (rpc.Class() != DIRECT_CLASS ==> GetField(out, STATUS) == Low(rpc.rstatus, 16))
            && (rpc.Class() == SA_CLASS ==> GetBe(out, COMP_MASK_AT, 8) == rpc.mask)
            && (rpc.Vendor2() ==> GetField(out, OUI) == Low(rpc.oui, 24))
            && (data.Some? ==> out[rpc.dataOffs..rpc.dataOffs + |data.value|] == data.value)
  {
    if rpc.Class() != DIRECT_CLASS {
      assert SecondWord(rpc, path)[0] == Bits(STATUS, rpc.rstatus);
      FieldReads(buf, rpc, trid, path, data, STATUS, rpc.rstatus);
    }
    if rpc.Class() == SA_CLASS {
      assert ClassPart(rpc, path)[0] == Wide(COMP_MASK_AT, rpc.mask);
      WideReads(buf, rpc, trid, path, data, COMP_MASK_AT, rpc.mask);
    }
    if rpc.Vendor2() {
      assert Vendor(rpc)[0] == Bits(OUI, rpc.oui);
      FieldReads(buf, rpc, trid, path, data, OUI, rpc.oui);
    }
    if data.Some? {
      assert Payload(rpc, data)[0] in Header(rpc, trid, path) + Payload(rpc, data);
      EncodeReadsBack(buf, rpc, trid, path, data, Payload(rpc, data)[0]);
    }
  }
}
