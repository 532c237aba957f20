/** The datagram that mad_encode makes, byte by byte.  Offsets, class numbers and values are
    written out here and not taken from the writes. */
module MadLayout {
  import opened BigEndian
  import opened Options
  import opened BitNumbers
  import opened MadFields
  import opened MadEncode
  import opened MadHeader

  // --------------------------------------------------------- bytes of a field

  lemma {:induction false} HighByte(x: nat, i: nat)
    ensures Low(High(x, 8 * i), 8) == ByteAt(x, i)
  {
    ByteOf(x);
    if i > 0 {
      HighHigh(x, 8, 8 * (i - 1));
      HighByte(x / 0x100, i - 1);
    }
  }

  /** A field of whole bytes lies in the buffer byte by byte, turned round in its word. */
  lemma FieldByte(out: Buf, b: nat, n: nat, val: nat, i: nat)
    requires |out| % 4 == 0 && 0 < n <= 4 && b + n <= |out| && i < n
    requires GetField(out, Field(8 * b, 8 * n)) == Low(val, 8 * n)
    ensures Swap(b + i) < |out| && out[Swap(b + i)] == ByteAt(val, i)
  {
    SwapInside(b + i, |out|);
    var x := out[Swap(b + i)];
    forall c | 0 <= c < 8 ensures Bit(x, c) == Bit(Low(High(val, 8 * i), 8), c) { FieldBit(out, b, n, val, i, c); }
    PowSmall();
    LowSmall(High(val, 8 * i), 8);
    SameBits(x, Low(High(val, 8 * i), 8), 8);
    HighByte(val, i);
  }

  lemma FieldBit(out: Buf, b: nat, n: nat, val: nat, i: nat, c: nat)
    requires |out| % 4 == 0 && 0 < n <= 4 && b + n <= |out| && i < n && c < 8
    requires GetField(out, Field(8 * b, 8 * n)) == Low(val, 8 * n)
    ensures Bit(Byte(out, b + i), c) == Bit(Low(High(val, 8 * i), 8), c)
  {
    var f, k := Field(8 * b, 8 * n), 8 * i + c;
    WholeField(b, n);
    GetBits(out, f, k);
    BitAt(out, b + i, c);
    assert 8 * b + k == 8 * (b + i) + c;
    BitLow(val, 8 * n, k);
    BitLow(High(val, 8 * i), 8, c);
    BitHigh(val, 8 * i, c);
  }

  lemma WholeField(b: nat, n: nat)
    ensures Field(8 * b, 8 * n).Regular()
  {
    RegularOrLonger(Field(8 * b, 8 * n));
  }

  /** The field `f` holds `val`, cut to its length. */
  predicate Reads(out: Buf, f: Field, val: nat) { GetField(out, f) == Low(val, f.len) }

  lemma SwapIn(w: nat, c: nat)
    requires c < 4
    ensures Swap(4 * w + c) == 4 * w + 3 - c
  {
  }

  /** A field of whole bytes inside a word has its highest byte first. */
  lemma WordLaid(out: Buf, f: Field, w: nat, c: nat, n: nat, val: nat)
    requires |out| == 256 && w < 64 && 0 < n && c + n <= 4
    requires f == Field(8 * (4 * w + c), 8 * n) && Reads(out, f, val)
    ensures var at := 4 * w + 4 - c - n; out[at..at + n] == Be(val, n)
  {
    var at := 4 * w + 4 - c - n;
    forall j | 0 <= j < n ensures out[at + j] == Be(val, n)[j] { WordByte(out, f, w, c, n, val, n - 1 - j); }
  }

  lemma WordByte(out: Buf, f: Field, w: nat, c: nat, n: nat, val: nat, i: nat)
    requires |out| == 256 && w < 64 && 0 < n && c + n <= 4 && i < n
    requires f == Field(8 * (4 * w + c), 8 * n) && Reads(out, f, val)
    ensures out[4 * w + 3 - c - i] == Be(val, n)[n - 1 - i]
  {
    FieldByte(out, 4 * w + c, n, val, i);
    BeByte(val, n, i);
    SwapIn(w, c + i);
    assert 4 * w + c + i == 4 * w + (c + i);
  }

  lemma EightBytes(out: Buf, at: nat, val: U64)
    requires at + 8 <= |out| && GetBe(out, at, 8) == val
    ensures out[at..at + 8] == Be(val, 8)
  {
    FromBeRoundTrip(out[at..at + 8]);
  }

  // ------------------------------------------------------------------ layout

  /** Bytes 0 to 3: base version, class, class version, method. */
  predicate FirstBytes(out: Buf, rpc: Rpc)
    requires |out| == 256
  {
    && out[0] == 1 && out[1] == rpc.mgtClass % 0x100 && out[3] == rpc.methodCode % 0x100
    && out[2] == if rpc.mgtClass % 0x100 in {0x03, 0x21} then 2 else 1
  }

  /** The response bit of the method. */
  predicate Response(rpc: Rpc) { rpc.methodCode / 0x80 % 2 == 1 }

  /** Bytes 8 to 31: transaction number, attribute, modifier and key. */
  predicate MiddleBytes(out: Buf, rpc: Rpc, trid: U64)
    requires |out| == 256
  {
    && out[8..16] == Be(trid, 8)
    && out[16..18] == Be(rpc.attrId, 2) && out[20..24] == Be(rpc.attrMod, 4)
    && out[24..32] == Be(if rpc.mgtClass % 0x100 == 0x21 then rpc.cckey else rpc.mkey, 8)
  }

  /** A directed route: direction and status in bytes 4 and 5, hops in bytes 6 and 7. */
  predicate RouteBytes(out: Buf, rpc: Rpc, path: DrPath)
    requires |out| == 256
  {
    && out[4] == rpc.rstatus / 0x100 % 0x80 + (if Response(rpc) then 0x80 else 0) && out[5] == rpc.rstatus % 0x100
    && out[6] == (if Response(rpc) then (path.cnt + 1) % 0x100 else 0) && out[7] == path.cnt % 0x100
  }

  /** The two addresses in bytes 32 to 35, all ones where there is none, and the path. */
  predicate PathBytes(out: Buf, rpc: Rpc, path: DrPath)
    requires |out| == 256
  {
    && out[32..34] == (if path.drslid == 0 then [0xff, 0xff] else Be(path.drslid, 2))
    && out[34..36] == (if path.drdlid == 0 then [0xff, 0xff] else Be(path.drdlid, 2))
    && (if Response(rpc) then out[192..256] == path.p else out[128..192] == path.p)
  }

  /** The other classes: status, component mask and vendor number. */
  predicate ClassBytes(out: Buf, rpc: Rpc)
    requires |out| == 256
  {
    var c := rpc.mgtClass % 0x100;
    && (c != 0x81 ==> out[4..6] == Be(rpc.rstatus, 2))
    && (c == 0x03 ==> out[48..56] == Be(rpc.mask, 8))
    && (0x30 <= c <= 0x4f ==> out[37..40] == Be(rpc.oui, 3))
  }

  // ------------------------------------------------------------ it is so laid

  lemma SevenBits(x: nat)
    ensures Low(x, 7) == x % 0x80 && High(x, 7) == x / 0x80
  {
    Parts(x, 7);
    LowSmall(x, 7);
    assert Pow2(7) == 0x80;
  }

  lemma BitSeven(x: nat)
    ensures Bit(x, 7) <==> x / 0x80 % 2 == 1
  {
    SevenBits(x);
    BitHigh(x, 7, 0);
  }

  lemma EncodedWord(buf: Buf, rpc: Rpc, trid: U64, path: Option<DrPath>, data: Option<seq<U8>>,
                    f: Field, w: nat, c: nat, n: nat, val: nat)
    requires Sound(buf, rpc, trid, path, data)
    requires Bits(f, val) in Before(rpc, trid, path) || Bits(f, val) in ClassPart(rpc, path)
    requires w < 64 && 0 < n && c + n <= 4 && f == Field(8 * (4 * w + c), 8 * n)
    ensures var at := 4 * w + 4 - c - n; Encoded(buf, rpc, trid, path, data)[at..at + n] == Be(val, n)
  {
    FieldReads(buf, rpc, trid, path, data, f, val);
    WordLaid(Encoded(buf, rpc, trid, path, data), f, w, c, n, val);
  }

  lemma SmallBe(out: Buf, at: nat, val: nat)
    requires at + 1 <= |out| && out[at..at + 1] == Be(val, 1)
    ensures out[at] == val % 0x100
  {
    assert out[at] == out[at..at + 1][0] == Be(val, 1)[0];
  }

  /** A byte-wide field, once it is written. */
  lemma EncodedByte(buf: Buf, rpc: Rpc, trid: U64, path: Option<DrPath>, data: Option<seq<U8>>,
                    f: Field, w: nat, c: nat, val: nat)
    requires Sound(buf, rpc, trid, path, data) && Bits(f, val) in Before(rpc, trid, path)
    requires w < 64 && c < 4 && f == Field(8 * (4 * w + c), 8)
    ensures Encoded(buf, rpc, trid, path, data)[4 * w + 3 - c] == val % 0x100
  {
    EncodedWord(buf, rpc, trid, path, data, f, w, c, 1, val);
    SmallBe(Encoded(buf, rpc, trid, path, data), 4 * w + 3 - c, val);
  }

  lemma MethodByte(buf: Buf, rpc: Rpc, trid: U64, path: Option<DrPath>, data: Option<seq<U8>>)
    requires Sound(buf, rpc, trid, path, data)
    ensures Encoded(buf, rpc, trid, path, data)[3] == rpc.methodCode % 0x100
  {
    MethodReads(buf, rpc, trid, path, data);
    WordLaid(Encoded(buf, rpc, trid, path, data), Field(0, 8), 0, 0, 1, rpc.methodCode);
    SmallBe(Encoded(buf, rpc, trid, path, data), 3, rpc.methodCode);
  }

  predicate IsWhole(f: Field) { f.offs % 8 == 0 && f.len % 8 == 0 && f.len > 0 }

  /** The value of a field of whole bytes is in place in the first word. */
  predicate WrittenAt(out: Buf, f: Field, val: nat)
    requires |out| == 256
  {
    var c, n := f.offs / 8, f.len / 8;
    c + n <= 4 && out[4 - c - n..4 - c] == Be(val, n)
  }

  /** All of them among the writes of the first word are. */
  ghost predicate FirstWritten(out: Buf, ops: seq<Op>)
    requires |out| == 256
  {
    forall f, val: nat :: Bits(f, val) in ops && IsWhole(f) ==> WrittenAt(out, f, val)
  }

  lemma WrittenByte(out: Buf, ops: seq<Op>, f: Field, c: nat, val: nat)
    requires |out| == 256 && FirstWritten(out, ops) && Bits(f, val) in ops && c < 4 && f == Field(8 * c, 8)
    ensures out[3 - c] == val % 0x100
  {
    SmallBe(out, 3 - c, val);
  }

  lemma FirstLaid(out: Buf, rpc: Rpc)
    requires |out| == 256 && FirstWritten(out, FirstWord(rpc)) && out[3] == rpc.methodCode % 0x100
    ensures FirstBytes(out, rpc)
  {
    var ops := FirstWord(rpc);
    assert ops[2] == Bits(CLASS_VERSION, ops[2].val) && ops[3] == Bits(MGMT_CLASS, rpc.Class());
    assert ops[4] == Bits(BASE_VERSION, 1);
    WrittenByte(out, ops, CLASS_VERSION, 1, ops[2].val);
    WrittenByte(out, ops, MGMT_CLASS, 2, rpc.Class());
    WrittenByte(out, ops, BASE_VERSION, 3, 1);
  }

  ghost predicate AllRead(out: Buf, ops: seq<Op>) {
    forall f, val: nat :: Bits(f, val) in ops ==> Reads(out, f, val)
  }

  lemma ReadAt(out: Buf, f: Field, c: nat, n: nat, val: nat)
    requires |out| == 256 && f == Field(8 * c, 8 * n) && 0 < n && c + n <= 4 && Reads(out, f, val)
    ensures WrittenAt(out, f, val)
  {
    WordLaid(out, f, 0, c, n, val);
    assert f.offs / 8 == c && f.len / 8 == n;
  }

  lemma ReadIsWritten(out: Buf, ops: seq<Op>)
    requires |out| == 256 && Rising(ops, 0, 32) && AllRead(out, ops)
    ensures FirstWritten(out, ops)
  {
    forall f, val: nat | Bits(f, val) in ops && IsWhole(f) ensures WrittenAt(out, f, val) {
      assert Hi(Bits(f, val)) == f.offs + f.len;
      ReadAt(out, f, f.offs / 8, f.len / 8, val);
    }
  }

  lemma EncodedFirst(buf: Buf, rpc: Rpc, trid: U64, path: Option<DrPath>, data: Option<seq<U8>>)
    requires Sound(buf, rpc, trid, path, data)
    ensures FirstBytes(Encoded(buf, rpc, trid, path, data), rpc)
  {
    var out, ops := Encoded(buf, rpc, trid, path, data), FirstWord(rpc);
    forall f, val: nat | Bits(f, val) in ops ensures Reads(out, f, val) {
      assert Bits(f, val) in Before(rpc, trid, path);
      FieldReads(buf, rpc, trid, path, data, f, val);
    }
    FirstRising(rpc);
    ReadIsWritten(out, ops);
    MethodByte(buf, rpc, trid, path, data);
    FirstLaid(out, rpc);
  }

  lemma MiddleLaid(out: Buf, rpc: Rpc, trid: U64)
    requires |out| == 256 && GetBe(out, TRID_AT, 8) == trid
    requires GetBe(out, KEY_AT, 8) == if rpc.Class() == CC_CLASS then rpc.cckey else rpc.mkey
    requires Reads(out, ATTR_ID, rpc.attrId) && Reads(out, ATTR_MOD, rpc.attrMod)
    ensures MiddleBytes(out, rpc, trid)
  {
    EightBytes(out, 8, trid);
    EightBytes(out, 24, if rpc.Class() == CC_CLASS then rpc.cckey else rpc.mkey);
    WordLaid(out, ATTR_ID, 4, 2, 2, rpc.attrId);
    WordLaid(out, ATTR_MOD, 5, 0, 4, rpc.attrMod);
  }

  /** Fifteen bits and a flag above them make two bytes. */
  lemma FlaggedLaid(out: Buf, f: Field, g: Field, val: nat, flag: nat)
    requires |out| == 256 && f == Field(48, f.len) && g == Field(48 + f.len, g.len) && g.len == 1 && f.len + g.len == 16
    requires Reads(out, f, val) && Reads(out, g, flag) && flag < 2
    ensures out[4] == val / 0x100 % 0x80 + 0x80 * flag && out[5] == val % 0x100
  {
    var whole := Low(val, f.len) + 0x8000 * flag;
    FlagOnTop(val, flag, whole, f.len);
    RegularOrLonger(f);
    RegularOrLonger(g);
    RegularOrLonger(Field(48, 16));
    Adjacent(out, f, g, whole);
    WordLaid(out, Field(48, 16), 1, 2, 2, whole);
    assert out[4..6][0] == out[4] && out[4..6][1] == out[5];
  }

  lemma FlagOnTop(val: nat, flag: nat, whole: nat, n: nat)
    requires flag < 2 && n + 1 == 16 && whole == Low(val, n) + 0x8000 * flag
    ensures Low(whole, n) == Low(val, n) && High(whole, n) == flag
    ensures whole % 0x100 == val % 0x100 && whole / 0x100 % 0x100 == val / 0x100 % 0x80 + 0x80 * flag
  {
    FifteenBits(val);
    FifteenBits(whole);
    OnTop(val, flag, whole);
  }

  lemma OnTop(val: nat, flag: nat, whole: nat)
    requires flag < 2 && whole == val % 0x8000 + 0x8000 * flag
    ensures whole % 0x8000 == val % 0x8000 && whole / 0x8000 == flag
    ensures whole % 0x100 == val % 0x100 && whole / 0x100 % 0x100 == val / 0x100 % 0x80 + 0x80 * flag
  {
    var top, low := val / 0x8000, val % 0x8000;
    InHalves(val, top, low / 0x100, low % 0x100);
    InHalves(whole, flag, low / 0x100, low % 0x100);
  }

  lemma InHalves(x: nat, top: nat, mid: nat, low: nat)
    requires x == 0x8000 * top + 0x100 * mid + low && mid < 0x80 && low < 0x100
    ensures x % 0x100 == low && x / 0x100 == 0x80 * top + mid
    ensures x / 0x100 % 0x80 == mid && (top < 2 ==> x / 0x100 % 0x100 == mid + 0x80 * top)
  {
    assert x / 0x100 == 0x80 * top + mid;
  }

  lemma FifteenBits(x: nat)
    ensures Low(x, 15) == x % 0x8000 && High(x, 15) == x / 0x8000
  {
    Parts(x, 15);
    LowSmall(x, 15);
    assert Pow2(15) == 0x8000;
  }

  lemma EncodedStatus(buf: Buf, rpc: Rpc, trid: U64, path: Option<DrPath>, data: Option<seq<U8>>, flag: nat)
    requires Sound(buf, rpc, trid, path, data) && flag < 2
    requires Bits(DR_STATUS, rpc.rstatus) in Before(rpc, trid, path)
    requires Bits(DIRECTION, flag) in Before(rpc, trid, path)
    ensures var out := Encoded(buf, rpc, trid, path, data);
            out[4] == rpc.rstatus / 0x100 % 0x80 + 0x80 * flag && out[5] == rpc.rstatus % 0x100
  {
    FieldReads(buf, rpc, trid, path, data, DR_STATUS, rpc.rstatus);
    FieldReads(buf, rpc, trid, path, data, DIRECTION, flag);
    FlaggedLaid(Encoded(buf, rpc, trid, path, data), DR_STATUS, DIRECTION, rpc.rstatus, flag);
  }

  lemma NarrowByte(x: int)
    ensures ToU32(x) % 0x100 == x % 0x100
  {
    assert x % 0x1_0000_0000 % 0x100 == x % 0x100;
  }

  lemma EncodedHops(buf: Buf, rpc: Rpc, trid: U64, path: Option<DrPath>, data: Option<seq<U8>>)
    requires Sound(buf, rpc, trid, path, data) && rpc.Class() == DIRECT_CLASS
    ensures var out := Encoded(buf, rpc, trid, path, data);
            && out[7] == path.value.cnt % 0x100
            && out[6] == if rpc.IsResponse() then (path.value.cnt + 1) % 0x100 else 0
  {
    var ops := SecondWord(rpc, path);
    assert ops[0] == Bits(HOP_CNT, ToU32(path.value.cnt)) && ops[1] == Bits(HOP_PTR, ops[1].val);
    EncodedByte(buf, rpc, trid, path, data, HOP_CNT, 1, 0, ToU32(path.value.cnt));
    NarrowByte(path.value.cnt);
    EncodedByte(buf, rpc, trid, path, data, HOP_PTR, 1, 1, ops[1].val);
    NarrowByte(path.value.cnt + 1);
  }

  lemma EncodedRoute(buf: Buf, rpc: Rpc, trid: U64, path: Option<DrPath>, data: Option<seq<U8>>)
    requires Sound(buf, rpc, trid, path, data) && rpc.Class() == DIRECT_CLASS
    ensures RouteBytes(Encoded(buf, rpc, trid, path, data), rpc, path.value)
  {
    var ops := SecondWord(rpc, path);
    assert ops[2] == Bits(DR_STATUS, rpc.rstatus) && ops[3] == Bits(DIRECTION, Flag(rpc.IsResponse()));
    BitSeven(rpc.methodCode);
    EncodedHops(buf, rpc, trid, path, data);
    EncodedStatus(buf, rpc, trid, path, data, Flag(rpc.IsResponse()));
  }

  lemma AllOnes()
    ensures Be(0xffff, 2) == [0xff, 0xff]
  {
  }

  lemma EncodedLids(buf: Buf, rpc: Rpc, trid: U64, path: Option<DrPath>, data: Option<seq<U8>>)
    requires Sound(buf, rpc, trid, path, data) && rpc.Class() == DIRECT_CLASS
    ensures var out := Encoded(buf, rpc, trid, path, data);
            && out[32..34] == Be(Lid(path.value.drslid), 2) && out[34..36] == Be(Lid(path.value.drdlid), 2)
  {
    var ops := ClassPart(rpc, path);
    assert ops[0] == Bits(DR_DLID, Lid(path.value.drdlid)) && ops[1] == Bits(DR_SLID, Lid(path.value.drslid));
    EncodedWord(buf, rpc, trid, path, data, DR_DLID, 8, 0, 2, Lid(path.value.drdlid));
    EncodedWord(buf, rpc, trid, path, data, DR_SLID, 8, 2, 2, Lid(path.value.drslid));
  }

  lemma EncodedPath(buf: Buf, rpc: Rpc, trid: U64, path: Option<DrPath>, data: Option<seq<U8>>)
    requires Sound(buf, rpc, trid, path, data) && rpc.Class() == DIRECT_CLASS
    ensures PathBytes(Encoded(buf, rpc, trid, path, data), rpc, path.value)
  {
    BitSeven(rpc.methodCode);
    AllOnes();
    EncodedLids(buf, rpc, trid, path, data);
    var op := ClassPart(rpc, path)[2];
    assert op in Header(rpc, trid, path) + Payload(rpc, data);
    EncodeReadsBack(buf, rpc, trid, path, data, op);
  }

  /** The datagram, where its payload is clear of the header. */
  predicate Laid(out: Buf, rpc: Rpc, trid: U64, path: Option<DrPath>, data: Option<seq<U8>>) {
    && |out| == 256 && FirstBytes(out, rpc) && MiddleBytes(out, rpc, trid) && ClassBytes(out, rpc)
    && (rpc.mgtClass % 0x100 == 0x81 ==>
          path.Some? && RouteBytes(out, rpc, path.value) && PathBytes(out, rpc, path.value))
    && (data.Some? ==> rpc.dataOffs + |data.value| <= 256
                       && out[rpc.dataOffs..rpc.dataOffs + |data.value|] == data.value)
  }

  lemma EncodedMiddle(buf: Buf, rpc: Rpc, trid: U64, path: Option<DrPath>, data: Option<seq<U8>>)
    requires Sound(buf, rpc, trid, path, data)
    ensures MiddleBytes(Encoded(buf, rpc, trid, path, data), rpc, trid)
  {
    MiddleReads(buf, rpc, trid, path, data);
    MiddleLaid(Encoded(buf, rpc, trid, path, data), rpc, trid);
  }

  lemma StatusLaid(out: Buf, val: nat)
    requires |out| == 256 && Reads(out, STATUS, val)
    ensures out[4..6] == Be(val, 2)
  {
    WordLaid(out, STATUS, 1, 2, 2, val);
  }

  lemma VendorLaid(out: Buf, val: nat)
    requires |out| == 256 && Reads(out, OUI, val)
    ensures out[37..40] == Be(val, 3)
  {
    WordLaid(out, OUI, 9, 0, 3, val);
  }

  lemma EncodedClass(buf: Buf, rpc: Rpc, trid: U64, path: Option<DrPath>, data: Option<seq<U8>>)
    requires Sound(buf, rpc, trid, path, data)
    ensures ClassBytes(Encoded(buf, rpc, trid, path, data), rpc)
  {
    var out := Encoded(buf, rpc, trid, path, data);
    RestReads(buf, rpc, trid, path, data);
    if rpc.Class() != DIRECT_CLASS { StatusLaid(out, rpc.rstatus); }
    if rpc.Class() == SA_CLASS { EightBytes(out, 48, rpc.mask); }
    if rpc.Vendor2() { VendorLaid(out, rpc.oui); }
  }

  lemma EncodedLaid(buf: Buf, rpc: Rpc, trid: U64, path: Option<DrPath>, data: Option<seq<U8>>)
    requires Sound(buf, rpc, trid, path, data)
    ensures Laid(Encoded(buf, rpc, trid, path, data), rpc, trid, path, data)
  {
    EncodedFirst(buf, rpc, trid, path, data);
    EncodedMiddle(buf, rpc, trid, path, data);
    EncodedClass(buf, rpc, trid, path, data);
    if rpc.Class() == DIRECT_CLASS {
      EncodedRoute(buf, rpc, trid, path, data);
      EncodedPath(buf, rpc, trid, path, data);
    }
    RestReads(buf, rpc, trid, path, data);
  }

  /** A payload of whole words that leaves the header of its class, and a directed route, alone. */
  predicate OutOfTheWay(rpc: Rpc, data: Option<seq<U8>>) {
    data.Some? ==>
      var c, end := rpc.mgtClass % 0x100, rpc.dataOffs + |data.value|;
      && rpc.dataOffs % 4 == 0 && |data.value| % 4 == 0 && end <= 256
      && (if 0x30 <= c <= 0x4f then 40 else if c == 0x03 then 56 else if c == 0x81 then 36 else 32) <= rpc.dataOffs
      && (c == 0x81 ==> end <= 128)
  }

  lemma UsualLaid(buf: Buf, rpc: Rpc, trid: U64, path: Option<DrPath>, data: Option<seq<U8>>)
    requires |buf| == MAD_SIZE && Routed(rpc, path) && Fit(rpc, path, data) && OutOfTheWay(rpc, data)
    ensures Laid(Encoded(buf, rpc, trid, path, data), rpc, trid, path, data)
  {
    if data.Some? { UsualPlace(rpc, trid, path, data.value); }
    EncodedLaid(buf, rpc, trid, path, data);
  }
}
