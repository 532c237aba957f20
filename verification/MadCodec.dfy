/** The codec as it works on a buffer in place. */
module MadCodec {
  import opened BigEndian
  import opened Options
  import opened BitNumbers
  import opened MadFields
  import opened MadEncode
  import opened MadHeader
  import opened MadLayout
  import opened MadFrame

  /** The field `f` of a structure that starts at byte `base`. */
  function Based(f: Field, base: nat): Field { Field(f.offs + 8 * base, f.len) }

  lemma SamePlace(f: Field, base: nat)
    ensures Based(f, base).Pre() == f.Pre() && Based(f, base).Post() == f.Post()
    ensures Based(f, base).InByte() == f.InByte() && Based(f, base).offs / 8 == base + f.offs / 8
    ensures Based(f, base).offs % 8 == f.offs % 8 && (Based(f, base).offs + f.len) / 8 == base + (f.offs + f.len) / 8
  {
    assert (f.offs + 8 * base + f.len) / 8 == base + (f.offs + f.len) / 8;
    assert (f.offs + 8 * base) % 8 == f.offs % 8;
    assert (f.offs + 8 * base + f.len) % 8 == (f.offs + f.len) % 8;
  }

  method SetFieldIn(p: array<U8>, base: nat, f: Field, value: nat)
    requires Based(f, base).Fits(p[..])
    modifies p
    ensures p[..] == SetField(old(p[..]), Based(f, base), value)
  {
    SamePlace(f, base);
    var idx := base + f.offs / 8;
    if f.InByte() {
      var x := LoadByte(p, idx);
      StoreByte(p, idx, Within(x, f.offs % 8, f.len, value));
    } else {
      SetPartsIn(p, idx, f.Pre(), f.Bytes(), f.Post(), value);
    }
  }

  method LoadByte(p: array<U8>, idx: nat) returns (x: U8)
    requires p.Length % 4 == 0 && idx < p.Length
    ensures x == Byte(p[..], idx)
  {
    SwapInside(idx, p.Length);
    x := p[Swap(idx)];
  }

  method StoreByte(p: array<U8>, idx: nat, x: nat)
    requires p.Length % 4 == 0 && idx < p.Length
    modifies p
    ensures p[..] == PutByte(old(p[..]), idx, x)
  {
    SwapInside(idx, p.Length);
    p[Swap(idx)] := x % 0x100;
  }

  method SetPartsIn(p: array<U8>, start: nat, pre: nat, bytes: nat, post: nat, value: nat)
    requires p.Length % 4 == 0 && pre < 8
    requires start + (if pre > 0 then 1 else 0) + bytes + (if post > 0 then 1 else 0) <= p.Length
    modifies p
    ensures p[..] == SetParts(old(p[..]), start, pre, bytes, post, value)
  {
    var idx, val := start, value;
    if pre > 0 {
      var x := LoadByte(p, idx);
      StoreByte(p, idx, Top(x, pre, val));
      idx, val := idx + 1, High(val, pre);
    }
    SetRestIn(p, idx, bytes, post, val);
  }

  method SetRestIn(p: array<U8>, start: nat, bytes: nat, post: nat, value: nat)
    requires p.Length % 4 == 0 && start + bytes + (if post > 0 then 1 else 0) <= p.Length
    modifies p
    ensures p[..] == SetRest(old(p[..]), start, bytes, post, value)
  {
    var idx, left, val := start, bytes, value;
    while left > 0
      invariant idx + left == start + bytes
      invariant PutBytes(p[..], idx, left, val) == PutBytes(old(p[..]), start, bytes, value)
      invariant High(val, 8 * left) == High(value, 8 * bytes)
    {
      HighHigh(val, 8, 8 * (left - 1));
      StoreByte(p, idx, Low(val, 8));
      idx, left, val := idx + 1, left - 1, High(val, 8);
    }
    if post > 0 {
      var x := LoadByte(p, idx);
      StoreByte(p, idx, Bottom(x, post, val));
    }
  }

  /** The parts of a field are inside the buffer. */
  lemma PartsInside(f: Field)
    requires !f.InByte()
    ensures f.offs / 8 + (if f.Pre() > 0 then 1 else 0) + f.Bytes() <= f.End()
    ensures f.Post() > 0 ==> (f.offs + f.len) / 8 < f.End()
  {
    RegularOrLonger(f);
    StartOfBytes(f);
    EndOfField(f);
  }

  method GetFieldFrom(p: array<U8>, base: nat, f: Field) returns (r: nat)
    requires Based(f, base).Fits(p[..])
    ensures r == GetField(p[..], Based(f, base))
  {
    SamePlace(f, base);
    var idx := base + f.offs / 8;
    if f.InByte() {
      var x := LoadByte(p, idx);
      return Low(High(x, f.offs % 8), f.len);
    }
    var last := base + (f.offs + f.len) / 8;
    PartsInside(Based(f, base));
    FieldParts(p[..], Based(f, base), idx, f.Pre(), f.Bytes(), f.Post(), last);
    r := GetPartsFrom(p, idx, f.Pre(), f.Bytes(), f.Post(), last);
  }

  lemma FieldParts(buf: Buf, f: Field, idx: nat, pre: nat, bytes: nat, post: nat, last: nat)
    requires !f.InByte() && idx == f.offs / 8 && last == (f.offs + f.len) / 8
    requires pre == f.Pre() && bytes == f.Bytes() && post == f.Post()
    ensures GetField(buf, f) == GetParts(buf, idx, pre, bytes, post, last)
  {
  }

  method GetPartsFrom(p: array<U8>, start: nat, pre: nat, bytes: nat, post: nat, last: nat) returns (r: nat)
    requires p.Length % 4 == 0 && pre < 8 && (post > 0 ==> last < p.Length)
    requires start + (if pre > 0 then 1 else 0) + bytes <= p.Length
    ensures r == GetParts(p[..], start, pre, bytes, post, last)
  {
    var idx, val, v := start, 0, 0;
    if pre > 0 {
      var x := LoadByte(p, idx);
      v, idx := High(x, 8 - pre), idx + 1;
    }
    if post > 0 {
      var x := LoadByte(p, last);
      val := Low(x, post);
    }
    val := GetBytesFrom(p, idx, bytes, val);
    r := Low(Join(v, val, pre), 32);
  }

  /** The loop from the highest byte down. */
  method GetBytesFrom(p: array<U8>, start: nat, bytes: nat, high: nat) returns (val: nat)
    requires p.Length % 4 == 0 && start + bytes <= p.Length
    ensures val == GetBytes(p[..], start, bytes, high)
  {
    var left := bytes;
    val := high;
    while left > 0
      invariant 0 <= left <= bytes && GetBytes(p[..], start, left, val) == GetBytes(p[..], start, bytes, high)
    {
      var x := LoadByte(p, start + left - 1);
      val, left := Low(Join(x, val, 8), 32), left - 1;
    }
  }

  lemma LastByte(bytes: seq<U8>, val: nat, left: nat)
    requires 0 < left <= |bytes| && Be(val, left) == bytes[..left]
    ensures bytes[left - 1] == val % 0x100 && Be(val / 0x100, left - 1) == bytes[..left - 1]
  {
    assert bytes[..left - 1] == bytes[..left][..left - 1] && bytes[left - 1] == bytes[..left][left - 1];
  }

  lemma CopyOneMore(buf: Buf, at: nat, bytes: seq<U8>, k: nat)
    requires k < |bytes| && at + |bytes| <= |buf|
    ensures CopyAt(buf, at + k, bytes[k..]) == CopyAt(buf, at + k + 1, bytes[k + 1..])[at + k := bytes[k]]
  {
  }

  /** The bytes of the value, the last one first. */
  method SetWideIn(p: array<U8>, at: nat, value: nat)
    requires at + 8 <= p.Length
    modifies p
    ensures p[..] == PutBe(old(p[..]), at, 8, value)
  {
    ghost var bytes := Be(value, 8);
    var left, val := 8, value;
    while left > 0
      invariant 0 <= left <= 8 && Be(val, left) == bytes[..left]
      invariant p[..] == CopyAt(old(p[..]), at + left, bytes[left..])
    {
      LastByte(bytes, val, left);
      p[at + left - 1] := val % 0x100;
      CopyOneMore(old(p[..]), at, bytes, left - 1);
      left, val := left - 1, val / 0x100;
    }
  }

  method SetBlockIn(p: array<U8>, at: nat, data: seq<U8>)
    requires at + |data| <= p.Length
    modifies p
    ensures p[..] == CopyAt(old(p[..]), at, data)
  {
    var i := 0;
    while i < |data|
      invariant i <= |data| && p[..] == CopyAt(old(p[..]), at, data[..i])
    {
      p[at + i] := data[i];
      i := i + 1;
      assert data[..i] == data[..i - 1] + [data[i - 1]];
    }
    assert data[..i] == data;
  }

  /** _set_array */
  method SetArrayIn(p: array<U8>, base: nat, f: Field, data: seq<U8>)
    requires IsArray(f) && |data| == f.len / 8 && base + ArrayAt(f) + |data| <= p.Length
    modifies p
    ensures p[..] == CopyAt(old(p[..]), base + ArrayAt(f), data)
  {
    var offs := f.offs;
    if f.len < 32 { offs := BitsOffs(offs, f.len).offs; }
    SetBlockIn(p, base + offs / 8, data);
  }

  // --------------------------------------------------------------- mad_encode

  lemma RunOneMore(buf: Buf, ops: seq<Op>, op: Op)
    requires AllOk(ops, |buf|) && op.Ok(|buf|)
    ensures AllOk(ops + [op], |buf|) && Run(buf, ops + [op]) == Do(Run(buf, ops), op)
  {
    assert (ops + [op])[..|ops|] == ops;
  }

  lemma {:induction false} RunJoin(buf: Buf, a: seq<Op>, b: seq<Op>)
    requires AllOk(a, |buf|) && AllOk(b, |buf|)
    ensures AllOk(a + b, |buf|) && Run(buf, a + b) == Run(Run(buf, a), b)
    decreases |b|
  {
    if b == [] { assert a + b == a; }
    else {
      var n := |b| - 1;
      RunJoin(buf, a, b[..n]);
      assert a + b == a + b[..n] + [b[n]];
      RunOneMore(buf, a + b[..n], b[n]);
    }
  }

  method Put(p: array<U8>, op: Op)
    requires op.Ok(p.Length)
    modifies p
    ensures p[..] == Do(old(p[..]), op)
  {
    match op
    case Bits(f, val) => assert Based(f, 0) == f; SetFieldIn(p, 0, f, val);
    case Wide(at, val) => SetWideIn(p, at, val);
    case Block(at, data) => SetBlockIn(p, at, data);
  }

  method PutAll(p: array<U8>, ops: seq<Op>)
    requires AllOk(ops, p.Length)
    modifies p
    ensures p[..] == Run(old(p[..]), ops)
  {
    var i := 0;
    while i < |ops|
      invariant i <= |ops| && p[..] == Run(old(p[..]), ops[..i])
    {
      assert ops[..i + 1] == ops[..i] + [ops[i]];
      RunOneMore(old(p[..]), ops[..i], ops[i]);
      Put(p, ops[i]);
      i := i + 1;
    }
    assert ops[..i] == ops;
  }

  /** mad_encode.  A directed class without a usable route is refused, with the first word
      already written; `next` is the transaction number that mad_trid would give. */
  method Encode(p: array<U8>, rpc: Rpc, path: Option<DrPath>, data: Option<seq<U8>>, next: U64) returns (ok: bool)
    requires p.Length == MAD_SIZE && Fit(rpc, path, data)
    modifies p, rpc`trid
    ensures ok <==> Routed(rpc, path)
    ensures rpc.trid == if ok && old(rpc.trid) == 0 then next else old(rpc.trid)
    ensures ok ==> AllOk(Datagram(rpc, rpc.trid, path, data), MAD_SIZE)
                   && p[..] == Run(old(p[..]), Datagram(rpc, rpc.trid, path, data))
    ensures !ok ==> AllOk(FirstWord(rpc), MAD_SIZE) && p[..] == Run(old(p[..]), FirstWord(rpc))
    ensures ok <==> (rpc.mgtClass % 0x100 == 0x81 ==> path.Some? && path.value.cnt < 64)
    ensures ok && OutOfTheWay(rpc, data) ==> Laid(p[..], rpc, rpc.trid, path, data)
    ensures ok ==> SparesKept(old(p[..]), p[..], rpc, data)
    ensures !ok ==> FirstBytes(p[..], rpc) && RestKept(old(p[..]), p[..])
  {
    FirstOk(rpc);
    PutAll(p, FirstWord(rpc));
    if rpc.Class() == DIRECT_CLASS && (path.None? || path.value.cnt >= HOPS_MAX) {
      RefusedLaid(old(p[..]), rpc, FirstWord(rpc));
      return false;
    }
    if rpc.trid == 0 { rpc.trid := next; }
    var more := SecondWord(rpc, path) + MiddleWords(rpc, rpc.trid) + [Wide(KEY_AT, rpc.mkey)]
      + ClassPart(rpc, path) + Payload(rpc, data) + Vendor(rpc);
    DatagramOk(rpc, rpc.trid, path, data);
    Split(rpc, rpc.trid, path, data, more);
    RunJoin(old(p[..]), FirstWord(rpc), more);
    PutAll(p, more);
    EncodedSpares(old(p[..]), rpc, rpc.trid, path, data);
    if OutOfTheWay(rpc, data) { UsualLaid(old(p[..]), rpc, rpc.trid, path, data); }
    ok := true;
  }

  lemma Split(rpc: Rpc, trid: U64, path: Option<DrPath>, data: Option<seq<U8>>, more: seq<Op>)
    requires Routed(rpc, path) && AllOk(Datagram(rpc, trid, path, data), MAD_SIZE)
    requires more == SecondWord(rpc, path) + MiddleWords(rpc, trid) + [Wide(KEY_AT, rpc.mkey)]
                     + ClassPart(rpc, path) + Payload(rpc, data) + Vendor(rpc)
    ensures Datagram(rpc, trid, path, data) == FirstWord(rpc) + more && AllOk(more, MAD_SIZE)
  {
    var ops := Datagram(rpc, trid, path, data);
    assert ops == FirstWord(rpc) + more;
    forall i | 0 <= i < |more| ensures more[i].Ok(MAD_SIZE) { assert more[i] == ops[|FirstWord(rpc)| + i]; }
  }
}
