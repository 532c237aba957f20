/** The objects that a port mapper daemon keeps in memory, and what lists of them stand for. */
module IwpmHeap {
  import opened Options
  import opened IwpmAddr
  import opened IwpmState
  import opened IwpmInvariants

  /** iwpm_mapped_port, at address `id`. */
  class PortObj {
    const id: PortId
    const owner: nat
    const local: SockAddr
    const mapped: SockAddr
    const wcard: bool
    var refCnt: int

    constructor (id: PortId, p: MappedPort)
      ensures this.id == id && Value() == p
    {
      this.id, owner, local, mapped, wcard, refCnt := id, p.owner, p.local, p.mapped, p.wcard, p.refCnt;
    }

    function Value(): MappedPort
      reads this
    {
      MappedPort(owner, local, mapped, wcard, refCnt)
    }
  }

  /** iwpm_mapping_request */
  class ReqObj {
    const id: ReqId
    const kind: Kind
    const src: SockAddr
    const remote: SockAddr
    const nl: NlHdr
    const assoc: U64
    const sendMsg: Option<SendMsg>
    var timeout: int
    var complete: bool

    constructor (r: Request)
      ensures Value() == r
    {
      id, kind, src, remote, nl := r.id, r.kind, r.src, r.remote, r.nl;
      assoc, sendMsg, timeout, complete := r.assoc, r.sendMsg, r.timeout, r.complete;
    }

    function Value(): Request
      reads this
    {
      Request(id, kind, src, remote, nl, assoc, sendMsg, timeout, complete)
    }
  }

  ghost function Ids(list: seq<PortObj>): (r: seq<PortId>)
    ensures |r| == |list| && forall i :: 0 <= i < |list| ==> r[i] == list[i].id
  {
    seq(|list|, i requires 0 <= i < |list| => list[i].id)
  }

  ghost function PortVals(list: seq<PortObj>): (r: seq<MappedPort>)
    reads list
    ensures |r| == |list| && forall i :: 0 <= i < |list| ==> r[i] == list[i].Value()
  {
    seq(|list|, i requires 0 <= i < |list| reads list => list[i].Value())
  }

  ghost function ReqVals(list: seq<ReqObj>): (r: seq<Request>)
    reads list
    ensures |r| == |list| && forall i :: 0 <= i < |list| ==> r[i] == list[i].Value()
  {
    seq(|list|, i requires 0 <= i < |list| reads list => list[i].Value())
  }

  /** The table of the objects at `ids`. */
  ghost function Table(ids: seq<PortId>, vals: seq<MappedPort>): map<PortId, MappedPort>
    requires |ids| == |vals|
  {
    if ids == [] then map[] else Table(ids[1..], vals[1..])[ids[0] := vals[0]]
  }

  lemma {:induction false} TableAt(ids: seq<PortId>, vals: seq<MappedPort>)
    requires |ids| == |vals| && NoDup(ids)
    ensures forall id :: id in Table(ids, vals) <==> id in ids
    ensures forall i :: 0 <= i < |ids| ==> ids[i] in Table(ids, vals) && Table(ids, vals)[ids[i]] == vals[i]
  {
    if ids != [] {
      TableAt(ids[1..], vals[1..]);
      forall i | 0 < i < |ids| ensures ids[i] in Table(ids, vals) && Table(ids, vals)[ids[i]] == vals[i] {
        assert ids[1..][i - 1] == ids[i] && vals[1..][i - 1] == vals[i];
      }
    }
  }

  lemma TableSet(ids: seq<PortId>, vals: seq<MappedPort>, i: nat, v: MappedPort)
    requires |ids| == |vals| && NoDup(ids) && i < |ids|
    ensures Table(ids, vals[i := v]) == Table(ids, vals)[ids[i] := v]
  {
    TableAt(ids, vals);
    TableAt(ids, vals[i := v]);
    var t, t' := Table(ids, vals[i := v]), Table(ids, vals)[ids[i] := v];
    forall id | id in ids ensures id in t && id in t' && t[id] == t'[id] { var j :| 0 <= j < |ids| && ids[j] == id; }
    assert t.Keys == t'.Keys;
  }

  lemma TableAdd(ids: seq<PortId>, vals: seq<MappedPort>, id: PortId, v: MappedPort)
    requires |ids| == |vals|
    ensures Table([id] + ids, [v] + vals) == Table(ids, vals)[id := v]
  {
    assert ([id] + ids)[1..] == ids && ([v] + vals)[1..] == vals;
  }

  /** Taking one object off the list. */
  function Off<T>(list: seq<T>, i: nat): seq<T>
    requires i < |list|
  {
    list[..i] + list[i + 1..]
  }

  lemma NoDupOff(ids: seq<PortId>, i: nat)
    requires NoDup(ids) && i < |ids|
    ensures NoDup(Off(ids, i))
  {
    var r := Off(ids, i);
    forall j, k | 0 <= j < k < |r| ensures r[j] != r[k] {
      assert r[j] == ids[if j < i then j else j + 1] && r[k] == ids[if k < i then k else k + 1];
    }
  }

  lemma OffCons<T>(list: seq<T>, i: nat)
    requires 0 < i < |list|
    ensures Off(list, i) == [list[0]] + Off(list[1..], i - 1)
  {
  }

  lemma AddThenDrop(t: map<PortId, MappedPort>, id: PortId, v: MappedPort, other: PortId)
    ensures id !in t ==> t[id := v] - {id} == t
    ensures other != id ==> (t - {other})[id := v] == t[id := v] - {other}
  {
  }

  lemma {:induction false} TableOff(ids: seq<PortId>, vals: seq<MappedPort>, i: nat)
    requires |ids| == |vals| && NoDup(ids) && i < |ids|
    ensures Table(Off(ids, i), Off(vals, i)) == Table(ids, vals) - {ids[i]}
  {
    var rest := Table(ids[1..], vals[1..]);
    AddThenDrop(rest, ids[0], vals[0], ids[i]);
    if i == 0 {
      TableAt(ids[1..], vals[1..]);
      assert Off(ids, 0) == ids[1..] && Off(vals, 0) == vals[1..];
    } else {
      TableOff(ids[1..], vals[1..], i - 1);
      OffCons(ids, i);
      OffCons(vals, i);
      TableAdd(Off(ids[1..], i - 1), Off(vals[1..], i - 1), ids[0], vals[0]);
    }
  }

  /** Changing or dropping the first of the rest. */
  lemma Middle<T>(done: seq<T>, rest: seq<T>, v: T)
    requires rest != []
    ensures (done + rest)[|done| := v] == done + [v] + rest[1..] && Off(done + rest, |done|) == done + rest[1..]
  {
  }

  lemma {:induction false} WithoutIsOff(ids: seq<PortId>, i: nat)
    requires NoDup(ids) && i < |ids|
    ensures Without(ids, ids[i]) == Off(ids, i)
  {
    if i == 0 { WithoutNone(ids[1..], ids[0]); }
    else {
      WithoutIsOff(ids[1..], i - 1);
      OffCons(ids, i);
    }
  }

  lemma {:induction false} WithoutNone(ids: seq<PortId>, id: PortId)
    requires id !in ids
    ensures Without(ids, id) == ids
  {
    if ids != [] { WithoutNone(ids[1..], id); }
  }
}
