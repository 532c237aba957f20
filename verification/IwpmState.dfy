/** One port mapper daemon as a value: its mapping objects, its two lists and what
    it has sent, with one function for each message handler and for the timer.

    Memory is explicit: `ports` holds the mapping objects that are allocated, by
    address, and `mappedPorts` is the list that links them.  What malloc, the
    socket calls and the netlink calls answer is part of an event. */
module IwpmState {
  import opened Options
  import opened IwpmAddr
  import opened IwpmWire

  type PortId = nat
  type ReqId = nat
  type Peer = nat
  type Handle = x: int | 0 < x < 0x1_0000_0000_0000_0000 witness 1

  const IWARP_PM_PORT: U16 := 3935
  const MAP_REQ_TIMEOUT := 10

  const INVALID_NLMSG_ERR := 10
  const CREATE_MAPPING_ERR := 11
  const DUPLICATE_MAPPING_ERR := 12
  const REMOTE_QUERY_REJECT := 16

  datatype Dest = ToHost(addr: SockAddr) | ToPeer(peer: Peer)
  datatype SendMsg = SendMsg(dest: Dest, data: seq<U8>)

  datatype MappedPort = MappedPort(
    owner: nat, local: SockAddr, mapped: SockAddr, wcard: bool, refCnt: int)

  /** Type, sequence number and process id of a client's netlink message. */
  datatype NlHdr = NlHdr(nlType: nat, nlSeq: nat, nlPid: nat)

  datatype Kind = Query | Accept | Ack

  /** A tracking object; `id` is its identity, `assoc` the handle on the wire. */
  datatype Request = Request(
    id: ReqId, kind: Kind, src: SockAddr, remote: SockAddr, nl: NlHdr,
    assoc: U64, sendMsg: Option<SendMsg>, timeout: int, complete: bool)

  /** Netlink messages to clients.  `ConnInfo` answers the query that tracking
      object `req` stands for, with error code `err`. */
  datatype NlMsg =
    | MapReply(nl: NlHdr, local: SockAddr, mapped: SockAddr)
    | ConnInfo(req: ReqId, nl: NlHdr, owner: nat, local: SockAddr, remote: SockAddr,
               mappedLoc: SockAddr, mappedRem: SockAddr, err: nat)
    | RemoteInfo(owner: nat, local: SockAddr, remote: SockAddr,
                 mappedLoc: SockAddr, mappedRem: SockAddr)
    | Error(client: nat, nlSeq: nat, err: nat)

  /** Where the main thread stands.  An accept is handled in two critical sections
      and the timer thread may run between them. */
  datatype Main = Idle | Accepted(copy: Request, port: PortId, m: Parms, from: Peer)

  datatype State = State(
    ports: map<PortId, MappedPort>, mappedPorts: seq<PortId>, reqs: seq<Request>,
    main: Main, clientOut: seq<NlMsg>, wireOut: seq<SendMsg>)

  const INIT_STATE := State(map[], [], [], Idle, [], [])

  /** Outcomes of the calls a client request makes: parsing, a TCP port from the
      host, a mapping object, the reply. */
  datatype AddEnv = AddEnv(parseOk: bool, tcp: Option<U16>, portId: Option<PortId>, replyOk: bool)

  datatype QueryEnv = QueryEnv(
    parseOk: bool, tcp: Option<U16>, portId: Option<PortId>,
    sendOk: bool, reqId: Option<ReqId>, addr: Handle, pendingOk: bool)

  /** The same for a wire message: the send buffer, a tracking object and its
      address, the pending message, the netlink message. */
  datatype WireEnv = WireEnv(
    sendOk: bool, reqId: Option<ReqId>, addr: Handle, pendingOk: bool, nlOk: bool)

  datatype Event =
    | EvAdd(client: nat, nl: NlHdr, local: SockAddr, noPortMap: bool, addEnv: AddEnv)
    | EvQuery(client: nat, nl: NlHdr, local: SockAddr, remote: SockAddr, noPortMap: bool,
              queryEnv: QueryEnv)
    | EvRemove(client: nat, nl: NlHdr, local: SockAddr, parseOk: bool)
    | EvMapInfo(client: nat, nl: NlHdr, local: SockAddr, mapped: SockAddr, noPortMap: bool,
                addEnv: AddEnv)
    | EvRecv(data: seq<U8>, from: Peer, wireEnv: WireEnv)
    | EvFinishAccept(wireEnv: WireEnv)
    | EvTick

  // ---------------------------------------------------------------- the table

  /** The test of find_iwpm_mapping on one mapping. */
  predicate Hit(p: MappedPort, search: SockAddr, notMapped: bool) {
    var cur := if notMapped then p.local else p.mapped;
    Port(search) == Port(cur) && (Same(search, cur) || p.wcard || IsWildcard(search))
  }

  predicate SameHit(p: MappedPort, search: SockAddr, notMapped: bool) {
    Same(search, if notMapped then p.local else p.mapped)
  }

  predicate Linked(ports: map<PortId, MappedPort>, ids: seq<PortId>) {
    forall i :: 0 <= i < |ids| ==> ids[i] in ports
  }

  /** find_iwpm_mapping: the first hit in list order. */
  function Find(ports: map<PortId, MappedPort>, ids: seq<PortId>,
                search: SockAddr, notMapped: bool): (r: Option<PortId>)
    requires Linked(ports, ids)
    ensures r.Some? ==> r.value in ids && r.value in ports && Hit(ports[r.value], search, notMapped)
    ensures r.None? ==> forall i :: 0 <= i < |ids| ==> !Hit(ports[ids[i]], search, notMapped)
  {
    if ids == [] then None
    else if Hit(ports[ids[0]], search, notMapped) then Some(ids[0])
    else Find(ports, ids[1..], search, notMapped)
  }

  /** The first hit in list order, if there is one. */
  lemma {:induction false} FindFirst(ports: map<PortId, MappedPort>, ids: seq<PortId>, search: SockAddr,
                                     notMapped: bool, i: nat)
    requires Linked(ports, ids) && i <= |ids|
    requires forall j :: 0 <= j < i ==> !Hit(ports[ids[j]], search, notMapped)
    requires i < |ids| ==> Hit(ports[ids[i]], search, notMapped)
    ensures Find(ports, ids, search, notMapped) == if i < |ids| then Some(ids[i]) else None
  {
    if i > 0 {
      forall j | 0 <= j < i - 1
        ensures !Hit(ports[ids[1..][j]], search, notMapped)
      {
        assert ids[1..][j] == ids[j + 1];
      }
      FindFirst(ports, ids[1..], search, notMapped, i - 1);
    }
  }

  /** find_iwpm_same_mapping */
  function FindSame(ports: map<PortId, MappedPort>, ids: seq<PortId>,
                    search: SockAddr, notMapped: bool): (r: Option<PortId>)
    requires Linked(ports, ids)
    ensures r.Some? ==> r.value in ids && r.value in ports && SameHit(ports[r.value], search, notMapped)
    ensures r.None? ==> forall i :: 0 <= i < |ids| ==> !SameHit(ports[ids[i]], search, notMapped)
  {
    if ids == [] then None
    else if SameHit(ports[ids[0]], search, notMapped) then Some(ids[0])
    else FindSame(ports, ids[1..], search, notMapped)
  }

  lemma {:induction false} FindSameFirst(ports: map<PortId, MappedPort>, ids: seq<PortId>, search: SockAddr,
                                         notMapped: bool, i: nat)
    requires Linked(ports, ids) && i <= |ids|
    requires forall j :: 0 <= j < i ==> !SameHit(ports[ids[j]], search, notMapped)
    requires i < |ids| ==> SameHit(ports[ids[i]], search, notMapped)
    ensures FindSame(ports, ids, search, notMapped) == if i < |ids| then Some(ids[i]) else None
  {
    if i > 0 {
      forall j | 0 <= j < i - 1
        ensures !SameHit(ports[ids[1..][j]], search, notMapped)
      {
        assert ids[1..][j] == ids[j + 1];
      }
      FindSameFirst(ports, ids[1..], search, notMapped, i - 1);
    }
  }

  /** get_iwpm_port */
  function NewPort(client: nat, local: SockAddr, mapped: SockAddr): MappedPort {
    MappedPort(client, local, mapped, IsWildcard(local), 1)
  }

  /** get_iwpm_tcp_port, into `mapped`: `tcp` is the port that was bound.  For a foreign family
      nothing is bound, and it is Some where errno happened to be clear, which reads as success. */
  function Bound(mapped: SockAddr, tcp: U16): SockAddr {
    if Inet(mapped.family) then mapped.(port := tcp) else mapped
  }

  /** create_iwpm_mapped_port */
  function CreatePort(client: nat, local: SockAddr, noPortMap: bool, tcp: Option<U16>): Option<MappedPort> {
    if noPortMap then Some(NewPort(client, local, local))
    else if tcp.Some? then Some(NewPort(client, local, Bound(local, tcp.value)))
    else None
  }

  /** reopen_iwpm_mapped_port */
  function ReopenPort(client: nat, local: SockAddr, mapped: SockAddr, noPortMap: bool,
                      tcp: Option<U16>): Option<MappedPort> {
    if local.family != mapped.family then None
    else if noPortMap then Some(NewPort(client, local, mapped))
    else if tcp.Some? then Some(NewPort(client, local, Bound(mapped, tcp.value)))
    else None
  }

  function AddRef(s: State, id: PortId): State
    requires id in s.ports
  {
    s.(ports := s.ports[id := s.ports[id].(refCnt := s.ports[id].refCnt + 1)])
  }

  /** The unwinding of a failed request: drop a reference, free at zero. */
  function DropRef(s: State, id: PortId): State
    requires id in s.ports
  {
    if s.ports[id].refCnt == 1 then s.(ports := s.ports - {id})
    else s.(ports := s.ports[id := s.ports[id].(refCnt := s.ports[id].refCnt - 1)])
  }

  /** add_iwpm_mapped_port: only an object with a single reference is new. */
  function AddToList(s: State, id: PortId): State
    requires id in s.ports
  {
    if s.ports[id].refCnt > 1 then s else s.(mappedPorts := [id] + s.mappedPorts)
  }

  function Without(ids: seq<PortId>, id: PortId): (r: seq<PortId>)
    ensures forall x :: x in r <==> x in ids && x != id
  {
    if ids == [] then []
    else if ids[0] == id then Without(ids[1..], id)
    else [ids[0]] + Without(ids[1..], id)
  }

  function SendError(s: State, client: nat, nl: NlHdr, err: nat): State {
    s.(clientOut := s.clientOut + [Error(client, nl.nlSeq, err)])
  }

  // -------------------------------------------------------- client requests

  /** process_iwpm_add_mapping */
  function AddMapping(s: State, client: nat, nl: NlHdr, local: SockAddr, noPortMap: bool, env: AddEnv): State
    requires Linked(s.ports, s.mappedPorts)
  {
    if !env.parseOk then SendError(s, client, nl, INVALID_NLMSG_ERR)
    else
      var found := Find(s.ports, s.mappedPorts, local, true);
      if found.Some? then
        var p := s.ports[found.value];
        if Same(local, p.local) && p.wcard
        then AddReply(AddRef(s, found.value), found.value, nl, env.replyOk)
        else SendError(s, client, nl, DUPLICATE_MAPPING_ERR)
      else
        var p := CreatePort(client, local, noPortMap, env.tcp);
        if p.None? || env.portId.None? then SendError(s, client, nl, CREATE_MAPPING_ERR)
        else AddReply(s.(ports := s.ports[env.portId.value := p.value]), env.portId.value, nl, env.replyOk)
  }

  function AddReply(s: State, id: PortId, nl: NlHdr, replyOk: bool): State
    requires id in s.ports
  {
    if !replyOk then DropRef(s, id)
    else
      var p := s.ports[id];
      AddToList(s, id).(clientOut := s.clientOut + [MapReply(nl, p.local, p.mapped)])
  }

  /** The request message of process_iwpm_query_mapping. */
  function QueryParms(local: SockAddr, remote: SockAddr, mapped: SockAddr, assoc: U64): (m: Parms)
    requires Inet(remote.family)
    ensures m.WellFormed() && m.mt == MT_REQ && m.Family() == remote.family && m.assoc == assoc
    ensures m.Ap() == View(remote.family, remote) && m.Cp() == View(remote.family, local)
    ensures m.MappedCp() == View(remote.family, mapped)
  {
    var f := remote.family;
    Parms(if f == AF_INET then 4 else 6,
          ToIp(f, remote, ANY16), remote.port, ToIp(f, local, ANY16), local.port,
          ToIp(f, mapped, ANY16), mapped.port, 0, MT_REQ, 0, assoc)
  }

  /** create_iwpm_map_request */
  function NewRequest(id: ReqId, addr: Handle, kind: Kind, src: SockAddr, remote: SockAddr,
                      nl: NlHdr, assoc: U64, sendMsg: Option<SendMsg>): Request {
    Request(id, kind, src, remote, nl, if assoc == 0 then addr else assoc, sendMsg,
            MAP_REQ_TIMEOUT, false)
  }

  /** process_iwpm_query_mapping up to the point where the mapping is held. */
  function QueryMapping(s: State, client: nat, nl: NlHdr, local: SockAddr, remote: SockAddr,
                        noPortMap: bool, env: QueryEnv): State
    requires Linked(s.ports, s.mappedPorts)
  {
    if !env.parseOk then SendError(s, client, nl, INVALID_NLMSG_ERR)
    else
      var found := Find(s.ports, s.mappedPorts, local, true);
      if found.Some? then QueryHeld(AddRef(s, found.value), found.value, client, nl, local, remote, env)
      else
        var p := CreatePort(client, local, noPortMap, env.tcp);
        if p.None? || env.portId.None? then SendError(s, client, nl, CREATE_MAPPING_ERR)
        else QueryHeld(s.(ports := s.ports[env.portId.value := p.value]), env.portId.value,
                       client, nl, local, remote, env)
  }

  /** The rest: refuse a wildcard mapping, or post the request and send it. */
  function QueryHeld(s: State, id: PortId, client: nat, nl: NlHdr, local: SockAddr,
                     remote: SockAddr, env: QueryEnv): State
    requires id in s.ports
  {
    if s.ports[id].wcard then SendError(DropRef(s, id), client, nl, CREATE_MAPPING_ERR)
    else if !Inet(remote.family) || !env.sendOk || env.reqId.None? then DropRef(s, id)
    else
      var r := QueryRequest(s.ports[id], env.reqId.value, env.addr, nl, local, remote);
      AddToList(s, id).(reqs := [r] + s.reqs,
                        wireOut := if env.pendingOk then s.wireOut + [r.sendMsg.value] else s.wireOut)
  }

  function QueryRequest(p: MappedPort, id: ReqId, addr: Handle, nl: NlHdr, local: SockAddr,
                        remote: SockAddr): (r: Request)
    requires Inet(remote.family)
    ensures r.sendMsg.Some?
  {
    var msg := SendMsg(ToHost(remote.(port := IWARP_PM_PORT)),
                       Form(QueryParms(local, remote, p.mapped, addr)));
    NewRequest(id, addr, Query, p.local, remote, nl, 0, Some(msg))
  }

  /** process_iwpm_remove_mapping */
  function RemoveMapping(s: State, client: nat, nl: NlHdr, local: SockAddr, parseOk: bool): State
    requires Linked(s.ports, s.mappedPorts)
  {
    if !parseOk then SendError(s, client, nl, INVALID_NLMSG_ERR)
    else
      var found := FindSame(s.ports, s.mappedPorts, local, true);
      if found.None? || s.ports[found.value].owner != client then s
      else if s.ports[found.value].refCnt == 1
      then DropRef(s, found.value).(mappedPorts := Without(s.mappedPorts, found.value))
      else DropRef(s, found.value)
  }

  /** process_iwpm_mapinfo */
  function MapInfo(s: State, client: nat, nl: NlHdr, local: SockAddr, mapped: SockAddr,
                   noPortMap: bool, env: AddEnv): State
    requires Linked(s.ports, s.mappedPorts)
  {
    if !env.parseOk then SendError(s, client, nl, INVALID_NLMSG_ERR)
    else
      var found := Find(s.ports, s.mappedPorts, local, true);
      if found.Some? then
        var p := s.ports[found.value];
        if Same(p.local, local) && Same(p.mapped, mapped) then s
        else SendError(s, client, nl, DUPLICATE_MAPPING_ERR)
      else
        var p := ReopenPort(client, local, mapped, noPortMap, env.tcp);
        if p.None? || env.portId.None? then SendError(s, client, nl, CREATE_MAPPING_ERR)
        else AddToList(s.(ports := s.ports[env.portId.value := p.value]), env.portId.value)
  }

  // ------------------------------------------------------- tracking objects

  predicate Tracks(r: Request, assoc: U64, src: SockAddr, kinds: set<Kind>) {
    r.assoc == assoc && r.kind in kinds && Same(src, r.src)
  }

  /** The search of update_iwpm_map_request: the index of the first match, or the
      length of the list. */
  function FindReq(reqs: seq<Request>, assoc: U64, src: SockAddr, kinds: set<Kind>): (i: nat)
    ensures i <= |reqs|
    ensures i < |reqs| ==> Tracks(reqs[i], assoc, src, kinds)
    ensures forall j :: 0 <= j < i ==> !Tracks(reqs[j], assoc, src, kinds)
  {
    if reqs == [] || Tracks(reqs[0], assoc, src, kinds) then 0
    else 1 + FindReq(reqs[1..], assoc, src, kinds)
  }

  lemma {:induction false} FindReqFirst(reqs: seq<Request>, assoc: U64, src: SockAddr, kinds: set<Kind>, i: nat)
    requires i <= |reqs| && forall j :: 0 <= j < i ==> !Tracks(reqs[j], assoc, src, kinds)
    requires i < |reqs| ==> Tracks(reqs[i], assoc, src, kinds)
    ensures FindReq(reqs, assoc, src, kinds) == i
  {
    if i > 0 {
      forall j | 0 <= j < i - 1 ensures !Tracks(reqs[1..][j], assoc, src, kinds) { assert reqs[1..][j] == reqs[j + 1]; }
      FindReqFirst(reqs[1..], assoc, src, kinds, i - 1);
    }
  }

  /** The update of update_iwpm_map_request on the object found. */
  function Serviced(r: Request): Request {
    if r.complete then r
    else if r.kind == Ack then r.(timeout := MAP_REQ_TIMEOUT, complete := false)
    else r.(timeout := 0, complete := true)
  }

  // ----------------------------------------------------------- wire messages

  function Send(s: State, from: Peer, m: Parms, ok: bool): State {
    if ok then s.(wireOut := s.wireOut + [SendMsg(ToPeer(from), Form(m))]) else s
  }

  /** The accept message for mapping `p`: a wildcard mapping keeps the requested IP
      address and changes the port, another one gives its whole mapped address. */
  function AcceptParms(m: Parms, p: MappedPort): (r: Parms)
    requires m.WellFormed()
    ensures r.WellFormed() && r.ipVer == m.ipVer
  {
    if p.wcard then m.(apport := Port(p.mapped))
    else m.(apip := ToIp(m.Family(), p.mapped, m.apip), apport := p.mapped.port)
  }

  /** What the accepting client is told of a request. */
  function Introduction(p: MappedPort, m: Parms): NlMsg
    requires m.WellFormed()
  {
    RemoteInfo(p.owner, p.local, m.Cp(), p.mapped, m.MappedCp())
  }

  /** process_iwpm_wire_request.  Its two critical sections are one step: the first
      only reads, and the timer never makes a missing tracking object appear. */
  function WireRequest(s: State, m: Parms, from: Peer, env: WireEnv): State
    requires Linked(s.ports, s.mappedPorts) && m.WellFormed()
  {
    var found := Find(s.ports, s.mappedPorts, m.Ap(), true);
    if found.None? then Send(s, from, m.(mt := MT_REJ), env.pendingOk)
    else RequestMatched(s, s.ports[found.value], m, from, env)
  }

  /** The rest, for mapping `p`: post and send an accept, unless there is one already. */
  function RequestMatched(s: State, p: MappedPort, m: Parms, from: Peer, env: WireEnv): State
    requires m.WellFormed()
  {
    var acc := AcceptParms(m, p);
    if FindReq(s.reqs, m.assoc, acc.Ap(), {Accept}) < |s.reqs| then s
    else if !env.sendOk || env.reqId.None? then s
    else
      var msg := SendMsg(ToPeer(from), Form(acc.(mt := MT_ACC)));
      var r := NewRequest(env.reqId.value, env.addr, Accept, acc.Ap(), m.Cp(), NlHdr(0, 0, 0), m.assoc, Some(msg));
      s.(reqs := [r] + s.reqs,
         wireOut := if env.pendingOk then s.wireOut + [msg] else s.wireOut,
         clientOut := if env.pendingOk && env.nlOk
         then s.clientOut + [Introduction(p, m)]
         else s.clientOut)
  }

  /** process_iwpm_wire_accept up to the end of its first critical section; a
      repeated accept is acknowledged again at once. */
  function AcceptBegin(s: State, m: Parms, from: Peer, env: WireEnv): State
    requires Linked(s.ports, s.mappedPorts) && m.WellFormed()
  {
    var found := FindSame(s.ports, s.mappedPorts, m.Cp(), true);
    if found.None? then s else AcceptMatched(s, found.value, s.ports[found.value], m, from, env)
  }

  function AcceptMatched(s: State, id: PortId, p: MappedPort, m: Parms, from: Peer, env: WireEnv): State
    requires m.WellFormed()
  {
    var i := FindReq(s.reqs, m.assoc, p.local, {Query, Ack});
    if i == |s.reqs| || s.reqs[i].complete then s
    else
      var s' := s.(reqs := s.reqs[i := Serviced(s.reqs[i])]);
      if s.reqs[i].kind == Ack then Send(s', from, m.(mt := MT_ACK), env.pendingOk)
      else s'.(main := Accepted(s.reqs[i], id, m, from))
  }

  /** The rest of process_iwpm_wire_accept: answer the client, post the object that
      recognises repeated accepts, acknowledge. */
  function AcceptEnd(s: State, env: WireEnv): State
    requires s.main.Accepted? && s.main.port in s.ports && s.main.m.WellFormed()
  {
    var Accepted(copy, id, m, from) := s.main;
    var p := s.ports[id];
    var s0 := s.(main := Idle);
    if !env.nlOk then s0
    else
      var s1 := s0.(clientOut := s.clientOut + [SuccessInfo(copy, p, m)]);
      if env.reqId.None? then s1
      else
        var r := NewRequest(env.reqId.value, env.addr, Ack, copy.src, copy.remote, NlHdr(0, 0, 0),
                            copy.assoc, None);
        Send(s1.(reqs := [r] + s.reqs), from, m.(mt := MT_ACK), env.pendingOk)
  }

  function SuccessInfo(copy: Request, p: MappedPort, m: Parms): NlMsg
    requires m.WellFormed()
  {
    ConnInfo(copy.id, copy.nl, p.owner, p.local, copy.remote, p.mapped, m.Ap(), 0)
  }

  /** process_iwpm_wire_reject */
  function WireReject(s: State, m: Parms, env: WireEnv): State
    requires Linked(s.ports, s.mappedPorts) && m.WellFormed()
  {
    var found := FindSame(s.ports, s.mappedPorts, m.Cp(), true);
    if found.None? then s else RejectMatched(s, s.ports[found.value], m, env)
  }

  function RejectMatched(s: State, p: MappedPort, m: Parms, env: WireEnv): State {
    var i := FindReq(s.reqs, m.assoc, p.local, {Query});
    if i == |s.reqs| || s.reqs[i].complete then s
    else
      var r := s.reqs[i];
      s.(reqs := s.reqs[i := Serviced(r)],
         clientOut := if env.nlOk then s.clientOut + [RejectInfo(r, p)] else s.clientOut)
  }

  function RejectInfo(r: Request, p: MappedPort): NlMsg {
    ConnInfo(r.id, r.nl, p.owner, p.local, r.remote, p.mapped, r.remote, REMOTE_QUERY_REJECT)
  }

  /** process_iwpm_wire_ack */
  function WireAck(s: State, m: Parms): State
    requires Linked(s.ports, s.mappedPorts) && m.WellFormed()
  {
    var found := Find(s.ports, s.mappedPorts, m.Ap(), false);
    if found.None? then s
    else
      var i := FindReq(s.reqs, m.assoc, m.Ap(), {Accept});
      if i == |s.reqs| then s else s.(reqs := s.reqs[i := Serviced(s.reqs[i])])
  }

  /** The dispatch of process_iwpm_msg. */
  function Dispatch(s: State, m: Parms, from: Peer, env: WireEnv): State
    requires Linked(s.ports, s.mappedPorts) && m.WellFormed()
  {
    if m.mt == MT_REQ then WireRequest(s, m, from, env)
    else if m.mt == MT_ACK then WireAck(s, m)
    else if m.mt == MT_ACC then AcceptBegin(s, m, from, env)
    else WireReject(s, m, env)
  }

  /** process_iwpm_msg */
  function Receive(s: State, data: seq<U8>, from: Peer, env: WireEnv): State
    requires Linked(s.ports, s.mappedPorts)
  {
    ParseDefined(data);
    match Parse(data)
    case None => s
    case Some(m) => Dispatch(s, m, from, env)
  }

  // ---------------------------------------------------------------- the timer

  /** A request that the timer sends again in this pass. */
  predicate Resends(r: Request) {
    0 < r.timeout < MAP_REQ_TIMEOUT && r.kind != Ack
  }

  /** Whatever is due to be sent again has a message. */
  predicate SendsReady(reqs: seq<Request>) {
    forall i :: 0 <= i < |reqs| && Resends(reqs[i]) ==> reqs[i].sendMsg.Some?
  }

  /** One pass of iwpm_mapping_reqs_handler over the list. */
  function Aged(reqs: seq<Request>): seq<Request> {
    if reqs == [] then []
    else if reqs[0].timeout > 0
    then [reqs[0].(timeout := reqs[0].timeout - 1)] + Aged(reqs[1..])
    else Aged(reqs[1..])
  }

  function Resent(reqs: seq<Request>): seq<SendMsg>
    requires forall i :: 0 <= i < |reqs| && Resends(reqs[i]) ==> reqs[i].sendMsg.Some?
  {
    if reqs == [] then []
    else (if Resends(reqs[0]) then [reqs[0].sendMsg.value] else []) + Resent(reqs[1..])
  }

  function Tick(s: State): State
    requires forall i :: 0 <= i < |s.reqs| && Resends(s.reqs[i]) ==> s.reqs[i].sendMsg.Some?
  {
    s.(reqs := Aged(s.reqs), wireOut := s.wireOut + Resent(s.reqs))
  }

  // ------------------------------------------------------------ one event

  /** What the C code dereferences without a test: the objects on the list, the
      mapping an accept was matched with, the buffer of a message to resend. */
  predicate Safe(s: State) {
    && Linked(s.ports, s.mappedPorts)
    && (s.main.Accepted? ==> s.main.port in s.ports && s.main.m.WellFormed())
    && forall i :: 0 <= i < |s.reqs| && Resends(s.reqs[i]) ==> s.reqs[i].sendMsg.Some?
  }

  /** The tracking object that malloc gives an event, if any. */
  function ReqIdOf(e: Event): Option<ReqId> {
    match e
    case EvQuery(_, _, _, _, _, env) => env.reqId
    case EvRecv(_, _, env) => env.reqId
    case EvFinishAccept(env) => env.reqId
    case _ => None
  }

  function PortIdOf(e: Event): Option<PortId> {
    match e
    case EvAdd(_, _, _, _, env) => env.portId
    case EvQuery(_, _, _, _, _, env) => env.portId
    case EvMapInfo(_, _, _, _, _, env) => env.portId
    case _ => None
  }

  /** The main thread takes one message at a time; the timer runs at any moment;
      malloc gives memory that is not in use. */
  predicate Enabled(s: State, e: Event) {
    && (e.EvFinishAccept? ==> s.main.Accepted?)
    && (!e.EvFinishAccept? && !e.EvTick? ==> s.main.Idle?)
    && (PortIdOf(e).Some? ==> PortIdOf(e).value !in s.ports)
  }

  function HandleEvent(s: State, e: Event): State
    requires Safe(s) && Enabled(s, e)
  {
    match e
    case EvAdd(client, nl, local, noPortMap, env) => AddMapping(s, client, nl, local, noPortMap, env)
    case EvQuery(client, nl, local, remote, noPortMap, env) =>
      QueryMapping(s, client, nl, local, remote, noPortMap, env)
    case EvRemove(client, nl, local, parseOk) => RemoveMapping(s, client, nl, local, parseOk)
    case EvMapInfo(client, nl, local, mapped, noPortMap, env) =>
      MapInfo(s, client, nl, local, mapped, noPortMap, env)
    case EvRecv(data, from, env) => Receive(s, data, from, env)
    case EvFinishAccept(env) => AcceptEnd(s, env)
    case EvTick => Tick(s)
  }

  /** One event; None is a crash. */
  function Next(s: State, e: Event): Option<State>
    requires Enabled(s, e)
  {
    if Safe(s) then Some(HandleEvent(s, e)) else None
  }
}
