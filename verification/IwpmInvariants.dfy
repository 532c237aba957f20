/** What every event of a port mapper daemon keeps. */
module IwpmInvariants {
  import opened IwpmAddr
  import opened IwpmWire
  import opened IwpmState

  /** Two mappings that a lookup of some local address could not tell apart. */
  predicate Conflict(p: MappedPort, q: MappedPort) {
    Port(p.local) == Port(q.local) && (Same(p.local, q.local) || p.wcard || q.wcard)
  }

  predicate NoDup(ids: seq<PortId>) {
    forall i, j :: 0 <= i < j < |ids| ==> ids[i] != ids[j]
  }

  predicate NoConflict(ports: map<PortId, MappedPort>, ids: seq<PortId>)
    requires Linked(ports, ids)
  {
    forall i, j :: 0 <= i < j < |ids| ==> !Conflict(ports[ids[i]], ports[ids[j]])
  }

  /** Exactly the allocated objects are listed, each once, each held at least once,
      and no two of them conflict. */
  ghost predicate TableOk(ports: map<PortId, MappedPort>, ids: seq<PortId>) {
    && (forall id :: id in ports <==> id in ids)
    && NoDup(ids)
    && (forall id :: id in ports ==> ports[id].refCnt >= 1 && ports[id].wcard == IsWildcard(ports[id].local))
    && NoConflict(ports, ids)
  }

  predicate ReqOk(r: Request) {
    && 0 <= r.timeout <= MAP_REQ_TIMEOUT
    && (r.kind != Ack ==> r.sendMsg.Some?)
    && (r.complete ==> r.timeout == 0 && r.kind != Ack)
  }

  predicate ReqsOk(reqs: seq<Request>) {
    forall i :: 0 <= i < |reqs| ==> ReqOk(reqs[i])
  }

  predicate MainOk(s: State) {
    s.main.Accepted? ==> s.main.port in s.ports && s.main.m.WellFormed() && s.main.copy.kind == Query
  }

  ghost predicate Valid(s: State) {
    TableOk(s.ports, s.mappedPorts) && ReqsOk(s.reqs) && MainOk(s)
  }

  // ------------------------------------------------------------ the table

  /** Adding a fresh object that no lookup of its local address hits. */
  lemma TableInsert(ports: map<PortId, MappedPort>, ids: seq<PortId>, id: PortId, p: MappedPort)
    requires TableOk(ports, ids) && id !in ports
    requires p.refCnt == 1 && p.wcard == IsWildcard(p.local)
    requires Find(ports, ids, p.local, true).None?
    ensures TableOk(ports[id := p], [id] + ids)
  {
    var ports', ids' := ports[id := p], [id] + ids;
    forall i, j | 0 <= i < j < |ids'| ensures ids'[i] != ids'[j] && !Conflict(ports'[ids'[i]], ports'[ids'[j]]) {
      assert ids'[j] == ids[j - 1];
      if i == 0 { assert !Hit(ports[ids[j - 1]], p.local, true); }
    }
  }

  lemma TableSetRef(ports: map<PortId, MappedPort>, ids: seq<PortId>, id: PortId, n: int)
    requires TableOk(ports, ids) && id in ports && n >= 1
    ensures TableOk(ports[id := ports[id].(refCnt := n)], ids)
  {
    var ports' := ports[id := ports[id].(refCnt := n)];
    assert forall x :: x in ports' <==> x in ports;
    assert Linked(ports', ids) by {
      forall i | 0 <= i < |ids| ensures ids[i] in ports' { assert ids[i] in ids; }
    }
    forall i, j | 0 <= i < j < |ids| ensures !Conflict(ports'[ids[i]], ports'[ids[j]]) {
      assert !Conflict(ports[ids[i]], ports[ids[j]]);
    }
  }

  lemma {:induction false} WithoutKeeps(ports: map<PortId, MappedPort>, ids: seq<PortId>, id: PortId)
    requires Linked(ports, ids) && NoDup(ids) && NoConflict(ports, ids)
    ensures Linked(ports, Without(ids, id)) && NoDup(Without(ids, id)) && NoConflict(ports, Without(ids, id))
  {
    if ids != [] {
      var rest := Without(ids[1..], id);
      WithoutKeeps(ports, ids[1..], id);
      if ids[0] != id {
        var r := [ids[0]] + rest;
        forall i, j | 0 <= i < j < |r| ensures r[i] != r[j] && !Conflict(ports[r[i]], ports[r[j]]) {
          if i == 0 {
            assert rest[j - 1] in ids[1..];
            var k :| 0 <= k < |ids[1..]| && ids[1..][k] == rest[j - 1];
            assert ids[0] != ids[k + 1] && !Conflict(ports[ids[0]], ports[ids[k + 1]]);
          }
        }
      }
    }
  }

  lemma TableRemove(ports: map<PortId, MappedPort>, ids: seq<PortId>, id: PortId)
    requires TableOk(ports, ids) && id in ports
    ensures TableOk(ports - {id}, Without(ids, id))
  {
    WithoutKeeps(ports, ids, id);
    var ids' := Without(ids, id);
    forall i | 0 <= i < |ids'| ensures ids'[i] in ports - {id} { assert ids'[i] in ids'; }
    forall i, j | 0 <= i < j < |ids'| ensures !Conflict((ports - {id})[ids'[i]], (ports - {id})[ids'[j]]) {
      assert !Conflict(ports[ids'[i]], ports[ids'[j]]);
    }
  }

  /** In a consistent table at most one mapping answers the lookup of a local
      address that is not a wildcard. */
  lemma HitUnique(ports: map<PortId, MappedPort>, ids: seq<PortId>, search: SockAddr, a: PortId, b: PortId)
    requires TableOk(ports, ids) && !IsWildcard(search)
    requires a in ids && b in ids && Hit(ports[a], search, true) && Hit(ports[b], search, true)
    ensures a == b
  {
    if a != b {
      var i :| 0 <= i < |ids| && ids[i] == a;
      var j :| 0 <= j < |ids| && ids[j] == b;
      assert Conflict(ports[a], ports[b]) && Conflict(ports[b], ports[a]);
    }
  }

  /** So the answer does not depend on the order of the list. */
  lemma FindOrderIrrelevant(ports: map<PortId, MappedPort>, ids: seq<PortId>, other: seq<PortId>, search: SockAddr)
    requires TableOk(ports, ids) && !IsWildcard(search)
    requires forall id :: id in other <==> id in ids
    ensures Linked(ports, other)
    ensures Find(ports, other, search, true) == Find(ports, ids, search, true)
  {
    forall i | 0 <= i < |other| ensures other[i] in ports { assert other[i] in other; }
    var x, y := Find(ports, other, search, true), Find(ports, ids, search, true);
    if x.Some? && y.Some? { HitUnique(ports, ids, search, x.value, y.value); }
  }

  // -------------------------------------------------------- client requests

  /** Taking a reference and giving it back on an error path changes nothing. */
  lemma UnwindHeld(s: State, id: PortId)
    requires id in s.ports && s.ports[id].refCnt >= 1
    ensures DropRef(AddRef(s, id), id) == s
  {
    assert DropRef(AddRef(s, id), id).ports == s.ports;
  }

  /** Nor does creating an object and freeing it again. */
  lemma UnwindNew(s: State, id: PortId, p: MappedPort)
    requires id !in s.ports && p.refCnt == 1
    ensures DropRef(s.(ports := s.ports[id := p]), id) == s
  {
    assert DropRef(s.(ports := s.ports[id := p]), id).ports == s.ports;
  }

  lemma AddMappingKeeps(s: State, client: nat, nl: NlHdr, local: SockAddr, noPortMap: bool, env: AddEnv)
    requires Valid(s) && s.main.Idle? && (env.portId.Some? ==> env.portId.value !in s.ports)
    ensures Valid(AddMapping(s, client, nl, local, noPortMap, env))
  {
    if env.parseOk {
      var found := Find(s.ports, s.mappedPorts, local, true);
      if found.Some? {
        TableSetRef(s.ports, s.mappedPorts, found.value, s.ports[found.value].refCnt + 1);
        UnwindHeld(s, found.value);
      } else {
        var p := CreatePort(client, local, noPortMap, env.tcp);
        if p.Some? && env.portId.Some? {
          TableInsert(s.ports, s.mappedPorts, env.portId.value, p.value);
          UnwindNew(s, env.portId.value, p.value);
        }
      }
    }
  }

  lemma ReqsCons(r: Request, reqs: seq<Request>)
    requires ReqOk(r) && ReqsOk(reqs)
    ensures ReqsOk([r] + reqs)
  {
  }

  /** All that a query does outside the table: it reports an error, or it posts one
      request and perhaps sends its message, or it does nothing. */
  ghost predicate QueryShape(s: State, e: Event, s': State)
    requires e.EvQuery?
  {
    && s'.main == s.main
    && (s'.clientOut == s.clientOut
        || exists err :: s'.clientOut == s.clientOut + [Error(e.client, e.nl.nlSeq, err)])
    && ((s'.reqs == s.reqs && s'.wireOut == s.wireOut)
        || (Inet(e.remote.family) && e.queryEnv.reqId.Some?
            && exists id :: ListedFor(s', id, e.local) && Posted(s, e, s'.ports[id], s')))
  }

  predicate Posted(s: State, e: Event, p: MappedPort, s': State)
    requires e.EvQuery? && Inet(e.remote.family) && e.queryEnv.reqId.Some?
  {
    var r := QueryRequest(p, e.queryEnv.reqId.value, e.queryEnv.addr, e.nl, e.local, e.remote);
    s'.reqs == [r] + s.reqs && (s'.wireOut == s.wireOut || s'.wireOut == s.wireOut + [r.sendMsg.value])
  }

  /** Mapping `id`, which is not a wildcard's, is listed for `local`: a lookup gives it, or it
      was made for that address. */
  predicate ListedFor(s: State, id: PortId, local: SockAddr) {
    && id in s.mappedPorts && id in s.ports && !s.ports[id].wcard
    && (Hit(s.ports[id], local, true) || s.ports[id].local == local)
  }

  /** A step that leaves the requests, the network and the main thread alone, and gives no
      result to a client. */
  ghost predicate TableOnly(s: State, s': State) {
    && s'.reqs == s.reqs && s'.wireOut == s.wireOut && s'.main == s.main
    && (s'.clientOut == s.clientOut
        || exists m :: s'.clientOut == s.clientOut + [m] && !m.ConnInfo? && !m.RemoteInfo?)
  }

  lemma AddShape(s: State, e: Event)
    requires e.EvAdd? && Linked(s.ports, s.mappedPorts)
    ensures TableOnly(s, AddMapping(s, e.client, e.nl, e.local, e.noPortMap, e.addEnv))
  {
  }

  lemma TableShape(s: State, e: Event)
    requires Safe(s) && Enabled(s, e) && (e.EvAdd? || e.EvRemove? || e.EvMapInfo?)
    ensures TableOnly(s, HandleEvent(s, e))
  {
    if e.EvAdd? { AddShape(s, e); }
  }

  /** Mapping `id` is held for `local`, and listed unless it is new. */
  predicate HeldFor(s: State, id: PortId, local: SockAddr) {
    && id in s.ports && (id in s.mappedPorts || s.ports[id].refCnt <= 1)
    && (Hit(s.ports[id], local, true) || s.ports[id].local == local)
  }

  lemma QueryHeldShape(s: State, id: PortId, e: Event)
    requires e.EvQuery? && HeldFor(s, id, e.local)
    ensures QueryShape(s, e, QueryHeld(s, id, e.client, e.nl, e.local, e.remote, e.queryEnv))
  {
    var s' := QueryHeld(s, id, e.client, e.nl, e.local, e.remote, e.queryEnv);
    if s'.reqs != s.reqs || s'.wireOut != s.wireOut {
      assert ListedFor(s', id, e.local) && Posted(s, e, s'.ports[id], s');
    }
  }

  lemma QueryMappingShape(s: State, e: Event)
    requires e.EvQuery? && Linked(s.ports, s.mappedPorts)
    ensures QueryShape(s, e, QueryMapping(s, e.client, e.nl, e.local, e.remote, e.noPortMap, e.queryEnv))
  {
    var env := e.queryEnv;
    var found := Find(s.ports, s.mappedPorts, e.local, true);
    if env.parseOk && found.Some? { ShapeOfHeld(s, AddRef(s, found.value), found.value, e); }
    else {
      var p := CreatePort(e.client, e.local, e.noPortMap, env.tcp);
      if env.parseOk && p.Some? && env.portId.Some? {
        ShapeOfHeld(s, s.(ports := s.ports[env.portId.value := p.value]), env.portId.value, e);
      }
    }
  }

  lemma ShapeOfHeld(s0: State, s: State, id: PortId, e: Event)
    requires e.EvQuery? && HeldFor(s, id, e.local) && s == s0.(ports := s.ports)
    ensures QueryShape(s0, e, QueryHeld(s, id, e.client, e.nl, e.local, e.remote, e.queryEnv))
  {
    QueryHeldShape(s, id, e);
    var s' := QueryHeld(s, id, e.client, e.nl, e.local, e.remote, e.queryEnv);
    if s'.reqs != s.reqs || s'.wireOut != s.wireOut {
      var id' :| ListedFor(s', id', e.local) && Posted(s, e, s'.ports[id'], s');
      assert Posted(s0, e, s'.ports[id'], s');
    }
  }

  /** `s0` is the state before the mapping was taken, `s` the state that holds it. */
  lemma QueryHeldKeeps(s0: State, s: State, id: PortId, client: nat, nl: NlHdr, local: SockAddr,
                       remote: SockAddr, env: QueryEnv)
    requires Valid(s0) && s.main.Idle? && id in s.ports && s.reqs == s0.reqs
    requires DropRef(s, id) == s0
    requires TableOk(AddToList(s, id).ports, AddToList(s, id).mappedPorts)
    ensures Valid(QueryHeld(s, id, client, nl, local, remote, env))
  {
    if !s.ports[id].wcard && Inet(remote.family) && env.sendOk && env.reqId.Some? {
      ReqsCons(QueryRequest(s.ports[id], env.reqId.value, env.addr, nl, local, remote), s.reqs);
    }
  }

  lemma QueryFoundKeeps(s: State, id: PortId, client: nat, nl: NlHdr, local: SockAddr,
                        remote: SockAddr, env: QueryEnv)
    requires Valid(s) && s.main.Idle? && id in s.ports
    ensures Valid(QueryHeld(AddRef(s, id), id, client, nl, local, remote, env))
  {
    TableSetRef(s.ports, s.mappedPorts, id, s.ports[id].refCnt + 1);
    UnwindHeld(s, id);
    QueryHeldKeeps(s, AddRef(s, id), id, client, nl, local, remote, env);
  }

  lemma QueryNewKeeps(s: State, id: PortId, p: MappedPort, client: nat, nl: NlHdr, local: SockAddr,
                      remote: SockAddr, env: QueryEnv)
    requires Valid(s) && s.main.Idle? && id !in s.ports
    requires p.refCnt == 1 && p.wcard == IsWildcard(p.local)
    requires Find(s.ports, s.mappedPorts, p.local, true).None?
    ensures Valid(QueryHeld(s.(ports := s.ports[id := p]), id, client, nl, local, remote, env))
  {
    TableInsert(s.ports, s.mappedPorts, id, p);
    UnwindNew(s, id, p);
    QueryHeldKeeps(s, s.(ports := s.ports[id := p]), id, client, nl, local, remote, env);
  }

  lemma QueryMappingKeeps(s: State, client: nat, nl: NlHdr, local: SockAddr, remote: SockAddr,
                          noPortMap: bool, env: QueryEnv)
    requires Valid(s) && s.main.Idle? && (env.portId.Some? ==> env.portId.value !in s.ports)
    ensures Valid(QueryMapping(s, client, nl, local, remote, noPortMap, env))
  {
    var found := Find(s.ports, s.mappedPorts, local, true);
    if found.Some? {
      QueryFoundKeeps(s, found.value, client, nl, local, remote, env);
    } else {
      var p := CreatePort(client, local, noPortMap, env.tcp);
      if p.Some? && env.portId.Some? {
        QueryNewKeeps(s, env.portId.value, p.value, client, nl, local, remote, env);
      }
    }
  }

  lemma RemoveMappingKeeps(s: State, client: nat, nl: NlHdr, local: SockAddr, parseOk: bool)
    requires Valid(s) && s.main.Idle?
    ensures Valid(RemoveMapping(s, client, nl, local, parseOk))
  {
    var found := FindSame(s.ports, s.mappedPorts, local, true);
    if parseOk && found.Some? {
      if s.ports[found.value].refCnt == 1 { TableRemove(s.ports, s.mappedPorts, found.value); }
      else { TableSetRef(s.ports, s.mappedPorts, found.value, s.ports[found.value].refCnt - 1); }
    }
  }

  lemma MapInfoKeeps(s: State, client: nat, nl: NlHdr, local: SockAddr, mapped: SockAddr,
                     noPortMap: bool, env: AddEnv)
    requires Valid(s) && s.main.Idle? && (env.portId.Some? ==> env.portId.value !in s.ports)
    ensures Valid(MapInfo(s, client, nl, local, mapped, noPortMap, env))
  {
    var p := ReopenPort(client, local, mapped, noPortMap, env.tcp);
    if Find(s.ports, s.mappedPorts, local, true).None? && p.Some? && env.portId.Some? {
      TableInsert(s.ports, s.mappedPorts, env.portId.value, p.value);
    }
  }

  // ----------------------------------------------- wire messages and the timer

  lemma ServicedOk(reqs: seq<Request>, i: nat)
    requires ReqsOk(reqs) && i < |reqs|
    ensures ReqsOk(reqs[i := Serviced(reqs[i])])
  {
    assert ReqOk(reqs[i]);
  }

  predicate SameTable(s: State, s': State) {
    s'.ports == s.ports && s'.mappedPorts == s.mappedPorts
  }

  lemma WireRequestKeeps(s: State, m: Parms, from: Peer, env: WireEnv)
    requires Valid(s) && s.main.Idle? && m.WellFormed()
    ensures var s' := WireRequest(s, m, from, env);
            Valid(s') && SameTable(s, s')
  {
    var s' := WireRequest(s, m, from, env);
    if s'.reqs != s.reqs {
      assert s'.reqs[1..] == s.reqs;
      ReqsCons(s'.reqs[0], s.reqs);
    }
  }

  lemma AcceptBeginKeeps(s: State, m: Parms, from: Peer, env: WireEnv)
    requires Valid(s) && s.main.Idle? && m.WellFormed()
    ensures var s' := AcceptBegin(s, m, from, env);
            Valid(s') && SameTable(s, s')
  {
    var found := FindSame(s.ports, s.mappedPorts, m.Cp(), true);
    if found.Some? {
      var i := FindReq(s.reqs, m.assoc, s.ports[found.value].local, {Query, Ack});
      if i < |s.reqs| { ServicedOk(s.reqs, i); }
    }
  }

  lemma WireRejectKeeps(s: State, m: Parms, env: WireEnv)
    requires Valid(s) && s.main.Idle? && m.WellFormed()
    ensures var s' := WireReject(s, m, env);
            Valid(s') && SameTable(s, s')
  {
    var found := FindSame(s.ports, s.mappedPorts, m.Cp(), true);
    if found.Some? {
      var i := FindReq(s.reqs, m.assoc, s.ports[found.value].local, {Query});
      if i < |s.reqs| { ServicedOk(s.reqs, i); }
    }
  }

  lemma WireAckKeeps(s: State, m: Parms)
    requires Valid(s) && s.main.Idle? && m.WellFormed()
    ensures var s' := WireAck(s, m);
            Valid(s') && SameTable(s, s')
  {
    var i := FindReq(s.reqs, m.assoc, m.Ap(), {Accept});
    if i < |s.reqs| { ServicedOk(s.reqs, i); }
  }

  lemma ReceiveKeeps(s: State, data: seq<U8>, from: Peer, env: WireEnv)
    requires Valid(s) && s.main.Idle?
    ensures var s' := Receive(s, data, from, env);
            Valid(s') && SameTable(s, s')
  {
    ParseDefined(data);
    match Parse(data)
    case None =>
    case Some(m) =>
      WireRequestKeeps(s, m, from, env);
      WireAckKeeps(s, m);
      AcceptBeginKeeps(s, m, from, env);
      WireRejectKeeps(s, m, env);
  }

  lemma {:induction false} AgedOk(reqs: seq<Request>)
    requires ReqsOk(reqs)
    ensures ReqsOk(Aged(reqs))
  {
    if reqs != [] {
      assert ReqOk(reqs[0]);
      AgedOk(reqs[1..]);
    }
  }

  lemma ValidIsSafe(s: State)
    requires Valid(s)
    ensures Safe(s)
  {
    forall i | 0 <= i < |s.reqs| && Resends(s.reqs[i]) ensures s.reqs[i].sendMsg.Some? { assert ReqOk(s.reqs[i]); }
  }

  /** A valid daemon survives every event, and is valid after it. */
  lemma EventKeepsValid(s: State, e: Event)
    requires Valid(s) && Enabled(s, e)
    ensures Next(s, e).Some? && Valid(Next(s, e).value)
  {
    ValidIsSafe(s);
    match e
    case EvAdd(client, nl, local, noPortMap, env) => AddMappingKeeps(s, client, nl, local, noPortMap, env);
    case EvQuery(client, nl, local, remote, noPortMap, env) =>
      QueryMappingKeeps(s, client, nl, local, remote, noPortMap, env);
    case EvRemove(client, nl, local, parseOk) => RemoveMappingKeeps(s, client, nl, local, parseOk);
    case EvMapInfo(client, nl, local, mapped, noPortMap, env) =>
      MapInfoKeeps(s, client, nl, local, mapped, noPortMap, env);
    case EvRecv(data, from, env) => ReceiveKeeps(s, data, from, env);
    case EvFinishAccept(env) =>
    case EvTick => AgedOk(s.reqs);
  }
}
