/** The port mapper daemon as it runs: mappings and requests are objects in memory, held by
    reference and changed in place.  `Abs` reads the memory as a state of IwpmState, and
    every method makes exactly the step of the function of that module. */
module IwpmDaemon {
  import opened Options
  import opened IwpmAddr
  import opened IwpmWire
  import opened IwpmState
  import opened IwpmInvariants
  import opened IwpmHeap

  /** What the main thread does when the lock is free: an accept keeps the mapping it was
      matched with, and a copy of the request. */
  datatype Doing = Waiting | Answering(copy: Request, port: PortObj, m: Parms, from: Peer)

  class PortMapper {
    var mappedPorts: seq<PortObj>
    var reqs: seq<ReqObj>
    var doing: Doing
    var clientOut: seq<NlMsg>
    var wireOut: seq<SendMsg>

    ghost function Ports(): map<PortId, MappedPort>
      reads this, mappedPorts
    {
      Table(Ids(mappedPorts), PortVals(mappedPorts))
    }

    ghost function Main(): Main
      reads this
    {
      match doing
      case Waiting => Idle
      case Answering(copy, port, m, from) => Accepted(copy, port.id, m, from)
    }

    ghost function Abs(): State
      reads this, mappedPorts, reqs
    {
      State(Ports(), Ids(mappedPorts), ReqVals(reqs), Main(), clientOut, wireOut)
    }

    /** No object is on a list twice, and what the main thread holds is listed. */
    ghost predicate Shape()
      reads this
    {
      && NoDup(Ids(mappedPorts)) && (forall i, j :: 0 <= i < j < |reqs| ==> reqs[i] != reqs[j])
      && (doing.Answering? ==> doing.port in mappedPorts)
    }

    ghost predicate Ok()
      reads this, mappedPorts, reqs
    {
      Shape() && Valid(Abs())
    }

    ghost predicate Counted()
      reads this, mappedPorts
    {
      forall o :: o in mappedPorts ==> o.refCnt >= 1
    }

    lemma OkCounted()
      requires Ok()
      ensures Counted()
    {
      forall o | o in mappedPorts ensures o.refCnt >= 1 { Entry(o); }
    }

    constructor ()
      ensures Abs() == INIT_STATE && Ok()
    {
      mappedPorts, reqs, doing, clientOut, wireOut := [], [], Waiting, [], [];
    }

    // ------------------------------------------------------------- the lists

    method FindMapping(search: SockAddr, notMapped: bool) returns (r: PortObj?)
      requires NoDup(Ids(mappedPorts))
      ensures Linked(Ports(), Ids(mappedPorts))
      ensures var found := Find(Ports(), Ids(mappedPorts), search, notMapped);
              if found.None? then r == null else r != null && r in mappedPorts && r.id == found.value
    {
      TableAt(Ids(mappedPorts), PortVals(mappedPorts));
      var i := 0;
      while i < |mappedPorts|
        invariant 0 <= i <= |mappedPorts|
        invariant forall j :: 0 <= j < i ==> !Hit(Ports()[Ids(mappedPorts)[j]], search, notMapped)
      {
        var p := mappedPorts[i];
        var cur := if notMapped then p.local else p.mapped;
        assert Ports()[Ids(mappedPorts)[i]] == p.Value();
        if Port(search) == Port(cur) && (Same(search, cur) || p.wcard || IsWildcard(search)) {
          FindFirst(Ports(), Ids(mappedPorts), search, notMapped, i);
          return p;
        }
        i := i + 1;
      }
      FindFirst(Ports(), Ids(mappedPorts), search, notMapped, i);
      return null;
    }

    method FindSameMapping(search: SockAddr, notMapped: bool) returns (r: PortObj?)
      requires NoDup(Ids(mappedPorts))
      ensures Linked(Ports(), Ids(mappedPorts))
      ensures var found := FindSame(Ports(), Ids(mappedPorts), search, notMapped);
              if found.None? then r == null else r != null && r in mappedPorts && r.id == found.value
    {
      TableAt(Ids(mappedPorts), PortVals(mappedPorts));
      var i := 0;
      while i < |mappedPorts|
        invariant 0 <= i <= |mappedPorts|
        invariant forall j :: 0 <= j < i ==> !SameHit(Ports()[Ids(mappedPorts)[j]], search, notMapped)
      {
        var p := mappedPorts[i];
        assert Ports()[Ids(mappedPorts)[i]] == p.Value();
        if Same(search, if notMapped then p.local else p.mapped) {
          FindSameFirst(Ports(), Ids(mappedPorts), search, notMapped, i);
          return p;
        }
        i := i + 1;
      }
      FindSameFirst(Ports(), Ids(mappedPorts), search, notMapped, i);
      return null;
    }

    /** The loop of update_iwpm_map_request. */
    method FindRequest(assoc: U64, src: SockAddr, kinds: set<Kind>) returns (r: ReqObj?)
      ensures var i := FindReq(ReqVals(reqs), assoc, src, kinds);
              if i == |reqs| then r == null else r == reqs[i]
    {
      var i := 0;
      while i < |reqs|
        invariant 0 <= i <= |reqs| && forall j :: 0 <= j < i ==> !Tracks(ReqVals(reqs)[j], assoc, src, kinds)
      {
        r := reqs[i];
        assert ReqVals(reqs)[i] == r.Value();
        if r.assoc == assoc && r.kind in kinds && Same(src, r.src) {
          FindReqFirst(ReqVals(reqs), assoc, src, kinds, i);
          return;
        }
        i := i + 1;
      }
      FindReqFirst(ReqVals(reqs), assoc, src, kinds, i);
      r := null;
    }

    /** The update of a request in place. */
    method Service(r: ReqObj, ghost i: nat)
      requires Shape() && i < |reqs| && reqs[i] == r
      modifies r
      ensures r.Value() == Serviced(old(r.Value()))
      ensures Abs() == old(Abs()).(reqs := old(ReqVals(reqs))[i := Serviced(old(r.Value()))])
    {
      if !r.complete {
        if r.kind == Ack { r.timeout, r.complete := MAP_REQ_TIMEOUT, false; }
        else { r.timeout, r.complete := 0, true; }
      }
      assert ReqVals(reqs) == old(ReqVals(reqs))[i := Serviced(old(r.Value()))];
      assert PortVals(mappedPorts) == old(PortVals(mappedPorts));
    }

    /** update_iwpm_map_request: a copy of the object as it was found, which is then serviced. */
    method UpdateMapRequest(assoc: U64, src: SockAddr, kinds: set<Kind>) returns (copy: Option<Request>)
      requires Shape()
      modifies reqs
      ensures var was := old(Abs()).reqs;
              var i := FindReq(was, assoc, src, kinds);
              if i == |was| then copy == None && Abs() == old(Abs())
              else copy == Some(was[i]) && Abs() == old(Abs()).(reqs := was[i := Serviced(was[i])])
      ensures copy.Some? && copy.value.complete ==> Abs() == old(Abs())
    {
      var r := FindRequest(assoc, src, kinds);
      if r == null { return None; }
      copy := Some(r.Value());
      ghost var was, i := ReqVals(reqs), FindReq(ReqVals(reqs), assoc, src, kinds);
      assert was[i := was[i]] == was;
      Service(r, i);
    }

    /** The state with an object that is held but may not be listed yet. */
    ghost function AbsWith(o: PortObj): State
      reads this, mappedPorts, reqs, o
    {
      if o in mappedPorts then Abs() else Abs().(ports := Ports()[o.id := o.Value()])
    }

    /** A listed object has its listing's reference and this one; a new one has this one. */
    ghost predicate Held(o: PortObj)
      reads this, o
    {
      if o in mappedPorts then o.refCnt > 1 else o.refCnt == 1 && o.id !in Ids(mappedPorts)
    }

    /** Changing the count of a listed object changes its entry. */
    lemma Recounted(o: PortObj, was: seq<MappedPort>) returns (i: nat)
      requires NoDup(Ids(mappedPorts)) && o in mappedPorts && |was| == |mappedPorts|
      requires forall j :: 0 <= j < |was| && mappedPorts[j] != o ==> was[j] == mappedPorts[j].Value()
      ensures Ports() == Table(Ids(mappedPorts), was)[o.id := o.Value()]
      ensures i < |mappedPorts| && mappedPorts[i] == o && Ids(mappedPorts)[i] == o.id
    {
      i :| 0 <= i < |mappedPorts| && mappedPorts[i] == o;
      assert PortVals(mappedPorts) == was[i := o.Value()] by {
        forall j | 0 <= j < |was| && j != i
          ensures mappedPorts[j] != o
        {
          assert Ids(mappedPorts)[j] != Ids(mappedPorts)[i];
        }
      }
      TableSet(Ids(mappedPorts), was, i, o.Value());
    }

    /** The entry of a listed object. */
    lemma Entry(o: PortObj)
      requires NoDup(Ids(mappedPorts)) && o in mappedPorts
      ensures o.id in Ports() && Ports()[o.id] == o.Value()
    {
      TableAt(Ids(mappedPorts), PortVals(mappedPorts));
      var i :| 0 <= i < |mappedPorts| && mappedPorts[i] == o;
      assert Ids(mappedPorts)[i] == o.id;
    }

    lemma NoEntry(o: PortObj)
      requires NoDup(Ids(mappedPorts)) && o.id !in Ids(mappedPorts)
      ensures o.id !in Ports() && o !in mappedPorts
    {
      TableAt(Ids(mappedPorts), PortVals(mappedPorts));
      if o in mappedPorts { Entry(o); }
    }

    /** Adds to the count of a listed object. */
    method Count(o: PortObj, n: int)
      requires NoDup(Ids(mappedPorts)) && o in mappedPorts
      modifies o`refCnt
      ensures o.refCnt == old(o.refCnt) + n
      ensures Ports() == old(Ports())[o.id := old(o.Value()).(refCnt := o.refCnt)]
    {
      ghost var was := PortVals(mappedPorts);
      o.refCnt := o.refCnt + n;
      ghost var i := Recounted(o, was);
    }

    method Hold(o: PortObj)
      requires NoDup(Ids(mappedPorts)) && o in mappedPorts && o.refCnt >= 1
      modifies o`refCnt
      ensures o.id in old(Abs()).ports && AbsWith(o) == AddRef(old(Abs()), o.id) && Held(o)
    {
      Entry(o);
      Count(o, 1);
    }

    /** The reference a failed request gives back; a new object is freed with it. */
    method Release(o: PortObj)
      requires NoDup(Ids(mappedPorts)) && Held(o)
      modifies o`refCnt
      ensures o.id in old(AbsWith(o)).ports && Abs() == DropRef(old(AbsWith(o)), o.id)
    {
      if o in mappedPorts {
        Entry(o);
        Count(o, -1);
      } else {
        NoEntry(o);
        ghost var was := Ports();
        o.refCnt := o.refCnt - 1;
        assert PortVals(mappedPorts) == old(PortVals(mappedPorts));
        assert was[o.id := old(o.Value())] - {o.id} == was;
      }
    }

    method ListNew(o: PortObj)
      requires NoDup(Ids(mappedPorts)) && o.id !in Ids(mappedPorts)
      modifies this`mappedPorts
      ensures mappedPorts == [o] + old(mappedPorts) && Ids(mappedPorts) == [o.id] + old(Ids(mappedPorts))
      ensures Ports() == old(Ports())[o.id := o.Value()]
    {
      ghost var list := mappedPorts;
      mappedPorts := [o] + mappedPorts;
      assert Ids(mappedPorts) == [o.id] + Ids(list) && PortVals(mappedPorts) == [o.Value()] + PortVals(list);
      TableAdd(Ids(list), PortVals(list), o.id, o.Value());
    }

    /** add_iwpm_mapped_port */
    method AddMappedPort(o: PortObj)
      requires Shape() && Held(o)
      modifies this`mappedPorts
      ensures Shape() && o.id in old(AbsWith(o)).ports && Abs() == AddToList(old(AbsWith(o)), o.id)
    {
      if o.refCnt > 1 { Entry(o); }
      else {
        NoEntry(o);
        ListNew(o);
      }
    }

    /** add_iwpm_map_request */
    method PostRequest(r: Request)
      requires Shape()
      modifies this`reqs
      ensures Shape() && ReqVals(reqs) == [r] + old(ReqVals(reqs))
    {
      var o := new ReqObj(r);
      ghost var list := reqs;
      reqs := [o] + reqs;
      assert ReqVals(reqs) == [r] + ReqVals(list);
    }

    // -------------------------------------------------------- client requests

    method Tell(out: NlMsg)
      modifies this`clientOut
      ensures Abs() == old(Abs()).(clientOut := old(clientOut) + [out])
    {
      clientOut := clientOut + [out];
    }

    method SendErrorMsg(client: nat, nl: NlHdr, err: nat)
      modifies this`clientOut
      ensures Abs() == SendError(old(Abs()), client, nl, err)
    {
      clientOut := clientOut + [Error(client, nl.nlSeq, err)];
    }

    method ProcessAddMapping(client: nat, nl: NlHdr, local: SockAddr, noPortMap: bool, env: AddEnv)
      requires Ok() && doing.Waiting? && (env.portId.Some? ==> env.portId.value !in Ports())
      modifies this, mappedPorts
      ensures Ok() && Abs() == AddMapping(old(Abs()), client, nl, local, noPortMap, env)
    {
      AddMappingKeeps(Abs(), client, nl, local, noPortMap, env);
      OkCounted();
      HandleAdd(client, nl, local, noPortMap, env);
    }

    method HandleAdd(client: nat, nl: NlHdr, local: SockAddr, noPortMap: bool, env: AddEnv)
      requires Shape() && Counted() && Linked(Ports(), Ids(mappedPorts))
      requires (env.portId.Some? ==> env.portId.value !in Ports())
      modifies this, mappedPorts
      ensures Shape() && Abs() == AddMapping(old(Abs()), client, nl, local, noPortMap, env)
    {
      if !env.parseOk { SendErrorMsg(client, nl, INVALID_NLMSG_ERR); return; }
      var found := FindMapping(local, true);
      if found != null { AddExisting(found, client, nl, local, env); return; }
      var p := CreatePort(client, local, noPortMap, env.tcp);
      if p.None? || env.portId.None? { SendErrorMsg(client, nl, CREATE_MAPPING_ERR); return; }
      AddNew(env.portId.value, p.value, nl, env.replyOk);
    }

    method AddNew(id: PortId, p: MappedPort, nl: NlHdr, replyOk: bool)
      requires Shape() && id !in Ports() && p.refCnt == 1
      modifies this
      ensures Shape() && Abs() == AddReply(old(Abs()).(ports := old(Ports())[id := p]), id, nl, replyOk)
    {
      var o := NewObject(id, p);
      AnswerAdd(o, nl, replyOk);
    }

    /** An add that finds a mapping: only a wildcard mapping of the same address is shared. */
    method AddExisting(found: PortObj, client: nat, nl: NlHdr, local: SockAddr, env: AddEnv)
      requires Shape() && found in mappedPorts && found.refCnt >= 1
      modifies this`clientOut, this`mappedPorts, found`refCnt
      ensures Shape() && found.id in old(Abs()).ports
      ensures Abs() == if Same(local, found.local) && found.wcard
                       then AddReply(AddRef(old(Abs()), found.id), found.id, nl, env.replyOk)
                       else SendError(old(Abs()), client, nl, DUPLICATE_MAPPING_ERR)
      ensures old(Abs()).ports[found.id] == old(found.Value())
    {
      Entry(found);
      if !(Same(local, found.local) && found.wcard) { SendErrorMsg(client, nl, DUPLICATE_MAPPING_ERR); return; }
      Hold(found);
      AnswerAdd(found, nl, env.replyOk);
    }

    /** get_iwpm_port: an object that is not listed yet. */
    method NewObject(id: PortId, p: MappedPort) returns (o: PortObj)
      requires NoDup(Ids(mappedPorts)) && id !in Ports() && p.refCnt == 1
      ensures fresh(o) && o.id == id && Held(o) && AbsWith(o) == Abs().(ports := Ports()[id := p])
    {
      TableAt(Ids(mappedPorts), PortVals(mappedPorts));
      o := new PortObj(id, p);
    }

    /** The reply to an add, and the listing of a new mapping; without a reply the reference
        is given back. */
    method AnswerAdd(o: PortObj, nl: NlHdr, replyOk: bool)
      requires Shape() && Held(o)
      modifies this`mappedPorts, this`clientOut, o`refCnt
      ensures Shape() && o.id in old(AbsWith(o)).ports && Abs() == AddReply(old(AbsWith(o)), o.id, nl, replyOk)
    {
      if !replyOk { Release(o); return; }
      HeldEntry(o);
      clientOut := clientOut + [MapReply(nl, o.local, o.mapped)];
      AddMappedPort(o);
    }

    lemma HeldEntry(o: PortObj)
      requires NoDup(Ids(mappedPorts)) && Held(o)
      ensures o.id in AbsWith(o).ports && AbsWith(o).ports[o.id] == o.Value()
    {
      if o in mappedPorts { Entry(o); }
    }

    method ProcessQueryMapping(client: nat, nl: NlHdr, local: SockAddr, remote: SockAddr,
                               noPortMap: bool, env: QueryEnv)
      requires Ok() && doing.Waiting? && (env.portId.Some? ==> env.portId.value !in Ports())
      modifies this, mappedPorts
      ensures Ok() && Abs() == QueryMapping(old(Abs()), client, nl, local, remote, noPortMap, env)
    {
      QueryMappingKeeps(Abs(), client, nl, local, remote, noPortMap, env);
      OkCounted();
      HandleQuery(client, nl, local, remote, noPortMap, env);
    }

    method HandleQuery(client: nat, nl: NlHdr, local: SockAddr, remote: SockAddr, noPortMap: bool, env: QueryEnv)
      requires Shape() && Counted() && Linked(Ports(), Ids(mappedPorts))
      requires (env.portId.Some? ==> env.portId.value !in Ports())
      modifies this, mappedPorts
      ensures Shape() && Abs() == QueryMapping(old(Abs()), client, nl, local, remote, noPortMap, env)
    {
      if !env.parseOk { SendErrorMsg(client, nl, INVALID_NLMSG_ERR); return; }
      var found := FindMapping(local, true);
      if found != null { QueryFrom(found, client, nl, local, remote, env); return; }
      var p := CreatePort(client, local, noPortMap, env.tcp);
      if p.None? || env.portId.None? { SendErrorMsg(client, nl, CREATE_MAPPING_ERR); return; }
      QueryFromNew(env.portId.value, p.value, client, nl, local, remote, env);
    }

    method QueryFrom(found: PortObj, client: nat, nl: NlHdr, local: SockAddr, remote: SockAddr, env: QueryEnv)
      requires Shape() && found in mappedPorts && found.refCnt >= 1
      modifies this, found`refCnt
      ensures Shape() && found.id in old(Abs()).ports
      ensures Abs() == QueryHeld(AddRef(old(Abs()), found.id), found.id, client, nl, local, remote, env)
    {
      Hold(found);
      PostQuery(found, client, nl, local, remote, env);
    }

    method QueryFromNew(id: PortId, p: MappedPort, client: nat, nl: NlHdr, local: SockAddr, remote: SockAddr,
                        env: QueryEnv)
      requires Shape() && id !in Ports() && p.refCnt == 1
      modifies this
      ensures Shape()
      ensures Abs() == QueryHeld(old(Abs()).(ports := old(Ports())[id := p]), id, client, nl, local, remote, env)
    {
      var o := NewObject(id, p);
      PostQuery(o, client, nl, local, remote, env);
    }

    /** The second half of process_iwpm_query_mapping, from the wildcard test on. */
    method PostQuery(o: PortObj, client: nat, nl: NlHdr, local: SockAddr, remote: SockAddr, env: QueryEnv)
      requires Shape() && Held(o)
      modifies this, o`refCnt
      ensures Shape() && o.id in old(AbsWith(o)).ports
      ensures Abs() == QueryHeld(old(AbsWith(o)), o.id, client, nl, local, remote, env)
    {
      HeldEntry(o);
      if o.wcard {
        Release(o);
        SendErrorMsg(client, nl, CREATE_MAPPING_ERR);
        return;
      }
      if !Inet(remote.family) || !env.sendOk || env.reqId.None? { Release(o); return; }
      var m := QueryParms(local, remote, o.mapped, env.addr);
      var msg := SendMsg(ToHost(remote.(port := IWARP_PM_PORT)), Form(m));
      AddMappedPort(o);
      PostAndSend(NewRequest(env.reqId.value, env.addr, Query, o.local, remote, nl, 0, Some(msg)), env.pendingOk);
    }

    /** A new request, with its message queued if there is room. */
    method PostAndSend(r: Request, pendingOk: bool)
      requires Shape() && r.sendMsg.Some?
      modifies this`reqs, this`wireOut
      ensures Shape()
      ensures Abs() == old(Abs()).(reqs := [r] + old(Abs()).reqs,
                                   wireOut := if pendingOk then old(wireOut) + [r.sendMsg.value] else old(wireOut))
    {
      PostRequest(r);
      if pendingOk { wireOut := wireOut + [r.sendMsg.value]; }
    }

    method ProcessRemoveMapping(client: nat, nl: NlHdr, local: SockAddr, parseOk: bool)
      requires Ok() && doing.Waiting?
      modifies this, mappedPorts
      ensures Ok() && Abs() == RemoveMapping(old(Abs()), client, nl, local, parseOk)
    {
      RemoveMappingKeeps(Abs(), client, nl, local, parseOk);
      OkCounted();
      HandleRemove(client, nl, local, parseOk);
    }

    method HandleRemove(client: nat, nl: NlHdr, local: SockAddr, parseOk: bool)
      requires Shape() && Counted() && doing.Waiting? && Linked(Ports(), Ids(mappedPorts))
      modifies this, mappedPorts
      ensures Shape() && Abs() == RemoveMapping(old(Abs()), client, nl, local, parseOk)
    {
      if !parseOk { SendErrorMsg(client, nl, INVALID_NLMSG_ERR); return; }
      var found := FindSameMapping(local, true);
      if found == null { return; }
      Entry(found);
      if found.owner != client { return; }
      if found.refCnt == 1 { Free(found); } else { Release(found); }
    }

    /** The last reference: off the list, and gone. */
    method Free(o: PortObj)
      requires Shape() && doing.Waiting? && o in mappedPorts && o.refCnt == 1
      modifies this`mappedPorts
      ensures Shape() && o.id in old(Abs()).ports
      ensures Abs() == DropRef(old(Abs()), o.id).(mappedPorts := Without(old(Abs()).mappedPorts, o.id))
    {
      Entry(o);
      Unlist(o);
    }

    /** list_del, and the last reference. */
    method Unlist(o: PortObj)
      requires NoDup(Ids(mappedPorts)) && o in mappedPorts
      modifies this`mappedPorts
      ensures Ids(mappedPorts) == Without(old(Ids(mappedPorts)), o.id) && Ports() == old(Ports()) - {o.id}
      ensures NoDup(Ids(mappedPorts))
    {
      var i := PlaceOf(o);
      ghost var list := mappedPorts;
      mappedPorts := Off(mappedPorts, i);
      assert Ids(mappedPorts) == Off(Ids(list), i) && PortVals(mappedPorts) == Off(PortVals(list), i);
      NoDupOff(Ids(list), i);
      WithoutIsOff(Ids(list), i);
      TableOff(Ids(list), PortVals(list), i);
    }

    method PlaceOf(o: PortObj) returns (i: nat)
      requires o in mappedPorts
      ensures i < |mappedPorts| && mappedPorts[i] == o
    {
      i := 0;
      while mappedPorts[i] != o
        invariant i < |mappedPorts| && o in mappedPorts[i..]
        decreases |mappedPorts| - i
      {
        i := i + 1;
      }
    }

    method ProcessMapInfo(client: nat, nl: NlHdr, local: SockAddr, mapped: SockAddr, noPortMap: bool, env: AddEnv)
      requires Ok() && doing.Waiting? && (env.portId.Some? ==> env.portId.value !in Ports())
      modifies this
      ensures Ok() && Abs() == MapInfo(old(Abs()), client, nl, local, mapped, noPortMap, env)
    {
      MapInfoKeeps(Abs(), client, nl, local, mapped, noPortMap, env);
      HandleMapInfo(client, nl, local, mapped, noPortMap, env);
    }

    method HandleMapInfo(client: nat, nl: NlHdr, local: SockAddr, mapped: SockAddr, noPortMap: bool, env: AddEnv)
      requires Shape() && Linked(Ports(), Ids(mappedPorts)) && (env.portId.Some? ==> env.portId.value !in Ports())
      modifies this
      ensures Shape() && Abs() == MapInfo(old(Abs()), client, nl, local, mapped, noPortMap, env)
    {
      if !env.parseOk { SendErrorMsg(client, nl, INVALID_NLMSG_ERR); return; }
      var found := FindMapping(local, true);
      if found != null {
        Entry(found);
        if Same(found.local, local) && Same(found.mapped, mapped) { return; }
        SendErrorMsg(client, nl, DUPLICATE_MAPPING_ERR);
        return;
      }
      var p := ReopenPort(client, local, mapped, noPortMap, env.tcp);
      if p.None? || env.portId.None? { SendErrorMsg(client, nl, CREATE_MAPPING_ERR); return; }
      MapNew(env.portId.value, p.value);
    }

    method MapNew(id: PortId, p: MappedPort)
      requires Shape() && id !in Ports() && p.refCnt == 1
      modifies this`mappedPorts
      ensures Shape() && Abs() == AddToList(old(Abs()).(ports := old(Ports())[id := p]), id)
    {
      var o := NewObject(id, p);
      AddMappedPort(o);
    }

    // ---------------------------------------------------------- wire messages

    method Send(to: Peer, m: Parms, ok: bool)
      modifies this`wireOut
      ensures Abs() == IwpmState.Send(old(Abs()), to, m, ok)
    {
      if ok { wireOut := wireOut + [SendMsg(ToPeer(to), Form(m))]; }
    }

    method ProcessWireRequest(m: Parms, from: Peer, env: WireEnv)
      requires Ok() && doing.Waiting? && m.WellFormed()
      modifies this, reqs
      ensures Ok() && Abs() == WireRequest(old(Abs()), m, from, env)
    {
      WireRequestKeeps(Abs(), m, from, env);
      HandleRequest(m, from, env);
    }

    method HandleRequest(m: Parms, from: Peer, env: WireEnv)
      requires Shape() && Linked(Ports(), Ids(mappedPorts)) && m.WellFormed()
      modifies this, reqs
      ensures Shape() && Abs() == WireRequest(old(Abs()), m, from, env)
    {
      var found := FindMapping(m.Ap(), true);
      if found == null { Send(from, m.(mt := MT_REJ), env.pendingOk); return; }
      Entry(found);
      AcceptFor(found, m, from, env);
    }

    method AcceptFor(found: PortObj, m: Parms, from: Peer, env: WireEnv)
      requires Shape() && m.WellFormed()
      modifies this
      ensures Shape() && Abs() == RequestMatched(old(Abs()), found.Value(), m, from, env)
    {
      var acc := AcceptParms(m, found.Value());
      var posted := FindRequest(m.assoc, acc.Ap(), {Accept});
      if posted != null || !env.sendOk || env.reqId.None? { return; }
      var msg := SendMsg(ToPeer(from), Form(acc.(mt := MT_ACC)));
      PostAndSend(NewRequest(env.reqId.value, env.addr, Accept, acc.Ap(), m.Cp(), NlHdr(0, 0, 0), m.assoc, Some(msg)),
                  env.pendingOk);
      if env.pendingOk && env.nlOk {
        Tell(RemoteInfo(found.owner, found.local, m.Cp(), found.mapped, m.MappedCp()));
      }
    }

    method ProcessWireAccept(m: Parms, from: Peer, env: WireEnv)
      requires Ok() && doing.Waiting? && m.WellFormed()
      modifies this, reqs
      ensures Ok() && Abs() == AcceptBegin(old(Abs()), m, from, env)
    {
      AcceptBeginKeeps(Abs(), m, from, env);
      HandleAccept(m, from, env);
    }

    method HandleAccept(m: Parms, from: Peer, env: WireEnv)
      requires Shape() && Linked(Ports(), Ids(mappedPorts)) && m.WellFormed()
      modifies this, reqs
      ensures Shape() && Abs() == AcceptBegin(old(Abs()), m, from, env)
    {
      var found := FindSameMapping(m.Cp(), true);
      if found == null { return; }
      Entry(found);
      MatchAccept(found, m, from, env);
    }

    method MatchAccept(found: PortObj, m: Parms, from: Peer, env: WireEnv)
      requires Shape() && m.WellFormed() && found in mappedPorts
      modifies this, reqs
      ensures Shape() && Abs() == AcceptMatched(old(Abs()), found.id, old(found.Value()), m, from, env)
    {
      var copy := UpdateMapRequest(m.assoc, found.local, {Query, Ack});
      if copy.None? || copy.value.complete { return; }
      if copy.value.kind == Ack { Send(from, m.(mt := MT_ACK), env.pendingOk); return; }
      Answer(copy.value, found, m, from);
    }

    method Answer(copy: Request, port: PortObj, m: Parms, from: Peer)
      requires Shape() && port in mappedPorts
      modifies this`doing
      ensures Shape() && Abs() == old(Abs()).(main := Accepted(copy, port.id, m, from))
    {
      doing := Answering(copy, port, m, from);
    }

    method FinishWireAccept(env: WireEnv)
      requires Ok() && doing.Answering?
      modifies this
      ensures Ok() && Abs() == AcceptEnd(old(Abs()), env)
    {
      EventKeepsValid(Abs(), EvFinishAccept(env));
      FinishAccept(env);
    }

    method FinishAccept(env: WireEnv)
      requires Shape() && doing.Answering? && doing.port.id in Ports() && doing.m.WellFormed()
      modifies this
      ensures Shape() && Abs() == AcceptEnd(old(Abs()), env)
    {
      var Answering(copy, port, m, from) := doing;
      Entry(port);
      doing := Waiting;
      if !env.nlOk { return; }
      Tell(SuccessInfo(copy, port.Value(), m));
      if env.reqId.None? { return; }
      Acknowledge(copy, m, from, env.reqId.value, env.addr, env.pendingOk);
    }

    /** The object that recognises repeated accepts, and the acknowledgement. */
    method Acknowledge(copy: Request, m: Parms, from: Peer, id: ReqId, addr: Handle, ok: bool)
      requires Shape() && m.WellFormed()
      modifies this
      ensures Shape() && doing == old(doing)
      ensures var retry := NewRequest(id, addr, Ack, copy.src, copy.remote, NlHdr(0, 0, 0), copy.assoc, None);
              Abs() == IwpmState.Send(old(Abs()).(reqs := [retry] + old(Abs()).reqs), from, m.(mt := MT_ACK), ok)
    {
      PostRequest(NewRequest(id, addr, Ack, copy.src, copy.remote, NlHdr(0, 0, 0), copy.assoc, None));
      Send(from, m.(mt := MT_ACK), ok);
    }

    method ProcessWireReject(m: Parms, env: WireEnv)
      requires Ok() && doing.Waiting? && m.WellFormed()
      modifies this, reqs
      ensures Ok() && Abs() == WireReject(old(Abs()), m, env)
    {
      WireRejectKeeps(Abs(), m, env);
      HandleReject(m, env);
    }

    method HandleReject(m: Parms, env: WireEnv)
      requires Shape() && Linked(Ports(), Ids(mappedPorts)) && m.WellFormed()
      modifies this, reqs
      ensures Shape() && Abs() == WireReject(old(Abs()), m, env)
    {
      var found := FindSameMapping(m.Cp(), true);
      if found == null { return; }
      Entry(found);
      MatchReject(found, m, env);
    }

    method MatchReject(found: PortObj, m: Parms, env: WireEnv)
      requires Shape()
      modifies this`clientOut, reqs
      ensures Shape() && Abs() == RejectMatched(old(Abs()), old(found.Value()), m, env)
    {
      var copy := UpdateMapRequest(m.assoc, found.local, {Query});
      if copy.None? || copy.value.complete { return; }
      if env.nlOk { Tell(RejectInfo(copy.value, found.Value())); }
    }

    method ProcessWireAck(m: Parms)
      requires Ok() && doing.Waiting? && m.WellFormed()
      modifies reqs
      ensures Ok() && Abs() == WireAck(old(Abs()), m)
    {
      WireAckKeeps(Abs(), m);
      HandleAck(m);
    }

    method HandleAck(m: Parms)
      requires Shape() && Linked(Ports(), Ids(mappedPorts)) && m.WellFormed()
      modifies reqs
      ensures Abs() == WireAck(old(Abs()), m)
    {
      var found := FindMapping(m.Ap(), false);
      if found == null { return; }
      var _ := UpdateMapRequest(m.assoc, m.Ap(), {Accept});
    }

    method ProcessMsg(data: seq<U8>, from: Peer, env: WireEnv)
      requires Ok() && doing.Waiting?
      modifies this, reqs
      ensures Ok() && Abs() == Receive(old(Abs()), data, from, env)
    {
      ParseDefined(data);
      var p := Parse(data);
      if p.None? { return; }
      var m := p.value;
      if m.mt == MT_REQ { ProcessWireRequest(m, from, env); }
      else if m.mt == MT_ACK { ProcessWireAck(m); }
      else if m.mt == MT_ACC { ProcessWireAccept(m, from, env); }
      else { ProcessWireReject(m, env); }
    }

    // ------------------------------------------------------------- one event

    /** The daemon takes one event: no event that can occur makes it fail, and it comes to
        the state that the model gives. */
    method Handle(e: Event)
      requires Ok() && Enabled(Abs(), e)
      modifies this, mappedPorts, reqs
      ensures Ok() && Enabled(old(Abs()), e) && Next(old(Abs()), e) == Some(Abs())
    {
      ValidIsSafe(Abs());
      match e
      case EvRecv(data, from, env) => ProcessMsg(data, from, env);
      case EvFinishAccept(env) => FinishWireAccept(env);
      case EvTick => AgeRequests();
      case _ => HandleClient(e);
    }

    /** process_iwpm_netlink_msg */
    method HandleClient(e: Event)
      requires Ok() && Enabled(Abs(), e) && (e.EvAdd? || e.EvQuery? || e.EvRemove? || e.EvMapInfo?)
      modifies this, mappedPorts, reqs
      ensures Ok() && Enabled(old(Abs()), e) && Next(old(Abs()), e) == Some(Abs())
    {
      ValidIsSafe(Abs());
      match e
      case EvAdd(client, nl, local, noPortMap, env) => ProcessAddMapping(client, nl, local, noPortMap, env);
      case EvQuery(client, nl, local, remote, noPortMap, env) =>
        ProcessQueryMapping(client, nl, local, remote, noPortMap, env);
      case EvRemove(client, nl, local, parseOk) => ProcessRemoveMapping(client, nl, local, parseOk);
      case EvMapInfo(client, nl, local, mapped, noPortMap, env) =>
        ProcessMapInfo(client, nl, local, mapped, noPortMap, env);
    }

    // ----------------------------------------------------------------- timer

    /** One pass of iwpm_mapping_reqs_handler under the lock. */
    method AgeRequests()
      requires Ok()
      modifies this`reqs, this`wireOut, reqs
      ensures Ok() && Abs() == Tick(old(Abs()))
    {
      ValidIsSafe(Abs());
      AgedOk(ReqVals(reqs));
      AgeAll();
    }

    /** Before `i` the requests have been aged, from `i` on they are still to come. */
    method AgeAll()
      requires Shape() && SendsReady(ReqVals(reqs))
      modifies this`reqs, this`wireOut, reqs
      ensures Shape() && ReqVals(reqs) == Aged(old(ReqVals(reqs)))
      ensures wireOut == old(wireOut) + Resent(old(ReqVals(reqs)))
    {
      ghost var done: seq<Request>, rest := [], ReqVals(reqs);
      ghost var all := reqs;
      var i := 0;
      while i < |reqs|
        invariant Shape() && i == |done| <= |reqs| && (forall r :: r in reqs ==> r in all)
        invariant ReqVals(reqs) == done + rest && SendsReady(rest)
        invariant done + Aged(rest) == Aged(old(ReqVals(reqs)))
        invariant wireOut + Resent(rest) == old(wireOut) + Resent(old(ReqVals(reqs)))
        decreases |reqs| - i
      {
        AgeStep(done, rest);
        ResendStep(wireOut, rest);
        assert reqs[i] in reqs;
        var kept := AgeOne(i, done, rest);
        if kept {
          done := done + [rest[0].(timeout := rest[0].timeout - 1)];
          i := i + 1;
        }
        rest := rest[1..];
      }
    }

    /** The turn of request `i`: it is kept, and sent again if it is due, or removed. */
    method AgeOne(i: nat, ghost done: seq<Request>, ghost rest: seq<Request>) returns (kept: bool)
      requires Shape() && i == |done| < |reqs| && ReqVals(reqs) == done + rest && SendsReady(rest)
      modifies this`reqs, this`wireOut, reqs[i]
      ensures Shape() && rest != [] && kept == (rest[0].timeout > 0)
      ensures |reqs| == |done| + |rest| - (if kept then 0 else 1) && forall r :: r in reqs ==> r in old(reqs)
      ensures ReqVals(reqs)
           == if kept then done + [rest[0].(timeout := rest[0].timeout - 1)] + rest[1..] else done + rest[1..]
      ensures wireOut == if Resends(rest[0]) then old(wireOut) + [rest[0].sendMsg.value] else old(wireOut)
    {
      var r := reqs[i];
      assert rest[0] == ReqVals(reqs)[i] == r.Value();
      Middle(done, rest, rest[0].(timeout := rest[0].timeout - 1));
      kept := r.timeout > 0;
      if kept {
        if r.timeout < MAP_REQ_TIMEOUT && r.kind != Ack { wireOut := wireOut + [r.sendMsg.value]; }
        Decrease(r, i);
      } else { RemoveRequest(i); }
    }

    method Decrease(r: ReqObj, ghost i: nat)
      requires Shape() && i < |reqs| && reqs[i] == r
      modifies r`timeout
      ensures r.Value() == old(r.Value()).(timeout := old(r.timeout) - 1)
      ensures ReqVals(reqs) == old(ReqVals(reqs))[i := r.Value()]
    {
      r.timeout := r.timeout - 1;
    }

    /** remove_iwpm_map_request */
    method RemoveRequest(i: nat)
      requires Shape() && i < |reqs|
      modifies this`reqs
      ensures Shape() && reqs == Off(old(reqs), i) && ReqVals(reqs) == Off(old(ReqVals(reqs)), i)
    {
      ghost var list := reqs;
      reqs := Off(reqs, i);
      assert ReqVals(reqs) == Off(ReqVals(list), i);
    }
  }

  lemma Shift<T>(a: seq<T>, x: T, b: seq<T>)
    ensures a + ([x] + b) == (a + [x]) + b
  {
  }

  /** What one turn of the timer loop moves from the requests to come to those done. */
  lemma {:induction false} AgeStep(done: seq<Request>, rest: seq<Request>)
    requires rest != []
    ensures done + Aged(rest) ==
            (if rest[0].timeout > 0 then done + [rest[0].(timeout := rest[0].timeout - 1)] else done) + Aged(rest[1..])
  {
    Shift(done, rest[0].(timeout := rest[0].timeout - 1), Aged(rest[1..]));
  }

  lemma {:induction false} ResendStep(out: seq<SendMsg>, rest: seq<Request>)
    requires rest != [] && SendsReady(rest)
    ensures SendsReady(rest[1..])
    ensures out + Resent(rest) ==
            (if Resends(rest[0]) then out + [rest[0].sendMsg.value] else out) + Resent(rest[1..])
  {
    if Resends(rest[0]) { Shift(out, rest[0].sendMsg.value, Resent(rest[1..])); }
    else { assert [] + Resent(rest[1..]) == Resent(rest[1..]); }
  }
}
