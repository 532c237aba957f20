/** What a client's request makes of the table, the request list and the answers, field by
    field: the numbers in messages are written out, and no helper of the handlers is named. */
module IwpmAnswers {
  import opened Options
  import opened IwpmAddr
  import opened IwpmWire
  import opened IwpmState
  import opened IwpmInvariants

  /** A mapping whose address is `own` answers for `addr`: the ports are equal, counting as zero
      for a foreign family, and so are the addresses, unless one of the two is a wildcard. */
  predicate Answers(p: MappedPort, own: SockAddr, addr: SockAddr) {
    && (if addr.family in {2, 10} then addr.port else 0) == (if own.family in {2, 10} then own.port else 0)
    && (p.wcard || IsWildcard(addr) || Same(addr, own))
  }

  lemma AnswersExactly(p: MappedPort, addr: SockAddr)
    ensures Hit(p, addr, true) <==> Answers(p, p.local, addr)
    ensures Hit(p, addr, false) <==> Answers(p, p.mapped, addr)
  {
  }

  predicate AnswersAt(s: State, i: nat, addr: SockAddr)
    requires i < |s.mappedPorts| && Linked(s.ports, s.mappedPorts)
  {
    var p := s.ports[s.mappedPorts[i]]; Answers(p, p.local, addr)
  }

  /** No listed mapping answers for `local`. */
  ghost predicate Unmapped(s: State, local: SockAddr) {
    Linked(s.ports, s.mappedPorts) && forall j :: 0 <= j < |s.mappedPorts| ==> !AnswersAt(s, j, local)
  }

  /** Place `i` of the list is the first whose mapping answers for `local`. */
  ghost predicate FirstHit(s: State, local: SockAddr, i: nat) {
    && i < |s.mappedPorts| && Linked(s.ports, s.mappedPorts) && AnswersAt(s, i, local)
    && forall j :: 0 <= j < i ==> !AnswersAt(s, j, local)
  }

  lemma UnmappedFinds(s: State, local: SockAddr)
    requires Unmapped(s, local)
    ensures Linked(s.ports, s.mappedPorts) && Find(s.ports, s.mappedPorts, local, true).None?
  {
    forall j | 0 <= j < |s.mappedPorts| ensures !Hit(s.ports[s.mappedPorts[j]], local, true) {
      assert !AnswersAt(s, j, local);
    }
    FindFirst(s.ports, s.mappedPorts, local, true, |s.mappedPorts|);
  }

  lemma FirstHitFinds(s: State, local: SockAddr, i: nat)
    requires FirstHit(s, local, i)
    ensures Find(s.ports, s.mappedPorts, local, true) == Some(s.mappedPorts[i])
  {
    forall j | 0 <= j < i ensures !Hit(s.ports[s.mappedPorts[j]], local, true) { assert !AnswersAt(s, j, local); }
    FindFirst(s.ports, s.mappedPorts, local, true, i);
  }

  /** `mapped` is `addr` with the port that was bound for it.  None is bound if the client
      wants no port, or for a foreign family. */
  predicate Maps(addr: SockAddr, mapped: SockAddr, noPortMap: bool, tcp: Option<U16>) {
    && mapped.family == addr.family && mapped.word == addr.word && mapped.ip6 == addr.ip6
    && (if noPortMap || !Inet(addr.family) then mapped.port == addr.port
        else tcp.Some? && mapped.port == tcp.value)
  }

  /** A new mapping with these fields is all that the table gains. */
  predicate Entered(s: State, s': State, id: PortId, client: nat, local: SockAddr, mapped: SockAddr) {
    && s'.mappedPorts == [id] + s.mappedPorts && s'.ports.Keys == s.ports.Keys + {id}
    && (forall x :: x in s.ports && x != id ==> s'.ports[x] == s.ports[x])
    && s'.ports[id].owner == client && s'.ports[id].local == local && s'.ports[id].mapped == mapped
    && s'.ports[id].wcard == IsWildcard(local) && s'.ports[id].refCnt == 1
  }

  /** A mapping gains a reference, and nothing else in the table changes. */
  predicate Referenced(s: State, s': State, id: PortId) {
    && s'.mappedPorts == s.mappedPorts && s'.ports.Keys == s.ports.Keys && id in s.ports
    && (forall x :: x in s.ports && x != id ==> s'.ports[x] == s.ports[x])
    && s'.ports[id] == s.ports[id].(refCnt := s.ports[id].refCnt + 1)
  }

  /** Only an error message is added. */
  predicate Fails(s: State, s': State, client: nat, nl: NlHdr, err: nat) {
    s' == s.(clientOut := s.clientOut + [Error(client, nl.nlSeq, err)])
  }

  /** The mapping object and, if one is wanted, its port were got. */
  predicate Granted(noPortMap: bool, tcp: Option<U16>, id: Option<PortId>) {
    (noPortMap || tcp.Some?) && id.Some?
  }

  // -------------------------------------------------------------- add mapping

  /** An add for an address that is not mapped. */
  lemma AddNewAnswer(s: State, e: Event, s': State)
    requires e.EvAdd? && Unmapped(s, e.local) && e.addEnv.parseOk && Enabled(s, e)
    requires Linked(s.ports, s.mappedPorts) && s' == AddMapping(s, e.client, e.nl, e.local, e.noPortMap, e.addEnv)
    ensures var env := e.addEnv;
            if !Granted(e.noPortMap, env.tcp, env.portId) then Fails(s, s', e.client, e.nl, 11)
            else if !env.replyOk then s' == s
            else
              && s'.reqs == s.reqs && s'.wireOut == s.wireOut && s'.main == s.main
              && |s'.clientOut| == |s.clientOut| + 1 && s.clientOut <= s'.clientOut
              && var out := s'.clientOut[|s.clientOut|];
                 && out.MapReply? && out.nl == e.nl && out.local == e.local
                 && Maps(e.local, out.mapped, e.noPortMap, env.tcp)
                 && Entered(s, s', env.portId.value, e.client, e.local, out.mapped)
  {
    UnmappedFinds(s, e.local);
  }

  /** An add for an address that is mapped already: only the very wildcard is shared. */
  lemma AddSharedAnswer(s: State, e: Event, s': State, i: nat)
    requires e.EvAdd? && FirstHit(s, e.local, i) && e.addEnv.parseOk && Enabled(s, e)
    requires s' == AddMapping(s, e.client, e.nl, e.local, e.noPortMap, e.addEnv)
    requires s.ports[s.mappedPorts[i]].refCnt >= 1
    ensures var id := s.mappedPorts[i];
            if !(Same(e.local, s.ports[id].local) && s.ports[id].wcard) then Fails(s, s', e.client, e.nl, 12)
            else if !e.addEnv.replyOk then s' == s
            else
              && s'.reqs == s.reqs && s'.wireOut == s.wireOut && s'.main == s.main && Referenced(s, s', id)
              && |s'.clientOut| == |s.clientOut| + 1 && s.clientOut <= s'.clientOut
              && var out := s'.clientOut[|s.clientOut|];
                 out.MapReply? && out.nl == e.nl && out.local == s.ports[id].local && out.mapped == s.ports[id].mapped
  {
    FirstHitFinds(s, e.local, i);
    var id := s.mappedPorts[i];
    if Same(e.local, s.ports[id].local) && s.ports[id].wcard && !e.addEnv.replyOk { UnwindHeld(s, id); }
  }

  // ------------------------------------------------------------- mapping info

  /** Mapping information about an address that is not mapped restores its mapping. */
  lemma MapInfoNewAnswer(s: State, e: Event, s': State)
    requires e.EvMapInfo? && Unmapped(s, e.local) && e.addEnv.parseOk && Enabled(s, e)
    requires Linked(s.ports, s.mappedPorts)
    requires s' == MapInfo(s, e.client, e.nl, e.local, e.mapped, e.noPortMap, e.addEnv)
    ensures var env := e.addEnv;
            if e.local.family != e.mapped.family || !Granted(e.noPortMap, env.tcp, env.portId)
            then Fails(s, s', e.client, e.nl, 11)
            else
              && s'.reqs == s.reqs && s'.wireOut == s.wireOut && s'.main == s.main && s'.clientOut == s.clientOut
              && env.portId.value in s'.ports
              && var mapped := s'.ports[env.portId.value].mapped;
                 && Maps(e.mapped, mapped, e.noPortMap, env.tcp)
                 && Entered(s, s', env.portId.value, e.client, e.local, mapped)
  {
    UnmappedFinds(s, e.local);
  }

  /** About one that is mapped it must say what the table says. */
  lemma MapInfoKnownAnswer(s: State, e: Event, s': State, i: nat)
    requires e.EvMapInfo? && FirstHit(s, e.local, i) && e.addEnv.parseOk && Enabled(s, e)
    requires s' == MapInfo(s, e.client, e.nl, e.local, e.mapped, e.noPortMap, e.addEnv)
    ensures var p := s.ports[s.mappedPorts[i]];
            if Same(p.local, e.local) && Same(p.mapped, e.mapped) then s' == s
            else Fails(s, s', e.client, e.nl, 12)
  {
    FirstHitFinds(s, e.local, i);
  }

  // ------------------------------------------------------------ query mapping

  /** Datagram `data` is the request for `remote` from `local`, mapped to `mapped`, under `h`. */
  predicate IsRequest(data: seq<U8>, local: SockAddr, remote: SockAddr, mapped: SockAddr, h: U64) {
    ParseDefined(data);
    && Inet(remote.family) && |data| == 64 && Parse(data).Some?
    && var m := Parse(data).value;
       && m.mt == 0 && m.ver == 0 && m.assoc == h && m.Family() == remote.family
       && m.Ap() == View(remote.family, remote) && m.Cp() == View(remote.family, local)
       && m.MappedCp() == View(remote.family, mapped)
  }

  /** The query is posted and its request sent: for `src`, mapped to `mapped`. */
  predicate PostedFor(s: State, s': State, e: Event, src: SockAddr, mapped: SockAddr)
    requires e.EvQuery? && e.queryEnv.reqId.Some?
  {
    && s'.main == s.main && s'.clientOut == s.clientOut && |s'.reqs| == |s.reqs| + 1 && s'.reqs[1..] == s.reqs
    && var r := s'.reqs[0];
       && r.id == e.queryEnv.reqId.value && r.kind == Query && r.src == src && r.remote == e.remote && r.nl == e.nl
       && r.assoc == e.queryEnv.addr && r.timeout == 10 && !r.complete
       && r.sendMsg.Some? && r.sendMsg.value.dest == ToHost(e.remote.(port := 3935))
       && IsRequest(r.sendMsg.value.data, e.local, e.remote, mapped, e.queryEnv.addr)
       && s'.wireOut == if e.queryEnv.pendingOk then s.wireOut + [r.sendMsg.value] else s.wireOut
  }

  /** What is needed besides a mapping. */
  predicate CanPost(e: Event)
    requires e.EvQuery?
  {
    Inet(e.remote.family) && e.queryEnv.sendOk && e.queryEnv.reqId.Some?
  }

  lemma QueryMessage(local: SockAddr, remote: SockAddr, mapped: SockAddr, h: U64)
    requires Inet(remote.family)
    ensures IsRequest(Form(QueryParms(local, remote, mapped, h)), local, remote, mapped, h)
  {
    var m := QueryParms(local, remote, mapped, h);
    RoundTrip(m);
  }

  /** The part of a query after its mapping was got, for `s` without the mapping. */
  lemma HeldPosts(s: State, s1: State, id: PortId, e: Event, s': State)
    requires e.EvQuery? && CanPost(e) && id in s1.ports && !s1.ports[id].wcard && s1 == s.(ports := s1.ports)
    requires s' == QueryHeld(s1, id, e.client, e.nl, e.local, e.remote, e.queryEnv)
    ensures PostedFor(s, s', e, s1.ports[id].local, s1.ports[id].mapped)
    ensures s'.ports == s1.ports
    ensures s'.mappedPorts == if s1.ports[id].refCnt > 1 then s.mappedPorts else [id] + s.mappedPorts
  {
    QueryMessage(e.local, e.remote, s1.ports[id].mapped, e.queryEnv.addr);
  }

  lemma NewFields(client: nat, local: SockAddr, noPortMap: bool, tcp: Option<U16>, p: MappedPort)
    requires CreatePort(client, local, noPortMap, tcp) == Some(p)
    ensures p.owner == client && p.local == local && Maps(local, p.mapped, noPortMap, tcp)
    ensures p.wcard == IsWildcard(local) && p.refCnt == 1
  {
  }

  /** A query from an address that is not mapped. */
  lemma QueryNewAnswer(s: State, e: Event, s': State)
    requires e.EvQuery? && Unmapped(s, e.local) && e.queryEnv.parseOk && Enabled(s, e)
    requires Granted(e.noPortMap, e.queryEnv.tcp, e.queryEnv.portId) && !IsWildcard(e.local) && CanPost(e)
    requires Linked(s.ports, s.mappedPorts)
    requires s' == QueryMapping(s, e.client, e.nl, e.local, e.remote, e.noPortMap, e.queryEnv)
    ensures var id := e.queryEnv.portId.value;
            && id in s'.ports && Maps(e.local, s'.ports[id].mapped, e.noPortMap, e.queryEnv.tcp)
            && Entered(s, s', id, e.client, e.local, s'.ports[id].mapped)
            && PostedFor(s, s', e, e.local, s'.ports[id].mapped)
  {
    UnmappedFinds(s, e.local);
    var id, p := e.queryEnv.portId.value, CreatePort(e.client, e.local, e.noPortMap, e.queryEnv.tcp).value;
    NewFields(e.client, e.local, e.noPortMap, e.queryEnv.tcp, p);
    HeldPosts(s, s.(ports := s.ports[id := p]), id, e, s');
  }

  /** The same where it fails. */
  lemma QueryNewRefused(s: State, e: Event, s': State)
    requires e.EvQuery? && Unmapped(s, e.local) && e.queryEnv.parseOk && Enabled(s, e)
    requires Linked(s.ports, s.mappedPorts)
    requires s' == QueryMapping(s, e.client, e.nl, e.local, e.remote, e.noPortMap, e.queryEnv)
    ensures var refused := !Granted(e.noPortMap, e.queryEnv.tcp, e.queryEnv.portId) || IsWildcard(e.local);
            (refused ==> Fails(s, s', e.client, e.nl, 11)) && (!refused && !CanPost(e) ==> s' == s)
  {
    UnmappedFinds(s, e.local);
    if Granted(e.noPortMap, e.queryEnv.tcp, e.queryEnv.portId) {
      var id, p := e.queryEnv.portId.value, CreatePort(e.client, e.local, e.noPortMap, e.queryEnv.tcp).value;
      assert s.ports[id := p] - {id} == s.ports;
    }
  }

  /** A query from an address that is mapped. */
  lemma QueryHeldAnswer(s: State, e: Event, s': State, i: nat)
    requires e.EvQuery? && FirstHit(s, e.local, i) && e.queryEnv.parseOk && Enabled(s, e)
    requires s.ports[s.mappedPorts[i]].refCnt >= 1 && !s.ports[s.mappedPorts[i]].wcard && CanPost(e)
    requires s' == QueryMapping(s, e.client, e.nl, e.local, e.remote, e.noPortMap, e.queryEnv)
    ensures var id := s.mappedPorts[i];
            Referenced(s, s', id) && PostedFor(s, s', e, s.ports[id].local, s.ports[id].mapped)
  {
    FirstHitFinds(s, e.local, i);
    var id := s.mappedPorts[i];
    HeldPosts(s, AddRef(s, id), id, e, s');
  }

  lemma QueryHeldRefused(s: State, e: Event, s': State, i: nat)
    requires e.EvQuery? && FirstHit(s, e.local, i) && e.queryEnv.parseOk && Enabled(s, e)
    requires s.ports[s.mappedPorts[i]].refCnt >= 1
    requires s' == QueryMapping(s, e.client, e.nl, e.local, e.remote, e.noPortMap, e.queryEnv)
    ensures var refused := s.ports[s.mappedPorts[i]].wcard;
            (refused ==> Fails(s, s', e.client, e.nl, 11)) && (!refused && !CanPost(e) ==> s' == s)
  {
    FirstHitFinds(s, e.local, i);
    UnwindHeld(s, s.mappedPorts[i]);
  }

  // ----------------------------------------------------------- remove mapping

  /** Place `i` of the list is the first whose mapping has the very address `local`. */
  ghost predicate FirstSame(s: State, local: SockAddr, i: nat) {
    && i < |s.mappedPorts| && Linked(s.ports, s.mappedPorts) && Same(local, s.ports[s.mappedPorts[i]].local)
    && forall j :: 0 <= j < i ==> !Same(local, s.ports[s.mappedPorts[j]].local)
  }

  lemma FirstSameFinds(s: State, local: SockAddr, i: nat)
    requires FirstSame(s, local, i)
    ensures FindSame(s.ports, s.mappedPorts, local, true) == Some(s.mappedPorts[i])
  {
    FindSameFirst(s.ports, s.mappedPorts, local, true, i);
  }

  lemma {:induction false} WithoutPlace(ids: seq<PortId>, i: nat)
    requires i < |ids| && NoDup(ids)
    ensures Without(ids, ids[i]) == ids[..i] + ids[i + 1..]
  {
    if i == 0 { WithoutNone(ids[1..], ids[0]); }
    else {
      assert ids[i] == ids[1..][i - 1] && ids[i] != ids[0];
      WithoutPlace(ids[1..], i - 1);
      assert ids[..i] + ids[i + 1..] == [ids[0]] + (ids[1..][..i - 1] + ids[1..][i..]);
    }
  }

  lemma {:induction false} WithoutNone(ids: seq<PortId>, id: PortId)
    requires id !in ids
    ensures Without(ids, id) == ids
  {
    if ids != [] { WithoutNone(ids[1..], id); }
  }

  /** The owner gives a reference back; the last one takes the mapping away. */
  lemma RemoveOwnAnswer(s: State, e: Event, s': State, i: nat)
    requires e.EvRemove? && e.parseOk && FirstSame(s, e.local, i) && NoDup(s.mappedPorts)
    requires s.ports[s.mappedPorts[i]].owner == e.client && s.ports[s.mappedPorts[i]].refCnt >= 1
    requires s' == RemoveMapping(s, e.client, e.nl, e.local, e.parseOk)
    ensures var id := s.mappedPorts[i];
            && s'.reqs == s.reqs && s'.wireOut == s.wireOut && s'.clientOut == s.clientOut && s'.main == s.main
            && if s.ports[id].refCnt == 1 then
                 && s'.ports == s.ports - {id} && s'.mappedPorts == s.mappedPorts[..i] + s.mappedPorts[i + 1..]
               else
                 && s'.mappedPorts == s.mappedPorts && s'.ports.Keys == s.ports.Keys
                 && (forall x :: x in s.ports && x != id ==> s'.ports[x] == s.ports[x])
                 && s'.ports[id] == s.ports[id].(refCnt := s.ports[id].refCnt - 1)
  {
    FirstSameFinds(s, e.local, i);
    WithoutPlace(s.mappedPorts, i);
  }

  /** Nobody else's request, and none for an address that is not mapped, has any effect. */
  lemma RemoveNothing(s: State, e: Event)
    requires e.EvRemove? && e.parseOk && Linked(s.ports, s.mappedPorts)
    requires (forall j :: 0 <= j < |s.mappedPorts| ==> !Same(e.local, s.ports[s.mappedPorts[j]].local))
             || exists i: nat :: FirstSame(s, e.local, i) && s.ports[s.mappedPorts[i]].owner != e.client
    ensures RemoveMapping(s, e.client, e.nl, e.local, e.parseOk) == s
  {
    if i: nat :| FirstSame(s, e.local, i) && s.ports[s.mappedPorts[i]].owner != e.client {
      FirstSameFinds(s, e.local, i);
    } else { FindSameFirst(s.ports, s.mappedPorts, e.local, true, |s.mappedPorts|); }
  }

  /** A message that cannot be read. */
  lemma MalformedAnswer(s: State, e: Event)
    requires Safe(s) && Enabled(s, e)
    requires (e.EvAdd? && !e.addEnv.parseOk) || (e.EvQuery? && !e.queryEnv.parseOk)
             || (e.EvRemove? && !e.parseOk) || (e.EvMapInfo? && !e.addEnv.parseOk)
    ensures Fails(s, HandleEvent(s, e), e.client, e.nl, 10)
  {
  }
}
