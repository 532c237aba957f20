/** What the datagrams of an exchange make of the two daemons, field by field, and that the
    exchange comes to its end: a query whose messages arrive is answered. */
module IwpmExchange {
  import opened IwpmAddr
  import opened IwpmWire
  import opened IwpmState
  import opened IwpmNetwork
  import opened IwpmAnswers

  /** Datagram `data` is a message of type `mt` under `h` about the accepting address `ap` and
      the connecting address `cp`. */
  predicate IsMessage(data: seq<U8>, mt: nat, ap: SockAddr, cp: SockAddr, h: U64) {
    ParseDefined(data);
    Parse(data).Some? && var m := Parse(data).value; m.mt == mt && m.assoc == h && m.Ap() == ap && m.Cp() == cp
  }

  lemma Formed(m: Parms)
    requires m.WellFormed()
    ensures IsMessage(Form(m), m.mt, m.Ap(), m.Cp(), m.assoc)
  {
    RoundTrip(m);
  }

  /** One datagram to `to` is added, if it can be queued. */
  predicate Sends(s: State, s': State, to: Peer, mt: nat, ap: SockAddr, cp: SockAddr, h: U64, ok: bool) {
    if !ok then s'.wireOut == s.wireOut
    else
      && |s'.wireOut| == |s.wireOut| + 1 && s.wireOut <= s'.wireOut
      && var msg := s'.wireOut[|s.wireOut|]; msg.dest == ToPeer(to) && IsMessage(msg.data, mt, ap, cp, h)
  }

  /** One message to a client is added, if it can be sent. */
  predicate Tells(s: State, s': State, out: NlMsg, ok: bool) {
    s'.clientOut == if ok then s.clientOut + [out] else s.clientOut
  }

  /** The request at place `x` is the first of these kinds under `h` from `src`. */
  ghost predicate FirstTracked(s: State, h: U64, src: SockAddr, kinds: set<Kind>, x: nat) {
    && x < |s.reqs| && s.reqs[x].assoc == h && s.reqs[x].kind in kinds && Same(src, s.reqs[x].src)
    && forall j :: 0 <= j < x ==> !(s.reqs[j].assoc == h && s.reqs[j].kind in kinds && Same(src, s.reqs[j].src))
  }

  ghost predicate Untracked(s: State, h: U64, src: SockAddr, kinds: set<Kind>) {
    forall j :: 0 <= j < |s.reqs| ==> !(s.reqs[j].assoc == h && s.reqs[j].kind in kinds && Same(src, s.reqs[j].src))
  }

  // ------------------------------------------------------- the accepting side

  /** A new request for an address that is mapped. */
  lemma RequestTaken(s: State, m: Parms, from: Peer, env: WireEnv, i: nat, s': State)
    requires m.WellFormed() && m.assoc != 0 && FirstHit(s, m.Ap(), i) && env.sendOk && env.reqId.Some?
    requires Untracked(s, m.assoc, MappedFor(s.ports[s.mappedPorts[i]], m.Ap()), {Accept})
    requires s' == WireRequest(s, m, from, env)
    ensures var p := s.ports[s.mappedPorts[i]];
            var x := MappedFor(p, m.Ap());
            && s'.ports == s.ports && s'.mappedPorts == s.mappedPorts && s'.main == s.main
            && |s'.reqs| == |s.reqs| + 1 && s'.reqs[1..] == s.reqs
            && IsAccept(s'.reqs[0], env.reqId.value, x, m.Cp(), m.assoc, from)
            && Sends(s, s', from, 1, x, m.Cp(), m.assoc, env.pendingOk)
            && Tells(s, s', RemoteInfo(p.owner, p.local, m.Cp(), p.mapped, m.MappedCp()), env.pendingOk && env.nlOk)
  {
    FirstHitFinds(s, m.Ap(), i);
    var p := s.ports[s.mappedPorts[i]];
    OfferAddress(m, p);
    FindReqFirst(s.reqs, m.assoc, MappedFor(p, m.Ap()), {Accept}, |s.reqs|);
    Formed(AcceptParms(m, p).(mt := MT_ACC));
  }

  lemma ViewAgain(family: U16, a: SockAddr)
    requires Inet(family)
    ensures View(family, a).family == family && View(family, View(family, a)) == View(family, a)
    ensures a == FromIp(family, ToIp(family, a, ANY16), a.port) ==> View(family, a) == a
  {
  }

  lemma OfferAddress(m: Parms, p: MappedPort)
    requires m.WellFormed()
    ensures AcceptParms(m, p).Ap() == MappedFor(p, m.Ap()) && AcceptParms(m, p).Cp() == m.Cp()
    ensures AcceptParms(m, p).assoc == m.assoc
  {
    ViewAgain(m.Family(), m.Ap());
    AcceptAddress(m, p, m.Ap());
  }

  /** The tracking object of an accept of `x`, with its message. */
  predicate IsAccept(r: Request, id: ReqId, x: SockAddr, cp: SockAddr, h: U64, from: Peer) {
    && r.id == id && r.kind == Accept && r.src == x && r.remote == cp && r.assoc == h
    && r.timeout == 10 && !r.complete && r.sendMsg.Some? && r.sendMsg.value.dest == ToPeer(from)
    && IsMessage(r.sendMsg.value.data, 1, x, cp, h)
  }

  /** A request for an address that is not mapped. */
  lemma RequestTurnedDown(s: State, m: Parms, from: Peer, env: WireEnv, s': State)
    requires m.WellFormed() && Unmapped(s, m.Ap()) && Linked(s.ports, s.mappedPorts)
    requires s' == WireRequest(s, m, from, env)
    ensures s' == s.(wireOut := s'.wireOut) && Sends(s, s', from, 3, m.Ap(), m.Cp(), m.assoc, env.pendingOk)
  {
    UnmappedFinds(s, m.Ap());
    Formed(m.(mt := MT_REJ));
  }

  /** The acknowledgement of an accept, at a daemon that has the mapped address. */
  lemma AckTaken(s: State, m: Parms, i: nat, x: nat, s': State)
    requires m.WellFormed() && Linked(s.ports, s.mappedPorts) && i < |s.mappedPorts|
    requires var p := s.ports[s.mappedPorts[i]]; Answers(p, p.mapped, m.Ap())
    requires FirstTracked(s, m.assoc, m.Ap(), {Accept}, x)
    requires s' == WireAck(s, m) && !s.reqs[x].complete
    ensures s' == s.(reqs := s.reqs[x := s.reqs[x].(timeout := 0, complete := true)])
  {
    FindReqFirst(s.reqs, m.assoc, m.Ap(), {Accept}, x);
  }

  // ------------------------------------------------------ the connecting side

  /** An accept that a query waits for: the query is done, and the client will be told. */
  lemma AcceptTaken(s: State, m: Parms, from: Peer, env: WireEnv, i: nat, x: nat, s': State)
    requires m.WellFormed() && FirstSame(s, m.Cp(), i) && s' == AcceptBegin(s, m, from, env)
    requires FirstTracked(s, m.assoc, s.ports[s.mappedPorts[i]].local, {Query, Ack}, x)
    requires s.reqs[x].kind == Query && !s.reqs[x].complete
    ensures s' == s.(reqs := s.reqs[x := s.reqs[x].(timeout := 0, complete := true)],
                     main := Accepted(s.reqs[x], s.mappedPorts[i], m, from))
  {
    FirstSameFinds(s, m.Cp(), i);
    FindReqFirst(s.reqs, m.assoc, s.ports[s.mappedPorts[i]].local, {Query, Ack}, x);
  }

  /** An accept that was answered before is acknowledged again. */
  lemma AcceptRepeated(s: State, m: Parms, from: Peer, env: WireEnv, i: nat, x: nat, s': State)
    requires m.WellFormed() && FirstSame(s, m.Cp(), i) && s' == AcceptBegin(s, m, from, env)
    requires FirstTracked(s, m.assoc, s.ports[s.mappedPorts[i]].local, {Query, Ack}, x)
    requires s.reqs[x].kind == Ack && !s.reqs[x].complete
    ensures s' == s.(reqs := s.reqs[x := s.reqs[x].(timeout := 10)], wireOut := s'.wireOut)
    ensures Sends(s, s', from, 2, m.Ap(), m.Cp(), m.assoc, env.pendingOk)
  {
    FirstSameFinds(s, m.Cp(), i);
    FindReqFirst(s.reqs, m.assoc, s.ports[s.mappedPorts[i]].local, {Query, Ack}, x);
    Formed(m.(mt := MT_ACK));
  }

  /** The client is told of the mapping on its side and of the address in the accept, and the
      accept is acknowledged. */
  lemma AcceptFinished(s: State, env: WireEnv, s': State)
    requires s.main.Accepted? && s.main.port in s.ports && s.main.m.WellFormed() && s.main.copy.assoc != 0
    requires env.nlOk && env.reqId.Some? && s' == AcceptEnd(s, env)
    ensures var copy, p, m := s.main.copy, s.ports[s.main.port], s.main.m;
            && s'.main.Idle? && s'.ports == s.ports && s'.mappedPorts == s.mappedPorts
            && Tells(s, s', ConnInfo(copy.id, copy.nl, p.owner, p.local, copy.remote, p.mapped, m.Ap(), 0), true)
            && Sends(s, s', s.main.from, 2, m.Ap(), m.Cp(), m.assoc, env.pendingOk)
            && |s'.reqs| == |s.reqs| + 1 && s'.reqs[1..] == s.reqs
            && IsRetry(s'.reqs[0], env.reqId.value, copy)
  {
    Formed(s.main.m.(mt := MT_ACK));
  }

  /** The tracking object that recognises a repeated accept of the query `q`. */
  predicate IsRetry(r: Request, id: ReqId, q: Request) {
    && r.id == id && r.kind == Ack && r.src == q.src && r.remote == q.remote && r.assoc == q.assoc
    && r.timeout == 10 && !r.complete && r.sendMsg.None?
  }

  /** A reject that a query waits for. */
  lemma RejectTaken(s: State, m: Parms, env: WireEnv, i: nat, x: nat, s': State)
    requires m.WellFormed() && FirstSame(s, m.Cp(), i) && s' == WireReject(s, m, env)
    requires FirstTracked(s, m.assoc, s.ports[s.mappedPorts[i]].local, {Query}, x) && !s.reqs[x].complete
    ensures var r, p := s.reqs[x], s.ports[s.mappedPorts[i]];
            && s' == s.(reqs := s.reqs[x := r.(timeout := 0, complete := true)], clientOut := s'.clientOut)
            && Tells(s, s', ConnInfo(r.id, r.nl, p.owner, p.local, r.remote, p.mapped, r.remote, 16), env.nlOk)
  {
    FirstSameFinds(s, m.Cp(), i);
    FindReqFirst(s.reqs, m.assoc, s.ports[s.mappedPorts[i]].local, {Query}, x);
  }

  // ------------------------------------------------------------- the exchange

  lemma ReadsBack(data: seq<U8>, s: State, from: Peer, env: WireEnv)
    requires Linked(s.ports, s.mappedPorts) && Parse(data).Some?
    ensures Parse(data).value.WellFormed() && Receive(s, data, from, env) == Dispatch(s, Parse(data).value, from, env)
  {
    ParseDefined(data);
  }

  /** A request of daemon `a` at daemon `b`, which has the peer mapped and has not answered
      yet: it gives an accept whose datagram, back at `a` while the query waits, tells the
      client the mapping on its own side and the mapped address that `b` has for the peer. */
  lemma ExchangeSucceeds(data: seq<U8>, local: SockAddr, remote: SockAddr, mapped: SockAddr, h: Handle,
                         b: State, i: nat, envB: WireEnv, b': State, peerA: Peer, peerB: Peer,
                         a: State, j: nat, x: nat, envA: WireEnv, a': State, envF: WireEnv)
    requires IsRequest(data, local, remote, mapped, h)
    requires FirstHit(b, View(remote.family, remote), i) && envB.sendOk && envB.reqId.Some?
    requires Untracked(b, h, MappedFor(b.ports[b.mappedPorts[i]], remote), {Accept})
    requires b' == Receive(b, data, peerA, envB)
    requires FirstSame(a, View(remote.family, local), j) && envF.nlOk
    requires FirstTracked(a, h, a.ports[a.mappedPorts[j]].local, {Query, Ack}, x)
    requires a.reqs[x].kind == Query && !a.reqs[x].complete && a.reqs[x].remote == remote
    requires |b'.reqs| > 0 && b'.reqs[0].sendMsg.Some?
    requires a' == Receive(a, b'.reqs[0].sendMsg.value.data, peerB, envA)
    ensures a'.main.Accepted? && a'.main.port in a'.ports && a'.main.m.WellFormed()
    ensures var r, p := a.reqs[x], a.ports[a.mappedPorts[j]];
            Tells(a, AcceptEnd(a', envF),
                  ConnInfo(r.id, r.nl, p.owner, p.local, remote, p.mapped,
                           MappedFor(b.ports[b.mappedPorts[i]], remote), 0), true)
  {
    var m := Parse(data).value;
    ReadsBack(data, b, peerA, envB);
    ViewAgain(remote.family, remote);
    RequestTaken(b, m, peerA, envB, i, b');
    AcceptTells(b'.reqs[0].sendMsg.value.data, MappedFor(b.ports[b.mappedPorts[i]], remote),
                View(remote.family, local), h, peerB, a, j, x, envA, a', envF);
  }

  /** The accept's datagram at the daemon whose query waits for it. */
  lemma AcceptTells(data: seq<U8>, ap: SockAddr, cp: SockAddr, h: Handle, from: Peer,
                    a: State, j: nat, x: nat, envA: WireEnv, a': State, envF: WireEnv)
    requires IsMessage(data, 1, ap, cp, h) && FirstSame(a, cp, j) && envF.nlOk
    requires FirstTracked(a, h, a.ports[a.mappedPorts[j]].local, {Query, Ack}, x)
    requires a.reqs[x].kind == Query && !a.reqs[x].complete && a' == Receive(a, data, from, envA)
    ensures a'.main.Accepted? && a'.main.port in a'.ports && a'.main.m.WellFormed()
    ensures var r, p := a.reqs[x], a.ports[a.mappedPorts[j]];
            Tells(a, AcceptEnd(a', envF),
                  ConnInfo(r.id, r.nl, p.owner, p.local, r.remote, p.mapped, ap, 0), true)
  {
    ReadsBack(data, a, from, envA);
    AcceptTaken(a, Parse(data).value, from, envA, j, x, a');
  }

  /** The same where `b` does not have the peer mapped. */
  lemma ExchangeRefused(data: seq<U8>, local: SockAddr, remote: SockAddr, mapped: SockAddr, h: Handle,
                        b: State, envB: WireEnv, b': State, peerA: Peer, peerB: Peer,
                        a: State, j: nat, x: nat, envA: WireEnv, a': State)
    requires IsRequest(data, local, remote, mapped, h) && Linked(b.ports, b.mappedPorts)
    requires Unmapped(b, View(remote.family, remote)) && envB.pendingOk && b' == Receive(b, data, peerA, envB)
    requires FirstSame(a, View(remote.family, local), j) && envA.nlOk
    requires FirstTracked(a, h, a.ports[a.mappedPorts[j]].local, {Query}, x)
    requires !a.reqs[x].complete && a.reqs[x].remote == remote
    requires |b'.wireOut| > |b.wireOut| && a' == Receive(a, b'.wireOut[|b.wireOut|].data, peerB, envA)
    ensures b' == b.(wireOut := b'.wireOut) && b'.wireOut[|b.wireOut|].dest == ToPeer(peerA)
    ensures var r, p := a.reqs[x], a.ports[a.mappedPorts[j]];
            Tells(a, a', ConnInfo(r.id, r.nl, p.owner, p.local, remote, p.mapped, remote, 16), true)
  {
    var m := Parse(data).value;
    ReadsBack(data, b, peerA, envB);
    RequestTurnedDown(b, m, peerA, envB, b');
    var rej := b'.wireOut[|b.wireOut|].data;
    ReadsBack(rej, a, peerB, envA);
    RejectTaken(a, Parse(rej).value, envA, j, x, a');
  }

  /** The acknowledgement, back at the daemon that waits for it, ends the accept. */
  lemma ExchangeEnds(data: seq<U8>, ap: SockAddr, cp: SockAddr, h: Handle, b: State, i: nat, x: nat,
                     from: Peer, env: WireEnv, b': State)
    requires IsMessage(data, 2, ap, cp, h) && Linked(b.ports, b.mappedPorts) && i < |b.mappedPorts|
    requires var p := b.ports[b.mappedPorts[i]]; Answers(p, p.mapped, ap)
    requires FirstTracked(b, h, ap, {Accept}, x) && !b.reqs[x].complete && b' == Receive(b, data, from, env)
    ensures b' == b.(reqs := b.reqs[x := b.reqs[x].(timeout := 0, complete := true)])
  {
    ReadsBack(data, b, from, env);
    AckTaken(b, Parse(data).value, i, x, b');
  }
}
