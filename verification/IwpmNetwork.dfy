/** Port mapper daemons on a network that loses, duplicates and reorders datagrams.

    A datagram that was sent once may be delivered any number of times, at any later
    moment, or never.  What is shown is where the answers given to clients come from. */
module IwpmNetwork {
  import opened Options
  import opened IwpmAddr
  import opened IwpmWire
  import opened IwpmState
  import opened IwpmInvariants
  import opened IwpmRuns

  datatype SysEvent = At(peer: Peer, e: Event)

  /** A run: which daemon listens at an address, the states of all daemons before each
      event and after the last, and the events. */
  datatype Run = Run(net: SockAddr -> Peer, nodes: seq<seq<State>>, events: seq<SysEvent>)

  predicate Reaches(net: SockAddr -> Peer, dest: Dest, a: Peer) {
    match dest
    case ToHost(addr) => net(addr) == a
    case ToPeer(peer) => peer == a
  }

  /** Daemon `from` has sent this datagram, to `a`, at some time before. */
  predicate Delivered(net: SockAddr -> Peer, n: seq<State>, a: Peer, data: seq<U8>, from: Peer) {
    from < |n| && exists j :: 0 <= j < |n[from].wireOut| && n[from].wireOut[j].data == data
                              && Reaches(net, n[from].wireOut[j].dest, a)
  }

  predicate SysStep(net: SockAddr -> Peer, n: seq<State>, ev: SysEvent, n': seq<State>) {
    && ev.peer < |n| && |n'| == |n|
    && IsStep(n[ev.peer], ev.e, n'[ev.peer])
    && (forall b :: 0 <= b < |n| && b != ev.peer ==> n'[b] == n[b])
    && (ev.e.EvRecv? ==> Delivered(net, n, ev.peer, ev.e.data, ev.e.from))
  }

  ghost predicate IsSysRun(run: Run) {
    && |run.nodes| == |run.events| + 1
    && (forall a :: 0 <= a < |run.nodes[0]| ==> run.nodes[0][a] == INIT_STATE)
    && forall i :: 0 <= i < |run.events| ==> SysStepAt(run, i)
  }

  ghost predicate SysStepAt(run: Run, i: nat)
    requires |run.nodes| == |run.events| + 1 && i < |run.events|
  {
    SysStep(run.net, run.nodes[i], run.events[i], run.nodes[i + 1])
  }

  lemma {:induction false} SameSize(run: Run, k: nat)
    requires IsSysRun(run) && k < |run.nodes|
    ensures |run.nodes[k]| == |run.nodes[0]|
  {
    if k > 0 {
      SameSize(run, k - 1);
      assert SysStepAt(run, k - 1);
    }
  }

  lemma {:induction false} NodeValid(run: Run, k: nat, a: Peer)
    requires IsSysRun(run) && k < |run.nodes| && a < |run.nodes[k]|
    ensures Valid(run.nodes[k][a])
  {
    if k > 0 {
      SameSize(run, k - 1);
      SameSize(run, k);
      NodeValid(run, k - 1, a);
      var ev := run.events[k - 1];
      assert SysStepAt(run, k - 1);
      if a == ev.peer { EventKeepsValid(run.nodes[k - 1][a], ev.e); }
    }
  }

  // ------------------------------------------------------- what has happened

  /** Event `i`: daemon `a` posts a query for `remote` under handle `h`. */
  ghost predicate Posts(run: Run, i: int, a: Peer, h: U64, remote: SockAddr)
  {
    && 0 <= i < |run.events| && i + 1 < |run.nodes|
    && run.events[i].peer == a && run.events[i].e.EvQuery?
    && run.events[i].e.remote == remote && run.events[i].e.queryEnv.addr == h
    && a < |run.nodes[i]| && a < |run.nodes[i + 1]|
    && |run.nodes[i + 1][a].reqs| > |run.nodes[i][a].reqs|
  }

  /** A handle is a "unique number per host". */
  ghost predicate UniqueHandles(run: Run) {
    forall i, j, a, h, r, r' :: Posts(run, i, a, h, r) && Posts(run, j, a, h, r') ==> i == j
  }

  /** The daemon that a query for `remote` is sent to. */
  function Serves(run: Run, remote: SockAddr): Peer { run.net(remote.(port := IWARP_PM_PORT)) }

  /** The mapped address that mapping `p` gives for `remote`. */
  function MappedFor(p: MappedPort, remote: SockAddr): SockAddr
    requires Inet(remote.family)
  {
    if p.wcard then View(remote.family, remote).(port := Port(p.mapped)) else View(remote.family, p.mapped)
  }

  /** Mapping `id` is listed for `remote`, exactly or by a wildcard, with mapped address `x`. */
  predicate ListedAs(s: State, id: PortId, remote: SockAddr, x: SockAddr) {
    && Inet(remote.family) && id in s.mappedPorts && id in s.ports
    && Hit(s.ports[id], View(remote.family, remote), true)
    && x == MappedFor(s.ports[id], remote)
  }

  predicate NoneListed(s: State, remote: SockAddr) {
    Inet(remote.family)
    && forall id :: id in s.mappedPorts ==> id in s.ports && !Hit(s.ports[id], View(remote.family, remote), true)
  }

  /** Datagram `data` is a request for `remote` under handle `h`. */
  predicate AsksFor(data: seq<U8>, h: U64, remote: SockAddr) {
    ParseDefined(data);
    Inet(remote.family) && Parse(data).Some?
    && var m := Parse(data).value; m.mt == MT_REQ && m.assoc == h && m.Ap() == View(remote.family, remote)
  }

  /** A tracking object for an accept of `x` under handle `h` is put on the list. */
  predicate AcceptPosted(s: State, s': State, h: U64, x: SockAddr) {
    |s'.reqs| == |s.reqs| + 1 && s'.reqs[1..] == s.reqs
    && s'.reqs[0].kind == Accept && s'.reqs[0].assoc == h && s'.reqs[0].src == x
  }

  /** A reject of a request under handle `h` is sent to daemon `a`. */
  predicate RejectSent(s: State, s': State, a: Peer, h: U64) {
    |s'.wireOut| == |s.wireOut| + 1 && s.wireOut <= s'.wireOut && IsReject(s'.wireOut[|s.wireOut|], a, h)
  }

  predicate IsReject(msg: SendMsg, a: Peer, h: U64) {
    msg.dest == ToPeer(a) && Parse(msg.data).Some?
    && Parse(msg.data).value.mt == MT_REJ && Parse(msg.data).value.assoc == h
  }

  /** Event `i`: daemon `b` takes up a request of daemon `a`. */
  ghost predicate TakesUp(run: Run, i: int, b: Peer, a: Peer, h: U64, remote: SockAddr) {
    && 0 <= i < |run.events| && i + 1 < |run.nodes| && b < |run.nodes[i]| && b < |run.nodes[i + 1]|
    && run.events[i].peer == b && run.events[i].e.EvRecv? && run.events[i].e.from == a
    && AsksFor(run.events[i].e.data, h, remote) && Issued(run, i, a, h, remote)
  }

  /** Event `i`: daemon `b` takes up the request of `a` for `remote` under handle `h`, has
      `remote` listed as `x` at that moment, and forms the accept of `x`. */
  ghost predicate Offers(run: Run, i: int, b: Peer, a: Peer, h: U64, remote: SockAddr, x: SockAddr) {
    && TakesUp(run, i, b, a, h, remote)
    && (exists id :: ListedAs(run.nodes[i][b], id, remote, x))
    && AcceptPosted(run.nodes[i][b], run.nodes[i + 1][b], h, x)
  }

  /** Event `i`: daemon `b` takes up that request, has nothing listed for `remote` at that
      moment, and sends a reject. */
  ghost predicate Refuses(run: Run, i: int, b: Peer, a: Peer, h: U64, remote: SockAddr) {
    && TakesUp(run, i, b, a, h, remote)
    && NoneListed(run.nodes[i][b], remote)
    && RejectSent(run.nodes[i][b], run.nodes[i + 1][b], a, h)
  }

  ghost predicate Issued(run: Run, k: nat, a: Peer, h: U64, remote: SockAddr) {
    Inet(remote.family) && exists i :: i < k && Posts(run, i, a, h, remote)
  }

  /** `src` is the local address of a mapping listed for `local`. */
  ghost predicate SourceFor(s: State, local: SockAddr, src: SockAddr) {
    exists id :: ListedFor(s, id, local) && src == s.ports[id].local
  }

  /** Event `i` posts the query that tracking object `id` stands for, for message `nl` of a
      client, by a mapping with local address `src`. */
  ghost predicate PostsAs(run: Run, i: int, a: Peer, id: ReqId, nl: NlHdr, h: U64, remote: SockAddr, src: SockAddr) {
    && Posts(run, i, a, h, remote)
    && run.events[i].e.queryEnv.reqId == Some(id) && run.events[i].e.nl == nl
    && SourceFor(run.nodes[i + 1][a], run.events[i].e.local, src)
  }

  ghost predicate IssuedAs(run: Run, k: nat, a: Peer, id: ReqId, nl: NlHdr, h: U64, remote: SockAddr, src: SockAddr) {
    Inet(remote.family) && exists i :: i < k && PostsAs(run, i, a, id, nl, h, remote, src)
  }

  /** Event `t`: daemon `a` takes up message `m` of daemon `b`. */
  ghost predicate Hears(run: Run, t: int, a: Peer, b: Peer, m: Parms) {
    && 0 <= t < |run.events| && t < |run.nodes| && a < |run.nodes[t]|
    && run.events[t].peer == a && run.events[t].e.EvRecv? && run.events[t].e.from == b
    && Parse(run.events[t].e.data) == Some(m)
  }

  /** The client message `out` tells of a mapping that is listed. */
  ghost predicate TellsOwn(s: State, out: NlMsg)
    requires out.ConnInfo?
  {
    exists id :: id in s.mappedPorts && id in s.ports && out.owner == s.ports[id].owner
                 && out.local == s.ports[id].local && out.mappedLoc == s.ports[id].mapped
  }

  /** Event `t`: daemon `a` takes up the accept or reject of `b` under `h`, and has the mapping
      listed that its client is told of. */
  ghost predicate HearsAnswer(run: Run, t: int, a: Peer, b: Peer, h: U64, out: NlMsg)
    requires out.ConnInfo?
  {
    && (exists m :: Hears(run, t, a, b, m) && m.assoc == h && m.mt == (if out.err == 0 then MT_ACC else MT_REJ))
    && TellsOwn(run.nodes[t][a], out)
  }

  /** `cp` carries address `local` and `mapped` the mapped address of a mapping listed for it. */
  ghost predicate MappedFrom(s: State, local: SockAddr, family: U16, cp: SockAddr, mapped: SockAddr)
    requires Inet(family)
  {
    cp == View(family, local) && exists id :: ListedFor(s, id, local) && mapped == View(family, s.ports[id].mapped)
  }

  /** Event `q` posts that query, for the addresses that `cp` and `mapped` carry. */
  ghost predicate PostsFrom(run: Run, q: int, a: Peer, h: U64, remote: SockAddr, cp: SockAddr, mapped: SockAddr) {
    && Posts(run, q, a, h, remote) && Inet(remote.family)
    && MappedFrom(run.nodes[q + 1][a], run.events[q].e.local, remote.family, cp, mapped)
  }

  /** A step forms the accept of a mapping listed for `remote`, of which client message `out` tells. */
  ghost predicate OffersListed(s: State, s': State, h: U64, remote: SockAddr, out: NlMsg)
    requires out.RemoteInfo?
  {
    exists id, x :: ListedAs(s, id, remote, x) && TellsOf(out, s.ports[id]) && AcceptPosted(s, s', h, x)
  }

  predicate TellsOf(out: NlMsg, p: MappedPort)
    requires out.RemoteInfo?
  {
    out.owner == p.owner && out.local == p.local && out.mappedLoc == p.mapped
  }

  ghost predicate IssuedFrom(run: Run, k: nat, a: Peer, h: U64, remote: SockAddr, cp: SockAddr, mapped: SockAddr) {
    exists q :: q < k && PostsFrom(run, q, a, h, remote, cp, mapped)
  }

  ghost predicate Offered(run: Run, k: nat, b: Peer, a: Peer, h: U64, remote: SockAddr, x: SockAddr) {
    exists i :: i < k && Offers(run, i, b, a, h, remote, x)
  }

  ghost predicate Refused(run: Run, k: nat, b: Peer, a: Peer, h: U64, remote: SockAddr) {
    exists i :: i < k && Refuses(run, i, b, a, h, remote)
  }

  // ---------------------------------------------------------- what is known

  /** Request message `m` of daemon `a` stands for its query for `remote`. */
  ghost predicate Asks(run: Run, k: nat, a: Peer, dest: Dest, m: Parms, remote: SockAddr)
    requires m.WellFormed()
  {
    && Issued(run, k, a, m.assoc, remote) && m.Family() == remote.family
    && IssuedFrom(run, k, a, m.assoc, remote, m.Cp(), m.MappedCp())
    && m.Ap() == View(remote.family, remote) && dest == ToHost(remote.(port := IWARP_PM_PORT))
  }

  /** Accept message `m` of daemon `b` answers the query of daemon `a` for `remote`. */
  ghost predicate Accepts(run: Run, k: nat, b: Peer, a: Peer, m: Parms, remote: SockAddr)
    requires m.WellFormed()
  {
    b == Serves(run, remote) && Offered(run, k, b, a, m.assoc, remote, m.Ap())
  }

  ghost predicate Rejects(run: Run, k: nat, b: Peer, a: Peer, m: Parms, remote: SockAddr) {
    b == Serves(run, remote) && Refused(run, k, b, a, m.assoc, remote)
  }

  ghost predicate MsgOk(run: Run, k: nat, a: Peer, msg: SendMsg) {
    ParseDefined(msg.data);
    match Parse(msg.data)
    case None => true
    case Some(m) =>
      && (m.mt == MT_REQ ==> exists remote :: Asks(run, k, a, msg.dest, m, remote))
      && (m.mt == MT_ACC ==> msg.dest.ToPeer? && exists remote :: Accepts(run, k, a, msg.dest.peer, m, remote))
      && (m.mt == MT_REJ ==> msg.dest.ToPeer? && exists remote :: Rejects(run, k, a, msg.dest.peer, m, remote))
  }

  ghost predicate ReqKnown(run: Run, k: nat, a: Peer, r: Request) {
    && (r.sendMsg.Some? ==> MsgOk(run, k, a, r.sendMsg.value))
    && (r.kind == Query ==> IssuedAs(run, k, a, r.id, r.nl, r.assoc, r.remote, r.src))
  }

  ghost predicate ReqsKnown(run: Run, k: nat, a: Peer, reqs: seq<Request>) {
    forall j :: 0 <= j < |reqs| ==> ReqKnown(run, k, a, reqs[j])
  }

  ghost predicate MainKnown(run: Run, k: nat, a: Peer, main: Main, ports: map<PortId, MappedPort>) {
    main.Accepted? ==>
      && main.m.WellFormed() && main.copy.assoc == main.m.assoc
      && IssuedAs(run, k, a, main.copy.id, main.copy.nl, main.copy.assoc, main.copy.remote, main.copy.src)
      && exists t: nat, remote :: t < k && TookAccept(run, t, a, main, ports, remote)
  }

  /** The accept at hand was taken up at event `t`, with a mapping that is as it was then. */
  ghost predicate TookAccept(run: Run, t: nat, a: Peer, main: Main, ports: map<PortId, MappedPort>, remote: SockAddr)
    requires main.Accepted?
  {
    && Hears(run, t, a, main.from, main.m) && main.m.WellFormed() && main.m.mt == MT_ACC
    && Holds(run.nodes[t][a], main, ports) && Accepts(run, t, main.from, a, main.m, remote)
  }

  predicate Holds(s: State, main: Main, ports: map<PortId, MappedPort>)
    requires main.Accepted?
  {
    && main.port in s.mappedPorts && main.port in s.ports && main.port in ports
    && ports[main.port] == s.ports[main.port] && Same(ports[main.port].local, main.copy.src)
  }

  ghost predicate OutKnown(run: Run, k: nat, a: Peer, out: NlMsg) {
    && (out.ConnInfo? && UniqueHandles(run) ==> exists h, src :: AnswerKnown(run, k, a, h, src, out))
    && (out.RemoteInfo? ==> exists q, i, b, h, remote :: i < k && Introduces(run, q, i, a, b, h, remote, out))
  }

  /** Client message `out` of daemon `a` introduces the peer whose query was posted at `q` by
      daemon `b` and after that, at `i`, taken up by `a`. */
  ghost predicate Introduces(run: Run, q: int, i: int, a: Peer, b: Peer, h: U64, remote: SockAddr, out: NlMsg)
    requires out.RemoteInfo?
  {
    && q < i && a == Serves(run, remote) && PostsFrom(run, q, b, h, remote, out.remote, out.mappedRem)
    && TakesUp(run, i, a, b, h, remote)
    && OffersListed(run.nodes[i][a], run.nodes[i + 1][a], h, remote, out)
  }

  /** The answer `out` goes back to the query posted under `h` from `src`. */
  ghost predicate AnswerKnown(run: Run, k: nat, a: Peer, h: U64, src: SockAddr, out: NlMsg)
    requires out.ConnInfo?
  {
    && IssuedAs(run, k, a, out.req, out.nl, h, out.remote, src) && Same(out.local, src)
    && Answered(run, k, a, h, out)
  }

  ghost predicate Answered(run: Run, k: nat, a: Peer, h: U64, out: NlMsg)
    requires out.ConnInfo?
  {
    exists t: nat :: t < k && AnsweredAt(run, t, a, h, out)
  }

  /** It was taken up at event `t`, and offered or refused before that. */
  ghost predicate AnsweredAt(run: Run, t: nat, a: Peer, h: U64, out: NlMsg)
    requires out.ConnInfo?
  {
    && HearsAnswer(run, t, a, Serves(run, out.remote), h, out)
    && (out.err == 0 ==> Offered(run, t, Serves(run, out.remote), a, h, out.remote, out.mappedRem))
    && (out.err != 0 ==> Refused(run, t, Serves(run, out.remote), a, h, out.remote))
  }

  ghost predicate Known(run: Run, k: nat, a: Peer, s: State) {
    && (forall j :: 0 <= j < |s.wireOut| ==> MsgOk(run, k, a, s.wireOut[j]))
    && ReqsKnown(run, k, a, s.reqs)
    && MainKnown(run, k, a, s.main, s.ports)
    && (forall j :: 0 <= j < |s.clientOut| ==> OutKnown(run, k, a, s.clientOut[j]))
  }

  // --------------------------------------------------- knowledge is not lost

  lemma IssuedLater(run: Run, k: nat, a: Peer, h: U64, remote: SockAddr)
    requires Issued(run, k, a, h, remote)
    ensures Issued(run, k + 1, a, h, remote)
  {
    var i :| i < k && Posts(run, i, a, h, remote);
    assert i < k + 1;
  }

  lemma IssuedAsLater(run: Run, k: nat, a: Peer, id: ReqId, nl: NlHdr, h: U64, remote: SockAddr, src: SockAddr)
    requires IssuedAs(run, k, a, id, nl, h, remote, src)
    ensures IssuedAs(run, k + 1, a, id, nl, h, remote, src)
  {
    var i :| i < k && PostsAs(run, i, a, id, nl, h, remote, src);
    assert i < k + 1;
  }

  lemma IssuedFromLater(run: Run, k: nat, a: Peer, h: U64, remote: SockAddr, cp: SockAddr, mapped: SockAddr)
    requires IssuedFrom(run, k, a, h, remote, cp, mapped)
    ensures IssuedFrom(run, k + 1, a, h, remote, cp, mapped)
  {
    var q :| q < k && PostsFrom(run, q, a, h, remote, cp, mapped);
    assert q < k + 1;
  }

  lemma OfferedLater(run: Run, k: nat, b: Peer, a: Peer, h: U64, remote: SockAddr, x: SockAddr)
    requires Offered(run, k, b, a, h, remote, x)
    ensures Offered(run, k + 1, b, a, h, remote, x)
  {
    var i :| i < k && Offers(run, i, b, a, h, remote, x);
    assert i < k + 1;
  }

  lemma RefusedLater(run: Run, k: nat, b: Peer, a: Peer, h: U64, remote: SockAddr)
    requires Refused(run, k, b, a, h, remote)
    ensures Refused(run, k + 1, b, a, h, remote)
  {
    var i :| i < k && Refuses(run, i, b, a, h, remote);
    assert i < k + 1;
  }

  lemma AcceptsLater(run: Run, k: nat, b: Peer, a: Peer, m: Parms, remote: SockAddr)
    requires m.WellFormed() && Accepts(run, k, b, a, m, remote)
    ensures Accepts(run, k + 1, b, a, m, remote)
  {
    OfferedLater(run, k, b, a, m.assoc, remote, m.Ap());
  }

  lemma RejectsLater(run: Run, k: nat, b: Peer, a: Peer, m: Parms, remote: SockAddr)
    requires Rejects(run, k, b, a, m, remote)
    ensures Rejects(run, k + 1, b, a, m, remote)
  {
    RefusedLater(run, k, b, a, m.assoc, remote);
  }

  lemma AsksLater(run: Run, k: nat, a: Peer, dest: Dest, m: Parms, remote: SockAddr)
    requires m.WellFormed() && Asks(run, k, a, dest, m, remote)
    ensures Asks(run, k + 1, a, dest, m, remote)
  {
    IssuedLater(run, k, a, m.assoc, remote);
    IssuedFromLater(run, k, a, m.assoc, remote, m.Cp(), m.MappedCp());
  }

  lemma MsgLater(run: Run, k: nat, a: Peer, msg: SendMsg)
    requires MsgOk(run, k, a, msg)
    ensures MsgOk(run, k + 1, a, msg)
  {
    ParseDefined(msg.data);
    if Parse(msg.data).Some? {
      var m := Parse(msg.data).value;
      if m.mt == MT_REQ {
        var remote :| Asks(run, k, a, msg.dest, m, remote);
        AsksLater(run, k, a, msg.dest, m, remote);
      } else if m.mt == MT_ACC {
        var remote :| Accepts(run, k, a, msg.dest.peer, m, remote);
        AcceptsLater(run, k, a, msg.dest.peer, m, remote);
      } else if m.mt == MT_REJ {
        var remote :| Rejects(run, k, a, msg.dest.peer, m, remote);
        RejectsLater(run, k, a, msg.dest.peer, m, remote);
      }
    }
  }

  lemma ReqLater(run: Run, k: nat, a: Peer, r: Request)
    requires ReqKnown(run, k, a, r)
    ensures ReqKnown(run, k + 1, a, r)
  {
    if r.sendMsg.Some? { MsgLater(run, k, a, r.sendMsg.value); }
    if r.kind == Query { IssuedAsLater(run, k, a, r.id, r.nl, r.assoc, r.remote, r.src); }
  }

  lemma MainLater(run: Run, k: nat, a: Peer, main: Main, ports: map<PortId, MappedPort>)
    requires MainKnown(run, k, a, main, ports)
    ensures MainKnown(run, k + 1, a, main, ports)
  {
    if main.Accepted? {
      IssuedAsLater(run, k, a, main.copy.id, main.copy.nl, main.copy.assoc, main.copy.remote, main.copy.src);
      var t: nat, remote :| t < k && TookAccept(run, t, a, main, ports, remote);
      assert t < k + 1;
    }
  }

  lemma AnsweredLater(run: Run, k: nat, a: Peer, h: U64, out: NlMsg)
    requires out.ConnInfo? && Answered(run, k, a, h, out)
    ensures Answered(run, k + 1, a, h, out)
  {
    var t: nat :| t < k && AnsweredAt(run, t, a, h, out);
    assert t < k + 1;
  }

  lemma OutLater(run: Run, k: nat, a: Peer, out: NlMsg)
    requires OutKnown(run, k, a, out)
    ensures OutKnown(run, k + 1, a, out)
  {
    if out.RemoteInfo? {
      var q, i, b, h, remote :| i < k && Introduces(run, q, i, a, b, h, remote, out);
      assert i < k + 1;
    }
    if out.ConnInfo? && UniqueHandles(run) {
      var h, src :| AnswerKnown(run, k, a, h, src, out);
      IssuedAsLater(run, k, a, out.req, out.nl, h, out.remote, src);
      AnsweredLater(run, k, a, h, out);
      assert AnswerKnown(run, k + 1, a, h, src, out);
    }
  }

  lemma KnownLater(run: Run, k: nat, a: Peer, s: State)
    requires Known(run, k, a, s)
    ensures Known(run, k + 1, a, s)
  {
    forall j | 0 <= j < |s.wireOut| ensures MsgOk(run, k + 1, a, s.wireOut[j]) { MsgLater(run, k, a, s.wireOut[j]); }
    forall j | 0 <= j < |s.reqs| ensures ReqKnown(run, k + 1, a, s.reqs[j]) { ReqLater(run, k, a, s.reqs[j]); }
    forall j | 0 <= j < |s.clientOut|
      ensures OutKnown(run, k + 1, a, s.clientOut[j])
    {
      OutLater(run, k, a, s.clientOut[j]);
    }
    MainLater(run, k, a, s.main, s.ports);
  }

  /** A message of a type that carries no promise. */
  lemma AckMsgOk(run: Run, k: nat, a: Peer, dest: Dest, m: Parms)
    requires m.WellFormed() && m.mt == MT_ACK
    ensures MsgOk(run, k, a, SendMsg(dest, Form(m)))
  {
    RoundTrip(m);
  }

  lemma KnownWire(run: Run, k: nat, a: Peer, s: State, msg: SendMsg)
    requires Known(run, k, a, s) && MsgOk(run, k, a, msg)
    ensures Known(run, k, a, s.(wireOut := s.wireOut + [msg]))
  {
  }

  lemma KnownReq(run: Run, k: nat, a: Peer, s: State, r: Request)
    requires Known(run, k, a, s) && ReqKnown(run, k, a, r)
    ensures Known(run, k, a, s.(reqs := [r] + s.reqs))
  {
  }

  lemma KnownOut(run: Run, k: nat, a: Peer, s: State, out: NlMsg)
    requires Known(run, k, a, s) && OutKnown(run, k, a, out)
    ensures Known(run, k, a, s.(clientOut := s.clientOut + [out]))
  {
  }

  lemma KnownMain(run: Run, k: nat, a: Peer, s: State, main: Main)
    requires Known(run, k, a, s) && MainKnown(run, k, a, main, s.ports)
    ensures Known(run, k, a, s.(main := main))
  {
  }

  /** Only the table differs. */
  lemma KnownTable(run: Run, k: nat, a: Peer, s: State, s': State)
    requires Known(run, k, a, s) && s.main.Idle?
    requires s' == s.(ports := s'.ports, mappedPorts := s'.mappedPorts)
    ensures Known(run, k, a, s')
  {
  }

  // ------------------------------------------------------------- each event

  /** The run at event `k`, where daemon `a` in state `s` acts and all that was sent is known. */
  ghost predicate Acting(run: Run, k: nat, a: Peer, s: State) {
    && IsSysRun(run) && k < |run.events|
    && run.events[k].peer == a && a < |run.nodes[k]| && run.nodes[k][a] == s
    && KnownAt(run, k)
  }

  lemma QueryReqKnown(run: Run, k: nat, a: Peer, id: PortId)
    requires k < |run.events| && run.events[k].e.EvQuery? && Inet(run.events[k].e.remote.family)
    requires run.events[k].e.queryEnv.reqId.Some?
    requires Posts(run, k, a, run.events[k].e.queryEnv.addr, run.events[k].e.remote)
    requires ListedFor(run.nodes[k + 1][a], id, run.events[k].e.local)
    ensures var e, p := run.events[k].e, run.nodes[k + 1][a].ports[id];
            var r := QueryRequest(p, e.queryEnv.reqId.value, e.queryEnv.addr, e.nl, e.local, e.remote);
            ReqKnown(run, k + 1, a, r) && MsgOk(run, k + 1, a, r.sendMsg.value)
  {
    var e, p := run.events[k].e, run.nodes[k + 1][a].ports[id];
    var m := QueryParms(e.local, e.remote, p.mapped, e.queryEnv.addr);
    assert k < k + 1;
    assert PostsFrom(run, k, a, m.assoc, e.remote, m.Cp(), m.MappedCp());
    assert Issued(run, k + 1, a, e.queryEnv.addr, e.remote);
    assert PostsAs(run, k, a, e.queryEnv.reqId.value, e.nl, e.queryEnv.addr, e.remote, p.local);
    RoundTrip(m);
    assert Asks(run, k + 1, a, ToHost(e.remote.(port := IWARP_PM_PORT)), m, e.remote);
  }

  lemma QueryKnown(run: Run, k: nat, a: Peer, s: State, s': State)
    requires k < |run.events| && k + 1 < |run.nodes| && run.events[k].peer == a
    requires a < |run.nodes[k]| && a < |run.nodes[k + 1]|
    requires s == run.nodes[k][a] && s' == run.nodes[k + 1][a]
    requires s.main.Idle? && run.events[k].e.EvQuery? && Known(run, k + 1, a, s) && QueryShape(s, run.events[k].e, s')
    ensures Known(run, k + 1, a, s')
  {
    var e := run.events[k].e;
    var s1 := s;
    if s'.clientOut != s.clientOut {
      var err :| s'.clientOut == s.clientOut + [Error(e.client, e.nl.nlSeq, err)];
      KnownOut(run, k + 1, a, s, Error(e.client, e.nl.nlSeq, err));
      s1 := s.(clientOut := s'.clientOut);
    }
    if s'.reqs != s.reqs || s'.wireOut != s.wireOut {
      var id :| ListedFor(s', id, e.local) && Posted(s, e, s'.ports[id], s');
      var r := QueryRequest(s'.ports[id], e.queryEnv.reqId.value, e.queryEnv.addr, e.nl, e.local, e.remote);
      assert Posts(run, k, a, e.queryEnv.addr, e.remote);
      QueryReqKnown(run, k, a, id);
      KnownReq(run, k + 1, a, s1, r);
      s1 := s1.(reqs := [r] + s.reqs);
      if s'.wireOut != s.wireOut {
        KnownWire(run, k + 1, a, s1, r.sendMsg.value);
        s1 := s1.(wireOut := s.wireOut + [r.sendMsg.value]);
      }
    }
    KnownTable(run, k + 1, a, s1, s');
  }

  /** What a message `m` from daemon `b`, meant for daemon `a`, stands for. */
  ghost predicate Told(run: Run, k: nat, b: Peer, a: Peer, m: Parms)
    requires m.WellFormed()
  {
    && (m.mt == MT_REQ ==>
          exists remote ::
            a == Serves(run, remote) && Asks(run, k, b, ToHost(remote.(port := IWARP_PM_PORT)), m, remote))
    && (m.mt == MT_ACC ==> exists remote :: Accepts(run, k, b, a, m, remote))
    && (m.mt == MT_REJ ==> exists remote :: Rejects(run, k, b, a, m, remote))
  }

  lemma ReadsAs(run: Run, k: nat, b: Peer, a: Peer, msg: SendMsg, m: Parms)
    requires MsgOk(run, k, b, msg) && m.WellFormed() && Parse(msg.data) == Some(m)
    requires Reaches(run.net, msg.dest, a)
    ensures Told(run, k, b, a, m)
  {
    if m.mt == MT_REQ {
      var remote :| Asks(run, k, b, msg.dest, m, remote);
      assert a == Serves(run, remote);
    }
  }

  lemma DeliveredTold(run: Run, k: nat, a: Peer, s: State, m: Parms)
    requires Acting(run, k, a, s) && run.events[k].e.EvRecv? && m.WellFormed()
    requires Parse(run.events[k].e.data) == Some(m)
    ensures Told(run, k, run.events[k].e.from, a, m)
  {
    var e := run.events[k].e;
    var n := run.nodes[k];
    assert SysStepAt(run, k);
    var j :| 0 <= j < |n[e.from].wireOut| && n[e.from].wireOut[j].data == e.data
             && Reaches(run.net, n[e.from].wireOut[j].dest, a);
    assert Known(run, k, e.from, n[e.from]);
    ReadsAs(run, k, e.from, a, n[e.from].wireOut[j], m);
  }

  lemma AcceptAddress(m: Parms, p: MappedPort, remote: SockAddr)
    requires m.WellFormed() && Inet(remote.family) && m.Family() == remote.family
    requires m.Ap() == View(remote.family, remote)
    ensures AcceptParms(m, p).Ap() == MappedFor(p, remote)
  {
    if m.Family() == AF_INET {
      assert (p.mapped.word + m.apip[4..])[..4] == p.mapped.word == (p.mapped.word + ANY16[4..])[..4];
    }
  }

  /** What taking up a request leaves behind. */
  lemma RequestForms(s: State, m: Parms, from: Peer, env: WireEnv)
    requires Linked(s.ports, s.mappedPorts) && m.WellFormed() && m.assoc != 0
    ensures var s', found := WireRequest(s, m, from, env), Find(s.ports, s.mappedPorts, m.Ap(), true);
            && (found.Some? && s' != s ==> AcceptPosted(s, s', m.assoc, AcceptParms(m, s.ports[found.value]).Ap()))
            && (found.None? && env.pendingOk ==> RejectSent(s, s', from, m.assoc))
  {
    var found := Find(s.ports, s.mappedPorts, m.Ap(), true);
    if found.None? && env.pendingOk {
      RoundTrip(m.(mt := MT_REJ));
      assert IsReject(SendMsg(ToPeer(from), Form(m.(mt := MT_REJ))), from, m.assoc);
    }
  }

  /** At event `k` daemon `a` takes up request `m`, the one for `remote`. */
  ghost predicate Taking(run: Run, k: nat, a: Peer, s: State, m: Parms, remote: SockAddr) {
    && k < |run.events| && k + 1 < |run.nodes| && run.events[k].peer == a
    && a < |run.nodes[k]| && run.nodes[k][a] == s
    && run.events[k].e.EvRecv? && m.WellFormed() && m.mt == MT_REQ
    && Parse(run.events[k].e.data) == Some(m)
    && Asks(run, k, run.events[k].e.from, ToHost(remote.(port := IWARP_PM_PORT)), m, remote)
    && a == Serves(run, remote) && Linked(s.ports, s.mappedPorts) && a < |run.nodes[k + 1]|
    && run.nodes[k + 1][a] == WireRequest(s, m, run.events[k].e.from, run.events[k].e.wireEnv)
  }

  lemma TakingTakesUp(run: Run, k: nat, a: Peer, s: State, m: Parms, remote: SockAddr)
    requires Taking(run, k, a, s, m, remote)
    ensures TakesUp(run, k, a, run.events[k].e.from, m.assoc, remote) && m.assoc != 0
  {
    var i :| i < k && Posts(run, i, run.events[k].e.from, m.assoc, remote);
  }

  /** A request that a mapping is found for and that is new is offered that mapping. */
  lemma OfferMade(s: State, m: Parms, from: Peer, env: WireEnv, remote: SockAddr, id: PortId)
    requires Linked(s.ports, s.mappedPorts) && m.WellFormed() && m.assoc != 0 && Inet(remote.family)
    requires m.Family() == remote.family && m.Ap() == View(remote.family, remote)
    requires Find(s.ports, s.mappedPorts, m.Ap(), true) == Some(id) && WireRequest(s, m, from, env) != s
    ensures var x := AcceptParms(m, s.ports[id]).Ap();
            ListedAs(s, id, remote, x) && AcceptPosted(s, WireRequest(s, m, from, env), m.assoc, x)
  {
    RequestForms(s, m, from, env);
    AcceptAddress(m, s.ports[id], remote);
  }

  lemma AcceptMsgOk(run: Run, k: nat, a: Peer, b: Peer, acc: Parms, remote: SockAddr)
    requires acc.WellFormed() && acc.mt == MT_ACC && a == Serves(run, remote)
    requires Offers(run, k, a, b, acc.assoc, remote, acc.Ap())
    ensures MsgOk(run, k + 1, a, SendMsg(ToPeer(b), Form(acc)))
  {
    assert k < k + 1;
    RoundTrip(acc);
    assert acc.Carried().Ap() == acc.Ap();
    assert Accepts(run, k + 1, a, b, acc.Carried(), remote);
  }

  lemma RejectMsgOk(run: Run, k: nat, a: Peer, b: Peer, m: Parms, remote: SockAddr)
    requires m.WellFormed() && m.mt == MT_REJ && a == Serves(run, remote)
    requires Refuses(run, k, a, b, m.assoc, remote)
    ensures MsgOk(run, k + 1, a, SendMsg(ToPeer(b), Form(m)))
  {
    assert k < k + 1;
    RoundTrip(m);
    assert Rejects(run, k + 1, a, b, m.Carried(), remote);
  }

  /** The accept is a known offer. */
  lemma AcceptFormed(run: Run, k: nat, a: Peer, s: State, m: Parms, remote: SockAddr, id: PortId)
    requires Taking(run, k, a, s, m, remote) && run.nodes[k + 1][a] != s
    requires Find(s.ports, s.mappedPorts, m.Ap(), true) == Some(id)
    ensures MsgOk(run, k + 1, a,
                  SendMsg(ToPeer(run.events[k].e.from), Form(AcceptParms(m, s.ports[id]).(mt := MT_ACC))))
  {
    var e := run.events[k].e;
    TakingTakesUp(run, k, a, s, m, remote);
    OfferMade(s, m, e.from, e.wireEnv, remote, id);
    AcceptMsgOk(run, k, a, e.from, AcceptParms(m, s.ports[id]).(mt := MT_ACC), remote);
  }

  lemma PeerIntroduced(run: Run, k: nat, a: Peer, s: State, m: Parms, remote: SockAddr, id: PortId)
    requires Taking(run, k, a, s, m, remote) && run.nodes[k + 1][a] != s
    requires Find(s.ports, s.mappedPorts, m.Ap(), true) == Some(id)
    ensures OutKnown(run, k + 1, a, Introduction(s.ports[id], m))
  {
    var e, out := run.events[k].e, Introduction(s.ports[id], m);
    TakingTakesUp(run, k, a, s, m, remote);
    OfferMade(s, m, e.from, e.wireEnv, remote, id);
    assert TellsOf(out, s.ports[id]);
    var q :| q < k && PostsFrom(run, q, e.from, m.assoc, remote, m.Cp(), m.MappedCp());
    assert Introduces(run, q, k, a, e.from, m.assoc, remote, out);
    IntroductionKnown(run, q, k, a, e.from, m.assoc, remote, out);
  }

  lemma IntroductionKnown(run: Run, q: int, i: nat, a: Peer, b: Peer, h: U64, remote: SockAddr, out: NlMsg)
    requires out.RemoteInfo? && Introduces(run, q, i, a, b, h, remote, out)
    ensures OutKnown(run, i + 1, a, out)
  {
    assert i < i + 1;
  }

  lemma RejectFormed(run: Run, k: nat, a: Peer, s: State, m: Parms, remote: SockAddr)
    requires Taking(run, k, a, s, m, remote) && run.events[k].e.wireEnv.pendingOk
    requires Find(s.ports, s.mappedPorts, m.Ap(), true).None?
    ensures MsgOk(run, k + 1, a, SendMsg(ToPeer(run.events[k].e.from), Form(m.(mt := MT_REJ))))
  {
    var e := run.events[k].e;
    TakingTakesUp(run, k, a, s, m, remote);
    RequestForms(s, m, e.from, e.wireEnv);
    RejectMsgOk(run, k, a, e.from, m.(mt := MT_REJ), remote);
  }

  /** What taking up a request adds, in terms of the messages it may form: a reject. */
  lemma RejectAdds(run: Run, k: nat, a: Peer, s: State, m: Parms, from: Peer, env: WireEnv)
    requires Known(run, k, a, s) && Linked(s.ports, s.mappedPorts) && m.WellFormed()
    requires Find(s.ports, s.mappedPorts, m.Ap(), true).None?
    requires env.pendingOk ==> MsgOk(run, k, a, SendMsg(ToPeer(from), Form(m.(mt := MT_REJ))))
    ensures Known(run, k, a, WireRequest(s, m, from, env))
  {
    if env.pendingOk { KnownWire(run, k, a, s, SendMsg(ToPeer(from), Form(m.(mt := MT_REJ)))); }
  }

  /** Or an accept, and an introduction. */
  lemma AcceptAdds(run: Run, k: nat, a: Peer, s: State, p: MappedPort, m: Parms, from: Peer, env: WireEnv)
    requires Known(run, k, a, s) && m.WellFormed() && RequestMatched(s, p, m, from, env) != s
    requires MsgOk(run, k, a, SendMsg(ToPeer(from), Form(AcceptParms(m, p).(mt := MT_ACC))))
    requires OutKnown(run, k, a, Introduction(p, m))
    ensures Known(run, k, a, RequestMatched(s, p, m, from, env))
  {
    var acc := AcceptParms(m, p);
    var msg := SendMsg(ToPeer(from), Form(acc.(mt := MT_ACC)));
    var r := NewRequest(env.reqId.value, env.addr, Accept, acc.Ap(), m.Cp(), NlHdr(0, 0, 0), m.assoc, Some(msg));
    KnownReq(run, k, a, s, r);
    var s1 := s.(reqs := [r] + s.reqs);
    KnownWire(run, k, a, s1, msg);
    KnownOut(run, k, a, s1.(wireOut := s.wireOut + [msg]), Introduction(p, m));
  }

  /** The messages that taking up a request forms are known. */
  ghost predicate AnswersOk(run: Run, k: nat, a: Peer, s: State, m: Parms, from: Peer, env: WireEnv)
    requires Linked(s.ports, s.mappedPorts) && m.WellFormed()
  {
    var found := Find(s.ports, s.mappedPorts, m.Ap(), true);
    if found.None? then env.pendingOk ==> MsgOk(run, k, a, SendMsg(ToPeer(from), Form(m.(mt := MT_REJ))))
    else
      var p := s.ports[found.value];
      WireRequest(s, m, from, env) != s ==>
        MsgOk(run, k, a, SendMsg(ToPeer(from), Form(AcceptParms(m, p).(mt := MT_ACC))))
        && OutKnown(run, k, a, Introduction(p, m))
  }

  lemma RequestAnswers(run: Run, k: nat, a: Peer, s: State, m: Parms, remote: SockAddr)
    requires Taking(run, k, a, s, m, remote)
    ensures AnswersOk(run, k + 1, a, s, m, run.events[k].e.from, run.events[k].e.wireEnv)
  {
    var e, found := run.events[k].e, Find(s.ports, s.mappedPorts, m.Ap(), true);
    if found.None? {
      if e.wireEnv.pendingOk { RejectFormed(run, k, a, s, m, remote); }
    } else if run.nodes[k + 1][a] != s {
      AcceptFormed(run, k, a, s, m, remote, found.value);
      PeerIntroduced(run, k, a, s, m, remote, found.value);
    }
  }

  lemma RequestEffect(run: Run, k: nat, a: Peer, s: State, m: Parms, from: Peer, env: WireEnv)
    requires Known(run, k, a, s) && Linked(s.ports, s.mappedPorts) && m.WellFormed()
    requires AnswersOk(run, k, a, s, m, from, env)
    ensures Known(run, k, a, WireRequest(s, m, from, env))
  {
    var found := Find(s.ports, s.mappedPorts, m.Ap(), true);
    if found.None? { RejectAdds(run, k, a, s, m, from, env); }
    else if WireRequest(s, m, from, env) != s { AcceptAdds(run, k, a, s, s.ports[found.value], m, from, env); }
  }

  lemma RequestTold(run: Run, k: nat, a: Peer, s: State, m: Parms, e: Event) returns (remote: SockAddr)
    requires Acting(run, k, a, s) && Linked(s.ports, s.mappedPorts)
    requires e == run.events[k].e && e.EvRecv? && m.WellFormed() && m.mt == MT_REQ
    requires Told(run, k, e.from, a, m) && Parse(e.data) == Some(m)
    requires a < |run.nodes[k + 1]| && run.nodes[k + 1][a] == WireRequest(s, m, e.from, e.wireEnv)
    ensures Taking(run, k, a, s, m, remote)
  {
    remote :| a == Serves(run, remote) && Asks(run, k, e.from, ToHost(remote.(port := IWARP_PM_PORT)), m, remote);
  }

  /** Servicing an object changes nothing that is known of it. */
  lemma ServicedKnown(run: Run, k: nat, a: Peer, s: State, i: nat)
    requires Known(run, k, a, s) && i < |s.reqs|
    ensures Known(run, k, a, s.(reqs := s.reqs[i := Serviced(s.reqs[i])]))
  {
    assert ReqKnown(run, k, a, s.reqs[i]);
  }

  lemma AcceptBeginEffect(run: Run, k: nat, a: Peer, s: State, m: Parms, from: Peer, remote: SockAddr, env: WireEnv)
    requires Known(run, k + 1, a, s) && Linked(s.ports, s.mappedPorts) && m.WellFormed() && m.mt == MT_ACC
    requires Hears(run, k, a, from, m) && run.nodes[k][a] == s && Accepts(run, k, from, a, m, remote)
    ensures Known(run, k + 1, a, AcceptBegin(s, m, from, env))
  {
    var found := FindSame(s.ports, s.mappedPorts, m.Cp(), true);
    if found.Some? {
      MatchedEffect(run, k, a, s, found.value, m, from, remote, env, AcceptBegin(s, m, from, env));
    }
  }

  /** An accept changes nothing, completes a query, or is acknowledged once more. */
  lemma MatchedCases(s: State, id: PortId, p: MappedPort, m: Parms, from: Peer, env: WireEnv, s': State)
    returns (i: nat, s1: State)
    requires m.WellFormed() && s' == AcceptMatched(s, id, p, m, from, env) && s' != s
    ensures i < |s.reqs| && s1 == s.(reqs := s.reqs[i := Serviced(s.reqs[i])])
    ensures s.reqs[i].assoc == m.assoc && Same(p.local, s.reqs[i].src)
    ensures if s.reqs[i].kind == Query then s' == s1.(main := Accepted(s.reqs[i], id, m, from))
            else s' == Send(s1, from, m.(mt := MT_ACK), env.pendingOk)
  {
    i := FindReq(s.reqs, m.assoc, p.local, {Query, Ack});
    s1 := s.(reqs := s.reqs[i := Serviced(s.reqs[i])]);
  }

  lemma MatchedEffect(run: Run, k: nat, a: Peer, s: State, id: PortId, m: Parms, from: Peer, remote: SockAddr,
                      env: WireEnv, s': State)
    requires Known(run, k + 1, a, s) && id in s.ports && id in s.mappedPorts && m.WellFormed() && m.mt == MT_ACC
    requires Hears(run, k, a, from, m) && run.nodes[k][a] == s && Accepts(run, k, from, a, m, remote)
    requires s' == AcceptMatched(s, id, s.ports[id], m, from, env)
    ensures Known(run, k + 1, a, s')
  {
    if s' != s {
      var i, s1 := MatchedCases(s, id, s.ports[id], m, from, env, s');
      if s.reqs[i].kind == Query { QueryMatched(run, k, a, s, i, s1, id, m, from, remote); }
      else { AckMatched(run, k + 1, a, s, i, s1, m, from, env.pendingOk); }
    }
  }

  lemma AckMatched(run: Run, k: nat, a: Peer, s: State, i: nat, s1: State, m: Parms, from: Peer, ok: bool)
    requires Known(run, k, a, s) && m.WellFormed()
    requires i < |s.reqs| && s1 == s.(reqs := s.reqs[i := Serviced(s.reqs[i])])
    ensures Known(run, k, a, Send(s1, from, m.(mt := MT_ACK), ok))
  {
    ServicedKnown(run, k, a, s, i);
    AckSentKnown(run, k, a, s1, m, from, ok);
  }

  lemma QueryMatched(run: Run, k: nat, a: Peer, s: State, i: nat, s1: State, id: PortId, m: Parms, from: Peer,
                     remote: SockAddr)
    requires Known(run, k + 1, a, s) && id in s.ports && id in s.mappedPorts && m.WellFormed() && m.mt == MT_ACC
    requires Hears(run, k, a, from, m) && run.nodes[k][a] == s && Accepts(run, k, from, a, m, remote)
    requires i < |s.reqs| && s1 == s.(reqs := s.reqs[i := Serviced(s.reqs[i])]) && s.reqs[i].kind == Query
    requires s.reqs[i].assoc == m.assoc && Same(s.ports[id].local, s.reqs[i].src)
    ensures Known(run, k + 1, a, s1.(main := Accepted(s.reqs[i], id, m, from)))
  {
    KnownAtPlace(run, k + 1, a, s, i);
    MatchKnown(run, k, a, s, s.reqs[i], m, from, remote, id);
    MainTaken(run, k + 1, a, s, i, s1, Accepted(s.reqs[i], id, m, from));
  }

  lemma KnownAtPlace(run: Run, k: nat, a: Peer, s: State, i: nat)
    requires Known(run, k, a, s) && i < |s.reqs|
    ensures ReqKnown(run, k, a, s.reqs[i])
  {
  }

  lemma MainTaken(run: Run, k: nat, a: Peer, s: State, i: nat, s1: State, main: Main)
    requires Known(run, k, a, s) && MainKnown(run, k, a, main, s.ports)
    requires i < |s.reqs| && s1 == s.(reqs := s.reqs[i := Serviced(s.reqs[i])])
    ensures Known(run, k, a, s1.(main := main))
  {
    ServicedKnown(run, k, a, s, i);
    KnownMain(run, k, a, s1, main);
  }

  lemma AckSentKnown(run: Run, k: nat, a: Peer, s: State, m: Parms, from: Peer, ok: bool)
    requires Known(run, k, a, s) && m.WellFormed()
    ensures Known(run, k, a, Send(s, from, m.(mt := MT_ACK), ok))
  {
    AckMsgOk(run, k, a, ToPeer(from), m.(mt := MT_ACK));
    KnownWire(run, k, a, s, SendMsg(ToPeer(from), Form(m.(mt := MT_ACK))));
  }

  /** The query that an accept is matched with was posted under the accept's handle. */
  lemma MatchKnown(run: Run, k: nat, a: Peer, s: State, r: Request, m: Parms, from: Peer, remote: SockAddr, id: PortId)
    requires ReqKnown(run, k + 1, a, r) && r.kind == Query && r.assoc == m.assoc
    requires id in s.ports && id in s.mappedPorts && Same(s.ports[id].local, r.src)
    requires m.WellFormed() && m.mt == MT_ACC && Accepts(run, k, from, a, m, remote)
    requires Hears(run, k, a, from, m) && run.nodes[k][a] == s
    ensures MainKnown(run, k + 1, a, Accepted(r, id, m, from), s.ports)
  {
    assert k < k + 1 && TookAccept(run, k, a, Accepted(r, id, m, from), s.ports, remote);
  }

  lemma AcceptTold(run: Run, k: nat, b: Peer, a: Peer, m: Parms) returns (remote: SockAddr)
    requires m.WellFormed() && m.mt == MT_ACC && Told(run, k, b, a, m)
    ensures Accepts(run, k, b, a, m, remote)
  {
    remote :| Accepts(run, k, b, a, m, remote);
  }

  /** With unique handles a daemon has asked for one remote address under a handle. */
  lemma OneRemote(run: Run, k: nat, i: nat, a: Peer, id: ReqId, nl: NlHdr, h: U64, r: SockAddr, r': SockAddr,
                  src: SockAddr)
    requires UniqueHandles(run) && Issued(run, i, a, h, r) && IssuedAs(run, k, a, id, nl, h, r', src)
    ensures r == r'
  {
    var p :| p < i && Posts(run, p, a, h, r);
    var q :| q < k && PostsAs(run, q, a, id, nl, h, r', src);
    assert p == q;
  }

  /** The reject told to a client goes back to what the message goes back to. */
  lemma RefusalKnown(run: Run, k: nat, a: Peer, s: State, r: Request, b: Peer, m: Parms, remote: SockAddr, id: PortId)
    requires ReqKnown(run, k + 1, a, r) && r.kind == Query && r.assoc == m.assoc && m.mt == MT_REJ
    requires id in s.ports && id in s.mappedPorts && Same(s.ports[id].local, r.src)
    requires Hears(run, k, a, b, m) && run.nodes[k][a] == s
    requires Rejects(run, k, b, a, m, remote)
    ensures OutKnown(run, k + 1, a, RejectInfo(r, s.ports[id]))
  {
    if UniqueHandles(run) {
      var q :| q < k && Refuses(run, q, b, a, m.assoc, remote);
      OneRemote(run, k + 1, q, a, r.id, r.nl, m.assoc, remote, r.remote, r.src);
      var out := RejectInfo(r, s.ports[id]);
      assert TellsOwn(s, out);
      assert k < k + 1 && AnsweredAt(run, k, a, m.assoc, out);
      assert AnswerKnown(run, k + 1, a, m.assoc, r.src, out);
    }
  }

  /** What a client is told after a reject is known. */
  ghost predicate RefusalOk(run: Run, k: nat, a: Peer, s: State, m: Parms)
    requires Linked(s.ports, s.mappedPorts) && m.WellFormed()
  {
    var found := FindSame(s.ports, s.mappedPorts, m.Cp(), true);
    found.Some? ==>
      var p := s.ports[found.value];
      var i := FindReq(s.reqs, m.assoc, p.local, {Query});
      i < |s.reqs| ==> OutKnown(run, k, a, RejectInfo(s.reqs[i], p))
  }

  lemma RejectAnswers(run: Run, k: nat, a: Peer, s: State, m: Parms, b: Peer, remote: SockAddr)
    requires ReqsKnown(run, k + 1, a, s.reqs) && Linked(s.ports, s.mappedPorts) && m.WellFormed() && m.mt == MT_REJ
    requires Hears(run, k, a, b, m) && run.nodes[k][a] == s && Rejects(run, k, b, a, m, remote)
    ensures RefusalOk(run, k + 1, a, s, m)
  {
    var found := FindSame(s.ports, s.mappedPorts, m.Cp(), true);
    if found.Some? {
      var i := FindReq(s.reqs, m.assoc, s.ports[found.value].local, {Query});
      if i < |s.reqs| { RefusalKnown(run, k, a, s, s.reqs[i], b, m, remote, found.value); }
    }
  }

  lemma RejectEffect(run: Run, k: nat, a: Peer, s: State, m: Parms, env: WireEnv)
    requires Known(run, k, a, s) && Linked(s.ports, s.mappedPorts) && m.WellFormed() && RefusalOk(run, k, a, s, m)
    ensures Known(run, k, a, WireReject(s, m, env))
  {
    var found := FindSame(s.ports, s.mappedPorts, m.Cp(), true);
    if found.Some? {
      var p := s.ports[found.value];
      var i := FindReq(s.reqs, m.assoc, p.local, {Query});
      if i < |s.reqs| {
        ServicedKnown(run, k, a, s, i);
        KnownOut(run, k, a, s.(reqs := s.reqs[i := Serviced(s.reqs[i])]), RejectInfo(s.reqs[i], p));
      }
    }
  }

  lemma RejectTold(run: Run, k: nat, b: Peer, a: Peer, m: Parms) returns (remote: SockAddr)
    requires m.WellFormed() && m.mt == MT_REJ && Told(run, k, b, a, m)
    ensures Rejects(run, k, b, a, m, remote)
  {
    remote :| Rejects(run, k, b, a, m, remote);
  }

  /** The answer to a client goes back to what its accept goes back to. */
  lemma SuccessKnown(run: Run, k: nat, a: Peer, main: Main, ports: map<PortId, MappedPort>)
    requires MainKnown(run, k, a, main, ports) && main.Accepted? && main.port in ports
    ensures main.m.WellFormed() && OutKnown(run, k, a, SuccessInfo(main.copy, ports[main.port], main.m))
  {
    if UniqueHandles(run) {
      var t: nat, remote :| t < k && TookAccept(run, t, a, main, ports, remote);
      SuccessAnswered(run, k, t, a, main, ports, remote);
      assert AnswerKnown(run, k, a, main.m.assoc, main.copy.src, SuccessInfo(main.copy, ports[main.port], main.m));
    }
  }

  lemma SuccessAnswered(run: Run, k: nat, t: nat, a: Peer, main: Main, ports: map<PortId, MappedPort>,
                        remote: SockAddr)
    requires UniqueHandles(run) && main.Accepted? && TookAccept(run, t, a, main, ports, remote)
    requires main.copy.assoc == main.m.assoc
    requires IssuedAs(run, k, a, main.copy.id, main.copy.nl, main.copy.assoc, main.copy.remote, main.copy.src)
    ensures AnsweredAt(run, t, a, main.m.assoc, SuccessInfo(main.copy, ports[main.port], main.m))
  {
    var copy, m := main.copy, main.m;
    var q :| q < t && Offers(run, q, main.from, a, m.assoc, remote, m.Ap());
    OneRemote(run, k, q, a, copy.id, copy.nl, m.assoc, remote, copy.remote, copy.src);
    assert TellsOwn(run.nodes[t][a], SuccessInfo(copy, ports[main.port], m));
  }

  lemma FinishKnown(run: Run, k: nat, a: Peer, s: State, env: WireEnv)
    requires Known(run, k, a, s)
    requires s.main.Accepted? && s.main.port in s.ports && s.main.m.WellFormed()
    ensures Known(run, k, a, AcceptEnd(s, env))
  {
    var Accepted(copy, id, m, from) := s.main;
    KnownMain(run, k, a, s, Idle);
    if env.nlOk {
      var out := SuccessInfo(copy, s.ports[id], m);
      SuccessKnown(run, k, a, s.main, s.ports);
      KnownOut(run, k, a, s.(main := Idle), out);
      if env.reqId.Some? {
        var s1 := s.(main := Idle, clientOut := s.clientOut + [out]);
        var r := NewRequest(env.reqId.value, env.addr, Ack, copy.src, copy.remote, NlHdr(0, 0, 0), copy.assoc, None);
        KnownReq(run, k, a, s1, r);
        AckMsgOk(run, k, a, ToPeer(from), m.(mt := MT_ACK));
        KnownWire(run, k, a, s1.(reqs := [r] + s.reqs), SendMsg(ToPeer(from), Form(m.(mt := MT_ACK))));
      }
    }
  }

  lemma {:induction false} AgedKnown(run: Run, k: nat, a: Peer, reqs: seq<Request>)
    requires forall j :: 0 <= j < |reqs| ==> ReqKnown(run, k, a, reqs[j])
    ensures forall j :: 0 <= j < |Aged(reqs)| ==> ReqKnown(run, k, a, Aged(reqs)[j])
  {
    if reqs != [] {
      assert ReqKnown(run, k, a, reqs[0]);
      AgedKnown(run, k, a, reqs[1..]);
    }
  }

  lemma {:induction false} ResentKnown(run: Run, k: nat, a: Peer, reqs: seq<Request>)
    requires forall j :: 0 <= j < |reqs| && Resends(reqs[j]) ==> reqs[j].sendMsg.Some?
    requires forall j :: 0 <= j < |reqs| ==> ReqKnown(run, k, a, reqs[j])
    ensures forall j :: 0 <= j < |Resent(reqs)| ==> MsgOk(run, k, a, Resent(reqs)[j])
  {
    if reqs != [] {
      assert ReqKnown(run, k, a, reqs[0]);
      ResentKnown(run, k, a, reqs[1..]);
    }
  }

  lemma AckKnown(run: Run, k: nat, a: Peer, s: State, m: Parms)
    requires Known(run, k, a, s) && Linked(s.ports, s.mappedPorts) && m.WellFormed()
    ensures Known(run, k, a, WireAck(s, m))
  {
    var i := FindReq(s.reqs, m.assoc, m.Ap(), {Accept});
    if i < |s.reqs| { ServicedKnown(run, k, a, s, i); }
  }

  lemma DispatchKnown(run: Run, k: nat, a: Peer, s: State, m: Parms, e: Event)
    requires Acting(run, k, a, s) && Known(run, k + 1, a, s) && Linked(s.ports, s.mappedPorts)
    requires e == run.events[k].e && e.EvRecv? && m.WellFormed()
    requires Told(run, k, e.from, a, m) && Parse(e.data) == Some(m)
    requires a < |run.nodes[k + 1]| && run.nodes[k + 1][a] == Dispatch(s, m, e.from, e.wireEnv)
    ensures Known(run, k + 1, a, Dispatch(s, m, e.from, e.wireEnv))
  {
    if m.mt == MT_REQ {
      var remote := RequestTold(run, k, a, s, m, e);
      RequestAnswers(run, k, a, s, m, remote);
      RequestEffect(run, k + 1, a, s, m, e.from, e.wireEnv);
    } else if m.mt == MT_ACC {
      var remote := AcceptTold(run, k, e.from, a, m);
      AcceptBeginEffect(run, k, a, s, m, e.from, remote, e.wireEnv);
    } else if m.mt == MT_REJ {
      var remote := RejectTold(run, k, e.from, a, m);
      RejectAnswers(run, k, a, s, m, e.from, remote);
      RejectEffect(run, k + 1, a, s, m, e.wireEnv);
    } else {
      AckKnown(run, k + 1, a, s, m);
    }
  }

  lemma ReceiveKnown(run: Run, k: nat, a: Peer, s: State, e: Event)
    requires Acting(run, k, a, s) && Known(run, k + 1, a, s) && Linked(s.ports, s.mappedPorts)
    requires e == run.events[k].e && e.EvRecv?
    requires a < |run.nodes[k + 1]| && run.nodes[k + 1][a] == Receive(s, e.data, e.from, e.wireEnv)
    ensures Known(run, k + 1, a, Receive(s, e.data, e.from, e.wireEnv))
  {
    ParseDefined(e.data);
    if Parse(e.data).Some? {
      var m := Parse(e.data).value;
      DeliveredTold(run, k, a, s, m);
      DispatchKnown(run, k, a, s, m, e);
    }
  }

  lemma TickKnown(run: Run, k: nat, a: Peer, s: State)
    requires Known(run, k, a, s) && Safe(s)
    ensures Known(run, k, a, Tick(s))
  {
    AgedKnown(run, k, a, s.reqs);
    ResentKnown(run, k, a, s.reqs);
  }

  /** Adds, removals and mapping information give no client a result. */
  lemma TableEventKnown(run: Run, k: nat, a: Peer, s: State, e: Event)
    requires Known(run, k, a, s) && Safe(s) && Enabled(s, e) && (e.EvAdd? || e.EvRemove? || e.EvMapInfo?)
    ensures Known(run, k, a, HandleEvent(s, e))
  {
    TableShape(s, e);
    TableKnown(run, k, a, s, HandleEvent(s, e));
  }

  lemma TableKnown(run: Run, k: nat, a: Peer, s: State, s': State)
    requires Known(run, k, a, s) && TableOnly(s, s') && s.main.Idle?
    ensures Known(run, k, a, s')
  {
    if s'.clientOut != s.clientOut {
      var out :| s'.clientOut == s.clientOut + [out] && !out.ConnInfo? && !out.RemoteInfo?;
      KnownOut(run, k, a, s, out);
    }
  }

  lemma QueryEventKnown(run: Run, k: nat, a: Peer, s: State, e: Event)
    requires Acting(run, k, a, s) && Known(run, k + 1, a, s) && Safe(s) && e == run.events[k].e && e.EvQuery?
    requires a < |run.nodes[k + 1]| && IsStep(s, e, run.nodes[k + 1][a])
    ensures Known(run, k + 1, a, run.nodes[k + 1][a])
  {
    QueryMappingShape(s, e);
    QueryKnown(run, k, a, s, run.nodes[k + 1][a]);
  }

  lemma ActKnown(run: Run, k: nat, a: Peer, s: State)
    requires Acting(run, k, a, s) && Known(run, k + 1, a, s) && Safe(s)
    requires a < |run.nodes[k + 1]| && IsStep(s, run.events[k].e, run.nodes[k + 1][a])
    ensures Known(run, k + 1, a, run.nodes[k + 1][a])
  {
    var e := run.events[k].e;
    match e
    case EvRecv(_, _, _) => ReceiveKnown(run, k, a, s, e);
    case EvQuery(_, _, _, _, _, _) => QueryEventKnown(run, k, a, s, e);
    case EvFinishAccept(env) => FinishKnown(run, k + 1, a, s, env);
    case EvTick => TickKnown(run, k + 1, a, s);
    case _ => TableEventKnown(run, k + 1, a, s, e);
  }

  ghost predicate KnownAt(run: Run, k: nat)
    requires k < |run.nodes|
  {
    forall a :: 0 <= a < |run.nodes[k]| ==> Known(run, k, a, run.nodes[k][a])
  }

  lemma StepKnown(run: Run, k: nat, a: Peer)
    requires IsSysRun(run) && k < |run.events| && a < |run.nodes[k + 1]|
    requires KnownAt(run, k)
    ensures Known(run, k + 1, a, run.nodes[k + 1][a])
  {
    var ev := run.events[k];
    var n := run.nodes[k];
    assert SysStepAt(run, k);
    KnownLater(run, k, a, n[a]);
    if a == ev.peer {
      NodeValid(run, k, a);
      ValidIsSafe(n[a]);
      ActKnown(run, k, a, n[a]);
    }
  }

  lemma {:induction false} AllKnown(run: Run, k: nat)
    requires IsSysRun(run) && k < |run.nodes|
    ensures KnownAt(run, k)
  {
    if k > 0 {
      AllKnown(run, k - 1);
      forall a | 0 <= a < |run.nodes[k]| ensures Known(run, k, a, run.nodes[k][a]) { StepKnown(run, k - 1, a); }
    }
  }

  /** Address `x` is `local`, or has its port if that is a wildcard. */
  predicate Stands(x: SockAddr, local: SockAddr) {
    Same(x, local) || (IsWildcard(local) && Port(x) == Port(local))
  }

  /** Query `q` of daemon `a` was answered from event `i` at event `t`: posted at `q`, after that,
      at `i`, taken up by the daemon that serves its remote address, and the answer after that,
      at `t`, taken up by `a` with the mapping that the client is told of. */
  ghost predicate Grounded(run: Run, q: int, i: int, t: int, a: Peer, h: U64, src: SockAddr, out: NlMsg)
    requires out.ConnInfo?
  {
    && q < i < t && PostsAs(run, q, a, out.req, out.nl, h, out.remote, src) && Stands(out.local, run.events[q].e.local)
    && (out.err == 0 ==> Offers(run, i, Serves(run, out.remote), a, h, out.remote, out.mappedRem))
    && (out.err != 0 ==> Refuses(run, i, Serves(run, out.remote), a, h, out.remote))
    && HearsAnswer(run, t, a, Serves(run, out.remote), h, out)
  }

  lemma StandsFor(s: State, local: SockAddr, src: SockAddr, x: SockAddr)
    requires SourceFor(s, local, src) && Same(x, src)
    ensures Stands(x, local)
  {
  }

  /** Provenance.  In every run, over a network that loses, duplicates and reorders, an
      answer given to a client of daemon `a` belongs to a query that it posted, and to the
      later event at which the daemon serving the remote address took up that very request.
      A success names a mapped address that this daemon then had listed, exactly or by a
      wildcard, and for which it formed the accept at that event; a reject means that it had
      nothing listed then and sent the reject at that event.  The owner and the addresses on
      the client's own side are those of a mapping that `a` had listed when it took up the
      answer, one for the address that the query was for. */
  lemma Provenance(run: Run, k: nat, a: Peer, j: nat)
    requires IsSysRun(run) && UniqueHandles(run) && k < |run.nodes| && a < |run.nodes[k]|
    requires j < |run.nodes[k][a].clientOut| && run.nodes[k][a].clientOut[j].ConnInfo?
    ensures exists q, i, t, h, src :: t < k && Grounded(run, q, i, t, a, h, src, run.nodes[k][a].clientOut[j])
  {
    AllKnown(run, k);
    var out := run.nodes[k][a].clientOut[j];
    assert OutKnown(run, k, a, out);
    var h, src :| AnswerKnown(run, k, a, h, src, out);
    var t: nat :| t < k && AnsweredAt(run, t, a, h, out);
    var q, i := AnswerGrounded(run, k, t, a, h, src, out);
    assert Grounded(run, q, i, t, a, h, src, out);
  }

  lemma AnswerGrounded(run: Run, k: nat, t: nat, a: Peer, h: U64, src: SockAddr, out: NlMsg) returns (q: int, i: int)
    requires UniqueHandles(run) && out.ConnInfo? && AnswerKnown(run, k, a, h, src, out) && AnsweredAt(run, t, a, h, out)
    ensures Grounded(run, q, i, t, a, h, src, out)
  {
    q :| q < k && PostsAs(run, q, a, out.req, out.nl, h, out.remote, src);
    StandsFor(run.nodes[q + 1][a], run.events[q].e.local, src, out.local);
    var b := Serves(run, out.remote);
    i :| i < t && if out.err == 0 then Offers(run, i, b, a, h, out.remote, out.mappedRem)
                  else Refuses(run, i, b, a, h, out.remote);
    var p :| p < i && Posts(run, p, a, h, out.remote);
    assert p == q;
  }

  /** The other side, in every run and whatever the handles: an accepting client of daemon `a`
      is told of a peer whose daemon posted a query for it.  The address told is the one the
      query was for, the mapped one that of a mapping then listed for it, and `a` formed the
      accept of the mapping that the client is told of, after that, when it took the query up. */
  lemma IntroductionProvenance(run: Run, k: nat, a: Peer, j: nat)
    requires IsSysRun(run) && k < |run.nodes| && a < |run.nodes[k]|
    requires j < |run.nodes[k][a].clientOut| && run.nodes[k][a].clientOut[j].RemoteInfo?
    ensures exists q, i, b, h, remote ::
              i < k && Introduces(run, q, i, a, b, h, remote, run.nodes[k][a].clientOut[j])
  {
    AllKnown(run, k);
    assert OutKnown(run, k, a, run.nodes[k][a].clientOut[j]);
  }
}
