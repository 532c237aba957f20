/** Why handles must not be reused.  create_iwpm_map_request takes the address of the
    tracking object as its handle, and the timer frees that object while a duplicate of
    the accept it was answered with may still be on the way.  In the runs below the next
    query gets the same address, and the late duplicate answers it with the mapping of
    the first query's remote address. */
module IwpmHandleReuse {
  import opened Options
  import opened IwpmAddr
  import opened IwpmWire
  import opened IwpmState
  import opened IwpmRuns
  import opened IwpmTracking
  import opened IwpmNetwork

  const HDR := NlHdr(0, 0, 0)

  function One(a: SockAddr): Peer { 1 }

  /** What the system calls of a wire event give: all succeed, with a tracking object if one
      is asked for. */
  function Env(id: Option<ReqId>, addr: Handle): WireEnv { WireEnv(true, id, addr, true, true) }

  /** A client at `local` asks for `first`, then for `second`; both times the tracking
      object is at address `h`, which is free again by then.  The objects that recognise
      repeated accepts are elsewhere, at `spare` and `spare2`.  Daemon 0 serves the client,
      daemon 1 everything else. */
  datatype Setup = Setup(local: SockAddr, first: SockAddr, second: SockAddr, h: Handle, spare: Handle, spare2: Handle) {

    predicate Ok() {
      && local.family == first.family == second.family == AF_INET
      && !IsWildcard(local) && !IsWildcard(first) && !IsWildcard(second) && first.port != second.port
      && spare != h && spare2 != h && spare2 != spare
    }

    function PortL(): MappedPort { NewPort(0, local, local) }
    function PortF(): MappedPort { NewPort(0, first, first) }
    function AskMsg(): Parms requires Ok() { QueryParms(local, first, local, h) }
    function Answer(): Parms requires Ok() { AcceptParms(AskMsg(), PortF()).(mt := MT_ACC) }
    function Heard(): Parms requires Ok() { Answer().Carried() }
    function Query1(): Request requires Ok() { QueryRequest(PortL(), 0, h, HDR, local, first) }
    function Query2(): Request requires Ok() { QueryRequest(PortL(), 3, h, HDR, local, second) }
    function Retry1(): Request requires Ok() { NewRequest(2, spare, Ack, local, first, HDR, h, None) }
    function Retry2(): Request requires Ok() { NewRequest(4, spare2, Ack, local, second, HDR, h, None) }
    function AckMsg(): SendMsg requires Ok() { SendMsg(ToPeer(1), Form(Heard().(mt := MT_ACK))) }
    function AcceptMsg(): SendMsg requires Ok() { SendMsg(ToPeer(0), Form(Answer())) }

    function B1(): State { State(map[0 := PortF()], [0], [], Idle, [MapReply(HDR, first, first)], []) }
    function B2(): State requires Ok() {
      B1().(reqs := [NewRequest(1, spare, Accept, Answer().Ap(), AskMsg().Cp(), HDR, h, Some(AcceptMsg()))],
            wireOut := [AcceptMsg()],
            clientOut := B1().clientOut + [RemoteInfo(0, first, AskMsg().Cp(), first, AskMsg().MappedCp())])
    }

    function A1(): State requires Ok() {
      State(map[0 := PortL()], [0], [Query1()], Idle, [], [Query1().sendMsg.value])
    }
    function A2(): State requires Ok() {
      A1().(reqs := [Serviced(Query1())], main := Accepted(Query1(), 0, Heard(), 1))
    }
    function A3(): State requires Ok() {
      A1().(reqs := [Retry1(), Serviced(Query1())], clientOut := [SuccessInfo(Query1(), PortL(), Heard())],
            wireOut := A1().wireOut + [AckMsg()])
    }
    function A4(): State requires Ok() { A3().(reqs := [Retry1().(timeout := 9)]) }
    function A5(): State requires Ok() {
      A4().(ports := map[0 := PortL().(refCnt := 2)], reqs := [Query2()] + A4().reqs,
            wireOut := A4().wireOut + [Query2().sendMsg.value])
    }
    function A6(): State requires Ok() {
      A5().(reqs := [Serviced(Query2())] + A4().reqs, main := Accepted(Query2(), 0, Heard(), 1))
    }
    function A7(): State requires Ok() {
      A6().(main := Idle, reqs := [Retry2()] + A6().reqs, wireOut := A6().wireOut + [AckMsg()],
            clientOut := A3().clientOut + [SuccessInfo(Query2(), PortL().(refCnt := 2), Heard())])
    }

    function Add(): Event { EvAdd(0, HDR, first, true, AddEnv(true, None, Some(0), true)) }
    function Ask1(): Event {
      EvQuery(0, HDR, local, first, true, QueryEnv(true, None, Some(0), true, Some(0), h, true))
    }
    function Ask2(): Event {
      EvQuery(0, HDR, local, second, true, QueryEnv(true, None, None, true, Some(3), h, true))
    }
    function TakeUp(): Event requires Ok() { EvRecv(Form(AskMsg()), 0, Env(Some(1), spare)) }
    function Hear(): Event requires Ok() { EvRecv(Form(Answer()), 1, Env(None, spare)) }
    function Finish1(): Event { EvFinishAccept(Env(Some(2), spare)) }
    function Finish2(): Event { EvFinishAccept(Env(Some(4), spare2)) }
  }

  lemma AddressesCarried(c: Setup)
    requires c.Ok()
    ensures Same(c.AskMsg().Ap(), c.first) && Same(c.first, c.AskMsg().Ap()) && Port(c.AskMsg().Ap()) == c.first.port
    ensures Same(c.Heard().Cp(), c.local) && Same(c.Heard().Ap(), c.first)
    ensures c.Heard().WellFormed() && c.Heard().mt == MT_ACC && c.Heard().assoc == c.h
  {
    ViewIndistinguishable(c.first, c.first);
    ViewIndistinguishable(c.local, c.local);
    AcceptAddress(c.AskMsg(), c.PortF(), c.first);
  }

  lemma JoinsEmpty<T(!new)>()
    ensures forall x: T {:trigger [x]} :: [x] + [] == [x] && [] + [x] == [x]
  {
  }

  lemma StepB1(c: Setup)
    requires c.Ok()
    ensures IsStep(INIT_STATE, c.Add(), c.B1())
  {
    JoinsEmpty<PortId>();
    JoinsEmpty<NlMsg>();
  }

  lemma TakenUp(c: Setup)
    requires c.Ok() && Hit(c.PortF(), c.AskMsg().Ap(), true)
    ensures WireRequest(c.B1(), c.AskMsg(), 0, Env(Some(1), c.spare)) == c.B2()
  {
    JoinsEmpty<SendMsg>();
    JoinsEmpty<Request>();
    assert Find(c.B1().ports, c.B1().mappedPorts, c.AskMsg().Ap(), true) == Some(0);
  }

  lemma StepB2(c: Setup)
    requires c.Ok()
    ensures IsStep(c.B1(), c.TakeUp(), c.B2())
  {
    RoundTrip(c.AskMsg());
    AddressesCarried(c);
    assert Hit(c.PortF(), c.AskMsg().Ap(), true);
    TakenUp(c);
  }

  lemma StepA1(c: Setup)
    requires c.Ok()
    ensures IsStep(INIT_STATE, c.Ask1(), c.A1())
  {
    JoinsEmpty<PortId>();
    JoinsEmpty<SendMsg>();
    JoinsEmpty<Request>();
  }

  /** Taking up the accept is the first half of handling it. */
  lemma HearBegins(c: Setup, s: State)
    requires c.Ok() && Linked(s.ports, s.mappedPorts)
    ensures c.Heard().WellFormed()
    ensures Receive(s, Form(c.Answer()), 1, Env(None, c.spare)) == AcceptBegin(s, c.Heard(), 1, Env(None, c.spare))
  {
    RoundTrip(c.Answer());
    AddressesCarried(c);
  }

  lemma HearStep(c: Setup, s: State, s': State)
    requires c.Ok() && c.Heard().WellFormed() && Safe(s) && s.main.Idle?
    requires AcceptBegin(s, c.Heard(), 1, Env(None, c.spare)) == s'
    ensures IsStep(s, c.Hear(), s')
  {
    HearBegins(c, s);
  }

  lemma FirstMatched(c: Setup)
    requires c.Ok() && c.Heard().WellFormed()
    ensures AcceptBegin(c.A1(), c.Heard(), 1, Env(None, c.spare)) == c.A2()
  {
    AddressesCarried(c);
    assert SameHit(c.PortL(), c.Heard().Cp(), true);
    assert Tracks(c.Query1(), c.h, c.local, {Query, Ack});
  }

  lemma StepA2(c: Setup)
    requires c.Ok()
    ensures IsStep(c.A1(), c.Hear(), c.A2())
  {
    AddressesCarried(c);
    FirstMatched(c);
    HearStep(c, c.A1(), c.A2());
  }

  lemma StepA3(c: Setup)
    requires c.Ok()
    ensures IsStep(c.A2(), c.Finish1(), c.A3())
  {
    AddressesCarried(c);
    JoinsEmpty<NlMsg>();
    assert [c.Retry1()] + c.A2().reqs == c.A3().reqs;
    assert AcceptEnd(c.A2(), Env(Some(2), c.spare)) == c.A3();
  }

  lemma AgeStep(r: Request, rest: seq<Request>)
    ensures Aged([r] + rest) == (if r.timeout > 0 then [r.(timeout := r.timeout - 1)] else []) + Aged(rest)
  {
    assert ([r] + rest)[1..] == rest;
  }

  lemma ResendStep(r: Request, rest: seq<Request>)
    requires !Resends(r) && forall i :: 0 <= i < |rest| && Resends(rest[i]) ==> rest[i].sendMsg.Some?
    ensures Resent([r] + rest) == Resent(rest)
  {
    assert ([r] + rest)[1..] == rest;
  }

  /** A tick after the first result: the query is freed, the other object stays. */
  lemma AgedPair(r: Request, done: Request)
    requires r.kind == Ack && r.timeout == MAP_REQ_TIMEOUT && done.timeout == 0
    ensures Aged([r, done]) == [r.(timeout := MAP_REQ_TIMEOUT - 1)] && Resent([r, done]) == []
  {
    assert [r, done] == [r] + ([done] + []);
    AgeStep(r, [done] + []);
    AgeStep(done, []);
    ResendStep(r, [done] + []);
    ResendStep(done, []);
    assert [r.(timeout := r.timeout - 1)] + ([] + Aged([])) == [r.(timeout := r.timeout - 1)];
  }

  lemma StepA4(c: Setup)
    requires c.Ok()
    ensures IsStep(c.A3(), EvTick, c.A4())
  {
    AgedPair(c.Retry1(), Serviced(c.Query1()));
    assert c.A3().wireOut + [] == c.A3().wireOut;
  }

  lemma StepA5(c: Setup)
    requires c.Ok()
    ensures IsStep(c.A4(), c.Ask2(), c.A5())
  {
    SecondAsked(c);
    QueryStep(c.A4(), c.Ask2(), c.A5());
  }

  lemma SecondAsked(c: Setup)
    requires c.Ok()
    ensures QueryMapping(c.A4(), 0, HDR, c.local, c.second, true, c.Ask2().queryEnv) == c.A5()
  {
    assert Hit(c.PortL(), c.local, true);
    assert Find(c.A4().ports, c.A4().mappedPorts, c.local, true) == Some(0);
    var held := AddRef(c.A4(), 0);
    assert held.ports == map[0 := c.PortL().(refCnt := 2)];
    assert QueryRequest(held.ports[0], 3, c.h, HDR, c.local, c.second) == c.Query2();
  }

  lemma QueryStep(s: State, e: Event, s': State)
    requires e.EvQuery? && Safe(s) && Enabled(s, e)
    requires QueryMapping(s, e.client, e.nl, e.local, e.remote, e.noPortMap, e.queryEnv) == s'
    ensures IsStep(s, e, s')
  {
  }

  lemma SecondMatched(c: Setup)
    requires c.Ok() && c.Heard().WellFormed()
    ensures AcceptBegin(c.A5(), c.Heard(), 1, Env(None, c.spare)) == c.A6()
  {
    AddressesCarried(c);
    assert SameHit(c.PortL().(refCnt := 2), c.Heard().Cp(), true);
    assert Tracks(c.Query2(), c.h, c.local, {Query, Ack});
  }

  lemma StepA6(c: Setup)
    requires c.Ok()
    ensures IsStep(c.A5(), c.Hear(), c.A6())
  {
    AddressesCarried(c);
    SecondMatched(c);
    HearStep(c, c.A5(), c.A6());
  }

  lemma StepA7(c: Setup)
    requires c.Ok()
    ensures IsStep(c.A6(), c.Finish2(), c.A7())
  {
    AddressesCarried(c);
    SecondFinished(c);
    FinishStep(c.A6(), Env(Some(4), c.spare2), c.A7());
  }

  lemma SecondFinished(c: Setup)
    requires c.Ok() && c.Heard().WellFormed()
    ensures AcceptEnd(c.A6(), Env(Some(4), c.spare2)) == c.A7()
  {
  }

  lemma FinishStep(s: State, env: WireEnv, s': State)
    requires Safe(s) && s.main.Accepted? && AcceptEnd(s, env) == s'
    ensures IsStep(s, EvFinishAccept(env), s')
  {
  }

  // ---------------------------------------------------------------- the run

  /** Event `i`: a daemon takes up a message of daemon 0, having `remote` listed. */
  ghost predicate CanOffer(run: Run, i: int, b: Peer, id: PortId, remote: SockAddr, x: SockAddr) {
    && 0 <= i < |run.events| && i < |run.nodes| && b < |run.nodes[i]|
    && run.events[i].peer == b && run.events[i].e.EvRecv? && run.events[i].e.from == 0
    && ListedAs(run.nodes[i][b], id, remote, x)
  }

  ghost predicate NeverOffered(run: Run, remote: SockAddr) {
    forall i, b, id, x :: !CanOffer(run, i, b, id, remote, x)
  }

  /** Every tracking object that an event creates is a new one, and number `lim` is the next. */
  ghost predicate Numbered(events: seq<SysEvent>, lim: ReqId) {
    && FreshAll(events)
    && forall i :: 0 <= i < |events| && ReqIdOf(events[i].e).Some? ==> ReqIdOf(events[i].e).value < lim
  }

  ghost predicate FreshAll(events: seq<SysEvent>) {
    forall i, j :: 0 <= i < j < |events| && ReqIdOf(events[i].e).Some? ==> ReqIdOf(events[i].e) != ReqIdOf(events[j].e)
  }

  /** After `k` events the daemons are in states `a` and `b`, and `second` was never offered. */
  ghost predicate Stage(run: Run, c: Setup, k: nat, lim: ReqId, a: State, b: State) {
    && IsSysRun(run) && run.net == One && |run.events| == k && run.nodes[k] == [a, b]
    && NeverOffered(run, c.second) && Numbered(run.events, lim)
  }

  function Extend(run: Run, ev: SysEvent, n: seq<State>): Run {
    Run(run.net, run.nodes + [n], run.events + [ev])
  }

  lemma StillNeverOffered(run: Run, ev: SysEvent, n: seq<State>, remote: SockAddr)
    requires NeverOffered(run, remote) && |run.nodes| == |run.events| + 1
    requires ev.e.EvRecv? && ev.e.from == 0 && ev.peer < |run.nodes[|run.events|]| ==>
               forall id, x :: !ListedAs(run.nodes[|run.events|][ev.peer], id, remote, x)
    ensures NeverOffered(Extend(run, ev, n), remote)
  {
    var run' := Extend(run, ev, n);
    forall i, b, id, x ensures !CanOffer(run', i, b, id, remote, x) {
      if 0 <= i < |run.events| { assert !CanOffer(run, i, b, id, remote, x); }
    }
  }

  lemma StillARun(run: Run, ev: SysEvent, n: seq<State>)
    requires IsSysRun(run) && SysStep(run.net, run.nodes[|run.events|], ev, n)
    ensures IsSysRun(Extend(run, ev, n))
  {
    var run' := Extend(run, ev, n);
    forall i | 0 <= i < |run'.events| ensures SysStepAt(run', i) {
      if i < |run.events| { assert SysStepAt(run, i); }
    }
  }

  lemma StillPosted(run: Run, ev: SysEvent, n: seq<State>, i: int, a: Peer, h: U64, remote: SockAddr)
    requires Posts(run, i, a, h, remote) && |run.nodes| == |run.events| + 1
    ensures Posts(Extend(run, ev, n), i, a, h, remote)
  {
  }

  /** Daemon `peer` moves to `s'`; `msg` is the message a receipt takes up. */
  lemma Move(run: Run, c: Setup, k: nat, lim: ReqId, n: seq<State>, peer: Peer, e: Event, s': State, msg: SendMsg)
    returns (run': Run)
    requires |n| == 2 && Stage(run, c, k, lim, n[0], n[1]) && peer < 2 && IsStep(n[peer], e, s')
    requires ReqIdOf(e).Some? ==> ReqIdOf(e).value == lim
    requires e.EvRecv? ==> e.from < 2 && msg in n[e.from].wireOut && msg.data == e.data && Reaches(One, msg.dest, peer)
    requires e.EvRecv? && e.from == 0 ==> forall id, x :: !ListedAs(n[peer], id, c.second, x)
    ensures Stage(run', c, k + 1, if ReqIdOf(e).Some? then lim + 1 else lim, n[peer := s'][0], n[peer := s'][1])
    ensures run'.nodes == run.nodes + [n[peer := s']] && run'.events == run.events + [At(peer, e)]
    ensures forall i, a, h, r :: Posts(run, i, a, h, r) ==> Posts(run', i, a, h, r)
  {
    var n' := n[peer := s'];
    assert run.nodes[k] == n && n' == [n'[0], n'[1]];
    run' := Extend(run, At(peer, e), n');
    StillARun(run, At(peer, e), n');
    StillNeverOffered(run, At(peer, e), n', c.second);
    forall i, a, h, r | Posts(run, i, a, h, r) ensures Posts(run', i, a, h, r) {
      StillPosted(run, At(peer, e), n', i, a, h, r);
    }
  }

  lemma FirstQuery(c: Setup) returns (run: Run)
    requires c.Ok()
    ensures Stage(run, c, 2, 1, c.A1(), c.B1()) && Posts(run, 1, 0, c.h, c.first)
  {
    var n := [INIT_STATE, INIT_STATE];
    run := Run(One, [n], []);
    StepB1(c);
    run := Move(run, c, 0, 0, n, 1, c.Add(), c.B1(), c.AcceptMsg());
    StepA1(c);
    run := Move(run, c, 1, 0, [INIT_STATE, c.B1()], 0, c.Ask1(), c.A1(), c.AcceptMsg());
  }

  /** Daemon 1 has nothing listed for `second`. */
  lemma SecondUnlisted(c: Setup, id: PortId, x: SockAddr)
    requires c.Ok()
    ensures !ListedAs(c.B1(), id, c.second, x)
  {
    ViewIndistinguishable(c.second, c.first);
  }

  lemma FirstAccept(c: Setup) returns (run: Run)
    requires c.Ok()
    ensures Stage(run, c, 3, 2, c.A1(), c.B2()) && Posts(run, 1, 0, c.h, c.first)
  {
    run := FirstQuery(c);
    StepB2(c);
    forall id, x ensures !ListedAs(c.B1(), id, c.second, x) { SecondUnlisted(c, id, x); }
    run := Move(run, c, 2, 1, [c.A1(), c.B1()], 1, c.TakeUp(), c.B2(), c.Query1().sendMsg.value);
  }

  lemma FirstResult(c: Setup) returns (run: Run)
    requires c.Ok()
    ensures Stage(run, c, 5, 3, c.A3(), c.B2()) && Posts(run, 1, 0, c.h, c.first)
  {
    run := FirstAccept(c);
    StepA2(c);
    run := Move(run, c, 3, 2, [c.A1(), c.B2()], 0, c.Hear(), c.A2(), c.AcceptMsg());
    StepA3(c);
    run := Move(run, c, 4, 2, [c.A2(), c.B2()], 0, c.Finish1(), c.A3(), c.AcceptMsg());
  }

  lemma SecondQuery(c: Setup) returns (run: Run)
    requires c.Ok()
    ensures Stage(run, c, 7, 4, c.A5(), c.B2()) && Posts(run, 1, 0, c.h, c.first) && Posts(run, 6, 0, c.h, c.second)
  {
    run := FirstResult(c);
    StepA4(c);
    run := Move(run, c, 5, 3, [c.A3(), c.B2()], 0, EvTick, c.A4(), c.AcceptMsg());
    StepA5(c);
    run := Move(run, c, 6, 3, [c.A4(), c.B2()], 0, c.Ask2(), c.A5(), c.AcceptMsg());
  }

  lemma SecondAccept(c: Setup) returns (run: Run)
    requires c.Ok()
    ensures Stage(run, c, 8, 4, c.A6(), c.B2()) && Posts(run, 1, 0, c.h, c.first) && Posts(run, 6, 0, c.h, c.second)
  {
    run := SecondQuery(c);
    StepA6(c);
    run := Move(run, c, 7, 4, [c.A5(), c.B2()], 0, c.Hear(), c.A6(), c.AcceptMsg());
  }

  lemma SecondResult(c: Setup) returns (run: Run)
    requires c.Ok()
    ensures Stage(run, c, 9, 5, c.A7(), c.B2()) && Posts(run, 1, 0, c.h, c.first) && Posts(run, 6, 0, c.h, c.second)
  {
    run := SecondAccept(c);
    StepA7(c);
    run := Move(run, c, 8, 4, [c.A6(), c.B2()], 0, c.Finish2(), c.A7(), c.AcceptMsg());
  }

  // ------------------------------------------------------- one thing is wrong

  /** The events of daemon `a`, in order. */
  function EventsOf(events: seq<SysEvent>, a: Peer): seq<Event> {
    if events == [] then []
    else
      var n := |events| - 1;
      EventsOf(events[..n], a) + (if events[n].peer == a then [events[n].e] else [])
  }

  lemma {:induction false} FreshEventsOf(events: seq<SysEvent>, a: Peer)
    requires FreshAll(events)
    ensures FreshRequests(EventsOf(events, a))
    ensures forall e :: e in EventsOf(events, a) ==> At(a, e) in events
  {
    if events != [] {
      var n := |events| - 1;
      FreshEventsOf(events[..n], a);
      var es := EventsOf(events[..n], a);
      if events[n].peer == a {
        forall i | 0 <= i < |es| && ReqIdOf(es[i]).Some? ensures ReqIdOf(es[i]) != ReqIdOf(events[n].e) {
          assert es[i] in es;
          var j :| 0 <= j < n && events[..n][j] == At(a, es[i]);
          assert events[j] == At(a, es[i]);
        }
      }
    }
  }

  /** With a reused handle a client is told a mapped address for `second` that no daemon ever
      had listed for it: it is the one given for `first`.  Nothing else is wrong with the run:
      every tracking object is a new one, and those that are alive together are at different
      addresses.  So the requirement that Provenance makes of handles is not idle. */
  lemma HandleReuseMisleads(c: Setup) returns (run: Run)
    requires c.Ok()
    ensures IsSysRun(run) && !UniqueHandles(run)
    ensures forall a :: FreshRequests(EventsOf(run.events, a))
    ensures |run.nodes| == 10 && |run.nodes[9]| == 2 && |run.nodes[9][0].clientOut| == 2
    ensures var out := run.nodes[9][0].clientOut[1];
            out.ConnInfo? && out.err == 0 && out.remote == c.second && Same(out.mappedRem, c.first)
            && forall q, i, t, h, src :: !Grounded(run, q, i, t, 0, h, src, out)
  {
    run := SecondResult(c);
    AddressesCarried(c);
    forall a ensures FreshRequests(EventsOf(run.events, a)) { FreshEventsOf(run.events, a); }
    var out := run.nodes[9][0].clientOut[1];
    forall q, i, t, h, src ensures !Grounded(run, q, i, t, 0, h, src, out) {
      NotGrounded(run, c, q, i, t, h, src, out);
    }
  }

  lemma NotGrounded(run: Run, c: Setup, q: int, i: int, t: int, h: U64, src: SockAddr, out: NlMsg)
    requires NeverOffered(run, c.second) && out.ConnInfo? && out.err == 0 && out.remote == c.second
    ensures !Grounded(run, q, i, t, 0, h, src, out)
  {
    var b := Serves(run, out.remote);
    if Offers(run, i, b, 0, h, out.remote, out.mappedRem) { OfferIsPossible(run, i, b, h, out.remote, out.mappedRem); }
  }

  lemma OfferIsPossible(run: Run, i: int, b: Peer, h: U64, remote: SockAddr, x: SockAddr)
    requires Offers(run, i, b, 0, h, remote, x)
    ensures exists id :: CanOffer(run, i, b, id, remote, x)
  {
    var id :| ListedAs(run.nodes[i][b], id, remote, x);
    assert CanOffer(run, i, b, id, remote, x);
  }
}
