/** The life of one tracking object over a whole run: it answers its client at most
    once, what it may use up is bounded, and the timer frees it.

    A tracking object is told from every other by its identity, not by its handle:
    nothing here depends on handles being distinct. */
module IwpmTracking {
  import opened Options
  import opened IwpmWire
  import opened IwpmState
  import opened IwpmInvariants
  import opened IwpmRuns

  /** No two events of the run create the same tracking object. */
  ghost predicate FreshRequests(es: seq<Event>) {
    forall i, j :: 0 <= i < j < |es| && ReqIdOf(es[i]).Some? ==> ReqIdOf(es[i]) != ReqIdOf(es[j])
  }

  ghost predicate Created(es: seq<Event>, id: ReqId, k: nat)
    requires k <= |es|
  {
    exists i :: 0 <= i < k && ReqIdOf(es[i]) == Some(id)
  }

  // ------------------------------------------------------------- measures

  /** What is left to a tracking object: to exist, to answer its client, to see
      timer passes, to be sent again. */
  datatype Measure = Objects | Answers | Passes | Retries

  function Worth(m: Measure, r: Request, id: ReqId): nat {
    if r.id != id || r.kind == Ack then 0
    else match m
      case Objects => 1
      case Answers => if r.kind == Query && !r.complete then 1 else 0
      case Passes => if r.timeout < 0 then 0 else r.timeout + 1
      case Retries => if r.timeout < 0 then 0 else if r.timeout < 9 then r.timeout else 9
  }

  /** What a new object starts with. */
  function Start(m: Measure): nat {
    match m
    case Objects => 1
    case Answers => 1
    case Passes => MAP_REQ_TIMEOUT + 1
    case Retries => MAP_REQ_TIMEOUT - 1
  }

  function Total(m: Measure, reqs: seq<Request>, id: ReqId): nat {
    if reqs == [] then 0 else Worth(m, reqs[0], id) + Total(m, reqs[1..], id)
  }

  /** What one timer pass takes from an object. */
  function Cost1(m: Measure, r: Request, id: ReqId): nat {
    if r.id != id || r.kind == Ack then 0
    else if m == Passes || (m == Retries && Resends(r)) then 1
    else 0
  }

  function Cost(m: Measure, reqs: seq<Request>, id: ReqId): nat {
    if reqs == [] then 0 else Cost1(m, reqs[0], id) + Cost(m, reqs[1..], id)
  }

  lemma TotalCons(m: Measure, r: Request, reqs: seq<Request>, id: ReqId)
    ensures Total(m, [r] + reqs, id) == Worth(m, r, id) + Total(m, reqs, id)
  {
    assert ([r] + reqs)[1..] == reqs;
  }

  lemma {:induction false} TotalUpdate(m: Measure, reqs: seq<Request>, i: nat, r: Request, id: ReqId)
    requires i < |reqs|
    ensures Total(m, reqs[i := r], id) + Worth(m, reqs[i], id) == Total(m, reqs, id) + Worth(m, r, id)
  {
    if i == 0 { assert reqs[i := r][1..] == reqs[1..]; }
    else {
      assert reqs[i := r][1..] == reqs[1..][i - 1 := r];
      TotalUpdate(m, reqs[1..], i - 1, r, id);
    }
  }

  lemma {:induction false} TotalAtLeast(m: Measure, reqs: seq<Request>, i: nat, id: ReqId)
    requires i < |reqs|
    ensures Worth(m, reqs[i], id) <= Total(m, reqs, id) && Cost1(m, reqs[i], id) <= Cost(m, reqs, id)
  {
    if i > 0 { TotalAtLeast(m, reqs[1..], i - 1, id); }
  }

  lemma {:induction false} TotalAged(m: Measure, reqs: seq<Request>, id: ReqId)
    requires ReqsOk(reqs)
    ensures Total(m, Aged(reqs), id) + Cost(m, reqs, id) <= Total(m, reqs, id)
  {
    if reqs != [] {
      TotalAged(m, reqs[1..], id);
      assert ReqOk(reqs[0]);
      if reqs[0].timeout > 0 {
        TotalCons(m, reqs[0].(timeout := reqs[0].timeout - 1), Aged(reqs[1..]), id);
      }
    }
  }

  lemma ServicedWorth(m: Measure, reqs: seq<Request>, i: nat, id: ReqId)
    requires ReqsOk(reqs) && i < |reqs|
    ensures Total(m, reqs[i := Serviced(reqs[i])], id) <= Total(m, reqs, id)
  {
    assert ReqOk(reqs[i]);
    TotalUpdate(m, reqs, i, Serviced(reqs[i]), id);
  }

  // ---------------------------------------------------- one event, one object

  /** How an event can change the list of requests. */
  ghost predicate Change(s: State, e: Event, reqs': seq<Request>) {
    || reqs' == s.reqs
    || (e.EvTick? && reqs' == Aged(s.reqs))
    || (exists i :: Updated(s.reqs, i, reqs'))
    || (ReqIdOf(e).Some? && exists r :: Pushed(s.reqs, r, ReqIdOf(e).value, reqs'))
  }

  predicate Updated(reqs: seq<Request>, i: int, reqs': seq<Request>) {
    0 <= i < |reqs| && reqs' == reqs[i := Serviced(reqs[i])]
  }

  predicate Pushed(reqs: seq<Request>, r: Request, id: ReqId, reqs': seq<Request>) {
    reqs' == [r] + reqs && r.id == id && r.timeout == MAP_REQ_TIMEOUT && !r.complete
  }

  lemma RequestChange(s: State, m: Parms, from: Peer, env: WireEnv)
    requires Valid(s) && m.WellFormed()
    ensures var reqs' := WireRequest(s, m, from, env).reqs;
            reqs' == s.reqs || (env.reqId.Some? && Pushed(s.reqs, reqs'[0], env.reqId.value, reqs'))
  {
  }

  lemma ServicedChange(s: State, m: Parms, from: Peer, env: WireEnv)
    requires Valid(s) && m.WellFormed()
    ensures WireAck(s, m).reqs == s.reqs || exists i :: Updated(s.reqs, i, WireAck(s, m).reqs)
    ensures AcceptBegin(s, m, from, env).reqs == s.reqs
            || exists i :: Updated(s.reqs, i, AcceptBegin(s, m, from, env).reqs)
    ensures WireReject(s, m, env).reqs == s.reqs || exists i :: Updated(s.reqs, i, WireReject(s, m, env).reqs)
  {
    assert WireAck(s, m).reqs == s.reqs
           || Updated(s.reqs, FindReq(s.reqs, m.assoc, m.Ap(), {Accept}), WireAck(s, m).reqs);
    var found := FindSame(s.ports, s.mappedPorts, m.Cp(), true);
    if found.Some? {
      var local := s.ports[found.value].local;
      var i := FindReq(s.reqs, m.assoc, local, {Query, Ack});
      assert AcceptBegin(s, m, from, env).reqs == s.reqs
             || Updated(s.reqs, i, AcceptBegin(s, m, from, env).reqs);
      var j := FindReq(s.reqs, m.assoc, local, {Query});
      assert WireReject(s, m, env).reqs == s.reqs || Updated(s.reqs, j, WireReject(s, m, env).reqs);
    }
  }

  lemma ReceiveChange(s: State, e: Event)
    requires Valid(s) && e.EvRecv?
    ensures Change(s, e, Receive(s, e.data, e.from, e.wireEnv).reqs)
  {
    ParseDefined(e.data);
    var p := Parse(e.data);
    if p.Some? {
      if p.value.mt == MT_REQ {
        RequestChange(s, p.value, e.from, e.wireEnv);
        var reqs' := WireRequest(s, p.value, e.from, e.wireEnv).reqs;
        assert reqs' == s.reqs || Pushed(s.reqs, reqs'[0], ReqIdOf(e).value, reqs');
      } else {
        ServicedChange(s, p.value, e.from, e.wireEnv);
      }
    }
  }

  lemma QueryChange(s: State, e: Event, s': State)
    requires e.EvQuery? && QueryShape(s, e, s')
    ensures Change(s, e, s'.reqs)
  {
    if s'.reqs != s.reqs { assert Pushed(s.reqs, s'.reqs[0], e.queryEnv.reqId.value, s'.reqs); }
  }

  lemma FinishChange(s: State, e: Event)
    requires e.EvFinishAccept? && s.main.Accepted? && s.main.port in s.ports && s.main.m.WellFormed()
    ensures Change(s, e, AcceptEnd(s, e.wireEnv).reqs)
  {
    var reqs' := AcceptEnd(s, e.wireEnv).reqs;
    if reqs' != s.reqs { assert Pushed(s.reqs, reqs'[0], e.wireEnv.reqId.value, reqs'); }
  }

  lemma EventChange(s: State, e: Event)
    requires Valid(s) && Enabled(s, e)
    ensures Next(s, e).Some? && Change(s, e, Next(s, e).value.reqs)
  {
    ValidIsSafe(s);
    if e.EvRecv? { ReceiveChange(s, e); }
    else if e.EvQuery? { QueryMappingShape(s, e); QueryChange(s, e, Next(s, e).value); }
    else if e.EvFinishAccept? { FinishChange(s, e); }
  }

  function New(m: Measure, e: Event, id: ReqId): nat { if ReqIdOf(e) == Some(id) then Start(m) else 0 }

  function Spent1(m: Measure, s: State, e: Event, id: ReqId): nat {
    if e.EvTick? then Cost(m, s.reqs, id) else 0
  }

  /** No event gives an object back what it has used up. */
  lemma EventTotal(m: Measure, s: State, e: Event, id: ReqId)
    requires Valid(s) && Enabled(s, e)
    ensures Next(s, e).Some?
    ensures Total(m, Next(s, e).value.reqs, id) + Spent1(m, s, e, id) <= Total(m, s.reqs, id) + New(m, e, id)
  {
    EventChange(s, e);
    var reqs' := Next(s, e).value.reqs;
    if e.EvTick? { ValidIsSafe(s); TotalAged(m, s.reqs, id); }
    else if reqs' != s.reqs {
      if i :| Updated(s.reqs, i, reqs') { ServicedWorth(m, s.reqs, i, id); }
      else {
        var r :| Pushed(s.reqs, r, ReqIdOf(e).value, reqs');
        TotalCons(m, r, s.reqs, id);
      }
    }
  }

  // ------------------------------------------------------------- whole runs

  /** What timer passes have taken from object `id` in the first `k` events: with
      `Passes` the passes it was listed for, with `Retries` the times it was sent again. */
  function Spent(m: Measure, ss: seq<State>, es: seq<Event>, id: ReqId, k: nat): nat
    requires k <= |es| && |ss| == |es| + 1
  {
    if k == 0 then 0 else Spent(m, ss, es, id, k - 1) + Spent1(m, ss[k - 1], es[k - 1], id)
  }

  lemma {:induction false} Budget(m: Measure, ss: seq<State>, es: seq<Event>, id: ReqId, k: nat)
    requires IsRun(ss, es) && FreshRequests(es) && k <= |es|
    ensures Spent(m, ss, es, id, k) + Total(m, ss[k].reqs, id) <= if Created(es, id, k) then Start(m) else 0
  {
    if k > 0 {
      Budget(m, ss, es, id, k - 1);
      ReachableValid(ss, es, k - 1);
      assert StepAt(ss, es, k - 1);
      EventTotal(m, ss[k - 1], es[k - 1], id);
    }
  }

  lemma {:induction false} BudgetFrom(m: Measure, ss: seq<State>, es: seq<Event>, id: ReqId, i: nat, k: nat)
    requires IsRun(ss, es) && FreshRequests(es) && i <= k <= |es| && Created(es, id, i)
    ensures Spent(m, ss, es, id, k) + Total(m, ss[k].reqs, id)
         <= Spent(m, ss, es, id, i) + Total(m, ss[i].reqs, id)
  {
    if i < k {
      BudgetFrom(m, ss, es, id, i, k - 1);
      ReachableValid(ss, es, k - 1);
      assert StepAt(ss, es, k - 1);
      EventTotal(m, ss[k - 1], es[k - 1], id);
    }
  }

  predicate Listed(s: State, id: ReqId) {
    exists j :: 0 <= j < |s.reqs| && s.reqs[j].id == id && s.reqs[j].kind != Ack
  }

  lemma ListedTotal(s: State, id: ReqId)
    requires Listed(s, id)
    ensures Total(Objects, s.reqs, id) >= 1 && Cost(Passes, s.reqs, id) >= 1
  {
    var j :| 0 <= j < |s.reqs| && s.reqs[j].id == id && s.reqs[j].kind != Ack;
    TotalAtLeast(Objects, s.reqs, j, id);
    TotalAtLeast(Passes, s.reqs, j, id);
  }

  /** A list that holds one object of this identity is worth what that object is. */
  lemma {:induction false} SoleObject(m: Measure, reqs: seq<Request>, j: nat, id: ReqId)
    requires j < |reqs| && reqs[j].id == id && reqs[j].kind != Ack && Total(Objects, reqs, id) <= 1
    ensures Total(m, reqs, id) == Worth(m, reqs[j], id)
  {
    if j == 0 { NoObject(m, reqs[1..], id); }
    else {
      TotalAtLeast(Objects, reqs[1..], j - 1, id);
      SoleObject(m, reqs[1..], j - 1, id);
    }
  }

  lemma {:induction false} NoObject(m: Measure, reqs: seq<Request>, id: ReqId)
    requires Total(Objects, reqs, id) == 0
    ensures Total(m, reqs, id) == 0
  {
    if reqs != [] { NoObject(m, reqs[1..], id); }
  }

  /** A complete object has no retries left. */
  lemma NothingAfterCompletion(ss: seq<State>, es: seq<Event>, i: nat, j: nat, k: nat)
    requires IsRun(ss, es) && FreshRequests(es) && i <= k <= |es|
    requires j < |ss[i].reqs| && ss[i].reqs[j].complete
    ensures Spent(Retries, ss, es, ss[i].reqs[j].id, k) == Spent(Retries, ss, es, ss[i].reqs[j].id, i)
  {
    var r := ss[i].reqs[j];
    ReachableValid(ss, es, i);
    assert ReqOk(r);
    Budget(Objects, ss, es, r.id, i);
    TotalAtLeast(Objects, ss[i].reqs, j, r.id);
    SoleObject(Retries, ss[i].reqs, j, r.id);
    BudgetFrom(Retries, ss, es, r.id, i, k);
    SpentGrows(Retries, ss, es, r.id, i, k);
  }

  lemma {:induction false} SpentGrows(m: Measure, ss: seq<State>, es: seq<Event>, id: ReqId, i: nat, k: nat)
    requires |ss| == |es| + 1 && i <= k <= |es|
    ensures Spent(m, ss, es, id, i) <= Spent(m, ss, es, id, k)
  {
    if i < k { SpentGrows(m, ss, es, id, i, k - 1); }
  }

  function Ticks(es: seq<Event>, i: nat, k: nat): nat
    requires i <= k <= |es|
  {
    if i == k then 0 else Ticks(es, i, k - 1) + if es[k - 1].EvTick? then 1 else 0
  }

  /** While an object is listed, every pass since its creation has met it. */
  lemma {:induction false} ListedSincePasses(ss: seq<State>, es: seq<Event>, id: ReqId, i: nat, k: nat)
    requires IsRun(ss, es) && FreshRequests(es) && i < k <= |es|
    requires ReqIdOf(es[i]) == Some(id) && Total(Objects, ss[k].reqs, id) >= 1
    ensures Spent(Passes, ss, es, id, k) >= Ticks(es, i + 1, k)
  {
    if i + 1 < k {
      NotRecreated(ss, es, id, i, k);
      ListedSincePasses(ss, es, id, i, k - 1);
      ObjectsPasses(ss[k - 1].reqs, id);
    }
  }

  lemma NotRecreated(ss: seq<State>, es: seq<Event>, id: ReqId, i: nat, k: nat)
    requires IsRun(ss, es) && FreshRequests(es) && i + 1 < k <= |es| && ReqIdOf(es[i]) == Some(id)
    ensures Total(Objects, ss[k].reqs, id) <= Total(Objects, ss[k - 1].reqs, id)
  {
    ReachableValid(ss, es, k - 1);
    assert StepAt(ss, es, k - 1);
    EventTotal(Objects, ss[k - 1], es[k - 1], id);
  }

  lemma {:induction false} ObjectsPasses(reqs: seq<Request>, id: ReqId)
    ensures Cost(Passes, reqs, id) == Total(Objects, reqs, id)
  {
    if reqs != [] { ObjectsPasses(reqs[1..], id); }
  }

  /** A query or an accept is gone by the eleventh timer pass after its creation. */
  lemma GoneByEleventhTick(ss: seq<State>, es: seq<Event>, id: ReqId, i: nat, k: nat)
    requires IsRun(ss, es) && FreshRequests(es) && i < k <= |es| && ReqIdOf(es[i]) == Some(id)
    requires Ticks(es, i + 1, k) >= 11
    ensures !Listed(ss[k], id)
  {
    if Listed(ss[k], id) {
      ListedTotal(ss[k], id);
      ListedSincePasses(ss, es, id, i, k);
      Budget(Passes, ss, es, id, k);
      ReachableValid(ss, es, k);
      var j :| 0 <= j < |ss[k].reqs| && ss[k].reqs[j].id == id && ss[k].reqs[j].kind != Ack;
      assert ReqOk(ss[k].reqs[j]);
      TotalAtLeast(Passes, ss[k].reqs, j, id);
    }
  }

  // ------------------------------------------------------- at most one result

  function Results(out: seq<NlMsg>, id: ReqId): nat {
    if out == [] then 0
    else Results(out[..|out| - 1], id) + if out[|out| - 1].ConnInfo? && out[|out| - 1].req == id then 1 else 0
  }

  /** Results given, a result about to be given, and requests that may still give one. */
  function Claims(s: State, id: ReqId): nat {
    Results(s.clientOut, id)
    + (if s.main.Accepted? && s.main.copy.id == id then 1 else 0)
    + Total(Answers, s.reqs, id)
  }

  lemma ResultsSnoc(out: seq<NlMsg>, m: NlMsg, id: ReqId)
    ensures Results(out + [m], id) == Results(out, id) + if m.ConnInfo? && m.req == id then 1 else 0
  {
    assert (out + [m])[..|out|] == out;
  }

  /** A step that neither answers a query nor takes up an accept. */
  ghost predicate Quiet(s: State, s': State) {
    s'.main == s.main
    && (s'.clientOut == s.clientOut || exists m :: s'.clientOut == s.clientOut + [m] && !m.ConnInfo?)
  }

  lemma QuietClaims(s: State, e: Event, id: ReqId)
    requires Valid(s) && Enabled(s, e) && Next(s, e).Some? && Quiet(s, Next(s, e).value)
    ensures Claims(Next(s, e).value, id) <= Claims(s, id) + New(Answers, e, id)
  {
    EventTotal(Answers, s, e, id);
    var s' := Next(s, e).value;
    if s'.clientOut != s.clientOut {
      var m :| s'.clientOut == s.clientOut + [m] && !m.ConnInfo?;
      ResultsSnoc(s.clientOut, m, id);
    }
  }

  lemma AcceptClaims(s: State, m: Parms, from: Peer, env: WireEnv, id: ReqId)
    requires Valid(s) && s.main.Idle? && m.WellFormed()
    ensures Claims(AcceptBegin(s, m, from, env), id) <= Claims(s, id)
  {
    var found := FindSame(s.ports, s.mappedPorts, m.Cp(), true);
    if found.Some? {
      var i := FindReq(s.reqs, m.assoc, s.ports[found.value].local, {Query, Ack});
      if i < |s.reqs| { TotalUpdate(Answers, s.reqs, i, Serviced(s.reqs[i]), id); }
    }
  }

  lemma RejectClaims(s: State, m: Parms, env: WireEnv, id: ReqId)
    requires Valid(s) && s.main.Idle? && m.WellFormed()
    ensures Claims(WireReject(s, m, env), id) <= Claims(s, id)
  {
    var found := FindSame(s.ports, s.mappedPorts, m.Cp(), true);
    if found.Some? {
      var i := FindReq(s.reqs, m.assoc, s.ports[found.value].local, {Query});
      if i < |s.reqs| {
        TotalUpdate(Answers, s.reqs, i, Serviced(s.reqs[i]), id);
        ResultsSnoc(s.clientOut, RejectInfo(s.reqs[i], s.ports[found.value]), id);
      }
    }
  }

  lemma FinishClaims(s: State, env: WireEnv, id: ReqId)
    requires Valid(s) && s.main.Accepted?
    ensures Claims(AcceptEnd(s, env), id) <= Claims(s, id)
  {
    var Accepted(copy, pid, m, from) := s.main;
    ResultsSnoc(s.clientOut, SuccessInfo(copy, s.ports[pid], m), id);
    if env.reqId.Some? {
      TotalCons(Answers, NewRequest(env.reqId.value, env.addr, Ack, copy.src, copy.remote,
                                    NlHdr(0, 0, 0), copy.assoc, None), s.reqs, id);
    }
  }

  lemma ReceiveClaims(s: State, e: Event, id: ReqId)
    requires Valid(s) && Enabled(s, e) && e.EvRecv?
    ensures Next(s, e).Some? && Claims(Next(s, e).value, id) <= Claims(s, id) + New(Answers, e, id)
  {
    ValidIsSafe(s);
    ParseDefined(e.data);
    var p := Parse(e.data);
    if p.Some? && p.value.mt == MT_ACC { AcceptClaims(s, p.value, e.from, e.wireEnv, id); }
    else if p.Some? && p.value.mt == MT_REJ { RejectClaims(s, p.value, e.wireEnv, id); }
    else { QuietClaims(s, e, id); }
  }

  /** Only datagrams, and what follows them, give results. */
  lemma LocalQuiet(s: State, e: Event)
    requires Valid(s) && Enabled(s, e) && !e.EvRecv? && !e.EvFinishAccept?
    ensures Next(s, e).Some? && Quiet(s, Next(s, e).value)
  {
    ValidIsSafe(s);
    if e.EvQuery? { QueryMappingShape(s, e); }
    else if !e.EvTick? { TableShape(s, e); }
  }

  lemma EventClaims(s: State, e: Event, id: ReqId)
    requires Valid(s) && Enabled(s, e)
    ensures Next(s, e).Some? && Claims(Next(s, e).value, id) <= Claims(s, id) + New(Answers, e, id)
  {
    if e.EvRecv? { ReceiveClaims(s, e, id); }
    else if e.EvFinishAccept? {
      ValidIsSafe(s);
      FinishClaims(s, e.wireEnv, id);
    } else {
      LocalQuiet(s, e);
      QuietClaims(s, e, id);
    }
  }

  /** Over every interleaving of accepts, rejects, duplicates and timer passes, the
      query behind a tracking object is answered at most once: with success or with a
      reject, never both and never twice.  Before it is created it has no answer. */
  lemma {:induction false} AtMostOneResult(ss: seq<State>, es: seq<Event>, id: ReqId, k: nat)
    requires IsRun(ss, es) && FreshRequests(es) && k <= |es|
    ensures Claims(ss[k], id) <= if Created(es, id, k) then 1 else 0
    ensures Results(ss[k].clientOut, id) <= 1
  {
    if k > 0 {
      AtMostOneResult(ss, es, id, k - 1);
      ReachableValid(ss, es, k - 1);
      assert StepAt(ss, es, k - 1);
      EventClaims(ss[k - 1], es[k - 1], id);
    }
  }
}
