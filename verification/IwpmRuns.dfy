/** Whole runs of one port mapper daemon, whatever its clients, the network and the
    timer do.  Datagrams are arbitrary bytes here, so these results do not depend on
    the peers following the protocol. */
module IwpmRuns {
  import opened Options
  import opened IwpmAddr
  import opened IwpmState
  import opened IwpmInvariants

  /** `ss[i]` is the state before event `es[i]`. */
  ghost predicate IsRun(ss: seq<State>, es: seq<Event>) {
    && |ss| == |es| + 1
    && ss[0] == INIT_STATE
    && forall i :: 0 <= i < |es| ==> StepAt(ss, es, i)
  }

  ghost predicate StepAt(ss: seq<State>, es: seq<Event>, i: nat)
    requires |ss| == |es| + 1 && i < |es|
  {
    IsStep(ss[i], es[i], ss[i + 1])
  }

  predicate IsStep(s: State, e: Event, s': State) {
    Enabled(s, e) && Next(s, e) == Some(s')
  }

  /** Every reachable state is valid and no event crashes in it. */
  lemma {:induction false} ReachableValid(ss: seq<State>, es: seq<Event>, k: nat)
    requires IsRun(ss, es) && k < |ss|
    ensures Valid(ss[k])
    ensures forall e :: Enabled(ss[k], e) ==> Next(ss[k], e).Some?
  {
    if k > 0 {
      ReachableValid(ss, es, k - 1);
      assert StepAt(ss, es, k - 1);
      EventKeepsValid(ss[k - 1], es[k - 1]);
    }
    ValidIsSafe(ss[k]);
  }

  /** In every reachable state a lookup of a local address that is not a wildcard has
      one candidate at most, and gives the same answer in every order of the list. */
  lemma ReachableLookup(ss: seq<State>, es: seq<Event>, k: nat, search: SockAddr, other: seq<PortId>)
    requires IsRun(ss, es) && k < |ss| && !IsWildcard(search)
    requires forall id :: id in other <==> id in ss[k].mappedPorts
    ensures Linked(ss[k].ports, ss[k].mappedPorts) && Linked(ss[k].ports, other)
    ensures Find(ss[k].ports, other, search, true) == Find(ss[k].ports, ss[k].mappedPorts, search, true)
    ensures forall a, b ::
              (a in other && b in other
               && Hit(ss[k].ports[a], search, true) && Hit(ss[k].ports[b], search, true)) ==> a == b
  {
    ReachableValid(ss, es, k);
    FindOrderIrrelevant(ss[k].ports, ss[k].mappedPorts, other, search);
    forall a, b | a in other && b in other
                  && Hit(ss[k].ports[a], search, true) && Hit(ss[k].ports[b], search, true)
      ensures a == b
    {
      HitUnique(ss[k].ports, ss[k].mappedPorts, search, a, b);
    }
  }

  // --------------------------------------------------------- conservation

  /** The mapping that a client request resolves to: the one found, or the new one. */
  function Target(s: State, e: Event): Option<PortId>
    requires Linked(s.ports, s.mappedPorts)
  {
    match e
    case EvAdd(_, _, local, _, env) => Resolve(s, local, env.portId)
    case EvQuery(_, _, local, _, _, env) => Resolve(s, local, env.portId)
    case EvMapInfo(_, _, local, _, _, env) => env.portId
    case _ => None
  }

  function Resolve(s: State, local: SockAddr, created: Option<PortId>): Option<PortId>
    requires Linked(s.ports, s.mappedPorts)
  {
    var found := Find(s.ports, s.mappedPorts, local, true);
    if found.Some? then found else created
  }

  /** Success as a client sees it: an add is answered with the mapping, a query is
      posted, a mapping info message makes the list longer. */
  predicate Granted(s: State, e: Event, s': State) {
    match e
    case EvAdd(_, _, _, _, _) =>
      |s'.clientOut| > |s.clientOut| && s'.clientOut[|s.clientOut|].MapReply?
    case EvQuery(_, _, _, _, _, _) => |s'.reqs| > |s.reqs|
    case EvMapInfo(_, _, _, _, _, _) => |s'.mappedPorts| > |s.mappedPorts|
    case _ => false
  }

  /** The owner of mapping `id` asks for its removal. */
  predicate Released(s: State, e: Event, id: PortId)
    requires Linked(s.ports, s.mappedPorts)
  {
    && e.EvRemove? && e.parseOk && id in s.ports && s.ports[id].owner == e.client
    && FindSame(s.ports, s.mappedPorts, e.local, true) == Some(id)
  }

  function Delta(s: State, e: Event, s': State, id: PortId): int
    requires Linked(s.ports, s.mappedPorts)
  {
    if Granted(s, e, s') && Target(s, e) == Some(id) then 1
    else if Released(s, e, id) then -1
    else 0
  }

  /** Grants of mapping `id` minus releases of it over the first `k` events. */
  function Balance(ss: seq<State>, es: seq<Event>, id: PortId, k: nat): int
    requires k <= |es| && |ss| == |es| + 1
    requires forall i :: 0 <= i < |es| ==> Linked(ss[i].ports, ss[i].mappedPorts)
  {
    if k == 0 then 0
    else Balance(ss, es, id, k - 1) + Delta(ss[k - 1], es[k - 1], ss[k], id)
  }

  function RefCnt(s: State, id: PortId): int {
    if id in s.ports then s.ports[id].refCnt else 0
  }

  lemma AddMappingCounts(s: State, e: Event, id: PortId)
    requires Valid(s) && Enabled(s, e) && e.EvAdd?
    ensures Next(s, e).Some?
    ensures RefCnt(Next(s, e).value, id) == RefCnt(s, id) + Delta(s, e, Next(s, e).value, id)
  {
    ValidIsSafe(s);
    var env := e.addEnv;
    if env.parseOk {
      var found := Find(s.ports, s.mappedPorts, e.local, true);
      if found.Some? { UnwindHeld(s, found.value); }
      else {
        var p := CreatePort(e.client, e.local, e.noPortMap, env.tcp);
        if p.Some? && env.portId.Some? { UnwindNew(s, env.portId.value, p.value); }
      }
    }
  }

  lemma QueryMappingCounts(s: State, e: Event, id: PortId)
    requires Valid(s) && Enabled(s, e) && e.EvQuery?
    ensures Next(s, e).Some?
    ensures RefCnt(Next(s, e).value, id) == RefCnt(s, id) + Delta(s, e, Next(s, e).value, id)
  {
    ValidIsSafe(s);
    var env := e.queryEnv;
    if env.parseOk {
      var found := Find(s.ports, s.mappedPorts, e.local, true);
      if found.Some? {
        UnwindHeld(s, found.value);
        QueryHeldCounts(s, AddRef(s, found.value), found.value, e);
      } else {
        var p := CreatePort(e.client, e.local, e.noPortMap, env.tcp);
        if p.Some? && env.portId.Some? {
          UnwindNew(s, env.portId.value, p.value);
          QueryHeldCounts(s, s.(ports := s.ports[env.portId.value := p.value]), env.portId.value, e);
        }
      }
    }
  }

  /** A query either posts its request and keeps the reference, or gives it back. */
  lemma QueryHeldCounts(s0: State, s: State, id: PortId, e: Event)
    requires e.EvQuery? && id in s.ports && s.reqs == s0.reqs && DropRef(s, id) == s0
    ensures var s' := QueryHeld(s, id, e.client, e.nl, e.local, e.remote, e.queryEnv);
            if |s'.reqs| > |s0.reqs| then s'.ports == s.ports else s'.ports == s0.ports
  {
  }

  lemma RemoveMappingCounts(s: State, e: Event, id: PortId)
    requires Valid(s) && Enabled(s, e) && e.EvRemove?
    ensures Next(s, e).Some?
    ensures RefCnt(Next(s, e).value, id) == RefCnt(s, id) + Delta(s, e, Next(s, e).value, id)
  {
    ValidIsSafe(s);
  }

  lemma MapInfoCounts(s: State, e: Event, id: PortId)
    requires Valid(s) && Enabled(s, e) && e.EvMapInfo?
    ensures Next(s, e).Some?
    ensures RefCnt(Next(s, e).value, id) == RefCnt(s, id) + Delta(s, e, Next(s, e).value, id)
  {
    ValidIsSafe(s);
  }

  /** Wire messages and the timer leave the table alone. */
  lemma OtherCounts(s: State, e: Event, id: PortId)
    requires Valid(s) && Enabled(s, e) && (e.EvRecv? || e.EvFinishAccept? || e.EvTick?)
    ensures Next(s, e).Some?
    ensures RefCnt(Next(s, e).value, id) == RefCnt(s, id) + Delta(s, e, Next(s, e).value, id)
  {
    ValidIsSafe(s);
    if e.EvRecv? { ReceiveKeeps(s, e.data, e.from, e.wireEnv); }
  }

  lemma EventCounts(s: State, e: Event, id: PortId)
    requires Valid(s) && Enabled(s, e)
    ensures Next(s, e).Some?
    ensures RefCnt(Next(s, e).value, id) == RefCnt(s, id) + Delta(s, e, Next(s, e).value, id)
  {
    match e
    case EvAdd(_, _, _, _, _) => AddMappingCounts(s, e, id);
    case EvQuery(_, _, _, _, _, _) => QueryMappingCounts(s, e, id);
    case EvRemove(_, _, _, _) => RemoveMappingCounts(s, e, id);
    case EvMapInfo(_, _, _, _, _, _) => MapInfoCounts(s, e, id);
    case _ => OtherCounts(s, e, id);
  }

  lemma StepCounts(ss: seq<State>, es: seq<Event>, id: PortId, k: nat)
    requires IsRun(ss, es) && k < |es|
    ensures Linked(ss[k].ports, ss[k].mappedPorts)
    ensures RefCnt(ss[k + 1], id) == RefCnt(ss[k], id) + Delta(ss[k], es[k], ss[k + 1], id)
  {
    ReachableValid(ss, es, k);
    assert StepAt(ss, es, k);
    EventCounts(ss[k], es[k], id);
  }

  lemma {:induction false} CountsBalance(ss: seq<State>, es: seq<Event>, id: PortId, k: nat)
    requires IsRun(ss, es) && k <= |es|
    requires forall i :: 0 <= i < |es| ==> Linked(ss[i].ports, ss[i].mappedPorts)
    ensures RefCnt(ss[k], id) == Balance(ss, es, id, k)
  {
    if k > 0 {
      CountsBalance(ss, es, id, k - 1);
      StepCounts(ss, es, id, k - 1);
    }
  }

  /** Conservation: at every moment of every run the reference count of a mapping is
      what its clients were granted minus what its owner released.  It is listed and
      allocated exactly while that number is positive. */
  lemma Conservation(ss: seq<State>, es: seq<Event>, id: PortId, k: nat)
    requires IsRun(ss, es) && k <= |es|
    ensures forall i :: 0 <= i < |ss| ==> Linked(ss[i].ports, ss[i].mappedPorts)
    ensures RefCnt(ss[k], id) == Balance(ss, es, id, k) >= 0
    ensures id in ss[k].ports <==> Balance(ss, es, id, k) > 0
    ensures id in ss[k].mappedPorts <==> Balance(ss, es, id, k) > 0
  {
    forall i | 0 <= i < |ss| ensures Linked(ss[i].ports, ss[i].mappedPorts) { ReachableValid(ss, es, i); }
    CountsBalance(ss, es, id, k);
    ReachableValid(ss, es, k);
  }
}
