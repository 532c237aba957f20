/** What the timer sends again, told by the messages that it adds to the queue: which ones a
    pass adds, that an object's message is added at most nine times over a run, and that it is
    added exactly nine times if nothing completes the object. */
module IwpmRetries {
  import opened Options
  import opened IwpmState
  import opened IwpmInvariants
  import opened IwpmRuns
  import opened IwpmTracking

  /** The messages that a pass over these requests adds to an empty queue. */
  function PassOver(reqs: seq<Request>): seq<SendMsg>
    requires ReqsOk(reqs)
  {
    assert forall i :: 0 <= i < |reqs| ==> ReqOk(reqs[i]);
    Tick(State(map[], [], reqs, Idle, [], [])).wireOut
  }

  lemma PassIsResent(reqs: seq<Request>)
    requires ReqsOk(reqs)
    ensures SendsReady(reqs) && PassOver(reqs) == Resent(reqs)
  {
    assert forall i :: 0 <= i < |reqs| ==> ReqOk(reqs[i]);
  }

  lemma PassAppends(s: State)
    requires Valid(s)
    ensures Safe(s) && Tick(s).wireOut == s.wireOut + PassOver(s.reqs)
  {
    ValidIsSafe(s);
  }

  lemma OkParts(a: seq<Request>, b: seq<Request>)
    requires ReqsOk(a + b)
    ensures ReqsOk(a) && ReqsOk(b)
  {
    var c := a + b;
    assert forall i :: 0 <= i < |a| ==> a[i] == c[i];
    assert forall i :: 0 <= i < |b| ==> b[i] == c[|a| + i];
  }

  lemma {:induction false} PassJoin(a: seq<Request>, b: seq<Request>)
    requires ReqsOk(a + b)
    ensures ReqsOk(a) && ReqsOk(b) && PassOver(a + b) == PassOver(a) + PassOver(b)
  {
    OkParts(a, b);
    if a == [] { assert a + b == b; }
    else {
      assert a + b == [a[0]] + (a[1..] + b) && a == [a[0]] + a[1..];
      PassCons(a[0], a[1..] + b);
      PassCons(a[0], a[1..]);
      PassJoin(a[1..], b);
    }
  }

  lemma PassCons(r: Request, rest: seq<Request>)
    requires ReqsOk([r] + rest)
    ensures ReqsOk([r]) && ReqsOk(rest) && PassOver([r] + rest) == PassOver([r]) + PassOver(rest)
  {
    OkParts([r], rest);
    PassIsResent([r]);
    PassIsResent(rest);
    PassIsResent([r] + rest);
    ResentCons(r, rest);
  }

  lemma {:induction false} ResentCons(r: Request, rest: seq<Request>)
    requires SendsReady([r]) && SendsReady(rest) && SendsReady([r] + rest)
    ensures Resent([r] + rest) == Resent([r]) + Resent(rest)
  {
    assert ([r] + rest)[1..] == rest && [r][1..] == [];
  }

  /** Each request in turn adds its own. */
  lemma PassParts(a: seq<Request>, r: Request, b: seq<Request>)
    requires ReqsOk(a + [r] + b)
    ensures ReqsOk(a) && ReqsOk([r]) && ReqsOk(b)
    ensures PassOver(a + [r] + b) == PassOver(a) + PassOver([r]) + PassOver(b)
  {
    PassJoin(a + [r], b);
    PassJoin(a, [r]);
  }

  /** A query or accept adds its message if and only if one to nine passes are left to it. */
  lemma PassOne(r: Request)
    requires ReqOk(r)
    ensures ReqsOk([r])
    ensures PassOver([r]) == if r.kind != Ack && 1 <= r.timeout <= 9 then [r.sendMsg.value] else []
  {
    PassIsResent([r]);
    assert [r][1..] == [];
  }

  // ------------------------------------------------------------ upper bounds

  /** How many messages a pass adds for tracking object `id`. */
  function OwnMessages(reqs: seq<Request>, id: ReqId): nat
    requires ReqsOk(reqs)
  {
    if reqs == [] then 0
    else
      assert ReqOk(reqs[0]) && forall i :: 0 <= i < |reqs[1..]| ==> reqs[1..][i] == reqs[i + 1];
      (if reqs[0].id == id && reqs[0].kind != Ack then |PassOver([reqs[0]])| else 0) + OwnMessages(reqs[1..], id)
  }

  lemma {:induction false} OwnIsCost(reqs: seq<Request>, id: ReqId)
    requires ReqsOk(reqs)
    ensures OwnMessages(reqs, id) == Cost(Retries, reqs, id)
  {
    if reqs != [] {
      assert ReqOk(reqs[0]) && forall i :: 0 <= i < |reqs[1..]| ==> reqs[1..][i] == reqs[i + 1];
      PassOne(reqs[0]);
      OwnIsCost(reqs[1..], id);
    }
  }

  /** How many messages passes have added for `id` in the first `k` events. */
  ghost function Sent(ss: seq<State>, es: seq<Event>, id: ReqId, k: nat): nat
    requires IsRun(ss, es) && k <= |es|
  {
    if k == 0 then 0
    else
      ReachableValid(ss, es, k - 1);
      Sent(ss, es, id, k - 1) + if es[k - 1].EvTick? then OwnMessages(ss[k - 1].reqs, id) else 0
  }

  /** How many passes have met `id` in the first `k` events. */
  ghost function Met(ss: seq<State>, es: seq<Event>, id: ReqId, k: nat): nat
    requires IsRun(ss, es) && k <= |es|
  {
    if k == 0 then 0 else Met(ss, es, id, k - 1) + if es[k - 1].EvTick? && Listed(ss[k - 1], id) then 1 else 0
  }

  lemma {:induction false} SentIsSpent(ss: seq<State>, es: seq<Event>, id: ReqId, k: nat)
    requires IsRun(ss, es) && k <= |es|
    ensures Sent(ss, es, id, k) == Spent(Retries, ss, es, id, k) && Met(ss, es, id, k) <= Spent(Passes, ss, es, id, k)
  {
    if k > 0 {
      SentIsSpent(ss, es, id, k - 1);
      ReachableValid(ss, es, k - 1);
      OwnIsCost(ss[k - 1].reqs, id);
      if Listed(ss[k - 1], id) { ListedTotal(ss[k - 1], id); }
    }
  }

  /** In every run the message of a query or accept is added by at most nine passes, and at
      most eleven passes meet it. */
  lemma BoundedRetries(ss: seq<State>, es: seq<Event>, id: ReqId, k: nat)
    requires IsRun(ss, es) && FreshRequests(es) && k <= |es|
    ensures Sent(ss, es, id, k) <= 9 && Met(ss, es, id, k) <= 11
  {
    SentIsSpent(ss, es, id, k);
    Budget(Retries, ss, es, id, k);
    Budget(Passes, ss, es, id, k);
  }

  /** Once an object is complete its message is never added again. */
  lemma NoRetryAfterCompletion(ss: seq<State>, es: seq<Event>, i: nat, j: nat, k: nat)
    requires IsRun(ss, es) && FreshRequests(es) && i <= k <= |es|
    requires j < |ss[i].reqs| && ss[i].reqs[j].complete
    ensures Sent(ss, es, ss[i].reqs[j].id, k) == Sent(ss, es, ss[i].reqs[j].id, i)
  {
    SentIsSpent(ss, es, ss[i].reqs[j].id, i);
    SentIsSpent(ss, es, ss[i].reqs[j].id, k);
    NothingAfterCompletion(ss, es, i, j, k);
  }

  // -------------------------------------------------------------- from below

  /** Object `id`, with message `msg`, waits for its answer after `n` passes. */
  predicate WaitsAt(reqs: seq<Request>, j: int, id: ReqId, msg: SendMsg, n: int) {
    && 0 <= j < |reqs| && reqs[j].id == id && reqs[j].kind != Ack && !reqs[j].complete
    && reqs[j].sendMsg == Some(msg) && reqs[j].timeout == 10 - n
  }

  ghost predicate Waits(s: State, id: ReqId, msg: SendMsg, n: int) {
    exists j :: WaitsAt(s.reqs, j, id, msg, n)
  }

  /** Nothing completes object `id` after event `i` up to state `k`. */
  ghost predicate Uncompleted(ss: seq<State>, id: ReqId, i: nat, k: nat)
    requires k < |ss|
  {
    forall x, j :: i < x <= k && 0 <= j < |ss[x].reqs| && ss[x].reqs[j].id == id ==> !ss[x].reqs[j].complete
  }

  /** A pass takes one from what is left, and frees what has nothing left. */
  lemma {:induction false} AgedWaits(reqs: seq<Request>, j: nat, id: ReqId, msg: SendMsg, n: nat) returns (j': int)
    requires WaitsAt(reqs, j, id, msg, n) && n < 10
    ensures WaitsAt(Aged(reqs), j', id, msg, n + 1)
  {
    if j == 0 { j' := 0; }
    else {
      j' := AgedWaits(reqs[1..], j - 1, id, msg, n);
      if reqs[0].timeout > 0 { j' := j' + 1; }
    }
  }

  /** Whatever else happens, an object that is not completed goes on waiting. */
  lemma StillWaits(s: State, e: Event, s': State, id: ReqId, msg: SendMsg, n: nat)
    requires Valid(s) && Enabled(s, e) && Next(s, e) == Some(s') && Waits(s, id, msg, n) && (e.EvTick? ==> n < 10)
    requires forall j :: 0 <= j < |s'.reqs| && s'.reqs[j].id == id ==> !s'.reqs[j].complete
    ensures Waits(s', id, msg, if e.EvTick? then n + 1 else n)
  {
    var j :| WaitsAt(s.reqs, j, id, msg, n);
    EventChange(s, e);
    if e.EvTick? {
      ValidIsSafe(s);
      var j' := AgedWaits(s.reqs, j, id, msg, n);
      assert WaitsAt(s'.reqs, j', id, msg, n + 1);
    } else if s'.reqs == s.reqs { assert WaitsAt(s'.reqs, j, id, msg, n); }
    else if i :| Updated(s.reqs, i, s'.reqs) {
      assert i != j;
      assert WaitsAt(s'.reqs, j, id, msg, n);
    } else { assert WaitsAt(s'.reqs, j + 1, id, msg, n); }
  }

  /** After its posting at event `i` an object that nothing completes has seen each pass. */
  lemma {:induction false} WaitsSince(ss: seq<State>, es: seq<Event>, id: ReqId, msg: SendMsg, i: nat, k: nat)
    requires IsRun(ss, es) && i < k <= |es| && Waits(ss[i + 1], id, msg, 0) && Uncompleted(ss, id, i, k)
    requires Ticks(es, i + 1, k) <= 10
    ensures Waits(ss[k], id, msg, Ticks(es, i + 1, k))
  {
    if i + 1 < k {
      WaitsSince(ss, es, id, msg, i, k - 1);
      ReachableValid(ss, es, k - 1);
      assert StepAt(ss, es, k - 1);
      StillWaits(ss[k - 1], es[k - 1], ss[k], id, msg, Ticks(es, i + 1, k - 1));
    }
  }

  /** The pass at event `k` adds these messages, and `own` for the object. */
  ghost predicate PassAdds(s: State, s': State, id: ReqId, own: seq<SendMsg>)
    requires ReqsOk(s.reqs)
  {
    exists a, r, b ::
      IsSplit(s.reqs, a, r, b) && r.id == id && s'.wireOut == s.wireOut + PassOver(a) + own + PassOver(b)
  }

  predicate IsSplit(reqs: seq<Request>, a: seq<Request>, r: Request, b: seq<Request>) {
    reqs == a + [r] + b && ReqsOk(a) && ReqsOk(b)
  }

  /** An object that waits and has been met by one to nine passes has its message added by the
      next one; the first pass adds none, nor does the one after ten. */
  lemma NextPassSends(ss: seq<State>, es: seq<Event>, id: ReqId, msg: SendMsg, i: nat, k: nat)
    requires IsRun(ss, es) && i < k < |es| && Waits(ss[i + 1], id, msg, 0) && Uncompleted(ss, id, i, k)
    requires es[k].EvTick? && Ticks(es, i + 1, k) <= 10
    ensures ReqsOk(ss[k].reqs)
    ensures PassAdds(ss[k], ss[k + 1], id, if 1 <= Ticks(es, i + 1, k) <= 9 then [msg] else [])
  {
    var n := Ticks(es, i + 1, k);
    WaitsSince(ss, es, id, msg, i, k);
    var j :| WaitsAt(ss[k].reqs, j, id, msg, n);
    ReachableValid(ss, es, k);
    assert StepAt(ss, es, k);
    TickAdds(ss[k], j, id, msg, n);
  }

  lemma TickAdds(s: State, j: nat, id: ReqId, msg: SendMsg, n: nat)
    requires Valid(s) && WaitsAt(s.reqs, j, id, msg, n)
    ensures Safe(s) && PassAdds(s, Tick(s), id, if 1 <= n <= 9 then [msg] else [])
  {
    PassAppends(s);
    var a, r, b := s.reqs[..j], s.reqs[j], s.reqs[j + 1..];
    assert s.reqs == a + [r] + b;
    assert ReqOk(r);
    PassParts(a, r, b);
    PassOne(r);
    PassInMiddle(s, Tick(s), a, r, b);
  }

  lemma PassInMiddle(s: State, s': State, a: seq<Request>, r: Request, b: seq<Request>)
    requires ReqsOk(s.reqs) && ReqsOk(a) && ReqsOk([r]) && ReqsOk(b) && s.reqs == a + [r] + b
    requires s'.wireOut == s.wireOut + (PassOver(a) + PassOver([r]) + PassOver(b))
    ensures PassAdds(s, s', r.id, PassOver([r]))
  {
    assert IsSplit(s.reqs, a, r, b);
    assert s'.wireOut == s.wireOut + PassOver(a) + PassOver([r]) + PassOver(b);
  }

  // ------------------------------------------------------------ exactly nine

  /** What is counted for the only object of an identity is what it adds. */
  lemma {:induction false} SoleMessages(reqs: seq<Request>, j: nat, id: ReqId)
    requires ReqsOk(reqs) && j < |reqs| && reqs[j].id == id && reqs[j].kind != Ack && Total(Objects, reqs, id) <= 1
    ensures OwnMessages(reqs, id) == if 1 <= reqs[j].timeout <= 9 then 1 else 0
  {
    assert ReqOk(reqs[0]) && forall i :: 0 <= i < |reqs[1..]| ==> reqs[1..][i] == reqs[i + 1];
    PassOne(reqs[0]);
    if j == 0 { NoMessages(reqs[1..], id); }
    else {
      TotalAtLeast(Objects, reqs[1..], j - 1, id);
      SoleMessages(reqs[1..], j - 1, id);
    }
  }

  lemma {:induction false} NoMessages(reqs: seq<Request>, id: ReqId)
    requires ReqsOk(reqs) && Total(Objects, reqs, id) == 0
    ensures OwnMessages(reqs, id) == 0
  {
    if reqs != [] {
      assert forall i :: 0 <= i < |reqs[1..]| ==> reqs[1..][i] == reqs[i + 1];
      NoMessages(reqs[1..], id);
    }
  }

  /** The passes that add a message, of the first `n` that meet an object. */
  function Resendings(n: nat): nat { if n == 0 then 0 else if n <= 10 then n - 1 else 9 }

  lemma Ungone(ss: seq<State>, es: seq<Event>, id: ReqId, i: nat, k: nat)
    requires IsRun(ss, es) && FreshRequests(es) && i < k <= |es| && ReqIdOf(es[i]) == Some(id)
    requires Ticks(es, i + 1, k) >= 11
    ensures Total(Objects, ss[k].reqs, id) == 0
  {
    GoneByEleventhTick(ss, es, id, i, k);
    UnlistedTotal(ss[k].reqs, id);
  }

  lemma {:induction false} UnlistedTotal(reqs: seq<Request>, id: ReqId)
    requires forall j :: 0 <= j < |reqs| ==> !(reqs[j].id == id && reqs[j].kind != Ack)
    ensures Total(Objects, reqs, id) == 0
  {
    if reqs != [] {
      assert forall j :: 0 <= j < |reqs[1..]| ==> reqs[1..][j] == reqs[j + 1];
      UnlistedTotal(reqs[1..], id);
    }
  }

  /** What one pass adds for an object that was posted at `i` and is not completed. */
  lemma PassCounts(ss: seq<State>, es: seq<Event>, id: ReqId, msg: SendMsg, i: nat, k: nat)
    requires IsRun(ss, es) && FreshRequests(es) && i < k < |es| && ReqIdOf(es[i]) == Some(id)
    requires Waits(ss[i + 1], id, msg, 0) && Uncompleted(ss, id, i, k)
    ensures ReqsOk(ss[k].reqs)
    ensures OwnMessages(ss[k].reqs, id) == if 1 <= Ticks(es, i + 1, k) <= 9 then 1 else 0
  {
    ReachableValid(ss, es, k);
    if Ticks(es, i + 1, k) <= 10 {
      WaitsSince(ss, es, id, msg, i, k);
      var j :| WaitsAt(ss[k].reqs, j, id, msg, Ticks(es, i + 1, k));
      Budget(Objects, ss, es, id, k);
      SoleMessages(ss[k].reqs, j, id);
    } else {
      Ungone(ss, es, id, i, k);
      NoMessages(ss[k].reqs, id);
    }
  }

  /** From below: the message of an object that nothing completes has been added by each pass
      but the first, until nine have. */
  lemma {:induction false} ExactlyResent(ss: seq<State>, es: seq<Event>, id: ReqId, msg: SendMsg, i: nat, k: nat)
    requires IsRun(ss, es) && FreshRequests(es) && i < k <= |es| && ReqIdOf(es[i]) == Some(id)
    requires Waits(ss[i + 1], id, msg, 0) && Uncompleted(ss, id, i, k)
    ensures Sent(ss, es, id, k) == Resendings(Ticks(es, i + 1, k))
  {
    if i + 1 < k {
      ExactlyResent(ss, es, id, msg, i, k - 1);
      PassCounts(ss, es, id, msg, i, k - 1);
    } else {
      SentIsSpent(ss, es, id, i);
      Budget(Retries, ss, es, id, i);
      NotYet(es, id, i);
    }
  }

  lemma NotYet(es: seq<Event>, id: ReqId, i: nat)
    requires FreshRequests(es) && i < |es| && ReqIdOf(es[i]) == Some(id)
    ensures !Created(es, id, i)
  {
  }
}
