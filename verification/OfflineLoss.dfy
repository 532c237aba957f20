/** What the decomposition loses.  If the flow of a pair has no cycle, get_paths hands out all
    of the unit but for at most the cutoff on each arc; if besides it comes in multiples of a
    grain above the cutoff, nothing at all. */
module OfflineLoss {
  import opened OfflineSums
  import opened OfflineLp
  import opened OfflinePaths
  import opened Visits

  /** The pair that is taken apart: its ends, an order that every arc with flow descends,
      and the grain of the flow.  A grain within the cutoff says nothing. */
  datatype Pair = Pair(t: Topology, u: nat, v: nat, ord: int -> int, q: real) {
    ghost predicate Ok() { t.WellFormed() && v < t.n }

    /** The most that can be lost for an arc. */
    function Eps(): real { if q > CUTOFF then 0.0 else CUTOFF }
  }

  function Flow(p: Pair, r: map<Key, real>, a: int, b: int): real
    requires p.t.WellFormed()
  {
    if p.t.IsArc(a, b) && Key(p.u, p.v, a, b) in r then r[Key(p.u, p.v, a, b)] else 0.0
  }

  function Out(p: Pair, r: map<Key, real>, a: int): real
    requires p.t.WellFormed()
  {
    Sum(p.t.n, b => Flow(p, r, a, b))
  }

  function In(p: Pair, r: map<Key, real>, b: int): real
    requires p.t.WellFormed()
  {
    Sum(p.t.n, a => Flow(p, r, a, b))
  }

  function Times(q: real, m: int): real { q * (m as real) }

  ghost predicate Multiple(x: real, q: real) {
    exists m :: x == Times(q, m)
  }

  lemma MultipleMinus(x: real, y: real, q: real)
    requires Multiple(x, q) && Multiple(y, q)
    ensures Multiple(x - y, q)
  {
    var m :| x == Times(q, m);
    var k :| y == Times(q, k);
    assert x - y == Times(q, m - k);
  }

  /** Nothing lies between zero and the grain. */
  lemma MultipleGap(x: real, q: real)
    requires Multiple(x, q) && 0.0 <= x < q
    ensures x == 0.0
  {
    var m :| x == Times(q, m);
    TimesApart(q, m);
  }

  lemma TimesApart(q: real, m: int)
    requires q > 0.0
    ensures m >= 1 ==> Times(q, m) >= q
    ensures m <= -1 ==> Times(q, m) <= -q
    ensures m == 0 ==> Times(q, m) == 0.0
  {
    var k := m as real;
    if m >= 1 { MulMonotone(q, 1.0, k); }
    else if m <= -1 { MulMonotone(q, k, -1.0); }
  }

  ghost predicate Fits(p: Pair, x: real) { p.q > CUTOFF ==> Multiple(x, p.q) }

  lemma FitsMinus(p: Pair, x: real, y: real)
    requires Fits(p, x) && Fits(p, y)
    ensures Fits(p, x - y)
  {
    if p.q > CUTOFF { MultipleMinus(x, y, p.q); }
  }

  lemma FitsSmall(p: Pair, x: real)
    requires Fits(p, x) && 0.0 <= x <= CUTOFF
    ensures x <= p.Eps()
  {
    if p.q > CUTOFF { MultipleGap(x, p.q); }
  }

  // ------------------------------------------------------------------ balance

  ghost predicate Descends(p: Pair, r: map<Key, real>)
    requires p.Ok()
  {
    forall a, b :: Flow(p, r, a, b) > 0.0 ==> p.ord(b) < p.ord(a)
  }

  ghost predicate Grained(p: Pair, r: map<Key, real>)
    requires p.Ok()
  {
    forall a, b :: Fits(p, Flow(p, r, a, b))
  }

  ghost predicate FlowOk(p: Pair, r: map<Key, real>)
    requires p.Ok()
  {
    HasArcs(p.t, r, p.u, p.v) && NonNegativeFlow(r) && Descends(p, r) && Grained(p, r)
  }

  /** What may be lost for an arc: nothing, until the search would not take it any more. */
  function ArcLoss(p: Pair, r: map<Key, real>, a: int, b: int): real
    requires p.t.WellFormed()
  {
    if p.t.IsArc(a, b) && Flow(p, r, a, b) <= CUTOFF then p.Eps() else 0.0
  }

  function Loss(p: Pair, r: map<Key, real>, a: int): real
    requires p.t.WellFormed()
  {
    Sum(p.t.n, b => ArcLoss(p, r, a, b))
  }

  /** Switch `w` still has what it receives to pass on, and `f` units besides, and beyond that
      no more than may be lost for its arcs. */
  ghost predicate Balanced(p: Pair, r: map<Key, real>, w: int, f: real)
    requires p.Ok()
  {
    0.0 <= Out(p, r, w) - In(p, r, w) - f <= Loss(p, r, w)
  }

  ghost predicate BelowOk(p: Pair, r: map<Key, real>, i: int)
    requires p.Ok()
  {
    forall w :: 0 <= w < p.t.n && w != p.v && p.ord(w) < p.ord(i) ==> Balanced(p, r, w, 0.0)
  }

  ghost predicate MarksAbove(p: Pair, vis: seq<bool>, i: int)
    requires p.Ok()
  {
    |vis| == p.t.n && !vis[p.v] && forall m :: 0 <= m < p.t.n && vis[m] ==> p.ord(m) >= p.ord(i)
  }

  /** `f` units are to be sent on from `i`. */
  ghost predicate CanSend(p: Pair, r: map<Key, real>, i: int, f: real, vis: seq<bool>)
    requires p.Ok()
  {
    && FlowOk(p, r) && 0 <= i < p.t.n && i != p.v && MarksAbove(p, vis, i)
    && f >= 0.0 && Fits(p, f) && Balanced(p, r, i, f) && BelowOk(p, r, i)
  }

  /** Only arcs out of `i` and of switches below it have changed, and all downwards. */
  ghost predicate Lowered(p: Pair, r: map<Key, real>, left: map<Key, real>, i: int)
    requires p.Ok()
  {
    && left.Keys == r.Keys
    && (forall a, b :: a != i && p.ord(a) >= p.ord(i) ==> Flow(p, left, a, b) == Flow(p, r, a, b))
    && (forall a, b :: Flow(p, left, a, b) <= Flow(p, r, a, b))
  }

  /** `i` has sent what it had to. */
  ghost predicate HasSent(p: Pair, r: map<Key, real>, left: map<Key, real>, i: int)
    requires p.Ok()
  {
    FlowOk(p, left) && Lowered(p, r, left, i) && Balanced(p, left, i, 0.0) && BelowOk(p, left, i)
  }

  /** The flow of the arcs out of `i`, after `df` was taken from the one to `j`. */
  ghost predicate TakenAt(p: Pair, r: map<Key, real>, left: map<Key, real>, i: int, j: int, df: real)
    requires p.Ok()
  {
    forall b :: Flow(p, left, i, b) == Flow(p, r, i, b) - if b == j then df else 0.0
  }

  /** `df` units were taken from arc (i, j) and sent on from `j`. */
  ghost predicate Took(p: Pair, r: map<Key, real>, left: map<Key, real>, i: int, j: int, df: real)
    requires p.Ok()
  {
    FlowOk(p, left) && Lowered(p, r, left, i) && BelowOk(p, left, i) && TakenAt(p, r, left, i, j, df)
  }

  // ---------------------------------------------------------- what stays put

  lemma FlowNonNegative(p: Pair, r: map<Key, real>, a: int, b: int)
    requires p.Ok() && NonNegativeFlow(r)
    ensures Flow(p, r, a, b) >= 0.0
  {
  }

  lemma InNonNegative(p: Pair, r: map<Key, real>, w: int)
    requires p.Ok() && NonNegativeFlow(r)
    ensures In(p, r, w) >= 0.0
  {
    SumNonNegative(p.t.n, a => Flow(p, r, a, w));
  }

  lemma OutSame(p: Pair, r: map<Key, real>, r': map<Key, real>, w: int)
    requires p.Ok() && forall b :: Flow(p, r', w, b) == Flow(p, r, w, b)
    ensures Out(p, r', w) == Out(p, r, w)
  {
    SumEqual(p.t.n, b => Flow(p, r', w, b), b => Flow(p, r, w, b));
  }

  lemma InSame(p: Pair, r: map<Key, real>, r': map<Key, real>, w: int)
    requires p.Ok() && forall a :: Flow(p, r', a, w) == Flow(p, r, a, w)
    ensures In(p, r', w) == In(p, r, w)
  {
    SumEqual(p.t.n, a => Flow(p, r', a, w), a => Flow(p, r, a, w));
  }

  /** No flow enters a switch from its own height or below, so none is taken there. */
  lemma InAbove(p: Pair, r: map<Key, real>, left: map<Key, real>, i: int, w: int)
    requires p.Ok() && FlowOk(p, r) && FlowOk(p, left) && Lowered(p, r, left, i) && p.ord(w) >= p.ord(i)
    ensures In(p, left, w) == In(p, r, w)
  {
    forall a ensures Flow(p, left, a, w) == Flow(p, r, a, w) {
      FlowNonNegative(p, r, a, w);
      FlowNonNegative(p, left, a, w);
    }
    InSame(p, r, left, w);
  }

  lemma LossGrows(p: Pair, r: map<Key, real>, r': map<Key, real>, w: int)
    requires p.Ok() && forall b :: Flow(p, r', w, b) <= Flow(p, r, w, b)
    ensures Loss(p, r', w) >= Loss(p, r, w)
  {
    SumMonotone(p.t.n, b => ArcLoss(p, r, w, b), b => ArcLoss(p, r', w, b));
  }

  lemma StillBalanced(p: Pair, r: map<Key, real>, r': map<Key, real>, w: int, f: real)
    requires p.Ok() && Balanced(p, r, w, f) && In(p, r', w) == In(p, r, w)
    requires forall b :: Flow(p, r', w, b) == Flow(p, r, w, b)
    ensures Balanced(p, r', w, f)
  {
    OutSame(p, r, r', w);
    LossGrows(p, r, r', w);
  }

  // -------------------------------------------------------- taking from an arc

  function Less(p: Pair, r: map<Key, real>, i: nat, j: nat, df: real): map<Key, real>
    requires Key(p.u, p.v, i, j) in r
  {
    r[Key(p.u, p.v, i, j) := r[Key(p.u, p.v, i, j)] - df]
  }

  /** What is asked for before `df` units are taken from arc (i, j). */
  ghost predicate CanTake(p: Pair, r: map<Key, real>, i: nat, j: nat, df: real, vis: seq<bool>)
    requires p.Ok()
  {
    && FlowOk(p, r) && BelowOk(p, r, i) && MarksAbove(p, vis, i) && p.t.IsArc(i, j) && !vis[j]
    && 0.0 <= df <= r[Key(p.u, p.v, i, j)] && r[Key(p.u, p.v, i, j)] > 0.0 && Fits(p, df)
  }

  lemma LessFlow(p: Pair, r: map<Key, real>, i: nat, j: nat, df: real)
    requires p.Ok() && FlowOk(p, r) && p.t.IsArc(i, j) && 0.0 <= df <= r[Key(p.u, p.v, i, j)] && Fits(p, df)
    ensures var r1 := Less(p, r, i, j, df);
            && FlowOk(p, r1) && r1.Keys == r.Keys
            && (forall a, b :: Flow(p, r1, a, b) == Flow(p, r, a, b) - if a == i && b == j then df else 0.0)
  {
    var r1 := Less(p, r, i, j, df);
    assert Flow(p, r, i, j) == r[Key(p.u, p.v, i, j)];
    assert Fits(p, Flow(p, r, i, j));
    FitsMinus(p, Flow(p, r, i, j), df);
    forall a, b ensures Flow(p, r1, a, b) == Flow(p, r, a, b) - if a == i && b == j then df else 0.0 { }
    forall a, b ensures Fits(p, Flow(p, r1, a, b)) { assert Fits(p, Flow(p, r, a, b)); }
  }

  lemma LessSums(p: Pair, r: map<Key, real>, r1: map<Key, real>, i: nat, j: nat, df: real)
    requires p.Ok() && i < p.t.n && j < p.t.n
    requires forall a, b :: Flow(p, r1, a, b) == Flow(p, r, a, b) - if a == i && b == j then df else 0.0
    ensures Out(p, r1, i) == Out(p, r, i) - df && In(p, r1, j) == In(p, r, j) - df
  {
    SumUpdate(p.t.n, j, b => Flow(p, r, i, b), b => Flow(p, r1, i, b));
    SumUpdate(p.t.n, i, a => Flow(p, r, a, j), a => Flow(p, r1, a, j));
  }

  /** Away from both ends of the arc nothing changes. */
  lemma LessElsewhere(p: Pair, r: map<Key, real>, r1: map<Key, real>, i: nat, j: nat, df: real, w: int)
    requires p.Ok() && w != i && w != j && Balanced(p, r, w, 0.0)
    requires forall a, b :: Flow(p, r1, a, b) == Flow(p, r, a, b) - if a == i && b == j then df else 0.0
    ensures Balanced(p, r1, w, 0.0)
  {
    InSame(p, r, r1, w);
    StillBalanced(p, r, r1, w, 0.0);
  }

  /** After `df` was taken from arc (i, j) it can be sent on from `j`. */
  lemma SendOn(p: Pair, r: map<Key, real>, i: nat, j: nat, df: real, vis: seq<bool>)
    requires p.Ok() && CanTake(p, r, i, j, df, vis) && j != p.v
    ensures var r1 := Less(p, r, i, j, df);
            CanSend(p, r1, j, df, vis[j := true]) && p.ord(j) < p.ord(i)
  {
    var r1 := Less(p, r, i, j, df);
    LessFlow(p, r, i, j, df);
    LessSums(p, r, r1, i, j, df);
    assert Flow(p, r, i, j) > 0.0;
    assert Balanced(p, r, j, 0.0);
    OutSame(p, r, r1, j);
    LossGrows(p, r, r1, j);
    forall w | 0 <= w < p.t.n && w != p.v && p.ord(w) < p.ord(j) ensures Balanced(p, r1, w, 0.0) {
      LessElsewhere(p, r, r1, i, j, df, w);
    }
  }

  /** What was sent from `j` was taken at `i`. */
  lemma TookThrough(p: Pair, r: map<Key, real>, i: nat, j: nat, df: real, vis: seq<bool>, left: map<Key, real>)
    requires p.Ok() && CanTake(p, r, i, j, df, vis) && j != p.v && p.ord(j) < p.ord(i)
    requires HasSent(p, Less(p, r, i, j, df), left, j)
    ensures Took(p, r, left, i, j, df)
  {
    var r1 := Less(p, r, i, j, df);
    LessFlow(p, r, i, j, df);
    forall w | 0 <= w < p.t.n && w != p.v && p.ord(w) < p.ord(i) ensures Balanced(p, left, w, 0.0) {
      if w != j && p.ord(w) >= p.ord(j) {
        LessElsewhere(p, r, r1, i, j, df, w);
        InAbove(p, r1, left, j, w);
        StillBalanced(p, r1, left, w, 0.0);
      }
    }
  }

  /** An arc that ends at `v` delivers what is taken from it. */
  lemma TookDirect(p: Pair, r: map<Key, real>, i: nat, df: real, vis: seq<bool>)
    requires p.Ok() && CanTake(p, r, i, p.v, df, vis)
    ensures Took(p, r, Less(p, r, i, p.v, df), i, p.v, df)
  {
    var r1 := Less(p, r, i, p.v, df);
    LessFlow(p, r, i, p.v, df);
    forall w | 0 <= w < p.t.n && w != p.v && p.ord(w) < p.ord(i) ensures Balanced(p, r1, w, 0.0) {
      LessElsewhere(p, r, r1, i, p.v, df, w);
    }
  }

  // ------------------------------------------------------------ after a turn

  /** A turn leaves `i` with that much less to send. */
  lemma TookBalance(p: Pair, r: map<Key, real>, i: int, j: int, rest: real, df: real, left: map<Key, real>)
    requires p.Ok() && FlowOk(p, r) && Balanced(p, r, i, rest) && Took(p, r, left, i, j, df) && 0 <= j < p.t.n
    ensures Out(p, left, i) == Out(p, r, i) - df && In(p, left, i) == In(p, r, i)
    ensures Balanced(p, left, i, rest - df)
  {
    SumUpdate(p.t.n, j, b => Flow(p, r, i, b), b => Flow(p, left, i, b));
    InAbove(p, r, left, i, i);
    LossGrows(p, r, left, i);
  }

  lemma OneMoreLost(p: Pair, r: map<Key, real>, left: map<Key, real>, i: int, j: int)
    requires p.Ok() && p.t.IsArc(i, j) && Flow(p, left, i, j) <= CUTOFF < Flow(p, r, i, j)
    requires forall b :: Flow(p, left, i, b) <= Flow(p, r, i, b)
    ensures Loss(p, left, i) >= Loss(p, r, i) + p.Eps()
  {
    var was := b => ArcLoss(p, r, i, b);
    var one := b => if b == j then p.Eps() else ArcLoss(p, r, i, b);
    SumUpdate(p.t.n, j, was, one);
    SumMonotone(p.t.n, one, b => ArcLoss(p, left, i, b));
  }

  /** A search that stops with less than the cutoff to send has used up an arc for it. */
  lemma StopsBalanced(p: Pair, r: map<Key, real>, i: nat, j: nat, rest: real, df: real, left: map<Key, real>)
    requires p.Ok() && FlowOk(p, r) && Balanced(p, r, i, rest) && Took(p, r, left, i, j, df) && p.t.IsArc(i, j)
    requires Key(p.u, p.v, i, j) in r && r[Key(p.u, p.v, i, j)] > CUTOFF && df == Turn(r, p.u, p.v, i, rest, j)
    requires 0.0 <= rest - df < CUTOFF && Fits(p, rest - df)
    ensures Balanced(p, left, i, 0.0)
  {
    TookBalance(p, r, i, j, rest, df, left);
    if df < rest {
      FitsSmall(p, rest - df);
      OneMoreLost(p, r, left, i, j);
    }
  }

  /** The arcs from `i` before `j` carry no more than may be lost. */
  ghost predicate Drained(p: Pair, r: map<Key, real>, i: int, j: int)
    requires p.Ok()
  {
    forall b :: 0 <= b < j ==> Flow(p, r, i, b) <= p.Eps()
  }

  /** A search that has been through all arcs has used up all of them. */
  lemma EndsBalanced(p: Pair, r: map<Key, real>, i: int, rest: real)
    requires p.Ok() && NonNegativeFlow(r) && Drained(p, r, i, p.t.n) && Balanced(p, r, i, rest) && rest >= 0.0
    ensures Balanced(p, r, i, 0.0)
  {
    forall b | 0 <= b < p.t.n ensures Flow(p, r, i, b) <= ArcLoss(p, r, i, b) { assert Flow(p, r, i, b) <= p.Eps(); }
    SumMonotone(p.t.n, b => Flow(p, r, i, b), b => ArcLoss(p, r, i, b));
    InNonNegative(p, r, i);
  }

  /** An arc that the loop skips carries no more than may be lost. */
  lemma SkippedIsSmall(p: Pair, r: map<Key, real>, i: nat, f: real, vis: seq<bool>, j: nat)
    requires p.Ok() && CanSend(p, r, i, f, vis) && j < p.t.n && Skips(p.t, r, p.u, p.v, i, vis, j)
    ensures Flow(p, r, i, j) <= p.Eps()
  {
    assert Fits(p, Flow(p, r, i, j));
    if 0.0 < Flow(p, r, i, j) <= CUTOFF { FitsSmall(p, Flow(p, r, i, j)); }
  }

  lemma DrainedOneMore(p: Pair, r: map<Key, real>, i: int, j: nat)
    requires p.Ok() && Drained(p, r, i, j) && Flow(p, r, i, j) <= p.Eps()
    ensures Drained(p, r, i, j + 1)
  {
  }

  lemma SkipDrained(p: Pair, r: map<Key, real>, i: nat, f: real, vis: seq<bool>, j: nat)
    requires p.Ok() && CanSend(p, r, i, f, vis) && Drained(p, r, i, j)
    requires j < p.t.n && Skips(p.t, r, p.u, p.v, i, vis, j)
    ensures Drained(p, r, i, j + 1)
  {
    SkippedIsSmall(p, r, i, f, vis, j);
    DrainedOneMore(p, r, i, j);
  }

  // ------------------------------------------------------------ the search

  /** The paths carry what no longer arrives at `v` over the arcs that are left. */
  ghost predicate Delivers(p: Pair, r: map<Key, real>, s: Split)
    requires p.Ok()
  {
    TotalWeight(s.paths) == In(p, r, p.v) - In(p, s.left, p.v)
  }

  /** The split has sent what it had to, and delivers it. */
  ghost predicate SendsAll(p: Pair, r: map<Key, real>, i: int, s: Split)
    requires p.Ok()
  {
    HasSent(p, r, s.left, i) && Delivers(p, r, s)
  }

  lemma {:induction false} SplitLoses(p: Pair, r: map<Key, real>, i: nat, rest: real, vis: seq<bool>, j: nat, s: Split)
    requires p.Ok() && j <= p.t.n && CanSend(p, r, i, rest, vis) && Drained(p, r, i, j)
    requires s == SplitFrom(p.t, r, p.u, p.v, i, rest, vis, j)
    ensures SendsAll(p, r, i, s)
    decreases Unvisited(vis), p.t.n - j, 2
  {
    var next := SkipOn(p, r, i, rest, vis, j, s);
    if next == p.t.n { EndLoses(p, r, i, rest, vis, s); }
    else { TurnLoses(p, r, i, rest, vis, next, s); }
  }

  /** The next arc that is not skipped, if there is one. */
  lemma {:induction false} SkipOn(p: Pair, r: map<Key, real>, i: nat, rest: real, vis: seq<bool>, j: nat, s: Split)
    returns (next: nat)
    requires p.Ok() && j <= p.t.n && CanSend(p, r, i, rest, vis) && Drained(p, r, i, j)
    requires s == SplitFrom(p.t, r, p.u, p.v, i, rest, vis, j)
    ensures j <= next <= p.t.n && Drained(p, r, i, next) && s == SplitFrom(p.t, r, p.u, p.v, i, rest, vis, next)
    ensures next < p.t.n ==> !Skips(p.t, r, p.u, p.v, i, vis, next)
    decreases p.t.n - j
  {
    next := j;
    if j < p.t.n && Skips(p.t, r, p.u, p.v, i, vis, j) {
      SplitSkips(p.t, r, p.u, p.v, i, rest, vis, j, s);
      SkipDrained(p, r, i, rest, vis, j);
      next := SkipOn(p, r, i, rest, vis, j + 1, s);
    }
  }

  lemma EndLoses(p: Pair, r: map<Key, real>, i: nat, rest: real, vis: seq<bool>, s: Split)
    requires p.Ok() && CanSend(p, r, i, rest, vis) && Drained(p, r, i, p.t.n) && s == Split([], r)
    ensures SendsAll(p, r, i, s)
  {
    EndsBalanced(p, r, i, rest);
  }

  lemma {:induction false} TurnLoses(p: Pair, r: map<Key, real>, i: nat, rest: real, vis: seq<bool>, j: nat, s: Split)
    requires p.Ok() && j < p.t.n && CanSend(p, r, i, rest, vis) && Drained(p, r, i, j)
    requires !Skips(p.t, r, p.u, p.v, i, vis, j) && s == SplitFrom(p.t, r, p.u, p.v, i, rest, vis, j)
    ensures SendsAll(p, r, i, s)
    decreases Unvisited(vis), p.t.n - j, 1
  {
    TurnGrain(p, r, i, rest, vis, j);
    var df := Turn(r, p.u, p.v, i, rest, j);
    var first := TakeArc(p.t, r, p.u, p.v, i, j, df, vis);
    TakeLoses(p, r, i, j, df, vis, first);
    if rest - df < CUTOFF {
      SplitStops(p.t, r, p.u, p.v, i, rest, vis, j, df, first, s);
      StopsBalanced(p, r, i, j, rest, df, first.left);
    } else {
      var more := SplitFrom(p.t, first.left, p.u, p.v, i, rest - df, vis, j + 1);
      SplitGoesOn(p.t, r, p.u, p.v, i, rest, vis, j, df, first, more, s);
      RestLoses(p, r, i, rest, df, vis, j, first, more, s);
    }
  }

  /** The turns that follow one which gave `first`. */
  lemma {:induction false} RestLoses(p: Pair, r: map<Key, real>, i: nat, rest: real, df: real, vis: seq<bool>, j: nat,
                                     first: Split, more: Split, s: Split)
    requires p.Ok() && j < p.t.n && CanSend(p, r, i, rest, vis) && Drained(p, r, i, j) && p.t.IsArc(i, j)
    requires Key(p.u, p.v, i, j) in r && df == Turn(r, p.u, p.v, i, rest, j) && Fits(p, rest - df)
    requires 0.0 < rest - df && Took(p, r, first.left, i, j, df) && Delivers(p, r, first)
    requires more == SplitFrom(p.t, first.left, p.u, p.v, i, rest - df, vis, j + 1)
    requires s.paths == first.paths + more.paths && s.left == more.left
    ensures SendsAll(p, r, i, s)
    decreases Unvisited(vis), p.t.n - j, 0
  {
    StillCanSend(p, r, i, rest, df, vis, j, first.left);
    SplitLoses(p, first.left, i, rest - df, vis, j + 1, more);
    JoinLoses(p, r, i, j, df, first, more, s);
  }

  lemma JoinLoses(p: Pair, r: map<Key, real>, i: int, j: int, df: real, first: Split, more: Split, s: Split)
    requires p.Ok() && Took(p, r, first.left, i, j, df) && Delivers(p, r, first)
    requires HasSent(p, first.left, more.left, i) && Delivers(p, first.left, more)
    requires s.paths == first.paths + more.paths && s.left == more.left
    ensures SendsAll(p, r, i, s)
  {
    WeightConcat(first.paths, more.paths);
  }

  /** A turn that leaves something to send has emptied its arc. */
  lemma StillCanSend(p: Pair, r: map<Key, real>, i: nat, rest: real, df: real, vis: seq<bool>, j: nat,
                     left: map<Key, real>)
    requires p.Ok() && j < p.t.n && CanSend(p, r, i, rest, vis) && Drained(p, r, i, j) && p.t.IsArc(i, j)
    requires Key(p.u, p.v, i, j) in r && df == Turn(r, p.u, p.v, i, rest, j) && Fits(p, rest - df)
    requires 0.0 < rest - df && Took(p, r, left, i, j, df)
    ensures CanSend(p, left, i, rest - df, vis) && Drained(p, left, i, j + 1)
  {
    TookBalance(p, r, i, j, rest, df, left);
    forall b | 0 <= b < j + 1 ensures Flow(p, left, i, b) <= p.Eps() {
      assert b < j ==> Flow(p, r, i, b) <= p.Eps();
    }
  }

  lemma TurnGrain(p: Pair, r: map<Key, real>, i: nat, rest: real, vis: seq<bool>, j: nat)
    requires p.Ok() && j < p.t.n && CanSend(p, r, i, rest, vis) && !Skips(p.t, r, p.u, p.v, i, vis, j)
    ensures Key(p.u, p.v, i, j) in r && r[Key(p.u, p.v, i, j)] > CUTOFF
    ensures var df := Turn(r, p.u, p.v, i, rest, j);
            CanTake(p, r, i, j, df, vis) && Fits(p, rest - df) && df <= rest
  {
    assert p.t.IsArc(i, j);
    assert Fits(p, Flow(p, r, i, j));
    FitsMinus(p, rest, Turn(r, p.u, p.v, i, rest, j));
  }

  lemma {:induction false} TakeLoses(p: Pair, r: map<Key, real>, i: nat, j: nat, df: real, vis: seq<bool>, s: Split)
    requires p.Ok() && CanTake(p, r, i, j, df, vis) && s == TakeArc(p.t, r, p.u, p.v, i, j, df, vis)
    ensures Took(p, r, s.left, i, j, df) && Delivers(p, r, s)
    decreases Unvisited(vis), 0, 1
  {
    if j == p.v { DirectLoses(p, r, i, df, vis, s); }
    else {
      var r1 := Less(p, r, i, j, df);
      VisitOne(vis, j);
      var sub := SplitFrom(p.t, r1, p.u, p.v, j, df, vis[j := true], 0);
      TakeThrough(p.t, r, p.u, p.v, i, j, df, vis, r1, sub, s);
      ThroughLoses(p, r, i, j, df, vis, sub);
      PrefixWeight(i, sub.paths);
    }
  }

  lemma DirectLoses(p: Pair, r: map<Key, real>, i: nat, df: real, vis: seq<bool>, s: Split)
    requires p.Ok() && CanTake(p, r, i, p.v, df, vis)
    requires s.paths == [WPath([i, p.v], df)] && s.left == Less(p, r, i, p.v, df)
    ensures Took(p, r, s.left, i, p.v, df) && Delivers(p, r, s)
  {
    TookDirect(p, r, i, df, vis);
    LessFlow(p, r, i, p.v, df);
    LessSums(p, r, s.left, i, p.v, df);
    assert s.paths[1..] == [];
  }

  lemma {:induction false} ThroughLoses(p: Pair, r: map<Key, real>, i: nat, j: nat, df: real, vis: seq<bool>,
                                        sub: Split)
    requires p.Ok() && CanTake(p, r, i, j, df, vis) && j != p.v
    requires HasArcs(p.t, Less(p, r, i, j, df), p.u, p.v)
    requires sub == SplitFrom(p.t, Less(p, r, i, j, df), p.u, p.v, j, df, vis[j := true], 0)
    ensures Took(p, r, sub.left, i, j, df) && Delivers(p, r, sub)
    decreases Unvisited(vis), 0, 0
  {
    var r1 := Less(p, r, i, j, df);
    VisitOne(vis, j);
    SendOn(p, r, i, j, df, vis);
    SplitLoses(p, r1, j, df, vis[j := true], 0, sub);
    TookThrough(p, r, i, j, df, vis, sub.left);
    LessFlow(p, r, i, j, df);
    InSame(p, r, r1, p.v);
  }

  // -------------------------------------------------------------- whole pairs

  /** In a solution of the linear program the end `u` of a pair has one unit to send, `v`
      keeps one, and every other switch passes on what it receives. */
  lemma SolutionFeeds(p: Pair, x: Solution, r: map<Key, real>, w: int)
    requires p.Ok() && Feasible(p.t, x) && p.t.TwoWay() && p.t.IsPair(p.u, p.v) && 0 <= w < p.t.n
    requires HasArcs(p.t, r, p.u, p.v) && forall k :: k in r ==> r[k] == x.f(k.u, k.v, k.i, k.j)
    ensures Out(p, r, w) == In(p, r, w) + if w == p.u then 1.0 else if w == p.v then -1.0 else 0.0
  {
    assert Conserves(p.t, x, p.u, p.v, w);
    var net := b => Net(p.t, x.f, p.u, p.v, w, b);
    forall b | 0 <= b < p.t.n ensures net(b) == Flow(p, r, w, b) - Flow(p, r, b, w) { NetIsFlow(p, x, r, w, b); }
    SumDifference(p.t.n, b => Flow(p, r, w, b), b => Flow(p, r, b, w), net);
  }

  lemma NetIsFlow(p: Pair, x: Solution, r: map<Key, real>, a: int, b: int)
    requires p.Ok() && p.t.TwoWay()
    requires HasArcs(p.t, r, p.u, p.v) && forall k :: k in r ==> r[k] == x.f(k.u, k.v, k.i, k.j)
    ensures Net(p.t, x.f, p.u, p.v, a, b) == Flow(p, r, a, b) - Flow(p, r, b, a)
  {
    if p.t.IsArc(a, b) {
      assert p.t.IsArc(b, a);
      var c: nat, d: nat := a, b;
      assert Key(p.u, p.v, c, d) in r && Key(p.u, p.v, d, c) in r;
    }
  }

  lemma OneMore(m: real, c: real)
    ensures (m + 1.0) * c == m * c + c
  {
  }

  lemma {:induction false} SumConst(n: nat, c: real)
    ensures Sum(n, _ => c) == n as real * c
  {
    if n == 0 { ZeroTimes(c); }
    else {
      SumConst(n - 1, c);
      OneMore((n - 1) as real, c);
      assert (n - 1) as real + 1.0 == n as real;
    }
  }

  /** A switch has an arc to each other one at most. */
  lemma LossBelow(p: Pair, r: map<Key, real>, w: int)
    requires p.Ok() && 0 <= w < p.t.n
    ensures 0.0 <= Loss(p, r, w) <= (p.t.n - 1) as real * p.Eps()
  {
    var others := b => if b == w then 0.0 else p.Eps();
    SumConst(p.t.n, p.Eps());
    OneMore((p.t.n - 1) as real, p.Eps());
    assert (p.t.n - 1) as real + 1.0 == p.t.n as real;
    SumUpdate(p.t.n, w, _ => p.Eps(), others);
    SumMonotone(p.t.n, b => ArcLoss(p, r, w, b), others);
    SumNonNegative(p.t.n, b => ArcLoss(p, r, w, b));
  }

  /** All that leaves a switch enters another. */
  lemma OutIsIn(p: Pair, r: map<Key, real>)
    requires p.Ok()
    ensures Sum(p.t.n, w => Out(p, r, w) - In(p, r, w)) == 0.0
  {
    var n, g := p.t.n, (a, b) => Flow(p, r, a, b);
    SumSwap(n, n, g);
    forall w ensures Row(n, g, w) == Out(p, r, w) && Column(n, g, w) == In(p, r, w) {
      SumEqual(n, b => g(w, b), b => Flow(p, r, w, b));
      SumEqual(n, a => g(a, w), a => Flow(p, r, a, w));
    }
    SumDifference(n, w => Row(n, g, w), w => Column(n, g, w), w => Out(p, r, w) - In(p, r, w));
  }

  /** If terms sum to zero, one of them is not below minus all that the others may be. */
  lemma AllButOne(n: nat, v: int, h: int -> real, c: real)
    requires 0 <= v < n && Sum(n, h) == 0.0 && forall w :: 0 <= w < n && w != v ==> h(w) <= c
    ensures -h(v) <= (n - 1) as real * c
  {
    var most := w => if w == v then h(w) else c;
    SumMonotone(n, h, most);
    SumConst(n, c);
    SumUpdate(n, v, _ => c, most);
    OneMore((n - 1) as real, c);
    assert (n - 1) as real + 1.0 == n as real;
  }

  /** If every other switch is balanced, `v` lacks no more than all arcs may lose. */
  lemma LackBounded(p: Pair, r: map<Key, real>)
    requires p.Ok() && forall w :: 0 <= w < p.t.n && w != p.v ==> Balanced(p, r, w, 0.0)
    ensures In(p, r, p.v) - Out(p, r, p.v) <= (p.t.n - 1) as real * ((p.t.n - 1) as real * p.Eps())
  {
    OutIsIn(p, r);
    var h, c := w => Out(p, r, w) - In(p, r, w), (p.t.n - 1) as real * p.Eps();
    forall w | 0 <= w < p.t.n && w != p.v ensures h(w) <= c {
      assert Balanced(p, r, w, 0.0);
      LossBelow(p, r, w);
    }
    AllButOne(p.t.n, p.v, h, c);
  }

  /** A solution of the linear program for the pair, as get_paths reads it. */
  ghost predicate Solves(p: Pair, x: Solution, r: map<Key, real>) {
    && p.Ok() && Feasible(p.t, x) && p.t.TwoWay() && p.t.IsPair(p.u, p.v)
    && FlowOk(p, r) && forall k :: k in r ==> r[k] == x.f(k.u, k.v, k.i, k.j)
  }

  lemma StartBalanced(p: Pair, x: Solution, r: map<Key, real>, w: int)
    requires Solves(p, x, r) && 0 <= w < p.t.n && w != p.v
    ensures Balanced(p, r, w, if w == p.u then 1.0 else 0.0)
  {
    SolutionFeeds(p, x, r, w);
    LossBelow(p, r, w);
  }

  /** In the end every switch but `v` is balanced. */
  lemma EndBalanced(p: Pair, x: Solution, r: map<Key, real>, left: map<Key, real>, w: int)
    requires Solves(p, x, r) && HasSent(p, r, left, p.u) && 0 <= w < p.t.n && w != p.v
    ensures Balanced(p, left, w, 0.0)
  {
    if w != p.u && p.ord(w) >= p.ord(p.u) {
      StartBalanced(p, x, r, w);
      InAbove(p, r, left, p.u, w);
      StillBalanced(p, r, left, w, 0.0);
    }
  }

  lemma PairLoses(p: Pair, x: Solution, r: map<Key, real>)
    requires Solves(p, x, r) && Fits(p, 1.0)
    ensures TotalWeight(PathsOf(p.t, r, p.u, p.v)) >= 1.0 - (p.t.n - 1) as real * ((p.t.n - 1) as real * p.Eps())
  {
    var vis := seq(p.t.n, _ => false);
    var s := SplitFrom(p.t, r, p.u, p.v, p.u, 1.0, vis, 0);
    StartBalanced(p, x, r, p.u);
    forall w | 0 <= w < p.t.n && w != p.v && p.ord(w) < p.ord(p.u) ensures Balanced(p, r, w, 0.0) {
      StartBalanced(p, x, r, w);
    }
    SplitLoses(p, r, p.u, 1.0, vis, 0, s);
    forall w | 0 <= w < p.t.n && w != p.v ensures Balanced(p, s.left, w, 0.0) { EndBalanced(p, x, r, s.left, w); }
    LackBounded(p, s.left);
    SolutionFeeds(p, x, r, p.v);
    SumMonotone(p.t.n, b => Flow(p, s.left, p.v, b), b => Flow(p, r, p.v, b));
  }

  /** A solution for the pair is one whatever grain is asked for. */
  lemma AnyGrain(p: Pair, x: Solution, r: map<Key, real>, p0: Pair)
    requires Solves(p, x, r) && p0 == p.(q := 0.0)
    ensures Solves(p0, x, r) && Fits(p0, 1.0) && p0.Eps() == CUTOFF
  {
    forall a, b ensures Flow(p0, r, a, b) == Flow(p, r, a, b) { }
  }

  lemma LossAt(p: Pair, x: Solution, r: map<Key, real>, e: real)
    requires Solves(p, x, r) && e == CUTOFF
    ensures TotalWeight(PathsOf(p.t, r, p.u, p.v)) >= 1.0 - (p.t.n - 1) as real * ((p.t.n - 1) as real * e)
  {
    var p0 := p.(q := 0.0);
    AnyGrain(p, x, r, p0);
    PairLoses(p0, x, r);
  }

  /** The loss of any solution whose flow for the pair has no cycle: at most the cutoff for
      each arc between two of the switches that do not start at `v`. */
  lemma LossBounded(p: Pair, x: Solution, r: map<Key, real>)
    requires Solves(p, x, r)
    ensures TotalWeight(PathsOf(p.t, r, p.u, p.v)) >= 1.0 - (p.t.n - 1) as real * ((p.t.n - 1) as real * 0.00001)
  {
    LossAt(p, x, r, 0.00001);
  }

  /** If besides the flow is a multiple of some grain above the cutoff, as one is, its paths
      carry the whole unit. */
  lemma DecompositionExact(p: Pair, x: Solution, r: map<Key, real>)
    requires Solves(p, x, r) && p.q > 0.00001 && Multiple(1.0, p.q)
    ensures TotalWeight(PathsOf(p.t, r, p.u, p.v)) == 1.0
  {
    PairLoses(p, x, r);
    PathsDecompose(p.t, r, p.u, p.v);
  }
}
