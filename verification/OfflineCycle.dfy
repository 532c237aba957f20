/** Why the flow of a pair must have no cycle: an optimal solution of the linear program with
    a cycle for which get_paths finds no path at all.

    Hosts at switches 0 and 3, links 0 - 1, 1 - 2 and 1 - 3.  The unit from 0 to 3 goes by 1, and
    a second unit goes round between 1 and 2.  The search follows that one first, comes to an
    end at 2 and takes it for sent. */
module OfflineCycle {
  import opened OfflineSums
  import opened OfflineLp
  import opened OfflinePaths

  const STAR := Topology(4, [1.0, 0.0, 0.0, 1.0],
                         [[0.0, 1.0, 0.0, 0.0], [1.0, 0.0, 1.0, 1.0], [0.0, 1.0, 0.0, 0.0], [0.0, 1.0, 0.0, 0.0]])

  function Share(u: int, v: int, i: int, j: int): real {
    if u == 0 && v == 3 then (if (i, j) in {(0, 1), (1, 2), (2, 1), (1, 3)} then 1.0 else 0.0)
    else if u == 3 && v == 0 then (if (i, j) in {(3, 1), (1, 0)} then 1.0 else 0.0)
    else 0.0
  }

  /** Prices that cover these shares: each source pays for its own. */
  const ROUND := Solution((u, v, i, j) => Share(u, v, i, j), (u, i, j) => Share(u, 3 - u, i, j), (v, i, j) => 0.0, 1.0)

  lemma FourTerms(f: int -> real)
    ensures Sum(4, f) == f(0) + f(1) + f(2) + f(3)
  {
    assert Sum(2, f) == f(0) + f(1);
  }

  lemma StarLinks()
    ensures STAR.WellFormed() && STAR.TwoWay() && STAR.IsPair(0, 3)
    ensures forall u, v :: STAR.IsPair(u, v) <==> (u == 0 && v == 3) || (u == 3 && v == 0)
    ensures forall i, j :: STAR.IsArc(i, j) <==> (i == 1 && j in {0, 2, 3}) || (j == 1 && i in {0, 2, 3})
    ensures forall i, j :: STAR.IsArc(i, j) ==> STAR.capacity[i][j] == 1.0
  {
  }

  lemma RoundConserves(u: int, v: int, i: int)
    requires STAR.WellFormed() && STAR.IsPair(u, v) && 0 <= i < 4
    ensures Conserves(STAR, ROUND, u, v, i)
  {
    StarLinks();
    FourTerms(j => Net(STAR, ROUND.f, u, v, i, j));
  }

  lemma RoundFits(i: int, j: int)
    requires STAR.WellFormed() && STAR.IsArc(i, j)
    ensures ROUND.mlu >= Sum(STAR.n, u => HostTerm(STAR, ROUND, i, j, u)) / STAR.capacity[i][j]
  {
    StarLinks();
    FourTerms(u => HostTerm(STAR, ROUND, i, j, u));
  }

  lemma RoundPriced()
    ensures STAR.WellFormed() && NonNegative(STAR, ROUND)
    ensures forall u, v, i, j :: STAR.IsPair(u, v) && STAR.IsArc(i, j) ==>
              ROUND.lam(u, i, j) + ROUND.eta(v, i, j) >= ROUND.f(u, v, i, j)
  {
    StarLinks();
    forall u, v, i, j ensures Share(u, v, i, j) >= 0.0 { }
    forall u, v, i, j | STAR.IsPair(u, v) && STAR.IsArc(i, j)
      ensures ROUND.lam(u, i, j) + ROUND.eta(v, i, j) >= ROUND.f(u, v, i, j)
    {
      assert v == 3 - u;
    }
  }

  lemma RoundFeasible()
    ensures STAR.WellFormed() && Feasible(STAR, ROUND)
  {
    RoundPriced();
    forall u, v, i | STAR.IsPair(u, v) && 0 <= i < STAR.n ensures Conserves(STAR, ROUND, u, v, i) {
      RoundConserves(u, v, i);
    }
    forall i, j | STAR.IsArc(i, j)
      ensures ROUND.mlu >= Sum(STAR.n, u => HostTerm(STAR, ROUND, i, j, u)) / STAR.capacity[i][j]
    {
      RoundFits(i, j);
    }
  }

  /** The link from 0 to 1 carries the unit in every solution. */
  lemma UnitLeaves(y: Solution)
    requires STAR.WellFormed() && Feasible(STAR, y)
    ensures y.f(0, 3, 0, 1) >= 1.0
  {
    StarLinks();
    assert Conserves(STAR, y, 0, 3, 0) && STAR.IsArc(1, 0);
    FourTerms(j => Net(STAR, y.f, 0, 3, 0, j));
  }

  lemma PriceCharged(y: Solution)
    requires STAR.WellFormed() && NonNegative(STAR, y)
    ensures Sum(STAR.n, u => HostTerm(STAR, y, 0, 1, u)) >= y.lam(0, 0, 1) + y.eta(3, 0, 1)
  {
    FourTerms(u => HostTerm(STAR, y, 0, 1, u));
    assert STAR.IsHost(0) && STAR.IsHost(3) && STAR.IsArc(0, 1);
  }

  lemma NoneBetter(y: Solution)
    requires STAR.WellFormed() && Feasible(STAR, y)
    ensures y.mlu >= 1.0
  {
    UnitLeaves(y);
    PriceCharged(y);
    assert STAR.IsPair(0, 3) && STAR.IsArc(0, 1);
    assert y.lam(0, 0, 1) + y.eta(3, 0, 1) >= 1.0;
    assert y.mlu >= Sum(STAR.n, u => HostTerm(STAR, y, 0, 1, u)) / STAR.capacity[0][1];
  }

  /** The flow of the pair, but for what was taken from the arcs in `taken`. */
  ghost predicate Reads(r: map<Key, real>, taken: set<(int, int)>) {
    forall i: nat, j: nat :: STAR.WellFormed() && STAR.IsArc(i, j) ==>
      Key(0, 3, i, j) in r && r[Key(0, 3, i, j)] == if (i, j) in taken then 0.0 else Share(0, 3, i, j)
  }

  /** From switch 2, with 1 and 2 marked, there is no way on. */
  lemma NothingFrom2(r: map<Key, real>, vis: seq<bool>)
    requires STAR.WellFormed() && HasArcs(STAR, r, 0, 3) && vis == [false, true, true, false]
    ensures SplitFrom(STAR, r, 0, 3, 2, 1.0, vis, 0) == Split([], r)
  {
    StarLinks();
    var s := SplitFrom(STAR, r, 0, 3, 2, 1.0, vis, 0);
    SplitSkips(STAR, r, 0, 3, 2, 1.0, vis, 0, s);
    SplitSkips(STAR, r, 0, 3, 2, 1.0, vis, 1, s);
    SplitSkips(STAR, r, 0, 3, 2, 1.0, vis, 2, s);
    SplitSkips(STAR, r, 0, 3, 2, 1.0, vis, 3, s);
  }

  /** From switch 1 the search goes to 2. */
  lemma NothingFrom1(r: map<Key, real>, vis: seq<bool>)
    requires STAR.WellFormed() && HasArcs(STAR, r, 0, 3) && Reads(r, {(0, 1)}) && vis == [false, true, false, false]
    ensures SplitFrom(STAR, r, 0, 3, 1, 1.0, vis, 0).paths == []
  {
    StarLinks();
    var s := SplitFrom(STAR, r, 0, 3, 1, 1.0, vis, 0);
    SplitSkips(STAR, r, 0, 3, 1, 1.0, vis, 0, s);
    SplitSkips(STAR, r, 0, 3, 1, 1.0, vis, 1, s);
    var first := TakeArc(STAR, r, 0, 3, 1, 2, 1.0, vis);
    SplitStops(STAR, r, 0, 3, 1, 1.0, vis, 2, 1.0, first, s);
    var r1 := r[Key(0, 3, 1, 2) := r[Key(0, 3, 1, 2)] - 1.0];
    NothingFrom2(r1, vis[2 := true]);
    TakeThrough(STAR, r, 0, 3, 1, 2, 1.0, vis, r1, Split([], r1), first);
  }

  lemma NothingFrom0(r: map<Key, real>, vis: seq<bool>)
    requires STAR.WellFormed() && HasArcs(STAR, r, 0, 3) && Reads(r, {}) && vis == [false, false, false, false]
    ensures SplitFrom(STAR, r, 0, 3, 0, 1.0, vis, 0).paths == []
  {
    StarLinks();
    var s := SplitFrom(STAR, r, 0, 3, 0, 1.0, vis, 0);
    SplitSkips(STAR, r, 0, 3, 0, 1.0, vis, 0, s);
    var first := TakeArc(STAR, r, 0, 3, 0, 1, 1.0, vis);
    SplitStops(STAR, r, 0, 3, 0, 1.0, vis, 1, 1.0, first, s);
    var r1 := r[Key(0, 3, 0, 1) := r[Key(0, 3, 0, 1)] - 1.0];
    NothingFrom1(r1, vis[1 := true]);
    TakeThrough(STAR, r, 0, 3, 0, 1, 1.0, vis, r1, SplitFrom(STAR, r1, 0, 3, 1, 1.0, vis[1 := true], 0), first);
  }

  /** With a cycle the whole unit can be lost. */
  lemma CycleLosesAll(r: map<Key, real>)
    requires STAR.WellFormed() && HasArcs(STAR, r, 0, 3) && forall k :: k in r ==> r[k] == ROUND.f(k.u, k.v, k.i, k.j)
    ensures Feasible(STAR, ROUND) && STAR.TwoWay() && STAR.IsPair(0, 3)
    ensures forall y: Solution :: Feasible(STAR, y) ==> ROUND.mlu <= y.mlu
    ensures PathsOf(STAR, r, 0, 3) == []
  {
    StarLinks();
    RoundFeasible();
    RoundReads(r);
    forall y: Solution | Feasible(STAR, y) ensures ROUND.mlu <= y.mlu { NoneBetter(y); }
    assert seq(4, _ => false) == [false, false, false, false];
    NothingFrom0(r, seq(STAR.n, _ => false));
  }

  lemma RoundReads(r: map<Key, real>)
    requires STAR.WellFormed() && HasArcs(STAR, r, 0, 3) && forall k :: k in r ==> r[k] == ROUND.f(k.u, k.v, k.i, k.j)
    ensures Reads(r, {})
  {
  }
}
