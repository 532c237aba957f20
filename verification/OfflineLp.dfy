/** The linear program of the offline routing: what any solution of its constraints
    guarantees, whatever the solver. */
module OfflineLp {
  import opened OfflineSums

  /** The input: switches below `n`, the bandwidth of the hosts at each switch and the
      capacity between each two of them. */
  datatype Topology = Topology(n: nat, bwHost: seq<real>, capacity: seq<seq<real>>) {

    predicate WellFormed() {
      && |bwHost| == n && |capacity| == n
      && (forall u :: 0 <= u < n ==> bwHost[u] >= 0.0)
      && (forall i :: 0 <= i < n ==> |capacity[i]| == n)
      && (forall i, j :: 0 <= i < n && 0 <= j < n ==> capacity[i][j] >= 0.0)
    }

    predicate IsHost(u: int)
      requires WellFormed()
    {
      0 <= u < n && bwHost[u] != 0.0
    }

    /** A pair of switches that the program makes flow variables for. */
    predicate IsPair(u: int, v: int)
      requires WellFormed()
    {
      IsHost(u) && IsHost(v) && u != v
    }

    predicate IsArc(i: int, j: int)
      requires WellFormed()
    {
      0 <= i < n && 0 <= j < n && i != j && capacity[i][j] != 0.0
    }

    /** Building the conservation constraint reads the variable of the reverse arc. */
    ghost predicate TwoWay()
      requires WellFormed()
    {
      forall i, j :: IsArc(i, j) ==> IsArc(j, i)
    }
  }

  datatype Solution = Solution(f: (int, int, int, int) -> real,
                               lam: (int, int, int) -> real,
                               eta: (int, int, int) -> real,
                               mlu: real)

  /** Net flow of pair (u, v) over the arc from `i` to `j`. */
  function Net(t: Topology, f: (int, int, int, int) -> real, u: int, v: int, i: int, j: int): real
    requires t.WellFormed()
  {
    if t.IsArc(i, j) then f(u, v, i, j) - f(u, v, j, i) else 0.0
  }

  ghost predicate NonNegative(t: Topology, x: Solution)
    requires t.WellFormed()
  {
    && (forall u, v, i, j :: t.IsPair(u, v) && t.IsArc(i, j) ==> x.f(u, v, i, j) >= 0.0)
    && (forall u, i, j :: t.IsHost(u) && t.IsArc(i, j) ==> x.lam(u, i, j) >= 0.0 && x.eta(u, i, j) >= 0.0)
    && x.mlu >= 0.0
  }

  ghost predicate Conserves(t: Topology, x: Solution, u: int, v: int, i: int)
    requires t.WellFormed()
  {
    Sum(t.n, j => Net(t, x.f, u, v, i, j)) - (if i == u then 1.0 else if i == v then -1.0 else 0.0) == 0.0
  }

  function HostTerm(t: Topology, x: Solution, i: int, j: int, u: int): real
    requires t.WellFormed()
  {
    if t.IsHost(u) then t.bwHost[u] * (x.lam(u, i, j) + x.eta(u, i, j)) else 0.0
  }

  /** The constraints that get_routing adds to the model. */
  ghost predicate Feasible(t: Topology, x: Solution)
    requires t.WellFormed()
  {
    && NonNegative(t, x)
    && (forall u, v, i, j :: t.IsPair(u, v) && t.IsArc(i, j) ==> x.lam(u, i, j) + x.eta(v, i, j) >= x.f(u, v, i, j))
    && (forall u, v, i :: t.IsPair(u, v) && 0 <= i < t.n ==> Conserves(t, x, u, v, i))
    && (forall i, j :: t.IsArc(i, j) ==> x.mlu >= Sum(t.n, u => HostTerm(t, x, i, j, u)) / t.capacity[i][j])
  }

  // ---------------------------------------------------------------- traffic

  /** Demand between a pair; there is none between switches that are not a pair. */
  function Demand(t: Topology, tm: (int, int) -> real, u: int, v: int): real
    requires t.WellFormed()
  {
    if t.IsPair(u, v) then tm(u, v) else 0.0
  }

  /** Traffic within the bandwidth of the hosts at every switch, both ways. */
  ghost predicate Admissible(t: Topology, tm: (int, int) -> real)
    requires t.WellFormed()
  {
    && (forall u, v :: t.IsPair(u, v) ==> tm(u, v) >= 0.0)
    && (forall u :: t.IsHost(u) ==> Sum(t.n, v => Demand(t, tm, u, v)) <= t.bwHost[u])
    && (forall v :: t.IsHost(v) ==> Sum(t.n, u => Demand(t, tm, u, v)) <= t.bwHost[v])
  }

  /** What arc (i, j) carries when each demand is spread as the shares `w` say. */
  ghost function Load(t: Topology, tm: (int, int) -> real, w: (int, int, int, int) -> real, i: int, j: int): real
    requires t.WellFormed()
  {
    Sum2(t.n, t.n, (u, v) => Demand(t, tm, u, v) * w(u, v, i, j))
  }

  lemma WeightedMonotone(t: Topology, tm: (int, int) -> real, u: int, v: int, a: real, b: real)
    requires t.WellFormed() && Admissible(t, tm) && (t.IsPair(u, v) ==> a <= b)
    ensures Demand(t, tm, u, v) * a <= Demand(t, tm, u, v) * b
  {
    if t.IsPair(u, v) { MulMonotone(tm(u, v), a, b); }
    else { ZeroTimes(a); ZeroTimes(b); }
  }

  /** Smaller shares load no arc more. */
  lemma LoadMonotone(t: Topology, tm: (int, int) -> real, w: (int, int, int, int) -> real,
                     w': (int, int, int, int) -> real, i: int, j: int)
    requires t.WellFormed() && Admissible(t, tm)
    requires forall u, v :: t.IsPair(u, v) ==> w(u, v, i, j) <= w'(u, v, i, j)
    ensures Load(t, tm, w, i, j) <= Load(t, tm, w', i, j)
  {
    var g := (u, v) => Demand(t, tm, u, v) * w(u, v, i, j);
    var g' := (u, v) => Demand(t, tm, u, v) * w'(u, v, i, j);
    forall u, v | 0 <= u < t.n && 0 <= v < t.n ensures g(u, v) <= g'(u, v) {
      WeightedMonotone(t, tm, u, v, w(u, v, i, j), w'(u, v, i, j));
    }
    Sum2Monotone(t.n, t.n, g, g');
  }

  // ------------------------------------------------------------ certificate

  function HostPart(t: Topology, c: int -> real, u: int): real
    requires t.WellFormed()
  {
    if t.IsHost(u) then t.bwHost[u] * c(u) else 0.0
  }

  lemma OneRow(t: Topology, tm: (int, int) -> real, c: int -> real, g: (int, int) -> real, u: nat)
    requires t.WellFormed() && Admissible(t, tm) && u < t.n && (t.IsHost(u) ==> c(u) >= 0.0)
    requires forall v :: g(u, v) == Demand(t, tm, u, v) * c(u)
    ensures Row(t.n, g, u) <= HostPart(t, c, u)
  {
    var row := v => Demand(t, tm, u, v);
    SumScale(t.n, c(u), row);
    SumEqual(t.n, v => g(u, v), v => c(u) * row(v));
    if t.IsHost(u) { MulMonotone(c(u), Sum(t.n, row), t.bwHost[u]); }
    else { SumZero(t.n); SumEqual(t.n, row, _ => 0.0); }
  }

  /** Demands weighted by a price on their source. */
  lemma RowBound(t: Topology, tm: (int, int) -> real, c: int -> real)
    requires t.WellFormed() && Admissible(t, tm) && forall u :: t.IsHost(u) ==> c(u) >= 0.0
    ensures Sum2(t.n, t.n, (u, v) => Demand(t, tm, u, v) * c(u)) <= Sum(t.n, u => HostPart(t, c, u))
  {
    var g := (u, v) => Demand(t, tm, u, v) * c(u);
    forall u | 0 <= u < t.n ensures Row(t.n, g, u) <= HostPart(t, c, u) { OneRow(t, tm, c, g, u); }
    SumMonotone(t.n, u => Row(t.n, g, u), u => HostPart(t, c, u));
  }

  lemma OneColumn(t: Topology, tm: (int, int) -> real, c: int -> real, g: (int, int) -> real, v: nat)
    requires t.WellFormed() && Admissible(t, tm) && v < t.n && (t.IsHost(v) ==> c(v) >= 0.0)
    requires forall u :: g(u, v) == Demand(t, tm, u, v) * c(v)
    ensures Column(t.n, g, v) <= HostPart(t, c, v)
  {
    var col := u => Demand(t, tm, u, v);
    SumScale(t.n, c(v), col);
    SumEqual(t.n, u => g(u, v), u => c(v) * col(u));
    if t.IsHost(v) { MulMonotone(c(v), Sum(t.n, col), t.bwHost[v]); }
    else { SumZero(t.n); SumEqual(t.n, col, _ => 0.0); }
  }

  /** Demands weighted by a price on their destination. */
  lemma ColumnBound(t: Topology, tm: (int, int) -> real, c: int -> real)
    requires t.WellFormed() && Admissible(t, tm) && forall v :: t.IsHost(v) ==> c(v) >= 0.0
    ensures Sum2(t.n, t.n, (u, v) => Demand(t, tm, u, v) * c(v)) <= Sum(t.n, v => HostPart(t, c, v))
  {
    var g := (u, v) => Demand(t, tm, u, v) * c(v);
    SumSwap(t.n, t.n, g);
    forall v | 0 <= v < t.n ensures Column(t.n, g, v) <= HostPart(t, c, v) { OneColumn(t, tm, c, g, v); }
    SumMonotone(t.n, v => Column(t.n, g, v), v => HostPart(t, c, v));
  }

  /** The load of the flow is at most what the two prices charge for the demands. */
  lemma PricedLoad(t: Topology, x: Solution, tm: (int, int) -> real, i: int, j: int, lam: int -> real, eta: int -> real)
    requires t.WellFormed() && Feasible(t, x) && Admissible(t, tm) && t.IsArc(i, j)
    requires forall u :: lam(u) == x.lam(u, i, j) && eta(u) == x.eta(u, i, j)
    ensures Load(t, tm, x.f, i, j) <= Sum2(t.n, t.n, (u, v) => Demand(t, tm, u, v) * lam(u))
                                      + Sum2(t.n, t.n, (u, v) => Demand(t, tm, u, v) * eta(v))
  {
    var gf := (u, v) => Demand(t, tm, u, v) * x.f(u, v, i, j);
    var gl := (u, v) => Demand(t, tm, u, v) * lam(u);
    var ge := (u, v) => Demand(t, tm, u, v) * eta(v);
    forall u, v | 0 <= u < t.n && 0 <= v < t.n ensures gf(u, v) <= gl(u, v) + ge(u, v) {
      WeightedMonotone(t, tm, u, v, x.f(u, v, i, j), lam(u) + eta(v));
    }
    Sum2Monotone(t.n, t.n, gf, (u, v) => gl(u, v) + ge(u, v));
    Sum2Plus(t.n, t.n, gl, ge);
  }

  lemma HostTerms(t: Topology, x: Solution, i: int, j: int, lam: int -> real, eta: int -> real)
    requires t.WellFormed() && forall u :: lam(u) == x.lam(u, i, j) && eta(u) == x.eta(u, i, j)
    ensures Sum(t.n, u => HostTerm(t, x, i, j, u))
         == Sum(t.n, u => HostPart(t, lam, u)) + Sum(t.n, u => HostPart(t, eta, u))
  {
    var pl, pe := u => HostPart(t, lam, u), u => HostPart(t, eta, u);
    SumPlus(t.n, pl, pe);
    forall u | 0 <= u < t.n ensures HostTerm(t, x, i, j, u) == pl(u) + pe(u) { }
    SumEqual(t.n, u => HostTerm(t, x, i, j, u), u => pl(u) + pe(u));
  }

  lemma PricesCover(t: Topology, x: Solution, tm: (int, int) -> real, i: int, j: int)
    requires t.WellFormed() && Feasible(t, x) && Admissible(t, tm) && t.IsArc(i, j)
    ensures Load(t, tm, x.f, i, j) <= Sum(t.n, u => HostTerm(t, x, i, j, u))
  {
    var lam, eta := u => x.lam(u, i, j), v => x.eta(v, i, j);
    PricedLoad(t, x, tm, i, j, lam, eta);
    RowBound(t, tm, lam);
    ColumnBound(t, tm, eta);
    HostTerms(t, x, i, j, lam, eta);
  }

  /** The certificate: in any solution of the constraints `mlu` bounds the utilisation of
      every link, for every traffic matrix within the host bandwidths. */
  lemma Certificate(t: Topology, x: Solution, tm: (int, int) -> real, i: int, j: int)
    requires t.WellFormed() && Feasible(t, x) && Admissible(t, tm) && t.IsArc(i, j)
    ensures Load(t, tm, x.f, i, j) <= x.mlu * t.capacity[i][j]
  {
    PricesCover(t, x, tm, i, j);
    var c := t.capacity[i][j];
    var total := Sum(t.n, u => HostTerm(t, x, i, j, u));
    MulMonotone(c, total / c, x.mlu);
  }

  // -------------------------------------------------------------------- cuts

  /** Net flow of a pair from inside the set `side` to outside it. */
  ghost function NetOut(t: Topology, f: (int, int, int, int) -> real, u: int, v: int, side: int -> bool): real
    requires t.WellFormed()
  {
    Sum2(t.n, t.n, (i, j) => if side(i) && !side(j) then Net(t, f, u, v, i, j) else 0.0)
  }

  lemma NetAntisymmetric(t: Topology, f: (int, int, int, int) -> real, u: int, v: int, i: int, j: int)
    requires t.WellFormed() && t.TwoWay()
    ensures Net(t, f, u, v, j, i) == -1.0 * Net(t, f, u, v, i, j)
  {
    assert t.IsArc(i, j) ==> t.IsArc(j, i);
    assert t.IsArc(j, i) ==> t.IsArc(i, j);
  }

  /** Net flow within a set cancels. */
  lemma InsideCancels(t: Topology, f: (int, int, int, int) -> real, u: int, v: int, side: int -> bool)
    requires t.WellFormed() && t.TwoWay()
    ensures Sum2(t.n, t.n, (i, j) => if side(i) && side(j) then Net(t, f, u, v, i, j) else 0.0) == 0.0
  {
    var g := (i, j) => if side(i) && side(j) then Net(t, f, u, v, i, j) else 0.0;
    SumSwap(t.n, t.n, g);
    forall i | 0 <= i < t.n ensures Column(t.n, g, i) == -1.0 * Row(t.n, g, i) {
      SumScale(t.n, -1.0, j => g(i, j));
      forall j | 0 <= j < t.n ensures g(j, i) == -1.0 * g(i, j) {
        NetAntisymmetric(t, f, u, v, i, j);
      }
      SumEqual(t.n, j => g(j, i), j => -1.0 * (j => g(i, j))(j));
    }
    SumScale(t.n, -1.0, i => Row(t.n, g, i));
    SumEqual(t.n, i => Column(t.n, g, i), i => -1.0 * (i => Row(t.n, g, i))(i));
  }

  function Source(u: int, v: int, i: int): real {
    if i == u then 1.0 else if i == v then -1.0 else 0.0
  }

  /** Every cut between the ends of a pair is crossed by a net flow of exactly one. */
  lemma CutFlow(t: Topology, x: Solution, u: int, v: int, side: int -> bool)
    requires t.WellFormed() && t.TwoWay() && Feasible(t, x) && t.IsPair(u, v) && side(u) && !side(v)
    ensures NetOut(t, x.f, u, v, side) == 1.0
  {
    var inside := (i, j) => if side(i) && side(j) then Net(t, x.f, u, v, i, j) else 0.0;
    var out := (i, j) => if side(i) && !side(j) then Net(t, x.f, u, v, i, j) else 0.0;
    var all := (i, j) => if side(i) then Net(t, x.f, u, v, i, j) else 0.0;
    InsideCancels(t, x.f, u, v, side);
    Sum2Plus(t.n, t.n, inside, out);
    Sum2Equal(t.n, t.n, all, (i, j) => inside(i, j) + out(i, j));
    var unit := i => if side(i) then Source(u, v, i) else 0.0;
    forall i | 0 <= i < t.n ensures Row(t.n, all, i) == unit(i) {
      if side(i) {
        assert Conserves(t, x, u, v, i);
        SumEqual(t.n, j => all(i, j), j => Net(t, x.f, u, v, i, j));
      } else {
        SumZero(t.n);
        SumEqual(t.n, j => all(i, j), _ => 0.0);
      }
    }
    SumEqual(t.n, i => Row(t.n, all, i), unit);
    forall i | 0 <= i < t.n && i != u ensures unit(i) == 0.0 {
      if side(i) { assert i != v && Source(u, v, i) == 0.0; }
    }
    SumSingle(t.n, u, unit);
  }
}
