/** The online route search of the synchronisation server: it grows a visited set by the
    least loaded link that leaves it until the destination switch is in, then walks the
    predecessors back.  Loads are reals; the running best is truncated to an integer as
    the code stores it in a `long long`. */
module RouteSearch {
  import opened Visits

  type Ip = string

  /** A link as seen from one end, with the flows that are routed over it. */
  datatype Link = Link(port1: string, port2: string, flows: seq<(Ip, Ip)>)

  /** The bound that no usable link reaches. */
  const LIMIT := 4000000000000

  function Trunc(r: real): int {
    if r >= 0.0 then r.Floor else -(-r).Floor
  }

  /** The integer next to `r` on the side of zero. */
  lemma TruncTowardsZero(r: real)
    ensures r >= 0.0 ==> r - 1.0 < Trunc(r) as real <= r
    ensures r <= 0.0 ==> r <= Trunc(r) as real < r + 1.0
  {
  }

  lemma TruncBelow(r: real, u: int)
    ensures r < u as real ==> Trunc(r) <= u && (u == LIMIT ==> Trunc(r) < u)
    ensures r >= u as real ==> Trunc(r) >= u
  {
  }

  /** Switches are numbered below `n`; `links[i][j]` are the links from `i` to `j`. */
  datatype Net = Net(n: nat, links: seq<seq<seq<Link>>>, txRates: map<(Ip, Ip), real>, sip: Ip, dip: Ip) {

    predicate WellFormed() {
      |links| == n && forall i :: 0 <= i < n ==> |links[i]| == n
    }

    predicate IsLink(i: int, j: int, k: int) {
      WellFormed() && 0 <= i < n && 0 <= j < n && 0 <= k < |links[i][j]|
    }

    /** An absent entry of the rate table reads as zero. */
    function TxRate(flow: (Ip, Ip)): real {
      if flow in txRates then txRates[flow] else 0.0
    }

    /** The load of a link, the routed flow itself not counted. */
    function Load(flows: seq<(Ip, Ip)>): real {
      if flows == [] then 0.0
      else
        var last := flows[|flows| - 1];
        Load(flows[..|flows| - 1]) + if last == (sip, dip) then 0.0 else TxRate(last)
    }

    function Rate(i: int, j: int, k: int): real
      requires IsLink(i, j, k)
    {
      Load(links[i][j][k].flows)
    }

    predicate Usable(i: int, j: int, k: int) {
      IsLink(i, j, k) && Rate(i, j, k) < LIMIT as real
    }

    function Cost(i: int, j: int, k: int): int
      requires IsLink(i, j, k)
    {
      Trunc(Rate(i, j, k))
    }
  }

  // ----------------------------------------------------------------- loads

  /** What a load is, without saying how to sum it: a link without flows has none, and a flow
      put anywhere among others adds its rate in the table, nothing if it has no entry or is
      the one that is routed. */
  ghost predicate IsLoad(net: Net, load: seq<(Ip, Ip)> -> real) {
    && load([]) == 0.0
    && (forall a, f, b :: f != (net.sip, net.dip) && f in net.txRates ==>
                            load(a + [f] + b) == load(a + b) + net.txRates[f])
    && (forall a, f, b :: f == (net.sip, net.dip) || f !in net.txRates ==> load(a + [f] + b) == load(a + b))
  }

  lemma {:induction false} LoadJoin(net: Net, a: seq<(Ip, Ip)>, b: seq<(Ip, Ip)>)
    ensures net.Load(a + b) == net.Load(a) + net.Load(b)
  {
    if b == [] { assert a + b == a; }
    else {
      var n := |b| - 1;
      LoadJoin(net, a, b[..n]);
      assert (a + b)[..|a + b| - 1] == a + b[..n];
    }
  }

  lemma LoadOne(net: Net, f: (Ip, Ip))
    ensures net.Load([f]) == if f == (net.sip, net.dip) || f !in net.txRates then 0.0 else net.txRates[f]
  {
    assert [f][..0] == [];
  }

  lemma LoadPut(net: Net, a: seq<(Ip, Ip)>, f: (Ip, Ip), b: seq<(Ip, Ip)>)
    ensures net.Load(a + [f] + b) == net.Load(a + b) + net.Load([f])
  {
    LoadJoin(net, a + [f], b);
    LoadJoin(net, a, [f]);
    LoadJoin(net, a, b);
  }

  /** The sum over the list is a load. */
  lemma LoadIsLoad(net: Net)
    ensures IsLoad(net, flows => net.Load(flows))
  {
    forall a, f, b
      ensures net.Load(a + [f] + b) == net.Load(a + b)
                                       + if f == (net.sip, net.dip) || f !in net.txRates then 0.0 else net.txRates[f]
    {
      LoadPut(net, a, f, b);
      LoadOne(net, f);
    }
  }

  /** And the only one. */
  lemma {:induction false} OneLoad(net: Net, load: seq<(Ip, Ip)> -> real, flows: seq<(Ip, Ip)>)
    requires IsLoad(net, load)
    ensures load(flows) == net.Load(flows)
  {
    if flows != [] {
      var n := |flows| - 1;
      OneLoad(net, load, flows[..n]);
      assert flows == flows[..n] + [flows[n]] + [] && flows[..n] + [] == flows[..n];
    }
  }

  lemma PickOut(flows: seq<(Ip, Ip)>, f: (Ip, Ip)) returns (a: seq<(Ip, Ip)>, b: seq<(Ip, Ip)>)
    requires f in multiset(flows)
    ensures flows == a + [f] + b && multiset(a + b) == multiset(flows) - multiset{f}
  {
    var i :| 0 <= i < |flows| && flows[i] == f;
    a, b := flows[..i], flows[i + 1..];
    assert flows == a + [f] + b;
    assert multiset(flows) == multiset(a) + multiset{f} + multiset(b);
    assert multiset(a + b) == multiset(a) + multiset(b);
  }

  /** So it does not depend on the order of the list. */
  lemma {:induction false} LoadAnyOrder(net: Net, flows: seq<(Ip, Ip)>, other: seq<(Ip, Ip)>)
    requires multiset(flows) == multiset(other)
    ensures net.Load(flows) == net.Load(other)
    decreases |flows|
  {
    if flows == [] { assert |multiset(other)| == |multiset(flows)|; }
    else {
      var n := |flows| - 1;
      var f := flows[n];
      assert flows == flows[..n] + [f];
      assert multiset(flows) == multiset(flows[..n]) + multiset{f};
      var a, b := PickOut(other, f);
      LoadAnyOrder(net, flows[..n], a + b);
      LoadPut(net, a, f, b);
      LoadJoin(net, flows[..n], [f]);
    }
  }

  /** get_interface_rate */
  method InterfaceRate(net: Net, i: nat, j: nat, k: nat) returns (res: real)
    requires net.IsLink(i, j, k)
    ensures res == net.Rate(i, j, k)
    ensures forall load :: IsLoad(net, load) ==> res == load(net.links[i][j][k].flows)
  {
    LinkRate(net, i, j, k);
    res := 0.0;
    var flows := net.links[i][j][k].flows;
    for x := 0 to |flows|
      invariant res == net.Load(flows[..x])
    {
      assert flows[..x + 1][..x] == flows[..x];
      if flows[x] == (net.sip, net.dip) { continue; }
      res := res + net.TxRate(flows[x]);
    }
    assert flows[..|flows|] == flows;
  }

  lemma LinkRate(net: Net, i: nat, j: nat, k: nat)
    requires net.IsLink(i, j, k)
    ensures forall load :: IsLoad(net, load) ==> net.Rate(i, j, k) == load(net.links[i][j][k].flows)
  {
    forall load | IsLoad(net, load) ensures net.Rate(i, j, k) == load(net.links[i][j][k].flows) {
      OneLoad(net, load, net.links[i][j][k].flows);
    }
  }

  // ----------------------------------------------------------------- paths

  datatype Hop = Hop(src: nat, dst: nat, idx: nat)

  /** A chain of links from `s` to `d`. */
  predicate IsPath(net: Net, s: nat, d: nat, p: seq<Hop>)
    decreases |p|
  {
    if p == [] then s == d
    else p[0].src == s && net.IsLink(s, p[0].dst, p[0].idx) && IsPath(net, p[0].dst, d, p[1..])
  }

  predicate AllUsable(net: Net, p: seq<Hop>) {
    forall h :: 0 <= h < |p| ==> net.Usable(p[h].src, p[h].dst, p[h].idx)
  }

  predicate AllLinks(net: Net, p: seq<Hop>) {
    forall h :: 0 <= h < |p| ==> net.IsLink(p[h].src, p[h].dst, p[h].idx)
  }

  lemma {:induction false} PathLinks(net: Net, s: nat, d: nat, p: seq<Hop>)
    requires IsPath(net, s, d, p)
    ensures AllLinks(net, p)
    decreases |p|
  {
    if p != [] { PathLinks(net, p[0].dst, d, p[1..]); }
  }

  function HopCost(net: Net, h: Hop): int
    requires net.IsLink(h.src, h.dst, h.idx)
  {
    net.Cost(h.src, h.dst, h.idx)
  }

  /** The integer part of the heaviest load on a path with at least one link. */
  function Worst(net: Net, p: seq<Hop>): (w: int)
    requires AllLinks(net, p) && p != []
    ensures forall h :: 0 <= h < |p| ==> HopCost(net, p[h]) <= w
    ensures exists h :: 0 <= h < |p| && HopCost(net, p[h]) == w
  {
    var c := HopCost(net, p[0]);
    if |p| == 1 then c
    else
      var w := Worst(net, p[1..]);
      assert exists h :: 0 <= h < |p[1..]| && HopCost(net, p[1..][h]) == w;
      assert forall h :: 1 <= h < |p| ==> HopCost(net, p[h]) == HopCost(net, p[1..][h - 1]);
      assert forall h :: 0 <= h < |p[1..]| ==> HopCost(net, p[1..][h]) == HopCost(net, p[h + 1]);
      if c < w then w else c
  }

  /** No switch is met twice. */
  predicate Simple(p: seq<Hop>) {
    && (forall g, h :: 0 <= g < h < |p| ==> p[g].dst != p[h].dst)
    && (forall g, h :: 0 <= g <= h < |p| ==> p[g].src != p[h].dst)
  }

  // ----------------------------------------------------------------- cuts

  predicate Crosses(vis: seq<bool>, i: int, j: int) {
    0 <= i < |vis| && 0 <= j < |vis| && vis[i] && !vis[j]
  }

  /** Every path out of a set of switches has a link that leaves the set. */
  lemma {:induction false} PathCrosses(net: Net, vis: seq<bool>, s: nat, d: nat, p: seq<Hop>) returns (h: nat)
    requires net.WellFormed() && |vis| == net.n && IsPath(net, s, d, p)
    requires s < net.n && d < net.n && vis[s] && !vis[d]
    ensures h < |p| && Crosses(vis, p[h].src, p[h].dst)
    decreases |p|
  {
    if vis[p[0].dst] {
      h := PathCrosses(net, vis, p[0].dst, d, p[1..]);
      h := h + 1;
    } else { h := 0; }
  }

  predicate Before(i': int, j': int, k': int, i: int, j: int, k: int) {
    i' < i || (i' == i && (j' < j || (j' == j && k' < k)))
  }

  /** The links that leave the set and come before (i, j, k) in the scan cost at least `u`. */
  ghost predicate AtLeast(net: Net, vis: seq<bool>, u: int, i: int, j: int, k: int) {
    forall i', j', k' :: Before(i', j', k', i, j, k) && Crosses(vis, i', j') && net.IsLink(i', j', k')
                         ==> net.Cost(i', j', k') >= u
  }

  /** `u` is the cost of the link (bs, bd, bi), or nothing was found. */
  predicate Best(net: Net, vis: seq<bool>, bs: int, bd: int, bi: int, u: int) {
    if u == LIMIT then bs == bd == bi == 0
    else u < LIMIT && Crosses(vis, bs, bd) && net.Usable(bs, bd, bi) && net.Cost(bs, bd, bi) == u
  }

  lemma AtLeastStep(net: Net, vis: seq<bool>, u: int, u': int, i: int, j: int, k: int)
    requires AtLeast(net, vis, u, i, j, k) && net.IsLink(i, j, k) && u' <= u && u' <= net.Cost(i, j, k)
    ensures AtLeast(net, vis, u', i, j, k + 1)
  {
  }

  /** The scan of one round: the least loaded link that leaves the visited set.  With no
      usable one the indices stay 0. */
  method BestCrossing(net: Net, visit: array<bool>) returns (bs: nat, bd: nat, bi: nat, u: int)
    requires net.WellFormed() && visit.Length == net.n
    ensures Best(net, visit[..], bs, bd, bi, u)
    ensures AtLeast(net, visit[..], u, net.n, 0, 0)
  {
    bs, bd, bi, u := 0, 0, 0, LIMIT;
    ghost var vis := visit[..];
    for i := 0 to net.n
      invariant Best(net, vis, bs, bd, bi, u) && AtLeast(net, vis, u, i, 0, 0)
    {
      if visit[i] {
        for j := 0 to net.n
          invariant Best(net, vis, bs, bd, bi, u) && AtLeast(net, vis, u, i, j, 0)
        {
          if !visit[j] {
            for k := 0 to |net.links[i][j]|
              invariant Best(net, vis, bs, bd, bi, u) && AtLeast(net, vis, u, i, j, k)
            {
              var rate := InterfaceRate(net, i, j, k);
              TruncBelow(rate, u);
              TruncBelow(rate, LIMIT);
              if rate < u as real {
                AtLeastStep(net, vis, u, Trunc(rate), i, j, k);
                bs, bd, bi, u := i, j, k, Trunc(rate);
              } else {
                AtLeastStep(net, vis, u, u, i, j, k);
              }
            }
          }
        }
      }
    }
  }

  // ---------------------------------------------------------------- search

  /** Every path from `s` to `d` has a link of cost `c` or more. */
  ghost predicate Unavoidable(net: Net, s: nat, d: nat, c: int) {
    forall q :: IsPath(net, s, d, q) && AllLinks(net, q) && q != [] ==> Worst(net, q) >= c
  }

  lemma CutIsUnavoidable(net: Net, vis: seq<bool>, s: nat, d: nat, u: int)
    requires net.WellFormed() && |vis| == net.n && s < net.n && d < net.n && vis[s] && !vis[d]
    requires AtLeast(net, vis, u, net.n, 0, 0)
    ensures Unavoidable(net, s, d, u)
  {
    forall q | IsPath(net, s, d, q) && AllLinks(net, q) && q != [] ensures Worst(net, q) >= u {
      var h := PathCrosses(net, vis, s, d, q);
      assert HopCost(net, q[h]) >= u;
    }
  }

  /** A cut that no usable link leaves. */
  lemma CutBlocks(net: Net, vis: seq<bool>, s: nat, d: nat, p: seq<Hop>)
    requires net.WellFormed() && |vis| == net.n && s < net.n && d < net.n && vis[s] && !vis[d]
    requires AtLeast(net, vis, LIMIT, net.n, 0, 0) && IsPath(net, s, d, p)
    ensures !AllUsable(net, p)
  {
    var h := PathCrosses(net, vis, s, d, p);
    PathLinks(net, s, d, p);
    assert HopCost(net, p[h]) >= LIMIT;
    TruncBelow(net.Rate(p[h].src, p[h].dst, p[h].idx), LIMIT);
  }

  /** The link that visited switch `v` was reached by. */
  function TreeHop(pre: seq<(nat, nat)>, v: nat): Hop
    requires v < |pre|
  {
    Hop(pre[v].0, v, pre[v].1)
  }

  /** `rank` tells when a visited switch was reached.  Each one but `s` was reached from an
      earlier one, by a usable link as heavy as no path to `d` can avoid. */
  ghost predicate Tree(net: Net, s: nat, d: nat, vis: seq<bool>, pre: seq<(nat, nat)>, rank: map<nat, nat>) {
    && net.WellFormed() && |vis| == |pre| == net.n && s < net.n && d < net.n && s in rank
    && (forall v :: v in rank <==> 0 <= v < net.n && vis[v])
    && forall v :: v in rank && v != s ==> Reached(net, s, d, pre, rank, v)
  }

  ghost predicate Reached(net: Net, s: nat, d: nat, pre: seq<(nat, nat)>, rank: map<nat, nat>, v: nat) {
    && v < |pre| && v in rank && pre[v].0 in rank && rank[pre[v].0] < rank[v]
    && net.Usable(pre[v].0, v, pre[v].1)
    && Unavoidable(net, s, d, net.Cost(pre[v].0, v, pre[v].1))
  }

  lemma TreeGrows(net: Net, s: nat, d: nat, vis: seq<bool>, pre: seq<(nat, nat)>, rank: map<nat, nat>,
                  bs: nat, bd: nat, bi: nat, t: nat)
    requires Tree(net, s, d, vis, pre, rank) && Crosses(vis, bs, bd) && net.Usable(bs, bd, bi)
    requires Unavoidable(net, s, d, net.Cost(bs, bd, bi))
    requires forall v :: v in rank ==> rank[v] < t
    ensures Tree(net, s, d, vis[bd := true], pre[bd := (bs, bi)], rank[bd := t])
  {
    var pre', rank' := pre[bd := (bs, bi)], rank[bd := t];
    forall v | v in rank' && v != s ensures Reached(net, s, d, pre', rank', v) {
      if v != bd { assert Reached(net, s, d, pre, rank, v); }
    }
  }

  // ------------------------------------------------------------------ walk

  function Reversed<T>(a: seq<T>): (r: seq<T>)
    ensures |r| == |a| && forall i :: 0 <= i < |a| ==> r[i] == a[|a| - 1 - i]
  {
    seq(|a|, i requires 0 <= i < |a| => a[|a| - 1 - i])
  }

  /** A path along the tree: ranks rise, and its links are those the tree was grown by. */
  ghost predicate TreePath(pre: seq<(nat, nat)>, rank: map<nat, nat>, s: nat, p: seq<Hop>) {
    && (forall h :: 0 <= h < |p| ==> p[h].dst < |pre| && p[h] == TreeHop(pre, p[h].dst)
                                     && p[h].dst in rank && p[h].src in rank && p[h].dst != s)
    && (forall g, h :: 0 <= g < h < |p| ==> rank[p[g].dst] < rank[p[h].dst])
    && (forall g, h :: 0 <= g <= h < |p| ==> rank[p[g].src] < rank[p[h].dst])
  }

  lemma PrependRising(pre: seq<(nat, nat)>, rank: map<nat, nat>, s: nat, sw: nat, p: seq<Hop>)
    requires TreePath(pre, rank, s, p) && (p != [] ==> p[0].src == sw)
    requires sw != s && sw < |pre| && sw in rank && pre[sw].0 in rank && rank[pre[sw].0] < rank[sw]
    ensures TreePath(pre, rank, s, [TreeHop(pre, sw)] + p)
  {
    var q := [TreeHop(pre, sw)] + p;
    forall h | 0 <= h < |q|
      ensures q[h].dst < |pre| && q[h] == TreeHop(pre, q[h].dst)
              && q[h].dst in rank && q[h].src in rank && q[h].dst != s
    {
      if h > 0 { assert q[h] == p[h - 1]; }
    }
    forall g, h | 0 <= g <= h < |q|
      ensures rank[q[g].src] < rank[q[h].dst] && (g < h ==> rank[q[g].dst] < rank[q[h].dst])
    {
      if h > 0 {
        assert q[h] == p[h - 1];
        if g == 0 { assert rank[p[0].src] < rank[p[h - 1].dst]; }
        else { assert q[g] == p[g - 1]; }
      }
    }
  }

  lemma {:induction false} PrependHop(net: Net, s: nat, d: nat, vis: seq<bool>, pre: seq<(nat, nat)>, rank: map<nat,
                                      nat>, sw: nat, p: seq<Hop>)
    requires Tree(net, s, d, vis, pre, rank) && sw in rank && sw != s
    requires TreePath(pre, rank, s, p) && IsPath(net, sw, d, p)
    ensures TreePath(pre, rank, s, [TreeHop(pre, sw)] + p)
    ensures IsPath(net, pre[sw].0, d, [TreeHop(pre, sw)] + p)
  {
    assert Reached(net, s, d, pre, rank, sw);
    PrependRising(pre, rank, s, sw, p);
    assert ([TreeHop(pre, sw)] + p)[1..] == p;
  }

  /** The predecessor walk from `d` back to `s`. */
  method Walk(net: Net, s: nat, d: nat, visit: array<bool>, pre: array<(nat, nat)>, ghost rank: map<nat, nat>)
    returns (path: seq<Hop>)
    requires Tree(net, s, d, visit[..], pre[..], rank) && d in rank
    ensures IsPath(net, s, d, path) && TreePath(pre[..], rank, s, path)
  {
    var sw := d;
    var idx := pre[d].1;
    var tmp: seq<Hop> := [];
    ghost var p: seq<Hop> := [];
    while sw != s
      invariant sw in rank && sw < pre.Length && idx == pre[sw].1
      invariant IsPath(net, sw, d, p) && TreePath(pre[..], rank, s, p) && tmp == Reversed(p)
      decreases rank[sw]
    {
      assert Reached(net, s, d, pre[..], rank, sw);
      PrependHop(net, s, d, visit[..], pre[..], rank, sw, p);
      p := [TreeHop(pre[..], sw)] + p;
      tmp := tmp + [Hop(pre[sw].0, sw, idx)];
      sw := pre[sw].0;
      idx := pre[sw].1;
    }
    path := Reversed(tmp);
    assert path == p;
  }

  lemma {:induction false} TreePathGood(net: Net, s: nat, d: nat, vis: seq<bool>, pre: seq<(nat, nat)>,
                                        rank: map<nat, nat>, p: seq<Hop>)
    requires Tree(net, s, d, vis, pre, rank) && TreePath(pre, rank, s, p) && IsPath(net, s, d, p) && s != d
    ensures p != [] && Simple(p) && AllUsable(net, p) && AllLinks(net, p)
    ensures Unavoidable(net, s, d, Worst(net, p))
  {
    PathLinks(net, s, d, p);
    forall h | 0 <= h < |p| ensures net.Usable(p[h].src, p[h].dst, p[h].idx) {
      assert Reached(net, s, d, pre, rank, p[h].dst);
    }
    var h :| 0 <= h < |p| && HopCost(net, p[h]) == Worst(net, p);
    assert Reached(net, s, d, pre, rank, p[h].dst);
  }

  // ------------------------------------------------------------- get_route

  /** `Stuck`: some round found no usable link that leaves the visited set.  The code then
      marks switch 0 and goes on; what it does after that is not followed here. */
  datatype Outcome = SameSwitch | Stuck | Found(path: seq<Hop>)

  ghost predicate Reachable(net: Net, s: nat, d: nat) {
    exists p :: IsPath(net, s, d, p) && AllUsable(net, p)
  }

  /** One round: the best link that leaves the visited set takes its far end in. */
  method Round(net: Net, s: nat, d: nat, visit: array<bool>, pre: array<(nat, nat)>, ghost rank: map<nat, nat>,
               ghost t: nat)
    returns (stuck: bool, bd: nat)
    requires visit.Length == pre.Length && Tree(net, s, d, visit[..], pre[..], rank) && d !in rank
    requires forall v :: v in rank ==> rank[v] < t
    modifies visit, pre
    ensures stuck ==> visit[..] == old(visit[..]) && pre[..] == old(pre[..]) && !Reachable(net, s, d)
    ensures !stuck ==> Tree(net, s, d, visit[..], pre[..], rank[bd := t])
                       && Unvisited(visit[..]) == Unvisited(old(visit[..])) - 1
  {
    var bs, bi, u;
    bs, bd, bi, u := BestCrossing(net, visit);
    ghost var vis, pre0 := visit[..], pre[..];
    if u == LIMIT {
      forall p | IsPath(net, s, d, p) ensures !AllUsable(net, p) { CutBlocks(net, vis, s, d, p); }
      return true, bd;
    }
    CutIsUnavoidable(net, vis, s, d, u);
    VisitOne(vis, bd);
    TreeGrows(net, s, d, vis, pre0, rank, bs, bd, bi, t);
    visit[bd] := true;
    pre[bd] := (bs, bi);
    assert visit[..] == vis[bd := true] && pre[..] == pre0[bd := (bs, bi)];
    stuck := false;
  }

  method Start(net: Net, s: nat, d: nat) returns (visit: array<bool>, pre: array<(nat, nat)>)
    requires net.WellFormed() && s < net.n && d < net.n
    ensures fresh(visit) && fresh(pre) && visit.Length == pre.Length == net.n
    ensures Tree(net, s, d, visit[..], pre[..], map[s := 0]) && Unvisited(visit[..]) == net.n - 1
  {
    visit := new bool[net.n](_ => false);
    pre := new (nat, nat)[net.n](_ => (0, 0));
    ghost var none := visit[..];
    NoneVisited(none);
    VisitOne(none, s);
    visit[s] := true;
    pre[s] := (s, 0);
    assert visit[..] == none[s := true];
  }

  /** get_route up to the chosen path.  It finds one exactly when the destination can be
      reached over usable links, after fewer rounds than there are switches.  The path is
      a simple chain of links, and the integer part of its heaviest load is as small as
      on any path, over usable links or not. */
  // ------------------------------------------------------- the route, by loads

  ghost function LoadOf(net: Net, load: seq<(Ip, Ip)> -> real, h: Hop): real
    requires net.IsLink(h.src, h.dst, h.idx)
  {
    load(net.links[h.src][h.dst][h.idx].flows)
  }

  /** A path with at least one link, each of them loaded with less than four terabits. */
  ghost predicate LightPath(net: Net, load: seq<(Ip, Ip)> -> real, s: nat, d: nat, q: seq<Hop>) {
    && IsPath(net, s, d, q) && AllLinks(net, q) && q != []
    && forall h :: 0 <= h < |q| ==> LoadOf(net, load, q[h]) < 4000000000000.0
  }

  /** To each link of `p` there is one of `q` that is loaded as much, up to the fraction. */
  ghost predicate NoHeavier(net: Net, load: seq<(Ip, Ip)> -> real, p: seq<Hop>, q: seq<Hop>)
    requires AllLinks(net, p) && AllLinks(net, q)
  {
    forall h :: 0 <= h < |p| ==> NotAbove(net, load, p[h], q)
  }

  ghost predicate NotAbove(net: Net, load: seq<(Ip, Ip)> -> real, h: Hop, q: seq<Hop>)
    requires net.IsLink(h.src, h.dst, h.idx) && AllLinks(net, q)
  {
    exists g :: 0 <= g < |q| && Trunc(LoadOf(net, load, h)) <= Trunc(LoadOf(net, load, q[g]))
  }

  /** A route is found if there is a light path, and is then a light path with the least
      maximal load. */
  ghost predicate ByLoad(net: Net, load: seq<(Ip, Ip)> -> real, s: nat, d: nat, r: Outcome) {
    && (r.Found? <==> s != d && exists q :: LightPath(net, load, s, d, q))
    && (r.Found? ==> LightPath(net, load, s, d, r.path)
                     && forall q :: IsPath(net, s, d, q) && AllLinks(net, q) ==> NoHeavier(net, load, r.path, q))
  }

  lemma LightIsUsable(net: Net, load: seq<(Ip, Ip)> -> real, s: nat, d: nat, q: seq<Hop>)
    requires IsLoad(net, load)
    ensures LightPath(net, load, s, d, q) <==> IsPath(net, s, d, q) && AllLinks(net, q) && q != [] && AllUsable(net, q)
  {
    if AllLinks(net, q) {
      forall h | 0 <= h < |q| ensures LoadOf(net, load, q[h]) == net.Rate(q[h].src, q[h].dst, q[h].idx) {
        OneLoad(net, load, net.links[q[h].src][q[h].dst][q[h].idx].flows);
      }
    }
  }

  lemma WorstNotAbove(net: Net, load: seq<(Ip, Ip)> -> real, p: seq<Hop>, q: seq<Hop>)
    requires IsLoad(net, load) && AllLinks(net, p) && AllLinks(net, q) && p != [] && q != []
    requires Worst(net, p) <= Worst(net, q)
    ensures NoHeavier(net, load, p, q)
  {
    var g :| 0 <= g < |q| && HopCost(net, q[g]) == Worst(net, q);
    OneLoad(net, load, net.links[q[g].src][q[g].dst][q[g].idx].flows);
    forall h | 0 <= h < |p| ensures NotAbove(net, load, p[h], q) {
      OneLoad(net, load, net.links[p[h].src][p[h].dst][p[h].idx].flows);
      assert HopCost(net, p[h]) <= HopCost(net, q[g]);
    }
  }

  lemma FoundByLoad(net: Net, load: seq<(Ip, Ip)> -> real, s: nat, d: nat, p: seq<Hop>)
    requires IsLoad(net, load) && s != d && p != [] && IsPath(net, s, d, p) && AllLinks(net, p) && AllUsable(net, p)
    requires forall q :: IsPath(net, s, d, q) && AllLinks(net, q) && q != [] ==> Worst(net, p) <= Worst(net, q)
    ensures ByLoad(net, load, s, d, Found(p))
  {
    LightIsUsable(net, load, s, d, p);
    forall q | IsPath(net, s, d, q) && AllLinks(net, q) ensures NoHeavier(net, load, p, q) {
      WorstNotAbove(net, load, p, q);
    }
  }

  lemma NotFoundByLoad(net: Net, load: seq<(Ip, Ip)> -> real, s: nat, d: nat, r: Outcome)
    requires IsLoad(net, load) && !r.Found? && (s == d || !Reachable(net, s, d))
    ensures ByLoad(net, load, s, d, r)
  {
    forall q ensures s == d || !LightPath(net, load, s, d, q) { LightIsUsable(net, load, s, d, q); }
  }

  lemma AnswerByLoad(net: Net, s: nat, d: nat, r: Outcome)
    requires r.Found? <==> s != d && Reachable(net, s, d)
    requires r.Found? ==>
               && r.path != [] && IsPath(net, s, d, r.path) && AllLinks(net, r.path) && AllUsable(net, r.path)
               && forall q :: IsPath(net, s, d, q) && AllLinks(net, q) && q != []
                              ==> Worst(net, r.path) <= Worst(net, q)
    ensures forall load :: IsLoad(net, load) ==> ByLoad(net, load, s, d, r)
  {
    forall load | IsLoad(net, load) ensures ByLoad(net, load, s, d, r) {
      if r.Found? { FoundByLoad(net, load, s, d, r.path); } else { NotFoundByLoad(net, load, s, d, r); }
    }
  }

  method GetRoute(net: Net, s: nat, d: nat) returns (r: Outcome, rounds: nat)
    requires net.WellFormed() && s < net.n && d < net.n
    ensures r.SameSwitch? <==> s == d
    ensures s != d ==> (r.Found? <==> Reachable(net, s, d))
    ensures rounds < net.n
    ensures r.Found? ==>
              && r.path != [] && IsPath(net, s, d, r.path) && Simple(r.path)
              && AllLinks(net, r.path) && AllUsable(net, r.path)
              && forall q :: IsPath(net, s, d, q) && AllLinks(net, q) && q != [] ==> Worst(net, r.path) <= Worst(net, q)
    ensures forall load :: IsLoad(net, load) ==> ByLoad(net, load, s, d, r)
  {
    if s == d {
      AnswerByLoad(net, s, d, SameSwitch);
      return SameSwitch, 0;
    }
    var visit, pre := Start(net, s, d);
    ghost var rank: map<nat, nat> := map[s := 0];
    rounds := 0;
    while true
      invariant fresh(visit) && fresh(pre) && visit.Length == pre.Length == net.n
      invariant Tree(net, s, d, visit[..], pre[..], rank) && d !in rank
      invariant forall v :: v in rank ==> rank[v] <= rounds
      invariant rounds + Unvisited(visit[..]) == net.n - 1
      decreases Unvisited(visit[..])
    {
      var stuck, bd := Round(net, s, d, visit, pre, rank, rounds + 1);
      if stuck {
        AnswerByLoad(net, s, d, Stuck);
        return Stuck, rounds;
      }
      rank := rank[bd := rounds + 1];
      rounds := rounds + 1;
      if bd == d {
        var path := Walk(net, s, d, visit, pre, rank);
        TreePathGood(net, s, d, visit[..], pre[..], rank, path);
        AnswerByLoad(net, s, d, Found(path));
        return Found(path), rounds;
      }
    }
  }

  /** What the truncation costs: loads that are not negative are optimal to within one. */
  lemma OptimalWithinOne(net: Net, p: seq<Hop>, q: seq<Hop>, h: nat)
    requires AllLinks(net, p) && AllLinks(net, q) && p != [] && q != [] && Worst(net, p) <= Worst(net, q)
    requires h < |p| && forall g :: 0 <= g < |q| ==> net.Rate(q[g].src, q[g].dst, q[g].idx) >= 0.0
    ensures exists g ::
              0 <= g < |q| && net.Rate(p[h].src, p[h].dst, p[h].idx) < net.Rate(q[g].src, q[g].dst, q[g].idx) + 1.0
  {
    var g :| 0 <= g < |q| && HopCost(net, q[g]) == Worst(net, q);
    assert HopCost(net, p[h]) <= HopCost(net, q[g]);
  }
}
