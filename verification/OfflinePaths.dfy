/** Taking a routing apart into weighted paths, by a depth-first search that uses the
    routing up as it goes. */
module OfflinePaths {
  import opened OfflineLp
  import opened Visits

  /** Flow below this is left where it is. */
  const CUTOFF := 0.00001

  /** Names the flow of pair (u, v) over the arc from i to j. */
  datatype Key = Key(u: nat, v: nat, i: nat, j: nat)

  datatype WPath = WPath(nodes: seq<nat>, weight: real)

  /** link_in_path */
  predicate Uses(p: seq<nat>, a: nat, b: nat) {
    exists k :: 0 <= k < |p| - 1 && p[k] == a && p[k + 1] == b
  }

  function TotalWeight(ps: seq<WPath>): real {
    if ps == [] then 0.0 else ps[0].weight + TotalWeight(ps[1..])
  }

  /** The weight of the paths that use arc (a, b). */
  function Usage(ps: seq<WPath>, a: nat, b: nat): real {
    if ps == [] then 0.0 else (if Uses(ps[0].nodes, a, b) then ps[0].weight else 0.0) + Usage(ps[1..], a, b)
  }

  predicate IsWalk(t: Topology, p: seq<nat>)
    requires t.WellFormed()
  {
    forall k :: 0 <= k < |p| - 1 ==> t.IsArc(p[k], p[k + 1])
  }

  /** A path from `i` to `v` over arcs, with `v` at its end only; between the ends it meets
      no switch twice and none that is marked. */
  predicate GoodPath(t: Topology, v: nat, i: nat, vis: seq<bool>, p: seq<nat>)
    requires t.WellFormed()
  {
    && |p| >= 2 && p[0] == i && p[|p| - 1] == v && IsWalk(t, p)
    && (forall k :: 1 <= k < |p| - 1 ==> p[k] != v && p[k] < |vis| && !vis[p[k]])
    && (forall k, l :: 1 <= k < l < |p| - 1 ==> p[k] != p[l])
  }

  predicate GoodPaths(t: Topology, v: nat, i: nat, vis: seq<bool>, ps: seq<WPath>)
    requires t.WellFormed()
  {
    forall x :: 0 <= x < |ps| ==> ps[x].weight >= 0.0 && GoodPath(t, v, i, vis, ps[x].nodes)
  }

  function Prefixed(i: nat, ps: seq<WPath>): (r: seq<WPath>)
    ensures |r| == |ps| && forall x :: 0 <= x < |ps| ==> r[x] == WPath([i] + ps[x].nodes, ps[x].weight)
  {
    if ps == [] then [] else [WPath([i] + ps[0].nodes, ps[0].weight)] + Prefixed(i, ps[1..])
  }

  lemma PrefixGood(t: Topology, v: nat, i: nat, j: nat, vis: seq<bool>, p: seq<nat>)
    requires t.WellFormed() && j < |vis| && !vis[j] && j != v && t.IsArc(i, j)
    requires GoodPath(t, v, j, vis[j := true], p)
    ensures GoodPath(t, v, i, vis, [i] + p)
  {
    var q := [i] + p;
    forall k | 0 <= k < |q| - 1 ensures t.IsArc(q[k], q[k + 1]) {
      if k > 0 { assert q[k] == p[k - 1] && q[k + 1] == p[k]; }
    }
    forall k | 1 <= k < |q| - 1 ensures q[k] != v && q[k] < |vis| && !vis[q[k]] {
      assert q[k] == p[k - 1];
    }
    forall k, l | 1 <= k < l < |q| - 1 ensures q[k] != q[l] {
      assert q[k] == p[k - 1] && q[l] == p[l - 1];
    }
  }

  lemma PrefixUses(t: Topology, v: nat, i: nat, j: nat, vis: seq<bool>, p: seq<nat>, a: nat, b: nat)
    requires t.WellFormed() && j < |vis| && j != v && GoodPath(t, v, j, vis[j := true], p)
    ensures Uses([i] + p, a, b) <==> (a == i && b == j) || Uses(p, a, b)
    ensures b == j ==> !Uses(p, a, b)
  {
    var q := [i] + p;
    if Uses(p, a, b) {
      var k :| 0 <= k < |p| - 1 && p[k] == a && p[k + 1] == b;
      assert q[k + 1] == a && q[k + 2] == b;
    }
    if a == i && b == j { assert q[0] == a && q[1] == b; }
    if Uses(q, a, b) {
      var k :| 0 <= k < |q| - 1 && q[k] == a && q[k + 1] == b;
      if k > 0 { assert p[k - 1] == a && p[k] == b; }
    }
  }

  lemma UsageStep(ps: seq<WPath>, a: nat, b: nat)
    requires ps != []
    ensures Usage(ps, a, b) == Usage(ps[1..], a, b) + if Uses(ps[0].nodes, a, b) then ps[0].weight else 0.0
  {
  }

  /** Prefixing arc (i, j) charges that arc with all the weight and changes no other. */
  lemma {:induction false} PrefixUsage(t: Topology, v: nat, i: nat, j: nat, vis: seq<bool>, ps: seq<WPath>, a: nat,
                                       b: nat)
    requires t.WellFormed() && j < |vis| && j != v && GoodPaths(t, v, j, vis[j := true], ps)
    ensures Usage(Prefixed(i, ps), a, b) == if a == i && b == j then TotalWeight(ps) else Usage(ps, a, b)
  {
    if ps != [] {
      var qs := Prefixed(i, ps);
      PrefixUsage(t, v, i, j, vis, ps[1..], a, b);
      PrefixUses(t, v, i, j, vis, ps[0].nodes, a, b);
      assert qs[1..] == Prefixed(i, ps[1..]);
      UsageStep(qs, a, b);
      UsageStep(ps, a, b);
    }
  }

  lemma {:induction false} PrefixWeight(i: nat, ps: seq<WPath>)
    ensures TotalWeight(Prefixed(i, ps)) == TotalWeight(ps)
  {
    if ps != [] {
      PrefixWeight(i, ps[1..]);
      assert Prefixed(i, ps)[1..] == Prefixed(i, ps[1..]);
    }
  }

  lemma {:induction false} UsageConcat(ps: seq<WPath>, qs: seq<WPath>, a: nat, b: nat)
    ensures Usage(ps + qs, a, b) == Usage(ps, a, b) + Usage(qs, a, b)
  {
    if ps == [] { assert ps + qs == qs; }
    else {
      UsageConcat(ps[1..], qs, a, b);
      assert (ps + qs)[1..] == ps[1..] + qs;
    }
  }

  lemma {:induction false} WeightConcat(ps: seq<WPath>, qs: seq<WPath>)
    ensures TotalWeight(ps + qs) == TotalWeight(ps) + TotalWeight(qs)
  {
    if ps == [] { assert ps + qs == qs; }
    else {
      WeightConcat(ps[1..], qs);
      assert (ps + qs)[1..] == ps[1..] + qs;
    }
  }

  // ------------------------------------------------------------ the residual

  ghost predicate Ready(t: Topology, r: map<Key, real>)
    requires t.WellFormed()
  {
    && (forall u, v, i, j :: 0 <= u && 0 <= v && t.IsPair(u, v) && t.IsArc(i, j) ==> Key(u, v, i, j) in r)
    && (forall k :: k in r ==> r[k] >= 0.0)
  }

  /** From `r0` to `r` some flow of pair (u, v) was used up, none of any other pair. */
  ghost predicate UsedUp(u: nat, v: nat, r0: map<Key, real>, r: map<Key, real>) {
    && r.Keys == r0.Keys
    && (forall k :: k in r0 ==> r[k] <= r0[k])
    && (forall k :: k in r0 && (k.u != u || k.v != v) ==> r[k] == r0[k])
  }

  /** The paths use no arc more than was taken from it. */
  ghost predicate Charged(t: Topology, u: nat, v: nat, r0: map<Key, real>, r: map<Key, real>, ps: seq<WPath>)
    requires t.WellFormed()
  {
    forall a: nat, b: nat :: t.IsArc(a, b) && Key(u, v, a, b) in r0 && Key(u, v, a, b) in r ==>
                               Usage(ps, a, b) <= r0[Key(u, v, a, b)] - r[Key(u, v, a, b)]
  }

  /** The same for paths that start with arc (i, j), from which `df` was taken before. */
  ghost predicate ChargedVia(t: Topology, u: nat, v: nat, i: nat, j: nat, df: real,
                             r1: map<Key, real>, r: map<Key, real>, ps: seq<WPath>)
    requires t.WellFormed()
  {
    forall a: nat, b: nat :: t.IsArc(a, b) && Key(u, v, a, b) in r1 && Key(u, v, a, b) in r ==>
      Usage(ps, a, b) <= r1[Key(u, v, a, b)] - r[Key(u, v, a, b)] + if a == i && b == j then df else 0.0
  }

  lemma PrefixCharged(t: Topology, u: nat, v: nat, i: nat, j: nat, vis: seq<bool>, df: real,
                      r1: map<Key, real>, r: map<Key, real>, ps: seq<WPath>)
    requires t.WellFormed() && j < |vis| && j != v && GoodPaths(t, v, j, vis[j := true], ps) && TotalWeight(ps) <= df
    requires UsedUp(u, v, r1, r) && Charged(t, u, v, r1, r, ps)
    ensures ChargedVia(t, u, v, i, j, df, r1, r, Prefixed(i, ps))
  {
    forall a: nat, b: nat | t.IsArc(a, b) && Key(u, v, a, b) in r1 && Key(u, v, a, b) in r
      ensures Usage(Prefixed(i, ps), a, b)
              <= r1[Key(u, v, a, b)] - r[Key(u, v, a, b)] + if a == i && b == j then df else 0.0
    {
      PrefixUsage(t, v, i, j, vis, ps, a, b);
    }
  }

  lemma DirectCharged(t: Topology, u: nat, v: nat, i: nat, df: real, r: map<Key, real>)
    requires t.WellFormed()
    ensures ChargedVia(t, u, v, i, v, df, r, r, [WPath([i, v], df)])
  {
    var one := [WPath([i, v], df)];
    assert one[1..] == [];
    forall a: nat, b: nat ensures Usage(one, a, b) == if a == i && b == v then df else 0.0 { OneArc(i, v, a, b); }
  }

  lemma OneArc(i: nat, v: nat, a: nat, b: nat)
    ensures Uses([i, v], a, b) <==> a == i && b == v
  {
    if a == i && b == v { assert [i, v][0] == a && [i, v][0 + 1] == b; }
  }

  /** Taking `df` from arc (i, j) pays for the paths that start with it. */
  lemma TakenPays(t: Topology, u: nat, v: nat, i: nat, j: nat, df: real, r: map<Key, real>, r': map<Key, real>,
                  ps: seq<WPath>)
    requires t.WellFormed() && Key(u, v, i, j) in r && 0.0 <= df
    requires var r1 := r[Key(u, v, i, j) := r[Key(u, v, i, j)] - df];
             UsedUp(u, v, r1, r') && ChargedVia(t, u, v, i, j, df, r1, r', ps)
    ensures UsedUp(u, v, r, r') && Charged(t, u, v, r, r', ps)
  {
    var r1 := r[Key(u, v, i, j) := r[Key(u, v, i, j)] - df];
    assert r1.Keys == r.Keys;
    forall a: nat, b: nat | t.IsArc(a, b) && Key(u, v, a, b) in r && Key(u, v, a, b) in r'
      ensures Usage(ps, a, b) <= r[Key(u, v, a, b)] - r'[Key(u, v, a, b)]
    {
      assert Key(u, v, a, b) in r1;
    }
  }

  lemma ChargeMore(t: Topology, u: nat, v: nat, r0: map<Key, real>, r: map<Key, real>,
                   r': map<Key, real>, done: seq<WPath>, ps: seq<WPath>)
    requires t.WellFormed() && UsedUp(u, v, r0, r) && UsedUp(u, v, r, r')
    requires Charged(t, u, v, r0, r, done) && Charged(t, u, v, r, r', ps)
    ensures UsedUp(u, v, r0, r') && Charged(t, u, v, r0, r', done + ps)
  {
    forall a: nat, b: nat | t.IsArc(a, b) && Key(u, v, a, b) in r0 && Key(u, v, a, b) in r'
      ensures Usage(done + ps, a, b) <= r0[Key(u, v, a, b)] - r'[Key(u, v, a, b)]
    {
      UsageConcat(done, ps, a, b);
      assert Key(u, v, a, b) in r;
    }
  }

  // --------------------------------------------------------------- the search

  /** Every arc of the pair has an entry. */
  ghost predicate HasArcs(t: Topology, r: map<Key, real>, u: nat, v: nat)
    requires t.WellFormed()
  {
    forall i: nat, j: nat :: t.IsArc(i, j) ==> Key(u, v, i, j) in r
  }

  datatype Split = Split(paths: seq<WPath>, left: map<Key, real>)

  /** What get_paths returns and leaves, from arc (i, j) of its loop on, with `rest` units
      still to be sent from `i` and the switches in `vis` marked. */
  function SplitFrom(t: Topology, r: map<Key, real>, u: nat, v: nat, i: nat, rest: real, vis: seq<bool>,
                     j: nat): (s: Split)
    requires t.WellFormed() && HasArcs(t, r, u, v) && i < t.n && j <= t.n && |vis| == t.n
    ensures s.left.Keys == r.Keys
    decreases Unvisited(vis), t.n - j, 0
  {
    if j == t.n then Split([], r)
    else if Skips(t, r, u, v, i, vis, j)
    then SplitFrom(t, r, u, v, i, rest, vis, j + 1)
    else
      var df := Turn(r, u, v, i, rest, j);
      var first := TakeArc(t, r, u, v, i, j, df, vis);
      if rest - df < CUTOFF then first
      else
        var more := SplitFrom(t, first.left, u, v, i, rest - df, vis, j + 1);
        Split(first.paths + more.paths, more.left)
  }

  /** One turn of the loop: `df` units over arc (i, j), and on from there. */
  function TakeArc(t: Topology, r: map<Key, real>, u: nat, v: nat, i: nat, j: nat, df: real, vis: seq<bool>): (s: Split)
    requires t.WellFormed() && HasArcs(t, r, u, v) && t.IsArc(i, j) && |vis| == t.n && !vis[j]
    ensures s.left.Keys == r.Keys
    decreases Unvisited(vis), 0
  {
    var r1 := r[Key(u, v, i, j) := r[Key(u, v, i, j)] - df];
    if j == v then Split([WPath([i, j], df)], r1)
    else
      VisitOne(vis, j);
      var sub := SplitFrom(t, r1, u, v, j, df, vis[j := true], 0);
      Split(Prefixed(i, sub.paths), sub.left)
  }

  /** How much one turn of the loop sends over arc (i, j). */
  function Turn(r: map<Key, real>, u: nat, v: nat, i: nat, rest: real, j: nat): real
    requires Key(u, v, i, j) in r
  {
    if rest < r[Key(u, v, i, j)] then rest else r[Key(u, v, i, j)]
  }

  /** The definition, for an arc that is skipped. */
  lemma {:induction false} SplitSkips(t: Topology, r: map<Key, real>, u: nat, v: nat, i: nat, rest: real,
                                      vis: seq<bool>, j: nat, s: Split)
    requires t.WellFormed() && HasArcs(t, r, u, v) && i < t.n && j < t.n && |vis| == t.n
    requires Skips(t, r, u, v, i, vis, j) && s == SplitFrom(t, r, u, v, i, rest, vis, j)
    ensures s == SplitFrom(t, r, u, v, i, rest, vis, j + 1)
  {
  }

  /** The definition, for a turn that gives `first` and is followed by `more`. */
  lemma {:induction false} SplitGoesOn(t: Topology, r: map<Key, real>, u: nat, v: nat, i: nat, rest: real,
                                       vis: seq<bool>, j: nat, df: real, first: Split, more: Split, s: Split)
    requires t.WellFormed() && HasArcs(t, r, u, v) && i < t.n && j < t.n && |vis| == t.n
    requires !Skips(t, r, u, v, i, vis, j)
    requires Key(u, v, i, j) in r && df == Turn(r, u, v, i, rest, j) && first == TakeArc(t, r, u, v, i, j, df, vis)
    requires rest - df >= CUTOFF && HasArcs(t, first.left, u, v)
    requires more == SplitFrom(t, first.left, u, v, i, rest - df, vis, j + 1)
    requires s == SplitFrom(t, r, u, v, i, rest, vis, j)
    ensures s.paths == first.paths + more.paths && s.left == more.left
  {
  }

  lemma {:induction false} SplitStops(t: Topology, r: map<Key, real>, u: nat, v: nat, i: nat, rest: real,
                                      vis: seq<bool>, j: nat, df: real, first: Split, s: Split)
    requires t.WellFormed() && HasArcs(t, r, u, v) && i < t.n && j < t.n && |vis| == t.n
    requires !Skips(t, r, u, v, i, vis, j)
    requires Key(u, v, i, j) in r && df == Turn(r, u, v, i, rest, j) && first == TakeArc(t, r, u, v, i, j, df, vis)
    requires rest - df < CUTOFF && s == SplitFrom(t, r, u, v, i, rest, vis, j)
    ensures s == first
  {
  }

  /** The definition, for an arc that does not end at `v`. */
  lemma {:induction false} TakeThrough(t: Topology, r: map<Key, real>, u: nat, v: nat, i: nat, j: nat, df: real,
                                       vis: seq<bool>, r1: map<Key, real>, sub: Split, s: Split)
    requires t.WellFormed() && HasArcs(t, r, u, v) && t.IsArc(i, j) && |vis| == t.n && !vis[j] && j != v
    requires r1 == r[Key(u, v, i, j) := r[Key(u, v, i, j)] - df] && HasArcs(t, r1, u, v)
    requires sub == SplitFrom(t, r1, u, v, j, df, vis[j := true], 0)
    requires s == TakeArc(t, r, u, v, i, j, df, vis)
    ensures s.paths == Prefixed(i, sub.paths) && s.left == sub.left
  {
  }

  // --------------------------------------------------------------- soundness

  /** What holds of any split of at most `f` units: residuals stay non-negative, the paths
      are good, they carry at most `f`, and every arc pays for the paths that use it. */
  ghost predicate Sound(t: Topology, r: map<Key, real>, u: nat, v: nat, i: nat, f: real, vis: seq<bool>, s: Split)
    requires t.WellFormed()
  {
    && NonNegativeFlow(s.left) && UsedUp(u, v, r, s.left)
    && GoodPaths(t, v, i, vis, s.paths) && TotalWeight(s.paths) <= f
    && Charged(t, u, v, r, s.left, s.paths)
  }

  ghost predicate NonNegativeFlow(r: map<Key, real>) {
    forall k :: k in r ==> r[k] >= 0.0
  }

  lemma JoinSound(t: Topology, r: map<Key, real>, u: nat, v: nat, i: nat, f1: real, f2: real, vis: seq<bool>,
                  s1: Split, s2: Split, s: Split)
    requires t.WellFormed() && s.paths == s1.paths + s2.paths && s.left == s2.left
    requires Sound(t, r, u, v, i, f1, vis, s1) && Sound(t, s1.left, u, v, i, f2, vis, s2)
    ensures Sound(t, r, u, v, i, f1 + f2, vis, s)
  {
    ChargeMore(t, u, v, r, s1.left, s2.left, s1.paths, s2.paths);
    WeightConcat(s1.paths, s2.paths);
  }

  lemma EmptySound(t: Topology, r: map<Key, real>, u: nat, v: nat, i: nat, f: real, vis: seq<bool>)
    requires t.WellFormed() && NonNegativeFlow(r) && f >= 0.0
    ensures Sound(t, r, u, v, i, f, vis, Split([], r))
  {
  }

  lemma SoundForMore(t: Topology, r: map<Key, real>, u: nat, v: nat, i: nat, f: real, g: real, vis: seq<bool>, s: Split)
    requires t.WellFormed() && Sound(t, r, u, v, i, f, vis, s) && f <= g
    ensures Sound(t, r, u, v, i, g, vis, s)
  {
  }

  predicate Skips(t: Topology, r: map<Key, real>, u: nat, v: nat, i: nat, vis: seq<bool>, j: nat)
    requires t.WellFormed() && i < t.n && j < t.n == |vis|
  {
    vis[j] || j == i || t.capacity[i][j] == 0.0 || (Key(u, v, i, j) in r && r[Key(u, v, i, j)] <= CUTOFF)
  }

  lemma {:induction false} SplitSound(t: Topology, r: map<Key, real>, u: nat, v: nat, i: nat, rest: real,
                                      vis: seq<bool>, j: nat, s: Split)
    requires t.WellFormed() && HasArcs(t, r, u, v) && i < t.n && j <= t.n && |vis| == t.n
    requires NonNegativeFlow(r) && rest >= 0.0 && v < t.n && !vis[v]
    requires s == SplitFrom(t, r, u, v, i, rest, vis, j)
    ensures Sound(t, r, u, v, i, rest, vis, s)
    decreases Unvisited(vis), t.n - j, 2
  {
    if j == t.n { EmptySound(t, r, u, v, i, rest, vis); }
    else if Skips(t, r, u, v, i, vis, j) { SplitSound(t, r, u, v, i, rest, vis, j + 1, s); }
    else { TurnSound(t, r, u, v, i, rest, vis, j, s); }
  }

  lemma TurnArc(t: Topology, r: map<Key, real>, u: nat, v: nat, i: nat, rest: real, vis: seq<bool>, j: nat)
    requires t.WellFormed() && HasArcs(t, r, u, v) && i < t.n && j < t.n && |vis| == t.n
    requires NonNegativeFlow(r) && rest >= 0.0 && !Skips(t, r, u, v, i, vis, j)
    ensures t.IsArc(i, j) && !vis[j] && Key(u, v, i, j) in r
    ensures 0.0 <= Turn(r, u, v, i, rest, j) <= r[Key(u, v, i, j)] && Turn(r, u, v, i, rest, j) <= rest
  {
  }

  lemma {:induction false} TurnSound(t: Topology, r: map<Key, real>, u: nat, v: nat, i: nat, rest: real,
                                     vis: seq<bool>, j: nat, s: Split)
    requires t.WellFormed() && HasArcs(t, r, u, v) && i < t.n && j < t.n && |vis| == t.n
    requires NonNegativeFlow(r) && rest >= 0.0 && v < t.n && !vis[v] && !Skips(t, r, u, v, i, vis, j)
    requires s == SplitFrom(t, r, u, v, i, rest, vis, j)
    ensures Sound(t, r, u, v, i, rest, vis, s)
    decreases Unvisited(vis), t.n - j, 1
  {
    var df := Turn(r, u, v, i, rest, j);
    TurnArc(t, r, u, v, i, rest, vis, j);
    var first := TakeArc(t, r, u, v, i, j, df, vis);
    TakeSound(t, r, u, v, i, j, df, vis, first);
    if rest - df >= CUTOFF {
      var more := SplitFrom(t, first.left, u, v, i, rest - df, vis, j + 1);
      SplitGoesOn(t, r, u, v, i, rest, vis, j, df, first, more, s);
      RestSound(t, r, u, v, i, rest, df, vis, j, first, more, s);
    } else {
      SplitStops(t, r, u, v, i, rest, vis, j, df, first, s);
      SoundForMore(t, r, u, v, i, df, rest, vis, s);
    }
  }

  /** The turns that follow one which gave `first`. */
  lemma {:induction false} RestSound(t: Topology, r: map<Key, real>, u: nat, v: nat, i: nat, rest: real, df: real,
                                     vis: seq<bool>, j: nat, first: Split, more: Split, s: Split)
    requires t.WellFormed() && HasArcs(t, first.left, u, v) && i < t.n && j < t.n && |vis| == t.n
    requires rest - df >= 0.0 && v < t.n && !vis[v] && Sound(t, r, u, v, i, df, vis, first)
    requires more == SplitFrom(t, first.left, u, v, i, rest - df, vis, j + 1)
    requires s.paths == first.paths + more.paths && s.left == more.left
    ensures Sound(t, r, u, v, i, rest, vis, s)
    decreases Unvisited(vis), t.n - j, 0
  {
    SplitSound(t, first.left, u, v, i, rest - df, vis, j + 1, more);
    JoinSound(t, r, u, v, i, df, rest - df, vis, first, more, s);
  }

  lemma {:induction false} TakeSound(t: Topology, r: map<Key, real>, u: nat, v: nat, i: nat, j: nat, df: real,
                                     vis: seq<bool>, s: Split)
    requires t.WellFormed() && HasArcs(t, r, u, v) && t.IsArc(i, j) && |vis| == t.n && !vis[j]
    requires NonNegativeFlow(r) && 0.0 <= df <= r[Key(u, v, i, j)] && v < t.n && !vis[v]
    requires s == TakeArc(t, r, u, v, i, j, df, vis)
    ensures Sound(t, r, u, v, i, df, vis, s)
    decreases Unvisited(vis), 0, 0
  {
    var r1 := r[Key(u, v, i, j) := r[Key(u, v, i, j)] - df];
    if j == v { DirectCharged(t, u, v, i, df, r1); }
    else {
      VisitOne(vis, j);
      var sub := SplitFrom(t, r1, u, v, j, df, vis[j := true], 0);
      SplitSound(t, r1, u, v, j, df, vis[j := true], 0, sub);
      PrefixCharged(t, u, v, i, j, vis, df, r1, sub.left, sub.paths);
      PrefixWeight(i, sub.paths);
      PrefixedGood(t, v, i, j, vis, sub.paths);
    }
    TakenPays(t, u, v, i, j, df, r, s.left, s.paths);
  }

  lemma PrefixedGood(t: Topology, v: nat, i: nat, j: nat, vis: seq<bool>, sub: seq<WPath>)
    requires t.WellFormed() && j < |vis| && !vis[j] && j != v && t.IsArc(i, j)
    requires GoodPaths(t, v, j, vis[j := true], sub)
    ensures GoodPaths(t, v, i, vis, Prefixed(i, sub))
  {
    forall x | 0 <= x < |sub| ensures GoodPath(t, v, i, vis, Prefixed(i, sub)[x].nodes) {
      PrefixGood(t, v, i, j, vis, sub[x].nodes);
    }
  }

  // ------------------------------------------------------------- composition

  /** Weighted paths from `u` to `v` that use no arc more than the routing allows. */
  ghost predicate Decomposes(t: Topology, r: map<Key, real>, u: nat, v: nat, ps: seq<WPath>)
    requires t.WellFormed()
  {
    && GoodPaths(t, v, u, seq(t.n, _ => false), ps)
    && TotalWeight(ps) <= 1.0
    && forall a: nat, b: nat :: t.IsArc(a, b) ==> Key(u, v, a, b) in r && Usage(ps, a, b) <= r[Key(u, v, a, b)]
  }

  /** The paths of a pair, as get_all_paths takes them from the solved routing. */
  function PathsOf(t: Topology, r: map<Key, real>, u: nat, v: nat): seq<WPath>
    requires t.WellFormed() && HasArcs(t, r, u, v) && u < t.n
  {
    SplitFrom(t, r, u, v, u, 1.0, seq(t.n, _ => false), 0).paths
  }

  lemma PathsDecompose(t: Topology, r: map<Key, real>, u: nat, v: nat)
    requires t.WellFormed() && HasArcs(t, r, u, v) && NonNegativeFlow(r) && t.IsPair(u, v)
    ensures Decomposes(t, r, u, v, PathsOf(t, r, u, v))
  {
    var s := SplitFrom(t, r, u, v, u, 1.0, seq(t.n, _ => false), 0);
    SplitSound(t, r, u, v, u, 1.0, seq(t.n, _ => false), 0, s);
    forall a: nat, b: nat | t.IsArc(a, b) ensures Key(u, v, a, b) in r && Usage(s.paths, a, b) <= r[Key(u, v, a, b)] {
      assert Key(u, v, a, b) in s.left;
    }
  }

  // --------------------------------------------------------------- locality

  /** The same flow of pair (u, v). */
  ghost predicate Agree(u: nat, v: nat, r: map<Key, real>, r': map<Key, real>) {
    forall k: Key :: k.u == u && k.v == v ==> (k in r <==> k in r') && (k in r ==> r[k] == r'[k])
  }

  /** The split of a pair depends on the flow of that pair alone. */
  lemma {:induction false} SplitLocal(t: Topology, r: map<Key, real>, r': map<Key, real>, u: nat, v: nat, i: nat,
                                      rest: real, vis: seq<bool>, j: nat, s: Split, s': Split)
    requires t.WellFormed() && HasArcs(t, r, u, v) && HasArcs(t, r', u, v) && i < t.n && j <= t.n && |vis| == t.n
    requires Agree(u, v, r, r')
    requires s == SplitFrom(t, r, u, v, i, rest, vis, j) && s' == SplitFrom(t, r', u, v, i, rest, vis, j)
    ensures s.paths == s'.paths && Agree(u, v, s.left, s'.left)
    decreases Unvisited(vis), t.n - j, 1
  {
    if j < t.n {
      if Skips(t, r, u, v, i, vis, j) {
        assert Skips(t, r', u, v, i, vis, j);
        SplitLocal(t, r, r', u, v, i, rest, vis, j + 1, s, s');
      } else { TurnLocal(t, r, r', u, v, i, rest, vis, j, s, s'); }
    }
  }

  lemma SameTurn(t: Topology, r: map<Key, real>, r': map<Key, real>, u: nat, v: nat, i: nat, rest: real,
                 vis: seq<bool>, j: nat)
    requires t.WellFormed() && HasArcs(t, r, u, v) && HasArcs(t, r', u, v) && i < t.n && j < t.n && |vis| == t.n
    requires Agree(u, v, r, r') && !Skips(t, r, u, v, i, vis, j)
    ensures !Skips(t, r', u, v, i, vis, j) && Key(u, v, i, j) in r && Key(u, v, i, j) in r'
    ensures Turn(r, u, v, i, rest, j) == Turn(r', u, v, i, rest, j)
  {
  }

  lemma {:induction false} TurnLocal(t: Topology, r: map<Key, real>, r': map<Key, real>, u: nat, v: nat, i: nat,
                                     rest: real, vis: seq<bool>, j: nat, s: Split, s': Split)
    requires t.WellFormed() && HasArcs(t, r, u, v) && HasArcs(t, r', u, v) && i < t.n && j < t.n && |vis| == t.n
    requires Agree(u, v, r, r') && !Skips(t, r, u, v, i, vis, j)
    requires s == SplitFrom(t, r, u, v, i, rest, vis, j) && s' == SplitFrom(t, r', u, v, i, rest, vis, j)
    ensures s.paths == s'.paths && Agree(u, v, s.left, s'.left)
    decreases Unvisited(vis), t.n - j, 0
  {
    var df := Turn(r, u, v, i, rest, j);
    SameTurn(t, r, r', u, v, i, rest, vis, j);
    var first, first' := TakeArc(t, r, u, v, i, j, df, vis), TakeArc(t, r', u, v, i, j, df, vis);
    TakeLocal(t, r, r', u, v, i, j, df, vis, first, first');
    if rest - df < CUTOFF {
      SplitStops(t, r, u, v, i, rest, vis, j, df, first, s);
      SplitStops(t, r', u, v, i, rest, vis, j, df, first', s');
    } else {
      var more := SplitFrom(t, first.left, u, v, i, rest - df, vis, j + 1);
      var more' := SplitFrom(t, first'.left, u, v, i, rest - df, vis, j + 1);
      SplitGoesOn(t, r, u, v, i, rest, vis, j, df, first, more, s);
      SplitGoesOn(t, r', u, v, i, rest, vis, j, df, first', more', s');
      SplitLocal(t, first.left, first'.left, u, v, i, rest - df, vis, j + 1, more, more');
    }
  }

  lemma {:induction false} TakeLocal(t: Topology, r: map<Key, real>, r': map<Key, real>, u: nat, v: nat, i: nat,
                                     j: nat, df: real, vis: seq<bool>, s: Split, s': Split)
    requires t.WellFormed() && HasArcs(t, r, u, v) && HasArcs(t, r', u, v) && t.IsArc(i, j) && |vis| == t.n && !vis[j]
    requires Agree(u, v, r, r')
    requires s == TakeArc(t, r, u, v, i, j, df, vis) && s' == TakeArc(t, r', u, v, i, j, df, vis)
    ensures s.paths == s'.paths && Agree(u, v, s.left, s'.left)
    decreases Unvisited(vis), 0, 0
  {
    var r1 := r[Key(u, v, i, j) := r[Key(u, v, i, j)] - df];
    var r1' := r'[Key(u, v, i, j) := r'[Key(u, v, i, j)] - df];
    assert Agree(u, v, r1, r1');
    if j != v {
      VisitOne(vis, j);
      var sub := SplitFrom(t, r1, u, v, j, df, vis[j := true], 0);
      var sub' := SplitFrom(t, r1', u, v, j, df, vis[j := true], 0);
      TakeThrough(t, r, u, v, i, j, df, vis, r1, sub, s);
      TakeThrough(t, r', u, v, i, j, df, vis, r1', sub', s');
      SplitLocal(t, r1, r1', u, v, j, df, vis[j := true], 0, sub, sub');
    }
  }

  ghost predicate KeepsOthers(u: nat, v: nat, r: map<Key, real>, left: map<Key, real>) {
    left.Keys == r.Keys && forall k :: k in r && (k.u != u || k.v != v || r[k] <= 0.00001) ==> left[k] == r[k]
  }

  /** The split of a pair leaves the flow of the others alone, and that of its thin arcs. */
  lemma {:induction false} OthersKept(t: Topology, r: map<Key, real>, u: nat, v: nat, i: nat, rest: real,
                                      vis: seq<bool>, j: nat, s: Split)
    requires t.WellFormed() && HasArcs(t, r, u, v) && i < t.n && j <= t.n && |vis| == t.n
    requires s == SplitFrom(t, r, u, v, i, rest, vis, j)
    ensures KeepsOthers(u, v, r, s.left)
    decreases Unvisited(vis), t.n - j, 1
  {
    if j < t.n {
      if Skips(t, r, u, v, i, vis, j) { OthersKept(t, r, u, v, i, rest, vis, j + 1, s); }
      else {
        var df := Turn(r, u, v, i, rest, j);
        var first := TakeArc(t, r, u, v, i, j, df, vis);
        TakeKept(t, r, u, v, i, j, df, vis, first);
        if rest - df < CUTOFF { SplitStops(t, r, u, v, i, rest, vis, j, df, first, s); }
        else {
          var more := SplitFrom(t, first.left, u, v, i, rest - df, vis, j + 1);
          SplitGoesOn(t, r, u, v, i, rest, vis, j, df, first, more, s);
          OthersKept(t, first.left, u, v, i, rest - df, vis, j + 1, more);
        }
      }
    }
  }

  lemma {:induction false} TakeKept(t: Topology, r: map<Key, real>, u: nat, v: nat, i: nat, j: nat, df: real,
                                    vis: seq<bool>, s: Split)
    requires t.WellFormed() && HasArcs(t, r, u, v) && t.IsArc(i, j) && |vis| == t.n && !vis[j]
    requires s == TakeArc(t, r, u, v, i, j, df, vis) && r[Key(u, v, i, j)] > 0.00001
    ensures KeepsOthers(u, v, r, s.left)
    decreases Unvisited(vis), 0, 0
  {
    var r1 := r[Key(u, v, i, j) := r[Key(u, v, i, j)] - df];
    if j != v {
      VisitOne(vis, j);
      var sub := SplitFrom(t, r1, u, v, j, df, vis[j := true], 0);
      TakeThrough(t, r, u, v, i, j, df, vis, r1, sub, s);
      OthersKept(t, r1, u, v, j, df, vis[j := true], 0, sub);
    }
  }

  lemma {:induction false} NothingCarried(ps: seq<WPath>, a: nat, b: nat)
    requires (forall x :: 0 <= x < |ps| ==> ps[x].weight >= 0.0)
    ensures Usage(ps, a, b) >= 0.0
    ensures Usage(ps, a, b) <= 0.0 ==> forall x :: 0 <= x < |ps| && Uses(ps[x].nodes, a, b) ==> ps[x].weight == 0.0
  {
    if ps != [] {
      NothingCarried(ps[1..], a, b);
      assert forall x :: 1 <= x < |ps| ==> ps[x] == ps[1..][x - 1];
    }
  }

  /** No path takes anything over an arc with a flow of at most 0.00001. */
  lemma ThinUnused(t: Topology, r: map<Key, real>, u: nat, v: nat, a: nat, b: nat)
    requires t.WellFormed() && HasArcs(t, r, u, v) && NonNegativeFlow(r) && t.IsPair(u, v) && t.IsArc(a, b)
    requires r[Key(u, v, a, b)] <= 0.00001
    ensures Usage(PathsOf(t, r, u, v), a, b) == 0.0
    ensures forall p :: p in PathsOf(t, r, u, v) && Uses(p.nodes, a, b) ==> p.weight == 0.0
  {
    var none := seq(t.n, _ => false);
    var s := SplitFrom(t, r, u, v, u, 1.0, none, 0);
    SplitSound(t, r, u, v, u, 1.0, none, 0, s);
    OthersKept(t, r, u, v, u, 1.0, none, 0, s);
    assert Usage(s.paths, a, b) <= r[Key(u, v, a, b)] - s.left[Key(u, v, a, b)];
    NothingCarried(s.paths, a, b);
  }

  // ---------------------------------------------------------------- the load

  /** The share of the demand of pair (u, v) that its paths put on arc (i, j). */
  function Share(paths: map<(nat, nat), seq<WPath>>, u: int, v: int, i: int, j: int): real {
    if u >= 0 && v >= 0 && i >= 0 && j >= 0 && (u, v) in paths then Usage(paths[(u, v)], i, j) else 0.0
  }

  /** Composition: split every demand over the paths of its pair by their weights; for any
      solution of the linear program and any admissible traffic no link then carries more
      than `mlu` times its capacity. */
  lemma SplitTrafficFits(t: Topology, x: Solution, r: map<Key, real>, paths: map<(nat, nat), seq<WPath>>,
                         tm: (int, int) -> real, i: int, j: int)
    requires t.WellFormed() && Feasible(t, x) && Admissible(t, tm) && t.IsArc(i, j)
    requires forall k :: k in r ==> r[k] == x.f(k.u, k.v, k.i, k.j)
    requires forall u: nat, v: nat :: t.IsPair(u, v) ==> (u, v) in paths && Decomposes(t, r, u, v, paths[(u, v)])
    ensures Load(t, tm, (u, v, i, j) => Share(paths, u, v, i, j), i, j) <= x.mlu * t.capacity[i][j]
  {
    var share := (u, v, i, j) => Share(paths, u, v, i, j);
    forall u, v | t.IsPair(u, v) ensures share(u, v, i, j) <= x.f(u, v, i, j) {
      var a: nat, b: nat := i, j;
      assert t.IsArc(a, b) && Key(u, v, a, b) in r;
    }
    LoadMonotone(t, tm, share, x.f, i, j);
    Certificate(t, x, tm, i, j);
  }

  /** The whole pipeline: the paths of get_all_paths keep every link within `mlu`. */
  lemma RoutedTrafficFits(t: Topology, x: Solution, r: map<Key, real>, paths: map<(nat, nat), seq<WPath>>,
                          tm: (int, int) -> real, i: int, j: int)
    requires t.WellFormed() && Feasible(t, x) && Admissible(t, tm) && t.IsArc(i, j) && Ready(t, r)
    requires forall k :: k in r ==> r[k] == x.f(k.u, k.v, k.i, k.j)
    requires forall u: nat, v: nat :: t.IsPair(u, v) ==>
               (u, v) in paths && HasArcs(t, r, u, v) && paths[(u, v)] == PathsOf(t, r, u, v)
    ensures Load(t, tm, (u, v, i, j) => Share(paths, u, v, i, j), i, j) <= x.mlu * t.capacity[i][j]
  {
    forall u: nat, v: nat | t.IsPair(u, v) ensures (u, v) in paths && Decomposes(t, r, u, v, paths[(u, v)]) {
      PathsDecompose(t, r, u, v);
    }
    SplitTrafficFits(t, x, r, paths, tm, i, j);
  }
}
