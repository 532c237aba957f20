/** The search as it runs: the residual routing and the marks are updated in place, and
    the methods are proved to do what OfflinePaths says of the split. */
module OfflineSearch {
  import opened OfflineLp
  import opened OfflinePaths
  import opened Visits

  class Nonblocking {
    const t: Topology
    const newRouting: map<Key, real>
    var routing: map<Key, real>

    constructor (t: Topology, newRouting: map<Key, real>)
      requires t.WellFormed() && Ready(t, newRouting)
      ensures this.t == t && this.newRouting == newRouting && routing == newRouting
    {
      this.t, this.newRouting, this.routing := t, newRouting, newRouting;
    }

    /** get_paths: splits at most `f` units of the flow of pair (u, v) that leave switch
        `i` into paths to `v` that avoid the marked switches; the marks are as before. */
    method GetPaths(u: nat, v: nat, i: nat, f: real, vist: array<bool>) returns (paths: seq<WPath>)
      requires t.WellFormed() && HasArcs(t, routing, u, v) && i < t.n && vist.Length == t.n
      modifies this`routing, vist
      ensures vist[..] == old(vist[..])
      ensures var s := SplitFrom(t, old(routing), u, v, i, f, old(vist[..]), 0);
              paths == s.paths && routing == s.left
      decreases Unvisited(vist[..]), 2
    {
      paths := [];
      var rest := f;
      ghost var vis := vist[..];
      ghost var whole := SplitFrom(t, routing, u, v, i, f, vis, 0);
      for j := 0 to t.n
        invariant vist[..] == vis && HasArcs(t, routing, u, v)
        invariant var s := SplitFrom(t, routing, u, v, i, rest, vis, j);
                  whole.paths == paths + s.paths && whole.left == s.left
      {
        var more, left, done := Turn(u, v, i, j, rest, vist);
        paths, rest := paths + more, left;
        if done { return; }
      }
    }

    /** One turn of that loop: the paths over arc (i, j), what is left to send, and whether
        that is the end. */
    method Turn(u: nat, v: nat, i: nat, j: nat, rest: real, vist: array<bool>)
      returns (more: seq<WPath>, left: real, done: bool)
      requires t.WellFormed() && HasArcs(t, routing, u, v) && i < t.n && j < t.n && vist.Length == t.n
      modifies this`routing, vist
      ensures vist[..] == old(vist[..]) && HasArcs(t, routing, u, v)
      ensures var s := SplitFrom(t, old(routing), u, v, i, rest, old(vist[..]), j);
              if done then s == Split(more, routing)
              else
                var next := SplitFrom(t, routing, u, v, i, left, old(vist[..]), j + 1);
                s.paths == more + next.paths && s.left == next.left
      decreases Unvisited(vist[..]), 1
    {
      more, left, done := [], rest, false;
      if vist[j] { return; }
      if j == i || t.capacity[i][j] == 0.0 { return; }
      assert t.IsArc(i, j);
      if routing[Key(u, v, i, j)] <= CUTOFF { return; }
      var df := if rest < routing[Key(u, v, i, j)] then rest else routing[Key(u, v, i, j)];
      ghost var r, vis := routing, vist[..];
      ghost var first, s := TakeArc(t, r, u, v, i, j, df, vis), SplitFrom(t, r, u, v, i, rest, vis, j);
      more := Send(u, v, i, j, df, vist);
      left, done := rest - df, rest - df < CUTOFF;
      if done { SplitStops(t, r, u, v, i, rest, vis, j, df, first, s); }
      else {
        SplitGoesOn(t, r, u, v, i, rest, vis, j, df, first, SplitFrom(t, routing, u, v, i, left, vis, j + 1), s);
      }
    }

    /** The loop body of get_paths once an arc is chosen: take `df` from it, then go on
        from its far end unless that is `v`. */
    method Send(u: nat, v: nat, i: nat, j: nat, df: real, vist: array<bool>) returns (paths: seq<WPath>)
      requires t.WellFormed() && HasArcs(t, routing, u, v) && t.IsArc(i, j) && vist.Length == t.n && !vist[j]
      modifies this`routing, vist
      ensures vist[..] == old(vist[..])
      ensures var s := TakeArc(t, old(routing), u, v, i, j, df, old(vist[..]));
              paths == s.paths && routing == s.left
      decreases Unvisited(vist[..]), 0
    {
      ghost var r, vis := routing, vist[..];
      routing := routing[Key(u, v, i, j) := routing[Key(u, v, i, j)] - df];
      if j == v { return [WPath([i, j], df)]; }
      VisitOne(vis, j);
      vist[j] := true;
      assert vist[..] == vis[j := true];
      ghost var r1 := routing;
      var sub := GetPaths(u, v, j, df, vist);
      vist[j] := false;
      assert vist[..] == vis;
      TakeThrough(t, r, u, v, i, j, df, vis, r1, Split(sub, routing), TakeArc(t, r, u, v, i, j, df, vis));
      paths := PutInFront(i, sub);
    }

    method PutInFront(i: nat, sub: seq<WPath>) returns (paths: seq<WPath>)
      ensures paths == Prefixed(i, sub)
    {
      paths := [];
      for x := 0 to |sub|
        invariant paths == Prefixed(i, sub)[..x]
      {
        paths := paths + [WPath([i] + sub[x].nodes, sub[x].weight)];
      }
      assert paths == Prefixed(i, sub);
    }

    /** get_all_paths: the paths of every pair, each taken from the routing as solved. */
    method GetAllPaths() returns (paths: map<(nat, nat), seq<WPath>>)
      requires t.WellFormed() && Ready(t, newRouting)
      modifies this`routing
      ensures forall u: nat, v: nat :: t.IsPair(u, v) ==> HasPaths(t, newRouting, paths, u, v)
    {
      routing := newRouting;
      paths := map[];
      for u := 0 to t.n
        invariant Untouched(routing, newRouting, u, 0)
        invariant forall a: nat, b: nat :: a < u && t.IsPair(a, b) ==> HasPaths(t, newRouting, paths, a, b)
      {
        if t.bwHost[u] == 0.0 { continue; }
        for v := 0 to t.n
          invariant Untouched(routing, newRouting, u, v)
          invariant forall a: nat, b: nat ::
                      (a < u || (a == u && b < v)) && t.IsPair(a, b) ==> HasPaths(t, newRouting, paths, a, b)
        {
          if t.bwHost[v] == 0.0 || u == v { continue; }
          var ps := PathsOfPair(u, v);
          paths := paths[(u, v) := ps];
        }
      }
    }

    method PathsOfPair(u: nat, v: nat) returns (ps: seq<WPath>)
      requires t.WellFormed() && Ready(t, newRouting) && t.IsPair(u, v) && Untouched(routing, newRouting, u, v)
      modifies this`routing
      ensures Untouched(routing, newRouting, u, v + 1)
      ensures HasArcs(t, newRouting, u, v) && ps == PathsOf(t, newRouting, u, v)
    {
      var vist := new bool[t.n](_ => false);
      ghost var r, none := routing, seq(t.n, _ => false);
      assert vist[..] == none;
      ps := GetPaths(u, v, u, 1.0, vist);
      SplitLocal(t, r, newRouting, u, v, u, 1.0, none, 0,
                 SplitFrom(t, r, u, v, u, 1.0, none, 0), SplitFrom(t, newRouting, u, v, u, 1.0, none, 0));
      OthersKept(t, r, u, v, u, 1.0, none, 0, Split(ps, routing));
    }
  }

  /** The flow of pair (u, v) and of all that come after it is still as solved. */
  ghost predicate Untouched(r: map<Key, real>, r0: map<Key, real>, u: nat, v: nat) {
    r.Keys == r0.Keys && forall k :: k in r0 && (k.u > u || (k.u == u && k.v >= v)) ==> r[k] == r0[k]
  }

  ghost predicate HasPaths(t: Topology, r: map<Key, real>, paths: map<(nat, nat), seq<WPath>>, u: nat, v: nat)
    requires t.WellFormed()
  {
    (u, v) in paths && HasArcs(t, r, u, v) && u < t.n && paths[(u, v)] == PathsOf(t, r, u, v)
  }
}
