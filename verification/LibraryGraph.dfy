/** The graph of which libraries need which, and its transitive reduction. */
module LibraryGraph {

  /** A library, by its place in the list. */
  type Lib = nat

  /** For each library the libraries that need it. */
  type Graph = map<Lib, set<Lib>>

  ghost predicate Closed(g: Graph) {
    forall x :: x in g ==> g[x] <= g.Keys
  }

  predicate Edge(g: Graph, x: Lib, y: Lib) { x in g && y in g[x] }

  /** A path of one or more edges. */
  predicate Path(g: Graph, p: seq<Lib>) {
    |p| > 1 && forall i, j :: 0 <= i && j == i + 1 < |p| ==> Edge(g, p[i], p[j])
  }

  predicate PathFrom(g: Graph, x: Lib, y: Lib, p: seq<Lib>) {
    Path(g, p) && p[0] == x && p[|p| - 1] == y
  }

  ghost predicate Reaches(g: Graph, x: Lib, y: Lib) {
    exists p: seq<Lib> :: PathFrom(g, x, y, p)
  }

  ghost predicate Acyclic(g: Graph) {
    forall x :: !Reaches(g, x, x)
  }

  /** Every library that a path leads to. */
  ghost function Reached(g: Graph, x: Lib): set<Lib> {
    set y | y in g && Reaches(g, x, y)
  }

  /** Every library that a path of two or more edges leads to. */
  ghost function Implied(g: Graph, x: Lib): set<Lib> {
    if x in g then ReachedFrom(g, g[x]) else {}
  }

  ghost function ReachedFrom(g: Graph, starts: set<Lib>): set<Lib> {
    set z, y | z in starts && y in Reached(g, z) :: y
  }

  // ------------------------------------------------------------ paths

  lemma EdgeReaches(g: Graph, x: Lib, y: Lib)
    requires Edge(g, x, y)
    ensures Reaches(g, x, y)
  {
    assert PathFrom(g, x, y, [x, y]);
  }

  lemma Through(g: Graph, x: Lib, y: Lib, z: Lib)
    requires Reaches(g, x, y) && Reaches(g, y, z)
    ensures Reaches(g, x, z)
  {
    var p: seq<Lib> :| PathFrom(g, x, y, p);
    var q: seq<Lib> :| PathFrom(g, y, z, q);
    var r := p + q[1..];
    forall i, j | 0 <= i && j == i + 1 < |r| ensures Edge(g, r[i], r[j]) {
      if i >= |p| - 1 { assert r[i] == q[i - (|p| - 1)] && r[j] == q[j - (|p| - 1)]; }
    }
    assert PathFrom(g, x, z, r);
  }

  /** A path is an edge, or an edge and a path. */
  lemma FirstEdge(g: Graph, x: Lib, y: Lib) returns (w: Lib)
    requires Reaches(g, x, y)
    ensures Edge(g, x, w) && (w == y || Reaches(g, w, y))
  {
    var p: seq<Lib> :| PathFrom(g, x, y, p);
    w := p[1];
    if |p| > 2 {
      var q := p[1..];
      forall i, j | 0 <= i && j == i + 1 < |q|
        ensures Edge(g, q[i], q[j])
      {
        assert q[i] == p[i + 1] && q[j] == p[j + 1];
      }
      assert PathFrom(g, w, y, q);
    }
  }

  lemma ReachedInside(g: Graph, x: Lib, y: Lib)
    requires Closed(g) && Reaches(g, x, y)
    ensures x in g && y in g
  {
    var p: seq<Lib> :| PathFrom(g, x, y, p);
    assert Edge(g, p[0], p[1]) && Edge(g, p[|p| - 2], p[|p| - 1]);
  }

  /** On an acyclic graph an edge leads to fewer libraries. */
  lemma FewerReached(g: Graph, x: Lib, y: Lib)
    requires Closed(g) && Acyclic(g) && Edge(g, x, y)
    ensures Reached(g, y) < Reached(g, x)
  {
    EdgeReaches(g, x, y);
    forall z | z in Reached(g, y) ensures z in Reached(g, x) { Through(g, x, y, z); }
    assert y in Reached(g, x) && y !in Reached(g, y);
  }

  lemma ImpliedMeans(g: Graph, x: Lib, y: Lib)
    requires Closed(g)
    ensures y in Implied(g, x) <==> exists z: Lib :: Edge(g, x, z) && Reaches(g, z, y)
  {
    if z: Lib :| Edge(g, x, z) && Reaches(g, z, y) {
      ReachedInside(g, z, y);
      assert y in Reached(g, z);
    }
    if y in Implied(g, x) {
      var z: Lib :| x in g && z in g[x] && y in Reached(g, z);
      assert Edge(g, x, z);
    }
  }

  // ------------------------------------------------------- taking edges away

  function Cut(g: Graph, t: Lib, gone: set<Lib>): Graph
    requires t in g
  {
    g[t := g[t] - gone]
  }

  lemma CutMore(g: Graph, t: Lib, a: set<Lib>, b: set<Lib>)
    requires t in g
    ensures Cut(Cut(g, t, a), t, b) == Cut(g, t, a + b) && Cut(g, t, {}) == g
  {
    assert g[t] - a - b == g[t] - (a + b) && g[t] - {} == g[t];
  }

  lemma CutReaches(g: Graph, t: Lib, gone: set<Lib>, x: Lib, y: Lib)
    requires t in g && Reaches(Cut(g, t, gone), x, y)
    ensures Reaches(g, x, y)
  {
    var p: seq<Lib> :| PathFrom(Cut(g, t, gone), x, y, p);
    forall i, j | 0 <= i && j == i + 1 < |p| ensures Edge(g, p[i], p[j]) { assert Edge(Cut(g, t, gone), p[i], p[j]); }
    assert PathFrom(g, x, y, p);
  }

  /** What does not lead to `t` does not notice. */
  lemma Elsewhere(g: Graph, t: Lib, gone: set<Lib>, x: Lib, y: Lib)
    requires t in g && x != t && !Reaches(g, x, t)
    ensures Reaches(Cut(g, t, gone), x, y) <==> Reaches(g, x, y)
  {
    if Reaches(g, x, y) {
      var p: seq<Lib> :| PathFrom(g, x, y, p);
      forall i, j | 0 <= i && j == i + 1 < |p| ensures Edge(Cut(g, t, gone), p[i], p[j]) {
        assert Edge(g, p[i], p[j]);
        if i > 0 { assert PathFrom(g, x, p[i], p[..i + 1]); }
      }
      assert PathFrom(Cut(g, t, gone), x, y, p);
    }
    if Reaches(Cut(g, t, gone), x, y) { CutReaches(g, t, gone, x, y); }
  }

  lemma ElsewhereReached(g: Graph, t: Lib, gone: set<Lib>, x: Lib)
    requires t in g && x != t && !Reaches(g, x, t)
    ensures Reached(Cut(g, t, gone), x) == Reached(g, x)
  {
    forall y | y in g ensures y in Reached(Cut(g, t, gone), x) <==> y in Reached(g, x) { Elsewhere(g, t, gone, x, y); }
  }

  lemma CutKeeps(g: Graph, t: Lib, gone: set<Lib>)
    requires t in g && Closed(g) && Acyclic(g)
    ensures Closed(Cut(g, t, gone)) && Acyclic(Cut(g, t, gone))
  {
    forall x | Reaches(Cut(g, t, gone), x, x) ensures Reaches(g, x, x) { CutReaches(g, t, gone, x, x); }
  }

  /** The first step of every path survives, directly or by a way round. */
  lemma {:induction false} WayRound(g: Graph, x: Lib, y: Lib)
    requires Closed(g) && Acyclic(g) && Edge(g, x, y)
    ensures Reaches(Cut(g, x, Implied(g, x)), x, y)
    decreases |Reached(g, x)| - |Reached(g, y)|
  {
    var g' := Cut(g, x, Implied(g, x));
    ImpliedMeans(g, x, y);
    if y !in Implied(g, x) { EdgeReaches(g', x, y); }
    else {
      var z: Lib :| Edge(g, x, z) && Reaches(g, z, y);
      Larger(g, x, z, y);
      WayRound(g, x, z);
      BelowEdge(g, x, z);
      Elsewhere(g, x, Implied(g, x), z, y);
      Through(g', x, z, y);
    }
  }

  lemma Larger(g: Graph, x: Lib, z: Lib, y: Lib)
    requires Closed(g) && Acyclic(g) && Edge(g, x, z) && Reaches(g, z, y)
    ensures |Reached(g, y)| < |Reached(g, z)| < |Reached(g, x)|
  {
    FewerReached(g, x, z);
    Smaller(Reached(g, z), Reached(g, x));
    ReachedInside(g, z, y);
    forall w | w in Reached(g, y) ensures w in Reached(g, z) { Through(g, z, y, w); }
    assert y in Reached(g, z) && y !in Reached(g, y);
    Smaller(Reached(g, y), Reached(g, z));
  }

  lemma Smaller(a: set<Lib>, b: set<Lib>)
    requires a < b
    ensures |a| < |b|
  {
    var x :| x in b && x !in a;
    assert b == a + {x} + (b - a - {x});
  }

  lemma BelowEdge(g: Graph, x: Lib, z: Lib)
    requires Acyclic(g) && Edge(g, x, z)
    ensures z != x && !Reaches(g, z, x)
  {
    EdgeReaches(g, x, z);
    if Reaches(g, z, x) { Through(g, x, z, x); }
  }

  ghost predicate SameReach(g: Graph, h: Graph) {
    forall x, y :: Reaches(g, x, y) <==> Reaches(h, x, y)
  }

  /** Taking the implied edges of one library away changes no reachability. */
  lemma CutSameReach(g: Graph, t: Lib)
    requires t in g && Closed(g) && Acyclic(g)
    ensures SameReach(g, Cut(g, t, Implied(g, t)))
  {
    var g' := Cut(g, t, Implied(g, t));
    forall x, y | Reaches(g, x, y) ensures Reaches(g', x, y) {
      var p: seq<Lib> :| PathFrom(g, x, y, p);
      PathStays(g, t, p);
    }
    forall x, y | Reaches(g', x, y) ensures Reaches(g, x, y) { CutReaches(g, t, Implied(g, t), x, y); }
  }

  lemma {:induction false} PathStays(g: Graph, t: Lib, p: seq<Lib>)
    requires t in g && Closed(g) && Acyclic(g) && Path(g, p)
    ensures Reaches(Cut(g, t, Implied(g, t)), p[0], p[|p| - 1])
    decreases |p|
  {
    var g', n := Cut(g, t, Implied(g, t)), |p| - 1;
    assert Edge(g, p[n - 1], p[n]);
    if p[n - 1] == t { WayRound(g, t, p[n]); } else { EdgeReaches(g', p[n - 1], p[n]); }
    if n > 1 {
      PathStays(g, t, p[..n]);
      Through(g', p[0], p[n - 1], p[n]);
    }
  }

  // ------------------------------------------------- the transitive reduction

  /** Each edge but those that a longer path implies. */
  ghost function Reduction(g: Graph): Graph {
    map x | x in g :: g[x] - Implied(g, x)
  }

  ghost predicate Minimal(g: Graph) {
    forall x, z, y :: Edge(g, x, z) && Reaches(g, z, y) ==> !Edge(g, x, y)
  }

  /** Whatever is pruned from graphs that reach the same is the same. */
  lemma SameImplied(g: Graph, h: Graph, x: Lib)
    requires g.Keys == h.Keys && SameReach(g, h) && x in g && h[x] <= g[x]
    ensures Implied(h, x) <= Implied(g, x)
    ensures h[x] == g[x] ==> Implied(h, x) == Implied(g, x)
  {
    forall z ensures Reached(h, z) == Reached(g, z) { }
  }

  /** The minimal graph with given reachability is unique. */
  lemma UniqueEdge(g: Graph, h: Graph, x: Lib, y: Lib)
    requires SameReach(g, h) && Minimal(g) && Edge(g, x, y)
    ensures Edge(h, x, y)
  {
    EdgeReaches(g, x, y);
    var z := FirstEdge(h, x, y);
    if z != y {
      EdgeReaches(h, x, z);
      var w := FirstEdge(g, x, z);
      if w != z { Through(g, w, z, y); }
    }
  }

  lemma UniqueReduction(g: Graph, h: Graph)
    requires g.Keys == h.Keys && SameReach(g, h) && Minimal(g) && Minimal(h)
    ensures g == h
  {
    forall x | x in g ensures g[x] == h[x] {
      forall y | y in g[x] ensures y in h[x] { assert Edge(g, x, y); UniqueEdge(g, h, x, y); }
      forall y | y in h[x] ensures y in g[x] { assert Edge(h, x, y); UniqueEdge(h, g, x, y); }
    }
  }

  /** The graph when some of the libraries have been dealt with. */
  ghost function Partial(g: Graph, done: set<Lib>): Graph {
    map x | x in g :: if x in done then g[x] - Implied(g, x) else g[x]
  }

  lemma PartialStep(g: Graph, done: set<Lib>, x: Lib)
    requires Closed(g) && Acyclic(g) && x in g && SameReach(g, Partial(g, done))
    ensures var h := Partial(g, done);
            Closed(h) && Acyclic(h) && Partial(g, done + {x}) == Cut(h, x, Implied(h, x))
    ensures SameReach(g, Partial(g, done + {x}))
  {
    var h := Partial(g, done);
    SameImplied(g, h, x);
    var next, cut := Partial(g, done + {x}), Cut(h, x, Implied(h, x));
    forall k | k in g ensures next[k] == cut[k] {
      if k == x { assert cut[k] == g[k] - Implied(g, k); }
    }
    assert next == cut;
    CutSameReach(h, x);
  }

  lemma {:induction false} PartialReach(g: Graph, done: set<Lib>)
    requires Closed(g) && Acyclic(g) && done <= g.Keys
    ensures SameReach(g, Partial(g, done))
    decreases done
  {
    if done == {} { assert Partial(g, done) == g; }
    else {
      var x :| x in done;
      PartialReach(g, done - {x});
      PartialStep(g, done - {x}, x);
      assert done - {x} + {x} == done;
    }
  }

  /** The reduction reaches the same, no edge of it is implied by others, and it is the
      only such graph. */
  lemma ReductionExact(g: Graph, h: Graph)
    requires Closed(g) && Acyclic(g) && h.Keys == g.Keys
    ensures SameReach(g, h) && Minimal(h) <==> h == Reduction(g)
  {
    var r := Reduction(g);
    assert r == Partial(g, g.Keys);
    PartialReach(g, g.Keys);
    forall x, z, y | Edge(r, x, z) && Reaches(r, z, y) ensures !Edge(r, x, y) {
      assert Edge(g, x, z) && Reaches(g, z, y);
      ImpliedMeans(g, x, y);
    }
    if SameReach(g, h) && Minimal(h) { UniqueReduction(h, r); }
  }
}
