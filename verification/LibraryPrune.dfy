/** compute_graph: the graph built from symbols, and pruned in place. */
module LibraryPrune {
  import opened LibraryGraph

  /** The libraries on the way from some of a library's users. */
  ghost function Passed(g: Graph, done: set<Lib>): set<Lib> {
    set y | y in g && exists i :: i in done && (y == i || Reaches(g, i, y))
  }

  lemma PassedOne(g: Graph, done: set<Lib>, i: Lib)
    requires i in g
    ensures Passed(g, done + {i}) == Passed(g, done) + {i} + Reached(g, i)
  {
  }

  lemma PassedAll(g: Graph, x: Lib)
    requires Closed(g) && x in g
    ensures Passed(g, g[x]) == Reached(g, x)
  {
    forall y | y in Passed(g, g[x]) ensures y in Reached(g, x) {
      var i :| i in g[x] && (y == i || Reaches(g, i, y));
      assert Edge(g, x, i);
      EdgeReaches(g, x, i);
      if y != i { Through(g, x, i, y); }
    }
    forall y | y in Reached(g, x) ensures y in Passed(g, g[x]) {
      var w := FirstEdge(g, x, y);
    }
  }

  datatype Symbols = Symbols(syms: set<string>, neededSyms: set<string>)

  /** Another library needs a symbol of this one. */
  predicate Uses(table: map<Lib, Symbols>, x: Lib, y: Lib) {
    x in table && y in table && x != y && table[x].syms * table[y].neededSyms != {}
  }

  function Users(table: map<Lib, Symbols>, x: Lib): set<Lib> { set y | y in table && Uses(table, x, y) }

  function UseGraph(table: map<Lib, Symbols>): Graph { map x | x in table :: Users(table, x) }

  /** The graph when some libraries have been linked to their users. */
  ghost function Linked(table: map<Lib, Symbols>, done: set<Lib>): Graph {
    map x | x in table :: if x in done then Users(table, x) else {}
  }

  lemma LinkedOne(table: map<Lib, Symbols>, done: set<Lib>, a: Lib)
    requires a in table
    ensures var g := Linked(table, done);
            Linked(table, done + {a}) == g[a := g[a] + Users(table, a)]
  {
    var g, h := Linked(table, done), Linked(table, done + {a});
    assert h[a] == g[a] + Users(table, a);
    assert forall x :: x in table && x != a ==> h[x] == g[x];
  }

  class Libraries {
    var needs: Graph
    var needed: Graph

    /** `needs` is `needed` the other way round. */
    ghost predicate Valid()
      reads this
    {
      needs.Keys == needed.Keys && Closed(needed) && forall x, y :: Edge(needed, x, y) <==> Edge(needs, y, x)
    }

    /** Nothing is linked yet. */
    constructor (libs: seq<Lib>)
      ensures Valid() && needed == needs == map x | x in libs :: {}
    {
      needs := map x | x in libs :: {};
      needed := map x | x in libs :: {};
    }

    /** Adds one edge on both sides. */
    method Link(a: Lib, b: Lib)
      requires Valid() && a in needed && b in needed
      modifies this
      ensures Valid() && needed == old(needed)[a := old(needed)[a] + {b}]
    {
      needs := needs[b := needs[b] + {a}];
      needed := needed[a := needed[a] + {b}];
      forall x, y ensures Edge(needed, x, y) <==> Edge(needs, y, x) {
        assert Edge(old(needed), x, y) <==> Edge(old(needs), y, x);
      }
    }

    /** Drops one edge from both sides. */
    method Discard(t: Lib, i: Lib)
      requires Valid() && t in needed && i in needed
      modifies this
      ensures Valid() && needed == Cut(old(needed), t, {i})
    {
      needs := needs[i := needs[i] - {t}];
      needed := needed[t := needed[t] - {i}];
      forall x, y ensures Edge(needed, x, y) <==> Edge(needs, y, x) {
        assert Edge(old(needed), x, y) <==> Edge(old(needs), y, x);
      }
    }

    /** No library that needs `cur`, however indirectly, is listed as needing `t`. */
    method Prune(cur: Lib, t: Lib)
      requires Valid() && Acyclic(needed) && cur in needed && t in needed && cur != t && !Reaches(needed, cur, t)
      modifies this
      ensures Valid() && needed == Cut(old(needed), t, Reached(old(needed), cur))
      decreases Reached(needed, cur)
    {
      ghost var g := needed;
      var todo := needed[cur];
      ghost var done: set<Lib> := {};
      assert Passed(g, {}) == {};
      CutMore(g, t, {}, {});
      while todo != {}
        invariant Valid() && todo + done == g[cur] && todo !! done && needed == Cut(g, t, Passed(g, done))
        decreases todo
      {
        var i :| i in todo;
        assert Edge(g, cur, i);
        BelowUser(g, cur, t, i);
        PassedOne(g, done, i);
        todo := todo - {i};
        Discard(t, i);
        ghost var gone := Passed(g, done) + {i};
        CutMore(g, t, Passed(g, done), {i});
        CutMore(g, t, gone, Reached(g, i));
        ElsewhereReached(g, t, gone, i);
        Elsewhere(g, t, gone, i, t);
        CutKeeps(g, t, gone);
        Prune(i, t);
        done := done + {i};
      }
      PassedAll(g, cur);
      assert done == g[cur];
    }

    /** Prunes what the users of `cur` imply; the list of them is taken beforehand. */
    method PruneLib(cur: Lib)
      requires Valid() && Acyclic(needed) && cur in needed
      modifies this
      ensures Valid() && needed == Cut(old(needed), cur, Implied(old(needed), cur))
    {
      ghost var g := needed;
      var todo := needed[cur];
      ghost var done: set<Lib> := {};
      assert ReachedFrom(g, {}) == {};
      CutMore(g, cur, {}, {});
      while todo != {}
        invariant Valid() && todo + done == g[cur] && todo !! done && needed == Cut(g, cur, ReachedFrom(g, done))
        decreases todo
      {
        var i :| i in todo;
        assert Edge(g, cur, i);
        BelowEdge(g, cur, i);
        todo := todo - {i};
        ghost var gone := ReachedFrom(g, done);
        assert ReachedFrom(g, done + {i}) == gone + Reached(g, i);
        CutMore(g, cur, gone, Reached(g, i));
        ElsewhereReached(g, cur, gone, i);
        Elsewhere(g, cur, gone, i, cur);
        CutKeeps(g, cur, gone);
        Prune(i, cur);
        done := done + {i};
      }
      assert done == g[cur];
    }

    /** The pruning pass over all libraries, in any order: what is left is the one minimal
        graph that reaches the same. */
    method PruneAll(libs: seq<Lib>)
      requires Valid() && Acyclic(needed) && forall x :: x in needed <==> x in libs
      modifies this
      ensures Valid() && needed == Reduction(old(needed))
      ensures SameReach(old(needed), needed) && Minimal(needed)
    {
      ghost var g := needed;
      ghost var done: set<Lib> := {};
      assert Partial(g, {}) == g;
      for i := 0 to |libs|
        invariant Valid() && needed == Partial(g, done) && SameReach(g, needed)
        invariant forall x :: x in done <==> x in libs[..i]
      {
        PartialStep(g, done, libs[i]);
        PruneLib(libs[i]);
        done := done + {libs[i]};
        assert libs[..i + 1] == libs[..i] + [libs[i]];
      }
      assert libs[..|libs|] == libs;
      assert Partial(g, done) == Reduction(g);
      ReductionExact(g, needed);
    }

    /** What one library gives, against what each of the others needs. */
    method LinkUsers(table: map<Lib, Symbols>, libs: seq<Lib>, a: Lib)
      requires Valid() && needed.Keys == table.Keys && a in table && forall x :: x in table <==> x in libs
      modifies this
      ensures Valid() && needed == old(needed)[a := old(needed)[a] + Users(table, a)]
    {
      ghost var g := needed;
      for j := 0 to |libs|
        invariant Valid() && a in needed && needed == g[a := needed[a]]
        invariant forall y :: y in needed[a] <==> y in g[a] || (y in libs[..j] && Uses(table, a, y))
      {
        if Uses(table, a, libs[j]) { Link(a, libs[j]); }
        assert libs[..j + 1] == libs[..j] + [libs[j]];
      }
      assert libs[..|libs|] == libs;
      assert needed[a] == g[a] + Users(table, a);
    }

    method LinkAll(table: map<Lib, Symbols>, libs: seq<Lib>)
      requires Valid() && needed == Linked(table, {}) && forall x :: x in table <==> x in libs
      modifies this
      ensures Valid() && needed == UseGraph(table)
    {
      ghost var done: set<Lib> := {};
      for i := 0 to |libs|
        invariant Valid() && needed == Linked(table, done)
        invariant forall x :: x in done <==> x in libs[..i]
      {
        LinkUsers(table, libs, libs[i]);
        LinkedOne(table, done, libs[i]);
        done := done + {libs[i]};
        assert libs[..i + 1] == libs[..i] + [libs[i]];
      }
      assert libs[..|libs|] == libs;
      assert Linked(table, done) == UseGraph(table);
    }

    /** compute_graph: from symbols to the transitive reduction of who uses whom. */
    method ComputeGraph(table: map<Lib, Symbols>, libs: seq<Lib>)
      requires needed == needs == Linked(table, {}) && forall x :: x in table <==> x in libs
      requires Acyclic(UseGraph(table))
      modifies this
      ensures Valid() && needed == Reduction(UseGraph(table))
      ensures SameReach(UseGraph(table), needed) && Minimal(needed)
    {
      LinkAll(table, libs);
      PruneAll(libs);
    }
  }

  lemma BelowUser(g: Graph, cur: Lib, t: Lib, i: Lib)
    requires Closed(g) && Acyclic(g) && Edge(g, cur, i) && cur != t && !Reaches(g, cur, t)
    ensures i in g && i != t && !Reaches(g, i, t) && Reached(g, i) < Reached(g, cur)
  {
    EdgeReaches(g, cur, i);
    if Reaches(g, i, t) { Through(g, cur, i, t); }
    FewerReached(g, cur, i);
  }
}
