/** How many switches a search has not been to yet. */
module Visits {

  function Unvisited(vis: seq<bool>): (c: nat)
    ensures c <= |vis|
  {
    if vis == [] then 0 else Unvisited(vis[1..]) + if vis[0] then 0 else 1
  }

  lemma {:induction false} VisitOne(vis: seq<bool>, v: nat)
    requires v < |vis| && !vis[v]
    ensures Unvisited(vis[v := true]) == Unvisited(vis) - 1
  {
    if v == 0 { assert vis[v := true][1..] == vis[1..]; }
    else {
      assert vis[v := true][1..] == vis[1..][v - 1 := true];
      VisitOne(vis[1..], v - 1);
    }
  }

  lemma {:induction false} NoneVisited(vis: seq<bool>)
    requires forall v :: 0 <= v < |vis| ==> !vis[v]
    ensures Unvisited(vis) == |vis|
  {
    if vis != [] { NoneVisited(vis[1..]); }
  }
}
