/** The intrusive circular list of ccan: nodes in the heap, linked both ways. */
module CcanList {

  /** struct list_node, initialised to a ring of its own. */
  class Node {
    var next: Node
    var prev: Node

    constructor ()
      ensures next == this && prev == this
    {
      next, prev := this, this;
    }
  }

  ghost predicate Distinct(s: seq<Node>) {
    forall i, j :: 0 <= i < j < |s| ==> s[i] != s[j]
  }

  /** Each node leads to the one after it and back. */
  ghost predicate Chain(s: seq<Node>)
    reads s
  {
    forall i, j :: 0 <= i && j == i + 1 < |s| ==> s[i].next == s[j] && s[j].prev == s[i]
  }

  /** The nodes of one list, its head first. */
  ghost predicate Ring(s: seq<Node>)
    reads s
  {
    |s| > 0 && Distinct(s) && Chain(s) && s[|s| - 1].next == s[0] && s[0].prev == s[|s| - 1]
  }

  // ------------------------------------------------------------ list_check

  /** A ring that starts at a node is the only way to go on from it. */
  lemma {:induction false} RingFollowed(s: seq<Node>, path: seq<Node>)
    requires Ring(s) && |path| > 0 && path[0] == s[0] && Distinct(path) && Chain(path)
    ensures path <= s
  {
    var n := |path| - 1;
    if n > 0 {
      RingFollowed(s, path[..n]);
      assert path[n - 1].next == path[n] && path[n] != path[0];
    }
  }

  /** No node has two predecessors that both follow it back. */
  lemma NewNode(path: seq<Node>, n: Node)
    requires |path| > 0 && Distinct(path) && Chain(path) && n.prev == path[|path| - 1] && n != path[0]
    ensures n !in path
  {
    forall j | 0 <= j < |path| ensures path[j] != n {
      if j > 0 { assert path[j].prev == path[j - 1]; }
    }
  }

  /** On a ring, going one step on and back leads to the same node. */
  lemma RingGoesOn(path: seq<Node>, s: seq<Node>)
    requires |path| > 0 && Distinct(path) && Chain(path) && Ring(s) && s[0] == path[0]
    ensures path[|path| - 1].next.prev == path[|path| - 1]
  {
    RingFollowed(s, path);
    var n := |path| - 1;
    assert s[n] == path[n];
    if n + 1 < |s| { assert s[n].next == s[n + 1]; }
  }

  lemma NoRing(path: seq<Node>, node: Node, p: Node)
    requires |path| > 0 && Distinct(path) && Chain(path) && path[0] == node && path[|path| - 1] == p
    requires p.next.prev != p
    ensures !exists s: seq<Node> :: Ring(s) && s[0] == node
  {
    forall s: seq<Node> | Ring(s) && s[0] == node ensures false { RingGoesOn(path, s); }
  }

  /** list_check_node: on any nodes closed under `next` it looks at no more of them than
      there are, and it succeeds exactly on rings. */
  method CheckNode(node: Node, ghost nodes: set<Node>) returns (ok: bool, count: nat)
    requires node in nodes && forall x :: x in nodes ==> x.next in nodes
    ensures count <= |nodes|
    ensures ok <==> exists s: seq<Node> :: Ring(s) && s[0] == node
  {
    var p, n := node, node.next;
    ghost var path, rest := [node], nodes - {node};
    count := 0;
    while n != node
      invariant n in nodes && |path| > 0 && path[0] == node && p == path[|path| - 1] && n == p.next
      invariant Distinct(path) && Chain(path)
      invariant rest == nodes - (set x | x in path) && count + |rest| == |nodes| - 1
      decreases rest
    {
      count := count + 1;
      if n.prev != p {
        NoRing(path, node, p);
        return false, count;
      }
      NewNode(path, n);
      path, rest := path + [n], rest - {n};
      p, n := n, n.next;
    }
    ok := node.prev == p;
    if ok { assert Ring(path); }
    else { NoRing(path, node, p); }
  }

  // ------------------------------------------------------------ operations

  /** The ring with `n` after the node at `i`. */
  ghost function Inserted(s: seq<Node>, i: nat, n: Node): seq<Node>
    requires i < |s|
  {
    s[..i + 1] + [n] + s[i + 1..]
  }

  method AddAfter(p: Node, n: Node, ghost s: seq<Node>, ghost i: nat)
    requires Ring(s) && i < |s| && s[i] == p && n !in s
    modifies p`next, n, p.next`prev
    ensures Ring(Inserted(s, i, n))
  {
    ghost var r := Inserted(s, i, n);
    assert i + 1 < |s| ==> s[i].next == s[i + 1];
    n.next := p.next;
    n.prev := p;
    p.next.prev := n;
    p.next := n;
    assert forall x :: 0 <= x < |r| ==> r[x] == if x <= i then s[x] else if x == i + 1 then n else s[x - 1];
    assert Distinct(r);
    assert Chain(r);
  }

  method AddBefore(p: Node, n: Node, ghost s: seq<Node>, ghost i: nat)
    requires Ring(s) && i < |s| && s[i] == p && n !in s
    modifies p`prev, n, p.prev`next
    ensures Ring(Inserted(s, if i == 0 then |s| - 1 else i - 1, n))
  {
    ghost var k := if i == 0 then |s| - 1 else i - 1;
    ghost var r := Inserted(s, k, n);
    assert p.prev == s[k] by { assert i > 0 ==> s[i].prev == s[i - 1]; }
    n.next := p;
    n.prev := p.prev;
    p.prev.next := n;
    p.prev := n;
    assert forall x :: 0 <= x < |r| ==> r[x] == if x <= k then s[x] else if x == k + 1 then n else s[x - 1];
    assert Distinct(r);
    assert Chain(r);
  }

  /** list_del: a node that is alone stays as it is. */
  method Del(n: Node, ghost s: seq<Node>, ghost i: nat)
    requires Ring(s) && i < |s| && s[i] == n
    modifies n.next`prev, n.prev`next
    ensures |s| > 1 ==> Ring(s[..i] + s[i + 1..])
    ensures |s| == 1 ==> Ring(s)
  {
    assert i + 1 < |s| ==> s[i].next == s[i + 1];
    assert i > 0 ==> s[i].prev == s[i - 1];
    n.next.prev := n.prev;
    n.prev.next := n.next;
  }

  method DelInit(n: Node, ghost s: seq<Node>, ghost i: nat)
    requires Ring(s) && i < |s| && s[i] == n
    modifies n, n.next`prev, n.prev`next
    ensures |s| > 1 ==> Ring(s[..i] + s[i + 1..])
    ensures Ring([n])
  {
    Del(n, s, i);
    ghost var rest := s[..i] + s[i + 1..];
    assert n !in rest;
    n.next, n.prev := n, n;
  }

  /** list_swap: the new node takes the old one's place; an old node that is alone ends up
      in a list with it. */
  method Swap(o: Node, n: Node, ghost s: seq<Node>, ghost i: nat)
    requires Ring(s) && i < |s| && s[i] == o && n !in s
    modifies n, o.next`prev, o.prev`next
    ensures |s| > 1 ==> Ring(s[i := n])
    ensures |s| == 1 ==> Ring([o, n])
  {
    assert i + 1 < |s| ==> s[i].next == s[i + 1];
    assert i > 0 ==> s[i].prev == s[i - 1];
    n.next, n.prev := o.next, o.prev;
    n.next.prev := n;
    n.prev.next := n;
  }

  method Empty(h: Node, ghost s: seq<Node>) returns (r: bool)
    requires Ring(s) && s[0] == h
    ensures r <==> s == [h]
  {
    assert |s| > 1 ==> s[0].next == s[1];
    r := h.next == h;
  }

  method Pop(h: Node, ghost s: seq<Node>) returns (r: Node?)
    requires Ring(s) && s[0] == h
    modifies h`next, h.next.next`prev
    ensures s == [h] ==> r == null && Ring(s)
    ensures s != [h] ==> |s| > 1 && r == s[1] && Ring([h] + s[2..])
  {
    var empty := Empty(h, s);
    if empty { return null; }
    assert s[0].next == s[1] && s[1].prev == s[0];
    var n := h.next;
    assert s[..1] + s[2..] == [h] + s[2..];
    Del(n, s, 1);
    r := n;
  }

  ghost predicate Apart(s: seq<Node>, t: seq<Node>) {
    forall i, j :: 0 <= i < |s| && 0 <= j < |t| ==> s[i] != t[j]
  }

  /** A list's head and nodes are sewn in after those of another list, and the head taken out. */
  method AppendList(to: Node, from: Node, ghost s: seq<Node>, ghost t: seq<Node>)
    requires Ring(s) && Ring(t) && s[0] == to && t[0] == from && Apart(s, t)
    modifies to`prev, from, to.prev`next, from.prev`next, from.next`prev
    ensures Ring(s + t[1..]) && Ring([from])
  {
    assert |t| > 1 ==> t[0].next == t[1];
    var fromTail, toTail := from.prev, to.prev;
    to.prev := fromTail;
    fromTail.next := to;
    toTail.next := from;
    from.prev := toTail;
    ghost var all := s + t;
    assert Distinct(all);
    assert Chain(all);
    assert Ring(all) && all[|s|] == from;
    assert all[..|s|] + all[|s| + 1..] == s + t[1..];
    DelInit(from, all, |s|);
  }

  /** The writes that sew a list, its head first, in after the head of another. */
  method SewIn(to: Node, from: Node, ghost s: seq<Node>, ghost t: seq<Node>)
    requires Ring(s) && Ring(t) && s[0] == to && t[0] == from && Apart(s, t)
    modifies to`next, from`prev, to.next`prev, from.prev`next
    ensures Ring([to] + t + s[1..])
  {
    assert |s| > 1 ==> s[0].next == s[1];
    var fromTail, toHead := from.prev, to.next;
    to.next := from;
    from.prev := to;
    toHead.prev := fromTail;
    fromTail.next := toHead;
    ghost var all := [to] + t + s[1..];
    assert forall k :: 0 <= k < |all| ==> all[k] == if k == 0 then to else if k <= |t| then t[k - 1] else s[k - |t|];
    assert Distinct(all);
    assert Chain(all);
  }

  method PrependList(to: Node, from: Node, ghost s: seq<Node>, ghost t: seq<Node>)
    requires Ring(s) && Ring(t) && s[0] == to && t[0] == from && Apart(s, t)
    modifies to`next, from, to.next`prev, from.prev`next, from.next`prev
    ensures Ring([to] + t[1..] + s[1..]) && Ring([from])
  {
    assert |t| > 1 ==> t[0].next == t[1];
    assert |s| > 1 ==> s[0].next == s[1];
    SewIn(to, from, s, t);
    ghost var all := [to] + t + s[1..];
    assert all[0] == to && all[1] == from;
    assert |all| > 2 ==> all[2] == if |t| > 1 then t[1] else s[1];
    assert all[..1] + all[2..] == [to] + t[1..] + s[1..];
    DelInit(from, all, 1);
  }
}
