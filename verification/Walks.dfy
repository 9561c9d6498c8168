/** Walks, reachability and cycles over a finite set of directed edges between named nodes. */
module Walks {

  type Node = string
  type Edges = set<(Node, Node)>

  /** Consecutive nodes of p are joined by an edge. */
  ghost predicate Walk(e: Edges, p: seq<Node>) {
    forall i, j :: 0 <= i < |p| && j == i + 1 < |p| ==> (p[i], p[j]) in e
  }

  ghost predicate WalkFromTo(e: Edges, p: seq<Node>, u: Node, v: Node) {
    |p| > 0 && p[0] == u && p[|p| - 1] == v && Walk(e, p)
  }

  ghost predicate Reaches(e: Edges, u: Node, v: Node) {
    exists p :: WalkFromTo(e, p, u, v)
  }

  ghost predicate MutuallyReachable(e: Edges, u: Node, v: Node) {
    Reaches(e, u, v) && Reaches(e, v, u)
  }

  predicate Distinct<T(==)>(s: seq<T>) {
    forall i, j :: 0 <= i < j < |s| ==> s[i] != s[j]
  }

  /** The position after i on a ring of n positions. */
  function Next(n: nat, i: nat): nat
    requires i < n
  {
    if i + 1 == n then 0 else i + 1
  }

  /** The edge u -> v is one of the edges of the ring c. */
  ghost predicate OnRing(c: seq<Node>, u: Node, v: Node) {
    exists i {:trigger Next(|c|, i)} :: 0 <= i < |c| && c[i] == u && c[Next(|c|, i)] == v
  }

  /** c lists, once each, the nodes of a cycle of at least two nodes; the edge back to c[0] is implied. */
  ghost predicate SimpleCycle(e: Edges, c: seq<Node>) {
    && |c| >= 2
    && Distinct(c)
    && forall i {:trigger Next(|c|, i)} :: 0 <= i < |c| ==> (c[i], c[Next(|c|, i)]) in e
  }

  lemma EdgeReaches(e: Edges, u: Node, v: Node)
    requires (u, v) in e
    ensures Reaches(e, u, v)
  {
    assert WalkFromTo(e, [u, v], u, v);
  }

  lemma ReachesTransitive(e: Edges, u: Node, v: Node, w: Node)
    requires Reaches(e, u, v) && Reaches(e, v, w)
    ensures Reaches(e, u, w)
  {
    var p :| WalkFromTo(e, p, u, v);
    var q :| WalkFromTo(e, q, v, w);
    assert WalkFromTo(e, p + q[1..], u, w);
  }

  lemma WalkReaches(e: Edges, p: seq<Node>, i: nat, j: nat)
    requires Walk(e, p) && i <= j < |p|
    ensures Reaches(e, p[i], p[j])
  {
    assert WalkFromTo(e, p[i..j + 1], p[i], p[j]);
  }

  /** All nodes of a simple cycle reach each other. */
  lemma CycleMutual(e: Edges, c: seq<Node>, i: nat, j: nat)
    requires SimpleCycle(e, c) && i < |c| && j < |c|
    ensures Reaches(e, c[i], c[j])
  {
    assert Walk(e, c) by {
      forall k | 0 <= k < |c| - 1 ensures (c[k], c[k + 1]) in e {
        assert Next(|c|, k) == k + 1;
      }
    }
    if i <= j {
      WalkReaches(e, c, i, j);
    } else {
      var n := |c| - 1;
      WalkReaches(e, c, i, n);
      assert Next(|c|, n) == 0;
      EdgeReaches(e, c[n], c[0]);
      WalkReaches(e, c, 0, j);
      ReachesTransitive(e, c[i], c[n], c[0]);
      ReachesTransitive(e, c[i], c[0], c[j]);
    }
  }

  /**
   * Along a walk whose every edge either stays put or lowers the number of its node, the number never rises,
   * and it drops as soon as the walk ends somewhere else. This is the counting step behind both searches.
   */
  lemma {:induction false} NumbersDrop(e: Edges, number: map<Node, nat>, p: seq<Node>)
    requires |p| > 0 && Walk(e, p)
    requires p[0] in number
    requires forall i :: 0 <= i < |p| - 1 && p[i] in number && p[i] != p[i + 1] ==>
                           p[i + 1] in number && number[p[i + 1]] < number[p[i]]
    ensures p[|p| - 1] in number && number[p[|p| - 1]] <= number[p[0]]
    ensures p[|p| - 1] != p[0] ==> number[p[|p| - 1]] < number[p[0]]
  {
    if |p| > 1 {
      var q := p[1..];
      assert q[0] == p[0 + 1];
      forall i: nat | i < |q| - 1
        ensures (q[i], q[i + 1]) in e
        ensures q[i] in number && q[i] != q[i + 1] ==> q[i + 1] in number && number[q[i + 1]] < number[q[i]]
      {
        var k := i + 1;
        assert q[i] == p[k] && q[i + 1] == p[k + 1];
      }
      NumbersDrop(e, number, q);
      assert q[|q| - 1] == p[|p| - 1];
    }
  }

  // ---------------------------------------------------------------- depth-first search: the part both searches share

  type Graph = map<Node, set<Node>>

  ghost function EdgesOf(g: Graph): Edges {
    set u, v | u in g && v in g[u] :: (u, v)
  }

  ghost predicate Closed(g: Graph) {
    forall u, v :: u in g && v in g[u] ==> v in g
  }

  ghost predicate StackOk(g: Graph, active: set<Node>, stack: seq<Node>) {
    && Distinct(stack)
    && (forall x :: x in stack <==> x in active)
    && active <= g.Keys
    && (forall i, j :: 0 <= i < |stack| && j == i + 1 < |stack| ==> stack[i] in g && stack[j] in g[stack[i]])
  }

  /** The finished nodes are numbered in the order in which they finished. */
  ghost predicate NumberedBy(seen: set<Node>, number: map<Node, nat>) {
    number.Keys == seen && forall u :: u in number ==> number[u] < |number|
  }

  lemma PushKeepsStack(g: Graph, active: set<Node>, stack: seq<Node>, node: Node)
    requires StackOk(g, active, stack) && node in g && node !in active
    requires stack != [] ==> node in g[stack[|stack| - 1]]
    ensures StackOk(g, active + {node}, stack + [node])
  {
  }

  lemma PopKeepsStack(g: Graph, active: set<Node>, stack: seq<Node>)
    requires StackOk(g, active, stack) && stack != []
    ensures StackOk(g, active - {stack[|stack| - 1]}, stack[..|stack| - 1])
  {
  }

  method IndexOf(s: seq<Node>, x: Node) returns (i: nat)
    requires x in s
    ensures i < |s| && s[i] == x && x !in s[..i]
  {
    i := 0;
    while s[i] != x
      invariant i < |s| && x in s[i..] && x !in s[..i]
      decreases |s| - i
    {
      i := i + 1;
    }
  }
}
