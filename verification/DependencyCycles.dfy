/**
 * The cycle search of the architecture audit: a depth-first search over shared mutable sets that reports one
 * canonical rotation of every cycle closed by a back edge.
 */
module DependencyCycles {
  import opened Walks
  import opened Order
  import opened Sorting

  // ---------------------------------------------------------------- rotations of a ring

  function Rotate(ring: seq<Node>, k: nat): seq<Node>
    requires k <= |ring|
  {
    ring[k..] + ring[..k]
  }

  /** r is the rotation of ring that Python's min() picks. */
  ghost predicate IsCanonical(r: seq<Node>, ring: seq<Node>) {
    && (exists k :: 0 <= k < |ring| && r == Rotate(ring, k))
    && (forall k :: 0 <= k < |ring| ==> !TupleLess(Rotate(ring, k), r))
  }

  /** No rotation of r is smaller than r itself. */
  ghost predicate RotationMinimal(r: seq<Node>) {
    forall k :: 0 <= k < |r| ==> !TupleLess(Rotate(r, k), r)
  }

  lemma RotateRotate(ring: seq<Node>, j: nat, k: nat)
    requires j < |ring| && k < |ring|
    ensures j + k < |ring| ==> Rotate(Rotate(ring, j), k) == Rotate(ring, j + k)
    ensures j + k >= |ring| ==> Rotate(Rotate(ring, j), k) == Rotate(ring, j + k - |ring|)
  {
  }

  /** Rotations of one ring are rotations of each other. */
  lemma RotationBack(ring: seq<Node>, j: nat, k: nat) returns (d: nat)
    requires j < |ring| && k < |ring|
    ensures d < |ring| && Rotate(Rotate(ring, j), d) == Rotate(ring, k)
  {
    d := if j <= k then k - j else k + |ring| - j;
    RotateRotate(ring, j, d);
  }

  lemma CanonicalIsMinimal(r: seq<Node>, ring: seq<Node>)
    requires IsCanonical(r, ring)
    ensures |r| == |ring| && RotationMinimal(r)
  {
    var j :| 0 <= j < |ring| && r == Rotate(ring, j);
    forall k | 0 <= k < |r| ensures !TupleLess(Rotate(r, k), r) {
      RotateRotate(ring, j, k);
    }
  }

  /** Two rotation-minimal tuples that are rotations of each other are the same tuple: no cycle is listed twice. */
  lemma MinimalRotationUnique(r: seq<Node>, k: nat)
    requires k < |r| && RotationMinimal(r) && RotationMinimal(Rotate(r, k))
    ensures Rotate(r, k) == r
  {
    var s := Rotate(r, k);
    assert Rotate(r, 0) == r;
    var d := RotationBack(r, k, 0);
    TupleLessStrictTotal();
    assert !TupleLess(Rotate(s, d), s);
  }

  /** Turning a ring changes neither its edges nor that it is a simple cycle. */
  lemma RotatePreserves(e: Edges, ring: seq<Node>, k: nat)
    requires k < |ring|
    ensures SimpleCycle(e, ring) ==> SimpleCycle(e, Rotate(ring, k))
    ensures forall u, v :: OnRing(ring, u, v) ==> OnRing(Rotate(ring, k), u, v)
  {
    var r, n := Rotate(ring, k), |ring|;
    forall i | 0 <= i < n
      ensures r[i] == ring[if i + k < n then i + k else i + k - n]
      ensures r[Next(n, i)] == ring[Next(n, if i + k < n then i + k else i + k - n)]
    {
    }
    forall u, v | OnRing(ring, u, v) ensures OnRing(r, u, v) {
      var i :| 0 <= i < n && ring[i] == u && ring[Next(n, i)] == v;
      var j := if k <= i then i - k else i + n - k;
      assert r[j] == u && r[Next(n, j)] == v;
    }
  }

  method Canonical(ring: seq<Node>) returns (best: seq<Node>)
    requires ring != []
    ensures IsCanonical(best, ring)
  {
    TupleLessStrictTotal();
    best := Rotate(ring, 0);
    for i := 1 to |ring|
      invariant exists k :: 0 <= k < |ring| && best == Rotate(ring, k)
      invariant forall k :: 0 <= k < i ==> !TupleLess(Rotate(ring, k), best)
    {
      if TupleLess(Rotate(ring, i), best) {
        best := Rotate(ring, i);
      }
    }
  }

  // ---------------------------------------------------------------- what the search keeps true

  ghost predicate Reported(cycles: set<seq<Node>>, u: Node, v: Node) {
    exists c :: c in cycles && OnRing(c, u, v)
  }

  /** An edge u -> v from a finished node stays put, leads to a node finished earlier, or lies on a reported cycle. */
  ghost predicate Explained(g: Graph, number: map<Node, nat>, cycles: set<seq<Node>>, u: Node, v: Node) {
    u in number && u in g && v in g[u] ==>
      u == v || (v in number && number[v] < number[u]) || Reported(cycles, u, v)
  }

  /** What visiting the target t of the edge node -> t establishes, so that node can be finished. */
  ghost predicate Done(seen: set<Node>, cycles: set<seq<Node>>, node: Node, t: Node) {
    t == node || t in seen || Reported(cycles, node, t)
  }

  ghost predicate AllExplained(g: Graph, number: map<Node, nat>, cycles: set<seq<Node>>) {
    forall u, v :: Explained(g, number, cycles, u, v)
  }

  ghost predicate Genuine(g: Graph, c: seq<Node>) {
    SimpleCycle(EdgesOf(g), c) && RotationMinimal(c)
  }

  ghost predicate GenuineCycles(g: Graph, cycles: set<seq<Node>>) {
    forall c {:trigger Genuine(g, c)} :: c in cycles ==> Genuine(g, c)
  }

  /** Finishing a node whose every edge is dealt with keeps every finished edge explained. */
  lemma FinishExplains(g: Graph, number: map<Node, nat>, cycles: set<seq<Node>>, node: Node)
    requires AllExplained(g, number, cycles) && NumberedBy(number.Keys, number)
    requires node in g && node !in number
    requires forall t :: t in g[node] ==> Done(number.Keys, cycles, node, t)
    ensures AllExplained(g, number[node := |number|], cycles)
    ensures NumberedBy(number.Keys + {node}, number[node := |number|])
  {
    var after := number[node := |number|];
    forall u, v ensures Explained(g, after, cycles, u, v) {
      assert Explained(g, number, cycles, u, v);
    }
  }

  lemma MoreCyclesExplain(g: Graph, number: map<Node, nat>, cycles: set<seq<Node>>, more: set<seq<Node>>)
    requires AllExplained(g, number, cycles) && cycles <= more
    ensures AllExplained(g, number, more)
  {
    forall u, v ensures Explained(g, number, more, u, v) {
      assert Explained(g, number, cycles, u, v);
    }
  }

  lemma RingIsCycle(g: Graph, active: set<Node>, stack: seq<Node>, idx: nat)
    requires StackOk(g, active, stack) && idx + 1 < |stack| && stack[idx] in g[stack[|stack| - 1]]
    ensures SimpleCycle(EdgesOf(g), stack[idx..])
    ensures OnRing(stack[idx..], stack[|stack| - 1], stack[idx])
  {
    var ring := stack[idx..];
    var n := |ring|;
    forall i | 0 <= i < n ensures (ring[i], ring[Next(n, i)]) in EdgesOf(g) {
      if i + 1 < n {
        assert stack[idx + i + 1] in g[stack[idx + i]];
      }
    }
    assert ring[n - 1] == stack[|stack| - 1] && ring[Next(n, n - 1)] == stack[idx];
  }

  /** Adding the canonical rotation of a simple ring keeps the cycles genuine and reports the ring's edges. */
  lemma NewCycle(g: Graph, cycles: set<seq<Node>>, ring: seq<Node>, c: seq<Node>)
    requires GenuineCycles(g, cycles) && SimpleCycle(EdgesOf(g), ring) && IsCanonical(c, ring)
    ensures GenuineCycles(g, cycles + {c})
    ensures forall u, v :: OnRing(ring, u, v) ==> Reported(cycles + {c}, u, v)
  {
    var k :| 0 <= k < |ring| && c == Rotate(ring, k);
    RotatePreserves(EdgesOf(g), ring, k);
    CanonicalIsMinimal(c, ring);
    forall d | d in cycles + {c} ensures Genuine(g, d) {
    }
  }

  // ---------------------------------------------------------------- the search

  /** The variables that the nested function visit shares with its caller. */
  class CycleSearch {
    const graph: Graph
    var active: set<Node>
    var stack: seq<Node>
    var seen: set<Node>
    var cycles: set<seq<Node>>
    ghost var number: map<Node, nat>

    constructor (graph: Graph)
      requires Closed(graph)
      ensures this.graph == graph && Valid() && stack == [] && seen == {} && cycles == {}
    {
      this.graph := graph;
      active, stack, seen, cycles, number := {}, [], {}, {}, map[];
    }

    ghost predicate Valid()
      reads this
    {
      && Closed(graph)
      && StackOk(graph, active, stack)
      && active !! seen && seen <= graph.Keys
      && NumberedBy(seen, number)
      && GenuineCycles(graph, cycles)
      && AllExplained(graph, number, cycles)
    }

    method Visit(node: Node)
      requires Valid() && node in graph
      requires stack != [] ==> node in graph[stack[|stack| - 1]]
      modifies this
      ensures Valid() && active == old(active) && stack == old(stack)
      ensures old(seen) <= seen && old(cycles) <= cycles
      ensures if stack == [] then node in seen else Done(seen, cycles, stack[|stack| - 1], node)
      decreases graph.Keys - active - seen, 1
    {
      if node in active {
        ReportBackEdge(node);
        return;
      }
      if node in seen {
        return;
      }
      Expand(node);
    }

    /** The rest of visit, for a node met for the first time. */
    method Expand(node: Node)
      requires Valid() && node in graph && node !in active + seen
      requires stack != [] ==> node in graph[stack[|stack| - 1]]
      modifies this
      ensures Valid() && active == old(active) && stack == old(stack)
      ensures old(seen) + {node} <= seen && old(cycles) <= cycles
      decreases graph.Keys - active - seen, 0
    {
      Enter(node);
      VisitTargets(node);
      Leave(node);
      assert old(stack) + [node] != [] && (old(stack) + [node])[..|old(stack)|] == old(stack);
    }

    method Enter(node: Node)
      requires Valid() && node in graph && node !in active + seen
      requires stack != [] ==> node in graph[stack[|stack| - 1]]
      modifies this`active, this`stack
      ensures Valid() && active == old(active) + {node} && stack == old(stack) + [node]
      ensures graph.Keys - active - seen < old(graph.Keys - active - seen)
    {
      PushKeepsStack(graph, active, stack, node);
      assert node in graph.Keys - active - seen;
      active, stack := active + {node}, stack + [node];
    }

    method Leave(node: Node)
      requires Valid() && stack != [] && stack[|stack| - 1] == node
      requires forall t :: t in graph[node] ==> Done(seen, cycles, node, t)
      modifies this`active, this`stack, this`seen, this`number
      ensures Valid() && active == old(active) - {node} && stack == old(stack)[..|old(stack)| - 1]
      ensures seen == old(seen) + {node}
    {
      PopKeepsStack(graph, active, stack);
      FinishExplains(graph, number, cycles, node);
      stack := stack[..|stack| - 1];
      active := active - {node};
      seen := seen + {node};
      number := number[node := |number|];
    }

    /** The loop of visit over the sorted targets of the node on top of the stack. */
    method VisitTargets(node: Node)
      requires Valid() && stack != [] && stack[|stack| - 1] == node
      modifies this
      ensures Valid() && active == old(active) && stack == old(stack)
      ensures old(seen) <= seen && old(cycles) <= cycles
      ensures forall t :: t in graph[node] ==> Done(seen, cycles, node, t)
      decreases graph.Keys - active - seen, 2
    {
      var targets := SortedNames(graph[node]);
      for i := 0 to |targets|
        invariant Valid() && active == old(active) && stack == old(stack)
        invariant old(seen) <= seen && old(cycles) <= cycles
        invariant forall j :: 0 <= j < i ==> Done(seen, cycles, node, targets[j])
      {
        ghost var seenBefore, cyclesBefore := seen, cycles;
        assert targets[i] in targets && targets[i] in graph;
        Visit(targets[i]);
        forall j | 0 <= j < i ensures Done(seen, cycles, node, targets[j]) {
          assert Done(seenBefore, cyclesBefore, node, targets[j]);
        }
      }
    }

    /** stack.index(node) closes a cycle; a self-loop (len(cycle) == 2 in the source) is not reported. */
    method ReportBackEdge(node: Node)
      requires Valid() && node in active && stack != [] && node in graph[stack[|stack| - 1]]
      modifies this`cycles
      ensures Valid() && old(cycles) <= cycles
      ensures node != stack[|stack| - 1] ==> Reported(cycles, stack[|stack| - 1], node)
    {
      assert node in stack;
      var idx := IndexOf(stack, node);
      if |stack| - idx + 1 > 2 {
        RingIsCycle(graph, active, stack, idx);
        var c := Canonical(stack[idx..]);
        NewCycle(graph, cycles, stack[idx..], c);
        MoreCyclesExplain(graph, number, cycles, cycles + {c});
        cycles := cycles + {c};
      }
    }
  }

  // ---------------------------------------------------------------- the whole report

  type DependencyEdge = (Node, Node)

  ghost function Targets(edges: seq<DependencyEdge>): Edges { set d | d in edges }

  /** graph.setdefault(source, set()).add(target) and graph.setdefault(target, set()). */
  function AddEdge(g: Graph, source: Node, target: Node): (r: Graph)
    requires Closed(g)
    ensures Closed(r) && EdgesOf(r) == EdgesOf(g) + {(source, target)}
  {
    var g1 := g[source := (if source in g then g[source] else {}) + {target}];
    g1[target := if target in g1 then g1[target] else {}]
  }

  /** The adjacency sets that the first loop of _cycles collects. */
  method BuildGraph(edges: seq<DependencyEdge>) returns (g: Graph)
    ensures Closed(g) && EdgesOf(g) == Targets(edges)
  {
    g := map[];
    for i := 0 to |edges|
      invariant Closed(g) && EdgesOf(g) == Targets(edges[..i])
    {
      assert edges[..i + 1] == edges[..i] + [edges[i]];
      g := AddEdge(g, edges[i].0, edges[i].1);
    }
    assert edges[..|edges|] == edges;
  }

  /** Some reported cycle runs entirely among the nodes that u reaches and that reach u. */
  ghost predicate ComponentReported(e: Edges, cycles: set<seq<Node>>, u: Node) {
    exists c :: c in cycles && forall x :: x in c ==> MutuallyReachable(e, u, x)
  }

  /** A walk that leaves its starting node without a drop in finishing numbers crosses a reported edge. */
  lemma WalkCrossesReported(g: Graph, number: map<Node, nat>, cycles: set<seq<Node>>, p: seq<Node>)
    returns (i: nat)
    requires Closed(g) && number.Keys == g.Keys && AllExplained(g, number, cycles)
    requires |p| > 0 && Walk(EdgesOf(g), p) && p[0] in number
    requires p[|p| - 1] in number ==> number[p[|p| - 1]] >= number[p[0]]
    requires p[|p| - 1] != p[0]
    ensures i + 1 < |p| && Reported(cycles, p[i], p[i + 1])
  {
    if forall k :: 0 <= k < |p| - 1 ==> !Reported(cycles, p[k], p[k + 1]) {
      forall k | 0 <= k < |p| - 1 && p[k] in number && p[k] != p[k + 1]
        ensures p[k + 1] in number && number[p[k + 1]] < number[p[k]]
      {
        assert (p[k], p[k + 1]) in EdgesOf(g);
        assert Explained(g, number, cycles, p[k], p[k + 1]);
      }
      NumbersDrop(EdgesOf(g), number, p);
      assert false;
    }
    i :| 0 <= i < |p| - 1 && Reported(cycles, p[i], p[i + 1]);
  }

  /** When every edge is explained, each pair of nodes that reach each other has a reported cycle in its component. */
  lemma ExplainedIsComplete(g: Graph, number: map<Node, nat>, cycles: set<seq<Node>>, u: Node, v: Node)
    requires Closed(g) && number.Keys == g.Keys
    requires AllExplained(g, number, cycles) && GenuineCycles(g, cycles)
    requires u != v && MutuallyReachable(EdgesOf(g), u, v)
    ensures ComponentReported(EdgesOf(g), cycles, u)
  {
    var e := EdgesOf(g);
    var there :| WalkFromTo(e, there, u, v);
    var back :| WalkFromTo(e, back, v, u);
    assert (there[0], there[1]) in e && (back[0], back[1]) in e;
    var up := number[u] <= number[v];
    var p := if up then there else back;
    var i := WalkCrossesReported(g, number, cycles, p);
    WalkReaches(e, p, 0, i);
    WalkReaches(e, p, i, |p| - 1);
    var c :| c in cycles && OnRing(c, p[i], p[i + 1]);
    assert Genuine(g, c);
    var k :| 0 <= k < |c| && c[k] == p[i];
    if !up {
      ReachesTransitive(e, u, v, p[i]);
    } else {
      ReachesTransitive(e, p[i], v, u);
    }
    forall x | x in c ensures MutuallyReachable(e, u, x) {
      var j :| 0 <= j < |c| && c[j] == x;
      CycleMutual(e, c, k, j);
      CycleMutual(e, c, j, k);
      ReachesTransitive(e, u, p[i], x);
      ReachesTransitive(e, x, p[i], u);
    }
  }

  ghost predicate Acyclic(e: Edges) {
    forall c :: !SimpleCycle(e, c)
  }

  /**
   * The report: only genuine cycles, each in its one minimal rotation, and at least one in every component of two or
   * more mutually reachable nodes; so the report is empty exactly when the graph has no cycle of two or more nodes.
   */
  method Cycles(edges: seq<DependencyEdge>) returns (report: seq<seq<Node>>)
    ensures forall c :: c in report ==> SimpleCycle(Targets(edges), c) && RotationMinimal(c)
    ensures SortedBy(TupleLess, report)
    ensures forall c, k :: c in report && 0 <= k < |c| && Rotate(c, k) in report ==> Rotate(c, k) == c
    ensures forall u, v :: u != v && MutuallyReachable(Targets(edges), u, v) ==>
                             exists c :: c in report && forall x :: x in c ==> MutuallyReachable(Targets(edges), u, x)
    ensures report == [] <==> Acyclic(Targets(edges))
  {
    var graph := BuildGraph(edges);
    var cycles := SearchAll(graph);
    TupleLessStrictTotal();
    report := Sorted(TupleLess, cycles);
    forall c | c in report ensures SimpleCycle(Targets(edges), c) && RotationMinimal(c) {
      assert Genuine(graph, c);
    }
    forall c, k | c in report && 0 <= k < |c| && Rotate(c, k) in report ensures Rotate(c, k) == c {
      assert Genuine(graph, c) && Genuine(graph, Rotate(c, k));
      MinimalRotationUnique(c, k);
    }
    forall u, v | u != v && MutuallyReachable(Targets(edges), u, v)
      ensures exists c :: c in report && forall x :: x in c ==> MutuallyReachable(Targets(edges), u, x)
    {
      assert ComponentReported(EdgesOf(graph), cycles, u);
    }
    if report == [] {
      EmptyMeansAcyclic(Targets(edges), cycles);
    } else {
      assert Genuine(graph, report[0]);
    }
  }

  lemma EmptyMeansAcyclic(e: Edges, cycles: set<seq<Node>>)
    requires cycles == {}
    requires forall u, v :: u != v && MutuallyReachable(e, u, v) ==> ComponentReported(e, cycles, u)
    ensures Acyclic(e)
  {
    forall c | SimpleCycle(e, c) ensures false {
      CycleMutual(e, c, 0, 1);
      CycleMutual(e, c, 1, 0);
      assert c[0] != c[1] && MutuallyReachable(e, c[0], c[1]);
    }
  }

  /** The outer loop of _cycles: start the search at every node, in order. */
  method SearchAll(graph: Graph) returns (cycles: set<seq<Node>>)
    requires Closed(graph)
    ensures GenuineCycles(graph, cycles)
    ensures forall u, v :: u != v && MutuallyReachable(EdgesOf(graph), u, v) ==>
                             ComponentReported(EdgesOf(graph), cycles, u)
  {
    var search := new CycleSearch(graph);
    VisitAll(search);
    cycles := search.cycles;
    forall u, v | u != v && MutuallyReachable(EdgesOf(graph), u, v)
      ensures ComponentReported(EdgesOf(graph), cycles, u)
    {
      ExplainedIsComplete(graph, search.number, cycles, u, v);
    }
  }

  method VisitAll(search: CycleSearch)
    requires search.Valid() && search.stack == [] && search.active == {}
    modifies search
    ensures search.Valid() && search.stack == [] && search.active == {} && search.graph.Keys <= search.seen
  {
    var nodes := SortedNames(search.graph.Keys);
    for i := 0 to |nodes|
      invariant search.Valid() && search.stack == [] && search.active == {}
      invariant forall j :: 0 <= j < i ==> nodes[j] in search.seen
    {
      assert nodes[i] in nodes;
      search.Visit(nodes[i]);
    }
  }

  // ---------------------------------------------------------------- sorted() on a set of strings

  method SortedNames(names: set<string>) returns (r: seq<string>)
    ensures (forall x :: x in r <==> x in names) && SortedBy(StrLess, r)
  {
    StrLessStrictTotal();
    r := Sorted(StrLess, names);
  }
}
