/** The architecture alignment plan: its dependency search, and how it orders the tranches. */
module AlignmentPlan {
  import opened Walks
  import opened Wrappers

  // ---------------------------------------------------------------- dependency search

  type Dependencies = map<Node, seq<Node>>

  ghost predicate DependsOn(deps: Dependencies, u: Node, v: Node) {
    u in deps && v in deps[u]
  }

  ghost function DependencyEdges(deps: Dependencies): Edges {
    set k, d | k in deps && d in deps[k] :: (k, d)
  }

  /** g has a node for every key and every dependency, and exactly the edges of deps. */
  ghost predicate Mirrors(g: Graph, deps: Dependencies) {
    forall u, v {:trigger DependsOn(deps, u, v)} :: u in g ==> (v in g[u] <==> DependsOn(deps, u, v))
  }

  ghost function GraphOf(keys: seq<Node>, deps: Dependencies): (g: Graph)
    ensures Closed(g) && Mirrors(g, deps) && EdgesOf(g) == DependencyEdges(deps)
    ensures forall k :: k in keys ==> k in g
  {
    map u | u in (set k | k in keys) + deps.Keys + (set k, d | k in deps && d in deps[k] :: d) ::
      if u in deps then set d | d in deps[u] else {}
  }

  /** A walk of at least one edge that returns to its first node: the search returns stack[idx:] + [key]. */
  ghost predicate ClosedWalk(e: Edges, c: seq<Node>) {
    |c| >= 2 && c[0] == c[|c| - 1] && Walk(e, c)
  }

  /** Every numbered node depends only on nodes with smaller numbers: the numbers give a topological order. */
  ghost predicate Topological(e: Edges, number: map<Node, nat>) {
    forall u, v {:trigger (u, v) in e} :: (u, v) in e && u in number ==> v in number && number[v] < number[u]
  }

  ghost predicate Orderable(e: Edges, keys: seq<Node>) {
    exists number :: (forall k :: k in keys ==> k in number) && Topological(e, number)
  }

  /** An order excludes every closed walk that the ordered nodes can reach. */
  lemma OrderExcludesCycles(e: Edges, number: map<Node, nat>, k: Node, c: seq<Node>)
    requires Topological(e, number) && k in number && ClosedWalk(e, c)
    ensures !Reaches(e, k, c[0])
  {
    if Reaches(e, k, c[0]) {
      var p :| WalkFromTo(e, p, k, c[0]);
      NumbersDrop(e, number, p);
      assert (c[0], c[1]) in e;
      NumbersDrop(e, number, c[1..]);
      assert false;
    }
  }

  /** A finished node's dependencies were all finished before it. */
  ghost predicate Ordered(g: Graph, number: map<Node, nat>, u: Node, v: Node) {
    u in number && u in g && v in g[u] ==> v in number && number[v] < number[u]
  }

  ghost predicate AllOrdered(g: Graph, number: map<Node, nat>) {
    forall u, v :: Ordered(g, number, u, v)
  }

  lemma FinishOrders(g: Graph, number: map<Node, nat>, node: Node)
    requires AllOrdered(g, number) && NumberedBy(number.Keys, number)
    requires node in g && node !in number && forall t :: t in g[node] ==> t in number
    ensures AllOrdered(g, number[node := |number|])
    ensures NumberedBy(number.Keys + {node}, number[node := |number|])
  {
    var after := number[node := |number|];
    forall u, v ensures Ordered(g, after, u, v) {
      assert Ordered(g, number, u, v);
    }
  }

  class DependencySearch {
    const deps: Dependencies
    ghost const graph: Graph
    var seen: set<Node>
    var active: set<Node>
    var stack: seq<Node>
    ghost var number: map<Node, nat>

    constructor (deps: Dependencies, ghost graph: Graph)
      requires Closed(graph) && Mirrors(graph, deps)
      ensures this.deps == deps && this.graph == graph
      ensures Valid() && stack == [] && seen == {} && active == {}
    {
      this.deps, this.graph := deps, graph;
      seen, active, stack, number := {}, {}, [], map[];
    }

    ghost predicate Valid()
      reads this
    {
      && Closed(graph) && Mirrors(graph, deps)
      && StackOk(graph, active, stack)
      && active !! seen && seen <= graph.Keys
      && NumberedBy(seen, number)
      && AllOrdered(graph, number)
    }

    /** What a search that began at root may return. */
    ghost predicate Cycle(root: Node, c: seq<Node>) {
      ClosedWalk(EdgesOf(graph), c) && Reaches(EdgesOf(graph), root, c[0])
    }

    method Visit(key: Node) returns (found: Option<seq<Node>>)
      requires Valid() && key in graph
      requires stack != [] ==> key in graph[stack[|stack| - 1]]
      modifies this
      ensures found.None? ==> Valid() && active == old(active) && stack == old(stack)
      ensures found.None? ==> old(seen) <= seen && key in seen
      ensures found.Some? ==> Cycle(if old(stack) == [] then key else old(stack)[0], found.value)
      decreases graph.Keys - active - seen, 1
    {
      if key in active {
        var idx := IndexOf(stack, key);
        StackClosesCycle(key, idx);
        return Some(stack[idx..] + [key]);
      }
      if key in seen {
        return None;
      }
      found := Expand(key);
    }

    lemma StackClosesCycle(key: Node, idx: nat)
      requires StackOk(graph, active, stack) && idx < |stack| && stack[idx] == key
      requires key in graph[stack[|stack| - 1]]
      ensures Cycle(stack[0], stack[idx..] + [key])
    {
      assert Walk(EdgesOf(graph), stack);
      WalkReaches(EdgesOf(graph), stack, 0, idx);
    }

    /** The rest of visit, for a key met for the first time. */
    method Expand(key: Node) returns (found: Option<seq<Node>>)
      requires Valid() && key in graph && key !in active + seen
      requires stack != [] ==> key in graph[stack[|stack| - 1]]
      modifies this
      ensures found.None? ==> Valid() && active == old(active) && stack == old(stack)
      ensures found.None? ==> old(seen) + {key} <= seen
      ensures found.Some? ==> Cycle(if old(stack) == [] then key else old(stack)[0], found.value)
      decreases graph.Keys - active - seen, 0
    {
      Enter(key);
      found := VisitDependencies(key);
      if found.None? {
        Leave(key);
      }
    }

    method Enter(key: Node)
      requires Valid() && key in graph && key !in active + seen
      requires stack != [] ==> key in graph[stack[|stack| - 1]]
      modifies this`active, this`stack
      ensures Valid() && active == old(active) + {key} && stack == old(stack) + [key]
      ensures graph.Keys - active - seen < old(graph.Keys - active - seen)
    {
      PushKeepsStack(graph, active, stack, key);
      assert key in graph.Keys - active - seen;
      active, stack := active + {key}, stack + [key];
    }

    method Leave(key: Node)
      requires Valid() && stack != [] && stack[|stack| - 1] == key
      requires forall d :: d in graph[key] ==> d in seen
      modifies this`active, this`stack, this`seen, this`number
      ensures Valid() && active == old(active) - {key} && stack == old(stack)[..|old(stack)| - 1]
      ensures seen == old(seen) + {key}
    {
      PopKeepsStack(graph, active, stack);
      FinishOrders(graph, number, key);
      stack := stack[..|stack| - 1];
      active := active - {key};
      seen := seen + {key};
      number := number[key := |number|];
    }

    /** The loop over dependencies.get(key, []). */
    method VisitDependencies(key: Node) returns (found: Option<seq<Node>>)
      requires Valid() && stack != [] && stack[|stack| - 1] == key
      modifies this
      ensures found.None? ==> Valid() && active == old(active) && stack == old(stack)
      ensures found.None? ==> old(seen) <= seen && forall d :: d in graph[key] ==> d in seen
      ensures found.Some? ==> Cycle(old(stack)[0], found.value)
      decreases graph.Keys - active - seen, 2
    {
      var dependencies := if key in deps then deps[key] else [];
      for i := 0 to |dependencies|
        invariant Valid() && active == old(active) && stack == old(stack) && old(seen) <= seen
        invariant forall j :: 0 <= j < i ==> dependencies[j] in seen
      {
        assert DependsOn(deps, key, dependencies[i]);
        found := Visit(dependencies[i]);
        if found.Some? {
          return;
        }
      }
      found := None;
      forall d | d in graph[key] ensures d in seen {
        assert DependsOn(deps, key, d);
      }
    }
  }

  /**
   * The search answers exactly: a genuine closed walk that some key reaches, or none when there is none; and then
   * the keys, with everything they depend on, can be put in order.
   */
  method DependencyCycle(keys: seq<Node>, deps: Dependencies) returns (found: Option<seq<Node>>)
    ensures found.Some? ==> ClosedWalk(DependencyEdges(deps), found.value)
    ensures found.Some? ==> exists k :: k in keys && Reaches(DependencyEdges(deps), k, found.value[0])
    ensures found.None? ==>
              forall k, c :: k in keys && ClosedWalk(DependencyEdges(deps), c) ==>
                !Reaches(DependencyEdges(deps), k, c[0])
    ensures found.None? <==> Orderable(DependencyEdges(deps), keys)
  {
    ghost var e, g := DependencyEdges(deps), GraphOf(keys, deps);
    ghost var number;
    found, number := SearchFrom(keys, deps, g);
    if found.None? {
      assert Topological(e, number) by {
        forall u, v | (u, v) in e ensures Ordered(g, number, u, v) {
        }
      }
      forall k, c | k in keys && ClosedWalk(e, c) ensures !Reaches(e, k, c[0]) {
        OrderExcludesCycles(e, number, k, c);
      }
    } else {
      ghost var i :| 0 <= i < |keys| && Reaches(e, keys[i], found.value[0]);
      ghost var k := keys[i];
      forall number' | Topological(e, number') ensures k !in number' {
        if k in number' {
          OrderExcludesCycles(e, number', k, found.value);
        }
      }
    }
  }

  /** A closed walk that one of the keys reaches. */
  ghost predicate CycleFrom(g: Graph, keys: seq<Node>, c: seq<Node>) {
    ClosedWalk(EdgesOf(g), c) && exists i :: 0 <= i < |keys| && Reaches(EdgesOf(g), keys[i], c[0])
  }

  /** The outer loop of _dependency_cycle. */
  method SearchFrom(keys: seq<Node>, deps: Dependencies, ghost g: Graph)
    returns (found: Option<seq<Node>>, ghost number: map<Node, nat>)
    requires Closed(g) && Mirrors(g, deps) && forall k :: k in keys ==> k in g
    ensures found.Some? ==> CycleFrom(g, keys, found.value)
    ensures found.None? ==> AllOrdered(g, number) && forall k :: k in keys ==> k in number
  {
    var search := new DependencySearch(deps, g);
    for i := 0 to |keys|
      invariant search.Valid() && search.graph == g && search.stack == [] && search.active == {}
      invariant forall j :: 0 <= j < i ==> keys[j] in search.seen
    {
      found := search.Visit(keys[i]);
      if found.Some? {
        assert search.Cycle(keys[i], found.value);
        return found, map[];
      }
    }
    return None, search.number;
  }
}
