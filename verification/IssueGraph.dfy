/**
 * The issue dependency graph (`types.rs`) and its batched topological sort (`graph.rs`).
 */
module IssueGraph {
  import opened Options
  import opened Ordered
  import opened Walks

  datatype GraphError =
    | Cycle(issues: seq<int>)
    | DependencyOutsideBatch(from: int, to: int)

  class DepGraph {
    var edges: map<int, set<int>>

    constructor ()
      ensures edges == map[]
    {
      edges := map[];
    }

    method AddIssue(issue: int)
      modifies this
      ensures edges.Keys == old(edges).Keys + {issue}
      ensures forall n :: n in old(edges) ==> edges[n] == old(edges)[n]
      ensures issue !in old(edges) ==> edges[issue] == {}
      ensures old(Closed(edges)) ==> Closed(edges)
    {
      if issue !in edges {
        edges := edges[issue := {}];
      }
    }

    method AddDep(from: int, to: int)
      modifies this
      ensures edges.Keys == old(edges).Keys + {from, to}
      ensures edges[from] == (if from in old(edges) then old(edges)[from] else {}) + {to}
      ensures forall n :: n in old(edges) && n != from ==> edges[n] == old(edges)[n]
      ensures to !in old(edges) && to != from ==> edges[to] == {}
      ensures old(Closed(edges)) ==> Closed(edges)
    {
      edges := edges[from := (if from in edges then edges[from] else {}) + {to}];
      if to !in edges {
        edges := edges[to := {}];
      }
    }

    /** Reports the first dependency, in ascending order, that is no node of the graph. */
    method CheckClosed() returns (r: Result<(), GraphError>)
      ensures r.Ok? <==> Closed(edges)
      ensures r.Err? ==> r.error.DependencyOutsideBatch? && r.error.from in edges &&
                         IsFirstOutside(edges[r.error.from], edges.Keys, r.error.to) &&
                         forall m :: m in edges && m < r.error.from ==> edges[m] <= edges.Keys
    {
      var nodes := InOrder(edges.Keys);
      for i := 0 to |nodes|
        invariant forall k :: 0 <= k < i ==> nodes[k] in edges && edges[nodes[k]] <= edges.Keys
      {
        assert nodes[i] in nodes;
        var outside := FirstOutside(edges[nodes[i]], edges.Keys);
        if outside.Some? {
          CheckedBelow(edges, nodes, i);
          return Err(DependencyOutsideBatch(nodes[i], outside.value));
        }
      }
      CheckedAll(edges, nodes);
      return Ok(());
    }
  }

  lemma CheckedBelow(edges: map<int, set<int>>, nodes: seq<int>, i: nat)
    requires i < |nodes| && Ascending(nodes) && forall n :: n in nodes <==> n in edges
    requires forall k :: 0 <= k < i ==> nodes[k] in edges && edges[nodes[k]] <= edges.Keys
    ensures forall m :: m in edges && m < nodes[i] ==> edges[m] <= edges.Keys
  {
    forall m | m in edges && m < nodes[i] ensures edges[m] <= edges.Keys {
      assert m in nodes;
      var k :| 0 <= k < |nodes| && nodes[k] == m;
      assert k < i;
    }
  }

  lemma CheckedAll(edges: map<int, set<int>>, nodes: seq<int>)
    requires forall n :: n in nodes <==> n in edges
    requires forall k :: 0 <= k < |nodes| ==> nodes[k] in edges && edges[nodes[k]] <= edges.Keys
    ensures Closed(edges)
  {
    forall n | n in edges ensures edges[n] <= edges.Keys {
      assert n in nodes;
      var k :| 0 <= k < |nodes| && nodes[k] == n;
    }
  }

  ghost predicate IsFirstOutside(deps: set<int>, nodes: set<int>, d: int) {
    d in deps && d !in nodes && forall e :: e in deps && e < d ==> e in nodes
  }

  method FirstOutside(deps: set<int>, nodes: set<int>) returns (r: Option<int>)
    ensures r.None? <==> deps <= nodes
    ensures r.Some? ==> IsFirstOutside(deps, nodes, r.value)
  {
    var order := InOrder(deps);
    for j := 0 to |order|
      invariant forall k :: 0 <= k < j ==> order[k] in nodes
    {
      if order[j] !in nodes {
        assert order[j] in order;
        forall e | e in deps && e < order[j] ensures e in nodes { assert e in order; }
        return Some(order[j]);
      }
    }
    forall d | d in deps ensures d in nodes { assert d in order; }
    return None;
  }

  /** The dependencies that count: nodes of the graph that are not closed. */
  function Active(edges: map<int, set<int>>, closed: set<int>): (g: Graph)
    ensures Closed(g) && g.Keys == edges.Keys
  {
    map n | n in edges :: edges[n] * edges.Keys - closed
  }

  /** Active dependencies are those inside the graph that are not closed. */
  lemma ActiveExactly(edges: map<int, set<int>>, closed: set<int>, n: int, d: int)
    requires n in edges
    ensures d in Active(edges, closed)[n] <==> d in edges[n] && d in edges && d !in closed
  {
  }

  predicate AlreadyEmitted(batches: seq<seq<int>>, n: int)
    ensures AlreadyEmitted(batches, n) == Placed(batches, n)
  {
    exists j :: 0 <= j < |batches| && n in batches[j]
  }

  /** How many open dependencies of `node` stand neither in `batch` nor in an earlier batch. */
  function StillBlocked(edges: map<int, set<int>>, closed: set<int>, batches: seq<seq<int>>, batch: seq<int>,
      node: int): (count: nat)
    requires node in edges
    ensures count == 0 <==> !Waits(Active(edges, closed), batches + [batch], node)
  {
    var blocked := set d | d in edges[node] && d !in closed && d in edges && d !in batch && !AlreadyEmitted(batches, d);
    BlockedMeansWaits(edges, closed, batches, batch, node, blocked);
    |blocked|
  }

  lemma BlockedMeansWaits(edges: map<int, set<int>>, closed: set<int>, batches: seq<seq<int>>, batch: seq<int>,
      node: int, blocked: set<int>)
    requires node in edges
    requires blocked == set d | d in edges[node] && d !in closed && d in edges && d !in batch && !AlreadyEmitted(batches, d)
    ensures |blocked| == 0 <==> !Waits(Active(edges, closed), batches + [batch], node)
  {
    forall d ensures Placed(batches + [batch], d) == (AlreadyEmitted(batches, d) || d in batch) {
      BeforeSnoc(batches, batch, 0, d);
    }
    Inhabited(blocked);
    if blocked != {} {
      var d :| d in blocked;
      assert d in Active(edges, closed)[node];
    }
    if Waits(Active(edges, closed), batches + [batch], node) {
      var d :| d in Active(edges, closed)[node] && !Placed(batches + [batch], d);
      assert d in blocked;
    }
  }

  /** Node `n` becomes ready with `batch`: it still counted as waiting and waits for nothing any more. */
  predicate BecomesReady(edges: map<int, set<int>>, closed: set<int>, batches: seq<seq<int>>, batch: seq<int>,
      indegree: map<int, nat>, n: int)
    requires n in edges && n in indegree
  {
    n !in batch && indegree[n] != 0 && StillBlocked(edges, closed, batches, batch, n) == 0
  }

  /** The nodes that become ready, in ascending order. */
  function NextReady(edges: map<int, set<int>>, closed: set<int>, batches: seq<seq<int>>, batch: seq<int>,
                     indegree: map<int, nat>): (next: seq<int>)
    requires indegree.Keys == edges.Keys
    ensures Ascending(next)
    ensures forall n :: n in next <==> n in edges && BecomesReady(edges, closed, batches, batch, indegree, n)
  {
    InOrder(set n | n in edges && BecomesReady(edges, closed, batches, batch, indegree, n))
  }

  function PlacedNodes(edges: map<int, set<int>>, batches: seq<seq<int>>): (s: set<int>)
    ensures |s| <= |edges.Keys|
    ensures |s| == |edges.Keys| <==> forall n :: n in edges ==> Placed(batches, n)
  {
    var s := set n | n in edges && AlreadyEmitted(batches, n);
    SubsetSize(s, edges.Keys);
    s
  }

  lemma PlacedGrows(edges: map<int, set<int>>, batches: seq<seq<int>>, batch: seq<int>)
    requires NoDuplicates(batch) && forall n :: n in batch ==> n in edges && !Placed(batches, n)
    ensures |PlacedNodes(edges, batches + [batch])| == |PlacedNodes(edges, batches)| + |batch|
  {
    forall n ensures Placed(batches + [batch], n) == (Placed(batches, n) || n in batch) { BeforeSnoc(batches, batch, 0, n); }
    DistinctSize(batch);
    assert PlacedNodes(edges, batches + [batch]) == PlacedNodes(edges, batches) + set n | n in batch;
  }

  /** What holds whenever the sort starts on its next batch. */
  ghost predicate SortState(edges: map<int, set<int>>, closed: set<int>, batches: seq<seq<int>>, ready: seq<int>,
                            indegree: map<int, nat>, visited: nat) {
    Frontier(Active(edges, closed), batches, ready) &&
    indegree.Keys == edges.Keys &&
    (forall n :: n in edges ==> (indegree[n] == 0 <==> Placed(batches, n) || n in ready)) &&
    visited == |PlacedNodes(edges, batches)| &&
    forall k :: 0 <= k < |batches| ==> Ascending(batches[k])
  }

  lemma NextReadyMeaning(edges: map<int, set<int>>, closed: set<int>, batches: seq<seq<int>>, batch: seq<int>,
      indegree: map<int, nat>)
    requires indegree.Keys == edges.Keys
    ensures forall n :: n in NextReady(edges, closed, batches, batch, indegree) <==>
              n in edges && n !in batch && indegree[n] != 0 && !Waits(Active(edges, closed), batches + [batch], n)
  {
    forall n | n in edges && n !in batch && indegree[n] != 0
      ensures BecomesReady(edges, closed, batches, batch, indegree, n) <==> !Waits(Active(edges, closed), batches + [batch], n)
    {
      assert StillBlocked(edges, closed, batches, batch, n) == 0 <==> !Waits(Active(edges, closed), batches + [batch], n);
    }
  }

  lemma SortStep(edges: map<int, set<int>>, closed: set<int>, batches: seq<seq<int>>, ready: seq<int>,
                 indegree: map<int, nat>, visited: nat, batch: seq<int>, next: seq<int>)
    requires SortState(edges, closed, batches, ready, indegree, visited) && ready != []
    requires NoDuplicates(batch) && batch != [] && Ascending(batch) && forall n :: n in batch <==> n in ready
    requires Ascending(next)
    requires forall n :: n in next <==>
               n in edges && n !in batch && indegree[n] != 0 && !Waits(Active(edges, closed), batches + [batch], n)
    ensures SortState(edges, closed, batches + [batch], next,
                      map n | n in indegree :: if n in next then 0 else indegree[n], visited + |batch|)
    ensures visited + |batch| <= |edges.Keys|
  {
    var g := Active(edges, closed);
    hide Active;
    FrontierAdvances(g, batches, ready, batch, next);
    assert forall n :: n in batch ==> n in edges && !Placed(batches, n) by {
      forall n | n in batch ensures n in edges && !Placed(batches, n) { assert FitsIn(g, batches, |batches|, n); }
    }
    hide Frontier;
    PlacedGrows(edges, batches, batch);
    assert forall n :: Placed(batches + [batch], n) == (Placed(batches, n) || n in batch) by {
      forall n ensures Placed(batches + [batch], n) == (Placed(batches, n) || n in batch) { BeforeSnoc(batches, batch, 0, n); }
    }
    hide Placed;
  }

  lemma SortStart(edges: map<int, set<int>>, closed: set<int>, ready: seq<int>, indegree: map<int, nat>)
    requires indegree.Keys == edges.Keys && forall n :: n in edges ==> indegree[n] == |Active(edges, closed)[n]|
    requires Ascending(ready) && forall n :: n in ready <==> n in indegree && indegree[n] == 0
    ensures SortState(edges, closed, [], ready, indegree, 0)
  {
    InitialFrontier(Active(edges, closed), ready);
    hide Active, Frontier, Ascending;
    NonePlaced(edges);
    hide Placed, PlacedNodes;
  }

  lemma NonePlaced(edges: map<int, set<int>>)
    ensures PlacedNodes(edges, []) == {} && forall n :: !Placed([], n)
  {
  }

  lemma SortEnd(edges: map<int, set<int>>, closed: set<int>, batches: seq<seq<int>>, indegree: map<int, nat>, visited: nat)
    requires SortState(edges, closed, batches, [], indegree, visited)
    ensures Layering(Active(edges, closed), batches) && Stuck(Active(edges, closed), batches)
    ensures forall n :: n in edges ==> (indegree[n] > 0 <==> ReachesCycle(Active(edges, closed), n))
    ensures visited == |edges.Keys| <==> Acyclic(Active(edges, closed))
    ensures visited == |edges.Keys| <==> forall n :: n in edges ==> Placed(batches, n)
    ensures forall n, k :: 0 <= k < |batches| ==> (n in batches[k] <==> n in edges && LongestChain(Active(edges, closed), n, k))
    ensures forall k :: 0 <= k < |batches| ==> Ascending(batches[k])
  {
    var g := Active(edges, closed);
    hide Active;
    LayeringMeaning(g, batches);
    hide LongestChain, ReachesCycle, Layering;
  }

  /** One round of the sort: the ready nodes form the next batch. */
  method NextBatch(edges: map<int, set<int>>, closed: set<int>, batches: seq<seq<int>>, ready: seq<int>,
                   indegree: map<int, nat>, ghost visited: nat)
    returns (batch: seq<int>, next: seq<int>, indegree': map<int, nat>)
    requires SortState(edges, closed, batches, ready, indegree, visited) && ready != []
    ensures SortState(edges, closed, batches + [batch], next, indegree', visited + |batch|)
    ensures |batch| > 0 && visited + |batch| <= |edges.Keys|
  {
    batch := Sort(ready);
    next := NextReady(edges, closed, batches, batch, indegree);
    indegree' := map n | n in indegree :: if n in next then 0 else indegree[n];
    NextReadyMeaning(edges, closed, batches, batch, indegree);
    hide NextReady, Active;
    SortStep(edges, closed, batches, ready, indegree, visited, batch, next);
  }

  method TopoBatches(graph: DepGraph, closed: set<int>) returns (r: Result<seq<seq<int>>, GraphError>)
    ensures r.Ok? <==> Acyclic(Active(graph.edges, closed))
    ensures r.Ok? ==> forall k :: 0 <= k < |r.value| ==> Ascending(r.value[k])
    ensures r.Ok? ==> forall n, k :: 0 <= k < |r.value| ==>
              (n in r.value[k] <==> n in graph.edges && LongestChain(Active(graph.edges, closed), n, k))
    ensures r.Ok? ==> forall n :: n in graph.edges ==> Placed(r.value, n)
    ensures r.Ok? ==> Layering(Active(graph.edges, closed), r.value) && Stuck(Active(graph.edges, closed), r.value)
    ensures r.Err? ==> r.error.Cycle? && Ascending(r.error.issues)
    ensures r.Err? ==> forall n :: n in r.error.issues <==> n in graph.edges && ReachesCycle(Active(graph.edges, closed), n)
  {
    var edges := graph.edges;
    var batches, indegree, visited := AllBatches(edges, closed);
    SortEnd(edges, closed, batches, indegree, visited);
    hide Active, Acyclic, Layering, Stuck, LongestChain, ReachesCycle, Placed, SortState;
    if visited != |edges.Keys| {
      return Err(Cycle(InOrder(set n | n in indegree && indegree[n] > 0)));
    }
    return Ok(batches);
  }

  method AllBatches(edges: map<int, set<int>>, closed: set<int>)
    returns (batches: seq<seq<int>>, indegree: map<int, nat>, visited: nat)
    ensures SortState(edges, closed, batches, [], indegree, visited)
  {
    indegree := map n | n in edges :: |edges[n] * edges.Keys - closed|;
    batches, visited := [], 0;
    var ready := InOrder(set n | n in indegree && indegree[n] == 0);
    SortStart(edges, closed, ready, indegree);
    while ready != []
      invariant SortState(edges, closed, batches, ready, indegree, visited)
      decreases |edges.Keys| - visited
    {
      var batch;
      batch, ready, indegree := NextBatch(edges, closed, batches, ready, indegree, visited);
      visited := visited + |batch|;
      batches := batches + [batch];
    }
  }
}
