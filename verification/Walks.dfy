/**
 * Dependency graphs as such: walks along dependencies, cycles, the length of the longest
 * dependency chain below a node, and layerings that certify these.
 */
module Walks {
  import opened Ordered

  /** Each node with the nodes it depends on. */
  type Graph = map<int, set<int>>

  ghost predicate Closed(g: Graph) {
    forall n :: n in g ==> g[n] <= g.Keys
  }

  /** Consecutive nodes of `p` are a node and one of its dependencies. */
  ghost predicate IsWalk(g: Graph, p: seq<int>) {
    p != [] && p[0] in g && (|p| > 1 ==> p[1] in g[p[0]] && IsWalk(g, p[1..]))
  }

  lemma {:induction false} WalkStaysInside(g: Graph, p: seq<int>)
    requires IsWalk(g, p)
    ensures forall i :: 0 <= i < |p| ==> p[i] in g.Keys
  {
    if |p| <= 1 {
    } else {
      WalkStaysInside(g, p[1..]);
    }
  }

  /** Some walk from `n` visits a node twice. */
  ghost predicate ReachesCycle(g: Graph, n: int) {
    exists p :: IsWalk(g, p) && p[0] == n && !NoDuplicates(p)
  }

  ghost predicate Acyclic(g: Graph) {
    forall n :: n in g ==> !ReachesCycle(g, n)
  }

  /** The longest dependency chain from `n` has `k` steps. */
  ghost predicate LongestChain(g: Graph, n: int, k: nat) {
    (exists p :: IsWalk(g, p) && p[0] == n && |p| == k + 1) &&
    (forall p :: IsWalk(g, p) && p[0] == n ==> |p| <= k + 1)
  }

  /** Node `n` stands in one of the first `k` batches. */
  ghost predicate Before(batches: seq<seq<int>>, k: nat, n: int)
    requires k <= |batches|
  {
    exists j :: 0 <= j < k && n in batches[j]
  }

  ghost predicate Placed(batches: seq<seq<int>>, n: int) {
    Before(batches, |batches|, n)
  }

  /** Node `n` may stand in batch `k`: it is new there and depends on earlier batches only, on the last of them in particular. */
  ghost predicate FitsIn(g: Graph, batches: seq<seq<int>>, k: nat, n: int)
    requires k <= |batches|
  {
    n in g && !Before(batches, k, n) && (forall d :: d in g[n] ==> Before(batches, k, d)) &&
    (k > 0 ==> exists d :: d in g[n] && d in batches[k - 1])
  }

  ghost predicate Layering(g: Graph, batches: seq<seq<int>>) {
    (forall k :: 0 <= k < |batches| ==> batches[k] != [] && NoDuplicates(batches[k])) &&
    forall k, n {:trigger FitsIn(g, batches, k, n)} :: 0 <= k < |batches| && n in batches[k] ==> FitsIn(g, batches, k, n)
  }

  ghost predicate Waits(g: Graph, batches: seq<seq<int>>, n: int)
    requires n in g
  {
    exists d :: d in g[n] && !Placed(batches, d)
  }

  /** No node outside the batches could be added: each still waits for another one. */
  ghost predicate Stuck(g: Graph, batches: seq<seq<int>>) {
    forall n {:trigger Waits(g, batches, n)} :: n in g && !Placed(batches, n) ==> Waits(g, batches, n)
  }

  lemma BeforeSnoc(batches: seq<seq<int>>, b: seq<int>, k: nat, n: int)
    requires k <= |batches|
    ensures Before(batches + [b], k, n) == Before(batches, k, n)
    ensures Placed(batches + [b], n) == (Placed(batches, n) || n in b)
  {
    var all := batches + [b];
    assert forall j :: 0 <= j < |batches| ==> all[j] == batches[j];
    assert all[|batches|] == b;
  }

  /** Adding one more batch to a layering. */
  lemma LayeringSnoc(g: Graph, batches: seq<seq<int>>, b: seq<int>)
    requires Layering(g, batches) && b != [] && NoDuplicates(b)
    requires forall n :: n in b ==> FitsIn(g, batches, |batches|, n)
    ensures Layering(g, batches + [b])
  {
    var all := batches + [b];
    forall k, n | 0 <= k < |all| && n in all[k] ensures FitsIn(g, all, k, n) {
      assert FitsIn(g, batches, k, n);
      BeforeSnoc(batches, b, k, n);
      forall d | d in g[n] ensures Before(all, k, d) { BeforeSnoc(batches, b, k, d); }
    }
  }

  lemma {:induction false} WalkIsShort(g: Graph, batches: seq<seq<int>>, k: nat, p: seq<int>)
    requires Layering(g, batches) && k < |batches|
    requires IsWalk(g, p) && p[0] in batches[k]
    ensures |p| <= k + 1
    ensures NoDuplicates(p)
    ensures forall i :: 0 < i < |p| ==> Before(batches, k, p[i])
    decreases k
  {
    if |p| <= 1 {
    } else {
      assert FitsIn(g, batches, k, p[0]);
      assert exists j :: 0 <= j < k && p[1] in batches[j] by { assert Before(batches, k, p[1]); }
      var j :| 0 <= j < k && p[1] in batches[j];
      var rest := p[1..];
      WalkIsShort(g, batches, j, rest);
      forall i | 0 < i < |p| ensures Before(batches, k, p[i]) {
        if i > 1 { assert p[i] == rest[i - 1]; }
      }
      forall i, j | 0 <= i < j < |p| ensures p[i] != p[j] {
        if i > 0 { assert p[i] == rest[i - 1] && p[j] == rest[j - 1]; }
      }
    }
  }

  lemma {:induction false} WalkOfLength(g: Graph, batches: seq<seq<int>>, k: nat, n: int) returns (p: seq<int>)
    requires Layering(g, batches) && k < |batches| && n in batches[k]
    ensures IsWalk(g, p) && p[0] == n && |p| == k + 1
    decreases k
  {
    assert FitsIn(g, batches, k, n);
    if k == 0 {
      p := [n];
    } else {
      var d :| d in g[n] && d in batches[k - 1];
      var rest := WalkOfLength(g, batches, k - 1, d);
      p := [n] + rest;
      assert p[1..] == rest;
    }
  }

  lemma {:induction false} EndlessWalk(g: Graph, batches: seq<seq<int>>, n: int, m: nat) returns (p: seq<int>)
    requires Closed(g) && Stuck(g, batches) && n in g && !Placed(batches, n)
    ensures IsWalk(g, p) && p[0] == n && |p| == m + 1
    decreases m
  {
    if m == 0 {
      p := [n];
    } else {
      assert Waits(g, batches, n);
      var d :| d in g[n] && !Placed(batches, d);
      var rest := EndlessWalk(g, batches, d, m - 1);
      p := [n] + rest;
      assert p[1..] == rest;
    }
  }

  /** A walk with more steps than the graph has nodes revisits one. */
  lemma LongWalkRepeats(g: Graph, p: seq<int>)
    requires IsWalk(g, p) && |p| > |g.Keys|
    ensures !NoDuplicates(p)
  {
    if NoDuplicates(p) {
      WalkStaysInside(g, p);
      Pigeonhole(p, g.Keys);
    }
  }

  lemma LayerIsLongestChain(g: Graph, batches: seq<seq<int>>, k: nat, n: int)
    requires Layering(g, batches) && k < |batches| && n in batches[k]
    ensures LongestChain(g, n, k) && !ReachesCycle(g, n)
  {
    var p := WalkOfLength(g, batches, k, n);
    forall q | IsWalk(g, q) && q[0] == n ensures |q| <= k + 1 && NoDuplicates(q) {
      WalkIsShort(g, batches, k, q);
    }
  }

  lemma LeftOverReachesCycle(g: Graph, batches: seq<seq<int>>, n: int)
    requires Closed(g) && Stuck(g, batches) && n in g && !Placed(batches, n)
    ensures ReachesCycle(g, n)
    ensures forall k: nat :: !LongestChain(g, n, k)
  {
    var p := EndlessWalk(g, batches, n, |g.Keys|);
    LongWalkRepeats(g, p);
    forall k: nat ensures !LongestChain(g, n, k) {
      var q := EndlessWalk(g, batches, n, k + 1);
    }
  }

  /**
   * What a stuck layering says: batch `k` holds the nodes whose longest dependency chain has
   * `k` steps, and the nodes in no batch are those from which a cycle can be reached.
   */
  lemma LayeringMeaning(g: Graph, batches: seq<seq<int>>)
    requires Closed(g) && Layering(g, batches) && Stuck(g, batches)
    ensures forall n, k :: 0 <= k < |batches| ==> (n in batches[k] <==> n in g && LongestChain(g, n, k))
    ensures forall n :: n in g ==> (Placed(batches, n) <==> !ReachesCycle(g, n))
    ensures forall n, k: nat :: n in g && LongestChain(g, n, k) ==> k < |batches|
  {
    forall n | n in g
      ensures Placed(batches, n) <==> !ReachesCycle(g, n)
      ensures forall k: nat :: LongestChain(g, n, k) ==> k < |batches| && n in batches[k]
    {
      if Placed(batches, n) {
        var j :| 0 <= j < |batches| && n in batches[j];
        LayerIsLongestChain(g, batches, j, n);
        forall k: nat | LongestChain(g, n, k) ensures k == j {}
      } else {
        LeftOverReachesCycle(g, batches, n);
      }
    }
    forall n, k | 0 <= k < |batches| && n in batches[k] ensures n in g && LongestChain(g, n, k) {
      assert FitsIn(g, batches, k, n);
      LayerIsLongestChain(g, batches, k, n);
    }
  }

  lemma {:induction false} SameDepth(g: Graph, a: seq<seq<int>>, b: seq<seq<int>>)
    requires Closed(g) && Layering(g, a) && Stuck(g, a) && Layering(g, b) && Stuck(g, b)
    ensures |a| <= |b|
  {
    if a == [] {
    } else {
      var k := |a| - 1;
      var n := a[k][0];
      LayerIsLongestChain(g, a, k, n);
      assert FitsIn(g, a, k, n);
      LayeringMeaning(g, b);
    }
  }

  /** Two stuck layerings of one graph have the same batches up to order inside a batch. */
  lemma LayeringsAgree(g: Graph, a: seq<seq<int>>, b: seq<seq<int>>)
    requires Closed(g) && Layering(g, a) && Stuck(g, a) && Layering(g, b) && Stuck(g, b)
    ensures |a| == |b|
    ensures forall k, n :: 0 <= k < |a| ==> (n in a[k] <==> n in b[k])
  {
    SameDepth(g, a, b);
    SameDepth(g, b, a);
    forall k, n | 0 <= k < |a| ensures n in a[k] <==> n in b[k] {
      if n in a[k] { LayerTransfer(g, a, b, k, n); }
      if n in b[k] { LayerTransfer(g, b, a, k, n); }
    }
  }

  lemma LayerTransfer(g: Graph, a: seq<seq<int>>, b: seq<seq<int>>, k: nat, n: int)
    requires Closed(g) && Layering(g, a) && Stuck(g, a) && Layering(g, b) && Stuck(g, b)
    requires k < |a| && k < |b| && n in a[k]
    ensures n in b[k]
  {
    LayerIsLongestChain(g, a, k, n);
    assert FitsIn(g, a, k, n);
    LayeringMeaning(g, b);
  }

  /** A sort between two batches: `ready` lists exactly the nodes that wait for nothing outside the batches. */
  ghost predicate Frontier(g: Graph, batches: seq<seq<int>>, ready: seq<int>) {
    Layering(g, batches) && NoDuplicates(ready) &&
    (forall n {:trigger FitsIn(g, batches, |batches|, n)} :: n in ready ==> FitsIn(g, batches, |batches|, n)) &&
    (forall n {:trigger Waits(g, batches, n)} :: n in g && !Placed(batches, n) && n !in ready ==> Waits(g, batches, n))
  }

  lemma FrontierAdvances(g: Graph, batches: seq<seq<int>>, ready: seq<int>, batch: seq<int>, next: seq<int>)
    requires Closed(g) && Frontier(g, batches, ready) && batch != []
    requires NoDuplicates(batch) && forall n :: n in batch <==> n in ready
    requires NoDuplicates(next)
    requires forall n :: n in next <==> n in g && n !in ready && !Placed(batches, n) && !Waits(g, batches + [batch], n)
    ensures Frontier(g, batches + [batch], next)
  {
    LayeringSnoc(g, batches, batch);
    var all := batches + [batch];
    forall n ensures Placed(all, n) == (Placed(batches, n) || n in batch) { BeforeSnoc(batches, batch, 0, n); }
    forall n | n in next ensures FitsIn(g, all, |all|, n) {
      assert Waits(g, batches, n);
      var d :| d in g[n] && !Placed(batches, d);
      assert Placed(all, d);
      assert d in batch && all[|all| - 1] == batch;
      forall e | e in g[n] ensures Before(all, |all|, e) { assert Placed(all, e); }
    }
  }

  lemma InitialFrontier(g: Graph, ready: seq<int>)
    requires Closed(g) && Ascending(ready)
    requires forall n :: n in ready <==> n in g && |g[n]| == 0
    ensures Frontier(g, [], ready)
  {
    forall n | n in g && !Placed([], n) && n !in ready ensures Waits(g, [], n) {
      Inhabited(g[n]);
      var d :| d in g[n];
      assert !Placed([], d);
    }
  }
}
