/** Dependency clusters of issues and their lead issue (`architect.rs`). */
module Clusters {
  import opened Ordered
  import opened Walks

  type Deps = map<int, set<int>>

  /** Dependencies count in both directions. */
  ghost predicate Adjacent(deps: Deps, a: int, b: int) {
    (a in deps && b in deps[a]) || (b in deps && a in deps[b])
  }

  /** Consecutive issues of `p` are adjacent and all lie in `all`. */
  ghost predicate IsPath(deps: Deps, all: set<int>, p: seq<int>) {
    p != [] && p[0] in all && (|p| > 1 ==> Adjacent(deps, p[0], p[1]) && IsPath(deps, all, p[1..]))
  }

  ghost predicate Connected(deps: Deps, all: set<int>, a: int, b: int) {
    exists p :: IsPath(deps, all, p) && p[0] == a && p[|p| - 1] == b
  }

  lemma ConnectedSelf(deps: Deps, all: set<int>, a: int)
    requires a in all
    ensures Connected(deps, all, a, a)
  {
    assert IsPath(deps, all, [a]);
  }

  /** A path can be extended at its end. */
  lemma {:induction false} PathSnoc(deps: Deps, all: set<int>, p: seq<int>, x: int)
    requires IsPath(deps, all, p) && x in all && Adjacent(deps, p[|p| - 1], x)
    ensures IsPath(deps, all, p + [x])
  {
    var q := p + [x];
    if |p| == 1 {
      assert q[1..] == [x];
    } else {
      assert q[1..] == p[1..] + [x];
      PathSnoc(deps, all, p[1..], x);
    }
  }

  lemma ConnectedStep(deps: Deps, all: set<int>, a: int, b: int, c: int)
    requires Connected(deps, all, a, b) && c in all && Adjacent(deps, b, c)
    ensures Connected(deps, all, a, c)
  {
    var p :| IsPath(deps, all, p) && p[0] == a && p[|p| - 1] == b;
    PathSnoc(deps, all, p, c);
    var q := p + [c];
    assert IsPath(deps, all, q) && q[0] == a && q[|q| - 1] == c;
  }

  lemma {:induction false} PathBack(deps: Deps, all: set<int>, p: seq<int>)
    requires IsPath(deps, all, p)
    ensures Connected(deps, all, p[|p| - 1], p[0])
  {
    if |p| == 1 {
      ConnectedSelf(deps, all, p[0]);
    } else {
      PathBack(deps, all, p[1..]);
      ConnectedStep(deps, all, p[|p| - 1], p[1], p[0]);
    }
  }

  lemma ConnectedSymmetric(deps: Deps, all: set<int>, a: int, b: int)
    requires Connected(deps, all, a, b)
    ensures Connected(deps, all, b, a)
  {
    var p :| IsPath(deps, all, p) && p[0] == a && p[|p| - 1] == b;
    PathBack(deps, all, p);
  }

  /** `s` holds every neighbour, within `all`, of its members. */
  ghost predicate ClosedIn(deps: Deps, all: set<int>, s: set<int>) {
    forall n, m {:trigger Adjacent(deps, n, m)} :: n in s && m in all && Adjacent(deps, n, m) ==> m in s
  }

  lemma {:induction false} PathStaysIn(deps: Deps, all: set<int>, s: set<int>, p: seq<int>)
    requires IsPath(deps, all, p) && ClosedIn(deps, all, s) && p[0] in s
    ensures p[|p| - 1] in s
  {
    if |p| <= 1 {
    } else {
      assert Adjacent(deps, p[0], p[1]);
      assert p[1..][0] in all;
      PathStaysIn(deps, all, s, p[1..]);
    }
  }

  lemma ConnectedStaysIn(deps: Deps, all: set<int>, s: set<int>, a: int, b: int)
    requires Connected(deps, all, a, b) && ClosedIn(deps, all, s) && a in s
    ensures b in s
  {
    var p :| IsPath(deps, all, p) && p[0] == a && p[|p| - 1] == b;
    PathStaysIn(deps, all, s, p);
  }

  lemma {:induction false} PathJoin(deps: Deps, all: set<int>, p: seq<int>, b: int, c: int)
    requires IsPath(deps, all, p) && p[|p| - 1] == b && Connected(deps, all, c, b)
    ensures Connected(deps, all, c, p[0])
  {
    if |p| <= 1 {
    } else {
      PathJoin(deps, all, p[1..], b, c);
      ConnectedStep(deps, all, c, p[1], p[0]);
    }
  }

  lemma ConnectedThrough(deps: Deps, all: set<int>, a: int, b: int, c: int)
    requires Connected(deps, all, a, b) && Connected(deps, all, b, c)
    ensures Connected(deps, all, a, c)
  {
    ConnectedSymmetric(deps, all, a, b);
    ConnectedSymmetric(deps, all, b, c);
    var p :| IsPath(deps, all, p) && p[0] == a && p[|p| - 1] == b;
    PathJoin(deps, all, p, b, c);
    ConnectedSymmetric(deps, all, c, a);
  }

  // ---------- breadth-first search ----------

  ghost predicate Fresh(deps: Deps, all: set<int>, visited: set<int>, n: int, m: int) {
    m in all && m !in visited && Adjacent(deps, n, m)
  }

  /** The unvisited issues that `n` depends on. */
  method Dependencies(deps: Deps, all: set<int>, visited: set<int>, n: int) returns (found: seq<int>)
    ensures forall m :: m in found <==> m in all && m !in visited && n in deps && m in deps[n]
  {
    found := [];
    if n in deps {
      var forward := InOrder(deps[n]);
      for i := 0 to |forward|
        invariant forall m :: m in found <==> m in forward[..i] && m in all && m !in visited
      {
        assert forward[..i + 1] == forward[..i] + [forward[i]];
        if forward[i] !in visited && forward[i] in all {
          found := found + [forward[i]];
        }
      }
      assert forward[..|forward|] == forward;
    }
  }

  /** The unvisited issues that depend on `n`. */
  method Dependents(deps: Deps, all: set<int>, visited: set<int>, n: int) returns (found: seq<int>)
    ensures forall m :: m in found <==> m in all && m !in visited && m in deps && n in deps[m]
  {
    found := [];
    var others := InOrder(deps.Keys);
    for i := 0 to |others|
      invariant forall m :: m in found <==> m in others[..i] && m in deps && n in deps[m] && m in all && m !in visited
    {
      assert others[..i + 1] == others[..i] + [others[i]];
      assert others[i] in others;
      if n in deps[others[i]] && others[i] !in visited && others[i] in all {
        found := found + [others[i]];
      }
    }
    assert others[..|others|] == others;
  }

  /** The unvisited neighbours of `n`: first those it depends on, then those that depend on it. */
  method Neighbours(deps: Deps, all: set<int>, visited: set<int>, n: int) returns (found: seq<int>)
    ensures forall m :: m in found <==> Fresh(deps, all, visited, n, m)
  {
    var forward := Dependencies(deps, all, visited, n);
    var reverse := Dependents(deps, all, visited, n);
    found := forward + reverse;
  }

  /** The search from `start` after it has visited `cluster`. */
  ghost predicate Searching(deps: Deps, all: set<int>, before: set<int>, start: int,
                            visited: set<int>, cluster: seq<int>, queue: seq<int>) {
    NoDuplicates(cluster) &&
    (forall n :: n in visited <==> n in before || n in cluster) &&
    (forall n :: n in cluster ==> n in all && n !in before && Connected(deps, all, start, n)) &&
    (forall n :: n in queue ==> n in all && Connected(deps, all, start, n)) &&
    (start in visited || start in queue) &&
    (forall n, m {:trigger Adjacent(deps, n, m)} ::
       n in cluster && m in all && Adjacent(deps, n, m) ==> m in visited || m in queue)
  }

  lemma SearchStep(deps: Deps, all: set<int>, before: set<int>, start: int,
                   visited: set<int>, cluster: seq<int>, queue: seq<int>, n: int, found: seq<int>)
    requires queue != [] && n == queue[0]
    requires Searching(deps, all, before, start, visited, cluster, queue)
    requires forall m :: m in found <==> Fresh(deps, all, visited + {n}, n, m)
    ensures n in visited ==> Searching(deps, all, before, start, visited, cluster, queue[1..])
    ensures n !in visited ==>
              Searching(deps, all, before, start, visited + {n}, cluster + [n], queue[1..] + found)
  {
    assert queue == [n] + queue[1..];
    assert n in queue;
    forall m | m in found ensures Connected(deps, all, start, m) { ConnectedStep(deps, all, start, n, m); }
    forall a, m | a in cluster + [n] && m in all && Adjacent(deps, a, m)
      ensures m in visited + {n} || m in queue[1..] + found
    {
      if a == n && m !in visited + {n} { assert Fresh(deps, all, visited + {n}, n, m); }
    }
  }

  /** The component of `start` among the issues not visited before. */
  method Search(deps: Deps, all: set<int>, before: set<int>, start: int) returns (cluster: seq<int>, visited: set<int>)
    requires start in all && start !in before && before <= all && ClosedIn(deps, all, before)
    ensures Searching(deps, all, before, start, visited, cluster, [])
    ensures visited <= all
  {
    cluster, visited := [], before;
    var queue := [start];
    ConnectedSelf(deps, all, start);
    while queue != []
      invariant Searching(deps, all, before, start, visited, cluster, queue)
      invariant visited <= all
      decreases all - visited, |queue|
    {
      var n := queue[0];
      assert n in queue;
      if n in visited || n !in all {
        SearchStep(deps, all, before, start, visited, cluster, queue, n, FreshAfter(deps, all, visited, n));
        queue := queue[1..];
        continue;
      }
      var found := Neighbours(deps, all, visited + {n}, n);
      SearchStep(deps, all, before, start, visited, cluster, queue, n, found);
      visited := visited + {n};
      cluster := cluster + [n];
      queue := queue[1..] + found;
    }
  }

  ghost function FreshAfter(deps: Deps, all: set<int>, visited: set<int>, n: int): (r: seq<int>)
    ensures forall m :: m in r <==> Fresh(deps, all, visited + {n}, n, m)
  {
    InOrder(set m | m in all && Fresh(deps, all, visited + {n}, n, m))
  }

  /** A finished search has found exactly the component, and what is visited stays closed. */
  lemma SearchDone(deps: Deps, all: set<int>, before: set<int>, start: int, visited: set<int>, cluster: seq<int>)
    requires start in all && start !in before && ClosedIn(deps, all, before)
    requires Searching(deps, all, before, start, visited, cluster, [])
    ensures start in cluster && ClosedIn(deps, all, visited)
    ensures forall n :: n in cluster <==> Connected(deps, all, start, n)
  {
    var own := set n | n in cluster;
    forall n, m | n in own && m in all && Adjacent(deps, n, m) ensures m in own {
      if m in before {
        assert Adjacent(deps, m, n);
      }
    }
    forall n | Connected(deps, all, start, n) ensures n in cluster {
      ConnectedStaysIn(deps, all, own, start, n);
    }
    forall n, m | n in visited && m in all && Adjacent(deps, n, m) ensures m in visited {}
  }

  /** `cluster` is the component of each of its members. */
  ghost predicate IsComponent(deps: Deps, all: set<int>, cluster: seq<int>) {
    forall a, b :: a in cluster ==> (b in cluster <==> Connected(deps, all, a, b))
  }

  lemma ComponentOfAny(deps: Deps, all: set<int>, start: int, cluster: seq<int>)
    requires forall n :: n in cluster <==> Connected(deps, all, start, n)
    ensures IsComponent(deps, all, cluster)
  {
    forall a, b | a in cluster ensures b in cluster <==> Connected(deps, all, a, b) {
      ConnectedSymmetric(deps, all, start, a);
      if Connected(deps, all, a, b) { ConnectedThrough(deps, all, start, a, b); }
      if b in cluster { ConnectedThrough(deps, all, a, start, b); }
    }
  }

  /** Cluster `k` contains the first listed issue that is in no earlier cluster. */
  ghost predicate StartsAtFirst(issues: seq<int>, clusters: seq<seq<int>>, k: nat)
    requires k < |clusters|
  {
    exists i :: 0 <= i < |issues| && issues[i] in clusters[k] && !Before(clusters, k, issues[i]) &&
                forall j :: 0 <= j < i ==> Before(clusters, k, issues[j])
  }

  ghost predicate GoodCluster(deps: Deps, all: set<int>, cluster: seq<int>) {
    cluster != [] && Ascending(cluster) && IsComponent(deps, all, cluster) && forall n :: n in cluster ==> n in all
  }

  ghost function IssueSet(issues: seq<int>): set<int> {
    set n | n in issues
  }

  /** What holds when the issues before position `i` have been dealt with. */
  ghost predicate Clustering(issues: seq<int>, deps: Deps, i: nat, visited: set<int>, clusters: seq<seq<int>>)
    requires i <= |issues|
  {
    visited <= IssueSet(issues) && ClosedIn(deps, IssueSet(issues), visited) &&
    (forall n :: n in visited <==> Placed(clusters, n)) &&
    (forall j :: 0 <= j < i ==> issues[j] in visited) &&
    (forall k :: 0 <= k < |clusters| ==> GoodCluster(deps, IssueSet(issues), clusters[k])) &&
    forall k {:trigger StartsAtFirst(issues, clusters, k)} :: 0 <= k < |clusters| ==> StartsAtFirst(issues, clusters, k)
  }

  lemma NewCluster(deps: Deps, all: set<int>, before: set<int>, start: int, visited: set<int>, found: seq<int>)
    requires start in all && start !in before && ClosedIn(deps, all, before)
    requires Searching(deps, all, before, start, visited, found, [])
    ensures GoodCluster(deps, all, Sort(found)) && start in Sort(found) && ClosedIn(deps, all, visited)
    ensures forall n :: n in visited <==> n in before || n in Sort(found)
  {
    SearchDone(deps, all, before, start, visited, found);
    ComponentOfAny(deps, all, start, Sort(found));
    hide ClosedIn, IsComponent, Ascending, Connected;
  }

  lemma ClusterAdded(issues: seq<int>, deps: Deps, i: nat, before: set<int>, clusters: seq<seq<int>>,
                     found: seq<int>, visited: set<int>)
    requires i < |issues| && Clustering(issues, deps, i, before, clusters) && issues[i] !in before
    requires Searching(deps, IssueSet(issues), before, issues[i], visited, found, []) && visited <= IssueSet(issues)
    ensures Clustering(issues, deps, i + 1, visited, clusters + [Sort(found)])
  {
    var all := IssueSet(issues);
    assert issues[i] in all;
    NewCluster(deps, all, before, issues[i], visited, found);
    var cluster := Sort(found);
    hide Searching, GoodCluster, ClosedIn, Sort, StartsAtFirst, Placed, IssueSet;
    ClusterJoins(issues, deps, i, before, clusters, cluster, visited);
  }

  lemma ClusterJoins(issues: seq<int>, deps: Deps, i: nat, before: set<int>, clusters: seq<seq<int>>, cluster: seq<int>,
      visited: set<int>)
    requires i < |issues| && Clustering(issues, deps, i, before, clusters) && issues[i] !in before && issues[i] in cluster
    requires GoodCluster(deps, IssueSet(issues), cluster) && ClosedIn(deps, IssueSet(issues), visited)
    requires visited <= IssueSet(issues) && forall n :: n in visited <==> n in before || n in cluster
    ensures Clustering(issues, deps, i + 1, visited, clusters + [cluster])
  {
    hide GoodCluster, ClosedIn, StartsAtFirst, Placed, IssueSet;
    VisitedIsPlaced(before, visited, clusters, cluster);
    StartsSnoc(issues, clusters, cluster, i);
    assert forall k :: 0 <= k < |clusters| + 1 ==> GoodCluster(deps, IssueSet(issues), (clusters + [cluster])[k]);
  }

  lemma VisitedIsPlaced(before: set<int>, visited: set<int>, clusters: seq<seq<int>>, cluster: seq<int>)
    requires forall n :: n in before <==> Placed(clusters, n)
    requires forall n :: n in visited <==> n in before || n in cluster
    ensures forall n :: n in visited <==> Placed(clusters + [cluster], n)
  {
    forall n ensures n in visited <==> Placed(clusters + [cluster], n) { BeforeSnoc(clusters, cluster, 0, n); }
  }

  lemma StartsSnoc(issues: seq<int>, clusters: seq<seq<int>>, cluster: seq<int>, i: nat)
    requires forall k {:trigger StartsAtFirst(issues, clusters, k)} :: 0 <= k < |clusters| ==> StartsAtFirst(issues, clusters, k)
    requires i < |issues| && issues[i] in cluster && !Placed(clusters, issues[i])
    requires forall j :: 0 <= j < i ==> Placed(clusters, issues[j])
    ensures forall k :: 0 <= k < |clusters| + 1 ==> StartsAtFirst(issues, clusters + [cluster], k)
  {
    var more := clusters + [cluster];
    forall k | 0 <= k < |clusters| + 1 ensures StartsAtFirst(issues, more, k) {
      forall n | k <= |clusters| ensures Before(more, k, n) == Before(clusters, k, n) { BeforeSnoc(clusters, cluster, k, n); }
      if k < |clusters| {
        assert StartsAtFirst(issues, clusters, k);
        var j :| 0 <= j < |issues| && issues[j] in clusters[k] && !Before(clusters, k, issues[j]) &&
                 forall m :: 0 <= m < j ==> Before(clusters, k, issues[m]);
        assert issues[j] in more[k];
      } else {
        assert issues[i] in more[k];
      }
    }
  }

  /** Groups issues into connected components. */
  method ClusterIssues(issues: seq<int>, deps: Deps) returns (clusters: seq<seq<int>>)
    ensures forall n :: n in issues <==> Placed(clusters, n)
    ensures forall k :: 0 <= k < |clusters| ==> clusters[k] != [] && Ascending(clusters[k])
    ensures forall k :: 0 <= k < |clusters| ==> IsComponent(deps, IssueSet(issues), clusters[k])
    ensures forall k :: 0 <= k < |clusters| ==> StartsAtFirst(issues, clusters, k)
  {
    var all := set n | n in issues;
    var visited: set<int> := {};
    clusters := [];
    for i := 0 to |issues|
      invariant Clustering(issues, deps, i, visited, clusters)
    {
      var start := issues[i];
      if start in visited {
        continue;
      }
      var found, visited' := Search(deps, all, visited, start);
      ClusterAdded(issues, deps, i, visited, clusters, found, visited');
      visited := visited';
      clusters := clusters + [Sort(found)];
    }
    forall n | Placed(clusters, n) ensures n in issues { assert n in visited && n in IssueSet(issues); }
  }

  /** Two issues end up in one cluster exactly when a path inside the set joins them; no issue is in two clusters. */
  lemma SameClusterExactlyWhen(issues: seq<int>, deps: Deps, clusters: seq<seq<int>>, a: int, b: int, j: nat, k: nat)
    requires forall i :: 0 <= i < |clusters| ==> IsComponent(deps, IssueSet(issues), clusters[i])
    requires forall i :: 0 <= i < |clusters| ==> StartsAtFirst(issues, clusters, i)
    requires j < |clusters| && k < |clusters| && a in clusters[j] && b in clusters[k]
    ensures j == k <==> Connected(deps, IssueSet(issues), a, b)
  {
    assert IsComponent(deps, IssueSet(issues), clusters[j]) && IsComponent(deps, IssueSet(issues), clusters[k]);
    if j < k {
      Disjoint(issues, deps, clusters, b, j, k);
    } else if k < j {
      Disjoint(issues, deps, clusters, a, k, j);
      if Connected(deps, IssueSet(issues), a, b) { ConnectedSymmetric(deps, IssueSet(issues), a, b); }
    }
  }

  lemma Disjoint(issues: seq<int>, deps: Deps, clusters: seq<seq<int>>, n: int, j: nat, k: nat)
    requires forall i :: 0 <= i < |clusters| ==> IsComponent(deps, IssueSet(issues), clusters[i])
    requires forall i :: 0 <= i < |clusters| ==> StartsAtFirst(issues, clusters, i)
    requires j < k < |clusters| && n in clusters[k]
    ensures n !in clusters[j]
  {
    assert StartsAtFirst(issues, clusters, k);
    var i :| 0 <= i < |issues| && issues[i] in clusters[k] && !Before(clusters, k, issues[i]);
    assert Connected(deps, IssueSet(issues), n, issues[i]);
    assert issues[i] !in clusters[j];
  }

  // ---------- the lead issue ----------

  /** No other member of the cluster depends on `n`. */
  predicate IsSink(cluster: seq<int>, deps: Deps, n: int) {
    !exists other :: other in cluster && other != n && other in deps && n in deps[other]
  }

  function Sinks(among: seq<int>, cluster: seq<int>, deps: Deps): (r: seq<int>)
    ensures forall n :: n in r <==> n in among && IsSink(cluster, deps, n)
  {
    if among == [] then []
    else (if IsSink(cluster, deps, among[0]) then [among[0]] else []) + Sinks(among[1..], cluster, deps)
  }

  ghost predicate IsLargest(s: seq<int>, m: int) {
    m in s && forall n :: n in s ==> n <= m
  }

  function MaxOf(s: seq<int>): (m: int)
    requires s != []
    ensures IsLargest(s, m)
  {
    if |s| == 1 then s[0]
    else
      var rest := MaxOf(s[1..]);
      assert s == [s[0]] + s[1..];
      if s[0] > rest then s[0] else rest
  }

  function HighestLevel(cluster: seq<int>, deps: Deps): (lead: int)
    ensures (exists n :: n in cluster && IsSink(cluster, deps, n)) ==>
              lead in cluster && IsSink(cluster, deps, lead) &&
              forall n :: n in cluster && IsSink(cluster, deps, n) ==> n <= lead
    ensures cluster != [] && !(exists n :: n in cluster && IsSink(cluster, deps, n)) ==> IsLargest(cluster, lead)
  {
    var sinks := Sinks(cluster, cluster, deps);
    if sinks != [] then
      assert sinks[0] in sinks;
      MaxOf(sinks)
    else if cluster != [] then MaxOf(cluster)
    else 0
  }

  /** Dependencies among different members of a cluster. */
  ghost function Inside(cluster: seq<int>, deps: Deps): (g: Graph)
    ensures Closed(g) && forall n :: n in g <==> n in cluster
    ensures forall n, d :: n in g ==> (d in g[n] <==> d in cluster && d != n && n in deps && d in deps[n])
  {
    map n | n in cluster :: set d | d in cluster && d != n && n in deps && d in deps[n]
  }

  ghost predicate Sinkless(cluster: seq<int>, deps: Deps) {
    forall n {:trigger IsSink(cluster, deps, n)} :: n in cluster ==> !IsSink(cluster, deps, n)
  }

  lemma {:induction false} WalkBackwards(cluster: seq<int>, deps: Deps, n: int, m: nat) returns (p: seq<int>)
    requires n in cluster && Sinkless(cluster, deps)
    ensures IsWalk(Inside(cluster, deps), p) && |p| == m + 1
  {
    var g := Inside(cluster, deps);
    if m == 0 {
      p := [n];
    } else {
      var rest := WalkBackwards(cluster, deps, n, m - 1);
      WalkStaysInside(g, rest);
      assert rest[0] in g;
      assert !IsSink(cluster, deps, rest[0]);
      var other :| other in cluster && other != rest[0] && other in deps && rest[0] in deps[other];
      p := [other] + rest;
      assert p[1..] == rest;
    }
  }

  lemma SinklessIsCyclic(cluster: seq<int>, deps: Deps)
    requires cluster != [] && Sinkless(cluster, deps)
    ensures !Acyclic(Inside(cluster, deps))
  {
    var g := Inside(cluster, deps);
    var p := WalkBackwards(cluster, deps, cluster[0], |g.Keys|);
    hide Inside, Sinkless;
    LongWalkRepeats(g, p);
    assert ReachesCycle(g, p[0]) && p[0] in g;
  }

  /** Another member of the cluster depends on `n`. */
  ghost predicate NeededIn(cluster: seq<int>, deps: Deps, n: int) {
    exists other :: other in cluster && other in deps && other != n && n in deps[other]
  }

  lemma SinkExactly(cluster: seq<int>, deps: Deps, n: int)
    ensures IsSink(cluster, deps, n) <==> !NeededIn(cluster, deps, n)
  {
  }

  /** In an acyclic cluster the lead is the largest member that no other member depends on. */
  lemma LeadOfAcyclic(cluster: seq<int>, deps: Deps)
    requires cluster != [] && Acyclic(Inside(cluster, deps))
    ensures var lead := HighestLevel(cluster, deps);
            lead in cluster && !NeededIn(cluster, deps, lead) &&
            forall n :: n in cluster && !NeededIn(cluster, deps, n) ==> n <= lead
  {
    forall n { SinkExactly(cluster, deps, n); }
    hide IsSink, HighestLevel, Acyclic, NeededIn;
    if Sinkless(cluster, deps) {
      SinklessIsCyclic(cluster, deps);
    }
  }
}
