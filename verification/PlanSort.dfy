/**
 * The plan's topological batches (`from_plan.rs`): Kahn's algorithm that decrements
 * counters, on plan items whose dependencies may repeat, be unknown or form cycles.
 */
module PlanSort {
  import opened Notation
  import opened Ordered
  import opened Walks
  import IssueGraph

  datatype PlanItem = PlanItem(id: string, title: string, deps: seq<string>, estimate: NoteValue)

  /** The index of each id; of several items with one id the last counts. */
  function IdToIdx(items: seq<PlanItem>): (m: map<string, int>)
    ensures forall id :: id in m ==> 0 <= m[id] < |items| && items[m[id]].id == id
    ensures forall i :: 0 <= i < |items| ==> items[i].id in m && i <= m[items[i].id]
  {
    if items == [] then map[]
    else
      var last := |items| - 1;
      IdToIdx(items[..last])[items[last].id := last]
  }

  /** The known dependencies of one item, as indices, in order and with repetitions. */
  function DepIndices(deps: seq<string>, idx: map<string, int>): (r: seq<int>)
    ensures forall j :: j in r <==> exists d :: d in deps && d in idx && idx[d] == j
  {
    if deps == [] then []
    else
      var last := |deps| - 1;
      assert deps == deps[..last] + [deps[last]];
      DepIndices(deps[..last], idx) + if deps[last] in idx then [idx[deps[last]]] else []
  }

  type DepTable = seq<seq<int>>

  ghost predicate ValidTable(d: DepTable) {
    forall i, j :: 0 <= i < |d| && j in d[i] ==> 0 <= j < |d|
  }

  ghost function TableOf(items: seq<PlanItem>): (d: DepTable)
    ensures |d| == |items|
    ensures forall i :: 0 <= i < |items| ==> d[i] == DepIndices(items[i].deps, IdToIdx(items))
    ensures ValidTable(d)
  {
    seq(|items|, i requires 0 <= i < |items| => DepIndices(items[i].deps, IdToIdx(items)))
  }

  /** The dependency graph on item indices. */
  ghost function GraphOf(d: DepTable): (g: Graph)
    requires ValidTable(d)
    ensures Closed(g) && forall i :: i in g <==> 0 <= i < |d|
  {
    map i | 0 <= i < |d| :: set j | j in d[i]
  }

  // ---------- counting occurrences ----------

  ghost function Count(s: seq<int>, x: int): nat {
    if s == [] then 0 else Count(s[..|s| - 1], x) + if s[|s| - 1] == x then 1 else 0
  }

  lemma CountSnoc(s: seq<int>, y: int, x: int)
    ensures Count(s + [y], x) == Count(s, x) + if y == x then 1 else 0
  {
    assert (s + [y])[..|s|] == s;
  }

  lemma {:induction false} CountPrefix(s: seq<int>, k: nat, x: int)
    requires k <= |s|
    ensures Count(s[..k], x) <= Count(s, x)
  {
    if k < |s| {
      CountPrefix(s[..|s| - 1], k, x);
      assert s[..|s| - 1][..k] == s[..k];
    } else {
      assert s[..k] == s;
    }
  }

  /** Dependency occurrences that are not yet popped. */
  ghost function Pending(deps: seq<int>, popped: set<int>): nat {
    if deps == [] then 0
    else Pending(deps[..|deps| - 1], popped) + if deps[|deps| - 1] in popped then 0 else 1
  }

  ghost predicate AllIn(deps: seq<int>, popped: set<int>) {
    forall j :: j in deps ==> j in popped
  }

  lemma {:induction false} PendingZero(deps: seq<int>, popped: set<int>)
    ensures Pending(deps, popped) == 0 <==> AllIn(deps, popped)
  {
    if deps == [] {
    } else {
      var front, last := deps[..|deps| - 1], deps[|deps| - 1];
      PendingZero(front, popped);
      assert deps == front + [last];
      assert AllIn(deps, popped) <==> AllIn(front, popped) && last in popped by {
        if AllIn(deps, popped) { forall j | j in front ensures j in popped { assert j in deps; } assert last in deps; }
      }
    }
  }

  /** Popping `i` removes exactly the occurrences of `i`. */
  lemma {:induction false} PendingPop(deps: seq<int>, popped: set<int>, i: int)
    requires i !in popped
    ensures Pending(deps, popped) == Pending(deps, popped + {i}) + Count(deps, i)
  {
    if deps == [] {
    } else {
      PendingPop(deps[..|deps| - 1], popped, i);
    }
  }

  // ---------- building the counters ----------

  lemma NonDescendingSnoc(s: seq<int>, x: int)
    requires NonDescending(s) && forall y :: y in s ==> y <= x
    ensures NonDescending(s + [x])
  {
    var all := s + [x];
    forall a, b | 0 <= a < b < |all| ensures all[a] <= all[b] {
      if b == |s| { assert all[a] in s; }
    }
  }

  lemma AscendingSnoc(s: seq<int>, x: int)
    requires Ascending(s) && forall y :: y in s ==> y < x
    ensures Ascending(s + [x])
  {
    var all := s + [x];
    forall a, b | 0 <= a < b < |all| ensures all[a] < all[b] {
      if b == |s| { assert all[a] in s; }
    }
  }

  ghost predicate Counters(d: DepTable, done: nat, inDegree: seq<nat>, successors: seq<seq<int>>) {
    |inDegree| == |d| && |successors| == |d| && done <= |d| &&
    (forall i :: 0 <= i < |d| ==> inDegree[i] == if i < done then |d[i]| else 0) &&
    (forall j :: 0 <= j < |d| ==> forall x :: x in successors[j] ==> 0 <= x < done) &&
    (forall j :: 0 <= j < |d| ==> NonDescending(successors[j])) &&
    (forall i, j {:trigger Count(successors[j], i)} :: 0 <= i < |d| && 0 <= j < |d| ==>
       Count(successors[j], i) == if i < done then Count(d[i], j) else 0)
  }

  /** Item `i` has been counted for the dependencies `seen` and entered among their successors. */
  ghost predicate Entered(d: DepTable, i: nat, seen: seq<int>, before: seq<nat>, now: seq<nat>, listed: seq<seq<int>>,
                          listed': seq<seq<int>>) {
    |before| == |now| == |listed| == |listed'| == |d| &&
    (forall m :: 0 <= m < |d| ==> now[m] == if m == i then |seen| else before[m]) &&
    (forall j :: 0 <= j < |d| ==> forall x :: x in listed'[j] ==> 0 <= x < i + 1) &&
    (forall j :: 0 <= j < |d| ==> NonDescending(listed'[j])) &&
    forall m, j {:trigger Count(listed'[j], m)} :: 0 <= m < |d| && 0 <= j < |d| ==>
      Count(listed'[j], m) == if m == i then Count(seen, j) else Count(listed[j], m)
  }

  lemma EnteredStart(d: DepTable, i: nat, inDegree: seq<nat>, successors: seq<seq<int>>)
    requires i < |d| && Counters(d, i, inDegree, successors)
    ensures Entered(d, i, [], inDegree, inDegree, successors, successors)
  {
    hide NonDescending;
  }

  lemma EnteredNext(d: DepTable, i: nat, seen: seq<int>, before: seq<nat>, now: seq<nat>, listed: seq<seq<int>>,
      listed': seq<seq<int>>, j: int)
    requires Entered(d, i, seen, before, now, listed, listed') && i < |d| && 0 <= j < |d|
    ensures Entered(d, i, seen + [j], before, now[i := now[i] + 1], listed, listed'[j := listed'[j] + [i]])
  {
    NonDescendingSnoc(listed'[j], i);
    hide Count, NonDescending;
    var more := listed'[j := listed'[j] + [i]];
    forall m, k | 0 <= m < |d| && 0 <= k < |d|
      ensures Count(more[k], m) == if m == i then Count(seen + [j], k) else Count(listed[k], m)
    {
      CountSnoc(listed'[j], i, m);
      CountSnoc(seen, j, k);
      assert Count(listed'[k], m) == if m == i then Count(seen, k) else Count(listed[k], m);
    }
  }

  /** Counts the dependency occurrences of item `i` and enters it among their successors. */
  method CountItem(ghost d: DepTable, i: nat, deps: seq<string>, idx: map<string, int>, inDegree: seq<nat>,
      successors: seq<seq<int>>)
    returns (inDegree': seq<nat>, successors': seq<seq<int>>)
    requires ValidTable(d) && i < |d| && d[i] == DepIndices(deps, idx)
    requires Counters(d, i, inDegree, successors)
    ensures Counters(d, i + 1, inDegree', successors')
  {
    inDegree', successors' := inDegree, successors;
    EnteredStart(d, i, inDegree, successors);
    for k := 0 to |deps|
      invariant Entered(d, i, DepIndices(deps[..k], idx), inDegree, inDegree', successors, successors')
    {
      assert deps[..k + 1][..k] == deps[..k];
      if deps[k] in idx {
        var j := idx[deps[k]];
        assert 0 <= j < |d| by { assert j in d[i]; }
        EnteredNext(d, i, DepIndices(deps[..k], idx), inDegree, inDegree', successors, successors', j);
        inDegree' := inDegree'[i := inDegree'[i] + 1];
        successors' := successors'[j := successors'[j] + [i]];
        assert DepIndices(deps[..k + 1], idx) == DepIndices(deps[..k], idx) + [j];
      } else {
        assert DepIndices(deps[..k + 1], idx) == DepIndices(deps[..k], idx);
      }
    }
    assert deps[..|deps|] == deps;
    CountedOne(d, i, inDegree, inDegree', successors, successors');
  }

  lemma CountedOne(d: DepTable, i: nat, inDegree: seq<nat>, inDegree': seq<nat>, successors: seq<seq<int>>,
      successors': seq<seq<int>>)
    requires i < |d| && Counters(d, i, inDegree, successors)
    requires Entered(d, i, d[i], inDegree, inDegree', successors, successors')
    ensures Counters(d, i + 1, inDegree', successors')
  {
    hide Count, NonDescending;
    forall m, j | 0 <= m < |d| && 0 <= j < |d| ensures Count(successors'[j], m) == if m < i + 1 then Count(d[m], j) else 0 {
      if m == i {
      } else {
        assert Count(successors[j], m) == if m < i then Count(d[m], j) else 0;
      }
    }
  }

  lemma NothingCounted(d: DepTable, inDegree: seq<nat>, successors: seq<seq<int>>)
    requires |inDegree| == |d| && |successors| == |d|
    requires forall i :: 0 <= i < |d| ==> inDegree[i] == 0
    requires forall j :: 0 <= j < |d| ==> |successors[j]| == 0
    ensures Counters(d, 0, inDegree, successors)
  {
    forall i, j | 0 <= i < |d| && 0 <= j < |d| ensures Count(successors[j], i) == 0 { assert |successors[j]| == 0; }
  }

  method CountDeps(items: seq<PlanItem>) returns (inDegree: seq<nat>, successors: seq<seq<int>>)
    ensures Counters(TableOf(items), |items|, inDegree, successors)
  {
    ghost var d := TableOf(items);
    var idx := IdToIdx(items);
    inDegree := seq(|items|, i => 0);
    successors := seq(|items|, i => []);
    NothingCounted(d, inDegree, successors);
    for i := 0 to |items|
      invariant Counters(d, i, inDegree, successors)
    {
      inDegree, successors := CountItem(d, i, items[i].deps, idx, inDegree, successors);
    }
  }

  // ---------- the sort ----------

  /** The counters hold the dependency occurrences not yet popped. */
  ghost predicate Exact(d: DepTable, popped: set<int>, inDegree: seq<nat>) {
    |inDegree| == |d| && forall j :: 0 <= j < |d| ==> inDegree[j] == Pending(d[j], popped)
  }

  /** Item `j` becomes free when `popped` grows to `popped'`. */
  ghost predicate Freed(d: DepTable, popped: set<int>, popped': set<int>, j: int) {
    0 <= j < |d| && !AllIn(d[j], popped) && AllIn(d[j], popped')
  }

  /** Decrements the counters of the successors of `i`; those that reach zero join the queue, in plan order. */
  method Release(ghost d: DepTable, ghost popped: set<int>, ghost i: int, succ: seq<int>, inDegree: seq<nat>, queue: seq<int>)
    returns (inDegree': seq<nat>, queue': seq<int>, ghost added: seq<int>)
    requires Exact(d, popped, inDegree) && i !in popped
    requires forall x :: x in succ ==> 0 <= x < |d|
    requires NonDescending(succ) && forall j :: 0 <= j < |d| ==> Count(succ, j) == Count(d[j], i)
    ensures Exact(d, popped + {i}, inDegree')
    ensures queue' == queue + added && Ascending(added)
    ensures forall j :: j in added <==> Freed(d, popped, popped + {i}, j)
  {
    hide Releasing, Exact, Freed, Count, Ascending, NonDescending;
    inDegree', queue', added := inDegree, queue, [];
    ReleaseStart(d, popped, succ, inDegree);
    for k := 0 to |succ|
      invariant Releasing(d, popped, succ[..k], inDegree, inDegree', added) && queue' == queue + added
    {
      var j := succ[k];
      ReleaseStep(d, popped, i, succ, k, inDegree, inDegree', added);
      inDegree' := inDegree'[j := inDegree'[j] - 1];
      if inDegree'[j] == 0 {
        queue', added := queue' + [j], added + [j];
      }
    }
    ReleaseEnd(d, popped, i, succ, inDegree, inDegree', added);
  }

  lemma ReleaseStep(d: DepTable, popped: set<int>, i: int, succ: seq<int>, k: nat, before: seq<nat>, now: seq<nat>,
      added: seq<int>)
    requires i !in popped && k < |succ| && Releasing(d, popped, succ[..k], before, now, added)
    requires forall x :: x in succ ==> 0 <= x < |d|
    requires NonDescending(succ) && forall j :: 0 <= j < |d| ==> Count(succ, j) == Count(d[j], i)
    ensures 0 <= succ[k] < |d| == |now| && now[succ[k]] > 0
    ensures var j := succ[k];
            Releasing(d, popped, succ[..k + 1], before, now[j := now[j] - 1], if now[j] == 1 then added + [j] else added)
  {
    hide Count, Pending, NonDescending;
    var j := succ[k];
    assert j in succ && succ[..k + 1] == succ[..k] + [j];
    StillCounted(succ, k);
    PendingPop(d[j], popped, i);
    ReleaseNext(d, popped, succ[..k], j, before, now, added);
  }

  lemma StillCounted(succ: seq<int>, k: nat)
    requires k < |succ|
    ensures Count(succ[..k], succ[k]) < Count(succ, succ[k])
    ensures NonDescending(succ) ==> NonDescending(succ[..k + 1])
  {
    assert succ[..k + 1] == succ[..k] + [succ[k]];
    hide Count;
    CountPrefix(succ, k + 1, succ[k]);
    CountSnoc(succ[..k], succ[k], succ[k]);
  }

  lemma ReleaseEnd(d: DepTable, popped: set<int>, i: int, succ: seq<int>, before: seq<nat>, now: seq<nat>, added: seq<int>)
    requires i !in popped && Releasing(d, popped, succ[..|succ|], before, now, added)
    requires forall j :: 0 <= j < |d| ==> Count(succ, j) == Count(d[j], i)
    ensures Exact(d, popped + {i}, now) && Ascending(added)
    ensures forall j :: j in added <==> Freed(d, popped, popped + {i}, j)
  {
    assert succ[..|succ|] == succ;
    hide Count, Pending, AllIn;
    forall j | 0 <= j < |d|
      ensures now[j] == Pending(d[j], popped + {i})
      ensures j in added <==> Freed(d, popped, popped + {i}, j)
    {
      PendingPop(d[j], popped, i);
      PendingZero(d[j], popped);
      PendingZero(d[j], popped + {i});
    }
  }

  /** The counters after the occurrences `seen` were taken off, and the items that reached zero by that. */
  ghost predicate Releasing(d: DepTable, popped: set<int>, seen: seq<int>, before: seq<nat>, now: seq<nat>, added: seq<int>) {
    |before| == |now| == |d| &&
    (forall j :: 0 <= j < |d| ==> now[j] + Count(seen, j) == before[j] == Pending(d[j], popped)) &&
    Ascending(added) && (forall j :: j in added ==> j in seen) &&
    forall j :: j in added <==> 0 <= j < |d| && before[j] > 0 && now[j] == 0
  }

  lemma ReleaseStart(d: DepTable, popped: set<int>, succ: seq<int>, inDegree: seq<nat>)
    requires Exact(d, popped, inDegree)
    ensures succ[..0] == [] && Releasing(d, popped, [], inDegree, inDegree, [])
  {
  }

  lemma ReleaseNext(d: DepTable, popped: set<int>, seen: seq<int>, j: int, before: seq<nat>, now: seq<nat>, added: seq<int>)
    requires Releasing(d, popped, seen, before, now, added) && 0 <= j < |d| && now[j] > 0
    requires NonDescending(seen + [j])
    ensures Releasing(d, popped, seen + [j], before, now[j := now[j] - 1], if now[j] == 1 then added + [j] else added)
  {
    hide Count, Pending;
    forall m { CountSnoc(seen, j, m); }
    if now[j] == 1 {
      forall x | x in added ensures x < j {
        var m :| 0 <= m < |seen| && seen[m] == x;
        assert (seen + [j])[m] <= (seen + [j])[|seen|];
      }
      AscendingSnoc(added, j);
    }
  }

  ghost function Upto(popped: set<int>, layer: seq<int>): set<int> {
    popped + set x | x in layer
  }

  /** Pops one layer off the queue; the items it frees are queued behind it. */
  method PopLayer(ghost d: DepTable, ghost popped: set<int>, layer: seq<int>, successors: seq<seq<int>>, inDegree: seq<nat>)
    returns (batch: seq<int>, next: seq<int>, inDegree': seq<nat>)
    requires Exact(d, popped, inDegree) && Counted(d, successors)
    requires NoDuplicates(layer) && forall x :: x in layer ==> 0 <= x < |d| && x !in popped
    ensures batch == layer
    ensures Exact(d, Upto(popped, layer), inDegree')
    ensures NoDuplicates(next) && forall j :: j in next <==> Freed(d, popped, Upto(popped, layer), j)
    ensures Released(d, layer, next)
  {
    var queue := layer;
    ghost var behind: seq<int> := [];
    batch, inDegree' := [], inDegree;
    assert Upto(popped, []) == popped;
    for t := 0 to |layer|
      invariant batch == layer[..t]
      invariant queue == layer[t..] + behind
      invariant Exact(d, Upto(popped, layer[..t]), inDegree')
      invariant NoDuplicates(behind) && forall j :: j in behind <==> Freed(d, popped, Upto(popped, layer[..t]), j)
      invariant Released(d, layer, behind)
    {
      var i := queue[0];
      queue := queue[1..];
      batch := batch + [i];
      assert i == layer[t] && i in layer;
      ghost var before, after := Upto(popped, layer[..t]), Upto(popped, layer[..t + 1]);
      assert layer[..t + 1] == layer[..t] + [i];
      assert after == before + {i};
      assert i !in before;
      ghost var added;
      inDegree', queue, added := Release(d, before, i, successors[i], inDegree', queue);
      FreedInSteps(d, popped, before, after, behind, added);
      ReleasedInSteps(d, popped, layer, t, behind, added);
      behind := behind + added;
    }
    assert layer[..|layer|] == layer;
    next := queue;
  }

  /** `successors` lists each dependent as often as it names the dependency. */
  ghost predicate Counted(d: DepTable, successors: seq<seq<int>>) {
    |successors| == |d| &&
    (forall j :: 0 <= j < |d| ==> forall x :: x in successors[j] ==> 0 <= x < |d|) &&
    (forall j :: 0 <= j < |d| ==> NonDescending(successors[j])) &&
    (forall i, j :: 0 <= i < |d| && 0 <= j < |d| ==> Count(successors[j], i) == Count(d[i], j))
  }

  // ---------- the order inside a batch ----------

  /** Where the last of some dependencies stands in a batch, or -1. */
  ghost function LastPos(batch: seq<int>, deps: seq<int>): (p: int)
    ensures -1 <= p < |batch|
    ensures p >= 0 ==> batch[p] in deps
    ensures forall q :: p < q < |batch| ==> batch[q] !in deps
  {
    if batch == [] then -1
    else if batch[|batch| - 1] in deps then |batch| - 1
    else LastPos(batch[..|batch| - 1], deps)
  }

  /** `x` is queued before `y`: its last dependency is popped earlier, or by the same pop and it comes first in the plan. */
  ghost predicate Sooner(d: DepTable, prev: seq<int>, x: int, y: int) {
    0 <= x < |d| && 0 <= y < |d| &&
    (LastPos(prev, d[x]) < LastPos(prev, d[y]) || (LastPos(prev, d[x]) == LastPos(prev, d[y]) && x < y))
  }

  /** A batch in the order in which popping the batch before it queues its items. */
  ghost predicate Released(d: DepTable, prev: seq<int>, batch: seq<int>) {
    forall a, b :: 0 <= a < b < |batch| ==> Sooner(d, prev, batch[a], batch[b])
  }

  lemma FreedAt(d: DepTable, popped: set<int>, layer: seq<int>, t: nat, j: int)
    requires NoDuplicates(layer) && t < |layer| && forall x :: x in layer ==> x !in popped
    requires Freed(d, Upto(popped, layer[..t]), Upto(popped, layer[..t + 1]), j)
    ensures LastPos(layer, d[j]) == t
  {
    var x :| x in d[j] && x !in Upto(popped, layer[..t]);
    UptoNext(popped, layer, t);
    assert x == layer[t];
    forall q | t < q < |layer| ensures layer[q] !in d[j] {
      assert layer[q] in layer && layer[q] !in layer[..t + 1];
      assert layer[q] !in Upto(popped, layer[..t + 1]);
    }
    hide Upto, Freed;
  }

  lemma UptoNext(popped: set<int>, layer: seq<int>, t: nat)
    requires t < |layer|
    ensures Upto(popped, layer[..t + 1]) == Upto(popped, layer[..t]) + {layer[t]}
  {
    assert layer[..t + 1] == layer[..t] + [layer[t]];
  }

  lemma FreedBefore(d: DepTable, popped: set<int>, layer: seq<int>, t: nat, j: int)
    requires NoDuplicates(layer) && t < |layer| && forall x :: x in layer ==> x !in popped
    requires Freed(d, popped, Upto(popped, layer[..t]), j)
    ensures LastPos(layer, d[j]) < t
  {
    var p := LastPos(layer, d[j]);
    forall q | t <= q < |layer| ensures layer[q] !in d[j] { assert layer[q] !in Upto(popped, layer[..t]); }
  }

  lemma ReleasedInSteps(d: DepTable, popped: set<int>, layer: seq<int>, t: nat, behind: seq<int>, added: seq<int>)
    requires NoDuplicates(layer) && t < |layer| && forall x :: x in layer ==> x !in popped
    requires forall j :: j in behind ==> Freed(d, popped, Upto(popped, layer[..t]), j)
    requires forall j :: j in added ==> Freed(d, Upto(popped, layer[..t]), Upto(popped, layer[..t + 1]), j)
    requires Released(d, layer, behind) && Ascending(added)
    ensures Released(d, layer, behind + added)
  {
    forall j | j in behind ensures 0 <= j < |d| && LastPos(layer, d[j]) < t { FreedBefore(d, popped, layer, t, j); }
    forall j | j in added ensures 0 <= j < |d| && LastPos(layer, d[j]) == t { FreedAt(d, popped, layer, t, j); }
    hide LastPos, Freed;
    var all := behind + added;
    forall a, b | 0 <= a < b < |all| ensures Sooner(d, layer, all[a], all[b]) {
      if b >= |behind| {
        assert all[b] in added;
        if a < |behind| { assert all[a] in behind; } else { assert all[a] in added; }
      }
    }
  }

  /** Batch `k` stands in plan order if it is the first, else in the order its items were released. */
  ghost predicate ReleasedAt(d: DepTable, batches: seq<seq<int>>, k: nat)
    requires k < |batches|
  {
    if k == 0 then Ascending(batches[0]) else Released(d, batches[k - 1], batches[k])
  }

  ghost predicate InQueueOrder(d: DepTable, batches: seq<seq<int>>) {
    forall k {:trigger ReleasedAt(d, batches, k)} :: 0 <= k < |batches| ==> ReleasedAt(d, batches, k)
  }

  /** The queue behind these batches. */
  ghost predicate QueuedBehind(d: DepTable, batches: seq<seq<int>>, queue: seq<int>) {
    if batches == [] then Ascending(queue) else Released(d, batches[|batches| - 1], queue)
  }

  lemma QueueOrderSnoc(d: DepTable, batches: seq<seq<int>>, queue: seq<int>)
    requires InQueueOrder(d, batches) && QueuedBehind(d, batches, queue)
    ensures InQueueOrder(d, batches + [queue])
  {
    hide Released;
    var more := batches + [queue];
    forall k | 0 <= k < |more| ensures ReleasedAt(d, more, k) {
      if k < |batches| { assert ReleasedAt(d, batches, k); }
    }
  }

  /** A later batch stands in plan order exactly when items that come later in the plan are released no earlier. */
  lemma PlanOrderExactlyWhen(d: DepTable, batches: seq<seq<int>>, k: nat)
    requires InQueueOrder(d, batches) && 0 < k < |batches|
    requires forall x :: x in batches[k] ==> 0 <= x < |d|
    ensures Ascending(batches[k]) <==>
            forall x, y :: x in batches[k] && y in batches[k] && x < y ==>
              LastPos(batches[k - 1], d[x]) <= LastPos(batches[k - 1], d[y])
  {
    assert ReleasedAt(d, batches, k);
    OrderedExactlyWhen(d, batches[k - 1], batches[k]);
  }

  lemma OrderedExactlyWhen(d: DepTable, prev: seq<int>, batch: seq<int>)
    requires Released(d, prev, batch) && forall x :: x in batch ==> 0 <= x < |d|
    ensures Ascending(batch) <==>
            forall x, y :: x in batch && y in batch && x < y ==> LastPos(prev, d[x]) <= LastPos(prev, d[y])
  {
    hide LastPos;
    if Ascending(batch) {
      forall x, y | x in batch && y in batch && x < y ensures LastPos(prev, d[x]) <= LastPos(prev, d[y]) {
        var a :| 0 <= a < |batch| && batch[a] == x;
        var b :| 0 <= b < |batch| && batch[b] == y;
        assert a < b;
      }
    }
    if forall x, y :: x in batch && y in batch && x < y ==> LastPos(prev, d[x]) <= LastPos(prev, d[y]) {
      forall a, b | 0 <= a < b < |batch| ensures batch[a] < batch[b] {
        assert Sooner(d, prev, batch[a], batch[b]);
        assert batch[a] in batch && batch[b] in batch;
      }
    }
  }

  // ---------- plan order, read off the plan ----------

  /** `j` is the greatest of the dependencies of `x` whose longest chain has `k` steps. */
  ghost predicate GreatestDep(d: DepTable, x: int, k: nat, j: int)
    requires ValidTable(d) && 0 <= x < |d|
  {
    j in d[x] && LongestChain(GraphOf(d), j, k) && forall i :: i in d[x] && LongestChain(GraphOf(d), i, k) ==> i <= j
  }

  /** Of two items `x < y` at one depth, the greatest dependencies one step less deep are in the same order. */
  ghost predicate OrderedAt(d: DepTable, x: int, y: int, k: nat)
    requires ValidTable(d) && 0 <= x < y < |d|
  {
    LongestChain(GraphOf(d), x, k + 1) && LongestChain(GraphOf(d), y, k + 1) ==>
      forall i, j :: GreatestDep(d, x, k, i) && GreatestDep(d, y, k, j) ==> i <= j
  }

  /** The condition on a plan under which all batches stand in plan order. */
  ghost predicate WellOrdered(d: DepTable)
    requires ValidTable(d)
  {
    forall x, y, k: nat :: 0 <= x < y < |d| ==> OrderedAt(d, x, y, k)
  }

  /** What the sort promises. */
  ghost predicate Sorts(d: DepTable, batches: seq<seq<int>>)
    requires ValidTable(d)
  {
    Layering(GraphOf(d), batches) && Stuck(GraphOf(d), batches) && InQueueOrder(d, batches)
  }

  ghost predicate InPlanOrder(batches: seq<seq<int>>) {
    forall k :: 0 <= k < |batches| ==> Ascending(batches[k])
  }

  /** In a batch that stands in plan order the last dependency popped is the greatest. */
  lemma LastIsGreatest(d: DepTable, batches: seq<seq<int>>, k: nat, x: int)
    requires ValidTable(d) && Sorts(d, batches) && k + 1 < |batches| && Ascending(batches[k]) && x in batches[k + 1]
    ensures 0 <= x < |d| && LongestChain(GraphOf(d), x, k + 1)
    ensures var p := LastPos(batches[k], d[x]); p >= 0 && GreatestDep(d, x, k, batches[k][p])
  {
    var g, prev := GraphOf(d), batches[k];
    DependsOnLast(d, batches, k, x);
    LayeringMeaning(g, batches);
    hide *;
    GreatestByLast(prev, d[x]);
    GreatestWhen(d, x, k, prev);
  }

  lemma DependsOnLast(d: DepTable, batches: seq<seq<int>>, k: nat, x: int)
    requires ValidTable(d) && Sorts(d, batches) && k + 1 < |batches| && x in batches[k + 1]
    ensures Layering(GraphOf(d), batches) && Stuck(GraphOf(d), batches) && Closed(GraphOf(d))
    ensures x in GraphOf(d) && 0 <= x < |d| && exists i :: i in d[x] && i in batches[k]
  {
    assert FitsIn(GraphOf(d), batches, k + 1, x);
    hide Stuck, InQueueOrder;
  }

  lemma GreatestByLast(prev: seq<int>, deps: seq<int>)
    requires Ascending(prev) && exists i :: i in deps && i in prev
    ensures var p := LastPos(prev, deps); p >= 0 && prev[p] in deps && forall j :: j in deps && j in prev ==> j <= prev[p]
  {
    var p := LastPos(prev, deps);
    hide LastPos;
    var i :| i in deps && i in prev;
    var q :| 0 <= q < |prev| && prev[q] == i;
    forall j | j in deps && j in prev ensures j <= prev[p] {
      var r :| 0 <= r < |prev| && prev[r] == j;
      assert r <= p;
    }
  }

  lemma GreatestWhen(d: DepTable, x: int, k: nat, prev: seq<int>)
    requires ValidTable(d) && 0 <= x < |d| && forall j :: j in prev <==> j in GraphOf(d) && LongestChain(GraphOf(d), j, k)
    requires var p := LastPos(prev, d[x]);
             p >= 0 && prev[p] in d[x] && forall j :: j in d[x] && j in prev ==> j <= prev[p]
    ensures GreatestDep(d, x, k, prev[LastPos(prev, d[x])])
  {
    hide LongestChain, LastPos;
    var p := LastPos(prev, d[x]);
    assert prev[p] in prev;
    forall j | j in d[x] && LongestChain(GraphOf(d), j, k) ensures j <= prev[p] {
      assert j in GraphOf(d);
    }
  }

  lemma OneGreatest(d: DepTable, x: int, k: nat, i: int, j: int)
    requires ValidTable(d) && 0 <= x < |d| && GreatestDep(d, x, k, i) && GreatestDep(d, x, k, j)
    ensures i == j
  {
    hide LongestChain;
  }

  lemma AscendingIndex(s: seq<int>, p: int, q: int)
    requires Ascending(s) && 0 <= p < |s| && 0 <= q < |s|
    ensures p <= q <==> s[p] <= s[q]
  {
  }

  /** One step of the plan order: the batch after one in plan order is in plan order exactly if its items are ordered. */
  lemma NextOrderedExactlyWhen(d: DepTable, batches: seq<seq<int>>, k: nat)
    requires ValidTable(d) && Sorts(d, batches) && k + 1 < |batches| && Ascending(batches[k])
    ensures Ascending(batches[k + 1]) <==> forall x, y :: x in batches[k + 1] && y in batches[k + 1] && x < y ==>
              0 <= x < y < |d| && OrderedAt(d, x, y, k)
  {
    var prev, batch := batches[k], batches[k + 1];
    forall x | x in batch ensures 0 <= x < |d| { LastIsGreatest(d, batches, k, x); }
    PlanOrderExactlyWhen(d, batches, k + 1);
    hide Sorts, Ascending;
    forall x, y | x in batch && y in batch && x < y
      ensures OrderedAt(d, x, y, k) <==> LastPos(prev, d[x]) <= LastPos(prev, d[y])
    {
      OrderedByLast(d, batches, k, x, y);
    }
    hide OrderedAt, LastPos;
  }

  lemma OrderedByLast(d: DepTable, batches: seq<seq<int>>, k: nat, x: int, y: int)
    requires ValidTable(d) && Sorts(d, batches) && k + 1 < |batches| && Ascending(batches[k])
    requires x in batches[k + 1] && y in batches[k + 1] && 0 <= x < y < |d|
    ensures OrderedAt(d, x, y, k) <==> LastPos(batches[k], d[x]) <= LastPos(batches[k], d[y])
  {
    var prev := batches[k];
    LastIsGreatest(d, batches, k, x);
    LastIsGreatest(d, batches, k, y);
    var p, q := LastPos(prev, d[x]), LastPos(prev, d[y]);
    AscendingIndex(prev, p, q);
    hide Sorts, Ascending, GreatestDep, LongestChain, LastPos;
    forall i, j | GreatestDep(d, x, k, i) && GreatestDep(d, y, k, j) ensures i == prev[p] && j == prev[q] {
      OneGreatest(d, x, k, i, prev[p]);
      OneGreatest(d, y, k, j, prev[q]);
    }
    assert GreatestDep(d, x, k, prev[p]) && GreatestDep(d, y, k, prev[q]);
  }

  lemma {:induction false} OrderedUpTo(d: DepTable, batches: seq<seq<int>>, k: nat)
    requires ValidTable(d) && Sorts(d, batches) && WellOrdered(d) && k < |batches|
    ensures Ascending(batches[k])
  {
    if k == 0 {
      assert ReleasedAt(d, batches, 0);
    } else {
      OrderedUpTo(d, batches, k - 1);
      forall x | x in batches[k] ensures 0 <= x < |d| { LastIsGreatest(d, batches, k - 1, x); }
      NextOrderedExactlyWhen(d, batches, k - 1);
      hide Sorts, Ascending, OrderedAt;
      assert forall x, y :: x in batches[k] && y in batches[k] && x < y ==> OrderedAt(d, x, y, k - 1);
    }
  }

  /**
   * Every batch stands in plan order, as documented, exactly if the plan itself is such that of two items at one depth the
   * earlier one has no greater greatest dependency one step less deep.
   */
  lemma PlanKeptExactlyWhen(d: DepTable, batches: seq<seq<int>>)
    requires ValidTable(d) && Sorts(d, batches)
    ensures InPlanOrder(batches) <==> WellOrdered(d)
  {
    if InPlanOrder(batches) {
      forall x, y, k: nat | 0 <= x < y < |d| ensures OrderedAt(d, x, y, k) {
        PlanKeptOrders(d, batches, x, y, k);
      }
    }
    if WellOrdered(d) {
      forall k | 0 <= k < |batches| ensures Ascending(batches[k]) { OrderedUpTo(d, batches, k); }
    }
  }

  lemma PlanKeptOrders(d: DepTable, batches: seq<seq<int>>, x: int, y: int, k: nat)
    requires ValidTable(d) && Sorts(d, batches) && InPlanOrder(batches) && 0 <= x < y < |d|
    ensures OrderedAt(d, x, y, k)
  {
    var g := GraphOf(d);
    LayeringMeaning(g, batches);
    hide Layering, Stuck, LongestChain, ReachesCycle, InQueueOrder, Placed;
    if LongestChain(g, x, k + 1) && LongestChain(g, y, k + 1) {
      assert x in g && y in g;
      assert x in batches[k + 1] && y in batches[k + 1];
      NextOrderedExactlyWhen(d, batches, k);
      hide OrderedAt;
    }
  }

  lemma {:induction false} SameRelease(d: DepTable, prev: seq<int>, a: seq<int>, b: seq<int>)
    requires Released(d, prev, a) && Released(d, prev, b) && forall x :: x in a <==> x in b
    ensures a == b
  {
    if a == [] {
      if b != [] { FirstIn(b, a); }
    } else {
      FirstIn(a, b);
      FirstIn(b, a);
      SameHead(d, prev, a, b);
      forall x ensures x in a[1..] <==> x in b[1..] { InTail(d, prev, a, x); InTail(d, prev, b, x); }
      hide LastPos, Sooner;
      SameRelease(d, prev, a[1..], b[1..]);
    }
  }

  lemma FirstIn(a: seq<int>, b: seq<int>)
    requires a != [] && forall x :: x in a <==> x in b
    ensures a[0] in b && b != []
  {
    var x: int := a[0];
    assert x in a;
    assert x in b;
  }

  lemma InTail(d: DepTable, prev: seq<int>, a: seq<int>, x: int)
    requires Released(d, prev, a) && a != []
    ensures x in a[1..] <==> x in a && x != a[0]
  {
    hide LastPos;
    if x in a[1..] {
      var i :| 0 <= i < |a[1..]| && a[1..][i] == x;
      assert Sooner(d, prev, a[0], a[i + 1]);
    }
  }

  lemma SameHead(d: DepTable, prev: seq<int>, a: seq<int>, b: seq<int>)
    requires Released(d, prev, a) && Released(d, prev, b) && a != [] && b != [] && a[0] in b && b[0] in a
    ensures a[0] == b[0]
  {
    hide LastPos;
    var i :| 0 <= i < |a| && a[i] == b[0];
    var j :| 0 <= j < |b| && b[j] == a[0];
    assert i > 0 ==> Sooner(d, prev, a[0], b[0]);
    assert j > 0 ==> Sooner(d, prev, b[0], a[0]);
  }

  /** The promises about a sort of a plan leave one possible result. */
  lemma BatchesDetermined(d: DepTable, a: seq<seq<int>>, b: seq<seq<int>>)
    requires ValidTable(d) && InQueueOrder(d, a) && InQueueOrder(d, b)
    requires Layering(GraphOf(d), a) && Stuck(GraphOf(d), a) && Layering(GraphOf(d), b) && Stuck(GraphOf(d), b)
    ensures a == b
  {
    LayeringsAgree(GraphOf(d), a, b);
    hide Layering, Stuck, GraphOf, Released;
    forall k | 0 <= k < |a| ensures a[k] == b[k] { SameBatch(d, a, b, k); }
  }

  lemma {:induction false} SameBatch(d: DepTable, a: seq<seq<int>>, b: seq<seq<int>>, k: nat)
    requires InQueueOrder(d, a) && InQueueOrder(d, b) && |a| == |b| && k < |a|
    requires forall i, n :: 0 <= i < |a| ==> (n in a[i] <==> n in b[i])
    ensures a[k] == b[k]
  {
    hide Released;
    assert ReleasedAt(d, a, k) && ReleasedAt(d, b, k);
    if k == 0 {
      AscendingUnique(a[0], b[0]);
    } else {
      SameBatch(d, a, b, k - 1);
      SameRelease(d, a[k - 1], a[k], b[k]);
    }
  }

  lemma FreedInSteps(d: DepTable, popped: set<int>, before: set<int>, after: set<int>, behind: seq<int>, added: seq<int>)
    requires popped <= before <= after
    requires NoDuplicates(behind) && forall j :: j in behind <==> Freed(d, popped, before, j)
    requires NoDuplicates(added) && forall j :: j in added <==> Freed(d, before, after, j)
    ensures NoDuplicates(behind + added) && forall j :: j in behind + added <==> Freed(d, popped, after, j)
  {
    var all := behind + added;
    forall a, b | 0 <= a < b < |all| ensures all[a] != all[b] {
      if a < |behind| && |behind| <= b {
        assert all[a] in behind && all[b] in added;
      }
    }
  }

  ghost predicate Popped(batches: seq<seq<int>>, popped: set<int>) {
    forall n :: n in popped <==> Placed(batches, n)
  }

  lemma WaitsMeansPending(d: DepTable, batches: seq<seq<int>>, popped: set<int>, n: int)
    requires ValidTable(d) && Popped(batches, popped) && 0 <= n < |d|
    ensures Waits(GraphOf(d), batches, n) <==> !AllIn(d[n], popped)
  {
  }

  /** The state of the sort between two layers. */
  ghost predicate SortState(d: DepTable, batches: seq<seq<int>>, queue: seq<int>, popped: set<int>, inDegree: seq<nat>)
    requires ValidTable(d)
  {
    Frontier(GraphOf(d), batches, queue) && Popped(batches, popped) && Exact(d, popped, inDegree) &&
    popped <= GraphOf(d).Keys && InQueueOrder(d, batches) && QueuedBehind(d, batches, queue)
  }

  /** One round of the sort. */
  method NextLayer(ghost d: DepTable, ghost batches: seq<seq<int>>, queue: seq<int>, ghost popped: set<int>,
                   successors: seq<seq<int>>, inDegree: seq<nat>)
    returns (batch: seq<int>, next: seq<int>, inDegree': seq<nat>)
    requires ValidTable(d) && Counted(d, successors) && queue != []
    requires SortState(d, batches, queue, popped, inDegree)
    ensures SortState(d, batches + [batch], next, Upto(popped, queue), inDegree')
    ensures GraphOf(d).Keys - Upto(popped, queue) < GraphOf(d).Keys - popped
  {
    LayerIsNew(GraphOf(d), batches, queue, popped);
    batch, next, inDegree' := PopLayer(d, popped, queue, successors, inDegree);
    LayerDone(d, batches, queue, popped, next);
    assert queue[0] in Upto(popped, queue) && queue[0] in queue;
    QueueOrderSnoc(d, batches, queue);
  }

  method AllLayers(items: seq<PlanItem>) returns (batches: seq<seq<int>>)
    ensures Frontier(GraphOf(TableOf(items)), batches, [])
    ensures InQueueOrder(TableOf(items), batches)
  {
    ghost var d := TableOf(items);
    ghost var popped: set<int> := {};
    var inDegree, successors := CountDeps(items);
    batches := [];
    var queue := InOrder(set i | 0 <= i < |items| && inDegree[i] == 0);
    StartOfSort(d, inDegree, successors, queue);
    while queue != []
      invariant SortState(d, batches, queue, popped, inDegree)
      decreases GraphOf(d).Keys - popped
    {
      var batch;
      ghost var layer := queue;
      batch, queue, inDegree := NextLayer(d, batches, queue, popped, successors, inDegree);
      popped := Upto(popped, layer);
      batches := batches + [batch];
    }
  }

  /** The items in topological batches, by index. */
  method TopoBatches(items: seq<PlanItem>) returns (batches: seq<seq<int>>)
    ensures Layering(GraphOf(TableOf(items)), batches) && Stuck(GraphOf(TableOf(items)), batches)
    ensures forall i, k :: 0 <= k < |batches| ==>
              (i in batches[k] <==> 0 <= i < |items| && LongestChain(GraphOf(TableOf(items)), i, k))
    ensures forall i :: 0 <= i < |items| ==> (Placed(batches, i) <==> !ReachesCycle(GraphOf(TableOf(items)), i))
    ensures InQueueOrder(TableOf(items), batches)
  {
    batches := AllLayers(items);
    LayersOfItems(TableOf(items), batches);
    hide GraphOf, LongestChain, ReachesCycle, Placed, Layering, Stuck;
  }

  lemma LayersOfItems(d: DepTable, batches: seq<seq<int>>)
    requires ValidTable(d) && Frontier(GraphOf(d), batches, [])
    ensures Layering(GraphOf(d), batches) && Stuck(GraphOf(d), batches)
    ensures forall i, k :: 0 <= k < |batches| ==> (i in batches[k] <==> 0 <= i < |d| && LongestChain(GraphOf(d), i, k))
    ensures forall i :: 0 <= i < |d| ==> (Placed(batches, i) <==> !ReachesCycle(GraphOf(d), i))
  {
    var g := GraphOf(d);
    assert Stuck(g, batches);
    hide Frontier, Layering, Stuck, LongestChain, ReachesCycle, Placed;
    LayeringMeaning(g, batches);
    forall i, k | 0 <= k < |batches| ensures i in batches[k] <==> 0 <= i < |d| && LongestChain(g, i, k) {
      assert i in batches[k] <==> i in g && LongestChain(g, i, k);
    }
  }

  /**
   * On the dependency graph of a plan this sort and the batched sort of the issue graph give
   * the same batches up to order; `issueBatches` is any result the issue graph's sort promises.
   */
  lemma SortsAgree(items: seq<PlanItem>, issueBatches: seq<seq<int>>, planBatches: seq<seq<int>>)
    requires var g := IssueGraph.Active(GraphOf(TableOf(items)), {}); Layering(g, issueBatches) && Stuck(g, issueBatches)
    requires var g := GraphOf(TableOf(items)); Layering(g, planBatches) && Stuck(g, planBatches)
    ensures |issueBatches| == |planBatches|
    ensures forall k, i :: 0 <= k < |planBatches| ==> (i in issueBatches[k] <==> i in planBatches[k])
  {
    var g := GraphOf(TableOf(items));
    assert IssueGraph.Active(g, {}) == g by {
      forall n | n in g ensures g[n] * g.Keys - {} == g[n] {}
    }
    LayeringsAgree(g, issueBatches, planBatches);
  }

  lemma StartOfSort(d: DepTable, inDegree: seq<nat>, successors: seq<seq<int>>, queue: seq<int>)
    requires ValidTable(d) && Counters(d, |d|, inDegree, successors)
    requires Ascending(queue) && forall i :: i in queue <==> 0 <= i < |d| && inDegree[i] == 0
    ensures SortState(d, [], queue, {}, inDegree) && Counted(d, successors)
  {
    forall i | 0 <= i < |d| ensures |d[i]| == Pending(d[i], {}) && (d[i] == [] <==> GraphOf(d)[i] == {}) {
      NothingPopped(d[i]);
      if d[i] != [] { assert d[i][0] in GraphOf(d)[i]; }
    }
    InitialFrontier(GraphOf(d), queue);
  }

  lemma {:induction false} NothingPopped(deps: seq<int>)
    ensures Pending(deps, {}) == |deps|
  {
    if deps == [] {
    } else {
      NothingPopped(deps[..|deps| - 1]);
    }
  }

  lemma LayerIsNew(g: Graph, batches: seq<seq<int>>, queue: seq<int>, popped: set<int>)
    requires Frontier(g, batches, queue) && Popped(batches, popped)
    ensures NoDuplicates(queue) && forall x :: x in queue ==> x in g && x !in popped
  {
    forall x | x in queue ensures x in g && x !in popped { assert FitsIn(g, batches, |batches|, x); }
  }

  lemma LayerDone(d: DepTable, batches: seq<seq<int>>, layer: seq<int>, popped: set<int>, next: seq<int>)
    requires ValidTable(d) && Frontier(GraphOf(d), batches, layer) && Popped(batches, popped) && layer != []
    requires NoDuplicates(next) && forall j :: j in next <==> Freed(d, popped, Upto(popped, layer), j)
    ensures Frontier(GraphOf(d), batches + [layer], next)
    ensures Popped(batches + [layer], Upto(popped, layer))
  {
    var g := GraphOf(d);
    var popped' := Upto(popped, layer);
    assert Popped(batches + [layer], popped') by {
      forall n ensures n in popped' <==> Placed(batches + [layer], n) { BeforeSnoc(batches, layer, 0, n); }
    }
    forall n | n in g
      ensures n in next <==> n !in layer && !Placed(batches, n) && !Waits(g, batches + [layer], n)
    {
      WaitsMeansPending(d, batches, popped, n);
      WaitsMeansPending(d, batches + [layer], popped', n);
      if n in layer { assert FitsIn(g, batches, |batches|, n); }
      if Placed(batches, n) { PlacedDoesNotWait(g, batches, n); }
      if n !in layer && !Placed(batches, n) { assert Waits(g, batches, n); }
    }
    FrontierAdvances(g, batches, layer, layer, next);
  }

  lemma PlacedDoesNotWait(g: Graph, batches: seq<seq<int>>, n: int)
    requires Layering(g, batches) && Placed(batches, n)
    ensures n in g && !Waits(g, batches, n)
  {
    var k :| 0 <= k < |batches| && n in batches[k];
    assert FitsIn(g, batches, k, n);
    forall d | d in g[n] ensures Placed(batches, d) { assert Before(batches, k, d); }
  }

  // ---------- a plan whose second batch is out of plan order ----------

  function Item(id: string, deps: seq<string>): PlanItem {
    PlanItem(id, "", deps, Quarter)
  }

  /** `C` waits for `B` and `D` for `A`: popping `A` first queues `D` before `C`. */
  const CROSSED := [Item("A", []), Item("B", []), Item("C", ["B"]), Item("D", ["A"])]

  lemma CrossedIndices()
    ensures var m := IdToIdx(CROSSED); "A" in m && m["A"] == 0 && "B" in m && m["B"] == 1
  {
    var m := IdToIdx(CROSSED);
    assert CROSSED[0].id in m && CROSSED[1].id in m;
  }

  lemma OneDep(id: string, idx: map<string, int>)
    requires id in idx
    ensures DepIndices([id], idx) == [idx[id]] && DepIndices([], idx) == []
  {
    assert [id][..0] == [];
  }

  lemma CrossedTable()
    ensures TableOf(CROSSED) == [[], [], [1], [0]]
  {
    CrossedIndices();
    var idx := IdToIdx(CROSSED);
    OneDep("A", idx);
    OneDep("B", idx);
    hide IdToIdx, DepIndices;
    var d := TableOf(CROSSED);
    assert d[0] == [] && d[1] == [] && d[2] == [1] && d[3] == [0];
  }

  lemma CrossedOrder()
    ensures InQueueOrder([[], [], [1], [0]], [[0, 1], [3, 2]])
  {
    var d: DepTable, batches := [[], [], [1], [0]], [[0, 1], [3, 2]];
    assert LastPos([0, 1], d[2]) == 1 && LastPos([0, 1], d[3]) == 0 by {
      assert [0, 1][..1] == [0] && [0][..0] == [];
    }
    forall k | 0 <= k < |batches| ensures ReleasedAt(d, batches, k) {}
  }

  lemma CrossedLayers()
    ensures var d: DepTable := [[], [], [1], [0]];
            ValidTable(d) && Layering(GraphOf(d), [[0, 1], [3, 2]]) && Stuck(GraphOf(d), [[0, 1], [3, 2]])
  {
    var d: DepTable, batches := [[], [], [1], [0]], [[0, 1], [3, 2]];
    var g := GraphOf(d);
    assert g[0] == {} && g[1] == {} && g[2] == {1} && g[3] == {0};
    assert 0 in batches[0] && 1 in batches[0] && 2 in batches[1] && 3 in batches[1];
    assert Placed(batches, 0) && Placed(batches, 1) && Placed(batches, 2) && Placed(batches, 3);
    assert Before(batches, 1, 0) && Before(batches, 1, 1);
  }

  /** Whatever a sort with these promises makes of that plan: its second batch is `D`, `C`. */
  lemma LaterBatchOutOfOrder(batches: seq<seq<int>>)
    requires Layering(GraphOf(TableOf(CROSSED)), batches) && Stuck(GraphOf(TableOf(CROSSED)), batches)
    requires InQueueOrder(TableOf(CROSSED), batches)
    ensures batches == [[0, 1], [3, 2]]
  {
    CrossedTable();
    CrossedOrder();
    CrossedLayers();
    BatchesDetermined([[], [], [1], [0]], batches, [[0, 1], [3, 2]]);
  }
}
