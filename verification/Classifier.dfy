/** Sorting open issues into buckets (`classifier.rs`). */
module Classifier {
  import opened Options
  import opened Text
  import opened Repo

  datatype Bucket = Ready | PrOpen | PrFailing | Blocked | TriggeredWaiting | HumanOnly | AlreadyClosed

  datatype Classification = Classification(issue: nat, bucket: Bucket, blocking: set<nat>, pr: Option<nat>)

  /** The branch name that ties a pull request to an issue. */
  function BranchPrefix(issue: nat): string {
    "claude/issue-" + Dec(issue) + "-"
  }

  predicate Linked(p: Pr, issue: nat) {
    p.state == Open && (p.linkedIssue == Some(issue) || BranchPrefix(issue) <= p.headRef)
  }

  function LinkedPr(prs: seq<Pr>, issue: nat): (r: Option<Pr>)
    ensures r.Some? <==> exists p :: p in prs && Linked(p, issue)
    ensures r.Some? ==> r.value in prs && Linked(r.value, issue)
  {
    if prs == [] then None
    else if Linked(prs[0], issue) then Some(prs[0])
    else
      assert forall p :: p in prs <==> p == prs[0] || p in prs[1..];
      LinkedPr(prs[1..], issue)
  }

  function Classify(i: Issue, closed: set<nat>, prs: seq<Pr>, triggered: set<nat>): Classification {
    if i.closed then Classification(i.number, AlreadyClosed, {}, None)
    else if i.Has(Human) then Classification(i.number, HumanOnly, {}, None)
    else
      var blocking := set d | d in i.deps && d !in closed;
      var pr := LinkedPr(prs, i.number);
      if pr.Some? then
        Classification(i.number, if pr.value.ci == Failing then PrFailing else PrOpen, blocking, Some(pr.value.number))
      else if blocking != {} then Classification(i.number, Blocked, blocking, None)
      else if i.number in triggered then Classification(i.number, TriggeredWaiting, blocking, None)
      else Classification(i.number, Ready, blocking, None)
  }

  /** The first open pull request that names the issue or whose branch is the issue's; the number of all if there is none. */
  function FirstPr(prs: seq<Pr>, issue: nat): (k: nat)
    ensures k <= |prs|
    ensures forall j :: 0 <= j < |prs| && j <= k ==>
      (prs[j].state == Open && (prs[j].linkedIssue == Some(issue) || "claude/issue-" + Dec(issue) + "-" <= prs[j].headRef)
       <==> j == k)
  {
    if prs == [] || Linked(prs[0], issue) then 0 else 1 + FirstPr(prs[1..], issue)
  }

  lemma {:induction false} LinkedIsFirst(prs: seq<Pr>, issue: nat)
    ensures LinkedPr(prs, issue) == var k := FirstPr(prs, issue); if k < |prs| then Some(prs[k]) else None
  {
    hide Linked;
    if prs == [] {
    } else {
      LinkedIsFirst(prs[1..], issue);
    }
  }

  /** Which bucket an issue goes to, by its labels, the first pull request for it, its dependencies and the triggers. */
  lemma BucketExactlyWhen(i: Issue, closed: set<nat>, prs: seq<Pr>, triggered: set<nat>)
    ensures var b, k := Classify(i, closed, prs, triggered).bucket, FirstPr(prs, i.number);
            (b == AlreadyClosed <==> i.closed) &&
            (b == HumanOnly <==> !i.closed && Human in i.labels) &&
            (b == PrFailing <==> !i.closed && Human !in i.labels && k < |prs| && prs[k].ci == Failing) &&
            (b == PrOpen <==> !i.closed && Human !in i.labels && k < |prs| && prs[k].ci != Failing) &&
            (b == Blocked <==> !i.closed && Human !in i.labels && k == |prs| && !(i.deps <= closed)) &&
            (b == TriggeredWaiting <==>
             !i.closed && Human !in i.labels && k == |prs| && i.deps <= closed && i.number in triggered) &&
            (b == Ready <==> !i.closed && Human !in i.labels && k == |prs| && i.deps <= closed && i.number !in triggered)
  {
    LinkedIsFirst(prs, i.number);
    hide LinkedPr, FirstPr;
    var blocking := set d | d in i.deps && d !in closed;
    assert blocking == {} <==> i.deps <= closed by {
      if i.deps <= closed { assert forall d :: d !in blocking; }
      if blocking == {} { assert forall d :: d in i.deps ==> d in closed || d in blocking; }
    }
  }

  /** What else a classification records: the pull request, and the dependencies that are not closed. */
  lemma ClassifiedWith(i: Issue, closed: set<nat>, prs: seq<Pr>, triggered: set<nat>)
    ensures var c, k := Classify(i, closed, prs, triggered), FirstPr(prs, i.number);
            c.issue == i.number &&
            c.pr == (if !i.closed && Human !in i.labels && k < |prs| then Some(prs[k].number) else None) &&
            forall d :: d in c.blocking <==> !i.closed && Human !in i.labels && d in i.deps && d !in closed
  {
    LinkedIsFirst(prs, i.number);
    hide LinkedPr, FirstPr;
  }

  /** An issue is Ready exactly when it is open, not for a human, without open pull request, unblocked and untriggered. */
  lemma ReadyExactlyWhen(i: Issue, closed: set<nat>, prs: seq<Pr>, triggered: set<nat>)
    ensures Classify(i, closed, prs, triggered).bucket == Ready <==>
            && !i.closed && Human !in i.labels
            && (forall p :: p in prs && p.state == Open ==>
                  p.linkedIssue != Some(i.number) && !("claude/issue-" + Dec(i.number) + "-" <= p.headRef))
            && i.deps <= closed
            && i.number !in triggered
  {
    BucketExactlyWhen(i, closed, prs, triggered);
    var k := FirstPr(prs, i.number);
    hide Classify;
    if k == |prs| {
      forall p | p in prs && p.state == Open
        ensures p.linkedIssue != Some(i.number) && !("claude/issue-" + Dec(i.number) + "-" <= p.headRef)
      {
        var j :| 0 <= j < |prs| && prs[j] == p;
      }
    } else {
      assert prs[k] in prs;
    }
  }
}
