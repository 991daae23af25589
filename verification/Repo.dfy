/** What the orchestrator reads from and writes to a repository host. */
module Repo {
  import opened Options

  datatype Preset = Unhinged | Feral | Fast | Strict | Bureaucratic

  /** A label by what it means to the orchestrator. */
  datatype Label = InFlight | Human | RunnerTmux | RunnerWeb | Safety(preset: Preset) | Other(text: string)

  datatype Issue = Issue(number: nat, labels: seq<Label>, closed: bool, deps: set<nat>) {
    predicate Has(l: Label) {
      l in labels
    }
  }

  datatype CiStatus = Passing | Failing | Pending | Unknown

  datatype PrState = Open | Merged | Closed

  datatype Pr = Pr(number: nat, headRef: string, state: PrState, ci: CiStatus, linkedIssue: Option<nat>)

  /** A comment on an issue: whether it contains the trigger text, and whether the orchestrator posted it. */
  datatype Comment = Comment(issue: nat, trigger: bool, ours: bool)

  /** A write that succeeded, or one that failed and may have taken effect all the same. */
  datatype Write = Done | Lost(landed: bool) {
    predicate Landed() {
      Done? || landed
    }
  }

  /** A call with its answer; reading the clock and trying for the coordinator's permit count as calls. */
  datatype Call =
    | ListClosedPrs(ok: bool)
    | ListOpenIssues(ok: bool)
    | ListClosedIssueNumbers(ok: bool)
    | ListOpenPrs(ok: bool)
    | ListIssueComments(issue: nat, ok: bool)
    | ListSessions(ok: bool)
    | Inbox(issue: nat, claimed: bool)
    | Clock(at: int)
    | TryPermit(free: bool)
    | AddLabel(issue: nat, write: Write)
    | RemoveLabel(issue: nat, landed: bool)
    | PostComment(comment: Comment, write: Write)
    | NewSession(name: string, write: Write)
    | SendLine(name: string, ok: bool)
    | MergePr(pr: nat, ok: bool)

  /** The parts of the host that a cycle writes, and the calls it has answered. */
  datatype Content = Content(issues: seq<Issue>, comments: seq<Comment>, sessions: seq<string>, merged: seq<nat>, log: seq<Call>)

  predicate DistinctNumbers(issues: seq<Issue>) {
    forall i, j :: 0 <= i < j < |issues| ==> issues[i].number != issues[j].number
  }

  // ---------- labels ----------

  function WithoutFlight(labels: seq<Label>): (r: seq<Label>)
    ensures forall l :: l in r <==> l in labels && l != InFlight
    ensures InFlight !in labels ==> r == labels
  {
    if labels == [] then []
    else if labels[0] == InFlight then WithoutFlight(labels[1..])
    else
      assert labels == [labels[0]] + labels[1..];
      [labels[0]] + WithoutFlight(labels[1..])
  }

  function Relabel(issues: seq<Issue>, n: nat, change: seq<Label> -> seq<Label>): (r: seq<Issue>)
    ensures |r| == |issues|
    ensures forall i :: 0 <= i < |r| ==>
      r[i] == if issues[i].number == n then issues[i].(labels := change(issues[i].labels)) else issues[i]
  {
    seq(|issues|, i requires 0 <= i < |issues| =>
      if issues[i].number == n then issues[i].(labels := change(issues[i].labels)) else issues[i])
  }

  function Flagged(labels: seq<Label>): seq<Label> {
    labels + [InFlight]
  }

  function AddFlight(issues: seq<Issue>, n: nat): seq<Issue> {
    Relabel(issues, n, Flagged)
  }

  function RemoveFlight(issues: seq<Issue>, n: nat): seq<Issue> {
    Relabel(issues, n, WithoutFlight)
  }

  lemma {:induction false} WithoutFlightSnoc(labels: seq<Label>)
    ensures WithoutFlight(labels + [InFlight]) == WithoutFlight(labels)
  {
    if labels == [] {
      assert labels + [InFlight] == [InFlight];
    } else {
      assert (labels + [InFlight])[1..] == labels[1..] + [InFlight];
      WithoutFlightSnoc(labels[1..]);
    }
  }

  /** Rolling back a claim on an issue without the label restores the labels exactly. */
  lemma RollbackRestores(issues: seq<Issue>, n: nat)
    requires forall i :: 0 <= i < |issues| && issues[i].number == n ==> InFlight !in issues[i].labels
    ensures RemoveFlight(AddFlight(issues, n), n) == issues
  {
    var back := RemoveFlight(AddFlight(issues, n), n);
    forall i | 0 <= i < |issues| ensures back[i] == issues[i] {
      WithoutFlightSnoc(issues[i].labels);
    }
  }

  // ---------- presets and lookups ----------

  function PresetFromLabels(labels: seq<Label>): Option<Preset> {
    if labels == [] then None
    else if labels[0].Safety? then Some(labels[0].preset)
    else PresetFromLabels(labels[1..])
  }

  lemma {:induction false} PresetIgnoresFlight(labels: seq<Label>)
    ensures PresetFromLabels(labels + [InFlight]) == PresetFromLabels(labels)
    ensures PresetFromLabels(WithoutFlight(labels)) == PresetFromLabels(labels)
  {
    if labels == [] {
      assert labels + [InFlight] == [InFlight];
    } else {
      assert (labels + [InFlight])[1..] == labels[1..] + [InFlight];
      PresetIgnoresFlight(labels[1..]);
      var rest := WithoutFlight(labels[1..]);
      assert ([labels[0]] + rest)[1..] == rest;
    }
  }

  /** Label override, then configuration, then the default of an untracked maturity level. */
  function ResolvePreset(configured: Option<Preset>, routine: Option<Preset>): Preset {
    match routine
    case Some(p) => p
    case None => match configured case Some(p) => p case None => Unhinged
  }

  lemma {:induction false} FirstSafety(labels: seq<Label>, p: Preset)
    ensures PresetFromLabels(labels) == Some(p) <==>
            exists k :: 0 <= k < |labels| && labels[k] == Safety(p) && forall j :: 0 <= j < k ==> !labels[j].Safety?
    ensures PresetFromLabels(labels).None? <==> forall k :: 0 <= k < |labels| ==> !labels[k].Safety?
  {
    if labels == [] {
    } else {
      FirstSafety(labels[1..], p);
      assert forall k :: 0 < k < |labels| ==> labels[k] == labels[1..][k - 1];
      if !labels[0].Safety? && PresetFromLabels(labels) == Some(p) {
        var k :| 0 <= k < |labels[1..]| && labels[1..][k] == Safety(p) && forall j :: 0 <= j < k ==> !labels[1..][j].Safety?;
        assert labels[k + 1] == Safety(p);
      }
      if k :| 0 <= k < |labels| && labels[k] == Safety(p) && forall j :: 0 <= j < k ==> !labels[j].Safety? {
        if k > 0 { assert labels[1..][k - 1] == Safety(p); }
      }
    }
  }

  /** The first safety label decides; without one the configuration; without either it is unhinged. */
  lemma PresetExactly(configured: Option<Preset>, labels: seq<Label>, p: Preset)
    ensures ResolvePreset(configured, PresetFromLabels(labels)) == p <==>
            (exists k :: 0 <= k < |labels| && labels[k] == Safety(p) && forall j :: 0 <= j < k ==> !labels[j].Safety?) ||
            ((forall k :: 0 <= k < |labels| ==> !labels[k].Safety?) &&
             (configured == Some(p) || (configured == None && p == Unhinged)))
  {
    FirstSafety(labels, p);
    hide PresetFromLabels;
  }

  function FindIssue(issues: seq<Issue>, n: nat): (r: Option<Issue>)
    ensures r.Some? <==> exists i :: i in issues && i.number == n
    ensures r.Some? ==> r.value in issues && r.value.number == n
  {
    if issues == [] then None
    else if issues[0].number == n then Some(issues[0])
    else
      assert forall i :: i in issues <==> i == issues[0] || i in issues[1..];
      FindIssue(issues[1..], n)
  }

  lemma FindDistinct(issues: seq<Issue>, i: Issue)
    requires DistinctNumbers(issues) && i in issues
    ensures FindIssue(issues, i.number) == Some(i)
  {
    var found := FindIssue(issues, i.number).value;
    var j :| 0 <= j < |issues| && issues[j] == i;
    var k :| 0 <= k < |issues| && issues[k] == found;
  }

  predicate AnyInFlight(issues: seq<Issue>) {
    exists i :: i in issues && i.Has(InFlight)
  }
}
