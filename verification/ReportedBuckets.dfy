/** The lists of the report that follow from the survey alone, and what a cycle merges, said by labels, links and CI. */
module ReportedBuckets {
  import opened Options
  import opened Text
  import opened Repo
  import opened Classifier
  import opened Dispatch
  import opened Cycle
  import opened CycleLaws
  import opened FlightLabels
  import opened CycleReports

  /** The numbers of the issues that satisfy a condition, in order. */
  ghost function Numbers(open: seq<Issue>, want: Issue -> bool): seq<nat> {
    if open == [] then []
    else Numbers(open[..|open| - 1], want) + if want(open[|open| - 1]) then [open[|open| - 1].number] else []
  }

  /** Issue `j` is open, not for a human, and the CI of the first pull request for it is failing, or is not. */
  ghost predicate HasPr(sv: Survey, j: nat, failing: bool) {
    j < |sv.open| && !sv.open[j].closed && Human !in sv.open[j].labels &&
    var p := FirstPr(sv.prs, sv.open[j].number);
    p < |sv.prs| && (sv.prs[p].ci == Failing <==> failing)
  }

  /** The first pull requests for such issues among the first `k`; of those not failing the ones that the host merged. */
  ghost function FirstPrs(sv: Survey, os: seq<Outcome>, k: nat, failing: bool): seq<nat>
    requires k <= |sv.open| == |os|
  {
    if k == 0 then []
    else
      FirstPrs(sv, os, k - 1, failing) +
      if HasPr(sv, k - 1, failing) && (failing || os[k - 1].merge)
      then [sv.prs[FirstPr(sv.prs, sv.open[k - 1].number)].number] else []
  }

  lemma {:induction false} BucketNumbers(sv: Survey, k: nat, b: Bucket, want: Issue -> bool)
    requires k <= |sv.open|
    requires forall j :: 0 <= j < k ==> (ClassifyIn(sv, sv.open[j]).bucket == b <==> want(sv.open[j]))
    ensures InBucket(Classifications(sv)[..k], b) == Numbers(sv.open[..k], want)
  {
    hide ClassifyIn;
    if k == 0 {
    } else {
      BucketNumbers(sv, k - 1, b, want);
      InBucketNext(Classifications(sv), k - 1, b);
      assert sv.open[..k][..k - 1] == sv.open[..k - 1];
      ClassifiedWith(sv.open[k - 1], sv.closed, sv.prs, sv.triggered);
      ClassifiedAt(sv, k - 1);
      assert ClassifyIn(sv, sv.open[k - 1]).issue == sv.open[k - 1].number by { IssueKept(sv, sv.open[k - 1]); }
      hide InBucket;
    }
  }

  lemma IssueKept(sv: Survey, i: Issue)
    ensures ClassifyIn(sv, i).issue == i.number
  {
    ClassifiedWith(i, sv.closed, sv.prs, sv.triggered);
    hide Classify;
  }

  lemma PrBucket(sv: Survey, j: nat)
    requires j < |sv.open|
    ensures var c := ClassifyIn(sv, sv.open[j]);
            (c.bucket == PrOpen && c.pr.Some? <==> HasPr(sv, j, false)) &&
            (c.bucket == PrFailing && c.pr.Some? <==> HasPr(sv, j, true)) &&
            (c.pr.Some? ==> c.pr.value == sv.prs[FirstPr(sv.prs, sv.open[j].number)].number)
  {
    BucketExactlyWhen(sv.open[j], sv.closed, sv.prs, sv.triggered);
    ClassifiedWith(sv.open[j], sv.closed, sv.prs, sv.triggered);
    hide Classify, FirstPr;
  }

  lemma {:induction false} BucketPrs(sv: Survey, os: seq<Outcome>, k: nat)
    requires k <= |sv.open| == |os|
    ensures PrsWhere(Classifications(sv)[..k], os[..k], PrOpen, true) == FirstPrs(sv, os, k, false)
    ensures PrsWhere(Classifications(sv)[..k], os[..k], PrFailing, false) == FirstPrs(sv, os, k, true)
  {
    if k == 0 {
    } else {
      BucketPrs(sv, os, k - 1);
      ClassifiedAt(sv, k - 1);
      PrBucket(sv, k - 1);
      hide ClassifyIn, Classifications, FirstPr, HasPr;
      var cs := Classifications(sv);
      assert cs[..k][..k - 1] == cs[..k - 1] && os[..k][..k - 1] == os[..k - 1];
    }
  }

  /** The issue is open, not for a human, and no open pull request is for it. */
  predicate Unlinked(sv: Survey, i: Issue) {
    !i.closed && Human !in i.labels && FirstPr(sv.prs, i.number) == |sv.prs|
  }

  /**
   * The report names, in survey order, exactly: the issues for humans; those without pull request that are blocked; and
   * those without, unblocked, that were triggered.
   */
  lemma IssuesExactly(cfg: Config, sv: Survey, host: Content, soft: map<nat, int>, a: Answers)
    requires Fits(cfg, sv, a)
    ensures var r := RunCycle(cfg, sv, host, soft, a).pass.report;
            r.human == Numbers(sv.open, (i: Issue) => !i.closed && Human in i.labels) &&
            r.blocked == Numbers(sv.open, (i: Issue) => Unlinked(sv, i) && !(i.deps <= sv.closed)) &&
            r.waiting == Numbers(sv.open, (i: Issue) => Unlinked(sv, i) && i.deps <= sv.closed && i.number in sv.triggered)
  {
    ReportNames(cfg, sv, host, soft, a);
    forall j | 0 <= j < |sv.open| { BucketExactlyWhen(sv.open[j], sv.closed, sv.prs, sv.triggered); }
    var n := |sv.open|;
    assert Classifications(sv)[..n] == Classifications(sv) && sv.open[..n] == sv.open;
    hide RunCycle, InBucket, Classifications, Numbers, FirstPr, Classify, PrsWhere;
    BucketNumbers(sv, n, HumanOnly, (i: Issue) => !i.closed && Human in i.labels);
    BucketNumbers(sv, n, Blocked, (i: Issue) => Unlinked(sv, i) && !(i.deps <= sv.closed));
    BucketNumbers(sv, n, TriggeredWaiting,
                  (i: Issue) => Unlinked(sv, i) && i.deps <= sv.closed && i.number in sv.triggered);
  }

  lemma WebKeepsMerged(st: State, n: nat, preset: Preset, o: Outcome)
    ensures TriggerWeb(st, n, preset, o.flag, o.post, o.rollback).host.merged == st.host.merged
  {
    hide AddFlight, RemoveFlight, Count;
  }

  lemma TmuxKeepsMerged(st: State, n: nat, preset: Preset, slot: nat, o: Outcome)
    ensures TriggerTmux(st, n, preset, slot, o.flag, o.session, o.start, o.prompt, o.rollback).host.merged == st.host.merged
  {
    hide AddFlight, RemoveFlight, Count, SlotName;
  }

  lemma LaunchKeepsMerged(cfg: Config, st: State, i: Issue, preset: Preset, o: Outcome)
    ensures Launch(cfg, st, i, preset, o).host.merged == st.host.merged
  {
    var slot := NextFree(st.pass.slots, cfg.maxBeats);
    WebKeepsMerged(st, i.number, preset, o);
    if slot.Some? { TmuxKeepsMerged(st, i.number, preset, slot.value, o); }
    hide RunnerFor, NextFree, TriggerWeb, TriggerTmux;
  }

  lemma TurnKeepsMerged(cfg: Config, sv: Survey, st: State, i: Issue, o: Outcome)
    ensures Turn(cfg, sv, st, i, o).host.merged == st.host.merged
  {
    if FateOf(cfg, sv, st, i, o) == Launched {
      TurnLaunched(cfg, sv, st, i, o);
      BroughtKeeps(cfg, sv, st, i, o);
      LaunchKeepsMerged(cfg, Brought(cfg, sv, st, i, o), i, EffectivePreset(cfg, i), o);
      hide Turn, Brought, Launch, EffectivePreset, FateOf;
    } else {
      TurnIdle(cfg, sv, st, i, o);
      hide Turn, FateOf;
    }
  }

  lemma {:induction false} MergedUpTo(cfg: Config, sv: Survey, st: State, os: seq<Outcome>, k: nat)
    requires |os| == |sv.open| && k <= |sv.open|
    ensures HandleUpTo(cfg, sv, st, os, k).host.merged == st.host.merged
  {
    hide *;
    if k == 0 {
      HandleStart(cfg, sv, st, os);
    } else {
      MergedUpTo(cfg, sv, st, os, k - 1);
      HandledNext(cfg, sv, st, os, k);
      TurnKeepsMerged(cfg, sv, HandleUpTo(cfg, sv, st, os, k - 1), sv.open[k - 1], os[k - 1]);
    }
  }

  lemma HostMerges(cfg: Config, sv: Survey, host: Content, soft: map<nat, int>, a: Answers)
    requires Fits(cfg, sv, a)
    ensures var s := RunCycle(cfg, sv, host, soft, a); s.host.merged == host.merged + s.pass.report.merged
  {
    var st := Surveyed(cfg, sv, host, soft, a);
    if !cfg.dryRun { TidyingApart(sv.open, Logged(host, SurveyCalls(a)), Links(sv), a.cleared); }
    assert st.host.merged == host.merged by { hide Housekeep, Links, SlotIndices; }
    MergesReported(cfg, st, Classifications(sv), a.outcomes);
    ReportNames(cfg, sv, host, soft, a);
    MergedUpTo(cfg, sv, Prepared(cfg, sv, host, soft, a), a.outcomes, |sv.open|);
    CycleIsLoop(cfg, sv, host, soft, a);
    hide HandleUpTo, MergeAll, Classifications, SlotIndices, PrsWhere, Tidied, Surveyed;
  }

  /**
   * Merged are exactly the first pull requests for workable issues whose CI is not failing and that the host took; listed
   * as failing are exactly those whose CI is failing. The host's merges are those reported.
   */
  lemma MergesExactly(cfg: Config, sv: Survey, host: Content, soft: map<nat, int>, a: Answers)
    requires Fits(cfg, sv, a)
    ensures var s, n := RunCycle(cfg, sv, host, soft, a), |sv.open|;
            s.pass.report.merged == (if cfg.dryRun then [] else FirstPrs(sv, a.outcomes, n, false)) &&
            s.pass.report.prFailing == FirstPrs(sv, a.outcomes, n, true) &&
            s.host.merged == host.merged + s.pass.report.merged
  {
    ReportNames(cfg, sv, host, soft, a);
    HostMerges(cfg, sv, host, soft, a);
    BucketPrs(sv, a.outcomes, |sv.open|);
    assert Classifications(sv)[..|sv.open|] == Classifications(sv) && a.outcomes[..|sv.open|] == a.outcomes;
    hide RunCycle, PrsWhere, Classifications, FirstPrs;
  }

  /** The number is that of a surveyed open pull request whose CI is not failing, for a workable surveyed issue. */
  ghost predicate FitToMerge(sv: Survey, m: nat) {
    exists p, i :: p in sv.prs && i in sv.open && p.number == m && p.state == Open && p.ci != Failing && !i.closed &&
      Human !in i.labels && (p.linkedIssue == Some(i.number) || "claude/issue-" + Dec(i.number) + "-" <= p.headRef)
  }

  lemma FirstFits(sv: Survey, j: nat)
    requires HasPr(sv, j, false)
    ensures FitToMerge(sv, sv.prs[FirstPr(sv.prs, sv.open[j].number)].number)
  {
    var i, p := sv.open[j], sv.prs[FirstPr(sv.prs, sv.open[j].number)];
    assert i in sv.open && p in sv.prs;
  }

  lemma {:induction false} PickedFits(sv: Survey, os: seq<Outcome>, k: nat, x: nat)
    requires k <= |sv.open| == |os| && x < |FirstPrs(sv, os, k, false)|
    ensures FitToMerge(sv, FirstPrs(sv, os, k, false)[x])
  {
    hide FirstPr, FitToMerge, HasPr;
    var front := FirstPrs(sv, os, k - 1, false);
    if x < |front| {
      PickedFits(sv, os, k - 1, x);
    } else {
      FirstFits(sv, k - 1);
    }
  }

  /** Whatever a cycle adds to the merged was fit to merge, and a dry run adds nothing. */
  lemma MergesAreSafe(cfg: Config, sv: Survey, host: Content, soft: map<nat, int>, a: Answers, x: nat)
    requires Fits(cfg, sv, a) && |host.merged| <= x < |RunCycle(cfg, sv, host, soft, a).host.merged|
    ensures !cfg.dryRun && FitToMerge(sv, RunCycle(cfg, sv, host, soft, a).host.merged[x])
  {
    hide *;
    FitsMeans(cfg, sv, a);
    MergesExactly(cfg, sv, host, soft, a);
    var merged := RunCycle(cfg, sv, host, soft, a).host.merged;
    var now := if cfg.dryRun then [] else FirstPrs(sv, a.outcomes, |sv.open|, false);
    assert |merged| == |host.merged| + |now|;
    assert merged[x] == now[x - |host.merged|];
    PickedFits(sv, a.outcomes, |sv.open|, x - |host.merged|);
  }

  /** The merges on the host are those reported, each of them fit, and a dry run merges nothing. */
  lemma MergedFit(cfg: Config, sv: Survey, host: Content, soft: map<nat, int>, a: Answers)
    requires Fits(cfg, sv, a)
    ensures var s := RunCycle(cfg, sv, host, soft, a);
            s.host.merged == host.merged + s.pass.report.merged &&
            forall m :: m in s.pass.report.merged ==> !cfg.dryRun && FitToMerge(sv, m)
  {
    hide *;
    FitsMeans(cfg, sv, a);
    MergesExactly(cfg, sv, host, soft, a);
    var s := RunCycle(cfg, sv, host, soft, a);
    forall m | m in s.pass.report.merged ensures !cfg.dryRun && FitToMerge(sv, m) {
      var x :| 0 <= x < |s.pass.report.merged| && s.pass.report.merged[x] == m;
      PickedFits(sv, a.outcomes, |sv.open|, x);
    }
  }

  // ---------- progress ----------

  predicate ProgressTold(r: CycleReport) {
    r.progress <==> r.merged != [] || r.triggered != []
  }

  lemma TurnTellsProgress(cfg: Config, sv: Survey, st: State, i: Issue, o: Outcome)
    requires ProgressTold(st.pass.report)
    ensures ProgressTold(Turn(cfg, sv, st, i, o).pass.report)
  {
    TurnPass(cfg, sv, st, i, o);
    hide Turn, FateOf, ClassifyIn, EffectivePreset, Room, Delivered, NextFree;
  }

  lemma {:induction false} MergesTellProgress(cfg: Config, st: State, cs: seq<Classification>, os: seq<Outcome>)
    requires |os| == |cs| && ProgressTold(st.pass.report) && st.pass.report.triggered == []
    ensures ProgressTold(MergeAll(cfg, st, cs, os).pass.report) && MergeAll(cfg, st, cs, os).pass.report.triggered == []
  {
    if cs != [] {
      MergesTellProgress(cfg, st, cs[..|cs| - 1], os[..|cs| - 1]);
    }
  }

  lemma {:induction false} LoopTellsProgress(cfg: Config, sv: Survey, st: State, os: seq<Outcome>, k: nat)
    requires |os| == |sv.open| && k <= |sv.open| && ProgressTold(st.pass.report)
    ensures ProgressTold(HandleUpTo(cfg, sv, st, os, k).pass.report)
  {
    hide *;
    if k == 0 {
      HandleStart(cfg, sv, st, os);
    } else {
      LoopTellsProgress(cfg, sv, st, os, k - 1);
      HandledNext(cfg, sv, st, os, k);
      TurnTellsProgress(cfg, sv, HandleUpTo(cfg, sv, st, os, k - 1), sv.open[k - 1], os[k - 1]);
    }
  }

  /** A report tells of progress exactly if something was merged or triggered. */
  lemma ProgressExactly(cfg: Config, sv: Survey, host: Content, soft: map<nat, int>, a: Answers)
    requires Fits(cfg, sv, a)
    ensures var r := RunCycle(cfg, sv, host, soft, a).pass.report;
            r.progress <==> r.merged != [] || r.triggered != []
  {
    MergesTellProgress(cfg, Surveyed(cfg, sv, host, soft, a), Classifications(sv), a.outcomes);
    LoopTellsProgress(cfg, sv, Prepared(cfg, sv, host, soft, a), a.outcomes, |sv.open|);
    CycleIsLoop(cfg, sv, host, soft, a);
    hide HandleUpTo, MergeAll, Classifications, SlotIndices, Tidied;
  }
}
