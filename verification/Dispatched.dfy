/** Which issues a cycle triggers, holds back and passes over, said by labels, links, CI, sessions and answers alone. */
module Dispatched {
  import opened Options
  import opened Text
  import opened Repo
  import opened Isolation
  import opened Classifier
  import opened Dispatch
  import opened Cycle
  import opened CycleLaws
  import opened CycleReports

  // ---------- the rules ----------

  /** The first safety label names the preset; without one the configuration does; without either it is unhinged. */
  ghost predicate Under(cfg: Config, i: Issue, p: Preset) {
    (exists k :: 0 <= k < |i.labels| && i.labels[k] == Safety(p) && forall j :: 0 <= j < k ==> !i.labels[j].Safety?) ||
    ((forall k :: 0 <= k < |i.labels| ==> !i.labels[k].Safety?) &&
     (cfg.preset == Some(p) || (cfg.preset == None && p == Unhinged)))
  }

  /** A tmux label comes before any web label. */
  ghost predicate WantsTmux(i: Issue) {
    exists k :: 0 <= k < |i.labels| && i.labels[k] == RunnerTmux && forall j :: 0 <= j < k ==> i.labels[j] != RunnerWeb
  }

  /** Open, not for a human, unclaimed, without open pull request, unblocked and untriggered. */
  ghost predicate Workable(sv: Survey, i: Issue) {
    !i.closed && Human !in i.labels && InFlight !in i.labels && i.deps <= sv.closed && i.number !in sv.triggered &&
    forall p :: p in sv.prs && p.state == Open ==>
      p.linkedIssue != Some(i.number) && !("claude/issue-" + Dec(i.number) + "-" <= p.headRef)
  }

  /**
   * The soft chord: a strict issue waits while some pull request that is not its own is unfinished and none failing,
   * until the timeout since it was first held back.
   */
  ghost predicate Waits(cfg: Config, sv: Survey, soft: map<nat, int>, i: Issue, now: int) {
    Under(cfg, i, Strict) &&
    (exists p :: p in sv.prs && p.linkedIssue != Some(i.number) && (p.ci == Pending || p.ci == Unknown)) &&
    (forall p :: p in sv.prs && p.linkedIssue != Some(i.number) ==> p.ci != Failing) &&
    (i.number in soft ==> cfg.timeout > 0 && now - soft[i.number] < cfg.timeout)
  }

  /** The hard chord: a bureaucratic issue waits while one is in flight or was triggered before it, or without permit. */
  ghost predicate Queues(cfg: Config, sv: Survey, triggered: seq<nat>, permit: bool, k: nat)
    requires k < |sv.open|
  {
    Under(cfg, sv.open[k], Bureaucratic) &&
    ((exists i :: i in sv.open && InFlight in i.labels) ||
     (exists j :: 0 <= j < k && sv.open[j].number in triggered && Under(cfg, sv.open[j], Bureaucratic)) || !permit)
  }

  /** A listed session is named after the agent slot. */
  ghost predicate Used(cfg: Config, sv: Survey, n: nat) {
    cfg.tmux && exists number :: "agent" + number in sv.sessions && DenotesSigned(number, n)
  }

  ghost function Vacant(cfg: Config, sv: Survey): set<nat> {
    set n: nat | 1 <= n <= cfg.maxBeats && !Used(cfg, sv, n)
  }

  /** The issues triggered before issue `k` that went to a slot. */
  ghost function TmuxBefore(cfg: Config, sv: Survey, triggered: seq<nat>, k: nat): set<nat>
    requires k <= |sv.open|
  {
    set j | 0 <= j < k && TookSlot(cfg, sv.open[j], triggered)
  }

  ghost predicate TookSlot(cfg: Config, i: Issue, triggered: seq<nat>) {
    cfg.tmux && i.number in triggered && WantsTmux(i)
  }

  /** The issues triggered before issue `k`, of whatever kind. */
  ghost function AllBefore(sv: Survey, triggered: seq<nat>, k: nat): set<nat>
    requires k <= |sv.open|
  {
    set j | 0 <= j < k && sv.open[j].number in triggered
  }

  /** An issue for tmux needs a slot; one that goes to the web, a dispatch under the cap. */
  ghost predicate Fitting(cfg: Config, sv: Survey, triggered: seq<nat>, k: nat)
    requires k < |sv.open|
  {
    (WantsTmux(sv.open[k]) ==> |TmuxBefore(cfg, sv, triggered, k)| < |Vacant(cfg, sv)|) &&
    ((WantsTmux(sv.open[k]) && cfg.tmux) || |AllBefore(sv, triggered, k)| < cfg.maxBeats)
  }

  /** The label was written, and then the comment, or the session and its prompt. */
  ghost predicate Taken(cfg: Config, i: Issue, o: Outcome) {
    o.flag == Done && if WantsTmux(i) && cfg.tmux then o.session == Done && o.prompt else o.post == Done
  }

  // ---------- the code follows the rules ----------

  lemma UnderExactly(cfg: Config, i: Issue, p: Preset)
    ensures EffectivePreset(cfg, i) == p <==> Under(cfg, i, p)
  {
    PresetExactly(cfg.preset, i.labels, p);
    hide ResolvePreset, PresetFromLabels;
  }

  lemma WantsExactly(i: Issue)
    ensures RunnerFor(i.labels) == Tmux <==> WantsTmux(i)
  {
    RunnerExactly(i.labels);
    hide RunnerFor;
  }

  lemma WorkableExactly(cfg: Config, sv: Survey, i: Issue)
    ensures Dispatchable(cfg, sv, i) <==> Workable(sv, i)
  {
    ReadyExactlyWhen(i, sv.closed, sv.prs, sv.triggered);
    hide Classify, Dec;
  }

  lemma WaitsExactly(cfg: Config, sv: Survey, soft: map<nat, int>, i: Issue, now: int)
    ensures IsolationOf(cfg, sv, soft, i, now) == Defer <==> Waits(cfg, sv, soft, i, now)
  {
    DefersExactlyWhen(EffectivePreset(cfg, i), i.number, sv.prs, FirstSeen(soft, i.number), now, cfg.timeout);
    UnderExactly(cfg, i, Strict);
    hide Decide, SiblingPrs, EffectivePreset, Under;
  }

  lemma QueuesExactly(cfg: Config, sv: Survey, a: Answers, triggered: seq<nat>, k: nat)
    requires Fits(cfg, sv, a) && k < |sv.open|
    ensures HardHeld(cfg, sv, a, triggered, k) <==> Queues(cfg, sv, triggered, a.outcomes[k].permit, k)
  {
    forall j | 0 <= j < |sv.open| { UnderExactly(cfg, sv.open[j], Bureaucratic); }
    hide EffectivePreset, Under;
    assert AnyInFlight(sv.open) <==> exists i :: i in sv.open && InFlight in i.labels;
  }

  lemma VacantExactly(cfg: Config, sv: Survey)
    ensures FreeSlots(cfg, sv) == Vacant(cfg, sv)
  {
    var sessions := if cfg.tmux then sv.sessions else [];
    SlotIndicesMeaning(sessions, Agent);
    forall n: nat ensures n in SlotIndices(sessions, Agent) <==> Used(cfg, sv, n) {
      Occupied(sessions, n);
      hide SlotIndices, SlotOf, DenotesSigned;
    }
    hide SlotIndices, SlotOf, Used;
  }

  lemma Occupied(sessions: seq<string>, n: nat)
    ensures (exists s :: s in sessions && SlotOf(s, Agent) == Some(n)) <==>
            exists number :: "agent" + number in sessions && DenotesSigned(number, n)
  {
    forall s | s in sessions { SlotExactly(s, Agent, n); }
    hide SlotOf, DenotesSigned;
    if number :| "agent" + number in sessions && DenotesSigned(number, n) {
      assert SlotOf("agent" + number, Agent) == Some(n);
    }
  }

  lemma TmuxNext(cfg: Config, sv: Survey, triggered: seq<nat>, k: nat)
    requires k < |sv.open|
    ensures |TmuxBefore(cfg, sv, triggered, k + 1)| ==
            |TmuxBefore(cfg, sv, triggered, k)| + if TookSlot(cfg, sv.open[k], triggered) then 1 else 0
  {
    hide TookSlot;
    var more := if TookSlot(cfg, sv.open[k], triggered) then {k} else {};
    assert TmuxBefore(cfg, sv, triggered, k + 1) == TmuxBefore(cfg, sv, triggered, k) + more;
  }

  lemma {:induction false} CountsSlots(cfg: Config, sv: Survey, triggered: seq<nat>, k: nat)
    requires k <= |sv.open|
    ensures SlotsTaken(cfg, sv.open, triggered, k) == |TmuxBefore(cfg, sv, triggered, k)|
  {
    if k == 0 {
      assert TmuxBefore(cfg, sv, triggered, 0) == {};
    } else {
      CountsSlots(cfg, sv, triggered, k - 1);
      TmuxNext(cfg, sv, triggered, k - 1);
      WantsExactly(sv.open[k - 1]);
      hide RunnerFor, WantsTmux, TmuxBefore;
    }
  }

  lemma {:induction false} CountsAll(sv: Survey, triggered: seq<nat>, k: nat)
    requires k <= |sv.open|
    ensures |Picked(sv.open, triggered, k)| == |AllBefore(sv, triggered, k)|
  {
    if k == 0 {
      assert AllBefore(sv, triggered, 0) == {};
    } else {
      CountsAll(sv, triggered, k - 1);
      var more := if sv.open[k - 1].number in triggered then {k - 1} else {};
      assert AllBefore(sv, triggered, k) == AllBefore(sv, triggered, k - 1) + more;
    }
  }

  lemma FittingExactly(cfg: Config, sv: Survey, triggered: seq<nat>, k: nat)
    requires k < |sv.open|
    ensures RoomFor(cfg, sv, triggered, k) <==> Fitting(cfg, sv, triggered, k)
  {
    CountsSlots(cfg, sv, triggered, k);
    CountsAll(sv, triggered, k);
    VacantExactly(cfg, sv);
    WantsExactly(sv.open[k]);
    hide RunnerFor, WantsTmux, Picked, SlotsTaken, TmuxBefore, AllBefore, Vacant, FreeSlots;
  }

  // ---------- the lists ----------

  /** Issue `k` comes to its dispatch: it is workable, no claim is shown, and no chord holds it. */
  ghost predicate LetGo(cfg: Config, sv: Survey, soft: map<nat, int>, a: Answers, triggered: seq<nat>, k: nat)
    requires Fits(cfg, sv, a) && k < |sv.open|
  {
    var i, o := sv.open[k], a.outcomes[k];
    Workable(sv, i) && !(cfg.mailbox && o.claimed) && !Waits(cfg, sv, soft, i, o.decideAt) &&
    !Queues(cfg, sv, triggered, o.permit, k)
  }

  /**
   * Triggered are exactly the issues let go outside a dry run that fit under the caps and that the host took; deferred
   * those workable and unclaimed that a chord holds; overlapping those workable that are claimed.
   */
  lemma DispatchExactly(cfg: Config, sv: Survey, host: Content, soft: map<nat, int>, a: Answers, k: nat)
    requires Fits(cfg, sv, a) && DistinctNumbers(sv.open) && k < |sv.open|
    ensures var r, i, o := RunCycle(cfg, sv, host, soft, a).pass.report, sv.open[k], a.outcomes[k];
            (i.number in r.triggered <==>
             LetGo(cfg, sv, soft, a, r.triggered, k) && !cfg.dryRun && Fitting(cfg, sv, r.triggered, k) && Taken(cfg, i, o)) &&
            (i.number in r.deferred <==>
             Workable(sv, i) && !(cfg.mailbox && o.claimed) &&
             (Waits(cfg, sv, soft, i, o.decideAt) || Queues(cfg, sv, r.triggered, o.permit, k))) &&
            (i.number in r.overlap <==> Workable(sv, i) && cfg.mailbox && o.claimed)
  {
    var r := RunCycle(cfg, sv, host, soft, a).pass.report;
    ListsExact(cfg, sv, host, soft, a);
    assert ListedRightly(cfg, sv, soft, a, r, k);
    WorkableExactly(cfg, sv, sv.open[k]);
    WaitsExactly(cfg, sv, soft, sv.open[k], a.outcomes[k].decideAt);
    QueuesExactly(cfg, sv, a, r.triggered, k);
    FittingExactly(cfg, sv, r.triggered, k);
    WantsExactly(sv.open[k]);
    hide RunCycle, ListsExactly, Dispatchable, IsolationOf, HardHeld, RoomFor, RunnerFor, Workable, Waits, Queues, Fitting,
      WantsTmux, DistinctNumbers;
  }
}
