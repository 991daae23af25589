/** What the report of one cycle lists, and why. */
module CycleReports {
  import opened Ordered
  import opened Repo
  import opened Isolation
  import opened Classifier
  import opened Dispatch
  import opened Cycle
  import opened CycleLaws
  import opened FlightLabels

  // ---------- what one turn does to the pass ----------

  /** The issue goes to a tmux slot. */
  predicate OnTmux(cfg: Config, i: Issue) {
    RunnerFor(i.labels) == Tmux && cfg.tmux
  }

  /** Room under the caps: a free slot for an issue labelled for tmux, and a free beat for one that goes to the web. */
  predicate Room(cfg: Config, pass: Pass, i: Issue) {
    (RunnerFor(i.labels) == Tmux ==> NextFree(pass.slots, cfg.maxBeats).Some?) &&
    (!OnTmux(cfg, i) ==> pass.dispatched < cfg.maxBeats)
  }

  /** The host took the label, and the comment, or the session and its prompt. */
  predicate Delivered(cfg: Config, i: Issue, o: Outcome) {
    o.flag.Done? && if OnTmux(cfg, i) then o.session.Done? && o.prompt else o.post.Done?
  }

  function WithSlot(cfg: Config, pass: Pass, i: Issue): Pass {
    var slot := NextFree(pass.slots, cfg.maxBeats);
    if OnTmux(cfg, i) && slot.Some? then pass.(slots := pass.slots + [slot.value]) else pass
  }

  lemma LaunchPass(cfg: Config, st: State, i: Issue, preset: Preset, o: Outcome)
    ensures Launch(cfg, st, i, preset, o).pass ==
            if !cfg.dryRun && Room(cfg, st.pass, i) && Delivered(cfg, i, o)
            then Count(WithSlot(cfg, st.pass, i), i.number, preset) else st.pass
  {
    hide RunnerFor, NextFree, SlotName, Flag, Unflag, Post, Spawn, Logged, Count;
  }

  /** The pass after a turn, by the fate of its issue. */
  lemma TurnPass(cfg: Config, sv: Survey, st: State, i: Issue, o: Outcome)
    ensures Turn(cfg, sv, st, i, o).pass ==
            match FateOf(cfg, sv, st, i, o)
            case Skipped => NotReady(st, ClassifyIn(sv, i)).pass
            case Overlapping => Overlap(st, i.number).pass
            case HeldBack => DeferIssue(st, i.number).pass
            case Serialised => DeferIssue(st, i.number).pass
            case Launched =>
              if !cfg.dryRun && Room(cfg, st.pass, i) && Delivered(cfg, i, o)
              then Count(WithSlot(cfg, st.pass, i), i.number, EffectivePreset(cfg, i)) else st.pass
  {
    assert ClassifyIn(sv, i).issue == i.number;
    var fate := FateOf(cfg, sv, st, i, o);
    if fate == Launched {
      TurnLaunched(cfg, sv, st, i, o);
      BroughtKeeps(cfg, sv, st, i, o);
      LaunchPass(cfg, Brought(cfg, sv, st, i, o), i, EffectivePreset(cfg, i), o);
      hide Turn, FateOf, Brought, Launch, EffectivePreset, Room, Delivered, WithSlot, Count;
    } else if fate == Serialised {
      TurnSerialised(cfg, sv, st, i, o);
      hide Turn, FateOf;
    } else if fate == HeldBack {
      TurnHeld(cfg, sv, st, i, o);
      HoldAsks(cfg, st, i, o);
      hide Turn, FateOf, ReadClock, Hold;
    } else {
      hide EffectivePreset, ClassifyIn, AnyInFlight, IsolationOf, Isolate;
    }
  }

  // ---------- at most one list ----------

  /** How often an issue is listed as triggered, waiting, blocked, human, overlapping or deferred. */
  function Mentions(r: CycleReport, n: nat): nat {
    Occurs(r.triggered, n) + Occurs(r.waiting, n) + Occurs(r.blocked, n) + Occurs(r.human, n) + Occurs(r.overlap, n) +
    Occurs(r.deferred, n)
  }

  /** At most one mention more, and only of `x`. */
  predicate Lists(before: CycleReport, after: CycleReport, x: nat, n: nat) {
    Mentions(before, n) <= Mentions(after, n) <= Mentions(before, n) + if n == x then 1 else 0
  }

  lemma CountLists(pass: Pass, x: nat, preset: Preset, n: nat)
    ensures Lists(pass.report, Count(pass, x, preset).report, x, n)
  {
    OccursSnoc(pass.report.triggered, x, n);
    hide Occurs;
  }

  lemma DeferLists(st: State, x: nat, n: nat)
    ensures Lists(st.pass.report, DeferIssue(st, x).pass.report, x, n)
  {
    OccursSnoc(st.pass.report.deferred, x, n);
    hide Occurs;
  }

  lemma OverlapLists(r: CycleReport, x: nat, n: nat)
    ensures Lists(r, r.(overlap := r.overlap + [x]), x, n)
  {
    OccursSnoc(r.overlap, x, n);
    hide Occurs;
  }

  lemma NotReadyLists(st: State, c: Classification, n: nat)
    ensures Lists(st.pass.report, NotReady(st, c).pass.report, c.issue, n)
  {
    OccursSnoc(st.pass.report.waiting, c.issue, n);
    OccursSnoc(st.pass.report.blocked, c.issue, n);
    OccursSnoc(st.pass.report.human, c.issue, n);
    hide Occurs;
  }

  lemma TurnLists(cfg: Config, sv: Survey, st: State, i: Issue, o: Outcome, n: nat)
    ensures Lists(st.pass.report, Turn(cfg, sv, st, i, o).pass.report, i.number, n)
  {
    assert ClassifyIn(sv, i).issue == i.number;
    TurnPass(cfg, sv, st, i, o);
    assert Lists(st.pass.report, st.pass.report, i.number, n);
    NotReadyLists(st, ClassifyIn(sv, i), n);
    OverlapLists(st.pass.report, i.number, n);
    DeferLists(st, i.number, n);
    CountLists(WithSlot(cfg, st.pass, i), i.number, EffectivePreset(cfg, i), n);
    assert WithSlot(cfg, st.pass, i).report == st.pass.report;
    hide Turn, FateOf, ClassifyIn, NotReady, Lists, Room, Delivered, WithSlot, EffectivePreset, Count, DeferIssue;
  }

  lemma {:induction false} MentionsUpTo(cfg: Config, sv: Survey, st: State, os: seq<Outcome>, k: nat, n: nat)
    requires |os| == |sv.open| && k <= |sv.open| && Fresh(st.pass) && DistinctNumbers(sv.open)
    ensures Mentions(HandleUpTo(cfg, sv, st, os, k).pass.report, n) <= if SeenUpTo(sv.open, k, n) then 1 else 0
  {
    hide *;
    if k == 0 {
      HandleStart(cfg, sv, st, os);
      NoMentions(st.pass, n);
    } else {
      MentionsUpTo(cfg, sv, st, os, k - 1, n);
      HandledNext(cfg, sv, st, os, k);
      TurnLists(cfg, sv, HandleUpTo(cfg, sv, st, os, k - 1), sv.open[k - 1], os[k - 1], n);
      ListsMeans(HandleUpTo(cfg, sv, st, os, k - 1).pass.report, HandleUpTo(cfg, sv, st, os, k).pass.report,
                 sv.open[k - 1].number, n);
      SeenNext(sv.open, k - 1, n);
    }
  }

  lemma NoMentions(pass: Pass, n: nat)
    requires Fresh(pass)
    ensures Mentions(pass.report, n) == 0
  {
  }

  lemma ListsMeans(before: CycleReport, after: CycleReport, x: nat, n: nat)
    requires Lists(before, after, x, n)
    ensures Mentions(after, n) <= Mentions(before, n) + if n == x then 1 else 0
  {
  }

  /** Every issue is in at most one of those lists, at most once. */
  lemma OneListEach(cfg: Config, sv: Survey, host: Content, soft: map<nat, int>, a: Answers, n: nat)
    requires Fits(cfg, sv, a) && DistinctNumbers(sv.open)
    ensures Mentions(RunCycle(cfg, sv, host, soft, a).pass.report, n) <= 1
  {
    PreparedIsFresh(cfg, sv, host, soft, a);
    hide Prepared, HandleUpTo, Mentions;
    MentionsUpTo(cfg, sv, Prepared(cfg, sv, host, soft, a), a.outcomes, |sv.open|, n);
  }

  // ---------- which issues and pull requests the report names ----------

  /** The issues in a bucket, in order. */
  function InBucket(cs: seq<Classification>, b: Bucket): seq<nat> {
    if cs == [] then []
    else InBucket(cs[..|cs| - 1], b) + if cs[|cs| - 1].bucket == b then [cs[|cs| - 1].issue] else []
  }

  predicate BucketsReported(r: CycleReport, cs: seq<Classification>) {
    r.waiting == InBucket(cs, TriggeredWaiting) && r.blocked == InBucket(cs, Blocked) && r.human == InBucket(cs, HumanOnly)
  }

  lemma InBucketNext(cs: seq<Classification>, k: nat, b: Bucket)
    requires k < |cs|
    ensures InBucket(cs[..k + 1], b) == InBucket(cs[..k], b) + if cs[k].bucket == b then [cs[k].issue] else []
  {
    assert cs[..k + 1][..k] == cs[..k];
  }

  lemma TurnBuckets(cfg: Config, sv: Survey, st: State, i: Issue, o: Outcome)
    ensures var c := ClassifyIn(sv, i);
            var a, b := st.pass.report, Turn(cfg, sv, st, i, o).pass.report;
            b.waiting == a.waiting + (if c.bucket == TriggeredWaiting then [c.issue] else []) &&
            b.blocked == a.blocked + (if c.bucket == Blocked then [c.issue] else []) &&
            b.human == a.human + (if c.bucket == HumanOnly then [c.issue] else []) &&
            b.merged == a.merged && b.prFailing == a.prFailing
  {
    TurnPass(cfg, sv, st, i, o);
    hide Turn, ClassifyIn, IsolationOf, EffectivePreset, AnyInFlight, Room, Delivered;
  }

  lemma {:induction false} BucketsUpTo(cfg: Config, sv: Survey, st: State, os: seq<Outcome>, k: nat)
    requires |os| == |sv.open| && k <= |sv.open| && Fresh(st.pass)
    ensures var r := HandleUpTo(cfg, sv, st, os, k).pass.report;
            BucketsReported(r, Classifications(sv)[..k]) && r.merged == st.pass.report.merged &&
              r.prFailing == st.pass.report.prFailing
  {
    hide *;
    if k == 0 {
      HandleStart(cfg, sv, st, os);
      NoBuckets(st.pass, Classifications(sv));
    } else {
      BucketsUpTo(cfg, sv, st, os, k - 1);
      var before := HandleUpTo(cfg, sv, st, os, k - 1);
      TurnBuckets(cfg, sv, before, sv.open[k - 1], os[k - 1]);
      HandledNext(cfg, sv, st, os, k);
      ClassifiedAt(sv, k - 1);
      BucketsNext(before.pass.report, HandleUpTo(cfg, sv, st, os, k).pass.report, Classifications(sv), k - 1);
    }
  }

  lemma ClassifiedAt(sv: Survey, k: nat)
    requires k < |sv.open|
    ensures |Classifications(sv)| == |sv.open| && Classifications(sv)[k] == ClassifyIn(sv, sv.open[k])
  {
    hide ClassifyIn;
  }

  lemma NoBuckets(pass: Pass, cs: seq<Classification>)
    requires Fresh(pass)
    ensures BucketsReported(pass.report, cs[..0])
  {
  }

  lemma BucketsNext(before: CycleReport, after: CycleReport, cs: seq<Classification>, k: nat)
    requires k < |cs| && BucketsReported(before, cs[..k])
    requires after.waiting == before.waiting + if cs[k].bucket == TriggeredWaiting then [cs[k].issue] else []
    requires after.blocked == before.blocked + if cs[k].bucket == Blocked then [cs[k].issue] else []
    requires after.human == before.human + if cs[k].bucket == HumanOnly then [cs[k].issue] else []
    ensures BucketsReported(after, cs[..k + 1])
  {
    InBucketNext(cs, k, TriggeredWaiting);
    InBucketNext(cs, k, Blocked);
    InBucketNext(cs, k, HumanOnly);
    hide InBucket;
  }

  /** The pull requests of classified issues that satisfy a condition on bucket and outcome, in order. */
  function PrsWhere(cs: seq<Classification>, os: seq<Outcome>, b: Bucket, mergedOnly: bool): seq<nat>
    requires |os| == |cs|
  {
    if cs == [] then []
    else
      var n := |cs| - 1;
      PrsWhere(cs[..n], os[..n], b, mergedOnly) +
      if cs[n].bucket == b && cs[n].pr.Some? && (mergedOnly ==> os[n].merge) then [cs[n].pr.value] else []
  }

  /**
   * Exactly the open pull requests whose merge succeeded are reported and recorded as merged, and the failing ones are
   * reported as failing.
   */
  lemma {:induction false} MergesReported(cfg: Config, st: State, cs: seq<Classification>, os: seq<Outcome>)
    requires |os| == |cs|
    ensures var m := MergeAll(cfg, st, cs, os);
            var now := if cfg.dryRun then [] else PrsWhere(cs, os, PrOpen, true);
            m.pass.report.merged == st.pass.report.merged + now && m.host.merged == st.host.merged + now &&
            m.pass.report.prFailing == st.pass.report.prFailing + PrsWhere(cs, os, PrFailing, false)
  {
    if cs == [] {
      assert st.pass.report.merged + [] == st.pass.report.merged && st.host.merged + [] == st.host.merged;
      assert st.pass.report.prFailing + [] == st.pass.report.prFailing;
    } else {
      var n := |cs| - 1;
      MergesReported(cfg, st, cs[..n], os[..n]);
      MergeReports(cfg, MergeAll(cfg, st, cs[..n], os[..n]), cs[n], os[n]);
      hide Merge;
    }
  }

  lemma MergeReports(cfg: Config, st: State, c: Classification, o: Outcome)
    ensures var m := Merge(cfg, st, c, o);
            var now := if !cfg.dryRun && c.bucket == PrOpen && c.pr.Some? && o.merge then [c.pr.value] else [];
            var failing := if c.bucket == PrFailing && c.pr.Some? then [c.pr.value] else [];
            m.pass.report.merged == st.pass.report.merged + now && m.host.merged == st.host.merged + now &&
            m.pass.report.prFailing == st.pass.report.prFailing + failing
  {
  }

  /** The report names exactly the waiting, blocked and human issues, and the merged and failing pull requests, in order. */
  lemma ReportNames(cfg: Config, sv: Survey, host: Content, soft: map<nat, int>, a: Answers)
    requires Fits(cfg, sv, a)
    ensures var r := RunCycle(cfg, sv, host, soft, a).pass.report;
            var cs := Classifications(sv);
            BucketsReported(r, cs) && r.merged == (if cfg.dryRun then [] else PrsWhere(cs, a.outcomes, PrOpen, true)) &&
            r.prFailing == PrsWhere(cs, a.outcomes, PrFailing, false)
  {
    var cs := Classifications(sv);
    MergesReported(cfg, Surveyed(cfg, sv, host, soft, a), cs, a.outcomes);
    PreparedIsFresh(cfg, sv, host, soft, a);
    BucketsUpTo(cfg, sv, Prepared(cfg, sv, host, soft, a), a.outcomes, |sv.open|);
    assert cs[..|sv.open|] == cs;
    hide HandleUpTo, MergeAll, Classifications, SlotIndices, BucketsReported, PrsWhere;
  }

  // ---------- overlapping, deferred and triggered ----------

  /** The numbers of the first `k` issues that occur in `list`, in survey order. */
  function Picked(open: seq<Issue>, list: seq<nat>, k: nat): seq<nat>
    requires k <= |open|
  {
    if k == 0 then []
    else Picked(open, list, k - 1) + if open[k - 1].number in list then [open[k - 1].number] else []
  }

  /** The issue is Ready and not in flight, and the mailbox shows no claim on it. */
  predicate Free(cfg: Config, sv: Survey, a: Answers, k: nat)
    requires Fits(cfg, sv, a) && k < |sv.open|
  {
    Dispatchable(cfg, sv, sv.open[k]) && !(cfg.mailbox && a.outcomes[k].claimed)
  }

  /** Where the mailbox is attached, it shows a claim on the dispatchable issue. */
  predicate Claimed(cfg: Config, sv: Survey, a: Answers, k: nat)
    requires Fits(cfg, sv, a) && k < |sv.open|
  {
    Dispatchable(cfg, sv, sv.open[k]) && cfg.mailbox && a.outcomes[k].claimed
  }

  predicate IsBureaucratic(cfg: Config, i: Issue) {
    EffectivePreset(cfg, i) == Bureaucratic
  }

  /** The soft chord holds the free issue back, by what was recorded about it before the cycle. */
  predicate SoftHeld(cfg: Config, sv: Survey, soft: map<nat, int>, a: Answers, k: nat)
    requires Fits(cfg, sv, a) && k < |sv.open|
  {
    IsolationOf(cfg, sv, soft, sv.open[k], a.outcomes[k].decideAt) == Defer
  }

  /** The hard chord holds it back: something is in flight, a bureaucratic issue was triggered before it, or no permit. */
  ghost predicate HardHeld(cfg: Config, sv: Survey, a: Answers, triggered: seq<nat>, k: nat)
    requires Fits(cfg, sv, a) && k < |sv.open|
  {
    IsBureaucratic(cfg, sv.open[k]) &&
    (AnyInFlight(sv.open) || BureaucraticBefore(cfg, sv.open, triggered, k) || !a.outcomes[k].permit)
  }

  ghost predicate BureaucraticBefore(cfg: Config, open: seq<Issue>, triggered: seq<nat>, k: nat)
    requires k <= |open|
  {
    exists j :: 0 <= j < k && open[j].number in triggered && IsBureaucratic(cfg, open[j])
  }

  /** How many of the first `k` issues were triggered on a tmux slot. */
  function SlotsTaken(cfg: Config, open: seq<Issue>, triggered: seq<nat>, k: nat): nat
    requires k <= |open|
  {
    if k == 0 then 0
    else SlotsTaken(cfg, open, triggered, k - 1) + if open[k - 1].number in triggered && OnTmux(cfg, open[k - 1]) then 1 else 0
  }

  /** The agent slots in `1..=maxBeats` that no surveyed session occupies. */
  function FreeSlots(cfg: Config, sv: Survey): set<nat> {
    NotIn(cfg.maxBeats, FirstPass(cfg, sv).slots)
  }

  function NotIn(max: nat, used: seq<nat>): set<nat> {
    set n: nat | n in UpTo(max) && n !in used
  }

  /** Room for issue `k` under the caps, given which issues were triggered before it. */
  predicate RoomFor(cfg: Config, sv: Survey, triggered: seq<nat>, k: nat)
    requires k < |sv.open|
  {
    (RunnerFor(sv.open[k].labels) == Tmux ==> SlotsTaken(cfg, sv.open, triggered, k) < |FreeSlots(cfg, sv)|) &&
    (!OnTmux(cfg, sv.open[k]) ==> |Picked(sv.open, triggered, k)| < cfg.maxBeats)
  }

  /** Issue `k` is dispatched. */
  ghost predicate Goes(cfg: Config, sv: Survey, soft: map<nat, int>, a: Answers, triggered: seq<nat>, k: nat)
    requires Fits(cfg, sv, a) && k < |sv.open|
  {
    Free(cfg, sv, a, k) && !SoftHeld(cfg, sv, soft, a, k) && !HardHeld(cfg, sv, a, triggered, k) && !cfg.dryRun &&
    RoomFor(cfg, sv, triggered, k) && Delivered(cfg, sv.open[k], a.outcomes[k])
  }

  /** Issue `k` is held back by a chord. */
  ghost predicate Held(cfg: Config, sv: Survey, soft: map<nat, int>, a: Answers, triggered: seq<nat>, k: nat)
    requires Fits(cfg, sv, a) && k < |sv.open|
  {
    Free(cfg, sv, a, k) && (SoftHeld(cfg, sv, soft, a, k) || HardHeld(cfg, sv, a, triggered, k))
  }

  /** The three lists hold, in survey order, exactly the issues among the first `k` that belong there. */
  ghost predicate ListsExactly(cfg: Config, sv: Survey, soft: map<nat, int>, a: Answers, r: CycleReport, k: nat)
    requires Fits(cfg, sv, a) && k <= |sv.open|
  {
    r.triggered == Picked(sv.open, r.triggered, k) && r.deferred == Picked(sv.open, r.deferred, k) &&
    r.overlap == Picked(sv.open, r.overlap, k) &&
    forall j :: 0 <= j < k ==> ListedRightly(cfg, sv, soft, a, r, j)
  }

  ghost predicate ListedRightly(cfg: Config, sv: Survey, soft: map<nat, int>, a: Answers, r: CycleReport, j: nat)
    requires Fits(cfg, sv, a) && j < |sv.open|
  {
    (sv.open[j].number in r.triggered <==> Goes(cfg, sv, soft, a, r.triggered, j)) &&
    (sv.open[j].number in r.deferred <==> Held(cfg, sv, soft, a, r.triggered, j)) &&
    (sv.open[j].number in r.overlap <==> Claimed(cfg, sv, a, j))
  }

  lemma {:induction false} PickedMembers(open: seq<Issue>, list: seq<nat>, k: nat, n: nat)
    requires k <= |open|
    ensures n in Picked(open, list, k) <==> n in list && SeenUpTo(open, k, n)
  {
    if k == 0 {
    } else {
      PickedMembers(open, list, k - 1, n);
      assert SeenUpTo(open, k, n) <==> SeenUpTo(open, k - 1, n) || open[k - 1].number == n;
    }
  }

  /** The two lists agree about the first `k` issues. */
  ghost predicate Agree(open: seq<Issue>, a: seq<nat>, b: seq<nat>, k: nat)
    requires k <= |open|
  {
    forall j :: 0 <= j < k ==> (open[j].number in a <==> open[j].number in b)
  }

  lemma {:induction false} AgreeMeans(cfg: Config, open: seq<Issue>, a: seq<nat>, b: seq<nat>, k: nat)
    requires k <= |open| && Agree(open, a, b, k)
    ensures Picked(open, a, k) == Picked(open, b, k) && SlotsTaken(cfg, open, a, k) == SlotsTaken(cfg, open, b, k)
    ensures BureaucraticBefore(cfg, open, a, k) <==> BureaucraticBefore(cfg, open, b, k)
  {
    hide OnTmux, IsBureaucratic;
    if k == 0 {
    } else {
      AgreeMeans(cfg, open, a, b, k - 1);
    }
  }

  /** Whether a list was extended by issue `k`. */
  predicate Extends(before: seq<nat>, after: seq<nat>, n: nat, added: bool) {
    after == before + if added then [n] else []
  }

  lemma PickedNext(cfg: Config, open: seq<Issue>, before: seq<nat>, after: seq<nat>, k: nat, added: bool)
    requires k < |open| && DistinctNumbers(open)
    requires before == Picked(open, before, k) && Extends(before, after, open[k].number, added)
    ensures after == Picked(open, after, k + 1) && Agree(open, before, after, k)
    ensures open[k].number !in before && (open[k].number in after <==> added)
  {
    PickedMembers(open, before, k, open[k].number);
    AgreeMeans(cfg, open, before, after, k);
  }

  /** The turn extends each of the three lists exactly if its issue belongs there. */
  ghost predicate Advances(cfg: Config, sv: Survey, soft: map<nat, int>, a: Answers, before: CycleReport,
                           after: CycleReport, k: nat)
    requires Fits(cfg, sv, a) && k < |sv.open|
  {
    Extends(before.triggered, after.triggered, sv.open[k].number, Goes(cfg, sv, soft, a, before.triggered, k)) &&
    Extends(before.deferred, after.deferred, sv.open[k].number, Held(cfg, sv, soft, a, before.triggered, k)) &&
    Extends(before.overlap, after.overlap, sv.open[k].number, Claimed(cfg, sv, a, k))
  }

  lemma SameRight(cfg: Config, sv: Survey, soft: map<nat, int>, a: Answers, t: seq<nat>, u: seq<nat>, j: nat)
    requires Fits(cfg, sv, a) && j < |sv.open| && Agree(sv.open, t, u, j)
    ensures Goes(cfg, sv, soft, a, t, j) <==> Goes(cfg, sv, soft, a, u, j)
    ensures Held(cfg, sv, soft, a, t, j) <==> Held(cfg, sv, soft, a, u, j)
  {
    AgreeMeans(cfg, sv.open, t, u, j);
    hide Free, SoftHeld, Delivered, Picked, SlotsTaken, BureaucraticBefore, FreeSlots, OnTmux, IsBureaucratic, Fits;
  }

  lemma ListsNext(cfg: Config, sv: Survey, soft: map<nat, int>, a: Answers, before: CycleReport, after: CycleReport, k: nat)
    requires Fits(cfg, sv, a) && k < |sv.open| && DistinctNumbers(sv.open)
    requires ListsExactly(cfg, sv, soft, a, before, k) && Advances(cfg, sv, soft, a, before, after, k)
    ensures ListsExactly(cfg, sv, soft, a, after, k + 1) && Agree(sv.open, before.triggered, after.triggered, k)
    ensures sv.open[k].number !in before.triggered
  {
    hide Fits, DistinctNumbers, Goes, Held, Claimed, Picked;
    PickedNext(cfg, sv.open, before.triggered, after.triggered, k, Goes(cfg, sv, soft, a, before.triggered, k));
    PickedNext(cfg, sv.open, before.deferred, after.deferred, k, Held(cfg, sv, soft, a, before.triggered, k));
    PickedNext(cfg, sv.open, before.overlap, after.overlap, k, Claimed(cfg, sv, a, k));
    hide Extends;
    forall j | 0 <= j < k + 1 ensures ListedRightly(cfg, sv, soft, a, after, j) {
      SameRight(cfg, sv, soft, a, before.triggered, after.triggered, j);
      if j < k { assert ListedRightly(cfg, sv, soft, a, before, j); }
    }
  }

  /** What is known before turn `k` of a cycle that started with the map `soft`. */
  ghost predicate Known(cfg: Config, sv: Survey, soft: map<nat, int>, a: Answers, st: State, k: nat)
    requires Fits(cfg, sv, a) && k <= |sv.open|
  {
    var pass := st.pass;
    ListsExactly(cfg, sv, soft, a, pass.report, k) && SoftAhead(soft, st.soft, sv.open, k) &&
    (pass.bureaucratic <==> BureaucraticBefore(cfg, sv.open, pass.report.triggered, k)) &&
    |pass.slots| == |FirstPass(cfg, sv).slots| + SlotsTaken(cfg, sv.open, pass.report.triggered, k)
  }

  /** What is recorded about issues whose turn has not come is as it was. */
  ghost predicate SoftAhead(before: map<nat, int>, now: map<nat, int>, open: seq<Issue>, k: nat)
    requires k <= |open|
  {
    forall j :: k <= j < |open| ==> FirstSeen(now, open[j].number) == FirstSeen(before, open[j].number)
  }

  lemma TurnSoftOthers(cfg: Config, sv: Survey, st: State, i: Issue, o: Outcome, n: nat)
    requires n != i.number
    ensures FirstSeen(Turn(cfg, sv, st, i, o).soft, n) == FirstSeen(st.soft, n)
  {
    var fate := FateOf(cfg, sv, st, i, o);
    if fate == Launched {
      TurnLaunched(cfg, sv, st, i, o);
      BroughtKeeps(cfg, sv, st, i, o);
      LaunchKeepsSoft(cfg, Brought(cfg, sv, st, i, o), i, EffectivePreset(cfg, i), o);
      hide Turn, FateOf, Brought, Launch, EffectivePreset;
    } else {
      assert ClassifyIn(sv, i).issue == i.number;
      hide EffectivePreset, ClassifyIn, AnyInFlight, IsolationOf, Launch, Post, Logged;
    }
  }

  lemma LaunchKeepsSoft(cfg: Config, st: State, i: Issue, preset: Preset, o: Outcome)
    ensures Launch(cfg, st, i, preset, o).soft == st.soft
  {
    hide RunnerFor, NextFree, SlotName, Flag, Unflag, Post, Spawn, Count, Logged;
  }

  lemma SoftAheadNext(cfg: Config, sv: Survey, soft: map<nat, int>, st: State, o: Outcome, k: nat)
    requires k < |sv.open| && DistinctNumbers(sv.open) && SoftAhead(soft, st.soft, sv.open, k)
    ensures SoftAhead(soft, Turn(cfg, sv, st, sv.open[k], o).soft, sv.open, k + 1)
  {
    forall j | k + 1 <= j < |sv.open|
      ensures FirstSeen(Turn(cfg, sv, st, sv.open[k], o).soft, sv.open[j].number) == FirstSeen(soft, sv.open[j].number)
    {
      TurnSoftOthers(cfg, sv, st, sv.open[k], o, sv.open[j].number);
      hide Turn, FirstSeen;
    }
  }

  lemma FateExact(cfg: Config, sv: Survey, soft: map<nat, int>, a: Answers, st: State, k: nat)
    requires Fits(cfg, sv, a) && k < |sv.open| && Known(cfg, sv, soft, a, st, k)
    ensures var fate, t := FateOf(cfg, sv, st, sv.open[k], a.outcomes[k]), st.pass.report.triggered;
            (fate == Overlapping <==> Claimed(cfg, sv, a, k)) &&
            (fate in {HeldBack, Serialised} <==> Held(cfg, sv, soft, a, t, k)) &&
            (fate == Launched <==> Free(cfg, sv, a, k) && !SoftHeld(cfg, sv, soft, a, k) && !HardHeld(cfg, sv, a, t, k))
  {
    assert IsolationOf(cfg, sv, st.soft, sv.open[k], a.outcomes[k].decideAt) ==
      IsolationOf(cfg, sv, soft, sv.open[k], a.outcomes[k].decideAt) by
    {
      hide Decide, EffectivePreset, SiblingPrs;
    }
    hide Dispatchable, ListsExactly, SlotsTaken, BureaucraticBefore, EffectivePreset, AnyInFlight, IsolationOf, FirstPass, Fits;
  }

  // ---------- room ----------

  lemma RoomExact(cfg: Config, sv: Survey, soft: map<nat, int>, a: Answers, st: State, k: nat)
    requires Fits(cfg, sv, a) && k < |sv.open| && Known(cfg, sv, soft, a, st, k)
    requires Accounts(cfg, sv, FirstPass(cfg, sv).slots, st.pass, k)
    ensures Room(cfg, st.pass, sv.open[k]) <==> RoomFor(cfg, sv, st.pass.report.triggered, k)
  {
    hide Dispatchable, FirstPass, Fits;
    var slots0 := FirstPass(cfg, sv).slots;
    AccountsSlots(cfg, sv, slots0, st.pass, k);
    SlotLeft(cfg.maxBeats, slots0, st.pass.slots[|slots0|..]);
    assert st.pass.slots == slots0 + st.pass.slots[|slots0|..];
    assert st.pass.report.triggered == Picked(sv.open, st.pass.report.triggered, k);
    hide SoftAhead, BureaucraticBefore, SlotsTaken, NextFree, UpTo, OnTmux, ListsExactly, Picked, NotIn, SetOf;
  }

  lemma AccountsSlots(cfg: Config, sv: Survey, slots0: seq<nat>, pass: Pass, k: nat)
    requires Accounts(cfg, sv, slots0, pass, k)
    ensures slots0 <= pass.slots
    ensures var taken := pass.slots[|slots0|..];
            (forall x, y :: 0 <= x < y < |taken| ==> taken[x] != taken[y]) &&
            forall n :: n in taken ==> 1 <= n <= cfg.maxBeats && n !in slots0
  {
    hide Dispatchable;
    SlotsDistinct(slots0, pass.slots, cfg.maxBeats);
  }

  /** A pool has a free slot as long as fewer were taken than were free at the start. */
  lemma SlotLeft(max: nat, slots0: seq<nat>, taken: seq<nat>)
    requires forall x, y :: 0 <= x < y < |taken| ==> taken[x] != taken[y]
    requires forall n :: n in taken ==> 1 <= n <= max && n !in slots0
    ensures NextFree(slots0 + taken, max).Some? <==> |taken| < |NotIn(max, slots0)|
  {
    var free, got := NotIn(max, slots0), SetOf(taken);
    SetOfDistinct(taken);
    assert got <= free;
    var left := NextFree(slots0 + taken, max);
    assert |free - got| == |free| - |got|;
    if left.Some? {
      assert left.value in free - got;
    } else {
      assert forall n :: n in free ==> n in slots0 + taken;
      assert free <= got;
    }
  }

  function SetOf(s: seq<nat>): set<nat> {
    set n: nat | n in s
  }

  lemma {:induction false} SetOfDistinct(s: seq<nat>)
    requires forall x, y :: 0 <= x < y < |s| ==> s[x] != s[y]
    ensures |SetOf(s)| == |s|
  {
    if s == [] {
      assert SetOf(s) == {};
    } else {
      var m := |s| - 1;
      SetOfDistinct(s[..m]);
      assert s == s[..m] + [s[m]];
      assert SetOf(s) == SetOf(s[..m]) + {s[m]};
      assert s[m] !in SetOf(s[..m]);
    }
  }

  // ---------- the lists over a cycle ----------

  lemma TurnAdvances(cfg: Config, sv: Survey, soft: map<nat, int>, a: Answers, st: State, k: nat)
    requires Fits(cfg, sv, a) && k < |sv.open| && Known(cfg, sv, soft, a, st, k)
    requires Accounts(cfg, sv, FirstPass(cfg, sv).slots, st.pass, k)
    ensures var next := Turn(cfg, sv, st, sv.open[k], a.outcomes[k]).pass;
            Advances(cfg, sv, soft, a, st.pass.report, next.report, k) &&
            if !Goes(cfg, sv, soft, a, st.pass.report.triggered, k)
            then next.slots == st.pass.slots && next.bureaucratic == st.pass.bureaucratic
            else |next.slots| == |st.pass.slots| + (if OnTmux(cfg, sv.open[k]) then 1 else 0) &&
                 next.bureaucratic == (st.pass.bureaucratic || IsBureaucratic(cfg, sv.open[k]))
  {
    var i, o, t := sv.open[k], a.outcomes[k], st.pass.report.triggered;
    TurnPass(cfg, sv, st, i, o);
    FateExact(cfg, sv, soft, a, st, k);
    RoomExact(cfg, sv, soft, a, st, k);
    NotReadyListsElsewhere(st, ClassifyIn(sv, i));
    var fate := FateOf(cfg, sv, st, i, o);
    assert Room(cfg, st.pass, i) && OnTmux(cfg, i) ==> NextFree(st.pass.slots, cfg.maxBeats).Some?;
    assert Goes(cfg, sv, soft, a, t, k) <==> fate == Launched && !cfg.dryRun && Room(cfg, st.pass, i) && Delivered(cfg, i, o);
    assert IsBureaucratic(cfg, i) <==> EffectivePreset(cfg, i) == Bureaucratic;
    hide *;
    ByFate(cfg, sv, soft, a, st, k, fate, Turn(cfg, sv, st, i, o).pass);
  }

  lemma ByFate(cfg: Config, sv: Survey, soft: map<nat, int>, a: Answers, st: State, k: nat, fate: Fate, next: Pass)
    requires Fits(cfg, sv, a) && k < |sv.open|
    requires var i, o, t := sv.open[k], a.outcomes[k], st.pass.report.triggered;
             (fate == Overlapping <==> Claimed(cfg, sv, a, k)) &&
             (fate in {HeldBack, Serialised} <==> Held(cfg, sv, soft, a, t, k)) &&
             (Goes(cfg, sv, soft, a, t, k) <==>
              fate == Launched && !cfg.dryRun && Room(cfg, st.pass, i) && Delivered(cfg, i, o)) &&
             (Room(cfg, st.pass, i) && OnTmux(cfg, i) ==> NextFree(st.pass.slots, cfg.maxBeats).Some?) &&
             (IsBureaucratic(cfg, i) <==> EffectivePreset(cfg, i) == Bureaucratic) &&
             next ==
               match fate
               case Skipped => NotReady(st, ClassifyIn(sv, i)).pass
               case Overlapping => Overlap(st, i.number).pass
               case HeldBack => DeferIssue(st, i.number).pass
               case Serialised => DeferIssue(st, i.number).pass
               case Launched =>
                 if !cfg.dryRun && Room(cfg, st.pass, i) && Delivered(cfg, i, o)
                 then Count(WithSlot(cfg, st.pass, i), i.number, EffectivePreset(cfg, i)) else st.pass
    ensures Advances(cfg, sv, soft, a, st.pass.report, next.report, k) &&
            if !Goes(cfg, sv, soft, a, st.pass.report.triggered, k)
            then next.slots == st.pass.slots && next.bureaucratic == st.pass.bureaucratic
            else |next.slots| == |st.pass.slots| + (if OnTmux(cfg, sv.open[k]) then 1 else 0) &&
                 next.bureaucratic == (st.pass.bureaucratic || IsBureaucratic(cfg, sv.open[k]))
  {
    NotReadyListsElsewhere(st, ClassifyIn(sv, sv.open[k]));
    hide ClassifyIn, NotReady, NextFree, EffectivePreset, OnTmux, Room, Held, Goes, Claimed, Delivered, IsBureaucratic;
  }

  lemma NotReadyListsElsewhere(st: State, c: Classification)
    ensures var a, b := st.pass, NotReady(st, c).pass;
            b.report.triggered == a.report.triggered && b.report.deferred == a.report.deferred &&
            b.report.overlap == a.report.overlap && b.slots == a.slots && b.bureaucratic == a.bureaucratic
  {
  }

  lemma KnownNext(cfg: Config, sv: Survey, soft: map<nat, int>, a: Answers, st: State, k: nat)
    requires Fits(cfg, sv, a) && k < |sv.open| && DistinctNumbers(sv.open) && Known(cfg, sv, soft, a, st, k)
    requires Accounts(cfg, sv, FirstPass(cfg, sv).slots, st.pass, k)
    ensures Known(cfg, sv, soft, a, Turn(cfg, sv, st, sv.open[k], a.outcomes[k]), k + 1)
  {
    var next := Turn(cfg, sv, st, sv.open[k], a.outcomes[k]);
    var t, u := st.pass.report.triggered, next.pass.report.triggered;
    TurnAdvances(cfg, sv, soft, a, st, k);
    ListsNext(cfg, sv, soft, a, st.pass.report, next.pass.report, k);
    SoftAheadNext(cfg, sv, soft, st, a.outcomes[k], k);
    AgreeMeans(cfg, sv.open, t, u, k);
    CountsNext(cfg, sv.open, u, k);
    hide ListsExactly, SoftAhead, Turn, Goes, Held, Claimed, Accounts, BureaucraticBefore, SlotsTaken, OnTmux, IsBureaucratic,
      FirstPass, Fits, DistinctNumbers, Agree;
  }

  lemma CountsNext(cfg: Config, open: seq<Issue>, t: seq<nat>, k: nat)
    requires k < |open|
    ensures SlotsTaken(cfg, open, t, k + 1) ==
            SlotsTaken(cfg, open, t, k) + if open[k].number in t && OnTmux(cfg, open[k]) then 1 else 0
    ensures BureaucraticBefore(cfg, open, t, k + 1) <==>
            BureaucraticBefore(cfg, open, t, k) || (open[k].number in t && IsBureaucratic(cfg, open[k]))
  {
    hide OnTmux, IsBureaucratic;
  }

  lemma KnownTurn(cfg: Config, sv: Survey, st: State, a: Answers, k: nat)
    requires Fits(cfg, sv, a) && k < |sv.open| && DistinctNumbers(sv.open)
    requires Fresh(st.pass) && st.pass.slots == FirstPass(cfg, sv).slots
    requires Known(cfg, sv, st.soft, a, HandleUpTo(cfg, sv, st, a.outcomes, k), k)
    ensures Known(cfg, sv, st.soft, a, HandleUpTo(cfg, sv, st, a.outcomes, k + 1), k + 1)
  {
    FitsMeans(cfg, sv, a);
    hide *;
    var before := HandleUpTo(cfg, sv, st, a.outcomes, k);
    AccountsUpTo(cfg, sv, st, a.outcomes, k);
    KnownNext(cfg, sv, st.soft, a, before, k);
    HandledNext(cfg, sv, st, a.outcomes, k + 1);
  }

  lemma {:induction false} KnownUpTo(cfg: Config, sv: Survey, st: State, a: Answers, k: nat)
    requires Fits(cfg, sv, a) && k <= |sv.open| && DistinctNumbers(sv.open)
    requires Fresh(st.pass) && st.pass.slots == FirstPass(cfg, sv).slots
    ensures Known(cfg, sv, st.soft, a, HandleUpTo(cfg, sv, st, a.outcomes, k), k)
  {
    hide Known, Fresh, FirstPass, HandleUpTo, DistinctNumbers;
    if k == 0 {
      HandleStart(cfg, sv, st, a.outcomes);
      KnownStart(cfg, sv, st, a);
    } else {
      KnownUpTo(cfg, sv, st, a, k - 1);
      KnownTurn(cfg, sv, st, a, k - 1);
    }
  }

  lemma FitsMeans(cfg: Config, sv: Survey, a: Answers)
    requires Fits(cfg, sv, a)
    ensures |a.outcomes| == |sv.open|
  {
  }

  lemma KnownStart(cfg: Config, sv: Survey, st: State, a: Answers)
    requires Fits(cfg, sv, a) && Fresh(st.pass) && st.pass.slots == FirstPass(cfg, sv).slots
    ensures Known(cfg, sv, st.soft, a, st, 0)
  {
    hide FirstPass, Goes, Held, Claimed;
  }

  /**
   * Over a whole cycle, each in survey order: `overlap` lists exactly the dispatchable issues that the mailbox shows
   * claimed, `deferred` those that a chord holds back, and `triggered` those let go that find room under the caps and
   * that the host takes.
   */
  lemma ListsExact(cfg: Config, sv: Survey, host: Content, soft: map<nat, int>, a: Answers)
    requires Fits(cfg, sv, a) && DistinctNumbers(sv.open)
    ensures ListsExactly(cfg, sv, soft, a, RunCycle(cfg, sv, host, soft, a).pass.report, |sv.open|)
  {
    PreparedIsFresh(cfg, sv, host, soft, a);
    CycleIsLoop(cfg, sv, host, soft, a);
    hide Prepared, HandleUpTo, RunCycle, ListsExactly, DistinctNumbers, Tidied, SlotIndices;
    KnownUpTo(cfg, sv, Prepared(cfg, sv, host, soft, a), a, |sv.open|);
  }
}
