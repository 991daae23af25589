/** The calls that a cycle owes: advisories, and labels cleared for issues that pull requests took over. */
module CallsDue {
  import opened Options
  import opened Repo
  import opened Isolation
  import opened Classifier
  import opened Dispatch
  import opened Cycle
  import opened CycleLaws
  import opened FlightLabels
  import opened Dispatched

  // ---------- advisories ----------

  /** The comments among the calls that trigger nothing. */
  ghost function Advice(calls: seq<Call>): set<Call> {
    set c | c in calls && c.PostComment? && !c.comment.trigger
  }

  /** Between two states the log grew by calls with this advice. */
  ghost predicate Advises(a: Content, b: Content, advice: set<Call>) {
    exists calls :: b.log == a.log + calls && Advice(calls) == advice
  }

  lemma AdvisesBy(a: Content, b: Content, calls: seq<Call>, advice: set<Call>)
    requires b.log == a.log + calls && Advice(calls) == advice
    ensures Advises(a, b, advice)
  {
  }

  lemma AdvisesThen(a: Content, b: Content, c: Content, x: set<Call>, y: set<Call>)
    requires Advises(a, b, x) && Advises(b, c, y)
    ensures Advises(a, c, x + y)
  {
    var p :| b.log == a.log + p && Advice(p) == x;
    var q :| c.log == b.log + q && Advice(q) == y;
    assert Advice(p + q) == x + y;
    AdvisesBy(a, c, p + q, x + y);
  }

  lemma AdvisesNothing(a: Content, b: Content)
    requires a.log <= b.log && forall k :: |a.log| <= k < |b.log| && b.log[k].PostComment? ==> b.log[k].comment.trigger
    ensures Advises(a, b, {})
  {
    AdvisesBy(a, b, b.log[|a.log|..], {});
  }

  lemma LaunchAdvisesNothing(cfg: Config, st: State, i: Issue, preset: Preset, o: Outcome)
    ensures Advises(st.host, Launch(cfg, st, i, preset, o).host, {})
  {
    var slot := NextFree(st.pass.slots, cfg.maxBeats);
    AdvisesNothing(st.host, st.host);
    WebAdvisesNothing(st, i.number, preset, o);
    if slot.Some? { TmuxAdvisesNothing(st, i.number, preset, slot.value, o); }
    hide RunnerFor, NextFree, TriggerWeb, TriggerTmux, Advises;
  }

  lemma WebAdvisesNothing(st: State, n: nat, preset: Preset, o: Outcome)
    ensures Advises(st.host, TriggerWeb(st, n, preset, o.flag, o.post, o.rollback).host, {})
  {
    hide AddFlight, RemoveFlight, Count, Advises;
    AdvisesNothing(st.host, TriggerWeb(st, n, preset, o.flag, o.post, o.rollback).host);
  }

  lemma TmuxAdvisesNothing(st: State, n: nat, preset: Preset, slot: nat, o: Outcome)
    ensures Advises(st.host, TriggerTmux(st, n, preset, slot, o.flag, o.session, o.start, o.prompt, o.rollback).host, {})
  {
    hide AddFlight, RemoveFlight, Count, SlotName, Advises;
    AdvisesNothing(st.host, TriggerTmux(st, n, preset, slot, o.flag, o.session, o.start, o.prompt, o.rollback).host);
  }

  /** Advice is due about issue `k`: it is workable, unclaimed and under the fast preset, with a pull request not its own. */
  ghost predicate AdviceDue(cfg: Config, sv: Survey, i: Issue, o: Outcome) {
    !cfg.dryRun && Workable(sv, i) && !(cfg.mailbox && o.claimed) && Under(cfg, i, Fast) &&
    exists p :: p in sv.prs && p.linkedIssue != Some(i.number)
  }

  ghost function AdviceOn(i: Issue, o: Outcome): Call {
    PostComment(Comment(i.number, false, true), o.advised)
  }

  ghost function AdviceIf(due: bool, i: Issue, o: Outcome): set<Call> {
    if due then {AdviceOn(i, o)} else {}
  }

  /** Only a launched turn gives advice, and exactly if it is due. */
  lemma DueWhen(cfg: Config, sv: Survey, st: State, i: Issue, o: Outcome)
    ensures var d := IsolationOf(cfg, sv, st.soft, i, o.decideAt);
            AdviceDue(cfg, sv, i, o) <==> FateOf(cfg, sv, st, i, o) == Launched && d.DispatchWithAdvisory? && !cfg.dryRun
  {
    WorkableExactly(cfg, sv, i);
    UnderExactly(cfg, i, Fast);
    TellsExactlyWhen(EffectivePreset(cfg, i), i.number, sv.prs, FirstSeen(st.soft, i.number), o.decideAt, cfg.timeout);
    hide Dispatchable, Workable, Under, EffectivePreset, Decide, SiblingPrs, FirstSeen, AnyInFlight;
  }

  lemma BroughtAdvises(cfg: Config, sv: Survey, st: State, i: Issue, o: Outcome)
    requires FateOf(cfg, sv, st, i, o) == Launched
    ensures Advises(st.host, Brought(cfg, sv, st, i, o).host, AdviceIf(AdviceDue(cfg, sv, i, o), i, o))
  {
    DueWhen(cfg, sv, st, i, o);
    var due := AdviceDue(cfg, sv, i, o);
    hide FateOf, AdviceDue, IsolationOf, EffectivePreset;
    var after := Brought(cfg, sv, st, i, o).host;
    var asks := (if cfg.mailbox then [Inbox(i.number, o.claimed)] else []) + [Clock(o.decideAt)];
    var permit := if EffectivePreset(cfg, i) == Bureaucratic then [TryPermit(o.permit)] else [];
    var calls := asks + (if due then [AdviceOn(i, o)] else []) + permit;
    assert after.log == st.host.log + calls;
    assert Advice(asks) == {} && Advice(permit) == {} && Advice([AdviceOn(i, o)]) == {AdviceOn(i, o)};
    assert Advice(calls) == AdviceIf(due, i, o);
    AdvisesBy(st.host, after, calls, AdviceIf(due, i, o));
  }

  lemma TurnAdvises(cfg: Config, sv: Survey, st: State, i: Issue, o: Outcome)
    ensures Advises(st.host, Turn(cfg, sv, st, i, o).host, AdviceIf(AdviceDue(cfg, sv, i, o), i, o))
  {
    if FateOf(cfg, sv, st, i, o) == Launched {
      TurnLaunched(cfg, sv, st, i, o);
      BroughtAdvises(cfg, sv, st, i, o);
      var b := Brought(cfg, sv, st, i, o);
      hide *;
      LaunchAdvisesNothing(cfg, b, i, EffectivePreset(cfg, i), o);
      AdvisesThen(st.host, b.host, Turn(cfg, sv, st, i, o).host, AdviceIf(AdviceDue(cfg, sv, i, o), i, o), {});
      assert AdviceIf(AdviceDue(cfg, sv, i, o), i, o) + {} == AdviceIf(AdviceDue(cfg, sv, i, o), i, o);
    } else {
      DueWhen(cfg, sv, st, i, o);
      TurnIdle(cfg, sv, st, i, o);
      hide Turn, FateOf, AdviceDue, Advises, IsolationOf;
      AdvisesNothing(st.host, Turn(cfg, sv, st, i, o).host);
    }
  }

  /** The advice due about the first `k` issues. */
  ghost function AllAdvice(cfg: Config, sv: Survey, os: seq<Outcome>, k: nat): set<Call>
    requires |os| == |sv.open| && k <= |sv.open|
  {
    set j | 0 <= j < k && AdviceDue(cfg, sv, sv.open[j], os[j]) :: AdviceOn(sv.open[j], os[j])
  }

  lemma AllAdviceNext(cfg: Config, sv: Survey, os: seq<Outcome>, k: nat)
    requires |os| == |sv.open| && 0 < k <= |sv.open|
    ensures AllAdvice(cfg, sv, os, 0) == {}
    ensures var i, o := sv.open[k - 1], os[k - 1];
            AllAdvice(cfg, sv, os, k) == AllAdvice(cfg, sv, os, k - 1) + AdviceIf(AdviceDue(cfg, sv, i, o), i, o)
  {
    hide AdviceDue, AdviceOn;
  }

  lemma {:induction false} LoopAdvises(cfg: Config, sv: Survey, st: State, os: seq<Outcome>, k: nat)
    requires |os| == |sv.open| && k <= |sv.open|
    ensures Advises(st.host, HandleUpTo(cfg, sv, st, os, k).host, AllAdvice(cfg, sv, os, k))
  {
    if k == 0 {
      HandleStart(cfg, sv, st, os);
      AdvisesNothing(st.host, st.host);
      assert AllAdvice(cfg, sv, os, 0) == {};
    } else {
      hide *;
      LoopAdvises(cfg, sv, st, os, k - 1);
      var before := HandleUpTo(cfg, sv, st, os, k - 1);
      TurnAdvises(cfg, sv, before, sv.open[k - 1], os[k - 1]);
      HandledNext(cfg, sv, st, os, k);
      AllAdviceNext(cfg, sv, os, k);
      AdvisesThen(st.host, before.host, HandleUpTo(cfg, sv, st, os, k).host, AllAdvice(cfg, sv, os, k - 1),
                  AdviceIf(AdviceDue(cfg, sv, sv.open[k - 1], os[k - 1]), sv.open[k - 1], os[k - 1]));
    }
  }

  // ---------- before the loop ----------

  /** Calls that post nothing. */
  ghost predicate PostsNothing(a: Content, b: Content) {
    a.log <= b.log && forall k :: |a.log| <= k < |b.log| ==> !b.log[k].PostComment?
  }

  lemma {:induction false} HousekeepPostsNothing(open: seq<Issue>, host: Content, links: seq<Option<nat>>, cleared: seq<bool>)
    requires |cleared| == |links|
    ensures PostsNothing(host, Housekeep(open, host, links, cleared))
  {
    if links != [] {
      HousekeepPostsNothing(open, host, links[..|links| - 1], cleared[..|links| - 1]);
      hide FlaggedIn, RemoveFlight;
    }
  }

  lemma {:induction false} MergesPostNothing(cfg: Config, st: State, cs: seq<Classification>, os: seq<Outcome>)
    requires |os| == |cs|
    ensures PostsNothing(st.host, MergeAll(cfg, st, cs, os).host)
  {
    if cs != [] {
      MergesPostNothing(cfg, st, cs[..|cs| - 1], os[..|cs| - 1]);
    }
  }

  lemma PreparedPostsNothing(cfg: Config, sv: Survey, host: Content, soft: map<nat, int>, a: Answers)
    requires Fits(cfg, sv, a)
    ensures PostsNothing(host, Prepared(cfg, sv, host, soft, a).host)
  {
    var s := Surveyed(cfg, sv, host, soft, a);
    var surveyed := Logged(host, SurveyCalls(a));
    if !cfg.dryRun { HousekeepPostsNothing(sv.open, surveyed, Links(sv), a.cleared); }
    MergesPostNothing(cfg, s, Classifications(sv), a.outcomes);
    hide MergeAll, Classifications, Housekeep, Links, SlotIndices;
    assert PostsNothing(host, surveyed) && PostsNothing(surveyed, Tidied(cfg, sv, host, a));
    assert PostsNothing(Tidied(cfg, sv, host, a), s.host);
  }

  /** A comment of a cycle is advice exactly if it is due about the surveyed issue it is on. */
  lemma AdviceExactly(cfg: Config, sv: Survey, host: Content, soft: map<nat, int>, a: Answers, n: nat, w: Write)
    requires Fits(cfg, sv, a)
    ensures PostComment(Comment(n, false, true), w) in CycleCalls(cfg, sv, host, soft, a) <==>
            exists k :: 0 <= k < |sv.open| && sv.open[k].number == n && AdviceDue(cfg, sv, sv.open[k], a.outcomes[k]) &&
              w == a.outcomes[k].advised
  {
    var m, end := Prepared(cfg, sv, host, soft, a), RunCycle(cfg, sv, host, soft, a);
    PreparedPostsNothing(cfg, sv, host, soft, a);
    AdvisesNothing(host, m.host);
    CycleIsLoop(cfg, sv, host, soft, a);
    LoopAdvises(cfg, sv, m, a.outcomes, |sv.open|);
    LogGrows(cfg, sv, host, soft, a);
    hide HandleUpTo, Prepared, RunCycle, AllAdvice, AdviceDue;
    AdvisesThen(host, m.host, end.host, {}, AllAdvice(cfg, sv, a.outcomes, |sv.open|));
    assert {} + AllAdvice(cfg, sv, a.outcomes, |sv.open|) == AllAdvice(cfg, sv, a.outcomes, |sv.open|);
    var calls :| end.host.log == host.log + calls && Advice(calls) == AllAdvice(cfg, sv, a.outcomes, |sv.open|);
    assert CycleCalls(cfg, sv, host, soft, a) == calls;
    var c := PostComment(Comment(n, false, true), w);
    assert c in calls <==> c in Advice(calls);
    AllAdviceMeans(cfg, sv, a.outcomes, n, w);
  }

  lemma AllAdviceMeans(cfg: Config, sv: Survey, os: seq<Outcome>, n: nat, w: Write)
    requires |os| == |sv.open|
    ensures PostComment(Comment(n, false, true), w) in AllAdvice(cfg, sv, os, |sv.open|) <==>
            exists k :: 0 <= k < |sv.open| && sv.open[k].number == n && AdviceDue(cfg, sv, sv.open[k], os[k]) &&
              w == os[k].advised
  {
    hide AdviceDue;
  }

  // ---------- clearing labels ----------

  lemma {:induction false} LinkCleared(open: seq<Issue>, host: Content, links: seq<Option<nat>>, cleared: seq<bool>, j: nat)
    requires |cleared| == |links| && j < |links| && links[j].Some? && FlaggedIn(open, links[j].value)
    ensures var log := Housekeep(open, host, links, cleared).log;
            host.log <= log && RemoveLabel(links[j].value, cleared[j]) in log[|host.log|..]
  {
    var n := |links| - 1;
    var before, after := Housekeep(open, host, links[..n], cleared[..n]), Housekeep(open, host, links, cleared);
    HousekeepPostsNothing(open, host, links[..n], cleared[..n]);
    assert host.log <= before.log;
    assert after == Tidy(open, before, links[n], cleared[n]);
    if j < n {
      LinkCleared(open, host, links[..n], cleared[..n], j);
      var since := before.log[|host.log|..];
      var x :| 0 <= x < |since| && since[x] == RemoveLabel(links[j].value, cleared[j]);
      assert after.log[|host.log|..][x] == since[x];
    } else {
      assert after.log == before.log + [RemoveLabel(links[n].value, cleared[n])];
      assert after.log[|host.log|..][|before.log| - |host.log|] == RemoveLabel(links[n].value, cleared[n]);
    }
  }

  lemma Named(sv: Survey, n: nat)
    requires Some(n) in sv.closedLinks || exists p :: p in sv.prs && p.linkedIssue == Some(n)
    ensures exists j :: 0 <= j < |Links(sv)| && Links(sv)[j] == Some(n)
  {
    if Some(n) in sv.closedLinks {
      var k :| 0 <= k < |sv.closedLinks| && sv.closedLinks[k] == Some(n);
      assert Links(sv)[|sv.prs| + k] == Some(n);
    } else {
      var k :| 0 <= k < |sv.prs| && sv.prs[k].linkedIssue == Some(n);
      assert Links(sv)[k] == Some(n);
    }
  }

  /** Outside a dry run the label is cleared of every surveyed issue that carries it and that a pull request names. */
  lemma OvertakenCleared(cfg: Config, sv: Survey, host: Content, soft: map<nat, int>, a: Answers, i: Issue)
    requires Fits(cfg, sv, a) && DistinctNumbers(sv.open) && !cfg.dryRun && i in sv.open && InFlight in i.labels
    requires Some(i.number) in sv.closedLinks || exists p :: p in sv.prs && p.linkedIssue == Some(i.number)
    ensures exists landed :: RemoveLabel(i.number, landed) in CycleCalls(cfg, sv, host, soft, a)
  {
    var links, surveyed := Links(sv), Logged(host, SurveyCalls(a));
    assert exists j :: 0 <= j < |links| && links[j] == Some(i.number) by { Named(sv, i.number); }
    var j :| 0 <= j < |links| && links[j] == Some(i.number);
    FindDistinct(sv.open, i);
    LinkCleared(sv.open, surveyed, links, a.cleared, j);
    var tidied := Housekeep(sv.open, surveyed, links, a.cleared);
    MergesPostNothing(cfg, Surveyed(cfg, sv, host, soft, a), Classifications(sv), a.outcomes);
    PreparedIsFresh(cfg, sv, host, soft, a);
    LogGrows(cfg, sv, host, soft, a);
    hide MergeAll, Classifications, Housekeep, HandleUpTo, Links, SlotIndices, FindIssue;
    var log := RunCycle(cfg, sv, host, soft, a).host.log;
    assert surveyed.log <= tidied.log <= Surveyed(cfg, sv, host, soft, a).host.log <= log;
    var calls := CycleCalls(cfg, sv, host, soft, a);
    assert calls == log[|host.log|..];
    hide *;
    StillAmong(host.log, surveyed.log, tidied.log, log, RemoveLabel(i.number, a.cleared[j]));
  }

  lemma StillAmong(a: seq<Call>, b: seq<Call>, c: seq<Call>, d: seq<Call>, call: Call)
    requires a <= b <= c <= d && call in c[|b|..]
    ensures call in d[|a|..]
  {
    var x :| 0 <= x < |c[|b|..]| && c[|b|..][x] == call;
    assert d[|a|..][|b| - |a| + x] == call;
  }
}
