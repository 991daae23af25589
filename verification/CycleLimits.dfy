/** A promise that holds only under a condition: the cap on dispatches in a pass. */
module CycleLimits {
  import opened Options
  import opened Repo
  import opened Classifier
  import opened Dispatch
  import opened Cycle
  import opened CycleLaws
  import opened FlightLabels
  import opened CycleReports
  import opened Runs

  /** Every host call succeeds. */
  const ALL_WELL := Outcome(true, false, 0, 0, Done, true, Done, Done, Done, true, true, true)

  function PlainIssue(n: nat): Issue {
    Issue(n, [Safety(Unhinged)], false, {})
  }

  function TmuxIssue(n: nat): Issue {
    Issue(n, [Safety(Unhinged), RunnerTmux], false, {})
  }

  /** A repository without pull requests, sessions or comments found. */
  function Quietly(open: seq<Issue>): Survey {
    Survey(open, {}, [], [], {}, [])
  }

  function AllWell(open: seq<Issue>): Answers {
    Answers(true, true, seq(|open|, _ => true), [], seq(|open|, _ => ALL_WELL))
  }

  lemma LetGo(cfg: Config, open: seq<Issue>, st: State, i: Issue)
    requires !cfg.dryRun && (i == PlainIssue(i.number) || i == TmuxIssue(i.number))
    ensures Dispatchable(cfg, Quietly(open), i) && EffectivePreset(cfg, i) == Unhinged
    ensures FateOf(cfg, Quietly(open), st, i, ALL_WELL) == Launched
  {
    ReadyExactlyWhen(i, {}, [], {});
    hide Classify;
  }

  lemma PlainTurn(cfg: Config, open: seq<Issue>, st: State, n: nat)
    requires !cfg.dryRun && st.pass.dispatched < cfg.maxBeats
    ensures Turn(cfg, Quietly(open), st, PlainIssue(n), ALL_WELL).pass == Count(st.pass, n, Unhinged)
  {
    LetGo(cfg, open, st, PlainIssue(n));
    TurnPass(cfg, Quietly(open), st, PlainIssue(n), ALL_WELL);
    hide Turn, NextFree, FateOf, EffectivePreset;
    assert RunnerFor(PlainIssue(n).labels) == Web by { assert PlainIssue(n).labels[1..] == []; }
  }

  lemma TmuxTurn(cfg: Config, open: seq<Issue>, st: State, n: nat)
    requires !cfg.dryRun && cfg.tmux && cfg.maxBeats > 0 && st.pass.slots == []
    ensures |Turn(cfg, Quietly(open), st, TmuxIssue(n), ALL_WELL).pass.report.triggered| == |st.pass.report.triggered| + 1
  {
    LetGo(cfg, open, st, TmuxIssue(n));
    TurnPass(cfg, Quietly(open), st, TmuxIssue(n), ALL_WELL);
    hide Turn, FateOf, EffectivePreset;
    assert RunnerFor(TmuxIssue(n).labels) == Tmux by { assert TmuxIssue(n).labels[1..] == [RunnerTmux]; }
  }

  /** As many web issues as the cap allows, and one for a tmux slot. */
  function Crowd(max: nat): seq<Issue> {
    seq(max + 1, k requires 0 <= k <= max => if k < max then PlainIssue(k) else TmuxIssue(k))
  }

  /** The first `k` issues go to the web, and every host call about them succeeds. */
  ghost predicate AllPlain(sv: Survey, os: seq<Outcome>, k: nat) {
    |os| == |sv.open| && k <= |os| && sv == Quietly(sv.open) &&
    forall j :: 0 <= j < k ==> sv.open[j] == PlainIssue(j) && os[j] == ALL_WELL
  }

  ghost predicate Filled(pass: Pass, k: nat) {
    pass.dispatched == k && |pass.report.triggered| == k && pass.slots == []
  }

  lemma {:induction false} WebFillsCap(cfg: Config, sv: Survey, st: State, os: seq<Outcome>, k: nat)
    requires !cfg.dryRun && k <= cfg.maxBeats && Fresh(st.pass) && st.pass.slots == [] && AllPlain(sv, os, k)
    ensures Filled(HandleUpTo(cfg, sv, st, os, k).pass, k)
  {
    if k == 0 {
      FillStart(cfg, sv, st, os);
    } else {
      hide HandleUpTo, Fresh, Filled, PlainIssue, Quietly;
      WebFillsCap(cfg, sv, st, os, k - 1);
      HandledNext(cfg, sv, st, os, k);
      FillTurn(cfg, sv, HandleUpTo(cfg, sv, st, os, k - 1), k - 1);
    }
  }

  lemma FillTurn(cfg: Config, sv: Survey, st: State, k: nat)
    requires !cfg.dryRun && k < cfg.maxBeats && Filled(st.pass, k) && sv == Quietly(sv.open)
    ensures Filled(Turn(cfg, sv, st, PlainIssue(k), ALL_WELL).pass, k + 1)
  {
    PlainTurn(cfg, sv.open, st, k);
    hide Turn;
  }

  lemma FillStart(cfg: Config, sv: Survey, st: State, os: seq<Outcome>)
    requires |os| == |sv.open| && Fresh(st.pass)
    ensures HandleUpTo(cfg, sv, st, os, 0) == st && st.pass.dispatched == |st.pass.report.triggered| == 0
  {
  }

  lemma CrowdMember(max: nat, k: nat)
    requires k <= max
    ensures |Crowd(max)| == max + 1 && Quietly(Crowd(max)).open == Crowd(max)
    ensures Crowd(max)[k] == if k < max then PlainIssue(k) else TmuxIssue(k)
    ensures |AllWell(Crowd(max)).outcomes| == max + 1 && AllWell(Crowd(max)).outcomes[k] == ALL_WELL
  {
  }

  lemma FilledMeans(pass: Pass, k: nat)
    requires Filled(pass, k)
    ensures |pass.report.triggered| == k && pass.slots == []
  {
  }

  lemma CrowdIsPlain(max: nat)
    ensures AllPlain(Quietly(Crowd(max)), AllWell(Crowd(max)).outcomes, max)
  {
  }

  lemma Overfull(cfg: Config, host: Content, soft: map<nat, int>)
    requires !cfg.dryRun && cfg.tmux && cfg.maxBeats > 0
    ensures var open := Crowd(cfg.maxBeats);
            Fits(cfg, Quietly(open), AllWell(open)) &&
            |RunCycle(cfg, Quietly(open), host, soft, AllWell(open)).pass.report.triggered| == cfg.maxBeats + 1
  {
    var open := Crowd(cfg.maxBeats);
    var sv, a := Quietly(open), AllWell(open);
    var k := cfg.maxBeats;
    assert Links(sv) == [];
    PreparedIsFresh(cfg, sv, host, soft, a);
    assert SlotIndices([], Agent) == [];
    var st := Prepared(cfg, sv, host, soft, a);
    CycleIsLoop(cfg, sv, host, soft, a);
    hide *;
    CrowdMember(k, k);
    CrowdIsPlain(k);
    WebFillsCap(cfg, sv, st, a.outcomes, k);
    FilledMeans(HandleUpTo(cfg, sv, st, a.outcomes, k).pass, k);
    HandledNext(cfg, sv, st, a.outcomes, k + 1);
    TmuxTurn(cfg, open, HandleUpTo(cfg, sv, st, a.outcomes, k), k);
  }

  /** No cycle on any repository dispatches more issues than the configured maximum. */
  ghost predicate CapHolds(cfg: Config) {
    forall sv: Survey, host: Content, soft: map<nat, int>, a: Answers ::
      Fits(cfg, sv, a) && sv.open == host.issues && DistinctNumbers(sv.open) ==>
      |RunCycle(cfg, sv, host, soft, a).pass.report.triggered| <= cfg.maxBeats
  }

  /** The documented cap on a pass holds exactly without tmux adapter, or if nothing is dispatched at all. */
  lemma CapExactlyWhen(cfg: Config)
    ensures CapHolds(cfg) <==> cfg.dryRun || cfg.maxBeats == 0 || !cfg.tmux
  {
    hide RunCycle;
    if cfg.dryRun || cfg.maxBeats == 0 || !cfg.tmux {
      forall sv: Survey, host: Content, soft: map<nat, int>, a: Answers | Fits(cfg, sv, a)
        ensures |RunCycle(cfg, sv, host, soft, a).pass.report.triggered| <= cfg.maxBeats
      {
        CycleAccounting(cfg, sv, host, soft, a);
      }
    } else {
      var open := Crowd(cfg.maxBeats);
      var host := Content(open, [], [], [], []);
      Overfull(cfg, host, map[]);
      assert |RunCycle(cfg, Quietly(open), host, map[], AllWell(open)).pass.report.triggered| > cfg.maxBeats;
    }
  }

  // ---------- a cycle in which all goes well ----------

  function BureaucraticIssue(n: nat): Issue {
    Issue(n, [Safety(Bureaucratic)], false, {})
  }

  lemma BureaucraticTurn(cfg: Config, st: State, n: nat)
    requires cfg == Config(1, false, None, 0, false, false) && st.host.issues == [BureaucraticIssue(n)] && Fresh(st.pass)
    ensures var i := BureaucraticIssue(n);
            var next := Turn(cfg, Quietly([i]), st, i, ALL_WELL);
            next.host.issues == AddFlight([i], n) &&
            next.host.log == st.host.log +
              [Clock(0), TryPermit(true), AddLabel(n, Done), PostComment(Comment(n, true, true), Done)]
  {
    var i := BureaucraticIssue(n);
    var sv := Quietly([i]);
    ReadyExactlyWhen(i, {}, [], {});
    assert EffectivePreset(cfg, i) == Bureaucratic && RunnerFor(i.labels) == Web by { assert i.labels[1..] == []; }
    hide Classify, NextFree;
    assert FateOf(cfg, sv, st, i, ALL_WELL) == Launched;
    TurnLaunched(cfg, sv, st, i, ALL_WELL);
    hide FateOf, Turn;
    var b := Brought(cfg, sv, st, i, ALL_WELL);
    assert b.host.log == st.host.log + [Clock(0), TryPermit(true)] && b.host.issues == [i] && b.pass == st.pass;
    hide Brought, EffectivePreset, AddFlight, RunnerFor;
  }

  lemma BureaucraticCycle(cfg: Config, n: nat)
    requires cfg == Config(1, false, None, 0, false, false)
    ensures var open := [BureaucraticIssue(n)];
            var sv, a, host := Quietly(open), AllWell(open), Content([BureaucraticIssue(n)], [], [], [], []);
            Fits(cfg, sv, a) &&
            var s := RunCycle(cfg, sv, host, map[], a);
            s.host.issues == AddFlight(open, n) &&
            s.host.log == SurveyCalls(a) + [ListIssueComments(n, true)] +
              [Clock(0), TryPermit(true), AddLabel(n, Done), PostComment(Comment(n, true, true), Done)]
  {
    var i := BureaucraticIssue(n);
    var host := Content([i], [], [], [], []);
    var sv, a := Quietly([i]), AllWell([i]);
    QuietLog(cfg, n);
    PreparedIsFresh(cfg, sv, host, map[], a);
    CycleIsLoop(cfg, sv, host, map[], a);
    var st := Prepared(cfg, sv, host, map[], a);
    HandledNext(cfg, sv, st, a.outcomes, 1);
    HandleStart(cfg, sv, st, a.outcomes);
    hide RunCycle, Turn, HandleUpTo, Prepared, Surveyed, Tidied, Fresh, SlotIndices;
    BureaucraticTurn(cfg, st, n);
  }

  /** The premise of the hard chord does not shut out dispatches: here a bureaucratic issue is triggered. */
  lemma CleanCycleTriggers(n: nat)
    ensures var cfg := Config(1, false, None, 0, false, false);
            var open := [BureaucraticIssue(n)];
            var m, act := Machine(Content(open, [], [], [], []), map[]), RunOf(Quietly(open), AllWell(open));
            Possible(cfg, m, act) && FlagsTold(cfg, m, act) && Next(cfg, m, act).host.issues == AddFlight(open, n)
  {
    var cfg := Config(1, false, None, 0, false, false);
    BureaucraticCycle(cfg, n);
    BureaucraticCalls(cfg, n);
    BureaucraticPossible(cfg, n);
    hide Possible, AddFlight, RunCycle, FlagsTold, Fits;
  }

  lemma BureaucraticPossible(cfg: Config, n: nat)
    requires cfg == Config(1, false, None, 0, false, false)
    ensures var open := [BureaucraticIssue(n)];
            Possible(cfg, Machine(Content(open, [], [], [], []), map[]), RunOf(Quietly(open), AllWell(open)))
  {
    hide Links;
    assert forall k :: !ShowsTrigger([], k);
    assert Links(Quietly([BureaucraticIssue(n)])) == [] by { QuietLog(cfg, n); }
  }

  /** What the host is asked in that cycle. */
  function BureaucraticLog(n: nat): seq<Call> {
    [ListClosedPrs(true), ListOpenIssues(true), ListClosedIssueNumbers(true), ListOpenPrs(true), ListIssueComments(n, true),
     Clock(0), TryPermit(true), AddLabel(n, Done), PostComment(Comment(n, true, true), Done)]
  }

  lemma BureaucraticLogged(cfg: Config, n: nat)
    requires cfg == Config(1, false, None, 0, false, false)
    ensures var open := [BureaucraticIssue(n)];
            var sv, a, host := Quietly(open), AllWell(open), Content([BureaucraticIssue(n)], [], [], [], []);
            Fits(cfg, sv, a) && CycleCalls(cfg, sv, host, map[], a) == BureaucraticLog(n)
  {
    var open := [BureaucraticIssue(n)];
    var sv, a, host := Quietly(open), AllWell(open), Content([BureaucraticIssue(n)], [], [], [], []);
    BureaucraticCycle(cfg, n);
    hide RunCycle, Fits;
    assert RunCycle(cfg, sv, host, map[], a).host.log == BureaucraticLog(n);
  }

  lemma BureaucraticCalls(cfg: Config, n: nat)
    requires cfg == Config(1, false, None, 0, false, false)
    ensures var open := [BureaucraticIssue(n)];
            FlagsTold(cfg, Machine(Content(open, [], [], [], []), map[]), RunOf(Quietly(open), AllWell(open)))
  {
    BureaucraticLogged(cfg, n);
    QuietLogClean(n);
    hide *;
    TellsFlags(cfg, n);
  }

  lemma TellsFlags(cfg: Config, n: nat)
    requires var open := [BureaucraticIssue(n)];
             var sv, a, host := Quietly(open), AllWell(open), Content([BureaucraticIssue(n)], [], [], [], []);
             Fits(cfg, sv, a) && CleanFor(CycleCalls(cfg, sv, host, map[], a), n)
    ensures var open := [BureaucraticIssue(n)];
            FlagsTold(cfg, Machine(Content(open, [], [], [], []), map[]), RunOf(Quietly(open), AllWell(open)))
  {
    hide CycleCalls, CleanFor, IsBureaucratic, Fits, AllWell;
  }

  lemma QuietLogClean(n: nat)
    ensures CleanFor(BureaucraticLog(n), n)
  {
    QuietCallsClean(BureaucraticLog(n), n);
    hide CleanFor;
  }

  lemma QuietCallsClean(calls: seq<Call>, n: nat)
    requires forall c :: c in calls && c.AddLabel? ==> c == AddLabel(n, Done)
    requires forall c :: c in calls ==> !c.RemoveLabel?
    ensures CleanFor(calls, n)
  {
    forall k | 0 <= k < |calls| ensures calls[k] != AddLabel(n, Lost(true)) && calls[k] != RemoveLabel(n, false) {
      assert calls[k] in calls;
    }
  }

  lemma QuietLog(cfg: Config, n: nat)
    requires cfg == Config(1, false, None, 0, false, false)
    ensures var open := [BureaucraticIssue(n)];
            var sv, a, host := Quietly(open), AllWell(open), Content([BureaucraticIssue(n)], [], [], [], []);
            Links(sv) == [] && Fits(cfg, sv, a) && Prepared(cfg, sv, host, map[], a).host.issues == open &&
            Prepared(cfg, sv, host, map[], a).host.log == SurveyCalls(a) + [ListIssueComments(n, true)]
  {
    var open := [BureaucraticIssue(n)];
    var sv, a, host := Quietly(open), AllWell(open), Content([BureaucraticIssue(n)], [], [], [], []);
    assert Links(sv) == [];
    ReadyExactlyWhen(open[0], {}, [], {});
    var cs := Classifications(sv);
    assert cs == [ClassifyIn(sv, open[0])] && cs[0].bucket == Ready;
    hide Classify, SlotIndices, ClassifyIn;
    var st := Surveyed(cfg, sv, host, map[], a);
    assert ReadCalls(sv.open, a.read) == [ListIssueComments(n, true)];
    assert cs[..0] == [];
    assert MergeAll(cfg, st, cs[..0], a.outcomes[..0]) == st;
    assert Prepared(cfg, sv, host, map[], a) == st;
  }
}
