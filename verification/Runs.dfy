/** Runs: cycles of one orchestrator interleaved with changes that others make to the repository. */
module Runs {
  import opened Repo
  import opened Cycle
  import opened CycleLaws
  import opened FlightLabels
  import opened CycleEffects
  import opened CycleReports

  /** The host's content and the orchestrator's soft-chord map. */
  datatype Machine = Machine(host: Content, soft: map<nat, int>)

  datatype Action = RunOf(sv: Survey, a: Answers) | Environment(host: Content)

  /** Some comment on the issue contains the trigger text. */
  predicate ShowsTrigger(comments: seq<Comment>, n: nat) {
    exists c :: c in comments && c.issue == n && c.trigger
  }

  /** The survey counts an issue as triggered exactly if its comments were read and one of them is a trigger. */
  ghost predicate TruthfulSurvey(cfg: Config, comments: seq<Comment>, sv: Survey, a: Answers)
    requires Fits(cfg, sv, a)
  {
    forall n :: n in sv.triggered <==>
      exists k :: 0 <= k < |sv.open| && sv.open[k].number == n && a.read[k] && ShowsTrigger(comments, n)
  }

  /**
   * A cycle surveys issues, comments and sessions as they are, as far as the host lets it; issue numbers stay distinct
   * whatever anyone does, and only the orchestrator's calls are logged.
   */
  ghost predicate Possible(cfg: Config, m: Machine, act: Action) {
    match act
    case RunOf(sv, a) =>
      Fits(cfg, sv, a) && sv.open == m.host.issues && DistinctNumbers(sv.open) && TruthfulSurvey(cfg, m.host.comments, sv, a) &&
      sv.sessions == if cfg.tmux && a.sessionsRead then m.host.sessions else []
    case Environment(host) => DistinctNumbers(host.issues) && host.log == m.host.log
  }

  function Next(cfg: Config, m: Machine, act: Action): Machine {
    match act
    case RunOf(sv, a) =>
      if !Fits(cfg, sv, a) then m
      else var s := RunCycle(cfg, sv, m.host, m.soft, a); Machine(s.host, s.soft)
    case Environment(host) => m.(host := host)
  }

  function After(cfg: Config, m: Machine, acts: seq<Action>): Machine {
    if acts == [] then m else Next(cfg, After(cfg, m, acts[..|acts| - 1]), acts[|acts| - 1])
  }

  /** Every step of a run is possible where it is taken. */
  ghost predicate PossibleRun(cfg: Config, m: Machine, acts: seq<Action>) {
    forall k :: 0 <= k < |acts| ==> Possible(cfg, After(cfg, m, acts[..k]), acts[k])
  }

  lemma PossibleAt(cfg: Config, m: Machine, acts: seq<Action>, k: nat)
    requires PossibleRun(cfg, m, acts) && k < |acts|
    ensures Possible(cfg, After(cfg, m, acts[..k]), acts[k])
  {
    hide Possible, After;
  }

  lemma LastStep(cfg: Config, m: Machine, acts: seq<Action>)
    requires acts != []
    ensures After(cfg, m, acts) == Next(cfg, After(cfg, m, acts[..|acts| - 1]), acts[|acts| - 1])
  {
    hide Next;
  }

  lemma PossibleBefore(cfg: Config, m: Machine, acts: seq<Action>)
    requires PossibleRun(cfg, m, acts) && acts != []
    ensures PossibleRun(cfg, m, acts[..|acts| - 1])
  {
    var init := acts[..|acts| - 1];
    hide Possible, After;
    forall j | 0 <= j < |init| ensures Possible(cfg, After(cfg, m, init[..j]), init[j]) {
      hide PossibleRun;
      PossibleAt(cfg, m, acts, j);
      assert init[..j] == acts[..j];
    }
  }

  /** The last step of a run, and the run before it. */
  lemma RunFront(cfg: Config, m: Machine, acts: seq<Action>)
    requires PossibleRun(cfg, m, acts) && acts != []
    ensures var k := |acts| - 1;
            PossibleRun(cfg, m, acts[..k]) && Possible(cfg, After(cfg, m, acts[..k]), acts[k]) &&
            After(cfg, m, acts) == Next(cfg, After(cfg, m, acts[..k]), acts[k])
  {
    hide *;
    PossibleAt(cfg, m, acts, |acts| - 1);
    LastStep(cfg, m, acts);
    PossibleBefore(cfg, m, acts);
  }

  // ---------- at most one trigger comment ----------

  /** Reads of comments succeed, and nobody removes our trigger comments or posts in our name. */
  ghost predicate CommentsTold(m: Machine, act: Action) {
    match act
    case RunOf(_, a) => forall k :: 0 <= k < |a.read| ==> a.read[k]
    case Environment(host) => forall n :: OurTriggers(host.comments, n) == OurTriggers(m.host.comments, n)
  }

  ghost predicate CommentRun(cfg: Config, m: Machine, acts: seq<Action>) {
    PossibleRun(cfg, m, acts) && forall k :: 0 <= k < |acts| ==> CommentsTold(After(cfg, m, acts[..k]), acts[k])
  }

  lemma CommentsToldAt(cfg: Config, m: Machine, acts: seq<Action>, k: nat)
    requires CommentRun(cfg, m, acts) && k < |acts|
    ensures PossibleRun(cfg, m, acts) && CommentsTold(After(cfg, m, acts[..k]), acts[k])
  {
    hide CommentsTold, After, PossibleRun;
  }

  lemma CommentsToldBefore(cfg: Config, m: Machine, acts: seq<Action>)
    requires CommentRun(cfg, m, acts) && acts != [] && PossibleRun(cfg, m, acts[..|acts| - 1])
    ensures CommentRun(cfg, m, acts[..|acts| - 1])
  {
    var init := acts[..|acts| - 1];
    hide PossibleRun, CommentsTold, After;
    forall j | 0 <= j < |init| ensures CommentsTold(After(cfg, m, init[..j]), init[j]) {
      hide CommentRun;
      CommentsToldAt(cfg, m, acts, j);
      assert init[..j] == acts[..j];
    }
  }

  lemma CommentFront(cfg: Config, m: Machine, acts: seq<Action>)
    requires CommentRun(cfg, m, acts) && acts != []
    ensures var k := |acts| - 1;
            var before := After(cfg, m, acts[..k]);
            CommentRun(cfg, m, acts[..k]) && Possible(cfg, before, acts[k]) && CommentsTold(before, acts[k]) &&
            After(cfg, m, acts) == Next(cfg, before, acts[k])
  {
    hide *;
    CommentsToldAt(cfg, m, acts, |acts| - 1);
    RunFront(cfg, m, acts);
    CommentsToldBefore(cfg, m, acts);
  }

  /** If every read of comments succeeds, the survey misses no open issue that the orchestrator has triggered. */
  lemma FullReadsTell(cfg: Config, comments: seq<Comment>, sv: Survey, a: Answers, n: nat)
    requires Fits(cfg, sv, a) && TruthfulSurvey(cfg, comments, sv, a) && (forall k :: 0 <= k < |a.read| ==> a.read[k])
    requires OurTriggers(comments, n) > 0 && exists i :: i in sv.open && i.number == n
    ensures n in sv.triggered
  {
    assert Comment(n, true, true) in multiset(comments);
    var i :| i in sv.open && i.number == n;
    var k :| 0 <= k < |sv.open| && sv.open[k] == i;
    assert a.read[k] && ShowsTrigger(comments, n);
  }

  lemma TriggerStep(cfg: Config, m: Machine, act: Action, n: nat)
    requires Possible(cfg, m, act) && CommentsTold(m, act) && OurTriggers(m.host.comments, n) <= 1
    ensures OurTriggers(Next(cfg, m, act).host.comments, n) <= 1
  {
    if act.RunOf? {
      TriggerOnce(cfg, act.sv, m.host, m.soft, act.a, n);
      if OurTriggers(m.host.comments, n) > 0 && exists i :: i in act.sv.open && i.number == n {
        FullReadsTell(cfg, m.host.comments, act.sv, act.a, n);
      }
    }
    hide OurTriggers, RunCycle, DistinctNumbers, TruthfulSurvey;
  }

  /** Over any run, an issue gets at most one trigger comment, wherever label and comment writes fail or half succeed. */
  lemma {:induction false} AtMostOneTrigger(cfg: Config, m: Machine, acts: seq<Action>, n: nat)
    requires CommentRun(cfg, m, acts) && OurTriggers(m.host.comments, n) <= 1
    ensures OurTriggers(After(cfg, m, acts).host.comments, n) <= 1
  {
    if acts == [] {
    } else {
      var k := |acts| - 1;
      CommentFront(cfg, m, acts);
      hide *;
      AtMostOneTrigger(cfg, m, acts[..k], n);
      TriggerStep(cfg, After(cfg, m, acts[..k]), acts[k], n);
    }
  }

  // ---------- the hard chord ----------

  predicate HeldFor(cfg: Config, i: Issue) {
    InFlight in i.labels && EffectivePreset(cfg, i) == Bureaucratic
  }

  /** At most one bureaucratic issue is in flight. */
  ghost predicate HardChord(cfg: Config, issues: seq<Issue>) {
    forall i, j :: i in issues && j in issues && HeldFor(cfg, i) && HeldFor(cfg, j) ==> i == j
  }

  /**
   * The calls about the labels of bureaucratic issues went well; others let a bureaucratic issue be in flight only where
   * one with that number was before.
   */
  ghost predicate FlagsTold(cfg: Config, m: Machine, act: Action) {
    match act
    case RunOf(sv, a) =>
      Fits(cfg, sv, a) && forall i :: i in sv.open && IsBureaucratic(cfg, i) ==>
        CleanFor(CycleCalls(cfg, sv, m.host, m.soft, a), i.number)
    case Environment(host) => forall i :: i in host.issues && HeldFor(cfg, i) ==> HeldBefore(cfg, m.host.issues, i.number)
  }

  ghost predicate HeldBefore(cfg: Config, issues: seq<Issue>, n: nat) {
    exists i :: i in issues && HeldFor(cfg, i) && i.number == n
  }

  ghost predicate FlagRun(cfg: Config, m: Machine, acts: seq<Action>) {
    PossibleRun(cfg, m, acts) && forall k :: 0 <= k < |acts| ==> FlagsTold(cfg, After(cfg, m, acts[..k]), acts[k])
  }

  lemma FlagsToldAt(cfg: Config, m: Machine, acts: seq<Action>, k: nat)
    requires FlagRun(cfg, m, acts) && k < |acts|
    ensures PossibleRun(cfg, m, acts) && FlagsTold(cfg, After(cfg, m, acts[..k]), acts[k])
  {
    hide FlagsTold, After, PossibleRun;
  }

  lemma FlagsToldBefore(cfg: Config, m: Machine, acts: seq<Action>)
    requires FlagRun(cfg, m, acts) && acts != [] && PossibleRun(cfg, m, acts[..|acts| - 1])
    ensures FlagRun(cfg, m, acts[..|acts| - 1])
  {
    var init := acts[..|acts| - 1];
    hide PossibleRun, FlagsTold, After;
    forall j | 0 <= j < |init| ensures FlagsTold(cfg, After(cfg, m, init[..j]), init[j]) {
      hide FlagRun;
      FlagsToldAt(cfg, m, acts, j);
      assert init[..j] == acts[..j];
    }
  }

  lemma FlagFront(cfg: Config, m: Machine, acts: seq<Action>)
    requires FlagRun(cfg, m, acts) && acts != []
    ensures var k := |acts| - 1;
            var before := After(cfg, m, acts[..k]);
            FlagRun(cfg, m, acts[..k]) && Possible(cfg, before, acts[k]) && FlagsTold(cfg, before, acts[k]) &&
            After(cfg, m, acts) == Next(cfg, before, acts[k])
  {
    hide *;
    FlagsToldAt(cfg, m, acts, |acts| - 1);
    RunFront(cfg, m, acts);
    FlagsToldBefore(cfg, m, acts);
  }

  /** How a bureaucratic issue in flight after a cycle got there: it was before, or this cycle triggered it. */
  ghost predicate Explained(cfg: Config, open: seq<Issue>, triggered: seq<nat>, x: Issue, k: nat) {
    k < |open| && x.number == open[k].number && IsBureaucratic(cfg, open[k]) &&
    (open[k].number in triggered || InFlight in open[k].labels)
  }

  lemma WhyInFlight(cfg: Config, open: seq<Issue>, base: Issue, x: Issue, triggered: seq<nat>, calls: seq<Call>, k: nat)
    requires k < |open| && Settles(base, x, triggered, calls) && HeldFor(cfg, x)
    requires base == open[k] || base == open[k].(labels := WithoutFlight(open[k].labels))
    requires IsBureaucratic(cfg, open[k]) ==> CleanFor(calls, open[k].number)
    ensures Explained(cfg, open, triggered, x, k)
  {
    PresetIgnoresFlight(base.labels);
    PresetIgnoresFlight(open[k].labels);
    hide PresetFromLabels, ResolvePreset, CleanFor;
  }

  lemma CycleBase(cfg: Config, sv: Survey, host: Content, a: Answers)
    requires Fits(cfg, sv, a) && sv.open == host.issues
    ensures var base := Tidied(cfg, sv, host, a).issues;
            |base| == |sv.open| &&
            forall k :: 0 <= k < |base| ==>
              base[k] == sv.open[k] || base[k] == sv.open[k].(labels := WithoutFlight(sv.open[k].labels))
  {
    if !cfg.dryRun { HousekeepMeaning(sv.open, Logged(host, SurveyCalls(a)), Links(sv), a.cleared); }
    hide Housekeep, Cleared, Links;
  }

  /** A cycle keeps issue numbers. */
  lemma CycleKeepsNumbers(cfg: Config, sv: Survey, host: Content, soft: map<nat, int>, a: Answers)
    requires Fits(cfg, sv, a) && sv.open == host.issues && DistinctNumbers(sv.open)
    ensures DistinctNumbers(RunCycle(cfg, sv, host, soft, a).host.issues)
  {
    CycleLabels(cfg, sv, host, soft, a);
    CycleBase(cfg, sv, host, a);
    var base, final := Tidied(cfg, sv, host, a).issues, RunCycle(cfg, sv, host, soft, a).host.issues;
    hide RunCycle, Tidied, CycleCalls, CleanFor;
    forall i, j | 0 <= i < j < |final| ensures final[i].number != final[j].number {
      assert base[i].number == sv.open[i].number && base[j].number == sv.open[j].number;
    }
  }

  lemma CycleSerial(cfg: Config, sv: Survey, host: Content, soft: map<nat, int>, a: Answers)
    requires Fits(cfg, sv, a) && DistinctNumbers(sv.open)
    ensures Serial(cfg, sv, RunCycle(cfg, sv, host, soft, a).pass)
  {
    PreparedIsFresh(cfg, sv, host, soft, a);
    hide Prepared, HandleUpTo, Serial;
    SerialUpTo(cfg, sv, Prepared(cfg, sv, host, soft, a), a.outcomes, |sv.open|);
  }

  lemma SerialMeans(cfg: Config, sv: Survey, pass: Pass, x: Issue, y: Issue, k: nat, l: nat)
    requires Serial(cfg, sv, pass) && HardChord(cfg, sv.open) && DistinctNumbers(sv.open)
    requires Explained(cfg, sv.open, pass.report.triggered, x, k) && Explained(cfg, sv.open, pass.report.triggered, y, l)
    ensures k == l
  {
    hide EffectivePreset;
    var i, j := sv.open[k], sv.open[l];
    assert i in sv.open && j in sv.open;
    assert i == j;
  }

  lemma HardChordStep(cfg: Config, m: Machine, act: Action)
    requires Possible(cfg, m, act) && FlagsTold(cfg, m, act) && HardChord(cfg, m.host.issues)
    ensures HardChord(cfg, Next(cfg, m, act).host.issues)
  {
    if act.RunOf? {
      HardChordCycle(cfg, m, act.sv, act.a);
    } else {
      EnvironmentKeepsHardChord(cfg, m.host.issues, act.host.issues);
    }
    hide RunCycle, HardChord, CleanFor, CycleCalls, DistinctNumbers, TruthfulSurvey;
  }

  lemma HardChordCycle(cfg: Config, m: Machine, sv: Survey, a: Answers)
    requires Fits(cfg, sv, a) && sv.open == m.host.issues && DistinctNumbers(sv.open) && HardChord(cfg, sv.open)
    requires forall i :: i in sv.open && IsBureaucratic(cfg, i) ==> CleanFor(CycleCalls(cfg, sv, m.host, m.soft, a), i.number)
    ensures HardChord(cfg, RunCycle(cfg, sv, m.host, m.soft, a).host.issues)
  {
    var s, calls := RunCycle(cfg, sv, m.host, m.soft, a), CycleCalls(cfg, sv, m.host, m.soft, a);
    CycleLabels(cfg, sv, m.host, m.soft, a);
    CycleBase(cfg, sv, m.host, a);
    CycleSerial(cfg, sv, m.host, m.soft, a);
    hide RunCycle, Serial, DistinctNumbers, Tidied, HeldFor, Fits, CycleCalls, CleanFor, Settles, Explained, IsBureaucratic;
    var base, t := Tidied(cfg, sv, m.host, a).issues, s.pass.report.triggered;
    forall x, y | x in s.host.issues && y in s.host.issues && HeldFor(cfg, x) && HeldFor(cfg, y) ensures x == y {
      var k :| 0 <= k < |base| && s.host.issues[k] == x;
      var l :| 0 <= l < |base| && s.host.issues[l] == y;
      WhyInFlight(cfg, sv.open, base[k], x, t, calls, k);
      WhyInFlight(cfg, sv.open, base[l], y, t, calls, l);
      SerialMeans(cfg, sv, s.pass, x, y, k, l);
    }
  }

  lemma EnvironmentKeepsHardChord(cfg: Config, before: seq<Issue>, after: seq<Issue>)
    requires HardChord(cfg, before) && DistinctNumbers(after)
    requires forall i :: i in after && HeldFor(cfg, i) ==> HeldBefore(cfg, before, i.number)
    ensures HardChord(cfg, after)
  {
    hide HeldFor;
    forall i, j | i in after && j in after && HeldFor(cfg, i) && HeldFor(cfg, j) ensures i == j {
      assert HeldBefore(cfg, before, i.number) && HeldBefore(cfg, before, j.number);
      assert i.number == j.number;
      FindDistinct(after, i);
      FindDistinct(after, j);
    }
  }

  /** Over any such run at most one bureaucratic issue is in flight, if that holds at the start. */
  lemma {:induction false} HardChordSafety(cfg: Config, m: Machine, acts: seq<Action>)
    requires FlagRun(cfg, m, acts) && HardChord(cfg, m.host.issues)
    ensures HardChord(cfg, After(cfg, m, acts).host.issues)
  {
    if acts == [] {
    } else {
      var k := |acts| - 1;
      FlagFront(cfg, m, acts);
      hide *;
      HardChordSafety(cfg, m, acts[..k]);
      HardChordStep(cfg, After(cfg, m, acts[..k]), acts[k]);
    }
  }
}
