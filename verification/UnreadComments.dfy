/** What can happen to an issue that was triggered before and whose comments a cycle cannot read. */
module UnreadComments {
  import opened Options
  import opened Repo
  import opened Isolation
  import opened Dispatch
  import opened Cycle
  import opened CycleLaws
  import opened FlightLabels
  import opened CycleEffects
  import opened CycleReports
  import opened Runs
  import opened CycleLimits

  /**
   * Whether a cycle can post a trigger comment on issue `i`, by what is known before it: the survey shows it Ready, not in
   * flight and not triggered, it does not go to a tmux slot, and no chord holds it back for certain.
   */
  predicate CanTrigger(cfg: Config, sv: Survey, soft: map<nat, int>, i: Issue) {
    !cfg.dryRun && cfg.maxBeats > 0 && Dispatchable(cfg, sv, i) && !OnTmux(cfg, i) &&
    (EffectivePreset(cfg, i) == Bureaucratic ==> !AnyInFlight(sv.open)) &&
    (EffectivePreset(cfg, i) == Strict && Aggregate(SiblingPrs(i.number, sv.prs)) == Amber ==> i.number in soft)
  }

  // ---------- it cannot happen otherwise ----------

  lemma LaunchNoPost(cfg: Config, st: State, i: Issue, preset: Preset, o: Outcome)
    requires cfg.dryRun || cfg.maxBeats == 0 || OnTmux(cfg, i)
    ensures Launch(cfg, st, i, preset, o).host.comments == st.host.comments
  {
    hide RunnerFor, NextFree, SlotName, AddFlight, RemoveFlight, Count;
  }

  lemma SurelyHeld(cfg: Config, sv: Survey, soft: map<nat, int>, a: Answers, st: State, k: nat)
    requires Fits(cfg, sv, a) && k < |sv.open| && Known(cfg, sv, soft, a, st, k)
    requires !CanTrigger(cfg, sv, soft, sv.open[k])
    ensures FateOf(cfg, sv, st, sv.open[k], a.outcomes[k]) == Launched ==>
              cfg.dryRun || cfg.maxBeats == 0 || OnTmux(cfg, sv.open[k])
  {
    FateExact(cfg, sv, soft, a, st, k);
    assert SoftAhead(soft, st.soft, sv.open, k);
    assert FirstSeen(st.soft, sv.open[k].number) == FirstSeen(soft, sv.open[k].number);
    hide Known, Dispatchable, AnyInFlight, EffectivePreset, Aggregate, OnTmux, SiblingPrs;
    var siblings := SiblingPrs(sv.open[k].number, sv.prs);
    assert Aggregate([]) == Green by { EmptyIsGreen(); }
  }

  lemma EmptyIsGreen()
    ensures Aggregate([]) == Green
  {
  }

  lemma TurnNoTrigger(cfg: Config, sv: Survey, soft: map<nat, int>, a: Answers, st: State, k: nat)
    requires Fits(cfg, sv, a) && k < |sv.open| && Known(cfg, sv, soft, a, st, k)
    requires !CanTrigger(cfg, sv, soft, sv.open[k])
    ensures var n := sv.open[k].number;
            OurTriggers(Turn(cfg, sv, st, sv.open[k], a.outcomes[k]).host.comments, n) == OurTriggers(st.host.comments, n)
  {
    var i, o := sv.open[k], a.outcomes[k];
    SurelyHeld(cfg, sv, soft, a, st, k);
    TurnComments(cfg, sv, st, i, o);
    if FateOf(cfg, sv, st, i, o) == Launched {
      TurnLaunched(cfg, sv, st, i, o);
      BroughtComments(cfg, sv, st, i, o);
      LaunchNoPost(cfg, Brought(cfg, sv, st, i, o), i, EffectivePreset(cfg, i), o);
    }
    hide *;
  }

  /** Unless some issue with this number can be triggered, none is. */
  ghost predicate NoneCan(cfg: Config, sv: Survey, soft: map<nat, int>, n: nat) {
    forall i :: i in sv.open && i.number == n ==> !CanTrigger(cfg, sv, soft, i)
  }

  lemma {:induction false} NoTriggerUpTo(cfg: Config, sv: Survey, st: State, a: Answers, k: nat, n: nat)
    requires Fits(cfg, sv, a) && k <= |sv.open| && DistinctNumbers(sv.open) && NoneCan(cfg, sv, st.soft, n)
    requires Fresh(st.pass) && st.pass.slots == FirstPass(cfg, sv).slots
    ensures OurTriggers(HandleUpTo(cfg, sv, st, a.outcomes, k).host.comments, n) == OurTriggers(st.host.comments, n)
  {
    hide Known, Fresh, FirstPass, DistinctNumbers, OurTriggers, HandleUpTo, CanTrigger, Turn;
    if k == 0 {
      HandleStart(cfg, sv, st, a.outcomes);
    } else {
      NoTriggerUpTo(cfg, sv, st, a, k - 1, n);
      var before := HandleUpTo(cfg, sv, st, a.outcomes, k - 1);
      HandledNext(cfg, sv, st, a.outcomes, k);
      if sv.open[k - 1].number == n {
        KnownUpTo(cfg, sv, st, a, k - 1);
        TurnNoTrigger(cfg, sv, st.soft, a, before, k - 1);
      } else {
        TurnComments(cfg, sv, before, sv.open[k - 1], a.outcomes[k - 1]);
      }
    }
  }

  // ---------- it can happen ----------

  /** Answers under which nothing but the issue numbered `n` is dispatched. */
  function Only(n: nat, i: Issue, at: int): Outcome {
    ALL_WELL.(flag := if i.number == n then Done else Lost(false), decideAt := at)
  }

  /** The reads went as `a0` says; nothing is tidied up. */
  function OnlyAnswers(a0: Answers, sv: Survey, n: nat, at: int): Answers {
    a0.(cleared := seq(|Links(sv)|, _ => false),
        outcomes := seq(|sv.open|, k requires 0 <= k < |sv.open| => Only(n, sv.open[k], at)))
  }

  /** Whether a cycle is possible depends on the reads only. */
  lemma PossibleByReads(cfg: Config, m: Machine, sv: Survey, a0: Answers, n: nat, at: int)
    requires Possible(cfg, m, RunOf(sv, a0))
    ensures Possible(cfg, m, RunOf(sv, OnlyAnswers(a0, sv, n, at)))
  {
    hide Links, ShowsTrigger;
  }

  /** An instant at which what was recorded about the issue has timed out. */
  function LateEnough(cfg: Config, soft: map<nat, int>, n: nat): int {
    if n in soft then soft[n] + cfg.timeout else 0
  }

  lemma NothingBefore(cfg: Config, sv: Survey, st: State, a0: Answers, a: Answers, k: nat, n: nat, at: int)
    requires Fits(cfg, sv, a) && k < |sv.open| && DistinctNumbers(sv.open) && a == OnlyAnswers(a0, sv, n, at)
    requires Fresh(st.pass) && st.pass.slots == FirstPass(cfg, sv).slots && sv.open[k].number == n
    ensures HandleUpTo(cfg, sv, st, a.outcomes, k).pass.report.triggered == []
  {
    KnownUpTo(cfg, sv, st, a, k);
    var t := HandleUpTo(cfg, sv, st, a.outcomes, k).pass.report.triggered;
    forall j | 0 <= j < k ensures sv.open[j].number !in t {
      assert ListedRightly(cfg, sv, st.soft, a, HandleUpTo(cfg, sv, st, a.outcomes, k).pass.report, j);
      assert a.outcomes[j].flag == Lost(false);
    }
    hide HandleUpTo, FirstPass, Goes, Held, Claimed, DistinctNumbers;
    NonePicked(sv.open, t, k);
  }

  lemma {:induction false} NonePicked(open: seq<Issue>, list: seq<nat>, k: nat)
    requires k <= |open| && forall j :: 0 <= j < k ==> open[j].number !in list
    ensures Picked(open, list, k) == []
  {
    if k == 0 {
    } else {
      NonePicked(open, list, k - 1);
    }
  }

  lemma SurelyLaunched(cfg: Config, sv: Survey, soft: map<nat, int>, a0: Answers, a: Answers, st: State, k: nat)
    requires Fits(cfg, sv, a) && k < |sv.open| && Known(cfg, sv, soft, a, st, k) && st.pass.report.triggered == []
    requires CanTrigger(cfg, sv, soft, sv.open[k])
    requires var n := sv.open[k].number; a == OnlyAnswers(a0, sv, n, LateEnough(cfg, soft, n))
    ensures FateOf(cfg, sv, st, sv.open[k], a.outcomes[k]) == Launched && Delivered(cfg, sv.open[k], a.outcomes[k])
  {
    var i, o := sv.open[k], a.outcomes[k];
    assert o == Only(i.number, i, LateEnough(cfg, soft, i.number));
    FateExact(cfg, sv, soft, a, st, k);
    hide Known, FateOf, AnyInFlight, EffectivePreset, Aggregate, SiblingPrs, OnlyAnswers, ClassifyIn, Fits, Dispatchable, OnTmux;
    assert Free(cfg, sv, a, k);
    assert !SoftHeld(cfg, sv, soft, a, k);
    assert !HardHeld(cfg, sv, a, [], k);
  }

  lemma RoomAtFirst(cfg: Config, sv: Survey, soft: map<nat, int>, a: Answers, st: State, k: nat)
    requires Fits(cfg, sv, a) && k < |sv.open| && Known(cfg, sv, soft, a, st, k) && st.pass.report.triggered == []
    requires Accounts(cfg, sv, FirstPass(cfg, sv).slots, st.pass, k) && CanTrigger(cfg, sv, soft, sv.open[k])
    ensures Room(cfg, st.pass, sv.open[k])
  {
    RoomExact(cfg, sv, soft, a, st, k);
    assert Picked(sv.open, [], k) == [] by { assert st.pass.report.triggered == Picked(sv.open, st.pass.report.triggered, k); }
    if OnTmux(cfg, sv.open[k]) || RunnerFor(sv.open[k].labels) == Web {
    } else {
      NoneTaken(cfg, sv.open, k);
      assert FirstPass(cfg, sv).slots == [];
      assert FreeSlots(cfg, sv) == UpTo(cfg.maxBeats);
    }
    hide Known, Accounts, FirstPass, Dispatchable, EffectivePreset, Aggregate, SiblingPrs, Fits;
  }

  lemma {:induction false} NoneTaken(cfg: Config, open: seq<Issue>, k: nat)
    requires k <= |open|
    ensures SlotsTaken(cfg, open, [], k) == 0
  {
    if k == 0 {
    } else {
      NoneTaken(cfg, open, k - 1);
    }
  }

  lemma LaunchPosts(cfg: Config, st: State, i: Issue, preset: Preset, o: Outcome)
    requires !cfg.dryRun && Room(cfg, st.pass, i) && Delivered(cfg, i, o) && !OnTmux(cfg, i)
    ensures OurTriggers(Launch(cfg, st, i, preset, o).host.comments, i.number) == OurTriggers(st.host.comments, i.number) + 1
  {
    assert Launch(cfg, st, i, preset, o).host.comments == st.host.comments + [Comment(i.number, true, true)] by {
      hide NextFree, RunnerFor, AddFlight, Count;
    }
    assert multiset(st.host.comments + [Comment(i.number, true, true)]) ==
      multiset(st.host.comments) + multiset{Comment(i.number, true, true)};
    hide Launch, Room, Delivered, OnTmux;
  }

  lemma TurnTriggersAgain(cfg: Config, sv: Survey, soft: map<nat, int>, a0: Answers, a: Answers, st: State, k: nat)
    requires Fits(cfg, sv, a) && k < |sv.open| && Known(cfg, sv, soft, a, st, k) && st.pass.report.triggered == []
    requires Accounts(cfg, sv, FirstPass(cfg, sv).slots, st.pass, k) && CanTrigger(cfg, sv, soft, sv.open[k])
    requires var n := sv.open[k].number; a == OnlyAnswers(a0, sv, n, LateEnough(cfg, soft, n))
    ensures var n := sv.open[k].number;
            OurTriggers(Turn(cfg, sv, st, sv.open[k], a.outcomes[k]).host.comments, n) == OurTriggers(st.host.comments, n) + 1
  {
    var i, o := sv.open[k], a.outcomes[k];
    SurelyLaunched(cfg, sv, soft, a0, a, st, k);
    RoomAtFirst(cfg, sv, soft, a, st, k);
    TurnLaunched(cfg, sv, st, i, o);
    BroughtKeeps(cfg, sv, st, i, o);
    BroughtComments(cfg, sv, st, i, o);
    var b := Brought(cfg, sv, st, i, o);
    assert !cfg.dryRun && !OnTmux(cfg, i);
    assert Room(cfg, b.pass, i);
    hide *;
    LaunchPosts(cfg, b, i, EffectivePreset(cfg, i), o);
  }

  /** The comments of the first `j` turns are still there after more. */
  lemma {:induction false} TriggersStay(cfg: Config, sv: Survey, st: State, os: seq<Outcome>, j: nat, k: nat, n: nat)
    requires |os| == |sv.open| && j <= k <= |sv.open|
    ensures OurTriggers(HandleUpTo(cfg, sv, st, os, j).host.comments, n) <=
            OurTriggers(HandleUpTo(cfg, sv, st, os, k).host.comments, n)
  {
    hide HandleUpTo, Turn, OurTriggers;
    if k == j {
    } else {
      TriggersStay(cfg, sv, st, os, j, k - 1, n);
      var before := HandleUpTo(cfg, sv, st, os, k - 1);
      HandledNext(cfg, sv, st, os, k);
      TurnComments(cfg, sv, before, sv.open[k - 1], os[k - 1]);
      PrefixTriggers(before.host.comments, HandleUpTo(cfg, sv, st, os, k).host.comments, n);
    }
  }

  lemma PrefixTriggers(a: seq<Comment>, b: seq<Comment>, n: nat)
    requires a <= b
    ensures OurTriggers(a, n) <= OurTriggers(b, n)
  {
    assert b == a + b[|a|..];
    assert multiset(b) == multiset(a) + multiset(b[|a|..]);
  }

  lemma TriggersAgain(cfg: Config, sv: Survey, host: Content, soft: map<nat, int>, a0: Answers, k: nat)
    requires Fits(cfg, sv, a0) && DistinctNumbers(sv.open) && k < |sv.open| && CanTrigger(cfg, sv, soft, sv.open[k])
    ensures var n := sv.open[k].number;
            var a := OnlyAnswers(a0, sv, n, LateEnough(cfg, soft, n));
            Fits(cfg, sv, a) &&
            OurTriggers(RunCycle(cfg, sv, host, soft, a).host.comments, n) > OurTriggers(host.comments, n)
  {
    var n := sv.open[k].number;
    var at := LateEnough(cfg, soft, n);
    var a := OnlyAnswers(a0, sv, n, at);
    assert Fits(cfg, sv, a) by { hide Links; }
    PreparedIsFresh(cfg, sv, host, soft, a);
    CycleIsLoop(cfg, sv, host, soft, a);
    hide Prepared, HandleUpTo, RunCycle, SlotIndices, DistinctNumbers, OurTriggers, Tidied, CanTrigger, OnlyAnswers, Turn;
    var st := Prepared(cfg, sv, host, soft, a);
    var before := HandleUpTo(cfg, sv, st, a.outcomes, k);
    hide LateEnough;
    KnownUpTo(cfg, sv, st, a, k);
    AccountsUpTo(cfg, sv, st, a.outcomes, k);
    NothingBefore(cfg, sv, st, a0, a, k, n, at);
    hide Fits, Known, Accounts, FirstPass, Fresh;
    TurnTriggersAgain(cfg, sv, soft, a0, a, before, k);
    HandledNext(cfg, sv, st, a.outcomes, k + 1);
    TriggersStay(cfg, sv, st, a.outcomes, 0, k, n);
    HandleStart(cfg, sv, st, a.outcomes);
    TriggersStay(cfg, sv, st, a.outcomes, k + 1, |sv.open|, n);
  }

  /** Some cycle that is possible on this survey adds a trigger comment to the issue. */
  ghost predicate MayTrigger(cfg: Config, m: Machine, sv: Survey, n: nat) {
    exists a: Answers :: Possible(cfg, m, RunOf(sv, a)) &&
      OurTriggers(Next(cfg, m, RunOf(sv, a)).host.comments, n) > OurTriggers(m.host.comments, n)
  }

  /**
   * For a survey that some reads give: whatever comments the host holds, the cycle may post a trigger comment on an issue
   * exactly if `CanTrigger` holds of it. So an issue that was triggered before and whose comments could not be read may be
   * triggered again exactly then: not in a dry run, with a cap of 0, on a tmux slot, in flight, or while a chord holds it
   * back.
   */
  lemma UnreadExactlyWhen(cfg: Config, m: Machine, sv: Survey, a0: Answers, n: nat)
    requires Possible(cfg, m, RunOf(sv, a0))
    ensures MayTrigger(cfg, m, sv, n) <==> exists i :: i in sv.open && i.number == n && CanTrigger(cfg, sv, m.soft, i)
  {
    assert Fits(cfg, sv, a0) && DistinctNumbers(sv.open);
    if i :| i in sv.open && i.number == n && CanTrigger(cfg, sv, m.soft, i) {
      var k :| 0 <= k < |sv.open| && sv.open[k] == i;
      PossibleByReads(cfg, m, sv, a0, n, LateEnough(cfg, m.soft, n));
      TriggersAgain(cfg, sv, m.host, m.soft, a0, k);
      var a := OnlyAnswers(a0, sv, n, LateEnough(cfg, m.soft, n));
      hide CanTrigger, RunCycle, OurTriggers, DistinctNumbers, Possible, OnlyAnswers, LateEnough;
      assert OurTriggers(Next(cfg, m, RunOf(sv, a)).host.comments, n) > OurTriggers(m.host.comments, n);
    } else {
      hide CanTrigger, RunCycle, OurTriggers, DistinctNumbers, TruthfulSurvey;
      forall a: Answers | Possible(cfg, m, RunOf(sv, a))
        ensures OurTriggers(Next(cfg, m, RunOf(sv, a)).host.comments, n) == OurTriggers(m.host.comments, n)
      {
        NeverTriggers(cfg, sv, m.host, m.soft, a, n);
      }
    }
  }

  lemma NeverTriggers(cfg: Config, sv: Survey, host: Content, soft: map<nat, int>, a: Answers, n: nat)
    requires DistinctNumbers(sv.open) && Fits(cfg, sv, a) && NoneCan(cfg, sv, soft, n)
    ensures OurTriggers(RunCycle(cfg, sv, host, soft, a).host.comments, n) == OurTriggers(host.comments, n)
  {
    PreparedIsFresh(cfg, sv, host, soft, a);
    CycleIsLoop(cfg, sv, host, soft, a);
    hide Prepared, HandleUpTo, RunCycle, SlotIndices, DistinctNumbers, OurTriggers, Tidied, NoneCan;
    NoTriggerUpTo(cfg, sv, Prepared(cfg, sv, host, soft, a), a, |sv.open|, n);
  }

  /** The issue has our trigger comment, its comments cannot be read, and it gets a second one. */
  lemma FailedReadTriggersAgain(n: nat)
    ensures var cfg := Config(1, false, None, 0, false, false);
            var open := [PlainIssue(n)];
            var host := Content(open, [Comment(n, true, true)], [], [], []);
            var a := AllWell(open).(read := [false]);
            Possible(cfg, Machine(host, map[]), RunOf(Quietly(open), a)) &&
            OurTriggers(host.comments, n) == 1 &&
            OurTriggers(RunCycle(cfg, Quietly(open), host, map[], a).host.comments, n) == 2
  {
    var cfg := Config(1, false, None, 0, false, false);
    var open := [PlainIssue(n)];
    var host := Content(open, [Comment(n, true, true)], [], [], []);
    var sv, a := Quietly(open), AllWell(open).(read := [false]);
    assert Links(sv) == [];
    PreparedIsFresh(cfg, sv, host, map[], a);
    CycleIsLoop(cfg, sv, host, map[], a);
    var st := Prepared(cfg, sv, host, map[], a);
    assert FirstPass(cfg, sv).slots == [];
    assert OurTriggers(host.comments, n) == 1;
    HandledNext(cfg, sv, st, a.outcomes, 1);
    HandleStart(cfg, sv, st, a.outcomes);
    hide Prepared, HandleUpTo, Turn, RunCycle, Links, OurTriggers;
    PlainPosts(cfg, open, st, n);
  }

  lemma PlainPosts(cfg: Config, open: seq<Issue>, st: State, n: nat)
    requires !cfg.dryRun && st.pass.dispatched < cfg.maxBeats
    ensures var next := Turn(cfg, Quietly(open), st, PlainIssue(n), ALL_WELL);
            OurTriggers(next.host.comments, n) == OurTriggers(st.host.comments, n) + 1
  {
    var sv, i := Quietly(open), PlainIssue(n);
    LetGo(cfg, open, st, i);
    TurnLaunched(cfg, sv, st, i, ALL_WELL);
    BroughtKeeps(cfg, sv, st, i, ALL_WELL);
    BroughtComments(cfg, sv, st, i, ALL_WELL);
    assert RunnerFor(i.labels) == Web by { assert i.labels[1..] == []; }
    assert Room(cfg, st.pass, i) && Delivered(cfg, i, ALL_WELL) && !OnTmux(cfg, i);
    var b := Brought(cfg, sv, st, i, ALL_WELL);
    assert Room(cfg, b.pass, i);
    hide *;
    LaunchPosts(cfg, b, i, EffectivePreset(cfg, i), ALL_WELL);
  }
}
