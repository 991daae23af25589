/** How long the soft chord can hold an issue back, over any run of cycles. */
module SoftChord {
  import opened Options
  import opened Repo
  import opened Isolation
  import opened Cycle
  import opened CycleLaws
  import opened FlightLabels
  import opened CycleReports
  import opened Runs

  /** One isolation decision about an issue: whether it was held back, and the clock readings of the turn. */
  datatype Verdict = Verdict(held: bool, at: int, stamp: int)

  /** The turn reaches the isolation decision. */
  predicate Decided(cfg: Config, sv: Survey, i: Issue, o: Outcome) {
    Dispatchable(cfg, sv, i) && !(cfg.mailbox && o.claimed)
  }

  function VerdictOf(cfg: Config, sv: Survey, soft: map<nat, int>, i: Issue, o: Outcome): Verdict {
    Verdict(IsolationOf(cfg, sv, soft, i, o.decideAt) == Defer, o.decideAt, o.stampAt)
  }

  /** The decisions about issue `n` in the first `k` turns of a cycle that started with the map `soft`. */
  function CycleVerdicts(cfg: Config, sv: Survey, soft: map<nat, int>, os: seq<Outcome>, k: nat, n: nat): seq<Verdict>
    requires |os| == |sv.open| && k <= |sv.open|
  {
    if k == 0 then []
    else
      var before := CycleVerdicts(cfg, sv, soft, os, k - 1, n);
      var i, o := sv.open[k - 1], os[k - 1];
      if i.number == n && Decided(cfg, sv, i, o) then before + [VerdictOf(cfg, sv, soft, i, o)] else before
  }

  /** The decisions about issue `n` in a run, in order. */
  function Verdicts(cfg: Config, m: Machine, acts: seq<Action>, n: nat): seq<Verdict> {
    if acts == [] then []
    else
      var k := |acts| - 1;
      Verdicts(cfg, m, acts[..k], n) +
      match acts[k]
      case Environment(_) => []
      case RunOf(sv, a) =>
        if Fits(cfg, sv, a) then CycleVerdicts(cfg, sv, After(cfg, m, acts[..k]).soft, a.outcomes, |sv.open|, n) else []
  }

  /** When the current streak of held decisions began, given what was recorded before them. */
  function HeldSince(start: Option<int>, vs: seq<Verdict>): Option<int> {
    if vs == [] then start
    else
      var before := HeldSince(start, vs[..|vs| - 1]);
      var v := vs[|vs| - 1];
      if !v.held then None else if before.Some? then before else Some(v.stamp)
  }

  /** No decision holds an issue back once the timeout since the streak began has passed. */
  ghost predicate Timely(start: Option<int>, vs: seq<Verdict>, timeout: nat) {
    forall j :: 0 <= j < |vs| ==> InTime(HeldSince(start, vs[..j]), vs[j], timeout)
  }

  predicate InTime(since: Option<int>, v: Verdict, timeout: nat) {
    v.held && since.Some? ==> Elapsed(since.value, v.at) < timeout
  }

  // ---------- one turn ----------

  lemma TurnSoft(cfg: Config, sv: Survey, st: State, i: Issue, o: Outcome, n: nat)
    ensures var after := FirstSeen(Turn(cfg, sv, st, i, o).soft, n);
            var before := FirstSeen(st.soft, n);
            after ==
            if i.number == n && Decided(cfg, sv, i, o) then HeldSince(before, [VerdictOf(cfg, sv, st.soft, i, o)]) else before
  {
    var vs := [VerdictOf(cfg, sv, st.soft, i, o)];
    assert vs[..0] == [];
    if i.number != n {
      TurnSoftOthers(cfg, sv, st, i, o, n);
      hide Turn, FirstSeen, HeldSince;
    } else if FateOf(cfg, sv, st, i, o) == Launched {
      TurnLaunched(cfg, sv, st, i, o);
      BroughtKeeps(cfg, sv, st, i, o);
      LaunchKeepsSoft(cfg, Brought(cfg, sv, st, i, o), i, EffectivePreset(cfg, i), o);
      hide Turn, Brought, Launch, EffectivePreset, IsolationOf, ClassifyIn, AnyInFlight;
    } else {
      assert ClassifyIn(sv, i).issue == i.number;
      hide EffectivePreset, ClassifyIn, AnyInFlight, IsolationOf, Launch, Post, Logged;
    }
  }

  lemma SameDecision(cfg: Config, sv: Survey, a: map<nat, int>, b: map<nat, int>, i: Issue, o: Outcome)
    requires FirstSeen(a, i.number) == FirstSeen(b, i.number)
    ensures VerdictOf(cfg, sv, a, i, o) == VerdictOf(cfg, sv, b, i, o)
  {
    hide Decide, EffectivePreset, SiblingPrs;
  }

  lemma VerdictTimely(cfg: Config, sv: Survey, soft: map<nat, int>, i: Issue, o: Outcome)
    ensures Timely(FirstSeen(soft, i.number), [VerdictOf(cfg, sv, soft, i, o)], cfg.timeout)
  {
    var vs := [VerdictOf(cfg, sv, soft, i, o)];
    assert vs[..0] == [];
    DefersExactlyWhen(EffectivePreset(cfg, i), i.number, sv.prs, FirstSeen(soft, i.number), o.decideAt, cfg.timeout);
    hide Decide, EffectivePreset, SiblingPrs;
  }

  // ---------- a cycle ----------

  /** The entry `now` is what the decisions `vs` make of the entry `start`, and they are timely. */
  ghost predicate Tracks(start: Option<int>, now: Option<int>, vs: seq<Verdict>, timeout: nat) {
    now == HeldSince(start, vs) && Timely(start, vs, timeout)
  }

  lemma TracksNothing(start: Option<int>, timeout: nat)
    ensures Tracks(start, start, [], timeout)
  {
  }

  lemma TracksOne(start: Option<int>, v: Verdict, timeout: nat)
    requires Timely(start, [v], timeout)
    ensures Tracks(start, HeldSince(start, [v]), [] + [v], timeout)
  {
    assert [] + [v] == [v];
  }

  /** Before its own turn an issue's entry is the one of the cycle's start, so the cycle decides about it at most once. */
  lemma {:induction false} CycleSoft(cfg: Config, sv: Survey, st: State, os: seq<Outcome>, k: nat, n: nat)
    requires |os| == |sv.open| && k <= |sv.open| && DistinctNumbers(sv.open)
    ensures var vs := CycleVerdicts(cfg, sv, st.soft, os, k, n);
            Tracks(FirstSeen(st.soft, n), FirstSeen(HandleUpTo(cfg, sv, st, os, k).soft, n), vs, cfg.timeout) &&
            (!SeenUpTo(sv.open, k, n) ==> vs == [])
  {
    if k == 0 {
      TracksNothing(FirstSeen(st.soft, n), cfg.timeout);
    } else {
      hide HandleUpTo, Turn, SeenUpTo, DistinctNumbers, Tracks, FirstSeen;
      CycleSoft(cfg, sv, st, os, k - 1, n);
      HandledNext(cfg, sv, st, os, k);
      SeenNext(sv.open, k - 1, n);
      VerdictsNext(cfg, sv, st.soft, HandleUpTo(cfg, sv, st, os, k - 1), sv.open[k - 1], os[k - 1], n,
                   CycleVerdicts(cfg, sv, st.soft, os, k - 1, n));
    }
  }

  /** One turn of that: the decision about the issue, if the turn takes one, is the first of the cycle. */
  lemma VerdictsNext(cfg: Config, sv: Survey, soft: map<nat, int>, before: State, i: Issue, o: Outcome, n: nat, vs: seq<Verdict>)
    requires Tracks(FirstSeen(soft, n), FirstSeen(before.soft, n), vs, cfg.timeout) && (i.number == n ==> vs == [])
    ensures Tracks(FirstSeen(soft, n), FirstSeen(Turn(cfg, sv, before, i, o).soft, n),
                   if i.number == n && Decided(cfg, sv, i, o) then vs + [VerdictOf(cfg, sv, soft, i, o)] else vs, cfg.timeout)
  {
    var start := FirstSeen(soft, n);
    TurnSoft(cfg, sv, before, i, o, n);
    if i.number == n && Decided(cfg, sv, i, o) {
      HeldSinceNothing(start);
      hide Turn, Decided, Timely, FirstSeen, HeldSince;
      assert FirstSeen(before.soft, n) == start;
      SameDecision(cfg, sv, before.soft, soft, i, o);
      VerdictTimely(cfg, sv, soft, i, o);
      TracksOne(start, VerdictOf(cfg, sv, soft, i, o), cfg.timeout);
      hide VerdictOf, Tracks;
    } else {
      hide Turn, Decided, Tracks, FirstSeen, VerdictOf;
    }
  }

  lemma HeldSinceNothing(start: Option<int>)
    ensures HeldSince(start, []) == start
  {
  }

  // ---------- a run ----------

  lemma {:induction false} HeldSinceJoin(start: Option<int>, a: seq<Verdict>, b: seq<Verdict>)
    ensures HeldSince(start, a + b) == HeldSince(HeldSince(start, a), b)
  {
    if b == [] {
      assert a + b == a;
    } else {
      var k := |b| - 1;
      assert (a + b)[..|a + b| - 1] == a + b[..k];
      HeldSinceJoin(start, a, b[..k]);
    }
  }

  lemma TimelyJoin(start: Option<int>, a: seq<Verdict>, b: seq<Verdict>, timeout: nat)
    requires Timely(start, a, timeout) && Timely(HeldSince(start, a), b, timeout)
    ensures Timely(start, a + b, timeout)
  {
    hide HeldSince, InTime;
    var vs := a + b;
    forall j | 0 <= j < |vs| ensures InTime(HeldSince(start, vs[..j]), vs[j], timeout) {
      if j < |a| {
        assert vs[..j] == a[..j] && vs[j] == a[j];
      } else {
        var c := b[..j - |a|];
        assert vs[..j] == a + c && vs[j] == b[j - |a|];
        HeldSinceJoin(start, a, c);
      }
    }
  }

  lemma StepSoft(cfg: Config, m: Machine, act: Action, n: nat)
    requires Possible(cfg, m, act) && act.RunOf?
    ensures var vs := CycleVerdicts(cfg, act.sv, m.soft, act.a.outcomes, |act.sv.open|, n);
            FirstSeen(Next(cfg, m, act).soft, n) == HeldSince(FirstSeen(m.soft, n), vs) &&
              Timely(FirstSeen(m.soft, n), vs, cfg.timeout)
  {
    PreparedIsFresh(cfg, act.sv, m.host, m.soft, act.a);
    hide Prepared, HandleUpTo, Timely, HeldSince, DistinctNumbers, FirstSeen;
    CycleSoft(cfg, act.sv, Prepared(cfg, act.sv, m.host, m.soft, act.a), act.a.outcomes, |act.sv.open|, n);
  }

  /** The recorded first-seen instant is the start of the current streak, and every decision is timely. */
  lemma {:induction false} SoftChordRecord(cfg: Config, m: Machine, acts: seq<Action>, n: nat)
    requires PossibleRun(cfg, m, acts)
    ensures FirstSeen(After(cfg, m, acts).soft, n) == HeldSince(FirstSeen(m.soft, n), Verdicts(cfg, m, acts, n))
    ensures Timely(FirstSeen(m.soft, n), Verdicts(cfg, m, acts, n), cfg.timeout)
  {
    if acts == [] {
    } else {
      var k := |acts| - 1;
      RunFront(cfg, m, acts);
      SoftChordRecord(cfg, m, acts[..k], n);
      var mid := After(cfg, m, acts[..k]);
      var start, vs := FirstSeen(m.soft, n), Verdicts(cfg, m, acts[..k], n);
      hide Timely, HeldSince, FirstSeen, CycleVerdicts;
      if acts[k].RunOf? {
        StepSoft(cfg, mid, acts[k], n);
        hide Next;
        var more := CycleVerdicts(cfg, acts[k].sv, mid.soft, acts[k].a.outcomes, |acts[k].sv.open|, n);
        HeldSinceJoin(start, vs, more);
        TimelyJoin(start, vs, more, cfg.timeout);
      } else {
        assert vs + [] == vs;
      }
    }
  }

  lemma {:induction false} StreakStart(start: Option<int>, vs: seq<Verdict>, i: nat, j: nat)
    requires i < j <= |vs| && (forall k :: i <= k < j ==> vs[k].held)
    requires HeldSince(start, vs[..i]).None?
    ensures HeldSince(start, vs[..j]) == Some(vs[i].stamp)
  {
    assert vs[..j][..j - 1] == vs[..j - 1];
    if j == i + 1 {
    } else {
      StreakStart(start, vs, i, j - 1);
    }
  }

  /**
   * The bounded wait: in a streak of decisions `i..j` that all hold the issue back, the last comes less than the
   * timeout after the first, and the recorded instant stays that of the first.
   */
  lemma BoundedWait(cfg: Config, m: Machine, acts: seq<Action>, n: nat, i: nat, j: nat)
    requires PossibleRun(cfg, m, acts) && n !in m.soft
    requires var vs := Verdicts(cfg, m, acts, n);
             i < j < |vs| && (i == 0 || !vs[i - 1].held) && forall k :: i <= k <= j ==> vs[k].held
    ensures var vs := Verdicts(cfg, m, acts, n);
            vs[j].at - vs[i].stamp < cfg.timeout && HeldSince(None, vs[..j + 1]) == Some(vs[i].stamp)
  {
    SoftChordRecord(cfg, m, acts, n);
    assert FirstSeen(m.soft, n) == None;
    hide Verdicts, PossibleRun, Timely, HeldSince;
    StreakBound(Verdicts(cfg, m, acts, n), cfg.timeout, i, j);
  }

  lemma StreakBound(vs: seq<Verdict>, timeout: nat, i: nat, j: nat)
    requires Timely(None, vs, timeout)
    requires i < j < |vs| && (i == 0 || !vs[i - 1].held) && forall k :: i <= k <= j ==> vs[k].held
    ensures vs[j].at - vs[i].stamp < timeout && HeldSince(None, vs[..j + 1]) == Some(vs[i].stamp)
  {
    assert HeldSince(None, vs[..i]).None? by {
      if i > 0 { assert vs[..i][i - 1] == vs[i - 1]; }
    }
    StreakStart(None, vs, i, j);
    StreakStart(None, vs, i, j + 1);
    assert InTime(HeldSince(None, vs[..j]), vs[j], timeout);
  }
}
