/** What becomes of one issue in a cycle, and the accounting of counters, caps and slots over all of them. */
module CycleLaws {
  import opened Options
  import opened Repo
  import opened Isolation
  import opened Classifier
  import opened Dispatch
  import opened Cycle

  /** The turn for issue `i`. */
  function Turn(cfg: Config, sv: Survey, st: State, i: Issue, o: Outcome): State {
    Handle(cfg, sv, st, i, ClassifyIn(sv, i), o)
  }

  predicate Dispatchable(cfg: Config, sv: Survey, i: Issue) {
    ClassifyIn(sv, i).bucket == Ready && !i.Has(InFlight)
  }

  // ---------- what becomes of one issue ----------

  /** Which branch the turn for an issue takes. */
  datatype Fate = Skipped | Overlapping | HeldBack | Serialised | Launched

  function FateOf(cfg: Config, sv: Survey, st: State, i: Issue, o: Outcome): Fate {
    if !Dispatchable(cfg, sv, i) then Skipped
    else if cfg.mailbox && o.claimed then Overlapping
    else if IsolationOf(cfg, sv, st.soft, i, o.decideAt) == Defer then HeldBack
    else if EffectivePreset(cfg, i) == Bureaucratic && (AnyInFlight(sv.open) || st.pass.bureaucratic || !o.permit) then Serialised
    else Launched
  }

  /** The state once the clock is read for the isolation decision. */
  function ReadClock(cfg: Config, st: State, i: Issue, o: Outcome): State {
    var asked := AskMailbox(cfg, st, i.number, o);
    asked.(host := Logged(asked.host, [Clock(o.decideAt)]))
  }

  /** The state in which an issue that was let go is dispatched. */
  function Brought(cfg: Config, sv: Survey, st: State, i: Issue, o: Outcome): State {
    var released := Release(cfg, ReadClock(cfg, st, i, o), i.number, IsolationOf(cfg, sv, st.soft, i, o.decideAt), o);
    if EffectivePreset(cfg, i) == Bureaucratic then released.(host := Logged(released.host, [TryPermit(o.permit)])) else released
  }

  lemma TurnLaunched(cfg: Config, sv: Survey, st: State, i: Issue, o: Outcome)
    requires FateOf(cfg, sv, st, i, o) == Launched
    ensures Turn(cfg, sv, st, i, o) == Launch(cfg, Brought(cfg, sv, st, i, o), i, EffectivePreset(cfg, i), o)
  {
    assert ClassifyIn(sv, i).issue == i.number;
    hide EffectivePreset, ClassifyIn, AnyInFlight, IsolationOf, Launch, Post, Logged;
    assert AskMailbox(cfg, st, i.number, o).soft == st.soft;
  }

  lemma TurnHeld(cfg: Config, sv: Survey, st: State, i: Issue, o: Outcome)
    requires FateOf(cfg, sv, st, i, o) == HeldBack
    ensures Turn(cfg, sv, st, i, o) == Hold(ReadClock(cfg, st, i, o), i.number, o)
  {
    assert ClassifyIn(sv, i).issue == i.number;
    hide EffectivePreset, ClassifyIn, AnyInFlight, IsolationOf, Launch, Post, Logged, Hold;
    assert AskMailbox(cfg, st, i.number, o).soft == st.soft;
  }

  /** A call that only asks: the mailbox, the clock, or the semaphore. */
  predicate Harmless(c: Call) {
    c.Inbox? || c.Clock? || c.TryPermit?
  }

  /** The host answered some harmless calls and nothing else happened to it. */
  ghost predicate OnlyAsked(before: Content, after: Content) {
    before.log <= after.log && after == before.(log := after.log) &&
    forall k :: |before.log| <= k < |after.log| ==> Harmless(after.log[k])
  }

  lemma AskedMore(a: Content, b: Content, c: Call)
    requires OnlyAsked(a, b) && Harmless(c)
    ensures OnlyAsked(a, Logged(b, [c]))
  {
  }

  /** A turn that launches nothing only adds its issue to a list. */
  lemma TurnIdle(cfg: Config, sv: Survey, st: State, i: Issue, o: Outcome)
    requires FateOf(cfg, sv, st, i, o) != Launched
    ensures var next := Turn(cfg, sv, st, i, o);
            OnlyAsked(st.host, next.host) && next.pass == st.pass.(report := next.pass.report) &&
            next.pass.report.triggered == st.pass.report.triggered
    ensures var a, b := st.pass.report, Turn(cfg, sv, st, i, o).pass.report;
            b.merged == a.merged && b.prFailing == a.prFailing &&
            b.overlap == a.overlap + (if FateOf(cfg, sv, st, i, o) == Overlapping then [i.number] else []) &&
            b.deferred == a.deferred + (if FateOf(cfg, sv, st, i, o) in {HeldBack, Serialised} then [i.number] else [])
  {
    assert ClassifyIn(sv, i).issue == i.number;
    var fate := FateOf(cfg, sv, st, i, o);
    if fate == Serialised {
      TurnSerialised(cfg, sv, st, i, o);
    } else if fate == HeldBack {
      TurnHeld(cfg, sv, st, i, o);
      HoldAsks(cfg, st, i, o);
      hide Turn, FateOf, ReadClock;
    } else {
      hide EffectivePreset, ClassifyIn, AnyInFlight, IsolationOf, Isolate;
    }
  }

  lemma HoldAsks(cfg: Config, st: State, i: Issue, o: Outcome)
    ensures var next := Hold(ReadClock(cfg, st, i, o), i.number, o);
            OnlyAsked(st.host, next.host) && next.pass == DeferIssue(st, i.number).pass
  {
    var asked := AskMailbox(cfg, st, i.number, o);
    assert OnlyAsked(st.host, asked.host);
    AskedMore(st.host, asked.host, Clock(o.decideAt));
    AskedMore(st.host, ReadClock(cfg, st, i, o).host, Clock(o.stampAt));
    hide OnlyAsked, Logged;
  }

  lemma TurnSerialised(cfg: Config, sv: Survey, st: State, i: Issue, o: Outcome)
    requires FateOf(cfg, sv, st, i, o) == Serialised
    ensures var next := Turn(cfg, sv, st, i, o);
            OnlyAsked(st.host, next.host) && next.pass == DeferIssue(st, i.number).pass
  {
    assert ClassifyIn(sv, i).issue == i.number;
    var asked := AskMailbox(cfg, st, i.number, o);
    assert OnlyAsked(st.host, asked.host) && asked.soft == st.soft;
    AskedMore(st.host, asked.host, Clock(o.decideAt));
    AskedMore(st.host, ReadClock(cfg, st, i, o).host, TryPermit(o.permit));
    BureaucraticLetsGo(cfg, sv, st, i, o);
    hide EffectivePreset, ClassifyIn, AnyInFlight, IsolationOf, Launch, OnlyAsked, Logged, Post;
  }

  /** Under the bureaucratic preset the isolation decision posts no advisory. */
  lemma BureaucraticLetsGo(cfg: Config, sv: Survey, st: State, i: Issue, o: Outcome)
    ensures EffectivePreset(cfg, i) == Bureaucratic ==> IsolationOf(cfg, sv, st.soft, i, o.decideAt) == Dispatch
  {
    hide EffectivePreset, SiblingPrs, FirstSeen;
  }

  // ---------- what a turn triggers ----------

  /** The turn dispatched the issue. */
  predicate Triggers(before: Pass, after: Pass, n: nat) {
    after.report.triggered == before.report.triggered + [n]
  }

  /** A turn dispatches its own issue or nothing; a bureaucratic dispatch needs an idle repository and is remembered. */
  ghost predicate TurnCounts(cfg: Config, sv: Survey, st: State, i: Issue, next: State) {
    var p, q := st.pass, next.pass;
    if q.report.triggered == p.report.triggered then
      q.slots == p.slots && q.dispatched == p.dispatched && q.bureaucratic == p.bureaucratic
    else
      Triggers(p, q, i.number) && q.dispatched == p.dispatched + 1 && Dispatchable(cfg, sv, i) && !cfg.dryRun &&
      q.bureaucratic == (p.bureaucratic || EffectivePreset(cfg, i) == Bureaucratic) &&
      (EffectivePreset(cfg, i) == Bureaucratic ==> !AnyInFlight(sv.open) && !p.bureaucratic) &&
      if q.slots == p.slots then p.dispatched < cfg.maxBeats
      else cfg.tmux && NextFree(p.slots, cfg.maxBeats).Some? && q.slots == p.slots + [NextFree(p.slots, cfg.maxBeats).value]
  }

  lemma LaunchCounts(cfg: Config, sv: Survey, st: State, i: Issue, o: Outcome)
    requires Dispatchable(cfg, sv, i)
    requires EffectivePreset(cfg, i) == Bureaucratic ==> !AnyInFlight(sv.open) && !st.pass.bureaucratic
    ensures TurnCounts(cfg, sv, st, i, Launch(cfg, st, i, EffectivePreset(cfg, i), o))
  {
    hide EffectivePreset, RunnerFor, NextFree, ClassifyIn, AnyInFlight, Flag, Unflag, Post, Spawn, SlotName, Logged;
  }

  lemma TurnCounted(cfg: Config, sv: Survey, st: State, i: Issue, o: Outcome)
    ensures TurnCounts(cfg, sv, st, i, Turn(cfg, sv, st, i, o))
  {
    if FateOf(cfg, sv, st, i, o) == Launched {
      TurnLaunched(cfg, sv, st, i, o);
      assert Brought(cfg, sv, st, i, o).pass == st.pass by { hide EffectivePreset, IsolationOf, Logged, Post; }
      LaunchCounts(cfg, sv, Brought(cfg, sv, st, i, o), i, o);
      hide Turn, Launch, Brought, EffectivePreset, ClassifyIn, AnyInFlight, NextFree, IsolationOf;
    } else {
      TurnIdle(cfg, sv, st, i, o);
      hide Turn, FateOf, EffectivePreset, Dispatchable, AnyInFlight, NextFree;
    }
  }

  // ---------- counters, caps and slots ----------

  /** What the local variables record once the first `k` issues are handled; `slots0` are the slots in use at the start. */
  ghost predicate Accounts(cfg: Config, sv: Survey, slots0: seq<nat>, pass: Pass, k: nat) {
    pass.dispatched == |pass.report.triggered| &&
    slots0 <= pass.slots &&
    (forall a :: |slots0| <= a < |pass.slots| ==> 1 <= pass.slots[a] <= cfg.maxBeats && pass.slots[a] !in pass.slots[..a]) &&
    pass.dispatched - (|pass.slots| - |slots0|) <= cfg.maxBeats &&
    (!cfg.tmux ==> pass.slots == slots0) &&
    (cfg.dryRun ==> pass.report.triggered == []) &&
    (forall n :: n in pass.report.triggered ==>
      exists i :: 0 <= i < k <= |sv.open| && sv.open[i].number == n && Dispatchable(cfg, sv, sv.open[i]))
  }

  lemma AccountsStep(cfg: Config, sv: Survey, slots0: seq<nat>, st: State, k: nat, next: State)
    requires k < |sv.open| && Accounts(cfg, sv, slots0, st.pass, k) && TurnCounts(cfg, sv, st, sv.open[k], next)
    ensures Accounts(cfg, sv, slots0, next.pass, k + 1)
  {
    hide Dispatchable, EffectivePreset, AnyInFlight, NextFree;
    var p, q := st.pass, next.pass;
    if q.slots != p.slots {
      NextFreeMeans(p.slots, cfg.maxBeats);
      forall a | |slots0| <= a < |q.slots| ensures 1 <= q.slots[a] <= cfg.maxBeats && q.slots[a] !in q.slots[..a] {
        if a < |p.slots| { assert q.slots[..a] == p.slots[..a]; } else { assert q.slots[..a] == p.slots; }
      }
    }
    forall n | n in q.report.triggered
      ensures exists i :: 0 <= i < k + 1 <= |sv.open| && sv.open[i].number == n && Dispatchable(cfg, sv, sv.open[i])
    {
      if n in p.report.triggered {
        var i :| 0 <= i < k && sv.open[i].number == n && Dispatchable(cfg, sv, sv.open[i]);
      } else {
        assert sv.open[k].number == n;
      }
    }
  }

  lemma NextFreeMeans(used: seq<nat>, max: nat)
    ensures NextFree(used, max).Some? ==> 1 <= NextFree(used, max).value <= max && NextFree(used, max).value !in used
  {
  }

  /** A loop start: nothing triggered yet. */
  predicate Fresh(pass: Pass) {
    pass.report.triggered == [] && pass.dispatched == 0 && !pass.bureaucratic &&
    pass.report.waiting == [] && pass.report.blocked == [] && pass.report.human == [] && pass.report.overlap == [] &&
    pass.report.deferred == []
  }

  lemma {:induction false} AccountsUpTo(cfg: Config, sv: Survey, st: State, os: seq<Outcome>, k: nat)
    requires |os| == |sv.open| && k <= |sv.open| && Fresh(st.pass)
    ensures Accounts(cfg, sv, st.pass.slots, HandleUpTo(cfg, sv, st, os, k).pass, k)
  {
    hide *;
    if k == 0 {
      AccountsStart(cfg, sv, st, os);
    } else {
      AccountsUpTo(cfg, sv, st, os, k - 1);
      var before := HandleUpTo(cfg, sv, st, os, k - 1);
      TurnCounted(cfg, sv, before, sv.open[k - 1], os[k - 1]);
      AccountsStep(cfg, sv, st.pass.slots, before, k - 1, Turn(cfg, sv, before, sv.open[k - 1], os[k - 1]));
      HandledNext(cfg, sv, st, os, k);
    }
  }

  lemma AccountsStart(cfg: Config, sv: Survey, st: State, os: seq<Outcome>)
    requires |os| == |sv.open| && Fresh(st.pass)
    ensures Accounts(cfg, sv, st.pass.slots, HandleUpTo(cfg, sv, st, os, 0).pass, 0)
  {
    hide Dispatchable;
  }

  lemma HandledNext(cfg: Config, sv: Survey, st: State, os: seq<Outcome>, k: nat)
    requires |os| == |sv.open| && 0 < k <= |sv.open|
    ensures HandleUpTo(cfg, sv, st, os, k) == Turn(cfg, sv, HandleUpTo(cfg, sv, st, os, k - 1), sv.open[k - 1], os[k - 1])
  {
    hide Handle, ClassifyIn;
  }

  /** Merging pull requests leaves everything the loop over Ready issues works with alone. */
  lemma {:induction false} MergesApart(cfg: Config, st: State, cs: seq<Classification>, os: seq<Outcome>)
    requires |os| == |cs|
    ensures var m := MergeAll(cfg, st, cs, os);
            m.soft == st.soft && m.host.issues == st.host.issues && m.host.comments == st.host.comments &&
            m.host.sessions == st.host.sessions && m.pass.slots == st.pass.slots && m.pass.dispatched == st.pass.dispatched &&
            m.pass.bureaucratic == st.pass.bureaucratic && (Fresh(st.pass) ==> Fresh(m.pass)) && st.host.log <= m.host.log
  {
    if cs == [] {
    } else {
      var n := |cs| - 1;
      MergesApart(cfg, st, cs[..n], os[..n]);
    }
  }

  lemma PreparedIsFresh(cfg: Config, sv: Survey, host: Content, soft: map<nat, int>, a: Answers)
    requires Fits(cfg, sv, a)
    ensures var st := Prepared(cfg, sv, host, soft, a);
            Fresh(st.pass) && st.pass.slots == SlotIndices(if cfg.tmux then sv.sessions else [], Agent) && st.soft == soft &&
            st.host.issues == Tidied(cfg, sv, host, a).issues && st.host.comments == host.comments &&
            st.host.sessions == host.sessions && host.log <= st.host.log
  {
    MergesApart(cfg, Surveyed(cfg, sv, host, soft, a), Classifications(sv), a.outcomes);
    var surveyed := Logged(host, SurveyCalls(a));
    if !cfg.dryRun { TidyingApart(sv.open, surveyed, Links(sv), a.cleared); }
    hide MergeAll, Classifications, Housekeep, SlotIndices, Links;
    var tidied := Tidied(cfg, sv, host, a);
    assert host.log <= surveyed.log <= tidied.log <= Surveyed(cfg, sv, host, soft, a).host.log;
  }

  lemma {:induction false} TidyingApart(open: seq<Issue>, host: Content, links: seq<Option<nat>>, cleared: seq<bool>)
    requires |cleared| == |links|
    ensures var t := Housekeep(open, host, links, cleared);
            t.comments == host.comments && t.sessions == host.sessions && t.merged == host.merged && host.log <= t.log
  {
    if links == [] {
    } else {
      var n := |links| - 1;
      TidyingApart(open, host, links[..n], cleared[..n]);
      hide FlaggedIn;
    }
  }

  lemma DistinctInRange(s: seq<nat>, max: nat)
    requires forall a :: 0 <= a < |s| ==> 1 <= s[a] <= max && s[a] !in s[..a]
    ensures |s| <= max
  {
    forall a | 0 <= a < |s| ensures s[a] in UpTo(max) && s[a] !in s[..a] {}
    CountDistinct(s, UpTo(max));
  }

  lemma {:induction false} CountDistinct(s: seq<nat>, range: set<nat>)
    requires forall a :: 0 <= a < |s| ==> s[a] in range && s[a] !in s[..a]
    ensures |s| <= |range|
  {
    if s == [] {
    } else {
      var n := |s| - 1;
      forall a | 0 <= a < n ensures s[..n][a] in range - {s[n]} && s[..n][a] !in s[..n][..a] {
        assert s[..n][..a] == s[..a];
        assert s[..n][a] == s[a] && s[a] in s[..n];
      }
      CountDistinct(s[..n], range - {s[n]});
    }
  }

  function UpTo(max: nat): (r: set<nat>)
    ensures forall n :: n in r <==> 1 <= n <= max
    ensures |r| == max
  {
    if max == 0 then {} else UpTo(max - 1) + {max}
  }

  /**
   * The accounting of a cycle: the counter is the number of triggered issues; the agent slots taken are distinct, in
   * range and free at the start; at most `maxBeats` issues go to the web and, with slots, twice as many in all.
   */
  lemma CycleAccounting(cfg: Config, sv: Survey, host: Content, soft: map<nat, int>, a: Answers)
    requires Fits(cfg, sv, a)
    ensures var pass := RunCycle(cfg, sv, host, soft, a).pass;
            var taken := pass.slots[|pass.slots| - NewSlots(cfg, sv, pass)..];
            pass.dispatched == |pass.report.triggered| &&
            (forall x, y :: 0 <= x < y < |taken| ==> taken[x] != taken[y]) &&
            (forall n :: n in taken ==> 1 <= n <= cfg.maxBeats && forall s :: s in sv.sessions ==> SlotOf(s, Agent) != Some(n)) &&
            |pass.report.triggered| - |taken| <= cfg.maxBeats &&
            |pass.report.triggered| <= 2 * cfg.maxBeats &&
            (!cfg.tmux ==> |pass.report.triggered| <= cfg.maxBeats) &&
            (cfg.dryRun ==> pass.report.triggered == [])
  {
    var st := Prepared(cfg, sv, host, soft, a);
    PreparedIsFresh(cfg, sv, host, soft, a);
    AccountsUpTo(cfg, sv, st, a.outcomes, |sv.open|);
    CycleIsLoop(cfg, sv, host, soft, a);
    hide *;
    FinalAccounts(cfg, sv, RunCycle(cfg, sv, host, soft, a).pass);
  }

  lemma CycleIsLoop(cfg: Config, sv: Survey, host: Content, soft: map<nat, int>, a: Answers)
    requires Fits(cfg, sv, a)
    ensures RunCycle(cfg, sv, host, soft, a) == HandleUpTo(cfg, sv, Prepared(cfg, sv, host, soft, a), a.outcomes, |sv.open|)
  {
    hide Prepared, HandleUpTo;
  }

  lemma FinalAccounts(cfg: Config, sv: Survey, pass: Pass)
    requires Accounts(cfg, sv, SlotIndices(if cfg.tmux then sv.sessions else [], Agent), pass, |sv.open|)
    ensures var taken := pass.slots[|pass.slots| - NewSlots(cfg, sv, pass)..];
            pass.dispatched == |pass.report.triggered| &&
            (forall x, y :: 0 <= x < y < |taken| ==> taken[x] != taken[y]) &&
            (forall n :: n in taken ==> 1 <= n <= cfg.maxBeats && forall s :: s in sv.sessions ==> SlotOf(s, Agent) != Some(n)) &&
            |pass.report.triggered| - |taken| <= cfg.maxBeats &&
            |pass.report.triggered| <= 2 * cfg.maxBeats &&
            (!cfg.tmux ==> |pass.report.triggered| <= cfg.maxBeats) &&
            (cfg.dryRun ==> pass.report.triggered == [])
  {
    SlotIndicesMeaning(if cfg.tmux then sv.sessions else [], Agent);
    hide SlotIndices, SlotOf, Dispatchable;
    TakenSlots(cfg, sv, SlotIndices(if cfg.tmux then sv.sessions else [], Agent), pass);
  }

  /** How many slots a pass took beyond those of the surveyed sessions. */
  function NewSlots(cfg: Config, sv: Survey, pass: Pass): nat {
    var before := |SlotIndices(if cfg.tmux then sv.sessions else [], Agent)|;
    if before <= |pass.slots| then |pass.slots| - before else 0
  }

  /** The slots taken are distinct, in range, and not among those in use before. */
  lemma SlotsDistinct(slots0: seq<nat>, slots: seq<nat>, max: nat)
    requires slots0 <= slots
    requires forall a :: |slots0| <= a < |slots| ==> 1 <= slots[a] <= max && slots[a] !in slots[..a]
    ensures var taken := slots[|slots0|..];
            (forall x, y :: 0 <= x < y < |taken| ==> taken[x] != taken[y]) &&
            (forall n :: n in taken ==> 1 <= n <= max && n !in slots0) && |taken| <= max
  {
    var taken := slots[|slots0|..];
    forall x, y | 0 <= x < y < |taken| ensures taken[x] != taken[y] {
      assert slots[|slots0| + x] in slots[..|slots0| + y];
    }
    forall x | 0 <= x < |taken| ensures 1 <= taken[x] <= max && taken[x] !in slots0 && taken[x] !in taken[..x] {
      assert slots[|slots0| + x] !in slots[..|slots0| + x];
      assert forall z :: 0 <= z < |slots0| ==> slots0[z] == slots[..|slots0| + x][z];
    }
    DistinctInRange(taken, max);
  }

  lemma TakenSlots(cfg: Config, sv: Survey, slots0: seq<nat>, pass: Pass)
    requires Accounts(cfg, sv, slots0, pass, |sv.open|)
    ensures var taken := pass.slots[|slots0|..];
            (forall x, y :: 0 <= x < y < |taken| ==> taken[x] != taken[y]) &&
            (forall n :: n in taken ==> 1 <= n <= cfg.maxBeats && n !in slots0) && |taken| <= cfg.maxBeats
  {
    hide Dispatchable;
    SlotsDistinct(slots0, pass.slots, cfg.maxBeats);
  }
}
