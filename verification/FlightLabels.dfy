/** What one cycle does to the in-flight labels, issue by issue, in terms of the calls that the host answered. */
module FlightLabels {
  import opened Options
  import opened Repo
  import opened Dispatch
  import opened Cycle
  import opened CycleLaws

  // ---------- calls ----------

  /**
   * The calls about the labels of issue `n` went well: no failed label write took effect after all, and no removal that
   * followed a claim of the issue failed.
   */
  ghost predicate CleanFor(calls: seq<Call>, n: nat) {
    (forall k :: 0 <= k < |calls| ==> calls[k] != AddLabel(n, Lost(true))) &&
    forall j, k :: 0 <= j < k < |calls| && calls[j] == AddLabel(n, Done) ==> calls[k] != RemoveLabel(n, false)
  }

  lemma CleanPart(calls: seq<Call>, lo: nat, hi: nat, n: nat)
    requires lo <= hi <= |calls| && CleanFor(calls, n)
    ensures CleanFor(calls[lo..hi], n)
  {
    var part := calls[lo..hi];
    forall k | 0 <= k < |part| ensures part[k] != AddLabel(n, Lost(true)) { assert part[k] == calls[lo + k]; }
    forall j, k | 0 <= j < k < |part| && part[j] == AddLabel(n, Done) ensures part[k] != RemoveLabel(n, false) {
      assert part[j] == calls[lo + j] && part[k] == calls[lo + k];
    }
  }

  /** The calls that were added to a log. */
  function CallsSince(before: seq<Call>, after: seq<Call>): seq<Call>
    requires before <= after
  {
    after[|before|..]
  }

  lemma CleanLater(a: seq<Call>, b: seq<Call>, c: seq<Call>, n: nat)
    requires a <= b <= c && CleanFor(CallsSince(a, c), n)
    ensures CleanFor(CallsSince(b, c), n) && CleanFor(CallsSince(a, b), n)
  {
    var all := CallsSince(a, c);
    CleanPart(all, |b| - |a|, |all|, n);
    CleanPart(all, 0, |b| - |a|, n);
    assert all[|b| - |a|..|all|] == CallsSince(b, c) && all[0..|b| - |a|] == CallsSince(a, b);
  }

  // ---------- labels ----------

  predicate Unflagged(issues: seq<Issue>, n: nat) {
    forall j :: j in issues && j.number == n ==> InFlight !in j.labels
  }

  /** What a turn for issue `n` may do to labels, and what it does if the calls about them went well. */
  ghost predicate Relabels(before: State, after: State, n: nat) {
    before.host.log <= after.host.log &&
    (after.host.issues == before.host.issues || after.host.issues == AddFlight(before.host.issues, n)) &&
    if after.pass.report.triggered != before.pass.report.triggered then after.host.issues == AddFlight(before.host.issues, n)
    else CleanFor(CallsSince(before.host.log, after.host.log), n) ==> after.host.issues == before.host.issues
  }

  lemma FailedFlag(st: State, n: nat, w: Write)
    requires w.Lost?
    ensures Relabels(st, st.(host := Flag(st.host, n, w)), n)
  {
    hide AddFlight;
    var after := Flag(st.host, n, w);
    assert CallsSince(st.host.log, after.log) == [AddLabel(n, w)];
    assert w.landed ==> CallsSince(st.host.log, after.log)[0] == AddLabel(n, Lost(true));
  }

  /** A claim, some calls, and a rollback. */
  lemma RolledBack(st: State, n: nat, calls: seq<Call>, host: Content, rollback: bool)
    requires Unflagged(st.host.issues, n)
    requires host.issues == AddFlight(st.host.issues, n) && host.log == st.host.log + [AddLabel(n, Done)] + calls
    ensures Relabels(st, st.(host := Unflag(host, n, rollback)), n)
  {
    RollbackRestores(st.host.issues, n);
    hide AddFlight, RemoveFlight;
    var after := Unflag(host, n, rollback);
    var since := CallsSince(st.host.log, after.log);
    assert since == [AddLabel(n, Done)] + calls + [RemoveLabel(n, rollback)];
    assert !rollback ==> since[0] == AddLabel(n, Done) && since[|since| - 1] == RemoveLabel(n, false);
  }

  lemma WebLabels(st: State, n: nat, preset: Preset, flag: Write, post: Write, rollback: bool)
    requires Unflagged(st.host.issues, n)
    ensures Relabels(st, TriggerWeb(st, n, preset, flag, post, rollback), n)
  {
    hide AddFlight, RemoveFlight, CleanFor, Unflagged;
    if flag.Lost? {
      FailedFlag(st, n, flag);
    } else {
      var posted := Post(Flag(st.host, n, flag), Comment(n, true, true), post);
      assert posted.log == st.host.log + [AddLabel(n, Done)] + [PostComment(Comment(n, true, true), post)];
      if post.Lost? { RolledBack(st, n, [PostComment(Comment(n, true, true), post)], posted, rollback); }
    }
  }

  lemma TmuxLabels(st: State, n: nat, preset: Preset, slot: nat, flag: Write, session: Write, start: bool, prompt: bool,
      rollback: bool)
    requires Unflagged(st.host.issues, n)
    ensures Relabels(st, TriggerTmux(st, n, preset, slot, flag, session, start, prompt, rollback), n)
  {
    hide AddFlight, RemoveFlight, CleanFor, Unflagged, SlotName;
    if flag.Lost? {
      FailedFlag(st, n, flag);
    } else {
      var name := SlotName(Agent, slot);
      var spawned := Spawn(Flag(st.host, n, flag), name, session);
      assert spawned.log == st.host.log + [AddLabel(n, Done)] + [NewSession(name, session)];
      if session.Lost? {
        RolledBack(st, n, [NewSession(name, session)], spawned, rollback);
      } else {
        var lines := [SendLine(name, start), SendLine(name, prompt)];
        var told := Logged(spawned, lines);
        assert told.log == st.host.log + [AddLabel(n, Done)] + ([NewSession(name, session)] + lines);
        if !prompt { RolledBack(st, n, [NewSession(name, session)] + lines, told, rollback); }
      }
    }
  }

  lemma LaunchLabels(cfg: Config, st: State, i: Issue, preset: Preset, o: Outcome)
    requires Unflagged(st.host.issues, i.number)
    ensures Relabels(st, Launch(cfg, st, i, preset, o), i.number)
  {
    var slot := NextFree(st.pass.slots, cfg.maxBeats);
    WebLabels(st, i.number, preset, o.flag, o.post, o.rollback);
    if slot.Some? { TmuxLabels(st, i.number, preset, slot.value, o.flag, o.session, o.start, o.prompt, o.rollback); }
    hide RunnerFor, NextFree, TriggerWeb, TriggerTmux, AddFlight, CleanFor, Unflagged;
  }

  /** Letting an issue go changes neither labels nor sessions nor the pass. */
  lemma BroughtKeeps(cfg: Config, sv: Survey, st: State, i: Issue, o: Outcome)
    ensures var b := Brought(cfg, sv, st, i, o);
            b.pass == st.pass && b.host.issues == st.host.issues && b.host.sessions == st.host.sessions &&
            b.host.merged == st.host.merged && b.soft == st.soft - {i.number} && st.host.log <= b.host.log
  {
    var asked, read := AskMailbox(cfg, st, i.number, o), ReadClock(cfg, st, i, o);
    assert st.host.log <= asked.host.log <= read.host.log;
    hide EffectivePreset, IsolationOf;
  }

  lemma TurnLabels(cfg: Config, sv: Survey, st: State, i: Issue, o: Outcome)
    requires Dispatchable(cfg, sv, i) ==> Unflagged(st.host.issues, i.number)
    ensures Relabels(st, Turn(cfg, sv, st, i, o), i.number)
  {
    if FateOf(cfg, sv, st, i, o) == Launched {
      TurnLaunched(cfg, sv, st, i, o);
      BroughtKeeps(cfg, sv, st, i, o);
      var b := Brought(cfg, sv, st, i, o);
      LaunchLabels(cfg, b, i, EffectivePreset(cfg, i), o);
      hide Turn, Launch, Brought, EffectivePreset, AddFlight, CleanFor, FateOf, Unflagged;
      var next := Turn(cfg, sv, st, i, o);
      if CleanFor(CallsSince(st.host.log, next.host.log), i.number) {
        CleanLater(st.host.log, b.host.log, next.host.log, i.number);
      }
    } else {
      TurnIdle(cfg, sv, st, i, o);
      hide Turn, FateOf, AddFlight, CleanFor, Unflagged;
    }
  }

  /** No issue carries the label on the host unless it did in the survey. */
  ghost predicate NoNewFlags(issues: seq<Issue>, open: seq<Issue>) {
    forall j, i :: j in issues && i in open && j.number == i.number && InFlight in j.labels ==> InFlight in i.labels
  }

  lemma NotYetTriggered(cfg: Config, sv: Survey, slots0: seq<nat>, pass: Pass, k: nat)
    requires DistinctNumbers(sv.open) && k < |sv.open| && Accounts(cfg, sv, slots0, pass, k)
    ensures sv.open[k].number !in pass.report.triggered
  {
    hide Dispatchable;
  }

  function Tagged(i: Issue): Issue {
    i.(labels := i.labels + [InFlight])
  }

  /**
   * What may have happened to one issue: nothing, or the label was added; added for sure if it was triggered, and
   * nothing for sure if it was not and the calls about its label went well.
   */
  ghost predicate Settles(base: Issue, now: Issue, triggered: seq<nat>, calls: seq<Call>) {
    (now == base || now == Tagged(base)) &&
    if base.number in triggered then now == Tagged(base) else CleanFor(calls, base.number) ==> now == base
  }

  ghost predicate SettlesAll(base: seq<Issue>, now: seq<Issue>, triggered: seq<nat>, calls: seq<Call>) {
    |now| == |base| && forall x :: 0 <= x < |base| ==> Settles(base[x], now[x], triggered, calls)
  }

  /** Issues whose turn has not come are as they were. */
  ghost predicate RestUntouched(base: seq<Issue>, now: seq<Issue>, open: seq<Issue>, k: nat)
    requires k <= |open|
  {
    |now| == |base| && forall x :: 0 <= x < |base| ==>
      now[x].number == base[x].number && (!SeenUpTo(open, k, base[x].number) ==> now[x] == base[x])
  }

  ghost predicate SeenUpTo(open: seq<Issue>, k: nat, n: nat)
    requires k <= |open|
  {
    exists j :: 0 <= j < k && open[j].number == n
  }

  lemma SeenNext(open: seq<Issue>, k: nat, n: nat)
    requires k < |open| && DistinctNumbers(open)
    ensures SeenUpTo(open, k + 1, n) <==> SeenUpTo(open, k, n) || open[k].number == n
    ensures open[k].number == n ==> !SeenUpTo(open, k, n)
  {
  }

  lemma StillUnflagged(cfg: Config, sv: Survey, base: seq<Issue>, now: seq<Issue>, k: nat)
    requires NoNewFlags(base, sv.open) && k < |sv.open| && Dispatchable(cfg, sv, sv.open[k])
    requires RestUntouched(base, now, sv.open, k) && DistinctNumbers(sv.open)
    ensures Unflagged(now, sv.open[k].number)
  {
    hide ClassifyIn;
    var i := sv.open[k];
    SeenNext(sv.open, k, i.number);
    forall j | j in now && j.number == i.number ensures InFlight !in j.labels {
      var x :| 0 <= x < |now| && now[x] == j;
      NumberKept(base, now, x, sv.open, k);
      assert base[x] in base;
    }
  }

  lemma NumberKept(base: seq<Issue>, now: seq<Issue>, x: nat, open: seq<Issue>, k: nat)
    requires k <= |open| && RestUntouched(base, now, open, k) && x < |now|
    requires !SeenUpTo(open, k, now[x].number)
    ensures now[x] == base[x]
  {
  }

  lemma TurnTriggers(cfg: Config, sv: Survey, st: State, i: Issue, o: Outcome)
    ensures var next := Turn(cfg, sv, st, i, o);
            next.pass.report.triggered == st.pass.report.triggered ||
            next.pass.report.triggered == st.pass.report.triggered + [i.number]
  {
    TurnCounted(cfg, sv, st, i, o);
    hide Turn, Dispatchable, EffectivePreset, AnyInFlight, NextFree;
  }

  lemma HandleStart(cfg: Config, sv: Survey, st: State, os: seq<Outcome>)
    requires |os| == |sv.open|
    ensures HandleUpTo(cfg, sv, st, os, 0) == st
  {
  }

  // ---------- whatever the host answers ----------

  /** Numbers are kept, and all issues but those numbered `n` are the same. */
  ghost predicate SameBut(a: seq<Issue>, b: seq<Issue>, n: nat) {
    |a| == |b| && forall x :: 0 <= x < |a| ==> b[x].number == a[x].number && (a[x].number != n ==> b[x] == a[x])
  }

  lemma FlagsSame(a: seq<Issue>, n: nat)
    ensures SameBut(a, a, n) && SameBut(a, AddFlight(a, n), n) && SameBut(a, RemoveFlight(AddFlight(a, n), n), n)
  {
    var b := RemoveFlight(AddFlight(a, n), n);
    forall x | 0 <= x < |a| ensures b[x].number == a[x].number && (a[x].number != n ==> b[x] == a[x]) {}
  }

  /** Whatever the host answers, only the turn's own issue can be relabelled, and it is if it was triggered. */
  ghost predicate Touches(before: State, after: State, n: nat) {
    before.host.log <= after.host.log && SameBut(before.host.issues, after.host.issues, n) &&
    (after.pass.report.triggered != before.pass.report.triggered ==> after.host.issues == AddFlight(before.host.issues, n))
  }

  lemma WebTouches(st: State, n: nat, preset: Preset, flag: Write, post: Write, rollback: bool)
    ensures Touches(st, TriggerWeb(st, n, preset, flag, post, rollback), n)
  {
    FlagsSame(st.host.issues, n);
    var flagged := Flag(st.host, n, flag);
    var posted := Post(flagged, Comment(n, true, true), post);
    assert st.host.log <= flagged.log <= posted.log <= Unflag(posted, n, rollback).log;
    hide AddFlight, RemoveFlight, SameBut;
  }

  lemma TmuxTouches(st: State, n: nat, preset: Preset, slot: nat, flag: Write, session: Write, start: bool, prompt: bool,
      rollback: bool)
    ensures Touches(st, TriggerTmux(st, n, preset, slot, flag, session, start, prompt, rollback), n)
  {
    FlagsSame(st.host.issues, n);
    var flagged, name := Flag(st.host, n, flag), SlotName(Agent, slot);
    var spawned := Spawn(flagged, name, session);
    var told := Logged(spawned, [SendLine(name, start), SendLine(name, prompt)]);
    assert st.host.log <= flagged.log <= spawned.log <= told.log <= Unflag(told, n, rollback).log;
    assert spawned.log <= Unflag(spawned, n, rollback).log;
    hide AddFlight, RemoveFlight, SameBut, SlotName;
  }

  lemma LaunchTouches(cfg: Config, st: State, i: Issue, preset: Preset, o: Outcome)
    ensures Touches(st, Launch(cfg, st, i, preset, o), i.number)
  {
    var slot := NextFree(st.pass.slots, cfg.maxBeats);
    FlagsSame(st.host.issues, i.number);
    WebTouches(st, i.number, preset, o.flag, o.post, o.rollback);
    if slot.Some? { TmuxTouches(st, i.number, preset, slot.value, o.flag, o.session, o.start, o.prompt, o.rollback); }
    hide RunnerFor, NextFree, TriggerWeb, TriggerTmux, AddFlight, SameBut;
  }

  lemma TurnTouches(cfg: Config, sv: Survey, st: State, i: Issue, o: Outcome)
    ensures Touches(st, Turn(cfg, sv, st, i, o), i.number)
  {
    if FateOf(cfg, sv, st, i, o) == Launched {
      TurnLaunched(cfg, sv, st, i, o);
      BroughtKeeps(cfg, sv, st, i, o);
      LaunchTouches(cfg, Brought(cfg, sv, st, i, o), i, EffectivePreset(cfg, i), o);
      hide Turn, Launch, Brought, EffectivePreset, AddFlight, FateOf, SameBut;
    } else {
      TurnIdle(cfg, sv, st, i, o);
      FlagsSame(st.host.issues, i.number);
      hide Turn, FateOf, AddFlight, SameBut;
    }
  }

  /** Every issue on the host with a listed number carries the in-flight label. */
  ghost predicate AllInFlight(issues: seq<Issue>, listed: seq<nat>) {
    forall x :: 0 <= x < |issues| && issues[x].number in listed ==> InFlight in issues[x].labels
  }

  lemma TouchesStep(before: State, after: State, n: nat)
    requires Touches(before, after, n) && n !in before.pass.report.triggered
    requires after.pass.report.triggered in {before.pass.report.triggered, before.pass.report.triggered + [n]}
    requires AllInFlight(before.host.issues, before.pass.report.triggered)
    ensures before.host.log <= after.host.log && AllInFlight(after.host.issues, after.pass.report.triggered)
  {
  }

  lemma {:induction false} InFlightUpTo(cfg: Config, sv: Survey, st: State, os: seq<Outcome>, k: nat)
    requires |os| == |sv.open| && k <= |sv.open| && Fresh(st.pass) && DistinctNumbers(sv.open)
    ensures var s := HandleUpTo(cfg, sv, st, os, k); AllInFlight(s.host.issues, s.pass.report.triggered)
  {
    hide *;
    if k == 0 {
      HandleStart(cfg, sv, st, os);
      NothingListed(st);
    } else {
      InFlightUpTo(cfg, sv, st, os, k - 1);
      var before := HandleUpTo(cfg, sv, st, os, k - 1);
      var i, o := sv.open[k - 1], os[k - 1];
      AccountsUpTo(cfg, sv, st, os, k - 1);
      NotYetTriggered(cfg, sv, st.pass.slots, before.pass, k - 1);
      TurnTouches(cfg, sv, before, i, o);
      TurnTriggers(cfg, sv, before, i, o);
      HandledNext(cfg, sv, st, os, k);
      TouchesStep(before, HandleUpTo(cfg, sv, st, os, k), i.number);
    }
  }

  lemma NothingListed(st: State)
    requires Fresh(st.pass)
    ensures AllInFlight(st.host.issues, st.pass.report.triggered)
  {
  }

  lemma {:induction false} LogUpTo(cfg: Config, sv: Survey, st: State, os: seq<Outcome>, k: nat)
    requires |os| == |sv.open| && k <= |sv.open|
    ensures st.host.log <= HandleUpTo(cfg, sv, st, os, k).host.log
  {
    hide *;
    if k == 0 {
      HandleStart(cfg, sv, st, os);
    } else {
      LogUpTo(cfg, sv, st, os, k - 1);
      var before := HandleUpTo(cfg, sv, st, os, k - 1);
      TurnTouches(cfg, sv, before, sv.open[k - 1], os[k - 1]);
      HandledNext(cfg, sv, st, os, k);
      TouchesLog(before, HandleUpTo(cfg, sv, st, os, k), sv.open[k - 1].number);
    }
  }

  lemma TouchesLog(before: State, after: State, n: nat)
    requires Touches(before, after, n)
    ensures before.host.log <= after.host.log
  {
  }

  // ---------- issue by issue ----------

  /** What the first turns did to the labels, and that the log only grew. */
  ghost predicate LabelsSettled(base: State, now: State, open: seq<Issue>, k: nat)
    requires k <= |open|
  {
    base.host.log <= now.host.log && RestUntouched(base.host.issues, now.host.issues, open, k) &&
    SettlesAll(base.host.issues, now.host.issues, now.pass.report.triggered, CallsSince(base.host.log, now.host.log))
  }

  lemma LabelsNothing(st: State, open: seq<Issue>)
    requires Fresh(st.pass)
    ensures LabelsSettled(st, st, open, 0)
  {
  }

  lemma LabelsStep(base: State, before: State, after: State, open: seq<Issue>, k: nat)
    requires k < |open| && DistinctNumbers(open) && LabelsSettled(base, before, open, k)
    requires Relabels(before, after, open[k].number) && open[k].number !in before.pass.report.triggered
    requires after.pass.report.triggered in
             {before.pass.report.triggered, before.pass.report.triggered + [open[k].number]}
    ensures LabelsSettled(base, after, open, k + 1)
  {
    var n := open[k].number;
    var b, mid, now := base.host.issues, before.host.issues, after.host.issues;
    forall x | 0 <= x < |b|
      ensures Settles(b[x], now[x], after.pass.report.triggered, CallsSince(base.host.log, after.host.log))
      ensures !SeenUpTo(open, k + 1, b[x].number) ==> now[x] == b[x]
    {
      SeenNext(open, k, b[x].number);
      assert Settles(b[x], mid[x], before.pass.report.triggered, CallsSince(base.host.log, before.host.log));
      if CleanFor(CallsSince(base.host.log, after.host.log), b[x].number) {
        CleanLater(base.host.log, before.host.log, after.host.log, b[x].number);
      }
      hide CleanFor, SeenUpTo, CallsSince;
    }
  }

  lemma {:induction false} LabelsUpTo(cfg: Config, sv: Survey, st: State, os: seq<Outcome>, k: nat)
    requires |os| == |sv.open| && k <= |sv.open| && Fresh(st.pass)
    requires DistinctNumbers(sv.open) && NoNewFlags(st.host.issues, sv.open)
    ensures LabelsSettled(st, HandleUpTo(cfg, sv, st, os, k), sv.open, k)
  {
    hide *;
    if k == 0 {
      HandleStart(cfg, sv, st, os);
      LabelsNothing(st, sv.open);
    } else {
      LabelsUpTo(cfg, sv, st, os, k - 1);
      var before := HandleUpTo(cfg, sv, st, os, k - 1);
      var i, o := sv.open[k - 1], os[k - 1];
      AccountsUpTo(cfg, sv, st, os, k - 1);
      NotYetTriggered(cfg, sv, st.pass.slots, before.pass, k - 1);
      SettledRest(st, before, sv.open, k - 1);
      if Dispatchable(cfg, sv, i) { StillUnflagged(cfg, sv, st.host.issues, before.host.issues, k - 1); }
      TurnLabels(cfg, sv, before, i, o);
      TurnTriggers(cfg, sv, before, i, o);
      HandledNext(cfg, sv, st, os, k);
      LabelsStep(st, before, HandleUpTo(cfg, sv, st, os, k), sv.open, k - 1);
    }
  }

  lemma SettledRest(base: State, now: State, open: seq<Issue>, k: nat)
    requires k <= |open| && LabelsSettled(base, now, open, k)
    ensures RestUntouched(base.host.issues, now.host.issues, open, k)
  {
  }

  // ---------- housekeeping ----------

  predicate Cleared(open: seq<Issue>, links: seq<Option<nat>>, cleared: seq<bool>, n: nat)
    requires |cleared| == |links|
  {
    exists j :: 0 <= j < |links| && links[j] == Some(n) && cleared[j] && FlaggedIn(open, n)
  }

  /** Housekeeping removes the label from exactly the surveyed in-flight issues that some pull request names. */
  lemma {:induction false} HousekeepMeaning(open: seq<Issue>, host: Content, links: seq<Option<nat>>, cleared: seq<bool>)
    requires |cleared| == |links|
    ensures var r := Housekeep(open, host, links, cleared).issues;
            |r| == |host.issues| && forall k :: 0 <= k < |r| ==>
              r[k] == if Cleared(open, links, cleared, host.issues[k].number)
                      then host.issues[k].(labels := WithoutFlight(host.issues[k].labels)) else host.issues[k]
  {
    if links == [] {
    } else {
      var n := |links| - 1;
      HousekeepMeaning(open, host, links[..n], cleared[..n]);
      hide FlaggedIn;
      forall m: nat { ClearedNext(open, links, cleared, m); }
      hide Cleared;
    }
  }

  lemma ClearedNext(open: seq<Issue>, links: seq<Option<nat>>, cleared: seq<bool>, m: nat)
    requires |cleared| == |links| > 0
    ensures var n := |links| - 1;
            Cleared(open, links, cleared, m) <==>
            Cleared(open, links[..n], cleared[..n], m) || (links[n] == Some(m) && cleared[n] && FlaggedIn(open, m))
  {
    var n := |links| - 1;
    hide FlaggedIn;
    if j :| 0 <= j < |links| && links[j] == Some(m) && cleared[j] && FlaggedIn(open, m) {
      if j < n { assert links[..n][j] == Some(m) && cleared[..n][j]; }
    }
    if j :| 0 <= j < n && links[..n][j] == Some(m) && cleared[..n][j] && FlaggedIn(open, m) {
      assert links[j] == Some(m) && cleared[j];
    }
  }

  lemma HousekeptNoNewFlags(open: seq<Issue>, host: Content, links: seq<Option<nat>>, cleared: seq<bool>)
    requires |cleared| == |links| && DistinctNumbers(open) && host.issues == open
    ensures NoNewFlags(Housekeep(open, host, links, cleared).issues, open) && NoNewFlags(open, open)
  {
    HousekeepMeaning(open, host, links, cleared);
    var r := Housekeep(open, host, links, cleared).issues;
    hide Housekeep, Cleared;
    forall j, i | j in r && i in open && j.number == i.number && InFlight in j.labels ensures InFlight in i.labels {
      var k :| 0 <= k < |r| && r[k] == j;
      FindDistinct(open, i);
      FindDistinct(open, open[k]);
    }
    forall j, i | j in open && i in open && j.number == i.number ensures j == i {
      FindDistinct(open, i);
      FindDistinct(open, j);
    }
  }

  // ---------- a cycle ----------

  /** The calls of one cycle. */
  function CycleCalls(cfg: Config, sv: Survey, host: Content, soft: map<nat, int>, a: Answers): seq<Call>
    requires Fits(cfg, sv, a)
  {
    LogGrows(cfg, sv, host, soft, a);
    CallsSince(host.log, RunCycle(cfg, sv, host, soft, a).host.log)
  }

  lemma LogGrows(cfg: Config, sv: Survey, host: Content, soft: map<nat, int>, a: Answers)
    requires Fits(cfg, sv, a)
    ensures host.log <= Prepared(cfg, sv, host, soft, a).host.log <= RunCycle(cfg, sv, host, soft, a).host.log
  {
    PreparedIsFresh(cfg, sv, host, soft, a);
    LogUpTo(cfg, sv, Prepared(cfg, sv, host, soft, a), a.outcomes, |sv.open|);
    hide HandleUpTo, Prepared;
  }

  /**
   * After a cycle that surveyed the host as it was, each issue carries the labels that the housekeeping left, or those
   * and the in-flight label. It has the label for sure if it was triggered; if it was not and the calls about its own
   * label went well, its labels are as the housekeeping left them, whatever became of other issues.
   */
  lemma CycleLabels(cfg: Config, sv: Survey, host: Content, soft: map<nat, int>, a: Answers)
    requires Fits(cfg, sv, a) && sv.open == host.issues && DistinctNumbers(sv.open)
    ensures var s := RunCycle(cfg, sv, host, soft, a);
            SettlesAll(Tidied(cfg, sv, host, a).issues, s.host.issues, s.pass.report.triggered,
                       CycleCalls(cfg, sv, host, soft, a))
  {
    PreparedIsFresh(cfg, sv, host, soft, a);
    if cfg.dryRun { HousekeptNoNewFlags(sv.open, host, [], []); }
    else { HousekeptNoNewFlags(sv.open, Logged(host, SurveyCalls(a)), Links(sv), a.cleared); }
    var st := Prepared(cfg, sv, host, soft, a);
    assert NoNewFlags(st.host.issues, sv.open);
    CycleIsLoop(cfg, sv, host, soft, a);
    LogGrows(cfg, sv, host, soft, a);
    LabelsUpTo(cfg, sv, st, a.outcomes, |sv.open|);
    var s := RunCycle(cfg, sv, host, soft, a);
    hide Prepared, HandleUpTo, Housekeep, NoNewFlags, RunCycle, Tidied;
    var base := Tidied(cfg, sv, host, a).issues;
    forall x | 0 <= x < |base|
      ensures Settles(base[x], s.host.issues[x], s.pass.report.triggered, CycleCalls(cfg, sv, host, soft, a))
    {
      assert Settles(base[x], s.host.issues[x], s.pass.report.triggered, CallsSince(st.host.log, s.host.log));
      if CleanFor(CycleCalls(cfg, sv, host, soft, a), base[x].number) {
        CleanLater(host.log, st.host.log, s.host.log, base[x].number);
      }
      hide CleanFor;
    }
  }

  /** Whatever fails, every issue on the host that a cycle triggered carries the in-flight label afterwards. */
  lemma TriggeredAreInFlight(cfg: Config, sv: Survey, host: Content, soft: map<nat, int>, a: Answers)
    requires Fits(cfg, sv, a) && DistinctNumbers(sv.open)
    ensures var s := RunCycle(cfg, sv, host, soft, a); AllInFlight(s.host.issues, s.pass.report.triggered)
  {
    PreparedIsFresh(cfg, sv, host, soft, a);
    CycleIsLoop(cfg, sv, host, soft, a);
    InFlightUpTo(cfg, sv, Prepared(cfg, sv, host, soft, a), a.outcomes, |sv.open|);
    hide *;
  }
}
