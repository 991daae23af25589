/** The calendar reconcile as it runs: writes are sent one by one and the first failed write ends the run. */
module CalendarRun {
  import opened Options
  import opened Text
  import opened CalendarTitles
  import opened CalendarSlots
  import opened ReconcilePlan
  import opened Convergence

  ghost predicate RecordsDecisions(m: map<string, Event>, events: seq<Event>) {
    forall cid :: if cid in m then LastWith(events, cid) == Some(m[cid]) else LastWith(events, cid) == None
  }

  /** The map from ids to decisions; a later decision replaces an earlier one. */
  method MapDecisions(events: seq<Event>) returns (m: map<string, Event>)
    ensures RecordsDecisions(m, events)
  {
    m := map[];
    for k := 0 to |events|
      invariant RecordsDecisions(m, events[..k])
    {
      var e := events[k];
      assert events[..k + 1][..k] == events[..k];
      if IsDecision(e) && e.conductrId.Some? {
        m := m[e.conductrId.value := e];
      }
    }
    assert events[..|events|] == events;
  }

  lemma PrefixOfPlan(c: Setting, n0: nat, issues: seq<HumanIssue>, k: nat)
    requires k <= |issues|
    ensures Processed(c, n0, issues[..k]).ops <= Plan(c, n0, issues).ops
  {
    ProcessedExtends(c, n0, issues, k);
    SweepExtends(c, issues, Processed(c, n0, issues), c.events);
  }

  lemma PrefixOfSweep(c: Setting, issues: seq<HumanIssue>, r: Run, seen: seq<Event>, k: nat)
    requires k <= |seen|
    ensures Sweep(c, issues, r, seen[..k]).ops <= Sweep(c, issues, r, seen).ops
    decreases |seen|
  {
    if k == |seen| {
      assert seen[..k] == seen;
    } else {
      assert seen[..|seen| - 1][..k] == seen[..k];
      PrefixOfSweep(c, issues, r, seen[..|seen| - 1], k);
      hide Orphan;
    }
  }

  /** The writes were sent in this order, and all went well. */
  function AllSent(ops: seq<Op>): seq<Sent> {
    seq(|ops|, k requires 0 <= k < |ops| => Sent(ops[k], true, true))
  }

  /** A run that has sent the writes `r.ops`, all of which went well. */
  ghost predicate InStep(cal: Calendar, c: Setting, r: Run, log0: seq<Sent>)
    reads cal
  {
    cal.Valid() && cal.nextId == r.nextId && cal.events == ApplyAll(c.events, r.ops) && cal.log == log0 + AllSent(r.ops)
  }

  /**
   * The writes `ops` were sent from the first one on, all but the last one sent went well, and that one failed; the
   * calendar is what they made of it.
   */
  ghost predicate Stopped(events: seq<Event>, log: seq<Sent>, start: seq<Event>, log0: seq<Sent>, ops: seq<Op>) {
    |log0| < |log| <= |log0| + |ops| &&
    var n, last := |log| - |log0| - 1, log[|log| - 1];
    log == log0 + AllSent(ops[..n]) + [last] && last.op == ops[n] && !last.ok &&
    events == ApplyAll(start, ops[..if last.landed then n + 1 else n])
  }

  lemma StoppedPrefix(events: seq<Event>, log: seq<Sent>, start: seq<Event>, log0: seq<Sent>, ops: seq<Op>, all: seq<Op>)
    requires Stopped(events, log, start, log0, ops) && ops <= all
    ensures Stopped(events, log, start, log0, all)
  {
    var n := |log| - |log0| - 1;
    assert all[..n] == ops[..n] && all[..n + 1] == ops[..n + 1];
  }

  /** What one more write does to log and calendar. */
  lemma SentNext(start: seq<Event>, log0: seq<Sent>, ops: seq<Op>, op: Op, ok: bool, landed: bool)
    requires ok ==> landed
    ensures var events := ApplyAll(start, ops);
            var after := if landed then Apply(events, op) else events;
            var log := log0 + AllSent(ops) + [Sent(op, ok, landed)];
            if ok then after == ApplyAll(start, ops + [op]) && log == log0 + AllSent(ops + [op])
            else Stopped(after, log, start, log0, ops + [op])
  {
    var all := ops + [op];
    assert all[..|ops|] == ops && all[..|ops| + 1] == all;
    ApplySnoc(start, ops, op);
    assert AllSent(all) == AllSent(ops) + [Sent(op, true, true)];
  }

  /** Deletes one event; a dry run only reports it. */
  method DropDecision(cal: Calendar, c: Setting, r: Run, e: Event, ghost log0: seq<Sent>) returns (ok: bool, next: Run)
    requires InStep(cal, c, r, log0)
    modifies cal
    ensures next == Drop(c, r, e) && cal.Valid()
    ensures if ok then InStep(cal, c, next, log0) else Stopped(cal.events, cal.log, c.events, log0, next.ops)
  {
    ok := true;
    next := Drop(c, r, e);
    if !c.dry {
      ghost var landed;
      ok, landed := cal.DeleteEvent(e.id);
      SentNext(c.events, log0, r.ops, Delete(e.id), ok, landed);
    }
  }

  /** Finds a slot for an issue and creates its decision. */
  method PlaceDecision(cal: Calendar, c: Setting, r: Run, issue: HumanIssue, ghost log0: seq<Sent>) returns (ok: bool, next: Run)
    requires InStep(cal, c, r, log0)
    modifies cal
    ensures next == Place(c, r, issue) && cal.Valid()
    ensures if ok then InStep(cal, c, next, log0) else Stopped(cal.events, cal.log, c.events, log0, next.ops)
  {
    ok := true;
    var slots := ComputeAvailableSlots(ViewOf(c, r.occupied));
    var found := FirstMatching(slots, c.tag);
    next := Place(c, r, issue);
    if found.Some? && !c.dry {
      var sl := found.value;
      ghost var landed;
      var id;
      ok, landed, id := cal.CreateEvent(DecisionTitle(c.tag, issue.title), sl.start, sl.end, Dec(issue.number), sl.start);
      SentNext(c.events, log0, r.ops, Create(NewEvent(c, issue, sl, r.nextId)), ok, landed);
    }
  }

  lemma StepCases(c: Setting, r: Run, issue: HumanIssue)
    ensures var found := LastWith(c.events, Dec(issue.number));
            Step(c, r, issue) ==
            if found.None? then Place(c, r, issue)
            else if Keeps(c, found.value) then Keep(r, issue, found.value)
            else Place(c, Drop(c, r, found.value), issue)
  {
    hide Place, Drop, Keeps, LastWith, Dec, Keep;
  }

  lemma KeepWrites(r: Run, issue: HumanIssue, e: Event)
    ensures Keep(r, issue, e).ops == r.ops && Keep(r, issue, e).nextId == r.nextId
  {
  }

  /** One turn of the loop over the issues. */
  method ReconcileIssue(cal: Calendar, c: Setting, decisions: map<string, Event>, r: Run, issue: HumanIssue,
      ghost log0: seq<Sent>)
    returns (ok: bool, next: Run)
    requires RecordsDecisions(decisions, c.events) && InStep(cal, c, r, log0)
    modifies cal
    ensures cal.Valid()
    ensures if ok then next == Step(c, r, issue) && InStep(cal, c, next, log0)
            else Stopped(cal.events, cal.log, c.events, log0, Step(c, r, issue).ops)
  {
    StepCases(c, r, issue);
    hide Place, Drop, Keeps, LastWith, Dec, ApplyAll, FreshIds, Step, Keep, Stopped;
    var cid := Dec(issue.number);
    if cid in decisions {
      assert LastWith(c.events, cid) == Some(decisions[cid]);
      if Keeps(c, decisions[cid]) {
        next := Keep(r, issue, decisions[cid]);
        KeepWrites(r, issue, decisions[cid]);
        ok := true;
      } else {
        ok, next := ReplaceDecision(cal, c, r, decisions[cid], issue, log0);
      }
    } else {
      ok, next := PlaceDecision(cal, c, r, issue, log0);
    }
  }

  /** Deletes the stale decision of an issue and finds it a new slot. */
  method ReplaceDecision(cal: Calendar, c: Setting, r: Run, e: Event, issue: HumanIssue, ghost log0: seq<Sent>)
    returns (ok: bool, next: Run)
    requires InStep(cal, c, r, log0)
    modifies cal
    ensures cal.Valid()
    ensures if ok then next == Place(c, Drop(c, r, e), issue) && InStep(cal, c, next, log0)
            else Stopped(cal.events, cal.log, c.events, log0, Place(c, Drop(c, r, e), issue).ops)
  {
    hide Place, Drop, InStep, Stopped;
    ok, next := DropDecision(cal, c, r, e, log0);
    if ok {
      ok, next := PlaceDecision(cal, c, next, issue, log0);
    } else {
      PlaceExtends(c, next, issue);
      StoppedPrefix(cal.events, cal.log, c.events, log0, next.ops, Place(c, next, issue).ops);
    }
  }

  lemma SweepNext(c: Setting, issues: seq<HumanIssue>, r0: Run, r: Run, k: nat)
    requires k < |c.events| && r == Sweep(c, issues, r0, c.events[..k])
    ensures Sweep(c, issues, r0, c.events[..k + 1]) == if Orphan(issues, r, c.events[k]) then Drop(c, r, c.events[k]) else r
  {
    hide Orphan, Drop;
    assert c.events[..k + 1][..k] == c.events[..k];
  }

  /** One turn of the sweep. */
  method SweepEvent(cal: Calendar, c: Setting, issues: seq<HumanIssue>, r0: Run, r: Run, k: nat, ghost log0: seq<Sent>)
    returns (ok: bool, next: Run)
    requires InStep(cal, c, r, log0) && k < |c.events| && r == Sweep(c, issues, r0, c.events[..k])
    modifies cal
    ensures cal.Valid()
    ensures if ok then next == Sweep(c, issues, r0, c.events[..k + 1]) && InStep(cal, c, next, log0)
            else Stopped(cal.events, cal.log, c.events, log0, Sweep(c, issues, r0, c.events).ops)
  {
    var e := c.events[k];
    SweepNext(c, issues, r0, r, k);
    PrefixOfSweep(c, issues, r0, c.events, k + 1);
    assert cal.Valid();
    hide Orphan, Drop, Sweep, InStep, Stopped;
    if Orphan(issues, r, e) {
      ok, next := DropDecision(cal, c, r, e, log0);
      if !ok { StoppedPrefix(cal.events, cal.log, c.events, log0, next.ops, Sweep(c, issues, r0, c.events).ops); }
    } else {
      ok, next := true, r;
    }
  }

  /** The sweep of decisions whose issue is no longer open. */
  method SweepOrphans(cal: Calendar, c: Setting, issues: seq<HumanIssue>, r0: Run, ghost log0: seq<Sent>)
    returns (ok: bool, r: Run)
    requires InStep(cal, c, r0, log0)
    modifies cal
    ensures cal.Valid()
    ensures var all := Sweep(c, issues, r0, c.events);
            if ok then r == all && InStep(cal, c, r, log0) else Stopped(cal.events, cal.log, c.events, log0, all.ops)
  {
    r := r0;
    ok := true;
    for k := 0 to |c.events|
      invariant ok && InStep(cal, c, r, log0) && r == Sweep(c, issues, r0, c.events[..k])
    {
      ok, r := SweepEvent(cal, c, issues, r0, r, k, log0);
      if !ok { return; }
    }
    assert c.events[..|c.events|] == c.events;
  }

  /**
   * A whole reconcile. It fails exactly if a write failed. The writes are those of the plan in its order, up to and with
   * the first that failed; the calendar holds what they made of it, and after a successful run the report is the plan's.
   */
  method Reconcile(cal: Calendar, issues: seq<HumanIssue>, tag: Option<string>, now: int, dry: bool)
    returns (ok: bool, report: SyncReport, ghost sorted: seq<HumanIssue>)
    requires cal.Valid()
    modifies cal
    ensures cal.Valid() && Prioritised(sorted, issues)
    ensures ok <==> forall k :: |old(cal.log)| <= k < |cal.log| ==> cal.log[k].ok
    ensures var plan := Plan(Setting(old(cal.events), tag, now, dry), old(cal.nextId), sorted);
            if ok then
              report == plan.report && cal.events == ApplyAll(old(cal.events), plan.ops) && cal.nextId == plan.nextId &&
              cal.log == old(cal.log) + AllSent(plan.ops)
            else Stopped(cal.events, cal.log, old(cal.events), old(cal.log), plan.ops)
    ensures !dry ==> Reconciled(old(cal.State()), cal.State(), Attempt(issues, tag, now), ok)
  {
    var c := Setting(cal.events, tag, now, dry);
    ghost var before, n0, log0 := cal.State(), cal.nextId, cal.log;
    var order := SortIssues(issues);
    sorted := order;
    var decisions := MapDecisions(c.events);
    var r := Run([], [], cal.nextId, SyncReport([], [], [], []));
    report := r.report;
    ok := true;
    assert log0 + AllSent([]) == log0;
    for k := 0 to |order|
      invariant ok && InStep(cal, c, r, log0) && r == Processed(c, n0, order[..k])
    {
      ProcessedPrefix(c, n0, order, k);
      PrefixOfPlan(c, n0, order, k + 1);
      ok, r := ReconcileIssue(cal, c, decisions, r, order[k], log0);
      if !ok {
        StoppedPrefix(cal.events, cal.log, c.events, log0, Processed(c, n0, order[..k + 1]).ops, Plan(c, n0, order).ops);
        if !dry { WasCarried(before, cal.State(), Attempt(issues, tag, now), ok, order); }
        return;
      }
    }
    assert order[..|order|] == order;
    ok, r := SweepOrphans(cal, c, order, r, log0);
    report := r.report;
    if !dry { WasCarried(before, cal.State(), Attempt(issues, tag, now), ok, order); }
  }

  // ---------- what the priority counts ----------

  /** How many other issues depend on issue `n`. */
  function OtherDependents(issues: seq<HumanIssue>, n: nat): nat {
    if issues == [] then 0
    else
      var last := issues[|issues| - 1];
      OtherDependents(issues[..|issues| - 1], n) + if last.number != n && n in last.deps then 1 else 0
  }

  ghost predicate NamesItself(issues: seq<HumanIssue>, n: nat) {
    exists i :: i in issues && i.number == n && n in i.deps
  }

  lemma {:induction false} SelfCounted(issues: seq<HumanIssue>, n: nat)
    requires Distinct(issues)
    ensures Dependents(issues, n) == OtherDependents(issues, n) + if NamesItself(issues, n) then 1 else 0
  {
    if issues == [] {
    } else {
      var k := |issues| - 1;
      var last := issues[k];
      SelfCounted(issues[..k], n);
      assert issues == issues[..k] + [last];
      assert last.number == n ==> !NamesItself(issues[..k], n);
    }
  }

  /** The priority of a listed issue is the number of other issues that depend on it exactly if it does not name itself. */
  lemma PriorityCountsOthersExactlyWhen(issues: seq<HumanIssue>, i: HumanIssue)
    requires Distinct(issues) && i in issues
    ensures Dependents(issues, i.number) == OtherDependents(issues, i.number) <==> i.number !in i.deps
  {
    SelfCounted(issues, i.number);
    forall j | j in issues && j.number == i.number ensures j == i {
      var a :| 0 <= a < |issues| && issues[a] == i;
      var b :| 0 <= b < |issues| && issues[b] == j;
    }
    hide Dependents, OtherDependents;
  }

  /** No issue depends on another, yet the one that names itself is put before the one with the lower number. */
  lemma SelfNamedComesFirst()
    ensures var plain, selfish := HumanIssue(1, "", {}), HumanIssue(2, "", {2});
            var issues := [plain, selfish];
            OtherDependents(issues, 2) == OtherDependents(issues, 1) == 0 &&
            Outranks(issues, selfish, plain) && !Outranks(issues, plain, selfish)
  {
    var plain, selfish := HumanIssue(1, "", {}), HumanIssue(2, "", {2});
    var issues := [plain, selfish];
    assert [] + [plain] == [plain] && [plain] + [selfish] == issues;
    forall n: nat
      ensures Dependents(issues, n) == if n == 2 then 1 else 0
      ensures n == 1 || n == 2 ==> OtherDependents(issues, n) == 0
    {
      DependentsSnoc([], plain, n);
      DependentsSnoc([plain], selfish, n);
    }
    hide Dependents, OtherDependents;
  }

  lemma DependentsSnoc(issues: seq<HumanIssue>, last: HumanIssue, n: nat)
    ensures Dependents(issues + [last], n) == Dependents(issues, n) + if n in last.deps then 1 else 0
    ensures OtherDependents(issues + [last], n) ==
            OtherDependents(issues, n) + if last.number != n && n in last.deps then 1 else 0
  {
    assert (issues + [last])[..|issues|] == issues;
  }

  // ---------- the order of the issues ----------

  lemma DistinctMembers(s: seq<HumanIssue>, t: seq<HumanIssue>)
    requires Distinct(s) && multiset(s) == multiset(t)
    ensures forall a, b :: a in t && b in t && a.number == b.number ==> a == b
    ensures Distinct(t)
  {
    forall a, b | a in t && b in t && a.number == b.number ensures a == b {
      assert a in multiset(s) && b in multiset(s);
      var i :| 0 <= i < |s| && s[i] == a;
      var j :| 0 <= j < |s| && s[j] == b;
    }
    forall i, j | 0 <= i < j < |t| ensures t[i].number != t[j].number {
      if t[i].number == t[j].number {
        Twice(t, i, j);
        Once(s, t[i]);
      }
    }
  }

  lemma Twice(t: seq<HumanIssue>, i: nat, j: nat)
    requires i < j < |t| && t[i] == t[j]
    ensures multiset(t)[t[i]] >= 2
  {
    assert t == t[..i] + [t[i]] + t[i + 1..j] + [t[j]] + t[j + 1..];
  }

  lemma {:induction false} Once(s: seq<HumanIssue>, x: HumanIssue)
    requires Distinct(s)
    ensures multiset(s)[x] <= 1
  {
    if s == [] {
    } else {
      assert s == [s[0]] + s[1..];
      Once(s[1..], x);
      if s[0] == x {
        assert x !in s[1..];
      }
    }
  }

  /** The priority order of issues with distinct numbers is unique, so repeated runs process them in one order. */
  lemma {:induction false} PriorityOrderIsUnique(all: seq<HumanIssue>, s: seq<HumanIssue>, t: seq<HumanIssue>)
    requires Distinct(s) && multiset(s) == multiset(t)
    requires forall i, j :: 0 <= i < j < |s| ==> Outranks(all, s[i], s[j])
    requires forall i, j :: 0 <= i < j < |t| ==> Outranks(all, t[i], t[j])
    ensures s == t
  {
    assert |s| == |multiset(s)| == |multiset(t)| == |t|;
    if s == [] {
    } else {
      SameHead(all, s, t);
      TailOf(s);
      TailOf(t);
      DistinctTail(s);
      hide Outranks, Distinct;
      PriorityOrderIsUnique(all, s[1..], t[1..]);
    }
  }

  lemma TailOf(s: seq<HumanIssue>)
    requires s != []
    ensures s == [s[0]] + s[1..] && multiset(s[1..]) == multiset(s) - multiset{s[0]}
  {
    assert s == [s[0]] + s[1..];
  }

  lemma DistinctTail(s: seq<HumanIssue>)
    requires Distinct(s) && s != []
    ensures Distinct(s[1..])
  {
  }

  lemma SameHead(all: seq<HumanIssue>, s: seq<HumanIssue>, t: seq<HumanIssue>)
    requires Distinct(s) && multiset(s) == multiset(t) && s != [] && t != []
    requires forall i, j :: 0 <= i < j < |s| ==> Outranks(all, s[i], s[j])
    requires forall i, j :: 0 <= i < j < |t| ==> Outranks(all, t[i], t[j])
    ensures s[0] == t[0]
  {
    DistinctMembers(s, t);
    assert s[0] in multiset(t) && t[0] in multiset(s);
    var j :| 0 <= j < |t| && t[j] == s[0];
    var i :| 0 <= i < |s| && s[i] == t[0];
  }

  lemma OrderIsFixed(issues: seq<HumanIssue>, s: seq<HumanIssue>, t: seq<HumanIssue>)
    requires Distinct(issues) && Prioritised(s, issues) && Prioritised(t, issues)
    ensures s == t && Distinct(s)
  {
    DistinctMembers(issues, s);
    PriorityOrderIsUnique(issues, s, t);
  }

  // ---------- repeated reconciles as they run ----------

  /** What a reconcile is started with. */
  datatype Attempt = Attempt(issues: seq<HumanIssue>, tag: Option<string>, now: int)

  /** A reconcile that is no dry run took the calendar from `before` to `after`; `ok` says whether it ran through. */
  ghost predicate Reconciled(before: CalendarState, after: CalendarState, at: Attempt, ok: bool) {
    FreshIds(after.events, after.nextId) && exists sorted :: Carried(before, after, at, ok, sorted)
  }

  ghost predicate Carried(before: CalendarState, after: CalendarState, at: Attempt, ok: bool, sorted: seq<HumanIssue>) {
    Prioritised(sorted, at.issues) &&
    var plan := Plan(SettingOf(before, at), before.nextId, sorted);
    if ok then after == CalendarState(ApplyAll(before.events, plan.ops), plan.nextId, before.log + AllSent(plan.ops))
    else Stopped(after.events, after.log, before.events, before.log, plan.ops)
  }

  lemma WasCarried(before: CalendarState, after: CalendarState, at: Attempt, ok: bool, sorted: seq<HumanIssue>)
    requires FreshIds(after.events, after.nextId) && Prioritised(sorted, at.issues)
    requires var plan := Plan(Setting(before.events, at.tag, at.now, false), before.nextId, sorted);
             if ok then after.events == ApplyAll(before.events, plan.ops) && after.nextId == plan.nextId &&
               after.log == before.log + AllSent(plan.ops)
             else Stopped(after.events, after.log, before.events, before.log, plan.ops)
    ensures Reconciled(before, after, at, ok)
  {
    hide FreshIds, Prioritised, Plan, Stopped, ApplyAll;
    assert Carried(before, after, at, ok, sorted);
  }

  function SettingOf(state: CalendarState, at: Attempt): Setting {
    Setting(state.events, at.tag, at.now, false)
  }

  /** A tag whose titles are read back, and issues with distinct numbers. */
  ghost predicate Usable(at: Attempt) {
    UsableTag(at.tag) && Distinct(at.issues)
  }

  /** One decision per issue, and ids that tell events apart. */
  ghost predicate Sound(state: CalendarState) {
    FreshIds(state.events, state.nextId) && OneEach(state.events)
  }

  /** Reconciles one after the other, whether they ran through or stopped at a failed write. */
  ghost predicate History(states: seq<CalendarState>, attempts: seq<Attempt>, oks: seq<bool>) {
    |states| == |attempts| + 1 == |oks| + 1 &&
    (forall k :: 0 <= k < |attempts| ==> Usable(attempts[k])) &&
    forall k :: 0 <= k < |attempts| ==> Reconciled(states[k], states[k + 1], attempts[k], oks[k])
  }

  /** A reconcile keeps one decision per issue, even if it stops at a failed write. */
  lemma StaysSound(before: CalendarState, after: CalendarState, at: Attempt, ok: bool)
    requires Sound(before) && Usable(at) && Reconciled(before, after, at, ok)
    ensures Sound(after)
  {
    var sorted :| Carried(before, after, at, ok, sorted);
    hide Distinct, OneEach, FreshIds, UsableTag, Outranks, Plan, ApplyAll, Outcome;
    DistinctMembers(at.issues, sorted);
    var n := TookEffect(before, after, at, ok, sorted);
    OneDecisionPerIssue(SettingOf(before, at), before.nextId, sorted, n);
  }

  /** How many of the writes of a reconcile took effect. */
  lemma TookEffect(before: CalendarState, after: CalendarState, at: Attempt, ok: bool, sorted: seq<HumanIssue>) returns (n: nat)
    requires Carried(before, after, at, ok, sorted)
    ensures var c := SettingOf(before, at);
            n <= |Plan(c, before.nextId, sorted).ops| && after.events == Outcome(c, before.nextId, sorted, n)
  {
    hide Prioritised, Plan, ApplyAll;
    var ops := Plan(SettingOf(before, at), before.nextId, sorted).ops;
    assert ops[..|ops|] == ops;
    n := if ok then |ops|
         else |after.log| - |before.log| - if after.log[|after.log| - 1].landed then 0 else 1;
  }

  lemma {:induction false} SoundThroughout(states: seq<CalendarState>, attempts: seq<Attempt>, oks: seq<bool>, k: nat)
    requires History(states, attempts, oks) && k < |states| && Sound(states[0])
    ensures Sound(states[k])
  {
    hide Sound, Usable, Reconciled;
    if k == 0 {
    } else {
      SoundThroughout(states, attempts, oks, k - 1);
      assert Usable(attempts[k - 1]) && Reconciled(states[k - 1], states[k - 1 + 1], attempts[k - 1], oks[k - 1]);
      StaysSound(states[k - 1], states[k], attempts[k - 1], oks[k - 1]);
    }
  }

  /** The issues are always handled in the one priority order. */
  lemma CarriedInOrder(before: CalendarState, after: CalendarState, at: Attempt, sorted: seq<HumanIssue>)
    requires Usable(at) && Reconciled(before, after, at, true) && Prioritised(sorted, at.issues)
    ensures var c := SettingOf(before, at);
            var plan := Plan(c, before.nextId, sorted);
            Distinct(sorted) && after.nextId == plan.nextId && Follows(c, before.nextId, sorted, SettingOf(after, at)) &&
            after.events == ApplyAll(before.events, plan.ops) && after.log == before.log + AllSent(plan.ops)
  {
    var other :| Carried(before, after, at, true, other);
    hide Distinct, FreshIds, Plan, ApplyAll, Outranks, UsableTag;
    OrderIsFixed(at.issues, sorted, other);
  }

  lemma CarriedFirst(before: CalendarState, after: CalendarState, at: Attempt) returns (sorted: seq<HumanIssue>)
    requires Reconciled(before, after, at, true)
    ensures Prioritised(sorted, at.issues)
  {
    sorted :| Carried(before, after, at, true, sorted);
    hide Plan, ApplyAll, FreshIds, Prioritised;
  }

  /** Of three like reconciles in a row that run through, the second deletes nothing and the third sends nothing. */
  lemma ThirdSendsNothing(s0: CalendarState, s1: CalendarState, s2: CalendarState, s3: CalendarState, at: Attempt)
    requires Sound(s0) && Usable(at)
    requires Reconciled(s0, s1, at, true) && Reconciled(s1, s2, at, true) && Reconciled(s2, s3, at, true)
    ensures s3.log == s2.log && s3.events == s2.events
    ensures s1.log <= s2.log && forall j :: |s1.log| <= j < |s2.log| ==> s2.log[j].op.Create?
    ensures Settled(s1.events, at.issues, at.tag)
  {
    var sorted := CarriedFirst(s0, s1, at);
    CarriedInOrder(s0, s1, at, sorted);
    CarriedInOrder(s1, s2, at, sorted);
    CarriedInOrder(s2, s3, at, sorted);
    var c0, c1, c2 := SettingOf(s0, at), SettingOf(s1, at), SettingOf(s2, at);
    assert Ready(c0, s0.nextId) && c0.tag == at.tag && c1.events == s1.events by { hide OneEach, FreshIds, UsableTag, Distinct; }
    assert SameEvents(s1.events, Final(c0, s0.nextId, sorted)) by { hide Plan, ApplyAll; }
    hide *;
    Converges(c0, s0.nextId, sorted, c1, c2, s2.nextId);
    SettlesAs(c0, s0.nextId, sorted, s1.events);
    SettledAlike(s1.events, sorted, at.issues, at.tag);
    NoneSent(s2, s3, Plan(c2, s2.nextId, sorted).ops);
    OnlyCreated(s1, s2, Plan(c1, s1.nextId, sorted).ops);
  }

  lemma SettledAlike(events: seq<Event>, a: seq<HumanIssue>, b: seq<HumanIssue>, tag: Option<string>)
    requires Settled(events, a, tag) && Prioritised(a, b)
    ensures Settled(events, b, tag)
  {
    hide InEligibleWindow, Dec, Outranks;
    forall e | e in events && Owned(e) ensures OpenFor(b, e.conductrId.value) {
      var i :| i in a && Dec(i.number) == e.conductrId.value;
      assert i in multiset(a);
      assert i in b;
    }
  }

  lemma NoneSent(before: CalendarState, after: CalendarState, ops: seq<Op>)
    requires ops == [] && after.events == ApplyAll(before.events, ops) && after.log == before.log + AllSent(ops)
    ensures after.log == before.log && after.events == before.events
  {
  }

  lemma OnlyCreated(before: CalendarState, after: CalendarState, ops: seq<Op>)
    requires NoDeletes(ops) && after.log == before.log + AllSent(ops)
    ensures before.log <= after.log && forall j :: |before.log| <= j < |after.log| ==> after.log[j].op.Create?
  {
    forall j | |before.log| <= j < |after.log| ensures after.log[j].op.Create? {
      assert after.log[j] == AllSent(ops)[j - |before.log|];
    }
  }

  /**
   * From a calendar with one decision per issue, through any number of reconciles with any of their writes failing: each
   * issue keeps at most one decision, and whenever three like reconciles in a row run through, the third sends nothing.
   */
  lemma ReconcilesSettle(states: seq<CalendarState>, attempts: seq<Attempt>, oks: seq<bool>, k: nat)
    requires History(states, attempts, oks) && Sound(states[0]) && k + 3 <= |attempts|
    requires attempts[k] == attempts[k + 1] == attempts[k + 2] && oks[k] && oks[k + 1] && oks[k + 2]
    ensures forall j :: 0 <= j < |states| ==> OneEach(states[j].events)
    ensures states[k + 3].log == states[k + 2].log && states[k + 3].events == states[k + 2].events
    ensures Settled(states[k + 1].events, attempts[k].issues, attempts[k].tag)
  {
    hide OneEach, FreshIds, Usable, Reconciled, Settled;
    forall j | 0 <= j < |states| ensures OneEach(states[j].events) { SoundThroughout(states, attempts, oks, j); }
    SoundThroughout(states, attempts, oks, k);
    hide Sound;
    assert Reconciled(states[k], states[k + 1], attempts[k], oks[k]);
    assert Reconciled(states[k + 1], states[k + 1 + 1], attempts[k + 1], oks[k + 1]);
    assert Reconciled(states[k + 2], states[k + 2 + 1], attempts[k + 2], oks[k + 2]);
    ThirdSendsNothing(states[k], states[k + 1], states[k + 2], states[k + 3], attempts[k]);
  }
}
