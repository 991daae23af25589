/**
 * Reconciling decision slots with the open issues that need a human (`reconcile.rs`): one run keeps, deletes and
 * creates decision events. A run is described by the writes it sends and the report it returns.
 */
module ReconcilePlan {
  import opened Options
  import opened Text
  import opened Ordered
  import opened CalendarTitles
  import opened CalendarSlots

  /** An open issue that needs a human; `deps` are the issue numbers its body names as dependencies. */
  datatype HumanIssue = HumanIssue(number: nat, title: string, deps: set<nat>)

  datatype Op = Delete(id: nat) | Create(event: Event)

  datatype SyncReport = SyncReport(added: seq<nat>, kept: seq<nat>, deleted: seq<nat>, unschedulable: seq<nat>)

  /** Progress of a run: occupied identities, writes so far, the host's next event id, and the report. */
  datatype Run = Run(occupied: seq<Key>, ops: seq<Op>, nextId: nat, report: SyncReport)

  /** What stays fixed during a run: the snapshot, the project tag, the clock, and whether writes are sent. */
  datatype Setting = Setting(events: seq<Event>, tag: Option<string>, now: int, dry: bool)

  // ---------- the snapshot ----------

  predicate IsBlocker(e: Event) { e.kind.Blocked? }

  predicate IsDecision(e: Event) { e.kind.Decision? }

  predicate IsScheduled(e: Event) { e.kind.IsScheduledItem() }

  function Select(events: seq<Event>, want: Event -> bool): (r: seq<Event>)
    ensures forall e :: e in r <==> e in events && want(e)
  {
    if events == [] then [] else (if want(events[0]) then [events[0]] else []) + Select(events[1..], want)
  }

  /** The view of one slot search of a run. */
  function ViewOf(c: Setting, occupied: seq<Key>): View {
    View(Select(c.events, IsWindow), Select(c.events, IsBlocker), Select(c.events, IsScheduled), occupied, c.now)
  }

  predicate Identified(e: Event, cid: string) {
    IsDecision(e) && e.conductrId == Some(cid)
  }

  /** The decision recorded for an id: a later one replaces an earlier one. */
  function LastWith(events: seq<Event>, cid: string): (r: Option<Event>)
    ensures r.Some? <==> exists e :: e in events && Identified(e, cid)
    ensures r.Some? ==> r.value in events && Identified(r.value, cid)
  {
    if events == [] then None
    else
      var last := events[|events| - 1];
      assert forall e :: e in events <==> e == last || e in events[..|events| - 1];
      if Identified(last, cid) then Some(last) else LastWith(events[..|events| - 1], cid)
  }

  predicate Dragged(e: Event) {
    e.originally.Some? && e.originally.value != e.start
  }

  /** The event lies inside a window for the tag and meets no blocker. */
  predicate InEligibleWindow(events: seq<Event>, tag: Option<string>, e: Event) {
    (exists w :: w in events && IsWindow(w) && WindowMatchesTag(TagsOf(w), tag) && w.start <= e.start && e.end <= w.end) &&
    !exists b :: b in events && IsBlocker(b) && Overlaps(e.start, e.end, b.start, b.end)
  }

  predicate Keeps(c: Setting, e: Event) {
    InEligibleWindow(c.events, c.tag, e) || Dragged(e)
  }

  // ---------- priority ----------

  /** How many of the issues depend on issue `n`. */
  function Dependents(issues: seq<HumanIssue>, n: nat): nat {
    if issues == [] then 0
    else Dependents(issues[..|issues| - 1], n) + if n in issues[|issues| - 1].deps then 1 else 0
  }

  predicate Outranks(all: seq<HumanIssue>, a: HumanIssue, b: HumanIssue) {
    var pa, pb := Dependents(all, a.number), Dependents(all, b.number);
    pa > pb || (pa == pb && a.number <= b.number)
  }

  function Counted(count: map<nat, nat>, n: nat): nat {
    if n in count then count[n] else 0
  }

  predicate OutranksBy(count: map<nat, nat>, a: HumanIssue, b: HumanIssue) {
    var pa, pb := Counted(count, a.number), Counted(count, b.number);
    pa > pb || (pa == pb && a.number <= b.number)
  }

  /** A stable sort by that order. */
  function InsertBy(count: map<nat, nat>, x: HumanIssue, s: seq<HumanIssue>): seq<HumanIssue> {
    if s == [] || OutranksBy(count, x, s[0]) then [x] + s else [s[0]] + InsertBy(count, x, s[1..])
  }

  function SortBy(count: map<nat, nat>, s: seq<HumanIssue>): seq<HumanIssue> {
    if s == [] then [] else InsertBy(count, s[0], SortBy(count, s[1..]))
  }

  ghost predicate SortedBy(count: map<nat, nat>, s: seq<HumanIssue>) {
    forall i, j :: 0 <= i < j < |s| ==> OutranksBy(count, s[i], s[j])
  }

  lemma {:induction false} InsertByMembers(count: map<nat, nat>, x: HumanIssue, s: seq<HumanIssue>)
    ensures multiset(InsertBy(count, x, s)) == multiset(s) + multiset{x}
    ensures forall i :: i in InsertBy(count, x, s) <==> i == x || i in s
  {
    hide OutranksBy;
    if s == [] {
    } else {
      InsertByMembers(count, x, s[1..]);
      InsertAt(count, x, s);
      hide InsertBy;
      assert s == [s[0]] + s[1..];
    }
  }

  lemma InsertAt(count: map<nat, nat>, x: HumanIssue, s: seq<HumanIssue>)
    requires s != []
    ensures InsertBy(count, x, s) == [x] + s || InsertBy(count, x, s) == [s[0]] + InsertBy(count, x, s[1..])
  {
    hide OutranksBy;
  }

  lemma {:induction false} InsertBySorts(count: map<nat, nat>, x: HumanIssue, s: seq<HumanIssue>)
    requires SortedBy(count, s)
    ensures SortedBy(count, InsertBy(count, x, s))
  {
    if s == [] || OutranksBy(count, x, s[0]) {
    } else {
      var r := InsertBy(count, x, s[1..]);
      InsertBySorts(count, x, s[1..]);
      InsertByMembers(count, x, s[1..]);
      assert OutranksBy(count, s[0], x);
      assert InsertBy(count, x, s) == [s[0]] + r;
      hide InsertBy, OutranksBy;
      forall i | 0 <= i < |r| ensures OutranksBy(count, s[0], r[i]) { assert r[i] in r; }
    }
  }

  lemma {:induction false} SortBySorts(count: map<nat, nat>, s: seq<HumanIssue>)
    ensures SortedBy(count, SortBy(count, s))
    ensures multiset(SortBy(count, s)) == multiset(s)
  {
    if s == [] {
    } else {
      assert s == [s[0]] + s[1..];
      SortBySorts(count, s[1..]);
      InsertBySorts(count, s[0], SortBy(count, s[1..]));
      InsertByMembers(count, s[0], SortBy(count, s[1..]));
    }
  }

  method CountDeps(before: map<nat, nat>, issue: HumanIssue) returns (count: map<nat, nat>)
    ensures forall n :: Counted(count, n) == Counted(before, n) + if n in issue.deps then 1 else 0
  {
    count := before;
    if issue.number !in count {
      count := count[issue.number := 0];
    }
    var deps := InOrder(issue.deps);
    for j := 0 to |deps|
      invariant forall n :: Counted(count, n) == Counted(before, n) + if n in deps[..j] then 1 else 0
    {
      var d := deps[j];
      assert d !in deps[..j];
      assert deps[..j + 1] == deps[..j] + [d];
      if d !in count {
        count := count[d := 0];
      }
      count := count[d := count[d] + 1];
    }
    assert deps[..|deps|] == deps;
  }

  method CountDependents(issues: seq<HumanIssue>) returns (count: map<nat, nat>)
    ensures forall n :: Counted(count, n) == Dependents(issues, n)
  {
    count := map[];
    for i := 0 to |issues|
      invariant forall n :: Counted(count, n) == Dependents(issues[..i], n)
    {
      assert issues[..i + 1][..i] == issues[..i];
      count := CountDeps(count, issues[i]);
    }
    assert issues[..|issues|] == issues;
  }

  /** `s` holds the issues, those that more issues depend on first, then by number. */
  ghost predicate Prioritised(s: seq<HumanIssue>, issues: seq<HumanIssue>) {
    multiset(s) == multiset(issues) &&
    forall i, j :: 0 <= i < j < |s| ==> Outranks(issues, s[i], s[j])
  }

  /** The positions of the issues that depend on issue `n`. */
  ghost function Naming(issues: seq<HumanIssue>, n: nat): set<nat> {
    set k: nat | k < |issues| && n in issues[k].deps
  }

  lemma {:induction false} DependentsCount(issues: seq<HumanIssue>, n: nat)
    ensures Dependents(issues, n) == |Naming(issues, n)|
  {
    if issues == [] {
    } else {
      var m := |issues| - 1;
      DependentsCount(issues[..m], n);
      assert Naming(issues, n) == Naming(issues[..m], n) + if n in issues[m].deps then {m} else {};
    }
  }

  method SortIssues(issues: seq<HumanIssue>) returns (s: seq<HumanIssue>)
    ensures Prioritised(s, issues)
    ensures forall i, j :: 0 <= i < j < |s| ==>
      var a, b := |Naming(issues, s[i].number)|, |Naming(issues, s[j].number)|;
      a > b || (a == b && s[i].number <= s[j].number)
  {
    var count := CountDependents(issues);
    s := SortBy(count, issues);
    SortBySorts(count, issues);
    forall i, j | 0 <= i < j < |s| ensures Outranks(issues, s[i], s[j]) {
      assert OutranksBy(count, s[i], s[j]);
    }
    forall n: nat { DependentsCount(issues, n); }
  }

  // ---------- one run ----------

  function NewEvent(c: Setting, issue: HumanIssue, sl: Slot, id: nat): Event {
    Event(id, ParseEventTitle(DecisionTitle(c.tag, issue.title)), sl.start, sl.end, Some(Dec(issue.number)), Some(sl.start))
  }

  function Keep(r: Run, issue: HumanIssue, e: Event): Run {
    r.(occupied := r.occupied + [Real(e.id)], report := r.report.(kept := r.report.kept + [issue.number]))
  }

  function Drop(c: Setting, r: Run, e: Event): Run {
    r.(ops := if c.dry then r.ops else r.ops + [Delete(e.id)], report := r.report.(deleted := r.report.deleted + [e.id]))
  }

  function Place(c: Setting, r: Run, issue: HumanIssue): Run {
    match FirstMatching(AvailableSlots(ViewOf(c, r.occupied)), c.tag)
    case None => r.(report := r.report.(unschedulable := r.report.unschedulable + [issue.number]))
    case Some(sl) =>
      var report := r.report.(added := r.report.added + [issue.number]);
      if c.dry then r.(occupied := r.occupied + [Dry(issue.number)], report := report)
      else Run(r.occupied + [Real(r.nextId)], r.ops + [Create(NewEvent(c, issue, sl, r.nextId))], r.nextId + 1, report)
  }

  function Step(c: Setting, r: Run, issue: HumanIssue): Run {
    match LastWith(c.events, Dec(issue.number))
    case None => Place(c, r, issue)
    case Some(e) => if Keeps(c, e) then Keep(r, issue, e) else Place(c, Drop(c, r, e), issue)
  }

  function Processed(c: Setting, nextId: nat, issues: seq<HumanIssue>): Run {
    if issues == [] then Run([], [], nextId, SyncReport([], [], [], []))
    else Step(c, Processed(c, nextId, issues[..|issues| - 1]), issues[|issues| - 1])
  }

  predicate OpenFor(issues: seq<HumanIssue>, cid: string) {
    exists i :: i in issues && Dec(i.number) == cid
  }

  predicate Orphan(issues: seq<HumanIssue>, r: Run, e: Event) {
    IsDecision(e) && e.conductrId.Some? && !OpenFor(issues, e.conductrId.value) && Real(e.id) !in r.occupied
  }

  function Sweep(c: Setting, issues: seq<HumanIssue>, r: Run, events: seq<Event>): Run {
    if events == [] then r
    else
      var before := Sweep(c, issues, r, events[..|events| - 1]);
      var e := events[|events| - 1];
      if Orphan(issues, before, e) then Drop(c, before, e) else before
  }

  /** A whole run over the issues in priority order. */
  function Plan(c: Setting, nextId: nat, issues: seq<HumanIssue>): Run {
    Sweep(c, issues, Processed(c, nextId, issues), c.events)
  }

  // ---------- the calendar ----------

  function Without(events: seq<Event>, id: nat): (r: seq<Event>)
    ensures forall e :: e in r <==> e in events && e.id != id
  {
    if events == [] then []
    else (if events[0].id != id then [events[0]] else []) + Without(events[1..], id)
  }

  function Apply(events: seq<Event>, op: Op): seq<Event> {
    match op
    case Delete(id) => Without(events, id)
    case Create(e) => events + [e]
  }

  function ApplyAll(events: seq<Event>, ops: seq<Op>): seq<Event> {
    if ops == [] then events else Apply(ApplyAll(events, ops[..|ops| - 1]), ops[|ops| - 1])
  }

  /** No two events share an id, and the host has not issued `nextId` yet. */
  ghost predicate FreshIds(events: seq<Event>, nextId: nat) {
    (forall a, b :: a in events && b in events && a.id == b.id ==> a == b) &&
    forall e :: e in events ==> e.id < nextId
  }

  /** A write that was sent, whether it was reported as done, and whether it took effect. */
  datatype Sent = Sent(op: Op, ok: bool, landed: bool)

  /** What a calendar holds, its next event id, and the writes that were sent to it. */
  datatype CalendarState = CalendarState(events: seq<Event>, nextId: nat, log: seq<Sent>)

  /** The calendar host. Any write may report failure, whether or not it took effect; `log` holds every write sent. */
  class Calendar {
    var events: seq<Event>
    var nextId: nat
    ghost var log: seq<Sent>

    ghost predicate Valid()
      reads this
    {
      FreshIds(events, nextId)
    }

    ghost function State(): CalendarState
      reads this
    {
      CalendarState(events, nextId, log)
    }

    method DeleteEvent(id: nat) returns (ok: bool, ghost landed: bool)
      requires Valid()
      modifies this
      ensures Valid() && nextId == old(nextId)
      ensures ok ==> landed
      ensures log == old(log) + [Sent(Delete(id), ok, landed)]
      ensures events == if landed then Apply(old(events), Delete(id)) else old(events)
    {
      var effect := *;
      ok := *;
      if ok || effect {
        events := Without(events, id);
      }
      landed := ok || effect;
      log := log + [Sent(Delete(id), ok, landed)];
    }

    method CreateEvent(title: string, start: int, end: int, cid: string, originally: int)
      returns (ok: bool, ghost landed: bool, id: nat)
      requires Valid()
      modifies this
      ensures Valid() && id == old(nextId)
      ensures ok ==> landed
      ensures nextId == if landed then old(nextId) + 1 else old(nextId)
      ensures var op := Create(Event(id, ParseEventTitle(title), start, end, Some(cid), Some(originally)));
              log == old(log) + [Sent(op, ok, landed)] && events == if landed then Apply(old(events), op) else old(events)
    {
      var effect := *;
      ok := *;
      id := nextId;
      if ok || effect {
        events := events + [Event(id, ParseEventTitle(title), start, end, Some(cid), Some(originally))];
        nextId := nextId + 1;
      }
      landed := ok || effect;
      log := log + [Sent(Create(Event(id, ParseEventTitle(title), start, end, Some(cid), Some(originally))), ok, landed)];
    }
  }
}
