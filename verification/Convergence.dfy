/** Repeated calendar reconciles: one decision per issue throughout, settled after one run, no change after two. */
module Convergence {
  import opened Options
  import opened Text
  import opened Ordered
  import opened CalendarTitles
  import opened CalendarSlots
  import opened ReconcilePlan

  /** Every issue has at most one decision; the ids tell events apart. */
  ghost predicate OneEach(events: seq<Event>) {
    forall a, b :: a in events && b in events && Owned(a) && Owned(b) && a.conductrId == b.conductrId ==> a == b
  }

  /** A decision that names the issue it belongs to. */
  predicate Owned(e: Event) {
    IsDecision(e) && e.conductrId.Some?
  }

  ghost predicate Distinct(issues: seq<HumanIssue>) {
    forall i, j :: 0 <= i < j < |issues| ==> issues[i].number != issues[j].number
  }

  ghost predicate SameEvents(a: seq<Event>, b: seq<Event>) {
    forall e :: e in a <==> e in b
  }

  /** Every decision belongs to an open issue and lies in an eligible window, or was dragged. */
  ghost predicate Settled(events: seq<Event>, issues: seq<HumanIssue>, tag: Option<string>) {
    forall e :: e in events && Owned(e) ==>
      OpenFor(issues, e.conductrId.value) && (InEligibleWindow(events, tag, e) || Dragged(e))
  }

  ghost predicate Ready(c: Setting, nextId: nat) {
    !c.dry && UsableTag(c.tag) && FreshIds(c.events, nextId) && OneEach(c.events)
  }

  // ---------- writes one at a time ----------

  /** No decision in `events` names `cid`. */
  ghost predicate Vacant(events: seq<Event>, cid: string) {
    forall e :: e in events ==> !Identified(e, cid)
  }

  ghost predicate SafeOp(events: seq<Event>, op: Op) {
    op.Create? && Owned(op.event) ==> Vacant(events, op.event.conductrId.value)
  }

  ghost predicate Safe(events: seq<Event>, ops: seq<Op>) {
    forall k :: 0 <= k < |ops| ==> SafeOp(ApplyAll(events, ops[..k]), ops[k])
  }

  lemma ApplySnoc(events: seq<Event>, ops: seq<Op>, op: Op)
    ensures ApplyAll(events, ops + [op]) == Apply(ApplyAll(events, ops), op)
  {
    assert (ops + [op])[..|ops|] == ops;
  }

  lemma {:induction false} SafeKeepsOneEach(events: seq<Event>, ops: seq<Op>, k: nat)
    requires OneEach(events) && Safe(events, ops) && k <= |ops|
    ensures OneEach(ApplyAll(events, ops[..k]))
  {
    hide IsDecision;
    if k > 0 {
      SafeKeepsOneEach(events, ops, k - 1);
      assert ops[..k] == ops[..k - 1] + [ops[k - 1]];
      ApplySnoc(events, ops[..k - 1], ops[k - 1]);
    } else {
      assert ops[..0] == [];
    }
  }

  lemma SafeSnoc(events: seq<Event>, ops: seq<Op>, op: Op)
    requires Safe(events, ops)
    requires SafeOp(ApplyAll(events, ops), op)
    ensures Safe(events, ops + [op])
  {
    hide SafeOp, ApplyAll;
    var all := ops + [op];
    forall k | 0 <= k < |all| ensures SafeOp(ApplyAll(events, all[..k]), all[k]) {
      if k < |ops| { assert all[..k] == ops[..k]; } else { assert all[..k] == ops; }
    }
  }

  // ---------- the invariant of the loop over the issues ----------

  predicate OwnedBy(issues: seq<HumanIssue>, e: Event) {
    Owned(e) && OpenFor(issues, e.conductrId.value)
  }

  ghost predicate Untouched(c: Setting, done: seq<HumanIssue>, s: seq<Event>) {
    forall e :: !OwnedBy(done, e) ==> (e in s <==> e in c.events)
  }

  ghost predicate Resolved(c: Setting, done: seq<HumanIssue>, s: seq<Event>) {
    forall e :: e in s && OwnedBy(done, e) ==> Keeps(c, e)
  }

  ghost predicate OccupiedByKept(c: Setting, done: seq<HumanIssue>, occupied: seq<Key>) {
    forall e :: e in c.events && Real(e.id) in occupied ==> OwnedBy(done, e)
  }

  ghost predicate Inv(c: Setting, n0: nat, done: seq<HumanIssue>, r: Run) {
    var s := ApplyAll(c.events, r.ops);
    Untouched(c, done, s) && Resolved(c, done, s) && OccupiedByKept(c, done, r.occupied) &&
    FreshIds(s, r.nextId) && r.nextId >= n0 && OneEach(s) && Safe(c.events, r.ops)
  }

  lemma OpenForSnoc(done: seq<HumanIssue>, i: HumanIssue, cid: string)
    ensures OpenFor(done + [i], cid) <==> OpenFor(done, cid) || Dec(i.number) == cid
  {
    hide Dec;
    assert i in done + [i];
    if x :| x in done && Dec(x.number) == cid { assert x in done + [i]; }
  }

  lemma OwnedBySnoc(done: seq<HumanIssue>, i: HumanIssue)
    ensures forall e :: OwnedBy(done + [i], e) <==> OwnedBy(done, e) || Identified(e, Dec(i.number))
  {
    hide IsDecision, Dec, OpenFor;
    forall e ensures OwnedBy(done + [i], e) <==> OwnedBy(done, e) || Identified(e, Dec(i.number)) {
      if Owned(e) { OpenForSnoc(done, i, e.conductrId.value); }
    }
  }

  lemma NotOpenYet(done: seq<HumanIssue>, i: HumanIssue)
    requires Distinct(done + [i])
    ensures !OpenFor(done, Dec(i.number))
  {
    if x :| x in done && Dec(x.number) == Dec(i.number) {
      DecInjective(x.number, i.number);
      var k :| 0 <= k < |done| && done[k] == x;
      assert (done + [i])[k] == x && (done + [i])[|done|] == i;
    }
  }

  lemma NotOwnedYet(done: seq<HumanIssue>, i: HumanIssue)
    requires Distinct(done + [i])
    ensures forall e :: Identified(e, Dec(i.number)) ==> !OwnedBy(done, e)
  {
    NotOpenYet(done, i);
    hide IsDecision, OpenFor, Dec;
  }

  lemma KeepStep(c: Setting, n0: nat, done: seq<HumanIssue>, r: Run, i: HumanIssue, e: Event)
    requires Ready(c, n0) && Inv(c, n0, done, r) && Distinct(done + [i])
    requires LastWith(c.events, Dec(i.number)) == Some(e) && Keeps(c, e)
    ensures Inv(c, n0, done + [i], Keep(r, i, e))
  {
    hide IsDecision, ApplyAll, Safe, Keeps, Dec, OpenFor, LastWith;
    assert Identified(e, Dec(i.number)) && e in c.events;
    OwnedBySnoc(done, i);
    NotOwnedYet(done, i);
    hide OwnedBy;
    var s := ApplyAll(c.events, r.ops);
    forall x | x in s && Identified(x, Dec(i.number)) ensures x == e {
      assert x in c.events;
    }
  }

  lemma NoneIdentified(c: Setting, n0: nat, done: seq<HumanIssue>, r: Run, i: HumanIssue)
    requires Ready(c, n0) && Inv(c, n0, done, r) && Distinct(done + [i])
    requires LastWith(c.events, Dec(i.number)) == None
    ensures Inv(c, n0, done + [i], r) && Vacant(ApplyAll(c.events, r.ops), Dec(i.number))
  {
    hide IsDecision, ApplyAll, Safe, Keeps, Dec, OpenFor, LastWith;
    assert forall x :: x in c.events ==> !Identified(x, Dec(i.number));
    OwnedBySnoc(done, i);
    NotOwnedYet(done, i);
    hide OwnedBy;
  }

  lemma DropStep(c: Setting, n0: nat, done: seq<HumanIssue>, r: Run, i: HumanIssue, e: Event)
    requires Ready(c, n0) && Inv(c, n0, done, r) && Distinct(done + [i])
    requires LastWith(c.events, Dec(i.number)) == Some(e)
    ensures Inv(c, n0, done + [i], Drop(c, r, e)) && Vacant(ApplyAll(c.events, Drop(c, r, e).ops), Dec(i.number))
  {
    hide IsDecision, Safe, Keeps, Dec, OpenFor, LastWith;
    assert Identified(e, Dec(i.number)) && e in c.events;
    OwnedBySnoc(done, i);
    NotOwnedYet(done, i);
    var s := ApplyAll(c.events, r.ops);
    ApplySnoc(c.events, r.ops, Delete(e.id));
    SafeSnoc(c.events, r.ops, Delete(e.id));
    hide OwnedBy, ApplyAll;
    var t := ApplyAll(c.events, r.ops + [Delete(e.id)]);
    assert forall x :: x in t <==> x in s && x.id != e.id;
    assert e in s;
    assert forall x :: x in t <==> x in s && x != e;
    forall x | x in s && Identified(x, Dec(i.number)) ensures x == e {
      assert x in c.events;
    }
  }

  // ---------- a placed decision ----------

  lemma ViewMembers(c: Setting, occupied: seq<Key>)
    ensures var v := ViewOf(c, occupied);
            (forall e :: e in v.windows <==> e in c.events && IsWindow(e)) &&
            (forall e :: e in v.blockers <==> e in c.events && IsBlocker(e)) &&
            (forall e :: e in v.scheduled <==> e in c.events && IsScheduled(e)) &&
            v.occupied == occupied && v.now == c.now
  {
  }

  /** What the slot given to an issue satisfies. */
  ghost predicate GoodSlot(c: Setting, occupied: seq<Key>, e: Event) {
    e.start >= c.now && e.end == e.start + SLOT && InEligibleWindow(c.events, c.tag, e) &&
    forall x :: x in c.events && IsScheduled(x) && Real(x.id) !in occupied ==> !Overlaps(e.start, e.end, x.start, x.end)
  }

  lemma PlacedWell(c: Setting, occupied: seq<Key>, issue: HumanIssue, id: nat)
    requires FirstMatching(AvailableSlots(ViewOf(c, occupied)), c.tag).Some?
    ensures GoodSlot(c, occupied, NewEvent(c, issue, FirstMatching(AvailableSlots(ViewOf(c, occupied)), c.tag).value, id))
  {
    hide AvailableSlots, ParseEventTitle, IsWindow, IsBlocker, IsScheduled, WindowMatchesTag, TagsOf, FirstMatching,
        DecisionTitle, Dec;
    var v := ViewOf(c, occupied);
    FirstMatchingIsEarliest(v, c.tag);
    ViewMembers(c, occupied);
    hide ViewOf;
    var sl := FirstMatching(AvailableSlots(v), c.tag).value;
    var w, k: nat :| w in v.windows && IsWindow(w) && WindowMatchesTag(TagsOf(w), c.tag) &&
      sl.start == GridStart(w, k) && sl.start + SLOT <= w.end && v.Free(sl.start);
  }

  lemma PlacedIsDecision(c: Setting, issue: HumanIssue, sl: Slot, id: nat)
    requires UsableTag(c.tag)
    ensures var e := NewEvent(c, issue, sl, id); Identified(e, Dec(issue.number)) && !IsScheduledOther(e)
  {
    DecisionTitleParses(c.tag, issue.title);
    hide ParseEventTitle, DecisionTitle, Dec;
  }

  /** Test and review events. */
  predicate IsScheduledOther(e: Event) {
    IsScheduled(e) && !IsDecision(e)
  }

  lemma PlaceStep(c: Setting, n0: nat, done: seq<HumanIssue>, r: Run, i: HumanIssue)
    requires Ready(c, n0) && Inv(c, n0, done, r) && i in done
    requires Vacant(ApplyAll(c.events, r.ops), Dec(i.number))
    ensures Inv(c, n0, done, Place(c, r, i))
  {
    var found := FirstMatching(AvailableSlots(ViewOf(c, r.occupied)), c.tag);
    hide IsDecision, Dec, FirstMatching, AvailableSlots, InEligibleWindow, ViewOf;
    if found.Some? {
      var e := NewEvent(c, i, found.value, r.nextId);
      PlacedIsDecision(c, i, found.value, r.nextId);
      PlacedWell(c, r.occupied, i, r.nextId);
      AddStep(c, n0, done, r, i, e, Place(c, r, i).report);
      hide Inv, NewEvent;
    }
  }

  lemma AddStep(c: Setting, n0: nat, done: seq<HumanIssue>, r: Run, i: HumanIssue, e: Event, report: SyncReport)
    requires Ready(c, n0) && Inv(c, n0, done, r) && i in done
    requires Vacant(ApplyAll(c.events, r.ops), Dec(i.number))
    requires Identified(e, Dec(i.number)) && InEligibleWindow(c.events, c.tag, e) && e.id == r.nextId
    ensures Inv(c, n0, done, Run(r.occupied + [Real(r.nextId)], r.ops + [Create(e)], r.nextId + 1, report))
  {
    hide IsDecision, Safe, Dec, InEligibleWindow;
    ApplySnoc(c.events, r.ops, Create(e));
    SafeSnoc(c.events, r.ops, Create(e));
    assert OwnedBy(done, e) && Keeps(c, e);
    hide OwnedBy, ApplyAll, Keeps;
  }

  lemma StepInv(c: Setting, n0: nat, done: seq<HumanIssue>, r: Run, i: HumanIssue)
    requires Ready(c, n0) && Inv(c, n0, done, r) && Distinct(done + [i])
    ensures Inv(c, n0, done + [i], Step(c, r, i))
  {
    hide Inv, Keeps, LastWith, Place, Vacant, Ready, Drop, Keep;
    var found := LastWith(c.events, Dec(i.number));
    if found.None? {
      NoneIdentified(c, n0, done, r, i);
      PlaceStep(c, n0, done + [i], r, i);
    } else if Keeps(c, found.value) {
      KeepStep(c, n0, done, r, i, found.value);
    } else {
      DropStep(c, n0, done, r, i, found.value);
      PlaceStep(c, n0, done + [i], Drop(c, r, found.value), i);
    }
  }

  lemma {:induction false} ProcessedInv(c: Setting, n0: nat, issues: seq<HumanIssue>)
    requires Ready(c, n0) && Distinct(issues)
    ensures Inv(c, n0, issues, Processed(c, n0, issues))
  {
    hide Step;
    if issues == [] {
      assert Processed(c, n0, []).ops == [];
    } else {
      var done := issues[..|issues| - 1];
      assert issues == done + [issues[|issues| - 1]];
      ProcessedInv(c, n0, done);
      StepInv(c, n0, done, Processed(c, n0, done), issues[|issues| - 1]);
    }
  }

  // ---------- the sweep of orphaned decisions ----------

  /** What the sweep over `seen` leaves of a run `r0` whose calendar is `s0`. */
  ghost predicate Swept(c: Setting, issues: seq<HumanIssue>, r0: Run, seen: seq<Event>, r: Run) {
    var s0, s := ApplyAll(c.events, r0.ops), ApplyAll(c.events, r.ops);
    r.occupied == r0.occupied && r.nextId == r0.nextId &&
    (forall e :: e in s ==> e in s0) &&
    (forall e :: e in s0 && !(Orphan(issues, r0, e) && e in c.events) ==> e in s) &&
    (forall e :: e in seen && Orphan(issues, r0, e) ==> e !in s) &&
    Safe(c.events, r.ops)
  }

  lemma SweptNothing(c: Setting, n0: nat, issues: seq<HumanIssue>, r0: Run)
    requires Inv(c, n0, issues, r0)
    ensures Swept(c, issues, r0, [], r0)
  {
    hide Orphan, Safe, ApplyAll, Resolved, Untouched;
  }

  lemma {:induction false} SweepInv(c: Setting, n0: nat, issues: seq<HumanIssue>, r0: Run, seen: seq<Event>)
    requires Ready(c, n0) && Inv(c, n0, issues, r0)
    requires forall e :: e in seen ==> e in c.events
    ensures Swept(c, issues, r0, seen, Sweep(c, issues, r0, seen))
  {
    hide Inv, Orphan, Swept, Drop, Ready;
    if seen == [] {
      SweptNothing(c, n0, issues, r0);
    } else {
      var e := seen[|seen| - 1];
      var before := seen[..|seen| - 1];
      SweepInv(c, n0, issues, r0, before);
      var r := Sweep(c, issues, r0, before);
      assert seen == before + [e];
      if Orphan(issues, r, e) {
        SweepDrop(c, n0, issues, r0, before, r, e);
      } else {
        SweepKeep(c, issues, r0, before, r, e);
      }
    }
  }

  lemma SweepKeep(c: Setting, issues: seq<HumanIssue>, r0: Run, seen: seq<Event>, r: Run, e: Event)
    requires Swept(c, issues, r0, seen, r) && !Orphan(issues, r, e)
    ensures Swept(c, issues, r0, seen + [e], r)
  {
    assert Orphan(issues, r, e) == Orphan(issues, r0, e);
    hide Orphan, Safe, ApplyAll;
  }

  lemma SweepDrop(c: Setting, n0: nat, issues: seq<HumanIssue>, r0: Run, seen: seq<Event>, r: Run, e: Event)
    requires Ready(c, n0) && Inv(c, n0, issues, r0) && Swept(c, issues, r0, seen, r) && e in c.events && Orphan(issues, r, e)
    ensures Swept(c, issues, r0, seen + [e], Drop(c, r, e))
  {
    assert Orphan(issues, r0, e);
    UntouchedMeans(c, n0, issues, r0, e);
    ApplySnoc(c.events, r.ops, Delete(e.id));
    SafeSnoc(c.events, r.ops, Delete(e.id));
    var s0, s := ApplyAll(c.events, r0.ops), ApplyAll(c.events, r.ops);
    hide SafeOp, OwnedBy, Orphan, Safe, ApplyAll, Untouched, Resolved, OccupiedByKept, OneEach;
    RemovesOne(s0, r0.nextId, s, e);
    hide Inv, Without, FreshIds, Ready;
  }

  lemma RemovesOne(s0: seq<Event>, n: nat, s: seq<Event>, e: Event)
    requires FreshIds(s0, n) && e in s0
    requires forall x :: x in s ==> x in s0
    ensures forall x :: x in Without(s, e.id) <==> x in s && x != e
  {
  }

  lemma UntouchedMeans(c: Setting, n0: nat, issues: seq<HumanIssue>, r0: Run, e: Event)
    requires Inv(c, n0, issues, r0) && e in c.events
    ensures Orphan(issues, r0, e) ==> e in ApplyAll(c.events, r0.ops)
  {
    hide IsDecision, Dec, OpenFor, ApplyAll, Keeps, Safe;
  }

  // ---------- one run settles the calendar ----------

  /** The calendar after the first `k` writes of a run. */
  function Outcome(c: Setting, n0: nat, issues: seq<HumanIssue>, k: nat): seq<Event>
    requires k <= |Plan(c, n0, issues).ops|
  {
    ApplyAll(c.events, Plan(c, n0, issues).ops[..k])
  }

  function Final(c: Setting, n0: nat, issues: seq<HumanIssue>): seq<Event> {
    ApplyAll(c.events, Plan(c, n0, issues).ops)
  }

  /** However many of a run's writes take effect, each issue keeps at most one decision. */
  lemma OneDecisionPerIssue(c: Setting, n0: nat, issues: seq<HumanIssue>, k: nat)
    requires Ready(c, n0) && Distinct(issues) && k <= |Plan(c, n0, issues).ops|
    ensures OneEach(Outcome(c, n0, issues, k))
  {
    ProcessedInv(c, n0, issues);
    SweepInv(c, n0, issues, Processed(c, n0, issues), c.events);
    hide Inv, Processed, Sweep, OneEach, Safe, ApplyAll;
    SafeKeepsOneEach(c.events, Plan(c, n0, issues).ops, k);
  }

  lemma FinalMembers(c: Setting, n0: nat, issues: seq<HumanIssue>)
    requires Ready(c, n0) && Distinct(issues)
    ensures forall e :: e in Final(c, n0, issues) && OwnedBy(issues, e) ==> Keeps(c, e)
    ensures forall e :: e in Final(c, n0, issues) && Owned(e) ==> OwnedBy(issues, e)
    ensures forall e :: !Owned(e) ==> (e in Final(c, n0, issues) <==> e in c.events)
    ensures FreshIds(Final(c, n0, issues), Plan(c, n0, issues).nextId)
    ensures Safe(c.events, Plan(c, n0, issues).ops)
  {
    ProcessedInv(c, n0, issues);
    var r0 := Processed(c, n0, issues);
    SweepInv(c, n0, issues, r0, c.events);
    hide Processed, Sweep, Safe, ApplyAll, Keeps, IsDecision, OpenFor;
    var s0, s := ApplyAll(c.events, r0.ops), Final(c, n0, issues);
    forall e | e in s && Owned(e) ensures OwnedBy(issues, e) {
      assert e in s0;
      assert OwnedBy(issues, e) || Orphan(issues, r0, e);
    }
  }

  /** Windows and blockers are all that eligibility looks at. */
  lemma EligibleSame(a: seq<Event>, b: seq<Event>, tag: Option<string>, e: Event)
    requires forall x :: !Owned(x) ==> (x in a <==> x in b)
    ensures InEligibleWindow(a, tag, e) == InEligibleWindow(b, tag, e)
  {
    hide WindowMatchesTag, TagsOf, Overlaps;
    KindsDiffer();
    hide IsWindow, IsBlocker, IsDecision;
    if w :| w in a && IsWindow(w) && WindowMatchesTag(TagsOf(w), tag) && w.start <= e.start && e.end <= w.end { assert w in b; }
    if w :| w in b && IsWindow(w) && WindowMatchesTag(TagsOf(w), tag) && w.start <= e.start && e.end <= w.end { assert w in a; }
    if x :| x in a && IsBlocker(x) && Overlaps(e.start, e.end, x.start, x.end) { assert x in b; }
    if x :| x in b && IsBlocker(x) && Overlaps(e.start, e.end, x.start, x.end) { assert x in a; }
  }

  lemma KindsDiffer()
    ensures forall x :: IsWindow(x) || IsBlocker(x) ==> !Owned(x)
  {
    hide ParseEventTitle;
  }

  lemma SettlesAs(c: Setting, n0: nat, issues: seq<HumanIssue>, next: seq<Event>)
    requires Ready(c, n0) && Distinct(issues)
    requires SameEvents(next, Final(c, n0, issues))
    ensures Settled(next, issues, c.tag) && OneEach(next) && FreshIds(next, Plan(c, n0, issues).nextId)
    ensures forall e :: !Owned(e) ==> (e in next <==> e in c.events)
  {
    FinalMembers(c, n0, issues);
    var ops := Plan(c, n0, issues).ops;
    assert ops[..|ops|] == ops;
    SafeKeepsOneEach(c.events, ops, |ops|);
    var s := Final(c, n0, issues);
    hide Plan, Safe, InEligibleWindow, ApplyAll, IsDecision, OpenFor, Final;
    forall e | e in next && Owned(e)
      ensures OpenFor(issues, e.conductrId.value) && (InEligibleWindow(next, c.tag, e) || Dragged(e))
    {
      assert OwnedBy(issues, e);
      assert Keeps(c, e);
      EligibleSame(next, c.events, c.tag, e);
    }
  }

  // ---------- a settled calendar is not deleted from ----------

  predicate NoDeletes(ops: seq<Op>) {
    forall op :: op in ops ==> op.Create?
  }

  lemma {:induction false} SettledAfter(c: Setting, n0: nat, all: seq<HumanIssue>, issues: seq<HumanIssue>)
    requires Settled(c.events, all, c.tag)
    ensures NoDeletes(Processed(c, n0, issues).ops)
  {
    if issues == [] {
    } else {
      var done := issues[..|issues| - 1];
      SettledAfter(c, n0, all, done);
      var r := Processed(c, n0, done);
      var i := issues[|issues| - 1];
      hide InEligibleWindow, Dragged, IsDecision, Dec, OpenFor, FirstMatching, AvailableSlots, ViewOf, NewEvent, Processed;
      var found := LastWith(c.events, Dec(i.number));
      hide LastWith;
      if found.Some? { assert Keeps(c, found.value); }
      assert Step(c, r, i).ops == r.ops || exists e :: Step(c, r, i).ops == r.ops + [Create(e)];
      assert Processed(c, n0, issues) == Step(c, r, i) by { ProcessedUnfold(c, n0, issues); }
    }
  }

  lemma ProcessedUnfold(c: Setting, n0: nat, issues: seq<HumanIssue>)
    requires issues != []
    ensures Processed(c, n0, issues) == Step(c, Processed(c, n0, issues[..|issues| - 1]), issues[|issues| - 1])
  {
  }

  lemma {:induction false} NothingToSweep(c: Setting, issues: seq<HumanIssue>, r: Run, seen: seq<Event>)
    requires forall e :: e in seen ==> !Orphan(issues, r, e)
    ensures Sweep(c, issues, r, seen) == r
  {
    if seen == [] {
    } else {
      NothingToSweep(c, issues, r, seen[..|seen| - 1]);
      hide Orphan;
    }
  }

  lemma SettledMeansNoDeletes(c: Setting, n0: nat, issues: seq<HumanIssue>)
    requires Settled(c.events, issues, c.tag)
    ensures NoDeletes(Plan(c, n0, issues).ops)
  {
    SettledAfter(c, n0, issues, issues);
    hide IsDecision, OpenFor, InEligibleWindow, Dragged, Processed;
    NothingToSweep(c, issues, Processed(c, n0, issues), c.events);
  }

  // ---------- after a run without deletes nothing more happens ----------

  /** `c2` is `c1` again on the calendar that the run on `c1` leaves, in any order. */
  ghost predicate Follows(c1: Setting, n1: nat, issues: seq<HumanIssue>, c2: Setting) {
    c2 == c1.(events := c2.events) && SameEvents(c2.events, Final(c1, n1, issues))
  }

  lemma {:induction false} AppliedWithoutDeletes(events: seq<Event>, ops: seq<Op>)
    requires NoDeletes(ops)
    ensures forall e :: e in ApplyAll(events, ops) <==> e in events || Create(e) in ops
  {
    if ops == [] {
    } else {
      var n := |ops| - 1;
      assert ops == ops[..n] + [ops[n]];
      AppliedWithoutDeletes(events, ops[..n]);
      assert ops[n] in ops;
      assert forall e :: Create(e) in ops <==> Create(e) in ops[..n] || Create(e) == ops[n];
    }
  }

  lemma PlaceExtends(c: Setting, r: Run, i: HumanIssue)
    ensures r.ops <= Place(c, r, i).ops
  {
    hide FirstMatching, AvailableSlots, ViewOf, NewEvent;
  }

  lemma DropExtends(c: Setting, r: Run, e: Event)
    ensures r.ops <= Drop(c, r, e).ops
  {
  }

  lemma StepExtends(c: Setting, r: Run, i: HumanIssue)
    ensures r.ops <= Step(c, r, i).ops
  {
    hide LastWith, Keeps, Dec, Place, Drop;
    var found := LastWith(c.events, Dec(i.number));
    if found.None? {
      PlaceExtends(c, r, i);
    } else if Keeps(c, found.value) {
    } else {
      DropExtends(c, r, found.value);
      PlaceExtends(c, Drop(c, r, found.value), i);
    }
  }

  lemma {:induction false} ProcessedExtends(c: Setting, n0: nat, issues: seq<HumanIssue>, k: nat)
    requires k <= |issues|
    ensures Processed(c, n0, issues[..k]).ops <= Processed(c, n0, issues).ops
  {
    if k == |issues| {
      assert issues[..k] == issues;
    } else {
      var n := |issues| - 1;
      assert issues[..n][..k] == issues[..k];
      ProcessedExtends(c, n0, issues[..n], k);
      StepExtends(c, Processed(c, n0, issues[..n]), issues[n]);
      hide Step;
    }
  }

  lemma {:induction false} SweepExtends(c: Setting, issues: seq<HumanIssue>, r: Run, seen: seq<Event>)
    ensures r.ops <= Sweep(c, issues, r, seen).ops
    ensures Sweep(c, issues, r, seen).occupied == r.occupied
  {
    if seen == [] {
    } else {
      SweepExtends(c, issues, r, seen[..|seen| - 1]);
      hide Orphan;
    }
  }

  /** A sweep that deletes nothing met no orphan. */
  lemma {:induction false} QuietSweep(c: Setting, issues: seq<HumanIssue>, r: Run, seen: seq<Event>)
    requires !c.dry && NoDeletes(Sweep(c, issues, r, seen).ops)
    ensures Sweep(c, issues, r, seen) == r
    ensures forall e :: e in seen ==> !Orphan(issues, r, e)
  {
    if seen == [] {
    } else {
      var n := |seen| - 1;
      var before := Sweep(c, issues, r, seen[..n]);
      hide Orphan;
      var gone := Delete(seen[n].id);
      assert Orphan(issues, before, seen[n]) ==> Sweep(c, issues, r, seen).ops == before.ops + [gone];
      assert gone in before.ops + [gone];
      QuietSweep(c, issues, r, seen[..n]);
      assert seen == seen[..n] + [seen[n]];
    }
  }

  lemma PlaceCreates(c: Setting, r: Run, i: HumanIssue, op: Op)
    requires op in Place(c, r, i).ops && op !in r.ops
    ensures op.Create? && op.event.conductrId == Some(Dec(i.number))
  {
    hide FirstMatching, AvailableSlots, ViewOf, Dec, DecisionTitle;
  }

  lemma DropDeletes(c: Setting, r: Run, e: Event, op: Op)
    requires op in Drop(c, r, e).ops && op !in r.ops
    ensures op == Delete(e.id)
  {
  }

  lemma StepCreates(c: Setting, r: Run, i: HumanIssue, op: Op)
    requires op in Step(c, r, i).ops && op !in r.ops && op.Create?
    ensures op.event.conductrId == Some(Dec(i.number))
  {
    hide LastWith, Keeps, Dec, Place, Drop;
    var found := LastWith(c.events, Dec(i.number));
    if found.None? {
      PlaceCreates(c, r, i, op);
    } else {
      var e := found.value;
      var d := Drop(c, r, e);
      if op in d.ops { DropDeletes(c, r, e, op); } else { PlaceCreates(c, d, i, op); }
    }
  }

  /** The issue a creation is for is one that was processed. */
  lemma {:induction false} CreatedFor(c: Setting, n0: nat, issues: seq<HumanIssue>, op: Op)
    requires op in Processed(c, n0, issues).ops && op.Create?
    ensures exists i :: i in issues && op.event.conductrId == Some(Dec(i.number))
  {
    if issues == [] {
      assert false;
    } else {
      var n := |issues| - 1;
      var r := Processed(c, n0, issues[..n]);
      ProcessedUnfold(c, n0, issues);
      hide Processed, Step, Dec;
      if op in r.ops {
        CreatedFor(c, n0, issues[..n], op);
        var i :| i in issues[..n] && op.event.conductrId == Some(Dec(i.number));
        assert i in issues;
      } else {
        StepCreates(c, r, issues[n], op);
      }
    }
  }

  /** A decision created for issue `k` was created when issue `k` was processed. */
  lemma {:induction false} CreatedWhenProcessed(c: Setting, n0: nat, issues: seq<HumanIssue>, k: nat, op: Op)
    requires Distinct(issues) && k < |issues|
    requires op in Processed(c, n0, issues).ops && op.Create? && op.event.conductrId == Some(Dec(issues[k].number))
    ensures op in Processed(c, n0, issues[..k + 1]).ops && op !in Processed(c, n0, issues[..k]).ops
  {
    var n := |issues| - 1;
    if k == n {
      CreatedLast(c, n0, issues, op);
    } else {
      CreatedEarlier(c, n0, issues, k, op);
      FrontOf(issues, k);
      hide *;
      DistinctFront(issues);
      CreatedWhenProcessed(c, n0, issues[..n], k, op);
    }
  }

  lemma CreatedEarlier(c: Setting, n0: nat, issues: seq<HumanIssue>, k: nat, op: Op)
    requires Distinct(issues) && k < |issues| - 1
    requires op in Processed(c, n0, issues).ops && op.Create? && op.event.conductrId == Some(Dec(issues[k].number))
    ensures op in Processed(c, n0, issues[..|issues| - 1]).ops
  {
    var n := |issues| - 1;
    assert issues[k].number != issues[n].number;
    hide *;
    ProcessedUnfold(c, n0, issues);
    StepCreatesOwn(c, Processed(c, n0, issues[..n]), issues[n], op, issues[k].number);
  }

  /** A step creates nothing for other issues. */
  lemma StepCreatesOwn(c: Setting, r: Run, i: HumanIssue, op: Op, m: nat)
    requires op in Step(c, r, i).ops && op.Create? && op.event.conductrId == Some(Dec(m)) && m != i.number
    ensures op in r.ops
  {
    hide *;
    if op !in r.ops {
      StepCreates(c, r, i, op);
      DecInjective(m, i.number);
    }
  }

  lemma FrontOf(issues: seq<HumanIssue>, k: nat)
    requires k < |issues| - 1
    ensures var front := issues[..|issues| - 1];
            front[..k + 1] == issues[..k + 1] && front[..k] == issues[..k] && front[k] == issues[k]
  {
  }

  lemma DistinctFront(issues: seq<HumanIssue>)
    requires Distinct(issues) && issues != []
    ensures Distinct(issues[..|issues| - 1])
  {
  }

  lemma CreatedLast(c: Setting, n0: nat, issues: seq<HumanIssue>, op: Op)
    requires Distinct(issues) && issues != []
    requires op in Processed(c, n0, issues).ops && op.Create? && op.event.conductrId == Some(Dec(issues[|issues| - 1].number))
    ensures op in Processed(c, n0, issues[..|issues|]).ops && op !in Processed(c, n0, issues[..|issues| - 1]).ops
  {
    hide Processed, Dec;
    var n := |issues| - 1;
    assert issues[..|issues|] == issues;
    if op in Processed(c, n0, issues[..n]).ops {
      CreatedFor(c, n0, issues[..n], op);
      var i :| i in issues[..n] && op.event.conductrId == Some(Dec(i.number));
      DecInjective(i.number, issues[n].number);
    }
  }

  /** The first run deleted nothing, and the second starts from what it left. */
  ghost predicate Quiet(c1: Setting, n1: nat, issues: seq<HumanIssue>, c2: Setting) {
    Ready(c1, n1) && Distinct(issues) && NoDeletes(Plan(c1, n1, issues).ops) && Follows(c1, n1, issues, c2)
  }

  lemma QuietFacts(c1: Setting, n1: nat, issues: seq<HumanIssue>, c2: Setting)
    requires Quiet(c1, n1, issues, c2)
    ensures Plan(c1, n1, issues) == Processed(c1, n1, issues)
    ensures forall e :: e in c1.events ==> !Orphan(issues, Processed(c1, n1, issues), e)
    ensures forall e :: e in c2.events <==> e in c1.events || Create(e) in Processed(c1, n1, issues).ops
    ensures OneEach(c2.events)
    ensures forall e :: !Owned(e) ==> (e in c2.events <==> e in c1.events)
  {
    hide Processed, Sweep, Orphan, ApplyAll, OneEach, Settled, FreshIds, IsDecision, Distinct;
    QuietSweep(c1, issues, Processed(c1, n1, issues), c1.events);
    AppliedWithoutDeletes(c1.events, Processed(c1, n1, issues).ops);
    SettlesAs(c1, n1, issues, c2.events);
  }

  lemma NoSlotLater(c1: Setting, c2: Setting, occupied: seq<Key>)
    requires c2 == c1.(events := c2.events)
    requires forall e :: e in c1.events ==> e in c2.events
    requires forall e :: !Owned(e) ==> (e in c2.events <==> e in c1.events)
    requires FirstMatching(AvailableSlots(ViewOf(c1, occupied)), c1.tag).None?
    ensures FirstMatching(AvailableSlots(ViewOf(c2, occupied)), c2.tag).None?
  {
    var v1, v2 := ViewOf(c1, occupied), ViewOf(c2, occupied);
    FirstMatchingIsEarliest(v1, c1.tag);
    FirstMatchingIsEarliest(v2, c2.tag);
    ViewMembers(c1, occupied);
    ViewMembers(c2, occupied);
    KindsDiffer();
    hide AvailableSlots, ParseEventTitle, IsWindow, IsBlocker, IsScheduled, IsDecision, WindowMatchesTag, TagsOf,
        FirstMatching, ViewOf, Overlaps;
    assert forall e :: e in v2.windows ==> e in v1.windows;
    forall start ensures !Candidate(v2, c2.tag, start) {
      if Candidate(v2, c2.tag, start) { CandidateBefore(v1, v2, c1.tag, start); }
    }
  }

  lemma CandidateBefore(v1: View, v2: View, tag: Option<string>, start: int)
    requires forall e :: e in v2.windows ==> e in v1.windows
    requires forall e :: e in v1.blockers ==> e in v2.blockers
    requires forall e :: e in v1.scheduled ==> e in v2.scheduled
    requires v1.occupied == v2.occupied && v1.now == v2.now
    requires Candidate(v2, tag, start)
    ensures Candidate(v1, tag, start)
  {
    var w, k: nat :| w in v2.windows && IsWindow(w) && WindowMatchesTag(TagsOf(w), tag) &&
      start == GridStart(w, k) && start + SLOT <= w.end && v2.Free(start);
    FreeBefore(v1, v2, start);
    hide View.Free, IsWindow, WindowMatchesTag, TagsOf;
  }

  lemma FreeBefore(v1: View, v2: View, start: int)
    requires forall e :: e in v1.blockers ==> e in v2.blockers
    requires forall e :: e in v1.scheduled ==> e in v2.scheduled
    requires v1.occupied == v2.occupied && v1.now == v2.now
    requires v2.Free(start)
    ensures v1.Free(start)
  {
  }

  lemma AgainKept(c1: Setting, n1: nat, issues: seq<HumanIssue>, c2: Setting, e: Event, cid: string)
    requires Quiet(c1, n1, issues, c2)
    requires e in c2.events && Identified(e, cid) && Keeps(c1, e)
    ensures LastWith(c2.events, cid) == Some(e) && Keeps(c2, e)
  {
    QuietFacts(c1, n1, issues, c2);
    hide Processed, Orphan, IsDecision, Plan, LastWith, InEligibleWindow;
    var found := LastWith(c2.events, cid).value;
    assert found in c2.events && Identified(found, cid);
    EligibleSame(c1.events, c2.events, c1.tag, e);
  }

  lemma NotDropped(c: Setting, n0: nat, issues: seq<HumanIssue>, k: nat, e: Event)
    requires k < |issues| && !c.dry && NoDeletes(Processed(c, n0, issues).ops)
    requires LastWith(c.events, Dec(issues[k].number)) == Some(e)
    ensures Keeps(c, e)
  {
    ProcessedExtends(c, n0, issues, k + 1);
    ProcessedPrefix(c, n0, issues, k);
    var r := Processed(c, n0, issues[..k]);
    hide Processed, Step, Keeps, LastWith, Dec;
    assert forall op :: op in Step(c, r, issues[k]).ops ==> op in Processed(c, n0, issues).ops;
    if !Keeps(c, e) { DropVisible(c, r, issues[k], e); }
  }

  lemma DropVisible(c: Setting, r: Run, i: HumanIssue, e: Event)
    requires !c.dry && LastWith(c.events, Dec(i.number)) == Some(e) && !Keeps(c, e)
    ensures Delete(e.id) in Step(c, r, i).ops
  {
    hide Keeps, LastWith, Place, Dec;
    var d := Drop(c, r, e);
    PlaceExtends(c, d, i);
    assert d.ops[|r.ops|] == Delete(e.id);
    assert Step(c, r, i) == Place(c, d, i);
  }

  lemma ProcessedPrefix(c: Setting, n0: nat, issues: seq<HumanIssue>, k: nat)
    requires k < |issues|
    ensures Processed(c, n0, issues[..k + 1]) == Step(c, Processed(c, n0, issues[..k]), issues[k])
  {
    hide Step;
    assert issues[..k + 1][..k] == issues[..k];
  }

  lemma NotCreated(c1: Setting, n1: nat, issues: seq<HumanIssue>, c2: Setting, k: nat)
    requires Quiet(c1, n1, issues, c2) && k < |issues|
    requires LastWith(c1.events, Dec(issues[k].number)).None?
    requires Processed(c1, n1, issues[..k + 1]).ops == Processed(c1, n1, issues[..k]).ops
    ensures LastWith(c2.events, Dec(issues[k].number)).None?
  {
    var cid := Dec(issues[k].number);
    QuietFacts(c1, n1, issues, c2);
    hide Processed, Orphan, IsDecision, Plan, LastWith, Dec, OneEach;
    if LastWith(c2.events, cid).Some? {
      var e := LastWith(c2.events, cid).value;
      assert e in c2.events && Identified(e, cid);
      assert e !in c1.events;
      CreatedWhenProcessed(c1, n1, issues, k, Create(e));
    }
  }

  /** Issue by issue the second run marks the same identities as occupied and writes nothing. */
  lemma {:induction false} RepeatAfter(c1: Setting, n1: nat, issues: seq<HumanIssue>, c2: Setting, n2: nat, k: nat)
    requires Quiet(c1, n1, issues, c2) && k <= |issues|
    ensures Processed(c2, n2, issues[..k]).occupied == Processed(c1, n1, issues[..k]).occupied
    ensures Processed(c2, n2, issues[..k]).ops == []
  {
    if k == 0 {
      assert issues[..0] == [];
    } else {
      RepeatAfter(c1, n1, issues, c2, n2, k - 1);
      RepeatNext(c1, n1, issues, c2, n2, k - 1);
    }
  }

  lemma RepeatNext(c1: Setting, n1: nat, issues: seq<HumanIssue>, c2: Setting, n2: nat, k: nat)
    requires Quiet(c1, n1, issues, c2) && k < |issues|
    requires Processed(c2, n2, issues[..k]).occupied == Processed(c1, n1, issues[..k]).occupied
    requires Processed(c2, n2, issues[..k]).ops == []
    ensures Processed(c2, n2, issues[..k + 1]).occupied == Processed(c1, n1, issues[..k + 1]).occupied
    ensures Processed(c2, n2, issues[..k + 1]).ops == []
  {
    hide *;
    ProcessedPrefix(c2, n2, issues, k);
    RepeatStep(c1, n1, issues, c2, k, Processed(c2, n2, issues[..k]));
  }

  lemma RepeatStep(c1: Setting, n1: nat, issues: seq<HumanIssue>, c2: Setting, k: nat, r2: Run)
    requires Quiet(c1, n1, issues, c2) && k < |issues|
    requires r2.occupied == Processed(c1, n1, issues[..k]).occupied && r2.ops == []
    ensures Step(c2, r2, issues[k]).occupied == Processed(c1, n1, issues[..k + 1]).occupied
    ensures Step(c2, r2, issues[k]).ops == []
  {
    var i := issues[k];
    var r1 := Processed(c1, n1, issues[..k]);
    ProcessedPrefix(c1, n1, issues, k);
    ProcessedExtends(c1, n1, issues, k + 1);
    QuietFacts(c1, n1, issues, c2);
    var found := LastWith(c1.events, Dec(i.number));
    if found.Some? {
      NotDropped(c1, n1, issues, k, found.value);
      AgainKept(c1, n1, issues, c2, found.value, Dec(i.number));
      hide Quiet, Processed, LastWith, Keeps, Plan, Orphan, Place;
    } else {
      hide LastWith, Keeps, Plan, Orphan, Processed, ViewOf, FirstMatching, AvailableSlots, NewEvent, Dec, InEligibleWindow;
      var free := FirstMatching(AvailableSlots(ViewOf(c1, r1.occupied)), c1.tag);
      if free.Some? {
        RepeatCreated(c1, n1, issues, c2, k, r1, free.value);
      } else {
        NotCreated(c1, n1, issues, c2, k);
        NoSlotLater(c1, c2, r1.occupied);
      }
    }
  }

  lemma PlacedLast(c: Setting, r: Run, i: HumanIssue, sl: Slot)
    requires !c.dry && LastWith(c.events, Dec(i.number)).None?
    requires FirstMatching(AvailableSlots(ViewOf(c, r.occupied)), c.tag) == Some(sl)
    ensures Create(NewEvent(c, i, sl, r.nextId)) in Step(c, r, i).ops
  {
    hide LastWith, Dec, FirstMatching, AvailableSlots, ViewOf, NewEvent;
  }

  lemma RepeatCreated(c1: Setting, n1: nat, issues: seq<HumanIssue>, c2: Setting, k: nat, r1: Run, sl: Slot)
    requires Quiet(c1, n1, issues, c2) && k < |issues| && r1 == Processed(c1, n1, issues[..k])
    requires LastWith(c1.events, Dec(issues[k].number)).None?
    requires FirstMatching(AvailableSlots(ViewOf(c1, r1.occupied)), c1.tag) == Some(sl)
    ensures var e := NewEvent(c1, issues[k], sl, r1.nextId);
            LastWith(c2.events, Dec(issues[k].number)) == Some(e) && Keeps(c2, e) && e.id == r1.nextId
  {
    var e := NewEvent(c1, issues[k], sl, r1.nextId);
    ProcessedPrefix(c1, n1, issues, k);
    ProcessedExtends(c1, n1, issues, k + 1);
    QuietFacts(c1, n1, issues, c2);
    PlacedLast(c1, r1, issues[k], sl);
    PlacedIsDecision(c1, issues[k], sl, r1.nextId);
    PlacedWell(c1, r1.occupied, issues[k], r1.nextId);
    hide LastWith, Plan, Orphan, Processed, ViewOf, FirstMatching, AvailableSlots, Dec, InEligibleWindow, IsDecision,
        Quiet, OneEach, Sweep;
    hide Step, NewEvent;
    assert Create(e) in Processed(c1, n1, issues).ops;
    AgainKept(c1, n1, issues, c2, e, Dec(issues[k].number));
  }

  /** If a run deletes nothing, the next one changes nothing. */
  lemma QuietThenStill(c1: Setting, n1: nat, issues: seq<HumanIssue>, c2: Setting, n2: nat)
    requires Quiet(c1, n1, issues, c2)
    ensures Plan(c2, n2, issues).ops == []
  {
    RepeatAfter(c1, n1, issues, c2, n2, |issues|);
    assert issues[..|issues|] == issues;
    QuietFacts(c1, n1, issues, c2);
    var r1, r2 := Processed(c1, n1, issues), Processed(c2, n2, issues);
    hide Processed, Sweep, Quiet;
    forall e | e in c2.events ensures !Orphan(issues, r2, e) {
      if e in c1.events {
        assert !Orphan(issues, r1, e);
      } else {
        CreatedFor(c1, n1, issues, Create(e));
      }
    }
    NothingToSweep(c2, issues, r2, c2.events);
  }

  /**
   * With clock, tag, windows, blockers and issues fixed, a second run deletes nothing and a third changes nothing,
   * whatever order the host lists the events in.
   */
  lemma Converges(c0: Setting, n0: nat, issues: seq<HumanIssue>, c1: Setting, c2: Setting, n2: nat)
    requires Ready(c0, n0) && Distinct(issues)
    requires Follows(c0, n0, issues, c1)
    requires Follows(c1, Plan(c0, n0, issues).nextId, issues, c2)
    ensures NoDeletes(Plan(c1, Plan(c0, n0, issues).nextId, issues).ops)
    ensures Plan(c2, n2, issues).ops == []
    ensures NoDeletes(Plan(c0, n0, issues).ops) ==> Plan(c1, Plan(c0, n0, issues).nextId, issues).ops == []
  {
    var n1 := Plan(c0, n0, issues).nextId;
    SettlesAs(c0, n0, issues, c1.events);
    SettledMeansNoDeletes(c1, n1, issues);
    hide Plan, Settled, OneEach, FreshIds, Final, SameEvents, UsableTag;
    QuietThenStill(c1, n1, issues, c2, n2);
    if NoDeletes(Plan(c0, n0, issues).ops) { QuietThenStill(c0, n0, issues, c1, n1); }
  }

  // ---------- where decisions are placed ----------

  /** What a decision's slot promises about the snapshot. */
  ghost predicate WellPlaced(c: Setting, e: Event) {
    e.start >= c.now && e.end == e.start + SLOT && InEligibleWindow(c.events, c.tag, e) &&
    forall x :: x in c.events && IsScheduledOther(x) ==> !Overlaps(e.start, e.end, x.start, x.end)
  }

  lemma {:induction false} SweepCreatesNothing(c: Setting, issues: seq<HumanIssue>, r: Run, seen: seq<Event>, op: Op)
    requires op in Sweep(c, issues, r, seen).ops && op.Create?
    ensures op in r.ops
  {
    if seen == [] {
    } else {
      hide Orphan;
      SweepCreatesNothing(c, issues, r, seen[..|seen| - 1], op);
    }
  }

  lemma StepPlacesWell(c: Setting, n0: nat, done: seq<HumanIssue>, r: Run, i: HumanIssue, e: Event)
    requires Inv(c, n0, done, r)
    requires Create(e) in Step(c, r, i).ops && Create(e) !in r.ops
    ensures WellPlaced(c, e)
  {
    hide InEligibleWindow, IsScheduled, IsDecision, Dec, FirstMatching, AvailableSlots, ViewOf, Keeps, OpenFor, LastWith,
      ApplyAll;
    var found := FirstMatching(AvailableSlots(ViewOf(c, r.occupied)), c.tag);
    assert found.Some? && e == NewEvent(c, i, found.value, r.nextId) by { hide Inv, NewEvent; }
    PlacedWell(c, r.occupied, i, r.nextId);
    hide NewEvent, Step;
  }

  lemma {:induction false} ProcessedPlacesWell(c: Setting, n0: nat, issues: seq<HumanIssue>, e: Event)
    requires Ready(c, n0) && Distinct(issues)
    requires Create(e) in Processed(c, n0, issues).ops
    ensures WellPlaced(c, e)
  {
    if issues == [] {
      assert false;
    } else {
      var n := |issues| - 1;
      ProcessedUnfold(c, n0, issues);
      hide Processed, Step, WellPlaced, Inv;
      if Create(e) in Processed(c, n0, issues[..n]).ops {
        ProcessedPlacesWell(c, n0, issues[..n], e);
      } else {
        ProcessedInv(c, n0, issues[..n]);
        StepPlacesWell(c, n0, issues[..n], Processed(c, n0, issues[..n]), issues[n], e);
      }
    }
  }

  /** A created decision fills a whole future slot of an eligible window, clear of blockers and of every test and review event. */
  lemma CreatedDecisionsFit(c: Setting, n0: nat, issues: seq<HumanIssue>, e: Event)
    requires Ready(c, n0) && Distinct(issues)
    requires Create(e) in Plan(c, n0, issues).ops
    ensures WellPlaced(c, e)
    ensures c.now <= e.start && e.end == e.start + 1800
    ensures exists w :: (w in c.events && w.kind.Window? && w.start <= e.start && e.end <= w.end &&
                         (w.kind.tags == [] || (c.tag.Some? && (c.tag.value in w.kind.tags || "*" in w.kind.tags))))
    ensures forall x :: x in c.events && (x.kind.Blocked? || x.kind.Test? || x.kind.Review?) ==>
      e.end <= x.start || x.end <= e.start
  {
    SweepCreatesNothing(c, issues, Processed(c, n0, issues), c.events, Create(e));
    hide Processed, Sweep, Plan;
    ProcessedPlacesWell(c, n0, issues, e);
    hide Ready, Distinct;
    assert InEligibleWindow(c.events, c.tag, e);
  }

  lemma {:induction false} SameWindowSlots(v1: View, v2: View, w: Event, tags: seq<string>, k: nat)
    requires forall start :: v1.Free(start) == v2.Free(start)
    ensures WindowSlots(v1, w, tags, k) == WindowSlots(v2, w, tags, k)
    decreases w.end - GridStart(w, k)
  {
    hide View.Free;
    if GridStart(w, k) + SLOT > w.end {
    } else {
      SameWindowSlots(v1, v2, w, tags, k + 1);
    }
  }

  lemma {:induction false} SameAllSlots(v1: View, v2: View, windows: seq<Event>)
    requires forall start :: v1.Free(start) == v2.Free(start)
    ensures AllSlots(v1, windows) == AllSlots(v2, windows)
  {
    hide View.Free, WindowSlots, IsWindow, TagsOf;
    if windows == [] {
    } else {
      if IsWindow(windows[0]) { SameWindowSlots(v1, v2, windows[0], TagsOf(windows[0]), 0); }
      SameAllSlots(v1, v2, windows[1..]);
    }
  }

  /** Only the snapshot's own events matter among the occupied identities. */
  lemma OccupiedMatters(c: Setting, a: seq<Key>, b: seq<Key>)
    requires forall e :: e in c.events ==> (Real(e.id) in a <==> Real(e.id) in b)
    ensures AvailableSlots(ViewOf(c, a)) == AvailableSlots(ViewOf(c, b))
  {
    var v1, v2 := ViewOf(c, a), ViewOf(c, b);
    ViewMembers(c, a);
    forall start ensures v1.Free(start) == v2.Free(start) {
      hide IsScheduled, IsWindow, IsBlocker, Overlaps;
    }
    hide View.Free;
    SameAllSlots(v1, v2, v1.windows);
  }

  // ---------- a dry run predicts the report ----------

  ghost predicate Alike(c: Setting, n0: nat, r: Run, q: Run) {
    r.report == q.report && r.nextId >= n0 && q.ops == [] &&
    forall e :: e in c.events ==> (Real(e.id) in r.occupied <==> Real(e.id) in q.occupied)
  }

  lemma PlaceAlike(c: Setting, n0: nat, r: Run, q: Run, i: HumanIssue)
    requires !c.dry && FreshIds(c.events, n0) && Alike(c, n0, r, q)
    ensures Alike(c, n0, Place(c, r, i), Place(c.(dry := true), q, i))
  {
    OccupiedMatters(c, r.occupied, q.occupied);
    assert ViewOf(c.(dry := true), q.occupied) == ViewOf(c, q.occupied);
    hide FirstMatching, AvailableSlots, ViewOf, NewEvent;
  }

  lemma KeepAlike(c: Setting, n0: nat, r: Run, q: Run, i: HumanIssue, e: Event)
    requires Alike(c, n0, r, q)
    ensures Alike(c, n0, Keep(r, i, e), Keep(q, i, e))
  {
  }

  lemma DropAlike(c: Setting, n0: nat, r: Run, q: Run, e: Event)
    requires !c.dry && Alike(c, n0, r, q)
    ensures Alike(c, n0, Drop(c, r, e), Drop(c.(dry := true), q, e))
  {
  }

  lemma StepAlike(c: Setting, n0: nat, r: Run, q: Run, i: HumanIssue)
    requires !c.dry && FreshIds(c.events, n0) && Alike(c, n0, r, q)
    ensures Alike(c, n0, Step(c, r, i), Step(c.(dry := true), q, i))
  {
    var d := c.(dry := true);
    var found := LastWith(c.events, Dec(i.number));
    assert found.Some? ==> Keeps(c, found.value) == Keeps(d, found.value);
    hide LastWith, Dec, Place, Keeps, Alike, Keep, Drop;
    if found.None? {
      PlaceAlike(c, n0, r, q, i);
    } else if Keeps(c, found.value) {
      KeepAlike(c, n0, r, q, i, found.value);
    } else {
      DropAlike(c, n0, r, q, found.value);
      PlaceAlike(c, n0, Drop(c, r, found.value), Drop(c.(dry := true), q, found.value), i);
    }
  }

  lemma {:induction false} ProcessedAlike(c: Setting, n0: nat, issues: seq<HumanIssue>)
    requires !c.dry && FreshIds(c.events, n0)
    ensures Alike(c, n0, Processed(c, n0, issues), Processed(c.(dry := true), n0, issues))
  {
    if issues == [] {
    } else {
      var n := |issues| - 1;
      ProcessedAlike(c, n0, issues[..n]);
      hide Step, Alike;
      StepAlike(c, n0, Processed(c, n0, issues[..n]), Processed(c.(dry := true), n0, issues[..n]), issues[n]);
    }
  }

  lemma {:induction false} SweepAlike(c: Setting, n0: nat, issues: seq<HumanIssue>, r: Run, q: Run, seen: seq<Event>)
    requires !c.dry && Alike(c, n0, r, q)
    requires forall e :: e in seen ==> e in c.events
    ensures Alike(c, n0, Sweep(c, issues, r, seen), Sweep(c.(dry := true), issues, q, seen))
  {
    if seen == [] {
    } else {
      var n := |seen| - 1;
      SweepAlike(c, n0, issues, r, q, seen[..n]);
      hide IsDecision, OpenFor;
    }
  }

  /** A dry run sends nothing and reports exactly what the real run reports. */
  lemma DryRunPredicts(c: Setting, n0: nat, issues: seq<HumanIssue>)
    requires !c.dry && FreshIds(c.events, n0)
    ensures Plan(c.(dry := true), n0, issues).ops == []
    ensures Plan(c.(dry := true), n0, issues).report == Plan(c, n0, issues).report
  {
    ProcessedAlike(c, n0, issues);
    SweepAlike(c, n0, issues, Processed(c, n0, issues), Processed(c.(dry := true), n0, issues), c.events);
    hide Processed, Sweep;
  }

  // ---------- the report ----------

  function Numbers(issues: seq<HumanIssue>): seq<nat> {
    seq(|issues|, k requires 0 <= k < |issues| => issues[k].number)
  }

  /** The writes of a run as its report should tell them. */
  function DeletedBy(ops: seq<Op>): seq<nat> {
    if ops == [] then []
    else DeletedBy(ops[..|ops| - 1]) + match ops[|ops| - 1] case Delete(id) => [id] case Create(_) => []
  }

  function CreatedBy(ops: seq<Op>): seq<Option<string>> {
    if ops == [] then []
    else CreatedBy(ops[..|ops| - 1]) + match ops[|ops| - 1] case Delete(_) => [] case Create(e) => [e.conductrId]
  }

  function Ids(numbers: seq<nat>): seq<Option<string>> {
    seq(|numbers|, k requires 0 <= k < |numbers| => Some(Dec(numbers[k])))
  }

  /** The report lists exactly the deletions and creations that were sent. */
  ghost predicate ReportsWrites(r: Run) {
    DeletedBy(r.ops) == r.report.deleted && CreatedBy(r.ops) == Ids(r.report.added)
  }

  lemma WritesSnoc(ops: seq<Op>, op: Op)
    ensures DeletedBy(ops + [op]) == DeletedBy(ops) + match op case Delete(id) => [id] case Create(_) => []
    ensures CreatedBy(ops + [op]) == CreatedBy(ops) + match op case Delete(_) => [] case Create(e) => [e.conductrId]
  {
    assert (ops + [op])[..|ops|] == ops;
  }

  lemma DropReports(c: Setting, r: Run, e: Event)
    requires !c.dry && ReportsWrites(r)
    ensures ReportsWrites(Drop(c, r, e))
  {
    WritesSnoc(r.ops, Delete(e.id));
    hide Dec;
  }

  lemma PlaceReports(c: Setting, r: Run, i: HumanIssue)
    requires !c.dry && ReportsWrites(r)
    ensures ReportsWrites(Place(c, r, i))
  {
    hide FirstMatching, AvailableSlots, ViewOf, Dec, DecisionTitle;
    var found := FirstMatching(AvailableSlots(ViewOf(c, r.occupied)), c.tag);
    if found.Some? {
      WritesSnoc(r.ops, Create(NewEvent(c, i, found.value, r.nextId)));
      assert Ids(r.report.added + [i.number]) == Ids(r.report.added) + [Some(Dec(i.number))];
    }
  }

  lemma KeepReports(r: Run, i: HumanIssue, e: Event)
    requires ReportsWrites(r)
    ensures ReportsWrites(Keep(r, i, e))
  {
  }

  lemma {:induction false} ProcessedReports(c: Setting, n0: nat, issues: seq<HumanIssue>)
    requires !c.dry
    ensures ReportsWrites(Processed(c, n0, issues))
  {
    if issues == [] {
    } else {
      var n := |issues| - 1;
      ProcessedReports(c, n0, issues[..n]);
      var r, i := Processed(c, n0, issues[..n]), issues[n];
      var found := LastWith(c.events, Dec(i.number));
      hide LastWith, Dec, Place, Keeps, Keep, Drop, ReportsWrites;
      if found.None? {
        PlaceReports(c, r, i);
      } else if Keeps(c, found.value) {
        KeepReports(r, i, found.value);
      } else {
        DropReports(c, r, found.value);
        PlaceReports(c, Drop(c, r, found.value), i);
      }
    }
  }

  lemma {:induction false} SweepReports(c: Setting, issues: seq<HumanIssue>, r: Run, seen: seq<Event>)
    requires !c.dry && ReportsWrites(r)
    ensures ReportsWrites(Sweep(c, issues, r, seen))
    ensures var q := Sweep(c, issues, r, seen).report;
            q.kept == r.report.kept && q.added == r.report.added && q.unschedulable == r.report.unschedulable
  {
    if seen == [] {
    } else {
      var n := |seen| - 1;
      SweepReports(c, issues, r, seen[..n]);
      var before := Sweep(c, issues, r, seen[..n]);
      hide Orphan, ReportsWrites;
      if Orphan(issues, before, seen[n]) { DropReports(c, before, seen[n]); }
    }
  }

  /** How often a number is listed as kept, added or unschedulable. */
  function Tally(r: SyncReport, n: nat): nat {
    Occurs(r.kept, n) + Occurs(r.added, n) + Occurs(r.unschedulable, n)
  }

  lemma PlaceTallies(c: Setting, r: Run, i: HumanIssue, n: nat)
    ensures Tally(Place(c, r, i).report, n) == Tally(r.report, n) + if n == i.number then 1 else 0
  {
    OccursSnoc(r.report.added, i.number, n);
    OccursSnoc(r.report.unschedulable, i.number, n);
    hide FirstMatching, AvailableSlots, ViewOf, NewEvent, Occurs;
  }

  lemma KeepTallies(r: Run, i: HumanIssue, e: Event, n: nat)
    ensures Tally(Keep(r, i, e).report, n) == Tally(r.report, n) + if n == i.number then 1 else 0
  {
    OccursSnoc(r.report.kept, i.number, n);
    hide Occurs;
  }

  lemma DropTallies(c: Setting, r: Run, e: Event, n: nat)
    ensures Tally(Drop(c, r, e).report, n) == Tally(r.report, n)
  {
    hide Occurs;
  }

  lemma StepTallies(c: Setting, r: Run, i: HumanIssue, n: nat)
    ensures Tally(Step(c, r, i).report, n) == Tally(r.report, n) + if n == i.number then 1 else 0
  {
    var found := LastWith(c.events, Dec(i.number));
    hide LastWith, Dec, Place, Keeps, Keep, Drop, Tally;
    if found.None? {
      PlaceTallies(c, r, i, n);
    } else if Keeps(c, found.value) {
      KeepTallies(r, i, found.value, n);
    } else {
      DropTallies(c, r, found.value, n);
      PlaceTallies(c, Drop(c, r, found.value), i, n);
    }
  }

  lemma NumbersNext(issues: seq<HumanIssue>, n: nat)
    requires issues != []
    ensures var k := |issues| - 1;
            Occurs(Numbers(issues), n) == Occurs(Numbers(issues[..k]), n) + if n == issues[k].number then 1 else 0
  {
    var k := |issues| - 1;
    assert Numbers(issues) == Numbers(issues[..k]) + [issues[k].number];
    OccursSnoc(Numbers(issues[..k]), issues[k].number, n);
  }

  lemma {:induction false} ProcessedTallies(c: Setting, n0: nat, issues: seq<HumanIssue>, n: nat)
    ensures Tally(Processed(c, n0, issues).report, n) == Occurs(Numbers(issues), n)
  {
    if issues == [] {
      assert Processed(c, n0, []).report == SyncReport([], [], [], []);
    } else {
      var k := |issues| - 1;
      ProcessedTallies(c, n0, issues[..k], n);
      StepTallies(c, Processed(c, n0, issues[..k]), issues[k], n);
      NumbersNext(issues, n);
      ProcessedUnfold(c, n0, issues);
      hide *;
    }
  }

  /** The report lists every issue once: kept, added or unschedulable. */
  ghost predicate ReportsIssues(r: SyncReport, issues: seq<HumanIssue>) {
    forall n: nat :: Tally(r, n) == Occurs(Numbers(issues), n)
  }

  /** The report tells each write in order and accounts for each issue once. */
  lemma ReportIsExact(c: Setting, n0: nat, issues: seq<HumanIssue>)
    requires !c.dry
    ensures ReportsWrites(Plan(c, n0, issues)) && ReportsIssues(Plan(c, n0, issues).report, issues)
  {
    ProcessedReports(c, n0, issues);
    hide Processed, Sweep, ReportsWrites, Occurs, Numbers;
    SweepReports(c, issues, Processed(c, n0, issues), c.events);
    forall n: nat ensures Tally(Plan(c, n0, issues).report, n) == Occurs(Numbers(issues), n) {
      ProcessedTallies(c, n0, issues, n);
    }
  }
}
