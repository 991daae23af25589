/** What a reconcile deletes, keeps and creates, said by the fields of the events in its snapshot. */
module CalendarFields {
  import opened Options
  import opened Text
  import opened CalendarTitles
  import opened CalendarSlots
  import opened ReconcilePlan
  import opened Convergence
  import opened Collisions
  import opened CalendarRun

  /** A window that a slot for the tag may lie in: without tags, or naming the tag or the star. */
  ghost predicate Admits(w: Event, tag: Option<string>) {
    w.kind.Window? && (w.kind.tags == [] || (tag.Some? && (tag.value in w.kind.tags || "*" in w.kind.tags)))
  }

  /** The decision recorded for issue `n` is event `k`, the last decision that names the issue. */
  ghost predicate Recorded(events: seq<Event>, n: nat, k: nat) {
    k < |events| && forall j :: k <= j < |events| ==>
      (events[j].kind.Decision? && events[j].conductrId == Some(Dec(n)) <==> j == k)
  }

  /** Nobody moved the decision, and either no admitting window contains it or some blocker meets it. */
  ghost predicate Stale(c: Setting, e: Event) {
    (e.originally == None || e.originally == Some(e.start)) &&
    ((forall w :: w in c.events && Admits(w, c.tag) ==> e.start < w.start || w.end < e.end) ||
     exists b :: b in c.events && b.kind.Blocked? && e.start < b.end && b.start < e.end)
  }

  lemma KeepsExactlyWhen(c: Setting, e: Event)
    ensures Keeps(c, e) <==> !Stale(c, e)
  {
    forall w | w in c.events ensures Admits(w, c.tag) <==> IsWindow(w) && WindowMatchesTag(TagsOf(w), c.tag) {}
  }

  /** The decision names a listed issue, and it was moved, or it lies in an admitting window and meets no blocker. */
  ghost predicate WellKept(events: seq<Event>, issues: seq<HumanIssue>, tag: Option<string>, e: Event) {
    (exists i :: i in issues && e.conductrId == Some(Dec(i.number))) &&
    ((e.originally.Some? && e.originally != Some(e.start)) ||
     ((exists w :: w in events && Admits(w, tag) && w.start <= e.start && e.end <= w.end) &&
      forall b :: b in events && b.kind.Blocked? ==> e.end <= b.start || b.end <= e.start))
  }

  lemma WellKeptExactly(events: seq<Event>, issues: seq<HumanIssue>, tag: Option<string>, e: Event)
    requires e.conductrId.Some?
    ensures WellKept(events, issues, tag, e) <==>
            OpenFor(issues, e.conductrId.value) && (InEligibleWindow(events, tag, e) || Dragged(e))
  {
    KeepsExactlyWhen(Setting(events, tag, 0, false), e);
    hide Admits, InEligibleWindow, Dec;
  }

  /** A calendar is settled exactly if every decision that names something is well kept. */
  lemma SettledMeans(events: seq<Event>, issues: seq<HumanIssue>, tag: Option<string>)
    ensures Settled(events, issues, tag) <==>
            forall e :: e in events && e.kind.Decision? && e.conductrId.Some? ==> WellKept(events, issues, tag, e)
  {
    forall e: Event | e.conductrId.Some? { WellKeptExactly(events, issues, tag, e); }
    hide WellKept, InEligibleWindow, Dragged, OpenFor;
  }

  lemma {:induction false} RecordedIsLast(events: seq<Event>, n: nat, k: nat)
    requires Recorded(events, n, k)
    ensures LastWith(events, Dec(n)) == Some(events[k])
  {
    hide Dec;
    var m := |events| - 1;
    if k < m {
      assert forall j :: k <= j < m ==> events[..m][j] == events[j];
      RecordedIsLast(events[..m], n, k);
      assert !Identified(events[m], Dec(n));
    } else {
      assert Identified(events[m], Dec(n));
    }
  }

  lemma {:induction false} LastIsRecorded(events: seq<Event>, n: nat) returns (k: nat)
    requires LastWith(events, Dec(n)).Some?
    ensures Recorded(events, n, k) && LastWith(events, Dec(n)) == Some(events[k])
  {
    hide Dec;
    var m := |events| - 1;
    if Identified(events[m], Dec(n)) {
      k := m;
    } else {
      k := LastIsRecorded(events[..m], n);
      assert forall j :: k <= j < m ==> events[..m][j] == events[j];
    }
  }

  // ---------- what is deleted ----------

  /** The decision recorded for issue `n` is `e`, and it is stale. */
  ghost predicate StaleFor(c: Setting, n: nat, e: Event) {
    Stale(c, e) && exists k: nat :: Recorded(c.events, n, k) && c.events[k] == e
  }

  ghost predicate StaleOf(c: Setting, issues: seq<HumanIssue>, e: Event) {
    exists i :: i in issues && StaleFor(c, i.number, e)
  }

  /** A decision that names something that is no listed issue. */
  ghost predicate Disowned(issues: seq<HumanIssue>, e: Event) {
    e.kind.Decision? && e.conductrId.Some? && forall i :: i in issues ==> Dec(i.number) != e.conductrId.value
  }

  /** The deletions sent for the listed issues, and nothing but kept or created events marked as occupied. */
  ghost predicate DeletesStale(c: Setting, n0: nat, done: seq<HumanIssue>, r: Run) {
    r.nextId >= n0 &&
    (forall id: nat :: Delete(id) in r.ops <==> exists e :: e in c.events && e.id == id && StaleOf(c, done, e)) &&
    forall e :: e in c.events && Real(e.id) in r.occupied ==> OwnedBy(done, e)
  }

  lemma LastStale(c: Setting, n: nat, e: Event)
    ensures StaleFor(c, n, e) <==> LastWith(c.events, Dec(n)) == Some(e) && !Keeps(c, e)
  {
    KeepsExactlyWhen(c, e);
    hide Stale, Keeps, Dec, LastWith;
    if StaleFor(c, n, e) {
      var k: nat :| Recorded(c.events, n, k) && c.events[k] == e;
      RecordedIsLast(c.events, n, k);
    }
    if LastWith(c.events, Dec(n)) == Some(e) {
      var k := LastIsRecorded(c.events, n);
    }
  }

  lemma StaleOfSnoc(c: Setting, done: seq<HumanIssue>, i: HumanIssue, e: Event)
    ensures StaleOf(c, done + [i], e) <==>
            StaleOf(c, done, e) || (LastWith(c.events, Dec(i.number)) == Some(e) && !Keeps(c, e))
  {
    LastStale(c, i.number, e);
    hide StaleFor, Keeps, LastWith, Dec;
    assert forall x :: x in done + [i] <==> x in done || x == i;
  }

  /** What a step adds to deletions and marks: `dropped` is the event it deletes, if any. */
  lemma StepDeletes(c: Setting, r: Run, i: HumanIssue)
    requires !c.dry
    ensures var found, next := LastWith(c.events, Dec(i.number)), Step(c, r, i);
            r.nextId <= next.nextId &&
            (forall id: nat :: Delete(id) in next.ops <==>
              Delete(id) in r.ops || (found.Some? && !Keeps(c, found.value) && found.value.id == id)) &&
            forall id: nat :: Real(id) in next.occupied ==>
              Real(id) in r.occupied || id >= r.nextId || (found.Some? && Keeps(c, found.value) && found.value.id == id)
  {
    hide LastWith, Dec, Keeps, FirstMatching, AvailableSlots, ViewOf, NewEvent;
  }

  lemma DeletesNext(c: Setting, n0: nat, done: seq<HumanIssue>, r: Run, i: HumanIssue)
    requires !c.dry && FreshIds(c.events, n0) && DeletesStale(c, n0, done, r)
    ensures DeletesStale(c, n0, done + [i], Step(c, r, i))
  {
    var found, next := LastWith(c.events, Dec(i.number)), Step(c, r, i);
    StepDeletes(c, r, i);
    OwnedBySnoc(done, i);
    hide Step, StaleOf, Keeps, LastWith, Dec, OwnedBy, IsDecision;
    forall id: nat ensures Delete(id) in next.ops <==> exists e :: e in c.events && e.id == id && StaleOf(c, done + [i], e) {
      DeletedNext(c, n0, done, r, i, id);
    }
    forall e | e in c.events && Real(e.id) in next.occupied ensures OwnedBy(done + [i], e) {
      if Real(e.id) !in r.occupied { assert e == found.value; }
    }
  }

  lemma DeletedNext(c: Setting, n0: nat, done: seq<HumanIssue>, r: Run, i: HumanIssue, id: nat)
    requires !c.dry && DeletesStale(c, n0, done, r)
    ensures Delete(id) in Step(c, r, i).ops <==> exists e :: e in c.events && e.id == id && StaleOf(c, done + [i], e)
  {
    var found, next := LastWith(c.events, Dec(i.number)), Step(c, r, i);
    StepDeletes(c, r, i);
    forall e { StaleOfSnoc(c, done, i, e); }
    hide Step, StaleOf, Keeps, LastWith, Dec, OwnedBy, IsDecision;
    if found.Some? && !Keeps(c, found.value) && found.value.id == id { assert StaleOf(c, done + [i], found.value); }
    if Delete(id) in r.ops {
      var e :| e in c.events && e.id == id && StaleOf(c, done, e);
      assert StaleOf(c, done + [i], e);
    }
  }

  lemma {:induction false} DeletesUpTo(c: Setting, n0: nat, issues: seq<HumanIssue>)
    requires !c.dry && FreshIds(c.events, n0)
    ensures DeletesStale(c, n0, issues, Processed(c, n0, issues))
  {
    hide DeletesStale, Step, FreshIds;
    if issues == [] {
      DeletesNothing(c, n0);
    } else {
      var n := |issues| - 1;
      DeletesUpTo(c, n0, issues[..n]);
      ProcessedUnfold(c, n0, issues);
      DeletesNext(c, n0, issues[..n], Processed(c, n0, issues[..n]), issues[n]);
      assert issues[..n] + [issues[n]] == issues;
    }
  }

  lemma DeletesNothing(c: Setting, n0: nat)
    ensures DeletesStale(c, n0, [], Processed(c, n0, []))
  {
    hide StaleFor;
  }

  lemma {:induction false} SweepDeletes(c: Setting, issues: seq<HumanIssue>, r: Run, seen: seq<Event>, id: nat)
    requires !c.dry
    ensures Delete(id) in Sweep(c, issues, r, seen).ops <==>
            Delete(id) in r.ops || exists e :: e in seen && e.id == id && Orphan(issues, r, e)
    ensures Sweep(c, issues, r, seen).occupied == r.occupied
  {
    if seen == [] {
    } else {
      var n := |seen| - 1;
      SweepDeletes(c, issues, r, seen[..n], id);
      assert seen == seen[..n] + [seen[n]];
      assert Orphan(issues, Sweep(c, issues, r, seen[..n]), seen[n]) <==> Orphan(issues, r, seen[n]);
      hide Orphan;
    }
  }

  lemma OrphanExactlyWhen(c: Setting, n0: nat, issues: seq<HumanIssue>, r: Run, e: Event)
    requires DeletesStale(c, n0, issues, r) && e in c.events
    ensures Orphan(issues, r, e) <==> Disowned(issues, e)
  {
    hide StaleOf, Dec;
  }

  /**
   * A real reconcile deletes exactly the recorded decisions of listed issues that are stale, and the decisions that name
   * something that is no listed issue.
   */
  lemma DeletedExactlyWhen(c: Setting, n0: nat, issues: seq<HumanIssue>, id: nat)
    requires !c.dry && FreshIds(c.events, n0)
    ensures Delete(id) in Plan(c, n0, issues).ops <==>
            exists e :: e in c.events && e.id == id && (StaleOf(c, issues, e) || Disowned(issues, e))
  {
    var r := Processed(c, n0, issues);
    DeletesUpTo(c, n0, issues);
    SweepDeletes(c, issues, r, c.events, id);
    forall e | e in c.events { OrphanExactlyWhen(c, n0, issues, r, e); }
    hide Processed, Sweep, StaleOf, Disowned, Orphan, FreshIds;
    if e :| e in c.events && e.id == id && Orphan(issues, r, e) { assert Disowned(issues, e); }
    if e :| e in c.events && e.id == id && Disowned(issues, e) { assert Orphan(issues, r, e); }
  }

  /** The recorded decision of a listed issue is deleted exactly if it is stale. */
  lemma RecordedDeletedExactlyWhen(c: Setting, n0: nat, issues: seq<HumanIssue>, i: HumanIssue, k: nat)
    requires !c.dry && FreshIds(c.events, n0) && i in issues && Recorded(c.events, i.number, k)
    ensures Delete(c.events[k].id) in Plan(c, n0, issues).ops <==> Stale(c, c.events[k])
  {
    var e := c.events[k];
    DeletedExactlyWhen(c, n0, issues, e.id);
    assert !Disowned(issues, e) by { assert e.conductrId == Some(Dec(i.number)); hide Dec; }
    hide Plan, Stale, Disowned, Recorded;
    assert e in c.events;
  }

  lemma AllSentMembers(ops: seq<Op>, op: Op)
    ensures Sent(op, true, true) in AllSent(ops) <==> op in ops
  {
    if op in ops {
      var k :| 0 <= k < |ops| && ops[k] == op;
      assert AllSent(ops)[k] == Sent(op, true, true);
    }
  }

  /** The same of a reconcile as it runs: a run without failed write has sent exactly those deletions. */
  lemma DeletionsSent(before: CalendarState, after: CalendarState, at: Attempt, id: nat)
    requires FreshIds(before.events, before.nextId) && Reconciled(before, after, at, true)
    ensures before.log <= after.log
    ensures var c := Setting(before.events, at.tag, at.now, false);
            Sent(Delete(id), true, true) in after.log[|before.log|..] <==>
            exists e :: e in before.events && e.id == id && (StaleOf(c, at.issues, e) || Disowned(at.issues, e))
  {
    var c := SettingOf(before, at);
    var sorted :| Carried(before, after, at, true, sorted);
    var ops := Plan(c, before.nextId, sorted).ops;
    assert after.log == before.log + AllSent(ops);
    assert after.log[|before.log|..] == AllSent(ops);
    SameMembers(sorted, at.issues);
    hide Plan, FreshIds, Carried, AllSent, Stale, StaleFor, Dec;
    AllSentMembers(ops, Delete(id));
    DeletedExactlyWhen(c, before.nextId, sorted, id);
    forall e ensures StaleOf(c, sorted, e) == StaleOf(c, at.issues, e) && Disowned(sorted, e) == Disowned(at.issues, e) {}
  }

  lemma SameMembers(s: seq<HumanIssue>, t: seq<HumanIssue>)
    requires multiset(s) == multiset(t)
    ensures forall i :: i in s <==> i in t
  {
    forall i ensures i in s <==> i in t { assert i in s <==> i in multiset(s); }
  }

  // ---------- what is created ----------

  /** The decision recorded for one of the issues is `x`, and it is not stale. */
  ghost predicate KeptOf(c: Setting, issues: seq<HumanIssue>, x: Event) {
    !Stale(c, x) && exists i, k: nat :: i in issues && Recorded(c.events, i.number, k) && c.events[k] == x
  }

  /** The two half-open intervals have a point in common. */
  ghost predicate Meets(x: Event, start: int, end: int) {
    x.start < end && start < x.end
  }

  /**
   * Half an hour from `start` on is open: not past, on the grid of an admitting window and inside it, clear of blockers,
   * and clear of everything scheduled but the decisions kept for the issues handled before.
   */
  ghost predicate OpenAt(c: Setting, earlier: seq<HumanIssue>, start: int) {
    (exists w :: w in c.events && Admits(w, c.tag) && OnGrid(w, start)) && ClearAt(c, earlier, start)
  }

  ghost predicate ClearAt(c: Setting, earlier: seq<HumanIssue>, start: int) {
    c.now <= start &&
    (forall b :: b in c.events && b.kind.Blocked? ==> !Meets(b, start, start + 1800)) &&
    forall x :: x in c.events && (x.kind.Decision? || x.kind.Test? || x.kind.Review?) && Meets(x, start, start + 1800) ==>
      KeptOf(c, earlier, x)
  }

  ghost predicate OnGrid(w: Event, start: int) {
    w.start <= start && start + 1800 <= w.end && (start - w.start) % 1800 == 0
  }

  lemma GridMeans(w: Event, start: int)
    ensures OnGrid(w, start) <==> exists k: nat :: start == GridStart(w, k) && start + SLOT <= w.end
  {
    if OnGrid(w, start) {
      var k: nat := (start - w.start) / 1800;
      assert start == GridStart(w, k);
    }
  }

  lemma {:induction false} KeptKeysMean(c: Setting, n0: nat, issues: seq<HumanIssue>, x: Event)
    requires FreshIds(c.events, n0) && x in c.events
    ensures Real(x.id) in KeptKeys(c, issues) <==> KeptOf(c, issues, x)
  {
    if issues == [] {
    } else {
      var n := |issues| - 1;
      var i := issues[n];
      KeptKeysMean(c, n0, issues[..n], x);
      KeptOfSnoc(c, issues, x);
      hide KeptOf, Keeps, LastWith, Dec;
      if HasKept(c, i) && LastWith(c.events, Dec(i.number)).value.id == x.id {
        assert LastWith(c.events, Dec(i.number)).value in c.events;
      }
    }
  }

  lemma KeptOfSnoc(c: Setting, issues: seq<HumanIssue>, x: Event)
    requires issues != []
    ensures var n := |issues| - 1;
            KeptOf(c, issues, x) <==>
            KeptOf(c, issues[..n], x) || (LastWith(c.events, Dec(issues[n].number)) == Some(x) && Keeps(c, x))
  {
    KeepsExactlyWhen(c, x);
    var n := |issues| - 1;
    hide Stale, Keeps, LastWith, Dec;
    if KeptOf(c, issues, x) {
      var i, k: nat :| i in issues && Recorded(c.events, i.number, k) && c.events[k] == x;
      RecordedIsLast(c.events, i.number, k);
      assert i in issues[..n] || i == issues[n];
    }
    if LastWith(c.events, Dec(issues[n].number)) == Some(x) && Keeps(c, x) {
      var k := LastIsRecorded(c.events, issues[n].number);
      assert issues[n] in issues;
    }
  }

  lemma CandidateMeans(c: Setting, n0: nat, earlier: seq<HumanIssue>, start: int)
    requires FreshIds(c.events, n0)
    ensures Candidate(ViewOf(c, KeptKeys(c, earlier)), c.tag, start) <==> OpenAt(c, earlier, start)
  {
    var v := ViewOf(c, KeptKeys(c, earlier));
    ViewMembers(c, KeptKeys(c, earlier));
    FreeMeans(c, n0, earlier, start);
    forall w | w in c.events ensures Admits(w, c.tag) <==> IsWindow(w) && WindowMatchesTag(TagsOf(w), c.tag) {}
    forall w: Event { GridMeans(w, start); }
    hide ClearAt, KeptKeys, ViewOf, Admits, WindowMatchesTag, OnGrid, FreshIds, View.Free, TagsOf, IsWindow;
    if Candidate(v, c.tag, start) {
      var w, k: nat :| w in v.windows && IsWindow(w) && WindowMatchesTag(TagsOf(w), c.tag) && start == GridStart(w, k) &&
        start + SLOT <= w.end && v.Free(start);
      assert OnGrid(w, start) && Admits(w, c.tag);
    }
  }

  lemma FreeMeans(c: Setting, n0: nat, earlier: seq<HumanIssue>, start: int)
    requires FreshIds(c.events, n0)
    ensures ViewOf(c, KeptKeys(c, earlier)).Free(start) <==> ClearAt(c, earlier, start)
  {
    var v := ViewOf(c, KeptKeys(c, earlier));
    ViewMembers(c, KeptKeys(c, earlier));
    forall x | x in c.events { KeptKeysMean(c, n0, earlier, x); }
    hide KeptOf, KeptKeys, ViewOf, FreshIds;
    assert BlockedAt(v.blockers, start) <==> exists b :: b in c.events && b.kind.Blocked? && Meets(b, start, start + 1800);
    assert OccupiedAt(v.scheduled, v.occupied, start) <==>
      exists x :: x in c.events && (x.kind.Decision? || x.kind.Test? || x.kind.Review?) && Meets(x, start, start + 1800) &&
        !KeptOf(c, earlier, x);
  }

  /** The earliest open half hour when issue `k` is handled. */
  ghost predicate EarliestAt(c: Setting, issues: seq<HumanIssue>, k: nat, start: int)
    requires k < |issues|
  {
    OpenAt(c, issues[..k], start) && forall s :: OpenAt(c, issues[..k], s) ==> start <= s
  }

  lemma SlotPastMeans(c: Setting, n0: nat, issues: seq<HumanIssue>, k: nat)
    requires FreshIds(c.events, n0) && k < |issues|
    ensures var found := SlotPast(c, issues[..k]);
            (found.None? ==> forall s :: !OpenAt(c, issues[..k], s)) &&
            (found.Some? ==> EarliestAt(c, issues, k, found.value.start) && found.value.end == found.value.start + 1800)
  {
    FirstMatchingIsEarliest(ViewOf(c, KeptKeys(c, issues[..k])), c.tag);
    forall s { CandidateMeans(c, n0, issues[..k], s); }
    hide Candidate, OpenAt, FirstMatching, AvailableSlots, ViewOf, KeptKeys;
  }

  /** No decision is recorded for the issue, or a stale one. */
  ghost predicate Unkept(c: Setting, i: HumanIssue) {
    forall k: nat :: Recorded(c.events, i.number, k) ==> Stale(c, c.events[k])
  }

  lemma UnkeptExactlyWhen(c: Setting, i: HumanIssue)
    ensures Unkept(c, i) <==> !HasKept(c, i)
  {
    var found := LastWith(c.events, Dec(i.number));
    forall k: nat | Recorded(c.events, i.number, k) ensures found == Some(c.events[k]) { RecordedIsLast(c.events, i.number, k); }
    if found.Some? {
      KeepsExactlyWhen(c, found.value);
      var k := LastIsRecorded(c.events, i.number);
    }
    hide Stale, Keeps, LastWith, Dec, Recorded;
  }

  /** The event that the turn of issue `k` creates. */
  ghost predicate MadeAt(c: Setting, n0: nat, issues: seq<HumanIssue>, k: nat, e: Event)
    requires k < |issues|
  {
    var found := SlotPast(c, issues[..k]);
    !HasKept(c, issues[k]) && found.Some? && e == NewEvent(c, issues[k], found.value, Processed(c, n0, issues[..k]).nextId)
  }

  lemma StepCreates(c: Setting, r: Run, i: HumanIssue, e: Event)
    requires !c.dry
    ensures var found := FirstMatching(AvailableSlots(ViewOf(c, r.occupied)), c.tag);
            Create(e) in Step(c, r, i).ops <==>
            Create(e) in r.ops || (!HasKept(c, i) && found.Some? && e == NewEvent(c, i, found.value, r.nextId))
  {
    hide FirstMatching, AvailableSlots, ViewOf, LastWith, Dec, Keeps, NewEvent;
  }

  lemma StepMakes(c: Setting, n0: nat, issues: seq<HumanIssue>, e: Event)
    requires !c.dry && FreshIds(c.events, n0) && issues != []
    ensures var k := |issues| - 1;
            Create(e) in Processed(c, n0, issues).ops <==>
            Create(e) in Processed(c, n0, issues[..k]).ops || MadeAt(c, n0, issues, k, e)
  {
    hide *;
    var k := |issues| - 1;
    SearchIs(c, n0, issues[..k]);
    ProcessedUnfold(c, n0, issues);
    StepCreates(c, Processed(c, n0, issues[..k]), issues[k], e);
    MadeIs(c, n0, issues, k, e);
  }

  /** The search in a turn is the one that looks past the decisions kept so far. */
  lemma SearchIs(c: Setting, n0: nat, done: seq<HumanIssue>)
    requires !c.dry && FreshIds(c.events, n0)
    ensures FirstMatching(AvailableSlots(ViewOf(c, Processed(c, n0, done).occupied)), c.tag) == SlotPast(c, done)
  {
    var r := Processed(c, n0, done);
    FollowAll(c, n0, done);
    OccupiedMatters(c, KeptKeys(c, done), r.occupied) by {
      hide Processed, FreshIds, KeptKeys, CreatedEvents, Grants, AllGiven;
    }
    hide Processed, FreshIds, KeptKeys, AvailableSlots, ViewOf, FirstMatching;
  }

  lemma MadeIs(c: Setting, n0: nat, issues: seq<HumanIssue>, k: nat, e: Event)
    requires k < |issues|
    ensures var found := SlotPast(c, issues[..k]);
            MadeAt(c, n0, issues, k, e) <==>
            !HasKept(c, issues[k]) && found.Some? &&
            e == NewEvent(c, issues[k], found.value, Processed(c, n0, issues[..k]).nextId)
  {
    hide HasKept, SlotPast, NewEvent, Processed;
  }

  ghost predicate SomeMade(c: Setting, n0: nat, issues: seq<HumanIssue>, m: nat, e: Event)
    requires m <= |issues|
  {
    exists k :: 0 <= k < m && MadeAt(c, n0, issues, k, e)
  }

  lemma {:induction false} CreatedUpTo(c: Setting, n0: nat, issues: seq<HumanIssue>, m: nat, e: Event)
    requires !c.dry && FreshIds(c.events, n0) && m <= |issues|
    ensures Create(e) in Processed(c, n0, issues[..m]).ops <==> SomeMade(c, n0, issues, m, e)
  {
    if m == 0 {
    } else {
      hide *;
      CreatedUpTo(c, n0, issues, m - 1, e);
      assert issues[..m][..m - 1] == issues[..m - 1];
      StepMakes(c, n0, issues[..m], e);
      MadeInFront(c, n0, issues, m, e);
      SomeMadeNext(c, n0, issues, m - 1, e);
    }
  }

  lemma SomeMadeNext(c: Setting, n0: nat, issues: seq<HumanIssue>, m: nat, e: Event)
    requires m < |issues|
    ensures SomeMade(c, n0, issues, m + 1, e) <==> SomeMade(c, n0, issues, m, e) || MadeAt(c, n0, issues, m, e)
  {
    hide MadeAt;
  }

  lemma MadeInFront(c: Setting, n0: nat, issues: seq<HumanIssue>, m: nat, e: Event)
    requires 0 < m <= |issues|
    ensures MadeAt(c, n0, issues[..m], m - 1, e) <==> MadeAt(c, n0, issues, m - 1, e)
  {
    hide SlotPast, HasKept, NewEvent, Processed;
    assert issues[..m][..m - 1] == issues[..m - 1];
  }

  /** The decision event for issue `k` on its earliest open half hour, unmoved, with tag and title. */
  ghost predicate CreatedFor(c: Setting, issues: seq<HumanIssue>, k: nat, e: Event)
    requires k < |issues|
  {
    Unkept(c, issues[k]) && EarliestAt(c, issues, k, e.start) && e.end == e.start + 1800 && e.originally == Some(e.start) &&
    e.conductrId == Some(Dec(issues[k].number)) &&
    e.kind == Decision(if c.tag == Some("*") then None else c.tag, Trim(issues[k].title))
  }

  lemma MadeMeans(c: Setting, n0: nat, issues: seq<HumanIssue>, k: nat, e: Event)
    requires FreshIds(c.events, n0) && k < |issues| && UsableTag(c.tag) && MadeAt(c, n0, issues, k, e)
    ensures CreatedFor(c, issues, k, e)
  {
    hide *;
    MadeIs(c, n0, issues, k, e);
    SlotPastMeans(c, n0, issues, k);
    UnkeptExactlyWhen(c, issues[k]);
    var sl := SlotPast(c, issues[..k]).value;
    NewEventFields(c, issues[k], sl, Processed(c, n0, issues[..k]).nextId);
    CreatedForWhen(c, issues, k, e);
  }

  lemma CreatedForWhen(c: Setting, issues: seq<HumanIssue>, k: nat, e: Event)
    requires k < |issues| && Unkept(c, issues[k]) && EarliestAt(c, issues, k, e.start) && e.end == e.start + 1800
    requires e.originally == Some(e.start) && e.conductrId == Some(Dec(issues[k].number))
    requires e.kind == Decision(if c.tag == Some("*") then None else c.tag, Trim(issues[k].title))
    ensures CreatedFor(c, issues, k, e)
  {
    hide Unkept, EarliestAt, Dec, Trim;
  }

  lemma NewEventFields(c: Setting, i: HumanIssue, sl: Slot, id: nat)
    requires UsableTag(c.tag)
    ensures var e := NewEvent(c, i, sl, id);
            e.start == sl.start && e.end == sl.end && e.originally == Some(sl.start) && e.conductrId == Some(Dec(i.number)) &&
            e.kind == Decision(if c.tag == Some("*") then None else c.tag, Trim(i.title))
  {
    DecisionTitleParses(c.tag, i.title);
    hide Dec, Trim, ParseEventTitle, DecisionTitle;
  }

  /**
   * A real reconcile creates exactly one decision for each listed issue that is not kept and finds an open half hour: on
   * the earliest one, counting decisions kept for the issues before it as absent. Nothing else is created.
   */
  lemma CreatedExactly(c: Setting, n0: nat, issues: seq<HumanIssue>)
    requires !c.dry && FreshIds(c.events, n0) && UsableTag(c.tag)
    ensures forall e :: Create(e) in Plan(c, n0, issues).ops ==> exists k :: 0 <= k < |issues| && CreatedFor(c, issues, k, e)
    ensures forall k, s :: 0 <= k < |issues| && Unkept(c, issues[k]) && OpenAt(c, issues[..k], s) ==>
              exists e :: Create(e) in Plan(c, n0, issues).ops && CreatedFor(c, issues, k, e)
  {
    var r := Processed(c, n0, issues);
    forall e ensures Create(e) in Plan(c, n0, issues).ops <==> exists k :: 0 <= k < |issues| && MadeAt(c, n0, issues, k, e) {
      CreatedUpTo(c, n0, issues, |issues|, e);
      assert issues[..|issues|] == issues;
      SweepOps(c, issues, r, c.events, e);
    }
    hide Plan, Processed, FreshIds, MadeAt, CreatedFor, OpenAt, Unkept, UsableTag;
    forall e | Create(e) in Plan(c, n0, issues).ops ensures exists k :: 0 <= k < |issues| && CreatedFor(c, issues, k, e) {
      var k :| 0 <= k < |issues| && MadeAt(c, n0, issues, k, e);
      MadeMeans(c, n0, issues, k, e);
    }
    forall k, s | 0 <= k < |issues| && Unkept(c, issues[k]) && OpenAt(c, issues[..k], s)
      ensures exists e :: Create(e) in Plan(c, n0, issues).ops && CreatedFor(c, issues, k, e)
    {
      var e := MakesOne(c, n0, issues, k, s);
      MadeMeans(c, n0, issues, k, e);
    }
  }

  lemma SweepOps(c: Setting, issues: seq<HumanIssue>, r: Run, seen: seq<Event>, e: Event)
    ensures Create(e) in Sweep(c, issues, r, seen).ops <==> Create(e) in r.ops
  {
    SweepExtends(c, issues, r, seen);
    if Create(e) in Sweep(c, issues, r, seen).ops { SweepCreatesNothing(c, issues, r, seen, Create(e)); }
    hide Sweep;
  }

  lemma MakesOne(c: Setting, n0: nat, issues: seq<HumanIssue>, k: nat, s: int) returns (e: Event)
    requires FreshIds(c.events, n0) && k < |issues| && Unkept(c, issues[k]) && OpenAt(c, issues[..k], s)
    ensures MadeAt(c, n0, issues, k, e)
  {
    SlotPastMeans(c, n0, issues, k);
    UnkeptExactlyWhen(c, issues[k]);
    hide OpenAt, SlotPast, Unkept, HasKept, EarliestAt;
    e := NewEvent(c, issues[k], SlotPast(c, issues[..k]).value, Processed(c, n0, issues[..k]).nextId);
  }

  // ---------- what is reported ----------

  /** What becomes of a listed issue. */
  datatype Lot = Stays | Placed | Left

  ghost function LotOf(c: Setting, issues: seq<HumanIssue>, k: nat): Lot
    requires k < |issues|
  {
    if !Unkept(c, issues[k]) then Stays else if exists s :: OpenAt(c, issues[..k], s) then Placed else Left
  }

  /** The numbers of the first `k` issues with the given lot, in order. */
  ghost function WithLot(c: Setting, issues: seq<HumanIssue>, k: nat, lot: Lot): seq<nat>
    requires k <= |issues|
  {
    if k == 0 then []
    else WithLot(c, issues, k - 1, lot) + if LotOf(c, issues, k - 1) == lot then [issues[k - 1].number] else []
  }

  lemma StepReports(c: Setting, r: Run, i: HumanIssue)
    ensures var found, a, b := FirstMatching(AvailableSlots(ViewOf(c, r.occupied)), c.tag), r.report, Step(c, r, i).report;
            b.kept == a.kept + (if HasKept(c, i) then [i.number] else []) &&
            b.added == a.added + (if !HasKept(c, i) && found.Some? then [i.number] else []) &&
            b.unschedulable == a.unschedulable + (if !HasKept(c, i) && found.None? then [i.number] else [])
  {
    hide FirstMatching, AvailableSlots, ViewOf, LastWith, Dec, Keeps, NewEvent;
  }

  /** The report so far lists the issues by their lot. */
  ghost predicate ListsLots(c: Setting, issues: seq<HumanIssue>, k: nat, report: SyncReport)
    requires k <= |issues|
  {
    report.kept == WithLot(c, issues, k, Stays) && report.added == WithLot(c, issues, k, Placed) &&
    report.unschedulable == WithLot(c, issues, k, Left)
  }

  lemma LotStep(c: Setting, n0: nat, issues: seq<HumanIssue>, k: nat)
    requires !c.dry && FreshIds(c.events, n0) && k < |issues|
    requires ListsLots(c, issues, k, Processed(c, n0, issues[..k]).report)
    ensures ListsLots(c, issues, k + 1, Processed(c, n0, issues[..k + 1]).report)
  {
    hide *;
    var front := issues[..k + 1];
    assert front[..k] == issues[..k];
    var r := Processed(c, n0, issues[..k]);
    SearchIs(c, n0, issues[..k]);
    ProcessedUnfold(c, n0, front);
    StepReports(c, r, issues[k]);
    SlotPastMeans(c, n0, issues, k);
    UnkeptExactlyWhen(c, issues[k]);
    LotIs(c, issues, k, SlotPast(c, issues[..k]));
    ListsNextLot(c, issues, k, r.report, Processed(c, n0, front).report);
  }

  lemma LotIs(c: Setting, issues: seq<HumanIssue>, k: nat, found: Option<Slot>)
    requires k < |issues|
    requires found.None? ==> forall s :: !OpenAt(c, issues[..k], s)
    requires found.Some? ==> EarliestAt(c, issues, k, found.value.start)
    ensures LotOf(c, issues, k) == if !Unkept(c, issues[k]) then Stays else if found.Some? then Placed else Left
  {
    hide Unkept, OpenAt;
  }

  lemma ListsNextLot(c: Setting, issues: seq<HumanIssue>, k: nat, a: SyncReport, b: SyncReport)
    requires k < |issues| && ListsLots(c, issues, k, a)
    requires var n, lot := issues[k].number, LotOf(c, issues, k);
             b.kept == a.kept + (if lot == Stays then [n] else []) && b.added == a.added + (if lot == Placed then [n] else []) &&
             b.unschedulable == a.unschedulable + if lot == Left then [n] else []
    ensures ListsLots(c, issues, k + 1, b)
  {
    hide LotOf;
  }

  lemma {:induction false} LotsUpTo(c: Setting, n0: nat, issues: seq<HumanIssue>, k: nat)
    requires !c.dry && FreshIds(c.events, n0) && k <= |issues|
    ensures ListsLots(c, issues, k, Processed(c, n0, issues[..k]).report)
  {
    if k == 0 {
    } else {
      hide Processed, ListsLots, FreshIds;
      LotsUpTo(c, n0, issues, k - 1);
      LotStep(c, n0, issues, k - 1);
    }
  }

  lemma {:induction false} SweepLists(c: Setting, issues: seq<HumanIssue>, r: Run, seen: seq<Event>)
    ensures var a, b := r.report, Sweep(c, issues, r, seen).report;
            b.kept == a.kept && b.added == a.added && b.unschedulable == a.unschedulable
  {
    if seen == [] {
    } else {
      SweepLists(c, issues, r, seen[..|seen| - 1]);
      hide Orphan;
    }
  }

  /**
   * The report lists, in priority order, exactly the issues whose recorded decision is not stale as kept; of the others
   * those that find an open half hour as added, and those that find none as unschedulable.
   */
  lemma LotsExactly(c: Setting, n0: nat, issues: seq<HumanIssue>)
    requires !c.dry && FreshIds(c.events, n0)
    ensures ListsLots(c, issues, |issues|, Plan(c, n0, issues).report)
  {
    LotsUpTo(c, n0, issues, |issues|);
    assert issues[..|issues|] == issues;
    SweepLists(c, issues, Processed(c, n0, issues), c.events);
    hide Processed, Sweep, WithLot;
  }
}
