/** Where the decisions created by one reconcile can coincide, with each other and with decisions that were kept. */
module Collisions {
  import opened Options
  import opened Text
  import opened CalendarTitles
  import opened CalendarSlots
  import opened ReconcilePlan
  import opened Convergence

  function CreatedEvents(ops: seq<Op>): seq<Event> {
    if ops == [] then []
    else CreatedEvents(ops[..|ops| - 1]) + match ops[|ops| - 1] case Delete(_) => [] case Create(e) => [e]
  }

  lemma CreatedSnoc(ops: seq<Op>, op: Op)
    ensures CreatedEvents(ops + [op]) == CreatedEvents(ops) + match op case Delete(_) => [] case Create(e) => [e]
  {
    assert (ops + [op])[..|ops|] == ops;
  }

  ghost predicate PairwiseDisjoint(es: seq<Event>) {
    forall i, j :: 0 <= i < j < |es| ==> !Overlaps(es[i].start, es[i].end, es[j].start, es[j].end)
  }

  // ---------- what a reconcile creates, read off the snapshot ----------

  /** The decision recorded for the issue stays where it is. */
  predicate HasKept(c: Setting, i: HumanIssue) {
    var found := LastWith(c.events, Dec(i.number));
    found.Some? && Keeps(c, found.value)
  }

  /** The identities of the decisions kept for the listed issues. */
  function KeptKeys(c: Setting, issues: seq<HumanIssue>): seq<Key> {
    if issues == [] then []
    else
      var last := issues[|issues| - 1];
      KeptKeys(c, issues[..|issues| - 1]) + if HasKept(c, last) then [Real(LastWith(c.events, Dec(last.number)).value.id)] else []
  }

  /** The slot that a search finds when it looks past the decisions kept for the issues handled before. */
  function SlotPast(c: Setting, earlier: seq<HumanIssue>): Option<Slot> {
    FirstMatching(AvailableSlots(ViewOf(c, KeptKeys(c, earlier))), c.tag)
  }

  /** The slot that a search finds when it looks past nothing. */
  function OpenSlot(c: Setting): Option<Slot> {
    FirstMatching(AvailableSlots(ViewOf(c, [])), c.tag)
  }

  /** Who is given which slot. */
  datatype Grant = Grant(number: nat, start: int, end: int)

  /** One slot for each listed issue without a kept decision whose search finds one, in order. */
  function Grants(c: Setting, issues: seq<HumanIssue>): seq<Grant> {
    if issues == [] then []
    else
      var n := |issues| - 1;
      Grants(c, issues[..n]) +
      if HasKept(c, issues[n]) then []
      else match SlotPast(c, issues[..n]) case None => [] case Some(sl) => [Grant(issues[n].number, sl.start, sl.end)]
  }

  predicate Gives(e: Event, g: Grant) {
    e.conductrId == Some(Dec(g.number)) && e.start == g.start && e.end == g.end
  }

  ghost predicate AllGiven(es: seq<Event>, gs: seq<Grant>) {
    |es| == |gs| && forall k :: 0 <= k < |es| ==> Gives(es[k], gs[k])
  }

  /** The events created so far are the grants so far, and of the snapshot exactly the kept decisions are looked past. */
  ghost predicate Follow(c: Setting, n0: nat, done: seq<HumanIssue>, r: Run) {
    r.nextId >= n0 && AllGiven(CreatedEvents(r.ops), Grants(c, done)) &&
    forall e :: e in c.events ==> (Real(e.id) in r.occupied <==> Real(e.id) in KeptKeys(c, done))
  }

  lemma FollowPlace(c: Setting, n0: nat, done: seq<HumanIssue>, r: Run, i: HumanIssue)
    requires !c.dry && FreshIds(c.events, n0) && Follow(c, n0, done, r) && !HasKept(c, i)
    ensures Follow(c, n0, done + [i], Place(c, r, i))
  {
    OccupiedMatters(c, KeptKeys(c, done), r.occupied);
    assert FirstMatching(AvailableSlots(ViewOf(c, r.occupied)), c.tag) == SlotPast(c, done);
    FollowMeans(c, n0, done, r);
    hide *;
    var next, found := Place(c, r, i), SlotPast(c, done);
    PlaceAt(c, r, i, found);
    GrantsSnoc(c, done, i);
    GivenNext(CreatedEvents(r.ops), Grants(c, done), CreatedEvents(next.ops), Grants(c, done + [i]), i, found);
    FollowWith(c, n0, done, r, i, next);
  }

  lemma FollowMeans(c: Setting, n0: nat, done: seq<HumanIssue>, r: Run)
    requires Follow(c, n0, done, r)
    ensures AllGiven(CreatedEvents(r.ops), Grants(c, done)) && r.nextId >= n0
  {
    hide AllGiven, CreatedEvents, Grants, KeptKeys;
  }

  lemma GivenNext(es: seq<Event>, gs: seq<Grant>, es': seq<Event>, gs': seq<Grant>, i: HumanIssue, found: Option<Slot>)
    requires AllGiven(es, gs)
    requires gs' == gs + match found case None => [] case Some(sl) => [Grant(i.number, sl.start, sl.end)]
    requires if found.None? then es' == es
             else |es'| == |es| + 1 && es <= es' && Gives(es'[|es|], Grant(i.number, found.value.start, found.value.end))
    ensures AllGiven(es', gs')
  {
    hide Gives;
    forall k | 0 <= k < |es'| ensures Gives(es'[k], gs'[k]) {
      if k < |es| { assert es'[k] == es[k]; }
    }
  }

  lemma FollowWith(c: Setting, n0: nat, done: seq<HumanIssue>, r: Run, i: HumanIssue, next: Run)
    requires FreshIds(c.events, n0) && Follow(c, n0, done, r)
    requires KeptKeys(c, done + [i]) == KeptKeys(c, done)
    requires AllGiven(CreatedEvents(next.ops), Grants(c, done + [i])) && next.nextId >= n0
    requires next.occupied == r.occupied || next.occupied == r.occupied + [Real(r.nextId)]
    ensures Follow(c, n0, done + [i], next)
  {
    hide AllGiven, CreatedEvents, Grants, KeptKeys;
  }

  /** What a placement does, by the slot found. */
  lemma PlaceAt(c: Setting, r: Run, i: HumanIssue, found: Option<Slot>)
    requires !c.dry && FirstMatching(AvailableSlots(ViewOf(c, r.occupied)), c.tag) == found
    ensures var next := Place(c, r, i);
            if found.None? then
              next.nextId == r.nextId && next.occupied == r.occupied && CreatedEvents(next.ops) == CreatedEvents(r.ops)
            else next.nextId == r.nextId + 1 && next.occupied == r.occupied + [Real(r.nextId)] &&
                 |CreatedEvents(next.ops)| == |CreatedEvents(r.ops)| + 1 && CreatedEvents(r.ops) <= CreatedEvents(next.ops) &&
                 Gives(CreatedEvents(next.ops)[|CreatedEvents(r.ops)|], Grant(i.number, found.value.start, found.value.end))
  {
    hide FirstMatching, AvailableSlots, ViewOf, NewEvent, CreatedEvents, Gives;
    if found.Some? {
      CreatedSnoc(r.ops, Create(NewEvent(c, i, found.value, r.nextId)));
      NewGiven(c, i, found.value, r.nextId);
    }
  }

  lemma NewGiven(c: Setting, i: HumanIssue, sl: Slot, id: nat)
    ensures Gives(NewEvent(c, i, sl, id), Grant(i.number, sl.start, sl.end))
  {
    hide Dec, DecisionTitle, ParseEventTitle;
  }

  lemma GrantsSnoc(c: Setting, done: seq<HumanIssue>, i: HumanIssue)
    requires !HasKept(c, i)
    ensures KeptKeys(c, done + [i]) == KeptKeys(c, done)
    ensures Grants(c, done + [i]) ==
            Grants(c, done) + match SlotPast(c, done) case None => [] case Some(sl) => [Grant(i.number, sl.start, sl.end)]
  {
    assert (done + [i])[..|done|] == done;
    hide HasKept, SlotPast;
  }

  lemma FollowDrop(c: Setting, n0: nat, done: seq<HumanIssue>, r: Run, e: Event)
    requires !c.dry && Follow(c, n0, done, r)
    ensures Follow(c, n0, done, Drop(c, r, e))
  {
    CreatedSnoc(r.ops, Delete(e.id));
    hide CreatedEvents, Grants, KeptKeys, AllGiven;
    assert CreatedEvents(r.ops) + [] == CreatedEvents(r.ops);
  }

  lemma FollowKeep(c: Setting, n0: nat, done: seq<HumanIssue>, r: Run, i: HumanIssue, e: Event)
    requires Follow(c, n0, done, r) && HasKept(c, i) && LastWith(c.events, Dec(i.number)) == Some(e)
    ensures Follow(c, n0, done + [i], Keep(r, i, e))
  {
    assert (done + [i])[..|done|] == done;
    hide HasKept, LastWith, Dec, SlotPast, CreatedEvents, AllGiven;
    assert Grants(c, done) + [] == Grants(c, done);
  }

  lemma FollowStep(c: Setting, n0: nat, done: seq<HumanIssue>, r: Run, i: HumanIssue)
    requires !c.dry && FreshIds(c.events, n0) && Follow(c, n0, done, r)
    ensures Follow(c, n0, done + [i], Step(c, r, i))
  {
    hide Follow, Place, Keep, Drop, LastWith, Dec, Keeps, FreshIds;
    var found := LastWith(c.events, Dec(i.number));
    if found.None? {
      FollowPlace(c, n0, done, r, i);
    } else if Keeps(c, found.value) {
      FollowKeep(c, n0, done, r, i, found.value);
    } else {
      FollowDrop(c, n0, done, r, found.value);
      FollowPlace(c, n0, done, Drop(c, r, found.value), i);
    }
  }

  lemma {:induction false} FollowAll(c: Setting, n0: nat, issues: seq<HumanIssue>)
    requires !c.dry && FreshIds(c.events, n0)
    ensures Follow(c, n0, issues, Processed(c, n0, issues))
  {
    if issues == [] {
    } else {
      var n := |issues| - 1;
      FollowAll(c, n0, issues[..n]);
      ProcessedUnfold(c, n0, issues);
      hide Step, Processed, Follow, FreshIds;
      FollowStep(c, n0, issues[..n], Processed(c, n0, issues[..n]), issues[n]);
      assert issues[..n] + [issues[n]] == issues;
    }
  }

  lemma {:induction false} SweepCreates(c: Setting, issues: seq<HumanIssue>, r: Run, seen: seq<Event>)
    ensures CreatedEvents(Sweep(c, issues, r, seen).ops) == CreatedEvents(r.ops)
  {
    if seen == [] {
    } else {
      var n := |seen| - 1;
      SweepCreates(c, issues, r, seen[..n]);
      CreatedSnoc(Sweep(c, issues, r, seen[..n]).ops, Delete(seen[n].id));
      hide Orphan, CreatedEvents;
    }
  }

  /** A reconcile creates exactly these decisions: one per listed issue without a kept one whose search finds a slot. */
  lemma CreatesExactly(c: Setting, n0: nat, issues: seq<HumanIssue>)
    requires !c.dry && FreshIds(c.events, n0)
    ensures AllGiven(CreatedEvents(Plan(c, n0, issues).ops), Grants(c, issues))
  {
    FollowAll(c, n0, issues);
    SweepCreates(c, issues, Processed(c, n0, issues), c.events);
    hide Processed, Sweep, CreatedEvents, Grants, AllGiven;
  }

  lemma {:induction false} CreatedMember(ops: seq<Op>, e: Event)
    ensures e in CreatedEvents(ops) <==> Create(e) in ops
  {
    if ops == [] {
    } else {
      var n := |ops| - 1;
      CreatedMember(ops[..n], e);
      assert ops == ops[..n] + [ops[n]];
    }
  }

  // ---------- keeping clear of everything scheduled ----------

  /** The interval overlaps nothing that is scheduled in the snapshot. */
  ghost predicate Clear(c: Setting, start: int, end: int) {
    forall x :: x in c.events && IsScheduled(x) ==> !Overlaps(start, end, x.start, x.end)
  }

  /** The search that looks past nothing finds a slot with this start. */
  predicate StartsOpen(c: Setting, start: int) {
    StartOf(OpenSlot(c)) == Some(start)
  }

  lemma OpenIsStricter(c: Setting, occupied: seq<Key>, start: int)
    ensures Candidate(ViewOf(c, []), c.tag, start) <==>
            Candidate(ViewOf(c, occupied), c.tag, start) && Clear(c, start, start + SLOT)
  {
    ViewMembers(c, []);
    ViewMembers(c, occupied);
    hide WindowMatchesTag, IsWindow, TagsOf, Overlaps, IsScheduled, IsBlocker, ViewOf;
  }

  /** The earliest start of a looser search is that of a stricter one exactly if the stricter one admits it. */
  lemma BothEarliest(looser: View, stricter: View, tag: Option<string>, start: int, open: Option<int>)
    requires Earliest(looser, tag, Some(start)) && Earliest(stricter, tag, open)
    requires open.Some? && Candidate(stricter, tag, open.value) ==> Candidate(looser, tag, open.value)
    ensures Candidate(stricter, tag, start) <==> open == Some(start)
  {
    hide Candidate;
  }

  /** A slot found while looking past some decisions is clear of everything exactly if it starts at the open slot. */
  lemma ClearExactlyWhen(c: Setting, occupied: seq<Key>, sl: Slot)
    requires FirstMatching(AvailableSlots(ViewOf(c, occupied)), c.tag) == Some(sl)
    ensures sl.end == sl.start + SLOT && (Clear(c, sl.start, sl.end) <==> StartsOpen(c, sl.start))
  {
    var looser, stricter := ViewOf(c, occupied), ViewOf(c, []);
    var open := StartOf(OpenSlot(c));
    FirstMatchingIsEarliest(looser, c.tag);
    FirstMatchingIsEarliest(stricter, c.tag);
    hide FirstMatching, AvailableSlots, ViewOf, Clear, Candidate;
    assert Earliest(looser, c.tag, Some(sl.start)) && Earliest(stricter, c.tag, open) && sl.end == sl.start + SLOT;
    assert Candidate(looser, c.tag, sl.start);
    hide Earliest, OpenSlot, StartOf;
    OpenIsStricter(c, occupied, sl.start);
    if open.Some? { OpenIsStricter(c, occupied, open.value); }
    BothEarliest(looser, stricter, c.tag, sl.start, open);
  }

  /** The grant is the one of issue `k`. */
  ghost predicate GrantAt(c: Setting, issues: seq<HumanIssue>, g: Grant, k: nat) {
    k < |issues| && !HasKept(c, issues[k]) && SlotPast(c, issues[..k]).Some? &&
    var sl := SlotPast(c, issues[..k]).value;
    g == Grant(issues[k].number, sl.start, sl.end)
  }

  lemma {:induction false} GrantFound(c: Setting, issues: seq<HumanIssue>, j: nat) returns (k: nat)
    requires j < |Grants(c, issues)|
    ensures GrantAt(c, issues, Grants(c, issues)[j], k)
  {
    hide SlotPast, HasKept;
    var n := |issues| - 1;
    var front := Grants(c, issues[..n]);
    if j >= |front| {
      k := n;
    } else {
      k := GrantFound(c, issues[..n], j);
      assert issues[..n][..k] == issues[..k];
    }
  }

  lemma GrantClear(c: Setting, issues: seq<HumanIssue>, j: nat)
    requires j < |Grants(c, issues)|
    ensures var g := Grants(c, issues)[j];
            g.end == g.start + SLOT && (Clear(c, g.start, g.end) <==> StartsOpen(c, g.start))
  {
    var k := GrantFound(c, issues, j);
    hide Grants, HasKept, StartsOpen, FirstMatching, AvailableSlots, ViewOf, Clear, KeptKeys;
    ClearExactlyWhen(c, KeptKeys(c, issues[..k]), SlotPast(c, issues[..k]).value);
  }

  /**
   * Before the reconcile: the slot that the search for issue `k` finds, looking past the decisions kept for the issues of
   * higher priority, is clear of everything scheduled exactly if the search that looks past nothing finds the same start.
   */
  lemma SlotClearExactlyWhen(c: Setting, issues: seq<HumanIssue>, k: nat)
    requires k < |issues| && SlotPast(c, issues[..k]).Some?
    ensures var sl := SlotPast(c, issues[..k]).value;
            Clear(c, sl.start, sl.end) <==> StartOf(SlotPast(c, issues[..k])) == StartOf(OpenSlot(c))
  {
    hide FirstMatching, AvailableSlots, ViewOf, Clear, KeptKeys;
    ClearExactlyWhen(c, KeptKeys(c, issues[..k]), SlotPast(c, issues[..k]).value);
  }

  /**
   * A created decision keeps clear of everything scheduled exactly if it starts at the slot that a search finds when it
   * looks past nothing.
   */
  lemma KeepsClearExactlyWhen(c: Setting, n0: nat, issues: seq<HumanIssue>, e: Event)
    requires !c.dry && FreshIds(c.events, n0) && Create(e) in Plan(c, n0, issues).ops
    ensures e.end == e.start + SLOT && (Clear(c, e.start, e.end) <==> StartsOpen(c, e.start))
  {
    CreatesExactly(c, n0, issues);
    CreatedMember(Plan(c, n0, issues).ops, e);
    var es, gs := CreatedEvents(Plan(c, n0, issues).ops), Grants(c, issues);
    hide Plan, CreatedEvents, Grants, StartsOpen, Clear, FreshIds;
    var j :| 0 <= j < |es| && es[j] == e;
    GrantClear(c, issues, j);
    assert Gives(es[j], gs[j]);
  }

  // ---------- keeping clear of each other as well ----------

  ghost predicate AllClear(c: Setting, es: seq<Event>) {
    PairwiseDisjoint(es) && forall j :: 0 <= j < |es| ==> Clear(c, es[j].start, es[j].end)
  }

  lemma GivenClear(c: Setting, issues: seq<HumanIssue>, es: seq<Event>, j: nat)
    requires AllGiven(es, Grants(c, issues)) && j < |es|
    ensures Gives(es[j], Grants(c, issues)[j]) && es[j].end == es[j].start + SLOT
    ensures Clear(c, es[j].start, es[j].end) <==> StartsOpen(c, es[j].start)
  {
    GrantClear(c, issues, j);
    hide Grants, StartsOpen, Clear;
  }

  /**
   * On any calendar: the created decisions keep clear of each other and of everything scheduled exactly if there is none,
   * or one, which starts at the open slot. How many there are and where they start is read off the snapshot by `Grants`.
   */
  lemma NewDecisionsClearExactlyWhen(c: Setting, n0: nat, issues: seq<HumanIssue>)
    requires !c.dry && FreshIds(c.events, n0)
    ensures var es, gs := CreatedEvents(Plan(c, n0, issues).ops), Grants(c, issues);
            |es| == |gs| && (AllClear(c, es) <==> gs == [] || (|gs| == 1 && StartsOpen(c, gs[0].start)))
  {
    CreatesExactly(c, n0, issues);
    hide *;
    ClearByCount(c, issues, CreatedEvents(Plan(c, n0, issues).ops));
  }

  lemma ClearByCount(c: Setting, issues: seq<HumanIssue>, es: seq<Event>)
    requires AllGiven(es, Grants(c, issues))
    ensures var gs := Grants(c, issues);
            |es| == |gs| && (AllClear(c, es) <==> gs == [] || (|gs| == 1 && StartsOpen(c, gs[0].start)))
  {
    hide Grants, Clear, StartsOpen, Gives;
    if |es| > 1 {
      TwoAreNotClear(c, issues, es);
      hide AllClear;
    } else if |es| == 1 {
      GivenClear(c, issues, es, 0);
      GivenStart(es[0], Grants(c, issues)[0]);
    }
  }

  lemma TwoAreNotClear(c: Setting, issues: seq<HumanIssue>, es: seq<Event>)
    requires AllGiven(es, Grants(c, issues)) && |es| > 1
    ensures !AllClear(c, es)
  {
    GivenClear(c, issues, es, 0);
    GivenClear(c, issues, es, 1);
    hide Grants, Clear, StartsOpen, AllGiven, Gives;
    if AllClear(c, es) { BothOpen(c, es[0], es[1]); }
  }

  lemma BothOpen(c: Setting, a: Event, b: Event)
    requires StartsOpen(c, a.start) && StartsOpen(c, b.start) && a.end == a.start + SLOT && b.end == b.start + SLOT
    ensures Overlaps(a.start, a.end, b.start, b.end)
  {
    hide OpenSlot;
  }

  lemma GivenStart(e: Event, g: Grant)
    requires Gives(e, g)
    ensures e.start == g.start
  {
    hide Dec;
  }

  /** On any calendar: the created decisions are pairwise disjoint exactly if the granted slots are. */
  lemma NewDecisionsDisjointExactlyWhen(c: Setting, n0: nat, issues: seq<HumanIssue>)
    requires !c.dry && FreshIds(c.events, n0)
    ensures PairwiseDisjoint(CreatedEvents(Plan(c, n0, issues).ops)) <==> Apart(Grants(c, issues))
  {
    CreatesExactly(c, n0, issues);
    var es, gs := CreatedEvents(Plan(c, n0, issues).ops), Grants(c, issues);
    hide Plan, CreatedEvents, Grants, FreshIds, Dec;
    assert forall j :: 0 <= j < |es| ==> Gives(es[j], gs[j]);
    hide Overlaps;
  }

  ghost predicate Apart(gs: seq<Grant>) {
    forall i, j :: 0 <= i < j < |gs| ==> !Overlaps(gs[i].start, gs[i].end, gs[j].start, gs[j].end)
  }

  /** No listed issue has a decision that is kept. */
  predicate NoneKept(c: Setting, issues: seq<HumanIssue>) {
    forall i :: i in issues ==> !HasKept(c, i)
  }

  /** In particular, if no listed issue has a kept decision, all of them are given the open slot, or none is given any. */
  lemma {:induction false} AllStacked(c: Setting, issues: seq<HumanIssue>)
    requires NoneKept(c, issues)
    ensures KeptKeys(c, issues) == [] && |Grants(c, issues)| == (if OpenSlot(c).Some? then |issues| else 0)
    ensures forall g :: g in Grants(c, issues) ==> StartsOpen(c, g.start)
  {
    if issues == [] {
    } else {
      var n := |issues| - 1;
      assert issues[n] in issues;
      hide HasKept, FirstMatching, AvailableSlots, ViewOf;
      AllStacked(c, issues[..n]);
      assert SlotPast(c, issues[..n]) == OpenSlot(c);
      hide SlotPast, OpenSlot;
    }
  }

  // ---------- new decisions and kept ones ----------

  /** What a created decision can meet: only decisions of issues handled before it, which were kept. */
  ghost predicate MeetsOnlyKept(c: Setting, issues: seq<HumanIssue>, e: Event) {
    forall x :: x in c.events && IsScheduled(x) && Overlaps(e.start, e.end, x.start, x.end) ==> OwnedBy(issues, x) && Keeps(c, x)
  }

  lemma StepMeets(c: Setting, n0: nat, done: seq<HumanIssue>, r: Run, i: HumanIssue, e: Event)
    requires Ready(c, n0) && Inv(c, n0, done, r) && KeptMarked(c, r)
    requires Create(e) in Step(c, r, i).ops && Create(e) !in r.ops
    ensures MeetsOnlyKept(c, done, e)
  {
    hide InEligibleWindow, IsScheduled, IsDecision, Dec, FirstMatching, AvailableSlots, ViewOf, Keeps, OpenFor, LastWith,
      ApplyAll;
    var found := FirstMatching(AvailableSlots(ViewOf(c, r.occupied)), c.tag);
    assert found.Some? && e == NewEvent(c, i, found.value, r.nextId) by { hide Inv, NewEvent, KeptMarked; }
    PlacedWell(c, r.occupied, i, r.nextId);
    hide NewEvent, Step;
  }

  /** The events of the snapshot that are marked as occupied were kept. */
  ghost predicate KeptMarked(c: Setting, r: Run) {
    forall x :: x in c.events && Real(x.id) in r.occupied ==> Keeps(c, x)
  }

  lemma StepMarks(c: Setting, n0: nat, r: Run, i: HumanIssue)
    requires Ready(c, n0) && KeptMarked(c, r) && r.nextId >= n0
    ensures KeptMarked(c, Step(c, r, i))
  {
    hide FirstMatching, AvailableSlots, ViewOf, Dec, Keeps, NewEvent, OneEach, UsableTag;
    var found := LastWith(c.events, Dec(i.number));
    assert found.Some? ==> found.value in c.events;
    hide LastWith;
  }

  lemma {:induction false} MarkedAfter(c: Setting, n0: nat, issues: seq<HumanIssue>)
    requires Ready(c, n0) && Distinct(issues)
    ensures KeptMarked(c, Processed(c, n0, issues))
  {
    if issues == [] {
    } else {
      var n := |issues| - 1;
      MarkedAfter(c, n0, issues[..n]);
      ProcessedInv(c, n0, issues[..n]);
      assert Processed(c, n0, issues[..n]).nextId >= n0;
      ProcessedUnfold(c, n0, issues);
      hide *;
      StepMarks(c, n0, Processed(c, n0, issues[..n]), issues[n]);
    }
  }

  lemma {:induction false} ProcessedMeets(c: Setting, n0: nat, issues: seq<HumanIssue>, e: Event)
    requires Ready(c, n0) && Distinct(issues) && Create(e) in Processed(c, n0, issues).ops
    ensures MeetsOnlyKept(c, issues, e)
  {
    if issues == [] {
      assert false;
    } else {
      var n := |issues| - 1;
      ProcessedUnfold(c, n0, issues);
      hide Processed, Step, MeetsOnlyKept, Inv, Ready, KeptMarked;
      if Create(e) in Processed(c, n0, issues[..n]).ops {
        ProcessedMeets(c, n0, issues[..n], e);
      } else {
        ProcessedInv(c, n0, issues[..n]);
        MarkedAfter(c, n0, issues[..n]);
        StepMeets(c, n0, issues[..n], Processed(c, n0, issues[..n]), issues[n], e);
      }
      MeetsMore(c, issues, e);
    }
  }

  lemma MeetsMore(c: Setting, issues: seq<HumanIssue>, e: Event)
    requires issues != [] && MeetsOnlyKept(c, issues[..|issues| - 1], e)
    ensures MeetsOnlyKept(c, issues, e)
  {
    hide IsScheduled, Keeps, IsDecision, Dec, Overlaps;
    var n := |issues| - 1;
    forall x | OwnedBy(issues[..n], x) ensures OwnedBy(issues, x) {
      var i :| i in issues[..n] && Dec(i.number) == x.conductrId.value;
      assert i in issues;
    }
  }

  /**
   * A created decision overlaps a scheduled event exactly if it does not start at the open slot, and then only decisions
   * that the same reconcile kept.
   */
  lemma CreatedMeetsOnlyKept(c: Setting, n0: nat, issues: seq<HumanIssue>, e: Event)
    requires Ready(c, n0) && Distinct(issues) && Create(e) in Plan(c, n0, issues).ops
    ensures MeetsOnlyKept(c, issues, e) && (Clear(c, e.start, e.end) <==> StartsOpen(c, e.start))
  {
    KeepsClearExactlyWhen(c, n0, issues, e);
    SweepCreatesNothing(c, issues, Processed(c, n0, issues), c.events, Create(e));
    hide Processed, Sweep, MeetsOnlyKept, Clear, StartsOpen;
    ProcessedMeets(c, n0, issues, e);
  }

  // ---------- two calendars ----------

  /** A window of one hour, and a decision of issue 1 in its first half. */
  const HOUR := Event(0, Window([]), 0, 2 * SLOT, None, None)
  const FIRST := Event(1, Decision(None, "first"), 0, SLOT, Some(Dec(1)), Some(0))

  const ONE := HumanIssue(1, "first", {})
  const TWO := HumanIssue(2, "second", {})

  function Empty(): Setting {
    Setting([HOUR], None, 0, false)
  }

  function Half(): Setting {
    Setting([HOUR, FIRST], None, 0, false)
  }

  lemma HalfViews(occupied: seq<Key>)
    requires Real(1) in occupied
    ensures var v := ViewOf(Half(), occupied); v.windows == [HOUR] && v.blockers == [] && v.now == 0 && v.Free(0)
  {
    assert [HOUR, FIRST][1..] == [FIRST] && [FIRST][1..] == [];
    ViewMembers(Half(), occupied);
    assert Select([FIRST], IsWindow) == [] && Select([FIRST], IsBlocker) == [];
  }

  lemma EmptyViews(occupied: seq<Key>)
    ensures var v := ViewOf(Empty(), occupied); v.windows == [HOUR] && v.blockers == [] && v.now == 0 && v.Free(0)
  {
    assert [HOUR][1..] == [];
    assert Select([], IsWindow) == [] && Select([], IsBlocker) == [];
    assert Select([HOUR], IsWindow) == [HOUR] + [] && Select([HOUR], IsBlocker) == [] + [];
    ViewMembers(Empty(), occupied);
  }

  lemma FirstSlot(v: View)
    requires v.windows == [HOUR] && v.now == 0 && v.Free(0)
    ensures var found := FirstMatching(AvailableSlots(v), None);
            found.Some? && found.value.start == 0 && found.value.end == SLOT
  {
    FirstMatchingIsEarliest(v, None);
    hide FirstMatching, AvailableSlots;
    assert HOUR in v.windows && GridStart(HOUR, 0) == 0;
    assert Candidate(v, None, 0);
    var start := FirstMatching(AvailableSlots(v), None).value.start;
    assert Candidate(v, None, start) && start >= v.now by { hide Overlaps; }
  }

  lemma NumbersDiffer()
    ensures Dec(1) != Dec(2)
  {
    if Dec(1) == Dec(2) { DecInjective(1, 2); }
  }

  lemma NoneInHour(cid: string)
    ensures LastWith([HOUR], cid).None?
  {
    assert [HOUR][..0] == [];
  }

  /** Two issues without decisions both get the first half of the hour. */
  lemma NewMeetsNew()
    ensures var es := CreatedEvents(Plan(Empty(), 1, [ONE, TWO]).ops);
            |es| == 2 && es[0].start == es[1].start == 0 && es[0].end == es[1].end == SLOT
  {
    EmptyGrants();
    CreatesExactly(Empty(), 1, [ONE, TWO]) by { hide *; EmptyIsFresh(); }
    var es := CreatedEvents(Plan(Empty(), 1, [ONE, TWO]).ops);
    hide *;
    AllGivenCount(es, Grants(Empty(), [ONE, TWO]));
    AtOpen(Empty(), [ONE, TWO], es, 0);
    AtOpen(Empty(), [ONE, TWO], es, 1);
  }

  lemma EmptyIsFresh()
    ensures !Empty().dry && FreshIds(Empty().events, 1)
  {
  }

  lemma AllGivenCount(es: seq<Event>, gs: seq<Grant>)
    requires AllGiven(es, gs)
    ensures |es| == |gs|
  {
    hide Gives;
  }

  lemma EmptyGrants()
    ensures var gs := Grants(Empty(), [ONE, TWO]);
            |gs| == 2 && StartsOpen(Empty(), gs[0].start) && StartsOpen(Empty(), gs[1].start) &&
            StartOf(OpenSlot(Empty())) == Some(0)
  {
    var issues := [ONE, TWO];
    var gs := Grants(Empty(), issues);
    hide LastWith, Dec, FirstMatching, AvailableSlots, ViewOf, Grants, KeptKeys, Keeps;
    forall cid { NoneInHour(cid); }
    assert NoneKept(Empty(), issues);
    EmptyViews([]);
    FirstSlot(ViewOf(Empty(), []));
    hide HasKept;
    AllStacked(Empty(), issues);
    hide OpenSlot;
    assert |gs| == 2;
    assert gs[0] in gs && gs[1] in gs;
  }

  lemma AtOpen(c: Setting, issues: seq<HumanIssue>, es: seq<Event>, j: nat)
    requires AllGiven(es, Grants(c, issues)) && j < |es| && StartsOpen(c, Grants(c, issues)[j].start)
    ensures Some(es[j].start) == StartOf(OpenSlot(c)) && es[j].end == es[j].start + SLOT
  {
    GivenClear(c, issues, es, j);
    hide Grants, Clear, OpenSlot, Dec;
  }

  lemma NoneForTwo()
    ensures LastWith(Half().events, Dec(2)) == None
  {
    NumbersDiffer();
    hide Dec;
    assert [HOUR, FIRST][..1] == [HOUR];
    NoneInHour(Dec(2));
  }

  /** The state after issue 1, whose decision is kept. */
  function FirstKept(): Run {
    Keep(Run([], [], 2, SyncReport([], [], [], [])), ONE, FIRST)
  }

  lemma PlacedOnFirst()
    ensures var r := Place(Half(), FirstKept(), TWO);
            r.report.kept == [1] && r.ops != [] && r.ops[0].Create? &&
            r.ops[0].event.conductrId == Some(Dec(2)) &&
            Overlaps(r.ops[0].event.start, r.ops[0].event.end, FIRST.start, FIRST.end)
  {
    HalfViews(FirstKept().occupied);
    FirstSlot(ViewOf(Half(), FirstKept().occupied));
    hide LastWith, Dec, FirstMatching, AvailableSlots, ViewOf, DecisionTitle, ParseEventTitle;
  }

  /** The decision of issue 1 is kept, and the new one of issue 2 is put on top of it. */
  lemma NewMeetsKept()
    ensures var r := Plan(Half(), 2, [ONE, TWO]);
            r.report.kept == [1] && r.ops != [] && r.ops[0].Create? &&
            r.ops[0].event.conductrId == Some(Dec(2)) &&
            Overlaps(r.ops[0].event.start, r.ops[0].event.end, FIRST.start, FIRST.end)
  {
    HalfPlan();
    PlacedOnFirst();
    hide *;
    SweepExtends(Half(), [ONE, TWO], Place(Half(), FirstKept(), TWO), Half().events);
    SweepKeeps(Half(), [ONE, TWO], Place(Half(), FirstKept(), TWO), Half().events);
  }

  lemma HalfPlan()
    ensures Plan(Half(), 2, [ONE, TWO]) == Sweep(Half(), [ONE, TWO], Place(Half(), FirstKept(), TWO), Half().events)
  {
    KeptFirst();
    NoneForTwo();
    assert [ONE, TWO][..1] == [ONE];
    ProcessedUnfold(Half(), 2, [ONE, TWO]);
    hide LastWith, Dec, Processed, Place, FirstKept, Sweep, Keep;
  }

  lemma {:induction false} SweepKeeps(c: Setting, issues: seq<HumanIssue>, r: Run, seen: seq<Event>)
    ensures Sweep(c, issues, r, seen).report.kept == r.report.kept
  {
    if seen == [] {
    } else {
      SweepKeeps(c, issues, r, seen[..|seen| - 1]);
      hide Orphan;
    }
  }

  lemma KeptFirst()
    ensures Processed(Half(), 2, [ONE]) == FirstKept()
  {
    var c := Half();
    assert LastWith(c.events, Dec(1)) == Some(FIRST) by {
      hide Dec;
      assert FIRST in c.events && Identified(FIRST, Dec(1));
    }
    assert HOUR in c.events && IsWindow(HOUR);
    assert InEligibleWindow(c.events, None, FIRST);
    assert [ONE][..0] == [];
    assert Processed(c, 2, []) == Run([], [], 2, SyncReport([], [], [], []));
    hide LastWith, Dec, InEligibleWindow, Place;
  }
}
