/**
 * Free 30-minute slots in calendar windows: the sorted list of all of them (`reconcile.rs`)
 * and the search for the earliest one (`schedule_test.rs`).
 */
module CalendarSlots {
  import opened Options
  import opened CalendarTitles

  /** An event: its title by what it parses to, its description by what it identifies; instants are in seconds. */
  datatype Event = Event(id: nat, kind: EventKind, start: int, end: int, conductrId: Option<string>, originally: Option<int>)

  /** Identities that occupy a slot in one run: events, and placeholders of a dry run. */
  datatype Key = Real(id: nat) | Dry(issue: nat)

  const SLOT := 30 * 60

  datatype Slot = Slot(start: int, end: int, tags: seq<string>)

  predicate IsWindow(w: Event) {
    w.kind.Window?
  }

  function TagsOf(w: Event): seq<string>
    requires IsWindow(w)
  {
    w.kind.tags
  }

  predicate BlockedAt(blockers: seq<Event>, start: int) {
    exists b :: b in blockers && Overlaps(start, start + SLOT, b.start, b.end)
  }

  predicate OccupiedAt(scheduled: seq<Event>, occupied: seq<Key>, start: int) {
    exists s :: s in scheduled && Real(s.id) !in occupied && Overlaps(start, start + SLOT, s.start, s.end)
  }

  predicate FreeAt(blockers: seq<Event>, scheduled: seq<Event>, occupied: seq<Key>, now: int, start: int) {
    !BlockedAt(blockers, start) && !OccupiedAt(scheduled, occupied, start) && start >= now
  }

  /** The events a search looks at. */
  datatype View = View(windows: seq<Event>, blockers: seq<Event>, scheduled: seq<Event>, occupied: seq<Key>, now: int) {
    predicate Free(start: int) {
      FreeAt(blockers, scheduled, occupied, now, start)
    }
  }

  /** Slot `k` of window `w`. */
  function GridStart(w: Event, k: nat): int {
    w.start + k * SLOT
  }

  /** The free slots of one window from slot `k` on. */
  function WindowSlots(v: View, w: Event, tags: seq<string>, k: nat): seq<Slot>
    decreases w.end - GridStart(w, k)
  {
    var start := GridStart(w, k);
    if start + SLOT > w.end then []
    else (if v.Free(start) then [Slot(start, start + SLOT, tags)] else []) + WindowSlots(v, w, tags, k + 1)
  }

  function AllSlots(v: View, windows: seq<Event>): seq<Slot> {
    if windows == [] then []
    else
      (if IsWindow(windows[0]) then WindowSlots(v, windows[0], TagsOf(windows[0]), 0) else []) + AllSlots(v, windows[1..])
  }

  /** `sl` is slot `k` of window `w`, inside it and free. */
  ghost predicate IsSlotOf(v: View, w: Event, k: nat, sl: Slot) {
    IsWindow(w) && sl.tags == TagsOf(w) &&
    sl.start == GridStart(w, k) && sl.end == sl.start + SLOT && sl.end <= w.end && v.Free(sl.start)
  }

  lemma {:induction false} WindowSlotsMeaning(v: View, w: Event, tags: seq<string>, k: nat, sl: Slot)
    requires IsWindow(w) && tags == TagsOf(w)
    ensures sl in WindowSlots(v, w, tags, k) <==> exists j: nat :: j >= k && IsSlotOf(v, w, j, sl)
    decreases w.end - GridStart(w, k)
  {
    hide View.Free, IsWindow, TagsOf;
    var start := GridStart(w, k);
    if start + SLOT > w.end {
      forall j: nat | j >= k ensures !IsSlotOf(v, w, j, sl) { assert GridStart(w, j) >= start; }
    } else {
      WindowSlotsMeaning(v, w, tags, k + 1, sl);
      if j: nat :| j >= k && IsSlotOf(v, w, j, sl) {
        if j != k { assert j >= k + 1; }
      }
      assert sl == Slot(start, start + SLOT, tags) && v.Free(start) ==> IsSlotOf(v, w, k, sl);
    }
  }

  lemma {:induction false} AllSlotsMeaning(v: View, windows: seq<Event>, sl: Slot)
    ensures sl in AllSlots(v, windows) <==> exists w, k: nat :: w in windows && IsSlotOf(v, w, k, sl)
  {
    hide IsWindow, TagsOf;
    if windows == [] {
    } else {
      AllSlotsMeaning(v, windows[1..], sl);
      var w := windows[0];
      if IsWindow(w) { WindowSlotsMeaning(v, w, TagsOf(w), 0, sl); }
      hide IsSlotOf;
      assert forall x :: x in windows <==> x == w || x in windows[1..];
    }
  }

  // ---------- sorting by start ----------

  function InsertSlot(x: Slot, s: seq<Slot>): seq<Slot> {
    if s == [] || x.start <= s[0].start then [x] + s else [s[0]] + InsertSlot(x, s[1..])
  }

  /** `sort_by_key` on the start; slots with the same start keep their order. */
  function SortSlots(s: seq<Slot>): seq<Slot> {
    if s == [] then [] else InsertSlot(s[0], SortSlots(s[1..]))
  }

  ghost predicate ByStart(s: seq<Slot>) {
    forall i, j :: 0 <= i < j < |s| ==> s[i].start <= s[j].start
  }

  lemma {:induction false} InsertSlotMembers(x: Slot, s: seq<Slot>)
    ensures multiset(InsertSlot(x, s)) == multiset(s) + multiset{x}
    ensures forall y :: y in InsertSlot(x, s) <==> y == x || y in s
  {
    if s == [] {
    } else {
      assert s == [s[0]] + s[1..];
      InsertSlotMembers(x, s[1..]);
    }
  }

  lemma {:induction false} InsertSlotSorted(x: Slot, s: seq<Slot>)
    requires ByStart(s)
    ensures ByStart(InsertSlot(x, s))
  {
    if s != [] && x.start > s[0].start {
      InsertSlotSorted(x, s[1..]);
      InsertSlotMembers(x, s[1..]);
      var r := InsertSlot(x, s[1..]);
      hide InsertSlot;
      forall i | 0 <= i < |r| ensures s[0].start <= r[i].start { assert r[i] in r; }
      LeadByStart(s[0], r);
      assert InsertSlot(x, s) == [s[0]] + r by { InsertSlotLater(x, s); }
    } else {
      LeadByStart(x, s);
    }
  }

  lemma InsertSlotLater(x: Slot, s: seq<Slot>)
    requires s != [] && x.start > s[0].start
    ensures InsertSlot(x, s) == [s[0]] + InsertSlot(x, s[1..])
  {
  }

  lemma LeadByStart(x: Slot, s: seq<Slot>)
    requires ByStart(s) && (forall i :: 0 <= i < |s| ==> x.start <= s[i].start)
    ensures ByStart([x] + s)
  {
  }

  lemma {:induction false} SortSlotsSorted(s: seq<Slot>)
    ensures ByStart(SortSlots(s))
    ensures multiset(SortSlots(s)) == multiset(s)
    ensures forall y :: y in SortSlots(s) <==> y in s
  {
    if s == [] {
    } else {
      SortSlotsSorted(s[1..]);
      InsertSlotSorted(s[0], SortSlots(s[1..]));
      InsertSlotMembers(s[0], SortSlots(s[1..]));
      assert s == [s[0]] + s[1..];
    }
  }

  // ---------- all slots ----------

  /** The free slots of one window, walking it in steps of one slot. */
  method CarveWindow(v: View, w: Event, tags: seq<string>) returns (slots: seq<Slot>)
    ensures slots == WindowSlots(v, w, tags, 0)
  {
    slots := [];
    var slotStart := w.start;
    ghost var k: nat := 0;
    while slotStart + SLOT <= w.end
      invariant slotStart == GridStart(w, k)
      invariant WindowSlots(v, w, tags, 0) == slots + WindowSlots(v, w, tags, k)
      decreases w.end - slotStart
    {
      var slotEnd := slotStart + SLOT;
      CarveStep(v, w, tags, k, slots);
      if v.Free(slotStart) {
        slots := slots + [Slot(slotStart, slotEnd, tags)];
      }
      slotStart := slotEnd;
      k := k + 1;
    }
    assert slots + [] == slots;
  }

  lemma CarveStep(v: View, w: Event, tags: seq<string>, k: nat, slots: seq<Slot>)
    requires GridStart(w, k) + SLOT <= w.end
    ensures var start := GridStart(w, k);
            slots + WindowSlots(v, w, tags, k) ==
            (if v.Free(start) then slots + [Slot(start, start + SLOT, tags)] else slots) + WindowSlots(v, w, tags, k + 1)
  {
    hide View.Free;
    var start := GridStart(w, k);
    var rest := WindowSlots(v, w, tags, k + 1);
    if v.Free(start) {
      assert slots + ([Slot(start, start + SLOT, tags)] + rest) == slots + [Slot(start, start + SLOT, tags)] + rest;
    } else {
      assert [] + rest == rest;
    }
  }

  lemma {:induction false} AllSlotsSnoc(v: View, windows: seq<Event>, w: Event)
    ensures AllSlots(v, windows + [w]) == AllSlots(v, windows) + AllSlots(v, [w])
  {
    hide WindowSlots, IsWindow, TagsOf;
    if windows == [] {
      assert windows + [w] == [w] && [] + AllSlots(v, [w]) == AllSlots(v, [w]);
    } else {
      assert (windows + [w])[1..] == windows[1..] + [w];
      AllSlotsSnoc(v, windows[1..], w);
    }
  }

  lemma OneWindow(v: View, w: Event)
    ensures AllSlots(v, [w]) ==
            if IsWindow(w) then WindowSlots(v, w, TagsOf(w), 0) else []
  {
    hide WindowSlots, IsWindow, TagsOf;
    assert [w][1..] == [];
    assert AllSlots(v, []) == [];
  }

  function AvailableSlots(v: View): seq<Slot> {
    SortSlots(AllSlots(v, v.windows))
  }

  method ComputeAvailableSlots(v: View) returns (slots: seq<Slot>)
    ensures slots == AvailableSlots(v)
    ensures ByStart(slots)
    ensures forall sl :: sl in slots <==> exists w, k: nat :: w in v.windows && IsSlotOf(v, w, k, sl)
  {
    slots := CarveAll(v);
    SortSlotsSorted(slots);
    forall sl ensures sl in SortSlots(slots) <==> exists w, k: nat :: w in v.windows && IsSlotOf(v, w, k, sl) {
      AllSlotsMeaning(v, v.windows, sl);
    }
    slots := SortSlots(slots);
  }

  method CarveAll(v: View) returns (slots: seq<Slot>)
    ensures slots == AllSlots(v, v.windows)
  {
    slots := [];
    for i := 0 to |v.windows|
      invariant slots == AllSlots(v, v.windows[..i])
    {
      var w := v.windows[i];
      assert v.windows[..i + 1] == v.windows[..i] + [w];
      AllSlotsSnoc(v, v.windows[..i], w);
      OneWindow(v, w);
      if IsWindow(w) {
        var own := CarveWindow(v, w, TagsOf(w));
        slots := slots + own;
      }
    }
    assert v.windows[..|v.windows|] == v.windows;
  }

  // ---------- the earliest slot for a tag ----------

  /** Some window for the tag has a free slot that starts at `start`. */
  ghost predicate Candidate(v: View, tag: Option<string>, start: int) {
    exists w, k: nat :: w in v.windows && IsWindow(w) && WindowMatchesTag(TagsOf(w), tag) &&
      start == GridStart(w, k) && start + SLOT <= w.end && v.Free(start)
  }

  ghost predicate Earliest(v: View, tag: Option<string>, r: Option<int>) {
    match r
    case None => forall start :: !Candidate(v, tag, start)
    case Some(t) => Candidate(v, tag, t) && forall start :: Candidate(v, tag, start) ==> t <= start
  }

  /** The first slot of a list whose window accepts the tag. */
  function FirstMatching(slots: seq<Slot>, tag: Option<string>): (r: Option<Slot>)
    ensures r.None? ==> forall i :: 0 <= i < |slots| ==> !WindowMatchesTag(slots[i].tags, tag)
    ensures r.Some? ==> exists i :: 0 <= i < |slots| && slots[i] == r.value && WindowMatchesTag(r.value.tags, tag) &&
                                    forall j :: 0 <= j < i ==> !WindowMatchesTag(slots[j].tags, tag)
  {
    if slots == [] then None
    else if WindowMatchesTag(slots[0].tags, tag) then Some(slots[0])
    else
      var r := FirstMatching(slots[1..], tag);
      assert forall i :: 0 < i < |slots| ==> slots[i] == slots[1..][i - 1];
      assert r.Some? ==> exists i :: 0 <= i < |slots[1..]| && slots[1..][i] == r.value && WindowMatchesTag(r.value.tags, tag) &&
                                     forall j :: 0 <= j < i ==> !WindowMatchesTag(slots[1..][j].tags, tag);
      if r.Some? then
        var i :| 0 <= i < |slots[1..]| && slots[1..][i] == r.value && WindowMatchesTag(r.value.tags, tag) &&
                 forall j :: 0 <= j < i ==> !WindowMatchesTag(slots[1..][j].tags, tag);
        assert slots[i + 1] == r.value;
        r
      else r
  }

  function StartOf(r: Option<Slot>): Option<int> {
    match r case None => None case Some(sl) => Some(sl.start)
  }

  lemma CandidateSlots(v: View, tag: Option<string>, start: int)
    ensures Candidate(v, tag, start) <==>
            exists sl :: sl in AvailableSlots(v) && sl.start == start && WindowMatchesTag(sl.tags, tag)
  {
    SortSlotsSorted(AllSlots(v, v.windows));
    if Candidate(v, tag, start) {
      var w, k: nat :| w in v.windows && IsWindow(w) && WindowMatchesTag(TagsOf(w), tag) &&
        start == GridStart(w, k) && start + SLOT <= w.end && v.Free(start);
      var sl := Slot(start, start + SLOT, TagsOf(w));
      assert IsSlotOf(v, w, k, sl);
      AllSlotsMeaning(v, v.windows, sl);
    }
    if sl :| sl in AvailableSlots(v) && sl.start == start && WindowMatchesTag(sl.tags, tag) {
      AllSlotsMeaning(v, v.windows, sl);
      var w, k: nat :| w in v.windows && IsSlotOf(v, w, k, sl);
    }
  }

  lemma FirstMatchingFirst(slots: seq<Slot>, tag: Option<string>, sl: Slot)
    requires ByStart(slots) && sl in slots && WindowMatchesTag(sl.tags, tag)
    ensures FirstMatching(slots, tag).Some? && FirstMatching(slots, tag).value in slots
    ensures FirstMatching(slots, tag).value.start <= sl.start
  {
    hide WindowMatchesTag;
    var r := FirstMatching(slots, tag);
    var j :| 0 <= j < |slots| && slots[j] == sl;
    var i :| 0 <= i < |slots| && slots[i] == r.value && WindowMatchesTag(r.value.tags, tag) &&
             forall m :: 0 <= m < i ==> !WindowMatchesTag(slots[m].tags, tag);
    assert j >= i;
  }

  /** The first matching entry of the sorted list starts at the earliest candidate, and is a whole slot. */
  lemma FirstMatchingIsEarliest(v: View, tag: Option<string>)
    ensures Earliest(v, tag, StartOf(FirstMatching(AvailableSlots(v), tag)))
    ensures FirstMatching(AvailableSlots(v), tag).Some? ==>
              var sl := FirstMatching(AvailableSlots(v), tag).value; sl.end == sl.start + SLOT
  {
    hide WindowMatchesTag, Candidate, AllSlots;
    var slots := AvailableSlots(v);
    var r := FirstMatching(slots, tag);
    AvailableSorted(v);
    hide AvailableSlots;
    forall start | Candidate(v, tag, start) ensures r.Some? && r.value.start <= start {
      CandidateSlots(v, tag, start);
      var sl :| sl in slots && sl.start == start && WindowMatchesTag(sl.tags, tag);
      FirstMatchingFirst(slots, tag, sl);
    }
    if r.Some? {
      assert r.value in slots;
      CandidateSlots(v, tag, r.value.start);
      SlotWhole(v, r.value);
    }
  }

  lemma AvailableSorted(v: View)
    ensures ByStart(AvailableSlots(v))
  {
    SortSlotsSorted(AllSlots(v, v.windows));
  }

  lemma SlotWhole(v: View, sl: Slot)
    requires sl in AvailableSlots(v)
    ensures sl.end == sl.start + SLOT
  {
    SortSlotsSorted(AllSlots(v, v.windows));
    AllSlotsMeaning(v, v.windows, sl);
  }

  /** `r` is the first free slot start of one window. */
  ghost predicate FirstIn(v: View, w: Event, r: Option<int>) {
    (r.Some? ==> v.Free(r.value) && exists k: nat :: r.value == GridStart(w, k) && r.value + SLOT <= w.end) &&
    forall k: nat :: GridStart(w, k) + SLOT <= w.end && v.Free(GridStart(w, k)) ==> r.Some? && r.value <= GridStart(w, k)
  }

  /** First fit in one window. */
  method FirstFree(v: View, w: Event) returns (r: Option<int>)
    ensures FirstIn(v, w, r)
  {
    var slotStart := w.start;
    ghost var k: nat := 0;
    while slotStart + SLOT <= w.end
      invariant slotStart == GridStart(w, k)
      invariant forall j: nat :: j < k ==> !v.Free(GridStart(w, j))
      decreases w.end - slotStart
    {
      if v.Free(slotStart) {
        return Some(slotStart);
      }
      slotStart := slotStart + SLOT;
      k := k + 1;
    }
    forall j: nat | GridStart(w, j) + SLOT <= w.end ensures !v.Free(GridStart(w, j)) { assert j < k; }
    return None;
  }

  /** Start and end of the earliest slot: first fit per window, then the least. */
  method FindEligibleSlot(v: View, tag: Option<string>) returns (r: Option<(int, int)>)
    ensures Earliest(v, tag, match r case None => None case Some((start, _)) => Some(start))
    ensures r.Some? ==> r.value.1 == r.value.0 + SLOT
  {
    var best: Option<int> := None;
    for i := 0 to |v.windows|
      invariant Earliest(v.(windows := v.windows[..i]), tag, best)
    {
      var w := v.windows[i];
      ghost var before := best;
      assert v.windows[..i + 1] == v.windows[..i] + [w];
      if IsWindow(w) && WindowMatchesTag(TagsOf(w), tag) {
        var first := FirstFree(v, w);
        if first.Some? && (best.None? || first.value < best.value) {
          best := first;
        }
        EarliestSnoc(v, v.windows[..i], w, tag, before, first);
      } else {
        EarliestSkip(v, v.windows[..i], w, tag, before);
      }
    }
    assert v.windows[..|v.windows|] == v.windows && v.(windows := v.windows) == v;
    r := if best.None? then None else Some((best.value, best.value + SLOT));
  }

  lemma CandidateSnoc(v: View, windows: seq<Event>, w: Event, tag: Option<string>, start: int)
    ensures Candidate(v.(windows := windows + [w]), tag, start) <==>
            Candidate(v.(windows := windows), tag, start) || Candidate(v.(windows := [w]), tag, start)
  {
    hide View.Free, WindowMatchesTag, IsWindow, TagsOf;
    assert v.(windows := windows + [w]).Free(start) == v.(windows := windows).Free(start) ==
      v.(windows := [w]).Free(start) by { FreeIgnoresWindows(v, windows, w, start); }
  }

  lemma FreeIgnoresWindows(v: View, windows: seq<Event>, w: Event, start: int)
    ensures v.(windows := windows + [w]).Free(start) == v.Free(start)
    ensures v.(windows := windows).Free(start) == v.Free(start)
    ensures v.(windows := [w]).Free(start) == v.Free(start)
  {
  }

  /** Joining the earliest slot of the windows so far with the first free slot of one more window. */
  lemma EarliestSnoc(v: View, windows: seq<Event>, w: Event, tag: Option<string>, before: Option<int>, first: Option<int>)
    requires Earliest(v.(windows := windows), tag, before)
    requires IsWindow(w) && WindowMatchesTag(TagsOf(w), tag)
    requires FirstIn(v, w, first)
    ensures Earliest(v.(windows := windows + [w]), tag,
                     if first.Some? && (before.None? || first.value < before.value) then first else before)
  {
    hide View.Free, WindowMatchesTag, IsWindow, TagsOf, Candidate;
    var r := if first.Some? && (before.None? || first.value < before.value) then first else before;
    forall start | Candidate(v.(windows := windows + [w]), tag, start) ensures r.Some? && r.value <= start {
      CandidateSnoc(v, windows, w, tag, start);
      if !Candidate(v.(windows := windows), tag, start) {
        OneWindowCandidate(v, w, tag, start);
      }
    }
    if r.Some? {
      CandidateSnoc(v, windows, w, tag, r.value);
      OneWindowCandidate(v, w, tag, r.value);
    }
  }

  lemma OneWindowCandidate(v: View, w: Event, tag: Option<string>, start: int)
    requires IsWindow(w) && WindowMatchesTag(TagsOf(w), tag)
    ensures Candidate(v.(windows := [w]), tag, start) <==>
      exists k: nat :: start == GridStart(w, k) && start + SLOT <= w.end && v.Free(start)
  {
    FreeIgnoresWindows(v, [], w, start);
    hide View.Free, WindowMatchesTag, IsWindow, TagsOf;
    if k: nat :| start == GridStart(w, k) && start + SLOT <= w.end && v.Free(start) {
      assert w in v.(windows := [w]).windows;
    }
  }

  lemma EarliestSkip(v: View, windows: seq<Event>, w: Event, tag: Option<string>, before: Option<int>)
    requires Earliest(v.(windows := windows), tag, before)
    requires !(IsWindow(w) && WindowMatchesTag(TagsOf(w), tag))
    ensures Earliest(v.(windows := windows + [w]), tag, before)
  {
    forall start ensures Candidate(v.(windows := windows + [w]), tag, start) <==> Candidate(v.(windows := windows), tag, start) {
      CandidateSnoc(v, windows, w, tag, start);
      assert !Candidate(v.(windows := [w]), tag, start);
    }
    hide Candidate;
  }

  /** With nothing marked as occupied the two searches find the same slot, or neither finds one. */
  lemma SearchesAgree(v: View, tag: Option<string>, r: Option<(int, int)>)
    requires v.occupied == []
    requires Earliest(v, tag, match r case None => None case Some((start, _)) => Some(start))
    requires r.Some? ==> r.value.1 == r.value.0 + SLOT
    ensures var first := FirstMatching(AvailableSlots(v), tag);
            r == match first case None => None case Some(sl) => Some((sl.start, sl.end))
  {
    FirstMatchingIsEarliest(v, tag);
    hide AvailableSlots, Candidate, FirstMatching;
  }
}
