/** From a plan to a pattern (`from_plan.rs`): one bar per topological batch, padded with rests. */
module FromPlan {
  import opened Notation
  import opened Pattern
  import opened Walks
  import opened PlanSort

  // ---------- choosing rests ----------

  /** The longest note value that fits; the shortest one when none does. */
  function LargestNoteFitting(available: nat): (nv: NoteValue)
    ensures available >= 1 ==> nv.In64ths() <= available
    ensures forall v: NoteValue :: v.In64ths() <= available ==> v.In64ths() <= nv.In64ths()
  {
    if available >= 64 then Whole
    else if available >= 32 then Half
    else if available >= 16 then Quarter
    else if available >= 8 then Eighth
    else if available >= 4 then Sixteenth
    else if available >= 2 then ThirtySecond
    else SixtyFourth
  }

  function Total(notes: seq<NoteValue>): nat {
    if notes == [] then 0 else notes[0].In64ths() + Total(notes[1..])
  }

  /** Binary digits of `n`, with `n` divided by the largest of `d + 1` units. */
  function Units(n: nat, d: nat): nat {
    if d == 0 then n else n % 2 + Units(n / 2, d - 1)
  }

  function Pow2(k: nat): (p: nat)
    ensures p >= 1
  {
    if k == 0 then 1 else 2 * Pow2(k - 1)
  }

  /** The exponent of a note value's length. */
  function Exponent(v: NoteValue): (k: nat)
    ensures k <= 6 && Pow2(k) == v.In64ths()
  {
    match v
    case Whole => (assert Pow2(6) == 2 * Pow2(5) && Pow2(5) == 2 * Pow2(4) && Pow2(4) == 2 * Pow2(3) && Pow2(3) == 8; 6)
    case Half => (assert Pow2(5) == 2 * Pow2(4) && Pow2(4) == 2 * Pow2(3) && Pow2(3) == 8; 5)
    case Quarter => (assert Pow2(4) == 2 * Pow2(3) && Pow2(3) == 8; 4)
    case Eighth => (assert Pow2(3) == 2 * Pow2(2) && Pow2(2) == 4; 3)
    case Sixteenth => 2
    case ThirtySecond => 1
    case SixtyFourth => 0
  }

  /** One more note of one of the units saves nothing. */
  lemma {:induction false} UnitsAddPower(n: nat, d: nat, k: nat)
    requires k <= d
    ensures Units(n + Pow2(k), d) <= Units(n, d) + 1
  {
    if d == 0 {
    } else {
      if k > 0 {
        UnitsAddPower(n / 2, d - 1, k - 1);
        assert (n + Pow2(k)) / 2 == n / 2 + Pow2(k - 1) && (n + Pow2(k)) % 2 == n % 2;
      } else if n % 2 == 1 {
        UnitsAddPower(n / 2, d - 1, 0);
        assert (n + 1) / 2 == n / 2 + 1 && (n + 1) % 2 == 0;
      } else {
        assert (n + 1) / 2 == n / 2 && (n + 1) % 2 == 1;
      }
    }
  }

  /** Taking away the largest unit that fits takes away exactly one note. */
  lemma {:induction false} UnitsTakeLargest(n: nat, d: nat, k: nat)
    requires k <= d && Pow2(k) <= n && (k < d ==> n < 2 * Pow2(k))
    ensures Units(n, d) == Units(n - Pow2(k), d) + 1
  {
    if d == 0 {
    } else {
      if k > 0 {
        var p := Pow2(k - 1);
        assert Pow2(k) == 2 * p;
        hide Pow2;
        UnitsTakeLargest(n / 2, d - 1, k - 1);
        assert (n - 2 * p) / 2 == n / 2 - p && (n - 2 * p) % 2 == n % 2;
      } else {
        assert n == 1 && n / 2 == 0 && n % 2 == 1;
        assert Units(0, d - 1) == 0 by { UnitsZero(d - 1); }
      }
    }
  }

  lemma {:induction false} UnitsZero(d: nat)
    ensures Units(0, d) == 0
  {
    if d == 0 {
    } else {
      UnitsZero(d - 1);
    }
  }

  /** The number of notes that fill `n` 64ths when whole notes are the longest. */
  function FewestNotes(n: nat): nat {
    Units(n, 6)
  }

  /** No sequence of notes fills `n` 64ths with fewer notes. */
  lemma {:induction false} FewestNotesIsMinimal(notes: seq<NoteValue>)
    ensures FewestNotes(Total(notes)) <= |notes|
  {
    if notes == [] {
      UnitsZero(6);
    } else {
      FewestNotesIsMinimal(notes[1..]);
      UnitsAddPower(Total(notes[1..]), 6, Exponent(notes[0]));
    }
  }

  lemma GreedyTakesOne(n: nat)
    requires n > 0
    ensures FewestNotes(n) == FewestNotes(n - LargestNoteFitting(n).In64ths()) + 1
  {
    var v := LargestNoteFitting(n);
    var k := Exponent(v);
    UnitsTakeLargest(n, 6, k);
  }

  ghost predicate AllRests(beats: seq<Beat>) {
    forall i :: 0 <= i < |beats| ==> beats[i].content == Tag("rest")
  }

  /** Fills up `remaining` 64ths with rests, longest first. */
  method Pad(before: seq<Beat>, missing: nat) returns (beats: seq<Beat>)
    ensures before <= beats && AllRests(beats[|before|..])
    ensures Sum64ths(beats[|before|..]) == missing && |beats| == |before| + FewestNotes(missing)
  {
    var remaining: nat := missing;
    beats := before;
    ghost var rests := [];
    while remaining > 0
      invariant beats == before + rests && AllRests(rests)
      invariant Sum64ths(rests) + remaining == missing
      invariant |rests| + FewestNotes(remaining) == FewestNotes(missing)
      decreases remaining
    {
      var nv := LargestNoteFitting(remaining);
      GreedyTakesOne(remaining);
      Sum64thsAppend(rests, [Beat(nv, Tag("rest"))]);
      beats := beats + [Beat(nv, Tag("rest"))];
      rests := rests + [Beat(nv, Tag("rest"))];
      remaining := remaining - nv.In64ths();
    }
    UnitsZero(6);
    assert beats[|before|..] == rests;
  }

  // ---------- bars ----------

  predicate InRange(items: seq<PlanItem>, batch: seq<int>) {
    forall i :: 0 <= i < |batch| ==> 0 <= batch[i] < |items|
  }

  /** One beat per item: the estimate as value, the id as tag. */
  function ItemBeats(items: seq<PlanItem>, batch: seq<int>): (beats: seq<Beat>)
    requires InRange(items, batch)
    ensures |beats| == |batch|
    ensures forall i :: 0 <= i < |batch| ==> beats[i] == Beat(items[batch[i]].estimate, Tag(items[batch[i]].id))
  {
    seq(|batch|, i requires 0 <= i < |batch| => Beat(items[batch[i]].estimate, Tag(items[batch[i]].id)))
  }

  /** Length of the longest bar. */
  function Longest(items: seq<PlanItem>, batches: seq<seq<int>>): (n: nat)
    requires forall k :: 0 <= k < |batches| ==> InRange(items, batches[k])
    ensures forall k :: 0 <= k < |batches| ==> Sum64ths(ItemBeats(items, batches[k])) <= n
    ensures batches != [] ==> exists k :: 0 <= k < |batches| && Sum64ths(ItemBeats(items, batches[k])) == n
  {
    if batches == [] then 0
    else
      var rest := Longest(items, batches[1..]);
      var first := Sum64ths(ItemBeats(items, batches[0]));
      assert forall k :: 0 < k < |batches| ==> batches[k] == batches[1..][k - 1];
      if |batches| == 1 || first > rest then first
      else
        assert exists k :: 0 <= k < |batches[1..]| && Sum64ths(ItemBeats(items, batches[1..][k])) == rest;
        var k :| 0 <= k < |batches[1..]| && Sum64ths(ItemBeats(items, batches[1..][k])) == rest;
        assert batches[k + 1] == batches[1..][k];
        rest
  }

  /** A bar holds its batch in order, then as few rests as reach the common length. */
  ghost predicate IsPadded(items: seq<PlanItem>, batch: seq<int>, length: nat, beats: seq<Beat>)
    requires InRange(items, batch)
  {
    var own := ItemBeats(items, batch);
    |batch| <= |beats| && beats[..|batch|] == own && AllRests(beats[|batch|..]) &&
    Sum64ths(beats) == length && Sum64ths(own) <= length &&
    |beats| - |batch| == FewestNotes(length - Sum64ths(own))
  }

  const DEFAULT_TEMPO := Tempo(2 * 3600)

  method PaddedBeats(items: seq<PlanItem>, batch: seq<int>, length: nat) returns (beats: seq<Beat>)
    requires InRange(items, batch) && Sum64ths(ItemBeats(items, batch)) <= length
    ensures IsPadded(items, batch, length, beats)
  {
    var own := ItemBeats(items, batch);
    beats := Pad(own, length - Sum64ths(own));
    Sum64thsAppend(own, beats[|batch|..]);
    assert beats == own + beats[|batch|..];
  }

  lemma PaddedIsDivided(items: seq<PlanItem>, batch: seq<int>, length: nat, beats: seq<Beat>)
    requires InRange(items, batch) && IsPadded(items, batch, length, beats)
    ensures forall b :: b in beats ==>
              b.content.Tag? && (b.content.tag == "rest" || exists i :: 0 <= i < |items| && items[i].id == b.content.tag)
    ensures AllWellDivided(beats)
  {
    forall b | b in beats
      ensures b.content.Tag? && (b.content.tag == "rest" || exists i :: 0 <= i < |items| && items[i].id == b.content.tag)
    {
      var j :| 0 <= j < |beats| && beats[j] == b;
      if j < |batch| {
        assert beats[j] == beats[..|batch|][j];
        assert items[batch[j]].id == b.content.tag;
      } else {
        assert beats[j] == beats[|batch|..][j - |batch|];
      }
    }
  }

  /** What `plan_to_pattern` makes of the batches. */
  ghost predicate IsPatternOf(items: seq<PlanItem>, batches: seq<seq<int>>, p: Pattern) {
    (forall k :: 0 <= k < |batches| ==> InRange(items, batches[k])) &&
    p.tempo == Tempo(7200) && |p.bars| == |batches| &&
    p.timeSignature == TimeSignature(if batches == [] then 4 else (Longest(items, batches) + 15) / 16, Quarter) &&
    forall k :: 0 <= k < |batches| ==>
      p.bars[k].timeSignature == p.timeSignature &&
      IsPadded(items, batches[k], Longest(items, batches), p.bars[k].beats)
  }

  method MakeBars(items: seq<PlanItem>, batches: seq<seq<int>>, length: nat, timeSig: TimeSignature) returns (bars: seq<Bar>)
    requires forall k :: 0 <= k < |batches| ==> InRange(items, batches[k]) && Sum64ths(ItemBeats(items, batches[k])) <= length
    ensures |bars| == |batches|
    ensures forall k :: 0 <= k < |batches| ==>
              bars[k].timeSignature == timeSig && IsPadded(items, batches[k], length, bars[k].beats)
  {
    bars := [];
    for k := 0 to |batches|
      invariant |bars| == k
      invariant forall j :: 0 <= j < k ==>
                  bars[j].timeSignature == timeSig && IsPadded(items, batches[j], length, bars[j].beats)
    {
      var beats := PaddedBeats(items, batches[k], length);
      bars := bars + [Bar(timeSig, beats)];
    }
  }

  /** The pattern, and the batches it was made from. */
  method PlanToPattern(items: seq<PlanItem>) returns (p: Pattern, batches: seq<seq<int>>)
    ensures Layering(GraphOf(TableOf(items)), batches) && Stuck(GraphOf(TableOf(items)), batches)
    ensures InQueueOrder(TableOf(items), batches)
    ensures IsPatternOf(items, batches, p)
  {
    var order := TopoBatches(items);
    batches := order;
    BatchesInRange(items, order);
    hide Layering, Stuck, GraphOf, TableOf, InQueueOrder;
    if order == [] {
      return Pattern(COMMON, DEFAULT_TEMPO, []), batches;
    }
    var max64ths := Longest(items, order);
    var timeSig := TimeSignature((max64ths + 15) / 16, Quarter);
    var bars := MakeBars(items, order, max64ths, timeSig);
    p := Pattern(timeSig, DEFAULT_TEMPO, bars);
  }

  lemma BatchesInRange(items: seq<PlanItem>, batches: seq<seq<int>>)
    requires Layering(GraphOf(TableOf(items)), batches)
    ensures forall k :: 0 <= k < |batches| ==> InRange(items, batches[k])
  {
    forall k, i | 0 <= k < |batches| && 0 <= i < |batches[k]| ensures 0 <= batches[k][i] < |items| {
      assert FitsIn(GraphOf(TableOf(items)), batches, k, batches[k][i]);
    }
  }

  lemma PaddedBarValid(items: seq<PlanItem>, batch: seq<int>, length: nat, bar: Bar)
    requires InRange(items, batch) && IsPadded(items, batch, length, bar.beats)
    requires bar.timeSignature == TimeSignature((length + 15) / 16, Quarter)
    ensures ValidBar(bar) <==> length % 16 == 0
  {
    PaddedIsDivided(items, batch, length, bar.beats);
    hide AllWellDivided;
    assert bar.timeSignature.BarIn64ths() == (length + 15) / 16 * 16;
  }

  /** A plan's pattern validates exactly when it has no bars or its longest bar is whole quarters. */
  lemma PlanPatternValidExactlyWhen(items: seq<PlanItem>, batches: seq<seq<int>>, p: Pattern)
    requires IsPatternOf(items, batches, p)
    ensures ValidPattern(p) <==> batches == [] || Longest(items, batches) % 16 == 0
  {
    var n := Longest(items, batches);
    if batches != [] {
      var quarters := (n + 15) / 16;
      assert p.timeSignature.BarIn64ths() == quarters * 16;
      forall k | 0 <= k < |batches| ensures ValidBar(p.bars[k]) <==> n % 16 == 0 {
        PaddedBarValid(items, batches[k], n, p.bars[k]);
      }
      if ValidPattern(p) { assert ValidBar(p.bars[0]); }
    }
  }
}
