/** Beat trees, bars and patterns (`pattern.rs`): validation and flattening into leaf intervals. */
module Pattern {
  import opened Options
  import opened Notation

  datatype BeatContent = Tag(tag: string) | Subdivided(children: seq<Beat>)

  datatype Beat = Beat(value: NoteValue, content: BeatContent)

  datatype Bar = Bar(timeSignature: TimeSignature, beats: seq<Beat>)

  datatype Pattern = Pattern(timeSignature: TimeSignature, tempo: Tempo, bars: seq<Bar>)

  datatype PatternError =
    | BarLengthMismatch(bar: nat, expected: nat, actual: nat)
    | SubdivisionMismatch(parent: NoteValue, expected: nat, actual: nat)

  function Sum64ths(beats: seq<Beat>): nat {
    if beats == [] then 0 else beats[0].value.In64ths() + Sum64ths(beats[1..])
  }

  lemma {:induction false} Sum64thsAppend(a: seq<Beat>, b: seq<Beat>)
    ensures Sum64ths(a + b) == Sum64ths(a) + Sum64ths(b)
  {
    if a == [] {
      assert a + b == b;
    } else {
      assert (a + b)[1..] == a[1..] + b;
      Sum64thsAppend(a[1..], b);
    }
  }

  // ---------- validation ----------

  /** Every subdivision, at any depth, is as long as the beat it divides. */
  predicate WellDivided(b: Beat)
    decreases b
  {
    b.content.Subdivided? ==>
      Sum64ths(b.content.children) == b.value.In64ths() && forall c :: c in b.content.children ==> WellDivided(c)
  }

  predicate AllWellDivided(bs: seq<Beat>) {
    forall b :: b in bs ==> WellDivided(b)
  }

  predicate ValidBar(bar: Bar) {
    Sum64ths(bar.beats) == bar.timeSignature.BarIn64ths() && AllWellDivided(bar.beats)
  }

  predicate ValidPattern(p: Pattern) {
    forall i :: 0 <= i < |p.bars| ==> ValidBar(p.bars[i])
  }

  /** `Beat::validate`: the first mismatch in depth-first order. */
  function ValidateBeat(b: Beat): (r: Result<(), PatternError>)
    ensures r.Ok? <==> WellDivided(b)
    ensures r.Err? ==>
      r.error.SubdivisionMismatch? && r.error.expected == r.error.parent.In64ths() && r.error.expected != r.error.actual
    decreases b, 0
  {
    match b.content
    case Tag(_) => Ok(())
    case Subdivided(children) =>
      if Sum64ths(children) != b.value.In64ths() then
        Err(SubdivisionMismatch(b.value, b.value.In64ths(), Sum64ths(children)))
      else
        ValidateBeats(children)
  }

  function ValidateBeats(bs: seq<Beat>): (r: Result<(), PatternError>)
    ensures r.Ok? <==> AllWellDivided(bs)
    ensures r.Err? ==>
      r.error.SubdivisionMismatch? && r.error.expected == r.error.parent.In64ths() && r.error.expected != r.error.actual
    decreases bs, 1
  {
    if bs == [] then Ok(()) else
      assert forall b :: b in bs <==> b == bs[0] || b in bs[1..];
      var first := ValidateBeat(bs[0]);
      if first.Err? then first else ValidateBeats(bs[1..])
  }

  function ValidateBar(bar: Bar, index: nat): (r: Result<(), PatternError>)
    ensures r.Ok? <==> ValidBar(bar)
    ensures r.Err? && r.error.BarLengthMismatch? ==>
      r.error.bar == index && r.error.expected != r.error.actual == Sum64ths(bar.beats)
  {
    var sum, expected := Sum64ths(bar.beats), bar.timeSignature.BarIn64ths();
    if sum != expected then Err(BarLengthMismatch(index, expected, sum)) else ValidateBeats(bar.beats)
  }

  function ValidateBars(bars: seq<Bar>, index: nat): (r: Result<(), PatternError>)
    ensures r.Ok? <==> forall i :: 0 <= i < |bars| ==> ValidBar(bars[i])
    ensures r.Err? && r.error.BarLengthMismatch? ==>
              index <= r.error.bar < index + |bars| && !ValidBar(bars[r.error.bar - index]) &&
              r.error.actual == Sum64ths(bars[r.error.bar - index].beats)
  {
    if bars == [] then Ok(()) else
      var first := ValidateBar(bars[0], index);
      if first.Err? then first else
        var rest := ValidateBars(bars[1..], index + 1);
        assert forall i :: 0 < i < |bars| ==> bars[i] == bars[1..][i - 1];
        rest
  }

  function Validate(p: Pattern): (r: Result<(), PatternError>)
    ensures r.Ok? <==> ValidPattern(p)
  {
    ValidateBars(p.bars, 0)
  }

  // ---------- which mismatch is reported ----------

  /** A beat and all beats inside it, each before its children. */
  function Preorder(b: Beat): seq<Beat>
    decreases b, 0
  {
    match b.content
    case Tag(_) => [b]
    case Subdivided(children) => [b] + PreorderAll(children)
  }

  function PreorderAll(bs: seq<Beat>): seq<Beat>
    decreases bs, 1
  {
    if bs == [] then [] else Preorder(bs[0]) + PreorderAll(bs[1..])
  }

  /** The beat's own children do not add up to it. */
  predicate IllDivided(b: Beat) {
    b.content.Subdivided? && Sum64ths(b.content.children) != b.value.In64ths()
  }

  function MismatchOf(b: Beat): PatternError
    requires IllDivided(b)
  {
    SubdivisionMismatch(b.value, b.value.In64ths(), Sum64ths(b.content.children))
  }

  /** The mismatch of the first ill-divided beat of a list. */
  function FirstMismatch(bs: seq<Beat>): (r: Option<PatternError>)
    ensures r.None? <==> forall k :: 0 <= k < |bs| ==> !IllDivided(bs[k])
    ensures r.Some? ==> exists k :: 0 <= k < |bs| && IllDivided(bs[k]) && r.value == MismatchOf(bs[k]) &&
                          forall j :: 0 <= j < k ==> !IllDivided(bs[j])
  {
    if bs == [] then None
    else if IllDivided(bs[0]) then Some(MismatchOf(bs[0]))
    else
      var rest := FirstMismatch(bs[1..]);
      assert forall k :: 0 < k < |bs| ==> bs[k] == bs[1..][k - 1];
      assert rest.Some? ==> exists k :: 0 <= k < |bs| && IllDivided(bs[k]) && rest.value == MismatchOf(bs[k]) &&
                              forall j :: 0 <= j < k ==> !IllDivided(bs[j]) by
      {
        if rest.Some? {
          var k :| 0 <= k < |bs[1..]| && IllDivided(bs[1..][k]) && rest.value == MismatchOf(bs[1..][k]) &&
                   forall j :: 0 <= j < k ==> !IllDivided(bs[1..][j]);
          assert bs[k + 1] == bs[1..][k];
        }
      }
      rest
  }

  lemma {:induction false} FirstMismatchAppend(a: seq<Beat>, b: seq<Beat>)
    ensures FirstMismatch(a + b) == if FirstMismatch(a).Some? then FirstMismatch(a) else FirstMismatch(b)
  {
    hide IllDivided;
    if a == [] {
      assert a + b == b;
    } else {
      assert (a + b)[0] == a[0] && (a + b)[1..] == a[1..] + b;
      FirstMismatchAppend(a[1..], b);
    }
  }

  function Verdict(e: Option<PatternError>): Result<(), PatternError> {
    match e case None => Ok(()) case Some(error) => Err(error)
  }

  lemma {:induction false} BeatMismatch(b: Beat)
    ensures ValidateBeat(b) == Verdict(FirstMismatch(Preorder(b)))
    decreases b, 0
  {
    match b.content
    case Tag(_) =>
      assert !IllDivided(b) && [b][1..] == [];
      assert FirstMismatch([b]) == None;
    case Subdivided(children) =>
      BeatsMismatch(children);
      assert [b][1..] == [];
      FirstMismatchAppend([b], PreorderAll(children));
      assert FirstMismatch([b]) == if IllDivided(b) then Some(MismatchOf(b)) else None;
  }

  lemma {:induction false} BeatsMismatch(bs: seq<Beat>)
    ensures ValidateBeats(bs) == Verdict(FirstMismatch(PreorderAll(bs)))
    decreases bs, 1
  {
    if bs == [] {
    } else {
      BeatMismatch(bs[0]);
      BeatsMismatch(bs[1..]);
      FirstMismatchAppend(Preorder(bs[0]), PreorderAll(bs[1..]));
      hide FirstMismatch, Preorder, ValidateBeat;
    }
  }

  /** What is wrong with a bar: its length, or else its first ill-divided beat in preorder. */
  function BarMismatch(bar: Bar, index: nat): Option<PatternError> {
    var sum, expected := Sum64ths(bar.beats), bar.timeSignature.BarIn64ths();
    if sum != expected then Some(BarLengthMismatch(index, expected, sum)) else FirstMismatch(PreorderAll(bar.beats))
  }

  /** Bar `i` is the first invalid one, and `e` says what is wrong with it; the bars are numbered from `index` on. */
  ghost predicate FirstInvalid(bars: seq<Bar>, index: nat, i: nat, e: PatternError) {
    i < |bars| && !ValidBar(bars[i]) && (forall j :: 0 <= j < i ==> ValidBar(bars[j])) &&
    BarMismatch(bars[i], index + i) == Some(e)
  }

  lemma FirstInvalidNext(bars: seq<Bar>, index: nat, i: nat, e: PatternError)
    requires bars != [] && ValidBar(bars[0]) && FirstInvalid(bars[1..], index + 1, i, e)
    ensures FirstInvalid(bars, index, i + 1, e)
  {
    hide ValidBar, BarMismatch;
    assert bars[i + 1] == bars[1..][i] && index + 1 + i == index + (i + 1);
    forall j | 0 <= j < i + 1 ensures ValidBar(bars[j]) {
      if j > 0 { assert bars[j] == bars[1..][j - 1]; }
    }
  }

  lemma {:induction false} BarsMismatch(bars: seq<Bar>, index: nat) returns (i: nat)
    requires ValidateBars(bars, index).Err?
    ensures FirstInvalid(bars, index, i, ValidateBars(bars, index).error)
  {
    if ValidateBar(bars[0], index).Err? {
      i := 0;
      BeatsMismatch(bars[0].beats);
      hide PreorderAll, FirstMismatch, ValidateBeats, ValidBar;
    } else {
      i := BarsMismatch(bars[1..], index + 1);
      FirstInvalidNext(bars, index, i, ValidateBars(bars, index).error);
      hide FirstInvalid;
      i := i + 1;
    }
  }

  /** A rejected pattern is reported by its first invalid bar: its length, or else its first ill-divided beat in preorder. */
  lemma ValidateReportsFirst(p: Pattern)
    ensures Validate(p).Err? ==> exists i :: FirstInvalid(p.bars, 0, i, Validate(p).error)
  {
    if Validate(p).Err? {
      var i := BarsMismatch(p.bars, 0);
    }
  }

  // ---------- leaves ----------

  datatype Leaf = Leaf(offset: nat, length: nat, value: NoteValue, tag: string)

  /** The leaves of one beat from `offset` on, in order. */
  function BeatLeaves(b: Beat, offset: nat): seq<Leaf>
    decreases b, 0
  {
    match b.content
    case Tag(t) => [Leaf(offset, b.value.In64ths(), b.value, t)]
    case Subdivided(children) => BeatsLeaves(children, offset)
  }

  function BeatsLeaves(bs: seq<Beat>, offset: nat): seq<Leaf>
    decreases bs, 1
  {
    if bs == [] then [] else
      BeatLeaves(bs[0], offset) + BeatsLeaves(bs[1..], offset + bs[0].value.In64ths())
  }

  function BarsLeaves(bars: seq<Bar>, offset: nat): seq<Leaf> {
    if bars == [] then [] else
      BeatsLeaves(bars[0].beats, offset) + BarsLeaves(bars[1..], offset + bars[0].timeSignature.BarIn64ths())
  }

  function Shift(leaves: seq<Leaf>, delta: nat): (r: seq<Leaf>)
    ensures |r| == |leaves|
    ensures forall i :: 0 <= i < |r| ==> r[i] == leaves[i].(offset := delta + leaves[i].offset)
  {
    seq(|leaves|, i requires 0 <= i < |leaves| => leaves[i].(offset := delta + leaves[i].offset))
  }

  lemma {:induction false} BeatLeavesShift(b: Beat, offset: nat, delta: nat)
    ensures Shift(BeatLeaves(b, offset), delta) == BeatLeaves(b, delta + offset)
    decreases b, 0
  {
    match b.content
    case Tag(_) =>
    case Subdivided(children) => BeatsLeavesShift(children, offset, delta);
  }

  lemma {:induction false} BeatsLeavesShift(bs: seq<Beat>, offset: nat, delta: nat)
    ensures Shift(BeatsLeaves(bs, offset), delta) == BeatsLeaves(bs, delta + offset)
    decreases bs, 1
  {
    if bs == [] {
    } else {
      hide BeatLeaves, Shift, NoteValue.In64ths;
      var next := offset + bs[0].value.In64ths();
      assert delta + next == (delta + offset) + bs[0].value.In64ths();
      var x, y := BeatLeaves(bs[0], offset), BeatsLeaves(bs[1..], next);
      assert BeatsLeaves(bs, offset) == x + y;
      assert BeatsLeaves(bs, delta + offset) == BeatLeaves(bs[0], delta + offset) + BeatsLeaves(bs[1..], delta + next);
      hide BeatsLeaves;
      BeatLeavesShift(bs[0], offset, delta);
      BeatsLeavesShift(bs[1..], next, delta);
      ShiftJoin(x, y, delta);
    }
  }

  lemma ShiftJoin(a: seq<Leaf>, b: seq<Leaf>, delta: nat)
    ensures Shift(a + b, delta) == Shift(a, delta) + Shift(b, delta)
  {
  }

  lemma {:induction false} BeatsLeavesSnoc(bs: seq<Beat>, b: Beat, offset: nat)
    ensures BeatsLeaves(bs + [b], offset) == BeatsLeaves(bs, offset) + BeatLeaves(b, offset + Sum64ths(bs))
  {
    if bs == [] {
      assert [b][1..] == [] && bs + [b] == [b];
    } else {
      var next := offset + bs[0].value.In64ths();
      assert (bs + [b])[1..] == bs[1..] + [b] && (bs + [b])[0] == bs[0];
      BeatsLeavesSnoc(bs[1..], b, next);
      hide BeatLeaves, NoteValue.In64ths;
      var x, y, z := BeatLeaves(bs[0], offset), BeatsLeaves(bs[1..], next), BeatLeaves(b, offset + Sum64ths(bs));
      assert BeatsLeaves(bs + [b], offset) == x + (y + z) == (x + y) + z;
    }
  }

  function BarLength(bars: seq<Bar>): nat {
    if bars == [] then 0 else bars[0].timeSignature.BarIn64ths() + BarLength(bars[1..])
  }

  lemma {:induction false} BarsLeavesSnoc(bars: seq<Bar>, bar: Bar, offset: nat)
    ensures BarsLeaves(bars + [bar], offset) == BarsLeaves(bars, offset) + BeatsLeaves(bar.beats, offset + BarLength(bars))
    ensures BarLength(bars + [bar]) == BarLength(bars) + bar.timeSignature.BarIn64ths()
  {
    hide BeatsLeaves, TimeSignature.BarIn64ths;
    if bars == [] {
      assert bars + [bar] == [bar] && [bar][1..] == [];
      assert BarsLeaves([bar], offset) == BeatsLeaves(bar.beats, offset) + [];
    } else {
      var next := offset + bars[0].timeSignature.BarIn64ths();
      assert (bars + [bar])[1..] == bars[1..] + [bar] && (bars + [bar])[0] == bars[0];
      BarsLeavesSnoc(bars[1..], bar, next);
      var a, b := BeatsLeaves(bars[0].beats, offset), BarsLeaves(bars[1..], next);
      var c := BeatsLeaves(bar.beats, offset + BarLength(bars));
      assert BarsLeaves(bars + [bar], offset) == a + (b + c) == (a + b) + c;
    }
  }

  lemma WalkedNext(out: seq<Leaf>, beats: seq<Beat>, i: nat, offset: nat)
    requires i < |beats|
    ensures Sum64ths(beats[..i + 1]) == Sum64ths(beats[..i]) + beats[i].value.In64ths()
    ensures out + BeatsLeaves(beats[..i + 1], offset) ==
            out + BeatsLeaves(beats[..i], offset) + BeatLeaves(beats[i], offset + Sum64ths(beats[..i]))
  {
    assert beats[..i + 1] == beats[..i] + [beats[i]];
    BeatsLeavesSnoc(beats[..i], beats[i], offset);
    Sum64thsAppend(beats[..i], [beats[i]]);
  }

  /** `Beat::walk_leaves`: appends the beat's leaves to `out`. */
  method WalkLeaves(b: Beat, out: seq<Leaf>, offset: nat) returns (out': seq<Leaf>)
    ensures out' == out + BeatLeaves(b, offset)
    decreases b
  {
    match b.content {
      case Tag(t) =>
        out' := out + [Leaf(offset, b.value.In64ths(), b.value, t)];
      case Subdivided(children) =>
        out' := out;
        var o := offset;
        for i := 0 to |children|
          invariant o == offset + Sum64ths(children[..i])
          invariant out' == out + BeatsLeaves(children[..i], offset)
        {
          out' := WalkLeaves(children[i], out', o);
          WalkedNext(out, children, i, offset);
          o := o + children[i].value.In64ths();
        }
        assert children[..|children|] == children;
    }
  }

  lemma LeavesUpTo(beats: seq<Beat>, j: nat, barOffset: nat)
    requires j < |beats|
    ensures Sum64ths(beats[..j + 1]) == Sum64ths(beats[..j]) + beats[j].value.In64ths()
    ensures BeatsLeaves(beats[..j + 1], barOffset) ==
            BeatsLeaves(beats[..j], barOffset) + Shift(BeatLeaves(beats[j], Sum64ths(beats[..j])), barOffset)
  {
    assert beats[..j + 1] == beats[..j] + [beats[j]];
    BeatLeavesShift(beats[j], Sum64ths(beats[..j]), barOffset);
    BeatsLeavesSnoc(beats[..j], beats[j], barOffset);
    Sum64thsAppend(beats[..j], [beats[j]]);
  }

  /** The leaves of one bar that starts at `barOffset`. */
  method BarLeaves(bar: Bar, barOffset: nat) returns (out: seq<Leaf>)
    ensures out == BeatsLeaves(bar.beats, barOffset)
  {
    out := [];
    var beatOffset := 0;
    for j := 0 to |bar.beats|
      invariant beatOffset == Sum64ths(bar.beats[..j])
      invariant out == BeatsLeaves(bar.beats[..j], barOffset)
    {
      var tmp := WalkLeaves(bar.beats[j], [], beatOffset);
      assert tmp == BeatLeaves(bar.beats[j], beatOffset);
      out := out + Shift(tmp, barOffset);
      LeavesUpTo(bar.beats, j, barOffset);
      beatOffset := beatOffset + bar.beats[j].value.In64ths();
    }
    assert bar.beats[..|bar.beats|] == bar.beats;
  }

  /** `Pattern::leaves`. */
  method Leaves(p: Pattern) returns (out: seq<Leaf>)
    ensures out == BarsLeaves(p.bars, 0)
    ensures ValidPattern(p) ==> Tiles(out, 0, BarLength(p.bars))
  {
    out := [];
    var barOffset := 0;
    for i := 0 to |p.bars|
      invariant barOffset == BarLength(p.bars[..i])
      invariant out == BarsLeaves(p.bars[..i], 0)
    {
      var barLeaves := BarLeaves(p.bars[i], barOffset);
      out := out + barLeaves;
      assert p.bars[..i + 1] == p.bars[..i] + [p.bars[i]];
      BarsLeavesSnoc(p.bars[..i], p.bars[i], 0);
      barOffset := barOffset + p.bars[i].timeSignature.BarIn64ths();
    }
    assert p.bars[..|p.bars|] == p.bars;
    if ValidPattern(p) { LeavesTile(p); }
  }

  /** The leaves cover `[from, to)` without a gap or an overlap, each as long as its note value. */
  ghost predicate Tiles(leaves: seq<Leaf>, from: nat, to: nat) {
    (forall i :: 0 <= i < |leaves| ==> leaves[i].length == leaves[i].value.In64ths()) &&
    (leaves == [] ==> from == to) &&
    (leaves != [] ==> leaves[0].offset == from && leaves[|leaves| - 1].offset + leaves[|leaves| - 1].length == to) &&
    forall i, j :: 0 <= i && j == i + 1 && j < |leaves| ==> leaves[j].offset == leaves[i].offset + leaves[i].length
  }

  lemma NothingTiles(from: nat)
    ensures Tiles([], from, from)
  {
  }

  lemma TilesJoin(a: seq<Leaf>, b: seq<Leaf>, from: nat, mid: nat, to: nat)
    requires Tiles(a, from, mid) && Tiles(b, mid, to)
    ensures Tiles(a + b, from, to)
  {
    if a == [] {
      assert a + b == b;
    } else if b == [] {
      assert a + b == a;
    } else {
      var all := a + b;
      forall i, j | 0 <= i && j == i + 1 && j < |all| ensures all[j].offset == all[i].offset + all[i].length {
        if j < |a| {
          assert all[i] == a[i] && all[j] == a[j];
        } else if i >= |a| {
          assert all[i] == b[i - |a|] && all[j] == b[j - |a|];
        }
      }
    }
  }

  lemma {:induction false} BeatTiles(b: Beat, offset: nat)
    requires WellDivided(b)
    ensures Tiles(BeatLeaves(b, offset), offset, offset + b.value.In64ths())
    decreases b, 0
  {
    match b.content
    case Tag(_) =>
    case Subdivided(children) => BeatsTile(children, offset);
  }

  lemma {:induction false} BeatsTile(bs: seq<Beat>, offset: nat)
    requires AllWellDivided(bs)
    ensures Tiles(BeatsLeaves(bs, offset), offset, offset + Sum64ths(bs))
    decreases bs, 1
  {
    hide Tiles;
    if bs == [] {
      NothingTiles(offset);
    } else {
      var next := offset + bs[0].value.In64ths();
      BeatTiles(bs[0], offset);
      BeatsTile(bs[1..], next);
      TilesJoin(BeatLeaves(bs[0], offset), BeatsLeaves(bs[1..], next), offset, next, offset + Sum64ths(bs));
    }
  }

  lemma {:induction false} BarsTile(bars: seq<Bar>, offset: nat)
    requires forall i :: 0 <= i < |bars| ==> ValidBar(bars[i])
    ensures Tiles(BarsLeaves(bars, offset), offset, offset + BarLength(bars))
  {
    hide Tiles;
    if bars == [] {
      NothingTiles(offset);
    } else {
      var next := offset + bars[0].timeSignature.BarIn64ths();
      BeatsTile(bars[0].beats, offset);
      BarsTile(bars[1..], next);
      TilesJoin(BeatsLeaves(bars[0].beats, offset), BarsLeaves(bars[1..], next), offset, next, offset + BarLength(bars));
    }
  }

  /** The leaves of a validated pattern tile its whole length, whatever the nesting. */
  lemma LeavesTile(p: Pattern)
    requires ValidPattern(p)
    ensures Tiles(BarsLeaves(p.bars, 0), 0, BarLength(p.bars))
  {
    BarsTile(p.bars, 0);
  }

  /** Value and tag of the leaves of a beat tree, left to right. */
  function Fringe(b: Beat): seq<(NoteValue, string)>
    decreases b, 0
  {
    match b.content
    case Tag(t) => [(b.value, t)]
    case Subdivided(children) => FringeOf(children)
  }

  function FringeOf(bs: seq<Beat>): seq<(NoteValue, string)>
    decreases bs, 1
  {
    if bs == [] then [] else Fringe(bs[0]) + FringeOf(bs[1..])
  }

  function Labels(leaves: seq<Leaf>): (r: seq<(NoteValue, string)>)
    ensures |r| == |leaves|
  {
    seq(|leaves|, i requires 0 <= i < |leaves| => (leaves[i].value, leaves[i].tag))
  }

  /** Flattening keeps every leaf's value and tag, in the order of the tree. */
  lemma {:induction false} LeavesKeepFringe(b: Beat, offset: nat)
    ensures Labels(BeatLeaves(b, offset)) == Fringe(b)
    decreases b, 0
  {
    match b.content
    case Tag(_) =>
    case Subdivided(children) => LeavesKeepFringeOf(children, offset);
  }

  lemma {:induction false} LeavesKeepFringeOf(bs: seq<Beat>, offset: nat)
    ensures Labels(BeatsLeaves(bs, offset)) == FringeOf(bs)
    decreases bs, 1
  {
    if bs == [] {
    } else {
      var next := offset + bs[0].value.In64ths();
      LeavesKeepFringe(bs[0], offset);
      LeavesKeepFringeOf(bs[1..], next);
      assert Labels(BeatLeaves(bs[0], offset) + BeatsLeaves(bs[1..], next)) ==
             Labels(BeatLeaves(bs[0], offset)) + Labels(BeatsLeaves(bs[1..], next));
    }
  }
}
