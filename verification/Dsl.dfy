/** The text form of patterns: the printer (`from_plan.rs`) and the parser (`parser.rs`). */
module Dsl {
  import opened Options
  import opened Text
  import opened Notation
  import opened Pattern

  // ---------- printing ----------

  /** The label printed before a subdivision; the parser does not keep it. */
  function OuterTag(children: seq<Beat>): string {
    if children != [] && children[0].content.Tag? then children[0].content.tag else "beat"
  }

  function BeatText(b: Beat): string
    decreases b, 0
  {
    match b.content
    case Tag(t) => t + ":" + [b.value.Letter()]
    case Subdivided(children) => OuterTag(children) + ":" + [b.value.Letter()] + "[" + Join(BeatTexts(children), ",") + "]"
  }

  function BeatTexts(bs: seq<Beat>): (r: seq<string>)
    ensures |r| == |bs|
    ensures forall i :: 0 <= i < |bs| ==> r[i] == BeatText(bs[i])
    decreases bs, 1
  {
    if bs == [] then [] else [BeatText(bs[0])] + BeatTexts(bs[1..])
  }

  function Cells(bs: seq<Beat>): string {
    if bs == [] then "" else BeatText(bs[0]) + " | " + Cells(bs[1..])
  }

  function BarsText(bars: seq<Bar>): string {
    if bars == [] then "" else "| " + Cells(bars[0].beats) + "\n" + BarsText(bars[1..])
  }

  /** Wall-clock length of one bar, in whole seconds. */
  function BarSecs(p: Pattern): nat {
    p.tempo.quarterSeconds * p.timeSignature.BarIn64ths() / Quarter.In64ths()
  }

  /** Hours and minutes; seconds are dropped. */
  function DurationText(secs: nat): string {
    var h, m := secs / 3600, secs % 3600 / 60;
    if m == 0 then Dec(h) + "h"
    else if h == 0 then Dec(m) + "m"
    else Dec(h) + "h" + Dec(m) + "m"
  }

  function PatternText(p: Pattern): string {
    "bar_duration " + DurationText(BarSecs(p)) + "\n" + "\n" + BarsText(p.bars)
  }

  /** A duration is printed as its hours and its minutes, without a part that is zero; none at all is no hours. */
  lemma DurationPrinted(h: nat, m: nat, s: nat)
    requires m < 60 && s < 60
    ensures DurationText(3600 * h + 60 * m + s) ==
            if m == 0 then Dec(h) + "h" else if h == 0 then Dec(m) + "m" else Dec(h) + "h" + Dec(m) + "m"
  {
    HoursAndMinutes(h, m, s);
    hide Dec;
  }

  lemma HoursAndMinutes(h: nat, m: nat, s: nat)
    requires m < 60 && s < 60
    ensures var secs := 3600 * h + 60 * m + s; secs / 3600 == h && secs % 3600 / 60 == m
  {
    var secs := 3600 * h + 60 * m + s;
    assert secs % 3600 == 60 * m + s;
  }

  lemma {:induction false} CellsSnoc(bs: seq<Beat>, b: Beat)
    ensures Cells(bs + [b]) == Cells(bs) + BeatText(b) + " | "
  {
    if bs == [] {
      assert (bs + [b])[1..] == [] && (bs + [b])[0] == b;
      assert Cells([b]) == BeatText(b) + " | " + "";
    } else {
      assert (bs + [b])[1..] == bs[1..] + [b];
      CellsSnoc(bs[1..], b);
    }
  }

  lemma {:induction false} BarsTextSnoc(bars: seq<Bar>, bar: Bar)
    ensures BarsText(bars + [bar]) == BarsText(bars) + "| " + Cells(bar.beats) + "\n"
  {
    if bars == [] {
      assert (bars + [bar])[1..] == [] && (bars + [bar])[0] == bar;
      assert BarsText([bar]) == "| " + Cells(bar.beats) + "\n" + "";
    } else {
      assert (bars + [bar])[1..] == bars[1..] + [bar];
      BarsTextSnoc(bars[1..], bar);
    }
  }

  function Pair(b: Beat, c: Beat): Beat {
    Beat(Half, Subdivided([b, c]))
  }

  /** A subdivision is labelled with the tag of its first child, or else with `beat`. */
  lemma SubdivisionPrinted(t: string, u: string)
    ensures var inner := Pair(Beat(Quarter, Tag(t)), Beat(Quarter, Tag(u)));
            BeatText(inner) == t + ":h[" + t + ":q," + u + ":q]" &&
            BeatText(Pair(inner, inner)) == "beat:h[" + BeatText(inner) + "," + BeatText(inner) + "]"
  {
    var a, b := Beat(Quarter, Tag(t)), Beat(Quarter, Tag(u));
    var inner := Pair(a, b);
    PairText(a, b);
    PairText(inner, inner);
    TagText(t);
    TagText(u);
    assert OuterTag([a, b]) == t && OuterTag([inner, inner]) == "beat";
    hide *;
    Labelled(t, u);
    LabelledBeat(BeatText(inner));
  }

  lemma Labelled(t: string, u: string)
    ensures t + ":" + ['h'] + "[" + (t + ":q") + "," + (u + ":q") + "]" == t + ":h[" + t + ":q," + u + ":q]"
  {
    assert ":" + ['h'] + "[" == ":h[";
    assert t + ":" + ['h'] + "[" == t + ":h[";
    assert ":q" + "," == ":q,";
  }

  lemma LabelledBeat(x: string)
    ensures "beat" + ":" + ['h'] + "[" + x + "," + x + "]" == "beat:h[" + x + "," + x + "]"
  {
    assert "beat" + ":" + ['h'] + "[" == "beat:h[";
  }

  lemma TagText(t: string)
    ensures BeatText(Beat(Quarter, Tag(t))) == t + ":q"
  {
  }

  lemma PairText(b: Beat, c: Beat)
    ensures BeatText(Pair(b, c)) == OuterTag([b, c]) + ":" + ['h'] + "[" + BeatText(b) + "," + BeatText(c) + "]"
  {
    assert BeatTexts([b, c]) == [BeatText(b), BeatText(c)];
    assert [BeatText(b), BeatText(c)][1..] == [BeatText(c)];
    assert Join([BeatText(c)], ",") == BeatText(c);
  }

  /** Appends one bar line to `before`. */
  method BarToDsl(before: string, bar: Bar) returns (out: string)
    ensures out == before + "| " + Cells(bar.beats) + "\n"
  {
    out := before + "| ";
    for j := 0 to |bar.beats|
      invariant out == before + "| " + Cells(bar.beats[..j])
    {
      assert bar.beats[..j + 1] == bar.beats[..j] + [bar.beats[j]];
      CellsSnoc(bar.beats[..j], bar.beats[j]);
      out := out + BeatText(bar.beats[j]);
      out := out + " | ";
    }
    assert bar.beats[..|bar.beats|] == bar.beats;
    out := out + "\n";
  }

  method PatternToDsl(p: Pattern) returns (out: string)
    ensures out == PatternText(p)
  {
    var head := "bar_duration " + DurationText(BarSecs(p)) + "\n" + "\n";
    out := head;
    for i := 0 to |p.bars|
      invariant out == head + BarsText(p.bars[..i])
    {
      BarsTextUpTo(head, p.bars, i);
      out := BarToDsl(out, p.bars[i]);
    }
    assert p.bars[..|p.bars|] == p.bars;
  }

  /** A bar is a line of its own, its cells between bars, after the duration and an empty line. */
  lemma BarPrinted(p: Pattern, a: Beat, b: Beat)
    requires |p.bars| == 1 && p.bars[0].beats == [a, b]
    ensures PatternText(p) ==
            "bar_duration " + DurationText(BarSecs(p)) + "\n\n" + "| " + BeatText(a) + " | " + BeatText(b) + " | \n"
  {
    var x, y := BeatText(a), BeatText(b);
    assert [a, b][1..] == [b] && [b][1..] == [];
    assert Cells([]) == "" && Cells([b]) == y + " | " + "" == y + " | ";
    assert Cells([a, b]) == x + " | " + (y + " | ");
    assert p.bars[1..] == [];
    assert BarsText(p.bars) == "| " + (x + " | " + (y + " | ")) + "\n" + "";
    hide BeatText, DurationText, BarSecs;
    BarLineJoined(x, y);
    assert "\n" + "\n" == "\n\n";
  }

  lemma BarLineJoined(x: string, y: string)
    ensures "| " + (x + " | " + (y + " | ")) + "\n" + "" == "| " + x + " | " + y + " | \n"
  {
    assert " | " + "\n" == " | \n";
  }

  lemma BarsTextUpTo(head: string, bars: seq<Bar>, i: nat)
    requires i < |bars|
    ensures head + BarsText(bars[..i]) + "| " + Cells(bars[i].beats) + "\n" == head + BarsText(bars[..i + 1])
  {
    hide Cells;
    assert bars[..i + 1] == bars[..i] + [bars[i]];
    BarsTextSnoc(bars[..i], bars[i]);
  }

  // ---------- parsing ----------

  /** `DivisionByZero` stands for the panic on a first bar without beats. */
  datatype ParseError =
    | Syntax(line: nat)
    | UnknownDirective(line: nat, key: string)
    | Validation(error: PatternError)
    | DivisionByZero

  function NextDepth(c: char, depth: int): int {
    if c == '[' then depth + 1 else if c == ']' then depth - 1 else depth
  }

  predicate Splits(c: char, sep: char, depth: int) {
    c != '[' && c != ']' && c == sep && depth == 0
  }

  /** No piece is longer than the bound. */
  ghost predicate AllWithin(pieces: seq<string>, bound: nat) {
    forall i :: 0 <= i < |pieces| ==> |pieces[i]| <= bound
  }

  /** The pieces of `s` between separators at bracket depth 0, when `s` starts at `depth`. */
  function SplitTop(s: string, sep: char, depth: int): (pieces: seq<string>)
    ensures |pieces| >= 1
    ensures AllWithin(pieces, |s|)
  {
    if s == [] then [[]]
    else
      var rest := SplitTop(s[1..], sep, NextDepth(s[0], depth));
      if Splits(s[0], sep, depth) then [[]] + rest else [[s[0]] + rest[0]] + rest[1..]
  }

  /** All pieces, when `out` are finished, `open` has begun and `rest` comes from what follows. */
  function Pieces(out: seq<string>, open: string, rest: seq<string>): seq<string>
    requires |rest| >= 1
  {
    out + [open + rest[0]] + rest[1..]
  }

  lemma PiecesFresh(out: seq<string>, rest: seq<string>)
    requires |rest| >= 1
    ensures Pieces(out, [], rest) == out + rest
  {
    assert [] + rest[0] == rest[0];
    assert rest == [rest[0]] + rest[1..];
  }

  lemma PiecesBegin(src: string, sep: char)
    ensures Pieces([], src[0..0], SplitTop(src[0..], sep, 0)) == SplitTop(src, sep, 0)
  {
    assert src[0..] == src && src[0..0] == [];
    PiecesFresh([], SplitTop(src, sep, 0));
  }

  lemma PiecesEnd(out: seq<string>, open: string, sep: char, depth: int)
    ensures Pieces(out, open, SplitTop([], sep, depth)) == out + [open]
  {
    var last: seq<string> := [[]];
    assert SplitTop([], sep, depth) == last && open + last[0] == open && last[1..] == [];
  }

  lemma PiecesStep(out: seq<string>, src: string, start: nat, i: nat, sep: char, depth: int)
    requires start <= i < |src|
    ensures var rest := SplitTop(src[i + 1..], sep, NextDepth(src[i], depth));
            Pieces(out, src[start..i], SplitTop(src[i..], sep, depth)) ==
              if Splits(src[i], sep, depth) then Pieces(out + [src[start..i]], src[i + 1..i + 1], rest)
              else Pieces(out, src[start..i + 1], rest)
  {
    var s, open := src[i..], src[start..i];
    assert s[0] == src[i] && s[1..] == src[i + 1..];
    var rest := SplitTop(s[1..], sep, NextDepth(s[0], depth));
    assert open + [s[0]] == src[start..i + 1] && src[i + 1..i + 1] == [];
    if Splits(s[0], sep, depth) {
      PiecesCut(out, open, rest);
    } else {
      PiecesKeep(out, open, s[0], rest);
    }
    hide Pieces;
  }

  lemma PiecesCut(out: seq<string>, open: string, rest: seq<string>)
    requires |rest| >= 1
    ensures Pieces(out, open, [[]] + rest) == Pieces(out + [open], [], rest)
  {
    var all := [[]] + rest;
    assert open + all[0] == open && all[1..] == rest;
    PiecesFresh(out + [open], rest);
  }

  lemma PiecesKeep(out: seq<string>, open: string, c: char, rest: seq<string>)
    requires |rest| >= 1
    ensures Pieces(out, open, [[c] + rest[0]] + rest[1..]) == Pieces(out, open + [c], rest)
  {
    var all := [[c] + rest[0]] + rest[1..];
    assert all[1..] == rest[1..] && all[0] == [c] + rest[0];
    assert open + ([c] + rest[0]) == (open + [c]) + rest[0];
  }

  /** The pieces between the separators that stand outside all brackets, found in one scan that counts the open ones. */
  method SplitTopLevel(src: string, sep: char) returns (out: seq<string>)
    ensures out == SplitTop(src, sep, 0)
  {
    out := [];
    var depth, start := 0, 0;
    PiecesBegin(src, sep);
    for i := 0 to |src|
      invariant 0 <= start <= i
      invariant SplitTop(src, sep, 0) == Pieces(out, src[start..i], SplitTop(src[i..], sep, depth))
    {
      var c := src[i];
      PiecesStep(out, src, start, i, sep, depth);
      if c == '[' {
        depth := depth + 1;
      } else if c == ']' {
        depth := depth - 1;
      } else if c == sep && depth == 0 {
        out := out + [src[start..i]];
        start := i + 1;
      }
    }
    assert src[|src|..] == [] && src[start..|src|] == src[start..];
    PiecesEnd(out, src[start..|src|], sep, depth);
    out := out + [src[start..]];
  }

  /** `parse_duration` from a position on: seconds so far and digits read since the last unit. */
  function DurationFrom(s: string, total: nat, digits: string): Option<nat>
    requires AllDigits(digits)
  {
    if s == [] then (if digits == [] then Some(total) else None)
    else if IsDigit(s[0]) then DurationFrom(s[1..], total, digits + [s[0]])
    else if digits == [] then None
    else
      var n := DigitsValue(digits);
      match s[0]
      case 's' => DurationFrom(s[1..], total + n, [])
      case 'm' => DurationFrom(s[1..], total + n * 60, [])
      case 'h' => DurationFrom(s[1..], total + n * 3600, [])
      case 'd' => DurationFrom(s[1..], total + n * 86400, [])
      case _ => None
  }

  /** A number with its unit. */
  datatype Term = Term(digits: string, unit: char)

  predicate GoodTerm(t: Term) {
    t.digits != [] && AllDigits(t.digits) && t.unit in "smhd"
  }

  ghost predicate GoodTerms(ts: seq<Term>) {
    forall i :: 0 <= i < |ts| ==> GoodTerm(ts[i])
  }

  function TermsText(ts: seq<Term>): string {
    if ts == [] then "" else ts[0].digits + [ts[0].unit] + TermsText(ts[1..])
  }

  function UnitSecs(unit: char): nat {
    if unit == 'd' then 24 * 60 * 60 else if unit == 'h' then 60 * 60 else if unit == 'm' then 60 else 1
  }

  /** What the numbers amount to in seconds. */
  function TermsSecs(ts: seq<Term>): nat
    requires GoodTerms(ts)
  {
    if ts == [] then 0 else DigitsValue(ts[0].digits) * UnitSecs(ts[0].unit) + TermsSecs(ts[1..])
  }

  /** The text writes a duration of so many seconds. */
  ghost predicate Writes(s: string, secs: nat) {
    exists ts :: GoodTerms(ts) && s == TermsText(ts) && secs == TermsSecs(ts)
  }

  lemma {:induction false} DurationDigits(ds: string, rest: string, total: nat, before: string)
    requires AllDigits(ds) && AllDigits(before)
    ensures DurationFrom(ds + rest, total, before) == DurationFrom(rest, total, before + ds)
  {
    if ds == [] {
      assert ds + rest == rest && before + ds == before;
    } else {
      assert (ds + rest)[1..] == ds[1..] + rest && (ds + rest)[0] == ds[0];
      DurationDigits(ds[1..], rest, total, before + [ds[0]]);
      assert before + [ds[0]] + ds[1..] == before + ds;
    }
  }

  lemma DurationUnit(t: Term, rest: string, total: nat)
    requires GoodTerm(t)
    ensures DurationFrom([t.unit] + rest, total, t.digits) ==
            DurationFrom(rest, total + DigitsValue(t.digits) * UnitSecs(t.unit), [])
  {
    hide DigitsValue, AllDigits;
    var s := [t.unit] + rest;
    assert s[0] == t.unit && s[1..] == rest;
  }

  lemma DurationTerm(t: Term, rest: string, total: nat)
    requires GoodTerm(t)
    ensures DurationFrom(t.digits + [t.unit] + rest, total, []) ==
            DurationFrom(rest, total + DigitsValue(t.digits) * UnitSecs(t.unit), [])
  {
    hide DurationFrom, DigitsValue, UnitSecs;
    assert t.digits + [t.unit] + rest == t.digits + ([t.unit] + rest);
    DurationDigits(t.digits, [t.unit] + rest, total, []);
    assert [] + t.digits == t.digits;
    DurationUnit(t, rest, total);
  }

  lemma {:induction false} TermsRead(ts: seq<Term>, total: nat)
    requires GoodTerms(ts)
    ensures DurationFrom(TermsText(ts), total, []) == Some(total + TermsSecs(ts))
  {
    if ts == [] {
    } else {
      DurationTerm(ts[0], TermsText(ts[1..]), total);
      hide DurationFrom, DigitsValue, UnitSecs, AllDigits;
      TermsRead(ts[1..], total + DigitsValue(ts[0].digits) * UnitSecs(ts[0].unit));
    }
  }

  lemma DurationEnds(s: string, total: nat, digits: string)
    requires AllDigits(digits) && DurationFrom(s, total, digits).Some?
    ensures s == [] ==> digits == [] && DurationFrom(s, total, digits) == Some(total)
    ensures s != [] && IsDigit(s[0]) ==>
      AllDigits(digits + [s[0]]) && DurationFrom(s, total, digits) == DurationFrom(s[1..], total, digits + [s[0]])
    ensures s != [] && !IsDigit(s[0]) ==> GoodTerm(Term(digits, s[0]))
  {
    hide DigitsValue;
  }

  lemma {:induction false} ReadTerms(s: string, total: nat, digits: string) returns (ts: seq<Term>)
    requires AllDigits(digits) && DurationFrom(s, total, digits).Some?
    ensures GoodTerms(ts) && digits + s == TermsText(ts) && DurationFrom(s, total, digits).value == total + TermsSecs(ts)
  {
    hide *;
    DurationEnds(s, total, digits);
    if s == [] {
      ts := [];
      NoTerms();
    } else if IsDigit(s[0]) {
      ts := ReadTerms(s[1..], total, digits + [s[0]]);
      assert digits + [s[0]] + s[1..] == digits + s;
    } else {
      var t := Term(digits, s[0]);
      assert [s[0]] + s[1..] == s;
      DurationUnit(t, s[1..], total);
      TermDigits(t);
      var rest := ReadTerms(s[1..], total + DigitsValue(digits) * UnitSecs(s[0]), []);
      assert [] + s[1..] == s[1..];
      TermsCons(t, rest);
      ts := [t] + rest;
      assert digits + s == digits + [s[0]] + s[1..];
    }
  }

  lemma TermDigits(t: Term)
    requires GoodTerm(t)
    ensures AllDigits(t.digits) && AllDigits([])
  {
  }

  lemma NoTerms()
    ensures GoodTerms([]) && TermsText([]) == [] && TermsSecs([]) == 0
  {
  }

  lemma TermsCons(t: Term, rest: seq<Term>)
    requires GoodTerm(t) && GoodTerms(rest)
    ensures GoodTerms([t] + rest) && TermsText([t] + rest) == t.digits + [t.unit] + TermsText(rest)
    ensures TermsSecs([t] + rest) == DigitsValue(t.digits) * UnitSecs(t.unit) + TermsSecs(rest)
  {
    hide GoodTerm, DigitsValue, UnitSecs;
    assert ([t] + rest)[1..] == rest;
  }

  /** A text is a duration exactly if it is a list of numbers with units, and then it lasts what they amount to. */
  lemma DurationExactly(s: string, secs: nat)
    ensures DurationFrom(s, 0, []) == Some(secs) <==> Writes(s, secs)
  {
    if DurationFrom(s, 0, []).Some? {
      var ts := ReadTerms(s, 0, []);
      assert [] + s == s;
      assert Writes(s, TermsSecs(ts));
    }
    if Writes(s, secs) {
      var ts :| GoodTerms(ts) && s == TermsText(ts) && secs == TermsSecs(ts);
      TermsRead(ts, 0);
    }
    hide DurationFrom, TermsText, TermsSecs;
  }

  method ParseDuration(s: string, line: nat) returns (r: Result<nat, ParseError>)
    ensures r == match DurationFrom(s, 0, []) case Some(secs) => Ok(secs) case None => Err(Syntax(line))
    ensures if r.Ok? then Writes(s, r.value) else r == Err(Syntax(line)) && forall secs: nat :: !Writes(s, secs)
  {
    forall secs: nat { DurationExactly(s, secs); }
    var total: nat := 0;
    var digits: string := [];
    for i := 0 to |s|
      invariant AllDigits(digits)
      invariant DurationFrom(s, 0, []) == DurationFrom(s[i..], total, digits)
    {
      var c := s[i];
      assert s[i..][0] == c && s[i..][1..] == s[i + 1..];
      if IsDigit(c) {
        digits := digits + [c];
        continue;
      }
      if digits == [] {
        return Err(Syntax(line));
      }
      var n := DigitsValue(digits);
      digits := [];
      match c {
        case 's' => total := total + n;
        case 'm' => total := total + n * 60;
        case 'h' => total := total + n * 3600;
        case 'd' => total := total + n * 86400;
        case _ => return Err(Syntax(line));
      }
    }
    assert s[|s|..] == [];
    if digits != [] {
      return Err(Syntax(line));
    }
    return Ok(total);
  }

  predicate IsAsciiAlpha(c: char) {
    'a' <= c <= 'z' || 'A' <= c <= 'Z'
  }

  predicate TagStarts(tag: string) {
    tag != [] && (IsAsciiAlpha(tag[0]) || tag[0] == '_')
  }

  /** The parts of one beat: its tag, its value and the text between the outer brackets, if any. */
  datatype BeatParts = BeatParts(tag: string, value: NoteValue, inner: Option<string>)

  function ReadBeat(src: string): (r: Option<BeatParts>)
    ensures r.Some? && r.value.inner.Some? ==> |r.value.inner.value| < |src|
  {
    match SplitOnce(src, ':')
    case None => None
    case Some((before, after)) =>
      if !TagStarts(Trim(before)) then None else
      var rest := Trim(after);
      var i := IndexOf(rest, '[');
      if i < |rest| && rest[|rest| - 1] != ']' then None else
      var letter := if i < |rest| then Trim(rest[..i]) else rest;
      if |letter| != 1 then None else
      match FromLetter(letter[0])
      case None => None
      case Some(v) => Some(BeatParts(Trim(before), v, if i < |rest| then Some(rest[i + 1..|rest| - 1]) else None))
  }

  function ParseBeat(src: string, line: nat): Result<Beat, ParseError>
    decreases |src|, 0
  {
    match ReadBeat(src)
    case None => Err(Syntax(line))
    case Some(BeatParts(tag, value, None)) => Ok(Beat(value, Tag(tag)))
    case Some(BeatParts(_, value, Some(inner))) =>
      match ParseBeats(SplitTop(inner, ',', 0), |inner|, line)
      case Err(e) => Err(e)
      case Ok(children) => Ok(Beat(value, Subdivided(children)))
  }

  /** Parses the trimmed pieces in order; the first error ends it. */
  function ParseBeats(pieces: seq<string>, ghost bound: nat, line: nat): (r: Result<seq<Beat>, ParseError>)
    requires AllWithin(pieces, bound)
    ensures r.Ok? ==> |r.value| == |pieces|
    decreases bound, |pieces| + 1
  {
    hide Trim, ReadBeat;
    if pieces == [] then Ok([]) else
      match ParseBeat(Trim(pieces[0]), line)
      case Err(e) => Err(e)
      case Ok(first) =>
        match ParseBeats(pieces[1..], bound, line)
        case Err(e) => Err(e)
        case Ok(others) => Ok([first] + others)
  }

  function TrimStartOf(s: string, c: char): (r: string)
    ensures |r| <= |s|
  {
    if s != [] && s[0] == c then TrimStartOf(s[1..], c) else s
  }

  function TrimEndOf(s: string, c: char): (r: string)
    ensures |r| <= |s|
  {
    if s != [] && s[|s| - 1] == c then TrimEndOf(s[..|s| - 1], c) else s
  }

  /** The beats of the non-blank cells of a bar. */
  function ParseCells(cells: seq<string>, line: nat): Result<seq<Beat>, ParseError> {
    if cells == [] then Ok([])
    else if Trim(cells[0]) == [] then ParseCells(cells[1..], line)
    else
      match ParseBeat(Trim(cells[0]), line)
      case Err(e) => Err(e)
      case Ok(first) =>
        match ParseCells(cells[1..], line)
        case Err(e) => Err(e)
        case Ok(others) => Ok([first] + others)
  }

  function ParseBar(line: string, no: nat): (r: Result<seq<Beat>, ParseError>)
    ensures r.Ok? ==> AllWellDivided(r.value)
  {
    var inner := TrimEndOf(TrimStartOf(line, '|'), '|');
    match ParseCells(SplitTop(inner, '|', 0), no)
    case Err(e) => Err(e)
    case Ok(beats) =>
      match ValidateBeats(beats)
      case Err(e) => Err(Validation(e))
      case Ok(_) => Ok(beats)
  }

  /** `beats` were already parsed when the remaining cells gave `rest`. */
  function Prepended(beats: seq<Beat>, rest: Result<seq<Beat>, ParseError>): Result<seq<Beat>, ParseError> {
    match rest
    case Err(e) => Err(e)
    case Ok(bs) => Ok(beats + bs)
  }

  lemma PrependedOne(beats: seq<Beat>, b: Beat, rest: Result<seq<Beat>, ParseError>)
    ensures Prepended(beats, Prepended([b], rest)) == Prepended(beats + [b], rest)
  {
    if rest.Ok? { assert beats + ([b] + rest.value) == beats + [b] + rest.value; }
  }

  lemma PrependedNone(rest: Result<seq<Beat>, ParseError>)
    ensures Prepended([], rest) == rest
  {
    if rest.Ok? { assert [] + rest.value == rest.value; }
  }

  lemma ParseCellsStep(cells: seq<string>, i: nat, no: nat)
    requires i < |cells|
    ensures ParseCells(cells[i..], no) ==
            if Trim(cells[i]) == [] then ParseCells(cells[i + 1..], no)
            else
              match ParseBeat(Trim(cells[i]), no)
              case Err(e) => Err(e)
              case Ok(b) => Prepended([b], ParseCells(cells[i + 1..], no))
  {
    assert cells[i..][0] == cells[i] && cells[i..][1..] == cells[i + 1..];
  }

  method ParseBarBeats(line: string, no: nat) returns (r: Result<seq<Beat>, ParseError>)
    ensures r == ParseBar(line, no)
  {
    var inner := TrimEndOf(TrimStartOf(line, '|'), '|');
    var cells := SplitTopLevel(inner, '|');
    r := ParseAllCells(cells, no);
    if r.Ok? {
      var check := ValidateBeats(r.value);
      if check.Err? {
        return Err(Validation(check.error));
      }
    }
  }

  method ParseAllCells(cells: seq<string>, no: nat) returns (r: Result<seq<Beat>, ParseError>)
    ensures r == ParseCells(cells, no)
  {
    var beats: seq<Beat> := [];
    assert cells[0..] == cells;
    PrependedNone(ParseCells(cells, no));
    for i := 0 to |cells|
      invariant ParseCells(cells, no) == Prepended(beats, ParseCells(cells[i..], no))
    {
      var s := Trim(cells[i]);
      ParseCellsStep(cells, i, no);
      if s == [] {
        continue;
      }
      var b := ParseBeat(s, no);
      if b.Err? {
        return Err(b.error);
      }
      PrependedOne(beats, b.value, ParseCells(cells[i + 1..], no));
      beats := beats + [b.value];
    }
    assert cells[|cells|..] == [] && beats + [] == beats;
    return Ok(beats);
  }

  function StripComment(s: string): string {
    s[..IndexOf(s, '#')]
  }

  /** `split_once` at the first whitespace character. */
  function SplitAtSpace(s: string): (r: Option<(string, string)>)
    ensures r.Some? ==> |r.value.0| < |s| && s[..|r.value.0|] == r.value.0
  {
    if s == [] then None
    else if IsSpace(s[0]) then Some(([], s[1..]))
    else
      match SplitAtSpace(s[1..])
      case None => None
      case Some((a, b)) => Some(([s[0]] + a, b))
  }

  /** What one line contributes: nothing, a bar, or a new bar duration. */
  datatype LineItem = Blank | BarLine(beats: seq<Beat>) | BarDuration(secs: nat)

  function ParseLine(raw: string, no: nat): Result<LineItem, ParseError> {
    var line := Trim(StripComment(raw));
    if line == [] then Ok(Blank)
    else if line[0] == '|' then
      match ParseBar(line, no)
      case Err(e) => Err(e)
      case Ok(beats) => Ok(BarLine(beats))
    else
      match SplitAtSpace(line)
      case None => Err(Syntax(no))
      case Some((key, rest)) =>
        if key != "bar_duration" then Err(UnknownDirective(no, key)) else
        match DurationFrom(Trim(rest), 0, [])
        case None => Err(Syntax(no))
        case Some(secs) => Ok(BarDuration(secs))
  }

  /** Reads the lines from number `no` on; `secs` and `bars` are what the lines before gave. */
  function ParseLines(lines: seq<string>, no: nat, secs: nat, bars: seq<seq<Beat>>): Result<(nat, seq<seq<Beat>>), ParseError>
    decreases |lines|
  {
    if lines == [] then Ok((secs, bars)) else
    match ParseLine(lines[0], no)
    case Err(e) => Err(e)
    case Ok(Blank) => ParseLines(lines[1..], no + 1, secs, bars)
    case Ok(BarLine(beats)) => ParseLines(lines[1..], no + 1, secs, bars + [beats])
    case Ok(BarDuration(s)) => ParseLines(lines[1..], no + 1, s, bars)
  }

  /** Index of the first bar that is not `expected` 64ths long, or the number of bars. */
  function FirstOddBar(bars: seq<seq<Beat>>, expected: nat): (j: nat)
    ensures j <= |bars|
    ensures forall k :: 0 <= k < j ==> Sum64ths(bars[k]) == expected
    ensures j < |bars| ==> Sum64ths(bars[j]) != expected
  {
    if bars == [] || Sum64ths(bars[0]) != expected then 0
    else
      var j := FirstOddBar(bars[1..], expected);
      assert forall k :: 0 < k < |bars| ==> bars[k] == bars[1..][k - 1];
      1 + j
  }

  function WithSignature(timeSignature: TimeSignature, bars: seq<seq<Beat>>): (r: seq<Bar>)
    ensures |r| == |bars|
    ensures forall i :: 0 <= i < |r| ==> r[i] == Bar(timeSignature, bars[i])
  {
    seq(|bars|, i requires 0 <= i < |bars| => Bar(timeSignature, bars[i]))
  }

  function Assemble(secs: nat, bars: seq<seq<Beat>>): Result<Pattern, ParseError> {
    var first := if bars == [] then 64 else Sum64ths(bars[0]);
    var odd := FirstOddBar(bars, first);
    if odd < |bars| then Err(Validation(BarLengthMismatch(odd, first, Sum64ths(bars[odd]))))
    else if first == 0 then Err(DivisionByZero)
    else
      var timeSignature := TimeSignature(first / Quarter.In64ths(), Quarter);
      var pattern := Pattern(timeSignature, FromBarSecs(secs, first), WithSignature(timeSignature, bars));
      match Validate(pattern)
      case Err(e) => Err(Validation(e))
      case Ok(_) => Ok(pattern)
  }

  const DEFAULT_BAR_SECS := 4 * 3600

  function ParseText(src: string): Result<Pattern, ParseError> {
    match ParseLines(Lines(src), 1, DEFAULT_BAR_SECS, [])
    case Err(e) => Err(e)
    case Ok((secs, bars)) => Assemble(secs, bars)
  }

  /** One line: blank, a bar, or the bar duration. */
  method ParseSourceLine(raw: string, no: nat) returns (r: Result<LineItem, ParseError>)
    ensures r == ParseLine(raw, no)
  {
    var line := Trim(StripComment(raw));
    if line == [] {
      return Ok(Blank);
    }
    if line[0] == '|' {
      var beats := ParseBarBeats(line, no);
      if beats.Err? {
        return Err(beats.error);
      }
      return Ok(BarLine(beats.value));
    }
    var directive := SplitAtSpace(line);
    if directive.None? {
      return Err(Syntax(no));
    }
    var (key, rest) := directive.value;
    if key != "bar_duration" {
      return Err(UnknownDirective(no, key));
    }
    var secs := ParseDuration(Trim(rest), no);
    if secs.Err? {
      return Err(secs.error);
    }
    return Ok(BarDuration(secs.value));
  }

  method Parse(src: string) returns (r: Result<Pattern, ParseError>)
    ensures r == ParseText(src)
  {
    var barDurationSecs: nat := DEFAULT_BAR_SECS;
    var allBeats: seq<seq<Beat>> := [];
    var lines := Lines(src);
    for i := 0 to |lines|
      invariant ParseLines(lines, 1, DEFAULT_BAR_SECS, []) == ParseLines(lines[i..], i + 1, barDurationSecs, allBeats)
    {
      assert lines[i..][0] == lines[i] && lines[i..][1..] == lines[i + 1..];
      var item := ParseSourceLine(lines[i], i + 1);
      match item {
        case Err(e) => return Err(e);
        case Ok(Blank) =>
        case Ok(BarLine(beats)) => allBeats := allBeats + [beats];
        case Ok(BarDuration(secs)) => barDurationSecs := secs;
      }
    }
    assert lines[|lines|..] == [];
    r := Assemble(barDurationSecs, allBeats);
  }
}
