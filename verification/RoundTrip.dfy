/** Parsing what was printed gives the pattern back, and exactly when it does. */
module RoundTrip {
  import opened Options
  import opened Text
  import opened Notation
  import opened Pattern
  import opened Dsl
  import opened PlanSort
  import opened FromPlan
  import opened Walks

  // ---------- the printed alphabet ----------

  predicate TagChar(c: char) {
    IsAsciiAlpha(c) || IsDigit(c) || c == '_' || c == '-'
  }

  /** A tag as the grammar in `parser.rs` describes it. */
  predicate GrammarTag(tag: string) {
    TagStarts(tag) && forall i :: 0 <= i < |tag| ==> TagChar(tag[i])
  }

  predicate GoodBeat(b: Beat)
    decreases b
  {
    match b.content
    case Tag(t) => GrammarTag(t)
    case Subdivided(children) => children != [] && forall c :: c in children ==> GoodBeat(c)
  }

  predicate GoodBeats(bs: seq<Beat>) {
    forall b :: b in bs ==> GoodBeat(b)
  }

  /** Characters of a printed beat: none of them ends a cell, a comment or a line, and none is blank. */
  predicate BeatChar(c: char) {
    TagChar(c) || c == ':' || c == '[' || c == ']' || c == ','
  }

  predicate BeatChars(s: string) {
    forall i :: 0 <= i < |s| ==> BeatChar(s[i])
  }

  /** Bracket depth after `s`. */
  function Depth(s: string, d: int): int {
    if s == [] then d else Depth(s[1..], NextDepth(s[0], d))
  }

  /** No separator of `s` stands at bracket depth 0. */
  predicate Shielded(s: string, sep: char, d: int) {
    s == [] || (!Splits(s[0], sep, d) && Shielded(s[1..], sep, NextDepth(s[0], d)))
  }

  lemma {:induction false} ShieldedAppend(a: string, b: string, sep: char, d: int)
    ensures Depth(a + b, d) == Depth(b, Depth(a, d))
    ensures Shielded(a + b, sep, d) == (Shielded(a, sep, d) && Shielded(b, sep, Depth(a, d)))
  {
    if a == [] {
      assert a + b == b;
    } else {
      assert (a + b)[1..] == a[1..] + b && (a + b)[0] == a[0];
      ShieldedAppend(a[1..], b, sep, NextDepth(a[0], d));
    }
  }

  lemma PiecesGrow(c: char, w: string, rest: seq<string>)
    requires |rest| >= 1
    ensures var all := Pieces([], w, rest); Pieces([], [c] + w, rest) == [[c] + all[0]] + all[1..]
  {
    var all := Pieces([], w, rest);
    assert all[0] == w + rest[0] && all[1..] == rest[1..];
    assert ([c] + w) + rest[0] == [c] + (w + rest[0]);
  }

  lemma SplitKeeps(s: string, sep: char, d: int)
    requires s != [] && !Splits(s[0], sep, d)
    ensures var rest := SplitTop(s[1..], sep, NextDepth(s[0], d)); SplitTop(s, sep, d) == [[s[0]] + rest[0]] + rest[1..]
  {
  }

  /** Splitting leaves a shielded text in one piece with whatever follows it. */
  lemma {:induction false} SplitShielded(w: string, t: string, sep: char, d: int)
    requires Shielded(w, sep, d)
    ensures SplitTop(w + t, sep, d) == Pieces([], w, SplitTop(t, sep, Depth(w, d)))
  {
    if w == [] {
      assert w + t == t;
      PiecesFresh([], SplitTop(t, sep, d));
    } else {
      hide SplitTop, Pieces;
      assert w == [w[0]] + w[1..] && (w + t)[1..] == w[1..] + t && (w + t)[0] == w[0];
      SplitShielded(w[1..], t, sep, NextDepth(w[0], d));
      PiecesGrow(w[0], w[1..], SplitTop(t, sep, Depth(w, d)));
      SplitKeeps(w + t, sep, d);
    }
  }

  lemma {:induction false} PlainShielded(s: string, sep: char, d: int)
    requires forall i :: 0 <= i < |s| ==> s[i] != '[' && s[i] != ']' && s[i] != sep
    ensures Depth(s, d) == d && Shielded(s, sep, d)
  {
    if s == [] {
    } else {
      PlainShielded(s[1..], sep, d);
    }
  }

  lemma {:induction false} AbsentShielded(s: string, sep: char, d: int)
    requires forall i :: 0 <= i < |s| ==> s[i] != sep
    ensures Shielded(s, sep, d)
  {
    if s == [] {
    } else {
      AbsentShielded(s[1..], sep, NextDepth(s[0], d));
    }
  }

  // ---------- one beat ----------

  /** `tag:letter` without brackets. */
  function Stem(tag: string, v: NoteValue): string {
    tag + ":" + [v.Letter()]
  }

  lemma OuterTagIsGood(b: Beat)
    requires GoodBeat(b) && b.content.Subdivided?
    ensures GrammarTag(OuterTag(b.content.children))
  {
    var children := b.content.children;
    assert children[0] in children;
    assert GrammarTag("beat");
  }

  lemma StemShielded(tag: string, v: NoteValue, sep: char, d: int)
    requires GrammarTag(tag) && (sep == ',' || sep == '|')
    ensures BeatChars(Stem(tag, v)) && Depth(Stem(tag, v), d) == d && Shielded(Stem(tag, v), sep, d)
  {
    var s := Stem(tag, v);
    assert IsAsciiAlpha(v.Letter());
    PlainShielded(s, sep, d);
  }

  /** A printed beat is balanced, and its commas stand inside brackets. */
  lemma {:induction false} BeatTextShielded(b: Beat, d: int)
    requires GoodBeat(b) && d >= 0
    ensures BeatChars(BeatText(b)) && Depth(BeatText(b), d) == d && Shielded(BeatText(b), ',', d)
    decreases b, 0
  {
    match b.content
    case Tag(t) =>
      StemShielded(t, b.value, ',', d);
    case Subdivided(children) =>
      OuterTagIsGood(b);
      var stem, inner := Stem(OuterTag(children), b.value), Join(BeatTexts(children), ",");
      StemShielded(OuterTag(children), b.value, ',', d);
      JoinShielded(children, d + 1);
      BracketedShielded(stem, inner, d);
      assert BeatText(b) == stem + ("[" + (inner + "]"));
  }

  lemma BracketedShielded(stem: string, inner: string, d: int)
    requires d >= 0 && BeatChars(stem) && BeatChars(inner)
    requires Depth(stem, d) == d && Shielded(stem, ',', d)
    requires Depth(inner, d + 1) == d + 1 && Shielded(inner, ',', d + 1)
    ensures var s := stem + ("[" + (inner + "]")); BeatChars(s) && Depth(s, d) == d && Shielded(s, ',', d)
  {
    ShieldedAppend(inner, "]", ',', d + 1);
    BracketShielded(d);
    ShieldedAppend("[", inner + "]", ',', d);
    ShieldedAppend(stem, "[" + (inner + "]"), ',', d);
  }

  lemma BracketShielded(d: int)
    requires d >= 0
    ensures Depth("[", d) == d + 1 && Shielded("[", ',', d)
    ensures Depth("]", d + 1) == d && Shielded("]", ',', d + 1)
    ensures Depth(",", d + 1) == d + 1 && Shielded(",", ',', d + 1)
  {
    assert "["[1..] == [] && "]"[1..] == [] && ","[1..] == [];
  }

  lemma {:induction false} JoinShielded(bs: seq<Beat>, d: int)
    requires GoodBeats(bs) && d >= 1
    ensures var s := Join(BeatTexts(bs), ","); BeatChars(s) && Depth(s, d) == d && Shielded(s, ',', d)
    decreases bs, 1
  {
    if bs == [] {
    } else {
      var texts := BeatTexts(bs);
      BeatTextShielded(bs[0], d);
      if |bs| > 1 {
        var rest := Join(BeatTexts(bs[1..]), ",");
        JoinShielded(bs[1..], d);
        assert texts[1..] == BeatTexts(bs[1..]);
        assert Join(texts, ",") == BeatText(bs[0]) + ("," + rest);
        hide *;
        CommaShielded(BeatText(bs[0]), rest, d);
      }
    }
  }

  lemma CommaShielded(w: string, rest: string, d: int)
    requires d >= 1 && BeatChars(w) && Depth(w, d) == d && Shielded(w, ',', d)
    requires BeatChars(rest) && Depth(rest, d) == d && Shielded(rest, ',', d)
    ensures var s := w + ("," + rest); BeatChars(s) && Depth(s, d) == d && Shielded(s, ',', d)
  {
    BracketShielded(d - 1);
    hide Shielded, Depth;
    ShieldedAppend(",", rest, ',', d);
    ShieldedAppend(w, "," + rest, ',', d);
  }

  /** Splitting the joined children gives the children's texts. */
  lemma {:induction false} SplitJoined(bs: seq<Beat>)
    requires GoodBeats(bs) && bs != []
    ensures SplitTop(Join(BeatTexts(bs), ","), ',', 0) == BeatTexts(bs)
  {
    var texts := BeatTexts(bs);
    var w := BeatText(bs[0]);
    BeatTextShielded(bs[0], 0);
    if |bs| == 1 {
      assert w + [] == w;
      SplitShielded(w, [], ',', 0);
      PiecesEnd([], w, ',', 0);
      assert texts == [w];
    } else {
      var rest := Join(BeatTexts(bs[1..]), ",");
      assert texts[1..] == BeatTexts(bs[1..]);
      assert Join(texts, ",") == w + ("," + rest);
      SplitJoined(bs[1..]);
      assert texts == [w] + texts[1..];
      hide *;
      SplitFirst(w, rest);
    }
  }

  /** A shielded piece and a comma in front of a text. */
  lemma SplitFirst(w: string, rest: string)
    requires Shielded(w, ',', 0) && Depth(w, 0) == 0
    ensures SplitTop(w + ("," + rest), ',', 0) == [w] + SplitTop(rest, ',', 0)
  {
    hide Shielded, Depth, SplitTop;
    SplitShielded(w, "," + rest, ',', 0);
    SplitComma(rest);
    var after := SplitTop("," + rest, ',', 0);
    assert after[1..] == SplitTop(rest, ',', 0) && w + after[0] == w;
    assert Pieces([], w, after) == [w] + SplitTop(rest, ',', 0);
  }

  lemma SplitComma(rest: string)
    ensures SplitTop("," + rest, ',', 0) == [[]] + SplitTop(rest, ',', 0)
  {
    var tail := "," + rest;
    assert tail[0] == ',' && tail[1..] == rest;
  }

  lemma BeatCharFacts(c: char)
    requires BeatChar(c)
    ensures !IsSpace(c) && c != '|' && c != '#' && c != '\n' && c != '\r'
  {
  }

  lemma BeatCharsTrimmed(s: string)
    requires BeatChars(s)
    ensures Trim(s) == s
  {
    if s != [] {
      BeatCharFacts(s[0]);
      BeatCharFacts(s[|s| - 1]);
    }
    TrimTrimmed(s);
  }

  lemma SplitOnceAt(a: string, c: char, b: string)
    requires c !in a
    ensures SplitOnce(a + [c] + b, c) == Some((a, b))
  {
    IndexOfPrefix(a, c, b);
    var s := a + [c] + b;
    assert s[..|a|] == a && s[|a| + 1..] == b;
  }

  lemma GrammarTagPlain(tag: string)
    requires GrammarTag(tag)
    ensures ':' !in tag && Trim(tag) == tag && TagStarts(tag)
  {
    assert BeatChars(tag);
    BeatCharsTrimmed(tag);
  }

  lemma LetterIsBeatChar(v: NoteValue)
    ensures BeatChar(v.Letter()) && '[' !in [v.Letter()]
  {
  }

  lemma SingleTrimmed(c: char)
    requires BeatChar(c)
    ensures Trim([c]) == [c]
  {
    BeatCharsTrimmed([c]);
  }

  lemma FromLetterLetter(v: NoteValue)
    ensures FromLetter(v.Letter()) == Some(v)
  {
    FromLetterExactly(v.Letter(), v);
  }

  lemma LetterFacts(v: NoteValue)
    ensures FromLetter(v.Letter()) == Some(v) && Trim([v.Letter()]) == [v.Letter()] && '[' !in [v.Letter()]
  {
    hide BeatChar, NoteValue.Letter, FromLetter, Trim;
    LetterIsBeatChar(v);
    SingleTrimmed(v.Letter());
    FromLetterLetter(v);
  }

  lemma ReadLeaf(tag: string, v: NoteValue)
    requires GrammarTag(tag)
    ensures ReadBeat(Stem(tag, v)) == Some(BeatParts(tag, v, None))
  {
    hide GrammarTag, Trim, FromLetter, NoteValue.Letter, TagStarts;
    LetterFacts(v);
    GrammarTagPlain(tag);
    var l := [v.Letter()];
    SplitOnceAt(tag, ':', l);
    assert Stem(tag, v) == tag + [':'] + l;
    hide SplitOnce;
    assert IndexOf(l, '[') == 1;
  }

  lemma BracketedTrimmed(l: char, inner: string)
    requires BeatChar(l) && BeatChars(inner)
    ensures Trim([l] + "[" + inner + "]") == [l] + "[" + inner + "]"
  {
    var s := [l] + "[" + inner + "]";
    assert BeatChar('[') && BeatChar(']');
    hide BeatChar, Trim;
    forall i | 0 <= i < |s| ensures BeatChar(s[i]) {
      if 2 <= i < |s| - 1 { assert s[i] == inner[i - 2]; }
    }
    BeatCharsTrimmed(s);
  }

  lemma ReadSubdivision(tag: string, v: NoteValue, inner: string)
    requires GrammarTag(tag) && BeatChars(inner)
    ensures ReadBeat(Stem(tag, v) + "[" + inner + "]") == Some(BeatParts(tag, v, Some(inner)))
  {
    hide GrammarTag, BeatChar, BeatChars, Trim, FromLetter, NoteValue.Letter, TagStarts;
    LetterFacts(v);
    LetterIsBeatChar(v);
    BracketedTrimmed(v.Letter(), inner);
    GrammarTagPlain(tag);
    var l := [v.Letter()];
    var rest := l + "[" + inner + "]";
    assert Stem(tag, v) + "[" + inner + "]" == tag + [':'] + rest;
    SplitOnceAt(tag, ':', rest);
    assert rest == l + ['['] + (inner + "]");
    IndexOfPrefix(l, '[', inner + "]");
    hide SplitOnce, IndexOf;
    assert rest[..1] == l && rest[2..|rest| - 1] == inner && rest[|rest| - 1] == ']';
  }

  lemma BeatTextTrimmed(b: Beat)
    requires GoodBeat(b)
    ensures Trim(BeatText(b)) == BeatText(b) && Trimmed(BeatText(b)) && BeatText(b) != []
  {
    BeatTextShielded(b, 0);
    BeatCharsTrimmed(BeatText(b));
  }

  /** The parser reads back every printed beat, at any nesting depth. */
  lemma {:induction false} ParseBeatText(b: Beat, line: nat)
    requires GoodBeat(b)
    ensures ParseBeat(BeatText(b), line) == Ok(b)
    decreases b, 0
  {
    match b.content
    case Tag(t) =>
      ReadLeaf(t, b.value);
      assert BeatText(b) == Stem(t, b.value);
    case Subdivided(children) =>
      var tag, inner := OuterTag(children), Join(BeatTexts(children), ",");
      OuterTagIsGood(b);
      JoinShielded(children, 1);
      ReadSubdivision(tag, b.value, inner);
      assert BeatText(b) == Stem(tag, b.value) + "[" + inner + "]";
      SplitJoined(children);
      ParseBeatTexts(children, |inner|, line);
  }

  lemma {:induction false} ParseBeatTexts(bs: seq<Beat>, bound: nat, line: nat)
    requires GoodBeats(bs)
    requires AllWithin(BeatTexts(bs), bound)
    ensures ParseBeats(BeatTexts(bs), bound, line) == Ok(bs)
    decreases bs, 1
  {
    hide ParseBeat, Trim, GoodBeat, BeatText;
    if bs == [] {
    } else {
      var texts := BeatTexts(bs);
      assert texts[1..] == BeatTexts(bs[1..]) && texts[0] == BeatText(bs[0]);
      BeatTextTrimmed(bs[0]);
      ParseBeatText(bs[0], line);
      ParseBeatTexts(bs[1..], bound, line);
      assert [bs[0]] + bs[1..] == bs;
    }
  }

  // ---------- one bar line ----------

  lemma BeatTextNoBar(b: Beat, d: int)
    requires GoodBeat(b)
    ensures var s := BeatText(b); Depth(s, 0) == 0 && Shielded(s, '|', 0)
  {
    BeatTextShielded(b, 0);
    var s := BeatText(b);
    forall i | 0 <= i < |s| ensures s[i] != '|' { BeatCharFacts(s[i]); }
    AbsentShielded(s, '|', 0);
  }

  /** The inside of a bar line: beats between bar characters, without the outer two. */
  function BarInner(bs: seq<Beat>): string {
    if bs == [] then []
    else if |bs| == 1 then " " + BeatText(bs[0]) + " "
    else " " + BeatText(bs[0]) + " |" + BarInner(bs[1..])
  }

  function PaddedTexts(bs: seq<Beat>): (r: seq<string>)
    ensures |r| == |bs|
    ensures forall i :: 0 <= i < |bs| ==> r[i] == " " + BeatText(bs[i]) + " "
  {
    seq(|bs|, i requires 0 <= i < |bs| => " " + BeatText(bs[i]) + " ")
  }

  lemma PaddedShielded(b: Beat)
    requires GoodBeat(b)
    ensures var s := " " + BeatText(b) + " "; Depth(s, 0) == 0 && Shielded(s, '|', 0)
  {
    BeatTextNoBar(b, 0);
    PlainShielded(" ", '|', 0);
    ShieldedAppend(" ", BeatText(b), '|', 0);
    ShieldedAppend(" " + BeatText(b), " ", '|', 0);
  }

  lemma {:induction false} SplitBarInner(bs: seq<Beat>)
    requires GoodBeats(bs) && bs != []
    ensures SplitTop(BarInner(bs), '|', 0) == PaddedTexts(bs)
  {
    var w := " " + BeatText(bs[0]) + " ";
    PaddedShielded(bs[0]);
    PaddedTextsCons(bs);
    hide BeatText, GoodBeat, Shielded, SplitTop, Pieces, PaddedTexts, Depth;
    if |bs| == 1 {
      SplitShielded(w, [], '|', 0);
      assert w + [] == w;
      PiecesEnd([], w, '|', 0);
      assert PaddedTexts([]) == [] && bs[1..] == [];
    } else {
      var rest := BarInner(bs[1..]);
      CellJoins(BeatText(bs[0]), rest);
      assert BarInner(bs) == w + ("|" + rest);
      SplitShielded(w, "|" + rest, '|', 0);
      SplitBarInner(bs[1..]);
      SplitAtBar(rest);
      PiecesAfterBar(w, PaddedTexts(bs[1..]));
    }
  }

  lemma PaddedTextsCons(bs: seq<Beat>)
    requires bs != []
    ensures PaddedTexts(bs) == [" " + BeatText(bs[0]) + " "] + PaddedTexts(bs[1..])
    ensures PaddedTexts([]) == []
  {
  }

  lemma CellJoins(t: string, rest: string)
    ensures " " + t + " |" + rest == (" " + t + " ") + ("|" + rest)
  {
  }

  lemma SplitAtBar(rest: string)
    ensures SplitTop("|" + rest, '|', 0) == [[]] + SplitTop(rest, '|', 0)
  {
    assert ("|" + rest)[1..] == rest && ("|" + rest)[0] == '|';
  }

  lemma PiecesAfterBar(w: string, pieces: seq<string>)
    ensures Pieces([], w, [[]] + pieces) == [w] + pieces
  {
    var all := [[]] + pieces;
    assert all[1..] == pieces && w + all[0] == w;
  }

  lemma TrimPaddedText(b: Beat)
    requires GoodBeat(b)
    ensures Trim(" " + BeatText(b) + " ") == BeatText(b) && BeatText(b) != []
  {
    hide BeatText, Trim, Trimmed, GoodBeat;
    BeatTextTrimmed(b);
    TrimPadded(" ", BeatText(b), " ");
  }

  lemma {:induction false} ParsePaddedCells(bs: seq<Beat>, no: nat)
    requires GoodBeats(bs)
    ensures ParseCells(PaddedTexts(bs), no) == Ok(bs)
  {
    hide ParseBeat, Trim, GoodBeat, BeatText;
    if bs == [] {
    } else {
      var cells := PaddedTexts(bs);
      assert cells[1..] == PaddedTexts(bs[1..]) && cells[0] == " " + BeatText(bs[0]) + " ";
      hide PaddedTexts;
      TrimPaddedText(bs[0]);
      ParseBeatText(bs[0], no);
      ParsePaddedCells(bs[1..], no);
      assert [bs[0]] + bs[1..] == bs;
    }
  }

  /** A bar line without its trailing blank. */
  function BarLineText(bs: seq<Beat>): string {
    if bs == [] then "|" else "|" + BarInner(bs) + "|"
  }

  lemma {:induction false} CellsAsInner(bs: seq<Beat>)
    requires bs != []
    ensures " " + Cells(bs) == BarInner(bs) + "|" + " "
  {
    hide BeatText;
    var t := BeatText(bs[0]);
    if |bs| == 1 {
      assert bs[1..] == [] && Cells(bs) == t + " | " + "";
    } else {
      CellsAsInner(bs[1..]);
      CellJoinsInner(t, Cells(bs[1..]), BarInner(bs[1..]));
    }
  }

  lemma CellJoinsInner(t: string, cells: string, inner: string)
    requires " " + cells == inner + "|" + " "
    ensures " " + (t + " | " + cells) == (" " + t + " |" + inner) + "|" + " "
  {
    assert " " + (t + " | " + cells) == " " + t + " |" + (" " + cells);
  }

  lemma TrimAfterBar(line: string)
    requires line != [] && line[0] == '|' && line[|line| - 1] == '|'
    ensures Trim(line + " ") == line
  {
    TrimPadded([], line, " ");
    assert [] + line + " " == line + " ";
  }

  lemma TrimBarLine(bs: seq<Beat>)
    ensures Trim("| " + Cells(bs)) == BarLineText(bs)
  {
    hide Trim;
    TrimAfterBar(BarLineText(bs));
    if bs == [] {
      assert "| " + Cells(bs) == "|" + " ";
    } else {
      CellsAsInner(bs);
      hide Cells, BarInner;
      BarJoins(Cells(bs), BarInner(bs));
    }
  }

  lemma BarJoins(cells: string, inner: string)
    requires " " + cells == inner + "|" + " "
    ensures "| " + cells == "|" + inner + "|" + " "
  {
    assert "| " + cells == "|" + (" " + cells);
  }

  lemma {:induction false} InnerStartsBlank(bs: seq<Beat>)
    requires bs != []
    ensures BarInner(bs) != [] && BarInner(bs)[0] == ' ' && BarInner(bs)[|BarInner(bs)| - 1] == ' '
  {
    if |bs| <= 1 {
    } else {
      InnerStartsBlank(bs[1..]);
    }
  }

  lemma StripBars(inner: string)
    requires inner != [] && inner[0] == ' ' && inner[|inner| - 1] == ' '
    ensures TrimEndOf(TrimStartOf("|" + inner + "|", '|'), '|') == inner
  {
    var line := "|" + inner + "|";
    assert line[1..] == inner + "|" && (inner + "|")[0] == ' ';
    assert TrimStartOf(line, '|') == inner + "|";
    assert (inner + "|")[..|inner + "|"| - 1] == inner;
  }

  lemma InnerOfLine(bs: seq<Beat>)
    ensures TrimEndOf(TrimStartOf(BarLineText(bs), '|'), '|') == BarInner(bs)
  {
    if bs == [] {
      assert "|"[1..] == [];
    } else {
      InnerStartsBlank(bs);
      StripBars(BarInner(bs));
    }
  }

  /** The parser reads back a printed bar line. */
  lemma ParseBarText(bs: seq<Beat>, no: nat)
    requires GoodBeats(bs) && AllWellDivided(bs)
    ensures ParseBar(BarLineText(bs), no) == Ok(bs)
  {
    InnerOfLine(bs);
    if bs == [] {
      var cells: seq<string> := [[]];
      assert SplitTop([], '|', 0) == cells && cells[1..] == [];
      assert ParseCells(cells[1..], no) == Ok([]) && Trim(cells[0]) == [];
    } else {
      SplitBarInner(bs);
      ParsePaddedCells(bs, no);
    }
  }

  // ---------- lines ----------

  /** Free of comment signs and line ends. */
  predicate Clean(s: string) {
    '#' !in s && '\n' !in s
  }

  lemma CleanBeatText(b: Beat)
    requires GoodBeat(b)
    ensures Clean(BeatText(b))
  {
    BeatTextShielded(b, 0);
    forall i | 0 <= i < |BeatText(b)| ensures BeatText(b)[i] != '#' && BeatText(b)[i] != '\n' {
      BeatCharFacts(BeatText(b)[i]);
    }
  }

  lemma {:induction false} CleanCells(bs: seq<Beat>)
    requires GoodBeats(bs)
    ensures Clean(Cells(bs))
  {
    if bs == [] {
    } else {
      CleanBeatText(bs[0]);
      CleanCells(bs[1..]);
      hide BeatText;
    }
  }

  lemma CommentFree(s: string)
    requires Clean(s)
    ensures StripComment(s) == s
  {
    assert IndexOf(s, '#') == |s|;
  }

  function BarLine(bar: Bar): string {
    "| " + Cells(bar.beats)
  }

  lemma ParseBarLine(bar: Bar, no: nat)
    requires GoodBeats(bar.beats) && AllWellDivided(bar.beats)
    ensures ParseLine(BarLine(bar), no) == Ok(LineItem.BarLine(bar.beats))
  {
    var bs := bar.beats;
    CleanCells(bs);
    assert Clean("| " + Cells(bs));
    CommentFree("| " + Cells(bs));
    TrimBarLine(bs);
    ParseBarText(bs, no);
    assert BarLineText(bs) != [] && BarLineText(bs)[0] == '|';
    hide StripComment, Trim, ParseBar, BarLineText, Cells;
  }

  lemma {:induction false} CellsEndBlank(bs: seq<Beat>)
    requires bs != []
    ensures Cells(bs) != [] && Cells(bs)[|Cells(bs)| - 1] == ' '
  {
    hide BeatText;
    if |bs| <= 1 {
    } else {
      CellsEndBlank(bs[1..]);
    }
  }

  lemma LastBlank(bs: seq<Beat>)
    ensures var line := "| " + Cells(bs); line[|line| - 1] == ' '
  {
    if bs != [] { CellsEndBlank(bs); }
  }

  function BarLines(bars: seq<Bar>): seq<string> {
    if bars == [] then [] else [BarLine(bars[0])] + BarLines(bars[1..])
  }

  ghost predicate GoodBars(bars: seq<Bar>) {
    forall i :: 0 <= i < |bars| ==> GoodBeats(bars[i].beats) && AllWellDivided(bars[i].beats)
  }

  lemma {:induction false} LinesOfBars(bars: seq<Bar>)
    requires GoodBars(bars)
    ensures Lines(BarsText(bars)) == BarLines(bars)
  {
    if bars == [] {
      LinesEmpty();
    } else {
      var line := BarLine(bars[0]);
      CleanCells(bars[0].beats);
      LastBlank(bars[0].beats);
      LinesOfBars(bars[1..]);
      assert BarsText(bars) == line + "\n" + BarsText(bars[1..]);
      assert StripCr(line) == line && '\n' !in line;
      hide Lines, BarsText;
      LinesFirst(line, BarsText(bars[1..]));
    }
  }

  function BeatsOf(bars: seq<Bar>): (r: seq<seq<Beat>>)
    ensures |r| == |bars|
    ensures forall i :: 0 <= i < |bars| ==> r[i] == bars[i].beats
  {
    if bars == [] then [] else [bars[0].beats] + BeatsOf(bars[1..])
  }

  lemma {:induction false} ParseBarLines(bars: seq<Bar>, no: nat, secs: nat, acc: seq<seq<Beat>>)
    requires GoodBars(bars)
    ensures ParseLines(BarLines(bars), no, secs, acc) == Ok((secs, acc + BeatsOf(bars)))
  {
    hide ParseLine, BarLine, GoodBeats, AllWellDivided;
    if bars == [] {
      assert acc + [] == acc;
    } else {
      ParseBarLine(bars[0], no);
      ParseBarLines(bars[1..], no + 1, secs, acc + [bars[0].beats]);
      var lines := BarLines(bars);
      assert lines[0] == BarLine(bars[0]) && lines[1..] == BarLines(bars[1..]);
      assert acc + [bars[0].beats] + BeatsOf(bars[1..]) == acc + BeatsOf(bars);
    }
  }

  // ---------- the duration line ----------

  lemma DurationPart(n: nat, c: char, rest: string, total: nat)
    requires c == 'h' || c == 'm'
    ensures DurationFrom(Dec(n) + [c] + rest, total, []) == DurationFrom(rest, total + n * (if c == 'h' then 3600 else 60), [])
  {
    DigitsValueDec(n);
    hide DurationFrom, Dec, DigitsValue;
    var t := Term(Dec(n), c);
    assert GoodTerm(t);
    DurationTerm(t, rest, total);
  }

  lemma HoursAndMinutes(secs: nat)
    ensures secs - secs % 60 == secs / 3600 * 3600 + secs % 3600 / 60 * 60
  {
    var h, rest := secs / 3600, secs % 3600;
    var m, s := rest / 60, rest % 60;
    assert secs == 3600 * h + rest && rest == 60 * m + s;
    MinutesAway(60 * h + m, s);
    assert secs == 60 * (60 * h + m) + s;
  }

  lemma MinutesAway(q: nat, s: nat)
    requires s < 60
    ensures (60 * q + s) % 60 == s
  {
  }

  /** What the parser reads from a printed duration: the whole minutes. */
  lemma DurationRoundTrip(secs: nat)
    ensures DurationFrom(DurationText(secs), 0, []) == Some(secs - secs % 60)
  {
    hide DurationFrom, Dec;
    var h, m := secs / 3600, secs % 3600 / 60;
    HoursAndMinutes(secs);
    DurationDone(h * 3600 + m * 60);
    if m == 0 {
      DurationPart(h, 'h', [], 0);
      assert Dec(h) + "h" == Dec(h) + ['h'] + [];
    } else if h == 0 {
      DurationPart(m, 'm', [], 0);
      assert Dec(m) + "m" == Dec(m) + ['m'] + [];
    } else {
      DurationPart(h, 'h', Dec(m) + "m", 0);
      DurationPart(m, 'm', [], h * 3600);
      assert Dec(m) + "m" == Dec(m) + ['m'] + [];
      assert Dec(h) + "h" + Dec(m) + "m" == Dec(h) + ['h'] + (Dec(m) + "m");
    }
  }

  lemma DurationDone(total: nat)
    ensures DurationFrom([], total, []) == Some(total)
  {
  }

  predicate DurationChars(s: string) {
    forall i :: 0 <= i < |s| ==> IsDigit(s[i]) || s[i] == 'h' || s[i] == 'm'
  }

  lemma DurationTextChars(secs: nat)
    ensures DurationChars(DurationText(secs)) && DurationText(secs) != []
  {
  }

  lemma DurationTextPlain(s: string)
    requires DurationChars(s)
    ensures Clean(s) && Trimmed(s)
  {
  }

  lemma {:induction false} SplitAtSpaceAt(a: string, b: string)
    requires forall i :: 0 <= i < |a| ==> !IsSpace(a[i])
    ensures SplitAtSpace(a + " " + b) == Some((a, b))
  {
    var s := a + " " + b;
    if a == [] {
      assert s[1..] == b && s[0] == ' ';
    } else {
      assert s[1..] == a[1..] + " " + b && s[0] == a[0];
      SplitAtSpaceAt(a[1..], b);
      assert [a[0]] + a[1..] == a;
    }
  }

  const KEY := "bar_duration"

  lemma KeyFacts()
    ensures Clean(KEY) && (forall i :: 0 <= i < |KEY| ==> !IsSpace(KEY[i])) && KEY[0] != '|'
  {
  }

  lemma ParseDurationLine(d: string, no: nat)
    requires DurationChars(d) && d != []
    ensures ParseLine(KEY + " " + d, no) ==
            match DurationFrom(d, 0, []) case None => Err(Syntax(no)) case Some(secs) => Ok(BarDuration(secs))
  {
    var line := KEY + " " + d;
    KeyFacts();
    DurationTextPlain(d);
    assert Clean(line);
    CommentFree(line);
    assert line[0] == KEY[0] && line[|line| - 1] == d[|d| - 1];
    assert Trimmed(line);
    TrimTrimmed(line);
    TrimTrimmed(d);
    SplitAtSpaceAt(KEY, d);
    hide StripComment, Trim, Trimmed, SplitAtSpace, DurationFrom, Clean, DurationChars, IsSpace;
  }

  // ---------- whole patterns ----------

  lemma DurationLine(secs: nat)
    ensures var line := KEY + " " + DurationText(secs); '\n' !in line && StripCr(line) == line
  {
    var d := DurationText(secs);
    DurationTextChars(secs);
    DurationTextPlain(d);
    KeyFacts();
    var line := KEY + " " + d;
    assert line[|line| - 1] == d[|d| - 1];
  }

  lemma TextLines(p: Pattern)
    requires GoodBars(p.bars)
    ensures Lines(PatternText(p)) == [KEY + " " + DurationText(BarSecs(p)), ""] + BarLines(p.bars)
  {
    hide Lines, StripCr, BarsText, DurationText, BarLines, BarSecs;
    var line := KEY + " " + DurationText(BarSecs(p));
    DurationLine(BarSecs(p));
    LinesOfBars(p.bars);
    StripCrEmpty();
    var rest := BarsText(p.bars);
    LinesFirst("", rest);
    LinesFirst(line, "" + "\n" + rest);
    assert PatternText(p) == line + "\n" + ("" + "\n" + rest);
  }

  lemma StripCrEmpty()
    ensures StripCr("") == ""
  {
  }

  lemma AfterDuration(line: string, rest: seq<string>, no: nat, secs: nat, s: nat, bars: seq<seq<Beat>>)
    requires ParseLine(line, no) == Ok(BarDuration(s))
    ensures ParseLines([line] + rest, no, secs, bars) == ParseLines(rest, no + 1, s, bars)
  {
    hide ParseLine;
  }

  lemma AfterBlank(line: string, rest: seq<string>, no: nat, secs: nat, bars: seq<seq<Beat>>)
    requires ParseLine(line, no) == Ok(Blank)
    ensures ParseLines([line] + rest, no, secs, bars) == ParseLines(rest, no + 1, secs, bars)
  {
    hide ParseLine;
  }

  /** What the parser makes of a printed pattern: its bars, with the bar length cut to whole minutes. */
  lemma ParsePrinted(p: Pattern)
    requires GoodBars(p.bars)
    ensures ParseText(PatternText(p)) == Assemble(BarSecs(p) - BarSecs(p) % 60, BeatsOf(p.bars))
  {
    hide ParseLine, ParseLines, BarLines, BeatsOf, PatternText, DurationText, DurationFrom, Lines, Assemble, BarSecs;
    var d := DurationText(BarSecs(p));
    var secs := BarSecs(p) - BarSecs(p) % 60;
    TextLines(p);
    DurationTextChars(BarSecs(p));
    ParseDurationLine(d, 1);
    DurationRoundTrip(BarSecs(p));
    ParseEmptyLine(2);
    var first, tail := KEY + " " + d, [""] + BarLines(p.bars);
    assert [first, ""] + BarLines(p.bars) == [first] + tail;
    AfterDuration(first, tail, 1, DEFAULT_BAR_SECS, secs, []);
    AfterBlank("", BarLines(p.bars), 2, secs, []);
    ParseBarLines(p.bars, 3, secs, []);
    assert [] + BeatsOf(p.bars) == BeatsOf(p.bars);
  }

  lemma ParseEmptyLine(no: nat)
    ensures ParseLine("", no) == Ok(Blank)
  {
    CommentFree("");
  }

  lemma AssembledShape(secs: nat, bars: seq<seq<Beat>>, p: Pattern)
    requires Assemble(secs, bars) == Ok(p)
    ensures ValidPattern(p) && Shaped(p)
  {
    hide ValidPattern, FromBarSecs;
  }

  /** Whatever the parser accepts is valid, in quarters, and has one time signature throughout. */
  lemma ParsedShape(src: string, p: Pattern)
    requires ParseText(src) == Ok(p)
    ensures ValidPattern(p) && Shaped(p)
  {
    hide ParseLines, Assemble;
    var lines := ParseLines(Lines(src), 1, DEFAULT_BAR_SECS, []);
    AssembledShape(lines.value.0, lines.value.1, p);
  }

  /** In quarters, one time signature throughout, a first bar with beats, 4/4 when there are no bars. */
  predicate Shaped(p: Pattern) {
    p.timeSignature.beatUnit == Quarter &&
    (forall i :: 0 <= i < |p.bars| ==> p.bars[i].timeSignature == p.timeSignature) &&
    (p.bars == [] ==> p.timeSignature == COMMON) &&
    (p.bars != [] ==> p.bars[0].beats != [])
  }

  /** Every tag of the beat, at any depth, follows the grammar. */
  predicate GrammarTags(b: Beat)
    decreases b
  {
    match b.content
    case Tag(t) => GrammarTag(t)
    case Subdivided(children) => forall c :: c in children ==> GrammarTags(c)
  }

  lemma {:induction false} DividedIsGood(b: Beat)
    requires WellDivided(b) && GrammarTags(b)
    ensures GoodBeat(b)
  {
    match b.content
    case Tag(_) =>
    case Subdivided(children) =>
      assert children != [];
      forall c | c in children ensures GoodBeat(c) { DividedIsGood(c); }
  }

  ghost predicate TagsFollowGrammar(p: Pattern) {
    forall i, b :: 0 <= i < |p.bars| && b in p.bars[i].beats ==> GrammarTags(b)
  }

  lemma ValidIsGood(p: Pattern)
    requires ValidPattern(p) && TagsFollowGrammar(p)
    ensures GoodBars(p.bars)
  {
    forall i | 0 <= i < |p.bars| ensures GoodBeats(p.bars[i].beats) && AllWellDivided(p.bars[i].beats) {
      assert ValidBar(p.bars[i]);
      forall b | b in p.bars[i].beats ensures GoodBeat(b) { DividedIsGood(b); }
    }
  }

  /** Sharing the printed bar length out again gives the tempo back exactly when no seconds were cut. */
  lemma TempoBack(q: nat, n: nat)
    requires n > 0
    ensures var secs := q * (n * 16) / 16;
            FromBarSecs(secs - secs % 60, n * 16).quarterSeconds == q <==> secs % 60 == 0
  {
    var secs := q * (n * 16) / 16;
    assert secs == q * n by { assert q * (n * 16) == (q * n) * 16; }
    var cut := secs - secs % 60;
    var back := cut * 16 / (n * 16);
    ScaledQuotient(cut, n);
    assert back == cut / n;
    if secs % 60 == 0 {
      assert cut == q * n;
      QuotientOfProduct(q, n);
    } else {
      SmallerQuotient(cut, q, n);
    }
  }

  lemma ScaledQuotient(a: nat, n: nat)
    requires n > 0
    ensures a * 16 / (n * 16) == a / n
  {
    var k, r := a / n, a % n;
    assert a == k * n + r;
    assert a * 16 == k * (n * 16) + r * 16 && 0 <= r * 16 < n * 16;
    DivisionUnique(a * 16, n * 16, k, r * 16);
  }

  lemma MultipleIsLarge(x: int, d: int)
    requires d >= 0
    ensures x >= 1 ==> x * d >= d
    ensures x <= -1 ==> x * d <= -d
  {
    if x >= 1 {
      assert x * d == (x - 1) * d + d;
    } else if x <= -1 {
      assert x * d == (x + 1) * d - d;
    }
  }

  lemma DivisionUnique(a: nat, d: nat, k: nat, r: nat)
    requires d > 0 && a == k * d + r && r < d
    ensures a / d == k
  {
    var x := a / d - k;
    assert a == (a / d) * d + a % d;
    assert x * d == (a / d) * d - k * d;
    MultipleIsLarge(x, d);
  }

  lemma QuotientOfProduct(q: nat, n: nat)
    requires n > 0
    ensures q * n / n == q
  {
    DivisionUnique(q * n, n, q, 0);
  }

  lemma SmallerQuotient(a: nat, q: nat, n: nat)
    requires n > 0 && a < q * n
    ensures a / n < q
  {
    var x := q - a / n;
    assert a == (a / n) * n + a % n;
    assert x * n == q * n - (a / n) * n;
    MultipleIsLarge(x, n);
  }

  /**
   * Parsing the printed text gives the pattern back exactly for the valid patterns in
   * quarters with one time signature, a bar length of whole minutes, a first bar with beats,
   * and 4/4 when there are no bars. Tags follow the grammar; nesting is unbounded.
   */
  lemma RoundTripExactlyWhen(p: Pattern)
    requires TagsFollowGrammar(p)
    ensures ParseText(PatternText(p)) == Ok(p) <==> ValidPattern(p) && Shaped(p) && BarSecs(p) % 60 == 0
  {
    hide ParseText, PatternText, ValidPattern, Shaped, BarSecs, Assemble;
    if ParseText(PatternText(p)) == Ok(p) {
      ParsedShape(PatternText(p), p);
    }
    if ValidPattern(p) && Shaped(p) {
      ValidIsGood(p);
      ParsePrinted(p);
      AssembleBack(p);
    }
  }

  /** One 4/4 bar that lasts four seconds. */
  function ShortBar(): Pattern {
    Pattern(COMMON, Tempo(1), [Bar(COMMON, [Beat(Whole, Tag("a"))])])
  }

  lemma ShortBarFacts()
    ensures var p := ShortBar(); TagsFollowGrammar(p) && ValidPattern(p) && Shaped(p) && BarSecs(p) == 4
  {
    var beats := [Beat(Whole, Tag("a"))];
    assert beats[1..] == [];
    assert GrammarTag("a");
    assert Sum64ths(beats) == 64;
  }

  /** A valid pattern in the right shape that does not survive: its seconds are not printed. */
  lemma SecondsAreLost()
    ensures ValidPattern(ShortBar()) && Shaped(ShortBar()) && ParseText(PatternText(ShortBar())) != Ok(ShortBar())
  {
    ShortBarFacts();
    hide *;
    RoundTripExactlyWhen(ShortBar());
  }

  lemma BarsBack(p: Pattern)
    requires ValidPattern(p) && Shaped(p)
    ensures var bars, n := BeatsOf(p.bars), p.timeSignature.beatsPerBar;
            n > 0 && (bars == [] ==> n == 4) && forall i :: 0 <= i < |bars| ==> Sum64ths(bars[i]) == n * 16
  {
    var bars, n := BeatsOf(p.bars), p.timeSignature.beatsPerBar;
    forall i | 0 <= i < |bars| ensures Sum64ths(bars[i]) == n * 16 { assert ValidBar(p.bars[i]); }
  }

  /** Bars of equal length assemble to a pattern in quarters, if that is valid. */
  lemma AssembleEven(secs: nat, bars: seq<seq<Beat>>, n: nat)
    requires n > 0 && (bars == [] ==> n == 4) && forall i :: 0 <= i < |bars| ==> Sum64ths(bars[i]) == n * 16
    ensures var signature := TimeSignature(n, Quarter);
            var q := Pattern(signature, FromBarSecs(secs, n * 16), WithSignature(signature, bars));
            ValidPattern(q) ==> Assemble(secs, bars) == Ok(q)
  {
    hide Sum64ths, ValidPattern, FromBarSecs, WithSignature;
  }

  lemma ValidAtAnyTempo(p: Pattern, tempo: Tempo)
    requires ValidPattern(p)
    ensures ValidPattern(p.(tempo := tempo))
  {
  }

  lemma AssembleBack(p: Pattern)
    requires ValidPattern(p) && Shaped(p)
    ensures Assemble(BarSecs(p) - BarSecs(p) % 60, BeatsOf(p.bars)) == Ok(p) <==> BarSecs(p) % 60 == 0
  {
    var n := p.timeSignature.beatsPerBar;
    var secs := BarSecs(p);
    var tempo := FromBarSecs(secs - secs % 60, n * 16);
    BarsBack(p);
    TempoBack(p.tempo.quarterSeconds, n);
    ValidAtAnyTempo(p, tempo);
    hide Assemble, Sum64ths, ValidPattern, FromBarSecs;
    AssembleEven(secs - secs % 60, BeatsOf(p.bars), n);
    assert WithSignature(p.timeSignature, BeatsOf(p.bars)) == p.bars;
    assert TimeSignature(n, Quarter) == p.timeSignature;
  }

  // ---------- patterns made from plans ----------

  /** A plan's pattern survives the round trip exactly when its longest bar is whole quarters. */
  lemma PlanRoundTripExactlyWhen(items: seq<PlanItem>, batches: seq<seq<int>>, p: Pattern)
    requires Layering(GraphOf(TableOf(items)), batches) && IsPatternOf(items, batches, p)
    requires forall i :: 0 <= i < |items| ==> GrammarTag(items[i].id)
    ensures ParseText(PatternText(p)) == Ok(p) <==> batches == [] || Longest(items, batches) % 16 == 0
  {
    PlanTags(items, batches, p);
    PlanPatternValidExactlyWhen(items, batches, p);
    PlanShape(items, batches, p);
    hide ParseText, PatternText, ValidPattern, Layering, IsPatternOf, Longest, BarSecs, Shaped, TagsFollowGrammar;
    RoundTripExactlyWhen(p);
  }

  lemma PlanTags(items: seq<PlanItem>, batches: seq<seq<int>>, p: Pattern)
    requires IsPatternOf(items, batches, p)
    requires forall i :: 0 <= i < |items| ==> GrammarTag(items[i].id)
    ensures TagsFollowGrammar(p)
  {
    forall k, b | 0 <= k < |p.bars| && b in p.bars[k].beats ensures GrammarTags(b) {
      PaddedIsDivided(items, batches[k], Longest(items, batches), p.bars[k].beats);
      assert GrammarTag("rest");
    }
  }

  lemma PlanShape(items: seq<PlanItem>, batches: seq<seq<int>>, p: Pattern)
    requires Layering(GraphOf(TableOf(items)), batches) && IsPatternOf(items, batches, p)
    ensures Shaped(p) && BarSecs(p) % 60 == 0
  {
    TwoHourQuarters(p);
    if batches != [] {
      assert batches[0] != [];
      FirstBarHasBeats(items, batches[0], Longest(items, batches), p.bars[0].beats);
    }
    hide Layering, GraphOf, TableOf, Longest, IsPadded, BarSecs;
  }

  lemma FirstBarHasBeats(items: seq<PlanItem>, batch: seq<int>, length: nat, beats: seq<Beat>)
    requires InRange(items, batch) && IsPadded(items, batch, length, beats) && batch != []
    ensures beats != []
  {
  }

  lemma TwoHourQuarters(p: Pattern)
    requires p.tempo == DEFAULT_TEMPO && p.timeSignature.beatUnit == Quarter
    ensures BarSecs(p) % 60 == 0
  {
    var n := p.timeSignature.beatsPerBar;
    assert p.timeSignature.BarIn64ths() == n * 16;
    WholeHours(n);
  }

  lemma WholeHours(n: nat)
    ensures 7200 * (n * 16) / 16 == 7200 * n && (7200 * n) % 60 == 0
  {
  }
}
