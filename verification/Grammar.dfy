/** Which texts the pattern parser accepts, and what it reads from them, said without the parser. */
module Grammar {
  import opened Options
  import opened Text
  import opened Notation
  import opened Pattern
  import opened Dsl
  import opened RoundTrip

  // ---------- cutting at separators outside brackets ----------

  /** How many brackets are open after `s`. */
  ghost function Level(s: string): int {
    (multiset(s)['['] as int) - (multiset(s)[']'] as int)
  }

  /** No separator of the text stands outside its brackets. */
  ghost predicate Unbroken(s: string, sep: char) {
    forall k :: 0 <= k < |s| && s[k] == sep ==> Level(s[..k]) != 0
  }

  /** The text is cut at exactly the separators that stand outside all brackets. */
  ghost predicate Cuts(s: string, sep: char, pieces: seq<string>) {
    pieces != [] && s == Join(pieces, [sep]) &&
    forall i :: 0 <= i < |pieces| ==> Unbroken(pieces[i], sep) && (i + 1 < |pieces| ==> Level(pieces[i]) == 0)
  }

  lemma {:induction false} DepthIsLevel(s: string, d: int)
    ensures Depth(s, d) == d + Level(s)
  {
    if s == [] {
    } else {
      DepthIsLevel(s[1..], NextDepth(s[0], d));
      assert s == [s[0]] + s[1..];
      assert multiset(s) == multiset([s[0]]) + multiset(s[1..]);
    }
  }

  lemma {:induction false} ShieldedIsUnbroken(s: string, sep: char, d: int)
    requires sep != '[' && sep != ']'
    ensures Shielded(s, sep, d) <==> forall k :: 0 <= k < |s| && s[k] == sep ==> d + Level(s[..k]) != 0
  {
    if s == [] {
    } else {
      var e := NextDepth(s[0], d);
      ShieldedIsUnbroken(s[1..], sep, e);
      assert s[..0] == [];
      forall k | 0 < k <= |s| ensures d + Level(s[..k]) == e + Level(s[1..][..k - 1]) {
        assert s[..k] == [s[0]] + s[1..][..k - 1];
        assert multiset(s[..k]) == multiset([s[0]]) + multiset(s[1..][..k - 1]);
      }
      hide Level;
      if Shielded(s, sep, d) {
        forall k | 0 <= k < |s| && s[k] == sep ensures d + Level(s[..k]) != 0 {
          if k > 0 { assert s[1..][k - 1] == sep; } else { assert Level([]) == 0 by { EmptyLevel(); } }
        }
      }
      if forall k :: 0 <= k < |s| && s[k] == sep ==> d + Level(s[..k]) != 0 {
        assert Level([]) == 0 by { EmptyLevel(); }
        forall k | 0 <= k < |s[1..]| && s[1..][k] == sep ensures e + Level(s[1..][..k]) != 0 { assert s[k + 1] == sep; }
      }
    }
  }

  lemma EmptyLevel()
    ensures Level([]) == 0
  {
  }

  /** The same, when the text starts at depth `d`. */
  ghost predicate CutsFrom(s: string, sep: char, d: int, pieces: seq<string>) {
    pieces != [] && s == Join(pieces, [sep]) && Shielded(pieces[0], sep, d) && (|pieces| > 1 ==> Depth(pieces[0], d) == 0) &&
    forall i :: 1 <= i < |pieces| ==> Shielded(pieces[i], sep, 0) && (i + 1 < |pieces| ==> Depth(pieces[i], 0) == 0)
  }

  lemma {:induction false} SplitCutsFrom(s: string, sep: char, d: int)
    requires sep != '[' && sep != ']'
    ensures CutsFrom(s, sep, d, SplitTop(s, sep, d))
  {
    if s == [] {
    } else {
      var rest := SplitTop(s[1..], sep, NextDepth(s[0], d));
      SplitCutsFrom(s[1..], sep, NextDepth(s[0], d));
      var pieces := SplitTop(s, sep, d);
      assert s == [s[0]] + s[1..];
      if Splits(s[0], sep, d) {
        assert pieces == [[]] + rest && pieces[1..] == rest;
        hide SplitTop, Shielded, Depth;
        assert Shielded([], sep, d) && Depth([], d) == d by { EmptyShielded(sep, d); }
      } else {
        assert pieces == [[s[0]] + rest[0]] + rest[1..];
        hide SplitTop;
        JoinGrows(s[0], rest, sep);
        assert pieces[0][1..] == rest[0];
        forall i | 1 <= i < |pieces| ensures pieces[i] == rest[i] {}
      }
    }
  }

  lemma EmptyShielded(sep: char, d: int)
    ensures Shielded([], sep, d) && Depth([], d) == d
  {
  }

  lemma JoinGrows(c: char, rest: seq<string>, sep: char)
    requires rest != []
    ensures Join([[c] + rest[0]] + rest[1..], [sep]) == [c] + Join(rest, [sep])
  {
    var pieces := [[c] + rest[0]] + rest[1..];
    assert pieces[1..] == rest[1..];
    if |rest| > 1 {
      assert [c] + rest[0] + [sep] + Join(rest[1..], [sep]) == [c] + (rest[0] + [sep] + Join(rest[1..], [sep]));
    }
  }

  lemma {:induction false} CutsFromSplit(s: string, sep: char, d: int, pieces: seq<string>)
    requires sep != '[' && sep != ']' && CutsFrom(s, sep, d, pieces)
    ensures SplitTop(s, sep, d) == pieces
    decreases |pieces|
  {
    var w := pieces[0];
    if |pieces| == 1 {
      SplitShielded(w, [], sep, d);
      assert w + [] == w && pieces == [w];
      PiecesEnd([], w, sep, Depth(w, d));
    } else {
      var rest := Join(pieces[1..], [sep]);
      assert s == w + ([sep] + rest);
      forall i | 1 <= i < |pieces[1..]|
        ensures Shielded(pieces[1..][i], sep, 0) && (i + 1 < |pieces[1..]| ==> Depth(pieces[1..][i], 0) == 0)
      {
        assert pieces[1..][i] == pieces[i + 1];
      }
      CutsFromSplit(rest, sep, 0, pieces[1..]);
      SplitShielded(w, [sep] + rest, sep, d);
      SplitAtSep(sep, rest);
      hide SplitTop, Shielded, Depth;
      PiecesAfterBar(w, pieces[1..]);
      assert [w] + pieces[1..] == pieces;
    }
  }

  lemma SplitAtSep(sep: char, rest: string)
    requires sep != '[' && sep != ']'
    ensures SplitTop([sep] + rest, sep, 0) == [[]] + SplitTop(rest, sep, 0)
  {
    assert ([sep] + rest)[1..] == rest && ([sep] + rest)[0] == sep;
  }

  /** Splitting cuts exactly at the separators outside all brackets, and only splitting does. */
  lemma CutsExactly(s: string, sep: char, pieces: seq<string>)
    requires sep != '[' && sep != ']'
    ensures SplitTop(s, sep, 0) == pieces <==> Cuts(s, sep, pieces)
  {
    SplitCutsFrom(s, sep, 0);
    forall p: string ensures Shielded(p, sep, 0) <==> Unbroken(p, sep) { ShieldedIsUnbroken(p, sep, 0); }
    forall p: string ensures Depth(p, 0) == Level(p) { DepthIsLevel(p, 0); }
    hide SplitTop, Shielded, Depth, Unbroken, Level, Join;
    if Cuts(s, sep, pieces) {
      assert CutsFrom(s, sep, 0, pieces);
      CutsFromSplit(s, sep, 0, pieces);
    }
  }

  // ---------- beats ----------

  /** The letter names the note value, in either case. */
  ghost predicate Names(c: char, v: NoteValue) {
    (c in "wW" && v == Whole) || (c in "hH" && v == Half) || (c in "qQ" && v == Quarter) || (c in "eE" && v == Eighth) ||
    (c in "sS" && v == Sixteenth) || (c in "tT" && v == ThirtySecond) || (c in "xX" && v == SixtyFourth)
  }

  lemma NamesExactly(c: char, v: NoteValue)
    ensures FromLetter(c) == Some(v) <==> Names(c, v)
  {
  }

  /** The first colon separates a tag, which starts with a letter or underscore, from the rest. */
  ghost predicate Heads(src: string, tag: string, rest: string) {
    tag != [] && ('a' <= tag[0] <= 'z' || 'A' <= tag[0] <= 'Z' || tag[0] == '_') &&
    exists x, y :: src == x + ":" + y && ':' !in x && tag == Trim(x) && rest == Trim(y)
  }

  /** The rest behind the colon is one letter, or one letter and a bracket around the text `inner`. */
  ghost predicate Values(rest: string, v: NoteValue, inner: Option<string>) {
    match inner
    case None => '[' !in rest && |rest| == 1 && Names(rest[0], v)
    case Some(t) => exists w, c :: rest == w + "[" + t + "]" && '[' !in w && Trim(w) == [c] && Names(c, v)
  }

  /** The text spells the beat: a tag with a value, or a value divided into the beats that the bracket spells. */
  ghost predicate Spells(src: string, b: Beat)
    decreases b, 0
  {
    exists tag, rest, inner ::
      Heads(src, tag, rest) && Values(rest, b.value, inner) &&
      match b.content
      case Tag(t) => inner.None? && t == tag
      case Subdivided(bs) => inner.Some? && exists pieces :: Cuts(inner.value, ',', pieces) && SpellAll(pieces, bs)
  }

  ghost predicate SpellAll(pieces: seq<string>, bs: seq<Beat>)
    decreases bs, 1
  {
    |pieces| == |bs| && forall i :: 0 <= i < |bs| ==> Spells(Trim(pieces[i]), bs[i])
  }

  lemma HeadsOnce(src: string, x: string, y: string)
    requires src == x + ":" + y && ':' !in x
    ensures SplitOnce(src, ':') == Some((x, y))
  {
    assert src == x + [':'] + y;
    IndexOfPrefix(x, ':', y);
    hide IndexOf;
    assert src[..|x|] == x && src[|x| + 1..] == y;
  }

  /** What the parser makes of the text behind the colon. */
  ghost predicate ReadsRest(rest: string, v: NoteValue, inner: Option<string>) {
    var i := IndexOf(rest, '[');
    (i < |rest| ==> rest[|rest| - 1] == ']') &&
    var letter := if i < |rest| then Trim(rest[..i]) else rest;
    |letter| == 1 && FromLetter(letter[0]) == Some(v) && inner == if i < |rest| then Some(rest[i + 1..|rest| - 1]) else None
  }

  lemma BracketFound(w: string, t: string)
    requires '[' !in w
    ensures var rest := w + "[" + t + "]";
            var i := IndexOf(rest, '[');
            i == |w| && rest[..i] == w && i < |rest| - 1 && rest[i + 1..|rest| - 1] == t && rest[|rest| - 1] == ']'
  {
    var u := t + "]";
    IndexOfPrefix(w, '[', u);
    hide IndexOf;
    assert w + "[" + t + "]" == w + ['['] + u;
  }

  lemma BracketTaken(rest: string)
    requires IndexOf(rest, '[') < |rest| && rest[|rest| - 1] == ']'
    ensures var i := IndexOf(rest, '[');
            i < |rest| - 1 && '[' !in rest[..i] && rest == rest[..i] + "[" + rest[i + 1..|rest| - 1] + "]"
  {
    hide IndexOf;
    Bracketed(rest, IndexOf(rest, '['));
  }

  lemma Bracketed(s: string, i: nat)
    requires i < |s| - 1 && s[i] == '[' && s[|s| - 1] == ']'
    ensures s == s[..i] + "[" + s[i + 1..|s| - 1] + "]"
  {
    assert s == s[..i] + [s[i]] + s[i + 1..|s| - 1] + [s[|s| - 1]];
  }

  lemma ValuesExactly(rest: string, v: NoteValue, inner: Option<string>)
    ensures ReadsRest(rest, v, inner) <==> Values(rest, v, inner)
  {
    forall c { NamesExactly(c, v); }
    hide Trim, FromLetter, Names, IndexOf;
    if ReadsRest(rest, v, inner) {
      var i := IndexOf(rest, '[');
      if i < |rest| {
        BracketTaken(rest);
        var w := rest[..i];
        assert Trim(w) == [Trim(w)[0]];
      } else {
        assert rest[..i] == rest;
      }
    }
    if Values(rest, v, inner) {
      if inner.Some? {
        var w, c :| rest == w + "[" + inner.value + "]" && '[' !in w && Trim(w) == [c] && Names(c, v);
        BracketFound(w, inner.value);
      } else {
        assert IndexOf(rest, '[') == |rest|;
      }
    }
  }

  lemma ReadParts(src: string, tag: string, v: NoteValue, inner: Option<string>)
    ensures ReadBeat(src) == Some(BeatParts(tag, v, inner)) <==>
            SplitOnce(src, ':').Some? && var (x, y) := SplitOnce(src, ':').value;
                                         TagStarts(Trim(x)) && tag == Trim(x) && ReadsRest(Trim(y), v, inner)
  {
    hide Trim, FromLetter, IndexOf, SplitOnce;
  }

  lemma ReadExactly(src: string, tag: string, v: NoteValue, inner: Option<string>)
    ensures ReadBeat(src) == Some(BeatParts(tag, v, inner)) <==>
            exists rest :: Heads(src, tag, rest) && Values(rest, v, inner)
  {
    ReadParts(src, tag, v, inner);
    forall rest { ValuesExactly(rest, v, inner); }
    hide ReadBeat, Trim, ReadsRest, Values;
    if SplitOnce(src, ':').Some? {
      var (x, y) := SplitOnce(src, ':').value;
      assert src == x + ":" + y;
      if TagStarts(Trim(x)) && tag == Trim(x) { assert Heads(src, tag, Trim(y)); }
    }
    if rest :| Heads(src, tag, rest) && Values(rest, v, inner) {
      var x, y :| src == x + ":" + y && ':' !in x && tag == Trim(x) && rest == Trim(y);
      HeadsOnce(src, x, y);
    }
  }

  /** The trimmed pieces are parsed as the beats. */
  ghost predicate ParsedAll(pieces: seq<string>, bs: seq<Beat>, line: nat) {
    |pieces| == |bs| && forall i :: 0 <= i < |bs| ==> ParseBeat(Trim(pieces[i]), line) == Ok(bs[i])
  }

  lemma {:induction false} BeatsExactly(pieces: seq<string>, bound: nat, line: nat, bs: seq<Beat>)
    requires AllWithin(pieces, bound)
    ensures ParseBeats(pieces, bound, line) == Ok(bs) <==> ParsedAll(pieces, bs, line)
    decreases |pieces|
  {
    hide Trim, ParseBeat;
    if pieces == [] {
    } else {
      assert AllWithin(pieces[1..], bound);
      if bs != [] {
        BeatsExactly(pieces[1..], bound, line, bs[1..]);
        assert forall i :: 1 <= i < |pieces| ==> pieces[1..][i - 1] == pieces[i];
        assert forall i :: 1 <= i < |bs| ==> bs[1..][i - 1] == bs[i];
        assert [bs[0]] + bs[1..] == bs;
      }
    }
  }

  lemma {:induction false} AllExactly(pieces: seq<string>, line: nat, bs: seq<Beat>)
    ensures SpellAll(pieces, bs) <==> ParsedAll(pieces, bs, line)
    decreases bs, 1
  {
    if |pieces| == |bs| {
      forall i | 0 <= i < |bs| { BeatExactly(Trim(pieces[i]), line, bs[i]); }
    }
    hide ParseBeat, Spells, Trim;
  }

  /** A text is parsed as a beat exactly if it spells that beat. */
  lemma {:induction false} BeatExactly(src: string, line: nat, b: Beat)
    ensures ParseBeat(src, line) == Ok(b) <==> Spells(src, b)
    decreases b, 0
  {
    hide ParseBeat, Spells, SpellAll, ParsedAll;
    match b.content
    case Tag(t) => TagExactly(src, line, b);
    case Subdivided(bs) =>
      forall pieces { AllExactly(pieces, line, bs); }
      DividedExactly(src, line, b);
  }

  lemma TagExactly(src: string, line: nat, b: Beat)
    requires b.content.Tag?
    ensures ParseBeat(src, line) == Ok(b) <==> Spells(src, b)
  {
    ReadExactly(src, b.content.tag, b.value, None);
    ParsesAs(src, line, b);
    SpellsTag(src, b);
    hide *;
  }

  lemma SpellsTag(src: string, b: Beat)
    requires b.content.Tag?
    ensures Spells(src, b) <==> exists rest :: Heads(src, b.content.tag, rest) && Values(rest, b.value, None)
  {
    hide Heads, Values;
  }

  /** What the parser makes of the parts it has read. */
  lemma ParsesAs(src: string, line: nat, b: Beat)
    ensures b.content.Tag? ==>
      (ParseBeat(src, line) == Ok(b) <==> ReadBeat(src) == Some(BeatParts(b.content.tag, b.value, None)))
    ensures b.content.Subdivided? ==>
      (ParseBeat(src, line) == Ok(b) <==>
       exists tag, t :: ReadBeat(src) == Some(BeatParts(tag, b.value, Some(t))) &&
                        ParseBeats(SplitTop(t, ',', 0), |t|, line) == Ok(b.content.children))
  {
    hide ReadBeat, SplitTop, ParseBeats;
  }

  lemma SpellsDivided(src: string, b: Beat)
    requires b.content.Subdivided?
    ensures Spells(src, b) <==> exists tag, t :: DividesAs(src, b, tag, t)
  {
    hide Heads, Values, Cuts, SpellAll;
    if Spells(src, b) {
      var tag, rest, inner :| Heads(src, tag, rest) && Values(rest, b.value, inner) && inner.Some? &&
        exists pieces :: Cuts(inner.value, ',', pieces) && SpellAll(pieces, b.content.children);
      assert DividesAs(src, b, tag, inner.value);
    }
  }

  /** The text is a tag, a value and a bracket around a text that spells the children. */
  ghost predicate DividesAs(src: string, b: Beat, tag: string, t: string)
    requires b.content.Subdivided?
  {
    (exists rest :: Heads(src, tag, rest) && Values(rest, b.value, Some(t))) &&
    exists pieces :: Cuts(t, ',', pieces) && SpellAll(pieces, b.content.children)
  }

  lemma CutsSpell(t: string, bs: seq<Beat>)
    ensures (exists pieces :: Cuts(t, ',', pieces) && SpellAll(pieces, bs)) <==> SpellAll(SplitTop(t, ',', 0), bs)
  {
    forall pieces { CutsExactly(t, ',', pieces); }
    hide SplitTop, Cuts, SpellAll;
  }

  lemma DividesIs(src: string, b: Beat, tag: string, t: string)
    requires b.content.Subdivided?
    ensures DividesAs(src, b, tag, t) <==>
            (exists rest :: Heads(src, tag, rest) && Values(rest, b.value, Some(t))) &&
            exists pieces :: Cuts(t, ',', pieces) && SpellAll(pieces, b.content.children)
  {
    hide Heads, Values, Cuts, SpellAll;
  }

  lemma ParsesDivided(src: string, line: nat, b: Beat, tag: string, t: string)
    requires b.content.Subdivided?
    requires forall pieces :: SpellAll(pieces, b.content.children) <==> ParsedAll(pieces, b.content.children, line)
    ensures (ReadBeat(src) == Some(BeatParts(tag, b.value, Some(t))) &&
             ParseBeats(SplitTop(t, ',', 0), |t|, line) == Ok(b.content.children)) <==> DividesAs(src, b, tag, t)
  {
    hide *;
    ReadExactly(src, tag, b.value, Some(t));
    BeatsExactly(SplitTop(t, ',', 0), |t|, line, b.content.children);
    CutsSpell(t, b.content.children);
    DividesIs(src, b, tag, t);
  }

  lemma DividedExactly(src: string, line: nat, b: Beat)
    requires b.content.Subdivided?
    requires forall pieces :: SpellAll(pieces, b.content.children) <==> ParsedAll(pieces, b.content.children, line)
    ensures ParseBeat(src, line) == Ok(b) <==> Spells(src, b)
  {
    hide *;
    ParsesAs(src, line, b);
    SpellsDivided(src, b);
    forall tag, t { ParsesDivided(src, line, b, tag, t); }
  }

  /** A text that spells no beat is a syntax error on its line. */
  lemma {:induction false} BeatErrors(src: string, line: nat)
    ensures ParseBeat(src, line).Err? ==> ParseBeat(src, line) == Err(Syntax(line))
    decreases |src|
  {
    var parts := ReadBeat(src);
    hide ReadBeat;
    if parts.Some? && parts.value.inner.Some? {
      var t := parts.value.inner.value;
      BeatsErrors(SplitTop(t, ',', 0), |t|, line, |src|);
      hide SplitTop;
    }
  }

  lemma {:induction false} BeatsErrors(pieces: seq<string>, bound: nat, line: nat, above: nat)
    requires AllWithin(pieces, bound) && bound < above
    ensures ParseBeats(pieces, bound, line).Err? ==> ParseBeats(pieces, bound, line) == Err(Syntax(line))
    decreases above, 0, |pieces|
  {
    if pieces == [] {
    } else {
      BeatErrors(Trim(pieces[0]), line);
      assert AllWithin(pieces[1..], bound);
      BeatsErrors(pieces[1..], bound, line, above);
      hide Trim, ParseBeat;
    }
  }

  // ---------- bars ----------

  ghost predicate AllBars(s: string) {
    forall i :: 0 <= i < |s| ==> s[i] == '|'
  }

  /** The line without the bar characters at its ends. */
  ghost predicate Inside(line: string, inner: string) {
    (inner == [] || (inner[0] != '|' && inner[|inner| - 1] != '|')) &&
    exists pre, post :: line == pre + inner + post && AllBars(pre) && AllBars(post)
  }

  lemma {:induction false} StartStripped(line: string)
    ensures var r := TrimStartOf(line, '|');
            r == line[|line| - |r|..] && AllBars(line[..|line| - |r|]) && (r == [] || r[0] != '|')
  {
    if line != [] && line[0] == '|' {
      StartStripped(line[1..]);
      var r := TrimStartOf(line[1..], '|');
      assert line[..|line| - |r|] == [line[0]] + line[1..][..|line[1..]| - |r|];
    }
  }

  lemma {:induction false} EndStripped(line: string)
    ensures var r := TrimEndOf(line, '|');
            r == line[..|r|] && AllBars(line[|r|..]) && (r == [] || r[|r| - 1] != '|')
  {
    if line != [] && line[|line| - 1] == '|' {
      var n := |line| - 1;
      EndStripped(line[..n]);
      var r := TrimEndOf(line[..n], '|');
      assert line[|r|..] == line[..n][|r|..] + [line[n]];
    }
  }

  lemma {:induction false} StripStart(pre: string, rest: string)
    requires AllBars(pre) && (rest == [] || rest[0] != '|')
    ensures TrimStartOf(pre + rest, '|') == rest
  {
    if pre == [] {
      assert pre + rest == rest;
    } else {
      assert (pre + rest)[1..] == pre[1..] + rest && (pre + rest)[0] == pre[0];
      StripStart(pre[1..], rest);
    }
  }

  lemma {:induction false} StripEnd(rest: string, post: string)
    requires AllBars(post) && (rest == [] || rest[|rest| - 1] != '|')
    ensures TrimEndOf(rest + post, '|') == rest
  {
    if post == [] {
      assert rest + post == rest;
    } else {
      var n := |post| - 1;
      assert (rest + post)[..|rest + post| - 1] == rest + post[..n] && (rest + post)[|rest + post| - 1] == post[n];
      StripEnd(rest, post[..n]);
    }
  }

  lemma {:induction false} StripOnlyBars(s: string)
    requires AllBars(s)
    ensures TrimStartOf(s, '|') == []
  {
    StripStart(s, []);
    assert s + [] == s;
  }

  lemma InsideExactly(line: string, inner: string)
    ensures TrimEndOf(TrimStartOf(line, '|'), '|') == inner <==> Inside(line, inner)
  {
    if TrimEndOf(TrimStartOf(line, '|'), '|') == inner { InsideTaken(line, inner); }
    if Inside(line, inner) { InsideFound(line, inner); }
  }

  lemma InsideTaken(line: string, inner: string)
    requires TrimEndOf(TrimStartOf(line, '|'), '|') == inner
    ensures Inside(line, inner)
  {
    var r := TrimStartOf(line, '|');
    StartStripped(line);
    EndStripped(r);
    hide TrimStartOf, TrimEndOf;
    var pre, post := line[..|line| - |r|], r[|inner|..];
    assert line == pre + inner + post;
    if inner != [] { assert inner[0] == r[0]; }
  }

  lemma InsideFound(line: string, inner: string)
    requires Inside(line, inner)
    ensures TrimEndOf(TrimStartOf(line, '|'), '|') == inner
  {
    var pre, post :| line == pre + inner + post && AllBars(pre) && AllBars(post);
    if inner == [] {
      assert AllBars(line);
      StripOnlyBars(line);
    } else {
      assert line == pre + (inner + post);
      StripStart(pre, inner + post);
      StripEnd(inner, post);
    }
  }

  /** The cells that are not blank. */
  ghost function Filled(cells: seq<string>): seq<string> {
    if cells == [] then [] else (if AllSpace(cells[0]) then [] else [cells[0]]) + Filled(cells[1..])
  }

  /** The line spells the beats of a bar: cells between bar characters, blank ones aside, and every division adds up. */
  ghost predicate SpellsBar(line: string, bs: seq<Beat>) {
    AllWellDivided(bs) && exists inner, cells :: Inside(line, inner) && Cuts(inner, '|', cells) && SpellAll(Filled(cells), bs)
  }

  lemma BlankExactly(s: string)
    ensures Trim(s) == [] <==> AllSpace(s)
  {
    var pre, post := TrimParts(s);
    hide IsSpace, Trim;
    if Trim(s) == [] { assert s == pre + post; }
    if AllSpace(s) { TrimSpace(s); }
  }

  lemma {:induction false} CellsExactly(cells: seq<string>, no: nat, bs: seq<Beat>)
    ensures ParseCells(cells, no) == Ok(bs) <==> ParsedAll(Filled(cells), bs, no)
  {
    hide Trim, ParseBeat, AllSpace;
    if cells == [] {
    } else {
      BlankExactly(cells[0]);
      if AllSpace(cells[0]) {
        assert [] + Filled(cells[1..]) == Filled(cells[1..]);
        CellsExactly(cells[1..], no, bs);
      } else if bs != [] {
        CellsExactly(cells[1..], no, bs[1..]);
        FilledCell(cells, no, bs);
      }
    }
  }

  lemma FilledCell(cells: seq<string>, no: nat, bs: seq<Beat>)
    requires cells != [] && bs != [] && !AllSpace(cells[0]) && Trim(cells[0]) != []
    requires ParseCells(cells[1..], no) == Ok(bs[1..]) <==> ParsedAll(Filled(cells[1..]), bs[1..], no)
    ensures ParseCells(cells, no) == Ok(bs) <==> ParsedAll(Filled(cells), bs, no)
  {
    hide Trim, ParseBeat, AllSpace;
    var rest := Filled(cells[1..]);
    var all := [cells[0]] + rest;
    assert Filled(cells) == all && all[1..] == rest;
    assert [bs[0]] + bs[1..] == bs;
    assert forall i :: 1 <= i < |all| ==> all[i] == rest[i - 1];
    assert forall i :: 1 <= i < |bs| ==> bs[i] == bs[1..][i - 1];
    hide Filled;
    if ParsedAll(all, bs, no) {
      forall i | 0 <= i < |rest| ensures ParseBeat(Trim(rest[i]), no) == Ok(bs[1..][i]) { assert all[i + 1] == rest[i]; }
    }
  }

  lemma ParsesBar(line: string, no: nat, bs: seq<Beat>)
    ensures ParseBar(line, no) == Ok(bs) <==>
            AllWellDivided(bs) && ParseCells(SplitTop(TrimEndOf(TrimStartOf(line, '|'), '|'), '|', 0), no) == Ok(bs)
  {
    hide ParseCells, SplitTop, TrimEndOf, TrimStartOf, WellDivided;
  }

  /** A bar line is parsed exactly as the beats it spells. */
  lemma BarExactly(line: string, no: nat, bs: seq<Beat>)
    ensures ParseBar(line, no) == Ok(bs) <==> SpellsBar(line, bs)
  {
    var inner := TrimEndOf(TrimStartOf(line, '|'), '|');
    var cells := SplitTop(inner, '|', 0);
    ParsesBar(line, no, bs);
    CellsExactly(cells, no, bs);
    AllExactly(Filled(cells), no, bs);
    forall t { InsideExactly(line, t); }
    forall pieces { CutsExactly(inner, '|', pieces); }
    hide ParseBar, ParseCells, SplitTop, TrimEndOf, TrimStartOf, AllWellDivided, Inside, Cuts, SpellAll, ParsedAll, Filled;
    assert Inside(line, inner) && Cuts(inner, '|', cells);
  }

  // ---------- lines ----------

  /** What stands on a line before the first comment sign, without surrounding whitespace. */
  ghost predicate CoreOf(raw: string, core: string) {
    exists before, after ::
      raw == before + after && '#' !in before && (after == [] || after[0] == '#') && core == Trim(before)
  }

  lemma CoreExactly(raw: string, core: string)
    ensures Trim(StripComment(raw)) == core <==> CoreOf(raw, core)
  {
    var before := StripComment(raw);
    assert raw == before + raw[|before|..];
    hide Trim;
    if CoreOf(raw, core) {
      var b, after :| raw == b + after && '#' !in b && (after == [] || after[0] == '#') && core == Trim(b);
      CommentCut(b, after);
    }
  }

  lemma CommentCut(b: string, after: string)
    requires '#' !in b && (after == [] || after[0] == '#')
    ensures StripComment(b + after) == b
  {
    var raw := b + after;
    if after == [] {
      assert raw == b && IndexOf(raw, '#') == |raw|;
    } else {
      IndexOfPrefix(b, '#', after[1..]);
      assert raw == b + ['#'] + after[1..];
    }
  }

  ghost predicate NoSpace(s: string) {
    forall i :: 0 <= i < |s| ==> !IsSpace(s[i])
  }

  /** The first whitespace character separates the key from the rest. */
  ghost predicate Keyed(core: string, key: string, rest: string) {
    NoSpace(key) && exists gap :: IsSpace(gap) && core == key + [gap] + rest
  }

  lemma {:induction false} KeyedExactly(s: string, key: string, rest: string)
    ensures SplitAtSpace(s) == Some((key, rest)) <==> Keyed(s, key, rest)
    ensures SplitAtSpace(s).None? <==> NoSpace(s)
  {
    hide IsSpace;
    if s == [] {
    } else if IsSpace(s[0]) {
      if SplitAtSpace(s) == Some((key, rest)) { assert s == key + [s[0]] + rest; }
      if Keyed(s, key, rest) {
        var gap :| IsSpace(gap) && s == key + [gap] + rest;
        assert key == [];
      }
    } else {
      KeyedExactly(s[1..], if key == [] then [] else key[1..], rest);
      KeyedLater(s, key, rest);
      if SplitAtSpace(s[1..]).Some? {
        var (a, _) := SplitAtSpace(s[1..]).value;
        assert ([s[0]] + a)[1..] == a;
        if key != [] { assert key == [key[0]] + key[1..]; }
      }
      assert NoSpace(s) <==> NoSpace(s[1..]) by { assert s == [s[0]] + s[1..]; }
    }
  }

  lemma KeyedLater(s: string, key: string, rest: string)
    requires s != [] && !IsSpace(s[0])
    ensures Keyed(s, key, rest) <==> key != [] && key[0] == s[0] && Keyed(s[1..], key[1..], rest)
  {
    hide IsSpace;
    if Keyed(s, key, rest) {
      var gap :| IsSpace(gap) && s == key + [gap] + rest;
      assert s[1..] == key[1..] + [gap] + rest;
    }
    if key != [] && key[0] == s[0] && Keyed(s[1..], key[1..], rest) {
      var gap :| IsSpace(gap) && s[1..] == key[1..] + [gap] + rest;
      assert s == [s[0]] + s[1..] && key == [key[0]] + key[1..];
      assert s == key + [gap] + rest;
    }
  }

  /** The core of the line is empty, spells a bar, or gives the length of a bar. */
  ghost predicate ReadsCore(core: string, item: LineItem) {
    match item
    case Blank => core == []
    case BarLine(bs) => core != [] && core[0] == '|' && SpellsBar(core, bs)
    case BarDuration(secs) => exists rest :: Keyed(core, "bar_duration", rest) && Writes(Trim(rest), secs)
  }

  ghost predicate Reads(raw: string, item: LineItem) {
    exists core :: CoreOf(raw, core) && ReadsCore(core, item)
  }

  /** What the parser makes of the core of a line. */
  lemma ParsesCore(raw: string, no: nat, item: LineItem)
    ensures var core := Trim(StripComment(raw));
            ParseLine(raw, no) == Ok(item) <==>
            match item
            case Blank => core == []
            case BarLine(bs) => core != [] && core[0] == '|' && ParseBar(core, no) == Ok(bs)
            case BarDuration(secs) =>
              core != [] && core[0] != '|' && SplitAtSpace(core).Some? && SplitAtSpace(core).value.0 == "bar_duration" &&
              DurationFrom(Trim(SplitAtSpace(core).value.1), 0, []) == Some(secs)
  {
    hide Trim, StripComment, ParseBar, SplitAtSpace, DurationFrom;
  }

  lemma ReadsIs(raw: string, item: LineItem)
    ensures Reads(raw, item) <==> ReadsCore(Trim(StripComment(raw)), item)
  {
    forall c { CoreExactly(raw, c); }
    hide Trim, StripComment, CoreOf, ReadsCore;
    assert CoreOf(raw, Trim(StripComment(raw)));
  }

  /** A line contributes exactly what it reads as. */
  lemma LineExactly(raw: string, no: nat, item: LineItem)
    ensures ParseLine(raw, no) == Ok(item) <==> Reads(raw, item)
  {
    var core := Trim(StripComment(raw));
    ParsesCore(raw, no, item);
    ReadsIs(raw, item);
    hide Trim, StripComment, ParseBar, SplitAtSpace, DurationFrom, Reads, SpellsBar, Writes, ParseLine;
    match item
    case Blank =>
    case BarLine(bs) => BarExactly(core, no, bs);
    case BarDuration(secs) =>
      forall rest { KeyedExactly(core, "bar_duration", rest); }
      forall t { DurationExactly(t, secs); }
      assert forall rest :: Keyed(core, "bar_duration", rest) ==> core != [] && core[0] == 'b';
      hide Keyed;
      if ParseLine(raw, no) == Ok(item) {
        assert Keyed(core, "bar_duration", SplitAtSpace(core).value.1);
      }
  }

  // ---------- lines that are refused ----------

  /** The line spells beats, some of which are ill divided; `e` is the first mismatch. */
  ghost predicate IllDividedBar(line: string, bs: seq<Beat>, e: PatternError) {
    ValidateBeats(bs) == Err(e) &&
    exists inner, cells :: Inside(line, inner) && Cuts(inner, '|', cells) && SpellAll(Filled(cells), bs)
  }

  /** Why line `no` with this core is refused. */
  ghost predicate Refused(core: string, no: nat, e: ParseError) {
    core != [] &&
    if core[0] == '|' then
      if e.Validation? then exists bs :: IllDividedBar(core, bs, e.error) else e == Syntax(no)
    else if NoSpace(core) then e == Syntax(no)
    else
      exists key, rest :: Keyed(core, key, rest) && e == if key == "bar_duration" then Syntax(no) else UnknownDirective(no, key)
  }

  lemma {:induction false} CellErrors(cells: seq<string>, no: nat)
    ensures ParseCells(cells, no).Err? ==> ParseCells(cells, no) == Err(Syntax(no))
  {
    hide Trim, ParseBeat;
    if cells == [] {
    } else {
      CellErrors(cells[1..], no);
      BeatErrors(Trim(cells[0]), no);
    }
  }

  /** The beats of the cells in the bar line. */
  function CellsOf(line: string, no: nat): Result<seq<Beat>, ParseError> {
    ParseCells(SplitTop(TrimEndOf(TrimStartOf(line, '|'), '|'), '|', 0), no)
  }

  lemma BarFails(line: string, no: nat, e: ParseError)
    requires ParseBar(line, no) == Err(e)
    ensures CellsOf(line, no) == Err(e) ||
            (CellsOf(line, no).Ok? && e.Validation? && ValidateBeats(CellsOf(line, no).value) == Err(e.error))
  {
    hide ParseCells, SplitTop, TrimEndOf, TrimStartOf, ValidateBeats, WellDivided, AllWellDivided;
  }

  lemma CellsSpell(line: string, no: nat, bs: seq<Beat>)
    requires CellsOf(line, no) == Ok(bs)
    ensures exists inner, cells :: Inside(line, inner) && Cuts(inner, '|', cells) && SpellAll(Filled(cells), bs)
  {
    var inner := TrimEndOf(TrimStartOf(line, '|'), '|');
    var cells := SplitTop(inner, '|', 0);
    assert ParseCells(cells, no) == Ok(bs);
    hide *;
    InsideExactly(line, inner);
    CutsExactly(inner, '|', cells);
    CellsExactly(cells, no, bs);
    AllExactly(Filled(cells), no, bs);
  }

  lemma BarErrors(line: string, no: nat, e: ParseError)
    requires ParseBar(line, no) == Err(e)
    ensures if e.Validation? then exists bs :: IllDividedBar(line, bs, e.error) else e == Syntax(no)
  {
    BarFails(line, no, e);
    CellErrors(SplitTop(TrimEndOf(TrimStartOf(line, '|'), '|'), '|', 0), no);
    if CellsOf(line, no).Ok? { CellsSpell(line, no, CellsOf(line, no).value); }
    hide ParseBar, ParseCells, SplitTop, TrimEndOf, TrimStartOf, ValidateBeats, Inside, Cuts, SpellAll, Filled;
    if CellsOf(line, no).Ok? { assert IllDividedBar(line, CellsOf(line, no).value, e.error); }
  }

  lemma LineErrors(raw: string, no: nat, e: ParseError)
    requires ParseLine(raw, no) == Err(e)
    ensures exists core :: CoreOf(raw, core) && Refused(core, no, e)
  {
    var core := Trim(StripComment(raw));
    CoreExactly(raw, core);
    KeyedExactly(core, [], []);
    if SplitAtSpace(core).Some? { KeyedExactly(core, SplitAtSpace(core).value.0, SplitAtSpace(core).value.1); }
    if core != [] && core[0] == '|' && ParseBar(core, no).Err? { BarErrors(core, no, ParseBar(core, no).error); }
    hide Trim, StripComment, ParseBar, SplitAtSpace, DurationFrom, CoreOf, IllDividedBar, Keyed, NoSpace;
    assert Refused(core, no, e);
  }

  // ---------- texts ----------

  ghost predicate ReadsAll(lines: seq<string>, items: seq<LineItem>) {
    |lines| == |items| && forall k :: 0 <= k < |lines| ==> Reads(lines[k], items[k])
  }

  /** The bar length that the last such line gives. */
  ghost function LastLength(items: seq<LineItem>, secs: nat): nat {
    if items == [] then secs
    else
      var last := items[|items| - 1];
      if last.BarDuration? then last.secs else LastLength(items[..|items| - 1], secs)
  }

  /** The bars of all bar lines, in order. */
  ghost function BarsIn(items: seq<LineItem>): seq<seq<Beat>> {
    if items == [] then []
    else BarsIn(items[..|items| - 1]) + if items[|items| - 1].BarLine? then [items[|items| - 1].beats] else []
  }

  ghost function AfterItem(secs: nat, bars: seq<seq<Beat>>, item: LineItem): (nat, seq<seq<Beat>>) {
    match item
    case Blank => (secs, bars)
    case BarLine(bs) => (secs, bars + [bs])
    case BarDuration(s) => (s, bars)
  }

  lemma {:induction false} ItemsFirst(item: LineItem, rest: seq<LineItem>, secs: nat)
    ensures LastLength([item] + rest, secs) == LastLength(rest, AfterItem(secs, [], item).0)
    ensures BarsIn([item] + rest) == AfterItem(secs, [], item).1 + BarsIn(rest)
  {
    var all := [item] + rest;
    if rest == [] {
      assert all == [item] && all[..0] == [];
    } else {
      var m := |rest| - 1;
      assert all[..|all| - 1] == [item] + rest[..m] && all[|all| - 1] == rest[m];
      ItemsFirst(item, rest[..m], secs);
      hide AfterItem;
    }
  }

  lemma {:induction false} LinesRead(lines: seq<string>, items: seq<LineItem>, no: nat, secs: nat, bars: seq<seq<Beat>>)
    requires ReadsAll(lines, items)
    ensures ParseLines(lines, no, secs, bars) == Ok((LastLength(items, secs), bars + BarsIn(items)))
    decreases |lines|
  {
    hide Reads, ParseLine;
    if lines == [] {
      assert bars + [] == bars;
    } else {
      var (s, bs) := AfterItem(secs, bars, items[0]);
      LineExactly(lines[0], no, items[0]);
      assert Reads(lines[0], items[0]);
      assert ReadsAll(lines[1..], items[1..]);
      LinesRead(lines[1..], items[1..], no + 1, s, bs);
      assert items == [items[0]] + items[1..];
      ItemsFirst(items[0], items[1..], secs);
      hide LastLength, BarsIn;
      assert bars + (AfterItem(secs, [], items[0]).1 + BarsIn(items[1..])) == bs + BarsIn(items[1..]);
    }
  }

  /** Either every line reads as something, or the first that does not is refused with its number. */
  lemma {:induction false} LinesEither(lines: seq<string>, no: nat, secs: nat, bars: seq<seq<Beat>>)
    returns (items: seq<LineItem>)
    ensures ParseLines(lines, no, secs, bars).Ok? ==> ReadsAll(lines, items)
    ensures ParseLines(lines, no, secs, bars).Err? ==>
      |items| < |lines| && ReadsAll(lines[..|items|], items) &&
      RefusedAt(lines, |items|, no, ParseLines(lines, no, secs, bars).error)
    decreases |lines|
  {
    hide Reads, ParseLine, Refused, CoreOf;
    if lines == [] {
      items := [];
    } else if ParseLine(lines[0], no).Err? {
      items := [];
      LineErrors(lines[0], no, ParseLine(lines[0], no).error);
    } else {
      var item := ParseLine(lines[0], no).value;
      LineExactly(lines[0], no, item);
      var (s, bs) := AfterItem(secs, bars, item);
      var rest := LinesEither(lines[1..], no + 1, s, bs);
      items := [item] + rest;
      if |rest| <= |lines[1..]| { assert lines[..|items|] == [lines[0]] + lines[1..][..|rest|]; }
      if |rest| == |lines[1..]| { assert lines == [lines[0]] + lines[1..]; }
    }
  }

  ghost predicate RefusedAt(lines: seq<string>, k: nat, no: nat, e: ParseError)
    requires k < |lines|
  {
    exists core :: CoreOf(lines[k], core) && Refused(core, no + k, e)
  }

  // ---------- assembling ----------

  /** The bars are `n` quarters long, every division adds up, and `n` is four if there are none. */
  ghost predicate Measured(bars: seq<seq<Beat>>, n: nat) {
    n > 0 && (bars == [] ==> n == 4) && forall i :: 0 <= i < |bars| ==> Sum64ths(bars[i]) == 16 * n && AllWellDivided(bars[i])
  }

  /** The pattern in `n` quarters to the bar, each bar so many seconds long. */
  ghost predicate Renders(p: Pattern, secs: nat, bars: seq<seq<Beat>>, n: nat)
    requires n > 0
  {
    p.timeSignature == TimeSignature(n, Quarter) && p.tempo.quarterSeconds == secs / n && |p.bars| == |bars| &&
    forall i :: 0 <= i < |bars| ==> p.bars[i] == Bar(p.timeSignature, bars[i])
  }

  ghost predicate Assembles(p: Pattern, secs: nat, bars: seq<seq<Beat>>, n: nat) {
    Measured(bars, n) && Renders(p, secs, bars, n)
  }

  /** Bars are assembled exactly if they all have the same whole number of quarters, into that pattern. */
  lemma AssembledExactly(secs: nat, bars: seq<seq<Beat>>, p: Pattern)
    ensures Assemble(secs, bars) == Ok(p) <==> exists n: nat :: Assembles(p, secs, bars, n)
  {
    if Assemble(secs, bars) == Ok(p) {
      var n := p.timeSignature.beatsPerBar;
      AssembledAs(secs, bars, p);
      assert Assembles(p, secs, bars, n);
    }
    if n: nat :| Assembles(p, secs, bars, n) {
      AssembledWhen(secs, bars, p, n);
    }
  }

  lemma AssembledWhen(secs: nat, bars: seq<seq<Beat>>, p: Pattern, n: nat)
    requires Measured(bars, n) && Renders(p, secs, bars, n)
    ensures Assemble(secs, bars) == Ok(p)
  {
    ScaledQuotient(secs, n);
    assert forall i :: 0 <= i < |p.bars| ==> ValidBar(p.bars[i]);
    assert p.bars == WithSignature(p.timeSignature, bars);
    assert p.tempo == FromBarSecs(secs, n * 16);
    hide Sum64ths, AllWellDivided, FromBarSecs;
    AssembleEven(secs, bars, n);
  }

  lemma AssembledAs(secs: nat, bars: seq<seq<Beat>>, p: Pattern)
    requires Assemble(secs, bars) == Ok(p)
    ensures Measured(bars, p.timeSignature.beatsPerBar) && Renders(p, secs, bars, p.timeSignature.beatsPerBar)
  {
    var first := if bars == [] then 64 else Sum64ths(bars[0]);
    var n := p.timeSignature.beatsPerBar;
    assert n == first / 16 && p.bars == WithSignature(p.timeSignature, bars) && first > 0;
    assert ValidPattern(p);
    forall i | 0 <= i < |bars| ensures Sum64ths(bars[i]) == n * 16 && AllWellDivided(bars[i]) { assert ValidBar(p.bars[i]); }
    assert first == n * 16;
    ScaledQuotient(secs, n);
    hide Sum64ths, AllWellDivided;
  }

  lemma TextIs(src: string, items: seq<LineItem>)
    requires ReadsAll(Lines(src), items)
    ensures ParseText(src) == Assemble(LastLength(items, 14400), BarsIn(items))
  {
    LinesRead(Lines(src), items, 1, 14400, []);
    assert [] + BarsIn(items) == BarsIn(items);
    hide Lines, ParseLines, Assemble, ReadsAll, LastLength, BarsIn;
  }

  lemma TextFails(src: string)
    requires ParseText(src).Err?
    ensures var lines := ParseLines(Lines(src), 1, 14400, []); lines.Err? ==> ParseText(src) == Err(lines.error)
  {
    hide Lines, ParseLines, Assemble;
  }

  lemma LinesFine(src: string)
    requires ParseText(src).Ok?
    ensures ParseLines(Lines(src), 1, 14400, []).Ok?
  {
    hide Lines, ParseLines, Assemble;
  }

  /** The lines read as items whose bars are `n` quarters long, and the pattern renders them. */
  ghost predicate TextReads(src: string, p: Pattern, items: seq<LineItem>, n: nat) {
    ReadsAll(Lines(src), items) && Assembles(p, LastLength(items, 14400), BarsIn(items), n)
  }

  lemma ReadsWhen(src: string, p: Pattern, items: seq<LineItem>)
    requires ReadsAll(Lines(src), items)
    ensures ParseText(src) == Ok(p) <==> exists n: nat :: TextReads(src, p, items, n)
  {
    var secs, bars := LastLength(items, 14400), BarsIn(items);
    forall n: nat ensures TextReads(src, p, items, n) <==> Assembles(p, secs, bars, n) {
      hide Lines, ReadsAll, Assembles, LastLength, BarsIn;
    }
    hide *;
    TextIs(src, items);
    AssembledExactly(secs, bars, p);
  }

  /**
   * A text is parsed as a pattern exactly if every line reads as something and its bars have one length in whole quarters:
   * the bars in order, each as long as the last such line says, or four hours.
   */
  lemma ParsesExactly(src: string, p: Pattern)
    ensures ParseText(src) == Ok(p) <==> exists items, n: nat :: TextReads(src, p, items, n)
  {
    hide *;
    if ParseText(src) == Ok(p) {
      LinesFine(src);
      var items := LinesEither(Lines(src), 1, 14400, []);
      ReadsWhen(src, p, items);
    }
    if items, n: nat :| TextReads(src, p, items, n) {
      assert ReadsAll(Lines(src), items) by { TextReadsAll(src, p, items, n); }
      ReadsWhen(src, p, items);
    }
  }

  lemma TextReadsAll(src: string, p: Pattern, items: seq<LineItem>, n: nat)
    requires TextReads(src, p, items, n)
    ensures ReadsAll(Lines(src), items)
  {
    hide Lines, ReadsAll, Assembles, LastLength, BarsIn;
  }

  /** Why bars do not fit together: the first of another length, none in the first bar, or no whole number of quarters. */
  ghost predicate Unfit(bars: seq<seq<Beat>>, e: ParseError) {
    bars != [] &&
    var first := Sum64ths(bars[0]);
    if SomeOdd(bars, |bars|) then
      exists k :: 0 <= k < |bars| && !SomeOdd(bars, k) && Sum64ths(bars[k]) != first &&
        e == Validation(BarLengthMismatch(k, first, Sum64ths(bars[k])))
    else if first == 0 then e == DivisionByZero
    else e == Validation(BarLengthMismatch(0, first - first % 16, first))
  }

  /** Some of the first `k` bars differs in length from the first one. */
  ghost predicate SomeOdd(bars: seq<seq<Beat>>, k: nat)
    requires k <= |bars|
  {
    exists j :: 0 <= j < k && Sum64ths(bars[j]) != Sum64ths(bars[0])
  }

  lemma UnfitBars(secs: nat, bars: seq<seq<Beat>>, e: ParseError)
    requires Assemble(secs, bars) == Err(e) && forall i :: 0 <= i < |bars| ==> AllWellDivided(bars[i])
    ensures Unfit(bars, e)
  {
    hide Sum64ths, AllWellDivided, FromBarSecs, ValidPattern;
    var first := if bars == [] then 64 else Sum64ths(bars[0]);
    var odd := FirstOddBar(bars, first);
    if odd < |bars| {
      assert SomeOdd(bars, |bars|);
    } else {
      assert !SomeOdd(bars, |bars|);
      if first > 0 { UnevenBars(secs, bars, first); }
    }
  }

  lemma UnevenBars(secs: nat, bars: seq<seq<Beat>>, first: nat)
    requires first > 0 && forall i :: 0 <= i < |bars| ==> AllWellDivided(bars[i]) && Sum64ths(bars[i]) == first
    ensures var signature := TimeSignature(first / 16, Quarter);
            var p := Pattern(signature, FromBarSecs(secs, first), WithSignature(signature, bars));
            if bars != [] && first % 16 != 0 then Validate(p) == Err(BarLengthMismatch(0, first - first % 16, first))
            else Validate(p).Ok?
  {
    var signature := TimeSignature(first / 16, Quarter);
    var p := Pattern(signature, FromBarSecs(secs, first), WithSignature(signature, bars));
    assert signature.BarIn64ths() == first - first % 16;
    hide Sum64ths, AllWellDivided, FromBarSecs;
    if bars != [] && first % 16 != 0 {
      assert p.bars[0] == Bar(signature, bars[0]);
      assert Sum64ths(p.bars[0].beats) == first;
    } else {
      forall i | 0 <= i < |p.bars| ensures ValidBar(p.bars[i]) { assert p.bars[i] == Bar(signature, bars[i]); }
    }
  }

  /** A refused text: its first line that reads as nothing, with its number, or bars that do not fit together. */
  lemma RefusesExactly(src: string, e: ParseError) returns (items: seq<LineItem>)
    requires ParseText(src) == Err(e)
    ensures |items| <= |Lines(src)| && ReadsAll(Lines(src)[..|items|], items)
    ensures if |items| < |Lines(src)| then RefusedAt(Lines(src), |items|, 1, e) else Unfit(BarsIn(items), e)
  {
    var lines := Lines(src);
    items := LinesEither(lines, 1, 14400, []);
    hide *;
    if ParseLines(lines, 1, 14400, []).Err? {
      TextFails(src);
    } else {
      AllRead(lines, items);
      TextIs(src, items);
      DividedBars(lines, items);
      UnfitBars(LastLength(items, 14400), BarsIn(items), e);
    }
  }

  lemma AllRead(lines: seq<string>, items: seq<LineItem>)
    requires ReadsAll(lines, items)
    ensures |items| == |lines| && lines[..|items|] == lines
  {
    hide Reads;
  }

  lemma {:induction false} DividedBars(lines: seq<string>, items: seq<LineItem>)
    requires ReadsAll(lines, items)
    ensures forall i :: 0 <= i < |BarsIn(items)| ==> AllWellDivided(BarsIn(items)[i])
  {
    hide Reads, AllWellDivided;
    if items == [] {
    } else {
      var n := |items| - 1;
      DividedBars(lines[..n], items[..n]);
      if items[n].BarLine? { ReadDivided(lines[n], items[n].beats); }
    }
  }

  lemma ReadDivided(raw: string, bs: seq<Beat>)
    requires Reads(raw, BarLine(bs))
    ensures AllWellDivided(bs)
  {
    hide CoreOf, Inside, Cuts, SpellAll, Filled, WellDivided;
  }
}
