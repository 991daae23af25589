/** Editing and reading the user's crontab (`cadence.rs`): merge, removal and parsing of marked blocks. */
module Crontab {
  import opened Text

  const MARKER_PREFIX := "# conductr-cron:"

  function OurPrefix(tag: string): string {
    MARKER_PREFIX + " " + tag + "-"
  }

  /** How a block's first line is recognised: by its beginning, or as a whole. */
  datatype Hit = Beginning(prefix: string) | Whole(line: string) {
    predicate Matches(s: string) {
      match this
      case Beginning(p) => p <= s
      case Whole(l) => s == l
    }
  }

  /** The lines outside the recognised blocks; a block is a recognised line and the next one. */
  function Kept(lines: seq<string>, hit: Hit): seq<string>
    decreases |lines|
  {
    if lines == [] then []
    else if hit.Matches(lines[0]) then Kept(if |lines| >= 2 then lines[2..] else [], hit)
    else [lines[0]] + Kept(lines[1..], hit)
  }

  /** The same when the next line still belongs to a block. */
  function KeptFrom(lines: seq<string>, hit: Hit, skipNext: bool): seq<string> {
    if skipNext && lines != [] then Kept(lines[1..], hit) else Kept(lines, hit)
  }

  lemma KeptStep(out: seq<string>, lines: seq<string>, hit: Hit, i: nat, skipNext: bool)
    requires i < |lines|
    ensures out + KeptFrom(lines[i..], hit, skipNext) ==
            if skipNext then out + KeptFrom(lines[i + 1..], hit, false)
            else if hit.Matches(lines[i]) then out + KeptFrom(lines[i + 1..], hit, true)
            else out + [lines[i]] + KeptFrom(lines[i + 1..], hit, false)
  {
    hide Hit.Matches;
    var s := lines[i..];
    assert s[0] == lines[i] && s[1..] == lines[i + 1..];
    if i + 1 < |lines| { assert s[2..] == lines[i + 1..][1..]; }
    var rest := Kept(lines[i + 1..], hit);
    assert out + ([lines[i]] + rest) == out + [lines[i]] + rest;
  }

  method DropBlocks(lines: seq<string>, hit: Hit) returns (out: seq<string>)
    ensures out == Kept(lines, hit)
  {
    out := [];
    var skipNext := false;
    assert lines[0..] == lines && [] + Kept(lines, hit) == Kept(lines, hit);
    for i := 0 to |lines|
      invariant Kept(lines, hit) == out + KeptFrom(lines[i..], hit, skipNext)
    {
      KeptStep(out, lines, hit, i, skipNext);
      if skipNext {
        skipNext := false;
      } else if hit.Matches(lines[i]) {
        skipNext := true;
      } else {
        out := out + [lines[i]];
      }
    }
    assert lines[|lines|..] == [];
    assert out + [] == out;
  }

  /** A marker line and its command line. */
  type Block = (string, string)

  function Flat(blocks: seq<Block>): seq<string> {
    if blocks == [] then [] else [blocks[0].0, blocks[0].1] + Flat(blocks[1..])
  }

  function Unlines(lines: seq<string>): string {
    Join(lines, "\n") + "\n"
  }

  function MergedLines(current: string, blocks: seq<Block>, tag: string): seq<string> {
    Kept(Lines(current), Beginning(OurPrefix(tag))) + Flat(blocks)
  }

  function Merged(current: string, blocks: seq<Block>, tag: string): string {
    Unlines(MergedLines(current, blocks, tag))
  }

  lemma {:induction false} FlatSnoc(blocks: seq<Block>, b: Block)
    ensures Flat(blocks + [b]) == Flat(blocks) + [b.0, b.1]
  {
    if blocks == [] {
      assert blocks + [b] == [b] && [b][1..] == [];
      assert Flat([b]) == [b.0, b.1] + [];
    } else {
      assert (blocks + [b])[1..] == blocks[1..] + [b];
      FlatSnoc(blocks[1..], b);
    }
  }

  /** Replaces the blocks of our project in the crontab text. */
  method Merge(current: string, blocks: seq<Block>, tag: string) returns (text: string)
    ensures text == Merged(current, blocks, tag)
  {
    var out := DropBlocks(Lines(current), Beginning(OurPrefix(tag)));
    ghost var kept := out;
    for i := 0 to |blocks|
      invariant out == kept + Flat(blocks[..i])
    {
      assert blocks[..i + 1] == blocks[..i] + [blocks[i]];
      FlatSnoc(blocks[..i], blocks[i]);
      out := out + [blocks[i].0, blocks[i].1];
    }
    assert blocks[..|blocks|] == blocks;
    text := Join(out, "\n") + "\n";
  }

  function Removed(current: string, marker: string): string {
    Unlines(Kept(Lines(current), Whole(marker)))
  }

  /** Removes one block, recognised by its whole marker line. */
  method RemoveCrontabEntry(current: string, marker: string) returns (text: string)
    ensures text == Removed(current, marker)
  {
    var out := DropBlocks(Lines(current), Whole(marker));
    text := Join(out, "\n") + "\n";
  }

  // ---------- what is kept ----------

  /** A crontab as a list of foreign lines and blocks. */
  datatype Chunk = Foreign(line: string) | Entry(block: Block)

  ghost predicate ChunksFor(chunks: seq<Chunk>, hit: Hit) {
    forall i :: 0 <= i < |chunks| ==>
      match chunks[i] case Foreign(l) => !hit.Matches(l) case Entry(b) => hit.Matches(b.0)
  }

  function LinesOf(chunks: seq<Chunk>): seq<string> {
    if chunks == [] then []
    else (match chunks[0] case Foreign(l) => [l] case Entry(b) => [b.0, b.1]) + LinesOf(chunks[1..])
  }

  function ForeignLines(chunks: seq<Chunk>): seq<string> {
    if chunks == [] then []
    else (match chunks[0] case Foreign(l) => [l] case Entry(_) => []) + ForeignLines(chunks[1..])
  }

  /** Foreign lines and blocks, and perhaps a recognised last line, which is a block of its own. */
  ghost predicate Splits(lines: seq<string>, chunks: seq<Chunk>, tail: seq<string>, hit: Hit) {
    lines == LinesOf(chunks) + tail && ChunksFor(chunks, hit) && (tail == [] || (|tail| == 1 && hit.Matches(tail[0])))
  }

  /** Every list of lines is split in this way. */
  function ChunksOf(lines: seq<string>, hit: Hit): (r: (seq<Chunk>, seq<string>))
    ensures Splits(lines, r.0, r.1, hit)
    decreases |lines|
  {
    if lines == [] then ([], [])
    else if !hit.Matches(lines[0]) then
      var rest := ChunksOf(lines[1..], hit);
      FrontSplits(lines, Foreign(lines[0]), 1, rest.0, rest.1, hit);
      ([Foreign(lines[0])] + rest.0, rest.1)
    else if |lines| == 1 then ([], lines)
    else
      var rest := ChunksOf(lines[2..], hit);
      FrontSplits(lines, Entry((lines[0], lines[1])), 2, rest.0, rest.1, hit);
      ([Entry((lines[0], lines[1]))] + rest.0, rest.1)
  }

  lemma FrontSplits(lines: seq<string>, c: Chunk, n: nat, chunks: seq<Chunk>, tail: seq<string>, hit: Hit)
    requires n <= |lines| && Splits(lines[n..], chunks, tail, hit)
    requires match c
             case Foreign(l) => n == 1 && lines[0] == l && !hit.Matches(l)
             case Entry(b) => n == 2 && lines[0] == b.0 && lines[1] == b.1 && hit.Matches(b.0)
    ensures Splits(lines, [c] + chunks, tail, hit)
  {
    var all := [c] + chunks;
    assert all[1..] == chunks;
    assert lines == lines[..n] + lines[n..];
    assert LinesOf(all) == lines[..n] + LinesOf(chunks);
    forall i | 0 <= i < |all|
      ensures match all[i] case Foreign(l) => !hit.Matches(l) case Entry(b) => hit.Matches(b.0)
    {
      if i > 0 { assert all[i] == chunks[i - 1]; }
    }
    hide LinesOf;
    assert lines[..n] + LinesOf(chunks) + tail == lines[..n] + (LinesOf(chunks) + tail);
  }

  /** However the lines are split, exactly the foreign ones remain, in order, whatever the blocks hold. */
  lemma {:induction false} KeepsForeignLines(lines: seq<string>, chunks: seq<Chunk>, tail: seq<string>, hit: Hit)
    requires Splits(lines, chunks, tail, hit)
    ensures Kept(lines, hit) == ForeignLines(chunks)
    decreases |chunks|
  {
    if chunks == [] {
      assert lines == tail;
    } else {
      var rest := LinesOf(chunks[1..]) + tail;
      KeepsForeignLines(rest, chunks[1..], tail, hit);
      hide Kept, Hit.Matches;
      match chunks[0]
      case Foreign(l) =>
        assert lines == [l] + rest;
        KeptForeign(l, rest, hit);
      case Entry(b) =>
        assert lines == [b.0, b.1] + rest;
        KeptBlock([b.0, b.1], rest, hit);
    }
  }

  lemma {:induction false} KeptIsForeign(lines: seq<string>, hit: Hit)
    ensures forall i :: 0 <= i < |Kept(lines, hit)| ==> !hit.Matches(Kept(lines, hit)[i]) && Kept(lines, hit)[i] in lines
    decreases |lines|
  {
    if lines == [] {
    } else {
      KeptIsForeign(if |lines| >= 2 then lines[2..] else [], hit);
      KeptIsForeign(lines[1..], hit);
    }
  }

  // ---------- text and lines ----------

  predicate NoNewline(lines: seq<string>) {
    forall i :: 0 <= i < |lines| ==> '\n' !in lines[i]
  }

  predicate EndsCr(s: string) {
    s != [] && s[|s| - 1] == '\r'
  }

  predicate NoCr(lines: seq<string>) {
    forall i :: 0 <= i < |lines| ==> !EndsCr(lines[i])
  }

  lemma {:induction false} LinesUnlines(lines: seq<string>)
    requires NoNewline(lines)
    ensures Lines(Unlines(lines)) == if lines == [] then [""] else StripCrs(lines)
  {
    if lines == [] {
      LinesFirst("", "");
      LinesEmpty();
      assert "" + "\n" + "" == "\n" && Unlines([]) == "\n";
    } else if |lines| == 1 {
      LinesFirst(lines[0], "");
      LinesEmpty();
      assert lines[0] + "\n" + "" == Unlines(lines);
      assert lines[1..] == [] && StripCrs(lines) == [StripCr(lines[0])] + [];
    } else {
      LinesUnlines(lines[1..]);
      LinesFirst(lines[0], Unlines(lines[1..]));
      assert Unlines(lines) == lines[0] + "\n" + Unlines(lines[1..]);
    }
  }

  function TextLength(lines: seq<string>): nat {
    if lines == [] then 0 else |lines[0]| + 1 + TextLength(lines[1..])
  }

  lemma {:induction false} UnlinesLength(lines: seq<string>)
    requires lines != []
    ensures |Unlines(lines)| == TextLength(lines)
  {
    if |lines| <= 1 {
    } else {
      UnlinesLength(lines[1..]);
    }
  }

  lemma {:induction false} StripShortens(lines: seq<string>)
    ensures TextLength(StripCrs(lines)) <= TextLength(lines)
    ensures TextLength(StripCrs(lines)) == TextLength(lines) <==> NoCr(lines)
    ensures NoCr(lines) ==> StripCrs(lines) == lines
  {
    if lines == [] {
    } else {
      StripShortens(lines[1..]);
      assert NoCr(lines) <==> !EndsCr(lines[0]) && NoCr(lines[1..]) by {
        if NoCr(lines) {
          forall i | 0 <= i < |lines[1..]| ensures !EndsCr(lines[1..][i]) { assert lines[1..][i] == lines[i + 1]; }
        }
        if !EndsCr(lines[0]) && NoCr(lines[1..]) {
          forall i | 0 <= i < |lines| ensures !EndsCr(lines[i]) { if i > 0 { assert lines[i] == lines[1..][i - 1]; } }
        }
      }
    }
  }

  lemma {:induction false} TextLengthAppend(a: seq<string>, b: seq<string>)
    ensures TextLength(a + b) == TextLength(a) + TextLength(b)
  {
    if a == [] {
      assert a + b == b;
    } else {
      assert (a + b)[1..] == a[1..] + b;
      TextLengthAppend(a[1..], b);
    }
  }

  lemma StripCrsAppend(a: seq<string>, b: seq<string>)
    ensures StripCrs(a + b) == StripCrs(a) + StripCrs(b)
  {
    assert forall i :: 0 <= i < |a + b| ==> StripCrs(a + b)[i] == (StripCrs(a) + StripCrs(b))[i];
  }

  // ---------- merging twice ----------

  /** Blocks as `generate_lines` makes them: our marker, and two lines. */
  ghost predicate OwnBlocks(blocks: seq<Block>, tag: string) {
    forall i :: 0 <= i < |blocks| ==>
      OurPrefix(tag) <= blocks[i].0 && '\n' !in blocks[i].0 && '\n' !in blocks[i].1
  }

  lemma PrefixSurvivesStrip(p: string, s: string)
    requires p != [] && p[|p| - 1] != '\r'
    ensures p <= StripCr(s) <==> p <= s
  {
    if p <= s { assert s[|p| - 1] == p[|p| - 1]; }
  }

  lemma OurPrefixEnds(tag: string)
    ensures OurPrefix(tag) != [] && OurPrefix(tag)[|OurPrefix(tag)| - 1] == '-'
    ensures MARKER_PREFIX <= OurPrefix(tag)
  {
  }

  lemma {:induction false} FlatNoNewline(blocks: seq<Block>, tag: string)
    requires OwnBlocks(blocks, tag)
    ensures NoNewline(Flat(blocks))
  {
    if blocks == [] {
    } else {
      assert OurPrefix(tag) <= blocks[0].0;
      FlatNoNewline(blocks[1..], tag);
    }
  }

  lemma {:induction false} OwnBlocksGo(blocks: seq<Block>, tag: string)
    requires OwnBlocks(blocks, tag)
    ensures Kept(StripCrs(Flat(blocks)), Beginning(OurPrefix(tag))) == []
  {
    if blocks == [] {
    } else {
      OwnBlocksGo(blocks[1..], tag);
      OurPrefixEnds(tag);
      PrefixSurvivesStrip(OurPrefix(tag), blocks[0].0);
      hide OurPrefix, OwnBlocks, StripCr;
      FlatCons(blocks);
      KeptBlock(StripCrs([blocks[0].0, blocks[0].1]), StripCrs(Flat(blocks[1..])), Beginning(OurPrefix(tag)));
    }
  }

  /** Foreign lines stay and our blocks go, also after a round through text. */
  lemma {:induction false} KeptAgain(foreign: seq<string>, blocks: seq<Block>, tag: string)
    requires forall i :: 0 <= i < |foreign| ==> !(OurPrefix(tag) <= foreign[i])
    requires OwnBlocks(blocks, tag)
    ensures Kept(StripCrs(foreign + Flat(blocks)), Beginning(OurPrefix(tag))) == StripCrs(foreign)
  {
    if foreign == [] {
      OwnBlocksGo(blocks, tag);
      assert [] + Flat(blocks) == Flat(blocks);
    } else {
      KeptAgain(foreign[1..], blocks, tag);
      OurPrefixEnds(tag);
      PrefixSurvivesStrip(OurPrefix(tag), foreign[0]);
      hide OurPrefix, OwnBlocks, StripCr;
      ForeignCons(foreign, Flat(blocks));
      KeptForeign(StripCr(foreign[0]), StripCrs(foreign[1..] + Flat(blocks)), Beginning(OurPrefix(tag)));
    }
  }

  lemma KeptForeign(line: string, rest: seq<string>, hit: Hit)
    requires !hit.Matches(line)
    ensures Kept([line] + rest, hit) == [line] + Kept(rest, hit)
  {
    assert ([line] + rest)[1..] == rest;
  }

  lemma KeptBlock(two: seq<string>, rest: seq<string>, hit: Hit)
    requires |two| == 2 && hit.Matches(two[0])
    ensures Kept(two + rest, hit) == Kept(rest, hit)
  {
    assert (two + rest)[2..] == rest;
  }

  /** Merging over an earlier merge replaces its blocks. */
  lemma MergedOver(current: string, before: seq<Block>, blocks: seq<Block>, tag: string)
    requires OwnBlocks(before, tag)
    ensures var kept := Kept(Lines(current), Beginning(OurPrefix(tag)));
            Merged(Merged(current, before, tag), blocks, tag) == Unlines(StripCrs(kept) + Flat(blocks)) ||
            (kept == [] && before == [] && Merged(Merged(current, before, tag), blocks, tag) == Unlines([""] + Flat(blocks)))
  {
    var hit := Beginning(OurPrefix(tag));
    var kept := Kept(Lines(current), hit);
    KeptIsForeign(Lines(current), hit);
    FlatNoNewline(before, tag);
    var out := kept + Flat(before);
    assert NoNewline(out);
    assert out == [] ==> kept == [] && before == [];
    hide Kept, Lines, Unlines, OurPrefix;
    LinesUnlines(out);
    if out == [] {
      KeptEmptyLine(tag);
    } else {
      KeptAgain(kept, before, tag);
    }
  }

  lemma MergedAgain(current: string, blocks: seq<Block>, tag: string)
    requires OwnBlocks(blocks, tag)
    ensures var kept := Kept(Lines(current), Beginning(OurPrefix(tag)));
            Merged(Merged(current, blocks, tag), blocks, tag) == Unlines(StripCrs(kept) + Flat(blocks))
  {
    MergedOver(current, blocks, blocks, tag);
    hide Kept, Lines, Merged, OurPrefix;
    if blocks == [] {
      assert [""] + Flat([]) == [""] && StripCrs([]) + Flat([]) == [];
      assert Unlines([""]) == Unlines([]);
    }
  }

  lemma KeptEmptyLine(tag: string)
    ensures Kept([""], Beginning(OurPrefix(tag))) == [""]
  {
    OurPrefixEnds(tag);
    assert [""][1..] == [];
  }

  /** The lines of a text that are outside the blocks, by its split. */
  function ForeignOf(text: string, hit: Hit): seq<string> {
    ForeignLines(ChunksOf(Lines(text), hit).0)
  }

  /** The lines of a text that was put together again from lines. */
  function AsRead(lines: seq<string>): seq<string> {
    if lines == [] then [""] else StripCrs(lines)
  }

  /**
   * Read back line by line, the merged crontab holds exactly the foreign lines in order and then the new blocks, and the
   * crontab after a removal the lines foreign to the marker; each line loses one carriage return at its end.
   */
  lemma ForeignLinesSurvive(current: string, blocks: seq<Block>, tag: string, marker: string)
    requires OwnBlocks(blocks, tag)
    ensures Lines(Merged(current, blocks, tag)) == AsRead(ForeignOf(current, Beginning(OurPrefix(tag))) + Flat(blocks))
    ensures Lines(Removed(current, marker)) == AsRead(ForeignOf(current, Whole(marker)))
  {
    var lines := Lines(current);
    var ours, whole := Beginning(OurPrefix(tag)), Whole(marker);
    KeepsForeignLines(lines, ChunksOf(lines, ours).0, ChunksOf(lines, ours).1, ours);
    KeepsForeignLines(lines, ChunksOf(lines, whole).0, ChunksOf(lines, whole).1, whole);
    KeptIsForeign(lines, ours);
    KeptIsForeign(lines, whole);
    FlatNoNewline(blocks, tag);
    hide ChunksOf, Kept, Lines, Unlines, OurPrefix, Flat, StripCrs, ForeignLines;
    LinesUnlines(Kept(lines, ours) + Flat(blocks));
    LinesUnlines(Kept(lines, whole));
  }

  /**
   * Merging the same blocks twice changes nothing the second time exactly when no kept line
   * still ends in a carriage return (of the two before a newline only one is ever removed).
   */
  lemma MergeIdempotentExactlyWhen(current: string, blocks: seq<Block>, tag: string)
    requires OwnBlocks(blocks, tag)
    ensures Merged(Merged(current, blocks, tag), blocks, tag) == Merged(current, blocks, tag) <==>
            NoCr(Kept(Lines(current), Beginning(OurPrefix(tag))))
  {
    var kept := Kept(Lines(current), Beginning(OurPrefix(tag)));
    MergedAgain(current, blocks, tag);
    StripShortens(kept);
    if kept != [] {
      UnlinesLength(kept + Flat(blocks));
      UnlinesLength(StripCrs(kept) + Flat(blocks));
      TextLengthAppend(kept, Flat(blocks));
      TextLengthAppend(StripCrs(kept), Flat(blocks));
    }
    hide Merged, Unlines, Kept, Lines;
  }

  lemma TwoReturnsKept(tag: string)
    ensures Kept(Lines("x\r\r\n"), Beginning(OurPrefix(tag))) == ["x\r"]
  {
    LinesOfTwoReturns();
    OurPrefixEnds(tag);
    hide Lines, OurPrefix;
    var line := "x\r";
    var ours := OurPrefix(tag);
    assert |line| == 2 && |MARKER_PREFIX| == 16 && |ours| >= 16;
    assert !(ours <= line);
    assert Lines("x\r\r\n") == [line] && [line][1..] == [];
  }

  lemma LinesOfTwoReturns()
    ensures Lines("x\r\r\n") == ["x\r"]
  {
    LinesFirst("x\r\r", "");
    LinesEmpty();
    hide Lines;
    assert "x\r\r" + "\n" + "" == "x\r\r\n" && StripCr("x\r\r") == "x\r";
    assert ["x\r"] + [] == ["x\r"];
  }

  /** The failing family is inhabited: a line that ends in two carriage returns. */
  lemma DoubleCarriageReturnMerges(tag: string)
    ensures Merged(Merged("x\r\r\n", [], tag), [], tag) != Merged("x\r\r\n", [], tag)
  {
    TwoReturnsKept(tag);
    assert EndsCr(["x\r"][0]);
    hide Kept, Lines, Merged;
    MergeIdempotentExactlyWhen("x\r\r\n", [], tag);
  }

  // ---------- removing what was installed ----------

  function RemovedAll(text: string, markers: seq<string>): string
    decreases |markers|
  {
    if markers == [] then text else RemovedAll(Removed(text, markers[0]), markers[1..])
  }

  function Markers(blocks: seq<Block>): (r: seq<string>)
    ensures |r| == |blocks| && forall i :: 0 <= i < |blocks| ==> r[i] == blocks[i].0
  {
    seq(|blocks|, i requires 0 <= i < |blocks| => blocks[i].0)
  }

  /** The blocks of other markers, as they come back from text. */
  function Others(blocks: seq<Block>, marker: string): seq<Block> {
    if blocks == [] then []
    else (if blocks[0].0 == marker then [] else [(blocks[0].0, StripCr(blocks[0].1))]) + Others(blocks[1..], marker)
  }

  /** Our blocks whose markers survive text and whose commands do not look like markers of ours. */
  ghost predicate Installed(blocks: seq<Block>, tag: string) {
    OwnBlocks(blocks, tag) &&
    forall i :: 0 <= i < |blocks| ==> !EndsCr(blocks[i].0) && !(OurPrefix(tag) <= blocks[i].1)
  }

  ghost predicate ForeignTo(lines: seq<string>, tag: string) {
    NoNewline(lines) && forall i :: 0 <= i < |lines| ==> !(OurPrefix(tag) <= lines[i])
  }

  lemma {:induction false} OthersInstalled(blocks: seq<Block>, marker: string, tag: string)
    requires Installed(blocks, tag)
    ensures Installed(Others(blocks, marker), tag)
    ensures forall i :: 0 <= i < |Others(blocks, marker)| ==>
              Others(blocks, marker)[i].0 != marker && exists j :: 0 <= j < |blocks| && blocks[j].0 == Others(blocks, marker)[i].0
  {
    if blocks == [] {
    } else {
      assert Installed(blocks[1..], tag) && Installed(blocks[..1], tag);
      OthersInstalled(blocks[1..], marker, tag);
      FirstInstalled(blocks, marker, tag);
      var rest, first := Others(blocks[1..], marker), Others(blocks[..1], marker);
      assert Others(blocks, marker) == first + rest by { OthersFirst(blocks, marker); }
      hide OurPrefix, Others, EndsCr;
      forall i | 0 <= i < |rest| ensures exists j :: 0 <= j < |blocks| && blocks[j].0 == rest[i].0 {
        var j :| 0 <= j < |blocks[1..]| && blocks[1..][j].0 == rest[i].0;
        assert blocks[j + 1].0 == rest[i].0;
      }
    }
  }

  lemma OthersFirst(blocks: seq<Block>, marker: string)
    requires blocks != []
    ensures Others(blocks, marker) == Others(blocks[..1], marker) + Others(blocks[1..], marker)
  {
    var one := blocks[..1];
    assert one[0] == blocks[0] && one[1..] == [];
  }

  lemma FirstInstalled(blocks: seq<Block>, marker: string, tag: string)
    requires Installed(blocks, tag) && blocks != []
    ensures var first := Others(blocks[..1], marker);
            Installed(first, tag) && forall i :: 0 <= i < |first| ==> first[i].0 != marker && first[i].0 == blocks[0].0
  {
    OurPrefixEnds(tag);
    PrefixSurvivesStrip(OurPrefix(tag), blocks[0].1);
    var one := blocks[..1];
    assert one[0] == blocks[0] && one[1..] == [] && Others(one[1..], marker) == [];
    hide OurPrefix;
  }

  lemma {:induction false} RemoveFromBlocks(blocks: seq<Block>, marker: string, tag: string)
    requires Installed(blocks, tag) && OurPrefix(tag) <= marker
    ensures Kept(StripCrs(Flat(blocks)), Whole(marker)) == Flat(Others(blocks, marker))
  {
    if blocks == [] {
    } else {
      RemoveFromBlocks(blocks[1..], marker, tag);
      OurPrefixEnds(tag);
      PrefixSurvivesStrip(OurPrefix(tag), blocks[0].1);
      hide OurPrefix, Installed;
      FlatCons(blocks);
      RemoveBlock(blocks[0], StripCrs(Flat(blocks[1..])), marker);
      OthersFlat(blocks, marker);
    }
  }

  lemma FlatCons(blocks: seq<Block>)
    requires blocks != []
    ensures StripCrs(Flat(blocks)) == StripCrs([blocks[0].0, blocks[0].1]) + StripCrs(Flat(blocks[1..]))
  {
    StripCrsAppend([blocks[0].0, blocks[0].1], Flat(blocks[1..]));
  }

  lemma ForeignCons(foreign: seq<string>, rest: seq<string>)
    requires foreign != []
    ensures StripCrs(foreign + rest) == [StripCr(foreign[0])] + StripCrs(foreign[1..] + rest)
  {
    assert (foreign + rest)[1..] == foreign[1..] + rest;
  }

  lemma {:induction false} RemoveOne(foreign: seq<string>, blocks: seq<Block>, marker: string, tag: string)
    requires ForeignTo(foreign, tag) && Installed(blocks, tag) && OurPrefix(tag) <= marker
    ensures Kept(StripCrs(foreign + Flat(blocks)), Whole(marker)) == StripCrs(foreign) + Flat(Others(blocks, marker))
  {
    if foreign == [] {
      RemoveFromBlocks(blocks, marker, tag);
      assert [] + Flat(blocks) == Flat(blocks) && StripCrs([]) + Flat(Others(blocks, marker)) == Flat(Others(blocks, marker));
    } else {
      RemoveOne(foreign[1..], blocks, marker, tag);
      OurPrefixEnds(tag);
      PrefixSurvivesStrip(OurPrefix(tag), foreign[0]);
      hide OurPrefix, Installed, Others, StripCr;
      ForeignCons(foreign, Flat(blocks));
      KeptForeign(StripCr(foreign[0]), StripCrs(foreign[1..] + Flat(blocks)), Whole(marker));
      assert [StripCr(foreign[0])] + (StripCrs(foreign[1..]) + Flat(Others(blocks, marker))) ==
             StripCrs(foreign) + Flat(Others(blocks, marker));
    }
  }

  lemma OthersFlat(blocks: seq<Block>, marker: string)
    requires blocks != []
    ensures Flat(Others(blocks, marker)) ==
            if blocks[0].0 == marker then Flat(Others(blocks[1..], marker))
            else [blocks[0].0, StripCr(blocks[0].1)] + Flat(Others(blocks[1..], marker))
  {
    var rest := Others(blocks[1..], marker);
    if blocks[0].0 == marker {
      assert [] + rest == rest;
    } else {
      assert ([(blocks[0].0, StripCr(blocks[0].1))] + rest)[1..] == rest;
    }
  }

  lemma RemoveBlock(b: Block, rest: seq<string>, marker: string)
    requires !EndsCr(b.0) && StripCr(b.1) != marker
    ensures Kept(StripCrs([b.0, b.1]) + rest, Whole(marker)) ==
            if b.0 == marker then Kept(rest, Whole(marker)) else [b.0, StripCr(b.1)] + Kept(rest, Whole(marker))
  {
    var c := StripCr(b.1);
    var two := StripCrs([b.0, b.1]);
    assert two == [b.0, c];
    hide StripCr, StripCrs, EndsCr, Kept;
    if b.0 == marker {
      KeptBlock(two, rest, Whole(marker));
    } else {
      KeptForeign(b.0, [c] + rest, Whole(marker));
      KeptForeign(c, rest, Whole(marker));
      TwoInFront(b.0, c, rest);
      TwoInFront(b.0, c, Kept(rest, Whole(marker)));
    }
  }

  lemma TwoInFront(x: string, y: string, rest: seq<string>)
    ensures [x] + ([y] + rest) == [x, y] + rest
  {
  }

  /** `k` rounds of losing a trailing carriage return. */
  function StripTimes(lines: seq<string>, k: nat): seq<string>
    decreases k
  {
    if k == 0 then lines else StripTimes(StripCrs(lines), k - 1)
  }

  lemma {:induction false} StripTimesShortens(lines: seq<string>, k: nat)
    ensures TextLength(StripTimes(lines, k)) <= TextLength(lines)
    ensures (StripTimes(lines, k) == lines <==> k == 0 || NoCr(lines))
    ensures TextLength(StripTimes(lines, k)) == TextLength(lines) <==> k == 0 || NoCr(lines)
    ensures |StripTimes(lines, k)| == |lines|
    decreases k
  {
    if k == 0 {
    } else {
      StripShortens(lines);
      StripTimesShortens(StripCrs(lines), k - 1);
    }
  }

  lemma StripKeepsForeign(lines: seq<string>, tag: string)
    requires ForeignTo(lines, tag)
    ensures ForeignTo(StripCrs(lines), tag)
  {
    OurPrefixEnds(tag);
    forall i | 0 <= i < |lines| ensures !(OurPrefix(tag) <= StripCr(lines[i])) && '\n' !in StripCr(lines[i]) {
      PrefixSurvivesStrip(OurPrefix(tag), lines[i]);
    }
  }

  lemma RemovedText(foreign: seq<string>, blocks: seq<Block>, marker: string, tag: string)
    requires ForeignTo(foreign, tag) && Installed(blocks, tag) && OurPrefix(tag) <= marker
    ensures Removed(Unlines(foreign + Flat(blocks)), marker) == Unlines(StripCrs(foreign) + Flat(Others(blocks, marker)))
  {
    FlatNoNewline(blocks, tag);
    var out := foreign + Flat(blocks);
    LinesUnlines(out);
    RemoveOne(foreign, blocks, marker, tag);
    if out == [] {
      OurPrefixEnds(tag);
      assert Kept([""], Whole(marker)) == [""] by { assert [""][1..] == [] && marker != ""; }
      assert blocks == [] && foreign == [];
      assert StripCrs([]) + Flat(Others([], marker)) == [];
      assert Unlines([""]) == Unlines([]);
    }
  }

  lemma {:induction false} RemovesAll(foreign: seq<string>, blocks: seq<Block>, markers: seq<string>, tag: string)
    requires ForeignTo(foreign, tag) && Installed(blocks, tag)
    requires forall i :: 0 <= i < |markers| ==> OurPrefix(tag) <= markers[i]
    requires forall i :: 0 <= i < |blocks| ==> blocks[i].0 in markers
    ensures RemovedAll(Unlines(foreign + Flat(blocks)), markers) == Unlines(StripTimes(foreign, |markers|))
    decreases |markers|
  {
    if markers == [] {
      assert blocks == [];
      assert foreign + Flat([]) == foreign;
    } else {
      hide OurPrefix, Installed, ForeignTo, Removed, Unlines, Others, StripCrs, Flat;
      RemovedText(foreign, blocks, markers[0], tag);
      OthersInstalled(blocks, markers[0], tag);
      StripKeepsForeign(foreign, tag);
      OthersListed(blocks, markers);
      assert forall i :: 0 <= i < |markers[1..]| ==> markers[1..][i] == markers[i + 1];
      RemovesAll(StripCrs(foreign), Others(blocks, markers[0]), markers[1..], tag);
    }
  }

  lemma {:induction false} OthersListed(blocks: seq<Block>, markers: seq<string>)
    requires markers != [] && forall i :: 0 <= i < |blocks| ==> blocks[i].0 in markers
    ensures forall i :: 0 <= i < |Others(blocks, markers[0])| ==> Others(blocks, markers[0])[i].0 in markers[1..]
  {
    hide StripCr;
    if blocks == [] {
    } else {
      OthersListed(blocks[1..], markers);
      assert blocks[0].0 in markers;
    }
  }

  /**
   * Removing every installed block again leaves what merging nothing leaves, exactly when
   * there was nothing to remove or no kept line still ends in a carriage return.
   */
  lemma RemoveUndoesMergeExactlyWhen(current: string, blocks: seq<Block>, tag: string)
    requires Installed(blocks, tag)
    ensures RemovedAll(Merged(current, blocks, tag), Markers(blocks)) == Merged(current, [], tag) <==>
            blocks == [] || NoCr(Kept(Lines(current), Beginning(OurPrefix(tag))))
  {
    var kept := Kept(Lines(current), Beginning(OurPrefix(tag)));
    KeptIsForeign(Lines(current), Beginning(OurPrefix(tag)));
    assert ForeignTo(kept, tag);
    forall i | 0 <= i < |blocks| ensures blocks[i].0 in Markers(blocks) { assert Markers(blocks)[i] in Markers(blocks); }
    RemovesAll(kept, blocks, Markers(blocks), tag);
    assert kept + Flat([]) == kept;
    StripTimesShortens(kept, |blocks|);
    var stripped := StripTimes(kept, |blocks|);
    assert Merged(current, blocks, tag) == Unlines(kept + Flat(blocks)) && Merged(current, [], tag) == Unlines(kept);
    hide Merged, Unlines, Kept, Lines, Markers, RemovedAll, StripTimes, Installed, ForeignTo, OurPrefix;
    if kept != [] {
      UnlinesLength(kept);
      UnlinesLength(stripped);
    }
  }

  // ---------- reading the entries ----------

  /** Records one block: its name and the first five fields of its command, if there are five. */
  function Record(entries: map<string, string>, b: Block): map<string, string>
    requires MARKER_PREFIX <= b.0
  {
    var name := Trim(b.0[|MARKER_PREFIX|..]);
    var words := Words(b.1);
    var fields := if |words| >= 5 then words[..5] else words;
    if |fields| == 5 then entries[name := Join(fields, " ")] else entries
  }

  function Entries(lines: seq<string>, entries: map<string, string>): map<string, string>
    decreases |lines|
  {
    if lines == [] then entries
    else if !(MARKER_PREFIX <= lines[0]) then Entries(lines[1..], entries)
    else if |lines| == 1 then entries
    else Entries(lines[2..], Record(entries, (lines[0], lines[1])))
  }

  method ParseAllCronEntries(crontab: string) returns (result: map<string, string>)
    ensures result == Entries(Lines(crontab), map[])
  {
    result := map[];
    var lines := Lines(crontab);
    var i := 0;
    assert lines[0..] == lines;
    while i < |lines|
      invariant 0 <= i <= |lines|
      invariant Entries(lines, map[]) == Entries(lines[i..], result)
    {
      var line := lines[i];
      ghost var rest := lines[i..];
      assert rest[0] == line && rest[1..] == lines[i + 1..];
      i := i + 1;
      if MARKER_PREFIX <= line {
        if i < |lines| {
          assert rest[1] == lines[i] && rest[2..] == lines[i + 1..];
          result := Record(result, (line, lines[i]));
          i := i + 1;
        }
      }
    }
    assert lines[|lines|..] == [];
  }

  /** Every marker is followed by a command that is no marker. */
  predicate WellFormed(lines: seq<string>)
    decreases |lines|
  {
    if lines == [] then true
    else if MARKER_PREFIX <= lines[0] then |lines| >= 2 && !(MARKER_PREFIX <= lines[1]) && WellFormed(lines[2..])
    else WellFormed(lines[1..])
  }

  /** The blocks of all projects, in order. */
  function BlocksOf(lines: seq<string>): (r: seq<Block>)
    ensures forall i :: 0 <= i < |r| ==> MARKER_PREFIX <= r[i].0
    decreases |lines|
  {
    if lines == [] then []
    else if MARKER_PREFIX <= lines[0] then
      if |lines| >= 2 then [(lines[0], lines[1])] + BlocksOf(lines[2..]) else []
    else BlocksOf(lines[1..])
  }

  /** The blocks of other projects. */
  function ForeignBlocks(blocks: seq<Block>, tag: string): (r: seq<Block>)
    requires forall i :: 0 <= i < |blocks| ==> MARKER_PREFIX <= blocks[i].0
    ensures forall i :: 0 <= i < |r| ==> MARKER_PREFIX <= r[i].0 && !(OurPrefix(tag) <= r[i].0)
  {
    if blocks == [] then []
    else (if OurPrefix(tag) <= blocks[0].0 then [] else [blocks[0]]) + ForeignBlocks(blocks[1..], tag)
  }

  /** Records blocks in order; a later one with the same name wins. */
  function RecordAll(entries: map<string, string>, blocks: seq<Block>): map<string, string>
    requires forall i :: 0 <= i < |blocks| ==> MARKER_PREFIX <= blocks[i].0
    decreases |blocks|
  {
    if blocks == [] then entries else RecordAll(Record(entries, blocks[0]), blocks[1..])
  }

  lemma {:induction false} TrimStartAtCr(s: string)
    ensures TrimStart(s + "\r") == if TrimStart(s) == [] then [] else TrimStart(s) + "\r"
  {
    assert IsSpace('\r');
    hide IsSpace;
    if s == [] {
      assert [] + "\r" == "\r" && "\r"[1..] == [];
    } else if IsSpace(s[0]) {
      assert (s + "\r")[1..] == s[1..] + "\r";
      TrimStartAtCr(s[1..]);
    }
  }

  lemma TrimAtCr(s: string)
    ensures Trim(s + "\r") == Trim(s)
  {
    TrimStartAtCr(s);
    var t := TrimStart(s);
    if t != [] { assert (t + "\r")[..|t + "\r"| - 1] == t; }
  }

  lemma {:induction false} WordLengthAtCr(s: string)
    ensures WordLength(s + "\r") == WordLength(s)
  {
    if s == [] || IsSpace(s[0]) {
    } else {
      assert (s + "\r")[1..] == s[1..] + "\r";
      WordLengthAtCr(s[1..]);
    }
  }

  lemma {:induction false} WordsAtCr(s: string)
    ensures Words(s + "\r") == Words(s)
    decreases |s|
  {
    hide TrimStart, WordLength, IsSpace;
    TrimStartAtCr(s);
    var t := TrimStart(s);
    if t == [] {
    } else {
      WordLengthAtCr(t);
      var k := WordLength(t);
      assert (t + "\r")[..k] == t[..k] && (t + "\r")[k..] == t[k..] + "\r";
      WordsAtCr(t[k..]);
    }
  }

  lemma WordsStripped(s: string)
    ensures Words(StripCr(s)) == Words(s)
  {
    hide Words;
    if EndsCr(s) {
      WordsAtCr(StripCr(s));
      assert StripCr(s) + "\r" == s;
    }
  }

  lemma NameStripped(s: string)
    requires MARKER_PREFIX <= s
    ensures MARKER_PREFIX <= StripCr(s)
    ensures Trim(StripCr(s)[|MARKER_PREFIX|..]) == Trim(s[|MARKER_PREFIX|..])
  {
    hide Trim;
    PrefixSurvivesStrip(MARKER_PREFIX, s);
    if EndsCr(s) {
      var name := StripCr(s)[|MARKER_PREFIX|..];
      assert s[|MARKER_PREFIX|..] == name + "\r";
      TrimAtCr(name);
    }
  }

  /** A carriage return at the end of its lines changes nothing about a block's entry. */
  lemma RecordStripped(entries: map<string, string>, b: Block)
    requires MARKER_PREFIX <= b.0
    ensures MARKER_PREFIX <= StripCr(b.0)
    ensures Record(entries, (StripCr(b.0), StripCr(b.1))) == Record(entries, b)
  {
    hide StripCr, Words, Trim, Join;
    WordsStripped(b.1);
    NameStripped(b.0);
  }

  lemma {:induction false} EntriesOfBlocks(lines: seq<string>, entries: map<string, string>)
    ensures Entries(lines, entries) == RecordAll(entries, BlocksOf(lines))
    decreases |lines|
  {
    if lines == [] {
    } else {
      if MARKER_PREFIX <= lines[0] {
        if |lines| >= 2 {
          var b := (lines[0], lines[1]);
          hide Record;
          EntriesOfBlocks(lines[2..], Record(entries, b));
          assert ([b] + BlocksOf(lines[2..]))[1..] == BlocksOf(lines[2..]);
        }
      } else {
        EntriesOfBlocks(lines[1..], entries);
      }
    }
  }

  lemma {:induction false} EntriesStripped(lines: seq<string>, entries: map<string, string>)
    ensures Entries(StripCrs(lines), entries) == Entries(lines, entries)
    decreases |lines|
  {
    if lines == [] {
    } else {
      var s := StripCrs(lines);
      assert s[0] == StripCr(lines[0]) && s[1..] == StripCrs(lines[1..]);
      PrefixSurvivesStrip(MARKER_PREFIX, lines[0]);
      hide StripCr, Record;
      if MARKER_PREFIX <= lines[0] {
        if |lines| >= 2 {
          assert s[1] == StripCr(lines[1]) && s[2..] == StripCrs(lines[2..]);
          RecordStripped(entries, (lines[0], lines[1]));
          EntriesStripped(lines[2..], Record(entries, (lines[0], lines[1])));
        }
      } else {
        EntriesStripped(lines[1..], entries);
      }
    }
  }

  lemma PrefixChain(tag: string, s: string)
    requires OurPrefix(tag) <= s
    ensures MARKER_PREFIX <= s
  {
    assert s[..|MARKER_PREFIX|] == OurPrefix(tag)[..|MARKER_PREFIX|];
  }

  lemma FirstTwo(lines: seq<string>)
    requires |lines| >= 2
    ensures lines == [lines[0]] + ([lines[1]] + lines[2..])
  {
  }

  lemma KeptOther(lines: seq<string>, tag: string)
    requires |lines| >= 2 && MARKER_PREFIX <= lines[0] && !(OurPrefix(tag) <= lines[0]) && !(MARKER_PREFIX <= lines[1])
    ensures Kept(lines, Beginning(OurPrefix(tag))) == [lines[0], lines[1]] + Kept(lines[2..], Beginning(OurPrefix(tag)))
  {
    var hit := Beginning(OurPrefix(tag));
    if OurPrefix(tag) <= lines[1] { PrefixChain(tag, lines[1]); }
    assert !hit.Matches(lines[0]) && !hit.Matches(lines[1]);
    FirstTwo(lines);
    hide *;
    KeptForeign(lines[0], [lines[1]] + lines[2..], hit);
    KeptForeign(lines[1], lines[2..], hit);
    TwoInFront(lines[0], lines[1], Kept(lines[2..], hit));
  }

  /** Dropping our blocks keeps the others' blocks and keeps the crontab well formed. */
  lemma {:induction false} KeptBlocks(lines: seq<string>, tag: string)
    requires WellFormed(lines)
    ensures WellFormed(Kept(lines, Beginning(OurPrefix(tag))))
    ensures BlocksOf(Kept(lines, Beginning(OurPrefix(tag)))) == ForeignBlocks(BlocksOf(lines), tag)
    decreases |lines|
  {
    hide OurPrefix;
    var hit := Beginning(OurPrefix(tag));
    if lines == [] {
    } else {
      if OurPrefix(tag) <= lines[0] {
        PrefixChain(tag, lines[0]);
        KeptBlocks(lines[2..], tag);
        BlockCons(lines[0], lines[1], BlocksOf(lines[2..]), tag);
      } else if MARKER_PREFIX <= lines[0] {
        KeptBlocks(lines[2..], tag);
        KeptOther(lines, tag);
        BlockCons(lines[0], lines[1], BlocksOf(lines[2..]), tag);
        var rest := Kept(lines[2..], hit);
        hide Kept;
        assert ([lines[0], lines[1]] + rest)[2..] == rest;
      } else {
        KeptBlocks(lines[1..], tag);
        var rest := Kept(lines[1..], hit);
        assert ([lines[0]] + rest)[1..] == rest;
      }
    }
  }

  lemma BlockCons(marker: string, command: string, rest: seq<Block>, tag: string)
    requires MARKER_PREFIX <= marker && forall i :: 0 <= i < |rest| ==> MARKER_PREFIX <= rest[i].0
    ensures ForeignBlocks([(marker, command)] + rest, tag) ==
            (if OurPrefix(tag) <= marker then [] else [(marker, command)]) + ForeignBlocks(rest, tag)
  {
    assert ([(marker, command)] + rest)[1..] == rest;
  }

  lemma {:induction false} BlocksOfFlat(blocks: seq<Block>)
    requires forall i :: 0 <= i < |blocks| ==> MARKER_PREFIX <= blocks[i].0
    ensures BlocksOf(Flat(blocks)) == blocks
  {
    if blocks == [] {
    } else {
      BlocksOfFlat(blocks[1..]);
      var b := blocks[0];
      assert ([b.0, b.1] + Flat(blocks[1..]))[2..] == Flat(blocks[1..]);
      assert [(b.0, b.1)] + blocks[1..] == blocks;
    }
  }

  lemma {:induction false} BlocksOfAppend(lines: seq<string>, more: seq<string>)
    requires WellFormed(lines)
    ensures BlocksOf(lines + more) == BlocksOf(lines) + BlocksOf(more)
    decreases |lines|
  {
    if lines == [] {
      assert [] + more == more && [] + BlocksOf(more) == BlocksOf(more);
    } else {
      var all := lines + more;
      assert all[0] == lines[0] && all[1..] == lines[1..] + more;
      if MARKER_PREFIX <= lines[0] {
        assert all[1] == lines[1] && all[2..] == lines[2..] + more;
        BlocksOfAppend(lines[2..], more);
        var b := (lines[0], lines[1]);
        assert [b] + (BlocksOf(lines[2..]) + BlocksOf(more)) == ([b] + BlocksOf(lines[2..])) + BlocksOf(more);
      } else {
        BlocksOfAppend(lines[1..], more);
      }
    }
  }

  lemma OwnAreMarkers(blocks: seq<Block>, tag: string)
    requires OwnBlocks(blocks, tag)
    ensures forall i :: 0 <= i < |blocks| ==> MARKER_PREFIX <= blocks[i].0
  {
    forall i | 0 <= i < |blocks| ensures MARKER_PREFIX <= blocks[i].0 { PrefixChain(tag, blocks[i].0); }
  }

  /**
   * After a merge into a crontab in which every marker is followed by a command, the entries
   * are those of the other projects' blocks, in order, updated by the new ones.
   */
  lemma MergedEntries(current: string, blocks: seq<Block>, tag: string)
    requires WellFormed(Lines(current)) && OwnBlocks(blocks, tag)
    ensures forall i :: 0 <= i < |blocks| ==> MARKER_PREFIX <= blocks[i].0
    ensures Entries(Lines(Merged(current, blocks, tag)), map[]) ==
            RecordAll(map[], ForeignBlocks(BlocksOf(Lines(current)), tag) + blocks)
  {
    var kept := Kept(Lines(current), Beginning(OurPrefix(tag)));
    var out := kept + Flat(blocks);
    OwnAreMarkers(blocks, tag);
    KeptIsForeign(Lines(current), Beginning(OurPrefix(tag)));
    KeptBlocks(Lines(current), tag);
    BlocksOfAppend(kept, Flat(blocks));
    BlocksOfFlat(blocks);
    FlatNoNewline(blocks, tag);
    assert NoNewline(out);
    LinesUnlines(out);
    EntriesStripped(out, map[]);
    EntriesOfBlocks(out, map[]);
    assert Merged(current, blocks, tag) == Unlines(out);
    hide Lines, Kept, Unlines, OurPrefix, Merged, RecordAll, BlocksOf, ForeignBlocks, StripCrs;
    if out == [] { EmptyLineHasNoEntry(); }
  }

  lemma EmptyLineHasNoEntry()
    ensures Entries([""], map[]) == map[] && Entries([], map[]) == map[]
  {
    assert [""][1..] == [];
  }
}
