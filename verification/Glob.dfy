/**
 * The idle scan's glob matcher (`idle.rs`) against a declarative language: `*` stands for
 * any characters of one path segment, `**` for any number of whole segments.
 */
module Glob {
  import opened Text

  // ---------- the matcher ----------

  predicate SegmentMatch(pat: string, seg: string)
    decreases |pat| + |seg|
  {
    if pat == [] then seg == []
    else if pat[0] == '*' then
      SegmentMatch(pat[1..], seg) || (seg != [] && SegmentMatch(pat, seg[1..]))
    else
      seg != [] && pat[0] == seg[0] && SegmentMatch(pat[1..], seg[1..])
  }

  predicate PartsMatch(pat: seq<string>, path: seq<string>)
    decreases |pat| + |path|
  {
    if pat == [] && path == [] then true
    else if pat == [] || path == [] then |pat| == 1 && pat[0] == "**"
    else if pat[0] == "**" then PartsMatch(pat[1..], path) || PartsMatch(pat, path[1..])
    else SegmentMatch(pat[0], path[0]) && PartsMatch(pat[1..], path[1..])
  }

  predicate GlobMatch(pattern: string, path: string) {
    PartsMatch(SplitOn(pattern, '/'), SplitOn(path, '/'))
  }

  // ---------- the language ----------

  function Flatten<T>(parts: seq<seq<T>>): seq<T> {
    if parts == [] then [] else parts[0] + Flatten(parts[1..])
  }

  /** `parts` says which characters of the segment each pattern character stands for. */
  ghost predicate SegmentWitness(pat: string, parts: seq<string>) {
    |parts| == |pat| && forall i :: 0 <= i < |pat| ==> pat[i] == '*' || parts[i] == [pat[i]]
  }

  ghost predicate SegmentIn(pat: string, seg: string) {
    exists parts :: SegmentWitness(pat, parts) && Flatten(parts) == seg
  }

  /** `groups` says which path segments each pattern segment stands for. */
  ghost predicate PathWitness(pat: seq<string>, groups: seq<seq<string>>) {
    |groups| == |pat| &&
    forall i :: 0 <= i < |pat| ==> pat[i] == "**" || (|groups[i]| == 1 && SegmentIn(pat[i], groups[i][0]))
  }

  ghost predicate PathIn(pat: seq<string>, path: seq<string>) {
    exists groups :: PathWitness(pat, groups) && Flatten(groups) == path
  }

  /** Splits a witness into its head and its tail. */
  lemma SegmentInCons(pat: string, seg: string)
    requires pat != []
    ensures SegmentIn(pat, seg) <==>
            exists k: nat :: k <= |seg| && (pat[0] == '*' || seg[..k] == [pat[0]]) && SegmentIn(pat[1..], seg[k..])
  {
    if SegmentIn(pat, seg) {
      var parts :| SegmentWitness(pat, parts) && Flatten(parts) == seg;
      var k := |parts[0]|;
      assert SegmentWitness(pat[1..], parts[1..]);
      assert seg[..k] == parts[0] && seg[k..] == Flatten(parts[1..]);
    }
    if k: nat :| k <= |seg| && (pat[0] == '*' || seg[..k] == [pat[0]]) && SegmentIn(pat[1..], seg[k..]) {
      var rest :| SegmentWitness(pat[1..], rest) && Flatten(rest) == seg[k..];
      var parts := [seg[..k]] + rest;
      assert parts[1..] == rest;
      assert SegmentWitness(pat, parts);
      assert Flatten(parts) == seg[..k] + seg[k..] == seg;
    }
  }

  lemma PathInCons(pat: seq<string>, path: seq<string>)
    requires pat != []
    ensures PathIn(pat, path) <==>
            exists k: nat :: k <= |path| && (pat[0] == "**" || (k == 1 && SegmentIn(pat[0], path[0]))) &&
                             PathIn(pat[1..], path[k..])
  {
    if PathIn(pat, path) {
      var groups :| PathWitness(pat, groups) && Flatten(groups) == path;
      var k := |groups[0]|;
      assert PathWitness(pat[1..], groups[1..]);
      assert path[..k] == groups[0] && path[k..] == Flatten(groups[1..]);
    }
    if k: nat :| k <= |path| && (pat[0] == "**" || (k == 1 && SegmentIn(pat[0], path[0]))) && PathIn(pat[1..], path[k..]) {
      var rest :| PathWitness(pat[1..], rest) && Flatten(rest) == path[k..];
      var groups := [path[..k]] + rest;
      assert groups[1..] == rest;
      assert PathWitness(pat, groups);
      assert Flatten(groups) == path[..k] + path[k..] == path;
    }
  }

  lemma NothingIn(seg: string, path: seq<string>)
    ensures SegmentIn([], seg) <==> seg == []
    ensures PathIn([], path) <==> path == []
  {
    assert SegmentWitness([], []) && PathWitness([], []);
    assert Flatten<char>([]) == [] && Flatten<string>([]) == [];
  }

  /** A `*` stands for nothing, or for one more character. */
  lemma StarStep(pat: string, seg: string)
    requires pat != [] && pat[0] == '*'
    ensures SegmentIn(pat, seg) <==> SegmentIn(pat[1..], seg) || (seg != [] && SegmentIn(pat, seg[1..]))
  {
    SegmentInCons(pat, seg);
    assert seg[0..] == seg;
    if seg != [] {
      SegmentInCons(pat, seg[1..]);
      forall k: nat | 1 <= k <= |seg| ensures seg[k..] == seg[1..][k - 1..] {}
    }
  }

  lemma DoubleStarStep(pat: seq<string>, path: seq<string>)
    requires pat != [] && pat[0] == "**"
    ensures PathIn(pat, path) <==> PathIn(pat[1..], path) || (path != [] && PathIn(pat, path[1..]))
  {
    PathInCons(pat, path);
    assert path[0..] == path;
    if path != [] {
      PathInCons(pat, path[1..]);
      forall k: nat | 1 <= k <= |path| ensures path[k..] == path[1..][k - 1..] {}
    }
  }

  lemma {:induction false} SegmentMatchCorrect(pat: string, seg: string)
    ensures SegmentMatch(pat, seg) <==> SegmentIn(pat, seg)
    decreases |pat| + |seg|
  {
    if pat == [] {
      NothingIn(seg, []);
    } else if pat[0] == '*' {
      StarStep(pat, seg);
      SegmentMatchCorrect(pat[1..], seg);
      if seg != [] { SegmentMatchCorrect(pat, seg[1..]); }
    } else {
      SegmentInCons(pat, seg);
      if seg != [] {
        SegmentMatchCorrect(pat[1..], seg[1..]);
        assert seg[..1] == [seg[0]];
      }
    }
  }

  /** The last two pattern segments are both `**`. */
  predicate EndsDoubled(pat: seq<string>) {
    |pat| >= 2 && pat[|pat| - 1] == "**" && pat[|pat| - 2] == "**"
  }

  /** Sound and complete on every path for a pattern that does not end in two `**`. */
  lemma {:induction false} PartsMatchCorrect(pat: seq<string>, path: seq<string>)
    requires !EndsDoubled(pat)
    ensures PartsMatch(pat, path) <==> PathIn(pat, path)
    decreases |pat| + |path|
  {
    if pat == [] {
      NothingIn([], path);
    } else if pat[0] == "**" {
      DoubleStarStep(pat, path);
      if path == [] {
        if |pat| == 1 {
          NothingIn([], path);
        } else {
          PartsMatchCorrect(pat[1..], path);
        }
      } else {
        PartsMatchCorrect(pat[1..], path);
        PartsMatchCorrect(pat, path[1..]);
      }
    } else {
      PathInCons(pat, path);
      if path != [] {
        SegmentMatchCorrect(pat[0], path[0]);
        PartsMatchCorrect(pat[1..], path[1..]);
      }
    }
  }

  /** A final `**` accepts every path. */
  lemma {:induction false} FinalDoubleStar(path: seq<string>)
    ensures PartsMatch(["**"], path)
    decreases |path|
  {
    if path == [] {
    } else {
      FinalDoubleStar(path[1..]);
    }
  }

  /** Some proper prefix of the path is in the language of `pat`. */
  ghost predicate ProperPrefixIn(pat: seq<string>, path: seq<string>) {
    exists i: nat :: i < |path| && PathIn(pat, path[..i])
  }

  lemma PrefixDoubleStarStep(q: seq<string>, path: seq<string>)
    requires q != [] && q[0] == "**" && path != []
    ensures ProperPrefixIn(q, path) <==> ProperPrefixIn(q[1..], path) || ProperPrefixIn(q, path[1..])
  {
    forall i: nat | i < |path|
      ensures PathIn(q, path[..i]) <==> PathIn(q[1..], path[..i]) || (i > 0 && PathIn(q, path[1..][..i - 1]))
    {
      DoubleStarStep(q, path[..i]);
      if i > 0 { assert path[..i][1..] == path[1..][..i - 1]; }
    }
    if i: nat :| i < |path[1..]| && PathIn(q, path[1..][..i]) {
      assert PathIn(q, path[..i + 1]);
    }
  }

  lemma PrefixSegmentStep(q: seq<string>, path: seq<string>)
    requires q != [] && q[0] != "**" && path != []
    ensures ProperPrefixIn(q, path) <==> SegmentIn(q[0], path[0]) && ProperPrefixIn(q[1..], path[1..])
  {
    forall i: nat | i < |path|
      ensures PathIn(q, path[..i]) <==> i > 0 && SegmentIn(q[0], path[0]) && PathIn(q[1..], path[1..][..i - 1])
    {
      PathInCons(q, path[..i]);
      if i > 0 { assert path[..i][1..] == path[1..][..i - 1]; }
    }
    if SegmentIn(q[0], path[0]) {
      if i: nat :| i < |path[1..]| && PathIn(q[1..], path[1..][..i]) {
        var k: nat := i + 1;
        assert path[1..][..k - 1] == path[1..][..i];
        assert PathIn(q, path[..k]);
      }
    }
  }

  /**
   * Exactly what a pattern ending in `**` `**` accepts: a path of which the rest of the
   * pattern matches a proper prefix. The pattern language would also accept the whole path.
   */
  lemma {:induction false} DoubledMatchesProperPrefix(q: seq<string>, path: seq<string>)
    ensures PartsMatch(q + ["**", "**"], path) <==> ProperPrefixIn(q, path)
    decreases |q| + |path|
  {
    var pat := q + ["**", "**"];
    if path == [] {
    } else {
      assert pat[1..] == if q == [] then ["**"] else q[1..] + ["**", "**"];
      if q == [] {
        FinalDoubleStar(path);
        NothingIn([], path[..0]);
      } else if q[0] == "**" {
        DoubledMatchesProperPrefix(q[1..], path);
        DoubledMatchesProperPrefix(q, path[1..]);
        PrefixDoubleStarStep(q, path);
      } else {
        SegmentMatchCorrect(q[0], path[0]);
        DoubledMatchesProperPrefix(q[1..], path[1..]);
        PrefixSegmentStep(q, path);
      }
    }
  }

  lemma {:induction false} TrailingDoubleStars(q: seq<string>, path: seq<string>)
    ensures PathIn(q + ["**", "**"], path) <==> PathIn(q, path) || ProperPrefixIn(q, path)
    decreases |q| + |path|
  {
    var pat := q + ["**", "**"];
    if q == [] {
      var groups: seq<seq<string>> := [path, []];
      assert PathWitness(pat, groups);
      assert Flatten(groups) == path + (Flatten(groups[1..])) && Flatten(groups[1..]) == groups[1] + Flatten(groups[1..][1..]);
      NothingIn([], path);
      if path != [] { NothingIn([], path[..0]); }
    } else {
      assert pat[1..] == q[1..] + ["**", "**"] && pat[0] == q[0];
      if q[0] == "**" {
        DoubleStarStep(pat, path);
        DoubleStarStep(q, path);
        TrailingDoubleStars(q[1..], path);
        if path != [] {
          TrailingDoubleStars(q, path[1..]);
          PrefixDoubleStarStep(q, path);
        }
      } else {
        PathInCons(pat, path);
        PathInCons(q, path);
        if path != [] {
          TrailingDoubleStars(q[1..], path[1..]);
          PrefixSegmentStep(q, path);
        }
      }
    }
  }

  /**
   * When the matcher meets the pattern language: always, except for a pattern ending in two
   * `**` on a path that the rest of the pattern matches as a whole and in no proper prefix.
   */
  lemma GlobMatchExactlyWhen(pattern: string, path: string)
    ensures var pat, segs := SplitOn(pattern, '/'), SplitOn(path, '/');
            (GlobMatch(pattern, path) <==> PathIn(pat, segs)) <==>
            !(EndsDoubled(pat) && PathIn(pat[..|pat| - 2], segs) && !ProperPrefixIn(pat[..|pat| - 2], segs))
  {
    var pat, segs := SplitOn(pattern, '/'), SplitOn(path, '/');
    if EndsDoubled(pat) {
      var q := pat[..|pat| - 2];
      assert pat == q + ["**", "**"];
      DoubledMatchesProperPrefix(q, segs);
      TrailingDoubleStars(q, segs);
    } else {
      PartsMatchCorrect(pat, segs);
    }
  }

  lemma DoubledPatternPieces()
    ensures SplitOn("a/**/**", '/') == ["a", "**", "**"]
  {
    SplitOnPiece("a", '/', "**/**");
    SplitOnPiece("**", '/', "**");
    SplitOnSingle("**", '/');
    assert "a/**/**" == "a" + ['/'] + "**/**" && "**/**" == "**" + ['/'] + "**";
  }

  /** The failing family is inhabited: the pattern `a/**/**` does not match the path `a`. */
  lemma DoubledPatternMisses()
    ensures !GlobMatch("a/**/**", "a") && PathIn(SplitOn("a/**/**", '/'), SplitOn("a", '/'))
  {
    DoubledPatternPieces();
    SplitOnSingle("a", '/');
    assert ["a"] + ["**", "**"] == ["a", "**", "**"];
    PartsMatchCorrect(["a"], ["a"]);
    TrailingDoubleStars(["a"], ["a"]);
    DoubledMatchesProperPrefix(["a"], ["a"]);
    PathInCons(["a"], []);
    assert !ProperPrefixIn(["a"], ["a"]) by { assert forall i: nat :: i < 1 ==> ["a"][..i] == []; }
  }
}
