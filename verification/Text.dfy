/** The parts of Rust's `str` interface that the modelled code relies on. */
module Text {
  import opened Options

  /** Position of the first `c` in `s`, or `|s|` when there is none. */
  function IndexOf(s: string, c: char): (i: nat)
    ensures i <= |s|
    ensures c !in s[..i]
    ensures i < |s| ==> s[i] == c
  {
    if s == [] || s[0] == c then 0
    else
      var rest := IndexOf(s[1..], c);
      assert s[..1 + rest] == [s[0]] + s[1..][..rest];
      1 + rest
  }

  lemma {:induction false} IndexOfPrefix(a: string, c: char, b: string)
    requires c !in a
    ensures IndexOf(a + [c] + b, c) == |a|
  {
    if a == [] {
    } else {
      assert a[0] in a;
      assert (a + [c] + b)[1..] == a[1..] + [c] + b;
      IndexOfPrefix(a[1..], c, b);
    }
  }

  /** `str::split_once` on a character. */
  function SplitOnce(s: string, c: char): (r: Option<(string, string)>)
    ensures r.Some? <==> c in s
    ensures r.Some? ==> s == r.value.0 + [c] + r.value.1 && c !in r.value.0
  {
    var i := IndexOf(s, c);
    if i < |s| then Some((s[..i], s[i + 1..])) else None
  }

  /** `str::split` on a character; there is always at least one piece. */
  function SplitOn(s: string, sep: char): (pieces: seq<string>)
    ensures |pieces| >= 1
    ensures forall p :: p in pieces ==> sep !in p
  {
    if s == [] then [[]]
    else
      var rest := SplitOn(s[1..], sep);
      if s[0] == sep then [[]] + rest else [[s[0]] + rest[0]] + rest[1..]
  }

  lemma {:induction false} SplitOnPiece(a: string, sep: char, rest: string)
    requires sep !in a
    ensures SplitOn(a + [sep] + rest, sep) == [a] + SplitOn(rest, sep)
  {
    var s := a + [sep] + rest;
    if a == [] {
      assert s[1..] == rest;
    } else {
      assert s[1..] == a[1..] + [sep] + rest;
      assert s[0] == a[0] && a[0] in a;
      SplitOnPiece(a[1..], sep, rest);
      assert [a[0]] + a[1..] == a;
    }
  }

  lemma {:induction false} SplitOnSingle(a: string, sep: char)
    requires sep !in a
    ensures SplitOn(a, sep) == [a]
  {
    if a == [] {
    } else {
      assert a[0] in a;
      SplitOnSingle(a[1..], sep);
      assert [a[0]] + a[1..] == a;
    }
  }

  /** Concatenation of `parts` with `sep` between neighbours. */
  function Join(parts: seq<string>, sep: string): string {
    if |parts| == 0 then []
    else if |parts| == 1 then parts[0]
    else parts[0] + sep + Join(parts[1..], sep)
  }

  /** A line as `str::lines` yields it: one trailing carriage return removed. */
  function StripCr(line: string): string {
    if line != [] && line[|line| - 1] == '\r' then line[..|line| - 1] else line
  }

  function StripCrs(lines: seq<string>): (r: seq<string>)
    ensures |r| == |lines|
    ensures forall i :: 0 <= i < |lines| ==> r[i] == StripCr(lines[i])
  {
    if lines == [] then [] else [StripCr(lines[0])] + StripCrs(lines[1..])
  }

  /**
   * `str::lines`: pieces between newlines; only a piece that a newline ends loses its
   * carriage return, and an empty last piece is no line.
   */
  function Lines(s: string): (lines: seq<string>)
    ensures forall l :: l in lines ==> '\n' !in l
  {
    var pieces := SplitOn(s, '\n');
    var last := pieces[|pieces| - 1];
    var body := StripCrs(pieces[..|pieces| - 1]);
    assert forall i :: 0 <= i < |body| ==> '\n' !in body[i] by {
      forall i | 0 <= i < |body| ensures '\n' !in body[i] {
        assert pieces[i] in pieces;
      }
    }
    body + if last == [] then [] else [last]
  }

  lemma {:induction false} LinesFirst(line: string, rest: string)
    requires '\n' !in line
    ensures Lines(line + "\n" + rest) == [StripCr(line)] + Lines(rest)
  {
    SplitOnPiece(line, '\n', rest);
    assert line + "\n" + rest == line + ['\n'] + rest;
    var p := SplitOn(rest, '\n');
    var q := SplitOn(line + "\n" + rest, '\n');
    hide SplitOn, StripCr;
    assert q == [line] + p;
    var front := p[..|p| - 1];
    assert q[..|q| - 1] == [line] + front && q[|q| - 1] == p[|p| - 1];
    StripCrsCons(line, front);
  }

  lemma StripCrsCons(line: string, lines: seq<string>)
    ensures StripCrs([line] + lines) == [StripCr(line)] + StripCrs(lines)
  {
    hide StripCr;
  }

  lemma LinesEmpty()
    ensures Lines("") == []
  {
  }

  /** What no newline ends is a line of its own, with its carriage return. */
  lemma LinesLast(line: string)
    requires '\n' !in line && line != []
    ensures Lines(line) == [line]
  {
    SplitOnSingle(line, '\n');
    hide SplitOn;
  }

  /** `char::is_whitespace`: the Unicode White_Space characters. */
  predicate IsSpace(c: char) {
    var u := c as int;
    0x9 <= u <= 0xD || u == 0x20 || u == 0x85 || u == 0xA0 || u == 0x1680 ||
    0x2000 <= u <= 0x200A || u == 0x2028 || u == 0x2029 || u == 0x202F || u == 0x205F || u == 0x3000
  }

  lemma WhiteSpace(c: char)
    ensures IsSpace(c) <==>
            c as int in [9, 10, 11, 12, 13, 32, 133, 160, 5760, 8192, 8193, 8194, 8195, 8196, 8197, 8198, 8199, 8200, 8201,
                         8202, 8232, 8233, 8239, 8287, 12288]
  {
  }

  predicate AllSpace(s: string) {
    forall i :: 0 <= i < |s| ==> IsSpace(s[i])
  }

  function TrimStart(s: string): (r: string)
    ensures |r| <= |s|
    ensures r == s[|s| - |r|..]
    ensures r == [] || !IsSpace(r[0])
  {
    if s != [] && IsSpace(s[0]) then TrimStart(s[1..]) else s
  }

  function TrimEnd(s: string): (r: string)
    ensures |r| <= |s|
    ensures r == s[..|r|]
    ensures r == [] || !IsSpace(r[|r| - 1])
  {
    if s != [] && IsSpace(s[|s| - 1]) then
      assert s[..|s| - 1][..|TrimEnd(s[..|s| - 1])|] == s[..|TrimEnd(s[..|s| - 1])|];
      TrimEnd(s[..|s| - 1])
    else s
  }

  /** `str::trim`. */
  function Trim(s: string): (r: string)
    ensures |r| <= |s|
    ensures r == [] || (!IsSpace(r[0]) && !IsSpace(r[|r| - 1]))
  {
    TrimEnd(TrimStart(s))
  }

  /** A text that neither starts nor ends with whitespace. */
  predicate Trimmed(s: string) {
    s == [] || (!IsSpace(s[0]) && !IsSpace(s[|s| - 1]))
  }

  lemma {:induction false} TrimStartDrops(pre: string, s: string)
    requires AllSpace(pre)
    requires s == [] || !IsSpace(s[0])
    ensures TrimStart(pre + s) == s
  {
    if pre == [] {
      assert pre + s == s;
    } else {
      assert (pre + s)[1..] == pre[1..] + s;
      TrimStartDrops(pre[1..], s);
    }
  }

  lemma {:induction false} TrimEndDrops(s: string, post: string)
    requires AllSpace(post)
    requires s == [] || !IsSpace(s[|s| - 1])
    ensures TrimEnd(s + post) == s
  {
    if post == [] {
      assert s + post == s;
    } else {
      assert (s + post)[..|s + post| - 1] == s + post[..|post| - 1];
      TrimEndDrops(s, post[..|post| - 1]);
    }
  }

  /** Trimming removes surrounding whitespace and nothing else. */
  lemma {:induction false} TrimPadded(pre: string, s: string, post: string)
    requires AllSpace(pre) && AllSpace(post) && Trimmed(s)
    requires s != []
    ensures Trim(pre + s + post) == s
  {
    assert pre + s + post == pre + (s + post);
    TrimStartDrops(pre, s + post);
    TrimEndDrops(s, post);
  }

  lemma TrimTrimmed(s: string)
    requires Trimmed(s)
    ensures Trim(s) == s
  {
    if s != [] {
      TrimPadded([], s, []);
      assert [] + s + [] == s;
    }
  }

  lemma {:induction false} TrimStartRest(s: string)
    ensures AllSpace(s[..|s| - |TrimStart(s)|])
  {
    hide IsSpace;
    if s != [] && IsSpace(s[0]) {
      TrimStartRest(s[1..]);
      SpaceCons(s, TrimStart(s[1..]));
    }
  }

  lemma SpaceCons(s: string, t: string)
    requires s != [] && IsSpace(s[0]) && |t| < |s| && AllSpace(s[1..][..|s[1..]| - |t|])
    ensures AllSpace(s[..|s| - |t|])
  {
    hide IsSpace;
    assert s[..|s| - |t|] == [s[0]] + s[1..][..|s[1..]| - |t|];
  }

  lemma {:induction false} TrimEndRest(s: string)
    ensures AllSpace(s[|TrimEnd(s)|..])
  {
    hide IsSpace;
    if s != [] && IsSpace(s[|s| - 1]) {
      var n := |s| - 1;
      TrimEndRest(s[..n]);
      assert s[|TrimEnd(s)|..] == s[..n][|TrimEnd(s[..n])|..] + [s[n]];
    }
  }

  lemma {:induction false} TrimSpace(s: string)
    requires AllSpace(s)
    ensures TrimStart(s) == [] && Trim(s) == []
  {
    hide IsSpace;
    if s == [] {
    } else {
      TrimSpace(s[1..]);
    }
  }

  /** What surrounds a trimmed text is whitespace. */
  lemma TrimParts(s: string) returns (pre: string, post: string)
    ensures s == pre + Trim(s) + post && AllSpace(pre) && AllSpace(post)
  {
    hide IsSpace, AllSpace, TrimStart, TrimEnd;
    TrimStartRest(s);
    var t := TrimStart(s);
    TrimEndRest(t);
    pre, post := s[..|s| - |t|], t[|TrimEnd(t)|..];
    assert s == pre + t && t == TrimEnd(t) + post;
  }

  lemma TrimAgain(s: string, pre: string, post: string)
    requires AllSpace(pre) && AllSpace(post)
    ensures Trim(pre + s + post) == Trim(s)
  {
    var a, b := TrimParts(s);
    hide IsSpace, Trim;
    if Trim(s) == [] {
      assert pre + s + post == pre + a + b + post;
      TrimSpace(pre + s + post);
    } else {
      assert pre + s + post == (pre + a) + Trim(s) + (b + post);
      TrimPadded(pre + a, Trim(s), b + post);
    }
  }

  function WordLength(s: string): (k: nat)
    ensures k <= |s|
    ensures s != [] && !IsSpace(s[0]) ==> k >= 1
    ensures forall i :: 0 <= i < k ==> !IsSpace(s[i])
    ensures k < |s| ==> IsSpace(s[k])
  {
    if s == [] || IsSpace(s[0]) then 0 else 1 + WordLength(s[1..])
  }

  /** `str::split_whitespace`. */
  function Words(s: string): (words: seq<string>)
    decreases |s|
  {
    var t := TrimStart(s);
    if t == [] then [] else
      var k := WordLength(t);
      [t[..k]] + Words(t[k..])
  }

  /** The first word ends at the first whitespace behind it. */
  lemma WordsStep(s: string)
    requires TrimStart(s) != []
    ensures var t := TrimStart(s); WordLength(t) >= 1 && Words(s) == [t[..WordLength(t)]] + Words(t[WordLength(t)..])
  {
    hide IsSpace;
  }

  lemma {:induction false} TrimStartAppend(a: string, b: string)
    ensures TrimStart(a) != [] ==> TrimStart(a + b) == TrimStart(a) + b
    ensures TrimStart(a) == [] ==> TrimStart(a + b) == TrimStart(b)
  {
    hide IsSpace;
    if a == [] {
      assert a + b == b;
    } else if IsSpace(a[0]) {
      assert (a + b)[1..] == a[1..] + b;
      TrimStartAppend(a[1..], b);
    }
  }

  lemma {:induction false} WordLengthAppend(a: string, sp: char, b: string)
    requires IsSpace(sp)
    ensures WordLength(a + [sp] + b) == WordLength(a)
  {
    hide IsSpace;
    if a == [] || IsSpace(a[0]) {
    } else {
      assert (a + [sp] + b)[1..] == a[1..] + [sp] + b;
      WordLengthAppend(a[1..], sp, b);
    }
  }

  /** Whitespace separates words. */
  lemma {:induction false} WordsAppend(a: string, sp: char, b: string)
    requires IsSpace(sp)
    ensures Words(a + [sp] + b) == Words(a) + Words(b)
    decreases |a|
  {
    hide IsSpace, Words, TrimStart, WordLength;
    var t := TrimStart(a);
    assert a + [sp] + b == a + ([sp] + b);
    TrimStartAppend(a, [sp] + b);
    if t == [] {
      NoWords(a);
      SpaceBefore(sp, b);
      SameWords(a + [sp] + b, b);
      assert [] + Words(b) == Words(b);
    } else {
      assert t + ([sp] + b) == t + [sp] + b;
      WordLengthAppend(t, sp, b);
      WordsStep(a);
      WordsStep(a + [sp] + b);
      var k := WordLength(t);
      var all := t + [sp] + b;
      assert all[..k] == t[..k] && all[k..] == t[k..] + [sp] + b;
      WordsAppend(t[k..], sp, b);
      assert [t[..k]] + (Words(t[k..]) + Words(b)) == [t[..k]] + Words(t[k..]) + Words(b);
    }
  }

  lemma NoWords(s: string)
    requires TrimStart(s) == []
    ensures Words(s) == []
  {
  }

  lemma SpaceBefore(sp: char, b: string)
    requires IsSpace(sp)
    ensures TrimStart([sp] + b) == TrimStart(b)
  {
    hide IsSpace;
    assert ([sp] + b)[1..] == b;
  }

  lemma SameWords(a: string, b: string)
    requires TrimStart(a) == TrimStart(b)
    ensures Words(a) == Words(b)
  {
    hide IsSpace;
  }

  /** A text without whitespace is one word. */
  lemma {:induction false} OneWord(w: string)
    requires w != [] && forall i :: 0 <= i < |w| ==> !IsSpace(w[i])
    ensures Words(w) == [w]
  {
    hide IsSpace;
    assert TrimStart(w) == w;
    assert w[|w|..] == [] && w[..|w|] == w;
    assert WordLength(w) == |w|;
    NoWords([]);
    WordsStep(w);
  }

  predicate IsDigit(c: char) {
    '0' <= c <= '9'
  }

  predicate AllDigits(s: string) {
    forall i :: 0 <= i < |s| ==> IsDigit(s[i])
  }

  /** Decimal rendering of a number, as `{}` formats an unsigned integer. */
  function Dec(n: nat): (s: string)
    ensures |s| >= 1 && AllDigits(s)
    ensures Trimmed(s)
  {
    var d := [('0' as int + n % 10) as char];
    if n < 10 then d else Dec(n / 10) + d
  }

  /** Value of a digit string. */
  function DigitsValue(s: string): nat
    requires AllDigits(s)
  {
    if s == [] then 0 else DigitsValue(s[..|s| - 1]) * 10 + (s[|s| - 1] as int - '0' as int)
  }

  lemma {:induction false} DigitsValueDec(n: nat)
    ensures DigitsValue(Dec(n)) == n
  {
    var s := Dec(n);
    if n < 10 {
      assert s[..|s| - 1] == [];
    } else {
      DigitsValueDec(n / 10);
      assert s[..|s| - 1] == Dec(n / 10);
    }
  }

  lemma DecInjective(m: nat, n: nat)
    requires Dec(m) == Dec(n)
    ensures m == n
  {
    DigitsValueDec(m);
    DigitsValueDec(n);
  }

  ghost predicate Zeros(s: string) {
    forall i :: 0 <= i < |s| ==> s[i] == '0'
  }

  /** The text is the decimal rendering of the number, after any zeros. */
  ghost predicate Denotes(s: string, n: nat) {
    exists zeros :: Zeros(zeros) && s == zeros + Dec(n)
  }

  /** A digit more stands for ten times the number and the digit. */
  lemma DenotesNext(s: string, n: nat, d: nat)
    requires d < 10 && (if s == [] then n == 0 else Denotes(s, n))
    ensures Denotes(s + [('0' as int + d) as char], 10 * n + d)
  {
    var c := ('0' as int + d) as char;
    if n == 0 {
      var zeros := s;
      if s != [] {
        zeros :| Zeros(zeros) && s == zeros + Dec(0);
        assert Dec(0) == "0";
        zeros := s;
      }
      assert Zeros(zeros) && s + [c] == zeros + Dec(d);
    } else {
      var zeros :| Zeros(zeros) && s == zeros + Dec(n);
      assert Dec(10 * n + d) == Dec(n) + [c];
      assert s + [c] == zeros + Dec(10 * n + d);
    }
  }

  lemma {:induction false} DigitsDenote(s: string)
    requires s != [] && AllDigits(s)
    ensures Denotes(s, DigitsValue(s))
  {
    var k := |s| - 1;
    var d := s[k] as int - '0' as int;
    if k == 0 {
      assert DigitsValue(s[..k]) == 0;
    } else {
      DigitsDenote(s[..k]);
    }
    DenotesNext(s[..k], DigitsValue(s[..k]), d);
    assert s == s[..k] + [('0' as int + d) as char];
    hide Denotes;
  }

  lemma {:induction false} ZerosVanish(zeros: string, s: string)
    requires Zeros(zeros) && AllDigits(s)
    ensures AllDigits(zeros + s) && DigitsValue(zeros + s) == DigitsValue(s)
  {
    if s == [] {
      assert zeros + s == zeros;
      ZerosAreNothing(zeros);
    } else {
      ZerosVanish(zeros, s[..|s| - 1]);
      assert (zeros + s)[..|zeros + s| - 1] == zeros + s[..|s| - 1];
    }
  }

  lemma {:induction false} ZerosAreNothing(zeros: string)
    requires Zeros(zeros)
    ensures AllDigits(zeros) && DigitsValue(zeros) == 0
  {
    if zeros != [] { ZerosAreNothing(zeros[..|zeros| - 1]); }
  }

  /** A text is all digits with a value exactly if it is that number in decimal, after any zeros. */
  lemma DigitsExactly(s: string, n: nat)
    ensures s != [] && AllDigits(s) && DigitsValue(s) == n <==> Denotes(s, n)
  {
    if s != [] && AllDigits(s) { DigitsDenote(s); }
    if zeros :| Zeros(zeros) && s == zeros + Dec(n) {
      ZerosVanish(zeros, Dec(n));
      DigitsValueDec(n);
    }
  }

  /** The same after an optional plus sign. */
  ghost predicate DenotesSigned(s: string, n: nat) {
    Denotes(s, n) || (s != [] && s[0] == '+' && Denotes(s[1..], n))
  }

  lemma SignedExactly(s: string, n: nat)
    ensures var digits := if s != [] && s[0] == '+' then s[1..] else s;
            digits != [] && AllDigits(digits) && DigitsValue(digits) == n <==> DenotesSigned(s, n)
  {
    DigitsExactly(s, n);
    if s != [] && s[0] == '+' {
      DigitsExactly(s[1..], n);
      assert !AllDigits(s) by { assert !IsDigit(s[0]); }
    }
    hide Denotes, DigitsValue;
  }

  /** The decimal rendering has a digit for every power of ten. */
  lemma DecPlaces(n: nat)
    ensures n >= 10 ==> Dec(n) == Dec(n / 10) + Dec(n % 10)
    ensures Dec(n % 10) == ["0123456789"[n % 10]]
  {
    DecDigit(n % 10);
    hide AllDigits, Trimmed;
  }

  lemma DecDigit(d: nat)
    requires d < 10
    ensures Dec(d) == [('0' as int + d) as char] == ["0123456789"[d]]
  {
    DigitIs(d);
    hide AllDigits, Trimmed;
  }

  lemma DigitIs(d: nat)
    requires d < 10
    ensures ('0' as int + d) as char == "0123456789"[d]
  {
  }
}
