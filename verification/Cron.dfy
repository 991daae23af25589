/** Five-field cron expressions as calendar dictionaries and firing hours (`cadence.rs`). */
module Cron {
  import opened Options
  import opened Text

  // ---------- one field ----------

  const U32_LIMIT: nat := 0x1_0000_0000

  /** `str::parse::<u32>`: digits after an optional plus sign, in range. */
  function ParseU32(s: string): Option<nat> {
    var digits := if s != [] && s[0] == '+' then s[1..] else s;
    if digits != [] && AllDigits(digits) && DigitsValue(digits) < U32_LIMIT then Some(DigitsValue(digits)) else None
  }

  /** Read are exactly the decimal numbers below 4294967296, after any zeros and an optional plus sign. */
  lemma ParseU32Exactly(s: string, n: nat)
    ensures ParseU32(s) == Some(n) <==> n < 4294967296 && DenotesSigned(s, n)
  {
    SignedExactly(s, n);
    hide DenotesSigned, DigitsValue;
  }

  /** The numbers from `from` to `to` in steps. */
  function Stepped(from: nat, to: nat, step: nat): seq<nat>
    requires step > 0
    decreases if from <= to then to - from + 1 else 0
  {
    if from > to then [] else [from] + Stepped(from + step, to, step)
  }

  lemma {:induction false} SteppedMeaning(from: nat, to: nat, step: nat, v: int)
    requires step > 0
    ensures v in Stepped(from, to, step) <==> from <= v <= to && (v - from) % step == 0
    decreases if from <= to then to - from + 1 else 0
  {
    if from > to {
    } else {
      SteppedMeaning(from + step, to, step, v);
      RemainderStep(v - from, step);
      SmallRemainder(v - from, step);
      assert v - (from + step) == v - from - step;
    }
  }

  lemma SmallRemainder(d: int, step: nat)
    requires step > 0
    ensures 0 <= d < step ==> d % step == d
  {
    if 0 <= d < step { RemainderUnique(d, step, 0, d); }
  }

  lemma RemainderStep(d: int, step: nat)
    requires step > 0
    ensures (d - step) % step == d % step
  {
    var q, r := d / step, d % step;
    assert d == q * step + r;
    assert d - step == (q - 1) * step + r;
    RemainderUnique(d - step, step, q - 1, r);
  }

  lemma RemainderUnique(d: int, step: nat, q: int, r: int)
    requires step > 0 && d == q * step + r && 0 <= r < step
    ensures d % step == r
  {
    var q', r' := d / step, d % step;
    assert d == q' * step + r' && 0 <= r' < step;
    var x := q - q';
    assert x * step == r' - r by { assert x * step == q * step - q' * step; }
    if x >= 1 {
      assert x * step == (x - 1) * step + step;
    } else if x <= -1 {
      assert x * step == (x + 1) * step - step;
    }
  }

  /** One comma-separated part: a step over the whole range, a range, or a number. */
  function ExpandPart(part: string, min: nat, max: nat): Option<seq<nat>> {
    if "*/" <= part then
      match ParseU32(part[2..])
      case None => None
      case Some(step) => if step == 0 then None else Some(Stepped(min, max, step))
    else
      match SplitOnce(part, '-')
      case Some((a, b)) =>
        if ParseU32(a).None? || ParseU32(b).None? then None
        else Some(Stepped(ParseU32(a).value, ParseU32(b).value, 1))
      case None =>
        match ParseU32(part)
        case None => None
        case Some(v) => Some([v])
  }

  function ExpandParts(parts: seq<string>, min: nat, max: nat): Option<seq<nat>> {
    if parts == [] then Some([]) else
    match ExpandPart(parts[0], min, max)
    case None => None
    case Some(values) =>
      match ExpandParts(parts[1..], min, max)
      case None => None
      case Some(rest) => Some(values + rest)
  }

  /** An empty expansion stands for every value. */
  function Expand(s: string, min: nat, max: nat): Option<seq<nat>> {
    if s == "*" then Some([]) else ExpandParts(SplitOn(s, ','), min, max)
  }

  /** The parts before `values` were collected; `rest` is what the others give. */
  function Prefixed(values: seq<nat>, rest: Option<seq<nat>>): Option<seq<nat>> {
    match rest case None => None case Some(r) => Some(values + r)
  }

  lemma PrefixedTwice(a: seq<nat>, b: seq<nat>, rest: Option<seq<nat>>)
    ensures Prefixed(a, Prefixed(b, rest)) == Prefixed(a + b, rest)
    ensures Prefixed([], rest) == rest
  {
    if rest.Some? {
      assert a + (b + rest.value) == a + b + rest.value;
      assert [] + rest.value == rest.value;
    }
  }

  method ExpandCronField(s: string, min: nat, max: nat) returns (r: Option<seq<nat>>)
    ensures r == Expand(s, min, max)
  {
    if s == "*" {
      return Some([]);
    }
    var parts := SplitOn(s, ',');
    var values: seq<nat> := [];
    assert parts[0..] == parts;
    PrefixedTwice([], [], ExpandParts(parts, min, max));
    for i := 0 to |parts|
      invariant ExpandParts(parts, min, max) == Prefixed(values, ExpandParts(parts[i..], min, max))
    {
      assert parts[i..][0] == parts[i] && parts[i..][1..] == parts[i + 1..];
      var part := ExpandPart(parts[i], min, max);
      if part.None? {
        return None;
      }
      PrefixedTwice(values, part.value, ExpandParts(parts[i + 1..], min, max));
      values := values + part.value;
    }
    assert parts[|parts|..] == [] && values + [] == values;
    return Some(values);
  }

  /** What one part admits, said without listing values. */
  predicate PartAdmits(part: string, min: nat, max: nat, v: int) {
    if "*/" <= part then
      var step := ParseU32(part[2..]);
      step.Some? && step.value > 0 && min <= v <= max && (v - min) % step.value == 0
    else
      match SplitOnce(part, '-')
      case Some((a, b)) => ParseU32(a).Some? && ParseU32(b).Some? && ParseU32(a).value <= v <= ParseU32(b).value
      case None => ParseU32(part).Some? && ParseU32(part).value == v
  }

  lemma ExpandPartMeaning(part: string, min: nat, max: nat, v: int)
    requires ExpandPart(part, min, max).Some?
    ensures v in ExpandPart(part, min, max).value <==> PartAdmits(part, min, max, v)
  {
    hide ParseU32, Stepped;
    if "*/" <= part {
      SteppedMeaning(min, max, ParseU32(part[2..]).value, v);
    } else if SplitOnce(part, '-').Some? {
      var (a, b) := SplitOnce(part, '-').value;
      SteppedMeaning(ParseU32(a).value, ParseU32(b).value, 1, v);
    }
  }

  lemma {:induction false} ExpandPartsMeaning(parts: seq<string>, min: nat, max: nat, v: int)
    requires ExpandParts(parts, min, max).Some?
    ensures v in ExpandParts(parts, min, max).value <==> exists p :: p in parts && PartAdmits(p, min, max, v)
  {
    hide ExpandPart, PartAdmits;
    if parts == [] {
    } else {
      ExpandPartMeaning(parts[0], min, max, v);
      ExpandPartsMeaning(parts[1..], min, max, v);
      assert forall p :: p in parts <==> p == parts[0] || p in parts[1..];
    }
  }

  /** A field's expansion holds exactly the values that some comma-separated part admits. */
  lemma ExpandMeaning(s: string, min: nat, max: nat, v: int)
    requires Expand(s, min, max).Some?
    ensures v in Expand(s, min, max).value <==>
            s != "*" && exists p :: p in SplitOn(s, ',') && PartAdmits(p, min, max, v)
  {
    if s != "*" { ExpandPartsMeaning(SplitOn(s, ','), min, max, v); }
  }

  /** A part that can be read: a positive step, a range, or a number. */
  predicate PartOk(part: string) {
    if "*/" <= part then ParseU32(part[2..]).Some? && ParseU32(part[2..]).value > 0
    else
      match SplitOnce(part, '-')
      case Some((a, b)) => ParseU32(a).Some? && ParseU32(b).Some?
      case None => ParseU32(part).Some?
  }

  predicate FieldOk(word: string) {
    word == "*" || forall p :: p in SplitOn(word, ',') ==> PartOk(p)
  }

  /** Some comma-separated part of the word admits the value. */
  predicate Lists(word: string, min: nat, max: nat, v: int) {
    word != "*" && exists p :: p in SplitOn(word, ',') && PartAdmits(p, min, max, v)
  }

  /** The word admits the value, or it admits none at all. */
  ghost predicate Fits(word: string, min: nat, max: nat, v: int) {
    Lists(word, min, max, v) || forall u :: !Lists(word, min, max, u)
  }

  lemma {:induction false} PartsOk(parts: seq<string>, min: nat, max: nat)
    ensures ExpandParts(parts, min, max).Some? <==> forall p :: p in parts ==> PartOk(p)
  {
    if parts == [] {
    } else {
      PartsOk(parts[1..], min, max);
      assert ExpandPart(parts[0], min, max).Some? <==> PartOk(parts[0]) by { hide ParseU32, Stepped; }
      hide ExpandPart, PartOk;
      assert forall p :: p in parts <==> p == parts[0] || p in parts[1..];
    }
  }

  /** A field can be expanded exactly if all its parts can be read, and its values are those that the parts admit. */
  lemma ExpandExactly(word: string, min: nat, max: nat)
    ensures Expand(word, min, max).Some? <==> FieldOk(word)
    ensures Expand(word, min, max).Some? ==> forall v :: v in Expand(word, min, max).value <==> Lists(word, min, max, v)
    ensures Expand(word, min, max) == Some([]) ==> forall v :: Fits(word, min, max, v)
    ensures Expand(word, min, max).Some? && Expand(word, min, max).value != [] ==>
      forall v :: Fits(word, min, max, v) <==> v in Expand(word, min, max).value
  {
    if word != "*" { PartsOk(SplitOn(word, ','), min, max); }
    if Expand(word, min, max).Some? {
      forall v: int { ExpandMeaning(word, min, max, v); }
      var values := Expand(word, min, max).value;
      assert forall v :: v in values <==> Lists(word, min, max, v);
      hide Expand, Lists;
      if values != [] { assert values[0] in values; }
    }
  }

  /** A field restricts the time to the values it lists, as documented, exactly if it is the wildcard or lists some value. */
  lemma ListedOnlyExactlyWhen(word: string, min: nat, max: nat)
    ensures (forall v :: Fits(word, min, max, v) <==> word == "*" || Lists(word, min, max, v)) <==>
            word == "*" || exists u :: Lists(word, min, max, u)
  {
    hide PartAdmits;
    if word != "*" && forall u :: !Lists(word, min, max, u) { assert Fits(word, min, max, 0); }
  }

  lemma ReversedRange()
    ensures FieldOk("5-3") && forall v :: Fits("5-3", 0, 23, v)
  {
    var word := "5-3";
    assert ParseU32("5") == Some(5) && ParseU32("3") == Some(3) by {
      assert "5"[..0] == [] && "3"[..0] == [];
    }
    SplitOnSingle(word, ',');
    IndexOfPrefix("5", '-', "3");
    assert "5" + ['-'] + "3" == word && word[..1] == "5" && word[2..] == "3";
    assert SplitOnce(word, '-') == Some(("5", "3"));
    hide ParseU32, SplitOnce, SplitOn;
    forall u ensures !Lists(word, 0, 23, u) {
      forall p | p in SplitOn(word, ',') ensures !PartAdmits(p, 0, 23, u) { assert p == word; }
    }
  }

  // ---------- calendar dictionaries ----------

  datatype Field = Minute | Hour | Day | Month | Weekday

  const FIELDS := [Minute, Hour, Day, Month, Weekday]
  const LOWEST: seq<nat> := [0, 0, 1, 1, 0]
  const HIGHEST: seq<nat> := [59, 23, 31, 12, 6]

  type Dict = map<Field, int>

  /** The expansions of the five fields, when all of them can be expanded. */
  ghost predicate Expansions(cron: string, exps: seq<seq<nat>>) {
    |Words(cron)| == 5 && |exps| == 5 &&
    forall i :: 0 <= i < 5 ==> Expand(Words(cron)[i], LOWEST[i], HIGHEST[i]) == Some(exps[i])
  }

  function Row(e: Dict, key: Field, vals: seq<nat>): (r: seq<Dict>)
    ensures |r| == |vals|
    ensures forall i :: 0 <= i < |vals| ==> r[i] == e[key := vals[i]]
  {
    seq(|vals|, i requires 0 <= i < |vals| => e[key := vals[i]])
  }

  /** Every entry with every value. */
  function Cross(entries: seq<Dict>, key: Field, vals: seq<nat>): (r: seq<Dict>)
    ensures |r| == |entries| * |vals|
  {
    if entries == [] then [] else
      var rest := Cross(entries[1..], key, vals);
      assert |entries| * |vals| == |vals| + (|entries| - 1) * |vals|;
      Row(entries[0], key, vals) + rest
  }

  lemma {:induction false} CrossSnoc(entries: seq<Dict>, e: Dict, key: Field, vals: seq<nat>)
    ensures Cross(entries + [e], key, vals) == Cross(entries, key, vals) + Row(e, key, vals)
  {
    if entries == [] {
      assert entries + [e] == [e] && [e][1..] == [];
      assert Row(e, key, vals) + [] == Row(e, key, vals);
    } else {
      assert (entries + [e])[1..] == entries[1..] + [e];
      CrossSnoc(entries[1..], e, key, vals);
      assert Row(entries[0], key, vals) + (Cross(entries[1..], key, vals) + Row(e, key, vals)) ==
             (Row(entries[0], key, vals) + Cross(entries[1..], key, vals)) + Row(e, key, vals);
    }
  }

  /** The dictionaries after the first `i` fields; a wildcard field adds nothing. */
  function Entries(exps: seq<seq<nat>>, i: nat): (r: seq<Dict>)
    requires i <= |exps| == 5
    ensures |r| >= 1
  {
    if i == 0 then [map[]]
    else if exps[i - 1] == [] then Entries(exps, i - 1)
    else
      var before := Entries(exps, i - 1);
      assert |before| * |exps[i - 1]| >= 1 * 1 by { PositiveProduct(|before|, |exps[i - 1]|); }
      Cross(before, FIELDS[i - 1], exps[i - 1])
  }

  lemma PositiveProduct(a: nat, b: nat)
    requires a >= 1 && b >= 1
    ensures a * b >= 1
  {
  }

  function ProductOfSizes(exps: seq<seq<nat>>, i: nat): nat
    requires i <= |exps|
  {
    if i == 0 then 1 else ProductOfSizes(exps, i - 1) * if exps[i - 1] == [] then 1 else |exps[i - 1]|
  }

  /** Before the all-wildcard case is singled out there is one dictionary per combination. */
  lemma {:induction false} EntriesCount(exps: seq<seq<nat>>, i: nat)
    requires i <= |exps| == 5
    ensures |Entries(exps, i)| == ProductOfSizes(exps, i)
  {
    if i == 0 {
    } else {
      EntriesCount(exps, i - 1);
    }
  }

  method CrossField(entries: seq<Dict>, key: Field, vals: seq<nat>) returns (out: seq<Dict>)
    ensures out == Cross(entries, key, vals)
  {
    out := [];
    for i := 0 to |entries|
      invariant out == Cross(entries[..i], key, vals)
    {
      ghost var before := out;
      for j := 0 to |vals|
        invariant out == before + Row(entries[i], key, vals[..j])
      {
        assert Row(entries[i], key, vals[..j + 1]) == Row(entries[i], key, vals[..j]) + [entries[i][key := vals[j]]];
        out := out + [entries[i][key := vals[j]]];
      }
      assert vals[..|vals|] == vals;
      assert entries[..i + 1] == entries[..i] + [entries[i]];
      CrossSnoc(entries[..i], entries[i], key, vals);
    }
    assert entries[..|entries|] == entries;
  }

  /** No dictionary at all means that every time fires. */
  method CronToStartCalendarIntervals(cron: string) returns (r: Option<seq<Dict>>, ghost exps: seq<seq<nat>>)
    ensures r.Some? <==> exists e :: Expansions(cron, e)
    ensures r.Some? ==> Expansions(cron, exps) &&
                        r.value == if Entries(exps, 5) == [map[]] then [] else Entries(exps, 5)
    ensures r.Some? <==> |Words(cron)| == 5 && forall i :: 0 <= i < 5 ==> FieldOk(Words(cron)[i])
    ensures r.Some? ==> forall t: Field -> int :: Fires(r.value, t) <==> TimeFits(Words(cron), t)
  {
    hide Words, FieldOk, Fires, TimeFits;
    OkayWords(cron);
    var parts := Words(cron);
    exps := [[], [], [], [], []];
    if |parts| != 5 {
      return None, exps;
    }
    var entries: seq<Dict> := [map[]];
    for i := 0 to 5
      invariant |exps| == 5
      invariant forall j :: 0 <= j < i ==> Expand(parts[j], LOWEST[j], HIGHEST[j]) == Some(exps[j])
      invariant entries == Entries(exps, i)
    {
      var vals := ExpandCronField(parts[i], LOWEST[i], HIGHEST[i]);
      if vals.None? {
        return None, exps;
      }
      EntriesStable(exps, exps[i := vals.value], i);
      exps := exps[i := vals.value];
      if vals.value != [] {
        entries := CrossField(entries, FIELDS[i], vals.value);
      }
    }
    assert Expansions(cron, exps);
    forall t: Field -> int { FiresWhenFits(cron, exps, t); }
    if |entries| == 1 && entries[0] == map[] {
      return Some([]), exps;
    }
    return Some(entries), exps;
  }

  lemma {:induction false} EntriesStable(a: seq<seq<nat>>, b: seq<seq<nat>>, i: nat)
    requires i <= |a| == |b| == 5 && forall j :: 0 <= j < i ==> a[j] == b[j]
    ensures Entries(a, i) == Entries(b, i)
  {
    if i == 0 {
    } else {
      EntriesStable(a, b, i - 1);
    }
  }

  // ---------- what the dictionaries mean ----------

  ghost predicate Agrees(d: Dict, t: Field -> int) {
    forall k :: k in d ==> d[k] == t(k)
  }

  ghost predicate SomeAgrees(dicts: seq<Dict>, t: Field -> int) {
    exists d :: d in dicts && Agrees(d, t)
  }

  /** The scheduler fires at `t`. */
  ghost predicate Fires(dicts: seq<Dict>, t: Field -> int) {
    dicts == [] || SomeAgrees(dicts, t)
  }

  predicate LacksKey(entries: seq<Dict>, key: Field) {
    forall i :: 0 <= i < |entries| ==> key !in entries[i]
  }

  lemma RowAgrees(e: Dict, key: Field, vals: seq<nat>, t: Field -> int)
    requires key !in e
    ensures SomeAgrees(Row(e, key, vals), t) <==> Agrees(e, t) && t(key) in vals
  {
    forall i | 0 <= i < |vals| ensures Agrees(e[key := vals[i]], t) <==> Agrees(e, t) && t(key) == vals[i] {
      var d := e[key := vals[i]];
      assert forall k :: k in d <==> k == key || k in e;
      if Agrees(d, t) {
        forall k | k in e ensures e[k] == t(k) { assert d[k] == e[k]; }
        assert d[key] == vals[i];
      }
    }
    if Agrees(e, t) && t(key) in vals {
      var i :| 0 <= i < |vals| && vals[i] == t(key);
      assert Row(e, key, vals)[i] in Row(e, key, vals);
    }
  }

  lemma SomeAgreesAppend(a: seq<Dict>, b: seq<Dict>, t: Field -> int)
    ensures SomeAgrees(a + b, t) <==> SomeAgrees(a, t) || SomeAgrees(b, t)
  {
    assert forall d :: d in a + b <==> d in a || d in b;
  }

  lemma {:induction false} CrossAgrees(entries: seq<Dict>, key: Field, vals: seq<nat>, t: Field -> int)
    requires LacksKey(entries, key)
    ensures SomeAgrees(Cross(entries, key, vals), t) <==> SomeAgrees(entries, t) && t(key) in vals
  {
    if entries == [] {
    } else {
      RowAgrees(entries[0], key, vals, t);
      CrossAgrees(entries[1..], key, vals, t);
      hide Row;
      SomeAgreesAppend(Row(entries[0], key, vals), Cross(entries[1..], key, vals), t);
      SomeAgreesAppend([entries[0]], entries[1..], t);
      assert [entries[0]] + entries[1..] == entries;
    }
  }

  ghost predicate HasOnly(entries: seq<Dict>, i: nat)
    requires i <= 5
  {
    forall d, k :: d in entries && k in d ==> exists j :: 0 <= j < i && FIELDS[j] == k
  }

  lemma {:induction false} CrossKeys(entries: seq<Dict>, key: Field, vals: seq<nat>)
    ensures forall d, k :: d in Cross(entries, key, vals) && k in d ==> k == key || exists e :: e in entries && k in e
    ensures forall d :: d in Cross(entries, key, vals) ==> key in d
  {
    if entries == [] {
    } else {
      CrossKeys(entries[1..], key, vals);
      forall d, k | d in Cross(entries, key, vals) && k in d ensures k == key || exists e :: e in entries && k in e {
        if d in Row(entries[0], key, vals) && k != key { assert k in entries[0]; }
      }
    }
  }

  lemma {:induction false} EntriesKeys(exps: seq<seq<nat>>, i: nat)
    requires i <= |exps| == 5
    ensures HasOnly(Entries(exps, i), i)
    ensures i < 5 ==> LacksKey(Entries(exps, i), FIELDS[i])
  {
    var entries := Entries(exps, i);
    if i == 0 {
    } else {
      EntriesKeys(exps, i - 1);
      if exps[i - 1] != [] {
        CrossKeys(Entries(exps, i - 1), FIELDS[i - 1], exps[i - 1]);
      }
      hide Entries;
      forall d, k | d in entries && k in d ensures exists j :: 0 <= j < i && FIELDS[j] == k {
        if k != FIELDS[i - 1] {
          var e :| e in Entries(exps, i - 1) && k in e;
          var j :| 0 <= j < i - 1 && FIELDS[j] == k;
        }
      }
    }
    if i < 5 {
      forall m | 0 <= m < |entries| ensures FIELDS[i] !in entries[m] {
        assert entries[m] in entries;
        assert forall j :: 0 <= j < i ==> FIELDS[j] != FIELDS[i];
      }
    }
  }

  lemma {:induction false} EntriesAgree(exps: seq<seq<nat>>, i: nat, t: Field -> int)
    requires i <= |exps| == 5
    ensures SomeAgrees(Entries(exps, i), t) <==> forall j :: 0 <= j < i ==> exps[j] == [] || t(FIELDS[j]) in exps[j]
  {
    if i == 0 {
      var none: Dict := map[];
      assert none in [none] && Agrees(none, t);
    } else {
      EntriesAgree(exps, i - 1, t);
      EntriesKeys(exps, i - 1);
      if exps[i - 1] != [] {
        CrossAgrees(Entries(exps, i - 1), FIELDS[i - 1], exps[i - 1], t);
      }
      hide SomeAgrees;
    }
  }

  /**
   * A successful conversion fires at a time exactly when every field with a non-empty
   * expansion contains that time's value.
   */
  lemma FiresExactlyWhen(exps: seq<seq<nat>>, t: Field -> int)
    requires |exps| == 5
    ensures var dicts := if Entries(exps, 5) == [map[]] then [] else Entries(exps, 5);
            Fires(dicts, t) <==> forall j :: 0 <= j < 5 ==> exps[j] == [] || t(FIELDS[j]) in exps[j]
  {
    EntriesAgree(exps, 5, t);
    if Entries(exps, 5) == [map[]] {
      var none: Dict := map[];
      assert none in Entries(exps, 5) && Agrees(none, t);
    }
  }

  /** The minute fits word 0, the hour word 1, the day word 2, the month word 3, and the weekday word 4. */
  ghost predicate TimeFits(words: seq<string>, t: Field -> int)
    requires |words| == 5
  {
    Fits(words[0], 0, 59, t(Minute)) && Fits(words[1], 0, 23, t(Hour)) && Fits(words[2], 1, 31, t(Day)) &&
    Fits(words[3], 1, 12, t(Month)) && Fits(words[4], 0, 6, t(Weekday))
  }

  lemma FieldFires(word: string, min: nat, max: nat, exp: seq<nat>, v: int)
    requires Expand(word, min, max) == Some(exp)
    ensures exp == [] || v in exp <==> Fits(word, min, max, v)
  {
    ExpandExactly(word, min, max);
    hide Expand, Fits;
  }

  lemma ExpandedFields(cron: string, exps: seq<seq<nat>>)
    requires Expansions(cron, exps)
    ensures |Words(cron)| == 5 && |exps| == 5 &&
            Expand(Words(cron)[0], 0, 59) == Some(exps[0]) && Expand(Words(cron)[1], 0, 23) == Some(exps[1]) &&
            Expand(Words(cron)[2], 1, 31) == Some(exps[2]) && Expand(Words(cron)[3], 1, 12) == Some(exps[3]) &&
            Expand(Words(cron)[4], 0, 6) == Some(exps[4])
  {
    hide Words, Expand;
    forall i | 0 <= i < 5 ensures Expand(Words(cron)[i], LOWEST[i], HIGHEST[i]) == Some(exps[i]) {}
  }

  lemma FiveFields(exps: seq<seq<nat>>, t: Field -> int)
    requires |exps| == 5
    ensures (forall j :: 0 <= j < 5 ==> exps[j] == [] || t(FIELDS[j]) in exps[j]) <==>
            (exps[0] == [] || t(Minute) in exps[0]) && (exps[1] == [] || t(Hour) in exps[1]) &&
            (exps[2] == [] || t(Day) in exps[2]) && (exps[3] == [] || t(Month) in exps[3]) &&
            (exps[4] == [] || t(Weekday) in exps[4])
  {
    assert FIELDS[0] == Minute && FIELDS[1] == Hour && FIELDS[2] == Day && FIELDS[3] == Month && FIELDS[4] == Weekday;
  }

  /** The dictionaries of an expression fire at a time exactly if the time fits its words. */
  lemma FiresWhenFits(cron: string, exps: seq<seq<nat>>, t: Field -> int)
    requires Expansions(cron, exps)
    ensures var dicts := if Entries(exps, 5) == [map[]] then [] else Entries(exps, 5);
            |Words(cron)| == 5 && (Fires(dicts, t) <==> TimeFits(Words(cron), t))
  {
    hide *;
    ExpandedFields(cron, exps);
    FiresExactlyWhen(exps, t);
    FiveFields(exps, t);
    FieldFires(Words(cron)[0], 0, 59, exps[0], t(Minute));
    FieldFires(Words(cron)[1], 0, 23, exps[1], t(Hour));
    FieldFires(Words(cron)[2], 1, 31, exps[2], t(Day));
    FieldFires(Words(cron)[3], 1, 12, exps[3], t(Month));
    FieldFires(Words(cron)[4], 0, 6, exps[4], t(Weekday));
    assert TimeFits(Words(cron), t) <==>
      Fits(Words(cron)[0], 0, 59, t(Minute)) && Fits(Words(cron)[1], 0, 23, t(Hour)) && Fits(Words(cron)[2], 1, 31, t(Day)) &&
      Fits(Words(cron)[3], 1, 12, t(Month)) && Fits(Words(cron)[4], 0, 6, t(Weekday)) by { TimeFitsIs(Words(cron), t); }
  }

  lemma TimeFitsIs(words: seq<string>, t: Field -> int)
    requires |words| == 5
    ensures TimeFits(words, t) <==>
      Fits(words[0], 0, 59, t(Minute)) && Fits(words[1], 0, 23, t(Hour)) && Fits(words[2], 1, 31, t(Day)) &&
      Fits(words[3], 1, 12, t(Month)) && Fits(words[4], 0, 6, t(Weekday))
  {
    hide Fits;
  }

  lemma OkayWords(cron: string)
    ensures (exists e :: Expansions(cron, e)) <==>
            |Words(cron)| == 5 && forall i :: 0 <= i < 5 ==> FieldOk(Words(cron)[i])
  {
    var words := Words(cron);
    hide Words, Expand, FieldOk;
    if |words| == 5 {
      forall i | 0 <= i < 5 { ExpandExactly(words[i], LOWEST[i], HIGHEST[i]); }
      if forall i :: 0 <= i < 5 ==> FieldOk(words[i]) {
        var e := seq(5, i requires 0 <= i < 5 => Expand(words[i], LOWEST[i], HIGHEST[i]).value);
        assert Expansions(cron, e);
      }
    }
  }

  // ---------- firing hours ----------

  method MarkHours(hours: seq<nat>) returns (fires: seq<bool>)
    ensures |fires| == 24
    ensures forall h :: 0 <= h < 24 ==> (fires[h] <==> h in hours)
  {
    fires := seq(24, i => false);
    for i := 0 to |hours|
      invariant |fires| == 24
      invariant forall h :: 0 <= h < 24 ==> (fires[h] <==> h in hours[..i])
    {
      assert hours[..i + 1] == hours[..i] + [hours[i]];
      if hours[i] < 24 {
        fires := fires[hours[i] := true];
      }
    }
    assert hours[..|hours|] == hours;
  }

  /** The hour field of the expression admits hour `h`. */
  ghost predicate HourFires(cron: string, h: int) {
    |Words(cron)| == 5 &&
    match Expand(Words(cron)[1], 0, 23)
    case None => false
    case Some(hours) => hours == [] || h in hours
  }

  /** Which of the 24 hours fire; none when the expression is malformed. */
  method FiringHours(cron: string) returns (fires: seq<bool>)
    ensures |fires| == 24
    ensures forall h :: 0 <= h < 24 ==> (fires[h] <==> HourFires(cron, h))
    ensures forall h :: 0 <= h < 24 ==>
      (fires[h] <==> |Words(cron)| == 5 && FieldOk(Words(cron)[1]) && Fits(Words(cron)[1], 0, 23, h))
  {
    if |Words(cron)| == 5 { ExpandExactly(Words(cron)[1], 0, 23); }
    hide Words, Expand, Fits, FieldOk;
    var parts := Words(cron);
    if |parts| != 5 {
      return seq(24, i => false);
    }
    var expanded := ExpandCronField(parts[1], 0, 23);
    if expanded.None? {
      return seq(24, i => false);
    }
    fires := MarkHours(if expanded.value == [] then Stepped(0, 23, 1) else expanded.value);
    forall h | 0 <= h < 24 ensures h in Stepped(0, 23, 1) { SteppedMeaning(0, 23, 1, h); }
  }

  ghost predicate AdmitsHour(dicts: seq<Dict>, h: int) {
    dicts == [] || exists d :: d in dicts && (Hour in d ==> d[Hour] == h)
  }

  lemma {:induction false} CrossHours(entries: seq<Dict>, key: Field, vals: seq<nat>, h: int)
    requires vals != [] && LacksKey(entries, key)
    ensures (exists d :: d in Cross(entries, key, vals) && (Hour in d ==> d[Hour] == h)) <==>
            (exists d :: d in entries && (Hour in d ==> d[Hour] == h)) && (key == Hour ==> h in vals)
  {
    if entries == [] {
    } else {
      CrossHours(entries[1..], key, vals, h);
      var row := Row(entries[0], key, vals);
      assert forall d :: d in Cross(entries, key, vals) <==> d in row || d in Cross(entries[1..], key, vals);
      assert forall d :: d in entries <==> d == entries[0] || d in entries[1..];
      RowHours(entries[0], key, vals, h);
      hide Row, Cross;
    }
  }

  lemma RowHours(e: Dict, key: Field, vals: seq<nat>, h: int)
    requires vals != [] && key !in e
    ensures (exists d :: d in Row(e, key, vals) && (Hour in d ==> d[Hour] == h)) <==>
            (Hour in e ==> e[Hour] == h) && (key == Hour ==> h in vals)
  {
    var row := Row(e, key, vals);
    if (Hour in e ==> e[Hour] == h) && (key == Hour ==> h in vals) {
      var i :| 0 <= i < |vals| && (key == Hour ==> vals[i] == h);
      assert row[i] in row;
    }
  }

  lemma {:induction false} EntriesHours(exps: seq<seq<nat>>, i: nat, h: int)
    requires i <= |exps| == 5
    ensures (exists d :: d in Entries(exps, i) && (Hour in d ==> d[Hour] == h)) <==>
            (i >= 2 ==> exps[1] == [] || h in exps[1])
  {
    if i == 0 {
      var none: Dict := map[];
      assert none in Entries(exps, 0) && Hour !in none;
    } else {
      EntriesHours(exps, i - 1, h);
      EntriesKeys(exps, i - 1);
      assert FIELDS[i - 1] == Hour <==> i == 2;
      if exps[i - 1] != [] {
        CrossHours(Entries(exps, i - 1), FIELDS[i - 1], exps[i - 1], h);
      }
      hide Cross;
    }
  }

  /** The hours shown as firing are those that some dictionary admits. */
  lemma FiringHoursAgree(cron: string, exps: seq<seq<nat>>, h: int)
    requires Expansions(cron, exps) && 0 <= h < 24
    ensures var dicts := if Entries(exps, 5) == [map[]] then [] else Entries(exps, 5);
            AdmitsHour(dicts, h) <==> HourFires(cron, h)
  {
    hide Words, Expand;
    EntriesHours(exps, 5, h);
    assert Expand(Words(cron)[1], LOWEST[1], HIGHEST[1]) == Some(exps[1]);
    if Entries(exps, 5) == [map[]] {
      var none: Dict := map[];
      assert none in Entries(exps, 5);
    }
  }
}
