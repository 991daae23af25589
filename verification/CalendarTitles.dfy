/** The title grammar of managed calendar events and their identity lines (`parse.rs`). */
module CalendarTitles {
  import opened Options
  import opened Text

  datatype EventKind =
    | Window(tags: seq<string>)
    | Blocked
    | Decision(tag: Option<string>, subject: string)
    | Test(tag: Option<string>, subject: string)
    | Review(tag: Option<string>, subject: string)
    | Unknown
  {
    predicate IsScheduledItem() {
      Decision? || Test? || Review?
    }
  }

  const LEAD := "[conductr:"

  function NonEmptyTrimmed(pieces: seq<string>): (tags: seq<string>)
    ensures forall t :: t in tags ==> t != []
  {
    if pieces == [] then []
    else (if Trim(pieces[0]) == [] then [] else [Trim(pieces[0])]) + NonEmptyTrimmed(pieces[1..])
  }

  /** The kind that the bracket content and the text behind the bracket name. */
  function KindOf(inner: string, after: string): EventKind {
    if inner == "window" then Window([])
    else if "window:" <= inner then Window(NonEmptyTrimmed(SplitOn(inner[7..], ',')))
    else if inner == "blocked" then Blocked
    else
      ItemOf(if inner == "*" then None else Some(inner), after)
  }

  /** The kind that the text behind the bracket names. */
  function ItemOf(tag: Option<string>, after: string): EventKind {
    if "decision:" <= after then Decision(tag, Trim(after[9..]))
    else if "test:" <= after then Test(tag, Trim(after[5..]))
    else if "review:" <= after then Review(tag, Trim(after[7..]))
    else Unknown
  }

  function ParseEventTitle(title: string): EventKind {
    if !(LEAD <= title) then Unknown else
    var close := IndexOf(title, ']');
    if close == |title| then Unknown else
    var content := title[1..if close >= 1 then close else 1];
    if !("conductr:" <= content) then Unknown
    else KindOf(content[9..], Trim(title[close + 1..]))
  }

  /** The tags that the text behind `window:` lists: its pieces between commas, trimmed, without the empty ones. */
  ghost predicate TagsOfText(tags: seq<string>, list: string) {
    forall t :: t in tags <==> t != [] && exists p :: p in SplitOn(list, ',') && Trim(p) == t
  }

  lemma {:induction false} TagsExactly(pieces: seq<string>)
    ensures forall t :: t in NonEmptyTrimmed(pieces) <==> t != [] && exists p :: p in pieces && Trim(p) == t
  {
    hide Trim;
    if pieces == [] {
    } else {
      TagsExactly(pieces[1..]);
      assert pieces == [pieces[0]] + pieces[1..];
    }
  }

  /** The text behind the bracket says what is scheduled. */
  ghost predicate Schedules(k: EventKind, tag: Option<string>, after: string) {
    (k.Decision? <==> "decision:" <= after) && (k.Decision? ==> k == Decision(tag, Trim(after[9..]))) &&
    (k.Test? <==> "test:" <= after) && (k.Test? ==> k == Test(tag, Trim(after[5..]))) &&
    (k.Review? <==> "review:" <= after) && (k.Review? ==> k == Review(tag, Trim(after[7..]))) &&
    !k.Window? && !k.Blocked?
  }

  /** What the bracket and the text behind it amount to: a window, a blocker, or what is scheduled under a tag. */
  ghost predicate Means(k: EventKind, inner: string, after: string) {
    if inner == "window" then k == Window([])
    else if "window:" <= inner then k.Window? && TagsOfText(k.tags, inner[7..])
    else if inner == "blocked" then k == Blocked
    else Schedules(k, if inner == "*" then None else Some(inner), after)
  }

  lemma ItemMeans(tag: Option<string>, after: string)
    ensures Schedules(ItemOf(tag, after), tag, after)
  {
    hide Trim;
    if after != [] { assert after[0] in {'d', 't', 'r'} || ItemOf(tag, after) == Unknown; }
  }

  lemma TagsMean(list: string)
    ensures TagsOfText(NonEmptyTrimmed(SplitOn(list, ',')), list)
  {
    TagsExactly(SplitOn(list, ','));
    hide NonEmptyTrimmed, SplitOn, Trim;
  }

  lemma KindMeans(inner: string, after: string)
    ensures Means(KindOf(inner, after), inner, after)
  {
    ItemMeans(if inner == "*" then None else Some(inner), after);
    if "window:" <= inner { TagsMean(inner[7..]); }
    hide Trim, SplitOn, ItemOf, Schedules, NonEmptyTrimmed, TagsOfText;
  }

  /**
   * A title that starts with a bracket that names this tool means what the bracket, up to its first end, and the trimmed
   * text behind it say; any other title means nothing.
   */
  lemma TitleExactly(title: string, inner: string, rest: string)
    ensures title == "[conductr:" + inner + "]" + rest && ']' !in inner ==>
      Means(ParseEventTitle(title), inner, Trim(rest))
    ensures (forall x, y :: ']' !in x ==> title != "[conductr:" + x + "]" + y) ==> ParseEventTitle(title) == Unknown
  {
    KindMeans(inner, Trim(rest));
    hide KindOf, Trim, Means;
    if title == "[conductr:" + inner + "]" + rest && ']' !in inner {
      var head := LEAD + inner;
      IndexOfPrefix(head, ']', rest);
      BracketParts(inner, rest);
      assert head + [']'] + rest == title;
      ParsedAt(title, |head|, inner, rest);
    }
    var close := IndexOf(title, ']');
    if LEAD <= title && close < |title| {
      assert close >= |LEAD| by { assert ']' !in LEAD; assert title[close] == ']'; }
      var x := title[|LEAD|..close];
      assert title[..close] == LEAD + x;
      assert ']' !in x;
      assert title == "[conductr:" + x + "]" + title[close + 1..];
    }
  }

  function TagText(tag: Option<string>): string {
    match tag case None => "*" case Some(t) => t
  }

  /** The title given to a new decision slot. */
  function DecisionTitle(tag: Option<string>, subject: string): string {
    LEAD + TagText(tag) + "] " + "decision: " + subject
  }

  /** The reserved names, and what the bracket cannot contain. */
  predicate UsableTag(tag: Option<string>) {
    match tag
    case None => true
    case Some(t) => ']' !in t && t != "window" && t != "blocked" && !("window:" <= t)
  }

  lemma {:induction false} TrimEndKeeps(a: string, b: string)
    requires a != [] && !IsSpace(a[|a| - 1])
    ensures a <= TrimEnd(a + b)
  {
    if b == [] {
      assert a + b == a;
    } else {
      assert (a + b)[..|a + b| - 1] == a + b[..|b| - 1];
      TrimEndKeeps(a, b[..|b| - 1]);
    }
  }

  lemma DecisionSurvivesTrim(subject: string)
    ensures var t := Trim(" decision: " + subject);
            "decision:" <= t && t == TrimEnd("decision:" + (" " + subject))
  {
    hide *;
    var rest := "decision:" + (" " + subject);
    assert " decision: " + subject == " " + rest;
    SpaceIsSpace();
    TrimStartDrops(" ", rest);
    TrimEndKeeps("decision:", " " + subject);
    TrimIs(" decision: " + subject);
  }

  lemma TrimIs(s: string)
    ensures Trim(s) == TrimEnd(TrimStart(s))
  {
  }

  lemma SubjectSurvivesTrim(subject: string)
    ensures var t := Trim(" decision: " + subject);
            "decision:" <= t && Trim(t[9..]) == Trim(subject)
  {
    hide *;
    DecisionSurvivesTrim(subject);
    var lead, padded := "decision:", " " + subject;
    var t := TrimEnd(lead + padded);
    TrimEndRest(lead + padded);
    AfterLead(lead, padded, t);
    var post := (lead + padded)[|t|..];
    assert AllSpace(" ") && AllSpace([]) by { SpaceIsSpace(); }
    TrimAgain(t[9..], [], post);
    TrimAgain(subject, " ", []);
    assert [] + t[9..] + post == " " + subject + [];
  }

  lemma AfterLead(lead: string, padded: string, t: string)
    requires lead <= t <= lead + padded
    ensures t[|lead|..] + (lead + padded)[|t|..] == padded
  {
  }

  lemma SpaceIsSpace()
    ensures AllSpace(" ") && AllSpace([]) && !IsSpace('d') && !IsSpace(':')
  {
  }

  lemma BracketParts(inner: string, rest: string)
    ensures var head := LEAD + inner;
            var title := head + "]" + rest;
            LEAD <= title && title[1..|head|] == "conductr:" + inner && title[|head| + 1..] == rest
  {
    var head := LEAD + inner;
    assert (head + "]" + rest)[..|LEAD|] == LEAD;
  }

  lemma ParsedAt(title: string, close: nat, inner: string, after: string)
    requires LEAD <= title && 1 <= close < |title| && IndexOf(title, ']') == close
    requires title[1..close] == "conductr:" + inner && title[close + 1..] == after
    ensures ParseEventTitle(title) == KindOf(inner, Trim(after))
  {
    hide KindOf, Trim, IndexOf;
    assert ("conductr:" + inner)[9..] == inner;
  }

  /** A created title reads back as a decision under the same tag exactly when no reserved name is used as tag. */
  lemma DecisionTitleParses(tag: Option<string>, subject: string)
    requires ']' !in TagText(tag)
    ensures ParseEventTitle(DecisionTitle(tag, subject)).Decision? <==> UsableTag(tag)
    ensures UsableTag(tag) ==>
              ParseEventTitle(DecisionTitle(tag, subject)) == Decision(if tag == Some("*") then None else tag, Trim(subject))
  {
    TitleKind(tag, subject);
    hide *;
    SubjectSurvivesTrim(subject);
    UsableText(tag);
    KindOfDecision(TagText(tag), Trim(" decision: " + subject));
    StarText(tag);
  }

  lemma StarText(tag: Option<string>)
    ensures (if TagText(tag) == "*" then None else Some(TagText(tag))) == if tag == Some("*") then None else tag
  {
  }

  lemma TitleKind(tag: Option<string>, subject: string)
    requires ']' !in TagText(tag)
    ensures ParseEventTitle(DecisionTitle(tag, subject)) == KindOf(TagText(tag), Trim(" decision: " + subject))
  {
    var t := TagText(tag);
    var rest := " decision: " + subject;
    var head := LEAD + t;
    TitleText(t, subject);
    IndexOfPrefix(head, ']', rest);
    BracketParts(t, rest);
    assert head + [']'] + rest == DecisionTitle(tag, subject);
    assert |head| >= 1;
    hide *;
    ParsedAt(DecisionTitle(tag, subject), |head|, t, rest);
  }

  lemma UsableText(tag: Option<string>)
    requires ']' !in TagText(tag)
    ensures UsableTag(tag) <==> var t := TagText(tag); t != "window" && t != "blocked" && !("window:" <= t)
  {
  }

  lemma TitleText(t: string, subject: string)
    ensures LEAD + t + "] " + "decision: " + subject == LEAD + t + "]" + (" decision: " + subject)
  {
  }

  lemma KindOfDecision(inner: string, after: string)
    requires "decision:" <= after
    ensures KindOf(inner, after).Decision? <==> inner != "window" && inner != "blocked" && !("window:" <= inner)
    ensures KindOf(inner, after).Decision? ==>
              KindOf(inner, after) == Decision(if inner == "*" then None else Some(inner), Trim(after[9..]))
  {
    hide Trim, SplitOn;
  }

  function ExtractFrom(lines: seq<string>): Option<string> {
    if lines == [] then None
    else if "conductr-id:" <= lines[0] then Some(Trim(lines[0][12..]))
    else ExtractFrom(lines[1..])
  }

  /** The id on the first identity line of a description. */
  function ExtractConductrId(description: string): Option<string> {
    ExtractFrom(Lines(description))
  }

  /** Line `k` is the first identity line, and the id on it is `id`. */
  ghost predicate FirstIdentity(lines: seq<string>, k: nat, id: string) {
    k < |lines| && "conductr-id:" <= lines[k] && Trim(lines[k][12..]) == id &&
    forall j :: 0 <= j < k ==> !("conductr-id:" <= lines[j])
  }

  lemma LaterIdentity(lines: seq<string>, k: nat, id: string)
    requires lines != [] && !("conductr-id:" <= lines[0])
    ensures FirstIdentity(lines[1..], k, id) <==> FirstIdentity(lines, k + 1, id)
  {
    hide Trim;
    assert forall j :: 0 < j < |lines| ==> lines[j] == lines[1..][j - 1];
  }

  lemma {:induction false} ExtractFromExactly(lines: seq<string>, id: string)
    ensures ExtractFrom(lines) == Some(id) <==> exists k: nat :: FirstIdentity(lines, k, id)
  {
    hide Trim;
    if lines == [] {
    } else if "conductr-id:" <= lines[0] {
      assert FirstIdentity(lines, 0, Trim(lines[0][12..]));
    } else {
      ExtractFromExactly(lines[1..], id);
      forall k: nat { LaterIdentity(lines, k, id); }
      if k: nat :| FirstIdentity(lines, k, id) { assert FirstIdentity(lines[1..], k - 1, id); }
    }
  }

  /** The id read is that of the first identity line. */
  lemma ExtractExactly(description: string, id: string)
    ensures ExtractConductrId(description) == Some(id) <==> exists k: nat :: FirstIdentity(Lines(description), k, id)
  {
    ExtractFromExactly(Lines(description), id);
    hide ExtractFrom, Lines, FirstIdentity;
  }

  /** The two identity lines; `scheduled` is the rendered time. */
  function IdentityLines(id: string, scheduled: string): string {
    "conductr-id: " + id + "\n" + "originally-scheduled: " + scheduled
  }

  lemma TrimmedId(id: string)
    requires Trimmed(id) && id != []
    ensures id[|id| - 1] != '\r' && Trim(" " + id + "") == id
  {
    TrimPadded(" ", id, "");
    hide Trim;
  }

  /** The id written into a description is the id read back, whatever the time looks like. */
  lemma IdentityRoundTrip(id: string, scheduled: string)
    requires '\n' !in id && Trimmed(id) && id != []
    ensures ExtractConductrId(IdentityLines(id, scheduled)) == Some(id)
  {
    var line, rest := "conductr-id: " + id, "originally-scheduled: " + scheduled;
    TrimmedId(id);
    IdentityLine(id);
    IdentityText(id, scheduled);
    hide *;
    LinesFirst(line, rest);
    FirstIdentityLine(line, Lines(rest));
    FirstIdOf(IdentityLines(id, scheduled), line, rest);
  }

  lemma FirstIdOf(description: string, line: string, rest: string)
    requires Lines(description) == [line] + Lines(rest)
    ensures ExtractConductrId(description) == ExtractFrom([line] + Lines(rest))
  {
  }

  lemma IdentityLine(id: string)
    requires '\n' !in id && id != [] && id[|id| - 1] != '\r'
    ensures var line := "conductr-id: " + id;
            '\n' !in line && StripCr(line) == line && "conductr-id:" <= line && line[12..] == " " + id + ""
  {
    var line := "conductr-id: " + id;
    assert line[|line| - 1] == id[|id| - 1];
    assert line[..12] == "conductr-id:";
  }

  lemma FirstIdentityLine(line: string, lines: seq<string>)
    requires "conductr-id:" <= line
    ensures ExtractFrom([line] + lines) == Some(Trim(line[12..]))
  {
    hide Trim;
  }

  lemma IdentityText(id: string, scheduled: string)
    ensures IdentityLines(id, scheduled) == "conductr-id: " + id + "\n" + ("originally-scheduled: " + scheduled)
  {
  }

  /** `[aStart, aEnd)` and `[bStart, bEnd)` overlap. */
  predicate Overlaps(aStart: int, aEnd: int, bStart: int, bEnd: int) {
    aStart < bEnd && bStart < aEnd
  }

  predicate WindowMatchesTag(tags: seq<string>, tag: Option<string>) {
    tags == [] || match tag case None => false case Some(t) => t in tags || "*" in tags
  }

  /** A window tagged with the star accepts every tag, as documented, exactly if there is a tag. */
  lemma StarExactlyWhen(tags: seq<string>, tag: Option<string>)
    requires "*" in tags
    ensures WindowMatchesTag(tags, tag) <==> tag.Some?
  {
  }
}
