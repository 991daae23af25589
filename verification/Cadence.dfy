/** The crontab lines generated from a project's cadence, and what installing them does (`cadence.rs`). */
module Cadence {
  import opened Options
  import opened Text
  import opened Crontab

  /** A task with its schedule. */
  datatype Job = Job(task: string, schedule: string)

  function MarkerOf(tag: string, task: string): string {
    MARKER_PREFIX + " " + tag + "-" + task
  }

  function TaskCommand(task: string, tag: string, repo: Option<string>): string {
    if task == "orchestrate" then
      var inner := "conductr orchestrate" + (match repo case None => "" case Some(r) => " --repo " + r) + " --once";
      "conductr pod ensure-session " + tag + " --then \"" + inner + "\""
    else if task == "idle" then "conductr pod ensure-session " + tag + " --then \"/idle\""
    else "conductr " + task
  }

  function CommandLine(e: Job, tag: string, repo: Option<string>, logDir: string): string {
    e.schedule + " bash -lc '" + TaskCommand(e.task, tag, repo) + "' >> " + logDir + "/" + e.task + ".log 2>&1"
  }

  /** `generate_lines`: a marker and a command line for every task. */
  function Generate(cadence: seq<Job>, tag: string, repo: Option<string>, logDir: string): (blocks: seq<Block>)
    ensures |blocks| == |cadence|
    ensures forall k :: 0 <= k < |blocks| ==> MARKER_PREFIX <= blocks[k].0
    ensures forall k :: 0 <= k < |cadence| ==>
      blocks[k].0 == "# conductr-cron: " + tag + "-" + cadence[k].task && cadence[k].schedule + " bash -lc '" <= blocks[k].1
  {
    seq(|cadence|, k requires 0 <= k < |cadence| =>
      (MarkerOf(tag, cadence[k].task), CommandLine(cadence[k], tag, repo, logDir)))
  }

  /** The command lines, task by task; the two tasks that need a session are wrapped. */
  lemma CommandsWritten(schedule: string, task: string, tag: string, repo: string, logDir: string)
    ensures task != "orchestrate" && task != "idle" ==>
      CommandLine(Job(task, schedule), tag, None, logDir) ==
      schedule + " bash -lc '" + ("conductr " + task) + "' >> " + logDir + "/" + task + ".log 2>&1" &&
      CommandLine(Job(task, schedule), tag, Some(repo), logDir) == CommandLine(Job(task, schedule), tag, None, logDir)
    ensures CommandLine(Job("idle", schedule), tag, Some(repo), logDir) ==
      schedule + " bash -lc '" + ("conductr pod ensure-session " + tag + " --then \"/idle\"") +
      "' >> " + logDir + "/" + "idle" + ".log 2>&1"
    ensures CommandLine(Job("orchestrate", schedule), tag, Some(repo), logDir) ==
      schedule + " bash -lc '" +
      ("conductr pod ensure-session " + tag + " --then \"" + ("conductr orchestrate --repo " + repo + " --once") + "\"") +
      "' >> " + logDir + "/" + "orchestrate" + ".log 2>&1"
    ensures CommandLine(Job("orchestrate", schedule), tag, None, logDir) ==
      schedule + " bash -lc '" +
      ("conductr pod ensure-session " + tag + " --then \"" + "conductr orchestrate --once" + "\"") +
      "' >> " + logDir + "/" + "orchestrate" + ".log 2>&1"
  {
    CommandOf(task, tag, repo);
    hide TaskCommand;
  }

  lemma CommandOf(task: string, tag: string, repo: string)
    ensures task != "orchestrate" && task != "idle" ==>
      TaskCommand(task, tag, None) == TaskCommand(task, tag, Some(repo)) == "conductr " + task
    ensures TaskCommand("idle", tag, Some(repo)) == "conductr pod ensure-session " + tag + " --then \"/idle\""
    ensures TaskCommand("orchestrate", tag, Some(repo)) ==
      "conductr pod ensure-session " + tag + " --then \"" + ("conductr orchestrate --repo " + repo + " --once") + "\""
    ensures TaskCommand("orchestrate", tag, None) ==
      "conductr pod ensure-session " + tag + " --then \"" + "conductr orchestrate --once" + "\""
  {
    assert "conductr orchestrate" + " --repo " == "conductr orchestrate --repo ";
    assert "conductr orchestrate" + (" --repo " + repo) + " --once" == "conductr orchestrate --repo " + repo + " --once";
    assert "conductr orchestrate" + "" + " --once" == "conductr orchestrate --once";
  }

  // ---------- other projects ----------

  /** The marker of another project's task is taken for one of ours. */
  ghost predicate Mistakes(tag: string, other: string, task: string) {
    OurPrefix(tag) <= "# conductr-cron: " + other + "-" + task
  }

  /**
   * No marker of another project is taken for one of ours, whatever its task, exactly if neither name with its dash begins
   * the other.
   */
  lemma ProjectsApartExactlyWhen(tag: string, other: string)
    ensures (forall task :: !Mistakes(tag, other, task)) <==> !(tag + "-" <= other + "-") && !(other + "-" <= tag + "-")
  {
    var a, b := tag + "-", other + "-";
    if a <= b {
      PrefixOfMarker(tag, other, "");
      assert a <= b + "" && Mistakes(tag, other, "");
    } else if b <= a {
      PrefixOfMarker(tag, other, a[|b|..]);
      assert a <= b + a[|b|..] && Mistakes(tag, other, a[|b|..]);
    }
    forall task | Mistakes(tag, other, task) ensures a <= b || b <= a {
      PrefixOfMarker(tag, other, task);
      PrefixesMeet(a, b, task);
    }
  }

  lemma PrefixesMeet(a: string, b: string, rest: string)
    ensures a <= b + rest ==> a <= b || b <= a
  {
    if a <= b + rest {
      if |a| <= |b| { assert b[..|a|] == (b + rest)[..|a|]; } else { assert a[..|b|] == (b + rest)[..|b|]; }
    }
  }

  lemma PrefixOfMarker(tag: string, other: string, task: string)
    ensures Mistakes(tag, other, task) <==> tag + "-" <= other + "-" + task
  {
    var lead := "# conductr-cron: ";
    assert OurPrefix(tag) == lead + (tag + "-");
    assert lead + other + "-" + task == lead + (other + "-" + task);
    LeadDrops(lead, tag + "-", other + "-" + task);
  }

  lemma LeadDrops(lead: string, a: string, b: string)
    ensures lead + a <= lead + b <==> a <= b
  {
    if lead + a <= lead + b {
      assert (lead + b)[..|lead + a|] == lead + a;
      assert b[..|a|] == (lead + b)[..|lead + a|][|lead|..] == a;
    }
    if a <= b { assert lead + b == lead + a + b[|a|..]; }
  }

  /** A merge drops what another project installed under such a marker. */
  lemma MistakenDropped(tag: string, other: string, task: string, command: string)
    requires Mistakes(tag, other, task) && '\n' !in other && '\n' !in task && !EndsCr(task)
    requires '\n' !in command && !EndsCr(command)
    ensures var marker := "# conductr-cron: " + other + "-" + task;
            Merged(marker + "\n" + (command + "\n" + ""), [], tag) == "\n"
  {
    var marker := "# conductr-cron: " + other + "-" + task;
    assert !EndsCr(marker);
    var text := marker + "\n" + (command + "\n" + "");
    var ours := Beginning(OurPrefix(tag));
    assert ours.Matches(marker);
    TwoLines(marker, command);
    hide *;
    BlockGone(text, marker, command, tag);
  }

  lemma BlockGone(text: string, marker: string, command: string, tag: string)
    requires Lines(text) == [marker, command] && Beginning(OurPrefix(tag)).Matches(marker)
    ensures Merged(text, [], tag) == "\n"
  {
    hide Lines, Hit.Matches, OurPrefix;
    var ours := Beginning(OurPrefix(tag));
    assert [marker, command][2..] == [];
    assert Kept([marker, command], ours) == Kept([], ours) == [];
    assert MergedLines(text, [], tag) == [];
  }

  lemma TwoLines(a: string, b: string)
    requires '\n' !in a && !EndsCr(a) && '\n' !in b && !EndsCr(b)
    ensures Lines(a + "\n" + (b + "\n" + "")) == [a, b]
  {
    assert StripCr(a) == a && StripCr(b) == b;
    LinesEmpty();
    hide *;
    LinesFirst(b, "");
    LinesFirst(a, b + "\n" + "");
  }

  /** So a merge for project `a` may drop what project `a-b` installed. */
  lemma SharedBeginning()
    ensures Mistakes("a", "a-b", "idle")
  {
    PrefixOfMarker("a", "a-b", "idle");
    assert "a-" <= "a-b" + "-" + "idle";
    hide Mistakes;
  }

  /** Names without line ends, and schedules that are no comments. */
  ghost predicate Plain(cadence: seq<Job>, tag: string, repo: Option<string>, logDir: string) {
    '\n' !in tag && '\n' !in logDir && (repo.Some? ==> '\n' !in repo.value) &&
    forall k :: 0 <= k < |cadence| ==>
      '\n' !in cadence[k].task && !EndsCr(cadence[k].task) && '\n' !in cadence[k].schedule &&
      cadence[k].schedule != [] && cadence[k].schedule[0] != '#'
  }

  lemma PlainCommand(e: Job, tag: string, repo: Option<string>, logDir: string)
    requires '\n' !in tag && '\n' !in logDir && '\n' !in e.task && '\n' !in e.schedule && (repo.Some? ==> '\n' !in repo.value)
    ensures '\n' !in CommandLine(e, tag, repo, logDir)
  {
    assert '\n' !in TaskCommand(e.task, tag, repo);
    hide TaskCommand;
  }

  /** Generated blocks are recognised as the project's own. */
  lemma GeneratedInstalled(cadence: seq<Job>, tag: string, repo: Option<string>, logDir: string)
    requires Plain(cadence, tag, repo, logDir)
    ensures Installed(Generate(cadence, tag, repo, logDir), tag)
  {
    var blocks := Generate(cadence, tag, repo, logDir);
    hide OurPrefix, EndsCr, Generate;
    forall k | 0 <= k < |blocks|
      ensures OurPrefix(tag) <= blocks[k].0 && '\n' !in blocks[k].0 && '\n' !in blocks[k].1
      ensures !EndsCr(blocks[k].0) && !(OurPrefix(tag) <= blocks[k].1)
    {
      BlockPlain(cadence, tag, repo, logDir, k);
      MarkerIsOurs(tag, cadence[k].task);
      CommandIsNone(tag, cadence[k].schedule, blocks[k].1);
    }
  }

  lemma BlockPlain(cadence: seq<Job>, tag: string, repo: Option<string>, logDir: string, k: nat)
    requires Plain(cadence, tag, repo, logDir) && k < |cadence|
    ensures '\n' !in Generate(cadence, tag, repo, logDir)[k].1
  {
    PlainCommand(cadence[k], tag, repo, logDir);
    hide CommandLine;
  }

  lemma MarkerIsOurs(tag: string, task: string)
    requires '\n' !in tag && '\n' !in task && !EndsCr(task)
    ensures var marker := "# conductr-cron: " + tag + "-" + task;
            OurPrefix(tag) <= marker && '\n' !in marker && !EndsCr(marker)
  {
    assert OurPrefix(tag) == "# conductr-cron: " + tag + "-";
  }

  lemma CommandIsNone(tag: string, schedule: string, command: string)
    requires schedule != [] && schedule[0] != '#' && schedule + " bash -lc '" <= command
    ensures !(OurPrefix(tag) <= command)
  {
    assert command[0] == (schedule + " bash -lc '")[0] == schedule[0];
    assert OurPrefix(tag)[0] == '#';
  }

  /**
   * However the lines are split into lines and blocks by the beginning `# conductr-cron: <tag>-`, a merge keeps exactly the
   * lines outside the blocks, in order, and puts the new blocks behind them.
   */
  lemma MergeByMarkers(current: string, blocks: seq<Block>, tag: string, chunks: seq<Chunk>, tail: seq<string>)
    requires Splits(Lines(current), chunks, tail, Beginning("# conductr-cron: " + tag + "-"))
    ensures Merged(current, blocks, tag) == Unlines(ForeignLines(chunks) + Flat(blocks))
  {
    assert OurPrefix(tag) == "# conductr-cron: " + tag + "-";
    KeepsForeignLines(Lines(current), chunks, tail, Beginning(OurPrefix(tag)));
    hide Lines, Kept, ForeignLines, Flat, Unlines;
  }

  /** Installing again replaces what was installed before, whatever the cadence was, and leaves the other lines. */
  lemma InstallReplaces(current: string, before: seq<Job>, now: seq<Job>, tag: string, repo: Option<string>, logDir: string,
      chunks: seq<Chunk>, tail: seq<string>)
    requires Plain(before, tag, repo, logDir)
    requires Splits(Lines(current), chunks, tail, Beginning("# conductr-cron: " + tag + "-"))
    requires before != [] || ForeignLines(chunks) != []
    ensures var a, b := Generate(before, tag, repo, logDir), Generate(now, tag, repo, logDir);
            Merged(Merged(current, a, tag), b, tag) == Unlines(StripCrs(ForeignLines(chunks)) + Flat(b))
  {
    assert OurPrefix(tag) == "# conductr-cron: " + tag + "-";
    GeneratedInstalled(before, tag, repo, logDir);
    var a := Generate(before, tag, repo, logDir);
    KeepsForeignLines(Lines(current), chunks, tail, Beginning(OurPrefix(tag)));
    MergedOver(current, a, Generate(now, tag, repo, logDir), tag);
    hide Lines, Kept, ForeignLines, Flat, Unlines, Merged, Generate, OurPrefix, StripCrs;
  }

  // ---------- reading the installed schedules ----------

  /** Different tasks, names that need no trimming, and five-field schedules. */
  ghost predicate Regular(cadence: seq<Job>, tag: string) {
    (forall i, j :: 0 <= i < j < |cadence| ==> cadence[i].task != cadence[j].task) &&
    forall k :: 0 <= k < |cadence| ==> |Words(cadence[k].schedule)| == 5 && Trimmed(tag + "-" + cadence[k].task)
  }

  lemma {:induction false} RecordAllAppend(entries: map<string, string>, a: seq<Block>, b: seq<Block>)
    requires forall i :: 0 <= i < |a| ==> MARKER_PREFIX <= a[i].0
    requires forall i :: 0 <= i < |b| ==> MARKER_PREFIX <= b[i].0
    ensures forall i :: 0 <= i < |a + b| ==> MARKER_PREFIX <= (a + b)[i].0
    ensures RecordAll(entries, a + b) == RecordAll(RecordAll(entries, a), b)
    decreases |a|
  {
    hide Record;
    if a == [] {
      assert a + b == b;
    } else {
      assert (a + b)[1..] == a[1..] + b && (a + b)[0] == a[0];
      RecordAllAppend(Record(entries, a[0]), a[1..], b);
    }
  }

  lemma NameRead(marker: string, name: string)
    requires marker == "# conductr-cron: " + name && Trimmed(name) && name != []
    ensures MARKER_PREFIX <= marker && Trim(marker[|MARKER_PREFIX|..]) == name
  {
    assert marker[|MARKER_PREFIX|..] == " " + name + [];
    assert AllSpace(" ") && AllSpace([]);
    hide Trim, Trimmed, AllSpace;
    TrimPadded(" ", name, []);
  }

  lemma FieldsRead(schedule: string, command: string)
    requires |Words(schedule)| == 5 && schedule + " bash -lc '" <= command
    ensures |Words(command)| >= 5 && Words(command)[..5] == Words(schedule)
  {
    hide *;
    var rest := CommandRest(schedule, command);
    WordsAppend(schedule, ' ', rest);
    assert (Words(schedule) + Words(rest))[..5] == Words(schedule);
  }

  lemma CommandRest(schedule: string, command: string) returns (rest: string)
    requires schedule + " bash -lc '" <= command
    ensures command == schedule + [' '] + rest && IsSpace(' ')
  {
    rest := command[|schedule| + 1..];
    var lead := schedule + " bash -lc '";
    assert command[|schedule|] == lead[|schedule|] == ' ';
    assert command[..|schedule|] == lead[..|schedule|] == schedule;
  }

  lemma RecordIs(entries: map<string, string>, b: Block, name: string, fields: seq<string>)
    requires MARKER_PREFIX <= b.0 && Trim(b.0[|MARKER_PREFIX|..]) == name
    requires |fields| == 5 && |Words(b.1)| >= 5 && Words(b.1)[..5] == fields
    ensures Record(entries, b) == entries[name := Join(fields, " ")]
  {
    hide Words, Trim, Join;
  }

  lemma GeneratedRecord(entries: map<string, string>, e: Job, tag: string, b: Block)
    requires b.0 == "# conductr-cron: " + tag + "-" + e.task && e.schedule + " bash -lc '" <= b.1
    requires |Words(e.schedule)| == 5 && Trimmed(tag + "-" + e.task)
    ensures MARKER_PREFIX <= b.0
    ensures Record(entries, b) == entries[tag + "-" + e.task := Join(Words(e.schedule), " ")]
  {
    hide *;
    var name := tag + "-" + e.task;
    assert b.0 == "# conductr-cron: " + name;
    NameRead(b.0, name);
    FieldsRead(e.schedule, b.1);
    RecordIs(entries, b, name, Words(e.schedule));
  }

  lemma RegularAt(cadence: seq<Job>, tag: string, k: nat)
    requires Regular(cadence, tag) && k < |cadence|
    ensures |Words(cadence[k].schedule)| == 5 && Trimmed(tag + "-" + cadence[k].task) && Regular(cadence[..k], tag)
    ensures forall j :: 0 <= j < k ==> cadence[j].task != cadence[k].task
  {
    hide Words, Trimmed;
  }

  lemma GenerateFront(cadence: seq<Job>, tag: string, repo: Option<string>, logDir: string)
    requires cadence != []
    ensures var n := |cadence| - 1;
            var blocks := Generate(cadence, tag, repo, logDir);
            blocks == Generate(cadence[..n], tag, repo, logDir) + [blocks[n]]
  {
    hide CommandLine, MarkerOf;
  }

  lemma RecordOne(entries: map<string, string>, b: Block)
    requires MARKER_PREFIX <= b.0
    ensures RecordAll(entries, [b]) == Record(entries, b)
  {
    hide Record;
    assert RecordAll(Record(entries, b), []) == Record(entries, b);
  }

  lemma {:induction false} RecordGenerated(entries: map<string, string>, cadence: seq<Job>, tag: string, repo: Option<string>,
      logDir: string, k: nat)
    requires Regular(cadence, tag) && k < |cadence|
    ensures var blocks := Generate(cadence, tag, repo, logDir);
            var r := RecordAll(entries, blocks);
            tag + "-" + cadence[k].task in r && r[tag + "-" + cadence[k].task] == Join(Words(cadence[k].schedule), " ")
    decreases |cadence|
  {
    hide *;
    var n := |cadence| - 1;
    GenerateFront(cadence, tag, repo, logDir);
    RegularAt(cadence, tag, n);
    var b := Generate(cadence, tag, repo, logDir)[n];
    var mid := RecordAll(entries, Generate(cadence[..n], tag, repo, logDir));
    RecordAllAppend(entries, Generate(cadence[..n], tag, repo, logDir), [b]);
    GeneratedRecord(mid, cadence[n], tag, b);
    RecordOne(mid, b);
    if k < n {
      RecordGenerated(entries, cadence[..n], tag, repo, logDir, k);
      NamesDiffer(tag, cadence[k].task, cadence[n].task);
    }
  }

  lemma NamesDiffer(tag: string, a: string, b: string)
    requires a != b
    ensures tag + "-" + a != tag + "-" + b
  {
    assert (tag + "-" + a)[|tag| + 1..] == a;
    assert (tag + "-" + b)[|tag| + 1..] == b;
  }

  /** The blocks whose markers do not begin with the text. */
  ghost function Outside(blocks: seq<Block>, lead: string): seq<Block> {
    if blocks == [] then []
    else Outside(blocks[..|blocks| - 1], lead) + if lead <= blocks[|blocks| - 1].0 then [] else [blocks[|blocks| - 1]]
  }

  lemma {:induction false} OutsideCons(b: Block, rest: seq<Block>, lead: string)
    ensures Outside([b] + rest, lead) == (if lead <= b.0 then [] else [b]) + Outside(rest, lead)
  {
    var all := [b] + rest;
    if rest == [] {
      assert all[..0] == [];
    } else {
      var n := |rest| - 1;
      assert all[..|all| - 1] == [b] + rest[..n] && all[|all| - 1] == rest[n];
      OutsideCons(b, rest[..n], lead);
    }
  }

  lemma {:induction false} ForeignIsOutside(blocks: seq<Block>, tag: string)
    requires forall i :: 0 <= i < |blocks| ==> MARKER_PREFIX <= blocks[i].0
    ensures ForeignBlocks(blocks, tag) == Outside(blocks, "# conductr-cron: " + tag + "-")
  {
    assert OurPrefix(tag) == "# conductr-cron: " + tag + "-";
    if blocks == [] {
    } else {
      ForeignIsOutside(blocks[1..], tag);
      OutsideCons(blocks[0], blocks[1..], "# conductr-cron: " + tag + "-");
      assert [blocks[0]] + blocks[1..] == blocks;
      hide OurPrefix;
    }
  }

  /**
   * After installing into a crontab whose markers have commands, the entries are those of the blocks under markers that do
   * not begin with `# conductr-cron: <tag>-`, updated by the new ones.
   */
  lemma EntriesByMarkers(current: string, cadence: seq<Job>, tag: string, repo: Option<string>, logDir: string)
    requires WellFormed(Lines(current)) && Plain(cadence, tag, repo, logDir)
    ensures var blocks := Generate(cadence, tag, repo, logDir);
            var kept := Outside(BlocksOf(Lines(current)), "# conductr-cron: " + tag + "-");
            (forall i :: 0 <= i < |kept + blocks| ==> MARKER_PREFIX <= (kept + blocks)[i].0) &&
            Entries(Lines(Merged(current, blocks, tag)), map[]) == RecordAll(map[], kept + blocks)
  {
    GeneratedInstalled(cadence, tag, repo, logDir);
    MergedEntries(current, Generate(cadence, tag, repo, logDir), tag);
    ForeignIsOutside(BlocksOf(Lines(current)), tag);
    assert forall b: seq<Block> :: Installed(b, tag) ==> OwnBlocks(b, tag);
    hide Lines, Merged, Entries, RecordAll, BlocksOf, ForeignBlocks, Generate, Plain, WellFormed, Outside;
  }

  /** In a crontab whose markers have commands, every installed task is read back with the five fields of its schedule. */
  lemma InstalledEntries(current: string, cadence: seq<Job>, tag: string, repo: Option<string>, logDir: string, k: nat)
    requires WellFormed(Lines(current)) && Plain(cadence, tag, repo, logDir) && Regular(cadence, tag) && k < |cadence|
    ensures var entries := Entries(Lines(Merged(current, Generate(cadence, tag, repo, logDir), tag)), map[]);
            tag + "-" + cadence[k].task in entries &&
            entries[tag + "-" + cadence[k].task] == Join(Words(cadence[k].schedule), " ")
  {
    var blocks := Generate(cadence, tag, repo, logDir);
    var foreign := ForeignBlocks(BlocksOf(Lines(current)), tag);
    GeneratedInstalled(cadence, tag, repo, logDir);
    MergedEntries(current, blocks, tag);
    hide *;
    RecordAllAppend(map[], foreign, blocks);
    RecordGenerated(RecordAll(map[], foreign), cadence, tag, repo, logDir, k);
  }
}
