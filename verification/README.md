# Verified model of conductr

A Dafny model of the parts of conductr that decide something: how a plan becomes a schedule and is printed and read back,
how issues are ordered and dispatched, how calendar slots are kept in step with open issues, how cron lines are merged and
compiled, and how paths match globs. Each module states what its component promises and proves it for every input, every
run and every answer of a host whose calls may fail.

`dafny verify dfyconfig.toml` checks the whole project.

## The components

**Schedule compiler.** `PlanSort` is the counter-based sort of plan items; its loops keep each counter equal to the
dependency occurrences not yet popped. `Walks` says what batches mean, independently of any sort: the batch of a node is
the length of its longest dependency chain, and what is left over is exactly what reaches a cycle. `FromPlan` pads bars
with the fewest possible rests, `Pattern` validates and flattens beat trees, and `Dsl` prints patterns and parses text.
`Grammar` is the language of texts, given without the parser: which texts parse, to what, and why the others are refused.
`RoundTrip` proves when printing and parsing are inverse.

**Issue graph and clusters.** `IssueGraph` is the dependency graph object with its layered sort and cycle report;
`Clusters` is the search for connected components and the choice of a lead issue.

**Orchestration loop.** `Repo`, `Isolation`, `Classifier` and `Dispatch` are the decisions about single issues. `Cycle`
gives one cycle as a function of what was surveyed and of what the host answered to every call, and `Orchestrator` is the
loop itself, with a host object whose calls may fail and which logs every call with its answer; its methods are proved
against that function, log included. `CycleLaws`, `FlightLabels`, `CycleEffects` and `CycleReports` say what any cycle
guarantees about counters and slots, labels, comments and the report. `ReportedBuckets` and `Dispatched` say which issues
and pull requests a cycle lists, merges, triggers and holds back, by labels, links, CI, sessions and answers alone;
`CallOrder` gives the reason of each call that it makes, and `CallsDue` the calls that it must make. `Runs` and `SoftChord`
say what any run guarantees, where cycles are interleaved with changes by others. `CycleLimits` and `UnreadComments` settle
two promises that hold only under a condition.

**Calendar reconciler.** `CalendarTitles` is the title grammar, `CalendarSlots` the two slot searches, `ReconcilePlan` one
reconcile as the writes it sends and the report it returns, `Convergence` what repeated reconciles do, and `CalendarRun`
the reconcile as it executes against a calendar whose writes may fail. `Collisions` says when the decisions that a reconcile
creates keep clear of each other and of those it keeps. `CalendarFields` says what a reconcile deletes, keeps, creates and
reports by the fields of the events in its snapshot.

**Crontab and cron.** `Crontab` merges, removes and reads blocks of lines, `Cadence` generates them from a project's tasks;
`Cron` compiles five-field expressions.

**Globs.** `Glob` relates the recursive matcher to a declarative language of paths.

`Text`, `Options` and `Ordered` are shared helpers.

## Where the code departs from its documentation

The model follows the code. The member that states it is named with each.

- `max_parallel_beats` is documented as the number of issues dispatched in one pass. Tmux dispatches are bounded by the
  slot pool and do not check the counter, so a pass can dispatch more; the cap holds exactly without tmux adapter, in a
  dry run, or at zero (`CycleLimits.CapExactlyWhen`), and twice the cap always holds.
- Comments that cannot be read count as absent, so a failed read can trigger an issue twice
  (`UnreadComments.FailedReadTriggersAgain`). `UnreadComments.UnreadExactlyWhen` says for which configurations, surveys and
  soft-chord maps a possible cycle does so; with successful reads nothing is ever triggered twice.
- The calendar identities that a reconcile marks as occupied are ignored by its slot search instead of being avoided. A new
  decision keeps clear of everything scheduled exactly if it starts at the slot that the search finds with nothing marked
  (`Collisions.KeepsClearExactlyWhen`), and all new decisions together, of each other as well, exactly if there is none, or
  one there (`Collisions.NewDecisionsClearExactlyWhen`); both are read off the snapshot by `Collisions.Grants`.
  `Collisions.NewMeetsNew` and `Collisions.NewMeetsKept` are calendars on which they coincide.
- The priority of an issue is documented as the number of other issues that depend on it; an issue that names itself is
  counted too, and only then do the numbers differ (`CalendarRun.PriorityCountsOthersExactlyWhen`, with two issues in
  `CalendarRun.SelfNamedComesFirst`).
- Merging into a crontab is idempotent unless a kept line still ends in a carriage return after one was stripped
  (`Crontab.MergeIdempotentExactlyWhen`).
- `**` is documented to match zero or more segments; a pattern ending in two of them misses the path of its own prefix
  (`Glob.GlobMatchExactlyWhen`).
- Plan items are documented to keep plan order inside a batch. The first batch does; all do exactly if of any two items at
  one depth the earlier one's greatest dependency one step less deep is not greater (`PlanSort.PlanKeptExactlyWhen`, with a
  plan whose second batch is reversed in `PlanSort.LaterBatchOutOfOrder`).
- The star among the tags of a window is documented to accept any tag. It accepts no decision without a tag
  (`CalendarTitles.StarExactlyWhen`).
- A cron field that lists no value, such as `5-3`, is neither refused nor never due: it counts as a wildcard. The
  dictionaries fire exactly when the listed fields admit the time unless there is such a field
  (`Cron.ListedOnlyExactlyWhen`, with the field in `Cron.ReversedRange`).
- Installing the lines of a project is meant to keep the marked lines of another (cadence.rs:967-985). It may take them
  for its own and drop them (`Cadence.MistakenDropped`): for no task of the other exactly if neither name with its dash
  begins the other (`Cadence.ProjectsApartExactlyWhen`, with two projects in `Cadence.SharedBeginning`).
- A pattern survives printing and parsing only if its bars last whole minutes, since seconds are not printed
  (`RoundTrip.RoundTripExactlyWhen`, with a pattern of four-second bars in `RoundTrip.SecondsAreLost`).

## Assumptions about the outside

- Issue numbers are distinct among the open issues of a repository, and event ids among the events of a calendar; a
  calendar never reissues an id.
- A failed write may have taken effect or not. Where a result needs failed label writes to have no effect, or rollbacks
  that are attempted to succeed, it says so in terms of the logged calls about the issue (`FlightLabels.CleanFor`).
- Clock readings are arbitrary integers; nothing assumes that they increase. One is taken for every isolation decision,
  where the code takes one only if the decision depends on it.
- Numbers are unbounded; instants and durations are whole seconds.

## Model

| member | source | states |
|---|---|---|
| Runs.AtMostOneTrigger | crates/conductr-orchestrate/src/orchestrator.rs:190-479 | Over any run, an issue gets at most one trigger comment, wherever label and comment writes fail or half succeed, if comments are read and nobody forges or removes ours |
| Runs.HardChordSafety | crates/conductr-orchestrate/src/orchestrator.rs:397-591 | Over any run at most one bureaucratic issue is in flight, if the calls about the labels of bureaucratic issues go well (failed label writes have no effect, attempted rollbacks succeed) and others put no bureaucratic issue in flight that was not |
| Runs.HardChordStep | crates/conductr-orchestrate/src/orchestrator.rs:405-591 | One cycle, or one change by others, keeps that |
| CycleLimits.CleanCycleTriggers | crates/conductr-orchestrate/src/orchestrator.rs:397-479 | The premise admits dispatches: a cycle in which every call succeeds puts a bureaucratic issue in flight |
| SoftChord.BoundedWait | crates/conductr-orchestrate/src/orchestrator.rs:356-395 | In an unbroken streak of held decisions about an issue the last comes less than the timeout after the first was recorded, and the recorded instant does not move |
| SoftChord.SoftChordRecord | crates/conductr-orchestrate/src/orchestrator.rs:357-395 | After any run the soft-chord entry of an issue is the instant its current streak of held decisions began, or absent |
| CycleLaws.CycleAccounting | crates/conductr-orchestrate/src/orchestrator.rs:304-593 | The counter equals the number triggered; new agent slots are distinct, in range and free at the start; web dispatches stay within the cap and all dispatches within twice the cap |
| CycleLimits.CapExactlyWhen | crates/conductr-core/src/types.rs:307-310 | The documented cap per pass holds for every repository and every host behaviour exactly without tmux adapter, at cap zero, or in a dry run |
| UnreadComments.UnreadExactlyWhen | crates/conductr-orchestrate/src/orchestrator.rs:190-593 | On a survey that some reads of the comments give, some possible cycle posts a trigger comment on an issue, whatever comments it already has, exactly if the survey shows it Ready, untriggered and not in flight, it does not go to a tmux slot, the run is no dry run with a cap above 0, and neither chord holds it back for certain |
| UnreadComments.FailedReadTriggersAgain | crates/conductr-orchestrate/src/orchestrator.rs:190-198 | A concrete issue with our trigger comment whose comments cannot be read gets a second one |
| FlightLabels.TriggeredAreInFlight | crates/conductr-orchestrate/src/orchestrator.rs:435-591 | Whatever fails, every issue on the host that a cycle triggered carries the in-flight label afterwards |
| FlightLabels.CycleLabels | crates/conductr-orchestrate/src/orchestrator.rs:435-591 | Issue by issue: the labels after a cycle are those the housekeeping left, or those and the in-flight label; with it for sure if triggered, without for sure if not triggered and the calls about that issue went well |
| FlightLabels.HousekeepMeaning | crates/conductr-orchestrate/src/orchestrator.rs:112-149 | Housekeeping clears the label of exactly the surveyed in-flight issues that an open or closed pull request names |
| CycleReports.OneListEach | crates/conductr-orchestrate/src/orchestrator.rs:308-593 | Every issue is listed at most once among triggered, waiting, blocked, human, overlapping and deferred |
| CycleReports.ListsExact | crates/conductr-orchestrate/src/orchestrator.rs:302-593 | Over a whole cycle, in survey order: overlap lists exactly the dispatchable issues claimed in the mailbox, deferred those held back by the soft chord (by what was recorded before the cycle) or the hard chord, and triggered those let go that find room under the caps, count of earlier dispatches and slots included, and that the host takes |
| ReportedBuckets.IssuesExactly | crates/conductr-orchestrate/src/orchestrator.rs:308-323 | By labels, links, dependencies and triggers: human lists exactly the open issues for a human, blocked those without open pull request whose dependencies are not closed, waiting those without, unblocked, that were triggered, in order |
| ReportedBuckets.MergesExactly | crates/conductr-orchestrate/src/orchestrator.rs:217-240 | Merged are exactly the first open pull requests for workable issues whose CI is not failing and that the host took, listed as failing exactly those whose CI is failing, and the merges on the host are those reported |
| ReportedBuckets.MergesAreSafe | crates/conductr-orchestrate/src/orchestrator.rs:217-240 | Whatever a cycle adds to the merged is a surveyed open pull request whose CI is not failing, for an open issue that is not for a human, and a dry run adds nothing |
| ReportedBuckets.ProgressExactly | crates/conductr-orchestrate/src/orchestrator.rs:217-593 | The report tells of progress exactly if something was merged or triggered |
| Dispatched.DispatchExactly | crates/conductr-orchestrate/src/orchestrator.rs:302-593 | Issue by issue, by labels, links, CI, sessions and answers alone: triggered exactly if workable, unclaimed, held by neither chord, outside a dry run, within the slots or the cap left by those before, and taken by the host; deferred exactly if a chord holds it; overlapping exactly if claimed |
| CallOrder.EveryCallJustified | crates/conductr-orchestrate/src/orchestrator.rs:100-593 | Every call of a cycle has its reason in the survey and in the calls right before it: a claim only on a startable issue, the trigger comment or a session under a free name only after a claim, the lines only to that session, a label removed only after a failed trigger or for a pull request that took over, merges and advisories only where due, and no write in a dry run; and every claim is delivered or rolled back |
| CallsDue.AdviceExactly | crates/conductr-orchestrate/src/orchestrator.rs:347-392 | An advisory is posted exactly on the workable unclaimed issues under the fast preset next to a pull request that is not their own, outside a dry run |
| CallsDue.OvertakenCleared | crates/conductr-orchestrate/src/orchestrator.rs:112-149 | Outside a dry run the label is cleared of every surveyed issue that carries it and that an open or closed pull request names |
| Dispatched.UnderExactly | crates/conductr-core/src/safety.rs:8-52 | An issue is under a preset exactly if its first safety label names it, or without one the configuration, or without either it is unhinged |
| CycleEffects.TriggerOnce | crates/conductr-orchestrate/src/orchestrator.rs:190-479 | A cycle adds at most one trigger comment to an issue, and none if the survey saw one |
| CycleEffects.QuietIssues | crates/conductr-orchestrate/src/orchestrator.rs:308-334 | Issues that are not Ready, or that carry the in-flight label, get no comment in the cycle |
| CycleEffects.SerialUpTo | crates/conductr-orchestrate/src/orchestrator.rs:405-426 | A cycle dispatches at most one bureaucratic issue, and none while any surveyed issue is in flight |
| Repo.RollbackRestores | crates/conductr-orchestrate/src/orchestrator.rs:469-474 | Adding and rolling back the in-flight label restores the labels of an issue without it exactly |
| Repo.PresetIgnoresFlight | crates/conductr-core/src/safety.rs:36-52 | The in-flight label has no influence on the preset that labels select |
| Orchestrator.Orchestrator.RunCycle | crates/conductr-orchestrate/src/orchestrator.rs:100-631 | A cycle fails exactly if a survey call failed, and then only the log changes; otherwise host, log of calls, soft-chord map and report are those of the functional cycle for what was read and for the logged answers; the merges on the host are those reported, each of an open pull request whose CI is not failing for an open issue that is not for a human; and good answers tell comments and flags |
| Orchestrator.Orchestrator.RunToCompletion | crates/conductr-orchestrate/src/orchestrator.rs:639-663 | What happened, with or without a limit and however far one watches, is a run in which cycles and pauses with changes by others alternate, each step possible where it was taken, and the reports are those of its cycles; it ends exactly with the first cycle that triggered and merged nothing and lists nothing waiting or failing, or that reaches the limit, or at a failed survey; at-most-one trigger and the hard chord hold wherever it stands, if the logged reads and label calls went well and others keep to the rules |
| Orchestrator.LoopSafety | crates/conductr-orchestrate/src/orchestrator.rs:639-663 | Wherever the loop stands, also after a failed survey: at most one trigger per issue and the hard chord, by what the log says of the calls, and the soft-chord record with its timeout |
| Orchestrator.WellToldRun | crates/conductr-orchestrate/src/orchestrator.rs:639-663 | If no logged read of comments failed and others leave our triggers alone, the premise of at-most-one trigger holds at every step of the run; if no logged label call failed and others put no further bureaucratic issue in flight, that of the hard chord does |
| Orchestrator.Orchestrator.TriggerIssueWeb | crates/conductr-orchestrate/src/orchestrator.rs:445-477 | Label, then comment, then rollback on failure, for every combination of answers, each call logged with its answer |
| Orchestrator.Orchestrator.TriggerIssueTmux | crates/conductr-orchestrate/src/orchestrator.rs:500-552 | Label, then session and its two lines, then rollback on failure, for every combination of answers, each call logged with its answer |
| Orchestrator.Orchestrator.IsolateIssue | crates/conductr-orchestrate/src/orchestrator.rs:347-395 | The isolation decision with its effect on soft-chord map, comments and log, for the clock readings that the log records |
| Orchestrator.Orchestrator.ReadTriggered | crates/conductr-orchestrate/src/orchestrator.rs:190-198 | The comments of every surveyed issue are asked for, and exactly the issues whose logged read succeeded and shows the trigger are found |
| Isolation.DefersExactlyWhen | crates/conductr-orchestrate/src/isolation.rs:61-131 | An issue is held back exactly under the strict preset, with some pull request not its own unfinished, none of them failing, and the timeout since it was first held back not yet passed |
| Isolation.TellsExactlyWhen | crates/conductr-orchestrate/src/isolation.rs:61-131 | Next to pull requests not its own an issue under the feral preset yells about exactly their branches, one under the fast preset advises of them, and nothing else does |
| Isolation.AggregateSiblingStatus | crates/conductr-orchestrate/src/isolation.rs:36-46 | Red exactly if some sibling is failing, green exactly if all are passing |
| Classifier.ReadyExactlyWhen | crates/conductr-orchestrate/src/classifier.rs:15-94 | An issue is Ready exactly when open, not for a human, without open pull request, with closed dependencies, and untriggered |
| Classifier.BucketExactlyWhen | crates/conductr-orchestrate/src/classifier.rs:15-94 | For each of the seven buckets an exact condition in terms of state, labels, CI of the first linked open pull request, dependencies and triggers |
| Dispatch.ActiveSlotIndices | crates/conductr-orchestrate/src/dispatch.rs:54-62 | The slot numbers of the sessions of a kind, ascending, none missed and none invented |
| Dispatch.NextFreeSlot | crates/conductr-orchestrate/src/dispatch.rs:66-69 | The lowest slot in range that no session occupies, or none exactly when all are occupied |
| Dispatch.SlotNameReadsBack | crates/conductr-orchestrate/src/dispatch.rs:33-62 | A slot name is read back as its own slot and as no slot of the other kind |
| Dispatch.SlotExactly | crates/conductr-orchestrate/src/dispatch.rs:33-62 | A session occupies a slot exactly if it is named after its kind with the decimal number of the slot |
| Dispatch.RunnerExactly | crates/conductr-orchestrate/src/dispatch.rs:37-51 | An issue goes to tmux exactly if its tmux label comes before any web label |
| IssueGraph.TopoBatches | crates/conductr-orchestrate/src/graph.rs:14-97 | Succeeds exactly on acyclic graphs; each node is in the batch of its longest dependency chain; otherwise the nodes that reach a cycle are reported |
| IssueGraph.DepGraph.CheckClosed | crates/conductr-core/src/types.rs:284-293 | Reports the first dependency, in ascending order, outside the graph, or succeeds exactly if there is none |
| IssueGraph.DepGraph.AddDep | crates/conductr-core/src/types.rs:271-274 | Adds one edge and both nodes, changes nothing else and keeps the graph closed |
| IssueGraph.DepGraph.AddIssue | crates/conductr-core/src/types.rs:267-269 | Adds a node without touching existing edges |
| Walks.LayeringMeaning | crates/conductr-orchestrate/src/graph.rs:14-93 | In any complete layering a node is in batch k exactly if its longest chain has k steps, and is placed exactly if it reaches no cycle |
| Walks.LayeringsAgree | crates/conductr-orchestrate/src/graph.rs:14-93 | Any two complete layerings of a graph have the same batches as sets |
| PlanSort.SortsAgree | crates/conductr-schedule/src/from_plan.rs:196-234 | The batches of the plan sort and of the issue sort are the same sets on every plan |
| PlanSort.TopoBatches | crates/conductr-schedule/src/from_plan.rs:196-234 | Emits exactly the items that reach no cycle, each in the batch of its longest chain; the first batch in plan order, a later one by the position in the batch before of the dependency popped last, then by plan index |
| PlanSort.BatchesDetermined | crates/conductr-schedule/src/from_plan.rs:196-234 | These promises leave exactly one result |
| PlanSort.PlanKeptExactlyWhen | crates/conductr-schedule/src/from_plan.rs:194-234 | All batches stand in plan order exactly if the plan is such that of any two items at one depth the earlier one has no greater greatest dependency one step less deep |
| PlanSort.LaterBatchOutOfOrder | crates/conductr-schedule/src/from_plan.rs:194-234 | A concrete plan whose second batch is not in plan order |
| PlanSort.Release | crates/conductr-schedule/src/from_plan.rs:219-224 | Popping an item keeps every counter equal to the occurrences not yet popped, without underflow, and queues exactly the items freed, in plan order |
| PlanSort.CountDeps | crates/conductr-schedule/src/from_plan.rs:201-212 | The counters start at the number of dependency occurrences, duplicates included, and successors mirror them |
| PlanSort.PopLayer | crates/conductr-schedule/src/from_plan.rs:216-228 | Popping a layer queues exactly the items it frees, each once, in the order of the dependency popped last, then of the plan |
| Clusters.ClusterIssues | crates/conductr-orchestrate/src/architect.rs:152-196 | Every issue is in a cluster, every cluster is sorted and is a connected component of the dependency graph restricted to the issues |
| Clusters.SameClusterExactlyWhen | crates/conductr-orchestrate/src/architect.rs:152-196 | Two issues share a cluster exactly if a path inside the set joins them |
| Clusters.Disjoint | crates/conductr-orchestrate/src/architect.rs:152-196 | No issue is in two clusters |
| Clusters.LeadOfAcyclic | crates/conductr-orchestrate/src/architect.rs:201-216 | The lead of an acyclic cluster is the largest member no other member depends on |
| Clusters.HighestLevel | crates/conductr-orchestrate/src/architect.rs:201-216 | The largest sink, or the largest member if there is no sink |
| FromPlan.PlanToPattern | crates/conductr-schedule/src/from_plan.rs:148-179 | One bar per batch of the sort, which is determined: its items in order, then only rests, up to the longest bar and with the fewest rests |
| FromPlan.Pad | crates/conductr-schedule/src/from_plan.rs:170-175 | The greedy loop fills the gap exactly, with as few rests as possible |
| FromPlan.FewestNotesIsMinimal | crates/conductr-schedule/src/from_plan.rs:170-192 | No other choice of notes fills a gap with fewer of them |
| FromPlan.PlanPatternValidExactlyWhen | crates/conductr-schedule/src/from_plan.rs:148-179 | A plan's pattern validates exactly if it is empty or its longest bar is whole quarters |
| FromPlan.LargestNoteFitting | crates/conductr-schedule/src/from_plan.rs:181-192 | The longest note value that fits |
| Pattern.Validate | crates/conductr-schedule/src/pattern.rs:60-126 | Succeeds exactly on patterns whose bars have their length and whose subdivisions add up at every depth |
| Pattern.ValidateReportsFirst | crates/conductr-schedule/src/pattern.rs:60-126 | The error names the first invalid bar: its length, or else its first ill-divided beat with each beat before its children |
| Pattern.LeavesTile | crates/conductr-schedule/src/pattern.rs:78-158 | The leaves of a validated pattern tile its whole length, gap-free and overlap-free, at any nesting depth |
| Pattern.Leaves | crates/conductr-schedule/src/pattern.rs:137-158 | The nested loops with running offsets produce those leaves |
| Pattern.LeavesKeepFringe | crates/conductr-schedule/src/pattern.rs:78-97 | Flattening keeps values and tags of the leaves in tree order |
| RoundTrip.RoundTripExactlyWhen | crates/conductr-schedule/src/parser.rs:51-245 | For grammar tags, parsing the printed pattern gives it back exactly if it validates, has one quarter-unit signature throughout, and bars of whole minutes |
| RoundTrip.PlanRoundTripExactlyWhen | crates/conductr-schedule/src/from_plan.rs:148-283 | A plan's pattern survives exactly if its longest bar is whole quarters |
| RoundTrip.SecondsAreLost | crates/conductr-schedule/src/from_plan.rs:241-283 | A concrete valid pattern with bars of four seconds is not read back |
| RoundTrip.ParseBeatText | crates/conductr-schedule/src/parser.rs:178-245 | Every printed beat is read back, with arbitrarily nested subdivisions |
| RoundTrip.SplitJoined | crates/conductr-schedule/src/parser.rs:228-245 | Splitting joined children at depth zero gives the children back, though they contain commas themselves |
| RoundTrip.ParsePrinted | crates/conductr-schedule/src/parser.rs:51-113 | Any printed pattern with well-formed bars parses to its bars, with the duration cut to whole minutes |
| RoundTrip.ParsedShape | crates/conductr-schedule/src/parser.rs:51-113 | Whatever the parser accepts is valid, in quarters, and has one signature throughout |
| RoundTrip.DurationRoundTrip | crates/conductr-schedule/src/parser.rs:140-176 | A printed duration is read back as its whole minutes |
| Dsl.DurationExactly | crates/conductr-schedule/src/parser.rs:140-176 | A text is a duration exactly if it is a list of numbers each with one of the units s, m, h, d, and then it lasts their sum in seconds |
| Grammar.CutsExactly | crates/conductr-schedule/src/parser.rs:228-245 | The pieces of a split are exactly the stretches between separators outside all brackets |
| Grammar.BeatExactly | crates/conductr-schedule/src/parser.rs:178-245 | A text is read as a beat exactly if it spells it: a name, a letter for the value, and in brackets the spelled children, at any depth |
| Grammar.BarExactly | crates/conductr-schedule/src/parser.rs:115-137 | A line between bars is read as exactly the beats that its non-blank cells spell, and only if every subdivision adds up |
| Grammar.LineExactly | crates/conductr-schedule/src/parser.rs:51-113 | What one line says, without its comment: nothing, a bar, or the duration of the bars, and when it says nothing valid |
| Grammar.ParsesExactly | crates/conductr-schedule/src/parser.rs:51-113 | A whole text parses to a pattern exactly if each line says something valid and the bars, the signature and the tempo of the pattern are what the lines say, four hours a bar where none says otherwise |
| Grammar.RefusesExactly | crates/conductr-schedule/src/parser.rs:51-113 | A text is refused with an error exactly if that is the fault of the first faulty line, or of the assembled pattern |
| Dsl.PatternToDsl | crates/conductr-schedule/src/from_plan.rs:241-267 | The appending loops print the text the round trip is about |
| Dsl.SplitTopLevel | crates/conductr-schedule/src/parser.rs:228-245 | The scan with depth and start splits exactly at separators outside brackets |
| Dsl.ParseDuration | crates/conductr-schedule/src/parser.rs:140-176 | The accumulating loop gives the seconds that the text writes as numbers with units, and the error exactly if it writes no duration |
| Dsl.ParseBarBeats | crates/conductr-schedule/src/parser.rs:120-137 | The cells of a bar line in order, or the first error |
| Dsl.Parse | crates/conductr-schedule/src/parser.rs:51-113 | The line loop computes the text reading the round trip is about, with every error case |
| Notation.FromLetterExactly | crates/conductr-schedule/src/notation.rs:42-54 | A letter in either case names a value exactly if it is its letter |
| Notation.LengthsHalve | crates/conductr-schedule/src/notation.rs:14-40 | Each note value lasts half as long as the one before, down to the 64th |
| Convergence.Converges | crates/conductr-calendar/src/reconcile.rs:133-251 | With everything else fixed a second reconcile deletes nothing and a third changes nothing; if the first deleted nothing the second changes nothing; in whatever order events are listed |
| Convergence.OneDecisionPerIssue | crates/conductr-calendar/src/reconcile.rs:133-251 | After any prefix of the writes of a reconcile each issue has at most one decision |
| Convergence.SettlesAs | crates/conductr-calendar/src/reconcile.rs:133-251 | After a reconcile the calendar is settled for the listed issues, and everything but decisions is untouched |
| CalendarFields.SettledMeans | crates/conductr-calendar/src/reconcile.rs:298-325 | Settled is a calendar exactly if every decision that names something names a listed issue, and was moved, or lies in a window that admits the tag and overlaps no blocker |
| Convergence.SettledMeansNoDeletes | crates/conductr-calendar/src/reconcile.rs:143-189 | A settled calendar is not deleted from |
| Convergence.QuietThenStill | crates/conductr-calendar/src/reconcile.rs:133-251 | If a reconcile deletes nothing the next one sends no write |
| Convergence.CreatedDecisionsFit | crates/conductr-calendar/src/reconcile.rs:193-216 | A created decision fills a whole future half hour inside a window that admits the tag, and overlaps no blocker, no test and no review event |
| Collisions.KeepsClearExactlyWhen | crates/conductr-calendar/src/reconcile.rs:184-216 | A created decision keeps clear of everything scheduled exactly if it starts at the slot that a search finds when it looks past no decision |
| Collisions.SlotClearExactlyWhen | crates/conductr-calendar/src/reconcile.rs:193-216 | The same read off the snapshot: the slot found past the decisions kept for the issues of higher priority is clear of everything exactly if the search that looks past nothing finds the same start |
| Collisions.CreatesExactly | crates/conductr-calendar/src/reconcile.rs:133-216 | Read off the snapshot, a reconcile creates one decision for each listed issue without a kept one whose search finds a slot, in order and at that slot |
| Collisions.NewDecisionsClearExactlyWhen | crates/conductr-calendar/src/reconcile.rs:184-216 | On any calendar the new decisions keep clear of each other and of everything scheduled exactly if none is granted a slot, or one is and it is the open slot |
| Collisions.NewDecisionsDisjointExactlyWhen | crates/conductr-calendar/src/reconcile.rs:184-216 | On any calendar the new decisions keep clear of each other exactly if the slots granted on the snapshot do |
| Collisions.AllStacked | crates/conductr-calendar/src/reconcile.rs:184-216 | If no listed issue has a kept decision, all are granted the open slot, or none is granted any |
| Collisions.CreatedMeetsOnlyKept | crates/conductr-calendar/src/reconcile.rs:184-216 | A created decision overlaps something scheduled exactly if it does not start at the open slot, and then only decisions that the same reconcile kept |
| Collisions.NewMeetsNew | crates/conductr-calendar/src/reconcile.rs:184-216 | A concrete calendar on which two new decisions coincide |
| Collisions.NewMeetsKept | crates/conductr-calendar/src/reconcile.rs:184-216 | A concrete calendar on which a new decision is put on a kept one |
| Convergence.DryRunPredicts | crates/conductr-calendar/src/reconcile.rs:176-229 | A dry run sends nothing and reports exactly what the real run reports |
| Convergence.ReportIsExact | crates/conductr-calendar/src/reconcile.rs:133-251 | The report lists the deletions and creations sent, in order, and every issue exactly once as kept, added or unschedulable |
| CalendarFields.DeletedExactlyWhen | crates/conductr-calendar/src/reconcile.rs:141-251 | By the fields of the snapshot: deleted are exactly the recorded decisions of listed issues that nobody moved and that lie in no window that admits the tag or overlap a blocker, and the decisions that name no listed issue |
| CalendarFields.RecordedDeletedExactlyWhen | crates/conductr-calendar/src/reconcile.rs:143-189 | The recorded decision of a listed issue is deleted exactly if it was not moved and either no window that admits the tag contains it or some blocker overlaps it |
| CalendarFields.DeletionsSent | crates/conductr-calendar/src/reconcile.rs:69-251 | A reconcile that ran through has sent exactly those deletions |
| CalendarFields.CreatedExactly | crates/conductr-calendar/src/reconcile.rs:133-216 | Created are exactly, for the listed issues whose recorded decision is stale or missing, half hours at the earliest open time: on the grid of an admitting window, not past, clear of blockers, and clear of everything scheduled but the decisions kept for issues before |
| CalendarFields.LotsExactly | crates/conductr-calendar/src/reconcile.rs:133-251 | The report lists in priority order the issues whose recorded decision is not stale as kept, of the others those that find an open half hour as added and the rest as unschedulable |
| CalendarRun.Reconcile | crates/conductr-calendar/src/reconcile.rs:69-254 | Fails exactly if a write failed; the logged writes are those of the plan in order, up to and with the first failed one, the calendar is what they made of it, and on success the report is the plan's |
| CalendarRun.ReconcilesSettle | crates/conductr-calendar/src/reconcile.rs:69-254 | From a calendar with one decision per issue, through any reconciles with any writes failing: each issue keeps at most one decision, and of three like ones in a row that run through the third sends nothing |
| CalendarRun.ThirdSendsNothing | crates/conductr-calendar/src/reconcile.rs:133-251 | Of three like reconciles that run through, the first settles the calendar, the second only creates, the third sends nothing |
| CalendarRun.OrderIsFixed | crates/conductr-calendar/src/reconcile.rs:118-122 | The priority order of issues with distinct numbers is unique |
| CalendarRun.MapDecisions | crates/conductr-calendar/src/reconcile.rs:133-140 | The map holds for each id the last decision recorded for it |
| ReconcilePlan.SortIssues | crates/conductr-calendar/src/reconcile.rs:109-122 | A permutation of the issues, those that more issues depend on first, then by number |
| ReconcilePlan.CountDependents | crates/conductr-calendar/src/reconcile.rs:109-115 | The counted priority is the number of issues that name the issue |
| CalendarRun.PriorityCountsOthersExactlyWhen | crates/conductr-calendar/src/reconcile.rs:106-115 | The counted priority of a listed issue is the number of other issues that depend on it exactly if it does not name itself |
| CalendarRun.SelfNamedComesFirst | crates/conductr-calendar/src/reconcile.rs:106-122 | Two issues on which nobody else depends, ordered by a self-reference |
| CalendarSlots.ComputeAvailableSlots | crates/conductr-calendar/src/reconcile.rs:258-296 | Sorted, and exactly the half-hour grid slots inside some window that are not past, blocked, or taken by an event outside the occupied list |
| CalendarSlots.FindEligibleSlot | crates/conductr-calendar/src/schedule_test.rs:113-154 | First fit per window, then the minimum: the earliest free slot of a matching window, or none exactly if there is none |
| CalendarSlots.SearchesAgree | crates/conductr-calendar/src/schedule_test.rs:113-154 | With nothing occupied the two searches find the same slot, or neither finds one |
| CalendarSlots.FirstMatchingIsEarliest | crates/conductr-calendar/src/reconcile.rs:193-204 | The first matching entry of the sorted list starts at the earliest candidate |
| CalendarTitles.DecisionTitleParses | crates/conductr-calendar/src/parse.rs:39-91 | A created title is read back as a decision exactly if the tag is no reserved name, and then with its tag and its trimmed subject |
| CalendarTitles.TitleExactly | crates/conductr-calendar/src/parse.rs:39-91 | What any title means: windows with their tags, blockers, and decisions, tests and reviews with tag and subject, by the bracket and the text behind it; titles of any other form mean nothing |
| CalendarTitles.StarExactlyWhen | crates/conductr-calendar/src/parse.rs:136-150 | A window tagged with the star accepts a tag, as documented, exactly if there is one |
| CalendarTitles.IdentityRoundTrip | crates/conductr-calendar/src/parse.rs:94-122 | The id written into a description is the id read back |
| CalendarTitles.ExtractExactly | crates/conductr-calendar/src/parse.rs:94-101 | The id read from a description is that of its first identity line |
| Crontab.MergeIdempotentExactlyWhen | crates/conductr/src/cadence.rs:764-786 | Merging twice equals merging once exactly if no kept line still ends in a carriage return |
| Crontab.DoubleCarriageReturnMerges | crates/conductr/src/cadence.rs:764-786 | A concrete crontab on which merging twice differs |
| Crontab.KeepsForeignLines | crates/conductr/src/cadence.rs:764-786 | However any lines are split into foreign lines and blocks, with a marker on the last line or not, exactly the foreign lines remain, in order |
| Crontab.ForeignLinesSurvive | crates/conductr/src/cadence.rs:527-545 | Read back, any merged crontab is exactly the foreign lines of the old one and then the new blocks, and any crontab after a removal the lines foreign to the marker, each without one final carriage return |
| Crontab.RemoveUndoesMergeExactlyWhen | crates/conductr/src/cadence.rs:527-545 | Removing every installed marker gives the merge of nothing exactly if nothing was installed or no kept line ends in a carriage return |
| Cadence.EntriesByMarkers | crates/conductr/src/cadence.rs:216-231 | After installing, the entries are those of the old blocks under markers that do not begin with `# conductr-cron: <tag>-`, updated by the generated ones |
| Cadence.MergeByMarkers | crates/conductr/src/cadence.rs:764-786 | However the lines are split by the beginning `# conductr-cron: <tag>-`, a merge keeps exactly the lines outside such blocks and puts the new ones behind them |
| Cadence.GeneratedInstalled | crates/conductr/src/cadence.rs:722-731 | The generated blocks are recognised as the project's own, and their commands are not taken for markers |
| Cadence.InstallReplaces | crates/conductr/src/cadence.rs:722-786 | Installing again replaces what was installed before, whatever the cadence was, and leaves the other lines |
| Cadence.InstalledEntries | crates/conductr/src/cadence.rs:216-231 | Every installed task is read back under its name with the five fields of its schedule |
| Cadence.ProjectsApartExactlyWhen | crates/conductr/src/cadence.rs:764-786 | No marker of another project is taken for one of ours, whatever its task, exactly if neither name with its dash begins the other |
| Cadence.MistakenDropped | crates/conductr/src/cadence.rs:764-786 | A merge drops what another project installed under a marker taken for one of ours |
| Cadence.SharedBeginning | crates/conductr/src/cadence.rs:764-786 | Two concrete projects whose markers are confused |
| Crontab.Merge | crates/conductr/src/cadence.rs:764-786 | The loop with its skip flag computes the merged text that the lemmas here and in Cadence are about |
| Crontab.RemoveCrontabEntry | crates/conductr/src/cadence.rs:527-545 | The loop computes the text without the blocks of a marker |
| Crontab.ParseAllCronEntries | crates/conductr/src/cadence.rs:216-231 | The line iterator computes the declarative entries |
| Cron.FiresWhenFits | crates/conductr/src/cadence.rs:629-665 | The dictionaries of an expression fire at a time exactly if the first word fits the minute in 0..59, the second the hour in 0..23, the third the day in 1..31, the fourth the month in 1..12 and the fifth the weekday in 0..6 |
| Cron.ListedOnlyExactlyWhen | crates/conductr/src/cadence.rs:651-700 | A field fits exactly the values that it lists, as documented, exactly if it is the star or lists some value |
| Cron.ReversedRange | crates/conductr/src/cadence.rs:668-700 | A concrete field that lists nothing and fits everything |
| Cron.ExpandExactly | crates/conductr/src/cadence.rs:668-700 | A field expands exactly if it is well formed, and then to exactly the values its parts list |
| Cron.ParseU32Exactly | crates/conductr/src/cadence.rs:668-700 | Read as numbers are exactly the decimal numbers below 2^32, after any zeros and an optional plus sign |
| Cron.EntriesCount | crates/conductr/src/cadence.rs:629-665 | One dictionary per combination of expanded values |
| Cron.ExpandMeaning | crates/conductr/src/cadence.rs:668-700 | A field expands to exactly the values one of its parts admits |
| Cron.ExpandCronField | crates/conductr/src/cadence.rs:668-700 | The loops over parts and steps compute that expansion, and fail where it is undefined |
| Cron.CronToStartCalendarIntervals | crates/conductr/src/cadence.rs:629-665 | Succeeds exactly on five well-formed fields, and then the dictionaries fire exactly when the five words fit the time |
| Cron.FiringHours | crates/conductr/src/cadence.rs:312-329 | The hours marked are exactly those that the second word fits, none for a malformed expression |
| Cron.FiringHoursAgree | crates/conductr/src/cadence.rs:312-329 | An hour is marked exactly if some dictionary admits it |
| Glob.GlobMatchExactlyWhen | crates/conductr/src/idle.rs:517-562 | The matcher agrees with the declarative language exactly unless the pattern ends in two `**`, its rest matches the path, and matches no proper prefix of it |
| Glob.PartsMatchCorrect | crates/conductr/src/idle.rs:525-540 | Sound and complete on every path for a pattern that does not end in two `**` |
| Glob.SegmentMatchCorrect | crates/conductr/src/idle.rs:550-562 | Sound and complete for `*` inside one segment |
| Glob.DoubledMatchesProperPrefix | crates/conductr/src/idle.rs:525-540 | A pattern ending in two `**` matches exactly the paths with a proper prefix in the rest |
| Glob.DoubledPatternMisses | crates/conductr/src/idle.rs:525-540 | A concrete pattern and path where the matcher misses |

## Left out

- Adapters, dashboard, command line, setup checks, self-update: process, network and file access.
- Text heuristics (dependency parsing in issue bodies, label spelling, CI logs): issues carry parsed dependencies and labels by meaning.
- Comment text: a comment is modelled by whether it contains the trigger text; advisory comments are taken not to contain it.
- Scope-claim messages and yell messages: a claim is one answer of the mailbox, and sending yells has no modelled effect.
- QA slots (orchestrator.rs:241-291), local CI runs (orchestrator.rs:151-187) and tempo rows (orchestrator.rs:595-628): pull requests enter with their resolved CI status.
- Assigning human issues, and log messages.
- The coordinator semaphore: whether a permit is free is one answer; concurrent cycles of one process are not modelled.
- Orchestrator.Orchestrator.RunToCompletion: the reports of a loop that still goes on are looked at after any chosen number of cycles, since without a limit it need not end. Others change the repository between cycles; changes between two calls of one cycle are not modelled.
- CalendarRun.Reconcile: the reads of events and issues, which end the reconcile before any write if they fail, are inputs.
- Convergence.Converges: assumes a project tag that is no reserved name and has no closing bracket; other tags make titles that are not read back as decisions.
- CalendarTitles.DecisionTitleParses: assumes a tag without a closing bracket.
- CalendarTitles.IdentityRoundTrip: the time line is any text; RFC 3339 times are modelled as the instants they denote.
- Creating the test event (schedule_test.rs:41-111) beyond the search for its slot.
- Titles of calendar events beyond what they parse to; descriptions beyond their id and scheduled time, and the wording of reports.
- Reading plans from markdown (from_plan.rs:49-143): plans enter as items with estimate and dependencies.
- Phrase names and complexity labels (architect.rs:101-149, 222-237).
- RoundTrip.RoundTripExactlyWhen: assumes tags that follow the printed grammar; messages of parse errors are not modelled, only kind and line.
- Dsl.Parse: dividing by an empty first bar, where the original stops with an arithmetic fault, is an error value of its own.
- Tempo as floating point, rendering, and sub-second instants.
- Overflow of fixed-width integers.
- Stale pane names (dispatch.rs:77-128), can_merge, module registry, maturity reports: no state to keep and little to prove.
- Reading and writing the user's crontab, launchd files and rendering of the staff.
- Day and weekday semantics of cron beyond what the code does, which is to require every field.
