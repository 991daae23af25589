/**
 * One orchestration cycle as a function of the survey, the host's content and the outcome of every host call
 * (`orchestrator.rs`, `run_cycle`).
 */
module Cycle {
  import opened Options
  import opened Repo
  import opened Isolation
  import opened Classifier
  import opened Dispatch

  /** `maxBeats` bounds dispatches, `timeout` the soft-chord wait; `tmux` and `mailbox` say which adapters are attached. */
  datatype Config = Config(maxBeats: nat, dryRun: bool, preset: Option<Preset>, timeout: nat, tmux: bool, mailbox: bool)

  /** What a cycle reads before it acts; `closedLinks` are the issues that closed pull requests name. */
  datatype Survey = Survey(open: seq<Issue>, closed: set<nat>, prs: seq<Pr>, closedLinks: seq<Option<nat>>,
                           triggered: set<nat>, sessions: seq<string>)

  /**
   * How the host answered while one issue was handled: merging, scope claim, clock, permit, and for the dispatch the
   * label, the comment or the session with its two lines, and whether a rollback took effect.
   */
  datatype Outcome = Outcome(merge: bool, claimed: bool, decideAt: int, stampAt: int, advised: Write, permit: bool,
                             flag: Write, post: Write, session: Write, start: bool, prompt: bool, rollback: bool)

  datatype CycleReport = CycleReport(merged: seq<nat>, prFailing: seq<nat>, waiting: seq<nat>, blocked: seq<nat>, human: seq<nat>,
                           overlap: seq<nat>, triggered: seq<nat>, deferred: seq<nat>, progress: bool)

  const NO_REPORT := CycleReport([], [], [], [], [], [], [], [], false)

  /** The local variables of a pass. */
  datatype Pass = Pass(slots: seq<nat>, dispatched: nat, bureaucratic: bool, report: CycleReport)

  /** Host content, the soft-chord map of the orchestrator, and the pass. */
  datatype State = State(host: Content, soft: map<nat, int>, pass: Pass)

  // ---------- housekeeping ----------

  /** The issues that open and closed pull requests name, in the order they are cleaned up. */
  function Links(sv: Survey): seq<Option<nat>> {
    LinkedIssues(sv.prs) + sv.closedLinks
  }

  function LinkedIssues(prs: seq<Pr>): seq<Option<nat>> {
    seq(|prs|, k requires 0 <= k < |prs| => prs[k].linkedIssue)
  }

  predicate FlaggedIn(open: seq<Issue>, n: nat) {
    var i := FindIssue(open, n);
    i.Some? && i.value.Has(InFlight)
  }

  function Logged(host: Content, calls: seq<Call>): Content {
    host.(log := host.log + calls)
  }

  function Flag(host: Content, n: nat, w: Write): Content {
    Logged(if w.Landed() then host.(issues := AddFlight(host.issues, n)) else host, [AddLabel(n, w)])
  }

  function Unflag(host: Content, n: nat, landed: bool): Content {
    Logged(if landed then host.(issues := RemoveFlight(host.issues, n)) else host, [RemoveLabel(n, landed)])
  }

  function Post(host: Content, c: Comment, w: Write): Content {
    Logged(if w.Landed() then host.(comments := host.comments + [c]) else host, [PostComment(c, w)])
  }

  function Spawn(host: Content, name: string, w: Write): Content {
    Logged(if w.Landed() then host.(sessions := host.sessions + [name]) else host, [NewSession(name, w)])
  }

  /** Clears the label of a linked issue that had it in the survey; `cleared` says whether the removal took effect. */
  function Tidy(open: seq<Issue>, host: Content, link: Option<nat>, cleared: bool): Content {
    if link.Some? && FlaggedIn(open, link.value) then Unflag(host, link.value, cleared) else host
  }

  function Housekeep(open: seq<Issue>, host: Content, links: seq<Option<nat>>, cleared: seq<bool>): Content
    requires |cleared| == |links|
  {
    if links == [] then host
    else
      var n := |links| - 1;
      Tidy(open, Housekeep(open, host, links[..n], cleared[..n]), links[n], cleared[n])
  }

  // ---------- merging ----------

  function Merge(cfg: Config, st: State, c: Classification, o: Outcome): State {
    var report := st.pass.report;
    if c.bucket == PrOpen && c.pr.Some? && !cfg.dryRun then
      var host := Logged(st.host, [MergePr(c.pr.value, o.merge)]);
      if o.merge then
        st.(host := host.(merged := st.host.merged + [c.pr.value]),
            pass := st.pass.(report := report.(merged := report.merged + [c.pr.value], progress := true)))
      else st.(host := host)
    else if c.bucket == PrFailing && c.pr.Some? then
      st.(pass := st.pass.(report := report.(prFailing := report.prFailing + [c.pr.value])))
    else st
  }

  function MergeAll(cfg: Config, st: State, cs: seq<Classification>, os: seq<Outcome>): State
    requires |os| == |cs|
  {
    if cs == [] then st
    else
      var n := |cs| - 1;
      Merge(cfg, MergeAll(cfg, st, cs[..n], os[..n]), cs[n], os[n])
  }

  // ---------- dispatching one Ready issue ----------

  /** The issue is counted as dispatched. */
  function Count(pass: Pass, n: nat, preset: Preset): Pass {
    pass.(dispatched := pass.dispatched + 1, bureaucratic := pass.bureaucratic || preset == Bureaucratic,
          report := pass.report.(triggered := pass.report.triggered + [n], progress := true))
  }

  /** Label first, then the trigger comment; a failed comment rolls the label back. */
  function TriggerWeb(st: State, n: nat, preset: Preset, flag: Write, post: Write, rollback: bool): State {
    var host := Flag(st.host, n, flag);
    if flag.Lost? then st.(host := host)
    else
      var posted := Post(host, Comment(n, true, true), post);
      if post.Done? then st.(host := posted, pass := Count(st.pass, n, preset))
      else st.(host := Unflag(posted, n, rollback))
  }

  /** Label first, then a session with its start line and its prompt; a failed session or prompt rolls the label back. */
  function TriggerTmux(st: State, n: nat, preset: Preset, slot: nat, flag: Write, session: Write, start: bool, prompt: bool,
      rollback: bool): State {
    var host := Flag(st.host, n, flag);
    if flag.Lost? then st.(host := host)
    else
      var name := SlotName(Agent, slot);
      var spawned := Spawn(host, name, session);
      if session.Lost? then st.(host := Unflag(spawned, n, rollback))
      else
        var told := Logged(spawned, [SendLine(name, start), SendLine(name, prompt)]);
        if prompt then st.(host := told, pass := Count(st.pass.(slots := st.pass.slots + [slot]), n, preset))
        else st.(host := Unflag(told, n, rollback))
  }

  /** The caps of the two runners; a tmux issue without adapter goes to the web once a slot is free. */
  function Launch(cfg: Config, st: State, i: Issue, preset: Preset, o: Outcome): State {
    var full := st.pass.dispatched >= cfg.maxBeats;
    match RunnerFor(i.labels)
    case Web => if full || cfg.dryRun then st else TriggerWeb(st, i.number, preset, o.flag, o.post, o.rollback)
    case Tmux =>
      var slot := NextFree(st.pass.slots, cfg.maxBeats);
      if slot.None? || cfg.dryRun then st
      else if cfg.tmux then TriggerTmux(st, i.number, preset, slot.value, o.flag, o.session, o.start, o.prompt, o.rollback)
      else if full then st
      else TriggerWeb(st, i.number, preset, o.flag, o.post, o.rollback)
  }

  function DeferIssue(st: State, n: nat): State {
    st.(pass := st.pass.(report := st.pass.report.(deferred := st.pass.report.deferred + [n])))
  }

  /** The hard chord: under the bureaucratic preset one dispatch at a time, and none while any issue is in flight. */
  function Serialise(cfg: Config, sv: Survey, st: State, i: Issue, preset: Preset, o: Outcome): State {
    if preset != Bureaucratic then Launch(cfg, st, i, preset, o)
    else if AnyInFlight(sv.open) || st.pass.bureaucratic then DeferIssue(st, i.number)
    else
      var asked := st.(host := Logged(st.host, [TryPermit(o.permit)]));
      if o.permit then Launch(cfg, asked, i, preset, o) else DeferIssue(asked, i.number)
  }

  function EffectivePreset(cfg: Config, i: Issue): Preset {
    ResolvePreset(cfg.preset, PresetFromLabels(i.labels))
  }

  function FirstSeen(soft: map<nat, int>, n: nat): Option<int> {
    if n in soft then Some(soft[n]) else None
  }

  function IsolationOf(cfg: Config, sv: Survey, soft: map<nat, int>, i: Issue, now: int): Isolation.Decision {
    Decide(EffectivePreset(cfg, i), SiblingPrs(i.number, sv.prs), FirstSeen(soft, i.number), now, cfg.timeout)
  }

  /** The issue is held back; the clock is read again only for a first time. */
  function Hold(st: State, n: nat, o: Outcome): State {
    if n in st.soft then DeferIssue(st, n)
    else DeferIssue(st.(host := Logged(st.host, [Clock(o.stampAt)]), soft := st.soft[n := o.stampAt]), n)
  }

  /** The issue is let go: the advisory is posted, and when it was first held back is forgotten. */
  function Release(cfg: Config, st: State, n: nat, decision: Isolation.Decision, o: Outcome): State {
    var host :=
      if decision.DispatchWithAdvisory? && !cfg.dryRun then Post(st.host, Comment(n, false, true), o.advised) else st.host;
    st.(host := host, soft := st.soft - {n})
  }

  /** The soft chord holds the issue back, or lets it go on to its dispatch. */
  function Isolate(cfg: Config, sv: Survey, st: State, i: Issue, o: Outcome): State {
    var decision := IsolationOf(cfg, sv, st.soft, i, o.decideAt);
    var read := st.(host := Logged(st.host, [Clock(o.decideAt)]));
    if decision == Defer then Hold(read, i.number, o)
    else Serialise(cfg, sv, Release(cfg, read, i.number, decision, o), i, EffectivePreset(cfg, i), o)
  }

  function NotReady(st: State, c: Classification): State {
    var report := st.pass.report;
    var next :=
      match c.bucket
      case TriggeredWaiting => report.(waiting := report.waiting + [c.issue])
      case Blocked => report.(blocked := report.blocked + [c.issue])
      case HumanOnly => report.(human := report.human + [c.issue])
      case _ => report;
    st.(pass := st.pass.(report := next))
  }

  /** Where the mailbox is attached it is asked for a scope claim. */
  function AskMailbox(cfg: Config, st: State, n: nat, o: Outcome): State {
    if cfg.mailbox then st.(host := Logged(st.host, [Inbox(n, o.claimed)])) else st
  }

  function Overlap(st: State, n: nat): State {
    st.(pass := st.pass.(report := st.pass.report.(overlap := st.pass.report.overlap + [n])))
  }

  /** One turn of the loop over the classified issues; `i` is the surveyed issue and `c` its classification. */
  function Handle(cfg: Config, sv: Survey, st: State, i: Issue, c: Classification, o: Outcome): State {
    if c.bucket != Ready then NotReady(st, c)
    else if i.Has(InFlight) then st
    else if cfg.mailbox && o.claimed then Overlap(AskMailbox(cfg, st, c.issue, o), c.issue)
    else Isolate(cfg, sv, AskMailbox(cfg, st, c.issue, o), i, o)
  }

  function ClassifyIn(sv: Survey, i: Issue): Classification {
    Classify(i, sv.closed, sv.prs, sv.triggered)
  }

  function Classifications(sv: Survey): seq<Classification> {
    seq(|sv.open|, k requires 0 <= k < |sv.open| => ClassifyIn(sv, sv.open[k]))
  }

  /** The first `k` turns of that loop. */
  function HandleUpTo(cfg: Config, sv: Survey, st: State, os: seq<Outcome>, k: nat): State
    requires |os| == |sv.open| && k <= |sv.open|
  {
    if k == 0 then st
    else Handle(cfg, sv, HandleUpTo(cfg, sv, st, os, k - 1), sv.open[k - 1], ClassifyIn(sv, sv.open[k - 1]), os[k - 1])
  }

  // ---------- the cycle ----------

  /**
   * How the host answered during a cycle: the reads that may fail without ending it, with one entry per issue for its
   * comments, whether each label removal of the housekeeping took effect, and per issue.
   */
  datatype Answers = Answers(closedRead: bool, sessionsRead: bool, read: seq<bool>, cleared: seq<bool>, outcomes: seq<Outcome>)

  predicate Fits(cfg: Config, sv: Survey, a: Answers) {
    |a.outcomes| == |sv.open| && |a.read| == |sv.open| && (!cfg.dryRun ==> |a.cleared| == |Links(sv)|)
  }

  function SurveyCalls(a: Answers): seq<Call> {
    [ListClosedPrs(a.closedRead), ListOpenIssues(true), ListClosedIssueNumbers(true), ListOpenPrs(true)]
  }

  function ReadCalls(open: seq<Issue>, read: seq<bool>): seq<Call>
    requires |read| == |open|
  {
    seq(|open|, k requires 0 <= k < |open| => ListIssueComments(open[k].number, read[k]))
  }

  function SessionCalls(cfg: Config, a: Answers): seq<Call> {
    if cfg.tmux then [ListSessions(a.sessionsRead)] else []
  }

  /** The host after the surveys and the housekeeping. */
  function Tidied(cfg: Config, sv: Survey, host: Content, a: Answers): Content
    requires Fits(cfg, sv, a)
  {
    var surveyed := Logged(host, SurveyCalls(a));
    if cfg.dryRun then surveyed else Housekeep(sv.open, surveyed, Links(sv), a.cleared)
  }

  /** The pass when the loops start: the agent slots of the surveyed sessions are in use. */
  function FirstPass(cfg: Config, sv: Survey): Pass {
    Pass(SlotIndices(if cfg.tmux then sv.sessions else [], Agent), 0, false, NO_REPORT)
  }

  /** The state when pull requests are merged. */
  function Surveyed(cfg: Config, sv: Survey, host: Content, soft: map<nat, int>, a: Answers): State
    requires Fits(cfg, sv, a)
  {
    State(Logged(Tidied(cfg, sv, host, a), ReadCalls(sv.open, a.read) + SessionCalls(cfg, a)), soft, FirstPass(cfg, sv))
  }

  /** The state when the loop over the issues starts. */
  function Prepared(cfg: Config, sv: Survey, host: Content, soft: map<nat, int>, a: Answers): State
    requires Fits(cfg, sv, a)
  {
    MergeAll(cfg, Surveyed(cfg, sv, host, soft, a), Classifications(sv), a.outcomes)
  }

  function RunCycle(cfg: Config, sv: Survey, host: Content, soft: map<nat, int>, a: Answers): State
    requires Fits(cfg, sv, a)
  {
    HandleUpTo(cfg, sv, Prepared(cfg, sv, host, soft, a), a.outcomes, |sv.open|)
  }
}
