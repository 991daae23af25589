/** The orchestrator and the repository host it works on: `run_cycle` step by step, with calls that may fail. */
module Orchestrator {
  import opened Options
  import opened Repo
  import opened Isolation
  import opened Classifier
  import opened Dispatch
  import opened Cycle
  import opened CycleLaws
  import opened FlightLabels
  import opened CycleEffects
  import opened ReportedBuckets
  import opened Runs
  import opened SoftChord

  function CommentsFor(comments: seq<Comment>, n: nat): (r: seq<Comment>)
    ensures forall c :: c in r <==> c in comments && c.issue == n
  {
    if comments == [] then [] else (if comments[0].issue == n then [comments[0]] else []) + CommentsFor(comments[1..], n)
  }

  /**
   * The repository host, with its mailbox, terminal sessions, clock and the coordinator's permit. Any call may fail; `log`
   * holds every call with its answer.
   */
  class Host {
    var issues: seq<Issue>
    var comments: seq<Comment>
    var sessions: seq<string>
    var merged: seq<nat>
    var closed: set<nat>
    var prs: seq<Pr>
    var closedLinks: seq<Option<nat>>
    var claims: set<nat>
    ghost var log: seq<Call>

    ghost function Contents(): Content
      reads this
    {
      Content(issues, comments, sessions, merged, log)
    }

    method ListOpenIssues() returns (r: Option<seq<Issue>>)
      modifies this`log
      ensures log == old(log) + [Call.ListOpenIssues(r.Some?)]
      ensures r.Some? ==> r.value == issues
    {
      var ok := *;
      log := log + [Call.ListOpenIssues(ok)];
      r := if ok then Some(issues) else None;
    }

    method ListClosedIssueNumbers() returns (r: Option<set<nat>>)
      modifies this`log
      ensures log == old(log) + [Call.ListClosedIssueNumbers(r.Some?)]
      ensures r.Some? ==> r.value == closed
    {
      var ok := *;
      log := log + [Call.ListClosedIssueNumbers(ok)];
      r := if ok then Some(closed) else None;
    }

    method ListOpenPrs() returns (r: Option<seq<Pr>>)
      modifies this`log
      ensures log == old(log) + [Call.ListOpenPrs(r.Some?)]
      ensures r.Some? ==> r.value == prs
    {
      var ok := *;
      log := log + [Call.ListOpenPrs(ok)];
      r := if ok then Some(prs) else None;
    }

    method ListClosedPrs() returns (r: Option<seq<Option<nat>>>)
      modifies this`log
      ensures log == old(log) + [Call.ListClosedPrs(r.Some?)]
      ensures r.Some? ==> r.value == closedLinks
    {
      var ok := *;
      log := log + [Call.ListClosedPrs(ok)];
      r := if ok then Some(closedLinks) else None;
    }

    method ListIssueComments(n: nat) returns (r: Option<seq<Comment>>)
      modifies this`log
      ensures log == old(log) + [Call.ListIssueComments(n, r.Some?)]
      ensures r.Some? ==> r.value == CommentsFor(comments, n)
    {
      var ok := *;
      log := log + [Call.ListIssueComments(n, ok)];
      r := if ok then Some(CommentsFor(comments, n)) else None;
    }

    method ListSessions() returns (r: Option<seq<string>>)
      modifies this`log
      ensures log == old(log) + [Call.ListSessions(r.Some?)]
      ensures r.Some? ==> r.value == sessions
    {
      var ok := *;
      log := log + [Call.ListSessions(ok)];
      r := if ok then Some(sessions) else None;
    }

    /** Whether the mailbox shows a scope claim on the issue; an unreadable mailbox shows none. */
    method CheckScopeOverlap(n: nat) returns (claimed: bool)
      modifies this`log
      ensures log == old(log) + [Inbox(n, claimed)]
      ensures claimed ==> n in claims
    {
      var ok := *;
      claimed := ok && n in claims;
      log := log + [Inbox(n, claimed)];
    }

    method ReadClock() returns (at: int)
      modifies this`log
      ensures log == old(log) + [Clock(at)]
    {
      at := *;
      log := log + [Clock(at)];
    }

    method TryAcquire() returns (free: bool)
      modifies this`log
      ensures log == old(log) + [TryPermit(free)]
    {
      free := *;
      log := log + [TryPermit(free)];
    }

    method AddIssueLabel(n: nat) returns (w: Write)
      modifies this`issues, this`log
      ensures Contents() == Flag(old(Contents()), n, w)
    {
      w := *;
      if w.Landed() { issues := AddFlight(issues, n); }
      log := log + [AddLabel(n, w)];
    }

    method RemoveIssueLabel(n: nat) returns (landed: bool)
      modifies this`issues, this`log
      ensures Contents() == Unflag(old(Contents()), n, landed)
    {
      landed := *;
      if landed { issues := RemoveFlight(issues, n); }
      log := log + [RemoveLabel(n, landed)];
    }

    method CommentIssue(c: Comment) returns (w: Write)
      modifies this`comments, this`log
      ensures Contents() == Post(old(Contents()), c, w)
    {
      w := *;
      if w.Landed() { comments := comments + [c]; }
      log := log + [PostComment(c, w)];
    }

    method NewSession(name: string) returns (w: Write)
      modifies this`sessions, this`log
      ensures Contents() == Spawn(old(Contents()), name, w)
    {
      w := *;
      if w.Landed() { sessions := sessions + [name]; }
      log := log + [Call.NewSession(name, w)];
    }

    method SendLine(name: string) returns (ok: bool)
      modifies this`log
      ensures Contents() == Logged(old(Contents()), [Call.SendLine(name, ok)])
    {
      ok := *;
      log := log + [Call.SendLine(name, ok)];
    }

    method MergePrSquash(pr: nat) returns (ok: bool)
      modifies this`merged, this`log
      ensures log == old(log) + [MergePr(pr, ok)] && merged == old(merged) + if ok then [pr] else []
    {
      ok := *;
      if ok { merged := merged + [pr]; }
      log := log + [MergePr(pr, ok)];
    }

    /** Time passes, and others change what they like; no two issues ever share a number. */
    method Pause()
      requires DistinctNumbers(issues)
      modifies this
      ensures DistinctNumbers(issues) && log == old(log)
    {
      var theirs: seq<Issue> := *;
      if DistinctNumbers(theirs) { issues := theirs; }
      comments, sessions, merged := *, *, *;
      closed, prs, closedLinks, claims := *, *, *, *;
    }
  }

  const BLANK := Outcome(false, false, 0, 0, Lost(false), false, Lost(false), Lost(false), Lost(false), false, false, false)

  /** Only the answers of the dispatch itself differ. */
  predicate DispatchOnly(before: Outcome, after: Outcome) {
    after.merge == before.merge && after.claimed == before.claimed && after.decideAt == before.decideAt &&
    after.stampAt == before.stampAt && after.advised == before.advised && after.permit == before.permit
  }

  /** The answers up to the isolation decision are the same. */
  predicate UpToDecision(before: Outcome, after: Outcome) {
    after.merge == before.merge && after.claimed == before.claimed && after.decideAt == before.decideAt
  }

  class Orchestrator {
    const cfg: Config
    var soft: map<nat, int>

    constructor (cfg: Config)
      ensures this.cfg == cfg && soft == map[]
    {
      this.cfg := cfg;
      soft := map[];
    }

    ghost function Now(host: Host, pass: Pass): State
      reads this, host
    {
      State(host.Contents(), soft, pass)
    }

    ghost function Self(host: Host): Machine
      reads this, host
    {
      Machine(host.Contents(), soft)
    }

    method TriggerIssueWeb(host: Host, n: nat, preset: Preset, pass: Pass)
      returns (next: Pass, flag: Write, post: Write, rolled: bool)
      modifies host`issues, host`comments, host`log
      ensures Now(host, next) == TriggerWeb(old(Now(host, pass)), n, preset, flag, post, rolled)
    {
      hide Flag, Unflag, Post, Count, Host.Contents;
      next, post, rolled := pass, Lost(false), false;
      flag := host.AddIssueLabel(n);
      if flag.Done? {
        post := host.CommentIssue(Comment(n, true, true));
        if post.Done? {
          next := Count(pass, n, preset);
        } else {
          rolled := host.RemoveIssueLabel(n);
        }
      }
    }

    method TriggerIssueTmux(host: Host, n: nat, preset: Preset, slot: nat, pass: Pass)
      returns (next: Pass, flag: Write, session: Write, start: bool, prompt: bool, rolled: bool)
      modifies host`issues, host`sessions, host`log
      ensures Now(host, next) == TriggerTmux(old(Now(host, pass)), n, preset, slot, flag, session, start, prompt, rolled)
    {
      hide Flag, Unflag, Spawn, Count, SlotName, Host.Contents, Logged;
      next, session, start, prompt, rolled := pass, Lost(false), false, false, false;
      flag := host.AddIssueLabel(n);
      if flag.Done? {
        var name := SlotName(Agent, slot);
        session := host.NewSession(name);
        if session.Done? {
          ghost var spawned := host.Contents();
          start := host.SendLine(name);
          prompt := host.SendLine(name);
          LoggedTwice(spawned, Call.SendLine(name, start), Call.SendLine(name, prompt));
        }
        if prompt {
          next := Count(pass.(slots := pass.slots + [slot]), n, preset);
        } else {
          rolled := host.RemoveIssueLabel(n);
        }
      }
    }

    /** Dispatch by comment, unless the cap is reached or nothing is to be done. */
    method LaunchWeb(host: Host, i: Issue, preset: Preset, pass: Pass, before: Outcome) returns (next: Pass, o: Outcome)
      modifies host`issues, host`comments, host`log
      ensures Now(host, next) ==
              if pass.dispatched >= cfg.maxBeats || cfg.dryRun then old(Now(host, pass))
              else TriggerWeb(old(Now(host, pass)), i.number, preset, o.flag, o.post, o.rollback)
      ensures DispatchOnly(before, o)
    {
      hide TriggerWeb, Host.Contents;
      next, o := pass, before;
      if pass.dispatched < cfg.maxBeats && !cfg.dryRun {
        var flag, post, rolled;
        next, flag, post, rolled := TriggerIssueWeb(host, i.number, preset, pass);
        o := before.(flag := flag, post := post, rollback := rolled);
      }
    }

    method LaunchTmux(host: Host, i: Issue, preset: Preset, slot: nat, pass: Pass, before: Outcome)
      returns (next: Pass, o: Outcome)
      modifies host`issues, host`sessions, host`log
      ensures Now(host, next) ==
              TriggerTmux(old(Now(host, pass)), i.number, preset, slot, o.flag, o.session, o.start, o.prompt, o.rollback)
      ensures DispatchOnly(before, o)
    {
      hide TriggerTmux, Host.Contents;
      var flag, session, start, prompt, rolled;
      next, flag, session, start, prompt, rolled := TriggerIssueTmux(host, i.number, preset, slot, pass);
      o := before.(flag := flag, session := session, start := start, prompt := prompt, rollback := rolled);
    }

    method LaunchIssue(host: Host, i: Issue, preset: Preset, pass: Pass, before: Outcome) returns (next: Pass, o: Outcome)
      modifies host`issues, host`comments, host`sessions, host`log
      ensures Now(host, next) == Launch(cfg, old(Now(host, pass)), i, preset, o)
      ensures DispatchOnly(before, o)
    {
      ghost var st := Now(host, pass);
      assert st.pass == pass && DispatchOnly(before, before);
      hide TriggerWeb, TriggerTmux, NextFree, RunnerFor, Host.Contents, Now, DispatchOnly;
      next, o := pass, before;
      match RunnerFor(i.labels) {
        case Web =>
          next, o := LaunchWeb(host, i, preset, pass, before);
        case Tmux =>
          var slot := NextFree(pass.slots, cfg.maxBeats);
          if slot.Some? && !cfg.dryRun {
            if cfg.tmux {
              next, o := LaunchTmux(host, i, preset, slot.value, pass, before);
            } else {
              next, o := LaunchWeb(host, i, preset, pass, before);
            }
          }
      }
    }

    /** The hard chord, then the dispatch. */
    method SerialiseIssue(host: Host, sv: Survey, i: Issue, preset: Preset, pass: Pass, before: Outcome)
      returns (next: Pass, o: Outcome)
      modifies host`issues, host`comments, host`sessions, host`log
      ensures Now(host, next) == Serialise(cfg, sv, old(Now(host, pass)), i, preset, o)
      ensures UpToDecision(before, o) && o.advised == before.advised
    {
      hide AnyInFlight, Launch;
      next, o := pass, before;
      var free := true;
      if preset == Bureaucratic {
        free := !AnyInFlight(sv.open) && !pass.bureaucratic;
        if free {
          free := host.TryAcquire();
          o := before.(permit := free);
        }
      }
      if free {
        next, o := LaunchIssue(host, i, preset, pass, o);
      } else {
        next := pass.(report := pass.report.(deferred := pass.report.deferred + [i.number]));
      }
    }

    method HoldIssue(host: Host, n: nat, pass: Pass, before: Outcome) returns (next: Pass, o: Outcome)
      modifies this`soft, host`log
      ensures Now(host, next) == Hold(old(Now(host, pass)), n, o)
      ensures UpToDecision(before, o)
    {
      o := before;
      if n !in soft {
        var stamp := host.ReadClock();
        o := before.(stampAt := stamp);
        soft := soft[n := stamp];
      }
      next := pass.(report := pass.report.(deferred := pass.report.deferred + [n]));
    }

    method ReleaseIssue(host: Host, n: nat, decision: Isolation.Decision, pass: Pass, before: Outcome) returns (o: Outcome)
      modifies this`soft, host`comments, host`log
      ensures Now(host, pass) == Release(cfg, old(Now(host, pass)), n, decision, o)
      ensures UpToDecision(before, o)
    {
      hide Post;
      o := before;
      if decision.DispatchWithAdvisory? && !cfg.dryRun {
        var advised := host.CommentIssue(Comment(n, false, true));
        o := before.(advised := advised);
      }
      soft := soft - {n};
    }

    /** The isolation decision about a Ready issue, and what follows from it. */
    method IsolateIssue(host: Host, sv: Survey, i: Issue, pass: Pass, before: Outcome) returns (next: Pass, o: Outcome)
      modifies this`soft, host`issues, host`comments, host`sessions, host`log
      ensures Now(host, next) == Isolate(cfg, sv, old(Now(host, pass)), i, o)
      ensures o.merge == before.merge && o.claimed == before.claimed
    {
      ghost var st := Now(host, pass);
      var preset := EffectivePreset(cfg, i);
      var now := host.ReadClock();
      ghost var read := st.(host := Logged(st.host, [Clock(now)]));
      assert Now(host, pass) == read;
      o := before.(decideAt := now);
      var decision := Decide(preset, SiblingPrs(i.number, sv.prs), FirstSeen(soft, i.number), now, cfg.timeout);
      assert decision == IsolationOf(cfg, sv, st.soft, i, now);
      hide Decide, SiblingPrs, EffectivePreset, FirstSeen, IsolationOf, Isolate, Hold, Release, Serialise, Logged, Now;
      if decision == Defer {
        next, o := HoldIssue(host, i.number, pass, o);
        IsolateHeld(cfg, sv, st, i, o, now);
      } else {
        o := ReleaseIssue(host, i.number, decision, pass, o);
        ghost var released := o;
        next, o := SerialiseIssue(host, sv, i, preset, pass, o);
        IsolateReleased(cfg, sv, st, i, o, released, now);
      }
    }

    /** One turn of the loop over the classified issues. */
    method HandleIssue(host: Host, sv: Survey, i: Issue, c: Classification, pass: Pass, before: Outcome)
      returns (next: Pass, o: Outcome)
      modifies this`soft, host`issues, host`comments, host`sessions, host`log
      ensures Now(host, next) == Handle(cfg, sv, old(Now(host, pass)), i, c, o)
      ensures o.merge == before.merge
    {
      hide Isolate;
      next, o := pass, before;
      if c.bucket != Ready {
        match c.bucket {
          case TriggeredWaiting => next := pass.(report := pass.report.(waiting := pass.report.waiting + [c.issue]));
          case Blocked => next := pass.(report := pass.report.(blocked := pass.report.blocked + [c.issue]));
          case HumanOnly => next := pass.(report := pass.report.(human := pass.report.human + [c.issue]));
          case _ =>
        }
      } else if i.Has(InFlight) {
      } else {
        var claimed := false;
        if cfg.mailbox {
          claimed := host.CheckScopeOverlap(c.issue);
          o := o.(claimed := claimed);
        }
        if claimed {
          next := pass.(report := pass.report.(overlap := pass.report.overlap + [c.issue]));
        } else {
          next, o := IsolateIssue(host, sv, i, pass, o);
        }
      }
    }

    /** Turn `k`, extending the record of outcomes. */
    method HandleTurn(host: Host, sv: Survey, ghost st0: State, ghost os: seq<Outcome>, pass: Pass, k: nat)
      returns (next: Pass, ghost recorded: seq<Outcome>)
      requires |os| == |sv.open| && k < |sv.open|
      requires Now(host, pass) == HandleUpTo(cfg, sv, st0, os, k)
      modifies this`soft, host`issues, host`comments, host`sessions, host`log
      ensures |recorded| == |os| && forall j :: 0 <= j < |os| ==> recorded[j].merge == os[j].merge
      ensures Now(host, next) == HandleUpTo(cfg, sv, st0, recorded, k + 1)
    {
      hide Handle, ClassifyIn, HandleUpTo, Host.Contents;
      var o;
      next, o := HandleIssue(host, sv, sv.open[k], ClassifyIn(sv, sv.open[k]), pass, BLANK);
      recorded := os[k := o.(merge := os[k].merge)];
      HandleIgnoresMerge(cfg, sv, HandleUpTo(cfg, sv, st0, os, k), sv.open[k], ClassifyIn(sv, sv.open[k]), o, os[k].merge);
      HandleSame(cfg, sv, st0, os, recorded, k);
      HandledNext(cfg, sv, st0, recorded, k + 1);
    }

    method HandleAll(host: Host, sv: Survey, pass0: Pass, ghost merges: seq<Outcome>) returns (pass: Pass, ghost os: seq<Outcome>)
      requires |merges| == |sv.open|
      modifies this`soft, host`issues, host`comments, host`sessions, host`log
      ensures |os| == |merges| && forall j :: 0 <= j < |os| ==> os[j].merge == merges[j].merge
      ensures Now(host, pass) == HandleUpTo(cfg, sv, old(Now(host, pass0)), os, |sv.open|)
    {
      ghost var st0 := Now(host, pass0);
      pass, os := pass0, merges;
      for k := 0 to |sv.open|
        invariant |os| == |merges| && forall j :: 0 <= j < |os| ==> os[j].merge == merges[j].merge
        invariant Now(host, pass) == HandleUpTo(cfg, sv, st0, os, k)
      {
        pass, os := HandleTurn(host, sv, st0, os, pass, k);
      }
    }

    /** Merges one pull request, or lists it as failing. */
    method MergeOne(host: Host, c: Classification, pass: Pass) returns (next: Pass, ghost o: Outcome)
      modifies host`merged, host`log
      ensures Now(host, next) == Merge(cfg, old(Now(host, pass)), c, o)
    {
      next, o := pass, BLANK;
      if c.bucket == PrOpen {
        if c.pr.Some? && !cfg.dryRun {
          var ok := host.MergePrSquash(c.pr.value);
          o := BLANK.(merge := ok);
          if ok {
            next := pass.(report := pass.report.(merged := pass.report.merged + [c.pr.value], progress := true));
          }
        }
      } else if c.bucket == PrFailing && c.pr.Some? {
        next := pass.(report := pass.report.(prFailing := pass.report.prFailing + [c.pr.value]));
      }
    }

    method MergePrs(host: Host, cs: seq<Classification>, pass0: Pass) returns (pass: Pass, ghost os: seq<Outcome>)
      modifies host`merged, host`log
      ensures |os| == |cs| && Now(host, pass) == MergeAll(cfg, old(Now(host, pass0)), cs, os)
    {
      ghost var st0 := Now(host, pass0);
      pass, os := pass0, [];
      for k := 0 to |cs|
        invariant |os| == k && Now(host, pass) == MergeAll(cfg, st0, cs[..k], os)
      {
        ghost var o;
        pass, o := MergeOne(host, cs[k], pass);
        MergeAllNext(cfg, st0, cs, os, k, o);
        os := os + [o];
      }
      assert cs[..|cs|] == cs;
    }

    /** Clears the in-flight label of the surveyed issues that the links name. */
    method TidyLinks(host: Host, open: seq<Issue>, links: seq<Option<nat>>) returns (ghost cleared: seq<bool>)
      modifies host`issues, host`log
      ensures |cleared| == |links|
      ensures host.Contents() == Housekeep(open, old(host.Contents()), links, cleared)
    {
      ghost var before := host.Contents();
      cleared := [];
      for k := 0 to |links|
        invariant |cleared| == k && host.Contents() == Housekeep(open, before, links[..k], cleared)
      {
        var gone := false;
        if links[k].Some? && FlaggedIn(open, links[k].value) {
          gone := host.RemoveIssueLabel(links[k].value);
        }
        HousekeepNext(open, before, links, cleared, k, gone);
        cleared := cleared + [gone];
      }
      assert links[..|links|] == links;
    }

    /** Housekeeping: first the open pull requests, then the closed ones. */
    method TidyAll(host: Host, open: seq<Issue>, prs: seq<Pr>, closedLinks: seq<Option<nat>>) returns (ghost cleared: seq<bool>)
      modifies host`issues, host`log
      ensures var links := LinkedIssues(prs) + closedLinks;
              |cleared| == |links| && host.Contents() == Housekeep(open, old(host.Contents()), links, cleared)
    {
      var links := LinkedIssues(prs);
      ghost var first := TidyLinks(host, open, links);
      ghost var second := TidyLinks(host, open, closedLinks);
      cleared := first + second;
      HousekeepJoin(open, old(host.Contents()), links, first, closedLinks, second);
    }

    /**
     * Reads the comments of every surveyed issue; exactly those whose read succeeded and shows a trigger count as
     * triggered. `read` says which reads succeeded, as logged.
     */
    method ReadTriggered(host: Host, open: seq<Issue>) returns (triggered: set<nat>, ghost read: seq<bool>)
      modifies host`log
      ensures |read| == |open| && host.log == old(host.log) + ReadCalls(open, read)
      ensures forall n :: n in triggered <==>
        exists k :: 0 <= k < |open| && open[k].number == n && read[k] && ShowsTrigger(host.comments, n)
    {
      ghost var before := host.log;
      triggered, read := {}, [];
      for k := 0 to |open|
        invariant |read| == k && host.log == before + ReadCalls(open[..k], read)
        invariant forall n :: n in triggered <==> Found(open[..k], read, host.comments, n)
      {
        var n := open[k].number;
        var comments := host.ListIssueComments(n);
        FoundNext(open, read, comments.Some?, host.comments, k);
        if comments.Some? && exists c :: c in comments.value && c.trigger {
          triggered := triggered + {n};
          assert ShowsTrigger(host.comments, n);
        } else {
          assert comments.Some? ==> !ShowsTrigger(host.comments, n);
        }
        read := read + [comments.Some?];
      }
      assert open[..|open|] == open;
    }

    /** The surveys that a cycle starts with; only that of closed pull requests may fail without ending it. */
    method ListAll(host: Host) returns (r: Option<Survey>, ghost closedRead: bool)
      modifies host`log
      ensures old(host.log) <= host.log
      ensures r.None? ==> SurveyFailed(CallsSince(old(host.log), host.log))
      ensures r.Some? ==>
        host.log == old(host.log) +
          [Call.ListClosedPrs(closedRead), Call.ListOpenIssues(true), Call.ListClosedIssueNumbers(true),
           Call.ListOpenPrs(true)] &&
        r.value == Survey(host.issues, host.closed, host.prs, if closedRead then host.closedLinks else [], {}, [])
    {
      r := None;
      var closedPrs := host.ListClosedPrs();
      closedRead := closedPrs.Some?;
      var open := host.ListOpenIssues();
      if open.None? { return; }
      var closed := host.ListClosedIssueNumbers();
      if closed.None? { return; }
      var prs := host.ListOpenPrs();
      if prs.None? { return; }
      r := Some(Survey(open.value, closed.value, prs.value, if closedPrs.Some? then closedPrs.value else [], {}, []));
    }

    /** Housekeeping, then the comments of every issue, then the sessions. */
    method Observe(host: Host, listed: Survey, ghost host0: Content, ghost closedRead: bool)
      returns (sv: Survey, ghost a: Answers)
      requires var first := Answers(closedRead, false, [], [], []); host.Contents() == Logged(host0, SurveyCalls(first))
      modifies host`issues, host`log
      ensures sv == listed.(triggered := sv.triggered, sessions := if cfg.tmux && a.sessionsRead then host.sessions else [])
      ensures Fits(cfg, sv, a) && a.closedRead == closedRead && TruthfulSurvey(cfg, host.comments, sv, a)
      ensures host.Contents() == Logged(Tidied(cfg, sv, host0, a), ReadCalls(sv.open, a.read) + SessionCalls(cfg, a))
    {
      ghost var cleared := [];
      if !cfg.dryRun {
        cleared := TidyAll(host, listed.open, listed.prs, listed.closedLinks);
      }
      ghost var tidied := host.Contents();
      var triggered;
      ghost var read;
      triggered, read := ReadTriggered(host, listed.open);
      var sessions: Option<seq<string>> := None;
      if cfg.tmux {
        sessions := host.ListSessions();
      }
      sv := listed.(triggered := triggered, sessions := if sessions.Some? then sessions.value else []);
      a := Answers(closedRead, sessions.Some?, read, cleared, seq(|listed.open|, _ => BLANK));
      hide Housekeep, LinkedIssues, ReadCalls, ShowsTrigger;
      assert tidied == Tidied(cfg, sv, host0, a);
    }

    /**
     * One cycle. It fails exactly if a survey call failed, and then changes nothing; otherwise host, log, soft-chord map
     * and report are those of the functional cycle on what was read, for the answers that the log records.
     */
    method RunCycle(host: Host) returns (r: Option<CycleReport>, ghost sv: Survey, ghost a: Answers)
      modifies this`soft, host`issues, host`comments, host`sessions, host`merged, host`log
      ensures old(host.log) <= host.log && (r.None? <==> SurveyFailed(CallsSince(old(host.log), host.log)))
      ensures r.None? ==> host.Contents() == old(host.Contents()).(log := host.log) && soft == old(soft)
      ensures r.Some? ==>
        Fits(cfg, sv, a) && sv.open == old(host.issues) && sv.closed == host.closed && sv.prs == host.prs &&
        sv.closedLinks == (if a.closedRead then host.closedLinks else []) &&
        sv.sessions == (if cfg.tmux && a.sessionsRead then old(host.sessions) else []) &&
        TruthfulSurvey(cfg, old(host.comments), sv, a) &&
        var s := Cycle.RunCycle(cfg, sv, old(host.Contents()), old(soft), a);
        host.Contents() == s.host && soft == s.soft && r.value == s.pass.report
      ensures r.Some? ==>
        host.merged == old(host.merged) + r.value.merged &&
        forall m :: m in r.value.merged ==> !cfg.dryRun && FitToMerge(sv, m)
      ensures r.Some? && ReadsTook(CallsSince(old(host.log), host.log)) ==> CommentsTold(old(Self(host)), RunOf(sv, a))
      ensures r.Some? && LabelsTook(CallsSince(old(host.log), host.log)) ==> FlagsTold(cfg, old(Self(host)), RunOf(sv, a))
    {
      hide Cycle.RunCycle, TruthfulSurvey, SurveyFailed, Links, CommentsTold, FlagsTold, CycleCalls, ReadsTook, LabelsTook;
      hide FitToMerge, Tidied, ReadCalls, SessionCalls, SlotIndices;
      sv, a := Survey([], {}, [], [], {}, []), Answers(false, false, [], [], []);
      ghost var host0, soft0 := host.Contents(), soft;
      var listed;
      ghost var closedRead;
      listed, closedRead := ListAll(host);
      if listed.None? { return None, sv, a; }
      var survey;
      survey, a := Observe(host, listed.value, host0, closedRead);
      sv := survey;
      ghost var os;
      var report;
      report, os := Act(host, survey, host0, soft0, a);
      TruthWithout(cfg, old(host.comments), sv, a, os);
      a := a.(outcomes := os);
      SurveyLogged(cfg, sv, host0, soft0, a);
      CycleCallsMean(cfg, sv, host0, soft0, a);
      WellTold(cfg, Machine(host0, soft0), sv, a);
      MergedFit(cfg, sv, host0, soft0, a);
      r := Some(report);
    }

    /** The part of a cycle that follows the survey. */
    method Act(host: Host, sv: Survey, ghost host0: Content, ghost soft0: map<nat, int>, ghost a: Answers)
      returns (report: CycleReport, ghost os: seq<Outcome>)
      requires Fits(cfg, sv, a) && Now(host, FirstPass(cfg, sv)) == Surveyed(cfg, sv, host0, soft0, a)
      modifies this`soft, host`issues, host`comments, host`sessions, host`merged, host`log
      ensures |os| == |sv.open|
      ensures var s := Cycle.RunCycle(cfg, sv, host0, soft0, a.(outcomes := os));
              host.Contents() == s.host && soft == s.soft && report == s.pass.report
    {
      var slots := ActiveSlotIndices(if cfg.tmux then sv.sessions else [], Agent);
      var pass := Pass(slots, 0, false, NO_REPORT);
      ghost var start := Now(host, pass);
      ghost var merges;
      pass, merges := MergePrs(host, Classifications(sv), pass);
      pass, os := HandleAll(host, sv, pass, merges);
      MergeSame(cfg, start, Classifications(sv), merges, os);
      hide MergeAll, HandleUpTo, Classifications, Links, SlotIndices, Housekeep;
      report := pass.report;
    }

    /** One more cycle of a run. */
    method CycleAgain(host: Host, ghost start: Machine, ghost acts: seq<Action>, ghost history: seq<CycleReport>)
      returns (report: Option<CycleReport>, ghost more: seq<Action>)
      requires DistinctNumbers(start.host.issues) && Ran(cfg, start, acts, history, Self(host)) && |acts| == 2 * |history|
      modifies this`soft, host`issues, host`comments, host`sessions, host`merged, host`log
      ensures |more| == if report.Some? then |acts| + 1 else |acts|
      ensures report.Some? ==> Ran(cfg, start, more, history + [report.value], Self(host))
      ensures report.None? ==> more == acts && StoppedAt(After(cfg, start, acts), Self(host))
    {
      hide Cycle.RunCycle, TruthfulSurvey, SurveyFailed, CommentsTold, FlagsTold, ReadsTook, LabelsTook, CallsSince;
      hide PossibleRun, Alternating, Reports, After, DistinctNumbers, Fits;
      RanMeans(cfg, start, acts, history, Self(host));
      hide Ran;
      ghost var before := Self(host);
      ghost var sv, a;
      report, sv, a := RunCycle(host);
      more := acts;
      if report.Some? {
        more := acts + [RunOf(sv, a)];
        CycleIsStep(cfg, before, sv, a, Self(host), report.value);
        RanCycle(cfg, start, acts, history, before, sv, a);
      }
    }

    /** The pause between two cycles, in which others act. */
    method PauseAgain(host: Host, ghost start: Machine, ghost acts: seq<Action>, ghost history: seq<CycleReport>)
      returns (ghost more: seq<Action>)
      requires DistinctNumbers(start.host.issues) && Ran(cfg, start, acts, history, Self(host)) && |acts| + 1 == 2 * |history|
      modifies host
      ensures |more| == |acts| + 1 && Ran(cfg, start, more, history, Self(host))
    {
      hide Ran, DistinctNumbers;
      ghost var before := Self(host);
      RanNumbers(cfg, start, acts, history, before);
      host.Pause();
      ghost var act := Environment(host.Contents());
      more := acts + [act];
      RanPause(cfg, start, acts, history, before, act);
      assert Next(cfg, before, act) == Self(host);
    }

    /**
     * Cycles, with a pause after each, until a cycle ends the loop: nothing is left, or the limit is reached if there is
     * one. A failed survey ends it with an error. A loop that still goes on is watched for `patience` cycles, whatever
     * that number is, since without a limit it need not end. What happened is a run of the machine in which cycles and
     * pauses alternate, each possible where it was taken, and the reports are those of its cycles.
     */
    method RunToCompletion(host: Host, maxCycles: Option<nat>, patience: nat) returns (r: LoopResult, ghost acts: seq<Action>)
      requires DistinctNumbers(host.issues)
      modifies this`soft, host
      ensures PossibleRun(cfg, old(Self(host)), acts) && Alternating(acts)
      ensures r.Completed? ==>
        Ran(cfg, old(Self(host)), acts, r.history, Self(host)) && |acts| + 1 == 2 * |r.history| &&
        var last := |r.history| - 1;
        GoesOn(maxCycles, r.history[..last]) && EndsLoop(maxCycles, last, r.history[last])
      ensures r.Running? ==>
        Ran(cfg, old(Self(host)), acts, r.history, Self(host)) && |acts| == 2 * |r.history| == 2 * patience &&
        GoesOn(maxCycles, r.history)
      ensures r.Failed? ==>
        |acts| % 2 == 0 && StoppedAt(After(cfg, old(Self(host)), acts), Self(host)) &&
        GoesOn(maxCycles, Reports(cfg, old(Self(host)), acts))
      ensures LeftWhenDone(maxCycles, r)
      ensures old(host.log) <= host.log
      ensures ReadsTook(CallsSince(old(host.log), host.log)) && OthersKeepTriggers(cfg, old(Self(host)), acts) ==>
        forall n :: OurTriggers(old(host.comments), n) <= 1 ==> OurTriggers(host.comments, n) <= 1
      ensures LabelsTook(CallsSince(old(host.log), host.log)) && OthersKeepChord(cfg, old(Self(host)), acts) ==>
        HardChord(cfg, old(host.issues)) ==> HardChord(cfg, host.issues)
    {
      hide Ran, PossibleRun, Alternating, Reports, After, StoppedAt, DistinctNumbers, GoesOn, EndsLoop;
      hide OurTriggers, HardChord, OthersKeepTriggers, OthersKeepChord, ReadsTook, LabelsTook, CallsSince;
      ghost var start := Self(host);
      var history: seq<CycleReport> := [];
      acts := [];
      r := Running([]);
      RanNothing(cfg, start);
      GoesOnNothing(maxCycles);
      while |history| < patience
        invariant |history| <= patience && r == Running(history) && |acts| == 2 * |history|
        invariant Ran(cfg, start, acts, history, Self(host)) && GoesOn(maxCycles, history)
      {
        RanMeans(cfg, start, acts, history, Self(host));
        var report;
        report, acts := CycleAgain(host, start, acts, history);
        if report.None? {
          r := Failed;
          break;
        }
        GoesOnNext(maxCycles, history, report.value);
        history := history + [report.value];
        if NothingLeft(report.value) || (maxCycles.Some? && |history| >= maxCycles.value) {
          r := Completed(history);
          break;
        }
        acts := PauseAgain(host, start, acts, history);
        r := Running(history);
      }
      if !r.Failed? { RanMeans(cfg, start, acts, history, Self(host)); }
      LoopEnd(maxCycles, r);
      hide *;
      LoopSafety(cfg, start, acts, Self(host));
    }
  }

  // ---------- surveys ----------

  /** Some read issue has the number, and its comments were read and show a trigger. */
  ghost predicate Found(open: seq<Issue>, read: seq<bool>, comments: seq<Comment>, n: nat)
    requires |read| == |open|
  {
    exists k :: 0 <= k < |open| && open[k].number == n && read[k] && ShowsTrigger(comments, n)
  }

  lemma FoundNext(open: seq<Issue>, read: seq<bool>, ok: bool, comments: seq<Comment>, k: nat)
    requires k < |open| && |read| == k
    ensures ReadCalls(open[..k + 1], read + [ok]) == ReadCalls(open[..k], read) + [ListIssueComments(open[k].number, ok)]
    ensures forall n :: Found(open[..k + 1], read + [ok], comments, n) <==>
              Found(open[..k], read, comments, n) || (open[k].number == n && ok && ShowsTrigger(comments, n))
  {
    hide ShowsTrigger;
    var more, oks := open[..k + 1], read + [ok];
    assert |ReadCalls(more, oks)| == k + 1;
    forall n: nat
      ensures Found(more, oks, comments, n) <==>
        Found(open[..k], read, comments, n) || (open[k].number == n && ok && ShowsTrigger(comments, n))
    {
      if j :| 0 <= j < k && open[..k][j].number == n && read[j] && ShowsTrigger(comments, n) {
        assert more[j].number == n && oks[j];
      }
      if open[k].number == n && ok && ShowsTrigger(comments, n) {
        assert more[k].number == n && oks[k];
      }
      if j :| 0 <= j < k + 1 && more[j].number == n && oks[j] && ShowsTrigger(comments, n) {
        if j < k { assert open[..k][j].number == n && read[j]; }
      }
    }
  }

  /** The calls of a cycle that ended because a survey failed. */
  predicate SurveyFailed(calls: seq<Call>) {
    2 <= |calls| <= 4 && calls[|calls| - 1] in {ListOpenIssues(false), ListClosedIssueNumbers(false), ListOpenPrs(false)}
  }

  /** A cycle that runs through starts with the survey calls, and all three answer. */
  lemma SurveyLogged(cfg: Config, sv: Survey, host: Content, soft: map<nat, int>, a: Answers)
    requires Fits(cfg, sv, a)
    ensures host.log + SurveyCalls(a) <= Cycle.RunCycle(cfg, sv, host, soft, a).host.log
    ensures !SurveyFailed(CycleCalls(cfg, sv, host, soft, a))
  {
    var surveyed := Logged(host, SurveyCalls(a));
    if !cfg.dryRun { TidyingApart(sv.open, surveyed, Links(sv), a.cleared); }
    MergesApart(cfg, Surveyed(cfg, sv, host, soft, a), Classifications(sv), a.outcomes);
    LogGrows(cfg, sv, host, soft, a);
    hide MergeAll, Classifications, Housekeep, HandleUpTo, Links, SlotIndices;
    var log := Cycle.RunCycle(cfg, sv, host, soft, a).host.log;
    var tidied, asked := Tidied(cfg, sv, host, a).log, Surveyed(cfg, sv, host, soft, a).host.log;
    assert surveyed.log <= tidied <= asked <= log;
    hide *;
    FourthAnswers(host.log, log, a);
    assert CallsSince(host.log, log) == CycleCalls(cfg, sv, host, soft, a) by { CycleCallsMean(cfg, sv, host, soft, a); }
  }

  lemma TruthWithout(cfg: Config, comments: seq<Comment>, sv: Survey, a: Answers, os: seq<Outcome>)
    requires Fits(cfg, sv, a) && |os| == |sv.open|
    ensures Fits(cfg, sv, a.(outcomes := os))
    ensures TruthfulSurvey(cfg, comments, sv, a.(outcomes := os)) <==> TruthfulSurvey(cfg, comments, sv, a)
  {
  }

  lemma CycleCallsMean(cfg: Config, sv: Survey, host: Content, soft: map<nat, int>, a: Answers)
    requires Fits(cfg, sv, a)
    ensures host.log <= Cycle.RunCycle(cfg, sv, host, soft, a).host.log
    ensures CycleCalls(cfg, sv, host, soft, a) == CallsSince(host.log, Cycle.RunCycle(cfg, sv, host, soft, a).host.log)
  {
    LogGrows(cfg, sv, host, soft, a);
  }

  lemma FourthAnswers(before: seq<Call>, after: seq<Call>, a: Answers)
    requires before + SurveyCalls(a) <= after
    ensures before <= after && !SurveyFailed(CallsSince(before, after))
  {
    var calls := CallsSince(before, after);
    assert |calls| >= 4 && calls[3] == (before + SurveyCalls(a))[|before| + 3];
  }

  /** Every read of comments is among the calls of the cycle. */
  lemma ReadsLogged(cfg: Config, sv: Survey, host: Content, soft: map<nat, int>, a: Answers)
    requires Fits(cfg, sv, a)
    ensures forall k :: 0 <= k < |a.read| ==>
      ListIssueComments(sv.open[k].number, a.read[k]) in CycleCalls(cfg, sv, host, soft, a)
  {
    var surveyed := Logged(host, SurveyCalls(a));
    if !cfg.dryRun { TidyingApart(sv.open, surveyed, Links(sv), a.cleared); }
    MergesApart(cfg, Surveyed(cfg, sv, host, soft, a), Classifications(sv), a.outcomes);
    CycleCallsMean(cfg, sv, host, soft, a);
    LogGrows(cfg, sv, host, soft, a);
    hide MergeAll, Classifications, Housekeep, HandleUpTo, Links, SlotIndices;
    var log := Cycle.RunCycle(cfg, sv, host, soft, a).host.log;
    var tidied, asked := Tidied(cfg, sv, host, a).log, Surveyed(cfg, sv, host, soft, a).host.log;
    var queries := ReadCalls(sv.open, a.read) + SessionCalls(cfg, a);
    assert asked == tidied + queries && asked <= log && host.log <= tidied;
    assert |a.read| == |sv.open|;
    hide *;
    AmongCalls(host.log, tidied, queries, log);
    forall k | 0 <= k < |a.read|
      ensures ListIssueComments(sv.open[k].number, a.read[k]) in CycleCalls(cfg, sv, host, soft, a)
    {
      ReadCallAt(cfg, sv, a, k);
      assert queries[k] in CallsSince(host.log, log);
    }
  }

  lemma ReadCallAt(cfg: Config, sv: Survey, a: Answers, k: nat)
    requires |a.read| == |sv.open| && k < |a.read|
    ensures var queries := ReadCalls(sv.open, a.read) + SessionCalls(cfg, a);
            k < |queries| && queries[k] == ListIssueComments(sv.open[k].number, a.read[k])
  {
  }

  lemma AmongCalls(before: seq<Call>, tidied: seq<Call>, queries: seq<Call>, log: seq<Call>)
    requires before <= tidied && tidied + queries <= log
    ensures before <= log && forall k :: 0 <= k < |queries| ==> queries[k] in CallsSince(before, log)
  {
    forall k | 0 <= k < |queries| ensures queries[k] in CallsSince(before, log) {
      assert log[|tidied| + k] == (tidied + queries)[|tidied| + k];
      assert CallsSince(before, log)[|tidied| + k - |before|] == queries[k];
    }
  }

  // ---------- runs of the loop ----------

  /** No read of comments failed, as far as the calls tell. */
  ghost predicate ReadsTook(calls: seq<Call>) {
    forall c :: c in calls && c.ListIssueComments? ==> c.ok
  }

  /** No call about labels failed. */
  ghost predicate LabelsTook(calls: seq<Call>) {
    forall c :: c in calls ==> (c.AddLabel? ==> c.write.Done?) && (c.RemoveLabel? ==> c.landed)
  }

  /** A cycle whose calls went well tells comments and flags. */
  lemma WellTold(cfg: Config, m: Machine, sv: Survey, a: Answers)
    requires Fits(cfg, sv, a)
    ensures ReadsTook(CycleCalls(cfg, sv, m.host, m.soft, a)) ==> CommentsTold(m, RunOf(sv, a))
    ensures LabelsTook(CycleCalls(cfg, sv, m.host, m.soft, a)) ==> FlagsTold(cfg, m, RunOf(sv, a))
  {
    var calls := CycleCalls(cfg, sv, m.host, m.soft, a);
    ReadsLogged(cfg, sv, m.host, m.soft, a);
    hide CycleCalls, Cycle.RunCycle;
    if LabelsTook(calls) {
      forall n: nat ensures CleanFor(calls, n) { TookIsClean(calls, n); }
    }
  }

  lemma TookIsClean(calls: seq<Call>, n: nat)
    requires LabelsTook(calls)
    ensures CleanFor(calls, n)
  {
    forall k | 0 <= k < |calls| ensures calls[k] != AddLabel(n, Lost(true)) && calls[k] != RemoveLabel(n, false) {
      assert calls[k] in calls;
    }
  }

  /** The calls of one step of a run. */
  function CallsOf(cfg: Config, m: Machine, act: Action): seq<Call> {
    match act
    case RunOf(sv, a) => if Fits(cfg, sv, a) then CycleCalls(cfg, sv, m.host, m.soft, a) else []
    case Environment(_) => []
  }

  lemma StepLogs(cfg: Config, m: Machine, act: Action)
    requires Possible(cfg, m, act)
    ensures m.host.log <= Next(cfg, m, act).host.log && CallsOf(cfg, m, act) == CallsSince(m.host.log, Next(cfg, m, act).host.log)
  {
    if act.RunOf? { CycleCallsMean(cfg, act.sv, m.host, m.soft, act.a); }
    hide Cycle.RunCycle, CycleCalls, TruthfulSurvey;
  }

  lemma RunNext(cfg: Config, m: Machine, acts: seq<Action>, act: Action)
    requires PossibleRun(cfg, m, acts) && Possible(cfg, After(cfg, m, acts), act)
    ensures PossibleRun(cfg, m, acts + [act]) && After(cfg, m, acts + [act]) == Next(cfg, After(cfg, m, acts), act)
  {
    var more := acts + [act];
    assert more[..|acts|] == acts;
    hide Possible, Next;
    forall j | 0 <= j < |more| ensures Possible(cfg, After(cfg, m, more[..j]), more[j]) {
      if j < |acts| { assert more[..j] == acts[..j]; }
    }
  }

  lemma {:induction false} LogsGrow(cfg: Config, m: Machine, acts: seq<Action>)
    requires PossibleRun(cfg, m, acts)
    ensures m.host.log <= After(cfg, m, acts).host.log
  {
    if acts == [] {
    } else {
      hide *;
      RunFront(cfg, m, acts);
      LogsGrow(cfg, m, acts[..|acts| - 1]);
      StepLogs(cfg, After(cfg, m, acts[..|acts| - 1]), acts[|acts| - 1]);
    }
  }

  /** The calls of the steps are among those of the run. */
  lemma {:induction false} CallsLogged(cfg: Config, m: Machine, acts: seq<Action>, k: nat)
    requires PossibleRun(cfg, m, acts) && k < |acts|
    ensures m.host.log <= After(cfg, m, acts).host.log
    ensures forall c :: c in CallsOf(cfg, After(cfg, m, acts[..k]), acts[k]) ==>
      c in CallsSince(m.host.log, After(cfg, m, acts).host.log)
  {
    hide *;
    var n := |acts| - 1;
    var init := acts[..n];
    RunFront(cfg, m, acts);
    LogsGrow(cfg, m, init);
    StepLogs(cfg, After(cfg, m, init), acts[n]);
    JoinCalls(m.host.log, After(cfg, m, init).host.log, After(cfg, m, acts).host.log);
    if k < n {
      CallsLogged(cfg, m, init, k);
      assert init[..k] == acts[..k] && init[k] == acts[k];
    }
  }

  lemma JoinCalls(a: seq<Call>, b: seq<Call>, c: seq<Call>)
    requires a <= b <= c
    ensures forall x :: x in CallsSince(a, c) <==> x in CallsSince(a, b) || x in CallsSince(b, c)
  {
    assert CallsSince(a, c) == CallsSince(a, b) + CallsSince(b, c);
  }

  /** Others neither remove our trigger comments nor post in our name. */
  ghost predicate OthersKeepTriggers(cfg: Config, m: Machine, acts: seq<Action>) {
    forall k :: 0 <= k < |acts| && acts[k].Environment? ==> CommentsTold(After(cfg, m, acts[..k]), acts[k])
  }

  /** Others put no further bureaucratic issue in flight. */
  ghost predicate OthersKeepChord(cfg: Config, m: Machine, acts: seq<Action>) {
    forall k :: 0 <= k < |acts| && acts[k].Environment? ==> FlagsTold(cfg, After(cfg, m, acts[..k]), acts[k])
  }

  /** One step of the lemma below. */
  lemma WellToldStep(cfg: Config, m: Machine, act: Action, calls: seq<Call>)
    requires Possible(cfg, m, act) && act.RunOf? && forall c :: c in CallsOf(cfg, m, act) ==> c in calls
    ensures ReadsTook(calls) ==> CommentsTold(m, act)
    ensures LabelsTook(calls) ==> FlagsTold(cfg, m, act)
  {
    WellTold(cfg, m, act.sv, act.a);
    hide FlagsTold, CommentsTold, CycleCalls, TruthfulSurvey;
  }

  /** A run whose calls went well, and in which others keep to the rules, meets the premises of the theorems about runs. */
  lemma WellToldRun(cfg: Config, m: Machine, acts: seq<Action>, log: seq<Call>)
    requires PossibleRun(cfg, m, acts) && After(cfg, m, acts).host.log <= log
    ensures m.host.log <= log
    ensures ReadsTook(CallsSince(m.host.log, log)) && OthersKeepTriggers(cfg, m, acts) ==> CommentRun(cfg, m, acts)
    ensures LabelsTook(CallsSince(m.host.log, log)) && OthersKeepChord(cfg, m, acts) ==> FlagRun(cfg, m, acts)
  {
    LogsGrow(cfg, m, acts);
    var all := CallsSince(m.host.log, log);
    JoinCalls(m.host.log, After(cfg, m, acts).host.log, log);
    hide CallsSince, After, Possible, CommentsTold, FlagsTold, CallsOf, ReadsTook, LabelsTook;
    forall k | 0 <= k < |acts| && acts[k].RunOf?
      ensures ReadsTook(all) ==> CommentsTold(After(cfg, m, acts[..k]), acts[k])
      ensures LabelsTook(all) ==> FlagsTold(cfg, After(cfg, m, acts[..k]), acts[k])
    {
      CallsLogged(cfg, m, acts, k);
      WellToldStep(cfg, After(cfg, m, acts[..k]), acts[k], all);
    }
  }

  /** The report of a step that is a cycle. */
  function ReportOf(cfg: Config, m: Machine, act: Action): seq<CycleReport> {
    match act
    case RunOf(sv, a) => if Fits(cfg, sv, a) then [Cycle.RunCycle(cfg, sv, m.host, m.soft, a).pass.report] else []
    case Environment(_) => []
  }

  /** The reports of the cycles of a run, in order. */
  function Reports(cfg: Config, m: Machine, acts: seq<Action>): seq<CycleReport> {
    if acts == [] then []
    else
      var k := |acts| - 1;
      Reports(cfg, m, acts[..k]) + ReportOf(cfg, After(cfg, m, acts[..k]), acts[k])
  }

  lemma ReportsNext(cfg: Config, m: Machine, acts: seq<Action>, act: Action)
    ensures Reports(cfg, m, acts + [act]) == Reports(cfg, m, acts) + ReportOf(cfg, After(cfg, m, acts), act)
  {
    assert (acts + [act])[..|acts|] == acts;
    hide After, ReportOf;
  }

  /** Cycles and pauses alternate, a cycle first. */
  predicate Alternating(acts: seq<Action>) {
    forall k :: 0 <= k < |acts| ==> (acts[k].RunOf? <==> k % 2 == 0)
  }

  /** The machine is what cycles and pauses made of it, and the reports are those of the cycles. */
  ghost predicate Ran(cfg: Config, m: Machine, acts: seq<Action>, rs: seq<CycleReport>, now: Machine) {
    PossibleRun(cfg, m, acts) && Alternating(acts) && now == After(cfg, m, acts) && rs == Reports(cfg, m, acts)
  }

  lemma RanMeans(cfg: Config, m: Machine, acts: seq<Action>, rs: seq<CycleReport>, now: Machine)
    requires Ran(cfg, m, acts, rs, now)
    ensures PossibleRun(cfg, m, acts) && Alternating(acts) && now == After(cfg, m, acts) && rs == Reports(cfg, m, acts)
  {
    hide PossibleRun, Alternating, After, Reports;
  }

  lemma RanNothing(cfg: Config, m: Machine)
    ensures Ran(cfg, m, [], [], m)
  {
  }

  lemma RanNext(cfg: Config, m: Machine, acts: seq<Action>, rs: seq<CycleReport>, now: Machine, act: Action)
    requires Ran(cfg, m, acts, rs, now) && Possible(cfg, now, act) && (act.RunOf? <==> |acts| % 2 == 0)
    ensures Ran(cfg, m, acts + [act], rs + ReportOf(cfg, now, act), Next(cfg, now, act))
  {
    RunNext(cfg, m, acts, act);
    ReportsNext(cfg, m, acts, act);
    hide PossibleRun, Possible, After, Reports, ReportOf, Next;
  }

  /** A failed survey left everything but the log. */
  ghost predicate StoppedAt(before: Machine, after: Machine) {
    before.host.log <= after.host.log && SurveyFailed(CallsSince(before.host.log, after.host.log)) &&
    after == Machine(before.host.(log := after.host.log), before.soft)
  }

  lemma StoppedSame(before: Machine, after: Machine)
    requires after == before || StoppedAt(before, after)
    ensures after.host.comments == before.host.comments && after.host.issues == before.host.issues
    ensures before.host.log <= after.host.log
  {
  }

  /** Issue numbers stay distinct over a run. */
  lemma {:induction false} NumbersKept(cfg: Config, m: Machine, acts: seq<Action>)
    requires DistinctNumbers(m.host.issues) && PossibleRun(cfg, m, acts)
    ensures DistinctNumbers(After(cfg, m, acts).host.issues)
  {
    if acts == [] {
    } else {
      var k := |acts| - 1;
      RunFront(cfg, m, acts);
      var mid := After(cfg, m, acts[..k]);
      if acts[k].RunOf? { CycleKeepsNumbers(cfg, acts[k].sv, mid.host, mid.soft, acts[k].a); }
      hide Cycle.RunCycle, TruthfulSurvey, DistinctNumbers, After, PossibleRun;
    }
  }

  lemma RanNumbers(cfg: Config, m: Machine, acts: seq<Action>, rs: seq<CycleReport>, now: Machine)
    requires Ran(cfg, m, acts, rs, now) && DistinctNumbers(m.host.issues)
    ensures DistinctNumbers(now.host.issues)
  {
    RanMeans(cfg, m, acts, rs, now);
    hide *;
    NumbersKept(cfg, m, acts);
  }

  /** What a survey takes from the host. */
  ghost predicate SurveyedFrom(cfg: Config, m: Machine, sv: Survey, a: Answers) {
    Fits(cfg, sv, a) && sv.open == m.host.issues && TruthfulSurvey(cfg, m.host.comments, sv, a) &&
    sv.sessions == if cfg.tmux && a.sessionsRead then m.host.sessions else []
  }

  lemma RanCycle(cfg: Config, m: Machine, acts: seq<Action>, rs: seq<CycleReport>, now: Machine, sv: Survey, a: Answers)
    requires Ran(cfg, m, acts, rs, now) && DistinctNumbers(m.host.issues) && |acts| % 2 == 0 && SurveyedFrom(cfg, now, sv, a)
    ensures Ran(cfg, m, acts + [RunOf(sv, a)], rs + ReportOf(cfg, now, RunOf(sv, a)), Next(cfg, now, RunOf(sv, a)))
  {
    RanNumbers(cfg, m, acts, rs, now);
    assert Possible(cfg, now, RunOf(sv, a)) by { hide Ran, TruthfulSurvey, Fits, DistinctNumbers; }
    hide *;
    RanNext(cfg, m, acts, rs, now, RunOf(sv, a));
  }

  lemma CycleIsStep(cfg: Config, m: Machine, sv: Survey, a: Answers, now: Machine, report: CycleReport)
    requires Fits(cfg, sv, a)
    requires var s := Cycle.RunCycle(cfg, sv, m.host, m.soft, a);
             now == Machine(s.host, s.soft) && report == s.pass.report
    ensures Next(cfg, m, RunOf(sv, a)) == now && ReportOf(cfg, m, RunOf(sv, a)) == [report]
  {
    hide Cycle.RunCycle, Fits;
  }

  lemma RanPause(cfg: Config, m: Machine, acts: seq<Action>, rs: seq<CycleReport>, now: Machine, act: Action)
    requires Ran(cfg, m, acts, rs, now) && |acts| % 2 == 1
    requires act.Environment? && Possible(cfg, now, act)
    ensures Ran(cfg, m, acts + [act], rs, Next(cfg, now, act))
  {
    assert rs + ReportOf(cfg, now, act) == rs;
    hide *;
    RanNext(cfg, m, acts, rs, now, act);
  }

  /** How the loop was left, or that it still goes on. */
  datatype LoopResult = Completed(history: seq<CycleReport>) | Failed | Running(history: seq<CycleReport>)

  /** Nothing was dispatched or merged, and nothing is waiting or failing. */
  predicate NothingLeft(r: CycleReport) {
    r.triggered == [] && r.merged == [] && r.waiting == [] && r.prFailing == []
  }

  /** The loop ends with cycle `k`, counted from zero. */
  predicate EndsLoop(maxCycles: Option<nat>, k: nat, r: CycleReport) {
    NothingLeft(r) || (maxCycles.Some? && k + 1 >= maxCycles.value)
  }

  /** None of these cycles ends the loop. */
  predicate GoesOn(maxCycles: Option<nat>, rs: seq<CycleReport>) {
    forall k :: 0 <= k < |rs| ==> !EndsLoop(maxCycles, k, rs[k])
  }

  /**
   * A loop was left with the first cycle that triggered and merged nothing and found nothing waiting or failing, or that
   * reached the limit; one that goes on had no such cycle.
   */
  ghost predicate LeftWhenDone(maxCycles: Option<nat>, r: LoopResult) {
    r.Failed? ||
    forall k :: 0 <= k < |r.history| ==>
      (var c := r.history[k];
       (c.triggered == [] && c.merged == [] && c.waiting == [] && c.prFailing == []) ||
       (maxCycles.Some? && k + 1 >= maxCycles.value)) ==
      (r.Completed? && k == |r.history| - 1)
  }

  lemma LoopEnd(maxCycles: Option<nat>, r: LoopResult)
    requires r.Running? ==> GoesOn(maxCycles, r.history)
    requires r.Completed? ==>
      r.history != [] && var last := |r.history| - 1;
      GoesOn(maxCycles, r.history[..last]) && EndsLoop(maxCycles, last, r.history[last])
    ensures LeftWhenDone(maxCycles, r)
  {
    if r.Failed? { return; }
    forall k | 0 <= k < |r.history|
      ensures (var c := r.history[k];
               (c.triggered == [] && c.merged == [] && c.waiting == [] && c.prFailing == []) ||
               (maxCycles.Some? && k + 1 >= maxCycles.value)) ==
              (r.Completed? && k == |r.history| - 1)
    {
      if r.Completed? && k < |r.history| - 1 { assert r.history[..|r.history| - 1][k] == r.history[k]; }
      assert EndsLoop(maxCycles, k, r.history[k]) == (r.Completed? && k == |r.history| - 1);
    }
  }

  lemma GoesOnNothing(maxCycles: Option<nat>)
    ensures GoesOn(maxCycles, [])
  {
  }

  lemma GoesOnNext(maxCycles: Option<nat>, rs: seq<CycleReport>, r: CycleReport)
    requires GoesOn(maxCycles, rs)
    ensures (rs + [r])[..|rs|] == rs && (GoesOn(maxCycles, rs + [r]) <==> !EndsLoop(maxCycles, |rs|, r))
    ensures EndsLoop(maxCycles, |rs|, r) <==> NothingLeft(r) || (maxCycles.Some? && |rs + [r]| >= maxCycles.value)
  {
    hide NothingLeft;
    var more := rs + [r];
    assert forall k :: 0 <= k < |rs| ==> more[k] == rs[k];
    assert more[|rs|] == r;
  }

  /** What every run of the machine keeps, for the state in which the loop is left, with or without a failed survey. */
  lemma LoopSafety(cfg: Config, m: Machine, acts: seq<Action>, now: Machine)
    requires PossibleRun(cfg, m, acts) && (now == After(cfg, m, acts) || StoppedAt(After(cfg, m, acts), now))
    ensures m.host.log <= now.host.log
    ensures ReadsTook(CallsSince(m.host.log, now.host.log)) && OthersKeepTriggers(cfg, m, acts) ==>
      forall n :: OurTriggers(m.host.comments, n) <= 1 ==> OurTriggers(now.host.comments, n) <= 1
    ensures LabelsTook(CallsSince(m.host.log, now.host.log)) && OthersKeepChord(cfg, m, acts) ==>
      HardChord(cfg, m.host.issues) ==> HardChord(cfg, now.host.issues)
    ensures forall n ::
      FirstSeen(now.soft, n) == HeldSince(FirstSeen(m.soft, n), Verdicts(cfg, m, acts, n)) &&
      Timely(FirstSeen(m.soft, n), Verdicts(cfg, m, acts, n), cfg.timeout)
  {
    assert now.soft == After(cfg, m, acts).soft;
    hide *;
    StoppedSame(After(cfg, m, acts), now);
    WellToldRun(cfg, m, acts, now.host.log);
    if CommentRun(cfg, m, acts) {
      forall n | OurTriggers(m.host.comments, n) <= 1 ensures OurTriggers(now.host.comments, n) <= 1 {
        AtMostOneTrigger(cfg, m, acts, n);
      }
    }
    if FlagRun(cfg, m, acts) && HardChord(cfg, m.host.issues) {
      HardChordSafety(cfg, m, acts);
    }
    forall n: nat { SoftChordRecord(cfg, m, acts, n); }
  }

  lemma LoggedTwice(host: Content, a: Call, b: Call)
    ensures Logged(Logged(host, [a]), [b]) == Logged(host, [a, b])
  {
    assert host.log + [a] + [b] == host.log + [a, b];
  }

  lemma IsolateHeld(cfg: Config, sv: Survey, st: State, i: Issue, o: Outcome, now: int)
    requires IsolationOf(cfg, sv, st.soft, i, now) == Defer && o.decideAt == now
    ensures Isolate(cfg, sv, st, i, o) == Hold(st.(host := Logged(st.host, [Clock(now)])), i.number, o)
  {
  }

  lemma IsolateReleased(cfg: Config, sv: Survey, st: State, i: Issue, o: Outcome, released: Outcome, now: int)
    requires IsolationOf(cfg, sv, st.soft, i, now) != Defer && o.decideAt == now && o.advised == released.advised
    ensures Isolate(cfg, sv, st, i, o) ==
      Serialise(cfg, sv, Release(cfg, st.(host := Logged(st.host, [Clock(now)])), i.number, IsolationOf(cfg, sv, st.soft, i, now),
                                 released), i, EffectivePreset(cfg, i), o)
  {
    hide Serialise, IsolationOf, Post, Logged;
  }

  lemma HandleIgnoresMerge(cfg: Config, sv: Survey, st: State, i: Issue, c: Classification, o: Outcome, merge: bool)
    ensures Handle(cfg, sv, st, i, c, o.(merge := merge)) == Handle(cfg, sv, st, i, c, o)
  {
    hide EffectivePreset, NextFree, IsolationOf, TriggerWeb, TriggerTmux, AnyInFlight, RunnerFor, Post, NotReady;
  }

  lemma {:induction false} HandleSame(cfg: Config, sv: Survey, st: State, a: seq<Outcome>, b: seq<Outcome>, k: nat)
    requires |a| == |b| == |sv.open| && k <= |a| && a[..k] == b[..k]
    ensures HandleUpTo(cfg, sv, st, a, k) == HandleUpTo(cfg, sv, st, b, k)
  {
    hide Handle, ClassifyIn;
    if k == 0 {
    } else {
      assert a[..k][..k - 1] == a[..k - 1] && b[..k][..k - 1] == b[..k - 1];
      assert a[k - 1] == a[..k][k - 1] == b[k - 1];
      HandleSame(cfg, sv, st, a, b, k - 1);
    }
  }

  lemma MergeAllNext(cfg: Config, st: State, cs: seq<Classification>, os: seq<Outcome>, k: nat, o: Outcome)
    requires k < |cs| && |os| == k
    ensures MergeAll(cfg, st, cs[..k + 1], os + [o]) == Merge(cfg, MergeAll(cfg, st, cs[..k], os), cs[k], o)
  {
    hide Merge;
    assert cs[..k + 1][..k] == cs[..k] && (os + [o])[..k] == os;
  }

  /** Merging looks only at the merge outcomes. */
  lemma {:induction false} MergeSame(cfg: Config, st: State, cs: seq<Classification>, a: seq<Outcome>, b: seq<Outcome>)
    requires |a| == |b| == |cs| && forall j :: 0 <= j < |a| ==> a[j].merge == b[j].merge
    ensures MergeAll(cfg, st, cs, a) == MergeAll(cfg, st, cs, b)
  {
    if cs == [] {
    } else {
      var n := |cs| - 1;
      MergeSame(cfg, st, cs[..n], a[..n], b[..n]);
    }
  }

  lemma HousekeepNext(open: seq<Issue>, host: Content, links: seq<Option<nat>>, cleared: seq<bool>, k: nat, gone: bool)
    requires k < |links| && |cleared| == k
    ensures Housekeep(open, host, links[..k + 1], cleared + [gone]) ==
      Tidy(open, Housekeep(open, host, links[..k], cleared), links[k], gone)
  {
    hide Tidy;
    assert links[..k + 1][..k] == links[..k] && (cleared + [gone])[..k] == cleared;
  }

  lemma {:induction false} HousekeepJoin(open: seq<Issue>, host: Content, l1: seq<Option<nat>>, c1: seq<bool>,
      l2: seq<Option<nat>>, c2: seq<bool>)
    requires |c1| == |l1| && |c2| == |l2|
    ensures Housekeep(open, host, l1 + l2, c1 + c2) == Housekeep(open, Housekeep(open, host, l1, c1), l2, c2)
  {
    if l2 == [] {
      assert l1 + l2 == l1 && c1 + c2 == c1;
    } else {
      var n := |l2| - 1;
      assert (l1 + l2)[..|l1 + l2| - 1] == l1 + l2[..n] && (c1 + c2)[..|c1 + c2| - 1] == c1 + c2[..n];
      HousekeepJoin(open, host, l1, c1, l2[..n], c2[..n]);
      hide Tidy;
    }
  }
}
