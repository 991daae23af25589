/** Why a cycle makes each of its calls, and in which order. */
module CallOrder {
  import opened Options
  import opened Text
  import opened Repo
  import opened Isolation
  import opened Classifier
  import opened Dispatch
  import opened Cycle
  import opened CycleLaws
  import opened FlightLabels
  import opened ReportedBuckets

  // ---------- reasons ----------

  /** A surveyed issue with the number is open, not for a human, unclaimed, unblocked, untriggered and without pull request. */
  ghost predicate Startable(sv: Survey, n: nat) {
    exists i :: i in sv.open && i.number == n && !i.closed && Human !in i.labels && InFlight !in i.labels &&
      FirstPr(sv.prs, n) == |sv.prs| && i.deps <= sv.closed && n !in sv.triggered
  }

  /** The issue is under the fast preset, and some pull request is not its own. */
  ghost predicate Advisable(cfg: Config, sv: Survey, n: nat) {
    exists i, p :: i in sv.open && i.number == n && EffectivePreset(cfg, i) == Fast && p in sv.prs && p.linkedIssue != Some(n)
  }

  /** The name of an agent slot in range that no surveyed session occupies. */
  ghost predicate FreeName(cfg: Config, sv: Survey, name: string) {
    exists slot: nat :: 1 <= slot <= cfg.maxBeats && name == "agent" + Dec(slot) && name !in sv.sessions
  }

  /** A surveyed issue with the number carries the in-flight label, and some open or closed pull request names it. */
  ghost predicate Overtaken(sv: Survey, n: nat) {
    (exists i :: i in sv.open && i.number == n && InFlight in i.labels) &&
    (Some(n) in sv.closedLinks || exists p :: p in sv.prs && p.linkedIssue == Some(n))
  }

  /** The call before is a trigger of the issue that failed: a comment, a session, or the prompt to one. */
  ghost predicate FailedBefore(calls: seq<Call>, k: nat, n: nat)
    requires k < |calls|
  {
    (k >= 2 && calls[k - 2] == AddLabel(n, Done) && calls[k - 1].PostComment? &&
     calls[k - 1].comment == Comment(n, true, true) && calls[k - 1].write.Lost?) ||
    (k >= 2 && calls[k - 2] == AddLabel(n, Done) && calls[k - 1].NewSession? && calls[k - 1].write.Lost?) ||
    (k >= 4 && calls[k - 4] == AddLabel(n, Done) && calls[k - 3].NewSession? && calls[k - 3].write == Done &&
     calls[k - 1] == SendLine(calls[k - 3].name, false))
  }

  /** Call `k` has its reason in the survey and in the calls right before it. */
  ghost predicate Justified(cfg: Config, sv: Survey, calls: seq<Call>, k: nat)
    requires k < |calls|
  {
    match calls[k]
    case AddLabel(n, _) => !cfg.dryRun && Startable(sv, n)
    case RemoveLabel(n, _) => !cfg.dryRun && (FailedBefore(calls, k, n) || Overtaken(sv, n))
    case PostComment(c, _) =>
      !cfg.dryRun && c.ours &&
      if c.trigger then k >= 1 && calls[k - 1] == AddLabel(c.issue, Done)
      else Startable(sv, c.issue) && Advisable(cfg, sv, c.issue)
    case NewSession(name, _) =>
      !cfg.dryRun && cfg.tmux && FreeName(cfg, sv, name) && k >= 1 && calls[k - 1].AddLabel? && calls[k - 1].write == Done
    case SendLine(name, _) =>
      (k >= 1 && calls[k - 1] == NewSession(name, Done)) ||
      (k >= 2 && calls[k - 2] == NewSession(name, Done) && calls[k - 1].SendLine? && calls[k - 1].name == name)
    case MergePr(m, _) => !cfg.dryRun && FitToMerge(sv, m)
    case _ => true
  }

  /** A claim that was made is followed by its delivery, or by a rollback. */
  ghost predicate Resolved(calls: seq<Call>, k: nat)
    requires k < |calls|
  {
    calls[k].AddLabel? && calls[k].write == Done ==>
      var n := calls[k].issue;
      k + 1 < |calls| &&
      match calls[k + 1]
      case PostComment(c, w) => c == Comment(n, true, true) && (w.Lost? ==> RollsBack(calls, k + 2, n))
      case NewSession(name, w) =>
        if w.Lost? then RollsBack(calls, k + 2, n)
        else
          k + 3 < |calls| && calls[k + 2].SendLine? && calls[k + 3].SendLine? && calls[k + 2].name == calls[k + 3].name == name &&
          (!calls[k + 3].ok ==> RollsBack(calls, k + 4, n))
      case _ => false
  }

  ghost predicate RollsBack(calls: seq<Call>, k: nat, n: nat) {
    k < |calls| && calls[k].RemoveLabel? && calls[k].issue == n
  }

  ghost predicate Sound(cfg: Config, sv: Survey, calls: seq<Call>) {
    forall k :: 0 <= k < |calls| ==> Justified(cfg, sv, calls, k) && Resolved(calls, k)
  }

  // ---------- joining calls ----------

  lemma JustifiedLater(cfg: Config, sv: Survey, a: seq<Call>, b: seq<Call>, k: nat)
    requires k < |b| && Justified(cfg, sv, b, k) && Resolved(b, k)
    ensures Justified(cfg, sv, a + b, |a| + k) && Resolved(a + b, |a| + k)
  {
    var all := a + b;
    assert forall j :: 0 <= j < |b| ==> all[|a| + j] == b[j];
    hide Startable, Advisable, FreeName, Overtaken, FitToMerge;
  }

  lemma JustifiedSooner(cfg: Config, sv: Survey, a: seq<Call>, b: seq<Call>, k: nat)
    requires k < |a| && Justified(cfg, sv, a, k) && Resolved(a, k)
    ensures Justified(cfg, sv, a + b, k) && Resolved(a + b, k)
  {
    var all := a + b;
    assert forall j :: 0 <= j < |a| ==> all[j] == a[j];
    hide Startable, Advisable, FreeName, Overtaken, FitToMerge;
  }

  lemma SoundJoin(cfg: Config, sv: Survey, a: seq<Call>, b: seq<Call>)
    requires Sound(cfg, sv, a) && Sound(cfg, sv, b)
    ensures Sound(cfg, sv, a + b)
  {
    hide Justified, Resolved;
    forall k | 0 <= k < |a + b| ensures Justified(cfg, sv, a + b, k) && Resolved(a + b, k) {
      if k < |a| { JustifiedSooner(cfg, sv, a, b, k); } else { JustifiedLater(cfg, sv, a, b, k - |a|); }
    }
  }

  /** Between two states the log grew by calls that are sound. */
  ghost predicate Soundly(cfg: Config, sv: Survey, a: Content, b: Content) {
    exists calls :: b.log == a.log + calls && Sound(cfg, sv, calls)
  }

  lemma SoundlyBy(cfg: Config, sv: Survey, a: Content, b: Content, calls: seq<Call>)
    requires b.log == a.log + calls && Sound(cfg, sv, calls)
    ensures Soundly(cfg, sv, a, b)
  {
    hide Sound;
  }

  lemma SoundlyThen(cfg: Config, sv: Survey, a: Content, b: Content, c: Content)
    requires Soundly(cfg, sv, a, b) && Soundly(cfg, sv, b, c)
    ensures Soundly(cfg, sv, a, c)
  {
    var x :| b.log == a.log + x && Sound(cfg, sv, x);
    var y :| c.log == b.log + y && Sound(cfg, sv, y);
    SoundJoin(cfg, sv, x, y);
    hide Sound;
    assert c.log == a.log + (x + y);
  }

  lemma SoundOne(cfg: Config, sv: Survey, c: Call)
    requires Justified(cfg, sv, [c], 0) && !c.AddLabel?
    ensures Sound(cfg, sv, [c])
  {
  }

  lemma SoundNone(cfg: Config, sv: Survey, a: Content)
    ensures Soundly(cfg, sv, a, a)
  {
    assert a.log == a.log + [];
    assert Sound(cfg, sv, []);
  }

  // ---------- triggering ----------

  lemma WebSound(cfg: Config, sv: Survey, st: State, n: nat, preset: Preset, flag: Write, post: Write, rollback: bool)
    requires !cfg.dryRun && Startable(sv, n)
    ensures Soundly(cfg, sv, st.host, TriggerWeb(st, n, preset, flag, post, rollback).host)
  {
    hide Startable, Advisable, FreeName, Overtaken, FitToMerge, AddFlight, RemoveFlight, Count;
    var after := TriggerWeb(st, n, preset, flag, post, rollback).host;
    var c := Comment(n, true, true);
    if flag.Lost? {
      SoundlyBy(cfg, sv, st.host, after, [AddLabel(n, flag)]);
    } else if post.Done? {
      var calls := [AddLabel(n, Done), PostComment(c, post)];
      assert after.log == st.host.log + calls;
      SoundlyBy(cfg, sv, st.host, after, calls);
    } else {
      var calls := [AddLabel(n, Done), PostComment(c, post), RemoveLabel(n, rollback)];
      assert after.log == st.host.log + calls;
      SoundlyBy(cfg, sv, st.host, after, calls);
    }
  }

  lemma TmuxSound(cfg: Config, sv: Survey, st: State, n: nat, preset: Preset, slot: nat, flag: Write, session: Write,
      start: bool, prompt: bool, rollback: bool)
    requires !cfg.dryRun && cfg.tmux && Startable(sv, n) && FreeName(cfg, sv, SlotName(Agent, slot))
    ensures Soundly(cfg, sv, st.host, TriggerTmux(st, n, preset, slot, flag, session, start, prompt, rollback).host)
  {
    var after := TriggerTmux(st, n, preset, slot, flag, session, start, prompt, rollback).host;
    var name := SlotName(Agent, slot);
    var calls := TmuxCalls(n, name, flag, session, start, prompt, rollback);
    assert after.log == st.host.log + calls by { hide SlotName, AddFlight, RemoveFlight, Count; }
    hide *;
    TmuxCallsSound(cfg, sv, n, name, flag, session, start, prompt, rollback);
    SoundlyBy(cfg, sv, st.host, after, calls);
  }

  /** The calls of a dispatch to a session. */
  ghost function TmuxCalls(n: nat, name: string, flag: Write, session: Write, start: bool, prompt: bool, rollback: bool):
      seq<Call> {
    if flag.Lost? then [AddLabel(n, flag)]
    else if session.Lost? then [AddLabel(n, Done), NewSession(name, session), RemoveLabel(n, rollback)]
    else
      [AddLabel(n, Done), NewSession(name, Done), SendLine(name, start), SendLine(name, prompt)] +
      if prompt then [] else [RemoveLabel(n, rollback)]
  }

  lemma TmuxCallsSound(cfg: Config, sv: Survey, n: nat, name: string, flag: Write, session: Write, start: bool, prompt: bool,
      rollback: bool)
    requires !cfg.dryRun && cfg.tmux && Startable(sv, n) && FreeName(cfg, sv, name)
    ensures Sound(cfg, sv, TmuxCalls(n, name, flag, session, start, prompt, rollback))
  {
    hide Startable, Advisable, FreeName, Overtaken, FitToMerge;
  }

  /** The slots in use include those of the surveyed sessions. */
  ghost predicate SlotsKnown(cfg: Config, sv: Survey, pass: Pass) {
    cfg.tmux ==> forall s, n :: s in sv.sessions && SlotOf(s, Agent) == Some(n) ==> n in pass.slots
  }

  lemma FreeSlotName(cfg: Config, sv: Survey, pass: Pass)
    requires cfg.tmux && SlotsKnown(cfg, sv, pass) && NextFree(pass.slots, cfg.maxBeats).Some?
    ensures FreeName(cfg, sv, SlotName(Agent, NextFree(pass.slots, cfg.maxBeats).value))
  {
    var slot := NextFree(pass.slots, cfg.maxBeats).value;
    SlotNameReadsBack(Agent, slot);
    assert SlotName(Agent, slot) == "agent" + Dec(slot);
    hide SlotOf, SlotName, Dec;
  }

  lemma LaunchSound(cfg: Config, sv: Survey, st: State, i: Issue, preset: Preset, o: Outcome)
    requires Startable(sv, i.number) && SlotsKnown(cfg, sv, st.pass)
    ensures Soundly(cfg, sv, st.host, Launch(cfg, st, i, preset, o).host)
  {
    var slot := NextFree(st.pass.slots, cfg.maxBeats);
    SoundNone(cfg, sv, st.host);
    if !cfg.dryRun {
      WebSound(cfg, sv, st, i.number, preset, o.flag, o.post, o.rollback);
      if slot.Some? && cfg.tmux {
        FreeSlotName(cfg, sv, st.pass);
        TmuxSound(cfg, sv, st, i.number, preset, slot.value, o.flag, o.session, o.start, o.prompt, o.rollback);
      }
    }
    hide RunnerFor, NextFree, TriggerWeb, TriggerTmux, Soundly, Startable, SlotsKnown;
  }

  // ---------- a turn ----------

  lemma DispatchableStarts(cfg: Config, sv: Survey, i: Issue)
    requires i in sv.open && Dispatchable(cfg, sv, i)
    ensures Startable(sv, i.number)
  {
    BucketExactlyWhen(i, sv.closed, sv.prs, sv.triggered);
    hide Classify, FirstPr;
  }

  lemma AsksSound(cfg: Config, sv: Survey, a: Content, calls: seq<Call>)
    requires forall c :: c in calls ==> c.Inbox? || c.Clock? || c.TryPermit?
    ensures Soundly(cfg, sv, a, Logged(a, calls))
  {
    assert forall k :: 0 <= k < |calls| ==> calls[k] in calls;
    SoundlyBy(cfg, sv, a, Logged(a, calls), calls);
  }

  /** The calls of a turn that lets its issue go, up to the dispatch. */
  lemma BroughtSound(cfg: Config, sv: Survey, st: State, i: Issue, o: Outcome)
    requires i in sv.open && Startable(sv, i.number)
    ensures Soundly(cfg, sv, st.host, Brought(cfg, sv, st, i, o).host)
  {
    var asked, read := AskMailbox(cfg, st, i.number, o), ReadClock(cfg, st, i, o);
    var decision := IsolationOf(cfg, sv, st.soft, i, o.decideAt);
    var released := Release(cfg, read, i.number, decision, o);
    AsksSound(cfg, sv, st.host, [Inbox(i.number, o.claimed)]);
    SoundNone(cfg, sv, st.host);
    AsksSound(cfg, sv, asked.host, [Clock(o.decideAt)]);
    AsksSound(cfg, sv, released.host, [TryPermit(o.permit)]);
    AdvisorySound(cfg, sv, read, i, decision, o);
    SoundNone(cfg, sv, released.host);
    hide Soundly, IsolationOf, EffectivePreset, Post, Logged, Startable;
    SoundlyThen(cfg, sv, st.host, asked.host, read.host);
    SoundlyThen(cfg, sv, st.host, read.host, released.host);
    SoundlyThen(cfg, sv, st.host, released.host, Brought(cfg, sv, st, i, o).host);
  }

  lemma AdvisorySound(cfg: Config, sv: Survey, st: State, i: Issue, decision: Isolation.Decision, o: Outcome)
    requires i in sv.open && Startable(sv, i.number)
    requires exists soft :: decision == IsolationOf(cfg, sv, soft, i, o.decideAt)
    ensures Soundly(cfg, sv, st.host, Release(cfg, st, i.number, decision, o).host)
  {
    var soft :| decision == IsolationOf(cfg, sv, soft, i, o.decideAt);
    TellsExactlyWhen(EffectivePreset(cfg, i), i.number, sv.prs, FirstSeen(soft, i.number), o.decideAt, cfg.timeout);
    SoundNone(cfg, sv, st.host);
    hide Decide, EffectivePreset, SiblingPrs, Startable, FitToMerge;
    if decision.DispatchWithAdvisory? && !cfg.dryRun {
      assert Advisable(cfg, sv, i.number);
      var c := PostComment(Comment(i.number, false, true), o.advised);
      SoundOne(cfg, sv, c);
      SoundlyBy(cfg, sv, st.host, Release(cfg, st, i.number, decision, o).host, [c]);
    }
  }

  lemma IdleSound(cfg: Config, sv: Survey, st: State, i: Issue, o: Outcome)
    requires FateOf(cfg, sv, st, i, o) != Launched
    ensures Soundly(cfg, sv, st.host, Turn(cfg, sv, st, i, o).host)
  {
    TurnIdle(cfg, sv, st, i, o);
    var before, after := st.host, Turn(cfg, sv, st, i, o).host;
    hide Turn, FateOf, Dispatchable;
    var calls := after.log[|before.log|..];
    forall k | 0 <= k < |calls| ensures Harmless(calls[k]) {
      assert calls[k] == after.log[|before.log| + k];
    }
    SoundlyBy(cfg, sv, before, after, calls);
  }

  lemma TurnSound(cfg: Config, sv: Survey, st: State, i: Issue, o: Outcome)
    requires i in sv.open && SlotsKnown(cfg, sv, st.pass)
    ensures Soundly(cfg, sv, st.host, Turn(cfg, sv, st, i, o).host)
  {
    if FateOf(cfg, sv, st, i, o) == Launched {
      assert Dispatchable(cfg, sv, i);
      DispatchableStarts(cfg, sv, i);
      TurnLaunched(cfg, sv, st, i, o);
      BroughtKeeps(cfg, sv, st, i, o);
      BroughtSound(cfg, sv, st, i, o);
      var b := Brought(cfg, sv, st, i, o);
      hide Turn, Launch, Brought, EffectivePreset, FateOf, Dispatchable, Startable, Soundly;
      LaunchSound(cfg, sv, b, i, EffectivePreset(cfg, i), o);
      SoundlyThen(cfg, sv, st.host, b.host, Turn(cfg, sv, st, i, o).host);
    } else {
      IdleSound(cfg, sv, st, i, o);
    }
  }

  lemma SlotsKept(cfg: Config, sv: Survey, st: State, os: seq<Outcome>, k: nat)
    requires |os| == |sv.open| && k <= |sv.open| && Fresh(st.pass) && SlotsKnown(cfg, sv, st.pass)
    ensures SlotsKnown(cfg, sv, HandleUpTo(cfg, sv, st, os, k).pass)
  {
    AccountsUpTo(cfg, sv, st, os, k);
    var slots := HandleUpTo(cfg, sv, st, os, k).pass.slots;
    hide HandleUpTo, Dispatchable, SlotOf;
    assert st.pass.slots <= slots;
    forall n | n in st.pass.slots ensures n in slots {
      var j :| 0 <= j < |st.pass.slots| && st.pass.slots[j] == n;
      assert slots[j] == n;
    }
  }

  lemma {:induction false} LoopSound(cfg: Config, sv: Survey, st: State, os: seq<Outcome>, k: nat)
    requires |os| == |sv.open| && k <= |sv.open| && Fresh(st.pass) && SlotsKnown(cfg, sv, st.pass)
    ensures Soundly(cfg, sv, st.host, HandleUpTo(cfg, sv, st, os, k).host)
  {
    hide *;
    if k == 0 {
      HandleStart(cfg, sv, st, os);
      SoundNone(cfg, sv, st.host);
    } else {
      LoopSound(cfg, sv, st, os, k - 1);
      SlotsKept(cfg, sv, st, os, k - 1);
      var before := HandleUpTo(cfg, sv, st, os, k - 1);
      TurnSound(cfg, sv, before, sv.open[k - 1], os[k - 1]);
      HandledNext(cfg, sv, st, os, k);
      SoundlyThen(cfg, sv, st.host, before.host, HandleUpTo(cfg, sv, st, os, k).host);
    }
  }

  // ---------- before the loop ----------

  lemma MergeSound(cfg: Config, sv: Survey, st: State, j: nat, o: Outcome)
    requires j < |sv.open|
    ensures Soundly(cfg, sv, st.host, Merge(cfg, st, ClassifyIn(sv, sv.open[j]), o).host)
  {
    var c := ClassifyIn(sv, sv.open[j]);
    PrBucket(sv, j);
    SoundNone(cfg, sv, st.host);
    hide ClassifyIn, FirstPr, FitToMerge, HasPr;
    if c.bucket == PrOpen && c.pr.Some? && !cfg.dryRun {
      FirstFits(sv, j);
      SoundOne(cfg, sv, MergePr(c.pr.value, o.merge));
      SoundlyBy(cfg, sv, st.host, Merge(cfg, st, c, o).host, [MergePr(c.pr.value, o.merge)]);
    }
  }

  lemma {:induction false} MergesSound(cfg: Config, sv: Survey, st: State, os: seq<Outcome>, k: nat)
    requires |os| == |sv.open| && k <= |sv.open|
    ensures Soundly(cfg, sv, st.host, MergeAll(cfg, st, Classifications(sv)[..k], os[..k]).host)
  {
    var cs := Classifications(sv);
    if k == 0 {
      SoundNone(cfg, sv, st.host);
    } else {
      MergesSound(cfg, sv, st, os, k - 1);
      var before := MergeAll(cfg, st, cs[..k - 1], os[..k - 1]);
      MergeSound(cfg, sv, before, k - 1, os[k - 1]);
      ClassifiedAtIndex(sv, k - 1);
      assert cs[..k][..k - 1] == cs[..k - 1] && os[..k][..k - 1] == os[..k - 1];
      var after := MergeAll(cfg, st, cs[..k], os[..k]);
      assert after == Merge(cfg, before, cs[k - 1], os[k - 1]) by { hide Merge; }
      hide *;
      SoundlyThen(cfg, sv, st.host, before.host, after.host);
    }
  }

  lemma ClassifiedAtIndex(sv: Survey, k: nat)
    requires k < |sv.open|
    ensures |Classifications(sv)| == |sv.open| && Classifications(sv)[k] == ClassifyIn(sv, sv.open[k])
  {
    hide ClassifyIn;
  }

  lemma TidySound(cfg: Config, sv: Survey, host: Content, j: nat, cleared: bool)
    requires !cfg.dryRun && j < |Links(sv)|
    ensures Soundly(cfg, sv, host, Tidy(sv.open, host, Links(sv)[j], cleared))
  {
    var link := Links(sv)[j];
    SoundNone(cfg, sv, host);
    hide FitToMerge, Startable, RemoveFlight;
    if link.Some? && FlaggedIn(sv.open, link.value) {
      LinkNamed(sv, j);
      var c := RemoveLabel(link.value, cleared);
      SoundOne(cfg, sv, c);
      SoundlyBy(cfg, sv, host, Tidy(sv.open, host, link, cleared), [c]);
    }
  }

  lemma LinkNamed(sv: Survey, j: nat)
    requires j < |Links(sv)| && Links(sv)[j].Some? && FlaggedIn(sv.open, Links(sv)[j].value)
    ensures Overtaken(sv, Links(sv)[j].value)
  {
    var n := Links(sv)[j].value;
    if j < |sv.prs| {
      assert sv.prs[j] in sv.prs && sv.prs[j].linkedIssue == Some(n);
    } else {
      assert sv.closedLinks[j - |sv.prs|] == Some(n);
    }
  }

  lemma {:induction false} TidiesSound(cfg: Config, sv: Survey, host: Content, cleared: seq<bool>, k: nat)
    requires !cfg.dryRun && |cleared| == |Links(sv)| && k <= |Links(sv)|
    ensures Soundly(cfg, sv, host, Housekeep(sv.open, host, Links(sv)[..k], cleared[..k]))
  {
    var links := Links(sv);
    if k == 0 {
      SoundNone(cfg, sv, host);
    } else {
      TidiesSound(cfg, sv, host, cleared, k - 1);
      var before := Housekeep(sv.open, host, links[..k - 1], cleared[..k - 1]);
      TidySound(cfg, sv, before, k - 1, cleared[k - 1]);
      assert links[..k][..k - 1] == links[..k - 1] && cleared[..k][..k - 1] == cleared[..k - 1];
      var after := Housekeep(sv.open, host, links[..k], cleared[..k]);
      assert after == Tidy(sv.open, before, links[k - 1], cleared[k - 1]) by { hide Tidy; }
      hide *;
      SoundlyThen(cfg, sv, host, before, after);
    }
  }

  lemma ReadsSound(cfg: Config, sv: Survey, a: Content, calls: seq<Call>)
    requires forall k :: 0 <= k < |calls| ==>
      !(calls[k].AddLabel? || calls[k].RemoveLabel? || calls[k].PostComment? || calls[k].NewSession? || calls[k].SendLine? ||
        calls[k].MergePr?)
    ensures Soundly(cfg, sv, a, Logged(a, calls))
  {
    SoundlyBy(cfg, sv, a, Logged(a, calls), calls);
  }

  lemma SurveySound(cfg: Config, sv: Survey, host: Content, soft: map<nat, int>, a: Answers)
    requires Fits(cfg, sv, a)
    ensures Soundly(cfg, sv, host, Surveyed(cfg, sv, host, soft, a).host)
  {
    var surveyed, tidied := Logged(host, SurveyCalls(a)), Tidied(cfg, sv, host, a);
    ReadsSound(cfg, sv, host, SurveyCalls(a));
    SoundNone(cfg, sv, surveyed);
    if !cfg.dryRun {
      TidiesSound(cfg, sv, surveyed, a.cleared, |Links(sv)|);
      assert Links(sv)[..|Links(sv)|] == Links(sv) && a.cleared[..|Links(sv)|] == a.cleared;
    }
    ReadsSound(cfg, sv, tidied, ReadCalls(sv.open, a.read) + SessionCalls(cfg, a));
    hide Soundly, Housekeep, Links, SlotIndices, ReadCalls, SessionCalls, SurveyCalls;
    SoundlyThen(cfg, sv, host, surveyed, tidied);
    SoundlyThen(cfg, sv, host, tidied, Surveyed(cfg, sv, host, soft, a).host);
  }

  lemma FirstSlots(cfg: Config, sv: Survey, host: Content, soft: map<nat, int>, a: Answers)
    requires Fits(cfg, sv, a)
    ensures Fresh(Prepared(cfg, sv, host, soft, a).pass) && SlotsKnown(cfg, sv, Prepared(cfg, sv, host, soft, a).pass)
  {
    PreparedIsFresh(cfg, sv, host, soft, a);
    SlotIndicesMeaning(if cfg.tmux then sv.sessions else [], Agent);
    hide Prepared, SlotIndices, SlotOf;
  }

  /**
   * Every call of a cycle has its reason: labels go only on startable issues, right before the trigger comment or the
   * session; comments and sessions follow a claim; a label goes only after a failed trigger or when a pull request took
   * over; merges are fit; advisories are due; and a dry run writes nothing. Every claim is delivered or rolled back.
   */
  lemma EveryCallJustified(cfg: Config, sv: Survey, host: Content, soft: map<nat, int>, a: Answers)
    requires Fits(cfg, sv, a)
    ensures Sound(cfg, sv, CycleCalls(cfg, sv, host, soft, a))
  {
    var s, m, end := Surveyed(cfg, sv, host, soft, a), Prepared(cfg, sv, host, soft, a), RunCycle(cfg, sv, host, soft, a);
    SurveySound(cfg, sv, host, soft, a);
    MergesSound(cfg, sv, s, a.outcomes, |sv.open|);
    assert Classifications(sv)[..|sv.open|] == Classifications(sv) && a.outcomes[..|sv.open|] == a.outcomes by {
      hide ClassifyIn;
    }
    assert m == MergeAll(cfg, s, Classifications(sv), a.outcomes);
    FirstSlots(cfg, sv, host, soft, a);
    CycleIsLoop(cfg, sv, host, soft, a);
    LoopSound(cfg, sv, m, a.outcomes, |sv.open|);
    LogGrows(cfg, sv, host, soft, a);
    hide MergeAll, HandleUpTo, Surveyed, Prepared, RunCycle, Sound, Classifications;
    SoundlyThen(cfg, sv, host, s.host, m.host);
    SoundlyThen(cfg, sv, host, m.host, end.host);
    var calls :| end.host.log == host.log + calls && Sound(cfg, sv, calls);
    assert CycleCalls(cfg, sv, host, soft, a) == calls;
  }
}
