/** What one cycle does to comments, and that it dispatches bureaucratic issues one at a time. */
module CycleEffects {
  import opened Repo
  import opened Classifier
  import opened Dispatch
  import opened Cycle
  import opened CycleLaws
  import opened FlightLabels

  // ---------- trigger comments ----------

  /** The trigger comments that the orchestrator posted on an issue. */
  function OurTriggers(comments: seq<Comment>, n: nat): nat {
    multiset(comments)[Comment(n, true, true)]
  }

  /** Comments are appended, to one issue only, and at most one of them triggers. */
  ghost predicate CommentsOn(before: seq<Comment>, after: seq<Comment>, n: nat) {
    before <= after &&
    (forall k :: |before| <= k < |after| ==> after[k].issue == n) &&
    OurTriggers(after, n) <= OurTriggers(before, n) + 1 &&
    forall m :: m != n ==> OurTriggers(after, m) == OurTriggers(before, m)
  }

  lemma PostCounts(host: Content, c: Comment, w: Write)
    ensures CommentsOn(host.comments, host.comments, c.issue) && CommentsOn(host.comments, Post(host, c, w).comments, c.issue)
    ensures !c.trigger ==> OurTriggers(Post(host, c, w).comments, c.issue) == OurTriggers(host.comments, c.issue)
  {
    var d := [c];
    assert multiset(host.comments + d) == multiset(host.comments) + multiset(d);
  }

  lemma LaunchComments(cfg: Config, st: State, i: Issue, preset: Preset, o: Outcome)
    ensures CommentsOn(st.host.comments, Launch(cfg, st, i, preset, o).host.comments, i.number)
  {
    PostCounts(Flag(st.host, i.number, Done), Comment(i.number, true, true), o.post);
    hide CommentsOn, RunnerFor, NextFree, SlotName, AddFlight, RemoveFlight, OurTriggers;
  }

  lemma BroughtComments(cfg: Config, sv: Survey, st: State, i: Issue, o: Outcome)
    ensures var after := Brought(cfg, sv, st, i, o).host.comments;
            CommentsOn(st.host.comments, after, i.number) &&
            OurTriggers(after, i.number) == OurTriggers(st.host.comments, i.number)
  {
    PostCounts(ReadClock(cfg, st, i, o).host, Comment(i.number, false, true), o.advised);
    hide EffectivePreset, IsolationOf, CommentsOn, OurTriggers, Post;
    var asked := AskMailbox(cfg, st, i.number, o);
    assert asked.host.comments == st.host.comments;
  }

  lemma TurnComments(cfg: Config, sv: Survey, st: State, i: Issue, o: Outcome)
    ensures CommentsOn(st.host.comments, Turn(cfg, sv, st, i, o).host.comments, i.number)
    ensures FateOf(cfg, sv, st, i, o) != Launched ==> Turn(cfg, sv, st, i, o).host.comments == st.host.comments
  {
    if FateOf(cfg, sv, st, i, o) == Launched {
      TurnLaunched(cfg, sv, st, i, o);
      BroughtComments(cfg, sv, st, i, o);
      var b := Brought(cfg, sv, st, i, o);
      LaunchComments(cfg, b, i, EffectivePreset(cfg, i), o);
      hide *;
      JoinComments(st.host.comments, b.host.comments, Launch(cfg, b, i, EffectivePreset(cfg, i), o).host.comments, i.number);
    } else {
      TurnIdle(cfg, sv, st, i, o);
      PostCounts(st.host, Comment(i.number, true, true), Done);
      hide Turn, FateOf, OurTriggers, CommentsOn;
    }
  }

  lemma JoinComments(a: seq<Comment>, b: seq<Comment>, c: seq<Comment>, n: nat)
    requires CommentsOn(a, b, n) && CommentsOn(b, c, n) && OurTriggers(b, n) == OurTriggers(a, n)
    ensures CommentsOn(a, c, n)
  {
    hide OurTriggers;
    forall k | |a| <= k < |c| ensures c[k].issue == n {
      if k < |b| { assert c[k] == b[k]; }
    }
  }

  /** Comments are appended; issue `n` gets at most one trigger, and nothing at all unless it is `touched`. */
  ghost predicate Grown(a: seq<Comment>, b: seq<Comment>, n: nat, touched: bool) {
    a <= b && OurTriggers(b, n) <= OurTriggers(a, n) + 1 &&
    (!touched ==> OurTriggers(b, n) == OurTriggers(a, n) && forall x :: |a| <= x < |b| ==> b[x].issue != n)
  }

  lemma GrownNext(a: seq<Comment>, b: seq<Comment>, c: seq<Comment>, n: nat, touched: bool, on: nat, moved: bool)
    requires Grown(a, b, n, touched) && CommentsOn(b, c, on) && (!moved ==> c == b)
    requires on == n && moved ==> !touched
    ensures Grown(a, c, n, touched || (on == n && moved))
  {
    hide OurTriggers;
    forall x | |a| <= x < |b| ensures c[x] == b[x] {}
  }

  ghost predicate TouchedUpTo(cfg: Config, sv: Survey, k: nat, n: nat)
    requires k <= |sv.open|
  {
    exists j :: 0 <= j < k && sv.open[j].number == n && Dispatchable(cfg, sv, sv.open[j])
  }

  lemma {:induction false} CommentsUpTo(cfg: Config, sv: Survey, st: State, os: seq<Outcome>, k: nat, n: nat)
    requires |os| == |sv.open| && k <= |sv.open| && DistinctNumbers(sv.open)
    ensures Grown(st.host.comments, HandleUpTo(cfg, sv, st, os, k).host.comments, n, TouchedUpTo(cfg, sv, k, n))
  {
    hide *;
    if k == 0 {
      HandleStart(cfg, sv, st, os);
      GrownNothing(st.host.comments, n, TouchedUpTo(cfg, sv, 0, n));
    } else {
      CommentsUpTo(cfg, sv, st, os, k - 1, n);
      var before := HandleUpTo(cfg, sv, st, os, k - 1);
      var i := sv.open[k - 1];
      TurnComments(cfg, sv, before, i, os[k - 1]);
      LaunchedIsDispatchable(cfg, sv, before, i, os[k - 1]);
      HandledNext(cfg, sv, st, os, k);
      TouchedNext(cfg, sv, k - 1, n);
      GrownNext(st.host.comments, before.host.comments, HandleUpTo(cfg, sv, st, os, k).host.comments, n,
                TouchedUpTo(cfg, sv, k - 1, n), i.number, Dispatchable(cfg, sv, i));
    }
  }

  lemma LaunchedIsDispatchable(cfg: Config, sv: Survey, st: State, i: Issue, o: Outcome)
    ensures FateOf(cfg, sv, st, i, o) == Launched ==> Dispatchable(cfg, sv, i)
  {
    hide Dispatchable;
  }

  lemma GrownNothing(a: seq<Comment>, n: nat, touched: bool)
    ensures Grown(a, a, n, touched)
  {
  }

  lemma TouchedNext(cfg: Config, sv: Survey, k: nat, n: nat)
    requires k < |sv.open| && DistinctNumbers(sv.open)
    ensures TouchedUpTo(cfg, sv, k + 1, n) <==>
      TouchedUpTo(cfg, sv, k, n) || (sv.open[k].number == n && Dispatchable(cfg, sv, sv.open[k]))
    ensures sv.open[k].number == n ==> !TouchedUpTo(cfg, sv, k, n)
  {
    hide Dispatchable;
  }

  /** No comment goes to an issue that is not Ready or that carries the in-flight label. */
  lemma QuietIssues(cfg: Config, sv: Survey, host: Content, soft: map<nat, int>, a: Answers, i: Issue)
    requires Fits(cfg, sv, a) && DistinctNumbers(sv.open) && i in sv.open && !Dispatchable(cfg, sv, i)
    ensures var comments := RunCycle(cfg, sv, host, soft, a).host.comments;
            host.comments <= comments && forall x :: |host.comments| <= x < |comments| ==> comments[x].issue != i.number
  {
    PreparedIsFresh(cfg, sv, host, soft, a);
    hide Prepared, HandleUpTo, Dispatchable, OurTriggers;
    UniqueNumber(sv.open, i);
    CommentsUpTo(cfg, sv, Prepared(cfg, sv, host, soft, a), a.outcomes, |sv.open|, i.number);
  }

  /** An issue gets at most one trigger comment in a cycle, and none if the survey already found one. */
  lemma TriggerOnce(cfg: Config, sv: Survey, host: Content, soft: map<nat, int>, a: Answers, n: nat)
    requires Fits(cfg, sv, a) && DistinctNumbers(sv.open)
    ensures var comments := RunCycle(cfg, sv, host, soft, a).host.comments;
            host.comments <= comments && OurTriggers(comments, n) <= OurTriggers(host.comments, n) + 1 &&
            (n in sv.triggered || (forall i :: i in sv.open ==> i.number != n) ==>
              OurTriggers(comments, n) == OurTriggers(host.comments, n))
  {
    PreparedIsFresh(cfg, sv, host, soft, a);
    forall i | i in sv.open && Dispatchable(cfg, sv, i) ensures i.number !in sv.triggered {
      ReadyExactlyWhen(i, sv.closed, sv.prs, sv.triggered);
    }
    hide Prepared, HandleUpTo, Dispatchable, OurTriggers;
    CommentsUpTo(cfg, sv, Prepared(cfg, sv, host, soft, a), a.outcomes, |sv.open|, n);
  }

  // ---------- the hard chord ----------

  /** At most one triggered issue is bureaucratic, and none if the survey saw any issue in flight. */
  ghost predicate Serial(cfg: Config, sv: Survey, pass: Pass) {
    forall i :: i in sv.open && EffectivePreset(cfg, i) == Bureaucratic && i.number in pass.report.triggered ==>
      pass.bureaucratic && !AnyInFlight(sv.open) &&
      forall j :: j in sv.open && EffectivePreset(cfg, j) == Bureaucratic && j.number in pass.report.triggered ==> j == i
  }

  lemma {:induction false} SerialUpTo(cfg: Config, sv: Survey, st: State, os: seq<Outcome>, k: nat)
    requires |os| == |sv.open| && k <= |sv.open| && Fresh(st.pass) && DistinctNumbers(sv.open)
    ensures Serial(cfg, sv, HandleUpTo(cfg, sv, st, os, k).pass)
  {
    hide *;
    if k == 0 {
      HandleStart(cfg, sv, st, os);
      SerialNothing(cfg, sv, st.pass);
    } else {
      SerialUpTo(cfg, sv, st, os, k - 1);
      var before := HandleUpTo(cfg, sv, st, os, k - 1);
      var i := sv.open[k - 1];
      TurnCounted(cfg, sv, before, i, os[k - 1]);
      HandledNext(cfg, sv, st, os, k);
      UniqueNumber(sv.open, i);
      SerialStep(cfg, sv, before, i, HandleUpTo(cfg, sv, st, os, k));
    }
  }

  lemma SerialNothing(cfg: Config, sv: Survey, pass: Pass)
    requires Fresh(pass)
    ensures Serial(cfg, sv, pass)
  {
    hide EffectivePreset, AnyInFlight;
  }

  lemma UniqueNumber(open: seq<Issue>, i: Issue)
    requires DistinctNumbers(open) && i in open
    ensures forall j :: j in open && j.number == i.number ==> j == i
  {
    forall j | j in open && j.number == i.number ensures j == i {
      FindDistinct(open, i);
      FindDistinct(open, j);
    }
  }

  lemma SerialStep(cfg: Config, sv: Survey, st: State, i: Issue, next: State)
    requires Serial(cfg, sv, st.pass) && TurnCounts(cfg, sv, st, i, next) && i in sv.open
    requires forall j :: j in sv.open && j.number == i.number ==> j == i
    ensures Serial(cfg, sv, next.pass)
  {
    hide Dispatchable, EffectivePreset, AnyInFlight, NextFree;
  }
}
