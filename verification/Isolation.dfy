/** Whether a Ready issue is dispatched next to the pull requests that are open (`isolation.rs`). */
module Isolation {
  import opened Options
  import opened Repo

  datatype SiblingStatus = Green | Amber | Red

  datatype Decision =
    | Dispatch
    | Defer
    | DispatchWithYell(branches: seq<string>)
    | DispatchWithAdvisory(branches: seq<string>)

  function ClassifySiblingCi(ci: CiStatus): SiblingStatus {
    match ci
    case Passing => Green
    case Pending => Amber
    case Unknown => Amber
    case Failing => Red
  }

  predicate SomeAre(siblings: seq<Pr>, s: SiblingStatus) {
    exists p :: p in siblings && ClassifySiblingCi(p.ci) == s
  }

  /** One failing sibling decides; without one, a single unfinished sibling does. */
  function Aggregate(siblings: seq<Pr>): SiblingStatus {
    if SomeAre(siblings, Red) then Red else if SomeAre(siblings, Amber) then Amber else Green
  }

  lemma AggregateMeaning(siblings: seq<Pr>)
    ensures Aggregate(siblings) == Red <==> exists p :: p in siblings && p.ci == Failing
    ensures Aggregate(siblings) == Green <==> forall p :: p in siblings ==> p.ci == Passing
  {
    if p :| p in siblings && p.ci == Failing { assert ClassifySiblingCi(p.ci) == Red; }
    if p :| p in siblings && (p.ci == Pending || p.ci == Unknown) { assert ClassifySiblingCi(p.ci) == Amber; }
    if forall p :: p in siblings ==> p.ci == Passing {
      assert forall p :: p in siblings ==> ClassifySiblingCi(p.ci) == Green;
    }
  }

  method AggregateSiblingStatus(siblings: seq<Pr>) returns (worst: SiblingStatus)
    ensures worst == Aggregate(siblings)
    ensures worst == Red <==> exists p :: p in siblings && p.ci == Failing
    ensures worst == Green <==> forall p :: p in siblings ==> p.ci == Passing
  {
    AggregateMeaning(siblings);
    worst := Green;
    for k := 0 to |siblings|
      invariant worst == Aggregate(siblings[..k]) && worst != Red
    {
      assert siblings[..k + 1] == siblings[..k] + [siblings[k]];
      assert siblings[k] in siblings[..k + 1];
      match ClassifySiblingCi(siblings[k].ci) {
        case Red => return Red;
        case Amber => worst := Amber;
        case Green =>
      }
    }
    assert siblings[..|siblings|] == siblings;
  }

  /** The pull requests not linked to the issue. */
  function SiblingPrs(issue: nat, prs: seq<Pr>): (r: seq<Pr>)
    ensures forall p :: p in r <==> p in prs && p.linkedIssue != Some(issue)
  {
    if prs == [] then [] else (if prs[0].linkedIssue != Some(issue) then [prs[0]] else []) + SiblingPrs(issue, prs[1..])
  }

  function Branches(siblings: seq<Pr>): seq<string> {
    seq(|siblings|, i requires 0 <= i < |siblings| => siblings[i].headRef)
  }

  /** Time since `first`; an instant later than `now` counts as zero. */
  function Elapsed(first: int, now: int): nat {
    if now > first then now - first else 0
  }

  function Decide(preset: Preset, siblings: seq<Pr>, firstSeen: Option<int>, now: int, timeout: nat): Decision {
    match preset
    case Unhinged => Dispatch
    case Feral => if siblings == [] then Dispatch else DispatchWithYell(Branches(siblings))
    case Fast => if siblings == [] then Dispatch else DispatchWithAdvisory(Branches(siblings))
    case Strict =>
      if siblings == [] then Dispatch
      else (
        match Aggregate(siblings)
        case Green => Dispatch
        case Red => Dispatch
        case Amber => if firstSeen.Some? && Elapsed(firstSeen.value, now) >= timeout then Dispatch else Defer
      )
    case Bureaucratic => Dispatch
  }

  /**
   * An issue is held back exactly under the strict preset, while some sibling is unfinished, none is failing, and
   * the timeout since it was first held back has not passed.
   */
  lemma DefersExactlyWhen(preset: Preset, issue: nat, prs: seq<Pr>, firstSeen: Option<int>, now: int, timeout: nat)
    ensures Decide(preset, SiblingPrs(issue, prs), firstSeen, now, timeout) == Defer <==>
            && preset == Strict
            && (exists p :: p in prs && p.linkedIssue != Some(issue) && (p.ci == Pending || p.ci == Unknown))
            && (forall p :: p in prs && p.linkedIssue != Some(issue) ==> p.ci != Failing)
            && (firstSeen.Some? ==> timeout > 0 && now - firstSeen.value < timeout)
  {
    var siblings := SiblingPrs(issue, prs);
    AmberExactlyWhen(siblings);
    hide Aggregate, SiblingPrs;
    assert Aggregate(siblings) == Amber ==> siblings != [];
  }

  /** Next to siblings the feral preset yells about them and the fast one advises of them; nothing else does. */
  lemma TellsExactlyWhen(preset: Preset, issue: nat, prs: seq<Pr>, firstSeen: Option<int>, now: int, timeout: nat)
    ensures var d := Decide(preset, SiblingPrs(issue, prs), firstSeen, now, timeout);
            var alone := forall p :: p in prs ==> p.linkedIssue == Some(issue);
            (d.DispatchWithYell? <==> preset == Feral && !alone) &&
            (d.DispatchWithAdvisory? <==> preset == Fast && !alone) &&
            (d.DispatchWithYell? || d.DispatchWithAdvisory? ==>
             forall b :: b in d.branches <==> exists p :: p in prs && p.linkedIssue != Some(issue) && p.headRef == b)
  {
    var siblings := SiblingPrs(issue, prs);
    hide Aggregate;
    if siblings != [] { assert siblings[0] in siblings; }
    forall b ensures b in Branches(siblings) <==> exists p :: p in siblings && p.headRef == b {
      if p :| p in siblings && p.headRef == b {
        var k :| 0 <= k < |siblings| && siblings[k] == p;
        assert Branches(siblings)[k] == b;
      }
      if b in Branches(siblings) {
        var k :| 0 <= k < |siblings| && Branches(siblings)[k] == b;
        assert siblings[k] in siblings;
      }
    }
  }

  lemma AmberExactlyWhen(siblings: seq<Pr>)
    ensures Aggregate(siblings) == Amber <==>
            (exists p :: p in siblings && (p.ci == Pending || p.ci == Unknown)) && (forall p :: p in siblings ==> p.ci != Failing)
  {
    if p :| p in siblings && (p.ci == Pending || p.ci == Unknown) {
      assert ClassifySiblingCi(p.ci) == Amber;
    }
    if p :| p in siblings && p.ci == Failing {
      assert ClassifySiblingCi(p.ci) == Red;
    }
  }
}
