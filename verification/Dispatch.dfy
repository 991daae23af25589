/** Runners and tmux slots (`dispatch.rs`). */
module Dispatch {
  import opened Options
  import opened Ordered
  import opened Text
  import opened Repo

  datatype Runner = Web | Tmux

  datatype SlotKind = Agent | Qa

  /** The first runner label decides. */
  function RunnerFor(labels: seq<Label>): Runner {
    if labels == [] then Web
    else if labels[0] == RunnerTmux then Tmux
    else if labels[0] == RunnerWeb then Web
    else RunnerFor(labels[1..])
  }

  /** Tmux exactly if the tmux label comes before any web label. */
  lemma {:induction false} RunnerExactly(labels: seq<Label>)
    ensures RunnerFor(labels) == Tmux <==>
            exists k :: 0 <= k < |labels| && labels[k] == RunnerTmux && forall j :: 0 <= j < k ==> labels[j] != RunnerWeb
  {
    if labels == [] {
    } else {
      RunnerExactly(labels[1..]);
      if labels[0] != RunnerTmux && labels[0] != RunnerWeb {
        forall k | 0 < k < |labels| ensures labels[k] == labels[1..][k - 1] {}
        if RunnerFor(labels) == Tmux {
          var k :| 0 <= k < |labels[1..]| && labels[1..][k] == RunnerTmux &&
            forall j :: 0 <= j < k ==> labels[1..][j] != RunnerWeb;
          assert labels[k + 1] == RunnerTmux;
        }
        if k :| 0 <= k < |labels| && labels[k] == RunnerTmux && forall j :: 0 <= j < k ==> labels[j] != RunnerWeb {
          assert labels[1..][k - 1] == RunnerTmux;
        }
      } else if labels[0] == RunnerTmux {
        assert labels[0] == RunnerTmux;
      }
    }
  }

  function Prefix(kind: SlotKind): string {
    match kind case Agent => "agent" case Qa => "qa"
  }

  function SlotName(kind: SlotKind, n: nat): string {
    Prefix(kind) + Dec(n)
  }

  /** An unsigned decimal number, with an optional plus sign. */
  function ParseIndex(s: string): Option<nat> {
    var digits := if s != [] && s[0] == '+' then s[1..] else s;
    if digits != [] && AllDigits(digits) then Some(DigitsValue(digits)) else None
  }

  /** The slot a session occupies. */
  function SlotOf(session: string, kind: SlotKind): Option<nat> {
    if Prefix(kind) <= session then ParseIndex(session[|Prefix(kind)|..]) else None
  }

  /** A session occupies an agent slot exactly if it is named `agent` with its decimal number, and likewise for `qa`. */
  lemma SlotExactly(session: string, kind: SlotKind, n: nat)
    ensures SlotOf(session, kind) == Some(n) <==>
            var word := if kind == Agent then "agent" else "qa";
            exists number :: session == word + number && DenotesSigned(number, n)
  {
    var word := if kind == Agent then "agent" else "qa";
    if word <= session {
      assert session == word + session[|word|..];
      SignedExactly(session[|word|..], n);
    }
    hide DenotesSigned, DigitsValue;
    if number :| session == word + number && DenotesSigned(number, n) { assert session[|word|..] == number; }
  }

  /** A slot name is read back as its own slot, and never as a slot of the other kind. */
  lemma SlotNameReadsBack(kind: SlotKind, n: nat)
    ensures SlotOf(SlotName(kind, n), kind) == Some(n)
    ensures forall other :: other != kind ==> SlotOf(SlotName(kind, n), other) == None
  {
    DigitsValueDec(n);
    var d := Dec(n);
    assert SlotName(kind, n)[|Prefix(kind)|..] == d;
    assert d[0] != '+';
    assert SlotName(kind, n)[0] == Prefix(kind)[0];
  }

  function InsertNat(x: nat, s: seq<nat>): seq<nat> {
    if s == [] || x <= s[0] then [x] + s else [s[0]] + InsertNat(x, s[1..])
  }

  lemma {:induction false} InsertNatMembers(x: nat, s: seq<nat>)
    ensures forall n :: n in InsertNat(x, s) <==> n == x || n in s
  {
    if s == [] {
    } else {
      assert s == [s[0]] + s[1..];
      InsertNatMembers(x, s[1..]);
    }
  }

  lemma {:induction false} InsertNatSorted(x: nat, s: seq<nat>)
    requires NonDescending(s)
    ensures NonDescending(InsertNat(x, s))
  {
    if s == [] || x <= s[0] {
    } else {
      var r := InsertNat(x, s[1..]);
      InsertNatSorted(x, s[1..]);
      InsertNatMembers(x, s[1..]);
      assert InsertNat(x, s) == [s[0]] + r;
      hide InsertNat;
      forall i | 0 <= i < |r| ensures s[0] <= r[i] { assert r[i] in r; }
    }
  }

  /** The indices of the sessions of one kind, in ascending order. */
  function SlotIndices(sessions: seq<string>, kind: SlotKind): seq<nat> {
    if sessions == [] then []
    else
      var rest := SlotIndices(sessions[..|sessions| - 1], kind);
      match SlotOf(sessions[|sessions| - 1], kind)
      case None => rest
      case Some(n) => InsertNat(n, rest)
  }

  lemma {:induction false} SlotIndicesMeaning(sessions: seq<string>, kind: SlotKind)
    ensures NonDescending(SlotIndices(sessions, kind))
    ensures forall n :: n in SlotIndices(sessions, kind) <==> exists s :: s in sessions && SlotOf(s, kind) == Some(n)
  {
    hide SlotOf;
    if sessions == [] {
    } else {
      var k := |sessions| - 1;
      var rest := SlotIndices(sessions[..k], kind);
      SlotIndicesMeaning(sessions[..k], kind);
      assert sessions == sessions[..k] + [sessions[k]];
      if SlotOf(sessions[k], kind).Some? {
        InsertNatSorted(SlotOf(sessions[k], kind).value, rest);
        InsertNatMembers(SlotOf(sessions[k], kind).value, rest);
      }
    }
  }

  method ActiveSlotIndices(sessions: seq<string>, kind: SlotKind) returns (indices: seq<nat>)
    ensures indices == SlotIndices(sessions, kind)
    ensures NonDescending(indices)
    ensures forall n :: n in indices <==> exists s :: s in sessions && SlotOf(s, kind) == Some(n)
  {
    indices := [];
    for k := 0 to |sessions|
      invariant indices == SlotIndices(sessions[..k], kind)
    {
      assert sessions[..k + 1][..k] == sessions[..k];
      var slot := SlotOf(sessions[k], kind);
      if slot.Some? {
        indices := InsertNat(slot.value, indices);
      }
    }
    assert sessions[..|sessions|] == sessions;
    SlotIndicesMeaning(sessions, kind);
  }

  /** The lowest index in `from..=max` that is not in use. */
  function FreeFrom(used: seq<nat>, from: nat, max: nat): (r: Option<nat>)
    ensures r.Some? ==> from <= r.value <= max && r.value !in used && forall n :: from <= n < r.value ==> n in used
    ensures r.None? ==> forall n :: from <= n <= max ==> n in used
    decreases max + 1 - from
  {
    if from > max then None else if from !in used then Some(from) else FreeFrom(used, from + 1, max)
  }

  function NextFree(used: seq<nat>, max: nat): Option<nat> {
    FreeFrom(used, 1, max)
  }

  /** `next_free_slot`: the lowest slot of a pool that no session occupies. */
  method NextFreeSlot(sessions: seq<string>, kind: SlotKind, max: nat) returns (r: Option<nat>)
    ensures r.Some? ==> 1 <= r.value <= max && (forall s :: s in sessions ==> SlotOf(s, kind) != r) &&
                        SlotName(kind, r.value) !in sessions &&
                        forall n :: 1 <= n < r.value ==> exists s :: s in sessions && SlotOf(s, kind) == Some(n)
    ensures r.None? ==> forall n :: 1 <= n <= max ==> exists s :: s in sessions && SlotOf(s, kind) == Some(n)
  {
    var active := ActiveSlotIndices(sessions, kind);
    r := NextFree(active, max);
    if r.Some? { SlotNameReadsBack(kind, r.value); }
  }
}
