/**
 * Histories are not free-floating records: every line of every policy's history was written by one action of
 * the run, made in the stated order by whom the contract admits and with the external answers it relied on.
 * Reverted call frames and transactions leave no line behind.
 */
module Provenance {
  import opened Evm
  import opened Protocol
  import opened Runs

  function At(c: Chain, start: uint256, actions: seq<Action>, j: nat): World
    requires j <= |actions|
  {
    Run(c, Begin(start), actions[..j])
  }

  /** Action number `j` of the run found the first `k` lines of the history, and wrote the next one for cause. */
  predicate Wrote(c: Chain, start: uint256, actions: seq<Action>, j: nat, id: Bytes32, trail: seq<Entry>, k: nat)
  {
    && j < |actions| && k < |trail|
    && TrailOf(At(c, start, actions, j).core, id) == trail[..k]
    && Caused(c, At(c, start, actions, j), actions[j], id, trail[k])
    && TrailOf(At(c, start, actions, j + 1).core, id) == trail[..k + 1]
  }

  /** What was written stays written by the same action, whatever the run and the history go on to. */
  lemma WroteLater(c: Chain, start: uint256, actions: seq<Action>, j: nat, id: Bytes32, trail: seq<Entry>, k: nat,
                   more: seq<Action>, longer: seq<Entry>)
    requires Wrote(c, start, actions, j, id, trail, k)
    requires actions <= more && k < |longer| && trail[..k + 1] == longer[..k + 1]
    ensures Wrote(c, start, more, j, id, longer, k)
  {
    hide Run, Caused;
    assert more[..j] == actions[..j] && more[..j + 1] == actions[..j + 1];
    assert trail[k] == trail[..k + 1][k] == longer[..k + 1][k] == longer[k];
    assert trail[..k] == trail[..k + 1][..k] == longer[..k + 1][..k] == longer[..k];
  }

  ghost predicate LineSourced(c: Chain, start: uint256, actions: seq<Action>, id: Bytes32, trail: seq<Entry>, k: nat)
  {
    exists j: nat :: Wrote(c, start, actions, j, id, trail, k)
  }

  /** Every line of the history was written by some action of the run. */
  ghost predicate Sourced(c: Chain, start: uint256, actions: seq<Action>, id: Bytes32, trail: seq<Entry>)
  {
    forall k: nat :: k < |trail| ==> LineSourced(c, start, actions, id, trail, k)
  }

  ghost predicate AllSourced(c: Chain, start: uint256, actions: seq<Action>, s: Core)
  {
    forall id :: Sourced(c, start, actions, id, TrailOf(s, id))
  }

  lemma SourcedLater(c: Chain, start: uint256, actions: seq<Action>, a: Action, s: Core)
    requires AllSourced(c, start, actions, s)
    ensures AllSourced(c, start, actions + [a], s)
  {
    hide Wrote;
    forall id ensures Sourced(c, start, actions + [a], id, TrailOf(s, id)) {
      var trail := TrailOf(s, id);
      assert Sourced(c, start, actions, id, trail);
      forall k: nat | k < |trail| ensures LineSourced(c, start, actions + [a], id, trail, k) {
        assert LineSourced(c, start, actions, id, trail, k);
        var j: nat :| Wrote(c, start, actions, j, id, trail, k);
        WroteLater(c, start, actions, j, id, trail, k, actions + [a], trail);
      }
    }
  }

  /** The newest line was written by the newest action, the others before. */
  lemma SourcedLonger(c: Chain, start: uint256, actions: seq<Action>, a: Action, id: Bytes32, trail: seq<Entry>,
                      e: Entry)
    requires Sourced(c, start, actions, id, trail)
    requires Wrote(c, start, actions + [a], |actions|, id, trail + [e], |trail|)
    ensures Sourced(c, start, actions + [a], id, trail + [e])
  {
    hide Wrote;
    forall k: nat | k < |trail + [e]| ensures LineSourced(c, start, actions + [a], id, trail + [e], k) {
      if k < |trail| {
        assert LineSourced(c, start, actions, id, trail, k);
        var j: nat :| Wrote(c, start, actions, j, id, trail, k);
        WroteLater(c, start, actions, j, id, trail, k, actions + [a], trail + [e]);
      }
    }
  }

  lemma LastWrote(c: Chain, start: uint256, actions: seq<Action>, a: Action, id: Bytes32, e: Entry)
    requires WritesLine(c, Run(c, Begin(start), actions), a, id, e)
    ensures var trail := TrailOf(Run(c, Begin(start), actions).core, id);
            && TrailOf(Run(c, Begin(start), actions + [a]).core, id) == trail + [e]
            && Wrote(c, start, actions + [a], |actions|, id, trail + [e], |trail|)
    ensures forall other :: other != id ==>
              TrailOf(Run(c, Begin(start), actions + [a]).core, other) ==
                TrailOf(Run(c, Begin(start), actions).core, other)
  {
    hide Step, Caused, Concerns;
    var all := actions + [a];
    assert all[..|actions|] == actions && all[..|all|] == all;
    var trail := TrailOf(Run(c, Begin(start), actions).core, id);
    assert (trail + [e])[..|trail|] == trail && (trail + [e])[..|trail| + 1] == trail + [e];
  }

  /** A step keeps every known storage sourced. */
  lemma StepSourced(c: Chain, start: uint256, actions: seq<Action>, a: Action, s: Core)
    requires forall known :: Kept(Run(c, Begin(start), actions), known) ==> AllSourced(c, start, actions, known)
    requires Kept(Step(c, Run(c, Begin(start), actions), a), s)
    ensures AllSourced(c, start, actions + [a], s)
  {
    hide Run, Step, WorldInv, Kept, Sourced, WritesLine, Reverts;
    var w := Run(c, Begin(start), actions);
    NowKept(w);
    EveryRun(c, start, actions);
    var id, e := StepWrites(c, w, a);
    if Kept(w, s) {
      SourcedLater(c, start, actions, a, s);
    } else {
      if s != Step(c, w, a).core { StepKeepsKnown(c, w, a, s); }
      LastWrote(c, start, actions, a, id, e);
      RunSnoc(c, Begin(start), actions, a);
      SourcedLater(c, start, actions, a, w.core);
      SourcedLonger(c, start, actions, a, id, TrailOf(w.core, id), e);
    }
  }

  lemma NowKept(w: World)
    ensures Kept(w, w.core)
  {
  }

  lemma {:induction false} RunSourced(c: Chain, start: uint256, actions: seq<Action>, s: Core)
    requires Kept(Run(c, Begin(start), actions), s)
    ensures AllSourced(c, start, actions, s)
  {
    hide Step, Sourced;
    if |actions| == 0 {
      NothingToSource(c, start, actions);
    } else {
      var front, a := actions[..|actions| - 1], actions[|actions| - 1];
      forall known | Kept(Run(c, Begin(start), front), known) ensures AllSourced(c, start, front, known) {
        RunSourced(c, start, front, known);
      }
      assert front + [a] == actions;
      StepSourced(c, start, front, a, s);
    }
  }

  lemma NothingToSource(c: Chain, start: uint256, actions: seq<Action>)
    ensures AllSourced(c, start, actions, GENESIS)
  {
  }

  predicate Increasing(js: seq<nat>) { forall i, k :: 0 <= i < k < |js| ==> js[i] < js[k] }

  /** Line `k` of the history was written by action `js[k]`. */
  predicate WrittenBy(c: Chain, start: uint256, actions: seq<Action>, js: seq<nat>, id: Bytes32, trail: seq<Entry>)
  {
    |js| == |trail| && forall k: nat :: k < |trail| ==> Wrote(c, start, actions, js[k], id, trail, k)
  }

  /**
   * At every point of every run the history of every policy, line by line, is the work of successful actions of
   * that run, in the order of the lines.
   */
  lemma {:induction false} HistoryCaused(c: Chain, start: uint256, actions: seq<Action>, id: Bytes32)
      returns (js: seq<nat>)
    ensures WrittenBy(c, start, actions, js, id, TrailOf(Run(c, Begin(start), actions).core, id))
    ensures Increasing(js) && forall k :: 0 <= k < |js| ==> js[k] < |actions|
    decreases |actions|
  {
    hide Run, Wrote;
    var w := Run(c, Begin(start), actions);
    var trail := TrailOf(w.core, id);
    js := [];
    if |trail| > 0 {
      var n := |trail| - 1;
      var j := LineWritten(c, start, actions, id, n);
      var before := actions[..j];
      js := HistoryCaused(c, start, before, id);
      forall k: nat | k < n ensures Wrote(c, start, actions, js[k], id, trail, k) {
        assert trail[..n][..k + 1] == trail[..k + 1];
        WroteLater(c, start, before, js[k], id, trail[..n], k, actions, trail);
      }
      js := js + [j];
    }
  }

  lemma LineWritten(c: Chain, start: uint256, actions: seq<Action>, id: Bytes32, k: nat) returns (j: nat)
    requires k < |TrailOf(Run(c, Begin(start), actions).core, id)|
    ensures Wrote(c, start, actions, j, id, TrailOf(Run(c, Begin(start), actions).core, id), k)
    ensures j < |actions|
    ensures TrailOf(Run(c, Begin(start), actions[..j]).core, id) == TrailOf(Run(c, Begin(start), actions).core, id)[..k]
  {
    hide Run, Caused;
    var s := Run(c, Begin(start), actions).core;
    NowKept(Run(c, Begin(start), actions));
    RunSourced(c, start, actions, s);
    assert Sourced(c, start, actions, id, TrailOf(s, id));
    assert LineSourced(c, start, actions, id, TrailOf(s, id), k);
    j :| Wrote(c, start, actions, j, id, TrailOf(s, id), k);
  }
}
