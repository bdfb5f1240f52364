/** What recipients can really do in the middle of a payout, and what a reverted call frame leaves behind. */
module Callbacks {
  import opened Evm
  import opened Protocol
  import opened Invariant
  import opened Runs
  import opened AurelithContract
  import opened Acceptance
  import Theorems

  /** Time passes between transactions as the chain says, and never within one. */
  lemma TimeMoves(c: Chain, w: World, until: uint256)
    ensures Step(c, w, Wait(until)) == if w.lock.Open? && w.now <= until then World(w.core, until, Open) else w
  {
  }

  /**
   * A call from anyone but the contract does to the storage what the entry point does, and nothing else to the world,
   * in the middle of a payout too; only the guarded `fundPolicy` is refused there.
   */
  lemma CallGoesThrough(c: Chain, w: World, sender: Address, value: uint256, o: Oracle, call: Call)
    requires Caller(c, sender)
    ensures var m := Msg(sender, value, w.now);
            Step(c, w, Invoke(sender, value, o, call)) ==
            if w.lock.Held? && call.FundPolicy? then w else w.(core := After(w.core, Execute(c, w.core, m, o, call)))
  {
    hide Execute;
  }

  /**
   * At every point of every run, between two transfers as well: a call changes the storage exactly when its sender can
   * call, its plain condition holds, and it is not a deposit during a payout; and then as the entry point says.
   */
  lemma CallGoesThroughIff(c: Chain, start: uint256, actions: seq<Action>, sender: Address, value: uint256, o: Oracle,
                           call: Call)
    ensures var w := Run(c, Begin(start), actions);
            var m, w' := Msg(sender, value, w.now), Step(c, w, Invoke(sender, value, o, call));
            && (w'.core != w.core <==>
                  Caller(c, sender) && Accepts(c, w.core, m, o, call) && !(w.lock.Held? && call.FundPolicy?))
            && (w'.core != w.core ==> w' == w.(core := Execute(c, w.core, m, o, call).value))
            && (w'.core == w.core ==> w' == w)
  {
    hide Run, CoreInv, Execute, Accepts;
    var w := Run(c, Begin(start), actions);
    var m := Msg(sender, value, w.now);
    EveryRun(c, start, actions);
    ExecuteSucceedsIff(c, w.core, m, o, call, FlightOf(w));
    if Execute(c, w.core, m, o, call).Ok? {
      CallsChange(c, w.core, m, o, call);
    }
  }

  /** A successful call adds a history line, so the storage is not what it was. */
  lemma CallsChange(c: Chain, s: Core, m: Msg, o: Oracle, call: Call)
    requires Execute(c, s, m, o, call).Ok?
    ensures Execute(c, s, m, o, call).value != s
  {
    hide Execute, EntryOf, Subject;
    ExecuteExtends(c, s, m, o, call);
    var id, s' := Subject(c, s, m, call), Execute(c, s, m, o, call).value;
    assert |TrailOf(s', id)| == |TrailOf(s, id)| + 1;
  }

  /** For instance: while others are being paid, an owner cancels any policy without an accepted proof. */
  lemma CancelDuringPayout(c: Chain, start: uint256, actions: seq<Action>, o: Oracle, id: Bytes32)
    requires id in Run(c, Begin(start), actions).core.policies
    requires var p := Run(c, Begin(start), actions).core.policies[id];
             p.status in {Draft, Funded, ProofRequested}
    ensures var w := Run(c, Begin(start), actions);
            var p, w' := w.core.policies[id], Step(c, w, Invoke(w.core.policies[id].owner, 0, o, CancelPolicy(id)));
            && w'.lock == w.lock && w'.core.policies == w.core.policies[id := p.(status := Cancelled)]
            && w'.core.balance == w.core.balance
  {
    hide Run;
    Theorems.RecordsByStatus(c, start, actions, id);
    var owner := Run(c, Begin(start), actions).core.policies[id].owner;
    CallGoesThrough(c, Run(c, Begin(start), actions), owner, 0, o, CancelPolicy(id));
  }

  // ---- Call frames ----

  /** Entering a call frame changes nothing but what an abort would bring back; leaving one keeps what it did. */
  lemma FramesNest(c: Chain, w: World)
    requires w.lock.Held?
    ensures Step(c, w, EnterFrame) == w.(lock := w.lock.(frames := w.lock.frames + [w.core]))
    ensures w.lock.frames != [] ==>
              && Step(c, w, LeaveFrame) == w.(lock := w.lock.(frames := w.lock.frames[..|w.lock.frames| - 1]))
              && Step(c, w, AbortFrame).core == w.lock.frames[|w.lock.frames| - 1]
              && Step(c, w, AbortFrame).lock == Step(c, w, LeaveFrame).lock
  {
  }

  /** The transaction goes on and its first `n` call frames stay open after every prefix of the actions. */
  predicate StaysInside(c: Chain, w: World, n: nat, actions: seq<Action>)
  {
    forall k :: 0 <= k <= |actions| ==>
      Run(c, w, actions[..k]).lock.Held? && |Run(c, w, actions[..k]).lock.frames| >= n
  }

  /** What happens inside open frames leaves those frames, the payout and the time as they are. */
  lemma {:induction false} OuterFramesStay(c: Chain, w: World, n: nat, actions: seq<Action>)
    requires 0 < n && StaysInside(c, w, n, actions)
    ensures w.lock.Held? && |w.lock.frames| >= n
    ensures var w' := Run(c, w, actions);
            && w'.lock.Held? && |w'.lock.frames| >= n && w'.lock.frames[..n] == w.lock.frames[..n] && w'.now == w.now
            && w'.lock.id == w.lock.id && w'.lock.due == w.lock.due && w'.lock.saved == w.lock.saved
  {
    hide Execute, BeginSettle, BeginRefund, Transfer;
    var k := |actions| - 1;
    assert actions[..|actions|] == actions;
    assert Run(c, w, actions[..0]) == w;
    if |actions| > 0 {
      forall j | 0 <= j <= k
        ensures Run(c, w, actions[..k][..j]).lock.Held? && |Run(c, w, actions[..k][..j]).lock.frames| >= n
      {
        assert actions[..k][..j] == actions[..j];
      }
      OuterFramesStay(c, w, n, actions[..k]);
    }
  }

  /** A call frame that is entered and, after any calls and inner frames, aborted leaves the world as it was. */
  lemma AbortedFrameLeavesNoTrace(c: Chain, w: World, actions: seq<Action>)
    requires w.lock.Held? && StaysInside(c, Step(c, w, EnterFrame), |w.lock.frames| + 1, actions)
    requires Run(c, Step(c, w, EnterFrame), actions).lock.Held?
    requires |Run(c, Step(c, w, EnterFrame), actions).lock.frames| == |w.lock.frames| + 1
    ensures Step(c, Run(c, Step(c, w, EnterFrame), actions), AbortFrame) == w
  {
    hide Execute, BeginSettle, BeginRefund, Transfer, Run;
    var inside := Step(c, w, EnterFrame);
    OuterFramesStay(c, inside, |w.lock.frames| + 1, actions);
    var w' := Run(c, inside, actions);
    assert w'.lock.frames == inside.lock.frames[..|w.lock.frames| + 1] == w.lock.frames + [w.core];
  }

  /** In the middle of a payout no other can start, and no transfer is made while a recipient's frame is open. */
  lemma PayoutsDoNotNest(c: Chain, w: World, sender: Address, value: uint256, r: SettlementResult, id: Bytes32)
    requires w.lock.Held?
    ensures Step(c, w, Settle(sender, value, r)) == w && Step(c, w, Refund(sender, value, id)) == w
    ensures w.lock.frames != [] ==> Step(c, w, PayNext) == w
  {
    hide BeginSettle, BeginRefund, Transfer;
  }

  /** A transaction ends with everything paid and every frame closed, or as if it had never begun. */
  lemma TransactionEnds(c: Chain, w: World, a: Action)
    requires w.lock.Held? && Step(c, w, a).lock.Open?
    ensures Step(c, w, a).core == (if Reverts(c, w, a) then w.lock.saved else w.core) && Step(c, w, a).now == w.now
    ensures !Reverts(c, w, a) ==> a.Finish? && w.lock.due == [] && w.lock.frames == []
  {
    hide Execute, BeginSettle, BeginRefund, Transfer;
  }

  /** A transfer to the contract itself is refused and undoes the whole transaction. */
  lemma RefusedTransferUndoes(c: Chain, w: World)
    requires w.lock.Held? && w.lock.frames == [] && w.lock.due != [] && w.lock.due[0].to == c.self
    ensures Step(c, w, PayNext) == World(w.lock.saved, w.now, Open)
  {
  }
}
