/**
 * Whole runs of the deployed contract. A settlement or refund is broken up at each transfer: between
 * two transfers the recipient's code may call any entry point, in call frames of its own that may
 * revert, and the whole transaction may still revert. Rejected calls change nothing.
 */
module Runs {
  import opened Evm
  import opened Protocol
  import opened Invariant

  /**
   * The reentrancy guard. While `settle` or `refundPolicy` runs it holds the transfers still to make, the
   * storage to restore if the transaction reverts, and the storage to restore for each open call frame.
   */
  datatype Lock = Open | Held(id: Bytes32, due: seq<Payment>, saved: Core, frames: seq<Core>)

  datatype World = World(core: Core, now: uint256, lock: Lock)

  datatype Action =
    | Wait(until: uint256)
    | Invoke(sender: Address, value: uint256, oracle: Oracle, call: Call)
    | Settle(sender: Address, value: uint256, result: SettlementResult)
    | Refund(sender: Address, value: uint256, policyId: Bytes32)
    | PayNext
    | Finish
    | Fail
    | EnterFrame
    | LeaveFrame
    | AbortFrame

  function Begin(now: uint256): World { World(GENESIS, now, Open) }

  /** What a call frame runs under: the guarded entry points are closed while the lock is held. */
  function Attempt(c: Chain, w: World, m: Msg, o: Oracle, call: Call): Outcome<Core>
  {
    if !Caller(c, m.sender) then Revert(Unauthorized)
    else if call.FundPolicy? && w.lock.Held? then Revert(ReentrantCall)
    else Execute(c, w.core, m, o, call)
  }

  function SettleStart(c: Chain, w: World, m: Msg, r: SettlementResult): Outcome<Core>
  {
    if m.value != 0 then Revert(NonPayable)
    else if w.lock.Held? then Revert(ReentrantCall)
    else BeginSettle(c, w.core, m, r)
  }

  function RefundStart(w: World, m: Msg, id: Bytes32): Outcome<Core>
  {
    if m.value != 0 then Revert(NonPayable)
    else if w.lock.Held? then Revert(ReentrantCall)
    else BeginRefund(w.core, m, id)
  }

  /** The transaction in progress is undone. */
  function Undone(w: World): World
    requires w.lock.Held?
  {
    World(w.lock.saved, w.now, Open)
  }

  /** The contract has no receive function, so a transfer to its own address fails like any refused transfer. */
  predicate Deliverable(c: Chain, s: Core, payment: Payment) { payment.to != c.self && payment.amount <= s.balance }

  function Step(c: Chain, w: World, a: Action): World
  {
    match a
    case Wait(until) => if w.lock.Open? && w.now <= until then w.(now := until) else w
    case Invoke(sender, value, o, call) =>
      var result := Attempt(c, w, Msg(sender, value, w.now), o, call);
      if result.Ok? then w.(core := result.value) else w
    case Settle(sender, value, r) =>
      var result := SettleStart(c, w, Msg(sender, value, w.now), r);
      if result.Ok? then World(result.value, w.now, Held(r.policyId, Payouts(r.recipients, r.amounts), w.core, []))
        else w
    case Refund(sender, value, id) =>
      var result := RefundStart(w, Msg(sender, value, w.now), id);
      if result.Ok?
      then World(result.value, w.now,
                 Held(id, [Payment(w.core.policies[id].owner, w.core.policies[id].fundedAmount)], w.core, []))
      else w
    case PayNext =>
      if w.lock.Open? || w.lock.frames != [] || w.lock.due == [] then w
      else if !Deliverable(c, w.core, w.lock.due[0]) then Undone(w)
      else w.(core := Transfer(w.core, w.lock.id, w.lock.due[0]), lock := w.lock.(due := w.lock.due[1..]))
    case Finish => if w.lock.Held? && w.lock.frames == [] && w.lock.due == [] then w.(lock := Open) else w
    case Fail => if w.lock.Held? then Undone(w) else w
    case EnterFrame => if w.lock.Held? then w.(lock := w.lock.(frames := w.lock.frames + [w.core])) else w
    case LeaveFrame =>
      if w.lock.Held? && w.lock.frames != [] then w.(lock := w.lock.(frames := w.lock.frames[..|w.lock.frames| - 1]))
        else w
    case AbortFrame =>
      if w.lock.Held? && w.lock.frames != []
      then World(w.lock.frames[|w.lock.frames| - 1], w.now, w.lock.(frames := w.lock.frames[..|w.lock.frames| - 1]))
      else w
  }

  function Run(c: Chain, w: World, actions: seq<Action>): World
  {
    if |actions| == 0 then w else Step(c, Run(c, w, actions[..|actions| - 1]), actions[|actions| - 1])
  }

  lemma {:induction false} RunSnoc(c: Chain, w: World, actions: seq<Action>, a: Action)
    ensures Run(c, w, actions + [a]) == Step(c, Run(c, w, actions), a)
  {
    hide Step;
    assert (actions + [a])[..|actions|] == actions;
  }

  lemma {:induction false} RunConcat(c: Chain, w: World, first: seq<Action>, rest: seq<Action>)
    ensures Run(c, w, first + rest) == Run(c, Run(c, w, first), rest)
  {
    hide Step;
    var n := |rest| - 1;
    if n < 0 {
      assert first + rest == first;
    } else {
      assert first + rest == (first + rest[..n]) + [rest[n]];
      RunConcat(c, w, first, rest[..n]);
      RunSnoc(c, w, first + rest[..n], rest[n]);
      RunSnoc(c, Run(c, w, first), rest[..n], rest[n]);
      assert rest[..n] + [rest[n]] == rest;
    }
  }

  // ---- The invariant of runs ----

  function FlightOf(w: World): Flight { if w.lock.Held? then Paying(w.lock.id, w.lock.due) else Quiet }

  ghost predicate WorldInv(c: Chain, w: World)
  {
    && CoreInv(c, w.core, w.now, FlightOf(w))
    && (w.lock.Held? ==> CoreInv(c, w.lock.saved, w.now, Quiet))
    && (w.lock.Held? ==> forall i :: 0 <= i < |w.lock.frames| ==> CoreInv(c, w.lock.frames[i], w.now, FlightOf(w)))
  }

  lemma StepKeeps(c: Chain, w: World, a: Action)
    requires WorldInv(c, w)
    ensures WorldInv(c, Step(c, w, a))
  {
    hide CoreInv, Execute, BeginSettle, BeginRefund, Transfer, Payouts;
    match a
    case Wait(until) =>
      if w.lock.Open? && w.now <= until { InvLater(c, w.core, w.now, until, Quiet); }
    case Invoke(sender, value, o, call) =>
      var m := Msg(sender, value, w.now);
      if Attempt(c, w, m, o, call).Ok? { ExecuteKeeps(c, w.core, m, o, call, FlightOf(w)); }
    case Settle(sender, value, r) =>
      var m := Msg(sender, value, w.now);
      if SettleStart(c, w, m, r).Ok? { BeginSettleKeeps(c, w.core, m, r); }
    case Refund(sender, value, id) =>
      var m := Msg(sender, value, w.now);
      if RefundStart(w, m, id).Ok? { BeginRefundKeeps(c, w.core, m, id); }
    case PayNext =>
      if w.lock.Held? && w.lock.due != [] && w.lock.due[0].to != c.self {
        TransferKeeps(c, w.core, w.lock.id, w.lock.due, w.now);
      }
    case Finish =>
      if w.lock.Held? && w.lock.due == [] { PayoutOver(c, w.core, w.lock.id, w.now); }
    case _ =>
  }

  lemma {:induction false} RunKeeps(c: Chain, w: World, actions: seq<Action>)
    requires WorldInv(c, w)
    ensures WorldInv(c, Run(c, w, actions))
  {
    hide WorldInv, Step;
    if |actions| > 0 {
      RunKeeps(c, w, actions[..|actions| - 1]);
      StepKeeps(c, Run(c, w, actions[..|actions| - 1]), actions[|actions| - 1]);
    }
  }

  /** The invariant holds at every point of every run from deployment. */
  lemma EveryRun(c: Chain, start: uint256, actions: seq<Action>)
    ensures WorldInv(c, Run(c, Begin(start), actions))
  {
    GenesisInv(c, start);
    RunKeeps(c, Begin(start), actions);
  }

  // ---- Histories only grow ----

  predicate Grows(base: Core, s: Core)
  {
    forall id :: id in base.policies ==> id in s.policies && TrailOf(base, id) <= TrailOf(s, id)
  }

  predicate WorldGrows(base: Core, w: World)
  {
    && Grows(base, w.core)
    && (w.lock.Held? ==> Grows(base, w.lock.saved))
    && (w.lock.Held? ==> forall i :: 0 <= i < |w.lock.frames| ==> Grows(base, w.lock.frames[i]))
  }

  lemma PutGrows(base: Core, s: Core, id: Bytes32, p: Policy, e: Entry, s': Core)
    requires Grows(base, s) && s'.policies == s.policies[id := p] && s'.trails == s.trails[id := TrailOf(s, id) + [e]]
    ensures Grows(base, s')
  {
    forall k | k in base.policies ensures TrailOf(base, k) <= TrailOf(s', k) {
      assert TrailOf(base, k) <= TrailOf(s, k);
    }
  }

  /** The history line a successful call writes. */
  function EntryOf(c: Chain, s: Core, m: Msg, o: Oracle, call: Call): Entry
  {
    match call
    case CreatePolicy(q) => Created(m.sender, NonceOf(s, m.sender), q, m.now)
    case FundPolicy(_) => Deposited(m.sender, m.value, m.now)
    case RequestProof(_, reference) => ProofAsked(reference, m.now)
    case SubmitEvmProof(_, proof) => ProofAccepted(proof.data, m.now)
    case SendComputationInstruction(_, inputHash, _) =>
      ComputationAsked(inputHash, if o.instruction.Some? then o.instruction.value else ZERO, m.now)
    case AuthenticateActionResult(r, actionId, tag, actionStatus, signature) =>
      var signer := RecoverSigner(c, SigningDigest(c, r, actionId, tag, actionStatus), signature);
      ResultAccepted(r, Attestation(tag, signature, if signer.Ok? then signer.value else ZERO_ADDRESS, o.activeTees),
                     m.now)
    case CancelPolicy(_) => Withdrawn(m.now)
  }

  lemma AuthenticateWrites(c: Chain, s: Core, m: Msg, o: Oracle, r: SettlementResult, actionId: Bytes32, tag: string,
                           actionStatus: uint8, signature: Signature)
    requires Authenticate(c, s, m, o, r, actionId, tag, actionStatus, signature).Ok?
    ensures var call := AuthenticateActionResult(r, actionId, tag, actionStatus, signature);
            Writes(s, r.policyId, EntryOf(c, s, m, o, call),
                   Authenticate(c, s, m, o, r, actionId, tag, actionStatus, signature).value)
  {
    hide AcceptResult;
    var signer := RecoverSigner(c, SigningDigest(c, r, actionId, tag, actionStatus), signature).value;
    AcceptResultWrites(c, s, m, r, Attestation(tag, signature, signer, o.activeTees));
  }

  /** Which record and which history line a successful call writes. */
  lemma ExecuteExtends(c: Chain, s: Core, m: Msg, o: Oracle, call: Call)
    requires Execute(c, s, m, o, call).Ok?
    ensures var s', id := Execute(c, s, m, o, call).value, Subject(c, s, m, call);
            && id in s'.policies
            && Extends(s, id, s'.policies[id], EntryOf(c, s, m, o, call), s')
            && (call.CreatePolicy? <==> id !in s.policies)
            && (id in s.policies ==> RecipientsOf(s', id) == RecipientsOf(s, id) && SharesOf(s', id) == SharesOf(s, id))
  {
    if call.CreatePolicy? {
      CreateExtends(c, s, m, call.params);
    } else {
      ExecuteWrites(c, s, m, o, call);
      WritesExtends(s, Subject(c, s, m, call), EntryOf(c, s, m, o, call), Execute(c, s, m, o, call).value);
    }
  }

  lemma ExecuteWrites(c: Chain, s: Core, m: Msg, o: Oracle, call: Call)
    requires Execute(c, s, m, o, call).Ok? && !call.CreatePolicy?
    ensures Writes(s, Subject(c, s, m, call), EntryOf(c, s, m, o, call), Execute(c, s, m, o, call).value)
  {
    hide Create, Fund, AskProof, SubmitProof, AskComputation, Authenticate, Cancel, Writes;
    match call
    case FundPolicy(id) => FundWrites(s, m, id);
    case RequestProof(id, reference) => AskProofWrites(s, m, id, reference);
    case SubmitEvmProof(id, proof) => SubmitProofWrites(s, m, o, id, proof);
    case SendComputationInstruction(id, inputHash, message) => AskComputationWrites(s, m, o, id, inputHash, message);
    case AuthenticateActionResult(r, actionId, tag, actionStatus, signature) =>
      AuthenticateWrites(c, s, m, o, r, actionId, tag, actionStatus, signature);
    case CancelPolicy(id) => CancelWrites(s, m, id);
  }

  // ---- What one action of a run writes, and why ----

  predicate Owner(s: Core, id: Bytes32, sender: Address) { id in s.policies && s.policies[id].owner == sender }

  predicate OwnerCalls(w: World, a: Action, id: Bytes32) { a.Invoke? && Owner(w.core, id, a.sender) }

  /**
   * Action `a`, taken in world `w`, is a reason for history line `e` of policy `id`: the right entry point, called by
   * whom it admits, with the external answers that the line relies on.
   */
  predicate Caused(c: Chain, w: World, a: Action, id: Bytes32, e: Entry)
  {
    match e
    case Created(owner, nonce, q, at) =>
      && a.Invoke? && a.call == CreatePolicy(q) && a.sender == owner && Caller(c, owner) && a.value == 0
      && NonceOf(w.core, owner) == nonce && at == w.now
    case Deposited(funder, value, at) =>
      && a.Invoke? && a.call == FundPolicy(id) && a.sender == funder && a.value == value && at == w.now
      && w.lock.Open?
    case ProofAsked(reference, at) => OwnerCalls(w, a, id) && a.value == 0 && a.call == RequestProof(id, reference)
      && at == w.now
    case ProofAccepted(data, at) =>
      && OwnerCalls(w, a, id) && a.value == 0 && a.call == SubmitEvmProof(id, EvmProof(data)) && at == w.now
      && a.oracle.fdcAccepts && Keccak(Response(data)) !in w.core.usedProofDigests
    case ComputationAsked(inputHash, instructionId, at) =>
      && OwnerCalls(w, a, id) && a.call.SendComputationInstruction? && at == w.now
      && a.call.policyId == id && a.call.inputHash == inputHash && a.oracle.instruction == Some(instructionId)
    case ResultAccepted(r, att, at) =>
      && a.Invoke? && a.value == 0 && at == w.now
      && a.call == AuthenticateActionResult(r, r.computationReference, att.tag, 1, att.signature)
      && a.oracle.teeRegistryConfigured && a.oracle.activeTees == att.teeIds && Attested(c, r, att)
    case PayoutBegun(at) =>
      && a.Settle? && a.value == 0 && a.result.policyId == id && Owner(w.core, id, a.sender) && at == w.now
      && w.lock.Open?
      && ResultDigest(c, a.result) == w.core.policies[id].resultDigest
    case Paid(payment) =>
      a.PayNext? && w.lock.Held? && w.lock.id == id && w.lock.due != [] && w.lock.due[0] == payment
    case Withdrawn(at) => OwnerCalls(w, a, id) && a.value == 0 && a.call == CancelPolicy(id) && at == w.now
    case RefundBegun(at) =>
      && a.Refund? && a.value == 0 && a.policyId == id && Owner(w.core, id, a.sender) && at == w.now && w.lock.Open?
      && Refundable(w.core.policies[id], w.now)
  }

  /** A storage the world still knows: the present one, or one that a revert would bring back. */
  predicate Kept(w: World, s: Core)
  {
    s == w.core || (w.lock.Held? && (s == w.lock.saved || s in w.lock.frames))
  }

  /** The policy an action is about, if it can write anything. */
  function Concerns(c: Chain, w: World, a: Action): Option<Bytes32>
  {
    match a
    case Invoke(sender, value, _, call) => Some(Subject(c, w.core, Msg(sender, value, w.now), call))
    case Settle(_, _, r) => Some(r.policyId)
    case Refund(_, _, id) => Some(id)
    case PayNext => if w.lock.Held? then Some(w.lock.id) else None
    case _ => None
  }

  lemma InvokeCaused(c: Chain, w: World, sender: Address, value: uint256, o: Oracle, call: Call)
    requires Attempt(c, w, Msg(sender, value, w.now), o, call).Ok?
    ensures var m := Msg(sender, value, w.now);
            Caused(c, w, Invoke(sender, value, o, call), Subject(c, w.core, m, call), EntryOf(c, w.core, m, o, call))
  {
    hide AcceptResult, SigningDigest, RecoverSigner, TotalFrom, ResultDigest, PolicyIdOf;
  }

  /**
   * The action adds line `e`, with its cause, to the history of the policy it is about, and touches no other policy.
   */
  ghost predicate WritesLine(c: Chain, w: World, a: Action, id: Bytes32, e: Entry)
  {
    var s' := Step(c, w, a).core;
    && Concerns(c, w, a) == Some(id) && id in s'.policies && Extends(w.core, id, s'.policies[id], e, s')
    && Caused(c, w, a, id, e)
  }

  lemma InvokeWritesLine(c: Chain, w: World, sender: Address, value: uint256, o: Oracle, call: Call)
    requires Attempt(c, w, Msg(sender, value, w.now), o, call).Ok?
    ensures var m := Msg(sender, value, w.now);
            WritesLine(c, w, Invoke(sender, value, o, call), Subject(c, w.core, m, call),
                       EntryOf(c, w.core, m, o, call))
  {
    hide Execute, EntryOf, Subject, Extends, Caused;
    ExecuteExtends(c, w.core, Msg(sender, value, w.now), o, call);
    InvokeCaused(c, w, sender, value, o, call);
  }

  lemma SettleWritesLine(c: Chain, w: World, sender: Address, value: uint256, r: SettlementResult)
    requires SettleStart(c, w, Msg(sender, value, w.now), r).Ok?
    ensures WritesLine(c, w, Settle(sender, value, r), r.policyId, PayoutBegun(w.now))
  {
    hide Extends, ResultDigest, Payouts;
    var m := Msg(sender, value, w.now);
    BeginSettleWrites(c, w.core, m, r);
    WritesExtends(w.core, r.policyId, PayoutBegun(w.now), BeginSettle(c, w.core, m, r).value);
  }

  lemma RefundWritesLine(c: Chain, w: World, sender: Address, value: uint256, id: Bytes32)
    requires RefundStart(w, Msg(sender, value, w.now), id).Ok?
    ensures WritesLine(c, w, Refund(sender, value, id), id, RefundBegun(w.now))
  {
    hide Extends;
    var m := Msg(sender, value, w.now);
    BeginRefundWrites(w.core, m, id);
    WritesExtends(w.core, id, RefundBegun(w.now), BeginRefund(w.core, m, id).value);
  }

  lemma TransferWritesLine(c: Chain, w: World)
    requires w.lock.Held? && w.lock.due != [] && w.lock.frames == [] && Deliverable(c, w.core, w.lock.due[0])
    requires w.lock.id in w.core.policies
    ensures WritesLine(c, w, PayNext, w.lock.id, Paid(w.lock.due[0]))
  {
    hide Extends;
    TransferWrites(w.core, w.lock.id, w.lock.due[0]);
    WritesExtends(w.core, w.lock.id, Paid(w.lock.due[0]), Transfer(w.core, w.lock.id, w.lock.due[0]));
  }

  /** The action undoes the transaction in progress or its innermost call frame. */
  predicate Reverts(c: Chain, w: World, a: Action)
  {
    && w.lock.Held?
    && match a
       case Fail => true
       case AbortFrame => w.lock.frames != []
       case PayNext => w.lock.frames == [] && w.lock.due != [] && !Deliverable(c, w.core, w.lock.due[0])
       case _ => false
  }

  /** An action that reverts nothing changes nothing, or adds one line to one history. */
  lemma StepWrites(c: Chain, w: World, a: Action) returns (id: Bytes32, e: Entry)
    requires WorldInv(c, w)
    ensures Reverts(c, w, a) ==> Kept(w, Step(c, w, a).core)
    ensures !Reverts(c, w, a) ==> Step(c, w, a).core == w.core || WritesLine(c, w, a, id, e)
  {
    hide CoreInv, Execute, BeginSettle, BeginRefund, Transfer, EntryOf, Subject, Payouts, WritesLine;
    id, e := ZERO, PayoutBegun(0);
    match a
    case Invoke(sender, value, o, call) =>
      var m := Msg(sender, value, w.now);
      if Attempt(c, w, m, o, call).Ok? {
        id, e := Subject(c, w.core, m, call), EntryOf(c, w.core, m, o, call);
        InvokeWritesLine(c, w, sender, value, o, call);
      }
    case Settle(sender, value, r) =>
      if SettleStart(c, w, Msg(sender, value, w.now), r).Ok? {
        id, e := r.policyId, PayoutBegun(w.now);
        SettleWritesLine(c, w, sender, value, r);
      }
    case Refund(sender, value, policyId) =>
      if RefundStart(w, Msg(sender, value, w.now), policyId).Ok? {
        id, e := policyId, RefundBegun(w.now);
        RefundWritesLine(c, w, sender, value, policyId);
      }
    case PayNext =>
      if w.lock.Held? && w.lock.due != [] && w.lock.frames == [] && Deliverable(c, w.core, w.lock.due[0]) {
        id, e := w.lock.id, Paid(w.lock.due[0]);
        PayingExists(c, w);
        TransferWritesLine(c, w);
      }
    case _ =>
  }

  /** Storages a step leaves in the world beside the present one were known before. */
  lemma StepKeepsKnown(c: Chain, w: World, a: Action, s: Core)
    requires Kept(Step(c, w, a), s) && s != Step(c, w, a).core
    ensures Kept(w, s)
  {
    hide Execute, BeginSettle, BeginRefund, Transfer;
  }

  lemma StepGrows(c: Chain, base: Core, w: World, a: Action)
    requires WorldInv(c, w) && WorldGrows(base, w)
    ensures WorldGrows(base, Step(c, w, a))
  {
    hide WorldInv, Step, Extends, Grows, Caused, Concerns, Reverts;
    var id, e := StepWrites(c, w, a);
    var w' := Step(c, w, a);
    if !Kept(w, w'.core) {
      ExtendsPuts(w.core, id, w'.core.policies[id], e, w'.core);
      PutGrows(base, w.core, id, w'.core.policies[id], e, w'.core);
    }
    forall s | Kept(w', s) ensures Grows(base, s) {
      if s != w'.core { StepKeepsKnown(c, w, a, s); }
    }
    assert w'.lock.Held? ==> forall i :: 0 <= i < |w'.lock.frames| ==> Kept(w', w'.lock.frames[i]);
  }

  lemma ExtendsPuts(s: Core, id: Bytes32, p: Policy, e: Entry, s': Core)
    requires Extends(s, id, p, e, s')
    ensures s'.policies == s.policies[id := p] && s'.trails == s.trails[id := TrailOf(s, id) + [e]]
  {
  }

  lemma PayingExists(c: Chain, w: World)
    requires WorldInv(c, w) && w.lock.Held?
    ensures w.lock.id in w.core.policies
  {
  }

  lemma {:induction false} RunGrows(c: Chain, base: Core, w: World, actions: seq<Action>)
    requires WorldInv(c, w) && WorldGrows(base, w)
    ensures WorldGrows(base, Run(c, w, actions))
  {
    hide WorldInv, WorldGrows, Step;
    if |actions| > 0 {
      RunGrows(c, base, w, actions[..|actions| - 1]);
      RunKeeps(c, w, actions[..|actions| - 1]);
      StepGrows(c, base, Run(c, w, actions[..|actions| - 1]), actions[|actions| - 1]);
    }
  }
}
