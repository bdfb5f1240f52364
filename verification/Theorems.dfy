/** What holds at every point of every run of the contract, from deployment on. */
module Theorems {
  import opened Evm
  import ParticipantRules
  import opened Protocol
  import opened Lifecycle
  import opened History
  import opened Invariant
  import opened Runs
  import opened Provenance

  // ---- Solvency ----

  lemma EscrowCovers(ps: map<Bytes32, Policy>, id: Bytes32)
    requires id in ps
    ensures ps[id].fundedAmount <= TotalEscrow(ps)
  {
    TotalEscrowSplit(ps, id);
  }

  /**
   * At every point of every run, between any two transfers included, the balance is exactly the escrow of
   * all policies plus the transfers still to make; so no payout or refund can lack balance.
   */
  lemma AlwaysSolvent(c: Chain, start: uint256, actions: seq<Action>)
    ensures var w := Run(c, Begin(start), actions);
            && w.core.balance == TotalEscrow(w.core.policies) + (if w.lock.Held? then PaymentSum(w.lock.due) else 0)
            && (w.lock.Held? && w.lock.due != [] ==> w.lock.due[0].amount <= w.core.balance)
            && (forall id :: id in w.core.policies ==> w.core.policies[id].fundedAmount <= w.core.balance)
  {
    hide Run, Records, UsedOnce, TotalEscrow;
    var w := Run(c, Begin(start), actions);
    EveryRun(c, start, actions);
    assert Solvent(w.core, FlightOf(w));
    forall id | id in w.core.policies ensures w.core.policies[id].fundedAmount <= w.core.balance {
      EscrowCovers(w.core.policies, id);
    }
  }

  // ---- Conservation and exact payout ----

  /** Everything the run says about one policy. */
  lemma AtEveryPoint(c: Chain, start: uint256, actions: seq<Action>, id: Bytes32)
    requires id in Run(c, Begin(start), actions).core.policies
    ensures var w := Run(c, Begin(start), actions);
            && Replay(c, id, TrailOf(w.core, id)).Some?
            && (var a := AccountOf(c, w.core, id);
                && WellKept(c, id, a)
                && a.policy == w.core.policies[id] && a.clock <= w.now
                && a.terms.recipients == RecipientsOf(w.core, id) && a.terms.sharesBps == SharesOf(w.core, id)
                && a.due == Owed(FlightOf(w), id))
  {
    hide Replay, WellKept;
    var w := Run(c, Begin(start), actions);
    EveryRun(c, start, actions);
    Known(c, w.core, id, w.now, FlightOf(w));
  }

  /**
   * For every policy at every point: value deposited = escrow + settled + refunded; it is never both settled
   * and refunded; and the transfers made for it plus those of a payout in progress are what was settled or refunded.
   */
  lemma ValueConserved(c: Chain, start: uint256, actions: seq<Action>, id: Bytes32) returns (refunded: nat)
    requires id in Run(c, Begin(start), actions).core.policies
    ensures var w := Run(c, Begin(start), actions);
            var p, trail := w.core.policies[id], TrailOf(w.core, id);
            && Deposits(trail) == p.fundedAmount + p.settledAmount + refunded
            && (p.settledAmount == 0 || refunded == 0)
            && (refunded > 0 <==> p.status == Refunded)
            && PaymentSum(Transfers(trail)) + PaymentSum(Owed(FlightOf(w), id)) == p.settledAmount + refunded
  {
    hide Replay;
    var w := Run(c, Begin(start), actions);
    AtEveryPoint(c, start, actions, id);
    Conservation(c, id, TrailOf(w.core, id));
    refunded := AccountOf(c, w.core, id).refunded;
  }

  /**
   * A settled policy, once its settlement transaction is over, has paid exactly its stored recipients, in
   * order, the amounts of the one authenticated result; the amounts are positive and sum to the target.
   */
  lemma ExactPayout(c: Chain, start: uint256, actions: seq<Action>, id: Bytes32) returns (r: SettlementResult)
    requires id in Run(c, Begin(start), actions).core.policies
    requires Run(c, Begin(start), actions).core.policies[id].status == Settled
    requires Run(c, Begin(start), actions).lock.Open?
    ensures var w := Run(c, Begin(start), actions);
            var p, paid := w.core.policies[id], Transfers(TrailOf(w.core, id));
            && p.resultDigest == ResultDigest(c, r)
            && |paid| == |r.amounts| == |RecipientsOf(w.core, id)|
            && (forall i :: 0 <= i < |paid| ==>
                paid[i] == Payment(RecipientsOf(w.core, id)[i], r.amounts[i]) && paid[i].amount > 0)
            && PaymentSum(paid) == Sum(r.amounts) == r.total == p.targetAmount == p.settledAmount
  {
    hide Replay;
    var w := Run(c, Begin(start), actions);
    AtEveryPoint(c, start, actions, id);
    var a := AccountOf(c, w.core, id);
    Conservation(c, id, TrailOf(w.core, id));
    r := a.result.value;
    PayoutsPair(r.recipients, r.amounts);
    assert a.paid + [] == a.paid;
  }

  /**
   * While transfers are due, those made and those due make up exactly the payout of the one authenticated result to
   * the stored recipients, or the refund of everything ever deposited to the owner.
   */
  lemma PayoutInProgress(c: Chain, start: uint256, actions: seq<Action>)
      returns (whole: seq<Payment>, result: Option<SettlementResult>)
    requires Run(c, Begin(start), actions).lock.Held? && Run(c, Begin(start), actions).lock.due != []
    ensures var w := Run(c, Begin(start), actions);
            var s, id := w.core, w.lock.id;
            && id in s.policies && s.policies[id].fundedAmount == 0
            && Transfers(TrailOf(s, id)) + w.lock.due == whole
            && PaymentSum(whole) == Deposits(TrailOf(s, id))
            && (s.policies[id].status == Settled <==> result.Some?)
            && (s.policies[id].status == Refunded <==> result.None?)
    ensures var w := Run(c, Begin(start), actions);
            var s, id := w.core, w.lock.id;
            if result.Some? then
              var r := result.value;
              && s.policies[id].resultDigest == ResultDigest(c, r)
              && r.recipients == RecipientsOf(s, id) && |r.amounts| == |r.recipients|
              && Sum(r.amounts) == s.policies[id].targetAmount
              && whole == Payouts(r.recipients, r.amounts)
            else
              Deposits(TrailOf(s, id)) < TWO_256 && whole == [Payment(s.policies[id].owner, Deposits(TrailOf(s, id)))]
  {
    hide Replay, Run, StampsInOrder;
    var w := Run(c, Begin(start), actions);
    HeldNames(c, start, actions);
    AtEveryPoint(c, start, actions, w.lock.id);
    Conservation(c, w.lock.id, TrailOf(w.core, w.lock.id));
    var a := AccountOf(c, w.core, w.lock.id);
    whole := a.paid + a.due;
    PaymentSumAppend(a.paid, a.due);
    result := if a.policy.status == Settled then a.result else None;
  }

  // ---- What a policy's record can be ----

  lemma RecordsByStatus(c: Chain, start: uint256, actions: seq<Action>, id: Bytes32)
    requires id in Run(c, Begin(start), actions).core.policies
    ensures RecordRule(c, Run(c, Begin(start), actions).core.policies[id])
  {
    hide Run, RecordRule, CoreInv;
    var w := Run(c, Begin(start), actions);
    EveryRun(c, start, actions);
    KnownRule(c, w.core, id, w.now, FlightOf(w));
  }

  // ---- Replay protection ----

  /** The used digests are exactly the digests the stored policies hold, and no digest is held twice. */
  lemma ReplaySetsExact(c: Chain, start: uint256, actions: seq<Action>)
    ensures var s := Run(c, Begin(start), actions).core;
            && (forall d :: d in s.usedProofDigests <==>
                  d != ZERO && exists id :: id in s.policies && s.policies[id].externalProofDigest == d)
            && (forall d :: d in s.usedResultDigests <==>
                  d != ZERO && exists id :: id in s.policies && s.policies[id].resultDigest == d)
            && (forall i, j ::
                  i in s.policies && j in s.policies && i != j && s.policies[i].externalProofDigest != ZERO ==>
                  s.policies[i].externalProofDigest != s.policies[j].externalProofDigest)
            && (forall i, j :: i in s.policies && j in s.policies && i != j && s.policies[i].resultDigest != ZERO ==>
                  s.policies[i].resultDigest != s.policies[j].resultDigest)
  {
    hide Records, Solvent, Run;
    EveryRun(c, start, actions);
    var s := Run(c, Begin(start), actions).core;
    var proofs, results := ProofDigests(s.policies), ResultDigests(s.policies);
    assert forall id :: id in s.policies ==> id in proofs && id in results;
    forall d | d in s.usedProofDigests
      ensures exists id :: id in s.policies && s.policies[id].externalProofDigest == d
    {
      var id :| id in proofs && proofs[id] == d;
      assert id in s.policies && s.policies[id].externalProofDigest == d;
    }
    forall d | d in s.usedResultDigests ensures exists id :: id in s.policies && s.policies[id].resultDigest == d {
      var id :| id in results && results[id] == d;
      assert id in s.policies && s.policies[id].resultDigest == d;
    }
  }

  predicate NeverSeen(error: Error) { error.PolicyExists? || error.ResultReplayed? || error.IndexOutOfRange? }

  /** Against the stored recipients themselves the summation loop never runs out of range. */
  lemma {:induction false} TotalInRange(stored: seq<Address>, amounts: seq<uint256>, i: nat, sum: nat)
    requires i <= |amounts| == |stored|
    ensures var t := TotalFrom(stored, stored, amounts, i, sum); t.Revert? ==> !NeverSeen(t.error)
    decreases |amounts| - i
  {
    if i < |amounts| {
      TotalInRange(stored, amounts, i + 1, sum + amounts[i]);
    }
  }

  /**
   * The participant hash alone forces the result's recipients to be the stored ones, so the loop's own
   * comparison is implied and its index is in range; and no other rejection below can occur here either.
   */
  lemma HashFixesRecipients(c: Chain, s: Core, m: Msg, r: SettlementResult, f: Flight)
    requires Records(c, s, m.now, f) && r.policyId in s.policies
    ensures Keccak(Participants(r.recipients, SharesOf(s, r.policyId))) == s.policies[r.policyId].participantHash ==>
            r.recipients == RecipientsOf(s, r.policyId)
    ensures ResultFault(s, m, r).Some? ==> !NeverSeen(ResultFault(s, m, r).value)
  {
    hide Records, Replay, MoneyByStatus, EvidenceByStatus, StampsInOrder;
    Known(c, s, r.policyId, m.now, f);
    if |r.amounts| == |r.recipients| && r.recipients == RecipientsOf(s, r.policyId) {
      TotalInRange(r.recipients, r.amounts, 0, 0);
    }
  }

  lemma {:induction false} EntryFaultKinds(recipients: seq<Address>, shares: seq<uint16>, i: nat)
    requires i <= |recipients| == |shares|
    ensures var fault := ParticipantRules.FaultFrom(recipients, shares, i); fault.Some? ==> !NeverSeen(fault.value)
    decreases |recipients| - i
  {
    if i < |recipients| {
      EntryFaultKinds(recipients, shares, i + 1);
    }
  }

  lemma ParticipantFaultKinds(recipients: seq<Address>, shares: seq<uint16>)
    ensures var fault := ParticipantRules.ParticipantFault(recipients, shares); fault.Some? ==> !NeverSeen(fault.value)
  {
    if |recipients| == |shares| { EntryFaultKinds(recipients, shares, 0); }
  }

  /** Rejections the code can express but no reachable state can produce. */
  lemma DeadRejections(c: Chain, start: uint256, actions: seq<Action>, m: Msg, o: Oracle, call: Call)
    requires m.now == Run(c, Begin(start), actions).now
    ensures var rejected := Execute(c, Run(c, Begin(start), actions).core, m, o, call);
            rejected.Revert? ==>
              !NeverSeen(rejected.error) && (call.SendComputationInstruction? ==> !rejected.error.Overflow?)
  {
    hide Run, CoreInv, Create, AskComputation, Authenticate;
    var w := Run(c, Begin(start), actions);
    EveryRun(c, start, actions);
    match call
    case CreatePolicy(q) => CreateRejections(c, w.core, m, q, FlightOf(w));
    case SendComputationInstruction(id, inputHash, message) =>
      ComputationRejections(c, w.core, m, o, id, inputHash, message, FlightOf(w));
    case AuthenticateActionResult(r, actionId, tag, actionStatus, signature) =>
      AuthenticateRejections(c, w.core, m, o, r, actionId, tag, actionStatus, signature, FlightOf(w));
    case _ =>
  }

  lemma CreateRejections(c: Chain, s: Core, m: Msg, q: CreateParams, f: Flight)
    requires CoreInv(c, s, m.now, f)
    ensures Create(c, s, m, q).Revert? ==> !NeverSeen(Create(c, s, m, q).error)
  {
    hide CoreInv, ParticipantRules.ParticipantFault, PolicyIdOf, ParticipantHash;
    CoreRecords(c, s, m.now, f);
    FreshId(c, s, m.sender, q, m.now, f);
    ParticipantFaultKinds(q.recipients, q.sharesBps);
  }

  lemma ComputationRejections(c: Chain, s: Core, m: Msg, o: Oracle, id: Bytes32, inputHash: Bytes32,
                              message: seq<Bytes32>, f: Flight)
    requires CoreInv(c, s, m.now, f)
    ensures var outcome := AskComputation(s, m, o, id, inputHash, message);
            outcome.Revert? ==> !NeverSeen(outcome.error) && !outcome.error.Overflow?
  {
    hide CoreInv;
    if id in s.policies { KnownRule(c, s, id, m.now, f); }
  }

  lemma AuthenticateRejections(c: Chain, s: Core, m: Msg, o: Oracle, r: SettlementResult, actionId: Bytes32,
                               tag: string, actionStatus: uint8, signature: Signature, f: Flight)
    requires CoreInv(c, s, m.now, f)
    ensures var outcome := Authenticate(c, s, m, o, r, actionId, tag, actionStatus, signature);
            outcome.Revert? ==> !NeverSeen(outcome.error)
  {
    hide CoreInv, AcceptResult, SigningDigest;
    var signer := RecoverSigner(c, SigningDigest(c, r, actionId, tag, actionStatus), signature);
    if signer.Ok? {
      AcceptRejections(c, s, m, r, Attestation(tag, signature, signer.value, o.activeTees), f);
    }
  }

  lemma AcceptRejections(c: Chain, s: Core, m: Msg, r: SettlementResult, att: Attestation, f: Flight)
    requires CoreInv(c, s, m.now, f)
    ensures var outcome := AcceptResult(c, s, m, r, att); outcome.Revert? ==> !NeverSeen(outcome.error)
  {
    hide CoreInv, ResultFault, ResultDigest;
    CoreRecords(c, s, m.now, f);
    if ResultFault(s, m, r).None? { FreshResult(c, s, m, r, f); }
    if r.policyId in s.policies { HashFixesRecipients(c, s, m, r, f); } else { MissingFault(s, m, r); }
  }

  lemma HeldNames(c: Chain, start: uint256, actions: seq<Action>)
    requires Run(c, Begin(start), actions).lock.Held?
    ensures Run(c, Begin(start), actions).lock.id in Run(c, Begin(start), actions).core.policies
  {
    EveryRun(c, start, actions);
    PayingExists(c, Run(c, Begin(start), actions));
  }

  // ---- Bounded use ----

  /** Every line written uses up some of its policy's budget. */
  lemma LineSpendsBudget(c: Chain, s: Core, id: Bytes32, e: Entry, s': Core, now: nat, f: Flight, f': Flight)
    requires Records(c, s, now, f) && Records(c, s', now, f')
    requires id in s.policies && id in s'.policies && TrailOf(s', id) == TrailOf(s, id) + [e]
    ensures Replay(c, id, TrailOf(s, id)).Some? && Replay(c, id, TrailOf(s', id)).Some?
    ensures Budget(AccountOf(c, s', id)) < Budget(AccountOf(c, s, id))
  {
    hide Replay, Apply, Budget, WellKept, Records;
    Known(c, s, id, now, f);
    Known(c, s', id, now, f');
    ReplayAppend(c, id, TrailOf(s, id), e);
    ApplySpendsBudget(c, id, AccountOf(c, s, id), e);
  }

  /**
   * At any point of any run, an action that reverts nothing (calls, settlements, refunds and single transfers alike)
   * changes nothing at all, or uses up some of the budget of the one policy it is about, if that policy existed.
   */
  lemma StepSpendsBudget(c: Chain, start: uint256, actions: seq<Action>, a: Action)
    requires !Reverts(c, Run(c, Begin(start), actions), a)
    ensures var w := Run(c, Begin(start), actions);
            var s, s' := w.core, Step(c, w, a).core;
            s' == s ||
            (&& Concerns(c, w, a).Some?
             && var id := Concerns(c, w, a).value;
                id in s.policies ==>
                  && Replay(c, id, TrailOf(s, id)).Some? && Replay(c, id, TrailOf(s', id)).Some?
                  && Budget(AccountOf(c, s', id)) < Budget(AccountOf(c, s, id)))
  {
    hide Run, Step, CoreInv, Replay, Budget, Concerns, Caused, Reverts;
    var w := Run(c, Begin(start), actions);
    var w' := Step(c, w, a);
    EveryRun(c, start, actions);
    var id, e := StepWrites(c, w, a);
    if w'.core != w.core && id in w.core.policies {
      StepKeeps(c, w, a);
      InvLater(c, w.core, w.now, w'.now, FlightOf(w)) by { TimePasses(c, w, a); }
      CoreRecords(c, w.core, w'.now, FlightOf(w));
      CoreRecords(c, w'.core, w'.now, FlightOf(w'));
      LineSpendsBudget(c, w.core, id, e, w'.core, w'.now, FlightOf(w), FlightOf(w'));
    }
  }

  lemma TimePasses(c: Chain, w: World, a: Action)
    ensures w.now <= Step(c, w, a).now
  {
    hide Execute, BeginSettle, BeginRefund, Transfer, Payouts;
  }

  /** A policy with target T and n recipients sees at most T + n + 6 successful steps, transfers included. */
  lemma HistoriesBounded(c: Chain, start: uint256, actions: seq<Action>, id: Bytes32)
    requires id in Run(c, Begin(start), actions).core.policies
    ensures var s := Run(c, Begin(start), actions).core;
            |TrailOf(s, id)| <= s.policies[id].targetAmount + |RecipientsOf(s, id)| + 6
  {
    hide Replay, Run;
    AtEveryPoint(c, start, actions, id);
    HistoryBounded(c, id, TrailOf(Run(c, Begin(start), actions).core, id));
  }

  /**
   * At any point of any run, an action that reverts nothing leaves every policy but the one it is about as it was;
   * one that reverts brings back a storage the transaction in progress had saved.
   */
  lemma StepTouchesOne(c: Chain, start: uint256, actions: seq<Action>, a: Action, other: Bytes32)
    ensures var w := Run(c, Begin(start), actions);
            var s, s' := w.core, Step(c, w, a).core;
            if Reverts(c, w, a) then Kept(w, s')
            else Concerns(c, w, a) != Some(other) ==>
              && (other in s.policies <==> other in s'.policies)
              && (other in s.policies ==> s'.policies[other] == s.policies[other])
              && TrailOf(s', other) == TrailOf(s, other)
              && RecipientsOf(s', other) == RecipientsOf(s, other) && SharesOf(s', other) == SharesOf(s, other)
  {
    hide Run, Step, WorldInv, Concerns, Caused, Reverts;
    EveryRun(c, start, actions);
    var id, e := StepWrites(c, Run(c, Begin(start), actions), a);
  }

  // ---- Histories only grow; settled and refunded policies are closed ----

  lemma {:induction false} PrefixReplays(c: Chain, id: Bytes32, trail: seq<Entry>, k: nat)
    requires Replay(c, id, trail).Some? && 0 < k <= |trail|
    ensures Replay(c, id, trail[..k]).Some?
    ensures Replay(c, id, trail[..k]).value.terms == Replay(c, id, trail).value.terms
    ensures Replay(c, id, trail[..k]).value.policy.owner == Replay(c, id, trail).value.policy.owner
    decreases |trail|
  {
    hide Apply;
    var n := |trail| - 1;
    if k == |trail| {
      assert trail[..k] == trail;
    } else {
      PrefixReplays(c, id, trail[..n], k);
      ApplyKeepsIdentity(c, id, Replay(c, id, trail[..n]).value, trail[n]);
      assert trail[..n][..k] == trail[..k];
    }
  }

  /** From any quiet point on, every policy keeps its history as a prefix, and its terms for ever. */
  lemma TermsFixed(c: Chain, start: uint256, before: seq<Action>, after: seq<Action>, id: Bytes32)
    requires Run(c, Begin(start), before).lock.Open? && id in Run(c, Begin(start), before).core.policies
    ensures var s := Run(c, Begin(start), before).core;
            var s' := Run(c, Run(c, Begin(start), before), after).core;
            && id in s'.policies && TrailOf(s, id) <= TrailOf(s', id)
            && RecipientsOf(s', id) == RecipientsOf(s, id) && SharesOf(s', id) == SharesOf(s, id)
            && ParticipantRules.ValidParticipants(RecipientsOf(s', id), SharesOf(s', id))
            && s'.policies[id].participantHash == Keccak(Participants(RecipientsOf(s', id), SharesOf(s', id)))
            && s'.policies[id].owner == s.policies[id].owner
            && s'.policies[id].targetAmount == s.policies[id].targetAmount
            && s'.policies[id].expiry == s.policies[id].expiry
  {
    hide Replay, Run, Step, CoreInv, Records, MoneyByStatus, EvidenceByStatus, StampsInOrder;
    var w := Run(c, Begin(start), before);
    var w' := Run(c, w, after);
    EveryRun(c, start, before);
    RunKeeps(c, w, after);
    RunGrows(c, w.core, w, after);
    assert id in w'.core.policies && TrailOf(w.core, id) <= TrailOf(w'.core, id);
    CoreRecords(c, w.core, w.now, FlightOf(w));
    CoreRecords(c, w'.core, w'.now, FlightOf(w'));
    Known(c, w.core, id, w.now, FlightOf(w));
    Known(c, w'.core, id, w'.now, FlightOf(w'));
    var t, t' := TrailOf(w.core, id), TrailOf(w'.core, id);
    assert t == t'[..|t|];
    assert |t| > 0 by { EmptyTrail(c, id); }
    PrefixReplays(c, id, t', |t|);
  }

  lemma EmptyTrail(c: Chain, id: Bytes32)
    ensures Replay(c, id, []).None?
  {
  }

  lemma NothingFollows(c: Chain, id: Bytes32, a: Account, e: Entry)
    requires a.due == [] && (a.policy.status == Settled || a.policy.status == Refunded)
    ensures Apply(c, id, Some(a), e).None?
  {
  }

  /** No entry follows a settled or refunded policy with nothing due. */
  lemma {:induction false} ClosedTrail(c: Chain, id: Bytes32, trail: seq<Entry>, later: seq<Entry>)
    requires Replay(c, id, trail).Some? && Replay(c, id, later).Some? && trail <= later
    requires var a := Replay(c, id, trail).value;
             a.due == [] && (a.policy.status == Settled || a.policy.status == Refunded)
    ensures later == trail
  {
    hide Apply;
    if |later| > |trail| {
      NothingFollows(c, id, Replay(c, id, trail).value, later[|trail|]);
      EmptyTrail(c, id);
      PrefixReplays(c, id, later, |trail| + 1);
      assert later[..|trail| + 1] == trail + [later[|trail|]];
      ReplayAppend(c, id, trail, later[|trail|]);
    }
  }

  /** Once a settlement or refund is over, no later action changes the policy or its history: it pays exactly once. */
  lemma ClosedForGood(c: Chain, start: uint256, before: seq<Action>, after: seq<Action>, id: Bytes32)
    requires Run(c, Begin(start), before).lock.Open? && id in Run(c, Begin(start), before).core.policies
    requires Run(c, Begin(start), before).core.policies[id].status in {Settled, Refunded}
    ensures var s := Run(c, Begin(start), before).core;
            var s' := Run(c, Run(c, Begin(start), before), after).core;
            id in s'.policies && s'.policies[id] == s.policies[id] && TrailOf(s', id) == TrailOf(s, id)
  {
    hide Replay, Run, Step, CoreInv, Records, WellKept;
    var w := Run(c, Begin(start), before);
    var w' := Run(c, w, after);
    EveryRun(c, start, before);
    RunKeeps(c, w, after);
    RunGrows(c, w.core, w, after);
    CoreRecords(c, w.core, w.now, FlightOf(w));
    CoreRecords(c, w'.core, w'.now, FlightOf(w'));
    Known(c, w.core, id, w.now, FlightOf(w));
    Known(c, w'.core, id, w'.now, FlightOf(w'));
    ClosedTrail(c, id, TrailOf(w.core, id), TrailOf(w'.core, id));
  }

  // ---- Whole-run precedence ----

  /** The owner a line's action found on record is the owner the policy has at the end of the run. */
  lemma OwnerThroughout(c: Chain, start: uint256, actions: seq<Action>, j: nat, id: Bytes32)
    requires j <= |actions| && id in At(c, start, actions, j).core.policies
    requires TrailOf(At(c, start, actions, j).core, id) <= TrailOf(Run(c, Begin(start), actions).core, id)
    requires id in Run(c, Begin(start), actions).core.policies
    ensures At(c, start, actions, j).core.policies[id].owner == Run(c, Begin(start), actions).core.policies[id].owner
  {
    hide Replay, Run, WellKept;
    AtEveryPoint(c, start, actions[..j], id);
    AtEveryPoint(c, start, actions, id);
    var t, t' := TrailOf(At(c, start, actions, j).core, id), TrailOf(Run(c, Begin(start), actions).core, id);
    assert t == t'[..|t|] && |t| > 0 by { EmptyTrail(c, id); }
    PrefixReplays(c, id, t', |t|);
  }

  /** Action `a` of the owner submitted the proof, and FDC verification accepted it. */
  predicate SubmittedVerified(a: Action, owner: Address, id: Bytes32, data: EvmResponse)
  {
    a.Invoke? && a.sender == owner && a.call == SubmitEvmProof(id, EvmProof(data)) && a.oracle.fdcAccepts
  }

  /** Action `a` brought the result with a signature over it that recovers to a TEE active at that moment. */
  predicate BroughtSigned(c: Chain, a: Action, r: SettlementResult)
  {
    && a.Invoke? && a.call.AuthenticateActionResult? && a.call.result == r
    && a.call.actionId == r.computationReference && a.call.actionStatus == 1
    && var signer := RecoverSigner(c, SigningDigest(c, r, a.call.actionId, a.call.tag, 1), a.call.signature);
       signer.Ok? && signer.value in a.oracle.activeTees
  }

  /**
   * The history of a settled policy reads, in order: creation, deposits to exactly the target, a proof request,
   * an accepted proof worth at least the target, a computation request, the result, and the payout; with time
   * stamps that never run backwards and stop before expiry. Line `k` is the work of action `js[k]` of the run, the
   * actions coming in the same order: the owner's submission of a proof that FDC verified, a result with a
   * signature over it by an active TEE, and the owner's settlement with that same result.
   */
  lemma SettledStory(c: Chain, start: uint256, actions: seq<Action>, id: Bytes32) returns (d: nat, js: seq<nat>)
    requires id in Run(c, Begin(start), actions).core.policies
    requires Run(c, Begin(start), actions).core.policies[id].status == Settled
    ensures var s := Run(c, Begin(start), actions).core;
            var p, t := s.policies[id], TrailOf(s, id);
            && d + 6 <= |t| && t[0].Created?
            && (forall i :: 1 <= i <= d ==> t[i].Deposited?) && Deposits(t[..d + 1]) == p.targetAmount
            && t[d + 1].ProofAsked? && ProofShown(t[d + 2], p) && t[d + 3].ComputationAsked?
            && t[d + 3].instructionId == p.computationReference && t[d + 3].inputHash == p.privateInputHash
            && t[d + 4].ResultAccepted? && ResultDigest(c, t[d + 4].result) == p.resultDigest
            && t[d + 5].PayoutBegun? && (forall i :: d + 6 <= i < |t| ==> t[i].Paid?)
            && t[0].at == p.createdAt <= t[d + 1].at == p.proofRequestedAt <= t[d + 2].at == p.proofVerifiedAt
            && p.proofVerifiedAt <= t[d + 4].at == p.resultAuthenticatedAt <= t[d + 5].at == p.settledAt < p.expiry
    ensures var s := Run(c, Begin(start), actions).core;
            var p, t := s.policies[id], TrailOf(s, id);
            && WrittenBy(c, start, actions, js, id, t) && Increasing(js)
            && (forall k :: 0 <= k < |js| ==> js[k] < |actions|)
            && SubmittedVerified(actions[js[d + 2]], p.owner, id, t[d + 2].data)
            && BroughtSigned(c, actions[js[d + 4]], t[d + 4].result)
            && actions[js[d + 5]] == Settle(p.owner, 0, t[d + 4].result)
  {
    hide Run, Wrote, Replay;
    d := ToldInOrder(c, start, actions, id);
    js := HistoryCaused(c, start, actions, id);
    ProofLine(c, start, actions, js[d + 2], id, d + 2);
    ResultLine(c, start, actions, js[d + 4], id, d + 4);
    PayoutLine(c, start, actions, js[d + 5], id, d + 5, TrailOf(Run(c, Begin(start), actions).core, id)[d + 4].result);
  }

  lemma ToldInOrder(c: Chain, start: uint256, actions: seq<Action>, id: Bytes32) returns (d: nat)
    requires id in Run(c, Begin(start), actions).core.policies
    requires Run(c, Begin(start), actions).core.policies[id].status == Settled
    ensures var s := Run(c, Begin(start), actions).core;
            var p, t := s.policies[id], TrailOf(s, id);
            && d + 6 <= |t| && t[0].Created?
            && (forall i :: 1 <= i <= d ==> t[i].Deposited?) && Deposits(t[..d + 1]) == p.targetAmount
            && t[d + 1].ProofAsked? && ProofShown(t[d + 2], p) && t[d + 3].ComputationAsked?
            && t[d + 3].instructionId == p.computationReference && t[d + 3].inputHash == p.privateInputHash
            && t[d + 4].ResultAccepted? && ResultDigest(c, t[d + 4].result) == p.resultDigest
            && t[d + 5].PayoutBegun? && (forall i :: d + 6 <= i < |t| ==> t[i].Paid?)
            && t[0].at == p.createdAt <= t[d + 1].at == p.proofRequestedAt <= t[d + 2].at == p.proofVerifiedAt
            && p.proofVerifiedAt <= t[d + 4].at == p.resultAuthenticatedAt <= t[d + 5].at == p.settledAt < p.expiry
  {
    hide Replay, Run, TermsKept, Attested;
    AtEveryPoint(c, start, actions, id);
    var t := TrailOf(Run(c, Begin(start), actions).core, id);
    HistoryOrdered(c, id, t);
    d := DepositCount(t);
  }

  lemma ProofLine(c: Chain, start: uint256, actions: seq<Action>, j: nat, id: Bytes32, k: nat)
    requires id in Run(c, Begin(start), actions).core.policies
    requires Wrote(c, start, actions, j, id, TrailOf(Run(c, Begin(start), actions).core, id), k)
    requires TrailOf(Run(c, Begin(start), actions).core, id)[k].ProofAccepted?
    ensures var s := Run(c, Begin(start), actions).core;
            SubmittedVerified(actions[j], s.policies[id].owner, id, TrailOf(s, id)[k].data)
  {
    hide Run;
    OwnerThroughout(c, start, actions, j, id);
  }

  lemma ResultLine(c: Chain, start: uint256, actions: seq<Action>, j: nat, id: Bytes32, k: nat)
    requires Wrote(c, start, actions, j, id, TrailOf(Run(c, Begin(start), actions).core, id), k)
    requires TrailOf(Run(c, Begin(start), actions).core, id)[k].ResultAccepted?
    ensures BroughtSigned(c, actions[j], TrailOf(Run(c, Begin(start), actions).core, id)[k].result)
  {
    hide Run, RecoverSigner, SigningDigest;
  }

  /** An accepted result is never replaced. */
  lemma {:induction false} ResultKept(c: Chain, id: Bytes32, trail: seq<Entry>, k: nat)
    requires Replay(c, id, trail).Some? && 0 < k <= |trail|
    requires Replay(c, id, trail[..k]).Some? && Replay(c, id, trail[..k]).value.result.Some?
    ensures Replay(c, id, trail).value.result == Replay(c, id, trail[..k]).value.result
    decreases |trail|
  {
    hide Apply, WellKept;
    var n := |trail| - 1;
    if k == |trail| {
      assert trail[..k] == trail;
    } else {
      assert trail[..n][..k] == trail[..k];
      PrefixReplays(c, id, trail, n);
      ResultKept(c, id, trail[..n], k);
      ReplayKeeps(c, id, trail[..n]);
      ApplyKeepsResult(c, id, Replay(c, id, trail[..n]).value, trail[n]);
    }
  }

  lemma ApplyKeepsResult(c: Chain, id: Bytes32, a: Account, e: Entry)
    requires WellKept(c, id, a) && a.result.Some? && Apply(c, id, Some(a), e).Some?
    ensures Apply(c, id, Some(a), e).value.result == a.result
  {
    hide TermsKept, MoneyByStatus, StampsInOrder, PaidElsewhere;
  }

  /** The settlement was started by the owner with the result on record. */
  lemma PayoutLine(c: Chain, start: uint256, actions: seq<Action>, j: nat, id: Bytes32, k: nat, r: SettlementResult)
    requires id in Run(c, Begin(start), actions).core.policies
    requires Run(c, Begin(start), actions).core.policies[id].resultDigest == ResultDigest(c, r)
    requires Wrote(c, start, actions, j, id, TrailOf(Run(c, Begin(start), actions).core, id), k)
    requires TrailOf(Run(c, Begin(start), actions).core, id)[k].PayoutBegun?
    ensures actions[j] == Settle(Run(c, Begin(start), actions).core.policies[id].owner, 0, r)
  {
    hide Run, Replay, TermsKept, MoneyByStatus, StampsInOrder, PaidElsewhere;
    var before, trail := At(c, start, actions, j).core, TrailOf(Run(c, Begin(start), actions).core, id);
    OwnerThroughout(c, start, actions, j, id);
    AtEveryPoint(c, start, actions[..j], id);
    AtEveryPoint(c, start, actions, id);
    DigestNamesPolicy(c, id, AccountOf(c, before, id), actions[j].result);
    EmptyTrail(c, id);
    ResultKept(c, id, trail, k);
  }

  function Lookup(s: Core, id: Bytes32): Option<Policy> { if id in s.policies then Some(s.policies[id]) else None }

  /** The field the call stamps or adds to holds exactly the block time or sum meant, not a truncation of it. */
  predicate Untruncated(before: Option<Policy>, after: Option<Policy>, m: Msg, call: Call)
  {
    && after.Some?
    && match call
       case CreatePolicy(_) => after.value.createdAt == m.now
       case FundPolicy(_) => before.Some? && after.value.fundedAmount == before.value.fundedAmount + m.value
       case RequestProof(_, _) => after.value.proofRequestedAt == m.now
       case SubmitEvmProof(_, _) => after.value.proofVerifiedAt == m.now
       case AuthenticateActionResult(_, _, _, _, _) => after.value.resultAuthenticatedAt == m.now
       case _ => true
  }

  /** No narrowing cast of a successful call loses anything. */
  lemma CastsLossless(c: Chain, s: Core, m: Msg, o: Oracle, call: Call)
    requires Execute(c, s, m, o, call).Ok?
    ensures var id := Subject(c, s, m, call);
            Untruncated(Lookup(s, id), Lookup(Execute(c, s, m, o, call).value, id), m, call)
  {
    hide ParticipantHash, Authenticate, ResultFault;
    match call
    case AuthenticateActionResult(r, actionId, tag, actionStatus, signature) =>
      AuthenticateStamps(c, s, m, o, r, actionId, tag, actionStatus, signature);
    case CreatePolicy(_) =>
    case SubmitEvmProof(_, _) =>
    case FundPolicy(_) =>
    case _ =>
  }

  lemma AuthenticateStamps(c: Chain, s: Core, m: Msg, o: Oracle, r: SettlementResult, actionId: Bytes32, tag: string,
                           actionStatus: uint8, signature: Signature)
    requires Authenticate(c, s, m, o, r, actionId, tag, actionStatus, signature).Ok?
    ensures var after := Lookup(Authenticate(c, s, m, o, r, actionId, tag, actionStatus, signature).value, r.policyId);
            after.Some? && after.value.resultAuthenticatedAt == m.now
  {
    hide ResultDigest, SigningDigest, RecoverSigner, TeeFault, ResultFault;
    AcceptedExists(s, m, r);
  }

  /** The cast of the settled total loses nothing either: it is the target, which is the whole escrow. */
  lemma SettleCastsLossless(c: Chain, s: Core, m: Msg, r: SettlementResult, f: Flight)
    requires CoreInv(c, s, m.now, f) && BeginSettle(c, s, m, r).Ok?
    ensures var p' := Lookup(BeginSettle(c, s, m, r).value, r.policyId);
            && p'.Some? && p'.value.settledAt == m.now
            && p'.value.settledAmount == r.total == s.policies[r.policyId].fundedAmount
  {
    hide Replay, CoreInv, Records, Advances, Payouts, PaymentSum, TermsKept, MoneyByStatus, EvidenceByStatus,
         StampsInOrder;
    CoreRecords(c, s, m.now, f);
    Known(c, s, r.policyId, m.now, f);
    BeginSettleRefines(c, s, m, r, AccountOf(c, s, r.policyId));
  }

  // ---- Expiry and recovery ----

  lemma LateCall(c: Chain, s: Core, m: Msg, o: Oracle, call: Call)
    requires Execute(c, s, m, o, call).Ok? && Subject(c, s, m, call) in s.policies
    requires m.now >= s.policies[Subject(c, s, m, call)].expiry
    ensures call.CancelPolicy? && s.policies[call.policyId].owner == m.sender
  {
    hide TotalFrom, ResultDigest, ParticipantHash;
  }

  /** No call without transfers makes a policy SETTLED, or touches one that is. */
  lemma CallsNeverSettle(c: Chain, s: Core, m: Msg, o: Oracle, call: Call, id: Bytes32)
    requires Execute(c, s, m, o, call).Ok?
    requires id in Execute(c, s, m, o, call).value.policies
    requires Execute(c, s, m, o, call).value.policies[id].status == Settled
    ensures id in s.policies && s.policies[id] == Execute(c, s, m, o, call).value.policies[id]
  {
    hide Create, ResultFault, RecoverSigner, SigningDigest, ResultDigest, TeeFault;
    if call.CreatePolicy? { CreateEffects(c, s, m, call.params); }
  }

  predicate SettledNow(s: Core, id: Bytes32, now: nat)
  {
    id in s.policies && s.policies[id].status == Settled ==> s.policies[id].settledAt == now
  }

  /** The settlement being paid began in this very block, in the present storage and in that of every open frame. */
  predicate PaysAtOnce(w: World)
  {
    w.lock.Held? ==>
      && SettledNow(w.core, w.lock.id, w.now)
      && forall i :: 0 <= i < |w.lock.frames| ==> SettledNow(w.lock.frames[i], w.lock.id, w.now)
  }

  lemma StepPaysAtOnce(c: Chain, w: World, a: Action)
    requires PaysAtOnce(w)
    ensures PaysAtOnce(Step(c, w, a))
  {
    hide Execute, Payouts, ResultDigest;
    match a
    case Invoke(sender, value, o, call) =>
      var m := Msg(sender, value, w.now);
      if w.lock.Held? && Attempt(c, w, m, o, call).Ok? {
        var s' := Execute(c, w.core, m, o, call).value;
        if w.lock.id in s'.policies && s'.policies[w.lock.id].status == Settled {
          CallsNeverSettle(c, w.core, m, o, call, w.lock.id);
        }
      }
    case _ =>
  }

  lemma {:induction false} RunPaysAtOnce(c: Chain, start: uint256, actions: seq<Action>)
    ensures PaysAtOnce(Run(c, Begin(start), actions))
  {
    hide Step;
    if |actions| > 0 {
      RunPaysAtOnce(c, start, actions[..|actions| - 1]);
      StepPaysAtOnce(c, Run(c, Begin(start), actions[..|actions| - 1]), actions[|actions| - 1]);
    }
  }

  /** While a settlement is being paid, it is stamped with the present time, which is before the policy's expiry. */
  lemma PaidBeforeExpiry(c: Chain, start: uint256, actions: seq<Action>)
    requires Run(c, Begin(start), actions).lock.Held?
    ensures var w := Run(c, Begin(start), actions);
            && w.lock.id in w.core.policies
            && (w.core.policies[w.lock.id].status == Settled ==>
                  w.core.policies[w.lock.id].settledAt == w.now < w.core.policies[w.lock.id].expiry)
  {
    hide Run;
    HeldNames(c, start, actions);
    RunPaysAtOnce(c, start, actions);
    RecordsByStatus(c, start, actions, Run(c, Begin(start), actions).lock.id);
  }

  /**
   * At every point of every run, from a policy's expiry on: an action that reverts nothing leaves its record and its
   * history alone, unless its owner cancels it or starts its refund, or it is the refund's transfer.
   */
  lemma NoLateProgress(c: Chain, start: uint256, actions: seq<Action>, a: Action, id: Bytes32)
    requires var w := Run(c, Begin(start), actions);
             && id in w.core.policies && w.now >= w.core.policies[id].expiry && !Reverts(c, w, a)
    ensures var w := Run(c, Begin(start), actions);
            var s, s' := w.core, Step(c, w, a).core;
            || (id in s'.policies && s'.policies[id] == s.policies[id] && TrailOf(s', id) == TrailOf(s, id))
            || (a.Invoke? && a.call == CancelPolicy(id) && a.sender == s.policies[id].owner)
            || (a.Refund? && a.policyId == id && a.sender == s.policies[id].owner)
            || (a.PayNext? && w.lock.Held? && w.lock.id == id && s.policies[id].status == Refunded)
  {
    hide Run, Execute, WorldInv, CoreInv, Caused, Reverts, Subject;
    var w := Run(c, Begin(start), actions);
    EveryRun(c, start, actions);
    var touched, e := StepWrites(c, w, a);
    if touched == id && Step(c, w, a).core != w.core {
      match a
      case Invoke(sender, value, o, call) =>
        LateCall(c, w.core, Msg(sender, value, w.now), o, call);
        assert call == CancelPolicy(id) by { OnlyItsSubject(c, w.core, Msg(sender, value, w.now), call); }
      case PayNext =>
        PaidBeforeExpiry(c, start, actions);
        var whole, result := PayoutInProgress(c, start, actions);
      case _ =>
    }
  }

  lemma OnlyItsSubject(c: Chain, s: Core, m: Msg, call: Call)
    requires call.CancelPolicy?
    ensures Subject(c, s, m, call) == call.policyId
  {
  }

  /**
   * Exactly when a refund starts: the owner asks, there is escrow, and the policy is cancelled or unsettled past
   * expiry.
   */
  lemma RefundStartsIff(c: Chain, start: uint256, actions: seq<Action>, m: Msg, id: Bytes32)
    requires m.now == Run(c, Begin(start), actions).now
    ensures var s := Run(c, Begin(start), actions).core;
            BeginRefund(s, m, id).Ok? <==>
              && m.value == 0 && id in s.policies && s.policies[id].owner == m.sender && s.policies[id].fundedAmount > 0
              && (s.policies[id].status == Cancelled || m.now >= s.policies[id].expiry)
  {
    hide Run;
    if id in Run(c, Begin(start), actions).core.policies {
      RecordsByStatus(c, start, actions, id);
    }
  }

  /** No funds are locked: any cancelled or expired policy with escrow pays it all back to its owner on request. */
  lemma EscrowRecoverable(c: Chain, start: uint256, actions: seq<Action>, id: Bytes32)
    requires Run(c, Begin(start), actions).lock.Open? && id in Run(c, Begin(start), actions).core.policies
    requires var w := Run(c, Begin(start), actions);
             var p := w.core.policies[id];
             p.fundedAmount > 0 && (p.status == Cancelled || w.now >= p.expiry)
    ensures var w := Run(c, Begin(start), actions);
            var p := w.core.policies[id];
            var w' := Step(c, Step(c, Step(c, w, Refund(p.owner, 0, id)), PayNext), Finish);
            && w'.lock.Open?
            && w'.core.policies == w.core.policies[id := p.(status := Refunded, fundedAmount := 0)]
            && w'.core.balance == w.core.balance - p.fundedAmount
            && TrailOf(w'.core, id) ==
               TrailOf(w.core, id) + [RefundBegun(w.now), Paid(Payment(p.owner, p.fundedAmount))]
  {
    hide Run, Execute, TotalEscrow, RecordRule;
    var w := Run(c, Begin(start), actions);
    var p := w.core.policies[id];
    AlwaysSolvent(c, start, actions);
    RefundStartsIff(c, start, actions, Msg(p.owner, 0, w.now), id);
    OwnerElsewhere(c, start, actions, id);
    var t := TrailOf(w.core, id);
    assert t + [RefundBegun(w.now)] + [Paid(Payment(p.owner, p.fundedAmount))] ==
           t + [RefundBegun(w.now), Paid(Payment(p.owner, p.fundedAmount))];
  }

  lemma OwnerElsewhere(c: Chain, start: uint256, actions: seq<Action>, id: Bytes32)
    requires id in Run(c, Begin(start), actions).core.policies
    ensures Run(c, Begin(start), actions).core.policies[id].owner != c.self
  {
    hide Run;
    RecordsByStatus(c, start, actions, id);
  }

  /** `n` transfers in a row. */
  function Pays(n: nat): seq<Action> { seq(n, i => PayNext) }

  lemma {:induction false} AfterPays(c: Chain, w: World, k: nat)
    requires WorldInv(c, w) && w.lock.Held? && w.lock.frames == [] && k <= |w.lock.due|
    requires forall i :: 0 <= i < |w.lock.due| ==> w.lock.due[i].to != c.self
    ensures var w' := Run(c, w, Pays(k));
            && w'.lock == w.lock.(due := w.lock.due[k..]) && w'.now == w.now
            && w'.core.policies == w.core.policies && w'.core.recipients == w.core.recipients
  {
    hide CoreInv;
    if k > 0 {
      AfterPays(c, w, k - 1);
      assert Pays(k)[..k - 1] == Pays(k - 1);
      var v := Run(c, w, Pays(k - 1));
      RunKeeps(c, w, Pays(k - 1));
      TransferKeeps(c, v.core, v.lock.id, v.lock.due, v.now);
      assert v.lock.due[1..] == w.lock.due[k..];
    }
  }

  /**
   * A ready policy whose recipients all accept settles: the owner submits the authenticated result before expiry,
   * one transfer per recipient succeeds, and the settlement is over.
   */
  lemma SettlementCompletes(c: Chain, start: uint256, actions: seq<Action>, r: SettlementResult)
    requires Run(c, Begin(start), actions).lock.Open? && r.policyId in Run(c, Begin(start), actions).core.policies
    requires var w := Run(c, Begin(start), actions);
             var p := w.core.policies[r.policyId];
             p.status == ReadyToSettle && w.now < p.expiry && p.resultDigest == ResultDigest(c, r)
    requires c.self !in RecipientsOf(Run(c, Begin(start), actions).core, r.policyId)
    ensures var w := Run(c, Begin(start), actions);
            var p := w.core.policies[r.policyId];
            var settling := Step(c, w, Settle(p.owner, 0, r));
            var w' := Step(c, Run(c, settling, Pays(|r.recipients|)), Finish);
            && w'.lock.Open? && w'.core.recipients == w.core.recipients
            && w'.core.policies == w.core.policies[r.policyId :=
                 p.(status := Settled, settledAt := ToUint64(w.now), settledAmount := p.targetAmount,
                    fundedAmount := 0)]
  {
    hide Run, WorldInv, Payouts, ResultDigest;
    var w := Run(c, Begin(start), actions);
    var p := w.core.policies[r.policyId];
    EveryRun(c, start, actions);
    ReadyResult(c, start, actions, r);
    PayoutsPair(r.recipients, r.amounts);
    assert ToUint128(r.total) == r.total;
    var settling := Step(c, w, Settle(p.owner, 0, r));
    StepKeeps(c, w, Settle(p.owner, 0, r));
    AfterPays(c, settling, |r.recipients|);
  }

  /** The result whose digest a ready policy holds is for its recipients and its whole escrow. */
  lemma ReadyResult(c: Chain, start: uint256, actions: seq<Action>, r: SettlementResult)
    requires r.policyId in Run(c, Begin(start), actions).core.policies
    requires Run(c, Begin(start), actions).core.policies[r.policyId].status == ReadyToSettle
    requires Run(c, Begin(start), actions).core.policies[r.policyId].resultDigest == ResultDigest(c, r)
    ensures var s := Run(c, Begin(start), actions).core;
            r.recipients == RecipientsOf(s, r.policyId) && |r.amounts| == |r.recipients|
              && r.total == s.policies[r.policyId].targetAmount
  {
    hide Run, Replay, TermsKept, MoneyByStatus, StampsInOrder;
    AtEveryPoint(c, start, actions, r.policyId);
    DigestNamesPolicy(c, r.policyId, AccountOf(c, Run(c, Begin(start), actions).core, r.policyId), r);
  }

  /** A policy that names the contract itself as a recipient never gets through a settlement. */
  lemma SelfRecipientNeverSettles(c: Chain, start: uint256, actions: seq<Action>, id: Bytes32)
    requires Run(c, Begin(start), actions).lock.Open? && id in Run(c, Begin(start), actions).core.policies
    requires Run(c, Begin(start), actions).core.policies[id].status == Settled
    ensures c.self !in RecipientsOf(Run(c, Begin(start), actions).core, id)
  {
    hide Run, Replay;
    var w := Run(c, Begin(start), actions);
    AtEveryPoint(c, start, actions, id);
    var r := ExactPayout(c, start, actions, id);
    Conservation(c, id, TrailOf(w.core, id));
    var paid := Transfers(TrailOf(w.core, id));
    forall i | 0 <= i < |RecipientsOf(w.core, id)| ensures RecipientsOf(w.core, id)[i] != c.self {
      assert paid[i].to == RecipientsOf(w.core, id)[i];
    }
  }

  predicate SettledAtRest(w: World, id: Bytes32)
  {
    w.lock.Open? && id in w.core.policies && w.core.policies[id].status == Settled
  }

  /** Whatever anyone does from any quiet point on, a policy with the contract among its recipients is not settled. */
  lemma SelfRecipientBlocks(c: Chain, start: uint256, actions: seq<Action>, more: seq<Action>, id: Bytes32)
    requires Run(c, Begin(start), actions).lock.Open? && id in Run(c, Begin(start), actions).core.policies
    requires c.self in RecipientsOf(Run(c, Begin(start), actions).core, id)
    ensures !SettledAtRest(Run(c, Run(c, Begin(start), actions), more), id)
  {
    hide Run;
    RunConcat(c, Begin(start), actions, more);
    TermsFixed(c, start, actions, more, id);
    if SettledAtRest(Run(c, Begin(start), actions + more), id) {
      SelfRecipientNeverSettles(c, start, actions + more, id);
    }
  }

  /**
   * Exactly when a ready, unexpired policy can still be settled by some continuation of the run: when the contract is
   * not among its recipients.
   */
  lemma SettleableIff(c: Chain, start: uint256, actions: seq<Action>, id: Bytes32)
    requires Run(c, Begin(start), actions).lock.Open? && id in Run(c, Begin(start), actions).core.policies
    requires var w := Run(c, Begin(start), actions);
             w.core.policies[id].status == ReadyToSettle && w.now < w.core.policies[id].expiry
    ensures var w := Run(c, Begin(start), actions);
            (exists more :: SettledAtRest(Run(c, w, more), id)) <==> c.self !in RecipientsOf(w.core, id)
  {
    hide Run, Step;
    var w := Run(c, Begin(start), actions);
    if c.self in RecipientsOf(w.core, id) {
      forall more ensures !SettledAtRest(Run(c, w, more), id) { SelfRecipientBlocks(c, start, actions, more, id); }
    } else {
      var r := AcceptedResult(c, start, actions, id);
      SettlementCompletes(c, start, actions, r);
      var begin, n := Settle(w.core.policies[id].owner, 0, r), |r.recipients|;
      RunConcat(c, w, [begin], Pays(n));
      RunOne(c, w, begin);
      RunSnoc(c, w, [begin] + Pays(n), Finish);
      assert SettledAtRest(Run(c, w, [begin] + Pays(n) + [Finish]), id);
    }
  }

  lemma RunOne(c: Chain, w: World, a: Action)
    ensures Run(c, w, [a]) == Step(c, w, a)
  {
    hide Step;
    assert [a][..0] == [];
  }

  lemma AcceptedResult(c: Chain, start: uint256, actions: seq<Action>, id: Bytes32) returns (r: SettlementResult)
    requires id in Run(c, Begin(start), actions).core.policies
    requires Run(c, Begin(start), actions).core.policies[id].status == ReadyToSettle
    ensures r.policyId == id && Run(c, Begin(start), actions).core.policies[id].resultDigest == ResultDigest(c, r)
  {
    hide Run, Replay, TermsKept, MoneyByStatus, StampsInOrder;
    AtEveryPoint(c, start, actions, id);
    r := AccountOf(c, Run(c, Begin(start), actions).core, id).result.value;
  }

  /** The whole transaction is still in progress after every prefix of the actions. */
  predicate StaysHeld(c: Chain, w: World, actions: seq<Action>)
  {
    forall k :: 0 <= k <= |actions| ==> Run(c, w, actions[..k]).lock.Held?
  }

  /** What a failure would restore does not change while the transaction is in progress. */
  lemma {:induction false} UndoFixed(c: Chain, w: World, actions: seq<Action>)
    requires w.lock.Held? && StaysHeld(c, w, actions)
    ensures Run(c, w, actions).lock.Held? && Undone(Run(c, w, actions)) == Undone(w)
  {
    hide Execute, BeginSettle, BeginRefund, Transfer;
    var k := |actions| - 1;
    assert actions[..|actions|] == actions;
    if |actions| > 0 {
      forall j | 0 <= j <= k ensures Run(c, w, actions[..k][..j]).lock.Held? {
        assert actions[..k][..j] == actions[..j];
      }
      UndoFixed(c, w, actions[..k]);
    }
  }

  /**
   * A check on this model of reverts: a settlement or refund that fails leaves the world as it found it, whatever calls
   * and frames came in between.
   */
  lemma FailedTransactionLeavesNoTrace(c: Chain, w: World, begin: Action, actions: seq<Action>)
    requires w.lock.Open? && Step(c, w, begin).lock.Held? && StaysHeld(c, Step(c, w, begin), actions)
    ensures Step(c, Run(c, Step(c, w, begin), actions), Fail) == w
  {
    hide Execute, BeginSettle, BeginRefund, Transfer, Run;
    UndoFixed(c, Step(c, w, begin), actions);
  }
}
