/**
 * The contract as an object with mutable storage. Every entry point is proved to do to the storage exactly
 * what its transition function says, error by error, and to keep the invariant, also when it is entered again from a
 * transfer of a payout in progress: the invariant holds at each of them. What a recipient does with that is left to
 * module Runs; here it only accepts or refuses.
 */
module AurelithContract {
  import opened Evm
  import ParticipantRules
  import opened Protocol
  import opened Lifecycle
  import History
  import opened Invariant
  import opened Runs

  function FaultOf(outcome: Outcome<Core>): Option<Error>
  {
    if outcome.Ok? then None else Some(outcome.error)
  }

  /** A revert leaves storage as it was. */
  function After(s: Core, outcome: Outcome<Core>): Core { if outcome.Ok? then outcome.value else s }

  /** The transfers due, each answered by its recipient in turn; the first refusal reverts. */
  function PayAll(c: Chain, s: Core, id: Bytes32, due: seq<Payment>, accepts: seq<bool>): Outcome<Core>
    requires |accepts| == |due|
    decreases |due|
  {
    if due == [] then Ok(s)
    else if !Deliverable(c, s, due[0]) || !accepts[0] then Revert(TransferFailed(due[0].to, due[0].amount))
    else PayAll(c, Transfer(s, id, due[0]), id, due[1..], accepts[1..])
  }

  function SettleWith(c: Chain, s: Core, m: Msg, r: SettlementResult, accepts: seq<bool>): Outcome<Core>
  {
    var begun := BeginSettle(c, s, m, r);
    var due := Payouts(r.recipients, r.amounts);
    if begun.Revert? then begun
    else if |accepts| != |due| then Revert(IndexOutOfRange)
    else PayAll(c, begun.value, r.policyId, due, accepts)
  }

  function RefundWith(c: Chain, s: Core, m: Msg, id: Bytes32, accepted: bool): Outcome<Core>
  {
    var begun := BeginRefund(s, m, id);
    if begun.Revert? then begun
    else PayAll(c, begun.value, id, [Payment(s.policies[id].owner, s.policies[id].fundedAmount)], [accepted])
  }

  lemma SettleParts(c: Chain, s: Core, m: Msg, r: SettlementResult, accepts: seq<bool>)
    requires CoreInv(c, s, m.now, Quiet) && |accepts| == |r.recipients|
    ensures BeginSettle(c, s, m, r).Revert? ==> SettleWith(c, s, m, r, accepts) == BeginSettle(c, s, m, r)
    ensures BeginSettle(c, s, m, r).Ok? ==>
              && |Payouts(r.recipients, r.amounts)| == |accepts| == |r.amounts|
              && SettleWith(c, s, m, r, accepts)
                 == PayAll(c, BeginSettle(c, s, m, r).value, r.policyId, Payouts(r.recipients, r.amounts), accepts)
  {
    hide CoreInv, PayAll;
    if BeginSettle(c, s, m, r).Ok? { OnePayoutEach(c, s, m, r); }
  }

  lemma ValueRefused(c: Chain, s: Core, m: Msg, r: SettlementResult, accepts: seq<bool>)
    requires m.value != 0
    ensures SettleWith(c, s, m, r, accepts) == Revert(NonPayable)
  {
  }

  lemma RefundParts(c: Chain, s: Core, m: Msg, id: Bytes32, accepted: bool)
    ensures m.value != 0 ==> RefundWith(c, s, m, id, accepted) == Revert(NonPayable)
    ensures var begun := BeginRefund(s, m, id);
            if begun.Revert? then RefundWith(c, s, m, id, accepted) == begun
            else
              var refund := Payment(s.policies[id].owner, s.policies[id].fundedAmount);
              RefundWith(c, s, m, id, accepted) ==
              if Deliverable(c, begun.value, refund) && accepted then Ok(Transfer(begun.value, id, refund))
              else Revert(TransferFailed(refund.to, refund.amount))
  {
    hide Transfer, PayAll;
    if BeginRefund(s, m, id).Ok? {
      PayOne(c, BeginRefund(s, m, id).value, id, Payment(s.policies[id].owner, s.policies[id].fundedAmount), accepted);
    }
  }

  /**
   * With the invariant no transfer lacks balance: a payout goes through exactly when every recipient can and will
   * take it.
   */
  lemma {:induction false} PayAllSucceedsIff(c: Chain, s: Core, id: Bytes32, due: seq<Payment>, accepts: seq<bool>,
                                             now: nat)
    requires CoreInv(c, s, now, Paying(id, due)) && |accepts| == |due|
    ensures PayAll(c, s, id, due, accepts).Ok? <==> forall i :: 0 <= i < |due| ==> due[i].to != c.self && accepts[i]
    decreases |due|
  {
    hide CoreInv, Transfer;
    if due != [] && due[0].to != c.self && accepts[0] {
      TransferKeeps(c, s, id, due, now);
      PayAllSucceedsIff(c, Transfer(s, id, due[0]), id, due[1..], accepts[1..], now);
      assert forall i :: 0 <= i < |due| - 1 ==> due[1..][i] == due[i + 1] && accepts[1..][i] == accepts[i + 1];
      assert forall i :: 0 < i < |due| ==> due[i] == due[1..][i - 1] && accepts[i] == accepts[1..][i - 1];
    }
  }

  /** Otherwise the error names the first transfer that could not be made. */
  lemma {:induction false} PayAllFailsAt(c: Chain, s: Core, id: Bytes32, due: seq<Payment>, accepts: seq<bool>,
                                         now: nat)
      returns (k: nat)
    requires CoreInv(c, s, now, Paying(id, due)) && |accepts| == |due|
    requires PayAll(c, s, id, due, accepts).Revert?
    ensures k < |due| && (due[k].to == c.self || !accepts[k])
    ensures forall i :: 0 <= i < k ==> due[i].to != c.self && accepts[i]
    ensures PayAll(c, s, id, due, accepts).error == TransferFailed(due[k].to, due[k].amount)
    decreases |due|
  {
    hide CoreInv, Transfer;
    k := 0;
    if due[0].to != c.self && accepts[0] {
      TransferKeeps(c, s, id, due, now);
      var j := PayAllFailsAt(c, Transfer(s, id, due[0]), id, due[1..], accepts[1..], now);
      k := j + 1;
      assert forall i :: 0 < i <= k ==> due[i] == due[1..][i - 1] && accepts[i] == accepts[1..][i - 1];
    } else if due[0].to != c.self {
      TransferKeeps(c, s, id, due, now);
    }
  }

  // ---- Atomic payouts are runs without callbacks ----

  lemma {:induction false} RunFront(c: Chain, w: World, a: Action, rest: seq<Action>)
    ensures Run(c, w, [a] + rest) == Run(c, Step(c, w, a), rest)
  {
    hide Step;
    var all := [a] + rest;
    if |rest| == 0 {
      assert all[..0] == [];
    } else {
      assert all[..|all| - 1] == [a] + rest[..|rest| - 1];
      RunFront(c, w, a, rest[..|rest| - 1]);
    }
  }

  /** Paying everything is `|due|` transfers and the end of the transaction; a refusal comes after some of them. */
  lemma {:induction false} PayAllIsARun(c: Chain, w: World, accepts: seq<bool>) returns (k: nat)
    requires w.lock.Held? && w.lock.frames == [] && |accepts| == |w.lock.due|
    ensures k <= |w.lock.due|
    ensures var outcome := PayAll(c, w.core, w.lock.id, w.lock.due, accepts);
            var w' := Run(c, w, seq(k, i => PayNext));
            if outcome.Ok? then Step(c, w', Finish) == World(outcome.value, w.now, Open)
            else outcome.error.TransferFailed? && Step(c, w', Fail) == World(w.lock.saved, w.now, Open)
    decreases |w.lock.due|
  {
    hide Execute, BeginSettle, BeginRefund, Transfer;
    if w.lock.due == [] || !Deliverable(c, w.core, w.lock.due[0]) || !accepts[0] {
      k := 0;
    } else {
      var v := Step(c, w, PayNext);
      var j := PayAllIsARun(c, v, accepts[1..]);
      k := j + 1;
      assert seq(k, i => PayNext) == [PayNext] + seq(j, i => PayNext);
      RunFront(c, w, PayNext, seq(j, i => PayNext));
    }
  }

  /** An atomic settlement is one run of the contract: it succeeds with all transfers made, or leaves no trace. */
  lemma SettleWithIsARun(c: Chain, s: Core, m: Msg, r: SettlementResult, accepts: seq<bool>) returns (k: nat)
    requires BeginSettle(c, s, m, r).Ok? && |accepts| == |Payouts(r.recipients, r.amounts)|
    ensures var w := World(s, m.now, Open);
            var w' := Run(c, Step(c, w, Settle(m.sender, m.value, r)), seq(k, i => PayNext));
            var outcome := SettleWith(c, s, m, r, accepts);
            && (outcome.Ok? ==> Step(c, w', Finish) == World(outcome.value, m.now, Open))
            && (outcome.Revert? ==> Step(c, w', Fail) == w)
  {
    assert m.value == 0;
    hide BeginSettle, PayAll, Run;
    assert m == Msg(m.sender, m.value, m.now);
    k := PayAllIsARun(c, Step(c, World(s, m.now, Open), Settle(m.sender, m.value, r)), accepts);
  }

  lemma RefundWithIsARun(c: Chain, s: Core, m: Msg, id: Bytes32, accepted: bool) returns (k: nat)
    requires BeginRefund(s, m, id).Ok?
    ensures var w := World(s, m.now, Open);
            var w' := Run(c, Step(c, w, Refund(m.sender, m.value, id)), seq(k, i => PayNext));
            var outcome := RefundWith(c, s, m, id, accepted);
            && (outcome.Ok? ==> Step(c, w', Finish) == World(outcome.value, m.now, Open))
            && (outcome.Revert? ==> Step(c, w', Fail) == w)
  {
    hide PayAll, Run;
    assert m == Msg(m.sender, m.value, m.now);
    k := PayAllIsARun(c, Step(c, World(s, m.now, Open), Refund(m.sender, m.value, id)), [accepted]);
  }

  class AurelithProtocol {
    const chain: Chain
    var policies: map<Bytes32, Policy>
    var policyRecipients: map<Bytes32, seq<Address>>
    var policyShares: map<Bytes32, seq<uint16>>
    var usedProofDigests: set<Bytes32>
    var usedResultDigests: set<Bytes32>
    var ownerNonces: map<Address, uint256>
    var balance: nat
    var entered: bool
    ghost var trails: map<Bytes32, seq<Entry>>
    ghost var clock: uint256
    /** The transfers still to make while `entered` is set. */
    ghost var flight: Flight

    ghost function State(): Core
      reads this
    {
      Core(policies, policyRecipients, policyShares, usedProofDigests, usedResultDigests, ownerNonces, balance, trails)
    }

    ghost predicate Valid()
      reads this
    {
      CoreInv(chain, State(), clock, flight) && (entered <==> flight.Paying?)
    }

    /** Calls arrive in block order, from real accounts. */
    ghost predicate Timely(m: Msg)
      reads this
    {
      clock <= m.now && Caller(chain, m.sender)
    }

    constructor (chain: Chain)
      ensures Valid() && State() == GENESIS && this.chain == chain && clock == 0 && !entered
    {
      this.chain := chain;
      policies, policyRecipients, policyShares := map[], map[], map[];
      usedProofDigests, usedResultDigests, ownerNonces := {}, {}, map[];
      balance, entered := 0, false;
      trails, clock, flight := map[], 0, Quiet;
      new;
      GenesisInv(chain, 0);
    }

    /** The block time of a call becomes known; the invariant only gains from it. */
    ghost method Arrive(m: Msg)
      requires Valid() && Timely(m)
      modifies this`clock
      ensures Valid() && clock == m.now && State() == old(State())
    {
      hide CoreInv;
      InvLater(chain, State(), clock, m.now, flight);
      clock := m.now;
    }

    /** The guards of an owner-only call. */
    method CheckOwner(m: Msg, id: Bytes32) returns (fault: Option<Error>)
      ensures fault == OwnerFault(State(), m, id)
    {
      if id !in policies { return Some(PolicyMissing); }
      if policies[id].owner != m.sender { return Some(Unauthorized); }
      return None;
    }

    method CheckStage(m: Msg, id: Bytes32, expected: Status) returns (fault: Option<Error>)
      ensures fault == StageFault(State(), m, id, expected)
    {
      fault := CheckOwner(m, id);
      if fault.Some? { return; }
      if policies[id].status != expected { return Some(InvalidState); }
      if m.now >= policies[id].expiry { return Some(PolicyExpired); }
    }

    method CheckCreate(m: Msg, q: CreateParams) returns (fault: Option<Error>)
      ensures fault == FaultOf(Create(chain, State(), m, q))
    {
      if m.value != 0 { return Some(NonPayable); }
      fault := ParticipantRules.ValidateParticipants(q.recipients, q.sharesBps);
      if fault.Some? { return; }
      if q.ruleHash == ZERO || q.paymentReferenceHash == ZERO { return Some(ResultMismatch); }
      if q.targetAmount == 0 { return Some(InvalidAmount); }
      if q.expiry <= m.now { return Some(InvalidExpiry); }
      var ownerNonce: uint256 := if m.sender in ownerNonces then ownerNonces[m.sender] else 0;
      if ownerNonce + 1 >= TWO_256 { return Some(Overflow); }
      if PolicyIdOf(chain, m.sender, ownerNonce, q) in policies { return Some(PolicyExists); }
      return None;
    }

    method StorePolicy(m: Msg, q: CreateParams) returns (policyId: Bytes32)
      requires Create(chain, State(), m, q).Ok?
      modifies this`policies, this`policyRecipients, this`policyShares, this`ownerNonces, this`trails
      ensures State() == Create(chain, old(State()), m, q).value
      ensures policyId == PolicyIdOf(chain, m.sender, NonceOf(old(State()), m.sender), q)
    {
      ghost var s := State();
      var ownerNonce: uint256 := if m.sender in ownerNonces then ownerNonces[m.sender] else 0;
      policyId := PolicyIdOf(chain, m.sender, ownerNonce, q);
      ownerNonces := ownerNonces[m.sender := ownerNonce + 1];
      policies := policies[policyId := NewPolicy(m.sender, q, m.now)];
      policyRecipients := policyRecipients[policyId := q.recipients];
      policyShares := policyShares[policyId := q.sharesBps];
      trails := trails[policyId := TrailOf(s, policyId) + [Created(m.sender, ownerNonce, q, m.now)]];
    }

    method CreatePolicy(m: Msg, q: CreateParams) returns (fault: Option<Error>, policyId: Bytes32)
      requires Valid() && Timely(m)
      modifies this
      ensures fault == FaultOf(Create(chain, old(State()), m, q))
      ensures State() == After(old(State()), Create(chain, old(State()), m, q))
      ensures fault.None? ==> policyId == PolicyIdOf(chain, m.sender, NonceOf(old(State()), m.sender), q)
      ensures Valid() && clock == m.now && flight == old(flight) && entered == old(entered)
    {
      hide CoreInv, Create;
      ghost var s := State();
      Arrive(m);
      policyId := ZERO;
      fault := CheckCreate(m, q);
      if fault.Some? { return; }
      policyId := StorePolicy(m, q);
      CreateKeeps(chain, s, m, q, flight);
    }

    method CheckFund(m: Msg, id: Bytes32) returns (fault: Option<Error>)
      ensures fault == FaultOf(Fund(State(), m, id))
    {
      if id !in policies { return Some(PolicyMissing); }
      var p := policies[id];
      if p.status != Draft && p.status != Funded { return Some(InvalidState); }
      if m.now >= p.expiry { return Some(PolicyExpired); }
      if m.value == 0 { return Some(InvalidAmount); }
      if p.fundedAmount + m.value >= TWO_256 { return Some(Overflow); }
      if p.fundedAmount + m.value > p.targetAmount { return Some(InvalidAmount); }
      if p.fundedAmount + ToUint128(m.value) >= TWO_128 { return Some(Overflow); }
      return None;
    }

    method StoreDeposit(m: Msg, id: Bytes32)
      requires Fund(State(), m, id).Ok?
      modifies this`policies, this`balance, this`trails
      ensures State() == Fund(old(State()), m, id).value
    {
      ghost var s := State();
      balance := balance + m.value;
      var p := policies[id];
      p := p.(fundedAmount := p.fundedAmount + ToUint128(m.value));
      if p.fundedAmount == p.targetAmount {
        p := p.(status := Funded);
      }
      policies := policies[id := p];
      trails := trails[id := TrailOf(s, id) + [Deposited(m.sender, m.value, m.now)]];
    }

    method FundPolicy(m: Msg, id: Bytes32) returns (fault: Option<Error>)
      requires Valid() && Timely(m)
      modifies this
      ensures fault == if old(entered) then Some(ReentrantCall) else FaultOf(Fund(old(State()), m, id))
      ensures State() == if old(entered) then old(State()) else After(old(State()), Fund(old(State()), m, id))
      ensures Valid() && clock == m.now && flight == old(flight) && entered == old(entered)
    {
      hide CoreInv, Fund;
      ghost var s := State();
      Arrive(m);
      if entered { return Some(ReentrantCall); }
      fault := CheckFund(m, id);
      if fault.Some? { return; }
      StoreDeposit(m, id);
      FundKeeps(chain, s, m, id, flight);
    }

    method CheckRequest(m: Msg, id: Bytes32, reference: Bytes32) returns (fault: Option<Error>)
      ensures fault == FaultOf(AskProof(State(), m, id, reference))
    {
      if m.value != 0 { return Some(NonPayable); }
      fault := CheckStage(m, id, Funded);
      if fault.Some? { return; }
      if reference == ZERO { return Some(ResultMismatch); }
    }

    method StoreRequest(m: Msg, id: Bytes32, reference: Bytes32)
      requires AskProof(State(), m, id, reference).Ok?
      modifies this`policies, this`trails
      ensures State() == AskProof(old(State()), m, id, reference).value
    {
      ghost var s := State();
      var p := policies[id].(status := ProofRequested);
      p := p.(proofRequestedAt := ToUint64(m.now));
      policies := policies[id := p];
      trails := trails[id := TrailOf(s, id) + [ProofAsked(reference, m.now)]];
    }

    method RequestProof(m: Msg, id: Bytes32, reference: Bytes32) returns (fault: Option<Error>)
      requires Valid() && Timely(m)
      modifies this
      ensures fault == FaultOf(AskProof(old(State()), m, id, reference))
      ensures State() == After(old(State()), AskProof(old(State()), m, id, reference))
      ensures Valid() && clock == m.now && flight == old(flight) && entered == old(entered)
    {
      hide CoreInv, AskProof;
      ghost var s := State();
      Arrive(m);
      fault := CheckRequest(m, id, reference);
      if fault.Some? { return; }
      StoreRequest(m, id, reference);
      AskProofKeeps(chain, s, m, id, reference, flight);
    }

    method CheckSubmit(m: Msg, o: Oracle, id: Bytes32, proof: EvmProof) returns (fault: Option<Error>)
      ensures fault == FaultOf(SubmitProof(State(), m, o, id, proof))
    {
      if m.value != 0 { return Some(NonPayable); }
      fault := CheckStage(m, id, ProofRequested);
      if fault.Some? { return; }
      if !o.fdcAccepts { return Some(ProofInvalid); }
      if Keccak(Response(proof.data)) in usedProofDigests { return Some(ProofReplayed); }
      if proof.data.transactionHash == ZERO || proof.data.status != 1 { return Some(ProofInvalid); }
      if proof.data.value < policies[id].targetAmount { return Some(InvalidAmount); }
    }

    method StoreProof(m: Msg, ghost o: Oracle, id: Bytes32, proof: EvmProof)
      requires SubmitProof(State(), m, o, id, proof).Ok?
      modifies this`policies, this`usedProofDigests, this`trails
      ensures State() == SubmitProof(old(State()), m, o, id, proof).value
    {
      ghost var s := State();
      var digest := Keccak(Response(proof.data));
      usedProofDigests := usedProofDigests + {digest};
      var p := policies[id].(externalProofDigest := digest, sourceTransactionHash := proof.data.transactionHash);
      p := p.(proofVerifiedAt := ToUint64(m.now), status := ProofVerified);
      policies := policies[id := p];
      trails := trails[id := TrailOf(s, id) + [ProofAccepted(proof.data, m.now)]];
    }

    method SubmitEvmProof(m: Msg, o: Oracle, id: Bytes32, proof: EvmProof) returns (fault: Option<Error>)
      requires Valid() && Timely(m)
      modifies this
      ensures fault == FaultOf(SubmitProof(old(State()), m, o, id, proof))
      ensures State() == After(old(State()), SubmitProof(old(State()), m, o, id, proof))
      ensures Valid() && clock == m.now && flight == old(flight) && entered == old(entered)
    {
      hide CoreInv, SubmitProof;
      ghost var s := State();
      Arrive(m);
      fault := CheckSubmit(m, o, id, proof);
      if fault.Some? { return; }
      StoreProof(m, o, id, proof);
      SubmitProofKeeps(chain, s, m, o, id, proof, flight);
    }

    /** The guards of a computation request, and the id the instruction sender returns. */
    method CheckComputation(m: Msg, o: Oracle, id: Bytes32, inputHash: Bytes32, message: seq<Bytes32>)
        returns (fault: Option<Error>)
      ensures fault == FaultOf(AskComputation(State(), m, o, id, inputHash, message))
    {
      fault := CheckStage(m, id, ProofVerified);
      if fault.Some? { return; }
      if !o.senderConfigured || o.senderExtensionId == 0 || inputHash == ZERO || |message| == 0 {
        return Some(ResultMismatch);
      }
      if o.instruction.None? { return Some(InstructionRejected); }
      if policies[id].resultNonce + 1 >= TWO_64 { return Some(Overflow); }
    }

    method StoreInstruction(m: Msg, o: Oracle, id: Bytes32, inputHash: Bytes32, ghost message: seq<Bytes32>)
        returns (instructionId: Bytes32)
      requires AskComputation(State(), m, o, id, inputHash, message).Ok?
      modifies this`policies, this`trails
      ensures State() == AskComputation(old(State()), m, o, id, inputHash, message).value
      ensures Some(instructionId) == o.instruction
    {
      ghost var s := State();
      instructionId := o.instruction.value;
      var p := policies[id];
      p := p.(privateInputHash := inputHash, computationReference := instructionId);
      p := p.(resultNonce := p.resultNonce + 1);
      p := p.(status := ComputationRequested);
      policies := policies[id := p];
      trails := trails[id := TrailOf(s, id) + [ComputationAsked(inputHash, instructionId, m.now)]];
    }

    method SendComputationInstruction(m: Msg, o: Oracle, id: Bytes32, inputHash: Bytes32, message: seq<Bytes32>)
        returns (fault: Option<Error>, instructionId: Bytes32)
      requires Valid() && Timely(m)
      modifies this
      ensures fault == FaultOf(AskComputation(old(State()), m, o, id, inputHash, message))
      ensures State() == After(old(State()), AskComputation(old(State()), m, o, id, inputHash, message))
      ensures fault.None? ==> Some(instructionId) == o.instruction
      ensures Valid() && clock == m.now && flight == old(flight) && entered == old(entered)
    {
      hide CoreInv, AskComputation;
      ghost var s := State();
      Arrive(m);
      instructionId := ZERO;
      fault := CheckComputation(m, o, id, inputHash, message);
      if fault.Some? { return; }
      instructionId := StoreInstruction(m, o, id, inputHash, message);
      AskComputationKeeps(chain, s, m, o, id, inputHash, message, flight);
    }

    /** The search through the active TEE set. */
    method CheckTee(activeTees: seq<Address>, signer: Address) returns (fault: Option<Error>)
      ensures fault == TeeFault(activeTees, signer)
    {
      if |activeTees| == 0 { return Some(TeeRegistryUnavailable); }
      var i := 0;
      while i < |activeTees|
        invariant 0 <= i <= |activeTees|
        invariant signer !in activeTees[..i]
      {
        if activeTees[i] == signer { return None; }
        assert activeTees[..i + 1] == activeTees[..i] + [activeTees[i]];
        i := i + 1;
      }
      assert activeTees[..i] == activeTees;
      return Some(InvalidActionResultSignature);
    }

    /** The summation loop; the participant hash has already fixed the recipients, so every index is in range. */
    method TotalAmounts(r: SettlementResult) returns (outcome: Outcome<nat>)
      requires |r.recipients| == |r.amounts| == |RecipientsOf(State(), r.policyId)|
      ensures outcome == TotalFrom(r.recipients, RecipientsOf(State(), r.policyId), r.amounts, 0, 0)
    {
      var stored := if r.policyId in policyRecipients then policyRecipients[r.policyId] else [];
      var sum: nat := 0;
      var i := 0;
      while i < |r.amounts|
        invariant 0 <= i <= |r.amounts|
        invariant TotalFrom(r.recipients, stored, r.amounts, i, sum) == TotalFrom(r.recipients, stored, r.amounts, 0, 0)
      {
        if r.recipients[i] != stored[i] || r.amounts[i] == 0 { return Revert(ResultMismatch); }
        if sum + r.amounts[i] >= TWO_256 { return Revert(Overflow); }
        sum := sum + r.amounts[i];
        i := i + 1;
      }
      return Ok(sum);
    }

    method CheckResult(m: Msg, r: SettlementResult) returns (fault: Option<Error>)
      requires Records(chain, State(), m.now, flight)
      ensures fault == ResultFault(State(), m, r)
    {
      hide Records, Replay, TotalFrom, MoneyByStatus, EvidenceByStatus, StampsInOrder;
      if r.policyId !in policies { return Some(PolicyMissing); }
      var p := policies[r.policyId];
      if p.status != ComputationRequested { return Some(InvalidState); }
      if m.now >= p.expiry { return Some(PolicyExpired); }
      if r.expiry > p.expiry || r.expiry <= m.now { return Some(InvalidExpiry); }
      if r.nonce != p.resultNonce { return Some(NonceMismatch); }
      if r.externalProofDigest != p.externalProofDigest || r.privateInputHash != p.privateInputHash
         || r.computationReference != p.computationReference { return Some(ResultMismatch); }
      var shares := if r.policyId in policyShares then policyShares[r.policyId] else [];
      if Keccak(Participants(r.recipients, shares)) != p.participantHash { return Some(ResultMismatch); }
      if |r.recipients| != |r.amounts| || |r.recipients| == 0 { return Some(InvalidParticipants); }
      if r.total != p.targetAmount || r.total != p.fundedAmount { return Some(InvalidAmount); }
      Known(chain, State(), r.policyId, m.now, flight);
      var sum := TotalAmounts(r);
      match sum {
        case Revert(error) => return Some(error);
        case Ok(total) => return if total != r.total then Some(InvalidAmount) else None;
      }
    }

    method StoreResult(m: Msg, r: SettlementResult, ghost att: Attestation)
      requires AcceptResult(chain, State(), m, r, att).Ok?
      modifies this`policies, this`usedResultDigests, this`trails
      ensures State() == AcceptResult(chain, old(State()), m, r, att).value
    {
      hide ResultFault;
      ghost var s := State();
      AcceptedExists(s, m, r);
      var digest := ResultDigest(chain, r);
      usedResultDigests := usedResultDigests + {digest};
      var p := policies[r.policyId].(resultDigest := digest, resultAuthenticatedAt := ToUint64(m.now));
      p := p.(status := ResultAuthenticated);
      p := p.(status := ReadyToSettle);
      policies := policies[r.policyId := p];
      trails := trails[r.policyId := TrailOf(s, r.policyId) + [ResultAccepted(r, att, m.now)]];
    }

    /** `_authenticateResult`: the checks, the replay guard and the effects. */
    method AuthenticateResult(m: Msg, r: SettlementResult, ghost att: Attestation) returns (fault: Option<Error>)
      requires Valid() && clock == m.now && Attested(chain, r, att)
      modifies this
      ensures fault == FaultOf(AcceptResult(chain, old(State()), m, r, att))
      ensures State() == After(old(State()), AcceptResult(chain, old(State()), m, r, att))
      ensures Valid() && clock == m.now && flight == old(flight) && entered == old(entered)
    {
      hide CoreInv, ResultFault;
      ghost var s := State();
      CoreRecords(chain, s, m.now, flight);
      fault := CheckResult(m, r);
      if fault.Some? { return; }
      var digest := ResultDigest(chain, r);
      if digest in usedResultDigests { return Some(ResultReplayed); }
      StoreResult(m, r, att);
      AcceptResultKeeps(chain, s, m, r, att, flight);
    }

    method AuthenticateActionResult(m: Msg, o: Oracle, r: SettlementResult, actionId: Bytes32, tag: string,
                                    actionStatus: uint8, signature: Signature) returns (fault: Option<Error>)
      requires Valid() && Timely(m)
      modifies this
      ensures fault == FaultOf(Authenticate(chain, old(State()), m, o, r, actionId, tag, actionStatus, signature))
      ensures State() == After(old(State()),
                               Authenticate(chain, old(State()), m, o, r, actionId, tag, actionStatus, signature))
      ensures Valid() && clock == m.now && flight == old(flight) && entered == old(entered)
    {
      hide CoreInv, AcceptResult, SigningDigest;
      Arrive(m);
      if m.value != 0 { return Some(NonPayable); }
      if !o.teeRegistryConfigured { return Some(TeeRegistryUnavailable); }
      if actionStatus != 1 { return Some(InvalidActionResultStatus); }
      if actionId != r.computationReference { return Some(ResultMismatch); }
      var signer := RecoverSigner(chain, SigningDigest(chain, r, actionId, tag, actionStatus), signature);
      if signer.Revert? { return Some(signer.error); }
      fault := CheckTee(o.activeTees, signer.value);
      if fault.Some? { return; }
      fault := AuthenticateResult(m, r, Attestation(tag, signature, signer.value, o.activeTees));
    }

    method CheckCancel(m: Msg, id: Bytes32) returns (fault: Option<Error>)
      ensures fault == FaultOf(Cancel(State(), m, id))
    {
      if m.value != 0 { return Some(NonPayable); }
      fault := CheckOwner(m, id);
      if fault.Some? { return; }
      var status := policies[id].status;
      if status != Draft && status != Funded && status != ProofRequested { return Some(CancellationUnavailable); }
    }

    method CancelPolicy(m: Msg, id: Bytes32) returns (fault: Option<Error>)
      requires Valid() && Timely(m)
      modifies this
      ensures fault == FaultOf(Cancel(old(State()), m, id))
      ensures State() == After(old(State()), Cancel(old(State()), m, id))
      ensures Valid() && clock == m.now && flight == old(flight) && entered == old(entered)
    {
      hide CoreInv;
      ghost var s := State();
      Arrive(m);
      fault := CheckCancel(m, id);
      if fault.Some? { return; }
      policies := policies[id := policies[id].(status := Cancelled)];
      trails := trails[id := TrailOf(s, id) + [Withdrawn(m.now)]];
      assert State() == Cancel(s, m, id).value;
      CancelKeeps(chain, s, m, id, flight);
    }

    /**
     * One transfer of the payout in progress: the value moves if the recipient accepts it, otherwise nothing happens.
     */
    method Send(id: Bytes32, payment: Payment, accepted: bool) returns (success: bool)
      requires Valid() && flight.Paying? && flight.id == id && flight.due != [] && flight.due[0] == payment
      modifies this`balance, this`trails, this`flight
      ensures Valid()
      ensures success == (Deliverable(chain, old(State()), payment) && accepted)
      ensures success ==> State() == Transfer(old(State()), id, payment) && flight == Paying(id, old(flight).due[1..])
      ensures !success ==> State() == old(State()) && flight == old(flight)
    {
      hide CoreInv;
      success := payment.to != chain.self && payment.amount <= balance && accepted;
      if success {
        ghost var s := State();
        TransferKeeps(chain, s, id, flight.due, clock);
        balance := balance - payment.amount;
        trails := trails[id := TrailOf(s, id) + [Paid(payment)]];
        flight := Paying(id, flight.due[1..]);
      }
    }

    /** The effects of `settle` before its transfers. */
    method CloseForPayout(m: Msg, r: SettlementResult) returns (fault: Option<Error>)
      modifies this`policies, this`trails
      ensures fault == FaultOf(BeginSettle(chain, old(State()), m, r))
      ensures State() == After(old(State()), BeginSettle(chain, old(State()), m, r))
    {
      if m.value != 0 { return Some(NonPayable); }
      fault := CheckStage(m, r.policyId, ReadyToSettle);
      if fault.Some? { return; }
      if ResultDigest(chain, r) != policies[r.policyId].resultDigest { return Some(ResultMismatch); }
      ghost var s := State();
      var p := policies[r.policyId].(status := Settled, settledAt := ToUint64(m.now));
      p := p.(settledAmount := ToUint128(r.total), fundedAmount := 0);
      policies := policies[r.policyId := p];
      trails := trails[r.policyId := TrailOf(s, r.policyId) + [PayoutBegun(m.now)]];
    }

    /** The payout loop, up to its end or the first failed transfer. Before each transfer the object is valid. */
    method PayRecipients(r: SettlementResult, accepts: seq<bool>) returns (fault: Option<Error>)
      requires |r.recipients| == |r.amounts| == |accepts| == |Payouts(r.recipients, r.amounts)|
      requires Valid() && flight == Paying(r.policyId, Payouts(r.recipients, r.amounts))
      modifies this`balance, this`trails, this`flight
      ensures var outcome := PayAll(chain, old(State()), r.policyId, Payouts(r.recipients, r.amounts), accepts);
              fault == FaultOf(outcome) && (outcome.Ok? ==> State() == outcome.value)
      ensures fault.None? ==> CoreInv(chain, State(), clock, Quiet)
    {
      hide Transfer, Deliverable, CoreInv;
      ghost var due := Payouts(r.recipients, r.amounts);
      ghost var whole := PayAll(chain, State(), r.policyId, due, accepts);
      History.PayoutsPair(r.recipients, r.amounts);
      hide Payouts;
      var i := 0;
      while i < |r.recipients|
        invariant 0 <= i <= |r.recipients|
        invariant Valid() && flight == Paying(r.policyId, due[i..])
        invariant PayAll(chain, State(), r.policyId, due[i..], accepts[i..]) == whole
      {
        assert due[i..][0] == due[i] && due[i..][1..] == due[i + 1..] && accepts[i..][1..] == accepts[i + 1..];
        var success := Send(r.policyId, Payment(r.recipients[i], r.amounts[i]), accepts[i]);
        if !success { return Some(TransferFailed(r.recipients[i], r.amounts[i])); }
        i := i + 1;
      }
      PayoutOver(chain, State(), r.policyId, clock);
      return None;
    }

    /** A guarded call with this outcome, unless it came from within a payout. */
    ghost predicate UnlessEntered(m: Msg, before: Core, outcome: Outcome<Core>, wasEntered: bool, fault: Option<Error>)
      reads this
    {
      if wasEntered && m.value == 0 then fault == Some(ReentrantCall) && State() == before
      else fault == FaultOf(outcome) && State() == After(before, outcome)
    }

    /** The body of `settle`, under the guard: on a fault the transaction still has to be undone. */
    method PayOut(m: Msg, r: SettlementResult, accepts: seq<bool>) returns (fault: Option<Error>)
      requires CoreInv(chain, State(), clock, Quiet) && entered && clock == m.now
      requires |accepts| == |r.recipients|
      modifies this`policies, this`balance, this`trails, this`flight
      ensures fault == FaultOf(SettleWith(chain, old(State()), m, r, accepts))
      ensures fault.None? ==> State() == SettleWith(chain, old(State()), m, r, accepts).value
      ensures fault.None? ==> CoreInv(chain, State(), clock, Quiet)
    {
      hide CoreInv, PayAll, Payouts, SettleWith, BeginSettle;
      ghost var s := State();
      SettleParts(chain, s, m, r, accepts);
      fault := CloseForPayout(m, r);
      if fault.Some? { return; }
      BeginSettleKeeps(chain, s, m, r);
      flight := Paying(r.policyId, Payouts(r.recipients, r.amounts));
      fault := PayRecipients(r, accepts);
    }

    /** `accepts` says which recipients take their transfer. A failed transfer reverts everything. */
    method Settle(m: Msg, r: SettlementResult, accepts: seq<bool>) returns (fault: Option<Error>)
      requires Valid() && Timely(m)
      requires |accepts| == |r.recipients|
      modifies this
      ensures UnlessEntered(m, old(State()), SettleWith(chain, old(State()), m, r, accepts), old(entered), fault)
      ensures Valid() && clock == m.now && flight == old(flight) && entered == old(entered)
    {
      hide CoreInv, SettleWith;
      Arrive(m);
      if m.value != 0 {
        ValueRefused(chain, State(), m, r, accepts);
        return Some(NonPayable);
      }
      if entered { return Some(ReentrantCall); }
      var policies0, balance0 := policies, balance;
      ghost var trails0 := trails;
      entered := true;
      fault := PayOut(m, r, accepts);
      if fault.Some? {
        policies, balance, trails := policies0, balance0, trails0;
      }
      entered, flight := false, Quiet;
    }

    /** The effects of `refundPolicy` before its transfer, and the amount it will transfer. */
    method CloseForRefund(m: Msg, id: Bytes32) returns (fault: Option<Error>, refund: Payment)
      modifies this`policies, this`trails
      ensures fault == FaultOf(BeginRefund(old(State()), m, id))
      ensures State() == After(old(State()), BeginRefund(old(State()), m, id))
      ensures fault.None? ==>
                id in old(policies) && refund == Payment(old(policies)[id].owner, old(policies)[id].fundedAmount)
    {
      refund := Payment(ZERO_ADDRESS, 0);
      if m.value != 0 { return Some(NonPayable), refund; }
      fault := CheckOwner(m, id);
      if fault.Some? { return; }
      ghost var s := State();
      var p := policies[id];
      if !Refundable(p, m.now) { return Some(CancellationUnavailable), refund; }
      if p.fundedAmount == 0 { return Some(InvalidAmount), refund; }
      refund := Payment(p.owner, p.fundedAmount);
      p := p.(fundedAmount := 0);
      p := p.(status := Refunded);
      policies := policies[id := p];
      trails := trails[id := TrailOf(s, id) + [RefundBegun(m.now)]];
    }

    method RefundPolicy(m: Msg, id: Bytes32, accepted: bool) returns (fault: Option<Error>)
      requires Valid() && Timely(m)
      modifies this
      ensures UnlessEntered(m, old(State()), RefundWith(chain, old(State()), m, id, accepted), old(entered), fault)
      ensures Valid() && clock == m.now && flight == old(flight) && entered == old(entered)
    {
      hide CoreInv, Transfer, Deliverable, RefundWith, BeginRefund;
      Arrive(m);
      ghost var s := State();
      RefundParts(chain, s, m, id, accepted);
      if m.value != 0 { return Some(NonPayable); }
      if entered { return Some(ReentrantCall); }
      var policies0 := policies;
      ghost var trails0 := trails;
      entered := true;
      var refund;
      fault, refund := CloseForRefund(m, id);
      if fault.None? {
        BeginRefundKeeps(chain, s, m, id);
        flight := Paying(id, [refund]);
        assert flight.due[1..] == [];
        var success := Send(id, refund, accepted);
        if !success {
          policies, trails := policies0, trails0;
          fault := Some(TransferFailed(refund.to, refund.amount));
        } else {
          PayoutOver(chain, State(), id, m.now);
        }
        flight := Quiet;
      }
      entered := false;
    }
  }

  lemma PayOne(c: Chain, s: Core, id: Bytes32, payment: Payment, accepted: bool)
    ensures PayAll(c, s, id, [payment], [accepted]) ==
            if Deliverable(c, s, payment) && accepted then Ok(Transfer(s, id, payment))
            else Revert(TransferFailed(payment.to, payment.amount))
  {
    hide Transfer;
    assert [payment][1..] == [] && [accepted][1..] == [];
  }

  /** The result that opens a settlement is the authenticated one, so it has one amount for each recipient. */
  lemma OnePayoutEach(c: Chain, s: Core, m: Msg, r: SettlementResult)
    requires CoreInv(c, s, m.now, Quiet) && BeginSettle(c, s, m, r).Ok?
    ensures |r.recipients| == |r.amounts| == |Payouts(r.recipients, r.amounts)|
    ensures r.recipients == RecipientsOf(s, r.policyId) && Sum(r.amounts) == s.policies[r.policyId].fundedAmount
  {
    hide Replay, StampsInOrder;
    Known(c, s, r.policyId, m.now, Quiet);
    BeginSettleRefines(c, s, m, r, AccountOf(c, s, r.policyId));
    History.PayoutsPair(r.recipients, r.amounts);
  }
}
