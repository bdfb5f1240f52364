/**
 * Exactly when each entry point succeeds, in any state a run can reach. Several checks of the code collapse
 * here: the invariant makes some of them impossible to fail and others equivalent to one plain condition.
 */
module Acceptance {
  import opened Evm
  import ParticipantRules
  import opened Protocol
  import opened Lifecycle
  import History
  import opened Invariant
  import opened AurelithContract

  /** Anyone can create a policy with valid terms that has not expired; an id collision is impossible. */
  lemma CreateSucceedsIff(c: Chain, s: Core, m: Msg, q: CreateParams, f: Flight)
    requires CoreInv(c, s, m.now, f)
    ensures Create(c, s, m, q).Ok? <==>
            m.value == 0 && ValidTerms(q) && m.now < q.expiry && NonceOf(s, m.sender) + 1 < TWO_256
  {
    hide CoreInv, PolicyIdOf, ParticipantRules.ValidParticipants, ParticipantRules.ParticipantFault;
    CoreRecords(c, s, m.now, f);
    FreshId(c, s, m.sender, q, m.now, f);
    ParticipantRules.ValidationDecides(q.recipients, q.sharesBps);
  }

  /** Deposits are taken exactly while the target is not reached, and never beyond it; a funded policy takes none. */
  lemma FundSucceedsIff(c: Chain, s: Core, m: Msg, id: Bytes32, f: Flight)
    requires CoreInv(c, s, m.now, f)
    ensures Fund(s, m, id).Ok? <==>
            && id in s.policies && s.policies[id].status == Draft && m.now < s.policies[id].expiry
            && 0 < m.value <= s.policies[id].targetAmount - s.policies[id].fundedAmount
  {
    hide CoreInv;
    if id in s.policies {
      KnownRule(c, s, id, m.now, f);
    }
  }

  /** A proof can be asked for exactly when the escrow is complete and no proof was asked for yet, before expiry. */
  lemma AskProofSucceedsIff(c: Chain, s: Core, m: Msg, id: Bytes32, reference: Bytes32, f: Flight)
    requires CoreInv(c, s, m.now, f)
    ensures AskProof(s, m, id, reference).Ok? <==>
            && m.value == 0 && reference != ZERO
            && id in s.policies && s.policies[id].owner == m.sender && m.now < s.policies[id].expiry
            && s.policies[id].fundedAmount == s.policies[id].targetAmount && s.policies[id].externalProofDigest == ZERO
            && s.policies[id].status != ProofRequested && s.policies[id].status != Cancelled
  {
    hide CoreInv;
    if id in s.policies {
      KnownRule(c, s, id, m.now, f);
    }
  }

  lemma DigestHeldIff(c: Chain, s: Core, digest: Bytes32, now: nat, f: Flight)
    requires CoreInv(c, s, now, f) && digest != ZERO
    ensures digest in s.usedProofDigests <==> exists k :: k in s.policies && s.policies[k].externalProofDigest == digest
  {
    hide Records, Solvent;
    var held := ProofDigests(s.policies);
    if digest in s.usedProofDigests {
      var k :| k in held && held[k] == digest;
      assert k in s.policies && s.policies[k].externalProofDigest == digest;
    }
    forall k | k in s.policies && s.policies[k].externalProofDigest == digest ensures digest in s.usedProofDigests {
      assert k in held && held[k] == digest;
    }
  }

  /** A proof is taken exactly if it verifies, covers the whole escrow, and no policy holds it already. */
  lemma SubmitSucceedsIff(c: Chain, s: Core, m: Msg, o: Oracle, id: Bytes32, proof: EvmProof, f: Flight)
    requires CoreInv(c, s, m.now, f)
    ensures SubmitProof(s, m, o, id, proof).Ok? <==>
            && m.value == 0 && id in s.policies && s.policies[id].owner == m.sender
            && s.policies[id].status == ProofRequested && m.now < s.policies[id].expiry
            && o.fdcAccepts && proof.data.transactionHash != ZERO && proof.data.status == 1
            && proof.data.value >= s.policies[id].fundedAmount
            && forall k :: k in s.policies ==> s.policies[k].externalProofDigest != Keccak(Response(proof.data))
  {
    hide CoreInv;
    var digest := Keccak(Response(proof.data));
    DigestHeldIff(c, s, digest, m.now, f);
    if id in s.policies {
      KnownRule(c, s, id, m.now, f);
    }
  }

  /** A computation can be requested once for each policy: the result nonce goes from 0 to 1 and can never overflow. */
  lemma ComputationStartsIff(c: Chain, s: Core, m: Msg, o: Oracle, id: Bytes32, inputHash: Bytes32,
                             message: seq<Bytes32>, f: Flight)
    requires CoreInv(c, s, m.now, f)
    ensures var outcome := AskComputation(s, m, o, id, inputHash, message);
            && (outcome.Ok? <==>
                  && id in s.policies && s.policies[id].owner == m.sender && s.policies[id].status == ProofVerified
                  && m.now < s.policies[id].expiry && inputHash != ZERO && message != []
                  && o.senderConfigured && o.senderExtensionId != 0 && o.instruction.Some?)
            && (outcome.Ok? ==> s.policies[id].resultNonce == 0
                                && id in outcome.value.policies && outcome.value.policies[id].resultNonce == 1)
  {
    hide CoreInv;
    if id in s.policies {
      KnownRule(c, s, id, m.now, f);
    }
  }

  /** A signature the contract accepts: well formed, over this result, action and chain, by an active TEE. */
  predicate Signed(c: Chain, o: Oracle, r: SettlementResult, actionId: Bytes32, tag: string, actionStatus: uint8,
                   signature: Signature)
  {
    var v := if signature.v < 27 then signature.v + 27 else signature.v;
    var digest := SigningDigest(c, r, actionId, tag, actionStatus);
    var signer := c.ecrecover(digest, v, signature.r, signature.s);
    && signature.length == 65 && v in {27, 28}
    && signer != ZERO_ADDRESS && signer in o.activeTees
  }

  lemma SignedIff(c: Chain, o: Oracle, r: SettlementResult, actionId: Bytes32, tag: string, actionStatus: uint8,
                  signature: Signature)
    ensures var signer := RecoverSigner(c, SigningDigest(c, r, actionId, tag, actionStatus), signature);
            Signed(c, o, r, actionId, tag, actionStatus, signature) <==>
              signer.Ok? && TeeFault(o.activeTees, signer.value).None?
  {
    hide SigningDigest;
  }

  /**
   * The result answers the request of its policy, in time: stored recipients in order, positive amounts summing to
   * the escrow.
   */
  predicate Answers(s: Core, m: Msg, r: SettlementResult)
  {
    && r.policyId in s.policies
    && var p := s.policies[r.policyId];
       && p.status == ComputationRequested && m.now < r.expiry <= p.expiry && r.nonce == 1
       && r.computationReference == p.computationReference
       && r.externalProofDigest == p.externalProofDigest && r.privateInputHash == p.privateInputHash
       && r.recipients == RecipientsOf(s, r.policyId) && |r.amounts| == |r.recipients|
       && (forall i :: 0 <= i < |r.amounts| ==> r.amounts[i] > 0)
       && Sum(r.amounts) == r.total == p.fundedAmount
  }

  lemma FitsIffAnswers(c: Chain, s: Core, m: Msg, r: SettlementResult, a: Account)
    requires r.policyId in s.policies && a.policy == s.policies[r.policyId] && a.policy.status == ComputationRequested
    requires a.terms.recipients == RecipientsOf(s, r.policyId) && MoneyByStatus(a) && EvidenceByStatus(c, r.policyId, a)
    ensures m.now < a.policy.expiry && m.now < r.expiry && FitsPolicy(r.policyId, a.policy, a.terms, r) <==>
            Answers(s, m, r)
  {
  }

  lemma NoFaultIffAnswers(c: Chain, s: Core, m: Msg, r: SettlementResult, f: Flight)
    requires CoreInv(c, s, m.now, f)
    ensures ResultFault(s, m, r).None? <==> Answers(s, m, r)
  {
    hide CoreInv, Replay, ResultFault, StampsInOrder, MoneyByStatus, TermsKept, EvidenceByStatus, FitsPolicy;
    CoreRecords(c, s, m.now, f);
    if r.policyId in s.policies {
      Known(c, s, r.policyId, m.now, f);
      ResultFaultDecides(c, s, m, r, AccountOf(c, s, r.policyId));
      if s.policies[r.policyId].status == ComputationRequested {
        FitsIffAnswers(c, s, m, r, AccountOf(c, s, r.policyId));
      }
    } else {
      MissingFault(s, m, r);
    }
  }

  /**
   * A result is authenticated exactly when it is the successful action that its policy asked for, is signed by an
   * active TEE, and answers the request; the hash check, the loops and the replay set add nothing further.
   */
  lemma AuthenticateSucceedsIff(c: Chain, s: Core, m: Msg, o: Oracle, r: SettlementResult, actionId: Bytes32,
                                tag: string, actionStatus: uint8, signature: Signature, f: Flight)
    requires CoreInv(c, s, m.now, f)
    ensures Authenticate(c, s, m, o, r, actionId, tag, actionStatus, signature).Ok? <==>
            && m.value == 0 && o.teeRegistryConfigured && actionStatus == 1 && actionId == r.computationReference
            && Signed(c, o, r, actionId, tag, actionStatus, signature) && Answers(s, m, r)
  {
    hide CoreInv, ResultFault, Answers, Signed, RecoverSigner, TeeFault, SigningDigest, ResultDigest;
    NoFaultIffAnswers(c, s, m, r, f);
    SignedIff(c, o, r, actionId, tag, actionStatus, signature);
    if ResultFault(s, m, r).None? {
      FreshResult(c, s, m, r, f);
    }
  }

  /** A policy can be cancelled exactly until a proof is accepted for it. */
  lemma CancelSucceedsIff(c: Chain, s: Core, m: Msg, id: Bytes32, f: Flight)
    requires CoreInv(c, s, m.now, f)
    ensures Cancel(s, m, id).Ok? <==>
            && m.value == 0 && id in s.policies && s.policies[id].owner == m.sender
            && s.policies[id].status != Cancelled && s.policies[id].status != Refunded
            && s.policies[id].externalProofDigest == ZERO
  {
    hide CoreInv;
    if id in s.policies {
      KnownRule(c, s, id, m.now, f);
    }
  }

  /**
   * A settlement starts exactly when the owner presents, before the policy's expiry, the very result that was
   * authenticated.
   */
  lemma SettleSucceedsIff(c: Chain, s: Core, m: Msg, r: SettlementResult, f: Flight)
    requires CoreInv(c, s, m.now, f)
    ensures BeginSettle(c, s, m, r).Ok? <==>
            && m.value == 0 && r.policyId in s.policies && s.policies[r.policyId].owner == m.sender
            && m.now < s.policies[r.policyId].expiry && s.policies[r.policyId].status == ReadyToSettle
            && Replay(c, r.policyId, TrailOf(s, r.policyId)).Some?
            && AccountOf(c, s, r.policyId).result == Some(r)
  {
    hide CoreInv, Replay, TermsKept, MoneyByStatus, StampsInOrder, FitsPolicy;
    CoreRecords(c, s, m.now, f);
    if r.policyId in s.policies {
      Known(c, s, r.policyId, m.now, f);
    }
  }

  /**
   * A whole settlement goes through exactly when it may start, the contract is not among the recipients, and each
   * recipient takes its transfer. A policy that names the contract can be created but never settled.
   */
  lemma SettleGoesThroughIff(c: Chain, s: Core, m: Msg, r: SettlementResult, accepts: seq<bool>)
    requires CoreInv(c, s, m.now, Quiet) && |accepts| == |r.recipients|
    ensures SettleWith(c, s, m, r, accepts).Ok? <==>
            && m.value == 0 && r.policyId in s.policies && s.policies[r.policyId].owner == m.sender
            && m.now < s.policies[r.policyId].expiry && s.policies[r.policyId].status == ReadyToSettle
            && Replay(c, r.policyId, TrailOf(s, r.policyId)).Some?
            && AccountOf(c, s, r.policyId).result == Some(r)
            && c.self !in RecipientsOf(s, r.policyId)
            && forall i :: 0 <= i < |accepts| ==> accepts[i]
  {
    hide CoreInv, Replay, SettleWith, BeginSettle, PayAll, Payouts;
    SettleSucceedsIff(c, s, m, r, Quiet);
    SettleParts(c, s, m, r, accepts);
    if BeginSettle(c, s, m, r).Ok? {
      var due := Payouts(r.recipients, r.amounts);
      OnePayoutEach(c, s, m, r);
      BeginSettleKeeps(c, s, m, r);
      PayAllSucceedsIff(c, BeginSettle(c, s, m, r).value, r.policyId, due, accepts, m.now);
      History.PayoutsPair(r.recipients, r.amounts);
      assert forall i :: 0 <= i < |due| ==> due[i].to == r.recipients[i];
    }
  }

  /** A whole refund goes through exactly when the owner asks for and takes escrow that is cancelled or past expiry. */
  lemma RefundGoesThroughIff(c: Chain, s: Core, m: Msg, id: Bytes32, accepted: bool)
    requires CoreInv(c, s, m.now, Quiet)
    ensures RefundWith(c, s, m, id, accepted).Ok? <==>
            && m.value == 0 && id in s.policies && s.policies[id].owner == m.sender && s.policies[id].fundedAmount > 0
            && (s.policies[id].status == Cancelled || m.now >= s.policies[id].expiry)
            && accepted
  {
    hide CoreInv, RefundWith, PayAll;
    if id in s.policies {
      KnownRule(c, s, id, m.now, Quiet);
    }
    RefundParts(c, s, m, id, accepted);
    if BeginRefund(s, m, id).Ok? {
      var refund := Payment(s.policies[id].owner, s.policies[id].fundedAmount);
      BeginRefundKeeps(c, s, m, id);
      TransferKeeps(c, BeginRefund(s, m, id).value, id, [refund], m.now);
    }
  }

  // ---- All calls at once ----

  /** The plain condition for each call to go through, as proved above one by one. */
  ghost predicate Accepts(c: Chain, s: Core, m: Msg, o: Oracle, call: Call)
  {
    match call
    case CreatePolicy(q) =>
      m.value == 0 && ValidTerms(q) && m.now < q.expiry && NonceOf(s, m.sender) + 1 < TWO_256
    case FundPolicy(id) =>
      && id in s.policies && s.policies[id].status == Draft && m.now < s.policies[id].expiry
      && 0 < m.value <= s.policies[id].targetAmount - s.policies[id].fundedAmount
    case RequestProof(id, reference) =>
      && m.value == 0 && reference != ZERO && OwnsBeforeExpiry(s, m, id)
      && s.policies[id].fundedAmount == s.policies[id].targetAmount && s.policies[id].externalProofDigest == ZERO
      && s.policies[id].status != ProofRequested && s.policies[id].status != Cancelled
    case SubmitEvmProof(id, proof) =>
      && m.value == 0 && OwnsBeforeExpiry(s, m, id) && s.policies[id].status == ProofRequested
      && o.fdcAccepts && proof.data.transactionHash != ZERO && proof.data.status == 1
      && proof.data.value >= s.policies[id].fundedAmount
      && forall k :: k in s.policies ==> s.policies[k].externalProofDigest != Keccak(Response(proof.data))
    case SendComputationInstruction(id, inputHash, message) =>
      && OwnsBeforeExpiry(s, m, id) && s.policies[id].status == ProofVerified && inputHash != ZERO && message != []
      && o.senderConfigured && o.senderExtensionId != 0 && o.instruction.Some?
    case AuthenticateActionResult(r, actionId, tag, actionStatus, signature) =>
      && m.value == 0 && o.teeRegistryConfigured && actionStatus == 1 && actionId == r.computationReference
      && Signed(c, o, r, actionId, tag, actionStatus, signature) && Answers(s, m, r)
    case CancelPolicy(id) =>
      && m.value == 0 && id in s.policies && s.policies[id].owner == m.sender
      && s.policies[id].status != Cancelled && s.policies[id].status != Refunded
      && s.policies[id].externalProofDigest == ZERO
  }

  predicate OwnsBeforeExpiry(s: Core, m: Msg, id: Bytes32)
  {
    id in s.policies && s.policies[id].owner == m.sender && m.now < s.policies[id].expiry
  }

  lemma ExecuteSucceedsIff(c: Chain, s: Core, m: Msg, o: Oracle, call: Call, f: Flight)
    requires CoreInv(c, s, m.now, f)
    ensures Execute(c, s, m, o, call).Ok? <==> Accepts(c, s, m, o, call)
  {
    hide CoreInv, Create, Fund, AskProof, SubmitProof, AskComputation, Authenticate, Cancel, Signed, Answers,
         ValidTerms;
    match call
    case CreatePolicy(q) => CreateSucceedsIff(c, s, m, q, f);
    case FundPolicy(id) => FundSucceedsIff(c, s, m, id, f);
    case RequestProof(id, reference) => AskProofSucceedsIff(c, s, m, id, reference, f);
    case SubmitEvmProof(id, proof) => SubmitSucceedsIff(c, s, m, o, id, proof, f);
    case SendComputationInstruction(id, inputHash, message) => ComputationStartsIff(c, s, m, o, id, inputHash,
                                                                                    message, f);
    case AuthenticateActionResult(r, actionId, tag, actionStatus, signature) =>
      AuthenticateSucceedsIff(c, s, m, o, r, actionId, tag, actionStatus, signature, f);
    case CancelPolicy(id) => CancelSucceedsIff(c, s, m, id, f);
  }
}
