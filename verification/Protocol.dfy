/**
 * The settlement contract's storage and, for every entry point, the state change or revert it
 * produces: same guards, same order, same casts. `settle` and `refundPolicy` appear here up to their
 * first transfer; the transfers themselves are steps of module Runs.
 */
module Protocol {
  import opened Evm
  import ParticipantRules

  datatype Status =
    | Draft | Funded | ProofRequested | ProofVerified | ComputationRequested | ResultAuthenticated
    | ReadyToSettle | Settled | Cancelled | Refunded

  datatype Policy = Policy(
    owner: Address, createdAt: uint64, expiry: uint64, proofRequestedAt: uint64, proofVerifiedAt: uint64,
    resultAuthenticatedAt: uint64, settledAt: uint64, resultNonce: uint64,
    targetAmount: uint128, fundedAmount: uint128, settledAmount: uint128,
    ruleHash: Bytes32, paymentReferenceHash: Bytes32, participantHash: Bytes32, externalProofDigest: Bytes32,
    sourceTransactionHash: Bytes32, privateInputHash: Bytes32, resultDigest: Bytes32, computationReference: Bytes32,
    status: Status)

  datatype CreateParams = CreateParams(
    salt: Bytes32, ruleHash: Bytes32, paymentReferenceHash: Bytes32, targetAmount: uint128, expiry: uint64,
    recipients: seq<Address>, sharesBps: seq<uint16>)

  datatype Payment = Payment(to: Address, amount: uint256)

  /**
   * What came with an accepted result: tag and signature, the recovered signer, and the TEE set active at that
   * moment.
   */
  datatype Attestation = Attestation(tag: string, signature: Signature, signer: Address, teeIds: seq<Address>)

  /** One line of a policy's history. The contract does not store it: it records what its events and transfers show. */
  datatype Entry =
    | Created(owner: Address, ownerNonce: nat, terms: CreateParams, at: nat)
    | Deposited(funder: Address, value: nat, at: nat)
    | ProofAsked(reference: Bytes32, at: nat)
    | ProofAccepted(data: EvmResponse, at: nat)
    | ComputationAsked(inputHash: Bytes32, instructionId: Bytes32, at: nat)
    | ResultAccepted(result: SettlementResult, att: Attestation, at: nat)
    | PayoutBegun(at: nat)
    | Paid(payment: Payment)
    | Withdrawn(at: nat)
    | RefundBegun(at: nat)

  /** A policy is in `policies` exactly when the contract's record has a non-zero owner. */
  datatype Core = Core(
    policies: map<Bytes32, Policy>, recipients: map<Bytes32, seq<Address>>, shares: map<Bytes32, seq<uint16>>,
    usedProofDigests: set<Bytes32>, usedResultDigests: set<Bytes32>, ownerNonces: map<Address, uint256>,
    balance: nat, trails: map<Bytes32, seq<Entry>>)

  const GENESIS: Core := Core(map[], map[], map[], {}, {}, map[], 0, map[])

  // Reading an absent key of a Solidity mapping yields the zero value.
  function NonceOf(s: Core, a: Address): uint256 { if a in s.ownerNonces then s.ownerNonces[a] else 0 }

  function RecipientsOf(s: Core, id: Bytes32): seq<Address> { if id in s.recipients then s.recipients[id] else [] }

  function SharesOf(s: Core, id: Bytes32): seq<uint16> { if id in s.shares then s.shares[id] else [] }

  function TrailOf(s: Core, id: Bytes32): seq<Entry> { if id in s.trails then s.trails[id] else [] }

  /** The record of policy `id` becomes `p`, and its history gains `e`. */
  function Put(s: Core, id: Bytes32, p: Policy, e: Entry): Core
  {
    s.(policies := s.policies[id := p], trails := s.trails[id := TrailOf(s, id) + [e]])
  }

  datatype EvmProof = EvmProof(data: EvmResponse)

  /** Answers of the external contracts consulted during one call. */
  datatype Oracle = Oracle(
    fdcAccepts: bool, teeRegistryConfigured: bool, activeTees: seq<Address>,
    senderConfigured: bool, senderExtensionId: nat, instruction: Option<Bytes32>)

  /** The entry points that move no value out of the contract. */
  datatype Call =
    | CreatePolicy(params: CreateParams)
    | FundPolicy(policyId: Bytes32)
    | RequestProof(policyId: Bytes32, reference: Bytes32)
    | SubmitEvmProof(policyId: Bytes32, proof: EvmProof)
    | SendComputationInstruction(policyId: Bytes32, inputHash: Bytes32, message: seq<Bytes32>)
    | AuthenticateActionResult(result: SettlementResult, actionId: Bytes32, tag: string, actionStatus: uint8,
                               signature: Signature)
    | CancelPolicy(policyId: Bytes32)

  /** Who can call the contract: not the zero address, and not the contract, which never calls itself. */
  predicate Caller(c: Chain, sender: Address) { sender != ZERO_ADDRESS && sender != c.self }

  function OwnerFault(s: Core, m: Msg, id: Bytes32): Option<Error>
  {
    if id !in s.policies then Some(PolicyMissing)
    else if s.policies[id].owner != m.sender then Some(Unauthorized)
    else None
  }

  /** The guards of an owner-only call that also demands a status and an unexpired policy. */
  function StageFault(s: Core, m: Msg, id: Bytes32, expected: Status): Option<Error>
  {
    var fault := OwnerFault(s, m, id);
    if fault.Some? then fault
    else if s.policies[id].status != expected then Some(InvalidState)
    else if m.now >= s.policies[id].expiry then Some(PolicyExpired)
    else None
  }

  function ParticipantHash(q: CreateParams): Bytes32 { Keccak(Participants(q.recipients, q.sharesBps)) }

  function PolicyIdOf(c: Chain, owner: Address, nonce: nat, q: CreateParams): Bytes32
  {
    Keccak(PolicyKey(c.chainId, owner, nonce, q.salt, q.ruleHash, q.paymentReferenceHash, ParticipantHash(q),
                     q.targetAmount, q.expiry))
  }

  function NewPolicy(owner: Address, q: CreateParams, at: nat): Policy
  {
    Policy(owner, ToUint64(at), q.expiry, 0, 0, 0, 0, 0, q.targetAmount, 0, 0, q.ruleHash, q.paymentReferenceHash,
           ParticipantHash(q), ZERO, ZERO, ZERO, ZERO, ZERO, Draft)
  }

  function Create(c: Chain, s: Core, m: Msg, q: CreateParams): Outcome<Core>
  {
    var fault := ParticipantRules.ParticipantFault(q.recipients, q.sharesBps);
    var nonce := NonceOf(s, m.sender);
    var id := PolicyIdOf(c, m.sender, nonce, q);
    if m.value != 0 then Revert(NonPayable)
    else if fault.Some? then Revert(fault.value)
    else if q.ruleHash == ZERO || q.paymentReferenceHash == ZERO then Revert(ResultMismatch)
    else if q.targetAmount == 0 then Revert(InvalidAmount)
    else if q.expiry <= m.now then Revert(InvalidExpiry)
    else if nonce + 1 >= TWO_256 then Revert(Overflow)
    else if id in s.policies then Revert(PolicyExists)
    else
      Ok(Put(s, id, NewPolicy(m.sender, q, m.now), Created(m.sender, nonce, q, m.now)).(
           recipients := s.recipients[id := q.recipients], shares := s.shares[id := q.sharesBps],
           ownerNonces := s.ownerNonces[m.sender := nonce + 1]))
  }

  function Fund(s: Core, m: Msg, id: Bytes32): Outcome<Core>
  {
    if id !in s.policies then Revert(PolicyMissing)
    else
      var p := s.policies[id];
      if p.status != Draft && p.status != Funded then Revert(InvalidState)
      else if m.now >= p.expiry then Revert(PolicyExpired)
      else if m.value == 0 then Revert(InvalidAmount)
      else if p.fundedAmount + m.value >= TWO_256 then Revert(Overflow)
      else if p.fundedAmount + m.value > p.targetAmount then Revert(InvalidAmount)
      else
        var funded := p.fundedAmount + ToUint128(m.value);
        if funded >= TWO_128 then Revert(Overflow)
        else
          Ok(Put(s, id, p.(fundedAmount := funded, status := if funded == p.targetAmount then Funded else p.status),
                 Deposited(m.sender, m.value, m.now)).(balance := s.balance + m.value))
  }

  function AskProof(s: Core, m: Msg, id: Bytes32, reference: Bytes32): Outcome<Core>
  {
    var fault := StageFault(s, m, id, Funded);
    if m.value != 0 then Revert(NonPayable)
    else if fault.Some? then Revert(fault.value)
    else if reference == ZERO then Revert(ResultMismatch)
    else Ok(Put(s, id, s.policies[id].(status := ProofRequested, proofRequestedAt := ToUint64(m.now)),
                ProofAsked(reference, m.now)))
  }

  function SubmitProof(s: Core, m: Msg, o: Oracle, id: Bytes32, proof: EvmProof): Outcome<Core>
  {
    var fault := StageFault(s, m, id, ProofRequested);
    var digest := Keccak(Response(proof.data));
    if m.value != 0 then Revert(NonPayable)
    else if fault.Some? then Revert(fault.value)
    else if !o.fdcAccepts then Revert(ProofInvalid)
    else if digest in s.usedProofDigests then Revert(ProofReplayed)
    else if proof.data.transactionHash == ZERO || proof.data.status != 1 then Revert(ProofInvalid)
    else if proof.data.value < s.policies[id].targetAmount then Revert(InvalidAmount)
    else
      Ok(Put(s, id, s.policies[id].(externalProofDigest := digest, sourceTransactionHash := proof.data.transactionHash,
                                    proofVerifiedAt := ToUint64(m.now), status := ProofVerified),
             ProofAccepted(proof.data, m.now)).(usedProofDigests := s.usedProofDigests + {digest}))
  }

  /** The attached value goes straight on to the instruction sender, so the balance does not change. */
  function AskComputation(s: Core, m: Msg, o: Oracle, id: Bytes32, inputHash: Bytes32,
                          message: seq<Bytes32>): Outcome<Core>
  {
    var fault := StageFault(s, m, id, ProofVerified);
    if fault.Some? then Revert(fault.value)
    else if !o.senderConfigured || o.senderExtensionId == 0 || inputHash == ZERO || |message| == 0
      then Revert(ResultMismatch)
    else if o.instruction.None? then Revert(InstructionRejected)
    else if s.policies[id].resultNonce + 1 >= TWO_64 then Revert(Overflow)
    else
      var p := s.policies[id];
      Ok(Put(s, id, p.(privateInputHash := inputHash, computationReference := o.instruction.value,
                       resultNonce := p.resultNonce + 1, status := ComputationRequested),
             ComputationAsked(inputHash, o.instruction.value, m.now)))
  }

  /** The digest a TEE signs: the result, its action id, submission tag and status, bound to the chain. */
  function SigningDigest(c: Chain, result: SettlementResult, actionId: Bytes32, tag: string,
                         actionStatus: uint8): Bytes32
  {
    var resultHash := Keccak(ActionResult(Keccak(EncodedResult(result)), actionId, Keccak(SubmissionTag(tag)),
                                          actionStatus));
    Keccak(EthSigned(Keccak(TeePayload(c.chainId, resultHash))))
  }

  function RecoverSigner(c: Chain, digest: Bytes32, signature: Signature): Outcome<Address>
  {
    if signature.length != 65 then Revert(InvalidActionResultSignature)
    else
      var v := if signature.v < 27 then signature.v + 27 else signature.v;
      if v != 27 && v != 28 then Revert(InvalidActionResultSignature)
      else
        var signer := c.ecrecover(digest, v, signature.r, signature.s);
        if signer == ZERO_ADDRESS then Revert(InvalidActionResultSignature) else Ok(signer)
  }

  /** The signature over the result, as the successful action its policy asked for, recovers to an active TEE. */
  predicate Attested(c: Chain, r: SettlementResult, att: Attestation)
  {
    && RecoverSigner(c, SigningDigest(c, r, r.computationReference, att.tag, 1), att.signature) == Ok(att.signer)
    && att.signer in att.teeIds
  }

  function TeeFault(activeTees: seq<Address>, signer: Address): Option<Error>
  {
    if |activeTees| == 0 then Some(TeeRegistryUnavailable)
    else if signer !in activeTees then Some(InvalidActionResultSignature)
    else None
  }

  /** The contract's loop over a result's amounts from index `i`: the running total, or the first revert. */
  function TotalFrom(recipients: seq<Address>, stored: seq<Address>, amounts: seq<uint256>, i: nat,
                     sum: nat): Outcome<nat>
    requires i <= |amounts| == |recipients|
    decreases |amounts| - i
  {
    if i == |amounts| then Ok(sum)
    else if i >= |stored| then Revert(IndexOutOfRange)
    else if recipients[i] != stored[i] || amounts[i] == 0 then Revert(ResultMismatch)
    else if sum + amounts[i] >= TWO_256 then Revert(Overflow)
    else TotalFrom(recipients, stored, amounts, i + 1, sum + amounts[i])
  }

  function ResultDigest(c: Chain, result: SettlementResult): Bytes32 { Keccak(ResultKey(c.chainId, c.self, result)) }

  /** Every check of `_authenticateResult` before the result digest is looked up. */
  function ResultFault(s: Core, m: Msg, r: SettlementResult): Option<Error>
  {
    if r.policyId !in s.policies then Some(PolicyMissing)
    else
      var p := s.policies[r.policyId];
      if p.status != ComputationRequested then Some(InvalidState)
      else if m.now >= p.expiry then Some(PolicyExpired)
      else if r.expiry > p.expiry || r.expiry <= m.now then Some(InvalidExpiry)
      else if r.nonce != p.resultNonce then Some(NonceMismatch)
      else if r.externalProofDigest != p.externalProofDigest || r.privateInputHash != p.privateInputHash
              || r.computationReference != p.computationReference then Some(ResultMismatch)
      else if Keccak(Participants(r.recipients, SharesOf(s, r.policyId))) != p.participantHash then Some(ResultMismatch)
      else if |r.recipients| != |r.amounts| || |r.recipients| == 0 then Some(InvalidParticipants)
      else if r.total != p.targetAmount || r.total != p.fundedAmount then Some(InvalidAmount)
      else
        var sum := TotalFrom(r.recipients, RecipientsOf(s, r.policyId), r.amounts, 0, 0);
        if sum.Revert? then Some(sum.error)
        else if sum.value != r.total then Some(InvalidAmount)
        else None
  }

  function AcceptResult(c: Chain, s: Core, m: Msg, r: SettlementResult, att: Attestation): Outcome<Core>
  {
    var fault := ResultFault(s, m, r);
    var digest := ResultDigest(c, r);
    if fault.Some? then Revert(fault.value)
    else if digest in s.usedResultDigests then Revert(ResultReplayed)
    else
      Ok(Put(s, r.policyId,
             s.policies[r.policyId].(resultDigest := digest, resultAuthenticatedAt := ToUint64(m.now),
                                     status := ReadyToSettle),
             ResultAccepted(r, att, m.now)).(usedResultDigests := s.usedResultDigests + {digest}))
  }

  function Authenticate(c: Chain, s: Core, m: Msg, o: Oracle, r: SettlementResult, actionId: Bytes32, tag: string,
                        actionStatus: uint8, signature: Signature): Outcome<Core>
  {
    if m.value != 0 then Revert(NonPayable)
    else if !o.teeRegistryConfigured then Revert(TeeRegistryUnavailable)
    else if actionStatus != 1 then Revert(InvalidActionResultStatus)
    else if actionId != r.computationReference then Revert(ResultMismatch)
    else
      var signer := RecoverSigner(c, SigningDigest(c, r, actionId, tag, actionStatus), signature);
      if signer.Revert? then Revert(signer.error)
      else
        var fault := TeeFault(o.activeTees, signer.value);
        if fault.Some? then Revert(fault.value)
        else AcceptResult(c, s, m, r, Attestation(tag, signature, signer.value, o.activeTees))
  }

  function Cancel(s: Core, m: Msg, id: Bytes32): Outcome<Core>
  {
    var fault := OwnerFault(s, m, id);
    if m.value != 0 then Revert(NonPayable)
    else if fault.Some? then Revert(fault.value)
    else if s.policies[id].status !in {Draft, Funded, ProofRequested} then Revert(CancellationUnavailable)
    else Ok(Put(s, id, s.policies[id].(status := Cancelled), Withdrawn(m.now)))
  }

  function Execute(c: Chain, s: Core, m: Msg, o: Oracle, call: Call): Outcome<Core>
  {
    match call
    case CreatePolicy(q) => Create(c, s, m, q)
    case FundPolicy(id) => Fund(s, m, id)
    case RequestProof(id, reference) => AskProof(s, m, id, reference)
    case SubmitEvmProof(id, proof) => SubmitProof(s, m, o, id, proof)
    case SendComputationInstruction(id, inputHash, message) => AskComputation(s, m, o, id, inputHash, message)
    case AuthenticateActionResult(r, actionId, tag, actionStatus, signature) =>
      Authenticate(c, s, m, o, r, actionId, tag, actionStatus, signature)
    case CancelPolicy(id) => Cancel(s, m, id)
  }

  /** The policy a call is about; for a creation, the id it will get. */
  function Subject(c: Chain, s: Core, m: Msg, call: Call): Bytes32
  {
    match call
    case CreatePolicy(q) => PolicyIdOf(c, m.sender, NonceOf(s, m.sender), q)
    case AuthenticateActionResult(r, _, _, _, _) => r.policyId
    case FundPolicy(id) => id
    case RequestProof(id, _) => id
    case SubmitEvmProof(id, _) => id
    case SendComputationInstruction(id, _, _) => id
    case CancelPolicy(id) => id
  }

  /** The transfers `settle` will attempt, in order: recipient `i` gets amount `i`. */
  function Payouts(recipients: seq<Address>, amounts: seq<uint256>): seq<Payment>
  {
    if |recipients| == 0 || |amounts| == 0 then []
    else [Payment(recipients[0], amounts[0])] + Payouts(recipients[1..], amounts[1..])
  }

  /** `settle` up to its first transfer. */
  function BeginSettle(c: Chain, s: Core, m: Msg, r: SettlementResult): Outcome<Core>
  {
    var fault := StageFault(s, m, r.policyId, ReadyToSettle);
    if m.value != 0 then Revert(NonPayable)
    else if fault.Some? then Revert(fault.value)
    else if ResultDigest(c, r) != s.policies[r.policyId].resultDigest then Revert(ResultMismatch)
    else
      Ok(Put(s, r.policyId,
             s.policies[r.policyId].(status := Settled, settledAt := ToUint64(m.now),
                                     settledAmount := ToUint128(r.total), fundedAmount := 0),
             PayoutBegun(m.now)))
  }

  predicate Refundable(p: Policy, now: nat)
  {
    p.status == Cancelled || (now >= p.expiry && p.status != Settled && p.status != Refunded)
  }

  /** `refundPolicy` up to its transfer of the whole escrow to the owner. */
  function BeginRefund(s: Core, m: Msg, id: Bytes32): Outcome<Core>
  {
    var fault := OwnerFault(s, m, id);
    if m.value != 0 then Revert(NonPayable)
    else if fault.Some? then Revert(fault.value)
    else if !Refundable(s.policies[id], m.now) then Revert(CancellationUnavailable)
    else if s.policies[id].fundedAmount == 0 then Revert(InvalidAmount)
    else Ok(Put(s, id, s.policies[id].(fundedAmount := 0, status := Refunded), RefundBegun(m.now)))
  }
}
