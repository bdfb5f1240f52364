/** Every rejection tells the truth: what the error of a refused call says about the call and the storage. */
module Rejections {
  import opened Evm
  import opened Protocol
  import ParticipantRules

  /** The statuses in which the code lets a call go on. */
  function Stages(call: Call): set<Status>
  {
    match call
    case CreatePolicy(_) => {}
    case FundPolicy(_) => {Draft, Funded}
    case RequestProof(_, _) => {Funded}
    case SubmitEvmProof(_, _) => {ProofRequested}
    case SendComputationInstruction(_, _, _) => {ProofVerified}
    case AuthenticateActionResult(_, _, _, _, _) => {ComputationRequested}
    case CancelPolicy(_) => {Draft, Funded, ProofRequested}
  }

  /** Calls that only the owner of the policy may make. */
  predicate OwnerOnly(call: Call) { !call.CreatePolicy? && !call.FundPolicy? && !call.AuthenticateActionResult? }

  predicate Payable(call: Call) { call.FundPolicy? || call.SendComputationInstruction? }

  // ---- Reasons of the single errors that several calls share ----

  predicate BadTerms(q: CreateParams, error: Error)
  {
    var xs, shares := q.recipients, q.sharesBps;
    match error
    case InvalidParticipants => |xs| == 0 || |xs| > 32 || |xs| != |shares|
    case InvalidAddress => ZERO_ADDRESS in xs
    case InvalidShares => 0 in shares || Sum(shares) != 10_000
    case DuplicateRecipient => exists i, j :: 0 <= j < i < |xs| && xs[i] == xs[j]
    case ResultMismatch => q.ruleHash == ZERO || q.paymentReferenceHash == ZERO
    case InvalidAmount => q.targetAmount == 0
    case _ => false
  }

  predicate BadAmount(p: Policy, m: Msg, call: Call)
  {
    match call
    case FundPolicy(_) => m.value == 0 || p.fundedAmount + m.value > p.targetAmount
    case SubmitEvmProof(_, proof) => proof.data.value < p.targetAmount
    case AuthenticateActionResult(r, _, _, _, _) =>
      r.total != p.targetAmount || r.total != p.fundedAmount || Sum(r.amounts) != r.total
    case _ => false
  }

  predicate Mismatch(s: Core, o: Oracle, call: Call)
  {
    match call
    case RequestProof(_, reference) => reference == ZERO
    case SendComputationInstruction(_, inputHash, message) =>
      !o.senderConfigured || o.senderExtensionId == 0 || inputHash == ZERO || message == []
    case AuthenticateActionResult(r, actionId, _, _, _) =>
      || actionId != r.computationReference
      || (r.policyId in s.policies && Deviates(s, s.policies[r.policyId], r))
    case _ => false
  }

  /** The result differs from what was asked in a commitment or a recipient, or leaves a recipient without anything. */
  predicate Deviates(s: Core, p: Policy, r: SettlementResult)
  {
    || r.externalProofDigest != p.externalProofDigest || r.privateInputHash != p.privateInputHash
    || r.computationReference != p.computationReference
    || Keccak(Participants(r.recipients, SharesOf(s, r.policyId))) != p.participantHash
    || r.recipients != RecipientsOf(s, r.policyId) || 0 in r.amounts
  }

  predicate TooMuch(s: Core, m: Msg, call: Call)
  {
    match call
    case CreatePolicy(_) => NonceOf(s, m.sender) + 1 >= TWO_256
    case FundPolicy(id) => id in s.policies && s.policies[id].fundedAmount + m.value >= TWO_128
    case SendComputationInstruction(id, _, _) => id in s.policies && s.policies[id].resultNonce + 1 >= TWO_64
    case AuthenticateActionResult(r, _, _, _, _) => Sum(r.amounts) >= TWO_256
    case _ => false
  }

  /** What `error` asserts when `call` is rejected with it. */
  predicate Because(c: Chain, s: Core, m: Msg, o: Oracle, call: Call, error: Error)
  {
    var id := Subject(c, s, m, call);
    var known := id in s.policies;
    (call.CreatePolicy? && BadTerms(call.params, error)) ||
    match error
    case NonPayable => m.value > 0 && !Payable(call)
    case PolicyExists => call.CreatePolicy? && known
    case PolicyMissing => !call.CreatePolicy? && !known
    case Unauthorized => OwnerOnly(call) && known && s.policies[id].owner != m.sender
    case InvalidState => !call.CreatePolicy? && !call.CancelPolicy? && known && s.policies[id].status !in Stages(call)
    case CancellationUnavailable => call.CancelPolicy? && known && s.policies[id].status !in Stages(call)
    case PolicyExpired => !call.CreatePolicy? && !call.CancelPolicy? && known && m.now >= s.policies[id].expiry
    case InvalidExpiry =>
      || (call.CreatePolicy? && call.params.expiry <= m.now)
      || (call.AuthenticateActionResult? && known
          && (call.result.expiry > s.policies[id].expiry || call.result.expiry <= m.now))
    case InvalidParticipants =>
      && call.AuthenticateActionResult?
      && (|call.result.recipients| != |call.result.amounts| || call.result.recipients == [])
    case InvalidAmount => known && BadAmount(s.policies[id], m, call)
    case ResultMismatch => Mismatch(s, o, call)
    case ProofInvalid =>
      && call.SubmitEvmProof?
      && (!o.fdcAccepts || call.proof.data.transactionHash == ZERO || call.proof.data.status != 1)
    case ProofReplayed => call.SubmitEvmProof? && Keccak(Response(call.proof.data)) in s.usedProofDigests
    case ResultReplayed => call.AuthenticateActionResult? && ResultDigest(c, call.result) in s.usedResultDigests
    case NonceMismatch => call.AuthenticateActionResult? && known && call.result.nonce != s.policies[id].resultNonce
    case InvalidActionResultStatus => call.AuthenticateActionResult? && call.actionStatus != 1
    case TeeRegistryUnavailable => call.AuthenticateActionResult? && (!o.teeRegistryConfigured || o.activeTees == [])
    case InvalidActionResultSignature =>
      && call.AuthenticateActionResult?
      && var digest := SigningDigest(c, call.result, call.actionId, call.tag, call.actionStatus);
         var signer := RecoverSigner(c, digest, call.signature);
         signer.Revert? || signer.value !in o.activeTees
    case InstructionRejected => call.SendComputationInstruction? && o.instruction.None?
    case Overflow => TooMuch(s, m, call)
    case IndexOutOfRange =>
      call.AuthenticateActionResult? && |call.result.amounts| > |RecipientsOf(s, call.result.policyId)|
    case _ => false
  }

  // ---- The loops ----

  lemma {:induction false} EntriesTellTruth(xs: seq<Address>, shares: seq<uint16>, i: nat)
    requires i <= |xs| == |shares|
    ensures var fault := ParticipantRules.FaultFrom(xs, shares, i);
            fault.Some? ==>
              match fault.value
              case InvalidAddress => ZERO_ADDRESS in xs
              case InvalidShares => 0 in shares || Sum(shares) != 10_000
              case DuplicateRecipient => exists k, j :: 0 <= j < k < |xs| && xs[k] == xs[j]
              case _ => false
    decreases |xs| - i
  {
    if i < |xs| {
      EntriesTellTruth(xs, shares, i + 1);
      if xs[i] in xs[..i] {
        var j :| 0 <= j < i && xs[..i][j] == xs[i];
        assert xs[i] == xs[j];
      }
    }
  }

  lemma {:induction false} TotalTellsTruth(xs: seq<Address>, stored: seq<Address>, amounts: seq<uint256>, i: nat)
    requires i <= |amounts| == |xs|
    ensures var t := TotalFrom(xs, stored, amounts, i, Sum(amounts[..i]));
            if t.Ok? then t.value == Sum(amounts)
            else
              match t.error
              case IndexOutOfRange => |amounts| > |stored|
              case ResultMismatch => xs != stored || 0 in amounts
              case Overflow => Sum(amounts) >= TWO_256
              case _ => false
    decreases |amounts| - i
  {
    if i == |amounts| {
      assert amounts[..i] == amounts;
    } else {
      SumPrefix(amounts, i);
      SumMonotone(amounts, i + 1);
      TotalTellsTruth(xs, stored, amounts, i + 1);
    }
  }

  // ---- The calls ----

  lemma CreateTellsTruth(c: Chain, s: Core, m: Msg, o: Oracle, q: CreateParams)
    requires Create(c, s, m, q).Revert?
    ensures Because(c, s, m, o, CreatePolicy(q), Create(c, s, m, q).error)
  {
    hide PolicyIdOf, ParticipantHash;
    if |q.recipients| == |q.sharesBps| { EntriesTellTruth(q.recipients, q.sharesBps, 0); }
  }

  lemma ResultTellsTruth(c: Chain, s: Core, m: Msg, o: Oracle, call: Call)
    requires call.AuthenticateActionResult? && ResultFault(s, m, call.result).Some?
    ensures Because(c, s, m, o, call, ResultFault(s, m, call.result).value)
  {
    hide TotalFrom, SigningDigest, RecoverSigner, ResultDigest;
    var r := call.result;
    if |r.recipients| == |r.amounts| {
      assert r.amounts[..0] == [];
      TotalTellsTruth(r.recipients, RecipientsOf(s, r.policyId), r.amounts, 0);
    }
  }

  lemma AuthenticateTellsTruth(c: Chain, s: Core, m: Msg, o: Oracle, call: Call)
    requires call.AuthenticateActionResult? && Execute(c, s, m, o, call).Revert?
    ensures Because(c, s, m, o, call, Execute(c, s, m, o, call).error)
  {
    hide ResultFault, SigningDigest, ResultDigest;
    if ResultFault(s, m, call.result).Some? { ResultTellsTruth(c, s, m, o, call); }
  }

  lemma FundTellsTruth(c: Chain, s: Core, m: Msg, o: Oracle, id: Bytes32)
    requires Fund(s, m, id).Revert?
    ensures Because(c, s, m, o, FundPolicy(id), Fund(s, m, id).error)
  {
  }

  lemma SubmitTellsTruth(c: Chain, s: Core, m: Msg, o: Oracle, id: Bytes32, proof: EvmProof)
    requires SubmitProof(s, m, o, id, proof).Revert?
    ensures Because(c, s, m, o, SubmitEvmProof(id, proof), SubmitProof(s, m, o, id, proof).error)
  {
  }

  /** In every state, whoever calls: the error of a rejected call says something true about it. */
  lemma RejectedBecause(c: Chain, s: Core, m: Msg, o: Oracle, call: Call)
    requires Execute(c, s, m, o, call).Revert?
    ensures Because(c, s, m, o, call, Execute(c, s, m, o, call).error)
  {
    hide Create, Fund, SubmitProof, Authenticate;
    match call
    case CreatePolicy(q) => CreateTellsTruth(c, s, m, o, q);
    case FundPolicy(id) => FundTellsTruth(c, s, m, o, id);
    case SubmitEvmProof(id, proof) => SubmitTellsTruth(c, s, m, o, id, proof);
    case AuthenticateActionResult(_, _, _, _, _) => AuthenticateTellsTruth(c, s, m, o, call);
    case _ => hide ResultFault, SigningDigest, ResultDigest, RecoverSigner, Deviates, BadTerms;
  }

  /** A settlement or refund that may not begin says why. */
  lemma PayoutRejectedBecause(c: Chain, s: Core, m: Msg, r: SettlementResult, id: Bytes32)
    ensures BeginSettle(c, s, m, r).Revert? ==>
              var known := r.policyId in s.policies;
              match BeginSettle(c, s, m, r).error
              case NonPayable => m.value > 0
              case PolicyMissing => !known
              case Unauthorized => known && s.policies[r.policyId].owner != m.sender
              case InvalidState => known && s.policies[r.policyId].status != ReadyToSettle
              case PolicyExpired => known && m.now >= s.policies[r.policyId].expiry
              case ResultMismatch => known && ResultDigest(c, r) != s.policies[r.policyId].resultDigest
              case _ => false
    ensures BeginRefund(s, m, id).Revert? ==>
              var known := id in s.policies;
              match BeginRefund(s, m, id).error
              case NonPayable => m.value > 0
              case PolicyMissing => !known
              case Unauthorized => known && s.policies[id].owner != m.sender
              case CancellationUnavailable =>
                && known && s.policies[id].status != Cancelled
                && (m.now < s.policies[id].expiry || s.policies[id].status in {Settled, Refunded})
              case InvalidAmount => known && s.policies[id].fundedAmount == 0
              case _ => false
  {
    hide ResultDigest;
  }
}
