/**
 * The protocol's lifecycle of one policy, as an automaton over unbounded integers: `Apply` says which
 * history entries may follow which state, `Replay` folds a whole history. Facts about single policies
 * are proved here by induction over histories, with no contract storage in sight.
 */
module Lifecycle {
  import opened Evm
  import ParticipantRules
  import opened Protocol

  /**
   * What a history determines: the policy's record, its terms and creation nonce, the accepted result,
   * the transfers made and still owed, the amount refunded, and the time of the latest entry.
   */
  datatype Account = Account(
    policy: Policy, terms: CreateParams, ownerNonce: nat, result: Option<SettlementResult>,
    paid: seq<Payment>, due: seq<Payment>, refunded: nat, clock: nat)

  predicate ValidTerms(q: CreateParams)
  {
    && ParticipantRules.ValidParticipants(q.recipients, q.sharesBps)
    && q.ruleHash != ZERO && q.paymentReferenceHash != ZERO && q.targetAmount > 0
  }

  /** The result fits the policy: its commitments, its recipients in order, positive amounts summing to the target. */
  predicate FitsPolicy(id: Bytes32, p: Policy, terms: CreateParams, r: SettlementResult)
  {
    && r.policyId == id && r.nonce == p.resultNonce && r.expiry <= p.expiry
    && r.externalProofDigest == p.externalProofDigest && r.privateInputHash == p.privateInputHash
    && r.computationReference == p.computationReference
    && r.recipients == terms.recipients && |r.amounts| == |r.recipients|
    && (forall i :: 0 <= i < |r.amounts| ==> r.amounts[i] > 0)
    && Sum(r.amounts) == r.total == p.targetAmount
  }

  function Apply(c: Chain, id: Bytes32, before: Option<Account>, e: Entry): Option<Account>
  {
    match before
    case None =>
      (match e
       case Created(owner, nonce, q, at) =>
         if Caller(c, owner) && ValidTerms(q) && at < q.expiry && id == PolicyIdOf(c, owner, nonce, q)
         then Some(Account(NewPolicy(owner, q, at), q, nonce, None, [], [], 0, at))
         else None
       case _ => None)
    case Some(a) =>
      var p := a.policy;
      match e
      case Created(_, _, _, _) => None
      case Deposited(_, value, at) =>
        if (p.status == Draft || p.status == Funded) && a.clock <= at < p.expiry && value > 0
           && p.fundedAmount + value <= p.targetAmount
        then
          var funded := p.fundedAmount + value;
          Some(a.(policy := p.(fundedAmount := funded, status := if funded == p.targetAmount then Funded else p.status),
                  clock := at))
        else None
      case ProofAsked(reference, at) =>
        if p.status == Funded && a.clock <= at < p.expiry && reference != ZERO
        then Some(a.(policy := p.(status := ProofRequested, proofRequestedAt := at), clock := at))
        else None
      case ProofAccepted(data, at) =>
        if p.status == ProofRequested && a.clock <= at < p.expiry && data.transactionHash != ZERO && data.status == 1
           && data.value >= p.targetAmount
        then Some(a.(policy := p.(externalProofDigest := Keccak(Response(data)),
                                  sourceTransactionHash := data.transactionHash, proofVerifiedAt := at,
                                  status := ProofVerified),
                     clock := at))
        else None
      case ComputationAsked(inputHash, instructionId, at) =>
        if p.status == ProofVerified && a.clock <= at < p.expiry && inputHash != ZERO && p.resultNonce == 0
        then Some(a.(policy := p.(privateInputHash := inputHash, computationReference := instructionId,
                                  resultNonce := 1, status := ComputationRequested),
                     clock := at))
        else None
      case ResultAccepted(r, att, at) =>
        if p.status == ComputationRequested && a.clock <= at < r.expiry && FitsPolicy(id, p, a.terms, r)
           && Attested(c, r, att)
        then Some(a.(policy := p.(resultDigest := ResultDigest(c, r), resultAuthenticatedAt := at,
                                  status := ReadyToSettle),
                     result := Some(r), clock := at))
        else None
      case PayoutBegun(at) =>
        if p.status == ReadyToSettle && a.clock <= at < p.expiry && a.result.Some?
        then Some(a.(policy := p.(status := Settled, settledAt := at, settledAmount := p.fundedAmount,
                                  fundedAmount := 0),
                     due := Payouts(a.result.value.recipients, a.result.value.amounts), clock := at))
        else None
      case Paid(payment) =>
        if a.due != [] && payment == a.due[0] && payment.to != c.self
        then Some(a.(paid := a.paid + [payment], due := a.due[1..]))
        else None
      case Withdrawn(at) =>
        if p.status in {Draft, Funded, ProofRequested} && a.clock <= at
        then Some(a.(policy := p.(status := Cancelled), clock := at))
        else None
      case RefundBegun(at) =>
        if Refundable(p, at) && a.clock <= at && p.fundedAmount > 0
        then Some(a.(policy := p.(fundedAmount := 0, status := Refunded), due := [Payment(p.owner, p.fundedAmount)],
                     refunded := p.fundedAmount, clock := at))
        else None
  }

  function Replay(c: Chain, id: Bytes32, trail: seq<Entry>): Option<Account>
  {
    if |trail| == 0 then None else
    var before := Replay(c, id, trail[..|trail| - 1]);
    if |trail| > 1 && before.None? then None else Apply(c, id, before, trail[|trail| - 1])
  }

  // ---- What every history keeps ----

  /** The record agrees with the terms it was created from, and with its id. */
  predicate TermsKept(c: Chain, id: Bytes32, a: Account)
  {
    var p, q := a.policy, a.terms;
    && Caller(c, p.owner) && ValidTerms(q) && id == PolicyIdOf(c, p.owner, a.ownerNonce, q)
    && p.expiry == q.expiry && p.targetAmount == q.targetAmount && p.ruleHash == q.ruleHash
    && p.paymentReferenceHash == q.paymentReferenceHash && p.participantHash == ParticipantHash(q)
    && p.createdAt < p.expiry
  }

  /** Escrow, settled amount and transfers, by status. */
  predicate MoneyByStatus(a: Account)
  {
    var p := a.policy;
    match p.status
    case Draft => p.fundedAmount < p.targetAmount && p.settledAmount == a.refunded == 0 && a.paid == a.due == []
    case Cancelled => p.fundedAmount <= p.targetAmount && p.settledAmount == a.refunded == 0 && a.paid == a.due == []
    case Settled =>
      && p.fundedAmount == 0 && p.settledAmount == p.targetAmount && a.refunded == 0 && a.result.Some?
      && a.paid + a.due == Payouts(a.result.value.recipients, a.result.value.amounts)
    case Refunded =>
      && p.fundedAmount == p.settledAmount == 0 && 0 < a.refunded <= p.targetAmount
      && a.paid + a.due == [Payment(p.owner, a.refunded)]
    case _ => p.fundedAmount == p.targetAmount && p.settledAmount == a.refunded == 0 && a.paid == a.due == []
  }

  /** How far a status is along the path to settlement; a refunded policy may have stopped anywhere. */
  function Stage(s: Status): nat
  {
    match s
    case Draft => 0 case Funded => 1 case ProofRequested => 2 case ProofVerified => 3 case ComputationRequested => 4
    case ResultAuthenticated => 5 case ReadyToSettle => 6 case Settled => 7 case Cancelled => 8 case Refunded => 9
  }

  predicate Reached(p: Policy, stage: nat) { p.status != Cancelled && p.status != Refunded && Stage(p.status) >= stage }

  predicate NotReached(p: Policy, stage: nat) { p.status == Cancelled || Stage(p.status) < stage }

  /** Proof, computation and result fields are set exactly from their stage on; the nonce is 0, then 1 for ever. */
  predicate EvidenceByStatus(c: Chain, id: Bytes32, a: Account)
  {
    var p := a.policy;
    && p.status != ResultAuthenticated
    && (Reached(p, 3) ==> p.externalProofDigest != ZERO)
    && (NotReached(p, 3) ==> p.externalProofDigest == ZERO)
    && (Reached(p, 3) ==> p.sourceTransactionHash != ZERO)
    && (NotReached(p, 3) ==> p.sourceTransactionHash == ZERO)
    && (Reached(p, 4) ==> p.privateInputHash != ZERO)
    && (NotReached(p, 4) ==> p.privateInputHash == ZERO && p.computationReference == ZERO)
    && (Reached(p, 4) ==> p.resultNonce == 1)
    && (NotReached(p, 4) ==> p.resultNonce == 0)
    && p.resultNonce <= 1
    && (Reached(p, 6) ==> a.result.Some?)
    && (NotReached(p, 6) ==> a.result.None?)
    && (a.result.None? <==> p.resultDigest == ZERO)
    && (a.result.Some? ==>
          p.resultNonce == 1 && p.resultDigest == ResultDigest(c, a.result.value)
            && FitsPolicy(id, p, a.terms, a.result.value))
  }

  /** Time stamps never run backwards, and progress stops at expiry. */
  predicate StampsInOrder(a: Account)
  {
    var p := a.policy;
    && p.createdAt <= a.clock
    && (Stage(p.status) < 2 ==> p.proofRequestedAt == 0)
    && (NotReached(p, 3) ==> p.proofVerifiedAt == 0)
    && (NotReached(p, 6) ==> p.resultAuthenticatedAt == 0)
    && (p.status != Settled ==> p.settledAt == 0)
    && (Reached(p, 2) ==> p.createdAt <= p.proofRequestedAt <= a.clock && p.proofRequestedAt < p.expiry)
    && (Reached(p, 3) ==> p.proofRequestedAt <= p.proofVerifiedAt <= a.clock && p.proofVerifiedAt < p.expiry)
    && (Reached(p, 6) ==>
          && a.result.Some? && p.proofVerifiedAt <= p.resultAuthenticatedAt <= a.clock
          && p.resultAuthenticatedAt < p.expiry && p.resultAuthenticatedAt < a.result.value.expiry)
    && (Reached(p, 7) ==> p.resultAuthenticatedAt <= p.settledAt <= a.clock && p.settledAt < p.expiry)
  }

  /** No transfer ever reached the contract's own address. */
  predicate PaidElsewhere(c: Chain, a: Account)
  {
    forall i :: 0 <= i < |a.paid| ==> a.paid[i].to != c.self
  }

  predicate WellKept(c: Chain, id: Bytes32, a: Account)
  {
    TermsKept(c, id, a) && MoneyByStatus(a) && EvidenceByStatus(c, id, a) && StampsInOrder(a) && PaidElsewhere(c, a)
  }

  lemma {:induction false} ApplyKeepsTerms(c: Chain, id: Bytes32, before: Option<Account>, e: Entry)
    requires before.Some? ==> TermsKept(c, id, before.value)
    requires Apply(c, id, before, e).Some?
    ensures TermsKept(c, id, Apply(c, id, before, e).value)
  {
    if before.Some? {
      var a, a' := before.value, Apply(c, id, before, e).value;
      assert a'.terms == a.terms && a'.ownerNonce == a.ownerNonce && a'.policy.owner == a.policy.owner;
    }
  }

  lemma {:induction false} ApplyKeepsMoney(c: Chain, id: Bytes32, before: Option<Account>, e: Entry)
    requires before.Some? ==> TermsKept(c, id, before.value) && MoneyByStatus(before.value)
    requires Apply(c, id, before, e).Some?
    ensures MoneyByStatus(Apply(c, id, before, e).value)
  {
    if e.Paid? {
      var a := before.value;
      assert a.paid + a.due == (a.paid + [a.due[0]]) + a.due[1..];
    }
  }

  lemma {:induction false} ApplyKeepsEvidence(c: Chain, id: Bytes32, before: Option<Account>, e: Entry)
    requires before.Some? ==> EvidenceByStatus(c, id, before.value)
    requires Apply(c, id, before, e).Some?
    ensures EvidenceByStatus(c, id, Apply(c, id, before, e).value)
  {
    hide ValidTerms, PolicyIdOf, ParticipantHash, Payouts;
  }

  lemma {:induction false} ApplyKeepsStamps(c: Chain, id: Bytes32, before: Option<Account>, e: Entry)
    requires before.Some? ==> TermsKept(c, id, before.value) && StampsInOrder(before.value)
    requires Apply(c, id, before, e).Some?
    ensures StampsInOrder(Apply(c, id, before, e).value)
  {
    hide ValidTerms, PolicyIdOf, ParticipantHash, Payouts;
  }

  lemma {:induction false} ApplyKeeps(c: Chain, id: Bytes32, before: Option<Account>, e: Entry)
    requires before.Some? ==> WellKept(c, id, before.value)
    requires Apply(c, id, before, e).Some?
    ensures WellKept(c, id, Apply(c, id, before, e).value)
  {
    ApplyKeepsTerms(c, id, before, e);
    ApplyKeepsMoney(c, id, before, e);
    ApplyKeepsEvidence(c, id, before, e);
    ApplyKeepsStamps(c, id, before, e);
  }

  /** Any history that replays leaves a well-kept account. */
  lemma {:induction false} ReplayKeeps(c: Chain, id: Bytes32, trail: seq<Entry>)
    requires Replay(c, id, trail).Some?
    ensures WellKept(c, id, Replay(c, id, trail).value)
  {
    var k := |trail| - 1;
    var before := Replay(c, id, trail[..k]);
    if before.Some? {
      ReplayKeeps(c, id, trail[..k]);
    }
    ApplyKeeps(c, id, before, trail[k]);
  }
}
