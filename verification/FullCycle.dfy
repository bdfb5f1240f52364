/** From creation to settlement: an honest cycle goes through, and pays the fair allocation. */
module FullCycle {
  import opened Evm
  import ParticipantRules
  import opened Protocol
  import opened Lifecycle
  import History
  import opened Invariant
  import opened Runs
  import opened Theorems
  import opened Allocation
  import opened AbiCodec
  import opened Extension
  import opened EndToEnd

  /** A quiet world in which policy `id` has record `p` and the vectors of `q`. */
  predicate Has(w: World, id: Bytes32, q: CreateParams, p: Policy)
  {
    && w.lock.Open? && id in w.core.policies && w.core.policies[id] == p
    && RecipientsOf(w.core, id) == q.recipients && SharesOf(w.core, id) == q.sharesBps
  }

  function Do(c: Chain, w: World, sender: Address, value: uint256, o: Oracle, call: Call): World
  {
    Step(c, w, Invoke(sender, value, o, call))
  }

  lemma CreateStep(c: Chain, w: World, owner: Address, o: Oracle, q: CreateParams)
    requires WorldInv(c, w) && w.lock.Open? && Caller(c, owner)
    requires ValidTerms(q) && w.now < q.expiry && NonceOf(w.core, owner) + 1 < TWO_256
    ensures var id := PolicyIdOf(c, owner, NonceOf(w.core, owner), q);
            var w' := Do(c, w, owner, 0, o, CreatePolicy(q));
            && Has(w', id, q, NewPolicy(owner, q, w.now)) && w'.now == w.now
            && w'.core.usedProofDigests == w.core.usedProofDigests
  {
    hide CoreInv, PolicyIdOf;
    CoreRecords(c, w.core, w.now, Quiet);
    FreshId(c, w.core, owner, q, w.now, Quiet);
    ParticipantRules.ValidationDecides(q.recipients, q.sharesBps);
  }

  lemma FundStep(c: Chain, w: World, id: Bytes32, q: CreateParams, p: Policy, o: Oracle)
    requires Has(w, id, q, p) && p.status == Draft && p.fundedAmount == 0 < p.targetAmount && w.now < p.expiry
    requires Caller(c, p.owner)
    ensures var w' := Do(c, w, p.owner, p.targetAmount, o, FundPolicy(id));
            && Has(w', id, q, p.(fundedAmount := p.targetAmount, status := Funded)) && w'.now == w.now
            && w'.core.usedProofDigests == w.core.usedProofDigests
  {
    assert ToUint128(p.targetAmount) == p.targetAmount;
  }

  lemma AskProofStep(c: Chain, w: World, id: Bytes32, q: CreateParams, p: Policy, o: Oracle, reference: Bytes32)
    requires Has(w, id, q, p) && p.status == Funded && w.now < p.expiry && reference != ZERO && Caller(c, p.owner)
    ensures var w' := Do(c, w, p.owner, 0, o, RequestProof(id, reference));
            && Has(w', id, q, p.(status := ProofRequested, proofRequestedAt := ToUint64(w.now))) && w'.now == w.now
            && w'.core.usedProofDigests == w.core.usedProofDigests
  {
  }

  predicate GoodProof(s: Core, o: Oracle, data: EvmResponse, target: nat)
  {
    && o.fdcAccepts && Keccak(Response(data)) !in s.usedProofDigests
    && data.transactionHash != ZERO && data.status == 1 && data.value >= target
  }

  lemma SubmitProofStep(c: Chain, w: World, id: Bytes32, q: CreateParams, p: Policy, o: Oracle, data: EvmResponse)
    requires Has(w, id, q, p) && p.status == ProofRequested && w.now < p.expiry && Caller(c, p.owner)
    requires GoodProof(w.core, o, data, p.targetAmount)
    ensures var w' := Do(c, w, p.owner, 0, o, SubmitEvmProof(id, EvmProof(data)));
            && Has(w', id, q, p.(externalProofDigest := Keccak(Response(data)),
                                 sourceTransactionHash := data.transactionHash, proofVerifiedAt := ToUint64(w.now),
                                 status := ProofVerified))
            && w'.now == w.now
  {
  }

  predicate GoodSender(o: Oracle) { o.senderConfigured && o.senderExtensionId > 0 && o.instruction.Some? }

  lemma AskComputationStep(c: Chain, w: World, id: Bytes32, q: CreateParams, p: Policy, o: Oracle, inputHash: Bytes32,
                           fee: uint256, message: seq<Bytes32>)
    requires Has(w, id, q, p) && p.status == ProofVerified && p.resultNonce == 0 && w.now < p.expiry
             && Caller(c, p.owner)
    requires GoodSender(o) && inputHash != ZERO && |message| > 0
    ensures var w' := Do(c, w, p.owner, fee, o, SendComputationInstruction(id, inputHash, message));
            && Has(w', id, q, p.(privateInputHash := inputHash, computationReference := o.instruction.value,
                                 resultNonce := 1, status := ComputationRequested))
            && w'.now == w.now
            && RequestFor(w'.core, id) == ScriptRequest(w.core, id, inputHash)
  {
  }

  lemma AuthenticateStep(c: Chain, w: World, id: Bytes32, q: CreateParams, p: Policy, o: Oracle, tag: string,
                         signature: Signature)
      returns (r: SettlementResult)
    requires WorldInv(c, w) && Has(w, id, q, p) && p.status == ComputationRequested && w.now < p.expiry
             && Caller(c, p.owner)
    requires |q.recipients| == |q.sharesBps| > 0 && Sum(q.sharesBps) == ParticipantRules.BPS_DENOMINATOR
    requires EveryShareCounts(p.targetAmount, q.sharesBps)
    requires GoodSignature(c, o, ResultFor(RequestFor(w.core, id), p.computationReference), tag, signature)
    ensures r == ResultFor(RequestFor(w.core, id), p.computationReference)
    ensures Encodable(RequestTuple(RequestFor(w.core, id)))
    ensures ComputedFrom(EncodeRequest(RequestFor(w.core, id)), p.computationReference) == Some(r)
    ensures var w' := Do(c, w, p.owner, 0, o, AuthenticateActionResult(r, r.computationReference, tag, 1, signature));
            && Has(w', id, q, p.(resultDigest := ResultDigest(c, r), resultAuthenticatedAt := ToUint64(w.now),
                                 status := ReadyToSettle))
            && w'.now == w.now
  {
    hide CoreInv, Compute, ResultFault, SigningDigest, RecoverSigner, ResultDigest, EveryShareCounts;
    var m := Msg(p.owner, 0, w.now);
    r := ExtensionResultAcceptedIff(c, w.core, id, m, o, tag, signature, Quiet);
  }

  /** The result the extension will compute for a policy taken through the cycle with these inputs. */
  function CycleResult(c: Chain, s: Core, owner: Address, q: CreateParams, data: EvmResponse, inputHash: Bytes32,
                       o: Oracle): SettlementResult
    requires o.instruction.Some? && |q.recipients| == |q.sharesBps| > 0
             && Sum(q.sharesBps) == ParticipantRules.BPS_DENOMINATOR
  {
    AllocationFair(q.targetAmount, q.sharesBps);
    SettlementResult(PolicyIdOf(c, owner, NonceOf(s, owner), q), Keccak(Response(data)), inputHash, o.instruction.value,
                     q.recipients, Allocate(q.targetAmount, q.sharesBps), q.targetAmount, 1, q.expiry)
  }

  lemma InvAt(c: Chain, start: uint256, actions: seq<Action>)
    ensures WorldInv(c, Run(c, Begin(start), actions))
  {
    EveryRun(c, start, actions);
  }

  /** What the cycle needs from the outside: a fresh verified proof, a configured sender, non-zero commitments. */
  predicate CanStart(c: Chain, w: World, owner: Address, q: CreateParams, reference: Bytes32, data: EvmResponse,
                     inputHash: Bytes32, o: Oracle)
  {
    && w.lock.Open? && w.now < q.expiry && NonceOf(w.core, owner) + 1 < TWO_256
    && GoodProof(w.core, o, data, q.targetAmount)
    && ValidTerms(q) && Caller(c, owner) && reference != ZERO && GoodSender(o) && inputHash != ZERO
  }

  /** The last action is the owner's computation request, carrying the script's encoding of the policy as it stood. */
  predicate EndsWithRequest(c: Chain, start: uint256, all: seq<Action>, owner: Address, id: Bytes32,
                            message: seq<Bytes32>)
  {
    && |all| > 0
    && var a, s := all[|all| - 1], Run(c, Begin(start), all[..|all| - 1]).core;
       && a.Invoke? && a.sender == owner && a.call.SendComputationInstruction? && a.call.policyId == id
       && a.call.message == message
       && id in s.policies && s.policies[id].status == ProofVerified && s.policies[id].resultNonce == 0
       && var q := ScriptRequest(s, id, a.call.inputHash);
          Encodable(RequestTuple(q)) && message == EncodeRequest(q)
  }

  /** The record of a policy that was taken to COMPUTATION_REQUESTED in one block. */
  function RequestedPolicy(owner: Address, q: CreateParams, data: EvmResponse, inputHash: Bytes32, o: Oracle,
                           now: nat): Policy
    requires o.instruction.Some?
  {
    NewPolicy(owner, q, now).(
      fundedAmount := q.targetAmount, proofRequestedAt := ToUint64(now), proofVerifiedAt := ToUint64(now),
      externalProofDigest := Keccak(Response(data)), sourceTransactionHash := data.transactionHash,
      privateInputHash := inputHash, computationReference := o.instruction.value, resultNonce := 1,
      status := ComputationRequested)
  }

  /**
   * Five calls bring any valid new policy to COMPUTATION_REQUESTED, with the script's message sent to the extension.
   */
  lemma RequestedCycle(c: Chain, start: uint256, actions: seq<Action>, owner: Address, q: CreateParams,
                       reference: Bytes32, data: EvmResponse, inputHash: Bytes32, fee: uint256, o: Oracle)
      returns (all: seq<Action>, id: Bytes32, message: seq<Bytes32>)
    requires CanStart(c, Run(c, Begin(start), actions), owner, q, reference, data, inputHash, o)
    ensures actions <= all && id == PolicyIdOf(c, owner, NonceOf(Run(c, Begin(start), actions).core, owner), q)
    ensures var w, w' := Run(c, Begin(start), actions), Run(c, Begin(start), all);
            && Has(w', id, q, RequestedPolicy(owner, q, data, inputHash, o, w.now)) && w'.now == w.now
            && EndsWithRequest(c, start, all, owner, id, message)
            && Encodable(RequestTuple(RequestFor(w'.core, id))) && message == EncodeRequest(RequestFor(w'.core, id))
  {
    hide WorldInv, Run, Step, PolicyIdOf, GoodProof, Encode;
    var w0 := Run(c, Begin(start), actions);
    id := PolicyIdOf(c, owner, NonceOf(w0.core, owner), q);
    InvAt(c, start, actions);
    CreateStep(c, w0, owner, o, q);
    var a1 := Invoke(owner, 0, o, CreatePolicy(q));
    var p1 := NewPolicy(owner, q, w0.now);
    RunSnoc(c, Begin(start), actions, a1);
    var s1 := actions + [a1];

    FundStep(c, Run(c, Begin(start), s1), id, q, p1, o);
    var a2 := Invoke(owner, q.targetAmount, o, FundPolicy(id));
    var p2 := p1.(fundedAmount := q.targetAmount, status := Funded);
    RunSnoc(c, Begin(start), s1, a2);
    var s2 := s1 + [a2];

    AskProofStep(c, Run(c, Begin(start), s2), id, q, p2, o, reference);
    var a3 := Invoke(owner, 0, o, RequestProof(id, reference));
    var p3 := p2.(status := ProofRequested, proofRequestedAt := ToUint64(w0.now));
    RunSnoc(c, Begin(start), s2, a3);
    var s3 := s2 + [a3];

    GoodProofStays(w0.core, Run(c, Begin(start), s3).core, o, data, q.targetAmount);
    SubmitProofStep(c, Run(c, Begin(start), s3), id, q, p3, o, data);
    var a4 := Invoke(owner, 0, o, SubmitEvmProof(id, EvmProof(data)));
    var p4 := p3.(externalProofDigest := Keccak(Response(data)), sourceTransactionHash := data.transactionHash,
                  proofVerifiedAt := ToUint64(w0.now), status := ProofVerified);
    RunSnoc(c, Begin(start), s3, a4);
    var s4 := s3 + [a4];

    message := EncodeRequest(ScriptRequest(Run(c, Begin(start), s4).core, id, inputHash));
    EncodingNotEmpty(ScriptRequest(Run(c, Begin(start), s4).core, id, inputHash));
    AskComputationStep(c, Run(c, Begin(start), s4), id, q, p4, o, inputHash, fee, message);
    var a5 := Invoke(owner, fee, o, SendComputationInstruction(id, inputHash, message));
    RunSnoc(c, Begin(start), s4, a5);
    all := s4 + [a5];
    assert all[..|all| - 1] == s4;
  }

  lemma EncodingNotEmpty(q: Request)
    requires Encodable(RequestTuple(q))
    ensures |EncodeRequest(q)| > 0
  {
  }

  /**
   * After such a cycle the extension answers the message that was sent, and the contract accepts that answer, signed
   * by an active TEE, exactly when every share counts. Nothing before this point demands that it does.
   */
  lemma CycleAcceptedIff(c: Chain, start: uint256, actions: seq<Action>, owner: Address, q: CreateParams,
                         reference: Bytes32, data: EvmResponse, inputHash: Bytes32, fee: uint256, o: Oracle,
                         tag: string, signature: Signature)
      returns (all: seq<Action>, id: Bytes32, message: seq<Bytes32>)
    requires CanStart(c, Run(c, Begin(start), actions), owner, q, reference, data, inputHash, o)
    ensures actions <= all && EndsWithRequest(c, start, all, owner, id, message)
    ensures var w := Run(c, Begin(start), all);
            && id in w.core.policies && w.core.policies[id].status == ComputationRequested
            && w.now < w.core.policies[id].expiry
            && ComputedFrom(message, w.core.policies[id].computationReference) ==
               Some(CycleResult(c, Run(c, Begin(start), actions).core, owner, q, data, inputHash, o))
            && AnswerAcceptedIff(c, w.core, id, Msg(owner, 0, w.now), o, message, tag, signature)
            && w.core.policies[id].targetAmount == q.targetAmount && SharesOf(w.core, id) == q.sharesBps
  {
    hide Run, CoreInv, Compute, Authenticate, DecodeResult, GoodSignature, Encode, EveryShareCounts, PolicyIdOf,
         GoodProof, EndsWithRequest, Allocate;
    all, id, message := RequestedCycle(c, start, actions, owner, q, reference, data, inputHash, fee, o);
    var w := Run(c, Begin(start), all);
    InvAt(c, start, all);
    var r := ExtensionResultAcceptedIff(c, w.core, id, Msg(owner, 0, w.now), o, tag, signature, FlightOf(w));
  }

  /** The six calls that bring a new policy to READY_TO_SETTLE, all in one block. */
  lemma ReadyCycle(c: Chain, start: uint256, actions: seq<Action>, owner: Address, q: CreateParams, reference: Bytes32,
                   data: EvmResponse, inputHash: Bytes32, fee: uint256, o: Oracle, tag: string, signature: Signature)
      returns (all: seq<Action>, id: Bytes32, r: SettlementResult)
    requires CanStart(c, Run(c, Begin(start), actions), owner, q, reference, data, inputHash, o)
    requires EveryShareCounts(q.targetAmount, q.sharesBps)
    requires GoodSignature(c, o, CycleResult(c, Run(c, Begin(start), actions).core, owner, q, data, inputHash, o),
                           tag, signature)
    ensures actions <= all && |all| > 0
    ensures r == CycleResult(c, Run(c, Begin(start), actions).core, owner, q, data, inputHash, o) && r.policyId == id
    ensures var asked := all[..|all| - 1];
            && |asked| > 0 && var a := asked[|asked| - 1];
               && a.Invoke? && a.call.SendComputationInstruction?
               && EndsWithRequest(c, start, asked, owner, id, a.call.message)
               && ComputedFrom(a.call.message, o.instruction.value) == Some(r)
    ensures var w, p := Run(c, Begin(start), all), Run(c, Begin(start), all).core.policies;
            && w.lock.Open? && id in p && p[id].status == ReadyToSettle && w.now < p[id].expiry
            && p[id].resultDigest == ResultDigest(c, r) && RecipientsOf(w.core, id) == q.recipients
  {
    hide WorldInv, Run, Step, ResultDigest, GoodSignature, EveryShareCounts, Allocate, PolicyIdOf, GoodProof, Encode,
         Compute, DecodeResult;
    var asked, message;
    asked, id, message := RequestedCycle(c, start, actions, owner, q, reference, data, inputHash, fee, o);
    var w0, w := Run(c, Begin(start), actions), Run(c, Begin(start), asked);
    var p := RequestedPolicy(owner, q, data, inputHash, o, w0.now);
    InvAt(c, start, asked);
    assert ResultFor(RequestFor(w.core, id), p.computationReference) ==
           CycleResult(c, w0.core, owner, q, data, inputHash, o);
    r := AuthenticateStep(c, w, id, q, p, o, tag, signature);
    var a := Invoke(owner, 0, o, AuthenticateActionResult(r, r.computationReference, tag, 1, signature));
    RunSnoc(c, Begin(start), asked, a);
    all := asked + [a];
    assert all[..|all| - 1] == asked;
  }

  lemma GoodProofStays(s: Core, s': Core, o: Oracle, data: EvmResponse, target: nat)
    requires GoodProof(s, o, data, target) && s'.usedProofDigests == s.usedProofDigests
    ensures GoodProof(s', o, data, target)
  {
  }

  /** What was paid is what the digest commits to. */
  lemma PaidAsAuthenticated(c: Chain, start: uint256, actions: seq<Action>, id: Bytes32, r: SettlementResult)
    requires var w := Run(c, Begin(start), actions);
             && w.lock.Open? && id in w.core.policies && w.core.policies[id].status == Settled
             && w.core.policies[id].resultDigest == ResultDigest(c, r) && RecipientsOf(w.core, id) == r.recipients
    ensures History.Transfers(TrailOf(Run(c, Begin(start), actions).core, id)) == Payouts(r.recipients, r.amounts)
  {
    hide Run;
    var r' := ExactPayout(c, start, actions, id);
    History.PayoutsPair(r.recipients, r.amounts);
  }

  /**
   * The whole cycle from any quiet point of any run: an owner creates a policy whose shares all count, funds it,
   * proves a payment, sends the script's message to the extension, has its answer signed by an active TEE, and
   * settles. The run so extended pays each recipient, in order, exactly its amount of the fair allocation of the
   * target.
   */
  lemma CyclePaysAllocation(c: Chain, start: uint256, actions: seq<Action>, owner: Address, q: CreateParams,
                            reference: Bytes32, data: EvmResponse, inputHash: Bytes32, fee: uint256, o: Oracle,
                            tag: string, signature: Signature)
      returns (all: seq<Action>, id: Bytes32)
    requires CanStart(c, Run(c, Begin(start), actions), owner, q, reference, data, inputHash, o)
    requires c.self !in q.recipients && EveryShareCounts(q.targetAmount, q.sharesBps)
    requires GoodSignature(c, o, CycleResult(c, Run(c, Begin(start), actions).core, owner, q, data, inputHash, o),
                           tag, signature)
    ensures actions <= all
    ensures var w := Run(c, Begin(start), all);
            && w.lock.Open? && id in w.core.policies && w.core.policies[id].status == Settled
            && History.Transfers(TrailOf(w.core, id)) == Payouts(q.recipients, Allocate(q.targetAmount, q.sharesBps))
  {
    hide WorldInv, Run, Step, ResultDigest, GoodSignature, GoodProof, EveryShareCounts, Allocate, Payouts,
         ParticipantRules.ValidParticipants, PolicyIdOf, EndsWithRequest, ComputedFrom;
    var ready, r;
    ready, id, r := ReadyCycle(c, start, actions, owner, q, reference, data, inputHash, fee, o, tag, signature);
    var w := Run(c, Begin(start), ready);
    var begin := Settle(w.core.policies[id].owner, 0, r);
    SettlementCompletes(c, start, ready, r);
    var n := |r.recipients|;
    RunSnoc(c, Begin(start), ready, begin);
    RunConcat(c, Begin(start), ready + [begin], Pays(n));
    RunSnoc(c, Begin(start), ready + [begin] + Pays(n), Finish);
    all := ready + [begin] + Pays(n) + [Finish];
    PaidAsAuthenticated(c, start, all, id, r);
  }

  // ---- An honest answer that the contract rejects ----

  /** One unit split evenly between two recipients: the extension gives the first one nothing. */
  const EVEN_SPLIT: CreateParams := CreateParams(ZERO, Word(1), Word(2), 1, 100, [1, 2], [5_000, 5_000])

  /** The extension's answer to the message is well signed, gives the first recipient nothing, and is rejected. */
  predicate RejectedAnswer(c: Chain, w: World, id: Bytes32, message: seq<Bytes32>, o: Oracle, signature: Signature)
  {
    && id in w.core.policies && w.core.policies[id].status == ComputationRequested && w.now < w.core.policies[id].expiry
    && var p, answer := w.core.policies[id], ComputedFrom(message, w.core.policies[id].computationReference);
       && answer.Some? && answer.value.amounts == [0, 1] && GoodSignature(c, o, answer.value, "submit", signature)
       && Authenticate(c, w.core, Msg(7, 0, w.now), o, answer.value, p.computationReference, "submit", 1,
                       signature).Revert?
  }

  /**
   * There is a run with a policy of one unit shared evenly by two recipients, awaiting its result: the owner sent the
   * script's message, the extension computed the answer to it, an active TEE signed it, and the contract rejects it.
   */
  lemma HonestAnswerRejected()
      returns (c: Chain, all: seq<Action>, id: Bytes32, message: seq<Bytes32>, o: Oracle, signature: Signature)
    ensures EndsWithRequest(c, 0, all, 7, id, message)
    ensures RejectedAnswer(c, Run(c, Begin(0), all), id, message, o, signature)
  {
    hide Run, RejectedAnswer, EndsWithRequest;
    c := Chain(114, 1_000, (_, _, _, _) => 9);
    o := Oracle(true, true, [9], true, 1, Some(Word(3)));
    signature := Signature(65, 27, ZERO, ZERO);
    all, id, message := SignedAnswerRejected(c, o, signature);
  }

  const PROVED: EvmResponse := EvmResponse(Word(4), 1, 1, [])

  lemma EvenSplitStarts(c: Chain, o: Oracle)
    requires o.fdcAccepts && GoodSender(o) && c.self == 1_000
    ensures CanStart(c, Run(c, Begin(0), []), 7, EVEN_SPLIT, Word(5), PROVED, Word(6), o)
  {
    EvenSplit();
  }

  lemma SignedAnswerRejected(c: Chain, o: Oracle, signature: Signature)
      returns (all: seq<Action>, id: Bytes32, message: seq<Bytes32>)
    requires o.teeRegistryConfigured && o.activeTees == [9] && signature.length == 65 && signature.v == 27
    requires forall digest, v, x, y :: c.ecrecover(digest, v, x, y) == 9
    requires o.fdcAccepts && GoodSender(o) && c.self == 1_000
    ensures EndsWithRequest(c, 0, all, 7, id, message)
    ensures RejectedAnswer(c, Run(c, Begin(0), all), id, message, o, signature)
  {
    hide Run, ComputedFrom, EndsWithRequest, Authenticate, PolicyIdOf, GoodSignature, Allocate, EveryShareCounts,
         CanStart;
    EvenSplitStarts(c, o);
    EvenSplit();
    all, id, message := CycleAcceptedIff(c, 0, [], 7, EVEN_SPLIT, Word(5), PROVED, Word(6), 0, o, "submit", signature);
    var w := Run(c, Begin(0), all);
    AlwaysSigned(c, o, ComputedFrom(message, w.core.policies[id].computationReference).value, "submit", signature);
  }

  lemma AlwaysSigned(c: Chain, o: Oracle, r: SettlementResult, tag: string, signature: Signature)
    requires o.teeRegistryConfigured && o.activeTees == [9] && signature.length == 65 && signature.v == 27
    requires forall digest, v, x, y :: c.ecrecover(digest, v, x, y) == 9
    ensures GoodSignature(c, o, r, tag, signature)
  {
    hide SigningDigest;
  }

  lemma EvenSplit()
    ensures ValidTerms(EVEN_SPLIT) && Allocate(1, EVEN_SPLIT.sharesBps) == [0, 1]
    ensures !EveryShareCounts(1, EVEN_SPLIT.sharesBps)
  {
    var shares := EVEN_SPLIT.sharesBps;
    SumPrefix(shares, 0);
    SumPrefix(shares, 1);
    assert shares[..2] == shares;
    AllocationFair(1, shares);
    LastIsRest(1, shares);
    SumPrefix(Floors(1, shares), 0);
    assert 1 * shares[0] < ParticipantRules.BPS_DENOMINATOR;
  }

  // ---- A settlement that no recipient can make go through ----

  /** The contract itself as the only recipient. */
  const SELF_PAID: CreateParams := CreateParams(ZERO, Word(1), Word(2), 10_000, 100, [1_000], [10_000])

  /** Ready, unexpired and fully funded, with the contract among its recipients; and no continuation settles it. */
  ghost predicate Stuck(c: Chain, w: World, id: Bytes32)
  {
    && w.lock.Open? && id in w.core.policies && w.core.policies[id].status == ReadyToSettle
    && w.now < w.core.policies[id].expiry && c.self in RecipientsOf(w.core, id)
    && forall more :: !SettledAtRest(Run(c, w, more), id)
  }

  /**
   * There is a run that the contract's checks let bring such a policy to READY_TO_SETTLE, where it stays till
   * refunded.
   */
  lemma SelfRecipientStuck() returns (c: Chain, all: seq<Action>, id: Bytes32)
    ensures Stuck(c, Run(c, Begin(0), all), id)
  {
    hide Run, Stuck;
    c := Chain(114, 1_000, (_, _, _, _) => 9);
    var o := Oracle(true, true, [9], true, 1, Some(Word(3)));
    all, id := SelfPaidStuck(c, o, Signature(65, 27, ZERO, ZERO));
  }

  lemma SelfPaidStuck(c: Chain, o: Oracle, signature: Signature) returns (all: seq<Action>, id: Bytes32)
    requires o.teeRegistryConfigured && o.activeTees == [9] && signature.length == 65 && signature.v == 27
    requires forall digest, v, x, y :: c.ecrecover(digest, v, x, y) == 9
    requires o.fdcAccepts && GoodSender(o) && c.self == 1_000
    ensures Stuck(c, Run(c, Begin(0), all), id)
  {
    hide Run, EndsWithRequest, PolicyIdOf, GoodSignature, CanStart, ComputedFrom, ResultDigest;
    var data := EvmResponse(Word(4), 1, 10_000, []);
    SelfPaidStarts(c, o, data);
    assert ValidTerms(SELF_PAID) by { SelfPaidValid(); }
    AlwaysSigned(c, o, CycleResult(c, Run(c, Begin(0), []).core, 7, SELF_PAID, data, Word(6), o), "submit", signature);
    var r;
    all, id, r := ReadyCycle(c, 0, [], 7, SELF_PAID, Word(5), data, Word(6), 0, o, "submit", signature);
    assert SELF_PAID.recipients[0] == c.self;
    forall more ensures !SettledAtRest(Run(c, Run(c, Begin(0), all), more), id) {
      SelfRecipientBlocks(c, 0, all, more, id);
    }
  }

  lemma SelfPaidValid()
    ensures ValidTerms(SELF_PAID)
  {
    SumPrefix(SELF_PAID.sharesBps, 0);
    assert SELF_PAID.sharesBps[..1] == SELF_PAID.sharesBps;
  }

  lemma SelfPaidStarts(c: Chain, o: Oracle, data: EvmResponse)
    requires o.fdcAccepts && GoodSender(o) && c.self == 1_000 && data == EvmResponse(Word(4), 1, 10_000, [])
    ensures CanStart(c, Run(c, Begin(0), []), 7, SELF_PAID, Word(5), data, Word(6), o)
  {
    SelfPaidValid();
  }
}
