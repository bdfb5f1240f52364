/** The confidential allocation meets the contract: when does the contract accept what the extension computes? */
module EndToEnd {
  import opened Evm
  import ParticipantRules
  import opened Protocol
  import opened Lifecycle
  import opened Invariant
  import History
  import opened Runs
  import Provenance
  import Theorems
  import Allocation
  import opened AbiCodec
  import opened Extension

  /** The request the lifecycle script encodes while the policy is at PROOF_VERIFIED: the nonce is the next one. */
  function ScriptRequest(s: Core, id: Bytes32, inputHash: Bytes32): Request
    requires id in s.policies && s.policies[id].resultNonce + 1 < TWO_64
  {
    var p := s.policies[id];
    Request(SCHEMA_V1, id, p.externalProofDigest, inputHash, RecipientsOf(s, id), SharesOf(s, id), p.targetAmount,
            p.resultNonce + 1, p.expiry)
  }

  /** The request that a policy awaiting its result stands for. */
  function RequestFor(s: Core, id: Bytes32): Request
    requires id in s.policies
  {
    var p := s.policies[id];
    Request(SCHEMA_V1, id, p.externalProofDigest, p.privateInputHash, RecipientsOf(s, id), SharesOf(s, id),
            p.targetAmount, p.resultNonce, p.expiry)
  }

  /** No share of a recipient other than the last rounds down to nothing: checkable when the policy is created. */
  predicate EveryShareCounts(target: nat, shares: seq<uint16>)
  {
    forall i :: 0 <= i < |shares| - 1 ==> target * shares[i] >= ParticipantRules.BPS_DENOMINATOR
  }

  /** The oracle side of an authentication: registry configured, and the signature recovers to an active TEE. */
  predicate GoodSignature(c: Chain, o: Oracle, r: SettlementResult, tag: string, signature: Signature)
  {
    var signer := RecoverSigner(c, SigningDigest(c, r, r.computationReference, tag, 1), signature);
    o.teeRegistryConfigured && signer.Ok? && signer.value in o.activeTees
  }

  /** The extension's result fits the policy exactly when every share counts. */
  lemma ComputedFitsIff(c: Chain, s: Core, id: Bytes32, a: Account)
    requires id in s.policies && a.policy == s.policies[id] && TermsKept(c, id, a)
    requires a.terms.recipients == RecipientsOf(s, id) && a.terms.sharesBps == SharesOf(s, id)
    ensures FitsPolicy(id, a.policy, a.terms, ResultFor(RequestFor(s, id), a.policy.computationReference)) <==>
            EveryShareCounts(a.policy.targetAmount, SharesOf(s, id))
  {
    Allocation.AllocationFair(a.policy.targetAmount, SharesOf(s, id));
    Allocation.AllPositiveIff(a.policy.targetAmount, SharesOf(s, id));
  }

  /** With a good signature, the call succeeds exactly when the result passes the checks. */
  lemma SignedAcceptedIff(c: Chain, s: Core, m: Msg, o: Oracle, r: SettlementResult, tag: string,
                          signature: Signature, f: Flight)
    requires CoreInv(c, s, m.now, f) && m.value == 0 && GoodSignature(c, o, r, tag, signature)
    ensures Authenticate(c, s, m, o, r, r.computationReference, tag, 1, signature).Ok? <==> ResultFault(s, m, r).None?
  {
    hide CoreInv, ResultFault, SigningDigest, RecoverSigner;
    if ResultFault(s, m, r).None? {
      FreshResult(c, s, m, r, f);
    }
  }

  /** The result in what the extension emits for a message, if it emits one. */
  function ComputedFrom(message: seq<Bytes32>, actionId: Bytes32): Option<SettlementResult>
  {
    var out := Compute(message, actionId);
    if out.Computed? then DecodeResult(out.data) else None
  }

  /**
   * For an unexpired policy awaiting its result: the extension answers the script's request, and the contract
   * accepts that signed answer exactly when no non-last share rounds to nothing.
   */
  lemma ExtensionResultAcceptedIff(c: Chain, s: Core, id: Bytes32, m: Msg, o: Oracle, tag: string,
                                   signature: Signature, f: Flight)
      returns (r: SettlementResult)
    requires CoreInv(c, s, m.now, f) && id in s.policies
    requires var p := s.policies[id]; p.status == ComputationRequested && m.now < p.expiry && m.value == 0
    ensures |RecipientsOf(s, id)| == |SharesOf(s, id)| > 0 && Sum(SharesOf(s, id)) == ParticipantRules.BPS_DENOMINATOR
    ensures var p, q := s.policies[id], RequestFor(s, id);
            && r == ResultFor(q, p.computationReference)
            && Encodable(RequestTuple(q))
            && ComputedFrom(EncodeRequest(q), p.computationReference) == Some(r)
            && (GoodSignature(c, o, r, tag, signature) ==>
                  (Authenticate(c, s, m, o, r, r.computationReference, tag, 1, signature).Ok? <==>
                   EveryShareCounts(p.targetAmount, SharesOf(s, id))))
  {
    hide Replay, CoreInv, Compute, Authenticate, GoodSignature, ResultFault, StampsInOrder, EvidenceByStatus,
         DecodeResult, EveryShareCounts, FitsPolicy, EncodeRequest;
    CoreRecords(c, s, m.now, f);
    Known(c, s, id, m.now, f);
    var a, p, q := AccountOf(c, s, id), s.policies[id], RequestFor(s, id);
    r := ResultFor(q, p.computationReference);
    ComputedResult(q, p.computationReference);
    ComputedFitsIff(c, s, id, a);
    ResultFaultDecides(c, s, m, r, a);
    if GoodSignature(c, o, r, tag, signature) {
      SignedAcceptedIff(c, s, m, o, r, tag, signature, f);
    }
  }

  /**
   * From this message, under the instruction id of the policy, the extension computes a result; and with a good
   * signature the contract accepts it exactly when every share counts.
   */
  predicate AnswerAcceptedIff(c: Chain, s: Core, id: Bytes32, m: Msg, o: Oracle, message: seq<Bytes32>, tag: string,
                              signature: Signature)
    requires id in s.policies
  {
    var p := s.policies[id];
    var answer := ComputedFrom(message, p.computationReference);
    && answer.Some?
    && (GoodSignature(c, o, answer.value, tag, signature) ==>
          (Authenticate(c, s, m, o, answer.value, p.computationReference, tag, 1, signature).Ok? <==>
           EveryShareCounts(p.targetAmount, SharesOf(s, id))))
  }

  /** The last line of the history of a policy awaiting its result is its computation request. */
  lemma AwaitingLine(c: Chain, start: uint256, actions: seq<Action>, id: Bytes32)
    requires id in Run(c, Begin(start), actions).core.policies
    requires Run(c, Begin(start), actions).core.policies[id].status == ComputationRequested
    ensures var s := Run(c, Begin(start), actions).core;
            var p, t := s.policies[id], TrailOf(s, id);
            |t| > 1 && t[|t| - 1].ComputationAsked? && t[|t| - 1].inputHash == p.privateInputHash
            && t[|t| - 1].instructionId == p.computationReference
  {
    hide Replay, Run, TermsKept, MoneyByStatus, EvidenceByStatus, StampsInOrder;
    Theorems.AtEveryPoint(c, start, actions, id);
    History.HistoryOrdered(c, id, TrailOf(Run(c, Begin(start), actions).core, id));
  }

  /** A computation request commits to the very request that the script can encode just before it. */
  lemma AskedRequest(c: Chain, s: Core, s': Core, id: Bytes32, a: Account, e: Entry, a': Account)
    requires e.ComputationAsked? && Apply(c, id, Some(a), e) == Some(a')
    requires id in s.policies && a.policy == s.policies[id] && id in s'.policies && a'.policy == s'.policies[id]
    requires a.terms.recipients == RecipientsOf(s, id) && a.terms.sharesBps == SharesOf(s, id)
    requires a'.terms.recipients == RecipientsOf(s', id) && a'.terms.sharesBps == SharesOf(s', id)
    ensures s.policies[id].status == ProofVerified && s.policies[id].resultNonce == 0
    ensures RequestFor(s', id) == ScriptRequest(s, id, e.inputHash)
  {
  }

  /**
   * Every policy awaiting its result was brought there by a call of its owner, made while the policy was at
   * PROOF_VERIFIED; the request the policy stands for is the one the script encodes at that moment.
   */
  lemma RequestAsked(c: Chain, start: uint256, actions: seq<Action>, id: Bytes32) returns (j: nat)
    requires id in Run(c, Begin(start), actions).core.policies
    requires Run(c, Begin(start), actions).core.policies[id].status == ComputationRequested
    ensures j < |actions| && actions[j].Invoke? && actions[j].call.SendComputationInstruction?
    ensures var s, w := Run(c, Begin(start), actions).core, Provenance.At(c, start, actions, j);
            var p, a := s.policies[id], actions[j];
            && a.sender == p.owner && a.call.policyId == id && a.call.inputHash == p.privateInputHash
            && a.oracle.instruction == Some(p.computationReference)
            && id in w.core.policies && w.core.policies[id].status == ProofVerified
            && w.core.policies[id].resultNonce == 0
            && RequestFor(s, id) == ScriptRequest(w.core, id, p.privateInputHash)
  {
    hide Replay, Run, WellKept;
    var s := Run(c, Begin(start), actions).core;
    var t := TrailOf(s, id);
    var k := |t| - 1;
    AwaitingLine(c, start, actions, id);
    j := Provenance.LineWritten(c, start, actions, id, k);
    var before := Provenance.At(c, start, actions, j).core;
    assert TrailOf(before, id) <= t;
    Theorems.OwnerThroughout(c, start, actions, j, id);
    Theorems.AtEveryPoint(c, start, actions, id);
    Theorems.AtEveryPoint(c, start, actions[..j], id);
    assert t == t[..k] + [t[k]];
    ReplayAppend(c, id, t[..k], t[k]);
    AskedRequest(c, before, s, id, AccountOf(c, before, id), t[k], AccountOf(c, s, id));
  }

  /**
   * At every point of every run, for every unexpired policy awaiting its result: if its owner's computation request
   * carried the script's encoding of the policy, then from that message and the instruction id the extension computes
   * a result, and the contract accepts it, signed by an active TEE, exactly when no non-last share rounds to nothing.
   */
  lemma ExtensionResultAcceptedInRuns(c: Chain, start: uint256, actions: seq<Action>, id: Bytes32, m: Msg, o: Oracle,
                                      tag: string, signature: Signature) returns (j: nat)
    requires id in Run(c, Begin(start), actions).core.policies
    requires var w := Run(c, Begin(start), actions);
             var p := w.core.policies[id];
             p.status == ComputationRequested && m.now == w.now < p.expiry && m.value == 0
    ensures j < |actions| && actions[j].Invoke? && actions[j].call.SendComputationInstruction?
    ensures var s, asked := Run(c, Begin(start), actions).core, Provenance.At(c, start, actions, j).core;
            var p, a := s.policies[id], actions[j];
            && a.sender == p.owner && a.call.policyId == id && a.oracle.instruction == Some(p.computationReference)
            && id in asked.policies && asked.policies[id].status == ProofVerified && asked.policies[id].resultNonce == 0
            && Encodable(RequestTuple(ScriptRequest(asked, id, a.call.inputHash)))
            && (a.call.message == EncodeRequest(ScriptRequest(asked, id, a.call.inputHash)) ==>
                  AnswerAcceptedIff(c, s, id, m, o, a.call.message, tag, signature))
  {
    hide Run, CoreInv, Compute, Authenticate, DecodeResult, GoodSignature, Encode, EveryShareCounts, Apply;
    var w := Run(c, Begin(start), actions);
    EveryRun(c, start, actions);
    var r := ExtensionResultAcceptedIff(c, w.core, id, m, o, tag, signature, FlightOf(w));
    j := RequestAsked(c, start, actions, id);
  }
}
