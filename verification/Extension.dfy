/** The settlement handler of the confidential-compute extension and the module state it keeps. */
module Extension {
  import opened Evm
  import ParticipantRules
  import Allocation
  import opened AbiCodec

  /** ASCII "AURELITH_SETTLEMENT_V1", zero-padded on the right. */
  const SCHEMA_V1: Bytes32 := Word(0x415552454c4954485f534554544c454d454e545f563100000000000000000000)

  datatype Computation = Computed(data: seq<Bytes32>, policyId: Bytes32) | Thrown(message: string)

  function ResultFor(q: Request, actionId: Bytes32): SettlementResult
    requires |q.recipients| == |q.sharesBps| > 0 && Sum(q.sharesBps) == ParticipantRules.BPS_DENOMINATOR
  {
    Allocation.AllocationFair(q.total, q.sharesBps);
    SettlementResult(q.policyId, q.externalProofDigest, q.privateInputHash, actionId, q.recipients,
                     Allocation.Allocate(q.total, q.sharesBps), q.total, q.nonce, q.expiry)
  }

  /** Array lengths come from decoded data, so they always fit the encoding of the result. */
  lemma {:induction false} DecodedFits(data: seq<Bytes32>)
    requires DecodeRequest(data).Some?
    ensures Encodable(RequestTuple(DecodeRequest(data).value))
  {
  }

  function Compute(data: seq<Bytes32>, actionId: Bytes32): Computation
  {
    var decoded := DecodeRequest(data);
    if decoded.None? then Thrown("undecodable request")
    else
      var q := decoded.value;
      if q.schemaVersion != SCHEMA_V1 then Thrown("unsupported schema")
      else if |q.recipients| == 0 || |q.recipients| != |q.sharesBps| then Thrown("invalid participants")
      else if Sum(q.sharesBps) != ParticipantRules.BPS_DENOMINATOR then Thrown("invalid shares")
      else
        DecodedFits(data);
        Computed(EncodeResult(ResultFor(q, actionId)), q.policyId)
  }

  /**
   * What the extension emits for a well-formed request decodes to the fair allocation, tied to the request and the
   * action.
   */
  lemma ComputedResult(q: Request, actionId: Bytes32)
    requires Encodable(RequestTuple(q))
    requires q.schemaVersion == SCHEMA_V1 && |q.recipients| == |q.sharesBps| > 0
             && Sum(q.sharesBps) == ParticipantRules.BPS_DENOMINATOR
    ensures var out := Compute(EncodeRequest(q), actionId);
            out.Computed? && DecodeResult(out.data) == Some(ResultFor(q, actionId))
  {
    RequestRoundTrip(q);
    ResultRoundTrip(ResultFor(q, actionId));
  }

  /** A request the extension can answer. */
  predicate WellFormed(q: Request)
  {
    && q.schemaVersion == SCHEMA_V1 && |q.recipients| == |q.sharesBps| > 0
    && Sum(q.sharesBps) == ParticipantRules.BPS_DENOMINATOR
  }

  /** The result answers the request field by field, and splits the total fairly. */
  predicate AnswersRequest(q: Request, actionId: Bytes32, r: SettlementResult)
  {
    var last := |q.sharesBps| - 1;
    && r.policyId == q.policyId && r.externalProofDigest == q.externalProofDigest
    && r.privateInputHash == q.privateInputHash && r.computationReference == actionId
    && r.recipients == q.recipients && r.total == q.total && r.nonce == q.nonce && r.expiry == q.expiry
    && |r.amounts| == |q.sharesBps| && Sum(r.amounts) == q.total
    && forall i :: 0 <= i < last ==> r.amounts[i] == q.total * q.sharesBps[i] / 10_000
  }

  /**
   * The extension answers exactly the well-formed requests. Its data then decodes to a result that answers the request,
   * and the policy it reports is the one in that result; otherwise the message says what was wrong.
   */
  lemma ComputeAnswersIff(data: seq<Bytes32>, actionId: Bytes32)
    ensures Compute(data, actionId).Computed? <==> DecodeRequest(data).Some? && WellFormed(DecodeRequest(data).value)
    ensures Compute(data, actionId).Computed? ==>
              var out := Compute(data, actionId);
              && DecodeResult(out.data).Some?
              && AnswersRequest(DecodeRequest(data).value, actionId, DecodeResult(out.data).value)
              && out.policyId == DecodeResult(out.data).value.policyId
    ensures Compute(data, actionId).Thrown? ==>
              var q, message := DecodeRequest(data), Compute(data, actionId).message;
              || (message == "undecodable request" && q.None?)
              || (message == "unsupported schema" && q.Some? && q.value.schemaVersion != SCHEMA_V1)
              || (message == "invalid participants" && q.Some?
                  && (q.value.recipients == [] || |q.value.recipients| != |q.value.sharesBps|))
              || (message == "invalid shares" && q.Some? && Sum(q.value.sharesBps) != 10_000)
  {
    hide DecodeRequest, DecodeResult, Encode;
    var q := DecodeRequest(data);
    if q.Some? && WellFormed(q.value) {
      DecodedFits(data);
      ResultRoundTrip(ResultFor(q.value, actionId));
      Allocation.AllocationFair(q.value.total, q.value.sharesBps);
    }
  }

  method DecodeAndComputeSettlement(data: seq<Bytes32>, actionId: Bytes32) returns (out: Computation)
    ensures out == Compute(data, actionId)
  {
    var decoded := DecodeRequest(data);
    if decoded.None? { return Thrown("undecodable request"); }
    var q := decoded.value;
    if q.schemaVersion != SCHEMA_V1 { return Thrown("unsupported schema"); }
    if |q.recipients| == 0 || |q.recipients| != |q.sharesBps| { return Thrown("invalid participants"); }
    var amounts, valid := Allocation.ComputeAmounts(q.total, q.sharesBps);
    if !valid { return Thrown("invalid shares"); }
    Allocation.AllocationFair(q.total, q.sharesBps);
    DecodedFits(data);
    out := Computed(EncodeResult(SettlementResult(q.policyId, q.externalProofDigest, q.privateInputHash, actionId,
                                                  q.recipients, amounts[..], q.total, q.nonce, q.expiry)),
                    q.policyId);
  }

  /** `[data, status, error]`: status 1 carries data, status 0 an error. */
  datatype HandlerResult = HandlerResult(data: Option<seq<Bytes32>>, status: nat, error: Option<string>)

  /** What the extension reports about itself: settlements computed so far and the last one's policy. */
  datatype AppState = AppState(processed: nat, lastPolicyId: Option<Bytes32>)

  function Handled(s: AppState, message: seq<Bytes32>, actionId: Option<Bytes32>): AppState
  {
    if actionId.None? || Compute(message, actionId.value).Thrown? then s
    else AppState(s.processed + 1, Some(Compute(message, actionId.value).policyId))
  }

  function Reply(message: seq<Bytes32>, actionId: Option<Bytes32>): HandlerResult
  {
    if actionId.None? then HandlerResult(None, 0, Some("missing action id"))
    else
      match Compute(message, actionId.value)
      case Computed(data, _) => HandlerResult(Some(data), 1, None)
      case Thrown(error) => HandlerResult(None, 0, Some(error))
  }

  /** The handler replies with data or with an error, never with both, and counts exactly what it answers. */
  lemma ReplyTellsTruth(s: AppState, message: seq<Bytes32>, actionId: Option<Bytes32>)
    ensures var r, s' := Reply(message, actionId), Handled(s, message, actionId);
            if actionId.Some? && DecodeRequest(message).Some? && WellFormed(DecodeRequest(message).value) then
              && r.status == 1 && r.error.None? && r.data.Some? && DecodeResult(r.data.value).Some?
              && AnswersRequest(DecodeRequest(message).value, actionId.value, DecodeResult(r.data.value).value)
              && s'.processed == s.processed + 1 && s'.lastPolicyId == Some(DecodeRequest(message).value.policyId)
            else
              && r.status == 0 && r.data.None? && s' == s
              && (actionId.None? ==> r.error == Some("missing action id"))
              && (actionId.Some? ==>
                    && Compute(message, actionId.value).Thrown?
                    && r.error == Some(Compute(message, actionId.value).message))
  {
    hide Compute, DecodeRequest, DecodeResult, WellFormed;
    if actionId.Some? {
      ComputeAnswersIff(message, actionId.value);
      if Compute(message, actionId.value).Computed? { ReportedPolicy(message, actionId.value); }
    }
  }

  lemma ReportedPolicy(message: seq<Bytes32>, actionId: Bytes32)
    requires Compute(message, actionId).Computed?
    ensures DecodeRequest(message).Some? && Compute(message, actionId).policyId == DecodeRequest(message).value.policyId
  {
    hide Compute, DecodeRequest, DecodeResult;
    ComputeAnswersIff(message, actionId);
  }

  class SettlementApp {
    var processed: nat
    var lastPolicyId: Option<Bytes32>

    constructor ()
      ensures State() == AppState(0, None)
    {
      processed, lastPolicyId := 0, None;
    }

    function State(): AppState
      reads this
    {
      AppState(processed, lastPolicyId)
    }

    method ResetState()
      modifies this
      ensures State() == AppState(0, None)
    {
      processed, lastPolicyId := 0, None;
    }

    method HandleSettlement(message: seq<Bytes32>, actionId: Option<Bytes32>) returns (r: HandlerResult)
      modifies this
      ensures State() == Handled(old(State()), message, actionId)
      ensures r == Reply(message, actionId)
      ensures r.status == 1 <==> State().processed == old(State()).processed + 1
      ensures r.status == 0 ==> State() == old(State()) && r.data.None?
    {
      if actionId.None? { return HandlerResult(None, 0, Some("missing action id")); }
      var out := DecodeAndComputeSettlement(message, actionId.value);
      match out {
        case Thrown(error) => return HandlerResult(None, 0, Some(error));
        case Computed(data, policyId) =>
          processed := processed + 1;
          lastPolicyId := Some(policyId);
          return HandlerResult(Some(data), 1, None);
      }
    }
  }
}
