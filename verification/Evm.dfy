/** Machine integers, symbolic hashes and call outcomes shared by every model of on-chain code. */
module Evm {

  datatype Option<+T> = None | Some(value: T)

  const TWO_16: nat := 0x1_0000
  const TWO_64: nat := 0x1_0000_0000_0000_0000
  const TWO_128: nat := 0x1_00000000_00000000_00000000_00000000
  const TWO_160: nat := 0x1_00000000_00000000_00000000_00000000_00000000
  const TWO_256: nat :=
    0x1_00000000_00000000_00000000_00000000_00000000_00000000_00000000_00000000

  type uint8 = n: nat | n < 256
  type uint16 = n: nat | n < TWO_16
  type uint64 = n: nat | n < TWO_64
  type uint128 = n: nat | n < TWO_128
  type uint256 = n: nat | n < TWO_256
  type Address = n: nat | n < TWO_160

  const ZERO_ADDRESS: Address := 0

  /** Solidity's narrowing casts keep the low bits. */
  function ToUint64(n: nat): uint64 { n % TWO_64 }

  function ToUint128(n: nat): uint128 { n % TWO_128 }

  /**
   * A 32-byte word. keccak256 is symbolic: a digest is the structured value that was hashed, so
   * equal digests have equal preimages and no digest is a plain number (in particular not zero).
   */
  datatype Bytes32 = Word(value: uint256) | Keccak(preimage: Preimage)

  const ZERO: Bytes32 := Word(0)

  /** Every value the contract feeds to keccak256, one constructor for each layout. */
  datatype Preimage =
    | PolicyKey(chainId: uint256, owner: Address, ownerNonce: nat, salt: Bytes32, ruleHash: Bytes32,
                paymentReferenceHash: Bytes32, participantHash: Bytes32, targetAmount: uint128, expiry: uint64)
    | Participants(recipients: seq<Address>, sharesBps: seq<uint16>)
    | Response(data: EvmResponse)
    | ResultKey(chainId: uint256, core: Address, result: SettlementResult)
    | EncodedResult(result: SettlementResult)
    | SubmissionTag(tag: string)
    | ActionResult(encoded: Bytes32, actionId: Bytes32, tagHash: Bytes32, actionStatus: uint8)
    | TeePayload(chainId: uint256, resultHash: Bytes32)
    | EthSigned(digest: Bytes32)

  /** The attested transaction; `rest` stands for the fields the contract never inspects. */
  datatype EvmResponse = EvmResponse(transactionHash: Bytes32, status: uint8, value: uint256, rest: seq<Bytes32>)

  datatype SettlementResult = SettlementResult(
    policyId: Bytes32, externalProofDigest: Bytes32, privateInputHash: Bytes32, computationReference: Bytes32,
    recipients: seq<Address>, amounts: seq<uint256>, total: uint256, nonce: uint64, expiry: uint64)

  datatype Signature = Signature(length: nat, v: uint8, r: Bytes32, s: Bytes32)

  /** What is fixed for a deployment: chain id, the contract's own address and the ecrecover precompile. */
  datatype Chain = Chain(chainId: uint256, self: Address, ecrecover: (Bytes32, nat, Bytes32, Bytes32) -> Address)

  datatype Msg = Msg(sender: Address, value: uint256, now: uint256)

  datatype Error =
    | Unauthorized | InvalidAddress | InvalidState | InvalidExpiry | InvalidParticipants | InvalidShares
    | DuplicateRecipient | InvalidAmount | PolicyExists | PolicyMissing | PolicyExpired | ProofInvalid
    | ProofReplayed | ResultReplayed | ResultMismatch | NonceMismatch | TransferFailed(to: Address, amount: nat)
    | CancellationUnavailable | InvalidActionResultSignature | InvalidActionResultStatus | TeeRegistryUnavailable
    | ReentrantCall | NonPayable | InstructionRejected | Overflow | IndexOutOfRange

  datatype Outcome<+T> = Ok(value: T) | Revert(error: Error)

  function Sum(xs: seq<nat>): (total: nat)
  {
    if |xs| == 0 then 0 else Sum(xs[..|xs| - 1]) + xs[|xs| - 1]
  }

  lemma {:induction false} SumPrefix(xs: seq<nat>, i: nat)
    requires i < |xs|
    ensures Sum(xs[..i + 1]) == Sum(xs[..i]) + xs[i]
  {
    assert xs[..i + 1][..i] == xs[..i];
  }

  lemma {:induction false} SumMonotone(xs: seq<nat>, i: nat)
    requires i <= |xs|
    ensures Sum(xs[..i]) <= Sum(xs)
    decreases |xs| - i
  {
    if i == |xs| {
      assert xs[..i] == xs;
    } else {
      SumPrefix(xs, i);
      SumMonotone(xs, i + 1);
    }
  }

  lemma {:induction false} SumUpdate(xs: seq<nat>, i: nat, v: nat)
    requires i < |xs|
    ensures Sum(xs[i := v]) == Sum(xs) - xs[i] + v
  {
    var n := |xs| - 1;
    if i == n {
      assert xs[i := v][..n] == xs[..n];
    } else {
      SumUpdate(xs[..n], i, v);
      assert xs[i := v][..n] == xs[..n][i := v];
    }
  }

  lemma {:induction false} SumFront(xs: seq<nat>)
    requires |xs| > 0
    ensures Sum(xs) == xs[0] + Sum(xs[1..])
  {
    var n := |xs| - 1;
    if n > 0 {
      SumFront(xs[..n]);
      assert xs[..n][1..] == xs[1..][..n - 1];
      assert xs[1..][n - 1] == xs[n];
    }
  }
}
