# AURELITH settlement: a verified model

AURELITH escrows a payment on chain, has an external payment proved, has a confidential extension split the
escrow among committed recipients, authenticates the signed split, and pays it out once. This project models
that logic in Dafny 4.11 and proves what it is for. `dafny verify dfyconfig.toml` checks everything.

## How it is organised

| file | content |
|---|---|
| `Evm.dfy` | machine integers with explicit narrowing casts, symbolic hashes, outcomes |
| `Participants.dfy` | the contract's nested validation loop against the declarative rule |
| `Protocol.dfy` | contract storage and, for each entry point, its guards, casts and effects as a function |
| `Lifecycle.dfy`, `History.dfy` | the life of one policy as an automaton over unbounded integers, replayed from its history; conservation, order of events and length bounds by induction over histories |
| `Invariant.dfy` | the storage invariant; every call refines one automaton entry |
| `Runs.dfy`, `Provenance.dfy`, `Theorems.dfy` | whole runs with the reentrancy lock, payouts broken up at each transfer, nested call frames that may revert; every history line traced to the action that wrote it; the global theorems |
| `Acceptance.dfy`, `Rejections.dfy` | exactly when each call succeeds in a reachable state; what the error of a refused call says |
| `Callbacks.dfy` | calls from within a payout, call frames and their reverts |
| `Binding.dfy`, `Creation.dfy` | what digests, ids and signatures commit to; where policies come from and what owner nonces count |
| `AurelithProtocol.dfy` | the contract as a class with loops and field updates, proved against `Protocol` |
| `Allocation.dfy`, `AbiCodec.dfy`, `Extension.dfy` | the basis-point split, the tuple encoding, the extension's handler |
| `EndToEnd.dfy`, `FullCycle.dfy` | extension and contract together; a complete honest cycle, and one whose honest answer is rejected |
| `Serializer.dfy` | the promise queue as an event loop, refined to sequential execution |
| `Registration.dfy` | the crash-resumable registration driver |
| `HexCodec.dfy`, `Dispatch.dfy`, `FormValidation.dfy` | wire codec, handler registry, web form |

## Modelling choices

- keccak256 is symbolic: a digest is the value that was hashed, so it is injective on the contract's structured
  preimages and never zero. That encoding itself loses nothing is proved for the settlement tuple (`AbiCodec`).
- `ecrecover` is an arbitrary function of a deployment; FDC verification, the active TEE set, the configured
  registry and instruction sender, and the instruction id are arbitrary answers given with each call.
- The instruction sender and the TEE manager do not call back into the contract, because
  `sendComputationInstruction` writes its fields after its external call. Recipients and refunded owners may call back.
- No ether is forced into the contract. It has no receive function, so a transfer to itself fails.
- Block time never decreases; no caller has the zero address, and the contract never calls itself.
- The `trails` component is history, not storage: it records what the events and transfers show, and `Provenance` proves
  that each line was written by one successful action of the run, for the reasons the contract demands.
- Between two transfers anything may happen: any call by any account, call frames that are undone, and a revert of
  the whole transaction. A rejected call changes nothing.
- In the class each recipient's answer to its transfer is an argument. The object is valid before every transfer, and
  its methods are proved for an object that is in the middle of a payout too, where the guarded ones refuse; what
  recipients actually call is the matter of `Runs`. `SettleWithIsARun` and `RefundWithIsARun` show that a payout
  without callbacks is one of its runs.
- In the serializer a job is the list of its assignments to the shared state, made one event at a time; in the
  registration driver a returned error is a crash before or after the call concerned.

Where documentation and code disagree the model follows the code: policy ids do not include the contract address or a
policy version, though the written protocol description lists both, there is no NO_SETTLEMENT_DUE status, `settle` does
not look at the result's own expiry again (`SettlementCompletes` needs only the policy's), and proofs are told apart by the
digest of the whole response. Three consequences of the code that its documentation does not mention are proved:
a result computed by the extension is rejected if a share other than the last rounds to nothing
(`ExtensionResultAcceptedIff`; `HonestAnswerRejected` is a run in which that happens), a policy naming the contract
itself as a recipient can become ready but never settles (`SettleableIff`; `SelfRecipientStuck` is a run to it), and
from three recipients with positive shares on, the last one gets less from some larger total (`LastMonotoneIffTwo`;
`LastNotMonotone` shows it for totals 3 and 4).

## Model

| member | source | states |
|---|---|---|
| Theorems.AlwaysSolvent | contracts/src/AurelithProtocol.sol:202-350 | at every point of every run, between transfers included, the balance is the escrow of all policies plus the transfers still to make, so no payout or refund lacks balance |
| Theorems.ValueConserved | contracts/src/AurelithProtocol.sol:202-350 | for every policy at every point, deposits = escrow + settled + refunded, never both of the last two, and they equal the transfers made or still due |
| Theorems.ExactPayout | contracts/src/AurelithProtocol.sol:291-330 | after a settlement, the transfers made are exactly the stored recipients in order with the authenticated amounts, all positive, summing to the target |
| Theorems.PayoutInProgress | contracts/src/AurelithProtocol.sol:320-350 | while transfers are due, those made and those due make up exactly the payout list of the authenticated result, or one refund to the owner of everything ever deposited |
| Theorems.RecordsByStatus | contracts/src/AurelithProtocol.sol:15-50 | status-indexed rule for escrow, settled amount, digests, nonce and time stamps; RESULT_AUTHENTICATED is never visible between calls |
| Theorems.ReplaySetsExact | contracts/src/AurelithProtocol.sol:229-240 | the used proof and result digests are exactly those held by stored policies, and no digest is held twice |
| Theorems.DeadRejections | contracts/src/AurelithProtocol.sol:156-172 | in no reachable state is a call rejected as an existing policy, a replayed result, or out of range, nor does the result nonce overflow |
| Theorems.HashFixesRecipients | contracts/src/AurelithProtocol.sol:291-299 | the participant hash forces the result's recipients to be the stored ones, so the loop's comparison is implied and its index in range |
| Theorems.StepSpendsBudget | contracts/src/AurelithProtocol.sol:202-350 | at any point of any run, an action that reverts nothing changes nothing or strictly decreases a natural-number measure of the existing policy it is about; settlements, refunds and single transfers included |
| Theorems.HistoriesBounded | contracts/src/AurelithProtocol.sol:202-350 | a policy with target T and n recipients sees at most T + n + 6 successful steps, transfers included |
| Theorems.StepTouchesOne | contracts/src/AurelithProtocol.sol:150-350 | at any point of any run, an action that reverts nothing leaves record, history, recipients and shares of every policy but the one it is about; one that reverts brings back a saved storage |
| Theorems.TermsFixed | contracts/src/AurelithProtocol.sol:174-197 | from any quiet point on, a policy keeps its owner, target, expiry, recipients, shares and matching hash, and its history as a prefix |
| Theorems.ClosedForGood | contracts/src/AurelithProtocol.sol:313-350 | once settled or refunded, no later action of anyone changes the policy or adds a transfer |
| Theorems.SettledStory | contracts/src/AurelithProtocol.sol:202-330 | a settled policy's history holds full funding, proof request, sufficient proof, computation request, result and payout in that order, with ordered stamps before expiry, and each line is the work of a successful action, in the same order: the owner submitted the proof and FDC verified it, the result came with a signature over it that recovers to a TEE active then, and the owner settled with that very result |
| Binding.SigningDigestBinds | contracts/src/AurelithProtocol.sol:268-277 | the signed digest fixes the whole result, its action, tag and status, and the chain |
| Binding.OneResultPerSignature | contracts/src/AurelithProtocol.sol:258-280 | whatever states, callers and times: two successful authentications with a signature that recovers to an active TEE over one digest only are of the same result, action, tag and status, on the same chain |
| Binding.SignatureUsedOnce | contracts/src/AurelithProtocol.sol:258-311 | in no run is one such signature used for two policies or two results |
| Binding.ResultDigestBinds | contracts/src/AurelithProtocol.sol:302-318 | the stored result digest fixes the whole result, the chain and the contract |
| Binding.PolicyIdBinds | contracts/src/AurelithProtocol.sol:156-172 | a policy id fixes the chain, the owner, its nonce and every term |
| Creation.CreatedAsAsked | contracts/src/AurelithProtocol.sol:150-200 | every stored policy came from one call of its owner, and its record and vectors are still what that call asked for |
| Creation.NoncesCountPolicies | contracts/src/AurelithProtocol.sol:156-172 | at every point of every run the policies of each owner bear the nonces below its counter, each exactly once |
| Callbacks.CallGoesThroughIff | contracts/src/AurelithProtocol.sol:150-337 | at every point of every run, between two transfers too: a call changes the storage, and then as its entry point says, exactly when its plain condition holds and it is not a deposit during a payout |
| Callbacks.CancelDuringPayout | contracts/src/AurelithProtocol.sol:332-337 | while others are being paid, an owner can cancel a policy that has no accepted proof |
| Callbacks.AbortedFrameLeavesNoTrace | contracts/src/AurelithProtocol.sol:325-328 | a call frame that is aborted after any calls and inner frames leaves the world as it was |
| Callbacks.PayoutsDoNotNest | contracts/src/AurelithProtocol.sol:313-350 | during a payout no other starts, and no transfer is made while a recipient's frame is open |
| Callbacks.TransactionEnds | contracts/src/AurelithProtocol.sol:313-350 | a payout ends with everything paid and every frame closed, or as if it had never begun |
| Theorems.CastsLossless | contracts/src/AurelithProtocol.sol:176-306 | no narrowing cast of a successful call truncates anything |
| Theorems.SettleCastsLossless | contracts/src/AurelithProtocol.sol:320-323 | the cast total is the whole escrow and the stamp the block time |
| Theorems.NoLateProgress | contracts/src/AurelithProtocol.sol:313-350 | at every point of every run, from a policy's expiry on, an action that reverts nothing leaves its record and history alone unless its owner cancels it or starts its refund, or it is the refund's transfer |
| Theorems.PaidBeforeExpiry | contracts/src/AurelithProtocol.sol:313-328 | while a settlement is being paid, through callbacks and frames, it is stamped with the present time, which is before expiry |
| Theorems.RefundStartsIff | contracts/src/AurelithProtocol.sol:339-346 | a refund starts exactly for the owner of a policy with escrow that is cancelled or expired |
| Theorems.EscrowRecoverable | contracts/src/AurelithProtocol.sol:339-350 | any cancelled or expired policy with escrow returns all of it to its owner on request |
| Theorems.SettlementCompletes | contracts/src/AurelithProtocol.sol:313-330 | a ready, unexpired policy settles when its recipients accept, whatever the result's own expiry |
| Theorems.SelfRecipientNeverSettles | contracts/src/AurelithProtocol.sol:325-328 | a policy naming the contract itself as recipient is never settled |
| Theorems.SettleableIff | contracts/src/AurelithProtocol.sol:313-330 | some continuation of the run settles a ready, unexpired policy exactly when the contract is not among its recipients |
| FullCycle.SelfRecipientStuck | contracts/src/AurelithProtocol.sol:325-328 | a run exists that brings a policy with the contract as recipient to READY_TO_SETTLE, from where no continuation settles it |
| Theorems.FailedTransactionLeavesNoTrace | contracts/src/AurelithProtocol.sol:325-348 | a check on the model of reverts: what a failure restores stays fixed through callbacks and frames, so a failing transaction ends where it began |
| Acceptance.CreateSucceedsIff | contracts/src/AurelithProtocol.sol:150-172 | creation succeeds exactly on valid unexpired terms; an id collision cannot occur |
| Rejections.RejectedBecause | contracts/src/AurelithProtocol.sol:143-311 | in every state, the error of a rejected call states something true about the call and the storage |
| Rejections.PayoutRejectedBecause | contracts/src/AurelithProtocol.sol:313-346 | so does the error of a settlement or refund that may not begin |
| AurelithContract.PayAllFailsAt | contracts/src/AurelithProtocol.sol:325-328 | a payout that fails names the first transfer that could not be made |
| Acceptance.FundSucceedsIff | contracts/src/AurelithProtocol.sol:202-209 | a deposit succeeds exactly in DRAFT, before expiry, within what is missing; a FUNDED policy takes none |
| Acceptance.AskProofSucceedsIff | contracts/src/AurelithProtocol.sol:213-221 | a proof can be asked for exactly by the owner of a complete escrow for which none was asked yet, before expiry |
| Acceptance.SubmitSucceedsIff | contracts/src/AurelithProtocol.sol:223-232 | a proof succeeds exactly if it verifies, covers the escrow and is held by no policy |
| Acceptance.ComputationStartsIff | contracts/src/AurelithProtocol.sol:242-253 | the request succeeds at most once for each policy; the nonce goes from 0 to 1 and cannot overflow |
| Acceptance.AuthenticateSucceedsIff | contracts/src/AurelithProtocol.sol:258-311 | authentication succeeds exactly for a signed result that answers the policy's request; hash check, loops and replay set add nothing further |
| Acceptance.NoFaultIffAnswers | contracts/src/AurelithProtocol.sol:283-300 | all record checks together mean: stored recipients in order, positive amounts summing to the escrow, matching commitments, in time |
| Acceptance.CancelSucceedsIff | contracts/src/AurelithProtocol.sol:332-337 | a policy can be cancelled exactly until a proof is accepted for it |
| Acceptance.SettleSucceedsIff | contracts/src/AurelithProtocol.sol:313-318 | settlement starts exactly when the owner presents the one authenticated result before the policy's expiry |
| Acceptance.SettleGoesThroughIff | contracts/src/AurelithProtocol.sol:313-330 | the whole settlement succeeds exactly when it may start, the contract is not among the recipients, and every recipient takes its transfer |
| Acceptance.RefundGoesThroughIff | contracts/src/AurelithProtocol.sol:339-350 | the whole refund succeeds exactly when the owner asks for and takes escrow that is cancelled or past expiry |
| History.Conservation | contracts/src/AurelithProtocol.sol:202-350 | over any history, deposits are accounted for as escrow, settled or refunded, and transfers match |
| History.HistoryOrdered | contracts/src/AurelithProtocol.sol:15-27 | every history that was not cut short reads as creation, deposits, then one entry of each later kind in order, carrying the evidence the record commits to |
| Lifecycle.ReplayKeeps | contracts/src/AurelithProtocol.sol:15-50 | terms, money, evidence and stamps stay consistent with the status over every history |
| Invariant.ExecuteKeeps | contracts/src/AurelithProtocol.sol:150-337 | every successful call keeps the invariant, also while a payout is in progress |
| Invariant.BeginSettleRefines | contracts/src/AurelithProtocol.sol:313-323 | the presented result is the authenticated one, and the whole escrow becomes its payout list |
| Invariant.ResultFaultDecides | contracts/src/AurelithProtocol.sol:283-300 | the checks pass exactly when the result fits the policy and neither has expired |
| Invariant.TotalFromDecides | contracts/src/AurelithProtocol.sol:295-300 | the summation loop succeeds exactly on positive amounts for the stored recipients, and yields their sum |
| Invariant.FreshResult | contracts/src/AurelithProtocol.sol:302-305 | a result that passes the checks was never used before |
| Invariant.TransferKeeps | contracts/src/AurelithProtocol.sol:325-328 | the next transfer is covered, and making it keeps the invariant |
| Runs.StepKeeps | contracts/src/AurelithProtocol.sol:150-350 | every action, callbacks, frames and reverts included, keeps the invariant of storage and of every saved state |
| Runs.EveryRun | contracts/src/AurelithProtocol.sol:137-350 | the invariant holds at every point of every run from deployment |
| Runs.RunGrows | contracts/src/AurelithProtocol.sol:150-350 | no run removes a policy or rewrites its history, even by reverting |
| Runs.StepWrites | contracts/src/AurelithProtocol.sol:150-350 | an action that reverts nothing changes nothing, or adds one line with its cause (caller, entry point, external answers) to one history and leaves all other policies |
| Provenance.HistoryCaused | contracts/src/AurelithProtocol.sol:150-350 | at every point of every run each line of each history was written by a successful action of that run, for its cause, and the actions come in the order of the lines |
| ParticipantRules.ValidateParticipants | contracts/src/AurelithProtocol.sol:395-406 | the nested loop reports the first fault, and none exactly on 1 to 32 distinct non-zero recipients with positive shares totalling 10 000 |
| AurelithContract.AurelithProtocol.CreatePolicy | contracts/src/AurelithProtocol.sol:150-200 | storage and error are those of creation, id as returned; invariant kept |
| AurelithContract.AurelithProtocol.FundPolicy | contracts/src/AurelithProtocol.sol:202-211 | storage, balance and error are those of a deposit, and a refusal in the middle of a payout; invariant kept |
| AurelithContract.AurelithProtocol.RequestProof | contracts/src/AurelithProtocol.sol:213-221 | storage and error are those of a proof request; invariant kept |
| AurelithContract.AurelithProtocol.SubmitEvmProof | contracts/src/AurelithProtocol.sol:223-240 | storage, replay set and error are those of a proof submission; invariant kept |
| AurelithContract.AurelithProtocol.SendComputationInstruction | contracts/src/AurelithProtocol.sol:242-253 | storage, returned id and error are those of a computation request; invariant kept |
| AurelithContract.AurelithProtocol.CheckTee | contracts/src/AurelithProtocol.sol:420-427 | the search finds exactly the members of the active set, and an empty set is its own error |
| AurelithContract.AurelithProtocol.TotalAmounts | contracts/src/AurelithProtocol.sol:295-299 | the loop stays in range and returns the sum or the first fault |
| AurelithContract.AurelithProtocol.AuthenticateActionResult | contracts/src/AurelithProtocol.sol:258-311 | storage, replay set and error are those of an authentication; invariant kept |
| AurelithContract.AurelithProtocol.CancelPolicy | contracts/src/AurelithProtocol.sol:332-337 | storage and error are those of a cancellation; invariant kept |
| AurelithContract.AurelithProtocol.PayRecipients | contracts/src/AurelithProtocol.sol:325-328 | the payout loop makes exactly the listed transfers, up to the first refusal, and the invariant holds before each |
| AurelithContract.AurelithProtocol.Settle | contracts/src/AurelithProtocol.sol:313-330 | all transfers are made and the record closed, or storage and balance are as before; a refusal in the middle of a payout; invariant kept |
| AurelithContract.AurelithProtocol.RefundPolicy | contracts/src/AurelithProtocol.sol:339-350 | the escrow goes to the owner and the record is closed, or all is as before; a refusal in the middle of a payout; invariant kept |
| AurelithContract.SettleWithIsARun | contracts/src/AurelithProtocol.sol:313-330 | an atomic settlement is one run: begin, transfers, end; a refusal is a run that ends where it began |
| AurelithContract.RefundWithIsARun | contracts/src/AurelithProtocol.sol:339-350 | likewise for a refund |
| AurelithContract.OnePayoutEach | contracts/src/AurelithProtocol.sol:313-328 | the result that opens a settlement has one amount for each stored recipient, costing exactly the escrow |
| Allocation.AllocationFair | fcc-extension/typescript/src/app/abi.ts:36-41 | amounts sum to the total; all but the last are the floor of their share; the last exceeds its floor by at most n - 1 and is positive when it should be |
| Allocation.AllPositiveIff | fcc-extension/typescript/src/app/abi.ts:38-41 | all amounts are positive exactly when total times share reaches 10 000 for every share but the last |
| Allocation.ComputeAmounts | fcc-extension/typescript/src/app/abi.ts:37-41 | the accumulating loop and in-place correction compute that allocation, and detect a wrong share total |
| Allocation.LastMonotoneIff | fcc-extension/typescript/src/app/abi.ts:37-41 | the last amount never falls as the total grows exactly when at most one of the other shares is positive |
| Allocation.LastMonotoneIffTwo | fcc-extension/typescript/src/app/abi.ts:37-41 | with positive shares, as the contract stores them, that is exactly when there are at most two recipients |
| Allocation.LastDrops | fcc-extension/typescript/src/app/abi.ts:37-41 | from total 9 999 to 10 000 the last recipient loses one for each other positive share but one |
| Allocation.LastNotMonotone | fcc-extension/typescript/src/app/abi.ts:40-41 | a witness: with three almost equal shares the last gets 3 of 3 but 2 of 4 |
| AbiCodec.RoundTrip | fcc-extension/typescript/src/app/abi.ts:3-31 | decoding by offsets undoes encoding for every tuple of the shared layout |
| AbiCodec.ResultRoundTrip | contracts/src/AurelithProtocol.sol:62-72 | the result tuple survives encoding, widths included |
| AbiCodec.ResultLayout | fcc-extension/typescript/src/app/abi.ts:18-31 | each field of a result is at its place among the words, the arrays behind their offsets and lengths |
| AbiCodec.RequestLayout | fcc-extension/typescript/src/app/abi.ts:3-16 | likewise for a request |
| AbiCodec.SpreadDecodes | fcc-extension/typescript/src/app/abi.ts:34-34 | decoding finds head and arrays wherever their offsets point |
| AbiCodec.RequestRoundTrip | contracts/scripts/complete-lifecycle.ts:211-211 | the request the script encodes is the one the extension decodes |
| AbiCodec.ResultEncodingInjective | contracts/src/AurelithProtocol.sol:268-276 | equal signed data means equal recipients, amounts, nonce, expiry and commitments |
| Extension.ComputedResult | fcc-extension/typescript/src/app/abi.ts:33-52 | for a well-formed request the emitted data decodes to the fair allocation bound to request and action id |
| Extension.ComputeAnswersIff | fcc-extension/typescript/src/app/abi.ts:33-53 | exactly the well-formed requests are answered; the answer repeats the request field by field, the policy reported is the one in it, and a refusal says what is wrong |
| Extension.ReplyTellsTruth | fcc-extension/typescript/src/app/handlers.ts:12-22 | the handler replies with data and counts, or with an error and does neither; the last policy is that of the request |
| Extension.DecodeAndComputeSettlement | fcc-extension/typescript/src/app/abi.ts:33-53 | result or error message as specified, computed through the array |
| Extension.SettlementApp.HandleSettlement | fcc-extension/typescript/src/app/handlers.ts:12-22 | status 1 exactly when the count rises by one; a failure leaves the state and returns no data |
| EndToEnd.ExtensionResultAcceptedIff | contracts/src/AurelithProtocol.sol:258-311 | the contract accepts the extension's signed answer exactly when no share but the last rounds to nothing |
| EndToEnd.ExtensionResultAcceptedInRuns | contracts/scripts/complete-lifecycle.ts:208-238 | at every point of every run: if the owner's computation request carried the script's encoding of the policy as it stood, the extension answers that message, and the contract accepts the signed answer exactly when no share but the last rounds to nothing |
| EndToEnd.RequestAsked | contracts/scripts/complete-lifecycle.ts:208-216 | a policy awaiting its result got there by its owner's call from PROOF_VERIFIED, and stands for exactly the request the script encodes at that moment |
| FullCycle.CyclePaysAllocation | contracts/scripts/complete-lifecycle.ts:115-257 | from any quiet point, an honest cycle with the script's message goes through and pays each recipient exactly its amount of the fair allocation |
| FullCycle.RequestedCycle | contracts/scripts/complete-lifecycle.ts:135-220 | five calls bring any valid new policy to COMPUTATION_REQUESTED with the script's message, whether or not every share counts |
| FullCycle.CycleAcceptedIff | contracts/scripts/complete-lifecycle.ts:208-238 | after such a cycle the signed answer to the message sent is accepted exactly when every share counts |
| FullCycle.HonestAnswerRejected | contracts/src/AurelithProtocol.sol:295-297 | a run exists in which the extension's signed answer, one unit split evenly between two, is rejected |
| FullCycle.ReadyCycle | contracts/scripts/complete-lifecycle.ts:135-247 | six calls in one block bring a new policy to READY_TO_SETTLE with the result decoded from the extension's answer to the script's message |
| Serializer.OneAtATime | fcc-extension/typescript/src/base/server.ts:179-191 | however events interleave, no two jobs overlap and jobs start once each in arrival order |
| Serializer.ReadsSeeWholeTasks | fcc-extension/typescript/src/base/server.ts:170-177 | a state read sees exactly the jobs queued before it, each of them whole |
| Serializer.QuietMeansSequential | fcc-extension/typescript/src/base/server.ts:184-191 | when all is settled, state and reads are those of running the jobs one after another |
| Serializer.Drains | fcc-extension/typescript/src/base/server.ts:180-191 | from any reachable point every queued job can run to the end, with the sequential outcome |
| Serializer.EveryScheduleDrains | fcc-extension/typescript/src/base/server.ts:180-191 | without arrivals every schedule of effective events is bounded by the work left, and where it can go no further all jobs have settled with the sequential outcome |
| Serializer.QuerySeesCompletedRequests | fcc-extension/typescript/src/app/handlers.ts:5-22 | a state query returns the count of requests answered before it and the policy of the latest of these, however jobs interleave |
| Serializer.OutcomesReported | fcc-extension/typescript/src/base/server.ts:180-191 | each caller learns the outcome of its own job, and no failure is passed on to the next one |
| Serializer.Server.SerializeTask | fcc-extension/typescript/src/base/server.ts:184-191 | after any calls the object's promises and queue are those of the event loop on the same arrivals, the queue being the promise that swallows the newest job's outcome |
| Serializer.ChainFixed | fcc-extension/typescript/src/base/server.ts:184-191 | the chain of then calls and callbacks depends on the arrivals only, whatever has run in between |
| Registration.ResumedRunsAgree | fcc-extension/tools/pkg/fccutils/registration.go:59-172 | any crashes at stage boundaries and resumptions with the same command end with exactly the transactions and ids of one uninterrupted run |
| Registration.CrashHarmlessIff | fcc-extension/tools/pkg/fccutils/registration.go:74-171 | a crash leaves the final transactions unchanged exactly when no transaction of the current stage is unsaved |
| Registration.RunsAgreeIff | fcc-extension/tools/pkg/fccutils/registration.go:59-172 | a finished run, whatever its crashes and resumptions, has sent exactly the transactions of one uninterrupted run if and only if every crash was harmless |
| Registration.RepeatedTransaction | fcc-extension/tools/pkg/fccutils/registration.go:108-124 | a witness: one crash between a transaction and its save makes the run request the attestation twice |
| Registration.SafeUnderAnyCrash | fcc-extension/tools/pkg/fccutils/registration.go:74-151 | under any crashes and for any command, the machine is registered at most once and every availability check carries the latest attestation id, or the zero id if none was requested |
| Registration.PromotesUnderAnyCrash | fcc-extension/tools/pkg/fccutils/registration.go:125-168 | under any crashes and for any command, each promotion is of the latest availability check before it, or of the given id if none is asked for, and every transaction carries the id the chain gave it |
| Registration.CompleteRunsScript | fcc-extension/tools/pkg/fccutils/registration.go:59-172 | one uninterrupted run sends exactly the transactions of its stages in order, with the right ids, and ends registered and without a state file |
| Registration.Driver.RegisterNode | fcc-extension/tools/pkg/fccutils/registration.go:59-172 | a run that dies after any number of micro-steps leaves transactions and file as that many steps of the machine do |
| HexCodec.DecodeEncode | fcc-extension/typescript/src/base/encoding.ts:16-42 | decoding undoes encoding for every byte array |
| HexCodec.EncodeDecode | fcc-extension/typescript/src/base/encoding.ts:16-42 | whatever decodes, encodes to its lower-case prefixed form |
| HexCodec.DecodeKeepsNumber | fcc-extension/typescript/src/base/encoding.ts:16-35 | the bytes stand for the number that the digits are the big-endian notation of |
| HexCodec.DecodesIff | fcc-extension/typescript/src/base/encoding.ts:16-35 | exactly the texts of an even number of hex digits decode; odd length and foreign characters are told apart |
| HexCodec.HexToBytes | fcc-extension/typescript/src/base/encoding.ts:16-35 | the filling loop decodes, or reports odd length before foreign characters |
| HexCodec.BytesToHex | fcc-extension/typescript/src/base/encoding.ts:38-42 | the appending loop yields the prefixed digits |
| HexCodec.Bytes32RoundTrip | fcc-extension/typescript/src/base/encoding.ts:50-74 | padding then trimming restores a byte string exactly when it has at most 32 bytes and no trailing zero |
| HexCodec.IdentifiersDistinct | fcc-extension/typescript/src/base/encoding.ts:50-58 | distinct names have distinct identifiers |
| HexCodec.StringToBytes32Hex | fcc-extension/typescript/src/base/encoding.ts:50-58 | left-aligned zero-padded hex, or a refusal above 32 bytes |
| HexCodec.Bytes32HexToString | fcc-extension/typescript/src/base/encoding.ts:64-74 | the decrementing loop trims all trailing zeros; malformed hex reads as empty |
| HexCodec.ReadsTrimmed | fcc-extension/typescript/src/base/encoding.ts:64-74 | what is read is the decoded bytes without exactly their trailing zeros, or nothing |
| Dispatch.DispatchByName | fcc-extension/typescript/src/base/types.ts:96-124 | on padded names, exact match on both names first, then the type's wildcard |
| Dispatch.OrderIrrelevant | fcc-extension/typescript/src/base/types.ts:105-115 | with one handler for each key, registration order does not matter |
| Dispatch.FirstIsEarliest | fcc-extension/typescript/src/base/types.ts:105-115 | with several handlers for one key the one registered first is found |
| Dispatch.MissingIsEmpty | fcc-extension/typescript/src/base/types.ts:119-123 | a missing type or command is looked up as the empty name |
| Dispatch.SpellingIrrelevant | fcc-extension/typescript/src/base/types.ts:119-123 | case and the 0x prefix of a non-empty identifier do not matter |
| Dispatch.Framework.Handle | fcc-extension/typescript/src/base/types.ts:96-102 | appends one entry with padded keys, or refuses an over-long name |
| Dispatch.Framework.Lookup | fcc-extension/typescript/src/base/types.ts:105-116 | the two early-return loops implement the documented rule |
| FormValidation.FormAgreesWithContract | src/lib/policy/validation.ts:5-13 | what the form accepts, the contract accepts exactly when no recipient is the zero address |
| FormValidation.AcceptsIff | src/lib/policy/validation.ts:5-13 | exactly the good forms are accepted and returned row by row in order; a refused form is told something wrong with it |
| FormValidation.FormTakesZeroAddress | src/lib/policy/validation.ts:5-13 | a witness: the form accepts the zero address, which the contract does not |
| FormValidation.DistinctIffSetSize | src/lib/policy/validation.ts:10-11 | comparing set size with length decides distinctness |

## Left out

- The constructor's address checks, authorizer rotation, the one-shot configuration calls and the view functions: each is settled by reading one branch. What configuration sets is an answer given with each call.
- Event arguments beyond those the history records, gas, and mempool ordering.
- The internals of keccak256, ecrecover, FDC verification, the TEE manager and `AurelithFccInstructionSender`: external, answered by oracles.
- Callbacks from the instruction sender or the TEE manager into the contract, assumed not to happen.
- ABI data with offsets that are not multiples of 32 bytes: `AbiCodec.Decode` rejects it, real decoders may accept it. Bytes are modelled as 32-byte words, and a word holding a digest never decodes as a number.
- Extension.DecodeAndComputeSettlement: viem's own decoding errors, whatever their wording, are one fixed message.
- The hex text of the last policy id: `Extension` keeps the 32-byte value.
- HTTP routing, JSON parsing and the action result's remaining fields in `server.ts`.
- AurelithContract.AurelithProtocol.Settle: recipients answer yes or no here; what they can call in between is in `Runs`.
- Registration.ResumedRunsAgree: crashes between a transaction and its save are covered by `RunsAgreeIff` and `SafeUnderAnyCrash` instead, because then the same transactions are not repeated exactly; failing saves and a failing read of the machine registry are not modelled.
- The Go `StringToBytes32` in `registration.go`: the same padding as `HexCodec.Pad`.
- Floating-point rounding in the form: shares are finite reals; checksum rules of addresses are part of parsing.
- FormValidation.FormAgreesWithContract: an input that is not a number fails the whole-number check and needs no model.
- User interface, deployment scripts, sample extensions in Go and Python, node clients and the signing-policy gate.
