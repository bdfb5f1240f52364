/** What the whole history of one policy proves: conservation, order of events, and a bound on its length. */
module History {
  import opened Evm
  import opened Protocol
  import opened Lifecycle

  /** All value ever deposited for the policy. */
  function Deposits(trail: seq<Entry>): nat
  {
    if |trail| == 0 then 0 else
    Deposits(trail[..|trail| - 1]) + (var e := trail[|trail| - 1]; if e.Deposited? then e.value else 0)
  }

  function DepositCount(trail: seq<Entry>): nat
  {
    if |trail| == 0 then 0 else
    DepositCount(trail[..|trail| - 1]) + (if trail[|trail| - 1].Deposited? then 1 else 0)
  }

  /** The transfers the contract made for the policy, in order. */
  function Transfers(trail: seq<Entry>): seq<Payment>
  {
    if |trail| == 0 then [] else
    Transfers(trail[..|trail| - 1]) + (var e := trail[|trail| - 1]; if e.Paid? then [e.payment] else [])
  }

  function PaymentSum(ps: seq<Payment>): nat
  {
    if |ps| == 0 then 0 else ps[0].amount + PaymentSum(ps[1..])
  }

  lemma {:induction false} PaymentSumAppend(ps: seq<Payment>, qs: seq<Payment>)
    ensures PaymentSum(ps + qs) == PaymentSum(ps) + PaymentSum(qs)
  {
    if |ps| == 0 {
      assert ps + qs == qs;
    } else {
      PaymentSumAppend(ps[1..], qs);
      assert (ps + qs)[1..] == ps[1..] + qs;
    }
  }

  /** The payout list pairs recipient and amount index by index, and costs exactly the sum of the amounts. */
  lemma {:induction false} PayoutsPair(recipients: seq<Address>, amounts: seq<uint256>)
    requires |recipients| == |amounts|
    ensures |Payouts(recipients, amounts)| == |recipients|
    ensures forall i :: 0 <= i < |recipients| ==> Payouts(recipients, amounts)[i] == Payment(recipients[i], amounts[i])
    ensures PaymentSum(Payouts(recipients, amounts)) == Sum(amounts)
  {
    if |recipients| > 0 {
      PayoutsPair(recipients[1..], amounts[1..]);
      SumFront(amounts);
      assert Payouts(recipients, amounts)[1..] == Payouts(recipients[1..], amounts[1..]);
    }
  }

  /** The account before the last entry of a history. */
  lemma {:induction false} Unroll(c: Chain, id: Bytes32, trail: seq<Entry>)
    requires |trail| > 1 && Replay(c, id, trail).Some?
    ensures Replay(c, id, trail[..|trail| - 1]).Some?
    ensures MoneyByStatus(Replay(c, id, trail[..|trail| - 1]).value)
    ensures Apply(c, id, Replay(c, id, trail[..|trail| - 1]), trail[|trail| - 1]) == Replay(c, id, trail)
  {
    ReplayKeeps(c, id, trail[..|trail| - 1]);
  }

  /**
   * Conservation: everything ever deposited is in escrow, settled or refunded; a policy is never both
   * settled and refunded; and what was settled or refunded has been transferred or is still owed.
   */
  lemma {:induction false} Conservation(c: Chain, id: Bytes32, trail: seq<Entry>)
    requires Replay(c, id, trail).Some?
    ensures var a := Replay(c, id, trail).value;
            && Deposits(trail) == a.policy.fundedAmount + a.policy.settledAmount + a.refunded
            && (a.policy.settledAmount == 0 || a.refunded == 0)
            && Transfers(trail) == a.paid
            && PaymentSum(Transfers(trail)) + PaymentSum(a.due) == a.policy.settledAmount + a.refunded
  {
    var a := Replay(c, id, trail).value;
    ReplayKeeps(c, id, trail);
    DepositsAccounted(c, id, trail);
    PaymentSumAppend(a.paid, a.due);
    if a.policy.status == Settled {
      PayoutsPair(a.result.value.recipients, a.result.value.amounts);
    }
  }

  lemma ApplyAccounts(c: Chain, id: Bytes32, a: Account, e: Entry)
    requires MoneyByStatus(a) && Apply(c, id, Some(a), e).Some?
    ensures var a' := Apply(c, id, Some(a), e).value;
            && a'.policy.fundedAmount + a'.policy.settledAmount + a'.refunded
               == a.policy.fundedAmount + a.policy.settledAmount + a.refunded + (if e.Deposited? then e.value else 0)
            && a'.paid == a.paid + (if e.Paid? then [e.payment] else [])
  {
  }

  lemma FirstAccounts(c: Chain, id: Bytes32, e: Entry)
    requires Apply(c, id, None, e).Some?
    ensures var a := Apply(c, id, None, e).value;
            !e.Deposited? && !e.Paid? && a.policy.fundedAmount == a.policy.settledAmount == a.refunded == 0
              && a.paid == []
  {
  }

  lemma {:induction false} DepositsAccounted(c: Chain, id: Bytes32, trail: seq<Entry>)
    requires Replay(c, id, trail).Some?
    ensures var a := Replay(c, id, trail).value;
            && Deposits(trail) == a.policy.fundedAmount + a.policy.settledAmount + a.refunded
            && Transfers(trail) == a.paid
  {
    hide Apply, MoneyByStatus;
    var k := |trail| - 1;
    if |trail| > 1 {
      DepositsAccounted(c, id, trail[..k]);
      Unroll(c, id, trail);
      ApplyAccounts(c, id, Replay(c, id, trail[..k]).value, trail[k]);
    } else {
      FirstAccounts(c, id, trail[0]);
      assert Deposits(trail[..0]) == 0 && Transfers(trail[..0]) == [];
    }
  }

  // ---- Order of events ----

  /** Number of entries after the deposits, for a policy on the path to settlement. */
  function StepsAfterFunding(a: Account): nat
  {
    match a.policy.status
    case Draft => 0 case Funded => 0 case ProofRequested => 1 case ProofVerified => 2 case ComputationRequested => 3
    case Settled => 5 + |a.paid| case _ => 4
  }

  /**
   * The history reads: creation, deposits, and then one entry of each later kind in order, each carrying
   * the evidence the record commits to. `d` is the number of deposits.
   */
  predicate Ordered(c: Chain, trail: seq<Entry>, a: Account, d: nat)
  {
    var p := a.policy;
    && |trail| == 1 + d + StepsAfterFunding(a)
    && trail[0].Created?
    && trail[0].terms == a.terms && trail[0].at == p.createdAt && trail[0].owner == p.owner
    && (forall i :: 1 <= i <= d ==> trail[i].Deposited?)
    && (Reached(p, 1) ==> Deposits(trail[..1 + d]) == p.targetAmount)
    && (Reached(p, 2) ==> trail[d + 1].ProofAsked? && trail[d + 1].at == p.proofRequestedAt)
    && (Reached(p, 3) ==> ProofShown(trail[d + 2], p))
    && (Reached(p, 4) ==> trail[d + 3].ComputationAsked? && trail[d + 3].instructionId == p.computationReference
                          && trail[d + 3].inputHash == p.privateInputHash)
    && (Reached(p, 6) ==> ResultShown(c, trail[d + 4], a))
    && (Reached(p, 7) ==> trail[d + 5] == PayoutBegun(p.settledAt) && forall i :: d + 6 <= i < |trail| ==>
        trail[i].Paid?)
  }

  /** An accepted proof of a successful transaction worth at least the target. */
  predicate ProofShown(e: Entry, p: Policy)
  {
    && e.ProofAccepted? && e.at == p.proofVerifiedAt
    && Keccak(Response(e.data)) == p.externalProofDigest && e.data.status == 1 && e.data.value >= p.targetAmount
    && e.data.transactionHash == p.sourceTransactionHash != ZERO
  }

  /** The accepted result, with a signature over it that recovers to a member of the TEE set of that moment. */
  predicate ResultShown(c: Chain, e: Entry, a: Account)
  {
    && e.ResultAccepted? && e.at == a.policy.resultAuthenticatedAt
    && a.result == Some(e.result) && Attested(c, e.result, e.att)
  }

  predicate Stopped(s: Status) { s == Cancelled || s == Refunded }

  lemma {:induction false} StoppedForGood(c: Chain, id: Bytes32, a: Account, e: Entry)
    requires Stopped(a.policy.status) && Apply(c, id, Some(a), e).Some?
    ensures Stopped(Apply(c, id, Some(a), e).value.policy.status)
  {
  }

  lemma {:induction false} AppendKeepsOrder(c: Chain, id: Bytes32, trail: seq<Entry>, a: Account, e: Entry, d: nat)
    requires MoneyByStatus(a) && Ordered(c, trail, a, d)
    requires Deposits(trail) == a.policy.fundedAmount + a.policy.settledAmount + a.refunded
    requires Apply(c, id, Some(a), e).Some? && !Stopped(Apply(c, id, Some(a), e).value.policy.status)
    ensures Ordered(c, trail + [e], Apply(c, id, Some(a), e).value, if e.Deposited? then d + 1 else d)
  {
    hide Apply, Ordered, MoneyByStatus, Deposits;
    if e.Deposited? {
      DepositKeepsOrder(c, id, trail, a, e, d);
    } else {
      StageKeepsOrder(c, id, trail, a, e, d);
    }
  }

  lemma DepositKeepsOrder(c: Chain, id: Bytes32, trail: seq<Entry>, a: Account, e: Entry, d: nat)
    requires MoneyByStatus(a) && Ordered(c, trail, a, d) && e.Deposited?
    requires Deposits(trail) == a.policy.fundedAmount + a.policy.settledAmount + a.refunded
    requires Apply(c, id, Some(a), e).Some?
    ensures Ordered(c, trail + [e], Apply(c, id, Some(a), e).value, d + 1)
  {
    hide Attested, FitsPolicy;
    var t' := trail + [e];
    assert t'[..|t'| - 1] == trail && t'[..d + 2] == t';
  }

  lemma StageKeepsOrder(c: Chain, id: Bytes32, trail: seq<Entry>, a: Account, e: Entry, d: nat)
    requires MoneyByStatus(a) && Ordered(c, trail, a, d) && !e.Deposited?
    requires Deposits(trail) == a.policy.fundedAmount + a.policy.settledAmount + a.refunded
    requires Apply(c, id, Some(a), e).Some? && !Stopped(Apply(c, id, Some(a), e).value.policy.status)
    ensures Ordered(c, trail + [e], Apply(c, id, Some(a), e).value, d)
  {
    hide Attested, FitsPolicy, ResultDigest, Payouts;
    var t' := trail + [e];
    assert t'[..|t'| - 1] == trail && t'[..d + 1] == trail[..d + 1];
    assert d == |trail| - 1 ==> trail[..d + 1] == trail;
  }

  /** The history of every policy that was neither cancelled nor refunded is ordered. */
  lemma {:induction false} HistoryOrdered(c: Chain, id: Bytes32, trail: seq<Entry>)
    requires Replay(c, id, trail).Some?
    requires !Stopped(Replay(c, id, trail).value.policy.status)
    ensures Ordered(c, trail, Replay(c, id, trail).value, DepositCount(trail))
  {
    hide Apply, Ordered, MoneyByStatus;
    var k := |trail| - 1;
    if |trail| == 1 {
      FirstOrdered(c, id, trail);
    } else {
      Unroll(c, id, trail);
      var a := Replay(c, id, trail[..k]).value;
      if Stopped(a.policy.status) {
        StoppedForGood(c, id, a, trail[k]);
      }
      HistoryOrdered(c, id, trail[..k]);
      DepositsAccounted(c, id, trail[..k]);
      assert trail == trail[..k] + [trail[k]];
      AppendKeepsOrder(c, id, trail[..k], a, trail[k], DepositCount(trail[..k]));
    }
  }

  lemma {:induction false} FirstOrdered(c: Chain, id: Bytes32, trail: seq<Entry>)
    requires |trail| == 1 && Replay(c, id, trail).Some?
    ensures Ordered(c, trail, Replay(c, id, trail).value, DepositCount(trail))
  {
    assert trail[..0] == [];
    assert trail[..1] == trail;
  }

  // ---- Bounded histories ----

  /** Successful entries a policy can still see: one wei at a time to the target, each stage, each transfer. */
  function Budget(a: Account): nat
  {
    var n := |a.terms.recipients|;
    match a.policy.status
    case Draft => n + 5 + (if a.policy.targetAmount >= a.policy.fundedAmount
                           then a.policy.targetAmount - a.policy.fundedAmount else 0)
    case Funded => n + 5
    case ProofRequested => n + 4
    case ProofVerified => n + 3
    case ComputationRequested => n + 2
    case ResultAuthenticated => n + 2
    case ReadyToSettle => n + 1
    case Cancelled => 2
    case Settled => |a.due|
    case Refunded => |a.due|
  }

  lemma {:induction false} SpendsBudget(c: Chain, id: Bytes32, a: Account, e: Entry)
    requires MoneyByStatus(a) && |a.terms.recipients| > 0
    requires a.result.Some? ==> |Payouts(a.result.value.recipients, a.result.value.amounts)| == |a.terms.recipients|
    requires Apply(c, id, Some(a), e).Some?
    ensures Budget(Apply(c, id, Some(a), e).value) < Budget(a)
  {
    match e {
      case Deposited(_, _, _) =>
      case RefundBegun(_) =>
      case Withdrawn(_) =>
      case _ =>
    }
  }

  /** No entry changes what a policy was created with. */
  lemma ApplyKeepsIdentity(c: Chain, id: Bytes32, a: Account, e: Entry)
    requires Apply(c, id, Some(a), e).Some?
    ensures var a' := Apply(c, id, Some(a), e).value;
            a'.terms == a.terms && a'.policy.owner == a.policy.owner && a'.policy.targetAmount == a.policy.targetAmount
  {
  }

  /** Every entry uses up budget, so the relation "one entry later" on accounts is well founded. */
  lemma {:induction false} ApplySpendsBudget(c: Chain, id: Bytes32, a: Account, e: Entry)
    requires WellKept(c, id, a) && Apply(c, id, Some(a), e).Some?
    ensures Budget(Apply(c, id, Some(a), e).value) < Budget(a)
    ensures Apply(c, id, Some(a), e).value.terms == a.terms
    ensures Apply(c, id, Some(a), e).value.policy.targetAmount == a.policy.targetAmount
  {
    hide Apply, Budget, StampsInOrder, Payouts;
    if a.result.Some? {
      PayoutsPair(a.result.value.recipients, a.result.value.amounts);
    }
    ApplyKeepsIdentity(c, id, a, e);
    SpendsBudget(c, id, a, e);
  }

  /** A policy with target T and n recipients sees at most T + n + 6 successful steps, ever. */
  lemma {:induction false} HistoryBounded(c: Chain, id: Bytes32, trail: seq<Entry>)
    requires Replay(c, id, trail).Some?
    ensures var a := Replay(c, id, trail).value;
            |trail| + Budget(a) <= a.policy.targetAmount + |a.terms.recipients| + 6
  {
    var k := |trail| - 1;
    if |trail| > 1 {
      HistoryBounded(c, id, trail[..k]);
      Unroll(c, id, trail);
      ReplayKeeps(c, id, trail[..k]);
      ApplySpendsBudget(c, id, Replay(c, id, trail[..k]).value, trail[k]);
    } else {
      assert trail[..k] == [];
    }
  }
}
