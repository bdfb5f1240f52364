/** Participant vectors: the contract's validation loop and the rule it decides. */
module ParticipantRules {
  import opened Evm

  const BPS_DENOMINATOR: nat := 10_000
  const MAX_PARTICIPANTS: nat := 32

  /** The rule of the protocol: 1 to 32 distinct non-zero recipients whose positive shares total 10 000. */
  predicate ValidParticipants(recipients: seq<Address>, shares: seq<uint16>)
  {
    && 1 <= |recipients| <= MAX_PARTICIPANTS
    && |shares| == |recipients|
    && (forall i :: 0 <= i < |recipients| ==> recipients[i] != ZERO_ADDRESS)
    && (forall i, j :: 0 <= j < i < |recipients| ==> recipients[i] != recipients[j])
    && (forall i :: 0 <= i < |shares| ==> shares[i] > 0)
    && Sum(shares) == BPS_DENOMINATOR
  }

  /** The first fault of entry `i`, in the order the contract tests it. */
  function EntryFault(recipients: seq<Address>, shares: seq<uint16>, i: nat): Option<Error>
    requires i < |recipients| == |shares|
  {
    if recipients[i] == ZERO_ADDRESS then Some(InvalidAddress)
    else if shares[i] == 0 then Some(InvalidShares)
    else if recipients[i] in recipients[..i] then Some(DuplicateRecipient)
    else None
  }

  /** The first fault among entries `i`, `i + 1`, ... and then of the share total. */
  function FaultFrom(recipients: seq<Address>, shares: seq<uint16>, i: nat): Option<Error>
    requires i <= |recipients| == |shares|
    decreases |recipients| - i
  {
    if i == |recipients| then
      if Sum(shares) != BPS_DENOMINATOR then Some(InvalidShares) else None
    else
      var fault := EntryFault(recipients, shares, i);
      if fault.Some? then fault else FaultFrom(recipients, shares, i + 1)
  }

  function ParticipantFault(recipients: seq<Address>, shares: seq<uint16>): Option<Error>
  {
    if |recipients| == 0 || |recipients| > MAX_PARTICIPANTS || |recipients| != |shares| then Some(InvalidParticipants)
    else FaultFrom(recipients, shares, 0)
  }

  lemma {:induction false} FaultFromDecides(recipients: seq<Address>, shares: seq<uint16>, i: nat)
    requires i <= |recipients| == |shares|
    ensures FaultFrom(recipients, shares, i).None? <==>
            Sum(shares) == BPS_DENOMINATOR && forall k :: i <= k < |recipients| ==>
              EntryFault(recipients, shares, k).None?
    decreases |recipients| - i
  {
    if i < |recipients| {
      FaultFromDecides(recipients, shares, i + 1);
    }
  }

  /** The validation accepts exactly the valid vectors. */
  lemma {:induction false} ValidationDecides(recipients: seq<Address>, shares: seq<uint16>)
    ensures ParticipantFault(recipients, shares).None? <==> ValidParticipants(recipients, shares)
  {
    if |recipients| == |shares| {
      FaultFromDecides(recipients, shares, 0);
      forall i | 0 <= i < |recipients|
        ensures EntryFault(recipients, shares, i).None? <==>
                && recipients[i] != ZERO_ADDRESS && shares[i] > 0
                && forall j :: 0 <= j < i ==> recipients[i] != recipients[j]
      {
        assert forall j :: 0 <= j < i ==> recipients[..i][j] == recipients[j];
      }
    }
  }

  /** The contract's nested loop, including which error it reports first. */
  method ValidateParticipants(recipients: seq<Address>, shares: seq<uint16>) returns (fault: Option<Error>)
    ensures fault == ParticipantFault(recipients, shares)
    ensures fault.None? <==> ValidParticipants(recipients, shares)
  {
    ValidationDecides(recipients, shares);
    var length := |recipients|;
    if length == 0 || length > MAX_PARTICIPANTS || length != |shares| { return Some(InvalidParticipants); }
    var totalShares: nat := 0;
    var i := 0;
    while i < length
      invariant 0 <= i <= length
      invariant totalShares == Sum(shares[..i])
      invariant FaultFrom(recipients, shares, 0) == FaultFrom(recipients, shares, i)
    {
      if recipients[i] == ZERO_ADDRESS { return Some(InvalidAddress); }
      if shares[i] == 0 { return Some(InvalidShares); }
      totalShares := totalShares + shares[i];
      var j := 0;
      while j < i
        invariant 0 <= j <= i
        invariant recipients[i] !in recipients[..j]
      {
        if recipients[i] == recipients[j] {
          assert recipients[..i][j] == recipients[i];
          return Some(DuplicateRecipient);
        }
        assert recipients[..j + 1] == recipients[..j] + [recipients[j]];
        j := j + 1;
      }
      SumPrefix(shares, i);
      i := i + 1;
    }
    assert shares[..length] == shares;
    if totalShares != BPS_DENOMINATOR { return Some(InvalidShares); }
    return None;
  }
}
