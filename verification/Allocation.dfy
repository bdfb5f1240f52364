/** The confidential allocation: a total split by basis points, the rounding remainder going to the last recipient. */
module Allocation {
  import opened Evm
  import opened ParticipantRules

  function Share(total: nat, share: nat): nat { total * share / BPS_DENOMINATOR }

  function Floors(total: nat, shares: seq<uint16>): (floors: seq<nat>)
    ensures |floors| == |shares|
    ensures forall i :: 0 <= i < |shares| ==> floors[i] == Share(total, shares[i])
  {
    seq(|shares|, i requires 0 <= i < |shares| => Share(total, shares[i]))
  }

  lemma ShareBounds(total: nat, share: nat)
    ensures BPS_DENOMINATOR * Share(total, share) <= total * share
    ensures total * share < BPS_DENOMINATOR * Share(total, share) + BPS_DENOMINATOR
  {
  }

  lemma Distribute(x: nat, y: nat, z: nat)
    ensures x * (y + z) == x * y + x * z
  {
  }

  /** Rounding never loses as much as one unit for each recipient. */
  lemma {:induction false} FloorsWithinTotal(total: nat, shares: seq<uint16>, k: nat)
    requires k <= |shares|
    ensures BPS_DENOMINATOR * Sum(Floors(total, shares)[..k]) <= total * Sum(shares[..k])
    ensures k > 0 ==> total * Sum(shares[..k]) < BPS_DENOMINATOR * Sum(Floors(total, shares)[..k]) + BPS_DENOMINATOR * k
  {
    var floors := Floors(total, shares);
    if k > 0 {
      FloorsWithinTotal(total, shares, k - 1);
      SumPrefix(floors, k - 1);
      SumPrefix(shares, k - 1);
      ShareBounds(total, shares[k - 1]);
      Distribute(total, Sum(shares[..k - 1]), shares[k - 1]);
    }
  }

  /** The floors sum to at most the total, and fall short of it by less than the number of recipients. */
  lemma {:induction false} Remainder(total: nat, shares: seq<uint16>)
    requires |shares| > 0 && Sum(shares) == BPS_DENOMINATOR
    ensures Sum(Floors(total, shares)) <= total < Sum(Floors(total, shares)) + |shares|
  {
    FloorsWithinTotal(total, shares, |shares|);
    assert shares[..|shares|] == shares && Floors(total, shares)[..|shares|] == Floors(total, shares);
  }

  function Allocate(total: nat, shares: seq<uint16>): seq<nat>
    requires |shares| > 0 && Sum(shares) == BPS_DENOMINATOR
  {
    Remainder(total, shares);
    var floors, last := Floors(total, shares), |shares| - 1;
    floors[last := floors[last] + (total - Sum(floors))]
  }

  /**
   * Exact and fair for every total and share vector: the amounts sum to the total; each recipient but the last
   * gets the floor of its share; the last gets at least its own floor and at most |shares| - 1 more; and it gets
   * something whenever there is something to give and its share is positive.
   */
  lemma {:induction false} AllocationFair(total: nat, shares: seq<uint16>)
    requires |shares| > 0 && Sum(shares) == BPS_DENOMINATOR
    ensures var amounts, last := Allocate(total, shares), |shares| - 1;
            && |amounts| == |shares|
            && Sum(amounts) == total
            && (forall i :: 0 <= i < last ==> amounts[i] == Share(total, shares[i]))
            && Share(total, shares[last]) <= amounts[last] <= Share(total, shares[last]) + last
            && (forall i :: 0 <= i < |amounts| ==> amounts[i] <= total)
            && (total > 0 && shares[last] > 0 ==> amounts[last] > 0)
  {
    var amounts, floors, last := Allocate(total, shares), Floors(total, shares), |shares| - 1;
    Remainder(total, shares);
    SumUpdate(floors, last, amounts[last]);
    forall i | 0 <= i < |amounts| ensures amounts[i] <= total {
      SumAtLeast(amounts, i);
    }
    LastShare(total, shares);
  }

  lemma {:induction false} SumAtLeast(xs: seq<nat>, i: nat)
    requires i < |xs|
    ensures xs[i] <= Sum(xs)
  {
    SumPrefix(xs, i);
    SumMonotone(xs, i + 1);
  }

  /** The last amount is at least the exact, unrounded share. */
  lemma {:induction false} LastShare(total: nat, shares: seq<uint16>)
    requires |shares| > 0 && Sum(shares) == BPS_DENOMINATOR
    ensures BPS_DENOMINATOR * Allocate(total, shares)[|shares| - 1] >= total * shares[|shares| - 1]
  {
    var floors, last := Floors(total, shares), |shares| - 1;
    FloorsWithinTotal(total, shares, last);
    Distribute(total, Sum(shares[..last]), shares[last]);
    SumPrefix(floors, last);
    assert floors[..last + 1] == floors;
  }

  /** Every amount is positive exactly when no share but the last rounds to nothing. */
  lemma {:induction false} AllPositiveIff(total: nat, shares: seq<uint16>)
    requires |shares| > 0 && Sum(shares) == BPS_DENOMINATOR && total > 0
    requires forall i :: 0 <= i < |shares| ==> shares[i] > 0
    ensures (forall i :: 0 <= i < |shares| ==> Allocate(total, shares)[i] > 0) <==>
            (forall i :: 0 <= i < |shares| - 1 ==> total * shares[i] >= BPS_DENOMINATOR)
  {
    AllocationFair(total, shares);
    forall i | 0 <= i < |shares| - 1
      ensures Allocate(total, shares)[i] > 0 <==> total * shares[i] >= BPS_DENOMINATOR
    {
      ShareMonotone(total, total, shares[i]);
    }
  }

  /** Every recipient but the last gains from a larger total. */
  lemma ShareMonotone(less: nat, more: nat, share: nat)
    requires less <= more
    ensures Share(less, share) <= Share(more, share)
    ensures Share(more, share) > 0 <==> more * share >= BPS_DENOMINATOR
  {
    assert less * share <= more * share;
  }

  function LastAmount(total: nat, shares: seq<uint16>): nat
    requires |shares| > 0 && Sum(shares) == BPS_DENOMINATOR
  {
    Allocate(total, shares)[|shares| - 1]
  }

  /** The last recipient gets what the floors of the others leave. */
  lemma LastIsRest(total: nat, shares: seq<uint16>)
    requires |shares| > 0 && Sum(shares) == BPS_DENOMINATOR
    ensures LastAmount(total, shares) == total - Sum(Floors(total, shares)[..|shares| - 1])
  {
    hide Share;
    var floors, last := Floors(total, shares), |shares| - 1;
    Remainder(total, shares);
    SumPrefix(floors, last);
    assert floors[..last + 1] == floors;
  }

  /** How many of the first `k` shares are positive. */
  function Positive(shares: seq<uint16>, k: nat): nat
    requires k <= |shares|
  {
    if k == 0 then 0 else Positive(shares, k - 1) + (if shares[k - 1] > 0 then 1 else 0)
  }

  /** At 10 000 every floor is the share itself; at 9 999 it is one less, if the share is positive. */
  lemma {:induction false} FloorsAroundWhole(shares: seq<uint16>, k: nat)
    requires k <= |shares| && forall i :: 0 <= i < |shares| ==> shares[i] <= BPS_DENOMINATOR
    ensures Sum(Floors(10_000, shares)[..k]) == Sum(shares[..k])
    ensures Sum(shares[..k]) == Sum(Floors(9_999, shares)[..k]) + Positive(shares, k)
  {
    hide Share;
    if k > 0 {
      FloorsAroundWhole(shares, k - 1);
      SumPrefix(Floors(10_000, shares), k - 1);
      SumPrefix(Floors(9_999, shares), k - 1);
      SumPrefix(shares, k - 1);
      FloorAroundWhole(shares[k - 1]);
    }
  }

  lemma FloorAroundWhole(share: nat)
    requires share <= BPS_DENOMINATOR
    ensures Share(10_000, share) == share == Share(9_999, share) + (if share > 0 then 1 else 0)
  {
  }

  /** From total 9 999 to 10 000 the last recipient loses one for each other positive share but one. */
  lemma LastDrops(shares: seq<uint16>)
    requires |shares| > 0 && Sum(shares) == BPS_DENOMINATOR
    ensures LastAmount(10_000, shares) + Positive(shares, |shares| - 1) == LastAmount(9_999, shares) + 1
  {
    forall i | 0 <= i < |shares| ensures shares[i] <= BPS_DENOMINATOR { SumAtLeast(shares, i); }
    FloorsAroundWhole(shares, |shares| - 1);
    LastIsRest(9_999, shares);
    LastIsRest(10_000, shares);
  }

  /** A single floor grows no faster than the total, and not at all for a share of nothing. */
  lemma ShareGrowsSlowly(less: nat, more: nat, share: nat)
    requires less <= more && share <= BPS_DENOMINATOR
    ensures Share(more, share) <= Share(less, share) + (if share > 0 then more - less else 0)
  {
    var extra := more - less;
    Distribute(share, less, extra);
    assert extra * share <= extra * BPS_DENOMINATOR;
    assert more * share <= less * share + extra * BPS_DENOMINATOR;
  }

  /** So do the first `k` together while at most one of their shares is positive. */
  lemma {:induction false} FloorsGrowSlowly(less: nat, more: nat, shares: seq<uint16>, k: nat)
    requires less <= more && k <= |shares| && forall i :: 0 <= i < |shares| ==> shares[i] <= BPS_DENOMINATOR
    requires Positive(shares, k) <= 1
    ensures Sum(Floors(more, shares)[..k]) <=
            Sum(Floors(less, shares)[..k]) + (if Positive(shares, k) > 0 then more - less else 0)
  {
    hide Share;
    if k > 0 {
      FloorsGrowSlowly(less, more, shares, k - 1);
      SumPrefix(Floors(less, shares), k - 1);
      SumPrefix(Floors(more, shares), k - 1);
      ShareGrowsSlowly(less, more, shares[k - 1]);
    }
  }

  lemma LastGrows(less: nat, more: nat, shares: seq<uint16>)
    requires |shares| > 0 && Sum(shares) == BPS_DENOMINATOR && Positive(shares, |shares| - 1) <= 1 && less <= more
    ensures LastAmount(less, shares) <= LastAmount(more, shares)
  {
    hide Share, Floors, Sum;
    forall i | 0 <= i < |shares| ensures shares[i] <= BPS_DENOMINATOR { SumAtLeast(shares, i); }
    LastIsRest(less, shares);
    LastIsRest(more, shares);
    FloorsGrowSlowly(less, more, shares, |shares| - 1);
  }

  /** The last recipient, too, never loses from a larger total. */
  ghost predicate LastMonotone(shares: seq<uint16>)
    requires |shares| > 0 && Sum(shares) == BPS_DENOMINATOR
  {
    forall less: nat, more: nat :: less <= more ==> LastAmount(less, shares) <= LastAmount(more, shares)
  }

  /** Exactly when: at most one of the other shares is positive. Otherwise the totals 9 999 and 10 000 show the loss. */
  lemma LastMonotoneIff(shares: seq<uint16>)
    requires |shares| > 0 && Sum(shares) == BPS_DENOMINATOR
    ensures LastMonotone(shares) <==> Positive(shares, |shares| - 1) <= 1
  {
    LastDrops(shares);
    if Positive(shares, |shares| - 1) <= 1 {
      forall less: nat, more: nat | less <= more ensures LastAmount(less, shares) <= LastAmount(more, shares) {
        LastGrows(less, more, shares);
      }
    } else {
      assert LastAmount(9_999, shares) > LastAmount(10_000, shares);
    }
  }

  lemma {:induction false} AllPositive(shares: seq<uint16>, k: nat)
    requires k <= |shares| && forall i :: 0 <= i < |shares| ==> shares[i] > 0
    ensures Positive(shares, k) == k
  {
    if k > 0 { AllPositive(shares, k - 1); }
  }

  /** For the shares of a stored policy, which are all positive: exactly when there are at most two recipients. */
  lemma LastMonotoneIffTwo(shares: seq<uint16>)
    requires |shares| > 0 && Sum(shares) == BPS_DENOMINATOR && forall i :: 0 <= i < |shares| ==> shares[i] > 0
    ensures LastMonotone(shares) <==> |shares| <= 2
  {
    LastMonotoneIff(shares);
    AllPositive(shares, |shares| - 1);
  }

  /** For example, with three almost equal shares it gets 3 out of 3, but 2 out of 4. */
  lemma LastNotMonotone()
    ensures var shares: seq<uint16> := [3333, 3333, 3334];
            && Sum(shares) == BPS_DENOMINATOR
            && Allocate(3, shares)[2] == 3 && Allocate(4, shares)[2] == 2
  {
    var shares: seq<uint16> := [3333, 3333, 3334];
    SumOfThree(shares);
    SumOfThree(Floors(3, shares));
    SumOfThree(Floors(4, shares));
  }

  lemma {:induction false} SumOfNone(xs: seq<nat>)
    requires xs == []
    ensures Sum(xs) == 0
  {
  }

  lemma {:induction false} SumOfThree(xs: seq<nat>)
    requires |xs| == 3
    ensures Sum(xs) == xs[0] + xs[1] + xs[2]
  {
    SumPrefix(xs, 0);
    SumPrefix(xs, 1);
    SumPrefix(xs, 2);
    assert xs[..3] == xs;
  }

  /**
   * The extension's computation: shares are totalled while amounts are filled in, then the last slot is corrected in
   * place.
   */
  method ComputeAmounts(total: nat, shares: seq<uint16>) returns (amounts: array<nat>, valid: bool)
    requires |shares| > 0
    ensures fresh(amounts)
    ensures valid <==> Sum(shares) == BPS_DENOMINATOR
    ensures valid ==> amounts[..] == Allocate(total, shares)
  {
    hide Share, Sum;
    amounts := new nat[|shares|];
    assert Sum(shares[..0]) == 0 by { SumOfNone(shares[..0]); }
    var sum: nat := 0;
    var i := 0;
    while i < |shares|
      invariant 0 <= i <= |shares|
      invariant sum == Sum(shares[..i])
      invariant forall k :: 0 <= k < i ==> amounts[k] == Share(total, shares[k])
    {
      SumPrefix(shares, i);
      sum := sum + shares[i];
      amounts[i] := Share(total, shares[i]);
      i := i + 1;
    }
    assert shares[..|shares|] == shares;
    ghost var floors := Floors(total, shares);
    assert amounts[..] == floors;
    assert Sum(floors[..0]) == 0 by { SumOfNone(floors[..0]); }
    var distributed: nat := 0;
    var j := 0;
    while j < amounts.Length
      invariant 0 <= j <= amounts.Length
      invariant distributed == Sum(floors[..j])
      invariant amounts[..] == floors
    {
      SumPrefix(floors, j);
      assert amounts[..][j] == floors[j];
      distributed := distributed + amounts[j];
      j := j + 1;
    }
    assert floors[..amounts.Length] == floors;
    valid := sum == 10_000;
    if valid {
      Remainder(total, shares);
      amounts[amounts.Length - 1] := amounts[amounts.Length - 1] + (total - distributed);
      assert amounts[..] == floors[|floors| - 1 := floors[|floors| - 1] + (total - Sum(floors))];
    }
  }
}
