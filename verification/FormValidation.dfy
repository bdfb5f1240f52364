/** The web form's participant validation, and its agreement with the contract's. */
module FormValidation {
  import opened Evm
  import ParticipantRules

  /**
   * A row of the form. `address` is the parsed EVM address, if the text is one; `share` a finite number of per cent.
   */
  datatype ParticipantInput = ParticipantInput(name: string, address: Option<Address>, share: real)

  datatype FormError = Count | BadAddress | BadShare | BadTotal | Duplicate

  datatype FormResult = Valid(addresses: seq<Address>, sharesBps: seq<nat>) | Faulty(error: FormError)

  predicate Whole(x: real) { x.Floor as real == x }

  function ShareSum(ps: seq<ParticipantInput>): real
  {
    if |ps| == 0 then 0.0 else ShareSum(ps[..|ps| - 1]) + ps[|ps| - 1].share
  }

  function Addresses(ps: seq<ParticipantInput>): (addresses: seq<Address>)
    requires forall i :: 0 <= i < |ps| ==> ps[i].address.Some?
    ensures |addresses| == |ps| && forall i :: 0 <= i < |ps| ==> addresses[i] == ps[i].address.value
  {
    seq(|ps|, i requires 0 <= i < |ps| => ps[i].address.value)
  }

  function Elements(xs: seq<Address>): set<Address> { set a | a in xs }

  function ValidateForm(ps: seq<ParticipantInput>): FormResult
  {
    if |ps| == 0 || |ps| > 32 then Faulty(Count)
    else if exists i :: 0 <= i < |ps| && ps[i].address.None? then Faulty(BadAddress)
    else if exists i :: 0 <= i < |ps| && (!Whole(ps[i].share) || ps[i].share <= 0.0) then Faulty(BadShare)
    else if ShareSum(ps) != 100.0 then Faulty(BadTotal)
    else
      var addresses := Addresses(ps);
      if |Elements(addresses)| != |addresses| then Faulty(Duplicate)
      else Valid(addresses, seq(|ps|, i requires 0 <= i < |ps| && ps[i].share > 0.0 => (ps[i].share * 100.0).Floor))
  }

  predicate Distinct(xs: seq<Address>) { forall i, j :: 0 <= j < i < |xs| ==> xs[i] != xs[j] }

  lemma DistinctLast(xs: seq<Address>)
    requires |xs| > 0
    ensures Distinct(xs) <==> Distinct(xs[..|xs| - 1]) && xs[|xs| - 1] !in xs[..|xs| - 1]
  {
    var front := xs[..|xs| - 1];
    assert forall j :: 0 <= j < |front| ==> front[j] == xs[j];
  }

  /** Comparing the number of distinct elements with the length decides whether all are distinct. */
  lemma {:induction false} DistinctIffSetSize(xs: seq<Address>)
    ensures |Elements(xs)| == |xs| <==> Distinct(xs)
    ensures |Elements(xs)| <= |xs|
  {
    if |xs| > 0 {
      var n := |xs| - 1;
      var front := xs[..n];
      var all, rest := Elements(xs), Elements(front);
      hide Distinct;
      DistinctLast(xs);
      DistinctIffSetSize(front);
      assert xs == front + [xs[n]];
      assert all == rest + {xs[n]};
      if xs[n] in front {
        assert all == rest;
      }
    }
  }

  /** A whole positive percentage is a whole number of basis points, at least one hundred. */
  lemma WholeShare(share: real)
    requires Whole(share) && share > 0.0
    ensures (share * 100.0).Floor as real == share * 100.0 && (share * 100.0).Floor >= 100
  {
    assert (share.Floor * 100) as real == share * 100.0;
  }

  lemma ScaledSum(before: nat, last: nat, sum: real, share: real)
    requires before as real == sum * 100.0 && last as real == share * 100.0
    ensures (before + last) as real == (sum + share) * 100.0
  {
  }

  /** Whole percentages times one hundred, as basis points. */
  lemma {:induction false} BasisPointSum(ps: seq<ParticipantInput>, bps: seq<nat>)
    requires |bps| == |ps|
    requires forall i :: 0 <= i < |ps| ==>
             Whole(ps[i].share) && ps[i].share > 0.0 && bps[i] == (ps[i].share * 100.0).Floor
    ensures Sum(bps) as real == ShareSum(ps) * 100.0
    ensures forall i :: 0 <= i < |ps| ==> 100 <= bps[i] <= Sum(bps)
  {
    hide Whole;
    if |ps| > 0 {
      var n := |ps| - 1;
      BasisPointSum(ps[..n], bps[..n]);
      WholeShare(ps[n].share);
      ScaledSum(Sum(bps[..n]), bps[n], ShareSum(ps[..n]), ps[n].share);
      forall i | 0 <= i < |ps| ensures 100 <= bps[i] <= Sum(bps) {
        if i < n {
          assert bps[..n][i] == bps[i];
        }
      }
    }
  }

  /** What the form accepts, the contract accepts exactly when no recipient is the zero address. */
  lemma FormAgreesWithContract(ps: seq<ParticipantInput>)
    requires ValidateForm(ps).Valid?
    ensures var r := ValidateForm(ps);
            && (forall i :: 0 <= i < |r.sharesBps| ==> r.sharesBps[i] < TWO_16)
            && (ParticipantRules.ValidParticipants(r.addresses, r.sharesBps) <==> ZERO_ADDRESS !in r.addresses)
  {
    var r := ValidateForm(ps);
    BasisPointSum(ps, r.sharesBps);
    assert Sum(r.sharesBps) == 10_000;
    DistinctIffSetSize(r.addresses);
    if ZERO_ADDRESS in r.addresses {
      var k :| 0 <= k < |r.addresses| && r.addresses[k] == ZERO_ADDRESS;
    }
  }

  /** A form that names 1 to 32 different addresses with positive whole percentages that make up 100. */
  ghost predicate GoodForm(ps: seq<ParticipantInput>)
  {
    && 1 <= |ps| <= 32
    && (forall i :: 0 <= i < |ps| ==> ps[i].address.Some? && Whole(ps[i].share) && ps[i].share > 0.0)
    && ShareSum(ps) == 100.0
    && (forall i, j :: 0 <= j < i < |ps| ==> ps[i].address != ps[j].address)
  }

  /** What the form returns are its own rows, in order: each address with its percentage in basis points. */
  predicate RowByRow(ps: seq<ParticipantInput>, addresses: seq<Address>, sharesBps: seq<nat>)
  {
    && |addresses| == |sharesBps| == |ps|
    && forall i :: 0 <= i < |ps| ==>
         ps[i].address == Some(addresses[i]) && sharesBps[i] as real == ps[i].share * 100.0
  }

  /** Exactly the good forms are accepted, with their rows; another is told something that is wrong with it. */
  lemma AcceptsIff(ps: seq<ParticipantInput>)
    ensures ValidateForm(ps).Valid? <==> GoodForm(ps)
    ensures ValidateForm(ps).Valid? ==> RowByRow(ps, ValidateForm(ps).addresses, ValidateForm(ps).sharesBps)
    ensures ValidateForm(ps).Faulty? ==> FaultTrue(ps, ValidateForm(ps).error)
  {
    hide Whole, ShareSum;
    if forall i :: 0 <= i < |ps| ==> ps[i].address.Some? {
      var addresses := Addresses(ps);
      DistinctIffSetSize(addresses);
      assert Distinct(addresses) <==> forall i, j :: 0 <= j < i < |ps| ==> ps[i].address != ps[j].address by {
        if !Distinct(addresses) {
          var i, j :| 0 <= j < i < |addresses| && addresses[i] == addresses[j];
          assert ps[i].address == ps[j].address;
        }
      }
    }
    forall i | 0 <= i < |ps| && Whole(ps[i].share) && ps[i].share > 0.0
      ensures (ps[i].share * 100.0).Floor as real == ps[i].share * 100.0
    {
      WholeShare(ps[i].share);
    }
  }

  ghost predicate FaultTrue(ps: seq<ParticipantInput>, error: FormError)
  {
    match error
    case Count => |ps| == 0 || |ps| > 32
    case BadAddress => exists i :: 0 <= i < |ps| && ps[i].address.None?
    case BadShare => exists i :: 0 <= i < |ps| && (!Whole(ps[i].share) || ps[i].share <= 0.0)
    case BadTotal => ShareSum(ps) != 100.0
    case Duplicate => exists i, j :: 0 <= j < i < |ps| && ps[i].address == ps[j].address
  }

  /** The zero address does get through the form: a single recipient with the whole share will do. */
  lemma FormTakesZeroAddress()
    ensures var r := ValidateForm([ParticipantInput("Nobody", Some(ZERO_ADDRESS), 100.0)]);
            r.Valid? && r.addresses == [ZERO_ADDRESS] && !ParticipantRules.ValidParticipants(r.addresses, r.sharesBps)
  {
    var p := ParticipantInput("Nobody", Some(ZERO_ADDRESS), 100.0);
    assert ShareSum([p]) == 100.0 by { assert ShareSum([p][..0]) == 0.0; }
    assert Addresses([p]) == [ZERO_ADDRESS];
    assert Elements([ZERO_ADDRESS]) == {ZERO_ADDRESS};
    assert Whole(p.share);
    FormAgreesWithContract([p]);
  }
}
