/**
 * The invariant of the contract's storage and its preservation by every successful call. Each call
 * refines one entry of the lifecycle automaton, casts included.
 */
module Invariant {
  import opened Evm
  import ParticipantRules
  import opened Protocol
  import opened Lifecycle
  import History

  // ---- Total escrow over a map of policies ----

  ghost function PickKey(ps: map<Bytes32, Policy>): (k: Bytes32)
    requires |ps| > 0
    ensures k in ps
  {
    var k :| k in ps;
    k
  }

  ghost function TotalEscrow(ps: map<Bytes32, Policy>): nat
    decreases |ps|
  {
    if |ps| == 0 then 0 else
    var k := PickKey(ps);
    ps[k].fundedAmount + TotalEscrow(ps - {k})
  }

  lemma {:induction false} TotalEscrowSplit(ps: map<Bytes32, Policy>, k: Bytes32)
    requires k in ps
    ensures TotalEscrow(ps) == ps[k].fundedAmount + TotalEscrow(ps - {k})
    decreases |ps|
  {
    var j := PickKey(ps);
    if j != k {
      TotalEscrowSplit(ps - {j}, k);
      TotalEscrowSplit(ps - {k}, j);
      assert ps - {j} - {k} == ps - {k} - {j};
    }
  }

  /** Writing one record changes the total by that record's difference. */
  lemma {:induction false} TotalEscrowPut(ps: map<Bytes32, Policy>, k: Bytes32, p: Policy)
    ensures TotalEscrow(ps[k := p]) ==
            TotalEscrow(ps) - (if k in ps then ps[k].fundedAmount else 0) + p.fundedAmount
  {
    hide TotalEscrow;
    TotalEscrowSplit(ps[k := p], k);
    assert ps[k := p] - {k} == ps - {k};
    if k in ps {
      TotalEscrowSplit(ps, k);
    } else {
      assert ps - {k} == ps;
    }
  }

  // ---- The invariant ----

  /** The payout loop or refund in progress, if any: the transfers of policy `id` not yet made. */
  datatype Flight = Quiet | Paying(id: Bytes32, due: seq<Payment>)

  function Owed(f: Flight, id: Bytes32): seq<Payment>
  {
    if f.Paying? && f.id == id then f.due else []
  }

  function Unpaid(f: Flight): nat { if f.Paying? then History.PaymentSum(f.due) else 0 }

  /** The record `p`, with the stored vectors, is what the history determines; `due` is still to be transferred. */
  ghost predicate Tracked(c: Chain, id: Bytes32, p: Policy, trail: seq<Entry>, recipients: seq<Address>,
                          shares: seq<uint16>, now: nat, due: seq<Payment>)
  {
    var a := Replay(c, id, trail);
    && a.Some?
    && a.value.policy == p
    && a.value.terms.recipients == recipients && a.value.terms.sharesBps == shares
    && a.value.clock <= now
    && a.value.due == due
  }

  ghost predicate TrackedIn(c: Chain, s: Core, id: Bytes32, now: nat, f: Flight)
    requires id in s.policies
  {
    Tracked(c, id, s.policies[id], TrailOf(s, id), RecipientsOf(s, id), SharesOf(s, id), now, Owed(f, id))
  }

  /** A policy id embeds its owner and a nonce below that owner's counter. */
  predicate NonceUsed(s: Core, id: Bytes32)
  {
    id.Keccak? && id.preimage.PolicyKey? && id.preimage.ownerNonce < NonceOf(s, id.preimage.owner)
  }

  /** Every stored policy is what its own history determines, its terms unchanged since creation. */
  ghost predicate Records(c: Chain, s: Core, now: nat, f: Flight)
  {
    && (forall id :: id in s.policies ==> TrackedIn(c, s, id, now, f))
    && (forall id :: id in s.policies ==> NonceUsed(s, id))
    && s.trails.Keys == s.policies.Keys
    && (f.Paying? ==> f.id in s.policies)
  }

  function ProofDigests(ps: map<Bytes32, Policy>): map<Bytes32, Bytes32>
  {
    map id | id in ps :: ps[id].externalProofDigest
  }

  function ResultDigests(ps: map<Bytes32, Policy>): map<Bytes32, Bytes32>
  {
    map id | id in ps :: ps[id].resultDigest
  }

  /** The used digests are exactly the non-zero digests held, each held by one policy. */
  ghost predicate UsedOnce(held: map<Bytes32, Bytes32>, used: set<Bytes32>)
  {
    && (forall id :: id in held && held[id] != ZERO ==> held[id] in used)
    && (forall d :: d in used ==> d != ZERO && exists id :: id in held && held[id] == d)
    && (forall i, j :: i in held && j in held && i != j && held[i] != ZERO ==> held[i] != held[j])
  }

  ghost predicate Solvent(s: Core, f: Flight)
  {
    s.balance == TotalEscrow(s.policies) + Unpaid(f)
  }

  ghost predicate CoreInv(c: Chain, s: Core, now: nat, f: Flight)
  {
    && Records(c, s, now, f)
    && UsedOnce(ProofDigests(s.policies), s.usedProofDigests)
    && UsedOnce(ResultDigests(s.policies), s.usedResultDigests)
    && Solvent(s, f)
  }

  lemma CoreRecords(c: Chain, s: Core, now: nat, f: Flight)
    requires CoreInv(c, s, now, f)
    ensures Records(c, s, now, f)
  {
  }

  lemma GenesisInv(c: Chain, now: nat)
    ensures CoreInv(c, GENESIS, now, Quiet)
  {
  }

  lemma RecordsLater(c: Chain, s: Core, now: nat, later: nat, f: Flight)
    requires Records(c, s, now, f) && now <= later
    ensures Records(c, s, later, f)
  {
    forall id | id in s.policies ensures TrackedIn(c, s, id, later, f) {
      assert TrackedIn(c, s, id, now, f);
    }
  }

  lemma InvLater(c: Chain, s: Core, now: nat, later: nat, f: Flight)
    requires CoreInv(c, s, now, f) && now <= later
    ensures CoreInv(c, s, later, f)
  {
    hide Records, UsedOnce;
    RecordsLater(c, s, now, later, f);
  }

  ghost function AccountOf(c: Chain, s: Core, id: Bytes32): Account
    requires Replay(c, id, TrailOf(s, id)).Some?
  {
    Replay(c, id, TrailOf(s, id)).value
  }

  /** What the invariant says about one policy. */
  lemma Known(c: Chain, s: Core, id: Bytes32, now: nat, f: Flight)
    requires Records(c, s, now, f) && id in s.policies
    ensures Replay(c, id, TrailOf(s, id)).Some?
    ensures WellKept(c, id, AccountOf(c, s, id))
    ensures AccountOf(c, s, id).policy == s.policies[id] && AccountOf(c, s, id).clock <= now
    ensures AccountOf(c, s, id).terms.recipients == RecipientsOf(s, id)
    ensures AccountOf(c, s, id).terms.sharesBps == SharesOf(s, id)
    ensures AccountOf(c, s, id).due == Owed(f, id)
  {
    hide Apply;
    assert TrackedIn(c, s, id, now, f);
    ReplayKeeps(c, id, TrailOf(s, id));
  }

  predicate MoneyRule(p: Policy)
  {
    && (p.status == Draft ==> p.fundedAmount < p.targetAmount)
    && (1 <= Stage(p.status) <= 6 ==> p.fundedAmount == p.targetAmount)
    && (p.status == Cancelled ==> p.fundedAmount <= p.targetAmount)
    && (p.status == Settled || p.status == Refunded ==> p.fundedAmount == 0)
    && p.settledAmount == (if p.status == Settled then p.targetAmount else 0)
  }

  predicate EvidenceRule(p: Policy)
  {
    && p.status != ResultAuthenticated
    && (p.status == Cancelled ==> p.externalProofDigest == ZERO)
    && (NotReached(p, 3) ==> p.externalProofDigest == ZERO)
    && (NotReached(p, 4) ==> p.resultNonce == 0)
    && p.resultNonce <= 1
    && (NotReached(p, 6) ==> p.resultDigest == ZERO)
    && (Reached(p, 3) ==> p.externalProofDigest != ZERO)
    && (Reached(p, 3) ==> p.sourceTransactionHash != ZERO)
    && (NotReached(p, 3) ==> p.sourceTransactionHash == ZERO)
    && (Reached(p, 4) ==> p.privateInputHash != ZERO)
    && (NotReached(p, 4) ==> p.privateInputHash == ZERO && p.computationReference == ZERO)
    && (Reached(p, 4) ==> p.resultNonce == 1)
    && (Reached(p, 6) ==> p.resultDigest != ZERO)
  }

  predicate StampRule(p: Policy)
  {
    && p.createdAt < p.expiry
    && (Stage(p.status) < 2 ==> p.proofRequestedAt == 0)
    && (NotReached(p, 3) ==> p.proofVerifiedAt == 0)
    && (NotReached(p, 6) ==> p.resultAuthenticatedAt == 0)
    && (p.status != Settled ==> p.settledAt == 0)
    && (Reached(p, 2) ==> p.createdAt <= p.proofRequestedAt < p.expiry)
    && (Reached(p, 3) ==> p.proofRequestedAt <= p.proofVerifiedAt < p.expiry)
    && (Reached(p, 6) ==> p.proofVerifiedAt <= p.resultAuthenticatedAt < p.expiry)
    && (Reached(p, 7) ==> p.resultAuthenticatedAt <= p.settledAt < p.expiry)
  }

  /** Escrow, settled amount, evidence, nonce and time stamps of a stored record, by status. */
  predicate RecordRule(c: Chain, p: Policy)
  {
    p.targetAmount > 0 && Caller(c, p.owner) && MoneyRule(p) && EvidenceRule(p) && StampRule(p)
  }

  lemma KeptRules(c: Chain, id: Bytes32, a: Account)
    requires MoneyByStatus(a) && EvidenceByStatus(c, id, a)
    ensures MoneyRule(a.policy) && EvidenceRule(a.policy)
  {
  }

  lemma KeptStamps(a: Account)
    requires StampsInOrder(a) && a.policy.createdAt < a.policy.expiry
    ensures StampRule(a.policy)
  {
  }

  lemma KnownRule(c: Chain, s: Core, id: Bytes32, now: nat, f: Flight)
    requires CoreInv(c, s, now, f) && id in s.policies
    ensures RecordRule(c, s.policies[id])
  {
    hide Replay, CoreInv, MoneyByStatus, EvidenceByStatus, StampsInOrder, MoneyRule, EvidenceRule, StampRule;
    CoreRecords(c, s, now, f);
    Known(c, s, id, now, f);
    KeptRules(c, id, AccountOf(c, s, id));
    KeptStamps(AccountOf(c, s, id));
  }

  // ---- One step of one policy ----

  lemma {:induction false} ReplayAppend(c: Chain, id: Bytes32, trail: seq<Entry>, e: Entry)
    requires |trail| > 0 ==> Replay(c, id, trail).Some?
    ensures Replay(c, id, trail + [e]) == Apply(c, id, Replay(c, id, trail), e)
  {
    hide Apply;
    assert (trail + [e])[..|trail|] == trail;
  }

  /** `s'` gives policy `id` the record `p` and one more history line, and touches no other policy. */
  ghost predicate Extends(s: Core, id: Bytes32, p: Policy, e: Entry, s': Core)
  {
    && s'.policies == s.policies[id := p]
    && s'.trails == s.trails[id := TrailOf(s, id) + [e]]
    && (forall other :: other != id ==>
          RecipientsOf(s', other) == RecipientsOf(s, other) && SharesOf(s', other) == SharesOf(s, other))
    && (forall owner :: NonceOf(s, owner) <= NonceOf(s', owner))
  }

  /** The same for a policy that exists already: its vectors, and everyone's nonces, stay. */
  ghost predicate Writes(s: Core, id: Bytes32, e: Entry, s': Core)
  {
    && id in s.policies && id in s'.policies
    && s'.policies == s.policies[id := s'.policies[id]]
    && s'.trails == s.trails[id := TrailOf(s, id) + [e]]
    && s'.recipients == s.recipients && s'.shares == s.shares && s'.ownerNonces == s.ownerNonces
  }

  lemma WritesExtends(s: Core, id: Bytes32, e: Entry, s': Core)
    requires Writes(s, id, e, s')
    ensures Extends(s, id, s'.policies[id], e, s')
    ensures RecipientsOf(s', id) == RecipientsOf(s, id) && SharesOf(s', id) == SharesOf(s, id)
  {
  }

  lemma TrackedElsewhere(c: Chain, s: Core, id: Bytes32, p: Policy, e: Entry, s': Core, other: Bytes32, now: nat,
                         f: Flight, f': Flight)
    requires Extends(s, id, p, e, s') && other != id && other in s.policies && Owed(f, other) == Owed(f', other)
    requires TrackedIn(c, s, other, now, f) && NonceUsed(s, other)
    ensures TrackedIn(c, s', other, now, f') && NonceUsed(s', other)
  {
    hide Tracked;
    assert TrailOf(s', other) == TrailOf(s, other);
  }

  /** Framing: when the extended policy is tracked, all policies are. */
  lemma ExtendRecords(c: Chain, s: Core, id: Bytes32, p: Policy, e: Entry, s': Core, now: nat, f: Flight, f': Flight)
    requires Records(c, s, now, f) && Extends(s, id, p, e, s')
    requires TrackedIn(c, s', id, now, f') && NonceUsed(s', id)
    requires forall other :: other != id ==> Owed(f, other) == Owed(f', other)
    requires f'.Paying? ==> f'.id == id || f' == f
    ensures Records(c, s', now, f')
  {
    hide TrackedIn, NonceUsed;
    forall k | k in s'.policies ensures TrackedIn(c, s', k, now, f') && NonceUsed(s', k) {
      if k != id {
        assert TrackedIn(c, s, k, now, f) && NonceUsed(s, k);
        TrackedElsewhere(c, s, id, p, e, s', k, now, f, f');
      }
    }
  }

  /** The automaton accepts entry `e` of `id` from account `a`, reaching record `p` and transfers `due`. */
  predicate Advances(c: Chain, id: Bytes32, a: Account, e: Entry, p: Policy, due: seq<Payment>, now: nat)
  {
    var next := Apply(c, id, Some(a), e);
    next.Some? && next.value.policy == p && next.value.terms == a.terms && next.value.due == due
      && next.value.clock <= now
  }

  lemma AdvanceTracked(c: Chain, s: Core, id: Bytes32, e: Entry, s': Core, now: nat, f: Flight, f': Flight)
    requires Records(c, s, now, f) && Writes(s, id, e, s')
    requires Replay(c, id, TrailOf(s, id)).Some?
    requires Advances(c, id, AccountOf(c, s, id), e, s'.policies[id], Owed(f', id), now)
    ensures TrackedIn(c, s', id, now, f') && NonceUsed(s', id)
  {
    hide Apply, WellKept;
    Known(c, s, id, now, f);
    ReplayAppend(c, id, TrailOf(s, id), e);
    assert NonceUsed(s, id);
  }

  /** A step on an existing policy that the automaton accepts keeps all records. */
  lemma AdvanceRecords(c: Chain, s: Core, id: Bytes32, e: Entry, s': Core, now: nat, f: Flight, f': Flight)
    requires Records(c, s, now, f) && Writes(s, id, e, s')
    requires Replay(c, id, TrailOf(s, id)).Some?
    requires Advances(c, id, AccountOf(c, s, id), e, s'.policies[id], Owed(f', id), now)
    requires forall other :: other != id ==> Owed(f, other) == Owed(f', other)
    requires f'.Paying? ==> f'.id == id || f' == f
    ensures Records(c, s', now, f')
  {
    hide Replay, Records, Advances, Extends, TrackedIn, NonceUsed;
    AdvanceTracked(c, s, id, e, s', now, f, f');
    WritesExtends(s, id, e, s');
    ExtendRecords(c, s, id, s'.policies[id], e, s', now, f, f');
  }

  // ---- Replay sets ----

  lemma DigestsPut(ps: map<Bytes32, Policy>, id: Bytes32, p: Policy)
    ensures ProofDigests(ps[id := p]) == ProofDigests(ps)[id := p.externalProofDigest]
    ensures ResultDigests(ps[id := p]) == ResultDigests(ps)[id := p.resultDigest]
  {
  }

  lemma UsedUnchanged(held: map<Bytes32, Bytes32>, used: set<Bytes32>, id: Bytes32, d: Bytes32)
    requires UsedOnce(held, used)
    requires if id in held then held[id] == d else d == ZERO
    ensures UsedOnce(held[id := d], used)
  {
    var held' := held[id := d];
    forall x | x in used ensures exists k :: k in held' && held'[k] == x {
      var k :| k in held && held[k] == x;
      assert k in held' && held'[k] == x;
    }
  }

  /** A fresh digest given to a policy that had none is from then on held once and used. */
  lemma UsedFresh(held: map<Bytes32, Bytes32>, used: set<Bytes32>, id: Bytes32, d: Bytes32)
    requires UsedOnce(held, used)
    requires id in held && held[id] == ZERO && d != ZERO && d !in used
    ensures UsedOnce(held[id := d], used + {d})
  {
    var held' := held[id := d];
    forall x | x in used + {d} ensures exists k :: k in held' && held'[k] == x {
      if x == d {
        assert held'[id] == x;
      } else {
        var k :| k in held && held[k] == x;
        assert k in held' && held'[k] == x;
      }
    }
  }

  /** A step that changes neither digest of its policy, nor the replay sets, keeps them exact. */
  lemma SameDigests(s: Core, id: Bytes32, p: Policy, s': Core)
    requires UsedOnce(ProofDigests(s.policies), s.usedProofDigests)
    requires UsedOnce(ResultDigests(s.policies), s.usedResultDigests)
    requires s'.policies == s.policies[id := p]
    requires s'.usedProofDigests == s.usedProofDigests && s'.usedResultDigests == s.usedResultDigests
    requires if id in s.policies then
               p.externalProofDigest == s.policies[id].externalProofDigest
                 && p.resultDigest == s.policies[id].resultDigest
             else p.externalProofDigest == ZERO == p.resultDigest
    ensures UsedOnce(ProofDigests(s'.policies), s'.usedProofDigests)
    ensures UsedOnce(ResultDigests(s'.policies), s'.usedResultDigests)
  {
    hide UsedOnce;
    DigestsPut(s.policies, id, p);
    UsedUnchanged(ProofDigests(s.policies), s.usedProofDigests, id, p.externalProofDigest);
    UsedUnchanged(ResultDigests(s.policies), s.usedResultDigests, id, p.resultDigest);
  }

  /** Records, replay sets and balance together, for a step on an existing policy that touches no digest. */
  lemma AdvanceKeeps(c: Chain, s: Core, id: Bytes32, e: Entry, s': Core, now: nat, f: Flight, f': Flight)
    requires CoreInv(c, s, now, f) && Writes(s, id, e, s')
    requires Replay(c, id, TrailOf(s, id)).Some?
    requires Advances(c, id, AccountOf(c, s, id), e, s'.policies[id], Owed(f', id), now)
    requires forall other :: other != id ==> Owed(f, other) == Owed(f', other)
    requires f'.Paying? ==> f'.id == id || f' == f
    requires s'.usedProofDigests == s.usedProofDigests && s'.usedResultDigests == s.usedResultDigests
    requires s'.policies[id].externalProofDigest == s.policies[id].externalProofDigest
    requires s'.policies[id].resultDigest == s.policies[id].resultDigest
    requires s'.balance + s.policies[id].fundedAmount + Unpaid(f) ==
             s.balance + s'.policies[id].fundedAmount + Unpaid(f')
    ensures CoreInv(c, s', now, f')
  {
    hide Records, UsedOnce, Advances, Replay;
    AdvanceRecords(c, s, id, e, s', now, f, f');
    SameDigests(s, id, s'.policies[id], s');
    TotalEscrowPut(s.policies, id, s'.policies[id]);
  }

  // ---- The calls refine the automaton ----

  /** A fresh nonce gives a fresh id. */
  lemma FreshId(c: Chain, s: Core, owner: Address, q: CreateParams, now: nat, f: Flight)
    requires Records(c, s, now, f)
    ensures PolicyIdOf(c, owner, NonceOf(s, owner), q) !in s.policies
  {
    hide Tracked;
    var id := PolicyIdOf(c, owner, NonceOf(s, owner), q);
    assert id in s.policies ==> NonceUsed(s, id);
  }

  lemma CreateRefines(c: Chain, s: Core, m: Msg, q: CreateParams)
    requires Create(c, s, m, q).Ok? && Caller(c, m.sender)
    ensures var nonce := NonceOf(s, m.sender);
            var id := PolicyIdOf(c, m.sender, nonce, q);
            var p := Create(c, s, m, q).value.policies[id];
            Apply(c, id, None, Created(m.sender, nonce, q, m.now)) == Some(Account(p, q, nonce, None, [], [], 0, m.now))
  {
    ParticipantRules.ValidationDecides(q.recipients, q.sharesBps);
  }

  lemma CreateExtends(c: Chain, s: Core, m: Msg, q: CreateParams)
    requires Create(c, s, m, q).Ok?
    ensures var nonce := NonceOf(s, m.sender);
            var id := PolicyIdOf(c, m.sender, nonce, q);
            && id !in s.policies && id in Create(c, s, m, q).value.policies
            && Extends(s, id, NewPolicy(m.sender, q, m.now), Created(m.sender, nonce, q, m.now),
                       Create(c, s, m, q).value)
  {
  }

  lemma CreateTracked(c: Chain, s: Core, m: Msg, q: CreateParams, f: Flight)
    requires Records(c, s, m.now, f) && Caller(c, m.sender)
    requires Create(c, s, m, q).Ok?
    ensures var id := PolicyIdOf(c, m.sender, NonceOf(s, m.sender), q);
            var s' := Create(c, s, m, q).value;
            id in s'.policies && TrackedIn(c, s', id, m.now, f) && NonceUsed(s', id)
  {
    hide Apply, TrackedIn, ParticipantHash;
    var s' := Create(c, s, m, q).value;
    var nonce := NonceOf(s, m.sender);
    var id := PolicyIdOf(c, m.sender, nonce, q);
    var e := Created(m.sender, nonce, q, m.now);
    CreateExtends(c, s, m, q);
    CreateRefines(c, s, m, q);
    ReplayAppend(c, id, [], e);
    NewTracked(c, s', id, e, m.now, f);
  }

  lemma NewTracked(c: Chain, s': Core, id: Bytes32, e: Entry, now: nat, f: Flight)
    requires id in s'.policies && TrailOf(s', id) == [e] && Owed(f, id) == []
    requires var a := Replay(c, id, [e]);
             && a.Some? && a.value.policy == s'.policies[id] && a.value.clock <= now && a.value.due == []
             && a.value.terms.recipients == RecipientsOf(s', id) && a.value.terms.sharesBps == SharesOf(s', id)
    ensures TrackedIn(c, s', id, now, f)
  {
    hide Apply;
  }

  lemma CreateRecords(c: Chain, s: Core, m: Msg, q: CreateParams, f: Flight)
    requires Records(c, s, m.now, f) && Caller(c, m.sender)
    requires Create(c, s, m, q).Ok?
    ensures Records(c, Create(c, s, m, q).value, m.now, f)
  {
    hide Records, TrackedIn, NonceUsed, Extends, Create;
    var nonce := NonceOf(s, m.sender);
    CreateExtends(c, s, m, q);
    CreateTracked(c, s, m, q, f);
    ExtendRecords(c, s, PolicyIdOf(c, m.sender, nonce, q), NewPolicy(m.sender, q, m.now),
                  Created(m.sender, nonce, q, m.now), Create(c, s, m, q).value, m.now, f, f);
  }

  lemma CreateEffects(c: Chain, s: Core, m: Msg, q: CreateParams)
    requires Create(c, s, m, q).Ok?
    ensures var id, s' := PolicyIdOf(c, m.sender, NonceOf(s, m.sender), q), Create(c, s, m, q).value;
            && id !in s.policies && s'.policies == s.policies[id := NewPolicy(m.sender, q, m.now)]
            && s'.usedProofDigests == s.usedProofDigests && s'.usedResultDigests == s.usedResultDigests
            && s'.balance == s.balance
  {
  }

  lemma CreateKeeps(c: Chain, s: Core, m: Msg, q: CreateParams, f: Flight)
    requires CoreInv(c, s, m.now, f) && Caller(c, m.sender)
    requires Create(c, s, m, q).Ok?
    ensures CoreInv(c, Create(c, s, m, q).value, m.now, f)
  {
    hide UsedOnce, Records, Extends, Create;
    var s' := Create(c, s, m, q).value;
    var id, p := PolicyIdOf(c, m.sender, NonceOf(s, m.sender), q), NewPolicy(m.sender, q, m.now);
    CreateEffects(c, s, m, q);
    CreateRecords(c, s, m, q, f);
    SameDigests(s, id, p, s');
    TotalEscrowPut(s.policies, id, p);
  }

  lemma FundWrites(s: Core, m: Msg, id: Bytes32)
    requires Fund(s, m, id).Ok?
    ensures Writes(s, id, Deposited(m.sender, m.value, m.now), Fund(s, m, id).value)
  {
  }

  lemma FundRefines(c: Chain, s: Core, m: Msg, id: Bytes32, a: Account)
    requires id in s.policies && a.policy == s.policies[id] && a.clock <= m.now
    requires Fund(s, m, id).Ok?
    ensures Advances(c, id, a, Deposited(m.sender, m.value, m.now), Fund(s, m, id).value.policies[id], a.due, m.now)
  {
    assert ToUint128(m.value) == m.value;
  }

  lemma FundKeeps(c: Chain, s: Core, m: Msg, id: Bytes32, f: Flight)
    requires CoreInv(c, s, m.now, f) && Fund(s, m, id).Ok?
    ensures CoreInv(c, Fund(s, m, id).value, m.now, f)
  {
    hide Records, UsedOnce, Advances, Replay, Writes;
    var s' := Fund(s, m, id).value;
    FundWrites(s, m, id);
    Known(c, s, id, m.now, f);
    FundRefines(c, s, m, id, AccountOf(c, s, id));
    assert ToUint128(m.value) == m.value;
    AdvanceKeeps(c, s, id, Deposited(m.sender, m.value, m.now), s', m.now, f, f);
  }

  lemma AskProofWrites(s: Core, m: Msg, id: Bytes32, reference: Bytes32)
    requires AskProof(s, m, id, reference).Ok?
    ensures Writes(s, id, ProofAsked(reference, m.now), AskProof(s, m, id, reference).value)
  {
  }

  lemma AskProofRefines(c: Chain, s: Core, m: Msg, id: Bytes32, reference: Bytes32, a: Account)
    requires id in s.policies && a.policy == s.policies[id] && a.clock <= m.now
    requires AskProof(s, m, id, reference).Ok?
    ensures Advances(c, id, a, ProofAsked(reference, m.now), AskProof(s, m, id, reference).value.policies[id], a.due,
                     m.now)
  {
    assert ToUint64(m.now) == m.now;
  }

  lemma AskProofKeeps(c: Chain, s: Core, m: Msg, id: Bytes32, reference: Bytes32, f: Flight)
    requires CoreInv(c, s, m.now, f) && AskProof(s, m, id, reference).Ok?
    ensures CoreInv(c, AskProof(s, m, id, reference).value, m.now, f)
  {
    hide Records, UsedOnce, Advances, Replay, Writes;
    var s' := AskProof(s, m, id, reference).value;
    AskProofWrites(s, m, id, reference);
    Known(c, s, id, m.now, f);
    AskProofRefines(c, s, m, id, reference, AccountOf(c, s, id));
    AdvanceKeeps(c, s, id, ProofAsked(reference, m.now), s', m.now, f, f);
  }

  lemma SubmitProofWrites(s: Core, m: Msg, o: Oracle, id: Bytes32, proof: EvmProof)
    requires SubmitProof(s, m, o, id, proof).Ok?
    ensures Writes(s, id, ProofAccepted(proof.data, m.now), SubmitProof(s, m, o, id, proof).value)
  {
  }

  lemma SubmitProofRefines(c: Chain, s: Core, m: Msg, o: Oracle, id: Bytes32, proof: EvmProof, a: Account)
    requires id in s.policies && a.policy == s.policies[id] && a.clock <= m.now
    requires SubmitProof(s, m, o, id, proof).Ok?
    ensures Advances(c, id, a, ProofAccepted(proof.data, m.now), SubmitProof(s, m, o, id, proof).value.policies[id],
                     a.due, m.now)
  {
    assert ToUint64(m.now) == m.now;
  }

  lemma SubmitProofDigests(s: Core, m: Msg, o: Oracle, id: Bytes32, proof: EvmProof)
    requires UsedOnce(ProofDigests(s.policies), s.usedProofDigests)
    requires UsedOnce(ResultDigests(s.policies), s.usedResultDigests)
    requires SubmitProof(s, m, o, id, proof).Ok? && s.policies[id].externalProofDigest == ZERO
    ensures var s' := SubmitProof(s, m, o, id, proof).value;
            && UsedOnce(ProofDigests(s'.policies), s'.usedProofDigests)
            && UsedOnce(ResultDigests(s'.policies), s'.usedResultDigests)
  {
    hide UsedOnce;
    var s' := SubmitProof(s, m, o, id, proof).value;
    DigestsPut(s.policies, id, s'.policies[id]);
    UsedFresh(ProofDigests(s.policies), s.usedProofDigests, id, Keccak(Response(proof.data)));
    UsedUnchanged(ResultDigests(s.policies), s.usedResultDigests, id, s.policies[id].resultDigest);
  }

  lemma SubmitProofKeeps(c: Chain, s: Core, m: Msg, o: Oracle, id: Bytes32, proof: EvmProof, f: Flight)
    requires CoreInv(c, s, m.now, f) && SubmitProof(s, m, o, id, proof).Ok?
    ensures CoreInv(c, SubmitProof(s, m, o, id, proof).value, m.now, f)
  {
    hide Records, UsedOnce, Replay, WellKept;
    var s' := SubmitProof(s, m, o, id, proof).value;
    SubmitProofRecords(c, s, m, o, id, proof, f);
    RequestedHasNone(c, s, id, m.now, f);
    SubmitProofDigests(s, m, o, id, proof);
    TotalEscrowPut(s.policies, id, s'.policies[id]);
  }

  lemma RequestedHasNone(c: Chain, s: Core, id: Bytes32, now: nat, f: Flight)
    requires Records(c, s, now, f) && id in s.policies && s.policies[id].status == ProofRequested
    ensures s.policies[id].externalProofDigest == ZERO
  {
    hide Records, Replay, TermsKept, MoneyByStatus, StampsInOrder, PaidElsewhere;
    Known(c, s, id, now, f);
  }

  lemma SubmitProofRecords(c: Chain, s: Core, m: Msg, o: Oracle, id: Bytes32, proof: EvmProof, f: Flight)
    requires Records(c, s, m.now, f) && SubmitProof(s, m, o, id, proof).Ok?
    ensures Records(c, SubmitProof(s, m, o, id, proof).value, m.now, f)
  {
    hide Records, Advances, Replay, WellKept, Writes;
    var s' := SubmitProof(s, m, o, id, proof).value;
    SubmitProofWrites(s, m, o, id, proof);
    Known(c, s, id, m.now, f);
    SubmitProofRefines(c, s, m, o, id, proof, AccountOf(c, s, id));
    AdvanceRecords(c, s, id, ProofAccepted(proof.data, m.now), s', m.now, f, f);
  }

  lemma AskComputationWrites(s: Core, m: Msg, o: Oracle, id: Bytes32, inputHash: Bytes32, message: seq<Bytes32>)
    requires AskComputation(s, m, o, id, inputHash, message).Ok?
    ensures o.instruction.Some?
    ensures Writes(s, id, ComputationAsked(inputHash, o.instruction.value, m.now),
                   AskComputation(s, m, o, id, inputHash, message).value)
  {
  }

  lemma AskComputationRefines(c: Chain, s: Core, m: Msg, o: Oracle, id: Bytes32, inputHash: Bytes32,
                              message: seq<Bytes32>, a: Account)
    requires id in s.policies && a.policy == s.policies[id] && a.clock <= m.now && EvidenceByStatus(c, id, a)
    requires AskComputation(s, m, o, id, inputHash, message).Ok?
    ensures Advances(c, id, a, ComputationAsked(inputHash, o.instruction.value, m.now),
                     AskComputation(s, m, o, id, inputHash, message).value.policies[id], a.due, m.now)
  {
  }

  lemma AskComputationKeeps(c: Chain, s: Core, m: Msg, o: Oracle, id: Bytes32, inputHash: Bytes32,
                            message: seq<Bytes32>, f: Flight)
    requires CoreInv(c, s, m.now, f) && AskComputation(s, m, o, id, inputHash, message).Ok?
    ensures CoreInv(c, AskComputation(s, m, o, id, inputHash, message).value, m.now, f)
  {
    hide Records, UsedOnce, Advances, Replay, Writes;
    var s' := AskComputation(s, m, o, id, inputHash, message).value;
    AskComputationWrites(s, m, o, id, inputHash, message);
    Known(c, s, id, m.now, f);
    AskComputationRefines(c, s, m, o, id, inputHash, message, AccountOf(c, s, id));
    AdvanceKeeps(c, s, id, ComputationAsked(inputHash, o.instruction.value, m.now), s', m.now, f, f);
  }

  // ---- Authentication ----

  /** The summation loop succeeds exactly on positive amounts for the stored recipients, and then yields their sum. */
  lemma {:induction false} TotalFromDecides(recipients: seq<Address>, stored: seq<Address>, amounts: seq<uint256>,
                                            i: nat)
    requires i <= |amounts| == |recipients|
    requires Sum(amounts[..i]) < TWO_256
    ensures var t := TotalFrom(recipients, stored, amounts, i, Sum(amounts[..i]));
            && (t.Ok? <==> Sum(amounts) < TWO_256 && forall k :: i <= k < |amounts| ==>
                             k < |stored| && recipients[k] == stored[k] && amounts[k] > 0)
            && (t.Ok? ==> t.value == Sum(amounts))
    decreases |amounts| - i
  {
    if i == |amounts| {
      assert amounts[..i] == amounts;
    } else {
      SumPrefix(amounts, i);
      SumMonotone(amounts, i + 1);
      if Sum(amounts[..i + 1]) < TWO_256 {
        TotalFromDecides(recipients, stored, amounts, i + 1);
      }
    }
  }

  /** The result passes all checks exactly when it fits the policy and neither it nor the policy has expired. */
  lemma {:induction false} ResultFaultDecides(c: Chain, s: Core, m: Msg, r: SettlementResult, a: Account)
    requires r.policyId in s.policies && a.policy == s.policies[r.policyId]
    requires a.terms.recipients == RecipientsOf(s, r.policyId) && a.terms.sharesBps == SharesOf(s, r.policyId)
    requires TermsKept(c, r.policyId, a) && MoneyByStatus(a)
    ensures ResultFault(s, m, r).None? <==>
            && a.policy.status == ComputationRequested && m.now < a.policy.expiry && m.now < r.expiry
            && FitsPolicy(r.policyId, a.policy, a.terms, r)
  {
    if |r.recipients| == |r.amounts| {
      assert r.amounts[..0] == [];
      TotalFromDecides(r.recipients, RecipientsOf(s, r.policyId), r.amounts, 0);
    }
  }

  lemma AcceptResultWrites(c: Chain, s: Core, m: Msg, r: SettlementResult, att: Attestation)
    requires AcceptResult(c, s, m, r, att).Ok?
    ensures Writes(s, r.policyId, ResultAccepted(r, att, m.now), AcceptResult(c, s, m, r, att).value)
  {
    hide ResultFault;
    AcceptedExists(s, m, r);
  }

  lemma AcceptResultRefines(c: Chain, s: Core, m: Msg, r: SettlementResult, att: Attestation, a: Account)
    requires r.policyId in s.policies && a.policy == s.policies[r.policyId] && a.clock <= m.now
    requires a.terms.recipients == RecipientsOf(s, r.policyId) && a.terms.sharesBps == SharesOf(s, r.policyId)
    requires TermsKept(c, r.policyId, a) && MoneyByStatus(a)
    requires Attested(c, r, att)
    requires AcceptResult(c, s, m, r, att).Ok?
    ensures Advances(c, r.policyId, a, ResultAccepted(r, att, m.now),
                     AcceptResult(c, s, m, r, att).value.policies[r.policyId], a.due, m.now)
  {
    hide FitsPolicy, TermsKept, MoneyByStatus;
    ResultFaultDecides(c, s, m, r, a);
    assert ToUint64(m.now) == m.now;
  }

  lemma AwaitingHasNone(c: Chain, id: Bytes32, a: Account)
    requires EvidenceByStatus(c, id, a) && a.policy.status == ComputationRequested
    ensures a.policy.resultDigest == ZERO
  {
  }

  lemma DigestNamesPolicy(c: Chain, id: Bytes32, a: Account, r: SettlementResult)
    requires EvidenceByStatus(c, id, a) && a.policy.resultDigest == ResultDigest(c, r)
    ensures r.policyId == id && a.result == Some(r) && FitsPolicy(id, a.policy, a.terms, r)
  {
  }

  /**
   * A used result digest belongs to a policy that already left the computation stage, so no result is ever rejected
   * as replayed.
   */
  lemma FreshResult(c: Chain, s: Core, m: Msg, r: SettlementResult, f: Flight)
    requires CoreInv(c, s, m.now, f) && ResultFault(s, m, r).None?
    ensures ResultDigest(c, r) !in s.usedResultDigests && s.policies[r.policyId].resultDigest == ZERO
  {
    hide Records, Replay, ResultFault, TermsKept, MoneyByStatus, EvidenceByStatus, StampsInOrder;
    AcceptedExists(s, m, r);
    var held := ResultDigests(s.policies);
    Known(c, s, r.policyId, m.now, f);
    AwaitingHasNone(c, r.policyId, AccountOf(c, s, r.policyId));
    if ResultDigest(c, r) in s.usedResultDigests {
      var id :| id in held && held[id] == ResultDigest(c, r);
      Known(c, s, id, m.now, f);
      DigestNamesPolicy(c, id, AccountOf(c, s, id), r);
    }
  }

  lemma AcceptResultDigests(c: Chain, s: Core, m: Msg, r: SettlementResult, att: Attestation)
    requires UsedOnce(ProofDigests(s.policies), s.usedProofDigests)
    requires UsedOnce(ResultDigests(s.policies), s.usedResultDigests)
    requires AcceptResult(c, s, m, r, att).Ok? && s.policies[r.policyId].resultDigest == ZERO
    ensures var s' := AcceptResult(c, s, m, r, att).value;
            && UsedOnce(ProofDigests(s'.policies), s'.usedProofDigests)
            && UsedOnce(ResultDigests(s'.policies), s'.usedResultDigests)
  {
    hide UsedOnce;
    var id, s' := r.policyId, AcceptResult(c, s, m, r, att).value;
    DigestsPut(s.policies, id, s'.policies[id]);
    UsedUnchanged(ProofDigests(s.policies), s.usedProofDigests, id, s.policies[id].externalProofDigest);
    UsedFresh(ResultDigests(s.policies), s.usedResultDigests, id, ResultDigest(c, r));
  }

  lemma AcceptResultRecords(c: Chain, s: Core, m: Msg, r: SettlementResult, att: Attestation, f: Flight)
    requires Records(c, s, m.now, f) && Attested(c, r, att) && r.policyId in s.policies
    requires AcceptResult(c, s, m, r, att).Ok?
    ensures Records(c, AcceptResult(c, s, m, r, att).value, m.now, f)
  {
    hide Records, Writes, Advances, Replay, ResultFault, TermsKept, MoneyByStatus, EvidenceByStatus, StampsInOrder;
    var id, s' := r.policyId, AcceptResult(c, s, m, r, att).value;
    AcceptResultWrites(c, s, m, r, att);
    Known(c, s, id, m.now, f);
    AcceptResultRefines(c, s, m, r, att, AccountOf(c, s, id));
    AdvanceRecords(c, s, id, ResultAccepted(r, att, m.now), s', m.now, f, f);
  }

  lemma AcceptResultKeeps(c: Chain, s: Core, m: Msg, r: SettlementResult, att: Attestation, f: Flight)
    requires CoreInv(c, s, m.now, f) && Attested(c, r, att)
    requires AcceptResult(c, s, m, r, att).Ok?
    ensures CoreInv(c, AcceptResult(c, s, m, r, att).value, m.now, f)
  {
    hide Records, UsedOnce, ResultFault;
    var id, s' := r.policyId, AcceptResult(c, s, m, r, att).value;
    AcceptedExists(s, m, r);
    FreshResult(c, s, m, r, f);
    AcceptResultRecords(c, s, m, r, att, f);
    AcceptResultDigests(c, s, m, r, att);
    TotalEscrowPut(s.policies, id, s'.policies[id]);
  }

  lemma AcceptedExists(s: Core, m: Msg, r: SettlementResult)
    requires ResultFault(s, m, r).None?
    ensures r.policyId in s.policies && s.policies[r.policyId].status == ComputationRequested
    ensures m.now < s.policies[r.policyId].expiry
  {
  }

  lemma MissingFault(s: Core, m: Msg, r: SettlementResult)
    requires r.policyId !in s.policies
    ensures ResultFault(s, m, r) == Some(PolicyMissing)
  {
  }

  lemma AuthenticateKeeps(c: Chain, s: Core, m: Msg, o: Oracle, r: SettlementResult, actionId: Bytes32, tag: string,
                          actionStatus: uint8, signature: Signature, f: Flight)
    requires CoreInv(c, s, m.now, f) && Authenticate(c, s, m, o, r, actionId, tag, actionStatus, signature).Ok?
    ensures CoreInv(c, Authenticate(c, s, m, o, r, actionId, tag, actionStatus, signature).value, m.now, f)
  {
    hide CoreInv, AcceptResult;
    var signer := RecoverSigner(c, SigningDigest(c, r, actionId, tag, actionStatus), signature).value;
    AcceptResultKeeps(c, s, m, r, Attestation(tag, signature, signer, o.activeTees), f);
  }

  lemma CancelWrites(s: Core, m: Msg, id: Bytes32)
    requires Cancel(s, m, id).Ok?
    ensures Writes(s, id, Withdrawn(m.now), Cancel(s, m, id).value)
  {
  }

  lemma CancelRefines(c: Chain, s: Core, m: Msg, id: Bytes32, a: Account)
    requires id in s.policies && a.policy == s.policies[id] && a.clock <= m.now
    requires Cancel(s, m, id).Ok?
    ensures Advances(c, id, a, Withdrawn(m.now), Cancel(s, m, id).value.policies[id], a.due, m.now)
  {
  }

  lemma CancelKeeps(c: Chain, s: Core, m: Msg, id: Bytes32, f: Flight)
    requires CoreInv(c, s, m.now, f) && Cancel(s, m, id).Ok?
    ensures CoreInv(c, Cancel(s, m, id).value, m.now, f)
  {
    hide Records, UsedOnce, Advances, Replay, Writes;
    var s' := Cancel(s, m, id).value;
    CancelWrites(s, m, id);
    Known(c, s, id, m.now, f);
    CancelRefines(c, s, m, id, AccountOf(c, s, id));
    AdvanceKeeps(c, s, id, Withdrawn(m.now), s', m.now, f, f);
  }

  /** Every successful call without transfers keeps the invariant, also while a payout is in progress. */
  lemma ExecuteKeeps(c: Chain, s: Core, m: Msg, o: Oracle, call: Call, f: Flight)
    requires CoreInv(c, s, m.now, f) && Caller(c, m.sender)
    requires Execute(c, s, m, o, call).Ok?
    ensures CoreInv(c, Execute(c, s, m, o, call).value, m.now, f)
  {
    hide CoreInv, Create, Fund, AskProof, SubmitProof, AskComputation, Authenticate, Cancel;
    match call
    case CreatePolicy(q) => CreateKeeps(c, s, m, q, f);
    case FundPolicy(id) => FundKeeps(c, s, m, id, f);
    case RequestProof(id, reference) => AskProofKeeps(c, s, m, id, reference, f);
    case SubmitEvmProof(id, proof) => SubmitProofKeeps(c, s, m, o, id, proof, f);
    case SendComputationInstruction(id, inputHash, message) =>
      AskComputationKeeps(c, s, m, o, id, inputHash, message, f);
    case AuthenticateActionResult(r, actionId, tag, actionStatus, signature) =>
      AuthenticateKeeps(c, s, m, o, r, actionId, tag, actionStatus, signature, f);
    case CancelPolicy(id) => CancelKeeps(c, s, m, id, f);
  }

  // ---- Calls that pay out ----

  lemma BeginSettleWrites(c: Chain, s: Core, m: Msg, r: SettlementResult)
    requires BeginSettle(c, s, m, r).Ok?
    ensures Writes(s, r.policyId, PayoutBegun(m.now), BeginSettle(c, s, m, r).value)
  {
  }

  lemma BeginSettleRefines(c: Chain, s: Core, m: Msg, r: SettlementResult, a: Account)
    requires r.policyId in s.policies && a.policy == s.policies[r.policyId] && a.clock <= m.now
    requires MoneyByStatus(a) && EvidenceByStatus(c, r.policyId, a)
    requires BeginSettle(c, s, m, r).Ok?
    ensures a.result == Some(r)
    ensures Advances(c, r.policyId, a, PayoutBegun(m.now), BeginSettle(c, s, m, r).value.policies[r.policyId],
                     Payouts(r.recipients, r.amounts), m.now)
    ensures History.PaymentSum(Payouts(r.recipients, r.amounts)) == r.total == a.policy.fundedAmount
  {
    hide ParticipantHash, PolicyIdOf, EvidenceByStatus;
    DigestNamesPolicy(c, r.policyId, a, r);
    History.PayoutsPair(r.recipients, r.amounts);
    assert r.total == a.policy.fundedAmount;
    hide FitsPolicy, Payouts, History.PaymentSum;
    assert ToUint64(m.now) == m.now;
  }

  /** Starting a settlement moves the whole escrow into the payout list. */
  lemma BeginSettleKeeps(c: Chain, s: Core, m: Msg, r: SettlementResult)
    requires CoreInv(c, s, m.now, Quiet) && BeginSettle(c, s, m, r).Ok?
    ensures CoreInv(c, BeginSettle(c, s, m, r).value, m.now, Paying(r.policyId, Payouts(r.recipients, r.amounts)))
  {
    hide Records, UsedOnce, Advances, Replay, Writes, TermsKept, MoneyByStatus, EvidenceByStatus, StampsInOrder,
         Payouts;
    var id, s' := r.policyId, BeginSettle(c, s, m, r).value;
    var f' := Paying(id, Payouts(r.recipients, r.amounts));
    BeginSettleWrites(c, s, m, r);
    Known(c, s, id, m.now, Quiet);
    BeginSettleRefines(c, s, m, r, AccountOf(c, s, id));
    AdvanceKeeps(c, s, id, PayoutBegun(m.now), s', m.now, Quiet, f');
  }

  lemma BeginRefundWrites(s: Core, m: Msg, id: Bytes32)
    requires BeginRefund(s, m, id).Ok?
    ensures Writes(s, id, RefundBegun(m.now), BeginRefund(s, m, id).value)
  {
  }

  lemma BeginRefundRefines(c: Chain, s: Core, m: Msg, id: Bytes32, a: Account)
    requires id in s.policies && a.policy == s.policies[id] && a.clock <= m.now
    requires BeginRefund(s, m, id).Ok?
    ensures Advances(c, id, a, RefundBegun(m.now), BeginRefund(s, m, id).value.policies[id],
                     [Payment(a.policy.owner, a.policy.fundedAmount)], m.now)
  {
  }

  lemma BeginRefundKeeps(c: Chain, s: Core, m: Msg, id: Bytes32)
    requires CoreInv(c, s, m.now, Quiet) && BeginRefund(s, m, id).Ok?
    ensures CoreInv(c, BeginRefund(s, m, id).value, m.now,
                    Paying(id, [Payment(s.policies[id].owner, s.policies[id].fundedAmount)]))
  {
    hide Records, UsedOnce, Advances, Replay, Writes, WellKept;
    var s' := BeginRefund(s, m, id).value;
    var due := [Payment(s.policies[id].owner, s.policies[id].fundedAmount)];
    BeginRefundWrites(s, m, id);
    Known(c, s, id, m.now, Quiet);
    BeginRefundRefines(c, s, m, id, AccountOf(c, s, id));
    assert History.PaymentSum(due) == s.policies[id].fundedAmount;
    AdvanceKeeps(c, s, id, RefundBegun(m.now), s', m.now, Quiet, Paying(id, due));
  }

  /** One transfer out of the balance, off the head of the payout list. */
  function Transfer(s: Core, id: Bytes32, payment: Payment): Core
    requires s.balance >= payment.amount
  {
    s.(balance := s.balance - payment.amount, trails := s.trails[id := TrailOf(s, id) + [Paid(payment)]])
  }

  lemma TransferRefines(c: Chain, id: Bytes32, a: Account, now: nat)
    requires a.due != [] && a.clock <= now && a.due[0].to != c.self
    ensures Advances(c, id, a, Paid(a.due[0]), a.policy, a.due[1..], now)
  {
  }

  lemma TransferWrites(s: Core, id: Bytes32, payment: Payment)
    requires id in s.policies && s.balance >= payment.amount
    ensures Writes(s, id, Paid(payment), Transfer(s, id, payment))
  {
    assert s.policies == s.policies[id := s.policies[id]];
  }

  lemma TransferKeeps(c: Chain, s: Core, id: Bytes32, due: seq<Payment>, now: nat)
    requires CoreInv(c, s, now, Paying(id, due)) && due != [] && due[0].to != c.self
    ensures s.balance >= due[0].amount
    ensures CoreInv(c, Transfer(s, id, due[0]), now, Paying(id, due[1..]))
  {
    hide UsedOnce, Advances, Replay, WellKept, Tracked, Writes, TrackedIn, NonceUsed;
    var f, f' := Paying(id, due), Paying(id, due[1..]);
    assert s.balance >= due[0].amount;
    var s' := Transfer(s, id, due[0]);
    Known(c, s, id, now, f);
    TransferRefines(c, id, AccountOf(c, s, id), now);
    TransferWrites(s, id, due[0]);
    AdvanceKeeps(c, s, id, Paid(due[0]), s', now, f, f');
  }

  lemma RecordsQuiet(c: Chain, s: Core, id: Bytes32, now: nat)
    requires Records(c, s, now, Paying(id, []))
    ensures Records(c, s, now, Quiet)
  {
    hide Tracked, NonceUsed;
    forall k | k in s.policies ensures TrackedIn(c, s, k, now, Quiet) {
      assert TrackedIn(c, s, k, now, Paying(id, []));
    }
  }

  /** With nothing left to transfer the contract is quiet again. */
  lemma PayoutOver(c: Chain, s: Core, id: Bytes32, now: nat)
    requires CoreInv(c, s, now, Paying(id, []))
    ensures CoreInv(c, s, now, Quiet)
  {
    hide Records, UsedOnce;
    RecordsQuiet(c, s, id, now);
  }
}
