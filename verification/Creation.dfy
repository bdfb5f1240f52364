/** Where policies come from: each from one call of its owner, whose nonces count its policies without a gap. */
module Creation {
  import opened Evm
  import opened Protocol
  import opened Lifecycle
  import opened Invariant
  import opened Runs
  import Provenance
  import Theorems

  lemma FirstLine(c: Chain, id: Bytes32, trail: seq<Entry>)
    requires |trail| > 0 && Replay(c, id, trail[..1]).Some?
    ensures trail[0].Created? && Replay(c, id, trail[..1]).value.terms == trail[0].terms
  {
    assert trail[..1][..0] == [];
  }

  /**
   * Every stored policy came from a creation by its owner, and its record and vectors are still what that call asked
   * for, under the id that this chain, owner, nonce and terms determine.
   */
  lemma CreatedAsAsked(c: Chain, start: uint256, actions: seq<Action>, id: Bytes32) returns (j: nat)
    requires id in Run(c, Begin(start), actions).core.policies
    ensures j < |actions| && actions[j].Invoke? && actions[j].call.CreatePolicy?
    ensures var s, w := Run(c, Begin(start), actions).core, Provenance.At(c, start, actions, j);
            var p, owner, q := s.policies[id], actions[j].sender, actions[j].call.params;
            && Caller(c, owner) && actions[j].value == 0 && id == PolicyIdOf(c, owner, NonceOf(w.core, owner), q)
            && p.owner == owner && p.createdAt == w.now < p.expiry == q.expiry && p.targetAmount == q.targetAmount
            && p.ruleHash == q.ruleHash && p.paymentReferenceHash == q.paymentReferenceHash
            && p.participantHash == Keccak(Participants(q.recipients, q.sharesBps))
            && RecipientsOf(s, id) == q.recipients && SharesOf(s, id) == q.sharesBps
  {
    hide Run, Replay, MoneyByStatus, EvidenceByStatus, StampsInOrder, PolicyIdOf;
    var s := Run(c, Begin(start), actions).core;
    var t := TrailOf(s, id);
    Theorems.AtEveryPoint(c, start, actions, id);
    Theorems.EmptyTrail(c, id);
    Theorems.PrefixReplays(c, id, t, 1);
    FirstLine(c, id, t);
    j := Provenance.LineWritten(c, start, actions, id, 0);
    FirstAccount(c, id, t);
    StampKept(c, id, t);
  }

  lemma FirstAccount(c: Chain, id: Bytes32, trail: seq<Entry>)
    requires |trail| > 0 && trail[0].Created? && Replay(c, id, trail[..1]).Some?
    ensures var a := Replay(c, id, trail[..1]).value;
            && a.policy.owner == trail[0].owner && a.policy.createdAt == trail[0].at
            && id == PolicyIdOf(c, trail[0].owner, trail[0].ownerNonce, trail[0].terms)
  {
    assert trail[..1][..0] == [];
  }

  lemma {:induction false} StampKept(c: Chain, id: Bytes32, trail: seq<Entry>)
    requires |trail| > 0 && Replay(c, id, trail).Some?
    ensures Replay(c, id, trail[..1]).Some?
    ensures Replay(c, id, trail).value.policy.createdAt == Replay(c, id, trail[..1]).value.policy.createdAt
  {
    hide Apply;
    var n := |trail| - 1;
    if n == 0 {
      assert trail[..1] == trail;
    } else {
      StampKept(c, id, trail[..n]);
      assert trail[..n][..1] == trail[..1];
      ApplyKeepsCreation(c, id, Replay(c, id, trail[..n]).value, trail[n]);
    }
  }

  lemma ApplyKeepsCreation(c: Chain, id: Bytes32, a: Account, e: Entry)
    requires Apply(c, id, Some(a), e).Some?
    ensures Apply(c, id, Some(a), e).value.policy.createdAt == a.policy.createdAt
  {
  }

  // ---- Nonces ----

  predicate HasNonce(id: Bytes32, owner: Address, nonce: nat)
  {
    id.Keccak? && id.preimage.PolicyKey? && id.preimage.owner == owner && id.preimage.ownerNonce == nonce
  }

  ghost predicate Taken(s: Core, owner: Address,
                        nonce: nat) { exists id :: id in s.policies && HasNonce(id, owner, nonce) }

  /** The policies of each owner bear the nonces below its counter, each exactly once. */
  ghost predicate NoncesExact(s: Core)
  {
    && (forall owner: Address, nonce: nat :: Taken(s, owner, nonce) <==> nonce < NonceOf(s, owner))
    && (forall i, j, owner: Address, nonce: nat ::
          i in s.policies && j in s.policies && HasNonce(i, owner, nonce) && HasNonce(j, owner, nonce) ==> i == j)
  }

  /** A successful call moves the counter of the creator by exactly one, and no other counter. */
  lemma NoncesAfter(c: Chain, s: Core, m: Msg, o: Oracle, call: Call)
    requires Execute(c, s, m, o, call).Ok?
    ensures var s' := Execute(c, s, m, o, call).value;
            s'.ownerNonces == if call.CreatePolicy? then s.ownerNonces[m.sender := NonceOf(s, m.sender) + 1]
              else s.ownerNonces
  {
    hide ResultFault, RecoverSigner, SigningDigest, ResultDigest, TeeFault, PolicyIdOf;
  }

  lemma KeysAfter(c: Chain, s: Core, m: Msg, o: Oracle, call: Call)
    requires Execute(c, s, m, o, call).Ok?
    ensures var s' := Execute(c, s, m, o, call).value;
            if call.CreatePolicy? then
              var id := PolicyIdOf(c, m.sender, NonceOf(s, m.sender), call.params);
              id !in s.policies && s'.policies.Keys == s.policies.Keys + {id}
            else s'.policies.Keys == s.policies.Keys
  {
    hide Execute, EntryOf, PolicyIdOf;
    ExecuteExtends(c, s, m, o, call);
  }

  lemma SameNonces(s: Core, s': Core)
    requires NoncesExact(s) && s'.policies.Keys == s.policies.Keys && s'.ownerNonces == s.ownerNonces
    ensures NoncesExact(s')
  {
    forall owner: Address, nonce: nat ensures Taken(s', owner, nonce) <==> nonce < NonceOf(s', owner) {
      assert Taken(s, owner, nonce) <==> nonce < NonceOf(s, owner);
      if Taken(s, owner, nonce) {
        var id :| id in s.policies && HasNonce(id, owner, nonce);
        assert id in s'.policies;
      }
      if Taken(s', owner, nonce) {
        var id :| id in s'.policies && HasNonce(id, owner, nonce);
        assert id in s.policies;
      }
    }
  }

  lemma NextNonce(s: Core, s': Core, creator: Address, id: Bytes32)
    requires NoncesExact(s) && HasNonce(id, creator, NonceOf(s, creator))
    requires s'.policies.Keys == s.policies.Keys + {id} && NonceOf(s, creator) + 1 < TWO_256
    requires s'.ownerNonces == s.ownerNonces[creator := NonceOf(s, creator) + 1]
    ensures NoncesExact(s')
  {
    forall owner: Address, nonce: nat ensures Taken(s', owner, nonce) <==> nonce < NonceOf(s', owner) {
      assert Taken(s, owner, nonce) <==> nonce < NonceOf(s, owner);
      if Taken(s, owner, nonce) {
        var k :| k in s.policies && HasNonce(k, owner, nonce);
        assert k in s'.policies;
      }
      if Taken(s', owner, nonce) {
        var k :| k in s'.policies && HasNonce(k, owner, nonce);
        assert k == id || k in s.policies;
      }
      assert owner == creator && nonce == NonceOf(s, creator) ==> id in s'.policies && HasNonce(id, owner, nonce);
    }
    forall i, j, owner: Address, nonce: nat |
      i in s'.policies && j in s'.policies && HasNonce(i, owner, nonce) && HasNonce(j, owner, nonce)
      ensures i == j
    {
      assert Taken(s, owner, nonce) <==> nonce < NonceOf(s, owner);
      assert i in s.policies ==> Taken(s, owner, nonce);
      assert j in s.policies ==> Taken(s, owner, nonce);
    }
  }

  lemma CallKeepsNonces(c: Chain, s: Core, m: Msg, o: Oracle, call: Call)
    requires NoncesExact(s) && Execute(c, s, m, o, call).Ok?
    ensures NoncesExact(Execute(c, s, m, o, call).value)
  {
    hide Execute, NoncesExact;
    NoncesAfter(c, s, m, o, call);
    KeysAfter(c, s, m, o, call);
    if call.CreatePolicy? {
      RoomForNonce(c, s, m, o, call);
      NextNonce(s, Execute(c, s, m, o, call).value, m.sender,
                PolicyIdOf(c, m.sender, NonceOf(s, m.sender), call.params));
    } else {
      SameNonces(s, Execute(c, s, m, o, call).value);
    }
  }

  lemma RoomForNonce(c: Chain, s: Core, m: Msg, o: Oracle, call: Call)
    requires call.CreatePolicy? && Execute(c, s, m, o, call).Ok?
    ensures NonceOf(s, m.sender) + 1 < TWO_256
  {
    hide PolicyIdOf;
  }

  lemma StepKeepsNonces(c: Chain, w: World, a: Action, s: Core)
    requires WorldInv(c, w) && (forall known :: Kept(w, known) ==> NoncesExact(known)) && Kept(Step(c, w, a), s)
    ensures NoncesExact(s)
  {
    hide NoncesExact, WorldInv, Execute, Kept;
    if s != Step(c, w, a).core {
      StepKeepsKnown(c, w, a, s);
    } else {
      assert Kept(w, w.core) by { Provenance.NowKept(w); }
      match a
      case Invoke(sender, value, o, call) =>
        var m := Msg(sender, value, w.now);
        if Attempt(c, w, m, o, call).Ok? { CallKeepsNonces(c, w.core, m, o, call); }
      case _ =>
        var id, e := StepWrites(c, w, a);
        if !Kept(w, s) { OthersKeepNonces(c, w, a); }
    }
  }

  lemma WritesKeepNonces(s: Core, id: Bytes32, e: Entry, s': Core)
    requires Writes(s, id, e, s') && NoncesExact(s)
    ensures NoncesExact(s')
  {
    hide NoncesExact;
    SameNonces(s, s');
  }

  lemma OthersKeepNonces(c: Chain, w: World, a: Action)
    requires WorldInv(c, w) && !a.Invoke? && !Reverts(c, w, a) && NoncesExact(w.core)
    ensures NoncesExact(Step(c, w, a).core)
  {
    hide NoncesExact, CoreInv, BeginSettle, BeginRefund, Transfer, Payouts, Writes;
    var s := w.core;
    match a
    case Settle(sender, value, r) =>
      var m := Msg(sender, value, w.now);
      if SettleStart(c, w, m, r).Ok? {
        BeginSettleWrites(c, s, m, r);
        WritesKeepNonces(s, r.policyId, PayoutBegun(w.now), BeginSettle(c, s, m, r).value);
      }
    case Refund(sender, value, id) =>
      var m := Msg(sender, value, w.now);
      if RefundStart(w, m, id).Ok? {
        BeginRefundWrites(s, m, id);
        WritesKeepNonces(s, id, RefundBegun(w.now), BeginRefund(s, m, id).value);
      }
    case PayNext =>
      if w.lock.Held? && w.lock.due != [] && w.lock.frames == [] && Deliverable(c, s, w.lock.due[0]) {
        PayingExists(c, w);
        TransferWrites(s, w.lock.id, w.lock.due[0]);
        WritesKeepNonces(s, w.lock.id, Paid(w.lock.due[0]), Transfer(s, w.lock.id, w.lock.due[0]));
      }
    case _ =>
  }

  lemma {:induction false} RunKeepsNonces(c: Chain, start: uint256, actions: seq<Action>, s: Core)
    requires Kept(Run(c, Begin(start), actions), s)
    ensures NoncesExact(s)
  {
    hide Step, WorldInv;
    if |actions| > 0 {
      hide NoncesExact;
      var w := Run(c, Begin(start), actions[..|actions| - 1]);
      EveryRun(c, start, actions[..|actions| - 1]);
      forall known | Kept(w, known) ensures NoncesExact(known) {
        RunKeepsNonces(c, start, actions[..|actions| - 1], known);
      }
      StepKeepsNonces(c, w, actions[|actions| - 1], s);
    }
  }

  /** At every point of every run the policies of each owner bear the nonces below its counter, each exactly once. */
  lemma NoncesCountPolicies(c: Chain, start: uint256, actions: seq<Action>)
    ensures NoncesExact(Run(c, Begin(start), actions).core)
  {
    hide Run, NoncesExact;
    Provenance.NowKept(Run(c, Begin(start), actions));
    RunKeepsNonces(c, start, actions, Run(c, Begin(start), actions).core);
  }
}
