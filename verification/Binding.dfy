/** What a digest, an id and a signature commit to. */
module Binding {
  import opened Evm
  import opened Protocol
  import opened Lifecycle
  import opened Invariant
  import opened Runs
  import opened Provenance
  import Theorems

  // ---- Digests ----

  /** The signed digest fixes the whole result, its action, tag and status, and the chain. */
  lemma SigningDigestBinds(c: Chain, r: SettlementResult, actionId: Bytes32, tag: string, actionStatus: uint8,
                           c': Chain, r': SettlementResult, actionId': Bytes32, tag': string, actionStatus': uint8)
    requires SigningDigest(c, r, actionId, tag, actionStatus) == SigningDigest(c', r', actionId', tag', actionStatus')
    ensures c.chainId == c'.chainId && r == r' && actionId == actionId' && tag == tag' && actionStatus == actionStatus'
  {
  }

  /** The stored result digest fixes the whole result, the chain and the contract. */
  lemma ResultDigestBinds(c: Chain, r: SettlementResult, c': Chain, r': SettlementResult)
    requires ResultDigest(c, r) == ResultDigest(c', r')
    ensures c.chainId == c'.chainId && c.self == c'.self && r == r'
  {
  }

  /** A policy id fixes the chain, the owner, the owner's nonce and all terms. */
  lemma PolicyIdBinds(c: Chain, owner: Address, nonce: nat, q: CreateParams,
                      c': Chain, owner': Address, nonce': nat, q': CreateParams)
    requires PolicyIdOf(c, owner, nonce, q) == PolicyIdOf(c', owner', nonce', q')
    ensures c.chainId == c'.chainId && owner == owner' && nonce == nonce' && q == q'
  {
  }

  // ---- Signatures ----

  /** Over this digest the signature recovers to one of these TEEs. */
  predicate Signs(c: Chain, signature: Signature, digest: Bytes32, tees: set<Address>)
  {
    var signer := RecoverSigner(c, digest, signature);
    signer.Ok? && signer.value in tees
  }

  /** What unforgeability gives for one signature: it recovers to one of these TEEs over one digest at most. */
  ghost predicate SignsOnce(c: Chain, signature: Signature, tees: set<Address>)
  {
    forall d, d' :: Signs(c, signature, d, tees) && Signs(c, signature, d', tees) ==> d == d'
  }

  lemma AuthenticatedSigns(c: Chain, s: Core, m: Msg, o: Oracle, r: SettlementResult, actionId: Bytes32, tag: string,
                           actionStatus: uint8, signature: Signature, tees: set<Address>)
    requires Authenticate(c, s, m, o, r, actionId, tag, actionStatus, signature).Ok?
    requires forall tee :: tee in o.activeTees ==> tee in tees
    ensures Signs(c, signature, SigningDigest(c, r, actionId, tag, actionStatus), tees)
  {
    hide AcceptResult, SigningDigest, RecoverSigner;
  }

  lemma SameRecovery(c: Chain, c': Chain, signature: Signature, digest: Bytes32, tees: set<Address>)
    requires c.ecrecover == c'.ecrecover
    ensures Signs(c, signature, digest, tees) <==> Signs(c', signature, digest, tees)
  {
  }

  /**
   * Whatever the states, callers and times: two successful authentications with one signature are of the very same
   * result, action, tag and status, on the same chain.
   */
  lemma OneResultPerSignature(c: Chain, s: Core, m: Msg, o: Oracle, r: SettlementResult, actionId: Bytes32, tag: string,
                              actionStatus: uint8, c': Chain, s': Core, m': Msg, o': Oracle, r': SettlementResult,
                              actionId': Bytes32, tag': string, actionStatus': uint8, signature: Signature,
                              tees: set<Address>)
    requires c.ecrecover == c'.ecrecover && SignsOnce(c, signature, tees)
    requires forall tee :: tee in o.activeTees || tee in o'.activeTees ==> tee in tees
    requires Authenticate(c, s, m, o, r, actionId, tag, actionStatus, signature).Ok?
    requires Authenticate(c', s', m', o', r', actionId', tag', actionStatus', signature).Ok?
    ensures c.chainId == c'.chainId && r == r' && actionId == actionId' && tag == tag' && actionStatus == actionStatus'
  {
    hide Authenticate, SigningDigest, RecoverSigner, Signs;
    var d := SigningDigest(c, r, actionId, tag, actionStatus);
    var d' := SigningDigest(c', r', actionId', tag', actionStatus');
    AuthenticatedSigns(c, s, m, o, r, actionId, tag, actionStatus, signature, tees);
    AuthenticatedSigns(c', s', m', o', r', actionId', tag', actionStatus', signature, tees);
    SameRecovery(c, c', signature, d', tees);
    SigningDigestBinds(c, r, actionId, tag, actionStatus, c', r', actionId', tag', actionStatus');
  }

  /** Line `k` of a history accepts a result of that very policy, attested. */
  lemma AcceptedLine(c: Chain, start: uint256, actions: seq<Action>, id: Bytes32, k: nat)
    requires k < |TrailOf(Run(c, Begin(start), actions).core, id)|
    requires TrailOf(Run(c, Begin(start), actions).core, id)[k].ResultAccepted?
    ensures var e := TrailOf(Run(c, Begin(start), actions).core, id)[k];
            e.result.policyId == id && Attested(c, e.result, e.att)
  {
    hide Run, SigningDigest, RecoverSigner, Execute;
    var j := LineWritten(c, start, actions, id, k);
    var w := Run(c, Begin(start), actions[..j]);
    assert TrailOf(w.core, id) != TrailOf(Run(c, Begin(start), actions[..j + 1]).core, id);
    assert actions[..j + 1] == actions[..j] + [actions[j]];
    RunSnoc(c, Begin(start), actions[..j], actions[j]);
    Theorems.StepTouchesOne(c, start, actions[..j], actions[j], id);
  }

  /** In no run is one signature used for two policies, or for two results. */
  lemma SignatureUsedOnce(c: Chain, start: uint256, actions: seq<Action>, id: Bytes32, k: nat, id': Bytes32, k': nat,
                          tees: set<Address>)
    requires var s := Run(c, Begin(start), actions).core;
             && k < |TrailOf(s, id)| && TrailOf(s, id)[k].ResultAccepted?
             && k' < |TrailOf(s, id')| && TrailOf(s, id')[k'].ResultAccepted?
             && var att, att' := TrailOf(s, id)[k].att, TrailOf(s, id')[k'].att;
                && att.signature == att'.signature && SignsOnce(c, att.signature, tees)
                && (forall tee :: tee in att.teeIds || tee in att'.teeIds ==> tee in tees)
    ensures var s := Run(c, Begin(start), actions).core;
            id == id' && TrailOf(s, id)[k].result == TrailOf(s, id')[k'].result
  {
    hide Run, SigningDigest, RecoverSigner;
    AcceptedLine(c, start, actions, id, k);
    AcceptedLine(c, start, actions, id', k');
    var e, e' := TrailOf(Run(c, Begin(start), actions).core, id)[k],
      TrailOf(Run(c, Begin(start), actions).core, id')[k'];
    var d := SigningDigest(c, e.result, e.result.computationReference, e.att.tag, 1);
    var d' := SigningDigest(c, e'.result, e'.result.computationReference, e'.att.tag, 1);
    assert Signs(c, e.att.signature, d, tees) && Signs(c, e.att.signature, d', tees);
    SigningDigestBinds(c, e.result, e.result.computationReference, e.att.tag, 1,
                       c, e'.result, e'.result.computationReference, e'.att.tag, 1);
  }
}
