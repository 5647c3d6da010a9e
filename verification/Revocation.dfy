/** Tokens without a node, nodes that are revoked, and the revocation list. */
module Revocation {
  import opened Basics
  import opened Types
  import opened ControlPlane
  import opened Fleet
  import Compute
  import Storage
  import Tenancy
  import Identity
  import Histories

  // ---------------------------------------------------- tokens without a node

  /** The node of every unredeemed token exists, so the token can be redeemed as
      far as the node goes. */
  ghost predicate TokensLive(t: Tables) {
    forall k :: k in t.tokens && t.tokens[k].usedAt.None? ==> t.tokens[k].nodeId in t.nodes
  }

  /** Deregistering a node that has an unredeemed token, or withdrawing one of two
      unredeemed tokens of a placeholder. */
  predicate StrandsToken(t: Tables, op: FleetOp) {
    || (op.DeregisterNode? && op.nodeId in t.nodes && UnusedFor(t.tokens, op.nodeId) != {})
    || (op.DeleteOnboardingToken? && RemovesPlaceholder(t, op.id) && t.tokens[op.id].clusterSlug == op.slug
        && UnusedFor(t.tokens, t.tokens[op.id].nodeId) != {op.id})
  }

  lemma DeleteTokenLive(t: Tables, op: FleetOp)
    requires op.DeleteOnboardingToken? && TokensLive(t)
    ensures var out := ApplyDeleteToken(t, op); out.Commit? ==> (TokensLive(out.tables) <==> !StrandsToken(t, op))
  {
    var out := ApplyDeleteToken(t, op);
    if out.Commit? && RemovesPlaceholder(t, op.id) {
      var node := t.tokens[op.id].nodeId;
      assert op.id in UnusedFor(t.tokens, node);
      if StrandsToken(t, op) {
        var k :| k in UnusedFor(t.tokens, node) && k != op.id;
        assert k in out.tables.tokens;
      } else {
        assert UnusedFor(t.tokens, node) == {op.id};
        forall k | k in t.tokens && t.tokens[k].usedAt.None? && k != op.id ensures t.tokens[k].nodeId != node {
          assert k !in UnusedFor(t.tokens, node);
        }
      }
    }
  }

  lemma TokenStepLive(env: Env, t: Tables, op: FleetOp, leaf: SignedLeaf)
    requires IsTokenOp(op) && !op.DeleteOnboardingToken? && TokensLive(t)
    ensures var out := TokenStep(env, t, op, leaf); out.Commit? ==> TokensLive(out.tables)
  {
    hide CheckRedeem;
  }

  lemma RegistryStepLive(t: Tables, orgs: set<string>, op: FleetOp)
    requires !IsTokenOp(op) && TokensLive(t)
    ensures var out := RegistryStep(t, orgs, op); out.Commit? ==> (TokensLive(out.tables) <==> !StrandsToken(t, op))
  {
    var out := RegistryStep(t, orgs, op);
    if out.Commit? && op.DeregisterNode? {
      if k :| k in UnusedFor(t.tokens, op.nodeId) {
        assert k in out.tables.tokens;
      } else {
        assert forall k :: k in t.tokens && t.tokens[k].usedAt.None? && t.tokens[k].nodeId == op.nodeId
                           ==> k in UnusedFor(t.tokens, op.nodeId);
      }
    }
  }

  lemma StepKeepsTokensLiveIff(env: Env, t: Tables, orgs: set<string>, op: FleetOp, leaf: SignedLeaf)
    requires TokensLive(t)
    ensures var out := Step(env, t, orgs, op, leaf);
      out.Commit? ==> (TokensLive(out.tables) <==> !StrandsToken(t, op))
  {
    hide TokensLive, ApplyDeleteToken, RegistryStep;
    if op.DeleteOnboardingToken? { DeleteTokenLive(t, op); }
    else if IsTokenOp(op) { TokenStepLive(env, t, op, leaf); }
    else { RegistryStepLive(t, orgs, op); }
  }

  // ------------------------------------------------------------ revoked nodes

  /** A heartbeat with another status, or the redemption of a token of the node. */
  predicate Reinstates(t: Tables, op: FleetOp, k: string) {
    || (op.UpdateNodeStatus? && op.nodeId == k && op.status != Revoked)
    || (op.RedeemOnboardingToken? && var check := CheckRedeem(t, op);
        check.Redeem? && t.tokens[check.key].nodeId == k)
  }

  lemma TokenStepRevoked(env: Env, t: Tables, op: FleetOp, leaf: SignedLeaf, k: string)
    requires IsTokenOp(op) && k in t.nodes && t.nodes[k].status == Revoked
    ensures var out := TokenStep(env, t, op, leaf);
      out.Commit? && k in out.tables.nodes ==>
        (out.tables.nodes[k].status == Revoked <==> !Reinstates(t, op, k))
  {
    hide CheckRedeem, StripAll, UnusedFor;
  }

  lemma RegistryStepRevoked(t: Tables, orgs: set<string>, op: FleetOp, k: string)
    requires !IsTokenOp(op) && k in t.nodes && t.nodes[k].status == Revoked
    ensures var out := RegistryStep(t, orgs, op);
      out.Commit? && k in out.tables.nodes ==>
        (out.tables.nodes[k].status == Revoked <==> !Reinstates(t, op, k))
  {
  }

  /** A revoked node that is still there is still revoked exactly when the command
      does not reinstate it. */
  lemma StaysRevokedIff(env: Env, t: Tables, orgs: set<string>, op: FleetOp, leaf: SignedLeaf, k: string)
    requires k in t.nodes && t.nodes[k].status == Revoked
    ensures var out := Step(env, t, orgs, op, leaf);
      out.Commit? && k in out.tables.nodes ==>
        (out.tables.nodes[k].status == Revoked <==> !Reinstates(t, op, k))
  {
    hide TokenStep, RegistryStep, Reinstates;
    if IsTokenOp(op) { TokenStepRevoked(env, t, op, leaf, k); } else { RegistryStepRevoked(t, orgs, op, k); }
  }

  // ----------------------------------------------------- the revocation list

  /** A revoked serial is on the list. */
  lemma RevocationIsListed(t: Tables, op: FleetOp)
    requires op.RevokeNodeCert? && op.nodeId in t.nodes && t.nodes[op.nodeId].certSerialHex.Some?
    ensures var out := ApplyRevokeCert(t, op);
      var serial := t.nodes[op.nodeId].certSerialHex.value;
      out.Commit? && serial in out.tables.revoked && out.tables.revoked[serial].nodeId == op.nodeId
  {
  }

  lemma StepKeepsRevoked(env: Env, t: Tables, orgs: set<string>, op: FleetOp, leaf: SignedLeaf)
    ensures var out := Step(env, t, orgs, op, leaf); out.Commit? ==> t.revoked.Keys <= out.tables.revoked.Keys
  {
    hide CheckRedeem;
  }

  // ------------------------------------------------------------- whole runs

  predicate StrandingToken(db: Db, op: Op) {
    op.OnFleet? && StrandsToken(db.fleet, op.fleet)
  }

  lemma HandleTokensLive(env: Env, db: Db, op: Op, oracle: Oracle)
    requires TokensLive(db.fleet) && !StrandingToken(db, op)
    ensures match Handle(env, db, op, oracle)
      case Commit(after, _, _) => TokensLive(after.fleet)
      case Early(_) => true
  {
    hide Compute.Step, Storage.Step, Step, Tenancy.Step, Identity.Step, TokensLive, StrandsToken;
    if op.OnFleet? {
      StepKeepsTokensLiveIff(env, db.fleet, db.tenancy.orgs.Keys, op.fleet, oracle.leaf);
    }
  }

  /** Unredeemed tokens keep their node over every run that strands none. */
  lemma TokensLiveSurvives(env: Env, s: State, q: seq<Input>)
    requires TokensLive(s.db.fleet) && Avoids(env, s, q, StrandingToken)
    ensures TokensLive(RunFrom(env, s, q).db.fleet)
  {
    hide Handle, Avoids, RunFrom, TokensLive, StrandingToken;
    var inv := (db: Db) => TokensLive(db.fleet);
    forall db, op, oracle ensures Histories.Keeps(env, inv, StrandingToken, db, op, oracle) {
      if inv(db) && !StrandingToken(db, op) { HandleTokensLive(env, db, op, oracle); }
    }
    Histories.Survives(env, s, q, inv, StrandingToken);
  }

  /** The node is reinstated, or created again after it was removed. */
  predicate Revives(db: Db, op: Op, k: string) {
    op.OnFleet? &&
    if k in db.fleet.nodes then Reinstates(db.fleet, op.fleet, k)
    else (op.fleet.RegisterNode? || op.fleet.CreateOnboardingToken?) && op.fleet.nodeId == k
  }

  function Reviving(k: string): (Db, Op) -> bool {
    (db: Db, op: Op) => Revives(db, op, k)
  }

  predicate NotBack(t: Tables, k: string) {
    k in t.nodes ==> t.nodes[k].status == Revoked
  }

  lemma HandleNotBack(env: Env, db: Db, op: Op, oracle: Oracle, k: string)
    requires NotBack(db.fleet, k) && !Revives(db, op, k)
    ensures match Handle(env, db, op, oracle)
      case Commit(after, _, _) => NotBack(after.fleet, k)
      case Early(_) => true
  {
    hide Compute.Step, Storage.Step, Step, Tenancy.Step, Identity.Step, Reinstates;
    if op.OnFleet? {
      if k in db.fleet.nodes {
        StaysRevokedIff(env, db.fleet, db.tenancy.orgs.Keys, op.fleet, oracle.leaf, k);
      } else {
        NodesComeBy(env, db.fleet, db.tenancy.orgs.Keys, op.fleet, oracle.leaf, k);
      }
    }
  }

  lemma NodesComeBy(env: Env, t: Tables, orgs: set<string>, op: FleetOp, leaf: SignedLeaf, k: string)
    requires k !in t.nodes && !((op.RegisterNode? || op.CreateOnboardingToken?) && op.nodeId == k)
    ensures var out := Step(env, t, orgs, op, leaf); out.Commit? ==> k !in out.tables.nodes
  {
    hide CheckRedeem;
  }

  /** A revoked node does not come back over any run that does not revive it. */
  lemma RevokedStaysOut(env: Env, s: State, q: seq<Input>, k: string)
    requires NotBack(s.db.fleet, k) && Avoids(env, s, q, Reviving(k))
    ensures NotBack(RunFrom(env, s, q).db.fleet, k)
  {
    hide Handle, Avoids, RunFrom, Revives, NotBack;
    var inv := (db: Db) => NotBack(db.fleet, k);
    forall db, op, oracle ensures Histories.Keeps(env, inv, Reviving(k), db, op, oracle) {
      if inv(db) && !Revives(db, op, k) { HandleNotBack(env, db, op, oracle, k); }
    }
    Histories.Survives(env, s, q, inv, Reviving(k));
  }

  lemma HandleKeepsRevoked(env: Env, db: Db, op: Op, oracle: Oracle)
    ensures match Handle(env, db, op, oracle)
      case Commit(after, _, _) => db.fleet.revoked.Keys <= after.fleet.revoked.Keys
      case Early(_) => true
  {
    hide Compute.Step, Storage.Step, Step, Tenancy.Step, Identity.Step;
    if op.OnFleet? {
      StepKeepsRevoked(env, db.fleet, db.tenancy.orgs.Keys, op.fleet, oracle.leaf);
    }
  }

  /** No command ever takes a serial off the revocation list. */
  lemma RevocationIsForever(env: Env, s: State, q: seq<Input>)
    ensures s.db.fleet.revoked.Keys <= RunFrom(env, s, q).db.fleet.revoked.Keys
  {
    hide Handle, Avoids, RunFrom;
    var inv := (db: Db) => s.db.fleet.revoked.Keys <= db.fleet.revoked.Keys;
    forall db, op, oracle ensures Histories.Keeps(env, inv, Histories.NeverBad, db, op, oracle) {
      HandleKeepsRevoked(env, db, op, oracle);
    }
    Histories.NothingToAvoid(env, s, q);
    Histories.Survives(env, s, q, inv, Histories.NeverBad);
  }
}
