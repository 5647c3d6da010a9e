/** Onboarding tokens are conserved, and cluster rosters are clean. */
module Onboarding {
  import opened Basics
  import opened Types
  import opened Fleet

  ghost predicate WellKeyed(t: Tables) {
    && (forall k :: k in t.nodes ==> t.nodes[k].id == k)
    && (forall k :: k in t.clusters ==> t.clusters[k].slug == k)
    && (forall k :: k in t.tokens ==> t.tokens[k].id == k)
    && (forall k :: k in t.revoked ==> t.revoked[k].serialHex == k)
  }

  ghost predicate RostersDistinct(t: Tables) {
    forall k :: k in t.clusters ==> Distinct(t.clusters[k].nodeIds)
  }

  ghost predicate Sound(t: Tables) {
    WellKeyed(t) && RostersDistinct(t)
  }

  lemma RevokeKeepsKeys(t: Tables, op: FleetOp)
    requires op.RevokeNodeCert? && WellKeyed(t)
    ensures var out := ApplyRevokeCert(t, op); out.Commit? ==> WellKeyed(out.tables)
  {
  }

  lemma TokenStepKeepsKeys(env: Env, t: Tables, op: FleetOp, leaf: SignedLeaf)
    requires IsTokenOp(op) && WellKeyed(t)
    ensures var out := TokenStep(env, t, op, leaf); out.Commit? ==> WellKeyed(out.tables)
  {
    hide CheckRedeem, ApplyRevokeCert;
    if op.RevokeNodeCert? {
      hide WellKeyed;
      RevokeKeepsKeys(t, op);
    }
  }

  lemma TokenStepKeepsRosters(env: Env, t: Tables, op: FleetOp, leaf: SignedLeaf)
    requires IsTokenOp(op) && RostersDistinct(t)
    ensures var out := TokenStep(env, t, op, leaf); out.Commit? ==> RostersDistinct(out.tables)
  {
  }

  lemma RegistryStepKeepsKeys(t: Tables, orgs: set<string>, op: FleetOp)
    requires !IsTokenOp(op) && WellKeyed(t)
    ensures var out := RegistryStep(t, orgs, op); out.Commit? ==> WellKeyed(out.tables)
  {
  }

  lemma RegistryStepKeepsRosters(t: Tables, orgs: set<string>, op: FleetOp)
    requires !IsTokenOp(op) && RostersDistinct(t)
    ensures var out := RegistryStep(t, orgs, op); out.Commit? ==> RostersDistinct(out.tables)
  {
  }

  /** Every command keeps rows under their own id and rosters free of duplicates. */
  lemma StepKeepsSound(env: Env, t: Tables, orgs: set<string>, op: FleetOp, leaf: SignedLeaf)
    requires Sound(t)
    ensures var out := Step(env, t, orgs, op, leaf); out.Commit? ==> Sound(out.tables)
  {
    hide WellKeyed, RostersDistinct;
    if IsTokenOp(op) {
      TokenStepKeepsKeys(env, t, op, leaf);
      TokenStepKeepsRosters(env, t, op, leaf);
    } else {
      RegistryStepKeepsKeys(t, orgs, op);
      RegistryStepKeepsRosters(t, orgs, op);
    }
  }

  // ------------------------------------------------------ token conservation

  /** Live tokens with this hash that nobody has redeemed. */
  function Unused(tokens: map<string, OnboardingTokenData>, hash: string): set<string> {
    set k | k in tokens && tokens[k].tokenHashHex == hash && tokens[k].usedAt.None?
  }

  function Issued(op: FleetOp, out: Outcome<Tables>, hash: string): nat {
    if op.CreateOnboardingToken? && out.Commit? && op.tokenHashHex == hash then 1 else 0
  }

  function Redeemed(op: FleetOp, out: Outcome<Tables>, hash: string): nat {
    if op.RedeemOnboardingToken? && out.Commit? && op.tokenHashHex == hash then 1 else 0
  }

  /** Unredeemed tokens whose rows the command deleted. */
  function Withdrawn(t: Tables, out: Outcome<Tables>, hash: string): nat {
    if out.Commit? then |Unused(t.tokens, hash) - out.tables.tokens.Keys| else 0
  }

  ghost predicate Conserved(t: Tables, op: FleetOp, out: Outcome<Tables>, hash: string) {
    out.Commit? ==>
      |Unused(t.tokens, hash)| + Issued(op, out, hash)
      == |Unused(out.tables.tokens, hash)| + Redeemed(op, out, hash) + Withdrawn(t, out, hash)
  }

  lemma SameTokensConserve(t: Tables, op: FleetOp, out: Outcome<Tables>, hash: string)
    requires out.Commit? && out.tables.tokens == t.tokens
    requires !op.CreateOnboardingToken? && !op.RedeemOnboardingToken?
    ensures Conserved(t, op, out, hash)
  {
    assert Unused(t.tokens, hash) - out.tables.tokens.Keys == {};
  }

  lemma FewerTokensConserve(t: Tables, op: FleetOp, out: Outcome<Tables>, gone: set<string>, hash: string)
    requires out.Commit? && out.tables.tokens == t.tokens - gone
    requires !op.CreateOnboardingToken? && !op.RedeemOnboardingToken?
    ensures Conserved(t, op, out, hash)
  {
    var lost := Unused(t.tokens, hash) - out.tables.tokens.Keys;
    assert Unused(out.tables.tokens, hash) == Unused(t.tokens, hash) - lost;
  }

  lemma AddedToken(tokens: map<string, OnboardingTokenData>, id: string, token: OnboardingTokenData, hash: string)
    requires id !in tokens && token.usedAt.None?
    ensures |Unused(tokens[id := token], hash)|
            == |Unused(tokens, hash)| + (if token.tokenHashHex == hash then 1 else 0)
    ensures Unused(tokens, hash) - tokens[id := token].Keys == {}
  {
    if token.tokenHashHex == hash {
      assert Unused(tokens[id := token], hash) == Unused(tokens, hash) + {id};
    } else {
      assert Unused(tokens[id := token], hash) == Unused(tokens, hash);
    }
  }

  lemma IssueConserves(t: Tables, op: FleetOp, hash: string)
    requires op.CreateOnboardingToken?
    ensures Conserved(t, op, ApplyCreateToken(t, op), hash)
  {
    hide Unused;
    var out := ApplyCreateToken(t, op);
    if out.Commit? {
      AddedToken(t.tokens, op.id, out.tables.tokens[op.id], hash);
    }
  }

  lemma RedeemConserves(env: Env, t: Tables, op: FleetOp, leaf: SignedLeaf, hash: string)
    requires op.RedeemOnboardingToken?
    ensures Conserved(t, op, ApplyRedeemToken(env, t, op, leaf), hash)
  {
    var out := ApplyRedeemToken(env, t, op, leaf);
    if out.Commit? {
      var key := CheckRedeem(t, op).key;
      assert key in TokensWithHash(t.tokens, op.tokenHashHex) && t.tokens[key].usedAt.None?;
      hide CheckRedeem, Unused;
      UsedToken(t.tokens, key, out.tables.tokens[key], hash);
    }
  }

  lemma UsedToken(tokens: map<string, OnboardingTokenData>, key: string, used: OnboardingTokenData, hash: string)
    requires key in tokens && tokens[key].usedAt.None? && used.usedAt.Some?
    ensures |Unused(tokens, hash)|
            == |Unused(tokens[key := used], hash)| + if tokens[key].tokenHashHex == hash then 1 else 0
    ensures Unused(tokens, hash) - tokens[key := used].Keys == {}
  {
    if tokens[key].tokenHashHex == hash {
      assert Unused(tokens, hash) == Unused(tokens[key := used], hash) + {key};
    } else {
      assert Unused(tokens, hash) == Unused(tokens[key := used], hash);
    }
  }

  lemma RegistryKeepsTokens(t: Tables, orgs: set<string>, op: FleetOp)
    requires !IsTokenOp(op)
    ensures var out := RegistryStep(t, orgs, op); out.Commit? ==> out.tables.tokens == t.tokens
  {
  }

  /** For every token hash: what was unredeemed plus what the command issues is
      what stays unredeemed, plus what it redeems, plus what it withdraws. */
  lemma StepConservesTokens(env: Env, t: Tables, orgs: set<string>, op: FleetOp, leaf: SignedLeaf, hash: string)
    ensures Conserved(t, op, Step(env, t, orgs, op, leaf), hash)
  {
    var out := Step(env, t, orgs, op, leaf);
    hide Conserved;
    if out.Early? {
      EarlyConserves(t, op, out, hash);
    } else if op.CreateOnboardingToken? {
      IssueConserves(t, op, hash);
    } else if op.RedeemOnboardingToken? {
      RedeemConserves(env, t, op, leaf, hash);
    } else if op.DeleteOnboardingToken? {
      FewerTokensConserve(t, op, out, {op.id}, hash);
    } else if op.RevokeNodeCert? && op.reason.Decommission? {
      FewerTokensConserve(t, op, out, UnusedFor(t.tokens, op.nodeId), hash);
    } else {
      if !IsTokenOp(op) { RegistryKeepsTokens(t, orgs, op); }
      SameTokensConserve(t, op, out, hash);
    }
  }

  lemma EarlyConserves(t: Tables, op: FleetOp, out: Outcome<Tables>, hash: string)
    requires out.Early?
    ensures Conserved(t, op, out, hash)
  {
  }

  /** A token row never changes its hash, and once used stays used. */
  lemma UsedTokensStayUsed(env: Env, t: Tables, orgs: set<string>, op: FleetOp, leaf: SignedLeaf, k: string)
    requires k in t.tokens
    ensures var out := Step(env, t, orgs, op, leaf);
      out.Commit? && k in out.tables.tokens ==>
        && out.tables.tokens[k].tokenHashHex == t.tokens[k].tokenHashHex
        && (t.tokens[k].usedAt.Some? ==> out.tables.tokens[k] == t.tokens[k])
  {
    if !IsTokenOp(op) { RegistryKeepsTokens(t, orgs, op); }
  }

  // ------------------------------------------------------------ decommission

  /** After a decommission no node row, no roster and no unredeemed token names
      the node; the other nodes, and the rest of each roster, are as before. */
  lemma DecommissionIsClean(t: Tables, op: FleetOp)
    requires op.RevokeNodeCert? && op.reason.Decommission? && op.nodeId in t.nodes
    ensures var out := ApplyRevokeCert(t, op);
      && out.Commit?
      && out.tables.nodes == t.nodes - {op.nodeId}
      && out.tables.clusters.Keys == t.clusters.Keys
      && (forall c, n :: c in t.clusters ==>
            (n in out.tables.clusters[c].nodeIds <==> n in t.clusters[c].nodeIds && n != op.nodeId))
      && (forall k :: k in out.tables.tokens <==>
            k in t.tokens && !(t.tokens[k].nodeId == op.nodeId && t.tokens[k].usedAt.None?))
      && (forall k :: k in out.tables.tokens ==> out.tables.tokens[k] == t.tokens[k])
      && (t.nodes[op.nodeId].certSerialHex.Some? ==> t.nodes[op.nodeId].certSerialHex.value in out.tables.revoked)
  {
  }

  // ------------------------------------------------------------- live rosters

  /** Every node a cluster lists exists. */
  ghost predicate RostersLive(t: Tables) {
    forall c, n :: c in t.clusters && n in t.clusters[c].nodeIds ==> n in t.nodes
  }

  predicate ListedBy(t: Tables, node: string, except: Option<string>) {
    exists c :: c in t.clusters && Some(c) != except && node in t.clusters[c].nodeIds
  }

  /** Deregistering a listed node, or deleting an unredeemed token whose
      placeholder was also enlisted elsewhere. */
  predicate StrandsRoster(t: Tables, op: FleetOp) {
    || (op.DeregisterNode? && op.nodeId in t.nodes && ListedBy(t, op.nodeId, None))
    || (op.DeleteOnboardingToken? && RemovesPlaceholder(t, op.id) && t.tokens[op.id].clusterSlug == op.slug
        && ListedBy(t, t.tokens[op.id].nodeId, Some(op.slug)))
  }

  lemma DeleteTokenRosters(t: Tables, op: FleetOp)
    requires op.DeleteOnboardingToken? && RostersLive(t)
    ensures var out := ApplyDeleteToken(t, op);
      out.Commit? ==> (RostersLive(out.tables) <==> !StrandsRoster(t, op))
  {
    var out := ApplyDeleteToken(t, op);
    if out.Commit? && StrandsRoster(t, op) {
      var node := t.tokens[op.id].nodeId;
      var c :| c in t.clusters && Some(c) != Some(op.slug) && node in t.clusters[c].nodeIds;
      assert c in out.tables.clusters && node in out.tables.clusters[c].nodeIds;
    }
  }

  lemma TokenStepRosters(env: Env, t: Tables, op: FleetOp, leaf: SignedLeaf)
    requires IsTokenOp(op) && !op.DeleteOnboardingToken? && RostersLive(t)
    ensures var out := TokenStep(env, t, op, leaf);
      out.Commit? ==> RostersLive(out.tables)
  {
  }

  lemma RegistryStepRosters(t: Tables, orgs: set<string>, op: FleetOp)
    requires !IsTokenOp(op) && RostersLive(t)
    ensures var out := RegistryStep(t, orgs, op);
      out.Commit? ==> (RostersLive(out.tables) <==> !StrandsRoster(t, op))
  {
    var out := RegistryStep(t, orgs, op);
    if out.Commit? && StrandsRoster(t, op) {
      var c :| c in t.clusters && op.nodeId in t.clusters[c].nodeIds;
      assert c in out.tables.clusters && op.nodeId in out.tables.clusters[c].nodeIds;
    }
  }

  /** A command keeps every listed node alive exactly when it does not strand one. */
  lemma StepKeepsRostersIff(env: Env, t: Tables, orgs: set<string>, op: FleetOp, leaf: SignedLeaf)
    requires RostersLive(t)
    ensures var out := Step(env, t, orgs, op, leaf);
      out.Commit? ==> (RostersLive(out.tables) <==> !StrandsRoster(t, op))
  {
    hide RostersLive;
    if op.DeleteOnboardingToken? { DeleteTokenRosters(t, op); }
    else if IsTokenOp(op) { TokenStepRosters(env, t, op, leaf); }
    else { RegistryStepRosters(t, orgs, op); }
  }
}
