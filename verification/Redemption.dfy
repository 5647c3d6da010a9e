/** Redeeming an onboarding token: when it succeeds, what it does, and that no
    token is ever redeemed late. */
module Redemption {
  import opened Basics
  import opened Types
  import opened ControlPlane
  import opened FleetRegisters
  import Fleet
  import Registers
  import LastWriter
  import Refusals

  /** The token that the hash names is unused and not expired, its cluster and its
      placeholder are still there, and the CA signs the request. */
  ghost predicate Redeemable(env: Env, t: Fleet.Tables, op: FleetOp, k: string)
    requires op.RedeemOnboardingToken?
  {
    && Names(t, op.tokenHashHex, k)
    && t.tokens[k].usedAt.None?
    && LeqString(op.timestamp, t.tokens[k].expiresAt)
    && t.tokens[k].clusterSlug in t.clusters
    && t.tokens[k].nodeId in t.nodes
    && t.ca.Some?
    && env.signs(t.ca.value, op.csrPem, t.tokens[k].nodeId, t.tokens[k].clusterSlug)
  }

  lemma NamesOne(t: Fleet.Tables, hash: string, j: string, k: string)
    requires Names(t, hash, j) && Names(t, hash, k)
    ensures j == k
  {
    LeqStringTotal(j, k);
  }

  lemma RedeemsIff(env: Env, t: Fleet.Tables, orgs: set<string>, op: FleetOp, leaf: SignedLeaf)
    requires op.RedeemOnboardingToken?
    ensures Fleet.Step(env, t, orgs, op, leaf).Commit? <==> exists k :: Redeemable(env, t, op, k)
  {
    hide Fleet.Step, LeqString;
    Refusals.FleetMeets(env, t, orgs, op, leaf);
    forall j, k | Names(t, op.tokenHashHex, j) && Names(t, op.tokenHashHex, k) ensures j == k {
      NamesOne(t, op.tokenHashHex, j, k);
    }
    if Refusals.HashKnown(t, op.tokenHashHex) {
      var k :| Names(t, op.tokenHashHex, k);
      hide Names;
      assert Redeemable(env, t, op, k) <==> Fleet.Step(env, t, orgs, op, leaf).Commit?;
    }
  }

  /** Why a redemption of the named token is refused: the first reason counts. */
  lemma RefusedBecause(env: Env, t: Fleet.Tables, orgs: set<string>, op: FleetOp, leaf: SignedLeaf, k: string)
    requires op.RedeemOnboardingToken? && Names(t, op.tokenHashHex, k)
    ensures var token := t.tokens[k];
      var out := Fleet.Step(env, t, orgs, op, leaf);
      var stale := token.usedAt.Some? || !LeqString(op.timestamp, token.expiresAt);
      var gone := token.clusterSlug !in t.clusters || token.nodeId !in t.nodes;
      && (out == Early(Error(401)) <==> stale)
      && (out == Early(Error(410)) <==> !stale && gone)
      && (out == Early(Error(503)) <==> !stale && !gone && t.ca.None?)
      && (!stale && !gone && t.ca.Some? ==>
            (out == Early(Error(400)) <==> !env.signs(t.ca.value, op.csrPem, token.nodeId, token.clusterSlug)))
  {
    hide Fleet.Step, LeqString;
    Refusals.FleetMeets(env, t, orgs, op, leaf);
    forall j | Names(t, op.tokenHashHex, j) ensures j == k {
      NamesOne(t, op.tokenHashHex, j, k);
    }
    hide Names;
  }

  lemma UnknownHash(env: Env, t: Fleet.Tables, orgs: set<string>, op: FleetOp, leaf: SignedLeaf)
    requires op.RedeemOnboardingToken?
    requires forall k :: k in t.tokens ==> t.tokens[k].tokenHashHex != op.tokenHashHex
    ensures Fleet.Step(env, t, orgs, op, leaf) == Early(Error(401))
  {
    hide Fleet.Step, LeqString;
    Refusals.FleetMeets(env, t, orgs, op, leaf);
  }

  /** The token is used up, its node goes online with the certificate, its expiry
      and what the agent reports; nothing else changes. */
  lemma RedeemAdmits(env: Env, t: Fleet.Tables, orgs: set<string>, op: FleetOp, leaf: SignedLeaf, k: string)
    requires op.RedeemOnboardingToken? && Redeemable(env, t, op, k)
    ensures var node := t.tokens[k].nodeId;
      var admitted := t.nodes[node].(
        status := Online, lastHeartbeat := op.timestamp, updatedAt := op.timestamp,
        certSerialHex := Some(leaf.serialHex), certExpiresAt := Some(leaf.notAfter), hostname := Some(op.hostname),
        agentVersion := Some(op.agentVersion + " (" + op.kernelVersion + " " + op.arch + ")"));
      Fleet.Step(env, t, orgs, op, leaf)
      == Commit(t.(nodes := t.nodes[node := admitted],
                   tokens := t.tokens[k := t.tokens[k].(usedAt := Some(op.timestamp), usedByNodeId := Some(node))]),
                BootstrapResult(admitted, leaf.certPem, t.ca.value.caCertPem), [])
  {
    FirstIsNamed(t, op.tokenHashHex, k);
    hide Names, FirstKey, LeqString, Fleet.TokensWithHash;
  }

  // ------------------------------------------------------------------ over runs

  /** At position `j` a command redeems the unused token `k`, in time. */
  ghost predicate RedeemsAt(env: Env, q: seq<Input>, j: nat, k: string, token: OnboardingTokenData)
    requires token.usedAt.Some?
  {
    && j < |q| && Commits(env, Run(env, q[..j]), q[j])
    && q[j].cmd.op.OnFleet? && q[j].cmd.op.fleet.RedeemOnboardingToken?
    && var t, op := Run(env, q[..j]).db.fleet, q[j].cmd.op.fleet;
       && k in t.tokens && t.tokens[k].usedAt.None?
       && TokenField(t.tokens[k], TokenBirth) == TokenField(token, TokenBirth)
       && op.tokenHashHex == token.tokenHashHex && op.timestamp == token.usedAt.value
       && LeqString(op.timestamp, token.expiresAt)
  }

  function UseOf(k: string): LastWriter.Register {
    LastWriter.InFleet(OfToken(k, TokenUse))
  }

  function BirthOf(k: string): LastWriter.Register {
    LastWriter.InFleet(OfToken(k, TokenBirth))
  }

  /** Whoever writes a token's birth writes its use. */
  lemma BirthWithUse(env: Env, db: Db, op: Op, oracle: Oracle, k: string)
    ensures LastWriter.EffectOf(env, db, op, oracle, UseOf(k)) == Registers.Keep ==>
      LastWriter.EffectOf(env, db, op, oracle, BirthOf(k)) == Registers.Keep
  {
    hide Names;
  }

  /** Only a redemption in time marks a token as used. */
  lemma UseIsRedemption(env: Env, db: Db, op: Op, oracle: Oracle, k: string)
    requires Handle(env, db, op, oracle).Commit?
    requires var effect := LastWriter.EffectOf(env, db, op, oracle, UseOf(k));
      effect.Set? && effect.value.Use? && effect.value.usedAt.Some?
    ensures op.OnFleet? && op.fleet.RedeemOnboardingToken? && Redeemable(env, db.fleet, op.fleet, k)
    ensures LastWriter.EffectOf(env, db, op, oracle, UseOf(k)).value.usedAt == Some(op.fleet.timestamp)
    ensures LastWriter.EffectOf(env, db, op, oracle, BirthOf(k)) == Registers.Keep
  {
    hide Fleet.Step, LeqString, Redeemable;
    RedeemsIff(env, db.fleet, db.tenancy.orgs.Keys, op.fleet, oracle.leaf);
    var j :| Redeemable(env, db.fleet, op.fleet, j);
    assert j == k by { IsNamed(env, db.fleet, op.fleet, j); NamesOne(db.fleet, op.fleet.tokenHashHex, j, k); }
  }

  lemma IsNamed(env: Env, t: Fleet.Tables, op: FleetOp, k: string)
    requires op.RedeemOnboardingToken? && Redeemable(env, t, op, k)
    ensures Names(t, op.tokenHashHex, k)
  {
  }

  lemma QuietBirth(env: Env, s: State, q: seq<Input>, j: nat, k: string)
    requires LastWriter.QuietFrom(env, s, q, j, UseOf(k))
    ensures LastWriter.QuietFrom(env, s, q, j, BirthOf(k))
  {
    hide RunFrom, Handle, UseOf, BirthOf, LastWriter.EffectOf;
    forall i | j <= i < |q| ensures LastWriter.EffectAt(env, s, q, i, BirthOf(k)) == Registers.Keep {
      var here := RunFrom(env, s, q[..i]);
      assert LastWriter.EffectAt(env, s, q, i, UseOf(k)) == Registers.Keep;
      BirthWithUse(env, here.db, q[i].cmd.op, q[i].oracle, k);
    }
  }

  lemma UseRead(db: Db, k: string)
    ensures LastWriter.Read(db, UseOf(k)) == if k !in db.fleet.tokens then None else
              Some(Registers.Use(db.fleet.tokens[k].usedAt, db.fleet.tokens[k].usedByNodeId))
    ensures LastWriter.Read(db, BirthOf(k)) == if k !in db.fleet.tokens then None else
              Some(TokenField(db.fleet.tokens[k], TokenBirth))
  {
  }

  /** Every used token was redeemed once, by a command that presented its hash no
      later than its expiry. */
  lemma UsedTokenWasRedeemedInTime(env: Env, q: seq<Input>, k: string)
    requires var tokens := Run(env, q).db.fleet.tokens; k in tokens && tokens[k].usedAt.Some?
    ensures exists j :: RedeemsAt(env, q, j, k, Run(env, q).db.fleet.tokens[k])
  {
    var token := Run(env, q).db.fleet.tokens[k];
    hide Handle, RunFrom, UseOf, BirthOf, LastWriter.Read, LastWriter.EffectOf, LeqString, Names;
    assert RunFrom(env, Init, q) == Run(env, q);
    UseRead(Init.db, k);
    UseRead(Run(env, q).db, k);
    var j := LastWriter.SomebodyWrote(env, Init, q, UseOf(k));
    LastWriter.LastWriteStands(env, Init, q, j, UseOf(k));
    var here := Run(env, q[..j]);
    UseRead(here.db, k);
    UseIsRedemption(env, here.db, q[j].cmd.op, q[j].oracle, k);
    QuietBirth(env, Init, q, j + 1, k);
    assert LastWriter.EffectAt(env, Init, q, j, BirthOf(k)) == Registers.Keep;
    LastWriter.QuietKeeps(env, Init, q, j, BirthOf(k));
    assert RedeemsAt(env, q, j, k, token);
  }
}
