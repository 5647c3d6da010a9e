/** Who removes a NIC and who revokes an API key. */
module Lifetimes {
  import opened Basics
  import opened Types
  import opened ControlPlane
  import Compute
  import Identity
  import Footprint
  import ComputeRegisters
  import IdentityRegisters
  import LastWriter
  import Refusals

  // ------------------------------------------------------------ network deletes

  /** A network delete goes through exactly if the network exists and is empty or
      the delete is forced; NICs in the way count before a missing network. */
  lemma NetworkDeletedIff(env: Env, t: Compute.Tables, projects: set<string>, op: ComputeOp, now: string)
    requires op.DeleteNetwork?
    ensures var out := Compute.Step(env, t, projects, op, now);
      var populated := exists k :: k in t.nics && t.nics[k].spec.networkId == op.id;
      && (out.Commit? <==> op.id in t.networks && (op.force || !populated))
      && (out == Early(Error(409)) <==> populated && !op.force)
      && (out == Early(Error(404)) <==> op.id !in t.networks && (op.force || !populated))
  {
    hide Compute.Step;
    Refusals.ComputeMeets(env, t, projects, op, now);
  }

  /** The command removes the NIC itself, or its network by force. */
  predicate Removes(op: Op, nic: string, network: string) {
    && op.OnCompute?
    && (op.compute == DeleteNic(nic) || op.compute == DeleteNetwork(network, true))
  }

  function LinkOf(k: string): LastWriter.Register {
    LastWriter.InCompute(ComputeRegisters.OfNic(k, ComputeRegisters.NicLink))
  }

  lemma NicVanishes(env: Env, db: Db, op: Op, oracle: Oracle, k: string)
    requires k in db.compute.nics
    ensures match Handle(env, db, op, oracle)
      case Commit(after, _, _) => k !in after.compute.nics ==> Removes(op, k, db.compute.nics[k].spec.networkId)
      case Early(_) => true
  {
    hide Handle;
    LastWriter.HandleWrites(env, db, op, oracle, LinkOf(k));
    Refusals.HandleMeets(env, db, op, oracle);
  }

  /** Where a run first loses NIC `k`: a command there removes it. */
  ghost predicate RemovedAt(env: Env, s: State, q: seq<Input>, j: nat, k: string, network: string) {
    && j < |q| && Always(env, s, q[..j], (db: Db) => k in db.compute.nics)
    && Commits(env, RunFrom(env, s, q[..j]), q[j]) && Removes(q[j].cmd.op, k, network)
  }

  lemma {:induction false} NicRemovedBecause(env: Env, s: State, q: seq<Input>, k: string)
    requires k in s.db.compute.nics && k !in RunFrom(env, s, q).db.compute.nics
    ensures exists j :: RemovedAt(env, s, q, j, k, s.db.compute.nics[k].spec.networkId)
  {
    hide Handle, RunFrom, Always, Footprint.NicCore;
    var p := (db: Db) => k in db.compute.nics;
    RunNone(env, s);
    AlwaysNone(env, s, p);
    var j := 0;
    assert q[..0] == [] && q[..|q|] == q;
    while j < |q| && k in RunFrom(env, s, q[..j + 1]).db.compute.nics
      invariant j <= |q| && Always(env, s, q[..j], p) && k in RunFrom(env, s, q[..j]).db.compute.nics
    {
      assert q[..j + 1][..j] == q[..j];
      AlwaysNext(env, s, q[..j + 1], p);
      j := j + 1;
    }
    var here := RunFrom(env, s, q[..j]);
    assert q[..j + 1][..j] == q[..j];
    RunLast(env, s, q[..j + 1]);
    NicVanishes(env, here.db, q[j].cmd.op, q[j].oracle, k);
    Footprint.NicKeepsCore(env, s, q[..j], k);
    SameNetwork(here.db.compute.nics[k], s.db.compute.nics[k]);
    assert RemovedAt(env, s, q, j, k, s.db.compute.nics[k].spec.networkId);
  }

  lemma SameNetwork(a: NicData, b: NicData)
    requires Footprint.NicCore(a) == Footprint.NicCore(b)
    ensures a.spec.networkId == b.spec.networkId
  {
  }

  lemma RunNone(env: Env, s: State)
    ensures RunFrom(env, s, []) == s
  {
  }

  lemma AlwaysNone(env: Env, s: State, p: Db -> bool)
    requires p(s.db)
    ensures Always(env, s, [], p)
  {
  }

  lemma AlwaysNext(env: Env, s: State, q: seq<Input>, p: Db -> bool)
    requires q != [] && Always(env, s, q[..|q| - 1], p) && p(RunFrom(env, s, q).db)
    ensures Always(env, s, q, p)
  {
    hide RunFrom;
  }

  // ------------------------------------------------------------------- API keys

  /** Revoking a key sets the date if there is none, and nothing else. */
  lemma RevocationSetsDate(env: Env, t: Identity.Tables, orgs: set<string>, projects: set<string>, op: IdentityOp)
    requires op.RevokeStaticApiKey?
    ensures var out := Identity.Step(env, t, orgs, projects, op);
      && (op.id !in t.keys ==> out == Early(Error(404)))
      && (op.id in t.keys ==>
            var first := if t.keys[op.id].revokedAt.Some? then t.keys[op.id].revokedAt else Some(op.timestamp);
            var key := t.keys[op.id].(revokedAt := first);
            out == Commit(t.(keys := t.keys[op.id := key]), ApiKeyIs(key), []))
  {
  }

  function DateOf(k: string): LastWriter.Register {
    LastWriter.InIdentity(IdentityRegisters.OfKey(k, IdentityRegisters.KeyRevocation))
  }

  lemma HandleKeepsDate(env: Env, db: Db, op: Op, oracle: Oracle, k: string)
    requires k in db.identity.keys && db.identity.keys[k].revokedAt.Some?
    ensures match Handle(env, db, op, oracle)
      case Commit(after, _, _) =>
        k in after.identity.keys ==> after.identity.keys[k].revokedAt == db.identity.keys[k].revokedAt
      case Early(_) => true
  {
    hide Handle;
    LastWriter.HandleWrites(env, db, op, oracle, DateOf(k));
    Refusals.HandleMeets(env, db, op, oracle);
  }

  /** A revoked key stays revoked, since the same date, while its row exists. */
  lemma {:induction false} RevokedKeyStaysRevoked(env: Env, s: State, q: seq<Input>, k: string)
    requires Always(env, s, q, (db: Db) => k in db.identity.keys)
    requires k in s.db.identity.keys && s.db.identity.keys[k].revokedAt.Some?
    ensures k in RunFrom(env, s, q).db.identity.keys
    ensures RunFrom(env, s, q).db.identity.keys[k].revokedAt == s.db.identity.keys[k].revokedAt
    decreases |q|
  {
    hide Handle;
    if q != [] {
      var p, i := q[..|q| - 1], q[|q| - 1];
      RevokedKeyStaysRevoked(env, s, p, k);
      HandleKeepsDate(env, RunFrom(env, s, p).db, i.cmd.op, i.oracle, k);
    }
  }

  /** At position `j` a command revokes the unrevoked key `k`. */
  ghost predicate RevokesAt(env: Env, s: State, q: seq<Input>, j: nat, k: string, date: string) {
    && j < |q| && Commits(env, RunFrom(env, s, q[..j]), q[j])
    && q[j].cmd.op == OnIdentity(RevokeStaticApiKey(date, k))
    && var keys := RunFrom(env, s, q[..j]).db.identity.keys;
       k in keys && keys[k].revokedAt.None?
  }

  /** No key is revoked but by a revocation, whose date it bears. */
  lemma RevokedKeyWasRevoked(env: Env, q: seq<Input>, k: string)
    requires var keys := Run(env, q).db.identity.keys; k in keys && keys[k].revokedAt.Some?
    ensures exists j :: RevokesAt(env, Init, q, j, k, Run(env, q).db.identity.keys[k].revokedAt.value)
  {
    hide Handle, RunFrom;
    assert RunFrom(env, Init, q) == Run(env, q);
    var j := LastWriter.SomebodyWrote(env, Init, q, DateOf(k));
    LastWriter.LastWriteStands(env, Init, q, j, DateOf(k));
    assert RevokesAt(env, Init, q, j, k, Run(env, q).db.identity.keys[k].revokedAt.value);
  }
}
