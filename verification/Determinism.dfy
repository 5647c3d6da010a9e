/** When a command is deterministic, as command.rs demands of every command:
    exactly when it does not reach one of the two places where a handler reads
    the replica's own clock or random generator. */
module Determinism {
  import opened Basics
  import opened Types
  import opened ControlPlane
  import Compute
  import Storage
  import Tenancy
  import Fleet
  import Identity

  /** The VM delete that stamps the released NIC with the wall clock. */
  predicate ReadsClock(t: Compute.Tables, op: ComputeOp) {
    op.DeleteVm? && Compute.ReleasesNic(t, op.id)
  }

  /** The redemption that passes every check and has a leaf signed. */
  predicate DrawsSerial(env: Env, t: Fleet.Tables, op: FleetOp) {
    && op.RedeemOnboardingToken?
    && var check := Fleet.CheckRedeem(t, op);
    && check.Redeem?
    && var token := t.tokens[check.key];
       env.signs(t.ca.value, op.csrPem, token.nodeId, token.clusterSlug)
  }

  predicate LooksOutside(env: Env, s: State, c: Command) {
    && Peek(s.cache, c.requestId).None?
    && match c.op
       case OnCompute(op) => ReadsClock(s.db.compute, op)
       case OnFleet(op) => DrawsSerial(env, s.db.fleet, op)
       case _ => false
  }

  /** Replicas in the same state answer alike whatever their surroundings. */
  ghost predicate Deterministic(env: Env, s: State, c: Command) {
    forall a, b :: Apply(env, s, Input(c, a)) == Apply(env, s, Input(c, b))
  }

  lemma ComputeUnlessClock(env: Env, t: Compute.Tables, projects: set<string>, op: ComputeOp, a: string, b: string)
    requires !ReadsClock(t, op)
    ensures Compute.Step(env, t, projects, op, a) == Compute.Step(env, t, projects, op, b)
  {
    hide Compute.NetworkStep, Compute.NicStep, Compute.GroupStep, Compute.ApplyCreateVm;
  }

  lemma FleetUnlessSerial(env: Env, t: Fleet.Tables, orgs: set<string>, op: FleetOp, a: SignedLeaf, b: SignedLeaf)
    requires !DrawsSerial(env, t, op)
    ensures Fleet.Step(env, t, orgs, op, a) == Fleet.Step(env, t, orgs, op, b)
  {
    hide Fleet.RegistryStep, Fleet.ApplyCreateToken, Fleet.ApplyDeleteToken, Fleet.ApplyRevokeCert, Fleet.CheckRedeem;
  }

  lemma SameUnlessOutside(env: Env, s: State, c: Command, a: Oracle, b: Oracle)
    requires !LooksOutside(env, s, c)
    ensures Apply(env, s, Input(c, a)) == Apply(env, s, Input(c, b))
  {
    hide Compute.Step, Storage.Step, Fleet.Step, Tenancy.Step, Identity.Step, ReadsClock, DrawsSerial;
    if Peek(s.cache, c.requestId).None? {
      if c.op.OnCompute? {
        ComputeUnlessClock(env, s.db.compute, s.db.tenancy.projects.Keys, c.op.compute, a.now, b.now);
      } else if c.op.OnFleet? {
        FleetUnlessSerial(env, s.db.fleet, s.db.tenancy.orgs.Keys, c.op.fleet, a.leaf, b.leaf);
      }
    }
  }

  /** The clock reading ends up in the row of the released NIC. */
  lemma ClockIsStored(env: Env, t: Compute.Tables, projects: set<string>, op: ComputeOp, now: string)
    requires ReadsClock(t, op)
    ensures var out := Compute.Step(env, t, projects, op, now);
            var nic := t.vms[op.id].spec.nicId;
            out.Commit? && nic in out.tables.nics && out.tables.nics[nic].updatedAt == now
  {
  }

  /** The serial drawn ends up in the row of the node. */
  lemma SerialIsStored(env: Env, t: Fleet.Tables, orgs: set<string>, op: FleetOp, leaf: SignedLeaf)
    requires DrawsSerial(env, t, op)
    ensures var out := Fleet.Step(env, t, orgs, op, leaf);
            var node := t.tokens[Fleet.CheckRedeem(t, op).key].nodeId;
            out.Commit? && node in out.tables.nodes && out.tables.nodes[node].certSerialHex == Some(leaf.serialHex)
  {
    hide Fleet.CheckRedeem;
  }

  lemma OutsideShows(env: Env, s: State, c: Command, a: Oracle, b: Oracle)
    requires LooksOutside(env, s, c) && a.now != b.now && a.leaf.serialHex != b.leaf.serialHex
    ensures Apply(env, s, Input(c, a)) != Apply(env, s, Input(c, b))
  {
    hide Compute.Step, Storage.Step, Fleet.Step, Tenancy.Step, Identity.Step, Put;
    if c.op.OnCompute? {
      ClockIsStored(env, s.db.compute, s.db.tenancy.projects.Keys, c.op.compute, a.now);
      ClockIsStored(env, s.db.compute, s.db.tenancy.projects.Keys, c.op.compute, b.now);
    } else {
      SerialIsStored(env, s.db.fleet, s.db.tenancy.orgs.Keys, c.op.fleet, a.leaf);
      SerialIsStored(env, s.db.fleet, s.db.tenancy.orgs.Keys, c.op.fleet, b.leaf);
    }
  }

  lemma DeterministicIff(env: Env, s: State, c: Command)
    ensures Deterministic(env, s, c) <==> !LooksOutside(env, s, c)
  {
    hide Apply, LooksOutside;
    if LooksOutside(env, s, c) {
      var a, b := Oracle("", SignedLeaf("", "", "")), Oracle("1", SignedLeaf("", "1", ""));
      OutsideShows(env, s, c, a, b);
    } else {
      forall a, b ensures Apply(env, s, Input(c, a)) == Apply(env, s, Input(c, b)) {
        SameUnlessOutside(env, s, c, a, b);
      }
    }
  }

  /** Replicas that skip the commands reading their surroundings are equal. */
  lemma {:induction false} QuietReplicasAreEqual(env: Env, s: State, a: seq<Input>, b: seq<Input>)
    requires |a| == |b| && forall k :: 0 <= k < |a| ==> a[k].cmd == b[k].cmd
    requires forall k :: 0 <= k < |a| ==> !LooksOutside(env, RunFrom(env, s, a[..k]), a[k].cmd)
    ensures RunFrom(env, s, a) == RunFrom(env, s, b)
    decreases |a|
  {
    hide Apply, LooksOutside;
    if a != [] {
      RunLast(env, s, a);
      RunLast(env, s, b);
      hide Handle, RunFrom;
      var n := |a| - 1;
      assert forall k :: 0 <= k < n ==> a[..n][..k] == a[..k];
      QuietReplicasAreEqual(env, s, a[..n], b[..n]);
      assert !LooksOutside(env, RunFrom(env, s, a[..n]), a[n].cmd);
      SameUnlessOutside(env, RunFrom(env, s, a[..n]), a[n].cmd, a[n].oracle, b[n].oracle);
      assert a[n] == Input(a[n].cmd, a[n].oracle) && b[n] == Input(a[n].cmd, b[n].oracle);
    }
  }
}
