/** What a command leaves alone: the rows it does not name, and in the rows it
    does, everything fixed at creation. */
module Footprint {
  import opened Basics
  import opened Types
  import opened ControlPlane
  import Compute
  import Storage
  import Tenancy
  import Fleet
  import Identity

  // ------------------------------------------------------ rows out of reach

  predicate SameRow<V(==)>(a: map<string, V>, b: map<string, V>, k: string) {
    (k in a <==> k in b) && (k in a ==> a[k] == b[k])
  }

  predicate ReachesNetwork(t: Compute.Tables, op: ComputeOp, k: string) {
    match op
    case CreateNic(_, _, _, network, _, _, _, _, _, _, _) => k == network
    case DeleteNic(id) => id in t.nics && k == t.nics[id].spec.networkId
    case _ => Compute.IsNetworkOp(op) && k == op.id
  }

  predicate ReachesNic(t: Compute.Tables, op: ComputeOp, k: string) {
    match op
    case DeleteNetwork(id, _) => k in Compute.NicsIn(t.nics, id)
    case CreateVm(_, _, spec) => k == spec.nicId
    case DeleteVm(id) => Compute.ReleasesNic(t, id) && k == t.vms[id].spec.nicId
    case _ => Compute.IsNicOp(op) && k == op.id
  }

  predicate ReachesVm(op: ComputeOp, k: string) {
    Compute.IsVmOp(op) && k == op.id
  }

  predicate ReachesGroup(t: Compute.Tables, op: ComputeOp, k: string) {
    match op
    case CreateNic(_, _, _, _, _, _, _, _, _, _, group) => group == Some(k)
    case DeleteNic(id) => id in t.nics && t.nics[id].spec.securityGroupId == Some(k)
    case CreateSecurityGroup(id, _, _, _, _) => k == id
    case UpdateSecurityGroup(id, _, _, _) => k == id
    case DeleteSecurityGroup(id) => k == id
    case CreateSecurityGroupRule(_, _, group, _, _, _, _, _, _) => k == group
    case DeleteSecurityGroupRule(group, _) => k == group
    case UpdateSecurityGroupRule(_, group, _, _) => k == group
    case _ => false
  }

  ghost predicate Untouched(t: Compute.Tables, op: ComputeOp, u: Compute.Tables, k: string) {
    && (!ReachesNetwork(t, op, k) ==> SameRow(t.networks, u.networks, k))
    && (!ReachesNic(t, op, k) ==> SameRow(t.nics, u.nics, k))
    && (!ReachesVm(op, k) ==> SameRow(t.vms, u.vms, k))
    && (!ReachesGroup(t, op, k) ==> SameRow(t.groups, u.groups, k))
  }

  lemma NetworkStepUntouched(t: Compute.Tables, op: ComputeOp, k: string)
    requires Compute.IsNetworkOp(op)
    ensures var out := Compute.NetworkStep(t, op); out.Commit? ==> Untouched(t, op, out.tables, k)
  {
    hide ScanKeys, Compute.NicDeletions;
  }

  lemma NicStepUntouched(env: Env, t: Compute.Tables, op: ComputeOp, k: string)
    requires Compute.IsNicOp(op)
    ensures var out := Compute.NicStep(env, t, op); out.Commit? ==> Untouched(t, op, out.tables, k)
  {
  }

  lemma VmStepUntouched(t: Compute.Tables, op: ComputeOp, now: string, k: string)
    requires Compute.IsVmOp(op)
    ensures var out := Compute.VmStep(t, op, now); out.Commit? ==> Untouched(t, op, out.tables, k)
  {
  }

  lemma GroupStepUntouched(t: Compute.Tables, projects: set<string>, op: ComputeOp, k: string)
    requires !Compute.IsNetworkOp(op) && !Compute.IsNicOp(op) && !Compute.IsVmOp(op)
    ensures var out := Compute.GroupStep(t, projects, op); out.Commit? ==> Untouched(t, op, out.tables, k)
  {
  }

  /** A command leaves every row alone that it does not reach by name, by a
      reference in a row it removes, or by the cascade of a network delete. */
  lemma StepUntouched(env: Env, t: Compute.Tables, projects: set<string>, op: ComputeOp, now: string, k: string)
    ensures var out := Compute.Step(env, t, projects, op, now); out.Commit? ==> Untouched(t, op, out.tables, k)
  {
    hide Untouched, Compute.NetworkStep, Compute.NicStep, Compute.VmStep, Compute.GroupStep;
    if Compute.IsNetworkOp(op) { NetworkStepUntouched(t, op, k); }
    else if Compute.IsNicOp(op) { NicStepUntouched(env, t, op, k); }
    else if Compute.IsVmOp(op) { VmStepUntouched(t, op, now, k); }
    else { GroupStepUntouched(t, projects, op, k); }
  }

  // -------------------------------------------------- fixed when created

  /** A row without the fields that commands may still change. */
  function NetworkCore(n: NetworkData): NetworkData {
    n.(dnsServers := [], ntpServers := [], nicCount := 0, updatedAt := "")
  }

  function NicCore(n: NicData): NicData {
    n.(spec := n.spec.(routedIpv4Prefixes := [], routedIpv6Prefixes := [], vmId := None),
       status := NicStatus(NicPending, "", None), updatedAt := "")
  }

  function VmCore(m: VmData): VmData {
    m.(spec := m.spec.(desiredState := WantRunning), status := VmStatus(VmPending, None, None, None), updatedAt := "")
  }

  function GroupCore(g: SecurityGroupData): SecurityGroupData {
    g.(name := "", description := None, rules := [], nicCount := 0, updatedAt := "")
  }

  ghost predicate SameCores(t: Compute.Tables, u: Compute.Tables, k: string) {
    && (k in t.networks && k in u.networks ==> NetworkCore(t.networks[k]) == NetworkCore(u.networks[k]))
    && (k in t.nics && k in u.nics ==> NicCore(t.nics[k]) == NicCore(u.nics[k]))
    && (k in t.vms && k in u.vms ==> VmCore(t.vms[k]) == VmCore(u.vms[k]))
    && (k in t.groups && k in u.groups ==> GroupCore(t.groups[k]) == GroupCore(u.groups[k]))
  }

  lemma NicStepKeepsCores(env: Env, t: Compute.Tables, op: ComputeOp, k: string)
    requires Compute.IsNicOp(op)
    ensures var out := Compute.NicStep(env, t, op); out.Commit? ==> SameCores(t, out.tables, k)
  {
  }

  lemma NetworkStepKeepsCores(t: Compute.Tables, op: ComputeOp, k: string)
    requires Compute.IsNetworkOp(op)
    ensures var out := Compute.NetworkStep(t, op); out.Commit? ==> SameCores(t, out.tables, k)
  {
    hide ScanKeys, Compute.NicDeletions, Compute.NicsIn;
  }

  lemma VmStepKeepsCores(t: Compute.Tables, op: ComputeOp, now: string, k: string)
    requires Compute.IsVmOp(op)
    ensures var out := Compute.VmStep(t, op, now); out.Commit? ==> SameCores(t, out.tables, k)
  {
  }

  lemma GroupStepKeepsCores(t: Compute.Tables, projects: set<string>, op: ComputeOp, k: string)
    requires !Compute.IsNetworkOp(op) && !Compute.IsNicOp(op) && !Compute.IsVmOp(op)
    ensures var out := Compute.GroupStep(t, projects, op); out.Commit? ==> SameCores(t, out.tables, k)
  {
    hide Compute.NicsOf;
  }

  lemma StepKeepsCores(env: Env, t: Compute.Tables, projects: set<string>, op: ComputeOp, now: string, k: string)
    ensures var out := Compute.Step(env, t, projects, op, now); out.Commit? ==> SameCores(t, out.tables, k)
  {
    hide SameCores, Compute.NetworkStep, Compute.NicStep, Compute.VmStep, Compute.GroupStep;
    if Compute.IsNetworkOp(op) { NetworkStepKeepsCores(t, op, k); }
    else if Compute.IsNicOp(op) { NicStepKeepsCores(env, t, op, k); }
    else if Compute.IsVmOp(op) { VmStepKeepsCores(t, op, now, k); }
    else { GroupStepKeepsCores(t, projects, op, k); }
  }

  lemma HandleKeepsCores(env: Env, db: Db, op: Op, oracle: Oracle, k: string)
    ensures match Handle(env, db, op, oracle)
      case Commit(after, _, _) => SameCores(db.compute, after.compute, k)
      case Early(_) => true
  {
    hide Compute.Step, Storage.Step, Fleet.Step, Tenancy.Step, Identity.Step;
    if op.OnCompute? {
      hide SameCores;
      StepKeepsCores(env, db.compute, db.tenancy.projects.Keys, op.compute, oracle.now, k);
    }
  }

  /** From its creation to its deletion a NIC keeps its network, MAC and IP
      addresses, security group, project and name. */
  lemma {:induction false} NicKeepsCore(env: Env, s: State, q: seq<Input>, k: string)
    requires Always(env, s, q, (db: Db) => k in db.compute.nics)
    ensures k in s.db.compute.nics
    ensures NicCore(RunFrom(env, s, q).db.compute.nics[k]) == NicCore(s.db.compute.nics[k])
    decreases |q|
  {
    hide Handle, NicCore, NetworkCore, VmCore, GroupCore;
    if q != [] {
      var p, i := q[..|q| - 1], q[|q| - 1];
      NicKeepsCore(env, s, p, k);
      HandleKeepsCores(env, RunFrom(env, s, p).db, i.cmd.op, i.oracle, k);
    }
  }
}
