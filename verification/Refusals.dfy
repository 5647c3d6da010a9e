/** When a command is accepted, and with which code it is refused: the tests of
    every handler, in order, on the rows themselves. */
module Refusals {
  import opened Basics
  import opened Types
  import opened ControlPlane
  import Compute
  import Storage
  import Tenancy
  import Fleet
  import Identity
  import FleetRegisters

  /** `Known`: what the command asks for is there already, and the answer says so. */
  datatype Verdict = Accepted | Refused(code: nat) | Known

  ghost predicate Meets<T(!new)>(out: Outcome<T>, v: Verdict) {
    match v
    case Accepted => out.Commit?
    case Refused(code) => out == Early(Error(code))
    case Known => out.Early? && !out.response.Error?
  }

  // ------------------------------------------------------------------ compute

  predicate NetworkNamed(t: Compute.Tables, project: string, name: string) {
    exists k :: k in t.networks && t.networks[k].projectSlug == project && t.networks[k].name == name
  }

  predicate VmNamed(t: Compute.Tables, project: string, name: string) {
    exists k :: k in t.vms && t.vms[k].spec.projectSlug == project && t.vms[k].spec.name == name
  }

  predicate GroupNamed(t: Compute.Tables, project: string, name: string) {
    exists k :: k in t.groups && t.groups[k].projectSlug == project && t.groups[k].name == name
  }

  /** A NIC is on the network. */
  predicate Populated(t: Compute.Tables, network: string) {
    exists k :: k in t.nics && t.nics[k].spec.networkId == network
  }

  /** A NIC carries the security group. */
  predicate Carried(t: Compute.Tables, group: string) {
    exists k :: k in t.nics && t.nics[k].spec.securityGroupId == Some(group)
  }

  predicate HasRule(t: Compute.Tables, group: string, rule: string) {
    group in t.groups && exists i :: 0 <= i < |t.groups[group].rules| && t.groups[group].rules[i].id == rule
  }

  /** The NIC belongs to another VM. */
  predicate Taken(t: Compute.Tables, nic: string, vm: string) {
    nic in t.nics && t.nics[nic].spec.vmId.Some? && t.nics[nic].spec.vmId != Some(vm)
  }

  function ComputeVerdict(t: Compute.Tables, projects: set<string>, op: ComputeOp): Verdict {
    match op
    case CreateNetwork(id, _, project, name, _, _, _, _, _, _, _) =>
      if NetworkNamed(t, project, name) then Refused(409) else if id in t.networks then Known else Accepted
    case UpdateNetwork(id, _, _, _) => if id in t.networks then Accepted else Refused(404)
    case DeleteNetwork(id, force) =>
      if Populated(t, id) && !force then Refused(409) else if id in t.networks then Accepted else Refused(404)
    case CreateNic(id, _, _, network, _, _, _, _, _, _, group) =>
      if network !in t.networks || (group.Some? && group.value !in t.groups) then Refused(404)
      else if id in t.nics then Known else Accepted
    case AttachNic(id, _, vm) =>
      if id !in t.nics then Refused(404)
      else if t.nics[id].spec.vmId.Some? then Refused(409)
      else if vm !in t.vms then Refused(404) else Accepted
    case UpdateNic(id, _, _, _) => if id in t.nics then Accepted else Refused(404)
    case DeleteNic(id) => if id in t.nics then Accepted else Refused(404)
    case DetachNic(id, _) => if id in t.nics then Accepted else Refused(404)
    case UpdateNicStatus(id, _, _, _, _) => if id in t.nics then Accepted else Refused(404)
    case CreateVm(id, _, spec) =>
      if VmNamed(t, spec.projectSlug, spec.name) then Refused(409)
      else if id in t.vms then Known
      else if spec.nicId !in t.nics then Refused(404)
      else if Taken(t, spec.nicId, id) then Refused(409) else Accepted
    case UpdateVmSpec(id, _, _) => if id in t.vms then Accepted else Refused(404)
    case UpdateVmStatus(id, _, _) => if id in t.vms then Accepted else Refused(404)
    case DeleteVm(id) => if id in t.vms then Accepted else Refused(404)
    case CreateSecurityGroup(id, _, project, name, _) =>
      if id in t.groups then Known
      else if GroupNamed(t, project, name) then Refused(409)
      else if project !in projects then Refused(404) else Accepted
    case UpdateSecurityGroup(id, _, _, _) => if id in t.groups then Accepted else Refused(404)
    case DeleteSecurityGroup(id) =>
      if Carried(t, id) then Refused(409) else if id in t.groups then Accepted else Refused(404)
    case CreateSecurityGroupRule(id, _, group, _, _, _, _, _, _) =>
      if group !in t.groups then Refused(404) else if HasRule(t, group, id) then Known else Accepted
    case DeleteSecurityGroupRule(group, id) => if HasRule(t, group, id) then Accepted else Refused(404)
    case UpdateSecurityGroupRule(_, group, id, _) => if HasRule(t, group, id) then Accepted else Refused(404)
  }

  lemma DeleteNetworkMeets(t: Compute.Tables, projects: set<string>, op: ComputeOp)
    requires op.DeleteNetwork?
    ensures Meets(Compute.ApplyDeleteNetwork(t, op), ComputeVerdict(t, projects, op))
  {
    assert Populated(t, op.id) <==> Compute.NicsIn(t.nics, op.id) != {} by {
      if Populated(t, op.id) {
        var k :| k in t.nics && t.nics[k].spec.networkId == op.id;
        assert k in Compute.NicsIn(t.nics, op.id);
      }
    }
    hide ScanKeys, Compute.NicDeletions;
  }

  lemma NetworkStepMeets(t: Compute.Tables, projects: set<string>, op: ComputeOp)
    requires Compute.IsNetworkOp(op)
    ensures Meets(Compute.NetworkStep(t, op), ComputeVerdict(t, projects, op))
  {
    if op.DeleteNetwork? { DeleteNetworkMeets(t, projects, op); }
    hide Compute.ApplyDeleteNetwork, Populated;
  }

  lemma NicStepMeets(env: Env, t: Compute.Tables, projects: set<string>, op: ComputeOp)
    requires Compute.IsNicOp(op)
    ensures Meets(Compute.NicStep(env, t, op), ComputeVerdict(t, projects, op))
  {
  }

  lemma VmStepMeets(t: Compute.Tables, projects: set<string>, op: ComputeOp, now: string)
    requires Compute.IsVmOp(op)
    ensures Meets(Compute.VmStep(t, op, now), ComputeVerdict(t, projects, op))
  {
  }

  lemma GroupStepMeets(t: Compute.Tables, projects: set<string>, op: ComputeOp)
    requires !Compute.IsNetworkOp(op) && !Compute.IsNicOp(op) && !Compute.IsVmOp(op)
    ensures Meets(Compute.GroupStep(t, projects, op), ComputeVerdict(t, projects, op))
  {
    if op.DeleteSecurityGroup? && Carried(t, op.id) {
      var k :| k in t.nics && t.nics[k].spec.securityGroupId == Some(op.id);
      assert k in Compute.NicsOf(t.nics, op.id);
    }
  }

  lemma ComputeMeets(env: Env, t: Compute.Tables, projects: set<string>, op: ComputeOp, now: string)
    ensures Meets(Compute.Step(env, t, projects, op, now), ComputeVerdict(t, projects, op))
  {
    hide Meets, ComputeVerdict, Compute.NetworkStep, Compute.NicStep, Compute.VmStep, Compute.GroupStep;
    if Compute.IsNetworkOp(op) { NetworkStepMeets(t, projects, op); }
    else if Compute.IsNicOp(op) { NicStepMeets(env, t, projects, op); }
    else if Compute.IsVmOp(op) { VmStepMeets(t, projects, op, now); }
    else { GroupStepMeets(t, projects, op); }
  }

  // ------------------------------------------------------ storage and tenancy

  predicate VolumeNamed(t: Storage.Tables, project: string, name: string) {
    exists k :: k in t.volumes && t.volumes[k].spec.projectSlug == project && t.volumes[k].spec.name == name
  }

  predicate ReadyTemplateNamed(t: Storage.Tables, project: string, name: string) {
    exists k :: k in t.templates && t.templates[k].spec.projectSlug == project
                && t.templates[k].spec.name == name && t.templates[k].status.phase == TemplateReady
  }

  predicate SnapshotNamed(v: VolumeData, name: string) {
    exists i :: 0 <= i < |v.status.snapshots| && v.status.snapshots[i].name == name
  }

  function StorageVerdict(t: Storage.Tables, projects: set<string>, op: StorageOp): Verdict {
    match op
    case CreateVolume(id, _, project, node, name, _, template) =>
      if project !in projects then Refused(404)
      else if id in t.volumes then Known
      else if VolumeNamed(t, project, name) then Refused(409)
      else if template.Some? && template.value !in t.templates then Refused(404)
      else if template.Some? && t.templates[template.value].spec.nodeId != node then Refused(409) else Accepted
    case DeleteVolume(id) => if id in t.volumes then Accepted else Refused(404)
    case UpdateVolumeStatus(id, _, _, _, _, _) => if id in t.volumes then Accepted else Refused(404)
    case ResizeVolume(id, _, size) =>
      if id !in t.volumes then Refused(404)
      else if size < t.volumes[id].spec.sizeBytes then Refused(400) else Accepted
    case CreateSnapshot(_, _, id, name) =>
      if id !in t.volumes then Refused(404)
      else if SnapshotNamed(t.volumes[id], name) then Refused(409) else Accepted
    case CreateTemplate(id, _, project, _, name, _, _, _) =>
      if ReadyTemplateNamed(t, project, name) then Refused(409) else if id in t.templates then Known else Accepted
    case UpdateTemplateStatus(id, _, _, _, _, _) => if id in t.templates then Accepted else Refused(404)
  }

  lemma StorageMeets(t: Storage.Tables, projects: set<string>, op: StorageOp)
    ensures Meets(Storage.Step(t, projects, op), StorageVerdict(t, projects, op))
  {
  }

  predicate HasProjects(t: Tenancy.Tables, org: string) {
    exists k :: k in t.projects && t.projects[k].orgSlug == org
  }

  function TenancyVerdict(t: Tenancy.Tables, op: TenancyOp): Verdict {
    match op
    case CreateOrg(_, slug, _, _) => if slug in t.orgs then Refused(409) else Accepted
    case UpdateOrg(slug, _, _, _) => if slug in t.orgs then Accepted else Refused(404)
    case DeleteOrg(slug) =>
      if slug !in t.orgs then Refused(404) else if HasProjects(t, slug) then Refused(409) else Accepted
    case CreateProject(_, org, slug, _, _) =>
      if slug in t.projects then Refused(409) else if org !in t.orgs then Refused(404) else Accepted
    case DeleteProject(slug) => if slug in t.projects then Accepted else Refused(404)
  }

  lemma TenancyMeets(t: Tenancy.Tables, op: TenancyOp)
    ensures Meets(Tenancy.Step(t, op), TenancyVerdict(t, op))
  {
    if op.DeleteOrg? && HasProjects(t, op.slug) {
      var k :| k in t.projects && t.projects[k].orgSlug == op.slug;
      assert k in Tenancy.ProjectsOf(t.projects, op.slug);
    }
  }

  // -------------------------------------------------------------------- fleet

  predicate NodeNamed(t: Fleet.Tables, name: string) {
    exists k :: k in t.nodes && t.nodes[k].name == name
  }

  predicate HostNamed(t: Fleet.Tables, cluster: string, name: string) {
    exists k :: k in t.nodes && t.nodes[k].clusterSlug == Some(cluster) && t.nodes[k].name == name
  }

  /** The tests of a redemption that has found its token. */
  predicate Expired(token: OnboardingTokenData, at: string) {
    !LeqString(at, token.expiresAt)
  }

  function TokenVerdict(env: Env, t: Fleet.Tables, token: OnboardingTokenData, at: string, csr: string): Verdict {
    if token.usedAt.Some? || Expired(token, at) then Refused(401)
    else if token.clusterSlug !in t.clusters || token.nodeId !in t.nodes then Refused(410)
    else if t.ca.None? then Refused(503)
    else if !env.signs(t.ca.value, csr, token.nodeId, token.clusterSlug) then Refused(400) else Accepted
  }

  ghost predicate HashKnown(t: Fleet.Tables, hash: string) {
    exists k :: FleetRegisters.Names(t, hash, k)
  }

  ghost function FleetVerdict(env: Env, t: Fleet.Tables, orgs: set<string>, op: FleetOp): Verdict {
    match op
    case RegisterNode(id, _, name, _, _, _) =>
      if NodeNamed(t, name) then Refused(409) else if id in t.nodes then Known else Accepted
    case UpdateNodeStatus(id, _, _, _) => if id in t.nodes then Accepted else Refused(404)
    case DeregisterNode(id) => if id in t.nodes then Accepted else Refused(404)
    case CreateCluster(_, org, slug, _, _, _) =>
      if slug in t.clusters then Refused(409) else if org !in orgs then Refused(404) else Accepted
    case UpdateCluster(slug, _, _, _, _) => if slug in t.clusters then Accepted else Refused(404)
    case DeleteCluster(slug) => if slug in t.clusters then Accepted else Refused(404)
    case AddNodeToCluster(_, slug, node) =>
      if slug in t.clusters && node in t.nodes then Accepted else Refused(404)
    case RemoveNodeFromCluster(_, slug, _) => if slug in t.clusters then Accepted else Refused(404)
    case EnsureInternalCa(_) => Accepted
    case UpdateServerCert(_, _, _, _, _) => Accepted
    case CreateOnboardingToken(_, id, _, slug, node, hostname, _, _, _) =>
      if slug !in t.clusters then Refused(404)
      else if id in t.tokens || node in t.nodes || HostNamed(t, slug, hostname) then Refused(409) else Accepted
    case DeleteOnboardingToken(slug, id) =>
      if id in t.tokens && t.tokens[id].clusterSlug == slug then Accepted else Refused(404)
    case RedeemOnboardingToken(at, hash, csr, _, _, _, _) =>
      if !HashKnown(t, hash) then Refused(401)
      else
        var k :| FleetRegisters.Names(t, hash, k);
        TokenVerdict(env, t, t.tokens[k], at, csr)
    case RevokeNodeCert(_, node, _) => if node in t.nodes then Accepted else Refused(404)
  }

  lemma RegistryMeets(env: Env, t: Fleet.Tables, orgs: set<string>, op: FleetOp)
    requires !Fleet.IsTokenOp(op)
    ensures Meets(Fleet.RegistryStep(t, orgs, op), FleetVerdict(env, t, orgs, op))
  {
  }

  lemma TokenOpMeets(env: Env, t: Fleet.Tables, orgs: set<string>, op: FleetOp, leaf: SignedLeaf)
    requires Fleet.IsTokenOp(op) && !op.RedeemOnboardingToken?
    ensures Meets(Fleet.TokenStep(env, t, op, leaf), FleetVerdict(env, t, orgs, op))
  {
    hide Fleet.StripAll, Fleet.UnusedFor, Fleet.CheckRedeem;
  }

  lemma RedeemMeets(env: Env, t: Fleet.Tables, orgs: set<string>, op: FleetOp, leaf: SignedLeaf)
    requires op.RedeemOnboardingToken?
    ensures Meets(Fleet.ApplyRedeemToken(env, t, op, leaf), FleetVerdict(env, t, orgs, op))
  {
    hide FirstKey, LeqString, FleetRegisters.Names, Fleet.TokensWithHash;
    var key := FirstKey(Fleet.TokensWithHash(t.tokens, op.tokenHashHex));
    forall k ensures key == Some(k) <==> FleetRegisters.Names(t, op.tokenHashHex, k) {
      FleetRegisters.FirstIsNamed(t, op.tokenHashHex, k);
    }
    assert key.Some? ==> FleetRegisters.Names(t, op.tokenHashHex, key.value);
  }

  lemma TokenStepMeets(env: Env, t: Fleet.Tables, orgs: set<string>, op: FleetOp, leaf: SignedLeaf)
    requires Fleet.IsTokenOp(op)
    ensures Meets(Fleet.TokenStep(env, t, op, leaf), FleetVerdict(env, t, orgs, op))
  {
    hide Meets, FleetVerdict, Fleet.ApplyRedeemToken;
    if op.RedeemOnboardingToken? { RedeemMeets(env, t, orgs, op, leaf); }
    else { TokenOpMeets(env, t, orgs, op, leaf); }
  }

  lemma FleetMeets(env: Env, t: Fleet.Tables, orgs: set<string>, op: FleetOp, leaf: SignedLeaf)
    ensures Meets(Fleet.Step(env, t, orgs, op, leaf), FleetVerdict(env, t, orgs, op))
  {
    hide Meets, FleetVerdict, Fleet.RegistryStep, Fleet.TokenStep;
    if Fleet.IsTokenOp(op) { TokenStepMeets(env, t, orgs, op, leaf); } else { RegistryMeets(env, t, orgs, op); }
  }

  // ----------------------------------------------------------------- identity

  predicate EmailKnown(env: Env, t: Identity.Tables, email: string) {
    exists k :: k in t.accounts && t.accounts[k].email.Some? && env.lower(t.accounts[k].email.value) == email
  }

  predicate Granted(t: Identity.Tables, account: string, scope: MembershipScope, role: Role) {
    exists k :: k in t.memberships && t.memberships[k].accountId == account && t.memberships[k].scope == scope
                && t.memberships[k].role == role
  }

  predicate PlatformHasAdmin(t: Identity.Tables) {
    exists k :: k in t.memberships && t.memberships[k].scope == Platform && t.memberships[k].role == PlatformAdmin
  }

  predicate ServiceNamed(t: Identity.Tables, project: string, name: string) {
    exists k :: k in t.accounts && t.accounts[k].kind == ServiceAccount
                && t.accounts[k].projectSlug == Some(project) && t.accounts[k].displayName == Some(name)
  }

  /** The organization or project of a membership is missing. */
  predicate ScopeMissing(orgs: set<string>, projects: set<string>, scope: MembershipScope) {
    (scope.OrgScope? && scope.orgSlug !in orgs) || (scope.ProjectScope? && scope.projectSlug !in projects)
  }

  function IdentityVerdict(env: Env, t: Identity.Tables, orgs: set<string>, projects: set<string>, op: IdentityOp)
    : Verdict
  {
    match op
    case CreateAccountByEmail(_, _, address, _) =>
      var email := env.lower(env.trim(address));
      if email == "" then Refused(400) else if EmailKnown(env, t, email) then Refused(409) else Accepted
    case EnsureAccountFromOidc(_, _, _, _, _, _) => Accepted
    case CreateMembership(_, id, account, scope, role, _) =>
      if id in t.memberships then Refused(409)
      else if account !in t.accounts || ScopeMissing(orgs, projects, scope) then Refused(404)
      else if Granted(t, account, scope, role) then Refused(409) else Accepted
    case DeleteMembership(id) => if id in t.memberships then Accepted else Refused(404)
    case BootstrapInitialPlatformAdmin(_, _, account) =>
      if PlatformHasAdmin(t) then Known else if account !in t.accounts then Refused(404) else Accepted
    case CreateServiceAccount(_, _, _, project, name, _, _) =>
      if project !in projects then Refused(404) else if ServiceNamed(t, project, name) then Refused(409) else Accepted
    case DeleteServiceAccount(id) =>
      if id !in t.accounts then Refused(404)
      else if t.accounts[id].kind == User then Refused(400) else Accepted
    case CreateStaticApiKey(_, id, account, _, _, _, _, _) =>
      if account !in t.accounts then Refused(404)
      else if t.accounts[account].kind == User then Refused(400)
      else if id in t.keys then Refused(409) else Accepted
    case RevokeStaticApiKey(_, id) => if id in t.keys then Accepted else Refused(404)
  }

  lemma IdentityMeets(env: Env, t: Identity.Tables, orgs: set<string>, projects: set<string>, op: IdentityOp)
    ensures Meets(Identity.Step(env, t, orgs, projects, op), IdentityVerdict(env, t, orgs, projects, op))
  {
    assert forall k :: k in t.accounts ==> t.accounts[k].kind == User || t.accounts[k].kind == ServiceAccount;
    hide FirstKey, LeqString;
  }

  // --------------------------------------------------------------- all commands

  ghost function VerdictOn(env: Env, db: Db, op: Op): Verdict {
    var projects, orgs := db.tenancy.projects.Keys, db.tenancy.orgs.Keys;
    match op
    case OnCompute(c) => ComputeVerdict(db.compute, projects, c)
    case OnStorage(c) => StorageVerdict(db.storage, projects, c)
    case OnTenancy(c) => TenancyVerdict(db.tenancy, c)
    case OnFleet(c) => FleetVerdict(env, db.fleet, orgs, c)
    case OnIdentity(c) => IdentityVerdict(env, db.identity, orgs, projects, c)
  }

  /** Whether a command commits, and its error code if not, depend on the rows in
      this way, and never on the clock or the serial. */
  lemma HandleMeets(env: Env, db: Db, op: Op, oracle: Oracle)
    ensures Meets(Handle(env, db, op, oracle), VerdictOn(env, db, op))
  {
    hide Compute.Step, Storage.Step, Tenancy.Step, Fleet.Step, Identity.Step;
    hide ComputeVerdict, StorageVerdict, TenancyVerdict, FleetVerdict, IdentityVerdict;
    var projects, orgs := db.tenancy.projects.Keys, db.tenancy.orgs.Keys;
    match op
    case OnCompute(c) => ComputeMeets(env, db.compute, projects, c, oracle.now);
    case OnStorage(c) => StorageMeets(db.storage, projects, c);
    case OnTenancy(c) => TenancyMeets(db.tenancy, c);
    case OnFleet(c) => FleetMeets(env, db.fleet, orgs, c, oracle.leaf);
    case OnIdentity(c) => IdentityMeets(env, db.identity, orgs, projects, c);
  }
}
