/** What a client is told is what happened. A response that carries a row carries
    the row the command names, as it is stored; `Deleted` means that the row the command names is
    gone, and `Ack` that what was asked for is there. One handler breaks this. */
module Answers {
  import opened Basics
  import opened Types
  import opened ControlPlane
  import Compute
  import Storage
  import Tenancy
  import Fleet
  import Identity
  import NicCounters
  import CloneAccounting
  import Onboarding
  import IdentityBinding
  import Runs

  predicate Holds<V(==)>(table: map<string, V>, k: string, row: V) {
    k in table && table[k] == row
  }

  /** The network is gone, and so are its NICs, of which there were `n`. */
  predicate NetworkGone(t: Compute.Tables, id: string, n: nat, u: Compute.Tables) {
    id !in u.networks && Compute.NicsIn(u.nics, id) == {} && |u.nics| + n == |t.nics|
  }

  /** The group a command creates, updates or gives another rule. */
  predicate AboutGroup(op: ComputeOp, id: string) {
    || ((op.CreateSecurityGroup? || op.UpdateSecurityGroup?) && id == op.id)
    || ((op.CreateSecurityGroupRule? || op.DeleteSecurityGroupRule? || op.UpdateSecurityGroupRule?)
        && id == op.securityGroupId)
  }

  /** `t` are the tables before the command and `u` the tables after it. */
  predicate ComputeTrue(t: Compute.Tables, op: ComputeOp, u: Compute.Tables, r: Response) {
    match r
    case NetworkIs(n) => (op.CreateNetwork? || op.UpdateNetwork?) && n.id == op.id && Holds(u.networks, n.id, n)
    case NicIs(n) => Compute.IsNicOp(op) && !op.DeleteNic? && n.id == op.id && Holds(u.nics, n.id, n)
    case VmIs(m) => Compute.IsVmOp(op) && !op.DeleteVm? && m.id == op.id && Holds(u.vms, m.id, m)
    case SecurityGroupIs(g) => AboutGroup(op, g.id) && Holds(u.groups, g.id, g)
    case DeletedWithCount(id, n) => op.DeleteNetwork? && id == op.id && NetworkGone(t, id, n, u)
    case Deleted(id) =>
      || (op.DeleteNic? && id == op.id && id !in u.nics)
      || (op.DeleteVm? && id == op.id && id !in u.vms)
      || (op.DeleteSecurityGroup? && id == op.id && id !in u.groups)
    case Error(_) => u == t
    case _ => false
  }

  predicate StorageTrue(t: Storage.Tables, op: StorageOp, u: Storage.Tables, r: Response) {
    match r
    case VolumeIs(v) =>
      && Holds(u.volumes, v.id, v)
      && (if op.CreateSnapshot? then v.id == op.volumeId
          else (op.CreateVolume? || op.UpdateVolumeStatus? || op.ResizeVolume?) && v.id == op.id)
    case TemplateIs(m) =>
      (op.CreateTemplate? || op.UpdateTemplateStatus?) && m.id == op.id && Holds(u.templates, m.id, m)
    case Deleted(id) => op.DeleteVolume? && id == op.id && id !in u.volumes
    case Error(_) => u == t
    case _ => false
  }

  predicate TenancyTrue(t: Tenancy.Tables, op: TenancyOp, u: Tenancy.Tables, r: Response) {
    match r
    case OrgIs(o) => (op.CreateOrg? || op.UpdateOrg?) && o.slug == op.slug && Holds(u.orgs, o.slug, o)
    case ProjectIs(p) => op.CreateProject? && p.slug == op.slug && Holds(u.projects, p.slug, p)
    case Deleted(id) =>
      || (op.DeleteOrg? && id == op.slug && id !in u.orgs)
      || (op.DeleteProject? && id == op.slug && id !in u.projects)
    case Error(_) => u == t
    case _ => false
  }

  /** A token with this hash has been used by this node. */
  predicate Redeemed(tokens: map<string, OnboardingTokenData>, hash: string, node: string) {
    exists k :: k in tokens && tokens[k].tokenHashHex == hash && tokens[k].usedByNodeId == Some(node)
  }

  /** A redemption also hands out the certificate of the CA that is installed. */
  predicate FleetTrue(t: Fleet.Tables, op: FleetOp, u: Fleet.Tables, r: Response) {
    match r
    case NodeIs(n) => (op.RegisterNode? || op.UpdateNodeStatus?) && n.id == op.nodeId && Holds(u.nodes, n.id, n)
    case ClusterIs(c) =>
      && (op.CreateCluster? || op.UpdateCluster? || op.AddNodeToCluster? || op.RemoveNodeFromCluster?)
      && c.slug == op.slug && Holds(u.clusters, c.slug, c)
    case OnboardingTokenIs(k) =>
      op.CreateOnboardingToken? && k.id == op.id && k.nodeId == op.nodeId
      && Holds(u.tokens, k.id, k) && k.nodeId in u.nodes
    case BootstrapResult(n, _, ca) =>
      op.RedeemOnboardingToken? && Holds(u.nodes, n.id, n) && Redeemed(u.tokens, op.tokenHashHex, n.id)
      && u.ca.Some? && u.ca.value.caCertPem == ca
    case Deleted(id) =>
      || (op.DeregisterNode? && id == op.nodeId && id !in u.nodes)
      || (op.RevokeNodeCert? && id == op.nodeId && id !in u.nodes)
      || (op.DeleteCluster? && id == op.slug && id !in u.clusters)
      || (op.DeleteOnboardingToken? && id == op.id && id !in u.tokens)
    case Ack =>
      || (op.EnsureInternalCa? && u.ca.Some?)
      || (op.UpdateServerCert? && u.serverCert.Some? && u.serverCert.value.certPem == op.certPem)
    case Error(_) => u == t
    case _ => false
  }

  /** The account a command names, or the one that holds the identity. */
  predicate AboutAccount(op: IdentityOp, a: AccountData) {
    match op
    case CreateAccountByEmail(_, id, _, _) => a.id == id
    case EnsureAccountFromOidc(_, _, iss, sub, _, _) => Identity.IsLinkedTo(a, iss, sub)
    case CreateServiceAccount(_, id, _, _, _, _, _) => a.id == id
    case _ => false
  }

  predicate IdentityTrue(t: Identity.Tables, op: IdentityOp, u: Identity.Tables, r: Response) {
    match r
    case AccountIs(a) => AboutAccount(op, a) && Holds(u.accounts, a.id, a)
    case MembershipIs(m) =>
      (op.CreateMembership? || op.BootstrapInitialPlatformAdmin?) && m.id == op.id && Holds(u.memberships, m.id, m)
    case ApiKeyIs(k) => (op.CreateStaticApiKey? || op.RevokeStaticApiKey?) && k.id == op.id && Holds(u.keys, k.id, k)
    case Deleted(id) =>
      || (op.DeleteMembership? && id == op.id && id !in u.memberships)
      || (op.DeleteServiceAccount? && id == op.accountId && id !in u.accounts)
    case Ack => op.BootstrapInitialPlatformAdmin? && Identity.HasPlatformAdmin(u)
    case Error(_) => u == t
    case _ => false
  }

  predicate IsTrue(db: Db, op: Op, after: Db, r: Response) {
    match op
    case OnCompute(c) => ComputeTrue(db.compute, c, after.compute, r)
    case OnStorage(c) => StorageTrue(db.storage, c, after.storage, r)
    case OnTenancy(c) => TenancyTrue(db.tenancy, c, after.tenancy, r)
    case OnFleet(c) => FleetTrue(db.fleet, c, after.fleet, r)
    case OnIdentity(c) => IdentityTrue(db.identity, c, after.identity, r)
  }

  /** Revoking the certificate of a node that stays: the answer is `Deleted`, but
      only a decommission deletes the node. */
  predicate Misreports(db: Db, op: Op) {
    op.OnFleet? && op.fleet.RevokeNodeCert? && !op.fleet.reason.Decommission? && op.fleet.nodeId in db.fleet.nodes
  }

  function After<T>(t: T, out: Outcome<T>): T {
    if out.Commit? then out.tables else t
  }

  // ----------------------------------------------------------- by table group

  lemma CascadeCounts(nics: map<string, NicData>, network: string)
    ensures var doomed := Compute.NicsIn(nics, network);
      Compute.NicsIn(nics - doomed, network) == {} && |nics - doomed| + |doomed| == |nics|
  {
    var doomed := Compute.NicsIn(nics, network);
    var rest := nics - doomed;
    assert rest.Keys == nics.Keys - doomed && doomed <= nics.Keys;
    assert |rest| == |rest.Keys| && |nics| == |nics.Keys|;
  }

  lemma DeleteNetworkTrue(t: Compute.Tables, op: ComputeOp)
    requires op.DeleteNetwork?
    ensures var out := Compute.ApplyDeleteNetwork(t, op); ComputeTrue(t, op, After(t, out), out.response)
  {
    hide ScanKeys, Compute.NicDeletions, Compute.NicsIn, NetworkGone;
    var out := Compute.ApplyDeleteNetwork(t, op);
    if out.Commit? {
      CascadeGoes(t, op.id, out.tables);
    }
  }

  lemma CascadeGoes(t: Compute.Tables, id: string, u: Compute.Tables)
    requires u.nics == t.nics - Compute.NicsIn(t.nics, id) && id !in u.networks
    ensures NetworkGone(t, id, |Compute.NicsIn(t.nics, id)|, u)
  {
    hide Compute.NicsIn;
    CascadeCounts(t.nics, id);
  }

  lemma NetworkStepTrue(t: Compute.Tables, op: ComputeOp)
    requires Compute.IsNetworkOp(op) && NicCounters.WellKeyed(t)
    ensures var out := Compute.NetworkStep(t, op); ComputeTrue(t, op, After(t, out), out.response)
  {
    if op.DeleteNetwork? {
      hide ComputeTrue;
      DeleteNetworkTrue(t, op);
    }
  }

  lemma NicStepTrue(env: Env, t: Compute.Tables, op: ComputeOp)
    requires Compute.IsNicOp(op) && NicCounters.WellKeyed(t)
    ensures var out := Compute.NicStep(env, t, op); ComputeTrue(t, op, After(t, out), out.response)
  {
  }

  lemma VmStepTrue(t: Compute.Tables, op: ComputeOp, now: string)
    requires Compute.IsVmOp(op) && NicCounters.WellKeyed(t)
    ensures var out := Compute.VmStep(t, op, now); ComputeTrue(t, op, After(t, out), out.response)
  {
  }

  lemma GroupStepTrue(t: Compute.Tables, projects: set<string>, op: ComputeOp)
    requires !Compute.IsNetworkOp(op) && !Compute.IsNicOp(op) && !Compute.IsVmOp(op) && NicCounters.WellKeyed(t)
    ensures var out := Compute.GroupStep(t, projects, op); ComputeTrue(t, op, After(t, out), out.response)
  {
    hide Compute.NicsOf, Compute.WithoutRule, Compute.DescribeRule, NetworkGone;
  }

  lemma ComputeStepTrue(env: Env, t: Compute.Tables, projects: set<string>, op: ComputeOp, now: string)
    requires NicCounters.WellKeyed(t)
    ensures var out := Compute.Step(env, t, projects, op, now); ComputeTrue(t, op, After(t, out), out.response)
  {
    hide ComputeTrue, Compute.NetworkStep, Compute.NicStep, Compute.VmStep, Compute.GroupStep;
    if Compute.IsNetworkOp(op) { NetworkStepTrue(t, op); }
    else if Compute.IsNicOp(op) { NicStepTrue(env, t, op); }
    else if Compute.IsVmOp(op) { VmStepTrue(t, op, now); }
    else { GroupStepTrue(t, projects, op); }
  }

  lemma StorageStepTrue(t: Storage.Tables, projects: set<string>, op: StorageOp)
    requires CloneAccounting.WellKeyed(t)
    ensures var out := Storage.Step(t, projects, op); StorageTrue(t, op, After(t, out), out.response)
  {
  }

  lemma TenancyStepTrue(t: Tenancy.Tables, op: TenancyOp)
    requires Tenancy.Sound(t)
    ensures var out := Tenancy.Step(t, op); TenancyTrue(t, op, After(t, out), out.response)
  {
  }

  lemma RedeemTrue(env: Env, t: Fleet.Tables, op: FleetOp, leaf: SignedLeaf)
    requires op.RedeemOnboardingToken? && Onboarding.WellKeyed(t)
    ensures var out := Fleet.ApplyRedeemToken(env, t, op, leaf); FleetTrue(t, op, After(t, out), out.response)
  {
    var check := Fleet.CheckRedeem(t, op);
    if check.Redeem? {
      assert check.key in Fleet.TokensWithHash(t.tokens, op.tokenHashHex);
    }
    hide Fleet.CheckRedeem;
    var out := Fleet.ApplyRedeemToken(env, t, op, leaf);
    if out.Commit? {
      assert check.key in out.tables.tokens && out.tables.tokens[check.key].tokenHashHex == op.tokenHashHex;
    }
  }

  lemma TokenStepTrueIff(env: Env, t: Fleet.Tables, op: FleetOp, leaf: SignedLeaf)
    requires Fleet.IsTokenOp(op) && Onboarding.WellKeyed(t)
    ensures var out := Fleet.TokenStep(env, t, op, leaf);
      FleetTrue(t, op, After(t, out), out.response)
      <==> !(op.RevokeNodeCert? && !op.reason.Decommission? && op.nodeId in t.nodes)
  {
    if op.RedeemOnboardingToken? {
      hide FleetTrue;
      RedeemTrue(env, t, op, leaf);
    } else {
      hide Fleet.ApplyRedeemToken, Fleet.StripAll, Fleet.UnusedFor;
    }
  }

  lemma RegistryStepTrue(t: Fleet.Tables, orgs: set<string>, op: FleetOp)
    requires !Fleet.IsTokenOp(op) && Onboarding.WellKeyed(t)
    ensures var out := Fleet.RegistryStep(t, orgs, op); FleetTrue(t, op, After(t, out), out.response)
  {
  }

  lemma FleetStepTrueIff(env: Env, t: Fleet.Tables, orgs: set<string>, op: FleetOp, leaf: SignedLeaf)
    requires Onboarding.WellKeyed(t)
    ensures var out := Fleet.Step(env, t, orgs, op, leaf);
      FleetTrue(t, op, After(t, out), out.response)
      <==> !(op.RevokeNodeCert? && !op.reason.Decommission? && op.nodeId in t.nodes)
  {
    hide Fleet.TokenStep, Fleet.RegistryStep, FleetTrue;
    if Fleet.IsTokenOp(op) { TokenStepTrueIff(env, t, op, leaf); } else { RegistryStepTrue(t, orgs, op); }
  }

  lemma LoginTrue(env: Env, t: Identity.Tables, op: IdentityOp)
    requires op.EnsureAccountFromOidc? && IdentityBinding.WellKeyed(t)
    ensures var out := Identity.ApplyLogin(env, t, op); IdentityTrue(t, op, After(t, out), out.response)
  {
    hide FirstKey;
  }

  lemma IdentityStepTrue(env: Env, t: Identity.Tables, orgs: set<string>, projects: set<string>, op: IdentityOp)
    requires IdentityBinding.WellKeyed(t)
    ensures var out := Identity.Step(env, t, orgs, projects, op); IdentityTrue(t, op, After(t, out), out.response)
  {
    if op.EnsureAccountFromOidc? {
      hide IdentityTrue;
      LoginTrue(env, t, op);
    } else {
      hide Identity.ApplyLogin, Identity.KeysOf, Identity.MembershipsOf;
    }
  }

  // ------------------------------------------------------------- whole runs

  lemma HandleTrueIff(env: Env, db: Db, op: Op, oracle: Oracle, leaks: map<string, nat>)
    requires Runs.Sound(db, leaks)
    ensures match Handle(env, db, op, oracle)
      case Commit(after, r, _) => IsTrue(db, op, after, r) <==> !Misreports(db, op)
      case Early(r) => IsTrue(db, op, db, r) && !Misreports(db, op)
  {
    hide Compute.Step, Storage.Step, Fleet.Step, Tenancy.Step, Identity.Step, Tenancy.Sound;
    hide ComputeTrue, StorageTrue, TenancyTrue, FleetTrue, IdentityTrue;
    hide NicCounters.WellKeyed, CloneAccounting.WellKeyed, Onboarding.WellKeyed, IdentityBinding.WellKeyed;
    var projects, orgs := db.tenancy.projects.Keys, db.tenancy.orgs.Keys;
    match op
    case OnCompute(c) => ComputeStepTrue(env, db.compute, projects, c, oracle.now);
    case OnStorage(c) => StorageStepTrue(db.storage, projects, c);
    case OnTenancy(c) => TenancyStepTrue(db.tenancy, c);
    case OnFleet(c) =>
      FleetStepTrueIff(env, db.fleet, orgs, c, oracle.leaf);
      RevocationCommits(env, db.fleet, orgs, c, oracle.leaf);
    case OnIdentity(c) => IdentityStepTrue(env, db.identity, orgs, projects, c);
  }

  lemma RevocationCommits(env: Env, t: Fleet.Tables, orgs: set<string>, op: FleetOp, leaf: SignedLeaf)
    ensures op.RevokeNodeCert? && op.nodeId in t.nodes ==> Fleet.Step(env, t, orgs, op, leaf).Commit?
  {
  }

  /** After every run, the answer to a command that is not answered from the cache
      is true of the tables before and after it, if and only if the command does
      not revoke the certificate of an existing node for another reason than
      decommission. */
  lemma AnswersAreTrueIff(env: Env, q: seq<Input>, i: Input)
    requires Executes(Run(env, q), i)
    ensures var s := Run(env, q);
      var a := Apply(env, s, i);
      IsTrue(s.db, i.cmd.op, a.state.db, a.response) <==> !Misreports(s.db, i.cmd.op)
  {
    hide Handle, Runs.Sound, IsTrue, Misreports, Run, Put;
    Runs.RunsAreSound(env, q);
    HandleTrueIff(env, Run(env, q).db, i.cmd.op, i.oracle, Runs.Leaks(env, q));
  }
}
