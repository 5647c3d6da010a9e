/** For each property that the handlers do not keep unconditionally: a state that
    a list of commands leads to from the empty database, and a command that breaks
    the property there. Each sits beside the if-and-only-if that says when the
    handlers do keep it. */
module Counterexamples {
  import opened Basics
  import opened Types
  import opened Reachability
  import Compute
  import Tenancy
  import Fleet
  import Identity
  import NicCounters
  import BackLinks
  import Onboarding
  import IdentityBinding
  import ControlPlane
  import Answers
  import Determinism
  import Snapshot
  import Routing
  import RoutingProtocol
  import LogStore
  import Grants
  import NodeView
  import References
  import ReplayWindow
  import Revocation

  // ---------------------------------------------------------------- tenancy

  const NoContact := OrgContact(None, None, None, None, None, None, None, None)
  const Orgs := map["org" := OrgData("org", "org", NoContact, "t0", "t0")]
  const WithOrg := ControlPlane.EmptyDb.(tenancy := Tenancy.Tables(Orgs, map[]))
  const WithProject :=
    ControlPlane.EmptyDb.(tenancy := Tenancy.Tables(Orgs, map["p" := ProjectData("p", "org", "p", None, "t0", "t0")]))

  lemma OrgIsReachable(env: Env)
    ensures Reachable(env, WithOrg)
  {
    hide Reachable;
    EmptyIsReachable(env);
    ReachTenancy(env, ControlPlane.EmptyDb, CreateOrg("t0", "org", "org", NoContact), WithOrg.tenancy);
  }

  lemma ProjectIsReachable(env: Env)
    ensures Reachable(env, WithProject)
  {
    hide Reachable;
    OrgIsReachable(env);
    ReachTenancy(env, WithOrg, CreateProject("t0", "org", "p", "p", None), WithProject.tenancy);
  }

  // ---------------------------------------------------------------- compute

  const Mac := "52:54:00:00:00:01"

  function SomeNetwork(count: nat): NetworkData {
    NetworkData("net", "p", "net", true, None, false, None, [], [], false, count, "t0", "t0")
  }

  function SomeNic(id: string, group: Option<string>, vm: Option<string>): NicData {
    NicData(id, NicSpec("p", None, "net", Mac, None, None, [], [], group, vm),
            NicStatus(NicPending, "", None), "t0", "t0")
  }

  function SomeVmSpec(nic: string): VmSpec {
    VmSpec("vm", "p", None, 1, 512, "vol", nic, "img", None, WantRunning)
  }

  function SomeVm(nic: string): VmData {
    VmData("vm", SomeVmSpec(nic), VmStatus(VmPending, None, None, None), "t0", "t0")
  }

  function SomeGroup(id: string, name: string, count: nat): SecurityGroupData {
    SecurityGroupData(id, "p", name, None, [], count, "t0", "t0")
  }

  function MakeNic(id: string, group: Option<string>): ComputeOp {
    CreateNic(id, "t0", "p", "net", None, Some(Mac), None, None, [], [], group)
  }

  function WithCompute(t: Compute.Tables): ControlPlane.Db {
    WithProject.(compute := t)
  }

  lemma ComputeReaches(env: Env, t: Compute.Tables, op: ComputeOp, u: Compute.Tables)
    requires Reachable(env, WithCompute(t))
    requires var out := Compute.Step(env, t, {"p"}, op, ""); out.Commit? && out.tables == u
    ensures Reachable(env, WithCompute(u))
  {
    hide Reachable, Compute.Step;
    assert WithProject.tenancy.projects.Keys == {"p"};
    ReachCompute(env, WithCompute(t), op, u);
  }

  const OneNetwork := Compute.Tables(map["net" := SomeNetwork(0)], map[], map[], map[])

  lemma NetworkIsReachable(env: Env)
    ensures Reachable(env, WithCompute(OneNetwork))
  {
    hide Reachable;
    ProjectIsReachable(env);
    assert WithCompute(Compute.Empty) == WithProject;
    var op := CreateNetwork("net", "t0", "p", "net", true, None, false, None, [], [], false);
    ComputeReaches(env, Compute.Empty, op, OneNetwork);
  }

  const GuardedNic :=
    Compute.Tables(map["net" := SomeNetwork(1)], map["nic" := SomeNic("nic", Some("sg"), None)],
                   map[], map["sg" := SomeGroup("sg", "web", 1)])

  lemma GuardedNicIsReachable(env: Env)
    ensures Reachable(env, WithCompute(GuardedNic))
  {
    hide Reachable;
    NetworkIsReachable(env);
    var t := OneNetwork.(groups := map["sg" := SomeGroup("sg", "web", 0)]);
    ComputeReaches(env, OneNetwork, CreateSecurityGroup("sg", "t0", "p", "web", None), t);
    ComputeReaches(env, t, MakeNic("nic", Some("sg")), GuardedNic);
  }

  lemma GuardedNicIsCounted()
    ensures NicCounters.Exact(GuardedNic)
  {
    var t := GuardedNic;
    assert Compute.NicsIn(t.nics, "net") == {"nic"} && Compute.NicsOf(t.nics, "sg") == {"nic"};
  }

  /** A forced network delete leaves a security group counting a NIC that is gone. */
  lemma ForcedDeleteLeaks(env: Env)
    ensures Reachable(env, WithCompute(GuardedNic)) && NicCounters.Exact(GuardedNic)
    ensures var out := Compute.Step(env, GuardedNic, {"p"}, DeleteNetwork("net", true), "t1");
      && out.Commit? && !NicCounters.Exact(out.tables)
      && out.tables.nics == map[] && "sg" in out.tables.groups && out.tables.groups["sg"].nicCount == 1
  {
    GuardedNicIsReachable(env);
    GuardedNicIsCounted();
    hide NicCounters.Exact, Reachable;
    var t, op := GuardedNic, DeleteNetwork("net", true);
    assert Compute.NicsIn(t.nics, "net") == {"nic"};
    assert "nic" in Compute.NicsIn(t.nics, "net") && t.nics["nic"].spec.securityGroupId.Some?;
    assert NicCounters.LeaksReference(t, op);
    NicCounters.StepKeepsExactIff(env, t, {"p"}, op, "t1");
  }

  const VmAndSpareNic :=
    Compute.Tables(map["net" := SomeNetwork(2)],
                   map["own" := SomeNic("own", None, Some("vm")), "spare" := SomeNic("spare", None, None)],
                   map["vm" := SomeVm("own")], map[])

  lemma VmAndSpareNicIsReachable(env: Env)
    ensures Reachable(env, WithCompute(VmAndSpareNic))
  {
    hide Reachable;
    NetworkIsReachable(env);
    var t := OneNetwork.(networks := map["net" := SomeNetwork(1)], nics := map["own" := SomeNic("own", None, None)]);
    var u := t.(networks := map["net" := SomeNetwork(2)],
                nics := map["own" := SomeNic("own", None, None), "spare" := SomeNic("spare", None, None)]);
    ComputeReaches(env, OneNetwork, MakeNic("own", None), t);
    ComputeReaches(env, t, MakeNic("spare", None), u);
    ComputeReaches(env, u, CreateVm("vm", "t0", SomeVmSpec("own")), VmAndSpareNic);
  }

  /** Attaching a second NIC breaks the link, and deleting the VM then leaves
      that NIC pointing at a VM that does not exist. */
  lemma AttachStrands(env: Env)
    ensures Reachable(env, WithCompute(VmAndSpareNic)) && BackLinks.BackLinked(VmAndSpareNic)
    ensures var out := Compute.Step(env, VmAndSpareNic, {"p"}, AttachNic("spare", "t1", "vm"), "t1");
      out.Commit? && !BackLinks.BackLinked(out.tables)
      && var end := Compute.ApplyDeleteVm(out.tables, DeleteVm("vm"), "t2");
         end.Commit? && end.tables.vms == map[] && "spare" in end.tables.nics
         && end.tables.nics["spare"].spec.vmId == Some("vm")
  {
    VmAndSpareNicIsReachable(env);
    hide Reachable;
    BackLinks.StepKeepsLinksIff(env, VmAndSpareNic, {"p"}, AttachNic("spare", "t1", "vm"), "t1");
  }

  const VmOnUnnamedNic :=
    Compute.Tables(map["net" := SomeNetwork(1)], map["" := SomeNic("", None, Some("vm"))],
                   map["vm" := SomeVm("")], map[])

  lemma VmOnUnnamedNicIsReachable(env: Env)
    ensures Reachable(env, WithCompute(VmOnUnnamedNic))
  {
    hide Reachable;
    NetworkIsReachable(env);
    var t := OneNetwork.(networks := map["net" := SomeNetwork(1)], nics := map["" := SomeNic("", None, None)]);
    ComputeReaches(env, OneNetwork, MakeNic("", None), t);
    ComputeReaches(env, t, CreateVm("vm", "t0", SomeVmSpec("")), VmOnUnnamedNic);
  }

  /** A NIC whose id is empty is not released with its VM. */
  lemma EmptyNicIdStrands(env: Env)
    ensures Reachable(env, WithCompute(VmOnUnnamedNic)) && BackLinks.BackLinked(VmOnUnnamedNic)
    ensures var out := Compute.Step(env, VmOnUnnamedNic, {"p"}, DeleteVm("vm"), "t1");
      out.Commit? && !BackLinks.BackLinked(out.tables)
  {
    VmOnUnnamedNicIsReachable(env);
    hide Reachable;
    BackLinks.StepKeepsLinksIff(env, VmOnUnnamedNic, {"p"}, DeleteVm("vm"), "t1");
  }

  const TwoGroups :=
    Compute.Tables(map[], map[], map[], map["a" := SomeGroup("a", "web", 0), "b" := SomeGroup("b", "db", 0)])

  lemma TwoGroupsAreReachable(env: Env)
    ensures Reachable(env, WithCompute(TwoGroups))
  {
    hide Reachable;
    ProjectIsReachable(env);
    assert WithCompute(Compute.Empty) == WithProject;
    var t := Compute.Empty.(groups := map["a" := SomeGroup("a", "web", 0)]);
    ComputeReaches(env, Compute.Empty, CreateSecurityGroup("a", "t0", "p", "web", None), t);
    ComputeReaches(env, t, CreateSecurityGroup("b", "t0", "p", "db", None), TwoGroups);
  }

  /** A rename can give two groups of a project the same name. */
  lemma RenameCollides(env: Env)
    ensures Reachable(env, WithCompute(TwoGroups)) && BackLinks.GroupNamesUnique(TwoGroups)
    ensures var out := Compute.Step(env, TwoGroups, {"p"}, UpdateSecurityGroup("b", "t1", Some("web"), None), "t1");
      out.Commit? && !BackLinks.GroupNamesUnique(out.tables)
  {
    TwoGroupsAreReachable(env);
    hide Reachable;
    var op := UpdateSecurityGroup("b", "t1", Some("web"), None);
    assert TwoGroups.groups["a"].name == op.newName.value;
    BackLinks.StepKeepsGroupNamesIff(env, TwoGroups, {"p"}, op, "t1");
  }

  // ------------------------------------------------------------------ fleet

  function SomeCluster(slug: string, nodes: seq<string>): ClusterData {
    ClusterData(slug, "org", slug, None, None, nodes, "t0", "t0")
  }

  function WithFleet(t: Fleet.Tables): ControlPlane.Db {
    WithOrg.(fleet := t)
  }

  lemma FleetReaches(env: Env, t: Fleet.Tables, op: FleetOp, u: Fleet.Tables)
    requires Reachable(env, WithFleet(t))
    requires var out := Fleet.Step(env, t, {"org"}, op, Blank.leaf); out.Commit? && out.tables == u
    ensures Reachable(env, WithFleet(u))
  {
    hide Reachable, Fleet.Step;
    assert WithOrg.tenancy.orgs.Keys == {"org"};
    ReachFleet(env, WithFleet(t), op, u);
  }

  const SomeNode := NodeData("n", "host", "", Onboarding, NodeResources(0, 0, 0, 0, 0, 0), map[], "t0", "t0", "t0",
                             Some("east"), None, None, None, None)

  const OneCluster := Fleet.Empty.(clusters := map["east" := SomeCluster("east", [])])

  const OneRoster :=
    Fleet.Empty.(
      nodes := map["n" := SomeNode],
      clusters := map["east" := SomeCluster("east", ["n"]), "west" := SomeCluster("west", [])],
      tokens := map["tok" :=
        OnboardingTokenData("tok", "hash", "east", "n", "host", None, "t9", None, None, "adm", "t0")])

  const TwoRosters :=
    OneRoster.(clusters := map["east" := SomeCluster("east", ["n"]), "west" := SomeCluster("west", ["n"])])

  lemma OneClusterIsReachable(env: Env)
    ensures Reachable(env, WithFleet(OneCluster))
  {
    hide Reachable;
    OrgIsReachable(env);
    assert WithFleet(Fleet.Empty) == WithOrg;
    FleetReaches(env, Fleet.Empty, CreateCluster("t0", "org", "east", "east", None, None), OneCluster);
  }

  lemma OneRosterIsReachable(env: Env)
    ensures Reachable(env, WithFleet(OneRoster))
  {
    hide Reachable;
    OneClusterIsReachable(env);
    var t := OneCluster.(clusters := map["east" := SomeCluster("east", []), "west" := SomeCluster("west", [])]);
    FleetReaches(env, OneCluster, CreateCluster("t0", "org", "west", "west", None, None), t);
    assert [] + ["n"] == ["n"];
    assert Fleet.Enlist(t.clusters["east"], "n", "t0") == OneRoster.clusters["east"];
    FleetReaches(env, t, CreateOnboardingToken("t0", "tok", "hash", "east", "n", "host", None, "t9", "adm"), OneRoster);
  }

  lemma TwoRostersAreReachable(env: Env)
    ensures Reachable(env, WithFleet(TwoRosters))
  {
    hide Reachable;
    OneRosterIsReachable(env);
    assert [] + ["n"] == ["n"];
    assert Fleet.Enlist(OneRoster.clusters["west"], "n", "t0") == TwoRosters.clusters["west"];
    FleetReaches(env, OneRoster, AddNodeToCluster("t0", "west", "n"), TwoRosters);
  }

  /** Deregistering a node leaves it listed; so does withdrawing the token of a
      placeholder that a second cluster lists. */
  lemma RostersStrand(env: Env, leaf: SignedLeaf)
    ensures Reachable(env, WithFleet(TwoRosters)) && Onboarding.RostersLive(TwoRosters)
    ensures var out := Fleet.Step(env, TwoRosters, {"org"}, DeregisterNode("n"), leaf);
      out.Commit? && !Onboarding.RostersLive(out.tables)
    ensures var out := Fleet.Step(env, TwoRosters, {"org"}, DeleteOnboardingToken("east", "tok"), leaf);
      out.Commit? && !Onboarding.RostersLive(out.tables)
  {
    TwoRostersAreReachable(env);
    hide Reachable;
    assert "n" in TwoRosters.clusters["west"].nodeIds;
    Onboarding.StepKeepsRostersIff(env, TwoRosters, {"org"}, DeregisterNode("n"), leaf);
    Onboarding.StepKeepsRostersIff(env, TwoRosters, {"org"}, DeleteOnboardingToken("east", "tok"), leaf);
  }

  /** A revocation for compromise answers that the node is deleted and keeps it. */
  lemma RevocationMisreports(env: Env, leaf: SignedLeaf)
    ensures Reachable(env, WithFleet(TwoRosters))
    ensures var op := RevokeNodeCert("t1", "n", Compromise);
      var out := Fleet.Step(env, TwoRosters, {"org"}, op, leaf);
      && out.Commit? && out.response == Deleted("n") && "n" in out.tables.nodes
      && !Answers.FleetTrue(TwoRosters, op, out.tables, out.response)
  {
    TwoRostersAreReachable(env);
    hide Reachable;
    Answers.FleetStepTrueIff(env, TwoRosters, {"org"}, RevokeNodeCert("t1", "n", Compromise), leaf);
  }

  /** Deregistering the placeholder leaves a token that cannot be redeemed. */
  lemma DeregisterStrandsToken(env: Env, leaf: SignedLeaf)
    ensures Reachable(env, WithFleet(OneRoster)) && Revocation.TokensLive(OneRoster)
    ensures var out := Fleet.Step(env, OneRoster, {"org"}, DeregisterNode("n"), leaf);
      out.Commit? && !Revocation.TokensLive(out.tables)
  {
    OneRosterIsReachable(env);
    hide Reachable;
    assert "tok" in Fleet.UnusedFor(OneRoster.tokens, "n");
    Revocation.StepKeepsTokensLiveIff(env, OneRoster, {"org"}, DeregisterNode("n"), leaf);
  }

  const RevokedNode := OneRoster.(nodes := map["n" := SomeNode.(status := Revoked, updatedAt := "t1")])

  lemma RevokedNodeIsReachable(env: Env)
    ensures Reachable(env, WithFleet(RevokedNode))
  {
    hide Reachable;
    OneRosterIsReachable(env);
    FleetReaches(env, OneRoster, RevokeNodeCert("t1", "n", Compromise), RevokedNode);
  }

  /** One heartbeat puts a revoked node back online. */
  lemma HeartbeatReinstates(env: Env, leaf: SignedLeaf)
    ensures Reachable(env, WithFleet(RevokedNode)) && RevokedNode.nodes["n"].status == Revoked
    ensures var out := Fleet.Step(env, RevokedNode, {"org"}, UpdateNodeStatus("n", "t2", Online, None), leaf);
      out.Commit? && "n" in out.tables.nodes && out.tables.nodes["n"].status == Online
  {
    RevokedNodeIsReachable(env);
  }

  /** Issuing a token adds a node that no event tells of. */
  lemma IssueIsSilent(env: Env, leaf: SignedLeaf)
    ensures Reachable(env, WithFleet(OneCluster))
    ensures var op := CreateOnboardingToken("t0", "tok", "hash", "east", "n", "host", None, "t9", "adm");
      var out := Fleet.Step(env, OneCluster, {"org"}, op, leaf);
      out.Commit? && "n" in out.tables.nodes && !NodeView.Announced(OneCluster, out)
  {
    OneClusterIsReachable(env);
    hide Reachable;
    var op := CreateOnboardingToken("t0", "tok", "hash", "east", "n", "host", None, "t9", "adm");
    NodeView.TokenStepSilent(env, OneCluster, op, leaf);
  }

  /** Deleting an organization leaves its cluster without one. */
  lemma OrgDeleteOrphans(env: Env, oracle: Oracle)
    ensures Reachable(env, WithFleet(OneCluster)) && References.Resolved(WithFleet(OneCluster))
    ensures match ControlPlane.Handle(env, WithFleet(OneCluster), OnTenancy(DeleteOrg("org")), oracle)
      case Commit(after, _, _) => !References.Resolved(after)
      case Early(_) => false
  {
    OneClusterIsReachable(env);
    hide Reachable;
    var db := WithFleet(OneCluster);
    assert db.fleet.clusters["east"].orgSlug == "org";
    assert Tenancy.ProjectsOf(db.tenancy.projects, "org") == {};
    References.HandleResolvedIff(env, db, OnTenancy(DeleteOrg("org")), oracle);
  }

  /** Deleting a project leaves its security groups without one. */
  lemma ProjectDeleteOrphans(env: Env, oracle: Oracle)
    ensures Reachable(env, WithCompute(TwoGroups)) && References.Resolved(WithCompute(TwoGroups))
    ensures match ControlPlane.Handle(env, WithCompute(TwoGroups), OnTenancy(DeleteProject("p")), oracle)
      case Commit(after, _, _) => !References.Resolved(after)
      case Early(_) => false
  {
    TwoGroupsAreReachable(env);
    hide Reachable;
    var db := WithCompute(TwoGroups);
    assert db.compute.groups["a"].projectSlug == "p";
    References.HandleResolvedIff(env, db, OnTenancy(DeleteProject("p")), oracle);
  }

  // --------------------------------------------------------------- identity

  function WithIdentity(t: Identity.Tables): ControlPlane.Db {
    WithProject.(identity := t)
  }

  lemma IdentityReaches(env: Env, t: Identity.Tables, op: IdentityOp, u: Identity.Tables)
    requires Reachable(env, WithIdentity(t))
    requires var out := Identity.Step(env, t, {"org"}, {"p"}, op); out.Commit? && out.tables == u
    ensures Reachable(env, WithIdentity(u))
  {
    hide Reachable, Identity.Step;
    assert WithProject.tenancy.projects.Keys == {"p"} && WithProject.tenancy.orgs.Keys == {"org"};
    ReachIdentity(env, WithIdentity(t), op, u);
  }

  function SomeUser(id: string, sub: string): AccountData {
    AccountData(id, User, Some("iss"), Some(sub), None, None, None, None, "t0", "t0")
  }

  const LinkedUser := Identity.Empty.(accounts := map["a" := SomeUser("a", "sub")])

  lemma LinkedUserIsReachable(env: Env)
    ensures Reachable(env, WithIdentity(LinkedUser))
  {
    hide Reachable;
    ProjectIsReachable(env);
    assert WithIdentity(Identity.Empty) == WithProject;
    assert Identity.Holders(map[], "iss", "sub") == {} && Identity.Invited(env, map[], None) == {};
    IdentityReaches(env, Identity.Empty, EnsureAccountFromOidc("t0", "a", "iss", "sub", None, None), LinkedUser);
  }

  /** An invitation under an id already in use erases the account that has it. */
  lemma InviteOverwrites(env: Env)
    requires env.lower(env.trim("x@y")) == "x@y"
    ensures Reachable(env, WithIdentity(LinkedUser)) && IdentityBinding.Sound(LinkedUser)
    ensures var out := Identity.Step(env, LinkedUser, {"org"}, {"p"}, CreateAccountByEmail("t1", "a", "x@y", None));
      out.Commit? && !IdentityBinding.HoldsSame(LinkedUser.accounts, out.tables.accounts, "a")
  {
    LinkedUserIsReachable(env);
    hide Reachable;
    var op := CreateAccountByEmail("t1", "a", "x@y", None);
    assert IdentityBinding.NewAccount(env, LinkedUser, {"p"}, op) == Some("a");
    IdentityBinding.BindingKeptIff(env, LinkedUser, {"org"}, {"p"}, op, "a");
  }

  const OneService :=
    Identity.Tables(
      map["s" := AccountData("s", ServiceAccount, None, None, None, Some("ci"), Some("p"), None, "t0", "t0")],
      map["m" := MembershipData("m", "s", ProjectScope("p"), ProjectAdmin, "adm", "t0")],
      map[])

  const ServiceWithKey :=
    OneService.(keys := map["k" := ApiKeyData("k", "s", "hash", "mvk_", None, None, None, None, "t0", "adm")])

  lemma ServiceWithKeyIsReachable(env: Env)
    ensures Reachable(env, WithIdentity(ServiceWithKey))
  {
    hide Reachable;
    ProjectIsReachable(env);
    assert WithIdentity(Identity.Empty) == WithProject;
    IdentityReaches(env, Identity.Empty, CreateServiceAccount("t0", "s", "m", "p", "ci", None, "adm"), OneService);
    var op := CreateStaticApiKey("t0", "k", "s", "hash", "mvk_", None, None, "adm");
    IdentityReaches(env, OneService, op, ServiceWithKey);
  }

  /** A first login under the id of a service account makes its keys a user's. */
  lemma LoginDemotes(env: Env)
    ensures Reachable(env, WithIdentity(ServiceWithKey))
    ensures IdentityBinding.Sound(ServiceWithKey) && IdentityBinding.KeysOfServices(ServiceWithKey)
    ensures var out := Identity.Step(env, ServiceWithKey, {"org"}, {"p"},
                                     EnsureAccountFromOidc("t1", "s", "iss", "sub", None, None));
      out.Commit? && !IdentityBinding.KeysOfServices(out.tables)
  {
    ServiceWithKeyIsReachable(env);
    hide Reachable;
    var op := EnsureAccountFromOidc("t1", "s", "iss", "sub", None, None);
    assert Identity.Holders(ServiceWithKey.accounts, "iss", "sub") == {};
    assert Identity.Invited(env, ServiceWithKey.accounts, None) == {};
    assert "k" in ServiceWithKey.keys
           && IdentityBinding.NewAccount(env, ServiceWithKey, {"p"}, op) == Some(ServiceWithKey.keys["k"].accountId);
    IdentityBinding.KeyOwnersKeptIff(env, ServiceWithKey, {"org"}, {"p"}, op);
  }

  const TwoUsers := Identity.Empty.(accounts := map["a" := SomeUser("a", "sub"), "b" := SomeUser("b", "sub2")])

  const OneAdmin := TwoUsers.(memberships := map["m" := MembershipData("m", "a", Platform, PlatformAdmin, "a", "t0")])

  lemma TwoUsersAreReachable(env: Env)
    ensures Reachable(env, WithIdentity(TwoUsers))
  {
    hide Reachable;
    LinkedUserIsReachable(env);
    assert Identity.Holders(LinkedUser.accounts, "iss", "sub2") == {};
    assert Identity.Invited(env, LinkedUser.accounts, None) == {};
    IdentityReaches(env, LinkedUser, EnsureAccountFromOidc("t0", "b", "iss", "sub2", None, None), TwoUsers);
  }

  lemma OneAdminIsReachable(env: Env)
    ensures Reachable(env, WithIdentity(OneAdmin))
  {
    hide Reachable;
    TwoUsersAreReachable(env);
    IdentityReaches(env, TwoUsers, BootstrapInitialPlatformAdmin("t0", "m", "a"), OneAdmin);
  }

  /** An explicit grant adds a second platform admin. */
  lemma GrantAddsAdmin(env: Env)
    ensures Reachable(env, WithIdentity(OneAdmin)) && IdentityBinding.AtMostOneAdmin(OneAdmin)
    ensures var out := Identity.Step(env, OneAdmin, {"org"}, {"p"},
                                     CreateMembership("t1", "m2", "b", Platform, PlatformAdmin, "a"));
      out.Commit? && !IdentityBinding.AtMostOneAdmin(out.tables)
  {
    OneAdminIsReachable(env);
    hide Reachable;
    assert Identity.IsPlatformAdmin(OneAdmin.memberships["m"]);
    IdentityBinding.AdminsKeptIff(env, OneAdmin, {"org"}, {"p"},
                                  CreateMembership("t1", "m2", "b", Platform, PlatformAdmin, "a"));
  }

  /** A service account created under the id of the only admin's membership leaves
      the platform without an admin. */
  lemma ServiceOverwritesAdmin(env: Env)
    ensures Reachable(env, WithIdentity(OneAdmin)) && Identity.HasPlatformAdmin(OneAdmin)
    ensures var op := CreateServiceAccount("t1", "s", "m", "p", "ci", None, "a");
      var out := Identity.Step(env, OneAdmin, {"org"}, {"p"}, op);
      out.Commit? && !Identity.HasPlatformAdmin(out.tables)
  {
    OneAdminIsReachable(env);
    hide Reachable;
    assert Identity.IsPlatformAdmin(OneAdmin.memberships["m"]);
    Grants.AdminRemainsIff(env, OneAdmin, {"org"}, {"p"}, CreateServiceAccount("t1", "s", "m", "p", "ci", None, "a"));
  }

  // ------------------------------------------------- replicas and snapshots

  ghost predicate Diverges(env: Env, q: seq<ControlPlane.Input>, id: string) {
    !Determinism.Deterministic(env, ControlPlane.Run(env, q), Command(id, OnCompute(DeleteVm("vm"))))
  }

  /** After some run, two replicas with different clocks differ after a VM delete. */
  lemma ClocksDiverge(env: Env)
    ensures exists q, id :: Diverges(env, q, id)
  {
    VmAndSpareNicIsReachable(env);
    var q :| ControlPlane.Run(env, q).db == WithCompute(VmAndSpareNic);
    var s := ControlPlane.Run(env, q);
    hide ControlPlane.Run, Determinism.Deterministic;
    var id := FreshId(s.cache);
    ReplayWindow.PeekAbsent(s.cache, id);
    assert Compute.ReleasesNic(VmAndSpareNic, "vm");
    Determinism.DeterministicIff(env, s, Command(id, OnCompute(DeleteVm("vm"))));
    assert Diverges(env, q, id);
  }

  /** A snapshot does not carry clusters. */
  lemma SnapshotForgets(env: Env)
    ensures Reachable(env, WithFleet(TwoRosters))
    ensures Snapshot.Restored(Snapshot.Take(WithFleet(TwoRosters))).db != WithFleet(TwoRosters)
  {
    TwoRostersAreReachable(env);
    var s := ControlPlane.State(WithFleet(TwoRosters), []);
    assert "east" in s.db.fleet.clusters && "east" !in Fleet.Empty.clusters;
    Snapshot.RoundTripIff(s);
  }

  // ------------------------------------------------------- routing and logs

  const ThreeTables :=
    Routing.Tables(map["a" := Routing.LpmTable("a", "a", map[], map[]),
                       "b" := Routing.LpmTable("b", "b", map[], map[]),
                       "c" := Routing.LpmTable("c", "c", map[], map[])], Some("a"))

  function Create(id: string): RoutingProtocol.Step {
    RoutingProtocol.Mutate(Routing.CreateTable(id, id), "")
  }

  lemma ThreeTablesAreReachable()
    ensures RoutingProtocol.Run([Create("a"), Create("b"), Create("c")]).manager == ThreeTables
  {
    var q := [Create("a"), Create("b"), Create("c")];
    assert q[..2] == [Create("a"), Create("b")] && q[..2][..1] == [Create("a")] && q[..2][..1][..0] == [];
    assert RoutingProtocol.Run(q[..2][..1]).manager.tables == map["a" := Routing.LpmTable("a", "a", map[], map[])];
  }

  /** Deleting the default of three tables has two outcomes. */
  lemma DefaultIsAmbiguous()
    ensures RoutingProtocol.Run([Create("a"), Create("b"), Create("c")]).manager == ThreeTables
    ensures Routing.ApplyUpdate(Routing.DeleteTable("a"), ThreeTables, "b").default == Some("b")
    ensures Routing.ApplyUpdate(Routing.DeleteTable("a"), ThreeTables, "c").default == Some("c")
  {
    ThreeTablesAreReachable();
  }

  function SomeEntry(objects: seq<string>): LogStore.LogEntry {
    LogStore.LogEntry("id", 0, "m", 1, "cp", objects)
  }

  /** Reusing a key leaves an index row through which a query for an object finds
      an entry that does not name it. */
  lemma ReusedKeyMisleads()
    ensures var s := LogStore.Insert(LogStore.EmptyStore, 7, SomeEntry(["vm"]));
      var t := LogStore.Insert(s, 7, SomeEntry([]));
      && LogStore.ObjectIndexExact(s) && !LogStore.ObjectIndexExact(t)
      && LogStore.Answer(t, Some("vm"), 0, 9, 1) == [SomeEntry([])]
      && LogStore.Expected(t, Some("vm"), 0, 9, 1) == []
  {
    var s := LogStore.Insert(LogStore.EmptyStore, 7, SomeEntry(["vm"]));
    var t := LogStore.Insert(s, 7, SomeEntry([]));
    ReusedKeyIsStale();
    assert t.logs == map[7 := SomeEntry([])];
    forall o, k: nat ensures (o, k) in t.byObject <==> o == "vm" && k == 7 {
      LogStore.InsertedPairs(LogStore.EmptyStore, 7, SomeEntry(["vm"]), o, k);
      LogStore.InsertedPairs(s, 7, SomeEntry([]), o, k);
    }
    hide LogStore.Insert, LogStore.ObjectIndexExact;
    StaleAnswer(t);
  }

  lemma ReusedKeyIsStale()
    ensures var s := LogStore.Insert(LogStore.EmptyStore, 7, SomeEntry(["vm"]));
      var t := LogStore.Insert(s, 7, SomeEntry([]));
      LogStore.ObjectIndexExact(s) && !LogStore.ObjectIndexExact(t)
  {
    var s := LogStore.Insert(LogStore.EmptyStore, 7, SomeEntry(["vm"]));
    LogStore.InsertKeepsIndexIff(LogStore.EmptyStore, 7, SomeEntry(["vm"]));
    assert "vm" in s.logs[7].relatedObjectIds;
    LogStore.InsertKeepsIndexIff(s, 7, SomeEntry([]));
  }

  lemma StaleAnswer(t: LogStore.Store)
    requires t.logs == map[7 := SomeEntry([])]
    requires forall o, k: nat :: (o, k) in t.byObject <==> o == "vm" && k == 7
    ensures LogStore.Answer(t, Some("vm"), 0, 9, 1) == [SomeEntry([])]
    ensures LogStore.Expected(t, Some("vm"), 0, 9, 1) == []
  {
    var found := LogStore.Indexed(t, "vm", 0, 9);
    assert ("vm", 7) in t.byObject;
    assert found == {7};
    assert LogStore.Matching(t, Some("vm"), 0, 9) == {};
    OneRow(t, found);
  }

  lemma OneRow(t: LogStore.Store, keys: set<nat>)
    requires keys == {7} && 7 in t.logs
    ensures LogStore.Rows(t, LogStore.Ascend(keys)) == [t.logs[7]]
  {
    var q := LogStore.Ascend(keys);
    assert |q| == 1 && q[0] in q && q[0] == 7;
    assert q[..0] == [];
  }
}
