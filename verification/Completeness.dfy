/** The registers and the counters are all there is: databases that agree on every
    register, and that runs have left with the same leaks, are equal. */
module Completeness {
  import opened Basics
  import opened Types
  import opened ControlPlane
  import opened LastWriter
  import Compute
  import Storage
  import Tenancy
  import Fleet
  import Identity
  import NicCounters
  import CloneAccounting
  import Onboarding
  import IdentityBinding
  import Histories
  import Refusals
  import Runs
  import C = ComputeRegisters
  import S = StorageRegisters
  import T = TenancyRegisters
  import F = FleetRegisters
  import I = IdentityRegisters

  // ------------------------------------------------------------ ids of rules

  ghost predicate RulesDistinct(t: Compute.Tables) {
    forall k :: k in t.groups ==> Distinct(C.RuleIds(t.groups[k].rules))
  }

  lemma AppendDistinct(q: seq<string>, x: string)
    requires Distinct(q) && x !in q
    ensures Distinct(q + [x])
  {
  }

  /** A rule is appended only under an id that the group lacks. */
  lemma NewRuleId(env: Env, t: Compute.Tables, projects: set<string>, op: ComputeOp, now: string)
    requires op.CreateSecurityGroupRule? && Compute.Step(env, t, projects, op, now).Commit?
    ensures op.securityGroupId in t.groups && op.id !in C.RuleIds(t.groups[op.securityGroupId].rules)
  {
    hide Compute.Step;
    Refusals.ComputeMeets(env, t, projects, op, now);
  }

  lemma StepKeepsRulesDistinct(env: Env, t: Compute.Tables, projects: set<string>, op: ComputeOp, now: string)
    requires RulesDistinct(t)
    ensures var out := Compute.Step(env, t, projects, op, now); out.Commit? ==> RulesDistinct(out.tables)
  {
    hide Compute.Step, Distinct, C.RuleIds;
    var out := Compute.Step(env, t, projects, op, now);
    if out.Commit? {
      NothingRepeats();
      if op.CreateSecurityGroupRule? {
        NewRuleId(env, t, projects, op, now);
        AppendDistinct(C.RuleIds(t.groups[op.securityGroupId].rules), op.id);
      }
      forall k | k in out.tables.groups ensures Distinct(C.RuleIds(out.tables.groups[k].rules)) {
        C.StepWrites(env, t, projects, op, now, C.OfGroup(k, C.GroupRules));
      }
    }
  }

  lemma NothingRepeats()
    ensures Distinct([])
  {
  }

  lemma HandleRules(env: Env, db: Db, op: Op, oracle: Oracle)
    requires RulesDistinct(db.compute)
    ensures match Handle(env, db, op, oracle)
      case Commit(after, _, _) => RulesDistinct(after.compute)
      case Early(_) => true
  {
    hide Compute.Step, Storage.Step, Fleet.Step, Tenancy.Step, Identity.Step, RulesDistinct;
    if op.OnCompute? {
      StepKeepsRulesDistinct(env, db.compute, db.tenancy.projects.Keys, op.compute, oracle.now);
    }
  }

  /** After every run the rules of a security group have distinct ids. */
  lemma RulesStayDistinct(env: Env, q: seq<Input>)
    ensures RulesDistinct(Run(env, q).db.compute)
  {
    hide Handle, Avoids, RunFrom;
    var inv := (db: Db) => RulesDistinct(db.compute);
    assert inv(Init.db);
    hide RulesDistinct;
    forall db, op, oracle ensures Histories.Keeps(env, inv, Histories.NeverBad, db, op, oracle) {
      if inv(db) { HandleRules(env, db, op, oracle); }
    }
    Histories.NothingToAvoid(env, Init, q);
    Histories.Survives(env, Init, q, inv, Histories.NeverBad);
  }

  // -------------------------------------------------------- row by row

  ghost predicate SameCompute(a: Compute.Tables, b: Compute.Tables) {
    forall r :: C.Read(a, r) == C.Read(b, r)
  }

  lemma SameNetwork(a: Compute.Tables, b: Compute.Tables, k: string)
    requires SameCompute(a, b) && NicCounters.WellKeyed(a) && NicCounters.WellKeyed(b)
    ensures k in a.networks <==> k in b.networks
    ensures k in a.networks ==> a.networks[k] == b.networks[k].(nicCount := a.networks[k].nicCount)
  {
    assert C.Read(a, C.OfNetwork(k, C.NetworkBirth)) == C.Read(b, C.OfNetwork(k, C.NetworkBirth));
    assert C.Read(a, C.OfNetwork(k, C.NetworkServers)) == C.Read(b, C.OfNetwork(k, C.NetworkServers));
    assert C.Read(a, C.OfNetwork(k, C.NetworkTouched)) == C.Read(b, C.OfNetwork(k, C.NetworkTouched));
  }

  lemma SameNic(a: Compute.Tables, b: Compute.Tables, k: string)
    requires SameCompute(a, b) && NicCounters.WellKeyed(a) && NicCounters.WellKeyed(b)
    ensures k in a.nics <==> k in b.nics
    ensures k in a.nics ==> a.nics[k] == b.nics[k]
  {
    assert C.Read(a, C.OfNic(k, C.NicBirth)) == C.Read(b, C.OfNic(k, C.NicBirth));
    assert C.Read(a, C.OfNic(k, C.NicRoutes)) == C.Read(b, C.OfNic(k, C.NicRoutes));
    assert C.Read(a, C.OfNic(k, C.NicLink)) == C.Read(b, C.OfNic(k, C.NicLink));
    assert C.Read(a, C.OfNic(k, C.NicState)) == C.Read(b, C.OfNic(k, C.NicState));
    assert C.Read(a, C.OfNic(k, C.NicSocket)) == C.Read(b, C.OfNic(k, C.NicSocket));
    assert C.Read(a, C.OfNic(k, C.NicTouched)) == C.Read(b, C.OfNic(k, C.NicTouched));
  }

  lemma SameVm(a: Compute.Tables, b: Compute.Tables, k: string)
    requires SameCompute(a, b) && NicCounters.WellKeyed(a) && NicCounters.WellKeyed(b)
    ensures k in a.vms <==> k in b.vms
    ensures k in a.vms ==> a.vms[k] == b.vms[k]
  {
    assert C.Read(a, C.OfVm(k, C.VmBirth)) == C.Read(b, C.OfVm(k, C.VmBirth));
    assert C.Read(a, C.OfVm(k, C.VmDesired)) == C.Read(b, C.OfVm(k, C.VmDesired));
    assert C.Read(a, C.OfVm(k, C.VmState)) == C.Read(b, C.OfVm(k, C.VmState));
    assert C.Read(a, C.OfVm(k, C.VmTouched)) == C.Read(b, C.OfVm(k, C.VmTouched));
  }

  lemma {:induction false} FirstOfDistinct(rules: seq<SecurityGroupRuleData>, i: nat)
    requires Distinct(C.RuleIds(rules)) && i < |rules|
    ensures C.FirstRule(rules, rules[i].id) == Some(rules[i])
  {
    if i > 0 {
      assert C.RuleIds(rules)[0] != C.RuleIds(rules)[i];
      forall x, y | 0 <= x < y < |rules[1..]| ensures C.RuleIds(rules[1..])[x] != C.RuleIds(rules[1..])[y] {
        assert C.RuleIds(rules)[x + 1] != C.RuleIds(rules)[y + 1];
      }
      FirstOfDistinct(rules[1..], i - 1);
    }
  }

  lemma SameRules(p: seq<SecurityGroupRuleData>, q: seq<SecurityGroupRuleData>)
    requires Distinct(C.RuleIds(p)) && C.RuleIds(p) == C.RuleIds(q)
    requires forall id, part :: C.ReadRule(p, id, part) == C.ReadRule(q, id, part)
    ensures p == q
  {
    assert |p| == |C.RuleIds(p)| == |q|;
    forall i | 0 <= i < |p| ensures p[i] == q[i] {
      assert p[i].id == C.RuleIds(p)[i] == C.RuleIds(q)[i] == q[i].id;
      FirstOfDistinct(p, i);
      FirstOfDistinct(q, i);
      assert C.ReadRule(p, p[i].id, C.RuleBirth) == C.ReadRule(q, p[i].id, C.RuleBirth);
      assert C.ReadRule(p, p[i].id, C.RuleDescription) == C.ReadRule(q, p[i].id, C.RuleDescription);
    }
  }

  lemma SameGroup(a: Compute.Tables, b: Compute.Tables, k: string)
    requires SameCompute(a, b) && NicCounters.WellKeyed(a) && NicCounters.WellKeyed(b) && RulesDistinct(a)
    ensures k in a.groups <==> k in b.groups
    ensures k in a.groups ==> a.groups[k] == b.groups[k].(nicCount := a.groups[k].nicCount)
  {
    hide C.ReadRule, C.RuleIds, Distinct;
    assert C.Read(a, C.OfGroup(k, C.GroupBirth)) == C.Read(b, C.OfGroup(k, C.GroupBirth));
    assert C.Read(a, C.OfGroup(k, C.GroupName)) == C.Read(b, C.OfGroup(k, C.GroupName));
    assert C.Read(a, C.OfGroup(k, C.GroupDescription)) == C.Read(b, C.OfGroup(k, C.GroupDescription));
    assert C.Read(a, C.OfGroup(k, C.GroupRules)) == C.Read(b, C.OfGroup(k, C.GroupRules));
    assert C.Read(a, C.OfGroup(k, C.GroupTouched)) == C.Read(b, C.OfGroup(k, C.GroupTouched));
    if k in a.groups {
      forall id, part ensures C.ReadRule(a.groups[k].rules, id, part) == C.ReadRule(b.groups[k].rules, id, part) {
        assert C.Read(a, C.OfRule(k, id, part)) == C.Read(b, C.OfRule(k, id, part));
      }
      SameRules(a.groups[k].rules, b.groups[k].rules);
    }
  }

  lemma ComputeEqual(a: Compute.Tables, b: Compute.Tables, leaks: map<string, nat>)
    requires SameCompute(a, b) && RulesDistinct(a)
    requires NicCounters.Sound(a, leaks) && NicCounters.Sound(b, leaks)
    ensures a == b
  {
    hide SameCompute, RulesDistinct, NicCounters.WellKeyed, NicCounters.NoDanglingNic;
    forall k ensures (k in a.nics <==> k in b.nics) && (k in a.nics ==> a.nics[k] == b.nics[k]) { SameNic(a, b, k); }
    forall k ensures (k in a.vms <==> k in b.vms) && (k in a.vms ==> a.vms[k] == b.vms[k]) { SameVm(a, b, k); }
    assert a.nics == b.nics && a.vms == b.vms;
    forall k ensures (k in a.networks <==> k in b.networks) && (k in a.networks ==> a.networks[k] == b.networks[k]) {
      SameNetwork(a, b, k);
    }
    forall k ensures (k in a.groups <==> k in b.groups) && (k in a.groups ==> a.groups[k] == b.groups[k]) {
      SameGroup(a, b, k);
    }
    assert a.networks == b.networks && a.groups == b.groups;
  }

  lemma StorageEqual(a: Storage.Tables, b: Storage.Tables)
    requires CloneAccounting.Sound(a) && CloneAccounting.Sound(b) && forall r :: S.Read(a, r) == S.Read(b, r)
    ensures a == b
  {
    forall k ensures (k in a.volumes <==> k in b.volumes) && (k in a.volumes ==> a.volumes[k] == b.volumes[k]) {
      assert S.Read(a, S.OfVolume(k, S.VolumeBirth)) == S.Read(b, S.OfVolume(k, S.VolumeBirth));
      assert S.Read(a, S.OfVolume(k, S.VolumeSize)) == S.Read(b, S.OfVolume(k, S.VolumeSize));
      assert S.Read(a, S.OfVolume(k, S.VolumeState)) == S.Read(b, S.OfVolume(k, S.VolumeState));
      assert S.Read(a, S.OfVolume(k, S.VolumePath)) == S.Read(b, S.OfVolume(k, S.VolumePath));
      assert S.Read(a, S.OfVolume(k, S.VolumeSnapshots)) == S.Read(b, S.OfVolume(k, S.VolumeSnapshots));
      assert S.Read(a, S.OfVolume(k, S.VolumeTouched)) == S.Read(b, S.OfVolume(k, S.VolumeTouched));
    }
    assert a.volumes == b.volumes;
    forall k
      ensures k in a.templates <==> k in b.templates
      ensures k in a.templates ==> a.templates[k] == b.templates[k]
    {
      assert S.Read(a, S.OfTemplate(k, S.TemplateBirth)) == S.Read(b, S.OfTemplate(k, S.TemplateBirth));
      assert S.Read(a, S.OfTemplate(k, S.TemplateState)) == S.Read(b, S.OfTemplate(k, S.TemplateState));
      assert S.Read(a, S.OfTemplate(k, S.TemplateTouched)) == S.Read(b, S.OfTemplate(k, S.TemplateTouched));
    }
    assert a.templates == b.templates;
  }

  lemma TenancyEqual(a: Tenancy.Tables, b: Tenancy.Tables)
    requires Tenancy.Sound(a) && Tenancy.Sound(b) && forall r :: T.Read(a, r) == T.Read(b, r)
    ensures a == b
  {
    forall k ensures (k in a.orgs <==> k in b.orgs) && (k in a.orgs ==> a.orgs[k] == b.orgs[k]) {
      assert T.Read(a, T.OfOrg(k, T.OrgBirth)) == T.Read(b, T.OfOrg(k, T.OrgBirth));
      assert T.Read(a, T.OfOrg(k, T.OrgName)) == T.Read(b, T.OfOrg(k, T.OrgName));
      assert T.Read(a, T.OfOrg(k, T.OrgContacts)) == T.Read(b, T.OfOrg(k, T.OrgContacts));
      assert T.Read(a, T.OfOrg(k, T.OrgTouched)) == T.Read(b, T.OfOrg(k, T.OrgTouched));
    }
    forall k ensures (k in a.projects <==> k in b.projects) && (k in a.projects ==> a.projects[k] == b.projects[k]) {
      assert T.Read(a, T.OfProject(k)) == T.Read(b, T.OfProject(k));
    }
    assert a.orgs == b.orgs && a.projects == b.projects;
  }

  lemma SameNode(a: Fleet.Tables, b: Fleet.Tables, k: string)
    requires Onboarding.WellKeyed(a) && Onboarding.WellKeyed(b) && forall r :: F.Read(a, r) == F.Read(b, r)
    ensures (k in a.nodes <==> k in b.nodes) && (k in a.nodes ==> a.nodes[k] == b.nodes[k])
  {
    assert F.Read(a, F.OfNode(k, F.NodeBirth)) == F.Read(b, F.OfNode(k, F.NodeBirth));
    assert F.Read(a, F.OfNode(k, F.NodeHealth)) == F.Read(b, F.OfNode(k, F.NodeHealth));
    assert F.Read(a, F.OfNode(k, F.NodeCapacity)) == F.Read(b, F.OfNode(k, F.NodeCapacity));
    assert F.Read(a, F.OfNode(k, F.NodeHeartbeat)) == F.Read(b, F.OfNode(k, F.NodeHeartbeat));
    assert F.Read(a, F.OfNode(k, F.NodeCert)) == F.Read(b, F.OfNode(k, F.NodeCert));
    assert F.Read(a, F.OfNode(k, F.NodeAgent)) == F.Read(b, F.OfNode(k, F.NodeAgent));
    assert F.Read(a, F.OfNode(k, F.NodeTouched)) == F.Read(b, F.OfNode(k, F.NodeTouched));
  }

  lemma SameCluster(a: Fleet.Tables, b: Fleet.Tables, k: string)
    requires Onboarding.WellKeyed(a) && Onboarding.WellKeyed(b) && forall r :: F.Read(a, r) == F.Read(b, r)
    ensures (k in a.clusters <==> k in b.clusters) && (k in a.clusters ==> a.clusters[k] == b.clusters[k])
  {
    assert F.Read(a, F.OfCluster(k, F.ClusterBirth)) == F.Read(b, F.OfCluster(k, F.ClusterBirth));
    assert F.Read(a, F.OfCluster(k, F.ClusterName)) == F.Read(b, F.OfCluster(k, F.ClusterName));
    assert F.Read(a, F.OfCluster(k, F.ClusterDescription)) == F.Read(b, F.OfCluster(k, F.ClusterDescription));
    assert F.Read(a, F.OfCluster(k, F.ClusterLocation)) == F.Read(b, F.OfCluster(k, F.ClusterLocation));
    assert F.Read(a, F.OfCluster(k, F.ClusterRoster)) == F.Read(b, F.OfCluster(k, F.ClusterRoster));
    assert F.Read(a, F.OfCluster(k, F.ClusterTouched)) == F.Read(b, F.OfCluster(k, F.ClusterTouched));
  }

  lemma SameToken(a: Fleet.Tables, b: Fleet.Tables, k: string)
    requires Onboarding.WellKeyed(a) && Onboarding.WellKeyed(b) && forall r :: F.Read(a, r) == F.Read(b, r)
    ensures (k in a.tokens <==> k in b.tokens) && (k in a.tokens ==> a.tokens[k] == b.tokens[k])
    ensures (k in a.revoked <==> k in b.revoked) && (k in a.revoked ==> a.revoked[k] == b.revoked[k])
  {
    assert F.Read(a, F.OfToken(k, F.TokenBirth)) == F.Read(b, F.OfToken(k, F.TokenBirth));
    assert F.Read(a, F.OfToken(k, F.TokenUse)) == F.Read(b, F.OfToken(k, F.TokenUse));
    assert F.Read(a, F.OfSerial(k)) == F.Read(b, F.OfSerial(k));
  }

  lemma SamePki(a: Fleet.Tables, b: Fleet.Tables)
    requires forall r :: F.Read(a, r) == F.Read(b, r)
    ensures a.ca == b.ca && a.serverCert == b.serverCert
  {
    assert F.Read(a, F.OfCa) == F.Read(b, F.OfCa);
    assert F.Read(a, F.OfServerCert) == F.Read(b, F.OfServerCert);
  }

  lemma FleetEqual(a: Fleet.Tables, b: Fleet.Tables)
    requires Onboarding.WellKeyed(a) && Onboarding.WellKeyed(b) && forall r :: F.Read(a, r) == F.Read(b, r)
    ensures a == b
  {
    hide F.Read, Onboarding.WellKeyed;
    forall k ensures (k in a.nodes <==> k in b.nodes) && (k in a.nodes ==> a.nodes[k] == b.nodes[k]) {
      SameNode(a, b, k);
    }
    forall k ensures (k in a.clusters <==> k in b.clusters) && (k in a.clusters ==> a.clusters[k] == b.clusters[k]) {
      SameCluster(a, b, k);
    }
    forall k
      ensures (k in a.tokens <==> k in b.tokens) && (k in a.tokens ==> a.tokens[k] == b.tokens[k])
      ensures (k in a.revoked <==> k in b.revoked) && (k in a.revoked ==> a.revoked[k] == b.revoked[k])
    {
      SameToken(a, b, k);
    }
    SamePki(a, b);
    assert a.nodes == b.nodes && a.clusters == b.clusters && a.tokens == b.tokens && a.revoked == b.revoked;
  }

  lemma IdentityEqual(a: Identity.Tables, b: Identity.Tables)
    requires IdentityBinding.WellKeyed(a) && IdentityBinding.WellKeyed(b) && forall r :: I.Read(a, r) == I.Read(b, r)
    ensures a == b
  {
    forall k ensures (k in a.accounts <==> k in b.accounts) && (k in a.accounts ==> a.accounts[k] == b.accounts[k]) {
      assert I.Read(a, I.OfAccount(k, I.AccountBirth)) == I.Read(b, I.OfAccount(k, I.AccountBirth));
      assert I.Read(a, I.OfAccount(k, I.AccountOidc)) == I.Read(b, I.OfAccount(k, I.AccountOidc));
      assert I.Read(a, I.OfAccount(k, I.AccountEmail)) == I.Read(b, I.OfAccount(k, I.AccountEmail));
      assert I.Read(a, I.OfAccount(k, I.AccountName)) == I.Read(b, I.OfAccount(k, I.AccountName));
      assert I.Read(a, I.OfAccount(k, I.AccountTouched)) == I.Read(b, I.OfAccount(k, I.AccountTouched));
    }
    forall k
      ensures (k in a.memberships <==> k in b.memberships)
      ensures k in a.memberships ==> a.memberships[k] == b.memberships[k]
    {
      assert I.Read(a, I.OfMembership(k)) == I.Read(b, I.OfMembership(k));
    }
    forall k ensures (k in a.keys <==> k in b.keys) && (k in a.keys ==> a.keys[k] == b.keys[k]) {
      assert I.Read(a, I.OfKey(k, I.KeyBirth)) == I.Read(b, I.OfKey(k, I.KeyBirth));
      assert I.Read(a, I.OfKey(k, I.KeyRevocation)) == I.Read(b, I.OfKey(k, I.KeyRevocation));
    }
    assert a.accounts == b.accounts && a.memberships == b.memberships && a.keys == b.keys;
  }

  // ------------------------------------------------------------ the database

  ghost predicate SameRegisters(a: Db, b: Db) {
    forall r :: Read(a, r) == Read(b, r)
  }

  lemma SameParts(a: Db, b: Db)
    requires SameRegisters(a, b)
    ensures SameCompute(a.compute, b.compute)
    ensures forall r :: S.Read(a.storage, r) == S.Read(b.storage, r)
    ensures forall r :: T.Read(a.tenancy, r) == T.Read(b.tenancy, r)
    ensures forall r :: F.Read(a.fleet, r) == F.Read(b.fleet, r)
    ensures forall r :: I.Read(a.identity, r) == I.Read(b.identity, r)
  {
    hide C.Read, S.Read, T.Read, F.Read, I.Read;
    forall r ensures C.Read(a.compute, r) == C.Read(b.compute, r) {
      assert Read(a, InCompute(r)) == Read(b, InCompute(r));
    }
    forall r ensures S.Read(a.storage, r) == S.Read(b.storage, r) {
      assert Read(a, InStorage(r)) == Read(b, InStorage(r));
    }
    forall r ensures T.Read(a.tenancy, r) == T.Read(b.tenancy, r) {
      assert Read(a, InTenancy(r)) == Read(b, InTenancy(r));
    }
    forall r ensures F.Read(a.fleet, r) == F.Read(b.fleet, r) {
      assert Read(a, InFleet(r)) == Read(b, InFleet(r));
    }
    forall r ensures I.Read(a.identity, r) == I.Read(b.identity, r) {
      assert Read(a, InIdentity(r)) == Read(b, InIdentity(r));
    }
  }

  /** Two runs that leave every register alike, and leak alike, end in the same
      database: it is made of last writes and counts. */
  lemma RegistersDetermine(env: Env, p: seq<Input>, q: seq<Input>)
    requires SameRegisters(Run(env, p).db, Run(env, q).db) && Runs.Leaks(env, p) == Runs.Leaks(env, q)
    ensures Run(env, p).db == Run(env, q).db
  {
    hide Run, Runs.Leaks, SameRegisters, SameCompute, RulesDistinct;
    var a, b := Run(env, p).db, Run(env, q).db;
    Runs.RunsAreSound(env, p);
    Runs.RunsAreSound(env, q);
    RulesStayDistinct(env, p);
    SameParts(a, b);
    hide C.Read, S.Read, T.Read, F.Read, I.Read, NicCounters.Sound, CloneAccounting.Sound, Tenancy.Sound;
    hide Onboarding.WellKeyed, Onboarding.RostersDistinct;
    ComputeEqual(a.compute, b.compute, Runs.Leaks(env, p));
    StorageEqual(a.storage, b.storage);
    TenancyEqual(a.tenancy, b.tenancy);
    FleetEqual(a.fleet, b.fleet);
    IdentityEqual(a.identity, b.identity);
  }
}
