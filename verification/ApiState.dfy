/** The state object itself: one field per table and the request cache, updated
    in place. Every method is proved against the functions of the other modules,
    so their theorems are theorems about this object. */
module ApiState {
  import opened Basics
  import opened Types
  import opened ControlPlane
  import Compute
  import Storage
  import Tenancy
  import Fleet
  import Identity
  import NicCounters
  import CloneAccounting
  import Onboarding
  import IdentityBinding
  import Snapshot
  import Runs

  /** A handler did to its tables what the outcome says: committed and changed
      them, or returned early and left them alone. */
  ghost predicate Did<T>(out: Outcome<T>, before: T, after: T, done: bool, response: Response, events: seq<Event>) {
    match out
    case Commit(t, r, es) => done && after == t && response == r && events == es
    case Early(r) => !done && after == before && response == r && events == []
  }

  /** The invariants of every run, for some account of the leaked references. */
  ghost predicate IsSound(db: Db) {
    exists leaks :: Runs.Sound(db, leaks)
  }

  /** What a handler did to its own tables it did to the database. */
  lemma LiftCompute(env: Env, db: Db, t: Compute.Tables, c: ComputeOp, o: Oracle, done: bool, r: Response,
    es: seq<Event>)
    requires Did(Compute.Step(env, db.compute, db.tenancy.projects.Keys, c, o.now), db.compute, t, done, r, es)
    ensures Did(Handle(env, db, OnCompute(c), o), db, db.(compute := t), done, r, es)
  {
    hide Compute.Step;
  }

  lemma LiftStorage(env: Env, db: Db, t: Storage.Tables, c: StorageOp, o: Oracle, done: bool, r: Response,
    es: seq<Event>)
    requires Did(Storage.Step(db.storage, db.tenancy.projects.Keys, c), db.storage, t, done, r, es)
    ensures Did(Handle(env, db, OnStorage(c), o), db, db.(storage := t), done, r, es)
  {
    hide Storage.Step;
  }

  lemma LiftTenancy(env: Env, db: Db, t: Tenancy.Tables, c: TenancyOp, o: Oracle, done: bool, r: Response,
    es: seq<Event>)
    requires Did(Tenancy.Step(db.tenancy, c), db.tenancy, t, done, r, es)
    ensures Did(Handle(env, db, OnTenancy(c), o), db, db.(tenancy := t), done, r, es)
  {
    hide Tenancy.Step;
  }

  lemma LiftFleet(env: Env, db: Db, t: Fleet.Tables, c: FleetOp, o: Oracle, done: bool, r: Response,
    es: seq<Event>)
    requires Did(Fleet.Step(env, db.fleet, db.tenancy.orgs.Keys, c, o.leaf), db.fleet, t, done, r, es)
    ensures Did(Handle(env, db, OnFleet(c), o), db, db.(fleet := t), done, r, es)
  {
    hide Fleet.Step;
  }

  lemma LiftIdentity(env: Env, db: Db, t: Identity.Tables, c: IdentityOp, o: Oracle, done: bool, r: Response,
    es: seq<Event>)
    requires Did(Identity.Step(env, db.identity, db.tenancy.orgs.Keys, db.tenancy.projects.Keys, c),
                 db.identity, t, done, r, es)
    ensures Did(Handle(env, db, OnIdentity(c), o), db, db.(identity := t), done, r, es)
  {
    hide Identity.Step;
  }

  lemma AppliedBefore(env: Env, s: State, i: Input)
    requires !Executes(s, i)
    ensures Reply(s, Peek(s.cache, i.cmd.requestId).value, []) == ControlPlane.Apply(env, s, i)
  {
    hide Handle;
  }

  lemma AppliedOnce(env: Env, s: State, i: Input, after: Db, done: bool, r: Response, es: seq<Event>)
    ensures Executes(s, i) && Did(Handle(env, s.db, i.cmd.op, i.oracle), s.db, after, done, r, es) ==>
      Reply(State(after, if done then Put(s.cache, i.cmd.requestId, r) else s.cache), r, es)
      == ControlPlane.Apply(env, s, i)
  {
    hide Handle, Put;
  }

  lemma StaysSound(env: Env, db: Db, i: Input, after: Db, done: bool, r: Response, es: seq<Event>)
    ensures IsSound(db) && Did(Handle(env, db, i.cmd.op, i.oracle), db, after, done, r, es) ==> IsSound(after)
  {
    hide Handle, Runs.Sound;
    if IsSound(db) && Did(Handle(env, db, i.cmd.op, i.oracle), db, after, done, r, es) {
      var leaks :| Runs.Sound(db, leaks);
      Runs.HandleKeepsSound(env, db, i, leaks);
      assert Runs.Sound(after, leaks) || Runs.Sound(after, Runs.LeaksAfter(env, db, i, leaks));
    }
  }

  lemma RestoredIsSound(db: Db)
    requires IsSound(db)
    ensures IsSound(Snapshot.Restored(Snapshot.Take(db)).db)
  {
    hide Runs.Sound;
    var leaks :| Runs.Sound(db, leaks);
    Snapshot.RestoreKeepsSound(db, leaks);
  }

  /** Copy rows into an envelope or back, one at a time, in no particular order. */
  method Refill<V>(rows: map<string, V>) returns (table: map<string, V>)
    ensures table == rows
  {
    table := map[];
    var left := rows.Keys;
    while left != {}
      invariant left <= rows.Keys && table.Keys == rows.Keys - left
      invariant forall k :: k in table ==> table[k] == rows[k]
      decreases |left|
    {
      var k :| k in left;
      table := table[k := rows[k]];
      left := left - {k};
    }
  }

  // ---------------------------------------------------- rules of a group

  /** The index of the first rule with this id, or the number of rules. */
  method FindRule(rules: seq<SecurityGroupRuleData>, id: string) returns (at: nat)
    ensures at <= |rules| && (at < |rules| <==> Compute.HasRule(rules, id))
    ensures at < |rules| ==> rules[at].id == id
    ensures forall i :: 0 <= i < at ==> rules[i].id != id
  {
    at := 0;
    while at < |rules| && rules[at].id != id
      invariant at <= |rules| && forall i :: 0 <= i < at ==> rules[i].id != id
    {
      at := at + 1;
    }
    if at < |rules| {
      assert rules[at] in rules;
    }
  }

  /** `rules.retain(|r| r.id != id)`. */
  method RetainRules(rules: seq<SecurityGroupRuleData>, id: string) returns (left: seq<SecurityGroupRuleData>)
    ensures left == Compute.WithoutRule(rules, id)
  {
    left := [];
    for i := 0 to |rules|
      invariant left + Compute.WithoutRule(rules[i..], id) == Compute.WithoutRule(rules, id)
    {
      assert rules[i..][1..] == rules[i + 1..];
      if rules[i].id != id {
        left := left + [rules[i]];
      }
    }
    assert rules[|rules|..] == [];
  }

  lemma {:induction false} RetainedAll(rules: seq<SecurityGroupRuleData>, id: string)
    ensures |Compute.WithoutRule(rules, id)| <= |rules|
    ensures |Compute.WithoutRule(rules, id)| == |rules| <==> !Compute.HasRule(rules, id)
    decreases |rules|
  {
    if rules != [] {
      RetainedAll(rules[1..], id);
      assert rules == [rules[0]] + rules[1..];
      assert rules[0].id == id ==> rules[0] in rules;
    }
  }

  lemma {:induction false} DescribedAt(rules: seq<SecurityGroupRuleData>, id: string, d: Option<string>, at: nat)
    requires at < |rules| && rules[at].id == id && forall i :: 0 <= i < at ==> rules[i].id != id
    ensures Compute.DescribeRule(rules, id, d) == rules[at := rules[at].(description := d)]
    decreases |rules|
  {
    if at > 0 {
      assert forall i :: 0 <= i < at - 1 ==> rules[1..][i] == rules[i + 1];
      DescribedAt(rules[1..], id, d, at - 1);
    }
  }

  class ApiState {
    var networks: map<string, NetworkData>
    var nics: map<string, NicData>
    var vms: map<string, VmData>
    var groups: map<string, SecurityGroupData>
    var volumes: map<string, VolumeData>
    var templates: map<string, TemplateData>
    var orgs: map<string, OrgData>
    var projects: map<string, ProjectData>
    var nodes: map<string, NodeData>
    var clusters: map<string, ClusterData>
    var tokens: map<string, OnboardingTokenData>
    var revoked: map<string, RevokedCertData>
    var ca: Option<InternalCa>
    var serverCert: Option<ServerCertData>
    var accounts: map<string, AccountData>
    var memberships: map<string, MembershipData>
    var keys: map<string, ApiKeyData>
    var applied: Cache

    function ComputeTables(): Compute.Tables
      reads `networks, `nics, `vms, `groups
    {
      Compute.Tables(networks, nics, vms, groups)
    }

    function StorageTables(): Storage.Tables
      reads `volumes, `templates
    {
      Storage.Tables(volumes, templates)
    }

    function TenancyTables(): Tenancy.Tables
      reads `orgs, `projects
    {
      Tenancy.Tables(orgs, projects)
    }

    function FleetTables(): Fleet.Tables
      reads `nodes, `clusters, `tokens, `revoked, `ca, `serverCert
    {
      Fleet.Tables(nodes, clusters, tokens, revoked, ca, serverCert)
    }

    function IdentityTables(): Identity.Tables
      reads `accounts, `memberships, `keys
    {
      Identity.Tables(accounts, memberships, keys)
    }

    function Database(): Db
      reads this
    {
      Db(ComputeTables(), StorageTables(), TenancyTables(), FleetTables(), IdentityTables())
    }

    function Model(): State
      reads this
    {
      State(Database(), applied)
    }

    /** The invariants of every reachable state. */
    ghost predicate Valid()
      reads this
    {
      IsSound(Database())
    }

    /** Every row is stored under its own id. */
    ghost predicate Keyed()
      reads this
    {
      && NicCounters.WellKeyed(ComputeTables())
      && CloneAccounting.WellKeyed(StorageTables())
      && Onboarding.WellKeyed(FleetTables())
      && IdentityBinding.WellKeyed(IdentityTables())
    }

    lemma ValidIsKeyed()
      requires Valid()
      ensures Keyed()
    {
      hide NicCounters.WellKeyed, CloneAccounting.WellKeyed, Onboarding.WellKeyed, IdentityBinding.WellKeyed;
      var leaks :| Runs.Sound(Database(), leaks);
    }

    constructor ()
      ensures Model() == Init && Valid()
    {
      networks, nics, vms, groups := map[], map[], map[], map[];
      volumes, templates := map[], map[];
      orgs, projects := map[], map[];
      nodes, clusters, tokens, revoked := map[], map[], map[], map[];
      ca, serverCert := None, None;
      accounts, memberships, keys := map[], map[], map[];
      applied := [];
      new;
      Runs.EmptyIsSound();
      assert Runs.Sound(Database(), map[]);
    }

    // ---------------------------------------------- networks, NICs and VMs

    /** `nics_in_network` of a network delete. */
    method NicsOn(network: string) returns (victims: seq<string>)
      ensures victims == ScanKeys(Compute.NicsIn(nics, network))
      ensures forall k :: k in victims ==> k in nics
    {
      hide LeqString, Ascending, ScanKeys;
      victims := Select(nics, (n: NicData) => n.spec.networkId == network, Compute.NicsIn(nics, network));
    }

    /** The cascade of a network delete: each row is removed under its own id. */
    method DropNics(victims: seq<string>) returns (events: seq<Event>)
      requires forall k :: k in victims ==> k in nics && nics[k].id == k
      modifies `nics
      ensures nics == old(nics) - set k | k in victims
      ensures events == Compute.NicDeletions(old(nics), victims)
    {
      hide Compute.NicDeletions;
      events := [];
      var listed := nics;
      for i := 0 to |victims|
        invariant nics == listed - set k | k in victims[..i]
        invariant events == Compute.NicDeletions(listed, victims[..i])
      {
        var nic := listed[victims[i]];
        nics := nics - {nic.id};
        events := events + [NicDeleted(nic.id, nic.spec.networkId)];
        assert victims[..i + 1] == victims[..i] + [victims[i]];
      }
      assert victims[..|victims|] == victims;
    }

    method DeleteNetwork(op: ComputeOp) returns (done: bool, response: Response, events: seq<Event>)
      requires op.DeleteNetwork? && NicCounters.WellKeyed(ComputeTables())
      modifies `networks, `nics
      ensures Did(Compute.ApplyDeleteNetwork(old(ComputeTables()), op), old(ComputeTables()), ComputeTables(),
                  done, response, events)
    {
      hide LeqString, Ascending, ScanKeys, Compute.NicDeletions, Compute.NicsIn;
      var victims := NicsOn(op.id);
      ghost var doomed := Compute.NicsIn(nics, op.id);
      assert victims == [] <==> doomed == {};
      if victims != [] && !op.force {
        return false, Error(409), [];
      }
      if op.id !in networks {
        return false, Error(404), [];
      }
      events := DropNics(victims);
      assert doomed == set k | k in victims;
      networks := networks - {op.id};
      events := events + [NetworkDeleted(op.id)];
      return true, DeletedWithCount(op.id, |victims|), events;
    }

    method CreateNic(env: Env, op: ComputeOp) returns (done: bool, response: Response, events: seq<Event>)
      requires op.CreateNic? && NicCounters.WellKeyed(ComputeTables())
      modifies `nics, `networks, `groups
      ensures Did(Compute.ApplyCreateNic(env, old(ComputeTables()), op), old(ComputeTables()), ComputeTables(),
                  done, response, events)
    {
      if op.networkId !in networks {
        return false, Error(404), [];
      }
      var network := networks[op.networkId];
      if op.securityGroup.Some? && op.securityGroup.value !in groups {
        return false, Error(404), [];
      }
      if op.id in nics {
        return false, NicIs(nics[op.id]), [];
      }
      var nic := NicData(
        op.id,
        NicSpec(op.projectSlug, op.nicName, op.networkId, op.macAddress.GetOr(env.mac(op.id)),
                op.ipv4Address, op.ipv6Address, op.routedIpv4Prefixes, op.routedIpv6Prefixes,
                op.securityGroup, None),
        NicStatus(NicPending, "", None), op.timestamp, op.timestamp);
      nics := nics[op.id := nic];
      networks := networks[op.networkId := network.(nicCount := network.nicCount + 1)];
      if op.securityGroup.Some? {
        var sg := groups[op.securityGroup.value];
        groups := groups[sg.id := sg.(nicCount := sg.nicCount + 1)];
      }
      return true, NicIs(nic), [NicCreated(nic)];
    }

    method DeleteNic(op: ComputeOp) returns (done: bool, response: Response, events: seq<Event>)
      requires op.DeleteNic?
      modifies `nics, `networks, `groups
      ensures Did(Compute.ApplyDeleteNic(old(ComputeTables()), op), old(ComputeTables()), ComputeTables(),
                  done, response, events)
    {
      if op.id !in nics {
        return false, Error(404), [];
      }
      var spec := nics[op.id].spec;
      nics := nics - {op.id};
      if spec.networkId in networks {
        var network := networks[spec.networkId];
        networks := networks[spec.networkId := network.(nicCount := Decrement(network.nicCount))];
      }
      if spec.securityGroupId.Some? && spec.securityGroupId.value in groups {
        var sg := groups[spec.securityGroupId.value];
        groups := groups[spec.securityGroupId.value := sg.(nicCount := Decrement(sg.nicCount))];
      }
      return true, Deleted(op.id), [NicDeleted(op.id, spec.networkId)];
    }

    method CreateVm(op: ComputeOp) returns (done: bool, response: Response, events: seq<Event>)
      requires op.CreateVm? && NicCounters.WellKeyed(ComputeTables())
      modifies `nics, `vms
      ensures Did(Compute.ApplyCreateVm(old(ComputeTables()), op), old(ComputeTables()), ComputeTables(),
                  done, response, events)
    {
      if exists k :: k in vms && vms[k].spec.projectSlug == op.spec.projectSlug && vms[k].spec.name == op.spec.name {
        return false, Error(409), [];
      }
      if op.id in vms {
        return false, VmIs(vms[op.id]), [];
      }
      if op.spec.nicId !in nics {
        return false, Error(404), [];
      }
      var linked := nics[op.spec.nicId];
      if linked.spec.vmId.Some? && linked.spec.vmId.value != op.id {
        return false, Error(409), [];
      }
      var vm := VmData(op.id, op.spec, VmStatus(VmPending, None, None, None), op.timestamp, op.timestamp);
      var nic := linked.(spec := linked.spec.(vmId := Some(op.id)), updatedAt := vm.updatedAt);
      nics := nics[linked.id := nic];
      vms := vms[op.id := vm];
      return true, VmIs(vm), [VmCreated(vm), NicUpdated(linked.id, linked, nic)];
    }

    method DeleteVm(op: ComputeOp, now: string) returns (done: bool, response: Response, events: seq<Event>)
      requires op.DeleteVm? && NicCounters.WellKeyed(ComputeTables())
      modifies `nics, `vms
      ensures Did(Compute.ApplyDeleteVm(old(ComputeTables()), op, now), old(ComputeTables()), ComputeTables(),
                  done, response, events)
    {
      if op.id !in vms {
        return false, Error(404), [];
      }
      var nicId := vms[op.id].spec.nicId;
      events := [VmDeleted(op.id)];
      if nicId != "" && nicId in nics && nics[nicId].spec.vmId == Some(op.id) {
        var linked := nics[nicId];
        var nic := linked.(spec := linked.spec.(vmId := None), updatedAt := now);
        nics := nics[linked.id := nic];
        events := events + [NicUpdated(linked.id, linked, nic)];
      }
      vms := vms - {op.id};
      return true, Deleted(op.id), events;
    }

    method CreateNetwork(op: ComputeOp) returns (done: bool, response: Response, events: seq<Event>)
      requires op.CreateNetwork?
      modifies `networks
      ensures Did(Compute.ApplyCreateNetwork(old(ComputeTables()), op), old(ComputeTables()), ComputeTables(),
                  done, response, events)
    {
      if exists k :: k in networks && networks[k].projectSlug == op.projectSlug && networks[k].name == op.netName {
        return false, Error(409), [];
      }
      if op.id in networks {
        return false, NetworkIs(networks[op.id]), [];
      }
      var network := NetworkData(
        op.id, op.projectSlug, op.netName, op.ipv4Enabled, op.ipv4Prefix, op.ipv6Enabled,
        op.ipv6Prefix, op.dnsServers, op.ntpServers, op.isPublic, 0, op.timestamp, op.timestamp);
      networks := networks[op.id := network];
      return true, NetworkIs(network), [NetworkCreated(network)];
    }

    method UpdateNetwork(op: ComputeOp) returns (done: bool, response: Response, events: seq<Event>)
      requires op.UpdateNetwork?
      modifies `networks
      ensures Did(Compute.ApplyUpdateNetwork(old(ComputeTables()), op), old(ComputeTables()), ComputeTables(),
                  done, response, events)
    {
      if op.id !in networks {
        return false, Error(404), [];
      }
      var network := networks[op.id];
      network := network.(dnsServers := op.dnsServers);
      network := network.(ntpServers := op.ntpServers);
      network := network.(updatedAt := op.timestamp);
      events := [NetworkUpdated(op.id, networks[op.id], network)];
      networks := networks[op.id := network];
      return true, NetworkIs(network), events;
    }

    method UpdateNic(op: ComputeOp) returns (done: bool, response: Response, events: seq<Event>)
      requires op.UpdateNic?
      modifies `nics
      ensures Did(Compute.ApplyUpdateNic(old(ComputeTables()), op), old(ComputeTables()), ComputeTables(),
                  done, response, events)
    {
      if op.id !in nics {
        return false, Error(404), [];
      }
      var nic := nics[op.id];
      nic := nic.(spec := nic.spec.(routedIpv4Prefixes := op.routedIpv4Prefixes));
      nic := nic.(spec := nic.spec.(routedIpv6Prefixes := op.routedIpv6Prefixes));
      nic := nic.(updatedAt := op.timestamp);
      events := [NicUpdated(op.id, nics[op.id], nic)];
      nics := nics[op.id := nic];
      return true, NicIs(nic), events;
    }

    method AttachNic(op: ComputeOp) returns (done: bool, response: Response, events: seq<Event>)
      requires op.AttachNic?
      modifies `nics
      ensures Did(Compute.ApplyAttachNic(old(ComputeTables()), op), old(ComputeTables()), ComputeTables(),
                  done, response, events)
    {
      if op.id !in nics {
        return false, Error(404), [];
      }
      var nic := nics[op.id];
      if nic.spec.vmId.Some? {
        return false, Error(409), [];
      }
      if op.vmId !in vms {
        return false, Error(404), [];
      }
      nic := nic.(spec := nic.spec.(vmId := Some(op.vmId)), updatedAt := op.timestamp);
      events := [NicUpdated(op.id, nics[op.id], nic)];
      nics := nics[op.id := nic];
      return true, NicIs(nic), events;
    }

    method DetachNic(op: ComputeOp) returns (done: bool, response: Response, events: seq<Event>)
      requires op.DetachNic?
      modifies `nics
      ensures Did(Compute.ApplyDetachNic(old(ComputeTables()), op), old(ComputeTables()), ComputeTables(),
                  done, response, events)
    {
      if op.id !in nics {
        return false, Error(404), [];
      }
      var nic := nics[op.id];
      nic := nic.(spec := nic.spec.(vmId := None), updatedAt := op.timestamp);
      events := [NicUpdated(op.id, nics[op.id], nic)];
      nics := nics[op.id := nic];
      return true, NicIs(nic), events;
    }

    /** An empty socket path keeps the one that is known. */
    method UpdateNicStatus(op: ComputeOp) returns (done: bool, response: Response, events: seq<Event>)
      requires op.UpdateNicStatus?
      modifies `nics
      ensures Did(Compute.ApplyUpdateNicStatus(old(ComputeTables()), op), old(ComputeTables()), ComputeTables(),
                  done, response, events)
    {
      if op.id !in nics {
        return false, Error(404), [];
      }
      var nic := nics[op.id];
      nic := nic.(status := nic.status.(phase := op.nicPhase));
      if op.socketPath != "" {
        nic := nic.(status := nic.status.(socketPath := op.socketPath));
      }
      nic := nic.(status := nic.status.(message := op.message), updatedAt := op.timestamp);
      nics := nics[op.id := nic];
      return true, NicIs(nic), [];
    }

    method UpdateVmSpec(op: ComputeOp) returns (done: bool, response: Response, events: seq<Event>)
      requires op.UpdateVmSpec?
      modifies `vms
      ensures Did(Compute.ApplyUpdateVmSpec(old(ComputeTables()), op), old(ComputeTables()), ComputeTables(),
                  done, response, events)
    {
      if op.id !in vms {
        return false, Error(404), [];
      }
      var vm := vms[op.id];
      vm := vm.(spec := vm.spec.(desiredState := op.desiredState), updatedAt := op.timestamp);
      events := [VmUpdated(op.id, vms[op.id], vm)];
      vms := vms[op.id := vm];
      return true, VmIs(vm), events;
    }

    method UpdateVmStatus(op: ComputeOp) returns (done: bool, response: Response, events: seq<Event>)
      requires op.UpdateVmStatus?
      modifies `vms
      ensures Did(Compute.ApplyUpdateVmStatus(old(ComputeTables()), op), old(ComputeTables()), ComputeTables(),
                  done, response, events)
    {
      if op.id !in vms {
        return false, Error(404), [];
      }
      var vm := vms[op.id];
      vm := vm.(status := op.status, updatedAt := op.timestamp);
      events := [VmStatusUpdated(op.id, vms[op.id], vm)];
      vms := vms[op.id := vm];
      return true, VmIs(vm), events;
    }

    // ------------------------------------------------------ security groups

    /** A NIC that carries the group, if there is one. */
    method FindGroupNic(group: string) returns (found: Option<string>)
      ensures found == FirstKey(Compute.NicsOf(nics, group))
    {
      hide LeqString, FirstKey;
      found := Find(nics, (n: NicData) => n.spec.securityGroupId == Some(group), Compute.NicsOf(nics, group));
    }

    method CreateGroup(op: ComputeOp) returns (done: bool, response: Response, events: seq<Event>)
      requires op.CreateSecurityGroup?
      modifies `groups
      ensures Did(Compute.ApplyCreateSecurityGroup(old(ComputeTables()), projects.Keys, op),
                  old(ComputeTables()), ComputeTables(),
                  done, response, events)
    {
      if op.id in groups {
        return false, SecurityGroupIs(groups[op.id]), [];
      }
      if exists k :: k in groups && groups[k].projectSlug == op.projectSlug && groups[k].name == op.groupName {
        return false, Error(409), [];
      }
      if op.projectSlug !in projects {
        return false, Error(404), [];
      }
      var sg := SecurityGroupData(op.id, op.projectSlug, op.groupName, op.description, [], 0,
                                  op.timestamp, op.timestamp);
      groups := groups[op.id := sg];
      return true, SecurityGroupIs(sg), [SecurityGroupCreated(op.id)];
    }

    method UpdateGroup(op: ComputeOp) returns (done: bool, response: Response, events: seq<Event>)
      requires op.UpdateSecurityGroup?
      modifies `groups
      ensures Did(Compute.ApplyUpdateSecurityGroup(old(ComputeTables()), op), old(ComputeTables()), ComputeTables(),
                  done, response, events)
    {
      if op.id !in groups {
        return false, Error(404), [];
      }
      var sg := groups[op.id];
      if op.newName.Some? {
        sg := sg.(name := op.newName.value);
      }
      if op.newDescription.Some? {
        sg := sg.(description := op.newDescription.value);
      }
      sg := sg.(updatedAt := op.timestamp);
      groups := groups[op.id := sg];
      return true, SecurityGroupIs(sg), [];
    }

    method DeleteGroup(op: ComputeOp) returns (done: bool, response: Response, events: seq<Event>)
      requires op.DeleteSecurityGroup?
      modifies `groups
      ensures Did(Compute.ApplyDeleteSecurityGroup(old(ComputeTables()), op), old(ComputeTables()), ComputeTables(),
                  done, response, events)
    {
      hide LeqString, FirstKey, Compute.NicsOf;
      var reference := FindGroupNic(op.id);
      if reference.Some? {
        return false, Error(409), [];
      }
      if op.id !in groups {
        return false, Error(404), [];
      }
      groups := groups - {op.id};
      return true, Deleted(op.id), [SecurityGroupDeleted(op.id)];
    }

    method CreateRule(op: ComputeOp) returns (done: bool, response: Response, events: seq<Event>)
      requires op.CreateSecurityGroupRule?
      modifies `groups
      ensures Did(Compute.ApplyCreateSecurityGroupRule(old(ComputeTables()), op), old(ComputeTables()), ComputeTables(),
                  done, response, events)
    {
      if op.securityGroupId !in groups {
        return false, Error(404), [];
      }
      var sg := groups[op.securityGroupId];
      var known := FindRule(sg.rules, op.id);
      if known < |sg.rules| {
        return false, SecurityGroupIs(sg), [];
      }
      var rule := SecurityGroupRuleData(op.id, op.direction, op.protocol, op.portRangeStart,
                                        op.portRangeEnd, op.cidr, op.description, op.timestamp);
      sg := sg.(rules := sg.rules + [rule], updatedAt := op.timestamp);
      groups := groups[op.securityGroupId := sg];
      return true, SecurityGroupIs(sg), [];
    }

    /** A delete that removes nothing is an error; `updated_at` is not touched. */
    method DeleteRule(op: ComputeOp) returns (done: bool, response: Response, events: seq<Event>)
      requires op.DeleteSecurityGroupRule?
      modifies `groups
      ensures Did(Compute.ApplyDeleteSecurityGroupRule(old(ComputeTables()), op), old(ComputeTables()), ComputeTables(),
                  done, response, events)
    {
      if op.securityGroupId !in groups {
        return false, Error(404), [];
      }
      var sg := groups[op.securityGroupId];
      var left := RetainRules(sg.rules, op.ruleId);
      RetainedAll(sg.rules, op.ruleId);
      if |left| == |sg.rules| {
        return false, Error(404), [];
      }
      sg := sg.(rules := left);
      groups := groups[op.securityGroupId := sg];
      return true, SecurityGroupIs(sg), [];
    }

    method UpdateRule(op: ComputeOp) returns (done: bool, response: Response, events: seq<Event>)
      requires op.UpdateSecurityGroupRule?
      modifies `groups
      ensures Did(Compute.ApplyUpdateSecurityGroupRule(old(ComputeTables()), op), old(ComputeTables()), ComputeTables(),
                  done, response, events)
    {
      if op.securityGroupId !in groups {
        return false, Error(404), [];
      }
      var sg := groups[op.securityGroupId];
      var at := FindRule(sg.rules, op.ruleId);
      if at == |sg.rules| {
        return false, Error(404), [];
      }
      if op.newDescription.Some? {
        DescribedAt(sg.rules, op.ruleId, op.newDescription.value, at);
        sg := sg.(rules := sg.rules[at := sg.rules[at].(description := op.newDescription.value)]);
      }
      sg := sg.(updatedAt := op.timestamp);
      groups := groups[op.securityGroupId := sg];
      return true, SecurityGroupIs(sg), [];
    }

    method ApplyNetwork(op: ComputeOp)
      returns (done: bool, response: Response, events: seq<Event>)
      requires Compute.IsNetworkOp(op) && NicCounters.WellKeyed(ComputeTables())
      modifies `networks, `nics
      ensures Did(Compute.NetworkStep(old(ComputeTables()), op),
                  old(ComputeTables()), ComputeTables(), done, response, events)
    {
      if op.CreateNetwork? {
        done, response, events := CreateNetwork(op);
      } else if op.UpdateNetwork? {
        done, response, events := UpdateNetwork(op);
      } else {
        done, response, events := DeleteNetwork(op);
      }
    }

    method ApplyNic(env: Env, op: ComputeOp)
      returns (done: bool, response: Response, events: seq<Event>)
      requires Compute.IsNicOp(op) && NicCounters.WellKeyed(ComputeTables())
      modifies `nics, `networks, `groups
      ensures Did(Compute.NicStep(env, old(ComputeTables()), op),
                  old(ComputeTables()), ComputeTables(), done, response, events)
    {
      if op.CreateNic? {
        done, response, events := CreateNic(env, op);
      } else if op.UpdateNic? {
        done, response, events := UpdateNic(op);
      } else if op.DeleteNic? {
        done, response, events := DeleteNic(op);
      } else if op.AttachNic? {
        done, response, events := AttachNic(op);
      } else if op.DetachNic? {
        done, response, events := DetachNic(op);
      } else {
        done, response, events := UpdateNicStatus(op);
      }
    }

    method ApplyVm(op: ComputeOp, now: string)
      returns (done: bool, response: Response, events: seq<Event>)
      requires Compute.IsVmOp(op) && NicCounters.WellKeyed(ComputeTables())
      modifies `nics, `vms
      ensures Did(Compute.VmStep(old(ComputeTables()), op, now),
                  old(ComputeTables()), ComputeTables(), done, response, events)
    {
      if op.CreateVm? {
        done, response, events := CreateVm(op);
      } else if op.UpdateVmSpec? {
        done, response, events := UpdateVmSpec(op);
      } else if op.UpdateVmStatus? {
        done, response, events := UpdateVmStatus(op);
      } else {
        done, response, events := DeleteVm(op, now);
      }
    }

    method ApplyGroup(op: ComputeOp)
      returns (done: bool, response: Response, events: seq<Event>)
      requires !Compute.IsNetworkOp(op) && !Compute.IsNicOp(op) && !Compute.IsVmOp(op)
      modifies `groups
      ensures Did(Compute.GroupStep(old(ComputeTables()), projects.Keys, op),
                  old(ComputeTables()), ComputeTables(), done, response, events)
    {
      if op.CreateSecurityGroup? {
        done, response, events := CreateGroup(op);
      } else if op.UpdateSecurityGroup? {
        done, response, events := UpdateGroup(op);
      } else if op.DeleteSecurityGroup? {
        done, response, events := DeleteGroup(op);
      } else if op.CreateSecurityGroupRule? {
        done, response, events := CreateRule(op);
      } else if op.DeleteSecurityGroupRule? {
        done, response, events := DeleteRule(op);
      } else {
        done, response, events := UpdateRule(op);
      }
    }

    method ApplyCompute(env: Env, op: ComputeOp, now: string)
      returns (done: bool, response: Response, events: seq<Event>)
      requires NicCounters.WellKeyed(ComputeTables())
      modifies `networks, `nics, `vms, `groups
      ensures Did(Compute.Step(env, old(ComputeTables()), projects.Keys, op, now),
                  old(ComputeTables()), ComputeTables(), done, response, events)
    {
      hide Compute.NetworkStep, Compute.NicStep, Compute.VmStep, Compute.GroupStep, Did, NicCounters.WellKeyed;
      if Compute.IsNetworkOp(op) {
        done, response, events := ApplyNetwork(op);
      } else if Compute.IsNicOp(op) {
        done, response, events := ApplyNic(env, op);
      } else if Compute.IsVmOp(op) {
        done, response, events := ApplyVm(op, now);
      } else {
        done, response, events := ApplyGroup(op);
      }
    }

    // ---------------------------------------------------- volumes, tenancy

    method CreateVolume(op: StorageOp) returns (done: bool, response: Response, events: seq<Event>)
      requires op.CreateVolume? && CloneAccounting.WellKeyed(StorageTables())
      modifies `volumes, `templates
      ensures Did(Storage.ApplyCreateVolume(old(StorageTables()), projects.Keys, op),
                  old(StorageTables()), StorageTables(), done, response, events)
    {
      if op.projectSlug !in projects {
        return false, Error(404), [];
      }
      if op.id in volumes {
        return false, VolumeIs(volumes[op.id]), [];
      }
      if exists k :: k in volumes && volumes[k].spec.projectSlug == op.projectSlug && volumes[k].spec.name == op.name {
        return false, Error(409), [];
      }
      if op.templateId.Some? {
        if op.templateId.value !in templates {
          return false, Error(404), [];
        }
        if templates[op.templateId.value].spec.nodeId != op.nodeId {
          return false, Error(409), [];
        }
      }
      var volume := VolumeData(
        op.id, VolumeSpec(op.projectSlug, op.nodeId, op.name, op.sizeBytes, op.templateId),
        VolumeStatus(VolumePending, "", 0, 1.0, [], None), op.timestamp, op.timestamp);
      if op.templateId.Some? {
        var template := templates[op.templateId.value];
        templates := templates[template.id :=
          template.(status := template.status.(cloneCount := template.status.cloneCount + 1))];
      }
      volumes := volumes[op.id := volume];
      return true, VolumeIs(volume), [VolumeCreated(volume)];
    }

    method DeleteVolume(op: StorageOp) returns (done: bool, response: Response, events: seq<Event>)
      requires op.DeleteVolume? && CloneAccounting.WellKeyed(StorageTables())
      modifies `volumes, `templates
      ensures Did(Storage.ApplyDeleteVolume(old(StorageTables()), op), old(StorageTables()), StorageTables(),
                  done, response, events)
    {
      if op.id !in volumes {
        return false, Error(404), [];
      }
      var spec := volumes[op.id].spec;
      volumes := volumes - {op.id};
      if spec.templateId.Some? && spec.templateId.value in templates {
        var template := templates[spec.templateId.value];
        templates := templates[template.id :=
          template.(status := template.status.(cloneCount := Decrement(template.status.cloneCount)))];
      }
      return true, Deleted(op.id), [VolumeDeleted(op.id, spec.nodeId)];
    }

    method UpdateVolumeStatus(op: StorageOp) returns (done: bool, response: Response, events: seq<Event>)
      requires op.UpdateVolumeStatus?
      modifies `volumes
      ensures Did(Storage.ApplyUpdateVolumeStatus(old(StorageTables()), op), old(StorageTables()), StorageTables(),
                  done, response, events)
    {
      if op.id !in volumes {
        return false, Error(404), [];
      }
      var volume := volumes[op.id];
      volume := volume.(status := volume.status.(phase := op.volumePhase));
      if op.path.Some? {
        volume := volume.(status := volume.status.(path := op.path.value));
      }
      volume := volume.(status := volume.status.(usedBytes := op.usedBytes, error := op.error));
      volume := volume.(updatedAt := op.timestamp);
      events := [VolumeStatusUpdated(op.id, volumes[op.id], volume)];
      volumes := volumes[op.id := volume];
      return true, VolumeIs(volume), events;
    }

    method ResizeVolume(op: StorageOp) returns (done: bool, response: Response, events: seq<Event>)
      requires op.ResizeVolume?
      modifies `volumes
      ensures Did(Storage.ApplyResizeVolume(old(StorageTables()), op), old(StorageTables()), StorageTables(),
                  done, response, events)
    {
      if op.id !in volumes {
        return false, Error(404), [];
      }
      var volume := volumes[op.id];
      if op.sizeBytes < volume.spec.sizeBytes {
        return false, Error(400), [];
      }
      volume := volume.(spec := volume.spec.(sizeBytes := op.sizeBytes), updatedAt := op.timestamp);
      volumes := volumes[op.id := volume];
      return true, VolumeIs(volume), [];
    }

    method CreateSnapshot(op: StorageOp) returns (done: bool, response: Response, events: seq<Event>)
      requires op.CreateSnapshot?
      modifies `volumes
      ensures Did(Storage.ApplyCreateSnapshot(old(StorageTables()), op), old(StorageTables()), StorageTables(),
                  done, response, events)
    {
      if op.volumeId !in volumes {
        return false, Error(404), [];
      }
      var volume := volumes[op.volumeId];
      if exists i :: 0 <= i < |volume.status.snapshots| && volume.status.snapshots[i].name == op.name {
        return false, Error(409), [];
      }
      var snapshot := SnapshotData(op.id, op.name, op.timestamp, 0);
      volume := volume.(status := volume.status.(snapshots := volume.status.snapshots + [snapshot]));
      volume := volume.(updatedAt := op.timestamp);
      volumes := volumes[op.volumeId := volume];
      return true, VolumeIs(volume), [];
    }

    method CreateTemplate(op: StorageOp) returns (done: bool, response: Response, events: seq<Event>)
      requires op.CreateTemplate?
      modifies `templates
      ensures Did(Storage.ApplyCreateTemplate(old(StorageTables()), op), old(StorageTables()), StorageTables(),
                  done, response, events)
    {
      if exists k :: k in templates && templates[k].spec.projectSlug == op.projectSlug
                     && templates[k].spec.name == op.name && templates[k].status.phase == TemplateReady {
        return false, Error(409), [];
      }
      if op.id in templates {
        return false, TemplateIs(templates[op.id]), [];
      }
      var phase := TemplateReady;
      if op.sourceUrl.Some? {
        phase := TemplatePending;
      }
      var template := TemplateData(
        op.id, TemplateSpec(op.projectSlug, op.nodeId, op.name, op.sourceUrl),
        TemplateStatus(phase, op.sizeBytes, 0, op.totalBytes, 0, None), op.timestamp, op.timestamp);
      templates := templates[op.id := template];
      return true, TemplateIs(template), [TemplateCreated(template)];
    }

    method UpdateTemplateStatus(op: StorageOp) returns (done: bool, response: Response, events: seq<Event>)
      requires op.UpdateTemplateStatus?
      modifies `templates
      ensures Did(Storage.ApplyUpdateTemplateStatus(old(StorageTables()), op), old(StorageTables()), StorageTables(),
                  done, response, events)
    {
      if op.id !in templates {
        return false, Error(404), [];
      }
      var template := templates[op.id];
      template := template.(status := template.status.(phase := op.templatePhase, bytesWritten := op.bytesWritten));
      template := template.(status := template.status.(sizeBytes := op.sizeBytes, error := op.error));
      template := template.(updatedAt := op.timestamp);
      events := [TemplateUpdated(op.id, templates[op.id], template)];
      templates := templates[op.id := template];
      return true, TemplateIs(template), events;
    }

    method ApplyStorage(op: StorageOp)
      returns (done: bool, response: Response, events: seq<Event>)
      requires CloneAccounting.WellKeyed(StorageTables())
      modifies `volumes, `templates
      ensures Did(Storage.Step(old(StorageTables()), projects.Keys, op),
                  old(StorageTables()), StorageTables(), done, response, events)
    {
      if op.CreateVolume? {
        done, response, events := CreateVolume(op);
      } else if op.DeleteVolume? {
        done, response, events := DeleteVolume(op);
      } else if op.UpdateVolumeStatus? {
        done, response, events := UpdateVolumeStatus(op);
      } else if op.ResizeVolume? {
        done, response, events := ResizeVolume(op);
      } else if op.CreateSnapshot? {
        done, response, events := CreateSnapshot(op);
      } else if op.CreateTemplate? {
        done, response, events := CreateTemplate(op);
      } else {
        done, response, events := UpdateTemplateStatus(op);
      }
    }

    /** `filter(|p| p.org_slug == slug).count()`. */
    method CountProjects(org: string) returns (n: nat)
      ensures n == |Tenancy.ProjectsOf(projects, org)|
    {
      hide LeqString, Ascending, ScanKeys;
      var owned := Select(projects, (p: ProjectData) => p.orgSlug == org, Tenancy.ProjectsOf(projects, org));
      return |owned|;
    }

    method CreateOrg(op: TenancyOp) returns (done: bool, response: Response, events: seq<Event>)
      requires op.CreateOrg?
      modifies `orgs
      ensures Did(Tenancy.ApplyOrg(old(TenancyTables()), op), old(TenancyTables()), TenancyTables(),
                  done, response, events)
    {
      if op.slug in orgs {
        return false, Error(409), [];
      }
      var org := OrgData(op.slug, op.name, op.contact, op.timestamp, op.timestamp);
      orgs := orgs[op.slug := org];
      return true, OrgIs(org), [];
    }

    method UpdateOrg(op: TenancyOp) returns (done: bool, response: Response, events: seq<Event>)
      requires op.UpdateOrg?
      modifies `orgs
      ensures Did(Tenancy.ApplyOrg(old(TenancyTables()), op), old(TenancyTables()), TenancyTables(),
                  done, response, events)
    {
      if op.slug !in orgs {
        return false, Error(404), [];
      }
      var org := orgs[op.slug];
      if op.newName.Some? {
        org := org.(name := op.newName.value);
      }
      if op.newContact.Some? {
        org := org.(contact := op.newContact.value);
      }
      org := org.(updatedAt := op.timestamp);
      orgs := orgs[op.slug := org];
      return true, OrgIs(org), [];
    }

    method DeleteOrg(op: TenancyOp) returns (done: bool, response: Response, events: seq<Event>)
      requires op.DeleteOrg?
      modifies `orgs
      ensures Did(Tenancy.ApplyOrg(old(TenancyTables()), op), old(TenancyTables()), TenancyTables(),
                  done, response, events)
    {
      if op.slug !in orgs {
        return false, Error(404), [];
      }
      var owned := CountProjects(op.slug);
      if owned > 0 {
        return false, Error(409), [];
      }
      orgs := orgs - {op.slug};
      return true, Deleted(op.slug), [];
    }

    method CreateProject(op: TenancyOp) returns (done: bool, response: Response, events: seq<Event>)
      requires op.CreateProject?
      modifies `projects
      ensures Did(Tenancy.ApplyProject(old(TenancyTables()), op), old(TenancyTables()), TenancyTables(),
                  done, response, events)
    {
      if op.slug in projects {
        return false, Error(409), [];
      }
      if op.orgSlug !in orgs {
        return false, Error(404), [];
      }
      var project := ProjectData(op.slug, op.orgSlug, op.name, op.description, op.timestamp, op.timestamp);
      projects := projects[op.slug := project];
      return true, ProjectIs(project), [];
    }

    method DeleteProject(op: TenancyOp) returns (done: bool, response: Response, events: seq<Event>)
      requires op.DeleteProject?
      modifies `projects
      ensures Did(Tenancy.ApplyProject(old(TenancyTables()), op), old(TenancyTables()), TenancyTables(),
                  done, response, events)
    {
      if op.slug !in projects {
        return false, Error(404), [];
      }
      projects := projects - {op.slug};
      return true, Deleted(op.slug), [];
    }

    method ApplyTenancy(op: TenancyOp)
      returns (done: bool, response: Response, events: seq<Event>)
      modifies `orgs, `projects
      ensures Did(Tenancy.Step(old(TenancyTables()), op),
                  old(TenancyTables()), TenancyTables(), done, response, events)
    {
      if op.CreateOrg? {
        done, response, events := CreateOrg(op);
      } else if op.UpdateOrg? {
        done, response, events := UpdateOrg(op);
      } else if op.DeleteOrg? {
        done, response, events := DeleteOrg(op);
      } else if op.CreateProject? {
        done, response, events := CreateProject(op);
      } else {
        done, response, events := DeleteProject(op);
      }
    }

    // ------------------------------------------------ nodes, clusters, tokens

    method CreateToken(op: FleetOp) returns (done: bool, response: Response, events: seq<Event>)
      requires op.CreateOnboardingToken?
      modifies `nodes, `clusters, `tokens
      ensures Did(Fleet.ApplyCreateToken(old(FleetTables()), op), old(FleetTables()), FleetTables(),
                  done, response, events)
    {
      if op.slug !in clusters {
        return false, Error(404), [];
      }
      if op.id in tokens {
        return false, Error(409), [];
      }
      if op.nodeId in nodes {
        return false, Error(409), [];
      }
      if exists k :: k in nodes && nodes[k].clusterSlug == Some(op.slug) && nodes[k].name == op.hostname {
        return false, Error(409), [];
      }
      var token := OnboardingTokenData(
        op.id, op.tokenHashHex, op.slug, op.nodeId, op.hostname, op.description, op.expiresAt,
        None, None, op.createdByAccount, op.timestamp);
      tokens := tokens[op.id := token];
      nodes := nodes[op.nodeId := NodeData(
        op.nodeId, op.hostname, "", Onboarding, NodeResources(0, 0, 0, 0, 0, 0), map[],
        op.timestamp, op.timestamp, op.timestamp, Some(op.slug), None, None, None, None)];
      var cluster := clusters[op.slug];
      if op.nodeId !in cluster.nodeIds {
        clusters := clusters[op.slug :=
          cluster.(nodeIds := cluster.nodeIds + [op.nodeId], updatedAt := op.timestamp)];
      }
      return true, OnboardingTokenIs(token), [];
    }

    method DeleteToken(op: FleetOp) returns (done: bool, response: Response, events: seq<Event>)
      requires op.DeleteOnboardingToken? && Onboarding.WellKeyed(FleetTables())
      modifies `nodes, `clusters, `tokens
      ensures Did(Fleet.ApplyDeleteToken(old(FleetTables()), op), old(FleetTables()), FleetTables(),
                  done, response, events)
    {
      if op.id !in tokens {
        return false, Error(404), [];
      }
      var token := tokens[op.id];
      if token.clusterSlug != op.slug {
        return false, Error(404), [];
      }
      if token.usedAt.None? && token.nodeId in nodes {
        nodes := nodes - {token.nodeId};
        if token.clusterSlug in clusters {
          var cluster := clusters[token.clusterSlug];
          var left := Without(cluster.nodeIds, token.nodeId);
          if |left| != |cluster.nodeIds| {
            clusters := clusters[cluster.slug := cluster.(nodeIds := left)];
          }
        }
      }
      tokens := tokens - {op.id};
      return true, Deleted(op.id), [];
    }

    /** The scan for a token hash and the checks that follow it. */
    method FindRedeemable(op: FleetOp) returns (check: Fleet.Check)
      requires op.RedeemOnboardingToken?
      ensures check == Fleet.CheckRedeem(FleetTables(), op)
    {
      hide FirstKey;
      var key := Find(tokens, (t: OnboardingTokenData) => t.tokenHashHex == op.tokenHashHex,
                      Fleet.TokensWithHash(tokens, op.tokenHashHex));
      if key.None? {
        return Fleet.Refuse(401);
      }
      var token := tokens[key.value];
      if token.usedAt.Some? {
        return Fleet.Refuse(401);
      }
      if !LeqString(op.timestamp, token.expiresAt) {
        return Fleet.Refuse(401);
      }
      if token.clusterSlug !in clusters {
        return Fleet.Refuse(410);
      }
      if token.nodeId !in nodes {
        return Fleet.Refuse(410);
      }
      if ca.None? {
        return Fleet.Refuse(503);
      }
      return Fleet.Redeem(key.value);
    }

    method RedeemToken(env: Env, op: FleetOp, leaf: SignedLeaf)
      returns (done: bool, response: Response, events: seq<Event>)
      requires op.RedeemOnboardingToken? && Onboarding.WellKeyed(FleetTables())
      modifies `nodes, `tokens
      ensures Did(Fleet.ApplyRedeemToken(env, old(FleetTables()), op, leaf),
                  old(FleetTables()), FleetTables(), done, response, events)
    {
      hide Fleet.CheckRedeem;
      var check := FindRedeemable(op);
      if check.Refuse? {
        return false, Error(check.code), [];
      }
      var token, node := tokens[check.key], nodes[tokens[check.key].nodeId];
      if !env.signs(ca.value, op.csrPem, token.nodeId, token.clusterSlug) {
        return false, Error(400), [];
      }
      token := token.(usedAt := Some(op.timestamp), usedByNodeId := Some(token.nodeId));
      tokens := tokens[token.id := token];
      node := node.(
        status := Online, lastHeartbeat := op.timestamp, updatedAt := op.timestamp,
        certSerialHex := Some(leaf.serialHex), certExpiresAt := Some(leaf.notAfter),
        hostname := Some(op.hostname),
        agentVersion := Some(op.agentVersion + " (" + op.kernelVersion + " " + op.arch + ")"));
      nodes := nodes[token.nodeId := node];
      return true, BootstrapResult(node, leaf.certPem, ca.value.caCertPem), [];
    }

    /** Decommission, first loop: the node's unredeemed tokens go. */
    method DropTokens(node: string)
      requires Onboarding.WellKeyed(FleetTables())
      modifies `tokens
      ensures tokens == old(tokens) - Fleet.UnusedFor(old(tokens), node)
    {
      hide LeqString, Ascending, ScanKeys;
      var listed := tokens;
      var rows := ScanKeys(listed.Keys);
      for i := 0 to |rows|
        invariant forall k :: k in tokens <==> k in listed && !(k in rows[..i] && k in Fleet.UnusedFor(listed, node))
        invariant forall k :: k in tokens ==> tokens[k] == listed[k]
      {
        var t := listed[rows[i]];
        if t.nodeId == node && t.usedAt.None? {
          tokens := tokens - {t.id};
        }
        assert rows[..i + 1] == rows[..i] + [rows[i]];
      }
      assert rows[..|rows|] == rows;
    }

    /** Decommission, second loop: every cluster list loses the node. */
    method StripClusters(node: string, timestamp: string)
      requires Onboarding.WellKeyed(FleetTables())
      modifies `clusters
      ensures clusters == Fleet.StripAll(old(clusters), node, timestamp)
    {
      hide LeqString, Ascending, ScanKeys;
      var listed := clusters;
      var rows := ScanKeys(listed.Keys);
      for i := 0 to |rows|
        invariant clusters.Keys == listed.Keys
        invariant forall k :: k in listed ==>
          clusters[k] == if k in rows[..i] then Fleet.Strip(listed[k], node, timestamp) else listed[k]
      {
        var cluster := listed[rows[i]];
        var left := Without(cluster.nodeIds, node);
        if |left| != |cluster.nodeIds| {
          clusters := clusters[cluster.slug := cluster.(nodeIds := left, updatedAt := timestamp)];
        }
        assert rows[..i + 1] == rows[..i] + [rows[i]];
      }
      assert rows[..|rows|] == rows;
    }

    method RevokeCert(op: FleetOp) returns (done: bool, response: Response, events: seq<Event>)
      requires op.RevokeNodeCert? && Onboarding.WellKeyed(FleetTables())
      modifies `nodes, `clusters, `tokens, `revoked
      ensures Did(Fleet.ApplyRevokeCert(old(FleetTables()), op), old(FleetTables()), FleetTables(),
                  done, response, events)
    {
      hide Fleet.StripAll, Fleet.UnusedFor;
      if op.nodeId !in nodes {
        return false, Error(404), [];
      }
      var node := nodes[op.nodeId];
      if node.certSerialHex.Some? {
        var serial := node.certSerialHex.value;
        revoked := revoked[serial := RevokedCertData(serial, op.nodeId, op.timestamp, op.reason)];
      }
      if op.reason.Decommission? {
        DropTokens(op.nodeId);
        StripClusters(op.nodeId, op.timestamp);
        nodes := nodes - {op.nodeId};
      } else {
        nodes := nodes[op.nodeId := node.(status := Revoked, updatedAt := op.timestamp)];
      }
      return true, Deleted(op.nodeId), [];
    }

    method RegisterNode(op: FleetOp) returns (done: bool, response: Response, events: seq<Event>)
      requires op.RegisterNode?
      modifies `nodes
      ensures Did(Fleet.ApplyNode(old(FleetTables()), op), old(FleetTables()), FleetTables(),
                  done, response, events)
    {
      if exists k :: k in nodes && nodes[k].name == op.name {
        return false, Error(409), [];
      }
      if op.nodeId in nodes {
        return false, NodeIs(nodes[op.nodeId]), [];
      }
      var node := NodeData(op.nodeId, op.name, op.address, Online, op.resources, op.labels,
                           op.timestamp, op.timestamp, op.timestamp, None, None, None, None, None);
      nodes := nodes[op.nodeId := node];
      return true, NodeIs(node), [NodeRegistered(node)];
    }

    method UpdateNodeStatus(op: FleetOp) returns (done: bool, response: Response, events: seq<Event>)
      requires op.UpdateNodeStatus?
      modifies `nodes
      ensures Did(Fleet.ApplyNode(old(FleetTables()), op), old(FleetTables()), FleetTables(),
                  done, response, events)
    {
      if op.nodeId !in nodes {
        return false, Error(404), [];
      }
      var node := nodes[op.nodeId];
      node := node.(status := op.status);
      if op.newResources.Some? {
        node := node.(resources := op.newResources.value);
      }
      node := node.(lastHeartbeat := op.timestamp, updatedAt := op.timestamp);
      events := [NodeUpdated(op.nodeId, nodes[op.nodeId], node)];
      nodes := nodes[op.nodeId := node];
      return true, NodeIs(node), events;
    }

    method DeregisterNode(op: FleetOp) returns (done: bool, response: Response, events: seq<Event>)
      requires op.DeregisterNode?
      modifies `nodes
      ensures Did(Fleet.ApplyNode(old(FleetTables()), op), old(FleetTables()), FleetTables(),
                  done, response, events)
    {
      if op.nodeId !in nodes {
        return false, Error(404), [];
      }
      nodes := nodes - {op.nodeId};
      return true, Deleted(op.nodeId), [NodeDeregistered(op.nodeId)];
    }

    method CreateCluster(op: FleetOp) returns (done: bool, response: Response, events: seq<Event>)
      requires op.CreateCluster?
      modifies `clusters
      ensures Did(Fleet.ApplyCluster(old(FleetTables()), orgs.Keys, op), old(FleetTables()), FleetTables(),
                  done, response, events)
    {
      if op.slug in clusters {
        return false, Error(409), [];
      }
      if op.orgSlug !in orgs {
        return false, Error(404), [];
      }
      var cluster := ClusterData(op.slug, op.orgSlug, op.name, op.description, op.location, [],
                                 op.timestamp, op.timestamp);
      clusters := clusters[op.slug := cluster];
      return true, ClusterIs(cluster), [];
    }

    method UpdateCluster(op: FleetOp) returns (done: bool, response: Response, events: seq<Event>)
      requires op.UpdateCluster?
      modifies `clusters
      ensures Did(Fleet.ApplyCluster(old(FleetTables()), orgs.Keys, op), old(FleetTables()), FleetTables(),
                  done, response, events)
    {
      if op.slug !in clusters {
        return false, Error(404), [];
      }
      var cluster := clusters[op.slug];
      if op.newName.Some? {
        cluster := cluster.(name := op.newName.value);
      }
      if op.newDescription.Some? {
        cluster := cluster.(description := op.newDescription.value);
      }
      if op.newLocation.Some? {
        cluster := cluster.(location := op.newLocation.value);
      }
      cluster := cluster.(updatedAt := op.timestamp);
      clusters := clusters[op.slug := cluster];
      return true, ClusterIs(cluster), [];
    }

    method DeleteCluster(op: FleetOp) returns (done: bool, response: Response, events: seq<Event>)
      requires op.DeleteCluster?
      modifies `clusters
      ensures Did(Fleet.ApplyCluster(old(FleetTables()), orgs.Keys, op), old(FleetTables()), FleetTables(),
                  done, response, events)
    {
      if op.slug !in clusters {
        return false, Error(404), [];
      }
      clusters := clusters - {op.slug};
      return true, Deleted(op.slug), [];
    }

    method AddNodeToCluster(op: FleetOp) returns (done: bool, response: Response, events: seq<Event>)
      requires op.AddNodeToCluster?
      modifies `clusters
      ensures Did(Fleet.ApplyRoster(old(FleetTables()), op), old(FleetTables()), FleetTables(),
                  done, response, events)
    {
      if op.slug !in clusters {
        return false, Error(404), [];
      }
      if op.nodeId !in nodes {
        return false, Error(404), [];
      }
      var cluster := clusters[op.slug];
      if op.nodeId !in cluster.nodeIds {
        cluster := cluster.(nodeIds := cluster.nodeIds + [op.nodeId], updatedAt := op.timestamp);
        clusters := clusters[op.slug := cluster];
      }
      return true, ClusterIs(cluster), [];
    }

    method RemoveNodeFromCluster(op: FleetOp) returns (done: bool, response: Response, events: seq<Event>)
      requires op.RemoveNodeFromCluster?
      modifies `clusters
      ensures Did(Fleet.ApplyRoster(old(FleetTables()), op), old(FleetTables()), FleetTables(),
                  done, response, events)
    {
      if op.slug !in clusters {
        return false, Error(404), [];
      }
      var cluster := clusters[op.slug];
      var left := Without(cluster.nodeIds, op.nodeId);
      if |left| != |cluster.nodeIds| {
        cluster := cluster.(nodeIds := left, updatedAt := op.timestamp);
        clusters := clusters[op.slug := cluster];
      }
      return true, ClusterIs(cluster), [];
    }

    method EnsureCa(op: FleetOp) returns (done: bool, response: Response, events: seq<Event>)
      requires op.EnsureInternalCa?
      modifies `ca
      ensures Did(Fleet.ApplyPki(old(FleetTables()), op), old(FleetTables()), FleetTables(),
                  done, response, events)
    {
      if ca.None? {
        ca := Some(op.ca);
      }
      return true, Ack, [];
    }

    method UpdateServerCert(op: FleetOp) returns (done: bool, response: Response, events: seq<Event>)
      requires op.UpdateServerCert?
      modifies `serverCert
      ensures Did(Fleet.ApplyPki(old(FleetTables()), op), old(FleetTables()), FleetTables(),
                  done, response, events)
    {
      serverCert := Some(ServerCertData(op.certPem, op.keyPem, op.serialHex, op.notAfter, op.timestamp));
      return true, Ack, [];
    }

    method ApplyRegistry(op: FleetOp)
      returns (done: bool, response: Response, events: seq<Event>)
      requires !Fleet.IsTokenOp(op)
      modifies `nodes, `clusters, `ca, `serverCert
      ensures Did(Fleet.RegistryStep(old(FleetTables()), orgs.Keys, op),
                  old(FleetTables()), FleetTables(), done, response, events)
    {
      if op.RegisterNode? {
        done, response, events := RegisterNode(op);
      } else if op.UpdateNodeStatus? {
        done, response, events := UpdateNodeStatus(op);
      } else if op.DeregisterNode? {
        done, response, events := DeregisterNode(op);
      } else if op.CreateCluster? {
        done, response, events := CreateCluster(op);
      } else if op.UpdateCluster? {
        done, response, events := UpdateCluster(op);
      } else if op.DeleteCluster? {
        done, response, events := DeleteCluster(op);
      } else if op.AddNodeToCluster? {
        done, response, events := AddNodeToCluster(op);
      } else if op.RemoveNodeFromCluster? {
        done, response, events := RemoveNodeFromCluster(op);
      } else if op.EnsureInternalCa? {
        done, response, events := EnsureCa(op);
      } else {
        done, response, events := UpdateServerCert(op);
      }
    }

    method ApplyFleet(env: Env, op: FleetOp, leaf: SignedLeaf)
      returns (done: bool, response: Response, events: seq<Event>)
      requires Onboarding.WellKeyed(FleetTables())
      modifies `nodes, `clusters, `tokens, `revoked, `ca, `serverCert
      ensures Did(Fleet.Step(env, old(FleetTables()), orgs.Keys, op, leaf),
                  old(FleetTables()), FleetTables(), done, response, events)
    {
      hide Did, Onboarding.WellKeyed, Fleet.RegistryStep;
      hide Fleet.ApplyCreateToken, Fleet.ApplyDeleteToken, Fleet.ApplyRedeemToken, Fleet.ApplyRevokeCert;
      if op.CreateOnboardingToken? {
        done, response, events := CreateToken(op);
      } else if op.DeleteOnboardingToken? {
        done, response, events := DeleteToken(op);
      } else if op.RedeemOnboardingToken? {
        done, response, events := RedeemToken(env, op, leaf);
      } else if op.RevokeNodeCert? {
        done, response, events := RevokeCert(op);
      } else {
        done, response, events := ApplyRegistry(op);
      }
    }

    // ------------------------------------------------------------- identity

    /** A returning user: the row is written only if something changed. */
    method RefreshAccount(id: string, op: IdentityOp) returns (acc: AccountData)
      requires op.EnsureAccountFromOidc? && IdentityBinding.WellKeyed(IdentityTables()) && id in accounts
      modifies `accounts
      ensures acc == Identity.Refresh(old(accounts)[id], op)
      ensures accounts == old(accounts)[id := acc]
    {
      acc := accounts[id];
      var changed := false;
      if op.email.Some? && acc.email != op.email {
        acc := acc.(email := op.email);
        changed := true;
      }
      if op.displayName.Some? && acc.displayName != op.displayName {
        acc := acc.(displayName := op.displayName);
        changed := true;
      }
      if changed {
        acc := acc.(updatedAt := op.timestamp);
        accounts := accounts[acc.id := acc];
      }
    }

    method Login(env: Env, op: IdentityOp) returns (done: bool, response: Response, events: seq<Event>)
      requires op.EnsureAccountFromOidc? && IdentityBinding.WellKeyed(IdentityTables())
      modifies `accounts
      ensures Did(Identity.ApplyLogin(env, old(IdentityTables()), op),
                  old(IdentityTables()), IdentityTables(), done, response, events)
    {
      hide FirstKey;
      var acc: AccountData;
      var holder := Find(accounts, (a: AccountData) => Identity.IsLinkedTo(a, op.iss, op.sub),
                         Identity.Holders(accounts, op.iss, op.sub));
      var invited := Find(accounts,
                          (a: AccountData) => op.email.Some? && Identity.IsInvited(env, a, env.lower(op.email.value)),
                          Identity.Invited(env, accounts, op.email));
      if holder.Some? {
        acc := RefreshAccount(holder.value, op);
      } else if invited.Some? {
        acc := accounts[invited.value].(
          externalIss := Some(op.iss), externalSub := Some(op.sub), email := op.email, updatedAt := op.timestamp);
        if op.displayName.Some? {
          acc := acc.(displayName := op.displayName);
        }
        accounts := accounts[acc.id := acc];
      } else {
        acc := AccountData(op.newId, User, Some(op.iss), Some(op.sub), op.email, op.displayName,
                           None, None, op.timestamp, op.timestamp);
        accounts := accounts[op.newId := acc];
      }
      return true, AccountIs(acc), [];
    }

    method DropKeys(account: string)
      requires IdentityBinding.WellKeyed(IdentityTables())
      modifies `keys
      ensures keys == old(keys) - Identity.KeysOf(old(keys), account)
    {
      hide LeqString, Ascending, ScanKeys;
      var listed := keys;
      var owned := Select(listed, (k: ApiKeyData) => k.accountId == account, Identity.KeysOf(listed, account));
      for i := 0 to |owned|
        invariant keys == listed - set k | k in owned[..i]
      {
        keys := keys - {listed[owned[i]].id};
        assert owned[..i + 1] == owned[..i] + [owned[i]];
      }
      assert owned[..|owned|] == owned;
      assert Identity.KeysOf(listed, account) == set k | k in owned;
    }

    method DropMemberships(account: string)
      requires IdentityBinding.WellKeyed(IdentityTables())
      modifies `memberships
      ensures memberships == old(memberships) - Identity.MembershipsOf(old(memberships), account)
    {
      hide LeqString, Ascending, ScanKeys;
      var listed := memberships;
      var owned := Select(listed, (m: MembershipData) => m.accountId == account,
                          Identity.MembershipsOf(listed, account));
      for i := 0 to |owned|
        invariant memberships == listed - set k | k in owned[..i]
      {
        memberships := memberships - {listed[owned[i]].id};
        assert owned[..i + 1] == owned[..i] + [owned[i]];
      }
      assert owned[..|owned|] == owned;
      assert Identity.MembershipsOf(listed, account) == set k | k in owned;
    }

    method DeleteService(op: IdentityOp) returns (done: bool, response: Response, events: seq<Event>)
      requires op.DeleteServiceAccount? && IdentityBinding.WellKeyed(IdentityTables())
      modifies `accounts, `memberships, `keys
      ensures Did(Identity.ApplyDeleteService(old(IdentityTables()), op),
                  old(IdentityTables()), IdentityTables(), done, response, events)
    {
      hide Identity.KeysOf, Identity.MembershipsOf;
      if op.accountId !in accounts {
        return false, Error(404), [];
      }
      if accounts[op.accountId].kind != ServiceAccount {
        return false, Error(400), [];
      }
      DropKeys(op.accountId);
      DropMemberships(op.accountId);
      accounts := accounts - {op.accountId};
      return true, Deleted(op.accountId), [];
    }

    method Invite(env: Env, op: IdentityOp) returns (done: bool, response: Response, events: seq<Event>)
      requires op.CreateAccountByEmail?
      modifies `accounts
      ensures Did(Identity.ApplyInvite(env, old(IdentityTables()), op), old(IdentityTables()), IdentityTables(),
                  done, response, events)
    {
      var normalized := env.lower(env.trim(op.address));
      if normalized == "" {
        return false, Error(400), [];
      }
      if exists k :: k in accounts && accounts[k].email.Some? && env.lower(accounts[k].email.value) == normalized {
        return false, Error(409), [];
      }
      var acc := AccountData(op.id, User, None, None, Some(normalized), op.displayName, None, None,
                             op.timestamp, op.timestamp);
      accounts := accounts[op.id := acc];
      return true, AccountIs(acc), [];
    }

    method CreateMembership(op: IdentityOp) returns (done: bool, response: Response, events: seq<Event>)
      requires op.CreateMembership?
      modifies `memberships
      ensures Did(Identity.ApplyMembership(old(IdentityTables()), orgs.Keys, projects.Keys, op),
                  old(IdentityTables()), IdentityTables(),
                  done, response, events)
    {
      if op.id in memberships {
        return false, Error(409), [];
      }
      if op.accountId !in accounts {
        return false, Error(404), [];
      }
      match op.scope {
        case Platform =>
        case OrgScope(org) =>
          if org !in orgs {
            return false, Error(404), [];
          }
        case ProjectScope(project) =>
          if project !in projects {
            return false, Error(404), [];
          }
      }
      if exists k :: k in memberships && memberships[k].accountId == op.accountId
                     && memberships[k].scope == op.scope && memberships[k].role == op.role {
        return false, Error(409), [];
      }
      var m := MembershipData(op.id, op.accountId, op.scope, op.role, op.createdByAccount, op.timestamp);
      memberships := memberships[op.id := m];
      return true, MembershipIs(m), [];
    }

    method DeleteMembership(op: IdentityOp) returns (done: bool, response: Response, events: seq<Event>)
      requires op.DeleteMembership?
      modifies `memberships
      ensures Did(Identity.ApplyMembership(old(IdentityTables()), orgs.Keys, projects.Keys, op),
                  old(IdentityTables()), IdentityTables(),
                  done, response, events)
    {
      if op.id !in memberships {
        return false, Error(404), [];
      }
      memberships := memberships - {op.id};
      return true, Deleted(op.id), [];
    }

    method Bootstrap(op: IdentityOp) returns (done: bool, response: Response, events: seq<Event>)
      requires op.BootstrapInitialPlatformAdmin?
      modifies `memberships
      ensures Did(Identity.ApplyBootstrap(old(IdentityTables()), op), old(IdentityTables()), IdentityTables(),
                  done, response, events)
    {
      if exists k :: k in memberships && memberships[k].scope == Platform && memberships[k].role == PlatformAdmin {
        return false, Ack, [];
      }
      if op.accountId !in accounts {
        return false, Error(404), [];
      }
      var m := MembershipData(op.id, op.accountId, Platform, PlatformAdmin, op.accountId, op.timestamp);
      memberships := memberships[op.id := m];
      return true, MembershipIs(m), [];
    }

    method CreateService(op: IdentityOp) returns (done: bool, response: Response, events: seq<Event>)
      requires op.CreateServiceAccount?
      modifies `accounts, `memberships
      ensures Did(Identity.ApplyCreateService(old(IdentityTables()), projects.Keys, op),
                  old(IdentityTables()), IdentityTables(),
                  done, response, events)
    {
      if op.projectSlug !in projects {
        return false, Error(404), [];
      }
      if exists k :: k in accounts && accounts[k].kind == ServiceAccount
                     && accounts[k].projectSlug == Some(op.projectSlug) && accounts[k].displayName == Some(op.name) {
        return false, Error(409), [];
      }
      var acc := AccountData(op.accountId, ServiceAccount, None, None, None, Some(op.name),
                             Some(op.projectSlug), op.description, op.timestamp, op.timestamp);
      accounts := accounts[op.accountId := acc];
      var m := MembershipData(op.membershipId, op.accountId, ProjectScope(op.projectSlug), ProjectAdmin,
                              op.createdByAccount, op.timestamp);
      memberships := memberships[op.membershipId := m];
      return true, AccountIs(acc), [];
    }

    method CreateKey(op: IdentityOp) returns (done: bool, response: Response, events: seq<Event>)
      requires op.CreateStaticApiKey?
      modifies `keys
      ensures Did(Identity.ApplyKey(old(IdentityTables()), op), old(IdentityTables()), IdentityTables(),
                  done, response, events)
    {
      if op.accountId !in accounts {
        return false, Error(404), [];
      }
      if accounts[op.accountId].kind != ServiceAccount {
        return false, Error(400), [];
      }
      if op.id in keys {
        return false, Error(409), [];
      }
      var key := ApiKeyData(op.id, op.accountId, op.hashHex, op.displayPrefix, op.description,
                            op.expiresAt, None, None, op.timestamp, op.createdByAccount);
      keys := keys[op.id := key];
      return true, ApiKeyIs(key), [];
    }

    /** Revoking twice keeps the first date. */
    method RevokeKey(op: IdentityOp) returns (done: bool, response: Response, events: seq<Event>)
      requires op.RevokeStaticApiKey?
      modifies `keys
      ensures Did(Identity.ApplyKey(old(IdentityTables()), op), old(IdentityTables()), IdentityTables(),
                  done, response, events)
    {
      if op.id !in keys {
        return false, Error(404), [];
      }
      var key := keys[op.id];
      if key.revokedAt.None? {
        key := key.(revokedAt := Some(op.timestamp));
        keys := keys[op.id := key];
      }
      return true, ApiKeyIs(key), [];
    }

    method ApplyIdentity(env: Env, op: IdentityOp)
      returns (done: bool, response: Response, events: seq<Event>)
      requires IdentityBinding.WellKeyed(IdentityTables())
      modifies `accounts, `memberships, `keys
      ensures Did(Identity.Step(env, old(IdentityTables()), orgs.Keys, projects.Keys, op),
                  old(IdentityTables()), IdentityTables(), done, response, events)
    {
      if op.CreateAccountByEmail? {
        done, response, events := Invite(env, op);
      } else if op.EnsureAccountFromOidc? {
        done, response, events := Login(env, op);
      } else if op.CreateMembership? {
        done, response, events := CreateMembership(op);
      } else if op.DeleteMembership? {
        done, response, events := DeleteMembership(op);
      } else if op.BootstrapInitialPlatformAdmin? {
        done, response, events := Bootstrap(op);
      } else if op.CreateServiceAccount? {
        done, response, events := CreateService(op);
      } else if op.DeleteServiceAccount? {
        done, response, events := DeleteService(op);
      } else if op.CreateStaticApiKey? {
        done, response, events := CreateKey(op);
      } else {
        done, response, events := RevokeKey(op);
      }
    }

    // ---------------------------------------------------------------- apply

    method Dispatch(env: Env, op: Op, oracle: Oracle) returns (done: bool, response: Response, events: seq<Event>)
      requires Keyed()
      modifies this
      ensures Did(Handle(env, old(Database()), op, oracle), old(Database()), Database(), done, response, events)
      ensures applied == old(applied)
    {
      hide Compute.Step, Storage.Step, Tenancy.Step, Fleet.Step, Identity.Step, Handle, Did;
      hide NicCounters.WellKeyed, CloneAccounting.WellKeyed, Onboarding.WellKeyed, IdentityBinding.WellKeyed;
      ghost var db := Database();
      hide ComputeTables, StorageTables, FleetTables, IdentityTables;
      match op {
        case OnCompute(c) =>
          done, response, events := ApplyCompute(env, c, oracle.now);
          LiftCompute(env, db, ComputeTables(), c, oracle, done, response, events);
        case OnStorage(c) =>
          done, response, events := ApplyStorage(c);
          LiftStorage(env, db, StorageTables(), c, oracle, done, response, events);
        case OnTenancy(c) =>
          done, response, events := ApplyTenancy(c);
          LiftTenancy(env, db, TenancyTables(), c, oracle, done, response, events);
        case OnFleet(c) =>
          done, response, events := ApplyFleet(env, c, oracle.leaf);
          LiftFleet(env, db, FleetTables(), c, oracle, done, response, events);
        case OnIdentity(c) =>
          done, response, events := ApplyIdentity(env, c);
          LiftIdentity(env, db, IdentityTables(), c, oracle, done, response, events);
      }
    }

    /** The object computes the state machine and keeps its invariants. */
    method Apply(env: Env, cmd: Command, oracle: Oracle) returns (response: Response, events: seq<Event>)
      requires Valid()
      modifies this
      ensures Valid()
      ensures Reply(Model(), response, events) == ControlPlane.Apply(env, old(Model()), Input(cmd, oracle))
    {
      hide Handle, Put, Runs.Sound, Keyed, Did, ControlPlane.Apply;
      ValidIsKeyed();
      hide ComputeTables, StorageTables, TenancyTables, FleetTables, IdentityTables, IsSound;
      ghost var s, i := Model(), Input(cmd, oracle);
      var cached := Peek(applied, cmd.requestId);
      if cached.Some? {
        AppliedBefore(env, s, i);
        return cached.value, [];
      }
      var done;
      done, response, events := Dispatch(env, cmd.op, oracle);
      ghost var after := Database();
      AppliedOnce(env, s, i, after, done, response, events);
      StaysSound(env, s.db, i, after, done, response, events);
      if done {
        applied := Put(applied, cmd.requestId, response);
      }
      assert Database() == after;
    }

    // ------------------------------------------------------------ snapshots

    /** What a replica that installs the envelope gets: this object's nine tables,
        nothing else, and a state with all invariants if this one has them. */
    method TakeSnapshot() returns (e: Snapshot.Envelope)
      ensures var s := Snapshot.Restored(e);
        && s.db.compute == ComputeTables() && s.db.storage == StorageTables() && s.db.tenancy == TenancyTables()
        && s.db.fleet == Fleet.Empty.(nodes := nodes) && s.db.identity == Identity.Empty && s.cache == []
      ensures Valid() ==> IsSound(Snapshot.Restored(e).db)
    {
      var nodes' := Refill(nodes);
      var networks' := Refill(networks);
      var nics' := Refill(nics);
      var vms' := Refill(vms);
      var orgs' := Refill(orgs);
      var projects' := Refill(projects);
      var volumes' := Refill(volumes);
      var templates' := Refill(templates);
      var groups' := Refill(groups);
      e := Snapshot.Envelope(nodes', networks', nics', vms', orgs', projects', volumes', templates', groups');
      assert e == Snapshot.Take(Database());
      hide IsSound;
      if Valid() {
        RestoredIsSound(Database());
      }
    }

    method ClearResources()
      modifies `networks, `nics, `vms, `groups, `volumes, `templates, `orgs, `projects
      ensures ComputeTables() == Compute.Empty && StorageTables() == Storage.Empty && TenancyTables() == Tenancy.Empty
    {
      networks, nics, vms, groups := map[], map[], map[], map[];
      volumes, templates, orgs, projects := map[], map[], map[], map[];
    }

    method ClearFleet()
      modifies `nodes, `clusters, `tokens, `revoked, `ca, `serverCert
      ensures FleetTables() == Fleet.Empty
    {
      nodes, clusters, tokens, revoked, ca, serverCert := map[], map[], map[], map[], None, None;
    }

    method ClearIdentity()
      modifies `accounts, `memberships, `keys
      ensures IdentityTables() == Identity.Empty
    {
      accounts, memberships, keys := map[], map[], map[];
    }

    method RefillCompute(e: Snapshot.Envelope)
      modifies `networks, `nics, `vms, `groups
      ensures ComputeTables() == Snapshot.Restored(e).db.compute
    {
      networks := Refill(e.networks);
      nics := Refill(e.nics);
      vms := Refill(e.vms);
      groups := Refill(e.securityGroups);
    }

    method RefillOthers(e: Snapshot.Envelope)
      modifies `nodes, `orgs, `projects, `volumes, `templates
      ensures FleetTables() == old(FleetTables()).(nodes := e.nodes)
      ensures TenancyTables() == Snapshot.Restored(e).db.tenancy
      ensures StorageTables() == Snapshot.Restored(e).db.storage
    {
      nodes := Refill(e.nodes);
      orgs := Refill(e.orgs);
      projects := Refill(e.projects);
      volumes := Refill(e.volumes);
      templates := Refill(e.templates);
    }

    /** Installing an envelope forgets everything the object held; one taken in a
        reachable state leads to a state with all invariants. */
    method Restore(e: Snapshot.Envelope)
      modifies this
      ensures Model() == Snapshot.Restored(e)
      ensures forall db :: IsSound(db) && Snapshot.Take(db) == e ==> Valid()
    {
      hide IsSound, ComputeTables, StorageTables, TenancyTables, FleetTables, IdentityTables;
      ClearResources();
      ClearFleet();
      ClearIdentity();
      RefillCompute(e);
      RefillOthers(e);
      applied := [];
      assert Database() == Snapshot.Restored(e).db;
      hide Snapshot.Restored, Snapshot.Take, Database;
      forall db | IsSound(db) && Snapshot.Take(db) == e ensures Valid() {
        RestoredIsSound(db);
      }
    }
  }
}
