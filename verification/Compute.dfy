/** Networks, NICs, VMs and security groups: the handlers of
    `ApiState::apply` that write these four tables, as functions of the tables. */
module Compute {
  import opened Basics
  import opened Types

  datatype Tables = Tables(
    networks: map<string, NetworkData>,
    nics: map<string, NicData>,
    vms: map<string, VmData>,
    groups: map<string, SecurityGroupData>)

  const Empty := Tables(map[], map[], map[], map[])

  // ------------------------------------------------------------ row queries

  /** NICs on a network. */
  function NicsIn(nics: map<string, NicData>, network: string): set<string> {
    set k | k in nics && nics[k].spec.networkId == network
  }

  /** NICs carrying a security group. */
  function NicsOf(nics: map<string, NicData>, group: string): set<string> {
    set k | k in nics && nics[k].spec.securityGroupId == Some(group)
  }

  predicate HasRule(rules: seq<SecurityGroupRuleData>, id: string) {
    exists r :: r in rules && r.id == id
  }

  /** `rules.retain(|r| r.id != id)`. */
  function WithoutRule(rules: seq<SecurityGroupRuleData>, id: string): seq<SecurityGroupRuleData> {
    if rules == [] then []
    else (if rules[0].id == id then [] else [rules[0]]) + WithoutRule(rules[1..], id)
  }

  /** The first rule with this id gets the new description. */
  function DescribeRule(rules: seq<SecurityGroupRuleData>, id: string, d: Option<string>)
    : seq<SecurityGroupRuleData>
  {
    if rules == [] then []
    else if rules[0].id == id then [rules[0].(description := d)] + rules[1..]
    else [rules[0]] + DescribeRule(rules[1..], id, d)
  }

  // --------------------------------------------------------------- networks

  function ApplyCreateNetwork(t: Tables, op: ComputeOp): Outcome<Tables>
    requires op.CreateNetwork?
  {
    if exists k :: k in t.networks && t.networks[k].projectSlug == op.projectSlug
                   && t.networks[k].name == op.netName then
      Early(Error(409))
    else if op.id in t.networks then
      Early(NetworkIs(t.networks[op.id]))
    else
      var network := NetworkData(
        op.id, op.projectSlug, op.netName, op.ipv4Enabled, op.ipv4Prefix, op.ipv6Enabled,
        op.ipv6Prefix, op.dnsServers, op.ntpServers, op.isPublic, 0, op.timestamp, op.timestamp);
      Commit(t.(networks := t.networks[op.id := network]),
             NetworkIs(network), [NetworkCreated(network)])
  }

  function ApplyUpdateNetwork(t: Tables, op: ComputeOp): Outcome<Tables>
    requires op.UpdateNetwork?
  {
    if op.id !in t.networks then
      Early(Error(404))
    else
      var before := t.networks[op.id];
      var after := before.(dnsServers := op.dnsServers, ntpServers := op.ntpServers,
                       updatedAt := op.timestamp);
      Commit(t.(networks := t.networks[op.id := after]),
             NetworkIs(after), [NetworkUpdated(op.id, before, after)])
  }

  function NicDeletions(nics: map<string, NicData>, keys: seq<string>): (events: seq<Event>)
    requires forall k :: k in keys ==> k in nics
    ensures |events| == |keys|
    ensures forall i :: 0 <= i < |keys| ==>
      events[i] == NicDeleted(nics[keys[i]].id, nics[keys[i]].spec.networkId)
  {
    if keys == [] then []
    else
      [NicDeleted(nics[keys[0]].id, nics[keys[0]].spec.networkId)] + NicDeletions(nics, keys[1..])
  }

  function ApplyDeleteNetwork(t: Tables, op: ComputeOp): Outcome<Tables>
    requires op.DeleteNetwork?
  {
    var victims := NicsIn(t.nics, op.id);
    if victims != {} && !op.force then
      Early(Error(409))
    else if op.id !in t.networks then
      Early(Error(404))
    else
      Commit(t.(nics := t.nics - victims, networks := t.networks - {op.id}),
             DeletedWithCount(op.id, |victims|),
             NicDeletions(t.nics, ScanKeys(victims)) + [NetworkDeleted(op.id)])
  }

  // ------------------------------------------------------------------- NICs

  function ApplyCreateNic(env: Env, t: Tables, op: ComputeOp): Outcome<Tables>
    requires op.CreateNic?
  {
    if op.networkId !in t.networks then
      Early(Error(404))
    else if op.securityGroup.Some? && op.securityGroup.value !in t.groups then
      Early(Error(404))
    else if op.id in t.nics then
      Early(NicIs(t.nics[op.id]))
    else
      var mac := op.macAddress.GetOr(env.mac(op.id));
      var nic := NicData(
        op.id,
        NicSpec(op.projectSlug, op.nicName, op.networkId, mac, op.ipv4Address, op.ipv6Address,
                op.routedIpv4Prefixes, op.routedIpv6Prefixes, op.securityGroup, None),
        NicStatus(NicPending, "", None), op.timestamp, op.timestamp);
      var network := t.networks[op.networkId];
      var networks := t.networks[op.networkId := network.(nicCount := network.nicCount + 1)];
      var groups :=
        if op.securityGroup.None? then t.groups
        else
          var g := t.groups[op.securityGroup.value];
          t.groups[op.securityGroup.value := g.(nicCount := g.nicCount + 1)];
      Commit(t.(nics := t.nics[op.id := nic], networks := networks, groups := groups),
             NicIs(nic), [NicCreated(nic)])
  }

  /** Replace one NIC row and announce it. */
  function PutNic(t: Tables, id: string, after: NicData): Outcome<Tables>
    requires id in t.nics
  {
    Commit(t.(nics := t.nics[id := after]), NicIs(after), [NicUpdated(id, t.nics[id], after)])
  }

  function ApplyUpdateNic(t: Tables, op: ComputeOp): Outcome<Tables>
    requires op.UpdateNic?
  {
    if op.id !in t.nics then
      Early(Error(404))
    else
      var before := t.nics[op.id];
      PutNic(t, op.id, before.(
        spec := before.spec.(routedIpv4Prefixes := op.routedIpv4Prefixes,
                          routedIpv6Prefixes := op.routedIpv6Prefixes),
        updatedAt := op.timestamp))
  }

  function ApplyDeleteNic(t: Tables, op: ComputeOp): Outcome<Tables>
    requires op.DeleteNic?
  {
    if op.id !in t.nics then
      Early(Error(404))
    else
      var spec := t.nics[op.id].spec;
      var networks :=
        if spec.networkId !in t.networks then t.networks
        else
          var n := t.networks[spec.networkId];
          t.networks[spec.networkId := n.(nicCount := Decrement(n.nicCount))];
      var groups :=
        if spec.securityGroupId.None? || spec.securityGroupId.value !in t.groups then t.groups
        else
          var g := t.groups[spec.securityGroupId.value];
          t.groups[spec.securityGroupId.value := g.(nicCount := Decrement(g.nicCount))];
      Commit(t.(nics := t.nics - {op.id}, networks := networks, groups := groups),
             Deleted(op.id), [NicDeleted(op.id, spec.networkId)])
  }

  function ApplyAttachNic(t: Tables, op: ComputeOp): Outcome<Tables>
    requires op.AttachNic?
  {
    if op.id !in t.nics then
      Early(Error(404))
    else if t.nics[op.id].spec.vmId.Some? then
      Early(Error(409))
    else if op.vmId !in t.vms then
      Early(Error(404))
    else
      var before := t.nics[op.id];
      PutNic(t, op.id, before.(spec := before.spec.(vmId := Some(op.vmId)), updatedAt := op.timestamp))
  }

  function ApplyDetachNic(t: Tables, op: ComputeOp): Outcome<Tables>
    requires op.DetachNic?
  {
    if op.id !in t.nics then
      Early(Error(404))
    else
      var before := t.nics[op.id];
      PutNic(t, op.id, before.(spec := before.spec.(vmId := None), updatedAt := op.timestamp))
  }

  function ApplyUpdateNicStatus(t: Tables, op: ComputeOp): Outcome<Tables>
    requires op.UpdateNicStatus?
  {
    if op.id !in t.nics then
      Early(Error(404))
    else
      var before := t.nics[op.id];
      var path := if op.socketPath == "" then before.status.socketPath else op.socketPath;
      var nic := before.(status := NicStatus(op.nicPhase, path, op.message), updatedAt := op.timestamp);
      Commit(t.(nics := t.nics[op.id := nic]), NicIs(nic), [])
  }

  // -------------------------------------------------------------------- VMs

  function ApplyCreateVm(t: Tables, op: ComputeOp): Outcome<Tables>
    requires op.CreateVm?
  {
    if exists k :: k in t.vms && t.vms[k].spec.projectSlug == op.spec.projectSlug
                   && t.vms[k].spec.name == op.spec.name then
      Early(Error(409))
    else if op.id in t.vms then
      Early(VmIs(t.vms[op.id]))
    else if op.spec.nicId !in t.nics then
      Early(Error(404))
    else if t.nics[op.spec.nicId].spec.vmId.Some?
            && t.nics[op.spec.nicId].spec.vmId.value != op.id then
      Early(Error(409))
    else
      var vm := VmData(op.id, op.spec, VmStatus(VmPending, None, None, None),
                       op.timestamp, op.timestamp);
      var before := t.nics[op.spec.nicId];
      var nic := before.(spec := before.spec.(vmId := Some(op.id)), updatedAt := op.timestamp);
      Commit(t.(nics := t.nics[op.spec.nicId := nic], vms := t.vms[op.id := vm]),
             VmIs(vm), [VmCreated(vm), NicUpdated(before.id, before, nic)])
  }

  function ApplyUpdateVmSpec(t: Tables, op: ComputeOp): Outcome<Tables>
    requires op.UpdateVmSpec?
  {
    if op.id !in t.vms then
      Early(Error(404))
    else
      var before := t.vms[op.id];
      var after := before.(spec := before.spec.(desiredState := op.desiredState), updatedAt := op.timestamp);
      Commit(t.(vms := t.vms[op.id := after]), VmIs(after), [VmUpdated(op.id, before, after)])
  }

  function ApplyUpdateVmStatus(t: Tables, op: ComputeOp): Outcome<Tables>
    requires op.UpdateVmStatus?
  {
    if op.id !in t.vms then
      Early(Error(404))
    else
      var before := t.vms[op.id];
      var after := before.(status := op.status, updatedAt := op.timestamp);
      Commit(t.(vms := t.vms[op.id := after]), VmIs(after), [VmStatusUpdated(op.id, before, after)])
  }

  /** Deleting this VM also clears the link of the NIC named by its spec. */
  predicate ReleasesNic(t: Tables, vm: string) {
    && vm in t.vms
    && t.vms[vm].spec.nicId != ""
    && t.vms[vm].spec.nicId in t.nics
    && t.nics[t.vms[vm].spec.nicId].spec.vmId == Some(vm)
  }

  function ApplyDeleteVm(t: Tables, op: ComputeOp, now: string): Outcome<Tables>
    requires op.DeleteVm?
  {
    if op.id !in t.vms then
      Early(Error(404))
    else if ReleasesNic(t, op.id) then
      var nicId := t.vms[op.id].spec.nicId;
      var before := t.nics[nicId];
      var nic := before.(spec := before.spec.(vmId := None), updatedAt := now);
      Commit(t.(nics := t.nics[nicId := nic], vms := t.vms - {op.id}),
             Deleted(op.id), [VmDeleted(op.id), NicUpdated(before.id, before, nic)])
    else
      Commit(t.(vms := t.vms - {op.id}), Deleted(op.id), [VmDeleted(op.id)])
  }

  // -------------------------------------------------------- security groups

  predicate GroupNameTaken(t: Tables, project: string, name: string) {
    exists k :: k in t.groups && t.groups[k].projectSlug == project && t.groups[k].name == name
  }

  function ApplyCreateSecurityGroup(t: Tables, projects: set<string>, op: ComputeOp): Outcome<Tables>
    requires op.CreateSecurityGroup?
  {
    if op.id in t.groups then
      Early(SecurityGroupIs(t.groups[op.id]))
    else if GroupNameTaken(t, op.projectSlug, op.groupName) then
      Early(Error(409))
    else if op.projectSlug !in projects then
      Early(Error(404))
    else
      var sg := SecurityGroupData(op.id, op.projectSlug, op.groupName, op.description, [], 0,
                                  op.timestamp, op.timestamp);
      Commit(t.(groups := t.groups[op.id := sg]), SecurityGroupIs(sg), [SecurityGroupCreated(op.id)])
  }

  function PutGroup(t: Tables, id: string, sg: SecurityGroupData): Outcome<Tables> {
    Commit(t.(groups := t.groups[id := sg]), SecurityGroupIs(sg), [])
  }

  function ApplyUpdateSecurityGroup(t: Tables, op: ComputeOp): Outcome<Tables>
    requires op.UpdateSecurityGroup?
  {
    if op.id !in t.groups then
      Early(Error(404))
    else
      var sg := t.groups[op.id];
      PutGroup(t, op.id, sg.(name := op.newName.GetOr(sg.name),
                             description := op.newDescription.GetOr(sg.description),
                             updatedAt := op.timestamp))
  }

  function ApplyDeleteSecurityGroup(t: Tables, op: ComputeOp): Outcome<Tables>
    requires op.DeleteSecurityGroup?
  {
    if NicsOf(t.nics, op.id) != {} then
      Early(Error(409))
    else if op.id !in t.groups then
      Early(Error(404))
    else
      Commit(t.(groups := t.groups - {op.id}), Deleted(op.id), [SecurityGroupDeleted(op.id)])
  }

  function ApplyCreateSecurityGroupRule(t: Tables, op: ComputeOp): Outcome<Tables>
    requires op.CreateSecurityGroupRule?
  {
    if op.securityGroupId !in t.groups then
      Early(Error(404))
    else
      var sg := t.groups[op.securityGroupId];
      if HasRule(sg.rules, op.id) then
        Early(SecurityGroupIs(sg))
      else
        var rule := SecurityGroupRuleData(op.id, op.direction, op.protocol, op.portRangeStart,
                                          op.portRangeEnd, op.cidr, op.description, op.timestamp);
        PutGroup(t, op.securityGroupId, sg.(rules := sg.rules + [rule], updatedAt := op.timestamp))
  }

  function ApplyDeleteSecurityGroupRule(t: Tables, op: ComputeOp): Outcome<Tables>
    requires op.DeleteSecurityGroupRule?
  {
    if op.securityGroupId !in t.groups then
      Early(Error(404))
    else
      var sg := t.groups[op.securityGroupId];
      if !HasRule(sg.rules, op.ruleId) then
        Early(Error(404))
      else
        PutGroup(t, op.securityGroupId, sg.(rules := WithoutRule(sg.rules, op.ruleId)))
  }

  function ApplyUpdateSecurityGroupRule(t: Tables, op: ComputeOp): Outcome<Tables>
    requires op.UpdateSecurityGroupRule?
  {
    if op.securityGroupId !in t.groups then
      Early(Error(404))
    else
      var sg := t.groups[op.securityGroupId];
      if !HasRule(sg.rules, op.ruleId) then
        Early(Error(404))
      else
        var rules :=
          if op.newDescription.None? then sg.rules
          else DescribeRule(sg.rules, op.ruleId, op.newDescription.value);
        PutGroup(t, op.securityGroupId, sg.(rules := rules, updatedAt := op.timestamp))
  }

  // ------------------------------------------------------------------- step

  predicate IsNetworkOp(op: ComputeOp) {
    op.CreateNetwork? || op.UpdateNetwork? || op.DeleteNetwork?
  }

  predicate IsNicOp(op: ComputeOp) {
    op.CreateNic? || op.UpdateNic? || op.DeleteNic? || op.AttachNic? || op.DetachNic? || op.UpdateNicStatus?
  }

  predicate IsVmOp(op: ComputeOp) {
    op.CreateVm? || op.UpdateVmSpec? || op.UpdateVmStatus? || op.DeleteVm?
  }

  function NetworkStep(t: Tables, op: ComputeOp): Outcome<Tables>
    requires IsNetworkOp(op)
  {
    if op.CreateNetwork? then ApplyCreateNetwork(t, op)
    else if op.UpdateNetwork? then ApplyUpdateNetwork(t, op)
    else ApplyDeleteNetwork(t, op)
  }

  function NicStep(env: Env, t: Tables, op: ComputeOp): Outcome<Tables>
    requires IsNicOp(op)
  {
    if op.CreateNic? then ApplyCreateNic(env, t, op)
    else if op.UpdateNic? then ApplyUpdateNic(t, op)
    else if op.DeleteNic? then ApplyDeleteNic(t, op)
    else if op.AttachNic? then ApplyAttachNic(t, op)
    else if op.DetachNic? then ApplyDetachNic(t, op)
    else ApplyUpdateNicStatus(t, op)
  }

  function VmStep(t: Tables, op: ComputeOp, now: string): Outcome<Tables>
    requires IsVmOp(op)
  {
    if op.CreateVm? then ApplyCreateVm(t, op)
    else if op.UpdateVmSpec? then ApplyUpdateVmSpec(t, op)
    else if op.UpdateVmStatus? then ApplyUpdateVmStatus(t, op)
    else ApplyDeleteVm(t, op, now)
  }

  function GroupStep(t: Tables, projects: set<string>, op: ComputeOp): Outcome<Tables>
    requires !IsNetworkOp(op) && !IsNicOp(op) && !IsVmOp(op)
  {
    if op.CreateSecurityGroup? then ApplyCreateSecurityGroup(t, projects, op)
    else if op.UpdateSecurityGroup? then ApplyUpdateSecurityGroup(t, op)
    else if op.DeleteSecurityGroup? then ApplyDeleteSecurityGroup(t, op)
    else if op.CreateSecurityGroupRule? then ApplyCreateSecurityGroupRule(t, op)
    else if op.DeleteSecurityGroupRule? then ApplyDeleteSecurityGroupRule(t, op)
    else ApplyUpdateSecurityGroupRule(t, op)
  }

  function Step(env: Env, t: Tables, projects: set<string>, op: ComputeOp, now: string): Outcome<Tables> {
    if IsNetworkOp(op) then NetworkStep(t, op)
    else if IsNicOp(op) then NicStep(env, t, op)
    else if IsVmOp(op) then VmStep(t, op, now)
    else GroupStep(t, projects, op)
  }
}
