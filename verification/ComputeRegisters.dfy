/** The registers of networks, NICs, VMs and security groups. */
module ComputeRegisters {
  import opened Basics
  import opened Types
  import opened Compute
  import opened Registers

  datatype NetworkPart = NetworkBirth | NetworkServers | NetworkTouched
  datatype NicPart = NicBirth | NicRoutes | NicLink | NicState | NicSocket | NicTouched
  datatype VmPart = VmBirth | VmDesired | VmState | VmTouched
  datatype GroupPart = GroupBirth | GroupName | GroupDescription | GroupRules | GroupTouched
  datatype RulePart = RuleBirth | RuleDescription

  datatype Register =
    | OfNetwork(id: string, network: NetworkPart)
    | OfNic(id: string, nic: NicPart)
    | OfVm(id: string, vm: VmPart)
    | OfGroup(id: string, group: GroupPart)
    | OfRule(id: string, ruleId: string, rule: RulePart)

  // ----------------------------------------------------------------- reading

  function NetworkField(n: NetworkData, p: NetworkPart): Value {
    match p
    case NetworkBirth =>
      NetworkBorn(n.projectSlug, n.name, n.ipv4Enabled, n.ipv4Prefix, n.ipv6Enabled, n.ipv6Prefix, n.isPublic,
                  n.createdAt)
    case NetworkServers => Servers(n.dnsServers, n.ntpServers)
    case NetworkTouched => At(n.updatedAt)
  }

  function NicField(n: NicData, p: NicPart): Value {
    match p
    case NicBirth =>
      NicBorn(n.spec.projectSlug, n.spec.name, n.spec.networkId, n.spec.macAddress, n.spec.ipv4Address,
              n.spec.ipv6Address, n.spec.securityGroupId, n.createdAt)
    case NicRoutes => Routed(n.spec.routedIpv4Prefixes, n.spec.routedIpv6Prefixes)
    case NicLink => Note(n.spec.vmId)
    case NicState => NicReport(n.status.phase, n.status.message)
    case NicSocket => Label(n.status.socketPath)
    case NicTouched => At(n.updatedAt)
  }

  function VmField(m: VmData, p: VmPart): Value {
    match p
    case VmBirth =>
      VmBorn(m.spec.projectSlug, m.spec.name, m.spec.nodeSelector, m.spec.cpuCores, m.spec.memoryMb,
             m.spec.volumeId, m.spec.nicId, m.spec.image, m.spec.userData, m.createdAt)
    case VmDesired => Desired(m.spec.desiredState)
    case VmState => VmReport(m.status)
    case VmTouched => At(m.updatedAt)
  }

  function RuleIds(rules: seq<SecurityGroupRuleData>): seq<string> {
    seq(|rules|, i requires 0 <= i < |rules| => rules[i].id)
  }

  function GroupField(g: SecurityGroupData, p: GroupPart): Value {
    match p
    case GroupBirth => Born(g.projectSlug, g.createdAt)
    case GroupName => Label(g.name)
    case GroupDescription => Note(g.description)
    case GroupRules => Ids(RuleIds(g.rules))
    case GroupTouched => At(g.updatedAt)
  }

  /** The first rule with an id. */
  function FirstRule(rules: seq<SecurityGroupRuleData>, id: string): Option<SecurityGroupRuleData> {
    if rules == [] then None
    else if rules[0].id == id then Some(rules[0])
    else FirstRule(rules[1..], id)
  }

  function RuleField(x: SecurityGroupRuleData, p: RulePart): Value {
    if p.RuleDescription? then Note(x.description)
    else Rule(x.direction, x.protocol, x.portRangeStart, x.portRangeEnd, x.cidr, x.createdAt)
  }

  function ReadRule(rules: seq<SecurityGroupRuleData>, id: string, p: RulePart): Option<Value> {
    var x := FirstRule(rules, id);
    if x.None? then None else Some(RuleField(x.value, p))
  }

  function Read(t: Tables, r: Register): Option<Value> {
    match r
    case OfNetwork(k, p) => if k in t.networks then Some(NetworkField(t.networks[k], p)) else None
    case OfNic(k, p) => if k in t.nics then Some(NicField(t.nics[k], p)) else None
    case OfVm(k, p) => if k in t.vms then Some(VmField(t.vms[k], p)) else None
    case OfGroup(k, p) => if k in t.groups then Some(GroupField(t.groups[k], p)) else None
    case OfRule(k, id, p) => if k in t.groups then ReadRule(t.groups[k].rules, id, p) else None
  }

  // ----------------------------------------------------------------- writing

  function NetworkEffect(op: ComputeOp, k: string, p: NetworkPart): Effect<Value> {
    match op
    case CreateNetwork(id, at, project, name, v4, prefix4, v6, prefix6, dns, ntp, public) => (
      if id != k then Keep else
      match p
      case NetworkBirth => Set(NetworkBorn(project, name, v4, prefix4, v6, prefix6, public, at))
      case NetworkServers => Set(Servers(dns, ntp))
      case NetworkTouched => Set(At(at)))
    case UpdateNetwork(id, at, dns, ntp) => (
      if id != k then Keep else
      match p
      case NetworkBirth => Keep
      case NetworkServers => Set(Servers(dns, ntp))
      case NetworkTouched => Set(At(at)))
    case DeleteNetwork(id, _) => if id == k then Erase else Keep
    case _ => Keep
  }

  /** A VM delete unlinks the NIC that the VM names if that NIC names the VM. */
  predicate Unlinks(t: Tables, vm: string, nic: string) {
    && vm in t.vms && t.vms[vm].spec.nicId == nic && nic != ""
    && nic in t.nics && t.nics[nic].spec.vmId == Some(vm)
  }

  function Relink(p: NicPart, vm: Option<string>, at: string): Effect<Value> {
    if p.NicLink? then Set(Note(vm)) else if p.NicTouched? then Set(At(at)) else Keep
  }

  function NicEffect(env: Env, t: Tables, op: ComputeOp, now: string, k: string, p: NicPart): Effect<Value> {
    match op
    case CreateNic(id, at, project, network, name, mac, v4, v6, routed4, routed6, group) => (
      if id != k then Keep else
      match p
      case NicBirth => Set(NicBorn(project, name, network, mac.GetOr(env.mac(id)), v4, v6, group, at))
      case NicRoutes => Set(Routed(routed4, routed6))
      case NicLink => Set(Note(None))
      case NicState => Set(NicReport(NicPending, None))
      case NicSocket => Set(Label(""))
      case NicTouched => Set(At(at)))
    case UpdateNic(id, at, routed4, routed6) =>
      if id != k then Keep
      else if p.NicRoutes? then Set(Routed(routed4, routed6))
      else if p.NicTouched? then Set(At(at)) else Keep
    case DeleteNic(id) => if id == k then Erase else Keep
    case DeleteNetwork(id, _) => if k in t.nics && t.nics[k].spec.networkId == id then Erase else Keep
    case AttachNic(id, at, vm) => if id == k then Relink(p, Some(vm), at) else Keep
    case DetachNic(id, at) => if id == k then Relink(p, None, at) else Keep
    case CreateVm(vm, at, spec) => if spec.nicId == k then Relink(p, Some(vm), at) else Keep
    case DeleteVm(vm) => if Unlinks(t, vm, k) then Relink(p, None, now) else Keep
    case UpdateNicStatus(id, at, phase, path, message) =>
      if id != k then Keep
      else if p.NicState? then Set(NicReport(phase, message))
      else if p.NicSocket? && path != "" then Set(Label(path))
      else if p.NicTouched? then Set(At(at)) else Keep
    case _ => Keep
  }

  function VmEffect(op: ComputeOp, k: string, p: VmPart): Effect<Value> {
    match op
    case CreateVm(id, at, s) => (
      if id != k then Keep else
      match p
      case VmBirth =>
        Set(VmBorn(s.projectSlug, s.name, s.nodeSelector, s.cpuCores, s.memoryMb, s.volumeId, s.nicId, s.image,
                   s.userData, at))
      case VmDesired => Set(Desired(s.desiredState))
      case VmState => Set(VmReport(VmStatus(VmPending, None, None, None)))
      case VmTouched => Set(At(at)))
    case UpdateVmSpec(id, at, state) =>
      if id != k then Keep
      else if p.VmDesired? then Set(Desired(state))
      else if p.VmTouched? then Set(At(at)) else Keep
    case UpdateVmStatus(id, at, status) =>
      if id != k then Keep
      else if p.VmState? then Set(VmReport(status))
      else if p.VmTouched? then Set(At(at)) else Keep
    case DeleteVm(id) => if id == k then Erase else Keep
    case _ => Keep
  }

  function GroupEffect(t: Tables, op: ComputeOp, k: string, p: GroupPart): Effect<Value> {
    match op
    case CreateSecurityGroup(id, at, project, name, description) => (
      if id != k then Keep else
      match p
      case GroupBirth => Set(Born(project, at))
      case GroupName => Set(Label(name))
      case GroupDescription => Set(Note(description))
      case GroupRules => Set(Ids([]))
      case GroupTouched => Set(At(at)))
    case UpdateSecurityGroup(id, at, name, description) =>
      if id != k then Keep
      else if p.GroupName? && name.Some? then Set(Label(name.value))
      else if p.GroupDescription? && description.Some? then Set(Note(description.value))
      else if p.GroupTouched? then Set(At(at)) else Keep
    case DeleteSecurityGroup(id) => if id == k then Erase else Keep
    case CreateSecurityGroupRule(rule, at, id, _, _, _, _, _, _) =>
      if id != k || id !in t.groups then Keep
      else if p.GroupRules? then Set(Ids(RuleIds(t.groups[id].rules) + [rule]))
      else if p.GroupTouched? then Set(At(at)) else Keep
    case DeleteSecurityGroupRule(id, rule) =>
      if id == k && id in t.groups && p.GroupRules? then Set(Ids(Without(RuleIds(t.groups[id].rules), rule)))
      else Keep
    case UpdateSecurityGroupRule(at, id, _, _) => if id == k && p.GroupTouched? then Set(At(at)) else Keep
    case _ => Keep
  }

  function RuleEffect(op: ComputeOp, k: string, ruleId: string, p: RulePart): Effect<Value> {
    match op
    case DeleteSecurityGroup(id) => if id == k then Erase else Keep
    case CreateSecurityGroupRule(rule, at, id, direction, protocol, start, end, cidr, description) =>
      if id != k || rule != ruleId then Keep
      else if p.RuleBirth? then Set(Rule(direction, protocol, start, end, cidr, at))
      else Set(Note(description))
    case DeleteSecurityGroupRule(id, rule) => if id == k && rule == ruleId then Erase else Keep
    case UpdateSecurityGroupRule(_, id, rule, description) =>
      if id == k && rule == ruleId && p.RuleDescription? && description.Some? then Set(Note(description.value))
      else Keep
    case _ => Keep
  }

  function EffectOf(env: Env, t: Tables, op: ComputeOp, now: string, r: Register): Effect<Value> {
    match r
    case OfNetwork(k, p) => NetworkEffect(op, k, p)
    case OfNic(k, p) => NicEffect(env, t, op, now, k, p)
    case OfVm(k, p) => VmEffect(op, k, p)
    case OfGroup(k, p) => GroupEffect(t, op, k, p)
    case OfRule(k, id, p) => RuleEffect(op, k, id, p)
  }

  ghost predicate Writes(env: Env, t: Tables, op: ComputeOp, now: string, r: Register, out: Outcome<Tables>) {
    out.Commit? ==> Read(out.tables, r) == EffectOf(env, t, op, now, r).On(Read(t, r))
  }

  // ------------------------------------------------------------------ proofs

  lemma NetworkStepWrites(env: Env, t: Tables, op: ComputeOp, now: string, r: Register)
    requires IsNetworkOp(op)
    ensures Writes(env, t, op, now, r, NetworkStep(t, op))
  {
    hide ScanKeys, NicDeletions, ReadRule;
  }

  lemma NewNicWrites(env: Env, t: Tables, op: ComputeOp, now: string, r: Register)
    requires op.CreateNic?
    ensures Writes(env, t, op, now, r, ApplyCreateNic(env, t, op))
  {
    hide ReadRule;
  }

  lemma DeleteNicWrites(env: Env, t: Tables, op: ComputeOp, now: string, r: Register)
    requires op.DeleteNic?
    ensures Writes(env, t, op, now, r, ApplyDeleteNic(t, op))
  {
    hide ReadRule;
  }

  lemma NicStepWrites(env: Env, t: Tables, op: ComputeOp, now: string, r: Register)
    requires IsNicOp(op)
    ensures Writes(env, t, op, now, r, NicStep(env, t, op))
  {
    hide ApplyCreateNic, ApplyDeleteNic;
    if op.CreateNic? {
      hide Writes;
      NewNicWrites(env, t, op, now, r);
    } else if op.DeleteNic? {
      hide Writes;
      DeleteNicWrites(env, t, op, now, r);
    } else {
      hide ReadRule;
    }
  }

  lemma NewVmWrites(env: Env, t: Tables, op: ComputeOp, now: string, r: Register)
    requires op.CreateVm?
    ensures Writes(env, t, op, now, r, ApplyCreateVm(t, op))
  {
    hide ReadRule;
  }

  lemma VmStepWrites(env: Env, t: Tables, op: ComputeOp, now: string, r: Register)
    requires IsVmOp(op)
    ensures Writes(env, t, op, now, r, VmStep(t, op, now))
  {
    hide ReadRule, ApplyCreateVm;
    if op.CreateVm? {
      hide Writes;
      NewVmWrites(env, t, op, now, r);
    }
  }

  lemma {:induction false} FirstIsThere(rules: seq<SecurityGroupRuleData>, id: string)
    ensures HasRule(rules, id) <==> FirstRule(rules, id).Some?
  {
    if rules != [] {
      FirstIsThere(rules[1..], id);
      assert rules == [rules[0]] + rules[1..];
    }
  }

  lemma {:induction false} FirstAfterAppend(rules: seq<SecurityGroupRuleData>, x: SecurityGroupRuleData, id: string)
    ensures FirstRule(rules + [x], id)
            == if FirstRule(rules, id).None? && x.id == id then Some(x) else FirstRule(rules, id)
  {
    if rules == [] {
      assert [x][1..] == [];
    } else {
      FirstAfterAppend(rules[1..], x, id);
      assert (rules + [x])[1..] == rules[1..] + [x];
    }
  }

  lemma {:induction false} FirstAfterRemoval(rules: seq<SecurityGroupRuleData>, out: string, id: string)
    ensures FirstRule(WithoutRule(rules, out), id) == if id == out then None else FirstRule(rules, id)
  {
    if rules != [] {
      FirstAfterRemoval(rules[1..], out, id);
      var rest := WithoutRule(rules[1..], out);
      assert WithoutRule(rules, out) == if rules[0].id == out then rest else [rules[0]] + rest;
    }
  }

  lemma {:induction false} IdsAfterRemoval(rules: seq<SecurityGroupRuleData>, out: string)
    ensures RuleIds(WithoutRule(rules, out)) == Without(RuleIds(rules), out)
  {
    if rules != [] {
      IdsAfterRemoval(rules[1..], out);
      assert RuleIds(rules)[1..] == RuleIds(rules[1..]);
      var rest := WithoutRule(rules[1..], out);
      assert RuleIds([rules[0]] + rest) == [rules[0].id] + RuleIds(rest);
      assert WithoutRule(rules, out) == if rules[0].id == out then rest else [rules[0]] + rest;
    }
  }

  function Described(x: Option<SecurityGroupRuleData>, d: Option<string>): Option<SecurityGroupRuleData> {
    if x.None? then None else Some(x.value.(description := d))
  }

  lemma {:induction false} FirstAfterDescription(rules: seq<SecurityGroupRuleData>, rule: string, d: Option<string>,
                                                 id: string)
    ensures FirstRule(DescribeRule(rules, rule, d), id)
            == if id == rule then Described(FirstRule(rules, id), d) else FirstRule(rules, id)
  {
    if rules != [] {
      var after := DescribeRule(rules, rule, d);
      FirstAfterDescription(rules[1..], rule, d, id);
      assert after[1..] == if rules[0].id == rule then rules[1..] else DescribeRule(rules[1..], rule, d);
    }
  }

  lemma {:induction false} DescriptionKeepsIds(rules: seq<SecurityGroupRuleData>, rule: string, d: Option<string>)
    ensures |DescribeRule(rules, rule, d)| == |rules|
    ensures forall i :: 0 <= i < |rules| ==> DescribeRule(rules, rule, d)[i].id == rules[i].id
  {
    if rules != [] {
      DescriptionKeepsIds(rules[1..], rule, d);
    }
  }

  lemma IdsAfterDescription(rules: seq<SecurityGroupRuleData>, rule: string, d: Option<string>)
    ensures RuleIds(DescribeRule(rules, rule, d)) == RuleIds(rules)
  {
    DescriptionKeepsIds(rules, rule, d);
  }

  lemma GroupStepWrites(env: Env, t: Tables, projects: set<string>, op: ComputeOp, now: string, r: Register)
    requires op.CreateSecurityGroup? || op.UpdateSecurityGroup? || op.DeleteSecurityGroup?
    ensures Writes(env, t, op, now, r, GroupStep(t, projects, op))
  {
    hide NicsOf, GroupNameTaken, RuleIds;
    assert RuleIds([]) == [] by { EmptyRuleIds(); }
  }

  lemma EmptyRuleIds()
    ensures RuleIds([]) == []
  {
  }

  lemma NewRuleWrites(env: Env, t: Tables, op: ComputeOp, now: string, r: Register)
    requires op.CreateSecurityGroupRule?
    ensures Writes(env, t, op, now, r, ApplyCreateSecurityGroupRule(t, op))
  {
    hide FirstRule, HasRule, RuleIds;
    if op.securityGroupId in t.groups {
      var rules := t.groups[op.securityGroupId].rules;
      var x := SecurityGroupRuleData(op.id, op.direction, op.protocol, op.portRangeStart,
                                     op.portRangeEnd, op.cidr, op.description, op.timestamp);
      IdsAfterAppend(rules, x);
      FirstIsThere(rules, op.id);
      if r.OfRule? { FirstAfterAppend(rules, x, r.ruleId); }
    }
  }

  lemma IdsAfterAppend(rules: seq<SecurityGroupRuleData>, x: SecurityGroupRuleData)
    ensures RuleIds(rules + [x]) == RuleIds(rules) + [x.id]
  {
  }

  lemma DeleteRuleWrites(env: Env, t: Tables, op: ComputeOp, now: string, r: Register)
    requires op.DeleteSecurityGroupRule?
    ensures Writes(env, t, op, now, r, ApplyDeleteSecurityGroupRule(t, op))
  {
    hide FirstRule, HasRule, RuleIds, WithoutRule;
    if op.securityGroupId in t.groups {
      var rules := t.groups[op.securityGroupId].rules;
      IdsAfterRemoval(rules, op.ruleId);
      if r.OfRule? { FirstAfterRemoval(rules, op.ruleId, r.ruleId); }
    }
  }

  lemma UpdateRuleWrites(env: Env, t: Tables, op: ComputeOp, now: string, r: Register)
    requires op.UpdateSecurityGroupRule?
    ensures Writes(env, t, op, now, r, ApplyUpdateSecurityGroupRule(t, op))
  {
    hide FirstRule, HasRule, RuleIds, DescribeRule;
    if op.securityGroupId in t.groups && op.newDescription.Some? {
      var rules, d := t.groups[op.securityGroupId].rules, op.newDescription.value;
      IdsAfterDescription(rules, op.ruleId, d);
      FirstIsThere(rules, op.ruleId);
      if r.OfRule? { FirstAfterDescription(rules, op.ruleId, d, r.ruleId); }
    }
  }

  /** One command, every register. */
  lemma StepWrites(env: Env, t: Tables, projects: set<string>, op: ComputeOp, now: string, r: Register)
    ensures Writes(env, t, op, now, r, Step(env, t, projects, op, now))
  {
    hide Writes, NetworkStep, NicStep, VmStep;
    hide ApplyCreateSecurityGroup, ApplyUpdateSecurityGroup, ApplyDeleteSecurityGroup;
    hide ApplyCreateSecurityGroupRule, ApplyDeleteSecurityGroupRule, ApplyUpdateSecurityGroupRule;
    if IsNetworkOp(op) { NetworkStepWrites(env, t, op, now, r); }
    else if IsNicOp(op) { NicStepWrites(env, t, op, now, r); }
    else if IsVmOp(op) { VmStepWrites(env, t, op, now, r); }
    else if op.CreateSecurityGroupRule? { NewRuleWrites(env, t, op, now, r); }
    else if op.DeleteSecurityGroupRule? { DeleteRuleWrites(env, t, op, now, r); }
    else if op.UpdateSecurityGroupRule? { UpdateRuleWrites(env, t, op, now, r); }
    else { GroupStepWrites(env, t, projects, op, now, r); }
  }
}
