/** The link from a NIC to its VM, which only the VM's own NIC should carry,
    and the names that must be unique within a project. */
module BackLinks {
  import opened Basics
  import opened Types
  import opened Compute

  /** A linked NIC names a live VM whose spec names that NIC. */
  ghost predicate BackLinked(t: Tables) {
    forall k :: k in t.nics && t.nics[k].spec.vmId.Some? ==>
      t.nics[k].spec.vmId.value in t.vms && t.vms[t.nics[k].spec.vmId.value].spec.nicId == k
  }

  /** The two commands that can break the link: attaching a NIC to a VM created
      for another NIC, and deleting a VM whose NIC has the empty id (the release
      is skipped when `spec.nic_id` is empty). */
  predicate Strands(t: Tables, op: ComputeOp) {
    || (op.AttachNic? && op.id in t.nics && t.nics[op.id].spec.vmId.None?
        && op.vmId in t.vms && t.vms[op.vmId].spec.nicId != op.id)
    || (op.DeleteVm? && op.id in t.vms && t.vms[op.id].spec.nicId == ""
        && "" in t.nics && t.nics[""].spec.vmId == Some(op.id))
  }

  lemma NewNicLinks(env: Env, t: Tables, op: ComputeOp)
    requires op.CreateNic? && BackLinked(t)
    ensures var out := ApplyCreateNic(env, t, op);
      out.Commit? ==> BackLinked(out.tables)
  {
  }

  lemma EditNicLinks(env: Env, t: Tables, op: ComputeOp)
    requires (op.UpdateNic? || op.DetachNic? || op.UpdateNicStatus?) && BackLinked(t)
    ensures var out := NicStep(env, t, op);
      out.Commit? ==> BackLinked(out.tables)
  {
    hide ApplyCreateNic, ApplyDeleteNic, ApplyAttachNic;
  }

  lemma DeleteNicLinks(t: Tables, op: ComputeOp)
    requires op.DeleteNic? && BackLinked(t)
    ensures var out := ApplyDeleteNic(t, op);
      out.Commit? ==> BackLinked(out.tables)
  {
  }

  lemma NicStepLinks(env: Env, t: Tables, op: ComputeOp)
    requires IsNicOp(op) && !op.AttachNic? && BackLinked(t)
    ensures var out := NicStep(env, t, op);
      out.Commit? ==> BackLinked(out.tables)
  {
    hide BackLinked, ApplyCreateNic, ApplyUpdateNic, ApplyDeleteNic, ApplyDetachNic, ApplyUpdateNicStatus;
    if op.CreateNic? {
      NewNicLinks(env, t, op);
    } else if op.DeleteNic? {
      DeleteNicLinks(t, op);
    } else {
      EditNicLinks(env, t, op);
    }
  }

  lemma AttachNicLinks(t: Tables, op: ComputeOp)
    requires op.AttachNic? && BackLinked(t)
    ensures var out := ApplyAttachNic(t, op);
      out.Commit? ==> (BackLinked(out.tables) <==> !Strands(t, op))
  {
    var out := ApplyAttachNic(t, op);
    if out.Commit? && Strands(t, op) {
      assert op.id in out.tables.nics && out.tables.nics[op.id].spec.vmId == Some(op.vmId);
    }
  }

  lemma VmStepLinks(t: Tables, op: ComputeOp, now: string)
    requires IsVmOp(op) && !op.DeleteVm? && BackLinked(t)
    ensures var out := VmStep(t, op, now);
      out.Commit? ==> BackLinked(out.tables)
  {
  }

  lemma DeleteVmLinks(t: Tables, op: ComputeOp, now: string)
    requires op.DeleteVm? && BackLinked(t)
    ensures var out := ApplyDeleteVm(t, op, now);
      out.Commit? ==> (BackLinked(out.tables) <==> !Strands(t, op))
  {
    var out := ApplyDeleteVm(t, op, now);
    if out.Commit? && Strands(t, op) {
      assert "" in out.tables.nics && out.tables.nics[""].spec.vmId == Some(op.id);
    }
  }

  lemma NetworkStepLinks(t: Tables, op: ComputeOp)
    requires IsNetworkOp(op) && BackLinked(t)
    ensures var out := NetworkStep(t, op);
      out.Commit? ==> BackLinked(out.tables)
  {
  }

  lemma GroupStepLinks(t: Tables, projects: set<string>, op: ComputeOp)
    requires !IsNetworkOp(op) && !IsNicOp(op) && !IsVmOp(op) && BackLinked(t)
    ensures var out := GroupStep(t, projects, op);
      out.Commit? ==> BackLinked(out.tables)
  {
    assert GroupStep(t, projects, op).Commit? ==>
      GroupStep(t, projects, op).tables.nics == t.nics && GroupStep(t, projects, op).tables.vms == t.vms;
  }

  /** A command keeps every NIC linked to its own live VM exactly when it is
      neither of the two that strand one. */
  lemma StepKeepsLinksIff(env: Env, t: Tables, projects: set<string>, op: ComputeOp, now: string)
    requires BackLinked(t)
    ensures var out := Step(env, t, projects, op, now);
      out.Commit? ==> (BackLinked(out.tables) <==> !Strands(t, op))
  {
    hide BackLinked, NetworkStep, GroupStep;
    if IsNetworkOp(op) { NetworkStepLinks(t, op); }
    else if op.AttachNic? { AttachNicLinks(t, op); }
    else if IsNicOp(op) { NicStepLinks(env, t, op); }
    else if op.DeleteVm? { DeleteVmLinks(t, op, now); }
    else if IsVmOp(op) { VmStepLinks(t, op, now); }
    else { GroupStepLinks(t, projects, op); }
  }

  /** No two NICs claim one VM. */
  lemma LinksAreExclusive(t: Tables, a: string, b: string)
    requires BackLinked(t) && a in t.nics && b in t.nics
    requires t.nics[a].spec.vmId.Some? && t.nics[a].spec.vmId == t.nics[b].spec.vmId
    ensures a == b
  {
  }

  /** Deleting a VM clears the link of the NIC that points at it, and changes
      no other NIC. */
  lemma DeleteVmFreesItsNic(t: Tables, op: ComputeOp, now: string, k: string)
    requires op.DeleteVm? && BackLinked(t) && !Strands(t, op) && op.id in t.vms && k in t.nics
    ensures var out := ApplyDeleteVm(t, op, now);
      && out.Commit? && op.id !in out.tables.vms && out.tables.nics.Keys == t.nics.Keys
      && (t.nics[k].spec.vmId == Some(op.id) ==>
            out.tables.nics[k].spec == t.nics[k].spec.(vmId := None)
            && out.tables.nics[k].status == t.nics[k].status)
      && (t.nics[k].spec.vmId != Some(op.id) ==> out.tables.nics[k] == t.nics[k])
  {
  }

  // ------------------------------------------------------------------ names

  ghost predicate NamesUnique(t: Tables) {
    && (forall j, k :: j in t.networks && k in t.networks && j != k ==>
          t.networks[j].projectSlug != t.networks[k].projectSlug || t.networks[j].name != t.networks[k].name)
    && (forall j, k :: j in t.vms && k in t.vms && j != k ==>
          t.vms[j].spec.projectSlug != t.vms[k].spec.projectSlug || t.vms[j].spec.name != t.vms[k].spec.name)
  }

  ghost predicate GroupNamesUnique(t: Tables) {
    forall j, k :: j in t.groups && k in t.groups && j != k ==>
      t.groups[j].projectSlug != t.groups[k].projectSlug || t.groups[j].name != t.groups[k].name
  }

  /** A rename to a name another group of the project has. */
  predicate RenameCollides(t: Tables, op: ComputeOp) {
    op.UpdateSecurityGroup? && op.id in t.groups && op.newName.Some?
    && exists k :: k in t.groups && k != op.id
                   && t.groups[k].projectSlug == t.groups[op.id].projectSlug
                   && t.groups[k].name == op.newName.value
  }

  predicate SameNetworkName(a: NetworkData, b: NetworkData) {
    a.projectSlug == b.projectSlug && a.name == b.name
  }

  predicate SameGroupName(a: SecurityGroupData, b: SecurityGroupData) {
    a.projectSlug == b.projectSlug && a.name == b.name
  }

  ghost predicate SameGroupNames(t: Tables, u: Tables) {
    u.groups.Keys == t.groups.Keys && forall k :: k in t.groups ==> SameGroupName(t.groups[k], u.groups[k])
  }

  lemma NicStepNames(env: Env, t: Tables, op: ComputeOp)
    requires IsNicOp(op)
    ensures var out := NicStep(env, t, op);
      out.Commit? ==>
        && out.tables.vms == t.vms
        && out.tables.networks.Keys == t.networks.Keys
        && forall k :: k in t.networks ==> SameNetworkName(t.networks[k], out.tables.networks[k])
  {
  }

  lemma NicStepGroupNames(env: Env, t: Tables, op: ComputeOp)
    requires IsNicOp(op)
    ensures var out := NicStep(env, t, op);
      out.Commit? ==> SameGroupNames(t, out.tables)
  {
  }

  lemma NetworkStepNames(t: Tables, op: ComputeOp)
    requires IsNetworkOp(op) && NamesUnique(t)
    ensures var out := NetworkStep(t, op); out.Commit? ==> NamesUnique(out.tables)
  {
    hide ScanKeys, NicDeletions, NicsIn;
  }

  lemma NetworkStepGroups(t: Tables, op: ComputeOp)
    requires IsNetworkOp(op)
    ensures var out := NetworkStep(t, op); out.Commit? ==> out.tables.groups == t.groups
  {
  }

  lemma VmStepNames(t: Tables, op: ComputeOp, now: string)
    requires IsVmOp(op) && NamesUnique(t)
    ensures var out := VmStep(t, op, now); out.Commit? ==> NamesUnique(out.tables)
  {
  }

  lemma VmStepGroups(t: Tables, op: ComputeOp, now: string)
    requires IsVmOp(op)
    ensures var out := VmStep(t, op, now); out.Commit? ==> out.tables.groups == t.groups
  {
  }

  lemma GroupStepOthers(t: Tables, projects: set<string>, op: ComputeOp)
    requires !IsNetworkOp(op) && !IsNicOp(op) && !IsVmOp(op)
    ensures var out := GroupStep(t, projects, op);
      out.Commit? ==> out.tables.networks == t.networks && out.tables.vms == t.vms
  {
  }

  lemma GroupStepNames(t: Tables, projects: set<string>, op: ComputeOp)
    requires !IsNetworkOp(op) && !IsNicOp(op) && !IsVmOp(op) && GroupNamesUnique(t)
    ensures var out := GroupStep(t, projects, op);
      out.Commit? ==> (GroupNamesUnique(out.tables) <==> !RenameCollides(t, op))
  {
    var out := GroupStep(t, projects, op);
    if out.Commit? && RenameCollides(t, op) {
      var k :| k in t.groups && k != op.id && t.groups[k].projectSlug == t.groups[op.id].projectSlug
               && t.groups[k].name == op.newName.value;
      assert k in out.tables.groups && op.id in out.tables.groups;
    }
  }

  /** Network and VM names stay unique per project under every command. */
  lemma StepKeepsNames(env: Env, t: Tables, projects: set<string>, op: ComputeOp, now: string)
    requires NamesUnique(t)
    ensures var out := Step(env, t, projects, op, now); out.Commit? ==> NamesUnique(out.tables)
  {
    hide NetworkStep, NicStep, VmStep, GroupStep;
    if IsNetworkOp(op) { NetworkStepNames(t, op); }
    else if IsNicOp(op) { NicStepNames(env, t, op); }
    else if IsVmOp(op) { VmStepNames(t, op, now); }
    else { GroupStepOthers(t, projects, op); }
  }

  /** Security-group names stay unique exactly when no rename collides. */
  lemma StepKeepsGroupNamesIff(env: Env, t: Tables, projects: set<string>, op: ComputeOp, now: string)
    requires GroupNamesUnique(t)
    ensures var out := Step(env, t, projects, op, now);
      out.Commit? ==> (GroupNamesUnique(out.tables) <==> !RenameCollides(t, op))
  {
    hide NetworkStep, NicStep, VmStep, GroupStep;
    if IsNetworkOp(op) { NetworkStepGroups(t, op); }
    else if IsNicOp(op) { NicStepGroupNames(env, t, op); }
    else if IsVmOp(op) { VmStepGroups(t, op, now); }
    else { GroupStepNames(t, projects, op); }
  }
}
