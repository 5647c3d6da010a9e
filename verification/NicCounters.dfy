/** The denormalised NIC counters: what a network's and a security group's
    `nic_count` say about the NIC table, in every state a run can reach. */
module NicCounters {
  import opened Basics
  import opened Types
  import opened Compute

  ghost predicate WellKeyed(t: Tables) {
    && (forall k :: k in t.networks ==> t.networks[k].id == k)
    && (forall k :: k in t.nics ==> t.nics[k].id == k)
    && (forall k :: k in t.groups ==> t.groups[k].id == k)
    && (forall k :: k in t.vms ==> t.vms[k].id == k)
  }

  /** Every NIC's network and security group exist. */
  ghost predicate NoDanglingNic(t: Tables) {
    forall k :: k in t.nics ==>
      && t.nics[k].spec.networkId in t.networks
      && (t.nics[k].spec.securityGroupId.Some? ==> t.nics[k].spec.securityGroupId.value in t.groups)
  }

  ghost predicate NetworkCountsExact(t: Tables) {
    forall n :: n in t.networks ==> t.networks[n].nicCount == |NicsIn(t.nics, n)|
  }

  /** `leaks[g]` counts the references to group `g` that its counter still
      includes although the NIC is gone. */
  ghost predicate GroupCountsExplained(t: Tables, leaks: map<string, nat>) {
    && leaks.Keys == t.groups.Keys
    && forall g :: g in t.groups ==> t.groups[g].nicCount == |NicsOf(t.nics, g)| + leaks[g]
  }

  ghost predicate Sound(t: Tables, leaks: map<string, nat>) {
    WellKeyed(t) && NoDanglingNic(t) && NetworkCountsExact(t) && GroupCountsExplained(t, leaks)
  }

  ghost function NewLeaks(t: Tables, op: ComputeOp, g: string): nat {
    if op.DeleteNetwork? then |NicsOf(t.nics, g) * NicsIn(t.nics, op.id)| else 0
  }

  /** A network delete removes its NICs without touching the groups they carry:
      that is the only way a reference leaks. A new group starts without leaks. */
  ghost function LeaksAfter(leaks: map<string, nat>, t: Tables, op: ComputeOp, out: Outcome<Tables>)
    : map<string, nat>
  {
    if out.Early? then
      leaks
    else
      map g | g in out.tables.groups ::
        (if g in leaks then leaks[g] else 0) + NewLeaks(t, op, g)
  }

  // ------------------------------------------------------------ small steps

  predicate SameReference(a: NicData, b: NicData) {
    && b.id == a.id
    && b.spec.networkId == a.spec.networkId
    && b.spec.securityGroupId == a.spec.securityGroupId
  }

  /** Rewriting NIC rows without moving them to another network or group. */
  lemma SameReferences(a: map<string, NicData>, b: map<string, NicData>)
    requires a.Keys == b.Keys
    requires forall k :: k in a ==> SameReference(a[k], b[k])
    ensures forall n :: NicsIn(a, n) == NicsIn(b, n)
    ensures forall g :: NicsOf(a, g) == NicsOf(b, g)
  {
    assert forall k :: k in a <==> k in b;
  }

  lemma InsertedOnNetwork(nics: map<string, NicData>, id: string, nic: NicData, n: string)
    requires id !in nics
    ensures |NicsIn(nics[id := nic], n)|
            == |NicsIn(nics, n)| + (if nic.spec.networkId == n then 1 else 0)
  {
    if nic.spec.networkId == n {
      assert NicsIn(nics[id := nic], n) == NicsIn(nics, n) + {id};
    } else {
      assert NicsIn(nics[id := nic], n) == NicsIn(nics, n);
    }
  }

  lemma InsertedInGroup(nics: map<string, NicData>, id: string, nic: NicData, g: string)
    requires id !in nics
    ensures |NicsOf(nics[id := nic], g)|
            == |NicsOf(nics, g)| + (if nic.spec.securityGroupId == Some(g) then 1 else 0)
  {
    if nic.spec.securityGroupId == Some(g) {
      assert NicsOf(nics[id := nic], g) == NicsOf(nics, g) + {id};
    } else {
      assert NicsOf(nics[id := nic], g) == NicsOf(nics, g);
    }
  }

  lemma RemovedNic(nics: map<string, NicData>, id: string)
    requires id in nics
    ensures (nics - {id})[id := nics[id]] == nics
  {
  }

  lemma RemovedNetwork(nics: map<string, NicData>, id: string, n: string)
    requires n != id
    ensures NicsIn(nics - NicsIn(nics, id), n) == NicsIn(nics, n)
  {
  }

  lemma RemovedNetworkLeaks(nics: map<string, NicData>, id: string, g: string)
    ensures |NicsOf(nics, g)|
            == |NicsOf(nics - NicsIn(nics, id), g)| + |NicsOf(nics, g) * NicsIn(nics, id)|
  {
    var gone := NicsOf(nics, g) * NicsIn(nics, id);
    assert NicsOf(nics - NicsIn(nics, id), g) == NicsOf(nics, g) - gone;
  }

  lemma NoNewLeaks(leaks: map<string, nat>, t: Tables, op: ComputeOp, out: Outcome<Tables>)
    requires out.Commit? && !op.DeleteNetwork? && out.tables.groups.Keys == leaks.Keys
    ensures LeaksAfter(leaks, t, op, out) == leaks
  {
  }

  // -------------------------------------------- commands that move no NIC

  /** A change that moves no NIC, renames no row and touches no counter. */
  ghost predicate Quiet(t: Tables, u: Tables) {
    && u.nics.Keys == t.nics.Keys
    && u.networks.Keys == t.networks.Keys
    && u.groups.Keys == t.groups.Keys
    && (forall k :: k in t.nics ==> SameReference(t.nics[k], u.nics[k]))
    && (forall k :: k in t.networks ==>
          u.networks[k].id == t.networks[k].id && u.networks[k].nicCount == t.networks[k].nicCount)
    && (forall k :: k in t.groups ==>
          u.groups[k].id == t.groups[k].id && u.groups[k].nicCount == t.groups[k].nicCount)
    && (forall k :: k in u.vms ==> u.vms[k].id == if k in t.vms then t.vms[k].id else k)
  }

  lemma QuietKeepsSound(t: Tables, op: ComputeOp, out: Outcome<Tables>, leaks: map<string, nat>)
    requires out.Commit? && Quiet(t, out.tables) && Sound(t, leaks) && !op.DeleteNetwork?
    ensures Sound(out.tables, LeaksAfter(leaks, t, op, out))
  {
    hide NicsIn, NicsOf, LeaksAfter;
    SameReferences(t.nics, out.tables.nics);
    NoNewLeaks(leaks, t, op, out);
  }

  lemma NicEditIsQuiet(env: Env, t: Tables, op: ComputeOp)
    requires IsNicOp(op) && !op.CreateNic? && !op.DeleteNic?
    ensures var out := NicStep(env, t, op);
      out.Commit? ==> Quiet(t, out.tables)
  {
  }

  lemma VmStepIsQuiet(t: Tables, op: ComputeOp, now: string)
    requires IsVmOp(op)
    ensures var out := VmStep(t, op, now);
      out.Commit? ==> Quiet(t, out.tables)
  {
  }

  lemma GroupEditIsQuiet(t: Tables, projects: set<string>, op: ComputeOp)
    requires op.UpdateSecurityGroup? || op.CreateSecurityGroupRule? || op.DeleteSecurityGroupRule?
             || op.UpdateSecurityGroupRule?
    ensures var out := GroupStep(t, projects, op);
      out.Commit? ==> Quiet(t, out.tables)
  {
  }

  lemma UpdateNetworkIsQuiet(t: Tables, op: ComputeOp)
    requires op.UpdateNetwork?
    ensures var out := ApplyUpdateNetwork(t, op);
      out.Commit? ==> Quiet(t, out.tables)
  {
  }

  // -------------------------------------------------- commands that move NICs

  lemma NicMoveKeepsReferences(env: Env, t: Tables, op: ComputeOp)
    requires op.CreateNic? || op.DeleteNic?
    requires WellKeyed(t) && NoDanglingNic(t)
    ensures var out := NicStep(env, t, op);
      out.Commit? ==> WellKeyed(out.tables) && NoDanglingNic(out.tables)
  {
  }

  lemma NicMoveKeepsNetworkCount(env: Env, t: Tables, op: ComputeOp, n: string)
    requires op.CreateNic? || op.DeleteNic?
    requires n in t.networks && t.networks[n].nicCount == |NicsIn(t.nics, n)|
    ensures var out := NicStep(env, t, op);
      out.Commit? ==> out.tables.networks.Keys == t.networks.Keys
                      && out.tables.networks[n].nicCount == |NicsIn(out.tables.nics, n)|
  {
    hide NicsIn, NicsOf;
    var out := NicStep(env, t, op);
    if out.Commit? && op.CreateNic? {
      InsertedOnNetwork(t.nics, op.id, out.tables.nics[op.id], n);
    } else if out.Commit? {
      RemovedNic(t.nics, op.id);
      InsertedOnNetwork(out.tables.nics, op.id, t.nics[op.id], n);
    }
  }

  lemma NicMoveKeepsGroupCount(env: Env, t: Tables, op: ComputeOp, g: string, leaked: nat)
    requires op.CreateNic? || op.DeleteNic?
    requires g in t.groups && t.groups[g].nicCount == |NicsOf(t.nics, g)| + leaked
    ensures var out := NicStep(env, t, op);
      out.Commit? ==> out.tables.groups.Keys == t.groups.Keys
                      && out.tables.groups[g].nicCount == |NicsOf(out.tables.nics, g)| + leaked
  {
    hide NicsIn, NicsOf;
    var out := NicStep(env, t, op);
    if out.Commit? && op.CreateNic? {
      InsertedInGroup(t.nics, op.id, out.tables.nics[op.id], g);
    } else if out.Commit? {
      RemovedNic(t.nics, op.id);
      InsertedInGroup(out.tables.nics, op.id, t.nics[op.id], g);
    }
  }

  lemma NicMoveKeepsKeys(env: Env, t: Tables, op: ComputeOp)
    requires op.CreateNic? || op.DeleteNic?
    ensures var out := NicStep(env, t, op);
      out.Commit? ==> out.tables.groups.Keys == t.groups.Keys && out.tables.networks.Keys == t.networks.Keys
  {
  }

  lemma NicMoveKeepsSound(env: Env, t: Tables, op: ComputeOp, leaks: map<string, nat>)
    requires op.CreateNic? || op.DeleteNic?
    requires Sound(t, leaks)
    ensures var out := NicStep(env, t, op);
      out.Commit? ==> Sound(out.tables, LeaksAfter(leaks, t, op, out))
  {
    hide NicStep, NicsIn, NicsOf, LeaksAfter;
    var out := NicStep(env, t, op);
    if out.Commit? {
      var u := out.tables;
      NicMoveKeepsReferences(env, t, op);
      NicMoveKeepsKeys(env, t, op);
      NoNewLeaks(leaks, t, op, out);
      forall n | n in u.networks ensures u.networks[n].nicCount == |NicsIn(u.nics, n)| {
        NicMoveKeepsNetworkCount(env, t, op, n);
      }
      forall g | g in u.groups ensures u.groups[g].nicCount == |NicsOf(u.nics, g)| + leaks[g] {
        NicMoveKeepsGroupCount(env, t, op, g, leaks[g]);
      }
    }
  }

  lemma DeleteNetworkKeepsReferences(t: Tables, op: ComputeOp)
    requires op.DeleteNetwork? && WellKeyed(t) && NoDanglingNic(t)
    ensures var out := ApplyDeleteNetwork(t, op);
      out.Commit? ==> WellKeyed(out.tables) && NoDanglingNic(out.tables)
  {
  }

  lemma DeleteNetworkLeaksGroups(t: Tables, op: ComputeOp, leaks: map<string, nat>)
    requires op.DeleteNetwork? && Sound(t, leaks)
    ensures var out := ApplyDeleteNetwork(t, op);
      out.Commit? ==> Sound(out.tables, LeaksAfter(leaks, t, op, out))
  {
    var out := ApplyDeleteNetwork(t, op);
    DeleteNetworkKeepsReferences(t, op);
    hide NicsIn, NicsOf, NoDanglingNic, WellKeyed, ScanKeys, NicDeletions;
    if out.Commit? {
      var u := out.tables;
      forall n | n in u.networks ensures u.networks[n].nicCount == |NicsIn(u.nics, n)| {
        RemovedNetwork(t.nics, op.id, n);
      }
      forall g | g in u.groups
        ensures u.groups[g].nicCount == |NicsOf(u.nics, g)| + LeaksAfter(leaks, t, op, out)[g]
      {
        RemovedNetworkLeaks(t.nics, op.id, g);
      }
    }
  }

  lemma CreateNetworkKeepsSound(t: Tables, op: ComputeOp, leaks: map<string, nat>)
    requires op.CreateNetwork? && Sound(t, leaks)
    ensures var out := ApplyCreateNetwork(t, op);
      out.Commit? ==> Sound(out.tables, LeaksAfter(leaks, t, op, out))
  {
    var out := ApplyCreateNetwork(t, op);
    if out.Commit? {
      assert NicsIn(t.nics, op.id) == {};
      hide NicsIn, NicsOf, LeaksAfter;
      NoNewLeaks(leaks, t, op, out);
    }
  }

  lemma CreateGroupKeepsSound(t: Tables, projects: set<string>, op: ComputeOp, leaks: map<string, nat>)
    requires op.CreateSecurityGroup? && Sound(t, leaks)
    ensures var out := ApplyCreateSecurityGroup(t, projects, op);
      out.Commit? ==> Sound(out.tables, LeaksAfter(leaks, t, op, out))
  {
    if op.id !in t.groups {
      assert NicsOf(t.nics, op.id) == {};
    }
  }

  lemma DeleteGroupKeepsSound(t: Tables, op: ComputeOp, leaks: map<string, nat>)
    requires op.DeleteSecurityGroup? && Sound(t, leaks)
    ensures var out := ApplyDeleteSecurityGroup(t, op);
      out.Commit? ==> Sound(out.tables, LeaksAfter(leaks, t, op, out))
  {
    assert forall k :: k in t.nics && t.nics[k].spec.securityGroupId == Some(op.id)
                       ==> k in NicsOf(t.nics, op.id);
  }

  /** Every command keeps references intact, network counters exact, and
      group counters explained by the leaks it causes. */
  lemma StepKeepsSound(env: Env, t: Tables, projects: set<string>, op: ComputeOp, now: string,
                       leaks: map<string, nat>)
    requires Sound(t, leaks)
    ensures var out := Step(env, t, projects, op, now);
      out.Commit? ==> Sound(out.tables, LeaksAfter(leaks, t, op, out))
  {
    hide Sound, Quiet;
    var out := Step(env, t, projects, op, now);
    if out.Early? {
    } else if op.CreateNic? || op.DeleteNic? {
      NicMoveKeepsSound(env, t, op, leaks);
    } else if op.DeleteNetwork? {
      DeleteNetworkLeaksGroups(t, op, leaks);
    } else if op.CreateNetwork? {
      CreateNetworkKeepsSound(t, op, leaks);
    } else if op.CreateSecurityGroup? {
      CreateGroupKeepsSound(t, projects, op, leaks);
    } else if op.DeleteSecurityGroup? {
      DeleteGroupKeepsSound(t, op, leaks);
    } else {
      if op.UpdateNetwork? { UpdateNetworkIsQuiet(t, op); }
      else if IsNicOp(op) { NicEditIsQuiet(env, t, op); }
      else if IsVmOp(op) { VmStepIsQuiet(t, op, now); }
      else { GroupEditIsQuiet(t, projects, op); }
      QuietKeepsSound(t, op, out, leaks);
    }
  }

  // --------------------------------------------- when group counts stay exact

  ghost predicate Exact(t: Tables) {
    Sound(t, NoLeaks(t))
  }

  function NoLeaks(t: Tables): map<string, nat> {
    map g | g in t.groups :: 0
  }

  /** A network delete, necessarily forced, that removes a NIC carrying a group. */
  predicate LeaksReference(t: Tables, op: ComputeOp) {
    op.DeleteNetwork?
    && exists k :: k in NicsIn(t.nics, op.id) && t.nics[k].spec.securityGroupId.Some?
  }

  lemma LeaksShow(t: Tables, op: ComputeOp, out: Outcome<Tables>, leaks: map<string, nat>)
    requires out.Commit? && leaks == NoLeaks(t) && NoDanglingNic(t)
    requires op.DeleteNetwork? ==> out.tables.groups == t.groups
    ensures LeaksAfter(leaks, t, op, out) == NoLeaks(out.tables) <==> !LeaksReference(t, op)
  {
    var after := LeaksAfter(leaks, t, op, out);
    if LeaksReference(t, op) {
      var k :| k in NicsIn(t.nics, op.id) && t.nics[k].spec.securityGroupId.Some?;
      var g := t.nics[k].spec.securityGroupId.value;
      assert k in NicsOf(t.nics, g) * NicsIn(t.nics, op.id);
      assert after[g] > 0;
    } else if op.DeleteNetwork? {
      forall g | g in t.groups ensures NewLeaks(t, op, g) == 0 {
        assert NicsOf(t.nics, g) * NicsIn(t.nics, op.id) == {};
      }
    }
  }

  lemma LeaksAreUnique(t: Tables, a: map<string, nat>, b: map<string, nat>)
    requires GroupCountsExplained(t, a) && GroupCountsExplained(t, b)
    ensures a == b
  {
    hide NicsOf;
    forall g | g in a ensures a[g] == b[g] {
      assert t.groups[g].nicCount == |NicsOf(t.nics, g)| + a[g];
    }
  }

  /** From exact counters a command leads to exact counters if and only if it
      does not remove a NIC carrying a group together with its network. */
  lemma StepKeepsExactIff(env: Env, t: Tables, projects: set<string>, op: ComputeOp, now: string)
    requires Exact(t)
    ensures var out := Step(env, t, projects, op, now);
      out.Commit? ==> (Exact(out.tables) <==> !LeaksReference(t, op))
  {
    var out := Step(env, t, projects, op, now);
    if out.Commit? {
      StepKeepsSound(env, t, projects, op, now, NoLeaks(t));
      LeaksShow(t, op, out, NoLeaks(t));
      hide Step, LeaksAfter, NoLeaks, LeaksReference;
      hide WellKeyed, NoDanglingNic, NetworkCountsExact, GroupCountsExplained;
      if Exact(out.tables) {
        LeaksAreUnique(out.tables, LeaksAfter(NoLeaks(t), t, op, out), NoLeaks(out.tables));
      }
    }
  }
}
