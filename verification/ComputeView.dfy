/** What a subscriber of the event stream knows about networks, NICs, VMs and
    security groups if it folds every event it receives over an empty view. */
module ComputeView {
  import opened Basics
  import opened Types
  import opened Compute
  import NicCounters

  /** VM rows in full; NIC specs; network rows without their NIC counter (which
      changes without an event); the ids of security groups. */
  datatype View = View(
    vms: map<string, VmData>, nics: map<string, NicSpec>,
    networks: map<string, NetworkData>, groups: set<string>)

  function Specs(nics: map<string, NicData>): map<string, NicSpec> {
    map k | k in nics :: nics[k].spec
  }

  function Uncounted(n: NetworkData): NetworkData {
    n.(nicCount := 0)
  }

  function Bare(networks: map<string, NetworkData>): map<string, NetworkData> {
    map k | k in networks :: Uncounted(networks[k])
  }

  function ViewOf(t: Tables): View {
    View(t.vms, Specs(t.nics), Bare(t.networks), t.groups.Keys)
  }

  /** The subscriber's fold. */
  function See(v: View, e: Event): View {
    match e
    case NetworkCreated(n) => v.(networks := v.networks[n.id := Uncounted(n)])
    case NetworkUpdated(id, _, n) => v.(networks := v.networks[id := Uncounted(n)])
    case NetworkDeleted(id) => v.(networks := v.networks - {id})
    case NicCreated(n) => v.(nics := v.nics[n.id := n.spec])
    case NicUpdated(id, _, n) => v.(nics := v.nics[id := n.spec])
    case NicDeleted(id, _) => v.(nics := v.nics - {id})
    case VmCreated(m) => v.(vms := v.vms[m.id := m])
    case VmUpdated(id, _, m) => v.(vms := v.vms[id := m])
    case VmStatusUpdated(id, _, m) => v.(vms := v.vms[id := m])
    case VmDeleted(id) => v.(vms := v.vms - {id})
    case SecurityGroupCreated(id) => v.(groups := v.groups + {id})
    case SecurityGroupDeleted(id) => v.(groups := v.groups - {id})
    case _ => v
  }

  function SeeAll(v: View, events: seq<Event>): View {
    Fold(See, v, events)
  }

  // ------------------------------------------------- projections of updates

  lemma SpecsPut(nics: map<string, NicData>, k: string, row: NicData)
    ensures Specs(nics[k := row]) == Specs(nics)[k := row.spec]
  {
  }

  lemma SpecsDrop(nics: map<string, NicData>, ks: set<string>)
    ensures Specs(nics - ks) == Specs(nics) - ks
  {
  }

  lemma SpecsSame(nics: map<string, NicData>, k: string, row: NicData)
    requires k in nics && row.spec == nics[k].spec
    ensures Specs(nics[k := row]) == Specs(nics)
  {
  }

  lemma BarePut(networks: map<string, NetworkData>, k: string, row: NetworkData)
    ensures Bare(networks[k := row]) == Bare(networks)[k := Uncounted(row)]
  {
  }

  lemma BareDrop(networks: map<string, NetworkData>, k: string)
    ensures Bare(networks - {k}) == Bare(networks) - {k}
  {
  }

  lemma BareRecount(networks: map<string, NetworkData>, k: string, c: nat)
    requires k in networks
    ensures Bare(networks[k := networks[k].(nicCount := c)]) == Bare(networks)
  {
  }

  lemma DropHead(specs: map<string, NicSpec>, keys: seq<string>)
    requires keys != []
    ensures (specs - {keys[0]}) - (set k | k in keys[1..]) == specs - (set k | k in keys)
  {
    assert (set k | k in keys) == {keys[0]} + (set k | k in keys[1..]);
  }

  lemma {:induction false} SeeNicDeletions(v: View, nics: map<string, NicData>, keys: seq<string>)
    requires forall k :: k in keys ==> k in nics && nics[k].id == k
    ensures SeeAll(v, NicDeletions(nics, keys)) == v.(nics := v.nics - (set k | k in keys))
    decreases |keys|
  {
    if keys == [] {
      assert v.nics - {} == v.nics;
    } else {
      var e := NicDeletions(nics, keys);
      assert keys[0] in keys && e[1..] == NicDeletions(nics, keys[1..]);
      assert See(v, e[0]) == v.(nics := v.nics - {keys[0]});
      hide NicDeletions, See;
      SeeNicDeletions(See(v, e[0]), nics, keys[1..]);
      DropHead(v.nics, keys);
    }
  }

  // ------------------------------------------------------------ one command

  ghost predicate Announced(t: Tables, out: Outcome<Tables>) {
    out.Commit? ==> SeeAll(ViewOf(t), out.events) == ViewOf(out.tables)
  }

  lemma SeeNetworkGone(v: View, nics: map<string, NicData>, keys: seq<string>, id: string)
    requires forall k :: k in keys ==> k in nics && nics[k].id == k
    ensures SeeAll(v, NicDeletions(nics, keys) + [NetworkDeleted(id)])
            == v.(nics := v.nics - (set k | k in keys), networks := v.networks - {id})
  {
    hide NicDeletions;
    SeeNicDeletions(v, nics, keys);
    FoldAppend(See, v, NicDeletions(nics, keys), [NetworkDeleted(id)]);
  }

  lemma DeleteNetworkAnnounced(t: Tables, op: ComputeOp)
    requires op.DeleteNetwork? && NicCounters.WellKeyed(t)
    ensures Announced(t, ApplyDeleteNetwork(t, op))
  {
    var out := ApplyDeleteNetwork(t, op);
    if out.Commit? {
      var victims := NicsIn(t.nics, op.id);
      var keys := ScanKeys(victims);
      assert (set k | k in keys) == victims;
      hide NicsIn, ScanKeys, NicDeletions, Specs, Bare, SeeAll;
      SeeNetworkGone(ViewOf(t), t.nics, keys, op.id);
      SpecsDrop(t.nics, victims);
      BareDrop(t.networks, op.id);
    }
  }

  lemma NetworkStepAnnounced(t: Tables, op: ComputeOp)
    requires IsNetworkOp(op) && NicCounters.WellKeyed(t)
    ensures Announced(t, NetworkStep(t, op))
  {
    var out := NetworkStep(t, op);
    if op.DeleteNetwork? {
      DeleteNetworkAnnounced(t, op);
    } else if out.Commit? {
      hide Specs, Bare;
      FoldTwo(See, ViewOf(t), out.events[0], out.events[0]);
      BarePut(t.networks, op.id, out.tables.networks[op.id]);
    }
  }

  lemma NicMoveAnnounced(env: Env, t: Tables, op: ComputeOp)
    requires (op.CreateNic? || op.DeleteNic?) && NicCounters.WellKeyed(t)
    ensures Announced(t, NicStep(env, t, op))
  {
    hide Specs, Bare;
    var out := NicStep(env, t, op);
    if out.Early? {
    } else if op.CreateNic? {
      FoldTwo(See, ViewOf(t), out.events[0], out.events[0]);
      SpecsPut(t.nics, op.id, out.tables.nics[op.id]);
      BareRecount(t.networks, op.networkId, t.networks[op.networkId].nicCount + 1);
    } else {
      FoldTwo(See, ViewOf(t), out.events[0], out.events[0]);
      SpecsDrop(t.nics, {op.id});
      var n := t.nics[op.id].spec.networkId;
      if n in t.networks { BareRecount(t.networks, n, Decrement(t.networks[n].nicCount)); }
    }
  }

  lemma NicEditAnnounced(env: Env, t: Tables, op: ComputeOp)
    requires IsNicOp(op) && !op.CreateNic? && !op.DeleteNic? && NicCounters.WellKeyed(t)
    ensures Announced(t, NicStep(env, t, op))
  {
    hide Specs, Bare;
    var out := NicStep(env, t, op);
    if out.Early? {
    } else if op.UpdateNicStatus? {
      SpecsSame(t.nics, op.id, out.tables.nics[op.id]);
    } else {
      FoldTwo(See, ViewOf(t), out.events[0], out.events[0]);
      SpecsPut(t.nics, op.id, out.tables.nics[op.id]);
    }
  }

  lemma VmStepAnnounced(t: Tables, op: ComputeOp, now: string)
    requires IsVmOp(op) && NicCounters.WellKeyed(t)
    ensures Announced(t, VmStep(t, op, now))
  {
    hide Specs, Bare;
    var out := VmStep(t, op, now);
    if out.Early? {
    } else if op.CreateVm? {
      FoldTwo(See, ViewOf(t), out.events[0], out.events[1]);
      SpecsPut(t.nics, op.spec.nicId, out.tables.nics[op.spec.nicId]);
    } else if op.DeleteVm? && ReleasesNic(t, op.id) {
      var k := t.vms[op.id].spec.nicId;
      FoldTwo(See, ViewOf(t), out.events[0], out.events[1]);
      SpecsPut(t.nics, k, out.tables.nics[k]);
    } else {
      FoldTwo(See, ViewOf(t), out.events[0], out.events[0]);
    }
  }

  lemma GroupStepAnnounced(t: Tables, projects: set<string>, op: ComputeOp)
    requires !IsNetworkOp(op) && !IsNicOp(op) && !IsVmOp(op)
    ensures Announced(t, GroupStep(t, projects, op))
  {
    hide Specs, Bare;
    var out := GroupStep(t, projects, op);
    if out.Early? {
    } else if op.CreateSecurityGroup? || op.DeleteSecurityGroup? {
      FoldTwo(See, ViewOf(t), out.events[0], out.events[0]);
    }
  }

  /** Folding the events of one command over the view of the tables before it
      gives the view of the tables after it. */
  lemma StepAnnounced(env: Env, t: Tables, projects: set<string>, op: ComputeOp, now: string)
    requires NicCounters.WellKeyed(t)
    ensures Announced(t, Step(env, t, projects, op, now))
  {
    hide Announced;
    if IsNetworkOp(op) { NetworkStepAnnounced(t, op); }
    else if op.CreateNic? || op.DeleteNic? { NicMoveAnnounced(env, t, op); }
    else if IsNicOp(op) { NicEditAnnounced(env, t, op); }
    else if IsVmOp(op) { VmStepAnnounced(t, op, now); }
    else { GroupStepAnnounced(t, projects, op); }
  }
}
