/** Every event says what happened: it carries the rows before and after the
    command, and no two events of a command are about the same row. */
module EventTruth {
  import opened Basics
  import opened Types
  import opened ControlPlane
  import Compute
  import Storage
  import Tenancy
  import Fleet
  import Identity
  import NicCounters
  import Runs

  predicate Added<V(==)>(a: map<string, V>, b: map<string, V>, k: string, row: V) {
    k !in a && k in b && b[k] == row
  }

  predicate Changed<V(==)>(a: map<string, V>, b: map<string, V>, k: string, old': V, new': V) {
    k in a && k in b && a[k] == old' && b[k] == new'
  }

  predicate Dropped<V>(a: map<string, V>, b: map<string, V>, k: string) {
    k in a && k !in b
  }

  predicate ComputeEvent(e: Event) {
    e.NetworkCreated? || e.NetworkUpdated? || e.NetworkDeleted? || e.NicCreated? || e.NicUpdated? || e.NicDeleted?
    || e.VmCreated? || e.VmUpdated? || e.VmStatusUpdated? || e.VmDeleted? || e.SecurityGroupCreated?
    || e.SecurityGroupDeleted?
  }

  predicate ComputeTrue(a: Compute.Tables, b: Compute.Tables, e: Event)
    requires ComputeEvent(e)
  {
    match e
    case NetworkCreated(n) => Added(a.networks, b.networks, n.id, n)
    case NetworkUpdated(id, o, n) => Changed(a.networks, b.networks, id, o, n)
    case NetworkDeleted(id) => Dropped(a.networks, b.networks, id)
    case NicCreated(n) => Added(a.nics, b.nics, n.id, n)
    case NicUpdated(id, o, n) => Changed(a.nics, b.nics, id, o, n)
    case NicDeleted(id, network) => Dropped(a.nics, b.nics, id) && a.nics[id].spec.networkId == network
    case VmCreated(m) => Added(a.vms, b.vms, m.id, m)
    case VmUpdated(id, o, n) => Changed(a.vms, b.vms, id, o, n) && o.status == n.status
    case VmStatusUpdated(id, o, n) => Changed(a.vms, b.vms, id, o, n) && o.spec == n.spec
    case VmDeleted(id) => Dropped(a.vms, b.vms, id)
    case SecurityGroupCreated(id) => id !in a.groups && id in b.groups
    case SecurityGroupDeleted(id) => Dropped(a.groups, b.groups, id)
  }

  predicate StorageEvent(e: Event) {
    e.VolumeCreated? || e.VolumeStatusUpdated? || e.VolumeDeleted? || e.TemplateCreated? || e.TemplateUpdated?
  }

  predicate StorageTrue(a: Storage.Tables, b: Storage.Tables, e: Event)
    requires StorageEvent(e)
  {
    match e
    case VolumeCreated(v) => Added(a.volumes, b.volumes, v.id, v)
    case VolumeStatusUpdated(id, o, n) => Changed(a.volumes, b.volumes, id, o, n)
    case VolumeDeleted(id, node) => Dropped(a.volumes, b.volumes, id) && a.volumes[id].spec.nodeId == node
    case TemplateCreated(m) => Added(a.templates, b.templates, m.id, m)
    case TemplateUpdated(id, o, n) => Changed(a.templates, b.templates, id, o, n)
  }

  predicate NodeTrue(a: Fleet.Tables, b: Fleet.Tables, e: Event)
    requires !ComputeEvent(e) && !StorageEvent(e)
  {
    match e
    case NodeRegistered(n) => Added(a.nodes, b.nodes, n.id, n)
    case NodeUpdated(id, o, n) => Changed(a.nodes, b.nodes, id, o, n)
    case NodeDeregistered(id) => Dropped(a.nodes, b.nodes, id)
  }

  predicate IsTrue(a: Db, b: Db, e: Event) {
    if ComputeEvent(e) then ComputeTrue(a.compute, b.compute, e)
    else if StorageEvent(e) then StorageTrue(a.storage, b.storage, e)
    else NodeTrue(a.fleet, b.fleet, e)
  }

  /** The row an event is about. */
  datatype Subject = Network(id: string) | Nic(id: string) | Vm(id: string) | Group(id: string)
                   | Volume(id: string) | Template(id: string) | Node(id: string)

  function About(e: Event): Subject {
    match e
    case NetworkCreated(n) => Network(n.id)
    case NetworkUpdated(id, _, _) => Network(id)
    case NetworkDeleted(id) => Network(id)
    case NicCreated(n) => Nic(n.id)
    case NicUpdated(id, _, _) => Nic(id)
    case NicDeleted(id, _) => Nic(id)
    case VmCreated(m) => Vm(m.id)
    case VmUpdated(id, _, _) => Vm(id)
    case VmStatusUpdated(id, _, _) => Vm(id)
    case VmDeleted(id) => Vm(id)
    case SecurityGroupCreated(id) => Group(id)
    case SecurityGroupDeleted(id) => Group(id)
    case VolumeCreated(v) => Volume(v.id)
    case VolumeStatusUpdated(id, _, _) => Volume(id)
    case VolumeDeleted(id, _) => Volume(id)
    case TemplateCreated(m) => Template(m.id)
    case TemplateUpdated(id, _, _) => Template(id)
    case NodeRegistered(n) => Node(n.id)
    case NodeUpdated(id, _, _) => Node(id)
    case NodeDeregistered(id) => Node(id)
  }

  function Subjects(events: seq<Event>): seq<Subject> {
    seq(|events|, i requires 0 <= i < |events| => About(events[i]))
  }

  // ----------------------------------------------------- which rows are announced

  predicate Frees(t: Compute.Tables, vm: string) {
    && vm in t.vms && t.vms[vm].spec.nicId != "" && t.vms[vm].spec.nicId in t.nics
    && t.nics[t.vms[vm].spec.nicId].spec.vmId == Some(vm)
  }

  function NicSubjects(keys: seq<string>): seq<Subject> {
    seq(|keys|, i requires 0 <= i < |keys| => Nic(keys[i]))
  }

  /** The rows that a command tells of, in order: a network's NICs before it, a VM
      before its NIC. Status reports of NICs, sizes, snapshots, rules and renamed
      groups are not told. */
  function ComputeNews(t: Compute.Tables, op: ComputeOp): seq<Subject> {
    match op
    case CreateNetwork(id, _, _, _, _, _, _, _, _, _, _) => [Network(id)]
    case UpdateNetwork(id, _, _, _) => [Network(id)]
    case DeleteNetwork(id, _) =>
      NicSubjects(ScanKeys(set k | k in t.nics && t.nics[k].spec.networkId == id)) + [Network(id)]
    case CreateNic(id, _, _, _, _, _, _, _, _, _, _) => [Nic(id)]
    case UpdateNic(id, _, _, _) => [Nic(id)]
    case DeleteNic(id) => [Nic(id)]
    case AttachNic(id, _, _) => [Nic(id)]
    case DetachNic(id, _) => [Nic(id)]
    case CreateVm(id, _, spec) => [Vm(id), Nic(spec.nicId)]
    case UpdateVmSpec(id, _, _) => [Vm(id)]
    case UpdateVmStatus(id, _, _) => [Vm(id)]
    case DeleteVm(id) => if Frees(t, id) then [Vm(id), Nic(t.vms[id].spec.nicId)] else [Vm(id)]
    case CreateSecurityGroup(id, _, _, _, _) => [Group(id)]
    case DeleteSecurityGroup(id) => [Group(id)]
    case _ => []
  }

  function StorageNews(op: StorageOp): seq<Subject> {
    match op
    case CreateVolume(id, _, _, _, _, _, _) => [Volume(id)]
    case DeleteVolume(id) => [Volume(id)]
    case UpdateVolumeStatus(id, _, _, _, _, _) => [Volume(id)]
    case CreateTemplate(id, _, _, _, _, _, _, _) => [Template(id)]
    case UpdateTemplateStatus(id, _, _, _, _, _) => [Template(id)]
    case _ => []
  }

  function FleetNews(op: FleetOp): seq<Subject> {
    match op
    case RegisterNode(id, _, _, _, _, _) => [Node(id)]
    case UpdateNodeStatus(id, _, _, _) => [Node(id)]
    case DeregisterNode(id) => [Node(id)]
    case _ => []
  }

  function News(db: Db, op: Op): seq<Subject> {
    match op
    case OnCompute(c) => ComputeNews(db.compute, c)
    case OnStorage(c) => StorageNews(c)
    case OnFleet(c) => FleetNews(c)
    case _ => []
  }

  lemma CascadeSubjects(nics: map<string, NicData>, keys: seq<string>, id: string)
    requires forall k :: k in keys ==> k in nics && nics[k].id == k
    ensures Subjects(Compute.NicDeletions(nics, keys) + [NetworkDeleted(id)]) == NicSubjects(keys) + [Network(id)]
  {
    var gone := Compute.NicDeletions(nics, keys);
    forall i | 0 <= i < |keys| ensures About(gone[i]) == Nic(keys[i]) {
      assert keys[i] in keys;
    }
  }

  lemma DeleteNetworkNews(t: Compute.Tables, op: ComputeOp)
    requires op.DeleteNetwork? && NicCounters.WellKeyed(t)
    ensures var out := Compute.ApplyDeleteNetwork(t, op); out.Commit? ==> Subjects(out.events) == ComputeNews(t, op)
  {
    var victims := Compute.NicsIn(t.nics, op.id);
    assert victims == set k | k in t.nics && t.nics[k].spec.networkId == op.id;
    hide ScanKeys, Subjects, NicSubjects, Compute.NicDeletions;
    CascadeSubjects(t.nics, ScanKeys(victims), op.id);
  }

  lemma NicStepNews(env: Env, t: Compute.Tables, op: ComputeOp)
    requires Compute.IsNicOp(op)
    ensures var out := Compute.NicStep(env, t, op); out.Commit? ==> Subjects(out.events) == ComputeNews(t, op)
  {
  }

  lemma VmStepNews(t: Compute.Tables, op: ComputeOp, now: string)
    requires Compute.IsVmOp(op) && NicCounters.WellKeyed(t)
    ensures var out := Compute.VmStep(t, op, now); out.Commit? ==> Subjects(out.events) == ComputeNews(t, op)
  {
  }

  lemma ComputeStepNews(env: Env, t: Compute.Tables, projects: set<string>, op: ComputeOp, now: string)
    requires NicCounters.WellKeyed(t)
    ensures var out := Compute.Step(env, t, projects, op, now);
      out.Commit? ==> Subjects(out.events) == ComputeNews(t, op)
  {
    hide Compute.ApplyDeleteNetwork, Compute.NicStep, Compute.VmStep, ScanKeys, NicSubjects;
    if op.DeleteNetwork? {
      hide Subjects, ComputeNews;
      DeleteNetworkNews(t, op);
    } else if Compute.IsNicOp(op) {
      hide Subjects, ComputeNews;
      NicStepNews(env, t, op);
    } else if Compute.IsVmOp(op) {
      hide Subjects, ComputeNews;
      VmStepNews(t, op, now);
    } else {
      hide Compute.NicsOf, Compute.WithoutRule, Compute.DescribeRule;
    }
  }

  lemma StorageStepNews(t: Storage.Tables, projects: set<string>, op: StorageOp)
    ensures var out := Storage.Step(t, projects, op); out.Commit? ==> Subjects(out.events) == StorageNews(op)
  {
    hide Storage.HasSnapshot;
  }

  lemma FleetStepNews(env: Env, t: Fleet.Tables, orgs: set<string>, op: FleetOp, leaf: SignedLeaf)
    ensures var out := Fleet.Step(env, t, orgs, op, leaf); out.Commit? ==> Subjects(out.events) == FleetNews(op)
  {
    hide Fleet.CheckRedeem, Fleet.StripAll, Fleet.UnusedFor;
  }

  // ------------------------------------------------------- what is said is true

  ghost predicate Separate(events: seq<Event>) {
    forall i, j :: 0 <= i < j < |events| ==> About(events[i]) != About(events[j])
  }

  ghost predicate ComputeReports(a: Compute.Tables, out: Outcome<Compute.Tables>) {
    out.Commit? ==>
      Separate(out.events)
      && forall e :: e in out.events ==> ComputeEvent(e) && ComputeTrue(a, out.tables, e)
  }

  lemma CascadeIsSeparate(nics: map<string, NicData>, keys: seq<string>, id: string)
    requires Ascending(keys, LeqString) && forall k :: k in keys ==> k in nics && nics[k].id == k
    ensures Separate(Compute.NicDeletions(nics, keys) + [NetworkDeleted(id)])
  {
    hide LeqString;
    CascadeSubjects(nics, keys, id);
    var events := Compute.NicDeletions(nics, keys) + [NetworkDeleted(id)];
    hide Compute.NicDeletions, About;
    forall i, j | 0 <= i < j < |events| ensures About(events[i]) != About(events[j]) {
      assert Subjects(events)[i] == About(events[i]) && Subjects(events)[j] == About(events[j]);
    }
  }

  lemma CascadeIsTrue(t: Compute.Tables, id: string, keys: seq<string>, e: Event)
    requires NicCounters.WellKeyed(t) && forall k :: k in keys <==> k in Compute.NicsIn(t.nics, id)
    requires e in Compute.NicDeletions(t.nics, keys)
    ensures ComputeEvent(e)
    ensures ComputeTrue(t, t.(nics := t.nics - Compute.NicsIn(t.nics, id), networks := t.networks - {id}), e)
  {
    var i :| 0 <= i < |keys| && Compute.NicDeletions(t.nics, keys)[i] == e;
    assert keys[i] in keys;
  }

  lemma DeleteNetworkReports(t: Compute.Tables, op: ComputeOp)
    requires op.DeleteNetwork? && NicCounters.WellKeyed(t)
    ensures ComputeReports(t, Compute.ApplyDeleteNetwork(t, op))
  {
    var out := Compute.ApplyDeleteNetwork(t, op);
    if out.Commit? {
      var keys := ScanKeys(Compute.NicsIn(t.nics, op.id));
      hide ScanKeys, Compute.NicDeletions, Separate;
      CascadeIsSeparate(t.nics, keys, op.id);
      forall e | e in out.events ensures ComputeEvent(e) && ComputeTrue(t, out.tables, e) {
        if e in Compute.NicDeletions(t.nics, keys) {
          CascadeIsTrue(t, op.id, keys, e);
        } else {
          assert e == NetworkDeleted(op.id);
        }
      }
    }
  }

  lemma NetworkStepReports(t: Compute.Tables, op: ComputeOp)
    requires Compute.IsNetworkOp(op) && NicCounters.WellKeyed(t)
    ensures ComputeReports(t, Compute.NetworkStep(t, op))
  {
    hide Compute.ApplyDeleteNetwork;
    if op.DeleteNetwork? {
      hide ComputeReports;
      DeleteNetworkReports(t, op);
    }
  }

  lemma NicStepReports(env: Env, t: Compute.Tables, op: ComputeOp)
    requires Compute.IsNicOp(op) && NicCounters.WellKeyed(t)
    ensures ComputeReports(t, Compute.NicStep(env, t, op))
  {
  }

  lemma NewVmReports(t: Compute.Tables, op: ComputeOp)
    requires op.CreateVm? && NicCounters.WellKeyed(t)
    ensures ComputeReports(t, Compute.ApplyCreateVm(t, op))
  {
  }

  lemma DeleteVmReports(t: Compute.Tables, op: ComputeOp, now: string)
    requires op.DeleteVm? && NicCounters.WellKeyed(t)
    ensures ComputeReports(t, Compute.ApplyDeleteVm(t, op, now))
  {
  }

  lemma VmStepReports(t: Compute.Tables, op: ComputeOp, now: string)
    requires Compute.IsVmOp(op) && NicCounters.WellKeyed(t)
    ensures ComputeReports(t, Compute.VmStep(t, op, now))
  {
    hide Compute.ApplyCreateVm, Compute.ApplyDeleteVm;
    if op.CreateVm? {
      hide ComputeReports;
      NewVmReports(t, op);
    } else if op.DeleteVm? {
      hide ComputeReports;
      DeleteVmReports(t, op, now);
    }
  }

  lemma GroupStepReports(t: Compute.Tables, projects: set<string>, op: ComputeOp)
    requires !Compute.IsNetworkOp(op) && !Compute.IsNicOp(op) && !Compute.IsVmOp(op)
    ensures ComputeReports(t, Compute.GroupStep(t, projects, op))
  {
    hide Compute.NicsOf, Compute.WithoutRule, Compute.DescribeRule;
  }

  lemma ComputeStepReports(env: Env, t: Compute.Tables, projects: set<string>, op: ComputeOp, now: string)
    requires NicCounters.WellKeyed(t)
    ensures ComputeReports(t, Compute.Step(env, t, projects, op, now))
  {
    hide ComputeReports, NicCounters.WellKeyed;
    hide Compute.NetworkStep, Compute.NicStep, Compute.VmStep, Compute.GroupStep;
    if Compute.IsNetworkOp(op) { NetworkStepReports(t, op); }
    else if Compute.IsNicOp(op) { NicStepReports(env, t, op); }
    else if Compute.IsVmOp(op) { VmStepReports(t, op, now); }
    else { GroupStepReports(t, projects, op); }
  }

  ghost predicate StorageReports(a: Storage.Tables, out: Outcome<Storage.Tables>) {
    out.Commit? ==>
      Separate(out.events)
      && forall e :: e in out.events ==> !ComputeEvent(e) && StorageEvent(e) && StorageTrue(a, out.tables, e)
  }

  lemma StorageStepReports(t: Storage.Tables, projects: set<string>, op: StorageOp)
    ensures StorageReports(t, Storage.Step(t, projects, op))
  {
    hide Storage.HasSnapshot;
  }

  ghost predicate FleetReports(a: Fleet.Tables, out: Outcome<Fleet.Tables>) {
    out.Commit? ==>
      Separate(out.events)
      && forall e :: e in out.events ==> !ComputeEvent(e) && !StorageEvent(e) && NodeTrue(a, out.tables, e)
  }

  lemma FleetStepReports(env: Env, t: Fleet.Tables, orgs: set<string>, op: FleetOp, leaf: SignedLeaf)
    ensures FleetReports(t, Fleet.Step(env, t, orgs, op, leaf))
  {
    hide Fleet.CheckRedeem, Fleet.StripAll, Fleet.UnusedFor;
  }

  /** One command: its events are about the rows that it should tell of, all true,
      and no two about the same row. */
  lemma HandleReports(env: Env, db: Db, op: Op, oracle: Oracle)
    requires NicCounters.WellKeyed(db.compute)
    ensures match Handle(env, db, op, oracle)
      case Commit(after, _, events) =>
        && Subjects(events) == News(db, op) && Separate(events)
        && forall e :: e in events ==> IsTrue(db, after, e)
      case Early(_) => true
  {
    hide Compute.Step, Storage.Step, Tenancy.Step, Fleet.Step, Identity.Step, NicCounters.WellKeyed, Separate;
    hide ComputeTrue, StorageTrue, NodeTrue, ComputeEvent, StorageEvent, ComputeNews, StorageNews, FleetNews;
    hide Subjects;
    var projects, orgs := db.tenancy.projects.Keys, db.tenancy.orgs.Keys;
    match op
    case OnCompute(c) =>
      ComputeStepReports(env, db.compute, projects, c, oracle.now);
      ComputeStepNews(env, db.compute, projects, c, oracle.now);
    case OnStorage(c) =>
      StorageStepReports(db.storage, projects, c);
      StorageStepNews(db.storage, projects, c);
    case OnTenancy(c) => TenancyIsSilent(db.tenancy, c);
    case OnFleet(c) =>
      FleetStepReports(env, db.fleet, orgs, c, oracle.leaf);
      FleetStepNews(env, db.fleet, orgs, c, oracle.leaf);
    case OnIdentity(c) => IdentityIsSilent(env, db.identity, orgs, projects, c);
  }

  lemma TenancyIsSilent(t: Tenancy.Tables, op: TenancyOp)
    ensures var out := Tenancy.Step(t, op); out.Commit? ==> out.events == [] && Subjects([]) == [] && Separate([])
  {
  }

  lemma IdentityIsSilent(env: Env, t: Identity.Tables, orgs: set<string>, projects: set<string>, op: IdentityOp)
    ensures var out := Identity.Step(env, t, orgs, projects, op);
      out.Commit? ==> out.events == [] && Subjects([]) == [] && Separate([])
  {
    hide FirstKey;
  }

  /** After any run, a command that commits emits exactly its news, and every event
      is true of the databases before and after it; no other command emits any. */
  lemma EventsAreTrue(env: Env, q: seq<Input>, i: Input)
    ensures var s := Run(env, q);
      var r := Apply(env, s, i);
      && Subjects(r.events) == (if Commits(env, s, i) then News(s.db, i.cmd.op) else [])
      && Separate(r.events) && forall e :: e in r.events ==> IsTrue(s.db, r.state.db, e)
  {
    hide Handle, RunFrom, IsTrue, About, News;
    Runs.RunsAreSound(env, q);
    HandleReports(env, Run(env, q).db, i.cmd.op, i.oracle);
  }
}
