/** What holds after every run of commands from the empty database. */
module Runs {
  import opened Basics
  import opened Types
  import opened ControlPlane
  import Compute
  import Storage
  import Tenancy
  import Fleet
  import Identity
  import NicCounters
  import BackLinks
  import ComputeView
  import CloneAccounting
  import Onboarding
  import IdentityBinding

  // ------------------------------------------------------ global invariants

  ghost predicate Sound(db: Db, leaks: map<string, nat>) {
    && NicCounters.Sound(db.compute, leaks)
    && BackLinks.NamesUnique(db.compute)
    && CloneAccounting.Sound(db.storage)
    && Tenancy.Sound(db.tenancy)
    && Onboarding.Sound(db.fleet)
    && IdentityBinding.Sound(db.identity)
    && IdentityBinding.ServiceNamesUnique(db.identity.accounts)
  }

  ghost function LeaksAfter(env: Env, db: Db, i: Input, leaks: map<string, nat>): map<string, nat> {
    if i.cmd.op.OnCompute? then
      NicCounters.LeaksAfter(leaks, db.compute, i.cmd.op.compute,
        Compute.Step(env, db.compute, db.tenancy.projects.Keys, i.cmd.op.compute, i.oracle.now))
    else leaks
  }

  /** For each live security group, how many NICs carrying it were removed by
      network deletes since the group was created. */
  ghost function Leaks(env: Env, q: seq<Input>): map<string, nat>
    decreases |q|
  {
    if q == [] then map[]
    else
      var p := q[..|q| - 1];
      var i := q[|q| - 1];
      if Executes(Run(env, p), i) then LeaksAfter(env, Run(env, p).db, i, Leaks(env, p)) else Leaks(env, p)
  }

  lemma HandleKeepsSound(env: Env, db: Db, i: Input, leaks: map<string, nat>)
    requires Sound(db, leaks)
    ensures match Handle(env, db, i.cmd.op, i.oracle)
      case Commit(after, _, _) => Sound(after, LeaksAfter(env, db, i, leaks))
      case Early(_) => LeaksAfter(env, db, i, leaks) == leaks
  {
    hide Compute.Step, Storage.Step, Tenancy.Step, Fleet.Step, Identity.Step;
    hide NicCounters.Sound, CloneAccounting.Sound, Tenancy.Sound, Onboarding.Sound, IdentityBinding.Sound;
    hide BackLinks.NamesUnique, IdentityBinding.ServiceNamesUnique;
    var projects, orgs := db.tenancy.projects.Keys, db.tenancy.orgs.Keys;
    match i.cmd.op
    case OnCompute(c) =>
      NicCounters.StepKeepsSound(env, db.compute, projects, c, i.oracle.now, leaks);
      BackLinks.StepKeepsNames(env, db.compute, projects, c, i.oracle.now);
    case OnStorage(c) => CloneAccounting.StepKeepsSound(db.storage, projects, c);
    case OnTenancy(c) => Tenancy.StepKeepsSound(db.tenancy, c);
    case OnFleet(c) => Onboarding.StepKeepsSound(env, db.fleet, orgs, c, i.oracle.leaf);
    case OnIdentity(c) =>
      IdentityBinding.StepKeepsSound(env, db.identity, orgs, projects, c);
      IdentityBinding.StepKeepsServiceNames(env, db.identity, orgs, projects, c);
  }

  lemma EmptyIsSound()
    ensures Sound(EmptyDb, map[])
  {
  }

  /** Every reachable database is sound: rows under their own ids, no dangling
      NIC, exact network and clone counters, explained group counters, clones on
      their template's node, unique names of networks, VMs, volumes, snapshots and
      service accounts, duplicate-free rosters, one account per identity, unlinked
      service accounts, owned memberships and keys. */
  lemma {:induction false} RunsAreSound(env: Env, q: seq<Input>)
    ensures Sound(Run(env, q).db, Leaks(env, q))
    decreases |q|
  {
    hide Sound, Handle, LeaksAfter;
    if q == [] {
      EmptyIsSound();
    } else {
      var p := q[..|q| - 1];
      RunsAreSound(env, p);
      HandleKeepsSound(env, Run(env, p).db, q[|q| - 1], Leaks(env, p));
    }
  }

  /** A group's counter is its number of NICs plus its leaks: exact if and only
      if no network delete removed a NIC carrying it. */
  lemma GroupCountExactIff(env: Env, q: seq<Input>, g: string)
    requires g in Run(env, q).db.compute.groups
    ensures g in Leaks(env, q)
    ensures var t := Run(env, q).db.compute;
      t.groups[g].nicCount == |Compute.NicsOf(t.nics, g)| <==> Leaks(env, q)[g] == 0
  {
    hide Run, Leaks, Compute.NicsOf;
    RunsAreSound(env, q);
  }

  /** Deleting a NIC finds both of its counters above zero, so neither
      `saturating_sub` saturates. */
  lemma DeletedNicWasCounted(env: Env, q: seq<Input>, k: string)
    requires k in Run(env, q).db.compute.nics
    ensures var t := Run(env, q).db.compute;
      var spec := t.nics[k].spec;
      && spec.networkId in t.networks && t.networks[spec.networkId].nicCount >= 1
      && (spec.securityGroupId.Some? ==>
            spec.securityGroupId.value in t.groups && t.groups[spec.securityGroupId.value].nicCount >= 1)
  {
    RunsAreSound(env, q);
    hide Run, Leaks;
    var t := Run(env, q).db.compute;
    assert k in Compute.NicsIn(t.nics, t.nics[k].spec.networkId);
    if t.nics[k].spec.securityGroupId.Some? {
      assert k in Compute.NicsOf(t.nics, t.nics[k].spec.securityGroupId.value);
    }
  }

  // ------------------------------------------------------ the event stream

  lemma {:induction false} UnseenFold(v: ComputeView.View, es: seq<Event>)
    requires forall e :: e in es ==> !ComputeEvent(e)
    ensures ComputeView.SeeAll(v, es) == v
    decreases |es|
  {
    if es != [] {
      assert es[0] in es;
      UnseenFold(v, es[1..]);
    }
  }

  lemma {:induction false} UnseenStorageFold(v: CloneAccounting.View, es: seq<Event>)
    requires forall e :: e in es ==> !StorageEvent(e)
    ensures CloneAccounting.SeeAll(v, es) == v
    decreases |es|
  {
    if es != [] {
      assert es[0] in es;
      UnseenStorageFold(v, es[1..]);
    }
  }

  predicate ComputeEvent(e: Event) {
    || e.NetworkCreated? || e.NetworkUpdated? || e.NetworkDeleted? || e.NicCreated? || e.NicUpdated?
    || e.NicDeleted? || e.VmCreated? || e.VmUpdated? || e.VmStatusUpdated? || e.VmDeleted?
    || e.SecurityGroupCreated? || e.SecurityGroupDeleted?
  }

  predicate StorageEvent(e: Event) {
    || e.VolumeCreated? || e.VolumeStatusUpdated? || e.VolumeDeleted? || e.TemplateCreated? || e.TemplateUpdated?
  }

  lemma ComputeEmits(env: Env, t: Compute.Tables, projects: set<string>, op: ComputeOp, now: string)
    ensures var out := Compute.Step(env, t, projects, op, now);
      out.Commit? ==> forall e :: e in out.events ==> ComputeEvent(e)
  {
    hide ScanKeys, Compute.NicsIn, Compute.NicsOf, Compute.NicDeletions;
  }

  lemma StorageEmits(t: Storage.Tables, projects: set<string>, op: StorageOp)
    ensures var out := Storage.Step(t, projects, op);
      out.Commit? ==> forall e :: e in out.events ==> StorageEvent(e)
  {
  }

  lemma FleetEmits(env: Env, t: Fleet.Tables, orgs: set<string>, op: FleetOp, leaf: SignedLeaf)
    ensures var out := Fleet.Step(env, t, orgs, op, leaf);
      out.Commit? ==> forall e :: e in out.events ==> !ComputeEvent(e) && !StorageEvent(e)
  {
  }

  lemma OthersEmitNothing(env: Env, db: Db, op: Op, oracle: Oracle)
    requires op.OnTenancy? || op.OnIdentity?
    ensures match Handle(env, db, op, oracle)
      case Commit(_, _, es) => es == []
      case Early(_) => true
  {
  }

  lemma HandleAnnounced(env: Env, db: Db, op: Op, oracle: Oracle)
    requires NicCounters.WellKeyed(db.compute)
    ensures match Handle(env, db, op, oracle)
      case Commit(after, _, es) =>
        && ComputeView.SeeAll(ComputeView.ViewOf(db.compute), es) == ComputeView.ViewOf(after.compute)
        && CloneAccounting.SeeAll(CloneAccounting.ViewOf(db.storage), es) == CloneAccounting.ViewOf(after.storage)
      case Early(_) => true
  {
    hide Compute.Step, Storage.Step, Fleet.Step, Tenancy.Step, Identity.Step;
    hide ComputeView.ViewOf, CloneAccounting.ViewOf, ComputeView.SeeAll, CloneAccounting.SeeAll;
    var projects, orgs := db.tenancy.projects.Keys, db.tenancy.orgs.Keys;
    match Handle(env, db, op, oracle)
    case Early(_) =>
    case Commit(_, _, es) =>
      if op.OnCompute? {
        ComputeView.StepAnnounced(env, db.compute, projects, op.compute, oracle.now);
        ComputeEmits(env, db.compute, projects, op.compute, oracle.now);
        UnseenStorageFold(CloneAccounting.ViewOf(db.storage), es);
      } else {
        if op.OnStorage? {
          CloneAccounting.StepAnnounced(db.storage, projects, op.storage);
          StorageEmits(db.storage, projects, op.storage);
        } else {
          if op.OnFleet? { FleetEmits(env, db.fleet, orgs, op.fleet, oracle.leaf); }
          else { OthersEmitNothing(env, db, op, oracle); }
          UnseenStorageFold(CloneAccounting.ViewOf(db.storage), es);
        }
        UnseenFold(ComputeView.ViewOf(db.compute), es);
      }
  }

  /** Folding every event a run emits over the empty view gives the VM table
      itself, NIC ids and specs, network rows up to their counter, group ids,
      volume ids and placements, and template rows up to their counter. */
  lemma {:induction false} EventsTellTheTables(env: Env, q: seq<Input>)
    ensures ComputeView.SeeAll(ComputeView.ViewOf(Compute.Empty), Emitted(env, Init, q))
            == ComputeView.ViewOf(Run(env, q).db.compute)
    ensures CloneAccounting.SeeAll(CloneAccounting.ViewOf(Storage.Empty), Emitted(env, Init, q))
            == CloneAccounting.ViewOf(Run(env, q).db.storage)
    decreases |q|
  {
    hide Handle, ComputeView.ViewOf, CloneAccounting.ViewOf;
    if q != [] {
      var p := q[..|q| - 1];
      var i := q[|q| - 1];
      EventsTellTheTables(env, p);
      RunsAreSound(env, p);
      var s := Run(env, p);
      var es := Apply(env, s, i).events;
      HandleAnnounced(env, s.db, i.cmd.op, i.oracle);
      FoldAppend(ComputeView.See, ComputeView.ViewOf(Compute.Empty), Emitted(env, Init, p), es);
      FoldAppend(CloneAccounting.See, CloneAccounting.ViewOf(Storage.Empty), Emitted(env, Init, p), es);
      assert Emitted(env, Init, q) == Emitted(env, Init, p) + es;
    }
  }
}
