/** References from other tables to organizations and projects. Creation tests
    them; deleting an organization or a project does not look for them
    (mvirt-cplane/src/state.rs:1481-1497 and 1549-1563). */
module References {
  import opened Basics
  import opened Types
  import opened ControlPlane
  import Compute
  import Storage
  import Tenancy
  import Fleet
  import Identity
  import Histories

  ghost predicate GroupsIn(t: Compute.Tables, projects: set<string>) {
    forall k :: k in t.groups ==> t.groups[k].projectSlug in projects
  }

  ghost predicate VolumesIn(t: Storage.Tables, projects: set<string>) {
    forall k :: k in t.volumes ==> t.volumes[k].spec.projectSlug in projects
  }

  ghost predicate ClustersIn(t: Fleet.Tables, orgs: set<string>) {
    forall k :: k in t.clusters ==> t.clusters[k].orgSlug in orgs
  }

  ghost predicate GrantsIn(t: Identity.Tables, orgs: set<string>, projects: set<string>) {
    forall k :: k in t.memberships ==> Identity.ScopeExists(orgs, projects, t.memberships[k].scope)
  }

  ghost predicate ServicesIn(t: Identity.Tables, projects: set<string>) {
    forall k :: k in t.accounts && t.accounts[k].projectSlug.Some? ==> t.accounts[k].projectSlug.value in projects
  }

  /** Every cluster's organization exists, and so do the organization or project of
      every membership and the project of every security group, volume and service
      account. */
  ghost predicate Resolved(db: Db) {
    var orgs, projects := db.tenancy.orgs.Keys, db.tenancy.projects.Keys;
    && GroupsIn(db.compute, projects) && VolumesIn(db.storage, projects) && ClustersIn(db.fleet, orgs)
    && GrantsIn(db.identity, orgs, projects) && ServicesIn(db.identity, projects)
  }

  /** The delete of an organization or project that something still names. */
  predicate Orphans(db: Db, op: Op) {
    op.OnTenancy? &&
    match op.tenancy
    case DeleteOrg(slug) =>
      || (exists k :: k in db.fleet.clusters && db.fleet.clusters[k].orgSlug == slug)
      || (exists k :: k in db.identity.memberships && db.identity.memberships[k].scope == OrgScope(slug))
    case DeleteProject(slug) =>
      || (exists k :: k in db.compute.groups && db.compute.groups[k].projectSlug == slug)
      || (exists k :: k in db.storage.volumes && db.storage.volumes[k].spec.projectSlug == slug)
      || (exists k :: k in db.identity.memberships && db.identity.memberships[k].scope == ProjectScope(slug))
      || (exists k :: k in db.identity.accounts && db.identity.accounts[k].projectSlug == Some(slug))
    case _ => false
  }

  lemma NicStepResolved(env: Env, t: Compute.Tables, op: ComputeOp, projects: set<string>)
    requires Compute.IsNicOp(op) && GroupsIn(t, projects)
    ensures var out := Compute.NicStep(env, t, op); out.Commit? ==> GroupsIn(out.tables, projects)
  {
  }

  lemma ComputeResolved(env: Env, t: Compute.Tables, projects: set<string>, op: ComputeOp, now: string)
    requires GroupsIn(t, projects)
    ensures var out := Compute.Step(env, t, projects, op, now); out.Commit? ==> GroupsIn(out.tables, projects)
  {
    if Compute.IsNicOp(op) {
      hide GroupsIn, Compute.NicStep;
      NicStepResolved(env, t, op, projects);
    } else {
      hide Compute.NicStep, ScanKeys, Compute.NicDeletions, Compute.NicsIn, Compute.NicsOf;
    }
  }

  lemma StorageResolved(t: Storage.Tables, projects: set<string>, op: StorageOp)
    requires VolumesIn(t, projects)
    ensures var out := Storage.Step(t, projects, op); out.Commit? ==> VolumesIn(out.tables, projects)
  {
  }

  lemma FleetResolved(env: Env, t: Fleet.Tables, orgs: set<string>, op: FleetOp, leaf: SignedLeaf)
    requires ClustersIn(t, orgs)
    ensures var out := Fleet.Step(env, t, orgs, op, leaf); out.Commit? ==> ClustersIn(out.tables, orgs)
  {
    hide Fleet.CheckRedeem;
  }

  lemma GrantsResolved(env: Env, t: Identity.Tables, orgs: set<string>, projects: set<string>, op: IdentityOp)
    requires GrantsIn(t, orgs, projects)
    ensures var out := Identity.Step(env, t, orgs, projects, op); out.Commit? ==> GrantsIn(out.tables, orgs, projects)
  {
    hide FirstKey, Identity.Holders, Identity.Invited;
  }

  lemma ServicesResolved(env: Env, t: Identity.Tables, orgs: set<string>, projects: set<string>, op: IdentityOp)
    requires ServicesIn(t, projects)
    ensures var out := Identity.Step(env, t, orgs, projects, op); out.Commit? ==> ServicesIn(out.tables, projects)
  {
    hide FirstKey;
  }

  lemma TenancyResolvedIff(db: Db, op: TenancyOp)
    requires Resolved(db)
    ensures var out := Tenancy.Step(db.tenancy, op);
      out.Commit? ==> (Resolved(db.(tenancy := out.tables)) <==> !Orphans(db, OnTenancy(op)))
  {
    hide Tenancy.ProjectsOf;
  }

  /** A command leaves every reference resolved exactly when it is not such a delete. */
  lemma HandleResolvedIff(env: Env, db: Db, op: Op, oracle: Oracle)
    requires Resolved(db)
    ensures match Handle(env, db, op, oracle)
      case Commit(after, _, _) => Resolved(after) <==> !Orphans(db, op)
      case Early(_) => true
  {
    hide Compute.Step, Storage.Step, Fleet.Step, Tenancy.Step, Identity.Step;
    hide GroupsIn, VolumesIn, ClustersIn, GrantsIn, ServicesIn;
    var projects, orgs := db.tenancy.projects.Keys, db.tenancy.orgs.Keys;
    match op
    case OnCompute(c) => ComputeResolved(env, db.compute, projects, c, oracle.now);
    case OnStorage(c) => StorageResolved(db.storage, projects, c);
    case OnTenancy(c) => TenancyResolvedIff(db, c);
    case OnFleet(c) => FleetResolved(env, db.fleet, orgs, c, oracle.leaf);
    case OnIdentity(c) =>
      GrantsResolved(env, db.identity, orgs, projects, c);
      ServicesResolved(env, db.identity, orgs, projects, c);
  }

  /** References stay resolved over every run without such a delete. */
  lemma ReferencesSurvive(env: Env, s: State, q: seq<Input>)
    requires Resolved(s.db) && Avoids(env, s, q, Orphans)
    ensures Resolved(RunFrom(env, s, q).db)
  {
    hide Handle, Avoids, RunFrom, Resolved, Orphans;
    var inv := (db: Db) => Resolved(db);
    forall db, op, oracle ensures Histories.Keeps(env, inv, Orphans, db, op, oracle) {
      if inv(db) && !Orphans(db, op) { HandleResolvedIff(env, db, op, oracle); }
    }
    Histories.Survives(env, s, q, inv, Orphans);
  }
}
