/** When a granted membership survives. Two handlers write a membership under an
    id they do not test (mvirt-cplane/src/state.rs:2370 and 2447). */
module Grants {
  import opened Basics
  import opened Types
  import opened ControlPlane
  import opened Identity
  import Compute
  import Storage
  import Tenancy
  import Fleet
  import Histories

  /** Who may do what where. */
  predicate SameGrant(a: MembershipData, b: MembershipData) {
    a.accountId == b.accountId && a.scope == b.scope && a.role == b.role
  }

  ghost predicate Kept(t: Tables, u: Tables, k: string)
    requires k in t.memberships
  {
    k in u.memberships && SameGrant(t.memberships[k], u.memberships[k])
  }

  /** The command withdraws the grant, removes its account, or writes another
      grant over it. */
  predicate Drops(t: Tables, op: IdentityOp, k: string)
    requires k in t.memberships
  {
    var m := t.memberships[k];
    match op
    case DeleteMembership(id) => id == k
    case DeleteServiceAccount(account) => m.accountId == account
    case CreateServiceAccount(_, account, id, project, _, _, _) =>
      id == k && !(m.accountId == account && m.scope == ProjectScope(project) && m.role == ProjectAdmin)
    case BootstrapInitialPlatformAdmin(_, id, _) => id == k
    case _ => false
  }

  lemma GrantKeptIff(env: Env, t: Tables, orgs: set<string>, projects: set<string>, op: IdentityOp, k: string)
    requires k in t.memberships
    ensures var out := Step(env, t, orgs, projects, op); out.Commit? ==> (Kept(t, out.tables, k) <==> !Drops(t, op, k))
  {
    hide ApplyInvite, ApplyLogin, ApplyKey;
    if op.CreateAccountByEmail? || op.EnsureAccountFromOidc? || op.CreateStaticApiKey? || op.RevokeStaticApiKey? {
      MembershipsUntouched(env, t, orgs, projects, op);
    }
  }

  lemma MembershipsUntouched(env: Env, t: Tables, orgs: set<string>, projects: set<string>, op: IdentityOp)
    requires op.CreateAccountByEmail? || op.EnsureAccountFromOidc? || op.CreateStaticApiKey? || op.RevokeStaticApiKey?
    ensures var out := Step(env, t, orgs, projects, op); out.Commit? ==> out.tables.memberships == t.memberships
  {
    hide FirstKey, Holders, Invited;
  }

  /** Some platform admin is not dropped by the command. */
  predicate SparesAnAdmin(t: Tables, op: IdentityOp) {
    exists k :: k in t.memberships && IsPlatformAdmin(t.memberships[k]) && !Drops(t, op, k)
  }

  /** A membership that was not there before, if any, is the one the command asks for. */
  lemma NewGrants(env: Env, t: Tables, orgs: set<string>, projects: set<string>, op: IdentityOp, k: string)
    ensures var out := Step(env, t, orgs, projects, op);
      out.Commit? && k in out.tables.memberships ==>
        || (k in t.memberships && out.tables.memberships[k] == t.memberships[k])
        || op.CreateMembership? || op.BootstrapInitialPlatformAdmin?
        || (op.CreateServiceAccount? && out.tables.memberships[k].role == ProjectAdmin)
  {
    if op.CreateAccountByEmail? || op.EnsureAccountFromOidc? || op.CreateStaticApiKey? || op.RevokeStaticApiKey? {
      MembershipsUntouched(env, t, orgs, projects, op);
    }
    hide ApplyInvite, ApplyLogin, ApplyKey;
  }

  /** The platform keeps an admin exactly when the command spares one. */
  lemma AdminRemainsIff(env: Env, t: Tables, orgs: set<string>, projects: set<string>, op: IdentityOp)
    requires HasPlatformAdmin(t)
    ensures var out := Step(env, t, orgs, projects, op);
      out.Commit? ==> (HasPlatformAdmin(out.tables) <==> SparesAnAdmin(t, op))
  {
    var out := Step(env, t, orgs, projects, op);
    if out.Commit? {
      BootstrapIsEarly(env, t, orgs, projects, op);
      hide Step;
      if SparesAnAdmin(t, op) {
        var k :| k in t.memberships && IsPlatformAdmin(t.memberships[k]) && !Drops(t, op, k);
        GrantKeptIff(env, t, orgs, projects, op, k);
        assert IsPlatformAdmin(out.tables.memberships[k]);
      } else if HasPlatformAdmin(out.tables) {
        var k :| k in out.tables.memberships && IsPlatformAdmin(out.tables.memberships[k]);
        NewGrants(env, t, orgs, projects, op, k);
        if !op.CreateMembership? {
          GrantKeptIff(env, t, orgs, projects, op, k);
        }
      }
    }
  }

  lemma BootstrapIsEarly(env: Env, t: Tables, orgs: set<string>, projects: set<string>, op: IdentityOp)
    requires HasPlatformAdmin(t)
    ensures op.BootstrapInitialPlatformAdmin? ==> Step(env, t, orgs, projects, op).Early?
  {
  }

  // ------------------------------------------------------------- whole runs

  predicate DropsIn(db: Db, op: Op, k: string) {
    op.OnIdentity? && k in db.identity.memberships && Drops(db.identity, op.identity, k)
  }

  function Dropping(k: string): (Db, Op) -> bool {
    (db: Db, op: Op) => DropsIn(db, op, k)
  }

  lemma HandleKeepsGrant(env: Env, db: Db, op: Op, oracle: Oracle, k: string)
    requires k in db.identity.memberships && !DropsIn(db, op, k)
    ensures match Handle(env, db, op, oracle)
      case Commit(after, _, _) => Kept(db.identity, after.identity, k)
      case Early(_) => true
  {
    hide Compute.Step, Storage.Step, Fleet.Step, Tenancy.Step, Step, Drops;
    if op.OnIdentity? {
      GrantKeptIff(env, db.identity, db.tenancy.orgs.Keys, db.tenancy.projects.Keys, op.identity, k);
    }
  }

  /** A grant holds through every run that does not drop it. */
  lemma GrantSurvives(env: Env, s: State, q: seq<Input>, k: string)
    requires k in s.db.identity.memberships && Avoids(env, s, q, Dropping(k))
    ensures Kept(s.db.identity, RunFrom(env, s, q).db.identity, k)
  {
    hide Handle, Avoids, RunFrom, DropsIn;
    var inv := (db: Db) => Kept(s.db.identity, db.identity, k);
    forall db, op, oracle ensures Histories.Keeps(env, inv, Dropping(k), db, op, oracle) {
      if inv(db) && !DropsIn(db, op, k) { HandleKeepsGrant(env, db, op, oracle, k); }
    }
    Histories.Survives(env, s, q, inv, Dropping(k));
  }

  /** The command leaves the platform without an admin. */
  predicate DropsLastAdmin(db: Db, op: Op) {
    op.OnIdentity? && !SparesAnAdmin(db.identity, op.identity)
  }

  lemma HandleKeepsAdmin(env: Env, db: Db, op: Op, oracle: Oracle)
    requires HasPlatformAdmin(db.identity) && !DropsLastAdmin(db, op)
    ensures match Handle(env, db, op, oracle)
      case Commit(after, _, _) => HasPlatformAdmin(after.identity)
      case Early(_) => true
  {
    hide Compute.Step, Storage.Step, Fleet.Step, Tenancy.Step, Step, SparesAnAdmin, HasPlatformAdmin;
    if op.OnIdentity? {
      AdminRemainsIff(env, db.identity, db.tenancy.orgs.Keys, db.tenancy.projects.Keys, op.identity);
    }
  }

  /** The platform has an admin through every run that never drops the last one. */
  lemma AdminSurvives(env: Env, s: State, q: seq<Input>)
    requires HasPlatformAdmin(s.db.identity) && Avoids(env, s, q, DropsLastAdmin)
    ensures HasPlatformAdmin(RunFrom(env, s, q).db.identity)
  {
    hide Handle, Avoids, RunFrom, HasPlatformAdmin, DropsLastAdmin;
    var inv := (db: Db) => HasPlatformAdmin(db.identity);
    forall db, op, oracle ensures Histories.Keeps(env, inv, DropsLastAdmin, db, op, oracle) {
      if inv(db) && !DropsLastAdmin(db, op) { HandleKeepsAdmin(env, db, op, oracle); }
    }
    Histories.Survives(env, s, q, inv, DropsLastAdmin);
  }
}
