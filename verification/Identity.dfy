/** Accounts, memberships and API keys: the handlers of `ApiState::apply` that
    write these tables, as functions of the tables. */
module Identity {
  import opened Basics
  import opened Types

  datatype Tables = Tables(
    accounts: map<string, AccountData>,
    memberships: map<string, MembershipData>,
    keys: map<string, ApiKeyData>)

  const Empty := Tables(map[], map[], map[])

  // ---------------------------------------------------------------- accounts

  predicate EmailIs(env: Env, a: AccountData, lowered: string) {
    a.email.Some? && env.lower(a.email.value) == lowered
  }

  predicate EmailTaken(env: Env, t: Tables, lowered: string) {
    exists k :: k in t.accounts && EmailIs(env, t.accounts[k], lowered)
  }

  function ApplyInvite(env: Env, t: Tables, op: IdentityOp): Outcome<Tables>
    requires op.CreateAccountByEmail?
  {
    var normalized := env.lower(env.trim(op.address));
    if normalized == "" then
      Early(Error(400))
    else if EmailTaken(env, t, normalized) then
      Early(Error(409))
    else
      var acc := AccountData(op.id, User, None, None, Some(normalized), op.displayName, None, None,
                             op.timestamp, op.timestamp);
      Commit(t.(accounts := t.accounts[op.id := acc]), AccountIs(acc), [])
  }

  predicate IsLinkedTo(a: AccountData, iss: string, sub: string) {
    a.externalIss == Some(iss) && a.externalSub == Some(sub)
  }

  predicate IsInvited(env: Env, a: AccountData, lowered: string) {
    a.externalIss.None? && a.externalSub.None? && EmailIs(env, a, lowered)
  }

  /** Accounts holding an OIDC identity. */
  function Holders(accounts: map<string, AccountData>, iss: string, sub: string): set<string> {
    set k | k in accounts && IsLinkedTo(accounts[k], iss, sub)
  }

  /** Accounts invited under an email and not linked yet. */
  function Invited(env: Env, accounts: map<string, AccountData>, email: Option<string>): set<string> {
    set k | k in accounts && email.Some? && IsInvited(env, accounts[k], env.lower(email.value))
  }

  function Refresh(a: AccountData, op: IdentityOp): AccountData
    requires op.EnsureAccountFromOidc?
  {
    var email := if op.email.Some? then op.email else a.email;
    var name := if op.displayName.Some? then op.displayName else a.displayName;
    if email == a.email && name == a.displayName then a
    else a.(email := email, displayName := name, updatedAt := op.timestamp)
  }

  function ApplyLogin(env: Env, t: Tables, op: IdentityOp): Outcome<Tables>
    requires op.EnsureAccountFromOidc?
  {
    var holder := FirstKey(Holders(t.accounts, op.iss, op.sub));
    var invited := FirstKey(Invited(env, t.accounts, op.email));
    if holder.Some? then
      var acc := Refresh(t.accounts[holder.value], op);
      Commit(t.(accounts := t.accounts[holder.value := acc]), AccountIs(acc), [])
    else if invited.Some? then
      var before := t.accounts[invited.value];
      var acc := before.(
        externalIss := Some(op.iss), externalSub := Some(op.sub), email := op.email,
        displayName := if op.displayName.Some? then op.displayName else before.displayName,
        updatedAt := op.timestamp);
      Commit(t.(accounts := t.accounts[invited.value := acc]), AccountIs(acc), [])
    else
      var acc := AccountData(op.newId, User, Some(op.iss), Some(op.sub), op.email, op.displayName,
                             None, None, op.timestamp, op.timestamp);
      Commit(t.(accounts := t.accounts[op.newId := acc]), AccountIs(acc), [])
  }

  // ------------------------------------------------------------- memberships

  predicate ScopeExists(orgs: set<string>, projects: set<string>, scope: MembershipScope) {
    match scope
    case Platform => true
    case OrgScope(o) => o in orgs
    case ProjectScope(p) => p in projects
  }

  predicate IsPlatformAdmin(m: MembershipData) {
    m.scope == Platform && m.role == PlatformAdmin
  }

  predicate HasPlatformAdmin(t: Tables) {
    exists k :: k in t.memberships && IsPlatformAdmin(t.memberships[k])
  }

  function ApplyMembership(t: Tables, orgs: set<string>, projects: set<string>, op: IdentityOp): Outcome<Tables>
    requires op.CreateMembership? || op.DeleteMembership?
  {
    if op.DeleteMembership? then
      if op.id !in t.memberships then
        Early(Error(404))
      else
        Commit(t.(memberships := t.memberships - {op.id}), Deleted(op.id), [])
    else if op.id in t.memberships then
      Early(Error(409))
    else if op.accountId !in t.accounts then
      Early(Error(404))
    else if !ScopeExists(orgs, projects, op.scope) then
      Early(Error(404))
    else if exists k :: k in t.memberships && t.memberships[k].accountId == op.accountId
                        && t.memberships[k].scope == op.scope && t.memberships[k].role == op.role then
      Early(Error(409))
    else
      var m := MembershipData(op.id, op.accountId, op.scope, op.role, op.createdByAccount, op.timestamp);
      Commit(t.(memberships := t.memberships[op.id := m]), MembershipIs(m), [])
  }

  function ApplyBootstrap(t: Tables, op: IdentityOp): Outcome<Tables>
    requires op.BootstrapInitialPlatformAdmin?
  {
    if HasPlatformAdmin(t) then
      Early(Ack)
    else if op.accountId !in t.accounts then
      Early(Error(404))
    else
      var m := MembershipData(op.id, op.accountId, Platform, PlatformAdmin, op.accountId, op.timestamp);
      Commit(t.(memberships := t.memberships[op.id := m]), MembershipIs(m), [])
  }

  // -------------------------------------------------------- service accounts

  predicate ServiceNameTaken(t: Tables, project: string, name: string) {
    exists k :: k in t.accounts && t.accounts[k].kind == ServiceAccount
                && t.accounts[k].projectSlug == Some(project) && t.accounts[k].displayName == Some(name)
  }

  function ApplyCreateService(t: Tables, projects: set<string>, op: IdentityOp): Outcome<Tables>
    requires op.CreateServiceAccount?
  {
    if op.projectSlug !in projects then
      Early(Error(404))
    else if ServiceNameTaken(t, op.projectSlug, op.name) then
      Early(Error(409))
    else
      var acc := AccountData(op.accountId, ServiceAccount, None, None, None, Some(op.name),
                             Some(op.projectSlug), op.description, op.timestamp, op.timestamp);
      var m := MembershipData(op.membershipId, op.accountId, ProjectScope(op.projectSlug),
                              ProjectAdmin, op.createdByAccount, op.timestamp);
      Commit(t.(accounts := t.accounts[op.accountId := acc],
                memberships := t.memberships[op.membershipId := m]),
             AccountIs(acc), [])
  }

  function KeysOf(keys: map<string, ApiKeyData>, account: string): set<string> {
    set k | k in keys && keys[k].accountId == account
  }

  function MembershipsOf(memberships: map<string, MembershipData>, account: string): set<string> {
    set k | k in memberships && memberships[k].accountId == account
  }

  function ApplyDeleteService(t: Tables, op: IdentityOp): Outcome<Tables>
    requires op.DeleteServiceAccount?
  {
    if op.accountId !in t.accounts then
      Early(Error(404))
    else if t.accounts[op.accountId].kind != ServiceAccount then
      Early(Error(400))
    else
      Commit(t.(keys := t.keys - KeysOf(t.keys, op.accountId),
                memberships := t.memberships - MembershipsOf(t.memberships, op.accountId),
                accounts := t.accounts - {op.accountId}),
             Deleted(op.accountId), [])
  }

  function ApplyKey(t: Tables, op: IdentityOp): Outcome<Tables>
    requires op.CreateStaticApiKey? || op.RevokeStaticApiKey?
  {
    if op.CreateStaticApiKey? then
      if op.accountId !in t.accounts then
        Early(Error(404))
      else if t.accounts[op.accountId].kind != ServiceAccount then
        Early(Error(400))
      else if op.id in t.keys then
        Early(Error(409))
      else
        var key := ApiKeyData(op.id, op.accountId, op.hashHex, op.displayPrefix, op.description,
                              op.expiresAt, None, None, op.timestamp, op.createdByAccount);
        Commit(t.(keys := t.keys[op.id := key]), ApiKeyIs(key), [])
    else if op.id !in t.keys then
      Early(Error(404))
    else
      var before := t.keys[op.id];
      var key := if before.revokedAt.None? then before.(revokedAt := Some(op.timestamp)) else before;
      Commit(t.(keys := t.keys[op.id := key]), ApiKeyIs(key), [])
  }

  function Step(env: Env, t: Tables, orgs: set<string>, projects: set<string>, op: IdentityOp): Outcome<Tables> {
    if op.CreateAccountByEmail? then ApplyInvite(env, t, op)
    else if op.EnsureAccountFromOidc? then ApplyLogin(env, t, op)
    else if op.CreateMembership? || op.DeleteMembership? then ApplyMembership(t, orgs, projects, op)
    else if op.BootstrapInitialPlatformAdmin? then ApplyBootstrap(t, op)
    else if op.CreateServiceAccount? then ApplyCreateService(t, projects, op)
    else if op.DeleteServiceAccount? then ApplyDeleteService(t, op)
    else ApplyKey(t, op)
  }
}

/** Who an account is: one account per OIDC identity, unambiguous invitations,
    and rows that belong to accounts that exist. */
module IdentityBinding {
  import opened Basics
  import opened Types
  import opened Identity

  ghost predicate LoweringIsIdempotent(env: Env) {
    forall s :: env.lower(env.lower(s)) == env.lower(s)
  }

  ghost predicate WellKeyed(t: Tables) {
    && (forall k :: k in t.accounts ==> t.accounts[k].id == k)
    && (forall k :: k in t.memberships ==> t.memberships[k].id == k)
    && (forall k :: k in t.keys ==> t.keys[k].id == k)
  }

  predicate SameIdentity(a: AccountData, b: AccountData) {
    a.externalIss.Some? && a.externalIss == b.externalIss && a.externalSub == b.externalSub
  }

  /** Issuer and subject are set together, and by at most one account. */
  ghost predicate OneHolder(accounts: map<string, AccountData>) {
    && (forall k :: k in accounts ==>
          (accounts[k].externalIss.Some? <==> accounts[k].externalSub.Some?))
    && (forall j, k :: j in accounts && k in accounts && SameIdentity(accounts[j], accounts[k]) ==> j == k)
  }

  predicate SameInvite(env: Env, a: AccountData, b: AccountData) {
    && a.externalIss.None? && b.externalIss.None? && a.email.Some? && b.email.Some?
    && env.lower(a.email.value) == env.lower(b.email.value)
  }

  /** Unlinked accounts differ in their lowercased email. */
  ghost predicate InvitesDistinct(env: Env, accounts: map<string, AccountData>) {
    forall j, k :: j in accounts && k in accounts && SameInvite(env, accounts[j], accounts[k]) ==> j == k
  }

  /** Service accounts carry neither an OIDC identity nor an email. */
  ghost predicate ServicesUnlinked(accounts: map<string, AccountData>) {
    forall k :: k in accounts && accounts[k].kind == ServiceAccount ==>
      accounts[k].externalIss.None? && accounts[k].externalSub.None? && accounts[k].email.None?
  }

  /** Every membership and every API key belongs to an account that exists. */
  ghost predicate Owned(t: Tables) {
    && (forall k :: k in t.memberships ==> t.memberships[k].accountId in t.accounts)
    && (forall k :: k in t.keys ==> t.keys[k].accountId in t.accounts)
  }

  ghost predicate Sound(t: Tables) {
    WellKeyed(t) && OneHolder(t.accounts) && ServicesUnlinked(t.accounts) && Owned(t)
  }

  lemma InviteKeepsSound(env: Env, t: Tables, op: IdentityOp)
    requires op.CreateAccountByEmail? && Sound(t)
    ensures var out := ApplyInvite(env, t, op); out.Commit? ==> Sound(out.tables)
  {
    hide EmailTaken;
  }

  lemma PutHolder(accounts: map<string, AccountData>, k: string, a: AccountData, iss: string, sub: string)
    requires OneHolder(accounts) && IsLinkedTo(a, iss, sub) && Holders(accounts, iss, sub) <= {k}
    ensures OneHolder(accounts[k := a])
  {
    assert forall j :: j in accounts && SameIdentity(a, accounts[j]) ==> j in Holders(accounts, iss, sub);
  }

  lemma SoleHolder(accounts: map<string, AccountData>, k: string, iss: string, sub: string)
    requires OneHolder(accounts) && k in Holders(accounts, iss, sub)
    ensures Holders(accounts, iss, sub) <= {k}
  {
    assert forall j :: j in Holders(accounts, iss, sub) ==> SameIdentity(accounts[j], accounts[k]);
  }

  lemma LoginKeepsHolders(env: Env, t: Tables, op: IdentityOp)
    requires op.EnsureAccountFromOidc? && OneHolder(t.accounts)
    ensures var out := ApplyLogin(env, t, op); out.Commit? ==> OneHolder(out.tables.accounts)
  {
    var holder := FirstKey(Holders(t.accounts, op.iss, op.sub));
    var invited := FirstKey(Invited(env, t.accounts, op.email));
    var k := if holder.Some? then holder.value else if invited.Some? then invited.value else op.newId;
    if holder.Some? { SoleHolder(t.accounts, k, op.iss, op.sub); }
    var a := ApplyLogin(env, t, op).response.account;
    assert IsLinkedTo(a, op.iss, op.sub);
    PutHolder(t.accounts, k, a, op.iss, op.sub);
    hide OneHolder, FirstKey;
  }

  lemma LoginKeepsServices(env: Env, t: Tables, op: IdentityOp)
    requires op.EnsureAccountFromOidc? && ServicesUnlinked(t.accounts)
    ensures var out := ApplyLogin(env, t, op); out.Commit? ==> ServicesUnlinked(out.tables.accounts)
  {
    hide LeqString;
  }

  lemma LoginKeepsOwned(env: Env, t: Tables, op: IdentityOp)
    requires op.EnsureAccountFromOidc? && WellKeyed(t) && Owned(t)
    ensures var out := ApplyLogin(env, t, op);
      out.Commit? ==> WellKeyed(out.tables) && Owned(out.tables)
  {
    hide LeqString;
  }

  lemma MembershipKeepsSound(env: Env, t: Tables, orgs: set<string>, projects: set<string>, op: IdentityOp)
    requires op.CreateMembership? || op.DeleteMembership? || op.BootstrapInitialPlatformAdmin?
             || op.CreateStaticApiKey? || op.RevokeStaticApiKey?
    requires Sound(t)
    ensures var out := Step(env, t, orgs, projects, op); out.Commit? ==> Sound(out.tables)
  {
    hide OneHolder, ServicesUnlinked;
    var out := Step(env, t, orgs, projects, op);
    assert out.Commit? ==> out.tables.accounts == t.accounts;
  }

  lemma CreateServiceKeepsSound(t: Tables, projects: set<string>, op: IdentityOp)
    requires op.CreateServiceAccount? && Sound(t)
    ensures var out := ApplyCreateService(t, projects, op); out.Commit? ==> Sound(out.tables)
  {
  }

  lemma DeleteServiceKeepsSound(t: Tables, op: IdentityOp)
    requires op.DeleteServiceAccount? && Sound(t)
    ensures var out := ApplyDeleteService(t, op); out.Commit? ==> Sound(out.tables)
  {
  }

  /** Every command keeps identities bound to one account, service accounts
      unlinked and rows owned. */
  lemma StepKeepsSound(env: Env, t: Tables, orgs: set<string>, projects: set<string>, op: IdentityOp)
    requires Sound(t)
    ensures var out := Step(env, t, orgs, projects, op); out.Commit? ==> Sound(out.tables)
  {
    if op.EnsureAccountFromOidc? {
      LoginKeepsHolders(env, t, op);
      LoginKeepsServices(env, t, op);
      LoginKeepsOwned(env, t, op);
    } else {
      hide Sound;
      if op.CreateAccountByEmail? { InviteKeepsSound(env, t, op); }
      else if op.CreateServiceAccount? { CreateServiceKeepsSound(t, projects, op); }
      else if op.DeleteServiceAccount? { DeleteServiceKeepsSound(t, op); }
      else { MembershipKeepsSound(env, t, orgs, projects, op); }
    }
  }

  /** If lowercasing is idempotent, every command keeps the lowercased emails of
      unlinked accounts distinct. */
  lemma StepKeepsInvites(env: Env, t: Tables, orgs: set<string>, projects: set<string>, op: IdentityOp)
    requires InvitesDistinct(env, t.accounts) && LoweringIsIdempotent(env)
    ensures var out := Step(env, t, orgs, projects, op);
      out.Commit? ==> InvitesDistinct(env, out.tables.accounts)
  {
    hide LeqString;
  }

  predicate SameService(a: AccountData, b: AccountData) {
    && a.kind == ServiceAccount && b.kind == ServiceAccount
    && a.projectSlug.Some? && a.projectSlug == b.projectSlug
    && a.displayName.Some? && a.displayName == b.displayName
  }

  /** Service accounts of a project differ in their names. */
  ghost predicate ServiceNamesUnique(accounts: map<string, AccountData>) {
    forall j, k :: j in accounts && k in accounts && SameService(accounts[j], accounts[k]) ==> j == k
  }

  lemma LoginKeepsServiceNames(env: Env, t: Tables, op: IdentityOp)
    requires op.EnsureAccountFromOidc? && ServiceNamesUnique(t.accounts) && ServicesUnlinked(t.accounts)
    ensures var out := ApplyLogin(env, t, op); out.Commit? ==> ServiceNamesUnique(out.tables.accounts)
  {
    hide FirstKey;
  }

  lemma StepKeepsServiceNames(env: Env, t: Tables, orgs: set<string>, projects: set<string>, op: IdentityOp)
    requires Sound(t) && ServiceNamesUnique(t.accounts)
    ensures var out := Step(env, t, orgs, projects, op); out.Commit? ==> ServiceNamesUnique(out.tables.accounts)
  {
    hide WellKeyed, OneHolder, Owned;
    if op.EnsureAccountFromOidc? {
      hide ServiceNamesUnique;
      LoginKeepsServiceNames(env, t, op);
    } else {
      hide ServicesUnlinked, ApplyLogin;
    }
  }

  /** Whatever the scan order, there is only one account an OIDC login can match,
      by identity or by invitation, and it is a user. */
  lemma MatchesAreUnique(env: Env, t: Tables, op: IdentityOp, j: string, k: string)
    requires Sound(t) && InvitesDistinct(env, t.accounts) && op.EnsureAccountFromOidc?
    requires || (j in Holders(t.accounts, op.iss, op.sub) && k in Holders(t.accounts, op.iss, op.sub))
             || (j in Invited(env, t.accounts, op.email) && k in Invited(env, t.accounts, op.email))
    ensures j == k
    ensures t.accounts[j].kind == User
  {
  }

  // ---------------------------------------------------- bindings over time

  /** The id under which the command writes a new account row, if it does. */
  function NewAccount(env: Env, t: Tables, projects: set<string>, op: IdentityOp): Option<string> {
    match op
    case CreateAccountByEmail(_, id, address, _) =>
      var e := env.lower(env.trim(address));
      if e != "" && !EmailTaken(env, t, e) then Some(id) else None
    case EnsureAccountFromOidc(_, id, iss, sub, email, _) =>
      if Holders(t.accounts, iss, sub) == {} && Invited(env, t.accounts, email) == {} then Some(id) else None
    case CreateServiceAccount(_, id, _, p, name, _, _) =>
      if p in projects && !ServiceNameTaken(t, p, name) then Some(id) else None
    case _ => None
  }

  ghost predicate HoldsSame(a: map<string, AccountData>, b: map<string, AccountData>, k: string) {
    k in a && k in b && b[k].externalIss == a[k].externalIss && b[k].externalSub == a[k].externalSub
  }

  /** A linked account keeps its identity exactly when the command does not
      write a new account over it: no handler checks that the new id is free. */
  lemma BindingKeptIff(env: Env, t: Tables, orgs: set<string>, projects: set<string>, op: IdentityOp, k: string)
    requires Sound(t) && k in t.accounts && t.accounts[k].externalIss.Some?
    ensures var out := Step(env, t, orgs, projects, op);
      out.Commit? ==> (HoldsSame(t.accounts, out.tables.accounts, k) <==> NewAccount(env, t, projects, op) != Some(k))
  {
    var out := Step(env, t, orgs, projects, op);
    if out.Commit? && op.EnsureAccountFromOidc? {
      if k in Holders(t.accounts, op.iss, op.sub) {
        assert Holders(t.accounts, op.iss, op.sub) != {};
      }
    }
  }

  /** An account row disappears only when a service account is deleted, and a
      new one appears only under the id the command brings. */
  lemma AccountsComeAndGo(env: Env, t: Tables, orgs: set<string>, projects: set<string>, op: IdentityOp, k: string)
    requires Step(env, t, orgs, projects, op).Commit?
    ensures var u := Step(env, t, orgs, projects, op).tables;
      && (k !in t.accounts && k in u.accounts ==> NewAccount(env, t, projects, op) == Some(k))
      && (k in t.accounts && k !in u.accounts ==> t.accounts[k].kind == ServiceAccount && op == DeleteServiceAccount(k))
  {
  }

  // ------------------------------------------------------- keys and cascades

  ghost predicate KeysOfServices(t: Tables) {
    forall k :: k in t.keys && t.keys[k].accountId in t.accounts ==>
      t.accounts[t.keys[k].accountId].kind == ServiceAccount
  }

  /** Writing a user account over a service account that has keys. */
  predicate DemotesKeyOwner(env: Env, t: Tables, projects: set<string>, op: IdentityOp) {
    !op.CreateServiceAccount?
    && exists k :: k in t.keys && NewAccount(env, t, projects, op) == Some(t.keys[k].accountId)
  }

  /** Every key's account stays a service account exactly when the command does
      not overwrite a key owner with a user. */
  lemma KeyOwnersKeptIff(env: Env, t: Tables, orgs: set<string>, projects: set<string>, op: IdentityOp)
    requires Sound(t) && KeysOfServices(t)
    ensures var out := Step(env, t, orgs, projects, op);
      out.Commit? ==> (KeysOfServices(out.tables) <==> !DemotesKeyOwner(env, t, projects, op))
  {
    hide OneHolder, ServicesUnlinked;
    var out := Step(env, t, orgs, projects, op);
    if out.Commit? && DemotesKeyOwner(env, t, projects, op) {
      var k :| k in t.keys && NewAccount(env, t, projects, op) == Some(t.keys[k].accountId);
      assert k in out.tables.keys && out.tables.accounts[out.tables.keys[k].accountId].kind == User;
    }
  }

  /** Deleting a service account removes it, all its keys and all its
      memberships, and nothing else. */
  lemma DeleteServiceRemovesExactly(t: Tables, op: IdentityOp)
    requires op.DeleteServiceAccount? && op.accountId in t.accounts
    requires t.accounts[op.accountId].kind == ServiceAccount
    ensures var out := ApplyDeleteService(t, op);
      && out.Commit?
      && out.tables.accounts == t.accounts - {op.accountId}
      && (forall k :: k in out.tables.keys <==> k in t.keys && t.keys[k].accountId != op.accountId)
      && (forall k :: k in out.tables.keys ==> out.tables.keys[k] == t.keys[k])
      && (forall k :: k in out.tables.memberships <==>
            k in t.memberships && t.memberships[k].accountId != op.accountId)
      && (forall k :: k in out.tables.memberships ==> out.tables.memberships[k] == t.memberships[k])
  {
  }

  ghost predicate AtMostOneAdmin(t: Tables) {
    forall j, k :: j in t.memberships && k in t.memberships ==>
      IsPlatformAdmin(t.memberships[j]) && IsPlatformAdmin(t.memberships[k]) ==> j == k
  }

  predicate GrantsSecondAdmin(t: Tables, op: IdentityOp) {
    op.CreateMembership? && op.scope == Platform && op.role == PlatformAdmin && HasPlatformAdmin(t)
  }

  /** There stays at most one platform admin exactly when no explicit grant adds
      another: concurrent bootstraps cannot. */
  lemma AdminsKeptIff(env: Env, t: Tables, orgs: set<string>, projects: set<string>, op: IdentityOp)
    requires AtMostOneAdmin(t)
    ensures var out := Step(env, t, orgs, projects, op);
      out.Commit? ==> (AtMostOneAdmin(out.tables) <==> !GrantsSecondAdmin(t, op))
  {
    var out := Step(env, t, orgs, projects, op);
    if out.Commit? && GrantsSecondAdmin(t, op) {
      var k :| k in t.memberships && IsPlatformAdmin(t.memberships[k]);
      assert k in out.tables.memberships && op.id in out.tables.memberships && k != op.id;
    }
  }
}
