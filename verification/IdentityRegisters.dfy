/** The registers of accounts, memberships and API keys. */
module IdentityRegisters {
  import opened Basics
  import opened Types
  import opened Identity
  import opened Registers

  datatype AccountPart = AccountBirth | AccountOidc | AccountEmail | AccountName | AccountTouched
  datatype KeyPart = KeyBirth | KeyRevocation

  datatype Register =
    | OfAccount(id: string, account: AccountPart)
    | OfMembership(id: string)
    | OfKey(id: string, key: KeyPart)

  // ----------------------------------------------------------------- reading

  function AccountField(a: AccountData, p: AccountPart): Value {
    match p
    case AccountBirth => AccountBorn(a.kind, a.projectSlug, a.description, a.createdAt)
    case AccountOidc => OidcIdentity(a.externalIss, a.externalSub)
    case AccountEmail => Note(a.email)
    case AccountName => Note(a.displayName)
    case AccountTouched => At(a.updatedAt)
  }

  function KeyField(k: ApiKeyData, p: KeyPart): Value {
    match p
    case KeyBirth =>
      KeyBorn(k.accountId, k.hashHex, k.displayPrefix, k.description, k.expiresAt, k.lastUsedAt, k.createdAt,
              k.createdByAccount)
    case KeyRevocation => Note(k.revokedAt)
  }

  function Read(t: Tables, r: Register): Option<Value> {
    match r
    case OfAccount(k, p) => if k in t.accounts then Some(AccountField(t.accounts[k], p)) else None
    case OfMembership(k) =>
      if k !in t.memberships then None
      else
        var m := t.memberships[k];
        Some(Grant(m.accountId, m.scope, m.role, m.createdByAccount, m.createdAt))
    case OfKey(k, p) => if k in t.keys then Some(KeyField(t.keys[k], p)) else None
  }

  // ----------------------------------------------------------------- writing

  predicate Carries(a: AccountData, iss: string, sub: string) {
    a.externalIss == Some(iss) && a.externalSub == Some(sub)
  }

  /** The account of a login: the first in key order that holds the identity. */
  ghost predicate Holds(t: Tables, iss: string, sub: string, k: string) {
    && k in t.accounts && Carries(t.accounts[k], iss, sub)
    && forall j :: j in t.accounts && Carries(t.accounts[j], iss, sub) ==> LeqString(k, j)
  }

  ghost predicate IsHeld(t: Tables, iss: string, sub: string) {
    exists k :: k in t.accounts && Carries(t.accounts[k], iss, sub)
  }

  predicate Waits(env: Env, a: AccountData, email: string) {
    && a.externalIss.None? && a.externalSub.None?
    && a.email.Some? && env.lower(a.email.value) == env.lower(email)
  }

  /** Else the first in key order that was invited under the email. */
  ghost predicate Awaits(env: Env, t: Tables, email: Option<string>, k: string) {
    && email.Some? && k in t.accounts && Waits(env, t.accounts[k], email.value)
    && forall j :: j in t.accounts && Waits(env, t.accounts[j], email.value) ==> LeqString(k, j)
  }

  ghost predicate IsAwaited(env: Env, t: Tables, email: Option<string>) {
    email.Some? && exists k :: k in t.accounts && Waits(env, t.accounts[k], email.value)
  }

  /** The row of a known account takes the email and name that the login brings. */
  function Refreshed(a: AccountData, email: Option<string>, name: Option<string>, at: string, p: AccountPart)
    : Effect<Value>
  {
    if p.AccountEmail? && email.Some? then Set(Note(email))
    else if p.AccountName? && name.Some? then Set(Note(name))
    else if p.AccountTouched? && ((email.Some? && email != a.email) || (name.Some? && name != a.displayName))
    then Set(At(at))
    else Keep
  }

  function Linked(iss: string, sub: string, email: Option<string>, name: Option<string>, at: string, p: AccountPart)
    : Effect<Value>
  {
    match p
    case AccountBirth => Keep
    case AccountOidc => Set(OidcIdentity(Some(iss), Some(sub)))
    case AccountEmail => Set(Note(email))
    case AccountName => if name.Some? then Set(Note(name)) else Keep
    case AccountTouched => Set(At(at))
  }

  ghost function AccountEffect(env: Env, t: Tables, op: IdentityOp, k: string, p: AccountPart): Effect<Value> {
    match op
    case CreateAccountByEmail(at, id, address, name) => (
      if id != k then Keep else
      match p
      case AccountBirth => Set(AccountBorn(User, None, None, at))
      case AccountOidc => Set(OidcIdentity(None, None))
      case AccountEmail => Set(Note(Some(env.lower(env.trim(address)))))
      case AccountName => Set(Note(name))
      case AccountTouched => Set(At(at)))
    case EnsureAccountFromOidc(at, id, iss, sub, email, name) => (
      if IsHeld(t, iss, sub) then
        if Holds(t, iss, sub, k) then Refreshed(t.accounts[k], email, name, at, p) else Keep
      else if IsAwaited(env, t, email) then
        if Awaits(env, t, email, k) then Linked(iss, sub, email, name, at, p) else Keep
      else if id != k then Keep else
      match p
      case AccountBirth => Set(AccountBorn(User, None, None, at))
      case AccountOidc => Set(OidcIdentity(Some(iss), Some(sub)))
      case AccountEmail => Set(Note(email))
      case AccountName => Set(Note(name))
      case AccountTouched => Set(At(at)))
    case CreateServiceAccount(at, id, _, project, name, description, _) => (
      if id != k then Keep else
      match p
      case AccountBirth => Set(AccountBorn(ServiceAccount, Some(project), description, at))
      case AccountOidc => Set(OidcIdentity(None, None))
      case AccountEmail => Set(Note(None))
      case AccountName => Set(Note(Some(name)))
      case AccountTouched => Set(At(at)))
    case DeleteServiceAccount(id) => if id == k then Erase else Keep
    case _ => Keep
  }

  function MembershipEffect(t: Tables, op: IdentityOp, k: string): Effect<Value> {
    match op
    case CreateMembership(at, id, account, scope, role, creator) =>
      if id == k then Set(Grant(account, scope, role, creator, at)) else Keep
    case BootstrapInitialPlatformAdmin(at, id, account) =>
      if id == k then Set(Grant(account, Platform, PlatformAdmin, account, at)) else Keep
    case CreateServiceAccount(at, account, id, project, _, _, creator) =>
      if id == k then Set(Grant(account, ProjectScope(project), ProjectAdmin, creator, at)) else Keep
    case DeleteMembership(id) => if id == k then Erase else Keep
    case DeleteServiceAccount(account) =>
      if k in t.memberships && t.memberships[k].accountId == account then Erase else Keep
    case _ => Keep
  }

  /** The first revocation of a key counts. */
  function KeyEffect(t: Tables, op: IdentityOp, k: string, p: KeyPart): Effect<Value> {
    match op
    case CreateStaticApiKey(at, id, account, hash, prefix, description, expires, creator) =>
      if id != k then Keep
      else if p.KeyRevocation? then Set(Note(None))
      else Set(KeyBorn(account, hash, prefix, description, expires, None, at, creator))
    case RevokeStaticApiKey(at, id) =>
      if id == k && p.KeyRevocation? && k in t.keys && t.keys[k].revokedAt.None? then Set(Note(Some(at))) else Keep
    case DeleteServiceAccount(account) => if k in t.keys && t.keys[k].accountId == account then Erase else Keep
    case _ => Keep
  }

  ghost function EffectOf(env: Env, t: Tables, op: IdentityOp, r: Register): Effect<Value> {
    match r
    case OfAccount(k, p) => AccountEffect(env, t, op, k, p)
    case OfMembership(k) => MembershipEffect(t, op, k)
    case OfKey(k, p) => KeyEffect(t, op, k, p)
  }

  ghost predicate Writes(env: Env, t: Tables, op: IdentityOp, r: Register, out: Outcome<Tables>) {
    out.Commit? ==> Read(out.tables, r) == EffectOf(env, t, op, r).On(Read(t, r))
  }

  // ------------------------------------------------------------------ proofs

  lemma FirstHolds(t: Tables, iss: string, sub: string, k: string)
    ensures FirstKey(Holders(t.accounts, iss, sub)) == Some(k) <==> Holds(t, iss, sub, k)
    ensures Holds(t, iss, sub, k) ==> k in t.accounts
    ensures FirstKey(Holders(t.accounts, iss, sub)).Some? <==> IsHeld(t, iss, sub)
  {
    LeqStringIsTotalOrder();
    hide LeqString;
    var s := Holders(t.accounts, iss, sub);
    assert forall j :: j in t.accounts && Carries(t.accounts[j], iss, sub) ==> j in s;
    if Holds(t, iss, sub, k) {
      assert k in s;
      assert LeqString(FirstKey(s).value, k) && LeqString(k, FirstKey(s).value);
    }
  }

  lemma FirstAwaits(env: Env, t: Tables, email: Option<string>, k: string)
    ensures FirstKey(Invited(env, t.accounts, email)) == Some(k) <==> Awaits(env, t, email, k)
    ensures Awaits(env, t, email, k) ==> k in t.accounts
    ensures FirstKey(Invited(env, t.accounts, email)).Some? <==> IsAwaited(env, t, email)
  {
    LeqStringIsTotalOrder();
    hide LeqString;
    var s := Invited(env, t.accounts, email);
    assert email.Some? ==> forall j :: j in t.accounts && Waits(env, t.accounts[j], email.value) ==> j in s;
    if Awaits(env, t, email, k) {
      assert k in s;
      assert LeqString(FirstKey(s).value, k) && LeqString(k, FirstKey(s).value);
    }
  }

  lemma RefreshWrites(a: AccountData, op: IdentityOp, p: AccountPart)
    requires op.EnsureAccountFromOidc?
    ensures Some(AccountField(Refresh(a, op), p))
            == Refreshed(a, op.email, op.displayName, op.timestamp, p).On(Some(AccountField(a, p)))
  {
  }

  lemma LoginWrites(env: Env, t: Tables, op: IdentityOp, r: Register)
    requires op.EnsureAccountFromOidc?
    ensures Writes(env, t, op, r, ApplyLogin(env, t, op))
  {
    hide FirstKey, Holders, Invited, Holds, Awaits, IsHeld, IsAwaited, LeqString;
    if r.OfAccount? {
      FirstHolds(t, op.iss, op.sub, r.id);
      FirstAwaits(env, t, op.email, r.id);
      hide Refresh, Refreshed;
      if IsHeld(t, op.iss, op.sub) {
        hide Linked;
        if Holds(t, op.iss, op.sub, r.id) { RefreshWrites(t.accounts[r.id], op, r.account); }
      }
    }
  }

  lemma OtherStepWrites(env: Env, t: Tables, orgs: set<string>, projects: set<string>, op: IdentityOp, r: Register)
    requires !op.EnsureAccountFromOidc?
    ensures Writes(env, t, op, r, Step(env, t, orgs, projects, op))
  {
    hide ApplyLogin, EmailTaken, ServiceNameTaken, ScopeExists, HasPlatformAdmin;
  }

  /** One command, every register. */
  lemma StepWrites(env: Env, t: Tables, orgs: set<string>, projects: set<string>, op: IdentityOp, r: Register)
    ensures Writes(env, t, op, r, Step(env, t, orgs, projects, op))
  {
    hide Writes, ApplyLogin;
    if op.EnsureAccountFromOidc? { LoginWrites(env, t, op, r); }
    else { OtherStepWrites(env, t, orgs, projects, op, r); }
  }
}
