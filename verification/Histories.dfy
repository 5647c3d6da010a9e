/** What a run preserves as long as it avoids the commands that can break it,
    and what it conserves whatever it does. */
module Histories {
  import opened Basics
  import opened Types
  import opened ControlPlane
  import Compute
  import Storage
  import Tenancy
  import Fleet
  import Identity
  import NicCounters
  import BackLinks
  import CloneAccounting
  import Onboarding
  import IdentityBinding

  // ----------------------------------------------- one command, lifted

  lemma HandleCounts(env: Env, db: Db, op: Op, oracle: Oracle)
    requires NicCounters.Exact(db.compute)
    requires !(op.OnCompute? && NicCounters.LeaksReference(db.compute, op.compute))
    ensures match Handle(env, db, op, oracle)
      case Commit(after, _, _) => NicCounters.Exact(after.compute)
      case Early(_) => true
  {
    hide Compute.Step, Storage.Step, Fleet.Step, Tenancy.Step, Identity.Step;
    hide NicCounters.Exact, NicCounters.LeaksReference;
    if op.OnCompute? {
      NicCounters.StepKeepsExactIff(env, db.compute, db.tenancy.projects.Keys, op.compute, oracle.now);
    }
  }

  lemma HandleLinks(env: Env, db: Db, op: Op, oracle: Oracle)
    requires BackLinks.BackLinked(db.compute)
    requires !(op.OnCompute? && BackLinks.Strands(db.compute, op.compute))
    ensures match Handle(env, db, op, oracle)
      case Commit(after, _, _) => BackLinks.BackLinked(after.compute)
      case Early(_) => true
  {
    hide Compute.Step, Storage.Step, Fleet.Step, Tenancy.Step, Identity.Step;
    hide BackLinks.BackLinked, BackLinks.Strands;
    if op.OnCompute? {
      BackLinks.StepKeepsLinksIff(env, db.compute, db.tenancy.projects.Keys, op.compute, oracle.now);
    }
  }

  lemma HandleNames(env: Env, db: Db, op: Op, oracle: Oracle)
    requires BackLinks.NamesUnique(db.compute)
    ensures match Handle(env, db, op, oracle)
      case Commit(after, _, _) => BackLinks.NamesUnique(after.compute)
      case Early(_) => true
  {
    hide Compute.Step, Storage.Step, Fleet.Step, Tenancy.Step, Identity.Step, BackLinks.NamesUnique;
    if op.OnCompute? {
      BackLinks.StepKeepsNames(env, db.compute, db.tenancy.projects.Keys, op.compute, oracle.now);
    }
  }

  lemma HandleGroupNames(env: Env, db: Db, op: Op, oracle: Oracle)
    requires BackLinks.GroupNamesUnique(db.compute)
    requires !(op.OnCompute? && BackLinks.RenameCollides(db.compute, op.compute))
    ensures match Handle(env, db, op, oracle)
      case Commit(after, _, _) => BackLinks.GroupNamesUnique(after.compute)
      case Early(_) => true
  {
    hide Compute.Step, Storage.Step, Fleet.Step, Tenancy.Step, Identity.Step;
    hide BackLinks.GroupNamesUnique, BackLinks.RenameCollides;
    if op.OnCompute? {
      BackLinks.StepKeepsGroupNamesIff(env, db.compute, db.tenancy.projects.Keys, op.compute, oracle.now);
    }
  }

  lemma HandleRosters(env: Env, db: Db, op: Op, oracle: Oracle)
    requires Onboarding.RostersLive(db.fleet)
    requires !(op.OnFleet? && Onboarding.StrandsRoster(db.fleet, op.fleet))
    ensures match Handle(env, db, op, oracle)
      case Commit(after, _, _) => Onboarding.RostersLive(after.fleet)
      case Early(_) => true
  {
    hide Compute.Step, Storage.Step, Fleet.Step, Tenancy.Step, Identity.Step;
    hide Onboarding.RostersLive, Onboarding.StrandsRoster;
    if op.OnFleet? {
      Onboarding.StepKeepsRostersIff(env, db.fleet, db.tenancy.orgs.Keys, op.fleet, oracle.leaf);
    }
  }

  lemma HandleIdentity(env: Env, db: Db, op: Op, oracle: Oracle)
    requires IdentityBinding.Sound(db.identity)
    ensures match Handle(env, db, op, oracle)
      case Commit(after, _, _) => IdentityBinding.Sound(after.identity)
      case Early(_) => true
  {
    hide Compute.Step, Storage.Step, Fleet.Step, Tenancy.Step, Identity.Step, IdentityBinding.Sound;
    if op.OnIdentity? {
      IdentityBinding.StepKeepsSound(env, db.identity, db.tenancy.orgs.Keys, db.tenancy.projects.Keys, op.identity);
    }
  }

  lemma HandleInvites(env: Env, db: Db, op: Op, oracle: Oracle)
    requires IdentityBinding.LoweringIsIdempotent(env)
    requires IdentityBinding.InvitesDistinct(env, db.identity.accounts)
    ensures match Handle(env, db, op, oracle)
      case Commit(after, _, _) => IdentityBinding.InvitesDistinct(env, after.identity.accounts)
      case Early(_) => true
  {
    hide Compute.Step, Storage.Step, Fleet.Step, Tenancy.Step, Identity.Step;
    hide IdentityBinding.InvitesDistinct, IdentityBinding.LoweringIsIdempotent;
    if op.OnIdentity? {
      IdentityBinding.StepKeepsInvites(env, db.identity, db.tenancy.orgs.Keys, db.tenancy.projects.Keys, op.identity);
    }
  }

  /** The command writes a new account row under id `k`. */
  predicate Overwrites(env: Env, db: Db, op: Op, k: string) {
    op.OnIdentity? && IdentityBinding.NewAccount(env, db.identity, db.tenancy.projects.Keys, op.identity) == Some(k)
  }

  lemma HandleBinding(env: Env, db: Db, op: Op, oracle: Oracle, k: string)
    requires IdentityBinding.Sound(db.identity) && !Overwrites(env, db, op, k)
    requires k in db.identity.accounts && db.identity.accounts[k].externalIss.Some?
    ensures match Handle(env, db, op, oracle)
      case Commit(after, _, _) => IdentityBinding.HoldsSame(db.identity.accounts, after.identity.accounts, k)
      case Early(_) => true
  {
    hide Compute.Step, Storage.Step, Fleet.Step, Tenancy.Step, Identity.Step;
    hide IdentityBinding.Sound, IdentityBinding.NewAccount;
    if op.OnIdentity? {
      IdentityBinding.BindingKeptIff(env, db.identity, db.tenancy.orgs.Keys, db.tenancy.projects.Keys, op.identity, k);
    }
  }

  /** The command makes the owner of some API key a user account. */
  predicate Demotes(env: Env, db: Db, op: Op) {
    op.OnIdentity? && IdentityBinding.DemotesKeyOwner(env, db.identity, db.tenancy.projects.Keys, op.identity)
  }

  lemma HandleKeyOwners(env: Env, db: Db, op: Op, oracle: Oracle)
    requires IdentityBinding.Sound(db.identity) && IdentityBinding.KeysOfServices(db.identity)
    requires !Demotes(env, db, op)
    ensures match Handle(env, db, op, oracle)
      case Commit(after, _, _) => IdentityBinding.KeysOfServices(after.identity)
      case Early(_) => true
  {
    hide Compute.Step, Storage.Step, Fleet.Step, Tenancy.Step, Identity.Step;
    hide IdentityBinding.Sound, IdentityBinding.KeysOfServices, IdentityBinding.DemotesKeyOwner;
    if op.OnIdentity? {
      IdentityBinding.KeyOwnersKeptIff(env, db.identity, db.tenancy.orgs.Keys, db.tenancy.projects.Keys, op.identity);
    }
  }

  lemma HandleAdmins(env: Env, db: Db, op: Op, oracle: Oracle)
    requires IdentityBinding.AtMostOneAdmin(db.identity)
    requires !(op.OnIdentity? && IdentityBinding.GrantsSecondAdmin(db.identity, op.identity))
    ensures match Handle(env, db, op, oracle)
      case Commit(after, _, _) => IdentityBinding.AtMostOneAdmin(after.identity)
      case Early(_) => true
  {
    hide Compute.Step, Storage.Step, Fleet.Step, Tenancy.Step, Identity.Step;
    hide IdentityBinding.AtMostOneAdmin, IdentityBinding.GrantsSecondAdmin;
    if op.OnIdentity? {
      IdentityBinding.AdminsKeptIff(env, db.identity, db.tenancy.orgs.Keys, db.tenancy.projects.Keys, op.identity);
    }
  }

  // --------------------------------------------------------------- runs

  /** A command that is not `bad` for the database keeps the invariant. */
  ghost predicate Keeps(env: Env, inv: Db -> bool, bad: (Db, Op) -> bool, db: Db, op: Op, oracle: Oracle) {
    inv(db) && !bad(db, op) ==>
      match Handle(env, db, op, oracle)
      case Commit(after, _, _) => inv(after)
      case Early(_) => true
  }

  /** What single commands keep, runs that avoid the bad ones keep. */
  lemma {:induction false} Survives(env: Env, s: State, q: seq<Input>, inv: Db -> bool, bad: (Db, Op) -> bool)
    requires inv(s.db) && Avoids(env, s, q, bad)
    requires forall db, op, oracle :: Keeps(env, inv, bad, db, op, oracle)
    ensures inv(RunFrom(env, s, q).db)
    decreases |q|
  {
    hide Handle;
    if q != [] {
      var p, i := q[..|q| - 1], q[|q| - 1];
      Survives(env, s, p, inv, bad);
      assert Keeps(env, inv, bad, RunFrom(env, s, p).db, i.cmd.op, i.oracle);
    }
  }

  predicate NeverBad(db: Db, op: Op) {
    false
  }

  lemma {:induction false} NothingToAvoid(env: Env, s: State, q: seq<Input>)
    ensures Avoids(env, s, q, NeverBad)
    decreases |q|
  {
    hide RunFrom;
    if q != [] {
      NothingToAvoid(env, s, q[..|q| - 1]);
    }
  }

  predicate Leaking(db: Db, op: Op) {
    op.OnCompute? && NicCounters.LeaksReference(db.compute, op.compute)
  }

  /** Security-group counters stay exact as long as no network delete takes a
      NIC with a group along. */
  lemma GroupCountsSurvive(env: Env, s: State, q: seq<Input>)
    requires NicCounters.Exact(s.db.compute) && Avoids(env, s, q, Leaking)
    ensures NicCounters.Exact(RunFrom(env, s, q).db.compute)
  {
    hide Handle, Avoids, RunFrom, NicCounters.Exact;
    var inv := (db: Db) => NicCounters.Exact(db.compute);
    forall db, op, oracle ensures Keeps(env, inv, Leaking, db, op, oracle) {
      if inv(db) && !Leaking(db, op) { HandleCounts(env, db, op, oracle); }
    }
    Survives(env, s, q, inv, Leaking);
  }

  predicate Stranding(db: Db, op: Op) {
    op.OnCompute? && BackLinks.Strands(db.compute, op.compute)
  }

  /** Without a stranding command, every linked NIC names a live VM whose spec
      names that NIC, after any run. */
  lemma LinksSurvive(env: Env, s: State, q: seq<Input>)
    requires BackLinks.BackLinked(s.db.compute) && Avoids(env, s, q, Stranding)
    ensures BackLinks.BackLinked(RunFrom(env, s, q).db.compute)
  {
    hide Handle, Avoids, RunFrom, BackLinks.BackLinked;
    var inv := (db: Db) => BackLinks.BackLinked(db.compute);
    forall db, op, oracle ensures Keeps(env, inv, Stranding, db, op, oracle) {
      if inv(db) && !Stranding(db, op) { HandleLinks(env, db, op, oracle); }
    }
    Survives(env, s, q, inv, Stranding);
  }

  /** Network and VM names stay unique within a project over every run. */
  lemma NamesSurvive(env: Env, s: State, q: seq<Input>)
    requires BackLinks.NamesUnique(s.db.compute)
    ensures BackLinks.NamesUnique(RunFrom(env, s, q).db.compute)
  {
    hide Handle, Avoids, RunFrom, BackLinks.NamesUnique;
    var inv := (db: Db) => BackLinks.NamesUnique(db.compute);
    forall db, op, oracle ensures Keeps(env, inv, NeverBad, db, op, oracle) {
      if inv(db) { HandleNames(env, db, op, oracle); }
    }
    NothingToAvoid(env, s, q);
    Survives(env, s, q, inv, NeverBad);
  }

  predicate Colliding(db: Db, op: Op) {
    op.OnCompute? && BackLinks.RenameCollides(db.compute, op.compute)
  }

  /** Group names do over every run without a colliding rename. */
  lemma GroupNamesSurvive(env: Env, s: State, q: seq<Input>)
    requires BackLinks.GroupNamesUnique(s.db.compute) && Avoids(env, s, q, Colliding)
    ensures BackLinks.GroupNamesUnique(RunFrom(env, s, q).db.compute)
  {
    hide Handle, Avoids, RunFrom, BackLinks.GroupNamesUnique;
    var inv := (db: Db) => BackLinks.GroupNamesUnique(db.compute);
    forall db, op, oracle ensures Keeps(env, inv, Colliding, db, op, oracle) {
      if inv(db) && !Colliding(db, op) { HandleGroupNames(env, db, op, oracle); }
    }
    Survives(env, s, q, inv, Colliding);
  }

  predicate RosterStranding(db: Db, op: Op) {
    op.OnFleet? && Onboarding.StrandsRoster(db.fleet, op.fleet)
  }

  /** Without a stranding command, clusters list only nodes that exist. */
  lemma RostersSurvive(env: Env, s: State, q: seq<Input>)
    requires Onboarding.RostersLive(s.db.fleet) && Avoids(env, s, q, RosterStranding)
    ensures Onboarding.RostersLive(RunFrom(env, s, q).db.fleet)
  {
    hide Handle, Avoids, RunFrom, Onboarding.RostersLive;
    var inv := (db: Db) => Onboarding.RostersLive(db.fleet);
    forall db, op, oracle ensures Keeps(env, inv, RosterStranding, db, op, oracle) {
      if inv(db) && !RosterStranding(db, op) { HandleRosters(env, db, op, oracle); }
    }
    Survives(env, s, q, inv, RosterStranding);
  }

  lemma IdentitySurvives(env: Env, s: State, q: seq<Input>)
    requires IdentityBinding.Sound(s.db.identity)
    ensures IdentityBinding.Sound(RunFrom(env, s, q).db.identity)
  {
    hide Handle, Avoids, RunFrom, IdentityBinding.Sound;
    var inv := (db: Db) => IdentityBinding.Sound(db.identity);
    forall db, op, oracle ensures Keeps(env, inv, NeverBad, db, op, oracle) {
      if inv(db) { HandleIdentity(env, db, op, oracle); }
    }
    NothingToAvoid(env, s, q);
    Survives(env, s, q, inv, NeverBad);
  }

  /** Unlinked accounts have distinct lowercased emails after any run. */
  lemma InvitesSurvive(env: Env, s: State, q: seq<Input>)
    requires IdentityBinding.LoweringIsIdempotent(env)
    requires IdentityBinding.InvitesDistinct(env, s.db.identity.accounts)
    ensures IdentityBinding.InvitesDistinct(env, RunFrom(env, s, q).db.identity.accounts)
  {
    hide Handle, Avoids, RunFrom, IdentityBinding.InvitesDistinct, IdentityBinding.LoweringIsIdempotent;
    var inv := (db: Db) => IdentityBinding.InvitesDistinct(env, db.identity.accounts);
    forall db, op, oracle ensures Keeps(env, inv, NeverBad, db, op, oracle) {
      if inv(db) { HandleInvites(env, db, op, oracle); }
    }
    NothingToAvoid(env, s, q);
    Survives(env, s, q, inv, NeverBad);
  }

  function Overwriting(env: Env, k: string): (Db, Op) -> bool {
    (db: Db, op: Op) => Overwrites(env, db, op, k)
  }

  /** A linked account keeps its OIDC identity through every run that writes no
      new account over it; runs whose new ids are fresh never do. */
  lemma BindingSurvives(env: Env, s: State, q: seq<Input>, k: string)
    requires IdentityBinding.Sound(s.db.identity)
    requires k in s.db.identity.accounts && s.db.identity.accounts[k].externalIss.Some?
    requires Avoids(env, s, q, Overwriting(env, k))
    ensures IdentityBinding.HoldsSame(s.db.identity.accounts, RunFrom(env, s, q).db.identity.accounts, k)
  {
    hide Handle, Avoids, RunFrom, IdentityBinding.Sound, Overwrites;
    var inv := (db: Db) => IdentityBinding.Sound(db.identity)
                           && IdentityBinding.HoldsSame(s.db.identity.accounts, db.identity.accounts, k);
    forall db, op, oracle ensures Keeps(env, inv, Overwriting(env, k), db, op, oracle) {
      if inv(db) && !Overwrites(env, db, op, k) {
        HandleIdentity(env, db, op, oracle);
        HandleBinding(env, db, op, oracle, k);
      }
    }
    Survives(env, s, q, inv, Overwriting(env, k));
  }

  function Demoting(env: Env): (Db, Op) -> bool {
    (db: Db, op: Op) => Demotes(env, db, op)
  }

  /** Every API key's account stays a service account through every run that
      does not write a user over a key owner. */
  lemma KeyOwnersSurvive(env: Env, s: State, q: seq<Input>)
    requires IdentityBinding.Sound(s.db.identity) && IdentityBinding.KeysOfServices(s.db.identity)
    requires Avoids(env, s, q, Demoting(env))
    ensures IdentityBinding.KeysOfServices(RunFrom(env, s, q).db.identity)
  {
    hide Handle, Avoids, RunFrom, IdentityBinding.Sound, IdentityBinding.KeysOfServices, Demotes;
    var inv := (db: Db) => IdentityBinding.Sound(db.identity) && IdentityBinding.KeysOfServices(db.identity);
    forall db, op, oracle ensures Keeps(env, inv, Demoting(env), db, op, oracle) {
      if inv(db) && !Demotes(env, db, op) {
        HandleIdentity(env, db, op, oracle);
        HandleKeyOwners(env, db, op, oracle);
      }
    }
    Survives(env, s, q, inv, Demoting(env));
  }

  predicate Granting(db: Db, op: Op) {
    op.OnIdentity? && IdentityBinding.GrantsSecondAdmin(db.identity, op.identity)
  }

  /** Without an explicit second grant there is at most one platform admin,
      however many bootstraps race. */
  lemma AdminsSurvive(env: Env, s: State, q: seq<Input>)
    requires IdentityBinding.AtMostOneAdmin(s.db.identity) && Avoids(env, s, q, Granting)
    ensures IdentityBinding.AtMostOneAdmin(RunFrom(env, s, q).db.identity)
  {
    hide Handle, Avoids, RunFrom, IdentityBinding.AtMostOneAdmin;
    var inv := (db: Db) => IdentityBinding.AtMostOneAdmin(db.identity);
    forall db, op, oracle ensures Keeps(env, inv, Granting, db, op, oracle) {
      if inv(db) && !Granting(db, op) { HandleAdmins(env, db, op, oracle); }
    }
    Survives(env, s, q, inv, Granting);
  }

  // -------------------------------------------------- token conservation

  datatype Ledger = Ledger(issued: nat, redeemed: nat, withdrawn: nat)

  /** Tokens of one hash issued, redeemed and withdrawn by executed commands. */
  ghost function LedgerOf(env: Env, s: State, q: seq<Input>, hash: string): Ledger
    decreases |q|
  {
    if q == [] then Ledger(0, 0, 0)
    else
      var p, i := q[..|q| - 1], q[|q| - 1];
      Book(env, RunFrom(env, s, p), i, hash, LedgerOf(env, s, p, hash))
  }

  ghost function Book(env: Env, s: State, i: Input, hash: string, l: Ledger): Ledger {
    if Executes(s, i) && i.cmd.op.OnFleet? then
      var op := i.cmd.op.fleet;
      var out := Fleet.Step(env, s.db.fleet, s.db.tenancy.orgs.Keys, op, i.oracle.leaf);
      Ledger(l.issued + Onboarding.Issued(op, out, hash),
             l.redeemed + Onboarding.Redeemed(op, out, hash),
             l.withdrawn + Onboarding.Withdrawn(s.db.fleet, out, hash))
    else l
  }

  lemma BookBalances(env: Env, s: State, i: Input, hash: string, l: Ledger)
    ensures var m := Book(env, s, i, hash, l);
      var after := Apply(env, s, i).state;
      |Onboarding.Unused(after.db.fleet.tokens, hash)| + m.redeemed + m.withdrawn - m.issued
      == |Onboarding.Unused(s.db.fleet.tokens, hash)| + l.redeemed + l.withdrawn - l.issued
  {
    hide Compute.Step, Storage.Step, Fleet.Step, Tenancy.Step, Identity.Step, Onboarding.Unused;
    if Executes(s, i) && i.cmd.op.OnFleet? {
      Onboarding.StepConservesTokens(env, s.db.fleet, s.db.tenancy.orgs.Keys, i.cmd.op.fleet, i.oracle.leaf, hash);
    }
  }

  /** For every token hash: issued == redeemed + still unredeemed + withdrawn.
      So a token is never redeemed more often than it was issued. */
  lemma {:induction false} TokensConserved(env: Env, q: seq<Input>, hash: string)
    ensures var l := LedgerOf(env, Init, q, hash);
      l.issued == l.redeemed + |Onboarding.Unused(Run(env, q).db.fleet.tokens, hash)| + l.withdrawn
    decreases |q|
  {
    if q == [] {
      assert Onboarding.Unused(Run(env, q).db.fleet.tokens, hash) == {};
    } else {
      hide Handle, Book, Apply, Onboarding.Unused;
      var p, i := q[..|q| - 1], q[|q| - 1];
      TokensConserved(env, p, hash);
      BookBalances(env, Run(env, p), i, hash, LedgerOf(env, Init, p, hash));
    }
  }

  // ------------------------------------------------- rows while they live

  lemma HandleTokens(env: Env, db: Db, op: Op, oracle: Oracle, k: string)
    requires k in db.fleet.tokens
    ensures match Handle(env, db, op, oracle)
      case Commit(after, _, _) =>
        k in after.fleet.tokens && db.fleet.tokens[k].usedAt.Some? ==>
          after.fleet.tokens[k] == db.fleet.tokens[k]
      case Early(_) => true
  {
    hide Compute.Step, Storage.Step, Fleet.Step, Tenancy.Step, Identity.Step;
    if op.OnFleet? {
      Onboarding.UsedTokensStayUsed(env, db.fleet, db.tenancy.orgs.Keys, op.fleet, oracle.leaf, k);
    }
  }

  /** A redeemed token is frozen for as long as its row exists. */
  lemma {:induction false} UsedTokenIsFrozen(env: Env, s: State, q: seq<Input>, k: string)
    requires Always(env, s, q, (db: Db) => k in db.fleet.tokens)
    requires k in s.db.fleet.tokens && s.db.fleet.tokens[k].usedAt.Some?
    ensures k in RunFrom(env, s, q).db.fleet.tokens
    ensures RunFrom(env, s, q).db.fleet.tokens[k] == s.db.fleet.tokens[k]
    decreases |q|
  {
    hide Handle;
    if q != [] {
      var p, i := q[..|q| - 1], q[|q| - 1];
      UsedTokenIsFrozen(env, s, p, k);
      HandleTokens(env, RunFrom(env, s, p).db, i.cmd.op, i.oracle, k);
    }
  }

  lemma HandleVolumes(env: Env, db: Db, op: Op, oracle: Oracle, k: string)
    requires k in db.storage.volumes
    ensures match Handle(env, db, op, oracle)
      case Commit(after, _, _) =>
        k in after.storage.volumes ==> CloneAccounting.Grown(db.storage.volumes[k], after.storage.volumes[k])
      case Early(_) => true
  {
    hide Compute.Step, Storage.Step, Fleet.Step, Tenancy.Step, Identity.Step;
    if op.OnStorage? {
      CloneAccounting.VolumesOnlyGrow(db.storage, db.tenancy.projects.Keys, op.storage, k);
    }
  }

  /** While it exists a volume does not shrink, keeps its template and loses no
      snapshot. */
  lemma {:induction false} VolumeOnlyGrows(env: Env, s: State, q: seq<Input>, k: string)
    requires Always(env, s, q, (db: Db) => k in db.storage.volumes)
    ensures k in s.db.storage.volumes && k in RunFrom(env, s, q).db.storage.volumes
    ensures CloneAccounting.Grown(s.db.storage.volumes[k], RunFrom(env, s, q).db.storage.volumes[k])
    decreases |q|
  {
    hide Handle;
    if q != [] {
      var p, i := q[..|q| - 1], q[|q| - 1];
      VolumeOnlyGrows(env, s, p, k);
      HandleVolumes(env, RunFrom(env, s, p).db, i.cmd.op, i.oracle, k);
    }
  }
}
