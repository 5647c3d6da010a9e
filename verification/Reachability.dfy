/** States that a list of commands leads to from the empty database. */
module Reachability {
  import opened Basics
  import opened Types
  import opened ControlPlane
  import Compute
  import Storage
  import Tenancy
  import Fleet
  import Identity
  import ReplayWindow

  ghost predicate Reachable(env: Env, db: Db) {
    exists q :: Run(env, q).db == db
  }

  lemma EmptyIsReachable(env: Env)
    ensures Reachable(env, EmptyDb)
  {
    assert Run(env, []).db == EmptyDb;
  }

  /** A request id that is not in the cache. */
  lemma {:induction false} FreshId(cache: Cache) returns (id: string)
    ensures forall k :: 0 <= k < |cache| ==> |cache[k].id| < |id|
    decreases |cache|
  {
    if cache == [] {
      id := "";
    } else {
      var rest := FreshId(cache[1..]);
      id := if |rest| > |cache[0].id| then rest else cache[0].id + "+";
      assert forall k :: 1 <= k < |cache| ==> cache[k] == cache[1..][k - 1];
    }
  }

  /** A command that commits leads from one reachable database to another. */
  lemma ReachNext(env: Env, db: Db, op: Op, oracle: Oracle)
    requires Reachable(env, db) && Handle(env, db, op, oracle).Commit?
    ensures Reachable(env, Handle(env, db, op, oracle).tables)
  {
    var q :| Run(env, q).db == db;
    var s := Run(env, q);
    var id := FreshId(s.cache);
    ReplayWindow.PeekAbsent(s.cache, id);
    var i := Input(Command(id, op), oracle);
    assert (q + [i])[..|q|] == q;
    hide Handle, Put;
    assert Run(env, q + [i]) == Apply(env, s, i).state;
  }

  const Blank := Oracle("", SignedLeaf("", "", ""))

  lemma ReachCompute(env: Env, db: Db, op: ComputeOp, after: Compute.Tables)
    requires Reachable(env, db)
    requires var out := Compute.Step(env, db.compute, db.tenancy.projects.Keys, op, "");
      out.Commit? && out.tables == after
    ensures Reachable(env, db.(compute := after))
  {
    hide Compute.Step, Storage.Step, Fleet.Step, Tenancy.Step, Identity.Step, Reachable;
    ReachNext(env, db, OnCompute(op), Blank);
  }

  lemma ReachTenancy(env: Env, db: Db, op: TenancyOp, after: Tenancy.Tables)
    requires Reachable(env, db)
    requires var out := Tenancy.Step(db.tenancy, op); out.Commit? && out.tables == after
    ensures Reachable(env, db.(tenancy := after))
  {
    hide Compute.Step, Storage.Step, Fleet.Step, Tenancy.Step, Identity.Step, Reachable;
    ReachNext(env, db, OnTenancy(op), Blank);
  }

  lemma ReachFleet(env: Env, db: Db, op: FleetOp, after: Fleet.Tables)
    requires Reachable(env, db)
    requires var out := Fleet.Step(env, db.fleet, db.tenancy.orgs.Keys, op, Blank.leaf);
      out.Commit? && out.tables == after
    ensures Reachable(env, db.(fleet := after))
  {
    hide Compute.Step, Storage.Step, Fleet.Step, Tenancy.Step, Identity.Step, Reachable;
    ReachNext(env, db, OnFleet(op), Blank);
  }

  lemma ReachIdentity(env: Env, db: Db, op: IdentityOp, after: Identity.Tables)
    requires Reachable(env, db)
    requires var out := Identity.Step(env, db.identity, db.tenancy.orgs.Keys, db.tenancy.projects.Keys, op);
      out.Commit? && out.tables == after
    ensures Reachable(env, db.(identity := after))
  {
    hide Compute.Step, Storage.Step, Fleet.Step, Tenancy.Step, Identity.Step, Reachable;
    ReachNext(env, db, OnIdentity(op), Blank);
  }
}
