/** The replicated state machine: one database of five table groups behind a
    cache of applied requests (`ApiState::apply`). */
module ControlPlane {
  import opened Basics
  import opened Types
  import Compute
  import Storage
  import Tenancy
  import Fleet
  import Identity

  datatype Db = Db(
    compute: Compute.Tables, storage: Storage.Tables, tenancy: Tenancy.Tables,
    fleet: Fleet.Tables, identity: Identity.Tables)

  const EmptyDb := Db(Compute.Empty, Storage.Empty, Tenancy.Empty, Fleet.Empty, Identity.Empty)

  /** The handler of one command inside its write transaction. */
  function Handle(env: Env, db: Db, op: Op, oracle: Oracle): Outcome<Db> {
    var projects := db.tenancy.projects.Keys;
    var orgs := db.tenancy.orgs.Keys;
    match op
    case OnCompute(c) => (
      match Compute.Step(env, db.compute, projects, c, oracle.now)
      case Commit(t, r, es) => Commit(db.(compute := t), r, es)
      case Early(r) => Early(r))
    case OnStorage(c) => (
      match Storage.Step(db.storage, projects, c)
      case Commit(t, r, es) => Commit(db.(storage := t), r, es)
      case Early(r) => Early(r))
    case OnTenancy(c) => (
      match Tenancy.Step(db.tenancy, c)
      case Commit(t, r, es) => Commit(db.(tenancy := t), r, es)
      case Early(r) => Early(r))
    case OnFleet(c) => (
      match Fleet.Step(env, db.fleet, orgs, c, oracle.leaf)
      case Commit(t, r, es) => Commit(db.(fleet := t), r, es)
      case Early(r) => Early(r))
    case OnIdentity(c) => (
      match Identity.Step(env, db.identity, orgs, projects, c)
      case Commit(t, r, es) => Commit(db.(identity := t), r, es)
      case Early(r) => Early(r))
  }

  // ----------------------------------------------------------- request cache

  const Capacity: nat := 1000

  datatype Entry = Entry(id: string, response: Response)

  /** Least recently used first. */
  type Cache = seq<Entry>

  /** `LruCache::peek`: reads without promoting. */
  function Peek(cache: Cache, id: string): Option<Response> {
    if cache == [] then None
    else if cache[0].id == id then Some(cache[0].response)
    else Peek(cache[1..], id)
  }

  function Remove(cache: Cache, id: string): Cache {
    if cache == [] then []
    else if cache[0].id == id then cache[1..]
    else [cache[0]] + Remove(cache[1..], id)
  }

  /** `LruCache::put`: a known id is promoted, a new one evicts the least
      recently used entry of a full cache. */
  function Put(cache: Cache, id: string, r: Response): Cache {
    if Peek(cache, id).Some? then Remove(cache, id) + [Entry(id, r)]
    else if |cache| >= Capacity then cache[1..] + [Entry(id, r)]
    else cache + [Entry(id, r)]
  }

  // ------------------------------------------------------------------- apply

  datatype State = State(db: Db, cache: Cache)

  const Init := State(EmptyDb, [])

  datatype Reply = Reply(state: State, response: Response, events: seq<Event>)

  /** One command and what the replica reads from its surroundings meanwhile. */
  datatype Input = Input(cmd: Command, oracle: Oracle)

  function Apply(env: Env, s: State, i: Input): Reply {
    var cached := Peek(s.cache, i.cmd.requestId);
    if cached.Some? then
      Reply(s, cached.value, [])
    else
      match Handle(env, s.db, i.cmd.op, i.oracle)
      case Commit(db, r, es) => Reply(State(db, Put(s.cache, i.cmd.requestId, r)), r, es)
      case Early(r) => Reply(s, r, [])
  }

  /** The command is not answered from the cache. */
  predicate Executes(s: State, i: Input) {
    Peek(s.cache, i.cmd.requestId).None?
  }

  predicate Commits(env: Env, s: State, i: Input) {
    Executes(s, i) && Handle(env, s.db, i.cmd.op, i.oracle).Commit?
  }

  // -------------------------------------------------------------------- runs

  function RunFrom(env: Env, s: State, q: seq<Input>): State
    decreases |q|
  {
    if q == [] then s
    else Apply(env, RunFrom(env, s, q[..|q| - 1]), q[|q| - 1]).state
  }

  lemma RunLast(env: Env, s: State, q: seq<Input>)
    requires q != []
    ensures RunFrom(env, s, q) == Apply(env, RunFrom(env, s, q[..|q| - 1]), q[|q| - 1]).state
  {
  }

  function Run(env: Env, q: seq<Input>): State {
    RunFrom(env, Init, q)
  }

  /** Every event emitted along a run. */
  function Emitted(env: Env, s: State, q: seq<Input>): seq<Event>
    decreases |q|
  {
    if q == [] then []
    else
      var p := q[..|q| - 1];
      Emitted(env, s, p) + Apply(env, RunFrom(env, s, p), q[|q| - 1]).events
  }

  /** Every response given along a run. */
  function Answered(env: Env, s: State, q: seq<Input>): seq<Response>
    decreases |q|
  {
    if q == [] then []
    else
      var p := q[..|q| - 1];
      Answered(env, s, p) + [Apply(env, RunFrom(env, s, p), q[|q| - 1]).response]
  }

  /** No command executed along the run is `bad` for the database it meets. */
  ghost predicate Avoids(env: Env, s: State, q: seq<Input>, bad: (Db, Op) -> bool)
    decreases |q|
  {
    if q == [] then true
    else
      var p := q[..|q| - 1];
      var i := q[|q| - 1];
      && Avoids(env, s, p, bad)
      && (Executes(RunFrom(env, s, p), i) ==> !bad(RunFrom(env, s, p).db, i.cmd.op))
  }

  /** The database has a property at the start and after every command. */
  ghost predicate Always(env: Env, s: State, q: seq<Input>, p: Db -> bool)
    decreases |q|
  {
    p(RunFrom(env, s, q).db) && (q == [] || Always(env, s, q[..|q| - 1], p))
  }

  // ------------------------------------------------------------- atomicity

  lemma ComputeErrors(env: Env, t: Compute.Tables, projects: set<string>, op: ComputeOp, now: string)
    ensures var out := Compute.Step(env, t, projects, op, now); out.Commit? ==> !out.response.Error?
  {
  }

  lemma FleetErrors(env: Env, t: Fleet.Tables, orgs: set<string>, op: FleetOp, leaf: SignedLeaf)
    ensures var out := Fleet.Step(env, t, orgs, op, leaf); out.Commit? ==> !out.response.Error?
  {
  }

  lemma IdentityErrors(env: Env, t: Identity.Tables, orgs: set<string>, projects: set<string>, op: IdentityOp)
    ensures var out := Identity.Step(env, t, orgs, projects, op); out.Commit? ==> !out.response.Error?
  {
  }

  lemma StorageErrors(t: Storage.Tables, projects: set<string>, op: StorageOp)
    ensures var out := Storage.Step(t, projects, op); out.Commit? ==> !out.response.Error?
  {
  }

  lemma TenancyErrors(t: Tenancy.Tables, op: TenancyOp)
    ensures var out := Tenancy.Step(t, op); out.Commit? ==> !out.response.Error?
  {
  }

  /** Every error response leaves tables and cache as they were and emits nothing. */
  lemma ErrorsChangeNothing(env: Env, s: State, i: Input)
    requires Apply(env, s, i).response.Error?
    ensures Apply(env, s, i).state == s && Apply(env, s, i).events == []
  {
    hide Compute.Step, Storage.Step, Tenancy.Step, Fleet.Step, Identity.Step;
    var projects, orgs := s.db.tenancy.projects.Keys, s.db.tenancy.orgs.Keys;
    match i.cmd.op
    case OnCompute(c) => ComputeErrors(env, s.db.compute, projects, c, i.oracle.now);
    case OnStorage(c) => StorageErrors(s.db.storage, projects, c);
    case OnTenancy(c) => TenancyErrors(s.db.tenancy, c);
    case OnFleet(c) => FleetErrors(env, s.db.fleet, orgs, c, i.oracle.leaf);
    case OnIdentity(c) => IdentityErrors(env, s.db.identity, orgs, projects, c);
  }
}
