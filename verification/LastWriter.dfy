/** After any run, a register holds what the last committed command that writes it
    has set; nothing else ever changes a row. */
module LastWriter {
  import opened Basics
  import opened Types
  import opened ControlPlane
  import opened Registers
  import Compute
  import Storage
  import Tenancy
  import Fleet
  import Identity
  import ComputeRegisters
  import StorageRegisters
  import TenancyRegisters
  import FleetRegisters
  import IdentityRegisters

  datatype Register =
    | InCompute(compute: ComputeRegisters.Register)
    | InStorage(storage: StorageRegisters.Register)
    | InTenancy(tenancy: TenancyRegisters.Register)
    | InFleet(fleet: FleetRegisters.Register)
    | InIdentity(identity: IdentityRegisters.Register)

  function Read(db: Db, r: Register): Option<Value> {
    match r
    case InCompute(c) => ComputeRegisters.Read(db.compute, c)
    case InStorage(c) => StorageRegisters.Read(db.storage, c)
    case InTenancy(c) => TenancyRegisters.Read(db.tenancy, c)
    case InFleet(c) => FleetRegisters.Read(db.fleet, c)
    case InIdentity(c) => IdentityRegisters.Read(db.identity, c)
  }

  /** What a command that commits does to a register. */
  ghost function EffectOf(env: Env, db: Db, op: Op, oracle: Oracle, r: Register): Effect<Value> {
    match r
    case InCompute(c) =>
      if op.OnCompute? then ComputeRegisters.EffectOf(env, db.compute, op.compute, oracle.now, c) else Keep
    case InStorage(c) =>
      if op.OnStorage? then StorageRegisters.EffectOf(db.storage, op.storage, c) else Keep
    case InTenancy(c) =>
      if op.OnTenancy? then TenancyRegisters.EffectOf(op.tenancy, c) else Keep
    case InFleet(c) =>
      if op.OnFleet? then FleetRegisters.EffectOf(db.fleet, op.fleet, oracle.leaf, c) else Keep
    case InIdentity(c) =>
      if op.OnIdentity? then IdentityRegisters.EffectOf(env, db.identity, op.identity, c) else Keep
  }

  /** One command, every register of the database. */
  lemma HandleWrites(env: Env, db: Db, op: Op, oracle: Oracle, r: Register)
    ensures match Handle(env, db, op, oracle)
      case Commit(after, _, _) => Read(after, r) == EffectOf(env, db, op, oracle, r).On(Read(db, r))
      case Early(_) => true
  {
    hide Compute.Step, Storage.Step, Tenancy.Step, Fleet.Step, Identity.Step;
    hide ComputeRegisters.Read, StorageRegisters.Read, TenancyRegisters.Read;
    hide FleetRegisters.Read, IdentityRegisters.Read, ComputeRegisters.EffectOf, StorageRegisters.EffectOf;
    hide TenancyRegisters.EffectOf, FleetRegisters.EffectOf, IdentityRegisters.EffectOf;
    var projects, orgs := db.tenancy.projects.Keys, db.tenancy.orgs.Keys;
    match r
    case InCompute(c) =>
      if op.OnCompute? { ComputeRegisters.StepWrites(env, db.compute, projects, op.compute, oracle.now, c); }
    case InStorage(c) =>
      if op.OnStorage? { StorageRegisters.StepWrites(db.storage, projects, op.storage, c); }
    case InTenancy(c) =>
      if op.OnTenancy? { TenancyRegisters.StepWrites(db.tenancy, op.tenancy, c); }
    case InFleet(c) =>
      if op.OnFleet? { FleetRegisters.StepWrites(env, db.fleet, orgs, op.fleet, oracle.leaf, c); }
    case InIdentity(c) =>
      if op.OnIdentity? { IdentityRegisters.StepWrites(env, db.identity, orgs, projects, op.identity, c); }
  }

  // --------------------------------------------------------------------- runs

  /** What the command at position `j` of a run does to a register: nothing if it
      is refused or answered from the cache. */
  ghost function EffectAt(env: Env, s: State, q: seq<Input>, j: nat, r: Register): Effect<Value>
    requires j < |q|
  {
    var here := RunFrom(env, s, q[..j]);
    if Commits(env, here, q[j]) then EffectOf(env, here.db, q[j].cmd.op, q[j].oracle, r) else Keep
  }

  lemma ApplyWrites(env: Env, s: State, q: seq<Input>, j: nat, r: Register)
    requires j < |q|
    ensures Read(RunFrom(env, s, q[..j + 1]).db, r)
            == EffectAt(env, s, q, j, r).On(Read(RunFrom(env, s, q[..j]).db, r))
  {
    hide Handle, Read, EffectOf, RunFrom;
    var here := RunFrom(env, s, q[..j]);
    assert q[..j + 1][..j] == q[..j];
    RunLast(env, s, q[..j + 1]);
    HandleWrites(env, here.db, q[j].cmd.op, q[j].oracle, r);
  }

  /** From position `j` on, nobody writes the register. */
  ghost predicate QuietFrom(env: Env, s: State, q: seq<Input>, j: nat, r: Register) {
    forall i :: j <= i < |q| ==> EffectAt(env, s, q, i, r) == Keep
  }

  lemma {:induction false} QuietKeeps(env: Env, s: State, q: seq<Input>, j: nat, r: Register)
    requires j <= |q| && QuietFrom(env, s, q, j, r)
    ensures Read(RunFrom(env, s, q).db, r) == Read(RunFrom(env, s, q[..j]).db, r)
    decreases |q| - j
  {
    hide RunFrom, Read, EffectAt;
    if j == |q| {
      assert q[..j] == q;
    } else {
      ApplyWrites(env, s, q, j, r);
      QuietKeeps(env, s, q, j + 1, r);
    }
  }

  /** A register that no command of the run writes is as it was at the start. */
  lemma NobodyWrote(env: Env, s: State, q: seq<Input>, r: Register)
    requires QuietFrom(env, s, q, 0, r)
    ensures Read(RunFrom(env, s, q).db, r) == Read(s.db, r)
  {
    hide Read, EffectAt;
    assert q[..0] == [];
    QuietKeeps(env, s, q, 0, r);
  }

  /** Else it is as the last command that writes it left it. */
  lemma LastWriteStands(env: Env, s: State, q: seq<Input>, j: nat, r: Register)
    requires j < |q| && EffectAt(env, s, q, j, r) != Keep && QuietFrom(env, s, q, j + 1, r)
    ensures var effect := EffectAt(env, s, q, j, r);
      Read(RunFrom(env, s, q).db, r) == if effect.Set? then Some(effect.value) else None
  {
    hide RunFrom, Read, EffectAt;
    ApplyWrites(env, s, q, j, r);
    QuietKeeps(env, s, q, j + 1, r);
  }

  /** A register changes only where a command writes it. */
  lemma SomebodyWrote(env: Env, s: State, q: seq<Input>, r: Register) returns (j: nat)
    requires Read(RunFrom(env, s, q).db, r) != Read(s.db, r)
    ensures j < |q| && EffectAt(env, s, q, j, r) != Keep && QuietFrom(env, s, q, j + 1, r)
  {
    hide RunFrom, Read, EffectAt;
    if QuietFrom(env, s, q, 0, r) {
      NobodyWrote(env, s, q, r);
    }
    j := |q|;
    while EffectAt(env, s, q, j - 1, r) == Keep
      invariant 0 < j <= |q| && QuietFrom(env, s, q, j, r)
      decreases j
    {
      j := j - 1;
    }
    j := j - 1;
  }
}
