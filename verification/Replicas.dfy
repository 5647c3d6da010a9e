/** Replicas that apply the same commands. Their clocks and random generators
    differ, so their states do; they agree once what was read there is erased. */
module Replicas {
  import opened Basics
  import opened Types
  import opened ControlPlane
  import opened Erasure
  import Compute
  import Storage
  import Tenancy
  import Fleet
  import Identity
  import ComputeErasure
  import FleetErasure

  const Blank := Oracle("", FleetErasure.BlankLeaf)

  function EraseDb(db: Db): Db {
    db.(compute := ComputeErasure.Erase(db.compute), fleet := FleetErasure.Erase(db.fleet))
  }

  function EraseOutcome(out: Outcome<Db>): Outcome<Db> {
    match out
    case Commit(db, r, es) => Commit(EraseDb(db), EraseResponse(r), EraseEvents(es))
    case Early(r) => Early(EraseResponse(r))
  }

  function EraseEntry(e: Entry): Entry {
    Entry(e.id, EraseResponse(e.response))
  }

  function EraseCache(cache: Cache): Cache {
    seq(|cache|, k requires 0 <= k < |cache| => EraseEntry(cache[k]))
  }

  function EraseState(s: State): State {
    State(EraseDb(s.db), EraseCache(s.cache))
  }

  function EraseReply(r: Reply): Reply {
    Reply(EraseState(r.state), EraseResponse(r.response), EraseEvents(r.events))
  }

  // ------------------------------------------------------------ one handler

  lemma EraseDbTwice(db: Db)
    ensures EraseDb(EraseDb(db)) == EraseDb(db)
  {
    ComputeErasure.EraseTwice(db.compute.nics);
    FleetErasure.EraseTwice(db.fleet.nodes);
  }

  lemma ComputeHandleErases(env: Env, db: Db, op: Op, oracle: Oracle)
    requires op.OnCompute?
    ensures EraseOutcome(Handle(env, db, op, oracle)) == EraseOutcome(Handle(env, EraseDb(db), op, Blank))
  {
    hide Compute.Step, Storage.Step, Fleet.Step, Tenancy.Step, Identity.Step;
    hide EraseEvents, EraseResponse, ComputeErasure.EraseNics, FleetErasure.EraseNodes;
    EraseDbTwice(db);
    ComputeErasure.StepErases(env, db.compute, db.tenancy.projects.Keys, op.compute, oracle.now);
  }

  lemma FleetHandleErases(env: Env, db: Db, op: Op, oracle: Oracle)
    requires op.OnFleet?
    ensures EraseOutcome(Handle(env, db, op, oracle)) == EraseOutcome(Handle(env, EraseDb(db), op, Blank))
  {
    hide Compute.Step, Storage.Step, Fleet.Step, Tenancy.Step, Identity.Step;
    hide EraseEvents, EraseResponse, ComputeErasure.EraseNics, FleetErasure.EraseNodes;
    EraseDbTwice(db);
    FleetErasure.StepErases(env, db.fleet, db.tenancy.orgs.Keys, op.fleet, oracle.leaf);
  }

  /** Up to erasure a handler does to a database what it does to the erased one
      with blank surroundings: nothing erased steers a branch. */
  lemma HandleErases(env: Env, db: Db, op: Op, oracle: Oracle)
    ensures EraseOutcome(Handle(env, db, op, oracle)) == EraseOutcome(Handle(env, EraseDb(db), op, Blank))
  {
    hide Compute.Step, Storage.Step, Fleet.Step, Tenancy.Step, Identity.Step;
    hide EraseEvents, EraseResponse, ComputeErasure.EraseNics, FleetErasure.EraseNodes;
    if op.OnCompute? {
      ComputeHandleErases(env, db, op, oracle);
    } else if op.OnFleet? {
      FleetHandleErases(env, db, op, oracle);
    } else {
      EraseDbTwice(db);
    }
  }

  // -------------------------------------------------------------- the cache

  function EraseFound(r: Option<Response>): Option<Response> {
    if r.None? then None else Some(EraseResponse(r.value))
  }

  lemma EraseTail(cache: Cache)
    requires cache != []
    ensures EraseCache(cache)[0] == EraseEntry(cache[0])
    ensures EraseCache(cache)[1..] == EraseCache(cache[1..])
  {
  }

  lemma {:induction false} PeekErases(cache: Cache, id: string)
    ensures Peek(EraseCache(cache), id) == EraseFound(Peek(cache, id))
    decreases |cache|
  {
    if cache != [] {
      EraseTail(cache);
      PeekErases(cache[1..], id);
    }
  }

  lemma EraseCacheTwice(cache: Cache)
    ensures EraseCache(EraseCache(cache)) == EraseCache(cache)
  {
    forall k | 0 <= k < |cache| ensures EraseCache(EraseCache(cache))[k] == EraseCache(cache)[k] {
      EraseIdempotent(cache[k].response, SecurityGroupDeleted(""));
    }
  }

  lemma PutErases(cache: Cache, id: string, a: Response, b: Response)
    requires EraseResponse(a) == EraseResponse(b) && Peek(cache, id).None?
    ensures EraseCache(Put(cache, id, a)) == EraseCache(Put(EraseCache(cache), id, b))
  {
    hide EraseResponse;
    PeekErases(cache, id);
    EraseCacheTwice(cache);
    var x, y := EraseCache(Put(cache, id, a)), EraseCache(Put(EraseCache(cache), id, b));
    var drop := if |cache| >= Capacity then 1 else 0;
    forall k | 0 <= k < |cache| - drop ensures x[k] == y[k] {
      assert x[k] == EraseEntry(cache[k + drop]) == EraseCache(cache)[k + drop];
      assert y[k] == EraseEntry(EraseCache(cache)[k + drop]) == EraseCache(EraseCache(cache))[k + drop];
    }
  }

  lemma ApplyErases(env: Env, s: State, i: Input)
    ensures EraseReply(Apply(env, s, i)) == EraseReply(Apply(env, EraseState(s), Input(i.cmd, Blank)))
  {
    var id := i.cmd.requestId;
    PeekErases(s.cache, id);
    EraseCacheTwice(s.cache);
    EraseDbTwice(s.db);
    HandleErases(env, s.db, i.cmd.op, i.oracle);
    var out, erased := Handle(env, s.db, i.cmd.op, i.oracle), Handle(env, EraseDb(s.db), i.cmd.op, Blank);
    if Peek(s.cache, id).Some? {
      EraseIdempotent(Peek(s.cache, id).value, SecurityGroupDeleted(""));
    } else if out.Commit? {
      PutErases(s.cache, id, out.response, erased.response);
    }
    hide Handle, EraseDb, EraseResponse, EraseCache;
  }

  // -------------------------------------------------------------- replicas

  predicate SameCommands(a: seq<Input>, b: seq<Input>) {
    |a| == |b| && forall k :: 0 <= k < |a| ==> a[k].cmd == b[k].cmd
  }

  function EraseResponses(rs: seq<Response>): seq<Response> {
    seq(|rs|, k requires 0 <= k < |rs| => EraseResponse(rs[k]))
  }

  /** Two replicas that start equal up to erasure and apply the same commands,
      each with its own clock, serials and certificates, end equal up to erasure,
      and have given the same responses and emitted the same events, up to
      erasure, all along. */
  lemma {:induction false} ReplicasAgree(env: Env, sa: State, sb: State, a: seq<Input>, b: seq<Input>)
    requires EraseState(sa) == EraseState(sb) && SameCommands(a, b)
    ensures EraseState(RunFrom(env, sa, a)) == EraseState(RunFrom(env, sb, b))
    ensures EraseResponses(Answered(env, sa, a)) == EraseResponses(Answered(env, sb, b))
    ensures EraseEvents(Emitted(env, sa, a)) == EraseEvents(Emitted(env, sb, b))
    decreases |a|
  {
    if a != [] {
      hide EraseState, Apply, Handle, EraseResponses, EraseEvents;
      var n := |a| - 1;
      ReplicasAgree(env, sa, sb, a[..n], b[..n]);
      var ra := Apply(env, RunFrom(env, sa, a[..n]), a[n]);
      var rb := Apply(env, RunFrom(env, sb, b[..n]), b[n]);
      RepliesAgree(env, RunFrom(env, sa, a[..n]), RunFrom(env, sb, b[..n]), a[n], b[n]);
      ResponsesExtend(Answered(env, sa, a[..n]), Answered(env, sb, b[..n]), ra.response, rb.response);
      EventsExtend(Emitted(env, sa, a[..n]), Emitted(env, sb, b[..n]), ra.events, rb.events);
    }
  }

  lemma ResponsesExtend(a: seq<Response>, b: seq<Response>, x: Response, y: Response)
    requires EraseResponses(a) == EraseResponses(b) && EraseResponse(x) == EraseResponse(y)
    ensures EraseResponses(a + [x]) == EraseResponses(b + [y])
  {
    hide EraseResponse;
    assert |a| == |EraseResponses(a)| == |EraseResponses(b)| == |b|;
    forall k | 0 <= k < |a| ensures EraseResponse(a[k]) == EraseResponse(b[k]) {
      assert EraseResponses(a)[k] == EraseResponses(b)[k];
    }
  }

  lemma EventsExtend(a: seq<Event>, b: seq<Event>, x: seq<Event>, y: seq<Event>)
    requires EraseEvents(a) == EraseEvents(b) && EraseEvents(x) == EraseEvents(y)
    ensures EraseEvents(a + x) == EraseEvents(b + y)
  {
    hide EraseEvent;
    assert EraseEvents(a + x) == EraseEvents(a) + EraseEvents(x);
    assert EraseEvents(b + y) == EraseEvents(b) + EraseEvents(y);
  }

  /** In states equal up to erasure the same command gets the same response and
      emits the same events, up to erasure. */
  lemma RepliesAgree(env: Env, sa: State, sb: State, i: Input, j: Input)
    requires EraseState(sa) == EraseState(sb) && i.cmd == j.cmd
    ensures EraseReply(Apply(env, sa, i)) == EraseReply(Apply(env, sb, j))
    ensures EraseState(Apply(env, sa, i).state) == EraseState(Apply(env, sb, j).state)
    ensures EraseResponse(Apply(env, sa, i).response) == EraseResponse(Apply(env, sb, j).response)
    ensures EraseEvents(Apply(env, sa, i).events) == EraseEvents(Apply(env, sb, j).events)
  {
    ApplyErases(env, sa, i);
    ApplyErases(env, sb, j);
    hide EraseState, Apply, Handle, EraseResponse, EraseEvents;
  }
}
