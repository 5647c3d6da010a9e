/** Snapshots of the control plane (`ApiState::snapshot` and `restore`). The
    envelope holds nine of the sixteen tables. */
module Snapshot {
  import opened Basics
  import opened Types
  import opened ControlPlane
  import Compute
  import Storage
  import Tenancy
  import Fleet
  import Identity
  import NicCounters
  import BackLinks
  import CloneAccounting
  import Runs

  datatype Envelope = Envelope(
    nodes: map<string, NodeData>, networks: map<string, NetworkData>, nics: map<string, NicData>,
    vms: map<string, VmData>, orgs: map<string, OrgData>, projects: map<string, ProjectData>,
    volumes: map<string, VolumeData>, templates: map<string, TemplateData>,
    securityGroups: map<string, SecurityGroupData>)

  function Take(db: Db): Envelope {
    Envelope(db.fleet.nodes, db.compute.networks, db.compute.nics, db.compute.vms,
             db.tenancy.orgs, db.tenancy.projects, db.storage.volumes, db.storage.templates,
             db.compute.groups)
  }

  /** The state after installing an envelope, whatever was there before. */
  function Restored(e: Envelope): State {
    State(Db(Compute.Tables(e.networks, e.nics, e.vms, e.securityGroups),
             Storage.Tables(e.volumes, e.templates),
             Tenancy.Tables(e.orgs, e.projects),
             Fleet.Empty.(nodes := e.nodes),
             Identity.Empty),
          [])
  }

  // -------------------------------------------------------------- round trip

  /** The seven tables outside the envelope and the request cache are empty. */
  predicate NothingToLose(s: State) {
    && s.db.fleet == Fleet.Empty.(nodes := s.db.fleet.nodes)
    && s.db.identity == Identity.Empty
    && s.cache == []
  }

  lemma RoundTripIff(s: State)
    ensures Take(Restored(Take(s.db)).db) == Take(s.db)
    ensures Restored(Take(s.db)) == s <==> NothingToLose(s)
  {
  }

  // ----------------------------------------------- invariants across installs

  /** How a replica came to its state: by applying commands, or by installing
      a snapshot taken at a peer with a history of its own. */
  datatype Life = Born | Acted(life: Life, input: Input) | Installed(peer: Life, receiver: Life)

  function StateOf(env: Env, l: Life): State {
    match l
    case Born => Init
    case Acted(before, i) => Apply(env, StateOf(env, before), i).state
    case Installed(peer, _) => Restored(Take(StateOf(env, peer).db))
  }

  lemma RestoreKeepsSound(db: Db, leaks: map<string, nat>)
    requires Runs.Sound(db, leaks)
    ensures Runs.Sound(Restored(Take(db)).db, leaks)
  {
    hide NicCounters.Sound, CloneAccounting.Sound, BackLinks.NamesUnique;
  }

  /** The invariants of every run hold along every life. */
  lemma {:induction false} LivesAreSound(env: Env, l: Life)
    ensures exists leaks :: Runs.Sound(StateOf(env, l).db, leaks)
  {
    hide Runs.Sound, Take, Restored, Handle;
    match l
    case Born =>
      Runs.EmptyIsSound();
      assert Runs.Sound(StateOf(env, l).db, map[]);
    case Acted(before, i) =>
      LivesAreSound(env, before);
      var s := StateOf(env, before);
      var leaks :| Runs.Sound(s.db, leaks);
      Runs.HandleKeepsSound(env, s.db, i, leaks);
      assert Runs.Sound(StateOf(env, l).db, leaks)
             || Runs.Sound(StateOf(env, l).db, Runs.LeaksAfter(env, s.db, i, leaks));
    case Installed(peer, _) =>
      LivesAreSound(env, peer);
      var leaks :| Runs.Sound(StateOf(env, peer).db, leaks);
      RestoreKeepsSound(StateOf(env, peer).db, leaks);
      assert Runs.Sound(StateOf(env, l).db, leaks);
  }

  lemma RestoreKeepsLinks(db: Db)
    ensures BackLinks.BackLinked(Restored(Take(db)).db.compute) <==> BackLinks.BackLinked(db.compute)
    ensures BackLinks.NamesUnique(Restored(Take(db)).db.compute) <==> BackLinks.NamesUnique(db.compute)
    ensures BackLinks.GroupNamesUnique(Restored(Take(db)).db.compute) <==> BackLinks.GroupNamesUnique(db.compute)
  {
    assert Restored(Take(db)).db.compute == db.compute;
  }

  // ------------------------------------- a restored replica beside its source

  /** Commands that read and write enveloped tables only. */
  predicate Enveloped(op: Op) {
    match op
    case OnCompute(_) => true
    case OnStorage(_) => true
    case OnTenancy(_) => true
    case OnFleet(c) => c.RegisterNode? || c.UpdateNodeStatus? || c.DeregisterNode?
    case OnIdentity(_) => false
  }

  /** The restored replica has the source's enveloped tables, and its cache is
      the source's without the responses of before the snapshot. */
  ghost predicate Shadows(source: State, copy: State, lost: seq<Entry>) {
    && Take(source.db) == Take(copy.db)
    && source.cache == lost + copy.cache
    && |source.cache| <= Capacity
  }

  ghost predicate IsFresh(lost: seq<Entry>, id: string) {
    forall k :: 0 <= k < |lost| ==> lost[k].id != id
  }

  lemma {:induction false} PeekSkipsLost(lost: seq<Entry>, cache: Cache, id: string)
    requires IsFresh(lost, id)
    ensures Peek(lost + cache, id) == Peek(cache, id)
    decreases |lost|
  {
    if lost == [] {
      assert lost + cache == cache;
    } else {
      assert (lost + cache)[1..] == lost[1..] + cache && (lost + cache)[0] == lost[0];
      PeekSkipsLost(lost[1..], cache, id);
    }
  }

  lemma RegistryEnveloped(a: Fleet.Tables, b: Fleet.Tables, op: FleetOp)
    requires op.RegisterNode? || op.UpdateNodeStatus? || op.DeregisterNode?
    requires a.nodes == b.nodes
    ensures var x, y := Fleet.ApplyNode(a, op), Fleet.ApplyNode(b, op);
      && x.Commit? == y.Commit? && x.response == y.response
      && (x.Commit? ==> x.events == y.events && x.tables.nodes == y.tables.nodes)
  {
  }

  lemma HandleEnveloped(env: Env, a: Db, b: Db, op: Op, oracle: Oracle)
    requires Enveloped(op) && Take(a) == Take(b)
    ensures var x, y := Handle(env, a, op, oracle), Handle(env, b, op, oracle);
      && x.Commit? == y.Commit? && x.response == y.response
      && (x.Commit? ==> x.events == y.events && Take(x.tables) == Take(y.tables))
  {
    hide Compute.Step, Storage.Step, Tenancy.Step, Identity.Step, Fleet.ApplyNode, Fleet.TokenStep;
    assert a.compute == b.compute && a.storage == b.storage && a.tenancy == b.tenancy;
    if op.OnFleet? {
      RegistryEnveloped(a.fleet, b.fleet, op.fleet);
    }
  }

  /** One command with a fresh id is answered alike by source and copy. */
  lemma ShadowStep(env: Env, source: State, copy: State, i: Input, lost: seq<Entry>)
    returns (rest: seq<Entry>)
    requires Shadows(source, copy, lost) && Enveloped(i.cmd.op) && IsFresh(lost, i.cmd.requestId)
    ensures Apply(env, source, i).response == Apply(env, copy, i).response
    ensures Apply(env, source, i).events == Apply(env, copy, i).events
    ensures Shadows(Apply(env, source, i).state, Apply(env, copy, i).state, rest)
    ensures exists k :: 0 <= k <= |lost| && rest == lost[k..]
  {
    hide Handle, Take;
    PeekSkipsLost(lost, copy.cache, i.cmd.requestId);
    HandleEnveloped(env, source.db, copy.db, i.cmd.op, i.oracle);
    var evicts := Commits(env, source, i) && |source.cache| == Capacity && lost != [];
    rest := lost[if evicts then 1 else 0..];
    if Commits(env, source, i) {
      assert Apply(env, source, i).state.cache == rest + Apply(env, copy, i).state.cache;
    }
  }

  lemma FreshInSuffix(lost: seq<Entry>, rest: seq<Entry>, id: string)
    requires IsFresh(lost, id) && exists k :: 0 <= k <= |lost| && rest == lost[k..]
    ensures IsFresh(rest, id)
  {
  }

  lemma {:induction false} ShadowRun(env: Env, s: State, q: seq<Input>) returns (rest: seq<Entry>)
    requires |s.cache| <= Capacity
    requires forall k :: 0 <= k < |q| ==> Enveloped(q[k].cmd.op) && IsFresh(s.cache, q[k].cmd.requestId)
    ensures Shadows(RunFrom(env, s, q), RunFrom(env, Restored(Take(s.db)), q), rest)
    ensures Emitted(env, s, q) == Emitted(env, Restored(Take(s.db)), q)
    ensures exists k :: 0 <= k <= |s.cache| && rest == s.cache[k..]
    decreases |q|
  {
    hide Apply, Enveloped;
    var copy := Restored(Take(s.db));
    if q == [] {
      rest := s.cache;
      assert s.cache[0..] == s.cache && s.cache + [] == s.cache;
    } else {
      hide Shadows, Take, Restored;
      var n := |q| - 1;
      assert forall k :: 0 <= k < n ==> q[..n][k] == q[k];
      var lost := ShadowRun(env, s, q[..n]);
      FreshInSuffix(s.cache, lost, q[n].cmd.requestId);
      rest := ShadowStep(env, RunFrom(env, s, q[..n]), RunFrom(env, copy, q[..n]), q[n], lost);
    }
  }

  /** As long as commands stay on the enveloped tables and use request ids the
      source has not cached, a restored replica cannot be told from its source:
      same tables, same events, and same answer to the next such command. */
  lemma RestoredReplicaKeepsUp(env: Env, s: State, q: seq<Input>, i: Input)
    requires |s.cache| <= Capacity
    requires forall k :: 0 <= k < |q| ==> Enveloped(q[k].cmd.op) && IsFresh(s.cache, q[k].cmd.requestId)
    requires Enveloped(i.cmd.op) && IsFresh(s.cache, i.cmd.requestId)
    ensures var a, b := RunFrom(env, s, q), RunFrom(env, Restored(Take(s.db)), q);
      && Take(a.db) == Take(b.db)
      && Emitted(env, s, q) == Emitted(env, Restored(Take(s.db)), q)
      && Apply(env, a, i).response == Apply(env, b, i).response
      && Apply(env, a, i).events == Apply(env, b, i).events
  {
    hide Apply, Enveloped, Restored;
    var lost := ShadowRun(env, s, q);
    FreshInSuffix(s.cache, lost, i.cmd.requestId);
    var rest := ShadowStep(env, RunFrom(env, s, q), RunFrom(env, Restored(Take(s.db)), q), i, lost);
  }

  /** Outside the envelope it can: a token that is good at the source is unknown
      to the restored replica, which refuses it. */
  lemma RestoredReplicaRefusesTokens(env: Env, s: State, i: Input)
    requires i.cmd.op.OnFleet? && i.cmd.op.fleet.RedeemOnboardingToken?
    ensures Apply(env, Restored(Take(s.db)), i).response == Error(401)
    ensures Commits(env, s, i) ==> Apply(env, s, i).response.BootstrapResult?
  {
    assert Fleet.TokensWithHash(map[], i.cmd.op.fleet.tokenHashHex) == {};
  }
}
