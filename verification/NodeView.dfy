/** What a subscriber of the event stream knows about nodes. Onboarding changes
    node rows without an event, so this view can fall behind. */
module NodeView {
  import opened Basics
  import opened Types
  import opened ControlPlane
  import Compute
  import Storage
  import Tenancy
  import Fleet
  import Identity
  import Determinism
  import Runs

  function See(nodes: map<string, NodeData>, e: Event): map<string, NodeData> {
    match e
    case NodeRegistered(n) => nodes[n.id := n]
    case NodeUpdated(id, _, n) => nodes[id := n]
    case NodeDeregistered(id) => nodes - {id}
    case _ => nodes
  }

  function SeeAll(nodes: map<string, NodeData>, events: seq<Event>): map<string, NodeData> {
    Fold(See, nodes, events)
  }

  ghost predicate Announced(t: Fleet.Tables, out: Outcome<Fleet.Tables>) {
    out.Commit? ==> SeeAll(t.nodes, out.events) == out.tables.nodes
  }

  /** Issuing a token passes every test, so a placeholder is added. */
  predicate Issues(t: Fleet.Tables, op: FleetOp)
    requires op.CreateOnboardingToken?
  {
    && op.slug in t.clusters && op.id !in t.tokens && op.nodeId !in t.nodes
    && !(exists k :: k in t.nodes && t.nodes[k].clusterSlug == Some(op.slug) && t.nodes[k].name == op.hostname)
  }

  /** The command changes a node row without an event: it adds or removes a
      placeholder, admits a node, or revokes a certificate. */
  predicate Silent(env: Env, t: Fleet.Tables, op: FleetOp) {
    match op
    case CreateOnboardingToken(_, _, _, _, _, _, _, _, _) => Issues(t, op)
    case DeleteOnboardingToken(slug, id) => Fleet.RemovesPlaceholder(t, id) && t.tokens[id].clusterSlug == slug
    case RedeemOnboardingToken(_, _, _, _, _, _, _) => Determinism.DrawsSerial(env, t, op)
    case RevokeNodeCert(timestamp, id, reason) =>
      id in t.nodes
      && (reason.Decommission? || t.nodes[id].status != Revoked || t.nodes[id].updatedAt != timestamp)
    case _ => false
  }

  /** No node has the serial that is drawn. */
  ghost predicate NewSerial(t: Fleet.Tables, leaf: SignedLeaf) {
    forall k :: k in t.nodes ==> t.nodes[k].certSerialHex != Some(leaf.serialHex)
  }

  lemma TokenStepAnnounced(env: Env, t: Fleet.Tables, op: FleetOp, leaf: SignedLeaf)
    requires Fleet.IsTokenOp(op) && !Silent(env, t, op)
    ensures Announced(t, Fleet.TokenStep(env, t, op, leaf))
  {
    hide Fleet.CheckRedeem, Fleet.Admit, Fleet.StripAll, Fleet.UnusedFor;
    var out := Fleet.TokenStep(env, t, op, leaf);
    if out.Commit? {
      assert out.events == [] && SeeAll(t.nodes, []) == t.nodes;
    }
  }

  lemma TokenStepSilent(env: Env, t: Fleet.Tables, op: FleetOp, leaf: SignedLeaf)
    requires Fleet.IsTokenOp(op) && Silent(env, t, op) && NewSerial(t, leaf)
    ensures !Announced(t, Fleet.TokenStep(env, t, op, leaf))
  {
    hide Fleet.CheckRedeem, Fleet.StripAll, Fleet.UnusedFor;
    var out := Fleet.TokenStep(env, t, op, leaf);
    assert out.Commit? && out.events == [] && SeeAll(t.nodes, []) == t.nodes;
    if op.CreateOnboardingToken? {
      assert op.nodeId in out.tables.nodes && op.nodeId !in t.nodes;
    } else if op.RevokeNodeCert? {
      assert op.reason.Decommission? ==> op.nodeId !in out.tables.nodes;
    } else if op.DeleteOnboardingToken? {
      assert t.tokens[op.id].nodeId !in out.tables.nodes;
    } else {
      var k := t.tokens[Fleet.CheckRedeem(t, op).key].nodeId;
      assert out.tables.nodes[k].certSerialHex == Some(leaf.serialHex);
    }
  }

  lemma RegistryStepAnnounced(t: Fleet.Tables, orgs: set<string>, op: FleetOp)
    requires !Fleet.IsTokenOp(op)
    ensures Announced(t, Fleet.RegistryStep(t, orgs, op))
  {
    var out := Fleet.RegistryStep(t, orgs, op);
    if out.Commit? && out.events != [] {
      FoldTwo(See, t.nodes, out.events[0], out.events[0]);
    }
  }

  lemma StepAnnounced(env: Env, t: Fleet.Tables, orgs: set<string>, op: FleetOp, leaf: SignedLeaf)
    requires !Silent(env, t, op)
    ensures Announced(t, Fleet.Step(env, t, orgs, op, leaf))
  {
    hide Fleet.TokenStep, Fleet.RegistryStep, Announced;
    if Fleet.IsTokenOp(op) { TokenStepAnnounced(env, t, op, leaf); } else { RegistryStepAnnounced(t, orgs, op); }
  }

  /** Whatever leaf is drawn, the command's events tell the node table. */
  ghost predicate AlwaysAnnounced(env: Env, t: Fleet.Tables, orgs: set<string>, op: FleetOp) {
    forall leaf :: Announced(t, Fleet.Step(env, t, orgs, op, leaf))
  }

  /** With a serial that no node has, the events tell the node table exactly when
      the command is not silent; so they do whatever the serial exactly then. */
  lemma StepAnnouncedIff(env: Env, t: Fleet.Tables, orgs: set<string>, op: FleetOp)
    ensures forall leaf | NewSerial(t, leaf) ::
      Announced(t, Fleet.Step(env, t, orgs, op, leaf)) <==> !Silent(env, t, op)
    ensures AlwaysAnnounced(env, t, orgs, op) <==> !Silent(env, t, op)
  {
    hide Fleet.TokenStep, Fleet.RegistryStep, Announced, NewSerial;
    if Silent(env, t, op) {
      forall leaf | NewSerial(t, leaf) ensures !Announced(t, Fleet.Step(env, t, orgs, op, leaf)) {
        TokenStepSilent(env, t, op, leaf);
      }
      var leaf := SomeNewSerial(t);
      assert !Announced(t, Fleet.Step(env, t, orgs, op, leaf));
    } else {
      forall leaf ensures Announced(t, Fleet.Step(env, t, orgs, op, leaf)) {
        StepAnnounced(env, t, orgs, op, leaf);
      }
    }
  }

  lemma SomeNewSerial(t: Fleet.Tables) returns (leaf: SignedLeaf)
    ensures NewSerial(t, leaf)
  {
    var serial := LongSerial(t, t.nodes.Keys);
    leaf := SignedLeaf("", serial, "");
  }

  /** Longer than every serial in use. */
  lemma {:induction false} LongSerial(t: Fleet.Tables, keys: set<string>) returns (serial: string)
    requires keys <= t.nodes.Keys
    ensures forall k :: k in keys && t.nodes[k].certSerialHex.Some? ==>
      |t.nodes[k].certSerialHex.value| < |serial|
    decreases |keys|
  {
    if keys == {} {
      serial := "";
    } else {
      var k :| k in keys;
      var rest := LongSerial(t, keys - {k});
      var mine := t.nodes[k].certSerialHex.GetOr("") + "0";
      serial := if |mine| > |rest| then mine else rest;
    }
  }

  // ------------------------------------------------------------- whole runs

  predicate NodeEvent(e: Event) {
    e.NodeRegistered? || e.NodeUpdated? || e.NodeDeregistered?
  }

  lemma {:induction false} UnseenFold(nodes: map<string, NodeData>, es: seq<Event>)
    requires forall e :: e in es ==> !NodeEvent(e)
    ensures SeeAll(nodes, es) == nodes
    decreases |es|
  {
    if es != [] {
      assert es[0] in es;
      UnseenFold(nodes, es[1..]);
    }
  }

  predicate OnboardsSilently(env: Env, db: Db, op: Op) {
    op.OnFleet? && Silent(env, db.fleet, op.fleet)
  }

  function SilentOnboarding(env: Env): (Db, Op) -> bool {
    (db: Db, op: Op) => OnboardsSilently(env, db, op)
  }

  lemma HandleAnnounced(env: Env, db: Db, op: Op, oracle: Oracle)
    requires !OnboardsSilently(env, db, op)
    ensures match Handle(env, db, op, oracle)
      case Commit(after, _, es) => SeeAll(db.fleet.nodes, es) == after.fleet.nodes
      case Early(_) => true
  {
    hide Compute.Step, Storage.Step, Fleet.Step, Tenancy.Step, Identity.Step, SeeAll, Silent;
    var projects, orgs := db.tenancy.projects.Keys, db.tenancy.orgs.Keys;
    match op
    case OnCompute(c) =>
      Runs.ComputeEmits(env, db.compute, projects, c, oracle.now);
      var out := Compute.Step(env, db.compute, projects, c, oracle.now);
      if out.Commit? { UnseenFold(db.fleet.nodes, out.events); }
    case OnStorage(c) =>
      Runs.StorageEmits(db.storage, projects, c);
      var out := Storage.Step(db.storage, projects, c);
      if out.Commit? { UnseenFold(db.fleet.nodes, out.events); }
    case OnFleet(c) =>
      StepAnnounced(env, db.fleet, orgs, c, oracle.leaf);
    case _ =>
      Runs.OthersEmitNothing(env, db, op, oracle);
      UnseenFold(db.fleet.nodes, []);
  }

  /** Over every run without such onboarding commands, folding the events gives
      the node table. */
  lemma {:induction false} EventsTellNodes(env: Env, s: State, q: seq<Input>)
    requires Avoids(env, s, q, SilentOnboarding(env))
    ensures SeeAll(s.db.fleet.nodes, Emitted(env, s, q)) == RunFrom(env, s, q).db.fleet.nodes
    decreases |q|
  {
    if q == [] {
      UnseenFold(s.db.fleet.nodes, []);
    } else {
      hide Handle, See, OnboardsSilently;
      var p, i := q[..|q| - 1], q[|q| - 1];
      var here := RunFrom(env, s, p);
      EventsTellNodes(env, s, p);
      FoldAppend(See, s.db.fleet.nodes, Emitted(env, s, p), Apply(env, here, i).events);
      if Executes(here, i) { HandleAnnounced(env, here.db, i.cmd.op, i.oracle); }
      UnseenFold(here.db.fleet.nodes, []);
    }
  }
}
