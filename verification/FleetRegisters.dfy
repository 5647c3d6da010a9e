/** The registers of nodes, clusters, onboarding tokens and certificates. */
module FleetRegisters {
  import opened Basics
  import opened Types
  import opened Fleet
  import opened Registers

  datatype NodePart =
    NodeBirth | NodeHealth | NodeCapacity | NodeHeartbeat | NodeCert | NodeAgent | NodeTouched
  datatype ClusterPart =
    ClusterBirth | ClusterName | ClusterDescription | ClusterLocation | ClusterRoster | ClusterTouched
  datatype TokenPart = TokenBirth | TokenUse

  datatype Register =
    | OfNode(id: string, node: NodePart)
    | OfCluster(slug: string, cluster: ClusterPart)
    | OfToken(id: string, token: TokenPart)
    | OfSerial(serial: string)
    | OfCa
    | OfServerCert

  // ----------------------------------------------------------------- reading

  function NodeField(n: NodeData, p: NodePart): Value {
    match p
    case NodeBirth => NodeBorn(n.name, n.address, n.labels, n.clusterSlug, n.createdAt)
    case NodeHealth => NodeState(n.status)
    case NodeCapacity => Resources(n.resources)
    case NodeHeartbeat => At(n.lastHeartbeat)
    case NodeCert => Cert(n.certSerialHex, n.certExpiresAt)
    case NodeAgent => Agent(n.hostname, n.agentVersion)
    case NodeTouched => At(n.updatedAt)
  }

  function ClusterField(c: ClusterData, p: ClusterPart): Value {
    match p
    case ClusterBirth => Born(c.orgSlug, c.createdAt)
    case ClusterName => Label(c.name)
    case ClusterDescription => Note(c.description)
    case ClusterLocation => Note(c.location)
    case ClusterRoster => Ids(c.nodeIds)
    case ClusterTouched => At(c.updatedAt)
  }

  function TokenField(k: OnboardingTokenData, p: TokenPart): Value {
    match p
    case TokenBirth =>
      TokenBorn(k.tokenHashHex, k.clusterSlug, k.nodeId, k.hostname, k.description, k.expiresAt,
                k.createdByAccount, k.createdAt)
    case TokenUse => Use(k.usedAt, k.usedByNodeId)
  }

  function Read(t: Tables, r: Register): Option<Value> {
    match r
    case OfNode(k, p) => if k in t.nodes then Some(NodeField(t.nodes[k], p)) else None
    case OfCluster(k, p) => if k in t.clusters then Some(ClusterField(t.clusters[k], p)) else None
    case OfToken(k, p) => if k in t.tokens then Some(TokenField(t.tokens[k], p)) else None
    case OfSerial(k) =>
      if k !in t.revoked then None
      else Some(Revocation(t.revoked[k].nodeId, t.revoked[k].revokedAt, t.revoked[k].reason))
    case OfCa => if t.ca.None? then None else Some(Authority(t.ca.value))
    case OfServerCert =>
      if t.serverCert.None? then None
      else
        var c := t.serverCert.value;
        Some(ServerCert(c.certPem, c.keyPem, c.serialHex, c.notAfter, c.createdAt))
  }

  // ----------------------------------------------------------------- writing

  /** The token a redemption is about: the first one in key order with its hash. */
  ghost predicate Names(t: Tables, hash: string, k: string) {
    && k in t.tokens && t.tokens[k].tokenHashHex == hash
    && forall j :: j in t.tokens && t.tokens[j].tokenHashHex == hash ==> LeqString(k, j)
  }

  ghost predicate Admits(t: Tables, hash: string, node: string) {
    exists k :: Names(t, hash, k) && t.tokens[k].nodeId == node
  }

  /** A token withdrawal takes the placeholder of an unused token along. */
  predicate Withdraws(t: Tables, id: string, node: string) {
    id in t.tokens && t.tokens[id].usedAt.None? && t.tokens[id].nodeId == node && node in t.nodes
  }

  ghost function NodeEffect(t: Tables, op: FleetOp, leaf: SignedLeaf, k: string, p: NodePart): Effect<Value> {
    match op
    case RegisterNode(id, at, name, address, resources, labels) => (
      if id != k then Keep else
      match p
      case NodeBirth => Set(NodeBorn(name, address, labels, None, at))
      case NodeHealth => Set(NodeState(Online))
      case NodeCapacity => Set(Resources(resources))
      case NodeHeartbeat => Set(At(at))
      case NodeCert => Set(Cert(None, None))
      case NodeAgent => Set(Agent(None, None))
      case NodeTouched => Set(At(at)))
    case UpdateNodeStatus(id, at, status, resources) =>
      if id != k then Keep
      else if p.NodeHealth? then Set(NodeState(status))
      else if p.NodeCapacity? && resources.Some? then Set(Resources(resources.value))
      else if p.NodeHeartbeat? || p.NodeTouched? then Set(At(at)) else Keep
    case DeregisterNode(id) => if id == k then Erase else Keep
    case CreateOnboardingToken(at, _, _, slug, id, hostname, _, _, _) => (
      if id != k then Keep else
      match p
      case NodeBirth => Set(NodeBorn(hostname, "", map[], Some(slug), at))
      case NodeHealth => Set(NodeState(Onboarding))
      case NodeCapacity => Set(Resources(NodeResources(0, 0, 0, 0, 0, 0)))
      case NodeHeartbeat => Set(At(at))
      case NodeCert => Set(Cert(None, None))
      case NodeAgent => Set(Agent(None, None))
      case NodeTouched => Set(At(at)))
    case DeleteOnboardingToken(_, id) => if Withdraws(t, id, k) then Erase else Keep
    case RedeemOnboardingToken(at, hash, _, hostname, agent, kernel, arch) => (
      if !Admits(t, hash, k) then Keep else
      match p
      case NodeHealth => Set(NodeState(Online))
      case NodeHeartbeat => Set(At(at))
      case NodeCert => Set(Cert(Some(leaf.serialHex), Some(leaf.notAfter)))
      case NodeAgent => Set(Agent(Some(hostname), Some(agent + " (" + kernel + " " + arch + ")")))
      case NodeTouched => Set(At(at))
      case _ => Keep)
    case RevokeNodeCert(at, id, reason) =>
      if id != k then Keep
      else if reason.Decommission? then Erase
      else if p.NodeHealth? then Set(NodeState(Revoked))
      else if p.NodeTouched? then Set(At(at)) else Keep
    case _ => Keep
  }

  /** A roster that gains a node it lacks, or loses one it has. */
  function Enlists(c: ClusterData, node: string, at: string, p: ClusterPart): Effect<Value> {
    if node in c.nodeIds then Keep
    else if p.ClusterRoster? then Set(Ids(c.nodeIds + [node]))
    else if p.ClusterTouched? then Set(At(at)) else Keep
  }

  function Delists(c: ClusterData, node: string, at: string, p: ClusterPart): Effect<Value> {
    if node !in c.nodeIds then Keep
    else if p.ClusterRoster? then Set(Ids(Without(c.nodeIds, node)))
    else if p.ClusterTouched? then Set(At(at)) else Keep
  }

  function ClusterEffect(t: Tables, op: FleetOp, k: string, p: ClusterPart): Effect<Value> {
    match op
    case CreateCluster(at, org, slug, name, description, location) => (
      if slug != k then Keep else
      match p
      case ClusterBirth => Set(Born(org, at))
      case ClusterName => Set(Label(name))
      case ClusterDescription => Set(Note(description))
      case ClusterLocation => Set(Note(location))
      case ClusterRoster => Set(Ids([]))
      case ClusterTouched => Set(At(at)))
    case UpdateCluster(slug, at, name, description, location) =>
      if slug != k then Keep
      else if p.ClusterName? && name.Some? then Set(Label(name.value))
      else if p.ClusterDescription? && description.Some? then Set(Note(description.value))
      else if p.ClusterLocation? && location.Some? then Set(Note(location.value))
      else if p.ClusterTouched? then Set(At(at)) else Keep
    case DeleteCluster(slug) => if slug == k then Erase else Keep
    case AddNodeToCluster(at, slug, node) =>
      if slug == k && k in t.clusters then Enlists(t.clusters[k], node, at, p) else Keep
    case RemoveNodeFromCluster(at, slug, node) =>
      if slug == k && k in t.clusters then Delists(t.clusters[k], node, at, p) else Keep
    case CreateOnboardingToken(at, _, _, slug, node, _, _, _, _) =>
      if slug == k && k in t.clusters then Enlists(t.clusters[k], node, at, p) else Keep
    case DeleteOnboardingToken(slug, id) =>
      if slug == k && k in t.clusters && p.ClusterRoster? && id in t.tokens && Withdraws(t, id, t.tokens[id].nodeId)
      then Set(Ids(Without(t.clusters[k].nodeIds, t.tokens[id].nodeId)))
      else Keep
    case RevokeNodeCert(at, node, reason) =>
      if reason.Decommission? && k in t.clusters then Delists(t.clusters[k], node, at, p) else Keep
    case _ => Keep
  }

  ghost function TokenEffect(t: Tables, op: FleetOp, k: string, p: TokenPart): Effect<Value> {
    match op
    case CreateOnboardingToken(at, id, hash, slug, node, hostname, description, expires, creator) =>
      if id != k then Keep
      else if p.TokenUse? then Set(Use(None, None))
      else Set(TokenBorn(hash, slug, node, hostname, description, expires, creator, at))
    case DeleteOnboardingToken(_, id) => if id == k then Erase else Keep
    case RedeemOnboardingToken(at, hash, _, _, _, _, _) =>
      if Names(t, hash, k) && p.TokenUse? then Set(Use(Some(at), Some(t.tokens[k].nodeId))) else Keep
    case RevokeNodeCert(_, node, reason) =>
      if reason.Decommission? && k in t.tokens && t.tokens[k].nodeId == node && t.tokens[k].usedAt.None? then Erase
      else Keep
    case _ => Keep
  }

  function PkiEffect(t: Tables, op: FleetOp, r: Register): Effect<Value>
    requires r.OfSerial? || r.OfCa? || r.OfServerCert?
  {
    match op
    case RevokeNodeCert(at, node, reason) =>
      if r.OfSerial? && node in t.nodes && t.nodes[node].certSerialHex == Some(r.serial)
      then Set(Revocation(node, at, reason))
      else Keep
    case EnsureInternalCa(ca) => if r.OfCa? && t.ca.None? then Set(Authority(ca)) else Keep
    case UpdateServerCert(at, cert, key, serial, notAfter) =>
      if r.OfServerCert? then Set(ServerCert(cert, key, serial, notAfter, at)) else Keep
    case _ => Keep
  }

  ghost function EffectOf(t: Tables, op: FleetOp, leaf: SignedLeaf, r: Register): Effect<Value> {
    match r
    case OfNode(k, p) => NodeEffect(t, op, leaf, k, p)
    case OfCluster(k, p) => ClusterEffect(t, op, k, p)
    case OfToken(k, p) => TokenEffect(t, op, k, p)
    case _ => PkiEffect(t, op, r)
  }

  ghost predicate Writes(t: Tables, op: FleetOp, leaf: SignedLeaf, r: Register, out: Outcome<Tables>) {
    out.Commit? ==> Read(out.tables, r) == EffectOf(t, op, leaf, r).On(Read(t, r))
  }

  // ------------------------------------------------------------------ proofs

  /** The code's scan finds the token that the definition names. */
  lemma FirstIsNamed(t: Tables, hash: string, k: string)
    ensures FirstKey(TokensWithHash(t.tokens, hash)) == Some(k) <==> Names(t, hash, k)
  {
    LeqStringIsTotalOrder();
    hide LeqString;
    var s := TokensWithHash(t.tokens, hash);
    if Names(t, hash, k) {
      assert k in s;
      assert LeqString(FirstKey(s).value, k) && LeqString(k, FirstKey(s).value);
    }
  }

  lemma NodeStepWrites(t: Tables, op: FleetOp, leaf: SignedLeaf, r: Register)
    requires op.RegisterNode? || op.UpdateNodeStatus? || op.DeregisterNode?
    ensures Writes(t, op, leaf, r, ApplyNode(t, op))
  {
  }

  lemma ClusterStepWrites(t: Tables, orgs: set<string>, op: FleetOp, leaf: SignedLeaf, r: Register)
    requires op.CreateCluster? || op.UpdateCluster? || op.DeleteCluster?
    ensures Writes(t, op, leaf, r, ApplyCluster(t, orgs, op))
  {
  }

  lemma RegistryStepWrites(t: Tables, orgs: set<string>, op: FleetOp, leaf: SignedLeaf, r: Register)
    requires !IsTokenOp(op)
    ensures Writes(t, op, leaf, r, RegistryStep(t, orgs, op))
  {
    hide ApplyNode, ApplyCluster;
    if op.RegisterNode? || op.UpdateNodeStatus? || op.DeregisterNode? {
      hide Writes;
      NodeStepWrites(t, op, leaf, r);
    } else if op.CreateCluster? || op.UpdateCluster? || op.DeleteCluster? {
      hide Writes;
      ClusterStepWrites(t, orgs, op, leaf, r);
    }
  }

  lemma CreateTokenWrites(t: Tables, op: FleetOp, leaf: SignedLeaf, r: Register)
    requires op.CreateOnboardingToken?
    ensures Writes(t, op, leaf, r, ApplyCreateToken(t, op))
  {
  }

  lemma DeleteTokenWrites(t: Tables, op: FleetOp, leaf: SignedLeaf, r: Register)
    requires op.DeleteOnboardingToken?
    ensures Writes(t, op, leaf, r, ApplyDeleteToken(t, op))
  {
  }

  lemma RevokeWrites(t: Tables, op: FleetOp, leaf: SignedLeaf, r: Register)
    requires op.RevokeNodeCert?
    ensures Writes(t, op, leaf, r, ApplyRevokeCert(t, op))
  {
  }

  lemma RedeemWrites(env: Env, t: Tables, op: FleetOp, leaf: SignedLeaf, r: Register)
    requires op.RedeemOnboardingToken?
    ensures Writes(t, op, leaf, r, ApplyRedeemToken(env, t, op, leaf))
  {
    hide TokensWithHash, FirstKey, LeqString;
    var hash := op.tokenHashHex;
    var key := FirstKey(TokensWithHash(t.tokens, hash));
    if key.Some? {
      FirstIsNamed(t, hash, key.value);
      forall k ensures Names(t, hash, k) <==> k == key.value { FirstIsNamed(t, hash, k); }
      hide Names;
    }
  }

  /** One command, every register. */
  lemma StepWrites(env: Env, t: Tables, orgs: set<string>, op: FleetOp, leaf: SignedLeaf, r: Register)
    ensures Writes(t, op, leaf, r, Step(env, t, orgs, op, leaf))
  {
    hide Writes, RegistryStep, ApplyCreateToken, ApplyDeleteToken, ApplyRevokeCert, ApplyRedeemToken;
    match op
    case CreateOnboardingToken(_, _, _, _, _, _, _, _, _) => CreateTokenWrites(t, op, leaf, r);
    case DeleteOnboardingToken(_, _) => DeleteTokenWrites(t, op, leaf, r);
    case RedeemOnboardingToken(_, _, _, _, _, _, _) => RedeemWrites(env, t, op, leaf, r);
    case RevokeNodeCert(_, _, _) => RevokeWrites(t, op, leaf, r);
    case _ => RegistryStepWrites(t, orgs, op, leaf, r);
  }
}
