/** Nodes, clusters, onboarding tokens, revoked certificates and the internal
    CA: the handlers of `ApiState::apply` that write these tables, as functions
    of the tables. */
module Fleet {
  import opened Basics
  import opened Types

  datatype Tables = Tables(
    nodes: map<string, NodeData>,
    clusters: map<string, ClusterData>,
    tokens: map<string, OnboardingTokenData>,
    revoked: map<string, RevokedCertData>,
    ca: Option<InternalCa>,
    serverCert: Option<ServerCertData>)

  const Empty := Tables(map[], map[], map[], map[], None, None)

  // ------------------------------------------------------------------- nodes

  function ApplyNode(t: Tables, op: FleetOp): Outcome<Tables>
    requires op.RegisterNode? || op.UpdateNodeStatus? || op.DeregisterNode?
  {
    if op.RegisterNode? then
      if exists k :: k in t.nodes && t.nodes[k].name == op.name then
        Early(Error(409))
      else if op.nodeId in t.nodes then
        Early(NodeIs(t.nodes[op.nodeId]))
      else
        var node := NodeData(op.nodeId, op.name, op.address, Online, op.resources, op.labels,
                             op.timestamp, op.timestamp, op.timestamp, None, None, None, None, None);
        Commit(t.(nodes := t.nodes[op.nodeId := node]), NodeIs(node), [NodeRegistered(node)])
    else if op.nodeId !in t.nodes then
      Early(Error(404))
    else if op.UpdateNodeStatus? then
      var before := t.nodes[op.nodeId];
      var after := before.(status := op.status, resources := op.newResources.GetOr(before.resources),
                           lastHeartbeat := op.timestamp, updatedAt := op.timestamp);
      Commit(t.(nodes := t.nodes[op.nodeId := after]),
             NodeIs(after), [NodeUpdated(op.nodeId, before, after)])
    else
      Commit(t.(nodes := t.nodes - {op.nodeId}), Deleted(op.nodeId), [NodeDeregistered(op.nodeId)])
  }

  // ---------------------------------------------------------------- clusters

  function ApplyCluster(t: Tables, orgs: set<string>, op: FleetOp): Outcome<Tables>
    requires op.CreateCluster? || op.UpdateCluster? || op.DeleteCluster?
  {
    if op.CreateCluster? then
      if op.slug in t.clusters then
        Early(Error(409))
      else if op.orgSlug !in orgs then
        Early(Error(404))
      else
        var cluster := ClusterData(op.slug, op.orgSlug, op.name, op.description, op.location, [],
                                   op.timestamp, op.timestamp);
        Commit(t.(clusters := t.clusters[op.slug := cluster]), ClusterIs(cluster), [])
    else if op.slug !in t.clusters then
      Early(Error(404))
    else if op.UpdateCluster? then
      var before := t.clusters[op.slug];
      var cluster := before.(name := op.newName.GetOr(before.name),
                             description := op.newDescription.GetOr(before.description),
                             location := op.newLocation.GetOr(before.location),
                             updatedAt := op.timestamp);
      Commit(t.(clusters := t.clusters[op.slug := cluster]), ClusterIs(cluster), [])
    else
      Commit(t.(clusters := t.clusters - {op.slug}), Deleted(op.slug), [])
  }

  /** Append a node id unless it is listed already. */
  function Enlist(c: ClusterData, node: string, timestamp: string): ClusterData {
    if node in c.nodeIds then c else c.(nodeIds := c.nodeIds + [node], updatedAt := timestamp)
  }

  /** Remove every occurrence of a node id; the row is touched only if it changes. */
  function Strip(c: ClusterData, node: string, timestamp: string): ClusterData {
    if node in c.nodeIds then c.(nodeIds := Without(c.nodeIds, node), updatedAt := timestamp) else c
  }

  function ApplyRoster(t: Tables, op: FleetOp): Outcome<Tables>
    requires op.AddNodeToCluster? || op.RemoveNodeFromCluster?
  {
    if op.slug !in t.clusters then
      Early(Error(404))
    else if op.AddNodeToCluster? && op.nodeId !in t.nodes then
      Early(Error(404))
    else
      var before := t.clusters[op.slug];
      var cluster :=
        if op.AddNodeToCluster? then Enlist(before, op.nodeId, op.timestamp)
        else Strip(before, op.nodeId, op.timestamp);
      Commit(t.(clusters := t.clusters[op.slug := cluster]), ClusterIs(cluster), [])
  }

  // --------------------------------------------------------------------- PKI

  function ApplyPki(t: Tables, op: FleetOp): Outcome<Tables>
    requires op.EnsureInternalCa? || op.UpdateServerCert?
  {
    if op.EnsureInternalCa? then
      Commit(if t.ca.None? then t.(ca := Some(op.ca)) else t, Ack, [])
    else
      var cert := ServerCertData(op.certPem, op.keyPem, op.serialHex, op.notAfter, op.timestamp);
      Commit(t.(serverCert := Some(cert)), Ack, [])
  }

  // ------------------------------------------------------- onboarding tokens

  function ApplyCreateToken(t: Tables, op: FleetOp): Outcome<Tables>
    requires op.CreateOnboardingToken?
  {
    if op.slug !in t.clusters then
      Early(Error(404))
    else if op.id in t.tokens then
      Early(Error(409))
    else if op.nodeId in t.nodes then
      Early(Error(409))
    else if exists k :: k in t.nodes && t.nodes[k].clusterSlug == Some(op.slug)
                        && t.nodes[k].name == op.hostname then
      Early(Error(409))
    else
      var token := OnboardingTokenData(
        op.id, op.tokenHashHex, op.slug, op.nodeId, op.hostname, op.description, op.expiresAt,
        None, None, op.createdByAccount, op.timestamp);
      var node := NodeData(
        op.nodeId, op.hostname, "", Onboarding, NodeResources(0, 0, 0, 0, 0, 0), map[],
        op.timestamp, op.timestamp, op.timestamp, Some(op.slug), None, None, None, None);
      var cluster := Enlist(t.clusters[op.slug], op.nodeId, op.timestamp);
      Commit(t.(tokens := t.tokens[op.id := token],
                nodes := t.nodes[op.nodeId := node],
                clusters := t.clusters[op.slug := cluster]),
             OnboardingTokenIs(token), [])
  }

  /** Deleting this token also removes its placeholder node. */
  predicate RemovesPlaceholder(t: Tables, id: string) {
    id in t.tokens && t.tokens[id].usedAt.None? && t.tokens[id].nodeId in t.nodes
  }

  function ApplyDeleteToken(t: Tables, op: FleetOp): Outcome<Tables>
    requires op.DeleteOnboardingToken?
  {
    if op.id !in t.tokens then
      Early(Error(404))
    else if t.tokens[op.id].clusterSlug != op.slug then
      Early(Error(404))
    else if RemovesPlaceholder(t, op.id) then
      var node := t.tokens[op.id].nodeId;
      var clusters :=
        if op.slug !in t.clusters then t.clusters
        else
          var c := t.clusters[op.slug];
          t.clusters[op.slug := c.(nodeIds := Without(c.nodeIds, node))];
      Commit(t.(tokens := t.tokens - {op.id}, nodes := t.nodes - {node}, clusters := clusters),
             Deleted(op.id), [])
    else
      Commit(t.(tokens := t.tokens - {op.id}), Deleted(op.id), [])
  }

  function TokensWithHash(tokens: map<string, OnboardingTokenData>, hash: string): set<string> {
    set k | k in tokens && tokens[k].tokenHashHex == hash
  }

  /** Everything a redemption checks before it asks for a certificate, in order:
      either the error code or the key of the token to redeem. */
  datatype Check = Refuse(code: nat) | Redeem(key: string)

  function CheckRedeem(t: Tables, op: FleetOp): (c: Check)
    requires op.RedeemOnboardingToken?
    ensures c.Redeem? ==> c.key in t.tokens && t.tokens[c.key].nodeId in t.nodes && t.ca.Some?
  {
    var key := FirstKey(TokensWithHash(t.tokens, op.tokenHashHex));
    if key.None? then Refuse(401)
    else
      var token := t.tokens[key.value];
      if token.usedAt.Some? then Refuse(401)
      else if !LeqString(op.timestamp, token.expiresAt) then Refuse(401)
      else if token.clusterSlug !in t.clusters then Refuse(410)
      else if token.nodeId !in t.nodes then Refuse(410)
      else if t.ca.None? then Refuse(503)
      else Redeem(key.value)
  }

  /** The placeholder goes online with its certificate. */
  function Admit(node: NodeData, op: FleetOp, leaf: SignedLeaf): NodeData
    requires op.RedeemOnboardingToken?
  {
    node.(
      status := Online, lastHeartbeat := op.timestamp, updatedAt := op.timestamp,
      certSerialHex := Some(leaf.serialHex), certExpiresAt := Some(leaf.notAfter),
      hostname := Some(op.hostname),
      agentVersion := Some(op.agentVersion + " (" + op.kernelVersion + " " + op.arch + ")"))
  }

  function ApplyRedeemToken(env: Env, t: Tables, op: FleetOp, leaf: SignedLeaf): Outcome<Tables>
    requires op.RedeemOnboardingToken?
  {
    var check := CheckRedeem(t, op);
    if check.Refuse? then
      Early(Error(check.code))
    else
      var token := t.tokens[check.key];
      if !env.signs(t.ca.value, op.csrPem, token.nodeId, token.clusterSlug) then
        Early(Error(400))
      else
        var used := token.(usedAt := Some(op.timestamp), usedByNodeId := Some(token.nodeId));
        var node := Admit(t.nodes[token.nodeId], op, leaf);
        Commit(t.(tokens := t.tokens[check.key := used], nodes := t.nodes[token.nodeId := node]),
               BootstrapResult(node, leaf.certPem, t.ca.value.caCertPem), [])
  }

  function UnusedFor(tokens: map<string, OnboardingTokenData>, node: string): set<string> {
    set k | k in tokens && tokens[k].nodeId == node && tokens[k].usedAt.None?
  }

  function StripAll(clusters: map<string, ClusterData>, node: string, timestamp: string)
    : map<string, ClusterData>
  {
    map k | k in clusters :: Strip(clusters[k], node, timestamp)
  }

  function Bar(node: NodeData, timestamp: string): NodeData {
    node.(status := Revoked, updatedAt := timestamp)
  }

  function ApplyRevokeCert(t: Tables, op: FleetOp): Outcome<Tables>
    requires op.RevokeNodeCert?
  {
    if op.nodeId !in t.nodes then
      Early(Error(404))
    else
      var node := t.nodes[op.nodeId];
      var revoked :=
        if node.certSerialHex.None? then t.revoked
        else
          t.revoked[node.certSerialHex.value :=
            RevokedCertData(node.certSerialHex.value, op.nodeId, op.timestamp, op.reason)];
      if op.reason.Decommission? then
        Commit(t.(revoked := revoked,
                  tokens := t.tokens - UnusedFor(t.tokens, op.nodeId),
                  clusters := StripAll(t.clusters, op.nodeId, op.timestamp),
                  nodes := t.nodes - {op.nodeId}),
               Deleted(op.nodeId), [])
      else
        Commit(t.(revoked := revoked,
                  nodes := t.nodes[op.nodeId := Bar(node, op.timestamp)]),
               Deleted(op.nodeId), [])
  }

  // -------------------------------------------------------------------- step

  predicate IsTokenOp(op: FleetOp) {
    op.CreateOnboardingToken? || op.DeleteOnboardingToken? || op.RedeemOnboardingToken? || op.RevokeNodeCert?
  }

  function TokenStep(env: Env, t: Tables, op: FleetOp, leaf: SignedLeaf): Outcome<Tables>
    requires IsTokenOp(op)
  {
    if op.CreateOnboardingToken? then ApplyCreateToken(t, op)
    else if op.DeleteOnboardingToken? then ApplyDeleteToken(t, op)
    else if op.RedeemOnboardingToken? then ApplyRedeemToken(env, t, op, leaf)
    else ApplyRevokeCert(t, op)
  }

  function RegistryStep(t: Tables, orgs: set<string>, op: FleetOp): Outcome<Tables>
    requires !IsTokenOp(op)
  {
    if op.RegisterNode? || op.UpdateNodeStatus? || op.DeregisterNode? then ApplyNode(t, op)
    else if op.CreateCluster? || op.UpdateCluster? || op.DeleteCluster? then ApplyCluster(t, orgs, op)
    else if op.AddNodeToCluster? || op.RemoveNodeFromCluster? then ApplyRoster(t, op)
    else ApplyPki(t, op)
  }

  function Step(env: Env, t: Tables, orgs: set<string>, op: FleetOp, leaf: SignedLeaf): Outcome<Tables> {
    if IsTokenOp(op) then TokenStep(env, t, op, leaf) else RegistryStep(t, orgs, op)
  }
}
