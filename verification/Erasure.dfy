/** What two replicas may disagree on: values read from a replica's own clock or
    random generator. Erasing them blanks the text but keeps the presence of an
    optional field. */
module Erasure {
  import opened Basics
  import opened Types

  function EraseNic(n: NicData): NicData {
    n.(updatedAt := "")
  }

  function EraseText(o: Option<string>): Option<string> {
    if o.None? then None else Some("")
  }

  function EraseNode(n: NodeData): NodeData {
    n.(certSerialHex := EraseText(n.certSerialHex), certExpiresAt := EraseText(n.certExpiresAt))
  }

  function EraseResponse(r: Response): Response {
    match r
    case NicIs(n) => NicIs(EraseNic(n))
    case NodeIs(n) => NodeIs(EraseNode(n))
    case BootstrapResult(n, _, ca) => BootstrapResult(EraseNode(n), "", ca)
    case _ => r
  }

  function EraseEvent(e: Event): Event {
    match e
    case NicCreated(n) => NicCreated(EraseNic(n))
    case NicUpdated(id, a, b) => NicUpdated(id, EraseNic(a), EraseNic(b))
    case NodeRegistered(n) => NodeRegistered(EraseNode(n))
    case NodeUpdated(id, a, b) => NodeUpdated(id, EraseNode(a), EraseNode(b))
    case _ => e
  }

  function EraseEvents(es: seq<Event>): seq<Event> {
    seq(|es|, i requires 0 <= i < |es| => EraseEvent(es[i]))
  }

  lemma EraseIdempotent(r: Response, e: Event)
    ensures EraseResponse(EraseResponse(r)) == EraseResponse(r)
    ensures EraseEvent(EraseEvent(e)) == EraseEvent(e)
  {
  }
}

/** Networks, NICs, VMs and security groups: the clock read by `DeleteVm` ends
    up in `updated_at` of a NIC and nowhere else, and steers nothing. */
module ComputeErasure {
  import opened Basics
  import opened Types
  import opened Compute
  import opened Erasure

  function EraseNics(nics: map<string, NicData>): map<string, NicData> {
    map k | k in nics :: EraseNic(nics[k])
  }

  function Erase(t: Tables): Tables {
    t.(nics := EraseNics(t.nics))
  }

  function EraseOutcome(out: Outcome<Tables>): Outcome<Tables> {
    match out
    case Commit(t, r, es) => Commit(Erase(t), EraseResponse(r), EraseEvents(es))
    case Early(r) => Early(EraseResponse(r))
  }

  lemma ErasedRow(nics: map<string, NicData>, k: string)
    ensures k in EraseNics(nics) <==> k in nics
    ensures k in nics ==> EraseNics(nics)[k] == EraseNic(nics[k])
  {
  }

  lemma ErasePut(nics: map<string, NicData>, k: string, a: NicData, b: NicData)
    requires EraseNic(a) == EraseNic(b)
    ensures EraseNics(nics[k := a]) == EraseNics(EraseNics(nics)[k := b])
  {
  }

  lemma EraseDrop(nics: map<string, NicData>, ks: set<string>)
    ensures EraseNics(nics - ks) == EraseNics(EraseNics(nics) - ks)
  {
  }

  lemma EraseTwice(nics: map<string, NicData>)
    ensures EraseNics(EraseNics(nics)) == EraseNics(nics)
  {
  }

  lemma EraseKeepsReferences(nics: map<string, NicData>, x: string)
    ensures NicsIn(EraseNics(nics), x) == NicsIn(nics, x)
    ensures NicsOf(EraseNics(nics), x) == NicsOf(nics, x)
  {
  }

  lemma EraseKeepsDeletions(nics: map<string, NicData>, keys: seq<string>)
    requires forall k :: k in keys ==> k in nics
    ensures forall k :: k in keys ==> k in EraseNics(nics)
    ensures NicDeletions(EraseNics(nics), keys) == NicDeletions(nics, keys)
  {
    hide NicDeletions;
    assert forall k :: k in keys ==> EraseNics(nics)[k] == EraseNic(nics[k]);
    hide EraseNics;
    assert forall i :: 0 <= i < |keys| ==> keys[i] in keys;
    assert |NicDeletions(EraseNics(nics), keys)| == |keys| == |NicDeletions(nics, keys)|;
  }

  lemma DeleteNetworkErases(t: Tables, op: ComputeOp)
    requires op.DeleteNetwork?
    ensures EraseOutcome(ApplyDeleteNetwork(t, op)) == EraseOutcome(ApplyDeleteNetwork(Erase(t), op))
  {
    var victims := NicsIn(t.nics, op.id);
    EraseKeepsDeletions(t.nics, ScanKeys(victims));
    hide EraseNics, NicsIn, ScanKeys, NicDeletions, EraseEvents;
    EraseKeepsReferences(t.nics, op.id);
    EraseDrop(t.nics, victims);
  }

  lemma NetworkStepErases(t: Tables, op: ComputeOp)
    requires IsNetworkOp(op)
    ensures EraseOutcome(NetworkStep(t, op)) == EraseOutcome(NetworkStep(Erase(t), op))
  {
    if op.DeleteNetwork? {
      hide EraseOutcome;
      DeleteNetworkErases(t, op);
    } else {
      hide EraseNics, EraseEvents;
      EraseTwice(t.nics);
    }
  }

  lemma NicMoveErases(env: Env, t: Tables, op: ComputeOp)
    requires op.CreateNic? || op.DeleteNic?
    ensures EraseOutcome(NicStep(env, t, op)) == EraseOutcome(NicStep(env, Erase(t), op))
  {
    hide EraseNics;
    ErasedRow(t.nics, op.id);
    var out, erased := NicStep(env, t, op), NicStep(env, Erase(t), op);
    if out.Early? {
    } else if op.DeleteNic? {
      EraseDrop(t.nics, {op.id});
    } else {
      ErasePut(t.nics, op.id, out.tables.nics[op.id], erased.tables.nics[op.id]);
    }
  }

  lemma NicStepErases(env: Env, t: Tables, op: ComputeOp)
    requires IsNicOp(op)
    ensures EraseOutcome(NicStep(env, t, op)) == EraseOutcome(NicStep(env, Erase(t), op))
  {
    if op.CreateNic? || op.DeleteNic? {
      hide EraseOutcome;
      NicMoveErases(env, t, op);
    } else {
      hide EraseNics;
      ErasedRow(t.nics, op.id);
      var out, erased := NicStep(env, t, op), NicStep(env, Erase(t), op);
      if out.Commit? {
        ErasePut(t.nics, op.id, out.tables.nics[op.id], erased.tables.nics[op.id]);
      }
    }
  }

  lemma VmStepErases(t: Tables, op: ComputeOp, now: string)
    requires IsVmOp(op)
    ensures EraseOutcome(VmStep(t, op, now)) == EraseOutcome(VmStep(Erase(t), op, ""))
  {
    hide EraseNics;
    EraseTwice(t.nics);
    var out, erased := VmStep(t, op, now), VmStep(Erase(t), op, "");
    if op.CreateVm? {
      ErasedRow(t.nics, op.spec.nicId);
      if out.Commit? {
        ErasePut(t.nics, op.spec.nicId, out.tables.nics[op.spec.nicId], erased.tables.nics[op.spec.nicId]);
      }
    } else if op.DeleteVm? && op.id in t.vms {
      var k := t.vms[op.id].spec.nicId;
      ErasedRow(t.nics, k);
      if ReleasesNic(t, op.id) {
        ErasePut(t.nics, k, out.tables.nics[k], erased.tables.nics[k]);
      }
    }
  }

  lemma GroupStepErases(t: Tables, projects: set<string>, op: ComputeOp)
    requires !IsNetworkOp(op) && !IsNicOp(op) && !IsVmOp(op)
    ensures EraseOutcome(GroupStep(t, projects, op)) == EraseOutcome(GroupStep(Erase(t), projects, op))
  {
    hide EraseNics;
    EraseTwice(t.nics);
    if op.DeleteSecurityGroup? {
      EraseKeepsReferences(t.nics, op.id);
    }
  }

  /** Up to erasure, a command does to the tables what it does to the erased
      tables with a blank clock. */
  lemma StepErases(env: Env, t: Tables, projects: set<string>, op: ComputeOp, now: string)
    ensures EraseOutcome(Step(env, t, projects, op, now))
            == EraseOutcome(Step(env, Erase(t), projects, op, ""))
  {
    hide EraseOutcome;
    if IsNetworkOp(op) { NetworkStepErases(t, op); }
    else if IsNicOp(op) { NicStepErases(env, t, op); }
    else if IsVmOp(op) { VmStepErases(t, op, now); }
    else { GroupStepErases(t, projects, op); }
  }
}

/** Nodes, clusters and tokens: the random serial and the expiry of a signed leaf
    end up in the node row, in the revocation list and in the response of the
    redemption, and steer nothing. */
module FleetErasure {
  import opened Basics
  import opened Types
  import opened Fleet
  import opened Erasure

  const BlankLeaf := SignedLeaf("", "", "")

  function EraseNodes(nodes: map<string, NodeData>): map<string, NodeData> {
    map k | k in nodes :: EraseNode(nodes[k])
  }

  /** The revocation list is keyed by serial, so it is dropped whole. */
  function Erase(t: Tables): Tables {
    t.(nodes := EraseNodes(t.nodes), revoked := map[])
  }

  function EraseOutcome(out: Outcome<Tables>): Outcome<Tables> {
    match out
    case Commit(t, r, es) => Commit(Erase(t), EraseResponse(r), EraseEvents(es))
    case Early(r) => Early(EraseResponse(r))
  }

  lemma ErasedRow(nodes: map<string, NodeData>, k: string)
    ensures k in EraseNodes(nodes) <==> k in nodes
    ensures k in nodes ==> EraseNodes(nodes)[k] == EraseNode(nodes[k])
  {
  }

  lemma ErasedNames(nodes: map<string, NodeData>)
    ensures EraseNodes(nodes).Keys == nodes.Keys
    ensures forall k :: k in nodes ==> EraseNodes(nodes)[k] == EraseNode(nodes[k])
  {
  }

  lemma ErasePut(nodes: map<string, NodeData>, k: string, a: NodeData, b: NodeData)
    requires EraseNode(a) == EraseNode(b)
    ensures EraseNodes(nodes[k := a]) == EraseNodes(EraseNodes(nodes)[k := b])
  {
  }

  lemma EraseDrop(nodes: map<string, NodeData>, ks: set<string>)
    ensures EraseNodes(nodes - ks) == EraseNodes(EraseNodes(nodes) - ks)
  {
  }

  lemma EraseTwice(nodes: map<string, NodeData>)
    ensures EraseNodes(EraseNodes(nodes)) == EraseNodes(nodes)
  {
  }

  lemma NodeErases(t: Tables, op: FleetOp)
    requires op.RegisterNode? || op.UpdateNodeStatus? || op.DeregisterNode?
    ensures EraseOutcome(ApplyNode(t, op)) == EraseOutcome(ApplyNode(Erase(t), op))
  {
    hide EraseNodes;
    ErasedNames(t.nodes);
    var out, erased := ApplyNode(t, op), ApplyNode(Erase(t), op);
    if out.Commit? {
      if op.DeregisterNode? {
        EraseDrop(t.nodes, {op.nodeId});
      } else {
        ErasePut(t.nodes, op.nodeId, out.tables.nodes[op.nodeId], erased.tables.nodes[op.nodeId]);
      }
    }
  }

  lemma RegistryStepErases(t: Tables, orgs: set<string>, op: FleetOp)
    requires !IsTokenOp(op)
    ensures EraseOutcome(RegistryStep(t, orgs, op)) == EraseOutcome(RegistryStep(Erase(t), orgs, op))
  {
    if op.RegisterNode? || op.UpdateNodeStatus? || op.DeregisterNode? {
      hide EraseOutcome;
      NodeErases(t, op);
    } else {
      hide EraseNodes;
      EraseTwice(t.nodes);
      ErasedNames(t.nodes);
    }
  }

  lemma CreateTokenErases(t: Tables, op: FleetOp)
    requires op.CreateOnboardingToken?
    ensures EraseOutcome(ApplyCreateToken(t, op)) == EraseOutcome(ApplyCreateToken(Erase(t), op))
  {
    hide EraseNodes;
    ErasedNames(t.nodes);
    var out := ApplyCreateToken(t, op);
    if out.Commit? {
      ErasePut(t.nodes, op.nodeId, out.tables.nodes[op.nodeId], out.tables.nodes[op.nodeId]);
    }
  }

  lemma DeleteTokenErases(t: Tables, op: FleetOp)
    requires op.DeleteOnboardingToken?
    ensures EraseOutcome(ApplyDeleteToken(t, op)) == EraseOutcome(ApplyDeleteToken(Erase(t), op))
  {
    hide EraseNodes;
    ErasedNames(t.nodes);
    EraseTwice(t.nodes);
    if op.id in t.tokens {
      EraseDrop(t.nodes, {t.tokens[op.id].nodeId});
    }
  }

  lemma RedeemChecksErased(t: Tables, op: FleetOp)
    requires op.RedeemOnboardingToken?
    ensures CheckRedeem(Erase(t), op) == CheckRedeem(t, op)
  {
    ErasedNames(t.nodes);
  }

  lemma RedeemErases(env: Env, t: Tables, op: FleetOp, leaf: SignedLeaf)
    requires op.RedeemOnboardingToken?
    ensures EraseOutcome(ApplyRedeemToken(env, t, op, leaf))
            == EraseOutcome(ApplyRedeemToken(env, Erase(t), op, BlankLeaf))
  {
    hide EraseNodes, CheckRedeem;
    ErasedNames(t.nodes);
    RedeemChecksErased(t, op);
    var out, erased := ApplyRedeemToken(env, t, op, leaf), ApplyRedeemToken(env, Erase(t), op, BlankLeaf);
    if out.Commit? {
      var k := t.tokens[CheckRedeem(t, op).key].nodeId;
      ErasePut(t.nodes, k, out.tables.nodes[k], erased.tables.nodes[k]);
    }
  }

  lemma RevokeErases(t: Tables, op: FleetOp)
    requires op.RevokeNodeCert?
    ensures EraseOutcome(ApplyRevokeCert(t, op)) == EraseOutcome(ApplyRevokeCert(Erase(t), op))
  {
    hide EraseNodes;
    ErasedRow(t.nodes, op.nodeId);
    var out, erased := ApplyRevokeCert(t, op), ApplyRevokeCert(Erase(t), op);
    if out.Commit? {
      if op.reason.Decommission? {
        EraseDrop(t.nodes, {op.nodeId});
      } else {
        ErasePut(t.nodes, op.nodeId, out.tables.nodes[op.nodeId], erased.tables.nodes[op.nodeId]);
      }
    }
  }

  /** Up to erasure, a command does to the tables what it does to the erased
      tables with a blank leaf. */
  lemma StepErases(env: Env, t: Tables, orgs: set<string>, op: FleetOp, leaf: SignedLeaf)
    ensures EraseOutcome(Step(env, t, orgs, op, leaf))
            == EraseOutcome(Step(env, Erase(t), orgs, op, BlankLeaf))
  {
    hide EraseOutcome;
    if op.CreateOnboardingToken? { CreateTokenErases(t, op); }
    else if op.DeleteOnboardingToken? { DeleteTokenErases(t, op); }
    else if op.RedeemOnboardingToken? { RedeemErases(env, t, op, leaf); }
    else if op.RevokeNodeCert? { RevokeErases(t, op); }
    else { RegistryStepErases(t, orgs, op); }
  }
}
