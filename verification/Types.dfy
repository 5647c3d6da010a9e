/** The rows, commands, responses and events of the control plane
    (mvirt-cplane/src/command.rs and mvirt-cplane/src/store/event.rs).

    The source has one flat `Command` enum whose variants all carry a request
    id. Here the request id is a field of `Command` and the variants are split
    by the tables they write; the tables are split the same way. */
module Types {
  import opened Basics

  // ------------------------------------------------------------------ rows

  datatype NodeStatus = Online | Offline | Unknown | Onboarding | Revoked

  datatype RevocationReason = Decommission | Compromise | Other

  datatype NodeResources = NodeResources(
    cpuCores: nat, memoryMb: nat, storageGb: nat,
    availableCpuCores: nat, availableMemoryMb: nat, availableStorageGb: nat)

  datatype NodeData = NodeData(
    id: string, name: string, address: string, status: NodeStatus,
    resources: NodeResources, labels: map<string, string>,
    lastHeartbeat: string, createdAt: string, updatedAt: string,
    clusterSlug: Option<string>, certSerialHex: Option<string>,
    certExpiresAt: Option<string>, hostname: Option<string>,
    agentVersion: Option<string>)

  datatype NetworkData = NetworkData(
    id: string, projectSlug: string, name: string,
    ipv4Enabled: bool, ipv4Prefix: Option<string>,
    ipv6Enabled: bool, ipv6Prefix: Option<string>,
    dnsServers: seq<string>, ntpServers: seq<string>, isPublic: bool,
    nicCount: nat, createdAt: string, updatedAt: string)

  datatype NicPhase = NicPending | NicActive | NicFailed

  datatype NicStatus = NicStatus(phase: NicPhase, socketPath: string, message: Option<string>)

  datatype NicSpec = NicSpec(
    projectSlug: string, name: Option<string>, networkId: string, macAddress: string,
    ipv4Address: Option<string>, ipv6Address: Option<string>,
    routedIpv4Prefixes: seq<string>, routedIpv6Prefixes: seq<string>,
    securityGroupId: Option<string>, vmId: Option<string>)

  datatype NicData = NicData(
    id: string, spec: NicSpec, status: NicStatus, createdAt: string, updatedAt: string)

  datatype VmDesiredState = WantRunning | WantStopped

  datatype VmPhase =
    | VmPending | VmScheduled | VmCreating | VmRunning | VmStopping | VmStopped | VmFailed

  datatype VmSpec = VmSpec(
    name: string, projectSlug: string, nodeSelector: Option<string>,
    cpuCores: nat, memoryMb: nat, volumeId: string, nicId: string, image: string,
    userData: Option<string>, desiredState: VmDesiredState)

  datatype VmStatus = VmStatus(
    phase: VmPhase, nodeId: Option<string>, ipAddress: Option<string>, message: Option<string>)

  datatype VmData = VmData(
    id: string, spec: VmSpec, status: VmStatus, createdAt: string, updatedAt: string)

  datatype RuleDirection = Inbound | Outbound

  datatype SecurityGroupRuleData = SecurityGroupRuleData(
    id: string, direction: RuleDirection, protocol: Option<string>,
    portRangeStart: Option<nat>, portRangeEnd: Option<nat>, cidr: Option<string>,
    description: Option<string>, createdAt: string)

  datatype SecurityGroupData = SecurityGroupData(
    id: string, projectSlug: string, name: string, description: Option<string>,
    rules: seq<SecurityGroupRuleData>, nicCount: nat, createdAt: string, updatedAt: string)

  datatype OrgContact = OrgContact(
    legalName: Option<string>, streetAddress: Option<string>, postalCode: Option<string>,
    city: Option<string>, country: Option<string>, technicalContactEmail: Option<string>,
    billingContactEmail: Option<string>, vatId: Option<string>)

  datatype OrgData = OrgData(
    slug: string, name: string, contact: OrgContact, createdAt: string, updatedAt: string)

  datatype ProjectData = ProjectData(
    slug: string, orgSlug: string, name: string, description: Option<string>,
    createdAt: string, updatedAt: string)

  datatype ClusterData = ClusterData(
    slug: string, orgSlug: string, name: string, description: Option<string>,
    location: Option<string>, nodeIds: seq<string>, createdAt: string, updatedAt: string)

  datatype OnboardingTokenData = OnboardingTokenData(
    id: string, tokenHashHex: string, clusterSlug: string, nodeId: string, hostname: string,
    description: Option<string>, expiresAt: string, usedAt: Option<string>,
    usedByNodeId: Option<string>, createdByAccount: string, createdAt: string)

  datatype RevokedCertData = RevokedCertData(
    serialHex: string, nodeId: string, revokedAt: string, reason: RevocationReason)

  datatype InternalCa = InternalCa(caCertPem: string, caKeyPem: string, createdAt: string)

  datatype ServerCertData = ServerCertData(
    certPem: string, keyPem: string, serialHex: string, notAfter: string, createdAt: string)

  /** What `sign_node_leaf` returns when it succeeds. */
  datatype SignedLeaf = SignedLeaf(certPem: string, serialHex: string, notAfter: string)

  datatype AccountKind = User | ServiceAccount

  datatype AccountData = AccountData(
    id: string, kind: AccountKind, externalIss: Option<string>, externalSub: Option<string>,
    email: Option<string>, displayName: Option<string>, projectSlug: Option<string>,
    description: Option<string>, createdAt: string, updatedAt: string)

  datatype MembershipScope = Platform | OrgScope(orgSlug: string) | ProjectScope(projectSlug: string)

  datatype Role = PlatformAdmin | OrgAdmin | ProjectAdmin

  datatype MembershipData = MembershipData(
    id: string, accountId: string, scope: MembershipScope, role: Role,
    createdByAccount: string, createdAt: string)

  datatype ApiKeyData = ApiKeyData(
    id: string, accountId: string, hashHex: string, displayPrefix: string,
    description: Option<string>, expiresAt: Option<string>, lastUsedAt: Option<string>,
    revokedAt: Option<string>, createdAt: string, createdByAccount: string)

  datatype VolumePhase = VolumePending | VolumeCreating | VolumeReady | VolumeFailed

  datatype SnapshotData = SnapshotData(id: string, name: string, createdAt: string, usedBytes: nat)

  datatype VolumeSpec = VolumeSpec(
    projectSlug: string, nodeId: string, name: string, sizeBytes: nat, templateId: Option<string>)

  datatype VolumeStatus = VolumeStatus(
    phase: VolumePhase, path: string, usedBytes: nat, compressionRatio: real,
    snapshots: seq<SnapshotData>, error: Option<string>)

  datatype VolumeData = VolumeData(
    id: string, spec: VolumeSpec, status: VolumeStatus, createdAt: string, updatedAt: string)

  datatype TemplatePhase = TemplatePending | TemplateImporting | TemplateReady | TemplateFailed

  datatype TemplateSpec = TemplateSpec(
    projectSlug: string, nodeId: string, name: string, sourceUrl: Option<string>)

  datatype TemplateStatus = TemplateStatus(
    phase: TemplatePhase, sizeBytes: nat, bytesWritten: nat, totalBytes: nat,
    cloneCount: nat, error: Option<string>)

  datatype TemplateData = TemplateData(
    id: string, spec: TemplateSpec, status: TemplateStatus, createdAt: string, updatedAt: string)

  // -------------------------------------------------------------- commands

  datatype ComputeOp =
    | CreateNetwork(id: string, timestamp: string, projectSlug: string, netName: string,
                    ipv4Enabled: bool, ipv4Prefix: Option<string>,
                    ipv6Enabled: bool, ipv6Prefix: Option<string>,
                    dnsServers: seq<string>, ntpServers: seq<string>, isPublic: bool)
    | UpdateNetwork(id: string, timestamp: string, dnsServers: seq<string>, ntpServers: seq<string>)
    | DeleteNetwork(id: string, force: bool)
    | CreateNic(id: string, timestamp: string, projectSlug: string, networkId: string,
                nicName: Option<string>, macAddress: Option<string>,
                ipv4Address: Option<string>, ipv6Address: Option<string>,
                routedIpv4Prefixes: seq<string>, routedIpv6Prefixes: seq<string>,
                securityGroup: Option<string>)
    | UpdateNic(id: string, timestamp: string,
                routedIpv4Prefixes: seq<string>, routedIpv6Prefixes: seq<string>)
    | DeleteNic(id: string)
    | AttachNic(id: string, timestamp: string, vmId: string)
    | DetachNic(id: string, timestamp: string)
    | UpdateNicStatus(id: string, timestamp: string, nicPhase: NicPhase, socketPath: string,
                      message: Option<string>)
    | CreateVm(id: string, timestamp: string, spec: VmSpec)
    | UpdateVmSpec(id: string, timestamp: string, desiredState: VmDesiredState)
    | UpdateVmStatus(id: string, timestamp: string, status: VmStatus)
    | DeleteVm(id: string)
    | CreateSecurityGroup(id: string, timestamp: string, projectSlug: string, groupName: string,
                          description: Option<string>)
    | UpdateSecurityGroup(id: string, timestamp: string, newName: Option<string>,
                          newDescription: Option<Option<string>>)
    | DeleteSecurityGroup(id: string)
    | CreateSecurityGroupRule(id: string, timestamp: string, securityGroupId: string,
                              direction: RuleDirection, protocol: Option<string>,
                              portRangeStart: Option<nat>, portRangeEnd: Option<nat>,
                              cidr: Option<string>, description: Option<string>)
    | DeleteSecurityGroupRule(securityGroupId: string, ruleId: string)
    | UpdateSecurityGroupRule(timestamp: string, securityGroupId: string, ruleId: string,
                              newDescription: Option<Option<string>>)

  datatype StorageOp =
    | CreateVolume(id: string, timestamp: string, projectSlug: string, nodeId: string,
                   name: string, sizeBytes: nat, templateId: Option<string>)
    | DeleteVolume(id: string)
    | UpdateVolumeStatus(id: string, timestamp: string, volumePhase: VolumePhase,
                         path: Option<string>, usedBytes: nat, error: Option<string>)
    | ResizeVolume(id: string, timestamp: string, sizeBytes: nat)
    | CreateSnapshot(id: string, timestamp: string, volumeId: string, name: string)
    | CreateTemplate(id: string, timestamp: string, projectSlug: string, nodeId: string,
                     name: string, sizeBytes: nat, sourceUrl: Option<string>, totalBytes: nat)
    | UpdateTemplateStatus(id: string, timestamp: string, templatePhase: TemplatePhase,
                           bytesWritten: nat, sizeBytes: nat, error: Option<string>)

  datatype TenancyOp =
    | CreateOrg(timestamp: string, slug: string, name: string, contact: OrgContact)
    | UpdateOrg(slug: string, timestamp: string, newName: Option<string>,
                newContact: Option<OrgContact>)
    | DeleteOrg(slug: string)
    | CreateProject(timestamp: string, orgSlug: string, slug: string, name: string,
                    description: Option<string>)
    | DeleteProject(slug: string)

  datatype FleetOp =
    | RegisterNode(nodeId: string, timestamp: string, name: string, address: string,
                   resources: NodeResources, labels: map<string, string>)
    | UpdateNodeStatus(nodeId: string, timestamp: string, status: NodeStatus,
                       newResources: Option<NodeResources>)
    | DeregisterNode(nodeId: string)
    | CreateCluster(timestamp: string, orgSlug: string, slug: string, name: string,
                    description: Option<string>, location: Option<string>)
    | UpdateCluster(slug: string, timestamp: string, newName: Option<string>,
                    newDescription: Option<Option<string>>, newLocation: Option<Option<string>>)
    | DeleteCluster(slug: string)
    | AddNodeToCluster(timestamp: string, slug: string, nodeId: string)
    | RemoveNodeFromCluster(timestamp: string, slug: string, nodeId: string)
    | EnsureInternalCa(ca: InternalCa)
    | UpdateServerCert(timestamp: string, certPem: string, keyPem: string, serialHex: string,
                       notAfter: string)
    | CreateOnboardingToken(timestamp: string, id: string, tokenHashHex: string, slug: string,
                            nodeId: string, hostname: string, description: Option<string>,
                            expiresAt: string, createdByAccount: string)
    | DeleteOnboardingToken(slug: string, id: string)
    | RedeemOnboardingToken(timestamp: string, tokenHashHex: string, csrPem: string,
                            hostname: string, agentVersion: string, kernelVersion: string,
                            arch: string)
    | RevokeNodeCert(timestamp: string, nodeId: string, reason: RevocationReason)

  datatype IdentityOp =
    | CreateAccountByEmail(timestamp: string, id: string, address: string,
                           displayName: Option<string>)
    | EnsureAccountFromOidc(timestamp: string, newId: string, iss: string, sub: string,
                            email: Option<string>, displayName: Option<string>)
    | CreateMembership(timestamp: string, id: string, accountId: string,
                       scope: MembershipScope, role: Role, createdByAccount: string)
    | DeleteMembership(id: string)
    | BootstrapInitialPlatformAdmin(timestamp: string, id: string, accountId: string)
    | CreateServiceAccount(timestamp: string, accountId: string, membershipId: string,
                           projectSlug: string, name: string, description: Option<string>,
                           createdByAccount: string)
    | DeleteServiceAccount(accountId: string)
    | CreateStaticApiKey(timestamp: string, id: string, accountId: string, hashHex: string,
                         displayPrefix: string, description: Option<string>,
                         expiresAt: Option<string>, createdByAccount: string)
    | RevokeStaticApiKey(timestamp: string, id: string)

  datatype Op =
    | OnCompute(compute: ComputeOp)
    | OnStorage(storage: StorageOp)
    | OnTenancy(tenancy: TenancyOp)
    | OnFleet(fleet: FleetOp)
    | OnIdentity(identity: IdentityOp)

  datatype Command = Command(requestId: string, op: Op)

  // --------------------------------------------------- responses and events

  datatype Response =
    | NodeIs(node: NodeData)
    | NetworkIs(network: NetworkData)
    | NicIs(nic: NicData)
    | VmIs(vm: VmData)
    | OrgIs(org: OrgData)
    | ProjectIs(project: ProjectData)
    | ClusterIs(cluster: ClusterData)
    | OnboardingTokenIs(token: OnboardingTokenData)
    | AccountIs(account: AccountData)
    | MembershipIs(membership: MembershipData)
    | ApiKeyIs(apiKey: ApiKeyData)
    | BootstrapResult(node: NodeData, clientCertPem: string, caCertPem: string)
    | Ack
    | VolumeIs(volume: VolumeData)
    | TemplateIs(template: TemplateData)
    | SecurityGroupIs(securityGroup: SecurityGroupData)
    | Deleted(id: string)
    | DeletedWithCount(id: string, nicsDeleted: nat)
    | Error(code: nat)

  datatype Event =
    | NodeRegistered(node: NodeData)
    | NodeUpdated(id: string, oldNode: NodeData, newNode: NodeData)
    | NodeDeregistered(id: string)
    | NetworkCreated(network: NetworkData)
    | NetworkUpdated(id: string, oldNetwork: NetworkData, newNetwork: NetworkData)
    | NetworkDeleted(id: string)
    | NicCreated(nic: NicData)
    | NicUpdated(id: string, oldNic: NicData, newNic: NicData)
    | NicDeleted(id: string, networkId: string)
    | VmCreated(vm: VmData)
    | VmUpdated(id: string, oldVm: VmData, newVm: VmData)
    | VmStatusUpdated(id: string, oldVm: VmData, newVm: VmData)
    | VmDeleted(id: string)
    | VolumeCreated(volume: VolumeData)
    | VolumeStatusUpdated(id: string, oldVolume: VolumeData, newVolume: VolumeData)
    | VolumeDeleted(id: string, nodeId: string)
    | TemplateCreated(template: TemplateData)
    | TemplateUpdated(id: string, oldTemplate: TemplateData, newTemplate: TemplateData)
    | SecurityGroupCreated(id: string)
    | SecurityGroupDeleted(id: string)

  /** How one command handler ends. `Commit` is the path that commits its write
      transaction and falls through to the response cache; `Early` is a `return`
      inside the handler, which drops the transaction and caches nothing. */
  datatype Outcome<+T> =
    | Commit(tables: T, response: Response, events: seq<Event>)
    | Early(response: Response)

  /** Functions of foreign libraries that the handlers call: they are
      deterministic, so every replica has the same ones. */
  datatype Env = Env(
    lower: string -> string,
    trim: string -> string,
    mac: string -> string,
    signs: (InternalCa, string, string, string) -> bool)

  /** What a handler reads from outside the command and the tables: the wall
      clock, and the leaf certificate with its random serial. */
  datatype Oracle = Oracle(now: string, leaf: SignedLeaf)
}
