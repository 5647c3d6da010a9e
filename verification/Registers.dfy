/** The tables as registers. Each group of fields that commands set together is
    one register of a row; it is empty while the row does not exist. A command
    that commits sets, erases or keeps a register, and what it sets comes from the
    command. The counters are not registers: they follow from the other rows. */
module Registers {
  import opened Basics
  import opened Types

  datatype Effect<+V> = Keep | Erase | Set(value: V) {
    function On(before: Option<V>): Option<V> {
      match this
      case Keep => before
      case Erase => None
      case Set(v) => Some(v)
    }
  }

  datatype Value =
    | At(time: string)
    | Label(text: string)
    | Note(note: Option<string>)
    | Ids(ids: seq<string>)
    // networks, NICs, VMs and security groups
    | NetworkBorn(project: string, name: string, hasIpv4: bool, ipv4Prefix: Option<string>,
                  hasIpv6: bool, ipv6Prefix: Option<string>, isPublic: bool, createdAt: string)
    | Servers(dns: seq<string>, ntp: seq<string>)
    | NicBorn(project: string, nicName: Option<string>, network: string, mac: string,
              ipv4: Option<string>, ipv6: Option<string>, group: Option<string>, createdAt: string)
    | Routed(ipv4Prefixes: seq<string>, ipv6Prefixes: seq<string>)
    | NicReport(nicPhase: NicPhase, message: Option<string>)
    | VmBorn(project: string, name: string, nodeSelector: Option<string>, cpuCores: nat, memoryMb: nat,
             volume: string, nic: string, image: string, userData: Option<string>, createdAt: string)
    | Desired(state: VmDesiredState)
    | VmReport(vmStatus: VmStatus)
    | Born(parent: string, createdAt: string)
    | Rule(direction: RuleDirection, protocol: Option<string>, portStart: Option<nat>, portEnd: Option<nat>,
           cidr: Option<string>, createdAt: string)
    // volumes and templates
    | VolumeBorn(project: string, node: string, name: string, template: Option<string>, ratio: real,
                 createdAt: string)
    | Size(bytes: nat)
    | VolumeReport(volumePhase: VolumePhase, usedBytes: nat, error: Option<string>)
    | Snapshots(snapshots: seq<SnapshotData>)
    | TemplateBorn(project: string, node: string, name: string, url: Option<string>, totalBytes: nat,
                   createdAt: string)
    | TemplateReport(templatePhase: TemplatePhase, bytes: nat, written: nat, error: Option<string>)
    // organizations and projects
    | Contact(contact: OrgContact)
    | ProjectBorn(org: string, name: string, description: Option<string>, createdAt: string, updatedAt: string)
    // nodes, clusters, tokens and certificates
    | NodeBorn(name: string, address: string, labels: map<string, string>, cluster: Option<string>,
               createdAt: string)
    | NodeState(nodeStatus: NodeStatus)
    | Resources(resources: NodeResources)
    | Cert(serial: Option<string>, expires: Option<string>)
    | Agent(hostname: Option<string>, version: Option<string>)
    | TokenBorn(hash: string, clusterSlug: string, node: string, hostName: string,
                description: Option<string>, expiresAt: string, createdBy: string, createdAt: string)
    | Use(usedAt: Option<string>, usedBy: Option<string>)
    | Revocation(node: string, revokedAt: string, reason: RevocationReason)
    | Authority(ca: InternalCa)
    | ServerCert(certPem: string, keyPem: string, serialHex: string, notAfter: string, createdAt: string)
    // accounts, memberships and API keys
    | AccountBorn(kind: AccountKind, projectOf: Option<string>, description: Option<string>, createdAt: string)
    | OidcIdentity(iss: Option<string>, sub: Option<string>)
    | Grant(account: string, scope: MembershipScope, role: Role, createdBy: string, createdAt: string)
    | KeyBorn(account: string, hash: string, prefix: string, description: Option<string>,
              expires: Option<string>, lastUsed: Option<string>, createdAt: string, createdBy: string)
}
