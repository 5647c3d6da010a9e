# mvirt in Dafny

A model of the parts of mvirt whose correctness is hardest to see from the code,
with proofs about every run, every input and every reachable state.

- **Control plane** (`mvirt-cplane`). The replicated state machine behind the API:
  about fifty commands on sixteen tables behind a cache of applied requests.
  `Types` holds the rows, commands, responses and events; `Compute`, `Storage`,
  `Tenancy`, `Fleet` and `Identity` hold the handlers as functions of the tables
  they write; `ControlPlane` puts them behind the request cache. `ApiState` is the
  object itself, with one field per table and every handler spelled out as the
  source does it, proved to compute those functions. `NicCounters`, `BackLinks`,
  `CloneAccounting`, `Onboarding`, `Revocation`, `IdentityBinding`, `Grants`,
  `References`, `Footprint` and `Answers` say what one command keeps; `Refusals` says
  when it is accepted. `Registers` and the modules named after it split every row into
  groups of fields and say which commands set which; `LastWriter`, `Completeness`,
  `Redemption` and `Lifetimes` build on that. `Runs` and `Histories` say what whole
  runs keep; `ReplayWindow` is about the cache, `EventTruth`, `ComputeView`,
  `CloneAccounting` and `NodeView` about the event stream, `Erasure`, `Replicas` and
  `Determinism` about replicas with different clocks,
  `Snapshot` about installing snapshots, and `Reachability` about which states
  commands lead to.
- **Routing** (`mvirt-net`). `Routing`, `RoutingProtocol`, `RouteLaws` and
  `RoutingDefaults`: the manager that broadcasts table updates over FIFO channels, and
  the reactors that fold them into local copies. `RoutingManager` and `RoutingFabric` are the
  objects, proved to take the steps of the protocol.
- **Log store** (`mvirt-log`). `LogTime`, `LogStore` and `Batcher`: time ranges as
  key ranges, the object index, and the batcher in front of the store.
- **Checksum** (`mvirt-ebpf`) and **BufferPool** (`mvirt-net`).

A handler ends in one of two ways. `Commit` carries the new tables, the response
and the events, and the response is cached. `Early` is a return from inside the
handler: the write transaction is dropped and nothing is cached. What a handler
does not take from its command or its tables is a parameter: `Env` holds the
deterministic library functions (lowercasing, trimming, the MAC derived from an id,
whether a CSR can be signed) and `Oracle` what a replica reads from its own
surroundings (the clock and the signed leaf with its random serial).

Where a natural property does not hold of the code, the model keeps the code: a
lemma in `Counterexamples` gives a state that commands reach and a command that
breaks the property there, and a lemma whose name ends in `Iff` says exactly when
the property holds.

Where code and documentation disagree, the model follows the code:

- The command type asks that `apply` never read the clock
  (mvirt-cplane/src/command.rs:6-8). A VM delete that releases a NIC does
  (mvirt-cplane/src/state.rs:1383), and a token redemption draws a random serial
  (mvirt-cplane/src/state.rs:2004-2011). `Determinism.DeterministicIff` and
  `Replicas.ReplicasAgree` say what remains true.
- A snapshot is meant to carry the state, but its envelope leaves out seven tables
  (mvirt-cplane/src/state.rs:3228-3239). `Snapshot.RoundTripIff` says when nothing
  is lost.

`dafny verify dfyconfig.toml` checks the whole project.

## Model

| member | source | states |
|---|---|---|
| `Runs.RunsAreSound` | mvirt-cplane/src/state.rs:692-3160 | After every sequence of commands from the empty database, whatever the clocks, serials and replays: rows are stored under their own id; every NIC's network and security group exist; each network's `nic_count` is its number of NICs; each group's `nic_count` is its number of NICs plus the references leaked by network deletes; `clone_count` is the number of clones, on the template's own node; names of networks, VMs, volumes and service accounts are unique per project and snapshot names per volume; every project has its organization; cluster lists hold no duplicates; an OIDC identity belongs to one account; service accounts are unlinked; memberships and keys have an account |
| `Runs.GroupCountExactIff` | mvirt-cplane/src/state.rs:938-944 | A security group's counter equals its number of NICs if and only if no network delete removed a NIC carrying it since the group was created |
| `Runs.DeletedNicWasCounted` | mvirt-cplane/src/state.rs:1078-1090 | In every reachable state both counters of an existing NIC are at least one, so neither `saturating_sub` of a NIC delete saturates |
| `Runs.EventsTellTheTables` | mvirt-cplane/src/state.rs:814-1400 | Folding all events of a run over an empty view gives exactly the VM table, the NIC table on ids and specs, the network table up to `nic_count`, the ids of the security groups, the volume table on ids and specs up to size, and the template table up to `clone_count`: through cascades, two-event commands, cached replays and errors |
| `EventTruth.EventsAreTrue` | mvirt-cplane/src/state.rs:814-1400 | After every run, a command that commits emits events about exactly the rows it should tell of, in order (a network's NICs before it, a VM before its NIC); each carries the rows as they were before and after it, and no two are about the same row; refused and cached commands emit none |
| `LastWriter.HandleWrites` | mvirt-cplane/src/state.rs:692-3160 | For every group of fields of every row of every table, a command that commits sets it to the command's own values, erases it with the row, or leaves it alone, as a table of commands says; rows that the command does not name or reach by a cascade are untouched |
| `LastWriter.LastWriteStands` | mvirt-cplane/src/state.rs:692-3160 | After every run such a group of fields holds what the last committed command that writes it has set, or is gone if that command erased it |
| `LastWriter.NobodyWrote` | mvirt-cplane/src/state.rs:692-3160 | What no committed command of a run writes is as it was at the start |
| `LastWriter.SomebodyWrote` | mvirt-cplane/src/state.rs:692-3160 | What has changed over a run was written by a committed command, after which nobody wrote it |
| `Completeness.RegistersDetermine` | mvirt-cplane/src/state.rs:692-3160 | Two runs that leave all these groups of fields alike, and the same leaked references, end in the same database: it holds nothing but last writes and counts |
| `Completeness.RulesStayDistinct` | mvirt-cplane/src/state.rs:3039-3160 | After every run the rules of a security group have distinct ids |
| `Refusals.HandleMeets` | mvirt-cplane/src/state.rs:692-3160 | Whether a command commits, is refused with 400, 401, 404, 409, 410 or 503, or finds what it asks for already there follows from tests on the rows, in the source's order, for all commands; clock and serial play no part |
| `Lifetimes.NetworkDeletedIff` | mvirt-cplane/src/state.rs:906-950 | A network delete commits if and only if the network exists and it is forced or no NIC is on the network; it is refused with 409 while NICs are on it and it is not forced, else with 404 if the network is missing |
| `Lifetimes.NicRemovedBecause` | mvirt-cplane/src/state.rs:906-1099 | A NIC that a run loses was removed, where it was first lost, by a delete of that NIC or by a forced delete of its network |
| `NodeView.StepAnnouncedIff` | mvirt-cplane/src/state.rs:1764-2111 | A command's events tell the node table whatever serial is drawn if and only if it does not issue a token, withdraw a token with its placeholder, redeem one, or revoke a certificate (unless the node stays, is revoked already and was last updated at the same time); if no node has the drawn serial, the events fail to tell the table in every one of these cases |
| `NodeView.EventsTellNodes` | mvirt-cplane/src/state.rs:702-809 | Over every run without such commands, folding the events gives the node table |
| `NicCounters.StepKeepsSound` | mvirt-cplane/src/state.rs:906-1099 | Every command on networks, NICs, VMs and groups keeps references intact and network counters exact, and leaks exactly the group references of the NICs a network delete takes along |
| `NicCounters.StepKeepsExactIff` | mvirt-cplane/src/state.rs:938-944 | From exact counters a command leads to exact counters if and only if it does not delete a network together with a NIC that carries a group |
| `BackLinks.StepKeepsLinksIff` | mvirt-cplane/src/state.rs:1101-1148 | A set `vm_id` names an existing VM whose spec names that NIC, after a command as before it, if and only if the command neither attaches a NIC to a VM made for another one nor deletes a VM whose NIC has the empty id |
| `BackLinks.LinksAreExclusive` | mvirt-cplane/src/state.rs:1209-1295 | Linked NICs: no two claim the same VM |
| `BackLinks.DeleteVmFreesItsNic` | mvirt-cplane/src/state.rs:1359-1400 | A VM delete clears the link of exactly the NIC that points at the VM and changes no other NIC |
| `BackLinks.StepKeepsNames` | mvirt-cplane/src/state.rs:814-1400 | Network and VM names stay unique per project under every command |
| `BackLinks.StepKeepsGroupNamesIff` | mvirt-cplane/src/state.rs:2978-3005 | Group names stay unique per project if and only if the command is not a rename to a name taken in the project |
| `ComputeView.StepAnnounced` | mvirt-cplane/src/state.rs:814-1400 | One command's events, folded over the view of the tables before it, give the view of the tables after it |
| `CloneAccounting.StepKeepsSound` | mvirt-cplane/src/state.rs:2574-2916 | Every volume and template command keeps clone counters exact, clones on their template's node, snapshot names distinct per volume and volume names unique per project |
| `CloneAccounting.VolumesOnlyGrow` | mvirt-cplane/src/state.rs:2740-2816 | A volume that survives a command is not smaller, has the same template and has lost no snapshot |
| `CloneAccounting.DeletedCloneWasCounted` | mvirt-cplane/src/state.rs:2677-2703 | A clone that is deleted was counted, so `saturating_sub` does not saturate |
| `CloneAccounting.StepAnnounced` | mvirt-cplane/src/state.rs:2574-2916 | Volume and template events folded over a view give the view of the new tables |
| `Tenancy.StepKeepsSound` | mvirt-cplane/src/state.rs:1405-1566 | Slugs are keys and no project loses its organization |
| `References.HandleResolvedIff` | mvirt-cplane/src/state.rs:1470-1563 | The organization of every cluster, the scope of every membership and the project of every group, volume and service account exist, after a command as before it, if and only if the command does not delete an organization or project that one of them names |
| `References.ReferencesSurvive` | mvirt-cplane/src/state.rs:1470-1563 | Over every run without such a delete they do |
| `Onboarding.StepKeepsSound` | mvirt-cplane/src/state.rs:1669-1729 | Rows are stored under their own id and no cluster lists a node twice |
| `Onboarding.StepConservesTokens` | mvirt-cplane/src/state.rs:1764-2053 | For every token hash: unredeemed before plus issued equals unredeemed after plus redeemed plus withdrawn |
| `Onboarding.UsedTokensStayUsed` | mvirt-cplane/src/state.rs:1915-2053 | A token row never changes its hash; once used it never changes at all |
| `Onboarding.DecommissionIsClean` | mvirt-cplane/src/state.rs:2083-2102 | After a decommission no node row, no cluster list and no unredeemed token names the node; the other nodes and token rows are unchanged, and so are the other members of each list; the certificate is on the revocation list |
| `Onboarding.StepKeepsRostersIff` | mvirt-cplane/src/state.rs:790-809 | Clusters list only existing nodes, after a command as before it, if and only if the command neither deregisters a listed node nor withdraws a token whose placeholder another cluster lists |
| `Revocation.StepKeepsTokensLiveIff` | mvirt-cplane/src/state.rs:790-809 | The node of every unredeemed token exists, after a command as before it, if and only if the command neither deregisters a node that has one nor withdraws one of several of a placeholder |
| `Revocation.TokensLiveSurvives` | mvirt-cplane/src/state.rs:1764-1913 | Over every run that strands none it does |
| `Revocation.StaysRevokedIff` | mvirt-cplane/src/state.rs:754-788 | A revoked node that is still there is still revoked if and only if the command neither reports another status for it nor redeems a token of it |
| `Revocation.RevokedStaysOut` | mvirt-cplane/src/state.rs:2103-2110 | Over every run that neither reinstates nor recreates it, a revoked node does not come back |
| `Revocation.RevocationIsListed` | mvirt-cplane/src/state.rs:2071-2079 | A revocation puts the node's serial on the list |
| `Revocation.RevocationIsForever` | mvirt-cplane/src/state.rs:2071-2079 | No run of commands ever takes a serial off the list (installing a snapshot does, see `Snapshot.RoundTripIff`) |
| `Redemption.RedeemsIff` | mvirt-cplane/src/state.rs:1915-2053 | A redemption commits if and only if the first token in key order with the presented hash is unused and not expired, its cluster and node exist, there is a CA, and the CSR can be signed |
| `Redemption.RefusedBecause` | mvirt-cplane/src/state.rs:1936-2011 | Otherwise the first reason decides: 401 if used or expired, 410 if the cluster or node is gone, 503 without a CA, 400 for a CSR that cannot be signed |
| `Redemption.UnknownHash` | mvirt-cplane/src/state.rs:1936-1944 | An unknown hash is refused with 401 |
| `Redemption.RedeemAdmits` | mvirt-cplane/src/state.rs:2024-2053 | A redemption marks exactly this token used, puts its node online with serial, expiry and what the agent reports, answers with the certificate, and changes nothing else |
| `Redemption.UsedTokenWasRedeemedInTime` | mvirt-cplane/src/state.rs:1915-2053 | After every run, each used token was redeemed by a command that presented its hash, found it unused, and is stamped no later than its expiry; its `used_at` is that stamp |
| `IdentityBinding.StepKeepsSound` | mvirt-cplane/src/state.rs:2116-2569 | Every command keeps each (issuer, subject) with at most one account, service accounts without identity or email, and memberships and keys owned |
| `IdentityBinding.StepKeepsInvites` | mvirt-cplane/src/state.rs:2116-2239 | Accounts that are not linked yet keep pairwise distinct lowercased emails, given that lowercasing twice is lowercasing once |
| `IdentityBinding.StepKeepsServiceNames` | mvirt-cplane/src/state.rs:2394-2416 | Service accounts of a project keep distinct names under every command |
| `IdentityBinding.MatchesAreUnique` | mvirt-cplane/src/state.rs:2176-2209 | Whatever the scan order, at most one account can match a login, by identity or by invitation, and it is a user |
| `IdentityBinding.BindingKeptIff` | mvirt-cplane/src/state.rs:2160-2234 | A linked account keeps its identity through a command if and only if the command does not write a new account under its id |
| `IdentityBinding.AccountsComeAndGo` | mvirt-cplane/src/state.rs:2116-2494 | An account row disappears only by deleting that service account and appears only under the id the command brings |
| `IdentityBinding.KeyOwnersKeptIff` | mvirt-cplane/src/state.rs:2496-2550 | Every key's account stays a service account if and only if the command does not write a user over a key owner |
| `IdentityBinding.DeleteServiceRemovesExactly` | mvirt-cplane/src/state.rs:2452-2494 | Deleting a service account removes it, all its keys and all its memberships, and nothing else |
| `Lifetimes.RevocationSetsDate` | mvirt-cplane/src/state.rs:2552-2569 | Revoking a key sets its date if it has none, keeps the first one otherwise, and changes no other field and no other key |
| `Lifetimes.RevokedKeyStaysRevoked` | mvirt-cplane/src/state.rs:2552-2569 | Over every run a revoked key keeps its first date while its row exists |
| `Lifetimes.RevokedKeyWasRevoked` | mvirt-cplane/src/state.rs:2552-2569 | After every run, each revoked key was revoked by a revocation of that key, whose date it bears |
| `IdentityBinding.AdminsKeptIff` | mvirt-cplane/src/state.rs:2241-2376 | There stays at most one platform admin if and only if no explicit grant adds another; bootstraps never do |
| `Grants.GrantKeptIff` | mvirt-cplane/src/state.rs:2241-2494 | A membership keeps its account, scope and role if and only if the command does not delete it, delete its service account, or write another grant under its id, which service account creation and bootstrap do not test |
| `Grants.AdminRemainsIff` | mvirt-cplane/src/state.rs:2338-2450 | The platform keeps an admin if and only if some admin membership is not dropped that way |
| `Grants.GrantSurvives` | mvirt-cplane/src/state.rs:2241-2494 | Over every run that does not drop it, a grant holds |
| `Grants.AdminSurvives` | mvirt-cplane/src/state.rs:2338-2450 | Over every run that never drops the last one, there is a platform admin |
| `ControlPlane.ErrorsChangeNothing` | mvirt-cplane/src/state.rs:692-3160 | Every error response leaves tables and cache unchanged and emits no event |
| `ReplayWindow.CacheIsWindow` | mvirt-cplane/src/state.rs:228-230 | The request cache is always the last thousand committed requests in commit order: the LRU is a FIFO window because lookups do not promote |
| `ReplayWindow.ReplaysUntilThousandLater` | mvirt-cplane/src/state.rs:693-696 | Once a request has committed, any command with its id gets the same response, emits nothing and changes nothing until a thousand further requests have committed; then it executes again |
| `ReplayWindow.PutKnown` | mvirt-cplane/src/state.rs:228-230 | Storing under a known id replaces its entry and makes it the newest |
| `Histories.GroupCountsSurvive` | mvirt-cplane/src/state.rs:906-1099 | Group counters stay exact over every run that avoids such network deletes |
| `Histories.LinksSurvive` | mvirt-cplane/src/state.rs:1101-1400 | NIC links stay intact over every run that avoids stranding commands |
| `Histories.NamesSurvive` | mvirt-cplane/src/state.rs:814-1400 | Network and VM names stay unique per project over every run |
| `Histories.GroupNamesSurvive` | mvirt-cplane/src/state.rs:2921-3005 | Group names do over every run without a colliding rename |
| `Histories.RostersSurvive` | mvirt-cplane/src/state.rs:1669-1729 | Cluster lists stay free of missing nodes over every run without a stranding command |
| `Histories.IdentitySurvives` | mvirt-cplane/src/state.rs:2116-2569 | Identity invariants hold after every run, from any state that has them |
| `Histories.InvitesSurvive` | mvirt-cplane/src/state.rs:2116-2239 | Invitations stay unambiguous over every run |
| `Histories.BindingSurvives` | mvirt-cplane/src/state.rs:2165-2239 | An (issuer, subject) pair stays bound to the same account over every run that brings no used account id |
| `Histories.KeyOwnersSurvive` | mvirt-cplane/src/state.rs:2496-2569 | API keys stay with service accounts over every run that writes no user over a key owner |
| `Histories.AdminsSurvive` | mvirt-cplane/src/state.rs:2338-2376 | At most one platform admin over every run without a second explicit grant |
| `Histories.TokensConserved` | mvirt-cplane/src/state.rs:1764-2053 | For every token hash and every run: issued equals redeemed plus still unredeemed plus withdrawn |
| `Histories.UsedTokenIsFrozen` | mvirt-cplane/src/state.rs:2024-2028 | Over every run, a used token is unchanged for as long as its row exists |
| `Histories.VolumeOnlyGrows` | mvirt-cplane/src/state.rs:2740-2816 | Over every run, a volume never shrinks, changes template or loses a snapshot while it exists |
| `Histories.Survives` | mvirt-cplane/src/state.rs:692-3160 | What every single command that is not bad for its database keeps, every run that avoids the bad ones keeps |
| `Footprint.StepUntouched` | mvirt-cplane/src/state.rs:814-3152 | A command on networks, NICs, VMs or groups leaves every row alone that it does not reach by name, by a reference in the row it removes, or by the cascade of a network delete |
| `Footprint.StepKeepsCores` | mvirt-cplane/src/state.rs:814-3152 | No command changes what was fixed when a network, NIC, VM or group was created (ids, project, addresses, network, group, VM spec except the desired state, creation time) |
| `Footprint.NicKeepsCore` | mvirt-cplane/src/state.rs:951-1207 | Over every run, a NIC keeps its network, MAC and IP addresses, group, project and name from creation to deletion |
| `Answers.AnswersAreTrueIff` | mvirt-cplane/src/state.rs:692-3160 | After every run, the answer to a command that is not answered from the cache is true of the tables before and after it, if and only if the command does not revoke the certificate of an existing node for another reason than decommission: a row in the answer is of the kind and has the id the command names, or holds the identity that logs in, or is the node of the redeemed token, and is the row stored under its id, `Deleted` means that the row the command names is gone, a deleted network took exactly the counted NICs along, `Ack` means that the CA, the server certificate or a platform admin is there, and an error changed nothing |
| `ComputeErasure.StepErases` | mvirt-cplane/src/state.rs:1376-1391 | Up to NIC `updated_at`, a command does to the tables what it does to the erased tables with a blank clock: the clock steers no branch |
| `FleetErasure.StepErases` | mvirt-cplane/src/state.rs:2004-2043 | Up to certificate serial, expiry and text, the same for nodes, clusters and tokens |
| `Replicas.HandleErases` | mvirt-cplane/src/state.rs:692-3160 | The same for every command on the whole database |
| `Replicas.RepliesAgree` | mvirt-cplane/src/state.rs:692-3160 | In states equal up to erasure the same command gets the same response and emits the same events, up to erasure |
| `Replicas.ReplicasAgree` | mvirt-cplane/src/command.rs:6-8 | Two replicas that start equal up to erasure and apply the same commands, each with its own clock, serials and certificates, end equal up to erasure in every table but the revocation list and in the request cache, and have given the same responses and emitted the same events, up to erasure, all along |
| `Determinism.DeterministicIff` | mvirt-cplane/src/command.rs:6-8 | A command has one outcome whatever the replica's surroundings if and only if it does not execute a VM delete that releases a NIC or a redemption that passes every test and is signed |
| `Determinism.QuietReplicasAreEqual` | mvirt-cplane/src/state.rs:1383-1383 | Replicas that meet no such command stay equal |
| `Snapshot.RoundTripIff` | mvirt-cplane/src/state.rs:3162-3239 | Restoring a snapshot gives back the nine enveloped tables, and the whole state if and only if the other seven tables and the cache are empty |
| `Snapshot.LivesAreSound` | mvirt-cplane/src/state.rs:3178-3221 | All invariants of runs also hold along histories in which replicas install snapshots of each other, whatever the receiver held |
| `Snapshot.RestoreKeepsLinks` | mvirt-cplane/src/state.rs:3178-3221 | NIC links and unique names of networks, VMs and groups hold after a restore exactly when they held at the source |
| `Snapshot.RestoredReplicaKeepsUp` | mvirt-cplane/src/state.rs:3178-3221 | A restored replica answers every command on the enveloped tables with a request id new to the source exactly like the source, over every run of such commands |
| `Snapshot.RestoredReplicaRefusesTokens` | mvirt-cplane/src/state.rs:3228-3239 | A restored replica refuses every onboarding token with 401, also one the source would redeem |
| `Counterexamples.ForcedDeleteLeaks` | mvirt-cplane/src/state.rs:938-944 | From a state that a list of commands reaches: a forced network delete after which a group counts a NIC that is gone |
| `Counterexamples.AttachStrands` | mvirt-cplane/src/state.rs:1101-1148 | From a state that a list of commands reaches: an attach, then a VM delete, after which a NIC points at a missing VM |
| `Counterexamples.EmptyNicIdStrands` | mvirt-cplane/src/state.rs:1376-1391 | From a state that a list of commands reaches: a VM delete that does not release a NIC whose id is empty |
| `Counterexamples.RenameCollides` | mvirt-cplane/src/state.rs:2995-2997 | From a state that a list of commands reaches: a rename after which two groups of a project share a name |
| `Counterexamples.RostersStrand` | mvirt-cplane/src/state.rs:790-809 | From a state that a list of commands reaches: a deregistration, and a token withdrawal, after which a cluster lists a missing node |
| `Counterexamples.InviteOverwrites` | mvirt-cplane/src/state.rs:2160-2160 | From a state that a list of commands reaches: an invitation that erases a linked account |
| `Counterexamples.LoginDemotes` | mvirt-cplane/src/state.rs:2234-2234 | From a state that a list of commands reaches: a login that turns the owner of an API key into a user |
| `Counterexamples.GrantAddsAdmin` | mvirt-cplane/src/state.rs:2241-2320 | From a state that a list of commands reaches: a grant that adds a second platform admin |
| `Counterexamples.RevocationMisreports` | mvirt-cplane/src/state.rs:2103-2110 | From a state that a list of commands reaches: a revocation for compromise answers that the node is deleted and keeps it |
| `Counterexamples.IssueIsSilent` | mvirt-cplane/src/state.rs:1764-1867 | From a state that a list of commands reaches: a token whose placeholder no event tells of |
| `Counterexamples.DeregisterStrandsToken` | mvirt-cplane/src/state.rs:790-809 | From such a state: a deregistration that leaves an unredeemed token without its node |
| `Counterexamples.HeartbeatReinstates` | mvirt-cplane/src/state.rs:754-788 | From such a state: a heartbeat that puts a revoked node back online |
| `Counterexamples.OrgDeleteOrphans` | mvirt-cplane/src/state.rs:1470-1500 | From such a state: an organization delete that leaves a cluster without one |
| `Counterexamples.ProjectDeleteOrphans` | mvirt-cplane/src/state.rs:1549-1563 | From such a state: a project delete that leaves security groups without one |
| `Counterexamples.ServiceOverwritesAdmin` | mvirt-cplane/src/state.rs:2447-2447 | From such a state: a service account whose membership erases the only platform admin |
| `Counterexamples.ClocksDiverge` | mvirt-cplane/src/state.rs:1383-1383 | A run after which a VM delete makes replicas with different clocks differ |
| `Counterexamples.SnapshotForgets` | mvirt-cplane/src/state.rs:3228-3239 | From a state that a list of commands reaches: a state with a cluster that a snapshot does not bring back |
| `Counterexamples.DefaultIsAmbiguous` | mvirt-net/src/routing.rs:194-200 | A table delete with two possible new defaults |
| `Counterexamples.ReusedKeyMisleads` | mvirt-log/src/storage.rs:64-80 | A reused key after which an object query returns an entry that does not name the object |
| `Reachability.ReachNext` | mvirt-cplane/src/state.rs:692-3160 | A command that commits leads from a reachable database to a reachable one: how the states of the counterexamples are reached from the empty database |
| `ApiState.ApiState.constructor` | mvirt-cplane/src/state.rs:225-234 | A new object is the initial state and has all invariants |
| `ApiState.ApiState.NicsOn` | mvirt-cplane/src/state.rs:908-911 | The filtered list of a network's NICs, in key order |
| `ApiState.ApiState.DropNics` | mvirt-cplane/src/state.rs:937-943 | The cascade removes exactly the listed rows, each under its own id, and emits one event per row in order |
| `ApiState.ApiState.DeleteNetwork` | mvirt-cplane/src/state.rs:906-949 | The step-by-step handler does what `Compute.ApplyDeleteNetwork` says, in tables, response and events |
| `ApiState.ApiState.CreateNetwork` | mvirt-cplane/src/state.rs:814-871 | The same for network creation: name taken, id known, new row |
| `ApiState.ApiState.UpdateNetwork` | mvirt-cplane/src/state.rs:873-904 | The same for DNS and NTP servers |
| `ApiState.ApiState.CreateNic` | mvirt-cplane/src/state.rs:951-1031 | The same for NIC creation, which writes three tables |
| `ApiState.ApiState.DeleteNic` | mvirt-cplane/src/state.rs:1066-1099 | The same for NIC deletion |
| `ApiState.ApiState.UpdateNic` | mvirt-cplane/src/state.rs:1033-1064 | The same for routed prefixes |
| `ApiState.ApiState.AttachNic` | mvirt-cplane/src/state.rs:1101-1148 | The same for attaching: missing NIC, linked NIC, missing VM |
| `ApiState.ApiState.DetachNic` | mvirt-cplane/src/state.rs:1150-1174 | The same for detaching |
| `ApiState.ApiState.UpdateNicStatus` | mvirt-cplane/src/state.rs:1176-1203 | The same for status reports; an empty socket path keeps the known one and no event is emitted |
| `ApiState.ApiState.CreateVm` | mvirt-cplane/src/state.rs:1209-1295 | The same for VM creation, which also links the NIC |
| `ApiState.ApiState.DeleteVm` | mvirt-cplane/src/state.rs:1359-1400 | The same for VM deletion, which also releases the NIC |
| `ApiState.ApiState.UpdateVmSpec` | mvirt-cplane/src/state.rs:1297-1326 | The same for the desired state |
| `ApiState.ApiState.UpdateVmStatus` | mvirt-cplane/src/state.rs:1328-1357 | The same for VM status |
| `ApiState.ApiState.FindGroupNic` | mvirt-cplane/src/state.rs:3009-3011 | A NIC that carries the group, if there is one |
| `ApiState.ApiState.CreateGroup` | mvirt-cplane/src/state.rs:2921-2976 | The same for group creation, whose checks come in the order id, name, project |
| `ApiState.ApiState.UpdateGroup` | mvirt-cplane/src/state.rs:2978-3005 | The same for group renames and descriptions |
| `ApiState.ApiState.DeleteGroup` | mvirt-cplane/src/state.rs:3007-3037 | The same for group deletion, refused while a NIC carries the group |
| `ApiState.FindRule` | mvirt-cplane/src/state.rs:3135-3143 | The first rule with an id, if there is one |
| `ApiState.RetainRules` | mvirt-cplane/src/state.rs:3101-3101 | The retain loop over rules |
| `ApiState.ApiState.CreateRule` | mvirt-cplane/src/state.rs:3039-3081 | The same for a new rule; a known id returns the group unchanged |
| `ApiState.ApiState.DeleteRule` | mvirt-cplane/src/state.rs:3083-3114 | The same for rule deletion, an error when nothing was removed |
| `ApiState.ApiState.UpdateRule` | mvirt-cplane/src/state.rs:3116-3150 | The same for the description of the first rule with the id |
| `ApiState.ApiState.ApplyNetwork` | mvirt-cplane/src/state.rs:814-949 | All network commands do what `Compute.NetworkStep` says |
| `ApiState.ApiState.ApplyNic` | mvirt-cplane/src/state.rs:951-1203 | All NIC commands do what `Compute.NicStep` says |
| `ApiState.ApiState.ApplyVm` | mvirt-cplane/src/state.rs:1209-1400 | All VM commands do what `Compute.VmStep` says |
| `ApiState.ApiState.ApplyGroup` | mvirt-cplane/src/state.rs:2921-3150 | All group and rule commands do what `Compute.GroupStep` says |
| `ApiState.ApiState.ApplyCompute` | mvirt-cplane/src/state.rs:814-1400 | All commands on networks, NICs, VMs and groups do what `Compute.Step` says |
| `ApiState.ApiState.CreateVolume` | mvirt-cplane/src/state.rs:2574-2675 | The same for volume creation, which counts the clone |
| `ApiState.ApiState.DeleteVolume` | mvirt-cplane/src/state.rs:2677-2703 | The same for volume deletion |
| `ApiState.ApiState.UpdateVolumeStatus` | mvirt-cplane/src/state.rs:2705-2738 | The same for volume status; a missing path keeps the known one |
| `ApiState.ApiState.ResizeVolume` | mvirt-cplane/src/state.rs:2740-2770 | The same for resizing, which refuses to shrink |
| `ApiState.ApiState.CreateSnapshot` | mvirt-cplane/src/state.rs:2772-2813 | The same for snapshots, refused when the name is taken on the volume |
| `ApiState.ApiState.CreateTemplate` | mvirt-cplane/src/state.rs:2818-2883 | The same for templates, pending with a source and ready without |
| `ApiState.ApiState.UpdateTemplateStatus` | mvirt-cplane/src/state.rs:2885-2916 | The same for template status |
| `ApiState.ApiState.ApplyStorage` | mvirt-cplane/src/state.rs:2574-2916 | All volume and template commands do what `Storage.Step` says |
| `ApiState.ApiState.CreateOrg` | mvirt-cplane/src/state.rs:1405-1435 | Organization creation does what `Tenancy.ApplyOrg` says |
| `ApiState.ApiState.UpdateOrg` | mvirt-cplane/src/state.rs:1437-1468 | The same for updates of the given fields |
| `ApiState.ApiState.CountProjects` | mvirt-cplane/src/state.rs:1481-1484 | The number of an organization's projects |
| `ApiState.ApiState.DeleteOrg` | mvirt-cplane/src/state.rs:1470-1500 | The same for deletion, refused while projects are left |
| `ApiState.ApiState.CreateProject` | mvirt-cplane/src/state.rs:1505-1547 | Project creation does what `Tenancy.ApplyProject` says |
| `ApiState.ApiState.DeleteProject` | mvirt-cplane/src/state.rs:1549-1563 | The same for deletion |
| `ApiState.ApiState.ApplyTenancy` | mvirt-cplane/src/state.rs:1405-1566 | The five spelled-out organization and project handlers together do what `Tenancy.Step` says, whose invariant is `Tenancy.StepKeepsSound` |
| `ApiState.ApiState.CreateToken` | mvirt-cplane/src/state.rs:1764-1867 | Token, placeholder node and cluster list are written as specified |
| `ApiState.ApiState.DeleteToken` | mvirt-cplane/src/state.rs:1869-1913 | Token withdrawal, with the placeholder's teardown |
| `ApiState.ApiState.FindRedeemable` | mvirt-cplane/src/state.rs:1927-2002 | The scan that stops at the first matching hash, and the ordered refusals 401, 401, 401, 410, 410, 503 |
| `ApiState.ApiState.RedeemToken` | mvirt-cplane/src/state.rs:1915-2053 | Redemption of that token |
| `ApiState.ApiState.DropTokens` | mvirt-cplane/src/state.rs:2087-2091 | The first decommission loop removes exactly the node's unredeemed tokens |
| `ApiState.ApiState.StripClusters` | mvirt-cplane/src/state.rs:2092-2100 | The second decommission loop removes the node from every cluster list and touches no other cluster |
| `ApiState.ApiState.RevokeCert` | mvirt-cplane/src/state.rs:2055-2111 | Revocation with both loops |
| `ApiState.ApiState.RegisterNode` | mvirt-cplane/src/state.rs:702-752 | Node registration does what `Fleet.ApplyNode` says: name taken, id known, new row |
| `ApiState.ApiState.UpdateNodeStatus` | mvirt-cplane/src/state.rs:754-788 | The same for heartbeats |
| `ApiState.ApiState.DeregisterNode` | mvirt-cplane/src/state.rs:790-809 | The same for deregistration, which touches no cluster |
| `ApiState.ApiState.CreateCluster` | mvirt-cplane/src/state.rs:1568-1613 | Cluster creation does what `Fleet.ApplyCluster` says |
| `ApiState.ApiState.UpdateCluster` | mvirt-cplane/src/state.rs:1615-1646 | The same for updates of the given fields |
| `ApiState.ApiState.DeleteCluster` | mvirt-cplane/src/state.rs:1648-1667 | The same for deletion |
| `ApiState.ApiState.AddNodeToCluster` | mvirt-cplane/src/state.rs:1669-1702 | Enlisting does what `Fleet.ApplyRoster` says and writes only if the node is new to the list |
| `ApiState.ApiState.RemoveNodeFromCluster` | mvirt-cplane/src/state.rs:1704-1729 | The same for removal |
| `ApiState.ApiState.EnsureCa` | mvirt-cplane/src/state.rs:1734-1741 | The first CA stays |
| `ApiState.ApiState.UpdateServerCert` | mvirt-cplane/src/state.rs:1743-1762 | The newest server certificate replaces the old one |
| `ApiState.ApiState.ApplyRegistry` | mvirt-cplane/src/state.rs:702-1762 | All node, cluster and certificate commands do what `Fleet.RegistryStep` says |
| `ApiState.ApiState.ApplyFleet` | mvirt-cplane/src/state.rs:1568-2111 | All node, cluster, token and certificate commands do what `Fleet.Step` says |
| `ApiState.ApiState.RefreshAccount` | mvirt-cplane/src/state.rs:2182-2197 | A returning user's row is rewritten only if email or name changed |
| `ApiState.ApiState.Login` | mvirt-cplane/src/state.rs:2165-2239 | The three ways of a login: known identity, invitation, new account |
| `ApiState.ApiState.DropKeys` | mvirt-cplane/src/state.rs:2475-2482 | The key cascade removes exactly the account's keys |
| `ApiState.ApiState.DropMemberships` | mvirt-cplane/src/state.rs:2483-2490 | The membership cascade removes exactly the account's memberships |
| `ApiState.ApiState.DeleteService` | mvirt-cplane/src/state.rs:2452-2494 | Service account deletion with both cascades |
| `ApiState.ApiState.Invite` | mvirt-cplane/src/state.rs:2116-2163 | Invitation by email does what `Identity.ApplyInvite` says |
| `ApiState.ApiState.CreateMembership` | mvirt-cplane/src/state.rs:2241-2320 | Grants do what `Identity.ApplyMembership` says: id, account, scope and duplicate are checked in this order |
| `ApiState.ApiState.DeleteMembership` | mvirt-cplane/src/state.rs:2322-2336 | The same for withdrawal |
| `ApiState.ApiState.Bootstrap` | mvirt-cplane/src/state.rs:2338-2372 | The first platform admin, and nothing if there is one |
| `ApiState.ApiState.CreateService` | mvirt-cplane/src/state.rs:2378-2450 | Service account and membership are written together |
| `ApiState.ApiState.CreateKey` | mvirt-cplane/src/state.rs:2496-2550 | API key creation, for service accounts only |
| `ApiState.ApiState.RevokeKey` | mvirt-cplane/src/state.rs:2552-2569 | Revoking twice keeps the first date |
| `ApiState.ApiState.ApplyIdentity` | mvirt-cplane/src/state.rs:2116-2569 | All account, membership and key commands do what `Identity.Step` says |
| `ApiState.ApiState.Apply` | mvirt-cplane/src/state.rs:692-3160 | The object computes the state machine: cache lookup, handler, cache update; and it keeps every invariant |
| `ApiState.ApiState.TakeSnapshot` | mvirt-cplane/src/state.rs:3162-3176 | Whoever installs the envelope gets this object's nine tables and nothing else, and a state with all invariants if this one has them |
| `ApiState.ApiState.Restore` | mvirt-cplane/src/state.rs:3178-3221 | Restoring clears everything, refills nine tables row by row and resets the cache; an envelope of a reachable state gives a state with all invariants |
| `ApiState.Refill` | mvirt-cplane/src/state.rs:106-121 | Copying rows one at a time, in any order, gives the table: into a snapshot and back |
| `Basics.Select` | mvirt-cplane/src/state.rs:154-166 | A filtered scan lists exactly the matching keys in ascending order |
| `Basics.Find` | mvirt-cplane/src/state.rs:1929-1934 | A scan that stops at a match finds the first matching key |
| `Basics.LeqStringIsDictionary` | mvirt-cplane/src/state.rs:1955-1955 | Texts, and so keys and timestamps, compare in dictionary order |
| `Basics.WithoutSplits` | mvirt-cplane/src/state.rs:1722-1722 | Removing an id from a list keeps the others in order |
| `Routing.UpdateKeepsConsistent` | mvirt-net/src/routing.rs:253-289 | Every update keeps the default set exactly when there is a table, and then naming one |
| `Routing.TablesIgnoreDefault` | mvirt-net/src/routing.rs:253-289 | The table map after an update does not depend on the default |
| `Routing.ChoiceFreeIff` | mvirt-net/src/routing.rs:194-200 | An update has one outcome if and only if it does not delete the default while two or more tables stay |
| `Routing.UpdateTwice` | mvirt-net/src/routing.rs:253-289 | An update that arrives twice in a row does nothing the second time |
| `RouteLaws.UpdateSetsRoute` | mvirt-net/src/routing.rs:253-289 | An update makes the routes it is about what it says: the target of an added route, none for a removed one and for the routes of a created or deleted table; every other route, the other address family included, stays |
| `RouteLaws.UpdateSetsTable` | mvirt-net/src/routing.rs:253-289 | Tables come by creation, under the given name, and go by deletion only |
| `RouteLaws.UpdateSetsDefault` | mvirt-net/src/routing.rs:163-200 | The default becomes the table that is set and exists, or the first one created, or one that is left when it is deleted; nothing else changes it |
| `RouteLaws.MutateSetsRoute` | mvirt-net/src/routing.rs:430-490 | The manager accepts every mutation but a route for a missing table, and an accepted one has the same meaning |
| `RouteLaws.ManagerHasLastWord` | mvirt-net/src/routing.rs:430-490 | After every run of the protocol, each route of the manager is what the last accepted update about it says, and absent if there is none |
| `RouteLaws.ReactorHasLastWord` | mvirt-net/src/routing.rs:253-289 | The same holds of every reactor that has drained its channel |
| `RouteLaws.DefaultStands` | mvirt-net/src/routing.rs:483-490 | A default that was set stands through every run that sets no other and does not delete the table |
| `RoutingProtocol.EncodingIsFaithful` | mvirt-net/src/routing.rs:405-427 | A reactor obeying the command made from an update does what the update does |
| `RoutingProtocol.RunsStayInStep` | mvirt-net/src/routing.rs:351-489 | In every reachable state of the protocol, delivering an open channel's pending messages to the reactor's copy, with whatever choices of a default, gives the manager's table map, also for reactors that registered late, whose sender is registered several times, and on both channel kinds; and its default, as long as it is settled |
| `RoutingProtocol.DrainedCopyIsCurrent` | mvirt-net/src/routing.rs:253-289 | A reactor with an empty channel has the manager's tables |
| `RoutingProtocol.SettleRepeated` | mvirt-net/src/routing.rs:376-403 | A reactor whose sender is held several times ends up as if it were held once |
| `RoutingDefaults.DefaultsAgreeIff` | mvirt-net/src/routing.rs:194-200 | The reactor of an open channel drains to the manager's default whatever choices its own hash maps make, if and only if the default is settled: since the reactor registered, or since the default was last set to an existing table or at most one table was left, the manager has not deleted its default with two or more tables left |
| `RoutingManager.RoutingTables.AddTable` | mvirt-net/src/routing.rs:163-169 | In place: insert, and become the default if there is none |
| `RoutingManager.RoutingTables.SetDefault` | mvirt-net/src/routing.rs:187-191 | In place: only an existing table becomes the default |
| `RoutingManager.RoutingTables.RemoveTable` | mvirt-net/src/routing.rs:194-200 | In place: remove, choose another default if needed, return what was removed |
| `RoutingManager.RoutingTables.Apply` | mvirt-net/src/routing.rs:253-289 | In place application of an update computes `ApplyUpdate` |
| `RoutingManager.RoutingTables.Do` | mvirt-net/src/reactor/mod.rs:717-784 | In place execution of a reactor command computes `Obey` |
| `RoutingManager.SendAll` | mvirt-net/src/routing.rs:376-403 | Every open channel gets the message as often as its sender is listed; closed channels are dropped, the order of the others kept |
| `RoutingManager.RoutingManager.RegisterReactor` | mvirt-net/src/routing.rs:351-355 | The new reactor gets a fresh copy equal to the current tables and its sender is last in the list, also if it is held already |
| `RoutingManager.RoutingManager.RegisterCommandChannel` | mvirt-net/src/routing.rs:364-367 | The same for a command channel |
| `RoutingManager.RoutingManager.Broadcast` | mvirt-net/src/routing.rs:376-403 | Both channel kinds get the update, each in its own form |
| `RoutingManager.RoutingManager.Mutate` | mvirt-net/src/routing.rs:430-489 | A mutation changes the tables and then sends the update on every channel held, in the form of its kind; a route for a missing table changes and sends nothing |
| `RoutingManager.Reactor.ReceiveOne` | mvirt-net/src/reactor/mod.rs:717-784 | The receive loop takes the oldest message off the channel and applies it to the local tables, or does nothing |
| `RoutingFabric.Fabric.constructor` | mvirt-net/src/routing.rs:341-347 | A manager without reactors is the start of the protocol |
| `RoutingFabric.Fabric.Join` | mvirt-net/src/routing.rs:351-367 | Registering a new reactor, as objects, is a step of the protocol |
| `RoutingFabric.Fabric.JoinAgain` | mvirt-net/src/routing.rs:351-367 | So is registering another clone of a sender |
| `RoutingFabric.Fabric.Mutate` | mvirt-net/src/routing.rs:430-489 | So is a mutation with its broadcast, for all reactors at once |
| `RoutingFabric.Fabric.Deliver` | mvirt-net/src/reactor/mod.rs:717-784 | So is a delivery, which touches one reactor only |
| `RoutingFabric.Fabric.Close` | mvirt-net/src/routing.rs:376-388 | So is the end of a reactor |
| `RoutingFabric.Fabric.InStepWithManager` | mvirt-net/src/routing.rs:253-289 | Hence every reachable heap of manager and reactor objects has the convergence property, and a reactor with an empty channel has the manager's tables |
| `LogTime.KeyOrderIff` | mvirt-log/src/storage.rs:92-95 | For all i64 timestamps, a later millisecond means a greater key if and only if the two are not on opposite sides of the epoch |
| `LogTime.KeyReadBack` | mvirt-log/src/storage.rs:92-95 | A key is read back as the 48 bits of the millisecond above the 80 random bits |
| `LogTime.InRangeIff` | mvirt-log/src/storage.rs:92-95 | For all bounds in order and all timestamps, a key lies in the range if and only if its millisecond lies in the truncated range and the bounds are on one side of the epoch |
| `LogTime.InRangeBits` | mvirt-log/src/storage.rs:92-95 | For all bounds, in whichever order, ranges compare the low 48 bits of the milliseconds |
| `LogTime.ExtrasAreClose` | mvirt-log/src/storage.rs:92-95 | What a range lets in besides is less than a millisecond outside; less than two where bound and timestamp lie on both sides of the epoch |
| `LogTime.EpochIsTwiceAsLong` | mvirt-log/src/storage.rs:92-93 | A timestamp almost two milliseconds before the start that the range lets in |
| `LogTime.NoneMissedIff` | mvirt-log/src/storage.rs:92-95 | For all i64 bounds in order, no timestamp between them is missed if and only if both are on one side of the epoch |
| `LogTime.StraddlingRangeIsEmpty` | mvirt-log/src/storage.rs:92-95 | A range from before the epoch to after it matches nothing at all |
| `LogStore.InsertKeepsIndexIff` | mvirt-log/src/storage.rs:64-80 | The object index stays exactly the pairs of the stored entries if and only if an insert does not overwrite an entry that names an object the new one does not |
| `LogStore.FreshBatchKeepsIndex` | mvirt-log/src/storage.rs:57-83 | A batch of fresh keys keeps the object index exact |
| `LogStore.IndexKeepsLeading` | mvirt-log/src/storage.rs:57-83 | Every index row leads to an entry, whatever is appended |
| `LogStore.InsertAllRows` | mvirt-log/src/storage.rs:57-83 | A batch of fresh keys stores each entry under its own key and changes no other row |
| `LogStore.AnswerIsExpected` | mvirt-log/src/storage.rs:85-130 | With an exact index, a query returns the first `limit` entries in key order whose key is in range and which name the object |
| `LogStore.AnswerIsFirstMatches` | mvirt-log/src/storage.rs:85-130 | An answer holds, one by one, the entries of the matching keys in ascending order, as many as the limit allows |
| `LogStore.QueriesAgreeWithScan` | mvirt-log/src/storage.rs:57-130 | After any list of batches, bad ones included, whose accepted keys are fresh, the object index is exact and every query equals the scan of the full log filtered by object and range |
| `LogStore.QueryMissesNothing` | mvirt-log/src/storage.rs:85-130 | Every entry stamped within two bounds on one side of the epoch that names the object is returned, as long as the limit leaves room for all that match |
| `LogStore.LogManager.AppendBatch` | mvirt-log/src/storage.rs:57-83 | The nested loops store the whole batch, or nothing if one id does not parse |
| `LogStore.LogManager.Collect` | mvirt-log/src/storage.rs:105-115 | The range loop with its early break returns the first `limit` rows that exist |
| `LogStore.LogManager.Query` | mvirt-log/src/storage.rs:85-130 | The query method returns `Answer` over the computed key range |
| `Batcher.FormBatch` | mvirt-log/src/batcher.rs:31-50 | One batch has at most 100 entries and is exactly the next entries of the channel; it ends when it is full, at the first timeout after it has begun, or when the channel closes, and is empty only then |
| `Batcher.StampBatch` | mvirt-log/src/batcher.rs:52-61 | Each entry keeps its content, and its timestamp if the sender set one, else gets the clock if it can be read; its id shows the millisecond and the random bits |
| `Batcher.RunLoop` | mvirt-log/src/batcher.rs:30-73 | Every batch has 1 to 100 entries, and entry i of their concatenation is the i-th received one with that timestamp and id: nothing lost, doubled or reordered |
| `Batcher.BatchesLikeOneByOne` | mvirt-log/src/batcher.rs:30-73 | Appending batches gives the tables of appending entries one at a time |
| `Batcher.TimingIsInvisible` | mvirt-log/src/batcher.rs:30-73 | Two timings of the same entries give the same three tables |
| `Batcher.ReceivedIsFound` | mvirt-log/src/batcher.rs:30-73 | Every received entry is found, as it was sent, by every query that covers the sender's time (or the clock's, if none was set) and object ids, given distinct keys and a sufficient limit |
| `Checksum.Fold` | mvirt-ebpf/src/proto_handler.rs:935-938 | The carry loop ends in 16 bits, keeps the value modulo 65535 and gives zero only for zero |
| `Checksum.FromTotal` | mvirt-ebpf/src/proto_handler.rs:940-941 | The stored value is never zero and makes the total a multiple of 65535 |
| `Checksum.TotalIsWordSum` | mvirt-ebpf/src/proto_handler.rs:915-933 | Up to 65535 bytes the code's sum is the sum a receiver makes over the pseudo-header of section 8.1 of RFC 8200 and the data |
| `Checksum.AddWords` | mvirt-ebpf/src/proto_handler.rs:925-933 | The word loop adds the 16-bit words, an odd last byte as the high half, and its 32-bit sum cannot overflow |
| `Checksum.Compute` | mvirt-ebpf/src/proto_handler.rs:911-942 | The whole computation, for either next header, without overflow |
| `Checksum.VerifiesIffChecksum` | mvirt-ebpf/src/proto_handler.rs:912-975 | Of the 16-bit values other than zero exactly the computed one, stored in the zeroed field, makes the receiver's one's-complement sum 0xffff, odd lengths included |
| `Checksum.Seal` | mvirt-ebpf/src/proto_handler.rs:1219-1224 | Clearing the field, computing and storing makes the packet verify and changes nothing else |
| `Checksum.EchoReply` | mvirt-ebpf/src/proto_handler.rs:1023-1037 | An echo request becomes a reply that verifies, with its payload unchanged |
| `Checksum.UdpDatagram` | mvirt-ebpf/src/proto_handler.rs:1216-1224 | A DHCPv6 answer with its ports, length and payload in place verifies |
| `BufferPool.RunsAreSound` | mvirt-net/src/virtqueue.rs:74-113 | Over every interleaving of pops and returns where each return gives back an id that is out of its own queue, available and outstanding ids partition [0, rx) and [rx, rx + tx) without repetition |
| `BufferPool.ReusedInOrder` | mvirt-net/src/virtqueue.rs:138-155 | Over every run of a queue, buffers go out in the order in which they came back |
| `BufferPool.PushKeepsPartitionIff` | mvirt-net/src/virtqueue.rs:153-155 | A return keeps the partition if and only if the id was out of that queue |
| `BufferPool.BuffersAreDisjoint` | mvirt-net/src/virtqueue.rs:138-151 | All buffers out at once occupy disjoint byte ranges inside the pool |
| `BufferPool.IndicesDistinctIff` | mvirt-net/src/virtqueue.rs:148-148 | The 16-bit registration indices tell buffers apart if and only if there are at most 65536 |
| `BufferPool.SimpleQueue.constructor` | mvirt-net/src/virtqueue.rs:74-113 | A new queue has all its ids available, in order |
| `BufferPool.SimpleQueue.PopAvailable` | mvirt-net/src/virtqueue.rs:138-151 | A pop hands out an id of the queue that nobody holds, with the byte offset, length and index of its buffer, or nothing if none is available |
| `BufferPool.SimpleQueue.PushUsed` | mvirt-net/src/virtqueue.rs:153-155 | A return appends the id and keeps the partition exactly when it was out |

## Left out

- Error texts: a response carries the status code only.
- Scans that only ask whether some row matches are quantifiers; scans that pick or list rows are loops.
- RFC 3339: timestamps are text compared by code point, as the source compares them; they are not parsed.
- Counter widths: `nic_count` and `clone_count` are naturals, not `u32`. A leaked group counter could in principle reach the width; network and clone counters are bounded by the number of rows.
- Foreign functions: lowercasing (assumed idempotent where a lemma says so), trimming, the MAC derived from an id, whether a CSR can be signed, and ULID text are parameters.
- The `pki` table is two optional values, since only its two fixed keys are ever used.
- redb, bincode, prost and Raft: tables are maps scanned in key order, a transaction is all or nothing, encoding loses nothing, and the command list is given.
- Replicas.ReplicasAgree: says nothing about the revocation list, which is keyed by random serials.
- Routing tables: the prefix trie of one table is a plain map from prefix to target, so longest-prefix lookup is not modelled.
- RoutingManager.RoutingManager.Mutate: the five mutators of the manager are one method that takes the update; both channel kinds are one class whose messages carry an update or a command.
- Checksum.Compute: the ICMPv6 and UDP functions are one method with the next header as a parameter; bit operations are written as division and remainder. The packets around the checksum are not modelled.
- BufferPool: receive and transmit queues are one class with the first id as a parameter; the pool's size test uses unbounded integers.
- Batcher.RunLoop: the channel is a given list of arrivals and timeouts that ends when the channel closes; a failed append is not modelled, since the loop only logs it.
- The component index of the log store is written but never read, so nothing is claimed about it.
- Read-only accessors of the state object, the scheduler, certificate generation, authentication, the reactor's packet path, vhost-user, TUN, the eBPF loader, the VM monitor, the CLI and the web UI.
