# A verified model of WireDraft

WireDraft plans racks, cabling and VLANs in a browser and keeps the plans on one
server. This project models the parts of it that are algorithms or state
machines, in Dafny, and proves what they promise. `dafny verify dfyconfig.toml`
checks the whole project.

**Spanning-tree simulation** (`Stp*.dfy`, `BreadthFirst.dfy`, `SearchOrder.dfy`). For each VLAN the
switches and switch systems become logical bridges, the links become logical
edges (link groups bundled), connectivity splits the edges into domains, and in
each domain a root is elected, a breadth-first search runs, and roles and paths
follow from its tree. This simplifies clause 17 of IEEE 802.1D-2004: cost is the
number of hops. The loops are methods proved against a specification that sees
only the sets of devices and links, which is why the report cannot depend on
storage order. About the specification it is proved that the unblocked edges
form a spanning tree, that distances are least, that domains partition the
bridges, and that loops and path budgets are reported exactly. The `*Facts.dfy`,
`StpEdgeNames.dfy` and `StpSearchOrder.dfy` say in the topology's own terms what
each bridge, edge, port and path of the report is.

**Path tracing** (`Routes.dfy`, `TracePath.dfy`, `TraceMeaning.dfy`). The early-exit search returns a
shortest simple route under the server rules, and fails exactly when there is no
route.

**Topology mutations** (`Validation.dfy`, `Validate.dfy`, `Draft.dfy`,
`Repatch*.dfy`, `Link*.dfy`, `Configuration*.dfy`, `PortIndices.dfy`,
`Normalize*.dfy`, `Cascade*.dfy`, `Stored*.dfy`). A `Draft` is the topology whose slices a
request reassigns. Validation is one declarative invariant and the loops that
decide it; repatching, configuring, deleting and normalizing are methods on the
draft, and theorems say what they keep of the invariant. `*Meaning.dfy` and
`CascadeFates.dfy` state, field by field and without the specification functions,
what each mutation does and when it is refused.

**JSON store** (`Revisions.dfy`, `JsonStore.dfy`). A class with the maps in memory
and the files on disk. Every write may fail: what the disk says is an input, so
that each answer has an exact condition. The invariant holds after every
operation, and a ghost log of commits carries the theorem about revisions.

**Authentication** (`Accounts.dfy`, `AccountChanges.dfy`, `AuthEvents.dfy`,
`AuthInvariants.dfy`, `SecondFactor.dfy`, `Totp.dfy`, `Catalog.dfy`,
`AuthManager.dfy`). The manager is a class; an operation that gives up its lock in
the middle is two methods. Every method keeps `Sound` from any sound state, so in
every interleaving each session, challenge, step, code and failure record is as
the accounts and the past say. `Valid`, what loading demands of the accounts file,
is kept by every method but two, whose contracts say exactly when; `Orderly`, which
adds that no bound tenant has a bar in it and no blank surrounds the guest
organization, is kept by all, given that identities come from tenants without a
bar. Whether the accounts file can be written is an input. A ghost log of challenges, steps and recovery codes, and another of
second-factor attempts, carry the theorems over runs.

**Cable lanes** (`Lengths.dfy`, `CorridorLanes.dfy`, `RearCorridors.dfy`). Lane
registries over incremental replans, and the nested layout of rear corridors,
channels and strands, over real numbers.

## Where the code does less than it promises

Each of these has a concrete input in the project and the exact condition under
which the code does meet the property.

- Deleting from a topology that is valid but was never normalized can end in an
  invalid topology: normalizing moves a legacy patch range to the rear, where
  another cable may sit (`CascadeNormal.ValidIsNotEnough`,
  `CascadeNormal.DeletionValidIff`). What a store holds is normalized, and then
  deletion is safe.
- One expected revision can commit twice after its topology is deleted and
  created again, or when the revision wraps around. Both can follow any run
  (`Revisions.DeletionCommitsAgain`, `Revisions.WrapCommitsAgain`), and without a
  deletion it takes exactly a multiple of 2^64-1 commits
  (`Revisions.SecondCommitIff`).
- The key under which a bound identity must be unique joins tenant and object by
  a bar, so that different identities can clash: a binding is then made that
  the persisted state's validation refuses (`AccountChanges.AmbiguousKey`,
  `AccountChanges.BindValidIff`). The sign-in flow admits one configured tenant
  (internal/auth/entra.go:195); when that has no bar in it the clash cannot happen
  (`AccountChanges.BoundOrderly`).
- A persisted guest organization with blanks around it counts as registered, but
  is not cleared when the organization is removed
  (`AccountChanges.BlankGuestStays`, `AccountChanges.RemovalValidIff`).

## Assumptions

Identifiers of different kinds differ where the code mixes them (devices with
switch systems, links with link groups); validation checks each kind separately.
Fresh random tokens and identifiers are new. Time is a parameter of each step.
Strings are compared character by character; trimming and changing case are
those of ASCII text. Where the code joins two identifiers into one map key the
model uses the pair, except for bridge pairs and identity keys, where the joining
matters.

## Model

| member | source | states |
|---|---|---|
| StpAnalysis.SimulateStp | internal/model/stp.go:121-168 | The whole simulation returns the instances that are stated as a function of the sets of devices and links: every VLAN, its domains with edges, then the bridges without |
| StpAnalysis.SimulationIgnoresOrder | internal/model/stp.go:121-168 | Storing devices and links in any other order changes nothing in the report: domains, roots, roles, paths and port order |
| StpReport.ReportHasOrigin | internal/model/stp.go:121-168 | Every instance reported is the simulation of one domain of one VLAN of the topology, and carries its number |
| StpReport.ReportIsComplete | internal/model/stp.go:126-167 | Every domain of every VLAN is reported, and only once |
| StpReport.LoopReport | internal/model/analyzer.go:84-107 | On the report of a whole topology: a loop for exactly the domains with at least as many logical edges as bridges, with exactly the links outside the spanning tree, sorted |
| StpReport.ReportWithinBudget | internal/model/stp.go:97-104 | All convergence paths of one report, in domains with edges, together hold at most 200000 identifiers |
| StpBridgeFacts.ReportInOrder | internal/model/stp.go:161-166 | The report is in the order of the VLANs and, for one VLAN, of the domains |
| StpBridgeFacts.LoneTold | internal/model/stp.go:140-159 | A bridge without edges is its own root, with no ports and a path of itself; its members are told if the budget covers them |
| StpBridges.LogicalBridges | internal/model/stp.go:188-228 | The two loops give every switch its bridge and every bridge its record, as functions of the set of devices; no two bridges share an identifier |
| StpBridges.SystemMembers | internal/model/stp.go:188-228 | A switch system becomes one bridge with its member switches, sorted, and the least of their priorities |
| StpBridgeFacts.BridgeOfSwitch | internal/model/stp.go:188-228 | A switch belongs to the bridge of its system, or to its own; no other device belongs to one |
| StpBridgeFacts.SystemRecord | internal/model/stp.go:195-210 | A system's bridge has the system's name, exactly its switches, ascending, and the least of their priorities, where zero stands for 32768 and 61440 is the most |
| StpBridgeFacts.LoneRecord | internal/model/stp.go:211-226 | A switch in no system is a bridge of its own, under its host name if it has one and its name otherwise |
| StpBridgeFacts.NoOtherBridge | internal/model/stp.go:188-228 | There are no other bridges |
| StpAnalysis.ActiveIds | internal/model/stp.go:170-186 | Finds exactly the bridges of devices that have a port carrying the VLAN |
| StpEdges.CollectEdges | internal/model/stp.go:259-322 | The edge loop lists, without repeats, one edge for each eligible ungrouped link and one for each pair of bridges a group joins |
| StpEdges.BundleGroup | internal/model/stp.go:284-318 | The members of a link group become one edge for each pair of bridges, numbered by the order of the pairs when there are several; a failover group only its primary link |
| StpEdges.EdgesGrow | internal/model/stp.go:259-322 | Meeting one more link adds its own edge, or its group's edges when no link of the group was met before, and nothing otherwise |
| StpEdgeFacts.EdgeIdsDiffer | internal/model/stp.go:259-322 | In a topology that passed validation no two logical edges share an identifier |
| StpEdgeFacts.LinkInOneEdge | internal/model/stp.go:259-322 | No physical link is in two logical edges |
| StpLinkFacts.LinkHasEdge | internal/model/stp.go:261-296 | A link is part of an edge exactly when it and its two ports carry the VLAN, it joins two bridges, and no other link of a failover group stands in for it |
| StpLinkFacts.LinksShareEdge | internal/model/stp.go:292-318 | Two links share an edge exactly when they are of one group and join the same two bridges |
| StpEdgeNames.EdgeNamed | internal/model/stp.go:275-318 | An edge is named after its link or its group; where a group joins several pairs of bridges, with the place of its pair among theirs |
| StpEdgeNames.LinksInGroupOrder | internal/model/stp.go:288-306 | An edge of a group holds its links in the order of the group's members, a failover group's only the primary one |
| StpComponents.SplitEdges | internal/model/stp.go:324-369 | The search splits the edges into the domains given by connectivity, in the order of their least bridges |
| StpComponents.SearchDomain | internal/model/stp.go:341-367 | One search visits exactly the bridges a path reaches and collects exactly their edges |
| StpDomains.DomainsPartitionEdges | internal/model/stp.go:324-369 | Every edge is in a domain, and two edges are in the same one exactly when a path joins them |
| StpDomains.DomainsPartitionBridges | internal/model/stp.go:324-369 | No bridge is in two domains, every bridge with an edge is in one, and the domains come in the order of their least bridges |
| StpDomains.ComponentIsDomain | internal/model/stp.go:324-369 | Each domain is connected by its own edges alone |
| StpCoverage.ActiveBridgesOnce | internal/model/stp.go:126-167 | For each VLAN, a bridge is reported in some domain exactly when it has a port carrying the VLAN, and never in two |
| StpSimulation.VlanNumbered | internal/model/stp.go:130-159 | The domains of a VLAN are numbered from 1 without gaps |
| StpSearch.Converge | internal/model/stp.go:394-414 | The queue loop over the sorted neighbours computes the breadth-first search that the theorems are about |
| BreadthFirst.SearchFindsDistances | internal/model/stp.go:394-414 | The breadth-first search visits exactly the nodes a walk reaches and records for each the length of a shortest walk |
| StpSearch.ConvergedTree | internal/model/stp.go:371-442 | The search reaches the whole domain as a tree, and its distances are the least numbers of hops from the root |
| StpSearch.FirstIsElected | internal/model/stp.go:380-385 | The first bridge in election order is the one with the lowest priority and, among those, the lowest identifier |
| StpBridgeFacts.ElectedIff | internal/model/stp.go:380-385 | The elected root is the one whose priority is less than every other's, or equal with a lesser identifier |
| SearchOrder.SearchFindsInOrder | internal/model/stp.go:394-414 | The search finds nodes in the order of their distance and, at one distance, in the order in which their parents were found and list them; each has the earliest parent and the first arc from it |
| StpSearchOrder.TreeInSearchOrder | internal/model/stp.go:386-414 | In the simulation the whole tree is decided: a bridge hangs from the neighbour found first among those one hop nearer, by the edge with the least identifier between them |
| StpTree.RolesOfEdge | internal/model/stp.go:468-483 | Every edge has exactly one designated end; the other is a root end when the edge is in the tree and blocked when it is not; the root bridge is designated everywhere |
| StpPortFacts.NearerEndDesignated | internal/model/stp.go:468-501 | The designated end is the one nearer to the root and, at equal distance, the one elected before the other |
| StpTree.TreeIsSpanning | internal/model/stp.go:371-483 | The tree edges connect all bridges of the domain, contain no cycle and number one less than the bridges |
| StpTree.NoCycle | internal/model/stp.go:371-483 | No closed walk along distinct bridges and distinct tree edges exists |
| StpComponentSimulation.SimulateComponent | internal/model/stp.go:371-459 | The whole method for one domain, with its queue, maps, sorts and budget, returns the instance the theorems below are about |
| StpComponentSimulation.ReportPorts | internal/model/stp.go:443-457 | Two port states for each physical link, without repeats, sorted by link and port |
| StpPortFacts.PortsAreLinkEnds | internal/model/stp.go:443-501 | The ports reported are the two ends of every link of the domain, each with its port, device, link, group, own and opposite bridge and role, in the order of links and ports |
| StpPortFacts.RootPortsReported | internal/model/stp.go:416-428 | A bridge's root ports are exactly the ports reported at that bridge with the root role, ascending; the root bridge has none |
| StpTheorems.LinkRoles | internal/model/stp.go:443-501 | The two ends of a physical link are reported with the two bridges of its edge, exactly one of them designated, forwarding exactly when not blocked, and only designated ports on the root bridge |
| StpTheorems.ForwardingEdgesSpan | internal/model/stp.go:371-483 | The logical edges with no blocked end form a spanning tree of the domain: connected, acyclic, bridges minus one |
| StpTheorems.OneRootEnd | internal/model/stp.go:468-483 | Every bridge but the root is the root end of exactly one edge |
| StpTheorems.BridgeStates | internal/model/stp.go:415-442 | One state for each bridge of the domain in election order; the root is the elected bridge, and each root path cost is the true least hop distance |
| StpReportFacts.BridgesTold | internal/model/stp.go:415-441 | Each state tells the name and priority of its bridge, and its members exactly when what earlier bridges left of the budget covers them; the instance is flagged exactly when some were left out |
| StpReportFacts.PathsListed | internal/model/stp.go:415-441 | The paths are those of the first bridges in election order, each along forwarding edges to the root, with the links of those edges |
| StpTheorems.PathsWithinBudget | internal/model/stp.go:415-442 | Every emitted path leads along the tree from its bridge to the root, has cost plus one bridges and the links of the edges on the way in order; emitted and remaining identifiers never exceed the budget, and a path is missing only when nothing is left |
| StpPaths.BuildPath | internal/model/stp.go:506-533 | Charging identifiers one by one emits the full path when the budget covers it, and otherwise nothing and uses the budget up |
| StpPaths.PathFollowsTree | internal/model/stp.go:506-533 | The bridges of a path are joined one to the next by tree edges, from the bridge to the root |
| StpCoverage.AnalysisWithinBudget | internal/model/stp.go:97-159 | Over all VLANs, the identifiers in paths of domains with edges and what is left never exceed the budget |
| StpBudget.PathsUntilSpent | internal/model/stp.go:437-441 | A path is left out only when the budget does not cover it: the first one missing would take more than the paths before it left, and what is not emitted is left when none is missing |
| StpBudget.ReportInTurn | internal/model/stp.go:124-159 | The instances are simulated VLAN by VLAN in the topology's order and domain by domain, the first on full budgets of 200000 and each next on what the one before left |
| StpLoops.LoopsFromSTP | internal/model/analyzer.go:84-107 | The loop over the instances reports a loop for exactly those with a blocked port |
| StpBridgeFacts.LoopNames | internal/model/analyzer.go:84-107 | A loop names the devices of the domain's bridges and the links with a blocked end, each once and ascending |
| StpLoops.BlockedLinksAreRedundant | internal/model/analyzer.go:84-107 | The links with a blocked end are exactly the links of the edges outside the tree |
| StpLoops.LoopIffEdgesCoverBridges | internal/model/analyzer.go:84-107 | A domain is reported as a loop exactly when it has at least as many logical edges as bridges |
| Ports.BuildPortTable | internal/model/analyzer.go:40-47 | The port table finds every port under its identifier, whatever the order of the devices |
| TracePath.TracePath | internal/model/analyzer.go:296-390 | The whole trace: the error for a missing port, for an endpoint that drops the VLAN and for two ports of one server; otherwise the links of a shortest simple route, or the no-path error exactly when there is no route |
| TracePath.SearchRoute | internal/model/analyzer.go:331-389 | Between two devices: a shortest route, simple, over links that carry the VLAN at both ports, through no server and by the given port at a server, or the error when none exists |
| TracePath.StopsAtShortest | internal/model/analyzer.go:363-388 | Stopping at the first hop to the target, in the middle of the search, already yields a shortest and simple route |
| TracePath.NoPathAnswers | internal/model/analyzer.go:361-389 | When the queue runs empty without meeting the target no route exists at all |
| TracePath.Rebuild | internal/model/analyzer.go:348-360 | Following the arrival records back and reversing them gives the links of the route in order |
| TraceMeaning.HopIs | internal/model/analyzer.go:331-345 | The hops of a trace are the cables of the topology, in either direction, both ports of which carry the VLAN; each names its cable, ports and devices |
| TraceMeaning.ServerIs | internal/model/analyzer.go:297-304 | The devices held for servers are those of that category |
| TraceMeaning.PortFound | internal/model/analyzer.go:297-304 | The ports a trace looks up are exactly the topology's |
| Routes.RouteBack | internal/model/analyzer.go:296-390 | A route followed the other way is a route between the ports exchanged, under the same server rules |
| Routes.SameLengthBack | internal/model/analyzer.go:296-390 | Tracing there and back gives routes of the same length |
| Validate.ValidateTopology | internal/model/validation.go:101-410 | The loops that fill sets and maps as they go accept exactly the topologies that satisfy the declarative invariant: identities, references, occupancy, membership |
| Validate.CheckDevices | internal/model/validation.go:178-238 | Accepts exactly when device and port identifiers differ, ports are well-formed, every mounted device fits its rack and no two overlap on the same rails |
| Validate.CheckLinks | internal/model/validation.go:280-327 | Accepts exactly when link identifiers differ, each (port, side) ends at most one link, references exist and links of one rear channel agree |
| Validate.CheckGroups | internal/model/validation.go:329-346 | Accepts exactly when groups are well-formed, name existing links and share none |
| Validation.ValidIsStpReady | internal/model/validation.go:101-410 | What the simulation takes for granted holds of every valid topology whose identifiers of different kinds differ |
| Validation.OverlapIff | internal/model/validation.go:210-227 | Two devices are in each other's way exactly when both fill a unit of one face of one rack |
| Repatch.ApplyLinkRepatch | internal/handler/link_repatch.go:43-90 | The request changes the topology exactly as the move or the swap it asks for, and not at all when it is refused |
| RepatchMeaning.RepatchRefused | internal/handler/link_repatch.go:48-81 | Each refusal of a request for a known cable by its exact condition: the port is at the cable already, does not exist, is occupied by a cable other than the one named, or is no longer occupied |
| RepatchMeaning.UnknownCable | internal/handler/link_repatch.go:43-50 | The cable is not found exactly when no link has the identifier |
| RepatchMeaning.RepatchMoves | internal/handler/link_repatch.go:43-90 | Afterwards the chosen end is at the port asked for, the end of the cable it displaced is where that one was, and every other end, cable and field is unchanged |
| RepatchTheorems.RepatchKeepsSeats | internal/handler/link_repatch.go:43-90 | On a valid topology a successful repatch keeps at most one link on each (port, side) and two different ports on each link; a move frees one termination and takes one, a swap keeps the set of occupied terminations |
| RepatchTheorems.MoveFreesOne | internal/handler/link_repatch.go:79-87 | A move frees the termination the end came from and takes the one it goes to |
| RepatchTheorems.SwapKeepsUse | internal/handler/link_repatch.go:65-83 | A swap leaves exactly the same terminations in use |
| RepatchTheorems.SwapBackRestores | internal/handler/link_repatch.go:43-90 | Asking for the opposite swap succeeds and restores the original topology |
| RepatchTheorems.MoveBackRestores | internal/handler/link_repatch.go:43-90 | Moving the end back succeeds and restores the links |
| RepatchTheorems.MoveSetsStatus | internal/handler/link_repatch.go:79-87 | A move on the front sets the new port up and the port left behind down, and no other port changes; a move in the rear changes no port |
| LinkConfiguration.ApplyLinkConfiguration | internal/handler/server.go:820-921 | A successful request writes the configuration into exactly the links of the scope and their ports; a refused one changes nothing |
| ConfigurationMeaning.ConfigurationWrites | internal/handler/server.go:836-919 | Every port of the scope gets the mode, the native VLAN and the tagged VLANs, every link of it the native VLAN as its primary and first one, the tagged ones after it, and the cable type if one was given; nothing else changes |
| ConfigurationMeaning.TaggedListed | internal/handler/server.go:836-846 | A VLAN is tagged exactly when it is allowed and not the native one, in any mode but access; the list ascends |
| ConfigurationMeaning.ConfigurationRefused | internal/handler/server.go:820-868 | The exact condition of each refusal on a valid topology; missing members or ports do not occur |
| LinkIssues.AnalyzeLinks | internal/model/analyzer.go:48-75 | The findings on native VLANs and on tagged VLANs the peer drops, link by link |
| LinkIssues.AnalyzeGroups | internal/model/analyzer.go:123-169 | The findings on trunk and failover groups whose members carry different VLANs |
| LinkIssues.FindingsAre | internal/model/analyzer.go:48-75 | A native finding on a link is drawn exactly when both ports have a native VLAN and these differ, and one on a tagged VLAN of a port exactly when the other port does not carry it |
| LinkIssues.GroupFindingsAre | internal/model/analyzer.go:123-169 | A trunk or failover group has a finding exactly when two members carry different VLANs |
| ConfigurationTheorems.ConfiguredLinksAgree | internal/handler/server.go:820-921 | After a successful configuration of a valid topology the analyzer finds no native mismatch and no dropped VLAN on any link of the scope |
| ConfigurationTheorems.ConfiguredGroupAgrees | internal/handler/server.go:820-921 | And no VLAN mismatch in the configured link's trunk or failover group |
| StoredConfiguration.StoredLinksAgree | internal/handler/server.go:820-921 | The same of the topology as it is stored, normalized |
| StoredConfiguration.StoredGroupAgrees | internal/handler/server.go:820-921 | And of the stored group |
| StoredConfiguration.NormalLinkFindings | internal/model/analyzer.go:48-75 | For any valid topology, normalizing makes no native or tagged VLAN finding on a cable appear or disappear |
| ConfigurationTheorems.ConfigurationStaysValid | internal/handler/server.go:820-921 | A successful configuration keeps a valid topology valid |
| ConfigurationTheorems.OutsideScopeUnchanged | internal/handler/server.go:820-921 | Links outside the scope, and ports no link of the scope ends at, are unchanged |
| Draft.Draft.DeactivateUnlinkedEndpointPorts | internal/handler/server.go:1022-1049 | Exactly the front ports of the removed link that no remaining link ends at are switched off |
| Cascade.DeleteDevice | internal/handler/server.go:637-665 | The device and the links at it go, then groups, systems, clusters and attached references are pruned; an unknown device changes nothing |
| Cascade.DeleteRack | internal/handler/server.go:554-584 | The rack goes, its devices are unmounted into its room, and references to it are pruned |
| Cascade.DeleteLink | internal/handler/server.go:999-1020 | The link goes, ports it leaves bare are switched off, and groups and references are pruned |
| Cascade.PruneLinkGroups | internal/handler/server.go:2035-2057 | Groups keep their surviving links; those left with fewer than two go; a failover group that lost its primary link gets its first survivor |
| Cascade.PruneSwitchSystems | internal/handler/server.go:2059-2078 | Systems keep their surviving members; those left with fewer than two go |
| Cascade.PruneFirewallClusters | internal/handler/server.go:2080-2103 | Clusters keep their surviving members; those left with fewer than two go; a lost active member is replaced by the first survivor |
| Cascade.PruneAttachedPlanReferences | internal/handler/server.go:2105-2181 | Exactly the comment threads, documents and photos whose target still exists are kept, in order |
| CascadeTheorems.PruningRepairs | internal/handler/server.go:2035-2181 | Whatever racks, devices and links were taken out, the four prunes make the rest valid again |
| CascadeTheorems.DeleteDeviceStaysValid | internal/handler/server.go:637-665 | Deleting a device from a valid topology gives a valid one, without the device and with exactly the links not at it |
| CascadeTheorems.DeleteRackStaysValid | internal/handler/server.go:554-584 | Deleting a rack from a valid topology gives a valid one without the rack |
| CascadeTheorems.DeleteLinkStaysValid | internal/handler/server.go:999-1020 | Deleting a link from a valid topology gives a valid one without the link |
| CascadeTheorems.GroupFate | internal/handler/server.go:2035-2057 | A group survives exactly when two of its links do, with just those in order, and its primary link changes only when it was lost |
| CascadeFates.DeviceDeleted | internal/handler/server.go:637-665 | Field by field, what a valid topology is after a device was deleted: the other devices and links as they were, groups, systems and clusters with their survivors in order, and exactly the threads, documents and photos whose target is still there, in order |
| CascadeFates.RackDeleted | internal/handler/server.go:554-584 | The same for a rack; its devices are unmounted into its room, and nothing else about them changes |
| CascadeFates.LinkDeleted | internal/handler/server.go:999-1020 | The same for a link; exactly the front ports it leaves without a cable are set down |
| CascadeFates.PruningFollows | internal/handler/server.go:2035-2181 | What the four prunes keep, whatever racks, devices and links were taken out of a valid topology |
| Normalize.Normalize | internal/model/model.go:529-658 | The in-place loops compute the normal form: port order and indices, sorted members and VLANs, trimmed channels, legacy patch ranges moved to the rear |
| NormalizeMeaning.NormalDeviceIs | internal/model/model.go:585-608 | A device keeps all but its ports and its face: none without a rack, and the front where none was said |
| NormalizeMeaning.NormalPortIs | internal/model/model.go:504-607 | A port keeps all but its list of VLANs, put in order without repeats, and its index, which changes exactly where it is not positive or an earlier port has it, to the least number no port had and no earlier one was given |
| NormalizeMeaning.NormalLinkIs | internal/model/model.go:609-633 | A cable keeps all but the blanks around its rear channel, the order of its VLANs, and its planes, which both become the rear exactly for an old patch range between two panels |
| NormalizeMeaning.NormalMembersAre | internal/model/model.go:634-657 | Groups, systems and clusters keep their members, each once and ascending, and everything else |
| PortIndices.NormalizePortIndices | internal/model/model.go:504-526 | The two loops give every port that repeats or lacks an index the least unused one, and leave the others |
| PortIndices.ReindexedDistinct | internal/model/model.go:504-526 | Afterwards all indices are positive and different |
| PortIndices.ReindexedSame | internal/model/model.go:504-526 | Ports that are already numbered stay as they are |
| NormalizeFacts.NormalTwice | internal/model/model.go:529-658 | Normalizing a normalized topology changes nothing |
| NormalizeFacts.NormalValidIff | internal/model/model.go:529-658 | Normalizing a valid topology gives a valid one exactly when no legacy cable it moves to the rear ends where another rear cable already does |
| CascadeNormal.DeleteDeviceStored | internal/handler/server.go:637-665 | From a valid and normalized topology, deleting a device gives a valid and normalized one |
| CascadeNormal.DeleteRackStored | internal/handler/server.go:554-584 | The same for a rack |
| CascadeNormal.DeleteLinkStored | internal/handler/server.go:999-1020 | The same for a link |
| StoredDeletions.DeletionAccepted | internal/store/json.go:443-492 | Deleting a device, rack or link from any topology a sound store holds is accepted with the next revision exactly when the result fits the size limit, and is stored as it is |
| CascadeNormal.DeletionValidIff | internal/model/model.go:609-628 | From a topology that is only valid, the normalized result of a deletion is valid exactly when no remaining legacy cable moves onto a rear cable |
| CascadeNormal.ValidIsNotEnough | internal/model/model.go:609-628 | A valid topology from which deleting an unrelated device, followed by normalizing, gives an invalid one |
| JsonStore.JsonStore.Create | internal/store/json.go:353-385 | Invalid, a conflict, a failed write or success, each exactly on its condition, the last two by whether the disk takes the file; a success is in memory and on disk, a failure changes neither |
| JsonStore.JsonStore.MutateAtRevision | internal/store/json.go:443-492 | Refused exactly as an unknown topology, on another expected revision, by the mutation or as invalid; otherwise one write is tried, and exactly when the disk takes it the next revision and the organization's current name are committed |
| JsonStore.JsonStore.DeleteAtRevision | internal/store/json.go:394-430 | Refused exactly as unknown, on another expected revision or by the authorization; otherwise gone from memory and disk exactly when the disk removes the file, and else nothing changes |
| JsonStore.JsonStore.CreateOrganization | internal/store/json.go:177-203 | Registers the trimmed name when no other organization has it but for case; otherwise nothing changes |
| JsonStore.JsonStore.RenameOrganization | internal/store/json.go:206-264 | Refused exactly for its name or organization; otherwise succeeds exactly when the disk takes all writes, in memory and on disk; at the first write it refuses, those before are written back, and the new name is left in exactly the files whose restoring write failed |
| JsonStore.JsonStore.RestoreTopologyFiles | internal/store/json.go:657-665 | Every file is tried once; exactly those are reported whose write fails, and every other one is written back |
| JsonStore.RefusedIff | internal/store/json.go:657-665 | A file is reported as not restored exactly when its own restoring write failed |
| JsonStore.AllRestored | internal/store/json.go:246-256 | After a failed rename every file is restored exactly when every restoring write succeeded |
| JsonStore.JsonStore.DeleteOrganization | internal/store/json.go:267-300 | Removes an organization exactly when it is registered, not the default one and owns no topology, unless the write fails |
| JsonStore.FailedRenameAgrees | internal/store/json.go:206-264 | After a failed rename memory and disk agree exactly when every file was written back or the name was the old one |
| JsonStore.RenameKeepsNames | internal/store/json.go:235-262 | After a rename every topology still carries its organization's current name |
| Revisions.OneCommitPerRevision | internal/store/json.go:443-492 | In any run two requests that expect the same nonzero revision of a topology do not both commit, unless it was deleted in between or committed to a multiple of 2^64-1 times (section 13.1.1 of RFC 9110) |
| Revisions.RevisionCounts | internal/store/json.go:476-478 | Until a topology is deleted, its revision is the one it had, advanced by the number of its commits, counting from 1 around the largest 64-bit value |
| Revisions.SecondCommitIff | internal/store/json.go:443-492 | After a commit that expected a revision and before a deletion, another with the same expectation is possible exactly when the commits from the first one on are a multiple of 2^64-1 |
| Revisions.WrapCommitsAgain | internal/store/json.go:443-492 | Any run can go on, without a deletion, so that a revision that can commit now commits twice: after 2^64-1 commits |
| Revisions.DeletionCommitsAgain | internal/store/json.go:443-492 | Any run with a commit that expected a revision can go on with a deletion, a creation and a second commit that expects it |
| Revisions.RevisionGrows | internal/store/json.go:476-478 | Until a topology is deleted or its revision wraps, its revision never falls |
| Revisions.NextRevision | internal/store/json.go:476-478 | A commit raises the revision by exactly one, except from the largest 64-bit value, where it starts again at one |
| AuthManager.Manager.constructor | internal/auth/manager.go:175-200 | On any state that loading has validated the manager starts sound and valid, with no sessions and no challenges |
| AuthManager.Manager.FinishLogin | internal/auth/manager.go:393-423 | A challenge is issued exactly when the password matched and the account, looked up again, still is there, enabled and has the same hash; it asks for set-up exactly when the account has no authenticator |
| AuthManager.Manager.LookUpLogin | internal/auth/manager.go:352-392 | Finds the account with the normalized name, or none when there is none |
| AuthManager.Manager.ReserveTotp | internal/auth/manager.go:514-536 | Refused exactly for a challenge that is not live, has no tries left or does not fit its account, or while the account is locked out; otherwise counted before the code is checked, and the account's own secret and last step are handed out |
| AuthManager.Manager.FinishTotp | internal/auth/manager.go:545-561 | After any interleaving: opens a session, spends the challenge, clears the failures and records the step exactly when the challenge still lives, the step is later than the last one used and the disk takes the account; otherwise says which failed, and nothing but a dead challenge goes |
| AuthManager.Manager.ReserveSetup | internal/auth/manager.go:432-449 | The same for a set-up challenge of an account without an authenticator, whose secret is handed out |
| AuthManager.Manager.FinishSetup | internal/auth/manager.go:465-484 | Stores the secret sealed for its account with its step and recovery codes, clears the failures and opens a session, exactly when the challenge still lives with that secret, the account has none yet and the disk takes the account |
| AuthManager.Manager.CompleteRecovery | internal/auth/manager.go:487-512 | Each answer by its exact condition. Once the challenge is open and the account not locked out, the attempt counts for both, whatever the code is; a session opens only by a code that matches a stored hash, and just that hash is removed |
| AuthManager.Manager.ReserveSecondFactor | internal/auth/manager.go:975-995 | A verification is admitted exactly when the account is not locked out, and is counted for the account and for the challenge; the failure record stays what the attempts since the last success come to |
| AuthManager.Manager.ChallengeUser | internal/auth/manager.go:948-954 | A challenge that has been verified five times, or no longer lives, is removed |
| AuthManager.Manager.OpenSession | internal/auth/manager.go:997-1018 | A session of an enabled account carries the access of its record |
| AuthManager.Manager.NewGuestSession | internal/auth/manager.go:565-596 | Refused exactly when guests are not enabled, the client is over its budget, or there are as many guests as allowed, not counting those whose time is up unless they were looked for less than a second ago; otherwise the session sees only the guest organization |
| AuthManager.Manager.LookUpSession | internal/auth/manager.go:599-611 | Finds exactly the stored sessions that have not expired |
| AuthManager.Manager.Logout | internal/auth/manager.go:614-618 | Removes exactly that session |
| AuthManager.Manager.Prune | internal/auth/manager.go:1096-1121 | At most once a minute exactly what has expired goes: sessions, challenges and failure records that are neither locked nor recent |
| AuthManager.Manager.CreateUser | internal/auth/manager.go:641-682 | Adds exactly the local account asked for, with normalized access, when its name is free and well-formed, unless saving fails |
| AuthManager.Manager.CreateEntraUser | internal/auth/manager.go:686-727 | Adds exactly the unbound external account asked for, when its name and external login are free, unless saving fails |
| AuthManager.Manager.UpdateUser | internal/auth/manager.go:803-849 | Refused as unknown, forbidden or for the first reason against its access, in that order; otherwise the account gets exactly the normalized access and state asked for, unless saving fails, and any change revokes all its sessions |
| AuthManager.Manager.ResetEntraBinding | internal/auth/manager.go:775-799 | Unknown and local accounts are refused, each exactly; an external one loses its binding and all its sessions exactly when the disk takes it |
| AuthManager.Manager.CompleteEntraLogin | internal/auth/manager.go:731-771 | A session opens only for the enabled account bound to the identity or the pre-approved one just bound to it; the manager stays sound in any case, and a new binding keeps valid accounts valid exactly when its key is free, which it is when no tenant has a bar in it |
| AuthManager.Manager.AccountOf | internal/auth/manager.go:742-767 | The enabled account bound to the identity; when no account is bound, the enabled one created for its login, which is bound now. Refused exactly for a malformed identity, without such an account, or when the new binding cannot be saved |
| AuthManager.Manager.RegisterOrganization | internal/auth/manager.go:853-862 | The catalog gains the organization, on a copy, exactly when it fits and no other organization has its name |
| AuthManager.Manager.RemoveOrganizationAssignments | internal/auth/manager.go:867-905 | The organization leaves all grants, the guest binding and the catalog, and exactly the sessions of accounts that had the grant go; when saving fails nothing changes; valid accounts stay valid exactly when the guest organization is not this one with blanks around it |
| AuthManager.Manager.Commit | internal/auth/manager.go:1123-1129 | The state in memory changes exactly when the disk took it |
| AuthManager.Manager.SessionMatchesAccount | internal/auth/manager.go:997-1037 | In every reachable state a stored session that is not a guest's belongs to an enabled account and has the role, the all-organizations flag and the organizations of its persisted record |
| AuthManager.Manager.SessionSees | internal/auth/manager.go:909-927 | A stored session sees an organization exactly when it is a guest's and that is the guest organization, or the organization exists and the session's account may see it |
| AuthInvariants.SessionsAfterUpdate | internal/auth/manager.go:803-849 | With an account changed and its sessions gone, all other sessions still match their accounts |
| AuthInvariants.LogStep | internal/auth/manager.go:545-561 | A session opened by a step keeps the account of all steps, codes and challenges consistent |
| Accounts.ValidatePersistentState | internal/auth/manager.go:1262-1365 | Accepts exactly the states in which identifiers, names, external logins and bound identities differ, administrators are unscoped and every grant is registered |
| Accounts.NormalizeAccess | internal/auth/manager.go:1208-1242 | Returns the normalized access or the first reason against it |
| Accounts.NormalAccessValid | internal/auth/manager.go:1208-1242 | What comes out satisfies the persisted rules and is never wider than what was asked for |
| Accounts.AccessGranted | internal/auth/manager.go:1208-1242 | Access is granted exactly when the role is known, at most 64 organizations are named and all exist, and they go with the role; it is then what was asked for |
| Accounts.NormalizeIds | internal/auth/manager.go:1244-1260 | Identifiers trimmed, without blanks and repeats, sorted |
| AccountChanges.BindValidIff | internal/auth/manager.go:1262-1365 | Binding an account to an identity keeps the persisted state valid exactly when no other account is bound under the same key |
| AccountChanges.BoundSound | internal/auth/manager.go:731-771 | Binding an account to an identity that no account is bound to keeps the accounts sound, whether or not the key is free |
| AccountChanges.BoundOrderly | internal/auth/manager.go:731-771 | When no bound tenant has a bar in it, and neither has the new one, the binding keeps the persisted state valid |
| AccountChanges.KeyTellsIdentity | internal/auth/manager.go:1262-1365 | When tenants contain no bar, the key tells tenant and object apart |
| AccountChanges.FreeWithoutBars | internal/auth/manager.go:731-771 | For an identity no account is bound to, the key is free when tenants contain no bar |
| AccountChanges.AmbiguousKey | internal/auth/manager.go:1262-1365 | A persisted state that is accepted, and an identity no account of it is bound to, for which the binding that the login makes is not |
| AccountChanges.RemovalValidIff | internal/auth/manager.go:867-905 | Removing an organization keeps the persisted state valid exactly when the guest organization is not that one written with blanks around it |
| AccountChanges.WithoutOrganizationIs | internal/auth/manager.go:874-891 | Every account loses its grant of the organization and nothing else |
| AccountChanges.BlankGuestStays | internal/auth/manager.go:867-905 | A persisted state that is accepted, and after the removal of its guest organization is not |
| AuthEvents.ChallengeLimits | internal/auth/manager.go:948-995 | Over any run a challenge admits at most five verifications and opens at most one session |
| AuthEvents.StepsIncrease | internal/auth/manager.go:514-561 | Over any run the authenticator steps that open sessions of one account strictly increase (section 5.2 of RFC 6238) |
| AuthEvents.CodesConserved | internal/auth/manager.go:487-512 | Over any run the recovery codes used and left of an account are exactly those issued |
| SecondFactor.LockoutsAddUp | internal/auth/manager.go:975-995 | Without a success or a day's gap, the attempt after 5k admitted ones comes at least L1 + ... + Lk after the fifth |
| SecondFactor.AttemptWaits | internal/auth/manager.go:975-995 | With records as every sound manager keeps them, the sixth, eleventh, ... attempt since the last success is admitted only once the lockouts so far are over |
| SecondFactor.RefusedIff | internal/auth/manager.go:975-995 | With n attempts admitted since the last success, a later one is refused exactly when n is a multiple of five and the lockout of the n-th is not over |
| SecondFactor.LockoutTable | internal/auth/manager.go:985-988 | Lockouts last 1, 2, 4, 8, 16 and 32 minutes, and an hour from the seventh on |
| SecondFactor.DayForgives | internal/auth/manager.go:980-984 | A day after the last failure, with no lockout, the next attempt is the first again |
| SecondFactor.SweepKeeps | internal/auth/manager.go:1096-1121 | Pruning never forgets a record that still counts |
| Totp.VerifyTotp | internal/auth/totp.go:64-89 | Accepts exactly the codes of a step in the window that is later than the last one used, and returns the earliest such step |
| Totp.WindowIs | internal/auth/totp.go:64-89 | A step is in the window from half a minute before it begins until half a minute after it is over |
| Totp.RecoveryCodeIndex | internal/auth/totp.go:107-120 | Finds the first hash the code matches, or none when none does or the code has the wrong length |
| Totp.RawIgnores | internal/auth/totp.go:107-120 | Blanks, hyphens and case make no difference anywhere in a recovery code, and everything else does |
| Catalog.OrganizationCatalog.Register | internal/auth/organizations.go:46-65 | Adds or renames exactly when the reference fits and no other organization has the name; the two maps stay inverse |
| Catalog.OrganizationCatalog.Remove | internal/auth/organizations.go:81-87 | Removes the organization from both maps, which stay inverse |
| Catalog.OrganizationCatalog.IdByName | internal/auth/organizations.go:89-92 | Finds the organization with the name but for case and blanks, or none when there is none |
| Catalog.NewCatalog | internal/auth/organizations.go:19-44 | Accepts exactly references that fit and differ in identifier and name, and holds exactly those |
| CorridorLanes.LaneRegistry.NextCorridorLane | web/static/js/cabling.js:1141-1153 | The new lane takes the first free ordinal and lies beyond an outermost lane of the corridor by exactly the wider of the two spacings, so beyond every lane; the first is at nought |
| CorridorLanes.LaneRegistry.ReserveCorridorLane | web/static/js/cabling.js:1155-1165 | A stored lane whose ordinal is free is entered with the fallbacks for a missing spacing or offset; the registry stays separated when the lane is apart from the others |
| CorridorLanes.BeyondOutermost | web/static/js/cabling.js:1141-1153 | A lane beyond the outermost one is apart from every lane of the corridor, not only from the outermost |
| CorridorLanes.AssignCableTracks | web/static/js/cabling.js:154-226 | Starting from any separated plan, a full or incremental replan gives every cable one track, keeps the tracks of cables that are not rerouted, and is separated again; cable by cable, every new lane takes the first ordinal free beside the lanes of the reused tracks and of the cables before it, and lies just beyond the outermost of them |
| CorridorLanes.ReserveTrack | web/static/js/cabling.js:395-413 | The lanes of a reused track are all entered, and nothing that was entered is lost |
| CorridorLanes.PlanTrack | web/static/js/cabling.js:246-251 | A newly routed cable gets one lane in each of its corridors, apart from all lanes of the plan, each next to those the corridor has; no other lane is entered |
| CorridorLanes.LanesFourApart | web/static/js/cabling.js:154-226 | Two lanes of one corridor in a plan have different ordinals and offsets at least 4 apart |
| RearCorridors.PlanRearCorridors | web/static/js/cabling.js:526-603 | Every rear cable gets the assignment of its place in corridor, channel and strand order, and nothing else gets one |
| RearCorridors.GroupChannels | web/static/js/cabling.js:536-556 | Every cable of a bundle is in exactly the channel with its key, once; channels are in the order of their first cables and of their types, and hold their cables as listed |
| RearCorridors.ArrangeBundle | web/static/js/cabling.js:557-562 | Channels are sorted by the channel comparison and their cables by the cable comparison, ties in the order they were in; none is lost |
| RearCorridors.EveryCableAssigned | web/static/js/cabling.js:526-603 | Exactly the rear cables get an offset |
| RearCorridors.OffsetsApart | web/static/js/cabling.js:526-603 | Offsets of two rear cables differ by at least 2.5 within a channel, 8 between channels and 24 between bundles |
| RearCorridors.StrandsApart | web/static/js/cabling.js:526-603 | Strands of one channel are a strand spacing apart, of different channels 8, of different corridors 24 |
| RearCorridors.Packed | web/static/js/cabling.js:560-600 | Offsets are packed exactly: strands at 2.5 in a tube and 4 otherwise, channels at 8 from edge to edge and corridors at 24, the first at nought |
| RearCorridors.SheathFillsBand | web/static/js/cabling.js:629-667 | A tube sheath is exactly as wide as the band reserved for the tube and centred in it |
| RearCorridors.SheathsApart | web/static/js/cabling.js:629-667 | Sheaths of different tubes never overlap |

## Left out

- CascadeNormal.DeletionValidIff: for a topology that is only valid, the promise that a deletion gives a valid topology fails; the lemma states the exact condition instead.
- Revisions.OneCommitPerRevision: does not hold across a deletion or the wrap of the 64-bit revision, as `Revisions.DeletionCommitsAgain` and `Revisions.WrapCommitsAgain` show.
- AuthManager.Manager.CompleteEntraLogin: keeps the accounts valid exactly when the key of a new binding is free, because the code does not check it.
- AuthManager.Manager.RemoveOrganizationAssignments: keeps the accounts valid except for a guest organization that is the removed one with blanks around it, because the code compares it untrimmed.
- AuthManager.Manager.constructor: starts from a state that was loaded and validated; loading, migration and the bootstrap administrator are startup paths that are not modelled.
- AuthManager.Manager.LookUpLogin: the throttling of login attempts by account and address is an admission test that is not modelled; neither is the comparison with a dummy hash.
- AuthManager.Manager.NewGuestSession: the per-client budget of guest sessions enters as a verdict.
- JsonStore.JsonStore.MutateAtRevision: mutations are functions that keep the topology's identifier, as all mutations the handlers pass do.
- JsonStore.JsonStore.DeleteAtRevision: a file that is already missing fails the deletion, as in the code; all other causes of a failed write or removal are one verdict of the disk.
- StpReport.ReportWithinBudget: the one-bridge paths of bridges without edges are not charged by the code and not counted here.
- LinkIssues.AnalyzeGroups: the shape and media findings of LACP and MC-LAG groups are not modelled, since no operation promises to avoid them.
- CorridorLanes.AssignCableTracks: which corridors a cable runs through, and the coordinates of the gutters, follow from drawing geometry and enter as the descriptor; the tracks of an earlier plan hold complete reservations, as every plan writes them.
- RearCorridors.PlanRearCorridors: the rear bundles come in their order, and the span, block and type comparisons are parameters; real numbers stand for floating point.
- RearCorridors.SheathsApart: the route of a sheath, an average of track coordinates, is not modelled.
- Validation.ValidIsStpReady: identifiers of different kinds differing is assumed, since nothing checks it.
- Validate.ValidateTopology: regular expressions, length and cardinality limits, colours, coordinates, addresses, messages and share grants are easy conditions of single fields.
- EnsureOrganizations and the loading of files change memory before writing and are startup code.
- Timestamps, display names of devices and racks, canvas positions and faceplates are carried along unchanged by the operations modelled.
- Password hashing, sealing of secrets, code generation, digests and random tokens are parameters or opaque values.
- HTTP routing, JSON, cookies, event streams, PostgreSQL, media files, configuration, rendering and the browser user interface.
