/** simulateSTPComponent, and what its report says about the domain. */
module StpComponentSimulation {
  import opened Outcomes
  import opened Text
  import opened Sorting
  import BreadthFirst
  import opened Topology
  import opened StpModel
  import opened StpEdges
  import opened StpEdgeFacts
  import opened StpComponents
  import opened StpTree
  import opened StpSearch
  import opened StpPaths
  import opened StpInstance

  method BuildTable(edges: seq<Edge>) returns (table: map<Id, Edge>)
    requires SameIdSameEdge(Elements(edges))
    ensures table == EdgeTable(Elements(edges))
  {
    hide SameIdSameEdge, EdgeTable;
    SameAmong(edges);
    table := map[];
    for i := 0 to |edges|
      invariant forall id | id in table :: exists k | 0 <= k < i :: edges[k].id == id
      invariant forall k | 0 <= k < i :: edges[k].id in table && table[edges[k].id] == edges[k]
    {
      table := table[edges[i].id := edges[i]];
    }
    IsTable(edges, table);
  }

  lemma SameAmong(edges: seq<Edge>)
    requires SameIdSameEdge(Elements(edges))
    ensures forall k, m | 0 <= k < |edges| && 0 <= m < |edges| && edges[k].id == edges[m].id :: edges[k] == edges[m]
  {
    assert forall k | 0 <= k < |edges| :: edges[k] in Elements(edges);
  }

  lemma IsTable(edges: seq<Edge>, table: map<Id, Edge>)
    requires SameIdSameEdge(Elements(edges))
    requires forall id | id in table :: exists k | 0 <= k < |edges| :: edges[k].id == id
    requires forall k | 0 <= k < |edges| :: edges[k].id in table && table[edges[k].id] == edges[k]
    ensures table == EdgeTable(Elements(edges))
  {
    assert forall e | e in Elements(edges) :: e.id in table && table[e.id] == e;
    assert forall k | 0 <= k < |edges| :: edges[k] in Elements(edges);
  }

  /** The physical root ports of one bridge. */
  method CollectRootPorts(bridgeOf: map<Id, Id>, links: seq<Link>, b: Id) returns (ports: seq<Id>)
    ensures ports == RootPorts(bridgeOf, links, b)
  {
    ports := [];
    for i := 0 to |links|
      invariant ports == RootPorts(bridgeOf, links[..i], b)
    {
      assert links[..i + 1][..i] == links[..i];
      var l := links[i];
      if l.sourceDeviceId in bridgeOf && bridgeOf[l.sourceDeviceId] == b {
        ports := ports + [l.sourcePortId];
      } else if l.targetDeviceId in bridgeOf && bridgeOf[l.targetDeviceId] == b {
        ports := ports + [l.targetPortId];
      }
    }
    assert links[..|links|] == links;
  }

  /** stpBudget.bridgeMembers. */
  method BridgeMembers(bridge: Bridge, members: nat) returns (deviceIds: seq<Id>, complete: bool, members': nat)
    ensures complete <==> |bridge.deviceIds| <= members
    ensures deviceIds == if complete then bridge.deviceIds else []
    ensures members' == if complete then members - |bridge.deviceIds| else members
  {
    if |bridge.deviceIds| > members { return [], false, members; }
    return bridge.deviceIds, true, members - |bridge.deviceIds|;
  }

  lemma UpLinksFound(x: Setting, b: Id)
    requires Ready(x)
    ensures var t := TreeFor(x);
            && t.via.Keys == t.parent.Keys
            && (b in t.via ==> t.via[b] in EdgeTable(Elements(x.edges)))
            && UpLinks(x, b) == if b in t.via then EdgeTable(Elements(x.edges))[t.via[b]].links else []
  {
    var t := TreeFor(x);
    if b in t.parent { assert HangsBy(Elements(x.edges), t, b); }
  }

  /** The body of the loop over the bridges of the domain. */
  method ReportBridge(ghost x: Setting, b: Id, bridges: map<Id, Bridge>, bridgeOf: map<Id, Id>, root: Id,
                      distance: map<Id, nat>, parentBridge: map<Id, Id>, parentEdge: map<Id, Id>, table: map<Id, Edge>, r: Report)
    returns (r': Report)
    requires Ready(x) && b in Ends(Elements(x.edges))
    requires bridges == x.bridges && bridgeOf == x.w.bridgeOf && root == RootOf(x)
    requires Tree(distance, parentBridge, parentEdge) == TreeFor(x) && table == EdgeTable(Elements(x.edges))
    ensures r' == Reported(x, r, b)
  {
    hide Ready, EdgeTable, UpLinks, Grown, RootOf, TreeFor, ChargedPath, Ends;
    KnownBridge(x, b);
    UpLinksFound(x, b);
    var bridge := bridges[b];
    var rootPorts: seq<Id> := [];
    if b in parentEdge {
      rootPorts := CollectRootPorts(bridgeOf, table[parentEdge[b]].links, b);
    }
    rootPorts := SortIds(rootPorts);
    var members, complete, membersLeft := BridgeMembers(bridge, r.budget.members);
    var state := BridgeState(b, bridge.name, members, bridge.priority, distance[b], rootPorts);
    var path, pathsLeft := BuildPath(Elements(x.edges), TreeFor(x), b, root, parentBridge, parentEdge, table, r.budget.paths);
    assert state == StateOf(x, b, r.budget.members);
    r' := Report(r.bridges + [state], if path.Some? then r.paths + [path.value] else r.paths,
                 r.pathsTruncated || path.None?, r.membersTruncated || !complete, Budget(pathsLeft, membersLeft));
  }

  lemma KnownBridge(x: Setting, b: Id)
    requires Ready(x) && b in Ends(Elements(x.edges))
    ensures b in x.bridges && b in TreeFor(x).dist && Grown(Elements(x.edges), RootOf(x), TreeFor(x))
  {
  }

  /** Links of an edge have different identifiers, and their ports differ. */
  ghost predicate LinksDiffer(e: Edge) {
    && (forall i, j | 0 <= i < j < |e.links| :: e.links[i].id != e.links[j].id)
    && forall i | 0 <= i < |e.links| :: e.links[i].sourcePortId != e.links[i].targetPortId
  }

  lemma DifferentLinks(x: Setting, e: Edge)
    requires Ready(x) && e in x.edges
    ensures LinksDiffer(e)
  {
    assert e in Elements(x.edges);
    assert forall i | 0 <= i < |e.links| :: e.links[i] in e.links;
  }

  ghost predicate IsPortAmong(x: Setting, e: Edge, i: nat, p: PortState)
    requires Ready(x) && e in x.edges && i <= |e.links|
  {
    exists k :: 0 <= k < i && (p == SourcePort(x, e, e.links[k]) || p == TargetPort(x, e, e.links[k]))
  }

  /** The port states of the first i links of an edge. */
  ghost predicate EdgePortsUpTo(x: Setting, e: Edge, i: nat, ports: seq<PortState>)
    requires Ready(x) && e in x.edges && i <= |e.links|
  {
    Distinct(ports) && forall p :: p in ports <==> IsPortAmong(x, e, i, p)
  }

  lemma PortIds(x: Setting, e: Edge, l: Link)
    requires Ready(x) && e in x.edges
    ensures SourcePort(x, e, l).linkId == l.id && SourcePort(x, e, l).portId == l.sourcePortId
    ensures TargetPort(x, e, l).linkId == l.id && TargetPort(x, e, l).portId == l.targetPortId
  {
    hide Ready, RolesIn;
  }

  lemma AmongGrows(x: Setting, e: Edge, i: nat, p: PortState)
    requires Ready(x) && e in x.edges && i < |e.links|
    ensures IsPortAmong(x, e, i + 1, p) <==>
      IsPortAmong(x, e, i, p) || p == SourcePort(x, e, e.links[i]) || p == TargetPort(x, e, e.links[i])
  {
    hide Ready, RolesIn, SourcePort, TargetPort;
  }

  lemma AmongEarlier(x: Setting, e: Edge, i: nat, p: PortState)
    requires Ready(x) && e in x.edges && i < |e.links| && LinksDiffer(e) && IsPortAmong(x, e, i, p)
    ensures p.linkId != e.links[i].id
  {
    hide Ready, RolesIn, SourcePort, TargetPort;
    var k :| 0 <= k < i && (p == SourcePort(x, e, e.links[k]) || p == TargetPort(x, e, e.links[k]));
    PortIds(x, e, e.links[k]);
  }

  lemma EdgePortsStep(x: Setting, e: Edge, i: nat, ports: seq<PortState>)
    requires Ready(x) && e in x.edges && i < |e.links| && LinksDiffer(e) && EdgePortsUpTo(x, e, i, ports)
    ensures EdgePortsUpTo(x, e, i + 1, ports + [SourcePort(x, e, e.links[i]), TargetPort(x, e, e.links[i])])
  {
    hide Ready, RolesIn, SourcePort, TargetPort, Elements, IsPortAmong;
    PortIds(x, e, e.links[i]);
    var pair := [SourcePort(x, e, e.links[i]), TargetPort(x, e, e.links[i])];
    forall p | p in ports ensures p !in pair { AmongEarlier(x, e, i, p); }
    DistinctJoin(ports, pair);
    forall p ensures p in ports + pair <==> IsPortAmong(x, e, i + 1, p) { AmongGrows(x, e, i, p); }
  }

  lemma EdgePortsSound(x: Setting, e: Edge, ports: seq<PortState>, p: PortState)
    requires Ready(x) && e in x.edges && EdgePortsUpTo(x, e, |e.links|, ports) && p in ports
    ensures p in PortsOf(x, e) && exists l :: l in e.links && l.id == p.linkId
  {
    hide Ready, RolesIn, SourcePort, TargetPort;
    assert IsPortAmong(x, e, |e.links|, p);
    var k :| 0 <= k < |e.links| && (p == SourcePort(x, e, e.links[k]) || p == TargetPort(x, e, e.links[k]));
    PortIds(x, e, e.links[k]);
    assert e.links[k] in e.links;
  }

  lemma EdgePortsComplete(x: Setting, e: Edge, ports: seq<PortState>, p: PortState)
    requires Ready(x) && e in x.edges && EdgePortsUpTo(x, e, |e.links|, ports) && p in PortsOf(x, e)
    ensures p in ports
  {
    hide Ready, RolesIn, SourcePort, TargetPort;
    var l :| l in e.links && (p == SourcePort(x, e, l) || p == TargetPort(x, e, l));
    var k :| 0 <= k < |e.links| && e.links[k] == l;
    assert IsPortAmong(x, e, |e.links|, p);
  }

  lemma EdgePortsAll(x: Setting, e: Edge, ports: seq<PortState>)
    requires Ready(x) && e in x.edges && EdgePortsUpTo(x, e, |e.links|, ports)
    ensures Elements(ports) == PortsOf(x, e) && Distinct(ports)
    ensures forall p | p in ports :: exists l :: l in e.links && l.id == p.linkId
  {
    hide Ready, PortsOf;
    forall p | p in ports ensures p in PortsOf(x, e) && exists l :: l in e.links && l.id == p.linkId {
      EdgePortsSound(x, e, ports, p);
    }
    forall p | p in PortsOf(x, e) ensures p in ports { EdgePortsComplete(x, e, ports, p); }
  }

  lemma NoEdgePorts(x: Setting, e: Edge)
    requires Ready(x) && e in x.edges
    ensures EdgePortsUpTo(x, e, 0, [])
  {
  }

  /** The port states of one edge. */
  method EdgePorts(ghost x: Setting, e: Edge, bridgeOf: map<Id, Id>, leftRole: Role,
                   rightRole: Role) returns (ports: seq<PortState>)
    requires Ready(x) && e in x.edges && bridgeOf == x.w.bridgeOf && (leftRole, rightRole) == RolesIn(x, e)
    ensures Elements(ports) == PortsOf(x, e) && Distinct(ports)
    ensures forall p | p in ports :: exists l :: l in e.links && l.id == p.linkId
  {
    hide Ready, RolesIn, EdgePortsUpTo, PortsOf, PhysicalPort, LinksDiffer;
    DifferentLinks(x, e);
    NoEdgePorts(x, e);
    ports := [];
    for i := 0 to |e.links|
      invariant EdgePortsUpTo(x, e, i, ports)
    {
      var l := e.links[i];
      EdgePortsStep(x, e, i, ports);
      ports := ports + [PhysicalPort(l.sourcePortId, l.sourceDeviceId, l.id, bridgeOf, e, leftRole, rightRole),
                        PhysicalPort(l.targetPortId, l.targetDeviceId, l.id, bridgeOf, e, leftRole, rightRole)];
    }
    EdgePortsAll(x, e, ports);
  }

  /** The port states of the first i edges. */
  ghost predicate PortsUpTo(x: Setting, i: nat, ports: seq<PortState>)
    requires Ready(x) && i <= |x.edges|
  {
    && Distinct(ports)
    && (forall p :: p in ports <==> exists k :: 0 <= k < i && p in PortsOf(x, x.edges[k]))
    && forall p | p in ports :: exists k, l :: 0 <= k < i && l in x.edges[k].links && l.id == p.linkId
  }

  lemma PortsJoin(x: Setting, i: nat, ports: seq<PortState>, more: seq<PortState>)
    requires Ready(x) && i < |x.edges| && PortsUpTo(x, i, ports)
    requires Elements(more) == PortsOf(x, x.edges[i]) && Distinct(more)
    requires forall p | p in more :: exists l :: l in x.edges[i].links && l.id == p.linkId
    ensures PortsUpTo(x, i + 1, ports + more)
  {
    hide Ready, PortsOf, Distinct;
    PortsApart(x, i, ports, more);
    DistinctJoin(ports, more);
    forall p ensures p in ports + more <==> exists k :: 0 <= k < i + 1 && p in PortsOf(x, x.edges[k]) {
      assert p in more <==> p in Elements(more);
    }
  }

  /** Ports of another edge are of other links. */
  lemma PortsApart(x: Setting, i: nat, ports: seq<PortState>, more: seq<PortState>)
    requires Ready(x) && i < |x.edges| && PortsUpTo(x, i, ports)
    requires forall p | p in more :: exists l :: l in x.edges[i].links && l.id == p.linkId
    ensures forall p | p in ports :: p !in more
  {
    hide Ready, PortsOf, Distinct;
    forall p | p in ports ensures p !in more {
      var k, l :| 0 <= k < i && l in x.edges[k].links && l.id == p.linkId;
      EdgesShareNoLink(x, k, i, l);
    }
  }

  lemma EdgesShareNoLink(x: Setting, k: nat, i: nat, l: Link)
    requires Ready(x) && k < i < |x.edges| && l in x.edges[k].links
    ensures forall m | m in x.edges[i].links :: m.id != l.id
  {
    assert x.edges[k] in Elements(x.edges) && x.edges[i] in Elements(x.edges);
    LessIsStrictTotal();
  }

  /** All port states, sorted. */
  method ReportPorts(ghost x: Setting, edges: seq<Edge>, bridges: map<Id, Bridge>, bridgeOf: map<Id, Id>,
                     distance: map<Id, nat>, parentBridge: map<Id, Id>, parentEdge: map<Id, Id>)
    returns (ports: seq<PortState>)
    requires Ready(x) && edges == x.edges && bridges == x.bridges && bridgeOf == x.w.bridgeOf
    requires Tree(distance, parentBridge, parentEdge) == TreeFor(x)
    ensures ports == SortedPorts(x)
  {
    hide *;
    var listed: seq<PortState> := [];
    NoPorts(x);
    for i := 0 to |edges|
      invariant PortsUpTo(x, i, listed)
    {
      EdgeEndsKnown(x, edges[i]);
      var (leftRole, rightRole) := EdgeRoles(edges[i], Tree(distance, parentBridge, parentEdge), bridges);
      var more := EdgePorts(x, edges[i], bridgeOf, leftRole, rightRole);
      PortsJoin(x, i, listed, more);
      listed := listed + more;
    }
    ports := SortPorts(x, listed);
  }

  method SortPorts(ghost x: Setting, listed: seq<PortState>) returns (ports: seq<PortState>)
    requires Ready(x) && PortsUpTo(x, |x.edges|, listed)
    ensures ports == SortedPorts(x)
  {
    hide Ready, AllPorts, PortsUpTo;
    PortsComplete(x, listed);
    PortOrder(x);
    ports := Sort(listed, PortLess);
    AscendingUnique(PortLess, ports, SortedPorts(x));
  }

  lemma NoPorts(x: Setting)
    requires Ready(x)
    ensures PortsUpTo(x, 0, [])
  {
  }

  lemma PortsComplete(x: Setting, ports: seq<PortState>)
    requires Ready(x) && PortsUpTo(x, |x.edges|, ports)
    ensures Elements(ports) == AllPorts(x) && Distinct(ports)
  {
    hide Ready, PortsOf;
    forall p ensures p in ports <==> p in AllPorts(x) {
      if p in AllPorts(x) {
        var e :| e in x.edges && p in PortsOf(x, e);
        var k :| 0 <= k < |x.edges| && x.edges[k] == e;
      }
    }
  }

  lemma EdgeEndsKnown(x: Setting, e: Edge)
    requires Ready(x) && e in x.edges
    ensures e.left in TreeFor(x).dist && e.right in TreeFor(x).dist && e.left in x.bridges && e.right in x.bridges
    ensures RolesIn(x, e) == EdgeRoles(e, TreeFor(x), x.bridges)
  {
    RolesOfEdge(Elements(x.edges), RootOf(x), TreeFor(x), x.bridges, e);
  }

  lemma Prepared(x: Setting)
    requires Ready(x)
    ensures forall e | e in x.edges :: e.left != e.right
    ensures Registered(x.bridges, Ends(Elements(x.edges))) && SameIdSameEdge(Elements(x.edges)) && Ascending(EdgeLess, x.edges)
    ensures Order(x) == Ranked(x.bridges, Ends(Elements(x.edges))) && Order(x) != []
    ensures RootOf(x) == Order(x)[0] && RootOf(x) in x.bridges
    ensures TreeFor(x) == Converged(Elements(x.edges), RootOf(x))
    ensures GraphOf(Elements(x.edges)).Keys == Ends(Elements(x.edges))
  {
    hide Ends, Registered, Ranked, Converged, GraphOf, SameIdSameEdge, Ascending;
    EndsApart(x);
    DomainHasBridge(x);
    FirstIsElected(x.bridges, Ends(Elements(x.edges)));
    GraphNodes(Elements(x.edges));
  }

  lemma EndsApart(x: Setting)
    requires Ready(x)
    ensures forall e | e in x.edges :: e.left != e.right
  {
    forall e | e in x.edges ensures e.left != e.right {
      assert e in Elements(x.edges);
      LessIrreflexive(e.left);
    }
  }

  lemma GraphNodes(edges: set<Edge>)
    ensures GraphOf(edges).Keys == Ends(edges)
  {
  }

  lemma ReportStep(x: Setting, i: nat, budget: Budget)
    requires Ready(x) && i < |Order(x)|
    ensures var ids := Order(x);
            && ids[i] in Ends(Elements(x.edges))
            && ReportUpTo(x, i + 1, budget) == Reported(x, ReportUpTo(x, i, budget), ids[i])
  {
    hide Reported;
    var ids := Order(x);
    assert ids[i] in Elements(ids);
  }

  lemma NothingReported(x: Setting, budget: Budget)
    requires Ready(x)
    ensures ReportUpTo(x, 0, budget) == Report([], [], false, false, budget)
  {
  }

  lemma SearchIsTree(x: Setting, distance: map<Id, nat>, parentBridge: map<Id, Id>, parentEdge: map<Id, Id>)
    requires Ready(x)
    requires BreadthFirst.Search([], distance, parentBridge, parentEdge)
             == BreadthFirst.Run(GraphOf(Elements(x.edges)), BreadthFirst.Start(RootOf(x)))
    ensures Tree(distance, parentBridge, parentEdge) == TreeFor(x)
  {
    Prepared(x);
  }

  lemma Assembled(x: Setting, budget: Budget)
    requires Ready(x)
    ensures RootOf(x) in x.bridges
    ensures var r := ReportUpTo(x, |Order(x)|, budget);
            InstanceOf(x, budget) ==
              (Instance(x.vlan, x.domain, RootOf(x), x.bridges[RootOf(x)].name, r.bridges, SortedPorts(x), r.paths,
                        r.pathsTruncated, r.membersTruncated), r.budget)
  {
  }

  /** simulateSTPComponent. */
  method SimulateComponent(x: Setting, budget: Budget) returns (instance: Instance, budget': Budget)
    requires Ready(x)
    ensures (instance, budget') == InstanceOf(x, budget)
  {
    hide *;
    Prepared(x);
    var adjacency := SortNeighbors(x.edges);
    var ids := RankBridges(x.bridges, adjacency.Keys);
    var root := ids[0];
    var distance, parentBridge, parentEdge := Converge(adjacency, root);
    SearchIsTree(x, distance, parentBridge, parentEdge);
    var table := BuildTable(x.edges);
    var r := Report([], [], false, false, budget);
    NothingReported(x, budget);
    for i := 0 to |ids|
      invariant r == ReportUpTo(x, i, budget)
    {
      ReportStep(x, i, budget);
      r := ReportBridge(x, ids[i], x.bridges, x.w.bridgeOf, root, distance, parentBridge, parentEdge, table, r);
    }
    var ports := ReportPorts(x, x.edges, x.bridges, x.w.bridgeOf, distance, parentBridge, parentEdge);
    Assembled(x, budget);
    instance := Instance(x.vlan, x.domain, root, x.bridges[root].name, r.bridges, ports, r.paths,
                         r.pathsTruncated, r.membersTruncated);
    budget' := r.budget;
  }
}
