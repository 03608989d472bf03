/** loopsFromSTP: the loop report, drawn from the port states alone. */
module StpLoops {
  import opened Text
  import opened Sorting
  import opened Topology
  import opened StpModel
  import opened StpBridges
  import opened StpEdges
  import opened StpEdgeFacts
  import opened StpComponents
  import opened StpTree
  import opened StpInstance
  import opened StpComponentSimulation
  import opened StpSimulation
  import opened StpTheorems

  datatype Loop = Loop(vlan: int, deviceIds: seq<Id>, linkIds: seq<Id>)

  /** The links with a blocked end. */
  ghost function BlockedLinks(ports: seq<PortState>): set<Id> {
    set p | p in ports && p.role.BlockedRole? :: p.linkId
  }

  ghost function ReportedDevices(bridges: seq<BridgeState>): set<Id> {
    set b, d | b in bridges && d in b.deviceIds :: d
  }

  ghost function LoopOf(i: Instance): Loop {
    Loop(i.vlan, SortedIds(ReportedDevices(i.bridges)), SortedIds(BlockedLinks(i.ports)))
  }

  /** One loop for each domain with a blocked port, in the order of the domains. */
  ghost function Loops(instances: seq<Instance>): seq<Loop> {
    if instances == [] then [] else
      var last := instances[|instances| - 1];
      Loops(instances[..|instances| - 1]) + if BlockedLinks(last.ports) == {} then [] else [LoopOf(last)]
  }

  lemma OneMorePort(ports: seq<PortState>, k: nat)
    requires k < |ports|
    ensures BlockedLinks(ports[..k + 1]) ==
      BlockedLinks(ports[..k]) + if ports[k].role.BlockedRole? then {ports[k].linkId} else {}
  {
    assert ports[..k + 1] == ports[..k] + [ports[k]];
    assert ports[k] in ports[..k + 1];
  }

  lemma OneMoreBridge(bridges: seq<BridgeState>, k: nat)
    requires k < |bridges|
    ensures ReportedDevices(bridges[..k + 1]) == ReportedDevices(bridges[..k]) + Elements(bridges[k].deviceIds)
  {
    assert bridges[..k + 1] == bridges[..k] + [bridges[k]];
    assert bridges[k] in bridges[..k + 1];
  }

  /** loopsFromSTP. */
  method LoopsFromSTP(instances: seq<Instance>) returns (loops: seq<Loop>)
    ensures loops == Loops(instances)
  {
    LessIsStrictTotal();
    loops := [];
    for n := 0 to |instances|
      invariant loops == Loops(instances[..n])
    {
      var i := instances[n];
      assert instances[..n + 1][..n] == instances[..n];
      var linkIds := BlockedLinkIds(i.ports);
      assert BlockedLinks(i.ports) == {} <==> linkIds == [] by {
        assert linkIds != [] ==> linkIds[0] in Elements(linkIds);
      }
      if linkIds != [] {
        var deviceIds := BridgeDevices(i.bridges);
        linkIds := SortAndCompact(linkIds, Less);
        deviceIds := SortAndCompact(deviceIds, Less);
        loops := loops + [Loop(i.vlan, deviceIds, linkIds)];
      }
    }
    assert instances[..|instances|] == instances;
  }

  method BlockedLinkIds(ports: seq<PortState>) returns (linkIds: seq<Id>)
    ensures Elements(linkIds) == BlockedLinks(ports)
  {
    linkIds := [];
    for k := 0 to |ports|
      invariant Elements(linkIds) == BlockedLinks(ports[..k])
    {
      OneMorePort(ports, k);
      if ports[k].role.BlockedRole? {
        assert Elements(linkIds + [ports[k].linkId]) == Elements(linkIds) + {ports[k].linkId};
        linkIds := linkIds + [ports[k].linkId];
      }
    }
    assert ports[..|ports|] == ports;
  }

  method BridgeDevices(bridges: seq<BridgeState>) returns (deviceIds: seq<Id>)
    ensures Elements(deviceIds) == ReportedDevices(bridges)
  {
    deviceIds := [];
    for k := 0 to |bridges|
      invariant Elements(deviceIds) == ReportedDevices(bridges[..k])
    {
      OneMoreBridge(bridges, k);
      assert Elements(deviceIds + bridges[k].deviceIds) == Elements(deviceIds) + Elements(bridges[k].deviceIds);
      deviceIds := deviceIds + bridges[k].deviceIds;
    }
    assert bridges[..|bridges|] == bridges;
  }

  // ----- what is reported

  /** The links of the edges outside the domain's tree. */
  ghost function RedundantLinks(x: Setting): set<Id>
    requires Ready(x)
  {
    set e, l | e in x.edges && e !in TreeEdges(Elements(x.edges), TreeFor(x)) && l in e.links :: l.id
  }

  /** The blocked links are exactly the links of the edges outside the tree. */
  lemma BlockedLinksAreRedundant(x: Setting, budget: Budget)
    requires Ready(x)
    ensures BlockedLinks(InstanceOf(x, budget).0.ports) == RedundantLinks(x)
  {
    hide Ready, InstanceOf, TreeEdges, TreeFor, BlockedIn;
    var ports := InstanceOf(x, budget).0.ports;
    forall id ensures id in BlockedLinks(ports) <==> id in RedundantLinks(x) {
      if id in BlockedLinks(ports) {
        var p :| p in ports && p.role.BlockedRole? && p.linkId == id;
        BlockedPort(x, budget, p);
      }
      if id in RedundantLinks(x) {
        var e, l :| e in x.edges && e !in TreeEdges(Elements(x.edges), TreeFor(x)) && l in e.links && l.id == id;
        RedundantLinkBlocked(x, budget, e, l);
      }
    }
  }

  lemma BlockedPort(x: Setting, budget: Budget, p: PortState)
    requires Ready(x) && p in InstanceOf(x, budget).0.ports && p.role.BlockedRole?
    ensures p.linkId in RedundantLinks(x)
  {
    hide Ready, InstanceOf, TreeEdges, TreeFor, SourcePort, TargetPort;
    var e, l := PortOfEdge(x, budget, p);
    assert BlockedIn(InstanceOf(x, budget).0, e);
    BlockedOffTree(x, budget, e);
  }

  lemma RedundantLinkBlocked(x: Setting, budget: Budget, e: Edge, l: Link)
    requires Ready(x) && e in x.edges && e !in TreeEdges(Elements(x.edges), TreeFor(x)) && l in e.links
    ensures l.id in BlockedLinks(InstanceOf(x, budget).0.ports)
  {
    hide Ready, InstanceOf, TreeEdges, TreeFor, RolesIn;
    RolesByTree(x, e);
    LinkPortsReported(x, budget, e, l);
    LinkMirrorsEdge(x, e, l);
    StpComponentSimulation.PortIds(x, e, l);
  }

  /** A loop is reported for a domain exactly when it has at least as many
      logical edges as bridges, and then for the links of the edges outside the
      spanning tree. */
  lemma LoopIffEdgesCoverBridges(x: Setting, budget: Budget)
    requires Ready(x)
    ensures var i := InstanceOf(x, budget).0;
            Loops([i]) == if |x.edges| >= |Ends(Elements(x.edges))| then [LoopOf(i)] else []
    ensures LoopOf(InstanceOf(x, budget).0).linkIds == SortedIds(RedundantLinks(x))
  {
    hide Ready, InstanceOf, TreeEdges, TreeFor, BlockedLinks, RedundantLinks;
    var i := InstanceOf(x, budget).0;
    BlockedLinksAreRedundant(x, budget);
    AnyRedundant(x);
    assert [i][..0] == [];
    assert Loops([i]) == Loops([]) + if BlockedLinks(i.ports) == {} then [] else [LoopOf(i)];
  }

  lemma AnyRedundant(x: Setting)
    requires Ready(x)
    ensures RedundantLinks(x) != {} <==> |x.edges| >= |Ends(Elements(x.edges))|
  {
    hide TreeFor, Joins, RootOf;
    var all := Elements(x.edges);
    var tree := TreeEdges(all, TreeFor(x));
    TreeCount(all, RootOf(x), TreeFor(x));
    DistinctSize(x.edges) by { EdgesDistinct(x.edges); }
    if tree == all {
      assert RedundantLinks(x) == {};
    } else {
      assert tree <= all;
      var e :| e in all && e !in tree;
      EdgeHasLink(x, e);
      assert e.links[0].id in RedundantLinks(x);
      SubsetSize(tree, all);
    }
  }

  lemma EdgesDistinct(edges: seq<Edge>)
    requires Ascending(EdgeLess, edges)
    ensures Distinct(edges)
  {
    LessIsStrictTotal();
  }

  /** Bridges without an edge are in no loop. */
  lemma NoLoopWithoutEdge(b: Bridge, vlan: int, domain: int, budget: Budget)
    ensures Loops([IsolatedInstance(b, vlan, domain, budget).0]) == []
  {
    var i := IsolatedInstance(b, vlan, domain, budget).0;
    assert [i][..0] == [];
    assert BlockedLinks(i.ports) == {};
  }

  /** The report is put together domain by domain. */
  lemma {:induction false} LoopsJoin(s: seq<Instance>, more: seq<Instance>)
    ensures Loops(s + more) == Loops(s) + Loops(more)
  {
    hide LoopOf, BlockedLinks;
    if more == [] {
      assert s + more == s;
    } else {
      LoopsJoin(s, more[..|more| - 1]);
      assert (s + more)[..|s + more| - 1] == s + more[..|more| - 1];
    }
  }
}
