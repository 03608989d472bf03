/** The domains of a VLAN account for every bridge that carries it, once, and
    the whole analysis stays within its budget of path identifiers. */
module StpCoverage {
  import opened Text
  import opened Sorting
  import opened Topology
  import opened Ports
  import opened StpModel
  import opened StpBridges
  import opened StpEdges
  import opened StpEdgeFacts
  import opened StpComponents
  import opened StpDomains
  import opened StpTree
  import opened StpPaths
  import opened StpInstance
  import opened StpComponentSimulation
  import opened StpSimulation
  import opened StpAnalysis
  import opened StpTheorems

  /** The instance has a state for the bridge. */
  ghost predicate Reports(i: Instance, b: Id) {
    exists k :: 0 <= k < |i.bridges| && i.bridges[k].bridgeId == b
  }

  lemma InstanceReports(x: Setting, budget: Budget, b: Id)
    requires Ready(x)
    ensures Reports(InstanceOf(x, budget).0, b) <==> b in Ends(Elements(x.edges))
  {
    hide Ready, InstanceOf, Order;
    BridgeStates(x, budget);
    var ids := Order(x);
    if b in Ends(Elements(x.edges)) {
      assert b in Elements(ids);
      var k :| 0 <= k < |ids| && ids[k] == b;
      assert InstanceOf(x, budget).0.bridges[k].bridgeId == b;
    }
    assert forall k | 0 <= k < |ids| :: ids[k] in Elements(ids);
  }

  lemma {:induction false} ConnectedAt(settings: seq<Setting>, budget: Budget, k: nat) returns (left: Budget)
    requires AllReady(settings) && k < |settings|
    ensures |ConnectedInstances(settings, budget).0| == |settings|
    ensures ConnectedInstances(settings, budget).0[k] == InstanceOf(settings[k], left).0
  {
    hide Ready, InstanceOf;
    var front := settings[..|settings| - 1];
    if front != [] {
      left := ConnectedAt(front, budget, if k < |front| then k else 0);
    }
    if k == |settings| - 1 {
      left := ConnectedInstances(front, budget).1;
    }
  }

  lemma IsolatedReports(bridge: Bridge, vlan: int, domain: int, budget: Budget, b: Id)
    ensures Reports(IsolatedInstance(bridge, vlan, domain, budget).0, b) <==> b == bridge.id
  {
    assert IsolatedInstance(bridge, vlan, domain, budget).0.bridges[0].bridgeId == bridge.id;
  }

  lemma {:induction false} IsolatedAt(bridges: seq<Bridge>, vlan: int, first: int, budget: Budget, k: nat, b: Id)
    requires k < |bridges|
    ensures |IsolatedInstances(bridges, vlan, first, budget).0| == |bridges|
    ensures Reports(IsolatedInstances(bridges, vlan, first, budget).0[k], b) <==> b == bridges[k].id
  {
    hide Reports, IsolatedInstance;
    var front := bridges[..|bridges| - 1];
    var (instances, left) := IsolatedInstances(front, vlan, first, budget);
    if front != [] {
      IsolatedAt(front, vlan, first, budget, if k < |front| then k else 0, b);
    }
    assert |instances| == |front|;
    IsolatedReports(bridges[|front|], vlan, first + |front|, left, b);
  }

  /** The k-th domain of a VLAN reports bridge b. */
  ghost predicate InDomain(t: Topology, vlan: int, k: nat, b: Id)
    requires StpReady(t) && k < |Components(VlanEdges(t, vlan))| + |IsolatedBridges(t, vlan)|
  {
    var n := |Components(VlanEdges(t, vlan))|;
    if k < n then b in Ends(Elements(Components(VlanEdges(t, vlan))[k])) else b == IsolatedBridges(t, vlan)[k - n].id
  }

  lemma VlanReports(t: Topology, vlan: int, budget: Budget, k: nat, b: Id)
    requires StpReady(t) && k < |Components(VlanEdges(t, vlan))| + |IsolatedBridges(t, vlan)|
    ensures |VlanInstances(t, vlan, budget).0| == |Components(VlanEdges(t, vlan))| + |IsolatedBridges(t, vlan)|
    ensures Reports(VlanInstances(t, vlan, budget).0[k], b) <==> InDomain(t, vlan, k, b)
  {
    hide *;
    VlanNumbered(t, vlan, budget);
    InDomainCases(t, vlan, k, b);
    if k < |Components(VlanEdges(t, vlan))| {
      ConnectedReports(t, vlan, budget, k, b);
    } else {
      LoneReports(t, vlan, budget, k - |Components(VlanEdges(t, vlan))|, b);
    }
  }

  lemma VlanParts(t: Topology, vlan: int, budget: Budget)
    requires StpReady(t)
    ensures var settings := Settings(t, vlan);
            && AllReady(settings) && |settings| == |Components(VlanEdges(t, vlan))|
            && (forall k | 0 <= k < |settings| :: settings[k].edges == Components(VlanEdges(t, vlan))[k])
            && var (connected, left) := ConnectedInstances(settings, budget);
               && VlanInstances(t, vlan, budget).0
                  == connected + IsolatedInstances(IsolatedBridges(t, vlan), vlan, |settings| + 1, left).0
               && VlanInstances(t, vlan, budget).1 == IsolatedInstances(IsolatedBridges(t, vlan), vlan, |settings| + 1, left).1
  {
    hide StpReady, Components, VlanEdges, IsolatedBridges, ConnectedInstances, IsolatedInstances, WiringFor, BridgeRecords, Ready;
    SettingsReady(t, vlan);
  }

  lemma ConnectedReports(t: Topology, vlan: int, budget: Budget, k: nat, b: Id)
    requires StpReady(t) && k < |Components(VlanEdges(t, vlan))|
    ensures k < |VlanInstances(t, vlan, budget).0|
    ensures Reports(VlanInstances(t, vlan, budget).0[k], b) <==> b in Ends(Elements(Components(VlanEdges(t, vlan))[k]))
  {
    hide *;
    VlanParts(t, vlan, budget);
    var settings := Settings(t, vlan);
    var used := ConnectedAt(settings, budget, k);
    ReadyAt(settings, k);
    InstanceReports(settings[k], used, b);
  }

  lemma ReadyAt(settings: seq<Setting>, k: nat)
    requires AllReady(settings) && k < |settings|
    ensures Ready(settings[k])
  {
    hide Ready;
  }

  lemma ConnectedCount(settings: seq<Setting>, budget: Budget)
    requires AllReady(settings)
    ensures |ConnectedInstances(settings, budget).0| == |settings|
  {
    hide Ready, InstanceOf;
    if settings != [] { var used := ConnectedAt(settings, budget, 0); }
  }

  lemma LoneReports(t: Topology, vlan: int, budget: Budget, k: nat, b: Id)
    requires StpReady(t) && k < |IsolatedBridges(t, vlan)|
    ensures var n := |Components(VlanEdges(t, vlan))|;
            && n + k < |VlanInstances(t, vlan, budget).0|
            && (Reports(VlanInstances(t, vlan, budget).0[n + k], b) <==> b == IsolatedBridges(t, vlan)[k].id)
  {
    hide *;
    VlanParts(t, vlan, budget);
    var settings := Settings(t, vlan);
    ConnectedCount(settings, budget);
    IsolatedAt(IsolatedBridges(t, vlan), vlan, |settings| + 1, ConnectedInstances(settings, budget).1, k, b);
  }

  lemma ComponentsDiffer(edges: seq<Edge>, j: nat, k: nat, b: Id)
    requires j < k < |Components(edges)| && b in Ends(Elements(Components(edges)[j]))
    ensures b !in Ends(Elements(Components(edges)[k]))
  {
    hide Components, Ends;
    DomainsPartitionBridges(edges);
    assert Precedes(Components(edges)[j], Components(edges)[k]);
  }

  lemma ComponentNotIsolated(t: Topology, vlan: int, j: nat, k: nat)
    requires StpReady(t) && j < |Components(VlanEdges(t, vlan))| && k < |IsolatedBridges(t, vlan)|
    ensures IsolatedBridges(t, vlan)[k].id !in Ends(Elements(Components(VlanEdges(t, vlan))[j]))
  {
    hide *;
    DomainEndsWithin(VlanEdges(t, vlan), j);
    IsolatedHasNoEdge(t, vlan, k);
  }

  /** No two domains have a bridge in common. */
  lemma DomainsDisjoint(t: Topology, vlan: int, j: nat, k: nat, b: Id)
    requires StpReady(t) && j < k < |Components(VlanEdges(t, vlan))| + |IsolatedBridges(t, vlan)|
    requires InDomain(t, vlan, j, b)
    ensures !InDomain(t, vlan, k, b)
  {
    hide *;
    var edges := VlanEdges(t, vlan);
    var n := |Components(edges)|;
    InDomainCases(t, vlan, j, b);
    InDomainCases(t, vlan, k, b);
    if k < n {
      ComponentsDiffer(edges, j, k, b);
    } else if j < n {
      ComponentNotIsolated(t, vlan, j, k - n);
    } else {
      IsolatedDiffer(t, vlan, j - n, k - n);
    }
  }

  lemma IsolatedHasNoEdge(t: Topology, vlan: int, k: nat)
    requires StpReady(t) && k < |IsolatedBridges(t, vlan)|
    ensures IsolatedBridges(t, vlan)[k].id == SortedIds(IsolatedIds(t, vlan))[k]
    ensures IsolatedBridges(t, vlan)[k].id in IsolatedIds(t, vlan)
    ensures IsolatedBridges(t, vlan)[k].id !in Ends(Elements(VlanEdges(t, vlan)))
  {
    hide StpReady, VlanEdges, WiringFor, BridgeRecords, Ends;
    IsolatedKnown(t, vlan);
    RecordsNamed(t);
    var ids := SortedIds(IsolatedIds(t, vlan));
    assert ids[k] in Elements(ids);
  }

  lemma IsolatedDiffer(t: Topology, vlan: int, j: nat, k: nat)
    requires StpReady(t) && j < k < |IsolatedBridges(t, vlan)|
    ensures IsolatedBridges(t, vlan)[j].id != IsolatedBridges(t, vlan)[k].id
  {
    hide StpReady, IsolatedBridges, IsolatedIds;
    IsolatedHasNoEdge(t, vlan, j);
    IsolatedHasNoEdge(t, vlan, k);
    IsolatedCount(t, vlan);
    LessIsStrictTotal();
  }

  lemma IsolatedCount(t: Topology, vlan: int)
    requires StpReady(t)
    ensures |IsolatedBridges(t, vlan)| == |SortedIds(IsolatedIds(t, vlan))|
  {
  }

  lemma SomeDomain(t: Topology, vlan: int, b: Id)
    requires StpReady(t) && (b in IsolatedIds(t, vlan) || b in Ends(Elements(VlanEdges(t, vlan))))
    ensures exists k :: 0 <= k < |Components(VlanEdges(t, vlan))| + |IsolatedBridges(t, vlan)| && InDomain(t, vlan, k, b)
  {
    hide StpReady, Components, VlanEdges, IsolatedBridges, Ends, IsolatedIds, Precedes;
    var edges := VlanEdges(t, vlan);
    var n := |Components(edges)|;
    if b in Ends(Elements(edges)) {
      DomainsPartitionBridges(edges);
      var i :| 0 <= i < n && HasBridge(Components(edges)[i], b);
      assert InDomain(t, vlan, i, b);
    } else {
      var ids := SortedIds(IsolatedIds(t, vlan));
      assert b in Elements(ids);
      var i :| 0 <= i < |ids| && ids[i] == b;
      IsolatedCount(t, vlan);
      IsolatedHasNoEdge(t, vlan, i);
      assert InDomain(t, vlan, n + i, b);
    }
  }

  /** Every link ends at ports of its own devices: checked when a topology is
      validated. */
  ghost predicate EndpointsExist(t: Topology) {
    forall l | l in t.links :: PortOn(t.devices, l.sourceDeviceId, l.sourcePortId) && PortOn(t.devices, l.targetDeviceId, l.targetPortId)
  }

  lemma EndActive(t: Topology, vlan: int, device: Id, port: Id)
    requires StpReady(t) && PortOn(t.devices, device, port) && Carries(WiringFor(t, vlan), port) && device in WiringFor(t, vlan).bridgeOf
    ensures WiringFor(t, vlan).bridgeOf[device] in ActiveBridges(Elements(t.devices), WiringFor(t, vlan).bridgeOf, vlan)
  {
    hide StpReady, BridgeOf, PortTable, PortCarriesVLAN, DistinctPorts;
    var d, p :| d in t.devices && d.id == device && p in d.ports && p.id == port;
    StpPorts(t);
    TableFinds(t.devices, d, p);
    assert CarriesVLAN(d, vlan);
    assert d in Elements(t.devices);
  }

  lemma StpPorts(t: Topology)
    requires StpReady(t)
    ensures DistinctPorts(t.devices)
  {
    hide DistinctPorts;
  }

  lemma EndsAreActive(t: Topology, vlan: int)
    requires StpReady(t) && EndpointsExist(t)
    ensures Ends(Elements(VlanEdges(t, vlan))) <= ActiveBridges(Elements(t.devices), WiringFor(t, vlan).bridgeOf, vlan)
  {
    hide StpReady, VlanEdges, WiringFor, ActiveBridges, PortOn, PortCarriesVLAN;
    var active := ActiveBridges(Elements(t.devices), WiringFor(t, vlan).bridgeOf, vlan);
    forall e | e in VlanEdges(t, vlan) ensures e.left in active && e.right in active {
      EdgeOfVlan(t, vlan, e);
      var l := e.links[0];
      assert l in e.links;
      EndActive(t, vlan, l.sourceDeviceId, l.sourcePortId);
      EndActive(t, vlan, l.targetDeviceId, l.targetPortId);
    }
  }

  /** A bridge with a port carrying the VLAN is in exactly one of the VLAN's
      domains, and no other bridge is in any. */
  lemma ActiveBridgesOnce(t: Topology, vlan: int, budget: Budget)
    requires StpReady(t) && EndpointsExist(t)
    ensures var r := VlanInstances(t, vlan, budget).0;
            && (forall b :: b in ActiveBridges(Elements(t.devices), WiringFor(t, vlan).bridgeOf, vlan) <==>
                  exists k :: 0 <= k < |r| && Reports(r[k], b))
            && (forall j, k, b | 0 <= j < k < |r| && Reports(r[j], b) :: !Reports(r[k], b))
  {
    hide StpReady, VlanEdges, WiringFor, ActiveBridges, Reports, VlanInstances, InDomain, Ends, IsolatedIds, Components, IsolatedBridges;
    var r := VlanInstances(t, vlan, budget).0;
    VlanNumbered(t, vlan, budget);
    forall b ensures b in ActiveBridges(Elements(t.devices), WiringFor(t, vlan).bridgeOf, vlan) <==>
                  exists k :: 0 <= k < |r| && Reports(r[k], b) {
      ActiveIffReported(t, vlan, budget, b);
    }
    forall j, k, b | 0 <= j < k < |r| && Reports(r[j], b) ensures !Reports(r[k], b) {
      VlanReports(t, vlan, budget, j, b);
      VlanReports(t, vlan, budget, k, b);
      DomainsDisjoint(t, vlan, j, k, b);
    }
  }

  lemma ActiveIffReported(t: Topology, vlan: int, budget: Budget, b: Id)
    requires StpReady(t) && EndpointsExist(t)
    ensures var r := VlanInstances(t, vlan, budget).0;
            b in ActiveBridges(Elements(t.devices), WiringFor(t, vlan).bridgeOf, vlan) <==>
              exists k :: 0 <= k < |r| && Reports(r[k], b)
  {
    hide StpReady, VlanEdges, WiringFor, ActiveBridges, Reports, VlanInstances, Ends, Components, IsolatedBridges, InDomain;
    var r := VlanInstances(t, vlan, budget).0;
    VlanNumbered(t, vlan, budget);
    EndsAreActive(t, vlan);
    if b in ActiveBridges(Elements(t.devices), WiringFor(t, vlan).bridgeOf, vlan) {
      SomeDomain(t, vlan, b);
      var k :| 0 <= k < |r| && InDomain(t, vlan, k, b);
      VlanReports(t, vlan, budget, k, b);
    }
    if k :| 0 <= k < |r| && Reports(r[k], b) {
      VlanReports(t, vlan, budget, k, b);
      DomainBridgeActive(t, vlan, k, b);
    }
  }

  lemma DomainBridgeActive(t: Topology, vlan: int, k: nat, b: Id)
    requires StpReady(t) && k < |Components(VlanEdges(t, vlan))| + |IsolatedBridges(t, vlan)| && InDomain(t, vlan, k, b)
    requires Ends(Elements(VlanEdges(t, vlan))) <= ActiveBridges(Elements(t.devices), WiringFor(t, vlan).bridgeOf, vlan)
    ensures b in ActiveBridges(Elements(t.devices), WiringFor(t, vlan).bridgeOf, vlan)
  {
    hide *;
    var edges := VlanEdges(t, vlan);
    var n := |Components(edges)|;
    InDomainCases(t, vlan, k, b);
    if k < n { DomainEndsWithin(edges, k); } else { IsolatedIsActive(t, vlan, k - n); }
  }

  lemma IsolatedIsActive(t: Topology, vlan: int, k: nat)
    requires StpReady(t) && k < |IsolatedBridges(t, vlan)|
    ensures IsolatedBridges(t, vlan)[k].id in ActiveBridges(Elements(t.devices), WiringFor(t, vlan).bridgeOf, vlan)
  {
    hide StpReady, VlanEdges, WiringFor, ActiveBridges, Ends, IsolatedBridges;
    IsolatedHasNoEdge(t, vlan, k);
  }

  lemma InDomainCases(t: Topology, vlan: int, k: nat, b: Id)
    requires StpReady(t) && k < |Components(VlanEdges(t, vlan))| + |IsolatedBridges(t, vlan)|
    ensures var n := |Components(VlanEdges(t, vlan))|;
            && (k < n ==> (InDomain(t, vlan, k, b) <==> b in Ends(Elements(Components(VlanEdges(t, vlan))[k]))))
            && (k >= n ==> (InDomain(t, vlan, k, b) <==> b == IsolatedBridges(t, vlan)[k - n].id))
  {
    hide StpReady, VlanEdges, Components, IsolatedBridges, Ends;
  }

  // ----- the budget of one analysis

  /** Identifiers in the paths of the domains that have edges. Bridges without
      edges have ports in no edge; their one-bridge paths are not charged. */
  ghost function ChargedEntries(s: seq<Instance>): nat {
    if s == [] then 0 else
      var last := s[|s| - 1];
      ChargedEntries(s[..|s| - 1]) + if last.ports == [] then 0 else TotalEntries(last.paths)
  }

  lemma {:induction false} ChargedJoin(s: seq<Instance>, more: seq<Instance>)
    ensures ChargedEntries(s + more) == ChargedEntries(s) + ChargedEntries(more)
  {
    if more == [] {
      assert s + more == s;
    } else {
      ChargedJoin(s, more[..|more| - 1]);
      assert (s + more)[..|s + more| - 1] == s + more[..|more| - 1];
    }
  }

  lemma {:induction false} ConnectedWithinBudget(settings: seq<Setting>, budget: Budget)
    requires AllReady(settings)
    ensures var (instances, left) := ConnectedInstances(settings, budget);
            ChargedEntries(instances) + left.paths <= budget.paths
  {
    hide Ready, InstanceOf, ConvergencePath, TotalEntries;
    if settings != [] {
      var front, last := settings[..|settings| - 1], settings[|settings| - 1];
      ConnectedWithinBudget(front, budget);
      var (instances, left) := ConnectedInstances(front, budget);
      PathsWithinBudget(last, left);
      var i := InstanceOf(last, left).0;
      assert (instances + [i])[..|instances|] == instances;
    }
  }

  lemma {:induction false} IsolatedCostNothing(bridges: seq<Bridge>, vlan: int, first: int, budget: Budget)
    ensures var (instances, left) := IsolatedInstances(bridges, vlan, first, budget);
            ChargedEntries(instances) == 0 && left.paths == budget.paths
  {
    if bridges != [] {
      var front := bridges[..|bridges| - 1];
      IsolatedCostNothing(front, vlan, first, budget);
      var (instances, left) := IsolatedInstances(front, vlan, first, budget);
      var i := IsolatedInstance(bridges[|bridges| - 1], vlan, first + |front|, left).0;
      assert (instances + [i])[..|instances|] == instances;
    }
  }

  lemma VlanWithinBudget(t: Topology, vlan: int, budget: Budget)
    requires StpReady(t)
    ensures var (instances, left) := VlanInstances(t, vlan, budget);
            ChargedEntries(instances) + left.paths <= budget.paths
  {
    hide StpReady, ConnectedInstances, IsolatedInstances, ChargedEntries, Components, VlanEdges, BridgeRecords;
    VlanAssembled(t, vlan, budget);
    ConnectedWithinBudget(Settings(t, vlan), budget);
    var (connected, left) := ConnectedInstances(Settings(t, vlan), budget);
    var bridges := Records(BridgeRecords(t), SortedIds(IsolatedIds(t, vlan)));
    var first := |Components(VlanEdges(t, vlan))| + 1;
    IsolatedCostNothing(bridges, vlan, first, left);
    ChargedJoin(connected, IsolatedInstances(bridges, vlan, first, left).0);
  }

  /** The paths of one analysis never hold more than 200000 identifiers. */
  lemma {:induction false} AnalysisWithinBudget(t: Topology, n: nat, budget: Budget)
    requires StpReady(t) && n <= |t.vlans|
    ensures var (instances, left) := AllInstances(t, n, budget);
            ChargedEntries(instances) + left.paths <= budget.paths
  {
    hide StpReady, AllInstances, VlanInstances, ChargedEntries;
    AllInstancesStep(t, n, budget);
    if n > 0 {
      AnalysisWithinBudget(t, n - 1, budget);
      var (instances, left) := AllInstances(t, n - 1, budget);
      VlanWithinBudget(t, t.vlans[n - 1], left);
      ChargedJoin(instances, VlanInstances(t, t.vlans[n - 1], left).0);
    } else {
      NothingCharged();
    }
  }

  lemma NothingCharged()
    ensures ChargedEntries([]) == 0
  {
  }
}
