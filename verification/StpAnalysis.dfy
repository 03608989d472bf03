/** simulateSTP, and why its result does not depend on the order in which the
    topology stores devices and links. */
module StpAnalysis {
  import opened Text
  import opened Sorting
  import opened Topology
  import opened Ports
  import opened StpModel
  import opened StpBridges
  import opened StpEdges
  import opened StpEdgeFacts
  import opened StpComponents
  import opened StpDomains
  import opened StpTree
  import opened StpInstance
  import opened StpPaths
  import opened StpComponentSimulation
  import opened StpSimulation

  // ----- the program

  method PortsCarry(ports: seq<Port>, vlan: int) returns (carries: bool)
    ensures carries <==> exists p :: p in ports && PortCarriesVLAN(p, vlan)
  {
    for i := 0 to |ports|
      invariant forall k | 0 <= k < i :: !PortCarriesVLAN(ports[k], vlan)
    {
      if PortCarriesVLAN(ports[i], vlan) { return true; }
    }
    return false;
  }

  /** stpActiveBridgeIDs. */
  method ActiveIds(devices: seq<Device>, bridgeOf: map<Id, Id>, vlan: int) returns (active: set<Id>)
    ensures active == ActiveBridges(Elements(devices), bridgeOf, vlan)
  {
    active := {};
    for i := 0 to |devices|
      invariant active == ActiveBridges(Elements(devices[..i]), bridgeOf, vlan)
    {
      assert Elements(devices[..i + 1]) == Elements(devices[..i]) + {devices[i]} by {
        assert devices[..i + 1] == devices[..i] + [devices[i]];
      }
      if devices[i].id in bridgeOf {
        var carries := PortsCarry(devices[i].ports, vlan);
        assert carries <==> CarriesVLAN(devices[i], vlan);
        if carries { active := active + {bridgeOf[devices[i].id]}; }
      }
    }
    assert devices[..|devices|] == devices;
  }

  lemma EndsAdd(edges: seq<Edge>, i: nat)
    requires i < |edges|
    ensures Ends(Elements(edges[..i + 1])) == Ends(Elements(edges[..i])) + {edges[i].left, edges[i].right}
  {
    assert edges[..i + 1] == edges[..i] + [edges[i]];
    EndsGrow(edges[..i], edges[i]);
  }

  method EndsOf(edges: seq<Edge>) returns (ends: set<Id>)
    ensures ends == Ends(Elements(edges))
  {
    ends := {};
    assert Ends(Elements(edges[..0])) == {};
    for i := 0 to |edges|
      invariant ends == Ends(Elements(edges[..i]))
    {
      EndsAdd(edges, i);
      ends := ends + {edges[i].left, edges[i].right};
    }
    assert edges[..|edges|] == edges;
  }

  lemma NextConnected(settings: seq<Setting>, i: nat, budget: Budget)
    requires AllReady(settings) && i < |settings|
    ensures AllReady(settings[..i]) && AllReady(settings[..i + 1]) && Ready(settings[i])
    ensures var (instances, left) := ConnectedInstances(settings[..i], budget);
            var (instance, left') := InstanceOf(settings[i], left);
            ConnectedInstances(settings[..i + 1], budget) == (instances + [instance], left')
  {
    hide Ready, InstanceOf;
    assert settings[..i + 1][..i] == settings[..i];
  }

  /** The domains with edges, and the bridges they connect. */
  method SimulateDomains(t: Topology, vlan: int, domains: seq<seq<Edge>>, bridges: map<Id, Bridge>, w: Wiring,
                         budget: Budget)
    returns (instances: seq<Instance>, left: Budget)
    requires AllReady(DomainSettings(domains, vlan, bridges, w))
    ensures (instances, left) == ConnectedInstances(DomainSettings(domains, vlan, bridges, w), budget)
  {
    hide *;
    ghost var settings := DomainSettings(domains, vlan, bridges, w);
    instances, left := [], budget;
    NoneConnected(settings, budget);
    for i := 0 to |domains|
      invariant AllReady(settings[..i]) && (instances, left) == ConnectedInstances(settings[..i], budget)
    {
      NextConnected(settings, i, budget);
      var instance;
      instance, left := SimulateComponent(Setting(vlan, i + 1, domains[i], bridges, w), left);
      instances := instances + [instance];
    }
    assert settings[..|settings|] == settings;
  }

  lemma NoneConnected(settings: seq<Setting>, budget: Budget)
    ensures AllReady(settings[..0]) && ConnectedInstances(settings[..0], budget) == ([], budget)
  {
  }

  /** connectedBridges: the bridges of all domains with edges. */
  method ConnectedBridges(domains: seq<seq<Edge>>) returns (connected: set<Id>)
    ensures connected == BridgesOf(domains)
  {
    connected := {};
    for i := 0 to |domains|
      invariant connected == BridgesOf(domains[..i])
    {
      hide Ends;
      assert domains[..i + 1] == domains[..i] + [domains[i]];
      var ends := EndsOf(domains[i]);
      connected := connected + ends;
    }
    assert domains[..|domains|] == domains;
  }

  lemma NextIsolated(records: map<Id, Bridge>, kept: seq<Id>, b: Id, vlan: int, first: int, budget: Budget)
    requires Elements(kept) <= records.Keys && b in records
    ensures Elements(kept + [b]) <= records.Keys && Elements(kept + [b]) == Elements(kept) + {b}
    ensures var (instances, left) := IsolatedInstances(Records(records, kept), vlan, first, budget);
            var (instance, left') := IsolatedInstance(records[b], vlan, first + |kept|, left);
            IsolatedInstances(Records(records, kept + [b]), vlan, first, budget) == (instances + [instance], left')
  {
    hide IsolatedInstance;
    assert Elements(kept + [b]) == Elements(kept) + {b};
    var all := Records(records, kept + [b]);
    assert all == Records(records, kept) + [records[b]];
    assert all[..|all| - 1] == Records(records, kept);
  }

  /** The isolated bridges among the first i, in order. */
  ghost predicate Kept(ids: seq<Id>, i: nat, connected: set<Id>, kept: seq<Id>)
    requires i <= |ids|
  {
    Ascending(Less, kept) && Elements(kept) == Elements(ids[..i]) - connected
  }

  lemma KeepNext(ids: seq<Id>, i: nat, connected: set<Id>, kept: seq<Id>)
    requires i < |ids| && Ascending(Less, ids) && Kept(ids, i, connected, kept)
    ensures ids[i] in Elements(ids)
    ensures Kept(ids, i + 1, connected, if ids[i] in connected then kept else kept + [ids[i]])
  {
    hide Less;
    assert ids[..i + 1] == ids[..i] + [ids[i]];
    ElementsPush(ids[..i], ids[i]);
    ElementsPush(kept, ids[i]);
    forall k | 0 <= k < |kept| ensures Less(kept[k], ids[i]) {
      assert kept[k] in Elements(kept);
      var j :| 0 <= j < i && ids[j] == kept[k];
    }
  }

  lemma AllKept(ids: seq<Id>, active: set<Id>, connected: set<Id>, kept: seq<Id>)
    requires Elements(ids) == active && Kept(ids, |ids|, connected, kept)
    ensures kept == SortedIds(active - connected)
  {
    assert ids[..|ids|] == ids;
    LessIsStrictTotal();
    AscendingUnique(Less, kept, SortedIds(active - connected));
  }

  lemma NoneIsolated(ids: seq<Id>, connected: set<Id>, records: map<Id, Bridge>, vlan: int, first: int, budget: Budget)
    ensures Kept(ids, 0, connected, []) && Elements<Id>([]) <= records.Keys
    ensures IsolatedInstances(Records(records, []), vlan, first, budget) == ([], budget)
  {
    assert ids[..0] == [];
    assert Elements<Id>([]) == {};
  }

  /** The loop over the active bridges in order, passing over connected ones. */
  method SimulateIsolated(active: set<Id>, connected: set<Id>, records: map<Id, Bridge>, vlan: int, first: int,
                          budget: Budget)
    returns (instances: seq<Instance>, left: Budget)
    requires active - connected <= records.Keys
    ensures (instances, left) == IsolatedInstances(Records(records, SortedIds(active - connected)), vlan, first, budget)
  {
    hide *;
    var ids := SortedKeys(active);
    var nextDomain := first;
    ghost var kept: seq<Id> := [];
    instances, left := [], budget;
    NoneIsolated(ids, connected, records, vlan, first, budget);
    for i := 0 to |ids|
      invariant nextDomain == first + |kept|
      invariant Kept(ids, i, connected, kept) && Elements(kept) <= records.Keys
      invariant (instances, left) == IsolatedInstances(Records(records, kept), vlan, first, budget)
    {
      KeepNext(ids, i, connected, kept);
      if ids[i] !in connected {
        NextIsolated(records, kept, ids[i], vlan, first, budget);
        var instance;
        instance, left := Isolate(records[ids[i]], vlan, nextDomain, left);
        instances := instances + [instance];
        kept := kept + [ids[i]];
        nextDomain := nextDomain + 1;
      }
    }
    AllKept(ids, active, connected, kept);
  }

  /** The instance of a bridge without an edge. */
  method Isolate(b: Bridge, vlan: int, domain: int, budget: Budget) returns (instance: Instance, left: Budget)
    ensures (instance, left) == IsolatedInstance(b, vlan, domain, budget)
  {
    var members, complete, membersLeft := BridgeMembers(b, budget.members);
    instance := Instance(vlan, domain, b.id, b.name, [BridgeState(b.id, b.name, members, b.priority, 0, [])], [],
                         [PathRecord(b.id, [b.id], [])], false, !complete);
    left := Budget(budget.paths, membersLeft);
  }

  ghost function BridgesOf(domains: seq<seq<Edge>>): set<Id> {
    set d, v | d in domains && v in Ends(Elements(d)) :: v
  }

  /** The bridges of the domains are the ends of the edges. */
  lemma DomainsCoverEnds(edges: seq<Edge>)
    ensures BridgesOf(Components(edges)) == Ends(Elements(edges))
  {
    hide Ends, Components, Elements;
    var domains := Components(edges);
    forall v | v in Ends(Elements(edges)) ensures v in BridgesOf(domains) { CoveredEnd(edges, v); }
    forall d | d in domains ensures Ends(Elements(d)) <= Ends(Elements(edges)) {
      var i :| 0 <= i < |domains| && domains[i] == d;
      DomainEndsWithin(edges, i);
    }
  }

  lemma CoveredEnd(edges: seq<Edge>, v: Id)
    requires v in Ends(Elements(edges))
    ensures v in BridgesOf(Components(edges))
  {
    hide Ends, Components, Precedes;
    var domains := Components(edges);
    DomainsPartitionBridges(edges);
    var i :| 0 <= i < |domains| && HasBridge(domains[i], v);
    assert domains[i] in domains;
  }

  lemma DomainEndsWithin(edges: seq<Edge>, i: nat)
    requires i < |Components(edges)|
    ensures Ends(Elements(Components(edges)[i])) <= Ends(Elements(edges))
  {
    EndsWithin(Elements(Components(edges)[i]), Elements(edges));
  }

  lemma VlanPrepared(t: Topology, vlan: int)
    requires StpReady(t)
    ensures Ascending(EdgeLess, VlanEdges(t, vlan)) && SameIdSameEdge(Elements(VlanEdges(t, vlan)))
    ensures UniqueLinks(Elements(t.links)) && SameIdSameEdge(AllEdges(WiringFor(t, vlan), Elements(t.links), t.linkGroups))
    ensures VlanEdges(t, vlan) == SortedEdges(WiringFor(t, vlan), Elements(t.links), t.linkGroups)
    ensures AllReady(DomainSettings(Components(VlanEdges(t, vlan)), vlan, BridgeRecords(t), WiringFor(t, vlan)))
    ensures IsolatedIds(t, vlan) <= BridgeRecords(t).Keys
    ensures IsolatedIds(t, vlan) ==
      ActiveBridges(Elements(t.devices), WiringFor(t, vlan).bridgeOf, vlan) - Ends(Elements(VlanEdges(t, vlan)))
  {
    SettingsReady(t, vlan);
    IsolatedKnown(t, vlan);
    VlanIdsDiffer(t, vlan);
    LinksUnique(t.links);
    EdgeIdsDiffer(WiringFor(t, vlan), t.links, t.linkGroups);
  }

  lemma VlanAssembled(t: Topology, vlan: int, budget: Budget)
    requires StpReady(t)
    ensures AllReady(Settings(t, vlan)) && IsolatedIds(t, vlan) <= BridgeRecords(t).Keys
    ensures Settings(t, vlan) == DomainSettings(Components(VlanEdges(t, vlan)), vlan, BridgeRecords(t), WiringFor(t, vlan))
    ensures var (connected, left) := ConnectedInstances(Settings(t, vlan), budget);
            var (isolated, left') := IsolatedInstances(Records(BridgeRecords(t), SortedIds(IsolatedIds(t, vlan))), vlan,
                                                       |Components(VlanEdges(t, vlan))| + 1, left);
            VlanInstances(t, vlan, budget) == (connected + isolated, left')
  {
    hide StpReady, ConnectedInstances, IsolatedInstances, BridgeRecords, VlanEdges, Components, IsolatedIds;
    SettingsReady(t, vlan);
    IsolatedKnown(t, vlan);
  }

  /** The body of the loop over VLANs. */
  method SimulateVlan(t: Topology, vlan: int, w: Wiring, bridges: map<Id, Bridge>, budget: Budget)
    returns (instances: seq<Instance>, left: Budget)
    requires StpReady(t) && w == WiringFor(t, vlan) && bridges == BridgeRecords(t)
    ensures (instances, left) == VlanInstances(t, vlan, budget)
  {
    ReadyParts(t);
    hide *;
    VlanPrepared(t, vlan);
    VlanAssembled(t, vlan, budget);
    var edges := SortEdges(t.links, t.linkGroups, w);
    var domains := SplitEdges(edges);
    var connectedInstances, afterDomains := SimulateDomains(t, vlan, domains, bridges, w, budget);
    var connected := ConnectedBridges(domains);
    DomainsCoverEnds(edges);
    var active := ActiveIds(t.devices, w.bridgeOf, vlan);
    var isolated;
    isolated, left := SimulateIsolated(active, connected, bridges, vlan, |domains| + 1, afterDomains);
    instances := connectedInstances + isolated;
  }

  lemma ReadyParts(t: Topology)
    requires StpReady(t)
    ensures BridgeReady(t) && DistinctPorts(t.devices) && DistinctLinks(t.links)
    ensures DisjointGroups(t.linkGroups) && SeparateEdgeIds(t.links, t.linkGroups)
  {
  }

  /** simulateSTP. */
  method SimulateStp(t: Topology) returns (instances: seq<Instance>)
    requires StpReady(t) && Distinct(t.vlans)
    ensures instances == Simulated(t)
  {
    hide *;
    ReadyParts(t);
    var bridgeOf, bridges := LogicalBridges(t);
    var ports := BuildPortTable(t.devices);
    WiringParts(t, bridgeOf, bridges, ports);
    var all: seq<Instance>, budget := [], FullBudget;
    AllInstancesStep(t, 0, budget);
    for i := 0 to |t.vlans|
      invariant (all, budget) == AllInstances(t, i, FullBudget)
    {
      AllInstancesStep(t, i + 1, FullBudget);
      WiringParts(t, bridgeOf, bridges, ports);
      var more;
      more, budget := SimulateVlan(t, t.vlans[i], Wiring(bridgeOf, ports, t.vlans[i]), bridges, budget);
      all := all + more;
    }
    instances := SortInstances(t, all);
  }

  lemma WiringParts(t: Topology, bridgeOf: map<Id, Id>, bridges: map<Id, Bridge>, ports: map<Id, Port>)
    requires StpReady(t) && UniqueBridges(AllBridges(Elements(t.devices), t.switchSystems))
    requires bridgeOf == BridgeOf(Elements(t.devices), t.switchSystems)
    requires bridges == Bridges(Elements(t.devices), t.switchSystems)
    requires ports == PortTable(Elements(t.devices))
    ensures bridges == BridgeRecords(t)
    ensures forall vlan :: Wiring(bridgeOf, ports, vlan) == WiringFor(t, vlan)
  {
    hide StpReady, BridgeOf, Bridges, PortTable, AllBridges;
  }

  method SortInstances(t: Topology, all: seq<Instance>) returns (instances: seq<Instance>)
    requires StpReady(t) && Distinct(t.vlans) && all == AllInstances(t, |t.vlans|, FullBudget).0
    ensures instances == Simulated(t)
  {
    hide StpReady, AllInstances, Distinct, Numbered;
    InstancesNumbered(t, |t.vlans|, FullBudget);
    InstanceOrder(all);
    instances := Sort(all, InstanceLess);
    AscendingUnique(InstanceLess, instances, SortedSet(InstanceLess, Elements(all)));
  }

  // ----- order independence

  /** The same topology with devices and links stored in another order. */
  ghost predicate Reordered(t: Topology, t': Topology) {
    && t' == t.(devices := t'.devices, links := t'.links)
    && multiset(t.devices) == multiset(t'.devices) && multiset(t.links) == multiset(t'.links)
  }

  lemma SameElements<T>(s: seq<T>, r: seq<T>)
    requires multiset(s) == multiset(r)
    ensures Elements(s) == Elements(r)
  {
    assert forall x :: x in s <==> x in multiset(s);
  }

  /** Elements told apart by a key stay told apart in any order. */
  lemma DistinctReordered<T>(s: seq<T>, r: seq<T>, key: T -> Id)
    requires multiset(s) == multiset(r) && forall i, j | 0 <= i < j < |s| :: key(s[i]) != key(s[j])
    ensures forall i, j | 0 <= i < j < |r| :: key(r[i]) != key(r[j])
  {
    forall i, j | 0 <= i < j < |r| ensures key(r[i]) != key(r[j]) {
      assert r[i] in multiset(s) && r[j] in multiset(s) by { assert r[i] in multiset(r) && r[j] in multiset(r); }
      var a :| 0 <= a < |s| && s[a] == r[i];
      var b :| 0 <= b < |s| && s[b] == r[j];
      if r[i] == r[j] {
        TwoOccurrences(r, i, j);
        assert Distinct(s);
        OneOccurrence(s, r[i]);
        assert false;
      }
    }
  }

  lemma ReorderedReady(t: Topology, t': Topology)
    requires StpReady(t) && Reordered(t, t')
    ensures StpReady(t')
  {
    DistinctReordered(t.devices, t'.devices, (d: Device) => d.id);
    DistinctReordered(t.links, t'.links, (l: Link) => l.id);
    SameElements(t.devices, t'.devices);
    SameElements(t.links, t'.links);
    assert forall d :: d in t'.devices <==> d in t.devices by {
      assert forall d :: d in t'.devices <==> d in Elements(t'.devices);
    }
    assert forall l :: l in t'.links <==> l in t.links by {
      assert forall l :: l in t'.links <==> l in Elements(t'.links);
    }
  }

  lemma SameVlan(t: Topology, t': Topology, vlan: int, budget: Budget)
    requires StpReady(t) && StpReady(t')
    requires Elements(t.devices) == Elements(t'.devices) && Elements(t.links) == Elements(t'.links)
    requires t.switchSystems == t'.switchSystems && t.linkGroups == t'.linkGroups
    ensures VlanInstances(t, vlan, budget) == VlanInstances(t', vlan, budget)
  {
    SameParts(t, t', vlan);
    hide *;
    VlanAssembled(t, vlan, budget);
    VlanAssembled(t', vlan, budget);
  }

  lemma SameParts(t: Topology, t': Topology, vlan: int)
    requires StpReady(t) && StpReady(t')
    requires Elements(t.devices) == Elements(t'.devices) && Elements(t.links) == Elements(t'.links)
    requires t.switchSystems == t'.switchSystems && t.linkGroups == t'.linkGroups
    ensures BridgeRecords(t) == BridgeRecords(t') && WiringFor(t, vlan) == WiringFor(t', vlan)
    ensures VlanEdges(t, vlan) == VlanEdges(t', vlan) && IsolatedIds(t, vlan) == IsolatedIds(t', vlan)
  {
    hide StpReady, Elements;
  }

  lemma {:induction false} SameInstances(t: Topology, t': Topology, n: nat, budget: Budget)
    requires StpReady(t) && StpReady(t') && n <= |t.vlans| && t.vlans == t'.vlans
    requires Elements(t.devices) == Elements(t'.devices) && Elements(t.links) == Elements(t'.links)
    requires t.switchSystems == t'.switchSystems && t.linkGroups == t'.linkGroups
    ensures AllInstances(t, n, budget) == AllInstances(t', n, budget)
  {
    hide *;
    AllInstancesStep(t, n, budget);
    AllInstancesStep(t', n, budget);
    if n > 0 {
      SameInstances(t, t', n - 1, budget);
      SameVlan(t, t', t.vlans[n - 1], AllInstances(t, n - 1, budget).1);
    }
  }

  /** Reordering the devices and the links of a topology leaves everything that
      is reported unchanged: domains, roots, roles, paths and their order. */
  lemma SimulationIgnoresOrder(t: Topology, t': Topology)
    requires StpReady(t) && Distinct(t.vlans) && Reordered(t, t')
    ensures StpReady(t') && Simulated(t') == Simulated(t)
  {
    hide StpReady, AllInstances;
    ReorderedReady(t, t');
    SameElements(t.devices, t'.devices);
    SameElements(t.links, t'.links);
    SameInstances(t, t', |t.vlans|, FullBudget);
  }
}
