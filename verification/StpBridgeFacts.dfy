/** Which bridges there are, in the topology's own terms: whose bridge a switch
    belongs to, what each bridge is called, and which of several is the root. */
module StpBridgeFacts {
  import opened Text
  import opened Sorting
  import opened Topology
  import opened StpModel
  import opened StpBridges
  import opened StpSearch
  import opened StpInstance
  import opened StpReportFacts
  import opened StpSimulation
  import opened StpReport
  import opened StpLoops

  /** The priority a switch takes part with; zero stands for 32768. */
  function PriorityOf(d: Device): int { if d.stpPriority == 0 then 32768 else d.stpPriority }

  predicate MemberOf(t: Topology, d: Device, s: SwitchSystem) {
    d in t.devices && d.category.Switch? && s in t.switchSystems && d.id in s.deviceIds
  }

  predicate Alone(t: Topology, d: Device) {
    d in t.devices && d.category.Switch? && forall s | s in t.switchSystems :: d.id !in s.deviceIds
  }

  lemma OneDevice(t: Topology, d: Device, e: Device)
    requires BridgeReady(t) && d in t.devices && e in t.devices && d.id == e.id
    ensures d == e
  {
    hide DisjointSystems, SeparateBridgeIds;
    var i :| 0 <= i < |t.devices| && t.devices[i] == d;
    var j :| 0 <= j < |t.devices| && t.devices[j] == e;
  }

  /** A switch is part of its system's bridge, or its own; nothing else is part of
      one. */
  lemma BridgeOfSwitch(t: Topology, d: Device)
    requires BridgeReady(t) && d in t.devices
    ensures var bridgeOf := BridgeOf(Elements(t.devices), t.switchSystems);
            && (d.id in bridgeOf <==> d.category.Switch?)
            && (forall s | MemberOf(t, d, s) :: bridgeOf[d.id] == s.id)
            && (Alone(t, d) ==> bridgeOf[d.id] == d.id)
  {
    hide DisjointSystems, SeparateBridgeIds, DistinctDevices, BridgeIdOf;
    if d.id in SwitchIds(Elements(t.devices)) {
      var e :| e in t.devices && e.category.Switch? && e.id == d.id;
      OneDevice(t, d, e);
    }
    forall s | MemberOf(t, d, s) { BridgeIdOfMember(t.switchSystems, s, d.id); }
    if Alone(t, d) { LoneId(t.switchSystems, d.id); }
  }

  lemma LoneId(systems: seq<SwitchSystem>, id: Id)
    requires forall s | s in systems :: id !in s.deviceIds
    ensures !InSystem(systems, id) && BridgeIdOf(systems, id) == id
  {
  }

  /** A system's bridge has its name, its switches and the least of their
      priorities, which never exceeds 61440. */
  lemma SystemRecord(t: Topology, s: SwitchSystem)
    requires BridgeReady(t) && s in t.switchSystems && exists d :: MemberOf(t, d, s)
    ensures UniqueBridges(AllBridges(Elements(t.devices), t.switchSystems))
    ensures var bridges := Bridges(Elements(t.devices), t.switchSystems);
            && s.id in bridges && bridges[s.id].id == s.id && bridges[s.id].name == s.name
            && Ascending(Less, bridges[s.id].deviceIds)
            && (forall id :: id in bridges[s.id].deviceIds <==> exists d :: MemberOf(t, d, s) && d.id == id)
            && bridges[s.id].priority <= 61440 && (forall d | MemberOf(t, d, s) :: bridges[s.id].priority <= PriorityOf(d))
            && (bridges[s.id].priority == 61440 || exists d :: MemberOf(t, d, s) && bridges[s.id].priority == PriorityOf(d))
  {
    hide DisjointSystems, SeparateBridgeIds, DistinctDevices;
    var devices := Elements(t.devices);
    BridgesUnique(t);
    var d :| MemberOf(t, d, s);
    assert d in Members(devices, s);
    var b := SystemBridge(devices, s);
    assert b in AllBridges(devices, t.switchSystems);
    SystemIs(t, s);
  }

  lemma SystemIs(t: Topology, s: SwitchSystem)
    requires s in t.switchSystems
    ensures var b := SystemBridge(Elements(t.devices), s);
            && b.id == s.id && b.name == s.name && Ascending(Less, b.deviceIds)
            && (forall id :: id in b.deviceIds <==> exists d :: MemberOf(t, d, s) && d.id == id)
            && b.priority <= 61440 && (forall d | MemberOf(t, d, s) :: b.priority <= PriorityOf(d))
            && (b.priority == 61440 || exists d :: MemberOf(t, d, s) && b.priority == PriorityOf(d))
  {
    var members := Members(Elements(t.devices), s);
    var b := SystemBridge(Elements(t.devices), s);
    assert forall d :: d in members <==> MemberOf(t, d, s);
    forall id ensures id in b.deviceIds <==> exists d :: MemberOf(t, d, s) && d.id == id {
      assert id in b.deviceIds <==> id in Elements(b.deviceIds);
    }
    LeastOfAll(Priorities(members));
    forall d | MemberOf(t, d, s) ensures b.priority <= PriorityOf(d) { assert NormalizedSTPPriority(d.stpPriority) in Priorities(members); }
  }

  lemma LeastOfAll(priorities: set<int>)
    ensures var p := LeastPriority(priorities);
            p <= 61440 && (forall q | q in priorities :: p <= q) && (p == 61440 || p in priorities)
  {
  }

  /** A switch in no system is a bridge by itself, under its host name if it has one. */
  lemma LoneRecord(t: Topology, d: Device)
    requires BridgeReady(t) && Alone(t, d)
    ensures UniqueBridges(AllBridges(Elements(t.devices), t.switchSystems))
    ensures var bridges := Bridges(Elements(t.devices), t.switchSystems);
            && d.id in bridges && bridges[d.id].id == d.id && bridges[d.id].deviceIds == [d.id]
            && bridges[d.id].priority == PriorityOf(d)
            && (d.hostname != "" ==> bridges[d.id].name == d.hostname) && (d.hostname == "" ==> bridges[d.id].name == d.name)
  {
    hide DisjointSystems, SeparateBridgeIds, DistinctDevices;
    BridgesUnique(t);
    LoneId(t.switchSystems, d.id);
    assert DeviceBridge(d) in AllBridges(Elements(t.devices), t.switchSystems);
  }

  /** There are no other bridges. */
  lemma NoOtherBridge(t: Topology, id: Id)
    requires BridgeReady(t)
    ensures UniqueBridges(AllBridges(Elements(t.devices), t.switchSystems))
    ensures id in Bridges(Elements(t.devices), t.switchSystems) <==>
              (exists s, d :: MemberOf(t, d, s) && s.id == id) || exists d :: Alone(t, d) && d.id == id
  {
    hide DisjointSystems, SeparateBridgeIds, DistinctDevices, SystemBridge, DeviceBridge;
    BridgesUnique(t);
    var devices := Elements(t.devices);
    if id in Bridges(devices, t.switchSystems) {
      BridgeKinds(devices, t.switchSystems, Bridges(devices, t.switchSystems)[id]);
      if s :| s in t.switchSystems && Members(devices, s) != {} && s.id == id {
        var d :| d in Members(devices, s);
        assert MemberOf(t, d, s);
      }
    }
    if s, d :| MemberOf(t, d, s) && s.id == id { SystemRecord(t, s); }
    if d :| Alone(t, d) && d.id == id { LoneRecord(t, d); }
  }

  /** The elected root has the least priority, and the first identifier of those that
      share it. */
  lemma ElectedIff(bridges: map<Id, Bridge>, ids: set<Id>, root: Id)
    requires Registered(bridges, ids)
    ensures IsElected(bridges, ids, root) <==>
              && root in ids
              && forall v | v in ids && v != root ::
                   bridges[root].priority < bridges[v].priority || (bridges[root].priority == bridges[v].priority && Less(root, v))
  {
  }

  // ----- the report

  /** A bridge without edges is its own root; its members are told if the budget
      covers them. */
  lemma LoneTold(b: Bridge, vlan: int, domain: int, budget: Budget)
    ensures var (i, left) := IsolatedInstance(b, vlan, domain, budget);
            && i.vlan == vlan && i.domain == domain && i.rootId == b.id && i.rootName == b.name
            && |i.bridges| == 1 && i.bridges[0].bridgeId == b.id && i.bridges[0].rootPathCost == 0 && i.bridges[0].rootPortIds == []
            && Told(map[b.id := b], i.bridges, budget.members, left.members, i.membersTruncated)
            && i.ports == [] && !i.pathsTruncated && left.paths == budget.paths
            && |i.paths| == 1 && i.paths[0].bridgeId == b.id && i.paths[0].bridgeIds == [b.id] && i.paths[0].linkIds == []
  {
    var (i, left) := IsolatedInstance(b, vlan, domain, budget);
    var s := i.bridges[0];
    assert i.bridges == [s] && i.bridges[..0] == [] && TotalMembers([]) == 0;
    assert TotalMembers([s]) == TotalMembers([s][..0]) + |s.deviceIds|;
    assert TellsOf(map[b.id := b], budget.members, s);
    if Omits(map[b.id := b], s) { assert s in i.bridges; }
  }

  /** The report is in the order of the VLANs, and of the domains of each. */
  lemma ReportInOrder(t: Topology, j: nat, k: nat)
    requires StpReady(t) && Distinct(t.vlans) && j < k < |Simulated(t)|
    ensures var r := Simulated(t); r[j].vlan < r[k].vlan || (r[j].vlan == r[k].vlan && r[j].domain < r[k].domain)
  {
    hide StpReady, AllInstances;
    InstancesNumbered(t, |t.vlans|, FullBudget);
    InstanceOrder(AllInstances(t, |t.vlans|, FullBudget).0);
  }

  /** A loop names its VLAN, the devices of the domain as far as they are told, and the
      links with a blocked end, each once and ascending. */
  lemma LoopNames(i: Instance)
    ensures var loop := LoopOf(i);
            && loop.vlan == i.vlan && Ascending(Less, loop.deviceIds) && Ascending(Less, loop.linkIds)
            && (forall id :: id in loop.deviceIds <==> exists b :: b in i.bridges && id in b.deviceIds)
            && (forall id :: id in loop.linkIds <==> exists p :: p in i.ports && p.role.BlockedRole? && p.linkId == id)
            && (Loops([i]) == if exists p :: p in i.ports && p.role.BlockedRole? then [loop] else [])
  {
    var loop := LoopOf(i);
    assert forall id :: id in loop.deviceIds <==> id in Elements(loop.deviceIds);
    assert forall id :: id in loop.linkIds <==> id in Elements(loop.linkIds);
    assert [i][..0] == [];
    if p :| p in i.ports && p.role.BlockedRole? { assert p.linkId in BlockedLinks(i.ports); }
  }
}
