/** What one VLAN's spanning-tree simulation works on, stated without loops and
    as a function of the sets of devices and links, so that nothing here can
    depend on the order in which they are stored. */
module StpModel {
  import opened Text
  import opened Sorting
  import opened Topology

  datatype Bridge = Bridge(id: Id, name: string, deviceIds: seq<Id>, priority: int)

  /** One logical edge: an ungrouped link, or the members of a link group that
      join the same two bridges. */
  datatype Edge = Edge(id: Id, groupId: Id, left: Id, right: Id, links: seq<Link>)

  const DEFAULT_STP_PRIORITY := 32768
  const HIGHEST_STP_PRIORITY := 61440

  function NormalizedSTPPriority(priority: int): int {
    if priority == 0 then DEFAULT_STP_PRIORITY else priority
  }

  /** The election order: lower priority first, then lower identifier. */
  predicate BridgeLess(a: Bridge, b: Bridge) {
    a.priority < b.priority || (a.priority == b.priority && Less(a.id, b.id))
  }

  ghost function DeviceIds(devices: set<Device>): set<Id> { set d | d in devices :: d.id }

  /** Group identifiers differ, no link is in two groups, and the primary link
      of a failover group is one of its members. */
  ghost predicate DisjointGroups(groups: seq<LinkGroup>) {
    && (forall i, j | 0 <= i < j < |groups| :: groups[i].id != groups[j].id)
    && (forall g | g in groups :: Distinct(g.linkIds) && (g.mode.Failover? ==> g.primaryLinkId in g.linkIds))
    && (forall g, h, l | g in groups && h in groups && l in g.linkIds && l in h.linkIds :: g == h)
  }

  /** System identifiers differ and no device is in two systems. */
  ghost predicate DisjointSystems(systems: seq<SwitchSystem>) {
    && (forall s, u | s in systems && u in systems && s.id == u.id :: s == u)
    && (forall s | s in systems :: Distinct(s.deviceIds))
    && (forall s, u, d | s in systems && u in systems && d in s.deviceIds && d in u.deviceIds :: s == u)
  }

  /** Bridges are named after devices and after systems: no name is both. */
  ghost predicate SeparateBridgeIds(devices: seq<Device>, systems: seq<SwitchSystem>) {
    && (forall d | d in devices :: WellFormedId(d.id))
    && (forall s | s in systems :: WellFormedId(s.id))
    && (forall d, s | d in devices && s in systems :: d.id != s.id)
  }

  /** Edges are named after links and after groups: no name is both. */
  ghost predicate SeparateEdgeIds(links: seq<Link>, groups: seq<LinkGroup>) {
    && (forall l | l in links :: WellFormedId(l.id))
    && (forall g | g in groups :: WellFormedId(g.id))
    && (forall l, g | l in links && g in groups :: l.id != g.id)
  }

  /** What the logical bridges need of a topology. */
  ghost predicate BridgeReady(t: Topology) {
    DistinctDevices(t.devices) && DisjointSystems(t.switchSystems) && SeparateBridgeIds(t.devices, t.switchSystems)
  }

  /** What the simulation needs of a topology. Everything here is checked when a
      topology is validated, except that identifiers of different kinds differ:
      only their being random keeps those apart. */
  ghost predicate StpReady(t: Topology) {
    && BridgeReady(t) && DistinctPorts(t.devices) && DistinctLinks(t.links)
    && DisjointGroups(t.linkGroups) && SeparateEdgeIds(t.links, t.linkGroups)
    && forall l | l in t.links :: l.sourcePortId != l.targetPortId
  }
}
