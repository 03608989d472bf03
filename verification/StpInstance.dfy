/** The report on one switching domain: bridge states, port states and paths. */
module StpInstance {
  import opened Outcomes
  import opened Text
  import opened Sorting
  import BreadthFirst
  import opened Topology
  import opened StpModel
  import opened StpEdges
  import opened StpEdgeFacts
  import opened StpComponents
  import opened StpTree
  import opened StpSearch
  import opened StpPaths

  datatype BridgeState = BridgeState(
    bridgeId: Id, name: string, deviceIds: seq<Id>, priority: int, rootPathCost: nat, rootPortIds: seq<Id>)

  datatype PortState = PortState(
    portId: Id, deviceId: Id, linkId: Id, groupId: Id, bridgeId: Id, peerId: Id, role: Role, forwarding: bool)

  datatype Instance = Instance(
    vlan: int, domain: int, rootId: Id, rootName: string,
    bridges: seq<BridgeState>, ports: seq<PortState>, paths: seq<PathRecord>,
    pathsTruncated: bool, membersTruncated: bool)

  /** What one analysis may still put out. */
  datatype Budget = Budget(paths: nat, members: nat)

  datatype Setting = Setting(vlan: int, domain: int, edges: seq<Edge>, bridges: map<Id, Bridge>, w: Wiring)

  /** No link is in two edges or joins a port to itself. */
  ghost predicate LinksApart(edges: set<Edge>) {
    && (forall e | e in edges :: Distinct(e.links))
    && (forall e, l | e in edges && l in e.links :: l.sourcePortId != l.targetPortId)
    && (forall e, f, l, m | e in edges && f in edges && l in e.links && m in f.links && l.id == m.id :: e == f && l == m)
  }

  ghost predicate Ready(x: Setting) {
    && Ascending(EdgeLess, x.edges) && Domain(Elements(x.edges), x.bridges)
    && Registered(x.bridges, Ends(Elements(x.edges)))
    && LinksApart(Elements(x.edges)) && forall e | e in x.edges :: Joins(x.w, e)
  }

  /** The bridges of the domain in election order. */
  ghost function Order(x: Setting): (ids: seq<Id>)
    requires Ready(x)
    ensures Elements(ids) == Ends(Elements(x.edges)) && |ids| == |Ends(Elements(x.edges))|
  {
    Ranked(x.bridges, Ends(Elements(x.edges)))
  }

  ghost function RootOf(x: Setting): (root: Id)
    requires Ready(x)
    ensures IsElected(x.bridges, Ends(Elements(x.edges)), root)
  {
    DomainHasBridge(x);
    FirstIsElected(x.bridges, Ends(Elements(x.edges)));
    Order(x)[0]
  }

  lemma DomainHasBridge(x: Setting)
    requires Ready(x)
    ensures Ends(Elements(x.edges)) != {}
  {
    var e :| e in Elements(x.edges);
    assert e.left in Ends(Elements(x.edges));
  }

  ghost function TreeFor(x: Setting): (t: Tree)
    requires Ready(x)
    ensures Grown(Elements(x.edges), RootOf(x), t)
    ensures t.dist.Keys == Ends(Elements(x.edges))
  {
    ConvergedTree(Elements(x.edges), x.bridges, RootOf(x));
    Converged(Elements(x.edges), RootOf(x))
  }

  // ----- bridge states

  /** The ports of b on the links of the edge it hangs by. */
  function RootPorts(bridgeOf: map<Id, Id>, links: seq<Link>, b: Id): seq<Id> {
    if links == [] then [] else
      var l := links[|links| - 1];
      RootPorts(bridgeOf, links[..|links| - 1], b) +
        if l.sourceDeviceId in bridgeOf && bridgeOf[l.sourceDeviceId] == b then [l.sourcePortId]
        else if l.targetDeviceId in bridgeOf && bridgeOf[l.targetDeviceId] == b then [l.targetPortId] else []
  }

  ghost function UpLinks(x: Setting, b: Id): seq<Link>
    requires Ready(x)
  {
    if b in TreeFor(x).parent then UpEdge(Elements(x.edges), RootOf(x), TreeFor(x), b).links else []
  }

  ghost function StateOf(x: Setting, b: Id, members: nat): BridgeState
    requires Ready(x) && b in Ends(Elements(x.edges))
  {
    var record := x.bridges[b];
    BridgeState(b, record.name, if |record.deviceIds| > members then [] else record.deviceIds,
                record.priority, TreeFor(x).dist[b], SortIds(RootPorts(x.w.bridgeOf, UpLinks(x, b), b)))
  }

  datatype Report = Report(bridges: seq<BridgeState>, paths: seq<PathRecord>, pathsTruncated: bool, membersTruncated: bool, budget: Budget)

  /** Reporting one more bridge. */
  ghost function Reported(x: Setting, r: Report, b: Id): Report
    requires Ready(x) && b in Ends(Elements(x.edges))
  {
    var size := |x.bridges[b].deviceIds|;
    var (path, left) := ChargedPath(Elements(x.edges), RootOf(x), TreeFor(x), b, r.budget.paths);
    Report(r.bridges + [StateOf(x, b, r.budget.members)],
           if path.Some? then r.paths + [path.value] else r.paths,
           r.pathsTruncated || path.None?,
           r.membersTruncated || size > r.budget.members,
           Budget(left, if size > r.budget.members then r.budget.members else r.budget.members - size))
  }

  ghost function ReportUpTo(x: Setting, n: nat, budget: Budget): Report
    requires Ready(x) && n <= |Order(x)|
  {
    if n == 0 then Report([], [], false, false, budget) else
      var ids := Order(x);
      assert ids[n - 1] in Elements(ids);
      Reported(x, ReportUpTo(x, n - 1, budget), ids[n - 1])
  }

  // ----- port states

  /** stpPhysicalPortState. */
  function PhysicalPort(portId: Id, deviceId: Id, linkId: Id, bridgeOf: map<Id, Id>, e: Edge, leftRole: Role,
                        rightRole: Role): PortState {
    var bridge := if deviceId in bridgeOf then bridgeOf[deviceId] else "";
    var (role, peer) := if bridge == e.right then (rightRole, e.left) else (leftRole, e.right);
    PortState(portId, deviceId, linkId, e.groupId, bridge, peer, role, !role.BlockedRole?)
  }

  ghost function RolesIn(x: Setting, e: Edge): (Role, Role)
    requires Ready(x) && e in x.edges
  {
    RolesOfEdge(Elements(x.edges), RootOf(x), TreeFor(x), x.bridges, e);
    EdgeRoles(e, TreeFor(x), x.bridges)
  }

  ghost function SourcePort(x: Setting, e: Edge, l: Link): PortState
    requires Ready(x) && e in x.edges
  {
    PhysicalPort(l.sourcePortId, l.sourceDeviceId, l.id, x.w.bridgeOf, e, RolesIn(x, e).0, RolesIn(x, e).1)
  }

  ghost function TargetPort(x: Setting, e: Edge, l: Link): PortState
    requires Ready(x) && e in x.edges
  {
    PhysicalPort(l.targetPortId, l.targetDeviceId, l.id, x.w.bridgeOf, e, RolesIn(x, e).0, RolesIn(x, e).1)
  }

  ghost function PortsOf(x: Setting, e: Edge): set<PortState>
    requires Ready(x) && e in x.edges
  {
    (set l | l in e.links :: SourcePort(x, e, l)) + (set l | l in e.links :: TargetPort(x, e, l))
  }

  ghost function AllPorts(x: Setting): set<PortState>
    requires Ready(x)
  {
    set e, p | e in x.edges && p in PortsOf(x, e) :: p
  }

  predicate PortLess(p: PortState, q: PortState) {
    Less(p.linkId, q.linkId) || (p.linkId == q.linkId && Less(p.portId, q.portId))
  }

  lemma PortOrder(x: Setting)
    requires Ready(x)
    ensures StrictOrder(PortLess) && Comparable(PortLess, AllPorts(x))
  {
    forall p, q | p in AllPorts(x) && q in AllPorts(x) ensures PortLess(p, q) || p == q || PortLess(q, p) {
      var e :| e in x.edges && p in PortsOf(x, e);
      var f :| f in x.edges && q in PortsOf(x, f);
      PortsCompare(x, e, f, p, q);
    }
    LessIsStrictTotal();
  }

  lemma PortsCompare(x: Setting, e: Edge, f: Edge, p: PortState, q: PortState)
    requires Ready(x) && e in x.edges && f in x.edges && p in PortsOf(x, e) && q in PortsOf(x, f)
    ensures PortLess(p, q) || p == q || PortLess(q, p)
  {
    hide RolesIn, Domain, Ends;
    LessTotal(p.linkId, q.linkId);
    LessTotal(p.portId, q.portId);
    var l :| l in e.links && (p == SourcePort(x, e, l) || p == TargetPort(x, e, l));
    var m :| m in f.links && (q == SourcePort(x, f, m) || q == TargetPort(x, f, m));
    assert e in Elements(x.edges) && f in Elements(x.edges);
  }

  ghost function SortedPorts(x: Setting): (r: seq<PortState>)
    requires Ready(x)
    ensures Elements(r) == AllPorts(x) && Ascending(PortLess, r)
  {
    PortOrder(x);
    SortedSet(PortLess, AllPorts(x))
  }

  // ----- the instance

  ghost function InstanceOf(x: Setting, budget: Budget): (Instance, Budget)
    requires Ready(x)
  {
    var r := ReportUpTo(x, |Order(x)|, budget);
    (Instance(x.vlan, x.domain, RootOf(x), x.bridges[RootOf(x)].name, r.bridges, SortedPorts(x), r.paths,
              r.pathsTruncated, r.membersTruncated), r.budget)
  }
}
