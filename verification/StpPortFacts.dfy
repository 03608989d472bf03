/** The ports a report lists: where they are, which of them lead to the root, and
    which end of a link is the designated one. */
module StpPortFacts {
  import opened Text
  import opened Sorting
  import opened Topology
  import opened StpModel
  import opened StpEdges
  import opened StpEdgeFacts
  import opened StpComponents
  import opened StpTree
  import opened StpSearch
  import opened StpPaths
  import opened StpInstance
  import opened StpComponentSimulation
  import opened StpTheorems

  // ----- where a port is

  /** The state of a link's port on the device, with the far end on another. */
  predicate StateOfEnd(w: Wiring, e: Edge, l: Link, port: Id, device: Id, far: Id, p: PortState) {
    && p.portId == port && p.deviceId == device && p.linkId == l.id && p.groupId == e.groupId
    && device in w.bridgeOf && p.bridgeId == w.bridgeOf[device]
    && far in w.bridgeOf && p.peerId == w.bridgeOf[far]
    && (p.forwarding <==> !p.role.BlockedRole?)
  }

  predicate SourceState(w: Wiring, e: Edge, l: Link, p: PortState) {
    StateOfEnd(w, e, l, l.sourcePortId, l.sourceDeviceId, l.targetDeviceId, p)
  }

  predicate TargetState(w: Wiring, e: Edge, l: Link, p: PortState) {
    StateOfEnd(w, e, l, l.targetPortId, l.targetDeviceId, l.sourceDeviceId, p)
  }

  lemma LinkJoins(x: Setting, e: Edge, l: Link)
    requires Ready(x) && e in x.edges && l in e.links
    ensures l.sourceDeviceId in x.w.bridgeOf && l.targetDeviceId in x.w.bridgeOf && e.left != e.right
    ensures var s, t := x.w.bridgeOf[l.sourceDeviceId], x.w.bridgeOf[l.targetDeviceId];
            (s == e.left && t == e.right) || (s == e.right && t == e.left)
  {
    hide Domain, LinksApart, Registered;
    assert Joins(x.w, e);
    LessIrreflexive(e.left);
  }

  lemma EndStates(x: Setting, e: Edge, l: Link)
    requires Ready(x) && e in x.edges && l in e.links
    ensures SourceState(x.w, e, l, SourcePort(x, e, l)) && TargetState(x.w, e, l, TargetPort(x, e, l))
    ensures SourcePort(x, e, l).role == if SourcePort(x, e, l).bridgeId == e.left then RolesIn(x, e).0 else RolesIn(x, e).1
    ensures TargetPort(x, e, l).role == if TargetPort(x, e, l).bridgeId == e.left then RolesIn(x, e).0 else RolesIn(x, e).1
  {
    hide Ready, RolesIn;
    LinkJoins(x, e, l);
  }

  /** A report lists, for every link of the domain, the state of its two ports, and
      nothing else, sorted by link and port. */
  lemma PortsAreLinkEnds(x: Setting, budget: Budget)
    requires Ready(x)
    ensures var ports := InstanceOf(x, budget).0.ports;
            && (forall e, l | e in x.edges && l in e.links ::
                  (exists p :: p in ports && SourceState(x.w, e, l, p)) && exists p :: p in ports && TargetState(x.w, e, l, p))
            && (forall p | p in ports :: exists e, l :: e in x.edges && l in e.links && (SourceState(x.w, e, l, p) || TargetState(x.w, e, l, p)))
            && forall i, j | 0 <= i < j < |ports| ::
                 Less(ports[i].linkId, ports[j].linkId) || (ports[i].linkId == ports[j].linkId && Less(ports[i].portId, ports[j].portId))
  {
    hide Ready, InstanceOf, SourceState, TargetState, SourcePort, TargetPort, RolesIn;
    var ports := InstanceOf(x, budget).0.ports;
    forall e, l | e in x.edges && l in e.links
      ensures (exists p :: p in ports && SourceState(x.w, e, l, p)) && exists p :: p in ports && TargetState(x.w, e, l, p)
    {
      EndStates(x, e, l);
      LinkPortsReported(x, budget, e, l);
    }
    forall p | p in ports ensures exists e, l :: e in x.edges && l in e.links && (SourceState(x.w, e, l, p) || TargetState(x.w, e, l, p)) {
      var e, l := PortOfEdge(x, budget, p);
      EndStates(x, e, l);
    }
    PortsSorted(x, budget);
  }

  lemma PortsSorted(x: Setting, budget: Budget)
    requires Ready(x)
    ensures var ports := InstanceOf(x, budget).0.ports;
            forall i, j | 0 <= i < j < |ports| ::
              Less(ports[i].linkId, ports[j].linkId) || (ports[i].linkId == ports[j].linkId && Less(ports[i].portId, ports[j].portId))
  {
    hide Ready, ReportUpTo, RootOf, AllPorts;
    var ports := SortedPorts(x);
    forall i, j | 0 <= i < j < |ports|
      ensures Less(ports[i].linkId, ports[j].linkId) || (ports[i].linkId == ports[j].linkId && Less(ports[i].portId, ports[j].portId)) {
      assert PortLess(ports[i], ports[j]);
    }
  }

  // ----- root ports

  /** The port a link ends at on the bridge. */
  predicate EndsOn(bridgeOf: map<Id, Id>, l: Link, b: Id, port: Id) {
    || (l.sourceDeviceId in bridgeOf && bridgeOf[l.sourceDeviceId] == b && port == l.sourcePortId)
    || (l.targetDeviceId in bridgeOf && bridgeOf[l.targetDeviceId] == b && port == l.targetPortId)
  }

  predicate JoinsTwo(bridgeOf: map<Id, Id>, l: Link) {
    && l.sourceDeviceId in bridgeOf && l.targetDeviceId in bridgeOf
    && bridgeOf[l.sourceDeviceId] != bridgeOf[l.targetDeviceId]
  }

  lemma {:induction false} RootPortsEnd(bridgeOf: map<Id, Id>, links: seq<Link>, b: Id)
    requires forall l | l in links :: JoinsTwo(bridgeOf, l)
    ensures forall port :: port in RootPorts(bridgeOf, links, b) <==> exists l :: l in links && EndsOn(bridgeOf, l, b, port)
  {
    if links != [] {
      var front, last := links[..|links| - 1], links[|links| - 1];
      RootPortsEnd(bridgeOf, front, b);
      assert forall l :: l in links <==> l in front || l == last;
      assert last in links;
    }
  }

  /** The ports of the bridge that the report gives the root role. */
  ghost function RootPortIds(i: Instance, b: Id): set<Id> {
    set p | p in i.ports && p.bridgeId == b && p.role.RootRole? :: p.portId
  }

  lemma RootPortIsEnd(x: Setting, budget: Budget, b: Id, p: PortState)
    requires Ready(x) && p in InstanceOf(x, budget).0.ports && p.bridgeId == b && p.role.RootRole?
    ensures b in TreeFor(x).parent
    ensures exists l :: l in UpLinks(x, b) && EndsOn(x.w.bridgeOf, l, b, p.portId)
  {
    hide Ready, InstanceOf, RolesIn, SourcePort, TargetPort, TreeFor, RootOf;
    var e, l := PortOfEdge(x, budget, p);
    EndStates(x, e, l);
    LinkJoins(x, e, l);
    assert RootEnd(x, e, b);
    RootEndIsUpEdge(x, b, e);
    assert l in UpLinks(x, b) && EndsOn(x.w.bridgeOf, l, b, p.portId);
  }

  lemma EndIsRootPort(x: Setting, budget: Budget, b: Id, l: Link, port: Id)
    requires Ready(x) && b in Ends(Elements(x.edges)) && l in UpLinks(x, b) && EndsOn(x.w.bridgeOf, l, b, port)
    ensures port in RootPortIds(InstanceOf(x, budget).0, b)
  {
    hide Ready, InstanceOf, RolesIn, SourcePort, TargetPort, TreeFor, RootOf;
    NotRoot(x, b);
    UpEdgeIsRootEnd(x, b);
    var e := UpEdge(Elements(x.edges), RootOf(x), TreeFor(x), b);
    EndStates(x, e, l);
    LinkJoins(x, e, l);
    LinkPortsReported(x, budget, e, l);
    var p := if x.w.bridgeOf[l.sourceDeviceId] == b then SourcePort(x, e, l) else TargetPort(x, e, l);
    assert p in InstanceOf(x, budget).0.ports && p.bridgeId == b && p.role.RootRole? && p.portId == port;
  }

  lemma NotRoot(x: Setting, b: Id)
    requires Ready(x)
    ensures b in TreeFor(x).parent ==> b != RootOf(x)
    ensures UpLinks(x, b) != [] ==> b in TreeFor(x).parent
  {
    hide Ready, Converged, Order;
    assert Grown(Elements(x.edges), RootOf(x), TreeFor(x));
  }

  lemma UpLinksJoin(x: Setting, b: Id)
    requires Ready(x)
    ensures forall l | l in UpLinks(x, b) :: JoinsTwo(x.w.bridgeOf, l)
  {
    hide Ready, TreeFor, RootOf;
    if b in TreeFor(x).parent {
      var e := UpEdge(Elements(x.edges), RootOf(x), TreeFor(x), b);
      assert e in Elements(x.edges);
      forall l | l in e.links ensures JoinsTwo(x.w.bridgeOf, l) { LinkJoins(x, e, l); }
    }
  }

  lemma SortedSame(s: seq<Id>)
    ensures Elements(SortIds(s)) == Elements(s) && InOrder(SortIds(s))
  {
    assert forall x :: x in SortIds(s) <==> x in multiset(SortIds(s));
    assert forall x :: x in s <==> x in multiset(s);
  }

  lemma RootPortsFound(x: Setting, budget: Budget, b: Id)
    requires Ready(x) && b in Ends(Elements(x.edges))
    ensures Elements(RootPorts(x.w.bridgeOf, UpLinks(x, b), b)) == RootPortIds(InstanceOf(x, budget).0, b)
  {
    hide Ready, InstanceOf, UpLinks, EndsOn, RootPorts, RootOf;
    UpLinksJoin(x, b);
    RootPortsEnd(x.w.bridgeOf, UpLinks(x, b), b);
    var listed, found := RootPorts(x.w.bridgeOf, UpLinks(x, b), b), RootPortIds(InstanceOf(x, budget).0, b);
    forall port ensures port in Elements(listed) <==> port in found {
      if port in listed {
        var l :| l in UpLinks(x, b) && EndsOn(x.w.bridgeOf, l, b, port);
        EndIsRootPort(x, budget, b, l, port);
      }
      if port in found {
        var p :| p in InstanceOf(x, budget).0.ports && p.bridgeId == b && p.role.RootRole? && p.portId == port;
        RootPortIsEnd(x, budget, b, p);
      }
    }
  }

  /** Every bridge state lists, ascending, the ports of the bridge that the report
      gives the root role. The root bridge has none. */
  lemma RootPortsReported(x: Setting, budget: Budget)
    requires Ready(x)
    ensures var i := InstanceOf(x, budget).0;
            && (forall s | s in i.bridges :: Elements(s.rootPortIds) == RootPortIds(i, s.bridgeId) && InOrder(s.rootPortIds))
            && forall s | s in i.bridges && s.bridgeId == i.rootId :: s.rootPortIds == []
  {
    hide *;
    var i := InstanceOf(x, budget).0;
    forall s | s in i.bridges
      ensures Elements(s.rootPortIds) == RootPortIds(i, s.bridgeId) && InOrder(s.rootPortIds)
      ensures s.bridgeId == i.rootId ==> s.rootPortIds == []
    {
      var k :| 0 <= k < |i.bridges| && i.bridges[k] == s;
      StateAt(x, budget, k);
      RootPortsFound(x, budget, s.bridgeId);
      SortedSame(RootPorts(x.w.bridgeOf, UpLinks(x, s.bridgeId), s.bridgeId));
      NotRoot(x, s.bridgeId);
      if s.bridgeId == i.rootId { NoRootPorts(x, s.bridgeId); }
    }
  }

  predicate InOrder(ids: seq<Id>) { forall j, k | 0 <= j < k < |ids| :: !Less(ids[k], ids[j]) }

  lemma StateAt(x: Setting, budget: Budget, k: nat)
    requires Ready(x) && k < |InstanceOf(x, budget).0.bridges|
    ensures var i := InstanceOf(x, budget).0;
            var s := i.bridges[k];
            && i.rootId == RootOf(x) && s.bridgeId in Ends(Elements(x.edges))
            && s.rootPortIds == SortIds(RootPorts(x.w.bridgeOf, UpLinks(x, s.bridgeId), s.bridgeId))
  {
    hide Ready, ReportUpTo, SortedPorts, RootOf, UpLinks, RootPorts, SortIds, TreeFor, Order;
    RowsReported(x, |Order(x)|, budget);
    assert Order(x)[k] in Elements(Order(x));
  }

  lemma NoRootPorts(x: Setting, b: Id)
    requires Ready(x) && UpLinks(x, b) == []
    ensures SortIds(RootPorts(x.w.bridgeOf, UpLinks(x, b), b)) == []
  {
    assert RootPorts(x.w.bridgeOf, UpLinks(x, b), b) == [];
  }

  // ----- the designated end

  /** Bridge state j is nearer to the root than bridge state k, or as near and
      elected before it. */
  predicate Nearer(i: Instance, j: int, k: int)
    requires 0 <= j < |i.bridges| && 0 <= k < |i.bridges|
  {
    i.bridges[j].rootPathCost < i.bridges[k].rootPathCost || (i.bridges[j].rootPathCost == i.bridges[k].rootPathCost && j < k)
  }

  lemma DesignatedByTree(x: Setting, e: Edge)
    requires Ready(x) && e in x.edges
    ensures e.left in TreeFor(x).dist && e.right in TreeFor(x).dist && e.left in x.bridges && e.right in x.bridges
    ensures var l, r := TreeFor(x).dist[e.left], TreeFor(x).dist[e.right];
            && (RolesIn(x, e).0.DesignatedRole? <==> l < r || (l == r && BridgeLess(x.bridges[e.left], x.bridges[e.right])))
            && (RolesIn(x, e).1.DesignatedRole? <==> !RolesIn(x, e).0.DesignatedRole?)
  {
    hide Ready, TreeFor, RootOf, TreeOf, BridgeLess;
    EdgeEndsKnown(x, e);
    TreeHangs(x, e.left);
    TreeHangs(x, e.right);
  }

  lemma TreeHangs(x: Setting, v: Id)
    requires Ready(x)
    ensures v in TreeFor(x).parent ==>
      && v in TreeFor(x).dist && TreeFor(x).parent[v] in TreeFor(x).dist
      && TreeFor(x).dist[v] == TreeFor(x).dist[TreeFor(x).parent[v]] + 1
  {
    hide Ready, Converged, RootOf;
    assert Grown(Elements(x.edges), RootOf(x), TreeFor(x));
    if v in TreeFor(x).parent { assert HangsBy(Elements(x.edges), TreeFor(x), v); }
  }

  lemma StatesRanked(x: Setting, budget: Budget, j: nat, k: nat)
    requires Ready(x) && j < |InstanceOf(x, budget).0.bridges| && k < |InstanceOf(x, budget).0.bridges| && j != k
    ensures var i := InstanceOf(x, budget).0;
            var a, b := i.bridges[j].bridgeId, i.bridges[k].bridgeId;
            && a in x.bridges && b in x.bridges && (BridgeLess(x.bridges[a], x.bridges[b]) <==> j < k)
            && a in TreeFor(x).dist && b in TreeFor(x).dist
            && i.bridges[j].rootPathCost == TreeFor(x).dist[a] && i.bridges[k].rootPathCost == TreeFor(x).dist[b]
  {
    hide Ready, ReportUpTo, SortedPorts, RootOf, UpLinks, RootPorts, SortIds, TreeFor, BridgeLess;
    RowsReported(x, |Order(x)|, budget);
    OrderRanked(x, j, k);
  }

  lemma OrderRanked(x: Setting, j: nat, k: nat)
    requires Ready(x) && j < |Order(x)| && k < |Order(x)| && j != k
    ensures var a, b := Order(x)[j], Order(x)[k];
            a in x.bridges && b in x.bridges && (BridgeLess(x.bridges[a], x.bridges[b]) <==> j < k)
  {
    hide Domain, LinksApart, Joins, BridgeLess;
    var ids := Order(x);
    if j < k { assert RankLess(x.bridges)(ids[j], ids[k]); } else { assert RankLess(x.bridges)(ids[k], ids[j]); }
    NotBothLess(x.bridges[ids[j]], x.bridges[ids[k]]);
  }

  lemma NotBothLess(a: Bridge, b: Bridge)
    ensures !(BridgeLess(a, b) && BridgeLess(b, a))
  {
    if Less(a.id, b.id) && Less(b.id, a.id) {
      LessTransitive(a.id, b.id, a.id);
      LessIrreflexive(a.id);
    }
  }

  /** Of the two ends of a link the one whose bridge is nearer to the root is the
      designated one; of bridges that are equally near, the one elected earlier. */
  lemma NearerEndDesignated(x: Setting, budget: Budget, p: PortState, q: PortState, j: nat, k: nat)
    requires Ready(x) && p in InstanceOf(x, budget).0.ports && q in InstanceOf(x, budget).0.ports && p.linkId == q.linkId && p != q
    requires j < |InstanceOf(x, budget).0.bridges| && k < |InstanceOf(x, budget).0.bridges|
    requires InstanceOf(x, budget).0.bridges[j].bridgeId == p.bridgeId && InstanceOf(x, budget).0.bridges[k].bridgeId == q.bridgeId
    ensures p.role.DesignatedRole? <==> Nearer(InstanceOf(x, budget).0, j, k)
  {
    hide Ready, InstanceOf, RolesIn, SourcePort, TargetPort, TreeFor, RootOf, BridgeLess;
    var e, l := PortOfEdge(x, budget, p);
    var f, m := PortOfEdge(x, budget, q);
    assert f == e && m == l;
    EndStates(x, e, l);
    LinkJoins(x, e, l);
    DesignatedByTree(x, e);
    StatesRanked(x, budget, j, k);
    StatesRanked(x, budget, k, j);
  }
}
