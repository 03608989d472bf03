/** What the report on a switching domain means. */
module StpTheorems {
  import opened Text
  import opened Sorting
  import opened Topology
  import opened StpModel
  import opened StpEdges
  import opened StpEdgeFacts
  import opened StpComponents
  import opened StpTree
  import opened StpSearch
  import opened StpPaths
  import opened StpInstance
  import opened StpComponentSimulation

  // ----- port states

  /** The two ends of a physical link report the roles of the two ends of its
      logical edge. */
  ghost predicate MirrorsEdge(x: Setting, e: Edge, p: PortState, q: PortState)
    requires Ready(x) && e in x.edges
  {
    && p.bridgeId == e.left && p.peerId == e.right && p.role == RolesIn(x, e).0
    && q.bridgeId == e.right && q.peerId == e.left && q.role == RolesIn(x, e).1
  }

  lemma LinkMirrorsEdge(x: Setting, e: Edge, l: Link)
    requires Ready(x) && e in x.edges && l in e.links
    ensures MirrorsEdge(x, e, SourcePort(x, e, l), TargetPort(x, e, l)) || MirrorsEdge(x, e, TargetPort(x, e, l), SourcePort(x, e, l))
    ensures SourcePort(x, e, l).forwarding <==> !SourcePort(x, e, l).role.BlockedRole?
    ensures TargetPort(x, e, l).forwarding <==> !TargetPort(x, e, l).role.BlockedRole?
  {
    hide RolesIn, Domain, LinksApart, Registered;
    assert Joins(x.w, e);
    LessIrreflexive(e.left);
  }

  lemma LinkPortsReported(x: Setting, budget: Budget, e: Edge, l: Link)
    requires Ready(x) && e in x.edges && l in e.links
    ensures SourcePort(x, e, l) in InstanceOf(x, budget).0.ports && TargetPort(x, e, l) in InstanceOf(x, budget).0.ports
  {
    hide Ready, RolesIn, ReportUpTo;
    var s, t := SourcePort(x, e, l), TargetPort(x, e, l);
    assert s in PortsOf(x, e) && t in PortsOf(x, e);
    assert s in Elements(SortedPorts(x)) && t in Elements(SortedPorts(x));
  }

  /** A port state belongs to one edge: that of its link. */
  lemma PortOfEdge(x: Setting, budget: Budget, p: PortState) returns (e: Edge, l: Link)
    requires Ready(x) && p in InstanceOf(x, budget).0.ports
    ensures e in x.edges && l in e.links && l.id == p.linkId
    ensures p == SourcePort(x, e, l) || p == TargetPort(x, e, l)
    ensures forall f, m | f in x.edges && m in f.links && m.id == p.linkId :: f == e && m == l
  {
    hide *;
    e := PortListed(x, budget, p);
    l := PortOfLink(x, e, p);
    forall f, m | f in x.edges && m in f.links && m.id == p.linkId ensures f == e && m == l {
      OneEdgeOfLink(x, e, l, f, m);
    }
  }

  lemma PortListed(x: Setting, budget: Budget, p: PortState) returns (e: Edge)
    requires Ready(x) && p in InstanceOf(x, budget).0.ports
    ensures e in x.edges && p in PortsOf(x, e)
  {
    hide Ready, PortsOf, ReportUpTo, RootOf;
    assert p in Elements(SortedPorts(x));
    e :| e in x.edges && p in PortsOf(x, e);
  }

  lemma PortOfLink(x: Setting, e: Edge, p: PortState) returns (l: Link)
    requires Ready(x) && e in x.edges && p in PortsOf(x, e)
    ensures l in e.links && l.id == p.linkId && (p == SourcePort(x, e, l) || p == TargetPort(x, e, l))
  {
    hide Ready, RolesIn, SourcePort, TargetPort;
    l :| l in e.links && (p == SourcePort(x, e, l) || p == TargetPort(x, e, l));
    PortIds(x, e, l);
  }

  lemma OneEdgeOfLink(x: Setting, e: Edge, l: Link, f: Edge, m: Link)
    requires Ready(x) && e in x.edges && f in x.edges && l in e.links && m in f.links && l.id == m.id
    ensures e == f && l == m
  {
    hide Domain, Joins;
    assert e in Elements(x.edges) && f in Elements(x.edges);
  }

  /** The roles of the two ends of an edge, by the tree. */
  lemma RolesByTree(x: Setting, e: Edge)
    requires Ready(x) && e in x.edges
    ensures var (l, r) := RolesIn(x, e);
            && (l.DesignatedRole? <==> !r.DesignatedRole?)
            && (l.BlockedRole? || r.BlockedRole? <==> e !in TreeEdges(Elements(x.edges), TreeFor(x)))
            && (l.RootRole? <==> e.left in TreeFor(x).via && TreeFor(x).via[e.left] == e.id)
            && (r.RootRole? <==> e.right in TreeFor(x).via && TreeFor(x).via[e.right] == e.id)
            && (e.left == RootOf(x) ==> l.DesignatedRole?) && (e.right == RootOf(x) ==> r.DesignatedRole?)
    ensures e.left != e.right
  {
    RolesOfEdge(Elements(x.edges), RootOf(x), TreeFor(x), x.bridges, e);
    LessIrreflexive(e.left);
    hide TreeEdges, TreeOf, Ends;
    assert Touches(e, e.left) && Touches(e, e.right);
  }

  /** Of the two ends of every link exactly one is designated; the other is a
      root port that forwards or is blocked. No port of the root bridge is
      anything but designated. */
  lemma LinkRoles(x: Setting, budget: Budget, e: Edge, l: Link)
    requires Ready(x) && e in x.edges && l in e.links
    ensures var i := InstanceOf(x, budget).0;
            var p, q := SourcePort(x, e, l), TargetPort(x, e, l);
            && p in i.ports && q in i.ports
            && {p.bridgeId, q.bridgeId} == {e.left, e.right} && p.peerId == q.bridgeId && q.peerId == p.bridgeId
            && (p.role.DesignatedRole? <==> !q.role.DesignatedRole?)
            && (p.forwarding <==> !p.role.BlockedRole?) && (q.forwarding <==> !q.role.BlockedRole?)
            && (p.bridgeId == i.rootId ==> p.role.DesignatedRole?) && (q.bridgeId == i.rootId ==> q.role.DesignatedRole?)
  {
    hide Ready, RolesIn, SourcePort, TargetPort, RootOf, ReportUpTo, SortedPorts, TreeFor, TreeEdges, MirrorsEdge;
    LinkPortsReported(x, budget, e, l);
    LinkMirrorsEdge(x, e, l);
    var p, q := SourcePort(x, e, l), TargetPort(x, e, l);
    if MirrorsEdge(x, e, p, q) { MirrorRoles(x, e, p, q); } else { MirrorRoles(x, e, q, p); }
  }

  lemma MirrorRoles(x: Setting, e: Edge, p: PortState, q: PortState)
    requires Ready(x) && e in x.edges && MirrorsEdge(x, e, p, q)
    ensures {p.bridgeId, q.bridgeId} == {e.left, e.right} && p.peerId == q.bridgeId && q.peerId == p.bridgeId
    ensures p.role.DesignatedRole? <==> !q.role.DesignatedRole?
    ensures (p.bridgeId == RootOf(x) ==> p.role.DesignatedRole?) && (q.bridgeId == RootOf(x) ==> q.role.DesignatedRole?)
  {
    hide Ready, RolesIn, RootOf, TreeFor, TreeEdges;
    RolesByTree(x, e);
  }

  // ----- the forwarding topology

  /** One of the ends of the edge's links is reported blocked. */
  ghost predicate BlockedIn(i: Instance, e: Edge) {
    exists p, l :: p in i.ports && l in e.links && l.id == p.linkId && p.role.BlockedRole?
  }

  lemma BlockedOffTree(x: Setting, budget: Budget, e: Edge)
    requires Ready(x) && e in x.edges
    ensures BlockedIn(InstanceOf(x, budget).0, e) <==> e !in TreeEdges(Elements(x.edges), TreeFor(x))
  {
    hide Ready, RolesIn, SourcePort, TargetPort, RootOf, ReportUpTo, SortedPorts, TreeFor, TreeEdges, InstanceOf;
    var i := InstanceOf(x, budget).0;
    RolesByTree(x, e);
    EdgeHasLink(x, e);
    var first := e.links[0];
    LinkPortsReported(x, budget, e, first);
    LinkMirrorsEdge(x, e, first);
    PortIds(x, e, first);
    if BlockedIn(i, e) {
      var p, l :| p in i.ports && l in e.links && l.id == p.linkId && p.role.BlockedRole?;
      var f, m := PortOfEdge(x, budget, p);
      LinkMirrorsEdge(x, e, m);
    }
  }

  lemma EdgeHasLink(x: Setting, e: Edge)
    requires Ready(x) && e in x.edges
    ensures e.links != [] && e.links[0] in e.links
  {
  }

  ghost function OpenEdges(edges: set<Edge>, i: Instance): set<Edge> {
    set e | e in edges && !BlockedIn(i, e)
  }

  /** The edges no end of which is blocked connect every bridge of the domain,
      without a cycle, with one edge fewer than there are bridges. */
  lemma ForwardingEdgesSpan(x: Setting, budget: Budget)
    requires Ready(x)
    ensures SpanningTree(OpenEdges(Elements(x.edges), InstanceOf(x, budget).0), Elements(x.edges))
  {
    hide BlockedIn, InstanceOf, SpanningTree, RootOf;
    var i := InstanceOf(x, budget).0;
    TreeIsSpanning(Elements(x.edges), RootOf(x), TreeFor(x), x.bridges);
    forall e | e in Elements(x.edges) ensures BlockedIn(i, e) <==> e !in TreeEdges(Elements(x.edges), TreeFor(x)) {
      BlockedOffTree(x, budget, e);
    }
    assert OpenEdges(Elements(x.edges), i) == TreeEdges(Elements(x.edges), TreeFor(x));
  }

  // ----- root ports

  /** Bridge b is the root end of the edge. */
  ghost predicate RootEnd(x: Setting, e: Edge, b: Id)
    requires Ready(x) && e in x.edges
  {
    (b == e.left && RolesIn(x, e).0.RootRole?) || (b == e.right && RolesIn(x, e).1.RootRole?)
  }

  /** Every bridge but the root is the root end of exactly one edge. */
  lemma OneRootEnd(x: Setting, b: Id)
    requires Ready(x) && b in Ends(Elements(x.edges)) && b != RootOf(x)
    ensures exists e :: e in x.edges && RootEnd(x, e, b) && forall f | f in x.edges && RootEnd(x, f, b) :: f == e
  {
    UpEdgeIsRootEnd(x, b);
    var e := UpEdge(Elements(x.edges), RootOf(x), TreeFor(x), b);
    assert e in x.edges && RootEnd(x, e, b);
    forall f | f in x.edges && RootEnd(x, f, b) ensures f == e { RootEndIsUpEdge(x, b, f); }
  }

  lemma UpEdgeOf(x: Setting, b: Id)
    requires Ready(x) && b in Ends(Elements(x.edges)) && b != RootOf(x)
    ensures b in TreeFor(x).parent && b in TreeFor(x).via
    ensures var e := UpEdge(Elements(x.edges), RootOf(x), TreeFor(x), b);
            e in x.edges && e.id == TreeFor(x).via[b] && (e.left == b || e.right == b)
  {
    hide Domain, LinksApart, Joins, HangsBy;
    var e := UpEdge(Elements(x.edges), RootOf(x), TreeFor(x), b);
    assert e in Elements(x.edges);
  }

  lemma UpEdgeIsRootEnd(x: Setting, b: Id)
    requires Ready(x) && b in Ends(Elements(x.edges)) && b != RootOf(x)
    ensures b in TreeFor(x).parent
    ensures var e := UpEdge(Elements(x.edges), RootOf(x), TreeFor(x), b);
            e in x.edges && RootEnd(x, e, b)
  {
    hide Ready, TreeFor, RootOf, RolesIn, TreeEdges;
    UpEdgeOf(x, b);
    var e := UpEdge(Elements(x.edges), RootOf(x), TreeFor(x), b);
    RolesByTree(x, e);
  }

  lemma RootEndIsUpEdge(x: Setting, b: Id, f: Edge)
    requires Ready(x) && f in x.edges && RootEnd(x, f, b)
    ensures b in TreeFor(x).parent && f == UpEdge(Elements(x.edges), RootOf(x), TreeFor(x), b)
  {
    RolesByTree(x, f);
    assert f in Elements(x.edges);
  }

  // ----- bridge states and paths

  ghost predicate RowsUpTo(x: Setting, n: nat, r: Report)
    requires Ready(x) && n <= |Order(x)|
  {
    var ids := Order(x);
    && |r.bridges| == n
    && forall k | 0 <= k < n :: ids[k] in TreeFor(x).dist && r.bridges[k].bridgeId == ids[k]
         && r.bridges[k].rootPathCost == TreeFor(x).dist[ids[k]]
         && r.bridges[k].rootPortIds == SortIds(RootPorts(x.w.bridgeOf, UpLinks(x, ids[k]), ids[k]))
  }

  lemma RowsStep(x: Setting, n: nat, r: Report)
    requires Ready(x) && n < |Order(x)| && RowsUpTo(x, n, r) && Order(x)[n] in Ends(Elements(x.edges))
    ensures RowsUpTo(x, n + 1, Reported(x, r, Order(x)[n]))
  {
    hide Ready, ChargedPath, TreeFor, RootOf, RootPorts, UpLinks, SortIds, Order;
    KnownBridge(x, Order(x)[n]);
  }

  lemma {:induction false} RowsReported(x: Setting, n: nat, budget: Budget)
    requires Ready(x) && n <= |Order(x)|
    ensures RowsUpTo(x, n, ReportUpTo(x, n, budget))
  {
    hide Ready, Reported, RowsUpTo, Order;
    if n > 0 {
      RowsReported(x, n - 1, budget);
      ReportStep(x, n - 1, budget);
      RowsStep(x, n - 1, ReportUpTo(x, n - 1, budget));
    } else {
      NothingReported(x, budget);
      NoRows(x);
    }
  }

  lemma NoRows(x: Setting)
    requires Ready(x)
    ensures RowsUpTo(x, 0, Report([], [], false, false, Budget(0, 0)))
    ensures forall budget :: RowsUpTo(x, 0, Report([], [], false, false, budget))
  {
  }

  /** One state for each bridge of the domain, in election order, with its least
      hop distance from the elected root. */
  lemma BridgeStates(x: Setting, budget: Budget)
    requires Ready(x)
    ensures var i := InstanceOf(x, budget).0;
            var ids := Order(x);
            && IsElected(x.bridges, Ends(Elements(x.edges)), i.rootId)
            && |i.bridges| == |Ends(Elements(x.edges))|
            && forall k | 0 <= k < |i.bridges| :: i.bridges[k].bridgeId == ids[k]
                 && HopDistance(Elements(x.edges), i.rootId, ids[k], i.bridges[k].rootPathCost)
  {
    hide HopDistance, ReportUpTo, SortedPorts;
    var ids := Order(x);
    RowsReported(x, |ids|, budget);
    ConvergedTree(Elements(x.edges), x.bridges, RootOf(x));
    forall k | 0 <= k < |ids| ensures ids[k] in Ends(Elements(x.edges)) { assert ids[k] in Elements(ids); }
  }

  ghost function TotalEntries(paths: seq<PathRecord>): nat {
    if paths == [] then 0 else TotalEntries(paths[..|paths| - 1]) + Entries(paths[|paths| - 1])
  }

  ghost predicate IsFullPath(x: Setting, p: PathRecord)
    requires Ready(x)
  {
    p.bridgeId in TreeFor(x).dist && p == FullPath(Elements(x.edges), RootOf(x), TreeFor(x), p.bridgeId)
  }

  /** The budget pays for exactly the identifiers emitted, until it runs out. */
  ghost predicate PaidUpTo(x: Setting, n: nat, budget: Budget, r: Report)
    requires Ready(x)
  {
    && (forall p | p in r.paths :: IsFullPath(x, p))
    && TotalEntries(r.paths) + r.budget.paths <= budget.paths
    && (if r.pathsTruncated then r.budget.paths == 0
        else |r.paths| == n && TotalEntries(r.paths) + r.budget.paths == budget.paths)
  }

  lemma PaidStep(x: Setting, n: nat, budget: Budget, r: Report, b: Id)
    requires Ready(x) && b in Ends(Elements(x.edges)) && PaidUpTo(x, n, budget, r)
    ensures PaidUpTo(x, n + 1, budget, Reported(x, r, b))
  {
    hide Ready, TreeFor, RootOf, StateOf, PathBridges, PathLinks;
    KnownBridge(x, b);
    var full := FullPath(Elements(x.edges), RootOf(x), TreeFor(x), b);
    var r' := Reported(x, r, b);
    assert Entries(full) > 0;
    if Entries(full) <= r.budget.paths {
      assert r'.paths == r.paths + [full];
      TotalAdds(r.paths, full);
    } else {
      assert r'.paths == r.paths;
    }
  }

  lemma TotalAdds(paths: seq<PathRecord>, p: PathRecord)
    ensures TotalEntries(paths + [p]) == TotalEntries(paths) + Entries(p)
  {
    assert (paths + [p])[..|paths|] == paths;
  }

  lemma {:induction false} PathsPaid(x: Setting, n: nat, budget: Budget)
    requires Ready(x) && n <= |Order(x)|
    ensures PaidUpTo(x, n, budget, ReportUpTo(x, n, budget))
  {
    hide Ready, PaidUpTo, Reported, Order, ReportUpTo;
    if n > 0 {
      PathsPaid(x, n - 1, budget);
      ReportStep(x, n - 1, budget);
      PaidStep(x, n - 1, budget, ReportUpTo(x, n - 1, budget), Order(x)[n - 1]);
    } else {
      NothingReported(x, budget);
      NothingPaid(x, budget);
    }
  }

  lemma NothingPaid(x: Setting, budget: Budget)
    requires Ready(x)
    ensures PaidUpTo(x, 0, budget, Report([], [], false, false, budget))
  {
  }

  /** A path the report may hold: from a bridge to the root along the tree, one
      bridge longer than the bridge is far, with the links of the edges on it. */
  ghost predicate ConvergencePath(x: Setting, root: Id, p: PathRecord)
    requires Ready(x)
  {
    && PathBetween(TreeEdges(Elements(x.edges), TreeFor(x)), p.bridgeId, root, p.bridgeIds)
    && HopDistance(Elements(x.edges), root, p.bridgeId, |p.bridgeIds| - 1)
    && p.bridgeId in TreeFor(x).dist && Grown(Elements(x.edges), root, TreeFor(x))
    && p.linkIds == PathLinks(Elements(x.edges), root, TreeFor(x), p.bridgeId)
  }

  lemma FullPathConverges(x: Setting, p: PathRecord)
    requires Ready(x) && IsFullPath(x, p)
    ensures ConvergencePath(x, RootOf(x), p)
  {
    hide HopDistance, PathBetween, TreeEdges, Converged, RootOf, PathLinks;
    PathFollowsTree(Elements(x.edges), RootOf(x), TreeFor(x), p.bridgeId);
    ConvergedTree(Elements(x.edges), x.bridges, RootOf(x));
  }

  /** Every path emitted is a convergence path; together with what is left of
      the budget they never hold more identifiers than the budget allowed, and a
      path is missing only when the budget is used up. */
  lemma PathsWithinBudget(x: Setting, budget: Budget)
    requires Ready(x)
    ensures var (i, left) := InstanceOf(x, budget);
            && (forall p | p in i.paths :: ConvergencePath(x, i.rootId, p))
            && TotalEntries(i.paths) + left.paths <= budget.paths
            && (if i.pathsTruncated then left.paths == 0
                else |i.paths| == |i.bridges| && TotalEntries(i.paths) + left.paths == budget.paths)
  {
    hide Ready, ReportUpTo, SortedPorts, RootOf, TreeFor, ConvergencePath, IsFullPath;
    var n := |Order(x)|;
    PathsPaid(x, n, budget);
    RowsReported(x, n, budget);
    Assembled(x, budget);
    forall p | p in InstanceOf(x, budget).0.paths ensures ConvergencePath(x, RootOf(x), p) { FullPathConverges(x, p); }
  }
}
