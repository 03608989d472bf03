/** TracePath: a breadth-first search that stops at the target and rebuilds the
    path from the arrivals. */
module TracePath {
  import opened Outcomes
  import opened Text
  import opened Sorting
  import opened Topology
  import opened Ports
  import opened BreadthFirst
  import opened Routes

  datatype TraceError = NoSourcePort | NoTargetPort | EndpointDropsVLAN | ServerDoesNotForward | NoPath

  function Categories(devices: seq<Device>): map<Id, Category> {
    if devices == [] then map[] else
      var d := devices[|devices| - 1];
      Categories(devices[..|devices| - 1])[d.id := d.category]
  }

  ghost function NetOf(t: Topology, vlan: int): Net {
    Net(PortTable(Elements(t.devices)), Categories(t.devices), t.links, vlan)
  }

  /** What a trace must answer. */
  ghost predicate Traced(n: Net, sourceId: Id, targetId: Id, r: Result<seq<Id>, TraceError>) {
    if sourceId !in n.ports then r == Err(NoSourcePort)
    else if targetId !in n.ports then r == Err(NoTargetPort)
    else
      var source, target := n.ports[sourceId], n.ports[targetId];
      if !PortCarriesVLAN(source, n.vlan) || !PortCarriesVLAN(target, n.vlan) then r == Err(EndpointDropsVLAN)
      else if source.deviceId == target.deviceId then
        r == if IsServer(n, source.deviceId) && sourceId != targetId then Err(ServerDoesNotForward) else Ok([])
      else RouteFound(n, source, target, r)
  }

  /** The links of a shortest simple route, or the error when there is no route. */
  ghost predicate RouteFound(n: Net, source: Port, target: Port, r: Result<seq<Id>, TraceError>) {
    match r
    case Ok(ids) => exists hops :: IsShortest(n, source, target, hops) && IsSimple(hops) && ids == LinkIds(hops)
    case Err(e) => e == NoPath && forall hops :: !IsRoute(n, source, target, hops)
  }

  // ----- adjacency

  ghost predicate ListsHops(n: Net, links: seq<Link>, adjacency: map<Id, seq<Arc<Hop>>>) {
    forall v :: Out(adjacency, v) == HopsAt(n, links, v)
  }

  function WithHop(adjacency: map<Id, seq<Arc<Hop>>>, h: Hop): map<Id, seq<Arc<Hop>>> {
    adjacency[h.start := (if h.start in adjacency then adjacency[h.start] else []) + [Arc(h.end, h)]]
  }

  lemma HopAdded(adjacency: map<Id, seq<Arc<Hop>>>, h: Hop, v: Id)
    ensures Out(WithHop(adjacency, h), v) == Out(adjacency, v) + if h.start == v then [Arc(h.end, h)] else []
  {
  }

  lemma ListLink(n: Net, links: seq<Link>, k: nat, adjacency: map<Id, seq<Arc<Hop>>>)
    requires k < |links| && ListsHops(n, links[..k], adjacency)
    ensures var l := links[k];
            ListsHops(n, links[..k + 1], if Usable(n, l) then WithHop(WithHop(adjacency, Forward(n, l)), Backward(n, l)) else adjacency)
  {
    hide Usable, HopsAt, WithHop, Forward, Backward, Out;
    var l := links[k];
    var r := if Usable(n, l) then WithHop(WithHop(adjacency, Forward(n, l)), Backward(n, l)) else adjacency;
    forall v ensures Out(r, v) == HopsAt(n, links[..k + 1], v) {
      LastLink(n, links, k, v);
      HopAdded(adjacency, Forward(n, l), v);
      HopAdded(WithHop(adjacency, Forward(n, l)), Backward(n, l), v);
    }
  }

  lemma LastLink(n: Net, links: seq<Link>, k: nat, v: Id)
    requires k < |links|
    ensures HopsAt(n, links[..k + 1], v) == HopsAt(n, links[..k], v) + NewHops(n, links[k], v)
  {
    assert links[..k + 1][..k] == links[..k];
  }

  method ListHops(n: Net) returns (adjacency: map<Id, seq<Arc<Hop>>>)
    ensures ListsHops(n, n.links, adjacency)
  {
    hide *;
    adjacency := map[];
    NoHops(n);
    for k := 0 to |n.links|
      invariant ListsHops(n, n.links[..k], adjacency)
    {
      ListLink(n, n.links, k, adjacency);
      var l := n.links[k];
      if Usable(n, l) {
        adjacency := WithHop(adjacency, Forward(n, l));
        adjacency := WithHop(adjacency, Backward(n, l));
      }
    }
    assert n.links[..|n.links|] == n.links;
  }

  lemma NoHops(n: Net)
    ensures ListsHops(n, n.links[..0], map[])
  {
  }

  // ----- the search's own variables

  datatype Arrival = Arrival(previous: Id, linkId: Id)

  /** The queue, the set of seen devices and the arrivals hold the search s. */
  ghost predicate Holds(s: Search<Hop>, queue: seq<Id>, seen: set<Id>, arrivals: map<Id, Arrival>) {
    && queue == s.queue && seen == s.dist.Keys
    && arrivals.Keys == s.parent.Keys && s.tag.Keys == s.parent.Keys
    && forall v | v in arrivals :: arrivals[v] == Arrival(s.parent[v], s.tag[v].linkId)
  }

  lemma StartHolds(root: Id)
    ensures Holds(Start(root), [root], {root}, map[])
  {
  }

  lemma TakeHolds(s: Search<Hop>, queue: seq<Id>, seen: set<Id>, arrivals: map<Id, Arrival>)
    requires Holds(s, queue, seen, arrivals) && queue != []
    ensures queue == s.queue && Holds(s.(queue := s.queue[1..]), queue[1..], seen, arrivals)
  {
  }

  lemma DiscoverHolds(s: Search<Hop>, c: Id, a: Arc<Hop>, queue: seq<Id>, seen: set<Id>, arrivals: map<Id, Arrival>)
    requires Holds(s, queue, seen, arrivals) && c in s.dist
    ensures a.to in seen ==> Discover(s, c, a) == s
    ensures a.to !in seen ==>
      Holds(Discover(s, c, a), queue + [a.to], seen + {a.to}, arrivals[a.to := Arrival(c, a.tag.linkId)])
  {
  }

  /** The search after the first i listed hops of device c. */
  ghost function After(n: Net, source: Port, target: Port, t: Search<Hop>, c: Id, arcs: seq<Arc<Hop>>,
                       i: nat): (s: Search<Hop>)
    requires c in t.dist && i <= |arcs|
    ensures c in s.dist
  {
    var open := Passable(n, source, target, arcs[..i]);
    Scan(t, c, open, |open|)
  }

  lemma AfterStep(n: Net, source: Port, target: Port, t: Search<Hop>, c: Id, arcs: seq<Arc<Hop>>, i: nat)
    requires c in t.dist && i < |arcs|
    ensures var s := After(n, source, target, t, c, arcs, i);
            After(n, source, target, t, c, arcs, i + 1) ==
              if Passes(n, source, target, arcs[i].tag) then Discover(s, c, arcs[i]) else s
  {
    hide Passes, Discover, Scan, Passable;
    var open, more := Passable(n, source, target, arcs[..i]), Passable(n, source, target, arcs[..i + 1]);
    PassableStep(n, source, target, arcs, i);
    if Passes(n, source, target, arcs[i].tag) {
      ScanPrefix(t, c, open, more, |open|);
      ScanStep(t, c, more, |more|);
      assert |more| - 1 == |open| && more[|more| - 1] == arcs[i];
      assert Scan(t, c, more, |more| - 1) == After(n, source, target, t, c, arcs, i);
    } else {
      assert more == open;
    }
  }

  lemma PassableStep(n: Net, source: Port, target: Port, arcs: seq<Arc<Hop>>, i: nat)
    requires i < |arcs|
    ensures Passable(n, source, target, arcs[..i + 1]) ==
      Passable(n, source, target, arcs[..i]) + if Passes(n, source, target, arcs[i].tag) then [arcs[i]] else []
  {
    assert arcs[..i + 1][..i] == arcs[..i];
  }

  lemma {:induction false} ScanPrefix(t: Search<Hop>, c: Id, a: seq<Arc<Hop>>, b: seq<Arc<Hop>>, k: nat)
    requires c in t.dist && a <= b && k <= |a|
    ensures Scan(t, c, a, k) == Scan(t, c, b, k)
  {
    hide *;
    ScanStep(t, c, a, k);
    ScanStep(t, c, b, k);
    if k > 0 { ScanPrefix(t, c, a, b, k - 1); }
  }

  /** In the middle of a device's list the search is in the middle of that
      device's arcs. */
  lemma AfterMid(n: Net, source: Port, target: Port, t: Search<Hop>, c: Id, arcs: seq<Arc<Hop>>, i: nat) returns (k: nat)
    requires Mid(RouteGraph(n, source, target), source.deviceId, t, c, 0) && i <= |arcs|
    requires Out(RouteGraph(n, source, target), c) == Passable(n, source, target, arcs)
    ensures Mid(RouteGraph(n, source, target), source.deviceId, After(n, source, target, t, c, arcs, i), c, k)
  {
    hide Mid, RouteGraph, Passable;
    var g := RouteGraph(n, source, target);
    PassablePrefix(n, source, target, arcs, i);
    var open := Passable(n, source, target, arcs[..i]);
    k := |open|;
    MidIn(g, source.deviceId, t, c);
    ScanMid(g, source.deviceId, t, c, k);
    ScanPrefix(t, c, open, Passable(n, source, target, arcs), k);
  }

  lemma MidIn(g: Graph<Hop>, root: Id, t: Search<Hop>, c: Id)
    requires Mid(g, root, t, c, 0)
    ensures c in t.dist && Rooted(g, root, t)
  {
  }

  lemma InvQueued(g: Graph<Hop>, root: Id, s: Search<Hop>)
    requires Inv(g, root, s)
    ensures Queued(s) && Rooted(g, root, s)
  {
  }

  lemma AfterNone(n: Net, source: Port, target: Port, t: Search<Hop>, c: Id, arcs: seq<Arc<Hop>>)
    requires c in t.dist
    ensures After(n, source, target, t, c, arcs, 0) == t
  {
    assert arcs[..0] == [];
  }

  /** At the end of the list the device has been expanded. */
  lemma AfterAll(n: Net, source: Port, target: Port, s: Search<Hop>, arcs: seq<Arc<Hop>>)
    requires Inv(RouteGraph(n, source, target), source.deviceId, s) && s.queue != []
    requires Out(RouteGraph(n, source, target), s.queue[0]) == Passable(n, source, target, arcs)
    ensures Queued(s) && s.queue[0] in s.dist
    ensures After(n, source, target, s.(queue := s.queue[1..]), s.queue[0], arcs, |arcs|) == Expand(RouteGraph(n, source, target), s)
    ensures Inv(RouteGraph(n, source, target), source.deviceId, Expand(RouteGraph(n, source, target), s))
  {
    hide RouteGraph, Mid, Inv, Passable;
    var g := RouteGraph(n, source, target);
    InvQueued(g, source.deviceId, s);
    TakeMid(g, source.deviceId, s);
    var t := s.(queue := s.queue[1..]);
    ScanMid(g, source.deviceId, t, s.queue[0], |Out(g, s.queue[0])|);
    LastMid(g, source.deviceId, Expand(g, s), s.queue[0]);
    assert arcs[..|arcs|] == arcs;
  }

  lemma ListedArcs(n: Net, source: Port, target: Port, adjacency: map<Id, seq<Arc<Hop>>>, c: Id)
    requires ListsHops(n, n.links, adjacency)
    ensures Out(RouteGraph(n, source, target), c) == Passable(n, source, target, Out(adjacency, c))
    ensures forall a | a in Out(adjacency, c) :: a.tag.start == c && a.tag.end == a.to && IsHop(n, a.tag)
  {
    hide Passes, IsHop, HopsAt;
    if c !in HopDevices(n) { OutsideNoHops(n, c); }
    forall a | a in Out(adjacency, c) ensures a.tag.start == c && a.tag.end == a.to && IsHop(n, a.tag) {
      HopListed(n, n.links, c, a);
      var l :| l in n.links && a in NewHops(n, l, c);
      NewHopsAreHops(n, l, c, a);
    }
  }

  lemma NewHopsAreHops(n: Net, l: Link, c: Id, a: Arc<Hop>)
    requires l in n.links && a in NewHops(n, l, c)
    ensures a.tag.start == c && a.tag.end == a.to && IsHop(n, a.tag)
  {
  }

  /** Nothing leaves a server on the way. */
  lemma {:induction false} ServerForwardsNothing(n: Net, source: Port, target: Port, arcs: seq<Arc<Hop>>, c: Id)
    requires c != source.deviceId && IsServer(n, c) && forall a | a in arcs :: a.tag.start == c
    ensures Passable(n, source, target, arcs) == []
  {
    hide IsServer;
    if arcs != [] { ServerForwardsNothing(n, source, target, arcs[..|arcs| - 1], c); }
  }

  // ----- rebuilding the path

  function Reversed<T>(s: seq<T>): (r: seq<T>)
    ensures |r| == |s| && forall i | 0 <= i < |s| :: r[i] == s[|s| - 1 - i]
  {
    if s == [] then [] else [s[|s| - 1]] + Reversed(s[..|s| - 1])
  }

  lemma TrailStep(g: Graph<Hop>, root: Id, s: Search<Hop>, v: Id)
    requires Rooted(g, root, s) && v in s.dist && v != root
    ensures v in s.parent && v in s.tag && s.parent[v] in s.dist && s.dist[v] == s.dist[s.parent[v]] + 1
    ensures Trail(g, root, s, v) == Trail(g, root, s, s.parent[v]) + [s.tag[v]]
  {
    assert Hangs(g, s, v);
  }

  method Rebuild(ghost g: Graph<Hop>, ghost s: Search<Hop>, root: Id, arrivals: map<Id, Arrival>, last: Id, linkId: Id)
    returns (path: seq<Id>)
    requires Rooted(g, root, s) && Holds(s, s.queue, s.dist.Keys, arrivals) && last in s.dist
    ensures path == LinkIds(Trail(g, root, s, last)) + [linkId]
  {
    hide Rooted, Trail, LinkIds, Reversed;
    path := [linkId];
    var current := last;
    AllLeft(LinkIds(Trail(g, root, s, last)), linkId);
    while current != root
      invariant current in s.dist
      invariant LinkIds(Trail(g, root, s, current)) + Reversed(path) == LinkIds(Trail(g, root, s, last)) + [linkId]
      decreases s.dist[current]
    {
      TrailStep(g, root, s, current);
      MoveOver(Trail(g, root, s, s.parent[current]), s.tag[current], path);
      path := path + [arrivals[current].linkId];
      current := arrivals[current].previous;
    }
    path := Reversed(path);
    RootTrail(g, root, s);
  }

  lemma AllLeft(ids: seq<Id>, linkId: Id)
    ensures ids + Reversed([linkId]) == ids + [linkId]
  {
  }

  lemma MoveOver(hops: seq<Hop>, h: Hop, path: seq<Id>)
    ensures LinkIds(hops + [h]) + Reversed(path) == LinkIds(hops) + Reversed(path + [h.linkId])
  {
    assert LinkIds(hops + [h]) == LinkIds(hops) + [h.linkId];
    assert (path + [h.linkId])[..|path|] == path;
  }

  lemma RootTrail(g: Graph<Hop>, root: Id, s: Search<Hop>)
    requires Rooted(g, root, s)
    ensures root in s.dist && Trail(g, root, s, root) == [] && LinkIds([]) == []
  {
  }

  /** Stopping at the first hop to the target's device gives a shortest route. */
  lemma StopsAtShortest(n: Net, source: Port, target: Port, s: Search<Hop>, c: Id, k: nat, h: Hop)
    requires Mid(RouteGraph(n, source, target), source.deviceId, s, c, k)
    requires IsHop(n, h) && Passes(n, source, target, h) && h.start == c && h.end == target.deviceId
    requires target.deviceId !in s.dist
    ensures Rooted(RouteGraph(n, source, target), source.deviceId, s) && c in s.dist
    ensures var hops := Trail(RouteGraph(n, source, target), source.deviceId, s, c) + [h];
            IsShortest(n, source, target, hops) && IsSimple(hops)
  {
    hide RouteGraph, IsHop, Passes, IsTrail, IsRoute, Settled, BreadthFirst.Front, IsSimple;
    var g := RouteGraph(n, source, target);
    var hops := Trail(g, source.deviceId, s, c) + [h];
    TrailFound(n, source, target, s, c);
    TrailToTarget(n, source, target, s, Trail(g, source.deviceId, s, c), c, h);
    forall other | IsRoute(n, source, target, other) ensures |hops| <= |other| {
      NotNearer(n, source, target, s, c, k, other);
    }
  }

  lemma PathAnswers(n: Net, source: Port, target: Port, hops: seq<Hop>, h: Hop, path: seq<Id>)
    requires IsShortest(n, source, target, hops + [h]) && IsSimple(hops + [h]) && path == LinkIds(hops) + [h.linkId]
    ensures RouteFound(n, source, target, Ok(path))
  {
    assert path == LinkIds(hops + [h]);
  }

  lemma NoPathAnswers(n: Net, source: Port, target: Port, s: Search<Hop>)
    requires Inv(RouteGraph(n, source, target), source.deviceId, s) && s.queue == []
    requires target.deviceId !in s.dist
    ensures RouteFound(n, source, target, Err(NoPath))
  {
    hide Inv, RouteGraph, IsRoute;
    forall hops ensures !IsRoute(n, source, target, hops) { NoRoute(n, source, target, s, hops); }
  }

  /** TracePath, the search between two devices. */
  method SearchRoute(n: Net, source: Port, target: Port) returns (r: Result<seq<Id>, TraceError>)
    requires source.deviceId != target.deviceId
    ensures RouteFound(n, source, target, r)
  {
    hide *;
    var root := source.deviceId;
    var sourceIsServer, targetIsServer := IsServer(n, source.deviceId), IsServer(n, target.deviceId);
    ghost var g := RouteGraph(n, source, target);
    var adjacency := ListHops(n);
    var queue, seen, arrivals := [root], {root}, map[];
    ghost var s := Start(root);
    StartHolds(root);
    StartInv(g, root);
    HoldsSeen(s, queue, seen, arrivals);
    while queue != []
      invariant Inv(g, root, s) && Holds(s, queue, seen, arrivals) && queue == s.queue && seen == s.dist.Keys
      invariant target.deviceId !in seen
      decreases |Targets(g) - s.dist.Keys|, |queue|
    {
      var c := queue[0];
      var arcs := if c in adjacency then adjacency[c] else [];
      ListedArcs(n, source, target, adjacency, c);
      OutOf(adjacency, c);
      ghost var t := s.(queue := s.queue[1..]);
      TakeHolds(s, queue, seen, arrivals);
      TakeMid(g, root, s);
      MidIn(g, root, t, c);
      AfterAll(n, source, target, s, arcs);
      ExpandProgress(g, s);
      queue := queue[1..];
      if c != root && IsServer(n, c) {
        ServerForwardsNothing(n, source, target, arcs, c);
        ExpandedNothing(g, s);
        s := Expand(g, s);
        continue;
      }
      ghost var before := s;
      AfterNone(n, source, target, t, c, arcs);
      s := t;
      for i := 0 to |arcs|
        invariant s == After(n, source, target, t, c, arcs, i)
        invariant Holds(s, queue, seen, arrivals) && queue == s.queue && seen == s.dist.Keys
        invariant target.deviceId !in seen
      {
        var next := arcs[i].tag;
        AfterStep(n, source, target, t, c, arcs, i);
        DiscoverHolds(s, c, arcs[i], queue, seen, arrivals);
        PassesAt(n, source, target, next);
        assert arcs[i] in arcs;
        if c == root && sourceIsServer && next.startPortId != source.id { continue; }
        if next.end == target.deviceId && targetIsServer && next.endPortId != target.id { continue; }
        if next.end in seen { continue; }
        if next.end == target.deviceId {
          ghost var k := AfterMid(n, source, target, t, c, arcs, i);
          StopsAtShortest(n, source, target, s, c, k, next);
          var path := Rebuild(g, s, root, arrivals, c, next.linkId);
          PathAnswers(n, source, target, Trail(g, root, s, c), next, path);
          return Ok(path);
        }
        HoldsSeen(Discover(s, c, arcs[i]), queue + [next.end], seen + {next.end}, arrivals[next.end := Arrival(c, next.linkId)]);
        s := Discover(s, c, arcs[i]);
        seen := seen + {next.end};
        arrivals := arrivals[next.end := Arrival(c, next.linkId)];
        queue := queue + [next.end];
      }
      HoldsSeen(s, queue, seen, arrivals);
    }
    NoPathAnswers(n, source, target, s);
    return Err(NoPath);
  }

  lemma HoldsSeen(s: Search<Hop>, queue: seq<Id>, seen: set<Id>, arrivals: map<Id, Arrival>)
    requires Holds(s, queue, seen, arrivals)
    ensures queue == s.queue && seen == s.dist.Keys && Holds(s, s.queue, s.dist.Keys, arrivals)
  {
  }

  lemma OutOf(adjacency: map<Id, seq<Arc<Hop>>>, c: Id)
    ensures Out(adjacency, c) == if c in adjacency then adjacency[c] else []
  {
  }

  lemma ExpandedNothing(g: Graph<Hop>, s: Search<Hop>)
    requires Queued(s) && s.queue != [] && Out(g, s.queue[0]) == []
    ensures Expand(g, s) == s.(queue := s.queue[1..])
  {
  }

  /** The two tests of the search loop are the openness of the hop. */
  lemma PassesAt(n: Net, source: Port, target: Port, h: Hop)
    ensures h.start == source.deviceId || !IsServer(n, h.start) ==>
      (Passes(n, source, target, h) <==>
         && !(h.start == source.deviceId && IsServer(n, source.deviceId) && h.startPortId != source.id)
         && !(h.end == target.deviceId && IsServer(n, target.deviceId) && h.endPortId != target.id))
  {
  }

  // ----- the whole trace

  method BuildCategories(devices: seq<Device>) returns (categories: map<Id, Category>)
    ensures categories == Categories(devices)
  {
    categories := map[];
    for i := 0 to |devices|
      invariant categories == Categories(devices[..i])
    {
      assert devices[..i + 1][..i] == devices[..i];
      categories := categories[devices[i].id := devices[i].category];
    }
    assert devices[..|devices|] == devices;
  }

  /** TracePath. */
  method TracePath(t: Topology, sourcePortId: Id, targetPortId: Id, vlan: int) returns (r: Result<seq<Id>, TraceError>)
    requires DistinctPorts(t.devices)
    ensures Traced(NetOf(t, vlan), sourcePortId, targetPortId, r)
  {
    hide PortTable, RouteFound, Categories, DistinctPorts, PortCarriesVLAN, IsServer;
    var ports := BuildPortTable(t.devices);
    var categories := BuildCategories(t.devices);
    var n := Net(ports, categories, t.links, vlan);
    if sourcePortId !in ports { return Err(NoSourcePort); }
    if targetPortId !in ports { return Err(NoTargetPort); }
    var source, target := ports[sourcePortId], ports[targetPortId];
    if !PortCarriesVLAN(source, vlan) || !PortCarriesVLAN(target, vlan) { return Err(EndpointDropsVLAN); }
    if source.deviceId == target.deviceId {
      if IsServer(n, source.deviceId) && sourcePortId != targetPortId { return Err(ServerDoesNotForward); }
      return Ok([]);
    }
    r := SearchRoute(n, source, target);
  }
}
