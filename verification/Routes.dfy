/** Routes of a VLAN through the cables, and how a breadth-first search over
    them yields a shortest one. */
module Routes {
  import opened Text
  import opened Sorting
  import opened Topology
  import opened Ports
  import opened BreadthFirst

  datatype Net = Net(ports: map<Id, Port>, categories: map<Id, Category>, links: seq<Link>, vlan: int)

  predicate IsServer(n: Net, device: Id) { device in n.categories && n.categories[device].Server? }

  /** One cable, followed from one of its ends to the other. */
  datatype Hop = Hop(linkId: Id, start: Id, end: Id, startPortId: Id, endPortId: Id)

  predicate Usable(n: Net, l: Link) {
    PortCarriesVLAN(Find(n.ports, l.sourcePortId), n.vlan) && PortCarriesVLAN(Find(n.ports, l.targetPortId), n.vlan)
  }

  function Forward(n: Net, l: Link): Hop {
    var s, t := Find(n.ports, l.sourcePortId), Find(n.ports, l.targetPortId);
    Hop(l.id, s.deviceId, t.deviceId, s.id, t.id)
  }

  function Backward(n: Net, l: Link): Hop {
    var h := Forward(n, l);
    Hop(l.id, h.end, h.start, h.endPortId, h.startPortId)
  }

  /** A cable whose ports both carry the VLAN, followed either way. */
  ghost predicate IsHop(n: Net, h: Hop) {
    exists l :: l in n.links && Usable(n, l) && (h == Forward(n, l) || h == Backward(n, l))
  }

  ghost predicate Chained(hops: seq<Hop>) {
    forall i, j | 0 <= i && j == i + 1 && j < |hops| :: hops[i].end == hops[j].start
  }

  /** From the device of one port to that of another, over cables that carry
      the VLAN at both ends, through no server, and at an end that is a server
      only through the given port. */
  ghost predicate IsRoute(n: Net, source: Port, target: Port, hops: seq<Hop>) {
    && hops != [] && Chained(hops) && (forall h | h in hops :: IsHop(n, h))
    && hops[0].start == source.deviceId && hops[|hops| - 1].end == target.deviceId
    && (forall i | 0 <= i < |hops| - 1 :: !IsServer(n, hops[i].end))
    && (IsServer(n, source.deviceId) ==> hops[0].startPortId == source.id)
    && (IsServer(n, target.deviceId) ==> hops[|hops| - 1].endPortId == target.id)
  }

  /** No device is visited twice. */
  ghost predicate IsSimple(hops: seq<Hop>) {
    && (forall i, j | 0 <= i < j < |hops| :: hops[i].end != hops[j].end)
    && (forall i | 0 <= i < |hops| :: hops[i].end != hops[0].start)
  }

  ghost predicate IsShortest(n: Net, source: Port, target: Port, hops: seq<Hop>) {
    IsRoute(n, source, target, hops) && forall other | IsRoute(n, source, target, other) :: |hops| <= |other|
  }

  function LinkIds(hops: seq<Hop>): (ids: seq<Id>)
    ensures |ids| == |hops| && forall i | 0 <= i < |hops| :: ids[i] == hops[i].linkId
  {
    seq(|hops|, i requires 0 <= i < |hops| => hops[i].linkId)
  }

  // ----- the graph that is searched

  /** Servers forward nothing: a trace leaves one only where it starts and
      enters one only where it ends, through the given ports. */
  predicate Passes(n: Net, source: Port, target: Port, h: Hop) {
    && (h.start == source.deviceId || !IsServer(n, h.start))
    && (h.start == source.deviceId && IsServer(n, source.deviceId) ==> h.startPortId == source.id)
    && (h.end == target.deviceId && IsServer(n, target.deviceId) ==> h.endPortId == target.id)
  }

  /** The hops that leave device v, in the order the links are listed. */
  ghost function HopsAt(n: Net, links: seq<Link>, v: Id): seq<Arc<Hop>> {
    if links == [] then [] else
      var l := links[|links| - 1];
      HopsAt(n, links[..|links| - 1], v) + NewHops(n, l, v)
  }

  ghost function NewHops(n: Net, l: Link, v: Id): seq<Arc<Hop>> {
    if !Usable(n, l) then [] else
      (if Forward(n, l).start == v then [Arc(Forward(n, l).end, Forward(n, l))] else []) +
      (if Backward(n, l).start == v then [Arc(Backward(n, l).end, Backward(n, l))] else [])
  }

  ghost function Passable(n: Net, source: Port, target: Port, arcs: seq<Arc<Hop>>): (r: seq<Arc<Hop>>)
    ensures forall a :: a in r <==> a in arcs && Passes(n, source, target, a.tag)
  {
    if arcs == [] then [] else
      var a := arcs[|arcs| - 1];
      assert arcs == arcs[..|arcs| - 1] + [a];
      Passable(n, source, target, arcs[..|arcs| - 1]) + if Passes(n, source, target, a.tag) then [a] else []
  }

  lemma {:induction false} PassablePrefix(n: Net, source: Port, target: Port, arcs: seq<Arc<Hop>>, k: nat)
    requires k <= |arcs|
    ensures Passable(n, source, target, arcs[..k]) <= Passable(n, source, target, arcs)
  {
    hide Passes;
    if k == |arcs| {
      assert arcs[..k] == arcs;
    } else {
      PassablePrefix(n, source, target, arcs[..|arcs| - 1], k);
      assert arcs[..|arcs| - 1][..k] == arcs[..k];
    }
  }

  ghost function HopDevices(n: Net): set<Id> {
    (set l | l in n.links && Usable(n, l) :: Forward(n, l).start) + (set l | l in n.links && Usable(n, l) :: Forward(n, l).end)
  }

  ghost function RouteGraph(n: Net, source: Port, target: Port): Graph<Hop> {
    map v | v in HopDevices(n) :: Passable(n, source, target, HopsAt(n, n.links, v))
  }

  lemma {:induction false} HopListed(n: Net, links: seq<Link>, v: Id, a: Arc<Hop>)
    ensures a in HopsAt(n, links, v) <==> exists l :: l in links && a in NewHops(n, l, v)
  {
    hide NewHops;
    if links != [] {
      HopListed(n, links[..|links| - 1], v, a);
      assert links == links[..|links| - 1] + [links[|links| - 1]];
    }
  }

  lemma {:induction false} NoHopsAt(n: Net, links: seq<Link>, v: Id)
    requires forall l | l in links :: NewHops(n, l, v) == []
    ensures HopsAt(n, links, v) == []
  {
    hide NewHops;
    if links != [] { NoHopsAt(n, links[..|links| - 1], v); }
  }

  lemma OutsideNoHops(n: Net, v: Id)
    requires v !in HopDevices(n)
    ensures HopsAt(n, n.links, v) == []
  {
    NoHopsAt(n, n.links, v);
  }

  /** The arcs of the graph are the hops a route may use. */
  lemma ArcsAreHops(n: Net, source: Port, target: Port, v: Id, a: Arc<Hop>)
    ensures a in Out(RouteGraph(n, source, target), v) <==>
      IsHop(n, a.tag) && a.tag.start == v && a.tag.end == a.to && Passes(n, source, target, a.tag)
  {
    hide Passes, HopsAt, IsHop, HopDevices;
    HopsAreListed(n, v, a);
    if v !in HopDevices(n) { OutsideNoHops(n, v); }
  }

  lemma HopsAreListed(n: Net, v: Id, a: Arc<Hop>)
    ensures a in HopsAt(n, n.links, v) <==> IsHop(n, a.tag) && a.tag.start == v && a.tag.end == a.to
  {
    hide HopsAt, Usable, Forward, Backward;
    HopListed(n, n.links, v, a);
    if l :| l in n.links && a in NewHops(n, l, v) { assert IsHop(n, a.tag); }
    if IsHop(n, a.tag) && a.tag.start == v && a.tag.end == a.to {
      var l :| l in n.links && Usable(n, l) && (a.tag == Forward(n, l) || a.tag == Backward(n, l));
      assert a in NewHops(n, l, v);
    }
  }

  // ----- routes and walks

  ghost function Devices(hops: seq<Hop>): (vs: seq<Id>)
    requires hops != []
    ensures |vs| == |hops| + 1 && vs[0] == hops[0].start && forall i | 0 <= i < |hops| :: vs[i + 1] == hops[i].end
  {
    [hops[0].start] + seq(|hops|, i requires 0 <= i < |hops| => hops[i].end)
  }

  lemma RouteHopPasses(n: Net, source: Port, target: Port, hops: seq<Hop>, i: nat)
    requires IsRoute(n, source, target, hops) && i < |hops|
    ensures IsHop(n, hops[i]) && Passes(n, source, target, hops[i])
    ensures hops[i].start == Devices(hops)[i]
  {
    hide IsHop;
    assert hops[i] in hops;
    if i > 0 { assert hops[i - 1].end == hops[i].start; }
  }

  /** Every route is a walk of the graph. */
  lemma RouteIsWalk(n: Net, source: Port, target: Port, hops: seq<Hop>)
    requires IsRoute(n, source, target, hops)
    ensures Walk(RouteGraph(n, source, target), Devices(hops))
  {
    hide RouteGraph, Passes, IsHop;
    var g := RouteGraph(n, source, target);
    var vs := Devices(hops);
    forall i | 0 <= i < |vs| - 1 ensures HasArc(g, vs[i], vs[i + 1]) {
      RouteHopPasses(n, source, target, hops, i);
      var a := Arc(hops[i].end, hops[i]);
      ArcsAreHops(n, source, target, vs[i], a);
      var k :| 0 <= k < |Out(g, vs[i])| && Out(g, vs[i])[k] == a;
    }
  }

  /** The hops by which the search came from the root to v. */
  ghost function Trail(g: Graph<Hop>, root: Id, s: Search<Hop>, v: Id): (hops: seq<Hop>)
    requires Rooted(g, root, s) && v in s.dist
    ensures |hops| == s.dist[v]
    decreases s.dist[v]
  {
    if v == root then [] else
      assert Hangs(g, s, v);
      Trail(g, root, s, s.parent[v]) + [s.tag[v]]
  }

  /** A chain of open hops from the source's device, through device after
      device at distance 1, 2, 3 and so on. */
  ghost predicate IsTrail(n: Net, source: Port, target: Port, s: Search<Hop>, hops: seq<Hop>, v: Id) {
    && Chained(hops) && (forall h | h in hops :: IsHop(n, h) && Passes(n, source, target, h))
    && (if hops == [] then v == source.deviceId else hops[0].start == source.deviceId && hops[|hops| - 1].end == v)
    && forall i | 0 <= i < |hops| :: hops[i].end in s.dist && s.dist[hops[i].end] == i + 1
  }

  lemma TrailGrows(n: Net, source: Port, target: Port, s: Search<Hop>, hops: seq<Hop>, u: Id, h: Hop)
    requires IsTrail(n, source, target, s, hops, u)
    requires IsHop(n, h) && Passes(n, source, target, h) && h.start == u
    requires h.end in s.dist && s.dist[h.end] == |hops| + 1
    ensures IsTrail(n, source, target, s, hops + [h], h.end)
  {
    hide IsHop, Passes;
  }

  lemma {:induction false} TrailFound(n: Net, source: Port, target: Port, s: Search<Hop>, v: Id)
    requires Rooted(RouteGraph(n, source, target), source.deviceId, s) && v in s.dist
    ensures IsTrail(n, source, target, s, Trail(RouteGraph(n, source, target), source.deviceId, s, v), v)
    decreases s.dist[v]
  {
    hide RouteGraph, IsTrail, IsHop, Passes;
    var g := RouteGraph(n, source, target);
    if v != source.deviceId {
      assert Hangs(g, s, v);
      var u := s.parent[v];
      TrailFound(n, source, target, s, u);
      ArcsAreHops(n, source, target, u, Arc(v, s.tag[v]));
      TrailGrows(n, source, target, s, Trail(g, source.deviceId, s, u), u, s.tag[v]);
    } else {
      NoTrail(n, source, target, s);
    }
  }

  lemma NoTrail(n: Net, source: Port, target: Port, s: Search<Hop>)
    ensures IsTrail(n, source, target, s, [], source.deviceId)
  {
  }

  /** The trail to a device and one more hop, to the target's, are a simple
      route when the target's device has not been reached before. */
  lemma TrailToTarget(n: Net, source: Port, target: Port, s: Search<Hop>, hops: seq<Hop>, u: Id, h: Hop)
    requires IsTrail(n, source, target, s, hops, u)
    requires source.deviceId in s.dist && s.dist[source.deviceId] == 0
    requires IsHop(n, h) && Passes(n, source, target, h) && h.start == u
    requires h.end == target.deviceId && target.deviceId !in s.dist
    ensures IsRoute(n, source, target, hops + [h]) && IsSimple(hops + [h])
  {
    hide IsHop;
    var all := hops + [h];
    forall i | 0 <= i < |all| - 1 ensures !IsServer(n, all[i].end) {
      assert all[i].end == all[i + 1].start && all[i + 1] in all;
      assert all[i].end in s.dist && s.dist[all[i].end] == i + 1;
    }
    assert all[0] in all && all[|all| - 1] in all;
    assert forall x | x in all :: x in hops || x == h;
  }

  /** While the search follows the arcs of c, a device not yet visited is at
      least one step further from the source than c. */
  lemma NotNearer(n: Net, source: Port, target: Port, s: Search<Hop>, c: Id, i: nat, hops: seq<Hop>)
    requires Mid(RouteGraph(n, source, target), source.deviceId, s, c, i)
    requires target.deviceId !in s.dist && IsRoute(n, source, target, hops)
    ensures |hops| >= s.dist[c] + 1
  {
    hide RouteGraph, IsHop, Settled;
    if |hops| <= s.dist[c] {
      RouteIsWalk(n, source, target, hops);
      WalkVisited(RouteGraph(n, source, target), source.deviceId, s, c, i, Devices(hops));
      assert false;
    }
  }

  /** When the search has run out without meeting the target there is no route. */
  lemma NoRoute(n: Net, source: Port, target: Port, s: Search<Hop>, hops: seq<Hop>)
    requires Inv(RouteGraph(n, source, target), source.deviceId, s) && s.queue == []
    requires target.deviceId !in s.dist
    ensures !IsRoute(n, source, target, hops)
  {
    hide RouteGraph, IsHop, Inv;
    if IsRoute(n, source, target, hops) {
      RouteIsWalk(n, source, target, hops);
      WalkFinished(RouteGraph(n, source, target), source.deviceId, s, Devices(hops));
      assert false;
    }
  }

  // ----- both ways

  function Turned(h: Hop): Hop { Hop(h.linkId, h.end, h.start, h.endPortId, h.startPortId) }

  function Return(hops: seq<Hop>): (r: seq<Hop>)
    ensures |r| == |hops| && forall i | 0 <= i < |hops| :: r[i] == Turned(hops[|hops| - 1 - i])
  {
    seq(|hops|, i requires 0 <= i < |hops| => Turned(hops[|hops| - 1 - i]))
  }

  lemma TurnedIsHop(n: Net, h: Hop)
    requires IsHop(n, h)
    ensures IsHop(n, Turned(h))
  {
    var l :| l in n.links && Usable(n, l) && (h == Forward(n, l) || h == Backward(n, l));
    assert Turned(h) == Forward(n, l) || Turned(h) == Backward(n, l);
  }

  /** A route followed the other way is a route back. */
  lemma RouteBack(n: Net, source: Port, target: Port, hops: seq<Hop>)
    requires IsRoute(n, source, target, hops)
    ensures IsRoute(n, target, source, Return(hops))
  {
    hide IsHop;
    var back := Return(hops);
    forall h | h in back ensures IsHop(n, h) {
      var i :| 0 <= i < |back| && back[i] == h;
      assert hops[|hops| - 1 - i] in hops;
      TurnedIsHop(n, hops[|hops| - 1 - i]);
    }
    forall i, j | 0 <= i && j == i + 1 && j < |back| ensures back[i].end == back[j].start {
      assert hops[|hops| - 1 - j].end == hops[|hops| - 1 - i].start;
    }
    forall i | 0 <= i < |back| - 1 ensures !IsServer(n, back[i].end) {
      assert hops[|hops| - 2 - i].end == hops[|hops| - 1 - i].start;
    }
  }

  /** Shortest routes there and back are equally long. */
  lemma SameLengthBack(n: Net, source: Port, target: Port, there: seq<Hop>, back: seq<Hop>)
    requires IsShortest(n, source, target, there) && IsShortest(n, target, source, back)
    ensures |there| == |back|
  {
    hide IsRoute;
    RouteBack(n, source, target, there);
    RouteBack(n, target, source, back);
  }
}
