/** A topology while a request changes it: the slices are fields that the
    mutations reassign, in place, before anything is validated or stored. */
module Draft {
  import opened Text
  import opened Lists
  import opened Topology

  // ----- changing ports in place

  function MapPorts(d: Device, f: Port -> Port): Device { d.(ports := Map(d.ports, f)) }

  function MapAllPorts(devices: seq<Device>, f: Port -> Port): seq<Device> { Map(devices, d => MapPorts(d, f)) }

  /** The first i devices, and the first j ports of the next, have been changed. */
  ghost predicate MappedUpTo(before: seq<Device>, now: seq<Device>, f: Port -> Port, i: nat, j: nat) {
    && |now| == |before| && i <= |before|
    && (forall k | 0 <= k < i :: now[k] == MapPorts(before[k], f))
    && (forall k | i < k < |before| :: now[k] == before[k])
    && (i < |before| ==> j <= |before[i].ports| && now[i] == before[i].(ports := Map(before[i].ports[..j], f) + before[i].ports[j..]))
  }

  lemma NothingMapped(before: seq<Device>, f: Port -> Port)
    ensures MappedUpTo(before, before, f, 0, 0)
  {
    if before != [] { NoPortMapped(before[0], f); }
  }

  lemma NoPortMapped(d: Device, f: Port -> Port)
    ensures d.(ports := Map(d.ports[..0], f) + d.ports[0..]) == d
  {
    assert Map(d.ports[..0], f) + d.ports[0..] == d.ports;
  }

  /** One more port, changed or, when f leaves it alone, not touched at all. */
  lemma PortMapped(before: seq<Device>, now: seq<Device>, f: Port -> Port, i: nat, j: nat)
    requires MappedUpTo(before, now, f, i, j) && i < |before| && j < |before[i].ports|
    ensures |now[i].ports| == |before[i].ports| && now[i].ports[j] == before[i].ports[j]
    ensures MappedUpTo(before, now[i := now[i].(ports := now[i].ports[j := f(now[i].ports[j])])], f, i, j + 1)
    ensures f(now[i].ports[j]) == now[i].ports[j] ==> MappedUpTo(before, now, f, i, j + 1)
  {
    var ports := before[i].ports;
    var mapped := Map(ports[..j], f) + ports[j..];
    assert mapped[j] == ports[j];
    assert mapped[j := f(ports[j])] == Map(ports[..j + 1], f) + ports[j + 1..];
    if f(ports[j]) == ports[j] { assert mapped == mapped[j := f(ports[j])]; }
  }

  lemma DeviceMapped(before: seq<Device>, now: seq<Device>, f: Port -> Port, i: nat)
    requires i < |before| && MappedUpTo(before, now, f, i, |before[i].ports|)
    ensures MappedUpTo(before, now, f, i + 1, 0)
  {
    var ports := before[i].ports;
    assert ports[..|ports|] == ports && Map(ports, f) + ports[|ports|..] == Map(ports, f);
    if i + 1 < |before| { NoPortMapped(before[i + 1], f); }
  }

  lemma AllMapped(before: seq<Device>, now: seq<Device>, f: Port -> Port)
    requires MappedUpTo(before, now, f, |before|, 0)
    ensures now == MapAllPorts(before, f)
  {
  }

  // ----- port status

  function SetStatus(ids: set<Id>, status: PortStatus): Port -> Port {
    (p: Port) => if p.id in ids then p.(status := status) else p
  }

  /** The ports that l ends at on the front. */
  function FrontPorts(l: Link): set<Id> {
    (if l.EffectiveSourceSide().Front? then {l.sourcePortId} else {}) +
    (if l.EffectiveTargetSide().Front? then {l.targetPortId} else {})
  }

  ghost function AllFrontPorts(links: seq<Link>): set<Id> { set l, p | l in links && p in FrontPorts(l) :: p }

  /** The front ports of a removed link that no remaining link ends at. */
  ghost function Unlinked(removed: Link, links: seq<Link>): set<Id> { FrontPorts(removed) - AllFrontPorts(links) }

  ghost function Deactivated(devices: seq<Device>, removed: Link, links: seq<Link>): seq<Device> {
    MapAllPorts(devices, SetStatus(Unlinked(removed, links), Down))
  }

  lemma OneMoreLink(links: seq<Link>, i: nat)
    requires i < |links|
    ensures AllFrontPorts(links[..i + 1]) == AllFrontPorts(links[..i]) + FrontPorts(links[i])
  {
    assert links[..i + 1] == links[..i] + [links[i]];
    assert links[i] in links[..i + 1];
  }

  // ----- the aggregate under change

  /** The position of the link; the number of links when there is none. */
  function LinkIndex(links: seq<Link>, id: Id): (i: nat)
    ensures i <= |links| && (i < |links| ==> links[i].id == id)
  {
    IndexOf(links, (l: Link) => l.id == id)
  }

  class Draft {
    const id: Id
    const rooms: seq<Id>
    const vlans: seq<int>
    const annotations: seq<Id>
    var racks: seq<Rack>
    var devices: seq<Device>
    var links: seq<Link>
    var linkGroups: seq<LinkGroup>
    var switchSystems: seq<SwitchSystem>
    var firewallClusters: seq<FirewallCluster>
    var threads: seq<Attachment>
    var documents: seq<Attachment>
    var photos: seq<Attachment>

    constructor (t: Topology)
      ensures Snapshot() == t
    {
      id, rooms, vlans, annotations := t.id, t.rooms, t.vlans, t.annotations;
      racks, devices, links, linkGroups := t.racks, t.devices, t.links, t.linkGroups;
      switchSystems, firewallClusters := t.switchSystems, t.firewallClusters;
      threads, documents, photos := t.threads, t.documents, t.photos;
    }

    function Snapshot(): Topology
      reads this
    {
      Topology(id, rooms, racks, devices, links, linkGroups, switchSystems, firewallClusters, vlans, annotations,
               threads, documents, photos)
    }

    /** Every port whose identifier is in ids gets the status. */
    method SetPortStatus(ids: set<Id>, status: PortStatus)
      modifies this`devices
      ensures devices == MapAllPorts(old(devices), SetStatus(ids, status))
    {
      hide MapPorts, MapAllPorts, MappedUpTo;
      ghost var before, f := devices, SetStatus(ids, status);
      NothingMapped(before, f);
      for i := 0 to |devices|
        invariant |devices| == |before| && MappedUpTo(before, devices, f, i, 0)
      {
        NotYetMapped(before, devices, f, i);
        for j := 0 to |devices[i].ports|
          invariant |devices| == |before| && MappedUpTo(before, devices, f, i, j) && |devices[i].ports| == |before[i].ports|
        {
          PortMapped(before, devices, f, i, j);
          var port := devices[i].ports[j];
          if port.id in ids {
            devices := devices[i := devices[i].(ports := devices[i].ports[j := port.(status := status)])];
          }
        }
        DeviceMapped(before, devices, f, i);
      }
      AllMapped(before, devices, f);
    }

    /** deactivateUnlinkedEndpointPorts. */
    method DeactivateUnlinkedEndpointPorts(removed: Link)
      modifies this`devices
      ensures devices == Deactivated(old(devices), removed, links)
    {
      hide MapAllPorts, FrontPorts, AllFrontPorts, SetStatus;
      var unlinked := FrontPorts(removed);
      NoFrontPorts(links);
      for i := 0 to |links|
        invariant devices == old(devices) && unlinked == FrontPorts(removed) - AllFrontPorts(links[..i])
      {
        OneMoreLink(links, i);
        unlinked := unlinked - FrontPorts(links[i]);
      }
      assert links[..|links|] == links;
      assert unlinked == Unlinked(removed, links);
      if unlinked == {} {
        NothingToSet(devices, Unlinked(removed, links));
        return;
      }
      SetPortStatus(unlinked, Down);
    }
  }

  lemma NotYetMapped(before: seq<Device>, now: seq<Device>, f: Port -> Port, i: nat)
    requires i < |before| && MappedUpTo(before, now, f, i, 0)
    ensures |now| == |before| && now[i] == before[i]
  {
    NoPortMapped(before[i], f);
  }

  lemma NoFrontPorts(links: seq<Link>)
    ensures AllFrontPorts(links[..0]) == {}
  {
  }

  lemma NothingToSet(devices: seq<Device>, ids: set<Id>)
    requires ids == {}
    ensures MapAllPorts(devices, SetStatus(ids, Down)) == devices
  {
    var f := SetStatus(ids, Down);
    forall d | d in devices ensures MapPorts(d, f) == d { assert Map(d.ports, f) == d.ports; }
    assert forall k | 0 <= k < |devices| :: devices[k] in devices;
  }
}
