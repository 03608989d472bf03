/** What a trace's hops and servers are, in the topology's own terms. */
module TraceMeaning {
  import opened Text
  import opened Sorting
  import opened Topology
  import opened Validation
  import opened Ports
  import opened Routes
  import opened TracePath

  predicate PortAt(t: Topology, p: Port) { exists d :: d in t.devices && p in d.ports }

  predicate Carries(p: Port, vlan: int) { !p.mode.Unconfigured? && (p.nativeVLAN == vlan || vlan in p.allowedVLANs) }

  /** The hop leaves by one port of the cable and arrives at the other, and both
      carry the VLAN. */
  predicate Crosses(t: Topology, vlan: int, l: Link, p: Port, q: Port, h: Hop) {
    && l in t.links && PortAt(t, p) && PortAt(t, q) && Carries(p, vlan) && Carries(q, vlan)
    && ((p.id == l.sourcePortId && q.id == l.targetPortId) || (p.id == l.targetPortId && q.id == l.sourcePortId))
    && h == Hop(l.id, p.deviceId, q.deviceId, p.id, q.id)
  }

  lemma PortsApart(t: Topology)
    requires Valid(t)
    ensures DistinctPorts(t.devices) && DistinctDevices(t.devices)
  {
    hide RacksValid, VlansValid, LinksValid, SystemsValid, ClustersValid, GroupsValid, AttachmentsValid, DevicesValid,
         DistinctPorts, DistinctDevices;
    ValidPorts(t);
  }

  /** The port table finds every port of the topology by its identifier, and no
      other. */
  lemma PortFound(t: Topology, vlan: int, p: Port)
    requires DistinctPorts(t.devices)
    ensures PortAt(t, p) <==> p.id in NetOf(t, vlan).ports && NetOf(t, vlan).ports[p.id] == p
  {
    hide DistinctPorts;
    PortIdsOf(Elements(t.devices), p.id);
    if PortAt(t, p) {
      assert HasPort(Elements(t.devices), p);
      var q := PortOf(Elements(t.devices), p.id);
      OnlyPort(t, p, q);
    }
  }

  lemma OnlyPort(t: Topology, p: Port, q: Port)
    requires DistinctPorts(t.devices) && PortAt(t, p) && HasPort(Elements(t.devices), q) && p.id == q.id
    ensures p == q
  {
  }

  lemma PortFoundById(t: Topology, vlan: int, id: Id)
    ensures id in NetOf(t, vlan).ports <==> PortKnown(t, id)
  {
    PortIdsOf(Elements(t.devices), id);
    if PortKnown(t, id) {
      var d, p :| d in t.devices && p in d.ports && p.id == id;
      assert HasPort(Elements(t.devices), p);
    }
  }

  lemma EndFound(t: Topology, vlan: int, device: Id, port: Id) returns (p: Port)
    requires DistinctPorts(t.devices) && PortOn(t.devices, device, port)
    ensures PortAt(t, p) && p.id == port && Find(NetOf(t, vlan).ports, port) == p
  {
    hide DistinctPorts, PortTable;
    var d, q :| d in t.devices && d.id == device && q in d.ports && q.id == port;
    p := q;
    PortFound(t, vlan, p);
  }

  lemma Crossed(t: Topology, vlan: int, l: Link, p: Port, q: Port, h: Hop)
    requires l in t.links && PortAt(t, p) && PortAt(t, q) && p.id == l.sourcePortId && q.id == l.targetPortId
    requires Find(NetOf(t, vlan).ports, p.id) == p && Find(NetOf(t, vlan).ports, q.id) == q
    ensures var n := NetOf(t, vlan);
            Usable(n, l) && (h == Forward(n, l) || h == Backward(n, l)) <==> Crosses(t, vlan, l, p, q, h) || Crosses(t, vlan, l, q, p, h)
  {
    hide PortAt, PortTable, Categories;
  }

  /** The hops of a trace are the crossings of the topology's cables, either way. */
  lemma HopIs(t: Topology, vlan: int, h: Hop)
    requires Valid(t)
    ensures IsHop(NetOf(t, vlan), h) <==> exists l, p, q :: Crosses(t, vlan, l, p, q, h)
  {
    hide Valid, Usable, Forward, Backward, Crosses, PortAt, DistinctPorts, Find, PortTable, Categories;
    PortsApart(t);
    forall l | l in t.links
      ensures Usable(NetOf(t, vlan), l) && (h == Forward(NetOf(t, vlan), l) || h == Backward(NetOf(t, vlan), l)) <==>
                exists p, q :: Crosses(t, vlan, l, p, q, h)
    {
      var p, q := LinkEnds(t, vlan, l);
      Crossed(t, vlan, l, p, q, h);
      if p', q' :| Crosses(t, vlan, l, p', q', h) { CrossedEnds(t, vlan, l, p, q, p', q', h); }
    }
    if l, p, q :| Crosses(t, vlan, l, p, q, h) { CrossesLink(t, vlan, l, p, q, h); }
  }

  lemma CrossesLink(t: Topology, vlan: int, l: Link, p: Port, q: Port, h: Hop)
    requires Crosses(t, vlan, l, p, q, h)
    ensures l in t.links
  {
  }

  lemma LinkEnds(t: Topology, vlan: int, l: Link) returns (p: Port, q: Port)
    requires Valid(t) && DistinctPorts(t.devices) && l in t.links
    ensures PortAt(t, p) && PortAt(t, q) && p.id == l.sourcePortId && q.id == l.targetPortId
    ensures Find(NetOf(t, vlan).ports, p.id) == p && Find(NetOf(t, vlan).ports, q.id) == q
  {
    hide PortAt, DistinctPorts, Find, NetOf, DevicesValid, RacksValid, VlansValid, SystemsValid, ClustersValid, GroupsValid,
         AttachmentsValid;
    assert LinkAnchored(t, l);
    p := EndFound(t, vlan, l.sourceDeviceId, l.sourcePortId);
    q := EndFound(t, vlan, l.targetDeviceId, l.targetPortId);
  }

  lemma CrossedEnds(t: Topology, vlan: int, l: Link, p: Port, q: Port, p': Port, q': Port, h: Hop)
    requires DistinctPorts(t.devices) && Crosses(t, vlan, l, p', q', h)
    requires PortAt(t, p) && PortAt(t, q) && p.id == l.sourcePortId && q.id == l.targetPortId
    ensures Crosses(t, vlan, l, p, q, h) || Crosses(t, vlan, l, q, p, h)
  {
    hide Carries;
    assert (p' == p && q' == q) || (p' == q && q' == p);
  }

  /** A trace takes a device for a server when it is one. */
  lemma ServerIs(t: Topology, vlan: int, device: Id)
    requires Valid(t)
    ensures IsServer(NetOf(t, vlan), device) <==> DeviceIs(t, device, Server)
  {
    hide Valid, DistinctPorts, PortTable;
    PortsApart(t);
    CategoryOf(t.devices, device);
    if d :| d in t.devices && d.id == device && d.category == Server { var i :| 0 <= i < |t.devices| && t.devices[i] == d; }
  }

  lemma {:induction false} CategoryOf(devices: seq<Device>, device: Id)
    requires DistinctDevices(devices)
    ensures forall i | 0 <= i < |devices| && devices[i].id == device :: device in Categories(devices) && Categories(devices)[device] == devices[i].category
    ensures device in Categories(devices) ==> exists d :: d in devices && d.id == device
  {
    if devices != [] {
      var front := devices[..|devices| - 1];
      CategoryOf(front, device);
      assert devices == front + [devices[|devices| - 1]];
      if device in Categories(devices) && device != devices[|devices| - 1].id {
        var d :| d in front && d.id == device;
        assert d in devices;
      }
    }
  }
}
