/** Changes that leave a topology valid: configuring ports, and relabelling
    cables without moving them. */
module ValidationFacts {
  import opened Text
  import opened Sorting
  import opened Lists
  import opened Topology
  import opened Validation
  import opened Draft

  /** f configures ports and leaves alone what they are. */
  ghost predicate KeepsPorts(f: Port -> Port) {
    forall p: Port :: f(p).id == p.id && f(p).deviceId == p.deviceId && f(p).portIndex == p.portIndex && f(p).kind == p.kind
  }

  lemma MappedDevice(devices: seq<Device>, f: Port -> Port, k: nat)
    requires k < |devices| && KeepsPorts(f)
    ensures var d, e := devices[k], MapAllPorts(devices, f)[k];
            && e == d.(ports := Map(d.ports, f)) && |e.ports| == |d.ports|
            && forall i | 0 <= i < |d.ports| :: e.ports[i] == f(d.ports[i]) && e.ports[i].id == d.ports[i].id
  {
  }

  lemma MappedCount(devices: seq<Device>, f: Port -> Port)
    ensures |MapAllPorts(devices, f)| == |devices|
  {
  }

  lemma MappedKnown(t: Topology, f: Port -> Port, device: Id, category: Category)
    requires KeepsPorts(f)
    ensures var t' := t.(devices := MapAllPorts(t.devices, f));
            (DeviceIs(t', device, category) <==> DeviceIs(t, device, category)) && (DeviceKnown(t', device) <==> DeviceKnown(t, device))
  {
    var mapped := MapAllPorts(t.devices, f);
    forall k | 0 <= k < |t.devices| ensures mapped[k].id == t.devices[k].id && mapped[k].category == t.devices[k].category {
      MappedDevice(t.devices, f, k);
    }
    forall d | d in t.devices ensures exists e :: e in mapped && e.id == d.id && e.category == d.category {
      var k :| 0 <= k < |t.devices| && t.devices[k] == d;
      assert mapped[k] in mapped;
    }
    forall e | e in mapped ensures exists d :: d in t.devices && e.id == d.id && e.category == d.category {
      var k :| 0 <= k < |mapped| && mapped[k] == e;
      assert t.devices[k] in t.devices;
    }
  }

  lemma MappedPortThere(devices: seq<Device>, f: Port -> Port, d: Device, p: Port) returns (e: Device)
    requires KeepsPorts(f) && d in devices && p in d.ports
    ensures e in MapAllPorts(devices, f) && e.id == d.id && f(p) in e.ports
  {
    var k :| 0 <= k < |devices| && devices[k] == d;
    MappedDevice(devices, f, k);
    e := MapAllPorts(devices, f)[k];
    var i :| 0 <= i < |d.ports| && d.ports[i] == p;
    assert e.ports[i] == f(p);
  }

  lemma MappedPortBack(devices: seq<Device>, f: Port -> Port, e: Device, q: Port) returns (d: Device, p: Port)
    requires KeepsPorts(f) && e in MapAllPorts(devices, f) && q in e.ports
    ensures d in devices && d.id == e.id && p in d.ports && q == f(p)
  {
    var k :| 0 <= k < |devices| && MapAllPorts(devices, f)[k] == e;
    MappedDevice(devices, f, k);
    d := devices[k];
    var i :| 0 <= i < |e.ports| && e.ports[i] == q;
    p := d.ports[i];
  }

  lemma MappedPorts(t: Topology, f: Port -> Port, device: Id, port: Id)
    requires KeepsPorts(f)
    ensures var t' := t.(devices := MapAllPorts(t.devices, f));
            (PortOn(t'.devices, device, port) <==> PortOn(t.devices, device, port)) && (PortKnown(t', port) <==> PortKnown(t, port))
  {
    hide MapAllPorts, MapPorts;
    var t' := t.(devices := MapAllPorts(t.devices, f));
    forall d, p | d in t.devices && p in d.ports && p.id == port ensures PortOn(t'.devices, d.id, port) && PortKnown(t', port) {
      var e := MappedPortThere(t.devices, f, d, p);
      assert f(p).id == port;
    }
    forall e, q | e in t'.devices && q in e.ports && q.id == port ensures PortOn(t.devices, e.id, port) && PortKnown(t, port) {
      var d, p := MappedPortBack(t.devices, f, e, q);
      assert p.id == port;
    }
  }

  lemma MappedKindThere(t: Topology, f: Port -> Port, link: Id, physical: bool)
    requires KeepsPorts(f) && HasKind(t, link, physical)
    ensures HasKind(t.(devices := MapAllPorts(t.devices, f)), link, physical)
  {
    hide MapAllPorts, MapPorts;
    var l, d, p :| l in t.links && l.id == link && d in t.devices && p in d.ports
      && (p.id == l.sourcePortId || p.id == l.targetPortId) && p.kind.PhysicalOnly() == physical;
    var e := MappedPortThere(t.devices, f, d, p);
    assert f(p).kind.PhysicalOnly() == physical;
  }

  lemma MappedKindBack(t: Topology, f: Port -> Port, link: Id, physical: bool)
    requires KeepsPorts(f) && HasKind(t.(devices := MapAllPorts(t.devices, f)), link, physical)
    ensures HasKind(t, link, physical)
  {
    hide MapAllPorts, MapPorts;
    var devices := MapAllPorts(t.devices, f);
    var l, e, q :| l in t.links && l.id == link && e in devices && q in e.ports
      && (q.id == l.sourcePortId || q.id == l.targetPortId) && q.kind.PhysicalOnly() == physical;
    var d, p := MappedPortBack(t.devices, f, e, q);
    assert p.kind.PhysicalOnly() == physical;
  }

  lemma MappedKind(t: Topology, f: Port -> Port, link: Id, physical: bool)
    requires KeepsPorts(f)
    ensures HasKind(t.(devices := MapAllPorts(t.devices, f)), link, physical) <==> HasKind(t, link, physical)
  {
    hide MapAllPorts, HasKind, KeepsPorts;
    if HasKind(t, link, physical) { MappedKindThere(t, f, link, physical); }
    if HasKind(t.(devices := MapAllPorts(t.devices, f)), link, physical) { MappedKindBack(t, f, link, physical); }
  }

  /** The configured ports are acceptable. */
  ghost predicate PortsAcceptable(t: Topology, f: Port -> Port) {
    forall d, p | d in t.devices && p in d.ports :: PortValid(t, f(p), d.id)
  }

  lemma MappedDeviceValid(t: Topology, f: Port -> Port, k: nat)
    requires KeepsPorts(f) && PortsAcceptable(t, f) && k < |t.devices| && DeviceValid(t, t.devices[k])
    ensures DeviceValid(t.(devices := MapAllPorts(t.devices, f)), MapAllPorts(t.devices, f)[k])
  {
    hide MapAllPorts, MapPorts, VlansKnown, KeepsPorts;
    var t' := t.(devices := MapAllPorts(t.devices, f));
    MappedDevice(t.devices, f, k);
    assert |t'.devices| == |t.devices| by { MappedCount(t.devices, f); }
    var d, e := t.devices[k], t'.devices[k];
    assert Pairwise(e.ports, PortsDiffer) by {
      forall i, j | 0 <= i < j < |e.ports| ensures PortsDiffer(e.ports[i], e.ports[j]) {
        assert PortsDiffer(d.ports[i], d.ports[j]);
      }
    }
    forall q | q in e.ports ensures PortValid(t', q, e.id) {
      var i :| 0 <= i < |e.ports| && e.ports[i] == q;
      assert d.ports[i] in d.ports;
      assert PortValid(t, f(d.ports[i]), d.id);
      SamePortValid(t, t', q, d.id);
    }
    assert Mounted(t', e) by { assert Mounted(t, d); }
  }

  lemma SamePortValid(t: Topology, t': Topology, p: Port, device: Id)
    requires t'.vlans == t.vlans && PortValid(t, p, device)
    ensures PortValid(t', p, device)
  {
  }

  lemma MappedDevicesValid(t: Topology, f: Port -> Port)
    requires KeepsPorts(f) && PortsAcceptable(t, f) && DevicesValid(t)
    ensures DevicesValid(t.(devices := MapAllPorts(t.devices, f)))
  {
    hide MapPorts, DeviceValid, PortsAcceptable, KeepsPorts;
    var t' := t.(devices := MapAllPorts(t.devices, f));
    var mapped := t'.devices;
    forall i, j | 0 <= i < j < |mapped| ensures DevicesDiffer(mapped[i], mapped[j]) {
      assert DevicesDiffer(t.devices[i], t.devices[j]);
      MappedDevice(t.devices, f, i);
      MappedDevice(t.devices, f, j);
      MappedDiffer(t.devices[i], mapped[i], t.devices[j], mapped[j]);
    }
    forall e | e in mapped ensures DeviceValid(t', e) {
      var k :| 0 <= k < |mapped| && mapped[k] == e;
      assert t.devices[k] in t.devices;
      MappedDeviceValid(t, f, k);
    }
  }

  /** d' has d's identity and place, and its ports theirs. */
  ghost predicate Alike(d: Device, d': Device) {
    && d'.id == d.id && d'.rackId == d.rackId && d'.rackUnit == d.rackUnit && d'.rackFace == d.rackFace && d'.unitsU == d.unitsU
    && |d'.ports| == |d.ports| && forall i | 0 <= i < |d.ports| :: d'.ports[i].id == d.ports[i].id
  }

  lemma MappedDiffer(d: Device, d': Device, e: Device, e': Device)
    requires DevicesDiffer(d, e) && Alike(d, d') && Alike(e, e')
    ensures DevicesDiffer(d', e')
  {
    forall p, q | p in d'.ports && q in e'.ports ensures p.id != q.id {
      var i :| 0 <= i < |d'.ports| && d'.ports[i] == p;
      var j :| 0 <= j < |e'.ports| && e'.ports[j] == q;
      assert d.ports[i] in d.ports && e.ports[j] in e.ports;
    }
  }

  // ----- references that stay good

  /** Everything t refers to, t' has. */
  ghost predicate Covers(t: Topology, t': Topology) {
    && t'.id == t.id && t'.vlans == t.vlans && t'.annotations == t.annotations && t'.rooms == t.rooms && t'.racks == t.racks
    && (forall d, c :: DeviceIs(t, d, c) ==> DeviceIs(t', d, c))
    && (forall d :: DeviceKnown(t, d) ==> DeviceKnown(t', d))
    && (forall d, p :: PortOn(t.devices, d, p) ==> PortOn(t'.devices, d, p))
    && (forall p :: PortKnown(t, p) ==> PortKnown(t', p))
    && (forall l :: LinkKnown(t, l) ==> LinkKnown(t', l))
    && (forall l, k :: HasKind(t', l, k) ==> HasKind(t, l, k))
  }

  lemma CoveredLinks(t: Topology, t': Topology)
    requires Covers(t, t') && LinksValid(t) && t'.links == t.links
    ensures LinksValid(t')
  {
    hide LinkWellFormed, LinksDiffer, DeviceIs, PortOn;
    forall l | l in t'.links ensures LinkAnchored(t', l) { assert LinkAnchored(t, l); }
  }

  lemma CoveredGroup(t: Topology, t': Topology, g: LinkGroup)
    requires Covers(t, t') && GroupValid(t, g)
    ensures GroupValid(t', g)
  {
    hide DeviceIs, PortOn, LinkKnown, HasKind, PortKnown, DeviceKnown;
  }

  lemma CoveredSystem(t: Topology, t': Topology, s: SwitchSystem)
    requires Covers(t, t') && SystemValid(t, s)
    ensures SystemValid(t', s)
  {
    hide PortOn, LinkKnown, HasKind, DeviceIs, PortKnown, DeviceKnown;
  }

  lemma CoveredCluster(t: Topology, t': Topology, c: FirewallCluster)
    requires Covers(t, t') && ClusterValid(t, c)
    ensures ClusterValid(t', c)
  {
    hide PortOn, LinkKnown, HasKind, DeviceIs, PortKnown, DeviceKnown;
  }

  lemma CoveredMembers(t: Topology, t': Topology)
    requires Covers(t, t') && SystemsValid(t) && ClustersValid(t) && GroupsValid(t)
    requires t'.linkGroups == t.linkGroups && t'.switchSystems == t.switchSystems && t'.firewallClusters == t.firewallClusters
    ensures SystemsValid(t') && ClustersValid(t') && GroupsValid(t')
  {
    hide Covers, GroupValid, SystemValid, ClusterValid, GroupsDiffer, SystemsDiffer, ClustersDiffer;
    forall g | g in t'.linkGroups ensures GroupValid(t', g) { CoveredGroup(t, t', g); }
    forall s | s in t'.switchSystems ensures SystemValid(t', s) { CoveredSystem(t, t', s); }
    forall c | c in t'.firewallClusters ensures ClusterValid(t', c) { CoveredCluster(t, t', c); }
  }

  lemma CoveredAttachments(t: Topology, t': Topology)
    requires Covers(t, t') && AttachmentsValid(t)
    requires t'.threads == t.threads && t'.documents == t.documents && t'.photos == t.photos
    ensures AttachmentsValid(t')
  {
    hide LinkKnown, HasKind, PortOn, DeviceIs, PortKnown, DeviceKnown, AttachmentsDiffer;
    forall a | TargetExists(t, a) ensures TargetExists(t', a) { CoveredTarget(t, t', a); }
    forall a | a in t'.threads ensures ThreadValid(t', a) { assert ThreadValid(t, a); }
    forall a | a in t'.documents ensures DocumentValid(t', a) { assert DocumentValid(t, a); }
    forall a | a in t'.photos ensures PhotoValid(t', a) { assert PhotoValid(t, a); }
  }

  lemma CoveredTarget(t: Topology, t': Topology, a: Attachment)
    requires Covers(t, t') && TargetExists(t, a)
    ensures TargetExists(t', a)
  {
    hide LinkKnown, HasKind, PortOn, DeviceIs, PortKnown, DeviceKnown;
  }

  lemma MappedCovers(t: Topology, f: Port -> Port)
    requires KeepsPorts(f)
    ensures Covers(t, t.(devices := MapAllPorts(t.devices, f)))
  {
    hide MapAllPorts, KeepsPorts, DeviceIs, DeviceKnown, PortOn, PortKnown, HasKind;
    var t' := t.(devices := MapAllPorts(t.devices, f));
    forall d, c ensures (DeviceIs(t, d, c) <==> DeviceIs(t', d, c)) && (DeviceKnown(t, d) <==> DeviceKnown(t', d)) {
      MappedKnown(t, f, d, c);
    }
    forall d, p ensures (PortOn(t.devices, d, p) <==> PortOn(t'.devices, d, p)) && (PortKnown(t, p) <==> PortKnown(t', p)) {
      MappedPorts(t, f, d, p);
    }
    forall l, k ensures HasKind(t', l, k) <==> HasKind(t, l, k) { MappedKind(t, f, l, k); }
    assert forall d :: DeviceKnown(t, d) ==> DeviceKnown(t', d) by {
      forall d ensures DeviceKnown(t, d) <==> DeviceKnown(t', d) { MappedKnown(t, f, d, Switch); }
    }
    assert forall p :: PortKnown(t, p) ==> PortKnown(t', p) by {
      forall p ensures PortKnown(t, p) <==> PortKnown(t', p) { MappedPorts(t, f, "", p); }
    }
  }

  /** Configuring ports with known VLANs leaves a topology valid. */
  lemma MappedPortsValid(t: Topology, f: Port -> Port)
    requires Valid(t) && KeepsPorts(f) && PortsAcceptable(t, f)
    ensures Valid(t.(devices := MapAllPorts(t.devices, f)))
  {
    hide MapAllPorts, KeepsPorts, PortsAcceptable, DevicesValid, LinksValid, SystemsValid, ClustersValid, GroupsValid, AttachmentsValid, Covers;
    var t' := t.(devices := MapAllPorts(t.devices, f));
    MappedDevicesValid(t, f);
    MappedCovers(t, f);
    CoveredLinks(t, t');
    CoveredMembers(t, t');
    CoveredAttachments(t, t');
  }

  // ----- cables relabelled in place

  /** l' is l with another type, other VLANs or another note. */
  ghost predicate Relabelled(l: Link, l': Link) {
    && l'.id == l.id && l'.sourceDeviceId == l.sourceDeviceId && l'.sourcePortId == l.sourcePortId && l'.sourceSide == l.sourceSide
    && l'.targetDeviceId == l.targetDeviceId && l'.targetPortId == l.targetPortId && l'.targetSide == l.targetSide
    && l'.rearChannelId == l.rearChannelId && l'.rearChannelName == l.rearChannelName && l'.rearChannelType == l.rearChannelType
  }

  ghost predicate RelabelledAll(t: Topology, links: seq<Link>) {
    && |links| == |t.links|
    && forall k | 0 <= k < |links| :: Relabelled(t.links[k], links[k])
        && (links[k].primaryVLAN == 0 || links[k].primaryVLAN in t.vlans) && VlansKnown(t, links[k].vlanIds)
  }

  lemma RelabelledSame(l: Link, l': Link, m: Link, m': Link)
    requires Relabelled(l, l') && Relabelled(m, m') && LinksDiffer(l, m)
    ensures LinksDiffer(l', m')
  {
  }

  lemma RelabelledAnchored(t: Topology, t': Topology, l: Link, l': Link)
    requires Relabelled(l, l') && LinkWellFormed(l) && LinkAnchored(t, l)
    requires t'.devices == t.devices && t'.vlans == t.vlans
    requires (l'.primaryVLAN == 0 || l'.primaryVLAN in t.vlans) && VlansKnown(t, l'.vlanIds)
    ensures LinkWellFormed(l') && LinkAnchored(t', l')
  {
    hide PortOn;
  }

  lemma RelabelledLinks(t: Topology, links: seq<Link>)
    requires LinksValid(t) && RelabelledAll(t, links)
    ensures LinksValid(t.(links := links))
  {
    hide LinksDiffer, LinkWellFormed, LinkAnchored, Relabelled, VlansKnown;
    var t' := t.(links := links);
    forall i, j | 0 <= i < j < |links| ensures LinksDiffer(links[i], links[j]) {
      RelabelledSame(t.links[i], links[i], t.links[j], links[j]);
    }
    forall l | l in links ensures LinkWellFormed(l) && LinkAnchored(t', l) {
      var k :| 0 <= k < |links| && links[k] == l;
      assert t.links[k] in t.links;
      RelabelledAnchored(t, t', t.links[k], l);
    }
  }

  lemma RelabelledCovers(t: Topology, links: seq<Link>)
    requires RelabelledAll(t, links)
    ensures Covers(t, t.(links := links))
  {
    hide DeviceIs, DeviceKnown, PortOn, PortKnown, VlansKnown;
    var t' := t.(links := links);
    forall l | LinkKnown(t, l) ensures LinkKnown(t', l) {
      var m :| m in t.links && m.id == l;
      var k :| 0 <= k < |t.links| && t.links[k] == m;
      assert links[k] in links;
    }
    forall l, k | HasKind(t', l, k) ensures HasKind(t, l, k) { RelabelledKind(t, links, l, k); }
    SameDevices(t, t');
  }

  lemma SameDevices(t: Topology, t': Topology)
    requires t'.devices == t.devices
    ensures forall d, c :: DeviceIs(t, d, c) ==> DeviceIs(t', d, c)
    ensures forall d :: DeviceKnown(t, d) ==> DeviceKnown(t', d)
    ensures forall p :: PortKnown(t, p) ==> PortKnown(t', p)
  {
  }

  lemma RelabelledKind(t: Topology, links: seq<Link>, link: Id, physical: bool)
    requires RelabelledAll(t, links) && HasKind(t.(links := links), link, physical)
    ensures HasKind(t, link, physical)
  {
    hide VlansKnown;
    var l, d, p :| l in links && l.id == link && d in t.devices && p in d.ports
      && (p.id == l.sourcePortId || p.id == l.targetPortId) && p.kind.PhysicalOnly() == physical;
    var k :| 0 <= k < |links| && links[k] == l;
    assert t.links[k] in t.links;
  }

  /** Relabelling cables with known VLANs leaves a topology valid. */
  lemma RelabelledLinksValid(t: Topology, links: seq<Link>)
    requires Valid(t) && RelabelledAll(t, links)
    ensures Valid(t.(links := links))
  {
    hide DeviceValid, DevicesDiffer, LinksValid, SystemsValid, ClustersValid, GroupsValid, AttachmentsValid, Covers, RelabelledAll;
    var t' := t.(links := links);
    RelabelledLinks(t, links);
    RelabelledCovers(t, links);
    CoveredMembers(t, t');
    CoveredAttachments(t, t');
    forall d | d in t'.devices ensures DeviceValid(t', d) { SameDeviceValid(t, t', d); }
  }

  lemma SameDeviceValid(t: Topology, t': Topology, d: Device)
    requires t'.rooms == t.rooms && t'.racks == t.racks && t'.vlans == t.vlans && DeviceValid(t, d)
    ensures DeviceValid(t', d)
  {
    assert Mounted(t', d) by { assert Mounted(t, d); }
    forall p | p in d.ports ensures PortValid(t', p, d.id) { SamePortValid(t, t', p, d.id); }
  }
}
