/** What Topology.Validate accepts: identities, references, occupancy and
    membership. Regular expressions for names and colours, length limits and
    coordinate ranges are not part of this model. */
module Validation {
  import opened Text
  import opened Sorting
  import opened Lists
  import opened Topology
  import opened StpModel

  // ----- rooms, racks and VLANs

  predicate RoomKnown(t: Topology, room: Id) { room == "" || room in t.rooms }

  predicate RacksDiffer(r: Rack, u: Rack) { r.id != u.id }

  ghost predicate RacksValid(t: Topology) {
    && Distinct(t.rooms) && Pairwise(t.racks, RacksDiffer)
    && forall r | r in t.racks :: WellFormedId(r.id) && RoomKnown(t, r.roomId) && 6 <= r.heightU <= 48
  }

  ghost predicate VlansValid(vlans: seq<int>) {
    Distinct(vlans) && forall v | v in vlans :: 1 <= v <= 4094
  }

  predicate VlansKnown(t: Topology, vlans: seq<int>) { forall v | v in vlans :: v in t.vlans }

  // ----- devices

  predicate PortValid(t: Topology, p: Port, device: Id) {
    && WellFormedId(p.id) && p.deviceId == device && p.portIndex >= 1
    && (!p.mode.Unconfigured? ==> p.nativeVLAN in t.vlans)
    && VlansKnown(t, p.allowedVLANs)
  }

  predicate PortsDiffer(p: Port, q: Port) { p.id != q.id }

  function EffectiveFace(d: Device): RackFace { if d.rackFace.NoFace? then FrontFace else d.rackFace }

  predicate LastUnitFits(d: Device, r: Rack) { 1 <= d.rackUnit && d.rackUnit + d.unitsU - 1 <= r.heightU }

  predicate Mounted(t: Topology, d: Device) {
    if d.rackId == "" then d.rackUnit == 0 && d.rackFace.NoFace?
    else exists r :: r in t.racks && r.id == d.rackId && LastUnitFits(d, r)
  }

  /** Two devices on the same rails of a rack share a unit. */
  predicate Overlap(d: Device, e: Device) {
    && d.rackId != "" && d.rackId == e.rackId && EffectiveFace(d) == EffectiveFace(e)
    && e.rackUnit <= d.rackUnit + d.unitsU - 1 && d.rackUnit <= e.rackUnit + e.unitsU - 1
  }

  predicate Fills(d: Device, rack: Id, face: RackFace, unit: int) {
    && d.rackId == rack && rack != "" && d.rackUnit <= unit < d.rackUnit + d.unitsU
    && face == if d.rackFace.RearFace? then RearFace else FrontFace
  }

  /** Two devices are in each other's way exactly when some unit of some face of a rack
      is filled by both. */
  lemma OverlapIff(d: Device, e: Device)
    requires d.unitsU >= 1 && e.unitsU >= 1
    ensures Overlap(d, e) <==> exists rack, face, unit :: Fills(d, rack, face, unit) && Fills(e, rack, face, unit)
  {
    if Overlap(d, e) {
      var unit := if d.rackUnit < e.rackUnit then e.rackUnit else d.rackUnit;
      assert Fills(d, d.rackId, EffectiveFace(d), unit) && Fills(e, d.rackId, EffectiveFace(d), unit);
    }
  }

  ghost predicate DeviceValid(t: Topology, d: Device) {
    && WellFormedId(d.id) && RoomKnown(t, d.roomId) && 1 <= d.unitsU <= 12 && Mounted(t, d)
    && Pairwise(d.ports, PortsDiffer) && forall p | p in d.ports :: PortValid(t, p, d.id)
  }

  predicate DevicesDiffer(d: Device, e: Device) {
    d.id != e.id && !Overlap(d, e) && forall p, q | p in d.ports && q in e.ports :: p.id != q.id
  }

  ghost predicate DevicesValid(t: Topology) {
    Pairwise(t.devices, DevicesDiffer) && forall d | d in t.devices :: DeviceValid(t, d)
  }

  // ----- links

  datatype Termination = Termination(portId: Id, side: Side)

  function SourceEnd(l: Link): Termination { Termination(l.sourcePortId, l.EffectiveSourceSide()) }

  function TargetEnd(l: Link): Termination { Termination(l.targetPortId, l.EffectiveTargetSide()) }

  function Terminations(l: Link): set<Termination> { {SourceEnd(l), TargetEnd(l)} }

  predicate DeviceIs(t: Topology, device: Id, category: Category) {
    exists d :: d in t.devices && d.id == device && d.category == category
  }

  predicate HasRearChannel(l: Link) { l.rearChannelId != "" || l.rearChannelName != "" || !l.rearChannelType.NoChannelType? }

  /** What a link's own fields must satisfy. */
  predicate LinkWellFormed(l: Link) {
    && WellFormedId(l.id) && l.sourcePortId != l.targetPortId
    && (l.EffectiveSourceSide().Rear? <==> l.EffectiveTargetSide().Rear?)
    && (HasRearChannel(l) ==> l.IsRearPanelConnection() && WellFormedId(l.rearChannelId) && !l.rearChannelType.NoChannelType?)
  }

  /** What it refers to must be there. */
  predicate LinkAnchored(t: Topology, l: Link) {
    && PortOn(t.devices, l.sourceDeviceId, l.sourcePortId) && PortOn(t.devices, l.targetDeviceId, l.targetPortId)
    && (l.EffectiveSourceSide().Rear? ==> DeviceIs(t, l.sourceDeviceId, PatchPanel))
    && (l.EffectiveTargetSide().Rear? ==> DeviceIs(t, l.targetDeviceId, PatchPanel))
    && (l.primaryVLAN == 0 || l.primaryVLAN in t.vlans) && VlansKnown(t, l.vlanIds)
  }

  /** Two links of one rear channel join the same two panels under one name. */
  predicate SameChannel(l: Link, m: Link) {
    && Least(l.sourceDeviceId, l.targetDeviceId) == Least(m.sourceDeviceId, m.targetDeviceId)
    && Greatest(l.sourceDeviceId, l.targetDeviceId) == Greatest(m.sourceDeviceId, m.targetDeviceId)
    && Trim(l.rearChannelName) == Trim(m.rearChannelName) && l.rearChannelType == m.rearChannelType
  }

  predicate LinksDiffer(l: Link, m: Link) {
    && l.id != m.id && Terminations(l) !! Terminations(m)
    && (l.rearChannelId != "" && l.rearChannelId == m.rearChannelId ==> SameChannel(l, m))
  }

  ghost predicate LinksValid(t: Topology) {
    Pairwise(t.links, LinksDiffer) && forall l | l in t.links :: LinkWellFormed(l) && LinkAnchored(t, l)
  }

  // ----- groups, systems and clusters

  predicate LinkKnown(t: Topology, link: Id) { exists l :: l in t.links && l.id == link }

  predicate HasKind(t: Topology, link: Id, physical: bool) {
    exists l, d, p :: l in t.links && l.id == link && d in t.devices && p in d.ports
      && (p.id == l.sourcePortId || p.id == l.targetPortId) && p.kind.PhysicalOnly() == physical
  }

  predicate MixesKinds(t: Topology, g: LinkGroup) {
    exists a, b :: a in g.linkIds && b in g.linkIds && HasKind(t, a, true) && HasKind(t, b, false)
  }

  ghost predicate GroupValid(t: Topology, g: LinkGroup) {
    && WellFormedId(g.id) && |g.linkIds| >= 2 && Distinct(g.linkIds)
    && (forall id | id in g.linkIds :: LinkKnown(t, id))
    && (if g.mode.Failover? then g.primaryLinkId in g.linkIds else g.primaryLinkId == "")
    && !MixesKinds(t, g)
  }

  predicate GroupsDiffer(g: LinkGroup, h: LinkGroup) {
    g.id != h.id && forall id | id in g.linkIds :: id !in h.linkIds
  }

  ghost predicate GroupsValid(t: Topology) {
    Pairwise(t.linkGroups, GroupsDiffer) && forall g | g in t.linkGroups :: GroupValid(t, g)
  }

  ghost predicate SystemValid(t: Topology, s: SwitchSystem) {
    && WellFormedId(s.id) && |s.deviceIds| >= 2 && Distinct(s.deviceIds)
    && forall id | id in s.deviceIds :: DeviceIs(t, id, Switch)
  }

  predicate SystemsDiffer(s: SwitchSystem, u: SwitchSystem) {
    s.id != u.id && forall id | id in s.deviceIds :: id !in u.deviceIds
  }

  ghost predicate SystemsValid(t: Topology) {
    Pairwise(t.switchSystems, SystemsDiffer) && forall s | s in t.switchSystems :: SystemValid(t, s)
  }

  ghost predicate ClusterValid(t: Topology, c: FirewallCluster) {
    && WellFormedId(c.id) && |c.deviceIds| >= 2 && Distinct(c.deviceIds)
    && (forall id | id in c.deviceIds :: DeviceIs(t, id, Firewall))
    && (if c.mode.ActivePassive? then c.activeDeviceId in c.deviceIds else c.activeDeviceId == "")
  }

  predicate ClustersDiffer(c: FirewallCluster, e: FirewallCluster) {
    c.id != e.id && forall id | id in c.deviceIds :: id !in e.deviceIds
  }

  ghost predicate ClustersValid(t: Topology) {
    Pairwise(t.firewallClusters, ClustersDiffer) && forall c | c in t.firewallClusters :: ClusterValid(t, c)
  }

  // ----- comments, documentation links and photos

  predicate PortKnown(t: Topology, port: Id) { exists d, p :: d in t.devices && p in d.ports && p.id == port }

  predicate DeviceKnown(t: Topology, device: Id) { exists d :: d in t.devices && d.id == device }

  predicate RackKnown(t: Topology, rack: Id) { exists r :: r in t.racks && r.id == rack }

  predicate TargetExists(t: Topology, a: Attachment) {
    match a.kind
    case ToCanvas => true
    case ToTopology => a.targetId == t.id
    case ToRack => RackKnown(t, a.targetId)
    case ToDevice => DeviceKnown(t, a.targetId)
    case ToPort => PortKnown(t, a.targetId)
    case ToLink => LinkKnown(t, a.targetId)
    case ToAnnotation => a.targetId in t.annotations
  }

  predicate ThreadValid(t: Topology, a: Attachment) {
    && (a.kind.ToCanvas? || a.kind.ToDevice? || a.kind.ToPort? || a.kind.ToLink?)
    && (a.kind.ToCanvas? ==> a.targetId == "") && TargetExists(t, a)
  }

  predicate DocumentValid(t: Topology, a: Attachment) {
    !a.kind.ToCanvas? && !a.kind.ToAnnotation? && TargetExists(t, a)
  }

  predicate PhotoValid(t: Topology, a: Attachment) { !a.kind.ToCanvas? && TargetExists(t, a) }

  predicate AttachmentsDiffer(a: Attachment, b: Attachment) { a.id != b.id }

  ghost predicate AttachmentsValid(t: Topology) {
    && Distinct(t.annotations)
    && Pairwise(t.threads, AttachmentsDiffer) && Pairwise(t.documents, AttachmentsDiffer) && Pairwise(t.photos, AttachmentsDiffer)
    && (forall a | a in t.threads :: ThreadValid(t, a))
    && (forall a | a in t.documents :: DocumentValid(t, a))
    && forall a | a in t.photos :: PhotoValid(t, a)
  }

  // ----- the aggregate

  ghost predicate Valid(t: Topology) {
    && WellFormedId(t.id) && RacksValid(t) && VlansValid(t.vlans) && DevicesValid(t) && LinksValid(t)
    && SystemsValid(t) && ClustersValid(t) && GroupsValid(t) && AttachmentsValid(t)
  }

  // ----- a valid topology can be simulated

  /** Identifiers of different kinds differ: being random keeps them apart, and
      no validation checks it. */
  ghost predicate KindsApart(t: Topology) {
    && (forall d, s | d in t.devices && s in t.switchSystems :: d.id != s.id)
    && (forall l, g | l in t.links && g in t.linkGroups :: l.id != g.id)
  }

  lemma ValidPorts(t: Topology)
    requires DevicesValid(t)
    ensures DistinctDevices(t.devices) && DistinctPorts(t.devices)
  {
    hide PortValid, Mounted, Overlap;
    assert Pairwise(t.devices, DevicesDiffer);
    forall i, j | 0 <= i < j < |t.devices| ensures t.devices[i].id != t.devices[j].id {
      assert DevicesDiffer(t.devices[i], t.devices[j]);
    }
    forall d, e, p, q | d in t.devices && e in t.devices && p in d.ports && q in e.ports && p.id == q.id ensures p == q {
      SamePort(t, d, e, p, q);
    }
  }

  lemma SamePort(t: Topology, d: Device, e: Device, p: Port, q: Port)
    requires DevicesValid(t) && d in t.devices && e in t.devices && p in d.ports && q in e.ports && p.id == q.id
    ensures d == e && p == q
  {
    hide PortValid, Mounted, Overlap;
    var i :| 0 <= i < |t.devices| && t.devices[i] == d;
    var j :| 0 <= j < |t.devices| && t.devices[j] == e;
    assert i < j ==> DevicesDiffer(d, e);
    assert j < i ==> DevicesDiffer(e, d);
    assert d == e && DeviceValid(t, d);
    var a :| 0 <= a < |d.ports| && d.ports[a] == p;
    var b :| 0 <= b < |d.ports| && d.ports[b] == q;
    assert a < b ==> PortsDiffer(p, q);
    assert b < a ==> PortsDiffer(q, p);
  }

  lemma ValidLinks(t: Topology)
    requires LinksValid(t)
    ensures DistinctLinks(t.links)
  {
    forall i, j | 0 <= i < j < |t.links| ensures t.links[i].id != t.links[j].id {
      assert LinksDiffer(t.links[i], t.links[j]);
    }
  }

  lemma ValidGroups(t: Topology)
    requires GroupsValid(t)
    ensures DisjointGroups(t.linkGroups)
  {
    hide MixesKinds, LinkKnown;
    var groups := t.linkGroups;
    forall i, j | 0 <= i < j < |groups| ensures groups[i].id != groups[j].id { assert GroupsDiffer(groups[i], groups[j]); }
    forall g, h, l | g in groups && h in groups && l in g.linkIds && l in h.linkIds ensures g == h {
      var i :| 0 <= i < |groups| && groups[i] == g;
      var j :| 0 <= j < |groups| && groups[j] == h;
      assert i < j ==> GroupsDiffer(g, h);
      assert j < i ==> GroupsDiffer(h, g);
    }
    forall g | g in groups ensures Distinct(g.linkIds) && (g.mode.Failover? ==> g.primaryLinkId in g.linkIds) {
      assert GroupValid(t, g);
    }
  }

  lemma ValidSystems(t: Topology)
    requires SystemsValid(t)
    ensures DisjointSystems(t.switchSystems)
  {
    hide DeviceIs;
    var systems := t.switchSystems;
    forall s, u | s in systems && u in systems && (s.id == u.id || exists d :: d in s.deviceIds && d in u.deviceIds) ensures s == u {
      var i :| 0 <= i < |systems| && systems[i] == s;
      var j :| 0 <= j < |systems| && systems[j] == u;
      assert i < j ==> SystemsDiffer(s, u);
      assert j < i ==> SystemsDiffer(u, s);
    }
    forall s | s in systems ensures Distinct(s.deviceIds) { assert SystemValid(t, s); }
  }

  /** What the spanning-tree simulation takes for granted holds of every valid
      topology. */
  lemma ValidIsStpReady(t: Topology)
    requires Valid(t) && KindsApart(t)
    ensures StpReady(t) && forall l | l in t.links ::
      PortOn(t.devices, l.sourceDeviceId, l.sourcePortId) && PortOn(t.devices, l.targetDeviceId, l.targetPortId)
  {
    hide PortValid, Mounted, MixesKinds, LinkKnown, DeviceIs, PortOn, VlansKnown, WellFormedId, DistinctPorts,
         DisjointGroups, DisjointSystems, DistinctLinks, DistinctDevices, Pairwise, AttachmentsValid, RacksValid;
    ValidPorts(t);
    ValidLinks(t);
    ValidGroups(t);
    ValidSystems(t);
  }
}
