/** Normalizing is idempotent, and it keeps a valid topology valid except where
    a cable it moves to the rear meets another one there. */
module NormalizeFacts {
  import opened Text
  import opened Sorting
  import opened Lists
  import opened Topology
  import opened Validation
  import opened ValidationFacts
  import opened Normalize
  import PortIndices

  // ----- idempotence

  lemma NormalPortTwice(p: Port, device: Id)
    ensures NormalPort(NormalPort(p, device), device) == NormalPort(p, device)
  {
  }

  lemma NormalPortsTwice(ports: seq<Port>, device: Id)
    ensures NormalPorts(NormalPorts(ports, device), device) == NormalPorts(ports, device)
  {
    hide NormalPort;
    var once, indexed := NormalPorts(ports, device), PortIndices.Normalized(ports);
    PortIndices.ReindexedDistinct(ports, |ports|);
    forall i | 0 <= i < |once| ensures once[i].portIndex == indexed[i].portIndex { NormalPortIndex(indexed[i], device); }
    PortIndices.ReindexedSame(once, |once|);
    assert PortIndices.Normalized(once) == once;
    forall i | 0 <= i < |once| ensures NormalPort(once[i], device) == once[i] { NormalPortTwice(indexed[i], device); }
    assert |NormalPorts(once, device)| == |once|;
  }

  lemma NormalPortIndex(p: Port, device: Id)
    ensures NormalPort(p, device).portIndex == p.portIndex && NormalPort(p, device).id == p.id
    ensures NormalPort(p, device).kind == p.kind && NormalPort(p, device).mode == p.mode
    ensures NormalPort(p, device).nativeVLAN == p.nativeVLAN && NormalPort(p, device).deviceId == device
  {
  }

  lemma NormalDeviceTwice(d: Device)
    ensures NormalDevice(NormalDevice(d)) == NormalDevice(d)
  {
    hide NormalPorts;
    NormalPortsTwice(d.ports, d.id);
  }

  lemma NormalLinkTwice(devices: seq<Device>, devices': seq<Device>, l: Link)
    requires forall id :: IsPanel(devices', id) <==> IsPanel(devices, id)
    ensures NormalLink(devices', NormalLink(devices, l)) == NormalLink(devices, l)
  {
    hide IsPanel;
    TrimTwice(l.rearChannelId);
    TrimTwice(l.rearChannelName);
  }

  lemma NormalMembersTwice(g: LinkGroup, s: SwitchSystem, c: FirewallCluster)
    ensures NormalGroup(NormalGroup(g)) == NormalGroup(g)
    ensures NormalSystem(NormalSystem(s)) == NormalSystem(s)
    ensures NormalCluster(NormalCluster(c)) == NormalCluster(c)
  {
  }

  /** Normalizing a normalized topology changes nothing. */
  lemma NormalTwice(t: Topology)
    ensures Normal(Normal(t)) == Normal(t)
  {
    hide NormalDevice, NormalLink, NormalGroup, NormalSystem, NormalCluster, IsPanel;
    var once := Normal(t);
    forall i | 0 <= i < |t.devices| ensures NormalDevice(once.devices[i]) == once.devices[i] { NormalDeviceTwice(t.devices[i]); }
    PanelsNormalized(t.devices);
    forall i | 0 <= i < |t.links| ensures NormalLink(once.devices, once.links[i]) == once.links[i] {
      NormalLinkTwice(t.devices, once.devices, t.links[i]);
    }
    forall i | 0 <= i < |t.linkGroups| ensures NormalGroup(once.linkGroups[i]) == once.linkGroups[i] {
      NormalMembersTwice(t.linkGroups[i], SwitchSystem("", "", []), FirewallCluster("", ActiveActive, [], ""));
    }
    forall i | 0 <= i < |t.switchSystems| ensures NormalSystem(once.switchSystems[i]) == once.switchSystems[i] {
      NormalMembersTwice(LinkGroup("", Lacp, [], ""), t.switchSystems[i], FirewallCluster("", ActiveActive, [], ""));
    }
    forall i | 0 <= i < |t.firewallClusters| ensures NormalCluster(once.firewallClusters[i]) == once.firewallClusters[i] {
      NormalMembersTwice(LinkGroup("", Lacp, [], ""), SwitchSystem("", "", []), t.firewallClusters[i]);
    }
    assert Map(once.links, l => NormalLink(once.devices, l)) == once.links;
  }

  // ----- devices

  lemma NormalDeviceShape(d: Device)
    ensures var e := NormalDevice(d);
            && e == d.(rackFace := NormalFace(d), ports := e.ports) && |e.ports| == |d.ports|
            && forall i | 0 <= i < |d.ports| :: e.ports[i].id == d.ports[i].id && e.ports[i].kind == d.ports[i].kind
  {
    hide NormalPort;
    forall i | 0 <= i < |d.ports| ensures NormalDevice(d).ports[i].id == d.ports[i].id && NormalDevice(d).ports[i].kind == d.ports[i].kind {
      PortIndices.ReindexedAt(d.ports, |d.ports|, i);
      NormalPortIndex(PortIndices.Normalized(d.ports)[i], d.id);
    }
  }

  lemma NormalPortValid(t: Topology, t': Topology, ports: seq<Port>, device: Id, i: nat)
    requires i < |ports| && PortValid(t, ports[i], device) && t'.vlans == t.vlans
    ensures PortValid(t', NormalPorts(ports, device)[i], device)
  {
    var q := PortIndices.Normalized(ports)[i];
    PortIndices.ReindexedAt(ports, |ports|, i);
    forall v | v in NormalPort(q, device).allowedVLANs ensures v in t.vlans {
      assert v in Elements(NormalPort(q, device).allowedVLANs);
    }
  }

  lemma NormalDeviceValid(t: Topology, t': Topology, d: Device)
    requires DeviceValid(t, d) && t'.rooms == t.rooms && t'.racks == t.racks && t'.vlans == t.vlans
    ensures DeviceValid(t', NormalDevice(d))
  {
    hide NormalPorts, PortValid;
    var e := NormalDevice(d);
    NormalDeviceShape(d);
    assert Mounted(t', e) by { assert Mounted(t, d); }
    forall i, j | 0 <= i < j < |e.ports| ensures PortsDiffer(e.ports[i], e.ports[j]) { assert PortsDiffer(d.ports[i], d.ports[j]); }
    forall q | q in e.ports ensures PortValid(t', q, e.id) {
      var i :| 0 <= i < |e.ports| && e.ports[i] == q;
      assert d.ports[i] in d.ports;
      NormalPortValid(t, t', d.ports, d.id, i);
    }
  }

  lemma NormalDevicesDiffer(d: Device, e: Device)
    requires DevicesDiffer(d, e)
    ensures DevicesDiffer(NormalDevice(d), NormalDevice(e))
  {
    hide NormalPorts, Overlap;
    NormalPortsDiffer(d, e);
    NormalOverlap(d, e);
  }

  lemma NormalPortsDiffer(d: Device, e: Device)
    requires forall p, q | p in d.ports && q in e.ports :: p.id != q.id
    ensures forall p, q | p in NormalDevice(d).ports && q in NormalDevice(e).ports :: p.id != q.id
  {
    hide NormalDevice;
    NormalDeviceShape(d);
    NormalDeviceShape(e);
    var d', e' := NormalDevice(d), NormalDevice(e);
    forall p, q | p in d'.ports && q in e'.ports ensures p.id != q.id {
      var i :| 0 <= i < |d'.ports| && d'.ports[i] == p;
      var j :| 0 <= j < |e'.ports| && e'.ports[j] == q;
      assert d.ports[i] in d.ports && e.ports[j] in e.ports;
    }
  }

  lemma NormalOverlap(d: Device, e: Device)
    ensures Overlap(NormalDevice(d), NormalDevice(e)) ==> Overlap(d, e)
  {
    hide NormalPorts;
  }

  lemma NormalDevicesValid(t: Topology)
    requires DevicesValid(t)
    ensures DevicesValid(Normal(t))
  {
    hide NormalDevice, DeviceValid, DevicesDiffer, NormalLink, NormalGroup, NormalSystem, NormalCluster;
    var t' := Normal(t);
    MapPairwise(t.devices, NormalDevice, DevicesDiffer, DevicesDiffer) by {
      forall d, e | d in t.devices && e in t.devices && DevicesDiffer(d, e)
        ensures DevicesDiffer(NormalDevice(d), NormalDevice(e)) { NormalDevicesDiffer(d, e); }
    }
    forall e | e in t'.devices ensures DeviceValid(t', e) {
      var d := MapMember(t.devices, NormalDevice, e);
      NormalDeviceValid(t, t', d);
    }
  }

  // ----- references

  lemma NormalThere(t: Topology, d: Device)
    requires d in t.devices
    ensures NormalDevice(d) in Normal(t).devices
  {
    hide NormalDevice, NormalLink, NormalGroup, NormalSystem, NormalCluster;
    var i :| 0 <= i < |t.devices| && t.devices[i] == d;
    assert Normal(t).devices[i] == NormalDevice(d);
  }

  lemma NormalPortThere(d: Device, p: Port)
    requires p in d.ports
    ensures exists q :: q in NormalDevice(d).ports && q.id == p.id && q.kind == p.kind
  {
    hide NormalPorts;
    NormalDeviceShape(d);
    var i :| 0 <= i < |d.ports| && d.ports[i] == p;
    assert NormalDevice(d).ports[i] in NormalDevice(d).ports;
  }

  lemma NormalPortBack(d: Device, q: Port)
    requires q in NormalDevice(d).ports
    ensures exists p :: p in d.ports && q.id == p.id && q.kind == p.kind
  {
    hide NormalPorts;
    NormalDeviceShape(d);
    var i :| 0 <= i < |NormalDevice(d).ports| && NormalDevice(d).ports[i] == q;
    assert d.ports[i] in d.ports;
  }

  lemma NormalLinkShape(devices: seq<Device>, l: Link)
    ensures var m := NormalLink(devices, l);
            && m.id == l.id && m.sourceDeviceId == l.sourceDeviceId && m.sourcePortId == l.sourcePortId
            && m.targetDeviceId == l.targetDeviceId && m.targetPortId == l.targetPortId
  {
    hide Legacy;
  }

  lemma NormalLinksThere(t: Topology, l: Link)
    requires l in t.links
    ensures NormalLink(t.devices, l) in Normal(t).links
  {
    hide NormalDevice, NormalLink, NormalGroup, NormalSystem, NormalCluster;
    var i :| 0 <= i < |t.links| && t.links[i] == l;
    assert Normal(t).links[i] == NormalLink(t.devices, l);
  }

  lemma NormalLinkBack(t: Topology, m: Link) returns (l: Link)
    requires m in Normal(t).links
    ensures l in t.links && m == NormalLink(t.devices, l)
  {
    hide NormalDevice, NormalLink, NormalGroup, NormalSystem, NormalCluster;
    var i :| 0 <= i < |Normal(t).links| && Normal(t).links[i] == m;
    l := t.links[i];
  }

  lemma NormalCovers(t: Topology)
    ensures Covers(t, Normal(t))
  {
    hide NormalDevice, NormalLink, Normal;
    var t' := Normal(t);
    forall d | d in t.devices ensures NormalDevice(d) in t'.devices && NormalDevice(d).id == d.id && NormalDevice(d).category == d.category {
      NormalThere(t, d);
      NormalDeviceShape(d);
    }
    forall d, p | d in t.devices && p in d.ports
      ensures exists e, q :: e in t'.devices && e.id == d.id && q in e.ports && q.id == p.id
    {
      NormalThere(t, d);
      NormalPortThere(d, p);
      assert NormalDevice(d) in t'.devices;
    }
    forall l | l in t.links ensures exists m :: m in t'.links && m.id == l.id {
      NormalLinksThere(t, l);
      NormalLinkShape(t.devices, l);
    }
    forall l, k | HasKind(t', l, k) ensures HasKind(t, l, k) { NormalKind(t, l, k); }
  }

  lemma NormalKind(t: Topology, link: Id, physical: bool)
    requires HasKind(Normal(t), link, physical)
    ensures HasKind(t, link, physical)
  {
    hide NormalDevice, NormalLink, NormalGroup, NormalSystem, NormalCluster;
    var t' := Normal(t);
    var m, e, q :| m in t'.links && m.id == link && e in t'.devices && q in e.ports
      && (q.id == m.sourcePortId || q.id == m.targetPortId) && q.kind.PhysicalOnly() == physical;
    var l := NormalLinkBack(t, m);
    NormalLinkShape(t.devices, l);
    var d := MapMember(t.devices, NormalDevice, e);
    NormalPortBack(d, q);
    var p :| p in d.ports && q.id == p.id && q.kind == p.kind;
  }

  // ----- links

  /** No cable that normalizing moves to the rear ends where another already
      does. */
  ghost predicate LegacyFits(t: Topology) {
    forall l, m | l in t.links && m in t.links && Legacy(t.devices, l) && m.IsRearPanelConnection() :: NoPortShared(l, m)
  }

  predicate NoPortShared(l: Link, m: Link) {
    && l.sourcePortId != m.sourcePortId && l.sourcePortId != m.targetPortId
    && l.targetPortId != m.sourcePortId && l.targetPortId != m.targetPortId
  }

  lemma NormalSides(devices: seq<Device>, l: Link)
    ensures var m := NormalLink(devices, l);
            if Legacy(devices, l) then m.EffectiveSourceSide().Rear? && m.EffectiveTargetSide().Rear?
            else m.EffectiveSourceSide() == l.EffectiveSourceSide() && m.EffectiveTargetSide() == l.EffectiveTargetSide()
  {
    hide IsPanel;
  }

  lemma ChannelTrimmed(devices: seq<Device>, l: Link)
    requires LinkWellFormed(l)
    ensures NormalLink(devices, l).rearChannelId == l.rearChannelId
    ensures NormalLink(devices, l).rearChannelName == Trim(l.rearChannelName)
    ensures NormalLink(devices, l).rearChannelType == l.rearChannelType
    ensures HasRearChannel(NormalLink(devices, l)) ==> HasRearChannel(l)
    ensures Legacy(devices, l) ==> !HasRearChannel(l)
  {
    hide IsPanel;
    if HasRearChannel(l) { TrimId(l.rearChannelId); }
  }

  lemma NormalWellFormed(devices: seq<Device>, l: Link)
    requires LinkWellFormed(l)
    ensures LinkWellFormed(NormalLink(devices, l))
  {
    hide Legacy, NormalLink;
    NormalLinkShape(devices, l);
    NormalSides(devices, l);
    ChannelTrimmed(devices, l);
  }

  lemma NormalAnchored(t: Topology, l: Link)
    requires LinkWellFormed(l) && LinkAnchored(t, l)
    ensures LinkAnchored(Normal(t), NormalLink(t.devices, l))
  {
    hide NormalLink, Normal, PortOn, DeviceIs, IsPanel, VlansKnown;
    NormalCovers(t);
    NormalLinkShape(t.devices, l);
    NormalSides(t.devices, l);
    if Legacy(t.devices, l) { LegacyPanels(t, l); }
    NormalLinkVlans(t, l);
  }

  lemma LegacyPanels(t: Topology, l: Link)
    requires Legacy(t.devices, l)
    ensures DeviceIs(t, l.sourceDeviceId, PatchPanel) && DeviceIs(t, l.targetDeviceId, PatchPanel)
  {
  }

  lemma NormalLinkVlans(t: Topology, l: Link)
    requires VlansKnown(t, l.vlanIds)
    ensures VlansKnown(Normal(t), NormalLink(t.devices, l).vlanIds) && NormalLink(t.devices, l).primaryVLAN == l.primaryVLAN
  {
    hide Legacy, Normal;
    var vlans := NormalLink(t.devices, l).vlanIds;
    forall v | v in vlans ensures v in t.vlans { assert v in Elements(vlans); }
  }

  /** Two cables that differ still do, unless one of them moves onto the other. */
  lemma NormalLinksDiffer(t: Topology, l: Link, m: Link)
    requires LinksDiffer(l, m) && LinkWellFormed(l) && LinkWellFormed(m)
    requires Legacy(t.devices, l) && m.IsRearPanelConnection() ==> NoPortShared(l, m)
    requires Legacy(t.devices, m) && l.IsRearPanelConnection() ==> NoPortShared(m, l)
    ensures LinksDiffer(NormalLink(t.devices, l), NormalLink(t.devices, m))
  {
    hide NormalLink, Legacy, SameChannel;
    NormalLinkShape(t.devices, l);
    NormalLinkShape(t.devices, m);
    NormalSides(t.devices, l);
    NormalSides(t.devices, m);
    LegacyFront(t.devices, l);
    LegacyFront(t.devices, m);
    NormalChannels(t, l, m);
  }

  lemma LegacyFront(devices: seq<Device>, l: Link)
    ensures Legacy(devices, l) ==> l.EffectiveSourceSide().Front? && l.EffectiveTargetSide().Front? && !l.IsRearPanelConnection()
  {
    hide IsPanel;
  }

  lemma NormalChannels(t: Topology, l: Link, m: Link)
    requires LinksDiffer(l, m) && LinkWellFormed(l) && LinkWellFormed(m)
    ensures var l', m' := NormalLink(t.devices, l), NormalLink(t.devices, m);
            l'.rearChannelId != "" && l'.rearChannelId == m'.rearChannelId ==> SameChannel(l', m')
  {
    hide NormalLink, Legacy, Terminations, Least, Greatest;
    NormalLinkShape(t.devices, l);
    NormalLinkShape(t.devices, m);
    ChannelTrimmed(t.devices, l);
    ChannelTrimmed(t.devices, m);
    TrimTwice(l.rearChannelName);
    TrimTwice(m.rearChannelName);
  }

  lemma NormalLinksValid(t: Topology)
    requires LinksValid(t) && LegacyFits(t)
    ensures LinksValid(Normal(t))
  {
    hide NormalLink, Legacy, LinksDiffer, LinkWellFormed, LinkAnchored, NoPortShared, NormalDevice, NormalGroup, NormalSystem, NormalCluster;
    var t' := Normal(t);
    forall i, j | 0 <= i < j < |t.links| ensures LinksDiffer(t'.links[i], t'.links[j]) {
      assert t.links[i] in t.links && t.links[j] in t.links && LinksDiffer(t.links[i], t.links[j]);
      NormalLinksDiffer(t, t.links[i], t.links[j]);
    }
    forall m | m in t'.links ensures LinkWellFormed(m) && LinkAnchored(t', m) {
      var l := NormalLinkBack(t, m);
      NormalWellFormed(t.devices, l);
      NormalAnchored(t, l);
    }
  }

  // ----- groups, systems and clusters

  lemma SortedMembers(ids: seq<Id>)
    requires Distinct(ids)
    ensures var r := SortedIds(Elements(ids)); |r| == |ids| && Distinct(r) && forall id :: id in r <==> id in ids
  {
    var r := SortedIds(Elements(ids));
    LessIsStrictTotal();
    AscendingDistinct(Less, r);
    DistinctSize(ids);
    DistinctSize(r);
    assert forall id :: id in r <==> id in Elements(r);
  }

  lemma NormalGroupValid(t: Topology, g: LinkGroup)
    requires GroupValid(t, g)
    ensures GroupValid(t, NormalGroup(g)) && forall id :: id in NormalGroup(g).linkIds <==> id in g.linkIds
  {
    hide SortedIds, LinkKnown, HasKind;
    SortedMembers(g.linkIds);
  }

  lemma NormalSystemValid(t: Topology, s: SwitchSystem)
    requires SystemValid(t, s)
    ensures SystemValid(t, NormalSystem(s)) && forall id :: id in NormalSystem(s).deviceIds <==> id in s.deviceIds
  {
    hide SortedIds, DeviceIs;
    SortedMembers(s.deviceIds);
  }

  lemma NormalClusterValid(t: Topology, c: FirewallCluster)
    requires ClusterValid(t, c)
    ensures ClusterValid(t, NormalCluster(c)) && forall id :: id in NormalCluster(c).deviceIds <==> id in c.deviceIds
  {
    hide SortedIds, DeviceIs;
    SortedMembers(c.deviceIds);
  }

  /** t with its members sorted. */
  ghost function MembersSorted(t: Topology): Topology {
    t.(linkGroups := Map(t.linkGroups, NormalGroup), switchSystems := Map(t.switchSystems, NormalSystem),
       firewallClusters := Map(t.firewallClusters, NormalCluster))
  }

  lemma SortedGroupsValid(t: Topology)
    requires GroupsValid(t)
    ensures Pairwise(MembersSorted(t).linkGroups, GroupsDiffer) && forall g | g in MembersSorted(t).linkGroups :: GroupValid(t, g)
  {
    hide NormalGroup, GroupValid, NormalSystem, NormalCluster;
    MapPairwise(t.linkGroups, NormalGroup, GroupsDiffer, GroupsDiffer) by {
      forall g, h | g in t.linkGroups && h in t.linkGroups && GroupsDiffer(g, h) ensures GroupsDiffer(NormalGroup(g), NormalGroup(h)) {
        NormalGroupValid(t, g);
        NormalGroupValid(t, h);
        GroupNames(g);
        GroupNames(h);
      }
    }
    forall g | g in MembersSorted(t).linkGroups ensures GroupValid(t, g) {
      var h := MapMember(t.linkGroups, NormalGroup, g);
      NormalGroupValid(t, h);
    }
  }

  lemma GroupNames(g: LinkGroup)
    ensures NormalGroup(g).id == g.id
  {
  }

  lemma SortedSystemsValid(t: Topology)
    requires SystemsValid(t) && ClustersValid(t)
    ensures Pairwise(MembersSorted(t).switchSystems, SystemsDiffer) && forall s | s in MembersSorted(t).switchSystems :: SystemValid(t, s)
    ensures Pairwise(MembersSorted(t).firewallClusters, ClustersDiffer)
    ensures forall c | c in MembersSorted(t).firewallClusters :: ClusterValid(t, c)
  {
    hide SortedIds, SystemValid, ClusterValid, NormalGroup;
    MapPairwise(t.switchSystems, NormalSystem, SystemsDiffer, SystemsDiffer) by {
      forall s, u | s in t.switchSystems && u in t.switchSystems && SystemsDiffer(s, u) ensures SystemsDiffer(NormalSystem(s), NormalSystem(u)) {
        NormalSystemValid(t, s);
        NormalSystemValid(t, u);
      }
    }
    MapPairwise(t.firewallClusters, NormalCluster, ClustersDiffer, ClustersDiffer) by {
      forall c, e | c in t.firewallClusters && e in t.firewallClusters && ClustersDiffer(c, e)
        ensures ClustersDiffer(NormalCluster(c), NormalCluster(e)) {
        NormalClusterValid(t, c);
        NormalClusterValid(t, e);
      }
    }
    forall s | s in MembersSorted(t).switchSystems ensures SystemValid(t, s) {
      var u := MapMember(t.switchSystems, NormalSystem, s);
      NormalSystemValid(t, u);
    }
    forall c | c in MembersSorted(t).firewallClusters ensures ClusterValid(t, c) {
      var e := MapMember(t.firewallClusters, NormalCluster, c);
      NormalClusterValid(t, e);
    }
  }

  // ----- together

  lemma NormalMembersValid(t: Topology)
    requires GroupsValid(t) && SystemsValid(t) && ClustersValid(t)
    ensures GroupsValid(Normal(t)) && SystemsValid(Normal(t)) && ClustersValid(Normal(t))
  {
    hide GroupValid, SystemValid, ClusterValid, NormalGroup, NormalSystem, NormalCluster, NormalDevice, NormalLink, Covers,
         GroupsDiffer, SystemsDiffer, ClustersDiffer;
    var sorted, t' := MembersSorted(t), Normal(t);
    SortedGroupsValid(t);
    SortedSystemsValid(t);
    NormalCovers(t);
    forall g | g in t'.linkGroups ensures GroupValid(t', g) { CoveredGroup(t, t', g); }
    forall s | s in t'.switchSystems ensures SystemValid(t', s) { CoveredSystem(t, t', s); }
    forall c | c in t'.firewallClusters ensures ClusterValid(t', c) { CoveredCluster(t, t', c); }
  }

  /** Normalizing a valid topology gives a valid one exactly when no cable it
      moves to the rear ends where another already does. */
  lemma NormalValidIff(t: Topology)
    requires Valid(t)
    ensures Valid(Normal(t)) <==> LegacyFits(t)
  {
    hide DevicesValid, LinksValid, SystemsValid, ClustersValid, GroupsValid, AttachmentsValid, LegacyFits, Covers,
         NormalDevice, NormalLink, NormalGroup, NormalSystem, NormalCluster;
    if LegacyFits(t) {
      NormalLinksValid(t);
      NormalDevicesValid(t);
      NormalMembersValid(t);
      NormalCovers(t);
      CoveredAttachments(t, Normal(t));
    }
    if Valid(Normal(t)) { NormalFits(t); }
  }

  lemma NormalFits(t: Topology)
    requires LinksValid(t) && LinksValid(Normal(t))
    ensures LegacyFits(t)
  {
    hide Legacy, LinkAnchored, LinkWellFormed, LinksDiffer, NormalDevice, NormalLink, NormalGroup, NormalSystem, NormalCluster, NoPortShared;
    var t' := Normal(t);
    forall l, m | l in t.links && m in t.links && Legacy(t.devices, l) && m.IsRearPanelConnection() ensures NoPortShared(l, m) {
      var i :| 0 <= i < |t.links| && t.links[i] == l;
      var j :| 0 <= j < |t.links| && t.links[j] == m;
      LegacyFront(t.devices, l);
      assert if i < j then LinksDiffer(t'.links[i], t'.links[j]) else LinksDiffer(t'.links[j], t'.links[i]);
      BothRear(t, l, m);
    }
  }

  lemma BothRear(t: Topology, l: Link, m: Link)
    requires Legacy(t.devices, l) && m.IsRearPanelConnection()
    requires LinksDiffer(NormalLink(t.devices, l), NormalLink(t.devices, m)) || LinksDiffer(NormalLink(t.devices, m), NormalLink(t.devices, l))
    ensures NoPortShared(l, m)
  {
    hide Legacy, NormalLink, SameChannel;
    NormalLinkShape(t.devices, l);
    NormalLinkShape(t.devices, m);
    NormalSides(t.devices, l);
    NormalSides(t.devices, m);
    var l', m' := NormalLink(t.devices, l), NormalLink(t.devices, m);
    assert SourceEnd(l') in Terminations(l') && TargetEnd(l') in Terminations(l');
    assert SourceEnd(m') in Terminations(m') && TargetEnd(m') in Terminations(m');
  }
}
