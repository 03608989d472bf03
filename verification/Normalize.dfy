/** Topology.Normalize: derived fields are repaired before a topology is
    validated and stored. */
module Normalize {
  import opened Text
  import opened Sorting
  import opened Lists
  import opened Topology
  import opened Draft
  import PortIndices

  ghost function NormalPort(p: Port, device: Id): Port {
    p.(deviceId := device, allowedVLANs := SortedInts(Elements(p.allowedVLANs)))
  }

  function NormalFace(d: Device): RackFace {
    if d.rackId == "" then NoFace else if d.rackFace.NoFace? then FrontFace else d.rackFace
  }

  ghost function NormalPorts(ports: seq<Port>, device: Id): (r: seq<Port>)
    ensures |r| == |ports|
    ensures forall i | 0 <= i < |ports| :: r[i] == NormalPort(PortIndices.Normalized(ports)[i], device)
  {
    Map(PortIndices.Normalized(ports), p => NormalPort(p, device))
  }

  ghost function NormalDevice(d: Device): Device { d.(rackFace := NormalFace(d), ports := NormalPorts(d.ports, d.id)) }

  predicate IsPanel(devices: seq<Device>, id: Id) { exists d :: d in devices && d.id == id && d.category.PatchPanel? }

  /** A cable between two panels that was generated before cables had planes. */
  predicate Legacy(devices: seq<Device>, l: Link) {
    && l.sourceSide.Unset? && l.targetSide.Unset? && "Patch range " <= l.notes
    && IsPanel(devices, l.sourceDeviceId) && IsPanel(devices, l.targetDeviceId)
  }

  ghost function NormalLink(devices: seq<Device>, l: Link): Link {
    var trimmed := l.(rearChannelId := Trim(l.rearChannelId), rearChannelName := Trim(l.rearChannelName),
                      vlanIds := SortedInts(Elements(l.vlanIds)));
    if Legacy(devices, l) then trimmed.(sourceSide := Rear, targetSide := Rear) else trimmed
  }

  ghost function NormalGroup(g: LinkGroup): LinkGroup { g.(linkIds := SortedIds(Elements(g.linkIds))) }

  ghost function NormalSystem(s: SwitchSystem): SwitchSystem { s.(deviceIds := SortedIds(Elements(s.deviceIds))) }

  ghost function NormalCluster(c: FirewallCluster): FirewallCluster { c.(deviceIds := SortedIds(Elements(c.deviceIds))) }

  ghost function Normal(t: Topology): (r: Topology)
    ensures r == t.(devices := r.devices, links := r.links, linkGroups := r.linkGroups, switchSystems := r.switchSystems,
                    firewallClusters := r.firewallClusters)
  {
    t.(devices := Map(t.devices, NormalDevice),
       links := Map(t.links, l => NormalLink(t.devices, l)),
       linkGroups := Map(t.linkGroups, NormalGroup),
       switchSystems := Map(t.switchSystems, NormalSystem),
       firewallClusters := Map(t.firewallClusters, NormalCluster))
  }

  // ----- the loops

  method NormalizePort(p: Port, device: Id) returns (r: Port)
    ensures r == NormalPort(p, device)
  {
    var allowed := SortAndCompact(p.allowedVLANs, Below);
    r := p.(deviceId := device, allowedVLANs := allowed);
  }

  method NormalizeDevice(d: Device) returns (r: Device)
    ensures r == NormalDevice(d)
  {
    hide NormalPort;
    var indexed := PortIndices.NormalizePortIndices(d.ports);
    var ports := indexed;
    for j := 0 to |ports|
      invariant |ports| == |indexed|
      invariant forall i | 0 <= i < |ports| :: ports[i] == if i < j then NormalPort(indexed[i], d.id) else indexed[i]
    {
      var port := NormalizePort(ports[j], d.id);
      ports := ports[j := port];
    }
    assert ports == NormalPorts(d.ports, d.id);
    r := d.(rackFace := NormalFace(d), ports := ports);
  }

  /** patchPanelDeviceIDs. */
  method PatchPanels(devices: seq<Device>) returns (panels: set<Id>)
    ensures forall id :: id in panels <==> IsPanel(devices, id)
  {
    panels := {};
    for i := 0 to |devices|
      invariant forall id :: id in panels <==> IsPanel(devices[..i], id)
    {
      assert devices[..i + 1] == devices[..i] + [devices[i]];
      assert devices[i] in devices[..i + 1];
      if devices[i].category.PatchPanel? { panels := panels + {devices[i].id}; }
    }
    assert devices[..|devices|] == devices;
  }

  method NormalizeLink(panels: set<Id>, ghost devices: seq<Device>, l: Link) returns (r: Link)
    requires forall id :: id in panels <==> IsPanel(devices, id)
    ensures r == NormalLink(devices, l)
  {
    hide IsPanel;
    var vlans := SortAndCompact(l.vlanIds, Below);
    r := l.(rearChannelId := Trim(l.rearChannelId), rearChannelName := Trim(l.rearChannelName), vlanIds := vlans);
    if r.sourceSide.Unset? && r.targetSide.Unset? && "Patch range " <= r.notes {
      if r.sourceDeviceId in panels && r.targetDeviceId in panels { r := r.(sourceSide := Rear, targetSide := Rear); }
    }
  }

  lemma PanelsNormalized(devices: seq<Device>)
    ensures forall id :: IsPanel(Map(devices, NormalDevice), id) <==> IsPanel(devices, id)
  {
    hide NormalPorts;
    var r := Map(devices, NormalDevice);
    forall d | d in devices ensures NormalDevice(d) in r {
      var i :| 0 <= i < |devices| && devices[i] == d;
      assert r[i] == NormalDevice(d);
    }
    forall e | e in r ensures exists d :: d in devices && e.id == d.id && e.category == d.category {
      var d := MapMember(devices, NormalDevice, e);
    }
    forall id ensures IsPanel(r, id) <==> IsPanel(devices, id) {
      if d :| d in devices && d.id == id && d.category.PatchPanel? { assert NormalDevice(d) in r; }
    }
  }

  /** Topology.Normalize, on the slices in place. */
  method Normalize(d: Draft)
    modifies d
    ensures d.Snapshot() == Normal(old(d.Snapshot()))
  {
    hide NormalDevice, NormalLink, NormalGroup, NormalSystem, NormalCluster, IsPanel;
    ghost var before := d.Snapshot();
    NormalizeDevices(d);
    var panels := PatchPanels(d.devices);
    PanelsNormalized(before.devices);
    NormalizeLinks(d, panels, before.devices);
    NormalizeMembers(d);
  }

  method NormalizeDevices(d: Draft)
    modifies d`devices
    ensures d.devices == Map(old(d.devices), NormalDevice)
  {
    hide NormalDevice;
    ghost var before := d.devices;
    for k := 0 to |d.devices|
      invariant |d.devices| == |before|
      invariant forall i | 0 <= i < |before| :: d.devices[i] == if i < k then NormalDevice(before[i]) else before[i]
    {
      var device := NormalizeDevice(d.devices[k]);
      d.devices := d.devices[k := device];
    }
  }

  method NormalizeLinks(d: Draft, panels: set<Id>, ghost devices: seq<Device>)
    requires forall id :: id in panels <==> IsPanel(devices, id)
    modifies d`links
    ensures d.links == Map(old(d.links), l => NormalLink(devices, l))
  {
    hide NormalLink, IsPanel;
    ghost var before := d.links;
    for k := 0 to |d.links|
      invariant |d.links| == |before|
      invariant forall i | 0 <= i < |before| :: d.links[i] == if i < k then NormalLink(devices, before[i]) else before[i]
    {
      var link := NormalizeLink(panels, devices, d.links[k]);
      d.links := d.links[k := link];
    }
  }

  method SortIds(ids: seq<Id>) returns (r: seq<Id>)
    ensures r == SortedIds(Elements(ids))
  {
    LessIsStrictTotal();
    r := SortAndCompact(ids, Less);
  }

  method NormalizeMembers(d: Draft)
    modifies d`linkGroups, d`switchSystems, d`firewallClusters
    ensures d.linkGroups == Map(old(d.linkGroups), NormalGroup)
    ensures d.switchSystems == Map(old(d.switchSystems), NormalSystem)
    ensures d.firewallClusters == Map(old(d.firewallClusters), NormalCluster)
  {
    hide SortedIds;
    ghost var groups, systems, clusters := d.linkGroups, d.switchSystems, d.firewallClusters;
    for k := 0 to |d.linkGroups|
      invariant |d.linkGroups| == |groups| && d.switchSystems == systems && d.firewallClusters == clusters
      invariant forall i | 0 <= i < |groups| :: d.linkGroups[i] == if i < k then NormalGroup(groups[i]) else groups[i]
    {
      var ids := SortIds(d.linkGroups[k].linkIds);
      d.linkGroups := d.linkGroups[k := d.linkGroups[k].(linkIds := ids)];
    }
    for k := 0 to |d.switchSystems|
      invariant |d.switchSystems| == |systems| && d.linkGroups == Map(groups, NormalGroup) && d.firewallClusters == clusters
      invariant forall i | 0 <= i < |systems| :: d.switchSystems[i] == if i < k then NormalSystem(systems[i]) else systems[i]
    {
      var ids := SortIds(d.switchSystems[k].deviceIds);
      d.switchSystems := d.switchSystems[k := d.switchSystems[k].(deviceIds := ids)];
    }
    for k := 0 to |d.firewallClusters|
      invariant |d.firewallClusters| == |clusters| && d.linkGroups == Map(groups, NormalGroup)
      invariant d.switchSystems == Map(systems, NormalSystem)
      invariant forall i | 0 <= i < |clusters| :: d.firewallClusters[i] == if i < k then NormalCluster(clusters[i]) else clusters[i]
    {
      var ids := SortIds(d.firewallClusters[k].deviceIds);
      d.firewallClusters := d.firewallClusters[k := d.firewallClusters[k].(deviceIds := ids)];
    }
  }
}
