/** Deleting a device, a rack or a link, and the pruning of everything that
    referred to it. */
module Cascade {
  import opened Text
  import opened Sorting
  import opened Lists
  import opened Topology
  import opened Validation
  import opened Draft

  // ----- pruning

  ghost function LinkNames(t: Topology): set<Id> { set l | l in t.links :: l.id }

  ghost function DeviceNames(t: Topology): set<Id> { set d | d in t.devices :: d.id }

  function Surviving(ids: seq<Id>, known: set<Id>): seq<Id> { Filter(ids, id => id in known) }

  function PrunedGroup(g: LinkGroup, known: set<Id>): LinkGroup {
    var members := Surviving(g.linkIds, known);
    g.(linkIds := members,
       primaryLinkId := if g.mode.Failover? && |members| >= 2 && g.primaryLinkId !in members then members[0] else g.primaryLinkId)
  }

  function PrunedSystem(s: SwitchSystem, known: set<Id>): SwitchSystem { s.(deviceIds := Surviving(s.deviceIds, known)) }

  function PrunedCluster(c: FirewallCluster, known: set<Id>): FirewallCluster {
    var members := Surviving(c.deviceIds, known);
    c.(deviceIds := members,
       activeDeviceId := if c.mode.ActivePassive? && |members| >= 2 && c.activeDeviceId !in members then members[0] else c.activeDeviceId)
  }

  function PrunedGroups(groups: seq<LinkGroup>, known: set<Id>): seq<LinkGroup> {
    Filter(Map(groups, g => PrunedGroup(g, known)), (g: LinkGroup) => |g.linkIds| >= 2)
  }

  function PrunedSystems(systems: seq<SwitchSystem>, known: set<Id>): seq<SwitchSystem> {
    Filter(Map(systems, s => PrunedSystem(s, known)), (s: SwitchSystem) => |s.deviceIds| >= 2)
  }

  function PrunedClusters(clusters: seq<FirewallCluster>, known: set<Id>): seq<FirewallCluster> {
    Filter(Map(clusters, c => PrunedCluster(c, known)), (c: FirewallCluster) => |c.deviceIds| >= 2)
  }

  /** What pruneAttachedPlanReferences keeps of each list. */
  ghost predicate KeepsThread(t: Topology, a: Attachment) {
    a.kind.ToCanvas? || ((a.kind.ToDevice? || a.kind.ToPort? || a.kind.ToLink?) && TargetExists(t, a))
  }

  ghost function WithoutDangling(t: Topology): Topology {
    t.(threads := Filter(t.threads, a => KeepsThread(t, a)),
       documents := Filter(t.documents, a => DocumentValid(t, a)),
       photos := Filter(t.photos, a => PhotoValid(t, a)))
  }

  ghost function GroupsPruned(t: Topology): Topology { t.(linkGroups := PrunedGroups(t.linkGroups, LinkNames(t))) }

  ghost function SystemsPruned(t: Topology): Topology {
    t.(switchSystems := PrunedSystems(t.switchSystems, DeviceNames(t)))
  }

  ghost function ClustersPruned(t: Topology): Topology {
    t.(firewallClusters := PrunedClusters(t.firewallClusters, DeviceNames(t)))
  }

  // ----- the deletions

  function DeviceIndex(devices: seq<Device>, id: Id): (i: nat)
    ensures i <= |devices| && (i < |devices| ==> devices[i].id == id)
  {
    IndexOf(devices, (d: Device) => d.id == id)
  }

  predicate Touches(l: Link, device: Id) { l.sourceDeviceId == device || l.targetDeviceId == device }

  ghost function CutDevice(t: Topology, i: nat): Topology
    requires i < |t.devices|
  {
    t.(devices := RemoveAt(t.devices, i), links := Filter(t.links, l => !Touches(l, t.devices[i].id)))
  }

  ghost function WithoutDevice(t: Topology, i: nat): Topology
    requires i < |t.devices|
  {
    WithoutDangling(ClustersPruned(SystemsPruned(GroupsPruned(CutDevice(t, i)))))
  }

  function RackIndex(racks: seq<Rack>, id: Id): (i: nat)
    ensures i <= |racks| && (i < |racks| ==> racks[i].id == id)
  {
    IndexOf(racks, (r: Rack) => r.id == id)
  }

  function Unmounted(d: Device, r: Rack): Device {
    if d.rackId == r.id then d.(rackId := "", roomId := r.roomId, rackUnit := 0, rackFace := NoFace) else d
  }

  ghost function CutRack(t: Topology, i: nat): Topology
    requires i < |t.racks|
  {
    t.(devices := Map(t.devices, d => Unmounted(d, t.racks[i])), racks := RemoveAt(t.racks, i))
  }

  ghost function WithoutRack(t: Topology, i: nat): Topology
    requires i < |t.racks|
  {
    WithoutDangling(CutRack(t, i))
  }

  ghost function CutLink(t: Topology, i: nat): Topology
    requires i < |t.links|
  {
    var links := RemoveAt(t.links, i);
    t.(links := links, devices := Deactivated(t.devices, t.links[i], links))
  }

  ghost function WithoutLink(t: Topology, i: nat): Topology
    requires i < |t.links|
  {
    WithoutDangling(GroupsPruned(CutLink(t, i)))
  }

  // ----- the methods

  method CollectLinkNames(links: seq<Link>) returns (names: set<Id>)
    ensures names == set l | l in links :: l.id
  {
    names := {};
    for i := 0 to |links|
      invariant names == set l | l in links[..i] :: l.id
    {
      assert links[..i + 1] == links[..i] + [links[i]];
      names := names + {links[i].id};
    }
    assert links[..|links|] == links;
  }

  method CollectDeviceNames(devices: seq<Device>) returns (names: set<Id>)
    ensures names == set d | d in devices :: d.id
  {
    names := {};
    for i := 0 to |devices|
      invariant names == set d | d in devices[..i] :: d.id
    {
      assert devices[..i + 1] == devices[..i] + [devices[i]];
      names := names + {devices[i].id};
    }
    assert devices[..|devices|] == devices;
  }

  method KeepKnown(ids: seq<Id>, known: set<Id>) returns (members: seq<Id>)
    ensures members == Surviving(ids, known)
  {
    members := [];
    for i := 0 to |ids|
      invariant members == Surviving(ids[..i], known)
    {
      FilterStep(ids, i, id => id in known);
      if ids[i] in known { members := members + [ids[i]]; }
    }
    assert ids[..|ids|] == ids;
  }

  lemma MapStep<T, U>(s: seq<T>, k: nat, f: T -> U)
    requires k < |s|
    ensures Map(s[..k + 1], f) == Map(s[..k], f) + [f(s[k])]
  {
  }

  lemma FilterMapStep<T, U>(s: seq<T>, k: nat, f: T -> U, keep: U -> bool)
    requires k < |s|
    ensures Filter(Map(s[..k + 1], f), keep) == Filter(Map(s[..k], f), keep) + if keep(f(s[k])) then [f(s[k])] else []
  {
    MapStep(s, k, f);
    FilterStep(Map(s[..k + 1], f), k, keep);
    assert Map(s[..k + 1], f)[..k] == Map(s[..k], f);
    assert Map(s[..k + 1], f)[..k + 1] == Map(s[..k + 1], f);
  }

  /** pruneLinkGroups. */
  method PruneLinkGroups(d: Draft)
    modifies d`linkGroups
    ensures d.linkGroups == PrunedGroups(old(d.linkGroups), LinkNames(old(d.Snapshot())))
  {
    hide Surviving, Filter, Map;
    var known := CollectLinkNames(d.links);
    var listed, groups := d.linkGroups, [];
    ghost var f, keep := (g: LinkGroup) => PrunedGroup(g, known), (g: LinkGroup) => |g.linkIds| >= 2;
    NoneYet(listed, f, keep);
    for i := 0 to |listed|
      invariant groups == Filter(Map(listed[..i], f), keep)
    {
      FilterMapStep(listed, i, f, keep);
      var group := listed[i];
      var members := KeepKnown(group.linkIds, known);
      group := group.(linkIds := members);
      if |group.linkIds| >= 2 {
        if group.mode.Failover? && group.primaryLinkId !in group.linkIds {
          group := group.(primaryLinkId := group.linkIds[0]);
        }
        groups := groups + [group];
      }
    }
    assert listed[..|listed|] == listed;
    d.linkGroups := groups;
  }

  lemma NoneYet<T, U>(s: seq<T>, f: T -> U, keep: U -> bool)
    ensures Filter(Map(s[..0], f), keep) == []
  {
  }

  /** pruneSwitchSystems. */
  method PruneSwitchSystems(d: Draft)
    modifies d`switchSystems
    ensures d.switchSystems == PrunedSystems(old(d.switchSystems), DeviceNames(old(d.Snapshot())))
  {
    hide Surviving, Filter, Map;
    var known := CollectDeviceNames(d.devices);
    var listed, systems := d.switchSystems, [];
    ghost var f, keep := (s: SwitchSystem) => PrunedSystem(s, known), (s: SwitchSystem) => |s.deviceIds| >= 2;
    NoneYet(listed, f, keep);
    for i := 0 to |listed|
      invariant systems == Filter(Map(listed[..i], f), keep)
    {
      FilterMapStep(listed, i, f, keep);
      var system := listed[i];
      var members := KeepKnown(system.deviceIds, known);
      system := system.(deviceIds := members);
      if |system.deviceIds| >= 2 { systems := systems + [system]; }
    }
    assert listed[..|listed|] == listed;
    d.switchSystems := systems;
  }

  /** pruneFirewallClusters. */
  method PruneFirewallClusters(d: Draft)
    modifies d`firewallClusters
    ensures d.firewallClusters == PrunedClusters(old(d.firewallClusters), DeviceNames(old(d.Snapshot())))
  {
    hide Surviving, Filter, Map;
    var known := CollectDeviceNames(d.devices);
    var listed, clusters := d.firewallClusters, [];
    ghost var f, keep := (c: FirewallCluster) => PrunedCluster(c, known), (c: FirewallCluster) => |c.deviceIds| >= 2;
    NoneYet(listed, f, keep);
    for i := 0 to |listed|
      invariant clusters == Filter(Map(listed[..i], f), keep)
    {
      FilterMapStep(listed, i, f, keep);
      var cluster := listed[i];
      var members := KeepKnown(cluster.deviceIds, known);
      cluster := cluster.(deviceIds := members);
      if |cluster.deviceIds| < 2 { continue; }
      if cluster.mode.ActivePassive? && cluster.activeDeviceId !in cluster.deviceIds {
        cluster := cluster.(activeDeviceId := cluster.deviceIds[0]);
      }
      clusters := clusters + [cluster];
    }
    assert listed[..|listed|] == listed;
    d.firewallClusters := clusters;
  }

  /** The three loops of pruneAttachedPlanReferences. */
  method KeepThreads(ghost t: Topology, names: Names, listed: seq<Attachment>) returns (kept: seq<Attachment>)
    requires Collected(t, names)
    ensures kept == Filter(listed, a => KeepsThread(t, a))
  {
    hide Filter, KeepsThread, Collected;
    kept := [];
    ghost var keep := a => KeepsThread(t, a);
    NothingKept(listed, keep);
    for i := 0 to |listed|
      invariant kept == Filter(listed[..i], keep)
    {
      FilterStep(listed, i, keep);
      ThreadKept(t, names, listed[i]);
      if names.KeepsThread(listed[i]) { kept := kept + [listed[i]]; }
    }
    assert listed[..|listed|] == listed;
  }

  method KeepDocuments(ghost t: Topology, names: Names, listed: seq<Attachment>) returns (kept: seq<Attachment>)
    requires Collected(t, names)
    ensures kept == Filter(listed, a => DocumentValid(t, a))
  {
    hide Filter, DocumentValid, Collected;
    kept := [];
    ghost var keep := a => DocumentValid(t, a);
    NothingKept(listed, keep);
    for i := 0 to |listed|
      invariant kept == Filter(listed[..i], keep)
    {
      FilterStep(listed, i, keep);
      DocumentKept(t, names, listed[i]);
      if names.KeepsDocument(listed[i]) { kept := kept + [listed[i]]; }
    }
    assert listed[..|listed|] == listed;
  }

  method KeepPhotos(ghost t: Topology, names: Names, listed: seq<Attachment>) returns (kept: seq<Attachment>)
    requires Collected(t, names)
    ensures kept == Filter(listed, a => PhotoValid(t, a))
  {
    hide Filter, PhotoValid, Collected;
    kept := [];
    ghost var keep := a => PhotoValid(t, a);
    NothingKept(listed, keep);
    for i := 0 to |listed|
      invariant kept == Filter(listed[..i], keep)
    {
      FilterStep(listed, i, keep);
      PhotoKept(t, names, listed[i]);
      if names.KeepsPhoto(listed[i]) { kept := kept + [listed[i]]; }
    }
    assert listed[..|listed|] == listed;
  }

  /** pruneAttachedPlanReferences: the identifiers are collected first. */
  method PruneAttachedPlanReferences(d: Draft)
    modifies d`threads, d`documents, d`photos
    ensures d.Snapshot() == WithoutDangling(old(d.Snapshot()))
  {
    hide Filter, Collected;
    ghost var t := d.Snapshot();
    var names := CollectNames(d);
    var threads := KeepThreads(t, names, d.threads);
    var documents := KeepDocuments(t, names, d.documents);
    var photos := KeepPhotos(t, names, d.photos);
    d.threads, d.documents, d.photos := threads, documents, photos;
  }

  lemma NothingKept(s: seq<Attachment>, keep: Attachment -> bool)
    ensures Filter(s[..0], keep) == []
  {
  }

  /** The identifiers attachments may refer to. */
  datatype Names = Names(topology: Id, racks: set<Id>, devices: set<Id>, ports: set<Id>, links: set<Id>, annotations: set<Id>) {
    predicate KeepsThread(a: Attachment) {
      a.kind.ToCanvas? || (a.kind.ToDevice? && a.targetId in devices) || (a.kind.ToPort? && a.targetId in ports)
      || (a.kind.ToLink? && a.targetId in links)
    }

    predicate KeepsDocument(a: Attachment) {
      match a.kind
      case ToTopology => a.targetId == topology
      case ToRack => a.targetId in racks
      case ToDevice => a.targetId in devices
      case ToPort => a.targetId in ports
      case ToLink => a.targetId in links
      case _ => false
    }

    predicate KeepsPhoto(a: Attachment) { if a.kind.ToAnnotation? then a.targetId in annotations else KeepsDocument(a) }
  }

  ghost predicate Collected(t: Topology, names: Names) {
    && names.topology == t.id && names.annotations == Elements(t.annotations)
    && (forall id :: id in names.racks <==> RackKnown(t, id))
    && (forall id :: id in names.devices <==> DeviceKnown(t, id))
    && (forall id :: id in names.ports <==> PortKnown(t, id))
    && (forall id :: id in names.links <==> LinkKnown(t, id))
  }

  lemma ThreadKept(t: Topology, names: Names, a: Attachment)
    requires Collected(t, names)
    ensures names.KeepsThread(a) <==> KeepsThread(t, a)
  {
    hide RackKnown, DeviceKnown, PortKnown, LinkKnown;
  }

  lemma DocumentKept(t: Topology, names: Names, a: Attachment)
    requires Collected(t, names)
    ensures names.KeepsDocument(a) <==> DocumentValid(t, a)
  {
    hide RackKnown, DeviceKnown, PortKnown, LinkKnown;
  }

  lemma PhotoKept(t: Topology, names: Names, a: Attachment)
    requires Collected(t, names)
    ensures names.KeepsPhoto(a) <==> PhotoValid(t, a)
  {
    hide RackKnown, DeviceKnown, PortKnown, LinkKnown;
  }

  ghost function PortNames(devices: seq<Device>): set<Id> { set d, p | d in devices && p in d.ports :: p.id }

  method CollectPortNames(devices: seq<Device>) returns (names: set<Id>)
    ensures names == PortNames(devices)
  {
    hide PortNames;
    names := {};
    NoPortNames(devices);
    for i := 0 to |devices|
      invariant names == PortNames(devices[..i])
    {
      ghost var before := names;
      var ports := devices[i].ports;
      for j := 0 to |ports|
        invariant names == before + set p | p in ports[..j] :: p.id
      {
        assert ports[..j + 1] == ports[..j] + [ports[j]];
        names := names + {ports[j].id};
      }
      assert ports[..|ports|] == ports;
      MorePortNames(devices, i);
    }
    assert devices[..|devices|] == devices;
  }

  lemma NoPortNames(devices: seq<Device>)
    ensures PortNames(devices[..0]) == {}
  {
  }

  lemma MorePortNames(devices: seq<Device>, i: nat)
    requires i < |devices|
    ensures PortNames(devices[..i + 1]) == PortNames(devices[..i]) + set p | p in devices[i].ports :: p.id
  {
    assert devices[..i + 1] == devices[..i] + [devices[i]];
    assert devices[i] in devices[..i + 1];
  }

  method CollectNames(d: Draft) returns (names: Names)
    ensures Collected(d.Snapshot(), names)
  {
    var racks: set<Id> := {};
    for i := 0 to |d.racks|
      invariant racks == set r | r in d.racks[..i] :: r.id
    {
      assert d.racks[..i + 1] == d.racks[..i] + [d.racks[i]];
      racks := racks + {d.racks[i].id};
    }
    assert d.racks[..|d.racks|] == d.racks;
    var devices := CollectDeviceNames(d.devices);
    var ports := CollectPortNames(d.devices);
    var links := CollectLinkNames(d.links);
    var annotations: set<Id> := {};
    for i := 0 to |d.annotations|
      invariant annotations == Elements(d.annotations[..i])
    {
      assert d.annotations[..i + 1] == d.annotations[..i] + [d.annotations[i]];
      annotations := annotations + {d.annotations[i]};
    }
    assert d.annotations[..|d.annotations|] == d.annotations;
    names := Names(d.id, racks, devices, ports, links, annotations);
  }

  /** The links that do not end at the device. */
  method KeepOtherLinks(listed: seq<Link>, device: Id) returns (links: seq<Link>)
    ensures links == Filter(listed, l => !Touches(l, device))
  {
    hide Filter;
    ghost var keep := (l: Link) => !Touches(l, device);
    links := [];
    NoLinkKept(listed, keep);
    for k := 0 to |listed|
      invariant links == Filter(listed[..k], keep)
    {
      FilterStep(listed, k, keep);
      var l := listed[k];
      if l.sourceDeviceId != device && l.targetDeviceId != device { links := links + [l]; }
    }
    assert listed[..|listed|] == listed;
  }

  lemma NoLinkKept(links: seq<Link>, keep: Link -> bool)
    ensures Filter(links[..0], keep) == []
  {
  }

  /** deleteDevice; false when there is no such device. */
  method DeleteDevice(d: Draft, id: Id) returns (found: bool)
    modifies d
    ensures var t := old(d.Snapshot());
            var i := DeviceIndex(t.devices, id);
            found == (i < |t.devices|) && d.Snapshot() == if found then WithoutDevice(t, i) else t
  {
    hide PrunedGroups, PrunedSystems, PrunedClusters, WithoutDangling, Filter, LinkNames, DeviceNames;
    var i := FindIndex(d.devices, (e: Device) => e.id == id);
    assert i == DeviceIndex(d.devices, id);
    if i == |d.devices| { return false; }
    ghost var t := d.Snapshot();
    d.devices := RemoveAt(d.devices, i);
    d.links := KeepOtherLinks(d.links, id);
    assert d.Snapshot() == CutDevice(t, i);
    PruneLinkGroups(d);
    PruneSwitchSystems(d);
    PruneFirewallClusters(d);
    PruneAttachedPlanReferences(d);
    return true;
  }

  /** deleteRack. */
  method DeleteRack(d: Draft, id: Id) returns (found: bool)
    modifies d
    ensures var t := old(d.Snapshot());
            var i := RackIndex(t.racks, id);
            found == (i < |t.racks|) && d.Snapshot() == if found then WithoutRack(t, i) else t
  {
    hide WithoutDangling;
    var i := FindIndex(d.racks, (r: Rack) => r.id == id);
    assert i == RackIndex(d.racks, id);
    if i == |d.racks| { return false; }
    ghost var t := d.Snapshot();
    var rack := d.racks[i];
    for k := 0 to |d.devices|
      invariant |d.devices| == |t.devices| && d.Snapshot() == t.(devices := d.devices)
      invariant forall j | 0 <= j < |t.devices| :: d.devices[j] == if j < k then Unmounted(t.devices[j], rack) else t.devices[j]
    {
      var device := d.devices[k];
      if device.rackId != id { continue; }
      d.devices := d.devices[k := device.(rackId := "", roomId := rack.roomId, rackUnit := 0, rackFace := NoFace)];
    }
    d.racks := RemoveAt(d.racks, i);
    assert d.devices == CutRack(t, i).devices;
    PruneAttachedPlanReferences(d);
    return true;
  }

  /** deleteLink. */
  method DeleteLink(d: Draft, id: Id) returns (found: bool)
    modifies d
    ensures var t := old(d.Snapshot());
            var i := LinkIndex(t.links, id);
            found == (i < |t.links|) && d.Snapshot() == if found then WithoutLink(t, i) else t
  {
    hide PrunedGroups, WithoutDangling, Deactivated, LinkNames;
    var i := FindIndex(d.links, (l: Link) => l.id == id);
    assert i == LinkIndex(d.links, id);
    if i == |d.links| { return false; }
    var removed := d.links[i];
    d.links := RemoveAt(d.links, i);
    d.DeactivateUnlinkedEndpointPorts(removed);
    PruneLinkGroups(d);
    PruneAttachedPlanReferences(d);
    return true;
  }
}
