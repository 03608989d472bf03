/** A stored topology is normalized as well as valid, and a deletion keeps both.
    Validity alone is not enough: normalizing the result may upgrade an old
    cable into the way of another. */
module CascadeNormal {
  import opened Text
  import opened Sorting
  import opened Lists
  import opened Topology
  import opened Validation
  import opened Draft
  import opened Normalize
  import opened NormalizeFacts
  import opened Cascade
  import opened CascadeTheorems
  import PortIndices

  ghost predicate IsNormal(t: Topology) { Normal(t) == t }

  ghost predicate PartsNormal(t: Topology) {
    && (forall d | d in t.devices :: NormalDevice(d) == d)
    && (forall l | l in t.links :: NormalLink(t.devices, l) == l)
    && (forall g | g in t.linkGroups :: NormalGroup(g) == g)
    && (forall s | s in t.switchSystems :: NormalSystem(s) == s)
    && (forall c | c in t.firewallClusters :: NormalCluster(c) == c)
  }

  lemma MapFixed<T>(s: seq<T>, f: T -> T)
    ensures Map(s, f) == s <==> forall x | x in s :: f(x) == x
  {
    if Map(s, f) == s {
      forall x | x in s ensures f(x) == x {
        var i :| 0 <= i < |s| && s[i] == x;
        assert Map(s, f)[i] == f(x);
      }
    }
    if forall x | x in s :: f(x) == x { MapSame(s, f); }
  }

  lemma NormalByParts(t: Topology)
    ensures IsNormal(t) <==> PartsNormal(t)
  {
    hide NormalDevice, NormalLink, NormalGroup, NormalSystem, NormalCluster, Map;
    MapFixed(t.devices, NormalDevice);
    MapFixed(t.links, l => NormalLink(t.devices, l));
    MapFixed(t.linkGroups, NormalGroup);
    MapFixed(t.switchSystems, NormalSystem);
    MapFixed(t.firewallClusters, NormalCluster);
  }

  // ----- pruning

  lemma SurvivingSorted(ids: seq<Id>, known: set<Id>)
    requires SortedIds(Elements(ids)) == ids
    ensures SortedIds(Elements(Surviving(ids, known))) == Surviving(ids, known)
  {
    hide Surviving;
    LessIsStrictTotal();
    SurvivingIs(ids, known);
    assert Pairwise(ids, Less);
    FilterPairwise(ids, id => id in known, Less);
    AscendingUnique(Less, Surviving(ids, known), SortedIds(Elements(Surviving(ids, known))));
  }

  lemma GroupsStayNormal(t: Topology)
    requires PartsNormal(t)
    ensures PartsNormal(GroupsPruned(t))
  {
    hide NormalDevice, NormalLink, NormalSystem, NormalCluster, Surviving, SortedIds, Filter, Map, LinkNames;
    forall g | g in GroupsPruned(t).linkGroups ensures NormalGroup(g) == g {
      var h := MapMember(t.linkGroups, x => PrunedGroup(x, LinkNames(t)), g);
      assert NormalGroup(h) == h;
      SurvivingSorted(h.linkIds, LinkNames(t));
    }
  }

  lemma SystemsStayNormal(t: Topology)
    requires PartsNormal(t)
    ensures PartsNormal(SystemsPruned(t)) && PartsNormal(ClustersPruned(t))
  {
    hide NormalDevice, NormalLink, NormalGroup, Surviving, SortedIds, Filter, Map, DeviceNames;
    forall s | s in SystemsPruned(t).switchSystems ensures NormalSystem(s) == s {
      var u := MapMember(t.switchSystems, x => PrunedSystem(x, DeviceNames(t)), s);
      assert NormalSystem(u) == u;
      SurvivingSorted(u.deviceIds, DeviceNames(t));
    }
    forall c | c in ClustersPruned(t).firewallClusters ensures NormalCluster(c) == c {
      var e := MapMember(t.firewallClusters, x => PrunedCluster(x, DeviceNames(t)), c);
      assert NormalCluster(e) == e;
      SurvivingSorted(e.deviceIds, DeviceNames(t));
    }
  }

  lemma DanglingStaysNormal(t: Topology)
    requires PartsNormal(t)
    ensures PartsNormal(WithoutDangling(t))
  {
    hide NormalDevice, NormalLink, NormalGroup, NormalSystem, NormalCluster, Filter;
  }

  lemma PruningStaysNormal(t: Topology)
    requires PartsNormal(t)
    ensures PartsNormal(Pruned(t)) && PartsNormal(WithoutDangling(t)) && PartsNormal(WithoutDangling(GroupsPruned(t)))
  {
    hide PartsNormal, WithoutDangling, GroupsPruned, SystemsPruned, ClustersPruned;
    GroupsStayNormal(t);
    SystemsStayNormal(GroupsPruned(t));
    SystemsStayNormal(SystemsPruned(GroupsPruned(t)));
    DanglingStaysNormal(t);
    DanglingStaysNormal(GroupsPruned(t));
    DanglingStaysNormal(ClustersPruned(SystemsPruned(GroupsPruned(t))));
  }

  // ----- cutting

  /** A cable that needed no upgrade needs none among fewer panels. */
  lemma FewerPanels(devices: seq<Device>, devices': seq<Device>, l: Link)
    requires NormalLink(devices, l) == l && forall id :: IsPanel(devices', id) ==> IsPanel(devices, id)
    ensures NormalLink(devices', l) == l
  {
    hide IsPanel, SortedInts, Trim;
  }

  lemma CutDeviceNormal(t: Topology, i: nat)
    requires PartsNormal(t) && i < |t.devices|
    ensures PartsNormal(CutDevice(t, i))
  {
    hide NormalDevice, NormalLink, Filter;
    forall l | l in CutDevice(t, i).links ensures NormalLink(CutDevice(t, i).devices, l) == l {
      FewerPanels(t.devices, CutDevice(t, i).devices, l);
    }
  }

  lemma CutRackNormal(t: Topology, i: nat)
    requires PartsNormal(t) && i < |t.racks|
    ensures PartsNormal(CutRack(t, i))
  {
    hide NormalPorts, NormalLink, NormalGroup, NormalSystem, NormalCluster;
    var c, f := CutRack(t, i), (d: Device) => Unmounted(d, t.racks[i]);
    forall e | e in c.devices ensures NormalDevice(e) == e && exists d :: d in t.devices && d.id == e.id && d.category == e.category {
      var d := MapMember(t.devices, f, e);
      assert NormalDevice(d) == d;
    }
    assert forall id :: IsPanel(c.devices, id) ==> IsPanel(t.devices, id);
    forall l | l in c.links ensures NormalLink(c.devices, l) == l { FewerPanels(t.devices, c.devices, l); }
  }

  /** In a normalized device the indices are positive and different. */
  lemma NormalIndices(d: Device)
    requires NormalDevice(d) == d
    ensures PortIndices.DistinctIndices(d.ports) && (forall p | p in d.ports :: p.portIndex >= 1)
    ensures forall p | p in d.ports :: NormalPort(p, d.id) == p
  {
    hide NormalPort;
    var indexed := PortIndices.Normalized(d.ports);
    PortIndices.ReindexedDistinct(d.ports, |d.ports|);
    forall i | 0 <= i < |d.ports| ensures d.ports[i].portIndex == indexed[i].portIndex { NormalPortIndex(indexed[i], d.id); }
    PortIndices.ReindexedSame(d.ports, |d.ports|);
    forall p | p in d.ports ensures NormalPort(p, d.id) == p && p.portIndex >= 1 {
      var i :| 0 <= i < |d.ports| && d.ports[i] == p;
    }
  }

  /** Such a device is normalized when it is mounted as it should be. */
  lemma NormalFromIndices(d: Device)
    requires d.rackFace == NormalFace(d) && PortIndices.DistinctIndices(d.ports)
    requires forall p | p in d.ports :: p.portIndex >= 1 && NormalPort(p, d.id) == p
    ensures NormalDevice(d) == d
  {
    hide NormalPort, PortIndices.DistinctIndices;
    PortIndices.ReindexedSame(d.ports, |d.ports|);
    assert d.ports[..|d.ports|] == d.ports;
    assert forall i | 0 <= i < |d.ports| :: d.ports[i] in d.ports;
    assert NormalPorts(d.ports, d.id) == d.ports;
  }

  lemma StatusStaysNormal(d: Device, ids: set<Id>, status: PortStatus)
    requires NormalDevice(d) == d
    ensures NormalDevice(MapPorts(d, SetStatus(ids, status))) == MapPorts(d, SetStatus(ids, status))
  {
    hide NormalPorts, NormalPort, SetStatus, Map;
    NormalIndices(d);
    var f := SetStatus(ids, status);
    var e := MapPorts(d, f);
    forall p | p in e.ports ensures p.portIndex >= 1 && NormalPort(p, e.id) == p {
      var q := MapMember(d.ports, f, p);
      StatusNormalPort(q, d.id, ids, status);
    }
    StatusIndices(d.ports, ids, status);
    NormalFromIndices(e);
  }

  lemma StatusIndices(ports: seq<Port>, ids: set<Id>, status: PortStatus)
    requires PortIndices.DistinctIndices(ports)
    ensures PortIndices.DistinctIndices(Map(ports, SetStatus(ids, status)))
  {
  }

  lemma StatusNormalPort(q: Port, device: Id, ids: set<Id>, status: PortStatus)
    requires NormalPort(q, device) == q
    ensures NormalPort(SetStatus(ids, status)(q), device) == SetStatus(ids, status)(q)
    ensures SetStatus(ids, status)(q).portIndex == q.portIndex
  {
    hide SortedInts;
  }

  lemma CutLinkNormal(t: Topology, i: nat)
    requires PartsNormal(t) && i < |t.links|
    ensures PartsNormal(CutLink(t, i))
  {
    hide NormalDevice, NormalLink, NormalGroup, NormalSystem, NormalCluster, SetStatus, Unlinked;
    var c := CutLink(t, i);
    var ids := Unlinked(t.links[i], c.links);
    var f := (d: Device) => MapPorts(d, SetStatus(ids, Down));
    forall e | e in c.devices ensures NormalDevice(e) == e && exists d :: d in t.devices && d.id == e.id && d.category == e.category {
      var d := MapMember(t.devices, f, e);
      StatusStaysNormal(d, ids, Down);
    }
    assert forall id :: IsPanel(c.devices, id) ==> IsPanel(t.devices, id);
    forall l | l in c.links ensures NormalLink(c.devices, l) == l { FewerPanels(t.devices, c.devices, l); }
  }

  // ----- the theorems

  /** What a store holds is valid and normalized; after a device, rack or link is
      deleted from it, normalizing changes nothing more and the result is valid. */
  lemma DeleteDeviceStored(t: Topology, i: nat)
    requires Valid(t) && IsNormal(t) && i < |t.devices|
    ensures Valid(WithoutDevice(t, i)) && IsNormal(WithoutDevice(t, i))
  {
    hide Valid, PartsNormal, CutDevice, WithoutDangling;
    DeleteDeviceStaysValid(t, i);
    NormalByParts(t);
    CutDeviceNormal(t, i);
    PruningStaysNormal(CutDevice(t, i));
    NormalByParts(WithoutDevice(t, i));
  }

  lemma DeleteRackStored(t: Topology, i: nat)
    requires Valid(t) && IsNormal(t) && i < |t.racks|
    ensures Valid(WithoutRack(t, i)) && IsNormal(WithoutRack(t, i))
  {
    hide Valid, PartsNormal, CutRack, WithoutDangling;
    DeleteRackStaysValid(t, i);
    NormalByParts(t);
    CutRackNormal(t, i);
    PruningStaysNormal(CutRack(t, i));
    NormalByParts(WithoutRack(t, i));
  }

  lemma DeleteLinkStored(t: Topology, i: nat)
    requires Valid(t) && IsNormal(t) && i < |t.links|
    ensures Valid(WithoutLink(t, i)) && IsNormal(WithoutLink(t, i))
  {
    hide Valid, PartsNormal, CutLink, WithoutDangling;
    DeleteLinkStaysValid(t, i);
    NormalByParts(t);
    CutLinkNormal(t, i);
    PruningStaysNormal(CutLink(t, i));
    NormalByParts(WithoutLink(t, i));
  }

  /** For a topology that is only valid: the normalized result of a deletion is
      valid exactly when, among the remaining cables, none that normalizing moves
      to the rear ends where another already does. */
  lemma DeletionValidIff(t: Topology, i: nat)
    requires Valid(t)
    ensures i < |t.devices| ==> (Valid(Normal(WithoutDevice(t, i))) <==> LegacyFits(CutDevice(t, i)))
    ensures i < |t.racks| ==> (Valid(Normal(WithoutRack(t, i))) <==> LegacyFits(CutRack(t, i)))
    ensures i < |t.links| ==> (Valid(Normal(WithoutLink(t, i))) <==> LegacyFits(CutLink(t, i)))
  {
    hide Valid, LegacyFits, CutDevice, CutRack, CutLink, Normal, PrunedGroups, PrunedSystems, PrunedClusters;
    if i < |t.devices| {
      DeleteDeviceStaysValid(t, i);
      NormalValidIff(WithoutDevice(t, i));
      SameLegacy(CutDevice(t, i), WithoutDevice(t, i));
    }
    if i < |t.racks| {
      DeleteRackStaysValid(t, i);
      NormalValidIff(WithoutRack(t, i));
      SameLegacy(CutRack(t, i), WithoutRack(t, i));
    }
    if i < |t.links| {
      DeleteLinkStaysValid(t, i);
      NormalValidIff(WithoutLink(t, i));
      SameLegacy(CutLink(t, i), WithoutLink(t, i));
    }
  }

  lemma SameLegacy(c: Topology, r: Topology)
    requires r.devices == c.devices && r.links == c.links
    ensures LegacyFits(c) <==> LegacyFits(r)
  {
  }

  // ----- a valid topology whose deletion does not normalize to a valid one

  const OLD_CORD := Link("c1", "a", "a1", Unset, "b", "b1", Unset, "fiber", "", "", NoChannelType, [], 0, "Patch range 1-1")
  const REAR_CABLE := Link("c2", "a", "a1", Rear, "b", "b1", Rear, "fiber", "", "", NoChannelType, [], 0, "")

  function Panel(id: Id, port: Id): Device {
    Device(id, id, "", PatchPanel, 0, "", "", 0, NoFace, 1, [Port(port, id, 1, Network, Access, 1, [], Up)])
  }

  const SPARE := Device("d", "spare", "", Switch, 0, "", "", 0, NoFace, 1, [])

  const TWO_PANELS := Topology("e", [], [], [Panel("a", "a1"), Panel("b", "b1"), SPARE], [OLD_CORD, REAR_CABLE],
                               [], [], [], [1], [], [], [], [])

  lemma ExampleDevices()
    ensures DevicesValid(TWO_PANELS)
  {
    var t := TWO_PANELS;
    assert t.devices[0].ports[0].id == "a1" && t.devices[1].ports[0].id == "b1";
    assert "a1"[0] != "b1"[0] && "a"[0] != "b"[0] && "a"[0] != "d"[0] && "b"[0] != "d"[0];
  }

  lemma ExampleLinks()
    ensures LinksValid(TWO_PANELS)
  {
    hide LinkAnchored;
    assert "a1"[0] != "b1"[0] && "c1"[1] != "c2"[1];
    ExampleAnchored(OLD_CORD);
    ExampleAnchored(REAR_CABLE);
    assert LinksDiffer(OLD_CORD, REAR_CABLE);
  }

  lemma ExampleAnchored(l: Link)
    requires l == OLD_CORD || l == REAR_CABLE
    ensures LinkAnchored(TWO_PANELS, l)
  {
    var t := TWO_PANELS;
    var a, b := Panel("a", "a1"), Panel("b", "b1");
    assert t.devices[0] == a && t.devices[1] == b;
    assert a in t.devices && b in t.devices && a.ports[0] in a.ports && b.ports[0] in b.ports;
  }

  /** The old patch cord sits in front of the rear cable. Deleting an unrelated
      device normalizes the topology, which moves the cord to the rear. */
  lemma ValidIsNotEnough()
    ensures Valid(TWO_PANELS) && !Valid(Normal(WithoutDevice(TWO_PANELS, 2)))
  {
    ExampleDevices();
    ExampleLinks();
    hide DevicesValid, LinksValid, Normal, WithoutDevice;
    var t := TWO_PANELS;
    assert Valid(t);
    DeletionValidIff(t, 2);
    ExampleClash();
  }

  lemma ExampleClash()
    ensures |TWO_PANELS.devices| == 3 && !LegacyFits(CutDevice(TWO_PANELS, 2))
  {
    var t := TWO_PANELS;
    var c := CutDevice(t, 2);
    var a, b := Panel("a", "a1"), Panel("b", "b1");
    assert c.devices == [a, b] by { assert t.devices == [a, b] + [SPARE]; }
    assert a in c.devices && b in c.devices;
    assert t.links[0] == OLD_CORD && t.links[1] == REAR_CABLE;
    assert "a"[0] != "d"[0] && "b"[0] != "d"[0];
    assert OLD_CORD in c.links && REAR_CABLE in c.links;
    assert "Patch range 1-1"[..12] == "Patch range ";
    assert Legacy(c.devices, OLD_CORD);
    assert !NoPortShared(OLD_CORD, REAR_CABLE);
  }
}
