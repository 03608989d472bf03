/** Deleting a device, a rack or a link from a valid topology, and pruning what
    referred to it, gives a valid topology. */
module CascadeTheorems {
  import opened Text
  import opened Sorting
  import opened Lists
  import opened Topology
  import opened Validation
  import opened ValidationFacts
  import opened Draft
  import opened Cascade

  ghost function Pruned(t: Topology): Topology { WithoutDangling(ClustersPruned(SystemsPruned(GroupsPruned(t)))) }

  /** c is t after something was taken out of its racks, devices and links, and
      before anything was pruned. */
  ghost predicate CutOf(t: Topology, c: Topology) {
    && c == t.(racks := c.racks, devices := c.devices, links := c.links)
    && RacksValid(c) && DevicesValid(c) && LinksValid(c)
    && (forall id, k :: DeviceKnown(c, id) && DeviceIs(t, id, k) ==> DeviceIs(c, id, k))
    && (forall l, k :: HasKind(c, l, k) ==> HasKind(t, l, k))
  }

  // ----- members that survive

  lemma SurvivingMembers(ids: seq<Id>, known: set<Id>)
    requires Distinct(ids)
    ensures Distinct(Surviving(ids, known)) && forall id :: id in Surviving(ids, known) <==> id in ids && id in known
  {
    hide Surviving;
    DistinctPairwise(ids);
    FilterPairwise(ids, id => id in known, (a: Id, b: Id) => a != b);
    SurvivingIs(ids, known);
    PairwiseDistinct(Surviving(ids, known));
  }

  lemma SurvivingIs(ids: seq<Id>, known: set<Id>)
    ensures Surviving(ids, known) == Filter(ids, id => id in known)
    ensures forall id :: id in Surviving(ids, known) <==> id in ids && id in known
  {
  }

  lemma DistinctPairwise(ids: seq<Id>)
    requires Distinct(ids)
    ensures Pairwise(ids, (a: Id, b: Id) => a != b)
  {
  }

  lemma PairwiseDistinct(ids: seq<Id>)
    requires Pairwise(ids, (a: Id, b: Id) => a != b)
    ensures Distinct(ids)
  {
    var differ := (a: Id, b: Id) => a != b;
    forall i, j | 0 <= i < j < |ids| ensures ids[i] != ids[j] { assert differ(ids[i], ids[j]); }
  }

  lemma KnownNames(t: Topology)
    ensures forall id :: id in LinkNames(t) <==> LinkKnown(t, id)
    ensures forall id :: id in DeviceNames(t) <==> DeviceKnown(t, id)
  {
  }

  lemma PrunedGroupValid(t: Topology, c: Topology, g: LinkGroup)
    requires GroupValid(t, g) && forall l, k :: HasKind(c, l, k) ==> HasKind(t, l, k)
    requires |PrunedGroup(g, LinkNames(c)).linkIds| >= 2
    ensures GroupValid(c, PrunedGroup(g, LinkNames(c)))
  {
    hide Surviving, LinkKnown, HasKind, LinkNames;
    SurvivingMembers(g.linkIds, LinkNames(c));
    KnownNames(c);
  }

  lemma PrunedGroupsDiffer(g: LinkGroup, h: LinkGroup, known: set<Id>)
    requires GroupsDiffer(g, h)
    ensures GroupsDiffer(PrunedGroup(g, known), PrunedGroup(h, known))
  {
    hide Surviving;
    SurvivingIs(g.linkIds, known);
    SurvivingIs(h.linkIds, known);
  }

  lemma PrunedGroupsValid(t: Topology, c: Topology)
    requires GroupsValid(t) && c.linkGroups == t.linkGroups && forall l, k :: HasKind(c, l, k) ==> HasKind(t, l, k)
    ensures GroupsValid(GroupsPruned(c))
  {
    hide PrunedGroup, GroupValid, HasKind, Filter, Map, GroupsDiffer, LinkNames;
    var known := LinkNames(c);
    var f, keep := (g: LinkGroup) => PrunedGroup(g, known), (g: LinkGroup) => |g.linkIds| >= 2;
    MapPairwise(t.linkGroups, f, GroupsDiffer, GroupsDiffer) by {
      forall g, h | g in t.linkGroups && h in t.linkGroups && GroupsDiffer(g, h) ensures GroupsDiffer(f(g), f(h)) {
        PrunedGroupsDiffer(g, h, known);
      }
    }
    FilterPairwise(Map(t.linkGroups, f), keep, GroupsDiffer);
    forall g | g in GroupsPruned(c).linkGroups ensures GroupValid(GroupsPruned(c), g) {
      var h := MapMember(t.linkGroups, f, g);
      PrunedGroupValid(t, c, h);
      SameLinksGroup(c, GroupsPruned(c), g);
    }
  }

  lemma SameLinksGroup(c: Topology, c': Topology, g: LinkGroup)
    requires c'.links == c.links && c'.devices == c.devices && GroupValid(c, g)
    ensures GroupValid(c', g)
  {
  }

  lemma PrunedSystemValid(t: Topology, c: Topology, s: SwitchSystem)
    requires SystemValid(t, s) && forall id, k :: DeviceKnown(c, id) && DeviceIs(t, id, k) ==> DeviceIs(c, id, k)
    requires |PrunedSystem(s, DeviceNames(c)).deviceIds| >= 2
    ensures SystemValid(c, PrunedSystem(s, DeviceNames(c)))
  {
    hide Surviving, DeviceIs, DeviceNames, DeviceKnown;
    SurvivingMembers(s.deviceIds, DeviceNames(c));
    KnownNames(c);
  }

  lemma PrunedClusterValid(t: Topology, c: Topology, e: FirewallCluster)
    requires ClusterValid(t, e) && forall id, k :: DeviceKnown(c, id) && DeviceIs(t, id, k) ==> DeviceIs(c, id, k)
    requires |PrunedCluster(e, DeviceNames(c)).deviceIds| >= 2
    ensures ClusterValid(c, PrunedCluster(e, DeviceNames(c)))
  {
    hide Surviving, DeviceIs, DeviceNames, DeviceKnown;
    SurvivingMembers(e.deviceIds, DeviceNames(c));
    KnownNames(c);
  }

  lemma PrunedSystemsValid(t: Topology, c: Topology)
    requires SystemsValid(t) && c.switchSystems == t.switchSystems
    requires forall id, k :: DeviceKnown(c, id) && DeviceIs(t, id, k) ==> DeviceIs(c, id, k)
    ensures SystemsValid(SystemsPruned(c))
  {
    hide Surviving, SystemValid, DeviceIs, Filter, Map, DeviceNames, DeviceKnown;
    var known := DeviceNames(c);
    var f, keep := (s: SwitchSystem) => PrunedSystem(s, known), (s: SwitchSystem) => |s.deviceIds| >= 2;
    MapPairwise(t.switchSystems, f, SystemsDiffer, SystemsDiffer) by {
      forall s, u | s in t.switchSystems && u in t.switchSystems && SystemsDiffer(s, u) ensures SystemsDiffer(f(s), f(u)) {
        SurvivingIs(s.deviceIds, known);
        SurvivingIs(u.deviceIds, known);
      }
    }
    FilterPairwise(Map(t.switchSystems, f), keep, SystemsDiffer);
    forall s | s in SystemsPruned(c).switchSystems ensures SystemValid(SystemsPruned(c), s) {
      var u := MapMember(t.switchSystems, f, s);
      PrunedSystemValid(t, c, u);
      SameDevicesMembers(c, SystemsPruned(c), s, FirewallCluster("", ActiveActive, [], ""));
    }
  }

  lemma SameDevicesMembers(c: Topology, c': Topology, s: SwitchSystem, e: FirewallCluster)
    requires c'.devices == c.devices
    ensures SystemValid(c, s) ==> SystemValid(c', s)
    ensures ClusterValid(c, e) ==> ClusterValid(c', e)
  {
  }

  lemma PrunedClustersValid(t: Topology, c: Topology)
    requires ClustersValid(t) && c.firewallClusters == t.firewallClusters
    requires forall id, k :: DeviceKnown(c, id) && DeviceIs(t, id, k) ==> DeviceIs(c, id, k)
    ensures ClustersValid(ClustersPruned(c))
  {
    hide Surviving, ClusterValid, DeviceIs, Filter, Map, DeviceNames, DeviceKnown;
    var known := DeviceNames(c);
    var f, keep := (e: FirewallCluster) => PrunedCluster(e, known), (e: FirewallCluster) => |e.deviceIds| >= 2;
    MapPairwise(t.firewallClusters, f, ClustersDiffer, ClustersDiffer) by {
      forall e, u | e in t.firewallClusters && u in t.firewallClusters && ClustersDiffer(e, u) ensures ClustersDiffer(f(e), f(u)) {
        SurvivingIs(e.deviceIds, known);
        SurvivingIs(u.deviceIds, known);
      }
    }
    FilterPairwise(Map(t.firewallClusters, f), keep, ClustersDiffer);
    forall e | e in ClustersPruned(c).firewallClusters ensures ClusterValid(ClustersPruned(c), e) {
      var u := MapMember(t.firewallClusters, f, e);
      PrunedClusterValid(t, c, u);
      SameDevicesMembers(c, ClustersPruned(c), SwitchSystem("", "", []), e);
    }
  }

  // ----- attachments that survive

  lemma DanglingPruned(t: Topology, c: Topology)
    requires AttachmentsValid(t) && c.threads == t.threads && c.documents == t.documents && c.photos == t.photos
    requires c.annotations == t.annotations
    ensures AttachmentsValid(WithoutDangling(c))
  {
    hide Filter, TargetExists, AttachmentsDiffer;
    var r := WithoutDangling(c);
    FilterPairwise(t.threads, a => KeepsThread(c, a), AttachmentsDiffer);
    FilterPairwise(t.documents, a => DocumentValid(c, a), AttachmentsDiffer);
    FilterPairwise(t.photos, a => PhotoValid(c, a), AttachmentsDiffer);
    forall a | TargetExists(c, a) ensures TargetExists(r, a) { SameTargets(c, r, a); }
    forall a | a in r.threads ensures ThreadValid(r, a) { KeptThread(t, c, r, a); }
    forall a | a in r.documents ensures DocumentValid(r, a) { assert DocumentValid(c, a); }
    forall a | a in r.photos ensures PhotoValid(r, a) { assert PhotoValid(c, a); }
  }

  lemma KeptThread(t: Topology, c: Topology, r: Topology, a: Attachment)
    requires ThreadValid(t, a) && KeepsThread(c, a)
    requires forall b :: TargetExists(c, b) ==> TargetExists(r, b)
    ensures ThreadValid(r, a)
  {
    hide RackKnown, DeviceKnown, PortKnown, LinkKnown;
  }

  lemma SameTargets(c: Topology, r: Topology, a: Attachment)
    requires r.racks == c.racks && r.devices == c.devices && r.links == c.links && r.id == c.id && r.annotations == c.annotations
    requires TargetExists(c, a)
    ensures TargetExists(r, a)
  {
  }

  // ----- pruning repairs

  lemma SameKeptParts(c: Topology, r: Topology)
    requires r == c.(linkGroups := r.linkGroups, switchSystems := r.switchSystems, firewallClusters := r.firewallClusters,
                     threads := r.threads, documents := r.documents, photos := r.photos)
    requires RacksValid(c) && DevicesValid(c) && LinksValid(c)
    ensures RacksValid(r) && DevicesValid(r) && LinksValid(r)
  {
    hide DevicesDiffer, DeviceValid, LinksDiffer, LinkWellFormed, LinkAnchored;
    forall d | d in r.devices ensures DeviceValid(r, d) { SameDeviceValid(c, r, d); }
    forall l | l in r.links ensures LinkAnchored(r, l) { SameAnchored(c, r, l); }
  }

  lemma SameAnchored(c: Topology, r: Topology, l: Link)
    requires r.devices == c.devices && r.vlans == c.vlans && LinkAnchored(c, l)
    ensures LinkAnchored(r, l)
  {
  }

  lemma SameMemberParts(c: Topology, r: Topology)
    requires r.devices == c.devices && r.links == c.links
    ensures r.linkGroups == c.linkGroups && GroupsValid(c) ==> GroupsValid(r)
    ensures r.switchSystems == c.switchSystems && SystemsValid(c) ==> SystemsValid(r)
    ensures r.firewallClusters == c.firewallClusters && ClustersValid(c) ==> ClustersValid(r)
  {
    hide GroupValid, SystemValid, ClusterValid, GroupsDiffer, SystemsDiffer, ClustersDiffer;
    forall g | GroupValid(c, g) ensures GroupValid(r, g) { SameLinksGroup(c, r, g); }
    forall s | SystemValid(c, s) ensures SystemValid(r, s) {
      SameDevicesMembers(c, r, s, FirewallCluster("", ActiveActive, [], ""));
    }
    forall e | ClusterValid(c, e) ensures ClusterValid(r, e) { SameDevicesMembers(c, r, SwitchSystem("", "", []), e); }
  }

  /** Whatever was taken out, pruning makes the rest valid: groups, systems and
      clusters keep at least two members, primary and active members are among
      them, and no reference dangles. */
  lemma PruningRepairs(t: Topology, c: Topology)
    requires Valid(t) && CutOf(t, c)
    ensures Valid(Pruned(c))
  {
    hide RacksValid, DevicesValid, LinksValid, GroupsValid, SystemsValid, ClustersValid, AttachmentsValid,
         PrunedGroups, PrunedSystems, PrunedClusters, DeviceIs, DeviceKnown, HasKind, KeepsThread, DocumentValid, PhotoValid;
    var c1 := GroupsPruned(c);
    var c2 := SystemsPruned(c1);
    var c3 := ClustersPruned(c2);
    var r := WithoutDangling(c3);
    PrunedGroupsValid(t, c);
    SameDeviceFacts(c, c1);
    PrunedSystemsValid(t, c1);
    SameDeviceFacts(c, c2);
    PrunedClustersValid(t, c2);
    SameMemberParts(c1, r);
    SameMemberParts(c2, r);
    SameMemberParts(c3, r);
    DanglingPruned(t, c3);
    SameKeptParts(c, r);
  }

  lemma SameDeviceFacts(c: Topology, c': Topology)
    requires c'.devices == c.devices
    ensures forall id :: DeviceKnown(c', id) ==> DeviceKnown(c, id)
    ensures forall id, k :: DeviceIs(c, id, k) ==> DeviceIs(c', id, k)
  {
  }

  // ----- a device

  lemma DeviceSurvives(t: Topology, i: nat, d: Device)
    requires i < |t.devices| && d in t.devices && d.id != t.devices[i].id
    ensures d in RemoveAt(t.devices, i)
  {
    RemovedOne(t.devices, i, d);
  }

  lemma CutDeviceAnchored(t: Topology, i: nat, l: Link)
    requires i < |t.devices| && LinkAnchored(t, l) && !Touches(l, t.devices[i].id)
    ensures LinkAnchored(CutDevice(t, i), l)
  {
    var c := CutDevice(t, i);
    forall d | d in t.devices && d.id != t.devices[i].id ensures d in c.devices { DeviceSurvives(t, i, d); }
  }

  lemma CutDeviceLinks(t: Topology, i: nat)
    requires LinksValid(t) && i < |t.devices|
    ensures LinksValid(CutDevice(t, i))
  {
    hide LinksDiffer, LinkWellFormed, LinkAnchored, Filter;
    var keep := (l: Link) => !Touches(l, t.devices[i].id);
    FilterPairwise(t.links, keep, LinksDiffer);
    forall l | l in CutDevice(t, i).links ensures LinkWellFormed(l) && LinkAnchored(CutDevice(t, i), l) {
      CutDeviceAnchored(t, i, l);
    }
  }

  lemma CutDeviceDevices(t: Topology, i: nat)
    requires DevicesValid(t) && i < |t.devices|
    ensures DevicesValid(CutDevice(t, i))
  {
    hide DevicesDiffer, DeviceValid, Filter;
    var c := CutDevice(t, i);
    RemovePairwise(t.devices, i, DevicesDiffer);
    forall d | d in c.devices ensures DeviceValid(c, d) { SameDeviceValid(t, c, d); }
  }

  lemma CutDeviceFacts(t: Topology, i: nat)
    requires DevicesValid(t) && i < |t.devices|
    ensures var c := CutDevice(t, i);
            && (forall id, k :: DeviceKnown(c, id) && DeviceIs(t, id, k) ==> DeviceIs(c, id, k))
            && (forall l, k :: HasKind(c, l, k) ==> HasKind(t, l, k))
            && !DeviceKnown(c, t.devices[i].id)
  {
    hide DeviceValid, Overlap, Filter;
    var c := CutDevice(t, i);
    ValidPorts(t);
    forall d | d in c.devices ensures d.id != t.devices[i].id {
      var k :| 0 <= k < |c.devices| && c.devices[k] == d;
    }
    forall id, k | DeviceKnown(c, id) && DeviceIs(t, id, k) ensures DeviceIs(c, id, k) {
      var d :| d in t.devices && d.id == id && d.category == k;
      DeviceSurvives(t, i, d);
    }
  }

  /** Deleting a device, with the cables at it, and pruning keeps a topology
      valid; the device is no longer known and no cable ends at it. */
  lemma DeleteDeviceStaysValid(t: Topology, i: nat)
    requires Valid(t) && i < |t.devices|
    ensures Valid(WithoutDevice(t, i))
    ensures var r := WithoutDevice(t, i);
            !DeviceKnown(r, t.devices[i].id) && forall l | l in t.links :: l in r.links <==> !Touches(l, t.devices[i].id)
  {
    hide DevicesValid, LinksValid, GroupsValid, SystemsValid, ClustersValid, AttachmentsValid, DeviceIs, HasKind,
         PrunedGroups, PrunedSystems, PrunedClusters, KeepsThread, DocumentValid, PhotoValid;
    var c := CutDevice(t, i);
    CutDeviceDevices(t, i);
    CutDeviceLinks(t, i);
    CutDeviceFacts(t, i);
    PruningRepairs(t, c);
  }

  // ----- a rack

  lemma UnmountedValid(t: Topology, i: nat, d: Device)
    requires RacksValid(t) && DeviceValid(t, d) && i < |t.racks|
    ensures DeviceValid(CutRack(t, i), Unmounted(d, t.racks[i]))
  {
    var r, c := t.racks[i], CutRack(t, i);
    assert r in t.racks;
    forall p | p in d.ports ensures PortValid(c, p, d.id) { SamePortValid(t, c, p, d.id); }
    if d.rackId != r.id && d.rackId != "" {
      assert Mounted(t, d);
      var u :| u in t.racks && u.id == d.rackId && LastUnitFits(d, u);
      RemovedOne(t.racks, i, u);
    }
  }

  lemma UnmountedDiffer(d: Device, e: Device, r: Rack)
    requires DevicesDiffer(d, e)
    ensures DevicesDiffer(Unmounted(d, r), Unmounted(e, r))
  {
  }

  lemma CutRackDevices(t: Topology, i: nat)
    requires RacksValid(t) && DevicesValid(t) && i < |t.racks|
    ensures DevicesValid(CutRack(t, i))
  {
    hide RacksValid, DevicesDiffer, DeviceValid, Unmounted;
    var f := (d: Device) => Unmounted(d, t.racks[i]);
    MapPairwise(t.devices, f, DevicesDiffer, DevicesDiffer) by {
      forall d, e | d in t.devices && e in t.devices && DevicesDiffer(d, e) ensures DevicesDiffer(f(d), f(e)) {
        UnmountedDiffer(d, e, t.racks[i]);
      }
    }
    forall d | d in CutRack(t, i).devices ensures DeviceValid(CutRack(t, i), d) {
      var e := MapMember(t.devices, f, d);
      UnmountedValid(t, i, e);
    }
  }

  lemma CutRackRacks(t: Topology, i: nat)
    requires RacksValid(t) && i < |t.racks|
    ensures RacksValid(CutRack(t, i)) && !RackKnown(CutRack(t, i), t.racks[i].id)
  {
    var c := CutRack(t, i);
    RemovePairwise(t.racks, i, RacksDiffer);
    forall u | u in c.racks ensures u.id != t.racks[i].id {
      var k :| 0 <= k < |c.racks| && c.racks[k] == u;
      assert if k < i then RacksDiffer(t.racks[k], t.racks[i]) else RacksDiffer(t.racks[i], t.racks[k + 1]);
    }
  }

  /** The devices are the same but for where they are mounted. */
  lemma CutRackFacts(t: Topology, i: nat)
    requires i < |t.racks|
    ensures var c := CutRack(t, i);
            && (forall id, k :: DeviceIs(c, id, k) <==> DeviceIs(t, id, k))
            && (forall id :: DeviceKnown(c, id) <==> DeviceKnown(t, id))
            && (forall d, p :: PortOn(c.devices, d, p) <==> PortOn(t.devices, d, p))
            && (forall l, k :: HasKind(c, l, k) ==> HasKind(t, l, k))
  {
    hide CutRack, SameProfiles, DeviceIs, DeviceKnown, PortOn, HasKind;
    var c := CutRack(t, i);
    CutRackProfiles(t, i);
    ProfilesTell(t, c);
    ProfilesTell(c, t);
    ProfilesTellKind(c, t);
  }

  /** Every device is among the others as far as its kind and ports go. */
  ghost predicate SameProfiles(ds: seq<Device>, es: seq<Device>) {
    forall d | d in ds :: exists e :: e in es && e.id == d.id && e.category == d.category && e.ports == d.ports
  }

  lemma CutRackProfiles(t: Topology, i: nat)
    requires i < |t.racks|
    ensures SameProfiles(t.devices, CutRack(t, i).devices) && SameProfiles(CutRack(t, i).devices, t.devices)
    ensures CutRack(t, i).links == t.links
  {
    var c, f := CutRack(t, i), (d: Device) => Unmounted(d, t.racks[i]);
    forall d | d in t.devices ensures f(d) in c.devices && f(d).id == d.id && f(d).category == d.category && f(d).ports == d.ports {
      var k :| 0 <= k < |t.devices| && t.devices[k] == d;
      assert c.devices[k] == f(d);
    }
    forall e | e in c.devices ensures exists d :: d in t.devices && e.id == d.id && e.category == d.category && e.ports == d.ports {
      var d := MapMember(t.devices, f, e);
    }
  }

  lemma ProfilesTell(t: Topology, c: Topology)
    requires SameProfiles(t.devices, c.devices)
    ensures forall id, k :: DeviceIs(t, id, k) ==> DeviceIs(c, id, k)
    ensures forall id :: DeviceKnown(t, id) ==> DeviceKnown(c, id)
    ensures forall d, p :: PortOn(t.devices, d, p) ==> PortOn(c.devices, d, p)
  {
  }

  lemma ProfilesTellKind(t: Topology, c: Topology)
    requires SameProfiles(t.devices, c.devices) && t.links == c.links
    ensures forall l, k :: HasKind(t, l, k) ==> HasKind(c, l, k)
  {
    hide HasKind;
    forall l, k | HasKind(t, l, k) ensures HasKind(c, l, k) { ProfileTellsKind(t, c, l, k); }
  }

  lemma ProfileTellsKind(t: Topology, c: Topology, link: Id, physical: bool)
    requires SameProfiles(t.devices, c.devices) && t.links == c.links && HasKind(t, link, physical)
    ensures HasKind(c, link, physical)
  {
    var l, d, p :| l in t.links && l.id == link && d in t.devices && p in d.ports
      && (p.id == l.sourcePortId || p.id == l.targetPortId) && p.kind.PhysicalOnly() == physical;
    var e :| e in c.devices && e.id == d.id && e.category == d.category && e.ports == d.ports;
  }

  lemma CutRackLinks(t: Topology, i: nat)
    requires LinksValid(t) && i < |t.racks|
    ensures LinksValid(CutRack(t, i))
  {
    hide LinksDiffer, LinkWellFormed, PortOn, DeviceIs, Map, Unmounted;
    CutRackFacts(t, i);
    forall l | l in t.links ensures LinkAnchored(CutRack(t, i), l) { assert LinkAnchored(t, l); }
  }

  lemma {:induction false} AllSurvive(ids: seq<Id>, known: set<Id>)
    requires forall id | id in ids :: id in known
    ensures Surviving(ids, known) == ids
  {
    FilterAll(ids, id => id in known);
  }

  lemma MapSame<T>(s: seq<T>, f: T -> T)
    requires forall x | x in s :: f(x) == x
    ensures Map(s, f) == s
  {
    assert forall i | 0 <= i < |s| :: s[i] in s;
  }

  /** Where nothing is missing there is nothing to prune. */
  lemma NothingToPruneGroups(t: Topology, c: Topology)
    requires GroupsValid(t) && c.linkGroups == t.linkGroups && c.links == t.links
    ensures GroupsPruned(c) == c
  {
    hide Surviving, Filter, Map, LinkNames, LinkKnown, MixesKinds;
    KnownNames(c);
    SameLinkNames(t, c);
    var known := LinkNames(c);
    forall g | g in t.linkGroups ensures PrunedGroup(g, known) == g && |g.linkIds| >= 2 {
      assert GroupValid(t, g);
      AllSurvive(g.linkIds, known);
    }
    MapSame(t.linkGroups, g => PrunedGroup(g, known));
    FilterAll(t.linkGroups, (g: LinkGroup) => |g.linkIds| >= 2);
  }

  lemma SameLinkNames(t: Topology, c: Topology)
    requires c.links == t.links
    ensures forall id :: LinkKnown(t, id) ==> LinkKnown(c, id)
  {
  }

  lemma NothingToPruneMembers(t: Topology, c: Topology)
    requires SystemsValid(t) && ClustersValid(t) && c.switchSystems == t.switchSystems && c.firewallClusters == t.firewallClusters
    requires forall id :: DeviceKnown(t, id) ==> DeviceKnown(c, id)
    ensures SystemsPruned(c) == c && ClustersPruned(c) == c
  {
    hide Surviving, Filter, Map, DeviceNames, DeviceKnown, DeviceIs;
    KnownNames(c);
    var known := DeviceNames(c);
    forall s | s in t.switchSystems ensures PrunedSystem(s, known) == s && |s.deviceIds| >= 2 {
      assert SystemValid(t, s);
      forall id | id in s.deviceIds ensures id in known { IsKnown(t, id, Switch); }
      AllSurvive(s.deviceIds, known);
    }
    MapSame(t.switchSystems, s => PrunedSystem(s, known));
    FilterAll(t.switchSystems, (s: SwitchSystem) => |s.deviceIds| >= 2);
    forall e | e in t.firewallClusters ensures PrunedCluster(e, known) == e && |e.deviceIds| >= 2 {
      assert ClusterValid(t, e);
      forall id | id in e.deviceIds ensures id in known { IsKnown(t, id, Firewall); }
      AllSurvive(e.deviceIds, known);
    }
    MapSame(t.firewallClusters, e => PrunedCluster(e, known));
    FilterAll(t.firewallClusters, (e: FirewallCluster) => |e.deviceIds| >= 2);
  }

  lemma IsKnown(t: Topology, id: Id, category: Category)
    requires DeviceIs(t, id, category)
    ensures DeviceKnown(t, id)
  {
  }

  /** Deleting a rack keeps a topology valid: its devices are unmounted into its
      room, and cables, groups, systems and clusters are as before. */
  lemma DeleteRackStaysValid(t: Topology, i: nat)
    requires Valid(t) && i < |t.racks|
    ensures Valid(WithoutRack(t, i)) && !RackKnown(WithoutRack(t, i), t.racks[i].id)
  {
    hide RacksValid, DevicesValid, LinksValid, GroupsValid, SystemsValid, ClustersValid, AttachmentsValid, DeviceIs, HasKind, PortOn,
         DeviceKnown, PrunedGroups, PrunedSystems, PrunedClusters, KeepsThread, DocumentValid, PhotoValid, Unmounted;
    var c := CutRack(t, i);
    CutRackRacks(t, i);
    CutRackDevices(t, i);
    CutRackLinks(t, i);
    CutRackFacts(t, i);
    PruningRepairs(t, c);
    NothingToPruneGroups(t, c);
    NothingToPruneMembers(t, c);
  }

  // ----- a link

  ghost function RemoveLink(t: Topology, i: nat): Topology
    requires i < |t.links|
  {
    t.(links := RemoveAt(t.links, i))
  }

  lemma RemoveLinkLinks(t: Topology, i: nat)
    requires LinksValid(t) && i < |t.links|
    ensures LinksValid(RemoveLink(t, i)) && !LinkKnown(RemoveLink(t, i), t.links[i].id)
  {
    hide LinkWellFormed, LinkAnchored, Terminations;
    var c := RemoveLink(t, i);
    RemovePairwise(t.links, i, LinksDiffer);
    forall l | l in c.links ensures LinkAnchored(c, l) { SameAnchored(t, c, l); }
    forall l | l in c.links ensures l.id != t.links[i].id {
      var k :| 0 <= k < |c.links| && c.links[k] == l;
      assert if k < i then LinksDiffer(t.links[k], t.links[i]) else LinksDiffer(t.links[i], t.links[k + 1]);
    }
  }

  lemma StatusKeepsPorts(ids: set<Id>, status: PortStatus)
    ensures KeepsPorts(SetStatus(ids, status))
  {
  }

  lemma StatusAcceptable(t: Topology, ids: set<Id>, status: PortStatus)
    requires DevicesValid(t)
    ensures PortsAcceptable(t, SetStatus(ids, status))
  {
    forall d, p | d in t.devices && p in d.ports ensures PortValid(t, SetStatus(ids, status)(p), d.id) {
      assert DeviceValid(t, d) && PortValid(t, p, d.id);
    }
  }

  lemma CutLinkIsCut(t: Topology, i: nat)
    requires Valid(t) && i < |t.links|
    ensures CutOf(t, CutLink(t, i)) && forall id :: DeviceKnown(t, id) ==> DeviceKnown(CutLink(t, i), id)
  {
    hide DevicesValid, LinksValid, GroupsValid, SystemsValid, ClustersValid, AttachmentsValid, DeviceIs, HasKind, DeviceKnown,
         PortOn, PortKnown, LinkKnown, Unlinked, MapAllPorts, SetStatus, KeepsPorts, PortsAcceptable;
    var u := RemoveLink(t, i);
    var f := SetStatus(Unlinked(t.links[i], u.links), Down);
    RemoveLinkLinks(t, i);
    StatusKeepsPorts(Unlinked(t.links[i], u.links), Down);
    assert DevicesValid(u) by { SameRooms(t, u); }
    StatusAcceptable(u, Unlinked(t.links[i], u.links), Down);
    MappedDevicesValid(u, f);
    MappedCovers(u, f);
    assert CutLink(t, i) == u.(devices := MapAllPorts(u.devices, f));
    CoveredLinks(u, CutLink(t, i));
    SameDeviceFacts(t, u);
    KnownTransfers(t, u);
    FewerKinds(t, i);
    assert RacksValid(CutLink(t, i)) by { SameRacks(t, CutLink(t, i)); }
  }

  lemma SameRooms(t: Topology, u: Topology)
    requires DevicesValid(t) && u.devices == t.devices && u.rooms == t.rooms && u.racks == t.racks && u.vlans == t.vlans
    ensures DevicesValid(u)
  {
    hide DeviceValid, DevicesDiffer;
    forall d | d in u.devices ensures DeviceValid(u, d) { SameDeviceValid(t, u, d); }
  }

  lemma SameRacks(t: Topology, u: Topology)
    requires RacksValid(t) && u.rooms == t.rooms && u.racks == t.racks
    ensures RacksValid(u)
  {
  }

  lemma KnownTransfers(t: Topology, u: Topology)
    requires u.devices == t.devices
    ensures forall id :: DeviceKnown(t, id) ==> DeviceKnown(u, id)
    ensures forall id, k :: DeviceIs(t, id, k) ==> DeviceIs(u, id, k)
  {
  }

  lemma FewerKinds(t: Topology, i: nat)
    requires i < |t.links|
    ensures forall l, k :: HasKind(RemoveLink(t, i), l, k) ==> HasKind(t, l, k)
  {
  }

  /** Deleting a link, switching off the ports it leaves bare, and pruning keeps
      a topology valid; the link is no longer known. */
  lemma DeleteLinkStaysValid(t: Topology, i: nat)
    requires Valid(t) && i < |t.links|
    ensures Valid(WithoutLink(t, i)) && !LinkKnown(WithoutLink(t, i), t.links[i].id)
  {
    hide RacksValid, DevicesValid, LinksValid, GroupsValid, SystemsValid, ClustersValid, AttachmentsValid, DeviceIs, HasKind, DeviceKnown,
         PrunedGroups, PrunedSystems, PrunedClusters, KeepsThread, DocumentValid, PhotoValid, CutOf, Deactivated;
    var c := CutLink(t, i);
    CutLinkIsCut(t, i);
    RemoveLinkLinks(t, i);
    PruningRepairs(t, c);
    NothingToPruneMembers(t, GroupsPruned(c)) by { StillKnown(t, i); }
  }

  lemma StillKnown(t: Topology, i: nat)
    requires Valid(t) && i < |t.links|
    ensures forall id :: DeviceKnown(t, id) ==> DeviceKnown(GroupsPruned(CutLink(t, i)), id)
  {
    hide CutOf, Valid, Deactivated, PrunedGroups;
    CutLinkIsCut(t, i);
    KnownTransfers(CutLink(t, i), GroupsPruned(CutLink(t, i)));
  }

  // ----- what becomes of a group

  /** A group survives exactly when two of its cables do; it keeps just those, in
      order, and its primary cable if that is one of them. */
  lemma GroupFate(t: Topology, c: Topology, g: LinkGroup)
    requires GroupsValid(t) && c.linkGroups == t.linkGroups && g in t.linkGroups
    ensures var members := Surviving(g.linkIds, LinkNames(c));
            && ((exists h :: h in GroupsPruned(c).linkGroups && h.id == g.id) <==> |members| >= 2)
            && forall h | h in GroupsPruned(c).linkGroups && h.id == g.id ::
                 && h.linkIds == members
                 && (h.primaryLinkId == g.primaryLinkId || (g.mode.Failover? && g.primaryLinkId !in members && h.primaryLinkId == members[0]))
  {
    hide Surviving, Filter, Map, LinkNames, GroupValid;
    var known := LinkNames(c);
    var f := (x: LinkGroup) => PrunedGroup(x, known);
    var i :| 0 <= i < |t.linkGroups| && t.linkGroups[i] == g;
    assert Map(t.linkGroups, f)[i] == f(g);
    forall h | h in GroupsPruned(c).linkGroups && h.id == g.id ensures h == f(g) {
      var x := MapMember(t.linkGroups, f, h);
      var j :| 0 <= j < |t.linkGroups| && t.linkGroups[j] == x;
      assert i < j ==> GroupsDiffer(g, x);
      assert j < i ==> GroupsDiffer(x, g);
    }
    if |Surviving(g.linkIds, known)| >= 2 { assert f(g) in GroupsPruned(c).linkGroups; }
  }
}
